/** The deployment policy, stated without an order of checks, and what the validator's verdict means. */
module ManifestPolicy {
  import opened Options
  import opened Manifest

  /** The values that Python takes for false. */
  predicate IsEmpty(j: Json) {
    j == Null || j == Bool(false) || j == Num(0.0) || j == Str("") || j == Arr([]) || j == Obj(map[])
  }

  // ---- The policy of one instance ----

  /** The project's configuration is managed as code: production services need no file of their own. */
  ghost predicate Imported(data: Fields) {
    exists iac :: Get(data, "infrastructureAsCode") == Obj(iac) && Get(iac, "status") == Str("managed")
  }

  ghost predicate PersistentPolicy(data: Fields, branches: Fields, inst: Instance, branch: Json)
    requires Patterns(inst).Arr?
  {
    && Same(branch, Get(branches, inst.environment))
    && Get(inst.fields, "waitForCi") == Bool(true)
    && (forall k :: 0 <= k < |Patterns(inst).items| ==> !Manual(Patterns(inst).items[k]))
    && Filled(Get(inst.fields, "rootDirectory")) && Filled(Get(inst.fields, "dockerfilePath"))
    && ((Imported(data) && inst.environment == "production") || Filled(Get(inst.fields, "configFile")))
    && (OneOf(Get(inst.fields, "kind"), {"http", "worker"}) ==> !IsEmpty(Get(inst.fields, "healthcheckPath")))
    && Get(inst.fields, "restartPolicyType") == Str("ON_FAILURE")
  }

  ghost predicate LifecyclePolicy(data: Fields, branches: Fields, inst: Instance, branch: Json)
    requires AllRooted(Patterns(inst))
  {
    var lifecycle := Get(inst.fields, "lifecycle");
    && (lifecycle == Str("persistent") ==> PersistentPolicy(data, branches, inst, branch))
    && (OneOf(lifecycle, {"manual", "preview"}) ==>
          && Patterns(inst) == Arr([Str("/.manual-deploy-only/" + inst.name + "/**")])
          && Get(inst.fields, "waitForCi") == Bool(false))
  }

  ghost predicate ConfigPolicy(inst: Instance, config: Fields) {
    var build, deploy := GetOr(config, "build", Obj(map[])), GetOr(config, "deploy", Obj(map[]));
    && build.Obj? && deploy.Obj?
    && (Get(inst.fields, "dockerfilePath").Str? && Get(build.fields, "dockerfilePath").Str? ==>
          var root := GetOr(inst.fields, "rootDirectory", Str("/"));
          && root.Str?
          && NormalizedRepoPath(root.s, build.fields["dockerfilePath"].s) == inst.fields["dockerfilePath"].s)
    && Same(Get(build.fields, "watchPatterns"), Patterns(inst))
    && Same(Get(deploy.fields, "healthcheckPath"), Get(inst.fields, "healthcheckPath"))
    && Same(Get(deploy.fields, "restartPolicyType"), Get(inst.fields, "restartPolicyType"))
  }

  /** The files an instance names exist, and its configuration file agrees with it. */
  ghost predicate FilesPolicy(repo: Repo, inst: Instance) {
    var dockerfile, file := Get(inst.fields, "dockerfilePath"), Get(inst.fields, "configFile");
    && (dockerfile.Str? ==> IsFile(repo, LStripSlash(dockerfile.s)))
    && (file.Str? ==>
          && LStripSlash(file.s) in repo && repo[LStripSlash(file.s)].File?
          && var json := repo[LStripSlash(file.s)].json;
             json.Some? && json.value.Obj? && ConfigPolicy(inst, json.value.fields))
  }

  ghost predicate GithubPolicy(data: Fields, branches: Fields, repo: Repo, inst: Instance, branch: Json) {
    var lifecycle, iac := Get(inst.fields, "lifecycle"), Get(data, "infrastructureAsCode");
    && Filled(branch) && AllRooted(Patterns(inst)) && FilesPolicy(repo, inst)
    && (lifecycle == Str("persistent") ==> IsEmpty(iac) || iac.Obj?)
    && LifecyclePolicy(data, branches, inst, branch)
  }

  ghost predicate OwnPolicy(data: Fields, branches: Fields, repo: Repo, inst: Instance) {
    var lifecycle, source := Get(inst.fields, "lifecycle"), Get(inst.fields, "source");
    && OneOf(lifecycle, LIFECYCLES) && OneOf(Get(inst.fields, "kind"), KINDS)
    && source.Obj? && OneOf(Get(source.fields, "type"), SOURCE_TYPES)
    && if Get(source.fields, "type") == Str("github")
       then GithubPolicy(data, branches, repo, inst, Get(source.fields, "branch"))
       else lifecycle != Str("persistent") && IsEmpty(Patterns(inst))
  }

  ghost predicate Proper(data: Fields, branches: Fields, repo: Repo, j: Json) {
    && Named(j).Some? && Named(j).value.environment in branches
    && OwnPolicy(data, branches, repo, Named(j).value)
  }

  /** What ties an instance to the others. */
  datatype Identity = Identity(name: string, environment: string, serviceId: string)

  function IdentityOf(j: Json): Identity {
    match Named(j)
    case None => Identity("", "", "")
    case Some(inst) => Identity(inst.name, inst.environment, inst.serviceId)
  }

  function Identities(instances: seq<Json>): seq<Identity> {
    seq(|instances|, k requires 0 <= k < |instances| => IdentityOf(instances[k]))
  }

  /** Two instances differ as (name, environment) pairs, and share a serviceId if they share a name. */
  predicate Compatible(a: Identity, b: Identity) {
    a.name == b.name ==> a.environment != b.environment && a.serviceId == b.serviceId
  }

  ghost predicate AllCompatible(ids: seq<Identity>) {
    forall i, k :: 0 <= i < k < |ids| ==> Compatible(ids[i], ids[k])
  }

  ghost predicate AllProper(data: Fields, branches: Fields, repo: Repo, instances: seq<Json>) {
    forall k :: 0 <= k < |instances| ==> Proper(data, branches, repo, instances[k])
  }

  ghost predicate Clean(data: Fields, branches: Fields, repo: Repo, instances: seq<Json>) {
    AllProper(data, branches, repo, instances) && AllCompatible(Identities(instances))
  }

  ghost predicate Policy(data: Fields, repo: Repo) {
    var instances := Get(data, "instances");
    && Branches(data) != map[] && !BadRepositoryName(Get(data, "repository"))
    && instances.Arr? && instances.items != []
    && Clean(data, Branches(data), repo, instances.items)
  }

  // ---- No errors means the policy holds ----

  lemma MatchClean(errors: seq<Error>, at: nat, inst: Instance, config: Fields)
    requires AllRooted(Patterns(inst))
    ensures MatchErrors(errors, at, inst, config) == Errors([]) <==> errors == [] && ConfigPolicy(inst, config)
  {
  }

  lemma ConfigClean(errors: seq<Error>, at: nat, repo: Repo, inst: Instance)
    requires AllRooted(Patterns(inst))
    ensures ConfigErrors(Noted(errors, at, DockerfileGone(repo, inst), DockerfileMissing), at, repo, inst) == Errors([])
      <==> errors == [] && FilesPolicy(repo, inst)
  {
    var e := Noted(errors, at, DockerfileGone(repo, inst), DockerfileMissing);
    var file := Get(inst.fields, "configFile");
    if file.Str? && LStripSlash(file.s) in repo {
      match repo[LStripSlash(file.s)]
      case File(_, Some(Obj(config))) => MatchClean(e, at, inst, config);
      case _ =>
    }
  }

  lemma PersistentClean(errors: seq<Error>, at: nat, data: Fields, branches: Fields, inst: Instance, branch: Json)
    requires AllRooted(Patterns(inst))
    ensures PersistentErrors(errors, at, data, branches, inst, branch) == []
      <==> errors == [] && PersistentPolicy(data, branches, inst, branch)
  {
    RequiredIff(data, inst);
  }

  lemma RequiredIff(data: Fields, inst: Instance)
    ensures (forall f :: f in RequiredFields(data, inst.environment) ==> Filled(Get(inst.fields, f)))
      <==> && Filled(Get(inst.fields, "rootDirectory")) && Filled(Get(inst.fields, "dockerfilePath"))
           && ((Imported(data) && inst.environment == "production") || Filled(Get(inst.fields, "configFile")))
  {
    var required := RequiredFields(data, inst.environment);
    var iac := Get(data, "infrastructureAsCode");
    assert "rootDirectory" in required && "dockerfilePath" in required;
    if iac.Obj? && Get(iac.fields, "status") == Str("managed") {
      assert iac == Obj(iac.fields) && Imported(data);
    }
    if !(Imported(data) && inst.environment == "production") {
      assert "configFile" in required;
    }
  }

  lemma FrozenClean(errors: seq<Error>, at: nat, inst: Instance)
    requires AllRooted(Patterns(inst))
    ensures FrozenErrors(errors, at, inst) == []
      <==> errors == [] && Patterns(inst) == FrozenPatterns(inst.name) && Get(inst.fields, "waitForCi") == Bool(false)
  {
  }

  lemma ConfigKeepsErrors(errors: seq<Error>, at: nat, repo: Repo, inst: Instance)
    requires errors != []
    ensures ConfigErrors(errors, at, repo, inst) != Errors([])
  {
  }

  lemma LifecycleKeepsErrors(errors: seq<Error>, at: nat, data: Fields, branches: Fields, inst: Instance, branch: Json)
    requires errors != []
    ensures LifecycleErrors(errors, at, data, branches, inst, branch) != []
  {
  }

  lemma LifecycleClean(errors: seq<Error>, at: nat, data: Fields, branches: Fields, inst: Instance, branch: Json)
    requires AllRooted(Patterns(inst))
    ensures LifecycleErrors(errors, at, data, branches, inst, branch) == []
      <==> errors == [] && LifecyclePolicy(data, branches, inst, branch)
  {
    PersistentClean(errors, at, data, branches, inst, branch);
    FrozenClean(errors, at, inst);
  }

  lemma GithubClean(errors: seq<Error>, at: nat, data: Fields, branches: Fields, repo: Repo, inst: Instance,
                    source: Fields)
    ensures GithubErrors(errors, at, data, branches, repo, inst, source) == Errors([])
      <==> errors == [] && GithubPolicy(data, branches, repo, inst, Get(source, "branch"))
  {
    var branch := Get(source, "branch");
    var e := Noted(Noted(errors, at, !Filled(branch), NoBranch), at, !AllRooted(Patterns(inst)), BadWatchPatterns);
    var f := LifecycleErrors(e, at, data, branches, inst, branch);
    if AllRooted(Patterns(inst)) {
      LifecycleClean(e, at, data, branches, inst, branch);
      ConfigClean(f, at, repo, inst);
    } else {
      LifecycleKeepsErrors(e, at, data, branches, inst, branch);
      ConfigKeepsErrors(Noted(f, at, DockerfileGone(repo, inst), DockerfileMissing), at, repo, inst);
    }
  }

  /** An instance whose source is no repository. */
  lemma OtherSourceClean(errors: seq<Error>, at: nat, data: Fields, branches: Fields, repo: Repo, inst: Instance)
    requires var source := Get(inst.fields, "source"); !source.Obj? || Get(source.fields, "type") != Str("github")
    ensures OwnErrors(errors, at, data, branches, repo, inst) == Errors([])
      <==> errors == [] && OwnPolicy(data, branches, repo, inst)
  {
  }

  lemma GithubSourceClean(errors: seq<Error>, at: nat, data: Fields, branches: Fields, repo: Repo, inst: Instance)
    requires var source := Get(inst.fields, "source"); source.Obj? && Get(source.fields, "type") == Str("github")
    ensures OwnErrors(errors, at, data, branches, repo, inst) == Errors([])
      <==> errors == [] && OwnPolicy(data, branches, repo, inst)
  {
    var lifecycle, kind, source :=
      Get(inst.fields, "lifecycle"), Get(inst.fields, "kind"), Get(inst.fields, "source");
    if Hashable(lifecycle) && Hashable(kind) {
      var e := Noted(Noted(errors, at, !OneOf(lifecycle, LIFECYCLES), BadLifecycle), at,
                     !OneOf(kind, KINDS), BadKind);
      assert OwnErrors(errors, at, data, branches, repo, inst)
          == GithubErrors(e, at, data, branches, repo, inst, source.fields);
      GithubClean(e, at, data, branches, repo, inst, source.fields);
    }
  }

  lemma OwnClean(errors: seq<Error>, at: nat, data: Fields, branches: Fields, repo: Repo, inst: Instance)
    ensures OwnErrors(errors, at, data, branches, repo, inst) == Errors([])
      <==> errors == [] && OwnPolicy(data, branches, repo, inst)
  {
    var source := Get(inst.fields, "source");
    if source.Obj? && Get(source.fields, "type") == Str("github") {
      GithubSourceClean(errors, at, data, branches, repo, inst);
    } else {
      OtherSourceClean(errors, at, data, branches, repo, inst);
    }
  }

  ghost predicate IsClean(p: Progress) {
    p.Going? && p.scan.errors == []
  }

  ghost predicate IsPairOf(ids: seq<Identity>, pair: (string, string)) {
    exists k :: 0 <= k < |ids| && (ids[k].name, ids[k].environment) == pair
  }

  ghost predicate IsNameOf(ids: seq<Identity>, name: string) {
    exists k :: 0 <= k < |ids| && ids[k].name == name
  }

  /** The loop's variables, while there is no error: every pair seen, and one serviceId for each name. */
  ghost predicate Remembers(s: Scan, ids: seq<Identity>) {
    && (forall k :: 0 <= k < |ids| ==>
          && (ids[k].name, ids[k].environment) in s.seen
          && ids[k].name in s.serviceIds && s.serviceIds[ids[k].name] == ids[k].serviceId)
    && (forall pair :: pair in s.seen ==> IsPairOf(ids, pair))
    && (forall name :: name in s.serviceIds ==> IsNameOf(ids, name))
  }

  /** Nothing the loop remembers speaks against an instance. */
  predicate Fits(s: Scan, x: Identity) {
    (x.name, x.environment) !in s.seen && (x.name in s.serviceIds ==> s.serviceIds[x.name] == x.serviceId)
  }

  function Remember(s: Scan, x: Identity): Scan {
    Scan([], s.seen + {(x.name, x.environment)}, s.serviceIds[x.name := x.serviceId])
  }

  lemma CompatibleLast(front: seq<Identity>, x: Identity)
    requires AllCompatible(front)
    ensures AllCompatible(front + [x]) <==> forall k :: 0 <= k < |front| ==> Compatible(front[k], x)
  {
    var ids := front + [x];
    assert ids[|front|] == x && forall k :: 0 <= k < |front| ==> ids[k] == front[k];
    if AllCompatible(ids) {
      forall k | 0 <= k < |front|
        ensures Compatible(front[k], x)
      {
        assert Compatible(ids[k], ids[|front|]);
      }
    }
  }

  lemma CompatibleNext(s: Scan, front: seq<Identity>, x: Identity)
    requires Remembers(s, front)
    ensures (forall k :: 0 <= k < |front| ==> Compatible(front[k], x))
      <==> Fits(s, x)
  {
    if (x.name, x.environment) in s.seen {
      var k :| 0 <= k < |front| && (front[k].name, front[k].environment) == (x.name, x.environment);
      assert !Compatible(front[k], x);
    } else if x.name in s.serviceIds && s.serviceIds[x.name] != x.serviceId {
      var k :| 0 <= k < |front| && front[k].name == x.name;
      assert !Compatible(front[k], x);
    }
  }

  lemma PairOfLonger(front: seq<Identity>, x: Identity, pair: (string, string))
    ensures IsPairOf(front + [x], pair) <==> IsPairOf(front, pair) || (x.name, x.environment) == pair
  {
    var ids := front + [x];
    assert ids[|front|] == x;
    assert forall k :: 0 <= k < |front| ==> ids[k] == front[k];
  }

  lemma NameOfLonger(front: seq<Identity>, x: Identity, name: string)
    ensures IsNameOf(front + [x], name) <==> IsNameOf(front, name) || x.name == name
  {
    var ids := front + [x];
    assert ids[|front|] == x;
    assert forall k :: 0 <= k < |front| ==> ids[k] == front[k];
  }

  lemma RemembersNext(s: Scan, front: seq<Identity>, x: Identity)
    requires Remembers(s, front) && Fits(s, x)
    ensures Remembers(Remember(s, x), front + [x])
  {
    var next := Remember(s, x);
    forall pair | pair in next.seen
      ensures IsPairOf(front + [x], pair)
    {
      PairOfLonger(front, x, pair);
    }
    forall name: string | name in next.serviceIds
      ensures IsNameOf(front + [x], name)
    {
      NameOfLonger(front, x, name);
    }
  }

  lemma CleanNext(data: Fields, branches: Fields, repo: Repo, instances: seq<Json>)
    requires instances != []
    ensures var n := |instances| - 1;
      && Identities(instances) == Identities(instances[..n]) + [IdentityOf(instances[n])]
      && (AllProper(data, branches, repo, instances) <==>
            (AllProper(data, branches, repo, instances[..n]) && Proper(data, branches, repo, instances[n])))
      && (AllCompatible(Identities(instances)) ==> AllCompatible(Identities(instances[..n])))
  {
    var n := |instances| - 1;
    assert forall k :: 0 <= k < n ==> instances[..n][k] == instances[k];
    assert Identities(instances) == Identities(instances[..n]) + [IdentityOf(instances[n])];
    assert forall k :: 0 <= k < n ==> Identities(instances[..n])[k] == Identities(instances)[k];
  }

  /** One step of the loop leaves no error exactly when there was none and the instance is in order. */
  lemma VisitIff(p: Progress, n: nat, data: Fields, branches: Fields, repo: Repo, j: Json)
    ensures var next := Visit(p, n, data, branches, repo, j);
      && (IsClean(next) <==> IsClean(p) && Proper(data, branches, repo, j) && Fits(p.scan, IdentityOf(j)))
      && (IsClean(next) ==> next.scan == Remember(p.scan, IdentityOf(j)))
  {
    if p.Going? && Named(j).Some? {
      var inst := Named(j).value;
      OwnClean(CrossErrors(p.scan, n, branches, inst), n, data, branches, repo, inst);
    }
  }

  lemma {:induction false} VisitedClean(data: Fields, branches: Fields, repo: Repo, instances: seq<Json>)
    ensures var p := Visited(data, branches, repo, [], instances);
      && (IsClean(p) <==> Clean(data, branches, repo, instances))
      && (IsClean(p) ==> Remembers(p.scan, Identities(instances)))
  {
    if instances != [] {
      var n := |instances| - 1;
      var front := instances[..n];
      VisitedClean(data, branches, repo, front);
      CleanNext(data, branches, repo, instances);
      var p, ids, x := Visited(data, branches, repo, [], front), Identities(front), IdentityOf(instances[n]);
      VisitIff(p, n, data, branches, repo, instances[n]);
      if IsClean(p) {
        CompatibleLast(ids, x);
        CompatibleNext(p.scan, ids, x);
        if Fits(p.scan, x) {
          RemembersNext(p.scan, ids, x);
        }
      }
    }
  }

  lemma {:induction false} FirstErrorsStay(data: Fields, branches: Fields, repo: Repo, first: seq<Error>,
                                           instances: seq<Json>)
    requires first != []
    ensures !IsClean(Visited(data, branches, repo, first, instances))
  {
    if instances != [] {
      var n := |instances| - 1;
      FirstErrorsStay(data, branches, repo, first, instances[..n]);
      VisitIff(Visited(data, branches, repo, first, instances[..n]), n, data, branches, repo, instances[n]);
    }
  }

  /**
   * The validator reports nothing exactly when the policy holds of every instance and of every pair of
   * instances, although the loop remembers only the latest serviceId of each name.
   */
  lemma NoErrorsIffPolicy(data: Fields, repo: Repo)
    ensures Validate(data, repo) == Errors([]) <==> Policy(data, repo)
  {
    var instances := Get(data, "instances");
    if instances.Arr? && instances.items != [] {
      if HeadErrors(data) == [] {
        VisitedClean(data, Branches(data), repo, instances.items);
      } else {
        FirstErrorsStay(data, Branches(data), repo, HeadErrors(data), instances.items);
      }
    }
  }

  // ---- The order of the instances does not matter ----

  lemma {:induction false} TwoPlaces(instances: seq<Json>, j: Json) returns (i: nat, k: nat)
    requires multiset(instances)[j] >= 2
    ensures i < k < |instances| && instances[i] == j && instances[k] == j
  {
    var n := |instances| - 1;
    assert instances == instances[..n] + [instances[n]];
    if instances[n] == j {
      assert j in multiset(instances[..n]);
      i :| i < n && instances[..n][i] == j;
      k := n;
    } else {
      i, k := TwoPlaces(instances[..n], j);
    }
  }

  lemma {:induction false} TwiceAtLeast(instances: seq<Json>, i: nat, k: nat)
    requires i < k < |instances| && instances[i] == instances[k]
    ensures multiset(instances)[instances[i]] >= 2
  {
    var n := |instances| - 1;
    assert instances == instances[..n] + [instances[n]];
    if k < n {
      TwiceAtLeast(instances[..n], i, k);
    } else {
      assert instances[..n][i] in multiset(instances[..n]);
    }
  }

  lemma ReorderedCompatible(a: seq<Json>, b: seq<Json>)
    requires multiset(a) == multiset(b) && AllCompatible(Identities(a))
    ensures AllCompatible(Identities(b))
  {
    forall i, k | 0 <= i < k < |b|
      ensures Compatible(Identities(b)[i], Identities(b)[k])
    {
      assert b[i] in multiset(b) && b[k] in multiset(b);
      var p, q;
      if b[i] == b[k] {
        TwiceAtLeast(b, i, k);
        p, q := TwoPlaces(a, b[i]);
      } else {
        p :| 0 <= p < |a| && a[p] == b[i];
        q :| 0 <= q < |a| && a[q] == b[k];
      }
      assert Identities(a)[p] == IdentityOf(b[i]) && Identities(a)[q] == IdentityOf(b[k]);
    }
  }

  lemma ReorderedClean(data: Fields, branches: Fields, repo: Repo, a: seq<Json>, b: seq<Json>)
    requires multiset(a) == multiset(b) && Clean(data, branches, repo, a)
    ensures Clean(data, branches, repo, b)
  {
    ReorderedCompatible(a, b);
    forall k | 0 <= k < |b|
      ensures Proper(data, branches, repo, b[k])
    {
      assert b[k] in multiset(b);
      var p :| 0 <= p < |a| && a[p] == b[k];
    }
  }

  /** Listing the same instances in another order gives the same verdict. */
  lemma OrderDoesNotMatter(data: Fields, repo: Repo, instances: seq<Json>)
    requires Get(data, "instances").Arr? && multiset(data["instances"].items) == multiset(instances)
    ensures Validate(data, repo) == Errors([]) <==> Validate(data["instances" := Arr(instances)], repo) == Errors([])
  {
    var other := data["instances" := Arr(instances)];
    var items := data["instances"].items;
    NoErrorsIffPolicy(data, repo);
    NoErrorsIffPolicy(other, repo);
    SameHead(data, other, repo, items);
    SameHead(data, other, repo, instances);
    assert |multiset(items)| == |items| && |multiset(instances)| == |instances|;
    if Clean(data, Branches(data), repo, items) {
      ReorderedClean(data, Branches(data), repo, items, instances);
    }
    if Clean(data, Branches(data), repo, instances) {
      ReorderedClean(data, Branches(data), repo, instances, items);
    }
  }

  lemma SameHead(data: Fields, other: Fields, repo: Repo, instances: seq<Json>)
    requires forall key :: key != "instances" ==> Get(data, key) == Get(other, key)
    ensures Branches(data) == Branches(other) && Get(data, "repository") == Get(other, "repository")
    ensures Clean(data, Branches(data), repo, instances) == Clean(other, Branches(other), repo, instances)
  {
    assert "infrastructureAsCode" != "instances" && "environmentBranches" != "instances" && "repository" != "instances";
    forall j
      ensures Proper(data, Branches(data), repo, j) == Proper(other, Branches(data), repo, j)
    {
    }
  }
}
