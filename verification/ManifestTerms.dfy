/** The words of the deployment policy, in terms of JSON and text alone, and when the validator raises. */
module ManifestTerms {
  import opened Text
  import opened Options
  import opened Manifest
  import opened ManifestPolicy

  // ---- Names, patterns and values ----

  lemma FilledIff(j: Json)
    ensures Filled(j) <==> exists c, rest :: j == Str([c] + rest)
  {
    if Filled(j) {
      assert j == Str([j.s[0]] + j.s[1..]);
    }
  }

  lemma RootedIff(j: Json)
    ensures Rooted(j) <==> exists rest :: j == Str("/" + rest)
  {
    if Rooted(j) {
      assert j == Str("/" + j.s[1..]);
    }
    if rest :| j == Str("/" + rest) {
      assert ("/" + rest)[..1] == "/";
    }
  }

  /** Watch patterns are in order when they are a list of paths from the repository's root. */
  lemma AllRootedIff(j: Json)
    ensures AllRooted(j) <==> j.Arr? && forall x :: x in j.items ==> exists rest :: x == Str("/" + rest)
  {
    if j.Arr? {
      forall x
        ensures Rooted(x) <==> exists rest :: x == Str("/" + rest)
      {
        RootedIff(x);
      }
      assert AllRooted(j) <==> forall x :: x in j.items ==> Rooted(x) by {
        assert forall k :: 0 <= k < |j.items| ==> j.items[k] in j.items;
      }
    }
  }

  lemma ManualIff(j: Json)
    ensures Manual(j) <==> exists rest :: j == Str("/.manual-deploy-only/" + rest)
  {
    if Manual(j) {
      assert j.s == MANUAL_PREFIX + j.s[|MANUAL_PREFIX|..];
    }
    if rest :| j == Str("/.manual-deploy-only/" + rest) {
      assert (MANUAL_PREFIX + rest)[..|MANUAL_PREFIX|] == MANUAL_PREFIX;
    }
  }

  /** A repository is named by its owner, a slash and its name. */
  lemma RepositoryIff(j: Json)
    ensures !BadRepositoryName(j) <==> exists owner, name :: j == Str(owner + "/" + name)
  {
    if !BadRepositoryName(j) {
      var n :| 0 <= n < |j.s| && j.s[n] == '/';
      assert j == Str(j.s[..n] + "/" + j.s[n + 1..]);
    }
    if owner, name :| j == Str(owner + "/" + name) {
      assert j.s[|owner|] == '/';
    }
  }

  lemma EmptyIff(j: Json)
    ensures Truthy(j) <==> !IsEmpty(j)
  {
  }

  // ---- Equality ----

  /** What a value counts as to Python's `==` between numbers. */
  function Number(j: Json): Option<real> {
    match j
    case Num(n) => Some(n)
    case Bool(b) => Some(if b then 1.0 else 0.0)
    case _ => None
  }

  /** Python's `==`: numbers and booleans by value, everything else by shape, part by part. */
  predicate PyEqual(a: Json, b: Json) {
    match a
    case Null => b.Null?
    case Str(s) => b == Str(s)
    case Arr(items) => b.Arr? && |b.items| == |items| && forall k :: 0 <= k < |items| ==> PyEqual(items[k], b.items[k])
    case Obj(fields) =>
      b.Obj? && b.fields.Keys == fields.Keys && forall k :: k in fields ==> PyEqual(fields[k], b.fields[k])
    case _ => Number(b) == Number(a)
  }

  lemma {:induction false} SameIff(a: Json, b: Json)
    ensures Same(a, b) <==> PyEqual(a, b)
    decreases a
  {
    match a
    case Arr(items) =>
      if b.Arr? && |b.items| == |items| {
        forall k | 0 <= k < |items| ensures Same(items[k], b.items[k]) <==> PyEqual(items[k], b.items[k]) {
          SameIff(items[k], b.items[k]);
        }
        SameItems(items, b.items);
      } else {
        assert Leveled(a).Arr? && |Leveled(a).items| == |items|;
      }
    case Obj(fields) =>
      if b.Obj? && b.fields.Keys == fields.Keys {
        forall k | k in fields ensures Same(fields[k], b.fields[k]) <==> PyEqual(fields[k], b.fields[k]) {
          SameIff(fields[k], b.fields[k]);
        }
        SameFields(fields, b.fields);
      } else {
        assert Leveled(a).Obj? && Leveled(a).fields.Keys == fields.Keys;
      }
    case _ =>
  }

  lemma SameItems(a: seq<Json>, b: seq<Json>)
    requires |a| == |b|
    ensures Same(Arr(a), Arr(b)) <==> forall k :: 0 <= k < |a| ==> Same(a[k], b[k])
  {
    var x, y := Leveled(Arr(a)).items, Leveled(Arr(b)).items;
    assert forall k :: 0 <= k < |a| ==> x[k] == Leveled(a[k]) && y[k] == Leveled(b[k]);
    if forall k :: 0 <= k < |a| ==> Same(a[k], b[k]) {
      assert x == y;
    }
  }

  lemma SameFields(a: Fields, b: Fields)
    requires a.Keys == b.Keys
    ensures Same(Obj(a), Obj(b)) <==> forall k :: k in a ==> Same(a[k], b[k])
  {
    var x, y := Leveled(Obj(a)).fields, Leveled(Obj(b)).fields;
    assert forall k :: k in a ==> x[k] == Leveled(a[k]) && y[k] == Leveled(b[k]);
    if forall k :: k in a ==> Same(a[k], b[k]) {
      assert x == y;
    }
  }

  // ---- Paths ----

  function Slashes(n: nat): string {
    seq(n, _ => '/')
  }

  /** `path` is `s` without the slashes before it. */
  ghost predicate Below(s: string, path: string) {
    (exists n: nat :: s == Slashes(n) + path) && (path == "" || path[0] != '/')
  }

  lemma {:induction false} BelowIff(s: string, path: string)
    ensures LStripSlash(s) == path <==> Below(s, path)
  {
    LStripped(s);
    if Below(s, path) {
      var n: nat :| s == Slashes(n) + path;
      LStripSlashes(n, path);
    }
  }

  lemma {:induction false} LStripped(s: string)
    ensures Below(s, LStripSlash(s))
  {
    if s != "" && s[0] == '/' {
      LStripped(s[1..]);
      var n: nat :| s[1..] == Slashes(n) + LStripSlash(s);
      assert s == Slashes(n + 1) + LStripSlash(s);
    } else {
      assert s == Slashes(0) + s;
    }
  }

  lemma {:induction false} LStripSlashes(n: nat, path: string)
    requires path == "" || path[0] != '/'
    ensures LStripSlash(Slashes(n) + path) == path
  {
    if n == 0 {
      assert Slashes(n) + path == path;
    } else {
      assert (Slashes(n) + path)[1..] == Slashes(n - 1) + path;
      LStripSlashes(n - 1, path);
    }
  }

  /** `t` is `s` without the slashes at its ends. */
  ghost predicate Between(s: string, t: string) {
    && (exists m: nat, n: nat :: s == Slashes(m) + t + Slashes(n))
    && (t == "" || (t[0] != '/' && t[|t| - 1] != '/'))
  }

  lemma MoreBefore(m: nat, t: string, n: nat)
    ensures "/" + (Slashes(m) + t + Slashes(n)) == Slashes(m + 1) + t + Slashes(n)
  {
  }

  lemma MoreBehind(m: nat, t: string, n: nat)
    ensures (Slashes(m) + t + Slashes(n)) + "/" == Slashes(m) + t + Slashes(n + 1)
  {
  }

  lemma {:induction false} Stripped(s: string)
    ensures Between(s, StripSlash(s))
    decreases |s|
  {
    var t := StripSlash(s);
    if s != "" && s[0] == '/' {
      Stripped(s[1..]);
      var m: nat, n: nat :| s[1..] == Slashes(m) + t + Slashes(n);
      assert s == "/" + s[1..];
      MoreBefore(m, t, n);
    } else if s != "" && s[|s| - 1] == '/' {
      Stripped(s[..|s| - 1]);
      var m: nat, n: nat :| s[..|s| - 1] == Slashes(m) + t + Slashes(n);
      assert s == s[..|s| - 1] + "/";
      MoreBehind(m, t, n);
    } else {
      assert s == Slashes(0) + s + Slashes(0);
    }
  }

  /** The parts that are not empty, with a slash before each; without any, a slash. */
  function WithSlashes(r: string, p: string): string {
    if r == "" && p == "" then "/" else SlashBefore(r) + SlashBefore(p)
  }

  function SlashBefore(part: string): string {
    if part == "" then "" else "/" + part
  }

  /** A root and a path below it, joined. */
  ghost predicate JoinedPath(root: string, path: string, whole: string) {
    exists r, p :: Between(root, r) && Between(path, p) && whole == WithSlashes(r, p)
  }

  lemma SlashesAre(root: string, path: string)
    ensures NormalizedRepoPath(root, path) == WithSlashes(StripSlash(root), StripSlash(path))
  {
    var r, p := StripSlash(root), StripSlash(path);
    if r != "" && p != "" {
      assert "/" + r + "/" + p == ("/" + r) + ("/" + p);
    }
  }

  lemma RepoPathIs(root: string, path: string)
    ensures JoinedPath(root, path, NormalizedRepoPath(root, path))
  {
    Stripped(root);
    Stripped(path);
    SlashesAre(root, path);
  }

  // ---- When the validator raises ----

  /** A value that Python cannot look up in a set. */
  predicate Unhashable(j: Json) {
    j.Arr? || j.Obj?
  }

  /** Reading the configuration file raises: it is no readable file, or its parts have the wrong shape. */
  ghost predicate ConfigRaises(repo: Repo, inst: Instance) {
    var file := Get(inst.fields, "configFile");
    file.Str? && exists path :: Below(file.s, path) && path in repo && NodeRaises(repo[path], inst)
  }

  ghost predicate NodeRaises(node: Node, inst: Instance) {
    || node == Locked || node == Directory
    || (node.File? && exists config :: node.json == Some(Obj(config)) && ConfigShapeRaises(config, inst))
  }

  ghost predicate ConfigShapeRaises(config: Fields, inst: Instance) {
    var build, deploy := GetOr(config, "build", Obj(map[])), GetOr(config, "deploy", Obj(map[]));
    || !build.Obj? || !deploy.Obj?
    || (Get(inst.fields, "dockerfilePath").Str? && Get(build.fields, "dockerfilePath").Str?
        && !GetOr(inst.fields, "rootDirectory", Str("/")).Str?)
  }

  ghost predicate GithubRaises(data: Fields, repo: Repo, inst: Instance) {
    var iac := Get(data, "infrastructureAsCode");
    || (Get(inst.fields, "lifecycle") == Str("persistent") && !IsEmpty(iac) && !iac.Obj?)
    || ConfigRaises(repo, inst)
  }

  ghost predicate OwnRaises(data: Fields, repo: Repo, inst: Instance) {
    var source := Get(inst.fields, "source");
    || Unhashable(Get(inst.fields, "lifecycle")) || Unhashable(Get(inst.fields, "kind"))
    || (source.Obj? && Unhashable(Get(source.fields, "type")))
    || (source.Obj? && Get(source.fields, "type") == Str("github") && GithubRaises(data, repo, inst))
  }

  lemma ConfigRaisesIff(errors: seq<Error>, at: nat, repo: Repo, inst: Instance)
    ensures ConfigErrors(errors, at, repo, inst).Crash? <==> ConfigRaises(repo, inst)
  {
    var file := Get(inst.fields, "configFile");
    if file.Str? {
      var path := LStripSlash(file.s);
      BelowIff(file.s, path);
      forall other | Below(file.s, other)
        ensures other == path
      {
        BelowIff(file.s, other);
      }
    }
  }

  lemma OwnRaisesIff(errors: seq<Error>, at: nat, data: Fields, branches: Fields, repo: Repo, inst: Instance)
    ensures OwnErrors(errors, at, data, branches, repo, inst).Crash? <==> OwnRaises(data, repo, inst)
  {
    var lifecycle, kind, source :=
      Get(inst.fields, "lifecycle"), Get(inst.fields, "kind"), Get(inst.fields, "source");
    if source.Obj? && Get(source.fields, "type") == Str("github") {
      var e := Noted(Noted(errors, at, !OneOf(lifecycle, LIFECYCLES), BadLifecycle), at, !OneOf(kind, KINDS), BadKind);
      GithubRaisesIff(e, at, data, branches, repo, inst, source.fields);
    }
  }

  lemma GithubRaisesIff(errors: seq<Error>, at: nat, data: Fields, branches: Fields, repo: Repo, inst: Instance,
                        source: Fields)
    ensures GithubErrors(errors, at, data, branches, repo, inst, source).Crash? <==> GithubRaises(data, repo, inst)
  {
    var branch := Get(source, "branch");
    var e := Noted(Noted(errors, at, !Filled(branch), NoBranch), at, !AllRooted(Patterns(inst)), BadWatchPatterns);
    var f := LifecycleErrors(e, at, data, branches, inst, branch);
    ConfigRaisesIff(Noted(f, at, DockerfileGone(repo, inst), DockerfileMissing), at, repo, inst);
    EmptyIff(Get(data, "infrastructureAsCode"));
  }

  ghost predicate SomeRaises(data: Fields, repo: Repo, instances: seq<Json>) {
    exists k :: 0 <= k < |instances| && Named(instances[k]).Some? && OwnRaises(data, repo, Named(instances[k]).value)
  }

  lemma SomeRaisesNext(data: Fields, repo: Repo, instances: seq<Json>)
    requires instances != []
    ensures var n := |instances| - 1;
      SomeRaises(data, repo, instances) <==>
        || SomeRaises(data, repo, instances[..n])
        || (Named(instances[n]).Some? && OwnRaises(data, repo, Named(instances[n]).value))
  {
    assert forall k :: 0 <= k < |instances| - 1 ==> instances[..|instances| - 1][k] == instances[k];
  }

  lemma VisitRaisesIff(p: Progress, n: nat, data: Fields, branches: Fields, repo: Repo, j: Json)
    ensures Visit(p, n, data, branches, repo, j).Crashed?
      <==> p.Crashed? || (Named(j).Some? && OwnRaises(data, repo, Named(j).value))
  {
    if p.Going? && Named(j).Some? {
      var inst := Named(j).value;
      OwnRaisesIff(CrossErrors(p.scan, n, branches, inst), n, data, branches, repo, inst);
    }
  }

  lemma {:induction false} VisitedRaisesIff(data: Fields, branches: Fields, repo: Repo, first: seq<Error>,
                                            instances: seq<Json>)
    ensures Visited(data, branches, repo, first, instances).Crashed? <==> SomeRaises(data, repo, instances)
  {
    if instances != [] {
      var n := |instances| - 1;
      var p := Visited(data, branches, repo, first, instances[..n]);
      VisitedRaisesIff(data, branches, repo, first, instances[..n]);
      VisitRaisesIff(p, n, data, branches, repo, instances[n]);
      SomeRaisesNext(data, repo, instances);
    }
  }

  /** The validator raises exactly when some named instance makes it raise; errors before it do not matter. */
  lemma RaisesIff(data: Fields, repo: Repo)
    ensures Validate(data, repo).Crash?
      <==> Get(data, "instances").Arr? && SomeRaises(data, repo, Get(data, "instances").items)
  {
    var instances := Get(data, "instances");
    if instances.Arr? {
      VisitedRaisesIff(data, Branches(data), repo, HeadErrors(data), instances.items);
    }
  }
}
