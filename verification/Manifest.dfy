/** The deployment manifest validator of scripts/validate_railway_services.py. */
module Manifest {
  import opened Text
  import opened Options

  // ---- JSON values as Python sees them ----

  datatype Json =
    | Null | Bool(b: bool) | Num(n: real) | Str(s: string) | Arr(items: seq<Json>) | Obj(fields: map<string, Json>)

  type Fields = map<string, Json>

  /** `fields.get(key)`: an absent key and an explicit null look the same. */
  function Get(fields: Fields, key: string): Json {
    GetOr(fields, key, Null)
  }

  function GetOr(fields: Fields, key: string, default: Json): Json {
    if key in fields then fields[key] else default
  }

  predicate Truthy(j: Json) {
    match j
    case Null => false
    case Bool(b) => b
    case Num(n) => n != 0.0
    case Str(s) => s != ""
    case Arr(items) => items != []
    case Obj(fields) => fields != map[]
  }

  predicate Hashable(j: Json) {
    !j.Arr? && !j.Obj?
  }

  /** Booleans are numbers to Python's `==`, at any depth. */
  function Leveled(j: Json): Json {
    match j
    case Bool(b) => Num(if b then 1.0 else 0.0)
    case Arr(items) => Arr(seq(|items|, k requires 0 <= k < |items| => Leveled(items[k])))
    case Obj(fields) => Obj(map k | k in fields :: Leveled(fields[k]))
    case _ => j
  }

  predicate Same(a: Json, b: Json) {
    Leveled(a) == Leveled(b)
  }

  predicate OneOf(j: Json, names: set<string>) {
    j.Str? && j.s in names
  }

  predicate Filled(j: Json) {
    j.Str? && j.s != ""
  }

  // ---- Files ----

  /** What is at a path: a file and its JSON reading, a file that cannot be read, or a directory. */
  datatype Node = File(text: string, json: Option<Json>) | Locked | Directory

  type Repo = map<string, Node>

  predicate IsFile(repo: Repo, path: string) {
    path in repo && !repo[path].Directory?
  }

  function LStripSlash(s: string): string {
    if s != "" && s[0] == '/' then LStripSlash(s[1..]) else s
  }

  function StripSlash(s: string): string
    decreases |s|
  {
    if s != "" && s[0] == '/' then StripSlash(s[1..])
    else if s != "" && s[|s| - 1] == '/' then StripSlash(s[..|s| - 1])
    else s
  }

  /** `_normalized_repo_path`. */
  function NormalizedRepoPath(rootDirectory: string, value: string): string {
    var root, path := StripSlash(rootDirectory), StripSlash(value);
    if root == "" then "/" + path
    else if path == "" then "/" + root
    else "/" + root + "/" + path
  }

  // ---- The verdict ----

  datatype Fault =
    | BranchesMissing | InstancesMissing | BadRepository
    | NotAnObject | NamesRequired | UnknownEnvironment | Duplicate | ServiceIdDiffers
    | BadLifecycle | BadKind | BadSource | PersistentNotGithub | StrayWatchPatterns
    | NoBranch | BadWatchPatterns | WrongBranch | DoesNotWaitForCi | ManualWatchPath
    | FieldRequired(field: string) | NoHealthcheck | WrongRestartPolicy
    | WrongFrozenPatterns | FrozenWaitsForCi | DockerfileMissing
    | ConfigMissing | ConfigInvalid | ConfigNotAnObject
    | DockerfileDiffers | WatchPatternsDiffer | HealthcheckDiffers | RestartPolicyDiffers

  /** An error message, by what it is about: an instance's position, or the manifest as a whole. */
  datatype Error = Error(at: Option<nat>, fault: Fault)

  /** The list of errors, or an exception that the script does not catch. */
  datatype Outcome = Crash | Errors(errors: seq<Error>)

  function Noted(errors: seq<Error>, at: nat, wrong: bool, fault: Fault): (r: seq<Error>)
    ensures r == [] <==> errors == [] && !wrong
    ensures errors <= r
  {
    if wrong then errors + [Error(Some(at), fault)] else errors
  }

  const LIFECYCLES := {"persistent", "manual", "preview", "managed"}
  const KINDS := {"http", "worker", "job", "data"}
  const SOURCE_TYPES := {"github", "external", "managed"}
  const MANUAL_PREFIX := "/.manual-deploy-only/"

  /** The parts of an instance that the checks share. */
  datatype Instance = Instance(name: string, environment: string, serviceId: string, fields: Fields)

  function Named(j: Json): Option<Instance> {
    if !j.Obj? then None
    else if Filled(Get(j.fields, "name")) && Filled(Get(j.fields, "environment")) && Filled(Get(j.fields, "serviceId"))
    then Some(Instance(j.fields["name"].s, j.fields["environment"].s, j.fields["serviceId"].s, j.fields))
    else None
  }

  predicate Rooted(j: Json) {
    j.Str? && StartsWith(j.s, "/")
  }

  predicate AllRooted(j: Json) {
    j.Arr? && forall k :: 0 <= k < |j.items| ==> Rooted(j.items[k])
  }

  function Patterns(inst: Instance): Json {
    GetOr(inst.fields, "watchPatterns", Arr([]))
  }

  /** The patterns after the shape check: a malformed list is dropped. */
  function KeptPatterns(inst: Instance): (j: Json)
    ensures AllRooted(j)
  {
    if AllRooted(Patterns(inst)) then Patterns(inst) else Arr([])
  }

  predicate Manual(j: Json) {
    j.Str? && StartsWith(j.s, MANUAL_PREFIX)
  }

  predicate SomeManual(j: Json) {
    j.Arr? && exists k :: 0 <= k < |j.items| && Manual(j.items[k])
  }

  function FrozenPatterns(name: string): Json {
    Arr([Str(MANUAL_PREFIX + name + "/**")])
  }

  /** The fields that a persistent GitHub service must give. */
  function RequiredFields(data: Fields, environment: string): seq<string> {
    var iac := Get(data, "infrastructureAsCode");
    if iac.Obj? && Get(iac.fields, "status") == Str("managed") && environment == "production"
    then ["rootDirectory", "dockerfilePath"]
    else ["rootDirectory", "configFile", "dockerfilePath"]
  }

  function FieldErrors(errors: seq<Error>, at: nat, inst: Instance, fields: seq<string>): (r: seq<Error>)
    ensures r == [] <==> errors == [] && forall f :: f in fields ==> Filled(Get(inst.fields, f))
  {
    if fields == [] then errors
    else
      var last := fields[|fields| - 1];
      Noted(FieldErrors(errors, at, inst, fields[..|fields| - 1]), at,
            !Filled(Get(inst.fields, last)), FieldRequired(last))
  }

  function PersistentErrors(errors: seq<Error>, at: nat, data: Fields, branches: Fields, inst: Instance,
                            branch: Json): seq<Error> {
    var e := Noted(errors, at, !Same(branch, Get(branches, inst.environment)), WrongBranch);
    var e := Noted(e, at, Get(inst.fields, "waitForCi") != Bool(true), DoesNotWaitForCi);
    var e := Noted(e, at, SomeManual(KeptPatterns(inst)), ManualWatchPath);
    var e := FieldErrors(e, at, inst, RequiredFields(data, inst.environment));
    var e := Noted(e, at, OneOf(Get(inst.fields, "kind"), {"http", "worker"})
                          && !Truthy(Get(inst.fields, "healthcheckPath")), NoHealthcheck);
    Noted(e, at, Get(inst.fields, "restartPolicyType") != Str("ON_FAILURE"), WrongRestartPolicy)
  }

  function FrozenErrors(errors: seq<Error>, at: nat, inst: Instance): seq<Error> {
    var e := Noted(errors, at, KeptPatterns(inst) != FrozenPatterns(inst.name), WrongFrozenPatterns);
    Noted(e, at, Get(inst.fields, "waitForCi") != Bool(false), FrozenWaitsForCi)
  }

  /** Comparing a service with the configuration file it names. */
  function MatchErrors(errors: seq<Error>, at: nat, inst: Instance, config: Fields): Outcome {
    var build, deploy := GetOr(config, "build", Obj(map[])), GetOr(config, "deploy", Obj(map[]));
    var root := GetOr(inst.fields, "rootDirectory", Str("/"));
    if !build.Obj? || !deploy.Obj? then Crash
    else
      var ours, theirs := Get(inst.fields, "dockerfilePath"), Get(build.fields, "dockerfilePath");
      if ours.Str? && theirs.Str? && !root.Str? then Crash
      else
        var e := Noted(errors, at, ours.Str? && theirs.Str? && NormalizedRepoPath(root.s, theirs.s) != ours.s,
                       DockerfileDiffers);
        var e := Noted(e, at, !Same(Get(build.fields, "watchPatterns"), KeptPatterns(inst)), WatchPatternsDiffer);
        var e := Noted(e, at, !Same(Get(deploy.fields, "healthcheckPath"), Get(inst.fields, "healthcheckPath")),
                       HealthcheckDiffers);
        Errors(Noted(e, at, !Same(Get(deploy.fields, "restartPolicyType"), Get(inst.fields, "restartPolicyType")),
                     RestartPolicyDiffers))
  }

  function ConfigErrors(errors: seq<Error>, at: nat, repo: Repo, inst: Instance): Outcome {
    var file := Get(inst.fields, "configFile");
    if !file.Str? then Errors(errors)
    else
      var path := LStripSlash(file.s);
      if path !in repo then Errors(Noted(errors, at, true, ConfigMissing))
      else
        match repo[path]
        case File(_, None) => Errors(Noted(errors, at, true, ConfigInvalid))
        case File(_, Some(j)) =>
          if j.Obj? then MatchErrors(errors, at, inst, j.fields)
          else Errors(Noted(errors, at, true, ConfigNotAnObject))
        case _ => Crash
  }

  predicate DockerfileGone(repo: Repo, inst: Instance) {
    var dockerfile := Get(inst.fields, "dockerfilePath");
    dockerfile.Str? && !IsFile(repo, LStripSlash(dockerfile.s))
  }

  /** The checks that depend on the lifecycle. */
  function LifecycleErrors(errors: seq<Error>, at: nat, data: Fields, branches: Fields, inst: Instance, branch: Json)
    : seq<Error>
  {
    var lifecycle := Get(inst.fields, "lifecycle");
    if lifecycle == Str("persistent") then PersistentErrors(errors, at, data, branches, inst, branch)
    else if OneOf(lifecycle, {"manual", "preview"}) then FrozenErrors(errors, at, inst)
    else errors
  }

  function GithubErrors(errors: seq<Error>, at: nat, data: Fields, branches: Fields, repo: Repo, inst: Instance,
                        source: Fields): Outcome {
    var branch, lifecycle := Get(source, "branch"), Get(inst.fields, "lifecycle");
    var iac := Get(data, "infrastructureAsCode");
    var e := Noted(errors, at, !Filled(branch), NoBranch);
    var e := Noted(e, at, !AllRooted(Patterns(inst)), BadWatchPatterns);
    if lifecycle == Str("persistent") && Truthy(iac) && !iac.Obj? then Crash
    else
      var e := LifecycleErrors(e, at, data, branches, inst, branch);
      ConfigErrors(Noted(e, at, DockerfileGone(repo, inst), DockerfileMissing), at, repo, inst)
  }

  /** The checks of one named instance that concern no other instance. */
  function OwnErrors(errors: seq<Error>, at: nat, data: Fields, branches: Fields, repo: Repo, inst: Instance): Outcome
  {
    var lifecycle, kind, source :=
      Get(inst.fields, "lifecycle"), Get(inst.fields, "kind"), Get(inst.fields, "source");
    if !Hashable(lifecycle) || !Hashable(kind) || (source.Obj? && !Hashable(Get(source.fields, "type"))) then Crash
    else
      var e := Noted(errors, at, !OneOf(lifecycle, LIFECYCLES), BadLifecycle);
      var e := Noted(e, at, !OneOf(kind, KINDS), BadKind);
      if !source.Obj? || !OneOf(Get(source.fields, "type"), SOURCE_TYPES) then Errors(Noted(e, at, true, BadSource))
      else if Get(source.fields, "type") != Str("github") then
        var e := Noted(e, at, lifecycle == Str("persistent"), PersistentNotGithub);
        Errors(Noted(e, at, Truthy(Patterns(inst)), StrayWatchPatterns))
      else GithubErrors(e, at, data, branches, repo, inst, source.fields)
  }

  /** What the loop carries from instance to instance. */
  datatype Scan = Scan(errors: seq<Error>, seen: set<(string, string)>, serviceIds: map<string, string>)

  datatype Progress = Crashed | Going(scan: Scan)

  /** The checks of a named instance against the environments and the instances before it. */
  function CrossErrors(s: Scan, at: nat, branches: Fields, inst: Instance): seq<Error> {
    var e := Noted(s.errors, at, inst.environment !in branches, UnknownEnvironment);
    var e := Noted(e, at, (inst.name, inst.environment) in s.seen, Duplicate);
    Noted(e, at, inst.name in s.serviceIds && s.serviceIds[inst.name] != inst.serviceId, ServiceIdDiffers)
  }

  function Visit(p: Progress, at: nat, data: Fields, branches: Fields, repo: Repo, j: Json): Progress {
    if p.Crashed? then Crashed
    else
      var s := p.scan;
      match Named(j)
      case None => Going(s.(errors := Noted(s.errors, at, true, if j.Obj? then NamesRequired else NotAnObject)))
      case Some(inst) =>
        match OwnErrors(CrossErrors(s, at, branches, inst), at, data, branches, repo, inst)
        case Crash => Crashed
        case Errors(e) => Going(Scan(e, s.seen + {(inst.name, inst.environment)},
                                     s.serviceIds[inst.name := inst.serviceId]))
  }

  function Visited(data: Fields, branches: Fields, repo: Repo, first: seq<Error>, instances: seq<Json>): Progress {
    if instances == [] then Going(Scan(first, {}, map[]))
    else
      var n := |instances| - 1;
      Visit(Visited(data, branches, repo, first, instances[..n]), n, data, branches, repo, instances[n])
  }

  function Branches(data: Fields): Fields {
    var b := Get(data, "environmentBranches");
    if b.Obj? then b.fields else map[]
  }

  predicate BadRepositoryName(j: Json) {
    !j.Str? || '/' !in j.s
  }

  function HeadErrors(data: Fields): seq<Error> {
    (if Branches(data) == map[] then [Error(None, BranchesMissing)] else [])
    + if BadRepositoryName(Get(data, "repository")) then [Error(None, BadRepository)] else []
  }

  /** `validate_manifest`. */
  function Validate(data: Fields, repo: Repo): Outcome {
    var instances := Get(data, "instances");
    if !instances.Arr? || instances.items == [] then
      Errors((if Branches(data) == map[] then [Error(None, BranchesMissing)] else [])
             + [Error(None, InstancesMissing)])
    else
      match Visited(data, Branches(data), repo, HeadErrors(data), instances.items)
      case Crashed => Crash
      case Going(s) => Errors(s.errors)
  }

  // ---- The script's loop ----

  /** The body of the loop over instances, on the loop's own variables. */
  method JudgeInstance(at: nat, data: Fields, branches: Fields, repo: Repo, j: Json, before: Scan)
    returns (crashed: bool, errors: seq<Error>, seen: set<(string, string)>, serviceIds: map<string, string>)
    ensures Visit(Going(before), at, data, branches, repo, j)
         == if crashed then Crashed else Going(Scan(errors, seen, serviceIds))
  {
    crashed, errors, seen, serviceIds := false, before.errors, before.seen, before.serviceIds;
    var named := Named(j);
    if named.None? {
      errors := errors + [Error(Some(at), if j.Obj? then NamesRequired else NotAnObject)];
      return;
    }
    var inst := named.value;
    if inst.environment !in branches {
      errors := errors + [Error(Some(at), UnknownEnvironment)];
    }
    if (inst.name, inst.environment) in seen {
      errors := errors + [Error(Some(at), Duplicate)];
    }
    seen := seen + {(inst.name, inst.environment)};
    if inst.name in serviceIds && serviceIds[inst.name] != inst.serviceId {
      errors := errors + [Error(Some(at), ServiceIdDiffers)];
    }
    serviceIds := serviceIds[inst.name := inst.serviceId];
    var own := OwnErrors(errors, at, data, branches, repo, inst);
    if own.Crash? {
      crashed := true;
    } else {
      errors := own.errors;
    }
  }

  lemma VisitedNext(data: Fields, branches: Fields, repo: Repo, first: seq<Error>, instances: seq<Json>, at: nat)
    requires at < |instances|
    ensures Visited(data, branches, repo, first, instances[..at + 1])
         == Visit(Visited(data, branches, repo, first, instances[..at]), at, data, branches, repo, instances[at])
  {
    assert instances[..at + 1][..at] == instances[..at];
  }

  /** The loop over instances. */
  method JudgeInstances(data: Fields, branches: Fields, repo: Repo, first: seq<Error>, instances: seq<Json>)
    returns (crashed: bool, errors: seq<Error>)
    ensures crashed <==> Visited(data, branches, repo, first, instances).Crashed?
    ensures !crashed ==> Visited(data, branches, repo, first, instances).scan.errors == errors
  {
    var seen: set<(string, string)> := {};
    var serviceIds: map<string, string> := map[];
    errors := first;
    var at := 0;
    while at < |instances|
      invariant 0 <= at <= |instances|
      invariant Visited(data, branches, repo, first, instances[..at]) == Going(Scan(errors, seen, serviceIds))
    {
      VisitedNext(data, branches, repo, first, instances, at);
      crashed, errors, seen, serviceIds :=
        JudgeInstance(at, data, branches, repo, instances[at], Scan(errors, seen, serviceIds));
      if crashed {
        CrashStays(data, branches, repo, first, instances, at + 1);
        return;
      }
      at := at + 1;
    }
    assert instances[..at] == instances;
    crashed := false;
  }

  method ValidateManifest(data: Fields, repo: Repo) returns (r: Outcome)
    ensures r == Validate(data, repo)
  {
    var errors: seq<Error> := [];
    var branches: Fields := map[];
    var b := Get(data, "environmentBranches");
    if !b.Obj? || b.fields == map[] {
      errors := errors + [Error(None, BranchesMissing)];
    } else {
      branches := b.fields;
    }
    var instances := Get(data, "instances");
    if !instances.Arr? || instances.items == [] {
      return Errors(errors + [Error(None, InstancesMissing)]);
    }
    if BadRepositoryName(Get(data, "repository")) {
      errors := errors + [Error(None, BadRepository)];
    }
    assert errors == HeadErrors(data);
    var crashed;
    crashed, errors := JudgeInstances(data, branches, repo, errors, instances.items);
    return if crashed then Crash else Errors(errors);
  }

  lemma {:induction false} CrashStays(data: Fields, branches: Fields, repo: Repo, first: seq<Error>,
                                      instances: seq<Json>, k: nat)
    requires k <= |instances| && Visited(data, branches, repo, first, instances[..k]).Crashed?
    ensures Visited(data, branches, repo, first, instances).Crashed?
  {
    if k == |instances| {
      assert instances[..k] == instances;
    } else {
      var front := instances[..|instances| - 1];
      assert front[..k] == instances[..k];
      CrashStays(data, branches, repo, first, front, k);
    }
  }
}
