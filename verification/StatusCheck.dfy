/** The all-green verdict of scripts/status.py: `judge_service`, `gather` and `exit_code_for`. */
module StatusCheck {
  import opened Options
  import opened HealthPayload
  import opened Probing
  import opened ProbedBody

  const WARMUP_SECONDS := 300
  const INFRA_SERVICES := {"Postgres", "Redis"}
  const BAD_DEPLOY_STATES := {"FAILED", "CRASHED", "BUILD_FAILED", "DEPLOY_FAILED", "REMOVED"}
  const IN_PROGRESS := {"BUILDING", "DEPLOYING", "INITIALIZING", "WAITING", "QUEUED"}

  /** A service as the control plane reports it; `age` is that of its deploy, `url` where it is probed. */
  datatype Service = Service(
    name: string, status: Option<string>, active: bool, hasSource: bool, instances: seq<Option<string>>,
    age: Option<int>, url: Option<string>)

  datatype Verdict = Ok | Warn | Down | Absent

  datatype Reason =
    | NotDeployed | Decommissioned | BadDeploy | NoActiveDeploy | InProgress | OddDeploy | BadInstances
    | NoInstances | Running | HttpStatus(status: int) | WarmingUp(heartbeats: nat) | Degraded(subsystems: nat)

  datatype Row = Row(service: Service, verdict: Verdict, reason: Reason, subsystems: seq<Finding>)

  predicate Infra(s: Service) {
    s.name in INFRA_SERVICES
  }

  predicate AllRunning(instances: seq<Option<string>>) {
    forall k :: 0 <= k < |instances| ==> instances[k] == Some("RUNNING")
  }

  /** `judge_service`. */
  function JudgeService(s: Service): (Verdict, Reason) {
    var status := s.status.GetOr("");
    if !s.active && status == "" then (Absent, NotDeployed)
    else if !s.hasSource && !s.active && !Infra(s) then (Absent, Decommissioned)
    else if status in BAD_DEPLOY_STATES then (Down, BadDeploy)
    else if !s.active then (if Infra(s) then Warn else Down, NoActiveDeploy)
    else if status in IN_PROGRESS then (Warn, InProgress)
    else if status != "SUCCESS" then (Warn, OddDeploy)
    else if s.instances != [] && !AllRunning(s.instances) then (Down, BadInstances)
    else if s.instances == [] && !Infra(s) then (Warn, NoInstances)
    else (Ok, Running)
  }

  predicate Fresh(s: Service) {
    s.age.Some? && s.age.value < WARMUP_SECONDS
  }

  function Judged(s: Service): Row {
    Row(s, JudgeService(s).0, JudgeService(s).1, [])
  }

  /** A judged row after its probe was answered. */
  function Concluded(row: Row, r: Reply, parse: Parser): Row {
    if !Good(r) then row.(verdict := Down, reason := HttpStatus(r.status), subsystems := [])
    else
      var bad := Breakdown(parse(Body(r)));
      if bad == [] || row.verdict != Ok then row.(subsystems := bad)
      else if Fresh(row.service) then row.(subsystems := bad, reason := WarmingUp(|bad|))
      else row.(subsystems := bad, verdict := Warn, reason := Degraded(|bad|))
  }

  /** The row is of a service with a URL, and it was not judged absent. */
  predicate Wanted(row: Row) {
    row.service.url.GetOr("") != "" && row.verdict != Absent
  }

  function Concluding(answer: Service -> Reply, parse: Parser): Row -> Row {
    (row: Row) => Concluded(row, answer(row.service), parse)
  }

  /** What is finally reported of a service, given the answer its probe gets. */
  function Final(s: Service, answer: Service -> Reply, parse: Parser): Row {
    Settled(Judged(s), Concluding(answer, parse))
  }

  function Settled(row: Row, rewrite: Row -> Row): Row {
    if Wanted(row) then rewrite(row) else row
  }

  function Rewritten(rows: seq<Row>, rewrite: Row -> Row): (r: seq<Row>)
    ensures |r| == |rows| && forall k :: 0 <= k < |rows| ==> r[k] == Settled(rows[k], rewrite)
  {
    seq(|rows|, k requires 0 <= k < |rows| => Settled(rows[k], rewrite))
  }

  function JudgedRows(services: seq<Service>): (r: seq<Row>)
    ensures |r| == |services| && forall k :: 0 <= k < |services| ==> r[k] == Judged(services[k])
  {
    seq(|services|, k requires 0 <= k < |services| => Judged(services[k]))
  }

  /** The rows after the whole run. */
  function Finals(services: seq<Service>, answer: Service -> Reply, parse: Parser): seq<Row> {
    Rewritten(JudgedRows(services), Concluding(answer, parse))
  }

  method JudgeAll(services: seq<Service>) returns (rows: array<Row>)
    ensures fresh(rows) && rows[..] == JudgedRows(services)
  {
    rows := new Row[|services|](k requires 0 <= k < |services| => Judged(services[k]));
  }

  /** The positions of the rows to probe, in order. */
  method SelectProbes(rows: array<Row>) returns (probes: seq<nat>)
    ensures forall k :: k in probes <==> 0 <= k < rows.Length && Wanted(rows[k])
    ensures forall m :: 0 <= m < |probes| ==> probes[m] < rows.Length
    ensures forall i, m :: 0 <= i < m < |probes| ==> probes[i] < probes[m]
  {
    probes := [];
    for k := 0 to rows.Length
      invariant forall j :: j in probes <==> 0 <= j < k && Wanted(rows[j])
      invariant forall m :: 0 <= m < |probes| ==> probes[m] < k
      invariant forall i, m :: 0 <= i < m < |probes| ==> probes[i] < probes[m]
    {
      if Wanted(rows[k]) {
        probes := probes + [k];
      }
    }
  }

  /** Rewrites the rows at some positions in place; the other rows stay. */
  method RewriteAt(rows: array<Row>, at: seq<nat>, rewrite: Row -> Row)
    requires forall m :: 0 <= m < |at| ==> at[m] < rows.Length
    requires forall i, m :: 0 <= i < m < |at| ==> at[i] < at[m]
    modifies rows
    ensures forall k :: 0 <= k < rows.Length ==> rows[k] == if k in at then rewrite(old(rows[k])) else old(rows[k])
  {
    for m := 0 to |at|
      invariant forall i :: 0 <= i < m ==> rows[at[i]] == rewrite(old(rows[at[i]]))
      invariant forall k :: 0 <= k < rows.Length && k !in at[..m] ==> rows[k] == old(rows[k])
    {
      var k := at[m];
      assert k !in at[..m];
      rows[k] := rewrite(rows[k]);
      assert at[..m + 1] == at[..m] + [k];
    }
    assert at[..|at|] == at;
  }

  /** The probes are chosen before any row is rewritten. */
  method RewriteWanted(rows: array<Row>, rewrite: Row -> Row)
    modifies rows
    ensures rows[..] == Rewritten(old(rows[..]), rewrite)
  {
    ghost var before := rows[..];
    var probes := SelectProbes(rows);
    RewriteAt(rows, probes, rewrite);
    forall k | 0 <= k < rows.Length
      ensures rows[k] == Rewritten(before, rewrite)[k]
    {
      assert k in probes <==> Wanted(before[k]);
    }
  }

  /** `gather`: every service is judged first, then the rows of the probed ones are rewritten. */
  method Gather(services: seq<Service>, answer: Service -> Reply, parse: Parser) returns (rows: array<Row>)
    ensures fresh(rows) && rows[..] == Finals(services, answer, parse)
  {
    rows := JudgeAll(services);
    RewriteWanted(rows, Concluding(answer, parse));
  }

  predicate SomeVerdict(rows: seq<Row>, v: Verdict) {
    exists k :: 0 <= k < |rows| && rows[k].verdict == v
  }

  function ExitCodeFor(rows: seq<Row>): int {
    if SomeVerdict(rows, Down) || SomeVerdict(rows, Warn) then 1 else 0
  }

  // ---- What exit code 0 means ----

  /** The database or the cache, which have no source of ours. */
  predicate IsStore(s: Service) {
    s.name == "Postgres" || s.name == "Redis"
  }

  predicate EveryOneRuns(s: Service) {
    forall instance :: instance in s.instances ==> instance == Some("RUNNING")
  }

  lemma EveryOneRunsIff(s: Service)
    ensures EveryOneRuns(s) <==> AllRunning(s.instances)
  {
    assert forall k :: 0 <= k < |s.instances| ==> s.instances[k] in s.instances;
  }

  /** The age of the deploy is known, and is less than so many seconds. */
  predicate DeployedWithin(s: Service, seconds: int) {
    s.age.GetOr(seconds) < seconds
  }

  /** Not provisioned here, or decommissioned. */
  predicate NotOurs(s: Service) {
    !s.active && (s.status.GetOr("") == "" || (!s.hasSource && !IsStore(s)))
  }

  /** A successful deploy whose instances all run; only infrastructure may report none. */
  predicate Serving(s: Service) {
    s.active && s.status == Some("SUCCESS") && EveryOneRuns(s) && (s.instances != [] || IsStore(s))
  }

  /** The probe, if there is one, was answered well, and complains only while the deploy is fresh. */
  ghost predicate AnswersWell(s: Service, answer: Service -> Reply, parse: Parser) {
    s.url.GetOr("") != "" ==> Good(answer(s)) && (Complains(parse(Body(answer(s)))) ==> DeployedWithin(s, 300))
  }

  lemma GreenIff(s: Service, answer: Service -> Reply, parse: Parser)
    ensures Final(s, answer, parse).verdict == Absent <==> NotOurs(s)
    ensures NotOurs(s) ==> Final(s, answer, parse) == Judged(s)
    ensures Final(s, answer, parse).verdict == Ok <==> Serving(s) && AnswersWell(s, answer, parse)
  {
    ComplainsIff(parse(Body(answer(s))));
    EveryOneRunsIff(s);
  }

  /** A failed deploy, nothing active where something should be, or an instance that does not run. */
  predicate Broken(s: Service) {
    || s.status.GetOr("") in BAD_DEPLOY_STATES
    || (!s.active && !IsStore(s))
    || (s.active && s.status == Some("SUCCESS") && !EveryOneRuns(s))
  }

  /** Exactly when a service is reported down; what is neither absent, ok nor down is a warning. */
  lemma DownIff(s: Service, answer: Service -> Reply, parse: Parser)
    ensures Final(s, answer, parse).verdict == Down
      <==> !NotOurs(s) && (Broken(s) || (s.url.GetOr("") != "" && !Good(answer(s))))
  {
    ComplainsIff(parse(Body(answer(s))));
    EveryOneRunsIff(s);
  }

  /**
   * The command exits with 0 exactly when every service is absent, or serves and answers well: a
   * successful deploy, running instances, a 2xx answer where it is probed, and any complaint in that
   * answer excused by a deploy less than 300 seconds old.
   */
  lemma ExitZeroIff(services: seq<Service>, answer: Service -> Reply, parse: Parser)
    ensures ExitCodeFor(Finals(services, answer, parse)) == 0
      <==> forall k :: 0 <= k < |services| ==>
             NotOurs(services[k]) || (Serving(services[k]) && AnswersWell(services[k], answer, parse))
  {
    var rows := Finals(services, answer, parse);
    forall k | 0 <= k < |services|
      ensures rows[k].verdict == Down || rows[k].verdict == Warn
        <==> !(NotOurs(services[k]) || (Serving(services[k]) && AnswersWell(services[k], answer, parse)))
    {
      GreenIff(services[k], answer, parse);
    }
    if ExitCodeFor(rows) == 0 {
      forall k | 0 <= k < |services|
        ensures rows[k].verdict != Down && rows[k].verdict != Warn
      {
        assert !SomeVerdict(rows, Down) && !SomeVerdict(rows, Warn);
      }
    }
  }

  // ---- Over traces of answers ----

  /** Each service's URL is probed on a trace of its own. */
  function Answers(traces: Service -> Trace): Service -> Reply {
    (s: Service) => Answer(traces(s), 0, ATTEMPTS)
  }

  /** One of the three requests is answered well, and the first that is complains only of a fresh deploy. */
  ghost predicate AnswersInTime(s: Service, reply: Trace, parse: Parser) {
    s.url.GetOr("") != "" ==>
      exists i: nat :: i < ATTEMPTS && FirstGood(reply, 0, i)
        && (Complains(parse(Body(reply(i)))) ==> DeployedWithin(s, 300))
  }

  lemma AnswersWellIff(s: Service, traces: Service -> Trace, parse: Parser)
    ensures AnswersWell(s, Answers(traces), parse) <==> AnswersInTime(s, traces(s), parse)
  {
    var reply := traces(s);
    GoodIffSomeGood(reply, 0, ATTEMPTS);
    forall i: nat | i < ATTEMPTS && FirstGood(reply, 0, i)
      ensures Answers(traces)(s) == reply(i)
    {
      ReportsFirstGood(reply, 0, ATTEMPTS, i);
    }
  }

  /** The same for the probes themselves: what decides is the first good answer to at most three requests. */
  lemma ExitZeroOverTraces(services: seq<Service>, traces: Service -> Trace, parse: Parser)
    ensures ExitCodeFor(Finals(services, Answers(traces), parse)) == 0
      <==> forall k :: 0 <= k < |services| ==>
             NotOurs(services[k])
             || (Serving(services[k]) && AnswersInTime(services[k], traces(services[k]), parse))
  {
    ExitZeroIff(services, Answers(traces), parse);
    forall k | 0 <= k < |services|
      ensures AnswersWell(services[k], Answers(traces), parse)
        <==> AnswersInTime(services[k], traces(services[k]), parse)
    {
      AnswersWellIff(services[k], traces, parse);
    }
  }

  // ---- What was sent ----

  /** One of the three requests is answered well, and if the first that is sent a complaint, it is excused. */
  ghost predicate SendsWell(s: Service, reply: Trace, parse: Parser) {
    s.url.GetOr("") != "" ==>
      exists i: nat :: i < ATTEMPTS && FirstGood(reply, 0, i) && (Reaches(parse, reply(i)) ==> DeployedWithin(s, 300))
  }

  lemma SendsWellIff(s: Service, reply: Trace, parse: Parser)
    requires Json(parse)
    ensures SendsWell(s, reply, parse) <==> AnswersInTime(s, reply, parse)
  {
    forall i: nat
      ensures Reaches(parse, reply(i)) <==> Complains(parse(Body(reply(i))))
    {
      ReadIffReaches(parse, reply(i));
    }
  }

  /**
   * In terms of the bodies that were sent: the command exits with 0 exactly when every service is absent,
   * or serves and one of its probe's requests is answered well, where a complaint in the first good answer
   * is excused by a fresh deploy, or unseen because its text ends behind the first 4000 bytes.
   */
  lemma ExitZeroIffSent(services: seq<Service>, traces: Service -> Trace, parse: Parser)
    requires Json(parse)
    ensures ExitCodeFor(Finals(services, Answers(traces), parse)) == 0
      <==> forall k :: 0 <= k < |services| ==>
             NotOurs(services[k])
             || (Serving(services[k]) && SendsWell(services[k], traces(services[k]), parse))
  {
    ExitZeroOverTraces(services, traces, parse);
    forall k | 0 <= k < |services|
      ensures SendsWell(services[k], traces(services[k]), parse)
        <==> AnswersInTime(services[k], traces(services[k]), parse)
    {
      SendsWellIff(services[k], traces(services[k]), parse);
    }
  }

  /** A complaint of a service that should be reported goes unseen exactly when it was too long. */
  lemma ComplaintUnseenIff(s: Service, answer: Service -> Reply, parse: Parser)
    requires Json(parse) && Serving(s) && s.url.GetOr("") != "" && !DeployedWithin(s, 300)
    requires Good(answer(s)) && Complains(parse(answer(s).sent))
    ensures Final(s, answer, parse).verdict == Ok <==> TextEnd(answer(s).sent) > 4000
  {
    GreenIff(s, answer, parse);
    ReadIffReaches(parse, answer(s));
  }

  /** So it is with a body that says `ready` is false and then goes on for 4000 blanks. */
  lemma LongComplaintPasses(s: Service, parse: Parser)
    requires Json(parse) && parse(LongBody()) == Some(NOT_READY)
    requires Serving(s) && s.url.GetOr("") != "" && !DeployedWithin(s, 300)
    ensures var answer := (q: Service) => Reply(200, LongBody());
      && Complains(parse(answer(s).sent)) && Final(s, answer, parse).verdict == Ok
      && ExitCodeFor(Finals([s], answer, parse)) == 0
  {
    var answer := (q: Service) => Reply(200, LongBody());
    assert Holds(NOT_READY.entries, "ready", Bool(false)) by {
      assert NOT_READY.entries[0] == Entry("ready", Bool(false));
    }
    LongBodyIsLong();
    ComplaintUnseenIff(s, answer, parse);
    assert Finals([s], answer, parse)[0] == Final(s, answer, parse);
  }
}
