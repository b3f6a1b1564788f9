/** The unattended monitor, scripts/uptime_probe.py: one endpoint's re-check loop and the overall verdict. */
module UptimeProbe {
  import opened Text
  import opened Options
  import opened HealthPayload
  import opened Probing
  import opened ProbedBody

  /** `expect_contains`: absent, one marker, or a list of markers. */
  datatype Expectation = Nothing | One(marker: string) | Many(markers: seq<string>)

  datatype Endpoint = Endpoint(name: string, url: string, deep: bool, expected: Expectation)

  datatype Detail =
    | NoDetail | HttpStatus(status: int) | ContractMismatch(shown: seq<string>, more: bool)
    | DegradedNow(subsystems: seq<string>) | DegradedThroughout(subsystems: seq<string>, checks: nat)

  /** The result dictionary; `rechecked` is the last attempt that found the endpoint degraded. */
  datatype Result = Result(
    status: int, ok: bool, detail: Detail, degraded: seq<string>, contractFailed: bool, rechecked: Option<nat>)

  const BLANK := Result(0, false, NoDetail, [], false, None)

  // ---- What one answer says ----

  function Markers(e: Expectation): seq<string> {
    match e
    case Nothing => []
    case One(m) => if m == "" then [] else [m]
    case Many(ms) => ms
  }

  function Missing(markers: seq<string>, body: string): seq<string> {
    if markers == [] then []
    else (if Contains(body, markers[0]) then [] else [markers[0]]) + Missing(markers[1..], body)
  }

  /** `_contract_failure`. */
  function ContractFailure(ep: Endpoint, body: string): Option<Detail> {
    var missing := Missing(Markers(ep.expected), body);
    if missing == [] then None
    else Some(if |missing| <= 3 then ContractMismatch(missing, false) else ContractMismatch(missing[..3], true))
  }

  lemma {:induction false} MissingIff(markers: seq<string>, body: string)
    ensures Missing(markers, body) == [] <==> forall k :: 0 <= k < |markers| ==> Contains(body, markers[k])
  {
    if markers != [] {
      MissingIff(markers[1..], body);
      assert forall k :: 1 <= k < |markers| ==> markers[k] == markers[1..][k - 1];
      assert forall k :: 0 <= k < |markers| - 1 ==> markers[1..][k] == markers[k + 1];
    }
  }

  function Label(f: Finding): string {
    f.path + "=" + f.value
  }

  function Labels(bad: seq<Finding>): (r: seq<string>)
    ensures |r| == |bad|
  {
    seq(|bad|, k requires 0 <= k < |bad| => Label(bad[k]))
  }

  datatype Reading =
    | HardFailure(detail: Detail) | ContractBroken(detail: Detail) | Healthy | Unwell(subsystems: seq<string>)

  function Read(ep: Endpoint, r: Reply, parse: Parser): Reading {
    if !Good(r) then HardFailure(HttpStatus(r.status))
    else if ContractFailure(ep, Body(r)).Some? then ContractBroken(ContractFailure(ep, Body(r)).value)
    else if !ep.deep || Breakdown(parse(Body(r))) == [] then Healthy
    else Unwell(Labels(Breakdown(parse(Body(r)))))
  }

  // ---- The trace of a check ----

  /** The number of the first request of attempt `k`, when the check starts at request `n`. */
  function Begins(reply: Trace, n: nat, k: nat): nat {
    if k == 0 then n
    else
      var b := Begins(reply, n, k - 1);
      b + Tries(reply, b, ATTEMPTS)
  }

  lemma {:induction false} RequestBudget(reply: Trace, n: nat, k: nat)
    ensures n <= Begins(reply, n, k) <= n + ATTEMPTS * k
  {
    if k > 0 {
      RequestBudget(reply, n, k - 1);
    }
  }

  /** One attempt: the status its probe was answered with, and what that answer says. */
  datatype Round = Round(status: int, reading: Reading)

  type Rounds = nat -> Round

  function RoundOf(ep: Endpoint, heard: Reply, parse: Parser): Round {
    Round(heard.status, Read(ep, heard, parse))
  }

  function Heard(reply: Trace, n: nat, k: nat): Reply {
    Answer(reply, Begins(reply, n, k), ATTEMPTS)
  }

  function RoundsOf(ep: Endpoint, reply: Trace, parse: Parser, n: nat): Rounds {
    (k: nat) => RoundOf(ep, Heard(reply, n, k), parse)
  }

  /** The first round below `limit` that is not degraded. */
  function FirstClear(rounds: Rounds, limit: nat): (k: Option<nat>)
    ensures k.Some? ==> k.value < limit && !rounds(k.value).reading.Unwell?
    ensures forall j: nat :: j < k.GetOr(limit) ==> rounds(j).reading.Unwell?
  {
    if limit == 0 then None
    else
      var k := FirstClear(rounds, limit - 1);
      if k.Some? then k else if rounds(limit - 1).reading.Unwell? then None else Some(limit - 1)
  }

  /** What a degraded round leaves in the result. */
  function Left(round: Round, attempt: nat): Result
    requires round.reading.Unwell?
  {
    var subsystems := round.reading.subsystems;
    Result(round.status, true, DegradedNow(subsystems), subsystems, false, Some(attempt))
  }

  /** What the degraded rounds before round `k` left in the result. */
  function Before(rounds: Rounds, k: nat): (r: Result)
    ensures !r.contractFailed
  {
    if k == 0 || !rounds(k - 1).reading.Unwell? then BLANK else Left(rounds(k - 1), k - 1)
  }

  /** The result that a round decides, given what was left before it. */
  function Decided(before: Result, round: Round): Result
    requires !round.reading.Unwell?
  {
    match round.reading
    case HardFailure(d) => before.(status := round.status, ok := false, detail := d)
    case ContractBroken(d) => before.(status := round.status, ok := false, detail := d, contractFailed := true)
    case Healthy => before.(status := round.status, ok := true, detail := NoDetail, degraded := [])
  }

  /** The first round that is not degraded decides; without one, the last is reported. */
  function Reported(rounds: Rounds, rechecks: nat): Result {
    match FirstClear(rounds, rechecks + 1)
    case Some(k) => Decided(Before(rounds, k), rounds(k))
    case None =>
      var last := Before(rounds, rechecks + 1);
      last.(detail := DegradedThroughout(last.degraded, rechecks + 1))
  }

  lemma ClearStays(rounds: Rounds, k: nat, limit: nat)
    requires k < limit && FirstClear(rounds, k).None? && !rounds(k).reading.Unwell?
    ensures FirstClear(rounds, limit) == Some(k)
  {
  }

  lemma DecidedHere(rounds: Rounds, k: nat, rechecks: nat)
    requires k <= rechecks && FirstClear(rounds, k).None? && !rounds(k).reading.Unwell?
    ensures Reported(rounds, rechecks) == Decided(Before(rounds, k), rounds(k))
    ensures FirstClear(rounds, rechecks + 1) == Some(k)
  {
    ClearStays(rounds, k, rechecks + 1);
  }

  lemma NotDecidedHere(rounds: Rounds, k: nat)
    requires FirstClear(rounds, k).None? && rounds(k).reading.Unwell?
    ensures FirstClear(rounds, k + 1).None? && Before(rounds, k + 1) == Left(rounds(k), k)
  {
  }

  /** One pass of the loop body over the answer that its probe got. */
  method CheckOnce(ep: Endpoint, heard: Reply, parse: Parser, before: Result, attempt: nat)
    returns (decided: bool, r: Result)
    requires !before.contractFailed
    ensures decided == !Read(ep, heard, parse).Unwell?
    ensures r == if decided then Decided(before, RoundOf(ep, heard, parse))
                 else Left(RoundOf(ep, heard, parse), attempt)
  {
    r := before.(status := heard.status, ok := Good(heard));
    decided := true;
    if !r.ok {
      r := r.(detail := HttpStatus(heard.status));
      return;
    }
    var failure := ContractFailure(ep, Body(heard));
    if failure.Some? {
      r := r.(ok := false, detail := failure.value, contractFailed := true);
      return;
    }
    if !ep.deep {
      r := r.(degraded := [], detail := NoDetail);
      return;
    }
    var bad := SubsystemBreakdown(parse(Body(heard)));
    if bad == [] {
      r := r.(degraded := [], detail := NoDetail);
      return;
    }
    r := r.(degraded := Labels(bad), detail := DegradedNow(Labels(bad)), rechecked := Some(attempt));
    decided := false;
  }

  /** Where the loop stands at the start of an attempt: every round so far was degraded. */
  ghost predicate Standing(ep: Endpoint, reply: Trace, parse: Parser, n: nat, attempt: nat, r: Result, used: nat) {
    var rounds := RoundsOf(ep, reply, parse, n);
    FirstClear(rounds, attempt).None? && r == Before(rounds, attempt) && n + used == Begins(reply, n, attempt)
  }

  /** What `check` has to return, with so many requests made. */
  ghost predicate Settled(ep: Endpoint, reply: Trace, parse: Parser, n: nat, rechecks: nat, r: Result, used: nat) {
    var rounds := RoundsOf(ep, reply, parse, n);
    && r == Reported(rounds, rechecks)
    && n + used == Begins(reply, n, FirstClear(rounds, rechecks + 1).GetOr(rechecks) + 1)
  }

  method ProbeAttempt(reply: Trace, n: nat, attempt: nat, spent: nat) returns (heard: Reply, used: nat)
    requires n + spent == Begins(reply, n, attempt)
    ensures heard == Heard(reply, n, attempt) && n + used == Begins(reply, n, attempt + 1)
  {
    var requests;
    heard, requests := Probe(reply, n + spent, ATTEMPTS);
    used := spent + requests;
  }

  method CheckAttempt(ep: Endpoint, reply: Trace, parse: Parser, n: nat, rechecks: nat,
                      before: Result, spent: nat, attempt: nat)
    returns (decided: bool, r: Result, used: nat)
    requires attempt <= rechecks && Standing(ep, reply, parse, n, attempt, before, spent)
    ensures if decided then Settled(ep, reply, parse, n, rechecks, r, used)
            else Standing(ep, reply, parse, n, attempt + 1, r, used)
  {
    var heard;
    heard, used := ProbeAttempt(reply, n, attempt, spent);
    decided, r := CheckOnce(ep, heard, parse, before, attempt);
    ghost var rounds := RoundsOf(ep, reply, parse, n);
    assert rounds(attempt) == RoundOf(ep, heard, parse);
    if decided {
      DecidedHere(rounds, attempt, rechecks);
    } else {
      NotDecidedHere(rounds, attempt);
    }
  }

  lemma StandingFirst(ep: Endpoint, reply: Trace, parse: Parser, n: nat)
    ensures Standing(ep, reply, parse, n, 0, BLANK, 0)
  {
  }

  lemma StandingLast(ep: Endpoint, reply: Trace, parse: Parser, n: nat, rechecks: nat, r: Result, used: nat)
    requires Standing(ep, reply, parse, n, rechecks + 1, r, used)
    ensures Settled(ep, reply, parse, n, rechecks,
                    r.(detail := DegradedThroughout(r.degraded, rechecks + 1)), used)
  {
  }

  /** The loop of `check`. */
  method Attempts(ep: Endpoint, reply: Trace, parse: Parser, n: nat, rechecks: nat)
    returns (decided: bool, r: Result, used: nat)
    ensures if decided then Settled(ep, reply, parse, n, rechecks, r, used)
            else Standing(ep, reply, parse, n, rechecks + 1, r, used)
  {
    decided, r, used := false, BLANK, 0;
    StandingFirst(ep, reply, parse, n);
    for attempt := 0 to rechecks + 1
      invariant !decided && Standing(ep, reply, parse, n, attempt, r, used)
    {
      decided, r, used := CheckAttempt(ep, reply, parse, n, rechecks, r, used, attempt);
      if decided {
        return;
      }
    }
  }

  /** `check`, whose first request is request `n`. No request is made after the deciding attempt. */
  method Check(ep: Endpoint, reply: Trace, parse: Parser, n: nat, rechecks: nat) returns (r: Result, used: nat)
    ensures Settled(ep, reply, parse, n, rechecks, r, used)
  {
    var decided;
    decided, r, used := Attempts(ep, reply, parse, n, rechecks);
    if !decided {
      StandingLast(ep, reply, parse, n, rechecks, r, used);
      r := r.(detail := DegradedThroughout(r.degraded, rechecks + 1));
    }
  }

  /** Each attempt's requests come right behind those of the one before: up to a good answer, or three. */
  lemma RequestsFollow(reply: Trace, n: nat, k: nat)
    ensures Begins(reply, n, 0) == n
    ensures var b := Begins(reply, n, k); var next := Begins(reply, n, k + 1);
      && (forall i: nat :: FirstGood(reply, b, i) && i < b + 3 ==> next == i + 1)
      && ((forall i: nat :: b <= i < b + 3 ==> !Good(reply(i))) ==> next == b + 3)
  {
    var b := Begins(reply, n, k);
    StopsAtFirstGood(reply, b, ATTEMPTS);
    var tries := Tries(reply, b, ATTEMPTS);
    forall i: nat | FirstGood(reply, b, i) && i < b + 3
      ensures b + tries == i + 1
    {
      assert tries < 3 ==> Good(reply(b + tries - 1));
    }
  }

  /** A check makes at most three requests for each of its attempts. */
  lemma RequestsAreBounded(ep: Endpoint, reply: Trace, parse: Parser, n: nat, rechecks: nat, r: Result, used: nat)
    requires Settled(ep, reply, parse, n, rechecks, r, used)
    ensures used <= ATTEMPTS * (rechecks + 1)
  {
    RequestBudget(reply, n, FirstClear(RoundsOf(ep, reply, parse, n), rechecks + 1).GetOr(rechecks) + 1);
  }

  // ---- What a result means ----

  predicate Expects(e: Expectation, marker: string) {
    e == One(marker) || (e.Many? && marker in e.markers)
  }

  /** The body holds every marker that the endpoint expects. */
  ghost predicate Kept(ep: Endpoint, body: string) {
    forall marker :: Expects(ep.expected, marker) ==> Contains(body, marker)
  }

  lemma KeptIff(ep: Endpoint, body: string)
    ensures Kept(ep, body) <==> Missing(Markers(ep.expected), body) == []
  {
    var markers := Markers(ep.expected);
    MissingIff(markers, body);
    assert forall k :: 0 <= k < |markers| ==> Expects(ep.expected, markers[k]);
    forall marker | Expects(ep.expected, marker)
      ensures marker in markers || Contains(body, marker)
    {
      if marker == "" {
        assert StartsWith(body, "");
      }
    }
  }

  /** Of the markers missing the first three are shown, and whether there are more. */
  lemma MismatchShows(ep: Endpoint, body: string, shown: seq<string>, more: bool)
    requires ContractFailure(ep, body) == Some(ContractMismatch(shown, more))
    ensures var missing := Missing(Markers(ep.expected), body);
      shown <= missing && (more <==> |missing| >= 4) && |shown| == if more then 3 else |missing|
  {
  }

  /** The four readings of an answer, in the endpoint's own terms. */
  lemma ReadingIff(ep: Endpoint, r: Reply, parse: Parser)
    ensures var reading := Read(ep, r, parse);
      && (reading.HardFailure? <==> !Good(r))
      && (reading.ContractBroken? <==> (Good(r) && !Kept(ep, Body(r))))
      && (reading.Unwell? <==> (Good(r) && Kept(ep, Body(r)) && ep.deep && Breakdown(parse(Body(r))) != []))
      && (reading.Unwell? ==> Shows(reading.subsystems, Breakdown(parse(Body(r)))))
  {
    KeptIff(ep, Body(r));
  }

  /** Each finding is shown as its path, an equals sign and its value. */
  predicate Shows(subsystems: seq<string>, bad: seq<Finding>) {
    |subsystems| == |bad| && forall k :: 0 <= k < |bad| ==> subsystems[k] == bad[k].path + "=" + bad[k].value
  }

  /** The marker stands somewhere in the first 4000 bytes of what was sent. */
  ghost predicate MarkerInReach(r: Reply, marker: string) {
    exists i: nat :: StandsAt(r.sent, marker, i) && i + |marker| <= 4000
  }

  lemma MarkerSeenIff(r: Reply, marker: string)
    ensures Contains(Body(r), marker) <==> MarkerInReach(r, marker)
  {
    ContainsIff(Body(r), marker);
    forall i: nat
      ensures StandsAt(Body(r), marker, i) <==> (StandsAt(r.sent, marker, i) && i + |marker| <= READ_LIMIT)
    {
      if i + |marker| <= |Body(r)| {
        assert Body(r)[i..i + |marker|] == r.sent[i..i + |marker|];
      }
    }
  }

  /**
   * In terms of what was sent: an answer is healthy exactly when it is good, every marker stands in its
   * first 4000 bytes, and the endpoint is shallow or no complaint of its reaches the reader.
   */
  lemma HealthyIffSent(ep: Endpoint, r: Reply, parse: Parser)
    requires Json(parse)
    ensures Read(ep, r, parse).Healthy?
      <==> Good(r) && (ep.deep ==> !Reaches(parse, r))
           && forall marker :: Expects(ep.expected, marker) ==> MarkerInReach(r, marker)
  {
    ReadingIff(ep, r, parse);
    ReadIffReaches(parse, r);
    ComplainsIff(parse(Body(r)));
    forall marker
      ensures Contains(Body(r), marker) <==> MarkerInReach(r, marker)
    {
      MarkerSeenIff(r, marker);
    }
  }

  /** A degraded round names what is wrong. */
  ghost predicate Named(rounds: Rounds) {
    forall k: nat :: rounds(k).reading.Unwell? ==> rounds(k).reading.subsystems != []
  }

  lemma RoundsAreNamed(ep: Endpoint, reply: Trace, parse: Parser, n: nat)
    ensures Named(RoundsOf(ep, reply, parse, n))
  {
    forall k: nat | RoundsOf(ep, reply, parse, n)(k).reading.Unwell?
      ensures RoundsOf(ep, reply, parse, n)(k).reading.subsystems != []
    {
      ReadingIff(ep, Heard(reply, n, k), parse);
    }
  }

  /** An endpoint is reported up but degraded exactly when every one of its checks was degraded. */
  lemma {:induction false} DegradedIffThroughout(rounds: Rounds, rechecks: nat)
    requires Named(rounds)
    ensures var r := Reported(rounds, rechecks);
      r.ok && r.degraded != [] <==> forall k: nat :: k <= rechecks ==> rounds(k).reading.Unwell?
  {
    if FirstClear(rounds, rechecks + 1).None? {
      assert rounds(rechecks).reading.Unwell?;
    }
  }

  /** Some round is healthy and all rounds before it are degraded only. */
  ghost predicate Recovers(rounds: Rounds, rechecks: nat) {
    exists k: nat :: k <= rechecks && rounds(k).reading.Healthy? && AllUnwell(rounds, k)
  }

  ghost predicate AllUnwell(rounds: Rounds, k: nat) {
    forall j: nat :: j < k ==> rounds(j).reading.Unwell?
  }

  lemma {:induction false} WellIffRecovers(rounds: Rounds, rechecks: nat)
    requires Named(rounds)
    ensures var r := Reported(rounds, rechecks); r.ok && r.degraded == [] <==> Recovers(rounds, rechecks)
  {
    var clear := FirstClear(rounds, rechecks + 1);
    if clear.None? {
      assert rounds(rechecks).reading.Unwell?;
    } else {
      assert AllUnwell(rounds, clear.value);
    }
  }

  /**
   * A failure does not clear what an earlier degraded check of the same run left: it carries a stale
   * list exactly when the first check was degraded.
   */
  lemma {:induction false} FailureMayCarryStaleList(rounds: Rounds, rechecks: nat)
    requires Named(rounds) && !Reported(rounds, rechecks).ok
    ensures Reported(rounds, rechecks).degraded != [] <==> rounds(0).reading.Unwell?
  {
    var clear := FirstClear(rounds, rechecks + 1);
    if clear.Some? && clear.value > 0 {
      assert rounds(clear.value - 1).reading.Unwell?;
    }
  }

  lemma {:induction false} BrokenContractIff(rounds: Rounds, rechecks: nat)
    ensures Reported(rounds, rechecks).contractFailed
      <==> exists k: nat :: k <= rechecks && rounds(k).reading.ContractBroken? && AllUnwell(rounds, k)
  {
    var clear := FirstClear(rounds, rechecks + 1);
    if clear.Some? {
      assert AllUnwell(rounds, clear.value);
    }
  }

  /**
   * What the result of a check says of the endpoint's own answers: up but degraded exactly when every
   * attempt was degraded, well exactly when it recovers, and a failure is stale exactly when the first
   * attempt was degraded. The contract failed exactly when the first attempt that was not degraded says so.
   */
  lemma CheckMeans(ep: Endpoint, reply: Trace, parse: Parser, n: nat, rechecks: nat, r: Result, used: nat)
    requires Settled(ep, reply, parse, n, rechecks, r, used)
    ensures var rounds := RoundsOf(ep, reply, parse, n);
      && (r.ok && r.degraded != [] <==> forall k: nat :: k <= rechecks ==> rounds(k).reading.Unwell?)
      && (r.ok && r.degraded == [] <==> Recovers(rounds, rechecks))
      && (!r.ok ==> (r.degraded != [] <==> rounds(0).reading.Unwell?))
      && (r.contractFailed <==>
            exists k: nat :: k <= rechecks && rounds(k).reading.ContractBroken? && AllUnwell(rounds, k))
  {
    var rounds := RoundsOf(ep, reply, parse, n);
    BrokenContractIff(rounds, rechecks);
    RoundsAreNamed(ep, reply, parse, n);
    DegradedIffThroughout(rounds, rechecks);
    WellIffRecovers(rounds, rechecks);
    if !r.ok {
      FailureMayCarryStaleList(rounds, rechecks);
    }
  }

  // ---- The verdict over all endpoints ----

  predicate Well(r: Result) {
    r.ok && r.degraded == []
  }

  /** The endpoint recovers on its own answers. */
  ghost predicate EndpointRecovers(ep: Endpoint, reply: Trace, parse: Parser, rechecks: nat) {
    Recovers(RoundsOf(ep, reply, parse, 0), rechecks)
  }

  method CheckEndpoint(ep: Endpoint, reply: Trace, parse: Parser, rechecks: nat) returns (r: Result)
    ensures r.ok && r.degraded == [] <==> EndpointRecovers(ep, reply, parse, rechecks)
  {
    var used;
    r, used := Check(ep, reply, parse, 0, rechecks);
    CheckMeans(ep, reply, parse, 0, rechecks, r, used);
  }

  /** The part of `main` that fixes the verdict; each endpoint is probed on its own trace. */
  method ProbeAll(eps: seq<Endpoint>, traces: seq<Trace>, parse: Parser, rechecks: nat)
    returns (results: seq<Result>, allOk: bool)
    requires |eps| == |traces|
    ensures |results| == |eps|
    ensures forall k :: 0 <= k < |eps| ==>
      (results[k].ok && results[k].degraded == [] <==> EndpointRecovers(eps[k], traces[k], parse, rechecks))
    ensures allOk <==> forall k :: 0 <= k < |eps| ==> EndpointRecovers(eps[k], traces[k], parse, rechecks)
  {
    results, allOk := [], true;
    ghost var good := seq(|eps|, k requires 0 <= k < |eps| => EndpointRecovers(eps[k], traces[k], parse, rechecks));
    for k := 0 to |eps|
      invariant |results| == k
      invariant forall i :: 0 <= i < k ==> (Well(results[i]) <==> good[i])
      invariant allOk <==> forall i :: 0 <= i < k ==> good[i]
    {
      var r := CheckEndpoint(eps[k], traces[k], parse, rechecks);
      assert Well(r) <==> good[k];
      results := results + [r];
      allOk := allOk && Well(r);
    }
  }
}
