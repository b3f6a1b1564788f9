/** The dead-man's switch of api/main.py over the two-tier cache of bot/utils/redis_cache.py. */
module Heartbeat {
  import opened Options

  const HEARTBEAT_TTL := 86400
  const SOURCE_MAX_LEN := 40
  const UNKNOWN := "unknown"

  // ---- Which key a request may write ----

  predicate SourceChar(c: char) {
    'a' <= c <= 'z' || 'A' <= c <= 'Z' || '0' <= c <= '9' || c == '_' || c == '-'
  }

  function Cleaned(s: string): (r: string)
    ensures forall j :: 0 <= j < |r| ==> SourceChar(r[j])
    ensures (forall j :: 0 <= j < |s| ==> SourceChar(s[j])) ==> r == s
  {
    if s == [] then []
    else
      assert s == [s[0]] + s[1..];
      (if SourceChar(s[0]) then [s[0]] else []) + Cleaned(s[1..])
  }

  function Shortened(s: string): string {
    if |s| <= SOURCE_MAX_LEN then s else s[..SOURCE_MAX_LEN]
  }

  function OrUnknown(s: string): string {
    if s == "" then UNKNOWN else s
  }

  /** The source a request is filed under, given the configured sources. */
  function SourceKey(expected: seq<string>, source: Option<string>): (key: string)
    ensures key in expected || key == UNKNOWN
  {
    var key := OrUnknown(Shortened(Cleaned(OrUnknown(source.GetOr("")))));
    if key in expected then key else UNKNOWN
  }

  /** Names the sanitiser leaves alone. */
  predicate Plain(s: string) {
    0 < |s| <= SOURCE_MAX_LEN && forall j :: 0 <= j < |s| ==> SourceChar(s[j])
  }

  lemma ShortenedPlain(clean: string)
    requires forall j :: 0 <= j < |clean| ==> SourceChar(clean[j])
    ensures Plain(OrUnknown(Shortened(clean))) && Plain(UNKNOWN)
  {
  }

  lemma KeyIsPlain(expected: seq<string>, source: Option<string>)
    ensures Plain(SourceKey(expected, source))
  {
    ShortenedPlain(Cleaned(OrUnknown(source.GetOr(""))));
  }

  /**
   * A configured source is ever written to exactly when its name is plain: any other name in the
   * configuration looks silent for ever, whatever is sent.
   */
  lemma {:induction false} OnlyPlainSourcesBeat(expected: seq<string>, s: string)
    requires s in expected
    ensures Plain(s) ==> SourceKey(expected, Some(s)) == s
    ensures !Plain(s) ==> forall source :: SourceKey(expected, source) != s
  {
    forall source
      ensures Plain(SourceKey(expected, source))
    {
      KeyIsPlain(expected, source);
    }
  }

  // ---- The cache ----

  datatype Record = Record(ts: int, ok: bool, failSince: Option<int>)
  datatype Held = Held(record: Record, deadline: int)
  type Tier = map<string, Held>
  datatype Tiers = Tiers(redis: Tier, memory: Tier)

  function Lookup(tier: Tier, key: string, now: int): Option<Record> {
    if key in tier && now <= tier[key].deadline then Some(tier[key].record) else None
  }

  /** `RedisCache.get`: Redis when it answers, otherwise this process's own memory. */
  function Read(t: Tiers, key: string, now: int, up: bool): Option<Record> {
    Lookup(if up then t.redis else t.memory, key, now)
  }

  /** `RedisCache.set`, into whichever tier answers. */
  function Write(t: Tiers, key: string, r: Record, now: int, up: bool): Tiers {
    if up then t.(redis := t.redis[key := Held(r, now + HEARTBEAT_TTL)])
    else t.(memory := t.memory[key := Held(r, now + HEARTBEAT_TTL)])
  }

  function Filed(existing: Option<Record>, ok: bool, now: int, stamp: int): Record {
    Record(stamp, ok,
           if ok then None
           else if existing.Some? && existing.value.failSince.Some? then existing.value.failSince
           else Some(now))
  }

  /** One heartbeat: `now` is when it is read and judged, `stamp` when it is written. */
  datatype Event =
    | Beat(source: string, ok: bool, now: int, stamp: int, readUp: bool, writeUp: bool)
    | Evicted(key: string, fromRedis: bool)

  function Step(t: Tiers, e: Event): Tiers {
    match e
    case Beat(s, ok, now, stamp, readUp, writeUp) =>
      Write(t, s, Filed(Read(t, s, now, readUp), ok, now, stamp), stamp, writeUp)
    case Evicted(key, fromRedis) =>
      if fromRedis then t.(redis := t.redis - {key}) else t.(memory := t.memory - {key})
  }

  datatype Response = InvalidToken | StatusOk

  class Cache {
    var redis: Tier
    var memory: Tier

    constructor ()
      ensures redis == map[] && memory == map[]
    {
      redis, memory := map[], map[];
    }

    ghost function View(): Tiers
      reads this
    {
      Tiers(redis, memory)
    }

    method Get(key: string, now: int, up: bool) returns (r: Option<Record>)
      modifies `memory
      ensures r == Read(old(View()), key, now, up)
      ensures memory == if up || r.Some? then old(memory) else old(memory) - {key}
    {
      if up {
        return Lookup(redis, key, now);
      }
      if key !in memory {
        return None;
      }
      var held := memory[key];
      if now > held.deadline {
        memory := memory - {key};
        return None;
      }
      return Some(held.record);
    }

    method Set(key: string, r: Record, now: int, up: bool)
      modifies this
      ensures View() == Write(old(View()), key, r, now, up)
    {
      var held := Held(r, now + HEARTBEAT_TTL);
      if up {
        redis := redis[key := held];
      } else {
        memory := memory[key := held];
      }
    }

    /**
     * Filing a beat. Reading through a failed Redis may drop an expired record from memory; apart from
     * that, the cache changes as the beat says.
     */
    method FileBeat(key: string, ok: bool, now: int, stamp: int, readUp: bool, writeUp: bool)
      modifies this
      ensures var after := Step(old(View()), Beat(key, ok, now, stamp, readUp, writeUp));
        && redis == after.redis
        && (memory == after.memory || (Read(old(View()), key, now, false).None? && memory == after.memory - {key}))
    {
      var failSince: Option<int> := None;
      if !ok {
        var existing := Get(key, now, readUp);
        if existing.Some? && existing.value.failSince.Some? {
          failSince := existing.value.failSince;
        } else {
          failSince := Some(now);
        }
      }
      Set(key, Record(stamp, ok, failSince), stamp, writeUp);
    }

    /** `monitor_heartbeat`: the request files one beat of its source, if it carries the token. */
    method MonitorHeartbeat(authorised: bool, expected: seq<string>, source: Option<string>, okParam: Option<string>,
                            now: int, stamp: int, readUp: bool, writeUp: bool) returns (r: Response)
      modifies this
      ensures r == if authorised then StatusOk else InvalidToken
      ensures !authorised ==> View() == old(View())
      ensures authorised ==>
        var key := SourceKey(expected, source);
        var after := Step(old(View()), Beat(key, okParam != Some("0"), now, stamp, readUp, writeUp));
        && redis == after.redis
        && (memory == after.memory || (Read(old(View()), key, now, false).None? && memory == after.memory - {key}))
    {
      if !authorised {
        return InvalidToken;
      }
      var ok := okParam.GetOr("1") != "0";
      assert ok == (okParam != Some("0"));
      FileBeat(SourceKey(expected, source), ok, now, stamp, readUp, writeUp);
      return StatusOk;
    }
  }

  // ---- Every run ----

  const EMPTY := Tiers(map[], map[])

  function Run(events: seq<Event>): Tiers {
    if events == [] then EMPTY else Step(Run(events[..|events| - 1]), events[|events| - 1])
  }

  predicate BeatOf(e: Event, s: string) {
    e.Beat? && e.source == s
  }

  /** The last beat of a source. */
  function LastBeat(events: seq<Event>, s: string): (k: Option<nat>)
    ensures k.Some? ==> k.value < |events| && BeatOf(events[k.value], s)
    ensures k.Some? ==> forall j :: k.value < j < |events| ==> !BeatOf(events[j], s)
    ensures k.None? ==> forall j :: 0 <= j < |events| ==> !BeatOf(events[j], s)
  {
    if events == [] then None
    else if BeatOf(events[|events| - 1], s) then Some(|events| - 1)
    else LastBeat(events[..|events| - 1], s)
  }

  /** Beat `k` opens the source's trailing run of failures. */
  ghost predicate OpensStreak(events: seq<Event>, s: string, k: nat) {
    && k < |events| && BeatOf(events[k], s)
    && (forall j :: k <= j < |events| && BeatOf(events[j], s) ==> !events[j].ok)
    && var before := LastBeat(events[..k], s); before.None? || events[before.value].ok
  }

  lemma StreakGrows(events: seq<Event>, s: string, k: nat)
    requires events != [] && OpensStreak(events[..|events| - 1], s, k)
    requires var e := events[|events| - 1]; BeatOf(e, s) ==> !e.ok
    ensures OpensStreak(events, s, k)
  {
    assert events[..|events| - 1][..k] == events[..k];
  }

  predicate Failing(events: seq<Event>, s: string) {
    var k := LastBeat(events, s); k.Some? && !events[k.value].ok
  }

  /** The beat that opened a source's current run of failures. */
  ghost function Opening(events: seq<Event>, s: string): (k: nat)
    requires Failing(events, s)
    ensures OpensStreak(events, s, k)
  {
    var front := events[..|events| - 1];
    if Failing(front, s) then
      var k := Opening(front, s);
      StreakGrows(events, s, k);
      k
    else |events| - 1
  }

  lemma {:induction false} OkBefore(events: seq<Event>, s: string, k: nat, m: nat)
    requires k < m && OpensStreak(events, s, m) && BeatOf(events[k], s)
    ensures exists j :: k <= j < m && BeatOf(events[j], s) && events[j].ok
  {
    assert BeatOf(events[..m][k], s);
    assert events[LastBeat(events[..m], s).value].ok;
  }

  /** There is only one such beat. */
  lemma {:induction false} OpeningUnique(events: seq<Event>, s: string, k: nat, m: nat)
    requires OpensStreak(events, s, k) && OpensStreak(events, s, m)
    ensures k == m
  {
    if k < m {
      OkBefore(events, s, k, m);
    } else if m < k {
      OkBefore(events, s, m, k);
    }
  }

  /** The tier that is read: Redis while it is up, this process's own memory otherwise. */
  function TierOf(t: Tiers, up: bool): Tier {
    if up then t.redis else t.memory
  }

  /** A beat is carried in a tier: it goes there, and a failure that follows a failure finds its record there. */
  ghost predicate Carried(events: seq<Event>, s: string, up: bool, j: nat)
    requires j < |events| && BeatOf(events[j], s)
  {
    var before := LastBeat(events[..j], s);
    && events[j].writeUp == up
    && (!events[j].ok && Failing(events[..j], s) ==>
          events[j].readUp == up && events[j].now <= events[before.value].stamp + HEARTBEAT_TTL)
  }

  /** An event does a source's record no harm: its beats are carried, and the tier does not drop the record. */
  ghost predicate Harmless(events: seq<Event>, s: string, up: bool, j: nat)
    requires j < |events|
  {
    && (BeatOf(events[j], s) ==> Carried(events, s, up, j))
    && (events[j] == Evicted(s, up) ==> LastBeat(events[..j], s).None?)
  }

  /** In a tier, a source's record carries its last beat and the time at which its run of failures opened. */
  ghost predicate Summarised(events: seq<Event>, s: string, up: bool) {
    var tier := TierOf(Run(events), up);
    match LastBeat(events, s)
    case None => s !in tier
    case Some(k) =>
      && s in tier && tier[s].deadline == events[k].stamp + HEARTBEAT_TTL
      && var r := tier[s].record;
      && r.ts == events[k].stamp && r.ok == events[k].ok
      && (r.ok ==> r.failSince == None)
      && (!r.ok ==> r.failSince == Some(events[Opening(events, s)].now))
  }

  lemma {:induction false} BeatKeepsSummary(events: seq<Event>, s: string, up: bool)
    requires events != [] && BeatOf(events[|events| - 1], s)
    requires Summarised(events[..|events| - 1], s, up) && Carried(events, s, up, |events| - 1)
    requires !Failing(events[..|events| - 1], s) ==> s !in TierOf(Run(events[..|events| - 1]), !up)
    ensures Summarised(events, s, up)
  {
  }

  lemma {:induction false} OtherKeepsSummary(events: seq<Event>, s: string, up: bool)
    requires events != [] && !BeatOf(events[|events| - 1], s)
    requires Summarised(events[..|events| - 1], s, up) && Harmless(events, s, up, |events| - 1)
    ensures Summarised(events, s, up)
  {
  }

  lemma HarmlessPrefix(events: seq<Event>, s: string, up: bool, n: nat, j: nat)
    requires j < n <= |events|
    ensures Harmless(events[..n], s, up, j) <==> Harmless(events, s, up, j)
  {
    assert events[..n][..j] == events[..j];
  }

  /** A tier that none of a source's beats goes to never holds its record. */
  lemma {:induction false} UnusedTier(events: seq<Event>, s: string, up: bool)
    requires forall j :: 0 <= j < |events| && BeatOf(events[j], s) ==> events[j].writeUp == up
    ensures s !in TierOf(Run(events), !up)
  {
    if events != [] {
      UnusedTier(events[..|events| - 1], s, up);
    }
  }

  /**
   * The summary equals the history, in either tier: while every event is harmless to a source, its record
   * carries its last beat, and `failSince` is the time of the beat that opened its current run of failures.
   */
  lemma {:induction false} SummaryEqualsHistory(events: seq<Event>, s: string, up: bool)
    requires forall j :: 0 <= j < |events| ==> Harmless(events, s, up, j)
    ensures Summarised(events, s, up)
  {
    if events != [] {
      var n := |events| - 1;
      forall j | 0 <= j < n
        ensures Harmless(events[..n], s, up, j)
      {
        HarmlessPrefix(events, s, up, n, j);
      }
      SummaryEqualsHistory(events[..n], s, up);
      assert Harmless(events, s, up, n);
      if BeatOf(events[n], s) {
        forall j | 0 <= j < n && BeatOf(events[..n][j], s)
          ensures events[..n][j].writeUp == up
        {
          assert Harmless(events, s, up, j);
        }
        UnusedTier(events[..n], s, up);
        BeatKeepsSummary(events, s, up);
      } else {
        OtherKeepsSummary(events, s, up);
      }
    }
  }

  // ---- Exactly when the summary goes wrong ----

  /** Time passes between the beats of a source. */
  ghost predicate Increasing(events: seq<Event>, s: string) {
    forall i, j :: 0 <= i < j < |events| && BeatOf(events[i], s) && BeatOf(events[j], s) ==>
      events[i].now < events[j].now && events[i].stamp < events[j].stamp
  }

  /** A beat that goes to the other tier leaves this one with an older record, or with none. */
  lemma {:induction false} BeatElsewhereBreaks(events: seq<Event>, s: string, up: bool)
    requires events != [] && BeatOf(events[|events| - 1], s) && Increasing(events, s)
    requires Summarised(events[..|events| - 1], s, up) && events[|events| - 1].writeUp != up
    ensures !Summarised(events, s, up)
  {
    var n := |events| - 1;
    var before := LastBeat(events[..n], s);
    if before.Some? {
      assert BeatOf(events[before.value], s);
    }
  }

  /** A failure that does not find its record restarts the clock, though the run of failures goes on. */
  lemma {:induction false} LostRecordBreaks(events: seq<Event>, s: string, up: bool)
    requires events != [] && BeatOf(events[|events| - 1], s) && Increasing(events, s)
    requires Summarised(events[..|events| - 1], s, up) && events[|events| - 1].writeUp == up
    requires !Carried(events, s, up, |events| - 1) && s !in TierOf(Run(events[..|events| - 1]), !up)
    ensures !Summarised(events, s, up)
  {
    var n := |events| - 1;
    var k := Opening(events[..n], s);
    StreakGrows(events, s, k);
    OpeningUnique(events, s, k, Opening(events, s));
    assert events[k].now < events[n].now;
  }

  lemma {:induction false} EvictionBreaksSummary(events: seq<Event>, s: string, up: bool)
    requires events != [] && events[|events| - 1] == Evicted(s, up)
    requires LastBeat(events[..|events| - 1], s).Some?
    ensures !Summarised(events, s, up)
  {
  }

  ghost predicate AllHarmless(events: seq<Event>, s: string, up: bool) {
    forall j :: 0 <= j < |events| ==> Harmless(events, s, up, j)
  }

  /** The first harmful event makes the record wrong. */
  lemma {:induction false} HarmBreaksSummary(events: seq<Event>, s: string, up: bool)
    requires events != [] && Increasing(events, s) && Summarised(events[..|events| - 1], s, up)
    requires AllHarmless(events[..|events| - 1], s, up) && !Harmless(events, s, up, |events| - 1)
    ensures !Summarised(events, s, up)
  {
    var n := |events| - 1;
    forall j | 0 <= j < n && BeatOf(events[..n][j], s)
      ensures events[..n][j].writeUp == up
    {
      assert Harmless(events[..n], s, up, j);
    }
    UnusedTier(events[..n], s, up);
    if !BeatOf(events[n], s) {
      EvictionBreaksSummary(events, s, up);
    } else if events[n].writeUp != up {
      BeatElsewhereBreaks(events, s, up);
    } else {
      LostRecordBreaks(events, s, up);
    }
  }

  /** The record is right after every event. */
  ghost predicate AlwaysSummarised(events: seq<Event>, s: string, up: bool) {
    forall n :: 0 <= n <= |events| ==> Summarised(events[..n], s, up)
  }

  /**
   * With time passing between its beats, a source's record in a tier is right after every event exactly
   * when every event is harmless to it there. The tier is either: Redis for who reads Redis, a process's
   * memory for who reads that.
   */
  lemma {:induction false} SummaryAlwaysIff(events: seq<Event>, s: string, up: bool)
    requires Increasing(events, s)
    ensures AlwaysSummarised(events, s, up) <==> AllHarmless(events, s, up)
  {
    if events == [] {
      assert Summarised([], s, up);
      assert events[..0] == [];
    } else {
      var n := |events| - 1;
      var front := events[..n];
      SummaryAlwaysIff(front, s, up);
      HarmlessSoFar(events, s, up);
      SummarisedSoFar(events, s, up);
      if AllHarmless(front, s, up) {
        if Harmless(events, s, up, n) {
          SummaryEqualsHistory(events, s, up);
        } else {
          assert front[..n] == front;
          HarmBreaksSummary(events, s, up);
        }
      }
    }
  }

  lemma HarmlessSoFar(events: seq<Event>, s: string, up: bool)
    requires events != []
    ensures var n := |events| - 1;
      AllHarmless(events, s, up) <==> AllHarmless(events[..n], s, up) && Harmless(events, s, up, n)
  {
    var n := |events| - 1;
    forall j | 0 <= j < n
      ensures Harmless(events[..n], s, up, j) <==> Harmless(events, s, up, j)
    {
      HarmlessPrefix(events, s, up, n, j);
    }
  }

  lemma SummarisedSoFar(events: seq<Event>, s: string, up: bool)
    requires events != []
    ensures var n := |events| - 1;
      AlwaysSummarised(events, s, up) <==> AlwaysSummarised(events[..n], s, up) && Summarised(events, s, up)
  {
    var n := |events| - 1;
    assert events[..|events|] == events;
    forall m | 0 <= m <= n
      ensures Summarised(events[..n][..m], s, up) <==> Summarised(events[..m], s, up)
    {
      assert events[..n][..m] == events[..m];
    }
  }

  // ---- What holds even while Redis comes and goes ----

  ghost predicate Failed(events: seq<Event>, s: string, at: int) {
    exists j :: 0 <= j < |events| && BeatOf(events[j], s) && !events[j].ok && events[j].now == at
  }

  ghost predicate Honest(events: seq<Event>, tier: Tier) {
    forall s :: s in tier ==>
      var r := tier[s].record;
      && (r.ok ==> r.failSince == None)
      && (!r.ok ==> r.failSince.Some? && Failed(events, s, r.failSince.value))
      && exists j :: 0 <= j < |events| && BeatOf(events[j], s) && events[j].ok == r.ok && events[j].stamp == r.ts
  }

  lemma {:induction false} HonestLonger(events: seq<Event>, tier: Tier)
    requires events != [] && Honest(events[..|events| - 1], tier)
    ensures Honest(events, tier)
  {
    var front := events[..|events| - 1];
    forall s | s in tier
      ensures var r := tier[s].record;
        && (r.ok ==> r.failSince == None)
        && (!r.ok ==> r.failSince.Some? && Failed(events, s, r.failSince.value))
        && exists j :: 0 <= j < |events| && BeatOf(events[j], s) && events[j].ok == r.ok && events[j].stamp == r.ts
    {
      var r := tier[s].record;
      var j :| 0 <= j < |front| && BeatOf(front[j], s) && front[j].ok == r.ok && front[j].stamp == r.ts;
      assert events[j] == front[j];
      if !r.ok {
        var m :| 0 <= m < |front| && BeatOf(front[m], s) && !front[m].ok && front[m].now == r.failSince.value;
        assert events[m] == front[m];
      }
    }
  }

  /**
   * Over every run, whatever the cache does: no record is invented, an ok record carries no failure
   * time, and a failure time is that of a failing beat of the same source.
   */
  lemma {:induction false} RecordsAreHonest(events: seq<Event>)
    ensures Honest(events, Run(events).redis) && Honest(events, Run(events).memory)
  {
    if events != [] {
      var front, e := events[..|events| - 1], events[|events| - 1];
      RecordsAreHonest(front);
      HonestLonger(events, Run(front).redis);
      HonestLonger(events, Run(front).memory);
      if e.Beat? {
        assert BeatOf(events[|events| - 1], e.source);
      }
    }
  }

  /** Stored keys never leave the sources that requests are filed under. */
  lemma {:induction false} KeysAreBounded(events: seq<Event>, expected: seq<string>)
    requires forall j :: 0 <= j < |events| && events[j].Beat? ==>
      exists source :: events[j].source == SourceKey(expected, source)
    ensures var t := Run(events);
      forall s :: s in t.redis || s in t.memory ==> s in expected || s == UNKNOWN
  {
    if events != [] {
      KeysAreBounded(events[..|events| - 1], expected);
    }
  }

  /**
   * The first beat here is harmful, and the harm shows later: a failure filed in memory while Redis is away
   * comes back after an ok beat, when Redis is away again, and the outage seems to have begun before that
   * ok beat.
   */
  lemma OldOutageResurfaces()
    ensures var events := [Beat("x", false, 0, 0, true, false), Beat("x", true, 60, 60, true, true),
                           Beat("x", false, 120, 120, false, true)];
      && "x" in Run(events).redis && Run(events).redis["x"].record == Record(120, false, Some(0))
      && OpensStreak(events, "x", 2) && events[1].ok
  {
    var a, b, c := Beat("x", false, 0, 0, true, false), Beat("x", true, 60, 60, true, true),
                   Beat("x", false, 120, 120, false, true);
    assert [a, b, c][..2] == [a, b] && [a, b][..1] == [a] && [a][..0] == [];
    assert Run([a]) == Step(EMPTY, a);
    assert Run([a, b]) == Step(Run([a]), b);
    assert Run([a, b, c]) == Step(Run([a, b]), c);
  }
}
