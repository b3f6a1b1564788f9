/**
 * Every run of the quote endpoints. Recording is one step; executing is two, because the handler awaits
 * the swap engine between its checks and its answer, and other requests run meanwhile.
 */
module QuoteRuns {
  import opened Options
  import opened Text
  import opened QuoteCache

  datatype Event =
    | QuoteAsked(id: Id, db: seq<Wallet>, session: Session, chainType: string, now: int)
    | BuildAsked(id: Id, session: Session, chainType: string, now: int)
    | ExecuteAsked(req: nat, id: Id, db: seq<Wallet>, session: Session, now: int)
    | ExecuteDone(req: nat, ok: bool, now: int)
    | RecordAsked(id: Id, session: Session, txHash: string, now: int, stored: bool)

  /** What succeeded; an execution points at the admission it started from. */
  datatype Fact =
    | Admission(req: nat, id: Id, session: Session, wallet: nat, address: string, at: int)
    | Executed(admission: nat, at: int)
    | Recorded(id: Id, session: Session, at: int)

  /** The cache, every quote ever created, the executions being awaited, and what succeeded so far. */
  datatype World = World(cache: Cache, created: map<Id, Entry>, awaited: map<nat, nat>, log: seq<Fact>)

  const START := World(map[], map[], map[], [])

  function Step(w: World, e: Event): World {
    match e
    case QuoteAsked(id, db, session, chainType, now) =>
      var entry := NewEntry(db, session, chainType, now);
      w.(cache := Live(w.cache, now)[id := entry], created := w.created[id := entry])
    case BuildAsked(id, session, chainType, now) =>
      var entry := Entry(now, session.user, chainType, None);
      w.(cache := Live(w.cache, now)[id := entry], created := w.created[id := entry])
    case ExecuteAsked(req, id, db, session, now) =>
      var next := w.(cache := AfterAdmit(w.cache, session, now));
      match Admit(w.cache, db, session, id, now) {
        case Refused(_) => next
        case Admitted(wallet, address) =>
          next.(awaited := w.awaited[req := |w.log|],
                log := w.log + [Admission(req, id, session, wallet, address, now)])
      }
    case ExecuteDone(req, ok, now) =>
      if req !in w.awaited then w
      else
        w.(awaited := w.awaited - {req},
           log := if ok then w.log + [Executed(w.awaited[req], now)] else w.log)
    case RecordAsked(id, session, txHash, now, stored) =>
      var next := w.(cache := AfterRecord(w.cache, session, id, txHash, now, stored));
      if Recordable(w.cache, session, id, txHash, now, stored).Some? then next
      else next.(log := w.log + [Recorded(id, session, now)])
  }

  function Run(events: seq<Event>): World {
    if events == [] then START else Step(Run(events[..|events| - 1]), events[|events| - 1])
  }

  predicate Creates(e: Event) {
    e.QuoteAsked? || e.BuildAsked?
  }

  /** Quote ids are fresh: `uuid4()` never repeats one. */
  predicate Legal(events: seq<Event>) {
    events != [] ==>
      && Legal(events[..|events| - 1])
      && (Creates(events[|events| - 1]) ==> events[|events| - 1].id !in Run(events[..|events| - 1]).created)
  }

  // ---- What every run keeps ----

  /** The wallet and address are those bound when the quote was created, up to the case of an EVM address. */
  predicate BoundTo(e: Entry, wallet: nat, address: string) {
    && e.wallet.Some? && e.wallet.value.0 == wallet
    && SameAddress(e.chainType, e.wallet.value.1, address)
  }

  /**
   * An admission is within the quote's lifetime, by its user and on its wallet; a record is within the
   * lifetime and by its user, or by anyone signed in if the quote was asked for without a session.
   */
  predicate FactHolds(created: map<Id, Entry>, f: Fact) {
    match f
    case Admission(_, id, session, wallet, address, at) =>
      && id in created && at - created[id].createdAt <= QUOTE_TTL_SECONDS
      && Trusted(session) && created[id].user == session.user && BoundTo(created[id], wallet, address)
    case Recorded(id, session, at) =>
      && id in created && at - created[id].createdAt <= QUOTE_TTL_SECONDS
      && Trusted(session) && created[id].user in {0, session.user}
    case Executed(_, _) => true
  }

  predicate UsesQuote(f: Fact, id: Id) {
    !f.Executed? && f.id == id
  }

  ghost predicate Inv(w: World) {
    && (forall id :: id in w.cache ==> id in w.created && w.created[id] == w.cache[id])
    && (forall id :: id in w.created && w.created[id].wallet.Some? ==> w.created[id].user != 0)
    && (forall k :: 0 <= k < |w.log| ==> FactHolds(w.created, w.log[k]))
    && (forall k :: 0 <= k < |w.log| && w.log[k].Recorded? ==> w.log[k].id !in w.cache)
    && (forall k, m :: 0 <= k < m < |w.log| && w.log[k].Recorded? ==> !UsesQuote(w.log[m], w.log[k].id))
    && (forall k :: 0 <= k < |w.log| && w.log[k].Executed? ==>
          w.log[k].admission < k && w.log[w.log[k].admission].Admission?)
    && (forall req :: req in w.awaited ==> w.awaited[req] < |w.log| && w.log[w.awaited[req]].Admission?)
  }

  lemma AdmittedIsBound(cache: Cache, db: seq<Wallet>, session: Session, id: Id, now: int)
    requires Admit(cache, db, session, id, now).Admitted?
    ensures var r := Admit(cache, db, session, id, now);
      && id in cache && now - cache[id].createdAt <= QUOTE_TTL_SECONDS && Trusted(session)
      && cache[id].user in {0, session.user} && BoundTo(cache[id], r.wallet, r.address)
  {
    var e := cache[id];
    LowerEqualIff(e.wallet.value.1, Admit(cache, db, session, id, now).address);
  }

  lemma ShrinkKeeps(w: World, cache: Cache)
    requires Inv(w) && forall id :: id in cache ==> id in w.cache && w.cache[id] == cache[id]
    ensures Inv(w.(cache := cache))
  {
  }

  lemma LogKeeps(w: World, f: Fact)
    requires Inv(w) && FactHolds(w.created, f)
    requires forall k :: 0 <= k < |w.log| && w.log[k].Recorded? ==> !UsesQuote(f, w.log[k].id)
    requires f.Recorded? ==> f.id !in w.cache
    requires f.Executed? ==> f.admission < |w.log| && w.log[f.admission].Admission?
    ensures Inv(w.(log := w.log + [f]))
  {
  }

  lemma AwaitKeeps(w: World, req: nat, k: nat)
    requires Inv(w) && k < |w.log| && w.log[k].Admission?
    ensures Inv(w.(awaited := w.awaited[req := k]))
  {
  }

  lemma CreatedKeeps(w: World, id: Id, entry: Entry, now: int)
    requires Inv(w) && id !in w.created && (entry.wallet.Some? ==> entry.user != 0)
    ensures Inv(w.(cache := Live(w.cache, now)[id := entry], created := w.created[id := entry]))
  {
    forall k | 0 <= k < |w.log| ensures FactHolds(w.created[id := entry], w.log[k]) {
      assert FactHolds(w.created, w.log[k]);
    }
  }

  lemma AdmissionKeeps(w: World, req: nat, f: Fact)
    requires Inv(w) && f.Admission? && FactHolds(w.created, f)
    requires forall k :: 0 <= k < |w.log| && w.log[k].Recorded? ==> w.log[k].id != f.id
    ensures Inv(w.(awaited := w.awaited[req := |w.log|], log := w.log + [f]))
  {
    LogKeeps(w, f);
    AwaitKeeps(w.(log := w.log + [f]), req, |w.log|);
  }

  lemma ExecuteAskedKeeps(w: World, e: Event)
    requires Inv(w) && e.ExecuteAsked?
    ensures Inv(Step(w, e))
  {
    var shrunk := w.(cache := AfterAdmit(w.cache, e.session, e.now));
    var r := Admit(w.cache, e.db, e.session, e.id, e.now);
    ShrinkKeeps(w, shrunk.cache);
    if r.Admitted? {
      AdmittedIsBound(w.cache, e.db, e.session, e.id, e.now);
      AdmissionKeeps(shrunk, e.req, Admission(e.req, e.id, e.session, r.wallet, r.address, e.now));
    }
  }

  lemma ExecuteDoneKeeps(w: World, e: Event)
    requires Inv(w) && e.ExecuteDone?
    ensures Inv(Step(w, e))
  {
    if e.req in w.awaited && e.ok {
      LogKeeps(w.(awaited := w.awaited - {e.req}), Executed(w.awaited[e.req], e.now));
    }
  }

  lemma RecordAskedKeeps(w: World, e: Event)
    requires Inv(w) && e.RecordAsked?
    ensures Inv(Step(w, e))
  {
    var cache := AfterRecord(w.cache, e.session, e.id, e.txHash, e.now, e.stored);
    ShrinkKeeps(w, cache);
    if Recordable(w.cache, e.session, e.id, e.txHash, e.now, e.stored).None? {
      assert FactHolds(w.created, Recorded(e.id, e.session, e.now));
      LogKeeps(w.(cache := cache), Recorded(e.id, e.session, e.now));
    }
  }

  lemma StepKeeps(w: World, e: Event)
    requires Inv(w) && (Creates(e) ==> e.id !in w.created)
    ensures Inv(Step(w, e))
  {
    match e
    case QuoteAsked(id, db, session, chainType, now) => CreatedKeeps(w, id, NewEntry(db, session, chainType, now), now);
    case BuildAsked(id, session, chainType, now) => CreatedKeeps(w, id, Entry(now, session.user, chainType, None), now);
    case ExecuteAsked(_, _, _, _, _) => ExecuteAskedKeeps(w, e);
    case ExecuteDone(_, _, _) => ExecuteDoneKeeps(w, e);
    case RecordAsked(_, _, _, _, _) => RecordAskedKeeps(w, e);
  }

  lemma {:induction false} RunKeeps(events: seq<Event>)
    requires Legal(events)
    ensures Inv(Run(events))
  {
    if events != [] {
      RunKeeps(events[..|events| - 1]);
      StepKeeps(Run(events[..|events| - 1]), events[|events| - 1]);
    }
  }

  /** In every run, a quote is recorded at most once, and once recorded it is neither admitted nor recorded again. */
  lemma RecordedOnceThenSpent(events: seq<Event>, k: nat, m: nat)
    requires Legal(events)
    requires k < m < |Run(events).log| && Run(events).log[k].Recorded?
    ensures !UsesQuote(Run(events).log[m], Run(events).log[k].id)
  {
    RunKeeps(events);
  }

  /**
   * In every run, each admission is the quoting user's, on the quoted wallet, and each admission and each
   * record is within 45 seconds of the quote. A record is the quoting user's unless there was none.
   */
  lemma SuccessIsBound(events: seq<Event>, k: nat)
    requires Legal(events) && k < |Run(events).log|
    ensures FactHolds(Run(events).created, Run(events).log[k])
    ensures var f := Run(events).log[k];
      f.Executed? ==> f.admission < k && Run(events).log[f.admission].Admission?
  {
    RunKeeps(events);
  }

  // ---- Executions that come out late ----

  /** An execution of a quote can come out after its recording only if it was admitted before. */
  lemma LateExecutionWasAdmittedBefore(events: seq<Event>, k: nat, m: nat)
    requires Legal(events) && k < m < |Run(events).log|
    requires Run(events).log[k].Recorded? && Run(events).log[m].Executed?
    requires Run(events).log[m].admission < m && UsesQuote(Run(events).log[Run(events).log[m].admission],
                                                           Run(events).log[k].id)
    ensures Run(events).log[m].admission < k
  {
    RunKeeps(events);
    NoLaterUse(Run(events), k, Run(events).log[m].admission);
  }

  lemma NoLaterUse(w: World, k: nat, i: nat)
    requires Inv(w) && k < |w.log| && i < |w.log| && w.log[k].Recorded? && w.log[i].Admission?
    requires w.log[i].id == w.log[k].id
    ensures i < k
  {
    assert i > k ==> !UsesQuote(w.log[i], w.log[k].id);
  }

  /** The admission at place `i` of the log is still waiting for the swap engine. */
  ghost predicate Awaited(w: World, i: nat) {
    exists req :: req in w.awaited && w.awaited[req] == i
  }

  /** Some execution of the quote is still waiting. */
  ghost predicate QuoteAwaited(w: World, id: Id) {
    exists i: nat :: i < |w.log| && w.log[i].Admission? && w.log[i].id == id && Awaited(w, i)
  }

  /** Going on from `a` by `b` brings out an execution of the admission at place `i`, at a given time. */
  ghost predicate ComesOut(a: seq<Event>, b: seq<Event>, i: nat, at: int) {
    exists m :: |Run(a).log| <= m < |Run(a + b).log| && Run(a + b).log[m] == Executed(i, at)
  }

  /** One step logs at most one thing; an execution is of an awaited admission, and the newly awaited is the newest. */
  lemma StepLogs(w: World, e: Event)
    ensures var next := Step(w, e);
      && w.log <= next.log && |next.log| <= |w.log| + 1
      && (|next.log| > |w.log| && next.log[|w.log|].Executed? ==> Awaited(w, next.log[|w.log|].admission))
      && (forall req :: req in next.awaited ==> next.awaited[req] == |w.log| || Awaited(w, next.awaited[req]))
  {
  }

  /** Of what `w` has logged everything stays, and only what it awaits has come out since. */
  ghost predicate OnlyAwaited(w: World, end: World) {
    && w.log <= end.log
    && (forall req :: req in end.awaited && end.awaited[req] < |w.log| ==> Awaited(w, end.awaited[req]))
    && (forall m :: |w.log| <= m < |end.log| && end.log[m].Executed? && end.log[m].admission < |w.log| ==>
          Awaited(w, end.log[m].admission))
  }

  lemma OnlyAwaitedNext(w: World, mid: World, e: Event)
    requires OnlyAwaited(w, mid)
    ensures OnlyAwaited(w, Step(mid, e))
  {
    StepLogs(mid, e);
    var next := Step(mid, e);
    forall req | req in next.awaited && next.awaited[req] < |w.log|
      ensures Awaited(w, next.awaited[req])
    {
      assert Awaited(mid, next.awaited[req]);
    }
  }

  lemma {:induction false} OnlyAwaitedSince(a: seq<Event>, events: seq<Event>)
    requires a <= events && Legal(events)
    ensures OnlyAwaited(Run(a), Run(events))
    decreases |events|
  {
    if |events| == |a| {
      assert a == events;
    } else {
      var n := |events| - 1;
      OnlyAwaitedSince(a, events[..n]);
      OnlyAwaitedNext(Run(a), Run(events[..n]), events[n]);
    }
  }

  /** Whatever happens next, what is logged stays, and only awaited admissions of `a` come out. */
  lemma OnlyAwaitedComeOut(a: seq<Event>, b: seq<Event>)
    requires Legal(a + b)
    ensures OnlyAwaited(Run(a), Run(a + b))
  {
    OnlyAwaitedSince(a, a + b);
  }

  lemma AwaitedCanComeOut(a: seq<Event>, i: nat, at: int) returns (b: seq<Event>)
    requires Legal(a) && Awaited(Run(a), i)
    ensures Legal(a + b) && ComesOut(a, b, i, at)
  {
    var req :| req in Run(a).awaited && Run(a).awaited[req] == i;
    b := [ExecuteDone(req, true, at)];
    assert (a + b)[..|a|] == a;
    assert Run(a + b).log[|Run(a).log|] == Executed(i, at);
  }

  /** An admitted execution can still succeed, at whatever time, exactly while it is awaited. */
  lemma AdmissionComesOutIff(a: seq<Event>, i: nat, at: int)
    requires Legal(a) && i < |Run(a).log|
    ensures Awaited(Run(a), i) <==> exists b :: Legal(a + b) && ComesOut(a, b, i, at)
  {
    if Awaited(Run(a), i) {
      var b := AwaitedCanComeOut(a, i, at);
    }
    if b :| Legal(a + b) && ComesOut(a, b, i, at) {
      OnlyAwaitedComeOut(a, b);
    }
  }

  /** The quote is executed after `a`, from whichever admission. */
  ghost predicate QuoteComesOut(a: seq<Event>, b: seq<Event>, id: Id, at: int) {
    exists i: nat :: i < |Run(a + b).log| && UsesQuote(Run(a + b).log[i], id) && ComesOut(a, b, i, at)
  }

  /**
   * A recorded quote is executed later in some run, at whatever time, exactly when one of its executions is
   * being awaited. The server knows this before it records.
   */
  lemma RecordedQuoteComesOutIff(a: seq<Event>, k: nat, at: int)
    requires Legal(a) && k < |Run(a).log| && Run(a).log[k].Recorded?
    ensures QuoteAwaited(Run(a), Run(a).log[k].id)
      <==> exists b :: Legal(a + b) && QuoteComesOut(a, b, Run(a).log[k].id, at)
  {
    var id := Run(a).log[k].id;
    if QuoteAwaited(Run(a), id) {
      var i: nat :| i < |Run(a).log| && Run(a).log[i].Admission? && Run(a).log[i].id == id && Awaited(Run(a), i);
      var b := AwaitedCanComeOut(a, i, at);
      OnlyAwaitedComeOut(a, b);
      assert UsesQuote(Run(a + b).log[i], id) && ComesOut(a, b, i, at);
    }
    if b :| Legal(a + b) && QuoteComesOut(a, b, id, at) {
      var i: nat :| i < |Run(a + b).log| && UsesQuote(Run(a + b).log[i], id) && ComesOut(a, b, i, at);
      LateAdmissionIsOld(a, b, k, i, at);
    }
  }

  lemma LateAdmissionIsOld(a: seq<Event>, b: seq<Event>, k: nat, i: nat, at: int)
    requires Legal(a + b) && k < |Run(a).log| && Run(a).log[k].Recorded?
    requires i < |Run(a + b).log| && UsesQuote(Run(a + b).log[i], Run(a).log[k].id) && ComesOut(a, b, i, at)
    ensures QuoteAwaited(Run(a), Run(a).log[k].id)
  {
    var n := |Run(a).log|;
    OnlyAwaitedComeOut(a, b);
    RunKeeps(a + b);
    var m :| n <= m < |Run(a + b).log| && Run(a + b).log[m] == Executed(i, at);
    assert Run(a + b).log[k] == Run(a).log[k];
    LateExecutionWasAdmittedBefore(a + b, k, m);
    assert i < n && Run(a + b).log[i] == Run(a).log[i];
    assert Awaited(Run(a), i);
  }

  lemma OneMore(front: seq<Event>, e: Event)
    ensures Run(front + [e]) == Step(Run(front), e)
    ensures Legal(front) && (Creates(e) ==> e.id !in Run(front).created) ==> Legal(front + [e])
  {
    assert (front + [e])[..|front|] == front;
  }

  lemma FourSteps(a: Event, b: Event, c: Event, d: Event)
    requires !Creates(b) && !Creates(c) && !Creates(d)
    ensures Run([a, b, c, d]) == Step(Step(Step(Step(START, a), b), c), d) && Legal([a, b, c, d])
  {
    OneMore([], a);
    OneMore([a], b);
    OneMore([a, b], c);
    OneMore([a, b, c], d);
    assert [] + [a] == [a] && [a] + [b] == [a, b] && [a, b] + [c] == [a, b, c] && [a, b, c] + [d] == [a, b, c, d];
  }

  /** Such a run, with an execution as late as one likes. */
  lemma ExecutionOutlivesRecord(txHash: string, late: int)
    requires ValidHash(txHash)
    ensures var w := Run(LateRun(txHash, late));
      && Legal(LateRun(txHash, late)) && w.created == map["q" := QUOTED]
      && w.log == [Admission(0, "q", OWNER, 1, "a", 1), Recorded("q", OWNER, 2), Executed(0, late)]
  {
    var e := LateRun(txHash, late);
    FourSteps(e[0], e[1], e[2], e[3]);
    LateQuote();
    LateAdmission();
    LateRecord(txHash);
  }

  const OWNER := Session(7, "siwe")
  const WALLET := Wallet(1, 7, true, true, "evm", "a", true)
  const QUOTED := Entry(0, 7, "evm", Some((1, "a")))

  function LateRun(txHash: string, late: int): seq<Event> {
    [QuoteAsked("q", [WALLET], OWNER, "evm", 0), ExecuteAsked(0, "q", [WALLET], OWNER, 1),
     RecordAsked("q", OWNER, txHash, 2, true), ExecuteDone(0, true, late)]
  }

  lemma LateQuote()
    ensures Step(START, QuoteAsked("q", [WALLET], OWNER, "evm", 0))
      == START.(cache := map["q" := QUOTED], created := map["q" := QUOTED])
  {
    assert [WALLET][1..] == [] && WalletForChain([], 7, "evm") == None;
    assert WalletForChain([WALLET], 7, "evm") == Some(WALLET);
    assert Live(map[], 0) == map[];
  }

  lemma LateAdmission()
    ensures var w := START.(cache := map["q" := QUOTED], created := map["q" := QUOTED]);
      Step(w, ExecuteAsked(0, "q", [WALLET], OWNER, 1))
      == w.(awaited := map[0 := 0], log := [Admission(0, "q", OWNER, 1, "a", 1)])
  {
    assert Live(map["q" := QUOTED], 1) == map["q" := QUOTED];
    assert BoundWallet([WALLET], 1, 7, "evm") == Some(WALLET);
  }

  lemma LateRecord(txHash: string)
    requires ValidHash(txHash)
    ensures Recordable(map["q" := QUOTED], OWNER, "q", txHash, 2, true).None?
  {
    assert Live(map["q" := QUOTED], 2) == map["q" := QUOTED];
  }
}
