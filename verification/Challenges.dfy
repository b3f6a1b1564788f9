/** The passkey challenges of api/main.py: issued once, fetched and deleted in one step. */
module Challenges {
  import opened Options
  import opened Base64
  import opened Utf8Bytes

  type Challenge = seq<Byte>

  const PASSKEY_CHALLENGE_TTL := 300

  datatype Flow = Registration | Authentication
  datatype Entry = Entry(flow: Flow, deadline: int)

  type Store = map<Challenge, Entry>

  /** The client data type that the registration endpoint expects; any other is authentication's. */
  const CREATE := "webauthn.create"

  function FlowOf(expectedType: string): Flow {
    if expectedType == CREATE then Registration else Authentication
  }

  /** Parsed client data: its type and its challenge, base64url-encoded, each possibly absent. */
  datatype ClientData = ClientData(typ: Option<string>, challenge: Option<string>)

  datatype Answer = BadClientData | BadType | NoChallenge | BadChallenge | Unavailable | Gone | WrongFlow | Accepted

  /** How the shared store behaves on one request: it answers, or fails before or after deleting. */
  datatype StoreLuck = Answers | FailsBefore | FailsAfter

  /** The challenge that a request asks the store for, when it gets that far. */
  function Asked(data: Option<ClientData>, expectedType: string): Option<Challenge> {
    if data.None? || data.value.typ != Some(expectedType) then None
    else
      var encoded := data.value.challenge.GetOr("");
      if encoded == "" then None
      else
        match UrlDecode(encoded)
        case None => None
        case Some(c) => if Utf8(c) then Some(c) else None
  }

  /** What `get_del` returns: the entry, unless there is none or it has expired. */
  function Fetched(store: Store, c: Challenge, now: int): Option<Entry> {
    if c in store && now <= store[c].deadline then Some(store[c]) else None
  }

  /** The store after a challenge was issued for a flow. */
  function Issued(store: Store, c: Challenge, flow: Flow, now: int): Store {
    store[c := Entry(flow, now + PASSKEY_CHALLENGE_TTL)]
  }

  /** `_verify_passkey_challenge`. */
  function Verdict(store: Store, data: Option<ClientData>, expectedType: string, now: int, luck: StoreLuck): Answer {
    if data.None? then BadClientData
    else if data.value.typ != Some(expectedType) then BadType
    else if data.value.challenge.GetOr("") == "" then NoChallenge
    else
      match Asked(data, expectedType)
      case None => BadChallenge
      case Some(c) =>
        if luck != Answers then Unavailable
        else
          match Fetched(store, c, now)
          case None => Gone
          case Some(e) => if e.flow != FlowOf(expectedType) then WrongFlow else Accepted
  }

  function AfterVerify(store: Store, data: Option<ClientData>, expectedType: string, luck: StoreLuck): Store {
    match Asked(data, expectedType)
    case None => store
    case Some(c) => if luck == FailsBefore then store else store - {c}
  }

  /** The shared store and the handlers that use it. */
  class Passkeys {
    var store: Store

    constructor ()
      ensures store == map[]
    {
      store := map[];
    }

    /** `register/init` and `authenticate/init`. */
    method Issue(c: Challenge, flow: Flow, now: int)
      modifies this
      ensures store == Issued(old(store), c, flow, now)
    {
      store := store[c := Entry(flow, now + PASSKEY_CHALLENGE_TTL)];
    }

    /** `redis_cache.get_del`, one atomic step. */
    method GetDel(c: Challenge, now: int) returns (e: Option<Entry>)
      modifies this
      ensures e == Fetched(old(store), c, now) && store == old(store) - {c}
    {
      if c !in store {
        return None;
      }
      var entry := store[c];
      store := store - {c};
      return if now > entry.deadline then None else Some(entry);
    }

    method VerifyPasskeyChallenge(data: Option<ClientData>, expectedType: string, now: int, luck: StoreLuck)
      returns (answer: Answer)
      modifies this
      ensures answer == Verdict(old(store), data, expectedType, now, luck)
      ensures store == AfterVerify(old(store), data, expectedType, luck)
    {
      if data.None? {
        return BadClientData;
      }
      if data.value.typ != Some(expectedType) {
        return BadType;
      }
      var encoded := data.value.challenge.GetOr("");
      if encoded == "" {
        return NoChallenge;
      }
      var c := UrlDecode(encoded);
      if c.None? || !Utf8(c.value) {
        return BadChallenge;
      }
      if luck == FailsBefore {
        return Unavailable;
      }
      var e := GetDel(c.value, now);
      if luck == FailsAfter {
        return Unavailable;
      }
      if e.None? {
        return Gone;
      }
      return if e.value.flow != FlowOf(expectedType) then WrongFlow else Accepted;
    }
  }

  // ---- Every interleaving ----

  datatype Event =
    | Offered(c: Challenge, flow: Flow, now: int)
    | Evicted(c: Challenge)
    | Completed(data: Option<ClientData>, expectedType: string, now: int, luck: StoreLuck)

  /** A completion request reached the store with this challenge, and how it was answered. */
  datatype Use = Use(c: Challenge, expectedType: string, answer: Answer, at: int)

  datatype World = World(store: Store, issued: map<Challenge, Entry>, uses: seq<Use>)

  const START := World(map[], map[], [])

  function Step(w: World, e: Event): World {
    match e
    case Offered(c, flow, now) =>
      World(Issued(w.store, c, flow, now), Issued(w.issued, c, flow, now), w.uses)
    case Evicted(c) => w.(store := w.store - {c})
    case Completed(data, expectedType, now, luck) =>
      var next := w.(store := AfterVerify(w.store, data, expectedType, luck));
      match Asked(data, expectedType) {
        case None => next
        case Some(c) =>
          if luck == FailsBefore then next
          else next.(uses := w.uses
                 + [Use(c, expectedType, Verdict(w.store, data, expectedType, now, luck), now)])
      }
  }

  function Run(events: seq<Event>): World {
    if events == [] then START else Step(Run(events[..|events| - 1]), events[|events| - 1])
  }

  /** Challenges are fresh: 32 random bytes are never drawn twice, and nobody guessed them before. */
  predicate Legal(events: seq<Event>) {
    events != [] ==>
      var e := events[|events| - 1];
      && Legal(events[..|events| - 1])
      && (e.Offered? ==> e.c !in Run(events[..|events| - 1]).issued && !Used(Run(events[..|events| - 1]).uses, e.c))
  }

  /** Some request has reached the store with the challenge. */
  predicate Used(uses: seq<Use>, c: Challenge) {
    exists k :: 0 <= k < |uses| && uses[k].c == c
  }

  ghost predicate Inv(w: World) {
    && (forall c :: c in w.store ==> c in w.issued && w.issued[c] == w.store[c])
    && (forall k :: 0 <= k < |w.uses| ==> w.uses[k].c !in w.store)
    && (forall k :: 0 <= k < |w.uses| && w.uses[k].answer == Accepted ==>
          && w.uses[k].c in w.issued && w.issued[w.uses[k].c].flow == FlowOf(w.uses[k].expectedType)
          && w.uses[k].at <= w.issued[w.uses[k].c].deadline)
    && (forall k, m :: 0 <= k < m < |w.uses| && w.uses[k].c == w.uses[m].c ==> w.uses[m].answer != Accepted)
  }

  lemma StepKeeps(w: World, e: Event)
    requires Inv(w) && (e.Offered? ==> e.c !in w.issued && !Used(w.uses, e.c))
    ensures Inv(Step(w, e))
  {
  }

  lemma {:induction false} RunKeeps(events: seq<Event>)
    requires Legal(events)
    ensures Inv(Run(events))
  {
    if events != [] {
      RunKeeps(events[..|events| - 1]);
      StepKeeps(Run(events[..|events| - 1]), events[|events| - 1]);
    }
  }

  /**
   * In every interleaving, the first request that reaches the store with a challenge spends it for ever,
   * whatever its flow and whatever the answer: no later request with it is accepted.
   */
  lemma FirstUseSpends(events: seq<Event>, k: nat, m: nat)
    requires Legal(events) && k < m < |Run(events).uses|
    requires Run(events).uses[k].c == Run(events).uses[m].c
    ensures Run(events).uses[m].answer != Accepted
  {
    RunKeeps(events);
  }

  /** A registration ends with a request of type `webauthn.create`, an authentication with one of any other type. */
  predicate IsFor(flow: Flow, expectedType: string) {
    flow.Registration? <==> expectedType == "webauthn.create"
  }

  /** No use is forgotten. */
  lemma {:induction false} UsesAreKept(events: seq<Event>, n: nat)
    requires n <= |events|
    ensures Run(events[..n]).uses <= Run(events).uses
  {
    if n == |events| {
      assert events[..n] == events;
    } else {
      var front := events[..|events| - 1];
      assert front[..n] == events[..n];
      UsesAreKept(front, n);
    }
  }

  /** In every interleaving, an accepted request is of the challenge's own flow and within its lifetime. */
  lemma AcceptedIsIssued(events: seq<Event>, k: nat)
    requires Legal(events) && k < |Run(events).uses| && Run(events).uses[k].answer == Accepted
    ensures var u := Run(events).uses[k]; var issued := Run(events).issued;
      u.c in issued && IsFor(issued[u.c].flow, u.expectedType) && u.at <= issued[u.c].deadline
  {
    RunKeeps(events);
  }

  /**
   * The answers once a challenge has been read: 503 when the store fails, before or after deleting, 401 when
   * it holds no such challenge or a late one, and 400 when that is of the other kind.
   */
  lemma AnswerIff(store: Store, data: Option<ClientData>, expectedType: string, now: int, luck: StoreLuck,
                  c: Challenge)
    requires Asked(data, expectedType) == Some(c)
    ensures var answer := Verdict(store, data, expectedType, now, luck);
      var live := c in store && now <= store[c].deadline;
      && (answer == Unavailable <==> luck == FailsBefore || luck == FailsAfter)
      && (answer == Gone <==> luck == Answers && !live)
      && (answer == WrongFlow <==> luck == Answers && live && !IsFor(store[c].flow, expectedType))
      && (answer == Accepted <==> luck == Answers && live && IsFor(store[c].flow, expectedType))
  {
  }

  // ---- The same, of the requests themselves ----

  /** A completion request that reaches the store with the challenge. */
  predicate Reaches(e: Event, c: Challenge) {
    e.Completed? && e.luck != FailsBefore && Asked(e.data, e.expectedType) == Some(c)
  }

  ghost predicate Accepts(events: seq<Event>, j: nat)
    requires j < |events| && events[j].Completed?
  {
    var e := events[j];
    Verdict(Run(events[..j]).store, e.data, e.expectedType, e.now, e.luck) == Accepted
  }

  lemma {:induction false} ReachedIsUsed(events: seq<Event>, i: nat, c: Challenge)
    requires i < |events| && Reaches(events[i], c)
    ensures Used(Run(events).uses, c)
  {
    var upTo := events[..i + 1];
    assert upTo[..i] == events[..i];
    var uses := Run(upTo).uses;
    assert uses[|uses| - 1].c == c;
    UsesAreKept(events, i + 1);
    assert Run(events).uses[|uses| - 1].c == c;
  }

  lemma {:induction false} LegalPrefix(events: seq<Event>, n: nat)
    requires Legal(events) && n <= |events|
    ensures Legal(events[..n])
  {
    if n == |events| {
      assert events[..n] == events;
    } else {
      var front := events[..|events| - 1];
      LegalPrefix(front, n);
      assert front[..n] == events[..n];
    }
  }

  /** Of two requests that reach the store with one challenge the later is never accepted, in any interleaving. */
  lemma LaterRequestRefused(events: seq<Event>, i: nat, j: nat, c: Challenge)
    requires Legal(events) && i < j < |events| && Reaches(events[i], c)
    requires events[j].Completed? && Asked(events[j].data, events[j].expectedType) == Some(c)
    ensures !Accepts(events, j)
  {
    assert events[..j][i] == events[i];
    ReachedIsUsed(events[..j], i, c);
    LegalPrefix(events, j);
    RunKeeps(events[..j]);
  }

  lemma {:induction false} IssuedWasOffered(events: seq<Event>, c: Challenge) returns (i: nat)
    requires c in Run(events).issued
    ensures i < |events| && events[i].Offered? && events[i].c == c
    ensures Run(events).issued[c] == Entry(events[i].flow, events[i].now + 300)
  {
    var n := |events| - 1;
    if events[n].Offered? && events[n].c == c {
      i := n;
    } else {
      i := IssuedWasOffered(events[..n], c);
    }
  }

  /** An accepted request answers an offer of its own kind, made before it and not more than 300 seconds earlier. */
  lemma AcceptedWasOffered(events: seq<Event>, j: nat) returns (i: nat)
    requires Legal(events) && j < |events| && events[j].Completed? && Accepts(events, j)
    ensures i < j && events[i].Offered? && Asked(events[j].data, events[j].expectedType) == Some(events[i].c)
    ensures IsFor(events[i].flow, events[j].expectedType) && events[j].now <= events[i].now + 300
  {
    LegalPrefix(events, j);
    RunKeeps(events[..j]);
    i := IssuedWasOffered(events[..j], Asked(events[j].data, events[j].expectedType).value);
  }

  /** What the server draws, text of letters, digits and signs below 128, decodes. */
  lemma {:induction false} AsciiIsUtf8(b: seq<Byte>)
    requires forall k :: 0 <= k < |b| ==> b[k] < 0x80
    ensures Utf8(b)
  {
    if b != [] {
      AsciiIsUtf8(b[1..]);
    }
  }

  /**
   * A client that echoes a live challenge to its own flow is accepted, and the challenge spent, exactly when
   * it is text: the encoding loses nothing.
   */
  lemma EchoAccepted(store: Store, c: Challenge, expectedType: string, now: int)
    requires c in store && now <= store[c].deadline && IsFor(store[c].flow, expectedType) && c != []
    ensures var data := Some(ClientData(Some(expectedType), Some(UrlEncode(c))));
      && (Verdict(store, data, expectedType, now, Answers) == Accepted <==> Utf8(c))
      && AfterVerify(store, data, expectedType, Answers) == (if Utf8(c) then store - {c} else store)
  {
    UrlRoundTrip(c);
    UrlEncodeShape(c);
  }

  /**
   * A challenge as the server draws them, echoed to the flow it was issued for, is accepted exactly while
   * 300 seconds have not passed; in either case it is spent, and no other challenge is touched.
   */
  lemma IssuedThenEchoed(store: Store, c: Challenge, flow: Flow, expectedType: string, issued: int, now: int)
    requires c != [] && (forall k :: 0 <= k < |c| ==> c[k] < 0x80) && IsFor(flow, expectedType)
    ensures var data := Some(ClientData(Some(expectedType), Some(UrlEncode(c))));
      var held := Issued(store, c, flow, issued);
      && (Verdict(held, data, expectedType, now, Answers) == Accepted <==> now <= issued + 300)
      && AfterVerify(held, data, expectedType, Answers) == store - {c}
  {
    AsciiIsUtf8(c);
    UrlRoundTrip(c);
    UrlEncodeShape(c);
    if now <= issued + PASSKEY_CHALLENGE_TTL {
      EchoAccepted(Issued(store, c, flow, issued), c, expectedType, now);
    }
  }
}
