/** The terminal's quote cache of api/webapp.py: one quote, one user, one wallet, 45 seconds. */
module QuoteCache {
  import opened Text
  import opened Options

  type Id = string

  const QUOTE_TTL_SECONDS := 45

  datatype Wallet = Wallet(id: nat, userId: nat, active: bool, isDefault: bool, chainType: string,
                           address: string, canServerSign: bool)

  /** A session's user, zero when there is none, and how the session was authenticated. */
  datatype Session = Session(user: nat, src: string)

  datatype Entry = Entry(createdAt: int, user: nat, chainType: string, wallet: Option<(nat, string)>)

  // ---- Sessions and wallets ----

  datatype Refusal = Unauthenticated | WeakSession | BadHash | NotFound | NotOwner | Unbound
                   | WalletChanged | CannotSign | StoreFailed

  /** `require_proof_of_possession`. */
  function ProofOfPossession(session: Session): Option<Refusal> {
    if session.user == 0 then Some(Unauthenticated)
    else if session.src !in ["telegram", "siwe", "passkey"] then Some(WeakSession)
    else None
  }

  /** Whether `a` comes before `b` in `ORDER BY is_default DESC, id ASC`. */
  predicate Preferred(a: Wallet, b: Wallet) {
    (a.isDefault && !b.isDefault) || (a.isDefault == b.isDefault && a.id <= b.id)
  }

  /** `_terminal_wallet_for_chain`. */
  function WalletForChain(db: seq<Wallet>, user: nat, chainType: string): (w: Option<Wallet>)
    ensures w.Some? ==> w.value in db && w.value.userId == user && w.value.active && w.value.chainType == chainType
    ensures w.Some? ==> forall o :: o in db && o.userId == user && o.active && o.chainType == chainType ==>
      (o.isDefault ==> w.value.isDefault) && (o.isDefault == w.value.isDefault ==> w.value.id <= o.id)
    ensures w.None? ==> forall o :: o in db ==> !(o.userId == user && o.active && o.chainType == chainType)
  {
    if db == [] then None
    else
      var rest := WalletForChain(db[1..], user, chainType);
      var w := db[0];
      assert forall o :: o in db ==> o == w || o in db[1..];
      if w.userId == user && w.active && w.chainType == chainType && (rest.None? || Preferred(w, rest.value))
      then Some(w) else rest
  }

  /** `_wallet_address_matches`. */
  predicate AddressMatches(w: Wallet, address: string) {
    if w.chainType == "evm" then Lower(w.address) == Lower(address) else w.address == address
  }

  /** The row that execution looks up: the quoted wallet, still the user's, active, on the same chain family. */
  function BoundWallet(db: seq<Wallet>, id: nat, user: nat, chainType: string): (w: Option<Wallet>)
    ensures w.Some? ==> w.value in db && w.value.id == id && w.value.userId == user
    ensures w.Some? ==> w.value.active && w.value.chainType == chainType
  {
    if db == [] then None
    else if db[0].id == id && db[0].userId == user && db[0].active && db[0].chainType == chainType then Some(db[0])
    else BoundWallet(db[1..], id, user, chainType)
  }

  predicate ValidHash(txHash: string) {
    var h := Strip(txHash);
    (StartsWith(h, "0x") && |h| == 66) || (!StartsWith(h, "0x") && 43 <= |h| <= 100)
  }

  // ---- The requests, as functions of the cache ----

  type Cache = map<Id, Entry>

  /** What `_cleanup_terminal_quote_cache` keeps. */
  function Live(cache: Cache, now: int): Cache {
    map id | id in cache && now - cache[id].createdAt <= QUOTE_TTL_SECONDS :: cache[id]
  }

  function NewEntry(db: seq<Wallet>, session: Session, chainType: string, now: int): Entry {
    var wallet := if session.user == 0 then None else WalletForChain(db, session.user, chainType);
    Entry(now, session.user, chainType,
          if wallet.Some? then Some((wallet.value.id, wallet.value.address)) else None)
  }

  datatype Admission = Refused(why: Refusal) | Admitted(wallet: nat, address: string)

  /** The checks of `execute_terminal_swap`, up to the call that it awaits. */
  function Admit(cache: Cache, db: seq<Wallet>, session: Session, id: Id, now: int): Admission {
    if ProofOfPossession(session).Some? then Refused(ProofOfPossession(session).value)
    else if id !in Live(cache, now) then Refused(NotFound)
    else
      var e := Live(cache, now)[id];
      if e.user != 0 && e.user != session.user then Refused(NotOwner)
      else if e.wallet.None? || e.wallet.value.0 == 0 || e.wallet.value.1 == "" then Refused(Unbound)
      else
        var w := BoundWallet(db, e.wallet.value.0, session.user, e.chainType);
        if w.None? || !AddressMatches(w.value, e.wallet.value.1) then Refused(WalletChanged)
        else if !w.value.canServerSign then Refused(CannotSign)
        else Admitted(w.value.id, w.value.address)
  }

  /** The checks of `record_terminal_swap`; `stored` tells whether its commit succeeds. */
  function Recordable(cache: Cache, session: Session, id: Id, txHash: string, now: int, stored: bool): Option<Refusal> {
    if ProofOfPossession(session).Some? then ProofOfPossession(session)
    else if !ValidHash(txHash) then Some(BadHash)
    else if id !in Live(cache, now) then Some(NotFound)
    else if Live(cache, now)[id].user != 0 && Live(cache, now)[id].user != session.user then Some(NotOwner)
    else if !stored then Some(StoreFailed)
    else None
  }

  /** Whether a request for recording got as far as cleaning the cache. */
  predicate RecordCleans(session: Session, txHash: string) {
    ProofOfPossession(session).None? && ValidHash(txHash)
  }

  function AfterRecord(cache: Cache, session: Session, id: Id, txHash: string, now: int, stored: bool): Cache {
    if !RecordCleans(session, txHash) then cache
    else if Recordable(cache, session, id, txHash, now, stored).None? then Live(cache, now) - {id}
    else Live(cache, now)
  }

  function AfterAdmit(cache: Cache, session: Session, now: int): Cache {
    if ProofOfPossession(session).Some? then cache else Live(cache, now)
  }

  // ---- Exactly when a request succeeds ----

  /** Signed in by Telegram, by a wallet or by a passkey: everything else is too weak to trade. */
  predicate Trusted(session: Session) {
    session.user != 0 && (session.src == "telegram" || session.src == "siwe" || session.src == "passkey")
  }

  /** The quote is cached, not older than 45 seconds, and the session's, or nobody's. */
  predicate AtHand(cache: Cache, session: Session, id: Id, now: int) {
    id in cache && now <= cache[id].createdAt + 45 && (cache[id].user == 0 || cache[id].user == session.user)
  }

  /** The same address, up to the case of an EVM address. */
  predicate SameAddress(chainType: string, a: string, b: string) {
    if chainType == "evm" then SameUpToCase(a, b) else a == b
  }

  predicate RowFits(w: Wallet, id: nat, user: nat, chainType: string) {
    w.id == id && w.userId == user && w.active && w.chainType == chainType
  }

  ghost predicate FirstFitting(db: seq<Wallet>, k: nat, id: nat, user: nat, chainType: string) {
    k < |db| && RowFits(db[k], id, user, chainType) && forall j :: 0 <= j < k ==> !RowFits(db[j], id, user, chainType)
  }

  /** The wallet to sign with: the row that the quote is bound to, at the quoted address, and ours to sign for. */
  ghost predicate SignsFor(db: seq<Wallet>, session: Session, e: Entry, w: Wallet) {
    && e.wallet.Some? && e.wallet.value.0 != 0 && e.wallet.value.1 != ""
    && (exists k: nat :: FirstFitting(db, k, e.wallet.value.0, session.user, e.chainType) && db[k] == w)
    && SameAddress(e.chainType, w.address, e.wallet.value.1) && w.canServerSign
  }

  lemma {:induction false} BoundWalletIff(db: seq<Wallet>, id: nat, user: nat, chainType: string, w: Wallet)
    ensures BoundWallet(db, id, user, chainType) == Some(w)
      <==> exists k: nat :: FirstFitting(db, k, id, user, chainType) && db[k] == w
  {
    if db != [] {
      BoundWalletIff(db[1..], id, user, chainType, w);
      if RowFits(db[0], id, user, chainType) {
        assert FirstFitting(db, 0, id, user, chainType);
      } else {
        forall k: nat
          ensures FirstFitting(db[1..], k, id, user, chainType) <==> FirstFitting(db, k + 1, id, user, chainType)
        {
          FitsLater(db, k, id, user, chainType);
        }
        assert !FirstFitting(db, 0, id, user, chainType);
        if k: nat :| FirstFitting(db, k, id, user, chainType) && db[k] == w {
          assert FirstFitting(db[1..], k - 1, id, user, chainType);
        }
      }
    }
  }

  lemma FitsLater(db: seq<Wallet>, k: nat, id: nat, user: nat, chainType: string)
    requires db != [] && !RowFits(db[0], id, user, chainType)
    ensures FirstFitting(db[1..], k, id, user, chainType) <==> FirstFitting(db, k + 1, id, user, chainType)
  {
    if k + 1 < |db| {
      assert forall j :: 0 <= j < k ==> db[1..][j] == db[j + 1];
      assert forall j :: 0 < j < k + 1 ==> db[j] == db[1..][j - 1];
    }
  }

  /** An execution goes ahead exactly for a trusted session, a quote at hand, and a wallet that signs for it. */
  lemma AdmittedIff(cache: Cache, db: seq<Wallet>, session: Session, id: Id, now: int, wallet: nat, address: string)
    ensures Admit(cache, db, session, id, now) == Admitted(wallet, address)
      <==> Trusted(session) && AtHand(cache, session, id, now)
           && exists w :: SignsFor(db, session, cache[id], w) && w.id == wallet && w.address == address
  {
    if Trusted(session) && AtHand(cache, session, id, now) {
      var e := cache[id];
      if e.wallet.Some? {
        SignerIff(db, session, e);
      }
    }
  }

  lemma SignerIff(db: seq<Wallet>, session: Session, e: Entry)
    requires e.wallet.Some?
    ensures var row := BoundWallet(db, e.wallet.value.0, session.user, e.chainType);
      forall w :: SignsFor(db, session, e, w) <==>
        && e.wallet.value.0 != 0 && e.wallet.value.1 != ""
        && row == Some(w) && AddressMatches(w, e.wallet.value.1) && w.canServerSign
  {
    forall w
      ensures BoundWallet(db, e.wallet.value.0, session.user, e.chainType) == Some(w)
        <==> exists k: nat :: FirstFitting(db, k, e.wallet.value.0, session.user, e.chainType) && db[k] == w
      ensures Lower(w.address) == Lower(e.wallet.value.1) <==> SameUpToCase(w.address, e.wallet.value.1)
    {
      BoundWalletIff(db, e.wallet.value.0, session.user, e.chainType, w);
      LowerEqualIff(w.address, e.wallet.value.1);
    }
  }

  /** An EVM hash, `0x` and 64 characters, or 43 to 100 characters that do not begin so. */
  predicate HashShape(h: string) {
    if "0x" <= h then |h| == 2 + 64 else 43 <= |h| && |h| <= 100
  }

  /** A record is accepted exactly for a trusted session, a hash of either shape, a quote at hand, and a commit. */
  lemma RecordedIff(cache: Cache, session: Session, id: Id, txHash: string, now: int, stored: bool)
    ensures Recordable(cache, session, id, txHash, now, stored).None?
      <==> Trusted(session) && HashShape(Strip(txHash)) && AtHand(cache, session, id, now) && stored
  {
    var h := Strip(txHash);
    assert "0x" <= h <==> StartsWith(h, "0x") by {
      assert |h| >= 2 ==> h[..2] + h[2..] == h;
    }
  }

  /** What a request leaves in the cache: only a trusted session has expired quotes removed. */
  lemma CacheAfterAdmit(cache: Cache, session: Session, now: int)
    ensures var after := AfterAdmit(cache, session, now);
      && (forall id :: id in after <==> id in cache && (Trusted(session) ==> now <= cache[id].createdAt + 45))
      && (forall id :: id in after ==> after[id] == cache[id])
  {
  }

  /** A record removes expired quotes once session and hash are in order, and its own quote if it is accepted. */
  lemma CacheAfterRecord(cache: Cache, session: Session, id: Id, txHash: string, now: int, stored: bool)
    ensures var after := AfterRecord(cache, session, id, txHash, now, stored);
      && (forall other :: other in after <==>
            && other in cache
            && (Trusted(session) && HashShape(Strip(txHash)) ==>
                  && now <= cache[other].createdAt + 45
                  && !(other == id && AtHand(cache, session, id, now) && stored)))
      && (forall other :: other in after ==> after[other] == cache[other])
  {
    RecordedIff(cache, session, id, txHash, now, true);
    RecordedIff(cache[id := Entry(now, 0, "", None)], session, id, txHash, now, true);
  }

  /** The module's dictionary and the handlers that change it. */
  class Terminal {
    var cache: Cache

    constructor ()
      ensures cache == map[]
    {
      cache := map[];
    }

    /** `_cleanup_terminal_quote_cache`: expired ids are collected first and popped one by one. */
    method Cleanup(now: int)
      modifies this
      ensures cache == Live(old(cache), now)
    {
      ghost var was := cache;
      var expired := set id | id in cache && now - cache[id].createdAt > QUOTE_TTL_SECONDS;
      ghost var all := expired;
      while expired != {}
        invariant expired <= all
        invariant forall id :: id in cache <==> id in was && (id !in all || id in expired)
        invariant forall id :: id in cache ==> cache[id] == was[id]
        decreases |expired|
      {
        var id :| id in expired;
        cache := cache - {id};
        expired := expired - {id};
      }
      assert forall id :: id in cache <==> id in Live(was, now);
    }

    /** Creating a quote for the session's wallet, under an id from `uuid4()`. */
    method Quote(db: seq<Wallet>, session: Session, chainType: string, id: Id, now: int)
      modifies this
      ensures cache == Live(old(cache), now)[id := NewEntry(db, session, chainType, now)]
    {
      var wallet: Option<Wallet> := None;
      if session.user != 0 {
        wallet := WalletForChain(db, session.user, chainType);
      }
      Cleanup(now);
      cache := cache[id := Entry(now, session.user, chainType,
        if wallet.Some? then Some((wallet.value.id, wallet.value.address)) else None)];
    }

    /** Building an unsigned swap: the quote is bound to no wallet of the server. */
    method Build(session: Session, chainType: string, id: Id, now: int)
      modifies this
      ensures cache == Live(old(cache), now)[id := Entry(now, session.user, chainType, None)]
    {
      Cleanup(now);
      cache := cache[id := Entry(now, session.user, chainType, None)];
    }

    /** The first half of `execute_terminal_swap`. It leaves the quote in the cache. */
    method BeginExecute(db: seq<Wallet>, session: Session, id: Id, now: int) returns (r: Admission)
      modifies this
      ensures r == Admit(old(cache), db, session, id, now)
      ensures cache == AfterAdmit(old(cache), session, now)
    {
      var refusal := ProofOfPossession(session);
      if refusal.Some? {
        return Refused(refusal.value);
      }
      Cleanup(now);
      if id !in cache {
        return Refused(NotFound);
      }
      var e := cache[id];
      if e.user != 0 && e.user != session.user {
        return Refused(NotOwner);
      }
      if e.wallet.None? || e.wallet.value.0 == 0 || e.wallet.value.1 == "" {
        return Refused(Unbound);
      }
      var w := BoundWallet(db, e.wallet.value.0, session.user, e.chainType);
      if w.None? || !AddressMatches(w.value, e.wallet.value.1) {
        return Refused(WalletChanged);
      }
      if !w.value.canServerSign {
        return Refused(CannotSign);
      }
      return Admitted(w.value.id, w.value.address);
    }

    /** `record_terminal_swap`; the quote is dropped only once the row is stored. */
    method Record(session: Session, id: Id, txHash: string, now: int, stored: bool) returns (refusal: Option<Refusal>)
      modifies this
      ensures refusal == Recordable(old(cache), session, id, txHash, now, stored)
      ensures cache == AfterRecord(old(cache), session, id, txHash, now, stored)
    {
      refusal := ProofOfPossession(session);
      if refusal.Some? {
        return;
      }
      if !ValidHash(txHash) {
        return Some(BadHash);
      }
      Cleanup(now);
      if id !in cache {
        return Some(NotFound);
      }
      if cache[id].user != 0 && cache[id].user != session.user {
        return Some(NotOwner);
      }
      if !stored {
        return Some(StoreFailed);
      }
      cache := cache - {id};
      return None;
    }
  }
}
