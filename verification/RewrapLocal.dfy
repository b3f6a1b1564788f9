/** scripts/rewrap_kms_to_local.py: data keys wrapped by AWS KMS are wrapped again by the local key. */
module RewrapLocal {
  import opened Text
  import opened Options
  import opened Base64
  import opened Queries
  import opened BatchRun

  type Blob = seq<Byte>
  type Key = seq<Byte>

  const V2 := "kms_aesgcm_v2"
  const LOCAL_KEY_ID := "local-v1"

  /** What each key service opens a wrapped key to. */
  datatype Keyring = Keyring(local: Blob -> Option<Key>, aws: Blob -> Option<Key>)

  /**
   * What happens on one run: whether AWS answers the call made for field `t`, and what the local key
   * wraps the opened key to (its nonce is random, and it may fail).
   */
  datatype Luck = Luck(awsAnswers: nat -> bool, wrap: (nat, Key) -> Option<Blob>)

  /** No blob opens to two different keys, and the empty blob is too short for the local key. */
  ghost predicate Sound(ring: Keyring) {
    && ring.local([]).None?
    && forall b :: ring.local(b).Some? && ring.aws(b).Some? ==> ring.local(b) == ring.aws(b)
  }

  /** Whatever the local key wraps, it opens again. */
  ghost predicate Wraps(ring: Keyring, luck: Luck) {
    forall t, k :: luck.wrap(t, k).Some? ==> ring.local(luck.wrap(t, k).value) == Some(k)
  }

  datatype Rewrap = IsLocal | Error | Fresh(text: string)

  /** `_rewrap_blob`. */
  function RewrapBlob(ring: Keyring, luck: Luck, t: nat, text: string): Rewrap {
    match Decode(text)
    case None => Error
    case Some(blob) =>
      if ring.local(blob).Some? then IsLocal
      else if !luck.awsAnswers(t) || ring.aws(blob).None? then Error
      else
        match luck.wrap(t, ring.aws(blob).value)
        case None => Error
        case Some(wrapped) => Fresh(Encode(wrapped))
  }

  /** The data key that a stored wrapped key stands for, under either service. */
  function KeyOf(ring: Keyring, text: string): Option<Key> {
    match Decode(text)
    case None => None
    case Some(b) => if ring.local(b).Some? then ring.local(b) else ring.aws(b)
  }

  predicate OpensLocally(ring: Keyring, text: string) {
    Decode(text).Some? && ring.local(Decode(text).value).Some?
  }

  /** Re-wrapping keeps the key, and what it produces opens locally, is not empty and has no bar. */
  lemma RewrapKeepsKey(ring: Keyring, luck: Luck, t: nat, text: string)
    requires Sound(ring) && Wraps(ring, luck)
    ensures var r := RewrapBlob(ring, luck, t, text);
      && (r.IsLocal? <==> OpensLocally(ring, text))
      && (r.Fresh? ==> KeyOf(ring, text).Some? && KeyOf(ring, r.text) == KeyOf(ring, text))
      && (r.Fresh? ==> OpensLocally(ring, r.text) && r.text != "" && '|' !in r.text)
  {
    var r := RewrapBlob(ring, luck, t, text);
    if r.Fresh? {
      var wrapped := luck.wrap(t, ring.aws(Decode(text).value).value).value;
      PaddedRoundTrip(wrapped);
      EncodeChars(wrapped);
      assert wrapped != [];
    }
  }

  /** The key of this text can be moved: AWS answers, opens the blob, and the local key wraps what it opens to. */
  ghost predicate Movable(ring: Keyring, luck: Luck, t: nat, text: string) {
    && luck.awsAnswers(t)
    && exists blob, key :: Decode(text) == Some(blob) && ring.aws(blob) == Some(key) && luck.wrap(t, key).Some?
  }

  /** The three outcomes, by the services alone; a fresh text is the encoding of what the local key wrapped. */
  lemma OutcomeIff(ring: Keyring, luck: Luck, t: nat, text: string)
    ensures var r := RewrapBlob(ring, luck, t, text);
      && (r.IsLocal? <==> OpensLocally(ring, text))
      && (r.Fresh? <==> !OpensLocally(ring, text) && Movable(ring, luck, t, text))
      && (r.Fresh? ==> exists blob, key :: Decode(text) == Some(blob) && ring.aws(blob) == Some(key)
                         && luck.wrap(t, key).Some? && Decode(r.text) == luck.wrap(t, key))
  {
    var r := RewrapBlob(ring, luck, t, text);
    if r.Fresh? {
      var blob := Decode(text).value;
      var key := ring.aws(blob).value;
      PaddedRoundTrip(luck.wrap(t, key).value);
      assert Decode(text) == Some(blob) && ring.aws(blob) == Some(key);
    }
  }

  /** A database session: what is committed, and what the program has loaded and changed. */
  class Session<R> {
    var durable: seq<R>
    var working: seq<R>

    constructor (rows: seq<R>)
      ensures durable == rows && working == rows
    {
      durable := rows;
      working := rows;
    }

    method Commit()
      modifies this
      ensures durable == working == old(working)
    {
      durable := working;
    }

    method Change(i: nat, row: R)
      requires i < |working|
      modifies this
      ensures durable == old(durable) && working == old(working)[i := row]
    {
      working := working[i := row];
    }
  }

  class Stats {
    var scanned: nat
    var skippedNoDek: nat
    var skippedAlreadyLocal: nat
    var rewrapped: nat
    var failed: nat

    constructor ()
      ensures Counted() == ZERO
    {
      scanned, skippedNoDek, skippedAlreadyLocal, rewrapped, failed := 0, 0, 0, 0, 0;
    }

    function Counted(): Counters
      reads this
    {
      Counters(scanned, skippedNoDek, skippedAlreadyLocal, rewrapped, failed)
    }
  }

  // ---- wallets and hot_wallets ----

  datatype Wallet = Wallet(id: nat, scheme: string, dek: Option<string>, keyId: Option<string>,
                           nonce: Option<string>, ciphertext: string)

  function JudgeWallet(ring: Keyring, luck: Luck, i: nat, row: Wallet): Verdict<Wallet> {
    if row.scheme != V2 then Verdict(Unscanned, false, false, row)
    else if row.dek.GetOr("") == "" then Verdict(NoDek, true, false, row)
    else
      match RewrapBlob(ring, luck, i, row.dek.value)
      case IsLocal => Verdict(AlreadyLocal, false, false, row)
      case Error => Verdict(Failed, false, false, row)
      case Fresh(text) => Verdict(Rewrapped, false, true, row.(dek := Some(text), keyId := Some(LOCAL_KEY_ID)))
  }

  function WalletJudge(ring: Keyring, luck: Luck): Judge<Wallet> {
    (i: nat, row: Wallet) => JudgeWallet(ring, luck, i, row)
  }

  /** The loop body for one row, up to the batch-size test, which only a rewrapped row reaches. */
  method RewrapWallet(session: Session<Wallet>, stats: Stats, ring: Keyring, luck: Luck, i: nat, commit: bool)
    returns (rewrapped: bool)
    requires i < |session.working|
    modifies session, stats
    ensures var v := JudgeWallet(ring, luck, i, old(session.working[i]));
      && session.durable == old(session.durable)
      && session.working == (if commit then old(session.working)[i := v.after] else old(session.working))
      && stats.Counted() == Count(old(stats.Counted()), v)
      && rewrapped == (v.mark == Rewrapped) == v.checksBatch
  {
    var row := session.working[i];
    if row.scheme != V2 {
      return false; // not selected by the query
    }
    stats.scanned := stats.scanned + 1;
    if row.dek.GetOr("") == "" {
      stats.skippedNoDek := stats.skippedNoDek + 1;
      return false;
    }
    var outcome := RewrapBlob(ring, luck, i, row.dek.value);
    if outcome.IsLocal? {
      stats.skippedAlreadyLocal := stats.skippedAlreadyLocal + 1;
      return false;
    }
    if outcome.Error? {
      stats.failed := stats.failed + 1;
      return false;
    }
    if commit {
      session.Change(i, row.(dek := Some(outcome.text), keyId := Some(LOCAL_KEY_ID)));
    }
    stats.rewrapped := stats.rewrapped + 1;
    return true;
  }

  method MigrateWalletLike(session: Session<Wallet>, stats: Stats, ring: Keyring, luck: Luck, commit: bool, batch: int)
    returns (ghost pending: nat)
    requires session.durable == session.working && stats.Counted() == ZERO
    modifies session, stats
    ensures Progress(session.durable, session.working, stats.Counted(), pending)
      == Run(WalletJudge(ring, luck), old(session.durable), commit, batch)
  {
    ghost var judge := WalletJudge(ring, luck);
    ghost var rows := session.working;
    var waiting: nat := 0;
    for i := 0 to |session.working|
      invariant Progress(session.durable, session.working, stats.Counted(), waiting)
        == Upto(judge, rows, commit, batch, i)
      invariant |session.working| == |rows| && forall j :: i <= j < |rows| ==> session.working[j] == rows[j]
    {
      assert judge(i, rows[i]) == JudgeWallet(ring, luck, i, rows[i]);
      var rewrapped := RewrapWallet(session, stats, ring, luck, i, commit);
      if rewrapped {
        waiting := waiting + 1;
        if commit && waiting >= batch {
          session.Commit();
          waiting := 0;
        }
      }
    }
    if commit && waiting > 0 {
      session.Commit();
      waiting := 0;
    }
    pending := waiting;
  }

  // ---- oauth_tokens ----

  datatype OAuth = OAuth(id: nat, scheme: string, access: string, dek: Option<string>,
                         nonce: Option<string>, refresh: Option<string>)

  /** The parts of a refresh blob; one without a bar is left alone. */
  function RefreshParts(row: OAuth): seq<string> {
    var text := row.refresh.GetOr("");
    if '|' in text then Split(text, '|') else []
  }

  function AccessOutcome(ring: Keyring, luck: Luck, i: nat, row: OAuth): Option<Rewrap> {
    if row.dek.GetOr("") == "" then None else Some(RewrapBlob(ring, luck, 2 * i, row.dek.value))
  }

  function RefreshOutcome(ring: Keyring, luck: Luck, i: nat, row: OAuth): Option<Rewrap> {
    var parts := RefreshParts(row);
    if parts == [] then None
    else if |parts| == 3 then Some(RewrapBlob(ring, luck, 2 * i + 1, parts[0]))
    else Some(Error)
  }

  function WithAccess(row: OAuth, outcome: Option<Rewrap>): OAuth {
    match outcome
    case Some(Fresh(text)) => row.(dek := Some(text))
    case _ => row
  }

  function WithRefresh(row: OAuth, outcome: Option<Rewrap>): OAuth {
    match outcome
    case Some(Fresh(text)) =>
      var parts := RefreshParts(row);
      if |parts| == 3 then row.(refresh := Some(Join([text, parts[1], parts[2]], "|"))) else row
    case _ => row
  }

  predicate IsFresh(outcome: Option<Rewrap>) {
    outcome.Some? && outcome.value.Fresh?
  }

  function JudgeOAuth(ring: Keyring, luck: Luck, i: nat, row: OAuth): Verdict<OAuth> {
    var access := AccessOutcome(ring, luck, i, row);
    var refresh := RefreshOutcome(ring, luck, i, row);
    if row.scheme != V2 then Verdict(Unscanned, false, false, row)
    else
      var failed := access == Some(Error) || refresh == Some(Error);
      var changed := IsFresh(access) || IsFresh(refresh);
      // An access token already re-wrapped stays changed in the session when the refresh token fails.
      Verdict(if failed then Failed else if changed then Rewrapped else AlreadyLocal,
              access.None?, !failed, WithRefresh(WithAccess(row, access), refresh))
  }

  function OAuthJudge(ring: Keyring, luck: Luck): Judge<OAuth> {
    (i: nat, row: OAuth) => JudgeOAuth(ring, luck, i, row)
  }

  /** The access token's part of the loop body. */
  method RewrapAccess(session: Session<OAuth>, stats: Stats, ring: Keyring, luck: Luck, i: nat, commit: bool)
    returns (changed: bool, failed: bool)
    requires i < |session.working|
    modifies session, stats
    ensures var row := old(session.working[i]); var access := AccessOutcome(ring, luck, i, row);
      && session.durable == old(session.durable)
      && session.working == (if commit then old(session.working)[i := WithAccess(row, access)]
                             else old(session.working))
      && stats.Counted() == old(stats.Counted()).(noDek := old(stats.skippedNoDek) + One(access.None?))
      && changed == IsFresh(access) && failed == (access == Some(Error))
  {
    var row := session.working[i];
    changed, failed := false, false;
    if row.dek.GetOr("") == "" {
      stats.skippedNoDek := stats.skippedNoDek + 1;
      return;
    }
    var access := AccessOutcome(ring, luck, i, row);
    if access == Some(Error) {
      failed := true;
    } else if IsFresh(access) {
      if commit {
        session.Change(i, WithAccess(row, access));
      }
      changed := true;
    }
  }

  /** The refresh token's part of the loop body, for the row as it was loaded. */
  method RewrapRefresh(session: Session<OAuth>, ring: Keyring, luck: Luck, i: nat, row: OAuth, commit: bool)
    returns (changed: bool, failed: bool)
    requires i < |session.working|
    modifies session
    ensures var refresh := RefreshOutcome(ring, luck, i, row);
      && session.durable == old(session.durable)
      && session.working == (if commit && IsFresh(refresh)
                             then old(session.working)[i := WithRefresh(old(session.working[i]), refresh)]
                             else old(session.working))
      && changed == IsFresh(refresh) && failed == (refresh == Some(Error))
  {
    changed, failed := false, false;
    if RefreshParts(row) != [] {
      var refresh := RefreshOutcome(ring, luck, i, row);
      if refresh == Some(Error) {
        failed := true; // a malformed blob or a failed re-wrap
      } else if IsFresh(refresh) {
        if commit {
          session.Change(i, WithRefresh(session.working[i], refresh));
        }
        changed := true;
      }
    }
  }

  /** How a selected token is counted. */
  method CountToken(stats: Stats, failed: bool, changed: bool) returns (rewrapped: bool, reached: bool)
    modifies stats
    ensures rewrapped == (!failed && changed) && reached == !failed
    ensures var c := old(stats.Counted());
      stats.Counted() == c.(failed := c.failed + One(failed), rewrapped := c.rewrapped + One(rewrapped),
                            alreadyLocal := c.alreadyLocal + One(!failed && !changed))
  {
    if failed {
      stats.failed := stats.failed + 1;
      return false, false;
    }
    if changed {
      stats.rewrapped := stats.rewrapped + 1;
    } else {
      stats.skippedAlreadyLocal := stats.skippedAlreadyLocal + 1;
    }
    return changed, true;
  }

  /** The loop body for one row, up to the batch-size test; `reached` tells whether it gets there. */
  method RewrapOAuth(session: Session<OAuth>, stats: Stats, ring: Keyring, luck: Luck, i: nat, commit: bool)
    returns (rewrapped: bool, reached: bool)
    requires i < |session.working|
    modifies session, stats
    ensures var v := JudgeOAuth(ring, luck, i, old(session.working[i]));
      && session.durable == old(session.durable)
      && session.working == (if commit then old(session.working)[i := v.after] else old(session.working))
      && stats.Counted() == Count(old(stats.Counted()), v)
      && rewrapped == (v.mark == Rewrapped) && reached == v.checksBatch
  {
    var row := session.working[i];
    if row.scheme != V2 {
      return false, false; // not selected by the query
    }
    stats.scanned := stats.scanned + 1;
    var newAccess, badAccess := RewrapAccess(session, stats, ring, luck, i, commit);
    var newRefresh, badRefresh := RewrapRefresh(session, ring, luck, i, row, commit);
    rewrapped, reached := CountToken(stats, badAccess || badRefresh, newAccess || newRefresh);
  }

  /** The whole loop body for one row. */
  method MigrateToken(session: Session<OAuth>, stats: Stats, ring: Keyring, luck: Luck, i: nat, commit: bool,
                      batch: int, waiting: nat) returns (now: nat)
    requires i < |session.working|
    modifies session, stats
    ensures Progress(session.durable, session.working, stats.Counted(), now)
      == Step(Progress(old(session.durable), old(session.working), old(stats.Counted()), waiting), i,
              JudgeOAuth(ring, luck, i, old(session.working[i])), commit, batch)
  {
    now := waiting;
    var rewrapped, reached := RewrapOAuth(session, stats, ring, luck, i, commit);
    if rewrapped {
      now := now + 1;
    }
    if reached && commit && now >= batch {
      session.Commit();
      now := 0;
    }
  }

  method MigrateOAuth(session: Session<OAuth>, stats: Stats, ring: Keyring, luck: Luck, commit: bool, batch: int)
    returns (ghost pending: nat)
    requires session.durable == session.working && stats.Counted() == ZERO
    modifies session, stats
    ensures Progress(session.durable, session.working, stats.Counted(), pending)
      == Run(OAuthJudge(ring, luck), old(session.durable), commit, batch)
  {
    ghost var judge := OAuthJudge(ring, luck);
    ghost var rows := session.working;
    var waiting: nat := 0;
    for i := 0 to |session.working|
      invariant Progress(session.durable, session.working, stats.Counted(), waiting)
        == Upto(judge, rows, commit, batch, i)
      invariant |session.working| == |rows| && forall j :: i <= j < |rows| ==> session.working[j] == rows[j]
    {
      assert judge(i, rows[i]) == JudgeOAuth(ring, luck, i, rows[i]);
      waiting := MigrateToken(session, stats, ring, luck, i, commit, batch, waiting);
    }
    if commit && waiting > 0 {
      session.Commit();
      waiting := 0;
    }
    pending := waiting;
  }
}
