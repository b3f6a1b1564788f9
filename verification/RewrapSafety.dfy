/** Crash safety, convergence and idempotence of scripts/rewrap_kms_to_local.py. */
module RewrapSafety {
  import opened Text
  import opened Options
  import opened BatchRun
  import opened RewrapLocal

  /** A wrapped key was kept, or an AWS-wrapped one was replaced by a local wrap of the same key. */
  ghost predicate FieldKept(ring: Keyring, was: string, now: string) {
    || now == was
    || (!OpensLocally(ring, was) && OpensLocally(ring, now) && now != "" && '|' !in now
        && KeyOf(ring, was).Some? && KeyOf(ring, now) == KeyOf(ring, was))
  }

  lemma RewrapFieldKept(ring: Keyring, luck: Luck, t: nat, text: string)
    requires Sound(ring) && Wraps(ring, luck)
    ensures var r := RewrapBlob(ring, luck, t, text);
      && (r.Fresh? ==> FieldKept(ring, text, r.text) && OpensLocally(ring, r.text) && r.text != "")
      && (r.IsLocal? <==> OpensLocally(ring, text))
  {
    RewrapKeepsKey(ring, luck, t, text);
  }

  /** One committing run of the migration: it may be cut off, or finish with any number of failed rows. */
  datatype Attempt = Attempt(luck: Luck, batch: int, stop: Stop)

  // ---- wallets and hot_wallets ----

  predicate HasDek(row: Wallet) {
    row.scheme == V2 && row.dek.GetOr("") != ""
  }

  /**
   * The row is as it was, or its AWS-wrapped data key was replaced by a local wrap of the same key
   * and its key id set; ciphertext, nonce and everything else are untouched.
   */
  ghost predicate WalletKept(ring: Keyring, was: Wallet, now: Wallet) {
    || now == was
    || (HasDek(was) && HasDek(now) && now == was.(dek := now.dek, keyId := Some(LOCAL_KEY_ID))
        && now.dek != was.dek && FieldKept(ring, was.dek.value, now.dek.value))
  }

  ghost predicate WalletsKept(ring: Keyring, was: seq<Wallet>, now: seq<Wallet>) {
    |now| == |was| && forall j :: 0 <= j < |was| ==> WalletKept(ring, was[j], now[j])
  }

  predicate WalletDone(ring: Keyring, row: Wallet) {
    HasDek(row) ==> OpensLocally(ring, row.dek.value)
  }

  lemma WalletJudged(ring: Keyring, luck: Luck, i: nat, row: Wallet)
    requires Sound(ring) && Wraps(ring, luck)
    ensures var v := WalletJudge(ring, luck)(i, row);
      && WalletKept(ring, row, v.after)
      && (v.mark != Rewrapped ==> v.after == row)
      && (v.mark != Failed ==> WalletDone(ring, v.after))
      && (v.mark == Rewrapped ==> v.checksBatch)
      && (v.missing <==> v.mark == NoDek)
      && (WalletDone(ring, row) ==> v.mark !in {Rewrapped, Failed})
      && (HasDek(row) && !WalletDone(ring, row) && v.mark != Failed ==> v.mark == Rewrapped)
  {
    if HasDek(row) {
      RewrapFieldKept(ring, luck, i, row.dek.value);
    }
  }

  lemma WalletJudgeFacts(ring: Keyring, luck: Luck)
    requires Sound(ring) && Wraps(ring, luck)
    ensures var judge := WalletJudge(ring, luck);
      && ChecksRewrapped(judge)
      && forall i, r :: judge(i, r).mark !in {Rewrapped, Failed} ==> judge(i, r).after == r
  {
    forall i: nat, r: Wallet
      ensures var v := WalletJudge(ring, luck)(i, r);
        (v.mark == Rewrapped ==> v.checksBatch) && (v.mark !in {Rewrapped, Failed} ==> v.after == r)
    {
      WalletJudged(ring, luck, i, r);
    }
  }

  lemma WalletKeptTransitive(ring: Keyring, a: Wallet, b: Wallet, c: Wallet)
    requires WalletKept(ring, a, b) && WalletKept(ring, b, c)
    ensures WalletKept(ring, a, c)
  {
  }

  /** Wherever a committing run ends, failures or not, every stored key still opens to its original key. */
  lemma WalletCrashSafe(ring: Keyring, luck: Luck, rows: seq<Wallet>, batch: int, stop: Stop)
    requires Sound(ring) && Wraps(ring, luck)
    ensures WalletsKept(ring, rows, Stored(WalletJudge(ring, luck), rows, batch, stop))
  {
    WalletJudgeFacts(ring, luck);
    EndStores(WalletJudge(ring, luck), rows, batch, stop);
    forall j | 0 <= j < |rows|
      ensures WalletKept(ring, rows[j], WalletJudge(ring, luck)(j, rows[j]).after)
    {
      WalletJudged(ring, luck, j, rows[j]);
    }
  }

  /** The store after any number of runs, cut off or finished. */
  ghost function AfterAttempts(ring: Keyring, attempts: seq<Attempt>, rows: seq<Wallet>): seq<Wallet>
    decreases attempts
  {
    if attempts == [] then rows
    else
      var a := attempts[0];
      AfterAttempts(ring, attempts[1..], Stored(WalletJudge(ring, a.luck), rows, a.batch, a.stop))
  }

  lemma {:induction false} WalletAttemptsKeep(ring: Keyring, attempts: seq<Attempt>, rows: seq<Wallet>)
    requires Sound(ring) && forall a :: a in attempts ==> Wraps(ring, a.luck)
    ensures WalletsKept(ring, rows, AfterAttempts(ring, attempts, rows))
    decreases attempts
  {
    if attempts != [] {
      var a := attempts[0];
      var next := Stored(WalletJudge(ring, a.luck), rows, a.batch, a.stop);
      assert a in attempts && forall b :: b in attempts[1..] ==> b in attempts;
      WalletCrashSafe(ring, a.luck, rows, a.batch, a.stop);
      WalletAttemptsKeep(ring, attempts[1..], next);
      var end := AfterAttempts(ring, attempts[1..], next);
      forall j | 0 <= j < |rows| ensures WalletKept(ring, rows[j], end[j]) {
        WalletKeptTransitive(ring, rows[j], next[j], end[j]);
      }
    }
  }

  /** A run without failures leaves every data key wrapped locally. */
  lemma WalletRunCompletes(ring: Keyring, luck: Luck, rows: seq<Wallet>, batch: int)
    requires Sound(ring) && Wraps(ring, luck)
    requires Run(WalletJudge(ring, luck), rows, true, batch).counters.failed == 0
    ensures var done := Run(WalletJudge(ring, luck), rows, true, batch).durable;
      WalletsKept(ring, rows, done) && forall j :: 0 <= j < |done| ==> WalletDone(ring, done[j])
  {
    var judge := WalletJudge(ring, luck);
    WalletJudgeFacts(ring, luck);
    RunStores(judge, rows, batch);
    CountersShape(judge, rows, true, batch, |rows|);
    NoneMarked(judge, rows, 0, |rows|, Failed);
    forall j | 0 <= j < |rows|
      ensures judge(j, rows[j]).mark != Failed && WalletKept(ring, rows[j], judge(j, rows[j]).after)
           && WalletDone(ring, judge(j, rows[j]).after)
    {
      WalletJudged(ring, luck, j, rows[j]);
    }
  }

  /** Two versions of a row that differ at most in the wrapped bytes, both standing for the row's own key. */
  ghost predicate WalletAgree(ring: Keyring, was: Wallet, a: Wallet, b: Wallet) {
    && a.(dek := None) == b.(dek := None) && HasDek(a) == HasDek(b) == HasDek(was)
    && (HasDek(was) ==> KeyOf(ring, a.dek.value) == KeyOf(ring, b.dek.value) == KeyOf(ring, was.dek.value))
  }

  lemma DoneWalletsAgree(ring: Keyring, was: Wallet, a: Wallet, b: Wallet)
    requires WalletKept(ring, was, a) && WalletKept(ring, was, b) && WalletDone(ring, a) && WalletDone(ring, b)
    ensures WalletAgree(ring, was, a, b)
  {
  }

  lemma WalletResumed(ring: Keyring, attempts: seq<Attempt>, rows: seq<Wallet>, last: Attempt)
    requires Sound(ring) && (forall a :: a in attempts ==> Wraps(ring, a.luck)) && Wraps(ring, last.luck)
    requires Run(WalletJudge(ring, last.luck), AfterAttempts(ring, attempts, rows), true, last.batch)
               .counters.failed == 0
    ensures
      var resumed := Run(WalletJudge(ring, last.luck), AfterAttempts(ring, attempts, rows), true, last.batch).durable;
      WalletsKept(ring, rows, resumed) && forall j :: 0 <= j < |rows| ==> WalletDone(ring, resumed[j])
  {
    var stored := AfterAttempts(ring, attempts, rows);
    WalletAttemptsKeep(ring, attempts, rows);
    WalletRunCompletes(ring, last.luck, stored, last.batch);
    var resumed := Run(WalletJudge(ring, last.luck), stored, true, last.batch).durable;
    forall j | 0 <= j < |rows| ensures WalletKept(ring, rows[j], resumed[j]) {
      WalletKeptTransitive(ring, rows[j], stored[j], resumed[j]);
    }
  }

  /**
   * After any number of runs, cut off or finished with failures, a run without failures reaches the result
   * of an uninterrupted run without failures: the same rows but for the wrapped bytes, which stand for the
   * same keys.
   */
  lemma WalletConvergence(ring: Keyring, attempts: seq<Attempt>, rows: seq<Wallet>,
                          last: Attempt, straight: Attempt)
    requires Sound(ring) && (forall a :: a in attempts ==> Wraps(ring, a.luck))
    requires Wraps(ring, last.luck) && Wraps(ring, straight.luck)
    requires Run(WalletJudge(ring, last.luck), AfterAttempts(ring, attempts, rows), true, last.batch)
               .counters.failed == 0
    requires Run(WalletJudge(ring, straight.luck), rows, true, straight.batch).counters.failed == 0
    ensures
      var resumed := Run(WalletJudge(ring, last.luck), AfterAttempts(ring, attempts, rows), true, last.batch).durable;
      var direct := Run(WalletJudge(ring, straight.luck), rows, true, straight.batch).durable;
      && |resumed| == |direct| == |rows|
      && forall j :: 0 <= j < |rows| ==>
        WalletDone(ring, resumed[j]) && WalletAgree(ring, rows[j], resumed[j], direct[j])
  {
    WalletResumed(ring, attempts, rows, last);
    WalletRunCompletes(ring, straight.luck, rows, straight.batch);
    var resumed := Run(WalletJudge(ring, last.luck), AfterAttempts(ring, attempts, rows), true, last.batch).durable;
    var direct := Run(WalletJudge(ring, straight.luck), rows, true, straight.batch).durable;
    forall j | 0 <= j < |rows|
      ensures WalletAgree(ring, rows[j], resumed[j], direct[j])
    {
      DoneWalletsAgree(ring, rows[j], resumed[j], direct[j]);
    }
  }

  /** A second committing run after one without failures rewraps nothing and changes nothing. */
  lemma WalletIdempotent(ring: Keyring, first: Attempt, second: Attempt, rows: seq<Wallet>)
    requires Sound(ring) && Wraps(ring, first.luck) && Wraps(ring, second.luck)
    requires Run(WalletJudge(ring, first.luck), rows, true, first.batch).counters.failed == 0
    ensures
      var done := Run(WalletJudge(ring, first.luck), rows, true, first.batch).durable;
      var again := Run(WalletJudge(ring, second.luck), done, true, second.batch);
      again.durable == done && again.counters.rewrapped == 0 && again.counters.failed == 0
  {
    var done := Run(WalletJudge(ring, first.luck), rows, true, first.batch).durable;
    var judge := WalletJudge(ring, second.luck);
    WalletRunCompletes(ring, first.luck, rows, first.batch);
    forall j | 0 <= j < |done|
      ensures judge(j, done[j]).mark !in {Rewrapped, Failed} && judge(j, done[j]).after == done[j]
    {
      WalletJudged(ring, second.luck, j, done[j]);
    }
    WalletJudgeFacts(ring, second.luck);
    RunStores(judge, done, second.batch);
    CountersShape(judge, done, true, second.batch, |done|);
    NoneMarked(judge, done, 0, |done|, Rewrapped);
    NoneMarked(judge, done, 0, |done|, Failed);
  }

  lemma {:induction false} NoDekCount(ring: Keyring, luck: Luck, rows: seq<Wallet>, commit: bool, batch: int, k: nat)
    requires Sound(ring) && Wraps(ring, luck) && k <= |rows|
    ensures Upto(WalletJudge(ring, luck), rows, commit, batch, k).counters.noDek
         == Marked(WalletJudge(ring, luck), rows, 0, k, NoDek)
  {
    if k > 0 {
      NoDekCount(ring, luck, rows, commit, batch, k - 1);
      WalletJudged(ring, luck, k - 1, rows[k - 1]);
    }
  }

  /** Every scanned wallet is counted exactly once, at any point of any run. */
  lemma {:induction false} WalletAccounting(ring: Keyring, luck: Luck, rows: seq<Wallet>,
                                            commit: bool, batch: int, k: nat)
    requires Sound(ring) && Wraps(ring, luck) && k <= |rows|
    ensures var p := Upto(WalletJudge(ring, luck), rows, commit, batch, k); var c := p.counters;
      && c.scanned == c.rewrapped + c.alreadyLocal + c.noDek + c.failed
      && (commit && batch >= 1 ==> p.pending < batch)
      && (commit ==> Run(WalletJudge(ring, luck), rows, commit, batch).pending == 0)
  {
    NoDekCount(ring, luck, rows, commit, batch, k);
    CountersShape(WalletJudge(ring, luck), rows, commit, batch, k);
    WalletJudgeFacts(ring, luck);
    CommitShape(WalletJudge(ring, luck), rows, batch, k);
    CommitShape(WalletJudge(ring, luck), rows, batch, |rows|);
  }

  // ---- When a wallet is re-wrapped, and when a run has no failures ----

  /** How a wallet is judged, by the services alone. */
  lemma WalletMarkIff(ring: Keyring, luck: Luck, i: nat, row: Wallet)
    ensures var v := WalletJudge(ring, luck)(i, row);
      && (v.mark == Unscanned <==> row.scheme != V2)
      && (v.mark == NoDek <==> row.scheme == V2 && row.dek in {None, Some("")})
      && (v.mark == AlreadyLocal <==> HasDek(row) && OpensLocally(ring, row.dek.value))
      && (v.mark == Rewrapped <==>
            HasDek(row) && !OpensLocally(ring, row.dek.value) && Movable(ring, luck, i, row.dek.value))
  {
    if HasDek(row) {
      OutcomeIff(ring, luck, i, row.dek.value);
    }
  }

  /** Every key of the table is local, or can be moved on this run. */
  ghost predicate WalletsMovable(ring: Keyring, luck: Luck, rows: seq<Wallet>) {
    forall j: nat :: j < |rows| && HasDek(rows[j]) ==>
      OpensLocally(ring, rows[j].dek.value) || Movable(ring, luck, j, rows[j].dek.value)
  }

  /** A run has no failures exactly when every key is local or can be moved; none of this depends on `commit`. */
  lemma WalletRunFailsIff(ring: Keyring, luck: Luck, rows: seq<Wallet>, commit: bool, batch: int)
    ensures Run(WalletJudge(ring, luck), rows, commit, batch).counters.failed == 0
      <==> WalletsMovable(ring, luck, rows)
  {
    var judge := WalletJudge(ring, luck);
    CountersShape(judge, rows, commit, batch, |rows|);
    NoneMarked(judge, rows, 0, |rows|, Failed);
    forall j: nat | j < |rows|
      ensures judge(j, rows[j]).mark == Failed
        <==> HasDek(rows[j]) && !OpensLocally(ring, rows[j].dek.value) && !Movable(ring, luck, j, rows[j].dek.value)
    {
      WalletMarkIff(ring, luck, j, rows[j]);
    }
  }

  /**
   * After any number of runs, cut off or finished with failures, one more run completes the migration if AWS
   * answers and opens, and the local key wraps, every key of the original table that was not local: nothing
   * fails, and every key is local and still the row's own.
   */
  lemma WalletsMigrate(ring: Keyring, attempts: seq<Attempt>, rows: seq<Wallet>, last: Attempt)
    requires Sound(ring) && (forall a :: a in attempts ==> Wraps(ring, a.luck)) && Wraps(ring, last.luck)
    requires WalletsMovable(ring, last.luck, rows)
    ensures var end := Run(WalletJudge(ring, last.luck), AfterAttempts(ring, attempts, rows), true, last.batch);
      && end.counters.failed == 0 && WalletsKept(ring, rows, end.durable)
      && forall j :: 0 <= j < |rows| ==> WalletDone(ring, end.durable[j])
  {
    var stored := AfterAttempts(ring, attempts, rows);
    WalletAttemptsKeep(ring, attempts, rows);
    forall j: nat | j < |stored| && HasDek(stored[j])
      ensures OpensLocally(ring, stored[j].dek.value) || Movable(ring, last.luck, j, stored[j].dek.value)
    {
      assert WalletKept(ring, rows[j], stored[j]);
    }
    WalletRunFailsIff(ring, last.luck, stored, true, last.batch);
    WalletResumed(ring, attempts, rows, last);
  }

  // ---- oauth_tokens ----

  predicate HasAccessDek(row: OAuth) {
    row.scheme == V2 && row.dek.GetOr("") != ""
  }

  /** Part 0 of the refresh blob is kept or re-wrapped; the blob still splits into the same other parts. */
  ghost predicate RefreshKept(ring: Keyring, was: OAuth, now: OAuth) {
    || now.refresh == was.refresh
    || (var (p, q) := (RefreshParts(was), RefreshParts(now));
        && |p| == 3 && |q| == 3 && q[1] == p[1] && q[2] == p[2] && FieldKept(ring, p[0], q[0]))
  }

  ghost predicate AccessKept(ring: Keyring, was: OAuth, now: OAuth) {
    || now.dek == was.dek
    || (HasAccessDek(was) && HasAccessDek(now) && FieldKept(ring, was.dek.value, now.dek.value))
  }

  ghost predicate OAuthKept(ring: Keyring, was: OAuth, now: OAuth) {
    && now == was.(dek := now.dek, refresh := now.refresh)
    && AccessKept(ring, was, now) && RefreshKept(ring, was, now)
    && (was.scheme != V2 ==> now == was)
  }

  ghost predicate OAuthsKept(ring: Keyring, was: seq<OAuth>, now: seq<OAuth>) {
    |now| == |was| && forall j :: 0 <= j < |was| ==> OAuthKept(ring, was[j], now[j])
  }

  predicate OAuthDone(ring: Keyring, row: OAuth) {
    row.scheme == V2 ==>
      && (row.dek.GetOr("") != "" ==> OpensLocally(ring, row.dek.value))
      && (RefreshParts(row) != [] ==> |RefreshParts(row)| == 3 && OpensLocally(ring, RefreshParts(row)[0]))
  }

  /** Joining a new first part to two old ones gives a blob that splits into exactly those parts. */
  lemma Rejoined(row: OAuth, text: string)
    requires '|' !in text && |RefreshParts(row)| == 3
    ensures var p := RefreshParts(row);
      RefreshParts(row.(refresh := Some(Join([text, p[1], p[2]], "|")))) == [text, p[1], p[2]]
  {
    var p := RefreshParts(row);
    SplitParts(row.refresh.GetOr(""), '|');
    SplitJoin([text, p[1], p[2]], '|');
    var joined := Join([text, p[1], p[2]], "|");
    assert joined[|text|] == '|';
  }

  lemma AccessJudged(ring: Keyring, luck: Luck, i: nat, row: OAuth)
    requires Sound(ring) && Wraps(ring, luck) && row.scheme == V2
    ensures var access := AccessOutcome(ring, luck, i, row); var now := WithAccess(row, access);
      && AccessKept(ring, row, now)
      && (HasAccessDek(now) && access != Some(Error) ==> OpensLocally(ring, now.dek.value))
      && (HasAccessDek(row) && OpensLocally(ring, row.dek.value) ==> access == Some(IsLocal))
  {
    if row.dek.GetOr("") != "" {
      RewrapFieldKept(ring, luck, 2 * i, row.dek.value);
    }
  }

  lemma RefreshJudged(ring: Keyring, luck: Luck, i: nat, row: OAuth)
    requires Sound(ring) && Wraps(ring, luck)
    ensures var refresh := RefreshOutcome(ring, luck, i, row); var now := WithRefresh(row, refresh);
      && RefreshKept(ring, row, now)
      && (RefreshParts(now) != [] && refresh != Some(Error) ==>
            |RefreshParts(now)| == 3 && OpensLocally(ring, RefreshParts(now)[0]))
      && (|RefreshParts(row)| == 3 && OpensLocally(ring, RefreshParts(row)[0]) ==> refresh == Some(IsLocal))
  {
    var parts := RefreshParts(row);
    if |parts| == 3 {
      RewrapFieldKept(ring, luck, 2 * i + 1, parts[0]);
      RewrapKeepsKey(ring, luck, 2 * i + 1, parts[0]);
      var refresh := RefreshOutcome(ring, luck, i, row);
      if IsFresh(refresh) {
        Rejoined(row, refresh.value.text);
      }
    }
  }

  lemma OAuthJudged(ring: Keyring, luck: Luck, i: nat, row: OAuth)
    requires Sound(ring) && Wraps(ring, luck)
    ensures var v := OAuthJudge(ring, luck)(i, row);
      && OAuthKept(ring, row, v.after)
      && (v.mark !in {Rewrapped, Failed} ==> v.after == row)
      && (v.mark != Failed ==> OAuthDone(ring, v.after))
      && (v.mark == Rewrapped ==> v.checksBatch)
      && v.mark != NoDek
      && (OAuthDone(ring, row) ==> v.mark !in {Rewrapped, Failed})
  {
    var access, refresh := AccessOutcome(ring, luck, i, row), RefreshOutcome(ring, luck, i, row);
    RefreshJudged(ring, luck, i, row);
    if row.scheme == V2 {
      AccessJudged(ring, luck, i, row);
      var after := WithRefresh(WithAccess(row, access), refresh);
      assert after.dek == WithAccess(row, access).dek && after.refresh == WithRefresh(row, refresh).refresh;
    }
  }

  lemma OAuthJudgeFacts(ring: Keyring, luck: Luck)
    requires Sound(ring) && Wraps(ring, luck)
    ensures var judge := OAuthJudge(ring, luck);
      && ChecksRewrapped(judge)
      && forall i, r :: judge(i, r).mark !in {Rewrapped, Failed} ==> judge(i, r).after == r
  {
    forall i: nat, r: OAuth
      ensures var v := OAuthJudge(ring, luck)(i, r);
        (v.mark == Rewrapped ==> v.checksBatch) && (v.mark !in {Rewrapped, Failed} ==> v.after == r)
    {
      OAuthJudged(ring, luck, i, r);
    }
  }

  lemma OAuthKeptTransitive(ring: Keyring, a: OAuth, b: OAuth, c: OAuth)
    requires OAuthKept(ring, a, b) && OAuthKept(ring, b, c)
    ensures OAuthKept(ring, a, c)
  {
  }

  /**
   * Wherever a committing run ends, failures or not, both stored keys of every token still open to their
   * original keys, and everything else, with the other two parts of the refresh blob, is unchanged.
   */
  lemma OAuthCrashSafe(ring: Keyring, luck: Luck, rows: seq<OAuth>, batch: int, stop: Stop)
    requires Sound(ring) && Wraps(ring, luck)
    ensures OAuthsKept(ring, rows, Stored(OAuthJudge(ring, luck), rows, batch, stop))
  {
    OAuthJudgeFacts(ring, luck);
    EndStores(OAuthJudge(ring, luck), rows, batch, stop);
    forall j | 0 <= j < |rows|
      ensures OAuthKept(ring, rows[j], OAuthJudge(ring, luck)(j, rows[j]).after)
    {
      OAuthJudged(ring, luck, j, rows[j]);
    }
  }

  ghost function OAuthAfterAttempts(ring: Keyring, attempts: seq<Attempt>, rows: seq<OAuth>): seq<OAuth>
    decreases attempts
  {
    if attempts == [] then rows
    else
      var a := attempts[0];
      OAuthAfterAttempts(ring, attempts[1..], Stored(OAuthJudge(ring, a.luck), rows, a.batch, a.stop))
  }

  lemma {:induction false} OAuthAttemptsKeep(ring: Keyring, attempts: seq<Attempt>, rows: seq<OAuth>)
    requires Sound(ring) && forall a :: a in attempts ==> Wraps(ring, a.luck)
    ensures OAuthsKept(ring, rows, OAuthAfterAttempts(ring, attempts, rows))
    decreases attempts
  {
    if attempts != [] {
      var a := attempts[0];
      var next := Stored(OAuthJudge(ring, a.luck), rows, a.batch, a.stop);
      assert a in attempts && forall b :: b in attempts[1..] ==> b in attempts;
      OAuthCrashSafe(ring, a.luck, rows, a.batch, a.stop);
      OAuthAttemptsKeep(ring, attempts[1..], next);
      var end := OAuthAfterAttempts(ring, attempts[1..], next);
      forall j | 0 <= j < |rows| ensures OAuthKept(ring, rows[j], end[j]) {
        OAuthKeptTransitive(ring, rows[j], next[j], end[j]);
      }
    }
  }

  lemma OAuthRunCompletes(ring: Keyring, luck: Luck, rows: seq<OAuth>, batch: int)
    requires Sound(ring) && Wraps(ring, luck)
    requires Run(OAuthJudge(ring, luck), rows, true, batch).counters.failed == 0
    ensures var done := Run(OAuthJudge(ring, luck), rows, true, batch).durable;
      OAuthsKept(ring, rows, done) && forall j :: 0 <= j < |done| ==> OAuthDone(ring, done[j])
  {
    var judge := OAuthJudge(ring, luck);
    OAuthJudgeFacts(ring, luck);
    RunStores(judge, rows, batch);
    CountersShape(judge, rows, true, batch, |rows|);
    NoneMarked(judge, rows, 0, |rows|, Failed);
    forall j | 0 <= j < |rows|
      ensures judge(j, rows[j]).mark != Failed && OAuthKept(ring, rows[j], judge(j, rows[j]).after)
           && OAuthDone(ring, judge(j, rows[j]).after)
    {
      OAuthJudged(ring, luck, j, rows[j]);
    }
  }

  /**
   * After any number of runs, cut off or finished with failures, a run without failures leaves every data
   * key of every token wrapped locally and standing for its original key; the other two parts of each
   * refresh blob and all other columns are as they were.
   */
  lemma OAuthConvergence(ring: Keyring, attempts: seq<Attempt>, rows: seq<OAuth>, last: Attempt)
    requires Sound(ring) && (forall a :: a in attempts ==> Wraps(ring, a.luck)) && Wraps(ring, last.luck)
    requires Run(OAuthJudge(ring, last.luck), OAuthAfterAttempts(ring, attempts, rows), true, last.batch)
               .counters.failed == 0
    ensures
      var left := OAuthAfterAttempts(ring, attempts, rows);
      var resumed := Run(OAuthJudge(ring, last.luck), left, true, last.batch).durable;
      OAuthsKept(ring, rows, resumed) && forall j :: 0 <= j < |rows| ==> OAuthDone(ring, resumed[j])
  {
    var stored := OAuthAfterAttempts(ring, attempts, rows);
    OAuthAttemptsKeep(ring, attempts, rows);
    OAuthRunCompletes(ring, last.luck, stored, last.batch);
    var resumed := Run(OAuthJudge(ring, last.luck), stored, true, last.batch).durable;
    forall j | 0 <= j < |rows| ensures OAuthKept(ring, rows[j], resumed[j]) {
      OAuthKeptTransitive(ring, rows[j], stored[j], resumed[j]);
    }
  }

  lemma OAuthIdempotent(ring: Keyring, first: Attempt, second: Attempt, rows: seq<OAuth>)
    requires Sound(ring) && Wraps(ring, first.luck) && Wraps(ring, second.luck)
    requires Run(OAuthJudge(ring, first.luck), rows, true, first.batch).counters.failed == 0
    ensures
      var done := Run(OAuthJudge(ring, first.luck), rows, true, first.batch).durable;
      var again := Run(OAuthJudge(ring, second.luck), done, true, second.batch);
      again.durable == done && again.counters.rewrapped == 0 && again.counters.failed == 0
  {
    var done := Run(OAuthJudge(ring, first.luck), rows, true, first.batch).durable;
    var judge := OAuthJudge(ring, second.luck);
    OAuthRunCompletes(ring, first.luck, rows, first.batch);
    forall j | 0 <= j < |done|
      ensures judge(j, done[j]).mark !in {Rewrapped, Failed} && judge(j, done[j]).after == done[j]
    {
      OAuthJudged(ring, second.luck, j, done[j]);
    }
    OAuthJudgeFacts(ring, second.luck);
    RunStores(judge, done, second.batch);
    CountersShape(judge, done, true, second.batch, |done|);
    NoneMarked(judge, done, 0, |done|, Rewrapped);
    NoneMarked(judge, done, 0, |done|, Failed);
  }

  /** Every scanned token is rewrapped, already local or failed; a missing data key is counted beside that. */
  lemma {:induction false} OAuthAccounting(ring: Keyring, luck: Luck, rows: seq<OAuth>,
                                           commit: bool, batch: int, k: nat)
    requires Sound(ring) && Wraps(ring, luck) && k <= |rows|
    ensures var p := Upto(OAuthJudge(ring, luck), rows, commit, batch, k); var c := p.counters;
      && c.scanned == c.rewrapped + c.alreadyLocal + c.failed
      && (commit && batch >= 1 ==> p.pending < batch)
      && (commit ==> Run(OAuthJudge(ring, luck), rows, commit, batch).pending == 0)
  {
    var judge := OAuthJudge(ring, luck);
    CountersShape(judge, rows, commit, batch, k);
    forall j | 0 <= j < k ensures judge(j, rows[j]).mark != NoDek {
      OAuthJudged(ring, luck, j, rows[j]);
    }
    NoneMarked(judge, rows, 0, k, NoDek);
    OAuthJudgeFacts(ring, luck);
    CommitShape(judge, rows, batch, k);
    CommitShape(judge, rows, batch, |rows|);
  }

  // ---- When a token is re-wrapped, and when a run has no failures ----

  ghost predicate Settled(ring: Keyring, luck: Luck, t: nat, text: string) {
    OpensLocally(ring, text) || Movable(ring, luck, t, text)
  }

  /** The refresh blob is three parts between two bars. */
  ghost predicate InThreeParts(blob: string, key: string, nonce: string, ciphertext: string) {
    blob == key + "|" + nonce + "|" + ciphertext && '|' !in key && '|' !in nonce && '|' !in ciphertext
  }

  lemma JoinParts(a: string, b: string, c: string)
    ensures Join([a, b, c], "|") == a + "|" + b + "|" + c
  {
    assert [b, c][1..] == [c] && [a, b, c][1..] == [b, c];
    assert Join([b, c], "|") == b + "|" + c;
    Bars(a, b, c);
  }

  lemma Bars(a: string, b: string, c: string)
    ensures a + "|" + (b + "|" + c) == a + "|" + b + "|" + c
  {
  }

  lemma PartsOf(row: OAuth, key: string, nonce: string, ciphertext: string)
    requires InThreeParts(row.refresh.GetOr(""), key, nonce, ciphertext)
    ensures RefreshParts(row) == [key, nonce, ciphertext]
  {
    JoinParts(key, nonce, ciphertext);
    assert row.refresh.GetOr("")[|key|] == '|';
    SplitJoin([key, nonce, ciphertext], '|');
  }

  lemma ThreeParts(row: OAuth)
    requires |RefreshParts(row)| == 3
    ensures var p := RefreshParts(row); InThreeParts(row.refresh.GetOr(""), p[0], p[1], p[2])
  {
    var p := RefreshParts(row);
    SplitParts(row.refresh.GetOr(""), '|');
    assert p == [p[0], p[1], p[2]];
    JoinParts(p[0], p[1], p[2]);
  }

  /** A blob with a bar that is not three parts is malformed; one without a bar is not looked at. */
  lemma MalformedIff(row: OAuth)
    ensures RefreshParts(row) == [] <==> '|' !in row.refresh.GetOr("")
    ensures |RefreshParts(row)| == 3 <==>
      exists key, nonce, ciphertext :: InThreeParts(row.refresh.GetOr(""), key, nonce, ciphertext)
  {
    if key, nonce, ciphertext :| InThreeParts(row.refresh.GetOr(""), key, nonce, ciphertext) {
      PartsOf(row, key, nonce, ciphertext);
    }
    if |RefreshParts(row)| == 3 {
      ThreeParts(row);
    }
  }

  ghost predicate RefreshSettled(ring: Keyring, luck: Luck, i: nat, row: OAuth) {
    exists key, nonce, ciphertext ::
      InThreeParts(row.refresh.GetOr(""), key, nonce, ciphertext) && Settled(ring, luck, 2 * i + 1, key)
  }

  /** Both keys of a token are local, or can be moved on this run, and the refresh blob is well formed. */
  ghost predicate TokenMovable(ring: Keyring, luck: Luck, i: nat, row: OAuth) {
    && (row.dek.GetOr("") != "" ==> Settled(ring, luck, 2 * i, row.dek.value))
    && ('|' in row.refresh.GetOr("") ==> RefreshSettled(ring, luck, i, row))
  }

  lemma AccessOutcomeIff(ring: Keyring, luck: Luck, i: nat, row: OAuth)
    ensures var access := AccessOutcome(ring, luck, i, row);
      && (access == Some(Error) <==> row.dek.GetOr("") != "" && !Settled(ring, luck, 2 * i, row.dek.value))
      && (IsFresh(access) <==>
            && row.dek.GetOr("") != "" && !OpensLocally(ring, row.dek.value)
            && Movable(ring, luck, 2 * i, row.dek.value))
  {
    if row.dek.GetOr("") != "" {
      OutcomeIff(ring, luck, 2 * i, row.dek.value);
    }
  }

  /** The refresh token's key needs to be moved, and can be. */
  ghost predicate RefreshMoves(ring: Keyring, luck: Luck, i: nat, row: OAuth) {
    exists key, nonce, ciphertext ::
      && InThreeParts(row.refresh.GetOr(""), key, nonce, ciphertext)
      && !OpensLocally(ring, key) && Movable(ring, luck, 2 * i + 1, key)
  }

  lemma RefreshOutcomeIff(ring: Keyring, luck: Luck, i: nat, row: OAuth)
    ensures var refresh := RefreshOutcome(ring, luck, i, row);
      && (refresh == Some(Error) <==> '|' in row.refresh.GetOr("") && !RefreshSettled(ring, luck, i, row))
      && (IsFresh(refresh) <==> RefreshMoves(ring, luck, i, row))
  {
    MalformedIff(row);
    var blob := row.refresh.GetOr("");
    forall key, nonce, ciphertext | InThreeParts(blob, key, nonce, ciphertext)
      ensures RefreshParts(row) == [key, nonce, ciphertext]
    {
      PartsOf(row, key, nonce, ciphertext);
    }
    if |RefreshParts(row)| == 3 {
      OutcomeIff(ring, luck, 2 * i + 1, RefreshParts(row)[0]);
      var key, nonce, ciphertext :| InThreeParts(blob, key, nonce, ciphertext);
      assert InThreeParts(blob, RefreshParts(row)[0], nonce, ciphertext);
    }
  }

  /** How a token is judged, by the services and the text of its two fields alone. */
  lemma TokenMarkIff(ring: Keyring, luck: Luck, i: nat, row: OAuth)
    ensures var v := OAuthJudge(ring, luck)(i, row);
      && (v.mark == Unscanned <==> row.scheme != V2)
      && (v.mark == Failed <==> row.scheme == V2 && !TokenMovable(ring, luck, i, row))
      && (v.mark == Rewrapped <==>
            && row.scheme == V2 && TokenMovable(ring, luck, i, row)
            && ((row.dek.GetOr("") != "" && !OpensLocally(ring, row.dek.value)) || RefreshMoves(ring, luck, i, row)))
      && (v.missing <==> row.scheme == V2 && row.dek in {None, Some("")})
  {
    AccessOutcomeIff(ring, luck, i, row);
    RefreshOutcomeIff(ring, luck, i, row);
  }

  ghost predicate TokensMovable(ring: Keyring, luck: Luck, rows: seq<OAuth>) {
    forall j: nat :: j < |rows| && rows[j].scheme == V2 ==> TokenMovable(ring, luck, j, rows[j])
  }

  /** A run over the tokens has no failures exactly when both keys of every token are local or can be moved. */
  lemma OAuthRunFailsIff(ring: Keyring, luck: Luck, rows: seq<OAuth>, commit: bool, batch: int)
    ensures Run(OAuthJudge(ring, luck), rows, commit, batch).counters.failed == 0
      <==> TokensMovable(ring, luck, rows)
  {
    var judge := OAuthJudge(ring, luck);
    CountersShape(judge, rows, commit, batch, |rows|);
    NoneMarked(judge, rows, 0, |rows|, Failed);
    forall j: nat | j < |rows|
      ensures judge(j, rows[j]).mark == Failed <==> rows[j].scheme == V2 && !TokenMovable(ring, luck, j, rows[j])
    {
      TokenMarkIff(ring, luck, j, rows[j]);
    }
  }

  /** A token kept by earlier runs can still be moved, if it could. */
  lemma KeptTokenMovable(ring: Keyring, luck: Luck, i: nat, was: OAuth, now: OAuth)
    requires OAuthKept(ring, was, now) && TokenMovable(ring, luck, i, was)
    ensures TokenMovable(ring, luck, i, now)
  {
    MalformedIff(was);
    MalformedIff(now);
    if now.refresh != was.refresh {
      var (p, q) := (RefreshParts(was), RefreshParts(now));
      var key, nonce, ciphertext :| InThreeParts(was.refresh.GetOr(""), key, nonce, ciphertext)
                                    && Settled(ring, luck, 2 * i + 1, key);
      PartsOf(was, key, nonce, ciphertext);
      var key', nonce', ciphertext' :| InThreeParts(now.refresh.GetOr(""), key', nonce', ciphertext');
      PartsOf(now, key', nonce', ciphertext');
      assert Settled(ring, luck, 2 * i + 1, key');
    }
  }

  /**
   * After any history, one more run completes the migration if AWS answers and opens, and the local key wraps,
   * every key of the original tokens that was not local, and no refresh blob was malformed.
   */
  lemma TokensMigrate(ring: Keyring, attempts: seq<Attempt>, rows: seq<OAuth>, last: Attempt)
    requires Sound(ring) && (forall a :: a in attempts ==> Wraps(ring, a.luck)) && Wraps(ring, last.luck)
    requires TokensMovable(ring, last.luck, rows)
    ensures var end := Run(OAuthJudge(ring, last.luck), OAuthAfterAttempts(ring, attempts, rows), true, last.batch);
      && end.counters.failed == 0 && OAuthsKept(ring, rows, end.durable)
      && forall j :: 0 <= j < |rows| ==> OAuthDone(ring, end.durable[j])
  {
    var stored := OAuthAfterAttempts(ring, attempts, rows);
    OAuthAttemptsKeep(ring, attempts, rows);
    forall j: nat | j < |stored| && stored[j].scheme == V2
      ensures TokenMovable(ring, last.luck, j, stored[j])
    {
      assert OAuthKept(ring, rows[j], stored[j]);
      KeptTokenMovable(ring, last.luck, j, rows[j], stored[j]);
    }
    OAuthRunFailsIff(ring, last.luck, stored, true, last.batch);
    OAuthConvergence(ring, attempts, rows, last);
  }

  // ---- Changes that no commit takes ----

  lemma FreshAccessChanges(ring: Keyring, luck: Luck, i: nat, row: OAuth)
    requires Sound(ring) && Wraps(ring, luck)
    ensures IsFresh(AccessOutcome(ring, luck, i, row))
      <==> WithAccess(row, AccessOutcome(ring, luck, i, row)).dek != row.dek
  {
    if IsFresh(AccessOutcome(ring, luck, i, row)) {
      RewrapFieldKept(ring, luck, 2 * i, row.dek.value);
    }
  }

  lemma RejoinedDiffers(row: OAuth, text: string)
    requires '|' !in text && |RefreshParts(row)| == 3 && text != RefreshParts(row)[0]
    ensures WithRefresh(row, Some(Fresh(text))).refresh != row.refresh
  {
    Rejoined(row, text);
    assert RefreshParts(WithRefresh(row, Some(Fresh(text))))[0] == text;
  }

  lemma FreshRefreshChanges(ring: Keyring, luck: Luck, i: nat, row: OAuth)
    requires Sound(ring) && Wraps(ring, luck)
    ensures IsFresh(RefreshOutcome(ring, luck, i, row))
      <==> WithRefresh(row, RefreshOutcome(ring, luck, i, row)).refresh != row.refresh
  {
    var refresh := RefreshOutcome(ring, luck, i, row);
    if IsFresh(refresh) {
      RewrapKeepsKey(ring, luck, 2 * i + 1, RefreshParts(row)[0]);
      RejoinedDiffers(row, refresh.value.text);
    }
  }

  /** One of a token's keys was re-wrapped and the other failed. */
  predicate HalfFailed(ring: Keyring, luck: Luck, i: nat, row: OAuth) {
    var access, refresh := AccessOutcome(ring, luck, i, row), RefreshOutcome(ring, luck, i, row);
    && row.scheme == V2
    && ((IsFresh(access) && refresh == Some(Error)) || (access == Some(Error) && IsFresh(refresh)))
  }

  /** A failed token is changed all the same exactly when it failed by half. */
  lemma FailedButChangedIff(ring: Keyring, luck: Luck, i: nat, row: OAuth)
    requires Sound(ring) && Wraps(ring, luck)
    ensures var v := OAuthJudge(ring, luck)(i, row);
      v.mark == Failed && v.after != row <==> HalfFailed(ring, luck, i, row)
  {
    var access, refresh := AccessOutcome(ring, luck, i, row), RefreshOutcome(ring, luck, i, row);
    var after := WithRefresh(WithAccess(row, access), refresh);
    assert after.dek == WithAccess(row, access).dek && after.refresh == WithRefresh(row, refresh).refresh;
    assert after == row.(dek := after.dek, refresh := after.refresh);
    FreshAccessChanges(ring, luck, i, row);
    FreshRefreshChanges(ring, luck, i, row);
  }

  /**
   * At the end of a committing run the session holds a change that the store never gets exactly when a
   * token half re-wrapped, half failed has no rewrapped token after it and the rewrapped ones fill whole
   * batches. The stored row is then simply the old one.
   */
  lemma TokenStrandedIff(ring: Keyring, luck: Luck, rows: seq<OAuth>, batch: int)
    requires Sound(ring) && Wraps(ring, luck)
    ensures var p := Run(OAuthJudge(ring, luck), rows, true, batch);
      p.durable != p.working <==>
        exists j :: 0 <= j < |rows|
          && HalfFailed(ring, luck, j, rows[j]) && NoCommitFrom(OAuthJudge(ring, luck), rows, batch, j)
  {
    var judge := OAuthJudge(ring, luck);
    OAuthJudgeFacts(ring, luck);
    StoreMissesIff(judge, rows, batch);
    forall j | 0 <= j < |rows|
      ensures Stranded(judge, rows, batch, j)
        <==> (HalfFailed(ring, luck, j, rows[j]) && NoCommitFrom(judge, rows, batch, j))
    {
      FailedButChangedIff(ring, luck, j, rows[j]);
    }
  }

  /** With wallets this never happens: a failed wallet is not changed. */
  lemma WalletsNeverStranded(ring: Keyring, luck: Luck, rows: seq<Wallet>, batch: int)
    requires Sound(ring) && Wraps(ring, luck)
    ensures var p := Run(WalletJudge(ring, luck), rows, true, batch); p.durable == p.working
  {
    WalletJudgeFacts(ring, luck);
    StoreMissesIff(WalletJudge(ring, luck), rows, batch);
    forall j | 0 <= j < |rows|
      ensures !Stranded(WalletJudge(ring, luck), rows, batch, j)
    {
      WalletJudged(ring, luck, j, rows[j]);
    }
  }

  /** It does happen: a table of one such token. */
  lemma FailedTokenStaysUncommitted(ring: Keyring, luck: Luck, row: OAuth, batch: int)
    requires row.scheme == V2 && IsFresh(AccessOutcome(ring, luck, 0, row))
    requires |RefreshParts(row)| == 2 && batch >= 1
    ensures var p := Run(OAuthJudge(ring, luck), [row], true, batch);
      && p.counters.failed == 1 && p.counters.rewrapped == 0
      && p.durable == [row] && p.working == [WithAccess(row, AccessOutcome(ring, luck, 0, row))]
  {
    var judge := OAuthJudge(ring, luck);
    assert judge(0, row) == JudgeOAuth(ring, luck, 0, row);
    assert Upto(judge, [row], true, batch, 0) == Progress([row], [row], ZERO, 0);
    assert [row][0 := judge(0, row).after] == [judge(0, row).after];
  }
}
