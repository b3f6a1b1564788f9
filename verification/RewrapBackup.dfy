/** scripts/rewrap_backup_keys_to_aws.py: exported backup keys are encrypted again under AWS, in batches. */
module RewrapBackup {
  import opened Text
  import opened Options

  /** The six columns that hold one encrypted private key. */
  datatype Envelope = Envelope(
    ciphertext: string, scheme: Option<string>, dek: Option<string>, nonce: Option<string>,
    keyId: Option<string>, version: Option<int>)

  datatype Wallet = Wallet(id: int, exported: bool, secret: Envelope)

  /**
   * The key services and the target key id. `local` decrypts what is stored now and `aws` what AWS
   * wraps; either may refuse. Sealing may fail or go wrong, and AWS may not answer for row `i`.
   */
  datatype Services = Services(
    local: Envelope -> Option<string>, aws: Envelope -> Option<string>, target: string)

  datatype Luck = Luck(seal: (nat, string) -> Option<Envelope>, answers: nat -> bool)

  /** `_is_aws_wrapped`, and the negation of the query's filter on the key id. */
  predicate IsAwsWrapped(keyId: Option<string>) {
    var kid := keyId.GetOr("");
    StartsWith(kid, "arn:aws") || StartsWith(kid, "alias/")
  }

  /** The key ids that count as AWS's: ARNs and aliases, and nothing else. */
  lemma RecognisedIff(keyId: Option<string>)
    ensures IsAwsWrapped(keyId)
      <==> exists rest :: keyId == Some("arn:aws" + rest) || keyId == Some("alias/" + rest)
  {
    if keyId.Some? {
      var kid := keyId.value;
      if StartsWith(kid, "arn:aws") {
        assert kid == "arn:aws" + kid[7..];
      }
      if StartsWith(kid, "alias/") {
        assert kid == "alias/" + kid[6..];
      }
    }
    if rest :| keyId == Some("arn:aws" + rest) || keyId == Some("alias/" + rest) {
      assert ("arn:aws" + rest)[..7] == "arn:aws" && ("alias/" + rest)[..6] == "alias/";
    }
  }

  predicate InBacklog(w: Wallet) {
    w.exported && !IsAwsWrapped(w.secret.keyId)
  }

  function Backlog(rows: seq<Wallet>): set<nat> {
    set i: nat | i < |rows| && InBacklog(rows[i])
  }

  /** What encrypting under AWS stores: the scheme, version and key id are fixed. */
  function Sealed(s: Services, luck: Luck, i: nat, plaintext: string): Option<Envelope> {
    match luck.seal(i, plaintext)
    case None => None
    case Some(e) => Some(e.(scheme := Some("kms_aesgcm_v2"), keyId := Some(s.target), version := Some(1)))
  }

  datatype Mark = AlreadyAws | Failed | Migrated
  datatype Verdict = Verdict(mark: Mark, after: Wallet)

  /** The loop body: nothing is written that AWS did not decrypt back to the same plaintext. */
  function Judge(s: Services, luck: Luck, i: nat, w: Wallet): Verdict {
    if IsAwsWrapped(w.secret.keyId) then Verdict(AlreadyAws, w)
    else
      var plaintext := s.local(w.secret);
      if plaintext.None? then Verdict(Failed, w)
      else
        var fields := Sealed(s, luck, i, plaintext.value);
        if fields.None? || !luck.answers(i) || s.aws(fields.value) != plaintext then Verdict(Failed, w)
        else Verdict(Migrated, w.(secret := fields.value))
  }

  /** The envelope that a seal is stored as. */
  predicate StoredAs(sealed: Envelope, target: string, e: Envelope) {
    && e.ciphertext == sealed.ciphertext && e.dek == sealed.dek && e.nonce == sealed.nonce
    && e.scheme == Some("kms_aesgcm_v2") && e.keyId == Some(target) && e.version == Some(1)
  }

  /** The services can move a row: its key opens locally, is sealed, and AWS answers and opens the seal to it. */
  ghost predicate Movable(s: Services, luck: Luck, i: nat, w: Wallet) {
    exists plaintext, sealed, e ::
      && s.local(w.secret) == Some(plaintext) && luck.seal(i, plaintext) == Some(sealed)
      && StoredAs(sealed, s.target, e) && luck.answers(i) && s.aws(e) == Some(plaintext)
  }

  /** How a row is judged, by its key id and the services alone, and what a migrated row holds. */
  lemma JudgedIff(s: Services, luck: Luck, i: nat, w: Wallet)
    ensures var v := Judge(s, luck, i, w);
      && (v.mark == AlreadyAws <==> IsAwsWrapped(w.secret.keyId))
      && (v.mark == Migrated <==> !IsAwsWrapped(w.secret.keyId) && Movable(s, luck, i, w))
      && (v.mark == Migrated ==>
            && v.after == w.(secret := v.after.secret) && s.local(w.secret).Some?
            && luck.seal(i, s.local(w.secret).value).Some?
            && StoredAs(luck.seal(i, s.local(w.secret).value).value, s.target, v.after.secret))
  {
    var v := Judge(s, luck, i, w);
    if v.mark == Migrated {
      var plaintext := s.local(w.secret).value;
      assert StoredAs(luck.seal(i, plaintext).value, s.target, v.after.secret);
    }
    if plaintext, sealed, e :|
      && s.local(w.secret) == Some(plaintext) && luck.seal(i, plaintext) == Some(sealed)
      && StoredAs(sealed, s.target, e) && luck.answers(i) && s.aws(e) == Some(plaintext) {
      assert Sealed(s, luck, i, plaintext) == Some(e);
    }
  }

  function SetOf(pick: seq<nat>): set<nat> {
    set i | i in pick
  }

  ghost predicate Distinct(pick: seq<nat>) {
    forall j, k :: 0 <= j < k < |pick| ==> pick[j] != pick[k]
  }

  function Least(a: nat, b: nat): nat {
    if a <= b then a else b
  }

  /** A limited query without an order may return any of the matching rows; limit 0 means all of them. */
  ghost predicate Picked(rows: seq<Wallet>, limit: nat, pick: seq<nat>) {
    && Distinct(pick) && SetOf(pick) <= Backlog(rows)
    && |pick| == if limit == 0 then |Backlog(rows)| else Least(limit, |Backlog(rows)|)
  }

  /** The rows after a run. */
  function After(s: Services, luck: Luck, rows: seq<Wallet>, pick: seq<nat>, apply: bool): (r: seq<Wallet>)
    ensures |r| == |rows|
  {
    seq(|rows|, i requires 0 <= i < |rows| => if apply && i in pick then Judge(s, luck, i, rows[i]).after else rows[i])
  }

  function Marked(s: Services, luck: Luck, rows: seq<Wallet>, pick: seq<nat>, mark: Mark): nat
    requires forall k :: 0 <= k < |pick| ==> pick[k] < |rows|
  {
    if pick == [] then 0
    else
      var i := pick[|pick| - 1];
      Marked(s, luck, rows, pick[..|pick| - 1], mark) + if Judge(s, luck, i, rows[i]).mark == mark then 1 else 0
  }

  /** One run over the rows the query returned. */
  method Rewrap(s: Services, luck: Luck, table: array<Wallet>, pick: seq<nat>, apply: bool)
    returns (scanned: nat, migrated: nat, skippedDone: nat, failed: nat, exit: int)
    requires Distinct(pick) && forall k :: 0 <= k < |pick| ==> pick[k] < table.Length
    modifies table
    ensures table[..] == After(s, luck, old(table[..]), pick, apply)
    ensures scanned == |pick| && migrated == Marked(s, luck, old(table[..]), pick, Migrated)
    ensures skippedDone == Marked(s, luck, old(table[..]), pick, AlreadyAws)
    ensures failed == Marked(s, luck, old(table[..]), pick, Failed)
    ensures exit == if failed > 0 then 1 else 0
  {
    ghost var rows := table[..];
    scanned, migrated, skippedDone, failed := 0, 0, 0, 0;
    while scanned < |pick|
      invariant 0 <= scanned <= |pick|
      invariant migrated == Marked(s, luck, rows, pick[..scanned], Migrated)
      invariant skippedDone == Marked(s, luck, rows, pick[..scanned], AlreadyAws)
      invariant failed == Marked(s, luck, rows, pick[..scanned], Failed)
      invariant forall i :: 0 <= i < table.Length ==>
        table[i] == if apply && i in pick[..scanned] then Judge(s, luck, i, rows[i]).after else rows[i]
    {
      var i := pick[scanned];
      assert i !in pick[..scanned] && table[i] == rows[i];
      assert pick[..scanned + 1] == pick[..scanned] + [i];
      assert pick[..scanned + 1][..scanned] == pick[..scanned];
      var mark := RewrapRow(s, luck, table, i, apply);
      match mark {
        case AlreadyAws => skippedDone := skippedDone + 1;
        case Failed => failed := failed + 1;
        case Migrated => migrated := migrated + 1;
      }
      scanned := scanned + 1;
    }
    assert pick[..scanned] == pick;
    exit := if failed > 0 then 1 else 0;
  }

  /** The loop body, on the row in place. */
  method RewrapRow(s: Services, luck: Luck, table: array<Wallet>, i: nat, apply: bool) returns (mark: Mark)
    requires i < table.Length
    modifies table
    ensures mark == Judge(s, luck, i, old(table[i])).mark
    ensures table[i] == if apply then Judge(s, luck, i, old(table[i])).after else old(table[i])
    ensures forall k :: 0 <= k < table.Length && k != i ==> table[k] == old(table[k])
  {
    var w := table[i];
    if IsAwsWrapped(w.secret.keyId) {
      return AlreadyAws;
    }
    var plaintext := s.local(w.secret);
    if plaintext.None? {
      return Failed;
    }
    var fields := Sealed(s, luck, i, plaintext.value);
    if fields.None? || !luck.answers(i) {
      return Failed;
    }
    var check := s.aws(fields.value);
    if check != plaintext {
      return Failed;
    }
    if apply {
      table[i] := w.(secret := fields.value);
    }
    return Migrated;
  }

  // ---- No run can brick a key ----

  /** No envelope opens to two different keys. */
  ghost predicate Sound(s: Services) {
    forall e :: s.local(e).Some? && s.aws(e).Some? ==> s.local(e) == s.aws(e)
  }

  /** The plaintext that a stored envelope stands for. */
  function PlaintextOf(s: Services, e: Envelope): Option<string> {
    if s.local(e).Some? then s.local(e) else s.aws(e)
  }

  /** The row is as it was, or AWS decrypts it to its old plaintext and only the six columns changed. */
  ghost predicate Kept(s: Services, was: Wallet, now: Wallet) {
    || now == was
    || (now == was.(secret := now.secret) && PlaintextOf(s, was.secret).Some?
        && s.aws(now.secret) == PlaintextOf(s, was.secret))
  }

  lemma JudgeKeeps(s: Services, luck: Luck, i: nat, w: Wallet)
    requires Sound(s)
    ensures var v := Judge(s, luck, i, w);
      && Kept(s, w, v.after)
      && (v.mark != Migrated ==> v.after == w)
      && (v.mark == Migrated ==>
            && s.local(w.secret).Some? && s.aws(v.after.secret) == s.local(w.secret)
            && v.after.secret.keyId == Some(s.target))
  {
  }

  lemma KeptTransitive(s: Services, a: Wallet, b: Wallet, c: Wallet)
    requires Sound(s) && Kept(s, a, b) && Kept(s, b, c)
    ensures Kept(s, a, c)
  {
  }

  /**
   * One run: the services' luck, the rows the query returned, and whether it writes. All changes are
   * committed together at the end, so a run that is cut off is a run that does not write.
   */
  datatype Run = Run(luck: Luck, limit: nat, pick: seq<nat>, apply: bool)

  function AfterRuns(s: Services, rows: seq<Wallet>, runs: seq<Run>): (r: seq<Wallet>)
    ensures |r| == |rows|
  {
    if runs == [] then rows
    else
      var last := runs[|runs| - 1];
      After(s, last.luck, AfterRuns(s, rows, runs[..|runs| - 1]), last.pick, last.apply)
  }

  /**
   * After any number of runs, whatever the queries return and however often sealing goes wrong or a
   * service fails, every row still holds its plaintext: untouched, or decrypted to it by AWS.
   */
  lemma {:induction false} RunsKeepEveryKey(s: Services, rows: seq<Wallet>, runs: seq<Run>)
    requires Sound(s)
    ensures forall i :: 0 <= i < |rows| ==> Kept(s, rows[i], AfterRuns(s, rows, runs)[i])
  {
    if runs != [] {
      var n := |runs| - 1;
      RunsKeepEveryKey(s, rows, runs[..n]);
      var before := AfterRuns(s, rows, runs[..n]);
      forall i | 0 <= i < |rows|
        ensures Kept(s, rows[i], AfterRuns(s, rows, runs)[i])
      {
        JudgeKeeps(s, runs[n].luck, i, before[i]);
        KeptTransitive(s, rows[i], before[i], AfterRuns(s, rows, runs)[i]);
      }
    }
  }

  // ---- Counting ----

  lemma {:induction false} CountsAddUp(s: Services, luck: Luck, rows: seq<Wallet>, pick: seq<nat>)
    requires forall k :: 0 <= k < |pick| ==> pick[k] < |rows|
    ensures Marked(s, luck, rows, pick, Migrated) + Marked(s, luck, rows, pick, AlreadyAws)
          + Marked(s, luck, rows, pick, Failed) == |pick|
  {
    if pick == [] {
      assert Marked(s, luck, rows, pick, Migrated) == 0;
    } else {
      var i := pick[|pick| - 1];
      CountsAddUp(s, luck, rows, pick[..|pick| - 1]);
      match Judge(s, luck, i, rows[i]).mark
      case AlreadyAws =>
      case Failed =>
      case Migrated =>
    }
  }

  lemma {:induction false} NoneMarkedIff(s: Services, luck: Luck, rows: seq<Wallet>, pick: seq<nat>, mark: Mark)
    requires forall k :: 0 <= k < |pick| ==> pick[k] < |rows|
    ensures Marked(s, luck, rows, pick, mark) == 0
      <==> forall k :: 0 <= k < |pick| ==> Judge(s, luck, pick[k], rows[pick[k]]).mark != mark
  {
    if pick != [] {
      var n := |pick| - 1;
      NoneMarkedIff(s, luck, rows, pick[..n], mark);
      assert forall k :: 0 <= k < n ==> pick[..n][k] == pick[k];
    }
  }

  lemma PickedInside(rows: seq<Wallet>, limit: nat, pick: seq<nat>)
    requires Picked(rows, limit, pick)
    ensures forall k :: 0 <= k < |pick| ==> pick[k] < |rows| && InBacklog(rows[pick[k]])
  {
    forall k | 0 <= k < |pick|
      ensures pick[k] < |rows| && InBacklog(rows[pick[k]])
    {
      assert pick[k] in SetOf(pick);
    }
  }

  /** The query already leaves out what is done, so the check inside the loop never skips a row. */
  lemma NothingIsSkipped(s: Services, luck: Luck, rows: seq<Wallet>, limit: nat, pick: seq<nat>)
    requires Picked(rows, limit, pick)
    ensures forall k :: 0 <= k < |pick| ==> pick[k] < |rows|
    ensures Marked(s, luck, rows, pick, AlreadyAws) == 0
    ensures Marked(s, luck, rows, pick, Migrated) + Marked(s, luck, rows, pick, Failed) == |pick|
  {
    PickedInside(rows, limit, pick);
    CountsAddUp(s, luck, rows, pick);
    NoneMarkedIff(s, luck, rows, pick, AlreadyAws);
  }

  /** A run fails for no row, and exits with 0, exactly when the services can move every row that was picked. */
  lemma RunFailsIff(s: Services, luck: Luck, rows: seq<Wallet>, limit: nat, pick: seq<nat>)
    requires Picked(rows, limit, pick)
    ensures forall k :: 0 <= k < |pick| ==> pick[k] < |rows|
    ensures Marked(s, luck, rows, pick, Failed) == 0 <==> forall k: nat :: k < |pick| ==>
      Movable(s, luck, pick[k], rows[pick[k]])
  {
    PickedInside(rows, limit, pick);
    NothingIsSkipped(s, luck, rows, limit, pick);
    forall k: nat | k < |pick|
      ensures Judge(s, luck, pick[k], rows[pick[k]]).mark == Failed <==> !Movable(s, luck, pick[k], rows[pick[k]])
    {
      JudgedIff(s, luck, pick[k], rows[pick[k]]);
    }
    NoneMarkedIff(s, luck, rows, pick, Failed);
  }

  // ---- Draining ----

  lemma {:induction false} DistinctCard(pick: seq<nat>)
    requires Distinct(pick)
    ensures |SetOf(pick)| == |pick|
  {
    if pick == [] {
      assert SetOf(pick) == {};
    } else {
      var n := |pick| - 1;
      DistinctCard(pick[..n]);
      assert SetOf(pick) == SetOf(pick[..n]) + {pick[n]};
    }
  }

  /** What a writing run takes off the backlog: the rows it migrated, if the filter knows the target. */
  lemma {:induction false} BacklogAfter(s: Services, luck: Luck, rows: seq<Wallet>, pick: seq<nat>)
    ensures var gone := set i: nat | i < |rows| && i in pick && Judge(s, luck, i, rows[i]).mark == Migrated;
      Backlog(After(s, luck, rows, pick, true))
        == if IsAwsWrapped(Some(s.target)) then Backlog(rows) - gone else Backlog(rows)
  {
    var next := After(s, luck, rows, pick, true);
    forall i: nat | i < |rows|
      ensures InBacklog(next[i])
        <==> InBacklog(rows[i])
             && !(IsAwsWrapped(Some(s.target)) && i in pick && Judge(s, luck, i, rows[i]).mark == Migrated)
    {
    }
  }

  /** A run that moves every picked row shrinks the backlog by what it was allowed to take, or not at all. */
  lemma RunShrinks(s: Services, luck: Luck, rows: seq<Wallet>, limit: nat, pick: seq<nat>)
    requires Picked(rows, limit, pick)
    requires forall i: nat :: i < |rows| && i in pick ==> Movable(s, luck, i, rows[i])
    ensures |Backlog(After(s, luck, rows, pick, true))|
      == if IsAwsWrapped(Some(s.target)) then |Backlog(rows)| - |pick| else |Backlog(rows)|
  {
    var gone := set i: nat | i < |rows| && i in pick && Judge(s, luck, i, rows[i]).mark == Migrated;
    PickedInside(rows, limit, pick);
    forall i: nat | i < |rows| && i in pick
      ensures Judge(s, luck, i, rows[i]).mark == Migrated
    {
      JudgedIff(s, luck, i, rows[i]);
    }
    BacklogAfter(s, luck, rows, pick);
    DistinctCard(pick);
    assert gone == SetOf(pick);
    assert |Backlog(rows) - SetOf(pick)| == |Backlog(rows)| - |SetOf(pick)|;
  }

  /** Writing runs with one limit in which the services move every picked row. */
  ghost predicate Smooth(s: Services, rows: seq<Wallet>, runs: seq<Run>, limit: nat) {
    forall k :: 0 <= k < |runs| ==> SmoothRun(s, AfterRuns(s, rows, runs[..k]), runs[k], limit)
  }

  ghost predicate SmoothRun(s: Services, rows: seq<Wallet>, r: Run, limit: nat) {
    && r.apply && Picked(rows, limit, r.pick)
    && forall i: nat :: i < |rows| && i in r.pick ==> Movable(s, r.luck, i, rows[i])
  }

  function Remaining(n: nat, limit: nat, runs: nat): nat {
    if n <= limit * runs then 0 else n - limit * runs
  }

  lemma RemainingNext(n: nat, limit: nat, runs: nat)
    ensures Remaining(n, limit, runs + 1)
      == Remaining(n, limit, runs) - Least(limit, Remaining(n, limit, runs))
  {
    assert limit * (runs + 1) == limit * runs + limit;
  }

  lemma SmoothFront(s: Services, rows: seq<Wallet>, runs: seq<Run>, limit: nat)
    requires runs != [] && Smooth(s, rows, runs, limit)
    ensures var n := |runs| - 1;
      Smooth(s, rows, runs[..n], limit) && SmoothRun(s, AfterRuns(s, rows, runs[..n]), runs[n], limit)
  {
    var n := |runs| - 1;
    forall k | 0 <= k < n
      ensures SmoothRun(s, AfterRuns(s, rows, runs[..n][..k]), runs[..n][k], limit)
    {
      assert runs[..n][..k] == runs[..k];
      assert SmoothRun(s, AfterRuns(s, rows, runs[..k]), runs[k], limit);
    }
  }

  /** With a limit, each run takes that many rows off the backlog until none are left. */
  lemma {:induction false} BacklogIsDrained(s: Services, rows: seq<Wallet>, runs: seq<Run>, limit: nat)
    requires limit > 0 && IsAwsWrapped(Some(s.target)) && Smooth(s, rows, runs, limit)
    ensures |Backlog(AfterRuns(s, rows, runs))| == Remaining(|Backlog(rows)|, limit, |runs|)
  {
    if runs == [] {
      assert Remaining(|Backlog(rows)|, limit, 0) == |Backlog(rows)|;
    } else {
      var n := |runs| - 1;
      SmoothFront(s, rows, runs, limit);
      BacklogIsDrained(s, rows, runs[..n], limit);
      RunShrinks(s, runs[n].luck, AfterRuns(s, rows, runs[..n]), limit, runs[n].pick);
      RemainingNext(|Backlog(rows)|, limit, n);
    }
  }

  function Ceiling(n: nat, limit: nat): nat
    requires limit > 0
  {
    (n + limit - 1) / limit
  }

  lemma NoneRemainIff(n: nat, limit: nat, runs: nat)
    requires limit > 0
    ensures Remaining(n, limit, runs) == 0 <==> runs >= Ceiling(n, limit)
  {
    var q, r := (n + limit - 1) / limit, (n + limit - 1) % limit;
    assert n + limit - 1 == limit * q + r && 0 <= r < limit;
    if runs >= q {
      assert limit * runs >= limit * q;
    } else {
      assert limit * runs <= limit * (q - 1);
      assert limit * (q - 1) == limit * q - limit;
    }
  }

  /** The backlog is empty after exactly as many such runs as the limit goes into it, rounded up. */
  lemma EmptyAfterCeiling(s: Services, rows: seq<Wallet>, runs: seq<Run>, limit: nat)
    requires limit > 0 && IsAwsWrapped(Some(s.target)) && Smooth(s, rows, runs, limit)
    ensures |Backlog(AfterRuns(s, rows, runs))| == 0 <==> |runs| >= Ceiling(|Backlog(rows)|, limit)
  {
    BacklogIsDrained(s, rows, runs, limit);
    NoneRemainIff(|Backlog(rows)|, limit, |runs|);
  }

  /** Without a limit one such run leaves nothing. */
  lemma UnlimitedRunDrains(s: Services, rows: seq<Wallet>, r: Run)
    requires IsAwsWrapped(Some(s.target)) && SmoothRun(s, rows, r, 0)
    ensures |Backlog(After(s, r.luck, rows, r.pick, true))| == 0
  {
    RunShrinks(s, r.luck, rows, 0, r.pick);
  }

  /** Under a target key id that the filter does not know, no run ever shrinks the backlog. */
  lemma {:induction false} UnknownTargetNeverDrains(s: Services, rows: seq<Wallet>, runs: seq<Run>)
    requires !IsAwsWrapped(Some(s.target))
    ensures Backlog(AfterRuns(s, rows, runs)) == Backlog(rows)
  {
    if runs != [] {
      var n := |runs| - 1;
      var before, r := AfterRuns(s, rows, runs[..n]), runs[n];
      UnknownTargetNeverDrains(s, rows, runs[..n]);
      if r.apply {
        BacklogAfter(s, r.luck, before, r.pick);
      } else {
        DryRunChangesNothing(s, r.luck, before, r.pick);
      }
    }
  }

  /** A dry run changes no row, and marks the rows exactly as a writing run does. */
  lemma DryRunChangesNothing(s: Services, luck: Luck, rows: seq<Wallet>, pick: seq<nat>)
    ensures After(s, luck, rows, pick, false) == rows
  {
  }
}
