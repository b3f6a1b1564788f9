/**
 * The batching shared by the migrations of scripts/rewrap_kms_to_local.py: rows are taken in order,
 * changed in the session, counted, and committed whenever enough rewrapped rows are pending.
 */
module BatchRun {
  import opened Queries

  datatype Mark = Unscanned | NoDek | AlreadyLocal | Failed | Rewrapped

  /** What the loop body does to one row. */
  datatype Verdict<R> = Verdict(
    mark: Mark,
    missing: bool,      // counted in skipped_no_dek
    checksBatch: bool,  // reaches the batch-size test at the end of the loop body
    after: R)

  datatype Counters = Counters(scanned: nat, noDek: nat, alreadyLocal: nat, rewrapped: nat, failed: nat)

  /** The committed rows, the session's rows, the counters, and the rewrapped rows not yet committed. */
  datatype Progress<R> = Progress(durable: seq<R>, working: seq<R>, counters: Counters, pending: nat)

  type Judge<!R> = (nat, R) -> Verdict<R>

  const ZERO := Counters(0, 0, 0, 0, 0)

  function Count<R>(c: Counters, v: Verdict<R>): Counters {
    Counters(c.scanned + One(v.mark != Unscanned), c.noDek + One(v.missing),
             c.alreadyLocal + One(v.mark == AlreadyLocal), c.rewrapped + One(v.mark == Rewrapped),
             c.failed + One(v.mark == Failed))
  }

  function Step<R>(p: Progress<R>, i: nat, v: Verdict<R>, commit: bool, batch: int): Progress<R>
    requires i < |p.working|
  {
    var working := if commit then p.working[i := v.after] else p.working;
    var pending := p.pending + One(v.mark == Rewrapped);
    if commit && v.checksBatch && pending >= batch then Progress(working, working, Count(p.counters, v), 0)
    else Progress(p.durable, working, Count(p.counters, v), pending)
  }

  /** The state after the first `k` rows: what a crash at that point leaves is its `durable` part. */
  function Upto<R>(judge: Judge<R>, rows: seq<R>, commit: bool, batch: int, k: nat): (p: Progress<R>)
    requires k <= |rows|
    ensures |p.working| == |rows| && |p.durable| == |rows|
  {
    if k == 0 then Progress(rows, rows, ZERO, 0)
    else Step(Upto(judge, rows, commit, batch, k - 1), k - 1, judge(k - 1, rows[k - 1]), commit, batch)
  }

  function Finish<R>(p: Progress<R>, commit: bool): Progress<R> {
    if commit && p.pending > 0 then Progress(p.working, p.working, p.counters, 0) else p
  }

  /** The state after a whole run. */
  function Run<R>(judge: Judge<R>, rows: seq<R>, commit: bool, batch: int): Progress<R> {
    Finish(Upto(judge, rows, commit, batch, |rows|), commit)
  }

  // ---- What a run means ----

  /** The table with the loop body's effect on the rows below `c` only. */
  function Mixed<R>(judge: Judge<R>, rows: seq<R>, c: nat): seq<R> {
    seq(|rows|, j requires 0 <= j < |rows| => if j < c then judge(j, rows[j]).after else rows[j])
  }

  /** How many of the rows from `lo` up to `hi` get a mark. */
  function Marked<R>(judge: Judge<R>, rows: seq<R>, lo: nat, hi: nat, mark: Mark): nat
    requires lo <= hi <= |rows|
    decreases hi
  {
    if lo == hi then 0
    else Marked(judge, rows, lo, hi - 1, mark) + One(judge(hi - 1, rows[hi - 1]).mark == mark)
  }

  /** Where the last commit took place. */
  ghost function Committed<R>(judge: Judge<R>, rows: seq<R>, commit: bool, batch: int, k: nat): (c: nat)
    requires k <= |rows|
    ensures c <= k
  {
    if k == 0 then 0
    else
      var v := judge(k - 1, rows[k - 1]);
      var p := Upto(judge, rows, commit, batch, k - 1);
      if commit && v.checksBatch && p.pending + One(v.mark == Rewrapped) >= batch then k
      else Committed(judge, rows, commit, batch, k - 1)
  }

  /** A judgment that counts a row as rewrapped always reaches the batch-size test. */
  ghost predicate ChecksRewrapped<R(!new)>(judge: Judge<R>) {
    forall i, r :: judge(i, r).mark == Rewrapped ==> judge(i, r).checksBatch
  }

  /**
   * After `k` rows of a committing run, the session holds the effect on all `k` rows and the store
   * holds it on the rows up to the last commit; the rows in between that count as rewrapped are the
   * pending ones, and they are fewer than a positive batch size.
   */
  lemma {:induction false} CommitShape<R(!new)>(judge: Judge<R>, rows: seq<R>, batch: int, k: nat)
    requires k <= |rows| && ChecksRewrapped(judge)
    ensures var p := Upto(judge, rows, true, batch, k); var c := Committed(judge, rows, true, batch, k);
      && p.working == Mixed(judge, rows, k) && p.durable == Mixed(judge, rows, c)
      && p.pending == Marked(judge, rows, c, k, Rewrapped)
      && (batch >= 1 ==> p.pending < batch)
      && (batch <= 0 ==> p.pending == 0)
  {
    if k == 0 {
      assert Mixed(judge, rows, 0) == rows;
    } else {
      CommitShape(judge, rows, batch, k - 1);
      assert Mixed(judge, rows, k - 1)[k - 1 := judge(k - 1, rows[k - 1]).after] == Mixed(judge, rows, k);
    }
  }

  /** The counters count the marks, whether the run commits or not. */
  lemma {:induction false} CountersShape<R(!new)>(judge: Judge<R>, rows: seq<R>, commit: bool, batch: int, k: nat)
    requires k <= |rows|
    ensures var c := Upto(judge, rows, commit, batch, k).counters;
      && c.alreadyLocal == Marked(judge, rows, 0, k, AlreadyLocal)
      && c.rewrapped == Marked(judge, rows, 0, k, Rewrapped)
      && c.failed == Marked(judge, rows, 0, k, Failed)
      && c.scanned == c.alreadyLocal + c.rewrapped + c.failed + Marked(judge, rows, 0, k, NoDek)
  {
    if k > 0 {
      CountersShape(judge, rows, commit, batch, k - 1);
    }
  }

  /** A dry run writes nothing and reports the counters of a committing run. */
  lemma {:induction false} DryRun<R(!new)>(judge: Judge<R>, rows: seq<R>, batch: int, k: nat)
    requires k <= |rows|
    ensures var dry := Upto(judge, rows, false, batch, k);
      && dry.durable == rows && dry.working == rows
      && dry.counters == Upto(judge, rows, true, batch, k).counters
  {
    if k > 0 {
      DryRun(judge, rows, batch, k - 1);
    }
  }

  lemma {:induction false} NoneMarked<R(!new)>(judge: Judge<R>, rows: seq<R>, lo: nat, hi: nat, mark: Mark)
    requires lo <= hi <= |rows|
    ensures Marked(judge, rows, lo, hi, mark) == 0
      <==> forall j :: lo <= j < hi ==> judge(j, rows[j]).mark != mark
  {
    if lo < hi {
      NoneMarked(judge, rows, lo, hi - 1, mark);
    }
  }

  /**
   * After a committing run every row that did not fail is stored as the loop body left it; a failed
   * row is stored either as it was or as the loop body left it. Nothing counted is left pending.
   */
  lemma RunStores<R(!new)>(judge: Judge<R>, rows: seq<R>, batch: int)
    requires ChecksRewrapped(judge)
    requires forall i, r :: judge(i, r).mark !in {Rewrapped, Failed} ==> judge(i, r).after == r
    ensures var p := Run(judge, rows, true, batch);
      && p.pending == 0 && |p.durable| == |rows|
      && forall j :: 0 <= j < |rows| ==>
        && (judge(j, rows[j]).mark != Failed ==> p.durable[j] == judge(j, rows[j]).after)
        && (p.durable[j] == rows[j] || p.durable[j] == judge(j, rows[j]).after)
  {
    var n := |rows|;
    var c := Committed(judge, rows, true, batch, n);
    CommitShape(judge, rows, batch, n);
    NoneMarked(judge, rows, c, n, Rewrapped);
  }

  /** Where a committing run ends: cut off after some rows, or finished with its last commit. */
  datatype Stop = CutOff(rows: nat) | Finished

  /** What a committing run leaves in the store. */
  function Stored<R>(judge: Judge<R>, rows: seq<R>, batch: int, stop: Stop): (d: seq<R>)
    ensures |d| == |rows|
  {
    match stop
    case Finished => Run(judge, rows, true, batch).durable
    case CutOff(k) => Upto(judge, rows, true, batch, if k <= |rows| then k else |rows|).durable
  }

  /** Wherever a committing run ends, each stored row is as it was or as the loop body leaves it. */
  lemma EndStores<R(!new)>(judge: Judge<R>, rows: seq<R>, batch: int, stop: Stop)
    requires ChecksRewrapped(judge)
    requires forall i, r :: judge(i, r).mark !in {Rewrapped, Failed} ==> judge(i, r).after == r
    ensures var d := Stored(judge, rows, batch, stop);
      forall j :: 0 <= j < |rows| ==> d[j] == rows[j] || d[j] == judge(j, rows[j]).after
  {
    match stop
    case Finished => RunStores(judge, rows, batch);
    case CutOff(k) => CommitShape(judge, rows, batch, if k <= |rows| then k else |rows|);
  }

  // ---- When the session keeps a change that the store never gets ----

  /** A row after which a run may commit: one that is rewrapped, or with no positive batch size asks for it. */
  predicate MayCommit<R>(v: Verdict<R>, batch: int) {
    if batch >= 1 then v.mark == Rewrapped else v.checksBatch
  }

  lemma CommitStep<R(!new)>(judge: Judge<R>, rows: seq<R>, batch: int, k: nat)
    requires k < |rows| && ChecksRewrapped(judge)
    ensures var v := judge(k, rows[k]); var c := Committed(judge, rows, true, batch, k + 1);
      || (c == k + 1 && MayCommit(v, batch))
      || (c == Committed(judge, rows, true, batch, k) && (batch <= 0 ==> !v.checksBatch))
  {
    CommitShape(judge, rows, batch, k);
  }

  /** Commits come after such rows only, and with no positive batch size after each of them. */
  lemma {:induction false} CommitPoint<R(!new)>(judge: Judge<R>, rows: seq<R>, batch: int, k: nat)
    requires k <= |rows| && ChecksRewrapped(judge)
    ensures var c := Committed(judge, rows, true, batch, k);
      && (c > 0 ==> MayCommit(judge(c - 1, rows[c - 1]), batch))
      && (batch <= 0 ==> forall j :: c <= j < k ==> !judge(j, rows[j]).checksBatch)
  {
    if k > 0 {
      CommitPoint(judge, rows, batch, k - 1);
      CommitStep(judge, rows, batch, k - 1);
    }
  }

  /** What is left over when `n` are taken in full batches, one by one. */
  function Leftover(n: nat, batch: int): nat
    requires batch >= 1
  {
    if n == 0 then 0
    else
      var before := Leftover(n - 1, batch);
      if before + 1 >= batch then 0 else before + 1
  }

  lemma Multiple(d: int, batch: int)
    requires batch >= 1 && d != 0
    ensures batch * d >= batch || batch * d <= -batch
  {
  }

  lemma RemainderOf(n: int, q: int, r: int, batch: int)
    requires batch >= 1 && n == batch * q + r && 0 <= r < batch
    ensures n % batch == r
  {
    var d := n / batch - q;
    assert n % batch == r - batch * d;
    if d != 0 {
      Multiple(d, batch);
    }
  }

  lemma {:induction false} LeftoverIsRemainder(n: nat, batch: int) returns (q: nat)
    requires batch >= 1
    ensures n == batch * q + Leftover(n, batch) && Leftover(n, batch) < batch
    ensures n % batch == Leftover(n, batch)
  {
    if n == 0 {
      q := 0;
    } else {
      q := LeftoverIsRemainder(n - 1, batch);
      if Leftover(n - 1, batch) + 1 >= batch {
        assert batch * (q + 1) == batch * q + batch;
        q := q + 1;
      }
    }
    RemainderOf(n, q, Leftover(n, batch), batch);
  }

  /** With a positive batch size, what is pending is what is left over from full batches. */
  lemma {:induction false} PendingIsLeftover<R(!new)>(judge: Judge<R>, rows: seq<R>, batch: int, k: nat)
    requires k <= |rows| && ChecksRewrapped(judge) && batch >= 1
    ensures var p := Upto(judge, rows, true, batch, k);
      p.pending == Leftover(Marked(judge, rows, 0, k, Rewrapped), batch) && p.pending < batch
  {
    if k > 0 {
      PendingIsLeftover(judge, rows, batch, k - 1);
    }
  }

  /** No commit of the whole run comes at row `j` or after it. */
  ghost predicate NoCommitFrom<R>(judge: Judge<R>, rows: seq<R>, batch: int, j: nat)
    requires j < |rows|
  {
    var n := |rows|;
    && (batch >= 1 ==>
          Marked(judge, rows, 0, n, Rewrapped) % batch == 0 && Marked(judge, rows, j, n, Rewrapped) == 0)
    && (batch <= 0 ==> forall k :: j <= k < n ==> !judge(k, rows[k]).checksBatch)
  }

  /** A failed row that the loop body changed all the same, and that no later commit takes. */
  ghost predicate Stranded<R>(judge: Judge<R>, rows: seq<R>, batch: int, j: nat)
    requires j < |rows|
  {
    judge(j, rows[j]).mark == Failed && judge(j, rows[j]).after != rows[j] && NoCommitFrom(judge, rows, batch, j)
  }

  /**
   * At the end of a committing run the session differs from the store exactly when some changed but
   * failed row is stranded: no row after it is rewrapped and the rewrapped rows fill whole batches (or,
   * with no positive batch size, no row after it reaches the batch-size test).
   */
  lemma StoreMissesIff<R(!new)>(judge: Judge<R>, rows: seq<R>, batch: int)
    requires ChecksRewrapped(judge)
    requires forall i, r :: judge(i, r).mark !in {Rewrapped, Failed} ==> judge(i, r).after == r
    ensures var p := Run(judge, rows, true, batch);
      p.durable != p.working <==> exists j :: 0 <= j < |rows| && Stranded(judge, rows, batch, j)
  {
    var n := |rows|;
    var p, c := Upto(judge, rows, true, batch, n), Committed(judge, rows, true, batch, n);
    CommitShape(judge, rows, batch, n);
    CommitPoint(judge, rows, batch, n);
    if batch >= 1 {
      PendingIsLeftover(judge, rows, batch, n);
      var q := LeftoverIsRemainder(Marked(judge, rows, 0, n, Rewrapped), batch);
    }
    if j :| 0 <= j < n && Stranded(judge, rows, batch, j) {
      NoneMarked(judge, rows, j, n, Rewrapped);
      assert c <= j;
      assert p.durable[j] == rows[j] && p.working[j] == judge(j, rows[j]).after;
    }
    if p.pending == 0 && p.durable != p.working {
      NoneMarked(judge, rows, c, n, Rewrapped);
      var j :| 0 <= j < n && p.durable[j] != p.working[j];
      NoneMarked(judge, rows, j, n, Rewrapped);
      assert Stranded(judge, rows, batch, j);
    }
  }
}
