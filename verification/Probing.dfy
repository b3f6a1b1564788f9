/** One probe of a URL, as both monitors make it: `probe` of scripts/status.py. */
module Probing {

  /** An answer: its HTTP status, 0 when there was none, and the bytes of the body that was sent. */
  datatype Reply = Reply(status: int, sent: string)

  const READ_LIMIT := 4000

  /** What the probe reads of the body. */
  function Body(r: Reply): string {
    if |r.sent| <= READ_LIMIT then r.sent else r.sent[..READ_LIMIT]
  }

  /** The answers that requests get, by the number of the request. */
  type Trace = nat -> Reply

  const ATTEMPTS := 3

  predicate Good(r: Reply): (good: bool)
    ensures good <==> r.status / 100 == 2
  {
    200 <= r.status < 300
  }

  /** How many requests a probe makes: up to the first good answer, or all it may. */
  function Tries(reply: Trace, n: nat, attempts: nat): (k: nat)
    ensures k <= attempts && (attempts > 0 ==> k > 0)
    decreases attempts
  {
    if attempts <= 1 || Good(reply(n)) then (if attempts == 0 then 0 else 1)
    else
      1 + Tries(reply, n + 1, attempts - 1)
  }

  /** The answer of the last of those requests. */
  function Answer(reply: Trace, n: nat, attempts: nat): Reply {
    var k := Tries(reply, n, attempts);
    if k == 0 then Reply(0, "") else reply(n + k - 1)
  }

  method Probe(reply: Trace, n: nat, attempts: nat) returns (r: Reply, used: nat)
    ensures r == Answer(reply, n, attempts) && used == Tries(reply, n, attempts)
  {
    r, used := Reply(0, ""), 0;
    while used < attempts
      invariant 0 <= used <= attempts
      invariant forall i: nat :: n <= i < n + used ==> !Good(reply(i))
      invariant r == if used == 0 then Reply(0, "") else reply(n + used - 1)
      invariant Tries(reply, n, attempts) == used + Tries(reply, n + used, attempts - used)
    {
      r := reply(n + used);
      used := used + 1;
      if Good(r) {
        return;
      }
    }
  }

  lemma {:induction false} StopsAtFirstGood(reply: Trace, n: nat, attempts: nat)
    ensures var k := Tries(reply, n, attempts);
      && (forall i: nat :: n <= i < n + k - 1 ==> !Good(reply(i)))
      && (0 < k < attempts ==> Good(reply(n + k - 1)))
    decreases attempts
  {
    if attempts > 1 && !Good(reply(n)) {
      StopsAtFirstGood(reply, n + 1, attempts - 1);
    }
  }

  /** Request `i` is the first good one from `n` on. */
  ghost predicate FirstGood(reply: Trace, n: nat, i: nat) {
    n <= i && Good(reply(i)) && forall j: nat :: n <= j < i ==> !Good(reply(j))
  }

  /** If one of the requests that a probe may make gets a good answer, it reports the first such. */
  lemma {:induction false} ReportsFirstGood(reply: Trace, n: nat, attempts: nat, i: nat)
    requires FirstGood(reply, n, i) && i < n + attempts
    ensures Answer(reply, n, attempts) == reply(i)
    decreases attempts
  {
    if n < i {
      ReportsFirstGood(reply, n + 1, attempts - 1, i);
    }
  }

  /** A probe reports a good answer exactly when one of the requests it may make would get one. */
  lemma GoodIffSomeGood(reply: Trace, n: nat, attempts: nat)
    ensures Good(Answer(reply, n, attempts)) <==> exists i: nat :: i < n + attempts && FirstGood(reply, n, i)
  {
    StopsAtFirstGood(reply, n, attempts);
    var k := Tries(reply, n, attempts);
    if Good(Answer(reply, n, attempts)) {
      assert FirstGood(reply, n, n + k - 1);
    }
    if i: nat :| i < n + attempts && FirstGood(reply, n, i) {
      ReportsFirstGood(reply, n, attempts, i);
    }
  }
}
