/** Who follows whom, told from the requests alone: api/webapp.py and the bot's copy service. */
module FollowHistory {
  import opened Options
  import opened Queries
  import opened Follows

  // ---- The bot's follow ----

  /** The active rows of a follower. */
  function RowsOf(follows: seq<Follow>, follower: int): set<nat> {
    set k: nat | k < |follows| && follows[k].follower == follower && follows[k].active
  }

  lemma RowsNext(follows: seq<Follow>, follower: int)
    requires follows != []
    ensures var n := |follows| - 1; var counts := follows[n].follower == follower && follows[n].active;
      RowsOf(follows, follower) == RowsOf(follows[..n], follower) + if counts then {n as nat} else {}
  {
    var n := |follows| - 1;
    assert forall k: nat :: k < n ==> follows[..n][k] == follows[k];
  }

  lemma {:induction false} FollowedIsCount(follows: seq<Follow>, follower: int)
    ensures Followed(follows, follower) == |RowsOf(follows, follower)|
  {
    if follows == [] {
      assert RowsOf(follows, follower) == {};
    } else {
      var n := |follows| - 1;
      FollowedIsCount(follows[..n], follower);
      RowsNext(follows, follower);
    }
  }

  /** Exactly when the bot accepts a follow, in a consistent state. */
  lemma BotFollowAcceptedIff(t: Tables, follower: int, p: nat, mode: string, amount: real)
    requires Consistent(t) && p < |t.profiles|
    ensures var trader := t.profiles[p].user; var r := BotFollow(t, follower, trader, mode, amount);
      && (r.0 == Success <==>
            && t.profiles[p].isPublic && trader != follower
            && |RowsOf(t.follows, follower)| < 5 && !IsFollowing(t, follower, trader))
      && (r.0 != Success ==> r.1 == t)
  {
    var trader := t.profiles[p].user;
    FollowedIsCount(t.follows, follower);
    assert UserIs(trader)(t.profiles[p]);
    PairFound(t, follower, trader);
  }

  lemma PairFound(t: Tables, follower: int, trader: int)
    requires ProperRows(t.follows)
    ensures var k := First(t.follows, PairIs(follower, trader));
      IsFollowing(t, follower, trader) <==> k.Some? && t.follows[k.value].active
  {
    if i: nat :| i < |t.follows| && ActivePairIs(follower, trader)(t.follows[i]) {
      assert PairIs(follower, trader)(t.follows[i]);
    }
    var k := First(t.follows, PairIs(follower, trader));
    if k.Some? && t.follows[k.value].active {
      assert ActivePairIs(follower, trader)(t.follows[k.value]);
    }
  }

  // ---- What one request does to a pair ----

  ghost predicate Named(t: Tables, id: int, user: int) {
    exists p :: 0 <= p < |t.profiles| && t.profiles[p].id == id && t.profiles[p].user == user
  }

  /** An accepted follow of the trader by the follower. */
  ghost predicate Takes(t: Tables, e: Event, follower: int, trader: int) {
    match e
    case WebFollowed(caller, id, settings, access) =>
      && caller == Some(follower) && Named(t, id, trader)
      && WebFollow(t, caller, id, settings, access).0 == Success
    case BotFollowed(f, d, mode, amount) =>
      f == follower && d == trader && BotFollow(t, f, d, mode, amount).0 == Success
    case _ => false
  }

  /** An accepted unfollow of the trader by the follower. */
  ghost predicate Drops(t: Tables, e: Event, follower: int, trader: int) {
    match e
    case WebUnfollowed(caller, id) =>
      && caller == Some(follower) && Named(t, id, trader)
      && WebUnfollow(t, caller, id).0 == Success
    case BotUnfollowed(f, d) =>
      f == follower && d == trader && BotUnfollow(t, f, d).0 == Success
    case _ => false
  }

  lemma SameRows(a: Tables, b: Tables, follower: int, trader: int)
    requires a.follows == b.follows
    ensures IsFollowing(a, follower, trader) <==> IsFollowing(b, follower, trader)
  {
  }

  lemma RowSet(t: Tables, next: Tables, k: nat, follower: int, trader: int)
    requires ProperRows(t.follows) && k < |t.follows| && |next.follows| == |t.follows|
    requires forall i :: 0 <= i < |t.follows| && i != k ==> next.follows[i] == t.follows[i]
    requires SamePair(next.follows[k], t.follows[k])
    ensures IsFollowing(next, follower, trader) <==>
      if PairIs(follower, trader)(t.follows[k]) then next.follows[k].active else IsFollowing(t, follower, trader)
  {
    if PairIs(follower, trader)(t.follows[k]) {
      if next.follows[k].active {
        assert ActivePairIs(follower, trader)(next.follows[k]);
      }
      forall i | 0 <= i < |t.follows| && i != k
        ensures !ActivePairIs(follower, trader)(next.follows[i])
      {
        var lo, hi := if i < k then i else k, if i < k then k else i;
        assert !SamePair(t.follows[lo], t.follows[hi]);
      }
    } else {
      if i: nat :| i < |t.follows| && ActivePairIs(follower, trader)(t.follows[i]) {
        assert ActivePairIs(follower, trader)(next.follows[i]);
      }
      if i: nat :| i < |t.follows| && ActivePairIs(follower, trader)(next.follows[i]) {
        assert ActivePairIs(follower, trader)(t.follows[i]);
      }
    }
  }

  lemma RowPut(t: Tables, next: Tables, f: Follow, follower: int, trader: int)
    requires next.follows == t.follows + [f] && f.active
    ensures IsFollowing(next, follower, trader) <==> PairIs(follower, trader)(f) || IsFollowing(t, follower, trader)
  {
    assert next.follows[|t.follows|] == f;
    assert forall i :: 0 <= i < |t.follows| ==> next.follows[i] == t.follows[i];
    if PairIs(follower, trader)(f) {
      assert ActivePairIs(follower, trader)(next.follows[|t.follows|]);
    }
    if i: nat :| i < |t.follows| && ActivePairIs(follower, trader)(t.follows[i]) {
      assert ActivePairIs(follower, trader)(next.follows[i]);
    }
  }

  lemma SubscribedPair(t: Tables, p: nat, who: int, settle: Follow -> Follow, follower: int, trader: int)
    requires ProperRows(t.follows) && p < |t.profiles| && Settles(settle)
    ensures IsFollowing(Subscribed(t, p, who, settle), follower, trader)
      <==> (follower == who && trader == t.profiles[p].user) || IsFollowing(t, follower, trader)
  {
    var next := Subscribed(t, p, who, settle);
    match First(t.follows, PairIs(who, t.profiles[p].user))
    case Some(k) =>
      assert next.follows[k].active && SamePair(next.follows[k], t.follows[k]);
      assert PairIs(who, t.profiles[p].user)(t.follows[k]);
      RowSet(t, next, k, follower, trader);
    case None =>
      RowPut(t, next, settle(NewFollow(who, t.profiles[p].user)), follower, trader);
  }

  lemma DroppedPair(t: Tables, next: Tables, k: nat, who: int, whom: int, follower: int, trader: int)
    requires ProperRows(t.follows) && k < |t.follows| && ActivePairIs(who, whom)(t.follows[k])
    requires next.follows == t.follows[k := t.follows[k].(active := false)]
    ensures IsFollowing(next, follower, trader)
      <==> !(follower == who && trader == whom) && IsFollowing(t, follower, trader)
  {
    RowSet(t, next, k, follower, trader);
  }

  lemma NamedIff(t: Tables, id: int, user: int)
    requires DistinctProfiles(t.profiles)
    ensures var p := First(t.profiles, IdIs(id)); Named(t, id, user) <==> p.Some? && t.profiles[p.value].user == user
  {
    if p :| 0 <= p < |t.profiles| && t.profiles[p].id == id && t.profiles[p].user == user {
      assert IdIs(id)(t.profiles[p]);
    }
  }

  lemma WebStepPair(t: Tables, e: Event, follower: int, trader: int)
    requires Consistent(t) && (e.WebFollowed? || e.WebUnfollowed?)
    ensures IsFollowing(Step(t, e), follower, trader)
      <==> Takes(t, e, follower, trader) || (IsFollowing(t, follower, trader) && !Drops(t, e, follower, trader))
  {
    NamedIff(t, e.id, trader);
    var p := First(t.profiles, IdIs(e.id));
    if e.WebFollowed? {
      if WebFollow(t, e.caller, e.id, e.settings, e.access).0 == Success {
        SubscribedPair(t, p.value, e.caller.value, Settling(e.settings), follower, trader);
      }
    } else if WebUnfollow(t, e.caller, e.id).0 == Success {
      var whom := t.profiles[p.value].user;
      var k := First(t.follows, ActivePairIs(e.caller.value, whom)).value;
      DroppedPair(t, Step(t, e), k, e.caller.value, whom, follower, trader);
    }
  }

  lemma BotStepPair(t: Tables, e: Event, follower: int, trader: int)
    requires Consistent(t) && (e.BotFollowed? || e.BotUnfollowed?)
    ensures IsFollowing(Step(t, e), follower, trader)
      <==> Takes(t, e, follower, trader) || (IsFollowing(t, follower, trader) && !Drops(t, e, follower, trader))
  {
    if e.BotFollowed? {
      if BotFollow(t, e.follower, e.trader, e.mode, e.amount).0 == Success {
        var p := First(t.profiles, UserIs(e.trader)).value;
        SubscribedPair(t, p, e.follower, InMode(e.mode, e.amount), follower, trader);
      }
    } else if BotUnfollow(t, e.follower, e.trader).0 == Success {
      var k := First(t.follows, ActivePairIs(e.follower, e.trader)).value;
      DroppedPair(t, Step(t, e), k, e.follower, e.trader, follower, trader);
    }
  }

  lemma StepPair(t: Tables, e: Event, follower: int, trader: int)
    requires Consistent(t)
    ensures IsFollowing(Step(t, e), follower, trader)
      <==> Takes(t, e, follower, trader) || (IsFollowing(t, follower, trader) && !Drops(t, e, follower, trader))
  {
    match e
    case WebFollowed(_, _, _, _) => WebStepPair(t, e, follower, trader);
    case WebUnfollowed(_, _) => WebStepPair(t, e, follower, trader);
    case BotFollowed(_, _, _, _) => BotStepPair(t, e, follower, trader);
    case BotUnfollowed(_, _) => BotStepPair(t, e, follower, trader);
    case ProfileCreated(_, _, _) => SameRows(t, Step(t, e), follower, trader);
    case VisibilityChanged(_, _) => SameRows(t, Step(t, e), follower, trader);
  }

  // ---- Whole runs ----

  datatype Mark = Taken | Dropped | Neither

  /** What each request of a run meant for a pair, on the tables it found. */
  ghost function Marks(events: seq<Event>, follower: int, trader: int): seq<Mark> {
    if events == [] then []
    else
      var n := |events| - 1;
      Marks(events[..n], follower, trader) + [MarkOf(Run(events[..n]), events[n], follower, trader)]
  }

  ghost function MarkOf(t: Tables, e: Event, follower: int, trader: int): Mark {
    if Takes(t, e, follower, trader) then Taken else if Drops(t, e, follower, trader) then Dropped else Neither
  }

  /** An accepted follow, and no accepted unfollow since. */
  ghost predicate Standing(marks: seq<Mark>) {
    exists k :: 0 <= k < |marks| && marks[k] == Taken && forall m :: k < m < |marks| ==> marks[m] != Dropped
  }

  lemma StandingNext(front: seq<Mark>, mark: Mark)
    ensures Standing(front + [mark]) <==> mark == Taken || (Standing(front) && mark != Dropped)
  {
    var marks := front + [mark];
    assert marks[|front|] == mark && forall k :: 0 <= k < |front| ==> marks[k] == front[k];
    if mark != Taken && Standing(marks) {
      var k :| 0 <= k < |marks| && marks[k] == Taken && forall m :: k < m < |marks| ==> marks[m] != Dropped;
      assert front[k] == Taken && forall m :: k < m < |front| ==> front[m] == marks[m];
    }
    if Standing(front) && mark != Dropped {
      var k :| 0 <= k < |front| && front[k] == Taken && forall m :: k < m < |front| ==> front[m] != Dropped;
      assert marks[k] == Taken && forall m :: k < m < |marks| ==> marks[m] != Dropped;
    }
  }

  /**
   * In every run of the terminal and the bot, one user follows another exactly when one of the two accepted a
   * follow of the pair and neither has accepted an unfollow since.
   */
  lemma {:induction false} FollowingIffStanding(events: seq<Event>, follower: int, trader: int)
    ensures IsFollowing(Run(events), follower, trader) <==> Standing(Marks(events, follower, trader))
  {
    if events != [] {
      var front, e := events[..|events| - 1], events[|events| - 1];
      FollowingIffStanding(front, follower, trader);
      CountsAreConserved(front);
      StepPair(Run(front), e, follower, trader);
      StandingNext(Marks(front, follower, trader), MarkOf(Run(front), e, follower, trader));
    }
  }
}
