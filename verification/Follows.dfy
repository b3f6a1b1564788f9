/**
 * Following traders: the terminal endpoints of api/webapp.py, the bot's bot/services/copy_service.py, the
 * mobile endpoint of api/routes/mobile.py and the Mini App's api-ts/src/services/CopyTradingService.ts,
 * all over the same two tables.
 */
module Follows {
  import opened Options
  import opened Queries

  datatype Profile = Profile(id: int, user: int, isPublic: bool, followers: Option<int>)

  datatype Follow = Follow(
    follower: int, trader: int, active: bool, mode: string, kind: string, limits: map<string, real>)

  datatype Tables = Tables(profiles: seq<Profile>, follows: seq<Follow>)

  datatype CopyMode = Notify | Fixed | Percentage

  /** A request's settings; `limits` holds the optional amounts that the request does give. */
  datatype Settings = Settings(copyMode: CopyMode, limits: map<string, real>)

  datatype Answer =
    | NotAuthenticated | TraderNotFound | CannotFollowYourself | NoAutomaticAccess
    | AlreadyFollowing | TooManyFollows | NotFollowing | Success

  const MAX_FOLLOWS := 5

  function IdIs(id: int): Profile -> bool {
    (p: Profile) => p.id == id
  }

  function UserIs(user: int): Profile -> bool {
    (p: Profile) => p.user == user
  }

  function PairIs(follower: int, trader: int): Follow -> bool {
    (f: Follow) => f.follower == follower && f.trader == trader
  }

  function ActivePairIs(follower: int, trader: int): Follow -> bool {
    (f: Follow) => f.follower == follower && f.trader == trader && f.active
  }

  /** `_apply_copy_settings`. */
  function Applied(f: Follow, s: Settings): Follow {
    match s.copyMode
    case Notify => f.(mode := "notify", kind := "fixed", limits := f.limits + s.limits)
    case Percentage => f.(mode := "auto", kind := "percentage", limits := f.limits + s.limits)
    case Fixed => f.(mode := "auto", kind := "fixed", limits := f.limits + s.limits)
  }

  function NewFollow(follower: int, trader: int): Follow {
    Follow(follower, trader, true, "notify", "fixed", map[])
  }

  function Counted(p: Profile, delta: int): Profile {
    p.(followers := Some(p.followers.GetOr(0) + delta))
  }

  function Clamped(p: Profile): Profile {
    p.(followers := Some(if p.followers.GetOr(0) - 1 < 0 then 0 else p.followers.GetOr(0) - 1))
  }

  /** How many traders a user follows. */
  function Followed(follows: seq<Follow>, follower: int): nat {
    if follows == [] then 0
    else
      var last := follows[|follows| - 1];
      Followed(follows[..|follows| - 1], follower) + if last.follower == follower && last.active then 1 else 0
  }

  // ---- What each request does ----

  function Subscribed(t: Tables, p: nat, follower: int, settle: Follow -> Follow): Tables
    requires p < |t.profiles|
  {
    var trader := t.profiles[p].user;
    var profiles := t.profiles[p := Counted(t.profiles[p], 1)];
    match First(t.follows, PairIs(follower, trader))
    case Some(k) => Tables(profiles, t.follows[k := settle(t.follows[k].(active := true))])
    case None => Tables(profiles, t.follows + [settle(NewFollow(follower, trader))])
  }

  function Settling(s: Settings): Follow -> Follow {
    (f: Follow) => Applied(f, s)
  }

  function InMode(mode: string, amount: real): Follow -> Follow {
    (f: Follow) => f.(mode := mode, limits := f.limits["copy_amount_usd" := amount])
  }

  /** `follow_terminal_trader`; `access` says whether automatic copying would be allowed. */
  function WebFollow(t: Tables, user: Option<int>, id: int, s: Settings, access: bool): (Answer, Tables) {
    if user.None? then (NotAuthenticated, t)
    else
      match First(t.profiles, IdIs(id))
      case None => (TraderNotFound, t)
      case Some(p) =>
        if !t.profiles[p].isPublic then (TraderNotFound, t)
        else if t.profiles[p].user == user.value then (CannotFollowYourself, t)
        else if s.copyMode != Notify && !access then (NoAutomaticAccess, t)
        else
          var k := First(t.follows, PairIs(user.value, t.profiles[p].user));
          if k.Some? && t.follows[k.value].active then (AlreadyFollowing, t)
          else (Success, Subscribed(t, p, user.value, Settling(s)))
  }

  /** `unfollow_terminal_trader`. */
  function WebUnfollow(t: Tables, user: Option<int>, id: int): (Answer, Tables) {
    if user.None? then (NotAuthenticated, t)
    else
      match First(t.profiles, IdIs(id))
      case None => (TraderNotFound, t)
      case Some(p) =>
        match First(t.follows, ActivePairIs(user.value, t.profiles[p].user))
        case None => (NotFollowing, t)
        case Some(k) => (Success, Tables(t.profiles[p := Clamped(t.profiles[p])],
                                         t.follows[k := t.follows[k].(active := false)]))
  }

  /** `follow_trader` of the bot, which names the trader by user. */
  function BotFollow(t: Tables, follower: int, trader: int, mode: string, amount: real): (Answer, Tables) {
    if follower == trader then (CannotFollowYourself, t)
    else
      match First(t.profiles, UserIs(trader))
      case None => (TraderNotFound, t)
      case Some(p) =>
        if !t.profiles[p].isPublic then (TraderNotFound, t)
        else if Followed(t.follows, follower) >= MAX_FOLLOWS then (TooManyFollows, t)
        else
          var k := First(t.follows, PairIs(follower, trader));
          if k.Some? && t.follows[k.value].active then (AlreadyFollowing, t)
          else (Success, Subscribed(t, p, follower, InMode(mode, amount)))
  }

  /** A profile's count is lowered only while it is positive. */
  function Lowered(profiles: seq<Profile>, p: Option<nat>): seq<Profile>
    requires p.Some? ==> p.value < |profiles|
  {
    if p.Some? && profiles[p.value].followers.GetOr(0) > 0
    then profiles[p.value := Clamped(profiles[p.value])] else profiles
  }

  /** `unfollow_trader` of the bot. */
  function BotUnfollow(t: Tables, follower: int, trader: int): (Answer, Tables) {
    match First(t.follows, ActivePairIs(follower, trader))
    case None => (NotFollowing, t)
    case Some(k) => (Success, Tables(Lowered(t.profiles, First(t.profiles, UserIs(trader))),
                                     t.follows[k := t.follows[k].(active := false)]))
  }

  /**
   * `unfollow_trader` of the mobile API. Its number is compared with the trader's user in the follow
   * rows and with the profile's own id in the profiles.
   */
  function MobileUnfollow(t: Tables, user: int, id: int): (Answer, Tables) {
    match First(t.follows, ActivePairIs(user, id))
    case None => (NotFollowing, t)
    case Some(k) => (Success, Tables(Lowered(t.profiles, First(t.profiles, IdIs(id))),
                                     t.follows[k := t.follows[k].(active := false)]))
  }

  /** `followTrader` of the Mini App: it writes the follow rows only, and asks for no profile. */
  function MiniAppFollow(t: Tables, follower: int, trader: int, settle: Follow -> Follow): (Answer, Tables) {
    if follower == trader then (CannotFollowYourself, t)
    else
      match First(t.follows, PairIs(follower, trader))
      case None => (Success, t.(follows := t.follows + [settle(NewFollow(follower, trader))]))
      case Some(k) =>
        if t.follows[k].active then (AlreadyFollowing, t)
        else (Success, t.(follows := t.follows[k := t.follows[k].(active := true)]))
  }

  /** `unfollowTrader` of the Mini App, which does not ask whether the row is active. */
  function MiniAppUnfollow(t: Tables, follower: int, trader: int): (Answer, Tables) {
    match First(t.follows, PairIs(follower, trader))
    case None => (NotFollowing, t)
    case Some(k) => (Success, t.(follows := t.follows[k := t.follows[k].(active := false)]))
  }

  /** The tables, changed row by row as the handlers do. */
  class CopyTrading {
    var profiles: seq<Profile>
    var follows: seq<Follow>

    constructor ()
      ensures View() == Tables([], [])
    {
      profiles, follows := [], [];
    }

    ghost function View(): Tables
      reads this
    {
      Tables(profiles, follows)
    }

    method FollowTerminalTrader(user: Option<int>, id: int, s: Settings, access: bool) returns (answer: Answer)
      modifies this
      ensures (answer, View()) == WebFollow(old(View()), user, id, s, access)
    {
      if user.None? {
        return NotAuthenticated;
      }
      var p := First(profiles, IdIs(id));
      if p.None? || !profiles[p.value].isPublic {
        return TraderNotFound;
      }
      var trader := profiles[p.value].user;
      if trader == user.value {
        return CannotFollowYourself;
      }
      if s.copyMode != Notify && !access {
        return NoAutomaticAccess;
      }
      var k := First(follows, PairIs(user.value, trader));
      if k.Some? && follows[k.value].active {
        return AlreadyFollowing;
      }
      if k.None? {
        follows := follows + [Applied(NewFollow(user.value, trader), s)];
      } else {
        follows := follows[k.value := Applied(follows[k.value].(active := true), s)];
      }
      profiles := profiles[p.value := Counted(profiles[p.value], 1)];
      return Success;
    }

    method UnfollowTerminalTrader(user: Option<int>, id: int) returns (answer: Answer)
      modifies this
      ensures (answer, View()) == WebUnfollow(old(View()), user, id)
    {
      if user.None? {
        return NotAuthenticated;
      }
      var p := First(profiles, IdIs(id));
      if p.None? {
        return TraderNotFound;
      }
      var k := First(follows, ActivePairIs(user.value, profiles[p.value].user));
      if k.None? {
        return NotFollowing;
      }
      follows := follows[k.value := follows[k.value].(active := false)];
      profiles := profiles[p.value := Clamped(profiles[p.value])];
      return Success;
    }
  }

  // ---- What every request keeps ----

  /** How many active rows name a trader. */
  function Active(follows: seq<Follow>, trader: int): nat {
    if follows == [] then 0
    else
      var last := follows[|follows| - 1];
      Active(follows[..|follows| - 1], trader) + if last.trader == trader && last.active then 1 else 0
  }

  ghost predicate DistinctProfiles(profiles: seq<Profile>) {
    forall i, j :: 0 <= i < j < |profiles| ==> profiles[i].id != profiles[j].id && profiles[i].user != profiles[j].user
  }

  /** One row per pair at most, and nobody follows themselves. */
  ghost predicate ProperRows(follows: seq<Follow>) {
    && (forall i, j :: 0 <= i < j < |follows| ==> !SamePair(follows[i], follows[j]))
    && (forall i :: 0 <= i < |follows| ==> follows[i].follower != follows[i].trader)
  }

  ghost predicate HasProfile(profiles: seq<Profile>, user: int) {
    exists i :: 0 <= i < |profiles| && profiles[i].user == user
  }

  ghost predicate Owned(profiles: seq<Profile>, follows: seq<Follow>) {
    forall i :: 0 <= i < |follows| ==> HasProfile(profiles, follows[i].trader)
  }

  /** Every trader's count is the number of active rows for that trader. */
  ghost predicate Conserved(profiles: seq<Profile>, follows: seq<Follow>) {
    forall i :: 0 <= i < |profiles| ==> profiles[i].followers.GetOr(0) == Active(follows, profiles[i].user)
  }

  ghost predicate Consistent(t: Tables) {
    && DistinctProfiles(t.profiles) && ProperRows(t.follows)
    && Owned(t.profiles, t.follows) && Conserved(t.profiles, t.follows)
  }

  predicate SamePair(a: Follow, b: Follow) {
    a.follower == b.follower && a.trader == b.trader
  }

  lemma {:induction false} ActiveUpdate(follows: seq<Follow>, k: nat, f: Follow, trader: int)
    requires k < |follows| && f.trader == follows[k].trader
    ensures Active(follows[k := f], trader)
      == Active(follows, trader) + One(f.trader == trader && f.active)
         - One(f.trader == trader && follows[k].active)
  {
    var n := |follows| - 1;
    var next := follows[k := f];
    if k < n {
      ActiveUpdate(follows[..n], k, f, trader);
      assert next[..n] == follows[..n][k := f];
    } else {
      assert next[..n] == follows[..n];
    }
  }

  lemma {:induction false} SomeActive(follows: seq<Follow>, k: nat)
    requires k < |follows| && follows[k].active
    ensures Active(follows, follows[k].trader) >= 1
  {
    if k < |follows| - 1 {
      SomeActive(follows[..|follows| - 1], k);
    }
  }

  lemma {:induction false} NoneActive(follows: seq<Follow>, trader: int)
    requires forall i :: 0 <= i < |follows| ==> follows[i].trader != trader
    ensures Active(follows, trader) == 0
  {
    if follows != [] {
      NoneActive(follows[..|follows| - 1], trader);
    }
  }

  ghost predicate Settles(settle: Follow -> Follow) {
    forall f :: SamePair(settle(f), f) && settle(f).active == f.active
  }

  predicate SamePeople(was: seq<Profile>, now: seq<Profile>) {
    |was| == |now| && forall i :: 0 <= i < |was| ==> was[i].id == now[i].id && was[i].user == now[i].user
  }

  lemma StillOwned(was: seq<Profile>, now: seq<Profile>, follows: seq<Follow>)
    requires SamePeople(was, now) && Owned(was, follows)
    ensures Owned(now, follows)
  {
    forall i | 0 <= i < |follows|
      ensures HasProfile(now, follows[i].trader)
    {
      assert HasProfile(was, follows[i].trader);
      var j :| 0 <= j < |was| && was[j].user == follows[i].trader;
      assert now[j].user == follows[i].trader;
    }
  }

  lemma {:induction false} RowReplaced(profiles: seq<Profile>, follows: seq<Follow>, k: nat, f: Follow)
    requires ProperRows(follows) && Owned(profiles, follows) && k < |follows| && SamePair(f, follows[k])
    ensures ProperRows(follows[k := f]) && Owned(profiles, follows[k := f])
    ensures forall user :: (
      Active(follows[k := f], user)
      == Active(follows, user) + One(f.trader == user && f.active) - One(f.trader == user && follows[k].active))
  {
    forall user
      ensures Active(follows[k := f], user)
        == Active(follows, user) + One(f.trader == user && f.active) - One(f.trader == user && follows[k].active)
    {
      ActiveUpdate(follows, k, f, user);
    }
  }

  lemma {:induction false} RowAdded(profiles: seq<Profile>, follows: seq<Follow>, f: Follow)
    requires ProperRows(follows) && Owned(profiles, follows) && f.follower != f.trader && f.active
    requires HasProfile(profiles, f.trader) && forall i :: 0 <= i < |follows| ==> !SamePair(follows[i], f)
    ensures ProperRows(follows + [f]) && Owned(profiles, follows + [f])
    ensures forall user :: Active(follows + [f], user) == Active(follows, user) + One(f.trader == user)
  {
    assert (follows + [f])[..|follows|] == follows;
  }

  lemma SubscribedRows(t: Tables, p: nat, follower: int, settle: Follow -> Follow)
    requires Consistent(t) && p < |t.profiles| && t.profiles[p].user != follower && Settles(settle)
    requires var k := First(t.follows, PairIs(follower, t.profiles[p].user));
      k.Some? ==> !t.follows[k.value].active
    ensures var next := Subscribed(t, p, follower, settle);
      && ProperRows(next.follows) && Owned(t.profiles, next.follows)
      && forall user :: Active(next.follows, user) == Active(t.follows, user) + One(t.profiles[p].user == user)
  {
    var trader := t.profiles[p].user;
    match First(t.follows, PairIs(follower, trader))
    case Some(k) =>
      assert SamePair(settle(t.follows[k].(active := true)), t.follows[k].(active := true));
      RowReplaced(t.profiles, t.follows, k, settle(t.follows[k].(active := true)));
    case None =>
      forall i | 0 <= i < |t.follows|
        ensures !SamePair(t.follows[i], settle(NewFollow(follower, trader)))
      {
        assert !PairIs(follower, trader)(t.follows[i]);
        assert SamePair(settle(NewFollow(follower, trader)), NewFollow(follower, trader));
      }
      RowAdded(t.profiles, t.follows, settle(NewFollow(follower, trader)));
  }

  /** One more active row for a trader, and that trader's count raised by one. */
  lemma OneRaised(profiles: seq<Profile>, follows: seq<Follow>, p: nat, next: seq<Follow>)
    requires DistinctProfiles(profiles) && Conserved(profiles, follows) && p < |profiles|
    requires forall user :: Active(next, user) == Active(follows, user) + One(profiles[p].user == user)
    ensures var raised := profiles[p := Counted(profiles[p], 1)];
      SamePeople(profiles, raised) && DistinctProfiles(raised) && Conserved(raised, next)
  {
    var raised := profiles[p := Counted(profiles[p], 1)];
    forall i | 0 <= i < |profiles|
      ensures raised[i].followers.GetOr(0) == Active(next, raised[i].user)
    {
      if i != p {
        assert profiles[i].user != profiles[p].user;
      }
    }
  }

  lemma SubscribedKeeps(t: Tables, p: nat, follower: int, settle: Follow -> Follow)
    requires Consistent(t) && p < |t.profiles| && t.profiles[p].user != follower && Settles(settle)
    requires var k := First(t.follows, PairIs(follower, t.profiles[p].user));
      k.Some? ==> !t.follows[k.value].active
    ensures Consistent(Subscribed(t, p, follower, settle))
  {
    var next := Subscribed(t, p, follower, settle);
    SubscribedRows(t, p, follower, settle);
    assert next.profiles == t.profiles[p := Counted(t.profiles[p], 1)];
    OneRaised(t.profiles, t.follows, p, next.follows);
    StillOwned(t.profiles, next.profiles, next.follows);
  }

  /** The tables after row `k` is made inactive and, perhaps, one profile is lowered. */
  function Dropped(t: Tables, k: nat, p: Option<nat>): Tables
    requires k < |t.follows| && (p.Some? ==> p.value < |t.profiles|)
  {
    Tables(Lowered(t.profiles, p), t.follows[k := t.follows[k].(active := false)])
  }

  /** One active row less for a trader, and that trader's count lowered by one. */
  lemma OneLowered(profiles: seq<Profile>, follows: seq<Follow>, p: nat, next: seq<Follow>)
    requires DistinctProfiles(profiles) && Conserved(profiles, follows) && p < |profiles|
    requires forall user :: Active(next, user) == Active(follows, user) - One(profiles[p].user == user)
    ensures var lowered := Lowered(profiles, Some(p));
      SamePeople(profiles, lowered) && DistinctProfiles(lowered) && Conserved(lowered, next)
  {
    var lowered := Lowered(profiles, Some(p));
    assert Active(next, profiles[p].user) == Active(follows, profiles[p].user) - 1;
    forall i | 0 <= i < |profiles|
      ensures lowered[i].followers.GetOr(0) == Active(next, lowered[i].user)
    {
      if i != p {
        assert profiles[i].user != profiles[p].user;
      }
    }
  }

  /** The trader's count stays as it was, though one active row is gone. */
  lemma TraderNotLowered(profiles: seq<Profile>, follows: seq<Follow>, p: Option<nat>, own: nat, next: seq<Follow>)
    requires Conserved(profiles, follows) && own < |profiles| && (p.Some? ==> p.value < |profiles|)
    requires Active(next, profiles[own].user) == Active(follows, profiles[own].user) - 1
    requires p.None? || profiles[p.value].user != profiles[own].user
    ensures !Conserved(Lowered(profiles, p), next)
  {
    var lowered := Lowered(profiles, p);
    assert lowered[own] == profiles[own];
  }

  /** Dropping an active row keeps the tables consistent exactly when the lowered profile is its trader's. */
  lemma DroppedKeeps(t: Tables, k: nat, p: Option<nat>)
    requires Consistent(t) && k < |t.follows| && t.follows[k].active && (p.Some? ==> p.value < |t.profiles|)
    ensures Consistent(Dropped(t, k, p)) <==> p.Some? && t.profiles[p.value].user == t.follows[k].trader
  {
    var next := Dropped(t, k, p);
    var trader := t.follows[k].trader;
    RowReplaced(t.profiles, t.follows, k, next.follows[k]);
    assert HasProfile(t.profiles, trader);
    var own :| 0 <= own < |t.profiles| && t.profiles[own].user == trader;
    if p.Some? && t.profiles[p.value].user == trader {
      OneLowered(t.profiles, t.follows, p.value, next.follows);
      StillOwned(t.profiles, next.profiles, next.follows);
    } else {
      TraderNotLowered(t.profiles, t.follows, p, own, next.follows);
    }
  }

  // ---- Every run ----

  datatype Event =
    | ProfileCreated(id: int, user: int, isPublic: bool)
    | VisibilityChanged(user: int, isPublic: bool)
    | WebFollowed(caller: Option<int>, id: int, settings: Settings, access: bool)
    | WebUnfollowed(caller: Option<int>, id: int)
    | BotFollowed(follower: int, trader: int, mode: string, amount: real)
    | BotUnfollowed(follower: int, trader: int)

  function Step(t: Tables, e: Event): Tables {
    match e
    case ProfileCreated(id, user, isPublic) =>
      if First(t.profiles, IdIs(id)).Some? || First(t.profiles, UserIs(user)).Some? then t
      else t.(profiles := t.profiles + [Profile(id, user, isPublic, Some(0))])
    case VisibilityChanged(user, isPublic) =>
      (match First(t.profiles, UserIs(user))
       case None => t
       case Some(p) => t.(profiles := t.profiles[p := t.profiles[p].(isPublic := isPublic)]))
    case WebFollowed(caller, id, settings, access) => WebFollow(t, caller, id, settings, access).1
    case WebUnfollowed(caller, id) => WebUnfollow(t, caller, id).1
    case BotFollowed(follower, trader, mode, amount) => BotFollow(t, follower, trader, mode, amount).1
    case BotUnfollowed(follower, trader) => BotUnfollow(t, follower, trader).1
  }

  function Run(events: seq<Event>): Tables {
    if events == [] then Tables([], []) else Step(Run(events[..|events| - 1]), events[|events| - 1])
  }

  lemma StrangerHasNoFollowers(t: Tables, user: int)
    requires Consistent(t) && First(t.profiles, UserIs(user)).None?
    ensures Active(t.follows, user) == 0
  {
    forall i | 0 <= i < |t.follows|
      ensures t.follows[i].trader != user
    {
      assert HasProfile(t.profiles, t.follows[i].trader);
      var j :| 0 <= j < |t.profiles| && t.profiles[j].user == t.follows[i].trader;
      assert !UserIs(user)(t.profiles[j]);
    }
    NoneActive(t.follows, user);
  }

  lemma ProfileAdded(t: Tables, f: Profile)
    requires Consistent(t) && f.followers == Some(0)
    requires First(t.profiles, IdIs(f.id)).None? && First(t.profiles, UserIs(f.user)).None?
    ensures Consistent(t.(profiles := t.profiles + [f]))
  {
    var next := t.profiles + [f];
    StrangerHasNoFollowers(t, f.user);
    forall j | 0 <= j < |t.profiles|
      ensures t.profiles[j].user != f.user && t.profiles[j].id != f.id
    {
      assert !UserIs(f.user)(t.profiles[j]) && !IdIs(f.id)(t.profiles[j]);
    }
    forall i | 0 <= i < |t.follows|
      ensures HasProfile(next, t.follows[i].trader)
    {
      assert HasProfile(t.profiles, t.follows[i].trader);
      var j :| 0 <= j < |t.profiles| && t.profiles[j].user == t.follows[i].trader;
      assert next[j].user == t.follows[i].trader;
    }
    assert Conserved(next, t.follows);
  }

  lemma ProfilesStepKeeps(t: Tables, e: Event)
    requires Consistent(t) && (e.ProfileCreated? || e.VisibilityChanged?)
    ensures Consistent(Step(t, e))
  {
    var next := Step(t, e);
    if next.profiles != t.profiles {
      if e.ProfileCreated? {
        ProfileAdded(t, Profile(e.id, e.user, e.isPublic, Some(0)));
      } else {
        assert SamePeople(t.profiles, next.profiles);
        StillOwned(t.profiles, next.profiles, t.follows);
      }
    }
  }

  lemma UnfollowIsDrop(t: Tables, k: nat, p: nat)
    requires Consistent(t) && k < |t.follows| && t.follows[k].active
    requires p < |t.profiles| && t.profiles[p].user == t.follows[k].trader
    ensures t.profiles[p].followers.GetOr(0) >= 1
    ensures Dropped(t, k, Some(p)).profiles == t.profiles[p := Counted(t.profiles[p], -1)]
    ensures Clamped(t.profiles[p]) == Counted(t.profiles[p], -1)
  {
    SomeActive(t.follows, k);
  }

  lemma WebStepKeeps(t: Tables, e: Event)
    requires Consistent(t) && (e.WebFollowed? || e.WebUnfollowed?)
    ensures Consistent(Step(t, e))
  {
    if e.WebFollowed? {
      if WebFollow(t, e.caller, e.id, e.settings, e.access).0 == Success {
        SubscribedKeeps(t, First(t.profiles, IdIs(e.id)).value, e.caller.value, Settling(e.settings));
      }
    } else if WebUnfollow(t, e.caller, e.id).0 == Success {
      var p := First(t.profiles, IdIs(e.id)).value;
      var k := First(t.follows, ActivePairIs(e.caller.value, t.profiles[p].user)).value;
      UnfollowIsDrop(t, k, p);
      DroppedKeeps(t, k, Some(p));
    }
  }

  lemma BotStepKeeps(t: Tables, e: Event)
    requires Consistent(t) && (e.BotFollowed? || e.BotUnfollowed?)
    ensures Consistent(Step(t, e))
  {
    if e.BotFollowed? {
      if BotFollow(t, e.follower, e.trader, e.mode, e.amount).0 == Success {
        SubscribedKeeps(t, First(t.profiles, UserIs(e.trader)).value, e.follower, InMode(e.mode, e.amount));
      }
    } else if BotUnfollow(t, e.follower, e.trader).0 == Success {
      var k := First(t.follows, ActivePairIs(e.follower, e.trader)).value;
      assert HasProfile(t.profiles, t.follows[k].trader);
      var j :| 0 <= j < |t.profiles| && t.profiles[j].user == t.follows[k].trader;
      assert UserIs(e.trader)(t.profiles[j]);
      DroppedKeeps(t, k, First(t.profiles, UserIs(e.trader)));
    }
  }

  lemma StepKeeps(t: Tables, e: Event)
    requires Consistent(t)
    ensures Consistent(Step(t, e))
  {
    match e
    case ProfileCreated(_, _, _) => ProfilesStepKeeps(t, e);
    case VisibilityChanged(_, _) => ProfilesStepKeeps(t, e);
    case WebFollowed(_, _, _, _) => WebStepKeeps(t, e);
    case WebUnfollowed(_, _) => WebStepKeeps(t, e);
    case BotFollowed(_, _, _, _) => BotStepKeeps(t, e);
    case BotUnfollowed(_, _) => BotStepKeeps(t, e);
  }

  /**
   * Over every sequence of requests to the terminal and the bot: each trader's count is the number of
   * active rows for that trader, a pair has one row at most, and nobody follows themselves.
   */
  lemma {:induction false} CountsAreConserved(events: seq<Event>)
    ensures Consistent(Run(events))
  {
    if events != [] {
      CountsAreConserved(events[..|events| - 1]);
      StepKeeps(Run(events[..|events| - 1]), events[|events| - 1]);
    }
  }

  /** In every reachable state, an unfollow that succeeds lowers a positive count by one: no clamping. */
  lemma ClampNeverActs(events: seq<Event>, caller: Option<int>, id: int)
    requires WebUnfollow(Run(events), caller, id).0 == Success
    ensures var t := Run(events); var p := First(t.profiles, IdIs(id));
      && p.Some? && t.profiles[p.value].followers.GetOr(0) >= 1
      && WebUnfollow(t, caller, id).1.profiles == t.profiles[p.value := Counted(t.profiles[p.value], -1)]
  {
    CountsAreConserved(events);
    var t := Run(events);
    var p := First(t.profiles, IdIs(id)).value;
    UnfollowIsDrop(t, First(t.follows, ActivePairIs(caller.value, t.profiles[p].user)).value, p);
  }

  /**
   * The mobile endpoint keeps the counts exactly when it finds nothing to unfollow, or when the number
   * it was given is both the trader's user and the id of that same trader's profile.
   */
  lemma MobileUnfollowKeepsIff(t: Tables, user: int, id: int)
    requires Consistent(t)
    ensures Consistent(MobileUnfollow(t, user, id).1)
      <==> First(t.follows, ActivePairIs(user, id)).None?
           || (First(t.profiles, IdIs(id)).Some? && t.profiles[First(t.profiles, IdIs(id)).value].user == id)
  {
    var k := First(t.follows, ActivePairIs(user, id));
    if k.Some? {
      DroppedKeeps(t, k.value, First(t.profiles, IdIs(id)));
    }
  }

  const FIRST := Profile(1, 2, true, Some(0))
  const SECOND := Profile(2, 5, true, Some(0))
  const PLAIN := Settings(Notify, map[])

  function MixedUp(): seq<Event> {
    [ProfileCreated(1, 2, true), ProfileCreated(2, 5, true), WebFollowed(Some(3), 1, PLAIN, false)]
  }

  lemma MixedUpProfiles()
    ensures Run(MixedUp()[..2]) == Tables([FIRST, SECOND], [])
  {
    var events := MixedUp();
    assert events[..2][..1] == events[..1] && events[..1][..0] == [];
    assert Run(events[..1]) == Tables([FIRST], []);
    assert !IdIs(2)(FIRST) && !UserIs(5)(FIRST) && [FIRST] + [SECOND] == [FIRST, SECOND];
  }

  lemma MixedUpFollow()
    ensures WebFollow(Tables([FIRST, SECOND], []), Some(3), 1, PLAIN, false).1
      == Tables([Counted(FIRST, 1), SECOND], [Applied(NewFollow(3, 2), PLAIN)])
  {
    assert IdIs(1)([FIRST, SECOND][0]);
    assert First([FIRST, SECOND], IdIs(1)) == Some(0);
    assert [FIRST, SECOND][0 := Counted(FIRST, 1)] == [Counted(FIRST, 1), SECOND];
    assert [] + [Applied(NewFollow(3, 2), PLAIN)] == [Applied(NewFollow(3, 2), PLAIN)];
  }

  /** In a reachable state it does break them: user 3 leaves user 2, and the profile with id 2 is user 5's. */
  lemma MobileUnfollowBreaks()
    ensures var t := Run(MixedUp());
      Consistent(t) && MobileUnfollow(t, 3, 2).0 == Success && !Consistent(MobileUnfollow(t, 3, 2).1)
  {
    MixedUpProfiles();
    MixedUpFollow();
    CountsAreConserved(MixedUp());
    var t := Run(MixedUp());
    assert t == Tables([Counted(FIRST, 1), SECOND], [Applied(NewFollow(3, 2), PLAIN)]);
    assert ActivePairIs(3, 2)(t.follows[0]) && IdIs(2)(t.profiles[1]) && !IdIs(2)(t.profiles[0]);
    MobileUnfollowKeepsIff(t, 3, 2);
  }

  /** The Mini App's follow keeps the counts exactly when it is refused: no count follows its row. */
  lemma MiniAppFollowKeepsIff(t: Tables, follower: int, trader: int, settle: Follow -> Follow)
    requires Consistent(t) && Settles(settle)
    ensures Consistent(MiniAppFollow(t, follower, trader, settle).1)
      <==> MiniAppFollow(t, follower, trader, settle).0 != Success
  {
    var r := MiniAppFollow(t, follower, trader, settle);
    if r.0 == Success {
      var k := First(t.follows, PairIs(follower, trader));
      var f := if k.Some? then r.1.follows[k.value] else r.1.follows[|t.follows|];
      assert SamePair(settle(NewFollow(follower, trader)), NewFollow(follower, trader));
      MiniAppCounts(t, follower, trader, settle);
      if own :| 0 <= own < |t.profiles| && t.profiles[own].user == trader {
        assert r.1.profiles[own].followers.GetOr(0) != Active(r.1.follows, trader);
      } else {
        assert f.trader == trader && !HasProfile(r.1.profiles, trader);
      }
    }
  }

  lemma MiniAppCounts(t: Tables, follower: int, trader: int, settle: Follow -> Follow)
    requires Settles(settle) && MiniAppFollow(t, follower, trader, settle).0 == Success
    ensures Active(MiniAppFollow(t, follower, trader, settle).1.follows, trader) == Active(t.follows, trader) + 1
  {
    match First(t.follows, PairIs(follower, trader))
    case Some(k) =>
      ActiveUpdate(t.follows, k, t.follows[k].(active := true), trader);
    case None =>
      var f := settle(NewFollow(follower, trader));
      assert SamePair(f, NewFollow(follower, trader)) && f.active;
      assert (t.follows + [f])[..|t.follows|] == t.follows;
  }

  /**
   * After a Mini App follow of a profile, the terminal's unfollow takes off a count that was never added:
   * it clamps if nobody followed before, and otherwise leaves the count one too low.
   */
  lemma MiniAppFollowThenUnfollow(t: Tables, follower: int, p: nat, settle: Follow -> Follow)
    requires DistinctProfiles(t.profiles) && Settles(settle) && p < |t.profiles|
    requires t.profiles[p].followers.GetOr(0) == Active(t.follows, t.profiles[p].user)
    requires MiniAppFollow(t, follower, t.profiles[p].user, settle).0 == Success
    ensures var mid := MiniAppFollow(t, follower, t.profiles[p].user, settle).1;
      var end := WebUnfollow(mid, Some(follower), t.profiles[p].id);
      var n := t.profiles[p].followers.GetOr(0);
      && end.0 == Success && Active(end.1.follows, t.profiles[p].user) == n
      && |end.1.profiles| == |t.profiles|
      && end.1.profiles[p].followers == Some(if n == 0 then 0 else n - 1)
  {
    MiniAppCounts(t, follower, t.profiles[p].user, settle);
    MiniAppRow(t, follower, t.profiles[p].user, settle);
    UncountedUnfollow(t, MiniAppFollow(t, follower, t.profiles[p].user, settle).1, follower, p);
  }

  lemma UncountedUnfollow(t: Tables, mid: Tables, follower: int, p: nat)
    requires DistinctProfiles(t.profiles) && mid.profiles == t.profiles && p < |t.profiles|
    requires t.profiles[p].followers.GetOr(0) == Active(t.follows, t.profiles[p].user)
    requires Active(mid.follows, t.profiles[p].user) == Active(t.follows, t.profiles[p].user) + 1
    requires First(mid.follows, ActivePairIs(follower, t.profiles[p].user)).Some?
    ensures var end := WebUnfollow(mid, Some(follower), t.profiles[p].id);
      var n := t.profiles[p].followers.GetOr(0);
      && end.0 == Success && Active(end.1.follows, t.profiles[p].user) == n
      && |end.1.profiles| == |t.profiles|
      && end.1.profiles[p].followers == Some(if n == 0 then 0 else n - 1)
  {
    UnfollowTakesOne(mid, follower, p);
  }

  lemma UnfollowTakesOne(t: Tables, user: int, p: nat)
    requires p < |t.profiles| && DistinctProfiles(t.profiles)
    requires First(t.follows, ActivePairIs(user, t.profiles[p].user)).Some?
    ensures var end := WebUnfollow(t, Some(user), t.profiles[p].id); var trader := t.profiles[p].user;
      && end.0 == Success && Active(end.1.follows, trader) == Active(t.follows, trader) - 1
      && end.1.profiles == t.profiles[p := Clamped(t.profiles[p])]
  {
    assert IdIs(t.profiles[p].id)(t.profiles[p]);
    var k := First(t.follows, ActivePairIs(user, t.profiles[p].user)).value;
    ActiveUpdate(t.follows, k, t.follows[k].(active := false), t.profiles[p].user);
  }

  lemma MiniAppRow(t: Tables, follower: int, trader: int, settle: Follow -> Follow)
    requires Settles(settle) && MiniAppFollow(t, follower, trader, settle).0 == Success
    ensures First(MiniAppFollow(t, follower, trader, settle).1.follows, ActivePairIs(follower, trader)).Some?
  {
    var rows := MiniAppFollow(t, follower, trader, settle).1.follows;
    match First(t.follows, PairIs(follower, trader))
    case Some(k) =>
      assert ActivePairIs(follower, trader)(rows[k]);
    case None =>
      assert SamePair(settle(NewFollow(follower, trader)), NewFollow(follower, trader));
      assert ActivePairIs(follower, trader)(rows[|t.follows|]);
  }

  /** Its unfollow keeps the counts exactly when the pair has no active row. */
  lemma MiniAppUnfollowKeepsIff(t: Tables, follower: int, trader: int)
    requires Consistent(t)
    ensures Consistent(MiniAppUnfollow(t, follower, trader).1)
      <==> First(t.follows, ActivePairIs(follower, trader)).None?
  {
    match First(t.follows, PairIs(follower, trader))
    case None =>
      assert forall i :: 0 <= i < |t.follows| ==> !PairIs(follower, trader)(t.follows[i]);
    case Some(k) =>
      if t.follows[k].active {
        assert ActivePairIs(follower, trader)(t.follows[k]);
        DroppedKeeps(t, k, None);
      } else {
        assert t.follows[k := t.follows[k].(active := false)] == t.follows;
        forall i | 0 <= i < |t.follows|
          ensures !ActivePairIs(follower, trader)(t.follows[i])
        {
          assert i != k ==> !SamePair(t.follows[i], t.follows[k]);
        }
      }
  }

  // ---- Follow and unfollow undo each other ----

  ghost predicate IsFollowing(t: Tables, user: int, trader: int) {
    exists i :: 0 <= i < |t.follows| && ActivePairIs(user, trader)(t.follows[i])
  }

  /** Exactly when the terminal accepts a follow, in a consistent state. */
  lemma FollowAcceptedIff(t: Tables, user: int, p: nat, s: Settings, access: bool)
    requires Consistent(t) && p < |t.profiles|
    ensures var r := WebFollow(t, Some(user), t.profiles[p].id, s, access);
      && (r.0 == Success <==>
            (t.profiles[p].isPublic && t.profiles[p].user != user
             && (s.copyMode == Notify || access) && !IsFollowing(t, user, t.profiles[p].user)))
      && (r.0 == Success ==> IsFollowing(r.1, user, t.profiles[p].user))
      && (r.0 != Success ==> r.1 == t)
  {
    var trader := t.profiles[p].user;
    assert IdIs(t.profiles[p].id)(t.profiles[p]);
    var k := First(t.follows, PairIs(user, trader));
    if i: nat :| i < |t.follows| && ActivePairIs(user, trader)(t.follows[i]) {
      assert PairIs(user, trader)(t.follows[i]);
    }
    var r := WebFollow(t, Some(user), t.profiles[p].id, s, access);
    if r.0 == Success {
      var at := if k.Some? then k.value else |t.follows|;
      assert ActivePairIs(user, trader)(r.1.follows[at]);
    }
  }

  /** A number that is no profile's names nobody, whatever is asked. */
  lemma NobodyFound(t: Tables, user: int, id: int, s: Settings, access: bool)
    requires forall p :: 0 <= p < |t.profiles| ==> t.profiles[p].id != id
    ensures WebFollow(t, Some(user), id, s, access) == (TraderNotFound, t)
    ensures WebUnfollow(t, Some(user), id) == (TraderNotFound, t)
  {
    assert forall p :: 0 <= p < |t.profiles| ==> !IdIs(id)(t.profiles[p]);
  }

  /** In a consistent state an unfollow is accepted exactly when there is something to undo, public or not. */
  lemma UnfollowAcceptedIff(t: Tables, user: int, p: nat)
    requires Consistent(t) && p < |t.profiles|
    ensures var r := WebUnfollow(t, Some(user), t.profiles[p].id);
      && (r.0 == Success <==> IsFollowing(t, user, t.profiles[p].user))
      && (r.0 == Success ==> r.1.profiles == t.profiles[p := Counted(t.profiles[p], -1)])
      && (r.0 != Success ==> r == (NotFollowing, t))
      && |r.1.follows| == |t.follows| && !IsFollowing(r.1, user, t.profiles[p].user)
      && forall i :: 0 <= i < |t.follows| && !PairIs(user, t.profiles[p].user)(t.follows[i]) ==>
           r.1.follows[i] == t.follows[i]
  {
    var id, trader := t.profiles[p].id, t.profiles[p].user;
    assert IdIs(id)(t.profiles[p]);
    match First(t.follows, ActivePairIs(user, trader))
    case None =>
    case Some(k) =>
      UnfollowIsDrop(t, k, p);
      forall i | 0 <= i < |t.follows| && i != k
        ensures !ActivePairIs(user, trader)(t.follows[i])
      {
        assert SamePair(t.follows[i], t.follows[k]) ==> false;
      }
  }

  lemma FollowIsSubscribed(t: Tables, user: int, p: nat, s: Settings, access: bool)
    requires Consistent(t) && p < |t.profiles|
    requires WebFollow(t, Some(user), t.profiles[p].id, s, access).0 == Success
    ensures WebFollow(t, Some(user), t.profiles[p].id, s, access).1 == Subscribed(t, p, user, Settling(s))
    ensures t.profiles[p].user != user
    ensures var k := First(t.follows, PairIs(user, t.profiles[p].user)); k.Some? ==> !t.follows[k.value].active
  {
    assert IdIs(t.profiles[p].id)(t.profiles[p]);
  }

  /** The row carries the settings asked for; limits that the request does not give stay as they were. */
  ghost predicate Settled(f: Follow, s: Settings) {
    && (f.mode == "notify" <==> s.copyMode == Notify) && (f.kind == "percentage" <==> s.copyMode == Percentage)
    && forall limit :: limit in s.limits ==> limit in f.limits && f.limits[limit] == s.limits[limit]
  }

  lemma AppliedSettles(f: Follow, s: Settings)
    ensures Settled(Applied(f, s), s) && forall limit :: limit in f.limits && limit !in s.limits ==>
      limit in Applied(f, s).limits && Applied(f, s).limits[limit] == f.limits[limit]
  {
  }

  /** An accepted follow leaves an active row of the pair with those settings. */
  lemma FollowSettles(t: Tables, user: int, p: nat, s: Settings, access: bool) returns (i: nat)
    requires Consistent(t) && p < |t.profiles|
    requires WebFollow(t, Some(user), t.profiles[p].id, s, access).0 == Success
    ensures var now := WebFollow(t, Some(user), t.profiles[p].id, s, access).1;
      && i < |now.follows| && ActivePairIs(user, t.profiles[p].user)(now.follows[i]) && Settled(now.follows[i], s)
  {
    FollowIsSubscribed(t, user, p, s, access);
    var trader := t.profiles[p].user;
    match First(t.follows, PairIs(user, trader))
    case Some(k) =>
      i := k;
      AppliedSettles(t.follows[k].(active := true), s);
    case None =>
      i := |t.follows|;
      AppliedSettles(NewFollow(user, trader), s);
  }

  lemma SubscribedShape(t: Tables, p: nat, follower: int, settle: Follow -> Follow)
    requires p < |t.profiles|
    ensures var mid := Subscribed(t, p, follower, settle);
      && mid.profiles == t.profiles[p := Counted(t.profiles[p], 1)]
      && SameButPair(t, mid, follower, t.profiles[p].user)
  {
  }

  /** Same rows as in `t`, but for those of one pair, of which there is one more at most. */
  ghost predicate SameButPair(t: Tables, now: Tables, user: int, trader: int) {
    && |t.follows| <= |now.follows| <= |t.follows| + 1
    && forall i :: 0 <= i < |t.follows| && !PairIs(user, trader)(t.follows[i]) ==> now.follows[i] == t.follows[i]
  }

  lemma UnfollowAfter(t: Tables, mid: Tables, user: int, p: nat)
    requires Consistent(mid) && p < |t.profiles| && t.profiles[p].followers.Some?
    requires mid.profiles == t.profiles[p := Counted(t.profiles[p], 1)]
    requires IsFollowing(mid, user, t.profiles[p].user) && SameButPair(t, mid, user, t.profiles[p].user)
    ensures var end := WebUnfollow(mid, Some(user), t.profiles[p].id);
      && end.0 == Success && end.1.profiles == t.profiles
      && !IsFollowing(end.1, user, t.profiles[p].user) && SameButPair(t, end.1, user, t.profiles[p].user)
  {
    UnfollowAcceptedIff(mid, user, p);
    assert mid.profiles[p := Counted(mid.profiles[p], -1)] == t.profiles;
  }

  /**
   * An unfollow undoes a follow: it is accepted, every profile is as before, and the rows differ only in
   * the row of that pair, which is not active.
   */
  lemma UnfollowUndoesFollow(t: Tables, user: int, p: nat, s: Settings, access: bool)
    requires Consistent(t) && p < |t.profiles| && t.profiles[p].followers.Some?
    requires WebFollow(t, Some(user), t.profiles[p].id, s, access).0 == Success
    ensures var mid := WebFollow(t, Some(user), t.profiles[p].id, s, access).1;
      var end := WebUnfollow(mid, Some(user), t.profiles[p].id);
      && end.0 == Success && end.1.profiles == t.profiles
      && !IsFollowing(end.1, user, t.profiles[p].user) && SameButPair(t, end.1, user, t.profiles[p].user)
  {
    FollowIsSubscribed(t, user, p, s, access);
    FollowAcceptedIff(t, user, p, s, access);
    SubscribedKeeps(t, p, user, Settling(s));
    SubscribedShape(t, p, user, Settling(s));
    UnfollowAfter(t, Subscribed(t, p, user, Settling(s)), user, p);
  }
}
