/** The handle waitlist of api/webapp.py and bot/services/waitlist_service.py, one request at a time. */
module Waitlist {
  import opened Text
  import opened Options
  import opened Queries

  /** Row `k` of the table has id `k + 1`. */
  datatype Signup = Signup(
    id: nat, handle: string, email: string, telegram: Option<string>, code: string, referredBy: Option<nat>)

  datatype Request = Request(
    handle: string, email: string, telegram: Option<string>, ref: Option<string>, website: Option<string>)

  /** The random suffixes a new code may draw: ten short ones, then a long one. */
  datatype Draws = Draws(short: seq<string>, long: string)

  datatype Answer =
    | FakeSuccess | InvalidEmail | InvalidHandle | HandleTaken | Failed
    | Reserved(row: Signup, already: bool)

  // ---- Normal forms ----

  function UpperChar(c: char): char {
    if 'a' <= c <= 'z' then (c as int - 32) as char else c
  }

  function Upper(s: string): (r: string)
    ensures |r| == |s| && forall j :: 0 <= j < |s| ==> r[j] == UpperChar(s[j])
  {
    seq(|s|, j requires 0 <= j < |s| => UpperChar(s[j]))
  }

  function Normal(s: string): string {
    Lower(Strip(s))
  }

  function Last(parts: seq<string>): string
    requires parts != []
  {
    parts[|parts| - 1]
  }

  predicate ValidEmail(email: string) {
    '@' in email && '.' in Last(Split(email, '@')) && |email| <= 254
  }

  predicate Alnum(c: char) {
    'a' <= c <= 'z' || '0' <= c <= '9'
  }

  const RESERVED_HANDLES := {
    "admin", "root", "support", "suwappu", "help", "api", "www", "mod", "moderator", "team", "official",
    "staff", "security", "billing", "system", "null", "undefined"
  }

  predicate MatchesHandleRe(h: string) {
    && 3 <= |h| <= 32 && Alnum(h[0]) && Alnum(h[|h| - 1])
    && forall j :: 0 <= j < |h| ==> Alnum(h[j]) || h[j] == '-'
  }

  datatype Reason = Invalid | ReservedName | Taken

  /** `validate_handle_format`: the reason a handle is refused, if it is. */
  function Refusal(handle: string): Option<Reason> {
    if handle == "" then Some(Invalid)
    else if Contains(handle, "--") then Some(Invalid)
    else if !MatchesHandleRe(handle) then Some(Invalid)
    else if handle in RESERVED_HANDLES then Some(ReservedName)
    else None
  }

  // ---- Queries ----

  function EmailIs(email: string): Signup -> bool {
    (r: Signup) => r.email == email
  }

  function HandleIs(handle: string): Signup -> bool {
    (r: Signup) => r.handle == handle
  }

  function CodeIs(code: string): Signup -> bool {
    (r: Signup) => r.code == code
  }

  function CodeWith(handle: string, suffix: string): string {
    var prefix := Upper(handle);
    (if |prefix| <= 32 then prefix else prefix[..32]) + "-" + suffix
  }

  /** `generate_referral_code`: the first short suffix that is free, or the long one unchecked. */
  function GenerateCode(rows: seq<Signup>, handle: string, short: seq<string>, long: string): string {
    if short == [] then CodeWith(handle, long)
    else if First(rows, CodeIs(CodeWith(handle, short[0]))).None? then CodeWith(handle, short[0])
    else GenerateCode(rows, handle, short[1..], long)
  }

  /** The table's unique indexes and column widths. */
  predicate Insertable(rows: seq<Signup>, row: Signup) {
    && First(rows, HandleIs(row.handle)).None? && First(rows, EmailIs(row.email)).None?
    && First(rows, CodeIs(row.code)).None?
    && |row.handle| <= 32 && |row.email| <= 320 && |row.code| <= 40
  }

  /** Who gets the credit: unknown codes and one's own are ignored. */
  function Referrer(rows: seq<Signup>, ref: Option<string>, email: string): Option<nat> {
    Owner(rows, Strip(ref.GetOr("")), email)
  }

  function Owner(rows: seq<Signup>, code: string, email: string): Option<nat> {
    if code == "" then None
    else
      match First(rows, CodeIs(code))
      case None => None
      case Some(k) => if rows[k].email != email then Some(rows[k].id) else None
  }

  function Telegram(t: Option<string>): Option<string> {
    var s := Strip(t.GetOr(""));
    if s == "" then None else Some(if |s| <= 64 then s else s[..64])
  }

  function NewRow(rows: seq<Signup>, req: Request, draws: Draws): Signup {
    var email, handle := Normal(req.email), Normal(req.handle);
    Signup(|rows| + 1, handle, email, Telegram(req.telegram),
           GenerateCode(rows, handle, draws.short, draws.long), Referrer(rows, req.ref, email))
  }

  /** `waitlist_reserve`. */
  function Reserve(rows: seq<Signup>, req: Request, draws: Draws): (Answer, seq<Signup>) {
    var email, handle := Normal(req.email), Normal(req.handle);
    if Strip(req.website.GetOr("")) != "" then (FakeSuccess, rows)
    else if !ValidEmail(email) then (InvalidEmail, rows)
    else if Refusal(handle).Some? then (InvalidHandle, rows)
    else
      match First(rows, EmailIs(email))
      case Some(k) => (Reserved(rows[k], true), rows)
      case None =>
        if First(rows, HandleIs(handle)).Some? then (HandleTaken, rows)
        else
          var row := NewRow(rows, req, draws);
          if Insertable(rows, row) then (Reserved(row, false), rows + [row]) else (Failed, rows)
  }

  /** `waitlist_availability`. */
  function Availability(rows: seq<Signup>, handle: string): Option<Reason> {
    var h := Normal(handle);
    if Refusal(h).Some? then Refusal(h) else if First(rows, HandleIs(h)).Some? then Some(Taken) else None
  }

  /** The `waitlist_signups` table and the handlers over it. */
  class Signups {
    var rows: seq<Signup>

    constructor ()
      ensures rows == []
    {
      rows := [];
    }

    method GenerateReferralCode(handle: string, draws: Draws) returns (code: string)
      ensures code == GenerateCode(rows, handle, draws.short, draws.long)
    {
      var i := 0;
      while i < |draws.short|
        invariant 0 <= i <= |draws.short|
        invariant GenerateCode(rows, handle, draws.short, draws.long)
               == GenerateCode(rows, handle, draws.short[i..], draws.long)
      {
        code := CodeWith(handle, draws.short[i]);
        if First(rows, CodeIs(code)).None? {
          return;
        }
        i := i + 1;
      }
      code := CodeWith(handle, draws.long);
    }

    method WaitlistReserve(req: Request, draws: Draws) returns (answer: Answer)
      modifies this
      ensures (answer, rows) == Reserve(old(rows), req, draws)
    {
      if Strip(req.website.GetOr("")) != "" {
        return FakeSuccess;
      }
      var email := Normal(req.email);
      if email == "" || '@' !in email || '.' !in Last(Split(email, '@')) || |email| > 254 {
        return InvalidEmail;
      }
      var handle := Normal(req.handle);
      if Refusal(handle).Some? {
        return InvalidHandle;
      }
      var known := First(rows, EmailIs(email));
      if known.Some? {
        return Reserved(rows[known.value], true);
      }
      if First(rows, HandleIs(handle)).Some? {
        return HandleTaken;
      }
      var code := GenerateReferralCode(handle, draws);
      var row := Signup(|rows| + 1, handle, email, Telegram(req.telegram), code, Referrer(rows, req.ref, email));
      if !Insertable(rows, row) {
        return Failed;
      }
      rows := rows + [row];
      return Reserved(row, false);
    }
  }

  // ---- Every reachable table ----

  datatype Event = Event(req: Request, draws: Draws)

  function Run(events: seq<Event>): seq<Signup> {
    if events == [] then []
    else
      var e := events[|events| - 1];
      Reserve(Run(events[..|events| - 1]), e.req, e.draws).1
  }

  ghost predicate Distinct(rows: seq<Signup>) {
    forall j, k :: 0 <= j < k < |rows| ==>
      rows[j].email != rows[k].email && rows[j].handle != rows[k].handle && rows[j].code != rows[k].code
  }

  /** Whoever is credited for a row joined before it, under another email. */
  ghost predicate Forest(rows: seq<Signup>) {
    forall k :: 0 <= k < |rows| && rows[k].referredBy.Some? ==>
      1 <= rows[k].referredBy.value <= k && rows[rows[k].referredBy.value - 1].email != rows[k].email
  }

  ghost predicate Wellformed(rows: seq<Signup>) {
    forall k :: 0 <= k < |rows| ==>
      rows[k].id == k + 1 && ValidEmail(rows[k].email) && Refusal(rows[k].handle).None? && rows[k].code != ""
  }

  lemma {:induction false} CodeNotEmpty(rows: seq<Signup>, handle: string, short: seq<string>, long: string)
    ensures GenerateCode(rows, handle, short, long) != ""
  {
    if short != [] {
      CodeNotEmpty(rows, handle, short[1..], long);
    }
  }

  /** Either nothing changes, or one acceptable row is added at the end. */
  lemma ReserveShape(rows: seq<Signup>, req: Request, draws: Draws)
    ensures var row := NewRow(rows, req, draws); var r := Reserve(rows, req, draws);
      || (r.1 == rows && !(r.0.Reserved? && !r.0.already))
      || (r == (Reserved(row, false), rows + [row]) && Insertable(rows, row) && ValidEmail(row.email)
          && Refusal(row.handle).None?)
  {
  }

  lemma ReferrerIsEarlier(rows: seq<Signup>, ref: Option<string>, email: string)
    requires Wellformed(rows)
    ensures var who := Referrer(rows, ref, email);
      who.Some? ==> 1 <= who.value <= |rows| && rows[who.value - 1].email != email
  {
  }

  lemma InsertedIsNew(rows: seq<Signup>, row: Signup)
    requires Distinct(rows) && Insertable(rows, row)
    ensures Distinct(rows + [row])
  {
    forall j | 0 <= j < |rows|
      ensures rows[j].email != row.email && rows[j].handle != row.handle && rows[j].code != row.code
    {
      assert !EmailIs(row.email)(rows[j]) && !HandleIs(row.handle)(rows[j]) && !CodeIs(row.code)(rows[j]);
    }
  }

  lemma AddedKeeps(rows: seq<Signup>, row: Signup)
    requires Distinct(rows) && Forest(rows) && Wellformed(rows)
    requires Insertable(rows, row) && ValidEmail(row.email) && Refusal(row.handle).None?
    requires row.id == |rows| + 1 && row.code != ""
    requires row.referredBy.Some? ==>
      1 <= row.referredBy.value <= |rows| && rows[row.referredBy.value - 1].email != row.email
    ensures Distinct(rows + [row]) && Forest(rows + [row]) && Wellformed(rows + [row])
  {
    InsertedIsNew(rows, row);
  }

  lemma ReserveKeeps(rows: seq<Signup>, req: Request, draws: Draws)
    requires Distinct(rows) && Forest(rows) && Wellformed(rows)
    ensures var next := Reserve(rows, req, draws).1; Distinct(next) && Forest(next) && Wellformed(next)
    ensures rows <= Reserve(rows, req, draws).1
  {
    ReserveShape(rows, req, draws);
    if Reserve(rows, req, draws).1 != rows {
      var row := NewRow(rows, req, draws);
      ReferrerIsEarlier(rows, req.ref, row.email);
      CodeNotEmpty(rows, row.handle, draws.short, draws.long);
      AddedKeeps(rows, row);
    }
  }

  /** In every reachable state emails, handles and codes are unique and the referrals form a forest. */
  lemma {:induction false} TableInvariant(events: seq<Event>)
    ensures Distinct(Run(events)) && Forest(Run(events)) && Wellformed(Run(events))
  {
    if events != [] {
      var front, e := events[..|events| - 1], events[|events| - 1];
      TableInvariant(front);
      ReserveKeeps(Run(front), e.req, e.draws);
    }
  }

  /** A row, once there, stays where it is and as it is. */
  lemma {:induction false} RowsAreForEver(events: seq<Event>, n: nat)
    requires n <= |events|
    ensures Run(events[..n]) <= Run(events)
  {
    if n == |events| {
      assert events[..n] == events;
    } else {
      var front, e := events[..|events| - 1], events[|events| - 1];
      RowsAreForEver(front, n);
      assert front[..n] == events[..n];
      TableInvariant(front);
      ReserveKeeps(Run(front), e.req, e.draws);
    }
  }

  /** Each row of the chain is credited to the next one, which joined before it. */
  ghost predicate Linked(rows: seq<Signup>, chain: seq<nat>) {
    && (forall j :: 0 <= j < |chain| ==> chain[j] < |rows|)
    && (forall j :: 0 <= j < |chain| - 1 ==>
          chain[j + 1] < chain[j] && rows[chain[j]].referredBy == Some(chain[j + 1] + 1))
  }

  lemma LinkedFrom(rows: seq<Signup>, k: nat, above: seq<nat>)
    requires k < |rows| && above != [] && Linked(rows, above)
    requires above[0] < k && rows[k].referredBy == Some(above[0] + 1)
    ensures Linked(rows, [k] + above)
  {
    var chain := [k] + above;
    forall j | 0 <= j < |chain| - 1
      ensures chain[j + 1] < chain[j] && rows[chain[j]].referredBy == Some(chain[j + 1] + 1)
    {
      assert chain[j + 1] == above[j] && (j > 0 ==> chain[j] == above[j - 1]);
    }
  }

  /** A row, its referrer, the referrer's referrer, and so on down to a row that nobody referred. */
  function Referrers(rows: seq<Signup>, k: nat): (chain: seq<nat>)
    requires k < |rows| && Forest(rows)
    ensures 1 <= |chain| <= k + 1 && chain[0] == k && Linked(rows, chain)
    ensures rows[chain[|chain| - 1]].referredBy == None
  {
    match rows[k].referredBy
    case None => [k]
    case Some(id) =>
      var above := Referrers(rows, id - 1);
      LinkedFrom(rows, k, above);
      [k] + above
  }

  // ---- What a repeated request does ----

  lemma KnownIsFound(rows: seq<Signup>, k: nat)
    requires Distinct(rows) && k < |rows|
    ensures First(rows, EmailIs(rows[k].email)) == Some(k)
  {
    assert EmailIs(rows[k].email)(rows[k]);
  }

  /** Anything a known email sends again is refused or answered with its own row; no row changes. */
  lemma RepeatChangesNothing(events: seq<Event>, k: nat, req: Request, draws: Draws)
    requires k < |Run(events)| && Normal(req.email) == Run(events)[k].email
    ensures var rows := Run(events); var r := Reserve(rows, req, draws);
      && r.1 == rows
      && r.0 == (if Strip(req.website.GetOr("")) != "" then FakeSuccess
                 else if Refusal(Normal(req.handle)).Some? then InvalidHandle
                 else Reserved(rows[k], true))
  {
    TableInvariant(events);
    KnownIsFound(Run(events), k);
  }

  lemma AnsweredRow(rows: seq<Signup>, req: Request, draws: Draws) returns (k: nat)
    requires Reserve(rows, req, draws).0.Reserved?
    ensures var r := Reserve(rows, req, draws);
      && k < |r.1| && r.1[k] == r.0.row && r.0.row.email == Normal(req.email)
      && Strip(req.website.GetOr("")) == "" && Refusal(Normal(req.handle)).None?
  {
    var email := Normal(req.email);
    var found := First(rows, EmailIs(email));
    k := if found.Some? then found.value else |rows|;
  }

  /** A request that was answered with a row is answered with that same row ever after. */
  lemma ReserveThenRepeat(events: seq<Event>, e: Event, later: seq<Event>, again: Draws)
    requires Reserve(Run(events), e.req, e.draws).0.Reserved?
    ensures var first := Reserve(Run(events), e.req, e.draws).0;
      Reserve(Run(events + [e] + later), e.req, again).0 == Reserved(first.row, true)
  {
    var all := events + [e] + later;
    var n := |events| + 1;
    assert all[..n] == events + [e] && (events + [e])[..n - 1] == events;
    RowsAreForEver(all, n);
    var k := AnsweredRow(Run(events), e.req, e.draws);
    assert Run(all)[k] == Run(all[..n])[k];
    RepeatChangesNothing(all, k, e.req, again);
  }

  // ---- Referral credit ----

  lemma CodeIsFound(rows: seq<Signup>, k: nat)
    requires Distinct(rows) && k < |rows|
    ensures First(rows, CodeIs(rows[k].code)) == Some(k)
  {
    assert CodeIs(rows[k].code)(rows[k]);
  }

  lemma OwnerIff(rows: seq<Signup>, code: string, email: string, k: nat)
    requires Distinct(rows) && First(rows, EmailIs(email)).None? && k < |rows|
    requires forall j :: 0 <= j < |rows| ==> rows[j].id == j + 1
    ensures Owner(rows, code, email) == Some(k + 1) <==> code == rows[k].code && code != ""
  {
    match First(rows, CodeIs(code))
    case None =>
      assert !CodeIs(code)(rows[k]);
    case Some(m) =>
      assert !EmailIs(email)(rows[m]);
      assert CodeIs(code)(rows[m]);
      CodeIsFound(rows, k);
  }

  /** A new row is credited to the owner of the code it names, whenever there is one. */
  lemma CreditIffCodeKnown(events: seq<Event>, req: Request, draws: Draws, k: nat)
    requires var r := Reserve(Run(events), req, draws).0; r.Reserved? && !r.already
    requires k < |Run(events)|
    ensures Reserve(Run(events), req, draws).0.row.referredBy == Some(k + 1)
      <==> Strip(req.ref.GetOr("")) == Run(events)[k].code
  {
    TableInvariant(events);
    ReserveShape(Run(events), req, draws);
    OwnerIff(Run(events), Strip(req.ref.GetOr("")), Normal(req.email), k);
  }

  function ReferralCount(rows: seq<Signup>, id: nat): nat {
    if rows == [] then 0
    else
      ReferralCount(rows[..|rows| - 1], id) + if rows[|rows| - 1].referredBy == Some(id) then 1 else 0
  }

  function Credits(rows: seq<Signup>, n: nat): nat {
    if n == 0 then 0 else Credits(rows, n - 1) + ReferralCount(rows, n)
  }

  function ReferredRows(rows: seq<Signup>): nat {
    if rows == [] then 0
    else ReferredRows(rows[..|rows| - 1]) + if rows[|rows| - 1].referredBy.Some? then 1 else 0
  }

  function CreditedBelow(who: Option<nat>, n: nat): nat {
    if who.Some? && 1 <= who.value <= n then 1 else 0
  }

  lemma {:induction false} CreditsGrow(rows: seq<Signup>, n: nat)
    requires rows != []
    ensures Credits(rows, n) == Credits(rows[..|rows| - 1], n)
      + CreditedBelow(rows[|rows| - 1].referredBy, n)
  {
    if n > 0 {
      CreditsGrow(rows, n - 1);
    }
  }

  /** Every referred row is credited once, to a row of the table: no credit is lost or invented. */
  lemma {:induction false} CreditIsConserved(rows: seq<Signup>, n: nat)
    requires Forest(rows) && n >= |rows|
    ensures Credits(rows, n) == ReferredRows(rows)
  {
    if rows == [] {
      NoCredits(n);
    } else {
      CreditsGrow(rows, n);
      CreditIsConserved(rows[..|rows| - 1], n);
    }
  }

  lemma {:induction false} NoCredits(n: nat)
    ensures Credits([], n) == 0
  {
    if n > 0 {
      NoCredits(n - 1);
    }
  }

  // ---- What the availability check promises ----

  predicate CodeTaken(rows: seq<Signup>, handle: string, suffix: string) {
    First(rows, CodeIs(CodeWith(handle, suffix))).Some?
  }

  /** No code can be stored: the short ones drawn are taken, and the long one is taken or too wide. */
  ghost predicate OutOfCodes(rows: seq<Signup>, handle: string, draws: Draws) {
    && (forall j :: 0 <= j < |draws.short| ==> CodeTaken(rows, handle, draws.short[j]))
    && (CodeTaken(rows, handle, draws.long) || |handle| == 32)
  }

  lemma {:induction false} CodeFits(rows: seq<Signup>, handle: string, short: seq<string>, long: string)
    requires |handle| <= 32 && |long| == 8 && forall j :: 0 <= j < |short| ==> |short[j]| == 4
    ensures var code := GenerateCode(rows, handle, short, long);
      First(rows, CodeIs(code)).None? && |code| <= 40 <==> !OutOfCodes(rows, handle, Draws(short, long))
  {
    if short != [] {
      CodeFits(rows, handle, short[1..], long);
      assert forall j :: 1 <= j < |short| ==> short[j] == short[1..][j - 1];
      assert forall j :: 0 <= j < |short[1..]| ==> short[1..][j] == short[j + 1];
    }
  }

  /**
   * For a new email, an available handle is reserved and an unavailable one is refused; the one way in
   * which an available handle is not reserved is that it runs out of codes.
   */
  lemma AvailabilityIsHonest(events: seq<Event>, req: Request, draws: Draws)
    requires Strip(req.website.GetOr("")) == "" && ValidEmail(Normal(req.email))
    requires First(Run(events), EmailIs(Normal(req.email))).None?
    requires |draws.long| == 8 && forall j :: 0 <= j < |draws.short| ==> |draws.short[j]| == 4
    ensures var rows := Run(events); var handle := Normal(req.handle); var r := Reserve(rows, req, draws).0;
      match Availability(rows, req.handle)
      case None => if OutOfCodes(rows, handle, draws) then r == Failed
                   else r.Reserved? && !r.already && r.row.handle == handle
      case Some(Taken) => r == HandleTaken
      case Some(_) => r == InvalidHandle
  {
    var rows, handle := Run(events), Normal(req.handle);
    if Refusal(handle).None? {
      CodeFits(rows, handle, draws.short, draws.long);
    }
  }
}
