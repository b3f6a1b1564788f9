/** The health payload walker of scripts/status.py: `subsystem_breakdown`. */
module HealthPayload {
  import opened Text
  import opened Options

  /** A parsed payload; the entries of an object keep their order, which the output follows. */
  datatype Payload =
    | Null | Bool(b: bool) | Num(n: real) | Str(s: string) | Arr(items: seq<Payload>) | Obj(entries: seq<Entry>)

  datatype Entry = Entry(key: string, value: Payload)

  datatype Finding = Finding(path: string, value: string)

  const HEALTHY_VALUES := {
    "ok", "up", "healthy", "running", "connected", "alive", "webhook", "polling", "enabled", "ready", "true",
    "pass", "disabled"
  }

  const META_KEYS := {
    "service", "version", "timestamp", "time", "uptime", "env", "region", "commit", "build", "name",
    "source_fingerprint", "worker_fingerprint", "fingerprint"
  }

  const TELEMETRY_PATHS := {
    "memory.tracing", "memory.hard_action", "memory.rss_gb", "memory.peak_gb", "memory.soft_gb", "memory.hard_gb"
  }

  const SHOWN := 12

  function Decimal(n: nat): string {
    (if n < 10 then "" else Decimal(n / 10)) + [('0' as int + n % 10) as char]
  }

  /** The number that a string of decimal digits stands for. */
  function NumberOf(digits: string): int {
    if digits == "" then 0
    else NumberOf(digits[..|digits| - 1]) * 10 + (digits[|digits| - 1] as int - '0' as int)
  }

  lemma OneMoreDigit(front: string, last: char)
    ensures NumberOf(front + [last]) == NumberOf(front) * 10 + (last as int - '0' as int)
  {
    assert (front + [last])[..|front|] == front;
  }

  /** A position is spelled in decimal digits, without a zero before them. */
  lemma {:induction false} DecimalBack(n: nat)
    ensures NumberOf(Decimal(n)) == n && Decimal(n) != ""
    ensures forall k :: 0 <= k < |Decimal(n)| ==> '0' <= Decimal(n)[k] <= '9'
    ensures Decimal(n)[0] == '0' ==> n == 0
  {
    var last := ('0' as int + n % 10) as char;
    if n < 10 {
      OneMoreDigit("", last);
      assert Decimal(n) == "" + [last];
    } else {
      DecimalBack(n / 10);
      OneMoreDigit(Decimal(n / 10), last);
      assert n == n / 10 * 10 + n % 10;
    }
  }

  /** A value that is reported, and how it is shown. */
  function Complaint(leaf: Payload): Option<string> {
    match leaf
    case Bool(b) => if b then None else Some("false")
    case Str(s) => if Lower(Strip(s)) in HEALTHY_VALUES then None else Some(s)
    case _ => None
  }

  predicate Container(p: Payload) {
    p.Arr? || p.Obj?
  }

  predicate Skipped(prefix: string, key: string) {
    key in META_KEYS || prefix + key in TELEMETRY_PATHS
  }

  /** The prefix handed to the walk of an entry's value. */
  function EntryPrefix(prefix: string, e: Entry): string {
    prefix + e.key + if Container(e.value) then "." else ""
  }

  function ItemPrefix(prefix: string, k: nat): string {
    prefix + Decimal(k) + "."
  }

  /** What `walk` appends. */
  function Findings(prefix: string, p: Payload): seq<Finding>
    decreases p
  {
    match p
    case Obj(entries) => EntryFindings(prefix, p, |entries|)
    case Arr(items) => ItemFindings(prefix, p, |items|)
    case _ => if Complaint(p).Some? then [Finding(prefix, Complaint(p).value)] else []
  }

  function EntryFindings(prefix: string, p: Payload, n: nat): seq<Finding>
    requires p.Obj? && n <= |p.entries|
    decreases p, n
  {
    if n == 0 then []
    else
      var e := p.entries[n - 1];
      EntryFindings(prefix, p, n - 1)
      + if Skipped(prefix, e.key) then [] else Findings(EntryPrefix(prefix, e), e.value)
  }

  function ItemFindings(prefix: string, p: Payload, n: nat): seq<Finding>
    requires p.Arr? && n <= |p.items|
    decreases p, n
  {
    if n == 0 then []
    else ItemFindings(prefix, p, n - 1) + Findings(ItemPrefix(prefix, n - 1), p.items[n - 1])
  }

  /** `data.get(key)`. */
  function Field(entries: seq<Entry>, key: string): Option<Payload> {
    if entries == [] then None
    else if entries[|entries| - 1].key == key then Some(entries[|entries| - 1].value)
    else Field(entries[..|entries| - 1], key)
  }

  /** The subtree that is inspected. */
  function Root(data: Payload): (root: Payload)
    requires data.Obj?
    ensures root.Obj?
  {
    var checks := Field(data.entries, "checks");
    if checks.Some? && checks.value.Obj? then checks.value else data
  }

  predicate NotReady(data: Payload)
    requires data.Obj?
  {
    Field(data.entries, "ready") == Some(Bool(false))
  }

  function AllFindings(data: Payload): seq<Finding>
    requires data.Obj?
  {
    (if NotReady(data) then [Finding("ready", "false")] else []) + Findings("", Root(data))
  }

  /** `subsystem_breakdown`, of a body that parses to `data`, if it parses. */
  function Breakdown(data: Option<Payload>): seq<Finding> {
    if data.None? || !data.value.Obj? then []
    else
      var bad := AllFindings(data.value);
      if |bad| <= SHOWN then bad else bad[..SHOWN]
  }

  /** The walk appends to a list that it shares with its callers. */
  class Walker {
    var bad: seq<Finding>

    constructor ()
      ensures bad == []
    {
      bad := [];
    }

    method Walk(prefix: string, p: Payload)
      modifies this
      ensures bad == old(bad) + Findings(prefix, p)
      decreases p
    {
      match p
      case Obj(entries) =>
        var k := 0;
        while k < |entries|
          invariant 0 <= k <= |entries|
          invariant bad == old(bad) + EntryFindings(prefix, p, k)
        {
          WalkEntry(prefix, entries[k]);
          k := k + 1;
        }
      case Arr(items) =>
        var k := 0;
        while k < |items|
          invariant 0 <= k <= |items|
          invariant bad == old(bad) + ItemFindings(prefix, p, k)
        {
          Walk(ItemPrefix(prefix, k), items[k]);
          k := k + 1;
        }
      case Bool(b) =>
        if !b {
          bad := bad + [Finding(prefix, "false")];
        }
      case Str(s) =>
        if Lower(Strip(s)) !in HEALTHY_VALUES {
          bad := bad + [Finding(prefix, s)];
        }
      case _ =>
    }

    method WalkEntry(prefix: string, e: Entry)
      modifies this
      ensures bad == old(bad) + if Skipped(prefix, e.key) then [] else Findings(EntryPrefix(prefix, e), e.value)
      decreases e
    {
      if e.key !in META_KEYS {
        var path := prefix + e.key;
        if path !in TELEMETRY_PATHS {
          Walk(if Container(e.value) then path + "." else path, e.value);
          assert EntryPrefix(prefix, e) == if Container(e.value) then path + "." else path;
        }
      }
    }
  }

  method SubsystemBreakdown(data: Option<Payload>) returns (bad: seq<Finding>)
    ensures bad == Breakdown(data)
  {
    if data.None? || !data.value.Obj? {
      return [];
    }
    var walker := new Walker();
    walker.Walk("", Root(data.value));
    bad := walker.bad;
    if NotReady(data.value) {
      bad := [Finding("ready", "false")] + bad;
    }
    assert bad == AllFindings(data.value);
    if |bad| > SHOWN {
      bad := bad[..SHOWN];
    }
  }

  // ---- Leaves by their route ----

  datatype Hop = Key(at: nat) | Item(at: nat)

  /** The value a route leads to: each hop is a position among an object's entries or a list's items. */
  function At(p: Payload, route: seq<Hop>): Option<Payload> {
    if route == [] then Some(p)
    else
      match route[0]
      case Key(k) => if p.Obj? && k < |p.entries| then At(p.entries[k].value, route[1..]) else None
      case Item(k) => if p.Arr? && k < |p.items| then At(p.items[k], route[1..]) else None
  }

  /** No key on the route is descriptive, and no part of it is a telemetry path. */
  predicate Judged(prefix: string, p: Payload, route: seq<Hop>)
    requires At(p, route).Some?
    decreases |route|
  {
    route == [] ||
      match route[0]
      case Key(k) =>
        var e := p.entries[k];
        !Skipped(prefix, e.key) && Judged(EntryPrefix(prefix, e), e.value, route[1..])
      case Item(k) => Judged(ItemPrefix(prefix, k), p.items[k], route[1..])
  }

  /** The name under which a leaf is reported. */
  function NameOf(prefix: string, p: Payload, route: seq<Hop>): string
    requires At(p, route).Some?
    decreases |route|
  {
    if route == [] then prefix
    else
      match route[0]
      case Key(k) => NameOf(EntryPrefix(prefix, p.entries[k]), p.entries[k].value, route[1..])
      case Item(k) => NameOf(ItemPrefix(prefix, k), p.items[k], route[1..])
  }

  /** The walk reports the leaf at the end of the route as `f`. */
  predicate Reported(prefix: string, p: Payload, route: seq<Hop>, f: Finding) {
    && At(p, route).Some? && Judged(prefix, p, route)
    && NameOf(prefix, p, route) == f.path && Complaint(At(p, route).value) == Some(f.value)
  }

  /** A finding comes from a route. */
  lemma {:induction false} FindingHasRoute(prefix: string, p: Payload, f: Finding) returns (route: seq<Hop>)
    requires f in Findings(prefix, p)
    ensures Reported(prefix, p, route, f)
    decreases p
  {
    match p
    case Obj(entries) => route := EntryHasRoute(prefix, p, |entries|, f);
    case Arr(items) => route := ItemHasRoute(prefix, p, |items|, f);
    case _ => route := [];
  }

  lemma {:induction false} EntryHasRoute(prefix: string, p: Payload, n: nat, f: Finding) returns (route: seq<Hop>)
    requires p.Obj? && n <= |p.entries| && f in EntryFindings(prefix, p, n)
    ensures Reported(prefix, p, route, f)
    decreases p, n
  {
    if f in EntryFindings(prefix, p, n - 1) {
      route := EntryHasRoute(prefix, p, n - 1, f);
    } else {
      var e := p.entries[n - 1];
      var rest := FindingHasRoute(EntryPrefix(prefix, e), e.value, f);
      route := [Key(n - 1)] + rest;
      assert route[1..] == rest;
    }
  }

  lemma {:induction false} ItemHasRoute(prefix: string, p: Payload, n: nat, f: Finding) returns (route: seq<Hop>)
    requires p.Arr? && n <= |p.items| && f in ItemFindings(prefix, p, n)
    ensures Reported(prefix, p, route, f)
    decreases p, n
  {
    if f in ItemFindings(prefix, p, n - 1) {
      route := ItemHasRoute(prefix, p, n - 1, f);
    } else {
      var rest := FindingHasRoute(ItemPrefix(prefix, n - 1), p.items[n - 1], f);
      route := [Item(n - 1)] + rest;
      assert route[1..] == rest;
    }
  }

  lemma {:induction false} EntryListed(prefix: string, p: Payload, k: nat, n: nat, f: Finding)
    requires p.Obj? && k < n <= |p.entries| && !Skipped(prefix, p.entries[k].key)
    requires f in Findings(EntryPrefix(prefix, p.entries[k]), p.entries[k].value)
    ensures f in EntryFindings(prefix, p, n)
    decreases n
  {
    if k < n - 1 {
      EntryListed(prefix, p, k, n - 1, f);
    }
  }

  lemma {:induction false} ItemListed(prefix: string, p: Payload, k: nat, n: nat, f: Finding)
    requires p.Arr? && k < n <= |p.items| && f in Findings(ItemPrefix(prefix, k), p.items[k])
    ensures f in ItemFindings(prefix, p, n)
    decreases n
  {
    if k < n - 1 {
      ItemListed(prefix, p, k, n - 1, f);
    }
  }

  /** Every leaf that the walk has to report is found, at any depth. */
  lemma {:induction false} RouteIsFound(prefix: string, p: Payload, route: seq<Hop>, f: Finding)
    requires Reported(prefix, p, route, f)
    ensures f in Findings(prefix, p)
    decreases |route|
  {
    if route != [] {
      match route[0]
      case Key(k) =>
        RouteIsFound(EntryPrefix(prefix, p.entries[k]), p.entries[k].value, route[1..], f);
        EntryListed(prefix, p, k, |p.entries|, f);
      case Item(k) =>
        RouteIsFound(ItemPrefix(prefix, k), p.items[k], route[1..], f);
        ItemListed(prefix, p, k, |p.items|, f);
    }
  }

  // ---- In the payload's own terms ----

  /** The object's value under a key; of two entries with one key the later counts. */
  ghost predicate Holds(entries: seq<Entry>, key: string, value: Payload) {
    exists k: nat :: LastUnder(entries, key, k) && entries[k].value == value
  }

  ghost predicate LastUnder(entries: seq<Entry>, key: string, k: nat) {
    k < |entries| && entries[k].key == key && forall j :: k < j < |entries| ==> entries[j].key != key
  }

  lemma {:induction false} FieldIff(entries: seq<Entry>, key: string, value: Payload)
    ensures Field(entries, key) == Some(value) <==> Holds(entries, key, value)
  {
    if entries != [] {
      var n := |entries| - 1;
      if entries[n].key == key {
        assert LastUnder(entries, key, n);
      } else {
        FieldIff(entries[..n], key, value);
        forall k: nat
          ensures LastUnder(entries[..n], key, k) <==> LastUnder(entries, key, k)
        {
          assert forall j :: 0 <= j < n ==> entries[..n][j] == entries[j];
        }
      }
    }
  }

  /** What is looked through: the object under `checks`, or everything if there is none. */
  ghost predicate Inspected(data: Payload, root: Payload)
    requires data.Obj?
  {
    if exists c :: Holds(data.entries, "checks", c) && c.Obj? then Holds(data.entries, "checks", root) else root == data
  }

  lemma InspectedIsRoot(data: Payload, root: Payload)
    requires data.Obj?
    ensures Inspected(data, root) <==> root == Root(data)
  {
    forall c
      ensures Field(data.entries, "checks") == Some(c) <==> Holds(data.entries, "checks", c)
    {
      FieldIff(data.entries, "checks", c);
    }
  }

  /** The keys and positions on a route, by name. */
  function NamesOn(p: Payload, route: seq<Hop>): (names: seq<string>)
    requires At(p, route).Some?
    ensures |names| == |route|
    decreases |route|
  {
    if route == [] then []
    else
      match route[0]
      case Key(k) => [p.entries[k].key] + NamesOn(p.entries[k].value, route[1..])
      case Item(k) => [Decimal(k)] + NamesOn(p.items[k], route[1..])
  }

  /** No key on the route is descriptive, and no dotted path on it, below `done`, is telemetry. */
  predicate Watched(done: seq<string>, p: Payload, route: seq<Hop>)
    requires At(p, route).Some?
  {
    var names := NamesOn(p, route);
    forall n :: 0 <= n < |route| && route[n].Key? ==>
      names[n] !in META_KEYS && Join(done + names[..n + 1], ".") !in TELEMETRY_PATHS
  }

  /** How the leaf at the end of a route is named: the dotted path, with a dot behind a list's position. */
  function Label(done: seq<string>, p: Payload, route: seq<Hop>): string
    requires At(p, route).Some?
  {
    if route == [] then Prefix(done)
    else Join(done + NamesOn(p, route), ".") + if route[|route| - 1].Item? then "." else ""
  }

  function Prefix(done: seq<string>): string {
    if done == [] then "" else Join(done, ".") + "."
  }

  lemma {:induction false} DottedNext(done: seq<string>, name: string)
    ensures Join(done + [name], ".") == Prefix(done) + name
  {
    if |done| > 1 {
      assert (done + [name])[1..] == done[1..] + [name];
      DottedNext(done[1..], name);
      Dots(done[0], Join(done[1..], "."), name);
    } else if |done| == 1 {
      assert (done + [name])[1..] == [name];
    } else {
      assert done + [name] == [name];
    }
  }

  lemma Dots(a: string, b: string, c: string)
    ensures a + "." + (b + "." + c) == (a + "." + b) + "." + c
  {
  }

  /** The names on a route, below those already passed. */
  lemma NamesBelow(done: seq<string>, first: string, rest: seq<string>)
    ensures forall n :: 0 <= n <= |rest| ==> done + ([first] + rest)[..n + 1] == (done + [first]) + rest[..n]
    ensures done + ([first] + rest) == (done + [first]) + rest
  {
    forall n | 0 <= n <= |rest|
      ensures done + ([first] + rest)[..n + 1] == (done + [first]) + rest[..n]
    {
      assert ([first] + rest)[..n + 1] == [first] + rest[..n];
    }
  }

  /** Going down one hop: what is asked of the route is asked of the hop and of the rest. */
  lemma WatchedNext(done: seq<string>, p: Payload, route: seq<Hop>, first: string, q: Payload)
    requires route != [] && At(p, route).Some? && At(q, route[1..]).Some?
    requires NamesOn(p, route) == [first] + NamesOn(q, route[1..])
    ensures Watched(done, p, route) <==>
      && (route[0].Key? ==> first !in META_KEYS && Join(done + [first], ".") !in TELEMETRY_PATHS)
      && Watched(done + [first], q, route[1..])
  {
    var names, rest := NamesOn(p, route), NamesOn(q, route[1..]);
    NamesBelow(done, first, rest);
    assert done + names[..1] == done + [first];
    forall n | 0 <= n < |rest|
      ensures Join(done + names[..n + 2], ".") == Join((done + [first]) + rest[..n + 1], ".") && names[n + 1] == rest[n]
    {
      assert done + names[..(n + 1) + 1] == (done + [first]) + rest[..n + 1];
    }
    if Watched(done, p, route) {
      forall n | 0 <= n < |rest| && route[1..][n].Key?
        ensures rest[n] !in META_KEYS && Join((done + [first]) + rest[..n + 1], ".") !in TELEMETRY_PATHS
      {
        assert route[n + 1].Key? && names[n + 1] !in META_KEYS;
      }
    }
    if Watched(done + [first], q, route[1..]) {
      forall n | 0 < n < |route| && route[n].Key?
        ensures names[n] !in META_KEYS && Join(done + names[..n + 1], ".") !in TELEMETRY_PATHS
      {
        assert route[1..][n - 1].Key? && names[(n - 1) + 1] == rest[n - 1];
      }
    }
  }

  lemma {:induction false} JudgedIff(done: seq<string>, p: Payload, route: seq<Hop>)
    requires At(p, route).Some?
    ensures Judged(Prefix(done), p, route) <==> Watched(done, p, route)
    decreases |route|
  {
    if route != [] {
      match route[0]
      case Key(k) =>
        var e := p.entries[k];
        DottedNext(done, e.key);
        WatchedNext(done, p, route, e.key, e.value);
        if Container(e.value) {
          assert EntryPrefix(Prefix(done), e) == Prefix(done + [e.key]);
          JudgedIff(done + [e.key], e.value, route[1..]);
        } else {
          assert route[1..] == [];
        }
      case Item(k) =>
        DottedNext(done, Decimal(k));
        WatchedNext(done, p, route, Decimal(k), p.items[k]);
        assert ItemPrefix(Prefix(done), k) == Prefix(done + [Decimal(k)]);
        JudgedIff(done + [Decimal(k)], p.items[k], route[1..]);
    }
  }

  lemma LabelNext(done: seq<string>, p: Payload, route: seq<Hop>, first: string, q: Payload)
    requires route != [] && At(p, route).Some? && At(q, route[1..]).Some?
    requires NamesOn(p, route) == [first] + NamesOn(q, route[1..])
    ensures Label(done, p, route) ==
      if route[1..] == [] then Join(done + [first], ".") + if route[0].Item? then "." else ""
      else Label(done + [first], q, route[1..])
  {
    NamesBelow(done, first, NamesOn(q, route[1..]));
    if route[1..] == [] {
      assert NamesOn(p, route) == [first];
    }
  }

  lemma {:induction false} NameIsLabel(done: seq<string>, p: Payload, route: seq<Hop>)
    requires At(p, route).Some? && !Container(At(p, route).value)
    ensures NameOf(Prefix(done), p, route) == Label(done, p, route)
    decreases |route|
  {
    if route != [] {
      match route[0]
      case Key(k) =>
        var e := p.entries[k];
        DottedNext(done, e.key);
        LabelNext(done, p, route, e.key, e.value);
        if Container(e.value) {
          assert EntryPrefix(Prefix(done), e) == Prefix(done + [e.key]);
          NameIsLabel(done + [e.key], e.value, route[1..]);
        }
      case Item(k) =>
        DottedNext(done, Decimal(k));
        LabelNext(done, p, route, Decimal(k), p.items[k]);
        assert ItemPrefix(Prefix(done), k) == Prefix(done + [Decimal(k)]);
        NameIsLabel(done + [Decimal(k)], p.items[k], route[1..]);
    }
  }

  /** A leaf that is a fault, and how its value is shown: false, or a text that is no healthy word. */
  predicate Fault(leaf: Payload, shown: string) {
    || (leaf == Bool(false) && shown == "false")
    || (leaf == Str(shown) && Lower(Strip(shown)) !in HEALTHY_VALUES)
  }

  /** The route leads past nothing descriptive and no telemetry to a fault, which is listed as `f`. */
  predicate Unhealthy(root: Payload, route: seq<Hop>, f: Finding) {
    && At(root, route).Some? && Watched([], root, route)
    && Fault(At(root, route).value, f.value) && f.path == Label([], root, route)
  }

  lemma ReportedIff(root: Payload, route: seq<Hop>, f: Finding)
    ensures Reported("", root, route, f) <==> Unhealthy(root, route, f)
  {
    if At(root, route).Some? {
      JudgedIff([], root, route);
      if !Container(At(root, route).value) {
        NameIsLabel([], root, route);
      }
    }
  }

  /** What is looked through has a fault that is not skipped. */
  ghost predicate Ails(data: Payload)
    requires data.Obj?
  {
    exists root, route, f :: Inspected(data, root) && Unhealthy(root, route, f)
  }

  ghost predicate SaysNotReady(data: Payload)
    requires data.Obj?
  {
    Holds(data.entries, "ready", Bool(false))
  }

  /**
   * The breakdown of an object is empty exactly when `ready` is not false and no route, past what is skipped,
   * leads to false or to a text that is no healthy word: cutting the list to twelve never hides a fault.
   */
  lemma BreakdownEmptyIff(data: Payload)
    requires data.Obj?
    ensures Breakdown(Some(data)) == [] <==> !SaysNotReady(data) && !Ails(data)
  {
    var root := Root(data);
    var found := Findings("", root);
    FieldIff(data.entries, "ready", Bool(false));
    InspectedIsRoot(data, root);
    if found != [] {
      var route := FindingHasRoute("", root, found[0]);
      ReportedIff(root, route, found[0]);
    }
    if Ails(data) {
      var other, route, f :| Inspected(data, other) && Unhealthy(other, route, f);
      InspectedIsRoot(data, other);
      ReportedIff(root, route, f);
      RouteIsFound("", root, route, f);
    }
  }

  /** What is listed is genuine, `ready` comes first, and fewer than twelve faults are all listed. */
  lemma BreakdownIsGenuine(data: Payload, root: Payload, f: Finding)
    requires data.Obj? && Inspected(data, root)
    ensures SaysNotReady(data) ==> Breakdown(Some(data)) != [] && Breakdown(Some(data))[0] == Finding("ready", "false")
    ensures f in Breakdown(Some(data)) ==>
      (SaysNotReady(data) && f == Finding("ready", "false")) || exists route :: Unhealthy(root, route, f)
    ensures |Breakdown(Some(data))| <= 12
    ensures |Breakdown(Some(data))| < 12 ==>
      forall route :: Unhealthy(root, route, f) ==> f in Breakdown(Some(data))
  {
    InspectedIsRoot(data, root);
    FieldIff(data.entries, "ready", Bool(false));
    if f in Findings("", root) {
      var route := FindingHasRoute("", root, f);
      ReportedIff(root, route, f);
    }
    forall route | Unhealthy(root, route, f)
      ensures f in AllFindings(data)
    {
      ReportedIff(root, route, f);
      RouteIsFound("", root, route, f);
    }
  }
}
