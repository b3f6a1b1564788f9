/** The order in which scripts/check_env_schema.py prints, and that it leaves only one text to print. */
module SchemaOrder {
  import opened Options
  import opened SchemaText

  // ---- The order of strings ----

  /** Strictly before in code point order: a proper prefix, or smaller where the two first differ. */
  ghost predicate Precedes(a: string, b: string) {
    a < b || exists k: nat :: DiffersBelow(a, b, k)
  }

  predicate DiffersBelow(a: string, b: string, k: nat) {
    k < |a| && k < |b| && a[..k] == b[..k] && a[k] < b[k]
  }

  lemma {:induction false} StringLeIff(a: string, b: string)
    ensures StringLe(a, b) <==> a == b || Precedes(a, b)
  {
    if a != "" && b != "" {
      assert a[..0] == b[..0];
      if a[0] < b[0] {
        assert DiffersBelow(a, b, 0);
      } else if a[0] == b[0] {
        StringLeIff(a[1..], b[1..]);
        assert a == [a[0]] + a[1..] && b == [b[0]] + b[1..];
        forall k: nat
          ensures DiffersBelow(a[1..], b[1..], k) <==> DiffersBelow(a, b, k + 1)
        {
          DiffersLater(a, b, k);
        }
        assert a < b <==> a[1..] < b[1..];
        if k: nat :| DiffersBelow(a, b, k) {
          assert DiffersBelow(a[1..], b[1..], k - 1);
        }
      } else {
        assert forall k: nat :: DiffersBelow(a, b, k) ==> k > 0 && a[..k][0] == b[..k][0];
      }
    }
  }

  lemma DiffersLater(a: string, b: string, k: nat)
    requires a != "" && b != "" && a[0] == b[0]
    ensures DiffersBelow(a[1..], b[1..], k) <==> DiffersBelow(a, b, k + 1)
  {
    if k + 1 < |a| && k + 1 < |b| {
      assert a[..k + 1] == [a[0]] + a[1..][..k] && b[..k + 1] == [b[0]] + b[1..][..k];
    }
  }

  lemma {:induction false} StringLeAntisymmetric(a: string, b: string)
    requires StringLe(a, b) && StringLe(b, a)
    ensures a == b
  {
    if a != "" && b != "" {
      StringLeAntisymmetric(a[1..], b[1..]);
      assert a == [a[0]] + a[1..] && b == [b[0]] + b[1..];
    }
  }

  ghost predicate Rising<T>(s: seq<T>, key: T -> string) {
    forall i, j :: 0 <= i < j < |s| ==> Precedes(key(s[i]), key(s[j]))
  }

  lemma PrecedesIsStrict(a: string, b: string)
    requires Precedes(a, b)
    ensures a != b && StringLe(a, b) && !Precedes(b, a)
  {
    StringLeIff(a, b);
    StringLeIff(b, a);
    if a == b || Precedes(b, a) {
      if a != b {
        StringLeAntisymmetric(a, b);
      }
      NeverBeforeItself(a);
    }
  }

  lemma NeverBeforeItself(a: string)
    ensures !Precedes(a, a)
  {
  }

  /** There is one way only to put things into rising order. */
  lemma {:induction false} RisingUnique<T>(a: seq<T>, b: seq<T>, key: T -> string)
    requires Rising(a, key) && Rising(b, key) && forall x :: x in a <==> x in b
    ensures a == b
  {
    if a == [] || b == [] {
      FirstIsIn(a);
      FirstIsIn(b);
    } else {
      FirstsAgree(a, b, key);
      RestAgrees(a, b, key);
      RisingUnique(a[1..], b[1..], key);
      assert a == [a[0]] + a[1..] && b == [b[0]] + b[1..];
    }
  }

  lemma FirstIsIn<T>(s: seq<T>)
    ensures s != [] ==> s[0] in s
  {
  }

  lemma FirstsAgree<T>(a: seq<T>, b: seq<T>, key: T -> string)
    requires a != [] && b != [] && Rising(a, key) && Rising(b, key) && forall x :: x in a <==> x in b
    ensures a[0] == b[0]
  {
    assert a[0] in b && b[0] in a;
    var i :| 0 <= i < |b| && b[i] == a[0];
    var j :| 0 <= j < |a| && a[j] == b[0];
    if i > 0 && j > 0 {
      PrecedesIsStrict(key(b[0]), key(b[i]));
    }
  }

  lemma RestAgrees<T>(a: seq<T>, b: seq<T>, key: T -> string)
    requires a != [] && b != [] && Rising(a, key) && Rising(b, key) && forall x :: x in a <==> x in b
    requires a[0] == b[0]
    ensures forall x :: x in a[1..] <==> x in b[1..]
  {
    NotAgain(a, key);
    NotAgain(b, key);
    assert a == [a[0]] + a[1..] && b == [b[0]] + b[1..];
    assert forall x :: x in a[1..] <==> x in a && x != a[0];
    assert forall x :: x in b[1..] <==> x in b && x != b[0];
  }

  lemma NotAgain<T>(s: seq<T>, key: T -> string)
    requires s != [] && Rising(s, key)
    ensures s[0] !in s[1..]
  {
    forall j | 0 < j < |s|
      ensures s[j] != s[0]
    {
      PrecedesIsStrict(key(s[0]), key(s[j]));
    }
  }

  // ---- The parts of a file ----

  /** A service's part of the file. */
  datatype Part = Part(service: string, fields: seq<EnvVar>)

  function ServiceOf(p: Part): string {
    p.service
  }

  function PartLines(p: Part): seq<string> {
    [SectionLine(p.service)] + FieldLines(p.fields) + [""]
  }

  function Lines(parts: seq<Part>): seq<string> {
    if parts == [] then [] else Lines(parts[..|parts| - 1]) + PartLines(parts[|parts| - 1])
  }

  function AllFields(parts: seq<Part>): seq<EnvVar> {
    if parts == [] then [] else AllFields(parts[..|parts| - 1]) + parts[|parts| - 1].fields
  }

  /**
   * One part for each service, in rising order; in each part the fields of its service, none of them behind
   * one with a later name; and every field in some part, as often as it is listed.
   */
  ghost predicate InOrder(parts: seq<Part>, fields: seq<EnvVar>) {
    && Rising(parts, ServiceOf)
    && (forall i :: 0 <= i < |parts| ==> PartInOrder(parts[i]))
    && multiset(AllFields(parts)) == multiset(fields)
  }

  ghost predicate PartInOrder(p: Part) {
    && p.fields != [] && (forall f :: f in p.fields ==> f.service == p.service)
    && (forall j, k :: 0 <= j < k < |p.fields| ==> !Precedes(p.fields[k].name, p.fields[j].name))
  }

  // ---- What is printed is in order ----

  function PartOf(fields: seq<EnvVar>, service: string): Part {
    Part(service, Sorted(OfService(fields, service), NameOf))
  }

  function Parts(fields: seq<EnvVar>, services: seq<string>): seq<Part> {
    seq(|services|, i requires 0 <= i < |services| => PartOf(fields, services[i]))
  }

  lemma {:induction false} OfServiceCount(fields: seq<EnvVar>, service: string, f: EnvVar)
    ensures multiset(OfService(fields, service))[f] == if f.service == service then multiset(fields)[f] else 0
  {
    if fields != [] {
      var front, last := fields[..|fields| - 1], fields[|fields| - 1];
      OfServiceCount(front, service, f);
      assert fields == front + [last];
    }
  }

  lemma {:induction false} PartsCount(fields: seq<EnvVar>, services: seq<string>, f: EnvVar)
    requires forall i, j :: 0 <= i < j < |services| ==> services[i] != services[j]
    ensures multiset(AllFields(Parts(fields, services)))[f] == if f.service in services then multiset(fields)[f] else 0
    ensures Lines(Parts(fields, services)) == Sections(fields, services)
  {
    if services != [] {
      var front, last := services[..|services| - 1], services[|services| - 1];
      assert Parts(fields, services) == Parts(fields, front) + [PartOf(fields, last)];
      assert services == front + [last];
      PartsCount(fields, front, f);
      SortedKeeps(OfService(fields, last), NameOf);
      OfServiceCount(fields, last, f);
    }
  }

  lemma {:induction false} ServicesAre(fields: seq<EnvVar>, s: string)
    ensures s in Services(fields) <==> exists f :: f in fields && f.service == s
  {
    if fields != [] {
      var front, last := fields[..|fields| - 1], fields[|fields| - 1];
      ServicesAre(front, s);
      assert fields == front + [last] && last in fields;
    }
  }

  lemma {:induction false} ServicesOnce(fields: seq<EnvVar>, s: string)
    ensures multiset(Services(fields))[s] <= 1
  {
    if fields != [] {
      ServicesOnce(fields[..|fields| - 1], s);
    }
  }

  lemma SortedServices(fields: seq<EnvVar>)
    ensures var all := Sorted(Services(fields), Itself);
      Rising(all, Itself) && forall s :: s in all <==> exists f :: f in fields && f.service == s
  {
    var all := Sorted(Services(fields), Itself);
    SortedMembers(Services(fields), Itself);
    SortedKeeps(Services(fields), Itself);
    SortedOrders(Services(fields), Itself);
    forall i, j | 0 <= i < j < |all|
      ensures Precedes(Itself(all[i]), Itself(all[j]))
    {
      ServicesOnce(fields, all[i]);
      RisesWhere(all, i, j);
    }
    forall s
      ensures s in all <==> exists f :: f in fields && f.service == s
    {
      ServicesAre(fields, s);
    }
  }

  lemma RisesWhere(all: seq<string>, i: nat, j: nat)
    requires i < j < |all| && Ordered(all, Itself) && multiset(all)[all[i]] <= 1
    ensures Precedes(all[i], all[j])
  {
    TwiceInside(all, i, j);
    assert StringLe(Itself(all[i]), Itself(all[j]));
    StringLeIff(all[i], all[j]);
  }

  lemma {:induction false} OnceEach<T>(s: seq<T>, x: T)
    requires forall i, j :: 0 <= i < j < |s| ==> s[i] != s[j]
    ensures multiset(s)[x] <= 1
  {
    if s != [] {
      var front, last := s[..|s| - 1], s[|s| - 1];
      assert s == front + [last];
      OnceEach(front, x);
      assert last !in front;
      assert last !in multiset(front);
    }
  }

  lemma TwiceInside<T>(s: seq<T>, i: nat, j: nat)
    requires i < j < |s|
    ensures s[i] == s[j] ==> multiset(s)[s[i]] >= 2
  {
    assert s == s[..j] + s[j..] && s[i] in s[..j] && s[j] in s[j..];
    assert multiset(s) == multiset(s[..j]) + multiset(s[j..]);
    assert s[..j][i] in multiset(s[..j]) && s[j..][0] in multiset(s[j..]);
  }

  lemma PartOfInOrder(fields: seq<EnvVar>, service: string)
    requires exists f :: f in fields && f.service == service
    ensures PartInOrder(PartOf(fields, service))
  {
    var some, p := OfService(fields, service), PartOf(fields, service);
    SortedMembers(some, NameOf);
    SortedOrders(some, NameOf);
    forall f
      ensures f in some <==> f in fields && f.service == service
    {
      OfServiceCount(fields, service, f);
      assert f in some <==> f in multiset(some);
      assert f in fields <==> f in multiset(fields);
    }
    forall j, k | 0 <= j < k < |p.fields|
      ensures !Precedes(p.fields[k].name, p.fields[j].name)
    {
      assert StringLe(NameOf(p.fields[j]), NameOf(p.fields[k]));
      StringLeIff(p.fields[j].name, p.fields[k].name);
      if Precedes(p.fields[k].name, p.fields[j].name) {
        PrecedesIsStrict(p.fields[k].name, p.fields[j].name);
      }
    }
    var f :| f in fields && f.service == service;
    assert f in p.fields;
  }

  /** What is printed, below the header, are parts in order, one for each service. */
  lemma PrintedInOrder(header: string, fields: seq<EnvVar>) returns (parts: seq<Part>)
    ensures InOrder(parts, fields)
    ensures Render(header, fields) == DropNewlines(header + Unlines(Lines(parts))) + "\n"
  {
    var services := Sorted(Services(fields), Itself);
    parts := Parts(fields, services);
    SortedServices(fields);
    RisingDiffer(services);
    forall i, j | 0 <= i < j < |parts|
      ensures Precedes(ServiceOf(parts[i]), ServiceOf(parts[j]))
    {
      assert Precedes(Itself(services[i]), Itself(services[j]));
    }
    forall i | 0 <= i < |parts|
      ensures PartInOrder(parts[i])
    {
      assert services[i] in services;
      PartOfInOrder(fields, services[i]);
    }
    forall f
      ensures multiset(AllFields(parts))[f] == multiset(fields)[f]
    {
      PartsCount(fields, services, f);
      assert f in fields <==> f in multiset(fields);
    }
    PartsCount(fields, services, EnvVar("", "", false, false, "", None));
  }

  lemma RisingDiffer(s: seq<string>)
    requires Rising(s, Itself)
    ensures forall i, j :: 0 <= i < j < |s| ==> s[i] != s[j]
  {
    forall i, j | 0 <= i < j < |s|
      ensures s[i] != s[j]
    {
      assert Precedes(Itself(s[i]), Itself(s[j]));
      NeverBeforeItself(s[i]);
    }
  }

  // ---- There is only one order ----

  ghost predicate DistinctFields(fields: seq<EnvVar>) {
    forall i, j :: 0 <= i < j < |fields| ==> fields[i].service != fields[j].service || fields[i].name != fields[j].name
  }

  lemma {:induction false} FieldsOfPart(parts: seq<Part>, i: nat)
    requires i < |parts|
    ensures multiset(parts[i].fields) <= multiset(AllFields(parts))
  {
    if i < |parts| - 1 {
      FieldsOfPart(parts[..|parts| - 1], i);
    }
  }

  lemma {:induction false} FieldInSomePart(parts: seq<Part>, f: EnvVar)
    ensures f in AllFields(parts) <==> exists i :: 0 <= i < |parts| && f in parts[i].fields
  {
    if parts != [] {
      var n := |parts| - 1;
      FieldInSomePart(parts[..n], f);
      assert forall i :: 0 <= i < n ==> parts[..n][i] == parts[i];
    }
  }

  lemma PartRises(parts: seq<Part>, fields: seq<EnvVar>, i: nat)
    requires InOrder(parts, fields) && DistinctFields(fields) && i < |parts|
    ensures Rising(parts[i].fields, NameOf)
  {
    var p := parts[i];
    FieldsOfPart(parts, i);
    forall j, k | 0 <= j < k < |p.fields|
      ensures Precedes(NameOf(p.fields[j]), NameOf(p.fields[k]))
    {
      NamesDiffer(p, fields, j, k);
      StringLeTotal(p.fields[j].name, p.fields[k].name);
      StringLeIff(p.fields[j].name, p.fields[k].name);
      StringLeIff(p.fields[k].name, p.fields[j].name);
    }
  }

  lemma NamesDiffer(p: Part, fields: seq<EnvVar>, j: nat, k: nat)
    requires PartInOrder(p) && multiset(p.fields) <= multiset(fields) && DistinctFields(fields)
    requires j < k < |p.fields|
    ensures p.fields[j].name != p.fields[k].name
  {
    var f, g := p.fields[j], p.fields[k];
    OnceEach(fields, f);
    TwiceInside(p.fields, j, k);
    assert f in multiset(p.fields) && g in multiset(p.fields);
    assert f in fields && g in fields;
  }

  lemma PartsDiffer(parts: seq<Part>, i: nat, k: nat)
    requires Rising(parts, ServiceOf) && i < |parts| && k < |parts| && i != k
    ensures parts[i].service != parts[k].service
  {
    var lo, hi := if k < i then k else i, if k < i then i else k;
    assert Precedes(ServiceOf(parts[lo]), ServiceOf(parts[hi]));
    NeverBeforeItself(parts[lo].service);
  }

  lemma PartHolds(parts: seq<Part>, fields: seq<EnvVar>, i: nat, f: EnvVar)
    requires InOrder(parts, fields) && i < |parts|
    ensures f in parts[i].fields <==> f in fields && f.service == parts[i].service
  {
    FieldInSomePart(parts, f);
    assert f in AllFields(parts) <==> f in multiset(AllFields(parts));
    assert f in fields <==> f in multiset(fields);
    if f in fields && f.service == parts[i].service {
      var k :| 0 <= k < |parts| && f in parts[k].fields;
      if k != i {
        PartsDiffer(parts, i, k);
      }
    }
  }

  lemma ServicesOfParts(parts: seq<Part>, fields: seq<EnvVar>, s: string)
    requires InOrder(parts, fields)
    ensures (exists i :: 0 <= i < |parts| && parts[i].service == s) <==> exists f :: f in fields && f.service == s
  {
    if i :| 0 <= i < |parts| && parts[i].service == s {
      var f := parts[i].fields[0];
      PartHolds(parts, fields, i, f);
    }
    if f :| f in fields && f.service == s {
      FieldInSomePart(parts, f);
      assert f in multiset(fields) && f in AllFields(parts);
    }
  }

  /** With distinct fields the order of the parts and of the fields in them is settled. */
  lemma OneOrder(a: seq<Part>, b: seq<Part>, fields: seq<EnvVar>)
    requires InOrder(a, fields) && InOrder(b, fields) && DistinctFields(fields)
    ensures a == b
  {
    forall p
      ensures p in a <==> p in b
    {
      SamePart(a, b, fields, p);
      SamePart(b, a, fields, p);
    }
    RisingUnique(a, b, ServiceOf);
  }

  lemma SamePart(a: seq<Part>, b: seq<Part>, fields: seq<EnvVar>, p: Part)
    requires InOrder(a, fields) && InOrder(b, fields) && DistinctFields(fields)
    ensures p in a ==> p in b
  {
    if p in a {
      var i :| 0 <= i < |a| && a[i] == p;
      ServicesOfParts(a, fields, p.service);
      ServicesOfParts(b, fields, p.service);
      var j :| 0 <= j < |b| && b[j].service == p.service;
      PartRises(a, fields, i);
      PartRises(b, fields, j);
      forall f
        ensures f in p.fields <==> f in b[j].fields
      {
        PartHolds(a, fields, i, f);
        PartHolds(b, fields, j, f);
      }
      RisingUnique(p.fields, b[j].fields, NameOf);
      assert b[j] == p;
    }
  }

  function Dashes(n: nat): string {
    seq(n, _ => '-')
  }

  /** A section's line names its service between one space and another, and ends in at least one dash. */
  lemma SectionLineIs(service: string)
    ensures exists n: nat ::
      && SectionLine(service) == "# ---- service: " + service + " " + Dashes(n)
      && n >= 1 && (|service| + n == 50 || (n == 1 && |service| >= 50))
  {
    var n := if |service| < 49 then 50 - |service| else 1;
    assert SectionLine(service) == "# ---- service: " + service + " " + Dashes(n);
  }

  /** The text does not depend on the order in which distinct fields are collected. */
  lemma CollectedInAnyOrder(header: string, a: seq<EnvVar>, b: seq<EnvVar>)
    requires multiset(a) == multiset(b) && DistinctFields(a)
    ensures Render(header, a) == Render(header, b)
  {
    var p := PrintedInOrder(header, a);
    var q := PrintedInOrder(header, b);
    OneOrder(p, q, a);
  }
}
