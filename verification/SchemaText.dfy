/** The text of `.env.schema`: how scripts/check_env_schema.py prints it. */
module SchemaText {
  import opened Text
  import opened Options

  datatype EnvVar = EnvVar(name: string, service: string, required: bool, sensitive: bool,
                           typ: string, default: Option<string>)

  // ---- sorted() ----

  /** The order of Python strings: by code point, a proper prefix first. */
  predicate StringLe(a: string, b: string) {
    a == "" || (b != "" && (a[0] < b[0] || (a[0] == b[0] && StringLe(a[1..], b[1..]))))
  }

  function NameOf(f: EnvVar): string {
    f.name
  }

  function Itself(s: string): string {
    s
  }

  /** Inserts after every element with the same key, so that sorting by repeated insertion is stable. */
  function Insert<T>(x: T, s: seq<T>, key: T -> string): seq<T> {
    if s == [] || !StringLe(key(s[0]), key(x)) then [x] + s
    else [s[0]] + Insert(x, s[1..], key)
  }

  /** `sorted(s, key=key)`. */
  function Sorted<T>(s: seq<T>, key: T -> string): seq<T> {
    if s == [] then [] else Insert(s[|s| - 1], Sorted(s[..|s| - 1], key), key)
  }

  // ---- render_schema ----

  /** The services in the order in which they first appear. */
  function Services(fields: seq<EnvVar>): seq<string> {
    if fields == [] then []
    else
      var before := Services(fields[..|fields| - 1]);
      var s := fields[|fields| - 1].service;
      if s in before then before else before + [s]
  }

  function OfService(fields: seq<EnvVar>, service: string): seq<EnvVar> {
    if fields == [] then []
    else
      var before := OfService(fields[..|fields| - 1], service);
      var f := fields[|fields| - 1];
      if f.service == service then before + [f] else before
  }

  function SectionLine(service: string): string {
    "# ---- service: " + service + " " + seq(if |service| < 49 then 50 - |service| else 1, _ => '-')
  }

  function Tags(f: EnvVar): seq<string> {
    [if f.required then "@required" else "@optional"]
    + (if f.sensitive then ["@sensitive"] else [])
    + ["@type=" + f.typ, "@service=" + f.service]
  }

  function TagLine(f: EnvVar): string {
    "# " + Join(Tags(f), " ")
  }

  function NameLine(f: EnvVar): string {
    f.name + "=" + if f.sensitive then "" else f.default.GetOr("")
  }

  function FieldLines(fields: seq<EnvVar>): seq<string> {
    if fields == [] then []
    else FieldLines(fields[..|fields| - 1]) + [TagLine(fields[|fields| - 1]), NameLine(fields[|fields| - 1])]
  }

  function Section(fields: seq<EnvVar>, service: string): seq<string> {
    [SectionLine(service)] + FieldLines(Sorted(OfService(fields, service), NameOf)) + [""]
  }

  function Sections(fields: seq<EnvVar>, services: seq<string>): seq<string> {
    if services == [] then []
    else Sections(fields, services[..|services| - 1]) + Section(fields, services[|services| - 1])
  }

  /** Lines, each with its newline. */
  function Unlines(lines: seq<string>): string {
    if lines == [] then "" else Unlines(lines[..|lines| - 1]) + lines[|lines| - 1] + "\n"
  }

  /** `text.rstrip("\n")`. */
  function DropNewlines(text: string): string {
    if text != "" && text[|text| - 1] == '\n' then DropNewlines(text[..|text| - 1]) else text
  }

  /** The whole file, below the fixed comment that heads it. */
  function Render(header: string, fields: seq<EnvVar>): string {
    DropNewlines(header + Unlines(Sections(fields, Sorted(Services(fields), Itself)))) + "\n"
  }

  /** `by_service`, with its keys in insertion order. */
  method GroupByService(fields: seq<EnvVar>) returns (names: seq<string>, byService: map<string, seq<EnvVar>>)
    ensures names == Services(fields)
    ensures forall s :: s in names ==> s in byService && byService[s] == OfService(fields, s)
  {
    names, byService := [], map[];
    for i := 0 to |fields|
      invariant names == Services(fields[..i])
      invariant forall s :: s in byService <==> s in names
      invariant forall s :: OfService(fields[..i], s) == if s in byService then byService[s] else []
    {
      var f := fields[i];
      assert fields[..i + 1][..i] == fields[..i];
      if f.service !in byService {
        names := names + [f.service];
        byService := byService[f.service := []];
      }
      byService := byService[f.service := byService[f.service] + [f]];
    }
    assert fields[..|fields|] == fields;
  }

  method RenderSection(service: string, fields: seq<EnvVar>) returns (out: seq<string>)
    ensures out == [SectionLine(service)] + FieldLines(fields) + [""]
  {
    out := [SectionLine(service)];
    for j := 0 to |fields|
      invariant out == [SectionLine(service)] + FieldLines(fields[..j])
    {
      assert fields[..j + 1][..j] == fields[..j];
      out := out + [TagLine(fields[j])];
      out := out + [NameLine(fields[j])];
    }
    assert fields[..|fields|] == fields;
    out := out + [""];
  }

  /** `render_schema`. */
  method RenderSchema(header: string, fields: seq<EnvVar>) returns (text: string)
    ensures text == Render(header, fields)
  {
    var names, byService := GroupByService(fields);
    var services := Sorted(names, Itself);
    SortedMembers(names, Itself);
    var sections: seq<string> := [];
    for i := 0 to |services|
      invariant sections == Sections(fields, services[..i])
    {
      var service := services[i];
      assert service in names;
      var section := RenderSection(service, Sorted(byService[service], NameOf));
      sections := sections + section;
      assert services[..i + 1][..i] == services[..i];
    }
    assert services[..|services|] == services;
    text := DropNewlines(header + Unlines(sections)) + "\n";
  }

  // ---- What sorting does ----

  lemma {:induction false} StringLeTotal(a: string, b: string)
    ensures StringLe(a, b) || StringLe(b, a)
  {
    if a != "" && b != "" && a[0] == b[0] {
      StringLeTotal(a[1..], b[1..]);
    }
  }

  lemma {:induction false} StringLeTransitive(a: string, b: string, c: string)
    requires StringLe(a, b) && StringLe(b, c)
    ensures StringLe(a, c)
  {
    if a != "" && b != "" && a[0] == b[0] && b[0] == c[0] {
      StringLeTransitive(a[1..], b[1..], c[1..]);
    }
  }

  ghost predicate Ordered<T>(s: seq<T>, key: T -> string) {
    forall i, j :: 0 <= i < j < |s| ==> StringLe(key(s[i]), key(s[j]))
  }

  lemma {:induction false} InsertKeeps<T>(x: T, s: seq<T>, key: T -> string)
    ensures multiset(Insert(x, s, key)) == multiset(s) + multiset{x}
  {
    if s != [] && StringLe(key(s[0]), key(x)) {
      InsertKeeps(x, s[1..], key);
      assert s == [s[0]] + s[1..];
    }
  }

  lemma {:induction false} InsertOrders<T>(x: T, s: seq<T>, key: T -> string)
    requires Ordered(s, key)
    ensures Ordered(Insert(x, s, key), key)
  {
    var r := Insert(x, s, key);
    if s == [] {
    } else if StringLe(key(s[0]), key(x)) {
      InsertOrders(x, s[1..], key);
      InsertKeeps(x, s[1..], key);
      forall j | 0 < j < |r| ensures StringLe(key(r[0]), key(r[j])) {
        assert r[j] in multiset(Insert(x, s[1..], key));
        assert r[j] == x || r[j] in s[1..];
      }
    } else {
      StringLeTotal(key(s[0]), key(x));
      forall j | 0 < j < |r| ensures StringLe(key(r[0]), key(r[j])) {
        if j > 1 {
          StringLeTransitive(key(x), key(s[0]), key(s[j - 1]));
        }
      }
    }
  }

  /** Sorting permutes. */
  lemma {:induction false} SortedKeeps<T>(s: seq<T>, key: T -> string)
    ensures multiset(Sorted(s, key)) == multiset(s)
  {
    if s != [] {
      var front := s[..|s| - 1];
      SortedKeeps(front, key);
      InsertKeeps(s[|s| - 1], Sorted(front, key), key);
      assert s == front + [s[|s| - 1]];
    }
  }

  lemma {:induction false} SortedOrders<T>(s: seq<T>, key: T -> string)
    ensures Ordered(Sorted(s, key), key)
  {
    if s != [] {
      SortedOrders(s[..|s| - 1], key);
      InsertOrders(s[|s| - 1], Sorted(s[..|s| - 1], key), key);
    }
  }

  lemma SortedMembers<T>(s: seq<T>, key: T -> string)
    ensures forall x :: x in Sorted(s, key) <==> x in s
  {
    SortedKeeps(s, key);
    assert forall x :: x in Sorted(s, key) <==> x in multiset(Sorted(s, key));
    assert forall x :: x in s <==> x in multiset(s);
  }
}
