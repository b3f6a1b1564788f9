/** How scripts/env_parity.py reads `.env.schema`, and the proof that it recovers what was printed. */
module SchemaReader {
  import opened Text
  import opened Options
  import opened SchemaText

  /** The characters at which Python's `splitlines()` ends a line. */
  predicate IsBreak(c: char) {
    '\n' <= c <= '\r' || '\U{1c}' <= c <= '\U{1e}' || c == '\U{85}' || c == '\U{2028}' || c == '\U{2029}'
  }

  ghost predicate OneLine(s: string) {
    forall i :: 0 <= i < |s| ==> !IsBreak(s[i])
  }

  function BreakAt(s: string): (n: nat)
    ensures n <= |s| && OneLine(s[..n]) && (n < |s| ==> IsBreak(s[n]))
  {
    if s == "" || IsBreak(s[0]) then 0
    else
      var n := 1 + BreakAt(s[1..]);
      assert s[..n] == [s[0]] + s[1..][..n - 1];
      n
  }

  /** Where the next line starts: a carriage return and a newline together end one line. */
  function Next(text: string): (n: nat)
    requires BreakAt(text) < |text|
    ensures BreakAt(text) < n <= |text|
  {
    var n := BreakAt(text);
    if text[n] == '\r' && n + 1 < |text| && text[n + 1] == '\n' then n + 2 else n + 1
  }

  /** `text.splitlines()`. */
  function SplitLines(text: string): seq<string>
    decreases |text|
  {
    if text == "" then []
    else
      var n := BreakAt(text);
      if n == |text| then [text] else [text[..n]] + SplitLines(text[Next(text)..])
  }

  predicate ServiceChar(c: char) {
    'a' <= c <= 'z' || 'A' <= c <= 'Z' || c == '-'
  }

  predicate NameChar(c: char) {
    'A' <= c <= 'Z' || '0' <= c <= '9' || c == '_'
  }

  function ServicePrefix(s: string): string {
    if s == "" || !ServiceChar(s[0]) then "" else [s[0]] + ServicePrefix(s[1..])
  }

  const MARK := "@service="

  /** `.*@service=([a-zA-Z-]+)`: the dot-star is greedy, so the last place that fits is taken. */
  function LastService(s: string): Option<string> {
    if s == "" then None
    else
      var later := LastService(s[1..]);
      if later.Some? then later
      else if StartsWith(s, MARK) && ServicePrefix(s[|MARK|..]) != "" then Some(ServicePrefix(s[|MARK|..]))
      else None
  }

  /** `^#\s*(@required|@optional).*@service=([a-zA-Z-]+)`. */
  function TagMatch(line: string): Option<(bool, string)> {
    if line == "" || line[0] != '#' then None
    else
      var rest := LStrip(line[1..]);
      if !StartsWith(rest, "@required") && !StartsWith(rest, "@optional") then None
      else
        match LastService(rest[9..])
        case None => None
        case Some(service) => Some((StartsWith(rest, "@required"), service))
  }

  function NamePrefix(s: string): (n: nat)
    ensures n <= |s| && (forall i :: 0 <= i < n ==> NameChar(s[i])) && (n < |s| ==> !NameChar(s[n]))
  {
    if s == "" || !NameChar(s[0]) then 0 else 1 + NamePrefix(s[1..])
  }

  /** `^[A-Z0-9_]+=`, and the name before the first equals sign. */
  function NameMatch(line: string): Option<string> {
    var n := NamePrefix(line);
    if 0 < n < |line| && line[n] == '=' then Some(line[..n]) else None
  }

  datatype Reader = Reader(required: set<string>, all: set<string>, pendingRequired: bool, pending: Option<string>)

  const START := Reader({}, {}, false, None)

  function ReadLine(r: Reader, line: string, service: string): Reader {
    match TagMatch(line)
    case Some((required, tagged)) => r.(pendingRequired := required, pending := Some(tagged))
    case None =>
      match NameMatch(line)
      case Some(name) =>
        if r.pending.None? then r
        else if r.pending.value != service then r.(pending := None, pendingRequired := false)
        else Reader(if r.pendingRequired then r.required + {name} else r.required, r.all + {name}, false, None)
      case None => r
  }

  function ReadLines(r: Reader, lines: seq<string>, service: string): Reader
    decreases lines
  {
    if lines == [] then r else ReadLines(ReadLine(r, lines[0], service), lines[1..], service)
  }

  /** `parse_schema` on a file's text. */
  function Parse(text: string, service: string): (set<string>, set<string>) {
    var r := ReadLines(START, SplitLines(text), service);
    (r.required, r.all)
  }

  method ParseSchema(text: string, service: string) returns (required: set<string>, all: set<string>)
    ensures (required, all) == Parse(text, service)
  {
    required, all := {}, {};
    var lines := SplitLines(text);
    var pendingRequired := false;
    var pending: Option<string> := None;
    for i := 0 to |lines|
      invariant ReadLines(START, lines, service)
        == ReadLines(Reader(required, all, pendingRequired, pending), lines[i..], service)
    {
      var line := lines[i];
      assert lines[i..][0] == line && lines[i..][1..] == lines[i + 1..];
      var tag := TagMatch(line);
      if tag.Some? {
        pendingRequired := tag.value.0;
        pending := Some(tag.value.1);
        continue;
      }
      var name := NameMatch(line);
      if pending.Some? && name.Some? {
        if pending.value == service {
          all := all + {name.value};
          if pendingRequired {
            required := required + {name.value};
          }
        }
        pending := None;
        pendingRequired := false;
      }
    }
    assert lines[|lines|..] == [];
  }

  // ---- Splitting printed lines ----

  lemma BreakFirst(a: string, c: char, b: string)
    requires OneLine(a) && IsBreak(c)
    ensures BreakAt(a + [c] + b) == |a|
  {
    var s := a + [c] + b;
    assert s[|a|] == c;
    assert forall i :: 0 <= i < |a| ==> s[i] == a[i];
    assert forall m :: |a| < m <= |s| ==> s[..m][|a|] == c;
  }

  /** The break characters, by code point: line feed to carriage return, the separators, and next line. */
  lemma BreaksAre(c: char)
    ensures IsBreak(c) <==> c as int in {10, 11, 12, 13, 28, 29, 30, 133, 8232, 8233}
  {
  }

  /** A carriage return with a newline behind it is one break. */
  lemma TwoCharacterBreak(a: string, b: string)
    requires OneLine(a)
    ensures SplitLines(a + ['\r'] + (['\n'] + b)) == [a] + SplitLines(b)
  {
    var s := a + ['\r'] + (['\n'] + b);
    BreakFirst(a, '\r', ['\n'] + b);
    assert s[|a|] == '\r' && s[|a| + 1] == '\n';
    assert s[..|a|] == a && s[|a| + 2..] == b;
  }

  /** Any other break is one character. */
  lemma OneCharacterBreak(a: string, c: char, b: string)
    requires OneLine(a) && IsBreak(c) && !(c == '\r' && b != "" && b[0] == '\n')
    ensures SplitLines(a + [c] + b) == [a] + SplitLines(b)
  {
    var s := a + [c] + b;
    BreakFirst(a, c, b);
    assert s[|a|] == c && (b != "" ==> s[|a| + 1] == b[0]);
    assert s[..|a|] == a && s[|a| + 1..] == b;
  }

  lemma RegroupFirst(a: string, b: seq<string>, c: seq<string>)
    ensures [a] + (b + c) == ([a] + b) + c
  {
  }

  lemma NothingBefore(s: string)
    ensures "" + s == s
  {
  }

  lemma BreakAtAppend(a: string, b: string)
    requires BreakAt(a) < |a|
    ensures BreakAt(a + b) == BreakAt(a)
  {
    var n := BreakAt(a);
    BreakFirst(a[..n], a[n], a[n + 1..] + b);
    assert a[..n] + [a[n]] + (a[n + 1..] + b) == a + b;
  }

  lemma SliceAppend(a: string, b: string, n: nat, m: nat)
    requires n <= m <= |a|
    ensures (a + b)[..n] == a[..n] && (a + b)[m..] == a[m..] + b
  {
  }

  /** Text that ends with a newline is split on its own. */
  lemma {:induction false} SplitAppend(a: string, b: string)
    requires a == "" || a[|a| - 1] == '\n'
    ensures SplitLines(a + b) == SplitLines(a) + SplitLines(b)
    decreases |a|
  {
    if a == "" {
      NothingBefore(b);
      assert [] + SplitLines(b) == SplitLines(b);
    } else {
      assert forall m :: m == |a| ==> a[..m][|a| - 1] == '\n';
      var n, next := BreakAt(a), Next(a);
      assert a[next..] != "" ==> a[next..][|a[next..]| - 1] == a[|a| - 1];
      BreakAtAppend(a, b);
      SliceAppend(a, b, n, next);
      assert Next(a + b) == next;
      SplitAppend(a[next..], b);
      RegroupFirst(a[..n], SplitLines(a[next..]), SplitLines(b));
    }
  }

  /** Splitting brings no new characters. */
  lemma {:induction false} SplitChars(text: string, c: char)
    requires c !in text
    ensures forall l :: l in SplitLines(text) ==> c !in l
    decreases |text|
  {
    if text != "" {
      var n := BreakAt(text);
      if n < |text| {
        SplitChars(text[Next(text)..], c);
      }
    }
  }

  // ---- What each printed line does to the reader ----

  predicate GoodName(s: string) {
    s != "" && forall i :: 0 <= i < |s| ==> NameChar(s[i])
  }

  predicate GoodService(s: string) {
    s != "" && forall i :: 0 <= i < |s| ==> ServiceChar(s[i])
  }

  predicate WellNamed(f: EnvVar) {
    GoodName(f.name) && GoodService(f.service)
  }

  ghost predicate GoodField(f: EnvVar) {
    WellNamed(f) && OneLine(f.typ)
  }

  lemma {:induction false} NoMarkNoService(s: string)
    requires '@' !in s
    ensures LastService(s) == None
  {
    if s != "" {
      assert s[0] != '@';
      assert |s| >= |MARK| ==> s[..|MARK|][0] == s[0];
      NoMarkNoService(s[1..]);
    }
  }

  lemma {:induction false} ServicePrefixOfGood(s: string)
    requires forall i :: 0 <= i < |s| ==> ServiceChar(s[i])
    ensures ServicePrefix(s) == s
  {
    if s != "" {
      ServicePrefixOfGood(s[1..]);
    }
  }

  lemma ServiceTagFound(service: string)
    requires GoodService(service)
    ensures LastService(MARK + service) == Some(service)
  {
    var s := MARK + service;
    assert s[..|MARK|] == MARK && s[|MARK|..] == service && s[1..] == MARK[1..] + service;
    assert forall i :: 0 <= i < |MARK[1..]| ==> MARK[1..][i] != '@';
    assert forall i :: 0 <= i < |service| ==> service[i] != '@';
    NoMarkNoService(s[1..]);
    ServicePrefixOfGood(service);
  }

  /** Whatever comes before it, the service tag at the end of the line is the one found. */
  lemma {:induction false} LastServiceFound(before: string, service: string)
    requires GoodService(service)
    ensures LastService(before + (MARK + service)) == Some(service)
  {
    var s := before + (MARK + service);
    if before == "" {
      assert s == MARK + service;
      ServiceTagFound(service);
    } else {
      assert s[1..] == before[1..] + (MARK + service);
      LastServiceFound(before[1..], service);
    }
  }

  lemma JoinTwo(a: string, b: string)
    ensures Join([a, b], " ") == a + " " + b
  {
    assert [a, b][1..] == [b];
  }

  lemma JoinMore(a: string, rest: seq<string>)
    requires rest != []
    ensures Join([a] + rest, " ") == a + (" " + Join(rest, " "))
  {
    assert ([a] + rest)[1..] == rest;
  }

  function Demand(f: EnvVar): string {
    if f.required then "@required" else "@optional"
  }

  function UpToType(f: EnvVar): string {
    if f.sensitive then " " + ("@sensitive" + " ") + "@type=" else " " + "@type="
  }

  lemma Spaced(gap: string, a: string, typ: string, mark: string)
    ensures gap + ((a + typ) + " " + mark) == gap + a + typ + " " + mark
  {
  }

  lemma SpacedTwice(s: string, rest: string)
    ensures " " + (s + (" " + rest)) == " " + (s + " ") + rest
  {
  }

  lemma JoinThree(a: string, b: string, c: string)
    ensures Join([a, b, c], " ") == a + (" " + (b + " " + c))
  {
    assert [a, b, c] == [a] + [b, c];
    JoinMore(a, [b, c]);
    JoinTwo(b, c);
  }

  lemma JoinFour(a: string, b: string, c: string, d: string)
    ensures Join([a, b, c, d], " ") == a + (" " + (b + (" " + (c + " " + d))))
  {
    assert [a, b, c, d] == [a] + [b, c, d];
    JoinMore(a, [b, c, d]);
    JoinThree(b, c, d);
  }

  /** The tags joined: the requirement first, the service last. */
  lemma JoinedTags(f: EnvVar)
    ensures Join(Tags(f), " ") == Demand(f) + (UpToType(f) + f.typ + " " + (MARK + f.service))
  {
    var (typ, mark) := ("@type=" + f.typ, MARK + f.service);
    if f.sensitive {
      assert Tags(f) == [Demand(f), "@sensitive", typ, mark];
      JoinFour(Demand(f), "@sensitive", typ, mark);
      SpacedTwice("@sensitive", typ + " " + mark);
      Spaced(" " + ("@sensitive" + " "), "@type=", f.typ, mark);
    } else {
      assert Tags(f) == [Demand(f), typ, mark];
      JoinThree(Demand(f), typ, mark);
      Spaced(" ", "@type=", f.typ, mark);
    }
  }

  /** The text of a tag line, whatever stands between its two tags. */
  lemma TagTextRead(first: string, before: string, service: string)
    requires first == "@required" || first == "@optional"
    requires GoodService(service)
    ensures TagMatch("# " + (first + (before + (MARK + service)))) == Some((first == "@required", service))
  {
    var joined := first + (before + (MARK + service));
    var line := "# " + joined;
    assert line[0] == '#' && line[1..] == [' '] + joined;
    assert ([' '] + joined)[1..] == joined && joined[0] == first[0] == '@';
    assert LStrip([' '] + joined) == joined;
    assert joined[..9] == first && joined[9..] == before + (MARK + service);
    LastServiceFound(before, service);
    assert "@required"[1] != "@optional"[1];
  }

  /** A printed tag line is read as its field's tags, whatever its type says. */
  lemma TagLineRead(f: EnvVar)
    requires GoodService(f.service)
    ensures TagMatch(TagLine(f)) == Some((f.required, f.service))
  {
    JoinedTags(f);
    TagTextRead(Demand(f), UpToType(f) + f.typ + " ", f.service);
    assert "@required"[1] != "@optional"[1];
  }

  /** The start of a name line, cut anywhere behind its equals sign, is read as the name. */
  lemma NameLineRead(name: string, rest: string)
    requires GoodName(name)
    ensures TagMatch(name + "=" + rest) == None && NameMatch(name + "=" + rest) == Some(name)
  {
    var line := name + "=" + rest;
    assert line[0] == name[0];
    assert forall i :: 0 <= i < |name| ==> line[i] == name[i];
    assert line[|name|] == '=';
    assert line[..|name|] == name;
  }
}
