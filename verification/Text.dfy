/** String operations of the Python scripts, on sequences of characters. */
module Text {

  /** The characters that Python's `str.strip()` and the regex class `\s` treat as white space. */
  predicate IsSpace(c: char) {
    || '\t' <= c <= '\r' || c == ' '
    || '\U{1c}' <= c <= '\U{1f}' || c == '\U{85}' || c == '\U{a0}'
    || c == '\U{1680}' || '\U{2000}' <= c <= '\U{200a}'
    || c == '\U{2028}' || c == '\U{2029}' || c == '\U{202f}' || c == '\U{205f}' || c == '\U{3000}'
  }

  /** The white space characters, by code point. */
  lemma SpacesAre(c: char)
    ensures IsSpace(c) <==>
      || c as int in {9, 10, 11, 12, 13, 28, 29, 30, 31, 32, 133, 160, 5760, 8232, 8233, 8239, 8287, 12288}
      || c as int in {8192, 8193, 8194, 8195, 8196, 8197, 8198, 8199, 8200, 8201, 8202}
  {
  }

  predicate StartsWith(s: string, p: string) {
    |p| <= |s| && s[..|p|] == p
  }

  /** `str.lstrip()`. */
  function LStrip(s: string): string {
    if s != [] && IsSpace(s[0]) then LStrip(s[1..]) else s
  }

  /** `str.rstrip()`. */
  function RStrip(s: string): string {
    if s != [] && IsSpace(s[|s| - 1]) then RStrip(s[..|s| - 1]) else s
  }

  /** `str.strip()`. */
  function Strip(s: string): string {
    RStrip(LStrip(s))
  }

  /** `line.strip() == ""`. */
  predicate Blank(s: string) {
    Strip(s) == ""
  }

  /** Text without white space at either end, and not empty. */
  predicate Trim(s: string) {
    s != "" && !IsSpace(s[0]) && !IsSpace(s[|s| - 1])
  }

  function LowerChar(c: char): char {
    if 'A' <= c <= 'Z' then (c as int + 32) as char else c
  }

  /** `str.lower()` on ASCII letters. */
  function Lower(s: string): (r: string)
    ensures |r| == |s| && forall j :: 0 <= j < |s| ==> r[j] == LowerChar(s[j])
  {
    seq(|s|, j requires 0 <= j < |s| => LowerChar(s[j]))
  }

  /** The same letter, large or small, or the same character. */
  predicate SameLetter(c: char, d: char) {
    || c == d
    || ('A' <= c <= 'Z' && 'a' <= d <= 'z' && d as int - c as int == 32)
    || ('a' <= c <= 'z' && 'A' <= d <= 'Z' && c as int - d as int == 32)
  }

  predicate SameUpToCase(a: string, b: string) {
    |a| == |b| && forall j :: 0 <= j < |a| ==> SameLetter(a[j], b[j])
  }

  lemma LowerEqualIff(a: string, b: string)
    ensures Lower(a) == Lower(b) <==> SameUpToCase(a, b)
  {
    if Lower(a) == Lower(b) {
      assert forall j :: 0 <= j < |a| ==> Lower(a)[j] == Lower(b)[j];
    }
  }

  function Spaces(n: nat): string {
    seq(n, _ => ' ')
  }

  /** `len(line) - len(line.lstrip(" "))`. */
  function IndentOf(s: string): (n: nat)
    ensures n <= |s|
    ensures forall i :: 0 <= i < n ==> s[i] == ' '
    ensures n < |s| ==> s[n] != ' '
  {
    if s != [] && s[0] == ' ' then 1 + IndentOf(s[1..]) else 0
  }

  /** The first index of `c`, or the length when there is none. */
  function IndexOf(s: string, c: char): (n: nat)
    ensures n <= |s|
    ensures c !in s[..n]
    ensures n < |s| ==> s[n] == c
  {
    if s == [] || s[0] == c then 0
    else
      var n := 1 + IndexOf(s[1..], c);
      assert s[..n] == [s[0]] + s[1..][..n - 1];
      n
  }

  /** The part before the first occurrence of `sep`, or everything. */
  function Before(s: string, sep: string): string {
    if s == [] || StartsWith(s, sep) then [] else [s[0]] + Before(s[1..], sep)
  }

  /** `sep in s`, for a non-empty `sep`. */
  predicate Contains(s: string, sep: string) {
    StartsWith(s, sep) || (s != [] && Contains(s[1..], sep))
  }

  /** `sep.join(parts)`. */
  function Join(parts: seq<string>, sep: string): string {
    if parts == [] then ""
    else if |parts| == 1 then parts[0]
    else parts[0] + sep + Join(parts[1..], sep)
  }

  /** `s.split(c)` for a one-character separator: always at least one part. */
  function Split(s: string, c: char): (parts: seq<string>)
    ensures |parts| >= 1
  {
    var n := IndexOf(s, c);
    if n == |s| then [s] else [s[..n]] + Split(s[n + 1..], c)
  }

  // ---- Facts about the operations above ----

  lemma IndexOfFirst(a: string, c: char, b: string)
    requires c !in a
    ensures IndexOf(a + [c] + b, c) == |a|
  {
    var s := a + [c] + b;
    assert s[|a|] == c;
    assert forall i :: 0 <= i < |a| ==> s[i] == a[i];
    assert forall m :: |a| < m <= |s| ==> s[..m][|a|] == c;
  }

  lemma IndexOfAbsent(s: string, c: char)
    requires c !in s
    ensures IndexOf(s, c) == |s|
  {
  }

  lemma IndentOfPadded(n: nat, t: string)
    requires t == "" || t[0] != ' '
    ensures IndentOf(Spaces(n) + t) == n
  {
    var s := Spaces(n) + t;
    assert forall i :: 0 <= i < n ==> s[i] == ' ';
    assert t != "" ==> s[n] == t[0];
  }

  lemma LStripSpaces(n: nat, t: string)
    ensures LStrip(Spaces(n) + t) == LStrip(t)
  {
    if n == 0 {
      assert Spaces(n) + t == t;
    } else {
      assert (Spaces(n) + t)[1..] == Spaces(n - 1) + t;
      LStripSpaces(n - 1, t);
    }
  }

  lemma {:induction false} RStripKeepsFront(a: string, c: char, b: string)
    requires !IsSpace(c)
    ensures RStrip(a + [c] + b) == a + [c] + RStrip(b)
  {
    var s := a + [c] + b;
    if b == "" {
      assert s == a + [c];
    } else {
      assert s[|s| - 1] == b[|b| - 1];
      if IsSpace(b[|b| - 1]) {
        assert s[..|s| - 1] == a + [c] + b[..|b| - 1];
        RStripKeepsFront(a, c, b[..|b| - 1]);
      }
    }
  }

  /** Text that does not begin with white space. */
  predicate Solid(s: string) {
    s != "" && !IsSpace(s[0])
  }

  lemma StripSolid(n: nat, t: string)
    requires Solid(t)
    ensures Strip(Spaces(n) + t) == RStrip(t) && Solid(RStrip(t)) && RStrip(t)[0] == t[0]
    ensures !Blank(Spaces(n) + t)
  {
    LStripSpaces(n, t);
    assert "" + [t[0]] + t[1..] == t;
    RStripKeepsFront("", t[0], t[1..]);
  }

  lemma StripPadded(n: nat, t: string)
    requires Trim(t)
    ensures Strip(Spaces(n) + t) == t && !Blank(Spaces(n) + t)
  {
    LStripSpaces(n, t);
  }

  lemma {:induction false} LStripLength(s: string)
    ensures |LStrip(s)| <= |s|
    ensures LStrip(s) != "" ==> !IsSpace(LStrip(s)[0])
    ensures LStrip(s) == s[|s| - |LStrip(s)|..]
  {
    if s == "" || !IsSpace(s[0]) {
      assert LStrip(s) == s;
    } else {
      LStripLength(s[1..]);
      assert s[1..][|s| - 1 - |LStrip(s)|..] == s[|s| - |LStrip(s)|..];
    }
  }

  predicate StandsAt(s: string, sep: string, i: nat) {
    i + |sep| <= |s| && s[i..i + |sep|] == sep
  }

  lemma StandsAtNext(s: string, sep: string, i: nat)
    requires s != [] && i > 0
    ensures StandsAt(s, sep, i) <==> StandsAt(s[1..], sep, i - 1)
  {
    if i + |sep| <= |s| {
      assert s[i..i + |sep|] == s[1..][i - 1..i - 1 + |sep|];
    }
  }

  /** `sep in s` means that `sep` stands somewhere in `s`. */
  lemma {:induction false} ContainsIff(s: string, sep: string)
    ensures Contains(s, sep) <==> exists i: nat :: StandsAt(s, sep, i)
  {
    assert StartsWith(s, sep) == StandsAt(s, sep, 0) by {
      assert |sep| <= |s| ==> s[0..0 + |sep|] == s[..|sep|];
    }
    if s != [] {
      ContainsIff(s[1..], sep);
      forall i: nat | i > 0
        ensures StandsAt(s, sep, i) <==> StandsAt(s[1..], sep, i - 1)
      {
        StandsAtNext(s, sep, i);
      }
      if i: nat :| StandsAt(s[1..], sep, i) {
        assert StandsAt(s, sep, i + 1);
      }
    }
  }

  /** The part before a separator is what stands before its first occurrence. */
  lemma {:induction false} BeforeFirst(a: string, sep: string, b: string)
    requires sep != "" && forall i: nat :: i < |a| ==> !StandsAt(a + sep + b, sep, i)
    ensures Before(a + sep + b, sep) == a && Contains(a + sep + b, sep)
  {
    var s := a + sep + b;
    if a == "" {
      assert s[..|sep|] == sep;
    } else {
      assert s[1..] == a[1..] + sep + b;
      forall i: nat | i < |a[1..]|
        ensures !StandsAt(s[1..], sep, i)
      {
        StandsAtNext(s, sep, i + 1);
      }
      BeforeFirst(a[1..], sep, b);
      assert !StandsAt(s, sep, 0);
      assert |sep| <= |s| ==> s[0..0 + |sep|] == s[..|sep|];
    }
  }

  /** The parts of a split hold no separator, and joining them gives the text back. */
  lemma {:induction false} SplitParts(s: string, c: char)
    ensures forall p :: p in Split(s, c) ==> c !in p
    ensures Join(Split(s, c), [c]) == s
    decreases |s|
  {
    var n := IndexOf(s, c);
    if n < |s| {
      SplitParts(s[n + 1..], c);
      JoinFirst(s[..n], Split(s[n + 1..], c), c);
      assert s == s[..n] + [c] + s[n + 1..];
    }
  }

  lemma JoinFirst(a: string, parts: seq<string>, c: char)
    requires parts != []
    ensures Join([a] + parts, [c]) == a + [c] + Join(parts, [c])
  {
    assert ([a] + parts)[1..] == parts;
  }

  /** Joining line texts and splitting them again, when no part holds the separator. */
  lemma {:induction false} SplitJoin(parts: seq<string>, c: char)
    requires |parts| >= 1
    requires forall p :: p in parts ==> c !in p
    ensures Split(Join(parts, [c]), c) == parts
  {
    if |parts| == 1 {
      var s := parts[0];
      assert s in parts;
      IndexOfAbsent(s, c);
    } else {
      var tail := Join(parts[1..], [c]);
      var s := parts[0] + [c] + tail;
      IndexOfFirst(parts[0], c, tail);
      assert s[..|parts[0]|] == parts[0];
      assert s[|parts[0]| + 1..] == tail;
      SplitJoin(parts[1..], c);
      assert Split(s, c) == [parts[0]] + Split(tail, c);
      assert parts == [parts[0]] + parts[1..];
    }
  }

  lemma {:induction false} JoinAppend(a: seq<string>, b: seq<string>, sep: string)
    requires a != [] && b != []
    ensures Join(a + b, sep) == Join(a, sep) + sep + Join(b, sep)
  {
    assert (a + b)[1..] == a[1..] + b;
    if |a| > 1 {
      JoinAppend(a[1..], b, sep);
      RegroupText(a[0] + sep, Join(a[1..], sep), sep + Join(b, sep));
      RegroupText(Join(a[1..], sep), sep, Join(b, sep));
      RegroupText(a[0] + sep + Join(a[1..], sep), sep, Join(b, sep));
    } else {
      assert a[1..] + b == b;
    }
  }

  lemma RegroupText(a: string, b: string, c: string)
    ensures (a + b) + c == a + (b + c)
  {
  }

  lemma SplitAcross(p: string, rest: string, c: char)
    ensures Split(p + [c] + rest, c) == Split(p, c) + Split(rest, c)
  {
    var parts := Split(p, c) + Split(rest, c);
    SplitParts(p, c);
    SplitParts(rest, c);
    JoinAppend(Split(p, c), Split(rest, c), [c]);
    assert forall part :: part in parts ==> part in Split(p, c) || part in Split(rest, c);
    SplitJoin(parts, c);
  }
}
