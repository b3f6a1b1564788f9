/**
 * Base64 as the repository uses it: the padded codec of Python's `base64` module, and the unpadded
 * URL-safe pair of api/main.py (section 5 of RFC 4648) built on it.
 */
module Base64 {
  import opened Options

  type Byte = b: nat | b < 256
  type Sextet = v: nat | v < 64

  function Sym(v: Sextet): char {
    if v < 26 then 'A' + v as char
    else if v < 52 then 'a' + (v - 26) as char
    else if v < 62 then '0' + (v - 52) as char
    else if v == 62 then '+' else '/'
  }

  function Value(c: char): Option<Sextet> {
    if 'A' <= c <= 'Z' then Some(c as int - 'A' as int)
    else if 'a' <= c <= 'z' then Some(c as int - 'a' as int + 26)
    else if '0' <= c <= '9' then Some(c as int - '0' as int + 52)
    else if c == '+' then Some(62)
    else if c == '/' then Some(63)
    else None
  }

  function Quad(a: Byte, b: Byte, c: Byte): seq<Sextet> {
    [a / 4, a % 4 * 16 + b / 16, b % 16 * 4 + c / 64, c % 64]
  }

  /** `base64.b64encode`. */
  function Encode(data: seq<Byte>): string {
    if data == [] then ""
    else if |data| == 1 then
      var q := Quad(data[0], 0, 0);
      [Sym(q[0]), Sym(q[1]), '=', '=']
    else if |data| == 2 then
      var q := Quad(data[0], data[1], 0);
      [Sym(q[0]), Sym(q[1]), Sym(q[2]), '=']
    else
      var q := Quad(data[0], data[1], data[2]);
      [Sym(q[0]), Sym(q[1]), Sym(q[2]), Sym(q[3])] + Encode(data[3..])
  }

  /**
   * The default mode of `base64.b64decode`: characters outside the alphabet are skipped, a complete
   * padding ends the input, and an incomplete last group is an error. `quad` counts the symbols of
   * the group being read, `left` holds its bits not yet written and `pads` its padding so far.
   */
  function Scan(s: string, quad: nat, left: nat, pads: nat): Option<seq<Byte>>
    requires quad < 4 && left < 64
    requires quad == 2 ==> left < 16
    requires quad == 3 ==> left < 4
  {
    if s == "" then
      if quad == 0 then Some([]) else None
    else if s[0] == '=' then
      if quad >= 2 && quad + pads + 1 >= 4 then Some([])
      else Scan(s[1..], quad, left, if quad >= 2 then pads + 1 else pads)
    else
      match Value(s[0])
      case None => Scan(s[1..], quad, left, pads)
      case Some(v) =>
        if quad == 0 then Scan(s[1..], 1, v, 0)
        else if quad == 1 then Emit(left * 4 + v / 16, Scan(s[1..], 2, v % 16, 0))
        else if quad == 2 then Emit(left * 16 + v / 4, Scan(s[1..], 3, v % 4, 0))
        else Emit(left * 64 + v, Scan(s[1..], 0, 0, 0))
  }

  function Emit(b: Byte, rest: Option<seq<Byte>>): Option<seq<Byte>> {
    match rest
    case None => None
    case Some(bytes) => Some([b] + bytes)
  }

  predicate Ascii(s: string) {
    forall i :: 0 <= i < |s| ==> s[i] < '\U{80}'
  }

  /** `base64.b64decode`; text that is not ASCII is refused. */
  function Decode(s: string): Option<seq<Byte>> {
    if Ascii(s) then Scan(s, 0, 0, 0) else None
  }

  // ---- The URL-safe pair of api/main.py ----

  function ToUrl(s: string): string {
    if s == "" then ""
    else [if s[0] == '+' then '-' else if s[0] == '/' then '_' else s[0]] + ToUrl(s[1..])
  }

  function FromUrl(s: string): string {
    if s == "" then ""
    else [if s[0] == '-' then '+' else if s[0] == '_' then '/' else s[0]] + FromUrl(s[1..])
  }

  /** `s.rstrip("=")`. */
  function DropPadding(s: string): string {
    if s != "" && s[|s| - 1] == '=' then DropPadding(s[..|s| - 1]) else s
  }

  function Padding(n: nat): string {
    seq(n, _ => '=')
  }

  /** `_base64url_encode`. */
  function UrlEncode(data: seq<Byte>): string {
    DropPadding(ToUrl(Encode(data)))
  }

  /** `_base64url_decode`: the padding restored is `-len(value) % 4` signs. */
  function UrlDecode(value: string): Option<seq<Byte>> {
    Decode(FromUrl(value + Padding(-|value| % 4)))
  }

  // ---- The padded codec ----

  /** An ASCII character that is neither padding, nor the bar, nor special to the URL-safe alphabet. */
  predicate PlainSym(c: char) {
    c < '\U{80}' && c != '=' && c != '|' && c != '-' && c != '_'
  }

  lemma SymIsValue(v: Sextet)
    ensures Value(Sym(v)) == Some(v) && PlainSym(Sym(v))
  {
  }

  lemma QuadBytes(a: Byte, b: Byte, c: Byte)
    ensures var q := Quad(a, b, c);
      var (s, t, u, v) := (q[0] as int, q[1] as int, q[2] as int, q[3] as int);
      s * 4 + t / 16 == a && t % 16 * 16 + u / 4 == b && u % 4 * 64 + v == c
  {
  }

  /** Reading one more symbol of a group. */
  lemma ScanSym(v: Sextet, rest: string, quad: nat, left: nat)
    requires quad < 4 && left < 64
    requires quad == 2 ==> left < 16
    requires quad == 3 ==> left < 4
    ensures Scan([Sym(v)] + rest, quad, left, 0) ==
      if quad == 0 then Scan(rest, 1, v, 0)
      else if quad == 1 then Emit(left * 4 + v / 16, Scan(rest, 2, v % 16, 0))
      else if quad == 2 then Emit(left * 16 + v / 4, Scan(rest, 3, v % 4, 0))
      else Emit(left * 64 + v, Scan(rest, 0, 0, 0))
  {
    SymIsValue(v);
    assert ([Sym(v)] + rest)[1..] == rest;
  }

  lemma ScanTwo(s: Sextet, t: Sextet, rest: string)
    ensures Scan([Sym(s)] + ([Sym(t)] + rest), 0, 0, 0) == Emit(s * 4 + t / 16, Scan(rest, 2, t % 16, 0))
  {
    ScanSym(s, [Sym(t)] + rest, 0, 0);
    ScanSym(t, rest, 1, s);
  }

  lemma ScanTwoMore(u: Sextet, v: Sextet, rest: string, left: nat)
    requires left < 16
    ensures Scan([Sym(u)] + ([Sym(v)] + rest), 2, left, 0)
      == Emit(left * 16 + u / 4, Emit(u % 4 * 64 + v, Scan(rest, 0, 0, 0)))
  {
    ScanSym(u, [Sym(v)] + rest, 2, left);
    ScanSym(v, rest, 3, u % 4);
  }

  lemma ScanFour(s: Sextet, t: Sextet, u: Sextet, v: Sextet, rest: string)
    ensures Scan([Sym(s)] + ([Sym(t)] + ([Sym(u)] + ([Sym(v)] + rest))), 0, 0, 0)
      == Emit(s * 4 + t / 16, Emit(t % 16 * 16 + u / 4, Emit(u % 4 * 64 + v, Scan(rest, 0, 0, 0))))
  {
    ScanTwo(s, t, [Sym(u)] + ([Sym(v)] + rest));
    ScanTwoMore(u, v, rest, t % 16);
  }

  lemma ScanPadding(left: nat)
    requires left < 16
    ensures Scan("==", 2, left, 0) == Some([])
    ensures left < 4 ==> Scan("=", 3, left, 0) == Some([])
  {
    assert "=="[1..] == "=";
  }

  lemma DecodeOne(a: Byte)
    ensures Scan(Encode([a]), 0, 0, 0) == Some([a])
  {
    var q := Quad(a, 0, 0);
    QuadBytes(a, 0, 0);
    assert Encode([a]) == [Sym(q[0])] + ([Sym(q[1])] + "==");
    ScanTwo(q[0], q[1], "==");
    ScanPadding(q[1] % 16);
    assert [a] + [] == [a];
  }

  lemma DecodeTwo(a: Byte, b: Byte)
    ensures Scan(Encode([a, b]), 0, 0, 0) == Some([a, b])
  {
    var q := Quad(a, b, 0);
    QuadBytes(a, b, 0);
    assert Encode([a, b]) == [Sym(q[0])] + ([Sym(q[1])] + ([Sym(q[2])] + "="));
    ScanTwo(q[0], q[1], [Sym(q[2])] + "=");
    ScanSym(q[2], "=", 2, q[1] % 16);
    ScanPadding(q[2] % 4);
    assert [a] + ([b] + []) == [a, b];
  }

  lemma DecodeThree(a: Byte, b: Byte, c: Byte, more: seq<Byte>)
    requires Scan(Encode(more), 0, 0, 0) == Some(more)
    ensures Scan(Encode([a, b, c] + more), 0, 0, 0) == Some([a, b, c] + more)
  {
    var q := Quad(a, b, c);
    var rest := Encode(more);
    QuadBytes(a, b, c);
    assert ([a, b, c] + more)[3..] == more;
    assert Encode([a, b, c] + more) == [Sym(q[0])] + ([Sym(q[1])] + ([Sym(q[2])] + ([Sym(q[3])] + rest)));
    ScanFour(q[0], q[1], q[2], q[3], rest);
    assert [a] + ([b] + ([c] + more)) == [a, b, c] + more;
  }

  /** Decoding undoes encoding on every byte string. */
  lemma {:induction false} DecodeEncode(data: seq<Byte>)
    ensures Scan(Encode(data), 0, 0, 0) == Some(data)
  {
    if |data| == 1 {
      DecodeOne(data[0]);
      assert data == [data[0]];
    } else if |data| == 2 {
      DecodeTwo(data[0], data[1]);
      assert data == [data[0], data[1]];
    } else if |data| > 2 {
      DecodeEncode(data[3..]);
      DecodeThree(data[0], data[1], data[2], data[3..]);
      assert data == [data[0], data[1], data[2]] + data[3..];
    }
  }

  /** The encoding is ASCII, and the bar that joins the parts of a refresh token is not in it. */
  lemma {:induction false} EncodeChars(data: seq<Byte>)
    ensures Ascii(Encode(data)) && '|' !in Encode(data) && '-' !in Encode(data) && '_' !in Encode(data)
  {
    if data != [] {
      var q := Quad(data[0], if |data| > 1 then data[1] else 0, if |data| > 2 then data[2] else 0);
      SymIsValue(q[0]);
      SymIsValue(q[1]);
      SymIsValue(q[2]);
      SymIsValue(q[3]);
      if |data| > 2 {
        EncodeChars(data[3..]);
      }
    }
  }

  lemma PaddedRoundTrip(data: seq<Byte>)
    ensures Decode(Encode(data)) == Some(data) && '|' !in Encode(data)
  {
    DecodeEncode(data);
    EncodeChars(data);
  }

  // ---- The unpadded URL-safe codec ----

  /** The symbols of the encoding, without its padding. */
  function Unpadded(data: seq<Byte>): int {
    (4 * |data| + 2) / 3
  }

  /** `n` symbols that are not padding, then padding up to a multiple of four. */
  ghost predicate Shape(s: string, n: int) {
    && 0 <= n <= |s| && |s| == n + (-n) % 4
    && (forall i :: n <= i < |s| ==> s[i] == '=')
    && (forall i :: 0 <= i < n ==> PlainSym(s[i]))
  }

  lemma ShapeCons(q: string, s: string, n: int)
    requires |q| == 4 && Shape(q, 4) && Shape(s, n)
    ensures Shape(q + s, n + 4)
  {
  }

  lemma GroupShape(c: char, d: char, e: char, f: char, n: int)
    requires PlainSym(c) && PlainSym(d) && 2 <= n <= 4
    requires if n == 2 then e == '=' else PlainSym(e)
    requires if n < 4 then f == '=' else PlainSym(f)
    ensures Shape([c, d, e, f], n)
  {
  }

  lemma ShortShape(data: seq<Byte>)
    requires 1 <= |data| <= 2
    ensures Shape(Encode(data), |data| + 1)
  {
    var q := Quad(data[0], if |data| == 2 then data[1] else 0, 0);
    var (c, d, e) := (Sym(q[0]), Sym(q[1]), if |data| == 2 then Sym(q[2]) else '=');
    assert Encode(data) == [c, d, e, '='];
    SymIsValue(q[0]);
    SymIsValue(q[1]);
    SymIsValue(q[2]);
    GroupShape(c, d, e, '=', |data| + 1);
  }

  lemma LongShape(data: seq<Byte>, n: int)
    requires |data| >= 3 && Shape(Encode(data[3..]), n)
    ensures Shape(Encode(data), n + 4)
  {
    var q := Quad(data[0], data[1], data[2]);
    SymIsValue(q[0]);
    SymIsValue(q[1]);
    SymIsValue(q[2]);
    SymIsValue(q[3]);
    var (c, d, e, f) := (Sym(q[0]), Sym(q[1]), Sym(q[2]), Sym(q[3]));
    GroupShape(c, d, e, f, 4);
    ShapeCons([c, d, e, f], Encode(data[3..]), n);
  }

  lemma UnpaddedSteps(data: seq<Byte>)
    ensures |data| < 3 ==> Unpadded(data) == if data == [] then 0 else |data| + 1
    ensures |data| >= 3 ==> Unpadded(data) == Unpadded(data[3..]) + 4
  {
  }

  lemma {:induction false} EncodeShape(data: seq<Byte>)
    ensures Shape(Encode(data), Unpadded(data)) && Unpadded(data) % 4 != 1
  {
    UnpaddedSteps(data);
    if |data| >= 3 {
      EncodeShape(data[3..]);
      LongShape(data, Unpadded(data[3..]));
    } else if data != [] {
      ShortShape(data);
    }
  }

  lemma UrlMaps(s: string)
    ensures |ToUrl(s)| == |s| && |FromUrl(s)| == |s|
    ensures forall i :: 0 <= i < |s| ==>
      ToUrl(s)[i] == if s[i] == '+' then '-' else if s[i] == '/' then '_' else s[i]
    ensures forall i :: 0 <= i < |s| ==>
      FromUrl(s)[i] == if s[i] == '-' then '+' else if s[i] == '_' then '/' else s[i]
  {
  }

  lemma {:induction false} DropPaddingShape(s: string, n: int)
    requires 0 <= n <= |s| && (forall i :: n <= i < |s| ==> s[i] == '=')
    requires n > 0 ==> s[n - 1] != '='
    ensures DropPadding(s) == s[..n]
  {
    if n < |s| {
      DropPaddingShape(s[..|s| - 1], n);
      assert s[..|s| - 1][..n] == s[..n];
    } else {
      assert s[..n] == s;
    }
  }

  lemma FromToUrl(s: string)
    requires '-' !in s && '_' !in s
    ensures FromUrl(ToUrl(s)) == s
  {
    UrlMaps(s);
    UrlMaps(ToUrl(s));
  }

  lemma UrlOfShape(s: string, n: int)
    requires Shape(s, n)
    ensures var e := DropPadding(ToUrl(s));
      && |e| == n && '=' !in e && '+' !in e && '/' !in e
      && e + Padding(-n % 4) == ToUrl(s)
  {
    UrlMaps(s);
    DropPaddingShape(ToUrl(s), n);
  }

  /**
   * Encoding drops the padding and nothing else, the length kept is four thirds of the input rounded
   * up and never one past a multiple of four, and `-len % 4` signs are exactly what was dropped.
   */
  lemma UrlEncodeShape(data: seq<Byte>)
    ensures var e := UrlEncode(data);
      && |e| == (4 * |data| + 2) / 3 && |e| % 4 != 1
      && '=' !in e && '+' !in e && '/' !in e
      && e + Padding(-|e| % 4) == ToUrl(Encode(data))
  {
    EncodeShape(data);
    UrlOfShape(Encode(data), Unpadded(data));
  }

  lemma UrlPaddingRestored(data: seq<Byte>)
    ensures var e := UrlEncode(data); FromUrl(e + Padding(-|e| % 4)) == Encode(data)
  {
    UrlEncodeShape(data);
    EncodeChars(data);
    FromToUrl(Encode(data));
  }

  lemma UrlRoundTrip(data: seq<Byte>)
    ensures UrlDecode(UrlEncode(data)) == Some(data)
  {
    UrlPaddingRestored(data);
    PaddedRoundTrip(data);
  }

  /** No two byte strings share an encoding. */
  lemma UrlEncodeInjective(a: seq<Byte>, b: seq<Byte>)
    requires UrlEncode(a) == UrlEncode(b)
    ensures a == b
  {
    UrlRoundTrip(a);
    UrlRoundTrip(b);
  }
}
