/** Which byte strings decode as UTF-8, by section 4 of RFC 3629, and that they are the encodings of texts. */
module Utf8Bytes {
  import opened Base64

  predicate Continues(b: Byte) {
    0x80 <= b < 0xC0
  }

  /** The length of the well-formed sequence of bytes at the start, by section 4 of RFC 3629; 0 if none. */
  function Utf8Head(b: seq<Byte>): (n: nat)
    ensures n <= |b| && (b == [] ==> n == 0)
  {
    if b == [] then 0
    else if b[0] < 0x80 then 1
    else if |b| >= 2 && 0xC2 <= b[0] < 0xE0 && Continues(b[1]) then 2
    else if |b| >= 3 && 0xE0 <= b[0] < 0xF0 && Continues(b[1]) && Continues(b[2])
            && (b[0] == 0xE0 ==> b[1] >= 0xA0) && (b[0] == 0xED ==> b[1] < 0xA0) then 3
    else if |b| >= 4 && 0xF0 <= b[0] < 0xF5 && Continues(b[1]) && Continues(b[2]) && Continues(b[3])
            && (b[0] == 0xF0 ==> b[1] >= 0x90) && (b[0] == 0xF4 ==> b[1] < 0x90) then 4
    else 0
  }

  /** The bytes decode as UTF-8. */
  predicate Utf8(b: seq<Byte>)
    decreases |b|
  {
    b == [] || (Utf8Head(b) > 0 && Utf8(b[Utf8Head(b)..]))
  }

  // ---- The encodings of texts ----

  /** A Unicode scalar value: any code point but the surrogates. */
  type Scalar = c: nat | c < 0xD800 || 0xE000 <= c < 0x110000

  /** A byte behind the first carries six bits. */
  function Tail(bits: nat): Byte {
    (0x80 + bits % 64) as Byte
  }

  /** One character's bytes, by section 3 of RFC 3629. */
  function EncodeChar(c: Scalar): seq<Byte> {
    var n := c as int;
    if n < 0x80 then [n as Byte]
    else if n < 0x800 then [(0xC0 + n / 64) as Byte, Tail(n)]
    else if n < 0x10000 then [(0xE0 + n / 4096) as Byte, Tail(n / 64), Tail(n)]
    else [(0xF0 + n / 262144) as Byte, Tail(n / 4096), Tail(n / 64), Tail(n)]
  }

  function EncodeText(text: seq<Scalar>): seq<Byte> {
    if text == [] then [] else EncodeChar(text[0]) + EncodeText(text[1..])
  }

  lemma HeadOfChar(c: Scalar, rest: seq<Byte>)
    ensures Utf8Head(EncodeChar(c) + rest) == |EncodeChar(c)|
  {
    var (e, s) := (EncodeChar(c), EncodeChar(c) + rest);
    assert forall k :: 0 <= k < |e| ==> s[k] == e[k];
  }

  lemma Digits2(x: nat, y: nat)
    requires y < 64
    ensures (x * 64 + y) / 64 == x && (x * 64 + y) % 64 == y
  {
  }

  lemma Thirds(q: nat, r: nat)
    ensures r < 4096 ==> (q * 4096 + r) / 4096 == q
    ensures r < 262144 ==> (q * 262144 + r) / 262144 == q
  {
  }

  lemma Digits3(x: nat, y: nat, z: nat)
    requires y < 64 && z < 64
    ensures var n := x * 4096 + y * 64 + z; n / 4096 == x && n / 64 % 64 == y && n % 64 == z
  {
    Thirds(x, y * 64 + z);
    Digits2(x * 64 + y, z);
    Digits2(x, y);
  }

  lemma Digits4(w: nat, x: nat, y: nat, z: nat)
    requires x < 64 && y < 64 && z < 64
    ensures var n := w * 262144 + x * 4096 + y * 64 + z;
      n / 262144 == w && n / 4096 % 64 == x && n / 64 % 64 == y && n % 64 == z
  {
    Thirds(w, x * 4096 + y * 64 + z);
    Thirds(w * 64 + x, y * 64 + z);
    Digits2(w * 64 + x, 0);
    Digits2(w, x);
    Digits2((w * 64 + x) * 64 + y, z);
    Digits2(w * 64 + x, y);
  }

  lemma TwoAreChar(b: seq<Byte>) returns (c: Scalar)
    requires Utf8Head(b) == 2
    ensures EncodeChar(c) == b[..2]
  {
    var x, y := b[0] as int - 0xC0, b[1] as int - 0x80;
    Digits2(x, y);
    c := x * 64 + y;
  }

  lemma ThreeAreChar(b: seq<Byte>) returns (c: Scalar)
    requires Utf8Head(b) == 3
    ensures EncodeChar(c) == b[..3]
  {
    var x, y, z := b[0] as int - 0xE0, b[1] as int - 0x80, b[2] as int - 0x80;
    Digits3(x, y, z);
    c := x * 4096 + y * 64 + z;
  }

  lemma FourAreChar(b: seq<Byte>) returns (c: Scalar)
    requires Utf8Head(b) == 4
    ensures EncodeChar(c) == b[..4]
  {
    var w, x, y, z := b[0] as int - 0xF0, b[1] as int - 0x80, b[2] as int - 0x80, b[3] as int - 0x80;
    Digits4(w, x, y, z);
    c := w * 262144 + x * 4096 + y * 64 + z;
  }

  /** The well-formed bytes at the start stand for a character. */
  lemma HeadIsChar(b: seq<Byte>) returns (c: Scalar)
    requires Utf8Head(b) > 0
    ensures EncodeChar(c) == b[..Utf8Head(b)]
  {
    if Utf8Head(b) == 1 {
      c := b[0];
    } else if Utf8Head(b) == 2 {
      c := TwoAreChar(b);
    } else if Utf8Head(b) == 3 {
      c := ThreeAreChar(b);
    } else {
      c := FourAreChar(b);
    }
  }

  lemma HeadAndRest(b: seq<Byte>, n: nat)
    requires n <= |b|
    ensures b[..n] + b[n..] == b
  {
  }

  lemma OneMoreChar(c: Scalar, text: seq<Scalar>)
    ensures EncodeText([c] + text) == EncodeChar(c) + EncodeText(text)
  {
    assert ([c] + text)[1..] == text;
  }

  /** The byte strings that decode are the encodings of texts, and only those. */
  lemma Utf8Iff(b: seq<Byte>)
    ensures Utf8(b) <==> exists text :: EncodeText(text) == b
  {
    if Utf8(b) {
      var text := DecodeText(b);
    }
    if text :| EncodeText(text) == b {
      EncodedIsUtf8(text);
    }
  }

  lemma {:induction false} DecodeText(b: seq<Byte>) returns (text: seq<Scalar>)
    requires Utf8(b)
    ensures EncodeText(text) == b
    decreases |b|
  {
    if b == [] {
      text := [];
    } else {
      var n := Utf8Head(b);
      var c := HeadIsChar(b);
      var rest := DecodeText(b[n..]);
      text := [c] + rest;
      OneMoreChar(c, rest);
      HeadAndRest(b, n);
    }
  }

  lemma {:induction false} EncodedIsUtf8(text: seq<Scalar>)
    ensures Utf8(EncodeText(text))
  {
    if text != [] {
      var rest := EncodeText(text[1..]);
      HeadOfChar(text[0], rest);
      EncodedIsUtf8(text[1..]);
      assert (EncodeChar(text[0]) + rest)[|EncodeChar(text[0])|..] == rest;
    }
  }
}
