/** The fallback YAML reader of scripts/doctor.py, as functions on the lines still to be read. */
module YamlParser {
  import opened Text

  /** What the reader produces; a Python dictionary is its entries in insertion order. */
  datatype Value =
    | VNull
    | VBool(b: bool)
    | VStr(s: string)
    | VList(items: seq<Value>)
    | VMap(entries: seq<(string, Value)>)

  predicate QuoteStart(s: string) {
    s != "" && (s[0] == '"' || s[0] == '\'')
  }

  /** `raw.replace('\\"', '"')`: every backslash-quote pair becomes a quote. */
  function Unescape(s: string): string {
    if |s| < 2 then s
    else if s[0] == '\\' && s[1] == '"' then ['"'] + Unescape(s[2..])
    else [s[0]] + Unescape(s[1..])
  }

  function Scalar(text: string): Value {
    var raw := Strip(text);
    if raw == "" then VNull
    else if raw == "true" || raw == "True" then VBool(true)
    else if raw == "false" || raw == "False" then VBool(false)
    else if |raw| >= 2 && raw[0] == '"' && raw[|raw| - 1] == '"' then VStr(Unescape(raw[1..|raw| - 1]))
    else if |raw| >= 2 && raw[0] == '\'' && raw[|raw| - 1] == '\'' then VStr(raw[1..|raw| - 1])
    else VStr(raw)
  }

  /** The value text of an entry without its trailing comment. */
  function Uncommented(rest: string): string {
    if rest != "" && !QuoteStart(rest) && Contains(rest, " #") then RStrip(Before(rest, " #")) else rest
  }

  /** `key: rest`, cut at the first colon. */
  function KeyRest(stripped: string): (string, string)
    requires ':' in stripped
  {
    var n := IndexOf(stripped, ':');
    assert n < |stripped|;
    (Strip(stripped[..n]), Uncommented(Strip(stripped[n + 1..])))
  }

  /** `mapping[key] = value`: a repeated key keeps its place and takes the new value. */
  function Put(d: seq<(string, Value)>, key: string, value: Value): seq<(string, Value)> {
    if d == [] then [(key, value)]
    else if d[0].0 == key then [(key, value)] + d[1..]
    else [d[0]] + Put(d[1..], key, value)
  }

  function KeysOf(d: seq<(string, Value)>): seq<string> {
    if d == [] then [] else [d[0].0] + KeysOf(d[1..])
  }

  /** The value under a key, if the dictionary has it. */
  function Lookup(d: seq<(string, Value)>, key: string): seq<Value> {
    if d == [] then [] else if d[0].0 == key then [d[0].1] else Lookup(d[1..], key)
  }

  /** Storing an entry changes what is under its key and nothing else; a new key comes last, a known one stays. */
  lemma {:induction false} PutIsUpdate(d: seq<(string, Value)>, key: string, value: Value, other: string)
    ensures Lookup(Put(d, key, value), other) == if other == key then [value] else Lookup(d, other)
    ensures KeysOf(Put(d, key, value)) == if Lookup(d, key) == [] then KeysOf(d) + [key] else KeysOf(d)
  {
    if d == [] {
      assert [(key, value)][1..] == [];
    } else if d[0].0 == key {
      assert ([(key, value)] + d[1..])[1..] == d[1..];
    } else {
      PutIsUpdate(d[1..], key, value, other);
      assert ([d[0]] + Put(d[1..], key, value))[1..] == Put(d[1..], key, value);
    }
  }

  function PutAll(d: seq<(string, Value)>, pairs: seq<(string, Value)>): seq<(string, Value)>
    decreases pairs
  {
    if pairs == [] then d else PutAll(Put(d, pairs[0].0, pairs[0].1), pairs[1..])
  }

  /** The dictionary left by storing the given entries in order. */
  function Dict(pairs: seq<(string, Value)>): seq<(string, Value)> {
    PutAll([], pairs)
  }

  predicate IsComment(line: string) {
    StartsWith(LStrip(line), "#")
  }

  /** The line, without its leading spaces, starts a list item. */
  predicate DashItem(line: string) {
    StartsWith(line[IndentOf(line)..], "- ")
  }

  predicate EndsMapping(line: string, col: nat) {
    IndentOf(line) != col || StartsWith(Strip(line), "- ")
  }

  /** The list item's content opens a mapping. */
  predicate OpensMapping(content: string) {
    ':' in content && !QuoteStart(Strip(content))
  }

  function SkipBlank(ls: seq<string>): (rest: seq<string>)
    ensures |rest| <= |ls|
    ensures rest != [] ==> !Blank(rest[0])
  {
    if ls != [] && Blank(ls[0]) then SkipBlank(ls[1..]) else ls
  }

  /** The lines of a folded scalar: everything deeper than its key. */
  function Folded(ls: seq<string>, col: nat): (r: (seq<string>, seq<string>))
    ensures |r.1| <= |ls|
  {
    if ls == [] then ([], ls)
    else if Blank(ls[0]) then Folded(ls[1..], col)
    else if IndentOf(ls[0]) <= col then ([], ls)
    else
      var (parts, rest) := Folded(ls[1..], col);
      ([Strip(ls[0])] + parts, rest)
  }

  function Block(ls: seq<string>, min: nat): (r: (Value, seq<string>))
    ensures |r.1| <= |ls|
    ensures r.0.VNull? || r.0.VList? || r.0.VMap?
    decreases |ls|, 3
  {
    var here := SkipBlank(ls);
    if here == [] || IndentOf(here[0]) < min then (VNull, here)
    else if DashItem(here[0]) then
      var (vs, rest) := Items(here, IndentOf(here[0]));
      (VList(vs), rest)
    else
      var (es, rest) := Entries(here, min);
      (VMap(Dict(es)), rest)
  }

  function Items(ls: seq<string>, col: nat): (r: (seq<Value>, seq<string>))
    ensures |r.1| <= |ls|
    decreases |ls|, 2
  {
    if ls == [] then ([], ls)
    else if Blank(ls[0]) then Items(ls[1..], col)
    else if IndentOf(ls[0]) != col || !DashItem(ls[0]) then ([], ls)
    else
      var (value, after) := Item(ls[0][col + 2..], ls[1..], col + 2);
      var (vs, end) := Items(after, col);
      ([value] + vs, end)
  }

  /**
   * One list item. When it opens a mapping, the dash gives way to two spaces and the mapping is read
   * at that column; one that consumes nothing leaves the item's line unread: the line is stepped over.
   */
  function Item(content: string, tail: seq<string>, col: nat): (r: (Value, seq<string>))
    ensures |r.1| <= |tail|
    decreases |tail| + 1, 1
  {
    if OpensMapping(content) then
      var shifted := [Spaces(col) + content] + tail;
      var (es, rest) := Entries(shifted, col);
      (VMap(Dict(es)), if |rest| == |shifted| then tail else rest)
    else (Scalar(content), tail)
  }

  function Entries(ls: seq<string>, col: nat): (r: (seq<(string, Value)>, seq<string>))
    ensures |r.1| <= |ls|
    decreases |ls|, 0
  {
    if ls == [] then ([], ls)
    else if Blank(ls[0]) then Entries(ls[1..], col)
    else if EndsMapping(ls[0], col) then ([], ls)
    else if ':' !in Strip(ls[0]) then Entries(ls[1..], col)
    else
      var (key, rest) := KeyRest(Strip(ls[0]));
      var (value, after) := EntryValue(rest, ls[1..], col);
      var (es, end) := Entries(after, col);
      ([(key, value)] + es, end)
  }

  function EntryValue(rest: string, ls: seq<string>, col: nat): (r: (Value, seq<string>))
    ensures |r.1| <= |ls|
    decreases |ls|, 4
  {
    if rest == ">" || rest == "|" then
      var (parts, after) := Folded(ls, col);
      (VStr(Join(parts, " ")), after)
    else if rest == "" then
      var (nested, after) := Block(ls, col + 1);
      (if nested == VNull then VMap([]) else nested, after)
    else (Scalar(rest), ls)
  }

  /** `[line for line in text.split("\n") if not a comment]`. */
  function Uncomment(ls: seq<string>): seq<string> {
    if ls == [] then []
    else (if IsComment(ls[0]) then [] else [ls[0]]) + Uncomment(ls[1..])
  }

  function Load(text: string): Value {
    Block(Uncomment(Split(text, '\n')), 0).0
  }
}
