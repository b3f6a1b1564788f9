/** A printer for what the reader of scripts/doctor.py understands, and the proof that reading undoes it. */
module YamlPrinter {
  import opened Text
  import opened Options
  import opened YamlParser

  /**
   * A document. A list or a folded text may sit any number of extra columns deeper than one column
   * past its key; a mapping has no such freedom.
   */
  datatype Doc =
    | Bool(b: bool)
    | Plain(s: string)
    | Quoted(s: string)
    | Single(s: string)
    | Fold(extra: nat, parts: seq<string>)
    | List(extra: nat, items: seq<Doc>)
    | Map(entries: seq<Field>)

  /** An entry may have a comment behind it on its own line, any number of spaces away. */
  datatype Comment = Comment(gap: nat, text: string)

  datatype Field = Field(key: string, doc: Doc, note: Option<Comment>)

  /** Text in double quotes, in which quotes are escaped, or in single quotes, in which nothing is. */
  predicate InQuotes(d: Doc) {
    d.Quoted? || d.Single?
  }

  predicate IsScalar(d: Doc) {
    d.Bool? || d.Plain? || InQuotes(d)
  }

  /** Text that can stand unquoted after a key. */
  predicate PlainText(s: string) {
    && Trim(s) && '\n' !in s && !QuoteStart(s) && !Contains(s, " #")
    && s != "true" && s != "True" && s != "false" && s != "False" && s != ">" && s != "|"
  }

  predicate PlainKey(k: string) {
    && ':' !in k && '\n' !in k && !StartsWith(k, "- ")
    && (k == "" || (Trim(k) && k[0] != '#'))
  }

  predicate FoldPart(p: string) {
    Trim(p) && '\n' !in p && p[0] != '#'
  }

  ghost predicate DistinctKeys(es: seq<Field>) {
    forall i, j :: 0 <= i < j < |es| ==> es[i].key != es[j].key
  }

  /** A comment can stand behind a value on the key's line that is not in quotes. */
  predicate Notable(e: Field) {
    RestText(e.doc) != "" && !InQuotes(e.doc) && '\n' !in e.note.GetOr(Comment(0, "")).text
  }

  ghost predicate Printable(d: Doc)
    decreases d, 0
  {
    match d
    case Bool(_) => true
    case Plain(s) => PlainText(s)
    case Quoted(s) => '\n' !in s
    case Single(s) => '\n' !in s
    case Fold(_, parts) => forall p :: p in parts ==> FoldPart(p)
    case List(_, items) => items != [] && PrintableItems(items)
    case Map(es) => PrintableEntries(es) && DistinctKeys(es)
  }

  ghost predicate PrintableEntries(es: seq<Field>) {
    es != [] ==>
      PlainKey(es[0].key) && Printable(es[0].doc) && (es[0].note.Some? ==> Notable(es[0])) && PrintableEntries(es[1..])
  }

  /** A list item is a scalar, or a non-empty mapping whose first key is not mistaken for quoted text. */
  ghost predicate PrintableItem(d: Doc)
    decreases d, 1
  {
    && Printable(d)
    && (d.Plain? ==> ':' !in d.s)
    && (IsScalar(d) || (d.Map? && d.entries != [] && !QuoteStart(d.entries[0].key)))
  }

  ghost predicate PrintableItems(items: seq<Doc>) {
    items != [] ==> PrintableItem(items[0]) && PrintableItems(items[1..])
  }

  function ToValue(d: Doc): Value {
    match d
    case Bool(b) => VBool(b)
    case Plain(s) => VStr(s)
    case Quoted(s) => VStr(s)
    case Single(s) => VStr(s)
    case Fold(_, parts) => VStr(Join(parts, " "))
    case List(_, items) => VList(ToValues(items))
    case Map(es) => VMap(ToPairs(es))
  }

  function ToValues(items: seq<Doc>): (vs: seq<Value>)
  {
    if items == [] then [] else [ToValue(items[0])] + ToValues(items[1..])
  }

  function ToPairs(es: seq<Field>): (ps: seq<(string, Value)>)
    ensures |ps| == |es| && forall i :: 0 <= i < |es| ==> ps[i].0 == es[i].key
  {
    if es == [] then [] else [(es[0].key, ToValue(es[0].doc))] + ToPairs(es[1..])
  }

  function Escape(s: string): string {
    if s == "" then ""
    else (if s[0] == '"' then ['\\', '"'] else [s[0]]) + Escape(s[1..])
  }

  function ScalarText(d: Doc): string
    requires IsScalar(d)
  {
    match d
    case Bool(b) => if b then "true" else "false"
    case Plain(s) => s
    case Quoted(s) => ['"'] + Escape(s) + ['"']
    case Single(s) => ['\''] + s + ['\'']
  }

  /** What follows the colon on the key's own line. */
  function RestText(d: Doc): string {
    if IsScalar(d) then ScalarText(d) else if d.Fold? then ">" else ""
  }

  function Padded(rest: string): string {
    if rest == "" then "" else Spaces(1) + rest
  }

  function NoteText(note: Option<Comment>): string {
    match note
    case None => ""
    case Some(c) => Spaces(c.gap) + " #" + c.text
  }

  function EntryHead(e: Field): string {
    e.key + [':'] + (Padded(RestText(e.doc)) + NoteText(e.note))
  }

  /** The lines below the key's own line. */
  function EntryTail(d: Doc, col: nat): seq<string>
    decreases d, 1
  {
    match d
    case Fold(extra, parts) => PrintParts(parts, col + 1 + extra)
    case List(extra, items) => PrintItems(items, col + 1 + extra)
    case Map(es) => PrintEntries(es, col + 1)
    case _ => []
  }

  function PrintParts(parts: seq<string>, col: nat): seq<string> {
    if parts == [] then [] else [Spaces(col) + parts[0]] + PrintParts(parts[1..], col)
  }

  function PrintEntries(es: seq<Field>, col: nat): seq<string>
    decreases es, 0
  {
    if es == [] then []
    else [Spaces(col) + EntryHead(es[0])] + (EntryTail(es[0].doc, col) + PrintEntries(es[1..], col))
  }

  /** The text after the dash. */
  function ItemHead(d: Doc): string {
    if d.Map? && d.entries != [] then EntryHead(d.entries[0]) else RestText(d)
  }

  /** The lines below the dash's line: the rest of a mapping, aligned with its first key. */
  function ItemTail(d: Doc, col: nat): seq<string>
    decreases d, 1
  {
    if d.Map? && d.entries != [] then
      EntryTail(d.entries[0].doc, col + 2) + PrintEntries(d.entries[1..], col + 2)
    else []
  }

  function PrintItems(items: seq<Doc>, col: nat): seq<string>
    decreases items, 0
  {
    if items == [] then []
    else [Spaces(col) + ("- " + ItemHead(items[0]))] + (ItemTail(items[0], col) + PrintItems(items[1..], col))
  }

  /** A whole file holds a list, at any column, or a mapping, at column zero. */
  function Print(d: Doc): seq<string> {
    match d
    case List(extra, items) => PrintItems(items, extra)
    case Map(es) => PrintEntries(es, 0)
    case _ => []
  }

  ghost predicate PrintableFile(d: Doc) {
    Printable(d) && (d.List? || (d.Map? && d.entries != []))
  }

  // ---- Scalars ----

  lemma {:induction false} UnescapeEscape(s: string)
    ensures Unescape(Escape(s)) == s
    ensures Escape(s) != "" ==> Escape(s)[0] != '"'
    ensures '\n' !in s ==> '\n' !in Escape(s)
  {
    if s != "" {
      var rest := Escape(s[1..]);
      UnescapeEscape(s[1..]);
      if s[0] == '"' {
        assert Escape(s)[2..] == rest;
      } else {
        assert Escape(s) == [s[0]] + rest && Escape(s)[1..] == rest;
        if rest == "" {
          assert s[1..] == "";
        }
      }
    }
  }

  lemma NoSpaceNoMark(s: string)
    requires ' ' !in s
    ensures !Contains(s, " #")
  {
    assert |s| >= 2 ==> s[..2][0] == s[0];
  }

  lemma TrimIsStripped(t: string)
    requires Trim(t)
    ensures Strip(t) == t && !Blank(t)
  {
    assert Spaces(0) + t == t;
    StripPadded(0, t);
  }

  ghost predicate ReadBack(d: Doc)
    requires IsScalar(d) && Printable(d)
  {
    var t := ScalarText(d);
    && Scalar(t) == ToValue(d) && Trim(t) && '\n' !in t
    && t != ">" && t != "|" && Uncommented(t) == t
  }

  lemma BoolBack(b: bool)
    ensures ReadBack(Bool(b))
  {
    var t := ScalarText(Bool(b));
    TrimIsStripped(t);
    NoSpaceNoMark(t);
  }

  lemma PlainBack(s: string)
    requires Printable(Plain(s))
    ensures ReadBack(Plain(s))
  {
    TrimIsStripped(s);
    assert |s| >= 2 ==> s[0] != '"' && s[0] != '\'';
  }

  lemma QuotedBack(s: string)
    requires Printable(Quoted(s))
    ensures ReadBack(Quoted(s))
  {
    var t := ScalarText(Quoted(s));
    UnescapeEscape(s);
    TrimIsStripped(t);
    assert t[1..|t| - 1] == Escape(s);
  }

  lemma SingleBack(s: string)
    requires Printable(Single(s))
    ensures ReadBack(Single(s))
  {
    var t := ScalarText(Single(s));
    TrimIsStripped(t);
    assert t[1..|t| - 1] == s;
  }

  /** Printed scalars are read back, are not empty, and are not taken for a block marker or a comment. */
  lemma ScalarBack(d: Doc)
    requires IsScalar(d) && Printable(d)
    ensures Scalar(ScalarText(d)) == ToValue(d)
    ensures Trim(ScalarText(d)) && '\n' !in ScalarText(d)
    ensures ScalarText(d) != ">" && ScalarText(d) != "|" && Uncommented(ScalarText(d)) == ScalarText(d)
  {
    match d
    case Bool(b) => BoolBack(b);
    case Plain(s) => PlainBack(s);
    case Quoted(s) => QuotedBack(s);
    case Single(s) => SingleBack(s);
  }
}
