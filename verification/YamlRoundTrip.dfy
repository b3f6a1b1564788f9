/** Reading back what was printed, and reading past blank and comment lines. */
module YamlRoundTrip {
  import opened Text
  import opened Options
  import opened YamlParser
  import opened YamlPrinter
  import opened YamlBlankLines

  /** Lines that a block starting at `col` leaves alone. */
  predicate Stops(tail: seq<string>, col: nat) {
    tail == [] || (!Blank(tail[0]) && IndentOf(tail[0]) < col)
  }

  // ---- Single lines ----

  lemma RestBack(d: Doc)
    requires Printable(d)
    ensures RestText(d) != "" ==> Trim(RestText(d))
    ensures '\n' !in RestText(d) && Uncommented(RestText(d)) == RestText(d)
  {
    if IsScalar(d) {
      ScalarBack(d);
    } else {
      NoSpaceNoMark(RestText(d));
    }
  }

  ghost predicate PrintableEntry(e: Field) {
    PlainKey(e.key) && Printable(e.doc) && (e.note.Some? ==> Notable(e))
  }

  /** What stands behind the colon, without the space before it. */
  function RestAndNote(e: Field): string {
    RestText(e.doc) + NoteText(e.note)
  }

  lemma CommentCut(v: string, c: Comment)
    requires Trim(v) && !QuoteStart(v) && !Contains(v, " #")
    ensures Uncommented(v + NoteText(Some(c))) == v
  {
    var (a, sep) := (v + Spaces(c.gap), " #");
    var s := a + sep + c.text;
    assert s == v + NoteText(Some(c));
    forall i: nat | i < |a|
      ensures !StandsAt(s, sep, i)
    {
      if i + 1 < |v| {
        ContainsIff(v, sep);
        assert v[i..i + 2] == s[i..i + 2];
        assert !StandsAt(v, sep, i);
      } else if i < |v| {
        assert s[i..i + 2][0] == v[i];
      } else {
        assert s[i..i + 2][1] == ' ';
      }
    }
    BeforeFirst(a, sep, c.text);
    RStripSpaces(v, c.gap);
    assert s[0] == v[0];
  }

  lemma {:induction false} RStripSpaces(v: string, n: nat)
    requires Trim(v)
    ensures RStrip(v + Spaces(n)) == v
  {
    var s := v + Spaces(n);
    if n > 0 {
      assert s[..|s| - 1] == v + Spaces(n - 1);
      RStripSpaces(v, n - 1);
    } else {
      assert s == v;
    }
  }

  /** The value on a key's line, with or without a comment behind it, is read alone. */
  lemma RestRead(e: Field)
    requires PrintableEntry(e)
    ensures Uncommented(RestAndNote(e)) == RestText(e.doc)
  {
    RestBack(e.doc);
    match e.note
    case None => assert RestAndNote(e) == RestText(e.doc);
    case Some(c) =>
      UnquotedRest(e.doc);
      CommentCut(RestText(e.doc), c);
  }

  lemma UnquotedRest(d: Doc)
    requires Printable(d) && !InQuotes(d)
    ensures !QuoteStart(RestText(d)) && !Contains(RestText(d), " #")
  {
    if !d.Plain? {
      NoSpaceNoMark(RestText(d));
    }
  }

  /** The entry as the reader has it once the line is stripped. */
  function Tidy(e: Field): Field {
    match e.note
    case None => e
    case Some(c) => e.(note := Some(c.(text := RStrip(c.text))))
  }

  lemma {:induction false} RStripShorter(s: string)
    ensures forall c :: c in RStrip(s) ==> c in s
    ensures RStrip(s) != "" ==> !IsSpace(RStrip(s)[|RStrip(s)| - 1])
  {
    if s != "" && IsSpace(s[|s| - 1]) {
      RStripShorter(s[..|s| - 1]);
    }
  }

  /** An entry on a line of its own, with a comment that may not belong there. */
  ghost predicate EntryOnLine(e: Field) {
    PlainKey(e.key) && Printable(e.doc) && '\n' !in e.note.GetOr(Comment(0, "")).text
  }

  lemma HeadShape(e: Field)
    requires EntryOnLine(e)
    ensures var h := EntryHead(e);
      && h[0] == (if e.key == "" then ':' else e.key[0])
      && Solid(h) && '\n' !in h && h[0] != '#' && !StartsWith(h, "- ")
  {
    var k, h := e.key, EntryHead(e);
    RestBack(e.doc);
    assert |k| >= 2 ==> h[..2] == k[..2];
    assert |h| >= 2 ==> h[..2][0] == h[0] && h[..2][1] == h[1];
    assert |k| == 1 ==> h[1] == ':';
  }

  /** The entry's head up to the text of its comment. */
  function UpToNote(e: Field, gap: nat): string {
    e.key + [':'] + (Padded(RestText(e.doc)) + (Spaces(gap) + " "))
  }

  lemma NotedHead(e: Field, gap: nat, text: string)
    requires e.note == Some(Comment(gap, text))
    ensures EntryHead(e) == UpToNote(e, gap) + ['#'] + text
  {
  }

  lemma HashEnd(front: string, text: string)
    requires text != "" ==> !IsSpace(text[|text| - 1])
    ensures var s := front + ['#'] + text; !IsSpace(s[|s| - 1])
  {
    var s := front + ['#'] + text;
    assert s[|s| - 1] == if text == "" then '#' else text[|text| - 1];
  }

  /** Stripping the head of an entry takes off the white space at the end of its comment, and nothing else. */
  lemma HeadStripped(e: Field)
    requires EntryOnLine(e)
    ensures RStrip(EntryHead(e)) == EntryHead(Tidy(e))
    ensures PrintableEntry(e) ==> PrintableEntry(Tidy(e))
  {
    match e.note
    case None => BareEnd(e);
    case Some(c) =>
      RStripKeepsFront(UpToNote(e, c.gap), '#', c.text);
      RStripShorter(c.text);
      NotedHead(e, c.gap, c.text);
      NotedHead(Tidy(e), c.gap, RStrip(c.text));
  }

  lemma BareEnd(e: Field)
    requires EntryOnLine(e) && e.note.None?
    ensures var h := EntryHead(e); h != "" && !IsSpace(h[|h| - 1])
  {
    var h := EntryHead(e);
    RestBack(e.doc);
    assert h[|h| - 1] == if RestText(e.doc) == "" then ':' else RestText(e.doc)[|RestText(e.doc)| - 1];
  }

  lemma RegroupNote(t: string, sharp: string, text: string)
    ensures t + (sharp + " #" + text) == (t + (sharp + " ")) + ['#'] + text
  {
  }

  lemma NotedIsTrim(rest: string, gap: nat, text: string)
    requires Trim(rest) && (text != "" ==> !IsSpace(text[|text| - 1]))
    ensures Trim(rest + NoteText(Some(Comment(gap, text))))
  {
    RegroupNote(rest, Spaces(gap), text);
    HashEnd(rest + (Spaces(gap) + " "), text);
  }

  lemma TidyRest(e: Field)
    requires PrintableEntry(e) && RestText(e.doc) != ""
    ensures Trim(RestAndNote(Tidy(e)))
  {
    RestBack(e.doc);
    match e.note
    case None => assert RestText(e.doc) + "" == RestText(e.doc);
    case Some(c) =>
      RStripShorter(c.text);
      NotedIsTrim(RestText(e.doc), c.gap, RStrip(c.text));
  }

  lemma StripPad(e: Field)
    requires if RestText(e.doc) == "" then e.note.None? else Trim(RestAndNote(e))
    ensures Strip(Padded(RestText(e.doc)) + NoteText(e.note)) == RestAndNote(e)
  {
    if RestText(e.doc) != "" {
      assert Padded(RestText(e.doc)) + NoteText(e.note) == Spaces(1) + RestAndNote(e);
      StripPadded(1, RestAndNote(e));
    }
  }

  lemma CutAtColon(k: string, tail: string)
    requires PlainKey(k)
    ensures KeyRest(k + [':'] + tail) == (k, Uncommented(Strip(tail)))
  {
    var s := k + [':'] + tail;
    IndexOfFirst(k, ':', tail);
    assert s[|k|] == ':' && s[..|k|] == k && s[|k| + 1..] == tail;
    if k != "" {
      TrimIsStripped(k);
    }
  }

  lemma HeadText(e: Field)
    requires PrintableEntry(e)
    ensures ':' in RStrip(EntryHead(e)) && KeyRest(RStrip(EntryHead(e))) == (e.key, RestText(e.doc))
  {
    var tidy := Tidy(e);
    HeadStripped(e);
    CutAtColon(e.key, Padded(RestText(e.doc)) + NoteText(tidy.note));
    assert EntryHead(tidy)[|e.key|] == ':';
    if RestText(e.doc) != "" {
      TidyRest(e);
    }
    StripPad(tidy);
    RestRead(tidy);
  }

  lemma EntryLine(e: Field, col: nat)
    requires PrintableEntry(e)
    ensures var line := Spaces(col) + EntryHead(e);
      && !Blank(line) && IndentOf(line) == col && !EndsMapping(line, col) && !DashItem(line)
      && ':' in Strip(line) && KeyRest(Strip(line)) == (e.key, RestText(e.doc))
  {
    var h := EntryHead(e);
    HeadShape(e);
    HeadStripped(e);
    HeadShape(Tidy(e));
    HeadText(e);
    StripSolid(col, h);
    IndentOfPadded(col, h);
    assert (Spaces(col) + h)[col..] == h;
  }

  lemma DashLine(head: string, col: nat)
    requires Solid(head)
    ensures var line := Spaces(col) + ("- " + head);
      !Blank(line) && IndentOf(line) == col && DashItem(line) && line[col + 2..] == head
  {
    var text := "- " + head;
    var line := Spaces(col) + text;
    assert text[0] == '-';
    StripSolid(col, text);
    IndentOfPadded(col, text);
    assert line[col..] == text && text[..2] == "- " && text[2..] == head;
  }

  lemma ItemMapHead(es: seq<Field>)
    requires es != [] && PrintableItem(Map(es))
    ensures var head := EntryHead(es[0]); Solid(head) && '\n' !in head && OpensMapping(head)
  {
    var head := EntryHead(es[0]);
    assert PrintableEntries(es);
    HeadShape(es[0]);
    assert head[|es[0].key|] == ':';
    assert Spaces(0) + head == head;
    StripSolid(0, head);
  }

  lemma ItemScalarHead(d: Doc)
    requires PrintableItem(d) && IsScalar(d)
    ensures var head := RestText(d);
      Solid(head) && '\n' !in head && !OpensMapping(head) && Scalar(head) == ToValue(d)
  {
    ScalarBack(d);
    TrimIsStripped(RestText(d));
  }

  lemma {:induction false} ItemHeadText(d: Doc)
    requires PrintableItem(d)
    ensures var head := ItemHead(d);
      && Solid(head) && '\n' !in head
      && OpensMapping(head) == d.Map?
      && (IsScalar(d) ==> Scalar(head) == ToValue(d))
  {
    if d.Map? {
      ItemMapHead(d.entries);
    } else {
      ItemScalarHead(d);
    }
  }

  lemma LineStripped(e: Field, col: nat)
    requires EntryOnLine(e)
    ensures Strip(Spaces(col) + EntryHead(e)) == EntryHead(Tidy(e))
  {
    HeadShape(e);
    StripSolid(col, EntryHead(e));
    HeadStripped(e);
  }

  /** A comment behind text in quotes stays. */
  lemma CommentBehindQuotes(t: string, c: Comment)
    requires QuoteStart(t)
    ensures Uncommented(Strip(Padded(t) + NoteText(Some(c)))) == t + (Spaces(c.gap) + " #" + RStrip(c.text))
  {
    var x := t + NoteText(Some(c));
    assert Padded(t) + NoteText(Some(c)) == Spaces(1) + x;
    RegroupNote(t, Spaces(c.gap), c.text);
    RegroupNote(t, Spaces(c.gap), RStrip(c.text));
    StripSolid(1, x);
    RStripKeepsFront(t + (Spaces(c.gap) + " "), '#', c.text);
  }

  /** A comment right behind the colon is taken for the value, from its number sign on. */
  lemma CommentBehindNothing(c: Comment)
    ensures var rest := Uncommented(Strip(NoteText(Some(c)))); rest != "" && rest[0] == '#'
  {
    var s := "#" + c.text;
    assert NoteText(Some(c)) == Spaces(c.gap + 1) + s;
    StripSolid(c.gap + 1, s);
    var u := Before(RStrip(s), " #");
    assert !StartsWith(RStrip(s), " #") by {
      assert |RStrip(s)| >= 2 ==> RStrip(s)[..2][0] == '#';
    }
    assert Solid(u);
    assert Spaces(0) + u == u;
    StripSolid(0, u);
    LStripSpaces(0, u);
  }

  /** With nothing on the line, or text in quotes, what is read is longer than what stands there. */
  lemma CommentKept(d: Doc, c: Comment)
    requires InQuotes(d) || RestText(d) == ""
    ensures Uncommented(Strip(Padded(RestText(d)) + NoteText(Some(c)))) != RestText(d)
  {
    if InQuotes(d) {
      CommentBehindQuotes(RestText(d), c);
    } else {
      assert Padded("") + NoteText(Some(c)) == NoteText(Some(c));
      CommentBehindNothing(c);
    }
  }

  lemma KeyRestOfLine(e: Field, col: nat)
    requires EntryOnLine(e)
    ensures var line := Strip(Spaces(col) + EntryHead(e));
      && ':' in line
      && KeyRest(line) == (e.key, Uncommented(Strip(Padded(RestText(e.doc)) + NoteText(Tidy(e).note))))
  {
    LineStripped(e, col);
    CutAtColon(e.key, Padded(RestText(e.doc)) + NoteText(Tidy(e).note));
    assert EntryHead(Tidy(e))[|e.key|] == ':';
  }

  /**
   * A comment behind an entry is cut off exactly when there is a value on the line and it is not in quotes.
   * Otherwise the number sign and what follows it become part of the value.
   */
  lemma CommentCutIff(e: Field, col: nat)
    requires EntryOnLine(e) && e.note.Some?
    ensures ':' in Strip(Spaces(col) + EntryHead(e))
    ensures KeyRest(Strip(Spaces(col) + EntryHead(e))) == (e.key, RestText(e.doc))
      <==> RestText(e.doc) != "" && !InQuotes(e.doc)
  {
    KeyRestOfLine(e, col);
    if InQuotes(e.doc) || RestText(e.doc) == "" {
      CommentKept(e.doc, Tidy(e).note.value);
    } else {
      EntryLine(e, col);
    }
  }

  // ---- Blocks ----

  lemma {:induction false} FoldBack(parts: seq<string>, at: nat, col: nat, after: seq<string>)
    requires forall p :: p in parts ==> FoldPart(p)
    requires col < at && Stops(after, col + 1)
    ensures Folded(PrintParts(parts, at) + after, col) == (parts, after)
  {
    var ls := PrintParts(parts, at) + after;
    if parts == [] {
      assert ls == after;
    } else {
      var p := parts[0];
      assert p in parts && forall q :: q in parts[1..] ==> q in parts;
      StripPadded(at, p);
      IndentOfPadded(at, p);
      assert ls[0] == Spaces(at) + p;
      assert ls[1..] == PrintParts(parts[1..], at) + after;
      FoldBack(parts[1..], at, col, after);
      assert [p] + parts[1..] == parts;
    }
  }

  lemma PutNew(d: seq<(string, Value)>, key: string, value: Value)
    requires forall i :: 0 <= i < |d| ==> d[i].0 != key
    ensures Put(d, key, value) == d + [(key, value)]
  {
  }

  lemma {:induction false} DictOfDistinct(all: seq<(string, Value)>, n: nat)
    requires n <= |all|
    requires forall i, j :: 0 <= i < j < |all| ==> all[i].0 != all[j].0
    ensures PutAll(all[..n], all[n..]) == all
    decreases |all| - n
  {
    if n < |all| {
      PutNew(all[..n], all[n].0, all[n].1);
      assert all[..n] + [(all[n].0, all[n].1)] == all[..n + 1];
      assert all[n..][1..] == all[n + 1..];
      DictOfDistinct(all, n + 1);
    } else {
      assert all[..n] == all;
    }
  }

  lemma DictBack(es: seq<Field>)
    requires DistinctKeys(es)
    ensures Dict(ToPairs(es)) == ToPairs(es)
  {
    var all := ToPairs(es);
    assert all[..0] == [] && all[0..] == all;
    DictOfDistinct(all, 0);
  }

  lemma Regroup(x: string, a: seq<string>, b: seq<string>, c: seq<string>)
    ensures [x] + (a + b) + c == [x] + (a + (b + c))
  {
  }

  lemma RegroupTail(a: seq<string>, b: seq<string>, c: seq<string>)
    ensures (a + b) + c == a + (b + c)
  {
  }

  lemma NoneBefore(c: seq<string>)
    ensures [] + c == c
  {
  }

  // ---- One step of each loop ----

  lemma {:induction false} EntriesStep(line: string, below: seq<string>, col: nat, value: Value, after: seq<string>)
    requires !Blank(line) && !EndsMapping(line, col) && ':' in Strip(line)
    requires EntryValue(KeyRest(Strip(line)).1, below, col) == (value, after)
    ensures Entries([line] + below, col)
         == ([(KeyRest(Strip(line)).0, value)] + Entries(after, col).0, Entries(after, col).1)
  {
    assert ([line] + below)[1..] == below;
  }

  lemma {:induction false} ItemsStep(line: string, below: seq<string>, col: nat, value: Value, after: seq<string>)
    requires !Blank(line) && IndentOf(line) == col && DashItem(line)
    requires Item(line[col + 2..], below, col + 2) == (value, after)
    ensures Items([line] + below, col) == ([value] + Items(after, col).0, Items(after, col).1)
  {
    assert ([line] + below)[1..] == below;
  }

  lemma {:induction false} BlockStep(line: string, below: seq<string>, min: nat)
    requires !Blank(line) && IndentOf(line) >= min
    ensures var ls := [line] + below;
      Block(ls, min) ==
        if DashItem(line) then (VList(Items(ls, IndentOf(line)).0), Items(ls, IndentOf(line)).1)
        else (VMap(Dict(Entries(ls, min).0)), Entries(ls, min).1)
  {
  }

  // ---- Whole blocks ----

  lemma ScalarValueBack(d: Doc, col: nat, after: seq<string>)
    requires IsScalar(d) && Printable(d)
    ensures EntryValue(RestText(d), after, col) == (ToValue(d), after)
  {
    ScalarBack(d);
  }

  lemma FoldValueBack(parts: seq<string>, extra: nat, col: nat, after: seq<string>)
    requires (forall p :: p in parts ==> FoldPart(p)) && Stops(after, col + 1)
    ensures EntryValue(">", PrintParts(parts, col + 1 + extra) + after, col) == (VStr(Join(parts, " ")), after)
  {
    FoldBack(parts, col + 1 + extra, col, after);
  }

  lemma NestedValue(ls: seq<string>, col: nat, value: Value, after: seq<string>)
    requires Block(ls, col + 1) == (value, after)
    ensures EntryValue("", ls, col) == (if value == VNull then VMap([]) else value, after)
  {
  }

  lemma NothingNested(col: nat, after: seq<string>)
    requires Stops(after, col + 1)
    ensures Block(after, col + 1) == (VNull, after)
  {
  }

  /** What follows an entry's head line is read as the entry's value. */
  ghost predicate ReadAsValue(d: Doc, col: nat, after: seq<string>) {
    EntryValue(RestText(d), EntryTail(d, col) + after, col) == (ToValue(d), after)
  }

  lemma ListPieces(extra: nat, items: seq<Doc>, col: nat)
    ensures var d := List(extra, items);
      && RestText(d) == "" && EntryTail(d, col) == PrintItems(items, col + 1 + extra)
      && ToValue(d) == VList(ToValues(items))
  {
  }

  lemma ScalarReadAsValue(d: Doc, col: nat, after: seq<string>)
    requires IsScalar(d) && Printable(d)
    ensures ReadAsValue(d, col, after)
  {
    ScalarValueBack(d, col, after);
    NoneBefore(after);
  }

  lemma FoldReadAsValue(extra: nat, parts: seq<string>, col: nat, after: seq<string>)
    requires Printable(Fold(extra, parts)) && Stops(after, col + 1)
    ensures ReadAsValue(Fold(extra, parts), col, after)
  {
    FoldValueBack(parts, extra, col, after);
  }

  lemma {:induction false} MapReadAsValue(es: seq<Field>, col: nat, after: seq<string>)
    requires Printable(Map(es)) && Stops(after, col + 1)
    ensures ReadAsValue(Map(es), col, after)
    decreases es, 3
  {
    MapValueBack(es, col, after);
  }

  lemma {:induction false} ValueBack(d: Doc, col: nat, after: seq<string>)
    requires Printable(d) && Stops(after, col + 1)
    ensures ReadAsValue(d, col, after)
    decreases d, 1
  {
    match d
    case Fold(extra, parts) => FoldReadAsValue(extra, parts, col, after);
    case List(extra, items) => ListValueBack(extra, items, col, after);
    case Map(es) => MapReadAsValue(es, col, after);
    case _ => ScalarReadAsValue(d, col, after);
  }

  lemma {:induction false} MapValueBack(es: seq<Field>, col: nat, after: seq<string>)
    requires PrintableEntries(es) && DistinctKeys(es) && Stops(after, col + 1)
    ensures EntryValue("", PrintEntries(es, col + 1) + after, col) == (VMap(ToPairs(es)), after)
    decreases es, 2
  {
    if es == [] {
      NoneBefore(after);
      NothingNested(col, after);
      NestedValue(after, col, VNull, after);
    } else {
      MapBack(es, col + 1, after);
      NestedValue(PrintEntries(es, col + 1) + after, col, VMap(ToPairs(es)), after);
    }
  }

  lemma {:induction false} ListValueBack(extra: nat, items: seq<Doc>, col: nat, after: seq<string>)
    requires items != [] && PrintableItems(items) && Stops(after, col + 1)
    ensures ReadAsValue(List(extra, items), col, after)
    decreases items, 2
  {
    var at := col + 1 + extra;
    ListBack(items, at, col + 1, after);
    ListPieces(extra, items, col);
    NestedList(List(extra, items), PrintItems(items, at), ToValues(items), col, after);
  }

  lemma NestedList(d: Doc, tail: seq<string>, vs: seq<Value>, col: nat, after: seq<string>)
    requires RestText(d) == "" && EntryTail(d, col) == tail && ToValue(d) == VList(vs)
    requires Block(tail + after, col + 1) == (VList(vs), after)
    ensures ReadAsValue(d, col, after)
  {
    NestedValue(tail + after, col, VList(vs), after);
  }

  lemma {:induction false} ListBack(items: seq<Doc>, at: nat, min: nat, after: seq<string>)
    requires items != [] && PrintableItems(items)
    requires min <= at && Stops(after, at)
    ensures Block(PrintItems(items, at) + after, min) == (VList(ToValues(items)), after)
    decreases items, 1
  {
    var line := Spaces(at) + ("- " + ItemHead(items[0]));
    var below := ItemTail(items[0], at) + (PrintItems(items[1..], at) + after);
    ItemHeadText(items[0]);
    DashLine(ItemHead(items[0]), at);
    Regroup(line, ItemTail(items[0], at), PrintItems(items[1..], at), after);
    BlockStep(line, below, min);
    ItemsBack(items, at, after);
  }

  lemma {:induction false} MapBack(es: seq<Field>, col: nat, after: seq<string>)
    requires es != [] && PrintableEntries(es) && DistinctKeys(es) && Stops(after, col)
    ensures Block(PrintEntries(es, col) + after, col) == (VMap(ToPairs(es)), after)
    decreases es, 1
  {
    var line := Spaces(col) + EntryHead(es[0]);
    var below := EntryTail(es[0].doc, col) + (PrintEntries(es[1..], col) + after);
    EntryLine(es[0], col);
    Regroup(line, EntryTail(es[0].doc, col), PrintEntries(es[1..], col), after);
    BlockStep(line, below, col);
    EntriesBack(es, col, after);
    DictBack(es);
  }

  lemma {:induction false} EntriesStop(es: seq<Field>, col: nat, tail: seq<string>)
    requires PrintableEntries(es) && Stops(tail, col)
    ensures Stops(PrintEntries(es, col) + tail, col + 1)
  {
    if es != [] {
      EntryLine(es[0], col);
    } else {
      NoneBefore(tail);
    }
  }

  lemma {:induction false} EntriesBack(es: seq<Field>, col: nat, tail: seq<string>)
    requires PrintableEntries(es) && Stops(tail, col)
    ensures Entries(PrintEntries(es, col) + tail, col) == (ToPairs(es), tail)
    decreases es, 0
  {
    if es == [] {
      NoneBefore(tail);
    } else {
      var e := es[0];
      var line := Spaces(col) + EntryHead(e);
      var after := PrintEntries(es[1..], col) + tail;
      var below := EntryTail(e.doc, col) + after;
      EntryLine(e, col);
      EntriesStop(es[1..], col, tail);
      ValueBack(e.doc, col, after);
      EntriesStep(line, below, col, ToValue(e.doc), after);
      EntriesBack(es[1..], col, tail);
      Regroup(line, EntryTail(e.doc, col), PrintEntries(es[1..], col), tail);
    }
  }

  /** A mapping's dash line, read as a first entry, and the lines below it are the mapping's own lines. */
  lemma ItemLines(es: seq<Field>, col: nat, after: seq<string>)
    requires es != []
    ensures [Spaces(col + 2) + ItemHead(Map(es))] + (ItemTail(Map(es), col) + after)
         == PrintEntries(es, col + 2) + after
  {
    var head, tail, rest := Spaces(col + 2) + EntryHead(es[0]), EntryTail(es[0].doc, col + 2),
                            PrintEntries(es[1..], col + 2);
    Regroup(head, tail, rest, after);
    RegroupTail(tail, rest, after);
  }

  lemma {:induction false} ItemBack(d: Doc, col: nat, after: seq<string>)
    requires PrintableItem(d) && Stops(after, col + 2)
    ensures Item(ItemHead(d), ItemTail(d, col) + after, col + 2) == (ToValue(d), after)
    decreases d, 1
  {
    ItemHeadText(d);
    if d.Map? {
      EntriesBack(d.entries, col + 2, after);
      ItemLines(d.entries, col, after);
      DictBack(d.entries);
    } else {
      assert ItemTail(d, col) + after == after;
    }
  }

  lemma {:induction false} ItemsStop(items: seq<Doc>, col: nat, tail: seq<string>)
    requires PrintableItems(items) && Stops(tail, col)
    ensures Stops(PrintItems(items, col) + tail, col + 2)
  {
    if items != [] {
      ItemHeadText(items[0]);
      DashLine(ItemHead(items[0]), col);
    } else {
      NoneBefore(tail);
    }
  }

  lemma {:induction false} ItemsBack(items: seq<Doc>, col: nat, tail: seq<string>)
    requires PrintableItems(items) && Stops(tail, col)
    ensures Items(PrintItems(items, col) + tail, col) == (ToValues(items), tail)
    decreases items, 0
  {
    if items == [] {
      NoneBefore(tail);
    } else {
      var d := items[0];
      var line := Spaces(col) + ("- " + ItemHead(d));
      var after := PrintItems(items[1..], col) + tail;
      var below := ItemTail(d, col) + after;
      ItemHeadText(d);
      DashLine(ItemHead(d), col);
      ItemsStop(items[1..], col, tail);
      ItemBack(d, col, after);
      ItemsStep(line, below, col, ToValue(d), after);
      ItemsBack(items[1..], col, tail);
      Regroup(line, ItemTail(d, col), PrintItems(items[1..], col), tail);
    }
  }

  /** Reading the printed lines of a file gives back the document. */
  lemma {:induction false} PrintedBack(d: Doc)
    requires PrintableFile(d)
    ensures Block(Print(d), 0).0 == ToValue(d)
  {
    assert Print(d) + [] == Print(d);
    match d
    case List(extra, items) => ListBack(items, extra, 0, []);
    case Map(es) => MapBack(es, 0, []);
  }

  // ---- Files ----

  predicate CleanLine(line: string) {
    '\n' !in line && !IsComment(line) && !Blank(line)
  }

  ghost predicate Clean(ls: seq<string>) {
    forall l :: l in ls ==> CleanLine(l)
  }

  lemma CleanPadded(col: nat, t: string)
    requires Solid(t) && '\n' !in t && t[0] != '#'
    ensures CleanLine(Spaces(col) + t)
  {
    StripSolid(col, t);
    LStripSpaces(col, t);
    assert t[..1][0] == t[0];
  }

  lemma {:induction false} PartsClean(parts: seq<string>, col: nat)
    requires forall p :: p in parts ==> FoldPart(p)
    ensures Clean(PrintParts(parts, col))
  {
    if parts != [] {
      assert parts[0] in parts && forall p :: p in parts[1..] ==> p in parts;
      CleanPadded(col, parts[0]);
      PartsClean(parts[1..], col);
    }
  }

  lemma {:induction false} TailClean(d: Doc, col: nat)
    requires Printable(d)
    ensures Clean(EntryTail(d, col))
    decreases d, 1
  {
    match d
    case Fold(extra, parts) => PartsClean(parts, col + 1 + extra);
    case List(extra, items) => ItemsClean(items, col + 1 + extra);
    case Map(es) => EntriesClean(es, col + 1);
    case _ =>
  }

  lemma {:induction false} EntriesClean(es: seq<Field>, col: nat)
    requires PrintableEntries(es)
    ensures Clean(PrintEntries(es, col))
    decreases es, 0
  {
    if es != [] {
      HeadShape(es[0]);
      CleanPadded(col, EntryHead(es[0]));
      TailClean(es[0].doc, col);
      EntriesClean(es[1..], col);
    }
  }

  lemma {:induction false} ItemTailClean(d: Doc, col: nat)
    requires PrintableItem(d)
    ensures Clean(ItemTail(d, col))
    decreases d, 1
  {
    if d.Map? {
      assert PrintableEntries(d.entries);
      TailClean(d.entries[0].doc, col + 2);
      EntriesClean(d.entries[1..], col + 2);
    }
  }

  lemma {:induction false} ItemsClean(items: seq<Doc>, col: nat)
    requires PrintableItems(items)
    ensures Clean(PrintItems(items, col))
    decreases items, 0
  {
    if items != [] {
      var text := "- " + ItemHead(items[0]);
      ItemHeadText(items[0]);
      CleanPadded(col, text);
      ItemTailClean(items[0], col);
      ItemsClean(items[1..], col);
    }
  }

  lemma PrintClean(d: Doc)
    requires PrintableFile(d)
    ensures Clean(Print(d)) && Print(d) != []
  {
    match d
    case List(extra, items) => ItemsClean(items, extra);
    case Map(es) => EntriesClean(es, 0);
  }

  lemma {:induction false} CleanKept(ls: seq<string>)
    requires Clean(ls)
    ensures Uncomment(ls) == ls && Squeeze(ls) == ls
  {
    if ls != [] {
      assert ls[0] in ls && forall l :: l in ls[1..] ==> l in ls;
      CleanKept(ls[1..]);
      assert [ls[0]] + ls[1..] == ls;
    }
  }

  /** `_minimal_yaml_load` of the printed text is the document's value. */
  lemma PrintThenLoad(d: Doc)
    requires PrintableFile(d)
    ensures Load(Join(Print(d), "\n")) == ToValue(d)
  {
    PrintClean(d);
    SplitJoin(Print(d), '\n');
    CleanKept(Print(d));
    PrintedBack(d);
  }

  /** The same with blank lines and comment lines put anywhere between the printed lines. */
  lemma LoadAmongBlanksAndComments(d: Doc, text: string)
    requires PrintableFile(d)
    requires Squeeze(Uncomment(Split(text, '\n'))) == Print(d)
    ensures Load(text) == ToValue(d)
  {
    BlockSqueeze(Uncomment(Split(text, '\n')), 0);
    PrintedBack(d);
  }

  /** Lines that begin deeper than a mapping's column are not the mapping's, and without a dash no list's. */
  lemma DeepLineUnread(line: string, below: seq<string>, col: nat)
    requires !Blank(line) && IndentOf(line) > col + 1 && !DashItem(line)
    ensures var ls := [line] + below; EntryValue("", ls, col) == (VMap([]), ls) && Entries(ls, col) == ([], ls)
  {
    BlockStep(line, below, col + 1);
    assert Entries([line] + below, col + 1) == ([], [line] + below);
  }

  /** A mapping more than one column past its key is left unread. */
  lemma DeepMapUnread(es: seq<Field>, at: nat, col: nat, after: seq<string>)
    requires es != [] && PrintableEntries(es) && at > col + 1
    ensures var ls := PrintEntries(es, at) + after;
      EntryValue("", ls, col) == (VMap([]), ls) && Entries(ls, col) == ([], ls)
  {
    var line := Spaces(at) + EntryHead(es[0]);
    EntryLine(es[0], at);
    Regroup(line, EntryTail(es[0].doc, at), PrintEntries(es[1..], at), after);
    DeepLineUnread(line, EntryTail(es[0].doc, at) + (PrintEntries(es[1..], at) + after), col);
  }

  /**
   * A list may sit at any column past its key, a mapping may not: it is read at exactly one column
   * more, and any deeper one is taken for an empty mapping and also ends the mapping around it.
   */
  lemma MapUnderKeyColumn(es: seq<Field>, at: nat, col: nat, after: seq<string>)
    requires es != [] && PrintableEntries(es) && DistinctKeys(es)
    requires col < at && Stops(after, col + 1)
    ensures EntryValue("", PrintEntries(es, at) + after, col).0 == VMap(ToPairs(es)) <==> at == col + 1
    ensures at > col + 1 ==>
      var ls := PrintEntries(es, at) + after;
      EntryValue("", ls, col) == (VMap([]), ls) && Entries(ls, col) == ([], ls)
  {
    if at == col + 1 {
      MapValueBack(es, col, after);
    } else {
      DeepMapUnread(es, at, col, after);
      assert |ToPairs(es)| == |es|;
    }
  }
}
