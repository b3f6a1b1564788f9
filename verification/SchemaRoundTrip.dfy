/** What scripts/env_parity.py recovers from the `.env.schema` that scripts/check_env_schema.py printed. */
module SchemaRoundTrip {
  import opened Text
  import opened Options
  import opened SchemaText
  import opened SchemaReader
  import opened SchemaAdopted

  // ---- Reading in stretches ----

  /** Comment lines without an at sign leave a reader that waits for nothing as it is. */
  lemma {:induction false} ReadComments(r: Reader, lines: seq<string>, service: string)
    requires r.pending.None? && forall l :: l in lines ==> '@' !in l
    ensures ReadLines(r, lines, service) == r
    decreases lines
  {
    if lines != [] {
      var l := lines[0];
      assert l in lines && forall k :: k in lines[1..] ==> k in lines;
      NoAtNoTag(l);
      ReadComments(r, lines[1..], service);
    }
  }

  lemma NoAtNoTag(l: string)
    requires '@' !in l
    ensures TagMatch(l) == None
  {
    if l != "" {
      var rest := LStrip(l[1..]);
      LStripLength(l[1..]);
      assert |rest| >= 9 ==> rest[..9][0] == rest[0] && rest[0] in l;
    }
  }

  lemma EmptyLine(r: Reader, service: string)
    ensures SplitLines("\n") == [""] && ReadLines(r, [""], service) == r
  {
    assert BreakAt("\n") == 0;
  }

  /** The newlines trimmed at the end of the file meant nothing to the reader. */
  lemma {:induction false} ReadTrimmed(r: Reader, text: string, service: string)
    requires text != "" && text[|text| - 1] == '\n'
    ensures ReadLines(r, SplitLines(DropNewlines(text) + "\n"), service) == ReadLines(r, SplitLines(text), service)
    decreases |text|
  {
    var front := text[..|text| - 1];
    assert text == front + "\n";
    if front != "" && front[|front| - 1] == '\n' {
      ReadTrimmed(r, front, service);
      SplitAppend(front, "\n");
      EmptyLine(ReadLines(r, SplitLines(front), service), service);
      ReadAppend(r, SplitLines(front), [""], service);
    } else {
      assert DropNewlines(front) == front;
    }
  }

  // ---- Reading printed lines one by one, each split by the reader as it likes ----

  function ReadText(r: Reader, line: string, service: string): Reader {
    ReadLines(r, SplitLines(line + "\n"), service)
  }

  function ReadTexts(r: Reader, lines: seq<string>, service: string): Reader {
    if lines == [] then r
    else ReadText(ReadTexts(r, lines[..|lines| - 1], service), lines[|lines| - 1], service)
  }

  lemma UnlinesEnd(lines: seq<string>)
    ensures Unlines(lines) == "" || Unlines(lines)[|Unlines(lines)| - 1] == '\n'
  {
  }

  lemma {:induction false} ReadUnlines(r: Reader, lines: seq<string>, service: string)
    ensures ReadLines(r, SplitLines(Unlines(lines)), service) == ReadTexts(r, lines, service)
  {
    if lines != [] {
      var front := lines[..|lines| - 1];
      var last := lines[|lines| - 1];
      UnlinesEnd(front);
      assert Unlines(lines) == Unlines(front) + (last + "\n");
      SplitAppend(Unlines(front), last + "\n");
      ReadAppend(r, SplitLines(Unlines(front)), SplitLines(last + "\n"), service);
      ReadUnlines(r, front, service);
    }
  }

  lemma {:induction false} ReadTextsAppend(r: Reader, a: seq<string>, b: seq<string>, service: string)
    ensures ReadTexts(r, a + b, service) == ReadTexts(ReadTexts(r, a, service), b, service)
    decreases b
  {
    if b == [] {
      assert a + b == a;
    } else {
      assert (a + b)[..|a + b| - 1] == a + b[..|b| - 1];
      ReadTextsAppend(r, a, b[..|b| - 1], service);
    }
  }

  lemma WholeLine(line: string)
    requires OneLine(line)
    ensures SplitLines(line + "\n") == [line]
  {
    OneCharacterBreak(line, '\n', "");
    assert line + ['\n'] + "" == line + "\n";
  }

  lemma ReadWholeLine(r: Reader, line: string, service: string)
    requires OneLine(line)
    ensures ReadText(r, line, service) == ReadLine(r, line, service)
  {
    WholeLine(line);
    ReadOne(r, line, service);
  }

  lemma ReadTwo(r: Reader, a: string, b: string, service: string)
    ensures ReadTexts(r, [a, b], service) == ReadText(ReadText(r, a, service), b, service)
  {
    assert [a, b][..|[a, b]| - 1] == [a] && [a][..|[a]| - 1] == [];
    assert ReadTexts(r, [], service) == r;
    assert ReadTexts(r, [a], service) == ReadText(r, a, service);
  }

  // ---- Fields ----

  function NamesOf(fields: seq<EnvVar>, service: string): set<string> {
    set f | f in fields && f.service == service :: f.name
  }

  function RequiredOf(fields: seq<EnvVar>, service: string): set<string> {
    set f | f in fields && f.service == service && f.required :: f.name
  }

  function OwnName(f: EnvVar, service: string): set<string> {
    if f.service == service then {f.name} else {}
  }

  function OwnRequired(f: EnvVar, service: string): set<string> {
    if f.service == service && f.required then {f.name} else {}
  }

  /** The lines that the reader makes of a field's tag line: more than one if the type holds a line break. */
  function TagTexts(f: EnvVar): seq<string> {
    SplitLines(TagLine(f) + "\n")
  }

  function NameTexts(f: EnvVar): seq<string> {
    SplitLines(NameLine(f) + "\n")
  }

  /**
   * The lines that the reader makes of a field's name line, behind the first: none, unless the default
   * holds a line break.
   */
  function Extra(f: EnvVar): seq<string> {
    NameTexts(f)[1..]
  }

  /** What a field's two lines tell a reader that waits for nothing. */
  function Told(f: EnvVar, service: string): Reader {
    ReadLines(START, TagTexts(f) + NameTexts(f), service)
  }

  function ToldNames(fields: seq<EnvVar>, service: string): set<string> {
    set f, n | f in fields && n in Told(f, service).all :: n
  }

  function ToldRequired(fields: seq<EnvVar>, service: string): set<string> {
    set f, n | f in fields && n in Told(f, service).required :: n
  }

  /** What a field's default makes the reader believe, beside the field itself. */
  function Planted(f: EnvVar, service: string): Reader {
    ReadLines(START, Extra(f), service)
  }

  function PlantedNames(fields: seq<EnvVar>, service: string): set<string> {
    set f, n | f in fields && n in Planted(f, service).all :: n
  }

  function PlantedRequired(fields: seq<EnvVar>, service: string): set<string> {
    set f, n | f in fields && n in Planted(f, service).required :: n
  }

  /** What a field's type makes the reader believe, before the field's name line. */
  function Foretold(f: EnvVar, service: string): Reader {
    ReadLines(START, TagTexts(f), service)
  }

  /** The tag line that the field's name line answers to, as the reader sees it. */
  ghost function OpenedTag(f: EnvVar): Option<(bool, string)> {
    match Opened(TagTexts(f))
    case None => None
    case Some(k) => TagMatch(TagTexts(f)[k])
  }

  ghost function FoundName(f: EnvVar, service: string): set<string> {
    if OpenedTag(f).Some? && OpenedTag(f).value.1 == service then {f.name} else {}
  }

  ghost function FoundRequired(f: EnvVar, service: string): set<string> {
    if OpenedTag(f) == Some((true, service)) then {f.name} else {}
  }

  /** Reading adds to the names found so far, whatever they are. */
  lemma {:induction false} ReadAdds(r: Reader, lines: seq<string>, service: string, x: set<string>, y: set<string>)
    ensures var s := ReadLines(r, lines, service);
      ReadLines(r.(required := x + r.required, all := y + r.all), lines, service)
      == s.(required := x + s.required, all := y + s.all)
    decreases lines
  {
    if lines != [] {
      var next := ReadLine(r, lines[0], service);
      ReadLineAdds(r, lines[0], service, x, y);
      ReadAdds(next, lines[1..], service, x, y);
    }
  }

  lemma ReadLineAdds(r: Reader, line: string, service: string, x: set<string>, y: set<string>)
    ensures var s := ReadLine(r, line, service);
      ReadLine(r.(required := x + r.required, all := y + r.all), line, service)
      == s.(required := x + s.required, all := y + s.all)
  {
    match NameMatch(line)
    case Some(name) =>
      assert x + (r.required + {name}) == (x + r.required) + {name};
      assert y + (r.all + {name}) == (y + r.all) + {name};
    case None =>
  }

  lemma NameTextRead(r: Reader, f: EnvVar, service: string)
    requires GoodName(f.name)
    ensures NameTexts(f) != [] && NameMatch(NameTexts(f)[0]) == Some(f.name) && TagMatch(NameTexts(f)[0]).None?
    ensures ReadLines(r, NameTexts(f), service) == ReadLines(ReadLine(r, f.name + "=", service), Extra(f), service)
  {
    var text := NameLine(f) + "\n";
    var value := if f.sensitive then "" else f.default.GetOr("");
    var n := BreakAt(text);
    assert forall i :: 0 <= i < |f.name| ==> text[i] == f.name[i];
    assert text[|f.name|] == '=';
    assert n > |f.name|;
    assert forall m :: m == |text| ==> text[..m][|text| - 1] == '\n';
    var first := text[..n];
    assert first == f.name + "=" + first[|f.name| + 1..];
    NameLineRead(f.name, first[|f.name| + 1..]);
    NameLineRead(f.name, "");
    assert f.name + "=" + "" == f.name + "=";
    assert SplitLines(text)[0] == first;
  }

  lemma NoneWaitsForNone(lines: seq<string>, service: string)
    ensures var r := ReadLines(START, lines, service);
      Opened(lines).None? ==> r == Reader(r.required, r.all, false, None)
  {
    ReaderWaits(lines, service);
    NoPendingNoRequired(START, lines, service);
  }

  lemma {:induction false} NoPendingNoRequired(r: Reader, lines: seq<string>, service: string)
    requires r.pending.None? ==> !r.pendingRequired
    ensures var out := ReadLines(r, lines, service); out.pending.None? ==> !out.pendingRequired
    decreases lines
  {
    if lines != [] {
      NoPendingNoRequired(ReadLine(r, lines[0], service), lines[1..], service);
    }
  }

  /**
   * What a field's two lines tell: what its type tells, its own name if a tag line of the service is open
   * when the name line comes, and what its default tells.
   */
  lemma ToldIs(f: EnvVar, service: string)
    requires GoodName(f.name)
    ensures Told(f, service).all == Foretold(f, service).all + FoundName(f, service) + Planted(f, service).all
    ensures Told(f, service).required
      == Foretold(f, service).required + FoundRequired(f, service) + Planted(f, service).required
  {
    var before := Foretold(f, service);
    ReadAppend(START, TagTexts(f), NameTexts(f), service);
    NameTextRead(before, f, service);
    NameAnswers(f, service);
    ReadAfresh(ReadLine(before, f.name + "=", service), Extra(f), service);
  }

  lemma NameAnswers(f: EnvVar, service: string)
    requires GoodName(f.name)
    ensures var before := Foretold(f, service);
      ReadLine(before, f.name + "=", service)
      == Reader(before.required + FoundRequired(f, service), before.all + FoundName(f, service), false, None)
  {
    NameLineRead(f.name, "");
    assert f.name + "=" + "" == f.name + "=";
    ReaderWaits(TagTexts(f), service);
    NoneWaitsForNone(TagTexts(f), service);
  }

  /** A reader that waits for nothing reads on as a new one, and keeps what it has. */
  lemma ReadAfresh(r: Reader, lines: seq<string>, service: string)
    requires r == Reader(r.required, r.all, false, None)
    ensures var s := ReadLines(START, lines, service);
      ReadLines(r, lines, service) == s.(required := r.required + s.required, all := r.all + s.all)
  {
    ReadAdds(START, lines, service, r.required, r.all);
    assert START.(required := r.required + START.required, all := r.all + START.all) == r;
  }

  /** The default leaves no tag line behind that waits for a name. */
  ghost predicate Closed(f: EnvVar) {
    Opened(Extra(f)).None?
  }

  lemma ClosedField(f: EnvVar)
    requires GoodName(f.name) && Closed(f)
    ensures Opened(TagTexts(f) + NameTexts(f)).None?
  {
    var lines, n := TagTexts(f) + NameTexts(f), |TagTexts(f)|;
    NameTextRead(START, f, "");
    assert lines[n] == NameTexts(f)[0] && Tells(lines[n]);
    assert lines[n + 1..] == Extra(f);
    forall i: nat
      ensures !OpenTag(lines, i)
    {
      if i > n {
        assert OpenTag(lines, i) ==> OpenTag(Extra(f), i - n - 1);
      }
    }
  }

  /** No printed line of one field can be taken for part of another. */
  ghost predicate Apart(r: Reader, fields: seq<EnvVar>, whole: bool) {
    if whole then forall f :: f in fields ==> OneLine(f.typ)
    else r == Reader(r.required, r.all, false, None) && forall f :: f in fields ==> Closed(f)
  }

  lemma FieldTexts(r: Reader, f: EnvVar, service: string)
    ensures ReadTexts(r, [TagLine(f), NameLine(f)], service) == ReadLines(r, TagTexts(f) + NameTexts(f), service)
  {
    ReadTwo(r, TagLine(f), NameLine(f), service);
    ReadAppend(r, TagTexts(f), NameTexts(f), service);
  }

  /** A tag line in one piece makes the reader forget what it was waiting for. */
  lemma TagForgets(r: Reader, f: EnvVar, rest: seq<string>, service: string)
    requires GoodField(f)
    ensures TagTexts(f) == [TagLine(f)]
    ensures ReadLines(r, TagTexts(f) + rest, service)
      == ReadLines(Reader(r.required, r.all, false, None), TagTexts(f) + rest, service)
  {
    TagOneLine(f);
    WholeLine(TagLine(f));
    TagLineRead(f);
    assert ([TagLine(f)] + rest)[0] == TagLine(f);
  }

  /** A field's two lines add what they tell to what was found before. */
  lemma ReadField(r: Reader, f: EnvVar, service: string, whole: bool)
    requires WellNamed(f) && Apart(r, [f], whole)
    ensures var out := ReadTexts(r, [TagLine(f), NameLine(f)], service);
      && out.required == r.required + Told(f, service).required
      && out.all == r.all + Told(f, service).all
      && (!whole ==> out == Reader(out.required, out.all, false, None))
  {
    assert f in [f];
    FieldTexts(r, f, service);
    if whole {
      TagForgets(r, f, NameTexts(f), service);
    } else {
      ClosedField(f);
      NoneWaitsForNone(TagTexts(f) + NameTexts(f), service);
    }
    ReadAfresh(Reader(r.required, r.all, false, None), TagTexts(f) + NameTexts(f), service);
  }

  lemma OneLineConcat(a: string, b: string)
    requires OneLine(a) && OneLine(b)
    ensures OneLine(a + b)
  {
  }

  lemma {:induction false} JoinOneLine(parts: seq<string>)
    requires forall p :: p in parts ==> OneLine(p)
    ensures OneLine(Join(parts, " "))
  {
    if |parts| == 1 {
      assert parts[0] in parts;
    } else if parts != [] {
      assert parts[0] in parts && forall p :: p in parts[1..] ==> p in parts;
      JoinOneLine(parts[1..]);
      OneLineConcat(parts[0], " ");
      OneLineConcat(parts[0] + " ", Join(parts[1..], " "));
    }
  }

  lemma TagOneLine(f: EnvVar)
    requires GoodField(f)
    ensures OneLine(TagLine(f))
  {
    OneLineConcat("@type=", f.typ);
    OneLineConcat("@service=", f.service);
    forall t | t in Tags(f) ensures OneLine(t) {
      assert t in ["@required", "@optional", "@sensitive", "@type=" + f.typ, "@service=" + f.service];
    }
    JoinOneLine(Tags(f));
    OneLineConcat("# ", Join(Tags(f), " "));
  }

  /** The reader found what the fields tell, and nothing else. */
  ghost predicate Adds(r: Reader, out: Reader, fields: seq<EnvVar>, service: string) {
    out.required == r.required + ToldRequired(fields, service) && out.all == r.all + ToldNames(fields, service)
  }

  lemma AddsNothing(r: Reader, service: string)
    ensures Adds(r, r, [], service)
  {
  }

  lemma {:induction false} ReadFields(r: Reader, fields: seq<EnvVar>, service: string, whole: bool)
    requires (forall f :: f in fields ==> WellNamed(f)) && Apart(r, fields, whole)
    ensures var out := ReadTexts(r, FieldLines(fields), service);
      Adds(r, out, fields, service) && Apart(out, fields, whole)
  {
    if fields == [] {
      AddsNothing(r, service);
    } else {
      var (front, f) := (fields[..|fields| - 1], fields[|fields| - 1]);
      assert front + [f] == fields;
      assert f in fields && forall g :: g in front ==> g in fields;
      ReadFields(r, front, service, whole);
      ReadTextsAppend(r, FieldLines(front), [TagLine(f), NameLine(f)], service);
      ReadFieldsStep(r, ReadTexts(r, FieldLines(front), service), front, f, service, whole);
    }
  }

  lemma ReadFieldsStep(r: Reader, mid: Reader, front: seq<EnvVar>, f: EnvVar, service: string, whole: bool)
    requires WellNamed(f) && Adds(r, mid, front, service) && Apart(mid, [f], whole)
    ensures var out := ReadTexts(mid, [TagLine(f), NameLine(f)], service);
      Adds(r, out, front + [f], service) && (!whole ==> out == Reader(out.required, out.all, false, None))
  {
    ReadField(mid, f, service, whole);
    ToldTogether(front, [f], service);
    ToldAlone(f, service);
  }

  lemma ToldAlone(f: EnvVar, service: string)
    ensures ToldNames([f], service) == Told(f, service).all
    ensures ToldRequired([f], service) == Told(f, service).required
  {
    assert f in [f];
  }

  lemma ToldTogether(a: seq<EnvVar>, b: seq<EnvVar>, service: string)
    ensures ToldNames(a + b, service) == ToldNames(a, service) + ToldNames(b, service)
    ensures ToldRequired(a + b, service) == ToldRequired(a, service) + ToldRequired(b, service)
  {
    assert forall g :: g in a + b <==> g in a || g in b;
  }

  lemma AddsBoth(r: Reader, mid: Reader, out: Reader, a: seq<EnvVar>, b: seq<EnvVar>, service: string)
    requires Adds(r, mid, a, service) && Adds(mid, out, b, service)
    ensures Adds(r, out, a + b, service)
  {
    ToldTogether(a, b, service);
  }

  // ---- Sections ----

  lemma SectionLineRead(r: Reader, section: string, service: string)
    requires GoodService(section)
    ensures ReadText(r, SectionLine(section), service) == r
  {
    var line := SectionLine(section);
    OneLineConcat("# ---- service: ", section);
    OneLineConcat("# ---- service: " + section, " ");
    OneLineConcat("# ---- service: " + section + " ", seq(if |section| < 49 then 50 - |section| else 1, _ => '-'));
    ReadWholeLine(r, line, service);
    var head := "# ---- service: ";
    assert head[0] == '#' && head[1] == ' ' && head[2] == '-';
    assert forall i :: 0 <= i < |head| ==> line[i] == head[i];
    assert line[1..][0] == ' ' && line[1..][1..] == line[2..];
    assert LStrip(line[1..]) == line[2..];
    assert |line[2..]| >= 9 ==> line[2..][..9][0] == '-';
  }

  lemma ReadTextsOne(r: Reader, line: string, service: string)
    ensures ReadTexts(r, [line], service) == ReadText(r, line, service)
  {
    assert [line][..|[line]| - 1] == [];
    assert ReadTexts(r, [], service) == r;
  }

  lemma ReadSection(r: Reader, fields: seq<EnvVar>, section: string, service: string, whole: bool)
    requires GoodService(section) && (forall f :: f in fields ==> WellNamed(f)) && Apart(r, fields, whole)
    ensures var ordered := Sorted(OfService(fields, section), NameOf);
      var out := ReadTexts(r, Section(fields, section), service);
      Adds(r, out, ordered, service) && Apart(out, fields, whole)
  {
    var ordered := Sorted(OfService(fields, section), NameOf);
    SortedMembers(OfService(fields, section), NameOf);
    OfServiceMembers(fields, section);
    var head := [SectionLine(section)];
    ReadTextsAppend(r, head + FieldLines(ordered), [""], service);
    ReadTextsAppend(r, head, FieldLines(ordered), service);
    ReadTextsOne(r, SectionLine(section), service);
    SectionLineRead(r, section, service);
    ReadFields(r, ordered, service, whole);
    var out := ReadTexts(r, FieldLines(ordered), service);
    ReadTextsOne(out, "", service);
    EmptyLine(out, service);
    assert "" + "\n" == "\n";
  }

  lemma {:induction false} OfServiceMembers(fields: seq<EnvVar>, service: string)
    ensures forall f :: f in OfService(fields, service) <==> f in fields && f.service == service
  {
    if fields != [] {
      var front := fields[..|fields| - 1];
      OfServiceMembers(front, service);
      assert fields == front + [fields[|fields| - 1]];
    }
  }

  lemma {:induction false} ServicesMembers(fields: seq<EnvVar>, service: string)
    ensures service in Services(fields) <==> exists f :: f in fields && f.service == service
  {
    if fields != [] {
      var front := fields[..|fields| - 1];
      var last := fields[|fields| - 1];
      ServicesMembers(front, service);
      assert fields == front + [last] && last in fields;
    }
  }

  /** The fields in the order in which the sections print them. */
  function Printed(fields: seq<EnvVar>, services: seq<string>): seq<EnvVar> {
    if services == [] then []
    else
      var last := Sorted(OfService(fields, services[|services| - 1]), NameOf);
      Printed(fields, services[..|services| - 1]) + last
  }

  lemma {:induction false} PrintedMembers(fields: seq<EnvVar>, services: seq<string>)
    ensures forall f :: f in Printed(fields, services) <==> f in fields && f.service in services
  {
    if services != [] {
      var (front, last) := (services[..|services| - 1], services[|services| - 1]);
      assert services == front + [last];
      PrintedMembers(fields, front);
      SortedMembers(OfService(fields, last), NameOf);
      OfServiceMembers(fields, last);
    }
  }

  lemma {:induction false} ReadSections(r: Reader, fields: seq<EnvVar>, services: seq<string>, service: string,
                                        whole: bool)
    requires (forall f :: f in fields ==> WellNamed(f)) && Apart(r, fields, whole)
    requires forall s :: s in services ==> GoodService(s)
    ensures var out := ReadTexts(r, Sections(fields, services), service);
      Adds(r, out, Printed(fields, services), service) && Apart(out, fields, whole)
  {
    if services == [] {
      AddsNothing(r, service);
    } else {
      var (front, last) := (services[..|services| - 1], services[|services| - 1]);
      assert last in services && forall s :: s in front ==> s in services;
      ReadSections(r, fields, front, service, whole);
      var mid := ReadTexts(r, Sections(fields, front), service);
      ReadTextsAppend(r, Sections(fields, front), Section(fields, last), service);
      ReadSection(mid, fields, last, service, whole);
      AddsBoth(r, mid, ReadTexts(mid, Section(fields, last), service), Printed(fields, front),
               Sorted(OfService(fields, last), NameOf), service);
    }
  }

  // ---- Whole files ----

  /** The comment that heads the file: whole lines, none of which mentions a tag. */
  predicate GoodHeader(header: string) {
    header != "" && header[|header| - 1] == '\n' && '@' !in header
  }

  lemma PrintedTextRead(header: string, lines: seq<string>, service: string)
    requires GoodHeader(header)
    ensures var text := DropNewlines(header + Unlines(lines)) + "\n";
      ReadLines(START, SplitLines(text), service) == ReadTexts(START, lines, service)
  {
    var text := header + Unlines(lines);
    UnlinesEnd(lines);
    assert text[|text| - 1] == '\n' by {
      assert Unlines(lines) == "" ==> text == header;
    }
    ReadTrimmed(START, text, service);
    SplitAppend(header, Unlines(lines));
    SplitChars(header, '@');
    ReadAppend(START, SplitLines(header), SplitLines(Unlines(lines)), service);
    ReadComments(START, SplitLines(header), service);
    ReadUnlines(START, lines, service);
  }

  lemma SameMembers(a: seq<EnvVar>, b: seq<EnvVar>, service: string)
    requires forall f :: f in a <==> f in b
    ensures ToldNames(a, service) == ToldNames(b, service) && ToldRequired(a, service) == ToldRequired(b, service)
  {
  }

  /**
   * What is read back from a printed file is what the fields tell one by one, when no type holds a line break
   * or when no default leaves a tag line open.
   */
  lemma WhatIsTold(header: string, fields: seq<EnvVar>, service: string, whole: bool)
    requires GoodHeader(header) && (forall f :: f in fields ==> WellNamed(f)) && Apart(START, fields, whole)
    ensures Parse(Render(header, fields), service) == (ToldRequired(fields, service), ToldNames(fields, service))
  {
    var services := Sorted(Services(fields), Itself);
    SortedMembers(Services(fields), Itself);
    forall s ensures s in services <==> exists f :: f in fields && f.service == s {
      ServicesMembers(fields, s);
    }
    ReadSections(START, fields, services, service, whole);
    PrintedTextRead(header, Sections(fields, services), service);
    PrintedMembers(fields, services);
    SameMembers(Printed(fields, services), fields, service);
    NothingPlus(ToldRequired(fields, service));
    NothingPlus(ToldNames(fields, service));
  }

  /** A type without a line break tells the reader of its own field and of nothing else. */
  lemma WholeTypeTells(f: EnvVar, service: string)
    requires GoodField(f)
    ensures Told(f, service).all == OwnName(f, service) + Planted(f, service).all
    ensures Told(f, service).required == OwnRequired(f, service) + Planted(f, service).required
  {
    ToldIs(f, service);
    TagForgets(START, f, [], service);
    TagLineRead(f);
    ReadOne(START, TagLine(f), service);
    assert OpenTag([TagLine(f)], 0);
    NothingPlus(OwnName(f, service));
    NothingPlus(OwnRequired(f, service));
  }

  /** What is read back from a printed file, whatever the defaults hold. */
  lemma WhatIsRead(header: string, fields: seq<EnvVar>, service: string)
    requires GoodHeader(header) && forall f :: f in fields ==> GoodField(f)
    ensures Parse(Render(header, fields), service)
      == (RequiredOf(fields, service) + PlantedRequired(fields, service),
          NamesOf(fields, service) + PlantedNames(fields, service))
  {
    WhatIsTold(header, fields, service, true);
    forall f | f in fields
      ensures Told(f, service).all == OwnName(f, service) + Planted(f, service).all
      ensures Told(f, service).required == OwnRequired(f, service) + Planted(f, service).required
    {
      WholeTypeTells(f, service);
    }
    OwnAndPlanted(fields, service);
  }

  lemma OwnAndPlanted(fields: seq<EnvVar>, service: string)
    requires forall f :: f in fields ==> Told(f, service).all == OwnName(f, service) + Planted(f, service).all
    requires forall f :: f in fields ==>
      Told(f, service).required == OwnRequired(f, service) + Planted(f, service).required
    ensures ToldNames(fields, service) == NamesOf(fields, service) + PlantedNames(fields, service)
    ensures ToldRequired(fields, service) == RequiredOf(fields, service) + PlantedRequired(fields, service)
  {
    forall n
      ensures n in ToldNames(fields, service) <==> n in NamesOf(fields, service) + PlantedNames(fields, service)
    {
      assert forall f :: f in fields ==>
        (n in Told(f, service).all <==> n in OwnName(f, service) || n in Planted(f, service).all);
    }
    forall n
      ensures n in ToldRequired(fields, service)
        <==> n in RequiredOf(fields, service) + PlantedRequired(fields, service)
    {
      assert forall f :: f in fields ==>
        (n in Told(f, service).required <==> n in OwnRequired(f, service) || n in Planted(f, service).required);
    }
  }

  lemma NothingPlus(s: set<string>)
    ensures {} + s == s
  {
  }

  /** No name line of the default is adopted by a tag line of the default, unless the service has the name. */
  ghost predicate PlantsNothingNew(f: EnvVar, fields: seq<EnvVar>, service: string) {
    forall i: nat, j: nat :: Adopted(Extra(f), service, i, j) ==>
      var name := NameMatch(Extra(f)[j]).value;
      && name in NamesOf(fields, service)
      && (TagMatch(Extra(f)[i]).value.0 ==> name in RequiredOf(fields, service))
  }

  lemma PlantedIff(f: EnvVar, fields: seq<EnvVar>, service: string)
    ensures Planted(f, service).required <= RequiredOf(fields, service)
        && Planted(f, service).all <= NamesOf(fields, service)
      <==> PlantsNothingNew(f, fields, service)
  {
    forall name
      ensures name in Planted(f, service).all <==> Names(Extra(f), service, name)
      ensures name in Planted(f, service).required <==> Requires(Extra(f), service, name)
    {
      ReadIsAdopted(Extra(f), service, name);
    }
    if PlantsNothingNew(f, fields, service) {
      forall name | name in Planted(f, service).all
        ensures name in NamesOf(fields, service)
      {
        var i: nat, j: nat :| Adopted(Extra(f), service, i, j) && NameMatch(Extra(f)[j]).value == name;
      }
    } else {
      var i: nat, j: nat :| Adopted(Extra(f), service, i, j)
        && (NameMatch(Extra(f)[j]).value !in NamesOf(fields, service)
            || (TagMatch(Extra(f)[i]).value.0 && NameMatch(Extra(f)[j]).value !in RequiredOf(fields, service)));
      assert Names(Extra(f), service, NameMatch(Extra(f)[j]).value);
    }
  }

  /**
   * The reader recovers a service's names exactly when no default holds, behind a line break, a tag line of
   * the service and later a name line, with nothing told between them, for a name that the service lacks.
   */
  lemma RoundTripExactly(header: string, fields: seq<EnvVar>, service: string)
    requires GoodHeader(header) && forall f :: f in fields ==> GoodField(f)
    ensures Parse(Render(header, fields), service) == (RequiredOf(fields, service), NamesOf(fields, service))
      <==> forall f :: f in fields ==> PlantsNothingNew(f, fields, service)
  {
    WhatIsRead(header, fields, service);
    PlusSame(RequiredOf(fields, service), PlantedRequired(fields, service));
    PlusSame(NamesOf(fields, service), PlantedNames(fields, service));
    PlantedBelow(fields, service, RequiredOf(fields, service), NamesOf(fields, service));
    forall f
      ensures Planted(f, service).required <= RequiredOf(fields, service)
          && Planted(f, service).all <= NamesOf(fields, service)
        <==> PlantsNothingNew(f, fields, service)
    {
      PlantedIff(f, fields, service);
    }
  }

  lemma PlusSame(a: set<string>, b: set<string>)
    ensures a + b == a <==> b <= a
  {
  }

  lemma PlantedBelow(fields: seq<EnvVar>, service: string, x: set<string>, y: set<string>)
    ensures PlantedRequired(fields, service) <= x && PlantedNames(fields, service) <= y
      <==> forall f :: f in fields ==> Planted(f, service).required <= x && Planted(f, service).all <= y
  {
    if PlantedRequired(fields, service) <= x && PlantedNames(fields, service) <= y {
      forall f, n | f in fields && n in Planted(f, service).required ensures n in x {
        assert n in PlantedRequired(fields, service);
      }
      forall f, n | f in fields && n in Planted(f, service).all ensures n in y {
        assert n in PlantedNames(fields, service);
      }
    }
  }

  lemma CleanPlantsNothing(f: EnvVar, service: string)
    requires GoodName(f.name) && OneLine(f.default.GetOr(""))
    ensures Planted(f, service) == START
  {
    OneLineConcat(f.name, "=");
    OneLineConcat(f.name + "=", if f.sensitive then "" else f.default.GetOr(""));
    WholeLine(NameLine(f));
  }

  /** Defaults without line breaks plant nothing: the printed file is read back exactly. */
  lemma RoundTrip(header: string, fields: seq<EnvVar>, service: string)
    requires GoodHeader(header)
    requires forall f :: f in fields ==> GoodField(f) && OneLine(f.default.GetOr(""))
    ensures Parse(Render(header, fields), service) == (RequiredOf(fields, service), NamesOf(fields, service))
  {
    forall f | f in fields ensures PlantsNothingNew(f, fields, service) {
      CleanPlantsNothing(f, service);
      PlantedIff(f, fields, service);
    }
    RoundTripExactly(header, fields, service);
  }

  /**
   * When a field's own two lines give it its name, whatever its type holds: a tag line of its service is open
   * when the name line comes, or the type spells out such a tag line and the name itself.
   */
  lemma OwnNameFoundIff(f: EnvVar)
    requires WellNamed(f) && OneLine(f.default.GetOr(""))
    ensures f.name in Told(f, f.service).all
      <==> || (OpenedTag(f).Some? && OpenedTag(f).value.1 == f.service)
           || Names(TagTexts(f), f.service, f.name)
  {
    ToldIs(f, f.service);
    CleanPlantsNothing(f, f.service);
    ReadIsAdopted(TagTexts(f), f.service, f.name);
  }

  // ---- "No newline" is not enough ----

  /** A character that is not a newline, but at which `splitlines()` ends a line all the same. */
  const SEPARATOR := '\U{2028}'

  /** The field with a default that carries the two lines of another field behind separators. */
  function Smuggling(f: EnvVar, g: EnvVar): EnvVar {
    f.(default := Some("1" + [SEPARATOR] + TagLine(g) + [SEPARATOR] + NameLine(g)))
  }

  lemma SplitThree(a: string, b: string, c: string)
    requires OneLine(a) && OneLine(b) && OneLine(c)
    ensures SplitLines(a + [SEPARATOR] + (b + [SEPARATOR] + (c + ['\n'] + ""))) == [a] + ([b] + [c])
  {
    var (u, v) := (c + ['\n'] + "", b + [SEPARATOR] + (c + ['\n'] + ""));
    OneCharacterBreak(c, '\n', "");
    assert [c] + SplitLines("") == [c];
    OneCharacterBreak(b, SEPARATOR, u);
    OneCharacterBreak(a, SEPARATOR, v);
  }

  lemma RegroupThree(name: string, b: string, c: string)
    ensures name + "=" + ("1" + [SEPARATOR] + b + [SEPARATOR] + c) + "\n"
      == (name + "=1") + [SEPARATOR] + (b + [SEPARATOR] + (c + ['\n'] + ""))
  {
  }

  lemma SmuggledExtra(f: EnvVar, g: EnvVar)
    requires GoodField(f) && GoodField(g) && OneLine(g.default.GetOr("")) && !f.sensitive
    ensures Extra(Smuggling(f, g)) == [TagLine(g)] + [NameLine(g)]
  {
    TagOneLine(g);
    OneLineConcat(f.name, "=1");
    OneLineConcat(g.name, "=");
    OneLineConcat(g.name + "=", if g.sensitive then "" else g.default.GetOr(""));
    RegroupThree(f.name, TagLine(g), NameLine(g));
    SplitThree(f.name + "=1", TagLine(g), NameLine(g));
  }

  /** Such a default, without a single newline, plants a field of its choice. */
  lemma SeparatorPlants(f: EnvVar, g: EnvVar, service: string)
    requires GoodField(f) && GoodField(g) && OneLine(g.default.GetOr("")) && !f.sensitive
    ensures Planted(Smuggling(f, g), service).required == OwnRequired(g, service)
    ensures Planted(Smuggling(f, g), service).all == OwnName(g, service)
  {
    SmuggledExtra(f, g);
    ReadAppend(START, [TagLine(g)], [NameLine(g)], service);
    ReadOne(START, TagLine(g), service);
    TagLineRead(g);
    var tagged := START.(pendingRequired := g.required, pending := Some(g.service));
    ReadOne(tagged, NameLine(g), service);
    NameLineRead(g.name, if g.sensitive then "" else g.default.GetOr(""));
  }

  // ---- A type with a separator loses its field ----

  lemma {:induction false} NoServiceInside(s: string)
    requires forall i :: 0 <= i < |s| - 3 && s[i] == '@' ==> s[i + 3] != 'r'
    ensures LastService(s) == None
  {
    if s != "" {
      NoServiceInside(s[1..]);
      assert MARK[0] == '@' && MARK[3] == 'r';
      assert |s| >= |MARK| ==> s[..|MARK|][0] == s[0] && s[..|MARK|][3] == s[3];
    }
  }

  lemma NoServiceUpToType(f: EnvVar, a: string)
    requires '@' !in a
    ensures LastService(UpToType(f) + a) == None
  {
    var s := UpToType(f) + a;
    assert forall i :: |UpToType(f)| <= i < |s| ==> s[i] == a[i - |UpToType(f)|];
    NoServiceInside(s);
  }

  /** A tag line that breaks off in the type is no tag line. */
  lemma BrokenTag(f: EnvVar, a: string)
    requires '@' !in a
    ensures !Tells("# " + (Demand(f) + (UpToType(f) + a)))
  {
    var joined := Demand(f) + (UpToType(f) + a);
    var line := "# " + joined;
    assert line[0] == '#' && line[1..] == [' '] + joined;
    assert ([' '] + joined)[1..] == joined && joined[0] == '@';
    assert LStrip([' '] + joined) == joined;
    assert joined[9..] == UpToType(f) + a;
    NoServiceUpToType(f, a);
  }

  lemma BrokenRest(b: string, rest: string)
    requires '=' !in b && (b == "" || b[0] != '#') && rest != "" && rest[0] == ' '
    ensures !Tells(b + rest)
  {
    var line := b + rest;
    assert line[|b|] == ' ' && !NameChar(' ');
    assert forall i :: 0 <= i < |b| ==> line[i] == b[i];
  }

  lemma BrokenTexts(f: EnvVar, a: string, b: string)
    requires GoodService(f.service) && OneLine(a) && OneLine(b) && f.typ == a + [SEPARATOR] + b
    ensures TagTexts(f) == ["# " + (Demand(f) + (UpToType(f) + a))] + [b + (" " + (MARK + f.service))]
  {
    var x, y := "# " + (Demand(f) + (UpToType(f) + a)), b + (" " + (MARK + f.service));
    JoinedTags(f);
    RegroupBroken("# ", Demand(f), UpToType(f), a, b, MARK + f.service);
    OneLineConcat(Demand(f), UpToType(f) + a);
    OneLineConcat(b, " " + (MARK + f.service));
    OneCharacterBreak(x, SEPARATOR, y + ['\n'] + "");
    OneCharacterBreak(y, '\n', "");
    assert [y] + SplitLines("") == [y];
  }

  lemma RegroupBroken(hash: string, demand: string, upTo: string, a: string, b: string, mark: string)
    ensures hash + (demand + (upTo + (a + [SEPARATOR] + b) + " " + mark)) + "\n"
      == (hash + (demand + (upTo + a))) + [SEPARATOR] + ((b + (" " + mark)) + ['\n'] + "")
  {
  }

  /** Such a type, without a single newline, makes the reader miss the field, in every service. */
  lemma SeparatorLoses(f: EnvVar, a: string, b: string, service: string)
    requires WellNamed(f) && OneLine(f.default.GetOr(""))
    requires f.typ == a + [SEPARATOR] + b && OneLine(a) && OneLine(b)
    requires '@' !in a && '=' !in b && (b == "" || b[0] != '#')
    ensures Told(f, service).all == {} && Told(f, service).required == {}
  {
    var lines := TagTexts(f);
    BrokenTexts(f, a, b);
    BrokenTag(f, a);
    BrokenRest(b, " " + (MARK + f.service));
    ReadAppend(START, [lines[0]], [lines[1]], service);
    ReadOne(START, lines[0], service);
    ReadOne(START, lines[1], service);
    assert forall i: nat :: !OpenTag(lines, i);
    ToldIs(f, service);
    CleanPlantsNothing(f, service);
  }
}
