/** Blank lines never matter to the reader, and a list item that opens no mapping is stepped over. */
module YamlBlankLines {
  import opened Text
  import opened YamlParser

  function Squeeze(ls: seq<string>): seq<string> {
    if ls == [] then [] else (if Blank(ls[0]) then [] else [ls[0]]) + Squeeze(ls[1..])
  }

  lemma SqueezeCons(line: string, below: seq<string>)
    ensures Squeeze([line] + below) == if Blank(line) then Squeeze(below) else [line] + Squeeze(below)
  {
    assert ([line] + below)[1..] == below;
  }

  // ---- The progress guard ----

  lemma {:induction false} LStripKeeps(s: string, c: char)
    requires c in s && !IsSpace(c)
    ensures c in LStrip(s)
  {
    if IsSpace(s[0]) {
      assert s == [s[0]] + s[1..];
      LStripKeeps(s[1..], c);
    }
  }

  lemma {:induction false} RStripKeeps(s: string, c: char)
    requires c in s && !IsSpace(c)
    ensures c in RStrip(s)
  {
    if IsSpace(s[|s| - 1]) {
      assert s == s[..|s| - 1] + [s[|s| - 1]];
      RStripKeeps(s[..|s| - 1], c);
    }
  }

  lemma StripKeeps(s: string, c: char)
    requires c in s && !IsSpace(c)
    ensures c in Strip(s) && !Blank(s)
  {
    LStripKeeps(s, c);
    RStripKeeps(LStrip(s), c);
  }

  lemma IndentOfShifted(n: nat, t: string)
    ensures IndentOf(Spaces(n) + t) == n + IndentOf(t)
    ensures Strip(Spaces(n) + t) == Strip(t)
  {
    LStripSpaces(n, t);
    var k := IndentOf(t);
    assert t == Spaces(k) + t[k..];
    assert Spaces(n) + t == Spaces(n + k) + t[k..];
    IndentOfPadded(n + k, t[k..]);
  }

  /**
   * The mapping read from an item's overwritten line consumes nothing exactly when the content is
   * indented further or is itself a list item. In every other case the cursor moves.
   */
  lemma ItemMappingStuck(content: string, tail: seq<string>, col: nat)
    requires OpensMapping(content)
    ensures var shifted := [Spaces(col) + content] + tail;
      && (|Entries(shifted, col).1| == |shifted| <==> (content[0] == ' ' || StartsWith(Strip(content), "- ")))
      && (|Entries(shifted, col).1| == |shifted| ==> Entries(shifted, col) == ([], shifted))
      && (|Entries(shifted, col).1| == |shifted| <==> EndsMapping(Spaces(col) + content, col))
  {
    var line := Spaces(col) + content;
    var shifted := [line] + tail;
    assert ':' in line;
    StripKeeps(line, ':');
    IndentOfShifted(col, content);
    assert shifted[1..] == tail;
  }

  // ---- Blank lines ----

  lemma {:induction false} SkipBlankSqueeze(ls: seq<string>)
    ensures Squeeze(SkipBlank(ls)) == Squeeze(ls) && SkipBlank(Squeeze(ls)) == Squeeze(ls)
  {
    if ls != [] {
      SkipBlankSqueeze(ls[1..]);
    }
  }

  lemma {:induction false} FoldedSqueeze(ls: seq<string>, col: nat)
    ensures Folded(Squeeze(ls), col) == (Folded(ls, col).0, Squeeze(Folded(ls, col).1))
  {
    if ls != [] {
      FoldedSqueeze(ls[1..], col);
      assert [] + Squeeze(ls[1..]) == Squeeze(ls[1..]);
      assert ([ls[0]] + Squeeze(ls[1..]))[1..] == Squeeze(ls[1..]);
    }
  }

  lemma {:induction false} BlockSqueeze(ls: seq<string>, min: nat)
    ensures Block(Squeeze(ls), min) == (Block(ls, min).0, Squeeze(Block(ls, min).1))
    decreases |ls|, 3
  {
    var here := SkipBlank(ls);
    SkipBlankSqueeze(ls);
    if here != [] {
      assert here == [here[0]] + here[1..];
      SqueezeCons(here[0], here[1..]);
      ItemsSqueeze(here, IndentOf(here[0]));
      EntriesSqueeze(here, min);
    }
  }

  lemma {:induction false} ItemsSqueeze(ls: seq<string>, col: nat)
    ensures Items(Squeeze(ls), col) == (Items(ls, col).0, Squeeze(Items(ls, col).1))
    decreases |ls|, 2
  {
    if ls != [] {
      var below := Squeeze(ls[1..]);
      if Blank(ls[0]) {
        assert [] + below == below;
        ItemsSqueeze(ls[1..], col);
      } else if IndentOf(ls[0]) == col && DashItem(ls[0]) {
        ItemSqueeze(ls[0][col + 2..], ls[1..], col + 2);
        ItemsSqueeze(Item(ls[0][col + 2..], ls[1..], col + 2).1, col);
        assert ([ls[0]] + below)[1..] == below;
      }
    }
  }

  lemma {:induction false} ItemSqueeze(content: string, tail: seq<string>, col: nat)
    ensures Item(content, Squeeze(tail), col) == (Item(content, tail, col).0, Squeeze(Item(content, tail, col).1))
    decreases |tail| + 1, 1
  {
    if OpensMapping(content) {
      var line := Spaces(col) + content;
      ItemMappingStuck(content, tail, col);
      ItemMappingStuck(content, Squeeze(tail), col);
      assert ':' in line;
      StripKeeps(line, ':');
      SqueezeCons(line, tail);
      EntriesSqueeze([line] + tail, col);
    }
  }

  lemma {:induction false} EntriesSqueeze(ls: seq<string>, col: nat)
    ensures Entries(Squeeze(ls), col) == (Entries(ls, col).0, Squeeze(Entries(ls, col).1))
    decreases |ls|, 0
  {
    if ls != [] {
      var below := Squeeze(ls[1..]);
      if Blank(ls[0]) {
        assert [] + below == below;
        EntriesSqueeze(ls[1..], col);
      } else if !EndsMapping(ls[0], col) {
        assert ([ls[0]] + below)[1..] == below;
        if ':' !in Strip(ls[0]) {
          EntriesSqueeze(ls[1..], col);
        } else {
          var rest := KeyRest(Strip(ls[0])).1;
          EntryValueSqueeze(rest, ls[1..], col);
          EntriesSqueeze(EntryValue(rest, ls[1..], col).1, col);
        }
      }
    }
  }

  lemma {:induction false} EntryValueSqueeze(rest: string, ls: seq<string>, col: nat)
    ensures EntryValue(rest, Squeeze(ls), col) == (EntryValue(rest, ls, col).0, Squeeze(EntryValue(rest, ls, col).1))
    decreases |ls|, 4
  {
    if rest == ">" || rest == "|" {
      FoldedSqueeze(ls, col);
    } else if rest == "" {
      BlockSqueeze(ls, col + 1);
    }
  }

  /** Putting blank lines into a file, or taking them out, never changes what is read from it. */
  lemma BlankLinesDoNotMatter(text: string, other: string)
    requires Squeeze(Uncomment(Split(text, '\n'))) == Squeeze(Uncomment(Split(other, '\n')))
    ensures Load(text) == Load(other)
  {
    BlockSqueeze(Uncomment(Split(text, '\n')), 0);
    BlockSqueeze(Uncomment(Split(other, '\n')), 0);
  }
}
