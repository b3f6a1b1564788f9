/**
 * The reader as scripts/doctor.py runs it: one cursor and one array of lines, in which the line of
 * a list item that opens a mapping is overwritten before the mapping is read from it.
 */
module YamlLoader {
  import opened Text
  import opened YamlParser

  lemma Regroup<T>(done: seq<T>, x: T, rest: seq<T>)
    ensures [] + rest == rest && done + [] == done
    ensures done + ([x] + rest) == (done + [x]) + rest
  {
  }

  // ---- Where a loop stands: what it has collected, and what is still to be read ----

  ghost predicate ItemsFrom(all: (seq<Value>, seq<string>), done: seq<Value>, ls: seq<string>, col: nat) {
    all.0 == done + Items(ls, col).0 && all.1 == Items(ls, col).1
  }

  lemma BlankBeforeItem(all: (seq<Value>, seq<string>), done: seq<Value>, ls: seq<string>, col: nat)
    requires ItemsFrom(all, done, ls, col) && ls != [] && Blank(ls[0])
    ensures ItemsFrom(all, done, ls[1..], col)
  {
  }

  lemma ItemTaken(all: (seq<Value>, seq<string>), done: seq<Value>, ls: seq<string>, col: nat)
    requires ItemsFrom(all, done, ls, col) && ls != []
    requires !Blank(ls[0]) && IndentOf(ls[0]) == col && DashItem(ls[0])
    ensures var (value, after) := Item(ls[0][col + 2..], ls[1..], col + 2);
      ItemsFrom(all, done + [value], after, col)
  {
    var (value, after) := Item(ls[0][col + 2..], ls[1..], col + 2);
    Regroup(done, value, Items(after, col).0);
  }

  lemma NoMoreItems(all: (seq<Value>, seq<string>), done: seq<Value>, ls: seq<string>, col: nat)
    requires ItemsFrom(all, done, ls, col)
    requires ls == [] || (!Blank(ls[0]) && (IndentOf(ls[0]) != col || !DashItem(ls[0])))
    ensures all == (done, ls)
  {
    assert done + [] == done;
  }

  ghost predicate EntriesFrom(all: (seq<(string, Value)>, seq<string>), done: seq<(string, Value)>, ls: seq<string>,
                              col: nat)
  {
    Dict(all.0) == PutAll(done, Entries(ls, col).0) && all.1 == Entries(ls, col).1
  }

  lemma LinePassed(all: (seq<(string, Value)>, seq<string>), done: seq<(string, Value)>, ls: seq<string>, col: nat)
    requires EntriesFrom(all, done, ls, col) && ls != []
    requires Blank(ls[0]) || (!EndsMapping(ls[0], col) && ':' !in Strip(ls[0]))
    ensures EntriesFrom(all, done, ls[1..], col)
  {
  }

  lemma EntryTaken(all: (seq<(string, Value)>, seq<string>), done: seq<(string, Value)>, ls: seq<string>, col: nat)
    requires EntriesFrom(all, done, ls, col) && ls != []
    requires !Blank(ls[0]) && !EndsMapping(ls[0], col) && ':' in Strip(ls[0])
    ensures var (key, rest) := KeyRest(Strip(ls[0])); var (value, after) := EntryValue(rest, ls[1..], col);
      EntriesFrom(all, Put(done, key, value), after, col)
  {
    var (key, rest) := KeyRest(Strip(ls[0]));
    var (value, after) := EntryValue(rest, ls[1..], col);
    var es := Entries(after, col).0;
    assert ([(key, value)] + es)[1..] == es;
  }

  ghost predicate FoldedFrom(all: (seq<string>, seq<string>), done: seq<string>, ls: seq<string>, col: nat) {
    all.0 == done + Folded(ls, col).0 && all.1 == Folded(ls, col).1
  }

  lemma BlankNotFolded(all: (seq<string>, seq<string>), done: seq<string>, ls: seq<string>, col: nat)
    requires FoldedFrom(all, done, ls, col) && ls != [] && Blank(ls[0])
    ensures FoldedFrom(all, done, ls[1..], col)
  {
  }

  lemma LineFolded(all: (seq<string>, seq<string>), done: seq<string>, ls: seq<string>, col: nat)
    requires FoldedFrom(all, done, ls, col) && ls != [] && !Blank(ls[0]) && IndentOf(ls[0]) > col
    ensures FoldedFrom(all, done + [Strip(ls[0])], ls[1..], col)
  {
    Regroup(done, Strip(ls[0]), Folded(ls[1..], col).0);
  }

  class Loader {
    const lines: array<string>
    var pos: nat

    constructor (ls: seq<string>)
      ensures fresh(lines) && lines[..] == ls && pos == 0
    {
      lines := new string[|ls|](i requires 0 <= i < |ls| => ls[i]);
      pos := 0;
    }

    ghost predicate Valid()
      reads this
    {
      pos <= lines.Length
    }

    /** The lines still to be read. */
    ghost function Unread(): seq<string>
      requires Valid()
      reads this, lines
    {
      lines[pos..]
    }

    /** The lines as they were, from the cursor on: an overwritten line is always behind the cursor. */
    ghost predicate Intact(was: seq<string>, from: nat)
      reads this, lines
    {
      && Valid()
      && |was| == lines.Length
      && from <= pos
      && (forall i :: pos <= i < lines.Length ==> lines[i] == was[i])
    }

    method ParseBlock(min: nat) returns (r: Value)
      requires Valid()
      modifies this`pos, lines
      ensures Intact(old(lines[..]), old(pos))
      ensures (r, Unread()) == Block(old(Unread()), min)
      decreases lines.Length - pos, 5
    {
      SkipBlanks();
      if pos == lines.Length {
        return VNull;
      }
      var first := lines[pos];
      assert Unread()[0] == first;
      if IndentOf(first) < min {
        return VNull;
      }
      if DashItem(first) {
        var items := ParseItems(IndentOf(first));
        r := VList(items);
      } else {
        var entries := ParseMapping(min);
        r := VMap(entries);
      }
    }

    method SkipBlanks()
      requires Valid()
      modifies this`pos
      ensures Intact(old(lines[..]), old(pos))
      ensures Unread() == SkipBlank(old(Unread()))
    {
      ghost var was := lines[..];
      ghost var start := pos;
      while pos < lines.Length && Blank(lines[pos])
        invariant Intact(was, start)
        invariant SkipBlank(was[start..]) == SkipBlank(Unread())
      {
        assert Unread()[1..] == lines[pos + 1..];
        pos := pos + 1;
      }
    }

    /** The list branch of `parse_block`. */
    method ParseItems(col: nat) returns (result: seq<Value>)
      requires Valid()
      modifies this`pos, lines
      ensures Intact(old(lines[..]), old(pos))
      ensures (result, Unread()) == Items(old(Unread()), col)
      decreases lines.Length - pos, 4
    {
      ghost var was, start := lines[..], pos;
      ghost var all := Items(Unread(), col);
      result := [];
      Regroup([], VNull, all.0);
      while pos < lines.Length
        invariant Intact(was, start)
        invariant ItemsFrom(all, result, Unread(), col)
        decreases lines.Length - pos
      {
        var line := lines[pos];
        ghost var here := Unread();
        assert here[0] == line && here[1..] == lines[pos + 1..];
        if Blank(line) {
          BlankBeforeItem(all, result, here, col);
          pos := pos + 1;
          assert Unread() == here[1..];
          continue;
        }
        if IndentOf(line) != col || !DashItem(line) {
          NoMoreItems(all, result, here, col);
          return;
        }
        result := NextItem(all, result, col);
      }
      NoMoreItems(all, result, Unread(), col);
    }

    /** The body of the list branch, at a line that starts an item. */
    method NextItem(ghost all: (seq<Value>, seq<string>), done: seq<Value>, col: nat) returns (more: seq<Value>)
      requires pos < lines.Length && ItemsFrom(all, done, Unread(), col)
      requires !Blank(lines[pos]) && IndentOf(lines[pos]) == col && DashItem(lines[pos])
      modifies this`pos, lines
      ensures Intact(old(lines[..]), old(pos) + 1)
      ensures ItemsFrom(all, more, Unread(), col)
      decreases lines.Length - pos, 3
    {
      ghost var here := Unread();
      assert here[0] == lines[pos] && here[1..] == lines[pos + 1..];
      ItemTaken(all, done, here, col);
      var value := ParseItem(lines[pos][col + 2..], col + 2);
      more := done + [value];
    }

    /** An item's line is overwritten in place; a mapping that reads nothing is stepped over. */
    method ParseItem(content: string, col: nat) returns (value: Value)
      requires pos < lines.Length
      modifies this`pos, lines
      ensures Intact(old(lines[..]), old(pos) + 1)
      ensures (value, Unread()) == Item(content, old(lines[pos + 1..]), col)
      decreases lines.Length - pos, 2
    {
      if !OpensMapping(content) {
        pos := pos + 1;
        return Scalar(content);
      }
      ghost var tail := lines[pos + 1..];
      lines[pos] := Spaces(col) + content;
      assert lines[pos..] == [Spaces(col) + content] + tail;
      var before := pos;
      var entries := ParseMapping(col);
      value := VMap(entries);
      if pos == before {
        pos := pos + 1;
        assert lines[pos..] == tail;
      }
    }

    method ParseMapping(col: nat) returns (mapping: seq<(string, Value)>)
      requires Valid()
      modifies this`pos, lines
      ensures Intact(old(lines[..]), old(pos))
      ensures Unread() == Entries(old(Unread()), col).1
      ensures mapping == Dict(Entries(old(Unread()), col).0)
      decreases lines.Length - pos, 1
    {
      ghost var was, start := lines[..], pos;
      ghost var all := Entries(Unread(), col);
      mapping := [];
      while pos < lines.Length
        invariant Intact(was, start)
        invariant EntriesFrom(all, mapping, Unread(), col)
        decreases lines.Length - pos
      {
        var line := lines[pos];
        ghost var here := Unread();
        assert here[0] == line && here[1..] == lines[pos + 1..];
        if Blank(line) {
          LinePassed(all, mapping, here, col);
          pos := pos + 1;
          assert Unread() == here[1..];
          continue;
        }
        if EndsMapping(line, col) {
          break;
        }
        var stripped := Strip(line);
        if ':' !in stripped {
          LinePassed(all, mapping, here, col);
          pos := pos + 1;
          assert Unread() == here[1..];
          continue;
        }
        mapping := NextEntry(all, mapping, stripped, col);
      }
    }

    /** The body of the mapping loop, at a line that holds a key. */
    method NextEntry(ghost all: (seq<(string, Value)>, seq<string>), done: seq<(string, Value)>, stripped: string,
                     col: nat)
      returns (more: seq<(string, Value)>)
      requires pos < lines.Length && EntriesFrom(all, done, Unread(), col)
      requires !Blank(lines[pos]) && !EndsMapping(lines[pos], col)
      requires stripped == Strip(lines[pos]) && ':' in stripped
      modifies this`pos, lines
      ensures Intact(old(lines[..]), old(pos) + 1)
      ensures EntriesFrom(all, more, Unread(), col)
      decreases lines.Length - pos, 0
    {
      ghost var here := Unread();
      assert here[0] == lines[pos] && here[1..] == lines[pos + 1..];
      EntryTaken(all, done, here, col);
      var (key, rest) := KeyRest(stripped);
      pos := pos + 1;
      assert Unread() == here[1..];
      var value := ParseValue(rest, col);
      more := Put(done, key, value);
    }

    method ParseValue(rest: string, col: nat) returns (value: Value)
      requires Valid()
      modifies this`pos, lines
      ensures Intact(old(lines[..]), old(pos))
      ensures (value, Unread()) == EntryValue(rest, old(Unread()), col)
      decreases lines.Length - pos, 6
    {
      if rest == ">" || rest == "|" {
        var parts := GatherFolded(col);
        value := VStr(Join(parts, " "));
      } else if rest == "" {
        var nested := ParseBlock(col + 1);
        value := if nested == VNull then VMap([]) else nested;
      } else {
        value := Scalar(rest);
      }
    }

    method GatherFolded(col: nat) returns (parts: seq<string>)
      requires Valid()
      modifies this`pos
      ensures Intact(old(lines[..]), old(pos))
      ensures (parts, Unread()) == Folded(old(Unread()), col)
    {
      ghost var was, start := lines[..], pos;
      ghost var all := Folded(Unread(), col);
      parts := [];
      Regroup([], "", all.0);
      while pos < lines.Length
        invariant Intact(was, start)
        invariant FoldedFrom(all, parts, Unread(), col)
        decreases lines.Length - pos
      {
        var line := lines[pos];
        ghost var here := Unread();
        assert here[0] == line && here[1..] == lines[pos + 1..];
        if Blank(line) {
          BlankNotFolded(all, parts, here, col);
          pos := pos + 1;
          assert Unread() == here[1..];
          continue;
        }
        if IndentOf(line) <= col {
          break;
        }
        LineFolded(all, parts, here, col);
        parts := parts + [Strip(line)];
        pos := pos + 1;
        assert Unread() == here[1..];
      }
      assert parts + [] == parts;
    }
  }

  /** `_minimal_yaml_load`. */
  method MinimalYamlLoad(text: string) returns (root: Value)
    ensures root == Load(text)
  {
    var loader := new Loader(Uncomment(Split(text, '\n')));
    assert loader.lines[0..] == loader.lines[..];
    root := loader.ParseBlock(0);
  }
}
