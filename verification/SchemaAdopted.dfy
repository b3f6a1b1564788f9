/** What lines make the reader of scripts/env_parity.py believe, in terms of the lines alone. */
module SchemaAdopted {
  import opened Options
  import opened SchemaReader

  lemma {:induction false} ReadAppend(r: Reader, a: seq<string>, b: seq<string>, service: string)
    ensures ReadLines(r, a + b, service) == ReadLines(ReadLines(r, a, service), b, service)
    decreases a
  {
    if a == [] {
      assert a + b == b;
    } else {
      assert (a + b)[1..] == a[1..] + b;
      ReadAppend(ReadLine(r, a[0], service), a[1..], b, service);
    }
  }

  lemma ReadOne(r: Reader, line: string, service: string)
    ensures ReadLines(r, [line], service) == ReadLine(r, line, service)
  {
    assert [line][1..] == [];
    assert ReadLines(ReadLine(r, line, service), [], service) == ReadLine(r, line, service);
  }

  /** A line that means something to the reader. */
  predicate Tells(line: string) {
    TagMatch(line).Some? || NameMatch(line).Some?
  }

  /** Line `i` is a tag line and no line behind it tells anything. */
  ghost predicate OpenTag(lines: seq<string>, i: nat) {
    i < |lines| && TagMatch(lines[i]).Some? && forall k :: i < k < |lines| ==> !Tells(lines[k])
  }

  /** Line `i` tags the service, line `j` is a name line, and no line between them tells anything. */
  ghost predicate Adopted(lines: seq<string>, service: string, i: nat, j: nat) {
    && i < j < |lines| && NameMatch(lines[j]).Some?
    && OpenTag(lines[..j], i) && TagMatch(lines[i]).value.1 == service
  }

  ghost predicate Names(lines: seq<string>, service: string, name: string) {
    exists i: nat, j: nat :: Adopted(lines, service, i, j) && NameMatch(lines[j]) == Some(name)
  }

  ghost predicate Requires(lines: seq<string>, service: string, name: string) {
    exists i: nat, j: nat :: Adopted(lines, service, i, j) && NameMatch(lines[j]) == Some(name)
      && TagMatch(lines[i]).value.0
  }

  /** The open tag, if there is one; there is never more than one. */
  ghost function Opened(lines: seq<string>): (k: Option<nat>)
    ensures k.Some? ==> OpenTag(lines, k.value)
    ensures forall i: nat :: OpenTag(lines, i) ==> k == Some(i)
  {
    if lines == [] then None
    else
      var n := |lines| - 1;
      if TagMatch(lines[n]).Some? then Some(n)
      else if NameMatch(lines[n]).Some? then None
      else
        assert forall i: nat :: OpenTag(lines, i) ==> OpenTag(lines[..n], i);
        Opened(lines[..n])
  }

  lemma ReadSnoc(front: seq<string>, line: string, service: string)
    ensures ReadLines(START, front + [line], service) == ReadLine(ReadLines(START, front, service), line, service)
  {
    ReadAppend(START, front, [line], service);
    ReadOne(ReadLines(START, front, service), line, service);
  }

  lemma TagNeverNames(line: string)
    ensures TagMatch(line).Some? ==> NameMatch(line).None?
  {
  }

  lemma OpenedNext(front: seq<string>, line: string)
    ensures Opened(front + [line]) == if TagMatch(line).Some? then Some(|front|)
                                      else if NameMatch(line).Some? then None else Opened(front)
  {
    assert (front + [line])[..|front|] == front;
  }

  /** What the reader waits for is the open tag. */
  ghost predicate Waits(r: Reader, lines: seq<string>) {
    match Opened(lines)
    case None => r.pending.None?
    case Some(k) => r.pending.Some? && TagMatch(lines[k]) == Some((r.pendingRequired, r.pending.value))
  }

  lemma {:induction false} ReaderWaits(lines: seq<string>, service: string)
    ensures Waits(ReadLines(START, lines, service), lines)
  {
    if lines != [] {
      var n := |lines| - 1;
      assert lines == lines[..n] + [lines[n]];
      ReadSnoc(lines[..n], lines[n], service);
      OpenedNext(lines[..n], lines[n]);
      ReaderWaits(lines[..n], service);
    }
  }

  lemma AdoptedNext(front: seq<string>, line: string, service: string, i: nat, j: nat)
    ensures var lines := front + [line];
      Adopted(lines, service, i, j) <==>
        (Adopted(front, service, i, j)
         || (j == |front| && NameMatch(line).Some? && Opened(front) == Some(i)
             && TagMatch(front[i]).value.1 == service))
  {
    var lines := front + [line];
    if j < |front| {
      assert lines[..j] == front[..j];
    } else if j == |front| {
      assert lines[..j] == front;
    }
  }

  /** The newest line adds a name exactly when it is a name line behind an open tag of the service. */
  ghost predicate Newly(front: seq<string>, line: string, service: string, name: string) {
    NameMatch(line) == Some(name) && Opened(front).Some? && TagMatch(front[Opened(front).value]).value.1 == service
  }

  lemma NamesNext(front: seq<string>, line: string, service: string, name: string)
    ensures Names(front + [line], service, name)
      <==> Names(front, service, name) || Newly(front, line, service, name)
  {
    var lines := front + [line];
    if i: nat, j: nat :| Adopted(front, service, i, j) && NameMatch(front[j]) == Some(name) {
      AdoptedNext(front, line, service, i, j);
    }
    if Newly(front, line, service, name) {
      AdoptedNext(front, line, service, Opened(front).value, |front|);
    }
    if i: nat, j: nat :| Adopted(lines, service, i, j) && NameMatch(lines[j]) == Some(name) {
      AdoptedNext(front, line, service, i, j);
    }
  }

  lemma RequiresNext(front: seq<string>, line: string, service: string, name: string)
    ensures Requires(front + [line], service, name)
      <==> Requires(front, service, name)
           || (Newly(front, line, service, name) && TagMatch(front[Opened(front).value]).value.0)
  {
    var lines := front + [line];
    if i: nat, j: nat :|
      Adopted(front, service, i, j) && NameMatch(front[j]) == Some(name) && TagMatch(front[i]).value.0 {
      AdoptedNext(front, line, service, i, j);
    }
    if Newly(front, line, service, name) && TagMatch(front[Opened(front).value]).value.0 {
      AdoptedNext(front, line, service, Opened(front).value, |front|);
    }
    if i: nat, j: nat :|
      Adopted(lines, service, i, j) && NameMatch(lines[j]) == Some(name) && TagMatch(lines[i]).value.0 {
      AdoptedNext(front, line, service, i, j);
    }
  }

  /** The names the reader finds, and those it takes for required, are those of the adopted name lines. */
  lemma {:induction false} ReadIsAdopted(lines: seq<string>, service: string, name: string)
    ensures var r := ReadLines(START, lines, service);
      && (name in r.all <==> Names(lines, service, name))
      && (name in r.required <==> Requires(lines, service, name))
  {
    if lines != [] {
      var n := |lines| - 1;
      var front, line := lines[..n], lines[n];
      assert lines == front + [line];
      ReadIsAdopted(front, service, name);
      ReaderWaits(front, service);
      ReadSnoc(front, line, service);
      TagNeverNames(line);
      NamesNext(front, line, service, name);
      RequiresNext(front, line, service, name);
    }
  }
}
