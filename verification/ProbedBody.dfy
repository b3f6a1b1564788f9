/** What a probed body says, as it was sent and as far as `_probe_once` of scripts/status.py reads it. */
module ProbedBody {
  import opened Text
  import opened Options
  import opened HealthPayload
  import opened Probing

  /** `json.loads`, on bytes: the payload that a text stands for, if it is JSON. */
  type Parser = string -> Option<Payload>

  predicate JsonSpace(c: char) {
    c == ' ' || c == '\t' || c == '\n' || c == '\r'
  }

  /** The length of a text without the white space at its end. */
  function TextEnd(s: string): (n: nat)
    ensures n <= |s|
  {
    if s != "" && JsonSpace(s[|s| - 1]) then TextEnd(s[..|s| - 1]) else |s|
  }

  predicate IsObject(p: Option<Payload>) {
    p.Some? && p.value.Obj?
  }

  /** A JSON text may lose white space at its end; cut any shorter it is no object any more. */
  ghost predicate Json(parse: Parser) {
    forall s, k: nat | k <= |s| && parse(s).Some? ::
      if k >= TextEnd(s) then parse(s[..k]) == parse(s) else !IsObject(parse(s[..k]))
  }

  /** The body says that something is wrong: `ready` is false, or a judged leaf is not healthy. */
  ghost predicate Complains(body: Option<Payload>) {
    body.Some? && body.value.Obj? && (SaysNotReady(body.value) || Ails(body.value))
  }

  lemma ComplainsIff(body: Option<Payload>)
    ensures Breakdown(body) != [] <==> Complains(body)
  {
    if body.Some? && body.value.Obj? {
      BreakdownEmptyIff(body.value);
    }
  }

  /**
   * A complaint that was sent reaches the reader: the text ends within the first 4000 bytes. If the whole
   * text is no JSON, what counts is what its first 4000 bytes say.
   */
  ghost predicate Reaches(parse: Parser, r: Reply) {
    if parse(r.sent).Some? then Complains(parse(r.sent)) && TextEnd(r.sent) <= 4000
    else Complains(parse(Body(r)))
  }

  /** What the reader makes of the part that it reads, in terms of what was sent. */
  lemma ReadIffReaches(parse: Parser, r: Reply)
    requires Json(parse)
    ensures Complains(parse(Body(r))) <==> Reaches(parse, r)
  {
    if parse(r.sent).Some? && |r.sent| > READ_LIMIT {
      assert IsObject(parse(r.sent[..READ_LIMIT])) ==> TextEnd(r.sent) <= READ_LIMIT;
    }
  }

  // ---- A body that is too long ----

  const NOT_READY := Obj([Entry("ready", Bool(false))])

  /** An object that says so, with 4000 blanks before its closing brace. */
  function LongBody(): string {
    "{\"ready\":false" + (Spaces(READ_LIMIT) + "}")
  }

  lemma LongBodyIsLong()
    ensures TextEnd(LongBody()) == |LongBody()| > READ_LIMIT
  {
    var n := |LongBody()| - 1;
    assert LongBody()[n] == '}';
  }

  /** The parser that knows one text only, with any white space behind it. */
  function OneText(text: string, payload: Payload): Parser {
    (s: string) => if TextEnd(s) == |text| && s[..|text|] == text then Some(payload) else None
  }

  lemma {:induction false} TextEndOfCut(s: string, k: nat)
    requires k <= |s|
    ensures TextEnd(s[..k]) == if k >= TextEnd(s) then TextEnd(s) else TextEnd(s[..k])
    ensures TextEnd(s[..k]) <= k
  {
    if k < |s| && k >= TextEnd(s) {
      TextEndOfCut(s[..|s| - 1], k);
      assert s[..|s| - 1][..k] == s[..k];
    } else if k == |s| {
      assert s[..k] == s;
    }
  }

  /** What is asked of a parser can be met, by one that reads this very body. */
  lemma SomeParserReads()
    ensures Json(OneText(LongBody(), NOT_READY))
    ensures OneText(LongBody(), NOT_READY)(LongBody()) == Some(NOT_READY)
  {
    var text := LongBody();
    var parse := OneText(text, NOT_READY);
    LongBodyIsLong();
    assert text[..|text|] == text;
    forall s, k: nat | k <= |s| && parse(s).Some?
      ensures if k >= TextEnd(s) then parse(s[..k]) == parse(s) else !IsObject(parse(s[..k]))
    {
      TextEndOfCut(s, k);
      if k >= TextEnd(s) {
        assert s[..k][..|text|] == s[..|text|];
      }
    }
  }
}
