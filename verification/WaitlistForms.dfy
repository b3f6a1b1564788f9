/** Which handles, addresses and contacts the waitlist takes, in terms of their text. */
module WaitlistForms {
  import opened Text
  import opened Options
  import opened Queries
  import opened Waitlist

  // ---- Handles ----

  /** A small letter or a digit. */
  predicate HandleLetter(c: char) {
    97 <= c as int <= 122 || 48 <= c as int <= 57
  }

  predicate Word(w: string) {
    w != "" && forall j :: 0 <= j < |w| ==> HandleLetter(w[j])
  }

  ghost predicate Words(words: seq<string>) {
    words != [] && forall w :: w in words ==> Word(w)
  }

  /** One or more words with single hyphens between them. */
  ghost predicate Hyphenated(h: string) {
    exists words :: Words(words) && Join(words, "-") == h
  }

  /** The same, place by place. */
  predicate Spaced(h: string) {
    && h != "" && HandleLetter(h[0]) && HandleLetter(h[|h| - 1])
    && (forall j :: 0 <= j < |h| ==> HandleLetter(h[j]) || h[j] == '-')
    && (forall j :: 0 <= j < |h| - 1 && h[j] == '-' ==> h[j + 1] != '-')
  }

  lemma WordThenSpaced(w: string, rest: string)
    requires Word(w) && Spaced(rest)
    ensures Spaced(w + "-" + rest)
  {
    var h := w + "-" + rest;
    assert h[|h| - 1] == rest[|rest| - 1] && h[|w|] == '-' && h[|w| + 1] == rest[0];
    forall j | 0 <= j < |h| - 1 && h[j] == '-'
      ensures h[j + 1] != '-'
    {
      if j > |w| {
        assert h[j] == rest[j - |w| - 1] && h[j + 1] == rest[j - |w|];
      }
    }
  }

  lemma {:induction false} JoinedIsSpaced(words: seq<string>)
    requires Words(words)
    ensures Spaced(Join(words, "-"))
  {
    assert words[0] in words;
    if |words| > 1 {
      assert forall w :: w in words[1..] ==> w in words;
      JoinedIsSpaced(words[1..]);
      WordThenSpaced(words[0], Join(words[1..], "-"));
    }
  }

  lemma {:induction false} SpacedIsJoined(h: string)
    requires Spaced(h)
    ensures Hyphenated(h)
    decreases |h|
  {
    var n := IndexOf(h, '-');
    var w := h[..n];
    assert Word(w);
    if n == |h| {
      assert Join([h], "-") == h && h == w;
      assert Words([h]);
    } else {
      var rest := h[n + 1..];
      SpacedIsJoined(rest);
      var words :| Words(words) && Join(words, "-") == rest;
      assert ([w] + words)[1..] == words;
      assert h == w + "-" + rest;
      assert Words([w] + words) && Join([w] + words, "-") == h;
    }
  }

  predicate HyphensAt(h: string, i: nat) {
    i + 1 < |h| && h[i] == '-' && h[i + 1] == '-'
  }

  lemma NoDoubleHyphen(h: string)
    ensures Contains(h, "--") <==> exists i: nat :: HyphensAt(h, i)
  {
    ContainsIff(h, "--");
    forall i: nat
      ensures StandsAt(h, "--", i) <==> HyphensAt(h, i)
    {
      if i + 2 <= |h| {
        assert h[i..i + 2] == [h[i], h[i + 1]];
      }
    }
  }

  lemma FormIsSpaced(h: string)
    ensures h != "" && !Contains(h, "--") && MatchesHandleRe(h) <==> 3 <= |h| <= 32 && Spaced(h)
  {
    NoDoubleHyphen(h);
    assert (exists i: nat :: HyphensAt(h, i)) <==> exists j :: 0 <= j < |h| - 1 && h[j] == '-' && h[j + 1] == '-' by {
      if j :| 0 <= j < |h| - 1 && h[j] == '-' && h[j + 1] == '-' {
        assert HyphensAt(h, j);
      }
    }
    assert forall j :: 0 <= j < |h| ==> (Alnum(h[j]) <==> HandleLetter(h[j]));
  }

  /** A handle has 3 to 32 characters, words of small letters and digits with single hyphens between them. */
  lemma HandleRefusedIff(h: string)
    ensures Refusal(h) == None <==> 3 <= |h| <= 32 && Hyphenated(h) && h !in RESERVED_HANDLES
    ensures Refusal(h) == Some(ReservedName) <==> 3 <= |h| <= 32 && Hyphenated(h) && h in RESERVED_HANDLES
  {
    FormIsSpaced(h);
    if Spaced(h) {
      SpacedIsJoined(h);
    }
    if words :| Words(words) && Join(words, "-") == h {
      JoinedIsSpaced(words);
    }
  }

  // ---- Addresses ----

  /** What is behind the last at sign has a dot in it, and the whole is not longer than 254 characters. */
  ghost predicate EmailShape(email: string) {
    |email| <= 254
    && exists local, domain :: email == local + "@" + domain && '@' !in domain && '.' in domain
  }

  lemma LastPart(local: string, domain: string)
    requires '@' !in domain
    ensures Last(Split(local + "@" + domain, '@')) == domain
  {
    SplitAcross(local, domain, '@');
    IndexOfAbsent(domain, '@');
  }

  lemma {:induction false} LastAt(email: string) returns (local: string, domain: string)
    requires '@' in email
    ensures email == local + "@" + domain && '@' !in domain
  {
    var n := |email| - 1;
    if email[n] == '@' {
      local, domain := email[..n], "";
    } else {
      assert email == email[..n] + [email[n]];
      var rest;
      local, rest := LastAt(email[..n]);
      domain := rest + [email[n]];
    }
  }

  lemma ValidEmailIff(email: string)
    ensures ValidEmail(email) <==> EmailShape(email)
  {
    if ValidEmail(email) {
      var local, domain := LastAt(email);
      LastPart(local, domain);
    }
    if local, domain :| email == local + "@" + domain && '@' !in domain && '.' in domain {
      LastPart(local, domain);
      assert email[|local|] == '@';
    }
  }

  // ---- New rows ----

  /** The contact kept: what was sent, stripped, up to 64 characters, and nothing for blanks. */
  predicate KeptOf(sent: string, kept: Option<string>) {
    match kept
    case None => sent == ""
    case Some(k) => k != "" && k <= sent && |k| <= 64 && (k == sent || |k| == 64)
  }

  lemma TelegramIff(sent: Option<string>, kept: Option<string>)
    ensures Telegram(sent) == kept <==> KeptOf(Strip(sent.GetOr("")), kept)
  {
    var s := Strip(sent.GetOr(""));
    if kept.Some? && kept.value <= s && |kept.value| == 64 {
      assert kept.value == s[..64] && (|s| == 64 ==> s[..64] == s);
    }
    if |s| > 64 {
      assert s[..64] <= s;
    }
  }

  predicate InCapitals(s: string) {
    forall j :: 0 <= j < |s| ==> !('a' <= s[j] <= 'z')
  }

  lemma UpperIs(s: string)
    ensures SameUpToCase(Upper(s), s) && InCapitals(Upper(s))
  {
    forall j | 0 <= j < |s|
      ensures SameLetter(Upper(s)[j], s[j]) && !('a' <= Upper(s)[j] <= 'z')
    {
      CapitalOf(s[j]);
    }
  }

  lemma CapitalOf(c: char)
    ensures SameLetter(UpperChar(c), c) && !('a' <= UpperChar(c) <= 'z')
  {
  }

  /** A new code is the handle in capitals, a hyphen, and one of the suffixes drawn. */
  lemma {:induction false} CodeIsHandleAndDraw(rows: seq<Signup>, handle: string, short: seq<string>, long: string)
    returns (name: string, suffix: string)
    requires |handle| <= 32
    ensures GenerateCode(rows, handle, short, long) == name + "-" + suffix
    ensures suffix in short + [long] && SameUpToCase(name, handle) && InCapitals(name)
  {
    UpperIs(handle);
    name := Upper(handle);
    assert name[..|name|] == name;
    if short == [] {
      suffix := long;
    } else if First(rows, CodeIs(CodeWith(handle, short[0]))).None? {
      suffix := short[0];
    } else {
      name, suffix := CodeIsHandleAndDraw(rows, handle, short[1..], long);
      assert short == [short[0]] + short[1..];
    }
  }

  /** What a new row holds. */
  ghost predicate RowIs(row: Signup, req: Request, draws: Draws) {
    && SameUpToCase(row.email, Strip(req.email)) && EmailShape(row.email)
    && SameUpToCase(row.handle, Strip(req.handle)) && 3 <= |row.handle| <= 32 && Hyphenated(row.handle)
    && row.handle !in RESERVED_HANDLES && KeptOf(Strip(req.telegram.GetOr("")), row.telegram)
    && exists name, suffix ::
      && row.code == name + "-" + suffix && suffix in draws.short + [draws.long]
      && SameUpToCase(name, row.handle) && InCapitals(name)
  }

  lemma NormalIs(s: string)
    ensures SameUpToCase(Normal(s), Strip(s))
  {
  }

  /** A request that adds a row adds it with the request's own address and handle, in small letters. */
  lemma NewRowIs(rows: seq<Signup>, req: Request, draws: Draws)
    requires var r := Reserve(rows, req, draws).0; r.Reserved? && !r.already
    ensures RowIs(Reserve(rows, req, draws).0.row, req, draws)
  {
    var row := Reserve(rows, req, draws).0.row;
    ValidEmailIff(row.email);
    HandleRefusedIff(row.handle);
    TelegramIff(req.telegram, row.telegram);
    NormalIs(req.email);
    NormalIs(req.handle);
    var name, suffix := CodeIsHandleAndDraw(rows, row.handle, draws.short, draws.long);
  }
}
