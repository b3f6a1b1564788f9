/** The edge router, cloudflare/suwappu-router.worker.js: ordered prefix tables against longest-prefix routing. */
module Router {
  import opened Text

  datatype Origin = PYTHON | API_TS | SHOWCASE | TERMINAL | WEBAPP | PYTHON_DEV

  const PYTHON_PREFIXES := ["/auth", "/telegram", "/webhook", "/users", "/tools", "/terminal", "/webapp"]
  const API_TS_WEBAPP_PREFIXES := ["/webapp/data", "/webapp/tokens", "/webapp/p2p", "/webapp/rewards"]

  /** `pathname === p || pathname.startsWith(p + "/")`. */
  predicate Under(path: string, p: string) {
    path == p || StartsWith(path, p + "/")
  }

  predicate Matches(table: seq<string>, path: string) {
    exists k :: 0 <= k < |table| && Under(path, table[k])
  }

  /** The two loops over the tables, for any two tables. */
  function ByOrder(first: seq<string>, second: seq<string>, path: string): Origin {
    if Matches(first, path) then API_TS
    else if Matches(second, path) then PYTHON
    else API_TS
  }

  function PickOrigin(hostname: string, path: string): Origin {
    if hostname == "www.suwappu.bot" || hostname == "suwappu.bot" then SHOWCASE
    else if hostname == "terminal.suwappu.bot" then TERMINAL
    else if hostname == "app.suwappu.bot" then WEBAPP
    else if hostname == "devapi.suwappu.bot" then PYTHON_DEV
    else ByOrder(API_TS_WEBAPP_PREFIXES, PYTHON_PREFIXES, path)
  }

  // ---- Prefixes are prefixes of segments ----

  lemma UnderSplits(path: string, p: string)
    requires StartsWith(path, p + "/")
    ensures Split(p, '/') <= Split(path, '/')
  {
    var rest := path[|p| + 1..];
    assert path == p + "/" + rest;
    SplitAcross(p, rest, '/');
  }

  lemma SegmentsJoin(path: string, p: string)
    requires Split(p, '/') < Split(path, '/')
    ensures StartsWith(path, p + "/")
  {
    var a, b := Split(p, '/'), Split(path, '/');
    var rest := b[|a|..];
    SplitParts(p, '/');
    SplitParts(path, '/');
    assert b == a + rest;
    JoinAppend(a, rest, "/");
    assert path == p + "/" + Join(rest, "/");
    assert path[..|p| + 1] == p + "/";
  }

  /** A path is under a prefix exactly when the prefix's segments begin the path's segments. */
  lemma UnderIffSegments(path: string, p: string)
    ensures Under(path, p) <==> Split(p, '/') <= Split(path, '/')
  {
    if StartsWith(path, p + "/") {
      UnderSplits(path, p);
    } else if Split(p, '/') < Split(path, '/') {
      SegmentsJoin(path, p);
    } else if Split(p, '/') == Split(path, '/') {
      SplitParts(p, '/');
      SplitParts(path, '/');
    }
  }

  /** Two prefixes of one path are ordered. */
  lemma UnderChain(path: string, p: string, q: string)
    requires Under(path, p) && Under(path, q) && |p| <= |q|
    ensures Under(q, p)
  {
    assert path[..|p|] == p && path[..|q|] == q;
    if |p| < |q| {
      assert path[..|p| + 1] == p + "/";
      assert q[..|p| + 1] == path[..|p| + 1];
    }
  }

  // ---- Longest prefix ----

  /** An entry that matches the path and is at least as long as every entry, of both tables, that does. */
  ghost predicate Longest(first: seq<string>, second: seq<string>, path: string, p: string) {
    && (p in first || p in second) && Under(path, p)
    && (forall q :: (q in first || q in second) && Under(path, q) ==> |q| <= |p|)
  }

  /** Longest-prefix routing over the combined tables; a prefix in both belongs to the first. */
  ghost predicate ByLongest(first: seq<string>, second: seq<string>, path: string, origin: Origin) {
    if !Matches(first, path) && !Matches(second, path) then origin == API_TS
    else exists p :: Longest(first, second, path, p) && origin == if p in first then API_TS else PYTHON
  }

  /** The guard on the tables: an exception listed second would be shadowed by the first table. */
  ghost predicate NothingShadowed(first: seq<string>, second: seq<string>) {
    forall p, q :: p in first && q in second && q != p && Under(q, p) ==> q in first
  }

  lemma {:induction false} LongestOf(table: seq<string>, path: string) returns (p: string)
    requires Matches(table, path)
    ensures p in table && Under(path, p) && forall q :: q in table && Under(path, q) ==> |q| <= |p|
  {
    var n := |table| - 1;
    var front := table[..n];
    assert table == front + [table[n]];
    if Matches(front, path) {
      p := LongestOf(front, path);
      if Under(path, table[n]) && |table[n]| > |p| {
        p := table[n];
      }
    } else {
      p := table[n];
      forall q | q in front
        ensures !Under(path, q)
      {
        var k :| 0 <= k < |front| && front[k] == q;
      }
    }
  }

  lemma MatchesIff(table: seq<string>, path: string)
    ensures Matches(table, path) <==> exists p :: p in table && Under(path, p)
  {
  }

  lemma LongestExists(first: seq<string>, second: seq<string>, path: string) returns (p: string)
    requires Matches(first, path) || Matches(second, path)
    ensures Longest(first, second, path, p)
  {
    var table := first + second;
    if Matches(first, path) {
      var k :| 0 <= k < |first| && Under(path, first[k]);
      assert Under(path, table[k]);
    } else {
      var k :| 0 <= k < |second| && Under(path, second[k]);
      assert Under(path, table[|first| + k]);
    }
    p := LongestOf(table, path);
  }

  lemma LongestUnique(first: seq<string>, second: seq<string>, path: string, p: string, q: string)
    requires Longest(first, second, path, p) && Longest(first, second, path, q)
    ensures p == q
  {
    UnderChain(path, p, q);
  }

  /** Longest-prefix routing always picks one origin. */
  lemma ByLongestUnique(first: seq<string>, second: seq<string>, path: string, a: Origin, b: Origin)
    requires ByLongest(first, second, path, a) && ByLongest(first, second, path, b)
    ensures a == b
  {
    if Matches(first, path) || Matches(second, path) {
      var p :| Longest(first, second, path, p) && a == if p in first then API_TS else PYTHON;
      var q :| Longest(first, second, path, q) && b == if q in first then API_TS else PYTHON;
      LongestUnique(first, second, path, p, q);
    }
  }

  lemma OrderedIsLongest(first: seq<string>, second: seq<string>, path: string)
    requires NothingShadowed(first, second)
    ensures ByLongest(first, second, path, ByOrder(first, second, path))
  {
    if Matches(first, path) || Matches(second, path) {
      var p := LongestExists(first, second, path);
      if Matches(first, path) {
        var k :| 0 <= k < |first| && Under(path, first[k]);
        UnderChain(path, first[k], p);
      } else {
        MatchesIff(first, path);
      }
    }
  }

  lemma ShadowedIsNotLongest(first: seq<string>, second: seq<string>, p: string, q: string)
    requires p in first && q in second && q !in first && Under(q, p)
    ensures !ByLongest(first, second, q, ByOrder(first, second, q))
  {
    MatchesIff(first, q);
    forall r | Longest(first, second, q, r)
      ensures r == q
    {
      assert |q| <= |r|;
    }
  }

  /** For every path at once: ordered matching is longest-prefix matching exactly when nothing is shadowed. */
  lemma OrderIsLongestIff(first: seq<string>, second: seq<string>)
    ensures (forall path :: ByLongest(first, second, path, ByOrder(first, second, path)))
      <==> NothingShadowed(first, second)
  {
    if NothingShadowed(first, second) {
      forall path
        ensures ByLongest(first, second, path, ByOrder(first, second, path))
      {
        OrderedIsLongest(first, second, path);
      }
    } else {
      var p, q :| p in first && q in second && q != p && Under(q, p) && q !in first;
      ShadowedIsNotLongest(first, second, p, q);
    }
  }

  // ---- The worker's own tables ----

  lemma PythonPrefixesAreShort(q: string)
    requires q in PYTHON_PREFIXES
    ensures |q| <= 9
  {
  }

  lemma WebappPrefixesAreLong(p: string)
    requires p in API_TS_WEBAPP_PREFIXES
    ensures |p| >= 11
  {
  }

  /** On every host without an origin of its own, every path is routed by its longest listed prefix. */
  lemma RoutesByLongestPrefix(hostname: string, path: string)
    requires hostname !in {"www.suwappu.bot", "suwappu.bot", "terminal.suwappu.bot", "app.suwappu.bot",
                           "devapi.suwappu.bot"}
    ensures ByLongest(API_TS_WEBAPP_PREFIXES, PYTHON_PREFIXES, path, PickOrigin(hostname, path))
  {
    forall p, q | p in API_TS_WEBAPP_PREFIXES && q in PYTHON_PREFIXES
      ensures !Under(q, p)
    {
      WebappPrefixesAreLong(p);
      PythonPrefixesAreShort(q);
    }
    OrderedIsLongest(API_TS_WEBAPP_PREFIXES, PYTHON_PREFIXES, path);
  }
}
