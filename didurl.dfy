/** `DIDUrl`: a DID URL `did:<method>:<method-id>[/<path>][?<query>][#<fragment>]`, parsed
    with the pattern `^did:([^:/?#]+):([^?#]*)(?:\?([^#]*))?(?:#(.*))?$` and then taken
    apart with Swift's `split`.  A loose reading of section 3.2 of W3C DID Core 1.0. */
module DIDUrls {
  import opened Wrappers
  import opened Text
  import opened DIDs

  datatype DIDUrl = DIDUrl(did: DID, queries: map<string, string>, path: Option<string>, fragment: Option<string>)

  /** The four capture groups of the pattern; the optional ones are `None` when they do not
      take part in the match. */
  datatype Groups = Groups(methodName: string, methodIdAndPath: string, query: Option<string>, fragment: Option<string>)

  /** `DIDUrl(from:)`: no match is `nil`; a method-id segment that leaves nothing to split
      makes the subscript `[0]` trap. */
  datatype Outcome = NoMatch | IndexTrap | Parsed(url: DIDUrl)

  const MethodStops: set<char> := {':', '/', '?', '#'}

  /** What each group's class admits; `.` in the fragment group stops at line terminators. */
  predicate WellFormedGroups(g: Groups) {
    && g.methodName != [] && Avoids(g.methodName, MethodStops)
    && Avoids(g.methodIdAndPath, {'?', '#'})
    && (g.query.Some? ==> Avoids(g.query.value, {'#'}))
    && (g.fragment.Some? ==> Avoids(g.fragment.value, LineTerminators))
  }

  function QueryText(q: Option<string>): string {
    if q.Some? then "?" + q.value else []
  }

  function FragmentText(f: Option<string>): string {
    if f.Some? then "#" + f.value else []
  }

  /** The text the pattern spans when its groups are `g`. */
  function Assemble(g: Groups): string {
    "did:" + g.methodName + ":" + g.methodIdAndPath + QueryText(g.query) + FragmentText(g.fragment)
  }

  /** `(.*)$` on the text after `#`: the fragment runs to the first line terminator, and
      what is left must be what `$` may leave unmatched. */
  function MatchFragment(u: string): (r: Option<(string, string)>)
    ensures r.Some? ==> u == r.value.0 + r.value.1
    ensures r.Some? ==> Avoids(r.value.0, LineTerminators) && IsTrailingTerminator(r.value.1)
  {
    var l := IndexOfAny(u, LineTerminators);
    if IsTrailingTerminator(u[l..]) then
      assert u == u[..l] + u[l..];
      Some((u[..l], u[l..]))
    else
      None
  }

  /** `(?:\?([^#]*))?(?:#(.*))?$` on the text after the method-id group, which is empty or
      starts with `?` or `#`: the query group runs to the next `#`, the fragment group as
      above.  Backtracking cannot rescue a failed fragment: every shorter choice leaves a
      `?` or `#` before the end. */
  function MatchSuffix(u: string): Option<(Option<string>, Option<string>, string)>
    requires u == [] || u[0] == '?' || u[0] == '#'
  {
    if u == [] then
      Some((None, None, []))
    else if u[0] == '?' then
      var h := IndexOfAny(u[1..], {'#'});
      if h == |u| - 1 then
        Some((Some(u[1..]), None, []))
      else
        match MatchFragment(u[h + 2..])
        case None => None
        case Some((f, rest)) => Some((Some(u[1..h + 1]), Some(f), rest))
    else
      match MatchFragment(u[1..])
      case None => None
      case Some((f, rest)) => Some((None, Some(f), rest))
  }

  /** The suffix match spans the text, and each group stays inside its class. */
  lemma MatchSuffixSound(u: string)
    requires u == [] || u[0] == '?' || u[0] == '#'
    requires MatchSuffix(u).Some?
    ensures var (q, f, rest) := MatchSuffix(u).value;
      && u == QueryText(q) + FragmentText(f) + rest
      && (q.Some? ==> Avoids(q.value, {'#'}))
      && (f.Some? ==> Avoids(f.value, LineTerminators))
      && IsTrailingTerminator(rest) && (rest != [] ==> f.Some?)
  {
    if u != [] && u[0] == '?' {
      MatchQuerySound(u);
    } else if u != [] {
      var (f, rest) := MatchFragment(u[1..]).value;
      assert u == [] + ("#" + f) + rest;
    }
  }

  lemma MatchQuerySound(u: string)
    requires u != [] && u[0] == '?' && MatchSuffix(u).Some?
    ensures var (q, f, rest) := MatchSuffix(u).value;
      && q.Some? && u == "?" + q.value + FragmentText(f) + rest
      && Avoids(q.value, {'#'})
      && (f.Some? ==> Avoids(f.value, LineTerminators))
      && IsTrailingTerminator(rest) && (rest != [] ==> f.Some?)
  {
    var tail := u[1..];
    var h := IndexOfAny(tail, {'#'});
    AvoidsBeforeStop(tail, {'#'});
    TailSlices(u, h);
    if h == |tail| {
      QueryOnly(u);
    } else {
      var (f, rest) := MatchFragment(u[h + 2..]).value;
      QueryAndFragment(u, h, f, rest);
    }
  }

  /** `?` and the query, with nothing after it. */
  lemma QueryOnly(u: string)
    requires u != [] && u[0] == '?'
    ensures u == "?" + u[1..] + FragmentText(None) + []
  {
    assert u == [u[0]] + u[1..];
  }

  /** Slices of `u[1..]` as slices of `u`. */
  lemma TailSlices(u: string, h: nat)
    requires 1 <= |u| && h < |u|
    ensures u[1..][..h] == u[1..h + 1]
    ensures h < |u| - 1 ==> u[1..][h] == u[h + 1] && u[1..][h + 1..] == u[h + 2..]
  {
  }

  /** `?`, the query, `#`, and the fragment with what follows it. */
  lemma QueryAndFragment(u: string, h: nat, f: string, rest: string)
    requires h + 2 <= |u| && u[0] == '?' && u[h + 1] == '#' && u[h + 2..] == f + rest
    ensures u == "?" + u[1..h + 1] + ("#" + f) + rest
  {
    var q := u[1..h + 1];
    assert u[..h + 1] == "?" + q;
    assert u[h + 1..] == "#" + (f + rest);
    assert u == u[..h + 1] + u[h + 1..];
  }

  /** A fragment inside its class, followed by what `$` may skip, is matched back. */
  lemma MatchFragmentComplete(f: string, rest: string)
    requires Avoids(f, LineTerminators) && IsTrailingTerminator(rest)
    ensures MatchFragment(f + rest) == Some((f, rest))
  {
    IndexOfAnyAppend(f, rest, LineTerminators);
    assert (f + rest)[..|f|] == f;
    assert (f + rest)[|f|..] == rest;
  }

  /** Groups inside their classes are matched back exactly. */
  lemma MatchSuffixComplete(q: Option<string>, f: Option<string>, rest: string)
    requires q.Some? ==> Avoids(q.value, {'#'})
    requires f.Some? ==> Avoids(f.value, LineTerminators)
    requires IsTrailingTerminator(rest) && (rest != [] ==> f.Some?)
    ensures var u := QueryText(q) + FragmentText(f) + rest;
      (u == [] || u[0] == '?' || u[0] == '#') && MatchSuffix(u) == Some((q, f, rest))
  {
    var u := QueryText(q) + FragmentText(f) + rest;
    if q.None? && f.Some? {
      assert u == "#" + (f.value + rest);
      assert u[1..] == f.value + rest;
      MatchFragmentComplete(f.value, rest);
    } else if q.Some? && f.None? {
      assert u == "?" + q.value;
      assert u[1..] == q.value;
      IndexOfAnyIs(q.value, {'#'}, |q.value|);
    } else if q.Some? && f.Some? {
      MatchSuffixBoth(q.value, f.value, rest);
    }
  }

  lemma MatchSuffixBoth(q: string, f: string, rest: string)
    requires Avoids(q, {'#'}) && Avoids(f, LineTerminators) && IsTrailingTerminator(rest)
    ensures MatchSuffix("?" + q + ("#" + f) + rest) == Some((Some(q), Some(f), rest))
  {
    var u := "?" + q + ("#" + f) + rest;
    QueryFragmentSlices(q, f, rest, u);
    IndexOfAnyAppend(q, "#" + f + rest, {'#'});
    MatchFragmentComplete(f, rest);
  }

  /** `?`, a query, `#`, a fragment and the rest, taken apart again. */
  lemma QueryFragmentSlices(q: string, f: string, rest: string, u: string)
    requires u == "?" + q + ("#" + f) + rest
    ensures |u| == |q| + 2 + |f| + |rest|
    ensures u[1..] == q + ("#" + f + rest)
    ensures u[1..|q| + 1] == q && u[|q| + 2..] == f + rest
  {
    assert u[1..] == q + ("#" + f + rest);
    assert u[1..|q| + 1] == q;
    assert u[|q| + 2..] == f + rest;
  }

  /** A successful match: the groups, and what `$` leaves unmatched at the end. */
  datatype Match = Match(groups: Groups, rest: string)

  /** The pattern after `did:<method>:`: the method-id group runs to the first `?` or
      `#`, and the suffix follows. */
  function MatchAfter(name: string, after: string): Option<Match> {
    var k := IndexOfAny(after, {'?', '#'});
    match MatchSuffix(after[k..])
    case None => None
    case Some((q, f, t)) => Some(Match(Groups(name, after[..k], q, f), t))
  }

  /** The match of the whole pattern, as ICU computes it: the method runs to the first of
      `: / ? #` and must end at a colon; the method-id group runs to the first `?` or `#`;
      the query group to the next `#`; the fragment to the first line terminator. */
  function MatchGroups(s: string): Option<Match> {
    if |s| < 4 || s[..4] != "did:" then None
    else
      var rest := s[4..];
      var j := IndexOfAny(rest, MethodStops);
      if j == 0 || j == |rest| || rest[j] != ':' then None
      else MatchAfter(rest[..j], rest[j + 1..])
  }

  /** Assembled groups, regrouped around the method. */
  lemma AssembleAround(g: Groups, t: string)
    ensures Assemble(g) + t == "did:" + (g.methodName + ":" + (g.methodIdAndPath + (QueryText(g.query) + FragmentText(g.fragment) + t)))
  {
  }

  lemma MatchAfterSound(name: string, after: string)
    requires MatchAfter(name, after).Some?
    ensures var Match(g, t) := MatchAfter(name, after).value;
      && g.methodName == name && Avoids(g.methodIdAndPath, {'?', '#'})
      && after == g.methodIdAndPath + (QueryText(g.query) + FragmentText(g.fragment) + t)
      && (g.query.Some? ==> Avoids(g.query.value, {'#'}))
      && (g.fragment.Some? ==> Avoids(g.fragment.value, LineTerminators))
      && IsTrailingTerminator(t) && (t != [] ==> g.fragment.Some?)
  {
    var k := IndexOfAny(after, {'?', '#'});
    AvoidsBeforeStop(after, {'?', '#'});
    MatchSuffixSound(after[k..]);
    assert after == after[..k] + after[k..];
  }

  lemma MatchGroupsParts(s: string)
    requires MatchGroups(s).Some?
    ensures |s| >= 4 && s[..4] == "did:"
    ensures var j := IndexOfAny(s[4..], MethodStops);
      0 < j < |s[4..]| && s[4..][j] == ':' && MatchGroups(s) == MatchAfter(s[4..][..j], s[4..][j + 1..])
  {
  }

  /** A match spans the text with groups inside their classes, and leaves unmatched only
      what `$` may skip. */
  lemma MatchGroupsSound(s: string)
    requires MatchGroups(s).Some?
    ensures var Match(g, t) := MatchGroups(s).value;
      && WellFormedGroups(g) && s == Assemble(g) + t
      && IsTrailingTerminator(t) && (t != [] ==> g.fragment.Some?)
  {
    MatchGroupsParts(s);
    var rest := s[4..];
    var j := IndexOfAny(rest, MethodStops);
    var name, after := rest[..j], rest[j + 1..];
    AvoidsBeforeStop(rest, MethodStops);
    MatchAfterSound(name, after);
    var Match(g, t) := MatchAfter(name, after).value;
    AssembleAround(g, t);
    SplitAtColon(s, j);
  }

  /** `did:`, the text before the colon at `j` of the rest, the colon, and what follows. */
  lemma SplitAtColon(s: string, j: nat)
    requires |s| >= 4 && s[..4] == "did:" && j < |s| - 4 && s[4..][j] == ':'
    ensures s == "did:" + (s[4..][..j] + ":" + s[4..][j + 1..])
  {
    var rest := s[4..];
    assert rest == rest[..j] + ":" + rest[j + 1..];
    assert s == s[..4] + rest;
  }

  lemma MatchAfterComplete(g: Groups, t: string)
    requires WellFormedGroups(g) && IsTrailingTerminator(t) && (t != [] ==> g.fragment.Some?)
    ensures MatchAfter(g.methodName, g.methodIdAndPath + (QueryText(g.query) + FragmentText(g.fragment) + t)) == Some(Match(g, t))
  {
    var u := QueryText(g.query) + FragmentText(g.fragment) + t;
    var after := g.methodIdAndPath + u;
    MatchSuffixComplete(g.query, g.fragment, t);
    IndexOfAnyAppend(g.methodIdAndPath, u, {'?', '#'});
    assert after[..|g.methodIdAndPath|] == g.methodIdAndPath;
    assert after[|g.methodIdAndPath|..] == u;
  }

  /** Groups inside their classes, followed by what `$` may skip, are matched back exactly. */
  lemma MatchGroupsComplete(g: Groups, t: string)
    requires WellFormedGroups(g) && IsTrailingTerminator(t) && (t != [] ==> g.fragment.Some?)
    ensures MatchGroups(Assemble(g) + t) == Some(Match(g, t))
  {
    var after := g.methodIdAndPath + (QueryText(g.query) + FragmentText(g.fragment) + t);
    var rest := g.methodName + (":" + after);
    AssembleAround(g, t);
    ColonSlices(g.methodName, after);
    MatchGroupsAt(g.methodName, after);
    MatchAfterComplete(g, t);
  }

  /** A method inside its class and a colon leave the rest to `MatchAfter`. */
  lemma MatchGroupsAt(name: string, after: string)
    requires name != [] && Avoids(name, MethodStops)
    ensures MatchGroups("did:" + (name + (":" + after))) == MatchAfter(name, after)
  {
    var rest := name + (":" + after);
    Apart("did:", rest);
    IndexOfAnyAppend(name, ":" + after, MethodStops);
    ColonSlices(name, after);
  }

  /** A name, a colon and what follows, taken apart at the colon. */
  lemma ColonSlices(name: string, after: string)
    ensures name + ":" + after == name + (":" + after)
    ensures var rest := name + (":" + after);
      rest[..|name|] == name && rest[|name|] == ':' && rest[|name| + 1..] == after
  {
    var rest := name + (":" + after);
    assert rest[|name| + 1..] == after;
  }

  /** Lines 40-42: `split(separator: "/", maxSplits: 1)` of the method-id group; the first
      piece is the method-id and a second piece, if any, becomes the path after a `/`.  An
      empty or all-`/` group leaves no piece, and `[0]` traps (`None`). */
  function MethodIdAndPath(seg: string): (r: Option<(string, Option<string>)>)
    ensures r.None? <==> SkipLeading(seg, '/') == []
    ensures r.Some? ==> r.value.0 != [] && Avoids(r.value.0, {'/'})
    ensures r.Some? && r.value.1.Some? ==>
      var path := r.value.1.value;
      |path| >= 2 && path[0] == '/' && SkipLeading(seg, '/') == r.value.0 + path
    ensures r.Some? && r.value.1.None? ==>
      SkipLeading(seg, '/') == r.value.0 || SkipLeading(seg, '/') == r.value.0 + "/"
  {
    var comps := SplitOnce(seg, '/');
    if comps == [] then None
    else if |comps| > 1 then
      Regroup(comps[0], "/", comps[1]);
      Some((comps[0], Some("/" + comps[1])))
    else Some((comps[0], None))
  }

  /** Line 50: the query text split on `&`, each piece split on `=`. */
  function QueryPairs(q: string): seq<seq<string>> {
    var pieces := Split(q, '&');
    seq(|pieces|, i requires 0 <= i < |pieces| => Split(pieces[i], '='))
  }

  /** A pair of exactly two parts, the first of them `key`: the only kind the loop stores. */
  predicate Binds(pair: seq<string>, key: string) {
    |pair| == 2 && pair[0] == key
  }

  /** Pair `i` binds `key` and no later pair does. */
  predicate LastBinds(pairs: seq<seq<string>>, key: string, i: int) {
    0 <= i < |pairs| && Binds(pairs[i], key) && forall j :: i < j < |pairs| ==> !Binds(pairs[j], key)
  }

  /** Lines 51-56: the dictionary after the loop has run over `pairs`. */
  function QueryFold(pairs: seq<seq<string>>): map<string, string>
    decreases |pairs|
  {
    if pairs == [] then map[]
    else
      var queries := QueryFold(pairs[..|pairs| - 1]);
      var pair := pairs[|pairs| - 1];
      if |pair| == 2 then queries[pair[0] := pair[1]] else queries
  }

  /** The loop of lines 51-56: pairs of two parts are stored, later ones overwriting. */
  method BuildQueries(pairs: seq<seq<string>>) returns (queries: map<string, string>)
    ensures queries == QueryFold(pairs)
  {
    queries := map[];
    var i := 0;
    while i < |pairs|
      invariant 0 <= i <= |pairs|
      invariant queries == QueryFold(pairs[..i])
    {
      var pair := pairs[i];
      assert pairs[..i + 1][..i] == pairs[..i];
      if |pair| == 2 {
        queries := queries[pair[0] := pair[1]];
      }
      i := i + 1;
    }
    assert pairs[..|pairs|] == pairs;
  }

  /** Every stored key comes from a pair of two parts, with the value of the last such pair. */
  lemma {:induction false} QueryFoldLookup(pairs: seq<seq<string>>, key: string)
    requires key in QueryFold(pairs)
    ensures exists i :: LastBinds(pairs, key, i) && QueryFold(pairs)[key] == pairs[i][1]
    decreases |pairs|
  {
    var init := pairs[..|pairs| - 1];
    var last := |pairs| - 1;
    if Binds(pairs[last], key) {
      assert Binds(pairs[last], key) && QueryFold(pairs)[key] == pairs[last][1];
    } else {
      assert key in QueryFold(init) && QueryFold(pairs)[key] == QueryFold(init)[key];
      QueryFoldLookup(init, key);
      var i :| LastBinds(init, key, i) && QueryFold(init)[key] == init[i][1];
      assert init[i] == pairs[i];
      assert forall j :: i < j < |pairs| ==> !Binds(pairs[j], key) by {
        forall j | i < j < |pairs| ensures !Binds(pairs[j], key) {
          if j < last {
            assert init[j] == pairs[j];
          }
        }
      }
    }
  }

  /** A pair of two parts that no later pair overrides is stored with its value. */
  lemma {:induction false} QueryFoldLast(pairs: seq<seq<string>>, i: nat)
    requires i < |pairs| && |pairs[i]| == 2 && LastBinds(pairs, pairs[i][0], i)
    ensures pairs[i][0] in QueryFold(pairs) && QueryFold(pairs)[pairs[i][0]] == pairs[i][1]
    decreases |pairs|
  {
    var init := pairs[..|pairs| - 1];
    var last := |pairs| - 1;
    if i < last {
      assert init[i] == pairs[i];
      assert forall j :: i < j < |init| ==> init[j] == pairs[j];
      QueryFoldLast(init, i);
      assert !Binds(pairs[last], pairs[i][0]);
    }
  }

  /** `&`, `=` and `#`: what no stored key or value can contain. */
  const QueryStops: set<char> := {'&', '=', '#'}

  /** Stored keys and values are non-empty and free of `&`, `=` and `#`. */
  lemma QueryEntriesClean(q: string)
    requires Avoids(q, {'#'})
    ensures forall key :: key in QueryFold(QueryPairs(q)) ==>
      key != [] && Avoids(key, QueryStops) && QueryFold(QueryPairs(q))[key] != [] && Avoids(QueryFold(QueryPairs(q))[key], QueryStops)
  {
    var pieces := Split(q, '&');
    var pairs := QueryPairs(q);
    SplitAvoids(q, '&', {'#'});
    forall key | key in QueryFold(pairs)
      ensures key != [] && Avoids(key, QueryStops) && QueryFold(pairs)[key] != [] && Avoids(QueryFold(pairs)[key], QueryStops)
    {
      QueryFoldLookup(pairs, key);
      var i :| LastBinds(pairs, key, i) && QueryFold(pairs)[key] == pairs[i][1];
      var piece := pieces[i];
      assert Avoids(piece, {'&', '#'}) by {
        assert Avoids(piece, {'&'}) && Avoids(piece, {'#'});
      }
      SplitAvoids(piece, '=', {'&', '#'});
      assert pairs[i] == Split(piece, '=');
      assert Avoids(pairs[i][0], {'&', '#'}) && Avoids(pairs[i][0], {'='});
      assert Avoids(pairs[i][1], {'&', '#'}) && Avoids(pairs[i][1], {'='});
    }
  }

  function Queries(q: Option<string>): map<string, string> {
    if q.Some? then QueryFold(QueryPairs(q.value)) else map[]
  }

  /** `DIDUrl(from:)`: the groups of the match, the method-id split off the path, the
      queries folded into a dictionary, and the fragment as captured. */
  function UrlSpec(s: string): Outcome {
    match MatchGroups(s)
    case None => NoMatch
    case Some(Match(g, _)) =>
      match MethodIdAndPath(g.methodIdAndPath)
      case None => IndexTrap
      case Some((methodId, path)) =>
        Parsed(DIDUrl(DID("did", g.methodName, methodId), Queries(g.query), path, g.fragment))
  }

  /** `DIDUrl(from:)` step by step, building the dictionary with the loop. */
  method ParseDIDUrl(s: string) returns (r: Outcome)
    ensures r == UrlSpec(s)
  {
    var m := MatchGroups(s);
    if m.None? {
      return NoMatch;
    }
    var g := m.value.groups;
    var components := SplitOnce(g.methodIdAndPath, '/');
    if components == [] {
      return IndexTrap;
    }
    var methodId := components[0];
    var path := if |components| > 1 then Some("/" + components[1]) else None;
    var did := DID("did", g.methodName, methodId);
    var queries := map[];
    if g.query.Some? {
      queries := BuildQueries(QueryPairs(g.query.value));
    }
    r := Parsed(DIDUrl(did, queries, path, g.fragment));
  }

  /** The groups before the query: everything up to the first `?` or `#`. */
  function Head(g: Groups): string {
    "did:" + g.methodName + ":" + g.methodIdAndPath
  }

  lemma HeadAvoids(g: Groups)
    requires WellFormedGroups(g)
    ensures Avoids(Head(g), {'?', '#'})
  {
    var h := Head(g);
    var n := |g.methodName|;
    forall k | 0 <= k < |h| ensures h[k] !in {'?', '#'} {
      if 4 <= k < 4 + n {
        assert h[k] == g.methodName[k - 4];
      } else if k > 4 + n {
        assert h[k] == g.methodIdAndPath[k - 5 - n];
      }
    }
  }

  /** The first `?` or `#` of a matched text ends the method-id group. */
  lemma FirstQueryOrFragment(g: Groups, t: string)
    requires WellFormedGroups(g) && IsTrailingTerminator(t) && (t != [] ==> g.fragment.Some?)
    ensures IndexOfAny(Assemble(g) + t, {'?', '#'}) == |Head(g)|
  {
    var u := QueryText(g.query) + FragmentText(g.fragment) + t;
    assert Assemble(g) + t == Head(g) + u;
    HeadAvoids(g);
    IndexOfAnyAppend(Head(g), u, {'?', '#'});
    assert u != [] ==> u[0] == '?' || u[0] == '#';
  }

  /** The first `#` of a matched text follows the query group. */
  lemma FirstFragment(g: Groups, t: string)
    requires WellFormedGroups(g) && IsTrailingTerminator(t) && (t != [] ==> g.fragment.Some?)
    ensures IndexOfAny(Assemble(g) + t, {'#'}) == |Head(g)| + |QueryText(g.query)|
  {
    var a := Head(g) + QueryText(g.query);
    var u := FragmentText(g.fragment) + t;
    assert Assemble(g) + t == a + u;
    HeadAvoids(g);
    assert Avoids(QueryText(g.query), {'#'});
    AvoidsAppend(Head(g), QueryText(g.query), {'#'});
    IndexOfAnyAppend(a, u, {'#'});
    assert u != [] ==> u[0] == '#';
  }

  /** A parse is the groups of the match, with the method-id split off the path. */
  lemma UrlSpecParsed(s: string)
    requires UrlSpec(s).Parsed?
    ensures MatchGroups(s).Some? && MethodIdAndPath(MatchGroups(s).value.groups.methodIdAndPath).Some?
    ensures var g := MatchGroups(s).value.groups;
      var (id, path) := MethodIdAndPath(g.methodIdAndPath).value;
      UrlSpec(s).url == DIDUrl(DID("did", g.methodName, id), Queries(g.query), path, g.fragment)
  {
  }

  /** The method-id and path taken from a method-id group stay inside its class. */
  lemma MethodIdAndPathAvoid(seg: string)
    requires Avoids(seg, {'?', '#'}) && MethodIdAndPath(seg).Some?
    ensures var (id, path) := MethodIdAndPath(seg).value;
      && Avoids(id, {'/', '?', '#'})
      && (path.Some? ==> Avoids(path.value, {'?', '#'}))
  {
    var (id, path) := MethodIdAndPath(seg).value;
    var rem := SkipLeading(seg, '/');
    SkipLeadingAvoids(seg, '/', {'?', '#'});
    if path.Some? {
      AvoidsAppend(id, path.value, {'?', '#'});
    } else if rem != id {
      AvoidsAppend(id, "/", {'?', '#'});
    }
    assert Avoids(id, {'/', '?', '#'}) by {
      assert Avoids(id, {'/'}) && Avoids(id, {'?', '#'});
    }
  }

  /** The groups of a parsed URL, with what `$` left unmatched, and the URL built from them. */
  lemma ParsedGroups(s: string) returns (g: Groups, t: string)
    requires UrlSpec(s).Parsed?
    ensures WellFormedGroups(g) && IsTrailingTerminator(t) && (t != [] ==> g.fragment.Some?)
    ensures s == Assemble(g) + t
    ensures MethodIdAndPath(g.methodIdAndPath).Some?
    ensures var (id, path) := MethodIdAndPath(g.methodIdAndPath).value;
      UrlSpec(s).url == DIDUrl(DID("did", g.methodName, id), Queries(g.query), path, g.fragment)
  {
    UrlSpecParsed(s);
    MatchGroupsSound(s);
    g, t := MatchGroups(s).value.groups, MatchGroups(s).value.rest;
  }

  /** The embedded DID has scheme `did` and the captured method, which follows `did:` and
      precedes a colon; the method-id, the path and the fragment stay inside their classes. */
  lemma UrlFields(s: string)
    requires UrlSpec(s).Parsed?
    ensures var url := UrlSpec(s).url; var m := url.did.methodName;
      && url.did.schema == "did" && m != [] && Avoids(m, MethodStops)
      && |s| > |m| + 4 && s[..|m| + 5] == "did:" + m + ":"
    ensures var url := UrlSpec(s).url;
      && url.did.methodId != [] && Avoids(url.did.methodId, {'/', '?', '#'})
      && (url.path.Some? ==> |url.path.value| >= 2 && url.path.value[0] == '/' && Avoids(url.path.value, {'?', '#'}))
      && (url.fragment.Some? ==> Avoids(url.fragment.value, LineTerminators))
  {
    UrlSpecParsed(s);
    MatchGroupsSound(s);
    var Match(g, t) := MatchGroups(s).value;
    MethodIdAndPathAvoid(g.methodIdAndPath);
    MethodAt(g, t, s);
  }

  lemma MethodAt(g: Groups, t: string, s: string)
    requires s == Assemble(g) + t
    ensures |s| > |g.methodName| + 4 && s[..|g.methodName| + 5] == "did:" + g.methodName + ":"
  {
    AssembleAround(g, t);
    Apart("did:" + g.methodName + ":", g.methodIdAndPath + (QueryText(g.query) + FragmentText(g.fragment) + t));
  }

  /** `f` is the text after the first `#` of `s`, up to what `$` may leave at the end. */
  predicate FragmentAfterHash(s: string, f: string) {
    var i := IndexOfAny(s, {'#'});
    i + 1 + |f| <= |s| && s[i + 1..i + 1 + |f|] == f && IsTrailingTerminator(s[i + 1 + |f|..])
  }

  /** The fragment is present exactly when the text has a `#`, and it is what follows the
      first `#`, up to what `$` may leave at the end. */
  lemma UrlFragment(s: string)
    requires UrlSpec(s).Parsed?
    ensures UrlSpec(s).url.fragment.Some? <==> '#' in s
    ensures UrlSpec(s).url.fragment.Some? ==> FragmentAfterHash(s, UrlSpec(s).url.fragment.value)
  {
    var g, t := ParsedGroups(s);
    FragmentAt(g, t, s);
  }

  lemma FragmentAt(g: Groups, t: string, s: string)
    requires WellFormedGroups(g) && IsTrailingTerminator(t) && (t != [] ==> g.fragment.Some?)
    requires s == Assemble(g) + t
    ensures g.fragment.Some? <==> '#' in s
    ensures g.fragment.Some? ==> FragmentAfterHash(s, g.fragment.value)
  {
    FirstFragment(g, t);
    var lead := Head(g) + QueryText(g.query);
    if g.fragment.Some? {
      var f := g.fragment.value;
      assert s == lead + ("#" + f) + t;
      FragmentSlices(lead, f, t, s);
    } else {
      assert s == lead;
      assert forall k :: 0 <= k < |s| ==> s[k] != '#';
    }
  }

  /** The pieces around the `#` that starts the fragment. */
  lemma FragmentSlices(lead: string, f: string, t: string, s: string)
    requires s == lead + ("#" + f) + t
    ensures |lead| + 1 + |f| <= |s| && s[|lead|] == '#'
    ensures s[|lead| + 1..|lead| + 1 + |f|] == f && s[|lead| + 1 + |f|..] == t
  {
    assert s[|lead| + 1..] == f + t;
    Apart(f, t);
  }

  /** The queries are folded from the text between the first `?` (when it comes before
      any `#`) and the first `#`; with no such `?` there are none. */
  predicate QueriesFrom(s: string, queries: map<string, string>) {
    var k := IndexOfAny(s, {'?', '#'});
    var h := IndexOfAny(s, {'#'});
    queries == if k < |s| && s[k] == '?' && k < h then QueryFold(QueryPairs(s[k + 1..h])) else map[]
  }

  /** The queries come from the text between the first `?` (when it comes before any `#`)
      and the first `#`; with no such `?` they are empty. */
  lemma UrlQueries(s: string)
    requires UrlSpec(s).Parsed?
    ensures QueriesFrom(s, UrlSpec(s).url.queries)
  {
    var g, t := ParsedGroups(s);
    QueryAt(g, t, s);
  }

  lemma QueryAt(g: Groups, t: string, s: string)
    requires WellFormedGroups(g) && IsTrailingTerminator(t) && (t != [] ==> g.fragment.Some?)
    requires s == Assemble(g) + t
    ensures QueriesFrom(s, Queries(g.query))
  {
    FirstQueryOrFragment(g, t);
    FirstFragment(g, t);
    var a := Head(g);
    if g.query.Some? {
      var q := g.query.value;
      Regroup(a + QueryText(g.query), FragmentText(g.fragment), t);
      QuerySlices(a, q, FragmentText(g.fragment) + t, s);
    } else if g.fragment.Some? {
      assert s == a + FragmentText(g.fragment) + t;
      assert s[|a|] == '#';
    }
  }

  /** The `?` after the head and the query after it, as slices. */
  lemma QuerySlices(a: string, q: string, u: string, s: string)
    requires s == a + ("?" + q) + u
    ensures |a| + 1 + |q| <= |s| && s[|a|] == '?' && s[|a| + 1..|a| + 1 + |q|] == q
  {
    assert s[|a| + 1..|a| + 1 + |q|] == q;
  }

  /** Every stored query key and value is non-empty and free of `&`, `=` and `#`. */
  lemma UrlQueryEntries(s: string)
    requires UrlSpec(s).Parsed?
    ensures var queries := UrlSpec(s).url.queries;
      forall key :: key in queries ==>
        key != [] && Avoids(key, QueryStops) && queries[key] != [] && Avoids(queries[key], QueryStops)
  {
    MatchGroupsSound(s);
    var g := MatchGroups(s).value.groups;
    if g.query.Some? {
      QueryEntriesClean(g.query.value);
    }
  }

  function PathText(path: Option<string>): string {
    if path.Some? then path.value else []
  }

  /** A method-id free of `/`, followed by a path, is split back into the two. */
  lemma MethodIdAndPathOf(id: string, path: Option<string>)
    requires id != [] && Avoids(id, {'/'})
    requires path.Some? ==> |path.value| >= 2 && path.value[0] == '/'
    ensures MethodIdAndPath(id + PathText(path)) == Some((id, path))
  {
    var seg := id + PathText(path);
    assert seg[0] == id[0];
    assert SkipLeading(seg, '/') == seg;
    SplitFirstAt(id, PathText(path));
  }

  lemma SplitFirstAt(id: string, rest: string)
    requires id != [] && Avoids(id, {'/'})
    requires rest != [] ==> |rest| >= 2 && rest[0] == '/'
    ensures SplitFirst(id + rest, '/') == if rest == [] then [id] else [id, rest[1..]]
  {
    var seg := id + rest;
    IndexOfAnyAppend(id, rest, {'/'});
    Apart(id, rest);
    if rest != [] {
      assert IndexOfAny(rest, {'/'}) == 0;
      assert seg[|id| + 1..] == rest[1..];
    } else {
      assert IndexOfAny(rest, {'/'}) == 0;
    }
  }

  /** Printing parts that lie inside their classes and parsing the text gives the parts
      back: the partner of the parser, since `description` is not part of this model. */
  lemma UrlOfParts(name: string, id: string, path: Option<string>, q: Option<string>, f: Option<string>)
    requires name != [] && Avoids(name, MethodStops)
    requires id != [] && Avoids(id, {'/', '?', '#'})
    requires path.Some? ==> |path.value| >= 2 && path.value[0] == '/' && Avoids(path.value, {'?', '#'})
    requires q.Some? ==> Avoids(q.value, {'#'})
    requires f.Some? ==> Avoids(f.value, LineTerminators)
    ensures UrlSpec("did:" + name + ":" + id + PathText(path) + QueryText(q) + FragmentText(f))
         == Parsed(DIDUrl(DID("did", name, id), Queries(q), path, f))
  {
    var seg := id + PathText(path);
    var g := Groups(name, seg, q, f);
    assert Avoids(seg, {'?', '#'}) by {
      assert Avoids(id, {'?', '#'});
      AvoidsAppend(id, PathText(path), {'?', '#'});
    }
    assert Avoids(id, {'/'});
    MethodIdAndPathOf(id, path);
    var s := "did:" + name + ":" + id + PathText(path) + QueryText(q) + FragmentText(f);
    assert s == Assemble(g) by {
      Regroup("did:" + name + ":", id, PathText(path));
    }
    UrlOfGroups(g, s);
  }

  lemma Regroup(a: string, b: string, c: string)
    ensures a + b + c == a + (b + c)
  {
  }

  lemma UrlOfGroups(g: Groups, s: string)
    requires WellFormedGroups(g) && s == Assemble(g)
    ensures MatchGroups(s) == Some(Match(g, []))
    ensures UrlSpec(s) == match MethodIdAndPath(g.methodIdAndPath)
      case None => IndexTrap
      case Some((methodId, path)) =>
        Parsed(DIDUrl(DID("did", g.methodName, methodId), Queries(g.query), path, g.fragment))
  {
    assert s == Assemble(g) + [];
    MatchGroupsComplete(g, []);
  }

  /** A well-formed DID, read as a DID URL, has no queries, no path and no fragment. */
  lemma UrlOfDID(d: DID)
    requires d.schema == "did" && IsMethod(d.methodName) && IsMethodId(d.methodId)
    ensures UrlSpec(Description(d)) == Parsed(DIDUrl(d, map[], None, None))
  {
    assert Avoids(d.methodName, MethodStops);
    assert Avoids(d.methodId, {'/', '?', '#'});
    assert d.schema + ":" == "did:";
    UrlBare(d.methodName, d.methodId);
  }

  /** A method and a method-id alone, with nothing after them. */
  lemma UrlBare(name: string, id: string)
    requires name != [] && Avoids(name, MethodStops) && id != [] && Avoids(id, {'/', '?', '#'})
    ensures UrlSpec("did:" + name + ":" + id) == Parsed(DIDUrl(DID("did", name, id), map[], None, None))
  {
    BareText("did:" + name + ":" + id);
    UrlOfParts(name, id, None, None, None);
  }

  lemma BareText(a: string)
    ensures a + PathText(None) + QueryText(None) + FragmentText(None) == a
  {
  }

  lemma FragmentOnlyText(a: string, f: string)
    ensures a + PathText(None) + QueryText(None) + FragmentText(Some(f)) == a + "#" + f
  {
  }

  /** A method, a method-id and a fragment. */
  lemma UrlWithFragment(name: string, id: string, f: string)
    requires name != [] && Avoids(name, MethodStops) && id != [] && Avoids(id, {'/', '?', '#'})
    requires Avoids(f, LineTerminators)
    ensures UrlSpec("did:" + name + ":" + id + "#" + f) == Parsed(DIDUrl(DID("did", name, id), map[], None, Some(f)))
  {
    FragmentOnlyText("did:" + name + ":" + id, f);
    UrlOfParts(name, id, None, None, Some(f));
  }

  /** The URL parser accepts method-ids with a colon, which `DID(from:)` rejects. */
  lemma UrlAcceptsColonInId(name: string, id: string)
    requires IsMethod(name) && id != [] && Avoids(id, {'/', '?', '#'}) && ':' in id
    ensures UrlSpec("did:" + name + ":" + id) == Parsed(DIDUrl(DID("did", name, id), map[], None, None))
    ensures Parse("did:" + name + ":" + id) == None
  {
    assert Avoids(name, MethodStops);
    UrlBare(name, id);
    ParseRejectsColonInId(name, id);
  }

  lemma ParseRejectsColonInId(name: string, id: string)
    requires IsMethod(name) && ':' in id
    ensures Parse("did:" + name + ":" + id) == None
  {
    assert Avoids(name, {':'});
    ParseAt(name, id);
    assert !IsIdChar(':');
  }

  /** A method-id group that is empty or all `/` leaves nothing for `[0]`. */
  lemma UrlTrapsOnEmptyId(g: Groups, t: string)
    requires WellFormedGroups(g) && IsTrailingTerminator(t) && (t != [] ==> g.fragment.Some?)
    requires forall k :: 0 <= k < |g.methodIdAndPath| ==> g.methodIdAndPath[k] == '/'
    ensures UrlSpec(Assemble(g) + t) == IndexTrap
  {
    MatchGroupsComplete(g, t);
  }

  /** One `key=value` piece gives one entry. */
  lemma QuerySingle(key: string, value: string)
    requires key != [] && value != [] && Avoids(key, QueryStops) && Avoids(value, QueryStops)
    ensures Avoids(key + "=" + value, {'#'})
    ensures QueryFold(QueryPairs(key + "=" + value)) == map[key := value]
  {
    PairSplits(key, value);
    SplitSingle(key + "=" + value, '&');
    var pairs := QueryPairs(key + "=" + value);
    assert pairs == [[key, value]];
    assert pairs[..0] == [];
  }

  lemma PairSplits(key: string, value: string)
    requires key != [] && value != [] && Avoids(key, QueryStops) && Avoids(value, QueryStops)
    ensures Avoids(key + "=" + value, {'&', '#'})
    ensures Split(key + "=" + value, '=') == [key, value]
  {
    assert Avoids(key, {'&', '#'}) && Avoids(value, {'&', '#'});
    AvoidsAppend(key, "=", {'&', '#'});
    AvoidsAppend(key + "=", value, {'&', '#'});
    assert Avoids(key, {'='}) && Avoids(value, {'='});
    SplitCons(key, '=', value);
    SplitSingle(value, '=');
  }

  /** Two `key=value` pieces joined by `&` give both entries, the second winning a tie. */
  lemma QueryTwo(k1: string, v1: string, k2: string, v2: string)
    requires k1 != [] && v1 != [] && Avoids(k1, QueryStops) && Avoids(v1, QueryStops)
    requires k2 != [] && v2 != [] && Avoids(k2, QueryStops) && Avoids(v2, QueryStops)
    ensures Avoids(k1 + "=" + v1 + "&" + k2 + "=" + v2, {'#'})
    ensures QueryFold(QueryPairs(k1 + "=" + v1 + "&" + k2 + "=" + v2)) == map[k1 := v1, k2 := v2]
  {
    var p1, p2 := k1 + "=" + v1, k2 + "=" + v2;
    PairSplits(k1, v1);
    PairSplits(k2, v2);
    TwoPairsText(p1, k2, v2);
    TwoPieces(p1, p2);
    var pairs := QueryPairs(p1 + ['&'] + p2);
    assert pairs == [[k1, v1], [k2, v2]];
    QueryFoldTwo([k1, v1], [k2, v2]);
  }

  lemma TwoPairsText(p1: string, k2: string, v2: string)
    ensures p1 + "&" + k2 + "=" + v2 == p1 + ['&'] + (k2 + "=" + v2)
  {
  }

  /** Two `&`-free pieces joined by `&` split back into the two. */
  lemma TwoPieces(p1: string, p2: string)
    requires p1 != [] && p2 != [] && Avoids(p1, {'&', '#'}) && Avoids(p2, {'&', '#'})
    ensures Avoids(p1 + ['&'] + p2, {'#'})
    ensures Split(p1 + ['&'] + p2, '&') == [p1, p2]
  {
    assert Avoids(p1, {'&'}) && Avoids(p1, {'#'}) && Avoids(p2, {'&'}) && Avoids(p2, {'#'});
    AvoidsAppend(p1, ['&'], {'#'});
    AvoidsAppend(p1 + ['&'], p2, {'#'});
    SplitCons(p1, '&', p2);
    SplitSingle(p2, '&');
  }

  lemma QueryFoldTwo(a: seq<string>, b: seq<string>)
    requires |a| == 2 && |b| == 2
    ensures QueryFold([a, b]) == map[a[0] := a[1], b[0] := b[1]]
  {
    assert [a, b][..1] == [a];
    assert [a][..0] == [];
    assert QueryFold([a]) == map[a[0] := a[1]];
    assert QueryFold([a, b]) == QueryFold([a])[b[0] := b[1]];
  }

  /** `did:example:123456789abcdefghi`: the DID alone. */
  lemma UrlTestPlain(s: string, name: string, id: string)
    requires name == "example" && id == "123456789abcdefghi" && s == "did:" + name + ":" + id
    ensures UrlSpec(s) == Parsed(DIDUrl(DID("did", name, id), map[], None, None))
  {
    assert Avoids(name, MethodStops) && Avoids(id, {'/', '?', '#'});
    UrlBare(name, id);
  }

  /** `did:example:123456/path`: a path after the method-id. */
  lemma UrlTestPath(s: string, name: string, id: string, path: string)
    requires name == "example" && id == "123456" && path == "/path" && s == "did:" + name + ":" + id + path
    ensures UrlSpec(s) == Parsed(DIDUrl(DID("did", name, id), map[], Some(path), None))
  {
    UrlOfParts(name, id, Some(path), None, None);
    assert s == "did:" + name + ":" + id + PathText(Some(path)) + QueryText(None) + FragmentText(None);
  }

  /** The text of parts, with the absent ones left out. */
  lemma PartsText(name: string, id: string, path: Option<string>, q: Option<string>, f: Option<string>)
    ensures q.Some? && path.None? && f.None? ==>
      "did:" + name + ":" + id + PathText(path) + QueryText(q) + FragmentText(f) == "did:" + name + ":" + id + "?" + q.value
    ensures q.Some? && path.None? && f.Some? ==>
      "did:" + name + ":" + id + PathText(path) + QueryText(q) + FragmentText(f) == "did:" + name + ":" + id + "?" + q.value + "#" + f.value
  {
    if q.Some? && path.None? && f.Some? {
      assert "?" + q.value + "#" + f.value == ("?" + q.value) + ("#" + f.value);
    }
  }

  /** A DID with one `key=value` query. */
  lemma UrlWithQuery(name: string, id: string, key: string, value: string)
    requires name != [] && Avoids(name, MethodStops) && id != [] && Avoids(id, {'/', '?', '#'})
    requires key != [] && value != [] && Avoids(key, QueryStops) && Avoids(value, QueryStops)
    ensures UrlSpec("did:" + name + ":" + id + "?" + (key + "=" + value))
         == Parsed(DIDUrl(DID("did", name, id), map[key := value], None, None))
  {
    var q := key + "=" + value;
    QuerySingle(key, value);
    UrlOfParts(name, id, None, Some(q), None);
    PartsText(name, id, None, Some(q), None);
  }

  /** `did:example:123456?versionId=1`: one query. */
  lemma UrlTestQuery(s: string, name: string, id: string, key: string, value: string)
    requires name == "example" && id == "123456" && key == "versionId" && value == "1"
    requires s == "did:" + name + ":" + id + "?" + (key + "=" + value)
    ensures UrlSpec(s) == Parsed(DIDUrl(DID("did", name, id), map[key := value], None, None))
  {
    UrlWithQuery(name, id, key, value);
  }

  /** `did:example:123#public-key-0`: a fragment. */
  lemma UrlTestFragment(s: string, name: string, id: string, f: string)
    requires name == "example" && id == "123" && f == "public-key-0" && s == "did:" + name + ":" + id + "#" + f
    ensures UrlSpec(s) == Parsed(DIDUrl(DID("did", name, id), map[], None, Some(f)))
  {
    assert Avoids(name, MethodStops) && Avoids(id, {'/', '?', '#'}) && Avoids(f, LineTerminators);
    UrlWithFragment(name, id, f);
  }

  /** A DID with two `key=value` queries and a fragment. */
  lemma UrlWithTwoQueries(name: string, id: string, k1: string, v1: string, k2: string, v2: string, f: string)
    requires name != [] && Avoids(name, MethodStops) && id != [] && Avoids(id, {'/', '?', '#'})
    requires k1 != [] && v1 != [] && Avoids(k1, QueryStops) && Avoids(v1, QueryStops)
    requires k2 != [] && v2 != [] && Avoids(k2, QueryStops) && Avoids(v2, QueryStops)
    requires Avoids(f, LineTerminators)
    ensures UrlSpec("did:" + name + ":" + id + "?" + (k1 + "=" + v1 + "&" + k2 + "=" + v2) + "#" + f)
         == Parsed(DIDUrl(DID("did", name, id), map[k1 := v1, k2 := v2], None, Some(f)))
  {
    var q := k1 + "=" + v1 + "&" + k2 + "=" + v2;
    QueryTwo(k1, v1, k2, v2);
    UrlOfParts(name, id, None, Some(q), Some(f));
    PartsText(name, id, None, Some(q), Some(f));
  }

  /** `did:example:123?service=agent&relativeRef=/credentials#degree`: two queries, one
      value holding a `/`, then a fragment. */
  lemma UrlTestQueriesAndFragment(s: string, name: string, id: string, k1: string, v1: string,
                                  k2: string, v2: string, f: string)
    requires name == "example" && id == "123" && f == "degree"
    requires k1 == "service" && v1 == "agent" && k2 == "relativeRef" && v2 == "/credentials"
    requires s == "did:" + name + ":" + id + "?" + (k1 + "=" + v1 + "&" + k2 + "=" + v2) + "#" + f
    ensures UrlSpec(s) == Parsed(DIDUrl(DID("did", name, id), map[k1 := v1, k2 := v2], None, Some(f)))
  {
    UrlWithTwoQueries(name, id, k1, v1, k2, v2, f);
  }

  /** `did:example:`: an empty method-id group traps. */
  lemma UrlTestEmptyId(s: string, name: string)
    requires name == "example" && s == "did:" + name + ":"
    ensures UrlSpec(s) == IndexTrap
  {
    var g := Groups(name, [], None, None);
    assert Avoids(name, MethodStops);
    UrlTrapsOnEmptyId(g, []);
    assert s == Assemble(g) + [];
  }
}
