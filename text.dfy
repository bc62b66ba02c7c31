/** String helpers standing in for the parts of Swift's String API and of the ICU
    pattern classes that the identifier parsers use. */
module Text {

  /** ICU's line terminators: LF, VT, FF, CR, NEL, LINE SEPARATOR, PARAGRAPH SEPARATOR. */
  const LineTerminators: set<char> :=
    {'\n', '\U{000B}', '\U{000C}', '\r', '\U{0085}', '\U{2028}', '\U{2029}'}

  /** No character of `s` is in `cs`. */
  predicate Avoids(s: string, cs: set<char>) {
    forall k :: 0 <= k < |s| ==> s[k] !in cs
  }

  /** What ICU's `$` may still leave unmatched at the end of the input outside multi-line
      mode: nothing, one line terminator, or CR LF. */
  predicate IsTrailingTerminator(t: string) {
    t == [] || (|t| == 1 && t[0] in LineTerminators) || t == "\r\n"
  }

  /** The index of the first character of `s` that is in `stops`, or |s| if there is none. */
  function IndexOfAny(s: string, stops: set<char>): (i: nat)
    ensures i <= |s|
    ensures forall k :: 0 <= k < i ==> s[k] !in stops
    ensures i < |s| ==> s[i] in stops
  {
    if s == [] || s[0] in stops then 0 else 1 + IndexOfAny(s[1..], stops)
  }

  /** The first-occurrence index is determined by the two facts that characterise it. */
  lemma IndexOfAnyIs(s: string, stops: set<char>, i: nat)
    requires i <= |s|
    requires forall k :: 0 <= k < i ==> s[k] !in stops
    requires i < |s| ==> s[i] in stops
    ensures IndexOfAny(s, stops) == i
  {
  }

  /** The run before the first stop holds no stop. */
  lemma AvoidsBeforeStop(s: string, stops: set<char>)
    ensures Avoids(s[..IndexOfAny(s, stops)], stops)
  {
    var i := IndexOfAny(s, stops);
    assert forall k :: 0 <= k < i ==> s[..i][k] == s[k];
  }

  /** A stop-free prefix is skipped over by the search. */
  lemma {:induction false} IndexOfAnyAppend(a: string, b: string, stops: set<char>)
    requires Avoids(a, stops)
    ensures IndexOfAny(a + b, stops) == |a| + IndexOfAny(b, stops)
  {
    var i := IndexOfAny(b, stops);
    assert forall k :: 0 <= k < |a| ==> (a + b)[k] == a[k];
    assert forall k :: |a| <= k < |a| + i ==> (a + b)[k] == b[k - |a|];
    IndexOfAnyIs(a + b, stops, |a| + i);
  }

  /** A concatenation taken apart again. */
  lemma Apart(a: string, b: string)
    ensures (a + b)[..|a|] == a && (a + b)[|a|..] == b
  {
  }

  /** A string is what comes before a position, then what comes after. */
  lemma Around(s: string, i: nat)
    requires i <= |s|
    ensures s == s[..i] + s[i..]
    ensures i < |s| ==> s[i..] == [s[i]] + s[i + 1..]
  {
  }

  lemma AvoidsAppend(a: string, b: string, cs: set<char>)
    ensures Avoids(a + b, cs) <==> Avoids(a, cs) && Avoids(b, cs)
  {
    if Avoids(a, cs) && Avoids(b, cs) {
      forall k | 0 <= k < |a + b| ensures (a + b)[k] !in cs {
        if k >= |a| {
          assert (a + b)[k] == b[k - |a|];
        }
      }
    }
    if Avoids(a + b, cs) {
      assert forall k :: 0 <= k < |a| ==> (a + b)[k] == a[k];
      assert forall k :: 0 <= k < |b| ==> (a + b)[|a| + k] == b[k];
    }
  }

  /** Swift's `split(separator:)` with its default `omittingEmptySubsequences: true`:
      the maximal separator-free runs of `s`, empty runs dropped. */
  function Split(s: string, sep: char): (pieces: seq<string>)
    ensures forall k :: 0 <= k < |pieces| ==> pieces[k] != [] && Avoids(pieces[k], {sep})
    decreases |s|
  {
    if s == [] then []
    else
      var i := IndexOfAny(s, {sep});
      (if i == 0 then [] else [s[..i]]) + (if i < |s| then Split(s[i + 1..], sep) else [])
  }

  /** The pieces are runs of `s`, so they avoid whatever `s` avoids. */
  lemma {:induction false} SplitAvoids(s: string, sep: char, cs: set<char>)
    requires Avoids(s, cs)
    ensures forall k :: 0 <= k < |Split(s, sep)| ==> Avoids(Split(s, sep)[k], cs)
    decreases |s|
  {
    if s != [] {
      var i := IndexOfAny(s, {sep});
      assert forall k :: 0 <= k < i ==> s[..i][k] == s[k];
      if i < |s| {
        SplitAvoids(s[i + 1..], sep, cs);
      }
    }
  }

  /** `s` with every occurrence of `sep` removed. */
  function Without(s: string, sep: char): string {
    if s == [] then [] else (if s[0] == sep then [] else [s[0]]) + Without(s[1..], sep)
  }

  function Concat(pieces: seq<string>): string {
    if pieces == [] then [] else pieces[0] + Concat(pieces[1..])
  }

  lemma {:induction false} WithoutAppend(a: string, b: string, sep: char)
    ensures Without(a + b, sep) == Without(a, sep) + Without(b, sep)
  {
    if a == [] {
      assert a + b == b;
    } else {
      assert (a + b)[0] == a[0];
      assert (a + b)[1..] == a[1..] + b;
      WithoutAppend(a[1..], b, sep);
    }
  }

  lemma {:induction false} WithoutFree(a: string, sep: char)
    requires Avoids(a, {sep})
    ensures Without(a, sep) == a
  {
    if a != [] {
      WithoutFree(a[1..], sep);
    }
  }

  lemma ConcatCons(a: string, t: seq<string>)
    ensures Concat([a] + t) == a + Concat(t)
  {
    assert ([a] + t)[1..] == t;
  }

  /** Splitting loses the separators and nothing else. */
  lemma {:induction false} SplitLosesOnlySeparators(s: string, sep: char)
    ensures Concat(Split(s, sep)) == Without(s, sep)
    decreases |s|
  {
    if s != [] {
      var i := IndexOfAny(s, {sep});
      var head := s[..i];
      var tail := if i < |s| then Split(s[i + 1..], sep) else [];
      assert Split(s, sep) == (if i == 0 then [] else [head]) + tail;
      assert Concat(Split(s, sep)) == head + Concat(tail) by {
        if i == 0 {
          assert [] + tail == tail;
        } else {
          ConcatCons(head, tail);
        }
      }
      assert s == head + s[i..];
      WithoutAppend(head, s[i..], sep);
      WithoutFree(head, sep);
      if i < |s| {
        SplitLosesOnlySeparators(s[i + 1..], sep);
        assert s[i..][1..] == s[i + 1..];
        assert Without(s[i..], sep) == Without(s[i + 1..], sep);
      } else {
        assert s[i..] == [];
      }
    }
  }

  /** A non-empty piece followed by the separator is split off as the first piece. */
  lemma SplitCons(a: string, sep: char, b: string)
    requires a != [] && Avoids(a, {sep})
    ensures Split(a + [sep] + b, sep) == [a] + Split(b, sep)
  {
    var s := a + [sep] + b;
    IndexOfAnyIs(s, {sep}, |a|);
    assert s[..|a|] == a;
    assert s[|a| + 1..] == b;
  }

  /** Splitting at a separator splits the two sides apart.  With `SplitSingle` and the
      empty string giving no pieces, this fixes `Split`: the pieces are the longest
      separator-free runs, not any finer cut. */
  lemma {:induction false} SplitJoin(a: string, sep: char, b: string)
    ensures Split(a + [sep] + b, sep) == Split(a, sep) + Split(b, sep)
    decreases |a|
  {
    var i := IndexOfAny(a, {sep});
    if i == |a| {
      SplitJoinFree(a, sep, b);
    } else {
      var s := a + [sep] + b;
      var rest := a[i + 1..];
      var head: seq<string> := if i == 0 then [] else [a[..i]];
      JoinedIndex(a, sep, b);
      assert s[..i] == a[..i] && s[i + 1..] == rest + [sep] + b;
      SplitAt(s, sep, i);
      SplitAt(a, sep, i);
      SplitJoin(rest, sep, b);
      AppendAssoc(head, Split(rest, sep), Split(b, sep));
    }
  }

  lemma AppendAssoc<T>(x: seq<T>, y: seq<T>, z: seq<T>)
    ensures x + (y + z) == x + y + z
  {
  }

  /** A separator-free left side is one piece, or none when empty. */
  lemma SplitJoinFree(a: string, sep: char, b: string)
    requires Avoids(a, {sep})
    ensures Split(a + [sep] + b, sep) == Split(a, sep) + Split(b, sep)
  {
    if a == [] {
      var s := a + [sep] + b;
      assert s[0] == sep && s[1..] == b;
      SplitAt(s, sep, 0);
    } else {
      SplitCons(a, sep, b);
      SplitSingle(a, sep);
    }
  }

  /** The first separator of `a + [sep] + b` is the first of `a`, or the one joining them. */
  lemma JoinedIndex(a: string, sep: char, b: string)
    ensures IndexOfAny(a + [sep] + b, {sep}) == IndexOfAny(a, {sep})
  {
    var s := a + [sep] + b;
    var i := IndexOfAny(a, {sep});
    assert forall k :: 0 <= k < i ==> s[k] == a[k];
    assert s[i] in {sep} by {
      if i < |a| {
        assert s[i] == a[i];
      }
    }
    IndexOfAnyIs(s, {sep}, i);
  }

  /** `Split` at a first separator `i`: the run before it, then the rest split. */
  lemma SplitAt(s: string, sep: char, i: nat)
    requires i < |s| && i == IndexOfAny(s, {sep})
    ensures Split(s, sep) == (if i == 0 then [] else [s[..i]]) + Split(s[i + 1..], sep)
  {
    if i == 0 {
      SplitAtSeparator(s, sep);
    } else {
      SplitAtRun(s, sep, i);
    }
  }

  lemma SplitAtSeparator(s: string, sep: char)
    requires s != [] && s[0] == sep
    ensures Split(s, sep) == Split(s[1..], sep)
  {
    assert IndexOfAny(s, {sep}) == 0;
  }

  lemma SplitAtRun(s: string, sep: char, i: nat)
    requires 0 < i < |s| && i == IndexOfAny(s, {sep})
    ensures Split(s, sep) == [s[..i]] + Split(s[i + 1..], sep)
  {
  }

  /** A non-empty separator-free string is one piece. */
  lemma SplitSingle(a: string, sep: char)
    requires a != [] && Avoids(a, {sep})
    ensures Split(a, sep) == [a]
  {
    IndexOfAnyIs(a, {sep}, |a|);
    assert a[..|a|] == a;
  }

  /** What is left of `s` after its leading run of `sep`. */
  function SkipLeading(s: string, sep: char): (r: string)
    ensures |r| <= |s| && r == s[|s| - |r|..]
    ensures forall k :: 0 <= k < |s| - |r| ==> s[k] == sep
    ensures r != [] ==> r[0] != sep
  {
    if s == [] || s[0] != sep then s else SkipLeading(s[1..], sep)
  }

  /** What is left after the leading separators keeps out what `s` keeps out. */
  lemma SkipLeadingAvoids(s: string, sep: char, cs: set<char>)
    requires Avoids(s, cs)
    ensures Avoids(SkipLeading(s, sep), cs)
  {
    var r := SkipLeading(s, sep);
    assert forall k :: 0 <= k < |r| ==> r[k] == s[|s| - |r| + k];
  }

  /** Splits a non-empty string that does not start with `sep` at its first `sep`;
      an empty remainder is dropped. */
  function SplitFirst(rem: string, sep: char): (r: seq<string>)
    requires rem != [] && rem[0] != sep
    ensures 1 <= |r| <= 2
    ensures r[0] != [] && Avoids(r[0], {sep})
    ensures |r| == 1 ==> rem == r[0] || rem == r[0] + [sep]
    ensures |r| == 2 ==> r[1] != [] && rem == r[0] + [sep] + r[1]
  {
    var i := IndexOfAny(rem, {sep});
    var first := rem[..i];
    if i == |rem| then
      assert first == rem;
      [first]
    else if i + 1 == |rem| then
      assert rem == first + [sep];
      [first]
    else
      var rest := rem[i + 1..];
      assert rem == first + [sep] + rest;
      [first, rest]
  }

  /** Swift's `split(separator:maxSplits: 1)`: leading separators are skipped, the first
      non-empty piece ends at the next separator, and the rest (if non-empty) is kept
      whole.  Empty when `s` holds nothing but separators. */
  function SplitOnce(s: string, sep: char): (r: seq<string>)
    ensures |r| <= 2
    ensures r == [] <==> SkipLeading(s, sep) == []
    ensures r != [] ==> r == SplitFirst(SkipLeading(s, sep), sep)
  {
    var rem := SkipLeading(s, sep);
    if rem == [] then [] else SplitFirst(rem, sep)
  }
}
