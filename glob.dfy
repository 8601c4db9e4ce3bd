/** The subset of Redis' glob-style KEYS matching that the cache's patterns use:
    `*` matches any run of characters, every other character matches itself. */
module Glob {
  import opened Text

  predicate Match(pattern: string, s: string)
    decreases |pattern| + |s|
  {
    if pattern == [] then s == []
    else if pattern[0] == '*' then Match(pattern[1..], s) || (s != [] && Match(pattern, s[1..]))
    else s != [] && pattern[0] == s[0] && Match(pattern[1..], s[1..])
  }

  predicate StarFree(p: string) { '*' !in p }

  /** A match of a concatenated pattern splits the string where the two halves meet. */
  lemma {:induction false} MatchSplit(x: string, y: string, s: string) returns (i: nat)
    requires Match(x + y, s)
    ensures i <= |s| && Match(x, s[..i]) && Match(y, s[i..])
    decreases |x| + |s|
  {
    if x == [] {
      assert x + y == y;
      i := 0;
    } else if x[0] == '*' {
      assert (x + y)[0] == '*' && (x + y)[1..] == x[1..] + y;
      if Match(x[1..] + y, s) {
        i := MatchSplit(x[1..], y, s);
      } else {
        var j := MatchSplit(x, y, s[1..]);
        i := j + 1;
        assert s[..i][1..] == s[1..][..j];
        assert s[i..] == s[1..][j..];
      }
    } else {
      assert (x + y)[0] == x[0] && (x + y)[1..] == x[1..] + y;
      var j := MatchSplit(x[1..], y, s[1..]);
      i := j + 1;
      assert s[..i][1..] == s[1..][..j];
      assert s[i..] == s[1..][j..];
    }
  }

  /** Matches of two patterns compose into a match of their concatenation. */
  lemma {:induction false} MatchConcat(x: string, y: string, a: string, b: string)
    requires Match(x, a) && Match(y, b)
    ensures Match(x + y, a + b)
    decreases |x| + |a|
  {
    if x == [] {
      assert x + y == y && a + b == b;
    } else if x[0] == '*' {
      assert (x + y)[0] == '*' && (x + y)[1..] == x[1..] + y;
      if Match(x[1..], a) {
        MatchConcat(x[1..], y, a, b);
      } else {
        MatchConcat(x, y, a[1..], b);
        assert (a + b)[1..] == a[1..] + b;
      }
    } else {
      assert (x + y)[0] == x[0] && (x + y)[1..] == x[1..] + y;
      MatchConcat(x[1..], y, a[1..], b);
      assert (a + b)[0] == a[0] && (a + b)[1..] == a[1..] + b;
    }
  }

  /** A pattern without `*` matches exactly itself. */
  lemma {:induction false} StarFreeMatch(x: string, s: string)
    requires StarFree(x)
    ensures Match(x, s) <==> s == x
    decreases |x|
  {
    if x != [] && s != [] {
      StarFreeMatch(x[1..], s[1..]);
      if s[0] == x[0] {
        assert s == [s[0]] + s[1..] && x == [x[0]] + x[1..];
      }
    }
  }

  /** `*` alone matches every string. */
  lemma {:induction false} StarMatchesAll(s: string)
    ensures Match("*", s)
    decreases |s|
  {
    assert "*"[1..] == [];
    if s != [] { StarMatchesAll(s[1..]); }
  }

  /** A literal piece of a pattern must appear verbatim in every string the pattern matches. */
  lemma MatchedLiteralOccurs(x: string, w: string, y: string, s: string)
    requires StarFree(w) && Match(x + w + y, s)
    ensures Occurs(w, s)
  {
    assert x + w + y == x + (w + y);
    var i := MatchSplit(x, w + y, s);
    var j := MatchSplit(w, y, s[i..]);
    StarFreeMatch(w, s[i..][..j]);
    assert s == s[..i] + s[i..][..j] + s[i..][j..];
    OccursAround(s[..i], w, s[i..][j..]);
  }

  /** Extending a pattern `q + "*"` by further text after its `*` only narrows what it matches. */
  lemma NarrowerAfterStar(q: string, rest: string, s: string)
    requires Match(q + "*" + rest, s)
    ensures Match(q + "*", s)
  {
    assert q + "*" + rest == q + ("*" + rest);
    var i := MatchSplit(q, "*" + rest, s);
    StarMatchesAll(s[i..]);
    MatchConcat(q, "*", s[..i], s[i..]);
    assert s[..i] + s[i..] == s;
  }

  /** Some pattern in `patterns` matches `key`. */
  predicate MatchesSome(patterns: seq<string>, key: string)
    decreases |patterns|
  {
    |patterns| > 0 && (MatchesSome(patterns[..|patterns| - 1], key) || Match(patterns[|patterns| - 1], key))
  }

  lemma {:induction false} MatchesSomeWitness(patterns: seq<string>, key: string) returns (i: nat)
    requires MatchesSome(patterns, key)
    ensures i < |patterns| && Match(patterns[i], key)
    decreases |patterns|
  {
    var last := |patterns| - 1;
    if Match(patterns[last], key) {
      i := last;
    } else {
      i := MatchesSomeWitness(patterns[..last], key);
    }
  }

  lemma {:induction false} MatchesSomeIntro(patterns: seq<string>, key: string, i: nat)
    requires i < |patterns| && Match(patterns[i], key)
    ensures MatchesSome(patterns, key)
    decreases |patterns|
  {
    var last := |patterns| - 1;
    if i < last {
      MatchesSomeIntro(patterns[..last], key, i);
    }
  }

  /** Appending a pattern adds exactly the keys it matches. */
  lemma MatchesSomeExtend(patterns: seq<string>, p: string, key: string)
    ensures MatchesSome(patterns + [p], key) <==> MatchesSome(patterns, key) || Match(p, key)
  {
    assert (patterns + [p])[..|patterns|] == patterns;
  }

  /** A key matched by a prefix of the pattern list is matched by the whole list. */
  lemma MatchesSomePrefix(patterns: seq<string>, n: nat, key: string)
    requires n <= |patterns| && MatchesSome(patterns[..n], key)
    ensures MatchesSome(patterns, key)
  {
    var i := MatchesSomeWitness(patterns[..n], key);
    MatchesSomeIntro(patterns, key, i);
  }
}
