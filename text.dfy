/** Python string operations used by the cache and the settings, on `seq<char>`:
    substring search, code-point ordering, str(int), int(str), str.lower and str.replace. */
module Text {
  import opened Results

  /** `w in s`: `w` occurs as a contiguous piece of `s`. */
  predicate Occurs(w: string, s: string)
    decreases |s|
  {
    if |s| < |w| then false
    else if s[..|w|] == w then true
    else |s| > 0 && Occurs(w, s[1..])
  }

  lemma {:induction false} OccursAround(a: string, w: string, b: string)
    ensures Occurs(w, a + w + b)
    decreases |a|
  {
    var s := a + w + b;
    if a == [] {
      assert s[..|w|] == w;
    } else {
      OccursAround(a[1..], w, b);
      assert s[1..] == a[1..] + w + b;
      if s[..|w|] != w {
        assert |s| > 0 && Occurs(w, s[1..]);
      }
    }
  }

  /** A piece that lacks the first character of `w` cannot contain `w`. */
  lemma {:induction false} FirstCharAbsent(w: string, s: string)
    requires |w| > 0 && w[0] !in s
    ensures !Occurs(w, s)
    decreases |s|
  {
    if |s| >= |w| {
      assert s[..|w|][0] == s[0];
      FirstCharAbsent(w, s[1..]);
    }
  }

  /** No occurrence of `w` can start in `prefix` and reach into a short `tail` that begins
      with a character `w` does not contain, nor lie within that tail. */
  lemma {:induction false} NoOccurrenceAcross(w: string, prefix: string, tail: string)
    requires !Occurs(w, prefix)
    requires 0 < |tail| < |w| && tail[0] !in w
    ensures !Occurs(w, prefix + tail)
    decreases |prefix|
  {
    var s := prefix + tail;
    if |s| >= |w| {
      if |prefix| >= |w| {
        assert s[..|w|] == prefix[..|w|];
      } else {
        assert s[..|w|][|prefix|] == tail[0];
      }
      assert s[..|w|] != w;
      assert |prefix| > 0;
      assert !Occurs(w, prefix[1..]);
      NoOccurrenceAcross(w, prefix[1..], tail);
      assert s[1..] == prefix[1..] + tail;
    }
  }

  /** No occurrence of `w` fits in a text whose only candidate start lies too close to its end. */
  lemma {:induction false} NoRoomAfter(w: string, x: string, y: string)
    requires |w| > 0 && w[0] !in x && |y| < |w|
    ensures !Occurs(w, x + y)
    decreases |x|
  {
    var t := x + y;
    if |t| >= |w| {
      assert x != [];
      assert t[..|w|][0] == x[0];
      assert t[1..] == x[1..] + y;
      NoRoomAfter(w, x[1..], y);
    }
  }

  /** Python's ordering of str values: lexicographic on code points. */
  predicate Less(a: string, b: string)
  {
    if a == [] then b != []
    else b != [] && (a[0] < b[0] || (a[0] == b[0] && Less(a[1..], b[1..])))
  }

  lemma {:induction false} LessIrreflexive(a: string)
    ensures !Less(a, a)
  {
    if a != [] { LessIrreflexive(a[1..]); }
  }

  lemma {:induction false} LessTransitive(a: string, b: string, c: string)
    requires Less(a, b) && Less(b, c)
    ensures Less(a, c)
  {
    if a != [] && a[0] == b[0] && b[0] == c[0] {
      LessTransitive(a[1..], b[1..], c[1..]);
    }
  }

  lemma {:induction false} LessTotal(a: string, b: string)
    requires a != b
    ensures Less(a, b) || Less(b, a)
  {
    if a != [] && b != [] && a[0] == b[0] {
      assert a == [a[0]] + a[1..] && b == [b[0]] + b[1..];
      LessTotal(a[1..], b[1..]);
    }
  }

  predicate IsDigit(c: char) { '0' <= c <= '9' }

  predicate AllDigits(s: string) { forall i :: 0 <= i < |s| ==> IsDigit(s[i]) }

  function DigitChar(d: nat): (c: char)
    requires d < 10
    ensures IsDigit(c) && c as int - '0' as int == d
  {
    ('0' as int + d) as char
  }

  /** str(n) for a natural number: decimal digits, no leading zeros. */
  function NatToString(n: nat): (s: string)
    ensures |s| > 0 && AllDigits(s)
    decreases n
  {
    if n < 10 then [DigitChar(n)] else NatToString(n / 10) + [DigitChar(n % 10)]
  }

  /** str(i) / f"{i}" for a Python int. */
  function IntToString(i: int): string
  {
    if i < 0 then "-" + NatToString(-i) else NatToString(i)
  }

  /** The value of a string of decimal digits. */
  function DigitsValue(s: string): nat
    requires AllDigits(s)
  {
    if s == [] then 0 else DigitsValue(s[..|s| - 1]) * 10 + (s[|s| - 1] as int - '0' as int)
  }

  /** int(s): an optional sign followed by at least one decimal digit; anything else raises ValueError. */
  function ParseInt(s: string): Option<int>
  {
    if |s| > 0 && (s[0] == '-' || s[0] == '+') then
      if |s| > 1 && AllDigits(s[1..]) then
        var magnitude: int := DigitsValue(s[1..]);
        Some(if s[0] == '-' then -magnitude else magnitude)
      else None
    else if |s| > 0 && AllDigits(s) then Some(DigitsValue(s))
    else None
  }

  lemma {:induction false} NatToStringRoundTrip(n: nat)
    ensures DigitsValue(NatToString(n)) == n
    decreases n
  {
    if n >= 10 {
      NatToStringRoundTrip(n / 10);
      var s := NatToString(n);
      assert s[..|s| - 1] == NatToString(n / 10);
    }
  }

  /** int(str(i)) == i. */
  lemma IntToStringRoundTrip(i: int)
    ensures ParseInt(IntToString(i)) == Some(i)
  {
    var s := IntToString(i);
    if i < 0 {
      assert s[1..] == NatToString(-i);
      NatToStringRoundTrip(-i);
    } else {
      NatToStringRoundTrip(i);
    }
  }

  function LowerChar(c: char): char
  {
    if 'A' <= c <= 'Z' then (c as int + 32) as char else c
  }

  /** str.lower() on ASCII letters. */
  function ToLower(s: string): string
  {
    seq(|s|, i requires 0 <= i < |s| => LowerChar(s[i]))
  }

  /** s.replace(pat, rep): every non-overlapping occurrence, scanned left to right, in one pass. */
  function ReplaceAll(s: string, pat: string, rep: string): (r: string)
    requires |pat| > 0
    ensures !Occurs(pat, s) ==> r == s
    decreases |s|
  {
    if |s| < |pat| then s
    else if s[..|pat|] == pat then rep + ReplaceAll(s[|pat|..], pat, rep)
    else [s[0]] + ReplaceAll(s[1..], pat, rep)
  }

  /** s.replace(pat, rep, 1): only the leftmost occurrence. */
  function ReplaceFirst(s: string, pat: string, rep: string): (r: string)
    requires |pat| > 0
    ensures !Occurs(pat, s) ==> r == s
    decreases |s|
  {
    if |s| < |pat| then s
    else if s[..|pat|] == pat then rep + s[|pat|..]
    else [s[0]] + ReplaceFirst(s[1..], pat, rep)
  }

  /** A leading occurrence is the one replace(..., 1) rewrites; what follows is kept verbatim. */
  lemma ReplaceFirstAtStart(pat: string, rest: string, rep: string)
    requires |pat| > 0
    ensures ReplaceFirst(pat + rest, pat, rep) == rep + rest
  {
    assert (pat + rest)[..|pat|] == pat;
    assert (pat + rest)[|pat|..] == rest;
  }

  /** A piece holding no character that could start `pat` passes through replace() untouched. */
  lemma {:induction false} ReplaceAllSkips(a: string, b: string, pat: string, rep: string)
    requires |pat| > 0 && pat[0] !in a
    ensures ReplaceAll(a + b, pat, rep) == a + ReplaceAll(b, pat, rep)
    decreases |a|
  {
    if a != [] {
      var s := a + b;
      if |s| >= |pat| {
        assert s[..|pat|][0] == a[0] && s[0] == a[0];
        assert s[..|pat|] != pat;
        assert s[1..] == a[1..] + b;
        ReplaceAllSkips(a[1..], b, pat, rep);
        calc {
          ReplaceAll(s, pat, rep);
          [a[0]] + ReplaceAll(a[1..] + b, pat, rep);
          [a[0]] + (a[1..] + ReplaceAll(b, pat, rep));
          { assert [a[0]] + a[1..] == a; }
          a + ReplaceAll(b, pat, rep);
        }
      } else {
        assert ReplaceAll(b, pat, rep) == b;
        assert ReplaceAll(s, pat, rep) == s;
      }
    } else {
      assert a + b == b;
    }
  }

  /** replace() turns a whole occurrence at the front into the replacement. */
  lemma ReplaceAllAtStart(pat: string, rest: string, rep: string)
    requires |pat| > 0
    ensures ReplaceAll(pat + rest, pat, rep) == rep + ReplaceAll(rest, pat, rep)
  {
    assert (pat + rest)[..|pat|] == pat;
    assert (pat + rest)[|pat|..] == rest;
  }

  /** When no occurrence starts inside a non-empty `a`, none starts at its first character, and
      none starts inside the rest of it. */
  lemma NotAtFront(a: string, pat: string, b: string)
    requires |pat| > 0 && a != [] && !Occurs(pat, a + pat[..|pat| - 1])
    ensures |a + pat + b| >= |pat| && (a + pat + b)[..|pat|] != pat
    ensures (a + pat + b)[1..] == a[1..] + pat + b
    ensures !Occurs(pat, a[1..] + pat[..|pat| - 1])
  {
    var init := pat[..|pat| - 1];
    var t := a + init;
    var s := a + pat + b;
    assert t[..|pat|] != pat && !Occurs(pat, t[1..]) by {
      assert |t| >= |pat|;
    }
    assert s[..|pat|] == t[..|pat|] by {
      forall i | 0 <= i < |pat|
        ensures s[..|pat|][i] == t[..|pat|][i]
      {
      }
    }
    DropFirst(a, init);
    DropFirst(a, pat);
    DropFirst(a + pat, b);
  }

  /** Dropping the first character of a concatenation drops it from the left operand. */
  lemma DropFirst(x: string, y: string)
    requires x != []
    ensures (x + y)[1..] == x[1..] + y
  {
  }

  /** replace(pat, rep, 1) rewrites the first occurrence wherever it lies: when no occurrence
      starts inside `a`, the one after `a` is replaced and everything after it, later occurrences
      included, is kept verbatim. */
  lemma {:induction false} ReplaceFirstSplit(a: string, pat: string, b: string, rep: string)
    requires |pat| > 0 && !Occurs(pat, a + pat[..|pat| - 1])
    ensures ReplaceFirst(a + pat + b, pat, rep) == a + rep + b
    decreases |a|
  {
    if a == [] {
      assert a + pat + b == pat + b;
      ReplaceFirstAtStart(pat, b, rep);
    } else {
      var rest := a[1..] + pat + b;
      assert ReplaceFirst(a + pat + b, pat, rep) == [a[0]] + ReplaceFirst(rest, pat, rep) by {
        NotAtFront(a, pat, b);
        assert (a + pat + b)[0] == a[0];
      }
      assert ReplaceFirst(rest, pat, rep) == a[1..] + rep + b by {
        NotAtFront(a, pat, b);
        ReplaceFirstSplit(a[1..], pat, b, rep);
      }
      assert [a[0]] + (a[1..] + rep + b) == a + rep + b;
    }
  }

  /** replace(pat, rep) scans left to right: when no occurrence starts inside `a`, the first one
      after `a` is replaced and scanning resumes right after it. */
  lemma {:induction false} ReplaceAllSplit(a: string, pat: string, b: string, rep: string)
    requires |pat| > 0 && !Occurs(pat, a + pat[..|pat| - 1])
    ensures ReplaceAll(a + pat + b, pat, rep) == a + rep + ReplaceAll(b, pat, rep)
    decreases |a|
  {
    if a == [] {
      assert a + pat + b == pat + b;
      ReplaceAllAtStart(pat, b, rep);
    } else {
      var rest := a[1..] + pat + b;
      var tail := ReplaceAll(b, pat, rep);
      assert ReplaceAll(a + pat + b, pat, rep) == [a[0]] + ReplaceAll(rest, pat, rep) by {
        NotAtFront(a, pat, b);
        assert (a + pat + b)[0] == a[0];
      }
      assert ReplaceAll(rest, pat, rep) == a[1..] + rep + tail by {
        NotAtFront(a, pat, b);
        ReplaceAllSplit(a[1..], pat, b, rep);
      }
      assert [a[0]] + (a[1..] + rep + tail) == a + rep + tail;
    }
  }
}
