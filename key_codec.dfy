/** Cache-key derivation (`CacheService._generate_cache_key`): drop None-valued keyword
    arguments, order the rest by name, digest them, and prefix the category. */
module KeyCodec {
  import opened Text

  /** A keyword argument's value as json.dumps sees it; `Other` is an object json.dumps renders
      through str(), carrying that text. */
  datatype Arg = Null | Int(i: int) | Str(s: string) | Bool(b: bool) | Other(text: string)

  type Param = (string, Arg)

  /** The canonical digest input: non-None arguments in ascending name order. */
  type Canonical = seq<Param>

  predicate IsHexDigit(c: char) { '0' <= c <= '9' || 'a' <= c <= 'f' }

  predicate IsHex8(s: string) { |s| == 8 && forall i :: 0 <= i < |s| ==> IsHexDigit(s[i]) }

  type Hex8 = s: string | IsHex8(s) witness "00000000"

  /** Stands for `hashlib.md5(json.dumps(args, sort_keys=True, default=str).encode()).hexdigest()[:8]`:
      a deterministic function of the canonical arguments whose result is 8 lowercase hex digits. */
  type Digest = Canonical -> Hex8

  /** Keyword arguments have pairwise distinct names (Python guarantees it for **kwargs). */
  predicate DistinctNames(s: seq<Param>)
  {
    forall i, j :: 0 <= i < j < |s| ==> s[i].0 != s[j].0
  }

  /** The names of the keyword arguments. */
  function Names(kwargs: seq<Param>): set<string>
  {
    set p | p in kwargs :: p.0
  }

  /** `{k: v for k, v in kwargs.items() if v is not None}`, in the original order. */
  function NonNull(kwargs: seq<Param>): seq<Param>
  {
    if kwargs == [] then []
    else (if kwargs[0].1 == Null then [] else [kwargs[0]]) + NonNull(kwargs[1..])
  }

  function Insert(p: Param, s: seq<Param>): seq<Param>
  {
    if s == [] then [p]
    else if Less(p.0, s[0].0) then [p] + s
    else [s[0]] + Insert(p, s[1..])
  }

  /** The key order json.dumps(..., sort_keys=True) writes. */
  function SortByName(s: seq<Param>): seq<Param>
  {
    if s == [] then [] else Insert(s[0], SortByName(s[1..]))
  }

  function CanonicalForm(kwargs: seq<Param>): Canonical
  {
    SortByName(NonNull(kwargs))
  }

  /** `f"{prefix}:{key_hash}"`. */
  function CacheKey(prefix: string, kwargs: seq<Param>, digest: Digest): (key: string)
    ensures |key| == |prefix| + 9 && key[..|prefix|] == prefix && key[|prefix|] == ':'
    ensures IsHex8(key[|prefix| + 1..])
  {
    var hash := digest(CanonicalForm(kwargs));
    assert (prefix + ":" + hash)[|prefix| + 1..] == hash;
    prefix + ":" + hash
  }

  predicate StrictlySorted(s: seq<Param>)
  {
    forall i, j :: 0 <= i < j < |s| ==> Less(s[i].0, s[j].0)
  }

  /** Inserting an element above a bound into a sequence above that bound keeps everything above it. */
  lemma {:induction false} InsertAbove(bound: string, p: Param, s: seq<Param>)
    requires Less(bound, p.0) && forall i :: 0 <= i < |s| ==> Less(bound, s[i].0)
    ensures forall j :: 0 <= j < |Insert(p, s)| ==> Less(bound, Insert(p, s)[j].0)
    decreases |s|
  {
    if s != [] && !Less(p.0, s[0].0) {
      InsertAbove(bound, p, s[1..]);
    }
  }

  lemma {:induction false} InsertMultiset(p: Param, s: seq<Param>)
    ensures multiset(Insert(p, s)) == multiset(s) + multiset{p}
    decreases |s|
  {
    if s != [] {
      assert s == [s[0]] + s[1..];
      if !Less(p.0, s[0].0) { InsertMultiset(p, s[1..]); }
    }
  }

  lemma {:induction false} InsertSorted(p: Param, s: seq<Param>)
    requires StrictlySorted(s)
    requires forall i :: 0 <= i < |s| ==> s[i].0 != p.0
    ensures StrictlySorted(Insert(p, s))
    decreases |s|
  {
    if s == [] {
    } else if Less(p.0, s[0].0) {
      var r := [p] + s;
      forall j | 1 <= j < |r| ensures Less(r[0].0, r[j].0) {
        if j > 1 { LessTransitive(p.0, s[0].0, s[j - 1].0); }
      }
    } else {
      LessTotal(p.0, s[0].0);
      InsertSorted(p, s[1..]);
      InsertAbove(s[0].0, p, s[1..]);
    }
  }

  /** Sorting only reorders the arguments. */
  lemma {:induction false} SortByNameMultiset(s: seq<Param>)
    ensures multiset(SortByName(s)) == multiset(s)
    decreases |s|
  {
    if s != [] {
      SortByNameMultiset(s[1..]);
      InsertMultiset(s[0], SortByName(s[1..]));
      assert s == [s[0]] + s[1..];
    }
  }

  lemma {:induction false} SortByNameSorted(s: seq<Param>)
    requires DistinctNames(s)
    ensures StrictlySorted(SortByName(s))
    decreases |s|
  {
    if s != [] {
      assert DistinctNames(s[1..]);
      SortByNameSorted(s[1..]);
      SortByNameMultiset(s[1..]);
      var sorted := SortByName(s[1..]);
      forall i | 0 <= i < |sorted| ensures sorted[i].0 != s[0].0 {
        var q := sorted[i];
        assert q in multiset(sorted);
        assert q in multiset(s[1..]);
        var k :| 0 <= k < |s[1..]| && s[1..][k] == q;
        assert s[k + 1] == q;
      }
      InsertSorted(s[0], sorted);
    }
  }

  /** A strictly name-sorted sequence is determined by its elements. */
  lemma {:induction false} SortedUnique(a: seq<Param>, b: seq<Param>)
    requires StrictlySorted(a) && StrictlySorted(b)
    requires forall p :: p in a <==> p in b
    ensures a == b
    decreases |a|
  {
    if a == [] {
      assert forall k :: 0 <= k < |b| ==> b[k] in b;
    } else {
      assert a[0] in a;
      assert b != [];
      assert b[0] in b;
      if a[0] != b[0] {
        var j :| 0 <= j < |b| && b[j] == a[0];
        var i :| 0 <= i < |a| && a[i] == b[0];
        assert j > 0 && i > 0;
        LessTransitive(a[0].0, b[0].0, a[0].0);
        LessIrreflexive(a[0].0);
      }
      forall p ensures p in a[1..] <==> p in b[1..] {
        if p in a[1..] {
          var i :| 0 <= i < |a[1..]| && a[1..][i] == p;
          assert Less(a[0].0, a[i + 1].0);
          LessIrreflexive(a[0].0);
          assert p in b;
        }
        if p in b[1..] {
          var i :| 0 <= i < |b[1..]| && b[1..][i] == p;
          assert Less(b[0].0, b[i + 1].0);
          LessIrreflexive(b[0].0);
          assert p in a;
        }
      }
      SortedUnique(a[1..], b[1..]);
      assert a == [a[0]] + a[1..] && b == [b[0]] + b[1..];
    }
  }

  lemma {:induction false} NonNullMembers(kwargs: seq<Param>)
    ensures forall p :: p in NonNull(kwargs) <==> p in kwargs && p.1 != Null
    decreases |kwargs|
  {
    if kwargs != [] {
      NonNullMembers(kwargs[1..]);
      assert kwargs == [kwargs[0]] + kwargs[1..];
    }
  }

  lemma {:induction false} NonNullDistinct(kwargs: seq<Param>)
    requires DistinctNames(kwargs)
    ensures DistinctNames(NonNull(kwargs))
    decreases |kwargs|
  {
    if kwargs != [] {
      assert DistinctNames(kwargs[1..]);
      NonNullDistinct(kwargs[1..]);
      NonNullMembers(kwargs[1..]);
      var rest := NonNull(kwargs[1..]);
      forall q | q in rest ensures q.0 != kwargs[0].0 {
        var k :| 0 <= k < |kwargs[1..]| && kwargs[1..][k] == q;
        assert kwargs[k + 1] == q;
      }
    }
  }

  lemma {:induction false} NonNullConcat(x: seq<Param>, y: seq<Param>)
    ensures NonNull(x + y) == NonNull(x) + NonNull(y)
    decreases |x|
  {
    if x != [] {
      assert (x + y)[1..] == x[1..] + y;
      NonNullConcat(x[1..], y);
    } else {
      assert x + y == y;
    }
  }

  /** The canonical form is strictly name-sorted and holds exactly the non-None arguments. */
  lemma CanonicalFormMembers(kwargs: seq<Param>)
    requires DistinctNames(kwargs)
    ensures StrictlySorted(CanonicalForm(kwargs))
    ensures forall p :: p in CanonicalForm(kwargs) <==> p in kwargs && p.1 != Null
  {
    var filtered := NonNull(kwargs);
    NonNullDistinct(kwargs);
    NonNullMembers(kwargs);
    SortByNameSorted(filtered);
    SortByNameMultiset(filtered);
    var c := SortByName(filtered);
    forall p ensures p in c <==> p in filtered {
      assert p in c <==> p in multiset(c);
      assert p in filtered <==> p in multiset(filtered);
    }
  }

  /** The canonical form depends only on the set of non-None (name, value) pairs. */
  lemma CanonicalFormDeterminedByPairs(kw1: seq<Param>, kw2: seq<Param>)
    requires DistinctNames(kw1) && DistinctNames(kw2)
    requires forall p :: (p in kw1 && p.1 != Null) <==> (p in kw2 && p.1 != Null)
    ensures CanonicalForm(kw1) == CanonicalForm(kw2)
  {
    CanonicalFormMembers(kw1);
    CanonicalFormMembers(kw2);
    SortedUnique(CanonicalForm(kw1), CanonicalForm(kw2));
  }

  /** Reordering keyword arguments does not change the key. */
  lemma CacheKeyIgnoresOrder(prefix: string, kw1: seq<Param>, kw2: seq<Param>, digest: Digest)
    requires DistinctNames(kw1) && DistinctNames(kw2) && multiset(kw1) == multiset(kw2)
    ensures CacheKey(prefix, kw1, digest) == CacheKey(prefix, kw2, digest)
  {
    forall p ensures (p in kw1 && p.1 != Null) <==> (p in kw2 && p.1 != Null) {
      assert p in kw1 <==> p in multiset(kw1);
      assert p in kw2 <==> p in multiset(kw2);
    }
    CanonicalFormDeterminedByPairs(kw1, kw2);
  }

  /** Passing an argument as None gives the same key as leaving it out. */
  lemma NullSameAsOmitted(prefix: string, before: seq<Param>, name: string, after: seq<Param>, digest: Digest)
    ensures CacheKey(prefix, before + [(name, Null)] + after, digest) == CacheKey(prefix, before + after, digest)
  {
    NonNullConcat(before + [(name, Null)], after);
    NonNullConcat(before, [(name, Null)]);
    NonNullConcat(before, after);
    assert NonNull([(name, Null)]) == [];
    assert NonNull(before + [(name, Null)] + after) == NonNull(before + after);
  }

  /** Keys of different categories never coincide, whatever their arguments and digests. */
  lemma CategorySeparation(p1: string, kw1: seq<Param>, p2: string, kw2: seq<Param>, digest: Digest)
    requires p1 != p2
    ensures CacheKey(p1, kw1, digest) != CacheKey(p2, kw2, digest)
  {
  }
}
