/** Order-preserving selection over sequences: the model of `Array.prototype.filter`. */
module Seqs {

  /** The elements of `s` that satisfy `keep`, in their original order. */
  function Filter<T>(s: seq<T>, keep: T -> bool): (r: seq<T>)
    ensures |r| <= |s|
    ensures forall x :: x in r ==> x in s && keep(x)
  {
    if s == [] then []
    else if keep(s[0]) then [s[0]] + Filter(s[1..], keep)
    else Filter(s[1..], keep)
  }

  /** `a` is obtained from `b` by deleting elements, without reordering. */
  predicate IsSubsequence<T(==)>(a: seq<T>, b: seq<T>)
    decreases |b|
  {
    if a == [] then true
    else if b == [] then false
    else if a[0] == b[0] then IsSubsequence(a[1..], b[1..])
    else IsSubsequence(a, b[1..])
  }

  /** Filtering keeps the survivors in their original relative order. */
  lemma {:induction false} FilterIsSubsequence<T>(s: seq<T>, keep: T -> bool)
    ensures IsSubsequence(Filter(s, keep), s)
  {
    if s != [] {
      FilterIsSubsequence(s[1..], keep);
      var rest := Filter(s[1..], keep);
      if keep(s[0]) {
        assert ([s[0]] + rest)[1..] == rest;
      } else if rest != [] {
        assert rest[0] in rest;
        assert rest[0] != s[0];
      }
    }
  }

  /** Every element that satisfies `keep` survives, as often as it occurs; no other element does. */
  lemma {:induction false} FilterCount<T>(s: seq<T>, keep: T -> bool, x: T)
    ensures multiset(Filter(s, keep))[x] == if keep(x) then multiset(s)[x] else 0
  {
    if s != [] {
      FilterCount(s[1..], keep, x);
      assert s == [s[0]] + s[1..];
      assert multiset(s) == multiset([s[0]]) + multiset(s[1..]);
      if keep(s[0]) {
        assert multiset([s[0]] + Filter(s[1..], keep)) == multiset([s[0]]) + multiset(Filter(s[1..], keep));
      }
    }
  }

  /** Membership in the result is exactly membership in `s` together with `keep`. */
  lemma FilterMembers<T>(s: seq<T>, keep: T -> bool)
    ensures forall x :: x in Filter(s, keep) <==> x in s && keep(x)
  {
    forall x | x in s && keep(x) ensures x in Filter(s, keep) {
      FilterCount(s, keep, x);
    }
  }

  /** Filtering removes nothing exactly when every element satisfies `keep`. */
  lemma {:induction false} FilterAll<T>(s: seq<T>, keep: T -> bool)
    ensures Filter(s, keep) == s <==> forall i :: 0 <= i < |s| ==> keep(s[i])
  {
    if s != [] {
      FilterAll(s[1..], keep);
      if !keep(s[0]) {
        assert |Filter(s, keep)| < |s| by {
          assert Filter(s, keep) == Filter(s[1..], keep);
        }
      } else {
        forall i | 1 <= i < |s| ensures s[i] == s[1..][i - 1] { }
      }
    }
  }

  /** Filtering yields nothing exactly when no element satisfies `keep`. */
  lemma {:induction false} FilterNone<T>(s: seq<T>, keep: T -> bool)
    ensures Filter(s, keep) == [] <==> forall i :: 0 <= i < |s| ==> !keep(s[i])
  {
    if s != [] {
      FilterNone(s[1..], keep);
      forall i | 1 <= i < |s| ensures s[i] == s[1..][i - 1] { }
    }
  }

  /** Filtering distributes over concatenation. */
  lemma {:induction false} FilterConcat<T>(a: seq<T>, b: seq<T>, keep: T -> bool)
    ensures Filter(a + b, keep) == Filter(a, keep) + Filter(b, keep)
  {
    if a != [] {
      FilterConcat(a[1..], b, keep);
      assert (a + b)[1..] == a[1..] + b;
    } else {
      assert a + b == b;
    }
  }

  /** A one-element sequence keeps its element exactly when it passes. */
  lemma FilterSingle<T>(x: T, keep: T -> bool)
    ensures Filter([x], keep) == if keep(x) then [x] else []
  {
    assert [x][1..] == [];
  }

  lemma ConcatAssoc<T>(a: seq<T>, b: seq<T>, c: seq<T>)
    ensures a + (b + c) == (a + b) + c
  {
  }
}
