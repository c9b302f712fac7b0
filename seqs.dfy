/** The list operations the model layer performs on id lists and key orders:
    `includes`-guarded `push`, `filter(x => x !== t)`, and the notion of an
    ordered subsequence that `Array.prototype.filter` produces. */
module Seqs {

  /** No element occurs twice. */
  predicate Distinct<T(==)>(s: seq<T>)
  {
    forall i, j :: 0 <= i < j < |s| ==> s[i] != s[j]
  }

  /** `a` is obtained from `b` by dropping elements and keeping the order of
      the rest. */
  predicate IsSubsequence<T(==)>(a: seq<T>, b: seq<T>)
    decreases |b|
  {
    a == [] || (b != [] && ((a[0] == b[0] && IsSubsequence(a[1..], b[1..])) || IsSubsequence(a, b[1..])))
  }

  /** `if (!s.includes(x)) s.push(x)`: append `x` unless it is present. */
  function AddIfAbsent(s: seq<int>, x: int): (r: seq<int>)
    ensures x in r
    ensures |s| <= |r| <= |s| + 1 && r[..|s|] == s
    ensures forall y :: y in r <==> y in s || y == x
    ensures x in s ==> r == s
    ensures Distinct(s) ==> Distinct(r)
  {
    if x in s then s else s + [x]
  }

  /** Adding an element that is already there changes nothing, so adding
      twice is the same as adding once. */
  lemma AddIfAbsentIdempotent(s: seq<int>, x: int)
    ensures AddIfAbsent(AddIfAbsent(s, x), x) == AddIfAbsent(s, x)
  {
  }

  /** `s.filter(y => y !== x)`: every occurrence of `x` is removed. */
  function RemoveAll(s: seq<int>, x: int): (r: seq<int>)
    ensures x !in r
    ensures forall y :: y in r <==> y in s && y != x
    ensures |r| <= |s|
    ensures x !in s ==> r == s
  {
    if s == [] then []
    else (if s[0] == x then [] else [s[0]]) + RemoveAll(s[1..], x)
  }

  /** Removing every `x` from a concatenation removes it from each part. */
  lemma {:induction false} RemoveAllAppend(a: seq<int>, b: seq<int>, x: int)
    ensures RemoveAll(a + b, x) == RemoveAll(a, x) + RemoveAll(b, x)
  {
    if a == [] {
      assert a + b == b;
    } else {
      assert (a + b)[1..] == a[1..] + b;
      RemoveAllAppend(a[1..], b, x);
    }
  }

  /** Other elements keep their multiplicity; `x` is gone entirely. */
  lemma {:induction false} RemoveAllCounts(s: seq<int>, x: int, y: int)
    ensures multiset(RemoveAll(s, x))[y] == if y == x then 0 else multiset(s)[y]
  {
    if s != [] {
      RemoveAllCounts(s[1..], x, y);
      assert s == [s[0]] + s[1..];
      assert multiset(s) == multiset([s[0]]) + multiset(s[1..]);
    }
  }

  /** The survivors keep their relative order. */
  lemma {:induction false} RemoveAllIsSubsequence(s: seq<int>, x: int)
    ensures IsSubsequence(RemoveAll(s, x), s)
  {
    if s != [] {
      RemoveAllIsSubsequence(s[1..], x);
      if s[0] == x {
        assert RemoveAll(s, x) == RemoveAll(s[1..], x);
      } else {
        assert RemoveAll(s, x) == [s[0]] + RemoveAll(s[1..], x);
        assert RemoveAll(s, x)[1..] == RemoveAll(s[1..], x);
      }
    }
  }

  /** Removing an element that occurs once, at index `j`, cuts out exactly
      that position. */
  lemma {:induction false} RemoveAllDistinct(s: seq<int>, j: nat)
    requires Distinct(s) && j < |s|
    ensures RemoveAll(s, s[j]) == s[..j] + s[j + 1..]
  {
    assert s[0] !in s[1..];
    if j == 0 {
      assert RemoveAll(s, s[0]) == RemoveAll(s[1..], s[0]);
    } else {
      assert s[1..][j - 1] == s[j];
      RemoveAllDistinct(s[1..], j - 1);
      assert s[1..][..j - 1] == s[1..j];
      assert s[1..][j..] == s[j + 1..];
      assert s[..j] == [s[0]] + s[1..j];
    }
  }

  /** Removing preserves the absence of duplicates. */
  lemma {:induction false} RemoveAllKeepsDistinct(s: seq<int>, x: int)
    requires Distinct(s)
    ensures Distinct(RemoveAll(s, x))
  {
    if s != [] {
      RemoveAllKeepsDistinct(s[1..], x);
      assert s[0] !in s[1..];
    }
  }
}
