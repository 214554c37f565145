/**
 * The array operations of the JavaScript runtime that the snippets rely on,
 * stated as functions on sequences: `Array.prototype.filter`, `map`, `slice`
 * and the (stable) `sort`.
 */
module Sequences {

  /** `s.filter(p)`: the elements satisfying `p`, in their original order. */
  function Filter<T(!new)>(s: seq<T>, p: T -> bool): (r: seq<T>)
    ensures |r| <= |s|
  {
    if s == [] then []
    else
      var rest := Filter(s[1..], p);
      assert s == [s[0]] + s[1..];
      if p(s[0]) then [s[0]] + rest else rest
  }

  /** Filtering a concatenation filters each part, so the relative order of the kept elements is the input order. */
  lemma {:induction false} FilterAppend<T(!new)>(s: seq<T>, t: seq<T>, p: T -> bool)
    ensures Filter(s + t, p) == Filter(s, p) + Filter(t, p)
  {
    if s == [] {
      assert s + t == t;
    } else {
      assert (s + t)[1..] == s[1..] + t;
      FilterAppend(s[1..], t, p);
    }
  }

  /** The filter keeps every occurrence of an element satisfying the predicate, and nothing else. */
  lemma {:induction false} FilterCounts<T(!new)>(s: seq<T>, p: T -> bool, x: T)
    ensures multiset(Filter(s, p))[x] == if p(x) then multiset(s)[x] else 0
  {
    if s != [] {
      FilterCounts(s[1..], p, x);
      assert s == [s[0]] + s[1..];
    }
  }

  /** Every element of the filtered sequence satisfies the predicate and comes from the input. */
  lemma FilterMembers<T(!new)>(s: seq<T>, p: T -> bool, x: T)
    ensures x in Filter(s, p) <==> x in s && p(x)
  {
    FilterCounts(s, p, x);
    assert x in Filter(s, p) <==> multiset(Filter(s, p))[x] > 0;
    assert x in s <==> multiset(s)[x] > 0;
  }

  /** `s.map(f)`. */
  function MapSeq<T, U>(s: seq<T>, f: T -> U): (r: seq<U>)
    ensures |r| == |s|
    ensures forall i :: 0 <= i < |s| ==> r[i] == f(s[i])
  {
    seq(|s|, i requires 0 <= i < |s| => f(s[i]))
  }

  /** Mapping distributes over concatenation. */
  lemma MapSeqAppend<T, U>(s: seq<T>, t: seq<T>, f: T -> U)
    ensures MapSeq(s + t, f) == MapSeq(s, f) + MapSeq(t, f)
  {
    var l, r := MapSeq(s + t, f), MapSeq(s, f) + MapSeq(t, f);
    forall i | 0 <= i < |l|
      ensures l[i] == r[i]
    {
      if i < |s| {
        assert (s + t)[i] == s[i];
      } else {
        assert (s + t)[i] == t[i - |s|];
      }
    }
  }

  /** The index `Array.prototype.slice` computes from a relative position. */
  function ClampIndex(rel: int, len: nat): (k: nat)
    ensures k <= len
  {
    if rel < 0 then (if len + rel < 0 then 0 else len + rel)
    else if rel < len then rel else len
  }

  /** `s.slice(start, end)`, including the counting-from-the-end meaning of negative bounds. */
  function JsSlice<T>(s: seq<T>, start: int, end: int): (r: seq<T>)
    ensures |r| <= |s|
  {
    var from := ClampIndex(start, |s|);
    var to := ClampIndex(end, |s|);
    if to <= from then [] else s[from..to]
  }

  /** A slice from 0 with a positive bound is the prefix of that length (or everything). */
  lemma SlicePrefix<T>(s: seq<T>, n: int)
    requires n > 0
    ensures JsSlice(s, 0, n) == s[..if n < |s| then n else |s|]
    ensures |JsSlice(s, 0, n)| <= n
  {
  }

  /** A slice from 0 with a negative bound drops that many elements from the end. */
  lemma SliceNegative<T>(s: seq<T>, n: int)
    requires n < 0
    ensures JsSlice(s, 0, n) == s[..if |s| + n < 0 then 0 else |s| + n]
  {
  }

  /** A total preorder: what a comparator must be for a sort to be meaningful. */
  ghost predicate TotalPreorder<T(!new)>(leq: (T, T) -> bool) {
    && (forall a, b :: leq(a, b) || leq(b, a))
    && (forall a, b, c :: leq(a, b) && leq(b, c) ==> leq(a, c))
  }

  predicate Sorted<T>(s: seq<T>, leq: (T, T) -> bool) {
    forall i, j :: 0 <= i < j < |s| ==> leq(s[i], s[j])
  }

  /**
   * Inserts `x` after every leading element that is not strictly greater than it,
   * so that `x` goes after the elements that compare equal to it.
   */
  function Insert<T>(x: T, s: seq<T>, leq: (T, T) -> bool): (r: seq<T>)
    ensures multiset(r) == multiset(s) + multiset{x}
  {
    if s == [] then [x]
    else if !leq(s[0], x) then [x] + s
    else
      assert s == [s[0]] + s[1..];
      [s[0]] + Insert(x, s[1..], leq)
  }

  /** `s.sort(cmp)` with `leq(a, b)` meaning "cmp(a, b) is not positive". */
  function SortBy<T>(s: seq<T>, leq: (T, T) -> bool): (r: seq<T>)
    ensures multiset(r) == multiset(s)
    ensures |r| == |s|
  {
    if s == [] then []
    else
      var init, last := s[..|s| - 1], s[|s| - 1];
      assert s == init + [last];
      assert multiset(s) == multiset(init) + multiset{last};
      Insert(last, SortBy(init, leq), leq)
  }

  lemma {:induction false} InsertSorted<T(!new)>(x: T, s: seq<T>, leq: (T, T) -> bool)
    requires TotalPreorder(leq)
    requires Sorted(s, leq)
    ensures Sorted(Insert(x, s, leq), leq)
  {
    if s != [] && leq(s[0], x) {
      InsertSorted(x, s[1..], leq);
      var r := Insert(x, s[1..], leq);
      forall y | y in r ensures leq(s[0], y) {
        assert y in multiset(r);
        if y != x {
          assert y in multiset(s[1..]);
          var k :| 0 <= k < |s[1..]| && s[1..][k] == y;
          assert s[k + 1] == y;
        }
      }
      forall i, j | 0 <= i < j < |[s[0]] + r| ensures leq(([s[0]] + r)[i], ([s[0]] + r)[j]) {
        if i == 0 {
          assert ([s[0]] + r)[j] in r;
        }
      }
    } else if s != [] {
      forall i, j | 0 <= i < j < |[x] + s| ensures leq(([x] + s)[i], ([x] + s)[j]) {
        if i == 0 {
          assert leq(x, s[0]);
          if j > 1 {
            assert leq(s[0], s[j - 1]);
          }
        } else {
          assert ([x] + s)[i] == s[i - 1] && ([x] + s)[j] == s[j - 1];
        }
      }
    }
  }

  /** With a comparator that is a total preorder, the sort's output is ordered; it is always a permutation. */
  lemma {:induction false} SortBySorted<T(!new)>(s: seq<T>, leq: (T, T) -> bool)
    requires TotalPreorder(leq)
    ensures Sorted(SortBy(s, leq), leq)
  {
    if s != [] {
      SortBySorted(s[..|s| - 1], leq);
      InsertSorted(s[|s| - 1], SortBy(s[..|s| - 1], leq), leq);
    }
  }

  /** An element that no element of `s` is greater than goes to the end: equal elements keep their order. */
  lemma {:induction false} InsertAfterAll<T>(x: T, s: seq<T>, leq: (T, T) -> bool)
    requires forall i :: 0 <= i < |s| ==> leq(s[i], x)
    ensures Insert(x, s, leq) == s + [x]
  {
    if s != [] {
      InsertAfterAll(x, s[1..], leq);
      assert [s[0]] + (s[1..] + [x]) == s + [x];
    }
  }

  /** A sequence whose elements all compare equal comes back unchanged. */
  lemma {:induction false} SortByAllEquivalent<T>(s: seq<T>, leq: (T, T) -> bool)
    requires forall i, j :: 0 <= i < |s| && 0 <= j < |s| ==> leq(s[i], s[j])
    ensures SortBy(s, leq) == s
  {
    if s != [] {
      var init, last := s[..|s| - 1], s[|s| - 1];
      SortByAllEquivalent(init, leq);
      InsertAfterAll(last, init, leq);
      assert init + [last] == s;
    }
  }
}
