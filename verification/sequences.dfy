/** Sequence orderings used by the two places the system sorts tasks: the
    server's `ORDER BY` and the timeline's `Array.prototype.sort`. Both are
    given as a stable insertion sort under a "may precede" relation `le`. */
module Sequences {

  /** `x` placed before the first element it may precede. */
  function Insert<T>(x: T, s: seq<T>, le: (T, T) -> bool): (r: seq<T>)
    ensures |r| == |s| + 1
    ensures multiset(r) == multiset(s) + multiset{x}
    ensures r[0] == x || (s != [] && r[0] == s[0])
  {
    if s == [] then [x]
    else if le(x, s[0]) then [x] + s
    else assert s == [s[0]] + s[1..]; [s[0]] + Insert(x, s[1..], le)
  }

  /** Stable insertion sort: an element is never moved past a later one it may precede. */
  function SortBy<T>(s: seq<T>, le: (T, T) -> bool): (r: seq<T>)
    ensures |r| == |s|
    ensures multiset(r) == multiset(s)
  {
    if s == [] then [] else assert s == [s[0]] + s[1..]; Insert(s[0], SortBy(s[1..], le), le)
  }

  ghost predicate Sorted<T>(s: seq<T>, le: (T, T) -> bool)
  {
    forall i, j :: 0 <= i < j < |s| ==> le(s[i], s[j])
  }

  /** Every element may precede its successor. */
  ghost predicate Chained<T>(s: seq<T>, le: (T, T) -> bool)
  {
    forall i :: 0 <= i < |s| - 1 ==> le(s[i], s[i + 1])
  }

  /** `le` is total on the elements of `s`. */
  ghost predicate TotalOn<T>(s: seq<T>, le: (T, T) -> bool)
  {
    forall a, b :: a in s && b in s ==> le(a, b) || le(b, a)
  }

  /** `le` is transitive on the elements of `s`. */
  ghost predicate TransitiveOn<T>(s: seq<T>, le: (T, T) -> bool)
  {
    forall a, b, c :: a in s && b in s && c in s && le(a, b) && le(b, c) ==> le(a, c)
  }

  lemma {:induction false} InsertChained<T>(x: T, s: seq<T>, le: (T, T) -> bool)
    requires Chained(s, le)
    requires forall a :: a in s ==> le(x, a) || le(a, x)
    ensures Chained(Insert(x, s, le), le)
  {
    if s != [] && !le(x, s[0]) {
      var t := s[1..];
      assert s[0] in s;
      assert forall a :: a in t ==> a in s;
      InsertChained(x, t, le);
      var rest := Insert(x, t, le);
      if t != [] {
        assert le(s[0], t[0]);
      }
      assert le(s[0], rest[0]);
      assert Insert(x, s, le) == [s[0]] + rest;
    }
  }

  lemma {:induction false} SortByChained<T>(s: seq<T>, le: (T, T) -> bool)
    requires TotalOn(s, le)
    ensures Chained(SortBy(s, le), le)
  {
    if s != [] {
      var t := s[1..];
      assert forall a :: a in t ==> a in s;
      SortByChained(t, le);
      var sorted := SortBy(t, le);
      forall a | a in sorted ensures le(s[0], a) || le(a, s[0]) {
        assert a in multiset(sorted);
        assert a in multiset(t);
        assert s[0] in s;
      }
      InsertChained(s[0], sorted, le);
    }
  }

  /** Under a transitive `le`, a chain is sorted. */
  lemma {:induction false} ChainedSorted<T>(s: seq<T>, le: (T, T) -> bool)
    requires Chained(s, le) && TransitiveOn(s, le)
    ensures Sorted(s, le)
  {
    if s != [] {
      var t := s[1..];
      assert forall a :: a in t ==> a in s;
      ChainedSorted(t, le);
      forall j | 1 <= j < |s| ensures le(s[0], s[j]) {
        var k := 1;
        while k < j
          invariant 1 <= k <= j && le(s[0], s[k])
        {
          assert s[0] in s && s[k] in s && s[k + 1] in s;
          k := k + 1;
        }
      }
      forall i, j | 0 <= i < j < |s| ensures le(s[i], s[j]) {
        if i > 0 { assert s[i] == t[i - 1] && s[j] == t[j - 1]; }
      }
    }
  }

  /** Under a total, transitive `le`, the sort returns its input in non-decreasing order. */
  lemma SortBySorted<T>(s: seq<T>, le: (T, T) -> bool)
    requires TotalOn(s, le) && TransitiveOn(s, le)
    ensures Sorted(SortBy(s, le), le)
  {
    var r := SortBy(s, le);
    SortByChained(s, le);
    assert forall a :: a in r ==> a in s by {
      forall a | a in r ensures a in s { assert a in multiset(r); }
    }
    ChainedSorted(r, le);
  }

  /** `sub` is `s` with some elements left out and the rest in their original order. */
  predicate IsSubsequence<T(==)>(sub: seq<T>, s: seq<T>)
  {
    if sub == [] then true
    else if s == [] then false
    else if sub[0] == s[0] then IsSubsequence(sub[1..], s[1..])
    else IsSubsequence(sub, s[1..])
  }

  lemma {:induction false} SubsequenceReflexive<T>(s: seq<T>)
    ensures IsSubsequence(s, s)
  {
    if s != [] {
      SubsequenceReflexive(s[1..]);
    }
  }

  lemma {:induction false} SubsequenceCons<T>(sub: seq<T>, x: T, s: seq<T>)
    requires IsSubsequence(sub, s)
    ensures IsSubsequence(sub, [x] + s) && IsSubsequence([x] + sub, [x] + s)
    decreases |s|, 1
  {
    assert ([x] + s)[1..] == s;
    assert ([x] + sub)[1..] == sub;
    if sub != [] && sub[0] == x {
      // matched greedily against x, so what remains must embed in s
      SubsequenceTail(sub, s);
    }
  }

  lemma {:induction false} SubsequenceTail<T>(sub: seq<T>, s: seq<T>)
    requires sub != [] && IsSubsequence(sub, s)
    ensures IsSubsequence(sub[1..], s)
    decreases |s|, 0
  {
    if s != [] {
      if sub[0] == s[0] {
        SubsequenceCons(sub[1..], s[0], s[1..]);
        assert [s[0]] + s[1..] == s;
      } else {
        SubsequenceTail(sub, s[1..]);
        SubsequenceCons(sub[1..], s[0], s[1..]);
        assert [s[0]] + s[1..] == s;
      }
    }
  }
}
