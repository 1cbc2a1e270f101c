/** Sequence operations the source gets from `Array.prototype`: `filter` and the
    stable comparator-driven `sort`, with the facts the rest of the model relies on. */
module Seqs {

  /** `a` is `b` with zero or more elements dropped and the rest kept in their order. */
  predicate IsSubsequence<T(==,!new)>(a: seq<T>, b: seq<T>)
    decreases |b|
  {
    a == [] || (b != [] && ((a[0] == b[0] && IsSubsequence(a[1..], b[1..])) || IsSubsequence(a, b[1..])))
  }

  /** Dropping no element is dropping elements. */
  lemma {:induction false} SubsequenceReflexive<T(!new)>(s: seq<T>)
    ensures IsSubsequence(s, s)
  {
    if s != [] {
      SubsequenceReflexive(s[1..]);
    }
  }

  /** Dropping elements twice is dropping elements once. */
  lemma {:induction false} SubsequenceTransitive<T(!new)>(a: seq<T>, b: seq<T>, c: seq<T>)
    requires IsSubsequence(a, b) && IsSubsequence(b, c)
    ensures IsSubsequence(a, c)
    decreases |c|
  {
    if a != [] {
      if IsSubsequence(b, c[1..]) {
        SubsequenceTransitive(a, b, c[1..]);
      } else if a[0] == b[0] && IsSubsequence(a[1..], b[1..]) {
        SubsequenceTransitive(a[1..], b[1..], c[1..]);
      } else {
        SubsequenceTransitive(a, b[1..], c[1..]);
      }
    }
  }

  /** `s.filter(p)`: exactly the elements that satisfy `p`, each as often as in `s`,
      in their original order. */
  function Filter<T(==,!new)>(s: seq<T>, p: T -> bool): (r: seq<T>)
    ensures |r| <= |s|
    decreases |s|
  {
    if s == [] then []
    else
      var rest := Filter(s[1..], p);
      if p(s[0]) then [s[0]] + rest else rest
  }

  /** `filter` keeps exactly the elements that pass. */
  lemma {:induction false} FilterMembers<T(!new)>(s: seq<T>, p: T -> bool)
    ensures forall x :: x in Filter(s, p) <==> x in s && p(x)
  {
    if s != [] {
      FilterMembers(s[1..], p);
      assert s == [s[0]] + s[1..];
    }
  }

  /** `s.filter(p)` keeps the elements it keeps in their original order. */
  lemma {:induction false} FilterIsSubsequence<T(!new)>(s: seq<T>, p: T -> bool)
    ensures IsSubsequence(Filter(s, p), s)
  {
    if s != [] {
      FilterIsSubsequence(s[1..], p);
      var rest := Filter(s[1..], p);
      if p(s[0]) {
        assert ([s[0]] + rest)[1..] == rest;
      }
    }
  }

  /** `s.filter(p)` keeps every element that satisfies `p` exactly as often as it
      occurs in `s`, and no other element. */
  lemma {:induction false} FilterMultiplicity<T(!new)>(s: seq<T>, p: T -> bool)
    ensures forall x :: multiset(Filter(s, p))[x] == if p(x) then multiset(s)[x] else 0
  {
    if s != [] {
      FilterMultiplicity(s[1..], p);
      assert s == [s[0]] + s[1..];
      assert multiset(s) == multiset{s[0]} + multiset(s[1..]);
    }
  }

  /** The predicate that holds where both `p` and `q` hold. */
  function Both<T>(p: T -> bool, q: T -> bool): T -> bool {
    x => p(x) && q(x)
  }

  /** The predicate that holds where `p` does not. */
  function Not<T>(p: T -> bool): T -> bool {
    x => !p(x)
  }

  /** The predicate that holds where `p` or `q` holds. */
  function Either<T>(p: T -> bool, q: T -> bool): T -> bool {
    x => p(x) || q(x)
  }

  /** `filter` on a non-empty list: the head if it passes, then the filtered tail. */
  lemma FilterCons<T(!new)>(s: seq<T>, p: T -> bool)
    requires s != []
    ensures Filter(s, p) == (if p(s[0]) then [s[0]] else []) + Filter(s[1..], p)
  {
  }

  lemma {:induction false} FilterAppend<T(!new)>(a: seq<T>, b: seq<T>, p: T -> bool)
    ensures Filter(a + b, p) == Filter(a, p) + Filter(b, p)
  {
    if a == [] {
      assert a + b == b;
    } else {
      assert (a + b)[0] == a[0];
      assert (a + b)[1..] == a[1..] + b;
      FilterCons(a + b, p);
      FilterCons(a, p);
      FilterAppend(a[1..], b, p);
    }
  }

  /** Two filters in a row keep what their conjunction keeps. */
  lemma {:induction false} FilterFilter<T(!new)>(s: seq<T>, p: T -> bool, q: T -> bool)
    ensures Filter(Filter(s, p), q) == Filter(s, Both(p, q))
  {
    if s != [] {
      var head := if p(s[0]) then [s[0]] else [];
      FilterAppend(head, Filter(s[1..], p), q);
      FilterFilter(s[1..], p, q);
    }
  }

  /** Filters whose predicates agree on every element give the same result. */
  lemma {:induction false} FilterExt<T(!new)>(s: seq<T>, p: T -> bool, q: T -> bool)
    requires forall i | 0 <= i < |s| :: p(s[i]) == q(s[i])
    ensures Filter(s, p) == Filter(s, q)
  {
    if s != [] {
      FilterExt(s[1..], p, q);
    }
  }

  /** A filter that every element passes returns its input. */
  lemma {:induction false} FilterKeepsAll<T(!new)>(s: seq<T>, p: T -> bool)
    requires forall i | 0 <= i < |s| :: p(s[i])
    ensures Filter(s, p) == s
  {
    if s != [] {
      FilterKeepsAll(s[1..], p);
    }
  }

  /** A filter no element passes returns nothing. */
  lemma {:induction false} FilterKeepsNone<T(!new)>(s: seq<T>, p: T -> bool)
    requires forall i | 0 <= i < |s| :: !p(s[i])
    ensures Filter(s, p) == []
  {
    if s != [] {
      FilterKeepsNone(s[1..], p);
    }
  }

  /** A filter that only the element at `i` fails removes just that element. */
  lemma FilterDropsOne<T(!new)>(s: seq<T>, i: nat, p: T -> bool)
    requires i < |s| && !p(s[i])
    requires forall j | 0 <= j < |s| && j != i :: p(s[j])
    ensures Filter(s, p) == s[..i] + s[i + 1..]
  {
    var front, here, back := s[..i], s[i..], s[i + 1..];
    forall j | 0 <= j < |front|
      ensures p(front[j])
    {
      assert front[j] == s[j];
    }
    forall j | 0 <= j < |back|
      ensures p(back[j])
    {
      assert back[j] == s[i + 1 + j];
    }
    assert here[1..] == back;
    calc {
      Filter(s, p);
    == { assert s == front + here; }
      Filter(front + here, p);
    == { FilterAppend(front, here, p); }
      Filter(front, p) + Filter(here, p);
    == { FilterKeepsAll(front, p); }
      front + Filter(here, p);
    == { FilterCons(here, p); }
      front + Filter(back, p);
    == { FilterKeepsAll(back, p); }
      front + back;
    }
  }

  /** Every element either passes `p` or fails it. */
  lemma {:induction false} FilterPartition<T(!new)>(s: seq<T>, p: T -> bool)
    ensures |Filter(s, p)| + |Filter(s, Not(p))| == |s|
  {
    if s != [] {
      FilterPartition(s[1..], p);
    }
  }

  /** A weaker predicate keeps at least as many elements. */
  lemma {:induction false} FilterMonotone<T(!new)>(s: seq<T>, p: T -> bool, q: T -> bool)
    requires forall i | 0 <= i < |s| :: p(s[i]) ==> q(s[i])
    ensures |Filter(s, p)| <= |Filter(s, q)|
  {
    if s != [] {
      FilterMonotone(s[1..], p, q);
    }
  }

  /** Counts of two predicates that never hold together add up. */
  lemma {:induction false} FilterDisjointCount<T(!new)>(s: seq<T>, p: T -> bool, q: T -> bool)
    requires forall i | 0 <= i < |s| :: !(p(s[i]) && q(s[i]))
    ensures |Filter(s, Either(p, q))| == |Filter(s, p)| + |Filter(s, q)|
  {
    if s != [] {
      FilterDisjointCount(s[1..], p, q);
    }
  }

  // ---------------------------------------------------------------------------
  // Array.prototype.sort with a comparator. The sort of ES2019 onwards is stable:
  // `a` stays before `b` unless cmp(a, b) > 0.

  /** The comparator orders values consistently: the relation cmp(a, b) <= 0 is
      total and transitive. */
  ghost predicate IsTotalPreorder<T(!new)>(cmp: (T, T) -> int) {
    && (forall a, b :: cmp(a, b) <= 0 || cmp(b, a) <= 0)
    && (forall a, b, c :: cmp(a, b) <= 0 && cmp(b, c) <= 0 ==> cmp(a, c) <= 0)
  }

  /** No later element compares smaller than an earlier one. */
  ghost predicate SortedBy<T>(s: seq<T>, cmp: (T, T) -> int) {
    forall i, j | 0 <= i < j < |s| :: cmp(s[i], s[j]) <= 0
  }

  /** Inserts `x` in front of the first element it may precede. */
  function Insert<T(==,!new)>(x: T, s: seq<T>, cmp: (T, T) -> int): (r: seq<T>)
    ensures multiset(r) == multiset(s) + multiset{x}
  {
    if s == [] then [x]
    else if cmp(x, s[0]) <= 0 then [x] + s
    else
      assert s == [s[0]] + s[1..];
      [s[0]] + Insert(x, s[1..], cmp)
  }

  /** `[...s].sort(cmp)`: a stable insertion sort; its result is a permutation of `s`. */
  function Sort<T(==,!new)>(s: seq<T>, cmp: (T, T) -> int): (r: seq<T>)
    ensures multiset(r) == multiset(s)
  {
    if s == [] then []
    else
      assert s == [s[0]] + s[1..];
      Insert(s[0], Sort(s[1..], cmp), cmp)
  }

  lemma {:induction false} InsertSorted<T(!new)>(x: T, s: seq<T>, cmp: (T, T) -> int)
    requires IsTotalPreorder(cmp) && SortedBy(s, cmp)
    ensures SortedBy(Insert(x, s, cmp), cmp)
  {
    if s == [] {
    } else if cmp(x, s[0]) <= 0 {
      var r := [x] + s;
      forall i, j | 0 <= i < j < |r|
        ensures cmp(r[i], r[j]) <= 0
      {
        if i == 0 && j > 1 {
          assert r[j] == s[j - 1];
          assert cmp(s[0], s[j - 1]) <= 0;
        }
      }
    } else {
      InsertSorted(x, s[1..], cmp);
      var rest := Insert(x, s[1..], cmp);
      assert cmp(s[0], x) <= 0;
      assert forall k | 0 <= k < |s[1..]| :: cmp(s[0], s[1..][k]) <= 0 by {
        forall k | 0 <= k < |s[1..]|
          ensures cmp(s[0], s[1..][k]) <= 0
        {
          assert s[1..][k] == s[k + 1];
        }
      }
      InsertAbove(s[0], x, s[1..], cmp);
      var r := [s[0]] + rest;
      forall i, j | 0 <= i < j < |r|
        ensures cmp(r[i], r[j]) <= 0
      {
        if i == 0 {
          assert r[j] == rest[j - 1];
        } else {
          assert r[i] == rest[i - 1] && r[j] == rest[j - 1];
        }
      }
    }
  }

  /** A lower bound of `x` and of every element of `s` bounds every element of
      `Insert(x, s, cmp)`. */
  lemma InsertAbove<T(!new)>(a: T, x: T, s: seq<T>, cmp: (T, T) -> int)
    requires cmp(a, x) <= 0
    requires forall k | 0 <= k < |s| :: cmp(a, s[k]) <= 0
    ensures forall k | 0 <= k < |Insert(x, s, cmp)| :: cmp(a, Insert(x, s, cmp)[k]) <= 0
  {
    var r := Insert(x, s, cmp);
    forall k | 0 <= k < |r|
      ensures cmp(a, r[k]) <= 0
    {
      var y := r[k];
      assert y in multiset(r);
      if y != x {
        assert y in multiset(s);
        var m :| 0 <= m < |s| && s[m] == y;
      }
    }
  }

  /** The sorted result is in comparator order. */
  lemma {:induction false} SortSorted<T(!new)>(s: seq<T>, cmp: (T, T) -> int)
    requires IsTotalPreorder(cmp)
    ensures SortedBy(Sort(s, cmp), cmp)
  {
    if s != [] {
      SortSorted(s[1..], cmp);
      InsertSorted(s[0], Sort(s[1..], cmp), cmp);
    }
  }

  /** The values that compare equal to `a`. */
  function TiedWith<T>(cmp: (T, T) -> int, a: T): T -> bool {
    b => cmp(a, b) <= 0 && cmp(b, a) <= 0
  }

  /** Two values in strict order are never both tied with the same value. */
  lemma TiesAreOrdered<T(!new)>(x: T, y: T, cmp: (T, T) -> int, a: T)
    requires IsTotalPreorder(cmp) && cmp(x, y) > 0
    ensures !(TiedWith(cmp, a)(x) && TiedWith(cmp, a)(y))
  {
  }

  lemma {:induction false} InsertTies<T(!new)>(x: T, s: seq<T>, cmp: (T, T) -> int, a: T)
    requires IsTotalPreorder(cmp) && SortedBy(s, cmp)
    ensures Filter(Insert(x, s, cmp), TiedWith(cmp, a))
         == (if TiedWith(cmp, a)(x) then [x] else []) + Filter(s, TiedWith(cmp, a))
  {
    var tied := TiedWith(cmp, a);
    if s == [] {
      FilterCons([x], tied);
    } else if cmp(x, s[0]) <= 0 {
      FilterCons([x] + s, tied);
      assert ([x] + s)[1..] == s;
    } else {
      assert SortedBy(s[1..], cmp);
      InsertTies(x, s[1..], cmp, a);
      TiesAreOrdered(x, s[0], cmp, a);
      InsertTiesPast(x, s, cmp, tied);
    }
  }

  /** Two heads, one of them empty, may be concatenated in either order. */
  lemma SwapEmptyHead<T>(a: seq<T>, b: seq<T>, c: seq<T>)
    requires a == [] || b == []
    ensures a + (b + c) == b + (a + c)
  {
  }

  /** The step of `InsertTies` where `x` goes past the head of the list. */
  lemma InsertTiesPast<T(!new)>(x: T, s: seq<T>, cmp: (T, T) -> int, tied: T -> bool)
    requires s != [] && cmp(x, s[0]) > 0 && !(tied(x) && tied(s[0]))
    requires Filter(Insert(x, s[1..], cmp), tied) == (if tied(x) then [x] else []) + Filter(s[1..], tied)
    ensures Filter(Insert(x, s, cmp), tied) == (if tied(x) then [x] else []) + Filter(s, tied)
  {
    var rest := Insert(x, s[1..], cmp);
    var hx := if tied(x) then [x] else [];
    var h0 := if tied(s[0]) then [s[0]] else [];
    var tail := Filter(s[1..], tied);
    assert Insert(x, s, cmp) == [s[0]] + rest;
    assert ([s[0]] + rest)[1..] == rest;
    calc {
      Filter(Insert(x, s, cmp), tied);
    == { FilterCons([s[0]] + rest, tied); }
      h0 + Filter(rest, tied);
    ==
      h0 + (hx + tail);
    == { SwapEmptyHead(h0, hx, tail); }
      hx + (h0 + tail);
    == { FilterCons(s, tied); }
      hx + Filter(s, tied);
    }
  }

  /** Stability: the elements that compare equal to any given value come out in
      the order they went in. */
  lemma {:induction false} SortStable<T(!new)>(s: seq<T>, cmp: (T, T) -> int, a: T)
    requires IsTotalPreorder(cmp)
    ensures Filter(Sort(s, cmp), TiedWith(cmp, a)) == Filter(s, TiedWith(cmp, a))
  {
    if s != [] {
      SortStable(s[1..], cmp, a);
      SortSorted(s[1..], cmp);
      InsertTies(s[0], Sort(s[1..], cmp), cmp, a);
    }
  }
}
