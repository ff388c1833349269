/** Filtering, mapping and stable sorting of lists, as Go's slices package provides them. */
module Lists {

  datatype Option<+T> = None | Some(value: T)

  /** The elements of `s` that satisfy `p`, in order. */
  function Keep<T>(s: seq<T>, p: T -> bool): (r: seq<T>)
  {
    if s == [] then []
    else if p(s[|s| - 1]) then Keep(s[..|s| - 1], p) + [s[|s| - 1]]
    else Keep(s[..|s| - 1], p)
  }

  /** `f` applied to every element, in order. */
  function Map<S, T>(s: seq<S>, f: S -> T): (r: seq<T>)
    ensures |r| == |s|
    ensures forall i :: 0 <= i < |s| ==> r[i] == f(s[i])
  {
    seq(|s|, i requires 0 <= i < |s| => f(s[i]))
  }

  function ToSet<T(!new)>(s: seq<T>): (r: set<T>)
    ensures forall x :: x in r <==> x in s
  {
    set x | x in s
  }

  predicate Distinct<T(==)>(s: seq<T>)
  {
    forall i, j :: 0 <= i < j < |s| ==> s[i] != s[j]
  }

  /** A list without repetition holding exactly the elements of a set. */
  predicate Listing<T(==, !new)>(s: seq<T>, elements: set<T>)
  {
    Distinct(s) && ToSet(s) == elements
  }

  lemma ListingSnoc<T(!new)>(s: seq<T>, elements: set<T>, x: T)
    requires Listing(s, elements) && x !in elements
    ensures Listing(s + [x], elements + {x})
  {
    assert x !in ToSet(s);
  }

  lemma ConcatAssoc<T>(a: seq<T>, b: seq<T>, c: seq<T>)
    ensures a + (b + c) == (a + b) + c
  {
  }

  /** `tail` is the end of `s`. */
  predicate IsTail<T(==)>(s: seq<T>, tail: seq<T>)
  {
    |tail| <= |s| && s[|s| - |tail|..] == tail
  }

  lemma TailTransitive<T>(s: seq<T>, mid: seq<T>, tail: seq<T>)
    requires IsTail(s, mid) && IsTail(mid, tail)
    ensures IsTail(s, tail)
  {
    assert s[|s| - |tail|..] == s[|s| - |mid|..][|mid| - |tail|..];
  }

  lemma TailsNest<T>(s: seq<T>, a: seq<T>, b: seq<T>)
    requires IsTail(s, a) && IsTail(s, b) && |a| <= |b|
    ensures IsTail(b, a)
  {
    assert s[|s| - |a|..] == s[|s| - |b|..][|b| - |a|..];
  }

  lemma TailOfConcat<T>(front: seq<T>, tail: seq<T>)
    ensures IsTail(front + tail, tail)
  {
  }

  /** A tail of a list with one element in front is a tail of the list, or the whole of it. */
  lemma TailOfCons<T>(x: T, rest: seq<T>, tail: seq<T>)
    ensures IsTail([x] + rest, tail) <==> IsTail(rest, tail) || tail == [x] + rest
  {
    var s := [x] + rest;
    if |tail| <= |rest| {
      assert s[|s| - |tail|..] == rest[|rest| - |tail|..];
    } else if |tail| == |s| {
      assert s[0..] == s;
    }
  }

  lemma TailHead<T>(x: T, rest: seq<T>, tail: seq<T>)
    requires tail == [x] + rest
    ensures tail != [] && tail[0] == x
  {
  }

  lemma TailBelowBoth<T>(x: T, y: T, rest: seq<T>, tail: seq<T>)
    requires x != y && IsTail([x] + rest, tail) && IsTail([y] + rest, tail)
    ensures IsTail(rest, tail)
  {
    TailOfCons(x, rest, tail);
    TailOfCons(y, rest, tail);
    if tail == [x] + rest {
      TailHead(x, rest, tail);
    }
    if tail == [y] + rest {
      TailHead(y, rest, tail);
    }
  }

  /** Appending one element: the loop step of every accumulator loop. */
  lemma {:induction false} KeepSnoc<T>(s: seq<T>, x: T, p: T -> bool)
    ensures Keep(s + [x], p) == Keep(s, p) + (if p(x) then [x] else [])
  {
    assert (s + [x])[..|s|] == s;
  }

  lemma {:induction false} KeepConcat<T>(a: seq<T>, b: seq<T>, p: T -> bool)
    ensures Keep(a + b, p) == Keep(a, p) + Keep(b, p)
  {
    if b == [] {
      assert a + b == a;
    } else {
      var m := |b| - 1;
      KeepConcat(a, b[..m], p);
      assert a + b == (a + b[..m]) + [b[m]];
      KeepSnoc(a + b[..m], b[m], p);
    }
  }

  lemma {:induction false} KeepMembers<T>(s: seq<T>, p: T -> bool)
    ensures forall x :: x in Keep(s, p) <==> x in s && p(x)
  {
    if s == [] {
    } else {
      KeepMembers(s[..|s| - 1], p);
      assert s == s[..|s| - 1] + [s[|s| - 1]];
    }
  }

  lemma {:induction false} KeepAll<T>(s: seq<T>, p: T -> bool)
    requires forall x :: x in s ==> p(x)
    ensures Keep(s, p) == s
  {
    if s == [] {
    } else {
      KeepAll(s[..|s| - 1], p);
      assert s == s[..|s| - 1] + [s[|s| - 1]];
    }
  }

  lemma {:induction false} KeepNone<T>(s: seq<T>, p: T -> bool)
    requires forall x :: x in s ==> !p(x)
    ensures Keep(s, p) == []
  {
    if s == [] {
    } else {
      KeepNone(s[..|s| - 1], p);
    }
  }

  lemma {:induction false} KeepDistinct<T>(s: seq<T>, p: T -> bool)
    requires Distinct(s)
    ensures Distinct(Keep(s, p))
  {
    if s == [] {
    } else {
      KeepDistinct(s[..|s| - 1], p);
      KeepMembers(s[..|s| - 1], p);
    }
  }

  /** Two predicates that agree on the elements keep the same elements. */
  lemma {:induction false} KeepCongruent<T>(s: seq<T>, p: T -> bool, q: T -> bool)
    requires forall x :: x in s ==> p(x) == q(x)
    ensures Keep(s, p) == Keep(s, q)
  {
    if s == [] {
    } else {
      KeepCongruent(s[..|s| - 1], p, q);
    }
  }

  lemma {:induction false} KeepMultiset<T>(s: seq<T>, p: T -> bool, x: T)
    ensures multiset(Keep(s, p))[x] == if p(x) then multiset(s)[x] else 0
  {
    if s == [] {
    } else {
      KeepMultiset(s[..|s| - 1], p, x);
      assert s == s[..|s| - 1] + [s[|s| - 1]];
    }
  }

  /** Filtering commutes with reordering. */
  lemma {:induction false} KeepPermuted<T(!new)>(a: seq<T>, b: seq<T>, p: T -> bool)
    requires multiset(a) == multiset(b)
    ensures multiset(Keep(a, p)) == multiset(Keep(b, p))
  {
    var ka, kb := multiset(Keep(a, p)), multiset(Keep(b, p));
    forall x ensures ka[x] == kb[x] {
      KeepMultiset(a, p, x);
      KeepMultiset(b, p, x);
    }
    assert ka == kb;
  }

  lemma SameMembers<T>(a: seq<T>, b: seq<T>)
    requires multiset(a) == multiset(b)
    ensures forall x :: x in a <==> x in b
  {
    forall x ensures x in a <==> x in b {
      assert x in a <==> x in multiset(a);
      assert x in b <==> x in multiset(b);
    }
  }

  /** A list and a list with the same elements counted have the same length. */
  lemma SameLength<T>(a: seq<T>, b: seq<T>)
    requires multiset(a) == multiset(b)
    ensures |a| == |b|
  {
    assert |multiset(a)| == |a|;
    assert |multiset(b)| == |b|;
  }

  lemma CountedOnce<T>(s: seq<T>, i: nat, j: nat)
    requires i < j < |s| && multiset(s)[s[i]] <= 1
    ensures s[i] != s[j]
  {
    var a, b := s[..j], s[j..];
    assert s == a + b && s[i] == a[i] && s[j] == b[0];
    assert s[i] in a && s[j] in b;
    assert multiset(s) == multiset(a) + multiset(b);
  }

  lemma {:induction false} DistinctCountsOnce<T>(s: seq<T>, x: T)
    requires Distinct(s)
    ensures multiset(s)[x] <= 1
  {
    if s == [] {
    } else {
      DistinctCountsOnce(s[1..], x);
      assert s == [s[0]] + s[1..];
      assert s[0] !in s[1..];
    }
  }

  /** Two listings of one set are the same elements, counted. */
  lemma ListingsPermuted<T(!new)>(a: seq<T>, b: seq<T>, elements: set<T>)
    requires Listing(a, elements) && Listing(b, elements)
    ensures multiset(a) == multiset(b)
  {
    forall x ensures multiset(a)[x] == multiset(b)[x] {
      DistinctCountsOnce(a, x);
      DistinctCountsOnce(b, x);
      assert (x in a <==> x in ToSet(a)) && (x in b <==> x in ToSet(b));
      assert (x in a <==> x in multiset(a)) && (x in b <==> x in multiset(b));
    }
  }

  // ---------------------------------------------------------------- sorting

  ghost predicate Preorder<T(!new)>(leq: (T, T) -> bool)
  {
    && (forall x, y :: leq(x, y) || leq(y, x))
    && (forall x, y, z :: leq(x, y) && leq(y, z) ==> leq(x, z))
  }

  predicate Sorted<T>(s: seq<T>, leq: (T, T) -> bool)
  {
    forall i, j :: 0 <= i < j < |s| ==> leq(s[i], s[j])
  }

  /** `x` placed behind every element that does not come strictly after it. */
  function Insert<T>(s: seq<T>, x: T, leq: (T, T) -> bool): (r: seq<T>)
  {
    if s == [] || leq(s[|s| - 1], x) then s + [x]
    else Insert(s[..|s| - 1], x, leq) + [s[|s| - 1]]
  }

  /** Stable sort: equal elements keep their order. */
  function SortBy<T>(s: seq<T>, leq: (T, T) -> bool): (r: seq<T>)
  {
    if s == [] then [] else Insert(SortBy(s[..|s| - 1], leq), s[|s| - 1], leq)
  }

  lemma {:induction false} InsertMultiset<T>(s: seq<T>, x: T, leq: (T, T) -> bool)
    ensures multiset(Insert(s, x, leq)) == multiset(s) + multiset{x}
  {
    if s != [] && !leq(s[|s| - 1], x) {
      InsertMultiset(s[..|s| - 1], x, leq);
      assert s == s[..|s| - 1] + [s[|s| - 1]];
    }
  }

  lemma {:induction false} InsertSorted<T(!new)>(s: seq<T>, x: T, leq: (T, T) -> bool)
    requires Preorder(leq) && Sorted(s, leq)
    ensures Sorted(Insert(s, x, leq), leq)
  {
    if s != [] && !leq(s[|s| - 1], x) {
      var m := |s| - 1;
      var front := Insert(s[..m], x, leq);
      InsertSorted(s[..m], x, leq);
      InsertMultiset(s[..m], x, leq);
      forall y | y in front ensures leq(y, s[m]) {
        assert y in multiset(front);
      }
    }
  }

  lemma {:induction false} InsertMapped<S, T>(s: seq<S>, x: S, leq: (S, S) -> bool, f: S -> T)
    ensures multiset(Map(Insert(s, x, leq), f)) == multiset(Map(s, f)) + multiset{f(x)}
  {
    if s == [] || leq(s[|s| - 1], x) {
      assert Map(s + [x], f) == Map(s, f) + [f(x)];
    } else {
      var front, last := s[..|s| - 1], s[|s| - 1];
      InsertMapped(front, x, leq, f);
      assert Map(Insert(front, x, leq) + [last], f) == Map(Insert(front, x, leq), f) + [f(last)];
      assert Map(s, f) == Map(front, f) + [f(last)];
    }
  }

  /** Sorting does not change what the elements map to, counted. */
  lemma {:induction false} SortMapped<S, T>(s: seq<S>, leq: (S, S) -> bool, f: S -> T)
    ensures multiset(Map(SortBy(s, leq), f)) == multiset(Map(s, f))
  {
    if s == [] {
    } else {
      var front, last := s[..|s| - 1], s[|s| - 1];
      SortMapped(front, leq, f);
      InsertMapped(SortBy(front, leq), last, leq, f);
      assert Map(s, f) == Map(front, f) + [f(last)];
    }
  }

  /** Filtering by what the elements map to commutes with mapping. */
  lemma {:induction false} MapKeep<S, T>(s: seq<S>, f: S -> T, p: T -> bool, q: S -> bool)
    requires forall x :: x in s ==> q(x) == p(f(x))
    ensures Map(Keep(s, q), f) == Keep(Map(s, f), p)
  {
    if s == [] {
    } else {
      var front, last := s[..|s| - 1], s[|s| - 1];
      MapKeep(front, f, p, q);
      assert Map(s, f)[..|s| - 1] == Map(front, f);
      assert last in s;
      if q(last) {
        assert Map(Keep(front, q) + [last], f) == Map(Keep(front, q), f) + [f(last)];
      }
    }
  }

  lemma {:induction false} SortMultiset<T>(s: seq<T>, leq: (T, T) -> bool)
    ensures multiset(SortBy(s, leq)) == multiset(s)
  {
    if s == [] {
    } else {
      var front, last := s[..|s| - 1], s[|s| - 1];
      SortMultiset(front, leq);
      InsertMultiset(SortBy(front, leq), last, leq);
      assert multiset(s) == multiset(front) + multiset{last} by {
        assert s == front + [last];
      }
    }
  }

  lemma {:induction false} SortMembers<T>(s: seq<T>, leq: (T, T) -> bool)
    ensures forall x :: x in SortBy(s, leq) <==> x in s
  {
    SortMultiset(s, leq);
    SameMembers(SortBy(s, leq), s);
  }

  lemma {:induction false} SortSorted<T(!new)>(s: seq<T>, leq: (T, T) -> bool)
    requires Preorder(leq)
    ensures Sorted(SortBy(s, leq), leq)
  {
    if s == [] {
    } else {
      SortSorted(s[..|s| - 1], leq);
      InsertSorted(SortBy(s[..|s| - 1], leq), s[|s| - 1], leq);
    }
  }

  /** Sorting what is already sorted changes nothing. */
  /** All elements that satisfy `p` tie. */
  ghost predicate Tied<T(!new)>(p: T -> bool, leq: (T, T) -> bool)
  {
    forall x, y :: p(x) && p(y) ==> leq(x, y)
  }

  lemma {:induction false} InsertStable<T(!new)>(s: seq<T>, x: T, leq: (T, T) -> bool, p: T -> bool)
    requires Tied(p, leq)
    ensures Keep(Insert(s, x, leq), p) == if p(x) then Keep(s, p) + [x] else Keep(s, p)
  {
    if s == [] || leq(s[|s| - 1], x) {
      KeepSnoc(s, x, p);
    } else {
      var front, last := s[..|s| - 1], s[|s| - 1];
      InsertStable(front, x, leq, p);
      KeepSnoc(Insert(front, x, leq), last, p);
    }
  }

  /** Elements that tie keep their order. */
  lemma {:induction false} SortStable<T(!new)>(s: seq<T>, leq: (T, T) -> bool, p: T -> bool)
    requires Tied(p, leq)
    ensures Keep(SortBy(s, leq), p) == Keep(s, p)
  {
    if s == [] {
    } else {
      SortStable(s[..|s| - 1], leq, p);
      InsertStable(SortBy(s[..|s| - 1], leq), s[|s| - 1], leq, p);
    }
  }

  lemma {:induction false} SortedIsFixed<T>(s: seq<T>, leq: (T, T) -> bool)
    requires Sorted(s, leq)
    ensures SortBy(s, leq) == s
  {
    if s == [] {
    } else {
      var front, last := s[..|s| - 1], s[|s| - 1];
      SortedIsFixed(front, leq);
      assert Insert(front, last, leq) == front + [last];
    }
  }

  /** Elements that all come after `a` are sorted on their own, behind `a`. */
  lemma {:induction false} SortAppend<T(!new)>(a: seq<T>, b: seq<T>, leq: (T, T) -> bool)
    requires Preorder(leq)
    requires forall x, y :: x in a && y in b ==> leq(x, y)
    ensures SortBy(a + b, leq) == SortBy(a, leq) + SortBy(b, leq)
  {
    if b == [] {
      assert a + b == a;
    } else {
      var m := |b| - 1;
      SortAppend(a, b[..m], leq);
      assert (a + b)[..|a + b| - 1] == a + b[..m];
      SortMembers(a, leq);
      InsertBehind(SortBy(a, leq), SortBy(b[..m], leq), b[m], leq);
    }
  }

  lemma {:induction false} InsertBehind<T>(a: seq<T>, b: seq<T>, x: T, leq: (T, T) -> bool)
    requires forall y :: y in a ==> leq(y, x)
    ensures Insert(a + b, x, leq) == a + Insert(b, x, leq)
  {
    if b == [] {
      assert a + b == a;
    } else if !leq(b[|b| - 1], x) {
      InsertBehind(a, b[..|b| - 1], x, leq);
      assert (a + b)[..|a + b| - 1] == a + b[..|b| - 1];
    }
  }

  /** No two elements of `s` compare equal in both directions. */
  ghost predicate NoTies<T>(s: seq<T>, leq: (T, T) -> bool)
  {
    forall x, y :: x in s && y in s && leq(x, y) && leq(y, x) ==> x == y
  }

  /** A sorted list without ties, taken apart at its last element, which is its greatest. */
  lemma TakeLast<T(!new)>(s: seq<T>, leq: (T, T) -> bool) returns (front: seq<T>, last: T)
    requires s != [] && Sorted(s, leq) && Preorder(leq) && NoTies(s, leq)
    ensures s == front + [last] && Sorted(front, leq) && NoTies(front, leq)
    ensures multiset(front) == multiset(s) - multiset{last}
    ensures last in s && forall x :: x in s ==> leq(x, last)
  {
    front, last := s[..|s| - 1], s[|s| - 1];
    assert s == front + [last];
    forall x | x in s ensures leq(x, last) {
      var i :| 0 <= i < |s| && s[i] == x;
    }
  }

  /** Two sorted arrangements of the same elements agree when no two elements tie. */
  lemma {:induction false} SortedUnique<T(!new)>(a: seq<T>, b: seq<T>, leq: (T, T) -> bool)
    requires Sorted(a, leq) && Sorted(b, leq) && Preorder(leq)
    requires multiset(a) == multiset(b) && NoTies(a, leq) && NoTies(b, leq)
    ensures a == b
    decreases |a|
  {
    SameLength(a, b);
    if a == [] {
    } else {
      SameMembers(a, b);
      var frontA, lastA := TakeLast(a, leq);
      var frontB, lastB := TakeLast(b, leq);
      assert lastA == lastB;
      SortedUnique(frontA, frontB, leq);
    }
  }

  /** The order of the input does not matter when no two elements tie. */
  lemma {:induction false} SortPermuted<T(!new)>(a: seq<T>, b: seq<T>, leq: (T, T) -> bool)
    requires Preorder(leq) && multiset(a) == multiset(b) && NoTies(a, leq)
    ensures SortBy(a, leq) == SortBy(b, leq)
  {
    SortMultiset(a, leq);
    SortMultiset(b, leq);
    SortSorted(a, leq);
    SortSorted(b, leq);
    SortMembers(a, leq);
    SortMembers(b, leq);
    SameMembers(a, b);
    SortedUnique(SortBy(a, leq), SortBy(b, leq), leq);
  }
}
