/** Python's `sorted`: a stable sort by a key, described through an order on the elements. */
module Sorting {

  ghost predicate TotalPreorder<T(!new)>(leq: (T, T) -> bool) {
    && (forall a, b :: leq(a, b) || leq(b, a))
    && (forall a, b, c :: leq(a, b) && leq(b, c) ==> leq(a, c))
  }

  ghost predicate Sorted<T>(leq: (T, T) -> bool, s: seq<T>) {
    forall i, j :: 0 <= i < j < |s| ==> leq(s[i], s[j])
  }

  predicate Tied<T>(leq: (T, T) -> bool, a: T, b: T) {
    leq(a, b) && leq(b, a)
  }

  /** The elements of `s` that tie with `k`, in the order they occur. */
  function Ties<T>(leq: (T, T) -> bool, k: T, s: seq<T>): seq<T> {
    if s == [] then []
    else Ties(leq, k, s[..|s| - 1]) + if Tied(leq, s[|s| - 1], k) then [s[|s| - 1]] else []
  }

  function Insert<T>(leq: (T, T) -> bool, s: seq<T>, x: T): seq<T> {
    if s == [] || leq(s[|s| - 1], x) then s + [x]
    else Insert(leq, s[..|s| - 1], x) + [s[|s| - 1]]
  }

  function StableSort<T>(leq: (T, T) -> bool, s: seq<T>): seq<T> {
    if s == [] then [] else Insert(leq, StableSort(leq, s[..|s| - 1]), s[|s| - 1])
  }

  lemma {:induction false} InsertElements<T>(leq: (T, T) -> bool, s: seq<T>, x: T)
    ensures multiset(Insert(leq, s, x)) == multiset(s) + multiset{x}
  {
    if s != [] && !leq(s[|s| - 1], x) {
      var n := |s| - 1;
      assert s == s[..n] + [s[n]];
      InsertElements(leq, s[..n], x);
    }
  }

  lemma {:induction false} InsertSorted<T(!new)>(leq: (T, T) -> bool, s: seq<T>, x: T)
    requires TotalPreorder(leq) && Sorted(leq, s)
    ensures Sorted(leq, Insert(leq, s, x))
  {
    if s == [] {
    } else {
      var n := |s| - 1;
      if leq(s[n], x) {
        forall i | 0 <= i < n ensures leq(s[i], x) { assert leq(s[i], s[n]); }
      } else {
        var front := Insert(leq, s[..n], x);
        InsertSorted(leq, s[..n], x);
        InsertElements(leq, s[..n], x);
        forall i | 0 <= i < |front| ensures leq(front[i], s[n]) {
          assert front[i] in multiset(front);
          assert front[i] in multiset(s[..n]) || front[i] == x;
          if front[i] != x {
            assert front[i] in s[..n];
          }
        }
      }
    }
  }

  lemma {:induction false} TiesConcat<T>(leq: (T, T) -> bool, k: T, a: seq<T>, b: seq<T>)
    ensures Ties(leq, k, a + b) == Ties(leq, k, a) + Ties(leq, k, b)
  {
    if b == [] {
      assert a + b == a;
    } else {
      var n := |b| - 1;
      assert (a + b)[..|a + b| - 1] == a + b[..n];
      TiesConcat(leq, k, a, b[..n]);
    }
  }

  lemma {:induction false} InsertTies<T(!new)>(leq: (T, T) -> bool, k: T, s: seq<T>, x: T)
    requires TotalPreorder(leq)
    ensures Ties(leq, k, Insert(leq, s, x)) == Ties(leq, k, s + [x])
  {
    if s != [] && !leq(s[|s| - 1], x) {
      var n := |s| - 1;
      var y := s[n];
      assert s == s[..n] + [y];
      assert Insert(leq, s, x) == Insert(leq, s[..n], x) + [y];
      hide Ties, Insert, Tied, TotalPreorder;
      OneTied(leq, k, x, y);
      TiesOne(leq, k, x);
      TiesOne(leq, k, y);
      InsertTies(leq, k, s[..n], x);
      TiesConcat(leq, k, Insert(leq, s[..n], x), [y]);
      TiesConcat(leq, k, s[..n], [x]);
      TiesConcat(leq, k, s[..n], [y]);
      TiesConcat(leq, k, s, [x]);
    }
  }

  lemma OneTied<T(!new)>(leq: (T, T) -> bool, k: T, x: T, y: T)
    requires TotalPreorder(leq) && !leq(y, x)
    ensures !Tied(leq, x, k) || !Tied(leq, y, k)
  {
  }

  lemma TiesOne<T>(leq: (T, T) -> bool, k: T, x: T)
    ensures Ties(leq, k, [x]) == if Tied(leq, x, k) then [x] else []
  {
  }

  /** The sort keeps the elements, orders them, and keeps tied elements in their input order. */
  lemma {:induction false} StableSortCorrect<T(!new)>(leq: (T, T) -> bool, s: seq<T>)
    requires TotalPreorder(leq)
    ensures Sorted(leq, StableSort(leq, s))
    ensures multiset(StableSort(leq, s)) == multiset(s)
    ensures forall k :: Ties(leq, k, StableSort(leq, s)) == Ties(leq, k, s)
  {
    if s == [] {
    } else {
      var n := |s| - 1;
      var front := StableSort(leq, s[..n]);
      assert s == s[..n] + [s[n]];
      StableSortCorrect(leq, s[..n]);
      InsertSorted(leq, front, s[n]);
      InsertElements(leq, front, s[n]);
      forall k ensures Ties(leq, k, StableSort(leq, s)) == Ties(leq, k, s) {
        InsertTies(leq, k, front, s[n]);
        TiesConcat(leq, k, front, [s[n]]);
        TiesConcat(leq, k, s[..n], [s[n]]);
      }
    }
  }

  lemma SortOrders<T(!new)>(leq: (T, T) -> bool, s: seq<T>)
    requires TotalPreorder(leq)
    ensures Sorted(leq, StableSort(leq, s))
  {
    StableSortCorrect(leq, s);
  }

  lemma SortKeepsTies<T(!new)>(leq: (T, T) -> bool, k: T, s: seq<T>)
    requires TotalPreorder(leq)
    ensures Ties(leq, k, StableSort(leq, s)) == Ties(leq, k, s)
  {
    StableSortCorrect(leq, s);
  }

  lemma {:induction false} TiesFirst<T>(leq: (T, T) -> bool, k: T, s: seq<T>)
    requires s != []
    ensures Ties(leq, k, s) == (if Tied(leq, s[0], k) then [s[0]] else []) + Ties(leq, k, s[1..])
  {
    assert s == [s[0]] + s[1..];
    TiesConcat(leq, k, [s[0]], s[1..]);
    assert Ties(leq, k, [s[0]]) == if Tied(leq, s[0], k) then [s[0]] else [];
  }

  lemma {:induction false} TiesMember<T>(leq: (T, T) -> bool, k: T, s: seq<T>) returns (i: nat)
    requires Ties(leq, k, s) != []
    ensures i < |s| && Tied(leq, s[i], k)
  {
    var n := |s| - 1;
    if Tied(leq, s[n], k) {
      i := n;
    } else {
      i := TiesMember(leq, k, s[..n]);
    }
  }

  /** If the head of `a` ties with anything in a sorted `b`, it is no smaller than the head of `b`. */
  lemma {:induction false} HeadBelow<T(!new)>(leq: (T, T) -> bool, k: T, b: seq<T>)
    requires TotalPreorder(leq) && Sorted(leq, b) && Ties(leq, k, b) != []
    ensures b != [] && leq(b[0], k)
  {
    var i := TiesMember(leq, k, b);
    assert i == 0 || leq(b[0], b[i]);
  }

  lemma {:induction false} SameHead<T(!new)>(leq: (T, T) -> bool, a: seq<T>, b: seq<T>)
    requires TotalPreorder(leq) && Sorted(leq, a) && Sorted(leq, b) && a != []
    requires forall k :: Ties(leq, k, a) == Ties(leq, k, b)
    ensures b != [] && a[0] == b[0]
  {
    assert leq(a[0], a[0]);
    TiesFirst(leq, a[0], a);
    HeadBelow(leq, a[0], b);
    assert leq(b[0], b[0]);
    TiesFirst(leq, b[0], b);
    HeadBelow(leq, b[0], a);
    TiesFirst(leq, a[0], b);
    assert Tied(leq, b[0], a[0]);
    assert Ties(leq, a[0], a)[0] == Ties(leq, a[0], b)[0];
  }

  /** A sorted sequence is determined by its groups of tied elements. */
  lemma {:induction false} SortedUnique<T(!new)>(leq: (T, T) -> bool, a: seq<T>, b: seq<T>)
    requires TotalPreorder(leq) && Sorted(leq, a) && Sorted(leq, b)
    requires forall k :: Ties(leq, k, a) == Ties(leq, k, b)
    ensures a == b
  {
    if a == [] {
      if b != [] {
        assert forall k :: Ties(leq, k, b) == Ties(leq, k, a);
        SameHead(leq, b, a);
      }
    } else {
      SameHead(leq, a, b);
      forall k ensures Ties(leq, k, a[1..]) == Ties(leq, k, b[1..]) {
        TiesFirst(leq, k, a);
        TiesFirst(leq, k, b);
        var head := if Tied(leq, a[0], k) then [a[0]] else [];
        assert Ties(leq, k, a)[|head|..] == Ties(leq, k, a[1..]);
        assert Ties(leq, k, b)[|head|..] == Ties(leq, k, b[1..]);
      }
      SortedUnique(leq, a[1..], b[1..]);
      assert a == [a[0]] + a[1..] && b == [b[0]] + b[1..];
    }
  }
}
