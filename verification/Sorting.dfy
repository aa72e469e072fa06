/** Python's sorted(): stable, by a key of up to two components. */
module Sorting {
  import opened Common

  datatype Key = Key(major: real, minor: real)

  predicate Less(a: Key, b: Key) { a.major < b.major || (a.major == b.major && a.minor < b.minor) }

  /** The key that sorted(..., reverse=True) orders by: it keeps ties in their original order too. */
  function Reversed(k: Key): Key { Key(-k.major, -k.minor) }

  /** x goes after every element it ties with. */
  function Insert<T>(ys: seq<T>, x: T, key: T -> Key): (zs: seq<T>)
    ensures multiset(zs) == multiset(ys) + multiset{x}
  {
    if ys == [] then [x]
    else
      var n := |ys| - 1;
      assert ys == ys[..n] + [ys[n]];
      if Less(key(x), key(ys[n])) then Insert(ys[..n], x, key) + [ys[n]] else ys + [x]
  }

  function SortBy<T>(xs: seq<T>, key: T -> Key): (ys: seq<T>)
    ensures multiset(ys) == multiset(xs)
  {
    if xs == [] then []
    else
      var n := |xs| - 1;
      assert xs == xs[..n] + [xs[n]];
      Insert(SortBy(xs[..n], key), xs[n], key)
  }

  ghost predicate Sorted<T>(ys: seq<T>, key: T -> Key) {
    forall i, j | 0 <= i < j < |ys| :: !Less(key(ys[j]), key(ys[i]))
  }

  lemma {:induction false} InsertSorted<T>(ys: seq<T>, x: T, key: T -> Key)
    requires Sorted(ys, key)
    ensures Sorted(Insert(ys, x, key), key)
  {
    if ys != [] && Less(key(x), key(ys[|ys| - 1])) {
      var n := |ys| - 1;
      InsertSorted(ys[..n], x, key);
      var front := Insert(ys[..n], x, key);
      forall i | 0 <= i < |front| ensures !Less(key(ys[n]), key(front[i])) {
        assert front[i] in multiset(front);
        if front[i] != x {
          assert front[i] in ys[..n];
        }
      }
    }
  }

  lemma {:induction false} SortBySorted<T>(xs: seq<T>, key: T -> Key)
    ensures Sorted(SortBy(xs, key), key)
  {
    if xs == [] {
    } else {
      var n := |xs| - 1;
      SortBySorted(xs[..n], key);
      InsertSorted(SortBy(xs[..n], key), xs[n], key);
    }
  }

  ghost predicate Tie(a: Key, b: Key) { !Less(a, b) && !Less(b, a) }

  /** u stands before v somewhere in xs. */
  ghost predicate Precedes<T(!new)>(xs: seq<T>, u: T, v: T) {
    exists p, q :: 0 <= p < q < |xs| && xs[p] == u && xs[q] == v
  }

  /** Tied elements keep the order they came in. */
  ghost predicate Stable<T(!new)>(xs: seq<T>, ys: seq<T>, key: T -> Key) {
    forall i, j | 0 <= i < j < |ys| && Tie(key(ys[i]), key(ys[j])) :: Precedes(xs, ys[i], ys[j])
  }

  lemma PrecedesGrows<T(!new)>(xs: seq<T>, u: T, v: T, x: T)
    requires Precedes(xs, u, v)
    ensures Precedes(xs + [x], u, v)
  {
    var p, q :| 0 <= p < q < |xs| && xs[p] == u && xs[q] == v;
    assert (xs + [x])[p] == u && (xs + [x])[q] == v;
  }

  lemma PrecedesLast<T(!new)>(xs: seq<T>, u: T, x: T)
    requires u in xs
    ensures Precedes(xs + [x], u, x)
  {
    var p :| 0 <= p < |xs| && xs[p] == u;
    assert (xs + [x])[p] == u && (xs + [x])[|xs|] == x;
  }

  lemma {:induction false} InsertStable<T(!new)>(xs: seq<T>, ys: seq<T>, x: T, key: T -> Key)
    requires (forall y | y in ys :: y in xs) && Stable(xs, ys, key)
    ensures Stable(xs + [x], Insert(ys, x, key), key)
  {
    var n, zs := |ys| - 1, Insert(ys, x, key);
    if ys != [] && Less(key(x), key(ys[n])) {
      InsertStable(xs, ys[..n], x, key);
      var front := Insert(ys[..n], x, key);
      forall i, j | 0 <= i < j < |zs| && Tie(key(zs[i]), key(zs[j])) ensures Precedes(xs + [x], zs[i], zs[j]) {
        if j < |front| {
          assert zs[i] == front[i] && zs[j] == front[j];
        } else {
          assert zs[i] == front[i];
          InsertedBefore(ys[..n], x, key, i, ys[n]);
          var k :| 0 <= k < n && ys[..n][k] == zs[i];
          assert Precedes(xs, ys[k], ys[n]);
          PrecedesGrows(xs, ys[k], ys[n], x);
        }
      }
    } else {
      forall i, j | 0 <= i < j < |zs| && Tie(key(zs[i]), key(zs[j])) ensures Precedes(xs + [x], zs[i], zs[j]) {
        if j < |ys| {
          assert Precedes(xs, ys[i], ys[j]);
          PrecedesGrows(xs, ys[i], ys[j], x);
        } else {
          assert zs[i] == ys[i] && zs[i] in ys;
          PrecedesLast(xs, zs[i], x);
        }
      }
    }
  }

  /** An element tied with what comes after the insertion point is one of the old ones. */
  lemma InsertedBefore<T>(ys: seq<T>, x: T, key: T -> Key, i: nat, last: T)
    requires i < |Insert(ys, x, key)| && Less(key(x), key(last)) && Tie(key(Insert(ys, x, key)[i]), key(last))
    ensures exists k :: 0 <= k < |ys| && ys[k] == Insert(ys, x, key)[i]
  {
    assert Insert(ys, x, key)[i] in multiset(Insert(ys, x, key));
    assert Insert(ys, x, key)[i] != x;
    assert Insert(ys, x, key)[i] in multiset(ys);
  }

  lemma {:induction false} SortByStable<T(!new)>(xs: seq<T>, key: T -> Key)
    ensures Stable(xs, SortBy(xs, key), key)
  {
    if xs == [] {
    } else {
      var n := |xs| - 1;
      SortByStable(xs[..n], key);
      SameElements(xs[..n], key);
      InsertStable(xs[..n], SortBy(xs[..n], key), xs[n], key);
      assert xs == xs[..n] + [xs[n]];
    }
  }

  lemma SameElements<T>(xs: seq<T>, key: T -> Key)
    ensures forall x :: x in SortBy(xs, key) <==> x in xs
  {
    forall x ensures x in SortBy(xs, key) <==> x in xs {
      assert x in xs <==> x in multiset(xs);
      assert x in SortBy(xs, key) <==> x in multiset(SortBy(xs, key));
    }
  }

  // ---------------------------------------------------------------------
  // What sorts before a bound
  // ---------------------------------------------------------------------

  /** The elements whose key is below the bound, in their order. */
  function Earlier<T>(xs: seq<T>, key: T -> Key, bound: Key): seq<T> {
    if xs == [] then []
    else
      var front, last := Earlier(xs[..|xs| - 1], key, bound), xs[|xs| - 1];
      if Less(key(last), bound) then front + [last] else front
  }

  lemma EarlierNext<T>(xs: seq<T>, x: T, key: T -> Key, bound: Key)
    ensures Earlier(xs + [x], key, bound) ==
            if Less(key(x), bound) then Earlier(xs, key, bound) + [x] else Earlier(xs, key, bound)
  {
    assert (xs + [x])[..|xs|] == xs;
  }

  lemma InsertNext<T>(ys: seq<T>, y: T, x: T, key: T -> Key)
    ensures Insert(ys + [y], x, key) == if Less(key(x), key(y)) then Insert(ys, x, key) + [y] else ys + [y] + [x]
  {
    assert (ys + [y])[..|ys|] == ys;
  }

  lemma SortNext<T>(xs: seq<T>, x: T, key: T -> Key)
    ensures SortBy(xs + [x], key) == Insert(SortBy(xs, key), x, key)
  {
    assert (xs + [x])[..|xs|] == xs;
  }

  /** Inserting and selecting commute. */
  lemma {:induction false} EarlierInsert<T>(ys: seq<T>, x: T, key: T -> Key, bound: Key)
    ensures Earlier(Insert(ys, x, key), key, bound) ==
            if Less(key(x), bound) then Insert(Earlier(ys, key, bound), x, key) else Earlier(ys, key, bound)
  {
    if ys == [] {
      assert [x][..0] == [];
    } else {
      var front, y := ys[..|ys| - 1], ys[|ys| - 1];
      SplitLast(ys);
      EarlierInsert(front, x, key, bound);
      EarlierInsertNext(front, y, x, key, bound);
    }
  }

  lemma EarlierInsertNext<T>(ys: seq<T>, y: T, x: T, key: T -> Key, bound: Key)
    requires Earlier(Insert(ys, x, key), key, bound) ==
             if Less(key(x), bound) then Insert(Earlier(ys, key, bound), x, key) else Earlier(ys, key, bound)
    ensures Earlier(Insert(ys + [y], x, key), key, bound) ==
            if Less(key(x), bound) then Insert(Earlier(ys + [y], key, bound), x, key) else Earlier(ys + [y], key, bound)
  {
    InsertNext(ys, y, x, key);
    InsertNext(Earlier(ys, key, bound), y, x, key);
    EarlierNext(ys, y, key, bound);
    if Less(key(x), key(y)) {
      EarlierNext(Insert(ys, x, key), y, key, bound);
    } else {
      EarlierNext(ys + [y], x, key, bound);
    }
  }

  /** Sorting and selecting commute. */
  lemma {:induction false} EarlierSort<T>(xs: seq<T>, key: T -> Key, bound: Key)
    ensures Earlier(SortBy(xs, key), key, bound) == SortBy(Earlier(xs, key, bound), key)
  {
    if xs == [] {
    } else {
      var front, x := xs[..|xs| - 1], xs[|xs| - 1];
      EarlierSort(front, key, bound);
      EarlierInsert(SortBy(front, key), x, key, bound);
      SortNext(Earlier(front, key, bound), x, key);
    }
  }

  /** Up to an element below the bound, a sorted sequence is all below it. */
  lemma {:induction false} AllEarlier<T>(xs: seq<T>, key: T -> Key, bound: Key)
    requires xs == [] || (Sorted(xs, key) && Less(key(xs[|xs| - 1]), bound))
    ensures Earlier(xs, key, bound) == xs
  {
    if xs == [] {
    } else {
      var n := |xs| - 1;
      if n > 0 {
        assert !Less(key(xs[n]), key(xs[n - 1]));
        assert Sorted(xs[..n], key);
      }
      AllEarlier(xs[..n], key, bound);
      SplitLast(xs);
    }
  }

  lemma {:induction false} EarlierConcat<T>(xs: seq<T>, ys: seq<T>, key: T -> Key, bound: Key)
    ensures Earlier(xs + ys, key, bound) == Earlier(xs, key, bound) + Earlier(ys, key, bound)
  {
    if ys == [] {
      assert xs + ys == xs;
    } else {
      var front, y := ys[..|ys| - 1], ys[|ys| - 1];
      EarlierConcat(xs, front, key, bound);
      assert xs + ys == (xs + front) + [y];
      EarlierNext(xs + front, y, key, bound);
      if Less(key(y), bound) {
        Regroup(Earlier(xs, key, bound), Earlier(front, key, bound), [y]);
      }
    }
  }

  /** What sorts before an element stands before it. */
  lemma EarlierStandsBefore<T>(xs: seq<T>, key: T -> Key, i: nat, k: T) returns (j: nat)
    requires i < |SortBy(xs, key)| && k in xs && Less(key(k), key(SortBy(xs, key)[i]))
    ensures j < i && SortBy(xs, key)[j] == k
  {
    var sorted := SortBy(xs, key);
    SameElements(xs, key);
    SortBySorted(xs, key);
    j :| 0 <= j < |sorted| && sorted[j] == k;
  }

  // ---------------------------------------------------------------------
  // Moving every copy of one element to the front
  // ---------------------------------------------------------------------

  function Copies<T>(a: T, n: nat): (copies: seq<T>)
    ensures |copies| == n && forall i | 0 <= i < n :: copies[i] == a
  {
    if n == 0 then [] else Copies(a, n - 1) + [a]
  }

  function Others<T(==)>(xs: seq<T>, a: T): (rest: seq<T>)
    ensures a !in rest && |rest| <= |xs|
  {
    if xs == [] then []
    else
      var front, last := Others(xs[..|xs| - 1], a), xs[|xs| - 1];
      if last == a then front else front + [last]
  }

  function Front<T(==)>(xs: seq<T>, a: T): seq<T> { Copies(a, |xs| - |Others(xs, a)|) + Others(xs, a) }

  lemma {:induction false} CopiesEarlier<T>(a: T, n: nat, key: T -> Key)
    ensures Earlier(Copies(a, n), key, key(a)) == []
  {
    if n == 0 {
    } else {
      CopiesEarlier(a, n - 1, key);
      EarlierNext(Copies(a, n - 1), a, key, key(a));
    }
  }

  lemma OthersNext<T>(xs: seq<T>, x: T, a: T)
    ensures Others(xs + [x], a) == if x == a then Others(xs, a) else Others(xs, a) + [x]
  {
    assert (xs + [x])[..|xs|] == xs;
  }

  lemma {:induction false} OthersAndCopies<T>(xs: seq<T>, a: T)
    ensures multiset(xs) == multiset(Others(xs, a)) + multiset(Copies(a, |xs| - |Others(xs, a)|))
  {
    if xs == [] {
    } else {
      var front, x := xs[..|xs| - 1], xs[|xs| - 1];
      OthersAndCopies(front, a);
      SplitLast(xs);
      OthersNext(front, x, a);
      OneMore(front, x, a, Others(front, a), |front| - |Others(front, a)|);
    }
  }

  lemma OneMore<T>(xs: seq<T>, x: T, a: T, rest: seq<T>, n: nat)
    requires multiset(xs) == multiset(rest) + multiset(Copies(a, n))
    ensures x == a ==> multiset(xs + [x]) == multiset(rest) + multiset(Copies(a, n + 1))
    ensures multiset(xs + [x]) == multiset(rest + [x]) + multiset(Copies(a, n))
  {
    Adding(xs, x);
    Adding(rest, x);
    Adding(Copies(a, n), a);
    Reorder(multiset(rest), multiset(Copies(a, n)), multiset{x});
  }

  lemma Adding<T>(xs: seq<T>, x: T)
    ensures multiset(xs + [x]) == multiset(xs) + multiset{x}
  {}

  lemma Reorder<T>(a: multiset<T>, b: multiset<T>, c: multiset<T>)
    ensures a + b + c == a + (b + c) == a + c + b
  {}

  lemma {:induction false} OthersEarlier<T>(xs: seq<T>, a: T, key: T -> Key)
    ensures Earlier(Others(xs, a), key, key(a)) == Earlier(xs, key, key(a))
  {
    if xs == [] {
    } else {
      var front, x := xs[..|xs| - 1], xs[|xs| - 1];
      OthersEarlier(front, a, key);
      EarlierNext(Others(front, a), x, key, key(a));
    }
  }

  /** It is a permutation. */
  lemma FrontPermutes<T>(xs: seq<T>, a: T)
    ensures multiset(Front(xs, a)) == multiset(xs)
  {
    OthersAndCopies(xs, a);
  }

  /** What sorts before a stays in its order. */
  lemma FrontEarlier<T>(xs: seq<T>, a: T, key: T -> Key)
    ensures Earlier(Front(xs, a), key, key(a)) == Earlier(xs, key, key(a))
  {
    var n, rest := |xs| - |Others(xs, a)|, Others(xs, a);
    CopiesEarlier(a, n, key);
    OthersEarlier(xs, a, key);
    EarlierConcat(Copies(a, n), rest, key, key(a));
    assert [] + Earlier(rest, key, key(a)) == Earlier(rest, key, key(a));
  }

  lemma FrontIsFirst<T(!new)>(xs: seq<T>, a: T, k: T)
    requires k != a
    ensures !Precedes(Front(xs, a), k, a)
  {
    var n, ys := |xs| - |Others(xs, a)|, Front(xs, a);
    forall q | n <= q < |ys| ensures ys[q] != a {
      assert ys[q] == Others(xs, a)[q - n] && Others(xs, a)[q - n] in Others(xs, a);
    }
    assert forall p | 0 <= p < n :: ys[p] == a;
  }
}
