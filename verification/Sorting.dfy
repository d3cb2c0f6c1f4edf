/** Stable sorting by an integer key and selection by a predicate, as `sort` and `filter` do it. */
module Sorting {
  function Select<T>(xs: seq<T>, p: T -> bool): seq<T> {
    if xs == [] then [] else (if p(xs[0]) then [xs[0]] else []) + Select(xs[1..], p)
  }

  function Insert<T>(x: T, sorted: seq<T>, key: T -> int): seq<T> {
    if sorted == [] || key(x) <= key(sorted[0]) then [x] + sorted else [sorted[0]] + Insert(x, sorted[1..], key)
  }

  /** Lowest key first; equal keys keep their order. */
  function SortBy<T>(xs: seq<T>, key: T -> int): seq<T> {
    if xs == [] then [] else Insert(xs[0], SortBy(xs[1..], key), key)
  }

  ghost predicate Ordered<T>(xs: seq<T>, key: T -> int) {
    forall i, j :: 0 <= i < j < |xs| ==> key(xs[i]) <= key(xs[j])
  }

  lemma {:induction false} InsertAddsOne<T>(x: T, sorted: seq<T>, key: T -> int)
    ensures multiset(Insert(x, sorted, key)) == multiset(sorted) + multiset{x}
  {
    if sorted == [] || key(x) <= key(sorted[0]) {
      assert multiset([x] + sorted) == multiset(sorted) + multiset{x};
    } else {
      var rest := Insert(x, sorted[1..], key);
      InsertAddsOne(x, sorted[1..], key);
      assert sorted == [sorted[0]] + sorted[1..];
      assert multiset([sorted[0]] + rest) == multiset{sorted[0]} + multiset(rest);
    }
  }

  lemma {:induction false} InsertKeepsOrder<T>(x: T, sorted: seq<T>, key: T -> int)
    requires Ordered(sorted, key)
    ensures Ordered(Insert(x, sorted, key), key)
    ensures forall y :: y in Insert(x, sorted, key) ==> y == x || y in sorted
  {
    if sorted != [] && key(sorted[0]) < key(x) {
      InsertKeepsOrder(x, sorted[1..], key);
      var rest := Insert(x, sorted[1..], key);
      forall i | 0 <= i < |rest| ensures key(sorted[0]) <= key(rest[i]) {
        assert rest[i] == x || rest[i] in sorted[1..];
      }
    }
  }

  lemma {:induction false} SortKeeps<T>(xs: seq<T>, key: T -> int)
    ensures multiset(SortBy(xs, key)) == multiset(xs)
  {
    if xs != [] {
      SortKeeps(xs[1..], key);
      InsertAddsOne(xs[0], SortBy(xs[1..], key), key);
      assert xs == [xs[0]] + xs[1..];
    }
  }

  lemma {:induction false} SortOrders<T>(xs: seq<T>, key: T -> int)
    ensures Ordered(SortBy(xs, key), key)
  {
    if xs != [] {
      SortOrders(xs[1..], key);
      InsertKeepsOrder(xs[0], SortBy(xs[1..], key), key);
    }
  }

  /** Sorting orders the list and changes nothing else. */
  lemma SortMeans<T>(xs: seq<T>, key: T -> int)
    ensures multiset(SortBy(xs, key)) == multiset(xs) && Ordered(SortBy(xs, key), key) && |SortBy(xs, key)| == |xs|
  {
    SortKeeps(xs, key);
    SortOrders(xs, key);
    assert |multiset(SortBy(xs, key))| == |SortBy(xs, key)| && |multiset(xs)| == |xs|;
  }

  lemma {:induction false} SelectStaysAbove<T>(xs: seq<T>, p: T -> bool, key: T -> int, bound: int)
    requires forall i :: 0 <= i < |xs| ==> bound <= key(xs[i])
    ensures forall i :: 0 <= i < |Select(xs, p)| ==> bound <= key(Select(xs, p)[i])
  {
    if xs != [] { SelectStaysAbove(xs[1..], p, key, bound); }
  }

  lemma {:induction false} InsertCommutesWithSelect<T>(x: T, sorted: seq<T>, key: T -> int, p: T -> bool)
    requires Ordered(sorted, key)
    ensures Select(Insert(x, sorted, key), p) == if p(x) then Insert(x, Select(sorted, p), key) else Select(sorted, p)
  {
    if sorted == [] || key(x) <= key(sorted[0]) {
      assert ([x] + sorted)[1..] == sorted;
      SelectStaysAbove(sorted, p, key, key(x));
    } else {
      var head, tail := sorted[0], sorted[1..];
      InsertCommutesWithSelect(x, tail, key, p);
      assert ([head] + Insert(x, tail, key))[1..] == Insert(x, tail, key);
      if p(head) {
        assert Select(sorted, p) == [head] + Select(tail, p);
        assert ([head] + Select(tail, p))[1..] == Select(tail, p);
      } else {
        assert Select(sorted, p) == Select(tail, p);
      }
    }
  }

  /** The stable sort commutes with selection: dropping elements never reorders the others. */
  lemma {:induction false} SortCommutesWithSelect<T>(xs: seq<T>, key: T -> int, p: T -> bool)
    ensures SortBy(Select(xs, p), key) == Select(SortBy(xs, key), p)
  {
    if xs != [] {
      var head, tail := xs[0], xs[1..];
      SortCommutesWithSelect(tail, key, p);
      SortMeans(tail, key);
      InsertCommutesWithSelect(head, SortBy(tail, key), key, p);
      if p(head) {
        assert Select(xs, p) == [head] + Select(tail, p);
        assert ([head] + Select(tail, p))[1..] == Select(tail, p);
      } else {
        assert Select(xs, p) == Select(tail, p);
      }
    }
  }

  lemma {:induction false} SelectedIsSelected<T>(xs: seq<T>, p: T -> bool, x: T)
    ensures x in Select(xs, p) <==> x in xs && p(x)
  {
    if xs != [] {
      SelectedIsSelected(xs[1..], p, x);
      assert x in xs <==> x == xs[0] || x in xs[1..];
    }
  }

  // ----- where an element ends up -----

  /** How many of the first `n` numbers satisfy `p`. */
  function HowMany(n: nat, p: nat -> bool): nat {
    if n == 0 then 0 else HowMany(n - 1, p) + if p(n - 1) then 1 else 0
  }

  lemma {:induction false} HowManyFromFront(n: nat, p: nat -> bool)
    requires n > 0
    ensures HowMany(n, p) == (if p(0) then 1 else 0) + HowMany(n - 1, (j: nat) => p(j + 1))
  {
    if n > 1 { HowManyFromFront(n - 1, p); }
  }

  lemma {:induction false} HowManySame(n: nat, p: nat -> bool, q: nat -> bool)
    requires forall j: nat :: j < n ==> p(j) == q(j)
    ensures HowMany(n, p) == HowMany(n, q)
  {
    if n > 0 { HowManySame(n - 1, p, q); }
  }

  /** How many elements have a key below the bound. */
  function Below<T>(xs: seq<T>, key: T -> int, bound: int): nat {
    if xs == [] then 0 else (if key(xs[0]) < bound then 1 else 0) + Below(xs[1..], key, bound)
  }

  lemma {:induction false} InsertedAt<T>(x: T, sorted: seq<T>, key: T -> int)
    requires Ordered(sorted, key)
    ensures Below(sorted, key, key(x)) < |Insert(x, sorted, key)|
    ensures Insert(x, sorted, key)[Below(sorted, key, key(x))] == x
  {
    if sorted != [] {
      if key(x) <= key(sorted[0]) { NoneBelow(sorted, key, key(x)); } else { InsertedAt(x, sorted[1..], key); }
    }
  }

  lemma {:induction false} NoneBelow<T>(xs: seq<T>, key: T -> int, bound: int)
    requires forall i :: 0 <= i < |xs| ==> bound <= key(xs[i])
    ensures Below(xs, key, bound) == 0
  {
    if xs != [] { NoneBelow(xs[1..], key, bound); }
  }

  lemma {:induction false} BelowOfInsert<T>(x: T, sorted: seq<T>, key: T -> int, bound: int)
    ensures Below(Insert(x, sorted, key), key, bound)
         == Below(sorted, key, bound) + if key(x) < bound then 1 else 0
  {
    if sorted == [] || key(x) <= key(sorted[0]) {
      assert ([x] + sorted)[1..] == sorted;
    } else {
      BelowOfInsert(x, sorted[1..], key, bound);
      assert ([sorted[0]] + Insert(x, sorted[1..], key))[1..] == Insert(x, sorted[1..], key);
    }
  }

  lemma {:induction false} BelowOfSort<T>(xs: seq<T>, key: T -> int, bound: int)
    ensures Below(SortBy(xs, key), key, bound) == Below(xs, key, bound)
  {
    if xs != [] {
      BelowOfSort(xs[1..], key, bound);
      BelowOfInsert(xs[0], SortBy(xs[1..], key), key, bound);
    }
  }

  /** Which positions hold a selected element with a key below the bound. */
  function LowAt<T>(xs: seq<T>, p: T -> bool, key: T -> int, bound: int): nat -> bool {
    (j: nat) => j < |xs| && p(xs[j]) && key(xs[j]) < bound
  }

  lemma LowInTail<T>(xs: seq<T>, p: T -> bool, key: T -> int, bound: int)
    requires xs != []
    ensures HowMany(|xs|, LowAt(xs, p, key, bound))
         == (if p(xs[0]) && key(xs[0]) < bound then 1 else 0) + HowMany(|xs| - 1, LowAt(xs[1..], p, key, bound))
  {
    var tail, low := xs[1..], LowAt(xs, p, key, bound);
    HowManyFromFront(|xs|, low);
    HowManySame(|tail|, LowAt(tail, p, key, bound), (j: nat) => low(j + 1));
  }

  lemma SelectedBelow<T>(xs: seq<T>, p: T -> bool, key: T -> int, bound: int)
    requires xs != []
    ensures Below(Select(xs, p), key, bound)
         == (if p(xs[0]) && key(xs[0]) < bound then 1 else 0) + Below(Select(xs[1..], p), key, bound)
  {
    var rest := Select(xs[1..], p);
    if p(xs[0]) { assert ([xs[0]] + rest)[1..] == rest; } else { assert [] + rest == rest; }
  }

  lemma {:induction false} BelowOfSelect<T>(xs: seq<T>, p: T -> bool, key: T -> int, bound: int)
    ensures Below(Select(xs, p), key, bound) == HowMany(|xs|, LowAt(xs, p, key, bound))
  {
    if xs != [] {
      BelowOfSelect(xs[1..], p, key, bound);
      LowInTail(xs, p, key, bound);
      SelectedBelow(xs, p, key, bound);
    }
  }

  /** Inserting moves an element one place on exactly if the newcomer's key is not above its own. */
  lemma {:induction false} InsertShifts<T>(x: T, sorted: seq<T>, key: T -> int, at: nat)
    requires Ordered(sorted, key) && at < |sorted|
    ensures |Insert(x, sorted, key)| == |sorted| + 1
    ensures Insert(x, sorted, key)[if key(x) <= key(sorted[at]) then at + 1 else at] == sorted[at]
  {
    if key(sorted[0]) < key(x) {
      var tail := sorted[1..];
      if at > 0 { InsertShifts(x, tail, key, at - 1); } else if tail != [] { InsertShifts(x, tail, key, 0); }
    }
  }

  /** Which positions hold a selected element that comes before: a smaller key, or the same key earlier in the list. */
  function BeforeAt<T>(xs: seq<T>, p: T -> bool, key: T -> int, i: nat): nat -> bool
    requires i < |xs|
  {
    (j: nat) => j < |xs| && p(xs[j]) && (key(xs[j]) < key(xs[i]) || (key(xs[j]) == key(xs[i]) && j < i))
  }

  function Rank<T>(xs: seq<T>, p: T -> bool, key: T -> int, i: nat): nat
    requires i < |xs|
  {
    HowMany(|xs|, BeforeAt(xs, p, key, i))
  }

  /**
   * Without the first element an element ranks one lower if the first one was selected with a key not above its own.
   */
  lemma RankInTail<T>(xs: seq<T>, p: T -> bool, key: T -> int, i: nat)
    requires 0 < i < |xs|
    ensures Rank(xs, p, key, i)
         == Rank(xs[1..], p, key, i - 1) + if p(xs[0]) && key(xs[0]) <= key(xs[i]) then 1 else 0
  {
    var tail, before := xs[1..], BeforeAt(xs, p, key, i);
    HowManyFromFront(|xs|, before);
    HowManySame(|tail|, BeforeAt(tail, p, key, i - 1), (j: nat) => before(j + 1));
  }

  lemma RankOfFirst<T>(xs: seq<T>, p: T -> bool, key: T -> int)
    requires xs != []
    ensures Rank(xs, p, key, 0) == Below(Select(xs[1..], p), key, key(xs[0]))
  {
    var tail, before := xs[1..], BeforeAt(xs, p, key, 0);
    HowManyFromFront(|xs|, before);
    BelowOfSelect(tail, p, key, key(xs[0]));
    HowManySame(|tail|, LowAt(tail, p, key, key(xs[0])), (j: nat) => before(j + 1));
  }

  lemma SortOfSelected<T>(xs: seq<T>, p: T -> bool, key: T -> int)
    requires xs != []
    ensures SortBy(Select(xs, p), key)
         == if p(xs[0]) then Insert(xs[0], SortBy(Select(xs[1..], p), key), key) else SortBy(Select(xs[1..], p), key)
  {
    var rest := Select(xs[1..], p);
    if p(xs[0]) { assert ([xs[0]] + rest)[1..] == rest; } else { assert [] + rest == rest; }
  }

  lemma FirstAtRank<T>(xs: seq<T>, p: T -> bool, key: T -> int)
    requires xs != [] && p(xs[0])
    ensures Rank(xs, p, key, 0) < |SortBy(Select(xs, p), key)|
    ensures SortBy(Select(xs, p), key)[Rank(xs, p, key, 0)] == xs[0]
  {
    var rest := Select(xs[1..], p);
    SortOrders(rest, key);
    SortOfSelected(xs, p, key);
    RankOfFirst(xs, p, key);
    BelowOfSort(rest, key, key(xs[0]));
    InsertedAt(xs[0], SortBy(rest, key), key);
  }

  lemma TailAtRank<T>(xs: seq<T>, p: T -> bool, key: T -> int, i: nat, sorted: seq<T>, rank: nat)
    requires 0 < i < |xs| && sorted == SortBy(Select(xs[1..], p), key) && rank == Rank(xs[1..], p, key, i - 1)
    requires rank < |sorted| && sorted[rank] == xs[i]
    ensures Rank(xs, p, key, i) < |SortBy(Select(xs, p), key)|
    ensures SortBy(Select(xs, p), key)[Rank(xs, p, key, i)] == xs[i]
  {
    SortOfSelected(xs, p, key);
    RankInTail(xs, p, key, i);
    if p(xs[0]) {
      SortOrders(Select(xs[1..], p), key);
      InsertShifts(xs[0], sorted, key, rank);
    }
  }

  /** The stable sort puts every selected element at its rank. */
  lemma {:induction false} SortedAtRank<T>(xs: seq<T>, p: T -> bool, key: T -> int, i: nat)
    requires i < |xs| && p(xs[i])
    ensures Rank(xs, p, key, i) < |SortBy(Select(xs, p), key)|
    ensures SortBy(Select(xs, p), key)[Rank(xs, p, key, i)] == xs[i]
  {
    if i == 0 {
      FirstAtRank(xs, p, key);
    } else {
      SortedAtRank(xs[1..], p, key, i - 1);
      TailAtRank(xs, p, key, i, SortBy(Select(xs[1..], p), key), Rank(xs[1..], p, key, i - 1));
    }
  }

  lemma {:induction false} TwiceMeansTwo<T>(xs: seq<T>, i: nat, j: nat)
    requires i < j < |xs| && xs[i] == xs[j]
    ensures multiset(xs)[xs[i]] >= 2
  {
    assert xs == xs[..j] + [xs[j]] + xs[j + 1..];
    assert xs[..j][i] == xs[i];
    assert xs[i] in multiset(xs[..j]);
  }
}
