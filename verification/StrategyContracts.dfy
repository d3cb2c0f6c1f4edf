/** Package requirements of build strategies and when two of them are the same contract. */
module StrategyContracts {
  import opened Common
  import opened Sorting

  const MAX_BUILD_PACKAGE_BYTES := 536870912

  /** Keys and extensions are ordered like their texts; only that order and equality matter here. */
  datatype Requirement = Requirement(key: int, required: bool, extensions: seq<int>, maxBytes: Option<int>)

  function PackageMaximum(r: Requirement): int { r.maxBytes.GetOr(MAX_BUILD_PACKAGE_BYTES) }

  // ----- the comparison of the code -----

  function KeyOf(r: Requirement): int { r.key }

  function SortByKey(rs: seq<Requirement>): seq<Requirement> { SortBy(rs, KeyOf) }

  function Itself(x: int): int { x }

  function Sort(xs: seq<int>): seq<int> { SortBy(xs, Itself) }

  predicate SameRequirement(l: Requirement, r: Requirement) {
    && l.key == r.key && l.required == r.required && PackageMaximum(l) == PackageMaximum(r)
    && |l.extensions| == |r.extensions|
    && |Sort(l.extensions)| == |Sort(r.extensions)|
    && forall i :: 0 <= i < |Sort(l.extensions)| ==> Sort(l.extensions)[i] == Sort(r.extensions)[i]
  }

  predicate SameRequirements(left: seq<Requirement>, right: seq<Requirement>) {
    && |left| == |right|
    && |SortByKey(left)| == |SortByKey(right)|
    && forall i :: 0 <= i < |SortByKey(left)| ==> SameRequirement(SortByKey(left)[i], SortByKey(right)[i])
  }

  // ----- sorting -----

  predicate Ascending(xs: seq<int>) {
    forall i, j :: 0 <= i < j < |xs| ==> xs[i] <= xs[j]
  }

  lemma SortOrders(xs: seq<int>)
    ensures multiset(Sort(xs)) == multiset(xs) && Ascending(Sort(xs)) && |Sort(xs)| == |xs|
  {
    SortMeans(xs, Itself);
    forall i, j | 0 <= i < j < |Sort(xs)| ensures Sort(xs)[i] <= Sort(xs)[j] {
      assert Itself(Sort(xs)[i]) <= Itself(Sort(xs)[j]);
    }
  }

  lemma HeadAndTail(a: seq<int>)
    requires a != []
    ensures multiset(a) == multiset{a[0]} + multiset(a[1..])
  {
    assert a == [a[0]] + a[1..];
  }

  lemma HeadIsLeast(a: seq<int>, x: int)
    requires Ascending(a) && x in multiset(a)
    ensures a != [] && a[0] <= x
  {
    assert x in a;
  }

  lemma Cancel<T>(x: T, a: multiset<T>, b: multiset<T>)
    requires multiset{x} + a == multiset{x} + b
    ensures a == b
  {
    assert a == (multiset{x} + a) - multiset{x};
  }

  /** An ascending list is determined by its elements. */
  lemma {:induction false} AscendingIsUnique(a: seq<int>, b: seq<int>)
    requires Ascending(a) && Ascending(b) && multiset(a) == multiset(b)
    ensures a == b
  {
    if a == [] {
      assert |multiset(b)| == 0;
    } else {
      HeadsAgree(a, b);
      AscendingIsUnique(a[1..], b[1..]);
      assert a == [a[0]] + a[1..] && b == [b[0]] + b[1..];
    }
  }

  lemma HeadsAgree(a: seq<int>, b: seq<int>)
    requires Ascending(a) && Ascending(b) && multiset(a) == multiset(b) && a != []
    ensures b != [] && a[0] == b[0] && multiset(a[1..]) == multiset(b[1..])
    ensures Ascending(a[1..]) && Ascending(b[1..])
  {
    assert a[0] in multiset(b);
    HeadIsLeast(b, a[0]);
    assert b[0] in multiset(a);
    HeadIsLeast(a, b[0]);
    HeadAndTail(a);
    HeadAndTail(b);
    Cancel(a[0], multiset(a[1..]), multiset(b[1..]));
  }

  predicate ByKey(rs: seq<Requirement>) {
    forall i, j :: 0 <= i < j < |rs| ==> rs[i].key <= rs[j].key
  }

  lemma SortByKeyMeans(rs: seq<Requirement>)
    ensures multiset(SortByKey(rs)) == multiset(rs) && ByKey(SortByKey(rs)) && |SortByKey(rs)| == |rs|
  {
    SortMeans(rs, KeyOf);
    forall i, j | 0 <= i < j < |SortByKey(rs)| ensures SortByKey(rs)[i].key <= SortByKey(rs)[j].key {
      assert KeyOf(SortByKey(rs)[i]) <= KeyOf(SortByKey(rs)[j]);
    }
  }

  // ----- what the comparison means -----

  /** A slot as its users see it: extensions in no order, the maximum filled in. */
  datatype Slot = Slot(key: int, required: bool, extensions: multiset<int>, maximum: int)

  function SlotOf(r: Requirement): Slot {
    Slot(r.key, r.required, multiset(r.extensions), PackageMaximum(r))
  }

  lemma SameRequirementMeans(l: Requirement, r: Requirement)
    ensures SameRequirement(l, r) <==> SlotOf(l) == SlotOf(r)
  {
    SortOrders(l.extensions);
    SortOrders(r.extensions);
    if SlotOf(l) == SlotOf(r) {
      AscendingIsUnique(Sort(l.extensions), Sort(r.extensions));
    }
    if SameRequirement(l, r) {
      assert Sort(l.extensions) == Sort(r.extensions);
    }
  }

  function SlotList(rs: seq<Requirement>): seq<Slot> {
    seq(|rs|, i requires 0 <= i < |rs| => SlotOf(rs[i]))
  }

  /** Two lists are the same exactly when their slots agree in key order. */
  lemma SameMeansSameSlots(left: seq<Requirement>, right: seq<Requirement>)
    ensures SameRequirements(left, right) <==> SlotList(SortByKey(left)) == SlotList(SortByKey(right))
  {
    SortByKeyMeans(left);
    SortByKeyMeans(right);
    forall l, r ensures SameRequirement(l, r) <==> SlotOf(l) == SlotOf(r) {
      SameRequirementMeans(l, r);
    }
    if SlotList(SortByKey(left)) == SlotList(SortByKey(right)) {
      assert |SlotList(SortByKey(left))| == |SlotList(SortByKey(right))|;
      forall i | 0 <= i < |left| ensures SlotOf(SortByKey(left)[i]) == SlotOf(SortByKey(right)[i]) {
        assert SlotList(SortByKey(left))[i] == SlotList(SortByKey(right))[i];
      }
    }
  }

  /** The comparison is an equivalence on all lists, even ones with repeated keys. */
  lemma SameIsEquivalence(a: seq<Requirement>, b: seq<Requirement>, c: seq<Requirement>)
    ensures SameRequirements(a, a)
    ensures SameRequirements(a, b) <==> SameRequirements(b, a)
    ensures SameRequirements(a, b) && SameRequirements(b, c) ==> SameRequirements(a, c)
  {
    SameMeansSameSlots(a, a);
    SameMeansSameSlots(a, b);
    SameMeansSameSlots(b, a);
    SameMeansSameSlots(b, c);
    SameMeansSameSlots(a, c);
  }

  predicate UniqueKeys(rs: seq<Requirement>) {
    forall i, j :: 0 <= i < j < |rs| ==> rs[i].key != rs[j].key
  }

  function Slots(rs: seq<Requirement>): set<Slot> {
    set r | r in rs :: SlotOf(r)
  }

  lemma SortKeepsSlots(rs: seq<Requirement>)
    ensures Slots(SortByKey(rs)) == Slots(rs)
  {
    SortByKeyMeans(rs);
    forall r ensures r in SortByKey(rs) <==> r in rs {
      assert r in SortByKey(rs) <==> r in multiset(SortByKey(rs));
      assert r in rs <==> r in multiset(rs);
    }
  }

  lemma SortKeepsKeysUnique(rs: seq<Requirement>)
    requires UniqueKeys(rs)
    ensures UniqueKeys(SortByKey(rs))
  {
    var sorted := SortByKey(rs);
    SortByKeyMeans(rs);
    forall i, j | 0 <= i < j < |sorted| ensures sorted[i].key != sorted[j].key {
      assert sorted[i] in multiset(rs) && sorted[j] in multiset(rs);
      if sorted[i] == sorted[j] {
        assert multiset(sorted)[sorted[i]] >= 2 by { TwiceMeansTwo(sorted, i, j); }
        OnceIn(rs, sorted[i]);
      }
    }
  }

  lemma {:induction false} OnceIn(rs: seq<Requirement>, r: Requirement)
    requires UniqueKeys(rs)
    ensures multiset(rs)[r] <= 1
  {
    if rs != [] {
      OnceIn(rs[1..], r);
      assert rs == [rs[0]] + rs[1..];
      if rs[0] == r {
        assert r !in rs[1..];
        assert r !in multiset(rs[1..]);
      }
    }
  }

  lemma SlotsOfTail(rs: seq<Requirement>)
    requires rs != [] && UniqueKeys(rs)
    ensures Slots(rs[1..]) == Slots(rs) - {SlotOf(rs[0])}
    ensures forall r :: r in rs && r.key == rs[0].key ==> r == rs[0]
  {
    forall r | r in rs && r != rs[0] ensures r in rs[1..] && r.key != rs[0].key {
      var i :| 0 <= i < |rs| && rs[i] == r;
      assert rs[1..][i - 1] == r;
    }
    forall r | r in rs[1..] ensures r in rs && r.key != rs[0].key {
      var i :| 0 <= i < |rs| - 1 && rs[1..][i] == r;
      assert rs[i + 1] == r;
    }
  }

  lemma NoSlots(rs: seq<Requirement>)
    ensures Slots(rs) == {} <==> rs == []
  {
    if rs != [] { assert SlotOf(rs[0]) in Slots(rs); }
  }

  /** The least key leads both lists. */
  lemma SameHead(a: seq<Requirement>, b: seq<Requirement>)
    requires ByKey(a) && ByKey(b) && UniqueKeys(a) && UniqueKeys(b) && Slots(a) == Slots(b) && a != []
    ensures b != [] && SlotOf(a[0]) == SlotOf(b[0])
  {
    assert SlotOf(a[0]) in Slots(b);
    var x :| x in b && SlotOf(x) == SlotOf(a[0]);
    assert SlotOf(b[0]) in Slots(a);
    var y :| y in a && SlotOf(y) == SlotOf(b[0]);
    assert b[0].key <= x.key && a[0].key <= y.key;
    SlotsOfTail(b);
  }

  lemma {:induction false} KeyOrderIsUnique(a: seq<Requirement>, b: seq<Requirement>)
    requires ByKey(a) && ByKey(b) && UniqueKeys(a) && UniqueKeys(b) && Slots(a) == Slots(b)
    ensures SlotList(a) == SlotList(b)
  {
    if a == [] {
      NoSlots(b);
    } else {
      SameHead(a, b);
      SlotsOfTail(a);
      SlotsOfTail(b);
      KeyOrderIsUnique(a[1..], b[1..]);
      assert SlotList(a) == [SlotOf(a[0])] + SlotList(a[1..]);
      assert SlotList(b) == [SlotOf(b[0])] + SlotList(b[1..]);
    }
  }

  /**
   * For lists without repeated keys, as registration admits them, being the same means offering the same set of slots:
   * the order of slots and of extensions never matters, a missing maximum equals the server-wide one, and nothing else
   * is forgiven.
   */
  lemma SameMeansSameSetOfSlots(left: seq<Requirement>, right: seq<Requirement>)
    requires UniqueKeys(left) && UniqueKeys(right)
    ensures SameRequirements(left, right) <==> Slots(left) == Slots(right)
  {
    SameMeansSameSlots(left, right);
    SortKeepsSlots(left);
    SortKeepsSlots(right);
    SortKeepsKeysUnique(left);
    SortKeepsKeysUnique(right);
    SortByKeyMeans(left);
    SortByKeyMeans(right);
    if Slots(left) == Slots(right) {
      KeyOrderIsUnique(SortByKey(left), SortByKey(right));
    } else if SlotList(SortByKey(left)) == SlotList(SortByKey(right)) {
      SameListSameSet(SortByKey(left), SortByKey(right));
    }
  }

  lemma SameListSameSet(a: seq<Requirement>, b: seq<Requirement>)
    requires SlotList(a) == SlotList(b)
    ensures Slots(a) == Slots(b)
  {
    assert |a| == |SlotList(a)| == |b|;
    forall slot | slot in Slots(a) ensures slot in Slots(b) {
      var i :| 0 <= i < |a| && SlotOf(a[i]) == slot;
      assert SlotList(b)[i] == slot && b[i] in b;
    }
    forall slot | slot in Slots(b) ensures slot in Slots(a) {
      var i :| 0 <= i < |b| && SlotOf(b[i]) == slot;
      assert SlotList(a)[i] == slot && a[i] in a;
    }
  }
}
