/**
 * Copying and freezing plain data.  Objects and arrays are heap nodes that may share children and
 * may form cycles; the copy fills its nodes in place while the recursion is still below them.
 */
module GraphCopy {
  import opened Common

  class Node {
    const isArray: bool
    var entries: seq<Entry>
    var frozen: bool

    constructor (isArray: bool)
      ensures this.isArray == isArray && entries == [] && !frozen
    {
      this.isArray := isArray;
      entries := [];
      frozen := false;
    }
  }

  /** Primitives, and every other value the copy hands on unchanged, are abstract numbers. */
  datatype Value = Prim(n: int) | Ref(node: Node)
  datatype Entry = Entry(key: int, value: Value)

  /** The two parameters the source passes down by reference. */
  class SeenMap {
    var copies: map<Node, Node>
    constructor ()
      ensures copies == map[]
    {
      copies := map[];
    }
  }

  class SeenSet {
    var nodes: set<Node>
    constructor ()
      ensures nodes == {}
    {
      nodes := {};
    }
  }

  // ----- graphs as values -----

  /** The entries of a finite set of nodes. */
  type Graph = map<Node, seq<Entry>>

  ghost predicate Depicts(g: Graph)
    reads g.Keys
  {
    forall n {:trigger n.entries} :: n in g ==> n.entries == g[n]
  }

  ghost predicate ValueIn(v: Value, nodes: set<Node>) {
    v.Ref? ==> v.node in nodes
  }

  ghost predicate EntriesIn(entries: seq<Entry>, nodes: set<Node>) {
    forall i :: 0 <= i < |entries| ==> ValueIn(entries[i].value, nodes)
  }

  ghost predicate Closed(g: Graph) {
    forall n {:trigger EntriesIn(g[n], g.Keys)} :: n in g ==> EntriesIn(g[n], g.Keys)
  }

  /** The nodes at most d steps away from a value. */
  ghost function Within(g: Graph, v: Value, d: nat): set<Node>
    decreases d, 0
  {
    if v.Prim? then {}
    else if d == 0 || v.node !in g then {v.node}
    else {v.node} + WithinAny(g, g[v.node], d - 1)
  }

  ghost function WithinAny(g: Graph, entries: seq<Entry>, d: nat): set<Node>
    decreases d, 1, |entries|
  {
    if entries == [] then {} else WithinAny(g, entries[..|entries| - 1], d) + Within(g, entries[|entries| - 1].value, d)
  }

  ghost predicate Reachable(g: Graph, v: Value, n: Node) {
    exists d: nat :: n in Within(g, v, d)
  }

  lemma {:induction false} EntryWithin(g: Graph, entries: seq<Entry>, i: nat, d: nat)
    requires i < |entries|
    ensures Within(g, entries[i].value, d) <= WithinAny(g, entries, d)
    decreases |entries|
  {
    if i < |entries| - 1 {
      EntryWithin(g, entries[..|entries| - 1], i, d);
    }
  }

  /** A child of a node reached in d steps is reached in d + 1. */
  lemma {:induction false} ChildWithin(g: Graph, v: Value, d: nat, n: Node, i: nat)
    requires n in Within(g, v, d) && n in g && i < |g[n]| && g[n][i].value.Ref?
    ensures g[n][i].value.node in Within(g, v, d + 1)
    decreases d, 0
  {
    if n == v.node {
      EntryWithin(g, g[n], i, d);
    } else {
      ChildWithinAny(g, g[v.node], d - 1, n, i);
    }
  }

  lemma {:induction false} ChildWithinAny(g: Graph, entries: seq<Entry>, d: nat, n: Node, i: nat)
    requires n in WithinAny(g, entries, d) && n in g && i < |g[n]| && g[n][i].value.Ref?
    ensures g[n][i].value.node in WithinAny(g, entries, d + 1)
    decreases d, |entries| + 1
  {
    if n in Within(g, entries[|entries| - 1].value, d) {
      ChildWithin(g, entries[|entries| - 1].value, d, n, i);
    } else {
      ChildWithinAny(g, entries[..|entries| - 1], d, n, i);
    }
  }

  /** A set that contains the root and the children of its members contains everything reachable. */
  lemma {:induction false} ClosedSetHoldsReachable(g: Graph, v: Value, d: nat, nodes: set<Node>)
    requires ValueIn(v, nodes)
    requires forall n :: n in nodes ==> n in g && EntriesIn(g[n], nodes)
    ensures Within(g, v, d) <= nodes
    decreases d, 0
  {
    if v.Ref? && d > 0 {
      ClosedSetHoldsAny(g, g[v.node], d - 1, nodes);
    }
  }

  lemma {:induction false} ClosedSetHoldsAny(g: Graph, entries: seq<Entry>, d: nat, nodes: set<Node>)
    requires EntriesIn(entries, nodes)
    requires forall n :: n in nodes ==> n in g && EntriesIn(g[n], nodes)
    ensures WithinAny(g, entries, d) <= nodes
    decreases d, |entries| + 1
  {
    if entries != [] {
      ClosedSetHoldsAny(g, entries[..|entries| - 1], d, nodes);
      ClosedSetHoldsReachable(g, entries[|entries| - 1].value, d, nodes);
    }
  }

  // ----- copies -----

  ghost predicate Corresponds(m: map<Node, Node>, v: Value, c: Value) {
    if v.Prim? then c == v else v.node in m && c == Ref(m[v.node])
  }

  ghost predicate EntriesCorrespond(m: map<Node, Node>, from: seq<Entry>, to: seq<Entry>) {
    && |from| == |to|
    && (forall i :: 0 <= i < |from| ==> from[i].key == to[i].key && Corresponds(m, from[i].value, to[i].value))
  }

  /** Copies are pairwise different, none is an original, and each has the kind of its original. */
  ghost predicate CopiesOk(g: Graph, m: map<Node, Node>) {
    && m.Keys <= g.Keys
    && (forall k :: k in m ==> m[k] !in g && m[k].isArray == k.isArray)
    && (forall j, k :: j in m && k in m && m[j] == m[k] ==> j == k)
  }

  ghost predicate Built(g: Graph, m: map<Node, Node>, k: Node)
    requires k in m && k in g
    reads m[k]
  {
    EntriesCorrespond(m, g[k], m[k].entries)
  }

  lemma OneMoreCorresponds(m: map<Node, Node>, from: seq<Entry>, to: seq<Entry>, i: nat, child: Value)
    requires i < |from| && EntriesCorrespond(m, from[..i], to) && Corresponds(m, from[i].value, child)
    ensures EntriesCorrespond(m, from[..i + 1], to + [Entry(from[i].key, child)])
  {
  }

  lemma OneMoreCopy(g: Graph, m: map<Node, Node>, node: Node, fill: Node)
    requires CopiesOk(g, m) && node in g && node !in m && fill !in g && (forall k :: k in m ==> m[k] != fill) &&
        fill.isArray == node.isArray
    ensures CopiesOk(g, m[node := fill]) && Extends(m, m[node := fill])
    ensures g.Keys - m[node := fill].Keys < g.Keys - m.Keys
  {
    assert node in g.Keys - m.Keys;
  }

  /** The copies of a set of originals. */
  ghost function Images(m: map<Node, Node>, ks: set<Node>): set<Node> {
    set k | k in ks && k in m :: m[k]
  }

  ghost predicate AllBuilt(g: Graph, m: map<Node, Node>, ks: set<Node>)
    requires ks <= m.Keys && ks <= g.Keys
    reads Images(m, ks)
  {
    forall k {:trigger Built(g, m, k)} :: k in ks ==> Built(g, m, k)
  }

  ghost predicate Extends(m: map<Node, Node>, m2: map<Node, Node>) {
    m.Keys <= m2.Keys && forall k :: k in m ==> m2[k] == m[k]
  }

  lemma CorrespondenceGrows(m: map<Node, Node>, m2: map<Node, Node>, from: seq<Entry>, to: seq<Entry>)
    requires Extends(m, m2) && EntriesCorrespond(m, from, to)
    ensures EntriesCorrespond(m2, from, to)
  {
  }

  /** Nodes built before a call and nodes built by it are together built under the grown table. */
  lemma BuiltTogether(g: Graph, before: map<Node, Node>, middle: map<Node, Node>, now: map<Node, Node>)
    requires Extends(before, middle) && Extends(middle, now) && now.Keys <= g.Keys
    requires AllBuilt(g, middle, middle.Keys - before.Keys)
    requires AllBuilt(g, now, now.Keys - middle.Keys)
    ensures AllBuilt(g, now, now.Keys - before.Keys)
    ensures Images(now, now.Keys - before.Keys) ==
            Images(middle, middle.Keys - before.Keys) + Images(now, now.Keys - middle.Keys)
  {
    forall k | k in now.Keys - before.Keys
      ensures Built(g, now, k)
    {
      if k in middle {
        assert Built(g, middle, k);
        CorrespondenceGrows(middle, now, g[k], middle[k].entries);
      }
    }
  }

  lemma OtherImages(g: Graph, m: map<Node, Node>, node: Node, ks: set<Node>)
    requires CopiesOk(g, m) && node in m && node !in ks && ks <= m.Keys
    ensures m[node] !in Images(m, ks)
  {
  }

  /**
   * Copies what `value` reaches and `seen` does not hold yet.  Nothing that existed before is written
   * except the table of copies; the copies still being filled further up stay as they are.
   */
  method CloneData(value: Value, seen: SeenMap, ghost g: Graph) returns (copy: Value)
    requires Depicts(g) && Closed(g) && ValueIn(value, g.Keys) && CopiesOk(g, seen.copies)
    modifies seen
    ensures CopiesOk(g, seen.copies) && Extends(old(seen.copies), seen.copies)
    ensures Corresponds(seen.copies, value, copy)
    ensures AllBuilt(g, seen.copies, seen.copies.Keys - old(seen.copies.Keys))
    ensures fresh(Images(seen.copies, seen.copies.Keys - old(seen.copies.Keys)))
    decreases g.Keys - seen.copies.Keys, 1
  {
    if value.Prim? {
      return value;
    }
    var node := value.node;
    if node in seen.copies {
      return Ref(seen.copies[node]);
    }
    var fill := CloneUnseen(node, seen, g);
    return Ref(fill);
  }

  /** The branch for an object met for the first time: its empty copy is entered before its children are visited. */
  method CloneUnseen(node: Node, seen: SeenMap, ghost g: Graph) returns (fill: Node)
    requires Depicts(g) && Closed(g) && node in g && node !in seen.copies && CopiesOk(g, seen.copies)
    modifies seen
    ensures CopiesOk(g, seen.copies) && Extends(old(seen.copies), seen.copies)
    ensures node in seen.copies && seen.copies[node] == fill
    ensures AllBuilt(g, seen.copies, seen.copies.Keys - old(seen.copies.Keys))
    ensures fresh(Images(seen.copies, seen.copies.Keys - old(seen.copies.Keys)))
    decreases g.Keys - seen.copies.Keys, 0
  {
    fill := new Node(node.isArray);
    ghost var before := seen.copies;
    seen.copies := seen.copies[node := fill];
    OneMoreCopy(g, before, node, fill);
    ghost var marked := seen.copies;
    FillEntries(node, fill, seen, g);
    OpenedAndFilled(g, before, marked, seen.copies, node);
  }

  lemma OpenedAndFilled(g: Graph, before: map<Node, Node>, marked: map<Node, Node>, now: map<Node, Node>, node: Node)
    requires node !in before && marked.Keys == before.Keys + {node} && Extends(before, marked) && Extends(marked, now)
    requires now.Keys <= g.Keys && Built(g, now, node)
    requires AllBuilt(g, now, now.Keys - marked.Keys)
    ensures AllBuilt(g, now, now.Keys - before.Keys)
    ensures Images(now, now.Keys - before.Keys) == Images(now, now.Keys - marked.Keys) + {now[node]}
  {
  }

  /** The loop over the entries of one object or array, run while its copy is half built. */
  method FillEntries(node: Node, fill: Node, seen: SeenMap, ghost g: Graph)
    requires Depicts(g) && Closed(g) && CopiesOk(g, seen.copies)
    requires node in g && node in seen.copies && seen.copies[node] == fill && fill.entries == []
    modifies seen, fill
    ensures CopiesOk(g, seen.copies) && Extends(old(seen.copies), seen.copies)
    ensures Built(g, seen.copies, node)
    ensures AllBuilt(g, seen.copies, seen.copies.Keys - old(seen.copies.Keys))
    ensures fresh(Images(seen.copies, seen.copies.Keys - old(seen.copies.Keys)))
    decreases g.Keys - seen.copies.Keys, 2
  {
    ghost var before := seen.copies;
    var i := 0;
    while i < |node.entries|
      invariant 0 <= i <= |g[node]| && Depicts(g)
      invariant CopiesOk(g, seen.copies) && Extends(before, seen.copies)
      invariant EntriesCorrespond(seen.copies, g[node][..i], fill.entries)
      invariant AllBuilt(g, seen.copies, seen.copies.Keys - before.Keys)
      invariant fresh(Images(seen.copies, seen.copies.Keys - before.Keys))
    {
      ghost var middle := seen.copies;
      var entry := node.entries[i];
      assert entry == g[node][i] && EntriesIn(g[node], g.Keys);
      var child := CloneData(entry.value, seen, g);
      BuiltTogether(g, before, middle, seen.copies);
      CorrespondenceGrows(middle, seen.copies, g[node][..i], fill.entries);
      OneMoreCorresponds(seen.copies, g[node], fill.entries, i, child);
      OtherImages(g, seen.copies, node, seen.copies.Keys - before.Keys);
      fill.entries := fill.entries + [Entry(entry.key, child)];
      i := i + 1;
    }
    assert g[node][..i] == g[node];
  }

  // ----- the whole copy -----

  /** Every pair of the table has corresponding entries, the copies being described by h. */
  ghost predicate Isomorphic(g: Graph, h: Graph, m: map<Node, Node>) {
    && m.Keys <= g.Keys
    && (forall k :: k in m ==> m[k] in h && EntriesCorrespond(m, g[k], h[m[k]]))
    && (forall j, k :: j in m && k in m && m[j] == m[k] ==> j == k)
  }

  /** The part of a graph that a value reaches. */
  ghost function ReachablePart(g: Graph, v: Value): Graph {
    map n | n in g && Reachable(g, v, n) :: g[n]
  }

  lemma ReachablePartIsClosed(g: Graph, v: Value)
    requires Closed(g) && ValueIn(v, g.Keys)
    ensures Closed(ReachablePart(g, v)) && ValueIn(v, ReachablePart(g, v).Keys)
  {
    var r := ReachablePart(g, v);
    assert v.Ref? ==> v.node in Within(g, v, 0);
    forall n | n in r
      ensures EntriesIn(r[n], r.Keys)
    {
      var d: nat :| n in Within(g, v, d);
      assert EntriesIn(g[n], g.Keys);
      forall i | 0 <= i < |g[n]| && g[n][i].value.Ref?
        ensures g[n][i].value.node in r
      {
        ChildWithin(g, v, d, n, i);
      }
    }
  }

  lemma ReachableIsIn(g: Graph, v: Value, nodes: set<Node>, n: Node)
    requires ValueIn(v, nodes) && Reachable(g, v, n)
    requires forall k :: k in nodes ==> k in g && EntriesIn(g[k], nodes)
    ensures n in nodes
  {
    var d: nat :| n in Within(g, v, d);
    ClosedSetHoldsReachable(g, v, d, nodes);
  }

  /**
   * The copy ends on every graph, cycles included.  The returned table pairs exactly the nodes reached
   * from the value with pairwise different new nodes, described by h, of the same kind and with
   * corresponding entries; the originals are untouched.
   */
  method Clone(value: Value, ghost g: Graph) returns (copy: Value, ghost copies: map<Node, Node>, ghost h: Graph)
    requires Depicts(g) && Closed(g) && ValueIn(value, g.Keys)
    ensures Depicts(g)
    ensures forall k :: k in copies <==> Reachable(g, value, k)
    ensures Corresponds(copies, value, copy) && Isomorphic(g, h, copies)
    ensures Depicts(h) && h.Keys == copies.Values && fresh(h.Keys)
    ensures forall k :: k in copies ==> copies[k].isArray == k.isArray
  {
    ghost var part := ReachablePart(g, value);
    ReachablePartIsClosed(g, value);
    var seen := new SeenMap();
    ghost var none := seen.copies.Keys;
    copy := CloneData(value, seen, part);
    copies := seen.copies;
    assert copies.Keys - none == copies.Keys;
    forall k | k in copies
      ensures fresh(copies[k]) && EntriesCorrespond(copies, g[k], copies[k].entries) && EntriesIn(g[k], copies.Keys)
    {
      assert copies[k] in Images(copies, copies.Keys) && Built(part, copies, k);
      EntriesBehind(copies, g[k], copies[k].entries);
    }
    forall k | Reachable(g, value, k)
      ensures k in copies
    {
      ReachableIsIn(g, value, copies.Keys, k);
    }
    h := map c | c in copies.Values :: c.entries;
  }

  lemma EntriesBehind(m: map<Node, Node>, from: seq<Entry>, to: seq<Entry>)
    requires EntriesCorrespond(m, from, to)
    ensures EntriesIn(from, m.Keys)
  {
    forall i | 0 <= i < |from|
      ensures ValueIn(from[i].value, m.Keys)
    {
      assert Corresponds(m, from[i].value, to[i].value);
    }
  }

  // ----- what a reader of the copy sees -----

  /** Walks from a value along entry positions. */
  ghost function Follow(g: Graph, v: Value, path: seq<nat>): Option<Value>
    decreases |path|
  {
    if path == [] then Some(v)
    else if v.Ref? && v.node in g && path[0] < |g[v.node]| then Follow(g, g[v.node][path[0]].value, path[1..])
    else None
  }

  /** Every path can be walked in the copy exactly when it can in the original, to corresponding values. */
  lemma {:induction false} SamePaths(g: Graph, h: Graph, m: map<Node, Node>, v: Value, c: Value, path: seq<nat>)
    requires Isomorphic(g, h, m) && Corresponds(m, v, c)
    ensures Follow(g, v, path).Some? <==> Follow(h, c, path).Some?
    ensures Follow(g, v, path).Some? ==> Corresponds(m, Follow(g, v, path).value, Follow(h, c, path).value)
    decreases |path|
  {
    if path != [] && v.Ref? {
      assert EntriesCorrespond(m, g[v.node], h[c.node]);
      if path[0] < |g[v.node]| {
        assert Corresponds(m, g[v.node][path[0]].value, h[c.node][path[0]].value);
        SamePaths(g, h, m, g[v.node][path[0]].value, h[c.node][path[0]].value, path[1..]);
      }
    }
  }

  /** Sharing and cycles are kept: two paths meet in the copy exactly when they meet in the original. */
  lemma SameSharing(g: Graph, h: Graph, m: map<Node, Node>, v: Value, c: Value, p: seq<nat>, q: seq<nat>)
    requires Isomorphic(g, h, m) && Corresponds(m, v, c)
    requires Follow(g, v, p).Some? && Follow(g, v, q).Some?
    ensures Follow(g, v, p) == Follow(g, v, q) <==> Follow(h, c, p) == Follow(h, c, q)
  {
    SamePaths(g, h, m, v, c, p);
    SamePaths(g, h, m, v, c, q);
  }

  // ----- freezing -----

  /** Freezes what `value` reaches and `seen` does not hold yet, children before their owner. */
  method FreezeData(value: Value, seen: SeenSet, ghost g: Graph)
    requires Depicts(g) && Closed(g) && ValueIn(value, g.Keys) && seen.nodes <= g.Keys
    modifies seen, g.Keys`frozen
    ensures old(seen.nodes) <= seen.nodes <= g.Keys && ValueIn(value, seen.nodes)
    ensures forall n :: n in seen.nodes - old(seen.nodes) ==> n.frozen && EntriesIn(g[n], seen.nodes)
    ensures forall n :: n in g && n !in seen.nodes - old(seen.nodes) ==> n.frozen == old(n.frozen)
    decreases g.Keys - seen.nodes, 0
  {
    if value.Prim? {
      return;
    }
    var node := value.node;
    if node in seen.nodes {
      return;
    }
    ghost var before := seen.nodes;
    seen.nodes := seen.nodes + {node};
    assert node in g.Keys - before;
    var i := 0;
    while i < |node.entries|
      invariant 0 <= i <= |g[node]| && Depicts(g)
      invariant before + {node} <= seen.nodes <= g.Keys
      invariant EntriesIn(g[node][..i], seen.nodes)
      invariant forall n :: n in seen.nodes - before - {node} ==> n.frozen && EntriesIn(g[n], seen.nodes)
      invariant forall n :: n in g && n !in seen.nodes - before - {node} ==> n.frozen == old(n.frozen)
    {
      assert EntriesIn(g[node], g.Keys);
      ghost var middle := seen.nodes;
      FreezeData(node.entries[i].value, seen, g);
      MoreNodes(g, before, middle, seen.nodes, node);
      assert g[node][..i + 1] == g[node][..i] + [g[node][i]];
      i := i + 1;
    }
    assert g[node][..i] == g[node];
    node.frozen := true;
  }

  lemma MoreNodes(g: Graph, before: set<Node>, middle: set<Node>, now: set<Node>, node: Node)
    requires middle <= now <= g.Keys
    requires forall n :: n in middle - before - {node} ==> EntriesIn(g[n], middle)
    ensures forall n :: n in middle - before - {node} ==> EntriesIn(g[n], now)
  {
  }

  /** Exactly the reachable objects become frozen; whatever was frozen stays so, and no entry changes. */
  method Freeze(value: Value, ghost g: Graph)
    requires Depicts(g) && Closed(g) && ValueIn(value, g.Keys)
    modifies g.Keys`frozen
    ensures Depicts(g)
    ensures forall n :: n in g ==> n.frozen == (old(n.frozen) || Reachable(g, value, n))
  {
    ghost var part := ReachablePart(g, value);
    ReachablePartIsClosed(g, value);
    var seen := new SeenSet();
    FreezeData(value, seen, part);
    forall n | n in g && Reachable(g, value, n)
      ensures n in seen.nodes
    {
      ReachableIsIn(g, value, seen.nodes, n);
    }
  }
}
