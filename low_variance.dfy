// src/random.hpp and src/random.cpp: the generators that lower the variance between simulation
// runs. Each remembers, per choice point, a permutation of the possible results and hands its
// entries out one by one, reshuffling only once all of them were used.
module LowVariance {
  import opened Util
  import opened Rng

  /** A remembered choice: the value handed out and where the next choice of that branch is
      kept (a child node, a later block, or -1 for none yet). */
  datatype Entry = Entry(value: int, link: int)

  /** A choice point: its entries, in their current shuffled order, and the index `i` of the
      next entry to hand out. */
  datatype Node = Node(i: int, entries: seq<Entry>)

  function Values(es: seq<Entry>): (r: seq<int>)
    ensures |r| == |es|
  {
    seq(|es|, k requires 0 <= k < |es| => es[k].value)
  }

  /** The entries `value = j`, `link = first + j` for `j < n`. */
  function Children(first: int, n: nat): (r: seq<Entry>)
    ensures |r| == n
  {
    seq(n, j => Entry(j, first + j))
  }

  /** Swapping entries swaps their values. */
  lemma SwapValues(es: seq<Entry>, i: nat, j: nat)
    requires i < |es| && j < |es|
    ensures Values(Swap(es, i, j)) == Swap(Values(es), i, j)
  {
  }

  /** Shuffling the entries shuffles their values the same way and draws the same numbers. */
  lemma {:induction false} ShuffleFromValues(es: seq<Entry>, i: nat, st: State)
    requires 1 <= i
    ensures ShuffleFrom(es, i, st).1 == ShuffleFrom(Values(es), i, st).1
    ensures Values(ShuffleFrom(es, i, st).0) == ShuffleFrom(Values(es), i, st).0
    decreases |es| - i
  {
    if i < |es| {
      var j := Draw(st, i + 1);
      ShuffleFromStep(es, i, st);
      ShuffleFromStep(Values(es), i, st);
      if i != j {
        SwapValues(es, i, j);
        ShuffleFromValues(Swap(es, i, j), i + 1, Step(st));
      } else {
        ShuffleFromValues(es, i + 1, Step(st));
      }
    }
  }

  /** What a node is between two calls: a non-negative cursor, values forming a permutation of
      `0 .. n - 1`, and links in `lo .. bound - 1`. */
  ghost predicate NodeOk(nd: Node, lo: int, bound: int) {
    && nd.i >= 0 && IsRangePerm(Values(nd.entries))
    && forall e :: e in nd.entries ==> lo <= e.link < bound
  }

  /** The result of taking the next entry of a node. */
  datatype Taken = Taken(node: Node, rng: State, index: nat)

  /** `if (i >= size) { shuffle; i = 0; }` then the entry at `i++`: the step both tree-shaped
      generators share. */
  function Take(nd: Node, st: State): (r: Taken)
    requires |nd.entries| > 0 && nd.i >= 0
    ensures r.index < |r.node.entries| == |nd.entries| && r.node.i == r.index + 1
    ensures multiset(r.node.entries) == multiset(nd.entries)
  {
    if nd.i < |nd.entries| then Taken(nd.(i := nd.i + 1), st, nd.i)
    else
      ShuffledPermutes(nd.entries, st);
      var sh := Shuffled(nd.entries, st);
      Taken(Node(1, sh.0), sh.1, 0)
  }

  /** Taking keeps the node well formed, hands out a value below the node's size, and touches
      the generator only when every entry was used. */
  lemma TakeKeeps(nd: Node, st: State, lo: int, bound: int)
    requires |nd.entries| > 0 && NodeOk(nd, lo, bound)
    ensures var r := Take(nd, st);
      && NodeOk(r.node, lo, bound)
      && r.node.entries[r.index] in nd.entries
      && 0 <= r.node.entries[r.index].value < |nd.entries|
      && (nd.i < |nd.entries| ==> r.rng == st && r.node.entries == nd.entries && r.index == nd.i)
  {
    var r := Take(nd, st);
    if nd.i >= |nd.entries| {
      ShuffleFromValues(nd.entries, 1, st);
      ShuffledPermutes(Values(nd.entries), st);
    }
    forall e | e in r.node.entries ensures lo <= e.link < bound {
      assert e in multiset(r.node.entries);
    }
    assert Values(r.node.entries)[r.index] == r.node.entries[r.index].value;
    assert r.node.entries[r.index] in multiset(nd.entries);
    RangePermBounds(Values(r.node.entries), r.index);
  }

  /** The take step on a node, shuffling its entries with `rng` when they are used up. */
  method TakeNext(rng: RNG, nd: Node) returns (node: Node, index: nat)
    requires |nd.entries| > 0 && nd.i >= 0
    modifies rng
    ensures Taken(node, rng.state, index) == Take(nd, old(rng.state))
  {
    node := nd;
    if nd.i >= |nd.entries| {
      var shuffled := rng.ShuffleSeq(nd.entries);
      node := Node(0, shuffled);
    }
    index := node.i;
    node := node.(i := node.i + 1);
  }

  // ---------------------------------------------------------------------------
  // LowVarianceRNG: a tree of choices

  /** The tree of `LowVarianceRNG`: node 0 is the root, an entry's link is the node of the
      subtree it owns, `cur` is the node of the next choice. */
  datatype Tree = Tree(nodes: seq<Node>, cur: nat, budget: int)

  datatype TreeDraw = TreeDraw(tree: Tree, rng: State, value: int)

  ghost predicate TreeValid(t: Tree) {
    && t.cur < |t.nodes|
    && forall k :: 0 <= k < |t.nodes| ==> NodeOk(t.nodes[k], 0, |t.nodes|)
  }

  /** `LowVarianceRNG::random(n)`. */
  function TreeRandom(t: Tree, st: State, n: int): (r: TreeDraw)
    requires TreeValid(t)
  {
    if n <= 1 then TreeDraw(t, st, 0)
    else if t.budget < n then TreeDraw(t, Step(st), Draw(st, n))
    else if |t.nodes[t.cur].entries| == 0 then
      TreeTake(Grown(t, n), st, n)
    else if |t.nodes[t.cur].entries| != n then TreeDraw(t, Step(st), Draw(st, n))
    else TreeTake(t, st, n)
  }

  /** The current node gets `n` children, values `0 .. n - 1` each with a new empty subtree,
      and its cursor at `n` so that the first visit shuffles them. */
  function Grown(t: Tree, n: nat): (r: Tree)
    requires TreeValid(t)
    ensures TreeValid(r) && r.cur == t.cur && r.budget == t.budget
    ensures |r.nodes| == |t.nodes| + n && |r.nodes[r.cur].entries| == n
  {
    var k := |t.nodes|;
    var parent := Node(n, Children(k, n));
    var r := Tree(t.nodes[t.cur := parent] + seq(n, _ => Node(0, [])), t.cur, t.budget);
    assert Values(parent.entries) == Range(n);
    assert forall j :: 0 <= j < k ==> NodeOk(r.nodes[j], 0, k + n) by {
      forall j | 0 <= j < k ensures NodeOk(r.nodes[j], 0, k + n) {
        if j != t.cur {
          assert r.nodes[j] == t.nodes[j] && NodeOk(t.nodes[j], 0, k);
        }
      }
    }
    r
  }

  /** Take the next entry of the current node, descend into its subtree, divide the budget. */
  function TreeTake(t: Tree, st: State, n: int): (r: TreeDraw)
    requires TreeValid(t) && |t.nodes[t.cur].entries| == n > 1
  {
    var x := Take(t.nodes[t.cur], st);
    var e := x.node.entries[x.index];
    TakeKeeps(t.nodes[t.cur], st, 0, |t.nodes|);
    TreeDraw(Tree(t.nodes[t.cur := x.node], e.link, t.budget / n), x.rng, e.value)
  }

  /** The generator stays well formed; it returns 0 for `n <= 1` and otherwise a value in
      `0 .. n - 1`, whichever branch it takes. */
  lemma TreeRandomInRange(t: Tree, st: State, n: int)
    requires TreeValid(t)
    ensures var r := TreeRandom(t, st, n);
      && TreeValid(r.tree)
      && (n <= 1 ==> r.value == 0)
      && (n > 1 ==> 0 <= r.value < n)
  {
    if n > 1 && t.budget >= n {
      if |t.nodes[t.cur].entries| == 0 {
        TreeTakeKeeps(Grown(t, n), st, n);
      } else if |t.nodes[t.cur].entries| == n {
        TreeTakeKeeps(t, st, n);
      }
    }
  }

  lemma TreeTakeKeeps(t: Tree, st: State, n: int)
    requires TreeValid(t) && |t.nodes[t.cur].entries| == n > 1
    ensures var r := TreeTake(t, st, n);
      && TreeValid(r.tree) && 0 <= r.value < n
      && |r.tree.nodes| == |t.nodes| && r.tree.budget == t.budget / n
  {
    var x := Take(t.nodes[t.cur], st);
    TakeKeeps(t.nodes[t.cur], st, 0, |t.nodes|);
    var nodes := t.nodes[t.cur := x.node];
    assert forall k :: 0 <= k < |nodes| ==> NodeOk(nodes[k], 0, |nodes|) by {
      forall k | 0 <= k < |nodes| ensures NodeOk(nodes[k], 0, |nodes|) {
        if k != t.cur {
          assert nodes[k] == t.nodes[k];
        }
      }
    }
  }

  /** Within a round the generator is not consulted: while the current node still has unused
      entries, the call hands out the next one, leaves the generator's state alone, descends
      into that entry's subtree and divides the budget by n. */
  lemma TreeMidRound(t: Tree, st: State, n: int)
    requires TreeValid(t) && n > 1 && t.budget >= n
    requires |t.nodes[t.cur].entries| == n && t.nodes[t.cur].i < n
    ensures var r := TreeRandom(t, st, n);
      var nd := t.nodes[t.cur];
      && r.rng == st && r.value == nd.entries[nd.i].value
      && r.tree.cur == nd.entries[nd.i].link && r.tree.budget == t.budget / n
      && r.tree.nodes == t.nodes[t.cur := nd.(i := nd.i + 1)]
  {
  }

  /** The entries of a round are handed out in order and no value twice: two different
      positions of a node hold different values. */
  lemma TreeRoundDistinct(t: Tree, k: nat, j1: nat, j2: nat)
    requires TreeValid(t) && k < |t.nodes| && j1 < j2 < |t.nodes[k].entries|
    ensures t.nodes[k].entries[j1].value != t.nodes[k].entries[j2].value
  {
    var v := Values(t.nodes[k].entries);
    RangePermDistinct(v, j1, j2);
  }

  /** `LowVarianceRNG`: the tree, the cursor, the budget and the generator it falls back on. */
  class LowVarianceRNG {
    var nodes: seq<Node>
    var cur: nat
    var budget: int
    const initialBudget: int
    const rng: RNG

    function Model(): Tree
      reads this
    {
      Tree(nodes, cur, budget)
    }

    /** `LowVarianceRNG(rng, budget)`: an empty root, the cursor on it. */
    constructor(rng: RNG, budget: int)
      ensures Model() == Tree([Node(0, [])], 0, budget) && TreeValid(Model())
      ensures initialBudget == budget && this.rng == rng
    {
      nodes := [Node(0, [])];
      cur := 0;
      this.budget := budget;
      initialBudget := budget;
      this.rng := rng;
      new;
      assert Values([]) == Range(0);
    }

    /** `start()`: back to the root with the whole budget; the remembered tree stays. */
    method Start()
      modifies this
      ensures Model() == Tree(old(nodes), 0, initialBudget)
      ensures TreeValid(old(Model())) ==> TreeValid(Model())
    {
      cur := 0;
      budget := initialBudget;
    }

    /** `random(n)`. */
    method Random(n: int) returns (r: int)
      requires TreeValid(Model())
      modifies this, rng
      ensures TreeDraw(Model(), rng.state, r) == TreeRandom(old(Model()), old(rng.state), n)
    {
      if n <= 1 {
        return 0;
      }
      if budget < n {
        r := rng.Random(n);
        return;
      }
      if |nodes[cur].entries| == 0 {
        Grow(n);
      } else if |nodes[cur].entries| != n {
        r := rng.Random(n);
        return;
      }
      TakeKeeps(nodes[cur], rng.state, 0, |nodes|);
      var nd, index := TakeNext(rng, nodes[cur]);
      var e := nd.entries[index];
      nodes := nodes[cur := nd];
      cur := e.link;
      budget := budget / n;
      r := e.value;
    }

    /** The loop giving the current node its `n` children. */
    method Grow(n: nat)
      requires TreeValid(Model())
      modifies this
      ensures Model() == Grown(old(Model()), n)
    {
      var k := |nodes|;
      var grown := nodes;
      var children: seq<Entry> := [];
      var j := 0;
      while j < n
        invariant 0 <= j <= n && |grown| == k + j
        invariant children == Children(k, j)
        invariant grown == nodes + seq(j, _ => Node(0, []))
      {
        children := children + [Entry(j, k + j)];
        grown := grown + [Node(0, [])];
        j := j + 1;
      }
      nodes := grown[cur := Node(n, children)];
    }
  }

  // ---------------------------------------------------------------------------
  // FastLowVarianceRNG: the same choices kept in one vector

  /** Position of an entry: its block and its index within the block. */
  datatype Slot = Slot(block: nat, index: nat)

  /** The vector of `FastLowVarianceRNG`: one block per header `{n, i}`, followed in the source
      by its `n` entries `{value, next}`; `cur` is the header of the next choice or -1, `prev`
      the entry handed out last. */
  datatype Flat = Flat(blocks: seq<Node>, cur: int, prev: Option<Slot>, budget: int)

  datatype FlatDraw = FlatDraw(table: Flat, rng: State, value: int)

  ghost predicate FlatValid(f: Flat) {
    && -1 <= f.cur < |f.blocks|
    && (f.prev.Some? ==> f.prev.value.block < |f.blocks|
                         && f.prev.value.index < |f.blocks[f.prev.value.block].entries|)
    && forall k :: 0 <= k < |f.blocks| ==> NodeOk(f.blocks[k], -1, |f.blocks|)
  }

  lemma FlatValidFacts(f: Flat)
    requires FlatValid(f)
    ensures -1 <= f.cur < |f.blocks|
    ensures f.prev.Some? ==> f.prev.value.block < |f.blocks|
                             && f.prev.value.index < |f.blocks[f.prev.value.block].entries|
    ensures 0 <= f.cur ==> NodeOk(f.blocks[f.cur], -1, |f.blocks|)
    ensures forall k :: 0 <= k < |f.blocks| ==> NodeOk(f.blocks[k], -1, |f.blocks|)
  {
  }

  /** `FastLowVarianceRNG::random(n)`. */
  function FlatRandom(f: Flat, st: State, n: int): (r: FlatDraw)
    requires FlatValid(f)
  {
    if n <= 1 then FlatDraw(f, st, 0)
    else if f.budget < n then FlatDraw(f, Step(st), Draw(st, n))
    else
      var f1 := if f.cur < 0 then Appended(f, n) else f;
      if |f1.blocks[f1.cur].entries| != n then FlatDraw(f1, Step(st), Draw(st, n))
      else FlatTake(f1, st, n)
  }

  /** A new block at the end of the vector, its entries `0 .. n - 1` not linked anywhere and its
      cursor at `n`; the entry handed out last now links to it. */
  function Appended(f: Flat, n: nat): (r: Flat)
    requires FlatValid(f)
    ensures FlatValid(r) && r.cur == |f.blocks| && r.prev == f.prev && r.budget == f.budget
    ensures |r.blocks| == |f.blocks| + 1 && |r.blocks[r.cur].entries| == n
  {
    var k := |f.blocks|;
    var linked := Relinked(f.blocks, f.prev, k);
    var unlinked := seq(n, j => Entry(j, -1));
    assert Values(unlinked) == Range(n);
    var r := Flat(linked + [Node(n, unlinked)], k, f.prev, f.budget);
    assert forall j :: 0 <= j < k ==> r.blocks[j] == linked[j];
    r
  }

  /** `if (prev_entry >= 0) entries[prev_entry].next = cur_entry;` */
  function Relinked(blocks: seq<Node>, at: Option<Slot>, target: int): (r: seq<Node>)
    requires at.Some? ==> at.value.block < |blocks| && at.value.index < |blocks[at.value.block].entries|
    requires forall k :: 0 <= k < |blocks| ==> NodeOk(blocks[k], -1, |blocks|)
    requires |blocks| <= target
    ensures |r| == |blocks|
    ensures forall k :: 0 <= k < |r| ==> |r[k].entries| == |blocks[k].entries|
    ensures forall k :: 0 <= k < |r| ==> NodeOk(r[k], -1, target + 1)
    ensures at.Some? ==> r[at.value.block].entries[at.value.index].link == target
  {
    if at.None? then
      assert forall k :: 0 <= k < |blocks| ==> NodeOk(blocks[k], -1, target + 1) by {
        forall k | 0 <= k < |blocks| ensures NodeOk(blocks[k], -1, target + 1) {
          assert NodeOk(blocks[k], -1, |blocks|);
        }
      }
      blocks
    else
      var nd := blocks[at.value.block];
      var es := nd.entries[at.value.index := nd.entries[at.value.index].(link := target)];
      assert Values(es) == Values(nd.entries);
      var r := blocks[at.value.block := nd.(entries := es)];
      assert forall k :: 0 <= k < |r| ==> NodeOk(r[k], -1, target + 1) by {
        forall k | 0 <= k < |r| ensures NodeOk(r[k], -1, target + 1) {
          assert NodeOk(blocks[k], -1, |blocks|);
        }
      }
      r
  }

  /** Take the next entry of the current block, remember its slot, follow its link. */
  function FlatTake(f: Flat, st: State, n: int): (r: FlatDraw)
    requires FlatValid(f) && 0 <= f.cur && |f.blocks[f.cur].entries| == n > 1
  {
    var x := Take(f.blocks[f.cur], st);
    var e := x.node.entries[x.index];
    FlatDraw(Flat(f.blocks[f.cur := x.node], e.link, Some(Slot(f.cur, x.index)), f.budget / n), x.rng, e.value)
  }

  /** The generator stays well formed; it returns 0 for `n <= 1` and otherwise a value in
      `0 .. n - 1`, whichever branch it takes. */
  lemma FlatRandomInRange(f: Flat, st: State, n: int)
    requires FlatValid(f)
    ensures var r := FlatRandom(f, st, n);
      && FlatValid(r.table)
      && (n <= 1 ==> r.value == 0)
      && (n > 1 ==> 0 <= r.value < n)
  {
    if n > 1 && f.budget >= n {
      var f1 := if f.cur < 0 then Appended(f, n) else f;
      if |f1.blocks[f1.cur].entries| == n {
        FlatTakeKeeps(f1, st, n);
      }
    }
  }

  lemma FlatTakeKeeps(f: Flat, st: State, n: int)
    requires FlatValid(f) && 0 <= f.cur && |f.blocks[f.cur].entries| == n > 1
    ensures var r := FlatTake(f, st, n);
      && FlatValid(r.table) && 0 <= r.value < n
      && |r.table.blocks| == |f.blocks| && r.table.budget == f.budget / n
  {
    var x := Take(f.blocks[f.cur], st);
    TakeKeeps(f.blocks[f.cur], st, -1, |f.blocks|);
    var blocks := f.blocks[f.cur := x.node];
    assert forall k :: 0 <= k < |blocks| ==> NodeOk(blocks[k], -1, |blocks|) by {
      forall k | 0 <= k < |blocks| ensures NodeOk(blocks[k], -1, |blocks|) {
        if k != f.cur {
          assert blocks[k] == f.blocks[k];
        }
      }
    }
  }

  /** A call with no current block opens a new one at the end, links the entry handed out last
      to it and then, its cursor being at `n`, shuffles it before handing out its first entry. */
  lemma FlatOpensBlock(f: Flat, st: State, n: int)
    requires FlatValid(f) && n > 1 && f.budget >= n && f.cur < 0
    ensures var r := FlatRandom(f, st, n);
      var k := |f.blocks|;
      && |r.table.blocks| == k + 1
      && r.table.prev == Some(Slot(k, 0))
      && r.table.blocks[k].i == 1
      && multiset(Values(r.table.blocks[k].entries)) == multiset(Range(n))
      && (f.prev.Some? ==> r.table.blocks[f.prev.value.block].entries[f.prev.value.index].link == k)
  {
    var f1 := Appended(f, n);
    FlatTakeKeeps(f1, st, n);
    var x := Take(f1.blocks[f1.cur], st);
    TakeKeeps(f1.blocks[f1.cur], st, -1, |f1.blocks|);
  }

  /** Within a round the generator is not consulted: while the current block still has unused
      entries, the call hands out the next one, remembers its slot, follows its link and
      divides the budget by n. */
  lemma FlatMidRound(f: Flat, st: State, n: int)
    requires FlatValid(f) && n > 1 && f.budget >= n && 0 <= f.cur
    requires |f.blocks[f.cur].entries| == n && f.blocks[f.cur].i < n
    ensures var r := FlatRandom(f, st, n);
      var nd := f.blocks[f.cur];
      && r.rng == st && r.value == nd.entries[nd.i].value
      && r.table.cur == nd.entries[nd.i].link && r.table.prev == Some(Slot(f.cur, nd.i))
      && r.table.budget == f.budget / n
      && r.table.blocks == f.blocks[f.cur := nd.(i := nd.i + 1)]
  {
  }

  /** A block requested with a different range is left alone: the call falls back on the plain
      generator. */
  lemma FlatOtherRange(f: Flat, st: State, n: int)
    requires FlatValid(f) && n > 1 && f.budget >= n && 0 <= f.cur
    requires |f.blocks[f.cur].entries| != n
    ensures FlatRandom(f, st, n) == FlatDraw(f, Step(st), Draw(st, n))
  {
  }

  /** `FastLowVarianceRNG`: the vector of blocks, the current block, the entry handed out last,
      the budget and the generator it falls back on. */
  class FastLowVarianceRNG {
    var blocks: seq<Node>
    var cur: int
    var prev: Option<Slot>
    var budget: int
    const rng: RNG

    function Model(): Flat
      reads this
    {
      Flat(blocks, cur, prev, budget)
    }

    /** An empty vector, no current block, nothing handed out yet. */
    constructor(rng: RNG, budget: int)
      ensures Model() == Flat([], -1, None, budget) && FlatValid(Model()) && this.rng == rng
    {
      blocks := [];
      cur := -1;
      prev := None;
      this.budget := budget;
      this.rng := rng;
    }

    /** `random(n)`. */
    method Random(n: int) returns (r: int)
      requires FlatValid(Model())
      modifies this, rng
      ensures FlatDraw(Model(), rng.state, r) == FlatRandom(old(Model()), old(rng.state), n)
    {
      hide FlatValid;
      FlatValidFacts(Model());
      if n <= 1 {
        return 0;
      }
      if budget < n {
        r := rng.Random(n);
        return;
      }
      if cur < 0 {
        OpenBlock(n);
        FlatValidFacts(Model());
      }
      if |blocks[cur].entries| != n {
        r := rng.Random(n);
        return;
      }
      TakeKeeps(blocks[cur], rng.state, -1, |blocks|);
      var nd, index := TakeNext(rng, blocks[cur]);
      var p := Slot(cur, index);
      blocks := blocks[cur := nd];
      prev := Some(p);
      cur := nd.entries[index].link;
      budget := budget / n;
      r := nd.entries[index].value;
    }

    /** A new block at the end of the vector, linked from the entry handed out last. */
    method OpenBlock(n: nat)
      requires FlatValid(Model())
      modifies this
      ensures Model() == Appended(old(Model()), n)
    {
      var k := |blocks|;
      blocks := Relinked(blocks, prev, k);
      var unlinked: seq<Entry> := [];
      var j := 0;
      while j < n
        invariant 0 <= j <= n && unlinked == seq(j, i => Entry(i, -1))
      {
        unlinked := unlinked + [Entry(j, -1)];
        j := j + 1;
      }
      blocks := blocks + [Node(n, unlinked)];
      cur := k;
    }
  }
}
