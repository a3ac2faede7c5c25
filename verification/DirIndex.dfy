/** The index of a hashed directory: entries in hash order over leaf blocks. */
module DirIndex {
  import opened DirBlock

  /** An index entry: the least hash of its block, odd when the block before ends with the same hash. */
  datatype Idx = Idx(key: nat, block: nat)

  function Even(k: nat): nat { k - k % 2 }

  // ------------------------------------------------------- one list of entries

  function NodeOf(nodes: map<nat, seq<Idx>>, b: nat): seq<Idx> { if b in nodes then nodes[b] else [] }

  /** A node's entries; the first one has its key in the parent. */
  function Keyed(key: nat, es: seq<Idx>): seq<Idx> {
    if es == [] then [] else [Idx(key, es[0].block)] + es[1..]
  }

  lemma KeyedAt(key: nat, es: seq<Idx>)
    ensures var m := Keyed(key, es);
      && |m| == |es| && (es != [] ==> m[0] == Idx(key, es[0].block)) && forall i :: 1 <= i < |es| ==> m[i] == es[i]
  {
  }

  function FlatNodes(root: seq<Idx>, nodes: map<nat, seq<Idx>>): seq<Idx> {
    if root == [] then [] else Keyed(root[0].key, NodeOf(nodes, root[0].block)) + FlatNodes(root[1..], nodes)
  }

  /** The entries that point to leaf blocks, over one or two levels. */
  function Flat(levels: nat, root: seq<Idx>, nodes: map<nat, seq<Idx>>): seq<Idx> {
    if levels == 0 then root else FlatNodes(root, nodes)
  }

  lemma {:induction false} FlatConcat(a: seq<Idx>, b: seq<Idx>, nodes: map<nat, seq<Idx>>)
    ensures FlatNodes(a + b, nodes) == FlatNodes(a, nodes) + FlatNodes(b, nodes)
    decreases |a|
  {
    hide Keyed, NodeOf;
    if a == [] {
      assert a + b == b;
    } else {
      FlatConcat(a[1..], b, nodes);
      assert (a + b)[1..] == a[1..] + b;
    }
  }

  lemma FlatOne(e: Idx, nodes: map<nat, seq<Idx>>)
    ensures FlatNodes([e], nodes) == Keyed(e.key, NodeOf(nodes, e.block))
  {
    assert [e][1..] == [];
  }

  lemma RootCut(root: seq<Idx>, i: nat)
    requires i < |root|
    ensures root == root[..i] + [root[i]] + root[i + 1..]
  {
  }

  lemma FlatAt(root: seq<Idx>, nodes: map<nat, seq<Idx>>, i: nat)
    requires i < |root|
    ensures FlatNodes(root, nodes) ==
            FlatNodes(root[..i], nodes) + Keyed(root[i].key, NodeOf(nodes, root[i].block))
            + FlatNodes(root[i + 1..], nodes)
  {
    hide FlatNodes, Keyed;
    RootCut(root, i);
    FlatConcat(root[..i] + [root[i]], root[i + 1..], nodes);
    FlatConcat(root[..i], [root[i]], nodes);
    FlatOne(root[i], nodes);
  }

  // ------------------------------------------------------------- hash order

  /** Keys do not decrease; the first one says nothing. */
  predicate Ordered(f: seq<Idx>) { forall i, j :: 1 <= i < j < |f| ==> f[i].key <= f[j].key }

  /** A hash that may be found in block i. */
  predicate Belongs(f: seq<Idx>, i: nat, h: nat)
    requires i < |f|
  {
    (i > 0 ==> Even(f[i].key) <= h) && (i + 1 < |f| ==> h < f[i + 1].key)
  }

  /** Where a search for h ends. */
  predicate IsPos(f: seq<Idx>, h: nat, g: nat) {
    g < |f| && (g > 0 ==> f[g].key <= h) && (g + 1 < |f| ==> h < f[g + 1].key)
  }

  /** Blocks with names of hash h lie from the search position up to the last block that is marked as
      going on with h. */
  lemma CollisionRange(f: seq<Idx>, h: nat, g: nat, e: nat, q: nat)
    requires Ordered(f) && IsPos(f, h, g) && g <= e < |f| && h % 2 == 0
    requires e + 1 < |f| ==> Even(f[e + 1].key) != h
    requires q < |f| && Belongs(f, q, h)
    ensures g <= q <= e
  {
    assert forall i, j :: 1 <= i <= j < |f| ==> f[i].key <= f[j].key;
  }

  /** The position found fits the hash. */
  lemma PosBelongs(f: seq<Idx>, h: nat, g: nat)
    requires IsPos(f, h, g)
    ensures Belongs(f, g, h)
  {
  }

  lemma OrderedPart(a: seq<Idx>, m: seq<Idx>, b: seq<Idx>)
    requires Ordered(a + m + b)
    ensures Ordered(m)
  {
    var w := a + m + b;
    assert forall i :: 0 <= i < |m| ==> w[|a| + i] == m[i];
  }

  /** Every node has an entry. */
  predicate Filled(root: seq<Idx>, nodes: map<nat, seq<Idx>>) {
    forall i :: 0 <= i < |root| ==> NodeOf(nodes, root[i].block) != []
  }

  lemma NodeOrdered(root: seq<Idx>, nodes: map<nat, seq<Idx>>, i: nat)
    requires Ordered(FlatNodes(root, nodes)) && i < |root|
    ensures Ordered(NodeOf(nodes, root[i].block))
  {
    hide FlatNodes, Keyed, NodeOf;
    var es := NodeOf(nodes, root[i].block);
    FlatAt(root, nodes, i);
    OrderedPart(FlatNodes(root[..i], nodes), Keyed(root[i].key, es), FlatNodes(root[i + 1..], nodes));
    KeyedOrdered(root[i].key, es);
  }

  lemma KeyedOrdered(key: nat, es: seq<Idx>)
    requires Ordered(Keyed(key, es))
    ensures Ordered(es)
  {
    hide Keyed;
    KeyedAt(key, es);
    var m := Keyed(key, es);
    forall k, l | 1 <= k < l < |es|
      ensures es[k].key <= es[l].key
    {
      assert m[k] == es[k] && m[l] == es[l];
    }
  }

  /** Position (i, j) in the list of all entries. */
  function Position(levels: nat, root: seq<Idx>, nodes: map<nat, seq<Idx>>, i: nat, j: nat): nat
    requires i <= |root|
  {
    if levels == 0 then i else |FlatNodes(root[..i], nodes)| + j
  }

  lemma PositionAt(root: seq<Idx>, nodes: map<nat, seq<Idx>>, i: nat, j: nat)
    requires i < |root| && j < |NodeOf(nodes, root[i].block)|
    ensures var f, g, es := FlatNodes(root, nodes), Position(1, root, nodes, i, j), NodeOf(nodes, root[i].block);
      && g < |f| && f[g].block == es[j].block && f[g].key == (if j == 0 then root[i].key else es[j].key)
      && (j + 1 < |es| ==> g + 1 < |f| && f[g + 1] == es[j + 1])
      && (j + 1 == |es| && i + 1 < |root| && NodeOf(nodes, root[i + 1].block) != [] ==>
            && Position(1, root, nodes, i + 1, 0) == g + 1 < |f|
            && f[g + 1] == Idx(root[i + 1].key, NodeOf(nodes, root[i + 1].block)[0].block))
      && (j + 1 == |es| && i + 1 == |root| ==> g + 1 == |f|)
  {
    hide FlatNodes, Keyed, NodeOf;
    var es := NodeOf(nodes, root[i].block);
    FlatAt(root, nodes, i);
    var a, m, b := FlatNodes(root[..i], nodes), Keyed(root[i].key, es), FlatNodes(root[i + 1..], nodes);
    KeyedAt(root[i].key, es);
    InMiddle(a, m, b, j);
    if j + 1 < |es| {
      InMiddle(a, m, b, j + 1);
    } else if i + 1 == |root| {
      NoNodes(root[i + 1..], nodes);
    } else if NodeOf(nodes, root[i + 1].block) != [] {
      NextNode(root, nodes, i);
    }
  }

  lemma NoNodes(root: seq<Idx>, nodes: map<nat, seq<Idx>>)
    requires root == []
    ensures FlatNodes(root, nodes) == []
  {
  }

  lemma NextNode(root: seq<Idx>, nodes: map<nat, seq<Idx>>, i: nat)
    requires i + 1 < |root| && NodeOf(nodes, root[i].block) != [] && NodeOf(nodes, root[i + 1].block) != []
    ensures var f, g, es := FlatNodes(root, nodes), |FlatNodes(root[..i + 1], nodes)|, NodeOf(nodes, root[i + 1].block);
      && g == |FlatNodes(root[..i], nodes)| + |NodeOf(nodes, root[i].block)| && g < |f|
      && f[g] == Idx(root[i + 1].key, es[0].block)
  {
    hide FlatNodes, Keyed, NodeOf;
    KeyedAt(root[i].key, NodeOf(nodes, root[i].block));
    KeyedAt(root[i + 1].key, NodeOf(nodes, root[i + 1].block));
    FlatAt(root, nodes, i + 1);
    InMiddle(FlatNodes(root[..i + 1], nodes), Keyed(root[i + 1].key, NodeOf(nodes, root[i + 1].block)),
             FlatNodes(root[i + 2..], nodes), 0);
    assert root[..i + 1] == root[..i] + [root[i]];
    FlatConcat(root[..i], [root[i]], nodes);
    FlatOne(root[i], nodes);
  }

  lemma InMiddle(a: seq<Idx>, m: seq<Idx>, b: seq<Idx>, j: nat)
    requires j < |m|
    ensures (a + m + b)[|a| + j] == m[j] && |a + m + b| == |a| + |m| + |b|
  {
  }

  lemma RootOrdered(root: seq<Idx>, nodes: map<nat, seq<Idx>>)
    requires Ordered(FlatNodes(root, nodes)) && Filled(root, nodes)
    ensures Ordered(root)
  {
    forall i, j | 1 <= i < j < |root|
      ensures root[i].key <= root[j].key
    {
      PositionAt(root, nodes, i, 0);
      PositionAt(root, nodes, j, 0);
      PositionGrows(root, nodes, 0, i);
      PositionGrows(root, nodes, i, j);
    }
  }

  lemma {:induction false} PositionGrows(root: seq<Idx>, nodes: map<nat, seq<Idx>>, i: nat, j: nat)
    requires i < j < |root| && Filled(root, nodes)
    ensures |FlatNodes(root[..i], nodes)| < |FlatNodes(root[..j], nodes)|
    decreases j
  {
    assert root[..j] == root[..j - 1] + [root[j - 1]];
    FlatConcat(root[..j - 1], [root[j - 1]], nodes);
    FlatOne(root[j - 1], nodes);
    if i < j - 1 { PositionGrows(root, nodes, i, j - 1); }
  }

  /** The two searches together are one in the whole list. */
  lemma PosInside(root: seq<Idx>, nodes: map<nat, seq<Idx>>, h: nat, i: nat, j: nat)
    requires Filled(root, nodes) && IsPos(root, h, i) && IsPos(NodeOf(nodes, root[i].block), h, j)
    ensures IsPos(FlatNodes(root, nodes), h, Position(1, root, nodes, i, j))
  {
    PositionAt(root, nodes, i, j);
    if i == 0 { assert root[..0] == []; }
  }

  // ------------------------------------------------------- index operations

  /** A new entry behind position g. */
  function Put(f: seq<Idx>, g: nat, e: Idx): seq<Idx>
    requires g < |f|
  {
    f[..g + 1] + [e] + f[g + 1..]
  }

  lemma PutInNode(root: seq<Idx>, nodes: map<nat, seq<Idx>>, i: nat, j: nat, e: Idx)
    requires i < |root| && root[i].block in nodes && j < |nodes[root[i].block]|
    requires forall k, l :: 0 <= k < l < |root| ==> root[k].block != root[l].block
    ensures Position(1, root, nodes, i, j) < |FlatNodes(root, nodes)|
    ensures FlatNodes(root, nodes[root[i].block := Put(nodes[root[i].block], j, e)])
         == Put(FlatNodes(root, nodes), Position(1, root, nodes, i, j), e)
  {
    hide FlatNodes, Keyed, Put;
    var b := root[i].block;
    var es := nodes[b];
    var nodes' := nodes[b := Put(es, j, e)];
    FlatAt(root, nodes, i);
    FlatAt(root, nodes', i);
    FlatSame(root[..i], nodes, nodes', b);
    FlatSame(root[i + 1..], nodes, nodes', b);
    PositionAt(root, nodes, i, j);
    PutKeyed(root[i].key, es, j, e);
    KeyedAt(root[i].key, es);
    PutMiddle(FlatNodes(root[..i], nodes), Keyed(root[i].key, es), FlatNodes(root[i + 1..], nodes), j, e);
  }

  lemma PutKeyed(key: nat, es: seq<Idx>, j: nat, e: Idx)
    requires j < |es|
    ensures |Keyed(key, es)| == |es| && Keyed(key, Put(es, j, e)) == Put(Keyed(key, es), j, e)
  {
    hide Keyed;
    KeyedAt(key, es);
    KeyedAt(key, Put(es, j, e));
    var x, y := Keyed(key, Put(es, j, e)), Put(Keyed(key, es), j, e);
    forall k | 0 <= k < |x|
      ensures x[k] == y[k]
    {
    }
  }

  lemma PutMiddle(a: seq<Idx>, m: seq<Idx>, b: seq<Idx>, j: nat, e: Idx)
    requires j < |m|
    ensures |a| + j < |a + m + b| && Put(a + m + b, |a| + j, e) == a + Put(m, j, e) + b
  {
    var w := a + m + b;
    assert w[..|a| + j + 1] == a + m[..j + 1] && w[|a| + j + 1..] == m[j + 1..] + b;
  }

  lemma {:induction false} FlatSame(root: seq<Idx>, nodes: map<nat, seq<Idx>>, nodes': map<nat, seq<Idx>>, b: nat)
    requires forall k :: 0 <= k < |root| ==> root[k].block != b
    requires forall x :: x != b ==> NodeOf(nodes, x) == NodeOf(nodes', x)
    ensures FlatNodes(root, nodes) == FlatNodes(root, nodes')
    decreases |root|
  {
    if root != [] {
      assert root[0].block != b;
      forall k | 0 <= k < |root| - 1 ensures root[1..][k].block != b { assert root[1..][k] == root[k + 1]; }
      FlatSame(root[1..], nodes, nodes', b);
    }
  }

  /** Splitting a node in two moves no entry. */
  lemma SplitNodeFlat(root: seq<Idx>, nodes: map<nat, seq<Idx>>, i: nat, l: nat, nb: nat)
    requires i < |root| && root[i].block in nodes && 0 < l < |nodes[root[i].block]|
    requires forall k, m :: 0 <= k < m < |root| ==> root[k].block != root[m].block
    requires forall k :: 0 <= k < |root| ==> root[k].block != nb
    ensures var es := nodes[root[i].block];
      FlatNodes(Put(root, i, Idx(es[l].key, nb)), nodes[root[i].block := es[..l]][nb := es[l..]])
        == FlatNodes(root, nodes)
  {
    hide FlatNodes, Keyed;
    var b := root[i].block;
    var es := nodes[b];
    var nodes' := nodes[b := es[..l]][nb := es[l..]];
    var e := Idx(es[l].key, nb);
    FlatAt(root, nodes, i);
    TwoChanges(root[..i], nodes, b, es[..l], nb, es[l..]);
    TwoChanges(root[i + 1..], nodes, b, es[..l], nb, es[l..]);
    PutInRoot(root, i, e);
    FlatConcat(root[..i] + [root[i]] + [e], root[i + 1..], nodes');
    FlatConcat(root[..i] + [root[i]], [e], nodes');
    FlatConcat(root[..i], [root[i]], nodes');
    FlatOne(root[i], nodes');
    FlatOne(e, nodes');
    KeyedSplit(root[i].key, es, l);
    var x, y, z := FlatNodes(root[..i], nodes), Keyed(root[i].key, es[..l]), Keyed(e.key, es[l..]);
    assert x + y + z == x + (y + z);
  }

  lemma PutInRoot(root: seq<Idx>, i: nat, e: Idx)
    requires i < |root|
    ensures Put(root, i, e) == root[..i] + [root[i]] + [e] + root[i + 1..]
  {
  }

  lemma KeyedSplit(key: nat, es: seq<Idx>, l: nat)
    requires 0 < l < |es|
    ensures Keyed(key, es[..l]) + Keyed(es[l].key, es[l..]) == Keyed(key, es)
  {
    hide Keyed;
    KeyedAt(key, es);
    KeyedAt(key, es[..l]);
    KeyedAt(es[l].key, es[l..]);
    var x, y := Keyed(key, es[..l]) + Keyed(es[l].key, es[l..]), Keyed(key, es);
    forall k | 0 <= k < |y|
      ensures x[k] == y[k]
    {
    }
  }

  lemma TwoChanges(root: seq<Idx>, nodes: map<nat, seq<Idx>>, b: nat, x: seq<Idx>, nb: nat, y: seq<Idx>)
    requires forall k :: 0 <= k < |root| ==> root[k].block != b && root[k].block != nb
    ensures FlatNodes(root, nodes[b := x][nb := y]) == FlatNodes(root, nodes)
  {
    FlatSame(root, nodes, nodes[b := x], b);
    FlatSame(root, nodes[b := x], nodes[b := x][nb := y], nb);
  }

  /** Copying the root into a node below it moves no entry. */
  lemma DeepenFlat(root: seq<Idx>, nodes: map<nat, seq<Idx>>, nb: nat)
    requires root != []
    ensures FlatNodes([Idx(root[0].key, nb)], nodes[nb := root]) == root
  {
    FlatOne(Idx(root[0].key, nb), nodes[nb := root]);
    assert Keyed(root[0].key, root) == root;
  }
}
