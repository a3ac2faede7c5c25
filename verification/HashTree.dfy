/** The hash tree of a directory, searched and extended in place. */
module HashTree {
  import opened DirBlock
  import opened DirIndex
  import opened DirSplit
  import opened DirTree

  datatype Status = Ok | Enospc

  function RootLimit(size: nat): nat
    requires size >= 1024
  {
    (size - 32) / 8
  }

  function NodeLimit(size: nat): nat
    requires size >= 1024
  {
    (size - 8) / 8
  }

  ghost predicate IndexOk(levels: nat, root: seq<Idx>, nodes: map<nat, seq<Idx>>, next: nat, size: nat) {
    && size >= 1024 && levels <= 1 && 0 < |root| <= RootLimit(size)
    && (levels == 1 ==>
          && Filled(root, nodes) && Distinct(root) && Under(root, next)
          && forall i :: 0 <= i < |root| ==> |NodeOf(nodes, root[i].block)| <= NodeLimit(size))
  }

  /** Whether a further entry of 8 bytes has no place: in the root behind 32 bytes of dot entries and info, in a node
      behind the 8 bytes of an unused directory entry. */
  predicate Crowded(levels: nat, entries: nat, size: nat) {
    (if levels == 0 then 32 else 8) + 8 * (entries + 1) > size
  }

  /** Every index block holds its entries. */
  ghost predicate IndexInBytes(levels: nat, root: seq<Idx>, nodes: map<nat, seq<Idx>>, size: nat) {
    && 32 + 8 * |root| <= size
    && (levels == 1 ==> forall i :: 0 <= i < |root| ==> 8 + 8 * |NodeOf(nodes, root[i].block)| <= size)
  }

  /** The limits in the headers are what the blocks hold. */
  lemma LimitsInBytes(n: nat, size: nat)
    requires size >= 1024
    ensures n <= RootLimit(size) <==> 32 + 8 * n <= size
    ensures n <= NodeLimit(size) <==> 8 + 8 * n <= size
    ensures n <= RootLimit(size) ==> (n == RootLimit(size) <==> Crowded(0, n, size))
    ensures n <= NodeLimit(size) ==> (n == NodeLimit(size) <==> Crowded(1, n, size))
  {
  }

  lemma IndexBytes(levels: nat, root: seq<Idx>, nodes: map<nat, seq<Idx>>, next: nat, size: nat)
    requires IndexOk(levels, root, nodes, next, size)
    ensures IndexInBytes(levels, root, nodes, size)
  {
    hide RootLimit, NodeLimit;
    LimitsInBytes(|root|, size);
    if levels == 1 {
      forall i | 0 <= i < |root|
        ensures 8 + 8 * |NodeOf(nodes, root[i].block)| <= size
      {
        LimitsInBytes(|NodeOf(nodes, root[i].block)|, size);
      }
    }
  }

  lemma BottomBytes(levels: nat, root: seq<Idx>, nodes: map<nat, seq<Idx>>, next: nat, size: nat, i: nat)
    requires IndexOk(levels, root, nodes, next, size) && i < |root|
    ensures var n := |Bottom(levels, root, nodes, i)|;
      && (levels == 0 ==> (n < RootLimit(size) <==> !Crowded(0, n, size)))
      && (levels == 1 ==> (n < NodeLimit(size) <==> !Crowded(1, n, size)))
      && (|root| == RootLimit(size) <==> Crowded(0, |root|, size))
  {
    hide RootLimit, NodeLimit, Crowded;
    LimitsInBytes(|root|, size);
    LimitsInBytes(|Bottom(levels, root, nodes, i)|, size);
  }

  /** A cursor in the root and, with two levels, one in the node below it. */
  predicate OnPath(levels: nat, root: seq<Idx>, nodes: map<nat, seq<Idx>>, i: nat, j: nat) {
    i < |root| && if levels == 0 then j == 0 else j < |NodeOf(nodes, root[i].block)|
  }

  /** The entries of the node at the bottom of a path, and the cursor in it. */
  function Bottom(levels: nat, root: seq<Idx>, nodes: map<nat, seq<Idx>>, i: nat): seq<Idx>
    requires i < |root|
  {
    if levels == 0 then root else NodeOf(nodes, root[i].block)
  }

  lemma PathAt(levels: nat, root: seq<Idx>, nodes: map<nat, seq<Idx>>, i: nat, j: nat)
    requires levels <= 1 && OnPath(levels, root, nodes, i, j)
    ensures var f, g, c := Flat(levels, root, nodes), Position(levels, root, nodes, i, j), if levels == 0 then i else j;
      && g < |f| && c < |Bottom(levels, root, nodes, i)|
      && f[g].block == Bottom(levels, root, nodes, i)[c].block
  {
    if levels == 1 { PositionAt(root, nodes, i, j); }
  }

  /** Where the binary search of the entries p to q ends, whatever their order. */
  function Searched(es: seq<Idx>, h: nat, p: nat, q: int): (c: nat)
    requires 1 <= p <= q + 1 <= |es|
    ensures p - 1 <= c <= q
    decreases q - p
  {
    if p > q then p - 1
    else
      var m := p + (q - p) / 2;
      if es[m].key > h then Searched(es, h, p, m - 1) else Searched(es, h, m + 1, q)
  }

  /** In order it is the position of the hash. */
  lemma {:induction false} SearchedPos(es: seq<Idx>, h: nat, p: nat, q: int)
    requires 1 <= p <= q + 1 <= |es| && Ordered(es)
    requires p > 1 ==> es[p - 1].key <= h
    requires q + 1 < |es| ==> h < es[q + 1].key
    ensures IsPos(es, h, Searched(es, h, p, q))
    decreases q - p
  {
    hide Ordered;
    if p <= q {
      var m := p + (q - p) / 2;
      if es[m].key > h { SearchedPos(es, h, p, m - 1); } else { SearchedPos(es, h, m + 1, q); }
    }
  }

  /** The binary search in a node, whose first entry has no key. */
  method SearchNode(es: seq<Idx>, h: nat) returns (c: nat)
    requires es != []
    ensures c == Searched(es, h, 1, |es| - 1) && (Ordered(es) ==> IsPos(es, h, c))
  {
    hide Ordered, IsPos;
    if Ordered(es) { SearchedPos(es, h, 1, |es| - 1); }
    var p, q := 1, |es| - 1;
    while p <= q
      invariant 1 <= p <= q + 1 && q < |es|
      invariant Searched(es, h, p, q) == Searched(es, h, 1, |es| - 1)
      decreases q - p
    {
      var m := p + (q - p) / 2;
      if es[m].key > h { q := m - 1; } else { p := m + 1; }
    }
    c := p - 1;
  }

  lemma SearchesOk(levels: nat, root: seq<Idx>, nodes: map<nat, seq<Idx>>, next: nat, size: nat)
    requires IndexOk(levels, root, nodes, next, size) && Ordered(Flat(levels, root, nodes))
    ensures Ordered(root)
    ensures levels == 1 ==> forall i :: 0 <= i < |root| ==>
      Ordered(NodeOf(nodes, root[i].block)) && NodeOf(nodes, root[i].block) != []
  {
    hide FlatNodes, NodeOf;
    if levels == 1 {
      RootOrdered(root, nodes);
      forall i | 0 <= i < |root|
        ensures Ordered(NodeOf(nodes, root[i].block))
      {
        NodeOrdered(root, nodes, i);
      }
    }
  }

  /** One step to the right on the path. */
  lemma StepRight(levels: nat, root: seq<Idx>, nodes: map<nat, seq<Idx>>, i: nat, j: nat)
    requires levels <= 1 && OnPath(levels, root, nodes, i, j) && (levels == 1 ==> Filled(root, nodes))
    ensures var f, g := Flat(levels, root, nodes), Position(levels, root, nodes, i, j);
      var es := Bottom(levels, root, nodes, i);
      && (levels == 1 && j + 1 < |es| ==>
            OnPath(levels, root, nodes, i, j + 1) && Position(levels, root, nodes, i, j + 1) == g + 1 < |f|
            && f[g + 1].key == es[j + 1].key)
      && ((levels == 0 || j + 1 == |es|) && i + 1 < |root| ==>
            OnPath(levels, root, nodes, i + 1, 0) && Position(levels, root, nodes, i + 1, 0) == g + 1 < |f|
            && f[g + 1].key == root[i + 1].key)
      && ((levels == 0 || j + 1 == |es|) && i + 1 == |root| ==> g + 1 == |f|)
  {
    hide FlatNodes;
    if levels == 1 {
      PositionAt(root, nodes, i, j);
    }
  }

  class HashTree {
    var levels: nat
    var root: seq<Idx>
    var nodes: map<nat, seq<Idx>>
    var leaves: Leaves
    /** The number of the next block that the directory is extended by. */
    var next: nat
    const size: nat
    const hash: string -> nat

    /** ext4_dir_dx_init: a root with one entry and an empty leaf block. */
    constructor (size: nat, hash: string -> nat)
      requires size >= 1024 && size % 8 == 0 && forall n: string :: hash(n) % 2 == 0
      ensures Valid() && Content(F(), leaves) == multiset{} && this.size == size && this.hash == hash
      ensures levels == 0 && root == [Idx(0, 1)] && nodes == map[] && next == 2
    {
      this.size, this.hash := size, hash;
      levels, root, nodes, next := 0, [Idx(0, 1)], map[], 2;
      leaves := map[1 := [Rec(0, size, "")]];
      new;
      EmptyDir(size, hash);
    }

    ghost function F(): seq<Idx>
      reads this
    {
      Flat(levels, root, nodes)
    }

    ghost predicate Valid()
      reads this
    {
      && size % 8 == 0 && (forall n: string :: hash(n) % 2 == 0)
      && IndexOk(levels, root, nodes, next, size) && Dir(F(), leaves, size, next, hash)
    }

    /** What lookups need. */
    ghost predicate Searching()
      reads this
    {
      && size % 8 == 0 && (forall n: string :: hash(n) % 2 == 0)
      && IndexOk(levels, root, nodes, next, size) && Searchable(F(), leaves, size, next, hash)
    }

    lemma ValidSearching()
      requires Valid()
      ensures Searching()
    {
      hide Dir, Searchable, IndexOk;
      DirSearchable(F(), leaves, size, next, hash);
    }

    /** ext4_dir_dx_get_leaf. */
    method GetLeaf(h: nat) returns (i: nat, j: nat)
      requires Searching()
      ensures OnPath(levels, root, nodes, i, j)
      ensures IsPos(F(), h, Position(levels, root, nodes, i, j))
    {
      hide FlatNodes, NodeOf, Findable, LeavesOk, Distinct, Under, Ordered;
      SearchesOk(levels, root, nodes, next, size);
      i := SearchNode(root, h);
      j := 0;
      if levels == 1 {
        var node := NodeOf(nodes, root[i].block);
        j := SearchNode(node, h);
        PosInside(root, nodes, h, i, j);
      }
    }

    /** ext4_dir_dx_next_block: the next leaf, if it goes on with the hash. */
    method NextBlock(h: nat, i: nat, j: nat) returns (more: bool, i': nat, j': nat)
      requires Searching() && OnPath(levels, root, nodes, i, j) && h % 2 == 0
      ensures var g := Position(levels, root, nodes, i, j);
        && g < |F()|
        && (more <==> g + 1 < |F()| && Even(F()[g + 1].key) == h)
        && (more ==> OnPath(levels, root, nodes, i', j') && Position(levels, root, nodes, i', j') == g + 1)
    {
      hide FlatNodes, NodeOf, Findable, LeavesOk, Distinct, Under, Ordered;
      PathAt(levels, root, nodes, i, j);
      StepRight(levels, root, nodes, i, j);
      var es := Bottom(levels, root, nodes, i);
      i', j' := i, j;
      var key: nat;
      if levels == 1 && j + 1 < |es| {
        j' := j + 1;
        key := es[j'].key;
      } else if i + 1 < |root| {
        i', j' := i + 1, 0;
        key := root[i'].key;
      } else {
        return false, i, j;
      }
      more := h % 2 != 0 || Even(key) == h;
    }

    /** ext4_dir_dx_find_entry: found exactly if a linear scan of the leaf blocks finds the name. */
    method FindEntry(name: string) returns (found: bool, block: nat, at: nat, ghost g: nat)
      requires Searching()
      ensures found <==> exists d :: d in Content(F(), leaves) && d.name == name
      ensures found ==>
        && block in leaves && at < |leaves[block]|
        && leaves[block][at].ino != 0 && leaves[block][at].name == name
        && g < |F()| && F()[g].block == block
    {
      hide FlatNodes, NodeOf, Findable, Distinct, Under, Ordered, IsPos, Position, Flat, Content, Live, Chain;
      var h := hash(name);
      var i, j := GetLeaf(h);
      ghost var f, g0 := F(), Position(levels, root, nodes, i, j);
      PathAt(levels, root, nodes, i, j);
      g, block, at := g0, 0, 0;
      var more := true;
      while more
        invariant more ==> OnPath(levels, root, nodes, i, j) && g == Position(levels, root, nodes, i, j)
        invariant g0 <= g < |f|
        invariant forall k :: g0 <= k < (if more then g else g + 1) ==>
          f[k].block in leaves && !Holds(leaves[f[k].block], name)
        invariant !more && g + 1 < |f| ==> Even(f[g + 1].key) != h
        decreases |f| - g, more
      {
        PathAt(levels, root, nodes, i, j);
        assert LeafOk(leaves, f[g].block, size);
        block := Bottom(levels, root, nodes, i)[if levels == 0 then i else j].block;
        var buffer := new Buffer(leaves[block], size);
        found, at := buffer.Find(name);
        if found {
          HeldInContent(f, leaves, g, name);
          return;
        }
        more, i, j := NextBlock(h, i, j);
        if more { g := g + 1; }
      }
      found := false;
      NotElsewhere(f, leaves, size, next, hash, name, g0, g);
    }

    /** ext4_dir_dx_insert_entry at the bottom of a path. */
    method InsertIndex(i: nat, j: nat, e: Idx)
      requires OnPath(levels, root, nodes, i, j) && IndexOk(levels, root, nodes, next, size)
      requires HasRoom(levels, root, nodes, i, size)
      modifies `root, `nodes
      ensures IndexOk(levels, root, nodes, next, size)
      ensures var f, g := old(F()), Position(levels, old(root), old(nodes), i, j);
        g < |f| && F() == Put(f, g, e)
      ensures OnPath(levels, root, nodes, i, j)
      ensures Position(levels, root, nodes, i, j) == Position(levels, old(root), old(nodes), i, j)
      ensures levels == 1 ==> root == old(root)
    {
      hide FlatNodes, Put;
      if levels == 0 {
        PutSize(root, i, e);
        root := root[..i + 1] + [e] + root[i + 1..];
        PutIs(old(root), i, e);
      } else {
        var b := root[i].block;
        InNodes(root, nodes, i);
        PutInNode(root, nodes, i, j, e);
        var es := nodes[b];
        PutSize(es, j, e);
        PutIs(es, j, e);
        NodeChanged(root, nodes, i, Put(es, j, e), size);
        nodes := nodes[b := es[..j + 1] + [e] + es[j + 1..]];
      }
    }

    /** ext4_dir_dx_split_index: makes room in the node at the bottom of the path, if it is full. With
        two levels and a full root there is none. */
    method SplitIndex(i: nat, j: nat) returns (st: Status, i': nat, j': nat)
      requires Valid() && OnPath(levels, root, nodes, i, j)
      modifies `levels, `root, `nodes, `next
      ensures Valid() && F() == old(F())
      ensures var full := Crowded(old(levels), |Bottom(old(levels), old(root), old(nodes), i)|, size);
        && (st.Enospc? <==> full && old(levels) == 1 && Crowded(0, |old(root)|, size))
        && (!full || st.Enospc? ==> root == old(root) && nodes == old(nodes) && levels == old(levels))
        && next == old(next) + (if full && st.Ok? then 1 else 0)
        && (full && st.Ok? ==>
              levels == 1 && |root| == if old(levels) == 0 then 1 else |old(root)| + 1)
      ensures st.Ok? ==>
        && OnPath(levels, root, nodes, i', j') && HasRoom(levels, root, nodes, i', size)
        && Position(levels, root, nodes, i', j') == Position(old(levels), old(root), old(nodes), i, j)
    {
      hide FlatNodes, Dir, Put, Filled, RootLimit, NodeLimit, Crowded;
      BottomBytes(levels, root, nodes, next, size, i);
      var es := Bottom(levels, root, nodes, i);
      if |es| < (if levels == 0 then RootLimit(size) else NodeLimit(size)) { return Ok, i, j; }
      if levels > 0 && |root| == RootLimit(size) { return Enospc, i, j; }
      if levels > 0 { i', j' := SplitNode(i, j); } else { i', j' := Deepen(i, j); }
      st := Ok;
    }

    /** A full node below a root with room gives half of its entries to a new one. */
    method SplitNode(i: nat, j: nat) returns (i': nat, j': nat)
      requires Valid() && levels == 1 && OnPath(levels, root, nodes, i, j) && |root| < RootLimit(size)
      requires |Bottom(levels, root, nodes, i)| == NodeLimit(size)
      modifies `root, `nodes, `next
      ensures Valid() && F() == old(F())
      ensures OnPath(levels, root, nodes, i', j') && HasRoom(levels, root, nodes, i', size)
      ensures Position(levels, root, nodes, i', j') == Position(levels, old(root), old(nodes), i, j)
      ensures |root| == |old(root)| + 1 && next == old(next) + 1
    {
      hide FlatNodes, Dir, Put, Filled;
      NextUnder(F(), leaves, size, next, hash);
      var es := Bottom(levels, root, nodes, i);
      var b, l := root[i].block, |es| / 2;
      InNodes(root, nodes, i);
      assert root[i].block != next;
      SplitNodeFlat(root, nodes, i, l, next);
      SplitIndexOk(root, nodes, next, size, i, l, j);
      PutIs(root, i, Idx(es[l].key, next));
      nodes := nodes[b := es[..l]][next := es[l..]];
      root := root[..i + 1] + [Idx(es[l].key, next)] + root[i + 1..];
      i', j' := if j >= l then i + 1 else i, if j >= l then j - l else j;
      next := next + 1;
    }

    /** A full root moves into a new node and keeps one entry. */
    method Deepen(i: nat, j: nat) returns (i': nat, j': nat)
      requires Valid() && levels == 0 && OnPath(levels, root, nodes, i, j) && |root| == RootLimit(size)
      modifies `levels, `root, `nodes, `next
      ensures Valid() && F() == old(F())
      ensures OnPath(levels, root, nodes, i', j') && HasRoom(levels, root, nodes, i', size)
      ensures Position(levels, root, nodes, i', j') == Position(old(levels), old(root), old(nodes), i, j)
      ensures levels == 1 && |root| == 1 && next == old(next) + 1
    {
      hide FlatNodes, Dir, Put, Filled;
      NextUnder(F(), leaves, size, next, hash);
      DeepenFlat(root, nodes, next);
      DeepenOk(root, nodes, next, size, i);
      nodes := nodes[next := root];
      root := [Idx(root[0].key, next)];
      levels := 1;
      i', j' := 0, i;
      next := next + 1;
    }

    /** The part of ext4_dir_dx_split_data that sorts the names of leaf block b and writes the halves;
        the result is the index entry of the new block. */
    method HalveLeaf(b: nat, below: nat, ghost g: nat) returns (e: Idx, ghost lo: seq<Dirent>, ghost hi: seq<Dirent>)
      requires Valid() && g < |F()| && F()[g].block == b
      modifies `leaves
      ensures e.block == next && b in old(leaves) && b in leaves && next in leaves
      ensures Bytes(Live(old(leaves)[b])) > size / 2 ==>
        && Dir(Put(F(), g, e), leaves, size, next + 1, hash)
        && Content(Put(F(), g, e), leaves) == Content(F(), old(leaves))
        && Halves(Live(old(leaves)[b]), lo, hi, size, hash) && e.key == HalfKey(lo, hi, hash)
        && Half(leaves[b], lo, size) && Half(leaves[next], hi, size)
      ensures Bytes(Live(old(leaves)[b])) <= size / 2 && Live(old(leaves)[b]) != [] ==>
        && Duplicated(old(leaves), leaves, b, next, hi, size) && e.key == (if below == 0 then 1 else 0)
        && Content(Put(F(), g, e), leaves) == Content(F(), old(leaves)) + multiset(Live(old(leaves)[b]))
    {
      hide FlatNodes, Dir, Put, Flat, Position, Live, Bytes, Chain, Content, Belongs, Ordered, Packed, ByHash, Halves,
           Half, HalfKey, IndexOk, Proper;
      ghost var f, was := F(), leaves;
      LeafAt(f, leaves, size, next, hash, g);
      var names := LoadEntries(leaves[b]);
      var sorted := SortByHash(names, hash);
      SameBytes(names, sorted);
      LiveBytes(leaves[b], size);
      SameProper(names, sorted);
      var mid := Middle(sorted, size / 2);
      CutBytes(sorted, mid);
      var newHash := if Bytes(sorted) > size / 2 then hash(sorted[mid].name) else 0;
      var last := if mid > 0 then hash(sorted[mid - 1].name) else below;
      var continued := if newHash == last then 1 else 0;
      if mid > 0 {
        var x := Pack(sorted[..mid], size);
        leaves := leaves[b := x];
      }
      var y := Pack(sorted[mid..], size);
      leaves := leaves[next := y];
      e := Idx(newHash + continued, next);
      SizeOk(levels, root, nodes, next, size);
      lo, hi := sorted[..mid], sorted[mid..];
      if Bytes(sorted) > size / 2 {
        SplitGood(f, was, size, next, hash, g, sorted, mid, e);
      } else if names != [] {
        SplitBad(f, was, size, next, hash, g, sorted, e);
      }
    }

    /** ext4_dir_dx_split_data: divides the names of the leaf at the path by hash between its block and a
        new one. `below` is the word in memory before the sorted entries, which is looked at when all
        names fit into half a block; the names are then in both blocks afterwards. */
    method SplitData(i: nat, j: nat, below: nat) returns (e: Idx, ghost lo: seq<Dirent>, ghost hi: seq<Dirent>)
      requires Valid() && OnPath(levels, root, nodes, i, j) && HasRoom(levels, root, nodes, i, size)
      modifies `root, `nodes, `leaves, `next
      ensures OnPath(levels, root, nodes, i, j)
      ensures Position(levels, root, nodes, i, j) == Position(levels, old(root), old(nodes), i, j)
      ensures levels == 1 ==> root == old(root)
      ensures var f, g := old(F()), Position(levels, old(root), old(nodes), i, j);
        && g < |f| && F() == Put(f, g, e) && e.block == old(next) && next == old(next) + 1
        && var b := f[g].block;
        && b in old(leaves) && b in leaves && e.block in leaves
        && (Bytes(Live(old(leaves)[b])) > size / 2 ==>
              && Valid() && Content(F(), leaves) == Content(f, old(leaves))
              && Halves(Live(old(leaves)[b]), lo, hi, size, hash) && e.key == HalfKey(lo, hi, hash)
              && Half(leaves[b], lo, size) && Half(leaves[e.block], hi, size))
        && (Bytes(Live(old(leaves)[b])) <= size / 2 && Live(old(leaves)[b]) != [] ==>
              && Duplicated(old(leaves), leaves, b, e.block, hi, size) && e.key == (if below == 0 then 1 else 0)
              && IndexOk(levels, root, nodes, next, size)
              && Content(F(), leaves) == Content(f, old(leaves)) + multiset(Live(old(leaves)[b])))
    {
      hide FlatNodes, Dir, Put, Flat, Position, Live, Bytes, Content, Halves, Half, HalfKey, Duplicated, IndexOk;
      SizeOk(levels, root, nodes, next, size);
      PathAt(levels, root, nodes, i, j);
      var b := Bottom(levels, root, nodes, i)[if levels == 0 then i else j].block;
      e, lo, hi := HalveLeaf(b, below, Position(levels, root, nodes, i, j));
      InsertIndex(i, j, e);
      IndexNext(levels, root, nodes, next, size);
      next := next + 1;
    }

    /** ext4_dir_try_insert_entry on leaf block b. */
    method TryInsert(b: nat, d: Dirent) returns (ok: bool, ghost k: nat)
      requires b in leaves && Chain(leaves[b], size) && d.ino != 0
      modifies `leaves
      ensures ok <==> HasSpace(old(leaves)[b], d.name)
      ensures if ok then b in leaves && leaves == old(leaves)[b := leaves[b]] else leaves == old(leaves)
      ensures Chain(leaves[b], size) && (Tidy(old(leaves)[b]) ==> Tidy(leaves[b]))
      ensures ok ==> AddedAt(Live(old(leaves)[b]), Live(leaves[b]), k, d)
    {
      hide Live, Chain, Tidy, Fits, AddedAt, Need;
      var buffer := new Buffer(leaves[b], size);
      ok, k := buffer.TryInsert(d);
      if ok { leaves := leaves[b := buffer.recs]; }
    }

    /** The same, seen as an insertion into the directory at position g. */
    method TryLeaf(b: nat, d: Dirent, ghost g: nat) returns (ok: bool)
      requires Valid() && Proper([d]) && g < |F()| && F()[g].block == b && Belongs(F(), g, hash(d.name))
      modifies `leaves
      ensures Valid() && b in old(leaves)
      ensures ok <==> HasSpace(old(leaves)[b], d.name)
      ensures if ok then Content(F(), leaves) == Content(F(), old(leaves)) + multiset{d} else leaves == old(leaves)
    {
      hide FlatNodes, Dir, Flat, Live, Chain, Content, Belongs, IndexOk, HasSpace, AddedAt, Tidy;
      LeafAt(F(), leaves, size, next, hash, g);
      assert [d][0].ino != 0;
      ghost var was := leaves;
      ghost var k;
      ok, k := TryInsert(b, d);
      if ok { AddInLeaf(F(), was, size, next, hash, g, leaves[b], k, d); }
    }

    /** The last step of ext4_dir_dx_add_entry: the name goes into one of the two blocks, and whether it did is
        not looked at. When the names were divided it did exactly if it fits behind the names of that half; when
        they were copied, exactly if it is sent to the new block, since the old one has no room. */
    method InsertInHalf(b: nat, e: Idx, d: Dirent, ghost f: seq<Idx>, ghost g: nat, ghost lo: seq<Dirent>,
                        ghost hi: seq<Dirent>, ghost divided: bool)
      returns (ghost added: bool)
      requires b in leaves && e.block in leaves && g < |f| && f[g].block == b && F() == Put(f, g, e)
      requires Belongs(f, g, hash(d.name)) && Proper([d]) && Distinct(F()) && size >= 1024 && size % 8 == 0
      requires Chain(leaves[b], size) && Half(leaves[e.block], hi, size)
      requires if divided then Valid() && Half(leaves[b], lo, size)
               else !HasSpace(leaves[b], d.name) && Bytes(hi) <= size / 2
      modifies `leaves
      ensures divided ==> Valid()
      ensures !divided ==>
                && e.block in leaves && leaves == old(leaves)[e.block := leaves[e.block]]
                && Grown(old(leaves)[e.block], leaves[e.block], size, d, added)
      ensures added <==> if divided then Bytes(if hash(d.name) >= e.key then hi else lo) + Need(d.name) <= size
                         else hash(d.name) >= e.key
      ensures Content(F(), leaves) == Content(F(), old(leaves)) + if added then multiset{d} else multiset{}
    {
      hide FlatNodes, Dir, Put, Flat, Live, Bytes, Content, Half, IndexOk, Belongs, HasSpace, Proper, Ordered, Chain,
           Tidy, AddedAt, Distinct, Need, Grown;
      SideBelongs(f, g, e, hash(d.name));
      InUse(d);
      NeedOf(d);
      var target := if hash(d.name) >= e.key then e.block else b;
      ghost var g', now := if hash(d.name) >= e.key then g + 1 else g, leaves;
      if divided { LeafAt(F(), leaves, size, next, hash, g'); }
      HalfOk(leaves[e.block], hi, size);
      HalfSpace(leaves[e.block], hi, size, d.name);
      if divided { HalfSpace(leaves[b], lo, size, d.name); }
      var ok;
      ghost var k;
      ok, k := TryInsert(target, d);
      added := ok;
      if ok {
        ContentMore(F(), now, g', leaves[target], k, d);
        if divided { AddInLeaf(F(), now, size, next, hash, g', leaves[target], k, d); }
      }
      if !divided { GrownIs(now[e.block], leaves[e.block], hi, size, k, d, ok); }
    }

    /** ext4_dir_dx_add_entry. `leaf` is the block the index names for the hash, i and j the path to it. When
        two levels of index are full on the path the name is refused, even if the block has room. If the block
        has no room and more than half a block of names, these are divided into lo and hi, and the name is
        added exactly if it fits into its half: the result of this insertion is dropped. If the block has no
        room and at most half a block of names, the split goes wrong: all its names are in two blocks
        afterwards, and the name goes into the new one unless its hash is 0 and the word `below` is too. */
    method AddEntry(d: Dirent, below: nat)
      returns (st: Status, ghost leaf: nat, ghost added: bool, ghost i: nat, ghost j: nat, ghost lo: seq<Dirent>,
               ghost hi: seq<Dirent>)
      requires Valid() && Proper([d])
      modifies this
      ensures OnPath(old(levels), old(root), old(nodes), i, j) && old(levels) <= 1 && size >= 1024
      ensures var g := Position(old(levels), old(root), old(nodes), i, j);
        IsPos(old(F()), hash(d.name), g) && old(F())[g].block == leaf && leaf in old(leaves)
      ensures var full := Crowded(old(levels), |Bottom(old(levels), old(root), old(nodes), i)|, size);
        && (st.Enospc? <==> full && old(levels) == 1 && Crowded(0, |old(root)|, size))
        && (st.Ok? ==>
              && levels == (if full then 1 else old(levels))
              && next == old(next) + (if full then 1 else 0) + (if HasSpace(old(leaves)[leaf], d.name) then 0 else 1)
              && (old(levels) == 1 ==> |root| == |old(root)| + if full then 1 else 0))
      ensures IndexInBytes(levels, root, nodes, size)
      ensures st.Enospc? ==> Valid() && F() == old(F()) && leaves == old(leaves)
      ensures st.Ok? ==>
        var f, recs := old(F()), old(leaves)[leaf];
        var new' := if added then multiset{d} else multiset{};
        if HasSpace(recs, d.name) then Valid() && added && Content(F(), leaves) == Content(f, old(leaves)) + new'
        else if Bytes(Live(recs)) > size / 2 then
          && Valid() && Halves(Live(recs), lo, hi, size, hash)
          && Content(F(), leaves) == Content(f, old(leaves)) + new'
          && (added <==> Bytes(if hash(d.name) >= HalfKey(lo, hi, hash) then hi else lo) + Need(d.name) <= size)
          && (size >= 2048 ==> added)
        else
          && (added <==> below != 0 || hash(d.name) > 0)
          && Content(F(), leaves) == Content(f, old(leaves)) + multiset(Live(recs)) + new'
          && var g := Position(old(levels), old(root), old(nodes), i, j);
          (Searching() <==> g == 0 || f[g].key <= if below == 0 then 1 else 0)
    {
      hide FlatNodes, Dir, Put, Flat, Position, Live, Bytes, Content, Halves, Half, HalfKey, IndexOk, Belongs,
           HasSpace, IsPos, Proper, Ordered, Distinct, Chain, Tidy, Need, RootLimit, NodeLimit, Bottom, Searchable,
           Grown, Duplicated, Crowded, IndexInBytes;
      var h := hash(d.name);
      ValidSearching();
      var i0, j0 := GetLeaf(h);
      i, j, lo, hi := i0, j0, [], [];
      ghost var f, g, was := F(), Position(levels, root, nodes, i0, j0), leaves;
      SizeOk(levels, root, nodes, next, size);
      PathAt(levels, root, nodes, i0, j0);
      PosBelongs(f, h, g);
      var b := Bottom(levels, root, nodes, i0)[if levels == 0 then i0 else j0].block;
      leaf, added := b, false;
      LeafAt(f, leaves, size, next, hash, g);
      var i', j';
      st, i', j' := SplitIndex(i0, j0);
      IndexBytes(levels, root, nodes, next, size);
      if st.Enospc? { return; }
      var ok := TryLeaf(b, d, g);
      added := ok;
      if ok { return; }
      NotEmptyLeaf(was[b], size, d);
      var e;
      ghost var at := next;
      e, lo, hi := SplitData(i', j', below);
      IndexBytes(levels, root, nodes, next, size);
      PutDistinct(f, was, size, e.block, hash, g, e);
      ghost var divided := Bytes(Live(was[b])) > size / 2;
      if divided {
        SplitRoom(was[b], lo, hi, size, hash, d);
        HalfOk(leaves[b], lo, size);
      } else {
        DuplicatedIs(was, leaves, b, e.block, hi, size);
      }
      ghost var now := leaves;
      added := InsertInHalf(b, e, d, f, g, lo, hi, divided);
      if !divided {
        DoubledIs(was, now, leaves, size, at, hash, f, g, e, hi, d, added);
      }
    }

    /** ext4_dir_remove_entry on an indexed directory. */
    method RemoveEntry(name: string) returns (found: bool, ghost ino: nat)
      requires Valid()
      modifies `leaves
      ensures Valid() && F() == old(F())
      ensures found <==> exists d :: d in Content(F(), old(leaves)) && d.name == name
      ensures if found then Content(F(), old(leaves)) == Content(F(), leaves) + multiset{Dirent(name, ino)}
              else leaves == old(leaves)
    {
      hide FlatNodes, Dir, Searchable, Flat, Live, Chain, Content, IndexOk, AddedAt, Tidy;
      var block, at;
      ghost var g;
      ValidSearching();
      found, block, at, g := FindEntry(name);
      ino := 0;
      if found {
        LeafAt(F(), leaves, size, next, hash, g);
        ino := leaves[block][at].ino;
        var buffer := new Buffer(leaves[block], size);
        ghost var k := buffer.Remove(at);
        RemoveFromLeaf(F(), leaves, size, next, hash, g, buffer.recs, k, Dirent(name, ino));
        leaves := leaves[block := buffer.recs];
      }
    }
  }

  /** The old block as it was, all its names also in the new one. */
  ghost predicate Duplicated(was: Leaves, leaves: Leaves, b: nat, nb: nat, names: seq<Dirent>, size: nat)
    requires b in was && b in leaves && nb in leaves
  {
    leaves == was[nb := leaves[nb]] && leaves[b] == was[b] && Half(leaves[nb], names, size)
    && multiset(names) == multiset(Live(was[b]))
  }

  lemma DuplicatedIs(was: Leaves, leaves: Leaves, b: nat, nb: nat, names: seq<Dirent>, size: nat)
    requires b in was && b in leaves && nb in leaves && Duplicated(was, leaves, b, nb, names, size)
    ensures leaves[b] == was[b] && Half(leaves[nb], names, size) && Bytes(names) == Bytes(Live(was[b]))
  {
    hide Half, Bytes, Live;
    SameBytes(names, Live(was[b]));
  }

  /** The names were copied and the new one was added to the copy or not. */
  lemma DoubledIs(was: Leaves, now: Leaves, leaves: Leaves, size: nat, next: nat, hash: string -> nat, f: seq<Idx>,
                  g: nat, e: Idx, names: seq<Dirent>, d: Dirent, added: bool)
    requires Dir(f, was, size, next, hash) && g < |f| && e.block == next && e.key <= 1 && size % 4 == 0
    requires forall n: string :: hash(n) % 2 == 0
    requires f[g].block in was && f[g].block in now && next in now && next in leaves
    requires Duplicated(was, now, f[g].block, next, names, size)
    requires leaves == now[next := leaves[next]] && Grown(now[next], leaves[next], size, d, added)
    requires Belongs(f, g, hash(d.name)) && (added ==> hash(d.name) >= e.key)
    ensures Searchable(Put(f, g, e), leaves, size, next + 1, hash) <==> g == 0 || f[g].key <= e.key
  {
    hide Dir, Half, Live, Grown, Belongs, Searchable, Put;
    HalfOk(now[next], names, size);
    BagNames(names, Live(was[f[g].block]));
    assert leaves == was[next := leaves[next]];
    DoubledSearch(f, was, size, next, hash, g, e, now[next], leaves[next], d, added);
  }

  lemma BagNames(w: seq<Dirent>, v: seq<Dirent>)
    requires multiset(v) == multiset(w)
    ensures forall x :: x in v <==> x in w
  {
    forall x
      ensures x in v <==> x in w
    {
      assert x in multiset(v) <==> x in multiset(w);
    }
  }

  /** The copy after the insertion of the new name. */
  lemma GrownIs(recs: seq<Rec>, recs': seq<Rec>, names: seq<Dirent>, size: nat, k: nat, d: Dirent, added: bool)
    requires Half(recs, names, size) && size % 4 == 0 && Chain(recs', size) && (Tidy(recs) ==> Tidy(recs'))
    requires if added then AddedAt(Live(recs), Live(recs'), k, d) && Proper([d]) else recs' == recs
    ensures Grown(recs, recs', size, d, added)
  {
    hide Live, Chain, Tidy, Packed, Bytes, Need;
    HalfOk(recs, names, size);
    if added {
      AddedNames(Live(recs), Live(recs'), k, d);
      assert multiset([d]) == multiset{d};
      SameNames(Live(recs), Live(recs'), d);
    }
  }

  lemma SameNames(w: seq<Dirent>, v: seq<Dirent>, d: Dirent)
    requires multiset(v) == multiset(w) + multiset{d}
    ensures forall x :: x in v <==> x in w || x == d
  {
    forall x
      ensures x in v <==> x in w || x == d
    {
      assert x in multiset(v) <==> x in multiset(w) + multiset{d};
    }
  }

  lemma NeedOf(d: Dirent)
    requires Proper([d])
    ensures Need(d.name) <= 264
  {
    assert |[d][0].name| <= MAX_NAME;
    ShortName(d.name);
  }

  lemma SplitRoom(recs: seq<Rec>, lo: seq<Dirent>, hi: seq<Dirent>, size: nat, hash: string -> nat, d: Dirent)
    requires Chain(recs, size) && Proper(Live(recs)) && Halves(Live(recs), lo, hi, size, hash) && Proper([d])
    requires size >= 1024 && size % 8 == 0
    ensures Bytes(lo) + Need(d.name) <= size
    ensures size >= 2048 ==> Bytes(hi) + Need(d.name) <= size
  {
    hide Need, Bytes, Halves, Live, Chain;
    assert 0 < |[d][0].name| <= MAX_NAME;
    LiveBytes(recs, size);
    HalvesRoom(Live(recs), lo, hi, size, hash, d.name);
  }

  /** A block without names has space. */
  lemma NotEmptyLeaf(recs: seq<Rec>, size: nat, d: Dirent)
    requires Chain(recs, size) && Tidy(recs) && size >= 1024 && Proper([d]) && !HasSpace(recs, d.name)
    ensures Live(recs) != []
  {
    assert |[d][0].name| <= MAX_NAME;
    ShortName(d.name);
    if Live(recs) == [] {
      EmptyTidy(recs, size);
      assert Fits(recs[0], Need(d.name));
    }
  }

  lemma InUse(d: Dirent)
    requires Proper([d])
    ensures d.ino != 0
  {
    assert [d][0] == d;
  }

  lemma PutDistinct(f: seq<Idx>, leaves: Leaves, size: nat, next: nat, hash: string -> nat, g: nat, e: Idx)
    requires Dir(f, leaves, size, next, hash) && g < |f| && e.block == next
    ensures Distinct(Put(f, g, e))
  {
    PutBlocks(f, g, e, next);
  }

  lemma ContentMore(f: seq<Idx>, leaves: Leaves, g: nat, recs: seq<Rec>, k: nat, d: Dirent)
    requires g < |f| && Distinct(f) && f[g].block in leaves && AddedAt(Live(leaves[f[g].block]), Live(recs), k, d)
    ensures Content(f, leaves[f[g].block := recs]) == Content(f, leaves) + multiset{d}
  {
    hide Live, Content, AddedAt;
    ContentSet(f, leaves, g, recs);
    AddedNames(Live(leaves[f[g].block]), Live(recs), k, d);
    assert multiset([d]) == multiset{d};
    BagsAdd(Content(f, leaves[f[g].block := recs]), Content(f, leaves), multiset(Live(leaves[f[g].block])),
            multiset(Live(recs)), multiset{d});
  }

  lemma SizeOk(levels: nat, root: seq<Idx>, nodes: map<nat, seq<Idx>>, next: nat, size: nat)
    requires IndexOk(levels, root, nodes, next, size)
    ensures size >= 1024 && levels <= 1
  {
  }

  lemma IndexNext(levels: nat, root: seq<Idx>, nodes: map<nat, seq<Idx>>, next: nat, size: nat)
    requires IndexOk(levels, root, nodes, next, size)
    ensures IndexOk(levels, root, nodes, next + 1, size)
  {
  }

  lemma LeafAt(f: seq<Idx>, leaves: Leaves, size: nat, next: nat, hash: string -> nat, g: nat)
    requires Dir(f, leaves, size, next, hash) && g < |f|
    ensures f[g].block in leaves && f[g].block != next
    ensures Chain(leaves[f[g].block], size) && Tidy(leaves[f[g].block]) && Proper(Live(leaves[f[g].block]))
  {
    assert LeafOk(leaves, f[g].block, size);
  }

  /** More than half a block of names. */
  lemma SplitGood(f: seq<Idx>, leaves: Leaves, size: nat, next: nat, hash: string -> nat, g: nat,
                  sorted: seq<Dirent>, mid: nat, e: Idx)
    requires Dir(f, leaves, size, next, hash) && g < |f| && size >= 1024 && size % 8 == 0
    requires forall n: string :: hash(n) % 2 == 0
    requires f[g].block in leaves && multiset(sorted) == multiset(Live(leaves[f[g].block])) && ByHash(sorted, hash)
    requires Proper(sorted) && Bytes(sorted) <= size
    requires mid < |sorted| && Bytes(sorted[..mid]) <= size / 2 < Bytes(sorted[..mid + 1])
    requires mid > 0 ==>
      var y := hash(sorted[mid].name);
      e == Idx(y + (if y == hash(sorted[mid - 1].name) then 1 else 0), next)
    ensures mid > 0 && Bytes(sorted[..mid]) <= size && Bytes(sorted[mid..]) <= size
    ensures var x, y := Packed(sorted[..mid], size), Packed(sorted[mid..], size);
      var leaves' := leaves[f[g].block := x][next := y];
      && Dir(Put(f, g, e), leaves', size, next + 1, hash) && Content(Put(f, g, e), leaves') == Content(f, leaves)
      && Half(x, sorted[..mid], size) && Half(y, sorted[mid..], size)
      && Halves(Live(leaves[f[g].block]), sorted[..mid], sorted[mid..], size, hash)
      && e.key == HalfKey(sorted[..mid], sorted[mid..], hash)
  {
    hide Dir, Put, Live, Bytes, Chain, Tidy, Content, Packed, ByHash, Half, Need, Fits, HalfKey, Halves, Proper;
    WriteHalves(sorted, mid, size);
    Divided(Live(leaves[f[g].block]), sorted, mid, size, hash, e, next);
    HalfOk(Packed(sorted[..mid], size), sorted[..mid], size);
    HalfOk(Packed(sorted[mid..], size), sorted[mid..], size);
    CutBytes(sorted, mid);
    SplitLeaf(f, leaves, size, next, hash, g, e, sorted[..mid], sorted[mid..],
              Packed(sorted[..mid], size), Packed(sorted[mid..], size));
  }

  lemma Divided(names: seq<Dirent>, sorted: seq<Dirent>, mid: nat, size: nat, hash: string -> nat, e: Idx, next: nat)
    requires multiset(sorted) == multiset(names) && ByHash(sorted, hash) && 0 < mid < |sorted|
    requires Bytes(sorted[..mid]) <= size / 2 < Bytes(sorted[..mid]) + Need(sorted[mid..][0].name)
    requires var y := hash(sorted[mid].name);
      e == Idx(y + (if y == hash(sorted[mid - 1].name) then 1 else 0), next)
    ensures Halves(names, sorted[..mid], sorted[mid..], size, hash)
      && e == Idx(HalfKey(sorted[..mid], sorted[mid..], hash), next)
  {
    hide Bytes, Need, ByHash;
    assert sorted[..mid] + sorted[mid..] == sorted;
  }

  /** At most half a block of names: they are written to the new block and stay in the old one. */
  lemma SplitBad(f: seq<Idx>, leaves: Leaves, size: nat, next: nat, hash: string -> nat, g: nat,
                 sorted: seq<Dirent>, e: Idx)
    requires Dir(f, leaves, size, next, hash) && g < |f| && size % 4 == 0 && e.block == next
    requires f[g].block in leaves && multiset(sorted) == multiset(Live(leaves[f[g].block]))
    requires Proper(sorted) && Bytes(sorted) <= size && sorted != []
    ensures sorted[0..] == sorted
    ensures var leaves' := leaves[next := Packed(sorted, size)];
      && Half(leaves'[next], sorted, size)
      && Content(Put(f, g, e), leaves') == Content(f, leaves) + multiset(sorted)
  {
    hide Put, Live, Bytes, Chain, Tidy, Content, Packed, Need, Fits, Names;
    PackedOk(sorted, size);
    PackedTidy(sorted, size);
    var leaves' := leaves[next := Packed(sorted, size)];
    LeafAt(f, leaves, size, next, hash, g);
    NamesOf(leaves, f[g].block, leaves[f[g].block], next, Packed(sorted, size));
    assert leaves[f[g].block := leaves[f[g].block]] == leaves;
    NextFree(f, leaves, size, next, hash);
    ContentSame(f, leaves, leaves', next);
    PutInRoot(f, g, e);
    ContentAt(f, leaves', g);
    ContentConcat(f[..g] + [f[g]] + [e], f[g + 1..], leaves');
    ContentConcat(f[..g] + [f[g]], [e], leaves');
    ContentConcat(f[..g], [f[g]], leaves');
    ContentOne(f[g], leaves');
    ContentOne(e, leaves');
  }

  lemma NextFree(f: seq<Idx>, leaves: Leaves, size: nat, next: nat, hash: string -> nat)
    requires Dir(f, leaves, size, next, hash)
    ensures forall i :: 0 <= i < |f| ==> f[i].block != next
  {
  }

  predicate HasRoom(levels: nat, root: seq<Idx>, nodes: map<nat, seq<Idx>>, i: nat, size: nat)
    requires size >= 1024 && i < |root|
  {
    |Bottom(levels, root, nodes, i)| < if levels == 0 then RootLimit(size) else NodeLimit(size)
  }

  lemma PutSize(f: seq<Idx>, g: nat, e: Idx)
    requires g < |f|
    ensures |Put(f, g, e)| == |f| + 1
  {
  }

  lemma PutIs(f: seq<Idx>, g: nat, e: Idx)
    requires g < |f|
    ensures Put(f, g, e) == f[..g + 1] + [e] + f[g + 1..]
  {
  }

  lemma InNodes(root: seq<Idx>, nodes: map<nat, seq<Idx>>, i: nat)
    requires i < |root| && NodeOf(nodes, root[i].block) != []
    ensures root[i].block in nodes && nodes[root[i].block] == NodeOf(nodes, root[i].block)
  {
  }

  /** One node of a two-level index grows. */
  lemma NodeChanged(root: seq<Idx>, nodes: map<nat, seq<Idx>>, i: nat, es: seq<Idx>, size: nat)
    requires size >= 1024 && i < |root| && Filled(root, nodes) && Distinct(root) && 0 < |es| <= NodeLimit(size)
    requires forall k :: 0 <= k < |root| ==> |NodeOf(nodes, root[k].block)| <= NodeLimit(size)
    ensures var nodes' := nodes[root[i].block := es];
      && Filled(root, nodes') && FlatNodes(root[..i], nodes') == FlatNodes(root[..i], nodes)
      && forall k :: 0 <= k < |root| ==> |NodeOf(nodes', root[k].block)| <= NodeLimit(size)
  {
    FlatSame(root[..i], nodes, nodes[root[i].block := es], root[i].block);
  }

  lemma NextUnder(f: seq<Idx>, leaves: Leaves, size: nat, next: nat, hash: string -> nat)
    requires Dir(f, leaves, size, next, hash)
    ensures Dir(f, leaves, size, next + 1, hash) && Ordered(f)
  {
  }

  lemma SplitIndexOk(root: seq<Idx>, nodes: map<nat, seq<Idx>>, next: nat, size: nat, i: nat, l: nat, j: nat)
    requires IndexOk(1, root, nodes, next, size) && i < |root| < RootLimit(size) && root[i].block in nodes
    requires var es := nodes[root[i].block]; |es| == NodeLimit(size) && l == |es| / 2 && j < |es|
    ensures var es := nodes[root[i].block];
      && 0 < l < |es|
      && var root', nodes' := Put(root, i, Idx(es[l].key, next)), nodes[root[i].block := es[..l]][next := es[l..]];
      && IndexOk(1, root', nodes', next + 1, size)
      && var i', j' := if j >= l then i + 1 else i, if j >= l then j - l else j;
      && OnPath(1, root', nodes', i', j') && HasRoom(1, root', nodes', i', size)
      && Position(1, root', nodes', i', j') == Position(1, root, nodes, i, j)
  {
    hide FlatNodes, Distinct, Under;
    var b := root[i].block;
    var es := nodes[b];
    var e := Idx(es[l].key, next);
    BlockApart(root, next, i, i);
    PutBlocks(root, i, e, next);
    forall k | 0 <= k < |root| + 1
      ensures 0 < |NodeOf(nodes[b := es[..l]][next := es[l..]], Put(root, i, e)[k].block)| <= NodeLimit(size)
    {
      PutAt(root, i, e, k);
      if k < i { BlockApart(root, next, k, i); }
      if k > i + 1 { BlockApart(root, next, i, k - 1); }
    }
    SplitPosition(root, nodes, next, i, l, j);
    PutAt(root, i, e, i);
    PutAt(root, i, e, i + 1);
  }

  lemma PutAt(f: seq<Idx>, g: nat, e: Idx, k: nat)
    requires g < |f| && k <= |f|
    ensures |Put(f, g, e)| == |f| + 1
    ensures Put(f, g, e)[k] == if k <= g then f[k] else if k == g + 1 then e else f[k - 1]
  {
  }

  lemma BlockApart(root: seq<Idx>, next: nat, k: nat, i: nat)
    requires Distinct(root) && Under(root, next) && k <= i < |root|
    ensures k < i ==> root[k].block != root[i].block
    ensures root[k].block < next && root[i].block < next
  {
  }

  /** The path to the same entry after a node was split. */
  lemma SplitPosition(root: seq<Idx>, nodes: map<nat, seq<Idx>>, next: nat, i: nat, l: nat, j: nat)
    requires Distinct(root) && Under(root, next) && i < |root| && root[i].block in nodes
    requires 0 < l < |nodes[root[i].block]| && j < |nodes[root[i].block]|
    ensures var es := nodes[root[i].block];
      var root', nodes' := Put(root, i, Idx(es[l].key, next)), nodes[root[i].block := es[..l]][next := es[l..]];
      var i', j' := if j >= l then i + 1 else i, if j >= l then j - l else j;
      i' <= |root'| && Position(1, root', nodes', i', j') == Position(1, root, nodes, i, j)
  {
    hide FlatNodes;
    var b := root[i].block;
    var es := nodes[b];
    var e := Idx(es[l].key, next);
    var root', nodes' := Put(root, i, e), nodes[b := es[..l]][next := es[l..]];
    TwoChanges(root[..i], nodes, b, es[..l], next, es[l..]);
    assert root'[..i] == root[..i];
    if j >= l {
      assert root'[..i + 1] == root[..i] + [root[i]];
      FlatConcat(root[..i], [root[i]], nodes');
      FlatOne(root[i], nodes');
      KeyedAt(root[i].key, es[..l]);
    }
  }

  lemma DeepenOk(root: seq<Idx>, nodes: map<nat, seq<Idx>>, next: nat, size: nat, i: nat)
    requires IndexOk(0, root, nodes, next, size) && i < |root| && size % 8 == 0
    ensures var root', nodes' := [Idx(root[0].key, next)], nodes[next := root];
      && IndexOk(1, root', nodes', next + 1, size) && OnPath(1, root', nodes', 0, i)
      && HasRoom(1, root', nodes', 0, size) && Position(1, root', nodes', 0, i) == i
  {
    var root' := [Idx(root[0].key, next)];
    assert root'[..0] == [];
  }

  lemma EmptyDir(size: nat, hash: string -> nat)
    requires size >= 1024 && size % 8 == 0
    ensures var f, leaves := [Idx(0, 1)], map[1 := [Rec(0, size, "")]];
      Dir(f, leaves, size, 2, hash) && Content(f, leaves) == multiset{}
  {
    var r := Rec(0, size, "");
    var f, leaves := [Idx(0, 1)], map[1 := [r]];
    OneRec(r);
    ContentOne(f[0], leaves);
    assert LeafOk(leaves, 1, size);
  }
}
