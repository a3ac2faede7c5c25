/** The extent tree of one inode, updated in place by insertions. */
module ExtentOps {
  import opened ExtentTree
  import opened ExtentSearch
  import opened ExtentInsert
  import opened ExtentSplit
  import opened ExtentRoom
  import opened ExtentCut

  datatype Status = Ok | Eio | NeedSplit | Enospc

  class ExtentInode {
    var root: Tree
    /** Blocks the allocator still has; it hands out the last one. */
    var supply: seq<nat>
    /** Runs that removals handed back, in the order of the calls. */
    var freed: seq<Run>
    const cap: nat

    constructor (cap: nat, supply: seq<nat>)
      requires cap > ROOT_MAX
      ensures this.cap == cap && this.supply == supply && freed == [] && root == Leaf(0, ROOT_MAX, []) && Valid(0)
    {
      this.cap, this.supply, freed := cap, supply, [];
      root := Leaf(0, ROOT_MAX, []);
    }

    ghost predicate Valid(h: nat)
      reads this
    {
      && cap > ROOT_MAX && root.blk == 0 && root.max == ROOT_MAX
      && Wf(root, h, cap) && Sorted(Flat(root))
    }

    lemma FoundValid(t: Tree, p: seq<nat>, c: nat, n: Extent, h: nat, cap': nat)
      requires Found(t, p, c, n, h, cap') && cap' == cap
      ensures forall r: Tree ::
                Wf(r, h, cap) && r.max == t.max && r.blk == t.blk && Sorted(Flat(r)) && root == r ==> Valid(h)
      ensures root == t ==> Valid(h)
    {
    }

    /** ext4_ext_correct_indexes for a cursor on extent c of the leaf at p. */
    method CorrectIndexes(p: seq<nat>, c: nat)
      requires PathOk(root, p) && At(root, p).Leaf? && c < |At(root, p).exts|
      modifies `root
      ensures root == if c == 0 then Corrected(old(root), p, At(old(root), p).exts[0].first) else old(root)
    {
      hide Flat, Corrected, SetAt, At, SetKey, PathOk;
      if |p| == 0 {
        CorrectedRoot(root);
        return;
      }
      if c != 0 { return; }
      var border := At(root, p).exts[0].first;
      ghost var t := root;
      var k := |p| - 1;
      CorrectedStart(t, p, border);
      CorrectedStep(t, p, k, border, root);
      root := SetKey(root, p[..k], p[k], border);
      while k > 0
        invariant k < |p| && AllZero(p[k + 1..])
        invariant PathOk(t, p[..k]) && PathOk(At(t, p[..k]), p[k..])
        invariant root == SetAt(t, p[..k], Corrected(At(t, p[..k]), p[k..], border))
      {
        k := k - 1;
        if p[k + 1] != 0 {
          assert p == p[..k + 1] + p[k + 1..];
          CorrectedPrefix(t, p[..k + 1], p[k + 1..], border);
          return;
        }
        assert p[k + 1..] == [p[k + 1]] + p[k + 2..];
        CorrectedStep(t, p, k, border, root);
        root := SetKey(root, p[..k], p[k], border);
      }
      assert p[..0] == [] && p[0..] == p;
      CorrectedDone(t, p, border);
    }

    /** ext4_ext_insert_leaf. */
    method InsertLeaf(p: seq<nat>, c: nat, n: Extent, merge: bool) returns (st: Status)
      requires PathOk(root, p) && At(root, p).Leaf?
      requires At(root, p).exts != [] ==> c < |At(root, p).exts|
      modifies `root
      ensures var l := At(old(root), p);
        && (l.exts != [] && n.first == l.exts[c].first ==> st == Eio)
        && (st.Ok? || st.NeedSplit? || st.Eio?)
        && (st.Eio? ==> l.exts != [] && n.first == l.exts[c].first)
        && (st.NeedSplit? ==> |l.exts| == l.max && !Merges(l.exts, c, n, merge))
        && (st.Ok? ==> (Merges(l.exts, c, n, merge) || |l.exts| != l.max))
      ensures root == if st.Ok? then Inserted(old(root), p, c, n, merge) else old(root)
    {
      hide Flat, Corrected, SetAt, At, PathOk;
      ghost var t := root;
      var l := At(root, p);
      if l.exts != [] && n.first == l.exts[c].first { return Eio; }
      if merge && l.exts != [] && CanAppend(l.exts[c], n) {
        root := SetAt(root, p, l.(exts := l.exts[c := Appended(l.exts[c], n)]));
        return Ok;
      }
      if merge && l.exts != [] && CanPrepend(l.exts[c], n) {
        root := SetAt(root, p, l.(exts := l.exts[c := Prepended(l.exts[c], n)]));
        return Ok;
      }
      if |l.exts| == l.max { return NeedSplit; }
      var i := if l.exts == [] then 0 else if n.first > l.exts[c].first then c + 1 else c;
      var exts := l.exts[..i] + [n] + l.exts[i..];
      assert exts == InsertFlat(l.exts, c, n, merge);
      FlatSet(t, p, l.(exts := exts));
      root := SetAt(root, p, l.(exts := exts));
      CorrectIndexes(p, if l.exts == [] then 0 else c);
      st := Ok;
    }

    /** ext4_ext_grow_indepth. */
    method GrowInDepth() returns (st: Status)
      requires if root.Leaf? then root.exts != [] else root.kids != []
      modifies `root, `supply
      ensures st == if old(supply) == [] then Enospc else Ok
      ensures st.Enospc? ==> root == old(root) && supply == old(supply)
      ensures st.Ok? ==> root == Grown(old(root), old(supply)[0], cap) && supply == old(supply)[1..]
    {
      if supply == [] { return Enospc; }
      var nb := supply[0];
      supply := supply[1..];
      var moved := root.(blk := nb, max := cap);
      root := Node(root.blk, ROOT_MAX, [Kid(if root.Leaf? then root.exts[0].first else root.kids[0].key, moved)]);
      st := Ok;
    }

    /** ext4_ext_split_node: cuts the path from the leaf up to level `at` after the cursors and hangs
        the new nodes into level at - 1. Running out of blocks gives back those already taken, but the
        entries that were moved into them are gone from the tree. */
    method SplitNode(p: seq<nat>, c: nat, at: nat, n: Extent) returns (st: Status, right: bool)
      requires PathOk(root, p) && At(root, p).Leaf? && c < |At(root, p).exts| && 1 <= at <= |p|
      requires FullFrom(root, p, at) && HasRoom(root, p, at - 1)
      requires At(root, p[..at - 1]).kids[p[at - 1]].key < SplitKey(At(root, p).exts, c, n)
      requires c + 1 < |At(root, p).exts| ==> n.first < At(root, p).exts[c + 1].first
      modifies `root, `supply
      ensures st == if |old(supply)| <= |p| - at then Enospc else Ok
      ensures var t, exts := old(root), At(old(root), p).exts;
        && (st.Ok? ==>
              && CutOk(t, p, c, at, old(supply))
              && supply == old(supply)[|p| - at + 1..] && (right <==> c + 1 == |exts|)
              && root == Split(t, p, c, at, SplitKey(exts, c, n), old(supply), cap, exts[c + 1..]))
        && (st.Enospc? ==>
              && supply == old(supply)
              && (supply == [] ==> root == t)
              && (supply != [] ==> LeftOnly(t, root, p, c, |p| - |supply|)))
    {
      hide Flat, SetAt, At, PathOk, SplitLeft, SplitRight, Attach;
      ghost var t, s := root, supply;
      var leaf := At(root, p);
      FullAt(t, p, at, |p|);
      assert p[..|p|] == p && NodeFull(leaf);
      var key := if c + 1 != leaf.max then leaf.exts[c + 1].first else n.first;
      var taken, carry, i := [], leaf, |p|;
      while i >= at
        invariant at - 1 <= i <= |p| && |p| - i <= |s|
        invariant taken == s[..|p| - i] && supply == s[|p| - i..]
        invariant i == |p| ==> root == t
        invariant i < |p| ==> LeftOnly(t, root, p, c, i)
        invariant i < |p| ==> carry == SplitRight(At(t, p[..i + 1]), p[i + 1..], key, s, cap, leaf.exts[c + 1..])
      {
        if supply == [] {
          supply := taken + supply;
          return Enospc, false;
        }
        var nb := supply[0];
        taken, supply := taken + [nb], supply[1..];
        if i == |p| {
          var m := leaf.max - (c + 1);
          carry := Leaf(nb, cap, leaf.exts[c + 1..c + 1 + m]);
          SplitFirst(t, p, c, key, s, cap);
          if m > 0 { root := SetAt(root, p, leaf.(exts := leaf.exts[..|leaf.exts| - m])); }
        } else {
          LevelUp(t, root, p, c, at, i);
          var node := At(root, p[..i]);
          var m := node.max - (p[i] + 1);
          RightStep(t, p, i, key, s, cap, leaf.exts[c + 1..]);
          carry := Node(nb, cap, [Kid(key, carry)] + node.kids[p[i] + 1..p[i] + 1 + m]);
          if m > 0 { root := SetAt(root, p[..i], node.(kids := node.kids[..|node.kids| - m])); }
        }
        i := i - 1;
      }
      right := n.first >= key;
      AttachStep(t, root, p, c, at, key, s, cap, leaf.exts[c + 1..]);
      var node := At(root, p[..at - 1]);
      var ix := p[at - 1] + if key > node.kids[p[at - 1]].key then 1 else 0;
      root := SetAt(root, p[..at - 1], node.(kids := node.kids[..ix] + [Kid(key, carry)] + node.kids[ix..]));
      st := Ok;
    }

    /** ext4_ext_split_node and the choice of the path that follows it. When blocks run out, the k
        extents after the position are lost. */
    method SplitPath(p: seq<nat>, c: nat, at: nat, n: Extent, ghost merge: bool, ghost h: nat)
      returns (st: Status, p': seq<nat>, ghost k: nat)
      requires Found(root, p, c, n, h, cap) && 1 <= at <= |p| && FullFrom(root, p, at) && HasRoom(root, p, at - 1)
      requires |Before(root, p)| + c < |Flat(root)|
      requires SafeMerge(Flat(root), |Before(root, p)| + c, n, merge)
      requires |At(root, p).exts| == At(root, p).max && !Merges(At(root, p).exts, c, n, merge)
      modifies `root, `supply
      ensures var f, g := Flat(old(root)), |Before(old(root), p)| + c;
        && (st.Ok? || st.Enospc?)
        && (st.Ok? ==> Ready(root, p', c, n, merge, h, cap, InsertFlat(f, g, n, merge)))
        && (st.Enospc? ==>
              && Valid(h) && Without(f, Flat(root), g, k)
              && (old(supply) == [] ==> root == old(root) && supply == []))
      ensures st.Enospc? <==> |old(supply)| <= |p| - at
      ensures c < |At(old(root), p).exts| && (st.Enospc? ==> k == LostBy(old(root), p, c, |old(supply)|))
      ensures st.Ok? ==> forall b :: Uses(root, b) + Count(supply, b) == Uses(old(root), b) + Count(old(supply), b)
    {
      hide Flat, Before, After, Found, Wf, Sorted, PathOk, At, FullFrom, NodeFull, Ready, Merges, InsertFlat, Split,
           IsPos, Uses, Grown, SafeMerge, SetAt, LeftOnly, Fits, RightOf, Count, Right, Without;
      FoundPath(root, p, c, n, h, cap);
      ghost var t, s, f, g := root, supply, Flat(root), |Before(root, p)| + c;
      NotEmpty(f, g);
      InRange(t, p, c, n, h, cap);
      KeyAbove(t, p, c, n, at - 1, h, cap);
      var right: bool;
      st, right := SplitNode(p, c, at, n);
      k, p' := 0, p;
      if st.Enospc? {
        if s == [] {
          FoundValid(t, p, c, n, h, cap);
          NothingLost(f, g);
        } else {
          k := SplitLost(t, root, p, c, |p| - |s|, n, h, cap);
          FoundValid(t, p, c, n, h, cap);
        }
        return;
      }
      if right { p' := RightOf(p, at); }
      SplitReady(t, p, c, at, n, merge, s, h, cap);
      forall b
        ensures Uses(root, b) + Count(supply, b) == Uses(t, b) + Count(s, b)
      {
        SplitKeepsBlocks(t, p, c, at, n, s, h, cap, b);
      }
    }

    /** Growing the tree and searching again: the same position, one level further down. */
    method GrowAndFind(p: seq<nat>, c: nat, n: Extent, ghost h: nat) returns (st: Status, p': seq<nat>, c': nat)
      requires Found(root, p, c, n, h, cap) && Flat(root) != [] && p == Descend(root, n.first) && FullFrom(root, p, 0)
      modifies `root, `supply
      ensures st == if old(supply) == [] then Enospc else Ok
      ensures st.Enospc? ==> root == old(root) && supply == old(supply)
      ensures st.Ok? ==>
        && supply == old(supply)[1..] && c' == c && p' == [0] + p
        && (if old(root).Leaf? then old(root).exts != [] else old(root).kids != [])
        && root == Grown(old(root), old(supply)[0], cap)
        && Found(root, p', c, n, h + 1, cap) && Flat(root) == Flat(old(root))
        && |Before(root, p')| == |Before(old(root), p)| && At(root, p').exts == At(old(root), p).exts
        && (p == [] ==> |At(root, p').exts| < At(root, p').max)
        && (p != [] ==> FullFrom(root, p', 2) && HasRoom(root, p', 1) && At(root, p').max == At(old(root), p).max)
      ensures st.Ok? ==> forall b :: Uses(root, b) + Count(supply, b) == Uses(old(root), b) + Count(old(supply), b)
    {
      hide Flat, Before, After, Found, Wf, Sorted, PathOk, At, FullFrom, NodeFull, HasRoom, Descend, IsPos, Uses,
           Grown, Fits, Count;
      FoundPath(root, p, c, n, h, cap);
      ghost var t, s := root, supply;
      GrownRoom(t, if s == [] then 0 else s[0], p, h, cap);
      GrownFound(t, if s == [] then 0 else s[0], p, c, n, h, cap);
      if p == [] { RootPath(t, p); }
      p', c' := p, c;
      st := GrowInDepth();
      if st.Enospc? { return; }
      GrownBlocks(t, s, h, cap);
      FoundPath(root, [0] + p, c, n, h + 1, cap);
      p', c' := FindExtent(root, n.first, h + 1, cap);
      SamePosition(root, p', n.first, c, c');
    }

    /** The level from the leaf up that has a free entry, -1 if none has. */
    method RoomLevel(p: seq<nat>) returns (i: int, level: nat)
      requires PathOk(root, p)
      ensures -1 <= i <= |p| && level == |p| - i && FullFrom(root, p, i + 1)
      ensures i >= 0 ==> PathOk(root, p[..i]) && !NodeFull(At(root, p[..i]))
      ensures i == |p| ==> At(root, p[..i]) == At(root, p)
    {
      hide PathOk, At, FullFrom, NodeFull;
      i, level := |p|, 0;
      NoneFull(root, p);
      PrefixOk(root, p, |p|);
      while i >= 0 && NodeFull(At(root, p[..i]))
        invariant -1 <= i <= |p| && level == |p| - i && FullFrom(root, p, i + 1)
        invariant i >= 0 ==> PathOk(root, p[..i])
        invariant i == |p| ==> At(root, p[..i]) == At(root, p)
        decreases i
      {
        FullMore(root, p, i);
        i, level := i - 1, level + 1;
        if i >= 0 { PrefixOk(root, p, i); }
      }
    }

    /** The part of ext4_ext_insert_extent that runs when the leaf is full: looks for a level with a
        free entry, grows the tree if there is none, and splits from the leaf up to below that level.
        When blocks run out, k extents after the position are lost. */
    method MakeRoom(p: seq<nat>, c: nat, n: Extent, ghost merge: bool, ghost h: nat)
      returns (st: Status, p': seq<nat>, c': nat, ghost h': nat, ghost k: nat)
      requires Found(root, p, c, n, h, cap) && Flat(root) != [] && p == Descend(root, n.first)
      requires |Before(root, p)| + c < |Flat(root)|
      requires SafeMerge(Flat(root), |Before(root, p)| + c, n, merge)
      requires |At(root, p).exts| == At(root, p).max && !Merges(At(root, p).exts, c, n, merge)
      modifies `root, `supply
      ensures var f, g := Flat(old(root)), |Before(old(root), p)| + c;
        && (st.Ok? || st.Enospc?) && h <= h' <= h + 1
        && (st.Ok? ==> Ready(root, p', c', n, merge, h', cap, InsertFlat(f, g, n, merge)))
        && (st.Enospc? ==>
              && Valid(h') && Without(f, Flat(root), g, k)
              && (old(supply) == [] ==> root == old(root) && supply == []))
      ensures st.Enospc? <==> |old(supply)| < Needed(old(root), p)
      ensures c < |At(old(root), p).exts|
      ensures st.Enospc? ==> k == LostBy(old(root), p, c, Taken(old(root), p, |old(supply)|))
      ensures st.Ok? ==> forall b :: Uses(root, b) + Count(supply, b) == Uses(old(root), b) + Count(old(supply), b)
    {
      hide Flat, Before, After, Found, Wf, Sorted, PathOk, At, FullFrom, NodeFull, HasRoom, Descend, Ready, Merges,
           InsertFlat, IsPos, Uses, Grown, SafeMerge, Fits, Count, Needed, LostBy, Without;
      FoundPath(root, p, c, n, h, cap);
      ghost var t, s, f, g := root, supply, Flat(root), |Before(root, p)| + c;
      h', k := h, 0;
      p', c' := p, c;
      InRange(t, p, c, n, h, cap);
      var i, level := RoomLevel(p);
      NeededIs(t, p, i);
      if i < 0 {
        st, p', c' := GrowAndFind(p, c, n, h);
        if st.Enospc? {
          NothingLost(f, g);
          LostNone(t, p, c, 0, h, cap);
          FoundValid(t, p, c, n, h, cap);
          return;
        }
        h', level := h + 1, level - 1;
        FoundPath(root, p', c, n, h', cap);
        LostGrown(t, s[0], p, c, |s| - 1, cap);
      } else {
        LeafNotFull(t, p, i);
        RoomFound(t, p, i, h, cap);
      }
      if level > 0 {
        st, p', k := SplitPath(p', c', |p'| - (level - 1), n, merge, h');
      } else {
        ReadyHere(root, p', c', n, merge, h', cap);
        st := Ok;
      }
    }

    /** ext4_ext_insert_extent with the path that a search for the new block left. It ends in success
        after at most one pass of splitting, or runs out of blocks. */
    method InsertExtent(p: seq<nat>, c: nat, n: Extent, merge: bool, ghost h: nat)
      returns (st: Status, ghost h': nat, ghost k: nat)
      requires Found(root, p, c, n, h, cap) && p == Descend(root, n.first)
      requires Flat(root) != [] ==> |Before(root, p)| + c < |Flat(root)|
      modifies `root, `supply
      ensures var f, g := Flat(old(root)), |Before(old(root), p)| + c;
        && (st.Ok? || st.Enospc?) && h <= h' <= h + 1
        && (st.Ok? ==> Flat(root) == InsertFlat(f, g, n, merge) && (SafeMerge(f, g, n, merge) ==> Valid(h')))
        && (st.Enospc? ==>
              && Valid(h') && SafeMerge(f, g, n, merge) && Loses(old(root), Flat(root), p, c, |old(supply)|, k)
              && (old(supply) == [] ==> root == old(root) && supply == []))
      ensures st.Enospc? <==> !Merges(At(old(root), p).exts, c, n, merge) && |old(supply)| < Needed(old(root), p)
      ensures st.Ok? ==> forall b :: Uses(root, b) + Count(supply, b) == Uses(old(root), b) + Count(old(supply), b)
      ensures CountsRead(Flat(old(root))) && CountReads(n) ==> CountsRead(Flat(root))
      ensures var f, g := Flat(old(root)), |Before(old(root), p)| + c;
        merge && f != [] && Continues(f[g], n) ==> st.Ok? && Flat(root) == f[g := f[g].(len := f[g].len + n.len)]
    {
      hide Flat, Before, After, Found, Wf, Sorted, PathOk, At, FullFrom, NodeFull, HasRoom, Descend, Ready, Merges,
           InsertFlat, Inserted, Split, IsPos, Uses, SafeMerge, SetAt, Fits, Count, Pending, Needed, LostBy, Taken,
           Loses, Without, CountsRead, CountReads, Continues;
      FoundPath(root, p, c, n, h, cap);
      ghost var t, s, f, g := root, supply, Flat(root), |Before(root, p)| + c;
      ghost var w := InsertFlat(f, g, n, merge);
      FoundCounts(t, p, c, n, merge, h, cap);
      InsertionSorted(t, p, c, n, merge, h, cap);
      h', k := h, 0;
      var p', c' := p, c;
      ghost var split := false;
      PendingFirst(t, p, c, n, merge, h, cap);
      NeededSome(t, p);
      LeafIsFull(At(t, p));
      while true
        invariant !split ==> root == t && supply == s && p' == p && c' == c && h' == h
        invariant Pending(root, p', c', n, merge, h', cap, split, w) && h <= h' <= h + 1
        invariant split ==> forall b :: Uses(root, b) + Count(supply, b) == Uses(t, b) + Count(s, b)
        invariant split ==> |s| >= Needed(t, p)
        decreases !split
      {
        ghost var u := root;
        PendingLeaf(u, p', c', n, merge, h', cap, split, w);
        st := InsertLeaf(p', c', n, merge);
        if !st.NeedSplit? {
          PendingDone(u, p', c', n, merge, h', cap, split, w);
          return;
        }
        LeafOfFull(t, p);
        NoMergeSafe(t, p, c, n, merge, h, cap);
        st, p', c', h', k := MakeRoom(p', c', n, merge, h');
        if !st.Ok? {
          Refused(t, Flat(root), p, c, n, |s|, k, h, cap);
          if CountsRead(f) { LosesReads(t, Flat(root), p, c, |s|, k); }
          return;
        }
        split := true;
        PendingSecond(root, p', c', n, merge, h', cap, w);
      }
    }

    /** ext4_extent_get_blocks for one block of a file without unwritten extents; p and c are the path and the
        cursor at which the search ends. */
    method GetBlocks(iblock: nat, create: bool, ghost h: nat)
      returns (st: Status, result: nat, ghost p: seq<nat>, ghost c: nat, ghost h': nat, ghost k: nat)
      requires Valid(h) && AllWritten(Flat(root))
      modifies `root, `supply
      ensures PathOk(old(root), p) && At(old(root), p).Leaf? && p == Descend(old(root), iblock)
      ensures var f, g, s := Flat(old(root)), |Before(old(root), p)| + c, old(supply);
        match Lookup(f, iblock)
        case Some(m) => st.Ok? && result == m.block && root == old(root) && supply == s
        case None =>
          if !create then st.Ok? && result == 0 && root == old(root) && supply == s
          else if s == [] then st.Enospc? && root == old(root) && supply == s
          else
            var n := Extent(iblock, s[0], 1, false);
            && (st.Ok? || st.Enospc?) && Fits(f, g, n)
            && (st.Ok? ==>
                  && result == s[0] && Flat(root) == InsertFlat(f, g, n, true)
                  && (SafeMerge(f, g, n, true) ==> Valid(h'))
                  && forall b :: Uses(root, b) + Count(supply, b) == Uses(old(root), b) + Count(s[1..], b))
            && (st.Enospc? <==> !Merges(At(old(root), p).exts, c, n, true) && |s| - 1 < Needed(old(root), p))
            && (st.Enospc? ==>
                  && Valid(h') && Loses(old(root), Flat(root), p, c, |s| - 1, k)
                  && (|s| == 1 ==> root == old(root) && supply == s))
            && (f != [] && Continues(f[g], n) ==> st.Ok? && Flat(root) == f[g := f[g].(len := f[g].len + 1)])
      ensures CountsRead(Flat(old(root))) ==> CountsRead(Flat(root))
      ensures create && st.Ok? && Lookup(Flat(old(root)), iblock).None? ==>
        var f, s := Flat(old(root)), old(supply);
        && s != []
        && ((forall b :: Lookup(Flat(root), b) == if b == iblock then Some(Mapping(s[0], false)) else Lookup(f, b))
              <==> !(f != [] && iblock + 1 == f[0].first && s[0] + 1 == f[0].start && f[0].len < 32768))
    {
      hide Flat, Before, After, Found, Wf, Sorted, PathOk, At, Descend, Guides, Lookup, InsertFlat, IsPos, Uses,
           SafeMerge, Fits, Count, AllWritten, Covers, Needed, Merges, Loses, Continues, CountsRead;
      ghost var t, s, f := root, supply, Flat(root);
      var q, x := FindExtent(root, iblock, h, cap);
      p, c := q, x;
      ghost var g := |Before(t, p)| + c;
      var exts := At(root, q).exts;
      if exts != [] {
        PosBound(exts, iblock, x);
        LeafPosition(t, q, x);
        var e := exts[x];
        if e.first <= iblock < e.first + e.len {
          CoveredAt(f, g, iblock);
          return Ok, iblock - e.first + e.start, p, c, h, 0;
        }
      }
      Unmapped(f, g, iblock, if s == [] then 0 else s[0]);
      if !create { return Ok, 0, p, c, h, 0; }
      if supply == [] { return Enospc, 0, p, c, h, 0; }
      var nb := supply[0];
      supply := supply[1..];
      var n := Extent(iblock, nb, 1, false);
      FoundFits(t, q, x, n, h, cap);
      st, h', k := InsertExtent(q, x, n, true, h);
      result := nb;
      if st.Ok? { OneBlockUpdate(f, g, iblock, nb); } else { supply := [nb] + supply; }
    }

    // ---------------------------------------------------------- truncation

    /** ext4_ext_remove_idx for the entry at cursor i, whose subtree is bare. The key that is passed
        upwards is the one found at the cursor afterwards: that of the next entry, or what is left of
        the removed one. */
    method RemoveIdx(q: seq<nat>, i: nat, ghost h: nat, ghost from: nat)
      requires i < |q| <= h && OnCut(root, q[..i + 1]) && q[i] < |Here(root, q[..i + 1]).kids|
      requires Bare(Here(root, q[..i + 1]).kids[q[i]].sub)
      modifies `root, `freed
      ensures SameWork(Dropped(old(root), q[..i + 1]), root, q[..i + 1], h, cap, from)
      ensures forall x :: Held(root, freed, x) == Held(old(root), old(freed), x)
    {
      hide Flat, FlatKids, Before, After, Uses, UsesKids, OnCut, Cut, Weight, Shape, Here, SetAt, PathOk, At, Data,
           Freed;
      ghost var t, r, d := root, q[..i + 1], freed;
      OnCutPath(t, r);
      HereIs(t, r);
      assert r[..|r| - 1] == q[..i];
      var node := At(root, q[..i]);
      var gone := node.kids[q[i]];
      DropStep(t, r, h, cap, from);
      DropHeld(t, r, d);
      BareFlat(gone.sub);
      root := SetAt(root, q[..i], node.(kids := node.kids[..q[i]] + node.kids[q[i] + 1..]));
      freed := freed + [Run(gone.sub.blk, 1)];
      var key := if q[i] + 1 < |node.kids| then node.kids[q[i] + 1].key else gone.key;
      SameSelf(root, r, h, cap, from);
      var j := i;
      while j > 0
        invariant 0 <= j <= i && AllZero(q[j + 1..i + 1])
        invariant SameWork(Dropped(t, r), root, r, h, cap, from)
        invariant freed == d + [Run(gone.sub.blk, 1)]
        invariant forall x :: Held(root, freed, x) == Held(t, d, x)
      {
        if q[j] != 0 { break; }
        assert q[j..i + 1] == [0] + q[j + 1..i + 1];
        assert r[j - 1 + 1..] == q[j..i + 1] && r[..j - 1] == q[..j - 1] && r[j - 1] == q[j - 1];
        ghost var u := root;
        KeyStep(u, r, j - 1, key, h, cap, from);
        KeyHeld(u, q[..j - 1], q[j - 1], key, freed);
        root := SetKey(root, q[..j - 1], q[j - 1], key);
        SameTrans(Dropped(t, r), u, root, r, h, cap, from);
        j := j - 1;
      }
    }

    /** The loop of ext4_ext_remove_leaf: frees the tail of extent c and all extents after it. */
    method FreeTail(exts: seq<Extent>, c: nat, from: nat) returns (kept: seq<Extent>)
      requires c < |exts| && from < exts[c].first + exts[c].len
      requires forall i :: c < i < |exts| ==> from <= exts[i].first
      modifies `freed
      ensures kept == Keep(exts, c, from)
      ensures forall x :: Data(kept, x) + Freed(freed, x) == Data(exts, x) + Freed(old(freed), x)
    {
      hide Data, Freed, Keep;
      ghost var d := freed;
      var work, i, entries := exts, c, |exts|;
      assert exts[..c + 0] == exts[..c];
      while i < |exts|
        invariant c <= i <= |exts| && |work| == |exts|
        invariant work[i..] == exts[i..] && work[..c] == exts[..c]
        invariant i == c ==> entries == |exts| && freed == d
        invariant i > c ==> entries == |exts| - (i - c) + (if exts[c].first < from then 1 else 0)
        invariant i > c ==> work[..c + if exts[c].first < from then 1 else 0] == Keep(exts, c, from)
        invariant i > c ==>
                    forall x :: Data(Keep(exts, c, from), x) + Freed(freed, x) == Data(exts[..i], x) + Freed(d, x)
      {
        var e := work[i];
        assert e == exts[i];
        ghost var d' := freed;
        var start, len := e.first, e.len;
        if start < from {
          len := len - (from - start);
          work := work[i := e.(len := from - start)];
          start := from;
        } else {
          entries := entries - 1;
        }
        freed := freed + [Run(e.start + (start - e.first), len)];
        FreeOne(exts, c, from, i, d, d', freed);
        i := i + 1;
        KeepIs(exts, c, from);
      }
      kept := work[..entries];
      assert exts[..|exts|] == exts;
    }

    /** ext4_ext_remove_leaf up to the end of the leaf: its first extent concerned is c. The cursor above
        ends on the next leaf. */
    method RemoveLeaf(q: seq<nat>, c: nat, from: nat, ghost h: nat) returns (q': seq<nat>)
      requires PathOk(root, q) && At(root, q).Leaf? && c < |At(root, q).exts| && |q| <= h
      requires var exts := At(root, q).exts;
        from < exts[c].first + exts[c].len && forall i :: c < i < |exts| ==> from <= exts[i].first
      requires Keep(At(root, q).exts, c, from) != [] ==>
        Wf(root, h, cap) && (q != [] ==> Beyond(After(root, q), from))
      requires q != [] && Keep(At(root, q).exts, c, from) == [] ==> Shape(root, q, h, cap, from)
      modifies `root, `freed
      ensures var t, kept := old(root), Keep(At(old(root), q).exts, c, from);
        && root.blk == t.blk && root.max == t.max
        && (q == [] ==> root == Target(t, q, c, from) && q' == q)
        && (q != [] ==>
              && |q'| == |q| && q'[..|q| - 1] == q[..|q| - 1]
              && OnCut(root, q') && Shape(root, q', h, cap, from) && Cut(root, q') == Target(t, q, c, from)
              && (kept == [] ==> OnCut(t, q) && Weight(root, q') < Weight(t, q)))
      ensures forall x :: Held(root, freed, x) == Held(old(root), old(freed), x)
    {
      hide Flat, FlatKids, Before, After, Uses, UsesKids, OnCut, Cut, Weight, Shape, Here, SetAt, PathOk, At, Data,
           Freed, Keep, Wf, Held, Dropped, Corrected, Beyond;
      ghost var t, d := root, freed;
      var l := At(root, q);
      var kept := FreeTail(l.exts, c, from);
      var l' := l.(exts := kept);
      SetHeld(t, q, l, l', d, freed);
      FlatSet(t, q, l');
      RootFields(t, q, l');
      root := SetAt(root, q, l');
      q' := q;
      if kept != [] {
        KeptWf(t, q, l', c, from, h, cap);
        if c == 0 { CorrectIndexes(q, 0); }
        if |q| > 0 {
          q' := q[|q| - 1 := q[|q| - 1] + 1];
          KeptCut(t, q, c, from, h, cap);
        }
      } else if |q| > 0 {
        DropIgnores(t, q, l');
        DropStep(t, q, h, cap, from);
        assert q[..|q| - 1 + 1] == q;
        RemoveIdx(q, |q| - 1, h, from);
        SameTrans(t, Dropped(t, q), root, q, h, cap, from);
      }
    }

    /** ext4_extent_remove_space from a block up to EXT_MAX_BLOCKS, the largest 32-bit block number. It leaves the
        file alone when the block is not mapped, so the map is cut there exactly if the block is mapped or is
        at or past the end of the file. */
    method RemoveSpace(from: nat, ghost h: nat) returns (ghost h': nat, ghost g: nat)
      requires Valid(h)
      modifies `root, `freed
      ensures Valid(h')
      ensures var f := Flat(old(root));
        match Lookup(f, from)
        case None => root == old(root) && freed == old(freed) && h' == h
        case Some(_) =>
          && g < |f| && Covers(f[g], from) && Flat(root) == Keep(f, g, from)
          && h' == if Flat(root) == [] then 0 else h
      ensures var f := Flat(old(root)); Restricts(f, Flat(root), from) <==> Lookup(f, from).Some? || FileEnd(f) <= from
      ensures forall x :: Held(root, freed, x) == Held(old(root), old(freed), x)
      ensures CountsRead(Flat(old(root))) ==> CountsRead(Flat(root))
    {
      hide Flat, FlatKids, Before, After, Uses, UsesKids, OnCut, Cut, Weight, Shape, Here, SetAt, PathOk, At, Data,
           Freed, Keep, Wf, Held, Dropped, Sorted, Descend, Guides, Lookup, IsPos, Running, Target, Bare, Restricts,
           FileEnd, CountsRead;
      ghost var t, d, f := root, freed, Flat(root);
      h', g := h, 0;
      var p, c := FindExtent(root, from, h, cap);
      var exts := At(root, p).exts;
      if exts == [] {
        Unmapped(f, 0, from, 0);
        HoleRestricts(f, from);
        return;
      }
      PosBound(exts, from, c);
      LeafPosition(t, p, c);
      g := |Before(t, p)| + c;
      if !(exts[c].first <= from < exts[c].first + exts[c].len) {
        Unmapped(f, g, from, 0);
        HoleRestricts(f, from);
        return;
      }
      ghost var s := Target(t, p, c, from);
      TargetFlat(t, p, c, from, h, cap);
      FirstReady(t, p, c, from, h, cap);
      Restricted(f, g, from);
      if CountsRead(f) { KeepReads(f, g, from); }
      var i: int, q: seq<nat> := |p|, p;
      ghost var first: bool, w: nat, c0 := true, 0, c;
      while i >= 0
        invariant -1 <= i <= |p| && |q| == |p| == h
        invariant first ==> i == |p| && root == t && freed == d && q == p && c == c0
        invariant !first ==> Running(root, q, i, s, h, cap, from, w) && (i == |p| ==> c == 0)
        invariant forall x :: Held(root, freed, x) == Held(t, d, x)
        decreases first, w, if i == |p| then 0 else i + 2
      {
        ghost var u := root;
        if !first { RunningLevel(u, q, i, s, h, cap, from, w); }
        if i == |p| {
          if !first { LeafReady(u, q, h, cap, from); }
          q := RemoveLeaf(q, c, from, h);
          LeafDone(root, q, s, h, cap, from);
          first, w := false, if h > 0 then Weight(root, q) else 0;
          i := i - 1;
        } else if q[i] < |At(root, q[..i]).kids| {
          LevelDown(u, q, i, s, h, cap, from, w);
          if i + 1 == |p| { c := 0; } else { q, w := q[i + 1 := 0], w - 1; }
          i := i + 1;
        } else {
          if i > 0 && At(root, q[..i]).kids == [] {
            LevelBare(u, q, i, s, h, cap, from, w);
            assert q[..i - 1 + 1] == q[..i];
            RemoveIdx(q, i - 1, h, from);
          } else {
            LevelDone(u, q, i, s, h, cap, from, w);
            if i > 0 { q := q[i - 1 := q[i - 1] + 1]; }
          }
          i := i - 1;
        }
      }
      RunningEnd(root, q, s, h, cap, from, w);
      Settled(s, f, h, cap, freed);
      if Bare(root) {
        root := Leaf(0, ROOT_MAX, []);
        h' := 0;
      }
    }
  }

  lemma RunningEnd(t: Tree, q: seq<nat>, s: Tree, h: nat, cap: nat, from: nat, w: nat)
    requires Running(t, q, -1, s, h, cap, from, w)
    ensures t == s
  {
  }

  lemma KeepIs(exts: seq<Extent>, c: nat, from: nat)
    requires c < |exts|
    ensures Keep(exts, c, from) ==
            exts[..c] + if exts[c].first < from then [exts[c].(len := from - exts[c].first)] else []
  {
  }

  /** One extent freed by the loop. */
  lemma FreeOne(exts: seq<Extent>, c: nat, from: nat, i: nat, d: seq<Run>, d0: seq<Run>, d1: seq<Run>)
    requires c <= i < |exts| && from < exts[c].first + exts[c].len && (i > c ==> from <= exts[i].first)
    requires var e := exts[i];
      var m := if e.first < from then from - e.first else 0;
      d1 == d0 + [Run(e.start + m, e.len - m)]
    requires i == c ==> d0 == d
    requires i > c ==> forall x :: Data(Keep(exts, c, from), x) + Freed(d0, x) == Data(exts[..i], x) + Freed(d, x)
    ensures forall x :: Data(Keep(exts, c, from), x) + Freed(d1, x) == Data(exts[..i + 1], x) + Freed(d, x)
  {
    hide Data, Freed, Keep;
    forall x
      ensures Data(Keep(exts, c, from), x) + Freed(d1, x) == Data(exts[..i + 1], x) + Freed(d, x)
    {
      FreedSnoc(d0, d1[|d0|], x);
      if i == c { KeepData(exts, c, from, x); } else { DataNext(exts, i, x); }
    }
  }

  lemma RootPath(t: Tree, p: seq<nat>)
    requires p == []
    ensures PathOk(t, p) && At(t, p) == t
  {
  }

  lemma LeafNotFull(t: Tree, p: seq<nat>, i: nat)
    requires i <= |p| && PathOk(t, p[..i]) && PathOk(t, p) && !NodeFull(At(t, p[..i]))
    requires i == |p| ==> At(t, p[..i]) == At(t, p)
    requires At(t, p).Leaf? && |At(t, p).exts| == At(t, p).max
    ensures i < |p|
  {
  }

  lemma NotEmpty(f: seq<Extent>, g: nat)
    requires g < |f|
    ensures f != []
  {
  }
}
