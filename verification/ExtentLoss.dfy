/** An insertion that is refused for want of blocks and takes extents with it. */
module ExtentLoss {
  import opened ExtentTree
  import opened ExtentSearch
  import opened ExtentInsert
  import opened ExtentRoom
  import opened ExtentCut
  import opened ExtentOps

  function One(first: nat): Extent { Extent(first, 1000 + first, 1, false) }

  /** Five extents, as many as a leaf holds. */
  const FULL_LEAF := Leaf(11, 5, [One(0), One(20), One(40), One(60), One(80)])

  function Thin(blk: nat, first: nat): Kid { Kid(first, Leaf(blk, 5, [One(first)])) }

  const FULL_NODE := Node(10, 5, [Kid(0, FULL_LEAF), Thin(12, 100), Thin(13, 200), Thin(14, 300), Thin(15, 400)])

  /** Three levels; the leaf of the first blocks and the node above it are full, the root is not. */
  const NARROW := Node(0, 4, [Kid(0, FULL_NODE)])

  lemma NarrowFlat()
    ensures Flat(FULL_NODE) == FULL_LEAF.exts + [One(100), One(200), One(300), One(400)]
    ensures Flat(NARROW) == Flat(FULL_NODE)
  {
    var k := FULL_NODE.kids;
    assert FlatKids(k[4..]) == [One(400)] by { KidsFrom(k, 4); }
    assert FlatKids(k[3..]) == [One(300), One(400)] by { KidsFrom(k, 3); }
    assert FlatKids(k[2..]) == [One(200), One(300), One(400)] by { KidsFrom(k, 2); }
    assert FlatKids(k[1..]) == [One(100), One(200), One(300), One(400)] by { KidsFrom(k, 1); }
    KidsFrom(k, 0);
    assert k[0..] == k;
    FlatKidsOne(Kid(0, FULL_NODE));
  }

  lemma KidsFrom(kids: seq<Kid>, i: nat)
    requires i < |kids|
    ensures FlatKids(kids[i..]) == Flat(kids[i].sub) + FlatKids(kids[i + 1..])
    ensures i + 1 == |kids| ==> FlatKids(kids[i + 1..]) == []
  {
    assert kids[i..][0] == kids[i] && kids[i..][1..] == kids[i + 1..];
  }

  lemma NarrowOk()
    ensures Wf(NARROW, 2, 5) && Sorted(Flat(NARROW)) && AllWritten(Flat(NARROW))
  {
    NarrowFlat();
    assert forall i :: 0 <= i < 5 ==> WfKid(FULL_NODE.kids[i], 0, 5);
    assert Wf(FULL_NODE, 1, 5);
    assert WfKid(NARROW.kids[0], 1, 5);
  }

  lemma NodePath()
    ensures Descend(FULL_NODE, 10) == [0] && PathOk(FULL_NODE, [0]) && At(FULL_NODE, [0]) == FULL_LEAF
    ensures Before(FULL_NODE, [0]) == [] && Needed(FULL_NODE, [0]) == 2 && Right(FULL_NODE, [0], 0) == 0
  {
    KeyPosIs(FULL_NODE.kids, 10, 0);
    DescendStep(FULL_NODE, 10);
    assert [0][1..] == [] && FULL_NODE.kids[..0] == [];
    assert Needed(FULL_LEAF, []) == 1;
    NoKids();
  }

  lemma NarrowPath()
    ensures Descend(NARROW, 10) == [0, 0] && PathOk(NARROW, [0, 0]) && At(NARROW, [0, 0]) == FULL_LEAF
    ensures Before(NARROW, [0, 0]) == [] && Needed(NARROW, [0, 0]) == 2 && Right(NARROW, [0, 0], 0) == 0
  {
    hide FlatKids;
    NodePath();
    KeyPosIs(NARROW.kids, 10, 0);
    DescendStep(NARROW, 10);
    var p: seq<nat> := [0, 0];
    assert p[1..] == [0] && NARROW.kids[..0] == [];
    NoKids();
  }

  lemma NarrowPosition(c: nat)
    requires IsPos(Flat(NARROW), 10, c)
    ensures c == 0
  {
    NarrowFlat();
    NarrowOk();
    PosUnique(Flat(NARROW), 10, c, 0);
  }

  lemma LostTwenty(f: seq<Extent>)
    requires f == Flat(NARROW)
    ensures |f| == 9 && Lookup(f, 10) == None && Lookup(f, 20) == Some(Mapping(1020, false))
    ensures Lookup(f[..1] + f[5..], 20) == None
  {
    hide Flat;
    NarrowFlat();
    NarrowOk();
    LookupAt(f, 1, 20);
    LookupNone(f, 10);
    var w := f[..1] + f[5..];
    assert w == [One(0), One(100), One(200), One(300), One(400)];
    LookupNone(w, 20);
  }

  ghost predicate Valid(t: Tree) {
    Wf(t, 2, 5) && Sorted(Flat(t)) && AllWritten(Flat(t)) && t.max == ROOT_MAX && t.blk == 0
  }

  /** With one block left for the tree, writing block 10 of the file is refused, and blocks 20, 40, 60 and 80
      are not mapped any more. */
  method LoseExtents() returns (inode: ExtentInode, st: Status, ghost h: nat)
    ensures fresh(inode) && st.Enospc?
    ensures Valid(NARROW) && Lookup(Flat(NARROW), 20) == Some(Mapping(1020, false))
    ensures inode.Valid(h) && Lookup(Flat(inode.root), 20) == None
  {
    hide Flat, Sorted, Wf, AllWritten, Descend, Before, At, PathOk, Needed, Right, Lookup, IsPos, LastFrom;
    inode := new ExtentInode(5, [8, 9]);
    inode.root := NARROW;
    NarrowOk();
    NarrowPath();
    LostTwenty(Flat(NARROW));
    ghost var p, c, k;
    var result;
    st, result, p, c, h, k := inode.GetBlocks(10, true, 2);
    NarrowPosition(c);
    assert !Merges(FULL_LEAF.exts, 0, Extent(10, 8, 1, false), true);
  }

  /** Two extents with a hole between them, in the inode. */
  const HOLED := Leaf(0, ROOT_MAX, [One(0), One(5)])

  /** Truncating in the hole leaves block 5 mapped. */
  method CutInHole() returns (inode: ExtentInode)
    ensures fresh(inode) && inode.root == HOLED && inode.Valid(0)
    ensures Lookup(Flat(inode.root), 5) == Some(Mapping(1005, false)) && !Restricts(Flat(HOLED), Flat(inode.root), 3)
  {
    hide Lookup, Restricts;
    inode := new ExtentInode(5, []);
    inode.root := HOLED;
    var f := HOLED.exts;
    assert Flat(HOLED) == f;
    LookupNone(f, 3);
    LookupAt(f, 1, 5);
    ghost var h, g;
    h, g := inode.RemoveSpace(3, 0);
  }
}
