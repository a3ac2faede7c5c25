/** Searching an extent tree, and what an insertion does to its extents. */
module ExtentSearch {
  import opened ExtentTree

  datatype Option<T> = None | Some(value: T)

  /** Where a logical block is stored, and whether it has been written. */
  datatype Mapping = Mapping(block: nat, unwritten: bool)

  predicate Covers(e: Extent, b: nat) { e.first <= b < e.first + e.len }

  /** The map that a list of extents stands for. */
  function Lookup(f: seq<Extent>, b: nat): Option<Mapping> {
    if f == [] then None
    else if Covers(f[0], b) then Some(Mapping(f[0].start + (b - f[0].first), f[0].unwritten))
    else Lookup(f[1..], b)
  }

  lemma {:induction false} LookupAt(f: seq<Extent>, i: nat, b: nat)
    requires Sorted(f) && i < |f| && Covers(f[i], b)
    ensures Lookup(f, b) == Some(Mapping(f[i].start + (b - f[i].first), f[i].unwritten))
    decreases |f|
  {
    if i > 0 {
      assert f[0].first + f[0].len <= f[i].first;
      assert f[1..][i - 1] == f[i];
      LookupAt(f[1..], i - 1, b);
    }
  }

  lemma {:induction false} LookupNone(f: seq<Extent>, b: nat)
    ensures Lookup(f, b) == None <==> forall i :: 0 <= i < |f| ==> !Covers(f[i], b)
    decreases |f|
  {
    if f != [] {
      LookupNone(f[1..], b);
      forall i | 0 < i < |f| ensures f[i] == f[1..][i - 1] {}
    }
  }

  /** Index g is where a search for block b ends: the last extent that begins at or before b, or the
      first one when all begin after it. */
  predicate IsPos(f: seq<Extent>, b: nat, g: nat) {
    && g < |f|
    && (f[g].first <= b || g == 0)
    && (g + 1 < |f| ==> b < f[g + 1].first)
  }

  lemma PosUnique(f: seq<Extent>, b: nat, g: nat, g': nat)
    requires Sorted(f) && IsPos(f, b, g) && IsPos(f, b, g')
    ensures g == g'
  {
    FirstsOrdered(f);
  }

  lemma FirstsOrdered(f: seq<Extent>)
    requires Sorted(f)
    ensures forall i, j :: 0 <= i <= j < |f| ==> f[i].first <= f[j].first
  {
    assert forall i, j :: 0 <= i < j < |f| ==> f[i].first + f[i].len <= f[j].first;
  }

  /** The entry a search for b follows: the last one whose key is at most b, or the first. */
  function KeyPos(kids: seq<Kid>, b: nat): (c: nat)
    requires kids != []
    ensures c < |kids|
  {
    var n := |kids| - 1;
    if n == 0 || kids[n].key <= b then n else KeyPos(kids[..n], b)
  }

  lemma {:induction false} KeyPosIs(kids: seq<Kid>, b: nat, c: nat)
    requires c < |kids| && (kids[c].key <= b || c == 0) && (c + 1 < |kids| ==> b < kids[c + 1].key)
    requires forall i, j :: 0 <= i < j < |kids| ==> kids[i].key < kids[j].key
    ensures KeyPos(kids, b) == c
    decreases |kids|
  {
    var n := |kids| - 1;
    if c < n { KeyPosIs(kids[..n], b, c); }
  }

  /** The cursors from t down to the leaf that a search for b reaches. */
  function Descend(t: Tree, b: nat): seq<nat>
  {
    match t
    case Leaf(_, _, _) => []
    case Node(_, _, kids) =>
      if kids == [] then []
      else
        var c := KeyPos(kids, b);
        assert kids[c] in kids && kids[c].sub < kids[c];
        [c] + Descend(kids[c].sub, b)
  }

  lemma DescendStep(t: Tree, b: nat)
    requires t.Node? ==> t.kids != []
    ensures t.Leaf? ==> Descend(t, b) == []
    ensures t.Node? ==> var c := KeyPos(t.kids, b); Descend(t, b) == [c] + Descend(t.kids[c].sub, b)
  {
  }

  // -------------------------------------------------------- binary searches

  /** ext4_ext_binsearch_idx: the pointers l and r become positions. */
  method BinsearchIdx(kids: seq<Kid>, b: nat) returns (c: nat)
    requires kids != [] && forall i, j :: 0 <= i < j < |kids| ==> kids[i].key < kids[j].key
    ensures c < |kids| && (kids[c].key <= b || c == 0)
    ensures c + 1 < |kids| ==> b < kids[c + 1].key
    ensures c == KeyPos(kids, b)
  {
    var l, r := 1, |kids| - 1;
    while l <= r
      invariant 1 <= l <= r + 2 && r < |kids| && l <= |kids|
      invariant l > 1 ==> kids[l - 1].key <= b
      invariant r + 1 < |kids| ==> b < kids[r + 1].key
      invariant l <= r + 1
      decreases r - l
    {
      var m := l + (r - l) / 2;
      if b < kids[m].key { r := m - 1; } else { l := m + 1; }
    }
    c := l - 1;
    KeyPosIs(kids, b, c);
  }

  /** ext4_ext_binsearch, on a leaf that is not empty. */
  method BinsearchLeaf(exts: seq<Extent>, b: nat) returns (c: nat)
    requires exts != [] && Sorted(exts)
    ensures IsPos(exts, b, c)
  {
    var l, r := 1, |exts| - 1;
    while l <= r
      invariant 1 <= l <= r + 1 && r < |exts|
      invariant l > 1 ==> exts[l - 1].first <= b
      invariant r + 1 < |exts| ==> b < exts[r + 1].first
      decreases r - l
    {
      var m := l + (r - l) / 2;
      if b < exts[m].first { r := m - 1; } else { l := m + 1; }
    }
    c := l - 1;
  }

  // --------------------------------------------------------------- descent

  lemma SortedPart(a: seq<Extent>, f: seq<Extent>, c: seq<Extent>)
    requires Sorted(a + f + c)
    ensures Sorted(a) && Sorted(f) && Sorted(c)
    ensures forall i, j :: 0 <= i < |a| && 0 <= j < |f| ==> a[i].first + a[i].len <= f[j].first
    ensures forall i, j :: 0 <= i < |f| && 0 <= j < |c| ==> f[i].first + f[i].len <= c[j].first
    ensures forall i, j :: 0 <= i < |a| && 0 <= j < |c| ==> a[i].first + a[i].len <= c[j].first
  {
    var w := a + f + c;
    assert forall i :: 0 <= i < |a| ==> w[i] == a[i];
    assert forall i :: 0 <= i < |f| ==> w[|a| + i] == f[i];
    assert forall i :: 0 <= i < |c| ==> w[|a| + |f| + i] == c[i];
  }

  /** Index keys are strictly increasing. */
  lemma KeysSorted(kids: seq<Kid>, i: nat, j: nat, h: nat, cap: nat)
    requires i < j < |kids| && Sorted(FlatKids(kids))
    requires WfKid(kids[i], h, cap) && WfKid(kids[j], h, cap)
    ensures kids[i].key < kids[j].key
  {
    FlatKidsAt(kids, j);
    FlatKidsAt(kids[..j], i);
    var l, x, y := FlatKids(kids[..j][..i]), Flat(kids[i].sub), FlatKids(kids[..j][i + 1..]);
    assert kids[..j][i] == kids[i];
    SortedPart(FlatKids(kids[..j]), Flat(kids[j].sub), FlatKids(kids[j + 1..]));
    assert FlatKids(kids[..j])[|l|] == x[0];
  }

  /** A search for b belongs below the subtree at p. */
  ghost predicate Guides(t: Tree, p: seq<nat>, b: nat)
    requires PathOk(t, p)
  {
    && (Before(t, p) != [] ==> Flat(At(t, p)) != [] && Flat(At(t, p))[0].first <= b)
    && (After(t, p) != [] ==> b < After(t, p)[0].first)
  }

  lemma {:induction false} BeforeSnoc(t: Tree, p: seq<nat>, c: nat)
    requires PathOk(t, p) && At(t, p).Node? && c < |At(t, p).kids|
    ensures PathOk(t, p + [c]) && At(t, p + [c]) == At(t, p).kids[c].sub
    ensures Before(t, p + [c]) == Before(t, p) + FlatKids(At(t, p).kids[..c])
    ensures After(t, p + [c]) == FlatKids(At(t, p).kids[c + 1..]) + After(t, p)
    decreases |p|
  {
    if p == [] {
      assert p + [c] == [c] && [c][1..] == [];
    } else {
      BeforeSnoc(t.kids[p[0]].sub, p[1..], c);
      assert (p + [c])[1..] == p[1..] + [c];
    }
  }

  lemma GuidesDown(t: Tree, p: seq<nat>, c: nat, b: nat, h: nat, cap: nat)
    requires PathOk(t, p) && Wf(t, h, cap) && At(t, p).Node? && Guides(t, p, b)
    requires var kids := At(t, p).kids;
      && c < |kids| && (kids[c].key <= b || c == 0) && (c + 1 < |kids| ==> b < kids[c + 1].key)
    ensures PathOk(t, p + [c]) && Guides(t, p + [c], b)
  {
    hide Wf, Before, After, Flat, WfKid;
    BeforeSnoc(t, p, c);
    WfAt(t, p, h, cap);
    NodeEnds(At(t, p), c, h - |p|, cap);
  }

  /** The first extents below a cursor and to its right. */
  lemma NodeEnds(t: Tree, c: nat, h: nat, cap: nat)
    requires Wf(t, h, cap) && t.Node? && c < |t.kids|
    ensures Flat(t.kids[c].sub) != [] && Flat(t.kids[c].sub)[0].first == t.kids[c].key
    ensures c + 1 < |t.kids| ==>
      FlatKids(t.kids[c + 1..]) != [] && FlatKids(t.kids[c + 1..])[0].first == t.kids[c + 1].key
    ensures c == 0 ==> FlatKids(t.kids[..c]) == []
    ensures c + 1 == |t.kids| ==> FlatKids(t.kids[c + 1..]) == []
    ensures Flat(t) != [] && (c == 0 ==> Flat(t)[0] == Flat(t.kids[0].sub)[0])
  {
    assert WfKid(t.kids[c], h - 1, cap);
    FlatKidsAt(t.kids, c);
    if c + 1 < |t.kids| {
      assert WfKid(t.kids[c + 1], h - 1, cap);
      assert t.kids[c + 1..][0] == t.kids[c + 1];
    }
  }

  /** A position in the leaf reached is a position in the whole list. */
  lemma PosInLeaf(t: Tree, p: seq<nat>, c: nat, b: nat)
    requires PathOk(t, p) && At(t, p).Leaf? && Guides(t, p, b) && IsPos(At(t, p).exts, b, c)
    ensures IsPos(Flat(t), b, |Before(t, p)| + c)
  {
    hide Before, After, IsPos, At;
    FlatAt(t, p);
    PosConcat(Before(t, p), Flat(At(t, p)), After(t, p), b, c);
  }

  lemma PosConcat(a: seq<Extent>, f: seq<Extent>, d: seq<Extent>, b: nat, c: nat)
    requires IsPos(f, b, c) && (a != [] ==> f[0].first <= b) && (d != [] ==> b < d[0].first)
    ensures IsPos(a + f + d, b, |a| + c)
  {
    var w := a + f + d;
    assert w[|a| + c] == f[c];
    if c + 1 < |f| {
      assert w[|a| + c + 1] == f[c + 1];
    } else if d != [] {
      assert w[|a| + c + 1] == d[0];
    }
  }

  /** ext4_find_extent: a cursor per level, and the position in the leaf; `c` means nothing when the
      leaf is empty. */
  method FindExtent(t: Tree, b: nat, ghost h: nat, ghost cap: nat) returns (p: seq<nat>, c: nat)
    requires Wf(t, h, cap) && Sorted(Flat(t))
    ensures PathOk(t, p) && |p| == h && At(t, p).Leaf? && Guides(t, p, b) && p == Descend(t, b)
    ensures Flat(t) != [] ==> At(t, p).exts != []
    ensures At(t, p).exts != [] ==> IsPos(At(t, p).exts, b, c) && IsPos(Flat(t), b, |Before(t, p)| + c)
  {
    hide Wf, Before, After, Flat, Sorted, PathOk, IsPos, Descend, Guides;
    p, c := [], 0;
    RootGuides(t, b);
    var n := t;
    while n.Node?
      invariant PathOk(t, p) && n == At(t, p) && Guides(t, p, b) && |p| <= h
      invariant Descend(t, b) == p + Descend(n, b)
      decreases h - |p|, if n.Node? then 1 else 0
    {
      NodeShape(t, p, h, cap);
      var i := BinsearchIdx(n.kids, b);
      DescendStep(n, b);
      GuidesDown(t, p, i, b, h, cap);
      BeforeSnoc(t, p, i);
      assert p + ([i] + Descend(n.kids[i].sub, b)) == (p + [i]) + Descend(n.kids[i].sub, b);
      p, n := p + [i], n.kids[i].sub;
    }
    DescendStep(n, b);
    LeafShape(t, p, h, cap);
    if n.exts != [] {
      c := BinsearchLeaf(n.exts, b);
      PosInLeaf(t, p, c, b);
    }
  }

  lemma RootGuides(t: Tree, b: nat)
    ensures PathOk(t, []) && Guides(t, [], b)
  {
  }

  lemma NodeShape(t: Tree, p: seq<nat>, h: nat, cap: nat)
    requires Wf(t, h, cap) && Sorted(Flat(t)) && PathOk(t, p) && At(t, p).Node?
    ensures |p| < h && At(t, p).kids != []
    ensures var kids := At(t, p).kids; forall i, j :: 0 <= i < j < |kids| ==> kids[i].key < kids[j].key
  {
    WfAt(t, p, h, cap);
    FlatAt(t, p);
    SortedPart(Before(t, p), Flat(At(t, p)), After(t, p));
    var kids := At(t, p).kids;
    forall i, j | 0 <= i < j < |kids|
      ensures kids[i].key < kids[j].key
    {
      KeysSorted(kids, i, j, h - |p| - 1, cap);
    }
  }

  lemma LeafShape(t: Tree, p: seq<nat>, h: nat, cap: nat)
    requires Wf(t, h, cap) && Sorted(Flat(t)) && PathOk(t, p) && At(t, p).Leaf?
    ensures |p| == h && Sorted(At(t, p).exts)
    ensures Flat(t) != [] ==> At(t, p).exts != []
  {
    WfAt(t, p, h, cap);
    FlatAt(t, p);
    SortedPart(Before(t, p), Flat(At(t, p)), After(t, p));
  }

  /** ext4_extent_get_blocks without `create`: the mapped block, or 0 for a hole or unwritten space. */
  method GetBlock(t: Tree, b: nat, ghost h: nat, ghost cap: nat) returns (block: nat)
    requires Wf(t, h, cap) && Sorted(Flat(t))
    ensures block == match Lookup(Flat(t), b)
                     case Some(m) => if m.unwritten then 0 else m.block
                     case None => 0
  {
    hide Wf, Before, After, Flat, Sorted, PathOk, Lookup, Guides;
    var p, c := FindExtent(t, b, h, cap);
    var exts := At(t, p).exts;
    block := 0;
    if exts != [] {
      var e := exts[c];
      ghost var g := |Before(t, p)| + c;
      LeafPosition(t, p, c);
      if Covers(e, b) {
        LookupAt(Flat(t), g, b);
        if !e.unwritten { block := b - e.first + e.start; }
      } else {
        NotCovered(Flat(t), b, g);
        LookupNone(Flat(t), b);
      }
    } else {
      LookupNone(Flat(t), b);
    }
  }

  lemma LeafPosition(t: Tree, p: seq<nat>, c: nat)
    requires PathOk(t, p) && At(t, p).Leaf? && c < |At(t, p).exts|
    ensures |Before(t, p)| + c < |Flat(t)| && Flat(t)[|Before(t, p)| + c] == At(t, p).exts[c]
  {
    FlatAt(t, p);
  }

  /** Only the extent at the search position can cover the block. */
  lemma NotCovered(f: seq<Extent>, b: nat, g: nat)
    requires Sorted(f) && IsPos(f, b, g) && !Covers(f[g], b)
    ensures forall i :: 0 <= i < |f| ==> !Covers(f[i], b)
  {
    forall i | 0 <= i < |f|
      ensures !Covers(f[i], b)
    {
      if i < g { assert f[i].first + f[i].len <= f[g].first; }
      if g + 1 < i { assert f[g + 1].first + f[g + 1].len <= f[i].first; }
    }
  }
}
