/** Insertion into an extent tree on values: into a leaf with room, after a split, after growth. */
module ExtentRoom {
  import opened ExtentTree
  import opened ExtentSearch
  import opened ExtentInsert
  import opened ExtentSplit

  const ROOT_MAX: nat := 4

  // -------------------------------------------------- one insertion, on values

  predicate Merges(exts: seq<Extent>, c: nat, n: Extent, merge: bool) {
    c < |exts| && merge && (CanAppend(exts[c], n) || CanPrepend(exts[c], n))
  }

  /** The tree after inserting in the leaf at p, with the keys above corrected when needed. */
  function Inserted(t: Tree, p: seq<nat>, c: nat, n: Extent, merge: bool): Tree
    requires PathOk(t, p) && At(t, p).Leaf? && (At(t, p).exts != [] ==> c < |At(t, p).exts|)
  {
    var l := At(t, p);
    var u := SetAt(t, p, l.(exts := InsertFlat(l.exts, c, n, merge)));
    FlatSet(t, p, l.(exts := InsertFlat(l.exts, c, n, merge)));
    if Merges(l.exts, c, n, merge) || (l.exts != [] && c > 0) then u
    else Corrected(u, p, InsertFlat(l.exts, c, n, merge)[0].first)
  }

  lemma InsertedOk(t: Tree, p: seq<nat>, c: nat, n: Extent, merge: bool, h: nat, cap: nat)
    requires Wf(t, h, cap) && Sorted(Flat(t)) && PathOk(t, p) && |p| == h && At(t, p).Leaf?
    requires At(t, p).exts != [] ==> c < |At(t, p).exts|
    requires Flat(t) != [] ==> |Before(t, p)| + c < |Flat(t)|
    requires Fits(Flat(t), |Before(t, p)| + c, n) && SafeMerge(Flat(t), |Before(t, p)| + c, n, merge)
    requires Merges(At(t, p).exts, c, n, merge) || |At(t, p).exts| < At(t, p).max
    ensures var r := Inserted(t, p, c, n, merge);
      && Wf(r, h, cap) && r.max == t.max && r.blk == t.blk
      && Flat(r) == InsertFlat(Flat(t), |Before(t, p)| + c, n, merge)
  {
    hide Flat, Wf, Before, After, Sorted, InsertFlat, Fits, SafeMerge, Corrected;
    var l := At(t, p);
    FlatAt(t, p);
    LeafFlat(l);
    if l.exts == [] {
      EmptyMeansRoot(t, p, h, cap);
      InsertedInEmpty(t, c, n, merge, cap);
      LeafFlat(t.(exts := [n]));
      assert |Before(t, p)| + c == c && p == [];
    } else {
      InsertInside(Before(t, p), l.exts, After(t, p), c, n, merge);
      var u := l.(exts := InsertFlat(l.exts, c, n, merge));
      LeafFlat(u);
      WfAt(t, p, h, cap);
      InsertedLeaf(l, c, n, merge, Flat(t), |Before(t, p)| + c, cap);
      FlatSet(t, p, u);
      RootFields(t, p, u);
      if Merges(l.exts, c, n, merge) || c > 0 {
        WfSet(t, p, u, h, cap);
      } else {
        CorrectedWf(t, p, u, h, cap, u.exts[0].first);
        CorrectedFlat(SetAt(t, p, u), p, u.exts[0].first);
        CorrectedFields(SetAt(t, p, u), p, u.exts[0].first);
      }
    }
  }

  /** A merge changes the extents as stated even when it is not a safe one. */
  lemma MergedFlat(t: Tree, p: seq<nat>, c: nat, n: Extent, merge: bool)
    requires PathOk(t, p) && At(t, p).Leaf? && Merges(At(t, p).exts, c, n, merge)
    ensures var r := Inserted(t, p, c, n, merge);
      && r.max == t.max && r.blk == t.blk && |Before(t, p)| + c < |Flat(t)|
      && Flat(r) == InsertFlat(Flat(t), |Before(t, p)| + c, n, merge)
  {
    hide Flat, Before, After, InsertFlat, CanAppend, CanPrepend;
    var l := At(t, p);
    var u := l.(exts := InsertFlat(l.exts, c, n, merge));
    FlatAt(t, p);
    LeafFlat(l);
    LeafFlat(u);
    InsertInside(Before(t, p), l.exts, After(t, p), c, n, merge);
    FlatSet(t, p, u);
    RootFields(t, p, u);
  }

  lemma EmptyMeansRoot(t: Tree, p: seq<nat>, h: nat, cap: nat)
    requires Wf(t, h, cap) && PathOk(t, p) && |p| == h && At(t, p).Leaf? && At(t, p).exts == []
    ensures p == [] && h == 0 && t.Leaf? && t.exts == [] && Flat(t) == [] && Before(t, p) == []
  {
    WfAt(t, p, h, cap);
  }

  lemma InsertedInEmpty(t: Tree, c: nat, n: Extent, merge: bool, cap: nat)
    requires t.Leaf? && t.exts == [] && t.max > 0
    ensures var r := Inserted(t, [], c, n, merge); Wf(r, 0, cap) && r == t.(exts := [n])
    ensures InsertFlat([], c, n, merge) == [n]
  {
    assert InsertFlat(t.exts, c, n, merge) == [n];
  }

  lemma RootFields(t: Tree, p: seq<nat>, u: Tree)
    requires PathOk(t, p)
    ensures p != [] ==> SetAt(t, p, u).blk == t.blk && SetAt(t, p, u).max == t.max
    ensures p == [] ==> SetAt(t, p, u) == u && At(t, p) == t
  {
  }

  lemma CorrectedFields(t: Tree, p: seq<nat>, border: nat)
    requires PathOk(t, p)
    ensures Corrected(t, p, border).blk == t.blk && Corrected(t, p, border).max == t.max
  {
  }

  /** The changed leaf: it fits, and begins where it did unless the new extent came first. */
  lemma InsertedLeaf(l: Tree, c: nat, n: Extent, merge: bool, f: seq<Extent>, g: nat, cap: nat)
    requires l.Leaf? && c < |l.exts| <= l.max && g < |f| && f[g] == l.exts[c]
    requires Fits(f, g, n) && SafeMerge(f, g, n, merge) && Sorted(f)
    requires Merges(l.exts, c, n, merge) || |l.exts| < l.max
    ensures var u := l.(exts := InsertFlat(l.exts, c, n, merge));
      && Wf(u, 0, cap) && u.exts != []
      && (Merges(l.exts, c, n, merge) || c > 0 ==> u.exts[0].first == l.exts[0].first)
  {
  }

  // ------------------------------------------------------------ tree growing

  function Grown(t: Tree, nb: nat, cap: nat): Tree
    requires if t.Leaf? then t.exts != [] else t.kids != []
  {
    Node(t.blk, ROOT_MAX, [Kid(if t.Leaf? then t.exts[0].first else t.kids[0].key, t.(blk := nb, max := cap))])
  }

  lemma GrownOk(t: Tree, nb: nat, h: nat, cap: nat)
    requires Wf(t, h, cap) && Flat(t) != [] && t.max <= cap
    ensures t.Leaf? ==> t.exts != []
    ensures t.Node? ==> t.kids != []
    ensures var r := Grown(t, nb, cap);
      && Wf(r, h + 1, cap) && Flat(r) == Flat(t) && r.max == ROOT_MAX && r.blk == t.blk
    ensures forall b :: Uses(Grown(t, nb, cap), b) == Uses(t, b) + if b == nb then 1 else 0
  {
    var k := Grown(t, nb, cap).kids[0];
    FlatKidsOne(k);
    SameEntries(t, k.sub, h, cap);
    if t.Node? { NodeEnds(t, 0, h, cap); }
    assert WfKid(k, h, cap);
    forall b
      ensures Uses(Grown(t, nb, cap), b) == Uses(t, b) + if b == nb then 1 else 0
    {
      UsesHere(t, b);
      UsesHere(k.sub, b);
      UsesHere(Grown(t, nb, cap), b);
      UsesKidsOne(k, b);
    }
  }

  lemma SameEntries(t: Tree, u: Tree, h: nat, cap: nat)
    requires Wf(t, h, cap) && u == t.(blk := u.blk, max := cap) && t.max <= cap
    ensures Wf(u, h, cap) && Flat(u) == Flat(t)
  {
  }

  /** The old path, seen from the new root. */
  lemma GrownPath(t: Tree, nb: nat, cap: nat, p: seq<nat>, b: nat)
    requires PathOk(t, p) && (if t.Leaf? then t.exts != [] else t.kids != [])
    ensures var r, p' := Grown(t, nb, cap), [0] + p;
      && PathOk(r, p') && Before(r, p') == Before(t, p) && |p'| == |p| + 1
      && At(r, p') == (if p == [] then t.(blk := nb, max := cap) else At(t, p))
      && Descend(r, b) == [0] + Descend(t, b)
  {
    var r, m := Grown(t, nb, cap), t.(blk := nb, max := cap);
    SamePath(t, m, p);
    assert ([0] + p)[1..] == p;
    assert r.kids[..0] == [];
    DescendStep(r, b);
    assert KeyPos(r.kids, b) == 0;
    if t.Node? {
      DescendStep(t, b);
      DescendStep(m, b);
    }
  }

  lemma SamePath(t: Tree, m: Tree, p: seq<nat>)
    requires PathOk(t, p) && m == t.(blk := m.blk, max := m.max)
    ensures PathOk(m, p) && Before(m, p) == Before(t, p)
    ensures At(m, p) == if p == [] then m else At(t, p)
  {
  }

  // --------------------------------------------------------------- splitting

  predicate NodeFull(t: Tree) {
    match t
    case Leaf(_, max, exts) => |exts| == max
    case Node(_, max, kids) => |kids| == max
  }

  /** The entries of the root are in the 60 bytes of the inode with 12 bytes of header and 12 bytes each, and the root
      counts as full exactly if there is no place for one more. */
  lemma RootBytes(t: Tree, h: nat, cap: nat)
    requires Wf(t, h, cap) && t.max == ROOT_MAX
    ensures var n := if t.Leaf? then |t.exts| else |t.kids|;
      12 + 12 * n <= 60 && (NodeFull(t) <==> 12 + 12 * (n + 1) > 60)
  {
  }

  predicate FullFrom(t: Tree, p: seq<nat>, at: nat) {
    forall i :: at <= i <= |p| ==> PathOk(t, p[..i]) && NodeFull(At(t, p[..i]))
  }

  predicate HasRoom(t: Tree, p: seq<nat>, i: nat) {
    && i < |p| && PathOk(t, p[..i]) && At(t, p[..i]).Node?
    && p[i] < |At(t, p[..i]).kids| < At(t, p[..i]).max
  }

  lemma FullAt(t: Tree, p: seq<nat>, at: nat, i: nat)
    requires FullFrom(t, p, at) && at <= i <= |p|
    ensures PathOk(t, p[..i]) && NodeFull(At(t, p[..i]))
  {
  }

  /** The key of the new subtree: the first extent moved, or the one to be inserted. */
  function SplitKey(exts: seq<Extent>, c: nat, n: Extent): nat {
    if c + 1 < |exts| then exts[c + 1].first else n.first
  }

  /** Split is defined at this level. */
  ghost predicate CutOk(t: Tree, p: seq<nat>, c: nat, at: nat, s: seq<nat>) {
    && 1 <= at <= |p| && |p| - at < |s| && PathOk(t, p[..at - 1])
    && var n := At(t, p[..at - 1]);
    && n.Node? && p[at - 1] < |n.kids| && PathOk(n.kids[p[at - 1]].sub, p[at..])
    && var l := At(n.kids[p[at - 1]].sub, p[at..]); l.Leaf? && c < |l.exts|
  }

  /** r is t with everything right of the path cut off below level i. */
  ghost predicate LeftOnly(t: Tree, r: Tree, p: seq<nat>, c: nat, i: nat) {
    && i < |p| && PathOk(t, p) && At(t, p).Leaf? && c < |At(t, p).exts|
    && PathOk(t, p[..i + 1]) && PathOk(At(t, p[..i + 1]), p[i + 1..])
    && At(At(t, p[..i + 1]), p[i + 1..]) == At(t, p)
    && r == SetAt(t, p[..i + 1], SplitLeft(At(t, p[..i + 1]), p[i + 1..], c))
  }

  lemma SplitFirst(t: Tree, p: seq<nat>, c: nat, key: nat, s: seq<nat>, cap: nat)
    requires PathOk(t, p) && At(t, p).Leaf? && c < |At(t, p).exts| && p != [] && s != []
    ensures var r, l := SetAt(t, p, At(t, p).(exts := At(t, p).exts[..c + 1])), At(t, p);
      && LeftOnly(t, r, p, c, |p| - 1)
      && (c + 1 == |l.exts| ==> r == t)
      && Leaf(s[0], cap, l.exts[c + 1..]) == SplitRight(At(t, p[..|p|]), p[|p|..], key, s, cap, l.exts[c + 1..])
  {
    var l := At(t, p);
    assert p[..|p|] == p && p[|p|..] == [];
    if c + 1 == |l.exts| {
      assert l.exts[..c + 1] == l.exts;
      SetSame(t, p);
    }
  }

  /** One more level: the node there still has all its entries, the one on the path cut. */
  lemma LevelUp(t: Tree, r: Tree, p: seq<nat>, c: nat, at: nat, i: nat)
    requires LeftOnly(t, r, p, c, i) && FullFrom(t, p, at) && 1 <= at <= i < |p|
    ensures PathOk(r, p[..i])
    ensures var n, n' := At(t, p[..i]), At(r, p[..i]);
      && PathOk(t, p[..i]) && n.Node? && n'.Node? && p[i] < |n'.kids| == |n.kids| == n'.max
      && n'.kids[p[i] + 1..] == n.kids[p[i] + 1..]
      && var r' := SetAt(r, p[..i], n'.(kids := n'.kids[..p[i] + 1]));
      && LeftOnly(t, r', p, c, i - 1)
      && (p[i] + 1 == n'.max ==> r' == r)
  {
    hide SplitLeft, SetAt, Flat, Before, After;
    SplitStep(t, p, i, c, r);
    FullAt(t, p, at, i);
    var n' := At(r, p[..i]);
    if p[i] + 1 == n'.max {
      assert n'.kids[..p[i] + 1] == n'.kids;
      SetSame(r, p[..i]);
    }
    assert p[..i - 1 + 1] == p[..i] && p[i - 1 + 1..] == p[i..];
  }

  lemma RightStep(t: Tree, p: seq<nat>, i: nat, key: nat, s: seq<nat>, cap: nat, mid: seq<Extent>)
    requires i < |p| && |p| - i < |s| && PathOk(t, p[..i + 1]) && PathOk(t, p[..i])
    requires At(t, p[..i]).Node? && p[i] < |At(t, p[..i]).kids| && PathOk(At(t, p[..i + 1]), p[i + 1..])
    ensures PathOk(At(t, p[..i]), p[i..])
    ensures SplitRight(At(t, p[..i]), p[i..], key, s, cap, mid) ==
            Node(s[|p| - i], cap, [Kid(key, SplitRight(At(t, p[..i + 1]), p[i + 1..], key, s, cap, mid))]
                                  + At(t, p[..i]).kids[p[i] + 1..])
  {
    assert p[..i + 1] == p[..i] + [p[i]];
    PathSplit(t, p[..i], [p[i]]);
    OneDown(At(t, p[..i]), p[i]);
    assert p[i..][0] == p[i] && p[i..][1..] == p[i + 1..];
  }

  lemma AttachStep(t: Tree, r: Tree, p: seq<nat>, c: nat, at: nat, key: nat, s: seq<nat>, cap: nat, mid: seq<Extent>)
    requires 1 <= at <= |p| && |p| - at < |s| && LeftOnly(t, r, p, c, at - 1)
    ensures CutOk(t, p, c, at, s) && PathOk(r, p[..at - 1])
    ensures var n, n', k := At(t, p[..at - 1]), At(r, p[..at - 1]), p[at - 1];
      && n'.Node? && k < |n'.kids| && n'.kids[k].key == n.kids[k].key
      && var carry := SplitRight(At(t, p[..at]), p[at..], key, s, cap, mid);
      SetAt(r, p[..at - 1], n'.(kids := n'.kids[..k + 1] + [Kid(key, carry)] + n'.kids[k + 1..]))
        == Split(t, p, c, at, key, s, cap, mid)
  {
    hide SplitLeft, SplitRight, Flat, Before, After, SetAt;
    assert p[..at - 1 + 1] == p[..at] && p[at - 1 + 1..] == p[at..];
    SplitStep(t, p, at - 1, c, r);
    var n, n', k := At(t, p[..at - 1]), At(r, p[..at - 1]), p[at - 1];
    var l, carry := SplitLeft(n.kids[k].sub, p[at..], c), SplitRight(n.kids[k].sub, p[at..], key, s, cap, mid);
    var a := Attach(n, k, l, Kid(key, carry));
    assert n'.kids[..k + 1] + [Kid(key, carry)] + n'.kids[k + 1..] == a.kids;
    AtSet(t, p, at, c, r, n', a);
  }

  lemma AtSet(t: Tree, p: seq<nat>, at: nat, c: nat, r: Tree, n': Tree, a: Tree)
    requires 1 <= at <= |p| && LeftOnly(t, r, p, c, at - 1)
    requires PathOk(t, p[..at - 1]) && PathOk(r, p[..at - 1]) && n' == At(r, p[..at - 1])
    ensures SetAt(r, p[..at - 1], a) == SetAt(t, p[..at - 1], a)
  {
    var q, k := p[..at - 1], p[at - 1];
    assert p[..at] == q + [k];
    PathPrefix(t, q, [k]);
    var v := SplitLeft(At(t, p[..at]), p[at..], c);
    SetSplit(t, q, [k], v);
    SetSet(t, q, SetAt(At(t, q), [k], v), a);
  }

  lemma CorrectedRoot(t: Tree)
    ensures forall border :: Corrected(t, [], border) == t
  {
  }

  lemma CorrectedStart(t: Tree, p: seq<nat>, border: nat)
    requires p != [] && PathOk(t, p)
    ensures var k := |p| - 1;
      && p[..k + 1] == p && p[k + 1..] == [] && PathOk(At(t, p), [])
      && t == SetAt(t, p[..k + 1], Corrected(At(t, p[..k + 1]), p[k + 1..], border))
  {
    var k := |p| - 1;
    assert p[..k + 1] == p && p[k + 1..] == [];
    SetSame(t, p);
  }

  lemma {:induction false} SetSame(t: Tree, p: seq<nat>)
    requires PathOk(t, p)
    ensures SetAt(t, p, At(t, p)) == t
    decreases |p|
  {
    if p != [] {
      SetSame(t.kids[p[0]].sub, p[1..]);
      assert t.kids[p[0] := t.kids[p[0]]] == t.kids;
    }
  }

  lemma CorrectedDone(t: Tree, p: seq<nat>, border: nat)
    requires PathOk(t, p)
    ensures PathOk(t, []) && At(t, []) == t
    ensures SetAt(t, [], Corrected(t, p, border)) == Corrected(t, p, border)
  {
  }

  // ------------------------------------------------- room for one insertion

  /** What ext4_find_extent leaves for a block that is not mapped. */
  ghost predicate Found(t: Tree, p: seq<nat>, c: nat, n: Extent, h: nat, cap: nat) {
    && Wf(t, h, cap) && Sorted(Flat(t)) && cap > ROOT_MAX && t.max == ROOT_MAX && t.blk == 0
    && PathOk(t, p) && |p| == h && At(t, p).Leaf?
    && (Flat(t) != [] ==> At(t, p).exts != [])
    && (At(t, p).exts != [] ==> IsPos(At(t, p).exts, n.first, c))
    && Fits(Flat(t), |Before(t, p)| + c, n)
  }

  /** Inserting at p is going to succeed and give the extents f. */
  ghost predicate Ready(t: Tree, p: seq<nat>, c: nat, n: Extent, merge: bool, h: nat, cap: nat, f: seq<Extent>) {
    && PathOk(t, p) && At(t, p).Leaf? && |At(t, p).exts| < At(t, p).max
    && (At(t, p).exts != [] ==> c < |At(t, p).exts| && At(t, p).exts[c].first != n.first)
    && var r := Inserted(t, p, c, n, merge);
    && Wf(r, h, cap) && r.max == ROOT_MAX && r.blk == 0 && Flat(r) == f
  }

  lemma FoundLeaf(t: Tree, p: seq<nat>, c: nat, n: Extent, h: nat, cap: nat)
    requires Found(t, p, c, n, h, cap)
    ensures var f, g, l := Flat(t), |Before(t, p)| + c, At(t, p);
      && f == Before(t, p) + l.exts + After(t, p)
      && |l.exts| <= l.max && l.max == (if p == [] then ROOT_MAX else cap)
      && (f != [] ==> c < |l.exts| && g < |f| && f[g] == l.exts[c] && f[g].first != n.first && f[g].len > 0)
      && (l.exts != [] <==> f != [])
  {
    hide Before, After, Flat, IsPos, Sorted, At, PathOk, Wf;
    var l := At(t, p);
    FlatAt(t, p);
    LeafFlat(l);
    LeafSize(t, p, h, cap);
    if Flat(t) != [] {
      PosBound(l.exts, n.first, c);
      MiddleAt(Before(t, p), l.exts, After(t, p), c);
      LenAt(Flat(t), |Before(t, p)| + c);
    }
  }

  lemma LeafSize(t: Tree, p: seq<nat>, h: nat, cap: nat)
    requires Wf(t, h, cap) && PathOk(t, p) && At(t, p).Leaf?
    ensures |At(t, p).exts| <= At(t, p).max == if p == [] then t.max else cap
  {
    WfAt(t, p, h, cap);
  }

  lemma MiddleAt(a: seq<Extent>, e: seq<Extent>, d: seq<Extent>, c: nat)
    requires c < |e|
    ensures |a| + c < |a + e + d| && (a + e + d)[|a| + c] == e[c]
  {
  }

  lemma PosBound(f: seq<Extent>, b: nat, c: nat)
    requires IsPos(f, b, c)
    ensures c < |f| && (c > 0 ==> f[c].first <= b) && (c + 1 < |f| ==> b < f[c + 1].first)
  {
  }

  lemma ReadyHere(t: Tree, p: seq<nat>, c: nat, n: Extent, merge: bool, h: nat, cap: nat)
    requires Found(t, p, c, n, h, cap)
    requires Flat(t) != [] ==> |Before(t, p)| + c < |Flat(t)|
    requires SafeMerge(Flat(t), |Before(t, p)| + c, n, merge)
    requires |At(t, p).exts| < At(t, p).max
    ensures Ready(t, p, c, n, merge, h, cap, InsertFlat(Flat(t), |Before(t, p)| + c, n, merge))
  {
    hide Flat, Before, After, Wf, Fits, IsPos, InsertFlat, Inserted, SafeMerge, Sorted, At, PathOk;
    FoundLeaf(t, p, c, n, h, cap);
    InsertedOk(t, p, c, n, merge, h, cap);
  }

  /** The key of a new subtree is above that of the entry it goes next to. */
  lemma KeyAbove(t: Tree, p: seq<nat>, c: nat, n: Extent, i: nat, h: nat, cap: nat)
    requires Found(t, p, c, n, h, cap) && i < |p| && |At(t, p).exts| == At(t, p).max
    requires PathOk(t, p[..i])
    ensures c < |At(t, p).exts| && At(t, p[..i]).Node? && p[i] < |At(t, p[..i]).kids|
    ensures At(t, p[..i]).kids[p[i]].key < SplitKey(At(t, p).exts, c, n)
    ensures c + 1 < |At(t, p).exts| ==> n.first < At(t, p).exts[c + 1].first
    ensures c + 1 == |At(t, p).exts| ==> At(t, p).exts[c].first < n.first
  {
    hide Flat, FlatKids, Before, After, Sorted, IsPos, Wf, Fits;
    FoundLeaf(t, p, c, n, h, cap);
    PathCut(t, p, i);
    var q, k, exts := p[..i], p[i], At(t, p).exts;
    WfAt(t, q, h, cap);
    KidAt(At(t, q), k, h - i, cap);
    var sub := At(t, q).kids[k].sub;
    FlatAt(sub, p[i + 1..]);
    LeafFlat(At(t, p));
    var x, z := Before(sub, p[i + 1..]), After(sub, p[i + 1..]);
    PosBound(exts, n.first, c);
    SortedSub(Before(t, q), FlatKids(At(t, q).kids[..k]), x, exts, After(t, p));
    FirstBelow(x, exts, z, c);
  }

  lemma SortedSub(a: seq<Extent>, d: seq<Extent>, x: seq<Extent>, e: seq<Extent>, z: seq<Extent>)
    requires Sorted(a + d + x + e + z)
    ensures Sorted(x + e)
  {
    assert a + d + x + e + z == (a + d) + (x + e) + z;
    SortedPart(a + d, x + e, z);
  }

  lemma FirstBelow(x: seq<Extent>, e: seq<Extent>, z: seq<Extent>, c: nat)
    requires Sorted(x + e) && c < |e|
    ensures (x + e + z)[0].first <= e[c].first
    ensures c + 1 < |e| ==> e[c].first < e[c + 1].first
  {
    var w := x + e;
    FirstsOrdered(w);
    assert w[|x| + c] == e[c] && (x + e + z)[0] == w[0];
    if c + 1 < |e| { assert w[|x| + c + 1] == e[c + 1]; }
  }

  lemma SplitsLeft(t: Tree, p: seq<nat>, c: nat, at: nat, n: Extent, merge: bool, s: seq<nat>, h: nat, cap: nat)
    requires Found(t, p, c, n, h, cap) && CutOk(t, p, c, at, s) && HasRoom(t, p, at - 1)
    requires |Before(t, p)| + c < |Flat(t)| && SafeMerge(Flat(t), |Before(t, p)| + c, n, merge)
    requires c + 1 < |At(t, p).exts|
    ensures Ready(Split(t, p, c, at, SplitKey(At(t, p).exts, c, n), s, cap, At(t, p).exts[c + 1..]), p, c, n, merge,
                  h, cap, InsertFlat(Flat(t), |Before(t, p)| + c, n, merge))
  {
    hide Flat, FlatKids, Before, After, Sorted, IsPos, Wf, Fits, Split, InsertFlat, Inserted, SafeMerge;
    FoundLeaf(t, p, c, n, h, cap);
    PathCut(t, p, at - 1);
    var l, key := At(t, p), SplitKey(At(t, p).exts, c, n);
    var mid := l.exts[c + 1..];
    var r := Split(t, p, c, at, key, s, cap, mid);
    SplitFlat(t, p, c, at, key, s, cap, mid);
    SplitWf(t, p, c, at, key, s, cap, mid, h);
    SplitLeftPath(t, p, c, at, key, s, cap, mid);
    Rejoin(Before(t, p), l.exts, c, After(t, p));
    InsertedOk(r, p, c, n, merge, h, cap);
  }

  lemma Rejoin(a: seq<Extent>, e: seq<Extent>, c: nat, z: seq<Extent>)
    requires c < |e|
    ensures a + e[..c + 1] + e[c + 1..] + z == a + e + z
  {
  }

  lemma SplitsRight(t: Tree, p: seq<nat>, c: nat, at: nat, n: Extent, merge: bool, s: seq<nat>, h: nat, cap: nat)
    requires Found(t, p, c, n, h, cap) && CutOk(t, p, c, at, s) && HasRoom(t, p, at - 1)
    requires |Before(t, p)| + c < |Flat(t)|
    requires c + 1 == |At(t, p).exts| && !Merges(At(t, p).exts, c, n, merge) && At(t, p).exts[c].first < n.first
    ensures Ready(Split(t, p, c, at, SplitKey(At(t, p).exts, c, n), s, cap, At(t, p).exts[c + 1..]), RightOf(p, at),
                  c, n, merge, h, cap, InsertFlat(Flat(t), |Before(t, p)| + c, n, merge))
  {
    hide Flat, FlatKids, Before, After, Sorted, IsPos, Wf, Fits, Split;
    FoundLeaf(t, p, c, n, h, cap);
    PathCut(t, p, at - 1);
    var l, key, p' := At(t, p), SplitKey(At(t, p).exts, c, n), RightOf(p, at);
    assert l.exts[c + 1..] == [];
    var r, r' := Split(t, p, c, at, key, s, cap, []), Split(t, p, c, at, key, s, cap, [n]);
    SplitFlat(t, p, c, at, key, s, cap, [n]);
    SplitWf(t, p, c, at, key, s, cap, [n], h);
    SplitRightPath(t, p, c, at, key, s, cap, [n]);
    AppendAfter(Before(t, p), l.exts, After(t, p), c, n, merge);
    IntoEmpty(r', p', Leaf(s[0], cap, []), c, n, merge, h, cap);
  }

  lemma AppendAfter(a: seq<Extent>, e: seq<Extent>, z: seq<Extent>, c: nat, n: Extent, merge: bool)
    requires c + 1 == |e| && !Merges(e, c, n, merge) && e[c].first < n.first
    ensures a + e[..c + 1] + [n] + z == InsertFlat(a + e + z, |a| + c, n, merge)
  {
    hide InsertFlat, Merges;
    AppendLast(e, c, n, merge);
    InsertInside(a, e, z, c, n, merge);
  }

  lemma AppendLast(e: seq<Extent>, c: nat, n: Extent, merge: bool)
    requires c + 1 == |e| && !Merges(e, c, n, merge) && e[c].first < n.first
    ensures e[..c + 1] + [n] == InsertFlat(e, c, n, merge)
  {
    hide CanAppend, CanPrepend;
    assert e[c + 1..] == [];
  }

  /** Emptying the leaf that holds just n and inserting n again. */
  lemma IntoEmpty(t: Tree, p: seq<nat>, e: Tree, c: nat, n: Extent, merge: bool, h: nat, cap: nat)
    requires PathOk(t, p) && e.Leaf? && e.exts == [] && At(t, p) == e.(exts := [n]) && Wf(t, h, cap)
    ensures PathOk(SetAt(t, p, e), p) && At(SetAt(t, p, e), p) == e
    ensures Inserted(SetAt(t, p, e), p, c, n, merge) == t
  {
    FlatSet(t, p, e);
    SetSet(t, p, e, e.(exts := [n]));
    SetSame(t, p);
    CorrectedSame(t, p, h, cap, n.first);
  }

  // ------------------------------------------------------ when blocks run out

  /** How many blocks it takes to make room in the leaf at the end of a path: one for each full level from the
      leaf up, and one to grow the tree if no level has room. */
  function Needed(t: Tree, p: seq<nat>): (n: nat)
    requires PathOk(t, p)
    ensures n <= |p| + 1
    decreases |p|
  {
    if p == [] then if NodeFull(t) then 1 else 0
    else
      var n := Needed(t.kids[p[0]].sub, p[1..]);
      if n == |p| && NodeFull(t) then n + 1 else n
  }

  /** Of s blocks, those that a split gets that fails for want of more. */
  function Taken(t: Tree, p: seq<nat>, s: nat): nat
    requires PathOk(t, p)
  {
    if Needed(t, p) == |p| + 1 && s > 0 then s - 1 else s
  }

  /** The extents right of the path below the entries of its lowest j index nodes. */
  function Right(t: Tree, p: seq<nat>, j: nat): nat
    requires PathOk(t, p)
    decreases |p|
  {
    if p == [] then 0
    else Right(t.kids[p[0]].sub, p[1..], j) + if |p| <= j then |FlatKids(t.kids[p[0] + 1..])| else 0
  }

  /** The cursors of the lowest j index nodes are on their last entries. */
  predicate LastFrom(t: Tree, p: seq<nat>, j: nat)
    requires PathOk(t, p)
    decreases |p|
  {
    p != [] ==> LastFrom(t.kids[p[0]].sub, p[1..], j) && (|p| <= j ==> p[0] + 1 == |t.kids|)
  }

  /** How many extents are lost when a split after extent c of the leaf fails after j blocks: those that were
      moved to the new leaf and the new nodes. */
  function LostBy(t: Tree, p: seq<nat>, c: nat, j: nat): nat
    requires PathOk(t, p) && At(t, p).Leaf? && c < |At(t, p).exts|
  {
    if j == 0 then 0 else |At(t, p).exts| - (c + 1) + Right(t, p, j - 1)
  }

  /** None are lost exactly when no block was there to begin with, or the position is the last one in the leaf
      and in every node that was cut. */
  lemma {:induction false} NoneRight(t: Tree, p: seq<nat>, j: nat, h: nat, cap: nat)
    requires Wf(t, h, cap) && PathOk(t, p)
    ensures Right(t, p, j) == 0 <==> LastFrom(t, p, j)
    decreases |p|
  {
    hide Flat, FlatKids;
    if p != [] {
      KidAt(t, p[0], h, cap);
      NoneRight(t.kids[p[0]].sub, p[1..], j, h - 1, cap);
      if p[0] + 1 < |t.kids| {
        var rest := t.kids[p[0] + 1..];
        assert rest[0] == t.kids[p[0] + 1];
        KidAt(t, p[0] + 1, h, cap);
        FlatKidsAt(rest, 0);
      } else {
        assert t.kids[p[0] + 1..] == [];
        NoKids();
      }
    }
  }

  lemma NoKids()
    ensures FlatKids([]) == []
  {
  }

  lemma LostNone(t: Tree, p: seq<nat>, c: nat, j: nat, h: nat, cap: nat)
    requires Wf(t, h, cap) && PathOk(t, p) && At(t, p).Leaf? && c < |At(t, p).exts|
    ensures LostBy(t, p, c, j) == 0 <==> j == 0 || (c + 1 == |At(t, p).exts| && LastFrom(t, p, j - 1))
  {
    hide Right, LastFrom, Wf;
    if j > 0 { NoneRight(t, p, j - 1, h, cap); }
  }

  /** What lies right of a path in the whole tree. */
  lemma {:induction false} RightWhole(t: Tree, p: seq<nat>)
    requires PathOk(t, p)
    ensures |After(t, p)| == Right(t, p, |p|)
    decreases |p|
  {
    hide FlatKids;
    if p != [] {
      RightWhole(t.kids[p[0]].sub, p[1..]);
      RightAll(t.kids[p[0]].sub, p[1..], |p| - 1, |p|);
    }
  }

  /** What lies right of the path inside a subtree on it. */
  lemma {:induction false} RightIs(t: Tree, p: seq<nat>, m: nat)
    requires PathOk(t, p) && m <= |p|
    ensures PathOk(t, p[..m]) && PathOk(At(t, p[..m]), p[m..])
    ensures |After(At(t, p[..m]), p[m..])| == Right(t, p, |p| - m)
    decreases |p|
  {
    hide FlatKids, After;
    if m == 0 {
      assert p[..0] == [] && p[0..] == p;
      AtRoot(t);
      RightWhole(t, p);
    } else {
      assert p[..m][0] == p[0] && p[..m][1..] == p[1..][..m - 1] && p[m..] == p[1..][m - 1..];
      RightIs(t.kids[p[0]].sub, p[1..], m - 1);
    }
  }

  /** A path has no more index nodes than that. */
  lemma {:induction false} RightAll(t: Tree, p: seq<nat>, i: nat, j: nat)
    requires PathOk(t, p) && |p| <= i && |p| <= j
    ensures Right(t, p, i) == Right(t, p, j)
    decreases |p|
  {
    hide FlatKids;
    if p != [] { RightAll(t.kids[p[0]].sub, p[1..], i, j); }
  }

  /** The blocks needed, from the first level from the leaf up that is not full. */
  lemma {:induction false} NeededIs(t: Tree, p: seq<nat>, i: int)
    requires PathOk(t, p) && -1 <= i <= |p| && FullFrom(t, p, i + 1)
    requires i >= 0 ==> PathOk(t, p[..i]) && !NodeFull(At(t, p[..i]))
    ensures Needed(t, p) == |p| - i
    decreases |p|
  {
    hide NodeFull;
    if p == [] {
      if i == -1 { FullAt(t, p, 0, 0); }
      assert p[..0] == [];
    } else {
      var sub, w := t.kids[p[0]].sub, p[1..];
      var i' := if i >= 0 then i - 1 else -1;
      forall x | i' + 1 <= x <= |w|
        ensures PathOk(sub, w[..x]) && NodeFull(At(sub, w[..x]))
      {
        FullAt(t, p, i + 1, x + 1);
        assert p[..x + 1][1..] == w[..x] && p[..x + 1][0] == p[0];
      }
      if i >= 1 {
        assert p[..i][1..] == w[..i - 1] && p[..i][0] == p[0];
      } else {
        assert p[..0] == [];
        if i == -1 { FullAt(t, p, 0, 0); }
      }
      NeededIs(sub, w, i');
    }
  }

  lemma {:induction false} NeededSome(t: Tree, p: seq<nat>)
    requires PathOk(t, p)
    ensures Needed(t, p) > 0 <==> NodeFull(At(t, p))
    decreases |p|
  {
    hide NodeFull;
    if p != [] { NeededSome(t.kids[p[0]].sub, p[1..]); }
  }

  /** r is f without the k extents after position g. */
  predicate Without(f: seq<Extent>, r: seq<Extent>, g: nat, k: nat) {
    g + k < |f| && r == f[..g + 1] + f[g + 1 + k..]
  }

  /** What becomes of the extents f when an insertion behind extent c of the leaf is refused with s blocks at hand:
      the k extents after the position are lost. None are exactly if no block was there to begin with, or the
      position is the last one in the leaf and in every node that was cut. */
  ghost predicate Loses(t: Tree, r: seq<Extent>, p: seq<nat>, c: nat, s: nat, k: nat)
    requires PathOk(t, p) && At(t, p).Leaf?
  {
    var f, g, j := Flat(t), |Before(t, p)| + c, Taken(t, p, s);
    && c < |At(t, p).exts| && k == LostBy(t, p, c, j)
    && Without(f, r, g, k)
    && (r == f <==> j == 0 || (c + 1 == |At(t, p).exts| && LastFrom(t, p, j - 1)))
  }

  lemma LostReads(f: seq<Extent>, r: seq<Extent>, g: nat, k: nat)
    requires Without(f, r, g, k) && CountsRead(f)
    ensures CountsRead(r)
  {
    hide CountReads;
  }

  lemma Refused(t: Tree, r: seq<Extent>, p: seq<nat>, c: nat, n: Extent, s: nat, k: nat, h: nat, cap: nat)
    requires Found(t, p, c, n, h, cap) && Flat(t) != [] && c < |At(t, p).exts| && k == LostBy(t, p, c, Taken(t, p, s))
    requires |Before(t, p)| + c < |Flat(t)| && Without(Flat(t), r, |Before(t, p)| + c, k)
    ensures Loses(t, r, p, c, s, k)
  {
    hide Flat, Before, After, Sorted, IsPos, Fits, Right, LastFrom, Wf, Taken;
    FoundPath(t, p, c, n, h, cap);
    LostNone(t, p, c, Taken(t, p, s), h, cap);
    var f, g := Flat(t), |Before(t, p)| + c;
    if k == 0 { NothingLost(f, g); }
  }

  /** Growing the tree moves nothing to the right of the path. */
  lemma RightGrown(t: Tree, nb: nat, p: seq<nat>, j: nat, cap: nat)
    requires PathOk(t, p) && (if t.Leaf? then t.exts != [] else t.kids != [])
    ensures PathOk(Grown(t, nb, cap), [0] + p)
    ensures Right(Grown(t, nb, cap), [0] + p, j) == Right(t, p, j)
  {
    hide Flat, FlatKids;
    var r, w := Grown(t, nb, cap), [0] + p;
    assert w[1..] == p && r.kids[1..] == [];
    NoKids();
    RightMoved(t, r.kids[0].sub, p, j);
  }

  lemma LostGrown(t: Tree, nb: nat, p: seq<nat>, c: nat, j: nat, cap: nat)
    requires PathOk(t, p) && At(t, p).Leaf? && c < |At(t, p).exts|
    requires if t.Leaf? then t.exts != [] else t.kids != []
    requires PathOk(Grown(t, nb, cap), [0] + p)
    requires var l := At(Grown(t, nb, cap), [0] + p); l.Leaf? && l.exts == At(t, p).exts
    ensures LostBy(Grown(t, nb, cap), [0] + p, c, j) == LostBy(t, p, c, j)
  {
    hide Grown, Right;
    if j > 0 { RightGrown(t, nb, p, j - 1, cap); }
  }

  lemma LeafIsFull(l: Tree)
    requires l.Leaf?
    ensures NodeFull(l) <==> |l.exts| == l.max
  {
  }

  lemma RightMoved(t: Tree, u: Tree, p: seq<nat>, j: nat)
    requires PathOk(t, p) && t.Leaf? == u.Leaf? && (t.Node? ==> u.kids == t.kids)
    ensures PathOk(u, p) && Right(u, p, j) == Right(t, p, j)
  {
  }

  /** What is left when the blocks run out on the way: the run of extents that was moved is gone. */
  lemma SplitLost(t: Tree, r: Tree, p: seq<nat>, c: nat, i: nat, n: Extent, h: nat, cap: nat) returns (k: nat)
    requires Found(t, p, c, n, h, cap) && Flat(t) != [] && LeftOnly(t, r, p, c, i)
    ensures k == LostBy(t, p, c, |p| - i)
    ensures var f, g := Flat(t), |Before(t, p)| + c;
      && g < |f| && Without(f, Flat(r), g, k)
    ensures Wf(r, h, cap) && r.max == t.max && r.blk == t.blk && Sorted(Flat(r))
  {
    hide Flat, FlatKids, Before, After, IsPos, Wf, Fits, SplitLeft, Right;
    FoundLeaf(t, p, c, n, h, cap);
    RightIs(t, p, i + 1);
    var q, w, exts := p[..i + 1], p[i + 1..], At(t, p).exts;
    var sub := At(t, q);
    assert p == q + w;
    BeforeSplit(t, q, w);
    SplitLeftFlat(sub, w, c);
    FlatSet(t, q, SplitLeft(sub, w, c));
    k := |exts| - (c + 1) + |After(sub, w)|;
    Lost(Before(t, q), Before(sub, w), exts, After(sub, w), After(t, q), c);
    WfAt(t, q, h, cap);
    SplitLeftWf(sub, w, c, h - |q|, cap);
    WfSet(t, q, SplitLeft(sub, w, c), h, cap);
    RootFields(t, q, SplitLeft(sub, w, c));
  }

  lemma Lost(a: seq<Extent>, x: seq<Extent>, e: seq<Extent>, y: seq<Extent>, z: seq<Extent>, c: nat)
    requires c < |e| && Sorted((a + x) + e + (y + z))
    ensures var f, g, k := (a + x) + e + (y + z), |a + x| + c, |e| - (c + 1) + |y|;
      && g < |f| && k < |f| - g
      && a + (x + e[..c + 1]) + z == f[..g + 1] + f[g + 1 + k..]
      && Sorted(f[..g + 1] + f[g + 1 + k..])
  {
    hide Sorted;
    var f, g, k := (a + x) + e + (y + z), |a + x| + c, |e| - (c + 1) + |y|;
    var l, m, r := f[..g + 1], f[g + 1..g + 1 + k], f[g + 1 + k..];
    Cut3(f, g + 1, g + 1 + k);
    LostParts(a, x, e, y, z, c);
    OuterSorted(l, m, r);
  }

  lemma Cut3(f: seq<Extent>, i: nat, j: nat)
    requires i <= j <= |f|
    ensures f == f[..i] + f[i..j] + f[j..]
  {
  }

  lemma LostParts(a: seq<Extent>, x: seq<Extent>, e: seq<Extent>, y: seq<Extent>, z: seq<Extent>, c: nat)
    requires c < |e|
    ensures var f, g, k := (a + x) + e + (y + z), |a + x| + c, |e| - (c + 1) + |y|;
      f[..g + 1] == a + (x + e[..c + 1]) && f[g + 1 + k..] == z
  {
  }

  lemma OuterSorted(l: seq<Extent>, m: seq<Extent>, r: seq<Extent>)
    requires Sorted(l + m + r)
    ensures Sorted(l + r)
  {
    SortedPart(l, m, r);
    if l != [] && r != [] { assert l[|l| - 1].first + l[|l| - 1].len <= r[0].first; }
    SortedJoin(l, r);
  }

  // ----------------------------------------------------------- blocks in use

  lemma {:induction false} CorrectedUses(t: Tree, p: seq<nat>, border: nat, b: nat)
    requires PathOk(t, p)
    ensures Uses(Corrected(t, p, border), b) == Uses(t, b)
    decreases |p|
  {
    hide Uses;
    if p == [] {
      CorrectedRoot(t);
      assert Corrected(t, p, border) == t;
    } else {
      var k := t.kids[p[0]];
      CorrectedUses(k.sub, p[1..], border, b);
      var r := Corrected(t, p, border);
      UsesHere(t, b);
      UsesHere(r, b);
      UsesKidsAt(t.kids, p[0], b);
      UsesKidsAt(r.kids, p[0], b);
      assert r.kids[..p[0]] == t.kids[..p[0]] && r.kids[p[0] + 1..] == t.kids[p[0] + 1..];
    }
  }

  lemma InsertedUses(t: Tree, p: seq<nat>, c: nat, n: Extent, merge: bool, b: nat)
    requires PathOk(t, p) && At(t, p).Leaf? && (At(t, p).exts != [] ==> c < |At(t, p).exts|)
    ensures Uses(Inserted(t, p, c, n, merge), b) == Uses(t, b)
  {
    hide Uses;
    var l := At(t, p);
    var l' := l.(exts := InsertFlat(l.exts, c, n, merge));
    FlatSet(t, p, l');
    UsesSet(t, p, l', b);
    UsesHere(l, b);
    UsesHere(l', b);
    CorrectedUses(SetAt(t, p, l'), p, l'.exts[0].first, b);
  }

  lemma {:induction false} CountSplit(s: seq<nat>, k: nat, b: nat)
    requires k <= |s|
    ensures Count(s, b) == Count(s[..k], b) + Count(s[k..], b)
    decreases |s|
  {
    if k == |s| {
      assert s[..k] == s && s[k..] == [];
    } else {
      var w := s[..|s| - 1];
      CountSplit(w, k, b);
      assert w[..k] == s[..k] && w[k..] == s[k..][..|s[k..]| - 1];
    }
  }

  lemma SplitKeepsBlocks(t: Tree, p: seq<nat>, c: nat, at: nat, n: Extent, s: seq<nat>, h: nat, cap: nat, b: nat)
    requires Found(t, p, c, n, h, cap) && CutOk(t, p, c, at, s) && c < |At(t, p).exts|
    ensures var r := Split(t, p, c, at, SplitKey(At(t, p).exts, c, n), s, cap, At(t, p).exts[c + 1..]);
      Uses(r, b) + Count(s[|p| - at + 1..], b) == Uses(t, b) + Count(s, b)
  {
    hide Flat, Found, Uses;
    assert PathOk(t, p) by { FoundPath(t, p, c, n, h, cap); }
    PathCut(t, p, at - 1);
    SplitUsesAll(t, p, c, at, SplitKey(At(t, p).exts, c, n), s, cap, At(t, p).exts[c + 1..], b);
    CountSplit(s, |p| - at + 1, b);
  }

  lemma FoundPath(t: Tree, p: seq<nat>, c: nat, n: Extent, h: nat, cap: nat)
    requires Found(t, p, c, n, h, cap)
    ensures PathOk(t, p) && |p| == h && At(t, p).Leaf? && t.max == ROOT_MAX < cap && Wf(t, h, cap) && Sorted(Flat(t))
    ensures At(t, p).exts != [] ==> IsPos(At(t, p).exts, n.first, c)
  {
  }

  /** What an insertion does to the 16-bit counts, and when it has to append. */
  lemma FoundCounts(t: Tree, p: seq<nat>, c: nat, n: Extent, merge: bool, h: nat, cap: nat)
    requires Found(t, p, c, n, h, cap) && (Flat(t) != [] ==> |Before(t, p)| + c < |Flat(t)|)
    ensures var f, g := Flat(t), |Before(t, p)| + c;
      && (CountsRead(f) && CountReads(n) ==> CountsRead(InsertFlat(f, g, n, merge)))
      && (merge && f != [] && Continues(f[g], n) ==>
            && Merges(At(t, p).exts, c, n, merge)
            && InsertFlat(f, g, n, merge) == f[g := f[g].(len := f[g].len + n.len)])
  {
    hide Flat, Before, After, Wf, Sorted, IsPos, CountsRead, CountReads, Continues, InsertFlat, PathOk, At;
    var f, g := Flat(t), |Before(t, p)| + c;
    if CountsRead(f) && CountReads(n) { InsertReads(f, g, n, merge); }
    if merge && f != [] && Continues(f[g], n) {
      InsertAppends(f, g, n);
      PosBound(At(t, p).exts, n.first, c);
      LeafPosition(t, p, c);
    }
  }

  lemma LosesReads(t: Tree, r: seq<Extent>, p: seq<nat>, c: nat, s: nat, k: nat)
    requires PathOk(t, p) && At(t, p).Leaf? && Loses(t, r, p, c, s, k) && CountsRead(Flat(t))
    ensures CountsRead(r)
  {
    hide Flat, Before, PathOk, At, CountsRead, Without, LostBy, Taken;
    LostReads(Flat(t), r, |Before(t, p)| + c, k);
  }

  // ----------------------------------------------------------- after growth

  lemma GrownFound(t: Tree, nb: nat, p: seq<nat>, c: nat, n: Extent, h: nat, cap: nat)
    requires Found(t, p, c, n, h, cap) && Flat(t) != [] && p == Descend(t, n.first)
    ensures if t.Leaf? then t.exts != [] else t.kids != []
    ensures var r, p' := Grown(t, nb, cap), [0] + p;
      && Found(r, p', c, n, h + 1, cap) && Flat(r) == Flat(t) && Before(r, p') == Before(t, p)
      && At(r, p').Leaf? && At(r, p').exts == At(t, p).exts
      && (p == [] ==> At(r, p').max == cap) && (p != [] ==> At(r, p') == At(t, p))
      && p' == Descend(r, n.first)
  {
    hide Flat, Before, After, Wf, Sorted, IsPos, Descend;
    GrownOk(t, nb, h, cap);
    GrownPath(t, nb, cap, p, n.first);
  }

  lemma GrownRoom(t: Tree, nb: nat, p: seq<nat>, h: nat, cap: nat)
    requires Wf(t, h, cap) && PathOk(t, p) && FullFrom(t, p, 0) && t.max == ROOT_MAX < cap
    ensures t.Leaf? ==> t.exts != [] && |t.exts| < cap
    ensures t.Node? ==> t.kids != []
    ensures p != [] ==> FullFrom(Grown(t, nb, cap), [0] + p, 2) && HasRoom(Grown(t, nb, cap), [0] + p, 1)
  {
    hide Flat, Before, After;
    FullAt(t, p, 0, 0);
    assert p[..0] == [];
    if p != [] {
      var r, p' := Grown(t, nb, cap), [0] + p;
      forall i | 2 <= i <= |p'|
        ensures PathOk(r, p'[..i]) && NodeFull(At(r, p'[..i]))
      {
        FullAt(t, p, 0, i - 1);
        GrownPath(t, nb, cap, p[..i - 1], 0);
        assert p'[..i] == [0] + p[..i - 1];
      }
      GrownPath(t, nb, cap, [], 0);
      assert p'[..1] == [0] + [];
    }
  }

  /** Searching again finds the same position. */
  lemma SamePosition(t: Tree, p: seq<nat>, b: nat, c: nat, c': nat)
    requires PathOk(t, p) && At(t, p).Leaf? && Sorted(Flat(t))
    requires IsPos(At(t, p).exts, b, c) && IsPos(At(t, p).exts, b, c')
    ensures c == c'
  {
    hide Sorted, IsPos, Before, After;
    FlatAt(t, p);
    SortedPart(Before(t, p), At(t, p).exts, After(t, p));
    PosUnique(At(t, p).exts, b, c, c');
  }

  lemma NothingLost(f: seq<Extent>, g: nat)
    requires g < |f|
    ensures Without(f, f, g, 0)
  {
  }

  lemma PrefixOk(t: Tree, p: seq<nat>, i: nat)
    requires PathOk(t, p) && i <= |p|
    ensures PathOk(t, p[..i])
    ensures i == |p| ==> At(t, p[..i]) == At(t, p)
    ensures i < |p| ==> At(t, p[..i]).Node? && p[i] < |At(t, p[..i]).kids|
  {
    if i == |p| { assert p[..i] == p; } else { PathCut(t, p, i); }
  }

  /** The first level from the leaf up that is not full. */
  lemma RoomFound(t: Tree, p: seq<nat>, i: nat, h: nat, cap: nat)
    requires Wf(t, h, cap) && PathOk(t, p) && i < |p| && FullFrom(t, p, i + 1)
    requires PathOk(t, p[..i]) && !NodeFull(At(t, p[..i]))
    ensures HasRoom(t, p, i)
  {
    PrefixOk(t, p, i);
    WfAt(t, p[..i], h, cap);
  }

  lemma InRange(t: Tree, p: seq<nat>, c: nat, n: Extent, h: nat, cap: nat)
    requires Found(t, p, c, n, h, cap) && Flat(t) != []
    ensures c < |At(t, p).exts| && |Before(t, p)| + c < |Flat(t)|
  {
    FoundLeaf(t, p, c, n, h, cap);
  }

  /** After a split, whichever side the new extent goes to. */
  lemma SplitReady(t: Tree, p: seq<nat>, c: nat, at: nat, n: Extent, merge: bool, s: seq<nat>, h: nat, cap: nat)
    requires Found(t, p, c, n, h, cap) && CutOk(t, p, c, at, s) && HasRoom(t, p, at - 1)
    requires |Before(t, p)| + c < |Flat(t)| && SafeMerge(Flat(t), |Before(t, p)| + c, n, merge)
    requires c < |At(t, p).exts| == At(t, p).max && !Merges(At(t, p).exts, c, n, merge)
    ensures Ready(Split(t, p, c, at, SplitKey(At(t, p).exts, c, n), s, cap, At(t, p).exts[c + 1..]),
                  if c + 1 == |At(t, p).exts| then RightOf(p, at) else p,
                  c, n, merge, h, cap, InsertFlat(Flat(t), |Before(t, p)| + c, n, merge))
  {
    FoundPath(t, p, c, n, h, cap);
    hide Found, Flat, Before, After, Wf, Ready, Split, InsertFlat, SafeMerge;
    if c + 1 == |At(t, p).exts| {
      KeyAbove(t, p, c, n, at - 1, h, cap);
      SplitsRight(t, p, c, at, n, merge, s, h, cap);
    } else {
      SplitsLeft(t, p, c, at, n, merge, s, h, cap);
    }
  }

  lemma FullMore(t: Tree, p: seq<nat>, i: nat)
    requires i <= |p| && PathOk(t, p[..i]) && NodeFull(At(t, p[..i])) && FullFrom(t, p, i + 1)
    ensures FullFrom(t, p, i)
  {
    hide PathOk, At, NodeFull;
  }

  lemma NoneFull(t: Tree, p: seq<nat>)
    ensures FullFrom(t, p, |p| + 1)
  {
  }

  lemma GrownBlocks(t: Tree, s: seq<nat>, h: nat, cap: nat)
    requires Wf(t, h, cap) && Flat(t) != [] && t.max <= cap && s != []
    ensures if t.Leaf? then t.exts != [] else t.kids != []
    ensures forall b :: Uses(Grown(t, s[0], cap), b) + Count(s[1..], b) == Uses(t, b) + Count(s, b)
  {
    hide Wf, Uses, Grown, Flat;
    GrownOk(t, s[0], h, cap);
    forall b
      ensures Uses(Grown(t, s[0], cap), b) + Count(s[1..], b) == Uses(t, b) + Count(s, b)
    {
      CountSplit(s, 1, b);
      assert s[..1] == [s[0]] && [s[0]][..0] == [];
    }
  }

  lemma InsertionSorted(t: Tree, p: seq<nat>, c: nat, n: Extent, merge: bool, h: nat, cap: nat)
    requires Found(t, p, c, n, h, cap) && (Flat(t) != [] ==> |Before(t, p)| + c < |Flat(t)|)
    ensures Sorted(InsertFlat(Flat(t), |Before(t, p)| + c, n, merge))
  {
    hide Flat, Before, After, Sorted, Fits, IsPos, InsertFlat;
    InsertSorted(Flat(t), |Before(t, p)| + c, n, merge);
  }

  /** An insertion that is still to be made and is to give the extents w: before any split, or after. */
  ghost predicate Pending(t: Tree, p: seq<nat>, c: nat, n: Extent, merge: bool, h: nat, cap: nat,
                          split: bool, w: seq<Extent>)
  {
    if split then Ready(t, p, c, n, merge, h, cap, w)
    else
      && Found(t, p, c, n, h, cap) && (Flat(t) != [] ==> |Before(t, p)| + c < |Flat(t)|)
      && w == InsertFlat(Flat(t), |Before(t, p)| + c, n, merge)
  }

  lemma PendingLeaf(t: Tree, p: seq<nat>, c: nat, n: Extent, merge: bool, h: nat, cap: nat,
                    split: bool, w: seq<Extent>)
    requires Pending(t, p, c, n, merge, h, cap, split, w)
    ensures PathOk(t, p) && At(t, p).Leaf?
    ensures At(t, p).exts != [] ==> c < |At(t, p).exts| && At(t, p).exts[c].first != n.first
    ensures split ==> |At(t, p).exts| < At(t, p).max
    ensures At(t, p).max > 0
  {
    hide Flat, Before, After, Wf, Fits, IsPos, InsertFlat, Inserted, SafeMerge;
    if !split { FoundLeaf(t, p, c, n, h, cap); }
  }

  lemma NoMergeSafe(t: Tree, p: seq<nat>, c: nat, n: Extent, merge: bool, h: nat, cap: nat)
    requires Found(t, p, c, n, h, cap) && (Flat(t) != [] ==> |Before(t, p)| + c < |Flat(t)|)
    requires !Merges(At(t, p).exts, c, n, merge)
    ensures SafeMerge(Flat(t), |Before(t, p)| + c, n, merge)
  {
    hide Flat, Before, After, Wf, Fits, IsPos, Found, SafeMerge, Merges, Sorted, At, PathOk;
    FoundPath(t, p, c, n, h, cap);
    SameExtent(t, p, c, n, h, cap);
    NoMerge(Flat(t), |Before(t, p)| + c, At(t, p).exts, c, n, merge);
  }

  lemma SameExtent(t: Tree, p: seq<nat>, c: nat, n: Extent, h: nat, cap: nat)
    requires Found(t, p, c, n, h, cap)
    ensures Flat(t) != [] ==>
      c < |At(t, p).exts| && |Before(t, p)| + c < |Flat(t)| && Flat(t)[|Before(t, p)| + c] == At(t, p).exts[c]
  {
    hide Flat, Before, After, Wf, Fits, IsPos, Sorted;
    FoundLeaf(t, p, c, n, h, cap);
  }

  lemma NoMerge(f: seq<Extent>, g: nat, exts: seq<Extent>, c: nat, n: Extent, merge: bool)
    requires f != [] ==> g < |f| && c < |exts| && f[g] == exts[c]
    requires !Merges(exts, c, n, merge)
    ensures SafeMerge(f, g, n, merge)
  {
    hide CanAppend, CanPrepend;
  }

  lemma PendingDone(t: Tree, p: seq<nat>, c: nat, n: Extent, merge: bool, h: nat, cap: nat,
                    split: bool, w: seq<Extent>)
    requires Pending(t, p, c, n, merge, h, cap, split, w)
    requires PathOk(t, p) && At(t, p).Leaf? && (At(t, p).exts != [] ==> c < |At(t, p).exts|)
    requires Merges(At(t, p).exts, c, n, merge) || |At(t, p).exts| != At(t, p).max
    ensures var r := Inserted(t, p, c, n, merge);
      && r.max == ROOT_MAX && r.blk == 0 && Flat(r) == w
      && (forall b :: Uses(r, b) == Uses(t, b))
      && (split || (Flat(t) != [] ==> |Before(t, p)| + c < |Flat(t)|))
      && (split || SafeMerge(Flat(t), |Before(t, p)| + c, n, merge) ==> Wf(r, h, cap))
  {
    hide Flat, Before, After, Wf, Fits, IsPos, InsertFlat, Inserted, SafeMerge, Merges, Uses;
    if !split {
      FoundLeaf(t, p, c, n, h, cap);
      if !Merges(At(t, p).exts, c, n, merge) {
        NoMergeSafe(t, p, c, n, merge, h, cap);
        InsertedOk(t, p, c, n, merge, h, cap);
      } else if SafeMerge(Flat(t), |Before(t, p)| + c, n, merge) {
        InsertedOk(t, p, c, n, merge, h, cap);
      } else {
        MergedFlat(t, p, c, n, merge);
      }
    }
    forall b
      ensures Uses(Inserted(t, p, c, n, merge), b) == Uses(t, b)
    {
      InsertedUses(t, p, c, n, merge, b);
    }
  }

  lemma PendingFirst(t: Tree, p: seq<nat>, c: nat, n: Extent, merge: bool, h: nat, cap: nat)
    requires Found(t, p, c, n, h, cap) && (Flat(t) != [] ==> |Before(t, p)| + c < |Flat(t)|)
    ensures Pending(t, p, c, n, merge, h, cap, false, InsertFlat(Flat(t), |Before(t, p)| + c, n, merge))
  {
  }

  lemma PendingSecond(t: Tree, p: seq<nat>, c: nat, n: Extent, merge: bool, h: nat, cap: nat, w: seq<Extent>)
    requires Ready(t, p, c, n, merge, h, cap, w)
    ensures Pending(t, p, c, n, merge, h, cap, true, w)
  {
  }

  lemma LeafOfFull(t: Tree, p: seq<nat>)
    requires PathOk(t, p) && At(t, p).Leaf? && At(t, p).exts != []
    ensures Flat(t) != []
  {
    FlatAt(t, p);
  }

  // ------------------------------------------------------ one block at a time

  predicate AllWritten(f: seq<Extent>) { forall i :: 0 <= i < |f| ==> !f[i].unwritten }

  lemma OneBlockFits(f: seq<Extent>, g: nat, b: nat, nb: nat)
    requires Sorted(f) && (f != [] ==> IsPos(f, b, g) && !Covers(f[g], b))
    ensures Fits(f, g, Extent(b, nb, 1, false))
  {
  }

  /** ext4_ext_find_goal next to the extent a search ended at. */
  function FindGoal(e: Extent, b: nat): int {
    if b > e.first then e.start + (b - e.first) else e.start - (e.first - b)
  }

  /** A single new block is merged wrongly exactly when it lies right before the first extent both in
      the file and on the disk, and that is the block the allocator is asked for. */
  lemma UnsafeBeforeFirst(f: seq<Extent>, g: nat, b: nat, nb: nat)
    requires Sorted(f) && AllWritten(f) && Fits(f, g, Extent(b, nb, 1, false))
    ensures SafeMerge(f, g, Extent(b, nb, 1, false), true)
       <==> !(f != [] && b + 1 == f[0].first && nb + 1 == f[0].start && f[0].len < 32768)
    ensures f != [] && b + 1 == f[0].first ==> g == 0 && FindGoal(f[g], b) == f[0].start - 1
  {
    if f != [] {
      LenAt(f, 0);
      FirstsOrdered(f);
    }
  }

  lemma FoundFits(t: Tree, p: seq<nat>, c: nat, n: Extent, h: nat, cap: nat)
    requires Wf(t, h, cap) && Sorted(Flat(t)) && cap > ROOT_MAX && t.max == ROOT_MAX && t.blk == 0
    requires PathOk(t, p) && |p| == h && At(t, p).Leaf? && (Flat(t) != [] ==> At(t, p).exts != [])
    requires At(t, p).exts != [] ==> IsPos(At(t, p).exts, n.first, c)
    requires Fits(Flat(t), |Before(t, p)| + c, n)
    ensures Found(t, p, c, n, h, cap)
  {
  }

  lemma CoveredAt(f: seq<Extent>, g: nat, b: nat)
    requires Sorted(f) && AllWritten(f) && g < |f| && f[g].first <= b < f[g].first + f[g].len
    ensures Lookup(f, b) == Some(Mapping(f[g].start + (b - f[g].first), false))
  {
    LookupAt(f, g, b);
  }

  lemma Unmapped(f: seq<Extent>, g: nat, b: nat, nb: nat)
    requires Sorted(f) && (f != [] ==> IsPos(f, b, g) && !(f[g].first <= b < f[g].first + f[g].len))
    ensures Lookup(f, b) == None && Fits(f, g, Extent(b, nb, 1, false))
  {
    if f != [] { NotCovered(f, b, g); }
    LookupNone(f, b);
    OneBlockFits(f, g, b, nb);
  }

  /** The map gains exactly the new block, unless the block lies right before the first extent both in
      the file and on the disk: then the merge shifts the whole extent by one block. */
  lemma OneBlockUpdate(f: seq<Extent>, g: nat, b: nat, nb: nat)
    requires Sorted(f) && AllWritten(f) && Fits(f, g, Extent(b, nb, 1, false))
    ensures var w := InsertFlat(f, g, Extent(b, nb, 1, false), true);
      (forall x :: Lookup(w, x) == if x == b then Some(Mapping(nb, false)) else Lookup(f, x))
        <==> !(f != [] && b + 1 == f[0].first && nb + 1 == f[0].start && f[0].len < 32768)
  {
    hide Lookup, Sorted, AllWritten, InsertFlat, SafeMerge;
    var n := Extent(b, nb, 1, false);
    var w := InsertFlat(f, g, n, true);
    UnsafeBeforeFirst(f, g, b, nb);
    InsertIsUpdate(f, g, n, true);
    assert forall x :: Updated(f, n, x) == if x == b then Some(Mapping(nb, false)) else Lookup(f, x);
  }
}
