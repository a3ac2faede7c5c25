/** Removing everything from a block onwards: what stays of a tree, seen from a path of cursors. */
module ExtentCut {
  import opened ExtentTree
  import opened ExtentSearch
  import opened ExtentInsert
  import opened ExtentSplit
  import opened ExtentRoom

  // ------------------------------------------------------------- what stays

  /** The extents that stay in the leaf where the removal begins. */
  function Keep(exts: seq<Extent>, c: nat, from: nat): seq<Extent>
    requires c < |exts|
  {
    exts[..c] + if exts[c].first < from then [exts[c].(len := from - exts[c].first)] else []
  }

  /** The extent that is cut keeps a count that is read back. */
  lemma KeepReads(f: seq<Extent>, g: nat, from: nat)
    requires CountsRead(f) && g < |f| && Covers(f[g], from)
    ensures CountsRead(Keep(f, g, from))
  {
    assert CountReads(f[g]);
  }

  /** A cursor per index node; the last one may be past the end. */
  predicate OnCut(t: Tree, r: seq<nat>)
    decreases |r|
  {
    && r != [] && t.Node? && r[0] <= |t.kids|
    && (|r| > 1 ==> r[0] < |t.kids| && OnCut(t.kids[r[0]].sub, r[1..]))
  }

  predicate Bare(t: Tree) { if t.Leaf? then t.exts == [] else t.kids == [] }

  /** The tree without the entry at the last cursor, everything right of the cursors, and the nodes
      that have no entries then. */
  function Cut(t: Tree, r: seq<nat>): Tree
    requires OnCut(t, r)
    decreases |r|
  {
    if |r| == 1 then t.(kids := t.kids[..r[0]])
    else
      var k := t.kids[r[0]];
      var s := Cut(k.sub, r[1..]);
      t.(kids := t.kids[..r[0]] + if Bare(s) then [] else [Kid(k.key, s)])
  }

  lemma {:induction false} PathOnCut(t: Tree, p: seq<nat>)
    requires p != [] && PathOk(t, p)
    ensures OnCut(t, p) && OnCut(t, p[|p| - 1 := p[|p| - 1] + 1])
    decreases |p|
  {
    if |p| > 1 {
      PathOnCut(t.kids[p[0]].sub, p[1..]);
      assert p[|p| - 1 := p[|p| - 1] + 1][1..] == p[1..][|p| - 2 := p[|p| - 1] + 1];
    }
  }

  lemma {:induction false} CutFlat(t: Tree, p: seq<nat>)
    requires p != [] && PathOk(t, p)
    ensures OnCut(t, p) && Flat(Cut(t, p)) == Before(t, p)
    decreases |p|
  {
    hide Flat, FlatKids;
    PathOnCut(t, p);
    var sub := t.kids[p[0]].sub;
    NodeFlat(Cut(t, p));
    if |p| == 1 {
      assert p[1..] == [];
      assert Before(sub, p[1..]) == [];
    } else {
      CutFlat(sub, p[1..]);
      var k := Kid(t.kids[p[0]].key, Cut(sub, p[1..]));
      FlatKidsConcat(t.kids[..p[0]], [k]);
      FlatKidsOne(k);
      if Bare(k.sub) {
        BareFlat(k.sub);
        assert t.kids[..p[0]] + [] == t.kids[..p[0]];
      }
    }
  }

  lemma BareFlat(t: Tree)
    requires Bare(t)
    ensures Flat(t) == []
  {
  }

  /** One entry further: the subtree at p stays. */
  lemma {:induction false} CutNextFlat(t: Tree, p: seq<nat>)
    requires p != [] && PathOk(t, p) && Flat(At(t, p)) != []
    ensures OnCut(t, p[|p| - 1 := p[|p| - 1] + 1])
    ensures Flat(Cut(t, p[|p| - 1 := p[|p| - 1] + 1])) == Before(t, p) + Flat(At(t, p))
    decreases |p|
  {
    hide Flat, FlatKids;
    var r := p[|p| - 1 := p[|p| - 1] + 1];
    PathOnCut(t, p);
    var sub := t.kids[p[0]].sub;
    NodeFlat(Cut(t, r));
    if |p| == 1 {
      assert p[1..] == [];
      assert t.kids[..p[0] + 1] == t.kids[..p[0]] + [t.kids[p[0]]];
      FlatKidsConcat(t.kids[..p[0]], [t.kids[p[0]]]);
      FlatKidsOne(t.kids[p[0]]);
    } else {
      CutNextFlat(sub, p[1..]);
      assert r[1..] == p[1..][|p| - 2 := p[|p| - 1] + 1];
      var k := Kid(t.kids[p[0]].key, Cut(sub, r[1..]));
      FlatKidsConcat(t.kids[..p[0]], [k]);
      FlatKidsOne(k);
      if Bare(k.sub) { BareFlat(k.sub); }
      Assoc(FlatKids(t.kids[..p[0]]), Before(sub, p[1..]), Flat(At(sub, p[1..])));
    }
  }

  /** Of a well-formed tree there stays a well-formed tree, or nothing. */
  lemma {:induction false} CutWf(t: Tree, r: seq<nat>, h: nat, cap: nat)
    requires Wf(t, h, cap) && OnCut(t, r)
    ensures var s := Cut(t, r);
      && s.max == t.max && s.blk == t.blk
      && (!Bare(s) ==> Wf(s, h, cap) && Flat(s) != [] && Flat(t) != [] && Flat(s)[0] == Flat(t)[0])
    decreases |r|
  {
    hide Flat, FlatKids;
    var s := Cut(t, r);
    if |r| > 1 {
      KidAt(t, r[0], h, cap);
      CutWf(t.kids[r[0]].sub, r[1..], h - 1, cap);
    }
    if !Bare(s) {
      forall i | 0 <= i < |s.kids|
        ensures WfKid(s.kids[i], h - 1, cap)
      {
        if i < r[0] { KidAt(t, i, h, cap); }
      }
      assert Wf(s, h, cap);
      NodeEnds(s, 0, h, cap);
      NodeEnds(t, 0, h, cap);
    }
  }

  // --------------------------------------------------------- moving cursors

  /** An untouched subtree, all of it from the block `from` on. */
  ghost predicate Fresh(k: Kid, h: nat, cap: nat, from: nat) {
    WfKid(k, h, cap) && Beyond(Flat(k.sub), from)
  }

  predicate Beyond(f: seq<Extent>, from: nat) {
    forall i :: 0 <= i < |f| ==> from <= f[i].first && f[i].len > 0
  }

  /** Untouched subtrees lie at the last cursor and right of the others. */
  ghost predicate Shape(t: Tree, r: seq<nat>, h: nat, cap: nat, from: nat)
    decreases |r|
  {
    && r != [] && t.Node? && |r| <= h && r[0] <= |t.kids|
    && (forall i :: r[0] < i < |t.kids| ==> Fresh(t.kids[i], h - 1, cap, from))
    && if |r| == 1 then r[0] < |t.kids| ==> Fresh(t.kids[r[0]], h - 1, cap, from)
       else r[0] < |t.kids| && Shape(t.kids[r[0]].sub, r[1..], h - 1, cap, from)
  }

  function Size(t: Tree): nat
    decreases t, 1
  {
    1 + match t case Leaf(_, _, _) => 0 case Node(_, _, kids) => SizeKids(kids)
  }

  function SizeKids(kids: seq<Kid>): nat
    decreases kids, 0
  {
    if kids == [] then 0
    else
      var k := kids[0];
      assert k.sub < k;
      Size(k.sub) + SizeKids(kids[1..])
  }

  /** How many nodes are still to be visited. */
  function Weight(t: Tree, r: seq<nat>): nat
    requires OnCut(t, r)
    decreases |r|
  {
    if |r| == 1 then SizeKids(t.kids[r[0]..])
    else Weight(t.kids[r[0]].sub, r[1..]) + SizeKids(t.kids[r[0] + 1..])
  }

  lemma {:induction false} ShapeOnCut(t: Tree, r: seq<nat>, h: nat, cap: nat, from: nat)
    requires Shape(t, r, h, cap, from)
    ensures OnCut(t, r) && 1 <= |r| <= h
    decreases |r|
  {
    if |r| > 1 { ShapeOnCut(t.kids[r[0]].sub, r[1..], h - 1, cap, from); }
  }

  lemma {:induction false} OnCutPath(t: Tree, r: seq<nat>)
    requires OnCut(t, r)
    ensures PathOk(t, r[..|r| - 1]) && At(t, r[..|r| - 1]).Node?
    ensures r[|r| - 1] <= |At(t, r[..|r| - 1]).kids|
    decreases |r|
  {
    if |r| > 1 {
      OnCutPath(t.kids[r[0]].sub, r[1..]);
      assert r[..|r| - 1][1..] == r[1..][..|r| - 2];
    }
  }

  /** The node at the last cursor. */
  function Here(t: Tree, r: seq<nat>): (n: Tree)
    requires OnCut(t, r)
    ensures n.Node? && r[|r| - 1] <= |n.kids|
  {
    OnCutPath(t, r);
    At(t, r[..|r| - 1])
  }

  lemma HereBelow(t: Tree, r: seq<nat>)
    requires OnCut(t, r) && |r| > 1
    ensures Here(t, r) == Here(t.kids[r[0]].sub, r[1..])
  {
    assert r[..|r| - 1][1..] == r[1..][..|r| - 2];
  }

  lemma HereTop(t: Tree, r: seq<nat>)
    requires OnCut(t, r) && |r| == 1
    ensures Here(t, r) == t
  {
  }

  /** The entry at the last cursor is an untouched subtree. */
  lemma {:induction false} ShapeHere(t: Tree, r: seq<nat>, h: nat, cap: nat, from: nat)
    requires Shape(t, r, h, cap, from) && OnCut(t, r) && r[|r| - 1] < |Here(t, r).kids|
    ensures Fresh(Here(t, r).kids[r[|r| - 1]], h - |r|, cap, from)
    decreases |r|
  {
    if |r| > 1 {
      HereBelow(t, r);
      ShapeOnCut(t.kids[r[0]].sub, r[1..], h - 1, cap, from);
      ShapeHere(t.kids[r[0]].sub, r[1..], h - 1, cap, from);
    }
  }

  /** One more cursor in front. */
  lemma ConsCursor(t: Tree, c: nat, r: seq<nat>, h: nat, cap: nat, from: nat)
    requires t.Node? && c < |t.kids| && OnCut(t.kids[c].sub, r)
    ensures OnCut(t, [c] + r) && Here(t, [c] + r) == Here(t.kids[c].sub, r)
    ensures Cut(t, [c] + r) == CutAbove(t, c, Cut(t.kids[c].sub, r))
    ensures Weight(t, [c] + r) == Weight(t.kids[c].sub, r) + SizeKids(t.kids[c + 1..])
    ensures Shape(t, [c] + r, h, cap, from) <==>
      |r| < h && Siblings(t, c, h, cap, from) && Shape(t.kids[c].sub, r, h - 1, cap, from)
  {
    hide SizeKids;
    assert ([c] + r)[1..] == r;
    HereBelow(t, [c] + r);
  }

  function CutAbove(t: Tree, c: nat, s: Tree): Tree
    requires t.Node? && c < |t.kids|
  {
    t.(kids := t.kids[..c] + if Bare(s) then [] else [Kid(t.kids[c].key, s)])
  }

  ghost predicate Siblings(t: Tree, c: nat, h: nat, cap: nat, from: nat) {
    t.Node? && h > 0 && forall i :: c < i < |t.kids| ==> Fresh(t.kids[i], h - 1, cap, from)
  }

  lemma OneCursor(t: Tree, c: nat, h: nat, cap: nat, from: nat)
    requires t.Node? && c <= |t.kids|
    ensures OnCut(t, [c]) && Here(t, [c]) == t
    ensures Cut(t, [c]) == t.(kids := t.kids[..c])
    ensures Weight(t, [c]) == SizeKids(t.kids[c..])
    ensures Shape(t, [c], h, cap, from) <==>
      h > 0 && Siblings(t, c, h, cap, from) && (c < |t.kids| ==> Fresh(t.kids[c], h - 1, cap, from))
  {
    HereTop(t, [c]);
  }

  /** Going down into an index node. */
  lemma {:induction false} DownStep(t: Tree, r: seq<nat>, h: nat, cap: nat, from: nat)
    requires Shape(t, r, h, cap, from) && OnCut(t, r) && |r| < h && r[|r| - 1] < |Here(t, r).kids|
    ensures Shape(t, r + [0], h, cap, from) && OnCut(t, r + [0])
    ensures Cut(t, r + [0]) == Cut(t, r) && Weight(t, r + [0]) < Weight(t, r)
    decreases |r|
  {
    hide Shape, OnCut, Cut, Weight, Here, Siblings, CutAbove;
    CursorCases(t, r, h, cap, from);
    if |r| == 1 {
      DownTop(t, r[0], h, cap, from);
      assert r + [0] == [r[0]] + [0];
    } else {
      var sub := t.kids[r[0]].sub;
      DownStep(sub, r[1..], h - 1, cap, from);
      ConsCursor(t, r[0], r[1..] + [0], h, cap, from);
      assert r + [0] == [r[0]] + (r[1..] + [0]);
    }
  }

  lemma CursorCases(t: Tree, r: seq<nat>, h: nat, cap: nat, from: nat)
    requires OnCut(t, r) && Shape(t, r, h, cap, from)
    ensures t.Node? && h > 0 && r != []
    ensures |r| == 1 ==>
      r == [r[0]] && r[0] <= |t.kids| && Siblings(t, r[0], h, cap, from)
      && (r[0] < |t.kids| ==> Fresh(t.kids[r[0]], h - 1, cap, from))
      && Here(t, r) == t && Cut(t, r) == t.(kids := t.kids[..r[0]]) && Weight(t, r) == SizeKids(t.kids[r[0]..])
    ensures |r| > 1 ==>
      && r == [r[0]] + r[1..] && r[0] < |t.kids| && OnCut(t.kids[r[0]].sub, r[1..]) && Siblings(t, r[0], h, cap, from)
      && Shape(t.kids[r[0]].sub, r[1..], h - 1, cap, from) && Here(t, r) == Here(t.kids[r[0]].sub, r[1..])
      && Cut(t, r) == CutAbove(t, r[0], Cut(t.kids[r[0]].sub, r[1..]))
      && Weight(t, r) == Weight(t.kids[r[0]].sub, r[1..]) + SizeKids(t.kids[r[0] + 1..])
  {
    hide SizeKids;
    if |r| == 1 {
      assert r == [r[0]];
      OneCursor(t, r[0], h, cap, from);
    } else {
      assert r == [r[0]] + r[1..];
      ConsCursor(t, r[0], r[1..], h, cap, from);
    }
  }

  lemma DownTop(t: Tree, c: nat, h: nat, cap: nat, from: nat)
    requires t.Node? && c < |t.kids| && h > 1 && Siblings(t, c, h, cap, from) && Fresh(t.kids[c], h - 1, cap, from)
    ensures OnCut(t, [c] + [0]) && Shape(t, [c] + [0], h, cap, from)
    ensures Cut(t, [c] + [0]) == t.(kids := t.kids[..c]) && Weight(t, [c] + [0]) < SizeKids(t.kids[c..])
  {
    hide Flat, FlatKids, Shape, Cut, Weight;
    var k := t.kids[c];
    BelowWf(k, h - 1, cap, from);
    OneCursor(k.sub, 0, h - 1, cap, from);
    ConsCursor(t, c, [0], h, cap, from);
    assert k.sub.kids[..0] == [] && k.sub.kids[0..] == k.sub.kids;
    assert t.kids[c..][0] == k && t.kids[c..][1..] == t.kids[c + 1..];
    assert t.kids[..c] + [] == t.kids[..c];
  }

  lemma BelowWf(k: Kid, h: nat, cap: nat, from: nat)
    requires Fresh(k, h, cap, from) && h > 0
    ensures k.sub.Node? && forall i :: 0 <= i < |k.sub.kids| ==> Fresh(k.sub.kids[i], h - 1, cap, from)
  {
    hide Flat, FlatKids;
    NodeOf(k.sub, h, cap);
    NodeFlat(k.sub);
    forall i | 0 <= i < |k.sub.kids|
      ensures Fresh(k.sub.kids[i], h - 1, cap, from)
    {
      KidAt(k.sub, i, h, cap);
      FlatKidsAt(k.sub.kids, i);
      BeyondPart(FlatKids(k.sub.kids[..i]), Flat(k.sub.kids[i].sub), FlatKids(k.sub.kids[i + 1..]), from);
    }
  }

  lemma NodeOf(t: Tree, h: nat, cap: nat)
    requires Wf(t, h, cap) && h > 0
    ensures t.Node?
  {
  }

  lemma BeyondPart(a: seq<Extent>, f: seq<Extent>, b: seq<Extent>, from: nat)
    requires Beyond(a + f + b, from)
    ensures Beyond(a, from) && Beyond(f, from) && Beyond(b, from)
  {
    var w := a + f + b;
    assert forall i :: 0 <= i < |a| ==> w[i] == a[i];
    assert forall i :: 0 <= i < |f| ==> w[|a| + i] == f[i];
    assert forall i :: 0 <= i < |b| ==> w[|a| + |f| + i] == b[i];
  }

  /** Leaving a node whose entries have all been looked at. */
  lemma {:induction false} UpStep(t: Tree, r: seq<nat>, h: nat, cap: nat, from: nat)
    requires Shape(t, r, h, cap, from) && OnCut(t, r) && |r| > 1
    requires Here(t, r).kids != [] && r[|r| - 1] == |Here(t, r).kids|
    ensures var w := r[..|r| - 2] + [r[|r| - 2] + 1];
      Shape(t, w, h, cap, from) && OnCut(t, w) && Cut(t, w) == Cut(t, r) && Weight(t, w) == Weight(t, r)
    decreases |r|
  {
    hide Shape, OnCut, Cut, Weight, Here, Siblings, CutAbove;
    var w := r[..|r| - 2] + [r[|r| - 2] + 1];
    CursorCases(t, r, h, cap, from);
    var sub := t.kids[r[0]].sub;
    if |r| == 2 {
      CursorCases(sub, r[1..], h - 1, cap, from);
      UpTop(t, r[0], r[1], h, cap, from);
      assert w == [r[0] + 1];
    } else {
      UpStep(sub, r[1..], h - 1, cap, from);
      var w' := r[1..][..|r| - 3] + [r[1..][|r| - 3] + 1];
      ShapeOnCut(sub, w', h - 1, cap, from);
      ConsCursor(t, r[0], w', h, cap, from);
      assert w == [r[0]] + w';
    }
  }

  lemma UpTop(t: Tree, c: nat, d: nat, h: nat, cap: nat, from: nat)
    requires t.Node? && c < |t.kids| && h > 1 && t.kids[c].sub.Node? && d == |t.kids[c].sub.kids| > 0
    requires Siblings(t, c, h, cap, from)
    ensures OnCut(t, [c + 1]) && Shape(t, [c + 1], h, cap, from)
    ensures Cut(t, [c + 1]) == CutAbove(t, c, t.kids[c].sub.(kids := t.kids[c].sub.kids[..d]))
    ensures Weight(t, [c + 1]) == SizeKids(t.kids[c].sub.kids[d..]) + SizeKids(t.kids[c + 1..])
  {
    hide Flat, FlatKids;
    var k := t.kids[c];
    OneCursor(t, c + 1, h, cap, from);
    assert k.sub.kids[..d] == k.sub.kids && k.sub.kids[d..] == [];
    assert t.kids[..c + 1] == t.kids[..c] + [k];
    assert Kid(k.key, k.sub) == k;
  }

  // ------------------------------------------------------ removing an entry

  /** The entry at the last cursor taken out. */
  function Dropped(t: Tree, r: seq<nat>): Tree
    requires OnCut(t, r) && r[|r| - 1] < |Here(t, r).kids|
  {
    OnCutPath(t, r);
    var n, c := Here(t, r), r[|r| - 1];
    SetAt(t, r[..|r| - 1], n.(kids := n.kids[..c] + n.kids[c + 1..]))
  }

  /** From u instead of t the same is left in the end, and there is no more to do. */
  ghost predicate SameWork(t: Tree, u: Tree, r: seq<nat>, h: nat, cap: nat, from: nat) {
    && OnCut(t, r) && OnCut(u, r) && u.blk == t.blk && u.max == t.max
    && (Shape(t, r, h, cap, from) ==> Shape(u, r, h, cap, from))
    && Cut(u, r) == Cut(t, r) && Weight(u, r) <= Weight(t, r)
  }

  /** A key matters only if something stays below it. */
  lemma SameAbove(t: Tree, c: nat, q: seq<nat>, k: Kid, h: nat, cap: nat, from: nat)
    requires t.Node? && c < |t.kids| && h > 0 && SameWork(t.kids[c].sub, k.sub, q, h - 1, cap, from)
    requires k.key == t.kids[c].key || Bare(Cut(k.sub, q))
    ensures var u := t.(kids := t.kids[c := k]);
      && SameWork(t, u, [c] + q, h, cap, from)
      && Weight(t, [c] + q) - Weight(u, [c] + q) == Weight(t.kids[c].sub, q) - Weight(k.sub, q)
  {
    hide Shape, Cut, Weight, Flat, FlatKids;
    var u := t.(kids := t.kids[c := k]);
    ConsCursor(t, c, q, h, cap, from);
    ConsCursor(u, c, q, h, cap, from);
    assert u.kids[..c] == t.kids[..c] && u.kids[c + 1..] == t.kids[c + 1..];
  }

  lemma {:induction false} DropStep(t: Tree, r: seq<nat>, h: nat, cap: nat, from: nat)
    requires OnCut(t, r) && r[|r| - 1] < |Here(t, r).kids| && |r| <= h
    ensures SameWork(t, Dropped(t, r), r, h, cap, from) && Weight(Dropped(t, r), r) < Weight(t, r)
    decreases |r|
  {
    hide Shape, Cut, Weight, Siblings, CutAbove, Flat, FlatKids;
    OnCutPath(t, r);
    if |r| == 1 {
      HereTop(t, r);
      DropTop(t, r[0], h, cap, from);
      assert r == [r[0]];
    } else {
      var c, q := r[0], r[1..];
      var sub := t.kids[c].sub;
      HereBelow(t, r);
      OnCutPath(sub, q);
      DropStep(sub, q, h - 1, cap, from);
      assert r[..|r| - 1][1..] == q[..|q| - 1] && r == [c] + q;
      SameAbove(t, c, q, Kid(t.kids[c].key, Dropped(sub, q)), h, cap, from);
    }
  }

  lemma DropTop(t: Tree, c: nat, h: nat, cap: nat, from: nat)
    requires t.Node? && c < |t.kids| && h > 0
    ensures var u := t.(kids := t.kids[..c] + t.kids[c + 1..]);
      SameWork(t, u, [c], h, cap, from) && Weight(u, [c]) < Weight(t, [c])
  {
    hide Shape, Cut, Weight, Flat, FlatKids;
    var u := t.(kids := t.kids[..c] + t.kids[c + 1..]);
    OneCursor(t, c, h, cap, from);
    OneCursor(u, c, h, cap, from);
    assert u.kids[..c] == t.kids[..c] && u.kids[c..] == t.kids[c + 1..];
    assert t.kids[c..][0] == t.kids[c] && t.kids[c..][1..] == t.kids[c + 1..];
  }

  lemma DropFlat(t: Tree, r: seq<nat>, b: nat)
    requires OnCut(t, r) && r[|r| - 1] < |Here(t, r).kids|
    requires Flat(Here(t, r).kids[r[|r| - 1]].sub) == []
    ensures Flat(Dropped(t, r)) == Flat(t)
    ensures Uses(Dropped(t, r), b) + Uses(Here(t, r).kids[r[|r| - 1]].sub, b) == Uses(t, b)
  {
    hide Flat, FlatKids, Uses, UsesKids;
    OnCutPath(t, r);
    var n, c, p := Here(t, r), r[|r| - 1], r[..|r| - 1];
    var n' := n.(kids := n.kids[..c] + n.kids[c + 1..]);
    NodeFlat(n);
    NodeFlat(n');
    FlatKidsAt(n.kids, c);
    FlatKidsConcat(n.kids[..c], n.kids[c + 1..]);
    FlatAt(t, p);
    FlatSet(t, p, n');
    UsesHere(n, b);
    UsesHere(n', b);
    UsesKidsAt(n.kids, c, b);
    UsesKidsConcat(n.kids[..c], n.kids[c + 1..], b);
    UsesSet(t, p, n', b);
  }

  /** A key on the path may become anything when the entries below it are all first ones. */
  lemma {:induction false} KeyStep(t: Tree, r: seq<nat>, j: nat, key: nat, h: nat, cap: nat, from: nat)
    requires OnCut(t, r) && j + 1 < |r| <= h && AllZero(r[j + 1..])
    ensures PathOk(t, r[..j]) && At(t, r[..j]).Node? && r[j] < |At(t, r[..j]).kids|
    ensures SameWork(t, SetKey(t, r[..j], r[j], key), r, h, cap, from)
    decreases j
  {
    hide Shape, Cut, Weight, Siblings, CutAbove, Flat, FlatKids;
    var c, q := r[0], r[1..];
    var sub := t.kids[c].sub;
    assert r == [c] + q;
    if j == 0 {
      assert r[..0] == [];
      ZeroCut(sub, q);
      SameSelf(sub, q, h - 1, cap, from);
      SameAbove(t, c, q, Kid(key, sub), h, cap, from);
    } else {
      assert r[j + 1..] == q[j..];
      KeyStep(sub, q, j - 1, key, h - 1, cap, from);
      assert r[..j][1..] == q[..j - 1] && r[..j][0] == c && q[j - 1] == r[j];
      SameAbove(t, c, q, Kid(t.kids[c].key, SetKey(sub, q[..j - 1], r[j], key)), h, cap, from);
    }
  }

  lemma SameSelf(t: Tree, r: seq<nat>, h: nat, cap: nat, from: nat)
    requires OnCut(t, r)
    ensures SameWork(t, t, r, h, cap, from)
  {
  }

  /** Cutting at the very first entry leaves nothing. */
  lemma {:induction false} ZeroCut(t: Tree, r: seq<nat>)
    requires OnCut(t, r) && AllZero(r)
    ensures Bare(Cut(t, r))
    decreases |r|
  {
    if |r| > 1 { ZeroCut(t.kids[0].sub, r[1..]); }
  }

  lemma KeyFlat(t: Tree, p: seq<nat>, c: nat, key: nat, b: nat)
    requires PathOk(t, p) && At(t, p).Node? && c < |At(t, p).kids|
    ensures Flat(SetKey(t, p, c, key)) == Flat(t) && Uses(SetKey(t, p, c, key), b) == Uses(t, b)
  {
    hide Flat, FlatKids, Uses, UsesKids;
    var n := At(t, p);
    var n' := n.(kids := n.kids[c := Kid(key, n.kids[c].sub)]);
    NodeFlat(n);
    NodeFlat(n');
    FlatKidsAt(n.kids, c);
    FlatKidsAt(n'.kids, c);
    assert n'.kids[..c] == n.kids[..c] && n'.kids[c + 1..] == n.kids[c + 1..];
    FlatAt(t, p);
    FlatSet(t, p, n');
    UsesHere(n, b);
    UsesHere(n', b);
    UsesKidsAt(n.kids, c, b);
    UsesKidsAt(n'.kids, c, b);
    UsesSet(t, p, n', b);
  }

  lemma SameTrans(t: Tree, u: Tree, v: Tree, r: seq<nat>, h: nat, cap: nat, from: nat)
    requires SameWork(t, u, r, h, cap, from) && SameWork(u, v, r, h, cap, from)
    ensures SameWork(t, v, r, h, cap, from)
  {
    hide Shape, Cut, Weight;
  }

  // -------------------------------------------------------------- the target

  /** What stays when everything from block `from` on goes, position c of the leaf at p being the first
      concerned. */
  function Target(t: Tree, p: seq<nat>, c: nat, from: nat): Tree
    requires PathOk(t, p) && At(t, p).Leaf? && c < |At(t, p).exts|
  {
    var l := At(t, p);
    var u := l.(exts := Keep(l.exts, c, from));
    if p == [] then u
    else if Bare(u) then (PathOnCut(t, p); Cut(t, p))
    else (FlatSet(t, p, u); PathOnCut(SetAt(t, p, u), p); Cut(SetAt(t, p, u), Onward(p)))
  }

  /** The last cursor moved on by one. */
  function Onward(p: seq<nat>): seq<nat>
    requires p != []
  {
    p[|p| - 1 := p[|p| - 1] + 1]
  }

  lemma TargetOk(t: Tree, p: seq<nat>, c: nat, from: nat, h: nat, cap: nat)
    requires Wf(t, h, cap) && PathOk(t, p) && |p| == h && At(t, p).Leaf? && c < |At(t, p).exts|
    ensures var s := Target(t, p, c, from);
      && s.blk == t.blk && s.max == t.max && (!Bare(s) ==> Wf(s, h, cap))
      && (s.Leaf? <==> h == 0)
      && Flat(s) == Before(t, p) + Keep(At(t, p).exts, c, from)
  {
    hide Flat, FlatKids, Before, After, Cut, Keep;
    var l := At(t, p);
    var u := l.(exts := Keep(l.exts, c, from));
    LeafFlat(l);
    LeafFlat(u);
    KeepSmall(l.exts, c, from);
    WfAt(t, p, h, cap);
    if p == [] {
      RootParts(t, p);
    } else {
      PathOnCut(t, p);
      FlatSet(t, p, u);
      RootFields(t, p, u);
      if Bare(u) {
        CutFlat(t, p);
        CutWf(t, p, h, cap);
        CutIsNode(t, p);
      } else {
        WfSet(t, p, u, h, cap);
        PathOnCut(SetAt(t, p, u), p);
        CutNextFlat(SetAt(t, p, u), p);
        CutWf(SetAt(t, p, u), Onward(p), h, cap);
        CutIsNode(SetAt(t, p, u), Onward(p));
      }
    }
  }

  lemma RootParts(t: Tree, p: seq<nat>)
    requires p == []
    ensures PathOk(t, p) && At(t, p) == t && Before(t, p) == []
  {
  }

  lemma CutIsNode(t: Tree, r: seq<nat>)
    requires OnCut(t, r)
    ensures Cut(t, r).Node?
  {
  }

  lemma KeepSmall(exts: seq<Extent>, c: nat, from: nat)
    requires c < |exts|
    ensures var k := Keep(exts, c, from);
      && |k| <= |exts| && (k == [] <==> c == 0 && from <= exts[0].first)
      && (k != [] ==> k[0].first == exts[0].first)
  {
  }

  /** Keeping in the leaf is keeping in the whole list. */
  lemma KeepInside(a: seq<Extent>, e: seq<Extent>, z: seq<Extent>, c: nat, from: nat)
    requires c < |e|
    ensures |a| + c < |a + e + z| && Keep(a + e + z, |a| + c, from) == a + Keep(e, c, from)
  {
    MiddleAt(a, e, z, c);
    assert (a + e + z)[..|a| + c] == a + e[..c];
  }

  lemma KeepSorted(f: seq<Extent>, g: nat, from: nat)
    requires Sorted(f) && g < |f|
    ensures Sorted(Keep(f, g, from))
  {
    var k := Keep(f, g, from);
    assert forall i :: 0 <= i < g ==> k[i] == f[i];
  }

  /** The map restricted to the blocks below `from`. */
  lemma KeepRestricts(f: seq<Extent>, g: nat, from: nat, b: nat)
    requires Sorted(f) && g < |f| && Covers(f[g], from)
    ensures Lookup(Keep(f, g, from), b) == if b < from then Lookup(f, b) else None
  {
    hide Sorted, Lookup;
    var k := Keep(f, g, from);
    KeepSorted(f, g, from);
    LookupNone(k, b);
    LookupNone(f, b);
    KeepCovers(f, g, from, b);
    if i :| 0 <= i < |f| && Covers(f[i], b) {
      LookupAt(f, i, b);
      if b < from { LookupAt(k, i, b); }
    }
  }

  lemma KeepCovers(f: seq<Extent>, g: nat, from: nat, b: nat)
    requires Sorted(f) && g < |f| && Covers(f[g], from)
    ensures var k := Keep(f, g, from);
      && (b >= from ==> forall i :: 0 <= i < |k| ==> !Covers(k[i], b))
      && (b < from ==> forall i :: 0 <= i < |f| && Covers(f[i], b) ==>
            i < |k| && Covers(k[i], b) && k[i].start == f[i].start && k[i].first == f[i].first
            && k[i].unwritten == f[i].unwritten)
      && (forall i :: 0 <= i < |k| ==> i < |f| && (Covers(k[i], b) ==> Covers(f[i], b)))
  {
    var k := Keep(f, g, from);
    assert forall i :: 0 <= i < g ==> k[i] == f[i] && f[i].first + f[i].len <= f[g].first;
    assert forall i :: g < i < |f| ==> f[g].first + f[g].len <= f[i].first;
  }

  /** The map of w is that of f up to block `from`. */
  ghost predicate Restricts(f: seq<Extent>, w: seq<Extent>, from: nat) {
    forall b: nat :: Lookup(w, b) == if b < from then Lookup(f, b) else None
  }

  /** The first block after the last extent. */
  function FileEnd(f: seq<Extent>): nat { if f == [] then 0 else f[|f| - 1].first + f[|f| - 1].len }

  /** When `from` is in a hole, doing nothing is right exactly if the file ends before it. */
  lemma HoleRestricts(f: seq<Extent>, from: nat)
    requires Sorted(f) && Lookup(f, from).None?
    ensures Restricts(f, f, from) <==> FileEnd(f) <= from
  {
    hide Lookup;
    if f != [] && from < FileEnd(f) {
      LookupAt(f, |f| - 1, FileEnd(f) - 1);
      assert Lookup(f, FileEnd(f) - 1) != None;
    } else {
      forall b: nat | from <= b
        ensures Lookup(f, b) == None
      {
        LookupNone(f, b);
      }
    }
  }

  // ---------------------------------------------------------- blocks handed back

  datatype Run = Run(start: nat, len: nat)

  predicate InRun(r: Run, x: nat) { r.start <= x < r.start + r.len }

  /** How often block x was freed. */
  function Freed(s: seq<Run>, x: nat): nat {
    if s == [] then 0 else Freed(s[..|s| - 1], x) + if InRun(s[|s| - 1], x) then 1 else 0
  }

  lemma FreedSnoc(s: seq<Run>, r: Run, x: nat)
    ensures Freed(s + [r], x) == Freed(s, x) + if InRun(r, x) then 1 else 0
  {
    assert (s + [r])[..|s|] == s;
  }

  /** How many extents store data in block x. */
  function Data(f: seq<Extent>, x: nat): nat {
    if f == [] then 0 else Data(f[..|f| - 1], x) + if InRun(Run(f[|f| - 1].start, f[|f| - 1].len), x) then 1 else 0
  }

  lemma {:induction false} DataConcat(a: seq<Extent>, b: seq<Extent>, x: nat)
    ensures Data(a + b, x) == Data(a, x) + Data(b, x)
    decreases |b|
  {
    if b == [] {
      assert a + b == a;
    } else {
      DataConcat(a, b[..|b| - 1], x);
      assert (a + b)[..|a + b| - 1] == a + b[..|b| - 1];
    }
  }

  lemma DataOne(e: Extent, x: nat)
    ensures Data([e], x) == if InRun(Run(e.start, e.len), x) then 1 else 0
  {
    assert [e][..0] == [];
  }

  lemma DataNext(f: seq<Extent>, i: nat, x: nat)
    requires i < |f|
    ensures Data(f[..i + 1], x) == Data(f[..i], x) + if InRun(Run(f[i].start, f[i].len), x) then 1 else 0
  {
    assert f[..i + 1][..i] == f[..i];
  }

  lemma DataSet(t: Tree, p: seq<nat>, u: Tree, x: nat)
    requires PathOk(t, p)
    ensures Data(Flat(SetAt(t, p, u)), x) + Data(Flat(At(t, p)), x) == Data(Flat(t), x) + Data(Flat(u), x)
  {
    hide Flat, FlatKids, Before, After, Data;
    FlatAt(t, p);
    FlatSet(t, p, u);
    DataConcat(Before(t, p) + Flat(At(t, p)), After(t, p), x);
    DataConcat(Before(t, p), Flat(At(t, p)), x);
    DataConcat(Before(t, p) + Flat(u), After(t, p), x);
    DataConcat(Before(t, p), Flat(u), x);
  }

  /** Blocks of the tree, of the data it maps, and handed back. */
  function Held(t: Tree, freed: seq<Run>, x: nat): nat {
    Uses(t, x) + Data(Flat(t), x) + Freed(freed, x)
  }

  lemma HereIs(t: Tree, r: seq<nat>)
    requires OnCut(t, r)
    ensures PathOk(t, r[..|r| - 1]) && Here(t, r) == At(t, r[..|r| - 1])
  {
    OnCutPath(t, r);
  }

  lemma DropHeld(t: Tree, r: seq<nat>, freed: seq<Run>)
    requires OnCut(t, r) && r[|r| - 1] < |Here(t, r).kids| && Bare(Here(t, r).kids[r[|r| - 1]].sub)
    ensures var gone := Here(t, r).kids[r[|r| - 1]].sub;
      forall x :: Held(Dropped(t, r), freed + [Run(gone.blk, 1)], x) == Held(t, freed, x)
  {
    hide Flat, FlatKids, Uses, Data, Freed, Dropped;
    var gone := Here(t, r).kids[r[|r| - 1]].sub;
    BareFlat(gone);
    forall x
      ensures Held(Dropped(t, r), freed + [Run(gone.blk, 1)], x) == Held(t, freed, x)
    {
      DropFlat(t, r, x);
      BareUses(gone, x);
      FreedSnoc(freed, Run(gone.blk, 1), x);
    }
  }

  lemma BareUses(t: Tree, x: nat)
    requires Bare(t)
    ensures Uses(t, x) == if InRun(Run(t.blk, 1), x) then 1 else 0
  {
  }

  lemma KeyHeld(t: Tree, p: seq<nat>, c: nat, key: nat, freed: seq<Run>)
    requires PathOk(t, p) && At(t, p).Node? && c < |At(t, p).kids|
    ensures forall x :: Held(SetKey(t, p, c, key), freed, x) == Held(t, freed, x)
  {
    hide Flat, Uses, Data, Freed, SetKey;
    forall x
      ensures Held(SetKey(t, p, c, key), freed, x) == Held(t, freed, x)
    {
      KeyFlat(t, p, c, key, x);
    }
  }

  lemma SetHeld(t: Tree, p: seq<nat>, l: Tree, l': Tree, d: seq<Run>, d': seq<Run>)
    requires PathOk(t, p) && At(t, p) == l && l.Leaf? && l'.Leaf? && l' == l.(exts := l'.exts)
    requires forall x :: Data(l'.exts, x) + Freed(d', x) == Data(l.exts, x) + Freed(d, x)
    ensures forall x :: Held(SetAt(t, p, l'), d', x) == Held(t, d, x)
  {
    hide Flat, Uses, Data, Freed, SetAt;
    LeafFlat(l);
    LeafFlat(l');
    forall x
      ensures Held(SetAt(t, p, l'), d', x) == Held(t, d, x)
    {
      UsesSet(t, p, l', x);
      UsesHere(l, x);
      UsesHere(l', x);
      DataSet(t, p, l', x);
    }
  }

  /** A run of blocks split in two. */
  lemma RunSplit(e: Extent, from: nat, x: nat)
    requires e.first < from < e.first + e.len
    ensures (if InRun(Run(e.start, from - e.first), x) then 1 else 0)
          + (if InRun(Run(e.start + (from - e.first), e.len - (from - e.first)), x) then 1 else 0)
         == if InRun(Run(e.start, e.len), x) then 1 else 0
  {
  }

  lemma KeepData(exts: seq<Extent>, c: nat, from: nat, x: nat)
    requires c < |exts| && from < exts[c].first + exts[c].len
    ensures var m := if exts[c].first < from then from - exts[c].first else 0;
      Data(exts[..c + 1], x)
      == Data(Keep(exts, c, from), x) + if InRun(Run(exts[c].start + m, exts[c].len - m), x) then 1 else 0
  {
    hide Data;
    var e := exts[c];
    DataNext(exts, c, x);
    if e.first < from {
      DataConcat(exts[..c], [e.(len := from - e.first)], x);
      DataOne(e.(len := from - e.first), x);
      RunSplit(e, from, x);
    } else {
      assert exts[..c] + [] == exts[..c];
    }
  }

  // -------------------------------------------------------- first leaf done

  /** Everything right of the path is untouched. */
  lemma {:induction false} WfShape(t: Tree, p: seq<nat>, h: nat, cap: nat, from: nat)
    requires p != [] && PathOk(t, p) && Wf(t, h, cap) && Beyond(After(t, p), from)
    ensures Shape(t, Onward(p), h, cap, from)
    ensures Beyond(Flat(At(t, p)), from) ==> Shape(t, p, h, cap, from)
    decreases |p|
  {
    hide Flat, FlatKids, Shape, Cut, Weight, Beyond, Siblings, Wf;
    var c, q := p[0], p[1..];
    var sub := t.kids[c].sub;
    AfterHead(t, p, from);
    SiblingsFresh(t, c, h, cap, from);
    KidAt(t, c, h, cap);
    if |p| == 1 {
      assert p == [c];
      WfShapeOne(t, c, h, cap, from);
    } else {
      WfShape(sub, q, h - 1, cap, from);
      PathOnCut(sub, q);
      assert p == [c] + q && Onward(p) == [c] + Onward(q);
      WfAt(t, p, h, cap);
      ConsCursor(t, c, q, h, cap, from);
      ConsCursor(t, c, Onward(q), h, cap, from);
    }
  }

  lemma AfterHead(t: Tree, p: seq<nat>, from: nat)
    requires p != [] && PathOk(t, p) && Beyond(After(t, p), from)
    ensures Beyond(After(t.kids[p[0]].sub, p[1..]), from) && Beyond(FlatKids(t.kids[p[0] + 1..]), from)
    ensures At(t, p) == At(t.kids[p[0]].sub, p[1..])
  {
    hide FlatKids, Beyond;
    var x, y := After(t.kids[p[0]].sub, p[1..]), FlatKids(t.kids[p[0] + 1..]);
    assert [] + x + y == After(t, p);
    BeyondPart([], x, y, from);
  }

  lemma FreshKid(k: Kid, h: nat, cap: nat, from: nat)
    requires WfKid(k, h, cap) && Beyond(Flat(k.sub), from)
    ensures Fresh(k, h, cap, from)
  {
  }

  lemma WfShapeOne(t: Tree, c: nat, h: nat, cap: nat, from: nat)
    requires t.Node? && c < |t.kids| && Wf(t, h, cap) && Siblings(t, c, h, cap, from)
    ensures Onward([c]) == [c + 1] && Shape(t, [c + 1], h, cap, from)
    ensures PathOk(t, [c]) && (Beyond(Flat(At(t, [c])), from) ==> Shape(t, [c], h, cap, from))
  {
    hide Flat, FlatKids, Shape, Beyond, Wf, At, Fresh;
    KidAt(t, c, h, cap);
    OneDown(t, c);
    assert Siblings(t, c + 1, h, cap, from) && (c + 1 < |t.kids| ==> Fresh(t.kids[c + 1], h - 1, cap, from));
    if Beyond(Flat(t.kids[c].sub), from) { FreshKid(t.kids[c], h - 1, cap, from); }
    OneCursor(t, c, h, cap, from);
    OneCursor(t, c + 1, h, cap, from);
  }

  lemma SiblingsFresh(t: Tree, c: nat, h: nat, cap: nat, from: nat)
    requires t.Node? && c < |t.kids| && Wf(t, h, cap) && Beyond(FlatKids(t.kids[c + 1..]), from)
    ensures Siblings(t, c, h, cap, from)
  {
    hide Flat, FlatKids, Beyond;
    var kids := t.kids[c + 1..];
    KidAt(t, c, h, cap);
    forall i | c < i < |t.kids|
      ensures Fresh(t.kids[i], h - 1, cap, from)
    {
      KidAt(t, i, h, cap);
      assert kids[i - c - 1] == t.kids[i];
      FlatKidsAt(kids, i - c - 1);
      BeyondPart(FlatKids(kids[..i - c - 1]), Flat(t.kids[i].sub), FlatKids(kids[i - c..]), from);
    }
  }

  /** Dropping an entry does not depend on what was below it. */
  lemma DropIgnores(t: Tree, p: seq<nat>, u: Tree)
    requires p != [] && PathOk(t, p)
    ensures OnCut(t, p) && PathOk(SetAt(t, p, u), p) && OnCut(SetAt(t, p, u), p)
    ensures p[|p| - 1] < |Here(t, p).kids| == |Here(SetAt(t, p, u), p).kids|
    ensures Here(SetAt(t, p, u), p).kids[p[|p| - 1]].sub == u
    ensures Dropped(SetAt(t, p, u), p) == Dropped(t, p)
  {
    hide Flat, FlatKids, Before, After, At, PathOk, SetAt, OnCut, Here;
    var i, c := |p| - 1, p[|p| - 1];
    var q := p[..i];
    PathOnCut(t, p);
    FlatSet(t, p, u);
    PathOnCut(SetAt(t, p, u), p);
    assert p == q + [c];
    PathPrefix(t, q, [c]);
    HereIs(t, p);
    HereIs(SetAt(t, p, u), p);
    SetLast(t, q, c, u);
  }

  /** Replacing an entry, then taking it out. */
  lemma SetLast(t: Tree, q: seq<nat>, c: nat, u: Tree)
    requires PathOk(t, q) && PathOk(At(t, q), [c])
    ensures PathOk(t, q + [c]) && PathOk(SetAt(t, q + [c], u), q)
    ensures var n, n' := At(t, q), At(SetAt(t, q + [c], u), q);
      && n.Node? && n'.Node? && c < |n'.kids| == |n.kids| && n'.kids[c].sub == u
      && SetAt(SetAt(t, q + [c], u), q, n'.(kids := n'.kids[..c] + n'.kids[c + 1..]))
         == SetAt(t, q, n.(kids := n.kids[..c] + n.kids[c + 1..]))
  {
    hide Flat, FlatKids, Before, After;
    var n := At(t, q);
    OneDown(n, c);
    SetSplit(t, q, [c], u);
    var n' := SetAt(n, [c], u);
    FlatSet(t, q, n');
    assert n'.kids[..c] == n.kids[..c] && n'.kids[c + 1..] == n.kids[c + 1..];
    SetSet(t, q, n', n.(kids := n.kids[..c] + n.kids[c + 1..]));
  }

  /** The leaf with what it keeps still begins where it did. */
  lemma KeptWf(t: Tree, p: seq<nat>, l: Tree, c: nat, from: nat, h: nat, cap: nat)
    requires PathOk(t, p) && At(t, p).Leaf? && c < |At(t, p).exts| && |p| <= h && Wf(t, h, cap)
    requires l == At(t, p).(exts := Keep(At(t, p).exts, c, from)) && l.exts != []
    ensures Wf(SetAt(t, p, l), h, cap) && PathOk(SetAt(t, p, l), p)
    ensures c == 0 ==> Corrected(SetAt(t, p, l), p, l.exts[0].first) == SetAt(t, p, l)
    ensures p != [] ==> OnCut(SetAt(t, p, l), Onward(p)) && Target(t, p, c, from) == Cut(SetAt(t, p, l), Onward(p))
    ensures p == [] ==> Target(t, p, c, from) == SetAt(t, p, l)
  {
    hide Flat, FlatKids, Before, After, Cut, Keep, Corrected;
    var e := At(t, p);
    LeafFlat(e);
    LeafFlat(l);
    KeepSmall(e.exts, c, from);
    WfAt(t, p, h, cap);
    WfSet(t, p, l, h, cap);
    FlatSet(t, p, l);
    CorrectedSame(SetAt(t, p, l), p, h, cap, l.exts[0].first);
    if p != [] { PathOnCut(SetAt(t, p, l), p); }
  }

  lemma KeptCut(t: Tree, p: seq<nat>, c: nat, from: nat, h: nat, cap: nat)
    requires p != [] && PathOk(t, p) && At(t, p).Leaf? && c < |At(t, p).exts| && |p| <= h && Wf(t, h, cap)
    requires Keep(At(t, p).exts, c, from) != [] && Beyond(After(t, p), from)
    ensures var u := SetAt(t, p, At(t, p).(exts := Keep(At(t, p).exts, c, from)));
      Shape(u, Onward(p), h, cap, from)
  {
    hide Flat, FlatKids, Before, After, Cut, Keep, Corrected, Shape, Beyond;
    var l := At(t, p).(exts := Keep(At(t, p).exts, c, from));
    KeptWf(t, p, l, c, from, h, cap);
    FlatSet(t, p, l);
    WfShape(SetAt(t, p, l), p, h, cap, from);
  }

  // ------------------------------------------------------------ loop states

  /** Leaving a node that has lost all its entries: its own entry goes. */
  lemma {:induction false} BareStep(t: Tree, r: seq<nat>, h: nat, cap: nat, from: nat)
    requires Shape(t, r, h, cap, from) && OnCut(t, r) && |r| > 1 && Here(t, r).kids == []
    ensures var w := r[..|r| - 1];
      && OnCut(t, w) && w[|w| - 1] < |Here(t, w).kids| && Bare(Here(t, w).kids[w[|w| - 1]].sub)
      && OnCut(Dropped(t, w), w) && Shape(Dropped(t, w), w, h, cap, from)
      && Cut(Dropped(t, w), w) == Cut(t, r) && Weight(Dropped(t, w), w) <= Weight(t, r)
      && Dropped(t, w).blk == t.blk && Dropped(t, w).max == t.max
    decreases |r|
  {
    hide Shape, Cut, Weight, Siblings, CutAbove, Flat, FlatKids;
    CursorCases(t, r, h, cap, from);
    var w, c := r[..|r| - 1], r[0];
    var sub := t.kids[c].sub;
    if |r| == 2 {
      CursorCases(sub, r[1..], h - 1, cap, from);
      BareTop(t, c, r[1], h, cap, from);
      assert w == [c];
    } else {
      BareStep(sub, r[1..], h - 1, cap, from);
      var w' := r[1..][..|r| - 2];
      assert w == [c] + w';
      ShapeOnCut(Dropped(sub, w'), w', h - 1, cap, from);
      HereBelow(t, w);
      OnCutPath(t, w);
      OnCutPath(sub, w');
      assert w[..|w| - 1][1..] == w'[..|w'| - 1];
      var u := t.(kids := t.kids[c := Kid(t.kids[c].key, Dropped(sub, w'))]);
      assert Dropped(t, w) == u;
      ConsCursor(u, c, w', h, cap, from);
      assert u.kids[..c] == t.kids[..c] && u.kids[c + 1..] == t.kids[c + 1..];
      SameSiblings(t, u, c, h, cap, from);
      SameCutAbove(t, u, c, Cut(Dropped(sub, w'), w'));
    }
  }

  lemma SameCutAbove(t: Tree, u: Tree, c: nat, s: Tree)
    requires t.Node? && u.Node? && c < |t.kids| && u == t.(kids := u.kids) && |u.kids| == |t.kids|
    requires u.kids[..c] == t.kids[..c] && u.kids[c].key == t.kids[c].key
    ensures CutAbove(u, c, s) == CutAbove(t, c, s)
  {
  }

  lemma SameSiblings(t: Tree, u: Tree, c: nat, h: nat, cap: nat, from: nat)
    requires t.Node? && u.Node? && c < |t.kids| == |u.kids| && u.kids[c + 1..] == t.kids[c + 1..]
    requires Siblings(t, c, h, cap, from)
    ensures Siblings(u, c, h, cap, from)
  {
    forall i | c < i < |u.kids|
      ensures u.kids[i] == t.kids[i]
    {
      assert u.kids[i] == u.kids[c + 1..][i - c - 1];
    }
  }

  lemma BareTop(t: Tree, c: nat, d: nat, h: nat, cap: nat, from: nat)
    requires t.Node? && c < |t.kids| && h > 0 && Siblings(t, c, h, cap, from)
    requires t.kids[c].sub.Node? && t.kids[c].sub.kids == [] && d == 0
    ensures OnCut(t, [c]) && Here(t, [c]) == t && Bare(t.kids[c].sub)
    ensures var u := Dropped(t, [c]);
      && OnCut(u, [c]) && Shape(u, [c], h, cap, from)
      && Cut(u, [c]) == CutAbove(t, c, t.kids[c].sub.(kids := t.kids[c].sub.kids[..d]))
      && Weight(u, [c]) <= SizeKids(t.kids[c].sub.kids[d..]) + SizeKids(t.kids[c + 1..])
      && u.blk == t.blk && u.max == t.max
  {
    hide Shape, Cut, Weight, Flat, FlatKids;
    OneCursor(t, c, h, cap, from);
    var u := Dropped(t, [c]);
    assert [c][..0] == [];
    assert u == t.(kids := t.kids[..c] + t.kids[c + 1..]);
    OneCursor(u, c, h, cap, from);
    assert u.kids[..c] == t.kids[..c] && u.kids[c..] == t.kids[c + 1..];
    assert t.kids[..c] + [] == t.kids[..c];
    forall i | c <= i < |u.kids|
      ensures u.kids[i] == t.kids[i + 1]
    {
    }
  }

  /** The leaf at the cursors, when it is one of the later ones. */
  lemma LeafReady(t: Tree, r: seq<nat>, h: nat, cap: nat, from: nat)
    requires Shape(t, r, h, cap, from) && OnCut(t, r) && |r| == h && r[h - 1] < |Here(t, r).kids|
    ensures PathOk(t, r) && At(t, r).Leaf?
    ensures var exts := At(t, r).exts;
      && exts != [] && from < exts[0].first + exts[0].len && (forall i :: 0 < i < |exts| ==> from <= exts[i].first)
      && Keep(exts, 0, from) == []
    ensures Target(t, r, 0, from) == Cut(t, r)
  {
    hide Shape, Cut, Weight, FlatKids;
    ShapeHere(t, r, h, cap, from);
    HereIs(t, r);
    var q, c := r[..h - 1], r[h - 1];
    assert r == q + [c];
    BeforeSnoc(t, q, c);
    LeafOf(At(t, r), cap);
    LeafFlat(At(t, r));
  }

  lemma LeafOf(t: Tree, cap: nat)
    requires Wf(t, 0, cap)
    ensures t.Leaf?
  {
  }

  /** The leaf where the removal begins. */
  lemma FirstReady(t: Tree, p: seq<nat>, c: nat, from: nat, h: nat, cap: nat)
    requires Wf(t, h, cap) && Sorted(Flat(t)) && PathOk(t, p) && |p| == h && At(t, p).Leaf? && c < |At(t, p).exts|
    requires Covers(At(t, p).exts[c], from)
    ensures var exts := At(t, p).exts; forall i :: c < i < |exts| ==> from <= exts[i].first
    ensures p != [] ==> Beyond(After(t, p), from)
    ensures p != [] && Keep(At(t, p).exts, c, from) == [] ==> Shape(t, p, h, cap, from)
  {
    hide Flat, FlatKids, Before, After, Shape, Wf;
    var e := At(t, p).exts;
    FlatAt(t, p);
    LeafFlat(At(t, p));
    BeyondFirst(Before(t, p), e, After(t, p), c, from);
    if p != [] {
      WfShape(t, p, h, cap, from);
    }
  }

  lemma BeyondFirst(a: seq<Extent>, e: seq<Extent>, z: seq<Extent>, c: nat, from: nat)
    requires Sorted(a + e + z) && c < |e| && Covers(e[c], from)
    ensures forall i :: c < i < |e| ==> from <= e[i].first
    ensures Beyond(z, from)
    ensures Keep(e, c, from) == [] ==> Beyond(e, from)
  {
    SortedPart(a, e, z);
    if Keep(e, c, from) == [] { FirstsOrdered(e); }
  }

  /** Where the removal loop stands: at level i of |q|, with cursors q, on the way to the tree s. */
  ghost predicate Running(t: Tree, q: seq<nat>, i: int, s: Tree, h: nat, cap: nat, from: nat, w: nat) {
    && |q| == h && -1 <= i <= h && t.blk == s.blk && t.max == s.max
    && (i == -1 ==> t == s)
    && (0 <= i < h ==> At0(t, q[..i + 1], s, h, cap, from, w))
    && (i == h > 0 ==> At0(t, q, s, h, cap, from, w) && q[h - 1] < |Here(t, q).kids|)
    && (i == h ==> h > 0)
  }

  ghost predicate At0(t: Tree, r: seq<nat>, s: Tree, h: nat, cap: nat, from: nat, w: nat) {
    OnCut(t, r) && Shape(t, r, h, cap, from) && Cut(t, r) == s && Weight(t, r) <= w
  }

  /** Nothing more to look at in the node of level i. */
  lemma LevelDone(t: Tree, q: seq<nat>, i: nat, s: Tree, h: nat, cap: nat, from: nat, w: nat)
    requires Running(t, q, i, s, h, cap, from, w) && i < h && OnCut(t, q[..i + 1])
    requires var n := Here(t, q[..i + 1]); q[i] == |n.kids| && (i > 0 ==> n.kids != [])
    ensures i == 0 ==> Running(t, q, -1, s, h, cap, from, w)
    ensures i > 0 ==> Running(t, q[i - 1 := q[i - 1] + 1], i - 1, s, h, cap, from, w)
  {
    hide Shape, Cut, Weight;
    var r := q[..i + 1];
    if i == 0 {
      CursorCases(t, r, h, cap, from);
      assert t.kids[..q[0]] == t.kids;
    } else {
      UpStep(t, r, h, cap, from);
      var q' := q[i - 1 := q[i - 1] + 1];
      assert q'[..i] == r[..|r| - 2] + [r[|r| - 2] + 1];
    }
  }

  /** A node of level i that has lost all its entries. */
  lemma LevelBare(t: Tree, q: seq<nat>, i: nat, s: Tree, h: nat, cap: nat, from: nat, w: nat)
    requires Running(t, q, i, s, h, cap, from, w) && 0 < i < h && OnCut(t, q[..i + 1])
    requires Here(t, q[..i + 1]).kids == []
    ensures OnCut(t, q[..i]) && q[i - 1] < |Here(t, q[..i]).kids|
    ensures Bare(Here(t, q[..i]).kids[q[i - 1]].sub)
    ensures var u := Dropped(t, q[..i]);
      forall v :: SameWork(u, v, q[..i], h, cap, from) ==> Running(v, q, i - 1, s, h, cap, from, w)
  {
    hide Shape, Cut, Weight, Dropped;
    var r := q[..i + 1];
    assert r[..|r| - 1] == q[..i];
    BareStep(t, r, h, cap, from);
  }

  /** Going down from level i. */
  lemma LevelDown(t: Tree, q: seq<nat>, i: nat, s: Tree, h: nat, cap: nat, from: nat, w: nat)
    requires Running(t, q, i, s, h, cap, from, w) && i < h && OnCut(t, q[..i + 1])
    requires q[i] < |Here(t, q[..i + 1]).kids|
    ensures i + 1 == h ==> Running(t, q, h, s, h, cap, from, w)
    ensures i + 1 < h ==> w > 0 && Running(t, q[i + 1 := 0], i + 1, s, h, cap, from, w - 1)
  {
    hide Shape, Cut, Weight, Here;
    var r := q[..i + 1];
    if i + 1 == h {
      assert r == q;
    } else {
      DownStep(t, r, h, cap, from);
      assert q[i + 1 := 0][..i + 2] == r + [0];
    }
  }

  lemma RunningLevel(t: Tree, q: seq<nat>, i: nat, s: Tree, h: nat, cap: nat, from: nat, w: nat)
    requires Running(t, q, i, s, h, cap, from, w)
    ensures |q| == h && t.blk == s.blk && t.max == s.max
    ensures i < h ==> OnCut(t, q[..i + 1]) && PathOk(t, q[..i]) && At(t, q[..i]) == Here(t, q[..i + 1])
    ensures i < h ==> q[i] <= |Here(t, q[..i + 1]).kids|
    ensures i == h ==> h > 0 && OnCut(t, q) && Shape(t, q, h, cap, from) && Cut(t, q) == s && Weight(t, q) <= w
                       && q[h - 1] < |Here(t, q).kids|
  {
    hide Shape, Cut, Weight;
    if i < h {
      HereIs(t, q[..i + 1]);
      assert q[..i + 1][..i] == q[..i];
    }
  }

  /** After the leaf at the bottom. */
  lemma LeafDone(t: Tree, q: seq<nat>, s: Tree, h: nat, cap: nat, from: nat)
    requires |q| == h && t.blk == s.blk && t.max == s.max
    requires if h == 0 then t == s else OnCut(t, q) && Shape(t, q, h, cap, from) && Cut(t, q) == s
    ensures h > 0 ==> Running(t, q, h - 1, s, h, cap, from, Weight(t, q))
    ensures h == 0 ==> Running(t, q, -1, s, h, cap, from, 0)
  {
    hide Shape, Cut, Weight, Here;
    if h > 0 { assert q[..h - 1 + 1] == q; }
  }

  /** The tree that stays, as a file's tree. */
  lemma Settled(s: Tree, f: seq<Extent>, h: nat, cap: nat, freed: seq<Run>)
    requires s.blk == 0 && (!Bare(s) ==> Wf(s, h, cap)) && (s.Leaf? <==> h == 0) && Sorted(Flat(s))
    ensures var u := if Bare(s) then Leaf(0, ROOT_MAX, []) else s;
      && Flat(u) == Flat(s) && (if Bare(s) then Flat(s) == [] && Wf(u, 0, cap) else Wf(u, h, cap))
      && (!Bare(s) ==> Flat(s) != [])
      && forall x :: Held(u, freed, x) == Held(s, freed, x)
  {
    hide Data, Freed;
    if Bare(s) {
      BareFlat(s);
      forall x
        ensures Uses(Leaf(0, ROOT_MAX, []), x) == Uses(s, x)
      {
        BareUses(s, x);
      }
    } else if s.Node? {
      NodeEnds(s, 0, h, cap);
    }
  }

  /** In terms of the list of extents. */
  lemma TargetFlat(t: Tree, p: seq<nat>, c: nat, from: nat, h: nat, cap: nat)
    requires Wf(t, h, cap) && Sorted(Flat(t)) && PathOk(t, p) && |p| == h && At(t, p).Leaf? && c < |At(t, p).exts|
    ensures var f, g, s := Flat(t), |Before(t, p)| + c, Target(t, p, c, from);
      && g < |f| && f[g] == At(t, p).exts[c] && Flat(s) == Keep(f, g, from) && Sorted(Flat(s))
      && s.blk == t.blk && s.max == t.max && (!Bare(s) ==> Wf(s, h, cap)) && (s.Leaf? <==> h == 0)
  {
    hide Flat, FlatKids, Before, After, Wf, Target, Keep, Sorted;
    TargetOk(t, p, c, from, h, cap);
    FlatAt(t, p);
    LeafFlat(At(t, p));
    MiddleAt(Before(t, p), At(t, p).exts, After(t, p), c);
    KeepInside(Before(t, p), At(t, p).exts, After(t, p), c, from);
    KeepSorted(Flat(t), |Before(t, p)| + c, from);
  }

  lemma Restricted(f: seq<Extent>, g: nat, from: nat)
    requires Sorted(f) && g < |f| && f[g].first <= from < f[g].first + f[g].len
    ensures Lookup(f, from).Some?
    ensures Restricts(f, Keep(f, g, from), from)
  {
    LookupAt(f, g, from);
    forall b: nat
      ensures Lookup(Keep(f, g, from), b) == if b < from then Lookup(f, b) else None
    {
      KeepRestricts(f, g, from, b);
    }
  }
}
