/** Extent trees: nodes, the flat list of extents they hold, cursors from the root to a leaf. */
module ExtentTree {

  const MAX_WRITTEN_LEN: nat := 32768
  const MAX_UNWRITTEN_LEN: nat := 32767

  /** A run of `len` logical blocks from `first`, stored from physical block `start`. */
  datatype Extent = Extent(first: nat, start: nat, len: nat, unwritten: bool)

  /** A node in block `blk` (0 for the root, which lives in the inode) with room for `max` entries. */
  datatype Tree =
    | Leaf(blk: nat, max: nat, exts: seq<Extent>)
    | Node(blk: nat, max: nat, kids: seq<Kid>)

  /** An index entry: the first logical block below it and the child. */
  datatype Kid = Kid(key: nat, sub: Tree)

  // ------------------------------------------------------------------ flat

  function Flat(t: Tree): seq<Extent>
    decreases t, 1
  {
    match t
    case Leaf(_, _, exts) => exts
    case Node(_, _, kids) => FlatKids(kids)
  }

  function FlatKids(kids: seq<Kid>): seq<Extent>
    decreases kids, 0
  {
    if kids == [] then []
    else
      var k := kids[0];
      assert k.sub < k;
      Flat(k.sub) + FlatKids(kids[1..])
  }

  lemma {:induction false} FlatKidsConcat(a: seq<Kid>, b: seq<Kid>)
    ensures FlatKids(a + b) == FlatKids(a) + FlatKids(b)
    decreases |a|
  {
    if a == [] {
      assert a + b == b;
    } else {
      FlatKidsConcat(a[1..], b);
      assert (a + b)[0] == a[0] && (a + b)[1..] == a[1..] + b;
    }
  }

  lemma FlatKidsOne(k: Kid)
    ensures FlatKids([k]) == Flat(k.sub)
  {
    assert FlatKids([k]) == Flat(k.sub) + FlatKids([k][1..]);
  }

  lemma KidsCut(kids: seq<Kid>, c: nat)
    requires c < |kids|
    ensures kids == kids[..c] + [kids[c]] + kids[c + 1..]
  {
  }

  /** The entries before, at and after position c. */
  lemma FlatKidsAt(kids: seq<Kid>, c: nat)
    requires c < |kids|
    ensures FlatKids(kids) == FlatKids(kids[..c]) + Flat(kids[c].sub) + FlatKids(kids[c + 1..])
  {
    hide Flat, FlatKids;
    KidsCut(kids, c);
    FlatKidsConcat(kids[..c] + [kids[c]], kids[c + 1..]);
    FlatKidsConcat(kids[..c], [kids[c]]);
    FlatKidsOne(kids[c]);
  }

  // ---------------------------------------------------------- well-formed

  /** Height h below; index keys are the first logical blocks below them; no empty node but a root;
      every node that is not the root has room for `cap` entries. */
  ghost predicate Wf(t: Tree, h: nat, cap: nat)
    decreases t
  {
    match t
    case Leaf(_, max, exts) => h == 0 && |exts| <= max
    case Node(_, max, kids) =>
      && h > 0 && 1 <= |kids| <= max
      && forall i :: 0 <= i < |kids| ==> WfKid(kids[i], h - 1, cap)
  }

  ghost predicate WfKid(k: Kid, h: nat, cap: nat)
    decreases k
  {
    Wf(k.sub, h, cap) && k.sub.max == cap && Flat(k.sub) != [] && k.key == Flat(k.sub)[0].first
  }

  /** Extents are in order and disjoint. */
  ghost predicate Sorted(f: seq<Extent>) {
    && (forall i :: 0 <= i < |f| ==> f[i].len > 0)
    && (forall i, j :: 0 <= i < j < |f| ==> f[i].first + f[i].len <= f[j].first)
  }

  // ---------------------------------------------------------------- paths

  /** A cursor in every index node from t down. */
  predicate PathOk(t: Tree, p: seq<nat>)
    decreases |p|
  {
    p != [] ==> t.Node? && p[0] < |t.kids| && PathOk(t.kids[p[0]].sub, p[1..])
  }

  function At(t: Tree, p: seq<nat>): Tree
    requires PathOk(t, p)
    decreases |p|
  {
    if p == [] then t else At(t.kids[p[0]].sub, p[1..])
  }

  /** Replaces the subtree at p; the keys above stay as they are. */
  function SetAt(t: Tree, p: seq<nat>, u: Tree): Tree
    requires PathOk(t, p)
    decreases |p|
  {
    if p == [] then u
    else t.(kids := t.kids[p[0] := Kid(t.kids[p[0]].key, SetAt(t.kids[p[0]].sub, p[1..], u))])
  }

  /** The extents left and right of the subtree at p. */
  function Before(t: Tree, p: seq<nat>): seq<Extent>
    requires PathOk(t, p)
    decreases |p|
  {
    if p == [] then [] else FlatKids(t.kids[..p[0]]) + Before(t.kids[p[0]].sub, p[1..])
  }

  function After(t: Tree, p: seq<nat>): seq<Extent>
    requires PathOk(t, p)
    decreases |p|
  {
    if p == [] then [] else After(t.kids[p[0]].sub, p[1..]) + FlatKids(t.kids[p[0] + 1..])
  }

  lemma {:induction false} FlatAt(t: Tree, p: seq<nat>)
    requires PathOk(t, p)
    ensures Flat(t) == Before(t, p) + Flat(At(t, p)) + After(t, p)
    decreases |p|
  {
    if p != [] {
      FlatAt(t.kids[p[0]].sub, p[1..]);
      FlatKidsAt(t.kids, p[0]);
    }
  }

  lemma {:induction false} FlatSet(t: Tree, p: seq<nat>, u: Tree)
    requires PathOk(t, p)
    ensures PathOk(SetAt(t, p, u), p) && At(SetAt(t, p, u), p) == u
    ensures Before(SetAt(t, p, u), p) == Before(t, p) && After(SetAt(t, p, u), p) == After(t, p)
    ensures Flat(SetAt(t, p, u)) == Before(t, p) + Flat(u) + After(t, p)
    decreases |p|
  {
    if p != [] {
      FlatSet(t.kids[p[0]].sub, p[1..], u);
      var kids := SetAt(t, p, u).kids;
      assert kids[..p[0]] == t.kids[..p[0]] && kids[p[0] + 1..] == t.kids[p[0] + 1..];
      FlatAt(SetAt(t, p, u), p);
    }
  }

  lemma {:induction false} PathSplit(t: Tree, p: seq<nat>, q: seq<nat>)
    requires PathOk(t, p)
    ensures PathOk(t, p + q) <==> PathOk(At(t, p), q)
    ensures PathOk(t, p + q) ==> At(t, p + q) == At(At(t, p), q)
    decreases |p|
  {
    if p == [] {
      assert p + q == q;
    } else {
      PathSplit(t.kids[p[0]].sub, p[1..], q);
      assert (p + q)[1..] == p[1..] + q;
    }
  }

  lemma {:induction false} PathPrefix(t: Tree, p: seq<nat>, q: seq<nat>)
    requires PathOk(t, p + q)
    ensures PathOk(t, p) && PathOk(At(t, p), q) && At(t, p + q) == At(At(t, p), q)
    decreases |p|
  {
    if p == [] {
      assert p + q == q;
    } else {
      assert (p + q)[1..] == p[1..] + q;
      PathPrefix(t.kids[p[0]].sub, p[1..], q);
    }
  }

  lemma {:induction false} SetSplit(t: Tree, p: seq<nat>, q: seq<nat>, u: Tree)
    requires PathOk(t, p) && PathOk(At(t, p), q)
    ensures PathOk(t, p + q)
    ensures SetAt(t, p + q, u) == SetAt(t, p, SetAt(At(t, p), q, u))
    decreases |p|
  {
    PathSplit(t, p, q);
    if p == [] {
      assert p + q == q;
    } else {
      SetSplit(t.kids[p[0]].sub, p[1..], q, u);
      assert (p + q)[1..] == p[1..] + q;
    }
  }

  lemma {:induction false} SetSet(t: Tree, p: seq<nat>, u: Tree, v: Tree)
    requires PathOk(t, p)
    ensures PathOk(SetAt(t, p, u), p) && SetAt(SetAt(t, p, u), p, v) == SetAt(t, p, v)
    decreases |p|
  {
    if p != [] { SetSet(t.kids[p[0]].sub, p[1..], u, v); }
  }

  lemma {:induction false} WfAt(t: Tree, p: seq<nat>, h: nat, cap: nat)
    requires PathOk(t, p) && Wf(t, h, cap)
    ensures |p| <= h && Wf(At(t, p), h - |p|, cap)
    ensures p != [] ==> Flat(At(t, p)) != [] && At(t, p).max == cap
    decreases |p|
  {
    if p != [] {
      assert WfKid(t.kids[p[0]], h - 1, cap);
      WfAt(t.kids[p[0]].sub, p[1..], h - 1, cap);
    }
  }

  /** Replacing a subtree by one with the same first block keeps the tree well formed. */
  lemma {:induction false} WfSet(t: Tree, p: seq<nat>, u: Tree, h: nat, cap: nat)
    requires PathOk(t, p) && Wf(t, h, cap) && |p| <= h && Wf(u, h - |p|, cap)
    requires p != [] ==> u.max == cap && Flat(u) != [] && Flat(At(t, p)) != []
                         && Flat(u)[0].first == Flat(At(t, p))[0].first
    ensures Wf(SetAt(t, p, u), h, cap)
    ensures p != [] ==> SetAt(t, p, u).max == t.max
    ensures p != [] ==> Flat(SetAt(t, p, u)) != [] && Flat(t) != [] && Flat(SetAt(t, p, u))[0].first == Flat(t)[0].first
    decreases |p|
  {
    if p != [] {
      var c := p[0];
      assert WfKid(t.kids[c], h - 1, cap);
      WfAt(t.kids[c].sub, p[1..], h - 1, cap);
      WfSet(t.kids[c].sub, p[1..], u, h - 1, cap);
      FlatSet(t, p, u);
      FlatAt(t, p);
      var kids := SetAt(t, p, u).kids;
      assert WfKid(kids[c], h - 1, cap);
      assert forall i :: 0 <= i < |kids| ==> WfKid(kids[i], h - 1, cap);
      SameFirst(Before(t, p), Flat(u), Flat(At(t, p)), After(t, p));
    }
  }

  lemma SameFirst(a: seq<Extent>, u: seq<Extent>, v: seq<Extent>, b: seq<Extent>)
    requires u != [] && v != [] && u[0].first == v[0].first
    ensures (a + u + b)[0].first == (a + v + b)[0].first
  {
  }

  // ------------------------------------------------------------ blocks used

  /** How many nodes of a tree are stored in block b. */
  function Uses(t: Tree, b: nat): nat
    decreases t, 1
  {
    (if t.blk == b then 1 else 0) + (match t case Leaf(_, _, _) => 0 case Node(_, _, kids) => UsesKids(kids, b))
  }

  function UsesKids(kids: seq<Kid>, b: nat): nat
    decreases kids, 0
  {
    if kids == [] then 0
    else
      var k := kids[0];
      assert k.sub < k;
      Uses(k.sub, b) + UsesKids(kids[1..], b)
  }

  lemma {:induction false} UsesKidsConcat(x: seq<Kid>, y: seq<Kid>, b: nat)
    ensures UsesKids(x + y, b) == UsesKids(x, b) + UsesKids(y, b)
    decreases |x|
  {
    if x == [] {
      assert x + y == y;
    } else {
      UsesKidsConcat(x[1..], y, b);
      assert (x + y)[0] == x[0] && (x + y)[1..] == x[1..] + y;
    }
  }

  lemma UsesKidsOne(k: Kid, b: nat)
    ensures UsesKids([k], b) == Uses(k.sub, b)
  {
    assert UsesKids([k], b) == Uses(k.sub, b) + UsesKids([k][1..], b);
  }

  lemma UsesKidsAt(kids: seq<Kid>, c: nat, b: nat)
    requires c < |kids|
    ensures UsesKids(kids, b) == UsesKids(kids[..c], b) + Uses(kids[c].sub, b) + UsesKids(kids[c + 1..], b)
  {
    hide Uses, UsesKids;
    KidsCut(kids, c);
    UsesKidsConcat(kids[..c] + [kids[c]], kids[c + 1..], b);
    UsesKidsConcat(kids[..c], [kids[c]], b);
    UsesKidsOne(kids[c], b);
  }

  /** Replacing a subtree trades its blocks for those of the new one. */
  lemma {:induction false} UsesSet(t: Tree, p: seq<nat>, u: Tree, b: nat)
    requires PathOk(t, p)
    ensures Uses(SetAt(t, p, u), b) + Uses(At(t, p), b) == Uses(t, b) + Uses(u, b)
    decreases |p|
  {
    if p != [] {
      var c := p[0];
      UsesSet(t.kids[c].sub, p[1..], u, b);
      var kids := SetAt(t, p, u).kids;
      UsesKidsAt(t.kids, c, b);
      UsesKidsAt(kids, c, b);
      assert kids[..c] == t.kids[..c] && kids[c + 1..] == t.kids[c + 1..];
    }
  }
}
