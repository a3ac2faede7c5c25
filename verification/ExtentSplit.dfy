/** Splitting the nodes on a path of an extent tree, from the leaf up. */
module ExtentSplit {
  import opened ExtentTree
  import opened ExtentSearch
  import opened ExtentInsert

  lemma {:induction false} BeforeSplit(t: Tree, p: seq<nat>, q: seq<nat>)
    requires PathOk(t, p) && PathOk(At(t, p), q)
    ensures PathOk(t, p + q) && At(t, p + q) == At(At(t, p), q)
    ensures Before(t, p + q) == Before(t, p) + Before(At(t, p), q)
    ensures After(t, p + q) == After(At(t, p), q) + After(t, p)
    decreases |p|
  {
    hide Flat, FlatKids, At;
    PathSplit(t, p, q);
    if p == [] {
      assert p + q == q;
      AtRoot(t);
    } else {
      var k, sub := p[0], t.kids[p[0]].sub;
      AtBelow(t, p);
      BeforeSplit(sub, p[1..], q);
      assert (p + q)[1..] == p[1..] + q;
      Assoc(FlatKids(t.kids[..k]), Before(sub, p[1..]), Before(At(t, p), q));
      Assoc(After(At(t, p), q), After(sub, p[1..]), FlatKids(t.kids[k + 1..]));
    }
  }

  lemma AtRoot(t: Tree)
    ensures At(t, []) == t
  {
  }

  lemma AtBelow(t: Tree, p: seq<nat>)
    requires p != [] && PathOk(t, p)
    ensures At(t, p) == At(t.kids[p[0]].sub, p[1..])
  {
  }

  lemma Assoc(a: seq<Extent>, b: seq<Extent>, c: seq<Extent>)
    ensures a + (b + c) == (a + b) + c
  {
  }

  /** What stays of the subtree t when everything after extent c of the leaf at p moves away. */
  function SplitLeft(t: Tree, p: seq<nat>, c: nat): Tree
    requires PathOk(t, p) && At(t, p).Leaf? && c < |At(t, p).exts|
    decreases |p|
  {
    if p == [] then t.(exts := t.exts[..c + 1])
    else
      var k := t.kids[p[0]];
      t.(kids := t.kids[..p[0]] + [Kid(k.key, SplitLeft(k.sub, p[1..], c))])
  }

  /** The new nodes: a leaf with `mid`, and above it nodes that begin with the new subtree and take
      over the entries right of the path. Block s[i] is the one allocated for height i. */
  function SplitRight(t: Tree, p: seq<nat>, key: nat, s: seq<nat>, cap: nat, mid: seq<Extent>): Tree
    requires PathOk(t, p) && |p| < |s|
    decreases |p|
  {
    if p == [] then Leaf(s[0], cap, mid)
    else Node(s[|p|], cap,
              [Kid(key, SplitRight(t.kids[p[0]].sub, p[1..], key, s, cap, mid))] + t.kids[p[0] + 1..])
  }

  lemma {:induction false} SplitLeftFlat(t: Tree, p: seq<nat>, c: nat)
    requires PathOk(t, p) && At(t, p).Leaf? && c < |At(t, p).exts|
    ensures Flat(SplitLeft(t, p, c)) == Before(t, p) + At(t, p).exts[..c + 1]
    decreases |p|
  {
    if p != [] {
      var k := t.kids[p[0]];
      SplitLeftFlat(k.sub, p[1..], c);
      var k' := Kid(k.key, SplitLeft(k.sub, p[1..], c));
      FlatKidsConcat(t.kids[..p[0]], [k']);
      FlatKidsOne(k');
    }
  }

  lemma {:induction false} SplitRightFlat(t: Tree, p: seq<nat>, key: nat, s: seq<nat>, cap: nat, mid: seq<Extent>)
    requires PathOk(t, p) && |p| < |s|
    ensures Flat(SplitRight(t, p, key, s, cap, mid)) == mid + After(t, p)
    decreases |p|
  {
    if p != [] {
      var sub := t.kids[p[0]].sub;
      SplitRightFlat(sub, p[1..], key, s, cap, mid);
      var k' := Kid(key, SplitRight(sub, p[1..], key, s, cap, mid));
      FlatKidsConcat([k'], t.kids[p[0] + 1..]);
      FlatKidsOne(k');
    }
  }

  lemma {:induction false} SplitLeftWf(t: Tree, p: seq<nat>, c: nat, h: nat, cap: nat)
    requires Wf(t, h, cap) && PathOk(t, p) && At(t, p).Leaf? && c < |At(t, p).exts|
    ensures var l := SplitLeft(t, p, c);
      Wf(l, h, cap) && l.max == t.max && Flat(l) != [] && Flat(t) != [] && Flat(l)[0] == Flat(t)[0]
    decreases |p|
  {
    hide Flat, Before, After;
    if p == [] {
      LeafFlat(t);
      LeafFlat(SplitLeft(t, p, c));
    } else {
      KidAt(t, p[0], h, cap);
      SplitLeftWf(t.kids[p[0]].sub, p[1..], c, h - 1, cap);
      var l := SplitLeft(t, p, c);
      assert WfKid(l.kids[p[0]], h - 1, cap);
      assert forall i :: 0 <= i < p[0] ==> l.kids[i] == t.kids[i];
      assert Wf(l, h, cap);
      SplitLeftFlat(t, p, c);
      FlatAt(t, p);
      LeafFlat(At(t, p));
      FirstOfSum(Before(t, p), At(t, p).exts, c, After(t, p));
    }
  }

  lemma LeafFlat(t: Tree)
    requires t.Leaf?
    ensures Flat(t) == t.exts
  {
  }

  lemma FirstOfSum(a: seq<Extent>, f: seq<Extent>, c: nat, d: seq<Extent>)
    requires c < |f|
    ensures (a + f[..c + 1])[0] == (a + f + d)[0]
  {
  }

  lemma {:induction false} SplitRightWf(t: Tree, p: seq<nat>, key: nat, s: seq<nat>, cap: nat, mid: seq<Extent>, h: nat)
    requires Wf(t, h, cap) && PathOk(t, p) && |p| == h < |s| && t.max == cap
    requires mid != [] && |mid| <= cap && key == mid[0].first
    ensures var r := SplitRight(t, p, key, s, cap, mid);
      Wf(r, h, cap) && WfKid(Kid(key, r), h, cap)
    decreases |p|
  {
    hide Flat, After;
    var r := SplitRight(t, p, key, s, cap, mid);
    SplitRightFlat(t, p, key, s, cap, mid);
    if p != [] {
      KidAt(t, p[0], h, cap);
      SplitRightWf(t.kids[p[0]].sub, p[1..], key, s, cap, mid, h - 1);
      assert forall i :: 1 <= i < |r.kids| ==> r.kids[i] == t.kids[p[0] + i];
      assert Wf(r, h, cap);
    }
  }

  function Count(s: seq<nat>, b: nat): nat {
    if s == [] then 0 else Count(s[..|s| - 1], b) + if s[|s| - 1] == b then 1 else 0
  }

  /** How often a block is in a list. */
  lemma {:induction false} CountIs(s: seq<nat>, b: nat)
    ensures Count(s, b) == multiset(s)[b]
    decreases |s|
  {
    if s != [] {
      CountIs(s[..|s| - 1], b);
      assert s == s[..|s| - 1] + [s[|s| - 1]];
    }
  }

  lemma {:induction false} SplitUses(t: Tree, p: seq<nat>, c: nat, key: nat, s: seq<nat>, cap: nat, mid: seq<Extent>,
                                     b: nat)
    requires PathOk(t, p) && At(t, p).Leaf? && c < |At(t, p).exts| && |p| < |s|
    ensures Uses(SplitLeft(t, p, c), b) + Uses(SplitRight(t, p, key, s, cap, mid), b)
         == Uses(t, b) + Count(s[..|p| + 1], b)
    decreases |p|
  {
    hide Uses, UsesKids;
    assert s[..|p| + 1][..|p|] == s[..|p|];
    UsesHere(t, b);
    UsesHere(SplitLeft(t, p, c), b);
    UsesHere(SplitRight(t, p, key, s, cap, mid), b);
    if p != [] {
      var k := t.kids[p[0]];
      SplitUses(k.sub, p[1..], c, key, s, cap, mid, b);
      var l := Kid(k.key, SplitLeft(k.sub, p[1..], c));
      var r := Kid(key, SplitRight(k.sub, p[1..], key, s, cap, mid));
      UsesKidsConcat(t.kids[..p[0]], [l], b);
      UsesKidsOne(l, b);
      UsesKidsConcat([r], t.kids[p[0] + 1..], b);
      UsesKidsOne(r, b);
      UsesKidsAt(t.kids, p[0], b);
    } else {
      assert Count(s[..0], b) == 0;
    }
  }

  lemma UsesHere(t: Tree, b: nat)
    ensures Uses(t, b) == (if t.blk == b then 1 else 0) + if t.Leaf? then 0 else UsesKids(t.kids, b)
  {
  }

  // ------------------------------------------------------------- one level

  /** Cutting one more level off, seen from the root. */
  lemma SplitStep(t: Tree, p: seq<nat>, i: nat, c: nat, r: Tree)
    requires i < |p| && PathOk(t, p) && At(t, p).Leaf? && c < |At(t, p).exts|
    requires PathOk(t, p[..i + 1]) && PathOk(At(t, p[..i + 1]), p[i + 1..])
    requires At(At(t, p[..i + 1]), p[i + 1..]) == At(t, p)
    requires r == SetAt(t, p[..i + 1], SplitLeft(At(t, p[..i + 1]), p[i + 1..], c))
    ensures PathOk(t, p[..i]) && At(t, p[..i]).Node? && p[i] < |At(t, p[..i]).kids|
    ensures At(t, p[..i + 1]) == At(t, p[..i]).kids[p[i]].sub
    ensures PathOk(At(t, p[..i]), p[i..]) && At(At(t, p[..i]), p[i..]) == At(t, p)
    ensures PathOk(r, p[..i])
    ensures var n, n' := At(t, p[..i]), At(r, p[..i]);
      && n'.Node? && p[i] < |n'.kids| == |n.kids|
      && n'.blk == n.blk && n'.max == n.max
      && n'.kids == n.kids[p[i] := Kid(n.kids[p[i]].key, SplitLeft(At(t, p[..i + 1]), p[i + 1..], c))]
      && SetAt(r, p[..i], n'.(kids := n'.kids[..p[i] + 1])) == SetAt(t, p[..i], SplitLeft(n, p[i..], c))
  {
    hide Before, After, Flat;
    var q, k := p[..i], p[i];
    assert p[..i + 1] == q + [k] && p == q + p[i..] && p[i..][1..] == p[i + 1..];
    PathPrefix(t, q, [k]);
    PathSplit(t, q, p[i..]);
    var n := At(t, q);
    OneDown(n, k);
    var v := SplitLeft(n.kids[k].sub, p[i + 1..], c);
    SetSplit(t, q, [k], v);
    var n' := SetAt(n, [k], v);
    FlatSet(t, q, n');
    SetSet(t, q, n', n'.(kids := n'.kids[..k + 1]));
    assert n'.kids[..k + 1] == n.kids[..k] + [Kid(n.kids[k].key, v)];
  }

  lemma OneDown(n: Tree, k: nat)
    requires PathOk(n, [k])
    ensures At(n, [k]) == n.kids[k].sub
    ensures forall v :: SetAt(n, [k], v) == n.(kids := n.kids[k := Kid(n.kids[k].key, v)])
  {
    assert [k][1..] == [];
  }

  // ---------------------------------------------------------- putting it in

  /** A node after ext4_ext_insert_index put the new subtree next to the old one. */
  function Attach(n: Tree, k: nat, left: Tree, right: Kid): Tree
    requires n.Node? && k < |n.kids|
  {
    n.(kids := n.kids[..k] + [Kid(n.kids[k].key, left), right] + n.kids[k + 1..])
  }

  lemma AttachFlat(n: Tree, k: nat, left: Tree, right: Kid)
    requires n.Node? && k < |n.kids|
    ensures Flat(Attach(n, k, left, right)) ==
            FlatKids(n.kids[..k]) + Flat(left) + Flat(right.sub) + FlatKids(n.kids[k + 1..])
  {
    hide Flat;
    var l := Kid(n.kids[k].key, left);
    NodeFlat(Attach(n, k, left, right));
    FlatKidsConcat(n.kids[..k] + [l, right], n.kids[k + 1..]);
    FlatKidsConcat(n.kids[..k], [l, right]);
    assert [l, right] == [l] + [right];
    FlatKidsConcat([l], [right]);
    FlatKidsOne(l);
    FlatKidsOne(right);
  }

  lemma NodeFlat(n: Tree)
    requires n.Node?
    ensures Flat(n) == FlatKids(n.kids)
  {
  }

  lemma AttachWf(n: Tree, k: nat, left: Tree, right: Kid, h: nat, cap: nat)
    requires n.Node? && k < |n.kids| < n.max && Wf(n, h, cap)
    requires Wf(left, h - 1, cap) && left.max == cap && Flat(left) != []
    requires Flat(n.kids[k].sub) != [] && Flat(left)[0] == Flat(n.kids[k].sub)[0]
    requires WfKid(right, h - 1, cap)
    ensures Wf(Attach(n, k, left, right), h, cap)
    ensures Flat(Attach(n, k, left, right)) != [] && Flat(n) != []
    ensures Flat(Attach(n, k, left, right))[0] == Flat(n)[0]
  {
    hide Flat, FlatKids;
    var r := Attach(n, k, left, right);
    KidAt(n, k, h, cap);
    assert WfKid(r.kids[k], h - 1, cap);
    assert forall i :: 0 <= i < k ==> r.kids[i] == n.kids[i];
    assert forall i :: k + 1 < i < |r.kids| ==> r.kids[i] == n.kids[i - 1];
    assert forall i :: 0 <= i < |r.kids| ==> WfKid(r.kids[i], h - 1, cap);
    NodeEnds(n, 0, h, cap);
    NodeEnds(r, 0, h, cap);
  }

  lemma AttachUses(n: Tree, k: nat, left: Tree, right: Kid, b: nat)
    requires n.Node? && k < |n.kids|
    ensures Uses(Attach(n, k, left, right), b) + Uses(n.kids[k].sub, b)
      == Uses(n, b) + Uses(left, b) + Uses(right.sub, b)
  {
    hide Uses, UsesKids;
    var l := Kid(n.kids[k].key, left);
    UsesHere(n, b);
    UsesHere(Attach(n, k, left, right), b);
    UsesKidsAt(n.kids, k, b);
    UsesKidsConcat(n.kids[..k] + [l, right], n.kids[k + 1..], b);
    UsesKidsConcat(n.kids[..k], [l, right], b);
    assert [l, right] == [l] + [right];
    UsesKidsConcat([l], [right], b);
    UsesKidsOne(l, b);
    UsesKidsOne(right, b);
  }

  /** The tree after ext4_ext_split_node from the leaf at p up to level `at`. */
  function Split(t: Tree, p: seq<nat>, c: nat, at: nat, key: nat, s: seq<nat>, cap: nat, mid: seq<Extent>): Tree
    requires 1 <= at <= |p| && |p| - at < |s| && PathOk(t, p[..at - 1])
    requires var n := At(t, p[..at - 1]);
      && n.Node? && p[at - 1] < |n.kids| && PathOk(n.kids[p[at - 1]].sub, p[at..])
      && var l := At(n.kids[p[at - 1]].sub, p[at..]); l.Leaf? && c < |l.exts|
  {
    var n, k := At(t, p[..at - 1]), p[at - 1];
    var sub := n.kids[k].sub;
    SetAt(t, p[..at - 1],
          Attach(n, k, SplitLeft(sub, p[at..], c), Kid(key, SplitRight(sub, p[at..], key, s, cap, mid))))
  }

  /** A path cut at an index entry. */
  lemma PathCut(t: Tree, p: seq<nat>, i: nat)
    requires PathOk(t, p) && i < |p|
    ensures PathOk(t, p[..i]) && At(t, p[..i]).Node? && p[i] < |At(t, p[..i]).kids|
    ensures var sub := At(t, p[..i]).kids[p[i]].sub;
      && PathOk(sub, p[i + 1..]) && At(sub, p[i + 1..]) == At(t, p)
      && Before(t, p) == Before(t, p[..i]) + FlatKids(At(t, p[..i]).kids[..p[i]]) + Before(sub, p[i + 1..])
      && After(t, p) == After(sub, p[i + 1..]) + FlatKids(At(t, p[..i]).kids[p[i] + 1..]) + After(t, p[..i])
  {
    hide Flat;
    var q, k := p[..i], p[i];
    assert p == q + p[i..] && p[i..][1..] == p[i + 1..];
    PathPrefix(t, q, p[i..]);
    BeforeSplit(t, q, p[i..]);
  }

  lemma SplitFlat(t: Tree, p: seq<nat>, c: nat, at: nat, key: nat, s: seq<nat>, cap: nat, mid: seq<Extent>)
    requires PathOk(t, p) && At(t, p).Leaf? && c < |At(t, p).exts| && 1 <= at <= |p| && |p| - at < |s|
    requires PathOk(t, p[..at - 1]) && At(t, p[..at - 1]).Node? && p[at - 1] < |At(t, p[..at - 1]).kids|
    requires var sub := At(t, p[..at - 1]).kids[p[at - 1]].sub;
      PathOk(sub, p[at..]) && At(sub, p[at..]) == At(t, p)
    ensures Flat(Split(t, p, c, at, key, s, cap, mid)) ==
            Before(t, p) + At(t, p).exts[..c + 1] + mid + After(t, p)
  {
    hide Flat, FlatKids, Before, After;
    var q, k := p[..at - 1], p[at - 1];
    var n := At(t, q);
    var sub := n.kids[k].sub;
    var l, r := SplitLeft(sub, p[at..], c), Kid(key, SplitRight(sub, p[at..], key, s, cap, mid));
    PathCut(t, p, at - 1);
    SplitLeftFlat(sub, p[at..], c);
    SplitRightFlat(sub, p[at..], key, s, cap, mid);
    AttachFlat(n, k, l, r);
    FlatSet(t, q, Attach(n, k, l, r));
    SixSums(Before(t, q), FlatKids(n.kids[..k]), Before(sub, p[at..]), At(t, p).exts[..c + 1], mid,
            After(sub, p[at..]), FlatKids(n.kids[k + 1..]), After(t, q));
  }

  lemma SixSums(a: seq<Extent>, b: seq<Extent>, c: seq<Extent>, d: seq<Extent>, e: seq<Extent>,
                f: seq<Extent>, g: seq<Extent>, h: seq<Extent>)
    ensures a + (b + (c + d) + (e + f) + g) + h == (a + b + c) + d + e + (f + g + h)
  {
  }

  lemma SplitWf(t: Tree, p: seq<nat>, c: nat, at: nat, key: nat, s: seq<nat>, cap: nat, mid: seq<Extent>, h: nat)
    requires Wf(t, h, cap) && |p| == h
    requires PathOk(t, p) && At(t, p).Leaf? && c < |At(t, p).exts| && 1 <= at <= |p| && |p| - at < |s|
    requires PathOk(t, p[..at - 1]) && At(t, p[..at - 1]).Node? && p[at - 1] < |At(t, p[..at - 1]).kids|
    requires var sub := At(t, p[..at - 1]).kids[p[at - 1]].sub;
      PathOk(sub, p[at..]) && At(sub, p[at..]) == At(t, p)
    requires |At(t, p[..at - 1]).kids| < At(t, p[..at - 1]).max
    requires mid != [] && |mid| <= cap && key == mid[0].first
    ensures var r := Split(t, p, c, at, key, s, cap, mid); Wf(r, h, cap) && r.max == t.max && r.blk == t.blk
  {
    hide Flat, FlatKids, Before, After, Wf;
    var q, k := p[..at - 1], p[at - 1];
    var n := At(t, q);
    var sub := n.kids[k].sub;
    var l, r := SplitLeft(sub, p[at..], c), Kid(key, SplitRight(sub, p[at..], key, s, cap, mid));
    WfAt(t, q, h, cap);
    KidAt(n, k, h - |q|, cap);
    SplitLeftWf(sub, p[at..], c, h - at, cap);
    SplitRightWf(sub, p[at..], key, s, cap, mid, h - at);
    AttachWf(n, k, l, r, h - |q|, cap);
    WfSet(t, q, Attach(n, k, l, r), h, cap);
  }

  lemma SplitUsesAll(t: Tree, p: seq<nat>, c: nat, at: nat, key: nat, s: seq<nat>, cap: nat, mid: seq<Extent>, b: nat)
    requires PathOk(t, p) && At(t, p).Leaf? && c < |At(t, p).exts| && 1 <= at <= |p| && |p| - at < |s|
    requires PathOk(t, p[..at - 1]) && At(t, p[..at - 1]).Node? && p[at - 1] < |At(t, p[..at - 1]).kids|
    requires var sub := At(t, p[..at - 1]).kids[p[at - 1]].sub;
      PathOk(sub, p[at..]) && At(sub, p[at..]) == At(t, p)
    ensures Uses(Split(t, p, c, at, key, s, cap, mid), b) == Uses(t, b) + Count(s[..|p| - at + 1], b)
  {
    hide Uses, UsesKids;
    var q, k := p[..at - 1], p[at - 1];
    var n := At(t, q);
    var sub := n.kids[k].sub;
    var l, r := SplitLeft(sub, p[at..], c), Kid(key, SplitRight(sub, p[at..], key, s, cap, mid));
    SplitUses(sub, p[at..], c, key, s, cap, mid, b);
    AttachUses(n, k, l, r, b);
    UsesSet(t, q, Attach(n, k, l, r), b);
  }

  // ------------------------------------------------- the paths afterwards

  function Zeros(n: nat): seq<nat>
    decreases n
  {
    if n == 0 then [] else [0] + Zeros(n - 1)
  }

  /** The way to the new leaf inside the new subtree is by first entries. */
  lemma {:induction false} RightPath(t: Tree, p: seq<nat>, key: nat, s: seq<nat>, cap: nat, mid: seq<Extent>)
    requires PathOk(t, p) && |p| < |s|
    ensures var r, z := SplitRight(t, p, key, s, cap, mid), Zeros(|p|);
      && PathOk(r, z) && At(r, z) == Leaf(s[0], cap, mid)
      && forall m :: SetAt(r, z, Leaf(s[0], cap, m)) == SplitRight(t, p, key, s, cap, m)
    decreases |p|
  {
    if p != [] {
      var sub, z := t.kids[p[0]].sub, Zeros(|p| - 1);
      RightPath(sub, p[1..], key, s, cap, mid);
      var r := SplitRight(t, p, key, s, cap, mid);
      assert Zeros(|p|)[1..] == z && Zeros(|p|)[0] == 0;
      forall m
        ensures SetAt(r, Zeros(|p|), Leaf(s[0], cap, m)) == SplitRight(t, p, key, s, cap, m)
      {
        RightPathStep(t, p, key, s, cap, mid, m);
      }
    }
  }

  lemma RightPathStep(t: Tree, p: seq<nat>, key: nat, s: seq<nat>, cap: nat, mid: seq<Extent>, m: seq<Extent>)
    requires PathOk(t, p) && 0 < |p| < |s|
    requires var r, z := SplitRight(t.kids[p[0]].sub, p[1..], key, s, cap, mid), Zeros(|p| - 1);
      PathOk(r, z) && SetAt(r, z, Leaf(s[0], cap, m)) == SplitRight(t.kids[p[0]].sub, p[1..], key, s, cap, m)
    ensures PathOk(SplitRight(t, p, key, s, cap, mid), Zeros(|p|))
    ensures SetAt(SplitRight(t, p, key, s, cap, mid), Zeros(|p|), Leaf(s[0], cap, m))
      == SplitRight(t, p, key, s, cap, m)
  {
    var r := SplitRight(t, p, key, s, cap, mid);
    assert Zeros(|p|)[1..] == Zeros(|p| - 1) && Zeros(|p|)[0] == 0;
    var k := Kid(key, SplitRight(t.kids[p[0]].sub, p[1..], key, s, cap, m));
    assert r.kids[0 := k] == [k] + t.kids[p[0] + 1..];
  }

  lemma {:induction false} LeftPath(t: Tree, p: seq<nat>, c: nat)
    requires PathOk(t, p) && At(t, p).Leaf? && c < |At(t, p).exts|
    ensures var l := SplitLeft(t, p, c);
      && PathOk(l, p) && At(l, p) == At(t, p).(exts := At(t, p).exts[..c + 1])
      && Before(l, p) == Before(t, p)
    decreases |p|
  {
    hide Flat, FlatKids;
    if p != [] {
      var k := t.kids[p[0]];
      LeftPath(k.sub, p[1..], c);
      assert SplitLeft(t, p, c).kids[..p[0]] == t.kids[..p[0]];
    }
  }

  /** The path that ext4_ext_replace_path leaves when the new extent goes right. */
  function RightOf(p: seq<nat>, at: nat): seq<nat>
    requires 1 <= at <= |p|
  {
    p[..at - 1] + ([p[at - 1] + 1] + Zeros(|p| - at))
  }

  lemma SplitRightPath(t: Tree, p: seq<nat>, c: nat, at: nat, key: nat, s: seq<nat>, cap: nat, mid: seq<Extent>)
    requires PathOk(t, p) && At(t, p).Leaf? && c < |At(t, p).exts| && 1 <= at <= |p| && |p| - at < |s|
    requires PathOk(t, p[..at - 1]) && At(t, p[..at - 1]).Node? && p[at - 1] < |At(t, p[..at - 1]).kids|
    requires var sub := At(t, p[..at - 1]).kids[p[at - 1]].sub;
      PathOk(sub, p[at..]) && At(sub, p[at..]) == At(t, p)
    ensures var r, p' := Split(t, p, c, at, key, s, cap, mid), RightOf(p, at);
      && PathOk(r, p') && At(r, p') == Leaf(s[0], cap, mid)
      && SetAt(r, p', Leaf(s[0], cap, [])) == Split(t, p, c, at, key, s, cap, [])
  {
    hide Flat, FlatKids, Before, After, Wf, Uses, SplitLeft, SplitRight, Zeros;
    var q, k := p[..at - 1], p[at - 1];
    var n := At(t, q);
    var sub := n.kids[k].sub;
    var l, r := SplitLeft(sub, p[at..], c), Kid(key, SplitRight(sub, p[at..], key, s, cap, mid));
    var a := Attach(n, k, l, r);
    RightPath(sub, p[at..], key, s, cap, mid);
    FlatSet(t, q, a);
    var z, e := Zeros(|p| - at), Leaf(s[0], cap, []);
    assert a.kids[k + 1] == r;
    var w := [k + 1] + z;
    assert w[0] == k + 1 && w[1..] == z;
    assert PathOk(a, w) && At(a, w) == At(r.sub, z);
    BeforeSplit(Split(t, p, c, at, key, s, cap, mid), q, w);
    SetSplit(Split(t, p, c, at, key, s, cap, mid), q, w, e);
    SetSet(t, q, a, SetAt(a, w, e));
    var r' := Kid(key, SplitRight(sub, p[at..], key, s, cap, []));
    assert a.kids[k + 1 := r'] == Attach(n, k, l, r').kids;
  }

  lemma SplitLeftPath(t: Tree, p: seq<nat>, c: nat, at: nat, key: nat, s: seq<nat>, cap: nat, mid: seq<Extent>)
    requires PathOk(t, p) && At(t, p).Leaf? && c < |At(t, p).exts| && 1 <= at <= |p| && |p| - at < |s|
    requires PathOk(t, p[..at - 1]) && At(t, p[..at - 1]).Node? && p[at - 1] < |At(t, p[..at - 1]).kids|
    requires var sub := At(t, p[..at - 1]).kids[p[at - 1]].sub;
      PathOk(sub, p[at..]) && At(sub, p[at..]) == At(t, p)
    ensures var r := Split(t, p, c, at, key, s, cap, mid);
      && PathOk(r, p) && At(r, p) == At(t, p).(exts := At(t, p).exts[..c + 1])
      && Before(r, p) == Before(t, p)
  {
    hide Flat, FlatKids, Wf, Uses, SplitLeft, SplitRight, PathOk, At, SetAt, Before, After;
    var q, k := p[..at - 1], p[at - 1];
    var n := At(t, q);
    var sub := n.kids[k].sub;
    var l, r := SplitLeft(sub, p[at..], c), Kid(key, SplitRight(sub, p[at..], key, s, cap, mid));
    var a := Attach(n, k, l, r);
    PathCut(t, p, at - 1);
    LeftPath(sub, p[at..], c);
    FlatSet(t, q, a);
    assert p == q + ([k] + p[at..]);
    assert a.kids[k].sub == l && a.kids[..k] == n.kids[..k];
    KidPath(a, k, p[at..]);
    BeforeSplit(Split(t, p, c, at, key, s, cap, mid), q, [k] + p[at..]);
  }

  lemma KidPath(t: Tree, k: nat, v: seq<nat>)
    requires t.Node? && k < |t.kids| && PathOk(t.kids[k].sub, v)
    ensures PathOk(t, [k] + v) && At(t, [k] + v) == At(t.kids[k].sub, v)
    ensures Before(t, [k] + v) == FlatKids(t.kids[..k]) + Before(t.kids[k].sub, v)
  {
    hide Flat, FlatKids;
    assert ([k] + v)[1..] == v;
  }
}
