/** What inserting an extent means, and the tree surgery that does it. */
module ExtentInsert {
  import opened ExtentTree
  import opened ExtentSearch

  // ------------------------------------------------------------- the effect

  predicate LengthsFit(e: Extent, n: Extent) {
    e.len + n.len <= (if e.unwritten then MAX_UNWRITTEN_LEN else MAX_WRITTEN_LEN)
  }

  /** ext4_ext_can_append; the unwritten state of the new extent is not looked at. */
  predicate CanAppend(e: Extent, n: Extent) {
    e.start + e.len == n.start && LengthsFit(e, n) && e.first + e.len == n.first
  }

  /** ext4_ext_can_prepend. */
  predicate CanPrepend(e: Extent, n: Extent) {
    n.start + n.len == e.start && LengthsFit(e, n) && n.first + n.len == e.first
  }

  /** The 16 bits of an entry that hold length and state: the highest is set for an unwritten extent. */
  function CountOf(e: Extent): nat { if e.unwritten then e.len + 32768 else e.len }

  /** Length and state are read back from the 16 bits; a count of exactly 32768 is a written extent. */
  predicate CountReads(e: Extent) {
    var count := CountOf(e);
    && count < 65536
    && e.len == (if count <= 32768 then count else count - 32768)
    && e.unwritten == (count > 32768)
  }

  predicate CountsRead(f: seq<Extent>) { forall i :: 0 <= i < |f| ==> CountReads(f[i]) }

  /** n touches e on disk and in the file, and the count of e can hold both. */
  predicate Continues(e: Extent, n: Extent) {
    e.start + e.len == n.start && e.first + e.len == n.first && CountReads(e.(len := e.len + n.len))
  }

  /** Two extents merge exactly if they touch on disk and in the file, and the count of the longer one is read back. */
  lemma MergesWhileRead(e: Extent, n: Extent)
    requires e.len > 0 && n.len > 0
    ensures CanAppend(e, n) <==> Continues(e, n)
    ensures CanPrepend(e, n) <==>
            n.start + n.len == e.start && n.first + n.len == e.first && CountReads(e.(len := e.len + n.len))
  {
  }

  function Appended(e: Extent, n: Extent): Extent { e.(len := e.len + n.len) }

  /** The prepend merge of ext4_ext_insert_leaf keeps the old physical start. */
  function Prepended(e: Extent, n: Extent): Extent { e.(first := n.first, len := e.len + n.len) }

  /** The list after inserting n with the search position at g; `merge` is false for
      EXT4_EXT_NO_COMBINE. */
  function InsertFlat(f: seq<Extent>, g: nat, n: Extent, merge: bool): seq<Extent>
    requires f != [] ==> g < |f|
  {
    if f == [] then [n]
    else if merge && CanAppend(f[g], n) then f[g := Appended(f[g], n)]
    else if merge && CanPrepend(f[g], n) then f[g := Prepended(f[g], n)]
    else if n.first > f[g].first then f[..g + 1] + [n] + f[g + 1..]
    else f[..g] + [n] + f[g..]
  }

  /** n covers none of the blocks of f; g is its search position. */
  predicate Fits(f: seq<Extent>, g: nat, n: Extent) {
    && n.len > 0
    && (f != [] ==>
          && IsPos(f, n.first, g)
          && (f[g].first <= n.first ==> f[g].first + f[g].len <= n.first)
          && (n.first < f[g].first ==> n.first + n.len <= f[g].first)
          && (g + 1 < |f| ==> n.first + n.len <= f[g + 1].first))
  }

  /** The merge that ext4_ext_insert_leaf would make loses nothing. */
  predicate SafeMerge(f: seq<Extent>, g: nat, n: Extent, merge: bool)
    requires f != [] ==> g < |f|
  {
    f != [] && merge ==>
      if CanAppend(f[g], n) then f[g].unwritten == n.unwritten else !CanPrepend(f[g], n)
  }

  lemma InsertSorted(f: seq<Extent>, g: nat, n: Extent, merge: bool)
    requires Sorted(f) && Fits(f, g, n)
    ensures Sorted(InsertFlat(f, g, n, merge))
  {
    hide Sorted;
    if f == [] {
      OneSorted(n);
    } else {
      LenAt(f, g);
      if merge && (CanAppend(f[g], n) || CanPrepend(f[g], n)) {
        MergeSorted(f, g, n, merge);
      } else if n.first > f[g].first {
        assert f == f[..g + 1] + f[g + 1..];
        GapSorted(f[..g + 1], n, f[g + 1..]);
      } else {
        assert f == f[..g] + f[g..];
        GapSorted(f[..g], n, f[g..]);
      }
    }
  }

  lemma InsertReads(f: seq<Extent>, g: nat, n: Extent, merge: bool)
    requires Sorted(f) && n.len > 0 && (f != [] ==> g < |f|)
    requires CountsRead(f) && CountReads(n)
    ensures CountsRead(InsertFlat(f, g, n, merge))
  {
    hide CanAppend, CanPrepend;
    if f != [] {
      LenAt(f, g);
      MergesWhileRead(f[g], n);
      CutsRead(f, g);
      CutsRead(f, g + 1);
    }
  }

  lemma CutsRead(f: seq<Extent>, g: nat)
    requires CountsRead(f) && g <= |f|
    ensures CountsRead(f[..g]) && CountsRead(f[g..])
  {
    hide CountReads;
  }

  /** The new extent goes into the one before it whenever the count of that one can hold both. */
  lemma InsertAppends(f: seq<Extent>, g: nat, n: Extent)
    requires Sorted(f) && n.len > 0 && g < |f|
    requires Continues(f[g], n)
    ensures CanAppend(f[g], n) && InsertFlat(f, g, n, true) == f[g := f[g].(len := f[g].len + n.len)]
  {
    LenAt(f, g);
    MergesWhileRead(f[g], n);
  }

  lemma LenAt(f: seq<Extent>, g: nat)
    requires Sorted(f) && g < |f|
    ensures f[g].len > 0
  {
  }

  lemma OneSorted(n: Extent)
    requires n.len > 0
    ensures Sorted([n])
  {
  }

  lemma SortedJoin(a: seq<Extent>, c: seq<Extent>)
    requires Sorted(a) && Sorted(c)
    requires a != [] && c != [] ==> a[|a| - 1].first + a[|a| - 1].len <= c[0].first
    ensures Sorted(a + c)
  {
    FirstsOrdered(c);
    forall i, j | 0 <= i < |a| && 0 <= j < |c|
      ensures a[i].first + a[i].len <= c[j].first
    {
      assert i < |a| - 1 ==> a[i].first + a[i].len <= a[|a| - 1].first;
    }
    SortedApart(a, c);
  }

  lemma SortedApart(a: seq<Extent>, c: seq<Extent>)
    requires Sorted(a) && Sorted(c)
    requires forall i, j :: 0 <= i < |a| && 0 <= j < |c| ==> a[i].first + a[i].len <= c[j].first
    ensures Sorted(a + c)
  {
    var w := a + c;
    assert forall i :: 0 <= i < |a| ==> w[i] == a[i];
    assert forall i :: |a| <= i < |w| ==> w[i] == c[i - |a|];
  }

  lemma GapSorted(a: seq<Extent>, n: Extent, c: seq<Extent>)
    requires Sorted(a + c) && n.len > 0
    requires a != [] ==> a[|a| - 1].first + a[|a| - 1].len <= n.first
    requires c != [] ==> n.first + n.len <= c[0].first
    ensures Sorted(a + [n] + c)
  {
    hide Sorted;
    assert a + [] + c == a + c;
    SortedPart(a, [], c);
    OneSorted(n);
    SortedJoin(a, [n]);
    SortedJoin(a + [n], c);
  }

  lemma MergeSorted(f: seq<Extent>, g: nat, n: Extent, merge: bool)
    requires Sorted(f) && f != [] && Fits(f, g, n) && merge && (CanAppend(f[g], n) || CanPrepend(f[g], n))
    ensures Sorted(InsertFlat(f, g, n, merge))
  {
    var w := InsertFlat(f, g, n, merge);
    forall i, j | 0 <= i < j < |w|
      ensures w[i].first + w[i].len <= w[j].first
    {
      assert f[i].first + f[i].len <= f[j].first;
      if i == g && j > g + 1 { assert f[g + 1].first + f[g + 1].len <= f[j].first; }
    }
  }

  /** The map after an insertion, at one block. */
  function Updated(f: seq<Extent>, n: Extent, b: nat): Option<Mapping> {
    if Covers(n, b) then Some(Mapping(n.start + (b - n.first), n.unwritten)) else Lookup(f, b)
  }

  lemma {:induction false} LookupConcat(a: seq<Extent>, c: seq<Extent>, b: nat)
    ensures Lookup(a + c, b) == if Lookup(a, b).Some? then Lookup(a, b) else Lookup(c, b)
    decreases |a|
  {
    if a == [] {
      assert a + c == c;
    } else {
      LookupConcat(a[1..], c, b);
      assert (a + c)[1..] == a[1..] + c;
    }
  }

  lemma LookupOne(e: Extent, b: nat)
    ensures Lookup([e], b) == if Covers(e, b) then Some(Mapping(e.start + (b - e.first), e.unwritten)) else None
  {
    assert Lookup([e][1..], b) == None;
  }

  /** An extent put into a gap. */
  lemma LookupGap(a: seq<Extent>, n: Extent, c: seq<Extent>, b: nat)
    requires Sorted(a + [n] + c)
    ensures Lookup(a + [n] + c, b) == Updated(a + c, n, b)
  {
    LookupConcat(a + [n], c, b);
    LookupConcat(a, [n], b);
    LookupConcat(a, c, b);
    LookupOne(n, b);
    if Covers(n, b) {
      var w := a + [n] + c;
      assert w[|a|] == n;
      LookupNone(a, b);
      forall i | 0 <= i < |a| ensures !Covers(a[i], b) { assert w[i] == a[i]; }
    }
  }

  /** One extent in the middle, the rest of the list left alone. */
  lemma LookupReplaced(f: seq<Extent>, g: nat, e: Extent, b: nat)
    requires g < |f| && Sorted(f) && Sorted(f[g := e])
    ensures Lookup(f[g := e], b) ==
            if Covers(e, b) then Some(Mapping(e.start + (b - e.first), e.unwritten))
            else if Covers(f[g], b) then None
            else Lookup(f, b)
  {
    var w := f[g := e];
    if Covers(e, b) {
      LookupAt(w, g, b);
    } else if Covers(f[g], b) {
      LookupNone(w, b);
      forall i | 0 <= i < |w| ensures !Covers(w[i], b) {
        if i < g { assert f[i].first + f[i].len <= f[g].first; }
        if g < i { assert f[g].first + f[g].len <= f[i].first; }
      }
    } else {
      LookupNone(w, b);
      LookupNone(f, b);
      if i :| 0 <= i < |f| && Covers(f[i], b) {
        LookupAt(f, i, b);
        assert w[i] == f[i];
        LookupAt(w, i, b);
      }
    }
  }

  /** An insertion is an update of the map at exactly the new blocks, if and only if the merge, when
      there is one, is an append of the same kind of extent. */
  lemma InsertIsUpdate(f: seq<Extent>, g: nat, n: Extent, merge: bool)
    requires Sorted(f) && Fits(f, g, n)
    ensures SafeMerge(f, g, n, merge) <==> forall b :: Lookup(InsertFlat(f, g, n, merge), b) == Updated(f, n, b)
  {
    hide Lookup;
    if SafeMerge(f, g, n, merge) {
      forall b ensures Lookup(InsertFlat(f, g, n, merge), b) == Updated(f, n, b) { SafeUpdate(f, g, n, merge, b); }
    } else {
      InsertSorted(f, g, n, merge);
      LookupAt(InsertFlat(f, g, n, merge), g, n.first);
      assert Lookup(InsertFlat(f, g, n, merge), n.first) != Updated(f, n, n.first);
    }
  }

  lemma SafeUpdate(f: seq<Extent>, g: nat, n: Extent, merge: bool, b: nat)
    requires Sorted(f) && Fits(f, g, n) && SafeMerge(f, g, n, merge)
    ensures Lookup(InsertFlat(f, g, n, merge), b) == Updated(f, n, b)
  {
    hide Lookup, Sorted;
    InsertSorted(f, g, n, merge);
    if f == [] {
      LookupOne(n, b);
      LookupNone(f, b);
    } else if merge && CanAppend(f[g], n) {
      LookupReplaced(f, g, Appended(f[g], n), b);
      if Covers(f[g], b) { LookupAt(f, g, b); }
    } else if n.first > f[g].first {
      LookupGap(f[..g + 1], n, f[g + 1..], b);
      assert f == f[..g + 1] + f[g + 1..];
    } else {
      LookupGap(f[..g], n, f[g..], b);
      assert f == f[..g] + f[g..];
    }
  }

  /** A written extent whose logical and physical blocks both end where the first extent of the file
      begins: the new block is mapped to the old start. */
  lemma PrependLosesMapping()
    ensures var f, n := [Extent(10, 100, 5, false)], Extent(9, 99, 1, false);
      && Sorted(f) && Fits(f, 0, n)
      && Lookup(InsertFlat(f, 0, n, true), 9) == Some(Mapping(100, false))
      && Lookup(InsertFlat(f, 0, n, true), 10) == Some(Mapping(101, false))
  {
    var f, n := [Extent(10, 100, 5, false)], Extent(9, 99, 1, false);
    LookupOne(Extent(9, 100, 6, false), 9);
    LookupOne(Extent(9, 100, 6, false), 10);
    assert InsertFlat(f, 0, n, true) == [Extent(9, 100, 6, false)];
  }

  /** Inserting below a leaf is inserting in the whole list. */
  lemma InsertInside(a: seq<Extent>, f: seq<Extent>, d: seq<Extent>, c: nat, n: Extent, merge: bool)
    requires c < |f|
    ensures |a| + c < |a + f + d| && (a + f + d)[|a| + c] == f[c]
    ensures InsertFlat(a + f + d, |a| + c, n, merge) == a + InsertFlat(f, c, n, merge) + d
  {
    hide CanAppend, CanPrepend, Appended, Prepended;
    assert (a + f + d)[|a| + c] == f[c];
    SetInside(a, f, d, c, Appended(f[c], n));
    SetInside(a, f, d, c, Prepended(f[c], n));
    PutInside(a, f, d, c, n);
    PutInside(a, f, d, c + 1, n);
  }

  lemma SetInside(a: seq<Extent>, f: seq<Extent>, d: seq<Extent>, c: nat, x: Extent)
    requires c < |f|
    ensures (a + f + d)[|a| + c := x] == a + f[c := x] + d
  {
  }

  lemma PutInside(a: seq<Extent>, f: seq<Extent>, d: seq<Extent>, c: nat, n: Extent)
    requires c <= |f|
    ensures (a + f + d)[..|a| + c] + [n] + (a + f + d)[|a| + c..] == a + (f[..c] + [n] + f[c..]) + d
  {
    assert (a + f + d)[..|a| + c] == a + f[..c] && (a + f + d)[|a| + c..] == f[c..] + d;
  }

  // -------------------------------------------------------- correcting keys

  predicate AllZero(p: seq<nat>) { forall i :: 0 <= i < |p| ==> p[i] == 0 }

  /** ext4_ext_correct_indexes: the keys on the path become `border`, from the leaf up to the first
      level that is entered by another entry than the first of its node. */
  function Corrected(t: Tree, p: seq<nat>, border: nat): Tree
    requires PathOk(t, p)
    decreases |p|
  {
    if p == [] then t
    else
      var k := t.kids[p[0]];
      t.(kids := t.kids[p[0] := Kid(if AllZero(p[1..]) then border else k.key, Corrected(k.sub, p[1..], border))])
  }

  lemma {:induction false} CorrectedFlat(t: Tree, p: seq<nat>, border: nat)
    requires PathOk(t, p)
    ensures Flat(Corrected(t, p, border)) == Flat(t)
    decreases |p|
  {
    if p != [] {
      var c := p[0];
      CorrectedFlat(t.kids[c].sub, p[1..], border);
      var kids := Corrected(t, p, border).kids;
      FlatKidsAt(t.kids, c);
      FlatKidsAt(kids, c);
      assert kids[..c] == t.kids[..c] && kids[c + 1..] == t.kids[c + 1..];
    }
  }

  /** A leaf gets a new first block; correcting the keys makes the tree well formed again. */
  lemma {:induction false} CorrectedWf(t: Tree, p: seq<nat>, u: Tree, h: nat, cap: nat, border: nat)
    requires PathOk(t, p) && Wf(t, h, cap) && |p| <= h && Wf(u, h - |p|, cap)
    requires p != [] ==> u.max == cap
    requires Flat(u) != [] && border == Flat(u)[0].first
    ensures PathOk(SetAt(t, p, u), p)
    ensures var r := Corrected(SetAt(t, p, u), p, border);
      && Wf(r, h, cap) && Flat(r) != []
      && (p != [] ==> r.max == t.max)
      && (if AllZero(p) then Flat(r)[0].first == border else Flat(t) != [] && Flat(r)[0] == Flat(t)[0])
    decreases |p|
  {
    hide Wf, Flat, Before, After, FlatKids;
    FlatSet(t, p, u);
    if p != [] {
      var c, q := p[0], p[1..];
      KidAt(t, c, h, cap);
      var old' := t.kids[c];
      CorrectedWf(old'.sub, q, u, h - 1, cap, border);
      var sub := Corrected(SetAt(old'.sub, q, u), q, border);
      var k := Kid(if AllZero(q) then border else old'.key, sub);
      assert WfKid(k, h - 1, cap);
      KidReplaced(t, c, k, h, cap);
      assert Corrected(SetAt(t, p, u), p, border) == t.(kids := t.kids[c := k]) by {
        assert SetAt(t, p, u).kids[c].sub == SetAt(old'.sub, q, u);
        assert SetAt(t, p, u).kids[c := k] == t.kids[c := k];
      }
      assert AllZero(p) <==> c == 0 && AllZero(q) by { assert p == [c] + q; }
    } else {
      assert Corrected(SetAt(t, p, u), p, border) == u;
    }
  }

  lemma KidAt(t: Tree, c: nat, h: nat, cap: nat)
    requires Wf(t, h, cap) && t.Node? && c < |t.kids|
    ensures h > 0 && WfKid(t.kids[c], h - 1, cap)
    ensures Wf(t.kids[c].sub, h - 1, cap) && t.kids[c].sub.max == cap
    ensures Flat(t.kids[c].sub) != [] && t.kids[c].key == Flat(t.kids[c].sub)[0].first
  {
  }

  /** A node with one entry replaced. */
  lemma KidReplaced(t: Tree, c: nat, k: Kid, h: nat, cap: nat)
    requires Wf(t, h, cap) && t.Node? && c < |t.kids| && WfKid(k, h - 1, cap)
    ensures var r := t.(kids := t.kids[c := k]);
      && Wf(r, h, cap) && Flat(r) != [] && Flat(t) != []
      && Flat(k.sub) != [] && Flat(t.kids[c].sub) != [] && k.key == Flat(k.sub)[0].first
      && (if c == 0 then Flat(r)[0] == Flat(k.sub)[0] && Flat(t)[0] == Flat(t.kids[0].sub)[0]
          else Flat(r)[0] == Flat(t)[0])
  {
    var r := t.(kids := t.kids[c := k]);
    assert forall i :: 0 <= i < |r.kids| ==> WfKid(r.kids[i], h - 1, cap);
    FirstOfNode(t, c, h, cap);
    FirstOfNode(r, c, h, cap);
  }

  lemma FirstOfNode(t: Tree, c: nat, h: nat, cap: nat)
    requires Wf(t, h, cap) && t.Node? && c < |t.kids|
    ensures Flat(t) != [] && Flat(t.kids[0].sub) != [] && Flat(t)[0] == Flat(t.kids[0].sub)[0]
  {
    NodeEnds(t, 0, h, cap);
  }

  /** Correcting keys that are right changes nothing. */
  lemma {:induction false} CorrectedSame(t: Tree, p: seq<nat>, h: nat, cap: nat, border: nat)
    requires PathOk(t, p) && Wf(t, h, cap)
    requires Flat(At(t, p)) != [] && border == Flat(At(t, p))[0].first
    ensures Corrected(t, p, border) == t
    ensures AllZero(p) ==> Flat(t) != [] && Flat(t)[0].first == border
    decreases |p|
  {
    if p != [] {
      var c := p[0];
      assert WfKid(t.kids[c], h - 1, cap);
      CorrectedSame(t.kids[c].sub, p[1..], h - 1, cap, border);
      FirstOfNode(t, c, h, cap);
      assert t.kids[c := t.kids[c]] == t.kids;
    }
  }

  function SetKey(t: Tree, p: seq<nat>, c: nat, key: nat): Tree
    requires PathOk(t, p) && At(t, p).Node? && c < |At(t, p).kids|
  {
    var n := At(t, p);
    SetAt(t, p, n.(kids := n.kids[c := Kid(key, n.kids[c].sub)]))
  }

  /** Levels above one that is not entered by its first entry keep their keys. */
  lemma {:induction false} CorrectedPrefix(t: Tree, p: seq<nat>, q: seq<nat>, border: nat)
    requires PathOk(t, p) && PathOk(At(t, p), q)
    requires p != [] ==> q != [] && q[0] != 0
    ensures PathOk(t, p + q)
    ensures Corrected(t, p + q, border) == SetAt(t, p, Corrected(At(t, p), q, border))
    decreases |p|
  {
    PathSplit(t, p, q);
    if p == [] {
      assert p + q == q;
    } else {
      assert (p + q)[1..] == p[1..] + q;
      assert (p[1..] + q)[|p| - 1] != 0;
      CorrectedPrefix(t.kids[p[0]].sub, p[1..], q, border);
    }
  }

  /** One level of the upward loop. */
  lemma CorrectedStep(t: Tree, p: seq<nat>, k: nat, border: nat, r: Tree)
    requires k < |p| && PathOk(t, p) && PathOk(t, p[..k + 1]) && PathOk(At(t, p[..k + 1]), p[k + 1..])
    requires AllZero(p[k + 1..])
    requires r == SetAt(t, p[..k + 1], Corrected(At(t, p[..k + 1]), p[k + 1..], border))
    ensures PathOk(t, p[..k]) && PathOk(At(t, p[..k]), p[k..])
    ensures PathOk(r, p[..k]) && At(r, p[..k]).Node? && p[k] < |At(r, p[..k]).kids|
    ensures SetKey(r, p[..k], p[k], border) == SetAt(t, p[..k], Corrected(At(t, p[..k]), p[k..], border))
  {
    var q, c := p[..k], p[k];
    assert p[..k + 1] == q + [c] && p == q + p[k..] && p[k..][1..] == p[k + 1..];
    PathPrefix(t, q, [c]);
    PathSplit(t, q, p[k..]);
    var n := At(t, q);
    var v := Corrected(n.kids[c].sub, p[k + 1..], border);
    assert At(n, [c]) == At(n.kids[c].sub, [c][1..]);
    SetSplit(t, q, [c], v);
    assert SetAt(n, [c], v) == n.(kids := n.kids[c := Kid(n.kids[c].key, v)]);
    var n' := SetAt(n, [c], v);
    FlatSet(t, q, n');
    SetSet(t, q, n', n'.(kids := n'.kids[c := Kid(border, v)]));
    assert n'.kids[c := Kid(border, v)] == n.kids[c := Kid(border, v)];
  }
}
