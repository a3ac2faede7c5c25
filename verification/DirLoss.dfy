/** Two directories that an insertion damages: one loses the new name, one gets its names twice. */
module DirLoss {
  import opened DirBlock
  import opened DirIndex
  import opened DirSplit
  import opened DirTree
  import HashTree

  /** A name of n + 1 characters. */
  function Word(c: char, n: nat): (w: string)
    ensures |w| == n + 1 && w[0] == c
  {
    [c] + seq(n, i => 'x')
  }

  /** Hashing by the first letter. */
  const FIRST: string -> nat := (n: string) => if n == "" then 0 else 2 * (n[0] as int)

  const NAMES: seq<Dirent> :=
    [Dirent(Word('a', 243), 1), Dirent(Word('b', 254), 2), Dirent(Word('c', 254), 3), Dirent(Word('d', 231), 4)]

  const LATE := Dirent(Word('z', 254), 5)

  lemma FourBytes(a: Dirent, b: Dirent, c: Dirent, d: Dirent)
    ensures var f := [a, b, c, d];
      && Bytes(f) == Need(a.name) + Need(b.name) + Need(c.name) + Need(d.name)
      && Bytes(f[..0]) == 0 && Bytes(f[..1]) == Need(a.name) && Bytes(f[..2]) == Need(a.name) + Need(b.name)
      && Bytes(f[1..]) == Need(b.name) + Need(c.name) + Need(d.name)
  {
    hide Need, Bytes;
    var f := [a, b, c, d];
    BytesNone(f);
    BytesNext(f, 0);
    BytesNext(f, 1);
    BytesNext(f, 2);
    BytesNext(f, 3);
    CutBytes(f, 1);
  }

  lemma NameSizes()
    ensures Need(NAMES[0].name) == 252 && Need(NAMES[1].name) == 264 && Need(NAMES[2].name) == 264
    ensures Need(NAMES[3].name) == 240 && Need(LATE.name) == 264
    ensures Bytes(NAMES) == 1020 && Proper(NAMES) && Proper([LATE])
  {
    hide Bytes;
    FourBytes(NAMES[0], NAMES[1], NAMES[2], NAMES[3]);
  }

  predicate Rising(f: seq<Dirent>, hash: string -> nat) {
    forall i, j :: 0 <= i < j < |f| ==> hash(f[i].name) < hash(f[j].name)
  }

  /** Two lists of the same names in strict order of their hashes are the same. */
  lemma {:induction false} OneOrder(f: seq<Dirent>, w: seq<Dirent>, hash: string -> nat)
    requires multiset(f) == multiset(w) && ByHash(w, hash) && Rising(f, hash)
    ensures f == w
    decreases |f|
  {
    assert |multiset(f)| == |f| && |multiset(w)| == |w|;
    if f != [] {
      var n := |f| - 1;
      SameLast(f, w, hash);
      CutNext(f, n);
      CutNext(w, n);
      assert f[..|f|] == f && w[..|w|] == w;
      BagOut(f[..n], f[n], []);
      BagOut(w[..n], w[n], []);
      assert f[..n] + [f[n]] + [] == f && w[..n] + [w[n]] + [] == w && f[..n] + [] == f[..n] && w[..n] + [] == w[..n];
      FrontOrder(f, w, hash);
      OneOrder(f[..n], w[..n], hash);
    }
  }

  lemma FrontOrder(f: seq<Dirent>, w: seq<Dirent>, hash: string -> nat)
    requires ByHash(w, hash) && Rising(f, hash) && f != [] && w != []
    ensures ByHash(w[..|w| - 1], hash) && Rising(f[..|f| - 1], hash)
  {
  }

  lemma SameLast(f: seq<Dirent>, w: seq<Dirent>, hash: string -> nat)
    requires multiset(f) == multiset(w) && ByHash(w, hash) && Rising(f, hash) && f != [] && |f| == |w|
    ensures f[|f| - 1] == w[|f| - 1]
  {
    var n := |f| - 1;
    assert f[n] in multiset(w) && w[n] in multiset(f);
    var j :| 0 <= j <= n && f[j] == w[n];
    assert hash(f[j].name) <= hash(f[n].name);
    var i :| 0 <= i <= n && w[i] == f[n];
    assert hash(w[i].name) <= hash(w[n].name);
  }

  /** A directory of one leaf block. */
  lemma OneLeaf(leaves: Leaves, size: nat, hash: string -> nat)
    requires 1 in leaves && Chain(leaves[1], size) && Tidy(leaves[1]) && Proper(Live(leaves[1]))
    ensures Dir([Idx(0, 1)], leaves, size, 2, hash) && Content([Idx(0, 1)], leaves) == multiset(Live(leaves[1]))
  {
    hide Live, Chain, Tidy, Proper;
    ContentOne(Idx(0, 1), leaves);
    assert LeafOk(leaves, 1, size);
  }

  /** The names are divided after the first: the other half has no room for one more long name. */
  lemma LateHalf(lo: seq<Dirent>, hi: seq<Dirent>)
    requires Halves(NAMES, lo, hi, 1024, FIRST)
    ensures FIRST(LATE.name) >= HalfKey(lo, hi, FIRST) && Bytes(hi) + Need(LATE.name) > 1024
  {
    hide Need, Bytes, ByHash, HalfKey;
    NameSizes();
    NamesRise();
    FourBytes(NAMES[0], NAMES[1], NAMES[2], NAMES[3]);
    OneOrder(NAMES, lo + hi, FIRST);
    HalfParts(lo, hi);
    if |lo| > 1 { BytesMore(NAMES, 2, |lo|); }
    LateKey(lo, hi);
  }

  lemma NamesRise()
    ensures Rising(NAMES, FIRST)
  {
  }

  lemma HalfParts(lo: seq<Dirent>, hi: seq<Dirent>)
    requires lo + hi == NAMES
    ensures lo == NAMES[..|lo|] && hi == NAMES[|lo|..]
  {
  }

  lemma LateKey(lo: seq<Dirent>, hi: seq<Dirent>)
    requires |lo| == 1 && lo == NAMES[..1] && hi == NAMES[1..]
    ensures HalfKey(lo, hi, FIRST) <= FIRST(LATE.name)
  {
    assert lo[0] == NAMES[0] && hi[0] == NAMES[1];
  }

  lemma {:induction false} BytesMore(f: seq<Dirent>, i: nat, j: nat)
    requires i <= j <= |f|
    ensures Bytes(f[..i]) <= Bytes(f[..j])
    decreases j
  {
    hide Bytes, Need;
    if i < j {
      BytesMore(f, i, j - 1);
      BytesNext(f, j - 1);
    }
  }

  /** In a valid directory with blocks of 1024 bytes an insertion reports success and the name is not there. */
  method LoseName() returns (t: HashTree.HashTree, st: HashTree.Status)
    ensures fresh(t) && t.Valid() && t.size == 1024 && st.Ok?
    ensures Content(t.F(), t.leaves) == multiset(NAMES) && LATE !in NAMES
  {
    hide Dir, Live, Bytes, Content, Packed, Chain, Tidy, Halves, HalfKey, Proper, Need, HasSpace;
    NameSizes();
    t := new HashTree.HashTree(1024, FIRST);
    t.leaves := map[1 := Packed(NAMES, 1024)];
    assert Half(t.leaves[1], NAMES, 1024);
    HalfOk(t.leaves[1], NAMES, 1024);
    HalfSpace(t.leaves[1], NAMES, 1024, LATE.name);
    OneLeaf(t.leaves, 1024, FIRST);
    assert t.F() == [Idx(0, 1)];
    ghost var leaf, added, i, j, lo, hi;
    st, leaf, added, i, j, lo, hi := t.AddEntry(LATE, 0);
    LateHalf(lo, hi);
  }

  /** Four records of a quarter of the block each, with short names. */
  const WIDE: seq<Rec> := [Rec(1, 256, "a"), Rec(2, 256, "b"), Rec(3, 256, "c"), Rec(4, 256, "d")]

  lemma WideOk()
    ensures Chain(WIDE, 1024) && Tidy(WIDE) && !HasSpace(WIDE, LATE.name)
    ensures Live(WIDE) == [Dirent("a", 1), Dirent("b", 2), Dirent("c", 3), Dirent("d", 4)]
    ensures Proper(Live(WIDE)) && Bytes(Live(WIDE)) == 48
  {
    hide Bytes;
    assert Off(WIDE, 4) == 1024 by {
      OffNext(WIDE, 0);
      OffNext(WIDE, 1);
      OffNext(WIDE, 2);
      OffNext(WIDE, 3);
    }
    assert WIDE[1..] == [WIDE[1], WIDE[2], WIDE[3]] && WIDE[1..][1..] == [WIDE[2], WIDE[3]];
    assert WIDE[1..][1..][1..] == [WIDE[3]] && [WIDE[3]][1..] == [];
    FourBytes(Dirent("a", 1), Dirent("b", 2), Dirent("c", 3), Dirent("d", 4));
  }

  /** In this valid directory an insertion leaves every old name in two blocks. */
  method CopyNames() returns (t: HashTree.HashTree, st: HashTree.Status)
    ensures fresh(t) && t.size == 1024 && st.Ok?
    ensures Content(t.F(), t.leaves) == multiset(Live(WIDE)) + multiset(Live(WIDE)) + multiset{LATE}
  {
    hide Dir, Live, Bytes, Content, Chain, Tidy, Halves, HalfKey, Proper, Need, HasSpace;
    NameSizes();
    WideOk();
    t := new HashTree.HashTree(1024, FIRST);
    t.leaves := map[1 := WIDE];
    OneLeaf(t.leaves, 1024, FIRST);
    assert t.F() == [Idx(0, 1)];
    ghost var leaf, added, i, j, lo, hi;
    st, leaf, added, i, j, lo, hi := t.AddEntry(LATE, 0);
  }

  /** In an index of four entries whose third one has come out of order, every search below the key of the fourth
      ends at the third: the names of the first block, and those of the second that are not copied, are passed by. */
  lemma SearchAstray(es: seq<Idx>, h: nat)
    requires |es| == 4 && es[2].key <= h < es[3].key
    ensures HashTree.Searched(es, h, 1, 3) == 2
    ensures h < es[1].key ==> !IsPos(es, h, 2) || !Ordered(es)
  {
    assert HashTree.Searched(es, h, 3, 3) == HashTree.Searched(es, h, 3, 2) == 2;
  }
}
