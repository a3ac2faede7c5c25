/** The block map of an ext2/ext3 inode: twelve direct pointers and three trees of indirect blocks. */
module IndirectMap {
  import opened Division
  import opened IndirectTree

  const DIRECT: nat := 12

  datatype Status = Ok | Eio | Enospc | Einval

  /** Logical blocks that l levels of indirection reach. */
  function Limit(n: nat, l: nat): nat { if l == 0 then DIRECT else Limit(n, l - 1) + Per(n, l) }

  /** The block a logical block is mapped to; 0 for a hole. */
  function MapAt(direct: seq<Ptr>, indirect: seq<Ptr>, n: nat, b: nat): nat
    requires n > 0 && |direct| == DIRECT && |indirect| == 3
  {
    if b < DIRECT then Addr(direct[b])
    else if b < Limit(n, 1) then Lookup(indirect[0], Digits(n, 1, b - Limit(n, 0)))
    else if b < Limit(n, 2) then Lookup(indirect[1], Digits(n, 2, b - Limit(n, 1)))
    else if b < Limit(n, 3) then Lookup(indirect[2], Digits(n, 3, b - Limit(n, 2)))
    else 0
  }

  /** Indirect blocks that are missing on the way to a logical block. */
  function MissingTables(indirect: seq<Ptr>, n: nat, b: nat): nat
    requires n > 0 && |indirect| == 3
  {
    if b < DIRECT then 0
    else if b < Limit(n, 1) then Missing(indirect[0], Digits(n, 1, b - Limit(n, 0)))
    else if b < Limit(n, 2) then Missing(indirect[1], Digits(n, 2, b - Limit(n, 1)))
    else if b < Limit(n, 3) then Missing(indirect[2], Digits(n, 3, b - Limit(n, 2)))
    else 0
  }

  /** The level of indirection, 0 when the block is out of reach. */
  method LevelOf(n: nat, b: nat) returns (l: nat)
    requires n > 0 && b >= DIRECT
    ensures l <= 3 && (l == 0 <==> b >= Limit(n, 3))
    ensures l > 0 ==> Limit(n, l - 1) <= b < Limit(n, l)
  {
    l := 0;
    var i := 1;
    while i < 4
      invariant 1 <= i <= 4 && l == 0 && b >= Limit(n, i - 1)
    {
      if b < Limit(n, i) { return i; }
      i := i + 1;
    }
  }

  lemma MapIs(direct: seq<Ptr>, indirect: seq<Ptr>, n: nat, b: nat, l: nat)
    requires n > 0 && |direct| == DIRECT && |indirect| == 3 && 0 < l <= 3 && Limit(n, l - 1) <= b < Limit(n, l)
    ensures MapAt(direct, indirect, n, b) == Lookup(indirect[l - 1], Digits(n, l, b - Limit(n, l - 1)))
    ensures MissingTables(indirect, n, b) == Missing(indirect[l - 1], Digits(n, l, b - Limit(n, l - 1)))
    ensures b - Limit(n, l - 1) < Per(n, l)
  {
    hide Digits, Lookup, Per, Missing;
    LimitsGrow(n);
    LimitStep(n, l);
    FirstLimit(n);
  }

  lemma LimitStep(n: nat, l: nat)
    requires l > 0
    ensures Limit(n, l) == Limit(n, l - 1) + Per(n, l)
  {
  }

  /** A change in one tree is a change of the map at one block. */
  lemma MapChange(direct: seq<Ptr>, indirect: seq<Ptr>, n: nat, b: nat, l: nat, p: Ptr, v: nat, j: nat)
    requires n > 0 && |direct| == DIRECT && |indirect| == 3 && 0 < l <= 3 && Limit(n, l - 1) <= b < Limit(n, l)
    requires forall w: seq<nat> :: |w| == l ==>
      Lookup(p, w) == if w == Digits(n, l, b - Limit(n, l - 1)) then v else Lookup(indirect[l - 1], w)
    ensures MapAt(direct, indirect[l - 1 := p], n, j) == if j == b then v else MapAt(direct, indirect, n, j)
  {
    hide Digits, Lookup, Per;
    var lo := Limit(n, l - 1);
    MapIs(direct, indirect, n, b, l);
    if lo <= j < Limit(n, l) {
      MapIs(direct, indirect, n, j, l);
      MapIs(direct, indirect[l - 1 := p], n, j, l);
      DigitsOk(n, l, j - lo);
      DigitsDiffer(n, l, j - lo, b - lo);
    } else {
      LimitsGrow(n);
    }
  }

  lemma LimitsGrow(n: nat)
    ensures Limit(n, 0) <= Limit(n, 1) <= Limit(n, 2) <= Limit(n, 3)
  {
  }

  function Count(s: seq<nat>, b: nat): nat {
    if s == [] then 0 else (if s[0] == b then 1 else 0) + Count(s[1..], b)
  }

  /** How often a block is in a list. */
  lemma {:induction false} CountIs(s: seq<nat>, b: nat)
    ensures Count(s, b) == multiset(s)[b]
    decreases |s|
  {
    if s != [] {
      CountIs(s[1..], b);
      assert s == [s[0]] + s[1..];
    }
  }

  predicate Positive(s: seq<nat>) { forall i :: 0 <= i < |s| ==> s[i] > 0 }

  predicate InodeOk(direct: seq<Ptr>, indirect: seq<Ptr>, supply: seq<nat>, n: nat) {
    && n > 0 && |direct| == DIRECT && |indirect| == 3 && Positive(supply)
    && (forall i :: 0 <= i < DIRECT ==> Wf(direct[i], 0, n))
    && forall i :: 0 <= i < 3 ==> Wf(indirect[i], i + 1, n)
  }

  /** Where the descent stands: the node reached, and the digits still to go. */
  lemma DownDigits(n: nat, l: nat, off: nat)
    requires n > 0 && l > 0 && off < Per(n, l)
    ensures Digits(n, l, off) == [off / PerPos(n, l - 1)] + Digits(n, l - 1, off % PerPos(n, l - 1))
    ensures off / PerPos(n, l - 1) < n && off % PerPos(n, l - 1) < Per(n, l - 1)
  {
    DivParts(off, PerPos(n, l - 1), n);
    assert Per(n, l) == Per(n, l - 1) * n;
  }

  class IndirectInode {
    /** Entries of an indirect block. */
    const n: nat
    var direct: seq<Ptr>
    var indirect: seq<Ptr>
    /** Bytes in the file. */
    var size: nat
    /** Blocks the allocator still has, and blocks handed back to it. */
    var supply: seq<nat>
    var freed: seq<nat>

    constructor (n: nat, supply: seq<nat>)
      requires n > 0 && Positive(supply)
      ensures Valid() && this.n == n && this.supply == supply && freed == [] && size == 0
      ensures forall j :: MapAt(direct, indirect, n, j) == 0
    {
      this.n, this.supply, freed, size := n, supply, [], 0;
      direct, indirect := Empty(DIRECT), Empty(3);
    }

    ghost predicate Valid()
      reads this
    {
      InodeOk(direct, indirect, supply, n)
    }

    /** ext4_fs_get_inode_dblk_idx for a file that is not empty. */
    method GetBlock(b: nat) returns (st: Status, block: nat)
      requires Valid()
      ensures st == if b < Limit(n, 3) then Ok else Eio
      ensures st.Ok? ==> block == MapAt(direct, indirect, n, b)
    {
      hide Digits, Per, Limit;
      LimitsGrow(n);
      FirstLimit(n);
      if b < DIRECT { return Ok, Addr(direct[b]); }
      var l := LevelOf(n, b);
      if l == 0 { return Eio, 0; }
      MapIs(direct, indirect, n, b, l);
      var off: nat := b - Limit(n, l - 1);
      ghost var top, ds := indirect[l - 1], Digits(n, l, off);
      var cur := indirect[l - 1];
      LookupAny(cur, ds);
      if cur.Null? { return Ok, 0; }
      while l > 0
        invariant l <= 3 && off < Per(n, l) && Wf(cur, l, n) && !cur.Null?
        invariant Lookup(top, ds) == Lookup(cur, Digits(n, l, off))
      {
        DownDigits(n, l, off);
        var offInBlock := off / PerPos(n, l - 1);
        LookupStep(cur, offInBlock, Digits(n, l - 1, off % PerPos(n, l - 1)));
        cur := cur.kids[offInBlock];
        LookupAny(cur, Digits(n, l - 1, off % PerPos(n, l - 1)));
        if cur.Null? { return Ok, 0; }
        off := off % PerPos(n, l - 1);
        l := l - 1;
      }
      NoDigits(n, off);
      st, block := Ok, Addr(cur);
    }

    /** The part of ext4_fs_set_inode_data_block_index behind the direct blocks: down the tree of l
        levels, with tables allocated where there are none. It fails exactly if they are too many. */
    method SetIndirect(l: nat, off: nat, block: nat) returns (st: Status)
      requires Valid() && 0 < l <= 3 && off < Per(n, l)
      modifies `indirect, `supply
      ensures Valid() && indirect == old(indirect)[l - 1 := indirect[l - 1]] && (st.Ok? || st.Enospc?)
      ensures Changed(old(indirect)[l - 1], old(supply), indirect[l - 1], supply, l, Digits(n, l, off), st.Ok?, block)
      ensures Charged(st, old(supply), supply, Missing(old(indirect)[l - 1], Digits(n, l, off)))
    {
      hide Digits, Per, Lookup, Wf, PathOk, SetAt, At, Uses, Count, Changed, Same, InodeOk, Missing, Way;
      InodeParts(direct, indirect, supply, n, l);
      ghost var p0, s0, ds := indirect[l - 1], supply, Digits(n, l, off);
      ghost var need := Missing(p0, ds);
      StartSame(p0, s0, l);
      AtTop(p0, p0);
      DigitsOk(n, l, off);
      WayStarts(p0, supply, ds);
      var ok, p := EnsureTable(indirect[l - 1], [], l, p0, s0, ds, need);
      indirect := indirect[l - 1 := p];
      var path: seq<nat>, k: nat, o: nat := [], l, off;
      while ok && k > 1
        invariant 0 < k <= l && o < Per(n, k) && |path| + k == l && ds == path + Digits(n, k, o)
        invariant direct == old(direct) && indirect == old(indirect)[l - 1 := p] && |indirect| == 3
        invariant Wf(p, l, n) && Positive(supply)
        invariant PathOk(p, path) && Same(p0, s0, p, supply, l) && (ok ==> At(p, path).Table?)
        invariant if ok then Way(p, path, s0, supply, Digits(n, k, o), need) else supply == [] && |s0| < need
        decreases k, ok
      {
        var c := o / PerPos(n, k - 1);
        OneDigit(n, k, o, path, p, l);
        OneDown(n, k, o, path, p, l, s0, supply, need);
        ok, p := EnsureTable(p, path + [c], l, p0, s0, Digits(n, k - 1, o % PerPos(n, k - 1)), need);
        indirect := indirect[l - 1 := p];
        path, k, o := path + [c], k - 1, o % PerPos(n, k - 1);
      }
      if !ok {
        NotChanged(p0, s0, p, supply, l, ds, block);
        InodeSet(old(direct), old(indirect), old(supply), supply, n, l, p);
        return Enospc;
      }
      LastDigit(n, o, path, p, l);
      WayEnds(n, o, path, p, l, s0, supply, need);
      PutLast(p0, s0, p, supply, ds, block, l, n);
      p := SetAt(p, path + [o], DataPtr(block));
      indirect := indirect[l - 1 := p];
      InodeSet(old(direct), old(indirect), old(supply), supply, n, l, p);
      assert indirect == old(indirect)[l - 1 := p];
      st := Ok;
    }

    /** A table where the way leads; a new one if there is none, and the allocator has a block. */
    method EnsureTable(p: Ptr, ds: seq<nat>, l: nat, ghost p0: Ptr, ghost s0: seq<nat>, ghost rest: seq<nat>,
                       ghost need: nat) returns (ok: bool, q: Ptr)
      requires PathOk(p, ds) && Wf(p, l, n) && |ds| < l && Same(p0, s0, p, supply, l) && Positive(supply)
      requires Way(p, ds, s0, supply, rest, need) && rest != [] && rest[0] < n
      modifies `supply
      ensures Positive(supply) && Wf(q, l, n) && PathOk(q, ds) && Same(p0, s0, q, supply, l)
      ensures ok <==> !At(p, ds).Null? || old(supply) != []
      ensures ok ==> At(q, ds).Table?
      ensures if ok then Way(q, ds, s0, supply, rest, need) else supply == [] && |s0| < need
    {
      hide Lookup, Wf, PathOk, SetAt, At, Uses, Count, Same, Missing;
      if !At(p, ds).Null? {
        TableBelow(p, ds, l, n);
        return true, p;
      }
      MissingAll(rest, if supply == [] then 0 else supply[0], n);
      if supply == [] { return false, p; }
      AddTable(p0, s0, p, supply, ds, l, n);
      q := SetAt(p, ds, Table(supply[0], Empty(n)));
      supply := supply[1..];
      ok := true;
    }

    /** ext4_fs_set_inode_data_block_index. It fails for want of blocks exactly if the allocator has fewer than there
        are tables missing on the way; the map is then as before, though empty tables have been added. */
    method SetBlock(b: nat, block: nat) returns (st: Status)
      requires Valid()
      modifies `direct, `indirect, `supply
      ensures Valid()
      ensures st.Eio? <==> b >= Limit(n, 3)
      ensures b < Limit(n, 3) ==> Charged(st, old(supply), supply, MissingTables(old(indirect), n, b))
      ensures forall j: nat :: MapAt(direct, indirect, n, j) ==
                if st.Ok? && j == b then block else MapAt(old(direct), old(indirect), n, j)
      ensures forall x: nat :: x > 0 ==>
        Used(direct, indirect, x) + Count(supply, x)
          + (if st.Ok? && x == MapAt(old(direct), old(indirect), n, b) then 1 else 0)
        == Used(old(direct), old(indirect), x) + Count(old(supply), x) + if st.Ok? && x == block then 1 else 0
    {
      hide Digits, Per, Limit, Lookup, Wf, Uses, Count, Used, UsesAll, Changed, Missing;
      LimitsGrow(n);
      FirstLimit(n);
      if b < DIRECT {
        DirectSet(direct, indirect, n, b, block);
        direct := direct[b := DataPtr(block)];
        return Ok;
      }
      var l := LevelOf(n, b);
      if l == 0 { return Eio; }
      MapIs(direct, indirect, n, b, l);
      var lo := Limit(n, l - 1);
      ghost var was, s0 := indirect, supply;
      st := SetIndirect(l, b - lo, block);
      IndirectSet(direct, was, s0, indirect, supply, n, b, l, st.Ok?, block);
    }

    /** The descent of ext4_fs_release_inode_block: the data pointer is cleared, the old block returned. */
    method ClearIndirect(l: nat, off: nat) returns (block: nat)
      requires Valid() && 0 < l <= 3 && off < Per(n, l)
      modifies `indirect
      ensures Valid() && indirect == old(indirect)[l - 1 := indirect[l - 1]]
      ensures Changed(old(indirect)[l - 1], supply, indirect[l - 1], supply, l, Digits(n, l, off), true, 0)
      ensures block == Lookup(old(indirect)[l - 1], Digits(n, l, off))
    {
      hide Digits, Per, Lookup, Wf, PathOk, SetAt, At, Uses, Count, Changed, InodeOk;
      InodeParts(direct, indirect, supply, n, l);
      var p := indirect[l - 1];
      ghost var ds := Digits(n, l, off);
      AtTop(p, p);
      var path: seq<nat>, k: nat, o: nat := [], l, off;
      DigitsOk(n, l, off);
      while k > 0
        invariant 0 < k <= l && o < Per(n, k) && |path| + k == l && ds == path + Digits(n, k, o)
        invariant PathOk(p, path) && indirect == old(indirect)
        decreases k
      {
        if At(p, path).Null? {
          HoleBelow(p, path, Digits(n, k, o), supply, l);
          return 0;
        }
        TableBelow(p, path, l, n);
        if k == 1 { break; }
        OneDigit(n, k, o, path, p, l);
        path, k, o := path + [o / PerPos(n, k - 1)], k - 1, o % PerPos(n, k - 1);
      }
      LastDigit(n, o, path, p, l);
      block := Addr(At(p, path + [o]));
      StartSame(p, supply, l);
      PutLast(p, supply, p, supply, ds, 0, l, n);
      PutData(p, ds, 0, l, n);
      InodeSet(direct, indirect, supply, supply, n, l, SetAt(p, ds, DataPtr(0)));
      indirect := indirect[l - 1 := SetAt(p, path + [o], DataPtr(0))];
    }

    /** ext4_fs_release_inode_block. */
    method ReleaseBlock(b: nat) returns (st: Status)
      requires Valid()
      modifies `direct, `indirect, `freed
      ensures Valid()
      ensures st == if b < Limit(n, 3) then Ok else Eio
      ensures forall j: nat :: MapAt(direct, indirect, n, j) ==
                if j == b then 0 else MapAt(old(direct), old(indirect), n, j)
      ensures Balanced(old(direct), old(indirect), old(freed), direct, indirect, freed)
    {
      hide Digits, Per, Limit, Lookup, Wf, Uses, Count, Used, UsesAll, Changed;
      LimitsGrow(n);
      FirstLimit(n);
      if b < DIRECT {
        var block := Addr(direct[b]);
        DirectSet(direct, indirect, n, b, 0);
        if block == 0 { return Ok; }
        direct := direct[b := Null];
        CountMore(freed, block);
        freed := freed + [block];
        return Ok;
      }
      var l := LevelOf(n, b);
      if l == 0 { return Eio; }
      MapIs(direct, indirect, n, b, l);
      ghost var was := indirect;
      var block := ClearIndirect(l, b - Limit(n, l - 1));
      IndirectSet(direct, was, supply, indirect, supply, n, b, l, true, 0);
      CountMore(freed, block);
      if block != 0 { freed := freed + [block]; }
      st := Ok;
    }

    /** The release loop of ext4_fs_truncate_inode. */
    method ReleaseRange(first: nat, end: nat) returns (st: Status)
      requires Valid() && first <= end
      modifies `direct, `indirect, `freed
      ensures Valid()
      ensures st == if first < end && Limit(n, 3) < end then Eio else Ok
      ensures Cleared(old(direct), old(indirect), direct, indirect, n, first, end)
      ensures Balanced(old(direct), old(indirect), old(freed), direct, indirect, freed)
    {
      hide MapAt, Limit, Used, Count, Cleared, Balanced, InodeOk;
      InodeSizes(direct, indirect, supply, n);
      StartClearing(direct, indirect, freed, n, first);
      st := Ok;
      var i := first;
      while i < end
        invariant Valid() && first <= i <= end && st.Ok? && (i > first ==> i <= Limit(n, 3))
        invariant Cleared(old(direct), old(indirect), direct, indirect, n, first, i)
        invariant Balanced(old(direct), old(indirect), old(freed), direct, indirect, freed)
      {
        ghost var d, t, f := direct, indirect, freed;
        st := ReleaseBlock(i);
        InodeSizes(direct, indirect, supply, n);
        StillBalanced(old(direct), old(indirect), old(freed), d, t, f, direct, indirect, freed);
        OneCleared(old(direct), old(indirect), d, t, direct, indirect, n, first, i);
        if !st.Ok? {
          AllCleared(old(direct), old(indirect), direct, indirect, n, first, i + 1, end);
          return;
        }
        i := i + 1;
      }
    }

    /** ext4_fs_truncate_inode for a regular file without extents. */
    method Truncate(newSize: nat) returns (st: Status)
      requires Valid()
      modifies `direct, `indirect, `freed, `size
      ensures Valid()
      ensures st == if old(size) < newSize then Einval
                    else if Blocks(n, newSize) < Blocks(n, old(size)) && Limit(n, 3) < Blocks(n, old(size)) then Eio
                    else Ok
      ensures size == if st.Ok? then newSize else old(size)
      ensures CutOff(old(direct), old(indirect), direct, indirect, n, newSize, old(size))
      ensures Balanced(old(direct), old(indirect), old(freed), direct, indirect, freed)
    {
      hide MapAt, Limit, Used, Count, Cleared, Balanced, InodeOk, CutOff;
      InodeSizes(direct, indirect, supply, n);
      StartClearing(direct, indirect, freed, n, 0);
      if size <= newSize {
        NotCut(direct, indirect, n, newSize, size);
        return if size == newSize then Ok else Einval;
      }
      BlocksGrow(n, newSize, size);
      st := ReleaseRange(Blocks(n, newSize), Blocks(n, size));
      ClearedIsCut(old(direct), old(indirect), direct, indirect, n, newSize, size);
      if st.Ok? { size := newSize; }
    }

    /** The part of ext4_fs_free_inode that hands back the tables: each of them once. When nothing is
        mapped any more, that is every block the inode uses. */
    method FreeTables()
      requires Valid()
      modifies `indirect, `freed
      ensures Valid() && indirect == [Null, Null, Null]
      ensures forall x: nat :: Count(freed, x) == Count(old(freed), x) + TablesAll(old(indirect), x)
      ensures (forall j: nat :: MapAt(direct, old(indirect), n, j) == 0) ==>
        forall x: nat :: Count(freed, x) == Count(old(freed), x) + Used(direct, old(indirect), x)
    {
      hide Wf, Count, Tables, TablesAll, MapAt, Used, InodeOk;
      ghost var was := indirect;
      InodeTrees(direct, indirect, supply, n);
      if !indirect[0].Null? {
        Free(indirect[0].blk);
        indirect := indirect[0 := Null];
      }
      assert forall x: nat :: Count(freed, x) == Count(old(freed), x) + Tables(was[0], x) by { OneTable(was[0], n); }
      if !indirect[1].Null? {
        TableParts(indirect[1], 2, n);
        FreeRow(indirect[1].kids);
        Free(indirect[1].blk);
        indirect := indirect[1 := Null];
      }
      assert forall x: nat :: Count(freed, x) == Count(old(freed), x) + Tables(was[0], x) + Tables(was[1], x) by {
        TablesOf(was[1]);
      }
      if !indirect[2].Null? {
        TableParts(indirect[2], 3, n);
        FreeRows(indirect[2].kids);
        Free(indirect[2].blk);
        indirect := indirect[2 := Null];
      }
      TablesOf(was[2]);
      ThreeTrees(was);
      InodeEmpty(direct, supply, n, indirect);
      if forall j: nat :: MapAt(direct, was, n, j) == 0 {
        NothingMapped(direct, was, supply, n);
      }
    }

    method Free(b: nat)
      modifies `freed
      ensures freed == old(freed) + [b]
      ensures forall x: nat :: Count(freed, x) == Count(old(freed), x) + if x == b then 1 else 0
    {
      CountMore(freed, b);
      freed := freed + [b];
    }

    /** The tables named in a table of the second level. */
    method FreeRow(kids: seq<Ptr>)
      requires forall i :: 0 <= i < |kids| ==> Wf(kids[i], 1, n)
      modifies `freed
      ensures forall x: nat :: Count(freed, x) == Count(old(freed), x) + TablesAll(kids, x)
    {
      hide Wf, Count, Tables, TablesAll;
      NoTables();
      assert kids[..0] == [];
      for i := 0 to |kids|
        invariant forall x: nat :: Count(freed, x) == Count(old(freed), x) + TablesAll(kids[..i], x)
      {
        MoreTables(kids, i);
        OneTable(kids[i], n);
        if !kids[i].Null? { Free(kids[i].blk); }
      }
      assert kids[..|kids|] == kids;
    }

    /** The tables of the two levels below a table of the third level. */
    method FreeRows(kids: seq<Ptr>)
      requires forall i :: 0 <= i < |kids| ==> Wf(kids[i], 2, n)
      modifies `freed
      ensures forall x: nat :: Count(freed, x) == Count(old(freed), x) + TablesAll(kids, x)
    {
      hide Wf, Count, Tables, TablesAll;
      NoTables();
      assert kids[..0] == [];
      for i := 0 to |kids|
        invariant forall x: nat :: Count(freed, x) == Count(old(freed), x) + TablesAll(kids[..i], x)
      {
        MoreTables(kids, i);
        TablesOf(kids[i]);
        if !kids[i].Null? {
          TableParts(kids[i], 2, n);
          FreeRow(kids[i].kids);
          Free(kids[i].blk);
        }
      }
      assert kids[..|kids|] == kids;
    }

    /** Truncating to nothing and freeing the inode hands back every block exactly once, if no block is
        mapped behind the end of the file. */
    method Dispose() returns (st: Status)
      requires Valid()
      requires forall j: nat :: 4 * n * j >= size ==> MapAt(direct, indirect, n, j) == 0
      modifies `direct, `indirect, `freed, `size
      ensures Valid()
      ensures st == if Blocks(n, old(size)) <= Limit(n, 3) then Ok else Eio
      ensures st.Ok? ==> forall x: nat :: x > 0 ==>
        Used(direct, indirect, x) == 0 && Count(freed, x) == Count(old(freed), x) + Used(old(direct), old(indirect), x)
    {
      hide MapAt, Limit, Used, Count, InodeOk, TablesAll, CutOff, Balanced;
      InodeSizes(direct, indirect, supply, n);
      NoBlocks(n, size);
      ghost var d0, i0, f0 := direct, indirect, freed;
      st := Truncate(0);
      if !st.Ok? { return; }
      InodeSizes(direct, indirect, supply, n);
      ghost var d, i, f := direct, indirect, freed;
      NoneLeft(d0, i0, d, i, n, old(size));
      FreeTables();
      NothingUsed(d, supply, n, i);
      Handed(d0, i0, f0, d, i, f, freed);
    }
  }

  /** The map with the blocks of a range no longer mapped. */
  ghost predicate Cleared(d0: seq<Ptr>, i0: seq<Ptr>, d: seq<Ptr>, i: seq<Ptr>, n: nat, first: nat, end: nat) {
    && n > 0 && |d0| == DIRECT == |d| && |i0| == 3 == |i|
    && forall j: nat :: MapAt(d, i, n, j) == (if first <= j < end then 0 else MapAt(d0, i0, n, j))
  }

  /** The map without the blocks of 4 * n bytes that begin at the new end or behind it, and before the old one. */
  ghost predicate CutOff(d0: seq<Ptr>, i0: seq<Ptr>, d: seq<Ptr>, i: seq<Ptr>, n: nat, newSize: nat, size: nat) {
    && n > 0 && |d0| == DIRECT == |d| && |i0| == 3 == |i|
    && forall j: nat ::
         MapAt(d, i, n, j) == (if newSize <= 4 * n * j < size then 0 else MapAt(d0, i0, n, j))
  }

  /** Every block that is no longer in use has been handed back. */
  ghost predicate Balanced(d0: seq<Ptr>, i0: seq<Ptr>, f0: seq<nat>, d: seq<Ptr>, i: seq<Ptr>, f: seq<nat>) {
    forall x: nat :: x > 0 ==> Used(d, i, x) + Count(f, x) == Used(d0, i0, x) + Count(f0, x)
  }

  lemma InodeSizes(direct: seq<Ptr>, indirect: seq<Ptr>, supply: seq<nat>, n: nat)
    requires InodeOk(direct, indirect, supply, n)
    ensures n > 0 && |direct| == DIRECT && |indirect| == 3
  {
  }

  lemma StartClearing(d: seq<Ptr>, i: seq<Ptr>, f: seq<nat>, n: nat, first: nat)
    requires n > 0 && |d| == DIRECT && |i| == 3
    ensures forall e: nat :: e <= first ==> Cleared(d, i, d, i, n, first, e)
    ensures Balanced(d, i, f, d, i, f)
  {
  }

  lemma StillBalanced(d0: seq<Ptr>, i0: seq<Ptr>, f0: seq<nat>, d1: seq<Ptr>, i1: seq<Ptr>, f1: seq<nat>,
                      d: seq<Ptr>, i: seq<Ptr>, f: seq<nat>)
    requires Balanced(d0, i0, f0, d1, i1, f1) && Balanced(d1, i1, f1, d, i, f)
    ensures Balanced(d0, i0, f0, d, i, f)
  {
  }

  lemma OneCleared(d0: seq<Ptr>, i0: seq<Ptr>, d1: seq<Ptr>, i1: seq<Ptr>, d: seq<Ptr>, i: seq<Ptr>, n: nat,
                   first: nat, b: nat)
    requires Cleared(d0, i0, d1, i1, n, first, b) && first <= b && |d| == DIRECT && |i| == 3
    requires forall j: nat :: MapAt(d, i, n, j) == if j == b then 0 else MapAt(d1, i1, n, j)
    ensures Cleared(d0, i0, d, i, n, first, b + 1)
  {
    hide MapAt;
  }

  lemma AllCleared(d0: seq<Ptr>, i0: seq<Ptr>, d: seq<Ptr>, i: seq<Ptr>, n: nat, first: nat, b: nat, end: nat)
    requires Cleared(d0, i0, d, i, n, first, b) && first < b <= end && b > Limit(n, 3)
    ensures Cleared(d0, i0, d, i, n, first, end)
  {
    hide MapAt;
    BeyondReach(d, i, n, b);
    BeyondReach(d0, i0, n, b);
  }

  lemma NoneLeft(d0: seq<Ptr>, i0: seq<Ptr>, d: seq<Ptr>, i: seq<Ptr>, n: nat, size: nat)
    requires CutOff(d0, i0, d, i, n, 0, size)
    requires forall j: nat :: 4 * n * j >= size ==> MapAt(d0, i0, n, j) == 0
    ensures forall j: nat :: MapAt(d, i, n, j) == 0
  {
    hide MapAt;
    forall j: nat
      ensures MapAt(d, i, n, j) == 0
    {
      assert 4 * n * j >= 0;
    }
  }

  lemma NotCut(d: seq<Ptr>, i: seq<Ptr>, n: nat, newSize: nat, size: nat)
    requires n > 0 && |d| == DIRECT && |i| == 3 && size <= newSize
    ensures CutOff(d, i, d, i, n, newSize, size)
  {
    hide MapAt;
  }

  /** Block j is one of those that so many bytes take exactly if it begins before their end. */
  lemma BeginsBefore(n: nat, bytes: nat, j: nat)
    requires n > 0
    ensures j < Blocks(n, bytes) <==> 4 * n * j < bytes
  {
    var d := 4 * n;
    DivParts(bytes + d - 1, d, 0);
    var k := Blocks(n, bytes);
    assert d * k <= bytes + d - 1 < d * (k + 1) == d * k + d;
    if j < k {
      MulLe(d, j, k - 1);
      assert d * (k - 1) == d * k - d;
    } else {
      MulLe(d, k, j);
    }
  }

  lemma ClearedIsCut(d0: seq<Ptr>, i0: seq<Ptr>, d: seq<Ptr>, i: seq<Ptr>, n: nat, newSize: nat, size: nat)
    requires n > 0 && Cleared(d0, i0, d, i, n, Blocks(n, newSize), Blocks(n, size))
    ensures CutOff(d0, i0, d, i, n, newSize, size)
  {
    hide MapAt, Blocks;
    forall j: nat
      ensures MapAt(d, i, n, j) == (if newSize <= 4 * n * j < size then 0 else MapAt(d0, i0, n, j))
    {
      BeginsBefore(n, newSize, j);
      BeginsBefore(n, size, j);
    }
  }

  /** The way to a logical block in numbers. */
  lemma WayInNumbers(direct: seq<Ptr>, indirect: seq<Ptr>, n: nat, b: nat)
    requires n > 0 && |direct| == DIRECT && |indirect| == 3
    ensures b < 12 ==> b < |direct| && MapAt(direct, indirect, n, b) == Addr(direct[b])
    ensures 0 <= b - 12 < n ==> MapAt(direct, indirect, n, b) == Lookup(indirect[0], [b - 12])
    ensures var x := b - 12 - n;
      0 <= x < n * n ==> MapAt(direct, indirect, n, b) == Lookup(indirect[1], [x / n, x % n])
    ensures var x := b - 12 - n - n * n;
      0 <= x < n * n * n && n * n > 0 ==>
        MapAt(direct, indirect, n, b) == Lookup(indirect[2], [x / (n * n), x % (n * n) / n, x % (n * n) % n])
    ensures b >= 12 + n + n * n + n * n * n ==> MapAt(direct, indirect, n, b) == 0
  {
    hide Lookup, Limit, Per, Digits;
    Reach(n);
    LimitsGrow(n);
    assert n * n >= 0 && n * n * n >= 0;
    if 0 <= b - 12 < n {
      DigitsInNumbers(n, b - 12);
    }
    if 0 <= b - 12 - n < n * n {
      DigitsInNumbers(n, b - 12 - n);
    }
    if 0 <= b - 12 - n - n * n < n * n * n {
      DigitsInNumbers(n, b - 12 - n - n * n);
    }
  }

  lemma DigitsInNumbers(n: nat, x: nat)
    requires n > 0
    ensures x < n ==> Digits(n, 1, x) == [x]
    ensures x < n * n ==> Digits(n, 2, x) == [x / n, x % n]
    ensures n * n > 0 && Digits(n, 3, x) == [x / (n * n), x % (n * n) / n, x % (n * n) % n]
  {
    assert Per(n, 0) == 1 && Per(n, 1) == n && Per(n, 2) == n * n;
    assert PerPos(n, 0) == 1 && PerPos(n, 1) == n && PerPos(n, 2) == n * n;
    OneDigitIs(n, x);
    TwoDigitsAre(n, x);
    TwoDigitsAre(n, x % (n * n));
    assert Digits(n, 3, x) == [x / (n * n)] + Digits(n, 2, x % (n * n));
  }

  lemma OneDigitIs(n: nat, x: nat)
    requires n > 0
    ensures Digits(n, 1, x) == [x]
  {
    assert PerPos(n, 0) == 1;
    assert Digits(n, 1, x) == [x / 1] + Digits(n, 0, x % 1);
  }

  lemma TwoDigitsAre(n: nat, x: nat)
    requires n > 0
    ensures Digits(n, 2, x) == [x / n, x % n]
  {
    assert PerPos(n, 1) == Per(n, 1) == Per(n, 0) * n == n;
    assert Digits(n, 2, x) == [x / n] + Digits(n, 1, x % n);
    OneDigitIs(n, x % n);
  }

  /** The blocks that each way of addressing reaches. */
  lemma Reach(n: nat)
    ensures Limit(n, 0) == 12 && Limit(n, 1) == 12 + n && Limit(n, 2) == 12 + n + n * n
    ensures Limit(n, 3) == 12 + n + n * n + n * n * n
  {
    assert Per(n, 0) == 1 && Per(n, 1) == 1 * n && Per(n, 2) == Per(n, 1) * n && Per(n, 3) == Per(n, 2) * n;
    assert Limit(n, 2) == Limit(n, 1) + Per(n, 2) && Limit(n, 3) == Limit(n, 2) + Per(n, 3);
  }

  lemma Handed(d0: seq<Ptr>, i0: seq<Ptr>, f0: seq<nat>, d: seq<Ptr>, i: seq<Ptr>, f1: seq<nat>, f: seq<nat>)
    requires Balanced(d0, i0, f0, d, i, f1)
    requires forall x: nat :: Count(f, x) == Count(f1, x) + Used(d, i, x)
    ensures forall x: nat :: x > 0 ==> Count(f, x) == Count(f0, x) + Used(d0, i0, x)
  {
  }

  /** Blocks that so many bytes take, with n four-byte pointers in a block. */
  function Blocks(n: nat, bytes: nat): nat
    requires n > 0
  {
    (bytes + 4 * n - 1) / (4 * n)
  }

  lemma BlocksGrow(n: nat, a: nat, b: nat)
    requires n > 0 && a <= b
    ensures Blocks(n, a) <= Blocks(n, b)
  {
    DivParts(a + 4 * n - 1, 4 * n, 0);
    DivParts(b + 4 * n - 1, 4 * n, 0);
    if Blocks(n, a) > Blocks(n, b) { MulLe(4 * n, Blocks(n, b) + 1, Blocks(n, a)); }
  }

  /** A map without blocks needs none. */
  lemma NoBlocks(n: nat, size: nat)
    requires n > 0
    ensures Blocks(n, 0) == 0
    ensures size > 0 ==> Blocks(n, size) > 0
  {
    DivUnique(4 * n - 1, 4 * n, 0, 4 * n - 1);
    if size > 0 && Blocks(n, size) == 0 { DivParts(size + 4 * n - 1, 4 * n, 0); }
  }

  lemma BeyondReach(direct: seq<Ptr>, indirect: seq<Ptr>, n: nat, i: nat)
    requires n > 0 && |direct| == DIRECT && |indirect| == 3 && i >= Limit(n, 3)
    ensures forall j: nat :: j >= i ==> MapAt(direct, indirect, n, j) == 0
  {
    hide Digits, Per, Lookup;
    LimitsGrow(n);
    FirstLimit(n);
  }

  lemma InodeTrees(direct: seq<Ptr>, indirect: seq<Ptr>, supply: seq<nat>, n: nat)
    requires InodeOk(direct, indirect, supply, n)
    ensures |direct| == DIRECT && |indirect| == 3 && n > 0
    ensures Wf(indirect[0], 1, n) && Wf(indirect[1], 2, n) && Wf(indirect[2], 3, n)
  {
  }

  lemma InodeEmpty(direct: seq<Ptr>, supply: seq<nat>, n: nat, indirect: seq<Ptr>)
    requires exists was :: InodeOk(direct, was, supply, n)
    requires |indirect| == 3 && indirect[0].Null? && indirect[1].Null? && indirect[2].Null?
    ensures InodeOk(direct, indirect, supply, n) && indirect == [Null, Null, Null]
  {
  }

  lemma TableParts(p: Ptr, l: nat, n: nat)
    requires Wf(p, l, n) && !p.Null? && l > 0
    ensures p.Table? && forall i :: 0 <= i < |p.kids| ==> Wf(p.kids[i], l - 1, n)
  {
  }

  lemma OneTable(p: Ptr, n: nat)
    requires Wf(p, 1, n)
    ensures !p.Data?
    ensures forall x: nat :: Tables(p, x) == if !p.Null? && p.blk == x then 1 else 0
  {
    if p.Table? {
      forall x: nat
        ensures TablesAll(p.kids, x) == 0
      {
        FlatTables(p.kids, n, x);
      }
    }
  }

  lemma TablesOf(p: Ptr)
    ensures forall x: nat ::
      Tables(p, x) == if p.Table? then (if p.blk == x then 1 else 0) + TablesAll(p.kids, x) else 0
  {
    hide TablesAll;
  }

  lemma NoTables()
    ensures forall x: nat :: TablesAll([], x) == 0
  {
  }

  lemma MoreTables(kids: seq<Ptr>, i: nat)
    requires i < |kids|
    ensures forall x: nat :: TablesAll(kids[..i + 1], x) == TablesAll(kids[..i], x) + Tables(kids[i], x)
  {
    hide Tables, TablesAll;
    forall x: nat
      ensures TablesAll(kids[..i + 1], x) == TablesAll(kids[..i], x) + Tables(kids[i], x)
    {
      TablesNext(kids, i, x);
    }
  }

  lemma ThreeTrees(t: seq<Ptr>)
    requires |t| == 3
    ensures forall x: nat :: TablesAll(t, x) == Tables(t[0], x) + Tables(t[1], x) + Tables(t[2], x)
  {
    hide Tables, TablesAll;
    NoTables();
    MoreTables(t, 0);
    MoreTables(t, 1);
    MoreTables(t, 2);
    assert t[..0] == [] && t[..3] == t;
  }

  /** Where no block is mapped only the tables are in use. */
  lemma NothingMapped(direct: seq<Ptr>, indirect: seq<Ptr>, supply: seq<nat>, n: nat)
    requires InodeOk(direct, indirect, supply, n)
    requires forall j: nat :: MapAt(direct, indirect, n, j) == 0
    ensures forall x: nat :: Used(direct, indirect, x) == TablesAll(indirect, x)
  {
    hide Tables, TablesAll, UsesAll, NoData;
    DirectFree(direct, indirect, n);
    TreeFree(direct, indirect, n, 1);
    TreeFree(direct, indirect, n, 2);
    TreeFree(direct, indirect, n, 3);
    forall x: nat
      ensures Used(direct, indirect, x) == TablesAll(indirect, x)
    {
      TablesAllAreUses(indirect, x);
    }
  }

  lemma DirectFree(direct: seq<Ptr>, indirect: seq<Ptr>, n: nat)
    requires n > 0 && |direct| == DIRECT && |indirect| == 3
    requires forall i :: 0 <= i < DIRECT ==> Wf(direct[i], 0, n)
    requires forall j: nat :: MapAt(direct, indirect, n, j) == 0
    ensures forall x: nat :: UsesAll(direct, x) == 0
  {
    hide Digits, Lookup, Per, Uses, UsesAll;
    forall i | 0 <= i < DIRECT
      ensures direct[i].Null?
    {
      assert MapAt(direct, indirect, n, i) == 0;
      assert Wf(direct[i], 0, n);
    }
    assert direct == Empty(DIRECT);
    forall x: nat
      ensures UsesAll(direct, x) == 0
    {
      UsesEmpty(DIRECT, x);
    }
  }

  lemma TreeFree(direct: seq<Ptr>, indirect: seq<Ptr>, n: nat, l: nat)
    requires n > 0 && |direct| == DIRECT && |indirect| == 3 && 0 < l <= 3 && Wf(indirect[l - 1], l, n)
    requires forall j: nat :: MapAt(direct, indirect, n, j) == 0
    ensures NoData(indirect[l - 1])
  {
    hide Digits, Lookup, Per, NoData, Wf, Limit, MapAt;
    forall w: seq<nat> | |w| == l && forall i :: 0 <= i < l ==> w[i] < n
      ensures Lookup(indirect[l - 1], w) == 0
    {
      var off := DigitsOnto(n, l, w);
      LimitStep(n, l);
      var b: nat := Limit(n, l - 1) + off;
      MapIs(direct, indirect, n, b, l);
      assert MapAt(direct, indirect, n, b) == 0;
    }
    NoDataIs(indirect[l - 1], l, n);
  }

  /** An inode without trees and blocks uses nothing. */
  lemma NothingUsed(direct: seq<Ptr>, supply: seq<nat>, n: nat, was: seq<Ptr>)
    requires InodeOk(direct, was, supply, n)
    requires forall j: nat :: MapAt(direct, was, n, j) == 0
    ensures forall x: nat :: Used(direct, [Null, Null, Null], x) == 0
  {
    hide Digits, Lookup, Per, Limit, MapAt;
    DirectFree(direct, was, n);
    assert [Null, Null, Null] == Empty(3);
    forall x: nat
      ensures Used(direct, [Null, Null, Null], x) == 0
    {
      UsesEmpty(3, x);
    }
  }

  lemma CountMore(s: seq<nat>, b: nat)
    ensures forall x: nat :: Count(s + [b], x) == Count(s, x) + if x == b then 1 else 0
  {
    forall x: nat
      ensures Count(s + [b], x) == Count(s, x) + if x == b then 1 else 0
    {
      CountSnoc(s, b, x);
    }
  }

  lemma {:induction false} CountSnoc(s: seq<nat>, b: nat, x: nat)
    ensures Count(s + [b], x) == Count(s, x) + if x == b then 1 else 0
    decreases |s|
  {
    if s == [] {
      assert ([] + [b])[1..] == [];
    } else {
      CountSnoc(s[1..], b, x);
      assert (s + [b])[1..] == s[1..] + [b];
    }
  }

  /** Nothing is mapped below a missing table. */
  lemma HoleBelow(p: Ptr, path: seq<nat>, rest: seq<nat>, s: seq<nat>, l: nat)
    requires PathOk(p, path) && At(p, path).Null? && |path + rest| == l
    ensures Lookup(p, path + rest) == 0 && Changed(p, s, p, s, l, path + rest, true, 0)
  {
    hide Uses, Count, At, PathOk;
    LookupSet(p, path, Null, path + rest);
    assert (path + rest)[..|path|] == path;
  }

  /** Blocks in use by the inode. */
  function Used(direct: seq<Ptr>, indirect: seq<Ptr>, x: nat): nat { UsesAll(direct, x) + UsesAll(indirect, x) }

  /** The same map, and no block lost or gained. */
  ghost predicate Same(p0: Ptr, s0: seq<nat>, p: Ptr, s: seq<nat>, l: nat) {
    && (forall w: seq<nat> :: |w| == l ==> Lookup(p, w) == Lookup(p0, w))
    && forall x: nat :: Uses(p, x) + Count(s, x) == Uses(p0, x) + Count(s0, x)
  }

  /** The map with one block set, if that succeeded; the old block is no longer used. */
  ghost predicate Changed(p0: Ptr, s0: seq<nat>, p: Ptr, s: seq<nat>, l: nat, ds: seq<nat>, done: bool, v: nat) {
    && (forall w: seq<nat> :: |w| == l ==> Lookup(p, w) == if done && w == ds then v else Lookup(p0, w))
    && forall x: nat :: x > 0 ==>
         Uses(p, x) + Count(s, x) + (if done && x == Lookup(p0, ds) then 1 else 0)
         == Uses(p0, x) + Count(s0, x) + if done && x == v then 1 else 0
  }

  /** The allocation of `need` blocks one by one, which fails when they run out. */
  predicate Charged(st: Status, s0: seq<nat>, s: seq<nat>, need: nat) {
    && (st.Ok? || st.Enospc?) && (st.Enospc? <==> |s0| < need)
    && s == if st.Ok? then s0[need..] else []
  }

  /** Of the tables that the way needs those down to `ds` are there, and the allocator has lost the new ones. */
  ghost predicate Way(p: Ptr, ds: seq<nat>, s0: seq<nat>, s: seq<nat>, rest: seq<nat>, need: nat) {
    && PathOk(p, ds) && |s| <= |s0| && s == s0[|s0| - |s|..]
    && |s0| - |s| + Missing(At(p, ds), rest) == need
  }

  lemma WayStarts(p: Ptr, s: seq<nat>, ds: seq<nat>)
    ensures Way(p, [], s, s, ds, Missing(p, ds))
  {
  }

  /** One digit further the same tables are missing. */
  lemma OneDown(n: nat, k: nat, o: nat, path: seq<nat>, p: Ptr, l: nat, s0: seq<nat>, s: seq<nat>, need: nat)
    requires n > 0 && k > 0 && o < Per(n, k) && Wf(p, l, n) && |path| + k == l
    requires Way(p, path, s0, s, Digits(n, k, o), need) && At(p, path).Table?
    ensures var c, r := o / PerPos(n, k - 1), o % PerPos(n, k - 1);
      && Way(p, path + [c], s0, s, Digits(n, k - 1, r), need)
      && |Digits(n, k - 1, r)| == k - 1 && (k > 1 ==> Digits(n, k - 1, r)[0] < n)
  {
    hide Digits, Per, Wf, PathOk, At, Missing;
    var c, r := o / PerPos(n, k - 1), o % PerPos(n, k - 1);
    DownDigits(n, k, o);
    TableSize(p, path, l, n);
    PathSnoc(p, path, c);
    MissingSteps(At(p, path), c, Digits(n, k - 1, r));
    DigitsOk(n, k - 1, r);
  }

  /** At the last table nothing is missing any more. */
  lemma WayEnds(n: nat, o: nat, path: seq<nat>, p: Ptr, l: nat, s0: seq<nat>, s: seq<nat>, need: nat)
    requires n > 0 && o < Per(n, 1) && Wf(p, l, n) && |path| + 1 == l
    requires Way(p, path, s0, s, Digits(n, 1, o), need) && At(p, path).Table?
    ensures |s0| >= need && s == s0[need..]
  {
    hide Digits, Per, Wf, PathOk, At;
    OneDown(n, 1, o, path, p, l, s0, s, need);
  }

  lemma StartSame(p: Ptr, s: seq<nat>, l: nat)
    ensures Same(p, s, p, s, l)
  {
  }

  lemma NotChanged(p0: Ptr, s0: seq<nat>, p: Ptr, s: seq<nat>, l: nat, ds: seq<nat>, v: nat)
    requires Same(p0, s0, p, s, l)
    ensures Changed(p0, s0, p, s, l, ds, false, v)
  {
  }

  lemma AddTable(p0: Ptr, s0: seq<nat>, p: Ptr, s: seq<nat>, ds: seq<nat>, l: nat, n: nat)
    requires PathOk(p, ds) && At(p, ds).Null? && Wf(p, l, n) && |ds| < l && s != [] && Positive(s)
    requires Same(p0, s0, p, s, l)
    ensures var q := SetAt(p, ds, Table(s[0], Empty(n)));
      && Wf(q, l, n) && PathOk(q, ds) && At(q, ds) == Table(s[0], Empty(n))
      && Same(p0, s0, q, s[1..], l) && Positive(s[1..])
  {
    hide Lookup, Uses, Wf, PathOk, At, SetAt;
    NewTable(p, ds, s[0], l, n);
  }

  lemma PutLast(p0: Ptr, s0: seq<nat>, p: Ptr, s: seq<nat>, ds: seq<nat>, v: nat, l: nat, n: nat)
    requires PathOk(p, ds) && Wf(p, l, n) && |ds| == l && Same(p0, s0, p, s, l)
    ensures Wf(SetAt(p, ds, DataPtr(v)), l, n)
    ensures Changed(p0, s0, SetAt(p, ds, DataPtr(v)), s, l, ds, true, v)
  {
    hide Lookup, Uses, Wf, PathOk, At, SetAt, Count;
    PutData(p, ds, v, l, n);
  }

  lemma AtTop(p: Ptr, u: Ptr)
    ensures PathOk(p, []) && At(p, []) == p && SetAt(p, [], u) == u
  {
  }

  lemma InodeParts(direct: seq<Ptr>, indirect: seq<Ptr>, supply: seq<nat>, n: nat, l: nat)
    requires InodeOk(direct, indirect, supply, n) && 0 < l <= 3
    ensures n > 0 && |indirect| == 3 && |direct| == DIRECT && Wf(indirect[l - 1], l, n) && Positive(supply)
  {
  }

  lemma InodeSet(direct: seq<Ptr>, indirect: seq<Ptr>, s0: seq<nat>, supply: seq<nat>, n: nat, l: nat, p: Ptr)
    requires InodeOk(direct, indirect, s0, n)
    requires 0 < l <= 3 && Wf(p, l, n) && Positive(supply)
    ensures |indirect| == 3 && InodeOk(direct, indirect[l - 1 := p], supply, n)
  {
  }

  /** The last digit is the offset in the block. */
  lemma LastDigit(n: nat, o: nat, path: seq<nat>, p: Ptr, l: nat)
    requires n > 0 && o < Per(n, 1) && PathOk(p, path) && Wf(p, l, n) && |path| + 1 == l && At(p, path).Table?
    ensures path + Digits(n, 1, o) == path + [o] && PathOk(p, path + [o])
  {
    OneDigit(n, 1, o, path, p, l);
    assert PerPos(n, 0) == 1 && o / 1 == o;
    NoDigits(n, o % PerPos(n, 0));
  }

  /** One digit further on the way. */
  lemma OneDigit(n: nat, k: nat, o: nat, path: seq<nat>, p: Ptr, l: nat)
    requires n > 0 && k > 0 && o < Per(n, k) && PathOk(p, path) && Wf(p, l, n) && |path| + k == l && At(p, path).Table?
    ensures var c, r := o / PerPos(n, k - 1), o % PerPos(n, k - 1);
      && r < Per(n, k - 1) && PathOk(p, path + [c]) && path + Digits(n, k, o) == (path + [c]) + Digits(n, k - 1, r)
  {
    hide Digits, Per, Lookup, Wf, PathOk, SetAt, At;
    DownDigits(n, k, o);
    TableSize(p, path, l, n);
    PathSnoc(p, path, o / PerPos(n, k - 1));
  }

  lemma TableSize(p: Ptr, ds: seq<nat>, l: nat, n: nat)
    requires PathOk(p, ds) && Wf(p, l, n) && |ds| < l && At(p, ds).Table?
    ensures |At(p, ds).kids| == n
  {
    SetOk(p, ds, Null, l, n);
  }

  lemma TableBelow(p: Ptr, ds: seq<nat>, l: nat, n: nat)
    requires PathOk(p, ds) && Wf(p, l, n) && |ds| < l && !At(p, ds).Null?
    ensures At(p, ds).Table?
  {
    SetOk(p, ds, Null, l, n);
  }

  lemma DirectSet(direct: seq<Ptr>, indirect: seq<Ptr>, n: nat, b: nat, v: nat)
    requires n > 0 && |direct| == DIRECT && |indirect| == 3 && b < DIRECT && Wf(direct[b], 0, n)
    ensures Wf(DataPtr(v), 0, n)
    ensures forall j: nat :: MapAt(direct[b := DataPtr(v)], indirect, n, j) ==
              if j == b then v else MapAt(direct, indirect, n, j)
    ensures forall x: nat :: x > 0 ==>
      Used(direct[b := DataPtr(v)], indirect, x) + (if x == MapAt(direct, indirect, n, b) then 1 else 0)
      == Used(direct, indirect, x) + if x == v then 1 else 0
  {
    hide Digits, Lookup, Per, UsesAll, Limit;
    forall j: nat
      ensures MapAt(direct[b := DataPtr(v)], indirect, n, j) == if j == b then v else MapAt(direct, indirect, n, j)
    {
      DirectAt(direct, indirect, n, b, v, j);
    }
    forall x: nat | x > 0
      ensures Used(direct[b := DataPtr(v)], indirect, x) + (if x == MapAt(direct, indirect, n, b) then 1 else 0)
           == Used(direct, indirect, x) + if x == v then 1 else 0
    {
      UsesSet(direct, b, DataPtr(v), x);
    }
  }

  lemma DirectAt(direct: seq<Ptr>, indirect: seq<Ptr>, n: nat, b: nat, v: nat, j: nat)
    requires n > 0 && |direct| == DIRECT && |indirect| == 3 && b < DIRECT
    ensures MapAt(direct[b := DataPtr(v)], indirect, n, j) == if j == b then v else MapAt(direct, indirect, n, j)
  {
    hide Digits, Lookup, Per, Limit;
  }

  lemma IndirectSet(direct: seq<Ptr>, was: seq<Ptr>, s0: seq<nat>, now: seq<Ptr>, s: seq<nat>, n: nat, b: nat, l: nat,
                    done: bool, v: nat)
    requires n > 0 && |direct| == DIRECT && |was| == 3 && 0 < l <= 3 && Limit(n, l - 1) <= b < Limit(n, l)
    requires |now| == 3 && now == was[l - 1 := now[l - 1]]
    requires Changed(was[l - 1], s0, now[l - 1], s, l, Digits(n, l, b - Limit(n, l - 1)), done, v)
    ensures forall j: nat :: MapAt(direct, now, n, j) == if done && j == b then v else MapAt(direct, was, n, j)
    ensures forall x: nat :: x > 0 ==>
      Used(direct, now, x) + Count(s, x) + (if done && x == MapAt(direct, was, n, b) then 1 else 0)
      == Used(direct, was, x) + Count(s0, x) + if done && x == v then 1 else 0
  {
    hide Digits, Lookup, Per, Limit, MapAt, Uses, UsesAll, Count;
    MapIs(direct, was, n, b, l);
    var ds := Digits(n, l, b - Limit(n, l - 1));
    forall j: nat
      ensures MapAt(direct, now, n, j) == if done && j == b then v else MapAt(direct, was, n, j)
    {
      MapChange(direct, was, n, b, l, now[l - 1], if done then v else Lookup(was[l - 1], ds), j);
    }
    forall x: nat | x > 0
      ensures Used(direct, now, x) + Count(s, x) + (if done && x == MapAt(direct, was, n, b) then 1 else 0)
           == Used(direct, was, x) + Count(s0, x) + if done && x == v then 1 else 0
    {
      UsesSet(was, l - 1, now[l - 1], x);
    }
  }

  lemma FirstLimit(n: nat)
    ensures Limit(n, 0) == DIRECT
  {
  }

  lemma NoDigits(n: nat, off: nat)
    requires n > 0
    ensures Digits(n, 0, off) == []
  {
  }

  lemma LookupAny(p: Ptr, w: seq<nat>)
    ensures p.Null? ==> Lookup(p, w) == 0
  {
  }

  lemma LookupStep(p: Ptr, c: nat, w: seq<nat>)
    requires p.Table? && c < |p.kids|
    ensures Lookup(p, [c] + w) == Lookup(p.kids[c], w)
  {
    assert ([c] + w)[1..] == w;
  }
}
