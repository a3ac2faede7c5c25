/** The block allocator working on the bitmaps and counters of a device. */
module Allocator {
  import opened Bitmap
  import opened Balloc
  import opened Division

  datatype Status = Ok | Enospc

  class Allocator {
    const q: Geo
    var bmaps: seq<seq<Byte>>
    var groupFree: seq<int>
    var sbFree: int
    /** The block count of the inode, in units of 512 bytes. */
    var inoBlocks: int

    constructor (q: Geo, bmaps: seq<seq<Byte>>, groupFree: seq<int>, sbFree: int, inoBlocks: int)
      requires GeoOk(q) && Consistent(q, bmaps, groupFree, sbFree)
      ensures Valid() && this.q == q && this.bmaps == bmaps && this.groupFree == groupFree
      ensures this.sbFree == sbFree && this.inoBlocks == inoBlocks
    {
      this.q, this.bmaps, this.groupFree, this.sbFree, this.inoBlocks := q, bmaps, groupFree, sbFree, inoBlocks;
    }

    ghost predicate Valid()
      reads this
    {
      GeoOk(q) && Consistent(q, bmaps, groupFree, sbFree)
    }

    /** The search in one bitmap from bit i on: the bit, its neighbours up to the next multiple of 64,
        then the whole rest. */
    method SearchNear(g: nat, i: nat) returns (found: bool, bit: nat)
      requires Valid() && g < GroupCount(q) && i < InGroup(q, g)
      ensures found ==> bit < InGroup(q, g) && bit < 8 * |bmaps[g]| && !Bit(bmaps[g], bit)
      ensures if found then FirstClear(bmaps[g], i, 8 * q.bs, bit) else NoneClear(bmaps[g], i, 8 * q.bs)
    {
      hide Bit, ClearCount, InGroup, BlocksInGroup, GroupCount, Padded, FirstClear;
      var m := bmaps[g];
      assert GroupOk(q, g, m, groupFree[g]);
      GroupSizes(q, g);
      BitOf(m, i);
      if !m[i / 8][i % 8] {
        FirstAt(m, i, i);
        return true, i;
      }
      var blocks := BlocksInGroup(q, g);
      var end := (i + 63) / 64 * 64;
      if end > blocks { end := blocks; }
      var t := i + 1;
      while t < end
        invariant i < t && (t <= end || t == i + 1) && NoneClear(m, i, t)
      {
        BitOf(m, t);
        if !m[t / 8][t % 8] {
          FirstAt(m, i, t);
          ClearInGroup(q, g, m, groupFree[g], t);
          return true, t;
        }
        t := t + 1;
      }
      var buffer := new Byte[q.bs](k requires 0 <= k < q.bs => m[k]);
      assert buffer[..] == m;
      ghost var first;
      found, bit, first := BitFindClr(buffer, i, blocks);
      if found {
        PrefixSearched(m, i, t, end, blocks, first);
        FirstWider(m, i, blocks, bit);
        ClearInGroup(q, g, m, groupFree[g], bit);
      } else {
        PaddedRest(q, g, m, i, blocks);
      }
    }

    /** A free bit is taken and the counters follow. */
    method Take(g: nat, i: nat) returns (addr: nat)
      requires Valid() && g < GroupCount(q) && i < InGroup(q, g) && i < 8 * |bmaps[g]| && !Bit(bmaps[g], i)
      modifies `bmaps, `groupFree, `sbFree, `inoBlocks
      ensures Valid()
      ensures q.fdb <= addr < q.total && GroupOf(q, addr) == g && IdxOf(q, addr) == i
      ensures Taken(q, old(bmaps), old(groupFree), bmaps, groupFree, addr)
      ensures sbFree == old(sbFree) - 1 && inoBlocks == old(inoBlocks) + q.bs / 512
    {
      hide Bit, ClearCount, InGroup, GroupCount, Padded, Consistent, WithBit;
      BmapsSize(q, bmaps, groupFree, sbFree);
      FlipOk(q, bmaps, groupFree, sbFree, g, i, true);
      AtBlock(q, g, i);
      bmaps := bmaps[g := WithBit(bmaps[g], i, true)];
      addr := Addr(q, i, g);
      sbFree := sbFree - 1;
      inoBlocks := inoBlocks + q.bs / 512;
      groupFree := groupFree[g := groupFree[g] - 1];
    }

    /** The search in another group, from its first bit on. */
    method SearchGroup(g: nat) returns (found: bool, bit: nat)
      requires Valid() && g < GroupCount(q)
      ensures found ==> bit < InGroup(q, g) && bit < 8 * |bmaps[g]| && !Bit(bmaps[g], bit)
      ensures if found then FirstClear(bmaps[g], 0, 8 * q.bs, bit) else groupFree[g] == 0
    {
      hide Bit, ClearCount, InGroup, BlocksInGroup, GroupCount, Padded, FirstClear;
      var m := bmaps[g];
      assert GroupOk(q, g, m, groupFree[g]);
      if groupFree[g] == 0 { return false, 0; }
      GroupSizes(q, g);
      var buffer := new Byte[q.bs](j requires 0 <= j < q.bs => m[j]);
      assert buffer[..] == m;
      ghost var first;
      found, bit, first := BitFindClr(buffer, 0, BlocksInGroup(q, g));
      ZeroAligned();
      if found {
        FirstWider(m, 0, BlocksInGroup(q, g), bit);
        ClearInGroup(q, g, m, groupFree[g], bit);
      } else {
        NoneInGroup(q, g, m, groupFree[g]);
      }
    }

    /** The second part of ext4_balloc_alloc_block: the groups after g, going round up to g itself. */
    method TryOthers(g: nat) returns (st: Status, addr: nat)
      requires Valid() && g < GroupCount(q)
      modifies `bmaps, `groupFree, `sbFree, `inoBlocks
      ensures Valid()
      ensures st.Enospc? ==> Unchanged(old(bmaps), old(groupFree), old(sbFree), old(inoBlocks)) && sbFree == 0
      ensures st.Ok? ==>
        && q.fdb <= addr < q.total && Taken(q, old(bmaps), old(groupFree), bmaps, groupFree, addr)
        && sbFree == old(sbFree) - 1 && inoBlocks == old(inoBlocks) + q.bs / 512
        && InNextGroup(q, old(bmaps), g, addr)
    {
      hide Bit, InGroup, GroupCount, Taken, Consistent, Turn, Visited, FirstClear, InNextGroup, GroupOf, IdxOf;
      FreeCounts(q, bmaps, groupFree, sbFree);
      BmapsSize(q, bmaps, groupFree, sbFree);
      var count := GroupCount(q);
      var n, k := count, (g + 1) % count;
      NoneVisited(groupFree, g, count);
      while n > 0
        invariant 0 <= n <= count && k == Turn(g, count, count - n)
        invariant Unchanged(old(bmaps), old(groupFree), old(sbFree), old(inoBlocks))
        invariant Visited(groupFree, g, count, count - n)
      {
        TurnIn(g, count, count - n);
        var found, bit := SearchGroup(k);
        if found {
          NextFound(q, bmaps, groupFree, sbFree, g, count - n);
          addr := Take(k, bit);
          NextIs(q, old(bmaps), g, count - n, bit, addr);
          return Ok, addr;
        }
        OneVisited(groupFree, g, count, count - n);
        k := (k + 1) % count;
        n := n - 1;
      }
      AllVisited(groupFree, g, count);
      st, addr := Enospc, 0;
    }

    /** ext4_balloc_alloc_block for a goal on the device. */
    method AllocBlock(goal: nat) returns (st: Status, addr: nat)
      requires Valid() && q.fdb <= goal < q.total
      modifies `bmaps, `groupFree, `sbFree, `inoBlocks
      ensures Valid()
      ensures st.Enospc? <==> old(sbFree) == 0
      ensures st.Enospc? ==> Unchanged(old(bmaps), old(groupFree), old(sbFree), old(inoBlocks))
      ensures st.Ok? ==>
        && q.fdb <= addr < q.total && Taken(q, old(bmaps), old(groupFree), bmaps, groupFree, addr)
        && sbFree == old(sbFree) - 1 && inoBlocks == old(inoBlocks) + q.bs / 512
        && (!Used(q, old(bmaps), goal) ==> addr == goal)
        && Nearest(q, old(bmaps), goal, addr)
    {
      hide Bit, InGroup, GroupCount, GroupOf, IdxOf, Taken, Consistent, Used, InNextGroup, FirstClear, NoneClear;
      var g, i := GroupOf(q, goal), IdxOf(q, goal);
      BlockAt(q, goal);
      BmapsSize(q, bmaps, groupFree, sbFree);
      FreeCounts(q, bmaps, groupFree, sbFree);
      GoalFree(q, bmaps, groupFree, sbFree, g);
      GoalBit(q, bmaps, goal);
      GoalBytes(q, i);
      if groupFree[g] != 0 {
        var found, bit := SearchNear(g, i);
        if found {
          NotNone(bmaps[g], i, 8 * q.bs, bit);
          if !Used(q, bmaps, goal) { FirstIsGoal(bmaps[g], i, 8 * q.bs, bit); }
          addr := Take(g, bit);
          if bit == i { SameBlock(q, addr, goal); }
          return Ok, addr;
        }
      } else {
        NoneFrom(bmaps[g], i, 8 * q.bs);
      }
      NoneThere(bmaps[g], i, 8 * q.bs);
      st, addr := TryOthers(g);
      if st.Ok? { FreeCounts(q, bmaps, groupFree, sbFree); }
    }

    /** ext4_balloc_try_alloc_block. */
    method TryAllocBlock(addr: nat) returns (free: bool)
      requires Valid() && q.fdb <= addr < q.total
      modifies `bmaps, `groupFree, `sbFree, `inoBlocks
      ensures Valid() && (free <==> !Used(q, old(bmaps), addr))
      ensures !free ==> Unchanged(old(bmaps), old(groupFree), old(sbFree), old(inoBlocks))
      ensures free ==>
        && Taken(q, old(bmaps), old(groupFree), bmaps, groupFree, addr)
        && sbFree == old(sbFree) - 1 && inoBlocks == old(inoBlocks) + q.bs / 512
    {
      hide Bit, InGroup, GroupCount, GroupOf, IdxOf, Taken, Consistent, Used;
      var g, i := GroupOf(q, addr), IdxOf(q, addr);
      BlockAt(q, addr);
      BmapsSize(q, bmaps, groupFree, sbFree);
      GoalBytes(q, i);
      GoalBit(q, bmaps, addr);
      BitOf(bmaps[g], i);
      free := !bmaps[g][i / 8][i % 8];
      if free {
        var a := Take(g, i);
        SameBlock(q, a, addr);
      }
    }

    /** ext4_balloc_free_block: the counters stay right exactly if the block was in use. */
    method FreeBlock(addr: nat)
      requires Valid() && q.fdb <= addr < q.total
      modifies `bmaps, `groupFree, `sbFree, `inoBlocks
      ensures Valid() <==> Used(q, old(bmaps), addr)
      ensures var g, i := GroupOf(q, addr), IdxOf(q, addr);
        && g < |old(bmaps)| == |old(groupFree)| && i < 8 * |old(bmaps)[g]|
        && bmaps == old(bmaps)[g := WithBit(old(bmaps)[g], i, false)]
        && groupFree == old(groupFree)[g := old(groupFree)[g] + 1]
      ensures sbFree == old(sbFree) + 1 && inoBlocks == old(inoBlocks) - q.bs / 512
    {
      hide Bit, InGroup, GroupCount, GroupOf, IdxOf, Consistent, WithBit, Used;
      var g, i := GroupOf(q, addr), IdxOf(q, addr);
      BlockAt(q, addr);
      BmapsSize(q, bmaps, groupFree, sbFree);
      GoalBytes(q, i);
      GoalBit(q, bmaps, addr);
      FlipOk(q, bmaps, groupFree, sbFree, g, i, false);
      bmaps := bmaps[g := WithBit(bmaps[g], i, false)];
      sbFree := sbFree + 1;
      inoBlocks := inoBlocks - q.bs / 512;
      groupFree := groupFree[g := groupFree[g] + 1];
    }

    /** ext4_balloc_free_blocks, which takes a group to be as long as a bitmap has bits. If groups are that long
        or the range lies in one of them, exactly its blocks become free. The counters of the file system and
        the inode always move by their number, and the counters stay right exactly if also all blocks of the
        range were in use: a range over two shorter groups clears a padding bit of the first one. In any case a
        block is free afterwards that was free or whose bit the round of its group clears. */
    method FreeBlocks(first: nat, count: nat)
      requires Valid() && q.fdb <= first && count > 0 && first + count <= q.total
      modifies `bmaps, `groupFree, `sbFree, `inoBlocks
      ensures forall b :: q.fdb <= b < q.total ==>
        (Used(q, bmaps, b) <==> Used(q, old(bmaps), b) && !InRound(q, first, count, b))
      ensures OneByOne(q, first, count) ==>
        && (forall b :: q.fdb <= b < q.total ==>
              (Used(q, bmaps, b) <==> Used(q, old(bmaps), b) && !(first <= b < first + count)))
        && AllFreed(q, first - q.fdb, count, old(bmaps), old(groupFree), bmaps, groupFree)
      ensures sbFree == old(sbFree) + count && inoBlocks == old(inoBlocks) - Sectors(q, count)
      ensures Valid() <==>
        OneByOne(q, first, count) && forall b :: first <= b < first + count ==> Used(q, old(bmaps), b)
    {
      hide Bit, InGroup, GroupCount, Consistent, Used, AllFreed, Sum, GroupOf, IdxOf, Sectors, Spans, InRound,
           RoundsDone;
      ghost var was, counters, total := bmaps, groupFree, sbFree;
      BmapsSize(q, bmaps, groupFree, sbFree);
      SumIs(q, bmaps, groupFree, sbFree);
      BlockAt(q, first + count - 1);
      SpansIs(q, first, count);
      FreeGroups(first, count, GroupOf(q, first), GroupOf(q, first + count - 1));
      RoundsUsed(q, first, count, was, counters, bmaps, groupFree, total);
      if OneByOne(q, first, count) {
        WholeAll(q, first, count, was, counters, bmaps, groupFree);
        AllFreedOk(q, first - q.fdb, count, was, counters, bmaps, groupFree, total);
      } else if Valid() {
        PaddingCleared(q, first, count, was, counters, bmaps, groupFree);
        PaddingSet(q, bmaps, groupFree, sbFree, GroupOf(q, first));
      }
    }

    /** The loop over the groups g0 to last. It ends with no block left, as the assertion after it says. */
    method FreeGroups(first: nat, count: nat, g0: nat, last: nat)
      requires GeoOk(q) && q.fdb <= first && Sum(groupFree) == sbFree
      requires Spans(q, first - q.fdb, count, g0, last) && last < |bmaps| == |groupFree|
      requires forall k :: 0 <= k < |bmaps| ==> |bmaps[k]| == q.bs
      modifies `bmaps, `groupFree, `sbFree, `inoBlocks
      ensures RoundsDone(q, first, count, g0, last + 1, old(bmaps), old(groupFree), bmaps, groupFree)
      ensures Sum(groupFree) == sbFree == old(sbFree) + count && inoBlocks == old(inoBlocks) - Sectors(q, count)
    {
      hide Bit, Sum, IdxOf, GroupOf, Spans, Sectors, RoundsDone, RoundStart, RoundDone, RoundFree, ClearedRange;
      ghost var was, counters := bmaps, groupFree;
      NoSectors(q);
      NoRound(q, first, count, g0, bmaps, groupFree);
      SpanFirst(q, first, count, g0, last);
      var g, at, left := g0, first, count;
      while g <= last
        invariant g0 <= g <= last + 1 && first <= at && at + left == first + count && SameSizes(was)
        invariant left == 0 || GroupOf(q, at) >= g
        invariant sbFree == old(sbFree) + (count - left) && inoBlocks == old(inoBlocks) - Sectors(q, count - left)
        invariant Sum(groupFree) == sbFree && at == RoundStart(q, first, count, g - g0)
        invariant RoundsDone(q, first, count, g0, g, was, counters, bmaps, groupFree)
      {
        ghost var b, c := bmaps, groupFree;
        var free := FreeInGroup(g, at, left);
        ClearedSize(b[g], bmaps[g], IdxOf(q, at), IdxOf(q, at) + free);
        PastGroup(q, at, left, free);
        MoreSectors(q, count - left, free);
        RoundIs(q, first, count, g - g0, at, left, free, b[g], bmaps[g], c[g], groupFree[g]);
        RoundOn(q, first, count, g0, g, was, counters, b, c, bmaps, groupFree);
        left, at, g := left - free, at + free, g + 1;
      }
      SpanOver(q, first, count, g0, last, at, left);
      assert left == 0;
    }

    predicate SameSizes(was: seq<seq<Byte>>)
      reads this
    {
      |bmaps| == |was| == |groupFree| && forall k :: 0 <= k < |was| ==> |bmaps[k]| == q.bs
    }

    /** One round of the loop of ext4_balloc_free_blocks: the bits from block at on, up to the end of the bitmap. */
    method FreeInGroup(g: nat, at: nat, left: nat) returns (free: nat)
      requires GeoOk(q) && g < |bmaps| == |groupFree| && |bmaps[g]| == q.bs && Sum(groupFree) == sbFree
      modifies `bmaps, `groupFree, `sbFree, `inoBlocks
      ensures var idx := IdxOf(q, at);
        && idx < q.bpg && free == (if left > 8 * q.bs - idx then 8 * q.bs - idx else left)
        && |bmaps| == |old(bmaps)| && bmaps == old(bmaps)[g := bmaps[g]]
          && ClearedRange(old(bmaps)[g], bmaps[g], idx, idx + free)
      ensures groupFree == old(groupFree)[g := old(groupFree)[g] + free]
      ensures Sum(groupFree) == sbFree == old(sbFree) + free && inoBlocks == old(inoBlocks) - Sectors(q, free)
    {
      hide Bit, ClearedRange, Sum, Rel;
      var idx := IdxOf(q, at);
      free := q.bs * 8 - idx;
      if left <= free { free := left; }
      var m := bmaps[g];
      var buffer := new Byte[q.bs](j requires 0 <= j < q.bs => m[j]);
      assert buffer[..] == m;
      BitsFree(buffer, idx, free);
      SumSet(groupFree, g, groupFree[g] + free);
      ClearedSize(m, buffer[..], idx, idx + free);
      bmaps := bmaps[g := buffer[..]];
      sbFree := sbFree + free;
      inoBlocks := inoBlocks - free * (q.bs / 512);
      groupFree := groupFree[g := groupFree[g] + free];
    }

    /** Blocks that were allocated one by one and make up a range are given back at once. */
    method FreeAllocated(first: nat, count: nat, ghost maps: seq<seq<seq<Byte>>>, ghost counters: seq<seq<int>>,
                         ghost addrs: seq<nat>, ghost total: int)
      requires Valid() && q.fdb <= first && count > 0 && first + count <= q.total && OneByOne(q, first, count)
      requires TakenAll(q, maps, counters, addrs) && Consistent(q, maps[0], counters[0], total) && |addrs| == count
      requires bmaps == maps[count] && groupFree == counters[count]
      requires forall b :: first <= b < first + count <==> b in addrs
      modifies `bmaps, `groupFree, `sbFree, `inoBlocks
      ensures Valid() && bmaps == maps[0] && groupFree == counters[0] && sbFree == total
      ensures inoBlocks == old(inoBlocks) - Sectors(q, count)
    {
      hide Bit, InGroup, GroupCount, Consistent, Used, GroupFreed, GroupOf, IdxOf, Sectors, TakenAll, AllFreed, Sum;
      assert addrs[..count] == addrs;
      forall i | 0 <= i < |addrs| ensures q.fdb <= addrs[i] < q.total { assert addrs[i] in addrs; }
      TakenUsed(q, maps, counters, addrs, count, total);
      SumIs(q, bmaps, groupFree, sbFree);
      SumIs(q, bmaps, groupFree, total - count);
      FreeBlocks(first, count);
      FreeUndoesAllocs(q, maps, counters, addrs, first, count, bmaps, groupFree, total);
    }

    predicate Unchanged(b: seq<seq<Byte>>, f: seq<int>, s: int, ino: int)
      reads this
    {
      bmaps == b && groupFree == f && sbFree == s && inoBlocks == ino
    }
  }

  /** Block addr was free and is taken; all other bits and group counters are as they were. */
  predicate Taken(q: Geo, bmaps: seq<seq<Byte>>, free: seq<int>, bmaps': seq<seq<Byte>>, free': seq<int>, addr: nat)
    requires q.bpg > 0
  {
    var g, i := GroupOf(q, addr), IdxOf(q, addr);
    && !Used(q, bmaps, addr)
    && g < |bmaps| == |free| && i < 8 * |bmaps[g]| && bmaps' == bmaps[g := WithBit(bmaps[g], i, true)]
    && free' == free[g := free[g] - 1]
  }

  /** Behind group g, going round, block addr is the first free one of the first group that has any. */
  ghost predicate InNextGroup(q: Geo, bmaps: seq<seq<Byte>>, g: nat, addr: nat)
    requires q.bpg > 0
  {
    exists t: nat :: t < |bmaps| && GroupOf(q, addr) == Turn(g, |bmaps|, t)
      && FirstClear(bmaps[Turn(g, |bmaps|, t)], 0, 8 * q.bs, IdxOf(q, addr))
      && forall u: nat :: u < t ==> NoneClear(bmaps[Turn(g, |bmaps|, u)], 0, 8 * q.bs)
  }

  /** Block addr is the first free one from the goal on in its group; without one it is in the next group. */
  ghost predicate Nearest(q: Geo, bmaps: seq<seq<Byte>>, goal: nat, addr: nat)
    requires q.bpg > 0
  {
    var g, i := GroupOf(q, goal), IdxOf(q, goal);
    && g < |bmaps|
    && if NoneClear(bmaps[g], i, 8 * q.bs) then InNextGroup(q, bmaps, g, addr)
       else GroupOf(q, addr) == g && FirstClear(bmaps[g], i, 8 * q.bs, IdxOf(q, addr))
  }

  lemma FirstAt(m: seq<Byte>, i: nat, c: nat)
    requires NoneClear(m, i, c) && i <= c < 8 * |m| && !Bit(m, c)
    ensures FirstClear(m, i, 8 * |m|, c)
  {
  }

  lemma FirstWider(m: seq<Byte>, i: nat, end: nat, c: nat)
    requires FirstClear(m, i, end, c)
    ensures FirstClear(m, i, 8 * |m|, c) && i <= c < 8 * |m| && !Bit(m, c)
  {
  }

  lemma NotNone(m: seq<Byte>, i: nat, end: nat, c: nat)
    requires FirstClear(m, i, end, c)
    ensures !NoneClear(m, i, end)
  {
  }

  lemma FirstIsGoal(m: seq<Byte>, i: nat, end: nat, c: nat)
    requires FirstClear(m, i, end, c) && i < 8 * |m| && !Bit(m, i)
    ensures c == i
  {
  }

  lemma NoneFrom(m: seq<Byte>, i: nat, end: nat)
    requires end <= 8 * |m| && forall k :: 0 <= k < end && k < 8 * |m| ==> Bit(m, k)
    ensures NoneClear(m, i, end)
  {
  }

  lemma NoneThere(m: seq<Byte>, i: nat, end: nat)
    requires NoneClear(m, i, end) && i < end
    ensures i < 8 * |m| && Bit(m, i)
  {
  }

  /** The groups before the one with the block have none. */
  lemma NextFound(q: Geo, bmaps: seq<seq<Byte>>, free: seq<int>, sbFree: int, g: nat, t: nat)
    requires q.bpg > 0 && Consistent(q, bmaps, free, sbFree) && |free| == |bmaps| > t
    requires Visited(free, g, |bmaps|, t)
    ensures forall u: nat :: u < t ==> NoneClear(bmaps[Turn(g, |bmaps|, u)], 0, 8 * q.bs)
  {
    hide Bit, Turn, Consistent, GroupCount;
    BmapsSize(q, bmaps, free, sbFree);
    forall u: nat | u < t
      ensures NoneClear(bmaps[Turn(g, |bmaps|, u)], 0, 8 * q.bs)
    {
      GoalFree(q, bmaps, free, sbFree, Turn(g, |bmaps|, u));
      NoneFrom(bmaps[Turn(g, |bmaps|, u)], 0, 8 * q.bs);
    }
  }

  lemma NextIs(q: Geo, bmaps: seq<seq<Byte>>, g: nat, t: nat, bit: nat, addr: nat)
    requires q.bpg > 0 && t < |bmaps|
    requires GroupOf(q, addr) == Turn(g, |bmaps|, t) && IdxOf(q, addr) == bit
    requires FirstClear(bmaps[Turn(g, |bmaps|, t)], 0, 8 * q.bs, bit)
    requires forall u: nat :: u < t ==> NoneClear(bmaps[Turn(g, |bmaps|, u)], 0, 8 * q.bs)
    ensures InNextGroup(q, bmaps, g, addr)
  {
    hide Turn, GroupOf, IdxOf, FirstClear, NoneClear;
  }

  /** Freeing a block just allocated restores every bit and every group counter. */
  lemma FreeUndoesAlloc(q: Geo, bmaps: seq<seq<Byte>>, free: seq<int>, bmaps': seq<seq<Byte>>, free': seq<int>,
                        addr: nat)
    requires q.bpg > 0 && Taken(q, bmaps, free, bmaps', free', addr)
    ensures var g, i := GroupOf(q, addr), IdxOf(q, addr);
      && g < |bmaps'| == |free'| && i < 8 * |bmaps'[g]|
      && bmaps'[g := WithBit(bmaps'[g], i, false)] == bmaps && free'[g := free'[g] + 1] == free
  {
    hide GroupOf, IdxOf;
    var g, i := GroupOf(q, addr), IdxOf(q, addr);
    var m := bmaps[g];
    assert m[i / 8][i % 8 := true][i % 8 := false] == m[i / 8];
    assert WithBit(WithBit(m, i, true), i, false) == m;
  }

  /** Bitmaps and counters while blocks are allocated one after the other. */
  ghost predicate TakenAll(q: Geo, maps: seq<seq<seq<Byte>>>, counters: seq<seq<int>>, addrs: seq<nat>)
    requires q.bpg > 0
  {
    && |maps| == |counters| == |addrs| + 1
    && forall i :: 0 <= i < |addrs| ==> Taken(q, maps[i], counters[i], maps[i + 1], counters[i + 1], addrs[i])
  }

  /** The bit of one of these blocks. */
  predicate BitOfOne(q: Geo, addrs: seq<nat>, g: nat, k: nat)
    requires q.bpg > 0
  {
    exists i :: 0 <= i < |addrs| && GroupOf(q, addrs[i]) == g && IdxOf(q, addrs[i]) == k
  }

  /** What allocating these blocks has changed: their bits were clear and are set. */
  predicate BitsTaken(q: Geo, addrs: seq<nat>, bmaps: seq<seq<Byte>>, bmaps': seq<seq<Byte>>)
    requires q.bpg > 0
  {
    && |bmaps'| == |bmaps|
    && forall g :: 0 <= g < |bmaps| ==> MapTaken(q, addrs, g, bmaps[g], bmaps'[g])
  }

  predicate MapTaken(q: Geo, addrs: seq<nat>, g: nat, m: seq<Byte>, m': seq<Byte>)
    requires q.bpg > 0
  {
    && |m'| == |m|
    && forall k :: 0 <= k < 8 * |m| ==>
         Bit(m', k) == (BitOfOne(q, addrs, g, k) || Bit(m, k)) && (BitOfOne(q, addrs, g, k) ==> !Bit(m, k))
  }

  lemma {:induction false} TakenBits(q: Geo, maps: seq<seq<seq<Byte>>>, counters: seq<seq<int>>, addrs: seq<nat>,
                                     n: nat, total: int)
    requires GeoOk(q) && TakenAll(q, maps, counters, addrs) && n <= |addrs|
      && Consistent(q, maps[0], counters[0], total)
    requires forall i :: 0 <= i < |addrs| ==> q.fdb <= addrs[i] < q.total
    ensures BitsTaken(q, addrs[..n], maps[0], maps[n]) && Consistent(q, maps[n], counters[n], total - n)
    decreases n
  {
    hide Taken, Consistent, BitsTaken;
    if n == 0 {
      NoneTaken(q, maps[0]);
      assert addrs[..0] == [];
    } else {
      TakenBits(q, maps, counters, addrs, n - 1, total);
      assert Taken(q, maps[n - 1], counters[n - 1], maps[n - 1 + 1], counters[n - 1 + 1], addrs[n - 1]);
      TakenNext(q, addrs, n - 1, maps[0], maps[n - 1], counters[n - 1], maps[n], counters[n], total - (n - 1));
    }
  }

  /** They are all in use afterwards. */
  lemma TakenUsed(q: Geo, maps: seq<seq<seq<Byte>>>, counters: seq<seq<int>>, addrs: seq<nat>, n: nat, total: int)
    requires GeoOk(q) && TakenAll(q, maps, counters, addrs) && n == |addrs|
      && Consistent(q, maps[0], counters[0], total)
    requires forall i :: 0 <= i < |addrs| ==> q.fdb <= addrs[i] < q.total
    ensures Consistent(q, maps[n], counters[n], total - n)
    ensures forall b :: b in addrs ==> Used(q, maps[n], b)
  {
    hide Bit, GroupOf, IdxOf, Taken, Consistent;
    TakenBits(q, maps, counters, addrs, n, total);
    assert addrs[..n] == addrs;
    forall b | b in addrs
      ensures Used(q, maps[n], b)
    {
      var i :| 0 <= i < |addrs| && addrs[i] == b;
      BlockAt(q, b);
      BmapsSize(q, maps[0], counters[0], total);
      IdxInGroup(q, b);
      assert MapTaken(q, addrs, GroupOf(q, b), maps[0][GroupOf(q, b)], maps[n][GroupOf(q, b)]);
      assert BitOfOne(q, addrs, GroupOf(q, b), IdxOf(q, b));
    }
  }

  lemma NoneTaken(q: Geo, bmaps: seq<seq<Byte>>)
    requires q.bpg > 0
    ensures BitsTaken(q, [], bmaps, bmaps)
  {
    hide Bit;
  }

  lemma TakenNext(q: Geo, addrs: seq<nat>, n: nat, bmaps: seq<seq<Byte>>, mid: seq<seq<Byte>>, free: seq<int>,
                  bmaps': seq<seq<Byte>>, free': seq<int>, total: int)
    requires GeoOk(q) && n < |addrs| && BitsTaken(q, addrs[..n], bmaps, mid) && Consistent(q, mid, free, total)
    requires q.fdb <= addrs[n] < q.total && Taken(q, mid, free, bmaps', free', addrs[n])
    ensures BitsTaken(q, addrs[..n + 1], bmaps, bmaps') && Consistent(q, bmaps', free', total - 1)
  {
    hide Bit, WithBit, GroupOf, IdxOf, Consistent, MapTaken;
    var g, i := GroupOf(q, addrs[n]), IdxOf(q, addrs[n]);
    BlockAt(q, addrs[n]);
    GoalBit(q, mid, addrs[n]);
    FlipOk(q, mid, free, total, g, i, true);
    forall x | 0 <= x < |bmaps|
      ensures MapTaken(q, addrs[..n + 1], x, bmaps[x], bmaps'[x])
    {
      assert MapTaken(q, addrs[..n], x, bmaps[x], mid[x]);
      MapNext(q, addrs, n, x, bmaps[x], mid[x], bmaps'[x]);
    }
  }

  lemma OneMore(q: Geo, addrs: seq<nat>, n: nat, g: nat, k: nat)
    requires q.bpg > 0 && n < |addrs|
    ensures BitOfOne(q, addrs[..n + 1], g, k) <==>
            BitOfOne(q, addrs[..n], g, k) || (GroupOf(q, addrs[n]) == g && IdxOf(q, addrs[n]) == k)
  {
    hide GroupOf, IdxOf;
    var a, b := addrs[..n], addrs[..n + 1];
    assert b == a + [addrs[n]];
    if BitOfOne(q, a, g, k) {
      var j :| 0 <= j < |a| && GroupOf(q, a[j]) == g && IdxOf(q, a[j]) == k;
      assert b[j] == a[j];
    }
    if GroupOf(q, addrs[n]) == g && IdxOf(q, addrs[n]) == k { assert b[n] == addrs[n]; }
    if BitOfOne(q, b, g, k) {
      var j :| 0 <= j < |b| && GroupOf(q, b[j]) == g && IdxOf(q, b[j]) == k;
      if j < n { assert a[j] == b[j]; }
    }
  }

  lemma MapNext(q: Geo, addrs: seq<nat>, n: nat, x: nat, m: seq<Byte>, mid: seq<Byte>, m': seq<Byte>)
    requires q.bpg > 0 && n < |addrs| && MapTaken(q, addrs[..n], x, m, mid)
    requires var g, i := GroupOf(q, addrs[n]), IdxOf(q, addrs[n]);
      if g == x then i < 8 * |mid| && !Bit(mid, i) && m' == WithBit(mid, i, true) else m' == mid
    ensures MapTaken(q, addrs[..n + 1], x, m, m')
  {
    hide Bit, WithBit, GroupOf, IdxOf, BitOfOne;
    forall k | 0 <= k < 8 * |m|
      ensures Bit(m', k) == (BitOfOne(q, addrs[..n + 1], x, k) || Bit(m, k))
      ensures BitOfOne(q, addrs[..n + 1], x, k) ==> !Bit(m, k)
    {
      OneMore(q, addrs, n, x, k);
      if GroupOf(q, addrs[n]) == x { WithBitAt(mid, IdxOf(q, addrs[n]), true, k); }
    }
  }

  lemma SameBits(m: seq<Byte>, w: seq<Byte>)
    requires |m| == |w| && forall k :: 0 <= k < 8 * |m| ==> Bit(m, k) == Bit(w, k)
    ensures m == w
  {
    forall i | 0 <= i < |m|
      ensures m[i] == w[i]
    {
      forall j | 0 <= j < 8
        ensures m[i][j] == w[i][j]
      {
        assert Bit(m, 8 * i + j) == Bit(w, 8 * i + j);
        assert (8 * i + j) / 8 == i && (8 * i + j) % 8 == j;
      }
    }
  }

  /** The bits of the range are those of the blocks that were allocated. */
  lemma RangeIs(q: Geo, addrs: seq<nat>, first: nat, count: nat, g: nat, k: nat)
    requires GeoOk(q) && q.fdb <= first && first + count <= q.total && k < 8 * q.bs
    requires forall b :: first <= b < first + count <==> b in addrs
    ensures BitOfOne(q, addrs, g, k) <==> Lo(q, first - q.fdb, g) <= k < Hi(q, first - q.fdb, count, g)
  {
    hide GroupOf, IdxOf, Lo;
    var r := first - q.fdb;
    if i :| 0 <= i < |addrs| && GroupOf(q, addrs[i]) == g && IdxOf(q, addrs[i]) == k {
      assert addrs[i] in addrs;
      Balloc.InRange(q, r, count, addrs[i]);
    }
    if Lo(q, r, g) <= k < Hi(q, r, count, g) {
      RangeInGroup(q, r, count, g);
      AtBlock(q, g, k);
      var b := Addr(q, k, g);
      Balloc.InRange(q, r, count, b);
      assert first <= b < first + count && b in addrs;
      var i :| 0 <= i < |addrs| && addrs[i] == b;
    }
  }

  /** Freeing a range undoes the allocations of its blocks, in whatever order they were made: every bit and
      every group counter is as before. */
  lemma FreeUndoesAllocs(q: Geo, maps: seq<seq<seq<Byte>>>, counters: seq<seq<int>>, addrs: seq<nat>, first: nat,
                         count: nat, bmaps': seq<seq<Byte>>, free': seq<int>, total: int)
    requires GeoOk(q) && TakenAll(q, maps, counters, addrs) && Consistent(q, maps[0], counters[0], total)
    requires q.fdb <= first && first + count <= q.total && |addrs| == count
    requires forall b :: first <= b < first + count <==> b in addrs
    requires AllFreed(q, first - q.fdb, count, maps[count], counters[count], bmaps', free')
    requires Consistent(q, bmaps', free', total)
    ensures bmaps' == maps[0] && free' == counters[0]
  {
    hide Bit, GroupOf, IdxOf, BitOfOne, Taken, InGroup, Lo, GroupCount, ClearCount, Sum, Padded;
    assert addrs[..count] == addrs;
    forall i | 0 <= i < |addrs| ensures q.fdb <= addrs[i] < q.total { assert addrs[i] in addrs; }
    TakenBits(q, maps, counters, addrs, count, total);
    forall g | 0 <= g < |maps[0]|
      ensures bmaps'[g] == maps[0][g] && free'[g] == counters[0][g]
    {
      assert GroupFreed(q, first - q.fdb, count, g, maps[count][g], bmaps'[g], counters[count][g], free'[g]);
      assert MapTaken(q, addrs, g, maps[0][g], maps[count][g]);
      assert GroupOk(q, g, maps[0][g], counters[0][g]) && GroupOk(q, g, bmaps'[g], free'[g]);
      MapBack(q, addrs, first, count, g, maps[0][g], maps[count][g], bmaps'[g]);
    }
  }

  lemma MapBack(q: Geo, addrs: seq<nat>, first: nat, count: nat, g: nat, m: seq<Byte>, mid: seq<Byte>, w: seq<Byte>)
    requires GeoOk(q) && q.fdb <= first && first + count <= q.total && |m| == q.bs
    requires forall b :: first <= b < first + count <==> b in addrs
    requires MapTaken(q, addrs, g, m, mid)
    requires ClearedRange(mid, w, Lo(q, first - q.fdb, g), Hi(q, first - q.fdb, count, g))
    ensures w == m
  {
    hide Bit, BitOfOne, Lo;
    forall k | 0 <= k < 8 * |m|
      ensures Bit(w, k) == Bit(m, k)
    {
      RangeIs(q, addrs, first, count, g, k);
    }
    SameBits(w, m);
  }

  lemma BmapsSize(q: Geo, bmaps: seq<seq<Byte>>, free: seq<int>, sbFree: int)
    requires q.bpg > 0 && Consistent(q, bmaps, free, sbFree)
    ensures |bmaps| == |free| == GroupCount(q)
    ensures forall g :: 0 <= g < |bmaps| ==> |bmaps[g]| == q.bs
  {
    forall g | 0 <= g < |bmaps|
      ensures |bmaps[g]| == q.bs
    {
      assert GroupOk(q, g, bmaps[g], free[g]);
    }
  }

  /** The near search has been over the bits before the first whole byte, so the faulty report of the
      bitmap search cannot happen. */
  lemma PrefixSearched(m: seq<Byte>, i: nat, t: nat, end: nat, blocks: nat, first: nat)
    requires i < blocks && NoneClear(m, i, t) && i < t && t >= end
    requires end == if (i + 63) / 64 * 64 > blocks then blocks else (i + 63) / 64 * 64
    requires FirstClear(m, i, blocks, first) && Bit(m, i)
    ensures first >= Aligned(i)
  {
    hide Bit, Aligned;
    Rounded(i);
    assert first >= t;
  }

  lemma Rounded(i: nat)
    ensures Aligned(i) <= (i + 63) / 64 * 64
  {
    var a, b := (i + 7) / 8, (i + 63) / 64;
    assert 8 * a <= i + 7 && 64 * b >= i;
  }

  lemma PaddedRest(q: Geo, g: nat, m: seq<Byte>, i: nat, blocks: nat)
    requires Padded(q, g, m) && InGroup(q, g) <= blocks && NoneClear(m, i, blocks)
    ensures forall k :: i <= k < 8 * |m| ==> Bit(m, k)
  {
  }

  /** If the search from a clear bit of the goal's group on finds nothing, that bit was not clear. */
  lemma GoalFree(q: Geo, bmaps: seq<seq<Byte>>, free: seq<int>, sbFree: int, g: nat)
    requires q.bpg > 0 && Consistent(q, bmaps, free, sbFree) && g < |bmaps|
    ensures free[g] == 0 ==> forall k :: 0 <= k < 8 * q.bs && k < 8 * |bmaps[g]| ==> Bit(bmaps[g], k)
  {
    hide Bit, ClearCount;
    assert GroupOk(q, g, bmaps[g], free[g]);
    CountZero(bmaps[g], 8 * q.bs);
  }

  lemma GoalBit(q: Geo, bmaps: seq<seq<Byte>>, b: nat)
    requires q.bpg > 0 && GroupOf(q, b) < |bmaps| && IdxOf(q, b) < 8 * |bmaps[GroupOf(q, b)]|
    ensures Used(q, bmaps, b) <==> Bit(bmaps[GroupOf(q, b)], IdxOf(q, b))
  {
  }

  lemma GoalBytes(q: Geo, i: nat)
    requires GeoOk(q) && i < q.bpg
    ensures i < 8 * q.bs
  {
  }

  lemma ZeroAligned()
    ensures Aligned(0) == 0
  {
  }

  /** The t-th group after g, going round. */
  function Turn(g: nat, count: nat, t: nat): (k: nat)
    requires count > 0
    ensures k < count
  {
    (g + 1 + t) % count
  }

  predicate Visited(free: seq<int>, g: nat, count: nat, n: nat) {
    |free| == count > 0 && forall t :: 0 <= t < n ==> free[Turn(g, count, t)] == 0
  }

  lemma NoneVisited(free: seq<int>, g: nat, count: nat)
    requires |free| == count > 0
    ensures Visited(free, g, count, 0) && Turn(g, count, 0) == (g + 1) % count
  {
  }

  lemma TurnIn(g: nat, count: nat, t: nat)
    requires count > 0
    ensures Turn(g, count, t) < count && (Turn(g, count, t) + 1) % count == Turn(g, count, t + 1)
  {
    NextModulo(g + 1 + t, count);
  }

  lemma OneVisited(free: seq<int>, g: nat, count: nat, n: nat)
    requires Visited(free, g, count, n) && free[Turn(g, count, n)] == 0
    ensures Visited(free, g, count, n + 1)
  {
    hide Turn;
  }

  lemma SumIs(q: Geo, bmaps: seq<seq<Byte>>, free: seq<int>, sbFree: int)
    requires q.bpg > 0 && Consistent(q, bmaps, free, sbFree)
    ensures sbFree == Sum(free)
  {
  }

  lemma RelIs(q: Geo, b: nat)
    requires GeoOk(q) && q.fdb <= b
    ensures Rel(q, b) == b - q.fdb && GroupOf(q, b) == (b - q.fdb) / q.bpg && IdxOf(q, b) == (b - q.fdb) % q.bpg
  {
  }

  /** Blocks in units of 512 bytes. */
  function Sectors(q: Geo, n: nat): nat { n * (q.bs / 512) }

  lemma NoSectors(q: Geo)
    ensures Sectors(q, 0) == 0
  {
  }

  lemma MoreSectors(q: Geo, a: nat, b: nat)
    ensures Sectors(q, a + b) == Sectors(q, a) + Sectors(q, b)
  {
  }

  /** The first and the last group of a range. */
  predicate Spans(q: Geo, r: nat, n: nat, g: nat, last: nat)
    requires q.bpg > 0
  {
    n > 0 && g == r / q.bpg && last == (r + n - 1) / q.bpg && g <= last
  }

  lemma SpansIs(q: Geo, first: nat, count: nat)
    requires GeoOk(q) && q.fdb <= first && count > 0
    ensures Spans(q, first - q.fdb, count, GroupOf(q, first), GroupOf(q, first + count - 1))
  {
    RelIs(q, first);
    RelIs(q, first + count - 1);
    var r := first - q.fdb;
    DivBounds(r, q.bpg, r / q.bpg);
    DivBounds(r + count - 1, q.bpg, r / q.bpg);
  }

  /** How many bits a round clears, from block `at` on. */
  function RoundFree(q: Geo, at: nat, left: nat): (n: nat)
    requires q.bpg > 0
    ensures n <= left
  {
    if left > 8 * q.bs - IdxOf(q, at) then if IdxOf(q, at) <= 8 * q.bs then 8 * q.bs - IdxOf(q, at) else 0 else left
  }

  /** The block at which round n of the loop in ext4_balloc_free_blocks begins. */
  function RoundStart(q: Geo, first: nat, count: nat, n: nat): (at: nat)
    requires q.bpg > 0
    ensures first <= at <= first + count
  {
    if n == 0 then first
    else
      var a := RoundStart(q, first, count, n - 1);
      a + RoundFree(q, a, first + count - a)
  }

  /** The round of the group of block b clears its bit. */
  predicate InRound(q: Geo, first: nat, count: nat, b: nat)
    requires q.bpg > 0 && count > 0
  {
    && GroupOf(q, first) <= GroupOf(q, b) <= GroupOf(q, first + count - 1)
    && var at := RoundStart(q, first, count, GroupOf(q, b) - GroupOf(q, first));
    IdxOf(q, at) <= IdxOf(q, b) < IdxOf(q, at) + RoundFree(q, at, first + count - at)
  }

  predicate RoundDone(q: Geo, first: nat, count: nat, n: nat, m: seq<Byte>, w: seq<Byte>, f: int, f': int)
    requires q.bpg > 0
  {
    var at := RoundStart(q, first, count, n);
    var free := RoundFree(q, at, first + count - at);
    ClearedRange(m, w, IdxOf(q, at), IdxOf(q, at) + free) && f' == f + free
  }

  /** The rounds of the groups from g0 up to g are done, the other groups are as they were. */
  ghost predicate RoundsDone(q: Geo, first: nat, count: nat, g0: nat, g: nat, bmaps: seq<seq<Byte>>, free: seq<int>,
                             bmaps': seq<seq<Byte>>, free': seq<int>)
    requires q.bpg > 0
  {
    && |bmaps'| == |bmaps| == |free| == |free'|
    && forall k :: 0 <= k < |bmaps| ==>
         if g0 <= k < g then RoundDone(q, first, count, k - g0, bmaps[k], bmaps'[k], free[k], free'[k])
         else bmaps'[k] == bmaps[k] && free'[k] == free[k]
  }

  lemma NoRound(q: Geo, first: nat, count: nat, g0: nat, bmaps: seq<seq<Byte>>, free: seq<int>)
    requires q.bpg > 0 && |bmaps| == |free|
    ensures RoundsDone(q, first, count, g0, g0, bmaps, free, bmaps, free) && RoundStart(q, first, count, 0) == first
  {
  }

  lemma RoundOn(q: Geo, first: nat, count: nat, g0: nat, g: nat, was: seq<seq<Byte>>, counters: seq<int>,
                b: seq<seq<Byte>>, c: seq<int>, bmaps: seq<seq<Byte>>, free: seq<int>)
    requires q.bpg > 0 && g0 <= g < |b| && RoundsDone(q, first, count, g0, g, was, counters, b, c)
    requires |bmaps| == |b| && bmaps == b[g := bmaps[g]] && |free| == |c| && free == c[g := free[g]]
    requires RoundDone(q, first, count, g - g0, b[g], bmaps[g], c[g], free[g])
    ensures RoundsDone(q, first, count, g0, g + 1, was, counters, bmaps, free)
    ensures var at := RoundStart(q, first, count, g - g0);
      RoundStart(q, first, count, g + 1 - g0) == at + RoundFree(q, at, first + count - at)
  {
    hide RoundDone, IdxOf;
    assert b[g] == was[g] && c[g] == counters[g];
  }

  lemma RoundIs(q: Geo, first: nat, count: nat, n: nat, at: nat, left: nat, free: nat, m: seq<Byte>, w: seq<Byte>,
                f: int, f': int)
    requires GeoOk(q) && at == RoundStart(q, first, count, n) && at + left == first + count
    requires var idx := IdxOf(q, at);
      free == (if left > 8 * q.bs - idx then 8 * q.bs - idx else left) && ClearedRange(m, w, idx, idx + free)
    requires f' == f + free
    ensures RoundDone(q, first, count, n, m, w, f, f') && free == RoundFree(q, at, left)
  {
    hide ClearedRange, RoundStart, Bit;
    IdxInGroup(q, at);
  }

  /** The bits of the blocks after all rounds. */
  lemma RoundsUsed(q: Geo, first: nat, count: nat, bmaps: seq<seq<Byte>>, free: seq<int>, bmaps': seq<seq<Byte>>,
                   free': seq<int>, total: int)
    requires GeoOk(q) && Consistent(q, bmaps, free, total) && count > 0
    requires RoundsDone(q, first, count, GroupOf(q, first), GroupOf(q, first + count - 1) + 1, bmaps, free, bmaps',
                        free')
    ensures forall b :: q.fdb <= b < q.total ==>
      (Used(q, bmaps', b) <==> Used(q, bmaps, b) && !InRound(q, first, count, b))
  {
    hide Bit, GroupOf, IdxOf, Consistent, RoundStart, RoundFree;
    BmapsSize(q, bmaps, free, total);
    forall b | q.fdb <= b < q.total
      ensures Used(q, bmaps', b) <==> Used(q, bmaps, b) && !InRound(q, first, count, b)
    {
      BlockAt(q, b);
      IdxInGroup(q, b);
    }
  }

  /** With groups as long as their bitmaps, or one group, each round begins where the range goes on. */
  lemma {:induction false} WholeStart(q: Geo, first: nat, count: nat, g0: nat, last: nat, g: nat)
    requires GeoOk(q) && q.fdb <= first && Spans(q, first - q.fdb, count, g0, last) && g0 <= g <= last + 1
    requires q.bpg == 8 * q.bs || g0 == last
    ensures RoundStart(q, first, count, g - g0) == Reached(q, first - q.fdb, count, g) + q.fdb
    decreases g
  {
    hide Lo, Hi, Reached, IdxOf, GroupOf, Spans, RoundFree;
    var r := first - q.fdb;
    SpanFirst(q, first, count, g0, last);
    if g > g0 {
      WholeStart(q, first, count, g0, last, g - 1);
      var at := RoundStart(q, first, count, g - 1 - g0);
      FreeIs(q, at, first + count - at);
      SpanStep(q, r, count, g0, last, g - 1, at, first + count - at);
      SpanFree(q, r, count, g0, last, g - 1, at, first + count - at, RoundFree(q, at, first + count - at));
    }
  }

  lemma FreeIs(q: Geo, at: nat, left: nat)
    requires GeoOk(q)
    ensures var idx := IdxOf(q, at);
      idx < q.bpg && RoundFree(q, at, left) == if left > 8 * q.bs - idx then 8 * q.bs - idx else left
  {
    IdxInGroup(q, at);
  }

  lemma WholeRound(q: Geo, first: nat, count: nat, g0: nat, last: nat, g: nat, m: seq<Byte>, w: seq<Byte>, f: int,
                   f': int)
    requires GeoOk(q) && q.fdb <= first && Spans(q, first - q.fdb, count, g0, last) && g0 <= g <= last
    requires q.bpg == 8 * q.bs || g0 == last
    requires RoundDone(q, first, count, g - g0, m, w, f, f')
    ensures GroupFreed(q, first - q.fdb, count, g, m, w, f, f')
  {
    hide Lo, Hi, Reached, IdxOf, GroupOf, Spans, RoundFree, RoundStart, Bit, ClearedRange;
    var at := RoundStart(q, first, count, g - g0);
    WholeStart(q, first, count, g0, last, g);
    FreeIs(q, at, first + count - at);
    SpanFree(q, first - q.fdb, count, g0, last, g, at, first + count - at, RoundFree(q, at, first + count - at));
  }

  lemma WholeAll(q: Geo, first: nat, count: nat, bmaps: seq<seq<Byte>>, free: seq<int>, bmaps': seq<seq<Byte>>,
                 free': seq<int>)
    requires GeoOk(q) && q.fdb <= first && count > 0 && OneByOne(q, first, count)
    requires GroupOf(q, first + count - 1) < |bmaps|
    requires RoundsDone(q, first, count, GroupOf(q, first), GroupOf(q, first + count - 1) + 1, bmaps, free, bmaps',
                        free')
    ensures AllFreed(q, first - q.fdb, count, bmaps, free, bmaps', free')
  {
    hide Lo, Hi, Reached, IdxOf, GroupOf, Spans, RoundStart, RoundDone, GroupFreed;
    var g0, last, r := GroupOf(q, first), GroupOf(q, first + count - 1), first - q.fdb;
    SpansIs(q, first, count);
    SpanStarts(q, r, count, g0, last, bmaps, free);
    SpanEnds(q, r, count, g0, last, bmaps, free);
    forall g | 0 <= g < |bmaps|
      ensures GroupFreed(q, r, count, g, bmaps[g], bmaps'[g], free[g], free'[g])
    {
      if g0 <= g <= last { WholeRound(q, first, count, g0, last, g, bmaps[g], bmaps'[g], free[g], free'[g]); }
    }
  }

  /** Otherwise the first round clears the bit behind its group. */
  lemma PaddingCleared(q: Geo, first: nat, count: nat, bmaps: seq<seq<Byte>>, free: seq<int>, bmaps': seq<seq<Byte>>,
                       free': seq<int>)
    requires GeoOk(q) && q.fdb <= first && count > 0 && !OneByOne(q, first, count)
    requires GroupOf(q, first) < |bmaps| && |bmaps[GroupOf(q, first)]| == q.bs
    requires RoundsDone(q, first, count, GroupOf(q, first), GroupOf(q, first + count - 1) + 1, bmaps, free, bmaps',
                        free')
    ensures q.bpg < 8 * q.bs && GroupOf(q, first) < |bmaps'| && |bmaps'[GroupOf(q, first)]| == q.bs
    ensures !Bit(bmaps'[GroupOf(q, first)], q.bpg)
  {
    hide IdxOf, GroupOf, Spans, RoundDone, Bit, RoundFree;
    var g0 := GroupOf(q, first);
    SpansIs(q, first, count);
    SpanLater(q, first, count);
    SpanCrosses(q, first, count, g0, GroupOf(q, first + count - 1));
    FreeIs(q, first, count);
    FirstRound(q, first, count, bmaps[g0], bmaps'[g0], free[g0], free'[g0]);
    ClearedSize(bmaps[g0], bmaps'[g0], IdxOf(q, first), IdxOf(q, first) + RoundFree(q, first, count));
    ClearedBit(bmaps[g0], bmaps'[g0], IdxOf(q, first), IdxOf(q, first) + RoundFree(q, first, count), q.bpg);
  }

  lemma SpanLater(q: Geo, first: nat, count: nat)
    requires GeoOk(q) && q.fdb <= first && count > 0 && !OneByOne(q, first, count)
    ensures GroupOf(q, first) < GroupOf(q, first + count - 1) && q.bpg < 8 * q.bs
  {
    hide GroupOf;
    RangeGroups(q, first, count, first + count - 1);
    IdxInGroup(q, first);
  }

  lemma FirstRound(q: Geo, first: nat, count: nat, m: seq<Byte>, w: seq<Byte>, f: int, f': int)
    requires q.bpg > 0 && RoundDone(q, first, count, 0, m, w, f, f')
    ensures ClearedRange(m, w, IdxOf(q, first), IdxOf(q, first) + RoundFree(q, first, count))
  {
  }

  lemma SpanFirst(q: Geo, first: nat, count: nat, g0: nat, last: nat)
    requires GeoOk(q) && q.fdb <= first && Spans(q, first - q.fdb, count, g0, last)
    ensures GroupOf(q, first) == g0 <= last && count > 0 && Reached(q, first - q.fdb, count, g0) == first - q.fdb
  {
    hide Reached;
    RelIs(q, first);
    RangeBegins(q, first - q.fdb, count, g0);
  }

  /** When the range is no longer than the rest of the bitmap of its first group, only that group's blocks become
      free: those of the other groups stay in use. */
  lemma ShortRange(q: Geo, first: nat, count: nat, b: nat)
    requires GeoOk(q) && q.fdb <= first && 0 < count <= 8 * q.bs - IdxOf(q, first) && first <= b < first + count
    ensures InRound(q, first, count, b) <==> GroupOf(q, b) == GroupOf(q, first)
  {
    hide GroupOf, IdxOf;
    var n := GroupOf(q, b) - GroupOf(q, first);
    RangeGroups(q, first, count, b);
    if n > 0 { AllInFirst(q, first, count, n); } else { SameGroup(q, first, b); }
  }

  lemma {:induction false} AllInFirst(q: Geo, first: nat, count: nat, n: nat)
    requires q.bpg > 0 && count <= 8 * q.bs - IdxOf(q, first) && n > 0
    ensures RoundStart(q, first, count, n) == first + count
    decreases n
  {
    hide IdxOf;
    if n > 1 { AllInFirst(q, first, count, n - 1); }
    assert RoundStart(q, first, count, n - 1) == if n == 1 then first else first + count;
  }

  lemma RangeGroups(q: Geo, first: nat, count: nat, b: nat)
    requires GeoOk(q) && q.fdb <= first && first <= b < first + count
    ensures GroupOf(q, first) <= GroupOf(q, b) <= GroupOf(q, first + count - 1)
  {
    RelIs(q, first);
    RelIs(q, b);
    RelIs(q, first + count - 1);
    DivOrder(first - q.fdb, b - q.fdb, q.bpg);
    DivOrder(b - q.fdb, first + count - 1 - q.fdb, q.bpg);
  }

  lemma DivOrder(x: nat, y: nat, d: nat)
    requires d > 0 && x <= y
    ensures x / d <= y / d
  {
    DivBounds(y, d, x / d);
    DivBounds(x, d, x / d);
  }

  lemma SameGroup(q: Geo, a: nat, b: nat)
    requires GeoOk(q) && q.fdb <= a <= b && GroupOf(q, a) == GroupOf(q, b)
    ensures IdxOf(q, b) == IdxOf(q, a) + (b - a)
  {
    RelIs(q, a);
    RelIs(q, b);
    var x, y := a - q.fdb, b - q.fdb;
    assert x == q.bpg * (x / q.bpg) + x % q.bpg && y == q.bpg * (y / q.bpg) + y % q.bpg;
  }

  /** Groups are as long as their bitmaps, or the range lies in one group. */
  predicate OneByOne(q: Geo, first: nat, count: nat)
    requires q.bpg > 0 && count > 0
  {
    q.bpg == 8 * q.bs || GroupOf(q, first) == GroupOf(q, first + count - 1)
  }

  /** A device of two groups of eight blocks, all of them in use. */
  const SHORT := Geo(8, 16, 0, 1024)

  const FULL: seq<Byte> := seq(1024, i => ONES)

  /** Freeing all its blocks at once leaves counters that are wrong. */
  lemma ShortGroups()
    ensures GeoOk(SHORT) && Consistent(SHORT, [FULL, FULL], [0, 0], 0) && !OneByOne(SHORT, 0, 16)
    ensures forall b :: 0 <= b < 16 ==> Used(SHORT, [FULL, FULL], b)
  {
    forall i | 0 <= i < 8192
      ensures Bit(FULL, i)
    {
    }
    CountZero(FULL, 8192);
    assert Sum([0, 0]) == 0;
  }

  /** A clear bit behind the last block of a group is no padding. */
  lemma PaddingSet(q: Geo, bmaps: seq<seq<Byte>>, free: seq<int>, sbFree: int, g: nat)
    requires GeoOk(q) && Consistent(q, bmaps, free, sbFree) && g < |bmaps| && q.bpg < 8 * q.bs
    ensures |bmaps[g]| == q.bs && Bit(bmaps[g], q.bpg)
  {
    hide Bit;
    assert GroupOk(q, g, bmaps[g], free[g]);
    assert InGroup(q, g) <= q.bpg;
  }

  lemma ClearedSize(m: seq<Byte>, w: seq<Byte>, from: nat, end: nat)
    requires ClearedRange(m, w, from, end)
    ensures |w| == |m|
  {
  }

  lemma ClearedBit(m: seq<Byte>, w: seq<Byte>, from: nat, end: nat, k: nat)
    requires ClearedRange(m, w, from, end) && from <= k < end && k < 8 * |m|
    ensures !Bit(w, k)
  {
  }

  /** In a range over several groups more blocks are left than the first one has from there on. */
  lemma SpanCrosses(q: Geo, first: nat, count: nat, g0: nat, last: nat)
    requires GeoOk(q) && q.fdb <= first && Spans(q, first - q.fdb, count, g0, last) && g0 < last
    ensures count > q.bpg - IdxOf(q, first) && GroupOf(q, first) == g0
  {
    RelIs(q, first);
    var r := first - q.fdb;
    DivBounds(r + count - 1, q.bpg, g0);
    assert r == q.bpg * (r / q.bpg) + r % q.bpg && q.bpg * g0 == g0 * q.bpg;
  }

  /** With groups as long as their bitmaps, or one group, a round frees what the group has of the range. */
  lemma SpanFree(q: Geo, r: nat, n: nat, g0: nat, last: nat, g: nat, at: nat, left: nat, free: nat)
    requires GeoOk(q) && Spans(q, r, n, g0, last) && g0 <= g <= last && (q.bpg == 8 * q.bs || g0 == last)
    requires at == Reached(q, r, n, g) + q.fdb && at + left == r + q.fdb + n
    requires var idx := IdxOf(q, at); idx < q.bpg && free == if left > 8 * q.bs - idx then 8 * q.bs - idx else left
    ensures IdxOf(q, at) == Lo(q, r, g) && free == Hi(q, r, n, g) - Lo(q, r, g)
  {
    hide Lo, Hi, Reached, IdxOf, GroupOf;
    SpanStep(q, r, n, g0, last, g, at, left);
    if g0 == last {
      RangeBegins(q, r, n, g);
      OneGroup(r, n, q.bpg);
      RelIs(q, at);
    }
  }

  lemma OneGroup(r: nat, n: nat, d: nat)
    requires d > 0 && n > 0 && r / d == (r + n - 1) / d
    ensures n <= d - r % d
  {
    DivBounds(r + n - 1, d, r / d);
    assert r == d * (r / d) + r % d && d * (r / d) == (r / d) * d;
  }

  /** A round that does not free all that is left gets into the next group at least. */
  lemma PastGroup(q: Geo, at: nat, left: nat, free: nat)
    requires GeoOk(q) && q.fdb <= at && IdxOf(q, at) < q.bpg
    requires var idx := IdxOf(q, at); free == if left > 8 * q.bs - idx then 8 * q.bs - idx else left
    ensures free <= left && (free < left ==> GroupOf(q, at + free) > GroupOf(q, at))
  {
    RelIs(q, at);
    RelIs(q, at + free);
    var x := at - q.fdb;
    var k := x / q.bpg;
    assert x == q.bpg * k + x % q.bpg && q.bpg * k == k * q.bpg && (k + 1) * q.bpg == k * q.bpg + q.bpg;
    if free < left { DivBounds(x + free, q.bpg, k + 1); }
  }

  lemma SpanOver(q: Geo, first: nat, count: nat, g0: nat, last: nat, at: nat, left: nat)
    requires GeoOk(q) && q.fdb <= first <= at && Spans(q, first - q.fdb, count, g0, last) && at + left == first + count
    requires left == 0 || GroupOf(q, at) >= last + 1
    ensures left == 0
  {
    RelIs(q, at);
    var r := first - q.fdb;
    DivBounds(at - q.fdb, q.bpg, last + 1);
    DivBounds(r + count - 1, q.bpg, last);
    assert (last + 1) * q.bpg == last * q.bpg + q.bpg;
  }

  lemma SpanStarts(q: Geo, r: nat, n: nat, g: nat, last: nat, bmaps: seq<seq<Byte>>, free: seq<int>)
    requires GeoOk(q) && Spans(q, r, n, g, last) && last < |bmaps| == |free|
    ensures Reached(q, r, n, g) == r && g <= last
    ensures forall k :: 0 <= k < g ==> GroupFreed(q, r, n, k, bmaps[k], bmaps[k], free[k], free[k])
  {
    hide GroupFreed;
    RangeBegins(q, r, n, g);
    FreedBefore(q, r, n, g, bmaps, free);
  }

  lemma SpanStep(q: Geo, r: nat, n: nat, g0: nat, last: nat, g: nat, at: nat, left: nat)
    requires GeoOk(q) && Spans(q, r, n, g0, last) && g0 <= g <= last
    requires at == Reached(q, r, n, g) + q.fdb && at + left == r + q.fdb + n
    ensures IdxOf(q, at) == Lo(q, r, g)
    ensures Hi(q, r, n, g) - Lo(q, r, g) == if left > q.bpg - Lo(q, r, g) then q.bpg - Lo(q, r, g) else left
    ensures Reached(q, r, n, g + 1) == Reached(q, r, n, g) + (Hi(q, r, n, g) - Lo(q, r, g))
  {
    hide Lo, Reached;
    RangeStep(q, r, n, g);
    RelIs(q, at);
  }

  lemma SpanEnds(q: Geo, r: nat, n: nat, g: nat, last: nat, bmaps: seq<seq<Byte>>, free: seq<int>)
    requires GeoOk(q) && Spans(q, r, n, g, last) && last < |bmaps| == |free|
    ensures Reached(q, r, n, last + 1) == r + n
    ensures forall k :: last < k < |bmaps| ==> GroupFreed(q, r, n, k, bmaps[k], bmaps[k], free[k], free[k])
  {
    hide GroupFreed;
    RangeEnds(q, r, n, last);
    FreedAfter(q, r, n, last + 1, bmaps, free);
  }

  lemma FreedBefore(q: Geo, r: nat, n: nat, g: nat, bmaps: seq<seq<Byte>>, free: seq<int>)
    requires GeoOk(q) && n > 0 && g == r / q.bpg <= |bmaps| == |free|
    ensures forall k :: 0 <= k < g ==> GroupFreed(q, r, n, k, bmaps[k], bmaps[k], free[k], free[k])
  {
    hide Bit, Lo;
    forall k | 0 <= k < g
      ensures GroupFreed(q, r, n, k, bmaps[k], bmaps[k], free[k], free[k])
    {
      RangeElsewhere(q, r, n, k);
    }
  }

  lemma FreedAfter(q: Geo, r: nat, n: nat, g: nat, bmaps: seq<seq<Byte>>, free: seq<int>)
    requires GeoOk(q) && n > 0 && g == (r + n - 1) / q.bpg + 1 <= |bmaps| == |free|
    ensures forall k :: g <= k < |bmaps| ==> GroupFreed(q, r, n, k, bmaps[k], bmaps[k], free[k], free[k])
  {
    hide Bit, Lo;
    forall k | g <= k < |bmaps|
      ensures GroupFreed(q, r, n, k, bmaps[k], bmaps[k], free[k], free[k])
    {
      RangeElsewhere(q, r, n, k);
    }
  }

  lemma FreeCounts(q: Geo, bmaps: seq<seq<Byte>>, free: seq<int>, sbFree: int)
    requires q.bpg > 0 && Consistent(q, bmaps, free, sbFree)
    ensures sbFree >= 0 && forall g :: 0 <= g < |free| ==> free[g] >= 0
    ensures sbFree == 0 <==> forall g :: 0 <= g < |free| ==> free[g] == 0
  {
    forall g | 0 <= g < |free|
      ensures free[g] >= 0
    {
      assert GroupOk(q, g, bmaps[g], free[g]);
    }
    SumZero(free);
  }

  lemma SameBlock(q: Geo, a: nat, b: nat)
    requires GeoOk(q) && q.fdb <= a < q.total && q.fdb <= b < q.total
    requires GroupOf(q, a) == GroupOf(q, b) && IdxOf(q, a) == IdxOf(q, b)
    ensures a == b
  {
    BlockAt(q, a);
    BlockAt(q, b);
  }

  lemma NextModulo(x: nat, d: nat)
    requires d > 0
    ensures (x % d + 1) % d == (x + 1) % d
  {
    var k, r := x / d, x % d;
    assert x == d * k + r;
    if r + 1 < d {
      DivUnique(x + 1, d, k, r + 1);
    } else {
      assert d * (k + 1) == d * k + d;
      DivUnique(x + 1, d, k + 1, 0);
      DivUnique(r + 1, d, 1, 0);
    }
  }

  /** Going round once meets every group. */
  lemma AllVisited(free: seq<int>, g: nat, count: nat)
    requires Visited(free, g, count, count) && g < count
    ensures forall k :: 0 <= k < count ==> free[k] == 0
  {
    forall k | 0 <= k < count
      ensures free[k] == 0
    {
      var t := if k > g then k - g - 1 else k + count - g - 1;
      DivUnique(g + 1 + t, count, if k > g then 0 else 1, k);
      assert Turn(g, count, t) == k;
    }
  }
}
