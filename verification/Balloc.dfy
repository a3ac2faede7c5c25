/** Allocating and freeing blocks: one bitmap and one counter per group, and a counter for all. */
module Balloc {
  import opened Bitmap
  import opened Division

  const WORD: nat := 0x1_0000_0000

  /** From the superblock: blocks per group, blocks in all, the first data block, the block size. */
  datatype Geo = Geo(bpg: nat, total: nat, fdb: nat, bs: nat)

  predicate GeoOk(q: Geo) {
    q.bs >= 1024 && q.bs % 1024 == 0 && 0 < q.bpg <= 8 * q.bs && q.fdb <= 1 && q.fdb < q.total <= WORD
  }

  // --------------------------------------------------------------- addresses

  /** The block address without the first data block. */
  function Rel(q: Geo, b: nat): nat { if q.fdb != 0 && b != 0 then b - 1 else b }

  /** ext4_balloc_get_bgid_of_block. */
  function GroupOf(q: Geo, b: nat): nat
    requires q.bpg > 0
  {
    Rel(q, b) / q.bpg
  }

  /** ext4_fs_addr_to_idx_bg. */
  function IdxOf(q: Geo, b: nat): nat
    requires q.bpg > 0
  {
    Rel(q, b) % q.bpg
  }

  /** ext4_fs_bg_idx_to_addr, computed in 32 bits. */
  function Addr(q: Geo, idx: nat, g: nat): nat {
    (q.bpg * g + (if q.fdb != 0 then idx + 1 else idx)) % WORD
  }

  /** ext4_block_group_cnt. */
  function GroupCount(q: Geo): nat
    requires q.bpg > 0
  {
    q.total / q.bpg + if q.total % q.bpg != 0 then 1 else 0
  }

  /** ext4_blocks_in_group_cnt, which does not take the first data block into account. */
  function BlocksInGroup(q: Geo, g: nat): int
    requires q.bpg > 0
  {
    if g + 1 < GroupCount(q) then q.bpg else q.total - (GroupCount(q) - 1) * q.bpg
  }

  /** The blocks of the device that belong to group g. */
  function InGroup(q: Geo, g: nat): nat {
    if q.total <= q.fdb + g * q.bpg then 0
    else if q.total - q.fdb - g * q.bpg < q.bpg then q.total - q.fdb - g * q.bpg
    else q.bpg
  }

  /** Turning an index into an address and back works exactly while the address fits into 32 bits. */
  lemma AddrRoundTrip(q: Geo, idx: nat, g: nat)
    requires GeoOk(q) && idx < q.bpg
    ensures GroupOf(q, Addr(q, idx, g)) == g && IdxOf(q, Addr(q, idx, g)) == idx
       <==> q.bpg * g + idx + q.fdb < 0x1_0000_0000
  {
    var a := q.bpg * g + idx + q.fdb;
    var b := Addr(q, idx, g);
    assert b == a % WORD;
    assert Rel(q, b) == q.bpg * GroupOf(q, b) + IdxOf(q, b);
    if a < WORD { DivUnique(a - q.fdb, q.bpg, g, idx); }
  }

  /** Addresses of the device and positions in the groups. */
  lemma BlockAt(q: Geo, b: nat)
    requires GeoOk(q) && q.fdb <= b < q.total
    ensures GroupOf(q, b) < GroupCount(q) && IdxOf(q, b) < InGroup(q, GroupOf(q, b)) <= q.bpg
    ensures Addr(q, IdxOf(q, b), GroupOf(q, b)) == b
  {
    var r := Rel(q, b);
    var g, i := r / q.bpg, r % q.bpg;
    assert r == q.bpg * g + i && r == b - q.fdb;
    GroupInRange(q, r);
    assert g * q.bpg == q.bpg * g;
  }

  lemma GroupInRange(q: Geo, r: nat)
    requires GeoOk(q) && r < q.total
    ensures r / q.bpg < GroupCount(q)
  {
    var n, d := q.total, q.bpg;
    assert n == d * (n / d) + n % d && r == d * (r / d) + r % d;
    assert n % d != 0 ==> d * GroupCount(q) == d * (n / d) + d;
    if r / d >= GroupCount(q) { MulLe(d, GroupCount(q), r / d); }
  }

  lemma AtBlock(q: Geo, g: nat, i: nat)
    requires GeoOk(q) && i < InGroup(q, g)
    ensures var b := Addr(q, i, g);
      q.fdb <= b < q.total && GroupOf(q, b) == g && IdxOf(q, b) == i && b == q.bpg * g + i + q.fdb
  {
    assert g * q.bpg == q.bpg * g;
    AddrRoundTrip(q, i, g);
  }

  /** The count the code uses is never smaller than the true one, and no larger than a group. */
  lemma GroupSizes(q: Geo, g: nat)
    requires GeoOk(q) && g < GroupCount(q)
    ensures InGroup(q, g) <= BlocksInGroup(q, g) <= q.bpg && BlocksInGroup(q, g) > 0
    ensures g + 1 < GroupCount(q) ==> (g + 1) * q.bpg <= q.total
  {
    var n, d := q.total, q.bpg;
    assert n == d * (n / d) + n % d;
    assert g * d == d * g;
    if g + 1 < GroupCount(q) {
      MulLe(d, g + 1, n / d);
      assert (g + 1) * d == d * (g + 1);
    } else {
      assert (GroupCount(q) - 1) * d == d * (GroupCount(q) - 1);
      if n % d == 0 { assert d * (n / d) == d * (n / d - 1) + d; }
    }
  }

  /** With a first data block the code counts one block too many in the last group, and a group too
      many when the device ends one block behind a group. */
  lemma LastGroup(q: Geo)
    requires GeoOk(q)
    ensures var g := GroupCount(q) - 1;
      && BlocksInGroup(q, g) == InGroup(q, g) + q.fdb
      && (InGroup(q, g) == 0 <==> q.fdb == 1 && BlocksInGroup(q, g) == 1)
  {
    GroupSizes(q, GroupCount(q) - 1);
    assert (GroupCount(q) - 1) * q.bpg == q.bpg * (GroupCount(q) - 1);
  }

  // ------------------------------------------------------------------- state

  function Sum(s: seq<int>): int {
    if s == [] then 0 else Sum(s[..|s| - 1]) + s[|s| - 1]
  }

  lemma {:induction false} SumSet(s: seq<int>, i: nat, v: int)
    requires i < |s|
    ensures Sum(s[i := v]) == Sum(s) + v - s[i]
    decreases |s|
  {
    var n := |s| - 1;
    if i == n {
      assert s[i := v][..n] == s[..n];
    } else {
      SumSet(s[..n], i, v);
      assert s[i := v][..n] == s[..n][i := v];
    }
  }

  lemma {:induction false} SumZero(s: seq<int>)
    requires forall i :: 0 <= i < |s| ==> s[i] >= 0
    ensures Sum(s) >= 0 && (Sum(s) == 0 <==> forall i :: 0 <= i < |s| ==> s[i] == 0)
    decreases |s|
  {
    if s != [] {
      var n := |s| - 1;
      SumZero(s[..n]);
      assert forall i :: 0 <= i < n ==> s[..n][i] == s[i];
    }
  }

  /** Bits behind the blocks of the group are set. */
  predicate Padded(q: Geo, g: nat, m: seq<Byte>) {
    forall i :: InGroup(q, g) <= i < 8 * |m| ==> Bit(m, i)
  }

  predicate GroupOk(q: Geo, g: nat, m: seq<Byte>, free: int) {
    |m| == q.bs && Padded(q, g, m) && free == ClearCount(m, 8 * q.bs)
  }

  predicate Consistent(q: Geo, bmaps: seq<seq<Byte>>, free: seq<int>, sbFree: int)
    requires q.bpg > 0
  {
    && |bmaps| == |free| == GroupCount(q) && sbFree == Sum(free)
    && forall g :: 0 <= g < |bmaps| ==> GroupOk(q, g, bmaps[g], free[g])
  }

  /** The bit of a block. */
  predicate Used(q: Geo, bmaps: seq<seq<Byte>>, b: nat)
    requires q.bpg > 0
  {
    && GroupOf(q, b) < |bmaps| && IdxOf(q, b) < 8 * |bmaps[GroupOf(q, b)]|
    && Bit(bmaps[GroupOf(q, b)], IdxOf(q, b))
  }

  /** One bit of one group set or cleared, the counters adjusted. */
  lemma FlipOk(q: Geo, bmaps: seq<seq<Byte>>, free: seq<int>, sbFree: int, g: nat, i: nat, v: bool)
    requires GeoOk(q) && Consistent(q, bmaps, free, sbFree) && g < |bmaps| && i < InGroup(q, g)
    ensures i < 8 * |bmaps[g]|
    ensures var d := if v then -1 else 1;
      Consistent(q, bmaps[g := WithBit(bmaps[g], i, v)], free[g := free[g] + d], sbFree + d) <==> Bit(bmaps[g], i) == !v
  {
    hide Bit, WithBit, ClearCount, InGroup;
    var m := bmaps[g];
    assert GroupOk(q, g, m, free[g]);
    GroupSizes(q, g);
    var d, w := if v then -1 else 1, WithBit(m, i, v);
    CountFlip(m, i, v, 8 * q.bs);
    SumSet(free, g, free[g] + d);
    forall k | InGroup(q, g) <= k < 8 * |m|
      ensures Bit(w, k)
    {
      WithBitAt(m, i, v, k);
    }
    var bmaps', free' := bmaps[g := w], free[g := free[g] + d];
    if Bit(m, i) == !v {
      forall k | 0 <= k < |bmaps|
        ensures GroupOk(q, k, bmaps'[k], free'[k])
      {
        assert GroupOk(q, k, bmaps[k], free[k]);
      }
    } else {
      assert !GroupOk(q, g, bmaps'[g], free'[g]);
    }
  }

  /** A group without a clear bit among its blocks has none at all. */
  lemma NoneInGroup(q: Geo, g: nat, m: seq<Byte>, free: int)
    requires GeoOk(q) && g < GroupCount(q) && GroupOk(q, g, m, free)
    requires NoneClear(m, 0, BlocksInGroup(q, g))
    ensures free == 0
  {
    hide Bit, ClearCount, InGroup, BlocksInGroup;
    GroupSizes(q, g);
    CountZero(m, 8 * q.bs);
  }

  /** A clear bit is that of a block. */
  lemma ClearInGroup(q: Geo, g: nat, m: seq<Byte>, free: int, i: nat)
    requires GroupOk(q, g, m, free) && i < 8 * |m| && !Bit(m, i)
    ensures i < InGroup(q, g)
  {
  }

  // ---------------------------------------------------------- initialisation

  /** A block of the file system's own that lies in the group, at the given bit. */
  predicate IsMeta(q: Geo, g: nat, meta: seq<nat>, i: nat)
    requires q.bpg > 0
  {
    exists k :: 0 <= k < |meta| && GroupOf(q, meta[k]) == g && IdxOf(q, meta[k]) == i
  }

  /** The bitmap of a group before any block is given out: the blocks at its beginning and those of the file
      system's own are in use, and so is everything behind the group. */
  ghost predicate Initial(q: Geo, g: nat, head: nat, meta: seq<nat>, m: seq<Byte>)
    requires q.bpg > 0
  {
    |m| == q.bs && forall i :: 0 <= i < 8 * |m| ==>
      (Bit(m, i) <==> i < head || IsMeta(q, g, meta, i) || i >= InGroup(q, g))
  }

  /** While the blocks of the file system's own are marked: the first k of them are done. */
  ghost predicate Marking(q: Geo, g: nat, head: nat, meta: seq<nat>, k: nat, m: seq<Byte>)
    requires q.bpg > 0 && k <= |meta|
  {
    |m| == q.bs && forall i :: 0 <= i < 8 * |m| ==> (Bit(m, i) <==> i < head || IsMeta(q, g, meta[..k], i))
  }

  /** The first block of a group, counted from both sides of the product. */
  lemma GroupTimes(q: Geo, g: nat)
    requires GeoOk(q) && g < GroupCount(q)
    ensures g * q.bpg == q.bpg * g && q.bpg * (g + 1) == q.bpg * g + q.bpg
    ensures q.bpg * (GroupCount(q) - 1) < q.total <= q.bpg * GroupCount(q)
  {
    var n, d := q.total, q.bpg;
    assert n == d * (n / d) + n % d;
    if n % d == 0 { assert d * (n / d) == d * (n / d - 1) + d; } else { assert d * (n / d + 1) == d * (n / d) + d; }
  }

  /** The group size the code computes for the padding is the true one. */
  lemma GroupBlocks(q: Geo, g: nat)
    requires GeoOk(q) && g < GroupCount(q)
    ensures InGroup(q, g) == if g + 1 == GroupCount(q) then q.total - q.fdb - q.bpg * (GroupCount(q) - 1) else q.bpg
  {
    GroupTimes(q, g);
    GroupTimes(q, GroupCount(q) - 1);
    if g + 1 < GroupCount(q) { MulLe(q.bpg, g + 1, GroupCount(q) - 1); }
  }

  lemma MetaNext(q: Geo, g: nat, meta: seq<nat>, k: nat, i: nat)
    requires q.bpg > 0 && k < |meta|
    ensures IsMeta(q, g, meta[..k + 1], i) <==>
            IsMeta(q, g, meta[..k], i) || (GroupOf(q, meta[k]) == g && IdxOf(q, meta[k]) == i)
  {
    hide GroupOf, IdxOf;
    var a, b := meta[..k], meta[..k + 1];
    assert b == a + [meta[k]];
    if IsMeta(q, g, a, i) {
      var j :| 0 <= j < |a| && GroupOf(q, a[j]) == g && IdxOf(q, a[j]) == i;
      assert b[j] == a[j];
    }
    if GroupOf(q, meta[k]) == g && IdxOf(q, meta[k]) == i { assert b[k] == meta[k]; }
    if IsMeta(q, g, b, i) {
      var j :| 0 <= j < |b| && GroupOf(q, b[j]) == g && IdxOf(q, b[j]) == i;
      if j < k { assert a[j] == b[j]; }
    }
  }

  /** The block next in the list is marked if it lies in the group. */
  lemma MarkingNext(q: Geo, g: nat, head: nat, meta: seq<nat>, k: nat, m: seq<Byte>)
    requires GeoOk(q) && k < |meta| && Marking(q, g, head, meta, k, m)
    ensures IdxOf(q, meta[k]) < 8 * |m|
    ensures Marking(q, g, head, meta, k + 1,
                    if GroupOf(q, meta[k]) == g then WithBit(m, IdxOf(q, meta[k]), true) else m)
  {
    hide Bit, WithBit, GroupOf, IsMeta;
    IdxInGroup(q, meta[k]);
    var w := if GroupOf(q, meta[k]) == g then WithBit(m, IdxOf(q, meta[k]), true) else m;
    forall i | 0 <= i < 8 * |m|
      ensures Bit(w, i) <==> i < head || IsMeta(q, g, meta[..k + 1], i)
    {
      MetaNext(q, g, meta, k, i);
      if GroupOf(q, meta[k]) == g { WithBitAt(m, IdxOf(q, meta[k]), true, i); }
    }
  }

  lemma IdxInGroup(q: Geo, b: nat)
    requires GeoOk(q)
    ensures IdxOf(q, b) < q.bpg <= 8 * q.bs
  {
  }

  lemma HeadMarked(q: Geo, g: nat, head: nat, meta: seq<nat>, z: seq<Byte>, m: seq<Byte>)
    requires q.bpg > 0 && |z| == q.bs && (forall i :: 0 <= i < |z| ==> z[i] == ZERO) && MarkedRange(z, m, 0, head)
    ensures Marking(q, g, head, meta, 0, m)
  {
    forall i | 0 <= i < 8 * |m|
      ensures Bit(m, i) <==> i < head
    {
      assert z[i / 8] == ZERO;
      assert !Bit(z, i);
    }
  }

  lemma AllMarked(q: Geo, g: nat, head: nat, meta: seq<nat>, m: seq<Byte>, w: seq<Byte>)
    requires q.bpg > 0 && Marking(q, g, head, meta, |meta|, m) && MarkedRange(m, w, InGroup(q, g), 8 * q.bs)
    ensures Initial(q, g, head, meta, w) && Padded(q, g, w)
  {
    hide Bit, InGroup, IsMeta;
    assert meta[..|meta|] == meta;
  }

  /** ext4_fs_init_block_bitmap: the first `head` blocks of the group hold the superblock and the descriptors;
      `meta` are the two bitmaps and the inode table, which lie in the group unless groups are flexible. */
  method InitBlockBitmap(q: Geo, g: nat, head: nat, meta: seq<nat>, flexBg: bool) returns (bmap: array<Byte>)
    requires GeoOk(q) && g < GroupCount(q) && head <= 8 * q.bs
    requires forall k :: 0 <= k < |meta| ==> q.fdb <= meta[k] && (!flexBg ==> GroupOf(q, meta[k]) == g)
    ensures fresh(bmap) && Initial(q, g, head, meta, bmap[..]) && Padded(q, g, bmap[..])
  {
    hide Bit, GroupOf, InGroup, IsMeta, GroupCount;
    bmap := new Byte[q.bs](i => ZERO);
    ghost var z := bmap[..];
    for bit := 0 to head
      invariant MarkedRange(z, bmap[..], 0, bit) && fresh(bmap)
    {
      MarkOne(z, bmap[..], 0, bit);
      BitSet(bmap, bit);
    }
    HeadMarked(q, g, head, meta, z, bmap[..]);
    var groupBlocks := if g == GroupCount(q) - 1 then q.total - q.fdb - q.bpg * (GroupCount(q) - 1) else q.bpg;
    GroupBlocks(q, g);
    GroupSizes(q, g);
    for k := 0 to |meta|
      invariant Marking(q, g, head, meta, k, bmap[..]) && fresh(bmap)
    {
      MarkingNext(q, g, head, meta, k, bmap[..]);
      if !flexBg || GroupOf(q, meta[k]) == g {
        FirstOfGroup(q, g, meta[k]);
        BitSet(bmap, meta[k] - (q.fdb + g * q.bpg));
      }
    }
    ghost var m := bmap[..];
    EndAligned(q, groupBlocks);
    MarkBitmapEnd(bmap, groupBlocks, q.bs * 8);
    AllMarked(q, g, head, meta, m, bmap[..]);
  }

  lemma EndAligned(q: Geo, start: nat)
    requires start <= 8 * q.bs
    ensures MarkEnd(start, q.bs * 8) == q.bs * 8
  {
    if start < q.bs * 8 { MarksAll(start, q.bs * 8); }
  }

  /** The bit of a block counted from the first block of its group. */
  lemma FirstOfGroup(q: Geo, g: nat, b: nat)
    requires GeoOk(q) && q.fdb <= b && GroupOf(q, b) == g
    ensures b - (q.fdb + g * q.bpg) == IdxOf(q, b)
  {
    var r := Rel(q, b);
    assert r == q.bpg * (r / q.bpg) + r % q.bpg;
    assert g * q.bpg == q.bpg * g;
  }

  // ------------------------------------------------------------------ ranges

  /** Where relative block r lies in the d blocks from s on: before, inside, behind. */
  function LoAt(d: nat, r: nat, s: nat): (l: nat)
    ensures l <= d
  {
    if r <= s then 0 else if r - s < d then r - s else d
  }

  /** Where the n blocks from relative block r on begin and end in group g. */
  function Lo(q: Geo, r: nat, g: nat): (l: nat)
    ensures l <= q.bpg
  {
    LoAt(q.bpg, r, g * q.bpg)
  }

  function Hi(q: Geo, r: nat, n: nat, g: nat): (h: nat)
    ensures Lo(q, r, g) <= h <= q.bpg
  {
    Lo(q, r + n, g)
  }

  function ReachedAt(r: nat, n: nat, s: nat): nat { if s <= r then r else if s <= r + n then s else r + n }

  /** The relative block that is reached when all groups before g are done. */
  function Reached(q: Geo, r: nat, n: nat, g: nat): nat { ReachedAt(r, n, g * q.bpg) }

  lemma DivBounds(x: nat, d: nat, g: nat)
    requires d > 0
    ensures g <= x / d <==> g * d <= x
    ensures x / d <= g <==> x < g * d + d
  {
    var k := x / d;
    assert x == d * k + x % d && d * g == g * d && d * (g + 1) == g * d + d;
    if g <= k { MulLe(d, g, k); } else { MulLe(d, k + 1, g); }
    if k <= g { MulLe(d, k, g); } else { MulLe(d, g + 1, k); }
  }

  lemma RangeStep(q: Geo, r: nat, n: nat, g: nat)
    requires GeoOk(q) && n > 0 && r / q.bpg <= g <= (r + n - 1) / q.bpg
    ensures Reached(q, r, n, g) < r + n
    ensures Reached(q, r, n, g) % q.bpg == Lo(q, r, g)
    ensures var c := r + n - Reached(q, r, n, g);
      Hi(q, r, n, g) - Lo(q, r, g) == if c > q.bpg - Lo(q, r, g) then q.bpg - Lo(q, r, g) else c
    ensures Reached(q, r, n, g + 1) == Reached(q, r, n, g) + (Hi(q, r, n, g) - Lo(q, r, g))
  {
    var d, s := q.bpg, g * q.bpg;
    DivBounds(r, d, g);
    DivBounds(r + n - 1, d, g);
    assert (g + 1) * d == s + d && d * g == s;
    DivUnique(ReachedAt(r, n, s), d, g, LoAt(d, r, s));
  }

  lemma RangeBegins(q: Geo, r: nat, n: nat, g: nat)
    requires GeoOk(q) && g == r / q.bpg
    ensures Reached(q, r, n, g) == r
  {
    DivBounds(r, q.bpg, g);
  }

  lemma RangeEnds(q: Geo, r: nat, n: nat, g: nat)
    requires GeoOk(q) && n > 0 && g == (r + n - 1) / q.bpg
    ensures Reached(q, r, n, g + 1) == r + n
  {
    DivBounds(r + n - 1, q.bpg, g);
    assert (g + 1) * q.bpg == g * q.bpg + q.bpg;
  }

  lemma RangeElsewhere(q: Geo, r: nat, n: nat, g: nat)
    requires GeoOk(q) && n > 0 && (g < r / q.bpg || (r + n - 1) / q.bpg < g)
    ensures Lo(q, r, g) == Hi(q, r, n, g)
  {
    DivBounds(r, q.bpg, g);
    DivBounds(r + n - 1, q.bpg, g);
  }

  /** Which blocks of the device lie in the range. */
  lemma InRange(q: Geo, r: nat, n: nat, b: nat)
    requires GeoOk(q) && q.fdb <= b < q.total
    ensures Lo(q, r, GroupOf(q, b)) <= IdxOf(q, b) < Hi(q, r, n, GroupOf(q, b)) <==> r <= b - q.fdb < r + n
  {
    var g, i := GroupOf(q, b), IdxOf(q, b);
    BlockAt(q, b);
    assert Rel(q, b) == q.bpg * g + i && q.bpg * g == g * q.bpg;
  }

  /** A range inside the device ends before the padding. */
  lemma RangeInGroup(q: Geo, r: nat, n: nat, g: nat)
    requires GeoOk(q) && r + n + q.fdb <= q.total
    ensures Lo(q, r, g) == Hi(q, r, n, g) || Hi(q, r, n, g) <= InGroup(q, g)
  {
  }

  /** A group after the bits of the range were cleared and their number added to its counter. */
  predicate GroupFreed(q: Geo, r: nat, n: nat, g: nat, m: seq<Byte>, w: seq<Byte>, free: int, free': int) {
    ClearedRange(m, w, Lo(q, r, g), Hi(q, r, n, g)) && free' == free + Hi(q, r, n, g) - Lo(q, r, g)
  }

  /** The group is consistent exactly if all bits of the range were set. */
  lemma FreedOk(q: Geo, r: nat, n: nat, g: nat, m: seq<Byte>, w: seq<Byte>, free: int, free': int)
    requires GeoOk(q) && r + n + q.fdb <= q.total
    requires GroupOk(q, g, m, free) && GroupFreed(q, r, n, g, m, w, free, free')
    ensures GroupOk(q, g, w, free') <==> NoneClear(m, Lo(q, r, g), Hi(q, r, n, g))
  {
    hide Bit, ClearCount, SetCount, InGroup, Lo;
    var lo, hi := Lo(q, r, g), Hi(q, r, n, g);
    RangeInGroup(q, r, n, g);
    CountRange(m, w, lo, hi, 8 * q.bs);
    SetAll(m, lo, hi);
    forall k | InGroup(q, g) <= k < 8 * |w|
      ensures Bit(w, k)
    {
    }
  }

  ghost predicate AllFreed(q: Geo, r: nat, n: nat, bmaps: seq<seq<Byte>>, free: seq<int>, bmaps': seq<seq<Byte>>,
                           free': seq<int>) {
    && |bmaps'| == |bmaps| && |free'| == |free| == |bmaps|
    && forall g :: 0 <= g < |bmaps| ==> GroupFreed(q, r, n, g, bmaps[g], bmaps'[g], free[g], free'[g])
  }

  lemma AllFreedOk(q: Geo, r: nat, n: nat, bmaps: seq<seq<Byte>>, free: seq<int>, bmaps': seq<seq<Byte>>,
                   free': seq<int>, sbFree: int)
    requires GeoOk(q) && r + n + q.fdb <= q.total && Consistent(q, bmaps, free, sbFree)
    requires AllFreed(q, r, n, bmaps, free, bmaps', free') && Sum(free') == sbFree + n
    ensures Consistent(q, bmaps', free', sbFree + n)
       <==> forall b :: r + q.fdb <= b < r + n + q.fdb ==> Used(q, bmaps, b)
    ensures forall b :: q.fdb <= b < q.total ==>
      (Used(q, bmaps', b) <==> Used(q, bmaps, b) && !(r + q.fdb <= b < r + n + q.fdb))
  {
    hide Bit, ClearCount, InGroup, Lo, Sum, NoneClear, GroupOf, IdxOf;
    forall b | q.fdb <= b < q.total
      ensures Used(q, bmaps', b) <==> Used(q, bmaps, b) && !(r + q.fdb <= b < r + n + q.fdb)
    {
      UsedAfter(q, r, n, bmaps, free, bmaps', free', sbFree, b);
    }
    if Consistent(q, bmaps', free', sbFree + n) {
      forall b | r + q.fdb <= b < r + n + q.fdb
        ensures Used(q, bmaps, b)
      {
        BlockAt(q, b);
        var g := GroupOf(q, b);
        assert GroupOk(q, g, bmaps[g], free[g]) && GroupOk(q, g, bmaps'[g], free'[g]);
        assert GroupFreed(q, r, n, g, bmaps[g], bmaps'[g], free[g], free'[g]);
        FreedOk(q, r, n, g, bmaps[g], bmaps'[g], free[g], free'[g]);
        UsedIn(q, r, n, bmaps, b);
      }
    }
    if forall b :: r + q.fdb <= b < r + n + q.fdb ==> Used(q, bmaps, b) {
      forall g | 0 <= g < |bmaps|
        ensures GroupOk(q, g, bmaps'[g], free'[g])
      {
        assert GroupOk(q, g, bmaps[g], free[g]);
        assert GroupFreed(q, r, n, g, bmaps[g], bmaps'[g], free[g], free'[g]);
        RangeUsed(q, r, n, bmaps, g);
        FreedOk(q, r, n, g, bmaps[g], bmaps'[g], free[g], free'[g]);
      }
    }
  }

  lemma UsedAfter(q: Geo, r: nat, n: nat, bmaps: seq<seq<Byte>>, free: seq<int>, bmaps': seq<seq<Byte>>,
                  free': seq<int>, sbFree: int, b: nat)
    requires GeoOk(q) && Consistent(q, bmaps, free, sbFree) && AllFreed(q, r, n, bmaps, free, bmaps', free')
    requires q.fdb <= b < q.total
    ensures Used(q, bmaps', b) <==> Used(q, bmaps, b) && !(r + q.fdb <= b < r + n + q.fdb)
  {
    hide Bit, ClearCount, InGroup, Lo, Padded, GroupCount;
    BlockAt(q, b);
    InRange(q, r, n, b);
    var g, i := GroupOf(q, b), IdxOf(q, b);
    assert GroupOk(q, g, bmaps[g], free[g]);
    assert GroupFreed(q, r, n, g, bmaps[g], bmaps'[g], free[g], free'[g]);
  }

  lemma UsedIn(q: Geo, r: nat, n: nat, bmaps: seq<seq<Byte>>, b: nat)
    requires GeoOk(q) && q.fdb <= r + q.fdb <= b < r + n + q.fdb && b < q.total
    requires GroupOf(q, b) < |bmaps|
    requires NoneClear(bmaps[GroupOf(q, b)], Lo(q, r, GroupOf(q, b)), Hi(q, r, n, GroupOf(q, b)))
    ensures Used(q, bmaps, b)
  {
    hide Bit, Lo;
    InRange(q, r, n, b);
  }

  lemma RangeUsed(q: Geo, r: nat, n: nat, bmaps: seq<seq<Byte>>, g: nat)
    requires GeoOk(q) && r + n + q.fdb <= q.total && g < |bmaps| && |bmaps[g]| == q.bs
    requires forall b :: r + q.fdb <= b < r + n + q.fdb ==> Used(q, bmaps, b)
    ensures NoneClear(bmaps[g], Lo(q, r, g), Hi(q, r, n, g))
  {
    hide Bit, Lo, InGroup;
    RangeInGroup(q, r, n, g);
    forall k | Lo(q, r, g) <= k < Hi(q, r, n, g)
      ensures Bit(bmaps[g], k)
    {
      AtBlock(q, g, k);
      var b := Addr(q, k, g);
      InRange(q, r, n, b);
      assert Used(q, bmaps, b);
    }
  }
}
