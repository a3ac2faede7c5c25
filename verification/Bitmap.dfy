/** Bitmaps as arrays of bytes, changed and searched bit by bit and byte by byte. */
module Bitmap {

  /** A byte by its bits, the lowest first. */
  type Byte = b: seq<bool> | |b| == 8 witness [false, false, false, false, false, false, false, false]

  const ZERO: Byte := [false, false, false, false, false, false, false, false]
  const ONES: Byte := [true, true, true, true, true, true, true, true]

  function Bit(m: seq<Byte>, i: nat): bool
    requires i < 8 * |m|
  {
    m[i / 8][i % 8]
  }

  /** Rounded up to a whole byte. */
  function Aligned(i: nat): nat { (i + 7) / 8 * 8 }

  /** One bit written. */
  function WithBit(m: seq<Byte>, i: nat, v: bool): (w: seq<Byte>)
    requires i < 8 * |m|
    ensures |w| == |m|
  {
    m[i / 8 := m[i / 8][i % 8 := v]]
  }

  lemma WithBitAt(m: seq<Byte>, i: nat, v: bool, k: nat)
    requires i < 8 * |m| && k < 8 * |m|
    ensures Bit(WithBit(m, i, v), k) == if k == i then v else Bit(m, k)
  {
    if k / 8 == i / 8 && k % 8 == i % 8 { assert k == i; }
  }

  /** The bits of m with those in [from, to) clear. */
  predicate ClearedRange(m: seq<Byte>, w: seq<Byte>, from: nat, end: nat) {
    && |w| == |m|
    && forall k :: 0 <= k < 8 * |m| ==> Bit(w, k) == if from <= k < end then false else Bit(m, k)
  }

  method BitSet(bmap: array<Byte>, i: nat)
    requires i < 8 * bmap.Length
    modifies bmap
    ensures bmap[..] == WithBit(old(bmap[..]), i, true)
  {
    bmap[i / 8] := bmap[i / 8][i % 8 := true];
  }

  method BitClr(bmap: array<Byte>, i: nat)
    requires i < 8 * bmap.Length
    modifies bmap
    ensures bmap[..] == WithBit(old(bmap[..]), i, false)
  {
    bmap[i / 8] := bmap[i / 8][i % 8 := false];
  }

  lemma ClearOne(m: seq<Byte>, w: seq<Byte>, from: nat, end: nat)
    requires ClearedRange(m, w, from, end) && from <= end < 8 * |m|
    ensures ClearedRange(m, WithBit(w, end, false), from, end + 1)
  {
    forall k | 0 <= k < 8 * |m|
      ensures Bit(WithBit(w, end, false), k) == if from <= k < end + 1 then false else Bit(m, k)
    {
      WithBitAt(w, end, false, k);
    }
  }

  lemma ClearByte(m: seq<Byte>, w: seq<Byte>, from: nat, end: nat)
    requires ClearedRange(m, w, from, end) && from <= end && end % 8 == 0 && end + 8 <= 8 * |m|
    ensures ClearedRange(m, w[end / 8 := ZERO], from, end + 8)
  {
    var v := w[end / 8 := ZERO];
    forall k | 0 <= k < 8 * |m|
      ensures Bit(v, k) == if from <= k < end + 8 then false else Bit(m, k)
    {
      assert k / 8 == end / 8 <==> end <= k < end + 8;
      assert Bit(w, k) == if from <= k < end then false else Bit(m, k);
    }
  }

  /** ext4_bmap_bits_free: bits up to a whole byte, then bytes, then the remaining bits. */
  method BitsFree(bmap: array<Byte>, sbit: nat, bcnt: nat)
    requires sbit + bcnt <= 8 * bmap.Length
    modifies bmap
    ensures ClearedRange(old(bmap[..]), bmap[..], sbit, sbit + bcnt)
  {
    hide Bit, WithBit;
    ghost var m := bmap[..];
    var i, left := sbit, bcnt;
    while i % 8 != 0
      invariant sbit <= i && i + left == sbit + bcnt && ClearedRange(m, bmap[..], sbit, i)
      decreases left, (8 - i % 8) % 8
    {
      if left == 0 { return; }
      ClearOne(m, bmap[..], sbit, i);
      BitClr(bmap, i);
      i, left := i + 1, left - 1;
    }
    var p := i / 8;
    while left >= 8
      invariant p * 8 + left == sbit + bcnt && sbit <= p * 8 && ClearedRange(m, bmap[..], sbit, p * 8)
    {
      ClearByte(m, bmap[..], sbit, p * 8);
      bmap[p] := ZERO;
      p, left := p + 1, left - 8;
    }
    var j := 0;
    while j < left
      invariant 0 <= j <= left && ClearedRange(m, bmap[..], sbit, p * 8 + j)
    {
      ClearOne(m, bmap[..], sbit, p * 8 + j);
      BitClr(bmap, p * 8 + j);
      j := j + 1;
    }
  }

  /** The bits of m with those in [from, to) set. */
  predicate MarkedRange(m: seq<Byte>, w: seq<Byte>, from: nat, end: nat) {
    && |w| == |m|
    && forall k :: 0 <= k < 8 * |m| ==> Bit(w, k) == (from <= k < end || Bit(m, k))
  }

  lemma MarkOne(m: seq<Byte>, w: seq<Byte>, from: nat, end: nat)
    requires MarkedRange(m, w, from, end) && from <= end < 8 * |m|
    ensures MarkedRange(m, WithBit(w, end, true), from, end + 1)
  {
    hide Bit, WithBit;
    forall k | 0 <= k < 8 * |m|
      ensures Bit(WithBit(w, end, true), k) == (from <= k < end + 1 || Bit(m, k))
    {
      WithBitAt(w, end, true, k);
    }
  }

  lemma MarkByte(m: seq<Byte>, w: seq<Byte>, from: nat, end: nat)
    requires MarkedRange(m, w, from, end) && from <= end && end % 8 == 0 && end + 8 <= 8 * |m|
    ensures MarkedRange(m, w[end / 8 := ONES], from, end + 8)
  {
    var v := w[end / 8 := ONES];
    forall k | 0 <= k < 8 * |m|
      ensures Bit(v, k) == (from <= k < end + 8 || Bit(m, k))
    {
      assert k / 8 == end / 8 <==> end <= k < end + 8;
      assert Bit(w, k) == (from <= k < end || Bit(m, k));
    }
  }

  /** Where ext4_fs_mark_bitmap_end stops: bits up to a whole byte, then whole bytes. */
  function MarkEnd(start: nat, end: nat): nat {
    if start >= end then start else if Aligned(start) >= end then Aligned(start) else end - (end - Aligned(start)) % 8
  }

  /** It marks all bits from start on exactly if the end is that of a byte, or of the byte start is in. */
  lemma MarksAll(start: nat, end: nat)
    requires start < end
    ensures MarkEnd(start, end) >= end <==> end % 8 == 0 || end <= Aligned(start)
    ensures end % 8 == 0 ==> MarkEnd(start, end) == end
  {
    var a := (start + 7) / 8;
    assert Aligned(start) == a * 8;
    assert a * 8 < end ==> (end - a * 8) % 8 == end % 8;
  }

  /** ext4_fs_mark_bitmap_end. */
  method MarkBitmapEnd(bmap: array<Byte>, start: nat, end: nat)
    requires start <= 8 * bmap.Length && end <= 8 * bmap.Length
    modifies bmap
    ensures MarkedRange(old(bmap[..]), bmap[..], start, MarkEnd(start, end))
  {
    hide Bit, WithBit;
    ghost var m := bmap[..];
    if start >= end { return; }
    var i: nat := start;
    ToAligned(start, i);
    while i < Aligned(start)
      invariant start <= i <= Aligned(start) <= 8 * bmap.Length && MarkedRange(m, bmap[..], start, i)
    {
      MarkOne(m, bmap[..], start, i);
      BitSet(bmap, i);
      i := i + 1;
    }
    if i < end {
      var p, n := i / 8, (end - i) / 8;
      var j := 0;
      while j < n
        invariant 0 <= j <= n && MarkedRange(m, bmap[..], start, (p + j) * 8)
      {
        MarkByte(m, bmap[..], start, (p + j) * 8);
        bmap[p + j] := ONES;
        j := j + 1;
      }
    }
  }

  /** c is the first clear bit from sbit on. */
  predicate FirstClear(m: seq<Byte>, sbit: nat, ebit: nat, c: nat) {
    sbit <= c < ebit <= 8 * |m| && !Bit(m, c) && forall k :: sbit <= k < c ==> Bit(m, k)
  }

  predicate NoneClear(m: seq<Byte>, sbit: nat, ebit: nat) {
    ebit <= 8 * |m| && forall k :: sbit <= k < ebit ==> Bit(m, k)
  }

  /** ext4_bmap_bit_find_clr. A clear bit before the first whole byte is reported as sbit itself. */
  method BitFindClr(bmap: array<Byte>, sbit: nat, ebit: nat) returns (found: bool, bit: nat, ghost first: nat)
    requires sbit <= ebit <= 8 * bmap.Length
    ensures found <==> !NoneClear(bmap[..], sbit, ebit)
    ensures found ==> FirstClear(bmap[..], sbit, ebit, first)
    ensures found ==> bit == if first < Aligned(sbit) then sbit else first
  {
    hide Bit, Aligned, NoneClear, FirstClear;
    ghost var m := bmap[..];
    var i: nat, left: nat := sbit, ebit - sbit;
    ToAligned(sbit, i);
    first := sbit;
    NoneYet(m, sbit);
    while i % 8 != 0
      invariant sbit <= i <= Aligned(sbit) && i + left == ebit && NoneClear(m, sbit, i)
      decreases left, (8 - i % 8) % 8
    {
      ToAligned(sbit, i);
      if left == 0 { return false, 0, sbit; }
      BitOf(m, i);
      OneMore(m, sbit, ebit, i);
      if !bmap[i / 8][i % 8] { return true, sbit, i; }
      i, left := i + 1, left - 1;
    }
    ToAligned(sbit, i);
    var p := i / 8;
    while left >= 8
      invariant p * 8 + left == ebit && Aligned(sbit) <= p * 8 && sbit <= p * 8 && NoneClear(m, sbit, p * 8)
    {
      if bmap[p] != ONES {
        var j := 0;
        while j < 8
          invariant 0 <= j <= 8 && NoneClear(m, sbit, p * 8 + j)
        {
          BitOf(m, p * 8 + j);
          OneMore(m, sbit, ebit, p * 8 + j);
          if !bmap[p][j] { return true, p * 8 + j, p * 8 + j; }
          j := j + 1;
        }
      }
      FullByte(m, sbit, p);
      p, left := p + 1, left - 8;
    }
    var j := 0;
    while j < left
      invariant 0 <= j <= left && NoneClear(m, sbit, p * 8 + j)
    {
      BitOf(m, p * 8 + j);
      OneMore(m, sbit, ebit, p * 8 + j);
      if !bmap[p][j] { return true, p * 8 + j, p * 8 + j; }
      j := j + 1;
    }
    found, bit := false, 0;
  }

  lemma NoneYet(m: seq<Byte>, sbit: nat)
    requires sbit <= 8 * |m|
    ensures NoneClear(m, sbit, sbit)
  {
  }

  /** The next bit is set, or it is the first clear one. */
  lemma OneMore(m: seq<Byte>, sbit: nat, ebit: nat, i: nat)
    requires NoneClear(m, sbit, i) && sbit <= i < ebit <= 8 * |m|
    ensures Bit(m, i) ==> NoneClear(m, sbit, i + 1)
    ensures !Bit(m, i) ==> FirstClear(m, sbit, ebit, i) && !NoneClear(m, sbit, ebit)
  {
    hide Bit;
  }

  lemma ToAligned(sbit: nat, i: nat)
    requires sbit <= i
    ensures sbit <= Aligned(sbit)
    ensures i % 8 == 0 ==> Aligned(sbit) <= i
    ensures i < Aligned(sbit) ==> i + 1 <= Aligned(sbit)
    ensures i == Aligned(sbit) ==> i % 8 == 0
  {
  }

  lemma BitOf(m: seq<Byte>, i: nat)
    requires i < 8 * |m|
    ensures Bit(m, i) == m[i / 8][i % 8]
  {
  }

  lemma FullByte(m: seq<Byte>, sbit: nat, p: nat)
    requires NoneClear(m, sbit, p * 8) && p < |m| && (m[p] == ONES || NoneClear(m, sbit, p * 8 + 8))
    ensures NoneClear(m, sbit, p * 8 + 8)
  {
    forall k | sbit <= k < p * 8 + 8
      ensures Bit(m, k)
    {
      if k >= p * 8 { assert k / 8 == p; }
    }
  }

  /** The search reports the first clear bit exactly when it does not lie strictly between the start and
      the first whole byte; otherwise it reports a bit that is set. */
  lemma FindIsRight(m: seq<Byte>, sbit: nat, ebit: nat, first: nat)
    requires FirstClear(m, sbit, ebit, first)
    ensures var bit := if first < Aligned(sbit) then sbit else first;
      && (bit == first <==> first == sbit || first >= Aligned(sbit))
      && (bit == first <==> !Bit(m, bit))
  {
  }

  // ---------------------------------------------------------------- counting

  /** The clear bits among the first n. */
  function ClearCount(m: seq<Byte>, n: nat): nat
    requires n <= 8 * |m|
  {
    if n == 0 then 0 else ClearCount(m, n - 1) + if Bit(m, n - 1) then 0 else 1
  }

  lemma {:induction false} CountFlip(m: seq<Byte>, i: nat, v: bool, n: nat)
    requires n <= 8 * |m| && i < 8 * |m|
    ensures ClearCount(WithBit(m, i, v), n) ==
            ClearCount(m, n) + if i >= n || Bit(m, i) == v then 0 else if v then -1 else 1
    decreases n
  {
    hide Bit, WithBit;
    if n > 0 {
      CountFlip(m, i, v, n - 1);
      WithBitAt(m, i, v, n - 1);
    }
  }

  lemma {:induction false} CountZero(m: seq<Byte>, n: nat)
    requires n <= 8 * |m|
    ensures ClearCount(m, n) == 0 <==> NoneClear(m, 0, n)
    decreases n
  {
    hide Bit;
    if n > 0 { CountZero(m, n - 1); }
  }

  /** Clearing a range adds as many clear bits as were set in it. */
  lemma {:induction false} CountRange(m: seq<Byte>, w: seq<Byte>, from: nat, end: nat, n: nat)
    requires ClearedRange(m, w, from, end) && from <= end && n <= 8 * |m|
    ensures ClearCount(w, n) == ClearCount(m, n) + SetCount(m, from,
      if end < n then end else if from < n then n else from)
    decreases n
  {
    hide Bit;
    if n > 0 {
      CountRange(m, w, from, end, n - 1);
      if from < n <= end { SetNext(m, from, n - 1); }
    }
  }

  /** The set bits in [from, to). */
  function SetCount(m: seq<Byte>, from: nat, end: nat): (c: nat)
    decreases end
  {
    if end <= from || end > 8 * |m| then 0 else SetCount(m, from, end - 1) + if Bit(m, end - 1) then 1 else 0
  }

  lemma SetNext(m: seq<Byte>, from: nat, end: nat)
    requires from <= end < 8 * |m|
    ensures SetCount(m, from, end + 1) == SetCount(m, from, end) + if Bit(m, end) then 1 else 0
  {
  }

  lemma {:induction false} SetAll(m: seq<Byte>, from: nat, end: nat)
    requires from <= end <= 8 * |m|
    ensures SetCount(m, from, end) <= end - from
    ensures SetCount(m, from, end) == end - from <==> NoneClear(m, from, end)
    decreases end
  {
    hide Bit;
    if from < end { SetAll(m, from, end - 1); }
  }
}
