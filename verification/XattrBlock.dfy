/** Setting, replacing and removing attributes in an extended attribute block. */
module XattrBlock {
  import opened XattrLayout

  const MAGIC: nat := 0xEA02_0000

  datatype Status = Ok | Enospc | Eio

  // ------------------------------------------------------------------- bytes

  function Zeros(n: nat): seq<Byte> { seq(n, i => 0) }

  /** The bytes of [lo, hi) moved up by so many, with zeros left behind. */
  function Slid(b: seq<Byte>, lo: nat, hi: nat, up: nat): (c: seq<Byte>)
    requires lo <= hi && hi + up <= |b|
    ensures |c| == |b|
  {
    b[..lo] + Zeros(up) + b[lo..hi] + b[hi + up..]
  }

  /** A value with its padding written at an offset. */
  function Stored(b: seq<Byte>, o: nat, v: seq<Byte>): (c: seq<Byte>)
    requires o + Round(|v|) <= |b|
    ensures |c| == |b|
  {
    b[..o] + v + Zeros(Round(|v|) - |v|) + b[o + Round(|v|)..]
  }

  /** memmove to a higher place. */
  method MoveUp(data: array<Byte>, lo: nat, hi: nat, up: nat)
    requires lo <= hi && hi + up <= data.Length
    modifies data
    ensures data[..] == old(data[..lo + up]) + old(data[lo..hi]) + old(data[hi + up..])
  {
    var k := hi;
    while k > lo
      invariant lo <= k <= hi
      invariant forall x :: k + up <= x < hi + up ==> data[x] == old(data[x - up])
      invariant forall x :: 0 <= x < k + up || hi + up <= x < data.Length ==> data[x] == old(data[x])
    {
      k := k - 1;
      data[k + up] := data[k];
    }
  }

  /** memset to zero. */
  method Fill(data: array<Byte>, lo: nat, hi: nat)
    requires lo <= hi <= data.Length
    modifies data
    ensures data[..] == old(data[..lo]) + Zeros(hi - lo) + old(data[hi..])
  {
    for z := lo to hi
      invariant forall x :: lo <= x < z ==> data[x] == 0
      invariant forall x :: 0 <= x < lo || z <= x < data.Length ==> data[x] == old(data[x])
    {
      data[z] := 0;
    }
  }

  /** memcpy of a value. */
  method CopyIn(data: array<Byte>, o: nat, v: seq<Byte>)
    requires o + |v| <= data.Length
    modifies data
    ensures data[..] == old(data[..o]) + v + old(data[o + |v|..])
  {
    for x := o to o + |v|
      invariant forall y :: o <= y < x ==> data[y] == v[y - o]
      invariant forall y :: 0 <= y < o || x <= y < data.Length ==> data[y] == old(data[y])
    {
      data[x] := v[x - o];
    }
  }

  method SlideUp(data: array<Byte>, lo: nat, hi: nat, up: nat)
    requires lo <= hi && hi + up <= data.Length
    modifies data
    ensures data[..] == Slid(old(data[..]), lo, hi, up)
  {
    ghost var b := data[..];
    MoveUp(data, lo, hi, up);
    ghost var c := data[..];
    Fill(data, lo, lo + up);
    SlidParts(b, c, data[..], lo, hi, up);
  }

  lemma SlidParts(b: seq<Byte>, c: seq<Byte>, d: seq<Byte>, lo: nat, hi: nat, up: nat)
    requires lo <= hi && hi + up <= |b| == |c|
    requires c == b[..lo + up] + b[lo..hi] + b[hi + up..]
    requires d == c[..lo] + Zeros(up) + c[lo + up..]
    ensures d == Slid(b, lo, hi, up)
  {
    hide Zeros;
    var x, y := b[..lo], b[lo..lo + up];
    assert b[..lo + up] == x + y;
    Parts(x, y, b[lo..hi] + b[hi + up..]);
    assert c == x + y + (b[lo..hi] + b[hi + up..]);
    assert x + Zeros(up) + (b[lo..hi] + b[hi + up..]) == x + Zeros(up) + b[lo..hi] + b[hi + up..];
  }

  lemma Parts(x: seq<Byte>, y: seq<Byte>, z: seq<Byte>)
    ensures (x + y + z)[..|x|] == x && (x + y + z)[|x| + |y|..] == z
  {
  }

  method StoreValue(data: array<Byte>, o: nat, v: seq<Byte>)
    requires o + Round(|v|) <= data.Length
    modifies data
    ensures data[..] == Stored(old(data[..]), o, v)
  {
    ghost var b := data[..];
    CopyIn(data, o, v);
    ghost var c := data[..];
    if Round(|v|) != |v| { Fill(data, o + |v|, o + Round(|v|)); }
    assert c == b[..o] + v + b[o + |v|..];
    assert c[..o + |v|] == b[..o] + v && c[o + Round(|v|)..] == b[o + Round(|v|)..];
    assert data[..] == c[..o + |v|] + Zeros(Round(|v|) - |v|) + c[o + Round(|v|)..];
  }

  /** A value that is moved, or lies above, is read as before. */
  lemma SlidValue(e: Entry, b: seq<Byte>, lo: nat, hi: nat, up: nat)
    requires lo <= hi && hi + up <= |b| && e.size > 0 && lo <= e.offs && e.offs + e.size <= |b|
    ensures e.offs + e.size <= hi ==> Value(e.(offs := e.offs + up), Slid(b, lo, hi, up)) == Value(e, b)
    ensures hi + up <= e.offs ==> Value(e, Slid(b, lo, hi, up)) == Value(e, b)
  {
    var c := Slid(b, lo, hi, up);
    if e.offs + e.size <= hi {
      assert forall y :: e.offs + up <= y < e.offs + up + e.size ==> c[y] == b[y - up];
      assert c[e.offs + up..e.offs + up + e.size] == b[e.offs..e.offs + e.size];
    }
    if hi + up <= e.offs {
      assert c[e.offs..e.offs + e.size] == b[e.offs..e.offs + e.size];
    }
  }

  lemma StoredValue(e: Entry, b: seq<Byte>, o: nat, v: seq<Byte>)
    requires o + Round(|v|) <= |b|
    ensures e.size > 0 && o + Round(|v|) <= e.offs && e.offs + e.size <= |b| ==>
      Value(e, Stored(b, o, v)) == Value(e, b)
    ensures e.offs == o && e.size == |v| ==> Value(e, Stored(b, o, v)) == v
  {
    var c := Stored(b, o, v);
    if e.size > 0 && o + Round(|v|) <= e.offs && e.offs + e.size <= |b| {
      assert c[e.offs..e.offs + e.size] == b[e.offs..e.offs + e.size];
    }
    assert c[o..o + |v|] == v;
  }

  // ------------------------------------------------------------------ entries

  /** The offsets below vo raised by vs, those of empty values among them. */
  function Moved(es: seq<Entry>, vo: nat, vs: nat): seq<Entry> {
    seq(|es|, i requires 0 <= i < |es| => if es[i].offs < vo then es[i].(offs := es[i].offs + vs) else es[i])
  }

  /** Bytes and entries after the value of entry h has been taken out. */
  function Gone(es: seq<Entry>, h: nat): seq<Entry>
    requires h < |es|
  {
    Moved(es, es[h].offs, Round(es[h].size))
  }

  function GoneBytes(es: seq<Entry>, b: seq<Byte>, h: nat): seq<Byte>
    requires h < |es| && Laid(es, |b|)
  {
    MinIs(es, |b|);
    assert Formed(es[h], |b|);
    if es[h].size > 0 then Slid(b, MinOffs(es, |b|), es[h].offs, Round(es[h].size)) else b
  }

  /** Another attribute with an empty value. */
  predicate OtherEmpty(es: seq<Entry>, h: nat) { exists i :: 0 <= i < |es| && i != h && es[i].size == 0 }

  lemma GoneClosed(es: seq<Entry>, h: nat)
    requires h < |es|
    ensures Closed(es, Gone(es, h), h)
  {
  }

  lemma GoneValue(es: seq<Entry>, b: seq<Byte>, h: nat, i: nat)
    requires h < |es| && i < |es| && i != h && Laid(es, |b|)
    ensures Value(Gone(es, h)[i], GoneBytes(es, b, h)) == Value(es[i], b)
  {
    hide Slid, Packed, Distinct, Tail, MinOffs, Value, Round;
    MinIs(es, |b|);
    assert Formed(es[i], |b|) && Formed(es[h], |b|) && Disjoint(es[i], es[h]);
    RoundUp(es[i].size);
    RoundNone();
    EmptyValue(es[i], b);
    EmptyValue(Gone(es, h)[i], GoneBytes(es, b, h));
    if es[i].size > 0 && es[h].size > 0 {
      SlidValue(es[i], b, MinOffs(es, |b|), es[h].offs, Round(es[h].size));
    }
  }

  lemma RoundNone()
    ensures Round(0) == 0
  {
  }

  /** Taking out an attribute with its value: the other attributes keep theirs. */
  lemma GoneGet(es: seq<Entry>, b: seq<Byte>, h: nat, index: nat, name: seq<Byte>)
    requires h < |es| && Laid(es, |b|)
    ensures Get(Without(Gone(es, h), h), GoneBytes(es, b, h), index, name) ==
      if IsKey(es[h], index, name) then None else Get(es, b, index, name)
    ensures Tail(Without(Gone(es, h), h)) + Len(|es[h].name|) == Tail(es)
  {
    hide Laid, Gone, GoneBytes, Without, Get, Tail, Value;
    var r, fs, c := Without(es, h), Gone(es, h), GoneBytes(es, b, h);
    LaidParts(es, |b|);
    GoneClosed(es, h);
    ClosedDistinct(es, fs, h);
    WithoutAt(es, h);
    OthersSame(es, b, fs, c, h);
    SameGet(r, b, Without(fs, h), c, index, name);
    SameAbsent(r, Without(fs, h), es[h].index, es[h].name);
    PutBack(es, h, es[h]);
    PutGet(r, h, es[h], b, index, name);
    PutSums(r, h, es[h]);
    if IsKey(es[h], index, name) { AbsentGet(Without(fs, h), c, index, name); }
  }

  lemma LaidParts(es: seq<Entry>, end: nat)
    requires Laid(es, end)
    ensures Shaped(es, end) && Distinct(es) && Apart(es) && Packed(es, end) && Tail(es) + 4 <= MinOffs(es, end)
  {
  }

  lemma SameAbsent(r: seq<Entry>, f: seq<Entry>, index: nat, name: seq<Byte>)
    requires |r| == |f| && forall i :: 0 <= i < |r| ==> IsKey(f[i], r[i].index, r[i].name)
    requires Absent(f, index, name)
    ensures Absent(r, index, name)
  {
    assert forall i :: 0 <= i < |r| ==> !IsKey(f[i], index, name);
  }

  lemma OthersSame(es: seq<Entry>, b: seq<Byte>, fs: seq<Entry>, c: seq<Byte>, h: nat)
    requires h < |es| && Laid(es, |b|) && fs == Gone(es, h) && c == GoneBytes(es, b, h)
    ensures |Without(fs, h)| == |Without(es, h)|
    ensures forall i :: 0 <= i < |es| - 1 ==>
      && IsKey(Without(fs, h)[i], Without(es, h)[i].index, Without(es, h)[i].name)
      && Value(Without(fs, h)[i], c) == Value(Without(es, h)[i], b)
  {
    hide Laid, GoneBytes, Without, Value;
    WithoutAt(es, h);
    WithoutAt(fs, h);
    forall i | 0 <= i < |es| - 1
      ensures IsKey(Without(fs, h)[i], Without(es, h)[i].index, Without(es, h)[i].name)
      ensures Value(Without(fs, h)[i], c) == Value(Without(es, h)[i], b)
    {
      GoneValue(es, b, h, if i < h then i else i + 1);
    }
  }

  /** What is left is laid out as before, with the space of the value free. */
  lemma GoneLaid(es: seq<Entry>, end: nat, h: nat)
    requires h < |es| && Laid(es, end)
    requires Tail(Without(Gone(es, h), h)) <= Tail(es)
    ensures Laid(Without(Gone(es, h), h), end)
    ensures MinOffs(Without(Gone(es, h), h), end) == MinOffs(es, end) + Round(es[h].size)
    ensures Absent(Without(Gone(es, h), h), es[h].index, es[h].name)
  {
    hide Gone, Without, Tail, MinOffs, Shaped, Apart, Packed, Distinct, Closed;
    var fs := Gone(es, h);
    GoneClosed(es, h);
    ClosedShaped(es, fs, end, h);
    ClosedDistinct(es, fs, h);
    ClosedApart(es, fs, h);
    ClosedPacked(es, fs, end, h);
    ClosedMin(es, fs, end, h);
  }

  /** Empty values are told by offset zero, unless a value was moved over them. */
  lemma GoneClear(es: seq<Entry>, end: nat, h: nat)
    requires h < |es| && Laid(es, end) && Clear(es)
    ensures Clear(Without(Gone(es, h), h)) <==> es[h].size == 0 || !OtherEmpty(es, h)
  {
    hide Without, Round, MinOffs;
    var fs := Gone(es, h);
    WithoutAt(fs, h);
    MinIs(es, end);
    RoundUp(es[h].size);
    var r := Without(fs, h);
    if es[h].size > 0 && OtherEmpty(es, h) {
      var i :| 0 <= i < |es| && i != h && es[i].size == 0;
      WithoutHas(fs, h, i);
      assert fs[i].size == 0 && fs[i].offs > 0 && fs[i] in r;
    }
  }

  lemma RoundUp(n: nat)
    ensures n <= Round(n) < n + 4 && Round(n) % 4 == 0
  {
  }

  /** A new attribute put into the free space. */
  lemma AddedGet(es: seq<Entry>, b: seq<Byte>, k: nat, e: Entry, v: seq<Byte>, index: nat, name: seq<Byte>)
    requires Laid(es, |b|) && k <= |es| && Absent(es, e.index, e.name) && e.size == |v|
    requires |v| > 0 ==> e.offs + Round(|v|) == MinOffs(es, |b|)
    ensures |v| > 0 ==> MinOffs(es, |b|) <= |b|
    ensures Get(Put(es, k, e), if |v| > 0 then Stored(b, e.offs, v) else b, index, name) ==
      if IsKey(e, index, name) then Some(v) else Get(es, b, index, name)
  {
    hide MinOffs, Stored, Get, Tail, Put, Absent, Value;
    MinIs(es, |b|);
    var c := if |v| > 0 then Stored(b, e.offs, v) else b;
    forall i | 0 <= i < |es|
      ensures Value(es[i], c) == Value(es[i], b)
    {
      assert Formed(es[i], |b|);
      if |v| > 0 { StoredValue(es[i], b, e.offs, v); }
      EmptyValue(es[i], b);
      EmptyValue(es[i], c);
    }
    SameGet(es, b, es, c, index, name);
    PutGet(es, k, e, c, index, name);
    if |v| > 0 { StoredValue(e, b, e.offs, v); }
    EmptyValue(e, b);
  }

  lemma EmptyValue(e: Entry, b: seq<Byte>)
    ensures e.size == 0 ==> Value(e, b) == []
  {
  }

  lemma PutClear(es: seq<Entry>, k: nat, e: Entry)
    requires k <= |es| && (e.size == 0 ==> e.offs == 0)
    ensures Clear(Put(es, k, e)) <==> Clear(es)
  {
    var p := Put(es, k, e);
    if Clear(p) {
      forall i | 0 <= i < |es| && es[i].size == 0
        ensures es[i].offs == 0
      {
        assert p[if i < k then i else i + 1] == es[i];
      }
    }
  }

  // ------------------------------------------------------------------- checks

  predicate EntryOk(es: seq<Entry>, i: nat, end: nat)
    requires i < |es|
  {
    && (es[i].size == 0 ==> es[i].offs == 0)
    && es[i].offs + es[i].size <= end
    && Tail(es[..i + 1]) + 4 <= end
  }

  /** What ext4_xattr_is_block_valid looks at. */
  predicate Checked(magic: nat, blocks: nat, es: seq<Entry>, end: nat) {
    && magic == MAGIC && blocks == 1
    && (forall i :: 0 <= i < |es| ==> EntryOk(es, i, end))
    && Tail(es) + 4 <= MinOffs(es, end)
  }

  lemma {:induction false} TailGrows(es: seq<Entry>, i: nat)
    requires i <= |es|
    ensures Tail(es[..i]) <= Tail(es)
    decreases |es|
  {
    if i < |es| {
      TailGrows(es[..|es| - 1], i);
      assert es[..|es| - 1][..i] == es[..i];
    } else {
      assert es[..i] == es;
    }
  }

  /** A block as the code lays it out passes the checks exactly if empty values have offset zero. */
  lemma LaidChecked(es: seq<Entry>, end: nat)
    requires Laid(es, end)
    ensures Checked(MAGIC, 1, es, end) <==> Clear(es)
  {
    hide Tail, MinOffs, Apart, Packed, Distinct;
    MinIs(es, end);
    forall i | 0 <= i < |es|
      ensures EntryOk(es, i, end) <==> (es[i].size == 0 ==> es[i].offs == 0)
    {
      TailGrows(es, i + 1);
      assert Formed(es[i], end);
    }
  }

  /** A name is found where it is. */
  lemma {:induction false} GetAt(es: seq<Entry>, b: seq<Byte>, h: nat)
    requires Distinct(es) && h < |es|
    ensures Get(es, b, es[h].index, es[h].name) == Some(Value(es[h], b))
    decreases |es|
  {
    if h < |es| - 1 {
      assert !IsKey(es[h], es[|es| - 1].index, es[|es| - 1].name);
      GetAt(es[..|es| - 1], b, h);
    }
  }

  /** An attribute "a" without a value beside an attribute "b" of four bytes: removing "b" leaves a block
      that the next check refuses. */
  lemma EmptyValueBreaks()
    ensures var es := [Entry(1, [97], 0, 0), Entry(1, [98], 1020, 4)];
      && Laid(es, 1024) && Checked(MAGIC, 1, es, 1024)
      && !Checked(MAGIC, 1, Without(Gone(es, 1), 1), 1024)
  {
    hide Round;
    var x, y := Entry(1, [97], 0, 0), Entry(1, [98], 1020, 4);
    var es := [x, y];
    assert Round(17) == 20 && Round(4) == 4 && Round(0) == 0 by { RoundIs(); }
    assert es[..1] == [x] && [x][..0] == [];
    assert Tail([x]) == 52 && Tail(es) == 72 && MinOffs([x], 1024) == 1024 && MinOffs(es, 1024) == 1020;
    assert Laid(es, 1024);
    LaidChecked(es, 1024);
    var r := Without(Gone(es, 1), 1);
    assert r[0] == x.(offs := 4);
    assert !EntryOk(r, 0, 1024);
  }

  lemma RoundIs()
    ensures Round(17) == 20 && Round(4) == 4 && Round(0) == 0
  {
  }

  // -------------------------------------------------------------------- class

  class Block {
    var magic: nat
    /** h_blocks. */
    var blocks: nat
    var entries: seq<Entry>
    /** The bytes of the block; of these the values are used. */
    const data: array<Byte>

    ghost predicate Valid()
      reads this, data
    {
      magic == MAGIC && blocks == 1 && data.Length % 4 == 0 && Laid(entries, data.Length)
    }

    /** The value of an attribute. */
    ghost function Attribute(index: nat, name: seq<Byte>): Option<seq<Byte>>
      reads this, data
    {
      Get(entries, data[..], index, name)
    }

    /** ext4_xattr_block_initialize. */
    constructor (data: array<Byte>)
      requires data.Length % 4 == 0 && data.Length >= HEADER + 4
      modifies data
      ensures this.data == data && Valid() && Clear(entries) && entries == [] && magic == 0xEA02_0000 && blocks == 1
      ensures forall i :: 0 <= i < data.Length ==> data[i] == 0
    {
      this.data, magic, blocks, entries := data, MAGIC, 1, [];
      new;
      for i := 0 to data.Length
        invariant this.data == data && magic == MAGIC && blocks == 1 && entries == []
        invariant forall k :: 0 <= k < i ==> data[k] == 0
      {
        data[i] := 0;
      }
    }

    /** ext4_xattr_is_block_valid. */
    method IsBlockValid() returns (ok: bool)
      ensures ok <==> Checked(magic, blocks, entries, data.Length)
      ensures ok ==> magic == 0xEA02_0000
    {
      if magic != MAGIC || blocks != 1 { return false; }
      var minOffs, entry, end, i := data.Length, HEADER, data.Length, 0;
      assert entries[..0] == [];
      while i < |entries|
        invariant i <= |entries| && entry == Tail(entries[..i]) && minOffs == MinOffs(entries[..i], end)
        invariant forall k :: 0 <= k < i ==> EntryOk(entries, k, end)
      {
        var e := entries[i];
        assert entries[..i + 1][..i] == entries[..i];
        assert Tail(entries[..i + 1]) == entry + Len(|e.name|);
        assert EntryOk(entries, i, end) <==>
          (e.size == 0 ==> e.offs == 0) && e.offs + e.size <= end && entry + Len(|e.name|) + 4 <= end;
        if e.size == 0 && e.offs != 0 { return false; }
        if e.offs + e.size > end { return false; }
        if entry + Len(|e.name|) + 4 > end { return false; }
        if e.size != 0 && e.offs < minOffs { minOffs := e.offs; }
        entry := entry + Len(|e.name|);
        i := i + 1;
      }
      assert entries[..i] == entries;
      ok := !(minOffs < entry + 4);
    }

    /** ext4_xattr_find_entry. */
    method FindEntry(index: nat, name: seq<Byte>) returns (found: bool, here: nat)
      requires Valid()
      ensures found ==> here < |entries| && IsKey(entries[here], index, name)
      ensures !found ==> Absent(entries, index, name)
      ensures Attribute(index, name) == if found then Some(Value(entries[here], data[..])) else None
    {
      hide Value;
      here := 0;
      while here < |entries|
        invariant here <= |entries| && forall i :: 0 <= i < here ==> !IsKey(entries[i], index, name)
      {
        if |entries[here].name| == |name| && entries[here].index == index && entries[here].name == name {
          GetAt(entries, data[..], here);
          return true, here;
        }
        here := here + 1;
      }
      AbsentGet(entries, data[..], index, name);
      found := false;
    }

    /** The lowest value and the end of the entries. */
    method Scan() returns (minOffs: nat, last: nat)
      ensures minOffs == MinOffs(entries, data.Length) && last == Tail(entries)
    {
      minOffs, last := data.Length, HEADER;
      assert entries[..0] == [];
      for i := 0 to |entries|
        invariant minOffs == MinOffs(entries[..i], data.Length) && last == Tail(entries[..i])
      {
        assert entries[..i + 1][..i] == entries[..i];
        if entries[i].size != 0 && entries[i].offs < minOffs { minOffs := entries[i].offs; }
        last := last + Len(|entries[i].name|);
      }
      assert entries[..|entries|] == entries;
    }

    /** The first part of ext4_xattr_set_entry: the old value is taken out. */
    method DropValue(here: nat, lowest: nat) returns (minOffs: nat)
      requires Valid() && Clear(entries) && here < |entries| && lowest == MinOffs(entries, data.Length)
      modifies `entries, data
      ensures entries == Gone(old(entries), here)
      ensures data[..] == GoneBytes(old(entries), old(data[..]), here)
      ensures minOffs == lowest + Round(old(entries)[here].size)
    {
      ghost var es, end := entries, data.Length;
      MinIs(entries, end);
      assert Formed(entries[here], end);
      assert data[..] == old(data[..]) && |data[..]| == end;
      var valueOffs, valueSize := entries[here].offs, Round(entries[here].size);
      minOffs := lowest;
      if valueOffs != 0 {
        SlideUp(data, lowest, valueOffs, valueSize);
        minOffs := minOffs + valueSize;
      }
      ShiftOffsets(valueOffs, valueSize);
    }

    method ShiftOffsets(valueOffs: nat, valueSize: nat)
      modifies `entries
      ensures entries == Moved(old(entries), valueOffs, valueSize)
    {
      var i := 0;
      while i < |entries|
        invariant i <= |entries| == |old(entries)|
        invariant forall k :: 0 <= k < i ==> entries[k] == Moved(old(entries), valueOffs, valueSize)[k]
        invariant forall k :: i <= k < |entries| ==> entries[k] == old(entries)[k]
      {
        if entries[i].offs < valueOffs {
          entries := entries[i := entries[i].(offs := entries[i].offs + valueSize)];
        }
        i := i + 1;
      }
    }

    /** The second part of ext4_xattr_set_entry: the new value is put in, or the entry taken out. */
    method PutValue(index: nat, name: seq<Byte>, value: Option<seq<Byte>>, found: bool, here: nat, minOffs: nat,
                    ghost r: seq<Entry>)
      requires found || value.Some?
      requires if found then here < |entries| && IsKey(entries[here], index, name) && r == Without(entries, here)
               else r == entries
      requires Laid(r, data.Length) && minOffs == MinOffs(r, data.Length) && data.Length % 4 == 0
      requires Absent(r, index, name) && 0 < index && |name| < 256
      requires value.Some? ==> Tail(r) + Len(|name|) + 4 + Round(|value.value|) <= minOffs
      modifies `entries, data
      ensures Laid(entries, data.Length) && (Clear(entries) <==> Clear(r))
      ensures forall i, nm :: Get(entries, data[..], i, nm) ==
                if i == index && nm == name then value else Get(r, old(data[..]), i, nm)
    {
      hide Laid, MinOffs, Get, Absent, Clear, Tail, Without, Put, Stored, Len;
      ghost var b, k := data[..], if found then here else |r|;
      if found { WithoutAt(entries, here); }
      if value.None? {
        forall i, nm | i == index && nm == name
          ensures Get(r, b, i, nm) == None
        {
          AbsentGet(r, b, i, nm);
        }
        WithoutIs(entries, here);
        entries := entries[..here] + entries[here + 1..];
        return;
      }
      var v := value.value;
      LowestAligned(r, data.Length);
      RoundUp(|v|);
      var valueOffs := if |v| > 0 then minOffs - Round(|v|) else 0;
      ghost var e := Entry(index, name, valueOffs, |v|);
      PutFits(r, data.Length, k, e);
      PutClear(r, k, e);
      if found {
        PutBack(entries, here, e);
        entries := entries[here := entries[here].(offs := valueOffs, size := |v|)];
      } else {
        PutLast(entries, e);
        entries := entries + [Entry(index, name, valueOffs, |v|)];
      }
      if valueOffs != 0 { StoreValue(data, valueOffs, v); }
      forall i, nm
        ensures Get(entries, data[..], i, nm) == if i == index && nm == name then value else Get(r, b, i, nm)
      {
        AddedGet(r, b, k, e, v, i, nm);
      }
    }

    /** ext4_xattr_set_entry: an attribute is set, replaced or, without a value, removed. */
    method SetEntry(index: nat, name: seq<Byte>, value: Option<seq<Byte>>, found: bool, here: nat, dryRun: bool)
      returns (st: Status)
      requires Valid() && Clear(entries) && 0 < index && |name| < 256
      requires if found then here < |entries| && IsKey(entries[here], index, name) else Absent(entries, index, name)
      modifies `entries, data
      ensures Valid()
      ensures st == if value.Some? && SpaceWith(old(entries), found, here, name, value.value) > data.Length then Enospc
                    else Ok
      ensures forall i, nm :: Attribute(i, nm) ==
                if st.Ok? && !dryRun && i == index && nm == name then value else old(Attribute(i, nm))
      ensures Clear(entries) <==>
                !(st.Ok? && !dryRun && found && old(entries)[here].size > 0 && OtherEmpty(old(entries), here))
    {
      hide Laid, MinOffs, Get, Absent, Clear, Tail, Without, Gone, GoneBytes, Len, Sizes, Round;
      ghost var es, b, end := entries, data[..], data.Length;
      if value.None? && !found {
        forall i, nm | i == index && nm == name
          ensures Attribute(i, nm) == None
        {
          AbsentGet(es, b, i, nm);
        }
        return Ok;
      }
      var minOffs, last := Scan();
      LaidParts(es, end);
      PackedSizes(es, end);
      var free := minOffs - last - 4;
      if found { free := free + Round(entries[here].size) + Len(|entries[here].name|); }
      if value.Some? {
        if free < Round(|value.value|) + Len(|name|) { return Enospc; }
      }
      if dryRun { return Ok; }
      ghost var r, c := es, b;
      if found {
        minOffs := DropValue(here, minOffs);
        Removed(es, b, end, here);
        r, c := Without(Gone(es, here), here), GoneBytes(es, b, here);
      }
      PutValue(index, name, value, found, here, minOffs, r);
      st := Ok;
    }

    /** ext4_xattr_block_find_entry and ext4_xattr_set_entry, as ext4_xattr_block_set puts them together. After
        an empty value has lost its place nothing can be set or removed any more: that happens exactly when a
        value that is not empty is replaced or removed beside an empty one. */
    method BlockSet(index: nat, name: seq<Byte>, value: Option<seq<Byte>>)
      returns (st: Status, ghost found: bool, ghost here: nat)
      requires Valid() && 0 < index && |name| < 256
      modifies `entries, data
      ensures Valid()
      ensures st.Eio? <==> !Clear(old(entries))
      ensures !st.Eio? ==> if found then here < |old(entries)| && IsKey(old(entries)[here], index, name)
                           else Absent(old(entries), index, name)
      ensures !st.Eio? ==>
        (st.Enospc? <==> value.Some? && SpaceWith(old(entries), found, here, name, value.value) > data.Length)
      ensures forall i, nm :: Attribute(i, nm) ==
                if st.Ok? && i == index && nm == name then value else old(Attribute(i, nm))
      ensures !st.Eio? ==>
        (Clear(entries) <==> !(st.Ok? && found && old(entries)[here].size > 0 && OtherEmpty(old(entries), here)))
    {
      hide Laid, Get, Absent, SpaceWith, Checked, OtherEmpty, Clear;
      LaidChecked(entries, data.Length);
      var ok := IsBlockValid();
      if !ok { return Eio, false, 0; }
      var there, at := FindEntry(index, name);
      found, here := there, at;
      st := SetEntry(index, name, value, there, at, false);
    }
  }

  /** Bytes taken once an attribute has its new value. */
  function SpaceWith(es: seq<Entry>, found: bool, here: nat, name: seq<Byte>, v: seq<Byte>): int
    requires found ==> here < |es|
  {
    Space(es) + Len(|name|) + Round(|v|) - if found then Len(|es[here].name|) + Round(es[here].size) else 0
  }

  /** The block without an attribute. */
  lemma Removed(es: seq<Entry>, b: seq<Byte>, end: nat, h: nat)
    requires h < |es| && |b| == end && Laid(es, end) && Clear(es)
    ensures |Gone(es, h)| == |es| && IsKey(Gone(es, h)[h], es[h].index, es[h].name)
    ensures var r := Without(Gone(es, h), h);
      && Laid(r, end) && MinOffs(r, end) == MinOffs(es, end) + Round(es[h].size)
      && Absent(r, es[h].index, es[h].name) && Tail(r) + Len(|es[h].name|) == Tail(es)
      && (Clear(r) <==> es[h].size == 0 || !OtherEmpty(es, h))
      && forall i, nm :: Get(r, GoneBytes(es, b, h), i, nm) == if IsKey(es[h], i, nm) then None else Get(es, b, i, nm)
  {
    hide Laid, MinOffs, Absent, Clear, Get, Tail, Without, GoneBytes, OtherEmpty;
    var r := Without(Gone(es, h), h);
    forall i, nm
      ensures Get(r, GoneBytes(es, b, h), i, nm) == if IsKey(es[h], i, nm) then None else Get(es, b, i, nm)
    {
      GoneGet(es, b, h, i, nm);
    }
    GoneGet(es, b, h, 0, []);
    GoneLaid(es, end, h);
    GoneClear(es, end, h);
  }

  lemma WithoutIs(es: seq<Entry>, h: nat)
    requires h < |es|
    ensures Without(es, h) == es[..h] + es[h + 1..]
  {
  }

  lemma PutLast(es: seq<Entry>, e: Entry)
    ensures Put(es, |es|, e) == es + [e]
  {
  }

  lemma LowestAligned(es: seq<Entry>, end: nat)
    requires Laid(es, end) && end % 4 == 0
    ensures MinOffs(es, end) % 4 == 0 && 0 < MinOffs(es, end) <= end
  {
    hide MinOffs, Apart, Packed, Distinct;
    MinIs(es, end);
    assert StartsAt(es, MinOffs(es, end)) ==>
      exists e :: e in es && Formed(e, end) && e.size > 0 && e.offs == MinOffs(es, end);
  }

  lemma PutFits(es: seq<Entry>, end: nat, k: nat, e: Entry)
    requires Laid(es, end) && k <= |es| && Absent(es, e.index, e.name) && end % 4 == 0
    requires 0 < e.index && |e.name| < 256 && Tail(es) + Len(|e.name|) + 4 + Round(e.size) <= MinOffs(es, end)
    requires e.offs == if e.size > 0 then MinOffs(es, end) - Round(e.size) else 0
    ensures Laid(Put(es, k, e), end)
  {
    hide MinOffs, Laid, Tail, Absent;
    LowestAligned(es, end);
    PutLaid(es, end, k, e);
  }
}
