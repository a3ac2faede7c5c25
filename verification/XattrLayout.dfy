/** Extended attribute blocks: entries from the front, packed values from the back. */
module XattrLayout {

  type Byte = b: int | 0 <= b < 256

  /** e_name_index, e_name, e_value_offs and e_value_size. */
  datatype Entry = Entry(index: nat, name: seq<Byte>, offs: nat, size: nat)

  datatype Option<T> = None | Some(value: T)

  const HEADER: nat := 32

  /** Rounded up to four bytes: EXT4_XATTR_SIZE. */
  function Round(n: nat): nat { (n + 3) / 4 * 4 }

  /** EXT4_XATTR_LEN: a sixteen-byte entry with its name. */
  function Len(nameLen: nat): nat { Round(nameLen + 16) }

  predicate IsKey(e: Entry, index: nat, name: seq<Byte>) { e.index == index && e.name == name }

  function Value(e: Entry, b: seq<Byte>): seq<Byte> {
    if e.size > 0 && e.offs + e.size <= |b| then b[e.offs..e.offs + e.size] else []
  }

  /** Where the list of entries ends. */
  function Tail(es: seq<Entry>): nat {
    if es == [] then HEADER else Tail(es[..|es| - 1]) + Len(|es[|es| - 1].name|)
  }

  /** Where the lowest value begins. */
  function MinOffs(es: seq<Entry>, end: nat): nat {
    if es == [] then end
    else
      var m, e := MinOffs(es[..|es| - 1], end), es[|es| - 1];
      if e.size > 0 && e.offs < m then e.offs else m
  }

  /** Bytes taken by values. */
  function Sizes(es: seq<Entry>): nat {
    if es == [] then 0 else Sizes(es[..|es| - 1]) + Round(es[|es| - 1].size)
  }

  /** Bytes that header, entries, terminator and values take. */
  function Space(es: seq<Entry>): nat { Tail(es) + 4 + Sizes(es) }

  /** In bytes: 32 for the header and 4 behind the entries, and for each attribute 16 with its name and its value, both
      up to a multiple of four. */
  lemma SpaceInBytes(es: seq<Entry>, e: Entry)
    ensures Space([]) == 32 + 4
    ensures Space(es + [e]) == Space(es) + (16 + |e.name| + 3) / 4 * 4 + (e.size + 3) / 4 * 4
    ensures Tail(es + [e]) == Tail(es) + (16 + |e.name| + 3) / 4 * 4
  {
    var w := es + [e];
    assert w[..|w| - 1] == es && w[|w| - 1] == e;
  }

  /** The value of an attribute. */
  function Get(es: seq<Entry>, b: seq<Byte>, index: nat, name: seq<Byte>): Option<seq<Byte>> {
    if es == [] then None
    else if IsKey(es[|es| - 1], index, name) then Some(Value(es[|es| - 1], b))
    else Get(es[..|es| - 1], b, index, name)
  }

  predicate Absent(es: seq<Entry>, index: nat, name: seq<Byte>) {
    forall i :: 0 <= i < |es| ==> !IsKey(es[i], index, name)
  }

  // ------------------------------------------------------------------ layout

  predicate Formed(e: Entry, end: nat) {
    e.index > 0 && |e.name| < 256 && (e.size > 0 ==> e.offs % 4 == 0 && e.offs + Round(e.size) <= end)
  }

  predicate Shaped(es: seq<Entry>, end: nat) { forall i :: 0 <= i < |es| ==> Formed(es[i], end) }

  predicate Distinct(es: seq<Entry>) {
    forall i, j :: 0 <= i < j < |es| ==> !IsKey(es[i], es[j].index, es[j].name)
  }

  predicate Disjoint(x: Entry, y: Entry) {
    x.size > 0 && y.size > 0 ==> x.offs + Round(x.size) <= y.offs || y.offs + Round(y.size) <= x.offs
  }

  predicate Apart(es: seq<Entry>) { forall i, j :: 0 <= i < |es| && 0 <= j < |es| && i != j ==> Disjoint(es[i], es[j]) }

  predicate StartsAt(es: seq<Entry>, o: nat) { exists e :: e in es && e.size > 0 && e.offs == o }

  /** Packed: behind each value comes another one or the end of the block. */
  predicate Packed(es: seq<Entry>, end: nat) {
    forall i :: 0 <= i < |es| && es[i].size > 0 ==>
      es[i].offs + Round(es[i].size) == end || StartsAt(es, es[i].offs + Round(es[i].size))
  }

  /** Entries and values as the code lays them out; where empty values are said to be is left open. */
  predicate Laid(es: seq<Entry>, end: nat) {
    && Shaped(es, end) && Distinct(es) && Apart(es) && Packed(es, end)
    && Tail(es) + 4 <= MinOffs(es, end)
  }

  /** Empty values have offset zero. */
  predicate Clear(es: seq<Entry>) { forall i :: 0 <= i < |es| && es[i].size == 0 ==> es[i].offs == 0 }

  // -------------------------------------------------------------- lowest value

  lemma {:induction false} MinIs(es: seq<Entry>, end: nat)
    ensures MinOffs(es, end) <= end
    ensures forall i :: 0 <= i < |es| && es[i].size > 0 ==> MinOffs(es, end) <= es[i].offs
    ensures MinOffs(es, end) == end || StartsAt(es, MinOffs(es, end))
    decreases |es|
  {
    if es != [] {
      var r, n := es[..|es| - 1], |es| - 1;
      MinIs(r, end);
      if MinOffs(es, end) != end {
        if es[n].size > 0 && es[n].offs < MinOffs(r, end) {
          assert es[n] in es;
        } else {
          var e :| e in r && e.size > 0 && e.offs == MinOffs(r, end);
          assert e in es;
        }
      }
    }
  }

  lemma MinIsOnly(es: seq<Entry>, end: nat, m: nat)
    requires m <= end && forall i :: 0 <= i < |es| && es[i].size > 0 ==> m <= es[i].offs
    requires m == end || StartsAt(es, m)
    requires Shaped(es, end)
    ensures MinOffs(es, end) == m
  {
    MinIs(es, end);
    assert m != end ==> exists e :: e in es && e.size > 0 && e.offs == m && Formed(e, end);
  }

  // ------------------------------------------------------------ put and remove

  function Put(es: seq<Entry>, k: nat, e: Entry): seq<Entry>
    requires k <= |es|
  {
    es[..k] + [e] + es[k..]
  }

  function Without(es: seq<Entry>, h: nat): seq<Entry>
    requires h < |es|
  {
    es[..h] + es[h + 1..]
  }

  lemma PutBack(es: seq<Entry>, h: nat, e: Entry)
    requires h < |es|
    ensures Put(Without(es, h), h, e) == es[h := e]
    ensures Put(Without(es, h), h, es[h]) == es
  {
    assert Without(es, h)[..h] == es[..h] && Without(es, h)[h..] == es[h + 1..];
  }

  lemma {:induction false} PutSums(es: seq<Entry>, k: nat, e: Entry)
    requires k <= |es|
    ensures Tail(Put(es, k, e)) == Tail(es) + Len(|e.name|)
    ensures Sizes(Put(es, k, e)) == Sizes(es) + Round(e.size)
    decreases |es|
  {
    var p := Put(es, k, e);
    if k == |es| {
      assert p[..|es|] == es && p[|es|] == e;
    } else {
      var r := es[..|es| - 1];
      PutSums(r, k, e);
      assert p[..|p| - 1] == Put(r, k, e);
      assert p[|p| - 1] == es[|es| - 1];
    }
  }

  /** A new attribute is added, and the others keep their values. */
  lemma {:induction false} PutGet(es: seq<Entry>, k: nat, e: Entry, b: seq<Byte>, index: nat, name: seq<Byte>)
    requires k <= |es| && Absent(es, e.index, e.name)
    ensures Get(Put(es, k, e), b, index, name) ==
      if IsKey(e, index, name) then Some(Value(e, b)) else Get(es, b, index, name)
    decreases |es|
  {
    var p := Put(es, k, e);
    if k == |es| {
      assert p[..|es|] == es && p[|es|] == e;
    } else {
      var r, last := es[..|es| - 1], es[|es| - 1];
      assert forall i :: 0 <= i < |r| ==> r[i] == es[i];
      PutGet(r, k, e, b, index, name);
      assert p[..|p| - 1] == Put(r, k, e);
      assert p[|p| - 1] == last;
    }
  }

  /** Entries with the same names and values are the same attributes. */
  lemma {:induction false} SameGet(es: seq<Entry>, b: seq<Byte>, fs: seq<Entry>, c: seq<Byte>, index: nat,
                                   name: seq<Byte>)
    requires |es| == |fs|
    requires forall i :: 0 <= i < |es| ==> IsKey(fs[i], es[i].index, es[i].name) && Value(fs[i], c) == Value(es[i], b)
    ensures Get(fs, c, index, name) == Get(es, b, index, name)
    ensures Tail(fs) == Tail(es)
    decreases |es|
  {
    if es != [] {
      SameGet(es[..|es| - 1], b, fs[..|fs| - 1], c, index, name);
    }
  }

  lemma {:induction false} AbsentGet(es: seq<Entry>, b: seq<Byte>, index: nat, name: seq<Byte>)
    requires Absent(es, index, name)
    ensures Get(es, b, index, name) == None
    decreases |es|
  {
    if es != [] {
      AbsentGet(es[..|es| - 1], b, index, name);
    }
  }

  // ------------------------------------------------------------------ packing

  lemma WithoutAt(es: seq<Entry>, h: nat)
    requires h < |es|
    ensures |Without(es, h)| == |es| - 1
    ensures forall i :: 0 <= i < |es| - 1 ==> Without(es, h)[i] == es[if i < h then i else i + 1]
  {
  }

  lemma WithoutHas(es: seq<Entry>, h: nat, j: nat)
    requires h < |es| && j < |es| && j != h
    ensures es[j] in Without(es, h)
  {
    assert Without(es, h)[if j < h then j else j - 1] == es[j];
  }

  /** How far the values below that of h move up when it is taken out. */
  function Shift(h: Entry, offs: nat): nat { if offs < h.offs then Round(h.size) else 0 }

  /** The entries after the values below that of entry h have moved up over it. */
  predicate Closed(es: seq<Entry>, fs: seq<Entry>, h: nat) {
    && h < |es| == |fs|
    && forall i :: 0 <= i < |es| ==>
         && IsKey(fs[i], es[i].index, es[i].name) && fs[i].size == es[i].size
         && (es[i].size > 0 ==> fs[i].offs == es[i].offs + Shift(es[h], es[i].offs))
  }

  lemma StillFormed(es: seq<Entry>, fs: seq<Entry>, end: nat, h: nat, i: nat)
    requires Closed(es, fs, h) && Shaped(es, end) && Apart(es) && i < |es| && i != h
    ensures Formed(fs[i], end)
  {
    assert Formed(es[i], end) && Formed(es[h], end) && Disjoint(es[i], es[h]);
  }

  lemma ClosedShaped(es: seq<Entry>, fs: seq<Entry>, end: nat, h: nat)
    requires Closed(es, fs, h) && Shaped(es, end) && Apart(es)
    ensures Shaped(Without(fs, h), end)
  {
    hide Without, Formed, Apart, IsKey, Round, Shift;
    WithoutAt(fs, h);
    var r := Without(fs, h);
    forall i | 0 <= i < |r|
      ensures Formed(r[i], end)
    {
      StillFormed(es, fs, end, h, if i < h then i else i + 1);
    }
  }

  lemma ClosedDistinct(es: seq<Entry>, fs: seq<Entry>, h: nat)
    requires Closed(es, fs, h) && Distinct(es)
    ensures Distinct(Without(fs, h))
    ensures Absent(Without(fs, h), es[h].index, es[h].name)
  {
    hide Without;
    WithoutAt(fs, h);
    var r := Without(fs, h);
    forall i | 0 <= i < |r|
      ensures !IsKey(r[i], es[h].index, es[h].name)
    {
      assert r[i] == fs[if i < h then i else i + 1];
    }
    forall i, j | 0 <= i < j < |r|
      ensures !IsKey(r[i], r[j].index, r[j].name)
    {
      assert r[i] == fs[if i < h then i else i + 1] && r[j] == fs[if j < h then j else j + 1];
    }
  }

  lemma ClosedApart(es: seq<Entry>, fs: seq<Entry>, h: nat)
    requires Closed(es, fs, h) && Apart(es)
    ensures Apart(Without(fs, h))
  {
    hide Without, Round;
    WithoutAt(fs, h);
    var r := Without(fs, h);
    forall i, j | 0 <= i < |r| && 0 <= j < |r| && i != j
      ensures Disjoint(r[i], r[j])
    {
      StillDisjoint(es, fs, h, if i < h then i else i + 1, if j < h then j else j + 1);
    }
  }

  lemma StillDisjoint(es: seq<Entry>, fs: seq<Entry>, h: nat, i: nat, j: nat)
    requires Closed(es, fs, h) && Apart(es) && i < |es| && j < |es| && i != j && i != h && j != h
    ensures Disjoint(fs[i], fs[j])
  {
    assert Disjoint(es[i], es[j]) && Disjoint(es[i], es[h]) && Disjoint(es[j], es[h]);
  }

  /** Where a value began one begins still, moved up or not. */
  lemma StartsClosed(es: seq<Entry>, fs: seq<Entry>, h: nat, o: nat)
    requires Closed(es, fs, h) && StartsAt(es, o) && !(es[h].size > 0 && es[h].offs == o)
    ensures StartsAt(Without(fs, h), o + Shift(es[h], o))
  {
    hide Without, Round;
    var e :| e in es && e.size > 0 && e.offs == o;
    var j :| 0 <= j < |es| && es[j] == e;
    WithoutHas(fs, h, j);
  }

  lemma ClosedPacked(es: seq<Entry>, fs: seq<Entry>, end: nat, h: nat)
    requires Closed(es, fs, h) && Shaped(es, end) && Apart(es) && Packed(es, end)
    ensures Packed(Without(fs, h), end)
  {
    hide Without, Round, Shaped, Apart, Closed, Packed, StartsAt;
    ClosedSizes(es, fs, h);
    var r := Without(fs, h);
    forall i | 0 <= i < |es| && i != h && es[i].size > 0
      ensures fs[i].offs + Round(fs[i].size) == end || StartsAt(r, fs[i].offs + Round(fs[i].size))
    {
      StillFollowed(es, fs, end, h, i);
    }
    PackedFrom(r, end, fs, h);
  }

  lemma ClosedSizes(es: seq<Entry>, fs: seq<Entry>, h: nat)
    requires Closed(es, fs, h)
    ensures h < |es| == |fs| && forall i :: 0 <= i < |es| ==> fs[i].size == es[i].size
  {
  }

  lemma PackedFrom(r: seq<Entry>, end: nat, fs: seq<Entry>, h: nat)
    requires h < |fs| && r == Without(fs, h)
    requires forall i :: 0 <= i < |fs| && i != h && fs[i].size > 0 ==>
      fs[i].offs + Round(fs[i].size) == end || StartsAt(r, fs[i].offs + Round(fs[i].size))
    ensures Packed(r, end)
  {
    hide Round, StartsAt;
    forall i | 0 <= i < |r| && r[i].size > 0
      ensures r[i].offs + Round(r[i].size) == end || StartsAt(r, r[i].offs + Round(r[i].size))
    {
      assert r[i] == fs[if i < h then i else i + 1];
    }
  }

  lemma StillFollowed(es: seq<Entry>, fs: seq<Entry>, end: nat, h: nat, i: nat)
    requires Closed(es, fs, h) && Shaped(es, end) && Apart(es) && Packed(es, end)
    requires i < |es| && i != h && es[i].size > 0
    ensures fs[i].offs + Round(fs[i].size) == end || StartsAt(Without(fs, h), fs[i].offs + Round(fs[i].size))
  {
    hide Without, StartsAt;
    assert Disjoint(es[i], es[h]) && Formed(es[i], end) && Formed(es[h], end);
    var top: nat := es[i].offs + Round(es[i].size);
    var o := if es[h].size > 0 && top == es[h].offs then top + Round(es[h].size) else top;
    if o != end {
      assert StartsAt(es, o);
      StartsClosed(es, fs, h, o);
    }
  }

  lemma ClosedMin(es: seq<Entry>, fs: seq<Entry>, end: nat, h: nat)
    requires Closed(es, fs, h) && Shaped(es, end) && Apart(es) && Packed(es, end)
    ensures MinOffs(Without(fs, h), end) == MinOffs(es, end) + Round(es[h].size)
  {
    hide MinOffs, Without, StartsAt, Round, Shift, IsKey, Apart, Formed, Packed;
    WithoutAt(fs, h);
    MinIs(es, end);
    ClosedShaped(es, fs, end, h);
    var r, m, top := Without(fs, h), MinOffs(es, end), MinOffs(es, end) + Round(es[h].size);
    forall i | 0 <= i < |r| && r[i].size > 0
      ensures top <= r[i].offs
    {
      StillAbove(es, fs, end, h, m, if i < h then i else i + 1);
    }
    MinAttained(es, fs, end, h);
    MinIsOnly(r, end, top);
  }

  lemma StillAbove(es: seq<Entry>, fs: seq<Entry>, end: nat, h: nat, m: nat, i: nat)
    requires Closed(es, fs, h) && Apart(es) && i < |es| && i != h && es[i].size > 0
    requires forall k :: 0 <= k < |es| && es[k].size > 0 ==> m <= es[k].offs
    ensures m + Round(es[h].size) <= fs[i].offs
  {
    assert Disjoint(es[i], es[h]);
  }

  lemma MinAttained(es: seq<Entry>, fs: seq<Entry>, end: nat, h: nat)
    requires Closed(es, fs, h) && Shaped(es, end) && Packed(es, end)
    ensures var top := MinOffs(es, end) + Round(es[h].size); top <= end && (top == end || StartsAt(Without(fs, h), top))
  {
    hide MinOffs, Without, StartsAt;
    MinIs(es, end);
    var m, top := MinOffs(es, end), MinOffs(es, end) + Round(es[h].size);
    assert Formed(es[h], end);
    if es[h].size > 0 && es[h].offs == m {
      if top != end { StartsClosed(es, fs, h, top); }
    } else if m != end {
      StartsClosed(es, fs, h, m);
    }
  }

  /** The entry with the lowest value is taken out. */
  lemma LowestOut(es: seq<Entry>, end: nat, h: nat)
    requires Shaped(es, end) && Apart(es) && Packed(es, end) && h < |es|
    requires es[h].size > 0 ==> es[h].offs == MinOffs(es, end)
    ensures var r := Without(es, h);
      && Shaped(r, end) && Apart(r) && Packed(r, end)
      && MinOffs(r, end) == MinOffs(es, end) + Round(es[h].size)
  {
    hide MinOffs, Without, Shaped, Apart, Packed;
    MinIs(es, end);
    ClosedShaped(es, es, end, h);
    ClosedApart(es, es, h);
    ClosedPacked(es, es, end, h);
    ClosedMin(es, es, end, h);
  }

  /** Packed values fill the block from the lowest one to its end. */
  lemma {:induction false} PackedSizes(es: seq<Entry>, end: nat)
    requires Shaped(es, end) && Apart(es) && Packed(es, end)
    ensures MinOffs(es, end) + Sizes(es) == end
    decreases |es|
  {
    hide MinOffs, Sizes, Shaped, Apart, Packed;
    if es == [] {
      NoEntries(end);
    } else {
      var h := Lowest(es, end);
      LowestOut(es, end, h);
      PackedSizes(Without(es, h), end);
      PutBack(es, h, es[h]);
      PutSums(Without(es, h), h, es[h]);
    }
  }

  lemma NoEntries(end: nat)
    ensures MinOffs([], end) == end && Sizes([]) == 0
  {
  }

  lemma Lowest(es: seq<Entry>, end: nat) returns (h: nat)
    requires es != []
    requires Shaped(es, end)
    ensures h < |es| && (es[h].size > 0 ==> es[h].offs == MinOffs(es, end))
  {
    MinIs(es, end);
    assert es[0].size > 0 ==> Formed(es[0], end);
    h := 0;
    if StartsAt(es, MinOffs(es, end)) {
      var e :| e in es && e.size > 0 && e.offs == MinOffs(es, end);
      h :| 0 <= h < |es| && es[h] == e;
    }
  }

  /** A value put below the others, or an empty one anywhere. */
  lemma PutLaid(es: seq<Entry>, end: nat, k: nat, e: Entry)
    requires Laid(es, end) && k <= |es| && Absent(es, e.index, e.name)
    requires Formed(e, end) && (e.size > 0 ==> e.offs + Round(e.size) == MinOffs(es, end))
    requires Tail(es) + Len(|e.name|) + 4 + Round(e.size) <= MinOffs(es, end)
    ensures Laid(Put(es, k, e), end)
  {
    hide MinOffs, Tail, Absent, Distinct, Apart, Packed, Shaped;
    var p := Put(es, k, e);
    MinIs(es, end);
    PutSums(es, k, e);
    PutShaped(es, end, k, e);
    PutDistinct(es, k, e);
    PutApart(es, end, k, e);
    PutPacked(es, end, k, e);
    PutMin(es, end, k, e);
  }

  lemma PutAt(es: seq<Entry>, k: nat, e: Entry)
    requires k <= |es|
    ensures |Put(es, k, e)| == |es| + 1 && Put(es, k, e)[k] == e
    ensures forall i :: 0 <= i <= |es| && i != k ==> Put(es, k, e)[i] == es[if i < k then i else i - 1]
  {
  }

  lemma PutShaped(es: seq<Entry>, end: nat, k: nat, e: Entry)
    requires Shaped(es, end) && Formed(e, end) && k <= |es|
    ensures Shaped(Put(es, k, e), end)
  {
    hide Formed;
    PutAt(es, k, e);
  }

  lemma PutDistinct(es: seq<Entry>, k: nat, e: Entry)
    requires Distinct(es) && k <= |es| && Absent(es, e.index, e.name)
    ensures Distinct(Put(es, k, e))
  {
    hide Put;
    PutAt(es, k, e);
    var p := Put(es, k, e);
    forall i, j | 0 <= i < j < |p|
      ensures !IsKey(p[i], p[j].index, p[j].name)
    {
      assert i != k ==> p[i] == es[if i < k then i else i - 1];
      assert j != k ==> p[j] == es[if j < k then j else j - 1];
    }
  }

  lemma PutApart(es: seq<Entry>, end: nat, k: nat, e: Entry)
    requires Apart(es) && k <= |es|
    requires e.size > 0 ==> e.offs + Round(e.size) == MinOffs(es, end)
    ensures Apart(Put(es, k, e))
  {
    hide MinOffs;
    MinIs(es, end);
    PutAt(es, k, e);
    assert forall i :: 0 <= i < |es| ==> Disjoint(es[i], e) && Disjoint(e, es[i]);
    var p := Put(es, k, e);
    forall i, j | 0 <= i < |p| && 0 <= j < |p| && i != j
      ensures Disjoint(p[i], p[j])
    {
      if i != k && j != k { assert Disjoint(es[if i < k then i else i - 1], es[if j < k then j else j - 1]); }
    }
  }

  lemma PutStarts(es: seq<Entry>, k: nat, e: Entry, o: nat)
    requires k <= |es|
    ensures StartsAt(Put(es, k, e), o) <==> StartsAt(es, o) || (e.size > 0 && e.offs == o)
  {
    assert forall x :: x in Put(es, k, e) <==> x in es || x == e by {
      assert es == es[..k] + es[k..];
    }
  }

  lemma PutPacked(es: seq<Entry>, end: nat, k: nat, e: Entry)
    requires Packed(es, end) && k <= |es|
    requires e.size > 0 ==> e.offs + Round(e.size) == MinOffs(es, end)
    ensures Packed(Put(es, k, e), end)
  {
    hide MinOffs, StartsAt, Put, Round;
    MinIs(es, end);
    PutAt(es, k, e);
    var p := Put(es, k, e);
    forall i | 0 <= i < |p| && p[i].size > 0
      ensures p[i].offs + Round(p[i].size) == end || StartsAt(p, p[i].offs + Round(p[i].size))
    {
      PutFollowed(es, end, k, e, i);
    }
  }

  lemma PutFollowed(es: seq<Entry>, end: nat, k: nat, e: Entry, i: nat)
    requires Packed(es, end) && k <= |es| && i <= |es|
    requires e.size > 0 ==> e.offs + Round(e.size) == MinOffs(es, end)
    ensures |Put(es, k, e)| == |es| + 1
    ensures var p := Put(es, k, e);
      p[i].size > 0 ==> p[i].offs + Round(p[i].size) == end || StartsAt(p, p[i].offs + Round(p[i].size))
  {
    hide MinOffs, StartsAt, Put, Round;
    MinIs(es, end);
    PutAt(es, k, e);
    var p := Put(es, k, e);
    PutStarts(es, k, e, p[i].offs + Round(p[i].size));
    assert i != k ==> p[i] == es[if i < k then i else i - 1];
  }

  lemma PutMin(es: seq<Entry>, end: nat, k: nat, e: Entry)
    requires k <= |es| && Shaped(es, end) && Formed(e, end)
    requires e.size > 0 ==> e.offs + Round(e.size) == MinOffs(es, end)
    ensures MinOffs(Put(es, k, e), end) == MinOffs(es, end) - Round(e.size)
  {
    hide MinOffs, StartsAt, Put;
    MinIs(es, end);
    PutAt(es, k, e);
    PutShaped(es, end, k, e);
    var m := MinOffs(es, end) - Round(e.size);
    PutStarts(es, k, e, m);
    MinIsOnly(Put(es, k, e), end, m);
  }
}
