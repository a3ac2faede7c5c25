/** Dividing the names of a full leaf block between two blocks. */
module DirSplit {
  import opened DirBlock
  import opened DirIndex

  const MAX_NAME: nat := 255

  /** The bytes a list of names needs. */
  function Bytes(f: seq<Dirent>): nat {
    if f == [] then 0 else Bytes(f[..|f| - 1]) + Need(f[|f| - 1].name)
  }

  lemma BytesSnoc(f: seq<Dirent>, d: Dirent)
    ensures Bytes(f + [d]) == Bytes(f) + Need(d.name)
  {
    assert (f + [d])[..|f|] == f;
  }

  lemma {:induction false} BytesConcat(a: seq<Dirent>, b: seq<Dirent>)
    ensures Bytes(a + b) == Bytes(a) + Bytes(b)
    decreases |b|
  {
    hide Need;
    if b == [] {
      assert a + b == a;
    } else {
      var n := |b| - 1;
      BytesConcat(a, b[..n]);
      SnocApart(a, b);
      BytesSnoc(a + b[..n], b[n]);
      BytesSnoc(b[..n], b[n]);
    }
  }

  lemma SnocApart(a: seq<Dirent>, b: seq<Dirent>)
    requires b != []
    ensures var n := |b| - 1; a + b[..n] + [b[n]] == a + b && b[..n] + [b[n]] == b
  {
  }

  /** Prefixes, one name longer at a time. */
  lemma BytesNext(f: seq<Dirent>, i: nat)
    requires i < |f|
    ensures f[..i + 1] == f[..i] + [f[i]]
    ensures Bytes(f[..i + 1]) == Bytes(f[..i]) + Need(f[i].name) <= Bytes(f)
  {
    hide Bytes, Need;
    CutNext(f, i);
    BytesSnoc(f[..i], f[i]);
    BytesConcat(f[..i + 1], f[i + 1..]);
  }

  lemma CutNext(f: seq<Dirent>, i: nat)
    requires i < |f|
    ensures f[..i + 1] == f[..i] + [f[i]]
    ensures f[..i + 1] + f[i + 1..] == f
  {
  }

  lemma BytesNone(f: seq<Dirent>)
    ensures f[..0] == [] && f[..|f|] == f && Bytes(f[..0]) == 0
  {
  }

  /** Names of admissible length, in use. */
  predicate Proper(f: seq<Dirent>) {
    forall i :: 0 <= i < |f| ==> f[i].ino != 0 && 0 < |f[i].name| <= MAX_NAME
  }

  // ---------------------------------------------------------------- sorting

  predicate ByHash(f: seq<Dirent>, hash: string -> nat) {
    forall i, j :: 0 <= i < j < |f| ==> hash(f[i].name) <= hash(f[j].name)
  }

  /** The sort of the entries by hash; any order of equal hashes would do. */
  method SortByHash(f: seq<Dirent>, hash: string -> nat) returns (w: seq<Dirent>)
    ensures ByHash(w, hash) && multiset(w) == multiset(f) && |w| == |f|
  {
    hide ByHash;
    w := [];
    NoneByHash(hash);
    var i := 0;
    while i < |f|
      invariant 0 <= i <= |f| && ByHash(w, hash) && multiset(w) == multiset(f[..i]) && |w| == i
    {
      var k := 0;
      while k < |w| && hash(w[k].name) <= hash(f[i].name)
        invariant 0 <= k <= |w|
        invariant forall j :: 0 <= j < k ==> hash(w[j].name) <= hash(f[i].name)
      {
        k := k + 1;
      }
      InsertedByHash(w, k, f[i], hash);
      CutNext(f, i);
      assert multiset(w[..k] + [f[i]] + w[k..]) == multiset(w) + multiset{f[i]};
      w := w[..k] + [f[i]] + w[k..];
      i := i + 1;
    }
    assert f[..i] == f;
  }

  lemma NoneByHash(hash: string -> nat)
    ensures ByHash([], hash)
  {
  }

  /** Also as a bag the list grows by one. */
  lemma InsertedByHash(w: seq<Dirent>, k: nat, d: Dirent, hash: string -> nat)
    requires ByHash(w, hash) && k <= |w|
    requires forall j :: 0 <= j < k ==> hash(w[j].name) <= hash(d.name)
    requires k < |w| ==> hash(d.name) < hash(w[k].name)
    ensures ByHash(w[..k] + [d] + w[k..], hash)
    ensures multiset(w[..k] + [d] + w[k..]) == multiset(w) + multiset([d])
  {
    var v := w[..k] + [d] + w[k..];
    assert w[..k] + w[k..] == w;
    BagOut(w[..k], d, w[k..]);
    BagIn(w[..k], d, w[k..]);
    assert ByHash(v, hash) by {
      forall i, j | 0 <= i < j < |v|
        ensures hash(v[i].name) <= hash(v[j].name)
      {
        OrderAt(w, k, d, hash, i, j);
      }
    }
  }

  lemma BagIn(a: seq<Dirent>, d: Dirent, b: seq<Dirent>)
    ensures multiset(a + [d] + b) == multiset(a + b) + multiset([d])
  {
  }

  lemma OrderAt(w: seq<Dirent>, k: nat, d: Dirent, hash: string -> nat, i: nat, j: nat)
    requires ByHash(w, hash) && k <= |w| && i < j <= |w|
    requires forall l :: 0 <= l < k ==> hash(w[l].name) <= hash(d.name)
    requires k < |w| ==> hash(d.name) < hash(w[k].name)
    ensures var v := w[..k] + [d] + w[k..]; hash(v[i].name) <= hash(v[j].name)
  {
    var v := w[..k] + [d] + w[k..];
    assert v[i] == if i < k then w[i] else if i == k then d else w[i - 1];
    assert v[j] == if j < k then w[j] else if j == k then d else w[j - 1];
    assert forall l :: k <= l < |w| ==> hash(w[k].name) <= hash(w[l].name);
  }

  /** One name taken out of a list. */
  lemma TakeOut(w: seq<Dirent>, d: Dirent) returns (v: seq<Dirent>)
    requires d in multiset(w)
    ensures multiset(v) == multiset(w) - multiset([d]) && |v| + 1 == |w|
    ensures Bytes(w) == Bytes(v) + Need(d.name)
  {
    hide Need, Bytes;
    var k :| 0 <= k < |w| && w[k] == d;
    v := w[..k] + w[k + 1..];
    CutNext(w, k);
    BagOut(w[..k], d, w[k + 1..]);
    BytesConcat(w[..k] + [d], w[k + 1..]);
    BytesSnoc(w[..k], d);
    BytesConcat(w[..k], w[k + 1..]);
  }

  lemma BagOut(a: seq<Dirent>, d: Dirent, b: seq<Dirent>)
    ensures multiset(a + b) == multiset(a + [d] + b) - multiset([d])
  {
  }

  lemma {:induction false} SameBytes(f: seq<Dirent>, w: seq<Dirent>)
    requires multiset(f) == multiset(w)
    ensures Bytes(f) == Bytes(w) && |f| == |w|
    decreases |f|
  {
    hide Need;
    assert |multiset(f)| == |f| && |multiset(w)| == |w|;
    if f != [] {
      var n := |f| - 1;
      CutNext(f, n);
      BytesNone(f);
      assert f[n] in multiset(f);
      var v := TakeOut(w, f[n]);
      BagOut(f[..n], f[n], []);
      assert f[..n] + [] == f[..n] && f[..n] + [f[n]] + [] == f;
      SameBytes(f[..n], v);
    }
  }

  // ---------------------------------------------------------------- packing

  /** Names written one after the other; the last record takes the rest of the block. */
  function Packed(f: seq<Dirent>, room: nat): seq<Rec>
    requires Bytes(f) <= room
    decreases |f|
  {
    if f == [] then []
    else
      var n := |f| - 1;
      BytesSnoc(f[..n], f[n]);
      Tight(f[..n]) + [Rec(f[n].ino, room - Bytes(f[..n]), f[n].name)]
  }

  function Tight(f: seq<Dirent>): seq<Rec> {
    if f == [] then [] else Tight(f[..|f| - 1]) + [Rec(f[|f| - 1].ino, Need(f[|f| - 1].name), f[|f| - 1].name)]
  }

  lemma {:induction false} TightOk(f: seq<Dirent>)
    requires Proper(f)
    ensures AllOk(Tight(f)) && Off(Tight(f), |Tight(f)|) == Bytes(f) && Live(Tight(f)) == f && |Tight(f)| == |f|
    decreases |f|
  {
    hide AllOk, Need, Live;
    if f == [] {
      assert Off([], 0) == 0;
      EmptyOk();
    } else {
      var n := |f| - 1;
      BytesNext(f, n);
      TightOk(f[..n]);
      SnocOk(Tight(f[..n]), f[n], Need(f[n].name));
      assert f == f[..n] + [f[n]];
    }
  }

  lemma EmptyOk()
    ensures AllOk([]) && Live([]) == []
  {
  }

  lemma SnocOk(a: seq<Rec>, d: Dirent, len: nat)
    requires AllOk(a) && d.ino != 0 && len >= Need(d.name) && len % 4 == 0
    ensures var w := a + [Rec(d.ino, len, d.name)];
      AllOk(w) && Off(w, |w|) == Off(a, |a|) + len && Live(w) == Live(a) + [d]
  {
    var r := Rec(d.ino, len, d.name);
    var w := a + [r];
    OffNext(w, |a|);
    OffConcat(a, [r], 0);
    LiveConcat(a, [r]);
    assert [r][1..] == [];
    forall j | 0 <= j < |w| ensures RecOk(w[j]) { if j < |a| { assert w[j] == a[j]; } }
  }

  lemma PackedOk(f: seq<Dirent>, room: nat)
    requires Proper(f) && f != [] && Bytes(f) <= room && room % 4 == 0
    ensures Chain(Packed(f, room), room) && Live(Packed(f, room)) == f
  {
    hide AllOk, Need, Live, Bytes, Tight, Packed;
    var n := |f| - 1;
    BytesNext(f, n);
    CutNext(f, n);
    BytesNone(f);
    TightOk(f[..n]);
    BytesAligned(f[..n]);
    TightSteps(f, n, room);
    SnocOk(Tight(f[..n]), f[n], room - Bytes(f[..n]));
  }

  lemma PackedTidy(f: seq<Dirent>, room: nat)
    requires Proper(f) && Bytes(f) <= room
    ensures Tidy(Packed(f, room))
  {
    hide Bytes, Need;
    if f != [] {
      TightTidy(f[..|f| - 1]);
      PackedIs(f, room);
    }
  }

  lemma {:induction false} TightTidy(f: seq<Dirent>)
    requires Proper(f)
    ensures |Tight(f)| == |f| && forall j :: 0 <= j < |f| ==> Tight(f)[j].ino != 0
    decreases |f|
  {
    if f != [] {
      TightTidy(f[..|f| - 1]);
    }
  }

  /** A block written from these names. */
  ghost predicate Half(recs: seq<Rec>, f: seq<Dirent>, size: nat) {
    Proper(f) && f != [] && Bytes(f) <= size && recs == Packed(f, size)
  }

  /** It has room for another name exactly if that fits behind them. */
  lemma HalfSpace(recs: seq<Rec>, f: seq<Dirent>, size: nat, name: string)
    requires Half(recs, f, size)
    ensures HasSpace(recs, name) <==> Bytes(f) + Need(name) <= size
  {
    hide Need, Bytes, Tight, Packed;
    var n := |f| - 1;
    BytesNext(f, n);
    BytesNone(f);
    PackedIs(f, size);
    TightFull(f[..n], name);
    assert f[n].ino != 0;
    assert recs[n] == Rec(f[n].ino, size - Bytes(f[..n]), f[n].name);
    assert Bytes(f) + Need(name) <= size ==> Fits(recs[n], Need(name));
  }

  lemma {:induction false} TightFull(f: seq<Dirent>, name: string)
    requires Proper(f)
    ensures |Tight(f)| == |f| && forall j :: 0 <= j < |f| ==> !Fits(Tight(f)[j], Need(name))
    decreases |f|
  {
    if f != [] {
      var n := |f| - 1;
      TightFull(f[..n], name);
      assert f[n].ino != 0;
    }
  }

  lemma {:induction false} BytesAligned(f: seq<Dirent>)
    ensures Bytes(f) % 4 == 0
    decreases |f|
  {
    hide Need;
    if f != [] { BytesAligned(f[..|f| - 1]); }
  }

  /** The loop that writes the names of one half. */
  method Pack(f: seq<Dirent>, room: nat) returns (recs: seq<Rec>)
    requires Bytes(f) <= room
    ensures recs == Packed(f, room)
  {
    hide Need, Bytes, Tight, Packed;
    recs := [];
    var i, off := 0, 0;
    BytesNone(f);
    TightSteps(f, 0, room);
    while i < |f|
      invariant 0 <= i <= |f| && off == Bytes(f[..i])
      invariant recs == if i < |f| || f == [] then Tight(f[..i]) else Packed(f, room)
    {
      BytesNext(f, i);
      TightSteps(f, i, room);
      var len := if i < |f| - 1 then Need(f[i].name) else room - off;
      recs := recs + [Rec(f[i].ino, len, f[i].name)];
      off := off + Need(f[i].name);
      i := i + 1;
    }
  }

  lemma TightSteps(f: seq<Dirent>, i: nat, room: nat)
    requires i <= |f| && Bytes(f) <= room
    ensures Tight(f[..0]) == [] && (f == [] ==> Packed(f, room) == [])
    ensures i < |f| ==> Tight(f[..i + 1]) == Tight(f[..i]) + [Rec(f[i].ino, Need(f[i].name), f[i].name)]
    ensures i < |f| ==> Bytes(f[..i]) <= room
    ensures i + 1 == |f| ==> Bytes(f[..i + 1]) == Bytes(f)
    ensures i + 1 == |f| ==> Packed(f, room) == Tight(f[..i]) + [Rec(f[i].ino, room - Bytes(f[..i]), f[i].name)]
  {
    hide Need, Bytes, Tight, Packed;
    TightNone(f, room);
    if i < |f| {
      BytesNext(f, i);
      TightNext(f, i);
    }
    if i + 1 == |f| {
      BytesNone(f);
      PackedIs(f, room);
    }
  }

  lemma TightNone(f: seq<Dirent>, room: nat)
    requires Bytes(f) <= room
    ensures Tight(f[..0]) == [] && (f == [] ==> Packed(f, room) == [])
  {
  }

  lemma TightNext(f: seq<Dirent>, i: nat)
    requires i < |f|
    ensures Tight(f[..i + 1]) == Tight(f[..i]) + [Rec(f[i].ino, Need(f[i].name), f[i].name)]
  {
    assert f[..i + 1][..i] == f[..i];
  }

  lemma {:induction false} PackedIs(f: seq<Dirent>, room: nat)
    requires Bytes(f) <= room && f != []
    ensures var n := |f| - 1;
      Bytes(f[..n]) <= room && Packed(f, room) == Tight(f[..n]) + [Rec(f[n].ino, room - Bytes(f[..n]), f[n].name)]
  {
    BytesNext(f, |f| - 1);
  }

  // ----------------------------------------------------------- where to cut

  /** The first name that does not fit into half a block; 0 when all do. */
  method Middle(f: seq<Dirent>, half: nat) returns (mid: nat)
    ensures Bytes(f) <= half ==> mid == 0
    ensures Bytes(f) > half ==> mid < |f| && Bytes(f[..mid]) <= half < Bytes(f[..mid + 1])
  {
    hide Need, Bytes;
    var i, size := 0, 0;
    BytesNone(f);
    while i < |f|
      invariant 0 <= i <= |f| && size == Bytes(f[..i]) <= half
    {
      BytesNext(f, i);
      if size + Need(f[i].name) > half { return i; }
      size := size + Need(f[i].name);
      i := i + 1;
    }
    mid := 0;
  }

  /** The two halves: neither is empty, and in blocks of 2048 bytes or more each has room for any
      name. */
  lemma HalvesFit(f: seq<Dirent>, mid: nat, size: nat, name: string)
    requires Proper(f) && size >= 1024 && size % 8 == 0 && Bytes(f) <= size && 0 < |name| <= MAX_NAME
    requires mid < |f| && Bytes(f[..mid]) <= size / 2 < Bytes(f[..mid + 1])
    ensures 0 < mid && Bytes(f[..mid]) + Bytes(f[mid..]) == Bytes(f)
    ensures Bytes(f[..mid]) + Need(name) <= size
    ensures size >= 2048 ==> Bytes(f[mid..]) + Need(name) <= size
  {
    hide Need, Bytes;
    assert f == f[..mid] + f[mid..];
    BytesConcat(f[..mid], f[mid..]);
    BytesNext(f, mid);
    BytesNone(f);
    ShortName(f[mid].name);
    ShortName(name);
    BytesAligned(f[..mid]);
  }

  lemma ShortName(name: string)
    requires |name| <= MAX_NAME
    ensures Need(name) <= 264 && Need(name) % 4 == 0
  {
  }

  /** The loop that collects the names in use. */
  method LoadEntries(recs: seq<Rec>) returns (names: seq<Dirent>)
    ensures names == Live(recs)
  {
    hide Live;
    names := [];
    NoRecs();
    var i := 0;
    assert recs[..0] == [] && recs[..|recs|] == recs;
    while i < |recs|
      invariant 0 <= i <= |recs| && names == Live(recs[..i])
    {
      assert recs[..i + 1] == recs[..i] + [recs[i]];
      LiveConcat(recs[..i], [recs[i]]);
      OneRec(recs[i]);
      if recs[i].ino != 0 { names := names + [Dirent(recs[i].name, recs[i].ino)]; }
      i := i + 1;
    }
  }

  /** The names in use fit into their block. */
  lemma {:induction false} LiveBytes(recs: seq<Rec>, size: nat)
    requires Chain(recs, size)
    ensures Bytes(Live(recs)) <= size
    decreases |recs|
  {
    hide Bytes, Live;
    if recs == [] {
      NoRecs();
      BytesNone([]);
    } else {
      var n := |recs| - 1;
      var a, r := recs[..n], recs[n];
      assert recs == a + [r];
      OffConcat(a, [r], 0);
      OffNext(recs, n);
      assert AllOk(a) by { forall k | 0 <= k < n ensures RecOk(a[k]) { assert a[k] == recs[k]; } }
      LiveBytes(a, size - r.len);
      LiveConcat(a, [r]);
      OneRec(r);
      assert RecOk(r);
      if r.ino != 0 { BytesSnoc(Live(a), Dirent(r.name, r.ino)); } else { assert Live(a) + [] == Live(a); }
    }
  }

  lemma SameProper(f: seq<Dirent>, w: seq<Dirent>)
    requires Proper(f) && multiset(w) == multiset(f)
    ensures Proper(w)
  {
    forall k | 0 <= k < |w|
      ensures w[k] in f
    {
      assert w[k] in multiset(w);
    }
  }

  /** The two parts of a list at mid. */
  lemma CutBytes(f: seq<Dirent>, mid: nat)
    requires mid <= |f|
    ensures f == f[..mid] + f[mid..] && Bytes(f) == Bytes(f[..mid]) + Bytes(f[mid..])
    ensures Proper(f) ==> Proper(f[..mid]) && Proper(f[mid..])
  {
    hide Bytes;
    assert f == f[..mid] + f[mid..];
    BytesConcat(f[..mid], f[mid..]);
  }

  /** The names in order of their hashes, divided at the one that no longer fits into half a block. */
  ghost predicate Halves(names: seq<Dirent>, lo: seq<Dirent>, hi: seq<Dirent>, size: nat, hash: string -> nat) {
    && lo != [] && hi != [] && multiset(lo + hi) == multiset(names) && ByHash(lo + hi, hash)
    && Bytes(lo) <= size / 2 < Bytes(lo) + Need(hi[0].name)
  }

  /** Both blocks are written from names that fit. */
  lemma WriteHalves(f: seq<Dirent>, mid: nat, size: nat)
    requires Proper(f) && size >= 1024 && size % 8 == 0 && Bytes(f) <= size
    requires mid < |f| && Bytes(f[..mid]) <= size / 2 < Bytes(f[..mid + 1])
    ensures 0 < mid && Bytes(f[..mid]) <= size && Bytes(f[mid..]) <= size && size % 4 == 0
    ensures Half(Packed(f[..mid], size), f[..mid], size) && Half(Packed(f[mid..], size), f[mid..], size)
    ensures Bytes(f[..mid]) <= size / 2 < Bytes(f[..mid]) + Need(f[mid..][0].name)
  {
    hide Packed, Bytes, Need, Half, Proper;
    Fourths(size);
    MidInside(f, mid, size);
    CutBytes(f, mid);
    LowHalf(f, mid, size);
    HighHalf(f, mid, size);
    assert f[mid..][0] == f[mid];
    BytesNext(f, mid);
  }

  lemma Fourths(size: nat)
    requires size % 8 == 0
    ensures size % 4 == 0
  {
  }

  /** One name does not fill half of a block. */
  lemma MidInside(f: seq<Dirent>, mid: nat, size: nat)
    requires Proper(f) && size >= 1024 && mid < |f| && size / 2 < Bytes(f[..mid + 1])
    ensures 0 < mid
  {
    hide Bytes, Need;
    if mid == 0 {
      BytesNone(f);
      BytesNext(f, 0);
      ShortName(f[0].name);
    }
  }

  lemma LowHalf(f: seq<Dirent>, mid: nat, size: nat)
    requires Proper(f) && size % 8 == 0 && 0 < mid < |f| && Bytes(f[..mid]) <= size
    ensures Half(Packed(f[..mid], size), f[..mid], size)
  {
    hide Packed, Bytes, Need;
  }

  lemma HighHalf(f: seq<Dirent>, mid: nat, size: nat)
    requires Proper(f) && size % 8 == 0 && mid < |f| && Bytes(f[mid..]) <= size
    ensures Half(Packed(f[mid..], size), f[mid..], size)
  {
    hide Packed, Bytes, Need;
  }

  lemma HalfOk(recs: seq<Rec>, f: seq<Dirent>, size: nat)
    requires Half(recs, f, size) && size % 4 == 0
    ensures Chain(recs, size) && Live(recs) == f && Tidy(recs)
  {
    hide Packed, Bytes, Fits, Need, Chain, Live, Proper, Tidy;
    PackedOk(f, size);
    PackedTidy(f, size);
  }

  /** In blocks of 2048 bytes or more either half has room for any name. */
  lemma HalvesRoom(names: seq<Dirent>, lo: seq<Dirent>, hi: seq<Dirent>, size: nat, hash: string -> nat, name: string)
    requires Halves(names, lo, hi, size, hash) && Proper(names) && Bytes(names) <= size && size >= 1024 && size % 8 == 0
    requires 0 < |name| <= MAX_NAME
    ensures Bytes(lo) + Need(name) <= size
    ensures size >= 2048 ==> Bytes(hi) + Need(name) <= size
  {
    hide Need, Bytes, ByHash, Proper;
    var f := lo + hi;
    SameProper(names, f);
    SameBytes(names, f);
    assert f[..|lo|] == lo && f[|lo|..] == hi && f[|lo|] == hi[0];
    BytesNext(f, |lo|);
    HalvesFit(f, |lo|, size, name);
  }
}
