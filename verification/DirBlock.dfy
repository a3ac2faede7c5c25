/** One block of a directory: a chain of records that tiles the block. */
module DirBlock {

  /** A record; inode 0 marks an unused one. The name lies behind an 8-byte header. */
  datatype Rec = Rec(ino: nat, len: nat, name: string)

  datatype Dirent = Dirent(name: string, ino: nat)

  /** The bytes a name needs, aligned to four. */
  function Need(name: string): (n: nat)
    ensures n % 4 == 0 && 8 + |name| <= n < 12 + |name|
  {
    var n := 8 + |name|;
    if |name| % 4 != 0 then n + (4 - |name| % 4) else n
  }

  predicate RecOk(r: Rec) {
    r.len >= 8 && r.len % 4 == 0 && (r.ino != 0 ==> Need(r.name) <= r.len)
  }

  /** The offset behind the first i records. */
  function Off(recs: seq<Rec>, i: nat): nat
    requires i <= |recs|
  {
    if i == 0 then 0 else Off(recs, i - 1) + recs[i - 1].len
  }

  predicate AllOk(recs: seq<Rec>) { forall i :: 0 <= i < |recs| ==> RecOk(recs[i]) }

  predicate Chain(recs: seq<Rec>, size: nat) { AllOk(recs) && Off(recs, |recs|) == size }

  lemma OffNext(recs: seq<Rec>, i: nat)
    requires i < |recs|
    ensures Off(recs, i + 1) == Off(recs, i) + recs[i].len
  {
  }

  /** The names in use, in order. */
  function Live(recs: seq<Rec>): seq<Dirent> {
    if recs == [] then []
    else (if recs[0].ino != 0 then [Dirent(recs[0].name, recs[0].ino)] else []) + Live(recs[1..])
  }

  lemma {:induction false} LiveConcat(a: seq<Rec>, b: seq<Rec>)
    ensures Live(a + b) == Live(a) + Live(b)
    decreases |a|
  {
    hide Live;
    if a == [] {
      assert a + b == b;
      NoneLive();
    } else {
      LiveConcat(a[1..], b);
      LiveFirst(a);
      LiveFirst(a + b);
      assert (a + b)[0] == a[0] && (a + b)[1..] == a[1..] + b;
      Regroup(if a[0].ino != 0 then [Dirent(a[0].name, a[0].ino)] else [], Live(a[1..]), Live(b));
    }
  }

  lemma NoneLive()
    ensures Live([]) == []
  {
  }

  lemma LiveFirst(recs: seq<Rec>)
    requires recs != []
    ensures Live(recs) ==
            (if recs[0].ino != 0 then [Dirent(recs[0].name, recs[0].ino)] else []) + Live(recs[1..])
  {
  }

  lemma Regroup(a: seq<Dirent>, b: seq<Dirent>, c: seq<Dirent>)
    ensures a + (b + c) == (a + b) + c
  {
  }

  lemma {:induction false} OffConcat(a: seq<Rec>, b: seq<Rec>, i: nat)
    requires i <= |b|
    ensures Off(a + b, |a| + i) == Off(a, |a|) + Off(b, i)
    ensures forall k :: 0 <= k <= |a| ==> Off(a + b, k) == Off(a, k)
    decreases i
  {
    if i == 0 {
      OffPrefix(a, b, |a|);
      forall k | 0 <= k <= |a| ensures Off(a + b, k) == Off(a, k) { OffPrefix(a, b, k); }
    } else {
      OffConcat(a, b, i - 1);
    }
  }

  lemma {:induction false} OffPrefix(a: seq<Rec>, b: seq<Rec>, k: nat)
    requires k <= |a|
    ensures Off(a + b, k) == Off(a, k)
    decreases k
  {
    if k > 0 { OffPrefix(a, b, k - 1); }
  }

  lemma {:induction false} OffGrows(recs: seq<Rec>, i: nat, j: nat)
    requires i <= j <= |recs| && AllOk(recs)
    ensures Off(recs, i) + 8 * (j - i) <= Off(recs, j)
    decreases j
  {
    if i < j { OffGrows(recs, i, j - 1); }
  }

  /** A record that can take n more bytes. */
  predicate Fits(r: Rec, n: nat) {
    if r.ino == 0 then r.len >= n else r.len >= Need(r.name) + n
  }

  predicate HasSpace(recs: seq<Rec>, name: string) {
    exists i :: 0 <= i < |recs| && Fits(recs[i], Need(name))
  }

  /** What ext4_dir_try_insert_entry makes of a record that can take the name. */
  function Taken(r: Rec, d: Dirent): seq<Rec>
    requires RecOk(r) && Fits(r, Need(d.name))
  {
    if r.ino == 0 then [Rec(d.ino, r.len, d.name)]
    else [r.(len := Need(r.name)), Rec(d.ino, r.len - Need(r.name), d.name)]
  }

  /** The name is in the first record that can take it. */
  ghost predicate InFirstFit(recs: seq<Rec>, w: seq<Rec>, d: Dirent) {
    exists i :: 0 <= i < |recs| && RecOk(recs[i]) && Fits(recs[i], Need(d.name))
      && (forall j :: 0 <= j < i ==> !Fits(recs[j], Need(d.name)))
      && w == recs[..i] + Taken(recs[i], d) + recs[i + 1..]
  }

  lemma FirstFitIs(recs: seq<Rec>, i: nat, d: Dirent)
    requires i < |recs| && RecOk(recs[i]) && Fits(recs[i], Need(d.name))
    requires forall j :: 0 <= j < i ==> !Fits(recs[j], Need(d.name))
    ensures InFirstFit(recs, recs[..i] + Taken(recs[i], d) + recs[i + 1..], d)
  {
    hide RecOk, Fits, Need, Taken;
  }

  /** One name was added at position k. */
  predicate AddedAt(f: seq<Dirent>, w: seq<Dirent>, k: nat, d: Dirent) {
    k <= |f| && w == f[..k] + [d] + f[k..]
  }

  lemma TakenKeeps(recs: seq<Rec>, i: nat, d: Dirent, size: nat) returns (k: nat)
    requires Chain(recs, size) && i < |recs| && Fits(recs[i], Need(d.name)) && d.ino != 0
    ensures var w := recs[..i] + Taken(recs[i], d) + recs[i + 1..];
      Chain(w, size) && AddedAt(Live(recs), Live(w), k, d)
  {
    hide Off, Live, RecOk, Taken, AllOk;
    RecsCut(recs, i);
    RecAt(recs, i);
    var a, r, t, b := recs[..i], recs[i], Taken(recs[i], d), recs[i + 1..];
    TakenOne(r, d);
    OneRec(r);
    Replaced(a, [r], t, b);
    LiveAround(a, [r], b);
    LiveAround(a, t, b);
    k := |Live(a) + Live([r])|;
    AddedBetween(Live(a), Live([r]), d, Live(b));
  }

  lemma RecsCut(recs: seq<Rec>, i: nat)
    requires i < |recs|
    ensures recs[..i] + [recs[i]] + recs[i + 1..] == recs
  {
  }

  lemma RecAt(recs: seq<Rec>, i: nat)
    requires AllOk(recs) && i < |recs|
    ensures RecOk(recs[i])
  {
  }

  lemma OneRec(r: Rec)
    ensures Off([r], |[r]|) == r.len
    ensures Live([r]) == if r.ino != 0 then [Dirent(r.name, r.ino)] else []
    ensures RecOk(r) ==> AllOk([r])
  {
    assert [r][1..] == [];
    OffNext([r], 0);
  }

  lemma TwoRecs(x: Rec, y: Rec)
    ensures Off([x, y], |[x, y]|) == x.len + y.len && Live([x, y]) == Live([x]) + Live([y])
    ensures RecOk(x) && RecOk(y) ==> AllOk([x, y])
  {
    assert [x, y] == [x] + [y];
    LiveConcat([x], [y]);
    OffNext([x, y], 0);
    OffNext([x, y], 1);
  }

  lemma LiveAround(a: seq<Rec>, x: seq<Rec>, b: seq<Rec>)
    ensures Live(a + x + b) == Live(a) + Live(x) + Live(b)
  {
    LiveConcat(a + x, b);
    LiveConcat(a, x);
  }

  lemma AddedBetween(p: seq<Dirent>, x: seq<Dirent>, d: Dirent, q: seq<Dirent>)
    ensures AddedAt(p + x + q, p + (x + [d]) + q, |p + x|, d)
  {
    assert (p + x + q)[..|p + x|] == p + x && (p + x + q)[|p + x|..] == q;
  }

  lemma TakenOne(r: Rec, d: Dirent)
    requires RecOk(r) && Fits(r, Need(d.name)) && d.ino != 0
    ensures var t := Taken(r, d);
      && AllOk(t) && Off(t, |t|) == r.len
      && Live(t) == Live([r]) + [d]
  {
    hide Off, Live, AllOk;
    OneRec(r);
    if r.ino == 0 {
      OneRec(Rec(d.ino, r.len, d.name));
    } else {
      var x, y := r.(len := Need(r.name)), Rec(d.ino, r.len - Need(r.name), d.name);
      OneRec(x);
      OneRec(y);
      TwoRecs(x, y);
    }
  }

  /** Records replaced by others that fill the same bytes. */
  lemma Replaced(a: seq<Rec>, x: seq<Rec>, y: seq<Rec>, b: seq<Rec>)
    requires AllOk(y) && Off(x, |x|) == Off(y, |y|)
    requires AllOk(a + x + b)
    ensures AllOk(a + y + b) && Off(a + y + b, |a + y + b|) == Off(a + x + b, |a + x + b|)
  {
    hide RecOk, Off;
    OffConcat(a + x, b, |b|);
    OffConcat(a, x, |x|);
    OffConcat(a + y, b, |b|);
    OffConcat(a, y, |y|);
    AllOkParts(a, x, b);
    AllOkJoin(a, y, b);
  }

  lemma AllOkParts(a: seq<Rec>, x: seq<Rec>, b: seq<Rec>)
    requires AllOk(a + x + b)
    ensures AllOk(a) && AllOk(x) && AllOk(b)
  {
    hide RecOk;
    var w := a + x + b;
    assert forall i :: 0 <= i < |a| ==> w[i] == a[i];
    assert forall i :: 0 <= i < |x| ==> w[|a| + i] == x[i];
    assert forall i :: 0 <= i < |b| ==> w[|a| + |x| + i] == b[i];
  }

  lemma AllOkJoin(a: seq<Rec>, x: seq<Rec>, b: seq<Rec>)
    requires AllOk(a) && AllOk(x) && AllOk(b)
    ensures AllOk(a + x + b)
  {
    hide RecOk;
  }

  /** Only the first record of a block is ever unused: a removed one goes to its predecessor. */
  predicate Tidy(recs: seq<Rec>) { forall j :: 0 < j < |recs| ==> recs[j].ino != 0 }

  /** The block buffer. */
  class Buffer {
    var recs: seq<Rec>
    const size: nat

    constructor (recs: seq<Rec>, size: nat)
      ensures this.recs == recs && this.size == size
    {
      this.recs, this.size := recs, size;
    }

    /** ext4_dir_try_insert_entry. */
    method TryInsert(d: Dirent) returns (ok: bool, ghost k: nat)
      requires Chain(recs, size) && d.ino != 0
      modifies this
      ensures ok <==> HasSpace(old(recs), d.name)
      ensures Chain(recs, size)
      ensures if ok then AddedAt(Live(old(recs)), Live(recs), k, d) && InFirstFit(old(recs), recs, d)
              else recs == old(recs)
      ensures Tidy(old(recs)) ==> Tidy(recs)
    {
      hide Off, Live, RecOk, AllOk, Chain, Tidy, AddedAt, Need, InFirstFit;
      var need := Need(d.name);
      var i, off := 0, 0;
      k := 0;
      OffZero(recs);
      while off < size
        invariant 0 <= i <= |recs| && off == Off(recs, i) && recs == old(recs)
        invariant forall j :: 0 <= j < i ==> !Fits(recs[j], need)
        decreases size - off
      {
        InBlock(recs, i, size);
        OffNext(recs, i);
        var r := recs[i];
        UsedFits(r);
        if r.ino == 0 && r.len >= need {
          k := TakenKeeps(recs, i, d, size);
          TakenTidy(recs, i, d);
          FirstFitIs(recs, i, d);
          recs := recs[..i] + [Rec(d.ino, r.len, d.name)] + recs[i + 1..];
          return true, k;
        }
        if r.ino != 0 {
          var used := Need(r.name);
          var free := r.len - used;
          if free >= need {
            k := TakenKeeps(recs, i, d, size);
            TakenTidy(recs, i, d);
            FirstFitIs(recs, i, d);
            recs := recs[..i] + [r.(len := used), Rec(d.ino, free, d.name)] + recs[i + 1..];
            return true, k;
          }
        }
        off := off + r.len;
        i := i + 1;
      }
      AtEnd(recs, i, size);
      ok := false;
    }

    /** ext4_dir_find_in_block; the result is the index of the record. */
    method Find(name: string) returns (found: bool, at: nat)
      requires Chain(recs, size)
      ensures found ==> at < |recs| && recs[at].ino != 0 && recs[at].name == name
      ensures found ==> forall j :: 0 <= j < at ==> recs[j].ino == 0 || recs[j].name != name
      ensures found <==> exists d :: d in Live(recs) && d.name == name
    {
      var i, off := 0, 0;
      at := 0;
      while off < size
        invariant 0 <= i <= |recs| && off == Off(recs, i)
        invariant forall j :: 0 <= j < i ==> !(recs[j].ino != 0 && recs[j].name == name)
        decreases size - off
      {
        if off + |name| > size { break; }
        InBlock(recs, i, size);
        var r := recs[i];
        if r.ino != 0 && |r.name| == |name| && r.name == name {
          NamedIffLive(recs, name);
          return true, i;
        }
        off := off + r.len;
        i := i + 1;
      }
      TooLong(recs, i, size, name);
      NamedIffLive(recs, name);
      found := false;
    }

    /** The part of ext4_dir_remove_entry that works in the block: the record at index `at` becomes
        unused and, unless it is the first, part of its predecessor. */
    method Remove(at: nat) returns (ghost k: nat)
      requires Chain(recs, size) && at < |recs| && recs[at].ino != 0
      modifies this
      ensures Chain(recs, size)
      ensures AddedAt(Live(recs), Live(old(recs)), k, Dirent(old(recs)[at].name, old(recs)[at].ino))
      ensures Tidy(old(recs)) ==> Tidy(recs)
      ensures recs == if at == 0 then [old(recs)[0].(ino := 0)] + old(recs)[1..]
                      else old(recs)[..at - 1] + [old(recs)[at - 1].(len := old(recs)[at - 1].len + old(recs)[at].len)]
                           + old(recs)[at + 1..]
    {
      hide Off, RecOk, Live, AllOk, Tidy, AddedAt;
      OffZero(recs);
      var pos := Off(recs, at);
      var gone := recs[at];
      if pos != 0 {
        var i, offset := 0, 0;
        var len := recs[0].len;
        OffGrows(recs, 0, at);
        while offset + len < pos
          invariant recs == old(recs)
          invariant 0 <= i < at && offset == Off(recs, i) && len == recs[i].len
          decreases at - i
        {
          StillBefore(recs, i, at);
          OffNext(recs, i);
          offset := offset + recs[i].len;
          i := i + 1;
          len := recs[i].len;
        }
        Predecessor(recs, i, at);
        assert len + offset == pos && i + 1 == at;
        k := MergedKeeps(recs, at, size);
        MergedTidy(recs, at);
        recs := recs[..i] + [recs[i].(len := len + gone.len)] + recs[at + 1..];
      } else {
        OffGrows(recs, 0, at);
        k := FirstKeeps(recs, size);
        FirstTidy(recs);
        recs := [gone.(ino := 0)] + recs[1..];
      }
    }
  }

  lemma OffZero(recs: seq<Rec>)
    ensures Off(recs, 0) == 0
  {
  }

  lemma UsedFits(r: Rec)
    requires RecOk(r)
    ensures r.ino != 0 ==> Need(r.name) <= r.len
  {
  }

  lemma TakenTidy(recs: seq<Rec>, i: nat, d: Dirent)
    requires i < |recs| && RecOk(recs[i]) && Fits(recs[i], Need(d.name)) && d.ino != 0
    ensures Tidy(recs) ==> Tidy(recs[..i] + Taken(recs[i], d) + recs[i + 1..])
  {
    hide RecOk, Fits, Need;
    var t := Taken(recs[i], d);
    var w := recs[..i] + t + recs[i + 1..];
    if Tidy(recs) {
      forall j | 0 < j < |w|
        ensures w[j].ino != 0
      {
        if j < i { assert w[j] == recs[j]; }
        else if j < i + |t| { assert w[j] == t[j - i]; }
        else { assert w[j] == recs[j - |t| + 1]; }
      }
    }
  }

  /** A tidy block without names is one unused record. */
  lemma EmptyTidy(recs: seq<Rec>, size: nat)
    requires Chain(recs, size) && Tidy(recs) && Live(recs) == [] && size > 0
    ensures recs == [Rec(0, size, recs[0].name)]
  {
    assert recs != [];
    if |recs| > 1 {
      RecsCut(recs, 1);
      LiveAround(recs[..1], [recs[1]], recs[2..]);
      OneRec(recs[1]);
    } else {
      OneRec(recs[0]);
      OffNext(recs, 0);
    }
  }

  lemma InBlock(recs: seq<Rec>, i: nat, size: nat)
    requires Chain(recs, size) && i <= |recs| && Off(recs, i) < size
    ensures i < |recs| && Off(recs, i + 1) <= size && RecOk(recs[i])
  {
    if i < |recs| { OffGrows(recs, i + 1, |recs|); }
  }

  lemma AtEnd(recs: seq<Rec>, i: nat, size: nat)
    requires Chain(recs, size) && i <= |recs| && Off(recs, i) >= size
    ensures i == |recs|
  {
    OffGrows(recs, i, |recs|);
  }

  /** A record from here on is too short for the name. */
  lemma TooLong(recs: seq<Rec>, i: nat, size: nat, name: string)
    requires Chain(recs, size) && i <= |recs| && (Off(recs, i) >= size || Off(recs, i) + |name| > size)
    ensures forall j :: i <= j < |recs| ==> !(recs[j].ino != 0 && recs[j].name == name)
  {
    forall j | i <= j < |recs|
      ensures !(recs[j].ino != 0 && recs[j].name == name)
    {
      OffGrows(recs, i, j);
      OffGrows(recs, j + 1, |recs|);
      assert RecOk(recs[j]);
    }
  }

  lemma {:induction false} NamedIffLive(recs: seq<Rec>, name: string)
    ensures (exists d :: d in Live(recs) && d.name == name)
       <==> (exists j :: 0 <= j < |recs| && recs[j].ino != 0 && recs[j].name == name)
    decreases |recs|
  {
    if recs != [] {
      NamedIffLive(recs[1..], name);
      forall j | 0 < j < |recs| ensures recs[j] == recs[1..][j - 1] {}
      if recs[0].ino != 0 && recs[0].name == name {
        assert Dirent(name, recs[0].ino) in Live(recs);
      }
    }
  }

  lemma StillBefore(recs: seq<Rec>, i: nat, at: nat)
    requires i < at < |recs| && Off(recs, i) + recs[i].len < Off(recs, at)
    requires AllOk(recs)
    ensures i + 1 < at
  {
    hide Off, RecOk;
    OffNext(recs, i);
  }

  /** The loop stops at the true predecessor. */
  lemma Predecessor(recs: seq<Rec>, i: nat, at: nat)
    requires i < at < |recs| && Off(recs, i) + recs[i].len >= Off(recs, at)
    requires AllOk(recs)
    ensures i + 1 == at && Off(recs, i) + recs[i].len == Off(recs, at)
  {
    hide Off, RecOk;
    OffNext(recs, i);
    OffGrows(recs, i + 1, at);
  }

  lemma MergedKeeps(recs: seq<Rec>, at: nat, size: nat) returns (k: nat)
    requires Chain(recs, size) && 0 < at < |recs| && recs[at].ino != 0
    ensures var w := recs[..at - 1] + [recs[at - 1].(len := recs[at - 1].len + recs[at].len)] + recs[at + 1..];
      Chain(w, size) && AddedAt(Live(w), Live(recs), k, Dirent(recs[at].name, recs[at].ino))
  {
    hide Off, Live, RecOk, AllOk;
    var p, g := recs[at - 1], recs[at];
    var y := p.(len := p.len + g.len);
    var a, b := recs[..at - 1], recs[at + 1..];
    RecsCutTwo(recs, at);
    RecAt(recs, at - 1);
    RecAt(recs, at);
    MergedOne(p, g);
    Replaced(a, [p, g], [y], b);
    LiveAround(a, [p, g], b);
    LiveAround(a, [y], b);
    k := |Live(a) + Live([y])|;
    AddedBetween(Live(a), Live([y]), Dirent(g.name, g.ino), Live(b));
  }

  lemma RecsCutTwo(recs: seq<Rec>, at: nat)
    requires 0 < at < |recs|
    ensures recs[..at - 1] + [recs[at - 1], recs[at]] + recs[at + 1..] == recs
  {
  }

  lemma MergedOne(p: Rec, g: Rec)
    requires RecOk(p) && RecOk(g) && g.ino != 0
    ensures var y := p.(len := p.len + g.len);
      && AllOk([y]) && Off([y], |[y]|) == Off([p, g], |[p, g]|)
      && Live([p, g]) == Live([y]) + [Dirent(g.name, g.ino)]
  {
    hide Off, Live, AllOk;
    var y := p.(len := p.len + g.len);
    OneRec(p);
    OneRec(g);
    OneRec(y);
    TwoRecs(p, g);
  }

  lemma MergedTidy(recs: seq<Rec>, at: nat)
    requires 0 < at < |recs|
    ensures Tidy(recs) ==>
      Tidy(recs[..at - 1] + [recs[at - 1].(len := recs[at - 1].len + recs[at].len)] + recs[at + 1..])
  {
    var w := recs[..at - 1] + [recs[at - 1].(len := recs[at - 1].len + recs[at].len)] + recs[at + 1..];
    assert forall j :: 0 <= j < |w| ==> w[j].ino == recs[if j < at then j else j + 1].ino;
  }

  lemma FirstTidy(recs: seq<Rec>)
    requires recs != []
    ensures Tidy(recs) ==> Tidy([recs[0].(ino := 0)] + recs[1..])
  {
  }

  lemma FirstKeeps(recs: seq<Rec>, size: nat) returns (k: nat)
    requires Chain(recs, size) && recs != [] && recs[0].ino != 0
    ensures var w := [recs[0].(ino := 0)] + recs[1..];
      Chain(w, size) && AddedAt(Live(w), Live(recs), k, Dirent(recs[0].name, recs[0].ino))
  {
    hide Off, Live, RecOk, AllOk;
    var r, b := recs[0], recs[1..];
    var y := r.(ino := 0);
    assert recs[..0] == [];
    RecsCut(recs, 0);
    RecAt(recs, 0);
    FreedOne(r);
    OneRec(r);
    OneRec(y);
    Replaced([], [r], [y], b);
    LiveAround([], [r], b);
    LiveAround([], [y], b);
    NoRecs();
    assert [] + [y] + b == [y] + b;
    k := 0;
    AddedBetween([], [], Dirent(r.name, r.ino), Live(b));
  }

  lemma FreedOne(r: Rec)
    requires RecOk(r)
    ensures RecOk(r.(ino := 0))
  {
  }

  lemma NoRecs()
    ensures Live([]) == []
  {
  }
}
