/** Trees of indirect blocks: tables of block numbers over one, two or three levels. */
module IndirectTree {
  import opened Division

  /** A block pointer: none, a data block, or a table of pointers. */
  datatype Ptr = Null | Data(blk: nat) | Table(blk: nat, kids: seq<Ptr>)

  predicate Wf(p: Ptr, l: nat, n: nat)
    decreases l
  {
    match p
    case Null => true
    case Data(b) => l == 0 && b > 0
    case Table(b, kids) => l > 0 && b > 0 && |kids| == n && forall i :: 0 <= i < n ==> Wf(kids[i], l - 1, n)
  }

  /** The block number a pointer holds; 0 for none. */
  function Addr(p: Ptr): nat { if p.Null? then 0 else p.blk }

  function DataPtr(b: nat): Ptr { if b == 0 then Null else Data(b) }

  function Empty(n: nat): seq<Ptr> { seq(n, i => Null) }

  // ------------------------------------------------------------------ digits

  /** Blocks below a pointer of level l. */
  function Per(n: nat, l: nat): nat { if l == 0 then 1 else Per(n, l - 1) * n }

  /** The indices that lead to a block through l tables. */
  function Digits(n: nat, l: nat, off: nat): seq<nat>
    requires n > 0
  {
    if l == 0 then [] else [off / PerPos(n, l - 1)] + Digits(n, l - 1, off % PerPos(n, l - 1))
  }

  function PerPos(n: nat, l: nat): (p: nat)
    requires n > 0
    ensures p > 0 && p == Per(n, l)
  {
    PerPositive(n, l);
    Per(n, l)
  }

  lemma {:induction false} PerPositive(n: nat, l: nat)
    requires n > 0
    ensures Per(n, l) > 0
  {
    if l > 0 {
      PerPositive(n, l - 1);
      assert Per(n, l - 1) * n > 0;
    }
  }

  lemma DivParts(x: nat, d: nat, n: nat)
    requires d > 0
    ensures x == d * (x / d) + x % d && x % d < d
    ensures x < d * n ==> x / d < n
  {
    if x / d >= n { MulLe(d, n, x / d); }
  }

  lemma {:induction false} DigitsOk(n: nat, l: nat, off: nat)
    requires n > 0 && off < Per(n, l)
    ensures |Digits(n, l, off)| == l && forall i :: 0 <= i < l ==> Digits(n, l, off)[i] < n
    decreases l
  {
    if l > 0 {
      var d := PerPos(n, l - 1);
      DivParts(off, d, n);
      DigitsOk(n, l - 1, off % d);
    }
  }

  /** Different blocks have different ways. */
  lemma {:induction false} DigitsDiffer(n: nat, l: nat, x: nat, y: nat)
    requires n > 0 && x < Per(n, l) && y < Per(n, l)
    ensures Digits(n, l, x) == Digits(n, l, y) <==> x == y
    decreases l
  {
    if l > 0 {
      var d := PerPos(n, l - 1);
      DivParts(x, d, n);
      DivParts(y, d, n);
      DigitsDiffer(n, l - 1, x % d, y % d);
      var a, b := Digits(n, l, x), Digits(n, l, y);
      assert a[0] == x / d && b[0] == y / d && a[1..] == Digits(n, l - 1, x % d) && b[1..] == Digits(n, l - 1, y % d);
    }
  }

  // ------------------------------------------------------------------- paths

  /** The block found along the digits. */
  function Lookup(p: Ptr, ds: seq<nat>): nat
    decreases |ds|
  {
    if ds == [] then Addr(p)
    else if p.Table? && ds[0] < |p.kids| then Lookup(p.kids[ds[0]], ds[1..])
    else 0
  }

  predicate PathOk(p: Ptr, ds: seq<nat>)
    decreases |ds|
  {
    ds != [] ==> p.Table? && ds[0] < |p.kids| && PathOk(p.kids[ds[0]], ds[1..])
  }

  function At(p: Ptr, ds: seq<nat>): Ptr
    requires PathOk(p, ds)
    decreases |ds|
  {
    if ds == [] then p else At(p.kids[ds[0]], ds[1..])
  }

  function SetAt(p: Ptr, ds: seq<nat>, u: Ptr): Ptr
    requires PathOk(p, ds)
    decreases |ds|
  {
    if ds == [] then u else p.(kids := p.kids[ds[0] := SetAt(p.kids[ds[0]], ds[1..], u)])
  }

  /** How many of the tables on the way are not there. */
  function Missing(p: Ptr, ds: seq<nat>): nat
    decreases |ds|
  {
    if p.Table? && ds != [] && ds[0] < |p.kids| then Missing(p.kids[ds[0]], ds[1..]) else |ds|
  }

  lemma MissingSteps(p: Ptr, c: nat, rest: seq<nat>)
    requires p.Table? && c < |p.kids|
    ensures Missing(p, [c] + rest) == Missing(p.kids[c], rest)
  {
    assert ([c] + rest)[1..] == rest;
  }

  lemma MissingAll(rest: seq<nat>, b: nat, n: nat)
    ensures Missing(Null, rest) == |rest|
    ensures rest != [] && rest[0] < n ==> Missing(Table(b, Empty(n)), rest) == |rest| - 1
  {
    if rest != [] && rest[0] < n { assert Empty(n)[rest[0]] == Null; }
  }

  lemma {:induction false} SetOk(p: Ptr, ds: seq<nat>, u: Ptr, l: nat, n: nat)
    requires PathOk(p, ds) && Wf(p, l, n) && |ds| <= l
    ensures Wf(At(p, ds), l - |ds|, n)
    ensures PathOk(SetAt(p, ds, u), ds) && At(SetAt(p, ds, u), ds) == u
    ensures Wf(u, l - |ds|, n) ==> Wf(SetAt(p, ds, u), l, n)
    decreases |ds|
  {
    if ds != [] {
      SetOk(p.kids[ds[0]], ds[1..], u, l - 1, n);
    }
  }

  /** What a change below a path does to the map. */
  lemma {:induction false} LookupSet(p: Ptr, ds: seq<nat>, u: Ptr, w: seq<nat>)
    requires PathOk(p, ds) && |ds| <= |w|
    ensures Lookup(SetAt(p, ds, u), w) == if ds == w[..|ds|] then Lookup(u, w[|ds|..]) else Lookup(p, w)
    ensures ds == w[..|ds|] ==> Lookup(p, w) == Lookup(At(p, ds), w[|ds|..])
    decreases |ds|
  {
    if ds == [] {
      assert w[0..] == w;
    } else {
      var k := ds[0];
      LookupSet(p.kids[k], ds[1..], u, w[1..]);
      assert w[1..][|ds| - 1..] == w[|ds|..];
      assert w[..|ds|] == [w[0]] + w[1..][..|ds| - 1];
      assert ds == [k] + ds[1..];
    }
  }

  lemma {:induction false} PathSnoc(p: Ptr, ds: seq<nat>, c: nat)
    requires PathOk(p, ds) && At(p, ds).Table? && c < |At(p, ds).kids|
    ensures PathOk(p, ds + [c]) && At(p, ds + [c]) == At(p, ds).kids[c]
    ensures forall u :: SetAt(p, ds + [c], u) == SetAt(p, ds, At(p, ds).(kids := At(p, ds).kids[c := u]))
    decreases |ds|
  {
    if ds == [] {
      assert ds + [c] == [c] && [c][1..] == [];
    } else {
      PathSnoc(p.kids[ds[0]], ds[1..], c);
      assert (ds + [c])[1..] == ds[1..] + [c];
    }
  }

  /** A table without entries maps nothing, as no table does. */
  lemma LookupNone(w: seq<nat>, b: nat, n: nat)
    ensures Lookup(Null, w) == 0
    ensures w != [] ==> Lookup(Table(b, Empty(n)), w) == 0
  {
    if w != [] && w[0] < n { assert Lookup(Empty(n)[w[0]], w[1..]) == 0; }
  }

  lemma EmptyWf(b: nat, l: nat, n: nat)
    requires l > 0 && b > 0
    ensures Wf(Table(b, Empty(n)), l, n)
  {
    assert forall i :: 0 <= i < n ==> Wf(Empty(n)[i], l - 1, n);
  }

  /** An empty table put where there was none. */
  lemma NewTable(p: Ptr, ds: seq<nat>, b: nat, l: nat, n: nat)
    requires PathOk(p, ds) && At(p, ds).Null? && Wf(p, l, n) && |ds| < l && b > 0
    ensures var q := SetAt(p, ds, Table(b, Empty(n)));
      && Wf(q, l, n) && PathOk(q, ds) && At(q, ds) == Table(b, Empty(n))
      && (forall w: seq<nat> :: |w| == l ==> Lookup(q, w) == Lookup(p, w))
      && forall x: nat :: Uses(q, x) == Uses(p, x) + if x == b then 1 else 0
  {
    var u := Table(b, Empty(n));
    EmptyWf(b, l - |ds|, n);
    SetOk(p, ds, u, l, n);
    forall w: seq<nat> | |w| == l
      ensures Lookup(SetAt(p, ds, u), w) == Lookup(p, w)
    {
      LookupSet(p, ds, u, w);
      LookupNone(w[|ds|..], b, n);
    }
    forall x: nat
      ensures Uses(SetAt(p, ds, u), x) == Uses(p, x) + if x == b then 1 else 0
    {
      UsesSetAt(p, ds, u, x);
      UsesEmpty(n, x);
    }
  }

  /** A data pointer rewritten. */
  lemma PutData(p: Ptr, ds: seq<nat>, v: nat, l: nat, n: nat)
    requires PathOk(p, ds) && Wf(p, l, n) && |ds| == l
    ensures var q := SetAt(p, ds, DataPtr(v));
      && Wf(q, l, n) && Addr(At(p, ds)) == Lookup(p, ds)
      && (forall w: seq<nat> :: |w| == l ==> Lookup(q, w) == if w == ds then v else Lookup(p, w))
      && forall x: nat :: x > 0 ==>
           Uses(q, x) + (if x == Lookup(p, ds) then 1 else 0) == Uses(p, x) + if x == v then 1 else 0
  {
    var u := DataPtr(v);
    SetOk(p, ds, u, l, n);
    LookupSet(p, ds, u, ds);
    assert ds[..|ds|] == ds && ds[|ds|..] == [];
    forall w: seq<nat> | |w| == l
      ensures Lookup(SetAt(p, ds, u), w) == if w == ds then v else Lookup(p, w)
    {
      LookupSet(p, ds, u, w);
      assert w[..l] == w && w[l..] == [];
    }
    forall x: nat | x > 0
      ensures Uses(SetAt(p, ds, u), x) + (if x == Lookup(p, ds) then 1 else 0) == Uses(p, x) + if x == v then 1 else 0
    {
      UsesSetAt(p, ds, u, x);
    }
  }

  // ------------------------------------------------------------- blocks used

  /** How many pointers below hold block b. */
  function Uses(p: Ptr, b: nat): nat
    decreases p, 1
  {
    match p
    case Null => 0
    case Data(c) => if c == b then 1 else 0
    case Table(c, kids) => (if c == b then 1 else 0) + UsesAll(kids, b)
  }

  function UsesAll(kids: seq<Ptr>, b: nat): nat
    decreases kids, 0
  {
    if kids == [] then 0
    else
      var n := |kids| - 1;
      assert kids[n] in kids;
      UsesAll(kids[..n], b) + Uses(kids[n], b)
  }

  lemma {:induction false} UsesSet(kids: seq<Ptr>, c: nat, u: Ptr, b: nat)
    requires c < |kids|
    ensures UsesAll(kids[c := u], b) + Uses(kids[c], b) == UsesAll(kids, b) + Uses(u, b)
    decreases |kids|
  {
    var n := |kids| - 1;
    if c == n {
      assert kids[c := u][..n] == kids[..n];
    } else {
      UsesSet(kids[..n], c, u, b);
      assert kids[c := u][..n] == kids[..n][c := u];
    }
  }

  lemma {:induction false} UsesSetAt(p: Ptr, ds: seq<nat>, u: Ptr, b: nat)
    requires PathOk(p, ds)
    ensures Uses(SetAt(p, ds, u), b) + Uses(At(p, ds), b) == Uses(p, b) + Uses(u, b)
    decreases |ds|
  {
    if ds != [] {
      UsesSetAt(p.kids[ds[0]], ds[1..], u, b);
      UsesSet(p.kids, ds[0], SetAt(p.kids[ds[0]], ds[1..], u), b);
    }
  }

  lemma {:induction false} UsesEmpty(n: nat, b: nat)
    ensures UsesAll(Empty(n), b) == 0
  {
    if n > 0 {
      UsesEmpty(n - 1, b);
      assert Empty(n)[..n - 1] == Empty(n - 1);
    }
  }

  /** Only tables, no data blocks. */
  predicate NoData(p: Ptr)
    decreases p
  {
    match p
    case Null => true
    case Data(_) => false
    case Table(_, kids) => forall i :: 0 <= i < |kids| ==> NoData(kids[i])
  }

  /** A map without blocks is a tree without data. */
  lemma {:induction false} NoDataIs(p: Ptr, l: nat, n: nat)
    requires Wf(p, l, n)
    ensures NoData(p) <==> forall w: seq<nat> :: |w| == l && (forall i :: 0 <= i < l ==> w[i] < n) ==> Lookup(p, w) == 0
    decreases l
  {
    if p.Table? {
      forall i | 0 <= i < n
        ensures NoData(p.kids[i]) <==>
          forall w: seq<nat> :: |w| == l - 1 && (forall k :: 0 <= k < l - 1 ==> w[k] < n) ==> Lookup(p.kids[i], w) == 0
      {
        NoDataIs(p.kids[i], l - 1, n);
      }
      if NoData(p) {
        forall w: seq<nat> | |w| == l && (forall i :: 0 <= i < l ==> w[i] < n)
          ensures Lookup(p, w) == 0
        {
          assert NoData(p.kids[w[0]]);
          assert Lookup(p.kids[w[0]], w[1..]) == 0;
        }
      } else {
        var i :| 0 <= i < n && !NoData(p.kids[i]);
        var v: seq<nat> :| |v| == l - 1 && (forall k :: 0 <= k < l - 1 ==> v[k] < n) && Lookup(p.kids[i], v) != 0;
        var w := [i] + v;
        assert w[1..] == v && Lookup(p, w) != 0;
      }
    } else if p.Data? {
      assert Lookup(p, []) != 0;
    }
  }

  /** How many tables below are stored in block b. */
  function Tables(p: Ptr, b: nat): nat
    decreases p, 1
  {
    match p
    case Null => 0
    case Data(_) => 0
    case Table(c, kids) => (if c == b then 1 else 0) + TablesAll(kids, b)
  }

  function TablesAll(kids: seq<Ptr>, b: nat): nat
    decreases kids, 0
  {
    if kids == [] then 0
    else
      var n := |kids| - 1;
      assert kids[n] in kids;
      TablesAll(kids[..n], b) + Tables(kids[n], b)
  }

  lemma TablesNext(kids: seq<Ptr>, i: nat, b: nat)
    requires i < |kids|
    ensures TablesAll(kids[..i + 1], b) == TablesAll(kids[..i], b) + Tables(kids[i], b)
  {
    assert kids[..i + 1][..i] == kids[..i];
  }

  /** Without data the tables are all there is. */
  lemma {:induction false} TablesAreUses(p: Ptr, b: nat)
    requires NoData(p)
    ensures Tables(p, b) == Uses(p, b)
    decreases p, 1
  {
    if p.Table? { TablesAllAreUses(p.kids, b); }
  }

  lemma {:induction false} TablesAllAreUses(kids: seq<Ptr>, b: nat)
    requires forall i :: 0 <= i < |kids| ==> NoData(kids[i])
    ensures TablesAll(kids, b) == UsesAll(kids, b)
    decreases kids, 0
  {
    if kids != [] {
      var n := |kids| - 1;
      assert kids[n] in kids;
      TablesAllAreUses(kids[..n], b);
      TablesAreUses(kids[n], b);
    }
  }

  /** A table of level 1 has no tables below. */
  lemma {:induction false} FlatTables(kids: seq<Ptr>, n: nat, b: nat)
    requires forall i :: 0 <= i < |kids| ==> Wf(kids[i], 0, n)
    ensures TablesAll(kids, b) == 0
    decreases |kids|
  {
    if kids != [] {
      FlatTables(kids[..|kids| - 1], n, b);
      assert Wf(kids[|kids| - 1], 0, n);
    }
  }

  /** Every way leads to a block. */
  lemma {:induction false} DigitsOnto(n: nat, l: nat, w: seq<nat>) returns (off: nat)
    requires n > 0 && |w| == l && forall i :: 0 <= i < l ==> w[i] < n
    ensures off < Per(n, l) && Digits(n, l, off) == w
    decreases l
  {
    hide Digits;
    if l == 0 {
      off := 0;
      DigitsNone(n);
    } else {
      var r := DigitsOnto(n, l - 1, w[1..]);
      off := DigitsUp(n, l, w[0], r);
      assert w == [w[0]] + w[1..];
    }
  }

  lemma DigitsNone(n: nat)
    requires n > 0
    ensures Digits(n, 0, 0) == [] && Per(n, 0) == 1
  {
  }

  lemma DigitsUp(n: nat, l: nat, c: nat, r: nat) returns (off: nat)
    requires n > 0 && l > 0 && c < n && r < Per(n, l - 1)
    ensures off < Per(n, l) && Digits(n, l, off) == [c] + Digits(n, l - 1, r)
  {
    var d := PerPos(n, l - 1);
    off := d * c + r;
    MulLe(d, c + 1, n);
    assert d * (c + 1) == d * c + d;
    assert Per(n, l) == d * n;
    DivUnique(off, d, c, r);
  }
}
