/** A hashed directory as a list of index entries over leaf blocks. */
module DirTree {
  import opened DirBlock
  import opened DirIndex
  import opened DirSplit

  type Leaves = map<nat, seq<Rec>>

  predicate Distinct(f: seq<Idx>) { forall i, j :: 0 <= i < j < |f| ==> f[i].block != f[j].block }

  predicate Under(f: seq<Idx>, next: nat) { forall i :: 0 <= i < |f| ==> f[i].block < next }

  predicate LeavesOk(f: seq<Idx>, leaves: Leaves, size: nat) {
    forall i :: 0 <= i < |f| ==> LeafOk(leaves, f[i].block, size)
  }

  predicate LeafOk(leaves: Leaves, b: nat, size: nat) {
    b in leaves && Chain(leaves[b], size) && Tidy(leaves[b]) && Proper(Live(leaves[b]))
  }

  /** Every name lies in a block that its hash belongs to. */
  predicate Hashed(f: seq<Idx>, leaves: Leaves, hash: string -> nat)
    requires forall i :: 0 <= i < |f| ==> f[i].block in leaves
  {
    forall i :: 0 <= i < |f| ==> AllBelong(f, i, Live(leaves[f[i].block]), hash)
  }

  predicate AllBelong(f: seq<Idx>, i: nat, names: seq<Dirent>, hash: string -> nat)
    requires i < |f|
  {
    forall k :: 0 <= k < |names| ==> Belongs(f, i, hash(names[k].name))
  }

  predicate Dir(f: seq<Idx>, leaves: Leaves, size: nat, next: nat, hash: string -> nat) {
    && f != [] && Ordered(f) && Distinct(f) && Under(f, next)
    && LeavesOk(f, leaves, size) && Hashed(f, leaves, hash)
  }

  /** All names of the directory, as a linear scan of the leaf blocks meets them. */
  function Content(f: seq<Idx>, leaves: Leaves): multiset<Dirent> {
    if f == [] then multiset{}
    else Content(f[..|f| - 1], leaves) +
         if f[|f| - 1].block in leaves then multiset(Live(leaves[f[|f| - 1].block])) else multiset{}
  }

  function Names(leaves: Leaves, b: nat): multiset<Dirent> {
    if b in leaves then multiset(Live(leaves[b])) else multiset{}
  }

  lemma {:induction false} ContentConcat(a: seq<Idx>, b: seq<Idx>, leaves: Leaves)
    ensures Content(a + b, leaves) == Content(a, leaves) + Content(b, leaves)
    decreases |b|
  {
    if b == [] {
      assert a + b == a;
    } else {
      var n := |b| - 1;
      ContentConcat(a, b[..n], leaves);
      assert (a + b)[..|a + b| - 1] == a + b[..n] && (a + b)[|a + b| - 1] == b[n];
    }
  }

  lemma ContentOne(e: Idx, leaves: Leaves)
    ensures Content([e], leaves) == Names(leaves, e.block)
  {
    assert [e][..0] == [];
  }

  lemma {:induction false} ContentSame(f: seq<Idx>, leaves: Leaves, leaves': Leaves, b: nat)
    requires forall i :: 0 <= i < |f| ==> f[i].block != b
    requires forall x :: x != b ==> Names(leaves, x) == Names(leaves', x)
    ensures Content(f, leaves) == Content(f, leaves')
    decreases |f|
  {
    if f != [] {
      var n := |f| - 1;
      assert f[n].block != b;
      forall i | 0 <= i < n ensures f[..n][i].block != b { assert f[..n][i] == f[i]; }
      ContentSame(f[..n], leaves, leaves', b);
      assert Names(leaves, f[n].block) == Names(leaves', f[n].block);
    }
  }

  lemma ContentAt(f: seq<Idx>, leaves: Leaves, g: nat)
    requires g < |f|
    ensures Content(f, leaves) == Content(f[..g], leaves) + Names(leaves, f[g].block) + Content(f[g + 1..], leaves)
  {
    hide Content, Names;
    RootCut(f, g);
    ContentConcat(f[..g] + [f[g]], f[g + 1..], leaves);
    ContentConcat(f[..g], [f[g]], leaves);
    ContentOne(f[g], leaves);
  }

  /** One leaf block rewritten. */
  lemma ContentSet(f: seq<Idx>, leaves: Leaves, g: nat, recs: seq<Rec>)
    requires g < |f| && Distinct(f) && f[g].block in leaves
    ensures Content(f, leaves[f[g].block := recs]) + multiset(Live(leaves[f[g].block]))
         == Content(f, leaves) + multiset(Live(recs))
  {
    hide Content, Live;
    var b := f[g].block;
    var leaves' := leaves[b := recs];
    ContentAt(f, leaves, g);
    ContentAt(f, leaves', g);
    ContentSame(f[..g], leaves, leaves', b);
    ContentSame(f[g + 1..], leaves, leaves', b);
  }

  lemma {:induction false} ContentHas(f: seq<Idx>, leaves: Leaves, d: Dirent)
    ensures d in Content(f, leaves) <==>
      exists i :: 0 <= i < |f| && f[i].block in leaves && d in Live(leaves[f[i].block])
    decreases |f|
  {
    hide Live;
    if f != [] {
      var n := |f| - 1;
      ContentHas(f[..n], leaves, d);
      assert d in Content(f, leaves) <==>
        d in Content(f[..n], leaves) || (f[n].block in leaves && d in Live(leaves[f[n].block]));
      assert forall i :: 0 <= i < n ==> f[..n][i] == f[i];
    }
  }

  // ---------------------------------------------------------------- finding

  predicate Holds(recs: seq<Rec>, name: string) { exists d :: d in Live(recs) && d.name == name }

  /** A name that some block holds is held by a block that its hash belongs to. */
  ghost predicate Findable(f: seq<Idx>, leaves: Leaves, hash: string -> nat) {
    forall i, d :: 0 <= i < |f| && f[i].block in leaves && d in Live(leaves[f[i].block]) ==>
      HeldWhere(f, leaves, hash, d.name)
  }

  ghost predicate HeldWhere(f: seq<Idx>, leaves: Leaves, hash: string -> nat, name: string) {
    exists k :: 0 <= k < |f| && Belongs(f, k, hash(name)) && f[k].block in leaves && Holds(leaves[f[k].block], name)
  }

  /** What lookups need of a directory. */
  ghost predicate Searchable(f: seq<Idx>, leaves: Leaves, size: nat, next: nat, hash: string -> nat) {
    && f != [] && Ordered(f) && Distinct(f) && Under(f, next)
    && LeavesOk(f, leaves, size) && Findable(f, leaves, hash)
  }

  lemma DirSearchable(f: seq<Idx>, leaves: Leaves, size: nat, next: nat, hash: string -> nat)
    requires Dir(f, leaves, size, next, hash)
    ensures Searchable(f, leaves, size, next, hash)
  {
    hide Ordered, Distinct, Under, Live, Belongs, LeafOk;
    forall i, d | 0 <= i < |f| && f[i].block in leaves && d in Live(leaves[f[i].block])
      ensures HeldWhere(f, leaves, hash, d.name)
    {
      BelongsOf(f, leaves, size, next, hash, i, d);
      assert Holds(leaves[f[i].block], d.name);
    }
  }

  /** If the blocks from the search position up to the end of the collision do not hold the name, no
      block does. */
  lemma NotElsewhere(f: seq<Idx>, leaves: Leaves, size: nat, next: nat, hash: string -> nat,
                     name: string, g: nat, e: nat)
    requires Searchable(f, leaves, size, next, hash) && hash(name) % 2 == 0
    requires IsPos(f, hash(name), g) && g <= e < |f|
    requires e + 1 < |f| ==> Even(f[e + 1].key) != hash(name)
    requires forall i :: g <= i <= e ==> f[i].block in leaves && !Holds(leaves[f[i].block], name)
    ensures forall d :: d in Content(f, leaves) ==> d.name != name
  {
    hide Ordered, Distinct, Under, Live, IsPos, Belongs, Even;
    forall d | d in Content(f, leaves)
      ensures d.name != name
    {
      ContentHas(f, leaves, d);
      var i :| 0 <= i < |f| && f[i].block in leaves && d in Live(leaves[f[i].block]);
      if d.name == name {
        assert HeldWhere(f, leaves, hash, name);
        var k :| 0 <= k < |f| && Belongs(f, k, hash(name)) && f[k].block in leaves && Holds(leaves[f[k].block], name);
        CollisionRange(f, hash(name), g, e, k);
      }
    }
  }

  lemma BelongsOf(f: seq<Idx>, leaves: Leaves, size: nat, next: nat, hash: string -> nat, i: nat, d: Dirent)
    requires Dir(f, leaves, size, next, hash) && i < |f| && d in Live(leaves[f[i].block])
    ensures Belongs(f, i, hash(d.name)) && Ordered(f)
  {
    hide Belongs, Ordered, Distinct, Under;
    assert AllBelong(f, i, Live(leaves[f[i].block]), hash);
  }

  lemma HeldInContent(f: seq<Idx>, leaves: Leaves, i: nat, name: string)
    requires i < |f| && f[i].block in leaves && Holds(leaves[f[i].block], name)
    ensures exists d :: d in Content(f, leaves) && d.name == name
  {
    var d :| d in Live(leaves[f[i].block]) && d.name == name;
    ContentHas(f, leaves, d);
  }

  // ----------------------------------------------------------------- adding

  lemma {:induction false} AddedNames(w: seq<Dirent>, v: seq<Dirent>, k: nat, d: Dirent)
    requires AddedAt(w, v, k, d)
    ensures multiset(v) == multiset(w) + multiset([d])
    ensures Proper(w) && Proper([d]) ==> Proper(v)
    ensures forall x :: x in v ==> x in w || x == d
  {
    BagIn(w[..k], d, w[k..]);
    assert w[..k] + w[k..] == w;
    forall i | 0 <= i < |v|
      ensures v[i] == d || v[i] in w
    {
      if i < k { assert v[i] == w[i]; } else if i > k { assert v[i] == w[i - 1]; }
    }
  }

  /** A name added to the block its hash belongs to. */
  lemma AddInLeaf(f: seq<Idx>, leaves: Leaves, size: nat, next: nat, hash: string -> nat,
                  g: nat, recs: seq<Rec>, k: nat, d: Dirent)
    requires Dir(f, leaves, size, next, hash) && g < |f| && Belongs(f, g, hash(d.name)) && Proper([d])
    requires f[g].block in leaves && Chain(recs, size) && Tidy(recs)
    requires AddedAt(Live(leaves[f[g].block]), Live(recs), k, d)
    ensures Dir(f, leaves[f[g].block := recs], size, next, hash)
    ensures Content(f, leaves[f[g].block := recs]) == Content(f, leaves) + multiset{d}
  {
    hide Live, Chain, Tidy, Belongs, Ordered, Proper, AddedAt, Content;
    var b := f[g].block;
    var leaves' := leaves[b := recs];
    assert LeafOk(leaves, b, size);
    AddedNames(Live(leaves[b]), Live(recs), k, d);
    ContentSet(f, leaves, g, recs);
    assert multiset([d]) == multiset{d};
    BagsAdd(Content(f, leaves'), Content(f, leaves), multiset(Live(leaves[b])), multiset(Live(recs)), multiset{d});
    forall i | 0 <= i < |f|
      ensures LeafOk(leaves', f[i].block, size)
    {
      assert LeafOk(leaves, f[i].block, size);
    }
    forall i | 0 <= i < |f|
      ensures AllBelong(f, i, Live(leaves'[f[i].block]), hash)
    {
      assert AllBelong(f, i, Live(leaves[f[i].block]), hash);
      if i == g { AllBelongMore(f, g, Live(leaves[b]), Live(recs), d, hash); }
    }
  }

  /** A name taken out of its block. */
  lemma RemoveFromLeaf(f: seq<Idx>, leaves: Leaves, size: nat, next: nat, hash: string -> nat,
                       g: nat, recs: seq<Rec>, k: nat, d: Dirent)
    requires Dir(f, leaves, size, next, hash) && g < |f|
    requires f[g].block in leaves && Chain(recs, size) && Tidy(recs)
    requires AddedAt(Live(recs), Live(leaves[f[g].block]), k, d)
    ensures Dir(f, leaves[f[g].block := recs], size, next, hash)
    ensures Content(f, leaves) == Content(f, leaves[f[g].block := recs]) + multiset{d}
  {
    hide Live, Chain, Tidy, Belongs, Ordered, Proper, AddedAt, Content;
    var b := f[g].block;
    var leaves' := leaves[b := recs];
    assert LeafOk(leaves, b, size);
    FewerNames(Live(recs), Live(leaves[b]), k, d);
    ContentSet(f, leaves, g, recs);
    assert multiset([d]) == multiset{d};
    BagsAdd(Content(f, leaves), Content(f, leaves'), multiset(Live(recs)), multiset(Live(leaves[b])), multiset{d});
    forall i | 0 <= i < |f|
      ensures LeafOk(leaves', f[i].block, size)
    {
      assert LeafOk(leaves, f[i].block, size);
    }
    forall i | 0 <= i < |f|
      ensures AllBelong(f, i, Live(leaves'[f[i].block]), hash)
    {
      assert AllBelong(f, i, Live(leaves[f[i].block]), hash);
      if i == g { AllBelongLess(f, g, Live(recs), Live(leaves[b]), hash); }
    }
  }

  lemma FewerNames(w: seq<Dirent>, v: seq<Dirent>, k: nat, d: Dirent)
    requires AddedAt(w, v, k, d)
    ensures multiset(v) == multiset(w) + multiset([d])
    ensures Proper(v) ==> Proper(w)
    ensures forall x :: x in w ==> x in v
  {
    BagIn(w[..k], d, w[k..]);
    assert w[..k] + w[k..] == w;
    forall i | 0 <= i < |w|
      ensures w[i] in v
    {
      if i < k { assert v[i] == w[i]; } else { assert v[i + 1] == w[i]; }
    }
  }

  lemma AllBelongLess(f: seq<Idx>, g: nat, w: seq<Dirent>, v: seq<Dirent>, hash: string -> nat)
    requires g < |f| && AllBelong(f, g, v, hash) && forall x :: x in w ==> x in v
    ensures AllBelong(f, g, w, hash)
  {
    hide Belongs;
    forall k | 0 <= k < |w|
      ensures Belongs(f, g, hash(w[k].name))
    {
      assert w[k] in v;
      var l :| 0 <= l < |v| && v[l] == w[k];
      assert Belongs(f, g, hash(v[l].name));
    }
  }

  lemma BagsAdd(now: multiset<Dirent>, all: multiset<Dirent>, x: multiset<Dirent>, y: multiset<Dirent>,
                d: multiset<Dirent>)
    requires now + x == all + y && y == x + d
    ensures now == all + d
  {
    forall e
      ensures now[e] == (all + d)[e]
    {
      assert (now + x)[e] == (all + y)[e];
    }
  }

  lemma AllBelongMore(f: seq<Idx>, g: nat, w: seq<Dirent>, v: seq<Dirent>, d: Dirent, hash: string -> nat)
    requires g < |f| && AllBelong(f, g, w, hash) && Belongs(f, g, hash(d.name))
    requires forall x :: x in v ==> x in w || x == d
    ensures AllBelong(f, g, v, hash)
  {
    hide Belongs;
    forall k | 0 <= k < |v|
      ensures Belongs(f, g, hash(v[k].name))
    {
      assert v[k] in v;
    }
  }

  // -------------------------------------------------------------- splitting

  /** The key of the second half: odd if the first half ends with the same hash. */
  function HalfKey(lo: seq<Dirent>, hi: seq<Dirent>, hash: string -> nat): nat
    requires lo != [] && hi != []
  {
    hash(hi[0].name) + if hash(lo[|lo| - 1].name) == hash(hi[0].name) then 1 else 0
  }

  /** The names of block g divided over it and a new block behind it. */
  lemma SplitKeepsOrder(f: seq<Idx>, g: nat, e: Idx, lo: seq<Dirent>, hi: seq<Dirent>, hash: string -> nat)
    requires Ordered(f) && g < |f| && lo != [] && hi != [] && ByHash(lo + hi, hash)
    requires AllBelong(f, g, lo + hi, hash) && e.key == HalfKey(lo, hi, hash)
    requires forall n: string :: hash(n) % 2 == 0
    ensures Ordered(Put(f, g, e))
    ensures AllBelong(Put(f, g, e), g, lo, hash) && AllBelong(Put(f, g, e), g + 1, hi, hash)
  {
    var w := lo + hi;
    var x, y := hash(lo[|lo| - 1].name), hash(hi[0].name);
    assert w[|lo| - 1] == lo[|lo| - 1] && w[|lo|] == hi[0];
    assert Belongs(f, g, x) && Belongs(f, g, y) && x <= y;
    PutOrdered(f, g, e);
    var v := Put(f, g, e);
    assert v[g] == f[g] && v[g + 1] == e && (g + 1 < |f| ==> v[g + 2] == f[g + 1]);
    forall k | 0 <= k < |lo|
      ensures Belongs(v, g, hash(lo[k].name))
    {
      assert w[k] == lo[k] && Belongs(f, g, hash(w[k].name));
      assert k < |lo| - 1 ==> hash(w[k].name) <= hash(w[|lo| - 1].name);
    }
    forall k | 0 <= k < |hi|
      ensures Belongs(v, g + 1, hash(hi[k].name))
    {
      assert w[|lo| + k] == hi[k] && Belongs(f, g, hash(w[|lo| + k].name));
      assert k > 0 ==> hash(w[|lo|].name) <= hash(w[|lo| + k].name);
    }
  }

  lemma PutOrdered(f: seq<Idx>, g: nat, e: Idx)
    requires Ordered(f) && g < |f|
    requires g > 0 ==> f[g].key <= e.key
    requires g + 1 < |f| ==> e.key <= f[g + 1].key
    ensures Ordered(Put(f, g, e))
  {
    var v := Put(f, g, e);
    forall i, j | 1 <= i < j < |v|
      ensures v[i].key <= v[j].key
    {
      assert v[i] == if i <= g then f[i] else if i == g + 1 then e else f[i - 1];
      assert v[j] == if j <= g then f[j] else if j == g + 1 then e else f[j - 1];
      assert forall k :: 1 <= k <= g ==> f[k].key <= f[g].key;
      assert forall k :: g + 1 <= k < |f| ==> f[g + 1].key <= f[k].key;
    }
  }

  /** The other blocks keep their bounds. */
  lemma OtherBelong(f: seq<Idx>, g: nat, e: Idx, i: nat, h: nat)
    requires g < |f| && i < |f| && i != g && Belongs(f, i, h)
    ensures var i' := if i <= g then i else i + 1;
      i' < |Put(f, g, e)| && Put(f, g, e)[i'] == f[i] && Belongs(Put(f, g, e), i', h)
  {
  }

  lemma PutBlocks(f: seq<Idx>, g: nat, e: Idx, next: nat)
    requires g < |f| && Distinct(f) && Under(f, next) && e.block == next
    ensures Distinct(Put(f, g, e)) && Under(Put(f, g, e), next + 1)
  {
    var v := Put(f, g, e);
    assert forall i :: 0 <= i < |v| ==> v[i] == if i <= g then f[i] else if i == g + 1 then e else f[i - 1];
  }

  lemma SplitLeaf(f: seq<Idx>, leaves: Leaves, size: nat, next: nat, hash: string -> nat, g: nat, e: Idx,
                  lo: seq<Dirent>, hi: seq<Dirent>, x: seq<Rec>, y: seq<Rec>)
    requires Dir(f, leaves, size, next, hash) && g < |f| && lo != [] && hi != [] && ByHash(lo + hi, hash)
    requires forall n: string :: hash(n) % 2 == 0
    requires f[g].block in leaves && multiset(lo + hi) == multiset(Live(leaves[f[g].block]))
    requires e == Idx(HalfKey(lo, hi, hash), next)
    requires Chain(x, size) && Tidy(x) && Live(x) == lo && Chain(y, size) && Tidy(y) && Live(y) == hi
    ensures var leaves', f' := leaves[f[g].block := x][next := y], Put(f, g, e);
      Dir(f', leaves', size, next + 1, hash) && Content(f', leaves') == Content(f, leaves)
  {
    hide Live, Chain, Tidy, Belongs, Ordered, Proper, Content, HalfKey, Put, Distinct, Under, ByHash, Hashed,
         LeavesOk, AllBelong;
    var leaves', f' := leaves[f[g].block := x][next := y], Put(f, g, e);
    SplitProper(f, leaves, size, next, hash, g, lo, hi);
    SplitKeepsOrder(f, g, e, lo, hi, hash);
    PutBlocks(f, g, e, next);
    SplitLeaves(f, leaves, size, next, g, e, x, y);
    SplitHashed(f, leaves, size, next, hash, g, e, lo, hi, x, y);
    SplitContent(f, leaves, next, g, e, x, y);
    PutNotEmpty(f, g, e);
  }

  lemma PutNotEmpty(f: seq<Idx>, g: nat, e: Idx)
    requires g < |f|
    ensures Put(f, g, e) != []
  {
  }

  lemma SplitProper(f: seq<Idx>, leaves: Leaves, size: nat, next: nat, hash: string -> nat, g: nat,
                    lo: seq<Dirent>, hi: seq<Dirent>)
    requires Dir(f, leaves, size, next, hash) && g < |f|
    requires f[g].block in leaves && multiset(lo + hi) == multiset(Live(leaves[f[g].block]))
    ensures Proper(lo) && Proper(hi) && AllBelong(f, g, lo + hi, hash)
  {
    hide Live, Chain, Tidy, Belongs, Ordered, Distinct, Under;
    var names, w := Live(leaves[f[g].block]), lo + hi;
    assert LeafOk(leaves, f[g].block, size);
    assert AllBelong(f, g, names, hash);
    forall k | 0 <= k < |w|
      ensures w[k] in names
    {
      assert w[k] in multiset(w);
    }
    forall k | 0 <= k < |lo| ensures lo[k] in names { assert w[k] == lo[k]; }
    forall k | 0 <= k < |hi| ensures hi[k] in names { assert w[|lo| + k] == hi[k]; }
  }

  lemma SplitLeaves(f: seq<Idx>, leaves: Leaves, size: nat, next: nat, g: nat, e: Idx, x: seq<Rec>, y: seq<Rec>)
    requires LeavesOk(f, leaves, size) && g < |f| && Under(f, next) && e.block == next
    requires Chain(x, size) && Chain(y, size) && Tidy(x) && Tidy(y) && Proper(Live(x)) && Proper(Live(y))
    ensures LeavesOk(Put(f, g, e), leaves[f[g].block := x][next := y], size)
  {
    hide Live, Chain, Tidy, Proper;
    var v, leaves' := Put(f, g, e), leaves[f[g].block := x][next := y];
    forall i | 0 <= i < |v|
      ensures LeafOk(leaves', v[i].block, size)
    {
      assert v[i] == if i <= g then f[i] else if i == g + 1 then e else f[i - 1];
      if i <= g { assert LeafOk(leaves, f[i].block, size); }
      if i > g + 1 { assert LeafOk(leaves, f[i - 1].block, size); }
    }
  }

  lemma SplitHashed(f: seq<Idx>, leaves: Leaves, size: nat, next: nat, hash: string -> nat, g: nat, e: Idx,
                    lo: seq<Dirent>, hi: seq<Dirent>, x: seq<Rec>, y: seq<Rec>)
    requires Dir(f, leaves, size, next, hash) && g < |f| && e.block == next
    requires Live(x) == lo && Live(y) == hi
    requires AllBelong(Put(f, g, e), g, lo, hash) && AllBelong(Put(f, g, e), g + 1, hi, hash)
    ensures var f', leaves' := Put(f, g, e), leaves[f[g].block := x][next := y];
      (forall i :: 0 <= i < |f'| ==> f'[i].block in leaves') && Hashed(f', leaves', hash)
  {
    hide Live, Chain, Tidy, Belongs, Ordered, Proper;
    var v, leaves' := Put(f, g, e), leaves[f[g].block := x][next := y];
    forall i | 0 <= i < |v|
      ensures v[i].block in leaves' && AllBelong(v, i, Live(leaves'[v[i].block]), hash)
    {
      assert v[i] == if i <= g then f[i] else if i == g + 1 then e else f[i - 1];
      if i != g && i != g + 1 {
        var j := if i < g then i else i - 1;
        assert LeafOk(leaves, f[j].block, size);
        assert AllBelong(f, j, Live(leaves[f[j].block]), hash);
        OthersBelong(f, g, e, j, Live(leaves[f[j].block]), hash);
      }
    }
  }

  lemma OthersBelong(f: seq<Idx>, g: nat, e: Idx, i: nat, names: seq<Dirent>, hash: string -> nat)
    requires g < |f| && i < |f| && i != g && AllBelong(f, i, names, hash)
    ensures var i' := if i <= g then i else i + 1;
      i' < |Put(f, g, e)| && AllBelong(Put(f, g, e), i', names, hash)
  {
    hide Belongs;
    forall k | 0 <= k < |names|
      ensures var i' := if i <= g then i else i + 1; Belongs(Put(f, g, e), i', hash(names[k].name))
    {
      OtherBelong(f, g, e, i, hash(names[k].name));
    }
  }

  lemma SplitContent(f: seq<Idx>, leaves: Leaves, next: nat, g: nat, e: Idx, x: seq<Rec>, y: seq<Rec>)
    requires g < |f| && Distinct(f) && Under(f, next) && e.block == next && f[g].block in leaves
    requires multiset(Live(x) + Live(y)) == multiset(Live(leaves[f[g].block]))
    ensures Content(Put(f, g, e), leaves[f[g].block := x][next := y]) == Content(f, leaves)
  {
    hide Live, Content, Put, Names;
    var b := f[g].block;
    var one := leaves[b := x];
    var two := one[next := y];
    NamesOf(leaves, b, x, next, y);
    ContentSet(f, leaves, g, x);
    ContentSame(f, one, two, next);
    ContentAt(f, two, g);
    PutInRoot(f, g, e);
    ContentConcat(f[..g] + [f[g]] + [e], f[g + 1..], two);
    ContentConcat(f[..g] + [f[g]], [e], two);
    ContentConcat(f[..g], [f[g]], two);
    ContentOne(f[g], two);
    ContentOne(e, two);
    Bags(Content(f, leaves), Content(f, two), Content(f[..g], two), Content(f[g + 1..], two),
         multiset(Live(leaves[b])), multiset(Live(x)), multiset(Live(y)));
  }

  lemma NamesOf(leaves: Leaves, b: nat, x: seq<Rec>, next: nat, y: seq<Rec>)
    requires b != next
    ensures var one := leaves[b := x]; var two := one[next := y];
      && Names(two, b) == multiset(Live(x)) && Names(two, next) == multiset(Live(y))
      && forall k :: k != next ==> Names(one, k) == Names(two, k)
  {
  }

  lemma Bags(all: multiset<Dirent>, now: multiset<Dirent>, a: multiset<Dirent>, c: multiset<Dirent>,
             names: multiset<Dirent>, x: multiset<Dirent>, y: multiset<Dirent>)
    requires now + names == all + x && names == x + y && now == a + x + c
    ensures a + x + y + c == all
  {
    forall d
      ensures (a + x + y + c)[d] == all[d]
    {
      assert (now + names)[d] == (all + x)[d];
    }
  }

  /** After the split the new name's hash belongs where the comparison with the new key sends it. */
  lemma SideBelongs(f: seq<Idx>, g: nat, e: Idx, h: nat)
    requires g < |f| && Belongs(f, g, h)
    ensures g + 1 < |Put(f, g, e)| && Put(f, g, e)[g] == f[g] && Put(f, g, e)[g + 1] == e
    ensures Belongs(Put(f, g, e), if h >= e.key then g + 1 else g, h)
  {
  }

  // --------------------------------------------------------------- doubling

  /** A leaf block with the same names, and the new one if it was added. */
  ghost predicate Grown(recs: seq<Rec>, recs': seq<Rec>, size: nat, d: Dirent, added: bool) {
    && Chain(recs', size) && Tidy(recs') && Proper(Live(recs'))
    && forall x :: x in Live(recs') <==> x in Live(recs) || (added && x == d)
  }

  /** When the names of block g are copied to a new block with key 0 or 1, every lookup still finds what a scan finds
      if and only if the index stays in order: the key of block g is not greater, or block g is the first. */
  lemma DoubledSearch(f: seq<Idx>, leaves: Leaves, size: nat, next: nat, hash: string -> nat, g: nat, e: Idx,
                      x: seq<Rec>, y: seq<Rec>, d: Dirent, added: bool)
    requires Dir(f, leaves, size, next, hash) && g < |f| && e.block == next && e.key <= 1
    requires forall n: string :: hash(n) % 2 == 0
    requires f[g].block in leaves && Grown(x, y, size, d, added)
    requires forall n :: n in Live(x) <==> n in Live(leaves[f[g].block])
    requires Belongs(f, g, hash(d.name)) && (added ==> hash(d.name) >= e.key)
    ensures Searchable(Put(f, g, e), leaves[next := y], size, next + 1, hash) <==> g == 0 || f[g].key <= e.key
  {
    hide Ordered, Distinct, Under, Live, Chain, Tidy, Proper, Belongs, LeavesOk, Findable;
    PutBlocks(f, g, e, next);
    DoubledOrder(f, g, e, hash(d.name));
    DoubledLeaves(f, leaves, size, next, g, e, x, y, d, added);
    DoubledFindable(f, leaves, size, next, hash, g, e, x, y, d, added);
    PutNotEmpty(f, g, e);
  }

  lemma DoubledOrder(f: seq<Idx>, g: nat, e: Idx, h: nat)
    requires Ordered(f) && g < |f| && e.key <= 1 && Belongs(f, g, h)
    ensures Ordered(Put(f, g, e)) <==> g == 0 || f[g].key <= e.key
  {
    if g == 0 || f[g].key <= e.key {
      PutOrdered(f, g, e);
    } else {
      var v := Put(f, g, e);
      assert v[g] == f[g] && v[g + 1] == e;
    }
  }

  lemma DoubledLeaves(f: seq<Idx>, leaves: Leaves, size: nat, next: nat, g: nat, e: Idx, x: seq<Rec>, y: seq<Rec>,
                      d: Dirent, added: bool)
    requires LeavesOk(f, leaves, size) && g < |f| && Under(f, next) && e.block == next && Grown(x, y, size, d, added)
    ensures LeavesOk(Put(f, g, e), leaves[next := y], size)
  {
    hide Live, Chain, Tidy, Proper;
    var v, leaves' := Put(f, g, e), leaves[next := y];
    forall i | 0 <= i < |v|
      ensures LeafOk(leaves', v[i].block, size)
    {
      assert v[i] == if i <= g then f[i] else if i == g + 1 then e else f[i - 1];
      if i <= g { assert LeafOk(leaves, f[i].block, size); }
      if i > g + 1 { assert LeafOk(leaves, f[i - 1].block, size); }
    }
  }

  lemma DoubledFindable(f: seq<Idx>, leaves: Leaves, size: nat, next: nat, hash: string -> nat, g: nat, e: Idx,
                        x: seq<Rec>, y: seq<Rec>, d: Dirent, added: bool)
    requires Dir(f, leaves, size, next, hash) && g < |f| && e.block == next && e.key <= 1
    requires forall n: string :: hash(n) % 2 == 0
    requires f[g].block in leaves && Grown(x, y, size, d, added)
    requires forall n :: n in Live(x) <==> n in Live(leaves[f[g].block])
    requires Belongs(f, g, hash(d.name))
    ensures Findable(Put(f, g, e), leaves[next := y], hash)
  {
    hide Ordered, Distinct, Live, Chain, Tidy, Proper, Belongs, HeldWhere;
    var v, leaves' := Put(f, g, e), leaves[next := y];
    forall i, n | 0 <= i < |v| && v[i].block in leaves' && n in Live(leaves'[v[i].block])
      ensures HeldWhere(v, leaves', hash, n.name)
    {
      assert v[i] == if i <= g then f[i] else if i == g + 1 then e else f[i - 1];
      if i == g || i == g + 1 {
        CopyHolds(f, leaves, size, next, hash, g, e, x, y, d, added, n);
      } else {
        var j := if i < g then i else i - 1;
        OtherHolds(f, leaves, size, next, hash, g, e, y, j, n);
      }
    }
  }

  /** A name in another block is where it was. */
  lemma OtherHolds(f: seq<Idx>, leaves: Leaves, size: nat, next: nat, hash: string -> nat, g: nat, e: Idx,
                   y: seq<Rec>, i: nat, n: Dirent)
    requires Dir(f, leaves, size, next, hash) && g < |f| && e.block == next && i < |f| && i != g
    requires f[i].block in leaves && n in Live(leaves[f[i].block])
    ensures HeldWhere(Put(f, g, e), leaves[next := y], hash, n.name)
  {
    hide Ordered, Distinct, Live, Belongs, Put;
    BelongsOf(f, leaves, size, next, hash, i, n);
    OtherBelong(f, g, e, i, hash(n.name));
    assert Holds(leaves[f[i].block], n.name);
  }

  /** A name of block g is in the new block, too. */
  lemma CopyHolds(f: seq<Idx>, leaves: Leaves, size: nat, next: nat, hash: string -> nat, g: nat, e: Idx,
                  x: seq<Rec>, y: seq<Rec>, d: Dirent, added: bool, n: Dirent)
    requires Dir(f, leaves, size, next, hash) && g < |f| && e.block == next && e.key <= 1
    requires forall n: string :: hash(n) % 2 == 0
    requires f[g].block in leaves && Grown(x, y, size, d, added) && Belongs(f, g, hash(d.name))
    requires forall n :: n in Live(x) <==> n in Live(leaves[f[g].block])
    requires n in Live(leaves[f[g].block]) || n in Live(y)
    ensures HeldWhere(Put(f, g, e), leaves[next := y], hash, n.name)
  {
    hide Ordered, Distinct, Live, Belongs, Chain, Tidy, Proper;
    if n in Live(leaves[f[g].block]) { BelongsOf(f, leaves, size, next, hash, g, n); }
    assert n in Live(y);
    NewBelongs(f, g, e, hash(n.name));
    assert Holds(y, n.name);
  }

  lemma NewBelongs(f: seq<Idx>, g: nat, e: Idx, h: nat)
    requires g < |f| && Belongs(f, g, h) && e.key <= 1
    ensures g + 1 < |Put(f, g, e)| && Put(f, g, e)[g + 1] == e && Belongs(Put(f, g, e), g + 1, h)
  {
  }
}
