/** The block cache: buffers by block number, the unreferenced ones in order of last use, and the list
    of dirty buffers that wait to be flushed. */
module BlockCache {

  type Data = seq<nat>

  /** A buffer: its content, the flags of the C structure, the reference count, the time of last use. */
  datatype Buf = Buf(data: Data, uptodate: bool, dirty: bool, flush: bool, tmp: bool, refctr: nat, lruId: nat,
                      listed: bool)

  /** What a reader of block b gets. */
  function View(bufs: map<nat, Buf>, disk: seq<Data>, b: nat): Data
    requires b < |disk|
  {
    if b in bufs && bufs[b].uptodate then bufs[b].data else disk[b]
  }

  /** Dirty buffers are up to date; clean ones that are up to date agree with the disk; a buffer is on
      the list exactly when it is dirty and nobody refers to it. */
  predicate BufOk(b: nat, buf: Buf, disk: seq<Data>) {
    && b < |disk|
    && (buf.dirty ==> buf.uptodate)
    && (buf.uptodate && !buf.dirty ==> buf.data == disk[b])
    && (buf.listed <==> buf.dirty && buf.refctr == 0)
  }

  predicate BufsOk(bufs: map<nat, Buf>, disk: seq<Data>) { forall b :: b in bufs ==> BufOk(b, bufs[b], disk) }

  ghost predicate ListOk(bufs: map<nat, Buf>, list: seq<nat>) {
    && (forall i, j :: 0 <= i < j < |list| ==> list[i] != list[j])
    && forall b :: b in list <==> b in bufs && bufs[b].listed
  }

  ghost predicate LruOk(bufs: map<nat, Buf>, lru: set<nat>) {
    forall b :: b in lru <==> b in bufs && bufs[b].refctr == 0
  }

  /** `uses` has the cached blocks in the order in which somebody last began to refer to them. */
  ghost predicate UsesOk(bufs: map<nat, Buf>, uses: seq<nat>, lruCtr: nat) {
    && (forall b :: b in uses <==> b in bufs)
    && InOrder(bufs, uses)
    && forall b :: b in bufs ==> bufs[b].lruId <= lruCtr
  }

  ghost predicate InOrder(bufs: map<nat, Buf>, uses: seq<nat>) {
    forall i, j :: 0 <= i < j < |uses| ==>
      uses[i] in bufs && uses[j] in bufs && bufs[uses[i]].lruId < bufs[uses[j]].lruId
  }

  /** The order after block b was used. */
  function LastUsed(uses: seq<nat>, b: nat): seq<nat> { Removed(uses, b) + [b] }

  /** The blocks of `uses` that are in the cache still. */
  function Staying(uses: seq<nat>, keys: set<nat>): seq<nat> {
    if uses == [] then []
    else (if uses[0] in keys then [uses[0]] else []) + Staying(uses[1..], keys)
  }

  /** b is the block that has not been used for longest of those nobody refers to. */
  ghost predicate OldestFree(bufs: map<nat, Buf>, uses: seq<nat>, b: nat) {
    exists i :: 0 <= i < |uses| && uses[i] == b && b in bufs && bufs[b].refctr == 0
      && forall j :: 0 <= j < i ==> uses[j] in bufs && bufs[uses[j]].refctr > 0
  }

  /** With a block all those went that had been used before it and nobody referred to, but for those said. */
  ghost predicate OldestGone(uses: seq<nat>, was: map<nat, Buf>, keys: set<nat>, but: set<nat>) {
    forall i, j :: 0 <= i < j < |uses| ==>
      (uses[j] !in keys && uses[i] in was && was[uses[i]].refctr == 0 && uses[i] !in but ==> uses[i] !in keys)
  }

  /** Readers get the same in both states. */
  ghost predicate SameViews(bufs: map<nat, Buf>, disk: seq<Data>, bufs': map<nat, Buf>, disk': seq<Data>) {
    |disk'| == |disk| && forall k :: 0 <= k < |disk| ==> View(bufs', disk', k) == View(bufs, disk, k)
  }

  lemma ViewsTrans(b0: map<nat, Buf>, d0: seq<Data>, b1: map<nat, Buf>, d1: seq<Data>, b2: map<nat, Buf>, d2: seq<Data>)
    requires SameViews(b0, d0, b1, d1) && SameViews(b1, d1, b2, d2)
    ensures SameViews(b0, d0, b2, d2)
  {
    hide View;
  }

  lemma ViewsRefl(b: map<nat, Buf>, d: seq<Data>)
    ensures SameViews(b, d, b, d)
  {
  }

  /** What the cache may do with a block on its own: write a dirty buffer that nobody refers to, and drop
      one that is clean. A buffer that is referred to stays as it is, and so does its block on disk. */
  ghost predicate FlushedAt(bufs: map<nat, Buf>, disk: seq<Data>, bufs': map<nat, Buf>, disk': seq<Data>, b: nat)
    requires b < |disk| == |disk'|
  {
    if b in bufs && bufs[b].refctr == 0 && bufs[b].dirty && !(b in bufs' && bufs'[b].dirty) then
      disk'[b] == bufs[b].data && (b in bufs' ==> bufs'[b] == bufs[b].(dirty := false, listed := false))
    else
      && disk'[b] == disk[b]
      && (b in bufs' ==> b in bufs && bufs'[b] == bufs[b])
      && (b in bufs && b !in bufs' ==> bufs[b].refctr == 0 && !bufs[b].dirty)
  }

  /** The same for all blocks but those said. */
  ghost predicate Flushes(bufs: map<nat, Buf>, disk: seq<Data>, bufs': map<nat, Buf>, disk': seq<Data>, but: set<nat>) {
    |disk'| == |disk| && forall b :: 0 <= b < |disk| && b !in but ==> FlushedAt(bufs, disk, bufs', disk', b)
  }

  lemma FlushesNot(bufs: map<nat, Buf>, disk: seq<Data>)
    ensures Flushes(bufs, disk, bufs, disk, {})
  {
  }

  lemma FlushesTrans(b0: map<nat, Buf>, d0: seq<Data>, b1: map<nat, Buf>, d1: seq<Data>, b2: map<nat, Buf>,
                     d2: seq<Data>)
    requires Flushes(b0, d0, b1, d1, {}) && Flushes(b1, d1, b2, d2, {})
    ensures Flushes(b0, d0, b2, d2, {})
  {
    hide FlushedAt;
    forall b | 0 <= b < |d0|
      ensures FlushedAt(b0, d0, b2, d2, b)
    {
      assert FlushedAt(b0, d0, b1, d1, b) && FlushedAt(b1, d1, b2, d2, b);
      FlushedTwice(b0, d0, b1, d1, b2, d2, b);
    }
  }

  lemma FlushedTwice(b0: map<nat, Buf>, d0: seq<Data>, b1: map<nat, Buf>, d1: seq<Data>, b2: map<nat, Buf>,
                     d2: seq<Data>, b: nat)
    requires b < |d0| == |d1| == |d2| && FlushedAt(b0, d0, b1, d1, b) && FlushedAt(b1, d1, b2, d2, b)
    ensures FlushedAt(b0, d0, b2, d2, b)
  {
  }

  /** The blocks of referenced buffers are not written. */
  lemma FlushesPinned(bufs: map<nat, Buf>, disk: seq<Data>, bufs': map<nat, Buf>, disk': seq<Data>)
    requires Flushes(bufs, disk, bufs', disk', {}) && BufsOk(bufs, disk)
    ensures forall b :: b in bufs && bufs[b].refctr > 0 ==>
      b < |disk| == |disk'| && disk'[b] == disk[b] && b in bufs' && bufs'[b] == bufs[b]
  {
    hide FlushedAt;
    forall b | b in bufs && bufs[b].refctr > 0
      ensures b < |disk| == |disk'| && disk'[b] == disk[b] && b in bufs' && bufs'[b] == bufs[b]
    {
      BufAt(bufs, disk, b);
      PinnedAt(bufs, disk, bufs', disk', b);
    }
  }

  lemma PinnedAt(bufs: map<nat, Buf>, disk: seq<Data>, bufs': map<nat, Buf>, disk': seq<Data>, b: nat)
    requires b < |disk| == |disk'| && FlushedAt(bufs, disk, bufs', disk', b) && b in bufs && bufs[b].refctr > 0
    ensures disk'[b] == disk[b] && b in bufs' && bufs'[b] == bufs[b]
  {
  }

  /** A block and its buffer as somebody who asks for it finds them: written and dropped before, or as they
      were; then the buffer has one reference more. */
  ghost predicate GotAt(bufs: map<nat, Buf>, disk: seq<Data>, bufs': map<nat, Buf>, disk': seq<Data>, b: nat)
    requires b < |disk| == |disk'|
  {
    && b in bufs' && bufs'[b].refctr == (if b in bufs then bufs[b].refctr else 0) + 1
    && (bufs'[b].dirty ==> b in bufs && bufs[b].dirty && bufs'[b].data == bufs[b].data)
    && disk'[b] == (if b in bufs && bufs[b].dirty && !bufs'[b].dirty then bufs[b].data else disk[b])
    && (b in bufs && bufs[b].refctr > 0 ==> bufs'[b].dirty == bufs[b].dirty)
  }

  /** One buffer flushed. */
  lemma FlushOne(bufs: map<nat, Buf>, disk: seq<Data>, b: nat)
    requires b in bufs && b < |disk| && bufs[b].refctr == 0 && bufs[b].dirty
    ensures Flushes(bufs, disk, bufs[b := bufs[b].(dirty := false, listed := false)], disk[b := bufs[b].data], {})
  {
  }

  lemma FlushDrop(bufs: map<nat, Buf>, disk: seq<Data>, b: nat)
    requires b in bufs && b < |disk| && bufs[b].refctr == 0 && !bufs[b].dirty
    ensures Flushes(bufs, disk, bufs - {b}, disk, {})
  {
  }

  lemma FlushesOthers(bufs: map<nat, Buf>, disk: seq<Data>, now: map<nat, Buf>, disk': seq<Data>, bufs': map<nat,
                      Buf>, b: nat)
    requires Flushes(bufs, disk, now, disk', {})
    requires forall k :: k != b ==> (k in bufs' <==> k in now) && (k in bufs' ==> bufs'[k] == now[k])
    ensures Flushes(bufs, disk, bufs', disk', {b})
  {
    hide FlushedAt;
    forall k | 0 <= k < |disk| && k != b
      ensures FlushedAt(bufs, disk, bufs', disk', k)
    {
      assert FlushedAt(bufs, disk, now, disk', k);
      FlushedSame(bufs, disk, now, disk', bufs', k);
    }
  }

  lemma FlushedSame(bufs: map<nat, Buf>, disk: seq<Data>, now: map<nat, Buf>, disk': seq<Data>, bufs': map<nat, Buf>,
                    k: nat)
    requires k < |disk| == |disk'| && FlushedAt(bufs, disk, now, disk', k)
    requires (k in bufs' <==> k in now) && (k in bufs' ==> bufs'[k] == now[k])
    ensures FlushedAt(bufs, disk, bufs', disk', k)
  {
  }

  lemma GotFrom(bufs: map<nat, Buf>, disk: seq<Data>, now: map<nat, Buf>, disk': seq<Data>, bufs': map<nat, Buf>,
                b: nat)
    requires b < |disk| == |disk'| && FlushedAt(bufs, disk, now, disk', b) && b in bufs'
    requires bufs'[b].refctr == (if b in now then now[b].refctr else 0) + 1
    requires bufs'[b].dirty <==> b in now && now[b].dirty
    requires bufs'[b].dirty ==> bufs'[b].data == now[b].data
    ensures GotAt(bufs, disk, bufs', disk', b)
  {
  }

  /** SLIST_REMOVE. */
  function Removed(list: seq<nat>, b: nat): seq<nat> {
    if list == [] then [] else if list[0] == b then list[1..] else [list[0]] + Removed(list[1..], b)
  }

  lemma {:induction false} RemovedIs(list: seq<nat>, b: nat)
    requires forall i, j :: 0 <= i < j < |list| ==> list[i] != list[j]
    ensures forall x :: x in Removed(list, b) <==> x in list && x != b
    ensures var w := Removed(list, b);
      (forall i, j :: 0 <= i < j < |w| ==> w[i] != w[j]) && |w| <= |list|
      && (b in list ==> |w| < |list|)
    decreases |list|
  {
    if list != [] && list[0] != b {
      var t := list[1..];
      assert forall i :: 0 <= i < |t| ==> t[i] == list[i + 1];
      RemovedIs(t, b);
      assert forall i :: 0 < i < |list| ==> list[i] == t[i - 1];
      assert list[0] !in t;
    } else if list != [] {
      assert forall i :: 0 <= i < |list[1..]| ==> list[1..][i] == list[i + 1];
    }
  }

  lemma OrderPair(bufs: map<nat, Buf>, uses: seq<nat>, i: nat, j: nat)
    requires InOrder(bufs, uses) && i < j < |uses|
    ensures uses[i] in bufs && uses[j] in bufs && bufs[uses[i]].lruId < bufs[uses[j]].lruId
  {
  }

  lemma OrderApart(bufs: map<nat, Buf>, uses: seq<nat>)
    requires InOrder(bufs, uses)
    ensures forall i, j :: 0 <= i < j < |uses| ==> uses[i] != uses[j]
  {
    forall i, j | 0 <= i < j < |uses|
      ensures uses[i] != uses[j]
    {
      OrderPair(bufs, uses, i, j);
    }
  }

  lemma OrderRest(bufs: map<nat, Buf>, uses: seq<nat>)
    requires InOrder(bufs, uses) && uses != []
    ensures InOrder(bufs, uses[1..])
    ensures forall x :: x in uses[1..] ==>
      x in bufs && uses[0] in bufs && bufs[uses[0]].lruId < bufs[x].lruId
  {
    var t := uses[1..];
    forall i, j | 0 <= i < j < |t|
      ensures t[i] in bufs && t[j] in bufs && bufs[t[i]].lruId < bufs[t[j]].lruId
    {
      OrderPair(bufs, uses, i + 1, j + 1);
    }
    forall x | x in t
      ensures x in bufs && uses[0] in bufs && bufs[uses[0]].lruId < bufs[x].lruId
    {
      var i :| 0 <= i < |t| && t[i] == x;
      OrderPair(bufs, uses, 0, i + 1);
    }
  }

  lemma OrderFront(bufs: map<nat, Buf>, uses: seq<nat>, b: nat)
    requires InOrder(bufs, uses)
    requires forall x :: x in uses ==> x in bufs && b in bufs && bufs[b].lruId < bufs[x].lruId
    ensures InOrder(bufs, [b] + uses)
  {
    var w := [b] + uses;
    forall i, j | 0 <= i < j < |w|
      ensures w[i] in bufs && w[j] in bufs && bufs[w[i]].lruId < bufs[w[j]].lruId
    {
      assert w[j] == uses[j - 1] && w[j] in uses;
      if i > 0 { assert w[i] == uses[i - 1]; }
    }
  }

  lemma {:induction false} RemovedInOrder(bufs: map<nat, Buf>, uses: seq<nat>, b: nat)
    requires InOrder(bufs, uses)
    ensures InOrder(bufs, Removed(uses, b))
  {
    hide InOrder;
    if uses != [] {
      OrderRest(bufs, uses);
      if uses[0] != b {
        RemovedInOrder(bufs, uses[1..], b);
        OrderApart(bufs, uses[1..]);
        RemovedIs(uses[1..], b);
        OrderFront(bufs, Removed(uses[1..], b), uses[0]);
      }
    }
  }

  /** One buffer changed that keeps its time of last use. */
  lemma UsesSame(bufs: map<nat, Buf>, uses: seq<nat>, lruCtr: nat, b: nat, buf: Buf)
    requires UsesOk(bufs, uses, lruCtr) && b in bufs && buf.lruId == bufs[b].lruId
    ensures UsesOk(bufs[b := buf], uses, lruCtr)
  {
    var w := bufs[b := buf];
    forall i, j | 0 <= i < j < |uses|
      ensures uses[i] in w && uses[j] in w && w[uses[i]].lruId < w[uses[j]].lruId
    {
      assert bufs[uses[i]].lruId < bufs[uses[j]].lruId;
    }
  }

  lemma OrderEnd(bufs: map<nat, Buf>, uses: seq<nat>, b: nat)
    requires InOrder(bufs, uses)
    requires forall x :: x in uses ==> x in bufs && b in bufs && bufs[x].lruId < bufs[b].lruId
    ensures InOrder(bufs, uses + [b])
  {
    var w := uses + [b];
    forall i, j | 0 <= i < j < |w|
      ensures w[i] in bufs && w[j] in bufs && bufs[w[i]].lruId < bufs[w[j]].lruId
    {
      assert w[i] == uses[i] && w[i] in uses;
      if j < |uses| { assert w[j] == uses[j]; }
    }
  }

  lemma OrderOthers(bufs: map<nat, Buf>, uses: seq<nat>, b: nat, buf: Buf)
    requires InOrder(bufs, uses) && b !in uses
    ensures InOrder(bufs[b := buf], uses)
  {
    var w := bufs[b := buf];
    forall i, j | 0 <= i < j < |uses|
      ensures uses[i] in w && uses[j] in w && w[uses[i]].lruId < w[uses[j]].lruId
    {
      assert uses[i] in uses && uses[j] in uses && bufs[uses[i]].lruId < bufs[uses[j]].lruId;
    }
  }

  /** One buffer used. */
  lemma UsesMoved(bufs: map<nat, Buf>, uses: seq<nat>, lruCtr: nat, b: nat, buf: Buf)
    requires UsesOk(bufs, uses, lruCtr) && buf.lruId == lruCtr + 1
    ensures UsesOk(bufs[b := buf], LastUsed(uses, b), lruCtr + 1)
  {
    hide InOrder;
    RemovedInOrder(bufs, uses, b);
    OrderApart(bufs, uses);
    RemovedIs(uses, b);
    OrderOthers(bufs, Removed(uses, b), b, buf);
    OrderEnd(bufs[b := buf], Removed(uses, b), b);
  }

  lemma UsesDropped(bufs: map<nat, Buf>, uses: seq<nat>, lruCtr: nat, b: nat)
    requires UsesOk(bufs, uses, lruCtr)
    ensures UsesOk(bufs - {b}, Removed(uses, b), lruCtr)
  {
    RemovedInOrder(bufs, uses, b);
    OrderApart(bufs, uses);
    RemovedIs(uses, b);
    var w, r := bufs - {b}, Removed(uses, b);
    forall i, j | 0 <= i < j < |r|
      ensures r[i] in w && r[j] in w && w[r[i]].lruId < w[r[j]].lruId
    {
      assert r[i] in r && r[j] in r && bufs[r[i]].lruId < bufs[r[j]].lruId;
    }
  }

  /** The buffer with the lowest number is the one that has not been used for longest. */
  lemma LowestIsOldest(bufs: map<nat, Buf>, uses: seq<nat>, lruCtr: nat, lru: set<nat>, b: nat)
    requires UsesOk(bufs, uses, lruCtr) && LruOk(bufs, lru) && b in lru
    requires forall x :: x in lru ==> x in bufs && bufs[b].lruId <= bufs[x].lruId
    ensures OldestFree(bufs, uses, b)
  {
    assert b in bufs && b in uses;
    var i :| 0 <= i < |uses| && uses[i] == b;
    forall j | 0 <= j < i
      ensures uses[j] in bufs && bufs[uses[j]].refctr > 0
    {
      assert bufs[uses[j]].lruId < bufs[uses[i]].lruId;
      assert uses[j] !in lru;
    }
  }

  lemma {:induction false} StayingAll(uses: seq<nat>, keys: set<nat>)
    requires forall b :: b in uses ==> b in keys
    ensures Staying(uses, keys) == uses
  {
    if uses != [] { StayingAll(uses[1..], keys); }
  }

  lemma {:induction false} StayingWithout(uses: seq<nat>, keys: set<nat>, b: nat)
    requires forall i, j :: 0 <= i < j < |uses| ==> uses[i] != uses[j]
    ensures Staying(uses, keys - {b}) == Removed(Staying(uses, keys), b)
  {
    if uses != [] {
      var t := uses[1..];
      assert forall i :: 0 <= i < |t| ==> t[i] == uses[i + 1];
      StayingWithout(t, keys, b);
      if uses[0] == b {
        StayingNot(t, keys, b);
        assert Staying(uses, keys - {b}) == Staying(t, keys);
        assert b in keys ==> Staying(uses, keys)[1..] == Staying(t, keys);
      } else if uses[0] in keys {
        var all := Staying(uses, keys);
        assert all[0] == uses[0] && all[1..] == Staying(t, keys);
        assert Staying(uses, keys - {b}) == [uses[0]] + Staying(t, keys - {b});
      } else {
        assert Staying(uses, keys) == Staying(t, keys) && Staying(uses, keys - {b}) == Staying(t, keys - {b});
      }
    }
  }

  lemma {:induction false} StayingNot(uses: seq<nat>, keys: set<nat>, b: nat)
    requires b !in uses
    ensures Staying(uses, keys - {b}) == Staying(uses, keys)
  {
    if uses != [] { StayingNot(uses[1..], keys, b); }
  }

  lemma UsesApart(bufs: map<nat, Buf>, uses: seq<nat>, lruCtr: nat)
    requires UsesOk(bufs, uses, lruCtr)
    ensures forall i, j :: 0 <= i < j < |uses| ==> uses[i] != uses[j]
    ensures Staying(uses, bufs.Keys) == uses
  {
    OrderApart(bufs, uses);
    StayingAll(uses, bufs.Keys);
  }

  /** What eviction by number means for the order of use. */
  lemma OlderGone(was: map<nat, Buf>, now: map<nat, Buf>, lru: set<nat>, uses: seq<nat>, lruCtr: nat)
    requires UsesOk(was, uses, lruCtr) && KeptAs(was, now) && Older(was, now, lru) && LruOk(now, lru)
    ensures OldestGone(uses, was, now.Keys, {})
  {
    forall i, j | 0 <= i < j < |uses| && uses[j] !in now && uses[i] in was && was[uses[i]].refctr == 0
      ensures uses[i] !in now
    {
      assert uses[j] in uses && was[uses[i]].lruId < was[uses[j]].lruId;
    }
  }

  /** Using a block after an eviction. */
  lemma UsedAfter(uses: seq<nat>, was: map<nat, Buf>, mid: map<nat, Buf>, now: map<nat, Buf>, uses': seq<nat>, b: nat)
    requires forall i, j :: 0 <= i < j < |uses| ==> uses[i] != uses[j]
    requires OldestGone(uses, was, mid.Keys, {}) && KeptAs(was, mid)
    requires b in now && forall k :: k != b ==> (k in now <==> k in mid)
    requires uses' == if b in mid && mid[b].refctr > 0 then Staying(uses, mid.Keys)
                      else LastUsed(Staying(uses, mid.Keys), b)
    ensures Used(uses, was, now.Keys, uses', b)
  {
    hide OldestGone, LastUsed, Staying, KeptAs;
    assert now.Keys == mid.Keys + {b};
    UsedMoved(uses, mid.Keys, b);
    UsedGone(uses, was, mid.Keys, b);
    KeptReferred(was, mid, b);
    if b in mid { assert mid.Keys + {b} == mid.Keys; }
  }

  lemma UsedMoved(uses: seq<nat>, keys: set<nat>, b: nat)
    requires forall i, j :: 0 <= i < j < |uses| ==> uses[i] != uses[j]
    ensures LastUsed(Staying(uses, keys), b) == LastUsed(Staying(uses, keys + {b}), b)
  {
    StayingWithout(uses, keys, b);
    StayingWithout(uses, keys + {b}, b);
    assert keys + {b} - {b} == keys - {b};
  }

  lemma UsedGone(uses: seq<nat>, was: map<nat, Buf>, keys: set<nat>, b: nat)
    requires OldestGone(uses, was, keys, {})
    ensures OldestGone(uses, was, keys + {b}, {b})
  {
  }

  /** The order after room was made and block b was used: what left had not been used for longest, and b is the last
      one now, unless somebody referred to it already. */
  ghost predicate Used(uses: seq<nat>, was: map<nat, Buf>, keys: set<nat>, uses': seq<nat>, b: nat) {
    && OldestGone(uses, was, keys, {b})
    && uses' == if b in was && was[b].refctr > 0 then Staying(uses, keys) else LastUsed(Staying(uses, keys), b)
  }

  /** One buffer changed, without effect on what readers get. */
  lemma SameView(bufs: map<nat, Buf>, disk: seq<Data>, b: nat, buf: Buf, disk': seq<Data>)
    requires b in bufs && BufsOk(bufs, disk) && BufOk(b, buf, disk')
    requires |disk'| == |disk| && forall k :: 0 <= k < |disk| && k != b ==> disk'[k] == disk[k]
    requires if buf.uptodate then buf.data == View(bufs, disk, b) else disk'[b] == View(bufs, disk, b)
    ensures BufsOk(bufs[b := buf], disk') && SameViews(bufs, disk, bufs[b := buf], disk')
  {
    var w := bufs[b := buf];
    forall k | k in w
      ensures BufOk(k, w[k], disk')
    {
      assert k != b ==> BufOk(k, bufs[k], disk);
    }
  }

  lemma ListWithout(bufs: map<nat, Buf>, list: seq<nat>, b: nat, buf: Buf)
    requires ListOk(bufs, list) && !buf.listed
    ensures ListOk(bufs[b := buf], Removed(list, b)) && |Removed(list, b)| <= |list|
    ensures b in list ==> |Removed(list, b)| < |list|
  {
    RemovedIs(list, b);
  }

  class Cache {
    var bufs: map<nat, Buf>
    var lru: set<nat>
    var list: seq<nat>
    var disk: seq<Data>
    var refBlocks: nat
    var lruCtr: nat
    var writeBack: nat
    const cnt: nat
    /** The cached blocks, the one that has not been used for longest first. */
    ghost var uses: seq<nat>

    constructor (cnt: nat, disk: seq<Data>)
      ensures Valid() && this.cnt == cnt && this.disk == disk && bufs == map[]
    {
      this.cnt, this.disk := cnt, disk;
      bufs, lru, list, refBlocks, lruCtr, writeBack, uses := map[], {}, [], 0, 0, 0, [];
    }

    ghost predicate Valid()
      reads this
    {
      && BufsOk(bufs, disk) && ListOk(bufs, list) && LruOk(bufs, lru) && refBlocks == |bufs|
      && UsesOk(bufs, uses, lruCtr)
    }

    /** ext4_block_flush_buf. */
    method FlushBuf(b: nat)
      requires Valid() && b in bufs
      modifies `bufs, `list, `disk
      ensures Valid() && SameViews(old(bufs), old(disk), bufs, disk)
      ensures bufs == old(bufs)[b := old(bufs)[b].(dirty := false, listed := false)]
      ensures disk == if old(bufs)[b].dirty then old(disk)[b := old(bufs)[b].data] else old(disk)
      ensures |list| <= |old(list)| && (b in old(list) ==> |list| < |old(list)|)
    {
      hide UsesOk, ListOk, LruOk;
      var buf := bufs[b];
      assert BufOk(b, buf, disk);
      if buf.dirty && buf.uptodate {
        var buf' := buf.(dirty := false, listed := false);
        SameView(bufs, disk, b, buf', disk[b := buf.data]);
        ListWithout(bufs, list, b, buf');
        LruSame(bufs, lru, b, buf');
        UsesSame(bufs, uses, lruCtr, b, buf');
        disk := disk[b := buf.data];
        if buf.listed { list := Removed(list, b); } else { NotListed(bufs, list, b, buf'); }
        bufs := bufs[b := buf'];
      } else {
        assert bufs[b := buf] == bufs;
        NotListed(bufs, list, b, buf);
      }
    }

    /** ext4_bcache_drop_buf on a buffer that nobody refers to and that is not dirty. */
    method DropBuf(b: nat)
      requires Valid() && b in bufs && bufs[b].refctr == 0 && !bufs[b].dirty
      modifies `bufs, `lru, `refBlocks, `uses
      ensures Valid() && SameViews(old(bufs), old(disk), bufs, disk)
      ensures bufs == old(bufs) - {b} && lru == old(lru) - {b} && refBlocks + 1 == old(refBlocks)
      ensures uses == Removed(old(uses), b)
    {
      hide UsesOk;
      UsesDropped(bufs, uses, lruCtr, b);
      uses := Removed(uses, b);
      assert BufOk(b, bufs[b], disk);
      Dropped(bufs, disk, list, lru, b);
      lru := lru - {b};
      bufs := bufs - {b};
      refBlocks := refBlocks - 1;
    }

    /** ext4_buf_lowest_lru. */
    method LowestLru() returns (b: nat)
      requires Valid() && lru != {}
      ensures b in lru && b in bufs && forall x :: x in lru ==> x in bufs && bufs[b].lruId <= bufs[x].lruId
      ensures OldestFree(bufs, uses, b)
    {
      hide UsesOk;
      b :| b in lru;
      var rest := lru - {b};
      while rest != {}
        invariant b in lru && rest <= lru
        invariant forall x :: x in lru - rest ==> bufs[b].lruId <= bufs[x].lruId
        decreases rest
      {
        var x :| x in rest;
        if bufs[x].lruId < bufs[b].lruId { b := x; }
        rest := rest - {x};
      }
      LowestIsOldest(bufs, uses, lruCtr, lru, b);
    }

    /** ext4_block_cache_shake: drops the least recently used buffers that nobody refers to, as long as
        there are any and the cache is full. */
    method Shake()
      requires Valid()
      modifies `bufs, `lru, `list, `disk, `refBlocks, `uses
      ensures Valid() && SameViews(old(bufs), old(disk), bufs, disk)
      ensures lru == {} || refBlocks < cnt
      ensures KeptAs(old(bufs), bufs) && OldestGone(old(uses), old(bufs), bufs.Keys, {})
      ensures uses == Staying(old(uses), bufs.Keys)
      ensures if old(refBlocks) < cnt then bufs == old(bufs) && disk == old(disk) else cnt <= refBlocks + 1
      ensures Flushes(old(bufs), old(disk), bufs, disk, {})
      ensures forall b :: b in old(bufs) && old(bufs)[b].refctr > 0 ==>
                b < |disk| == |old(disk)| && disk[b] == old(disk)[b]
    {
      hide UsesOk, BufsOk, ListOk, LruOk, SameViews, KeptAs, Older, Flushes, OldestFree, OldestGone;
      ghost var was, was', order := bufs, disk, uses;
      UsesApart(was, order, lruCtr);
      NoneEvicted(was, lru);
      ViewsRefl(was, was');
      FlushesNot(was, was');
      while lru != {} && cnt <= refBlocks
        invariant Valid() && SameViews(old(bufs), old(disk), bufs, disk)
        invariant KeptAs(was, bufs) && Older(was, bufs, lru) && Flushes(was, was', bufs, disk, {})
        invariant uses == Staying(order, bufs.Keys)
        invariant if old(refBlocks) < cnt then bufs == was && disk == was' else cnt <= refBlocks + 1
        decreases lru
      {
        ghost var now, lru0, now' := bufs, lru, disk;
        var b := Evict();
        ViewsTrans(was, was', now, now', bufs, disk);
        FlushesTrans(was, was', now, now', bufs, disk);
        EvictStep(was, now, bufs, lru0, lru, b);
        StayingWithout(order, now.Keys, b);
      }
      OlderGone(was, bufs, lru, order, lruCtr);
      FlushesPinned(was, was', bufs, disk);
    }

    /** One turn: the least recently used buffer is written if it is dirty, and dropped. */
    method Evict() returns (b: nat)
      requires Valid() && lru != {}
      modifies `bufs, `lru, `list, `disk, `refBlocks, `uses
      ensures Valid() && SameViews(old(bufs), old(disk), bufs, disk)
      ensures OldestFree(old(bufs), old(uses), b) && uses == Removed(old(uses), b) && refBlocks + 1 == old(refBlocks)
      ensures b in old(lru) && b in old(bufs) && old(bufs)[b].refctr == 0
      ensures forall x :: x in old(lru) ==> x in old(bufs) && old(bufs)[b].lruId <= old(bufs)[x].lruId
      ensures lru == old(lru) - {b}
      ensures bufs.Keys == old(bufs).Keys - {b} && forall k :: k in bufs ==> bufs[k] == old(bufs)[k]
      ensures Flushes(old(bufs), old(disk), bufs, disk, {})
    {
      hide UsesOk, BufsOk, ListOk, LruOk, SameViews, Flushes, OldestFree;
      b := LowestLru();
      ghost var now, now' := bufs, disk;
      Unreferenced(now, lru, b);
      BufAt(bufs, disk, b);
      ViewsRefl(now, now');
      FlushesNot(now, now');
      if bufs[b].dirty {
        FlushOne(bufs, disk, b);
        FlushBuf(b);
      }
      ghost var mid, mid' := bufs, disk;
      DropBuf(b);
      FlushDrop(mid, mid', b);
      ViewsTrans(now, now', mid, mid', bufs, disk);
      FlushesTrans(now, now', mid, mid', bufs, disk);
    }

    /** ext4_bcache_find_get. */
    method FindGet(b: nat) returns (found: bool)
      requires Valid()
      modifies `bufs, `lru, `list, `lruCtr, `uses
      ensures Valid() && SameViews(old(bufs), old(disk), bufs, disk)
      ensures found <==> b in old(bufs)
      ensures uses == if found && old(bufs)[b].refctr == 0 then LastUsed(old(uses), b) else old(uses)
      ensures found ==>
        && b in bufs && bufs.Keys == old(bufs).Keys && bufs == old(bufs)[b := bufs[b]]
        && bufs[b].refctr == old(bufs)[b].refctr + 1 && lru == old(lru) - {b}
        && bufs[b].data == old(bufs)[b].data && bufs[b].uptodate == old(bufs)[b].uptodate
        && bufs[b].dirty == old(bufs)[b].dirty
      ensures !found ==> bufs == old(bufs) && lru == old(lru)
    {
      hide UsesOk, ListOk, LruOk, SameViews, BufsOk;
      ViewsRefl(bufs, disk);
      if b !in bufs { return false; }
      var buf := bufs[b];
      BufAt(bufs, disk, b);
      var buf' := buf.(refctr := buf.refctr + 1, listed := false);
      if buf.refctr == 0 {
        UsesMoved(bufs, uses, lruCtr, b, buf'.(lruId := lruCtr + 1));
        lruCtr := lruCtr + 1;
        buf' := buf'.(lruId := lruCtr);
        uses := LastUsed(uses, b);
        ListWithout(bufs, list, b, buf');
        if buf.dirty { list := Removed(list, b); } else { NotListed(bufs, list, b, buf'); }
      } else {
        UsesSame(bufs, uses, lruCtr, b, buf');
        NotListed(bufs, list, b, buf');
      }
      SameView(bufs, disk, b, buf', disk);
      Referred(bufs, lru, b, buf');
      SameSize(bufs, b, buf');
      lru := lru - {b};
      bufs := bufs[b := buf'];
      found := true;
    }

    /** ext4_bcache_alloc: a new buffer has no content yet. */
    method Alloc(b: nat) returns (isNew: bool)
      requires Valid() && b < |disk|
      modifies `bufs, `lru, `list, `lruCtr, `refBlocks, `uses
      ensures Valid() && SameViews(old(bufs), old(disk), bufs, disk)
      ensures uses == if b in old(bufs) && old(bufs)[b].refctr > 0 then old(uses) else LastUsed(old(uses), b)
      ensures b in bufs && bufs[b].refctr == (if b in old(bufs) then old(bufs)[b].refctr else 0) + 1
        && lru == old(lru) - {b}
      ensures isNew <==> b !in old(bufs)
      ensures isNew ==> !bufs[b].uptodate && !bufs[b].dirty
      ensures !isNew ==> bufs[b].data == old(bufs)[b].data && bufs[b].uptodate == old(bufs)[b].uptodate
                         && bufs[b].dirty == old(bufs)[b].dirty
      ensures forall k :: k != b ==> (k in bufs <==> k in old(bufs)) && (k in bufs ==> bufs[k] == old(bufs)[k])
      ensures refBlocks == old(refBlocks) + if isNew then 1 else 0
    {
      hide UsesOk, ListOk, LruOk, SameViews, BufsOk;
      var found := FindGet(b);
      if found { return false; }
      var buf := Buf([], false, false, false, false, 1, lruCtr + 1, false);
      Added(bufs, disk, list, lru, b, buf);
      UsesMoved(bufs, uses, lruCtr, b, buf);
      uses := LastUsed(uses, b);
      assert lru - {b} == lru;
      bufs := bufs[b := buf];
      refBlocks := refBlocks + 1;
      lruCtr := lruCtr + 1;
      isNew := true;
    }

    /** ext4_block_get_noread; afterwards the cache is within its size or every buffer is referred to. */
    method GetNoread(b: nat) returns (ok: bool)
      requires Valid()
      modifies `bufs, `lru, `list, `lruCtr, `refBlocks, `disk, `uses
      ensures Valid() && SameViews(old(bufs), old(disk), bufs, disk)
      ensures ok <==> b < |old(disk)|
      ensures ok ==> Used(old(uses), old(bufs), bufs.Keys, uses, b)
      ensures ok && old(refBlocks) < cnt ==> disk == old(disk) && bufs.Keys == old(bufs).Keys + {b}
      ensures ok ==> b in bufs && bufs[b].refctr > 0 && (refBlocks <= cnt || lru == {})
      ensures Flushes(old(bufs), old(disk), bufs, disk, {b}) && (ok ==> GotAt(old(bufs), old(disk), bufs, disk, b))
      ensures forall k :: k in old(bufs) && old(bufs)[k].refctr > 0 ==>
                k < |disk| == |old(disk)| && disk[k] == old(disk)[k]
    {
      hide UsesOk, ListOk, LruOk, SameViews, BufsOk, KeptAs, Older, FlushedAt, Flushes, GotAt, OldestGone, LastUsed,
           Staying, Used;
      ViewsRefl(bufs, disk);
      UsesApart(bufs, uses, lruCtr);
      ghost var order := uses;
      if b >= |disk| {
        FlushesNot(bufs, disk);
        FlushesOthers(bufs, disk, bufs, disk, bufs, b);
        FlushesPinned(bufs, disk, bufs, disk);
        return false;
      }
      Shake();
      ghost var now, now' := bufs, disk;
      DiskSize(old(bufs), old(disk), now, now');
      var isNew := Alloc(b);
      UsedAfter(order, old(bufs), now, bufs, uses, b);
      ViewsTrans(old(bufs), old(disk), now, now', bufs, disk);
      FlushesOthers(old(bufs), old(disk), now, now', bufs, b);
      FlushesAt(old(bufs), old(disk), now, now', b);
      GotFrom(old(bufs), old(disk), now, now', bufs, b);
      ok := true;
    }

    /** ext4_block_get: the buffer has what a reader of the block gets. */
    method Get(b: nat) returns (ok: bool)
      requires Valid()
      modifies `bufs, `lru, `list, `lruCtr, `refBlocks, `disk, `uses
      ensures Valid() && SameViews(old(bufs), old(disk), bufs, disk)
      ensures ok <==> b < |old(disk)|
      ensures ok ==> Used(old(uses), old(bufs), bufs.Keys, uses, b)
      ensures ok && old(refBlocks) < cnt ==> disk == old(disk) && bufs.Keys == old(bufs).Keys + {b}
      ensures ok ==>
        && b in bufs && bufs[b].refctr > 0 && bufs[b].uptodate && (refBlocks <= cnt || lru == {})
        && bufs[b].data == View(old(bufs), old(disk), b)
      ensures Flushes(old(bufs), old(disk), bufs, disk, {b}) && (ok ==> GotAt(old(bufs), old(disk), bufs, disk, b))
      ensures forall k :: k in old(bufs) && old(bufs)[k].refctr > 0 ==>
                k < |disk| == |old(disk)| && disk[k] == old(disk)[k]
    {
      hide UsesOk, ListOk, LruOk, BufsOk, Flushes, FlushedAt, GotAt, SameViews, View, Used;
      ok := GetNoread(b);
      if ok {
        ghost var mid := bufs;
        DiskSize(old(bufs), old(disk), mid, disk);
        ViewIs(old(bufs), old(disk), mid, disk, b);
        Fill(b);
        assert bufs.Keys == mid.Keys;
        ViewsTrans(old(bufs), old(disk), mid, disk, bufs, disk);
        FlushesFill(old(bufs), old(disk), mid, disk, b, bufs[b]);
      }
    }

    /** The content of a buffer that has none is read from the disk. */
    method Fill(b: nat)
      requires Valid() && b in bufs
      modifies `bufs
      ensures Valid() && SameViews(old(bufs), disk, bufs, disk)
      ensures b in bufs && b < |disk| && bufs == old(bufs)[b := bufs[b]] && bufs[b].uptodate
        && bufs[b].data == View(old(bufs), disk, b)
      ensures bufs[b].refctr == old(bufs)[b].refctr && bufs[b].dirty == old(bufs)[b].dirty
      ensures old(bufs)[b].dirty ==> bufs[b].data == old(bufs)[b].data
    {
      hide UsesOk, ListOk, LruOk, BufsOk, SameViews;
      BufAt(bufs, disk, b);
      if bufs[b].uptodate {
        ViewsRefl(bufs, disk);
        assert bufs[b := bufs[b]] == bufs;
      } else {
        Replace(b, bufs[b].(data := disk[b], uptodate := true));
      }
    }

    /** New content written into a buffer somebody refers to, and ext4_bcache_set_dirty. */
    method Modify(b: nat, data: Data)
      requires Valid() && b in bufs && bufs[b].refctr > 0
      modifies `bufs
      ensures Valid() && b in old(bufs)
        && bufs == old(bufs)[b := old(bufs)[b].(data := data, uptodate := true, dirty := true)]
      ensures forall k :: 0 <= k < |disk| ==> View(bufs, disk, k) == if k == b then data else View(old(bufs), disk, k)
    {
      hide UsesOk, ListOk, LruOk;
      assert BufOk(b, bufs[b], disk);
      var buf := bufs[b].(data := data, uptodate := true, dirty := true);
      NotListed(bufs, list, b, buf);
      LruSame(bufs, lru, b, buf);
      UsesSame(bufs, uses, lruCtr, b, buf);
      SameSize(bufs, b, buf);
      ghost var was := bufs;
      bufs := bufs[b := buf];
      forall k | k in bufs
        ensures BufOk(k, bufs[k], disk)
      {
        assert k != b ==> BufOk(k, was[k], disk);
      }
    }

    /** ext4_bcache_free. The last one to refer to a dirty buffer puts it on the list when write-back is on
        and the buffer is not marked for flushing or as temporary, and writes it otherwise. */
    method Put(b: nat)
      requires Valid() && b in bufs && bufs[b].refctr > 0
      modifies `bufs, `lru, `list, `disk, `refBlocks, `uses
      ensures uses == if b in bufs then old(uses) else Removed(old(uses), b)
      ensures Valid() && SameViews(old(bufs), old(disk), bufs, disk)
      ensures forall k :: k != b ==> (k in bufs <==> k in old(bufs)) && (k in bufs ==> bufs[k] == old(bufs)[k])
      ensures old(bufs)[b].refctr > 1 ==>
        bufs == old(bufs)[b := old(bufs)[b].(refctr := old(bufs)[b].refctr - 1)] && disk == old(disk)
      ensures old(bufs)[b].refctr == 1 ==>
        && (b in bufs <==> old(bufs)[b].uptodate && !old(bufs)[b].tmp)
        && (b in bufs ==> bufs[b].refctr == 0 && bufs[b].data == old(bufs)[b].data
                          && (bufs[b].dirty <==> old(bufs)[b].dirty && writeBack > 0 && !old(bufs)[b].flush))
        && (writeBack == 0 || old(bufs)[b].flush || old(bufs)[b].tmp ==>
              b < |disk| && disk[b] == View(old(bufs), old(disk), b))
        && disk == if old(bufs)[b].dirty && (writeBack == 0 || old(bufs)[b].flush || old(bufs)[b].tmp)
                   then old(disk)[b := old(bufs)[b].data] else old(disk)
    {
      hide UsesOk, ListOk, LruOk, SameViews, BufsOk;
      var buf := bufs[b];
      BufAt(bufs, disk, b);
      if buf.refctr > 1 {
        Replace(b, buf.(refctr := buf.refctr - 1));
        return;
      }
      if buf.dirty && buf.uptodate && writeBack > 0 && !buf.flush && !buf.tmp {
        Enqueue(b);
      } else {
        WriteOut(b);
      }
      if !bufs[b].uptodate || bufs[b].tmp {
        ghost var now, now' := bufs, disk;
        DropBuf(b);
        ViewsTrans(old(bufs), old(disk), now, now', bufs, disk);
      }
    }

    /** ext4_bcache_inc_ref on a buffer that somebody refers to already. */
    method Pin(b: nat)
      requires Valid() && b in bufs && bufs[b].refctr > 0
      modifies `bufs
      ensures Valid() && SameViews(old(bufs), old(disk), bufs, disk)
      ensures bufs == old(bufs)[b := old(bufs)[b].(refctr := old(bufs)[b].refctr + 1)]
    {
      hide UsesOk, ListOk, LruOk, SameViews, BufsOk;
      BufAt(bufs, disk, b);
      Replace(b, bufs[b].(refctr := bufs[b].refctr + 1));
    }

    /** ext4_blocks_set_direct: a block is written past its buffer. A buffer that is up to date and clean is out
        of date afterwards, unless it had that content already. */
    method WriteDirect(b: nat, data: Data)
      requires Valid() && b < |disk|
      modifies `disk
      ensures disk == old(disk)[b := data]
      ensures Valid() <==> (b in bufs && bufs[b].uptodate && !bufs[b].dirty ==> bufs[b].data == data)
      ensures forall k :: 0 <= k < |disk| ==>
        View(bufs, disk, k) == if k == b && !(b in bufs && bufs[b].uptodate) then data else View(bufs, old(disk), k)
    {
      disk := disk[b := data];
      if b in bufs {
        assert BufOk(b, bufs[b], disk) <==> (bufs[b].uptodate && !bufs[b].dirty ==> bufs[b].data == data);
      }
    }

    /** The last reference to a dirty buffer goes, and the buffer waits on the list. */
    method Enqueue(b: nat)
      requires Valid() && b in bufs && bufs[b].refctr == 1 && bufs[b].dirty
      modifies `bufs, `lru, `list
      ensures Valid() && SameViews(old(bufs), old(disk), bufs, disk)
      ensures bufs == old(bufs)[b := old(bufs)[b].(refctr := 0, listed := true)]
    {
      hide UsesOk, ListOk, LruOk, SameViews, BufsOk;
      BufAt(bufs, disk, b);
      var buf := bufs[b].(refctr := 0, listed := true);
      SameView(bufs, disk, b, buf, disk);
      SameSize(bufs, b, buf);
      UsesSame(bufs, uses, lruCtr, b, buf);
      Listed(bufs, list, lru, b, buf);
      list := [b] + list;
      lru := lru + {b};
      bufs := bufs[b := buf];
    }

    /** The last reference goes, and the content is written if it has to be. */
    method WriteOut(b: nat)
      requires Valid() && b in bufs && bufs[b].refctr == 1
      modifies `bufs, `lru, `list, `disk
      ensures Valid() && SameViews(old(bufs), old(disk), bufs, disk)
      ensures var buf := old(bufs)[b];
        && bufs == old(bufs)[b := buf.(refctr := 0, dirty := false, listed := false, flush := !buf.dirty && buf.flush)]
        && disk == if buf.dirty then old(disk)[b := buf.data] else old(disk)
      ensures b < |disk| && disk[b] == View(old(bufs), old(disk), b)
    {
      hide UsesOk, ListOk, LruOk, SameViews, BufsOk;
      BufAt(bufs, disk, b);
      var buf := bufs[b];
      FlushBuf(b);
      ghost var now, now' := bufs, disk;
      BufAt(bufs, disk, b);
      var buf' := bufs[b].(refctr := 0, flush := !buf.dirty && buf.flush);
      SameView(bufs, disk, b, buf', disk);
      SameSize(bufs, b, buf');
      NotListed(bufs, list, b, buf');
      UsesSame(bufs, uses, lruCtr, b, buf');
      Released(bufs, lru, b, buf');
      lru := lru + {b};
      bufs := bufs[b := buf'];
      ViewsTrans(old(bufs), old(disk), now, now', bufs, disk);
    }

    /** One buffer rewritten that keeps its place. */
    method Replace(b: nat, buf: Buf)
      requires Valid() && b in bufs && BufOk(b, buf, disk) && buf.listed == bufs[b].listed && buf.lruId == bufs[b].lruId
      requires (buf.refctr == 0 <==> bufs[b].refctr == 0) && b < |disk|
      requires if buf.uptodate then buf.data == View(bufs, disk, b) else disk[b] == View(bufs, disk, b)
      modifies `bufs
      ensures Valid() && bufs == old(bufs)[b := buf] && SameViews(old(bufs), old(disk), bufs, disk)
    {
      hide UsesOk, ListOk, LruOk, BufsOk, SameViews;
      SameView(bufs, disk, b, buf, disk);
      SameSize(bufs, b, buf);
      NotListed(bufs, list, b, buf);
      LruSame(bufs, lru, b, buf);
      UsesSame(bufs, uses, lruCtr, b, buf);
      bufs := bufs[b := buf];
    }

    /** ext4_block_cache_flush. */
    method CacheFlush()
      requires Valid()
      modifies `bufs, `list, `disk
      ensures Valid() && SameViews(old(bufs), old(disk), bufs, disk)
      ensures list == [] && forall b :: b in bufs && bufs[b].refctr == 0 ==>
                b < |disk| && disk[b] == View(bufs, disk, b)
      ensures Flushes(old(bufs), old(disk), bufs, disk, {}) && bufs.Keys == old(bufs).Keys
      ensures forall b :: b in old(bufs) && old(bufs)[b].refctr > 0 ==>
                b < |disk| == |old(disk)| && disk[b] == old(disk)[b]
    {
      hide UsesOk, ListOk, LruOk, SameViews, BufsOk, View, Flushes;
      ViewsRefl(bufs, disk);
      FlushesNot(bufs, disk);
      while list != []
        invariant Valid() && SameViews(old(bufs), old(disk), bufs, disk)
        invariant Flushes(old(bufs), old(disk), bufs, disk, {}) && bufs.Keys == old(bufs).Keys
        decreases |list|
      {
        ghost var now, now' := bufs, disk;
        var b := list[0];
        OnList(bufs, disk, list, b);
        FlushOne(bufs, disk, b);
        SameSize(bufs, b, bufs[b].(dirty := false, listed := false));
        FlushBuf(b);
        ViewsTrans(old(bufs), old(disk), now, now', bufs, disk);
        FlushesTrans(old(bufs), old(disk), now, now', bufs, disk);
      }
      NothingListed(bufs, disk, list);
      FlushesPinned(old(bufs), old(disk), bufs, disk);
    }

    /** ext4_block_cache_write_back: turning it off for the last time writes what is waiting. */
    method WriteBack(on: bool)
      requires Valid()
      modifies `bufs, `list, `disk, `writeBack
      ensures Valid() && SameViews(old(bufs), old(disk), bufs, disk)
      ensures writeBack == if on then old(writeBack) + 1 else if old(writeBack) > 0 then old(writeBack) - 1 else 0
      ensures writeBack == 0 ==>
        list == [] && forall b :: b in bufs && bufs[b].refctr == 0 ==> b < |disk| && disk[b] == View(bufs, disk, b)
      ensures Flushes(old(bufs), old(disk), bufs, disk, {}) && bufs.Keys == old(bufs).Keys
      ensures forall b :: b in old(bufs) && old(bufs)[b].refctr > 0 ==>
                b < |disk| == |old(disk)| && disk[b] == old(disk)[b]
      ensures writeBack > 0 ==> bufs == old(bufs) && disk == old(disk)
    {
      hide UsesOk, ListOk, LruOk, SameViews, BufsOk, View, Flushes;
      ViewsRefl(bufs, disk);
      FlushesNot(bufs, disk);
      FlushesPinned(bufs, disk, bufs, disk);
      if on { writeBack := writeBack + 1; }
      if !on && writeBack > 0 { writeBack := writeBack - 1; }
      if writeBack > 0 { return; }
      CacheFlush();
    }

    /** ext4_bcache_invalidate_lba: forgets the content of the cached blocks of a range, if the first one
        is cached. */
    method Invalidate(from: nat, n: nat)
      requires Valid()
      modifies `bufs, `list
      ensures Valid() && bufs.Keys == old(bufs).Keys
      ensures forall k :: 0 <= k < |disk| ==>
        View(bufs, disk, k) ==
          if from in old(bufs) && from <= k < from + n then disk[k] else View(old(bufs), disk, k)
    {
      hide UsesOk, ListOk, LruOk, BufsOk, View;
      if from !in bufs { return; }
      var b := from;
      ghost var was := bufs;
      while b < from + n
        invariant from <= b <= from + n
        invariant Valid() && bufs.Keys == was.Keys
        invariant forall k :: 0 <= k < |disk| ==>
                    View(bufs, disk, k) == if from <= k < b then disk[k] else View(was, disk, k)
      {
        if b in bufs { Forget(b); } else { NotCached(bufs, disk, b); }
        b := b + 1;
      }
    }

    /** ext4_bcache_invalidate_buf. */
    method Forget(b: nat)
      requires Valid() && b in bufs
      modifies `bufs, `list
      ensures Valid() && bufs.Keys == old(bufs).Keys
      ensures bufs == old(bufs)[b := old(bufs)[b].(uptodate := false, dirty := false, listed := false)]
      ensures forall k :: 0 <= k < |disk| ==>
                View(bufs, disk, k) == if k == b then disk[k] else View(old(bufs), disk, k)
    {
      hide UsesOk, ListOk, LruOk;
      var buf := bufs[b].(uptodate := false, dirty := false, listed := false);
      assert BufOk(b, bufs[b], disk);
      ListWithout(bufs, list, b, buf);
      if bufs[b].listed { list := Removed(list, b); } else { NotListed(bufs, list, b, buf); }
      LruSame(bufs, lru, b, buf);
      UsesSame(bufs, uses, lruCtr, b, buf);
      SameSize(bufs, b, buf);
      ghost var was := bufs;
      bufs := bufs[b := buf];
      forall k | k in bufs
        ensures BufOk(k, bufs[k], disk)
      {
        assert k != b ==> BufOk(k, was[k], disk);
      }
    }
  }

  lemma KeptReferred(was: map<nat, Buf>, now: map<nat, Buf>, b: nat)
    requires KeptAs(was, now)
    ensures b in was && was[b].refctr > 0 <==> b in now && now[b].refctr > 0
  {
  }

  lemma NotCached(bufs: map<nat, Buf>, disk: seq<Data>, b: nat)
    requires b !in bufs
    ensures b < |disk| ==> View(bufs, disk, b) == disk[b]
  {
  }

  lemma BufAt(bufs: map<nat, Buf>, disk: seq<Data>, b: nat)
    requires BufsOk(bufs, disk) && b in bufs
    ensures BufOk(b, bufs[b], disk)
  {
  }

  lemma Referred(bufs: map<nat, Buf>, lru: set<nat>, b: nat, buf: Buf)
    requires LruOk(bufs, lru) && b in bufs && buf.refctr > 0
    ensures LruOk(bufs[b := buf], lru - {b})
  {
  }

  lemma Released(bufs: map<nat, Buf>, lru: set<nat>, b: nat, buf: Buf)
    requires LruOk(bufs, lru) && b in bufs && buf.refctr == 0
    ensures LruOk(bufs[b := buf], lru + {b})
  {
  }

  lemma SameSize(bufs: map<nat, Buf>, b: nat, buf: Buf)
    requires b in bufs
    ensures |bufs[b := buf]| == |bufs| && bufs[b := buf].Keys == bufs.Keys
  {
    assert bufs[b := buf].Keys == bufs.Keys;
  }

  lemma Added(bufs: map<nat, Buf>, disk: seq<Data>, list: seq<nat>, lru: set<nat>, b: nat, buf: Buf)
    requires BufsOk(bufs, disk) && ListOk(bufs, list) && LruOk(bufs, lru) && b !in bufs && b < |disk|
    requires buf.refctr > 0 && !buf.uptodate && !buf.dirty && !buf.listed
    ensures BufsOk(bufs[b := buf], disk) && ListOk(bufs[b := buf], list) && LruOk(bufs[b := buf], lru) && b !in lru
    ensures |bufs[b := buf]| == |bufs| + 1
    ensures SameViews(bufs, disk, bufs[b := buf], disk)
  {
    var w := bufs[b := buf];
    forall k | k in w
      ensures BufOk(k, w[k], disk)
    {
      assert k != b ==> BufOk(k, bufs[k], disk);
    }
    assert w.Keys == bufs.Keys + {b};
  }

  lemma DiskSize(b0: map<nat, Buf>, d0: seq<Data>, b1: map<nat, Buf>, d1: seq<Data>)
    requires SameViews(b0, d0, b1, d1)
    ensures |d0| == |d1|
  {
  }

  lemma Listed(bufs: map<nat, Buf>, list: seq<nat>, lru: set<nat>, b: nat, buf: Buf)
    requires ListOk(bufs, list) && LruOk(bufs, lru) && b in bufs && !bufs[b].listed && buf.listed && buf.refctr == 0
    ensures ListOk(bufs[b := buf], [b] + list) && LruOk(bufs[b := buf], lru + {b})
  {
    var w := [b] + list;
    assert forall i :: 0 < i < |w| ==> w[i] == list[i - 1];
  }

  lemma OnList(bufs: map<nat, Buf>, disk: seq<Data>, list: seq<nat>, b: nat)
    requires ListOk(bufs, list) && BufsOk(bufs, disk) && b in list
    ensures b in bufs && bufs[b].refctr == 0 && bufs[b].dirty && b < |disk|
  {
    BufAt(bufs, disk, b);
  }

  lemma ViewIs(bufs: map<nat, Buf>, disk: seq<Data>, bufs': map<nat, Buf>, disk': seq<Data>, b: nat)
    requires SameViews(bufs, disk, bufs', disk') && b < |disk|
    ensures |disk'| == |disk| && View(bufs', disk', b) == View(bufs, disk, b)
  {
  }

  lemma FlushesAt(bufs: map<nat, Buf>, disk: seq<Data>, bufs': map<nat, Buf>, disk': seq<Data>, b: nat)
    requires Flushes(bufs, disk, bufs', disk', {}) && b < |disk|
    ensures |disk'| == |disk| && FlushedAt(bufs, disk, bufs', disk', b)
  {
  }

  /** Reading a buffer in changes nothing of this. */
  lemma FlushesFill(bufs: map<nat, Buf>, disk: seq<Data>, mid: map<nat, Buf>, disk': seq<Data>, b: nat, buf: Buf)
    requires Flushes(bufs, disk, mid, disk', {b}) && b < |disk| && GotAt(bufs, disk, mid, disk', b)
    requires buf.refctr == mid[b].refctr && buf.dirty == mid[b].dirty && (buf.dirty ==> buf.data == mid[b].data)
    ensures Flushes(bufs, disk, mid[b := buf], disk', {b}) && GotAt(bufs, disk, mid[b := buf], disk', b)
  {
    hide FlushedAt;
    var w := mid[b := buf];
    forall k | 0 <= k < |disk| && k != b
      ensures FlushedAt(bufs, disk, w, disk', k)
    {
      assert FlushedAt(bufs, disk, mid, disk', k);
      FlushedSame(bufs, disk, mid, disk', w, k);
    }
  }

  lemma NothingListed(bufs: map<nat, Buf>, disk: seq<Data>, list: seq<nat>)
    requires BufsOk(bufs, disk) && ListOk(bufs, list) && list == []
    ensures forall b :: b in bufs && bufs[b].refctr == 0 ==> b < |disk| && disk[b] == View(bufs, disk, b)
  {
    forall b | b in bufs && bufs[b].refctr == 0
      ensures b < |disk| && disk[b] == View(bufs, disk, b)
    {
      assert BufOk(b, bufs[b], disk);
      assert b !in list;
    }
  }

  /** The buffers that are left are as they were, and those referred to are left. */
  ghost predicate KeptAs(was: map<nat, Buf>, now: map<nat, Buf>) {
    && (forall b :: b in now ==> b in was && now[b] == was[b])
    && forall b :: b in was && was[b].refctr > 0 ==> b in now
  }

  /** Those that are gone were used no later than those that are left and not referred to. */
  ghost predicate Older(was: map<nat, Buf>, now: map<nat, Buf>, lru: set<nat>) {
    forall x, y :: x in was && x !in now && y in lru && y in was ==> was[x].lruId <= was[y].lruId
  }

  lemma NoneEvicted(was: map<nat, Buf>, lru: set<nat>)
    ensures KeptAs(was, was) && Older(was, was, lru)
  {
  }

  lemma Unreferenced(bufs: map<nat, Buf>, lru: set<nat>, b: nat)
    requires LruOk(bufs, lru) && b in lru
    ensures b in bufs && bufs[b].refctr == 0
  {
  }

  lemma LruSame(bufs: map<nat, Buf>, lru: set<nat>, b: nat, buf: Buf)
    requires LruOk(bufs, lru) && b in bufs && (buf.refctr == 0 <==> bufs[b].refctr == 0)
    ensures LruOk(bufs[b := buf], lru)
  {
  }

  lemma NotListed(bufs: map<nat, Buf>, list: seq<nat>, b: nat, buf: Buf)
    requires ListOk(bufs, list) && b in bufs && buf.listed == bufs[b].listed
    ensures ListOk(bufs[b := buf], list) && (b in list <==> bufs[b].listed)
  {
  }

  lemma Dropped(bufs: map<nat, Buf>, disk: seq<Data>, list: seq<nat>, lru: set<nat>, b: nat)
    requires BufsOk(bufs, disk) && ListOk(bufs, list) && LruOk(bufs, lru) && b in bufs
    requires bufs[b].refctr == 0 && !bufs[b].dirty
    ensures BufsOk(bufs - {b}, disk) && ListOk(bufs - {b}, list) && LruOk(bufs - {b}, lru - {b})
    ensures |bufs - {b}| + 1 == |bufs|
    ensures SameViews(bufs, disk, bufs - {b}, disk)
  {
    assert BufOk(b, bufs[b], disk);
    var w := bufs - {b};
    forall k | k in w
      ensures BufOk(k, w[k], disk)
    {
      assert BufOk(k, bufs[k], disk);
    }
    assert (bufs - {b}).Keys == bufs.Keys - {b};
    assert |bufs.Keys| == |bufs.Keys - {b}| + 1;
  }

  lemma EvictStep(was: map<nat, Buf>, now: map<nat, Buf>, after: map<nat, Buf>, lru0: set<nat>, lru: set<nat>, b: nat)
    requires KeptAs(was, now) && Older(was, now, lru0)
    requires b in lru0 && lru == lru0 - {b} && b in now && now[b].refctr == 0
    requires forall x :: x in lru0 ==> x in now && now[b].lruId <= now[x].lruId
    requires after.Keys == now.Keys - {b} && forall k :: k in after ==> after[k] == now[k]
    ensures KeptAs(was, after) && Older(was, after, lru)
  {
  }
}
