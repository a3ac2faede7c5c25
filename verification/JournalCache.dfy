/** The journal over the block cache: buffers of the running transaction are dirty buffers that the journal
    refers to, and whatever the cache evicts, flushes or writes on release is a checkpoint write of a
    committed block. */
module JournalCache {
  import opened JournalFormat
  import opened JournalRecovery
  import opened JournalProtocol
  import opened JournalInvariant
  import opened JournalRestart
  import opened JournalTheorems
  import opened JournalQueue
  import BlockCache

  type Bufs = map<nat, BlockCache.Buf>
  type Blocks = seq<BlockCache.Data>

  predicate IsDirty(bufs: Bufs, b: nat) { b in bufs && bufs[b].dirty }

  predicate Clean(bufs: Bufs, b: nat) { b in bufs && bufs[b].uptodate && !bufs[b].dirty }

  /** The buffer of a block is dirty exactly if the block is in the journal's charge, and has that content. */
  ghost predicate DirtyAt(bufs: Bufs, cache: map<nat, Block>, open: map<nat, Block>, b: nat) {
    && (IsDirty(bufs, b) <==> b in cache || b in open)
    && (b in cache ==> b in bufs && bufs[b].data == cache[b])
    && (b in open ==> b in bufs && bufs[b].data == open[b])
  }

  /** In the middle of an abort the buffers of `todo` are clean, whatever the journal says. */
  ghost predicate DirtyOk(bufs: Bufs, cache: map<nat, Block>, open: map<nat, Block>, todo: set<nat>) {
    && (forall b :: b !in todo ==> DirtyAt(bufs, cache, open, b))
    && (forall b :: b in todo ==> !IsDirty(bufs, b))
  }

  ghost predicate HomeIs(home: map<nat, Block>, disk: Blocks) {
    && (forall b: nat :: b in home <==> b < |disk|)
    && (forall b: nat :: b in home ==> home[b] == disk[b])
  }

  /** Each jbd_buf in `held` is one reference to the buffer of its block. */
  ghost predicate Pinned(bufs: Bufs, held: seq<nat>) {
    forall b :: b in held ==> b in bufs && multiset(held)[b] <= bufs[b].refctr
  }

  /** What the running transaction has touched it holds. */
  predicate HeldOk(held: seq<nat>, open: map<nat, Block>, touched: set<nat>, cache: map<nat, Block>) {
    && (forall b :: b in touched ==> b in held && b !in cache)
    && (forall b :: b in open ==> b in touched)
  }

  ghost predicate LinkedAt(s: State, bufs: Bufs, disk: Blocks, held: seq<nat>, todo: set<nat>) {
    && Shape(s) && HomeIs(s.disk.home, disk) && DirtyOk(bufs, s.cache, s.open, todo)
    && Pinned(bufs, held) && HeldOk(held, s.open, s.touched, s.cache)
  }

  // ------------------------------------------------------- writes of the cache

  /** What a cache operation may have done to a block: nothing is made dirty, and a buffer that is no longer
      dirty has been written. */
  ghost predicate SettledAt(bufs: Bufs, disk: Blocks, bufs': Bufs, disk': Blocks, b: nat)
    requires b < |disk| == |disk'|
  {
    if IsDirty(bufs, b) && !IsDirty(bufs', b) then disk'[b] == bufs[b].data
    else disk'[b] == disk[b] && (IsDirty(bufs', b) ==> IsDirty(bufs, b) && bufs'[b].data == bufs[b].data)
  }

  ghost predicate Settles(bufs: Bufs, disk: Blocks, bufs': Bufs, disk': Blocks) {
    |disk'| == |disk| && forall b :: 0 <= b < |disk| ==> SettledAt(bufs, disk, bufs', disk', b)
  }

  lemma FlushesSettle(bufs: Bufs, disk: Blocks, bufs': Bufs, disk': Blocks)
    requires BlockCache.Flushes(bufs, disk, bufs', disk', {}) && BlockCache.BufsOk(bufs, disk)
    ensures Settles(bufs, disk, bufs', disk')
    ensures forall b :: b in bufs && bufs[b].refctr > 0 ==> b in bufs' && bufs'[b] == bufs[b]
  {
    hide BlockCache.FlushedAt;
    forall b | 0 <= b < |disk|
      ensures SettledAt(bufs, disk, bufs', disk', b)
    {
      FlushedSettles(bufs, disk, bufs', disk', b);
    }
    BlockCache.FlushesPinned(bufs, disk, bufs', disk');
  }

  lemma FlushedSettles(bufs: Bufs, disk: Blocks, bufs': Bufs, disk': Blocks, b: nat)
    requires b < |disk| == |disk'| && BlockCache.FlushedAt(bufs, disk, bufs', disk', b)
    ensures SettledAt(bufs, disk, bufs', disk', b)
  {
  }

  /** Asking for block x: the others are evicted or not, and x may have been in between. */
  lemma GetSettles(bufs: Bufs, disk: Blocks, bufs': Bufs, disk': Blocks, x: nat)
    requires BlockCache.Flushes(bufs, disk, bufs', disk', {x}) && BlockCache.BufsOk(bufs, disk)
    requires x < |disk| ==> BlockCache.GotAt(bufs, disk, bufs', disk', x)
    ensures Settles(bufs, disk, bufs', disk')
    ensures forall b :: b in bufs && bufs[b].refctr > 0 ==>
      b in bufs' && bufs'[b].refctr >= bufs[b].refctr && bufs'[b].dirty == bufs[b].dirty
  {
    hide BlockCache.FlushedAt;
    forall b | 0 <= b < |disk|
      ensures SettledAt(bufs, disk, bufs', disk', b)
    {
      if b != x { FlushedSettles(bufs, disk, bufs', disk', b); }
    }
    forall b | b in bufs && bufs[b].refctr > 0
      ensures b in bufs' && bufs'[b].refctr >= bufs[b].refctr && bufs'[b].dirty == bufs[b].dirty
    {
      BlockCache.BufAt(bufs, disk, b);
      if b != x { BlockCache.PinnedAt(bufs, disk, bufs', disk', b); }
    }
  }

  /** The committed blocks that a cache operation has written. */
  function WrittenBy(cache: map<nat, Block>, bufs: Bufs, todo: set<nat>): set<nat> {
    set b | b in cache && !IsDirty(bufs, b) && b !in todo
  }

  /** The state after the cached version of each of these blocks has reached the disk. */
  function FlushAll(s: State, f: set<nat>): State {
    s.(disk := s.disk.(home := s.disk.home + map b | b in f && b in s.cache :: s.cache[b]),
       cache := s.cache - f, pending := Without(s.pending, f))
  }

  /** It is reached by steps of the journal. */
  lemma {:induction false} FlushMany(s: State, f: set<nat>) returns (steps: seq<Step>)
    requires Shape(s) && f <= s.cache.Keys
    ensures Runs(s, steps, FlushAll(s, f), true) && Shape(FlushAll(s, f))
    decreases |f|
  {
    hide Runs, Shape, Orderly;
    if f == {} {
      steps := [];
      RunsNowhere(s);
      FlushNothing(s);
    } else {
      var b :| b in f;
      var step := FlushCached(b);
      FlushCachedEnabled(s, b);
      ShapeKeeps(s, step);
      RunsStep(s, step);
      var t := Apply(s, step);
      var more := FlushMany(t, f - {b});
      FlushOneMore(s, t, f, b);
      RunsOn(s, [step], t, more, FlushAll(s, f), true, true);
      steps := [step] + more;
    }
  }

  lemma FlushCachedEnabled(s: State, b: nat)
    requires Shape(s) && b in s.cache
    ensures Enabled(s, FlushCached(b)) && Orderly(s, FlushCached(b))
  {
  }

  lemma FlushNothing(s: State)
    ensures FlushAll(s, {}) == s
  {
    var f: set<nat> := {};
    assert s.disk.home + (map b | b in f && b in s.cache :: s.cache[b]) == s.disk.home && s.cache - f == s.cache;
    WithoutNothing(s.pending);
  }

  lemma FlushOneMore(s: State, t: State, f: set<nat>, b: nat)
    requires b in f && f <= s.cache.Keys
    requires t == s.(disk := s.disk.(home := s.disk.home[b := s.cache[b]]), cache := s.cache - {b},
      pending := Without(s.pending, {b}))
    ensures FlushAll(t, f - {b}) == FlushAll(s, f) && f - {b} <= t.cache.Keys
  {
    var g := f - {b};
    assert t.disk.home + (map x | x in g && x in t.cache :: t.cache[x]) ==
           s.disk.home + (map x | x in f && x in s.cache :: s.cache[x]);
    assert t.cache - g == s.cache - f;
    WithoutBoth(s.pending, {b}, g);
    assert {b} + g == f;
  }

  /** The link after a cache operation that left the buffers of the running transaction dirty. */
  lemma CacheLink(s: State, bufs: Bufs, disk: Blocks, bufs': Bufs, disk': Blocks, held: seq<nat>, todo: set<nat>)
    requires LinkedAt(s, bufs, disk, held, todo) && Settles(bufs, disk, bufs', disk')
    requires Pinned(bufs', held) && forall b :: b in s.open && b !in todo ==> IsDirty(bufs', b)
    requires forall b :: b in bufs' || b in bufs ==> b < |disk|
    ensures var f := WrittenBy(s.cache, bufs', todo);
      f <= s.cache.Keys && (Shape(FlushAll(s, f)) ==> LinkedAt(FlushAll(s, f), bufs', disk', held, todo))
  {
    hide Shape, SettledAt, DirtyAt, IsDirty;
    var f := WrittenBy(s.cache, bufs', todo);
    var t := FlushAll(s, f);
    forall b: nat
      ensures b in t.disk.home <==> b < |disk'|
      ensures b in t.disk.home ==> t.disk.home[b] == disk'[b]
      ensures if b in todo then !IsDirty(bufs', b) else DirtyAt(bufs', t.cache, t.open, b)
    {
      if b < |disk| {
        assert SettledAt(bufs, disk, bufs', disk', b);
        BlockLink(s, bufs, disk, bufs', disk', todo, b);
      } else {
        FarLink(bufs, bufs', s.cache, t.cache, s.open, todo, b);
      }
    }
  }

  lemma FarLink(bufs: Bufs, bufs': Bufs, cache: map<nat, Block>, cache': map<nat, Block>, open: map<nat, Block>,
                todo: set<nat>, b: nat)
    requires b !in bufs && b !in bufs' && (b in cache' ==> b in cache)
    requires if b in todo then !IsDirty(bufs, b) else DirtyAt(bufs, cache, open, b)
    ensures if b in todo then !IsDirty(bufs', b) else DirtyAt(bufs', cache', open, b)
    ensures b !in todo ==> b !in cache
  {
  }

  lemma BlockLink(s: State, bufs: Bufs, disk: Blocks, bufs': Bufs, disk': Blocks, todo: set<nat>, b: nat)
    requires b < |disk| == |disk'| && SettledAt(bufs, disk, bufs', disk', b) && HomeIs(s.disk.home, disk)
    requires if b in todo then !IsDirty(bufs, b) else DirtyAt(bufs, s.cache, s.open, b)
    requires b in s.open && b !in todo ==> IsDirty(bufs', b)
    ensures var t := FlushAll(s, WrittenBy(s.cache, bufs', todo));
      && b in t.disk.home && t.disk.home[b] == disk'[b]
      && if b in todo then !IsDirty(bufs', b) else DirtyAt(bufs', t.cache, t.open, b)
  {
  }

  // ----------------------------------------------------------------- counting

  lemma {:induction false} RemovedCount(held: seq<nat>, b: nat)
    requires b in held
    ensures multiset(BlockCache.Removed(held, b)) == multiset(held) - multiset{b}
    decreases |held|
  {
    assert held == [held[0]] + held[1..];
    if held[0] != b {
      RemovedCount(held[1..], b);
      var r := BlockCache.Removed(held, b);
      assert r == [held[0]] + BlockCache.Removed(held[1..], b);
    }
  }

  lemma CountIn(held: seq<nat>, b: nat)
    ensures b in held <==> multiset(held)[b] > 0
  {
    assert b in held <==> b in multiset(held);
  }

  /** One reference less to the buffer of b, and one jbd_buf less. */
  lemma Unpinned(bufs: Bufs, bufs': Bufs, held: seq<nat>, held': seq<nat>, b: nat)
    requires Pinned(bufs, held) && b in held && multiset(held') == multiset(held) - multiset{b}
    requires forall k :: k != b ==> (k in bufs' <==> k in bufs) && (k in bufs' ==> bufs'[k] == bufs[k])
    requires b in bufs && bufs[b].refctr > 1 ==> b in bufs' && bufs'[b].refctr == bufs[b].refctr - 1
    ensures Pinned(bufs', held')
  {
    forall k | k in held'
      ensures k in bufs' && multiset(held')[k] <= bufs'[k].refctr
    {
      CountIn(held', k);
      CountIn(held, k);
    }
  }

  /** One more of both. */
  lemma PinnedMore(bufs: Bufs, bufs': Bufs, held: seq<nat>, b: nat)
    requires Pinned(bufs, held) && b in bufs && bufs[b].refctr > multiset(held)[b]
    requires b in bufs' && bufs'[b].refctr == bufs[b].refctr + 1
    requires forall k :: k != b && k in bufs ==> k in bufs' && bufs'[k] == bufs[k]
    ensures Pinned(bufs', [b] + held)
  {
    forall k | k in [b] + held
      ensures k in bufs' && multiset([b] + held)[k] <= bufs'[k].refctr
    {
      assert multiset([b] + held) == multiset{b} + multiset(held);
      CountIn(held, k);
    }
  }

  lemma PinnedStill(bufs: Bufs, bufs': Bufs, held: seq<nat>)
    requires Pinned(bufs, held)
    requires forall b :: b in bufs && bufs[b].refctr > 0 && b in held ==>
      b in bufs' && (bufs'[b].refctr >= bufs[b].refctr || bufs'[b].refctr >= multiset(held)[b])
    ensures Pinned(bufs', held)
  {
    forall b | b in held
      ensures b in bufs' && multiset(held)[b] <= bufs'[b].refctr
    {
      CountIn(held, b);
    }
  }

  /** A cache operation is a run of the journal that checkpoints what the cache has written. */
  lemma CacheRun(s: State, bufs: Bufs, disk: Blocks, bufs': Bufs, disk': Blocks, held: seq<nat>, todo: set<nat>)
    returns (steps: seq<Step>)
    requires LinkedAt(s, bufs, disk, held, todo) && Settles(bufs, disk, bufs', disk')
    requires Pinned(bufs', held) && forall b :: b in s.open && b !in todo ==> IsDirty(bufs', b)
    requires BlockCache.BufsOk(bufs, disk) && BlockCache.BufsOk(bufs', disk')
    ensures var t := FlushAll(s, WrittenBy(s.cache, bufs', todo));
      Runs(s, steps, t, true) && LinkedAt(t, bufs', disk', held, todo)
  {
    hide Shape, Settles, Pinned, HomeIs, DirtyOk, HeldOk, Runs;
    forall b | b in bufs' || b in bufs
      ensures b < |disk|
    {
      assert |disk'| == |disk| by { SameLength(bufs, disk, bufs', disk'); }
      if b in bufs { BlockCache.BufAt(bufs, disk, b); } else { BlockCache.BufAt(bufs', disk', b); }
    }
    CacheLink(s, bufs, disk, bufs', disk', held, todo);
    steps := FlushMany(s, WrittenBy(s.cache, bufs', todo));
  }

  lemma SameLength(bufs: Bufs, disk: Blocks, bufs': Bufs, disk': Blocks)
    requires Settles(bufs, disk, bufs', disk')
    ensures |disk'| == |disk|
  {
  }

  /** Buffers that are referred to stay so, and dirty. */
  lemma PinnedKept(s: State, bufs: Bufs, disk: Blocks, bufs': Bufs, held: seq<nat>, todo: set<nat>)
    requires LinkedAt(s, bufs, disk, held, todo)
    requires forall b :: b in bufs && bufs[b].refctr > 0 ==>
      b in bufs' && bufs'[b].refctr >= bufs[b].refctr && bufs'[b].dirty == bufs[b].dirty
    ensures Pinned(bufs', held) && forall b :: b in s.open && b !in todo ==> IsDirty(bufs', b)
  {
    hide Shape, HomeIs, DirtyAt;
    OpenHeld(s, bufs, disk, held, todo);
    PinnedStill(bufs, bufs', held);
  }

  /** The buffers of the running transaction are referred to and dirty. */
  lemma OpenHeld(s: State, bufs: Bufs, disk: Blocks, held: seq<nat>, todo: set<nat>)
    requires LinkedAt(s, bufs, disk, held, todo)
    ensures forall b :: b in s.open ==> b in held && b in bufs && bufs[b].refctr > 0 && (b !in todo ==>
      IsDirty(bufs, b))
  {
    hide Shape, HomeIs;
    forall b | b in s.open
      ensures b in held && b in bufs && bufs[b].refctr > 0 && (b !in todo ==> IsDirty(bufs, b))
    {
      CountIn(held, b);
    }
  }

  /** What an operation of the cache is to the journal: some committed blocks have been written home, and none
      of the running transaction. */
  ghost predicate Checkpointed(s: State, disk: Blocks, t: State, bufs': Bufs, disk': Blocks, steps: seq<Step>) {
    && Runs(s, steps, t, true) && t == FlushAll(s, WrittenBy(s.cache, bufs', {}))
    && |disk'| == |disk| && forall b :: b in s.open && b < |disk| ==> disk'[b] == disk[b]
  }

  class Session {
    const bc: BlockCache.Cache
    /** The journal side: log, tail, checkpoint queue and running transaction. */
    var s: State
    /** The jbd_bufs whose reference to the buffer has not been given back. */
    var held: seq<nat>

    ghost predicate Linked(todo: set<nat>)
      reads this, bc
    {
      bc.Valid() && LinkedAt(s, bc.bufs, bc.disk, held, todo)
    }

    ghost predicate Valid()
      reads this, bc
    {
      Linked({})
    }

    /** A clean cache over the disk on which the session starts. */
    constructor (bc: BlockCache.Cache, s: State)
      requires bc.Valid() && Shape(s) && HomeIs(s.disk.home, bc.disk) && forall b :: b in bc.bufs ==> !bc.bufs[b].dirty
      requires s.cache == map[] && s.open == map[] && s.touched == {}
      ensures Valid() && this.bc == bc && this.s == s
    {
      this.bc, this.s, held := bc, s, [];
    }

    /** ext4_block_get. */
    method Get(b: nat) returns (ok: bool, ghost steps: seq<Step>)
      requires Valid()
      modifies `s, bc
      ensures Valid() && Checkpointed(old(s), old(bc.disk), s, bc.bufs, bc.disk, steps)
      ensures ok <==> b < |bc.disk|
      ensures ok ==> b in bc.bufs && bc.bufs[b].refctr > multiset(held)[b]
                     && bc.bufs[b].data == BlockCache.View(old(bc.bufs), old(bc.disk), b)
      ensures Inv(old(s)) ==> Inv(s)
    {
      hide Inv, LinkedAt, Settles, Pinned, Runs, BlockCache.BufsOk, BlockCache.ListOk, BlockCache.LruOk,
           BlockCache.UsesOk, BlockCache.Removed, BlockCache.Used, BlockCache.SameViews, BlockCache.Flushes,
           BlockCache.View, BlockCache.FlushedAt;
      OpenHeld(s, bc.bufs, bc.disk, held, {});
      ghost var was, was' := bc.bufs, bc.disk;
      ok := bc.Get(b);
      GetSettles(was, was', bc.bufs, bc.disk, b);
      PinnedKept(s, was, was', bc.bufs, held, {});
      steps := CacheRun(s, was, was', bc.bufs, bc.disk, held, {});
      SameLength(was, was', bc.bufs, bc.disk);
      if ok { GotMore(s, was, was', bc.bufs, bc.disk, held, b); }
      s := FlushAll(s, WrittenBy(s.cache, bc.bufs, {}));
      if Inv(old(s)) { RunsKeep(old(s), steps, s); }
    }

    /** ext4_block_cache_flush. */
    method Flush() returns (ghost steps: seq<Step>)
      requires Valid()
      modifies `s, bc
      ensures Valid() && Checkpointed(old(s), old(bc.disk), s, bc.bufs, bc.disk, steps)
      ensures forall b :: b in s.cache ==> b in bc.bufs && bc.bufs[b].refctr > 0
      ensures Inv(old(s)) ==> Inv(s)
    {
      hide Inv, LinkedAt, Settles, Pinned, Runs, BlockCache.BufsOk, BlockCache.LruOk, BlockCache.UsesOk,
           BlockCache.Removed, BlockCache.Used, BlockCache.SameViews, BlockCache.Flushes;
      OpenHeld(s, bc.bufs, bc.disk, held, {});
      ghost var was, was' := bc.bufs, bc.disk;
      bc.CacheFlush();
      FlushesSettle(was, was', bc.bufs, bc.disk);
      PinnedKept(s, was, was', bc.bufs, held, {});
      steps := CacheRun(s, was, was', bc.bufs, bc.disk, held, {});
      SameLength(was, was', bc.bufs, bc.disk);
      s := FlushAll(s, WrittenBy(s.cache, bc.bufs, {}));
      NoneWaits(s, bc.bufs, bc.disk, bc.list, held);
      if Inv(old(s)) { RunsKeep(old(s), steps, s); }
    }

    /** ext4_block_cache_write_back. */
    method WriteBack(on: bool) returns (ghost steps: seq<Step>)
      requires Valid()
      modifies `s, bc
      ensures Valid() && Checkpointed(old(s), old(bc.disk), s, bc.bufs, bc.disk, steps)
      ensures Inv(old(s)) ==> Inv(s)
    {
      hide Inv, LinkedAt, Settles, Pinned, Runs, BlockCache.BufsOk, BlockCache.ListOk, BlockCache.LruOk,
           BlockCache.UsesOk, BlockCache.Removed, BlockCache.Used, BlockCache.SameViews, BlockCache.Flushes,
           BlockCache.View;
      OpenHeld(s, bc.bufs, bc.disk, held, {});
      ghost var was, was' := bc.bufs, bc.disk;
      bc.WriteBack(on);
      FlushesSettle(was, was', bc.bufs, bc.disk);
      PinnedKept(s, was, was', bc.bufs, held, {});
      steps := CacheRun(s, was, was', bc.bufs, bc.disk, held, {});
      SameLength(was, was', bc.bufs, bc.disk);
      s := FlushAll(s, WrittenBy(s.cache, bc.bufs, {}));
      if Inv(old(s)) { RunsKeep(old(s), steps, s); }
    }

    /** ext4_block_set for a reference of one's own. */
    method Put(b: nat) returns (ghost steps: seq<Step>)
      requires Valid() && b in bc.bufs && bc.bufs[b].refctr > multiset(held)[b]
      modifies `s, bc
      ensures Valid() && Checkpointed(old(s), old(bc.disk), s, bc.bufs, bc.disk, steps) && held == old(held)
      ensures Inv(old(s)) ==> Inv(s)
    {
      hide Inv, LinkedAt, Settles, Pinned, Runs, BlockCache.BufsOk, BlockCache.ListOk, BlockCache.LruOk,
           BlockCache.UsesOk, BlockCache.Removed, BlockCache.Used, BlockCache.SameViews, BlockCache.View, IsDirty;
      ghost var was, was' := bc.bufs, bc.disk;
      BlockCache.BufAt(bc.bufs, bc.disk, b);
      bc.Put(b);
      PutSettles(s, was, was', bc.bufs, bc.disk, held, {}, b, bc.writeBack > 0 && !was[b].flush && !was[b].tmp);
      steps := CacheRun(s, was, was', bc.bufs, bc.disk, held, {});
      OpenStays(s, was, was', bc.bufs, bc.disk, held, {});
      s := FlushAll(s, WrittenBy(s.cache, bc.bufs, {}));
      if Inv(old(s)) { RunsKeep(old(s), steps, s); }
    }

    /** A block of the running transaction is changed by somebody who refers to its buffer, and
        jbd_trans_set_block_dirty. */
    method SetDirty(b: nat, data: Block)
      requires Valid() && b in bc.bufs && bc.bufs[b].refctr > multiset(held)[b] && Enabled(s, Dirty(b, data))
      modifies `s, `held, bc
      ensures Valid() && s == Apply(old(s), Dirty(b, data)) && Runs(old(s), [Dirty(b, data)], s, true)
      ensures bc.disk == old(bc.disk) && held == (if b in old(s).open then [] else [b]) + old(held)
      ensures BlockCache.View(bc.bufs, bc.disk, b) == data
      ensures Inv(old(s)) ==> Inv(s)
    {
      hide Inv, LinkedAt, Runs, BlockCache.BufsOk, BlockCache.ListOk, BlockCache.LruOk, BlockCache.UsesOk,
           BlockCache.Removed, BlockCache.Used, BlockCache.SameViews, BlockCache.View, Enabled, Apply, Shape;
      ghost var was, was' := bc.bufs, bc.disk;
      LinkedShape(s, was, was', held, {});
      RunsStep(s, Dirty(b, data));
      BlockCache.BufAt(bc.bufs, bc.disk, b);
      bc.Modify(b, data);
      if b !in s.open {
        bc.Pin(b);
        held := [b] + held;
      }
      DirtyLink(s, was, was', bc.bufs, old(held), held, b, data);
      ModifiedView(bc.bufs, bc.disk, b, data);
      s := Apply(s, Dirty(b, data));
      if Inv(old(s)) { RunsKeep(old(s), [Dirty(b, data)], s); }
    }

    /** A block is freed: its buffer is invalidated. */
    method FreeBlock(b: nat, revoke: bool)
      requires Valid() && Enabled(s, Free(b, revoke))
      modifies `s, bc
      ensures Valid() && s == Apply(old(s), Free(b, revoke)) && Runs(old(s), [Free(b, revoke)], s, true)
      ensures bc.disk == old(bc.disk)
      ensures Inv(old(s)) ==> Inv(s)
    {
      hide Inv, LinkedAt, Runs, BlockCache.BufsOk, BlockCache.ListOk, BlockCache.LruOk, BlockCache.UsesOk,
           BlockCache.Removed, BlockCache.Used, BlockCache.View, Enabled, Apply, Shape;
      ghost var was, was' := bc.bufs, bc.disk;
      LinkedShape(s, was, was', held, {});
      RunsStep(s, Free(b, revoke));
      if b in bc.bufs { bc.Forget(b); }
      FreeLink(s, was, was', bc.bufs, held, b, revoke);
      s := Apply(s, Free(b, revoke));
      if Inv(old(s)) { RunsKeep(old(s), [Free(b, revoke)], s); }
    }

    /** The journal goes on by itself: the commit is prepared and its blocks are written to the log, or the tail
        moves. */
    method Log(step: Step)
      requires Valid() && Enabled(s, step) && Orderly(s, step)
      requires step.BeginCommit? || step.Alloc? || step.WriteLog? || step.WriteCommit? || step.AdvanceTail?
        || step.SyncTail?
      modifies `s
      ensures Valid() && s == Apply(old(s), step) && Runs(old(s), [step], s, true)
      ensures Inv(old(s)) ==> Inv(s)
    {
      hide Inv, LinkedAt, Runs, BlockCache.BufsOk, BlockCache.ListOk, BlockCache.LruOk, BlockCache.UsesOk,
           BlockCache.Removed, BlockCache.Used, Enabled, Apply, Shape, Orderly;
      LinkedShape(s, bc.bufs, bc.disk, held, {});
      RunsStep(s, step);
      LogLink(s, bc.bufs, bc.disk, held, step);
      s := Apply(s, step);
      if Inv(old(s)) { RunsKeep(old(s), [step], s); }
    }

    /** The commit returns: its buffers are in the charge of the cache, still referred to. */
    method FinishCommit()
      requires Valid() && Enabled(s, Step.FinishCommit)
      modifies `s
      ensures Valid() && s == Apply(old(s), Step.FinishCommit) && Runs(old(s), [Step.FinishCommit], s, true)
      ensures Inv(old(s)) ==> Inv(s)
    {
      hide Inv, LinkedAt, Runs, BlockCache.BufsOk, BlockCache.ListOk, BlockCache.LruOk, BlockCache.UsesOk,
           BlockCache.Removed, BlockCache.Used, Enabled, Apply, Shape;
      LinkedShape(s, bc.bufs, bc.disk, held, {});
      RunsStep(s, Step.FinishCommit);
      CommitDone(s, bc.bufs, bc.disk, held);
      s := Apply(s, Step.FinishCommit);
      if Inv(old(s)) { RunsKeep(old(s), [Step.FinishCommit], s); }
    }

    /** jbd_journal_cp_trans gives one reference back: the buffer may be written at once, or wait. */
    method Unpin(b: nat) returns (ghost steps: seq<Step>)
      requires Valid() && b in held && b !in s.touched
      modifies `s, `held, bc
      ensures Valid() && Checkpointed(old(s), old(bc.disk), s, bc.bufs, bc.disk, steps)
      ensures held == BlockCache.Removed(old(held), b)
      ensures Inv(old(s)) ==> Inv(s)
    {
      hide Inv, LinkedAt, Runs, BlockCache.BufsOk, BlockCache.ListOk, BlockCache.LruOk, BlockCache.UsesOk,
           BlockCache.Removed, BlockCache.Used, Checkpointed;
      ghost var held0 := held;
      RemovedCount(held, b);
      held := BlockCache.Removed(held, b);
      HeldLess(s, bc.bufs, bc.disk, held0, held, {}, b);
      steps := Put(b);
    }

    /** A checkpoint from the cache, whoever refers to the buffer. */
    method CheckpointCached(b: nat) returns (ghost steps: seq<Step>)
      requires Valid() && b in s.cache
      modifies `s, bc
      ensures Valid() && Checkpointed(old(s), old(bc.disk), s, bc.bufs, bc.disk, steps)
      ensures b !in s.cache
      ensures Inv(old(s)) ==> Inv(s)
    {
      hide Inv, LinkedAt, Settles, Pinned, Runs, BlockCache.BufsOk, BlockCache.ListOk, BlockCache.LruOk,
           BlockCache.UsesOk, BlockCache.Removed, BlockCache.Used, BlockCache.SameViews, BlockCache.View;
      CachedThere(s, bc.bufs, bc.disk, held, b);
      BlockCache.BufAt(bc.bufs, bc.disk, b);
      ghost var was, was' := bc.bufs, bc.disk;
      bc.FlushBuf(b);
      FlushBufSettles(s, was, was', bc.bufs, bc.disk, held, b);
      steps := CacheRun(s, was, was', bc.bufs, bc.disk, held, {});
      OpenStays(s, was, was', bc.bufs, bc.disk, held, {});
      s := FlushAll(s, WrittenBy(s.cache, bc.bufs, {}));
      if Inv(old(s)) { RunsKeep(old(s), steps, s); }
    }

    /** A checkpoint from the log, past the buffer. A buffer that is up to date and clean is out of date afterwards,
        unless it had that content. */
    method CheckpointFromLog(b: nat)
      requires Valid() && Core(s) && Enabled(s, FlushLogCopy(b)) && Orderly(s, FlushLogCopy(b))
      modifies `s, bc
      ensures s == Apply(old(s), FlushLogCopy(b)) && Runs(old(s), [FlushLogCopy(b)], s, true)
      ensures Inv(old(s)) ==> Inv(s)
      ensures bc.bufs == old(bc.bufs) && old(s).dm < |old(s).trans|
      ensures Valid() <==> !(Clean(bc.bufs, b) && bc.bufs[b].data != LogCopy(old(s).trans[old(s).dm], b))
    {
      hide LinkedAt, Runs, BlockCache.BufsOk, BlockCache.ListOk, BlockCache.LruOk, BlockCache.UsesOk,
           BlockCache.Removed, BlockCache.Used, BlockCache.View, Enabled, Apply, Shape, Orderly, Inv, Core, LogCopy;
      LinkedShape(s, bc.bufs, bc.disk, held, {});
      PendingThere(s, bc.bufs, bc.disk, held, b);
      RunsStep(s, FlushLogCopy(b));
      ghost var was := bc.disk;
      bc.WriteDirect(b, LogCopy(s.trans[s.dm], b));
      LogCopyLink(s, bc.bufs, was, bc.disk, held, b);
      s := Apply(s, FlushLogCopy(b));
      if Inv(old(s)) { RunsKeep(old(s), [FlushLogCopy(b)], s); }
    }

    /** jbd_journal_flush_trans for a block of the first entry whose record is (`owned`) or is not that entry's: an
        owned buffer that is up to date is flushed, which does nothing when it is clean; otherwise the copy in the
        log goes home past the buffer. */
    method CheckpointHead(b: nat, owned: bool) returns (ghost steps: seq<Step>)
      requires Valid() && Core(s) && Enabled(s, FlushLogCopy(b)) && Orderly(s, FlushLogCopy(b))
      requires owned ==> b !in s.open
      modifies `s, bc
      ensures Runs(old(s), steps, s, true) && old(s).dm < |old(s).trans| && (Inv(old(s)) ==> Inv(s))
      ensures owned && Clean(old(bc.bufs), b) ==>
        s == old(s) && steps == [] && bc.bufs == old(bc.bufs) && bc.disk == old(bc.disk)
      ensures owned && IsDirty(old(bc.bufs), b) ==>
        Checkpointed(old(s), old(bc.disk), s, bc.bufs, bc.disk, steps) && b !in s.cache
      ensures !(owned && (Clean(old(bc.bufs), b) || IsDirty(old(bc.bufs), b))) ==>
        bc.bufs == old(bc.bufs) && s == Apply(old(s), FlushLogCopy(b)) && steps == [FlushLogCopy(b)]
      ensures Valid() <==>
        owned || !(Clean(bc.bufs, b) && bc.bufs[b].data != LogCopy(old(s).trans[old(s).dm], b))
    {
      hide LinkedAt, Runs, BlockCache.BufsOk, BlockCache.ListOk, BlockCache.LruOk, BlockCache.UsesOk,
           BlockCache.Removed, BlockCache.Used, Enabled, Apply, Shape, Orderly, Inv, Core, LogCopy, FlushAll,
           WrittenBy;
      PendingThere(s, bc.bufs, bc.disk, held, b);
      if b in bc.bufs { BlockCache.BufAt(bc.bufs, bc.disk, b); }
      if owned && b in bc.bufs && bc.bufs[b].uptodate {
        if bc.bufs[b].dirty {
          DirtyIsCached(s, bc.bufs, bc.disk, held, b);
          steps := CheckpointCached(b);
        } else {
          steps := [];
          RunsNowhere(s);
        }
      } else {
        CheckpointFromLog(b);
        steps := [FlushLogCopy(b)];
      }
    }

    /** jbd_journal_free_trans for an aborted transaction: its buffers lose their content and their references,
        and those rolled back get the version from the log, and are dirty again. */
    method Abort(copies: map<nat, Block>) returns (ghost steps: seq<Step>)
      requires Valid() && (Core(s) || Sound(s)) && s.phase.Idle? && Orderly(s, Step.Abort) && (forall b :: b in held ==>
        b in s.touched)
      requires copies == map b | b in s.touched && Pending(s.pending, b) :: NewestCopy(s, b)
      modifies `s, `held, bc
      ensures Valid() && Runs(old(s), steps, s, true) && held == []
      ensures s.open == map[] && s.touched == {} && s.revokes == {} && s.trans == old(s).trans && s.base == old(s).base
      ensures Inv(old(s)) ==> Inv(s)
    {
      hide LinkedAt, Runs, Pending, NewestCopy, Inv, Core, Sound, Enabled, Apply, Shape, Orderly, HomeIs, DirtyOk,
           BlockCache.BufsOk, BlockCache.ListOk, BlockCache.LruOk, BlockCache.UsesOk, BlockCache.Removed,
           BlockCache.Used;
      var s0 := s;
      ghost var todo := DropBuffers();
      AbortLink(s, bc.bufs, bc.disk, todo, copies);
      CopiesHome(s, bc.disk, copies);
      RunsStep(s, Step.Abort);
      s := Apply(s, Step.Abort);
      ghost var s1 := s;
      steps := Restore(copies);
      RunsOn(s0, [Step.Abort], s1, steps, s, true, true);
      steps := [Step.Abort] + steps;
      if Inv(old(s)) { RunsKeep(old(s), steps, s); }
    }

    /** The buffers of the aborted transaction are not dirty any more and lose its references. */
    method DropBuffers() returns (ghost todo: set<nat>)
      requires Linked({}) && forall b :: b in held ==> b in s.touched
      modifies `held, bc
      ensures bc.Valid() && held == [] && todo == s.touched
      ensures Shape(s) && HomeIs(s.disk.home, bc.disk) && DirtyOk(bc.bufs, s.cache, s.open, todo)
      ensures forall b :: b in s.touched ==> b !in s.cache
      ensures forall b :: b in s.open ==> b in s.touched
    {
      hide Shape, HomeIs, DirtyOk, Pinned, BlockCache.BufsOk, BlockCache.ListOk, BlockCache.LruOk, BlockCache.UsesOk,
           BlockCache.Removed, BlockCache.Used, BlockCache.View, BlockCache.SameViews;
      todo := {};
      while held != []
        invariant bc.Valid() && Pinned(bc.bufs, held) && bc.disk == old(bc.disk) && s == old(s)
        invariant HomeIs(s.disk.home, bc.disk) && DirtyOk(bc.bufs, s.cache, s.open, todo)
        invariant forall b :: b in s.touched <==> b in todo || b in held
        decreases |held|
      {
        var b := held[0];
        PinnedAt(bc.bufs, held, b);
        ghost var was := bc.bufs;
        bc.Forget(b);
        ghost var mid := bc.bufs;
        bc.Put(b);
        DropStep(was, mid, bc.bufs, s.cache, s.open, todo, held, b);
        assert held == [b] + held[1..];
        held := held[1..];
        todo := todo + {b};
      }
    }

    /** Each block to be rolled back is asked for, gets the content from the log, is marked dirty and released. */
    method Restore(copies: map<nat, Block>) returns (ghost steps: seq<Step>)
      requires Linked(copies.Keys) && held == []
      requires forall b :: b in copies ==> b in s.cache && s.cache[b] == copies[b] && b < |bc.disk|
      modifies `s, bc
      ensures Valid() && Runs(old(s), steps, s, true) && Restored(old(s), s)
    {
      hide LinkedAt, Runs, BlockCache.BufsOk, BlockCache.ListOk, BlockCache.LruOk, BlockCache.UsesOk,
           BlockCache.Removed, BlockCache.Used;
      var rest := copies.Keys;
      steps := [];
      RunsNowhere(s);
      while rest != {}
        invariant rest <= copies.Keys && Linked(rest) && Runs(old(s), steps, s, true) && Restored(old(s), s)
        invariant forall b :: b in rest ==> b in s.cache && s.cache[b] == copies[b] && b < |bc.disk|
        invariant held == []
        decreases |rest|
      {
        var b :| b in rest;
        ghost var s1 := s;
        ghost var more := RestoreOne(b, rest);
        RunsOn(old(s), steps, s1, more, s, true, true);
        steps := steps + more;
        rest := rest - {b};
      }
    }

    method RestoreOne(b: nat, rest: set<nat>) returns (ghost steps: seq<Step>)
      requires Linked(rest) && b in rest && b in s.cache && b < |bc.disk| && held == []
      modifies `s, bc
      ensures Linked(rest - {b}) && Runs(old(s), steps, s, true) && Restored(old(s), s) && |bc.disk| == |old(bc.disk)|
      ensures forall x :: x in rest - {b} && x in old(s).cache ==> x in s.cache && s.cache[x] == old(s).cache[x]
    {
      hide LinkedAt, Runs, BlockCache.BufsOk, BlockCache.ListOk, BlockCache.LruOk, BlockCache.UsesOk,
           BlockCache.Removed, BlockCache.Used, BlockCache.View, IsDirty, FlushAll;
      var data := s.cache[b];
      ghost var s0 := s;
      steps := Ask(b, rest);
      ghost var s1, was := s, bc.bufs;
      bc.Modify(b, data);
      RestoreLink(s, was, bc.bufs, bc.disk, held, rest, b, data);
      ghost var more := Release(b, rest - {b});
      RunsOn(s0, steps, s1, more, s, true, true);
      steps := steps + more;
    }

    /** ext4_block_get_noread in the middle of an abort. */
    method Ask(b: nat, todo: set<nat>) returns (ghost steps: seq<Step>)
      requires Linked(todo) && b < |bc.disk| && held == []
      modifies `s, bc
      ensures Linked(todo) && Runs(old(s), steps, s, true) && Restored(old(s), s) && |bc.disk| == |old(bc.disk)|
      ensures forall x :: x in todo && x in old(s).cache ==> x in s.cache && s.cache[x] == old(s).cache[x]
      ensures b in bc.bufs && bc.bufs[b].refctr > 0
    {
      hide LinkedAt, Settles, Pinned, Runs, BlockCache.BufsOk, BlockCache.ListOk, BlockCache.LruOk, BlockCache.UsesOk,
           BlockCache.Removed, BlockCache.Used, BlockCache.SameViews, BlockCache.Flushes, BlockCache.GotAt, IsDirty;
      ghost var was, was' := bc.bufs, bc.disk;
      var ok := bc.GetNoread(b);
      GetSettles(was, was', bc.bufs, bc.disk, b);
      PinnedKept(s, was, was', bc.bufs, held, todo);
      SameLength(was, was', bc.bufs, bc.disk);
      steps := CacheRun(s, was, was', bc.bufs, bc.disk, held, todo);
      s := FlushAll(s, WrittenBy(s.cache, bc.bufs, todo));
    }

    /** ext4_block_set there. */
    method Release(b: nat, todo: set<nat>) returns (ghost steps: seq<Step>)
      requires Linked(todo) && held == [] && b in bc.bufs && bc.bufs[b].refctr > 0
      modifies `s, bc
      ensures Linked(todo) && Runs(old(s), steps, s, true) && Restored(old(s), s) && |bc.disk| == |old(bc.disk)|
      ensures forall x :: x in todo && x in old(s).cache ==> x in s.cache && s.cache[x] == old(s).cache[x]
    {
      hide LinkedAt, Settles, Pinned, Runs, BlockCache.BufsOk, BlockCache.ListOk, BlockCache.LruOk, BlockCache.UsesOk,
           BlockCache.Removed, BlockCache.Used, BlockCache.SameViews, BlockCache.View, IsDirty;
      ghost var was, was' := bc.bufs, bc.disk;
      BlockCache.BufAt(bc.bufs, bc.disk, b);
      bc.Put(b);
      PutSettles(s, was, was', bc.bufs, bc.disk, held, todo, b, bc.writeBack > 0 && !was[b].flush && !was[b].tmp);
      SameLength(was, was', bc.bufs, bc.disk);
      steps := CacheRun(s, was, was', bc.bufs, bc.disk, held, todo);
      s := FlushAll(s, WrittenBy(s.cache, bc.bufs, todo));
    }

    /** No home block on disk ever holds content that only an uncommitted transaction has. */
    lemma WriteAheadOnDisk(b: nat)
      requires Valid() && (Core(s) || Sound(s)) && b < |bc.disk|
      ensures (b in s.base && bc.disk[b] == s.base[b]) || Committed(s.trans, b, bc.disk[b])
    {
      hide Committed, LogOk, HomeOk, PendingOk, CacheOk, FinishingOk, TailOk, RoomOk, DirtyOk, Pinned, HeldOk,
           StaleOnly;
      assert b in s.disk.home && s.disk.home[b] == bc.disk[b];
    }

    /** A crash at any point, whatever the cache has written by then: mounting brings back a prefix of the
        committed transactions with every commit that had returned. */
    method Crash() returns (disk': Disk, ghost a: nat)
      requires Valid() && Sound(s)
      ensures disk'.start == 0 && s.acked <= a <= |s.trans|
      ensures forall b :: b in s.base ==> AgreesAt(s.base, s.trans[..a], disk'.home, b)
    {
      hide LinkedAt, Sound, AgreesAt, Shape;
      var home: map<nat, Block> := map b: nat | 0 <= b < |bc.disk| :: bc.disk[b];
      HomeOnDisk(s, bc.bufs, bc.disk, held, home);
      NoSteps(s);
      disk', a := CrashAndRecover(Disk(home, s.disk.log, s.disk.start, s.disk.sequence), s.geo, s, []);
    }
  }

  lemma GotMore(s: State, bufs: Bufs, disk: Blocks, bufs': Bufs, disk': Blocks, held: seq<nat>, b: nat)
    requires LinkedAt(s, bufs, disk, held, {}) && b < |disk| == |disk'| && BlockCache.GotAt(bufs, disk, bufs', disk', b)
    ensures bufs'[b].refctr > multiset(held)[b]
  {
    hide Shape, HomeIs, DirtyOk, HeldOk;
    CountIn(held, b);
  }

  lemma NoneWaits(s: State, bufs: Bufs, disk: Blocks, list: seq<nat>, held: seq<nat>)
    requires LinkedAt(s, bufs, disk, held, {}) && BlockCache.BufsOk(bufs, disk) && BlockCache.ListOk(bufs, list)
      && list == []
    ensures forall b :: b in s.cache ==> b in bufs && bufs[b].refctr > 0
  {
    hide Shape, HomeIs, HeldOk, Pinned;
    forall b | b in s.cache
      ensures b in bufs && bufs[b].refctr > 0
    {
      assert DirtyAt(bufs, s.cache, s.open, b);
      BlockCache.BufAt(bufs, disk, b);
    }
  }

  /** A reference that is not one of the journal's goes. */
  lemma PutSettles(s: State, bufs: Bufs, disk: Blocks, bufs': Bufs, disk': Blocks, held: seq<nat>, todo: set<nat>,
                   b: nat, waits: bool)
    requires LinkedAt(s, bufs, disk, held, todo) && BlockCache.BufsOk(bufs, disk)
    requires b in bufs && bufs[b].refctr > multiset(held)[b]
    requires forall k :: k != b ==> (k in bufs' <==> k in bufs) && (k in bufs' ==> bufs'[k] == bufs[k])
    requires bufs[b].refctr > 1 ==> bufs' == bufs[b := bufs[b].(refctr := bufs[b].refctr - 1)] && disk' == disk
    requires bufs[b].refctr == 1 ==>
      && b < |disk| && disk' == (if bufs[b].dirty && !waits then disk[b := bufs[b].data] else disk)
      && (b in bufs' ==> bufs'[b].data == bufs[b].data && (bufs'[b].dirty <==> bufs[b].dirty && waits))
      && (bufs[b].dirty && waits ==> b in bufs')
    ensures Settles(bufs, disk, bufs', disk') && Pinned(bufs', held)
    ensures forall k :: k in s.open && k !in todo ==> IsDirty(bufs', k)
  {
    hide Shape, HomeIs, DirtyAt;
    OpenHeld(s, bufs, disk, held, todo);
    CountIn(held, b);
    forall k | k in held
      ensures k in bufs' && multiset(held)[k] <= bufs'[k].refctr
    {
      CountIn(held, k);
    }
  }

  lemma OpenStays(s: State, bufs: Bufs, disk: Blocks, bufs': Bufs, disk': Blocks, held: seq<nat>, todo: set<nat>)
    requires LinkedAt(s, bufs, disk, held, todo) && Settles(bufs, disk, bufs', disk')
    requires forall k :: k in s.open && k !in todo ==> IsDirty(bufs', k)
    ensures |disk'| == |disk| && forall k :: k in s.open && k !in todo && k < |disk| ==> disk'[k] == disk[k]
  {
    hide Shape, HomeIs, Pinned, HeldOk, DirtyOk;
    forall k | k in s.open && k !in todo && k < |disk|
      ensures disk'[k] == disk[k]
    {
      assert SettledAt(bufs, disk, bufs', disk', k);
    }
  }

  lemma LinkedShape(s: State, bufs: Bufs, disk: Blocks, held: seq<nat>, todo: set<nat>)
    requires LinkedAt(s, bufs, disk, held, todo)
    ensures Shape(s)
  {
  }

  lemma DirtyLink(s: State, bufs: Bufs, disk: Blocks, bufs': Bufs, held: seq<nat>, held': seq<nat>, b: nat, data: Block)
    requires LinkedAt(s, bufs, disk, held, {}) && Enabled(s, Dirty(b, data))
    requires b in bufs && bufs[b].refctr > multiset(held)[b]
    requires b in bufs' && bufs'[b].dirty && bufs'[b].data == data
    requires bufs'[b].refctr == bufs[b].refctr + (if b in s.open then 0 else 1)
    requires forall k :: k != b ==> (k in bufs' <==> k in bufs) && (k in bufs' ==> bufs'[k] == bufs[k])
    requires held' == if b in s.open then held else [b] + held
    ensures LinkedAt(Apply(s, Dirty(b, data)), bufs', disk, held', {})
  {
    hide Pinned, HomeIs, Shape, DirtyAt;
    ShapeKeeps(s, Dirty(b, data));
    if b in s.open { PinnedStill(bufs, bufs', held); } else { PinnedMore(bufs, bufs', held, b); }
    var t := Apply(s, Dirty(b, data));
    forall k
      ensures DirtyAt(bufs', t.cache, t.open, k)
    {
      assert DirtyAt(bufs, s.cache, s.open, k);
      if k == b {
        NowDirty(bufs', t.cache, t.open, b);
      } else {
        DirtyOther(bufs, bufs', s.cache, t.cache, s.open, t.open, k);
      }
    }
  }

  lemma ModifiedView(bufs: Bufs, disk: Blocks, b: nat, data: Block)
    requires b in bufs && bufs[b].uptodate && bufs[b].data == data && b < |disk|
    ensures BlockCache.View(bufs, disk, b) == data
  {
  }

  lemma NowDirty(bufs: Bufs, cache: map<nat, Block>, open: map<nat, Block>, b: nat)
    requires b in open && b !in cache && b in bufs && bufs[b].dirty && bufs[b].data == open[b]
    ensures DirtyAt(bufs, cache, open, b)
  {
  }

  lemma NowClean(bufs: Bufs, cache: map<nat, Block>, open: map<nat, Block>, b: nat)
    requires b !in open && b !in cache && (b in bufs ==> !bufs[b].dirty)
    ensures DirtyAt(bufs, cache, open, b)
  {
  }

  lemma DirtyOther(bufs: Bufs, bufs': Bufs, cache: map<nat, Block>, cache': map<nat, Block>, open: map<nat, Block>,
                   open': map<nat, Block>, k: nat)
    requires DirtyAt(bufs, cache, open, k) && (k in bufs' <==> k in bufs) && (k in bufs' ==> bufs'[k] == bufs[k])
    requires (k in cache' <==> k in cache) && (k in cache ==> cache'[k] == cache[k])
    requires (k in open' <==> k in open) && (k in open ==> open'[k] == open[k])
    ensures DirtyAt(bufs', cache', open', k)
  {
  }

  lemma FreeLink(s: State, bufs: Bufs, disk: Blocks, bufs': Bufs, held: seq<nat>, b: nat, revoke: bool)
    requires LinkedAt(s, bufs, disk, held, {}) && Enabled(s, Free(b, revoke))
    requires bufs' ==
      if b in bufs then bufs[b := bufs[b].(uptodate := false, dirty := false, listed := false)] else bufs
    ensures LinkedAt(Apply(s, Free(b, revoke)), bufs', disk, held, {})
  {
    hide Pinned, HomeIs, Pending, Shape, DirtyAt;
    ShapeKeeps(s, Free(b, revoke));
    PinnedStill(bufs, bufs', held);
    var t := Apply(s, Free(b, revoke));
    forall k
      ensures DirtyAt(bufs', t.cache, t.open, k)
    {
      assert DirtyAt(bufs, s.cache, s.open, k);
      if k == b {
        NowClean(bufs', t.cache, t.open, b);
      } else {
        DirtyOther(bufs, bufs', s.cache, t.cache, s.open, t.open, k);
      }
    }
  }

  lemma LogLink(s: State, bufs: Bufs, disk: Blocks, held: seq<nat>, step: Step)
    requires LinkedAt(s, bufs, disk, held, {}) && Enabled(s, step)
    requires step.BeginCommit? || step.Alloc? || step.WriteLog? || step.WriteCommit? || step.AdvanceTail?
      || step.SyncTail?
    ensures LinkedAt(Apply(s, step), bufs, disk, held, {})
  {
    hide Pinned, HomeIs, DirtyOk, HeldOk, ImageOf, Describes, GroupWritten, Pos, SlotAt, Shape;
    ShapeKeeps(s, step);
  }

  lemma CommitDone(s: State, bufs: Bufs, disk: Blocks, held: seq<nat>)
    requires LinkedAt(s, bufs, disk, held, {}) && Enabled(s, FinishCommit)
    ensures LinkedAt(Apply(s, FinishCommit), bufs, disk, held, {})
  {
    hide Pinned, HomeIs;
    ShapeKeeps(s, FinishCommit);
    var t := Apply(s, FinishCommit);
    forall k
      ensures DirtyAt(bufs, t.cache, t.open, k)
    {
      assert DirtyAt(bufs, s.cache, s.open, k);
    }
  }

  lemma HeldLess(s: State, bufs: Bufs, disk: Blocks, held: seq<nat>, held': seq<nat>, todo: set<nat>, b: nat)
    requires LinkedAt(s, bufs, disk, held, todo) && b in held && b !in s.touched
    requires multiset(held') == multiset(held) - multiset{b}
    ensures LinkedAt(s, bufs, disk, held', todo) && b in bufs && bufs[b].refctr > multiset(held')[b]
  {
    hide Shape, HomeIs, DirtyOk;
    forall k
      ensures k in held' ==> k in held
      ensures k in held && k != b ==> k in held'
    {
      CountIn(held', k);
      CountIn(held, k);
    }
    CountIn(held, b);
  }

  lemma CachedThere(s: State, bufs: Bufs, disk: Blocks, held: seq<nat>, b: nat)
    requires LinkedAt(s, bufs, disk, held, {}) && b in s.cache
    ensures b in bufs && bufs[b].dirty && bufs[b].data == s.cache[b] && b !in s.open
  {
    hide Shape, HomeIs, Pinned;
    assert DirtyAt(bufs, s.cache, s.open, b);
  }

  lemma FlushBufSettles(s: State, bufs: Bufs, disk: Blocks, bufs': Bufs, disk': Blocks, held: seq<nat>, b: nat)
    requires LinkedAt(s, bufs, disk, held, {}) && BlockCache.BufsOk(bufs, disk) && b in s.cache
    requires b in bufs && bufs' == bufs[b := bufs[b].(dirty := false, listed := false)]
    requires b < |disk| && disk' == disk[b := bufs[b].data]
    ensures Settles(bufs, disk, bufs', disk') && Pinned(bufs', held)
    ensures forall k :: k in s.open ==> IsDirty(bufs', k)
  {
    hide Shape, HomeIs;
    CachedThere(s, bufs, disk, held, b);
    OpenHeld(s, bufs, disk, held, {});
    PinnedStill(bufs, bufs', held);
  }

  lemma PendingThere(s: State, bufs: Bufs, disk: Blocks, held: seq<nat>, b: nat)
    requires LinkedAt(s, bufs, disk, held, {}) && Core(s) && Enabled(s, FlushLogCopy(b))
    ensures b < |disk| && s.dm < |s.trans|
  {
    hide DirtyOk, Pinned, HeldOk, LogOk, TailOk, FinishingOk, RoomOk, CacheOk, WriteAhead, LastWrite, LastEvent, Pos,
         SlotAt;
    assert PendingAt(s.base, s.trans, s.pending, s.dm, s.dm, b);
    assert b in s.disk.home;
  }

  /** A dirty buffer that is not the running transaction's waits for its checkpoint. */
  lemma DirtyIsCached(s: State, bufs: Bufs, disk: Blocks, held: seq<nat>, b: nat)
    requires LinkedAt(s, bufs, disk, held, {}) && IsDirty(bufs, b) && b !in s.open
    ensures b in s.cache
  {
    hide Shape, HomeIs, Pinned, HeldOk;
  }

  lemma LogCopyLink(s: State, bufs: Bufs, disk: Blocks, disk': Blocks, held: seq<nat>, b: nat)
    requires LinkedAt(s, bufs, disk, held, {}) && Enabled(s, FlushLogCopy(b)) && s.dm < |s.trans|
    requires b < |disk| && disk' == disk[b := LogCopy(s.trans[s.dm], b)]
    ensures LinkedAt(Apply(s, FlushLogCopy(b)), bufs, disk', held, {})
  {
    hide DirtyOk, Pinned, HeldOk, LogCopy, Pos, SlotAt;
    ShapeKeeps(s, FlushLogCopy(b));
  }

  lemma PinnedAt(bufs: Bufs, held: seq<nat>, b: nat)
    requires Pinned(bufs, held) && b in held
    ensures b in bufs && bufs[b].refctr >= multiset(held)[b] > 0
  {
    CountIn(held, b);
  }

  /** One buffer of the aborted transaction is clean now and has one reference less. */
  lemma DropStep(was: Bufs, mid: Bufs, bufs: Bufs, cache: map<nat, Block>, open: map<nat, Block>, todo: set<nat>,
                 held: seq<nat>, b: nat)
    requires held != [] && b == held[0] && Pinned(was, held) && DirtyOk(was, cache, open, todo)
    requires b in was && mid == was[b := was[b].(uptodate := false, dirty := false, listed := false)]
    requires forall k :: k != b ==> (k in bufs <==> k in mid) && (k in bufs ==> bufs[k] == mid[k])
    requires mid[b].refctr > 1 ==> bufs == mid[b := mid[b].(refctr := mid[b].refctr - 1)]
    requires mid[b].refctr <= 1 ==> b !in bufs
    ensures Pinned(bufs, held[1..]) && DirtyOk(bufs, cache, open, todo + {b})
  {
    hide DirtyAt, Pinned;
    assert held == [b] + held[1..];
    Unpinned(was, bufs, held, held[1..], b);
    forall k | k !in todo + {b}
      ensures DirtyAt(bufs, cache, open, k)
    {
      assert DirtyAt(was, cache, open, k);
      DirtyOther(was, bufs, cache, cache, open, open, k);
    }
  }

  /** The abort as the journal sees it: what is to be rolled back is dirty again, and will be in the cache. */
  lemma AbortLink(s: State, bufs: Bufs, disk: Blocks, todo: set<nat>, copies: map<nat, Block>)
    requires Shape(s) && HomeIs(s.disk.home, disk) && DirtyOk(bufs, s.cache, s.open, todo) && todo == s.touched
    requires (forall b :: b in s.touched ==> b !in s.cache) && forall b :: b in s.open ==> b in s.touched
    requires s.phase.Idle? && copies == map b | b in s.touched && Pending(s.pending, b) :: NewestCopy(s, b)
    ensures Enabled(s, Abort)
    ensures var t := Apply(s, Abort);
      && LinkedAt(t, bufs, disk, [], copies.Keys)
      && (forall b :: b in copies ==> b in t.cache && t.cache[b] == copies[b])
      && t.open == map[] && t.touched == {} && t.revokes == {} && t.trans == s.trans && t.base == s.base
  {
    hide HomeIs, Pending, NewestCopy;
    ShapeKeeps(s, Abort);
    var t := Apply(s, Abort);
    assert t.cache == s.cache + copies;
    forall b | b !in copies.Keys
      ensures DirtyAt(bufs, t.cache, t.open, b)
    {
      if b !in todo { assert DirtyAt(bufs, s.cache, s.open, b); }
    }
  }

  /** Rolling back leaves the journal where the abort left it, but for blocks that are written home. */
  predicate Restored(s: State, t: State) {
    && t.open == s.open && t.touched == s.touched && t.revokes == s.revokes
    && t.trans == s.trans && t.base == s.base
  }

  lemma CopiesHome(s: State, disk: Blocks, copies: map<nat, Block>)
    requires (Core(s) || Sound(s)) && HomeIs(s.disk.home, disk)
    requires copies == map b | b in s.touched && Pending(s.pending, b) :: NewestCopy(s, b)
    ensures forall b :: b in copies ==> b < |disk|
  {
    hide LogOk, PendingOk, CacheOk, FinishingOk, TailOk, RoomOk, WriteAhead, Pending, NewestCopy, StaleOnly;
    forall b | b in copies
      ensures b < |disk|
    {
      PendingCore(s, b);
      PendingWritten(s, b);
      assert b in s.disk.home;
    }
  }

  /** The block has its content from the log. */
  lemma RestoreLink(s: State, bufs: Bufs, bufs': Bufs, disk: Blocks, held: seq<nat>, rest: set<nat>, b: nat,
                    data: Block)
    requires LinkedAt(s, bufs, disk, held, rest) && b in rest && b in s.cache && s.cache[b] == data
    requires b in bufs && bufs' == bufs[b := bufs[b].(data := data, uptodate := true, dirty := true)]
    ensures LinkedAt(s, bufs', disk, held, rest - {b})
  {
    hide Shape, HomeIs;
    PinnedStill(bufs, bufs', held);
    forall k | k !in rest - {b}
      ensures DirtyAt(bufs', s.cache, s.open, k)
    {
      assert k != b ==> DirtyAt(bufs, s.cache, s.open, k);
    }
  }

  lemma HomeOnDisk(s: State, bufs: Bufs, disk: Blocks, held: seq<nat>, home: map<nat, Block>)
    requires LinkedAt(s, bufs, disk, held, {})
    requires forall b: nat :: b in home <==> b < |disk|
    requires forall b: nat :: b in home ==> home[b] == disk[b]
    ensures Disk(home, s.disk.log, s.disk.start, s.disk.sequence) == s.disk
  {
    hide Shape, DirtyOk, Pinned, HeldOk;
    assert home == s.disk.home;
  }
}
