/** The journal as the code keeps it: tail, head and checkpoint queue updated in place. Every method goes
    from one state of the step system to another by steps of that system. */
module JournalOps {
  import opened JournalFormat
  import opened JournalRecovery
  import opened JournalProtocol
  import opened JournalRestart
  import opened JournalTheorems
  import opened JournalQueue
  import opened JournalRecords
  import opened JournalClean
  import opened JournalBehind
  import opened JournalCommit
  import opened JournalInvariant

  class Journal {
    const geo: Geometry
    /** Home blocks, log area and journal superblock on disk. */
    var disk: Disk
    /** The journal superblock in memory. */
    var sbStart: nat
    var sbSequence: nat
    var start: nat
    var last: nat
    var transId: nat
    var allocTransId: nat
    var queue: seq<CpTrans>
    /** Dirty buffers that no transaction refers to. */
    var cache: map<nat, Block>
    /** Blocks whose buffer is up to date and not dirty. */
    var clean: set<nat>
    /** The running transaction: its jbd_bufs, the last one first; the dirty buffers it holds; the blocks it
        revokes. */
    var bufQueue: seq<nat>
    var open: map<nat, Block>
    var revokes: set<nat>
    /** The block records, with the id of the transaction each belongs to. */
    var recs: map<nat, nat>
    ghost var s: State

    ghost predicate Held(loose: set<nat>, owed: int)
      reads this
    {
      && geo == s.geo && disk == s.disk && sbStart == start && sbSequence == transId
      && cache == s.cache && open == s.open && revokes == s.revokes
      && allocTransId == NextId(s) && RunningOk(cache, open, s.touched, revokes)
      && Linked(s, queue, start, last, transId, loose, owed)
    }

    ghost predicate Recorded(free: set<nat>)
      reads this
    {
      Shape(s) && RecsOk(recs, queue, Own(s), RunId(s), free) && Apart(clean, cache, open)
    }

    ghost predicate Valid()
      reads this
    {
      Held({}, -1) && Recorded({})
    }

    /** Between two calls: no commit is running, and the log is not full. */
    ghost predicate Open()
      reads this
    {
      && Valid() && s.phase.Idle? && !s.mustSync && HasRoom(s)
      && ListOk(bufQueue, open, s.touched, revokes, queue, geo)
    }

    /** jbd_journal_start. */
    constructor (geo: Geometry, home: map<nat, Block>, log: seq<Block>, sequence: nat)
      requires geo.Valid() && |log| == geo.maxlen
      ensures Open() && s == Start(geo, home, log, sequence) && queue == [] && open == map[] && recs == map[]
      ensures this.geo == geo && bufQueue == [] && clean == {} && cache == map[]
      ensures (forall slot :: geo.first <= slot < geo.maxlen && IsHeader(log[slot]) ==>
        log[slot][2] <= sequence) ==> Inv(s)
      ensures Sound(s) <==> LogReady(geo, log, sequence)
    {
      this.geo, start, last, transId, allocTransId := geo, geo.first, geo.first, sequence + 1, sequence + 1;
      sbStart, sbSequence := geo.first, sequence + 1;
      queue, cache, clean, bufQueue, open, revokes, recs := [], map[], {}, [], map[], {}, map[];
      disk := Disk(home, log, geo.first, sequence + 1);
      s := Start(geo, home, log, sequence);
      new;
      StartLink(geo, home, log, sequence);
      StartOk(geo, home, log, sequence);
    }

    /** The step system follows, in the middle of a call. */
    ghost method Follow(t: State, loose: set<nat>, owed: int, free: set<nat>)
      requires geo == t.geo && disk == t.disk && sbStart == start && sbSequence == transId
      requires cache == t.cache && open == t.open && revokes == t.revokes && allocTransId == NextId(t)
      requires RunningOk(cache, open, t.touched, revokes) && Linked(t, queue, start, last, transId, loose, owed)
      requires Shape(t) && RecsOk(recs, queue, Own(t), RunId(t), free) && Apart(clean, cache, open)
      modifies `s
      ensures Held(loose, owed) && Recorded(free) && s == t
    {
      hide Linked, RunningOk, RecsOk, Apart, NextId, RunId, Own;
      s := t;
    }

    /** A finished transaction is taken off the queue: the tail moves behind it, and its block records go. */
    method Retire(ghost step: Step, ghost loose: set<nat>, ghost owed: int, ghost free: set<nat>)
      requires Held(loose, owed) && Recorded(free) && queue != [] && Done(queue[0])
      requires step == AdvanceTail || (step == PurgeUnsynced && s.phase.Logging?)
      modifies `start, `transId, `sbStart, `sbSequence, `queue, `recs, `s
      ensures Held(loose, owed) && Recorded(free) && queue == old(queue)[1..]
        && recs == Freed(old(recs), old(queue)[0].id)
      ensures SameWaits(old(queue), clean, old(recs), queue, clean, recs)
      ensures Enabled(old(s), step) && s == Apply(old(s), step)
      ensures TailOnly(old(s), s) && s.dm == old(s).dm + 1 && s.disk == old(s).disk && s.d == old(s).d
      ensures s.mustSync == (old(s).mustSync || step == AdvanceTail)
    {
      hide Linked, RunningOk, Apply, Enabled, Shape, Orderly, RecsOk, Freed, Own, RunId, TailOnly, NextId, SameWaits,
           Apart, Wrap, RunningOk, Done;
      RetireStep(s, queue, start, last, transId, loose, owed, step, recs, free);
      RetireWaits(s, queue, start, last, transId, loose, owed, recs, clean);
      var q := queue[0];
      start := Wrap(q.startIblock + q.allocBlocks, geo);
      transId := q.id + 1;
      queue := queue[1..];
      recs := Freed(recs, q.id);
      sbStart, sbSequence := start, transId;
      Follow(Apply(s, step), loose, owed, free);
    }

    /** jbd_journal_purge_cp_trans without flushing: finished transactions leave the head of the queue. */
    method PurgeWritten(ghost loose: set<nat>, ghost owed: int, ghost free: set<nat>) returns (ghost steps: seq<Step>)
      requires Held(loose, owed) && Recorded(free)
      modifies `start, `transId, `sbStart, `sbSequence, `queue, `recs, `s
      ensures Held(loose, owed) && Recorded(free) && queue == old(queue)[Leading(old(queue))..]
      ensures Runs(old(s), steps, s, true) && TailOnly(old(s), s) && s.dm == old(s).dm + Leading(old(queue))
      ensures s.disk == old(s).disk && s.d == old(s).d
      ensures SameWaits(old(queue), clean, old(recs), queue, clean, recs)
    {
      hide Linked, RunningOk, Apply, Enabled, Runs, RecsOk, Freed, SameWaits, Apart;
      SameNow(queue, clean, recs);
      steps := [];
      RunsNowhere(s);
      ghost var n := 0;
      while queue != []
        invariant n <= |old(queue)| && queue == old(queue)[n..]
        invariant Leading(old(queue)) == n + Leading(queue)
        invariant Held(loose, owed) && Recorded(free) && Runs(old(s), steps, s, true)
        invariant TailOnly(old(s), s) && s.dm == old(s).dm + n && s.disk == old(s).disk && s.d == old(s).d
        invariant SameWaits(old(queue), clean, old(recs), queue, clean, recs)
        decreases |queue|
      {
        if !Done(queue[0]) { break; }
        LinkShape(s, queue, start, last, transId, loose, owed);
        ghost var was, q1, r1 := s, queue, recs;
        Retire(AdvanceTail, loose, owed, free);
        SameThen(old(queue), clean, old(recs), q1, clean, r1, queue, clean, recs);
        RunsStep(was, AdvanceTail);
        RunsOn(old(s), steps, was, [AdvanceTail], s, true, true);
        steps, n := steps + [AdvanceTail], n + 1;
      }
    }

    /** jbd_write_sb. */
    method WriteSuper(ghost loose: set<nat>, ghost owed: int, ghost free: set<nat>) returns (ghost steps: seq<Step>)
      requires Held(loose, owed) && Recorded(free)
      modifies `disk, `s
      ensures Held(loose, owed) && Recorded(free) && Runs(old(s), steps, s, true) && TailOnly(old(s), s)
      ensures s.dm == old(s).dm == s.d && !s.mustSync
    {
      hide Linked, RunningOk, Apply, Runs, RecsOk;
      SyncLink(s, queue, start, last, transId, loose, owed);
      LinkShape(s, queue, start, last, transId, loose, owed);
      RunsStep(s, SyncTail);
      OwnSame(s, Apply(s, SyncTail));
      steps := [SyncTail];
      disk := disk.(start := sbStart, sequence := sbSequence);
      s := Apply(s, SyncTail);
      LinkShape(s, queue, start, last, transId, loose, owed);
    }

    /** The end of jbd_trans_end_write: the transaction at the head is finished, the tail moves past it
        and past all finished ones behind it, and the superblock is written. */
    method MoveTail(ghost loose: set<nat>, ghost owed: int, ghost free: set<nat>) returns (ghost steps: seq<Step>)
      requires Held(loose, owed) && Recorded(free) && queue != [] && Done(queue[0])
      modifies `start, `transId, `sbStart, `sbSequence, `queue, `recs, `disk, `s
      ensures Held(loose, owed) && Recorded(free) && queue == old(queue)[Leading(old(queue))..]
      ensures Runs(old(s), steps, s, true) && TailOnly(old(s), s) && s.dm == old(s).dm + Leading(old(queue))
      ensures s.d == s.dm && !s.mustSync
      ensures SameWaits(old(queue), clean, old(recs), queue, clean, recs)
    {
      hide Linked, RunningOk, Apply, Enabled, Runs, RecsOk, Freed, SameWaits, Apart;
      LinkShape(s, queue, start, last, transId, loose, owed);
      ghost var s0, q0 := s, queue;
      Retire(AdvanceTail, loose, owed, free);
      ghost var q1, r1 := queue, recs;
      RunsStep(s0, AdvanceTail);
      ghost var s1 := s;
      ghost var a := PurgeWritten(loose, owed, free);
      RunsOn(s0, [AdvanceTail], s1, a, s, true, true);
      SameThen(q0, clean, old(recs), q1, clean, r1, queue, clean, recs);
      assert queue == q0[Leading(q0)..];
      ghost var s2 := s;
      ghost var b := WriteSuper(loose, owed, free);
      RunsOn(s0, [AdvanceTail] + a, s2, b, s, true, true);
      steps := [AdvanceTail] + a + b;
    }

    /** jbd_trans_end_write for a transaction that no older one waits for. */
    method EndWriteAt(p: nat, lba: nat, ghost loose: set<nat>, ghost owed: int, ghost free: set<nat>)
      returns (ghost steps: seq<Step>)
      requires Held(loose, owed) && Recorded(free) && (p == 0 || lba in free)
      requires p < |queue| && Has(queue[p].bufs, lba) && queue[p].id != owed
      requires s.dm + p < |s.pending| && lba !in s.pending[s.dm + p]
      modifies `start, `transId, `sbStart, `sbSequence, `queue, `recs, `disk, `s
      ensures Held(loose, owed) && Recorded(free)
      ensures var ended := old(queue)[p := Ended(old(queue)[p], lba)];
              var n := if p == 0 then Leading(ended) else 0;
              && queue == ended[n..] && s.dm == old(s).dm + n
              && (if n > 0 then s.d == s.dm && !s.mustSync else s == old(s))
      ensures Runs(old(s), steps, s, true) && TailOnly(old(s), s)
      ensures SameWaits(old(queue)[p := Ended(old(queue)[p], lba)], clean, old(recs), queue, clean, recs)
    {
      hide Linked, RunningOk, Apply, Enabled, Runs, RecsOk, Has, Drop, SameWaits, Apart;
      var first := p == 0;
      EndLink(s, queue, start, last, transId, loose, owed, p, lba);
      EndedHas(queue, p, lba);
      RecsEnded(recs, queue, queue[p := Ended(queue[p], lba)], Own(s), RunId(s), free, lba);
      var q := queue[p];
      queue := queue[p := q.(bufs := Drop(q.bufs, lba), writtenCnt := q.writtenCnt + Times(q.bufs, lba))];
      if queue[p].writtenCnt == queue[p].dataCnt && first {
        steps := MoveTail(loose, owed, free);
      } else {
        SameNow(queue, clean, recs);
        steps := [];
        RunsNowhere(s);
      }
    }

    /** The newest transaction with an outstanding write of a block. */
    method Newest(lba: nat) returns (k: nat)
      requires Holds(queue, lba)
      ensures IsNewest(queue, lba, k)
    {
      hide Has;
      var i: nat := |queue|;
      while i > 0
        invariant i <= |queue| && forall j :: i <= j < |queue| ==> !Has(queue[j].bufs, lba)
      {
        i := i - 1;
        if Has(queue[i].bufs, lba) { return i; }
      }
    }

    /** jbd_trans_finish_callback for a block record whose transaction, the newest one with the block, has
        been written: the older writes of the block end too, the oldest first. */
    method EndOlder(lba: nat, k: nat, ghost was: seq<CpTrans>, ghost id: nat, ghost loose: set<nat>)
      returns (p: nat, ghost n: nat, ghost steps: seq<Step>)
      requires Held(loose, id) && Recorded({lba})
      requires Ending(was, lba, k, 0, 0, queue) && IsNewest(was, lba, k) && Counted(was)
      requires id == was[k].id
      requires NotPending(s.pending, lba)
      modifies `start, `transId, `sbStart, `sbSequence, `queue, `recs, `disk, `s
      ensures Held(loose, id) && Recorded({lba}) && Ending(was, lba, k, n, p, queue) && n + p == k
      ensures s.dm == old(s).dm + n && if n > 0 then s.d == s.dm && !s.mustSync else s == old(s)
      ensures Runs(old(s), steps, s, true) && TailOnly(old(s), s)
    {
      hide Linked, RunningOk, Apply, Enabled, Runs, Ending, Leading, RecsOk, Has, Ended, Shape;
      var pos: nat := k;
      p, n, steps := 0, 0, [];
      RunsNowhere(s);
      while p < pos
        invariant p <= pos == k - n && Ending(was, lba, k, n, p, queue)
        invariant Held(loose, id) && Recorded({lba}) && TailOnly(old(s), s) && Runs(old(s), steps, s, true)
        invariant s.dm == old(s).dm + n && if n > 0 then s.d == s.dm && !s.mustSync else s == old(s)
        decreases pos - p
      {
        EndingAt(was, lba, k, n, p, queue);
        if Has(queue[p].bufs, lba) {
          EndingId(s, queue, start, last, transId, loose, lba, id, was, k, n, p);
          ghost var q1, s1 := queue, s;
          var size := |queue|;
          ghost var more := EndWriteAt(p, lba, loose, id, {lba});
          RunsOn(old(s), steps, s1, more, s, true, true);
          steps := steps + more;
          var off := size - |queue|;
          EndingMoves(was, lba, k, n, p, q1, off);
          n, pos, p := n + off, pos - off, if off == 0 then p + 1 else 0;
        } else {
          EndingSkips(was, lba, k, n, p, queue);
          p := p + 1;
        }
      }
    }

    /** The newest transaction's write of the block ends, uncounted yet. */
    method BeginEnd(lba: nat, k: nat, ghost loose: set<nat>)
      requires Held(loose, -1) && Recorded({}) && IsNewest(queue, lba, k)
      requires s.dm + k < |s.pending| && lba !in s.pending[s.dm + k]
      modifies `queue
      ensures Held(loose, old(queue)[k].id) && Recorded({lba})
      ensures queue == old(queue)[k := Begun(old(queue)[k], lba)]
    {
      hide Linked, RunningOk, RecsOk, Has, Drop, Shape;
      OweLink(s, queue, start, last, transId, loose, k, lba, Begun(queue[k], lba));
      RecsMore(recs, queue, Own(s), RunId(s), {}, lba);
      assert {} + {lba} == {lba};
      EndedHas(queue, k, lba);
      BegunBufs(queue[k], lba);
      var q := queue[k];
      ghost var w := queue[k := Begun(q, lba)];
      assert forall j, x :: 0 <= j < |w| && x != lba ==> (Has(w[j].bufs, x) <==> Has(queue[j].bufs, x)) by {
        assert forall j :: 0 <= j < |w| ==> w[j].bufs == queue[k := Ended(queue[k], lba)][j].bufs;
      }
      RecsEnded(recs, queue, w, Own(s), RunId(s), {lba}, lba);
      queue := queue[k := q.(bufs := Drop(q.bufs, lba), writtenCnt := q.writtenCnt + Times(q.bufs, lba) - 1)];
    }

    /** And now it is counted; nobody waits for the block any more. */
    method FinishEnd(lba: nat, p: nat, ghost was: seq<CpTrans>, ghost n: nat, ghost loose: set<nat>)
      requires p < |queue| && n <= |was|
      requires Held(loose, queue[p].id) && Recorded({lba})
      requires queue[p := queue[p].(writtenCnt := queue[p].writtenCnt + 1)] == EndedAll(was, lba)[n..]
      modifies `queue
      ensures Held(loose - {lba}, -1) && Recorded({}) && queue == EndedAll(was, lba)[n..]
    {
      hide Linked, RunningOk, RecsOk, EndedAll, Shape, Has;
      PayLink(s, queue, start, last, transId, loose, p);
      ghost var w := queue[p := queue[p].(writtenCnt := queue[p].writtenCnt + 1)];
      RecsEnded(recs, queue, w, Own(s), RunId(s), {lba}, lba);
      queue := queue[p := queue[p].(writtenCnt := queue[p].writtenCnt + 1)];
      EndedNone(was, lba, n);
      TightLink(s, queue, start, last, transId, lba, loose, -1);
      RecsBound(recs, queue, Own(s), RunId(s), {lba}, lba);
      assert {lba} - {lba} == {};
    }

    /** jbd_trans_end_write for a block that has reached the disk in its newest version: the record of the
        block belongs to that transaction, so the older versions end with it. The tail moves past finished
        transactions, but not past the newest holder of the block unless that was first in the queue from the
        start. `freed` says that the walk through the buffers of the block goes on at one that has been freed:
        each older one that the newest transaction has ends the ones behind it. */
    method EndWrite(lba: nat, k: nat, ghost loose: set<nat>) returns (ghost steps: seq<Step>, ghost freed: bool)
      requires Held(loose, -1) && Recorded({}) && IsNewest(queue, lba, k) && lba !in Own(s)
      requires NotPending(s.pending, lba)
      modifies `start, `transId, `sbStart, `sbSequence, `queue, `recs, `disk, `s
      ensures Held(loose - {lba}, -1) && Recorded({})
      ensures var n := Popped(old(queue), lba, k);
              && queue == EndedAll(old(queue), lba)[n..] && s.dm == old(s).dm + n
              && (if n > 0 then s.d == s.dm && !s.mustSync else s == old(s))
      ensures Runs(old(s), steps, s, true) && TailOnly(old(s), s)
      ensures freed <==> Times(old(queue)[k].bufs, lba) >= 3
    {
      hide Linked, RunningOk, Apply, Enabled, Runs, Ending, EndedAll, Leading, Popped, RecsOk, Begun, Ended, Has,
           Shape, Times, Apart, SameWaits;
      ghost var was, id := queue, queue[k].id;
      freed := Times(queue[k].bufs, lba) >= 3;
      LinkCounted(s, queue, start, last, transId, loose);
      LinkSize(s, queue, start, last, transId, loose, -1);
      var first := k == 0;
      assert lba in recs && recs[lba] == queue[k].id by { OwnerIs(recs, queue, Own(s), RunId(s), lba, k); }
      EndingStarts(queue, lba, k);
      BeginEnd(lba, k, loose);
      var p;
      ghost var n;
      p, n, steps := EndOlder(lba, k, was, id, loose);
      EndingEnds(was, lba, k, n, p, queue);
      BegunBufs(was[k], lba);
      FinishEnd(lba, p, was, n, loose);
      if queue[p].writtenCnt == queue[p].dataCnt && first {
        ghost var s1 := s;
        ghost var more := MoveTail(loose - {lba}, -1, {});
        RunsOn(old(s), steps, s1, more, s, true, true);
        steps := steps + more;
      }
    }

    /** A buffer of the oldest transaction is written home from the log, past its buffer in the cache. */
    method CopyHome(b: Buf) returns (ghost step: Step)
      requires Valid() && queue != [] && b in queue[0].bufs && Plain(s.trans)
      modifies `disk, `s
      ensures Held({b.lba}, -1) && Recorded({}) && Checkpoints(old(s), s) && Runs(old(s), [step], s, true)
      ensures s.dm == old(s).dm && s.d == old(s).d && s.mustSync == old(s).mustSync && s.cache == old(s).cache
      ensures OthersWait(s, queue, b.lba)
    {
      hide Linked, RunningOk, Apply, Enabled, Runs, Plain, Orderly, LogCopy, Shape, RecsOk, SameRunning, Has, Own,
           Apart;
      var lba := b.lba;
      LinkShape(s, queue, start, last, transId, {}, -1);
      HasIt(queue[0].bufs, b);
      HeadCopy(s, queue, start, last, transId, lba);
      FlushApplied(s, lba);
      step := FlushLogCopy(lba);
      FlushLink(s, queue, start, last, transId, lba, step);
      OthersTight(s, queue, start, last, transId, lba, step);
      RunsStep(s, step);
      OwnSame(s, Apply(s, step));
      disk := disk.(home := disk.home[lba := disk.log[b.slot]]);
      s := Apply(s, step);
      LinkShape(s, queue, start, last, transId, {lba}, -1);
    }

    /** The write of ext4_block_flush_buf for a dirty buffer; its callback is still to come. */
    method WriteCached(lba: nat) returns (ghost steps: seq<Step>)
      requires Valid() && lba in cache
      modifies `disk, `cache, `clean, `s
      ensures Held({lba}, -1) && Recorded({}) && Checkpoints(old(s), s) && lba !in Own(s) && NotPending(s.pending, lba)
      ensures disk.home == old(disk.home)[lba := old(cache)[lba]] && cache == old(cache) - {lba}
      ensures clean == old(clean) + {lba} && lba !in old(clean)
      ensures steps == [FlushCached(lba)] && Runs(old(s), steps, s, true)
      ensures SameRunning(old(s), s) && s.phase == old(s).phase && s.mustSync == old(s).mustSync
      ensures s.dm == old(s).dm && s.d == old(s).d
    {
      hide Linked, RunningOk, Apply, Enabled, Runs, Orderly, Shape, LogCopy, Without, RecsOk, Pos, Apart;
      LinkShape(s, queue, start, last, transId, {}, -1);
      FlushApplied(s, lba);
      ghost var step := FlushCached(lba);
      FlushLink(s, queue, start, last, transId, lba, step);
      RunsStep(s, step);
      RunningLess(cache, open, s.touched, revokes, lba);
      OwnSame(s, Apply(s, step));
      NotOwn(s, lba);
      ApartWritten(clean, cache, open, s.touched, revokes, lba);
      disk := disk.(home := disk.home[lba := cache[lba]]);
      cache, clean := cache - {lba}, clean + {lba};
      LinkShape(Apply(s, step), queue, start, last, transId, {lba}, -1);
      Follow(Apply(s, step), {lba}, -1, {});
      steps := [step];
    }

    /** ext4_block_flush_buf for a buffer of a committed transaction, with its callback. */
    method FlushBuf(lba: nat) returns (ghost steps: seq<Step>, ghost freed: bool)
      requires Valid() && lba in cache
      modifies `start, `transId, `sbStart, `sbSequence, `queue, `recs, `disk, `cache, `clean, `s
      ensures Valid() && Checkpoints(old(s), s) && Runs(old(s), steps, s, true)
      ensures disk.home == old(disk.home)[lba := old(cache)[lba]] && cache == old(cache) - {lba}
      ensures clean == old(clean) + {lba}
      ensures forall k :: 0 <= k && IsNewest(old(queue), lba, k) ==>
                queue == EndedAll(old(queue), lba)[Popped(old(queue), lba, k)..]
      ensures !Holds(old(queue), lba) ==> queue == old(queue)
      ensures freed <==> exists k: nat :: IsNewest(old(queue), lba, k) && Times(old(queue)[k].bufs, lba) >= 3
      ensures old(Open()) ==> Open()
    {
      hide Linked, RunningOk, Runs, Shape, Popped, EndedAll, RecsOk, Has, HasRoom, ListOk, Own, NotPending, Times,
           Apart, Holds, IsNewest, TailOnly;
      LinkShape(s, queue, start, last, transId, {}, -1);
      steps := WriteCached(lba);
      ghost var s1 := s;
      ghost var more;
      more, freed := Callback(lba);
      RunsOn(old(s), steps, s1, more, s, true, true);
      TailAfter(old(s), s1, s);
      steps := steps + more;
      if old(Open()) {
        StillOpen(old(s), s, old(queue), queue, start, last, transId, lba, bufQueue, open, revokes, geo);
      }
    }

    /** The callback for a block that has been written home from the cache. */
    method Callback(lba: nat) returns (ghost steps: seq<Step>, ghost freed: bool)
      requires Held({lba}, -1) && Recorded({}) && lba !in Own(s) && NotPending(s.pending, lba)
      modifies `start, `transId, `sbStart, `sbSequence, `queue, `recs, `disk, `s
      ensures Valid() && Runs(old(s), steps, s, true) && TailOnly(old(s), s) && disk.home == old(disk).home
      ensures !old(s).mustSync ==> !s.mustSync
      ensures forall k :: 0 <= k && IsNewest(old(queue), lba, k) ==>
                queue == EndedAll(old(queue), lba)[Popped(old(queue), lba, k)..]
      ensures if Holds(old(queue), lba)
              then exists n: nat :: n <= |old(queue)| && queue == EndedAll(old(queue), lba)[n..]
              else queue == old(queue)
      ensures freed <==> exists k: nat :: IsNewest(old(queue), lba, k) && Times(old(queue)[k].bufs, lba) >= 3
    {
      hide Linked, RunningOk, Runs, Shape, Popped, EndedAll, RecsOk, Has, HasRoom, ListOk, Own, NotPending, Times,
           Apart;
      freed := false;
      if Holds(queue, lba) {
        var k := Newest(lba);
        ghost var q1 := queue;
        steps, freed := EndWrite(lba, k, {lba});
        OneNewest(q1, lba, k);
      } else {
        TightLink(s, queue, start, last, transId, lba, {lba}, -1);
        RunsNowhere(s);
        steps := [];
      }
      assert {lba} - {lba} == {};
    }

    /** The head's write of a block ends that has been written home. */
    method EndHead(lba: nat) returns (ghost steps: seq<Step>)
      requires Held({lba}, -1) && Recorded({}) && queue != [] && Has(queue[0].bufs, lba) && OthersWait(s, queue, lba)
      modifies `start, `transId, `sbStart, `sbSequence, `queue, `recs, `disk, `s
      ensures Valid() && TailOnly(old(s), s) && Runs(old(s), steps, s, true)
      ensures HeadEnded(old(s), old(queue), lba, s, queue)
      ensures SameWaits(old(queue)[0 := Ended(old(queue)[0], lba)], clean, old(recs), queue, clean, recs)
    {
      hide Linked, Apply, Enabled, Runs, Leading, RecsOk, Shape, Ended, Has, RunningOk, Own, Apart, SameWaits,
           HeadEnded;
      ghost var s1, q1 := s, queue;
      LinkSize(s, queue, start, last, transId, {lba}, -1);
      steps := EndWriteAt(0, lba, {lba}, -1, {});
      HeadEndedIs(s1, q1, lba, s1, s, queue);
      StillTight(s1, s, q1, queue, lba);
      TightLink(s, queue, start, last, transId, lba, {lba}, -1);
      assert {lba} - {lba} == {};
    }

    /** One turn of the loop of jbd_journal_flush_trans. A block with an up-to-date buffer whose record belongs to
        the transaction is left to ext4_block_flush_buf, which writes it if the buffer is dirty and does nothing,
        and calls nobody, if it is clean. */
    method FlushOne(b: Buf) returns (ghost steps: seq<Step>)
      requires Valid() && queue != [] && b in queue[0].bufs && Plain(s.trans)
      modifies `start, `transId, `sbStart, `sbSequence, `queue, `recs, `disk, `cache, `clean, `s
      ensures Valid() && Checkpoints(old(s), s) && Runs(old(s), steps, s, true)
      ensures SameWaits(old(queue), old(clean), old(recs), queue, clean, recs)
      ensures if WaitsFirst(old(queue), old(clean), old(recs), b.lba)
              then unchanged(this) && steps == []
              else HeadEnded(old(s), old(queue), b.lba, s, queue)
    {
      hide Linked, Apply, Enabled, Runs, Plain, Orderly, Leading, RecsOk, Shape, Ended, Has, RunningOk, Own, LogCopy,
           Apart, SameWaits, WaitsFirst, HeadEnded, OthersWait, NotPending, IsNewest, SameRunning, RunId, Numbered;
      var lba := b.lba;
      var owned := lba in recs && recs[lba] == queue[0].id;
      ghost var s0, q0, c0, r0 := s, queue, clean, recs;
      LinkIds(s, queue, start, last, transId, {}, -1);
      HasIt(queue[0].bufs, b);
      FirstIs(queue, clean, recs, lba, RunId(s));
      if owned && lba in clean {
        RunsNowhere(s);
        SameNow(queue, clean, recs);
        steps := [];
        return;
      }
      ghost var first;
      if owned && lba in cache {
        OwnerNewest(recs, queue, Own(s), RunId(s), lba);
        first := WriteCached(lba);
        LinkSize(s, queue, start, last, transId, {lba}, -1);
        OthersDone(s, queue, lba);
      } else {
        ghost var step := CopyHome(b);
        first := [step];
      }
      ghost var s1, c1 := s, clean;
      steps := EndHead(lba);
      FlushedWaits(q0, c0, r0, lba, RunId(s0), c1, owned && c1 != c0, queue, recs);
      HeadEndedOn(s0, s1, q0, lba, s, queue);
      RunsOn(s0, first, s1, steps, s, true, true);
      steps := first + steps;
    }

    /** jbd_journal_flush_trans: what the oldest transaction still has to write is written home, except for the
        blocks that wait for it in a clean buffer. The transaction leaves the queue exactly if there is none
        of these. `freed` says that the walk through its buffers goes on at one that has been freed. */
    method FlushTrans() returns (ghost steps: seq<Step>, ghost freed: bool)
      requires Valid() && queue != [] && !Done(queue[0]) && Plain(s.trans)
      modifies `start, `transId, `sbStart, `sbSequence, `queue, `recs, `disk, `cache, `clean, `s
      ensures Valid() && Checkpoints(old(s), s) && Runs(old(s), steps, s, true)
      ensures SameWaits(old(queue), old(clean), old(recs), queue, clean, recs)
      ensures if WaitsFor(old(queue), old(clean), old(recs), old(queue)[0].id)
              then
                && s.dm == old(s).dm && s.d == old(s).d && s.mustSync == old(s).mustSync
                && queue != [] && queue[0].id == old(queue)[0].id && queue[1..] == old(queue)[1..] && !Done(queue[0])
                && AllWait(queue, clean, recs)
              else
                && s.dm > old(s).dm && s.d == s.dm && !s.mustSync && Leading(queue) == 0
                && s.dm - old(s).dm <= |old(queue)| && queue == old(queue)[s.dm - old(s).dm..]
                && |queue| < |old(queue)|
      ensures old(AllWait(queue, clean, recs)) ==> unchanged(this) && steps == []
      ensures freed <==> Dangles(old(queue)[0].bufs, old(Mine(recs, queue[0].id) - clean))
    {
      hide Linked, RunningOk, Apply, Enabled, Runs, Plain, Orderly, RecsOk, Shape, Has, Drop, SameWaits, WaitsFor,
           Waits, Apart, Ended, AllWait, Dangles, Leading, Flushing, Flushed, WaitsFirst, HeadEnded, Turned, RunId,
           Numbered;
      steps, freed := [], Dangles(queue[0].bufs, Mine(recs, queue[0].id) - clean);
      RunsNowhere(s);
      var id, list := queue[0].id, queue[0].bufs;
      ghost var s0, q0, c0, r0 := s, queue, clean, recs;
      SameNow(queue, clean, recs);
      LinkIds(s, queue, start, last, transId, {}, -1);
      FlushStarts(q0, c0, r0, RunId(s));
      TurnFirst(s, q0, c0, r0);
      for i := 0 to |list|
        invariant Valid() && Checkpoints(s0, s) && Runs(s0, steps, s, true)
        invariant SameWaits(q0, c0, r0, queue, clean, recs) && Turned(s0, q0, c0, r0, s, queue, list, i)
        invariant AllWait(q0, c0, r0) ==> unchanged(this) && steps == []
      {
        var b := list[i];
        AllWaitAt(q0, c0, r0, b);
        TurnHead(s0, q0, c0, r0, s, queue, start, last, transId, list, i);
        if queue != [] && queue[0].id == id && b in queue[0].bufs {
          ghost var s1, q1, c1, r1 := s, queue, clean, recs;
          SameFirst(q0, c0, r0, queue, clean, recs);
          TurnEnds(s, queue, start, last, transId, b.lba);
          ghost var more := FlushOne(b);
          SameThen(q0, c0, r0, q1, c1, r1, queue, clean, recs);
          RunsOn(s0, steps, s1, more, s, true, true);
          steps := steps + more;
          TurnOn(s0, q0, c0, r0, s1, q1, s, queue, list, i);
        } else {
          TurnSkips(s0, q0, c0, r0, s, queue, list, i);
        }
      }
      TurnHead(s0, q0, c0, r0, s, queue, start, last, transId, list, |list|);
      TurnLast(s0, q0, c0, r0, s, queue, clean, recs, list);
    }

    /** jbd_journal_purge_cp_trans as jbd_journal_alloc_block calls it: one transaction leaves the queue, unless a
        block waits for it. If it was finished already the superblock on disk is not written. */
    method PurgeOne() returns (ghost steps: seq<Step>, ghost unsynced: bool)
      requires Valid() && queue != [] && s.phase.Logging? && Plain(s.trans)
      modifies `start, `transId, `sbStart, `sbSequence, `queue, `recs, `disk, `cache, `clean, `s
      ensures Valid() && Checkpoints(old(s), s) && Runs(old(s), steps, s, !unsynced)
      ensures SameWaits(old(queue), old(clean), old(recs), queue, clean, recs)
      ensures unsynced <==> Done(old(queue)[0])
      ensures s.dm > old(s).dm || (s.dm == old(s).dm && queue != [] && queue[0].id == old(queue)[0].id)
      ensures s.dm == old(s).dm <==> !unsynced && WaitsFor(old(queue), old(clean), old(recs), old(queue)[0].id)
      ensures !unsynced ==> Leading(queue) == 0
      ensures !old(s).mustSync ==> !s.mustSync
    {
      hide Linked, RunningOk, Apply, Enabled, Runs, Plain, Orderly, RecsOk, Freed, SameWaits, WaitsFor, Waits, Apart;
      unsynced := Done(queue[0]);
      if Done(queue[0]) {
        LinkShape(s, queue, start, last, transId, {}, -1);
        ghost var s0 := s;
        Retire(PurgeUnsynced, {}, -1, {});
        RunsStep(s0, PurgeUnsynced);
        steps := [PurgeUnsynced];
        AnyOrder(s0, steps, s, Orderly(s0, PurgeUnsynced));
      } else {
        ghost var freed;
        steps, freed := FlushTrans();
      }
    }

    /** The log is full, and the oldest transaction, for which a block waits, has not left the queue: the
        assertion of jbd_journal_alloc_block fails. */
    ghost predicate Walled()
      reads this
    {
      && Valid() && !s.mustSync && s.phase.Logging? && s.phase.alloc <= |s.phase.img| && !HasRoom(s)
      && queue != [] && WaitsFor(queue, clean, recs, queue[0].id)
    }

    ghost predicate Allotted(halted: bool)
      reads this
    {
      Valid() && !s.mustSync && if halted then Walled() else HasRoom(s)
    }

    /** jbd_journal_alloc_block: the next log slot. If that was the last free one a transaction is purged. Then
        there is room again, unless a block waits for it: the assertion fails. */
    method AllocBlock() returns (slot: nat, halted: bool, ghost steps: seq<Step>, ghost unsynced: bool)
      requires Valid() && Plain(s.trans) && !s.mustSync
      requires s.phase.Logging? && s.phase.alloc < |s.phase.img| < geo.Slots() && HasRoom(s)
      modifies `start, `last, `transId, `sbStart, `sbSequence, `queue, `recs, `disk, `cache, `clean, `s
      ensures Allotted(halted) && slot == SlotAt(geo, Head(s) + old(s).phase.alloc)
      ensures halted <==> Next(slot, geo) == old(start) && old(queue) != [] && !Done(old(queue)[0])
                          && WaitsFor(old(queue), old(clean), old(recs), old(queue)[0].id)
      ensures Checkpoints(old(s).(phase := s.phase), s) && s.phase == old(s).phase.(alloc := old(s).phase.alloc + 1)
      ensures Runs(old(s), steps, s, !unsynced)
      ensures unsynced <==> Next(slot, geo) == old(start) && old(queue) != [] && Done(old(queue)[0])
      ensures Purged(old(s), old(queue), s, queue, unsynced)
      ensures SameWaits(old(queue), old(clean), old(recs), queue, clean, recs)
    {
      hide Linked, RunningOk, Apply, Enabled, Runs, Plain, RecsOk, Purged, SameWaits, WaitsFor, Waits, Apart;
      LinkShape(s, queue, start, last, transId, {}, -1);
      AllocLink(s, queue, start, last, transId);
      RunsStep(s, Alloc);
      ghost var s0, q0 := s, queue;
      slot := last;
      last := Next(last, geo);
      OwnAlloc(s, Apply(s, Alloc));
      s := Apply(s, Alloc);
      LinkShape(s, queue, start, last, transId, {}, -1);
      steps, unsynced, halted := [Alloc], false, false;
      SameNow(queue, clean, recs);
      if last == start {
        QueueThere(s, queue, start, last, transId);
        ghost var s1, c0, r0 := s, clean, recs;
        ghost var more;
        more, unsynced := PurgeOne();
        RunsOn(s0, [Alloc], s1, more, s, true, !unsynced);
        steps := [Alloc] + more;
        LinkShape(s, queue, start, last, transId, {}, -1);
        halted := last == start;
        if s.dm > s1.dm {
          RoomAgain(s1, s);
          assert last != start by { RingRoom(s, queue, start, last, transId); }
        } else {
          SameFor(q0, c0, r0, queue, clean, recs, q0[0].id);
          StillFull(s1, s, queue, start, last, transId);
        }
        PurgedFull(s0, q0, s1, s, queue, unsynced);
      } else {
        PurgedAlloc(s0, s, queue);
      }
    }

    /** The commit may go on: there is room, and what has been written is in the log. */
    ghost predicate Ready()
      reads this
    {
      && Valid() && !s.mustSync && Plain(s.trans) && s.phase.Logging? && |s.phase.img| < geo.Slots()
      && s.phase.alloc <= |s.phase.img| && HasRoom(s) && InLog(s)
    }

    /** A log block is written. */
    method WriteBlock(slot: nat, b: Block, ghost j: nat) returns (ghost steps: seq<Step>)
      requires Ready() && Enabled(s, WriteLog(j)) && slot == SlotAt(geo, Head(s) + j) && b == s.phase.img[j]
      modifies `disk, `s
      ensures Ready() && Progresses(old(s), s) && Runs(old(s), steps, s, true)
      ensures s.phase == old(s).phase.(written := old(s).phase.written + {j}) && s.dm == old(s).dm
    {
      hide Linked, RunningOk, Apply, Enabled, Runs, Plain, RecsOk;
      LinkShape(s, queue, start, last, transId, {}, -1);
      WriteLink(s, queue, start, last, transId, j);
      WriteInLog(s, j);
      RunsStep(s, WriteLog(j));
      disk := disk.(log := disk.log[slot := b]);
      s := Apply(s, WriteLog(j));
      steps := [WriteLog(j)];
    }

    /** A log block is allocated for the commit. */
    method NextSlot() returns (slot: nat, halted: bool, ghost steps: seq<Step>, ghost unsynced: bool)
      requires Ready() && s.phase.alloc < |s.phase.img|
      modifies `start, `last, `transId, `sbStart, `sbSequence, `queue, `recs, `disk, `cache, `clean, `s
      ensures (if halted then Walled() else Ready()) && Progresses(old(s), s) && Runs(old(s), steps, s, !unsynced)
      ensures SameWaits(old(queue), old(clean), old(recs), queue, clean, recs)
      ensures slot == SlotAt(geo, Head(s) + old(s).phase.alloc)
      ensures s.phase == old(s).phase.(alloc := old(s).phase.alloc + 1)
      ensures Purged(old(s), old(queue), s, queue, unsynced)
    {
      hide Linked, RunningOk, Runs, Plain, RecsOk, Purged, SameWaits, WaitsFor, Apart;
      slot, halted, steps, unsynced := AllocBlock();
    }

    /** A block that is no descriptor is allocated and written. */
    method LogBlock(b: Block) returns (slot: nat, halted: bool, ghost steps: seq<Step>, ghost unsynced: bool)
      requires Ready() && s.phase.alloc < |s.phase.img| - 1 && b == s.phase.img[s.phase.alloc]
      requires IsHeader(b) ==> b[1] != DESCRIPTOR_BLOCK
      modifies `start, `last, `transId, `sbStart, `sbSequence, `queue, `recs, `disk, `cache, `clean, `s
      ensures (if halted then Walled() else Ready()) && Progresses(old(s), s) && Runs(old(s), steps, s, !unsynced)
      ensures SameWaits(old(queue), old(clean), old(recs), queue, clean, recs)
      ensures slot == SlotAt(geo, Head(s) + old(s).phase.alloc)
      ensures !halted ==> s.phase == old(s).phase.(alloc := old(s).phase.alloc + 1,
                                                   written := old(s).phase.written + {old(s).phase.alloc})
      ensures halted ==> Halting(old(s), s)
      ensures Purged(old(s), old(queue), s, queue, unsynced)
    {
      hide Linked, RunningOk, Runs, Plain, InLog, RecsOk, Purged, SameWaits, WaitsFor, Apart;
      ghost var s0, q0, j := s, queue, s.phase.alloc;
      slot, halted, steps, unsynced := NextSlot();
      if halted { return; }
      ghost var s1 := s;
      ghost var more := WriteBlock(slot, b, j);
      RunsOn(s0, steps, s1, more, s, !unsynced, true);
      PurgedSame(s0, q0, s1, s, queue, unsynced);
      steps := steps + more;
    }

    /** The data blocks of the group whose descriptor is block j; the log slot of each is noted. */
    method LogData(img: seq<Block>, j: nat, tags: nat, ghost id: nat, ghost t: Trans, ws: seq<Write>, k: nat,
                   homes: seq<Buf>)
      returns (homes': seq<Buf>, halted: bool, ghost steps: seq<Step>, ghost unsynced: bool)
      requires Ready() && LoggedTo(s, t, img, j + 1, j, j + 1)
      requires j < |img| && Group(img, id, j, |img| - 1, ws, k, geo) && tags == |Tags(img[j], HEADER_WORDS, geo)|
      requires j + tags + 1 < |img| && k + tags <= |ws| && HomesOk(geo, Head(s), img, ws, k, j + 1, homes)
      modifies `start, `last, `transId, `sbStart, `sbSequence, `queue, `recs, `disk, `cache, `clean, `s
      ensures (if halted then Walled() else Ready()) && Progresses(old(s), s) && Runs(old(s), steps, s, !unsynced)
      ensures SameWaits(old(queue), old(clean), old(recs), queue, clean, recs)
      ensures halted ==> Halting(old(s), s)
      ensures !halted ==>
                && LoggedTo(s, t, img, j + 1 + tags, j, j + 1 + tags)
                && HomesOk(geo, Head(old(s)), img, ws, k + tags, j + 1 + tags, homes')
      ensures Purged(old(s), old(queue), s, queue, unsynced)
    {
      hide Runs, HomesOk, Group, Tags, SlotAt, Pos, Linked, RunningOk, Plain, Shape, RecsOk, Purged, SameWaits,
           WaitsFor, Apart;
      ReadyParts();
      steps, unsynced, halted, homes' := [], false, false, homes;
      RunsNowhere(s);
      SameNow(queue, clean, recs);
      PurgedNone(s, s, queue);
      for i := 0 to tags
        invariant Ready() && Progresses(old(s), s) && Runs(old(s), steps, s, !unsynced)
        invariant LoggedTo(s, t, img, j + 1 + i, j, j + 1 + i)
        invariant HomesOk(geo, Head(old(s)), img, ws, k + i, j + 1 + i, homes')
        invariant Purged(old(s), old(queue), s, queue, unsynced)
        invariant SameWaits(old(queue), old(clean), old(recs), queue, clean, recs)
      {
        DataBlock(img, id, j, |img| - 1, ws, k, geo, i);
        ghost var s1, q1, c1, r1 := s, queue, clean, recs;
        var slot;
        ghost var more, late;
        slot, halted, more, late := LogBlock(img[j + 1 + i]);
        RunsOn(old(s), steps, s1, more, s, !unsynced, !late);
        PurgedOn(old(s), old(queue), s1, q1, unsynced, s, queue, late);
        SameThen(old(queue), old(clean), old(recs), q1, c1, r1, queue, clean, recs);
        steps, unsynced := steps + more, unsynced || late;
        if halted { return; }
        HomesMore(geo, Head(old(s)), img, ws, k + i, j + 1 + i, homes', j + 1 + i, slot);
        homes' := homes' + [Buf(ws[k + i].lba, slot)];
      }
    }

    /** A descriptor and its data blocks, as jbd_journal_prepare logs them: the descriptor is allocated
        first and written last. */
    method LogGroup(img: seq<Block>, j: nat, ghost id: nat, ghost t: Trans, ws: seq<Write>, k: nat, homes: seq<Buf>)
      returns (tags: nat, homes': seq<Buf>, halted: bool, ghost steps: seq<Step>, ghost unsynced: bool)
      requires Ready() && LoggedTo(s, t, img, j, j, j)
      requires j < |img| && Group(img, id, j, |img| - 1, ws, k, geo) && HomesOk(geo, Head(s), img, ws, k, j, homes)
      modifies `start, `last, `transId, `sbStart, `sbSequence, `queue, `recs, `disk, `cache, `clean, `s
      ensures (if halted then Walled() else Ready()) && Progresses(old(s), s) && Runs(old(s), steps, s, !unsynced)
      ensures SameWaits(old(queue), old(clean), old(recs), queue, clean, recs)
      ensures halted ==> Halting(old(s), s)
      ensures tags == |Tags(img[j], HEADER_WORDS, geo)| && j + tags + 1 < |img| && k + tags <= |ws|
      ensures !halted ==>
                && LoggedTo(s, t, img, j + tags + 1, j + tags + 1, j + tags + 1)
                && HomesOk(geo, Head(old(s)), img, ws, k + tags, j + tags + 1, homes')
      ensures Purged(old(s), old(queue), s, queue, unsynced)
    {
      hide Runs, HomesOk, Group, Tags, SlotAt, Pos, Linked, RunningOk, Plain, Shape, Enabled, RecsOk, Purged, SameWaits,
           WaitsFor, Apart;
      ReadyParts();
      GroupBounds(img, id, j, |img| - 1, ws, k, geo);
      tags, homes' := |Tags(img[j], HEADER_WORDS, geo)|, homes;
      var slot;
      slot, halted, steps, unsynced := NextSlot();
      if halted { return; }
      ReadyParts();
      HomesLater(geo, Head(s), img, ws, k, j, homes, j + 1);
      ghost var s1, q1, c1, r1 := s, queue, clean, recs;
      ghost var more, late;
      homes', halted, more, late := LogData(img, j, tags, id, t, ws, k, homes);
      RunsOn(old(s), steps, s1, more, s, !unsynced, !late);
      PurgedOn(old(s), old(queue), s1, q1, unsynced, s, queue, late);
      SameThen(old(queue), old(clean), old(recs), q1, c1, r1, queue, clean, recs);
      steps, unsynced := steps + more, unsynced || late;
      if halted { return; }
      ReadyParts();
      DescriptorReady(s, t, img, j, j + 1 + tags);
      ghost var s2 := s;
      more := WriteBlock(slot, img[j], j);
      RunsOn(old(s), steps, s2, more, s, !unsynced, true);
      PurgedSame(old(s), old(queue), s2, s, queue, unsynced);
      steps := steps + more;
    }

    /** jbd_journal_prepare and jbd_journal_prepare_revoke: the whole image but the commit block. */
    method LogImage(img: seq<Block>, ghost id: nat, ghost t: Trans, ws: seq<Write>)
      returns (homes: seq<Buf>, halted: bool, ghost steps: seq<Step>, ghost unsynced: bool)
      requires Ready() && LoggedTo(s, t, img, 0, 0, 0) && t.writes == ws && ImageOf(img, id, t, geo)
      modifies `start, `last, `transId, `sbStart, `sbSequence, `queue, `recs, `disk, `cache, `clean, `s
      ensures (if halted then Walled() else Ready()) && Progresses(old(s), s) && Runs(old(s), steps, s, !unsynced)
      ensures SameWaits(old(queue), old(clean), old(recs), queue, clean, recs)
      ensures halted ==> Halting(old(s), s)
      ensures img != [] && |img| > 0
      ensures !halted ==>
                && LoggedTo(s, t, img, |img| - 1, |img| - 1, |img| - 1)
                && HomesOk(geo, Head(old(s)), img, ws, |ws|, |img| - 1, homes)
      ensures Purged(old(s), old(queue), s, queue, unsynced)
    {
      hide Runs, HomesOk, Group, Tags, SlotAt, Pos, Linked, RunningOk, Plain, Shape, Remaining, Body, RecsOk, Purged,
           SameWaits, WaitsFor, Apart;
      ReadyParts();
      ImageRemains(img, id, t, geo);
      homes, steps, unsynced, halted := [], [], false, false;
      RunsNowhere(s);
      SameNow(queue, clean, recs);
      PurgedNone(s, s, queue);
      NoHomes(geo, Head(s), img, ws);
      ghost var rs := t.revokes;
      var j: nat, k: nat := 0, 0;
      var n := |img| - 1;
      while j < n
        invariant j <= n && k <= |ws| && Remaining(img, id, j, n, ws, k, rs, geo)
        invariant Ready() && Progresses(old(s), s) && Runs(old(s), steps, s, !unsynced)
        invariant LoggedTo(s, t, img, j, j, j)
        invariant HomesOk(geo, Head(old(s)), img, ws, k, j, homes)
        invariant Purged(old(s), old(queue), s, queue, unsynced)
        invariant SameWaits(old(queue), old(clean), old(recs), queue, clean, recs)
      {
        HeaderThere(img, id, j, n, ws, k, rs, geo);
        ghost var s1, q1, c1, r1 := s, queue, clean, recs;
        ghost var more, late;
        if img[j][1] == DESCRIPTOR_BLOCK {
          GroupNext(img, id, j, n, ws, k, rs, geo);
          var tags;
          tags, homes, halted, more, late := LogGroup(img, j, id, t, ws, k, homes);
          j, k := j + tags + 1, k + tags;
        } else {
          rs := RevokeNext(img, id, j, n, ws, k, rs, geo);
          var slot;
          slot, halted, more, late := LogBlock(img[j]);
          HomesLater(geo, Head(old(s)), img, ws, k, j, homes, j + 1);
          j := j + 1;
        }
        RunsOn(old(s), steps, s1, more, s, !unsynced, !late);
        PurgedOn(old(s), old(queue), s1, q1, unsynced, s, queue, late);
        SameThen(old(queue), old(clean), old(recs), q1, c1, r1, queue, clean, recs);
        steps, unsynced := steps + more, unsynced || late;
        if halted { return; }
      }
      HeaderThere(img, id, j, n, ws, k, rs, geo);
    }

    /** jbd_trans_write_commit_block: from here on the transaction is committed. */
    method WriteCommitBlock(img: seq<Block>, ghost t: Trans)
      returns (halted: bool, ghost steps: seq<Step>, ghost unsynced: bool, ghost u: State)
      requires Ready() && img != [] && LoggedTo(s, t, img, |img| - 1, |img| - 1, |img| - 1)
      modifies `start, `last, `transId, `sbStart, `sbSequence, `queue, `recs, `disk, `cache, `clean, `allocTransId, `s
      ensures Progresses(old(s), u) && Purged(old(s), old(queue), u, queue, unsynced) && Shape(u)
      ensures u.phase.Logging? && u.phase.alloc == |img| && Runs(old(s), steps, s, !unsynced)
      ensures SameWaits(old(queue), old(clean), old(recs), queue, clean, recs)
      ensures if halted then Walled() && Halting(old(s), s) && s == u
              else
                && InLog(u) && LoggedTo(u, t, img, |img|, |img| - 1, |img| - 1)
                && HasRoom(u) && !u.mustSync && Enabled(u, WriteCommit) && s == Apply(u, WriteCommit)
                && Held(u.revokes, -1) && Recorded({}) && !s.mustSync
                && RunningOk(u.cache, u.open, u.touched, u.revokes)
    {
      hide Runs, SlotAt, Pos, Linked, RunningOk, Plain, Shape, Enabled, Apply, Without, RecsOk, Purged, SameWaits,
           WaitsFor, Apart;
      var slot;
      slot, halted, steps, unsynced := NextSlot();
      u := s;
      if halted {
        LinkShape(s, queue, start, last, transId, {}, -1);
        return;
      }
      ReadyParts();
      CommitEnabled(s, t, img);
      CommitLink(s, queue, start, last, transId);
      RunsStep(s, WriteCommit);
      disk := disk.(log := disk.log[slot := img[|img| - 1]]);
      allocTransId := allocTransId + 1;
      s := Apply(s, WriteCommit);
      LinkShape(s, queue, start, last, transId, u.revokes, -1);
      OwnCommit(u, s);
      RunsOn(old(s), steps, u, [WriteCommit], s, !unsynced, true);
      steps := steps + [WriteCommit];
    }

    /** The checkpoint of revoked blocks is complete with the commit. */
    method CompleteRevoked(rs: seq<nat>, ghost revoked: set<nat>) returns (ghost steps: seq<Step>)
      requires Held(revoked, -1) && Recorded({}) && s.phase.Finishing?
      requires forall lba :: lba in revoked ==> lba in rs
      requires forall i :: 0 <= i < |rs| ==> rs[i] in revokes && NotPending(s.pending, rs[i])
      modifies `start, `transId, `sbStart, `sbSequence, `queue, `recs, `disk, `s
      ensures Valid() && TailOnly(old(s), s) && Runs(old(s), steps, s, true)
      ensures !old(s).mustSync ==> !s.mustSync
    {
      hide Runs, Linked, Shape, Leading, Popped, EndedAll, NextId, RecsOk, Has;
      steps := [];
      RunsNowhere(s);
      ghost var loose := revoked;
      for i := 0 to |rs|
        invariant Held(loose, -1) && Recorded({}) && forall lba :: lba in loose ==> lba in rs[i..]
        invariant TailOnly(old(s), s) && Runs(old(s), steps, s, true) && (!old(s).mustSync ==> !s.mustSync)
      {
        var lba := rs[i];
        assert rs[i..] == [lba] + rs[i + 1..];
        if Holds(queue, lba) {
          var k := Newest(lba);
          ghost var s1 := s;
          ghost var more, freed := EndWrite(lba, k, loose);
          RunsOn(old(s), steps, s1, more, s, true, true);
          steps := steps + more;
        } else {
          TightLink(s, queue, start, last, transId, lba, loose, -1);
        }
        loose := loose - {lba};
      }
      assert loose == {};
    }

    /** The committed transaction will be the only one in the queue: the superblock names it as the tail. */
    method NameTail(q: CpTrans) returns (ghost steps: seq<Step>)
      requires Valid() && Describing(s, q) && queue == []
      modifies `start, `transId, `sbStart, `sbSequence, `disk, `s
      ensures Valid() && TailOnly(old(s), s) && Runs(old(s), steps, s, true) && Describing(s, q) && s.d == s.dm
    {
      hide Runs, Linked, RunningOk, EntryOk, EntryCopies, Pos, SlotAt, RecsOk, Has;
      EmptyQueue(s, start, last, transId, q);
      ghost var s0, id := s, |s.trans| - 1;
      start, transId := Wrap(q.startIblock, geo), q.id;
      sbStart, sbSequence := start, transId;
      steps := WriteSuper({}, -1, {});
      LinkShape(s, queue, start, last, transId, {}, -1);
      EntrySame(s0, s, id, q, {}, -1);
      CopiesSame(s0, s, id, q);
    }

    /** The commit returns with nothing to write home and nothing before it: the tail passes the transaction. */
    method PassTrans(q: CpTrans)
      requires Valid() && Describing(s, q) && queue == [] && q.dataCnt == 0
      modifies `start, `transId, `sbStart, `sbSequence, `cache, `bufQueue, `open, `revokes, `s
      ensures Valid() && Enabled(old(s), FinishCommit) && s == Apply(old(s), FinishCommit) && bufQueue == []
    {
      hide Linked, Apply, Enabled, Describing, Shape, Leading, NextId, RunningOk, RecsOk, RunId, QueueEnd, Runs, Apart;
      ApartJoined(clean, cache, open);
      FinishLink(s, queue, start, last, transId, q);
      FinishRecords(s, queue, start, last, transId, q, recs);
      start, transId := Wrap(q.startIblock + q.allocBlocks, geo), q.id + 1;
      sbStart, sbSequence := start, transId;
      cache, bufQueue, open, revokes := cache + open, [], map[], {};
      s := Apply(s, FinishCommit);
      NothingRuns(cache, open, s.touched, revokes);
    }

    /** Or the transaction is in the checkpoint queue, with the records of its blocks. */
    method JoinQueue(q: CpTrans)
      requires Valid() && Describing(s, q) && (queue == [] ==> q.dataCnt != 0 && s.d == s.dm)
      modifies `queue, `cache, `bufQueue, `open, `revokes, `s
      ensures Valid() && Enabled(old(s), FinishCommit) && s == Apply(old(s), FinishCommit) && bufQueue == []
      ensures queue == old(queue) + [q]
    {
      hide Linked, Apply, Enabled, Describing, Shape, Leading, NextId, RunningOk, RecsOk, RunId, QueueEnd, Runs, Apart;
      ApartJoined(clean, cache, open);
      FinishLink(s, queue, start, last, transId, q);
      FinishRecords(s, queue, start, last, transId, q, recs);
      queue := queue + [q];
      cache, bufQueue, open, revokes := cache + open, [], map[], {};
      s := Apply(s, FinishCommit);
      NothingRuns(cache, open, s.touched, revokes);
    }

    /** The committed transaction enters the checkpoint queue, after the writes of revoked blocks have been
        ended there. */
    method EnterQueue(q: CpTrans, rs: seq<nat>) returns (ghost steps: seq<Step>)
      requires Held(revokes, -1) && Recorded({}) && Describing(s, q) && HasRoom(s)
      requires forall lba :: lba in revokes <==> lba in rs
      requires forall i :: 0 <= i < |rs| ==> NotPending(s.pending, rs[i])
      modifies `start, `transId, `sbStart, `sbSequence, `queue, `recs, `disk, `cache, `bufQueue, `open, `revokes, `s
      ensures Open() && Runs(old(s), steps, s, true)
      ensures s.trans == old(s).trans && s.imgs == old(s).imgs && s.acked == |s.trans|
      ensures open == map[] && bufQueue == [] && revokes == {}
      ensures forall lba :: lba in old(open) ==> Holds(queue, lba)
    {
      hide Runs, Linked, Describing, Shape, RunningOk, HasRoom, RecsOk, ListOk, Apply, Enabled, Apart, Has, SameWaits;
      ghost var s0 := s;
      DescribingShape(s, q);
      steps := CompleteRevoked(rs, revokes);
      LinkShape(s, queue, start, last, transId, {}, -1);
      DescribingStill(s0, s, q);
      if queue == [] && q.dataCnt != 0 {
        ghost var s1 := s;
        ghost var more := NameTail(q);
        RunsOn(s0, steps, s1, more, s, true, true);
        steps := steps + more;
      }
      ghost var s2 := s;
      FinishLink(s, queue, start, last, transId, q);
      ghost var q1 := queue;
      NothingDirty(s, q);
      if queue == [] && q.dataCnt == 0 {
        PassTrans(q);
      } else {
        JoinQueue(q);
        assert queue[|q1|] == q;
      }
      RunsOn(s0, steps, s2, [FinishCommit], s, true, true);
      steps := steps + [FinishCommit];
      LinkShape(s, queue, start, last, transId, {}, -1);
      NothingListed(queue, geo);
      RoomOn(s0, s);
    }

    /** The commit of an image that fits. */
    method CommitImage(img: seq<Block>, ws: seq<Write>, rs: seq<nat>, ghost t: Trans)
      returns (halted: bool, ghost steps: seq<Step>, ghost unsynced: bool)
      requires Ready() && LoggedTo(s, t, img, 0, 0, 0) && t == Trans(ws, rs) && From(ws, open)
      requires ImageOf(img, NextId(s), t, geo) && Describes(t, open, revokes)
      modifies this
      ensures Runs(old(s), steps, s, !unsynced)
      ensures if halted then Walled() && Progresses(old(s), s)
              else
                && Open() && s.trans == old(s).trans + [t] && s.imgs == old(s).imgs + [img] && s.acked == |s.trans|
                && open == map[] && bufQueue == [] && revokes == {}
                && forall lba :: lba in old(open) ==> Holds(queue, lba)
      ensures old(s).dm <= |old(s).imgs| && geo.Valid()
      ensures unsynced <==> Leading(old(queue)) > 0
                            && Head(old(s)) + |img| >= Pos(old(s).imgs, old(s).dm) + geo.Slots()
      ensures halted <==> Meets(old(s), old(queue), old(clean), old(recs), |img|)
    {
      hide Runs, Linked, Describing, Shape, RunningOk, Describes, ImageOf, HomesOk, Leading, SlotAt, Pos, InLog,
           Plain, From, RecsOk, Purged, SameWaits, WaitsFor, Apart, Meets;
      ReadyParts();
      ghost var s0, q0, c0, r0, id := s, queue, clean, recs, NextId(s);
      FirstSlot(s, queue, start, last, transId);
      var first, number := last, allocTransId;
      var homes;
      homes, halted, steps, unsynced := LogImage(img, id, t, ws);
      if halted {
        HaltMeets(s0, q0, c0, r0, s, queue, clean, recs, start, last, transId, unsynced, |img|);
        return;
      }
      ghost var s1, q1, c1, r1 := s, queue, clean, recs;
      ghost var more, late, u;
      halted, more, late, u := WriteCommitBlock(img, t);
      RunsOn(s0, steps, s1, more, s, !unsynced, !late);
      PurgedOn(s0, q0, s1, q1, unsynced, u, queue, late);
      SameThen(q0, c0, r0, q1, c1, r1, queue, clean, recs);
      steps, unsynced := steps + more, unsynced || late;
      if halted {
        HaltMeets(s0, q0, c0, r0, s, queue, clean, recs, start, last, transId, unsynced, |img|);
        return;
      }
      PurgedAll(s0, q0, u, queue, unsynced, |img|);
      NothingMet(s0, q0, c0, r0, u, s, queue, clean, recs, start, last, transId, |img|);
      CommitDescribed(u, img, t, homes, id, first);
      CommitFields(u);
      CommitRoom(u);
      ghost var s2 := s;
      more := EnterQueue(CpTrans(number, first, |img|, |ws|, 0, homes), rs);
      RunsOn(s0, steps, s2, more, s, !unsynced, true);
      steps := steps + more;
    }

    method Lowest(rest: set<nat>) returns (b: nat)
      requires rest != {}
      ensures b in rest && forall x :: x in rest ==> b <= x
    {
      b :| b in rest;
      var left := rest - {b};
      while left != {}
        invariant b in rest && left <= rest && forall x :: x in rest && x !in left ==> b <= x
        decreases |left|
      {
        var x :| x in left;
        if x < b { b := x; }
        left := left - {x};
      }
    }

    /** The revoke records in the order of their tree. */
    method RevokeList() returns (rs: seq<nat>)
      ensures forall lba :: lba in rs <==> lba in revokes
      ensures forall i, j :: 0 <= i < j < |rs| ==> rs[i] < rs[j]
      ensures |rs| == |revokes|
    {
      rs := [];
      var rest := revokes;
      while rest != {}
        invariant rest <= revokes && |rs| + |rest| == |revokes|
        invariant forall lba :: lba in rs <==> lba in revokes - rest
        invariant forall i, j :: 0 <= i < j < |rs| ==> rs[i] < rs[j]
        invariant forall i, x :: 0 <= i < |rs| && x in rest ==> rs[i] < x
        decreases |rest|
      {
        var b := Lowest(rest);
        rs, rest := rs + [b], rest - {b};
      }
    }

    /** A block record of the running transaction goes back to the newest transaction of the queue with an
        outstanding write of the block, or is freed. */
    method GiveBack(lba: nat, ghost own: set<nat>) returns (held: bool, k: nat)
      requires Held({}, -1) && RecsOk(recs, queue, own, RunId(s), {}) && lba in own
      modifies `recs
      ensures RecsOk(recs, queue, own - {lba}, RunId(s), {})
      ensures held <==> Holds(queue, lba)
      ensures held ==> IsNewest(queue, lba, k)
      ensures (lba in recs <==> held) && NewestOwns(recs, queue, lba)
      ensures forall x :: x != lba ==> (x in recs <==> x in old(recs)) && (x in recs ==> recs[x] == old(recs)[x])
    {
      hide Linked, RecsOk, RunningOk, RunId, Shape, Has, Numbered;
      LinkIds(s, queue, start, last, transId, {}, -1);
      held, k := Holds(queue, lba), 0;
      if held {
        k := Newest(lba);
        RecsBack(recs, queue, own, RunId(s), lba, k);
        recs := recs[lba := queue[k].id];
      } else {
        RecsGone(recs, queue, own, RunId(s), lba);
        recs := recs - {lba};
      }
    }

    /** The clean buffers leave the running transaction when it commits, with their records. `freed` says that
        the walk reads a record which it has freed: that of a block with an older buffer, from before it was freed
        for the first time. */
    method DropClean() returns (ghost freed: bool)
      requires Open()
      modifies `recs
      ensures RecsOk(recs, queue, open.Keys, RunId(s), {})
      ensures GivenBack(old(recs), recs, queue, s.touched - open.Keys)
      ensures freed <==> Twice(bufQueue, open)
    {
      hide Linked, RecsOk, RunningOk, Shape, IsNewest, GivenBack, Holds, HasRoom, Apart, Twice;
      freed := false;
      NoneTwice(open);
      assert bufQueue[|bufQueue|..] == [];
      ghost var was, back, run := recs, {}, RunId(s);
      RunIs(s);
      NoneBack(recs, queue);
      assert s.touched - back == s.touched;
      for i := |bufQueue| downto 0
        invariant forall lba :: lba in back <==> lba in bufQueue[i..] && lba !in open
        invariant RecsOk(recs, queue, s.touched - back, run, {}) && GivenBack(was, recs, queue, back)
        invariant queue == old(queue) && s == old(s) && bufQueue == old(bufQueue)
        invariant freed <==> Twice(bufQueue[i..], open)
      {
        var lba := bufQueue[i];
        assert bufQueue[i..] == [lba] + bufQueue[i + 1..];
        TwiceMore(bufQueue, i, open);
        RecIs(recs, queue, s.touched - back, run, lba);
        freed := freed || lba in back;
        if lba !in open && lba in recs && recs[lba] == allocTransId {
          ghost var now := recs;
          var held, k := GiveBack(lba, s.touched - back);
          BackStep(was, now, recs, queue, back, lba);
          assert s.touched - back - {lba} == s.touched - (back + {lba});
          back := back + {lba};
        }
      }
      assert bufQueue[0..] == bufQueue;
      CleanIs(bufQueue, open, s.touched, cache, revokes, back);
    }

    /** __jbd_journal_commit_trans. A transaction without dirty buffers and revokes leaves no trace. Otherwise,
        if its image is shorter than the log, it is committed: its blocks are written to the log, each
        descriptor after its data and the commit block last, and it joins the checkpoint queue. The
        superblock on disk falls behind exactly when the log fills up and a finished transaction lingers at
        the head of the queue. The commit is cut off by a failed assertion exactly when the log fills up to a
        transaction that still has to write a block whose buffer is clean. */
    method CommitTrans(uuid: Block, scratch: Block)
      returns (fits: bool, halted: bool, ghost t: Trans, ghost steps: seq<Step>, ghost unsynced: bool,
               ghost freed: bool)
      requires Open() && Plain(s.trans)
      requires geo.Valid() && |uuid| == UUID_WORDS && |scratch| == geo.words
      modifies this
      ensures Runs(old(s), steps, s, !unsynced) && old(s).dm <= |old(s).imgs| && geo == old(s).geo
      ensures t.writes == DirtyWrites(Buffers(old(bufQueue), old(open))) && Describes(t, old(open), old(revokes))
      ensures |t.revokes| == |old(revokes)| && (halted ==> fits)
      ensures fits <==> ImageLength(|t.writes|, |t.revokes|, geo) < geo.Slots()
      ensures if !fits then unchanged(this)
              else if halted then Walled() && s.trans == old(s).trans && s.acked == old(s).acked
              else
                && Open() && bufQueue == [] && open == map[] && revokes == {}
                && (if t == Trans([], []) then s == old(s).(touched := {}) && queue == old(queue)
                    else s.trans == old(s).trans + [t] && s.acked == |s.trans|)
                && forall lba :: lba in old(open) ==> Holds(queue, lba)
      ensures var n := ImageLength(|t.writes|, |t.revokes|, geo);
        && (unsynced <==> fits && t != Trans([], []) && Leading(old(queue)) > 0
                          && Head(old(s)) + n >= Pos(old(s).imgs, old(s).dm) + geo.Slots())
        && (halted <==> fits && t != Trans([], []) && Blocked(old(s), old(queue), old(clean), n))
      ensures freed <==> fits && Twice(old(bufQueue), old(open))
      ensures Inv(old(s)) && !unsynced ==> Inv(s)
      ensures Core(old(s)) && Tracked(old(s)) ==> Core(s) && Tracked(s)
    {
      hide Runs, Linked, RunningOk, Apply, Shape, Leading, Describes, Enabled, Plain, QueueFits, Orderly, DirtyWrites,
           Inv, Core, Tracked, RecsOk, ListOk, From, Pos, Apart, WaitsFor, HasRoom, Blocked, Holds, Twice, GivenBack;
      LinkShape(s, queue, start, last, transId, {}, -1);
      var bufs := Buffers(bufQueue, open);
      var rs := RevokeList();
      RunningIs(bufQueue, open, s.touched, revokes, rs, queue, geo, cache);
      var ws := DirtyWrites(bufs);
      t := Trans(ws, rs);
      ShapeTail(s);
      var img := EncodeTrans(bufs, rs, allocTransId, uuid, scratch, geo);
      steps, unsynced, halted, freed := [], false, false, false;
      RunsNowhere(s);
      if |img| >= geo.Slots() { return false, false, t, steps, unsynced, freed; }
      fits := true;
      RunIs(s);
      freed := DropClean();
      halted, steps, unsynced := CommitOrDrop(img, ws, rs, t);
    }

    /** The part behind the clean buffers. */
    method CommitOrDrop(img: seq<Block>, ws: seq<Write>, rs: seq<nat>, ghost t: Trans)
      returns (halted: bool, ghost steps: seq<Step>, ghost unsynced: bool)
      requires Held({}, -1) && s.phase.Idle? && !s.mustSync && Shape(s) && HasRoom(s) && Plain(s.trans)
      requires RecsOk(recs, queue, open.Keys, RunId(s), {}) && Apart(clean, cache, open)
      requires ListOk(bufQueue, open, s.touched, revokes, queue, geo)
      requires t == Trans(ws, rs) && From(ws, open) && Describes(t, open, revokes)
      requires img == [] <==> t == Trans([], [])
      requires img == [] ==> open == map[] && revokes == {}
      requires img != [] ==> ImageOf(img, NextId(s), t, geo) && |img| < geo.Slots()
      modifies this
      ensures Runs(old(s), steps, s, !unsynced) && geo == old(s).geo && geo.Valid() && old(s).dm <= |old(s).imgs|
      ensures if halted then Walled() && s.trans == old(s).trans && s.acked == old(s).acked
              else
                && Open() && bufQueue == [] && open == map[] && revokes == {}
                && (if img == [] then s == old(s).(touched := {}) && queue == old(queue)
                    else s.trans == old(s).trans + [t] && s.acked == |s.trans|)
                && forall lba :: lba in old(open) ==> Holds(queue, lba)
      ensures unsynced <==> img != [] && Leading(old(queue)) > 0
                            && Head(old(s)) + |img| >= Pos(old(s).imgs, old(s).dm) + geo.Slots()
      ensures halted <==> img != [] && Blocked(old(s), old(queue), old(clean), |img|)
      ensures Inv(old(s)) && !unsynced ==> Inv(s)
      ensures Core(old(s)) && Tracked(old(s)) ==> Core(s) && Tracked(s)
    {
      hide Runs, Linked, RunningOk, Apply, Shape, Leading, Describes, Enabled, Plain, Orderly, Inv, Core, Tracked,
           RecsOk, ListOk, From, Pos, Apart, Meets, WaitsFor, Filled, HasRoom, Blocked, Holds;
      LinkShape(s, queue, start, last, transId, {}, -1);
      ShapeTail(s);
      ghost var s0 := s;
      halted, unsynced := false, false;
      CommitMeets(s, queue, start, last, transId, clean, cache, open, recs, |img|);
      if img == [] {
        steps := DropEmpty();
      } else {
        halted, steps, unsynced := CommitBegun(img, ws, rs, t);
      }
      if Inv(s0) && !unsynced { RunsKeep(s0, steps, s); }
      if Core(s0) && Tracked(s0) { RunsTrack(s0, steps, s, !unsynced); }
    }

    /** Nothing to commit: the transaction is dropped. */
    method DropEmpty() returns (ghost steps: seq<Step>)
      requires Held({}, -1) && s.phase.Idle? && !s.mustSync && Shape(s) && HasRoom(s)
      requires RecsOk(recs, queue, open.Keys, RunId(s), {}) && open == map[] && revokes == {}
      requires ListOk(bufQueue, open, s.touched, revokes, queue, geo) && Apart(clean, cache, open)
      modifies `bufQueue, `s
      ensures Open() && Runs(old(s), steps, s, true) && s == old(s).(touched := {}) && bufQueue == []
    {
      hide Linked, RunningOk, Apply, Enabled, Shape, RecsOk, Runs, Orderly, HasRoom, Apart;
      EmptyAbort(s, queue, start, last, transId, bufQueue, geo);
      AbortFields(s);
      RunningLink(s, queue, start, last, transId, Abort);
      RunsStep(s, Abort);
      steps := [Abort];
      bufQueue := [];
      s := Apply(s, Abort);
      LinkShape(s, queue, start, last, transId, {}, -1);
      RunIs(s);
      assert open.Keys == {};
      NothingListed(queue, geo);
      NothingRuns(cache, open, s.touched, revokes);
    }

    /** The commit of an image that fits, from its first block on. */
    method CommitBegun(img: seq<Block>, ws: seq<Write>, rs: seq<nat>, ghost t: Trans)
      returns (halted: bool, ghost steps: seq<Step>, ghost unsynced: bool)
      requires Held({}, -1) && s.phase.Idle? && !s.mustSync && Shape(s) && HasRoom(s) && Plain(s.trans)
      requires RecsOk(recs, queue, open.Keys, RunId(s), {}) && Apart(clean, cache, open)
      requires t == Trans(ws, rs) != Trans([], []) && From(ws, open) && Describes(t, open, revokes)
      requires ImageOf(img, NextId(s), t, geo) && |img| < geo.Slots()
      modifies this
      ensures Runs(old(s), steps, s, !unsynced)
      ensures if halted then Walled() && s.trans == old(s).trans && s.acked == old(s).acked
              else
                && Open() && s.trans == old(s).trans + [t] && s.acked == |s.trans|
                && bufQueue == [] && open == map[] && revokes == {}
                && forall lba :: lba in old(open) ==> Holds(queue, lba)
      ensures old(s).dm <= |old(s).imgs| && geo == old(s).geo && geo.Valid()
      ensures unsynced <==> Leading(old(queue)) > 0
                            && Head(old(s)) + |img| >= Pos(old(s).imgs, old(s).dm) + geo.Slots()
      ensures halted <==> Meets(old(s), old(queue), old(clean), old(recs), |img|)
    {
      hide Runs, Linked, RunningOk, Apply, Shape, Leading, Describes, Enabled, Plain, Orderly, RecsOk, ListOk, From,
           Pos, HasRoom, InLog, Apart, Meets, WaitsFor;
      LinkShape(s, queue, start, last, transId, {}, -1);
      ShapeTail(s);
      BeginEnabled(s, t, img);
      BeginLink(s, queue, start, last, transId, t, img);
      RunsStep(s, BeginCommit(t, img));
      RoomIs(s);
      QueueRoom(s, queue, start, last, transId, t, img);
      ghost var s0 := s;
      s := Apply(s, BeginCommit(t, img));
      RunBegin(s0, s);
      ghost var s1 := s;
      halted, steps, unsynced := CommitImage(img, ws, rs, t);
      MeetsBegun(s0, s1, old(queue), old(clean), old(recs), |img|);
      RunsOn(s0, [BeginCommit(t, img)], s1, steps, s, true, !unsynced);
      steps := [BeginCommit(t, img)] + steps;
    }

    /** A block that the transaction does not hold gets a new jbd_buf, also when it has an older one from
        before it was freed; its record now belongs to the transaction. */
    method AddBuf(lba: nat)
      requires Held({}, -1) && RecsOk(recs, queue, s.touched, allocTransId, {})
      modifies `bufQueue, `recs
      ensures RecsOk(recs, queue, s.touched + {lba}, allocTransId, {})
      ensures bufQueue == if lba in open then old(bufQueue) else [lba] + old(bufQueue)
      ensures recs == old(recs)[lba := allocTransId]
    {
      hide Linked, RecsOk;
      RecsTake(recs, queue, s.touched, allocTransId, lba);
      if lba in open {
        TakenAlready(recs, queue, s.touched, allocTransId, lba, cache, open, revokes);
      } else {
        bufQueue, recs := [lba] + bufQueue, recs[lba := allocTransId];
      }
    }

    /** jbd_trans_set_block_dirty, with the change of the block. */
    method SetDirty(lba: nat, data: Block)
      requires Open() && lba in s.base && |data| == geo.words && geo.Fits(lba)
      modifies `open, `bufQueue, `recs, `cache, `clean, `revokes, `s
      ensures Open() && Enabled(old(s), Dirty(lba, data)) && s == Apply(old(s), Dirty(lba, data))
      ensures clean == old(clean) - {lba}
      ensures bufQueue == if lba in old(open) then old(bufQueue) else [lba] + old(bufQueue)
      ensures recs == old(recs)[lba := allocTransId]
    {
      hide Linked, Shape, RunningOk, RecsOk, HasRoom, ListOk, Apart, Apply, Enabled, RunId;
      LinkShape(s, queue, start, last, transId, {}, -1);
      RunIs(s);
      DirtyListed(bufQueue, open, s.touched, revokes, queue, geo, lba, data, cache);
      AddBuf(lba);
      MarkDirty(lba, data);
    }

    /** The change of the block in its buffer, and its revoke record goes. */
    method MarkDirty(lba: nat, data: Block)
      requires Held({}, -1) && s.phase.Idle? && !s.mustSync && Shape(s) && HasRoom(s) && Apart(clean, cache, open)
      requires lba in s.base && |data| == geo.words && geo.Fits(lba)
      requires RecsOk(recs, queue, s.touched + {lba}, RunId(s), {})
      requires ListOk(bufQueue, open[lba := data], s.touched + {lba}, revokes - {lba}, queue, geo)
      modifies `open, `cache, `clean, `revokes, `s
      ensures Open() && Enabled(old(s), Dirty(lba, data)) && s == Apply(old(s), Dirty(lba, data))
      ensures clean == old(clean) - {lba}
    {
      hide Linked, Shape, RunningOk, RecsOk, HasRoom, ListOk, Apart, Apply, Enabled, NextId, RunId;
      RunIs(s);
      DirtyFields(s, lba, data);
      ApartDirty(clean, cache, open, lba, data);
      RunningLink(s, queue, start, last, transId, Dirty(lba, data));
      DirtyRuns(cache, open, s.touched, revokes, lba, data);
      open, cache, clean, revokes := open[lba := data], cache - {lba}, clean - {lba}, revokes - {lba};
      Become(Apply(s, Dirty(lba, data)));
    }

    /** The step system follows. */
    ghost method Become(t: State)
      requires geo == t.geo && disk == t.disk && sbStart == start && sbSequence == transId
      requires cache == t.cache && open == t.open && revokes == t.revokes && allocTransId == NextId(t)
      requires RunningOk(cache, open, t.touched, revokes) && Linked(t, queue, start, last, transId, {}, -1)
      requires Shape(t) && RecsOk(recs, queue, t.touched, NextId(t), {}) && Apart(clean, cache, open)
      requires t.phase.Idle? && !t.mustSync && HasRoom(t) && ListOk(bufQueue, open, t.touched, revokes, queue, geo)
      modifies `s
      ensures Open() && s == t
    {
      hide Linked, RunningOk, RecsOk, HasRoom, ListOk, Apart, NextId, RunId;
      RunIs(t);
      s := t;
    }

    /** jbd_trans_try_revoke_block for a block that is freed, and the invalidation of its buffer. The block is
        revoked if its record belongs to a transaction in the checkpoint queue, or to the running one and
        there are two or more jbd_bufs of it. */
    method FreeBlock(lba: nat) returns (revoke: bool)
      requires Open() && geo.Fits(lba)
      modifies `open, `cache, `clean, `revokes, `s
      ensures Open() && Enabled(old(s), Free(lba, revoke)) && s == Apply(old(s), Free(lba, revoke))
      ensures clean == old(clean) - {lba}
      ensures revoke <==> lba in recs && (recs[lba] != allocTransId || multiset(bufQueue)[lba] > 1 || Holds(queue, lba))
      ensures Holds(queue, lba) ==> revoke
    {
      hide Linked, Shape, RunningOk, HasRoom, RecsOk, ListOk, Holds, Apart, Apply, Enabled, NextId;
      LinkShape(s, queue, start, last, transId, {}, -1);
      RunIs(s);
      ApartDirty(clean, cache, open, lba, []);
      PendingIsHeld(s, queue, start, last, transId, lba);
      FreedRecord(s, queue, start, last, transId, recs, lba);
      revoke := lba in recs && (recs[lba] != allocTransId || multiset(bufQueue)[lba] > 1 || Holds(queue, lba));
      FreeFields(s, lba, revoke);
      RunningLink(s, queue, start, last, transId, Free(lba, revoke));
      FreeRuns(cache, open, s.touched, revokes, lba, revoke);
      FreeListed(bufQueue, open, s.touched, revokes, queue, geo, lba, revoke);
      open, cache, clean := open - {lba}, cache - {lba}, clean - {lba};
      if revoke { revokes := revokes + {lba}; }
      Become(Apply(s, Free(lba, revoke)));
    }

    /** What jbd_trans_finish_callback rolls back for the buffers of an aborted transaction: the newest version
        that a transaction in the queue still has to write, read from the log. The block record goes back to
        that transaction, which from then on is told when the block is written; without one the record is
        freed. */
    method RollBack() returns (restored: map<nat, Block>)
      requires Open() && (Core(s) || Sound(s)) && Plain(s.trans)
      modifies `recs
      ensures restored == map lba | lba in s.touched && Pending(s.pending, lba) :: NewestCopy(s, lba)
      ensures RecsOk(recs, queue, {}, RunId(s), {}) && GivenBack(old(recs), recs, queue, s.touched)
    {
      hide Linked, Shape, RunningOk, Core, Sound, Plain, NewestCopy, Pending, RecsOk, GivenBack, HasRoom, Holds, Has;
      ghost var was, back, run := recs, {}, RunId(s);
      RunIs(s);
      NoneBack(recs, queue);
      assert s.touched - back == s.touched;
      restored := map[];
      for i := 0 to |bufQueue|
        invariant forall lba :: lba in back <==> lba in bufQueue[..i]
        invariant RecsOk(recs, queue, s.touched - back, run, {}) && GivenBack(was, recs, queue, back)
        invariant queue == old(queue) && s == old(s) && bufQueue == old(bufQueue) && disk == old(disk)
        invariant forall lba :: lba in restored <==> lba in back && Pending(s.pending, lba)
        invariant forall lba :: lba in restored ==> restored[lba] == NewestCopy(s, lba)
      {
        var lba := bufQueue[i];
        assert bufQueue[..i + 1] == bufQueue[..i] + [lba];
        RecIs(recs, queue, s.touched - back, run, lba);
        if lba in recs && recs[lba] == allocTransId {
          ghost var now := recs;
          var held, k := GiveBack(lba, s.touched - back);
          BackStep(was, now, recs, queue, back, lba);
          assert s.touched - back - {lba} == s.touched - (back + {lba});
          back := back + {lba};
          PendingIsHeld(s, queue, start, last, transId, lba);
          if held {
            PendingCore(s, lba);
            NewestLogged(s, queue, start, last, transId, lba, k);
            var b := FirstOf(queue[k].bufs, lba);
            restored := restored[lba := disk.log[b.slot]];
          }
        }
      }
      assert back == s.touched;
      assert s.touched - back == {};
    }

    /** jbd_journal_free_trans for an aborted transaction. */
    method AbortTrans()
      requires Open() && (Core(s) || Sound(s)) && Plain(s.trans)
      modifies `open, `bufQueue, `recs, `cache, `clean, `revokes, `s
      ensures Open() && Enabled(old(s), Abort) && s == Apply(old(s), Abort)
      ensures clean == old(clean) - old(s).touched
      ensures bufQueue == [] && GivenBack(old(recs), recs, queue, old(s).touched)
    {
      hide Linked, Shape, RunningOk, Core, Sound, HasRoom, Plain, NewestCopy, Pending, Apply, Enabled, NextId, RecsOk,
           ListOk,
           GivenBack, Apart;
      LinkShape(s, queue, start, last, transId, {}, -1);
      var restored := RollBack();
      DropBufs(restored);
    }

    /** The buffers of the aborted transaction are invalidated, and those rolled back are dirty. */
    method DropBufs(restored: map<nat, Block>)
      requires Held({}, -1) && s.phase.Idle? && !s.mustSync && Shape(s) && HasRoom(s) && Apart(clean, cache, open)
      requires RecsOk(recs, queue, {}, RunId(s), {}) && ListOk(bufQueue, open, s.touched, revokes, queue, geo)
      requires restored == map lba | lba in s.touched && Pending(s.pending, lba) :: NewestCopy(s, lba)
      modifies `open, `bufQueue, `cache, `clean, `revokes, `s
      ensures Open() && Enabled(old(s), Abort) && s == Apply(old(s), Abort)
      ensures clean == old(clean) - old(s).touched && bufQueue == []
    {
      hide Linked, Shape, RunningOk, HasRoom, NewestCopy, Pending, Apply, Enabled, NextId, RecsOk, ListOk, Apart,
           Unlisted, RunId;
      AbortFields(s);
      RunningLink(s, queue, start, last, transId, Abort);
      ApartAborted(clean, cache, open, s.touched, restored);
      TouchedIs(bufQueue, clean, s.touched, open, revokes, queue, geo);
      AbortRun(s, queue, start, last, transId);
      clean := Unlisted(clean, bufQueue);
      cache, bufQueue, open, revokes := cache + restored, [], map[], {};
      s := Apply(s, Abort);
      NothingRuns(cache, open, s.touched, revokes);
      NothingListed(queue, geo);
    }

    /** jbd_journal_purge_cp_trans as jbd_journal_stop calls it: the whole queue is written home. The loop ends
        exactly if no block waits for its transaction; otherwise it comes to one that it leaves as it is for
        ever. */
    method PurgeAll() returns (ends: bool, ghost steps: seq<Step>)
      requires Valid() && Plain(s.trans)
      modifies `start, `transId, `sbStart, `sbSequence, `queue, `recs, `disk, `cache, `clean, `s
      ensures Valid() && Checkpoints(old(s), s) && Runs(old(s), steps, s, true)
      ensures ends <==> forall lba :: !Waits(old(queue), old(clean), old(recs), lba)
      ensures if ends then queue == [] else queue != [] && !Done(queue[0]) && AllWait(queue, clean, recs)
    {
      hide Linked, RunningOk, Runs, Plain, Apply, Enabled, Leading, RecsOk, Freed, SameWaits, Waits, WaitsFor, AllWait,
           Apart, Dangles;
      steps, ends := [], true;
      RunsNowhere(s);
      SameNow(queue, clean, recs);
      while queue != []
        invariant Valid() && Checkpoints(old(s), s) && Runs(old(s), steps, s, true)
        invariant SameWaits(old(queue), old(clean), old(recs), queue, clean, recs)
        decreases |queue|
      {
        ghost var s1, q1, c1, r1 := s, queue, clean, recs;
        ghost var more;
        LinkHead(s, queue, start, last, transId);
        var id := queue[0].id;
        if Done(queue[0]) {
          LinkShape(s, queue, start, last, transId, {}, -1);
          Retire(AdvanceTail, {}, -1, {});
          RunsStep(s1, AdvanceTail);
          more := [AdvanceTail];
        } else {
          ghost var freed;
          more, freed := FlushTrans();
        }
        RunsOn(old(s), steps, s1, more, s, true, true);
        SameThen(old(queue), old(clean), old(recs), q1, c1, r1, queue, clean, recs);
        steps := steps + more;
        LinkHead(s, queue, start, last, transId);
        if queue != [] && queue[0].id == id {
          SomeWaits(old(queue), old(clean), old(recs), q1, c1, r1, queue, clean, recs, id);
          ends := false;
          return;
        }
      }
      NoneWaits(old(queue), old(clean), old(recs), clean, recs);
    }

    /** jbd_journal_stop. When it returns, which it does exactly if no block waits, every block has its committed
        content at home, no block record is left unless a transaction is running, and the log is marked empty. */
    method Stop() returns (ends: bool)
      requires Open() && (Core(s) || Sound(s)) && Plain(s.trans)
      modifies this
      ensures ends <==> forall lba :: !Waits(old(queue), old(clean), old(recs), lba)
      ensures s.trans == old(s).trans && s.base == old(s).base
      ensures ends ==>
                && disk.start == 0 && disk.sequence == 0 && (old(s).touched == {} ==> recs == map[])
                && forall lba :: lba in s.base ==> AgreesAt(s.base, s.trans, disk.home, lba)
      ensures !ends ==> Valid() && Core(s) && queue != [] && !Done(queue[0]) && AllWait(queue, clean, recs)
      ensures !ends && Inv(old(s)) ==> Inv(s)
    {
      hide Linked, RunningOk, Runs, Plain, Inv, Core, Sound, AgreesAt, HasRoom, RecsOk, ListOk, Waits, AllWait, Apart;
      ghost var steps;
      ends, steps := PurgeAll();
      if Core(old(s)) { RunsKeepCore(old(s), steps, s, true); } else { RunsSound(old(s), steps, s); }
      if Inv(old(s)) { RunsKeep(old(s), steps, s); }
      if !ends {
        QueueCore(s, queue, start, last, transId);
        return;
      }
      EmptyIsCurrent(s, start, last, transId);
      if s.touched == {} { NoRecords(recs, RunId(s)); }
      start, transId := 0, 0;
      sbStart, sbSequence := start, transId;
      disk := disk.(start := sbStart, sequence := sbSequence);
    }

    /** A crash between two calls, and mount. All commits are there, also when the superblock on disk is behind,
        unless the log has been written over the block that it names: then they are if and only if nothing that
        is still to be written home is missing there. */
    method Crash() returns (disk': Disk)
      requires Open() && (Sound(s) || (Core(s) && Tracked(s)))
      ensures disk'.start == 0 && s.d <= |s.imgs| && s.geo.Valid()
      ensures RecoveredTo(s, disk'.home, |s.trans|) <==>
              Head(s) <= Pos(s.imgs, s.d) + s.geo.Slots() || forall lba :: Pending(s.pending, lba) ==> CurrentAt(s, lba)
    {
      hide Linked, RunningOk, HasRoom, RecsOk, ListOk, Core, Sound, Tracked, RecoveredTo, Pending, CurrentAt, Shape,
           Pos, Replaced, Untouched;
      LinkShape(s, queue, start, last, transId, {}, -1);
      ShapeTail(s);
      disk' := RecoverBehind(disk, geo, s);
    }

    /** A block is read: its buffer is up to date. */
    method Read(lba: nat)
      requires Open() && lba in s.base
      modifies `clean
      ensures Open() && clean == if lba in cache || lba in open then old(clean) else old(clean) + {lba}
    {
      hide Linked, RunningOk, HasRoom, RecsOk, ListOk;
      if lba !in cache && lba !in open { clean := clean + {lba}; }
    }

    /** A clean buffer is dropped from the cache. */
    method Forget(lba: nat)
      requires Open() && lba in clean
      modifies `clean
      ensures Open() && clean == old(clean) - {lba}
    {
      hide Linked, RunningOk, HasRoom, RecsOk, ListOk;
      clean := clean - {lba};
    }

    lemma ReadyParts()
      requires Ready()
      ensures Shape(s) && s.geo == geo && geo.Valid() && s.phase.Logging? && HasRoom(s) && !s.mustSync
    {
    }
  }

  /** Writing home and moving the tail leave the running transaction alone. */
  lemma OwnSame(s: State, t: State)
    requires t.phase == s.phase && t.touched == s.touched && t.open == s.open && t.firstId == s.firstId
      && |t.trans| == |s.trans|
    ensures Own(t) == Own(s)
    ensures (s.phase.Finishing? ==> s.trans != []) ==> RunId(t) == RunId(s)
  {
  }

  lemma RetireRecords(s: State, t: State, queue: seq<CpTrans>, start: nat, last: nat, transId: nat, loose: set<nat>,
                      owed: int, recs: map<nat, nat>, free: set<nat>)
    requires Linked(s, queue, start, last, transId, loose, owed) && queue != [] && Shape(s) && TailOnly(s, t)
      && Shape(t)
    requires RecsOk(recs, queue, Own(s), RunId(s), free)
    ensures RecsOk(Freed(recs, queue[0].id), queue[1..], Own(t), RunId(t), free)
  {
    hide Linked, RecsOk, Freed, Own, RunId;
    LinkIds(s, queue, start, last, transId, loose, owed);
    RecsRetire(recs, queue, Own(s), RunId(s), free);
    OwnSame(s, t);
  }

  /** What a transaction that leaves the queue takes with it. */
  lemma RetireStep(s: State, queue: seq<CpTrans>, start: nat, last: nat, transId: nat, loose: set<nat>, owed: int,
                   step: Step, recs: map<nat, nat>, free: set<nat>)
    requires Linked(s, queue, start, last, transId, loose, owed) && RecsOk(recs, queue, Own(s), RunId(s), free)
    requires queue != [] && Done(queue[0]) && (step == AdvanceTail || (step == PurgeUnsynced && s.phase.Logging?))
    ensures s.geo.Valid() && Enabled(s, step)
    ensures var q, t := queue[0], Apply(s, step);
      && Linked(t, queue[1..], Wrap(q.startIblock + q.allocBlocks, s.geo), last, q.id + 1, loose, owed)
      && RecsOk(Freed(recs, q.id), queue[1..], Own(t), RunId(t), free) && Shape(t)
      && TailOnly(s, t) && t.dm == s.dm + 1 && t.disk == s.disk && t.d == s.d
      && t.mustSync == (s.mustSync || step == AdvanceTail)
      && t.geo == s.geo && t.touched == s.touched && t.cache == s.cache && t.open == s.open && t.revokes == s.revokes
      && NextId(t) == NextId(s)
  {
    hide Linked, Apply, Enabled, Shape, RecsOk, Freed, Own, RunId, TailOnly;
    RetireKeeps(s, queue, start, last, transId, loose, owed, step);
    LinkShape(s, queue, start, last, transId, loose, owed);
    TailShape(s, Apply(s, step), queue[1..], Wrap(queue[0].startIblock + queue[0].allocBlocks, s.geo), last,
              queue[0].id + 1, loose, owed);
    RetireRecords(s, Apply(s, step), queue, start, last, transId, loose, owed, recs, free);
  }

  lemma RetireWaits(s: State, queue: seq<CpTrans>, start: nat, last: nat, transId: nat, loose: set<nat>, owed: int,
                    recs: map<nat, nat>, clean: set<nat>)
    requires Linked(s, queue, start, last, transId, loose, owed) && queue != [] && Done(queue[0])
    ensures SameWaits(queue, clean, recs, queue[1..], clean, Freed(recs, queue[0].id))
  {
    hide Linked, SameWaits, Freed;
    LinkIds(s, queue, start, last, transId, loose, owed);
    DoneEmpty(s, queue, start, last, transId, loose, owed);
    WaitsRetire(queue, clean, recs, RunId(s));
  }

  lemma DoneEmpty(s: State, queue: seq<CpTrans>, start: nat, last: nat, transId: nat, loose: set<nat>, owed: int)
    requires Linked(s, queue, start, last, transId, loose, owed) && queue != [] && Done(queue[0])
    ensures queue[0].bufs == []
  {
    hide Pos, SlotAt;
    assert EntryOk(s, s.dm + 0, queue[0], loose, owed);
  }

  /** What else stays when only the tail moves. */
  lemma TailShape(s: State, t: State, queue: seq<CpTrans>, start: nat, last: nat, transId: nat, loose: set<nat>,
                  owed: int)
    requires Linked(t, queue, start, last, transId, loose, owed) && TailOnly(s, t)
    ensures Shape(t) && t.touched == s.touched && t.geo == s.geo && NextId(t) == NextId(s)
    ensures t.cache == s.cache && t.open == s.open && t.revokes == s.revokes
  {
  }

  lemma NotOwn(s: State, lba: nat)
    requires RunningOk(s.cache, s.open, s.touched, s.revokes) && lba in s.cache
    ensures lba !in Own(s)
  {
  }

  lemma BegunBufs(q: CpTrans, lba: nat)
    ensures Begun(q, lba).bufs == Ended(q, lba).bufs && Begun(q, lba).id == q.id
  {
  }

  lemma HasIt(bufs: seq<Buf>, b: Buf)
    requires b in bufs
    ensures Has(bufs, b.lba)
  {
  }

  /** A block with an outstanding write that the running transaction has not dirtied. */
  lemma OwnerIs(recs: map<nat, nat>, queue: seq<CpTrans>, own: set<nat>, next: nat, lba: nat, k: nat)
    requires RecsOk(recs, queue, own, next, {}) && IsNewest(queue, lba, k) && lba !in own
    ensures lba in recs && recs[lba] == queue[k].id
  {
    hide IsNewest, IsId;
    assert NewestOwns(recs, queue, lba);
  }

  /** The record of the block is the head's: no later transaction has it. */
  lemma OwnerNewest(recs: map<nat, nat>, queue: seq<CpTrans>, own: set<nat>, next: nat, lba: nat)
    requires RecsOk(recs, queue, own, next, {}) && Numbered(queue, next) && queue != [] && Has(queue[0].bufs, lba)
    requires lba in recs && recs[lba] == queue[0].id
    ensures IsNewest(queue, lba, 0)
  {
    hide Has, IsId;
    var k := NewestIs(queue, lba);
    assert NewestOwns(recs, queue, lba);
  }

  /** After the head's write of the block has ended, the others still have theirs. */
  lemma StillTight(s: State, t: State, queue: seq<CpTrans>, w: seq<CpTrans>, lba: nat)
    requires queue != [] && |s.pending| == |t.pending| && t.pending == s.pending && s.dm + |queue| <= |s.pending|
    requires OthersWait(s, queue, lba)
    requires var ended := queue[0 := Ended(queue[0], lba)];
      && t.dm >= s.dm && t.dm - s.dm <= |queue|
      && w == ended[t.dm - s.dm..]
    ensures forall k :: 0 <= k < |w| && t.dm + k < |t.pending| && Has(w[k].bufs, lba) ==> lba in t.pending[t.dm + k]
  {
    hide Has, Ended;
    EndedHas(queue, 0, lba);
    var n := t.dm - s.dm;
    forall k | 0 <= k < |w| && t.dm + k < |t.pending| && Has(w[k].bufs, lba)
      ensures lba in t.pending[t.dm + k]
    {
      assert w[k] == queue[0 := Ended(queue[0], lba)][n + k];
      assert n + k > 0;
    }
  }

  /** The commit stopped while it was logging. */
  ghost predicate Halting(s: State, t: State) {
    && s.phase.Logging? && t.phase.Logging? && t.phase.t == s.phase.t && t.phase.img == s.phase.img
    && s.phase.alloc <= t.phase.alloc <= |t.phase.img|
  }

  /** The log fills up to transaction i with n blocks more. */
  ghost predicate Filled(s: State, i: nat, n: nat) {
    s.geo.Valid() && i <= |s.imgs| && Head(s) + n >= Pos(s.imgs, i) + s.geo.Slots()
  }

  /** A block waits for a transaction up to which the log fills. */
  ghost predicate Meets(s: State, queue: seq<CpTrans>, clean: set<nat>, recs: map<nat, nat>, n: nat) {
    exists lba ::
      Waits(queue, clean, recs, lba) && lba in recs && s.firstId <= recs[lba] && Filled(s, recs[lba] - s.firstId, n)
  }

  /** The log fills up to the newest transaction with an outstanding write of a block that is clean. */
  ghost predicate Blocked(s: State, queue: seq<CpTrans>, clean: set<nat>, n: nat) {
    exists lba: nat, k: nat :: lba in clean && IsNewest(queue, lba, k) && Filled(s, s.dm + k, n)
  }

  /** The queue is empty: nothing waited. */
  lemma NoneWaits(q0: seq<CpTrans>, c0: set<nat>, r0: map<nat, nat>, clean: set<nat>, recs: map<nat, nat>)
    requires SameWaits(q0, c0, r0, [], clean, recs)
    ensures forall lba :: !Waits(q0, c0, r0, lba)
  {
    forall lba
      ensures !Waits([], clean, recs, lba)
    {
    }
  }

  lemma SomeWaits(q0: seq<CpTrans>, c0: set<nat>, r0: map<nat, nat>, q1: seq<CpTrans>, c1: set<nat>, r1: map<nat, nat>,
                  queue: seq<CpTrans>, clean: set<nat>, recs: map<nat, nat>, id: nat)
    requires SameWaits(q0, c0, r0, queue, clean, recs) && AllWait(queue, clean, recs) && queue[0].bufs != []
    ensures exists lba :: Waits(q0, c0, r0, lba)
  {
    hide Waits;
    var lba := queue[0].bufs[0].lba;
    assert Has(queue[0].bufs, lba);
    assert Waits(q0, c0, r0, lba);
  }

  /** A commit that is cut off has met such a transaction. */
  lemma HaltMeets(s0: State, q0: seq<CpTrans>, c0: set<nat>, r0: map<nat, nat>, s: State, queue: seq<CpTrans>,
                  clean: set<nat>, recs: map<nat, nat>, start: nat, last: nat, transId: nat, late: bool, n: nat)
    requires Linked(s, queue, start, last, transId, {}, -1) && s.phase.Logging? && s.phase.alloc <= n && !HasRoom(s)
    requires Purged(s0, q0, s, queue, late) && SameWaits(q0, c0, r0, queue, clean, recs) && s.firstId == s0.firstId
    requires queue != [] && WaitsFor(queue, clean, recs, queue[0].id)
    ensures Meets(s0, q0, c0, r0, n) && s0.dm <= |s0.imgs| && s0.geo.Valid()
    ensures late <==> Leading(q0) > 0 && Head(s0) + n >= Pos(s0.imgs, s0.dm) + s0.geo.Slots()
  {
    hide Waits, SameWaits, Leading;
    LinkIds(s, queue, start, last, transId, {}, -1);
    SameFor(q0, c0, r0, queue, clean, recs, queue[0].id);
    LinkHead(s, queue, start, last, transId);
    var lba :| Waits(q0, c0, r0, lba) && lba in r0 && r0[lba] == queue[0].id;
    assert Filled(s0, s.dm, n);
    if s0.dm <= s.dm { PosMonotone(s0.imgs, s0.dm, s.dm); }
  }

  /** A commit that is not has met none. */
  lemma NothingMet(s0: State, q0: seq<CpTrans>, c0: set<nat>, r0: map<nat, nat>, u: State, s: State,
                   queue: seq<CpTrans>, clean: set<nat>, recs: map<nat, nat>, start: nat, last: nat, transId: nat,
                   n: nat)
    requires Linked(s, queue, start, last, transId, u.revokes, -1) && s.dm == u.dm && s.firstId == s0.firstId
    requires SameWaits(q0, c0, r0, queue, clean, recs)
    requires Shape(u) && HasRoom(u) && u.phase.Logging? && u.phase.alloc == n && u.imgs == s0.imgs && u.geo == s0.geo
    ensures !Meets(s0, q0, c0, r0, n)
  {
    hide Waits, SameWaits, Linked;
    LinkIds(s, queue, start, last, transId, u.revokes, -1);
    forall lba | Waits(q0, c0, r0, lba) && lba in r0 && s0.firstId <= r0[lba]
      ensures !Filled(s0, r0[lba] - s0.firstId, n)
    {
      WaitsAt(q0, c0, r0, queue, clean, recs, lba);
      WaitsIndex(queue, clean, recs, lba, RunId(s));
      var i := r0[lba] - s0.firstId;
      if i <= |s0.imgs| { PosMonotone(s0.imgs, u.dm, i); }
    }
  }

  lemma WaitsAt(q0: seq<CpTrans>, c0: set<nat>, r0: map<nat, nat>, queue: seq<CpTrans>, clean: set<nat>,
                recs: map<nat, nat>, lba: nat)
    requires SameWaits(q0, c0, r0, queue, clean, recs) && Waits(q0, c0, r0, lba)
    ensures Waits(queue, clean, recs, lba) && lba in r0 && lba in recs && recs[lba] == r0[lba]
  {
  }

  lemma MeetsBegun(s: State, t: State, queue: seq<CpTrans>, clean: set<nat>, recs: map<nat, nat>, n: nat)
    requires t.geo == s.geo && t.imgs == s.imgs && t.firstId == s.firstId
    ensures Meets(s, queue, clean, recs, n) <==> Meets(t, queue, clean, recs, n)
  {
    hide Waits, Pos;
    assert forall i: nat :: Filled(s, i, n) <==> Filled(t, i, n);
  }

  /** When the running transaction has given back its other records, a block waits exactly if its buffer is clean
      and a transaction of the queue still has to write it. */
  lemma CommitMeets(s: State, queue: seq<CpTrans>, start: nat, last: nat, transId: nat, clean: set<nat>,
                    cache: map<nat, Block>, open: map<nat, Block>, recs: map<nat, nat>, n: nat)
    requires Linked(s, queue, start, last, transId, {}, -1) && RecsOk(recs, queue, open.Keys, RunId(s), {})
    requires Apart(clean, cache, open)
    ensures Meets(s, queue, clean, recs, n) <==> Blocked(s, queue, clean, n)
  {
    hide Waits, RecsOk, Linked, Filled, Has;
    LinkIds(s, queue, start, last, transId, {}, -1);
    LinkSize(s, queue, start, last, transId, {}, -1);
    if Meets(s, queue, clean, recs, n) {
      var lba :| Waits(queue, clean, recs, lba) && lba in recs && s.firstId <= recs[lba]
                 && Filled(s, recs[lba] - s.firstId, n);
      CleanOnly(queue, clean, cache, open, recs, lba);
      WaitsIs(queue, clean, recs, open.Keys, RunId(s), lba);
      var k := NewestIs(queue, lba);
      assert recs[lba] == queue[k].id;
      assert lba in clean && IsNewest(queue, lba, k) && Filled(s, s.dm + k, n);
    }
    if lba: nat, k: nat :| lba in clean && IsNewest(queue, lba, k) && Filled(s, s.dm + k, n) {
      assert lba !in open;
      assert Holds(queue, lba);
      WaitsIs(queue, clean, recs, open.Keys, RunId(s), lba);
      InRecs(queue, clean, recs, lba);
      assert recs[lba] == queue[k].id;
    }
  }

  lemma CleanOnly(queue: seq<CpTrans>, clean: set<nat>, cache: map<nat, Block>, open: map<nat, Block>,
                  recs: map<nat, nat>, lba: nat)
    requires Waits(queue, clean, recs, lba) && Apart(clean, cache, open)
    ensures lba in clean && lba !in open
  {
  }

  lemma InRecs(queue: seq<CpTrans>, clean: set<nat>, recs: map<nat, nat>, lba: nat)
    requires Waits(queue, clean, recs, lba)
    ensures lba in recs
  {
  }

  lemma TailAfter(s: State, s1: State, t: State)
    requires Checkpoints(s, s1) && TailOnly(s1, t)
    ensures Checkpoints(s, t) && t.phase == s1.phase
  {
  }

  /** The other transactions with the block still have to write it. */
  ghost predicate OthersWait(s: State, queue: seq<CpTrans>, lba: nat) {
    && s.dm < |s.pending| && lba !in s.pending[s.dm]
    && forall k :: 0 < k < |queue| && s.dm + k < |s.pending| && Has(queue[k].bufs, lba) ==> lba in s.pending[s.dm + k]
  }

  /** The head was the newest transaction with the block. */
  lemma OthersDone(s: State, queue: seq<CpTrans>, lba: nat)
    requires IsNewest(queue, lba, 0) && NotPending(s.pending, lba) && s.dm < |s.pending|
    ensures OthersWait(s, queue, lba)
  {
    hide Has;
  }

  lemma ApartJoined(clean: set<nat>, cache: map<nat, Block>, open: map<nat, Block>)
    requires Apart(clean, cache, open)
    ensures Apart(clean, cache + open, map[])
  {
  }

  lemma ApartDirty(clean: set<nat>, cache: map<nat, Block>, open: map<nat, Block>, lba: nat, data: Block)
    requires Apart(clean, cache, open)
    ensures Apart(clean - {lba}, cache - {lba}, open[lba := data]) && Apart(clean - {lba}, cache - {lba}, open - {lba})
  {
  }

  lemma ApartAborted(clean: set<nat>, cache: map<nat, Block>, open: map<nat, Block>, touched: set<nat>,
                     restored: map<nat, Block>)
    requires Apart(clean, cache, open) && forall lba :: lba in restored ==> lba in touched
    ensures Apart(clean - touched, cache + restored, map[])
  {
  }

  lemma ApartWritten(clean: set<nat>, cache: map<nat, Block>, open: map<nat, Block>, touched: set<nat>,
                     revokes: set<nat>, lba: nat)
    requires Apart(clean, cache, open) && RunningOk(cache, open, touched, revokes) && lba in cache
    ensures lba !in clean && Apart(clean + {lba}, cache - {lba}, open)
  {
  }

  /** The head's write of a block has ended, and finished transactions have left the queue. */
  ghost predicate HeadEnded(s0: State, q0: seq<CpTrans>, lba: nat, s: State, queue: seq<CpTrans>) {
    && q0 != []
    && var ended := q0[0 := Ended(q0[0], lba)];
       && queue == ended[Leading(ended)..] && s.dm == s0.dm + Leading(ended)
       && (if Leading(ended) > 0 then s.d == s.dm && !s.mustSync else s.d == s0.d && s.mustSync == s0.mustSync)
  }

  lemma HeadEndedIs(s0: State, q0: seq<CpTrans>, lba: nat, s1: State, s: State, queue: seq<CpTrans>)
    requires q0 != [] && s1.dm == s0.dm && s1.d == s0.d && s1.mustSync == s0.mustSync
    requires var ended := q0[0 := Ended(q0[0], lba)];
      var n := Leading(ended);
      && queue == ended[n..] && s.dm == s1.dm + n && (if n > 0 then s.d == s.dm && !s.mustSync else s == s1)
    ensures HeadEnded(s0, q0, lba, s, queue)
  {
    hide Ended, Leading;
  }

  lemma HeadEndedOn(s0: State, s1: State, q0: seq<CpTrans>, lba: nat, s: State, queue: seq<CpTrans>)
    requires s1.dm == s0.dm && s1.d == s0.d && s1.mustSync == s0.mustSync && HeadEnded(s1, q0, lba, s, queue)
    ensures HeadEnded(s0, q0, lba, s, queue)
  {
    hide Ended, Leading;
  }

  /** A block of the head has been written home and its write has ended. */
  lemma FlushedWaits(q0: seq<CpTrans>, c0: set<nat>, r0: map<nat, nat>, lba: nat, next: nat, c1: set<nat>,
                     cached: bool, queue: seq<CpTrans>, recs: map<nat, nat>)
    requires q0 != [] && Numbered(q0, next) && (lba in c0 ==> lba !in r0 || r0[lba] != q0[0].id)
    requires c1 == if cached then c0 + {lba} else c0
    requires cached ==> lba !in c0 && IsNewest(q0, lba, 0)
    requires SameWaits(q0[0 := Ended(q0[0], lba)], c1, r0, queue, c1, recs)
    ensures SameWaits(q0, c0, r0, queue, c1, recs)
  {
    hide SameWaits, Ended, Has;
    var w := q0[0 := Ended(q0[0], lba)];
    WaitsEnded(q0, c0, r0, lba, next);
    if cached {
      EndedHas(q0, 0, lba);
      WaitsMore(w, c0, r0, lba);
      SameThen(q0, c0, r0, w, c0, r0, w, c1, r0);
    }
    SameThen(q0, c0, r0, w, c1, r0, queue, c1, recs);
  }

  /** How far the walk through the buffers of the head has come. */
  ghost predicate Turned(s0: State, q0: seq<CpTrans>, c0: set<nat>, r0: map<nat, nat>, s: State, queue: seq<CpTrans>,
                         list: seq<Buf>, i: nat) {
    && q0 != [] && s.dm >= s0.dm
    && if s.dm == s0.dm
       then
         && s.d == s0.d && s.mustSync == s0.mustSync
         && queue != [] && !Done(queue[0]) && queue[0].id == q0[0].id && queue[1..] == q0[1..]
         && Flushing(q0, c0, r0, queue[0].bufs, list, i)
       else Flushed(q0, c0, r0, queue, s.dm - s0.dm) && s.d == s.dm && !s.mustSync
  }

  lemma TurnFirst(s: State, q0: seq<CpTrans>, c0: set<nat>, r0: map<nat, nat>)
    requires q0 != [] && !Done(q0[0]) && Flushing(q0, c0, r0, q0[0].bufs, q0[0].bufs, 0)
    ensures Turned(s, q0, c0, r0, s, q0, q0[0].bufs, 0)
  {
    hide Flushing, Flushed;
  }

  /** The head is the same exactly while the tail has not moved. */
  lemma TurnHead(s0: State, q0: seq<CpTrans>, c0: set<nat>, r0: map<nat, nat>, s: State, queue: seq<CpTrans>,
                 start: nat, last: nat, transId: nat, list: seq<Buf>, i: nat)
    requires Turned(s0, q0, c0, r0, s, queue, list, i) && Linked(s, queue, start, last, transId, {}, -1)
    requires q0[0].id == s0.firstId + s0.dm && s.firstId == s0.firstId
    ensures s.dm == s0.dm <==> queue != [] && queue[0].id == q0[0].id
    ensures queue != [] ==> (Done(queue[0]) <==> queue[0].bufs == [])
  {
    hide Linked, Flushing, Flushed;
    LinkHead(s, queue, start, last, transId);
  }

  lemma TurnSkips(s0: State, q0: seq<CpTrans>, c0: set<nat>, r0: map<nat, nat>, s: State, queue: seq<CpTrans>,
                  list: seq<Buf>, i: nat)
    requires Turned(s0, q0, c0, r0, s, queue, list, i) && i < |list|
    requires s.dm == s0.dm ==> list[i] !in queue[0].bufs
    ensures Turned(s0, q0, c0, r0, s, queue, list, i + 1)
  {
    hide Flushing, Flushed;
    if s.dm == s0.dm { FlushSkips(q0, c0, r0, queue[0].bufs, list, i); }
  }

  lemma TurnOn(s0: State, q0: seq<CpTrans>, c0: set<nat>, r0: map<nat, nat>, s1: State, q1: seq<CpTrans>, s: State,
               queue: seq<CpTrans>, list: seq<Buf>, i: nat)
    requires Turned(s0, q0, c0, r0, s1, q1, list, i) && i < |list| && s1.dm == s0.dm
    requires Done(Ended(q1[0], list[i].lba)) ==> Ended(q1[0], list[i].lba).bufs == []
    requires if WaitsFirst(q0, c0, r0, list[i].lba) then s == s1 && queue == q1
             else HeadEnded(s1, q1, list[i].lba, s, queue)
    ensures Turned(s0, q0, c0, r0, s, queue, list, i + 1)
  {
    hide Flushing, Flushed, Ended, Leading, WaitsFirst;
    if WaitsFirst(q0, c0, r0, list[i].lba) {
      FlushSkips(q0, c0, r0, queue[0].bufs, list, i);
    } else {
      FlushEnds(q0, c0, r0, q1[0], list, i);
      FlushPops(q0, c0, r0, q1, list, i + 1, list[i].lba);
    }
  }

  lemma TurnLast(s0: State, q0: seq<CpTrans>, c0: set<nat>, r0: map<nat, nat>, s: State, queue: seq<CpTrans>,
                 clean: set<nat>, recs: map<nat, nat>, list: seq<Buf>)
    requires Turned(s0, q0, c0, r0, s, queue, list, |list|) && SameWaits(q0, c0, r0, queue, clean, recs)
    requires queue != [] ==> (Done(queue[0]) <==> queue[0].bufs == [])
    ensures if WaitsFor(q0, c0, r0, q0[0].id)
            then
              && s.dm == s0.dm && s.d == s0.d && s.mustSync == s0.mustSync
              && queue != [] && queue[0].id == q0[0].id && queue[1..] == q0[1..] && !Done(queue[0])
              && AllWait(queue, clean, recs)
            else
              && s.dm > s0.dm && s.d == s.dm && !s.mustSync && Leading(queue) == 0 && s.dm - s0.dm <= |q0|
              && queue == q0[s.dm - s0.dm..] && |queue| < |q0|
  {
    hide Flushing, WaitsFirst, SameWaits, WaitsFor, AllWait, Leading;
    if s.dm == s0.dm {
      FlushStops(q0, c0, r0, queue, clean, recs, list);
    } else {
      FlushLeft(q0, c0, r0, queue, s.dm - s0.dm);
    }
  }

  lemma TurnEnds(s: State, queue: seq<CpTrans>, start: nat, last: nat, transId: nat, lba: nat)
    requires Linked(s, queue, start, last, transId, {}, -1) && queue != []
    ensures Done(Ended(queue[0], lba)) ==> Ended(queue[0], lba).bufs == []
  {
    hide Pos, SlotAt, Has;
    assert EntryOk(s, s.dm + 0, queue[0], {}, -1);
  }

  lemma AllWaitAt(queue: seq<CpTrans>, clean: set<nat>, recs: map<nat, nat>, b: Buf)
    requires queue != [] && b in queue[0].bufs
    ensures AllWait(queue, clean, recs) ==> WaitsFirst(queue, clean, recs, b.lba)
  {
    hide Waits;
    assert Has(queue[0].bufs, b.lba);
  }

  /** The log is as full as before. */
  lemma StillFull(s: State, t: State, queue: seq<CpTrans>, start: nat, last: nat, transId: nat)
    requires Shape(s) && !HasRoom(s) && t.geo == s.geo && t.imgs == s.imgs && t.phase == s.phase && t.dm == s.dm
    requires Linked(t, queue, start, last, transId, {}, -1) && t.phase.Logging? && t.phase.alloc > 0
    ensures !HasRoom(t) && last == start
  {
    hide Pos, SlotAt, QueueOk, CopiesOk;
    HeadAfter(t);
    RingFull(t, start, last, transId);
  }

  lemma OwnAlloc(s: State, t: State)
    requires s.phase.Logging? && t.phase.Logging? && t.open == s.open && t.firstId == s.firstId && t.trans == s.trans
    ensures Own(t) == Own(s) && RunId(t) == RunId(s)
  {
  }

  lemma OwnCommit(u: State, s: State)
    requires u.phase.Logging? && s.phase.Finishing? && s.open == u.open && s.firstId == u.firstId
    requires s.trans == u.trans + [u.phase.t]
    ensures Own(s) == Own(u) && RunId(s) == RunId(u)
  {
  }

  /** The block allocated was not the last free one. */
  lemma PurgedAlloc(s0: State, s: State, q: seq<CpTrans>)
    requires Shape(s0) && s.geo == s0.geo && s.imgs == s0.imgs && s.dm == s0.dm <= |s0.imgs| && HasRoom(s)
    ensures Purged(s0, q, s, q, false)
  {
    hide Pos, Leading;
  }

  /** It was, and the head of the queue has been purged. */
  lemma PurgedFull(s0: State, q0: seq<CpTrans>, s1: State, s: State, q: seq<CpTrans>, late: bool)
    requires Shape(s0) && Shape(s1) && !HasRoom(s1) && s1.geo == s0.geo && s1.imgs == s0.imgs && s1.dm == s0.dm
    requires s.geo == s0.geo && s.imgs == s0.imgs && Allocated(s) == Allocated(s1)
    requires q0 != [] && (late <==> Done(q0[0])) && (!late ==> Leading(q) == 0)
    ensures Purged(s0, q0, s, q, late)
  {
    hide Pos;
  }

  lemma PurgedSame(s0: State, q0: seq<CpTrans>, s1: State, s: State, q: seq<CpTrans>, late: bool)
    requires Purged(s0, q0, s1, q, late)
    requires s.geo == s1.geo && s.imgs == s1.imgs && s.dm == s1.dm && Allocated(s) == Allocated(s1)
    ensures Purged(s0, q0, s, q, late)
  {
    hide Pos, Leading;
  }

  /** The whole image is allocated. */
  lemma PurgedAll(s0: State, q0: seq<CpTrans>, u: State, q: seq<CpTrans>, late: bool, n: nat)
    requires Purged(s0, q0, u, q, late) && Allocated(u) == n
    ensures s0.geo.Valid() && s0.dm <= |s0.imgs|
    ensures late <==> Leading(q0) > 0 && Head(s0) + n >= Pos(s0.imgs, s0.dm) + s0.geo.Slots()
  {
    hide Leading, Pos;
  }

  /** The records of the committed blocks stay with the transaction. */
  lemma FinishRecords(s: State, queue: seq<CpTrans>, start: nat, last: nat, transId: nat, q: CpTrans, recs: map<nat,
                      nat>)
    requires Linked(s, queue, start, last, transId, {}, -1) && Describing(s, q) && Shape(s)
    requires RecsOk(recs, queue, Own(s), RunId(s), {})
    ensures RecsOk(recs, if queue == [] && q.dataCnt == 0 then [] else queue + [q], {}, RunId(s) + 1, {})
  {
    hide Linked, RecsOk, Has, EntryOk, EntryCopies, Numbered;
    LinkIds(s, queue, start, last, transId, {}, -1);
    if queue == [] && q.dataCnt == 0 {
      NothingOwned(s, q);
      RecsPass(recs, RunId(s));
    } else {
      RecsJoin(recs, queue, Own(s), RunId(s), q);
    }
  }

  lemma NothingDirty(s: State, q: CpTrans)
    requires Describing(s, q)
    ensures forall lba :: Has(q.bufs, lba) <==> lba in s.open
    ensures q.dataCnt == 0 ==> forall lba :: lba !in s.open
  {
    assert EntryOk(s, |s.trans| - 1, q, {}, -1);
    if q.dataCnt == 0 {
      assert |q.bufs| == 0;
      assert forall lba :: !Has(q.bufs, lba);
    }
  }

  lemma NothingOwned(s: State, q: CpTrans)
    requires Describing(s, q) && q.dataCnt == 0
    ensures Own(s) == {}
  {
    assert EntryOk(s, |s.trans| - 1, q, {}, -1);
    assert |q.bufs| == 0;
    assert forall lba :: !Has(q.bufs, lba);
  }

  lemma RunIs(s: State)
    requires s.phase.Idle?
    ensures RunId(s) == NextId(s) && Own(s) == s.touched
  {
  }

  lemma RunBegin(s: State, t: State)
    requires s.phase.Idle? && t.phase.Logging? && t.open == s.open && t.firstId == s.firstId && t.trans == s.trans
    ensures RunId(t) == RunId(s) && Own(t) == s.open.Keys
  {
  }

  lemma ShapeTail(s: State)
    requires Shape(s)
    ensures s.dm <= |s.imgs|
  {
  }

  lemma RoomIs(s: State)
    requires Shape(s) && HasRoom(s) && s.phase.Idle?
    ensures Head(s) < Pos(s.imgs, s.dm) + s.geo.Slots()
  {
  }

  lemma NoneBack(recs: map<nat, nat>, queue: seq<CpTrans>)
    ensures GivenBack(recs, recs, queue, {})
  {
  }

  lemma RecIs(recs: map<nat, nat>, queue: seq<CpTrans>, own: set<nat>, next: nat, lba: nat)
    requires RecsOk(recs, queue, own, next, {})
    ensures lba in own <==> lba in recs && recs[lba] == next
  {
  }

  /** A block that is not dirty has two buffers. */
  predicate Twice(list: seq<nat>, open: map<nat, Block>) {
    exists lba :: lba in list && multiset(list)[lba] > 1 && lba !in open
  }

  lemma NoneTwice(open: map<nat, Block>)
    ensures !Twice([], open)
  {
  }

  /** A block has two buffers from i on if it has two behind i, or i is one more of it. */
  lemma TwiceMore(bufQueue: seq<nat>, i: nat, open: map<nat, Block>)
    requires i < |bufQueue|
    ensures Twice(bufQueue[i..], open) <==>
            Twice(bufQueue[i + 1..], open) || (bufQueue[i] in bufQueue[i + 1..] && bufQueue[i] !in open)
  {
    var a, b := bufQueue[i..], bufQueue[i + 1..];
    assert a == [bufQueue[i]] + b;
    assert multiset(a) == multiset{bufQueue[i]} + multiset(b);
    if bufQueue[i] in b && bufQueue[i] !in open { assert multiset(a)[bufQueue[i]] > 1; }
    if x :| x in b && multiset(b)[x] > 1 && x !in open { assert x in a && multiset(a)[x] > 1; }
    if x :| x in a && multiset(a)[x] > 1 && x !in open {
      if x == bufQueue[i] { assert x in b; } else { assert multiset(b)[x] > 1; }
    }
  }

  lemma CleanIs(bufQueue: seq<nat>, open: map<nat, Block>, touched: set<nat>, cache: map<nat, Block>,
                revokes: set<nat>, back: set<nat>)
    requires (forall lba :: lba in bufQueue <==> lba in touched) && RunningOk(cache, open, touched, revokes)
    requires forall lba :: lba in back <==> lba in bufQueue && lba !in open
    ensures back == touched - open.Keys && touched - back == open.Keys
  {
  }

  /** A transaction with nothing dirty and nothing revoked has nothing to roll back. */
  lemma EmptyAbort(s: State, queue: seq<CpTrans>, start: nat, last: nat, transId: nat, bufQueue: seq<nat>,
                   geo: Geometry)
    requires Linked(s, queue, start, last, transId, {}, -1) && Shape(s) && s.phase.Idle? && s.open == map[]
      && s.revokes == {}
    requires ListOk(bufQueue, s.open, s.touched, s.revokes, queue, geo)
    ensures Enabled(s, Abort) && Orderly(s, Abort) && Apply(s, Abort) == s.(touched := {})
  {
    hide Linked, Shape, Pending, Holds, NewestCopy, LastEvent;
    forall lba | lba in s.touched
      ensures !Pending(s.pending, lba)
    {
      PendingIsHeld(s, queue, start, last, transId, lba);
    }
    var none := map lba | lba in s.touched && Pending(s.pending, lba) :: NewestCopy(s, lba);
    assert none == map[];
    assert s.cache + none == s.cache;
  }

  lemma DirtyFields(s: State, lba: nat, data: Block)
    requires Shape(s) && s.phase.Idle? && lba in s.base && |data| == s.geo.words && s.geo.Fits(lba)
    ensures Enabled(s, Dirty(lba, data))
    ensures Apply(s, Dirty(lba, data)) ==
              s.(open := s.open[lba := data], touched := s.touched + {lba}, cache := s.cache - {lba},
                 revokes := s.revokes - {lba})
    ensures RunId(Apply(s, Dirty(lba, data))) == RunId(s) && Shape(Apply(s, Dirty(lba, data)))
  {
  }

  lemma FreeFields(s: State, lba: nat, revoke: bool)
    requires Shape(s) && s.phase.Idle? && s.geo.Fits(lba) && (Pending(s.pending, lba) ==> revoke)
    ensures Enabled(s, Free(lba, revoke))
    ensures Apply(s, Free(lba, revoke)) ==
              s.(open := s.open - {lba}, cache := s.cache - {lba},
                 revokes := if revoke then s.revokes + {lba} else s.revokes)
    ensures RunId(Apply(s, Free(lba, revoke))) == RunId(s) && Shape(Apply(s, Free(lba, revoke)))
  {
  }

  lemma DirtyRuns(cache: map<nat, Block>, open: map<nat, Block>, touched: set<nat>, revokes: set<nat>, lba: nat,
                  data: Block)
    requires RunningOk(cache, open, touched, revokes)
    ensures RunningOk(cache - {lba}, open[lba := data], touched + {lba}, revokes - {lba})
  {
  }

  lemma DirtyListed(bufQueue: seq<nat>, open: map<nat, Block>, touched: set<nat>, revokes: set<nat>,
                    queue: seq<CpTrans>, geo: Geometry, lba: nat, data: Block, cache: map<nat, Block>)
    requires ListOk(bufQueue, open, touched, revokes, queue, geo) && |data| == geo.words && geo.Fits(lba)
    requires RunningOk(cache, open, touched, revokes)
    ensures ListOk(if lba in open then bufQueue else [lba] + bufQueue, open[lba := data], touched + {lba},
                   revokes - {lba}, queue, geo)
  {
    hide Holds;
  }

  lemma TakenAlready(recs: map<nat, nat>, queue: seq<CpTrans>, own: set<nat>, next: nat, lba: nat,
                     cache: map<nat, Block>, open: map<nat, Block>, revokes: set<nat>)
    requires RecsOk(recs, queue, own, next, {}) && RunningOk(cache, open, own, revokes) && lba in open
    ensures recs[lba := next] == recs && lba in own && own + {lba} == own
  {
    hide IsId, NewestOwns;
  }

  /** A block with an outstanding write has a record that is not the running transaction's alone. */
  lemma FreedRecord(s: State, queue: seq<CpTrans>, start: nat, last: nat, transId: nat, recs: map<nat, nat>, lba: nat)
    requires Linked(s, queue, start, last, transId, {}, -1) && s.phase.Idle?
    requires RecsOk(recs, queue, s.touched, RunId(s), {})
    ensures Holds(queue, lba) ==> lba in recs
    ensures lba in s.touched ==> lba in recs && recs[lba] == RunId(s)
  {
    hide Linked, IsId;
    if Holds(queue, lba) && lba !in s.touched {
      var k := NewestIs(queue, lba);
      OwnerIs(recs, queue, s.touched, RunId(s), lba, k);
    }
  }

  lemma FreeRuns(cache: map<nat, Block>, open: map<nat, Block>, touched: set<nat>, revokes: set<nat>, lba: nat,
                 revoke: bool)
    requires RunningOk(cache, open, touched, revokes)
    ensures RunningOk(cache - {lba}, open - {lba}, touched, if revoke then revokes + {lba} else revokes)
  {
  }

  lemma FreeListed(bufQueue: seq<nat>, open: map<nat, Block>, touched: set<nat>, revokes: set<nat>,
                   queue: seq<CpTrans>, geo: Geometry, lba: nat, revoke: bool)
    requires ListOk(bufQueue, open, touched, revokes, queue, geo) && geo.Fits(lba) && (Holds(queue, lba) ==> revoke)
    ensures ListOk(bufQueue, open - {lba}, touched, if revoke then revokes + {lba} else revokes, queue, geo)
  {
    hide Holds;
  }

  lemma TouchedIs(bufQueue: seq<nat>, clean: set<nat>, touched: set<nat>, open: map<nat, Block>, revokes: set<nat>,
                  queue: seq<CpTrans>, geo: Geometry)
    requires ListOk(bufQueue, open, touched, revokes, queue, geo)
    ensures Unlisted(clean, bufQueue) == clean - touched
  {
  }

  function Unlisted(clean: set<nat>, list: seq<nat>): (r: set<nat>)
    ensures forall lba :: lba in r <==> lba in clean && lba !in list
  {
    set lba | lba in clean && lba !in list
  }

  lemma AbortRun(s: State, queue: seq<CpTrans>, start: nat, last: nat, transId: nat)
    requires Shape(s) && Enabled(s, Abort) && s.phase.Idle?
    requires Linked(Apply(s, Abort), queue, start, last, transId, {}, -1)
    ensures Shape(Apply(s, Abort)) && RunId(Apply(s, Abort)) == RunId(s) && Own(Apply(s, Abort)) == {}
  {
    hide Linked, NewestCopy, Pending;
    LinkShape(Apply(s, Abort), queue, start, last, transId, {}, -1);
  }

  lemma NoRecords(recs: map<nat, nat>, next: nat)
    requires RecsOk(recs, [], {}, next, {})
    ensures recs == map[]
  {
    RecsPass(recs, next);
  }

  /** Checkpointing takes neither room from the log nor anything from the list of the running transaction. */
  lemma StillOpen(s: State, t: State, queue: seq<CpTrans>, w: seq<CpTrans>, start: nat, last: nat, transId: nat,
                  lba: nat,
                  bufQueue: seq<nat>, open: map<nat, Block>, revokes: set<nat>, geo: Geometry)
    requires Linked(t, w, start, last, transId, {}, -1) && Shape(s) && HasRoom(s) && Checkpoints(s, t)
    requires ListOk(bufQueue, open, s.touched, revokes, queue, geo)
    requires if Holds(queue, lba) then exists n: nat :: n <= |queue| && w == EndedAll(queue, lba)[n..] else w == queue
    ensures Shape(t) && HasRoom(t) && ListOk(bufQueue, open, t.touched, revokes, w, geo)
  {
    hide EndedAll, Shape, HasRoom, ListOk, Has, Pos;
    LinkShape(t, w, start, last, transId, {}, -1);
    RoomOn(s, t);
    if Holds(queue, lba) {
      var n: nat :| n <= |queue| && w == EndedAll(queue, lba)[n..];
      EndedHolds(queue, lba, n);
    }
    ListLess(bufQueue, open, s.touched, revokes, queue, w, geo);
  }

  lemma EndedHolds(queue: seq<CpTrans>, lba: nat, n: nat)
    requires n <= |queue|
    ensures forall x :: Holds(EndedAll(queue, lba)[n..], x) ==> Holds(queue, x)
  {
    hide Has;
    var w := EndedAll(queue, lba)[n..];
    forall x | Holds(w, x)
      ensures Holds(queue, x)
    {
      var k :| 0 <= k < |w| && Has(w[k].bufs, x);
      assert w[k] == Ended(queue[n + k], lba);
      if x == lba { EndedHas(queue, n + k, lba); } else { EndedOther(queue[n + k], lba, x); }
    }
  }

  lemma GroupBounds(img: seq<Block>, id: nat, j: nat, n: nat, ws: seq<Write>, k: nat, geo: Geometry)
    requires Group(img, id, j, n, ws, k, geo)
    ensures j < n < |img| && IsHeader(img[j])
    ensures var t := |Tags(img[j], HEADER_WORDS, geo)|; j + t + 1 <= n && k + t <= |ws|
  {
  }

  lemma AnyOrder(s: State, steps: seq<Step>, t: State, o: bool)
    requires Runs(s, steps, t, o)
    ensures Runs(s, steps, t, false)
  {
  }

  /** A full log has a transaction to purge, if the running one is shorter than the log. */
  lemma QueueThere(s: State, queue: seq<CpTrans>, start: nat, last: nat, transId: nat)
    requires Linked(s, queue, start, last, transId, {}, -1) && s.phase.Logging? && !HasRoom(s)
    requires s.phase.alloc < s.geo.Slots()
    ensures queue != [] && s.dm < |s.imgs| && |s.imgs[s.dm]| > 0
  {
    hide Pos, SlotAt;
    assert queue != [];
    assert EntryOk(s, s.dm + 0, queue[0], {}, -1);
  }

  lemma RingRoom(s: State, queue: seq<CpTrans>, start: nat, last: nat, transId: nat)
    requires Linked(s, queue, start, last, transId, {}, -1) && s.phase.Logging? && HasRoom(s) && s.phase.alloc > 0
    ensures last != start
  {
    hide Pos, SlotAt, QueueOk, CopiesOk;
    HeadAfter(s);
    RingFull(s, start, last, transId);
  }

  lemma LinkHead(s: State, queue: seq<CpTrans>, start: nat, last: nat, transId: nat)
    requires Linked(s, queue, start, last, transId, {}, -1)
    ensures queue != [] ==> (Done(queue[0]) <==> |queue[0].bufs| == 0)
    ensures forall k :: 0 <= k < |queue| ==> queue[k].id == s.firstId + s.dm + k
  {
    hide Pos, SlotAt;
    LinkSize(s, queue, start, last, transId, {}, -1);
    if queue != [] { assert EntryOk(s, s.dm + 0, queue[0], {}, -1); }
  }

  lemma FlushApplied(s: State, lba: nat)
    requires Shape(s)
    ensures lba in s.cache ==>
      && Enabled(s, FlushCached(lba)) && Orderly(s, FlushCached(lba))
      && Apply(s, FlushCached(lba)) == s.(disk := s.disk.(home := s.disk.home[lba := s.cache[lba]]),
        cache := s.cache - {lba},
           pending := Without(s.pending, {lba}))
    ensures Enabled(s, FlushLogCopy(lba)) ==>
      && s.dm < |s.trans|
      && Apply(s, FlushLogCopy(lba)) == s.(disk := s.disk.(home := s.disk.home[lba := LogCopy(s.trans[s.dm], lba)]),
           pending := s.pending[s.dm := s.pending[s.dm] - {lba}])
    ensures forall step :: (step == FlushCached(lba) || step == FlushLogCopy(lba)) && Enabled(s, step) ==>
      Checkpoints(s, Apply(s, step)) && SameRunning(s, Apply(s, step))
  {
    hide LogCopy, Pos, SlotAt;
  }

  lemma LinkCounted(s: State, queue: seq<CpTrans>, start: nat, last: nat, transId: nat, loose: set<nat>)
    requires Linked(s, queue, start, last, transId, loose, -1)
    ensures Counted(queue)
  {
    CountedIs(s, queue, loose);
  }

  lemma LinkSize(s: State, queue: seq<CpTrans>, start: nat, last: nat, transId: nat, loose: set<nat>, owed: int)
    requires Linked(s, queue, start, last, transId, loose, owed)
    ensures s.dm + |queue| <= |s.pending|
    ensures forall k :: 0 <= k < |queue| ==> queue[k].id == s.firstId + s.dm + k
  {
    Ids(s, queue, loose, owed);
  }

  lemma EndingId(s: State, queue: seq<CpTrans>, start: nat, last: nat, transId: nat, loose: set<nat>, lba: nat, id: nat,
                 was: seq<CpTrans>, newest: nat, n: nat, p: nat)
    requires Linked(s, queue, start, last, transId, loose, id)
    requires Ending(was, lba, newest, n, p, queue) && n + p < newest && id == was[newest].id
    ensures p < |queue| && queue[p].id != id && s.dm + p < |s.pending|
  {
    hide Linked, Ended, Begun;
    LinkSize(s, queue, start, last, transId, loose, id);
    PartialAt(was, lba, newest, n + p, newest);
    BegunBufs(was[newest], lba);
    assert queue[newest - n].id == id;
  }

  lemma EndingAt(was: seq<CpTrans>, lba: nat, newest: nat, n: nat, p: nat, queue: seq<CpTrans>)
    requires Ending(was, lba, newest, n, p, queue) && n + p < newest
    ensures p < |queue| && queue[p] == was[n + p]
  {
  }

  lemma LinkShape(s: State, queue: seq<CpTrans>, start: nat, last: nat, transId: nat, loose: set<nat>, owed: int)
    requires Linked(s, queue, start, last, transId, loose, owed)
    ensures Shape(s) && s.geo.Valid()
  {
  }
}
