/** A run of the journal after which it cannot be stopped: a committed block is freed, the transaction that freed
    it is aborted, and the block is read again, into a clean buffer. */
module JournalHang {
  import opened JournalFormat
  import opened JournalRecovery
  import opened JournalProtocol
  import opened JournalInvariant
  import opened JournalTheorems
  import opened JournalQueue
  import opened JournalRecords
  import opened JournalClean
  import opened JournalOps
  import opened JournalLoss

  const HOME: map<nat, Block> := map[7 := Fill(0)]
  const LOG: seq<Block> := [Fill(0), Fill(0), Fill(0), Fill(0), Fill(0), Fill(0), Fill(0), Fill(0)]

  lemma OneBuffer()
    ensures DirtyWrites(Buffers([7], map[7 := Fill(1)])) == [Write(7, Fill(1))]
    ensures ImageLength(1, 0, TINY) == 3
  {
    var bufs := Buffers([7], map[7 := Fill(1)]);
    assert bufs == [JournalBuf(7, Fill(1), true)];
    assert bufs[1..] == [];
  }

  lemma PlainOne(t: Trans)
    requires t.writes == [Write(7, Fill(1))]
    ensures Plain([t])
  {
  }

  /** The block that only the aborted transaction has freed waits for the one that wrote it. */
  lemma WaitsNow(queue: seq<CpTrans>, clean: set<nat>, recs: map<nat, nat>, next: nat)
    requires RecsOk(recs, queue, {}, next, {}) && Numbered(queue, next) && 7 in clean && Holds(queue, 7)
    ensures Waits(queue, clean, recs, 7)
  {
    WaitsIs(queue, clean, recs, {}, next, 7);
  }

  lemma {:induction false} BaseStays(s: State, steps: seq<Step>)
    requires Path(s, steps)
    ensures End(s, steps).base == s.base
    decreases |steps|
  {
    hide Enabled, Shape, Apply;
    if steps != [] {
      SameBase(s, steps[0]);
      BaseStays(Apply(s, steps[0]), steps[1..]);
    }
  }

  lemma SameBase(s: State, step: Step)
    requires Shape(s) && Enabled(s, step)
    ensures Apply(s, step).base == s.base
  {
    hide Enabled, Shape, Pos, SlotAt, LogCopy, NewestCopy, Without;
  }

  lemma Quiet(bufQueue: seq<nat>, open: map<nat, Block>, touched: set<nat>, revokes: set<nat>, queue: seq<CpTrans>,
              geo: Geometry)
    requires ListOk(bufQueue, open, touched, revokes, queue, geo) && bufQueue == []
    ensures touched == {}
  {
  }

  /** Block 7 is committed. */
  method CommitOne() returns (j: Journal)
    ensures fresh(j) && j.Open() && Inv(j.s) && Plain(j.s.trans) && Holds(j.queue, 7) && j.geo == TINY
    ensures j.s.base == HOME && j.s.trans != [] && j.s.acked == 1 && j.bufQueue == []
  {
    hide Linked, RunningOk, Inv, Shape, RecsOk, HasRoom, ListOk, Apply, Enabled, Orderly, Waits, Describes, Buffers,
         DirtyWrites, Runs, Plain, Leading, Pos, Holds, Filled, Apart, ImageLength, IsNewest, Fill, Head;
    j := new Journal(TINY, HOME, LOG, 0);
    ghost var s0 := j.s;
    StartShape(s0);
    DirtyFields(s0, 7, Fill(1));
    j.SetDirty(7, Fill(1));
    StepKeeps(s0, Dirty(7, Fill(1)));
    assert j.open == map[7 := Fill(1)] && j.bufQueue == [7] && j.revokes == {};
    OneBuffer();
    PlainNone();
    var fits, halted;
    ghost var s1 := j.s;
    ghost var t, steps, unsynced, freed;
    fits, halted, t, steps, unsynced, freed := j.CommitTrans([0, 0, 0, 0], Fill(0));
    BaseIs(s1, steps, j.s, !unsynced);
    PlainOne(t);
    assert j.s.trans == [t];
  }

  lemma BaseIs(s: State, steps: seq<Step>, t: State, o: bool)
    requires Runs(s, steps, t, o)
    ensures t.base == s.base
  {
    BaseStays(s, steps);
  }

  lemma PlainNone()
    ensures Plain([])
  {
  }

  lemma StartShape(s: State)
    requires s == Start(TINY, HOME, LOG, 0)
    ensures Shape(s) && Inv(s) && Orderly(s, Dirty(7, Fill(1))) && Enabled(s, Dirty(7, Fill(1)))
  {
    StartOk(TINY, HOME, LOG, 0);
  }

  lemma FreeEffect(s: State, revoke: bool)
    requires Inv(s) && Enabled(s, Free(7, revoke)) && s.touched == {}
    ensures var t := Apply(s, Free(7, revoke));
      && Inv(t) && t.trans == s.trans && t.base == s.base && t.touched == {} && t.phase == s.phase && 7 !in t.cache
      && 7 !in t.open
  {
    hide Inv;
    ShapeOf(s);
    StepKeeps(s, Free(7, revoke));
  }

  lemma ShapeOf(s: State)
    requires Inv(s)
    ensures Shape(s)
  {
  }

  lemma InvCore(s: State)
    requires Inv(s)
    ensures Core(s)
  {
  }

  lemma AbortEffect(s: State)
    requires Inv(s) && Enabled(s, Step.Abort) && s.touched == {}
    ensures var t := Apply(s, Step.Abort);
      && Inv(t) && t.trans == s.trans && t.base == s.base && t.touched == {} && (7 in t.cache <==> 7 in s.cache)
      && t.open == map[]
  {
    hide Inv, NewestCopy;
    ShapeOf(s);
    assert Orderly(s, Step.Abort);
    StepKeeps(s, Step.Abort);
    assert (map lba | lba in s.touched && Pending(s.pending, lba) :: NewestCopy(s, lba)) == map[];
  }

  /** jbd_journal_stop does not come back. */
  method StopHangs() returns (j: Journal, ends: bool)
    ensures fresh(j) && !ends && j.Valid() && Inv(j.s) && AllWait(j.queue, j.clean, j.recs)
    ensures j.s.trans != []
  {
    hide Linked, RunningOk, Inv, Core, Shape, RecsOk, HasRoom, ListOk, Apply, Enabled, Orderly, Waits, AllWait, Plain,
         Holds,
         Apart, GivenBack;
    j := CommitOne();
    ghost var s0 := j.s;
    Quiet(j.bufQueue, j.open, j.s.touched, j.revokes, j.queue, TINY);
    var revoke := j.FreeBlock(7);
    FreeEffect(s0, revoke);
    ghost var s1 := j.s;
    InvCore(s1);
    j.AbortTrans();
    AbortEffect(s1);
    j.Read(7);
    RunIs(j.s);
    LinkIds(j.s, j.queue, j.start, j.last, j.transId, {}, -1);
    WaitsNow(j.queue, j.clean, j.recs, RunId(j.s));
    InvCore(j.s);
    ends := j.Stop();
  }
}
