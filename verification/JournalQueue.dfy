/** The checkpoint queue: committed transactions whose home writes are outstanding, and how the list
    kept by the code corresponds to the step system. */
module JournalQueue {
  import opened JournalFormat
  import opened JournalRecovery
  import opened JournalProtocol
  import opened JournalRestart
  import opened JournalTheorems

  /** A jbd_buf of a committed transaction: the block to be written home and the log block that holds its
      copy. */
  datatype Buf = Buf(lba: nat, slot: nat)

  /** A committed transaction; a block that was freed and dirtied again in it is in `bufs` more than once. */
  datatype CpTrans = CpTrans(id: nat, startIblock: nat, allocBlocks: nat, dataCnt: nat, writtenCnt: nat, bufs: seq<Buf>)

  predicate Has(bufs: seq<Buf>, lba: nat) { exists b :: b in bufs && b.lba == lba }

  function Drop(bufs: seq<Buf>, lba: nat): (r: seq<Buf>)
    ensures forall b :: b in r <==> b in bufs && b.lba != lba
    ensures if Has(bufs, lba) then |r| < |bufs| else r == bufs
  {
    if bufs == [] then []
    else
      var n := |bufs| - 1;
      assert bufs == bufs[..n] + [bufs[n]];
      if bufs[n].lba == lba then Drop(bufs[..n], lba) else Drop(bufs[..n], lba) + [bufs[n]]
  }

  /** How many buffers of a block there are. */
  function Times(bufs: seq<Buf>, lba: nat): nat { |bufs| - |Drop(bufs, lba)| }

  predicate Done(q: CpTrans) { q.dataCnt == q.writtenCnt }

  /** A transaction after its write of a block has ended. */
  function Ended(q: CpTrans, lba: nat): CpTrans {
    q.(bufs := Drop(q.bufs, lba), writtenCnt := q.writtenCnt + Times(q.bufs, lba))
  }

  /** The same, with one buffer not counted yet. */
  function Begun(q: CpTrans, lba: nat): CpTrans {
    if Has(q.bufs, lba) then Ended(q, lba).(writtenCnt := q.writtenCnt + Times(q.bufs, lba) - 1) else q
  }

  function EndedAll(queue: seq<CpTrans>, lba: nat): (r: seq<CpTrans>)
    ensures |r| == |queue| && forall k :: 0 <= k < |queue| ==> r[k] == Ended(queue[k], lba)
  {
    seq(|queue|, k requires 0 <= k < |queue| => Ended(queue[k], lba))
  }

  /** Finished transactions at the head of the queue. */
  function Leading(queue: seq<CpTrans>): (n: nat)
    ensures n <= |queue| && (forall k :: 0 <= k < n ==> Done(queue[k])) && (n < |queue| ==> !Done(queue[n]))
  {
    if queue == [] || !Done(queue[0]) then 0 else 1 + Leading(queue[1..])
  }

  lemma LeadingIs(queue: seq<CpTrans>, n: nat)
    requires n <= |queue| && (forall k :: 0 <= k < n ==> Done(queue[k])) && (n < |queue| ==> !Done(queue[n]))
    ensures Leading(queue) == n
  {
  }

  /** The newest transaction with an outstanding write of the block; |queue| if there is none. */
  predicate IsNewest(queue: seq<CpTrans>, lba: nat, k: nat) {
    && k < |queue| && Has(queue[k].bufs, lba)
    && forall j :: k < j < |queue| ==> !Has(queue[j].bufs, lba)
  }

  /** Transactions taken off the queue when the writes of a block end. The flag that lets the newest
      one move the tail is read before the older ones are taken off. */
  function Popped(queue: seq<CpTrans>, lba: nat, newest: nat): (n: nat)
    requires newest < |queue|
    ensures n <= |queue|
  {
    var lead := Leading(EndedAll(queue, lba));
    if Done(queue[0]) then 0 else if newest == 0 || lead < newest then lead else newest
  }

  /** The queue while the writes of a block end: done up to entry e, and begun for the newest one. */
  function Partial(queue: seq<CpTrans>, lba: nat, newest: nat, e: nat): (r: seq<CpTrans>)
    ensures |r| == |queue|
  {
    seq(|queue|, x requires 0 <= x < |queue| =>
      if x < e then Ended(queue[x], lba)
      else if x == newest then Begun(queue[x], lba)
      else queue[x])
  }

  /** What is not written yet is still there to be written. */
  predicate Counted(queue: seq<CpTrans>) {
    forall k :: 0 <= k < |queue| ==> queue[k].dataCnt == queue[k].writtenCnt + |queue[k].bufs|
  }

  /** How far the writes of a block have been ended: n transactions are off the queue, p more are done. */
  ghost predicate Ending(was: seq<CpTrans>, lba: nat, newest: nat, n: nat, p: nat, queue: seq<CpTrans>) {
    && newest < |was| && n + p <= newest
    && queue == Partial(was, lba, newest, n + p)[n..]
    && (forall x :: 0 <= x < n ==> Done(Ended(was[x], lba)))
    && (Done(was[0]) ==> n == 0)
    && (!Done(was[0]) && n + p > 0 ==> !Done(queue[0]))
  }

  lemma EndingStarts(was: seq<CpTrans>, lba: nat, newest: nat)
    requires IsNewest(was, lba, newest)
    ensures Ending(was, lba, newest, 0, 0, was[newest := Begun(was[newest], lba)])
  {
  }

  lemma EndingSkips(was: seq<CpTrans>, lba: nat, newest: nat, n: nat, p: nat, queue: seq<CpTrans>)
    requires Ending(was, lba, newest, n, p, queue) && n + p < newest && !Has(queue[p].bufs, lba)
    ensures Ending(was, lba, newest, n, p + 1, queue)
  {
    hide Partial, Begun;
    PartialAt(was, lba, newest, n + p, n + p);
    PartialMore(was, lba, newest, n + p, n + p + 1);
  }

  lemma EndingMoves(was: seq<CpTrans>, lba: nat, newest: nat, n: nat, p: nat, queue: seq<CpTrans>, off: nat)
    requires Ending(was, lba, newest, n, p, queue) && n + p < newest && Has(queue[p].bufs, lba)
    requires IsNewest(was, lba, newest) && Counted(was)
    requires off == if p == 0 then Leading(queue[p := Ended(queue[p], lba)]) else 0
    ensures n + off <= newest
    ensures Ending(was, lba, newest, n + off, if off == 0 then p + 1 else 0, queue[p := Ended(queue[p], lba)][off..])
  {
    hide Partial, Leading, Ended, Begun;
    var w := queue[p := Ended(queue[p], lba)];
    EndingOne(was, lba, newest, n, p, queue);
    PartialAt(was, lba, newest, n + p, n + p);
    if off > 0 {
      EndingPops(was, lba, newest, n, w, off);
    }
  }

  lemma PartialAt(was: seq<CpTrans>, lba: nat, newest: nat, e: nat, x: nat)
    requires x < |was|
    ensures Partial(was, lba, newest, e)[x] ==
      if x < e then Ended(was[x], lba) else if x == newest then Begun(was[x], lba) else was[x]
  {
  }

  /** One more transaction has its write ended. */
  lemma EndingOne(was: seq<CpTrans>, lba: nat, newest: nat, n: nat, p: nat, queue: seq<CpTrans>)
    requires Ending(was, lba, newest, n, p, queue) && n + p < newest
    ensures var w := queue[p := Ended(queue[p], lba)];
      && w == Partial(was, lba, newest, n + p + 1)[n..]
      && (p == 0 && !Done(w[0]) ==> Ending(was, lba, newest, n, 1, w))
      && (p > 0 ==> Ending(was, lba, newest, n, p + 1, w))
  {
    hide Ended, Begun;
    var w := queue[p := Ended(queue[p], lba)];
    assert queue[p] == was[n + p];
    assert w == Partial(was, lba, newest, n + p + 1)[n..];
    if p == 0 && n == 0 && Done(was[0]) { assert w[0] == Ended(was[0], lba); }
  }

  /** And the tail moves. */
  lemma EndingPops(was: seq<CpTrans>, lba: nat, newest: nat, n: nat, w: seq<CpTrans>, off: nat)
    requires newest < |was| && n < newest && w == Partial(was, lba, newest, n + 1)[n..]
    requires IsNewest(was, lba, newest) && Counted(was) && Has(was[n].bufs, lba)
    requires forall x :: 0 <= x < n ==> Done(Ended(was[x], lba))
    requires Done(was[0]) ==> n == 0
    requires off == Leading(w) > 0
    ensures n + off <= newest && Ending(was, lba, newest, n + off, 0, w[off..])
  {
    hide Partial, Times, Drop;
    NotDone(was[newest], lba);
    NotDone(was[n], lba);
    PopsBefore(was, lba, newest, n, w, off);
    PartialMore(was, lba, newest, n + 1, n + off);
    assert w[off..] == Partial(was, lba, newest, n + off)[n + off..];
    PartialAt(was, lba, newest, n + off, n + off);
  }

  /** Only transactions that are finished now, and that had no other write of the block, are popped. */
  lemma PopsBefore(was: seq<CpTrans>, lba: nat, newest: nat, n: nat, w: seq<CpTrans>, off: nat)
    requires newest < |was| && n < newest && w == Partial(was, lba, newest, n + 1)[n..]
    requires Has(was[newest].bufs, lba) && Counted(was) && off == Leading(w)
    ensures n + off <= newest
    ensures forall x :: n <= x < n + off ==> Done(Ended(was[x], lba)) && (x > n ==> !Has(was[x].bufs, lba))
  {
    hide Partial, Ended, Begun, Has;
    PartialAt(was, lba, newest, n + 1, newest);
    NotDone(was[newest], lba);
    assert !Done(w[newest - n]);
    forall x | n <= x < n + off
      ensures Done(Ended(was[x], lba)) && (x > n ==> !Has(was[x].bufs, lba))
    {
      PartialAt(was, lba, newest, n + 1, x);
      assert Done(w[x - n]);
      if x > n {
        if Has(was[x].bufs, lba) {
          NotDone(was[x], lba);
          assert false;
        }
        EndedSame(was[x], lba);
      }
    }
  }

  lemma EndedSame(q: CpTrans, lba: nat)
    requires !Has(q.bufs, lba)
    ensures Ended(q, lba) == q
  {
    hide Has;
  }

  lemma NotDone(q: CpTrans, lba: nat)
    requires Has(q.bufs, lba) && q.dataCnt == q.writtenCnt + |q.bufs|
    ensures !Done(q) && !Done(Begun(q, lba))
  {
    hide Drop;
  }

  lemma PartialMore(was: seq<CpTrans>, lba: nat, newest: nat, a: nat, b: nat)
    requires a <= b <= newest < |was| && forall x :: a <= x < b ==> !Has(was[x].bufs, lba)
    ensures Partial(was, lba, newest, a) == Partial(was, lba, newest, b)
  {
    hide Has, Begun;
  }

  /** When all older transactions are done, the newest one follows. */
  lemma EndingEnds(was: seq<CpTrans>, lba: nat, newest: nat, n: nat, p: nat, queue: seq<CpTrans>)
    requires Ending(was, lba, newest, n, p, queue) && n + p == newest
    requires IsNewest(was, lba, newest) && Counted(was)
    ensures p < |queue| && queue[p] == Begun(was[newest], lba)
    ensures queue[p := queue[p].(writtenCnt := queue[p].writtenCnt + 1)] == EndedAll(was, lba)[n..]
    ensures newest > 0 ==> n == Popped(was, lba, newest)
    ensures newest == 0 ==> n == 0 && Popped(was, lba, newest) == Leading(EndedAll(was, lba))
  {
    hide Ended, Begun, Has;
    var all := EndedAll(was, lba);
    BegunEnds(was[newest], lba);
    EndedRest(was, lba, newest);
    NotDone(was[newest], lba);
    assert queue[p := queue[p].(writtenCnt := queue[p].writtenCnt + 1)] == all[n..];
    if newest > 0 && !Done(was[0]) {
      if n < newest {
        assert queue[0] == Ended(was[n], lba) == all[n];
        LeadingIs(all, n);
      } else {
        LeadingAtLeast(all, n);
      }
    }
  }

  lemma EndedRest(was: seq<CpTrans>, lba: nat, newest: nat)
    requires IsNewest(was, lba, newest)
    ensures forall x :: newest < x < |was| ==> Ended(was[x], lba) == was[x]
  {
    hide Has;
  }

  lemma BegunEnds(q: CpTrans, lba: nat)
    requires Has(q.bufs, lba)
    ensures var r := Begun(q, lba); r.(writtenCnt := r.writtenCnt + 1) == Ended(q, lba)
  {
    hide Has;
  }

  lemma LeadingAtLeast(queue: seq<CpTrans>, n: nat)
    requires n <= |queue| && forall k :: 0 <= k < n ==> Done(queue[k])
    ensures n <= Leading(queue)
  {
  }

  /** Nobody waits for the block any more. */
  lemma EndedNone(was: seq<CpTrans>, lba: nat, n: nat)
    requires n <= |was|
    ensures forall k :: 0 <= k < |was| - n ==> !Has(EndedAll(was, lba)[n..][k].bufs, lba)
  {
  }

  lemma {:induction false} LeadingDrop(queue: seq<CpTrans>, n: nat)
    requires n <= Leading(queue)
    ensures Leading(queue[n..]) == Leading(queue) - n
    decreases n
  {
    if n > 0 {
      LeadingDrop(queue[1..], n - 1);
      assert queue[n..] == queue[1..][n - 1..];
    } else {
      assert queue[0..] == queue;
    }
  }

  /** A finished transaction is left at the head of the queue exactly when the newest holder of the block
      was not first, and it and all before it are finished now. */
  lemma Lingers(queue: seq<CpTrans>, lba: nat, newest: nat)
    requires newest < |queue| && !Done(queue[0])
    ensures Leading(EndedAll(queue, lba)[Popped(queue, lba, newest)..]) > 0 <==>
            newest > 0 && forall k :: 0 <= k <= newest ==> Done(Ended(queue[k], lba))
  {
    var all := EndedAll(queue, lba);
    LeadingDrop(all, Popped(queue, lba, newest));
    assert forall k :: 0 <= k <= newest ==> all[k] == Ended(queue[k], lba);
    if forall k :: 0 <= k <= newest ==> Done(Ended(queue[k], lba)) { LeadingAtLeast(all, newest + 1); }
  }

  // -------------------------------------------------------------------- link

  ghost predicate EntryOk(s: State, i: nat, q: CpTrans, loose: set<nat>, owed: int)
    requires Shape(s)
  {
    && i < |s.trans|
    && q.id == s.firstId + i
    && q.startIblock == SlotAt(s.geo, Pos(s.imgs, i))
    && q.allocBlocks == |s.imgs[i]| && 0 < q.allocBlocks <= s.geo.Slots()
    && q.dataCnt == q.writtenCnt + |q.bufs| + (if q.id == owed then 1 else 0)
    && (forall lba :: lba in s.pending[i] ==> Has(q.bufs, lba))
    && forall lba :: Has(q.bufs, lba) ==> lba in s.pending[i] || lba in loose
  }

  /** The queue holds the transactions behind the tail in memory. Writes of `loose` blocks have reached
      the disk without having been counted; transaction `owed` has one write less to its count. */
  ghost predicate QueueOk(s: State, queue: seq<CpTrans>, loose: set<nat>, owed: int)
    requires Shape(s)
  {
    && s.dm + |queue| == QueueEnd(s) && (forall i :: 0 <= i < s.dm ==> s.pending[i] == {})
    && forall k :: 0 <= k < |queue| ==> EntryOk(s, s.dm + k, queue[k], loose, owed)
  }

  ghost predicate SlotIn(geo: Geometry, slot: nat, lo: nat, hi: nat)
    requires geo.Valid()
  {
    exists p: nat :: lo <= p < hi && slot == SlotAt(geo, p)
  }

  /** The log block a buffer names holds the content that its transaction committed. */
  ghost predicate CopyOk(geo: Geometry, log: seq<Block>, lo: nat, hi: nat, t: Trans, lba: nat, slot: nat)
    requires geo.Valid() && |log| == geo.maxlen
  {
    && SlotIn(geo, slot, lo, hi)
    && var e := LastWrite(t.writes, lba); e.Wrote? && (!IsMagic(e.data) ==> log[slot] == e.data)
  }

  ghost predicate EntryCopies(s: State, i: nat, q: CpTrans)
    requires Shape(s)
  {
    && i < |s.trans|
    && forall b :: b in q.bufs ==>
         CopyOk(s.geo, s.disk.log, Pos(s.imgs, i), Pos(s.imgs, i + 1), s.trans[i], b.lba, b.slot)
  }

  ghost predicate CopiesOk(s: State, queue: seq<CpTrans>)
    requires Shape(s)
  {
    forall k :: 0 <= k < |queue| ==> EntryCopies(s, s.dm + k, queue[k])
  }

  /** Where the log in use begins and ends. */
  ghost predicate RingOk(s: State, start: nat, last: nat, transId: nat)
    requires Shape(s)
  {
    && start == SlotAt(s.geo, Pos(s.imgs, s.dm)) && transId == s.firstId + s.dm
    && last == SlotAt(s.geo, Head(s) + Allocated(s))
    && Head(s) + Allocated(s) <= Pos(s.imgs, s.dm) + s.geo.Slots()
  }

  ghost predicate Linked(s: State, queue: seq<CpTrans>, start: nat, last: nat, transId: nat, loose: set<nat>,
                         owed: int) {
    Shape(s) && RingOk(s, start, last, transId) && QueueOk(s, queue, loose, owed) && CopiesOk(s, queue)
  }

  // ------------------------------------------------------------------ steps

  /** The step system goes from s to t by the given steps, which are orderly if so said, and otherwise but for
      purges without a superblock write. */
  ghost predicate Runs(s: State, steps: seq<Step>, t: State, orderly: bool) {
    Path(s, steps) && End(s, steps) == t && SteadyPath(s, steps) && (orderly ==> OrderlyPath(s, steps))
  }

  lemma RunsNowhere(s: State)
    ensures Runs(s, [], s, true)
  {
  }

  lemma RunsOn(s: State, a: seq<Step>, t: State, b: seq<Step>, u: State, o: bool, o': bool)
    requires Runs(s, a, t, o) && Runs(t, b, u, o')
    ensures Runs(s, a + b, u, o && o')
  {
    PathAppend(s, a, b);
  }

  /** A run that never leaves the superblock behind keeps the invariant. */
  lemma RunsKeep(s: State, steps: seq<Step>, t: State)
    requires Inv(s) && Runs(s, steps, t, true)
    ensures Inv(t)
  {
    hide Inv;
    RunKeeps(s, steps);
  }

  lemma RunsSound(s: State, steps: seq<Step>, t: State)
    requires Sound(s) && Runs(s, steps, t, true)
    ensures Sound(t)
  {
    hide Sound;
    RunSound(s, steps);
  }

  /** What does not depend on the tail on disk is kept by every run. */
  lemma RunsKeepCore(s: State, steps: seq<Step>, t: State, orderly: bool)
    requires Core(s) && Runs(s, steps, t, orderly)
    ensures Core(t)
  {
    hide Core;
    RunKeepsCore(s, steps);
  }

  lemma RunsStep(s: State, step: Step)
    requires Shape(s) && Enabled(s, step) && Steady(s, step)
    ensures Runs(s, [step], Apply(s, step), Orderly(s, step))
  {
    hide Shape, Enabled, Apply, Orderly, Steady;
    var t, steps := Apply(s, step), [step];
    assert steps[1..] == [] && Path(t, []) && End(t, []) == t && OrderlyPath(t, []) && SteadyPath(t, []);
    assert Path(s, steps) && End(s, steps) == t;
  }

  lemma ShapeKeeps(s: State, step: Step)
    requires Shape(s) && Enabled(s, step)
    ensures Shape(Apply(s, step))
  {
    hide Describes, ImageOf, GroupWritten, Pending, LastWrite;
    if step.WriteCommit? {
      var t := Apply(s, step);
      assert s.imgs <= t.imgs;
      PosPrefix(s.imgs, t.imgs, s.d);
    }
  }

  predicate NotPending(pending: seq<set<nat>>, lba: nat) { forall i :: 0 <= i < |pending| ==> lba !in pending[i] }

  /** Steps that do nothing but move the tail. */
  ghost predicate TailOnly(s: State, t: State) {
    && t == s.(dm := t.dm, d := t.d, mustSync := t.mustSync, disk := t.disk)
    && t.disk == s.disk.(start := t.disk.start, sequence := t.disk.sequence)
    && s.dm <= t.dm
  }

  /** What the journal keeps in memory about the running transaction, and the ids, as they were. */
  ghost predicate SameRunning(s: State, t: State) {
    t.geo == s.geo && NextId(t) == NextId(s) && t.open == s.open && t.touched == s.touched && t.revokes == s.revokes
  }

  /** Checkpointing: home blocks are written and the tail moves. */
  ghost predicate Checkpoints(s: State, t: State) {
    && t == s.(dm := t.dm, d := t.d, mustSync := t.mustSync, disk := t.disk, cache := t.cache, pending := t.pending)
    && t.disk == s.disk.(home := t.disk.home, start := t.disk.start, sequence := t.disk.sequence)
    && s.dm <= t.dm && |t.pending| == |s.pending|
  }

  /** The head of the queue is taken off. */
  lemma RetireKeeps(s: State, queue: seq<CpTrans>, start: nat, last: nat, transId: nat, loose: set<nat>, owed: int,
                    step: Step)
    requires Linked(s, queue, start, last, transId, loose, owed)
    requires queue != [] && Done(queue[0]) && (step == AdvanceTail || (step == PurgeUnsynced && s.phase.Logging?))
    ensures Enabled(s, step)
    ensures var q, t := queue[0], Apply(s, step);
      && Linked(t, queue[1..], Wrap(q.startIblock + q.allocBlocks, s.geo), last, q.id + 1, loose, owed)
      && TailOnly(s, t) && t.dm == s.dm + 1 && t.disk == s.disk && t.d == s.d
      && t.mustSync == (s.mustSync || step == AdvanceTail) && t.cache == s.cache && SameRunning(s, t)
  {
    hide EntryCopies, EntryOk, Pos, Shape, RingOk;
    HeadFinished(s, queue, loose, owed);
    var q := queue[0];
    RetireRing(s, q, start, last, transId, step);
    var t := Apply(s, step);
    forall k | 0 <= k < |queue[1..]|
      ensures EntryOk(t, t.dm + k, queue[1..][k], loose, owed) && EntryCopies(t, t.dm + k, queue[1..][k])
    {
      assert EntryOk(s, s.dm + (k + 1), queue[k + 1], loose, owed);
      EntrySame(s, t, s.dm + (k + 1), queue[k + 1], loose, owed);
      CopiesSame(s, t, s.dm + (k + 1), queue[k + 1]);
    }
  }

  lemma HeadFinished(s: State, queue: seq<CpTrans>, loose: set<nat>, owed: int)
    requires Shape(s) && QueueOk(s, queue, loose, owed) && queue != [] && Done(queue[0])
    ensures s.dm < |s.trans| && s.pending[s.dm] == {} && s.dm < QueueEnd(s)
    ensures queue[0].id == s.firstId + s.dm && queue[0].startIblock == SlotAt(s.geo, Pos(s.imgs, s.dm))
    ensures queue[0].allocBlocks == |s.imgs[s.dm]| <= s.geo.Slots()
  {
    hide Pos, SlotAt;
    assert EntryOk(s, s.dm + 0, queue[0], loose, owed);
    NoneLeft(queue[0].bufs, s.pending[s.dm]);
  }

  lemma RetireRing(s: State, q: CpTrans, start: nat, last: nat, transId: nat, step: Step)
    requires Shape(s) && RingOk(s, start, last, transId) && s.dm < QueueEnd(s) && s.pending[s.dm] == {}
    requires q.id == s.firstId + s.dm && q.startIblock == SlotAt(s.geo, Pos(s.imgs, s.dm))
    requires q.allocBlocks == |s.imgs[s.dm]| <= s.geo.Slots()
    requires step == AdvanceTail || (step == PurgeUnsynced && s.phase.Logging?)
    ensures Enabled(s, step)
    ensures var t := Apply(s, step);
      && Shape(t) && RingOk(t, Wrap(q.startIblock + q.allocBlocks, s.geo), last, q.id + 1)
      && TailOnly(s, t) && t.dm == s.dm + 1 && t.disk == s.disk && t.d == s.d
      && t.mustSync == (s.mustSync || step == AdvanceTail) && QueueEnd(t) == QueueEnd(s)
  {
    hide Pos, SlotAt;
    ShapeKeeps(s, step);
    NextStart(s, q.allocBlocks);
  }

  lemma EntrySame(s: State, t: State, i: nat, q: CpTrans, loose: set<nat>, owed: int)
    requires Shape(s) && Shape(t) && EntryOk(s, i, q, loose, owed)
    requires s.geo == t.geo && s.firstId == t.firstId && s.imgs == t.imgs && s.pending == t.pending
      && s.trans == t.trans
    ensures EntryOk(t, i, q, loose, owed)
  {
  }

  lemma NoneLeft(bufs: seq<Buf>, pending: set<nat>)
    requires |bufs| == 0 && forall lba :: lba in pending ==> Has(bufs, lba)
    ensures pending == {}
  {
    assert forall lba :: !Has(bufs, lba);
  }

  lemma NextStart(s: State, n: nat)
    requires Shape(s) && s.dm < |s.imgs| && n == |s.imgs[s.dm]| <= s.geo.Slots()
    ensures Wrap(SlotAt(s.geo, Pos(s.imgs, s.dm)) + n, s.geo) == SlotAt(s.geo, Pos(s.imgs, s.dm + 1))
    ensures Pos(s.imgs, s.dm + 1) == Pos(s.imgs, s.dm) + n
  {
    AdvWithinLap(SlotAt(s.geo, Pos(s.imgs, s.dm)), n, s.geo);
    AdvAdd(s.geo.first, Pos(s.imgs, s.dm), n, s.geo);
  }

  lemma CopiesSame(s: State, t: State, i: nat, q: CpTrans)
    requires Shape(s) && Shape(t) && EntryCopies(s, i, q)
    requires s.geo == t.geo && s.disk.log == t.disk.log && s.imgs == t.imgs && s.trans == t.trans
    ensures EntryCopies(t, i, q)
  {
  }

  lemma SyncLink(s: State, queue: seq<CpTrans>, start: nat, last: nat, transId: nat, loose: set<nat>, owed: int)
    requires Linked(s, queue, start, last, transId, loose, owed)
    ensures var t := Apply(s, SyncTail);
      && Linked(t, queue, start, last, transId, loose, owed) && TailOnly(s, t) && t.dm == s.dm == t.d && !t.mustSync
      && t.disk == s.disk.(start := start, sequence := transId)
  {
    hide EntryCopies, EntryOk, Pos, SlotAt;
    var t := Apply(s, SyncTail);
    ShapeKeeps(s, SyncTail);
    EntriesSame(s, t, queue, loose, owed);
  }

  lemma EntriesSame(s: State, t: State, queue: seq<CpTrans>, loose: set<nat>, owed: int)
    requires Shape(s) && Shape(t) && QueueOk(s, queue, loose, owed) && CopiesOk(s, queue)
    requires s.geo == t.geo && s.firstId == t.firstId && s.imgs == t.imgs && s.pending == t.pending
      && s.trans == t.trans
    requires s.disk.log == t.disk.log && s.dm == t.dm && QueueEnd(s) == QueueEnd(t)
    ensures QueueOk(t, queue, loose, owed) && CopiesOk(t, queue)
  {
    hide EntryCopies, EntryOk, Shape;
    forall k | 0 <= k < |queue|
      ensures EntryOk(t, t.dm + k, queue[k], loose, owed) && EntryCopies(t, t.dm + k, queue[k])
    {
      EntrySame(s, t, s.dm + k, queue[k], loose, owed);
      CopiesSame(s, t, s.dm + k, queue[k]);
    }
  }

  // ---------------------------------------------------------- ended writes

  /** The same transaction without a write that has ended, counted or still to be counted. */
  ghost predicate Lighter(q: CpTrans, r: CpTrans, lba: nat, counted: bool) {
    Has(q.bufs, lba) && r == if counted then Ended(q, lba) else Begun(q, lba)
  }

  lemma LighterOk(s: State, i: nat, q: CpTrans, r: CpTrans, lba: nat, loose: set<nat>, owed: int, owed': int)
    requires Shape(s) && EntryOk(s, i, q, loose, owed) && EntryCopies(s, i, q)
    requires Lighter(q, r, lba, owed' != q.id) && q.id != owed && lba !in s.pending[i]
    ensures EntryOk(s, i, r, loose, owed') && EntryCopies(s, i, r)
  {
    hide CopyOk, Shape, Drop;
  }

  /** One write of the queue has ended and is counted. */
  lemma EndLink(s: State, queue: seq<CpTrans>, start: nat, last: nat, transId: nat, loose: set<nat>, owed: int,
                p: nat, lba: nat)
    requires Linked(s, queue, start, last, transId, loose, owed)
    requires p < |queue| && Has(queue[p].bufs, lba) && queue[p].id != owed
    requires s.dm + p < |s.pending| && lba !in s.pending[s.dm + p]
    ensures Linked(s, queue[p := Ended(queue[p], lba)], start, last, transId, loose, owed)
  {
    hide EntryOk, EntryCopies, Shape, RingOk;
    LighterOk(s, s.dm + p, queue[p], Ended(queue[p], lba), lba, loose, owed, owed);
  }

  lemma Ids(s: State, queue: seq<CpTrans>, loose: set<nat>, owed: int)
    requires Shape(s) && QueueOk(s, queue, loose, owed)
    ensures forall k :: 0 <= k < |queue| ==> queue[k].id == s.firstId + s.dm + k
    ensures s.dm + |queue| <= |s.trans| == |s.pending|
  {
    hide Pos, SlotAt;
    forall k | 0 <= k < |queue|
      ensures queue[k].id == s.firstId + s.dm + k
    {
      assert EntryOk(s, s.dm + k, queue[k], loose, owed);
    }
  }

  lemma OweSame(s: State, i: nat, q: CpTrans, loose: set<nat>, owed: int, owed': int)
    requires Shape(s) && EntryOk(s, i, q, loose, owed) && q.id != owed && q.id != owed'
    ensures EntryOk(s, i, q, loose, owed')
  {
  }

  /** The write of the newest transaction has ended but is not counted yet. */
  lemma OweLink(s: State, queue: seq<CpTrans>, start: nat, last: nat, transId: nat, loose: set<nat>, k: nat, lba: nat,
                r: CpTrans)
    requires Linked(s, queue, start, last, transId, loose, -1)
    requires k < |queue| && Lighter(queue[k], r, lba, false)
    requires s.dm + k < |s.pending| && lba !in s.pending[s.dm + k]
    ensures Linked(s, queue[k := r], start, last, transId, loose, r.id)
  {
    hide EntryOk, EntryCopies, Shape, RingOk;
    Ids(s, queue, loose, -1);
    LighterOk(s, s.dm + k, queue[k], r, lba, loose, -1, r.id);
    var w := queue[k := r];
    forall j | 0 <= j < |w|
      ensures EntryOk(s, s.dm + j, w[j], loose, r.id) && EntryCopies(s, s.dm + j, w[j])
    {
      if j != k { OweSame(s, s.dm + j, queue[j], loose, -1, r.id); }
    }
  }

  lemma PayOk(s: State, i: nat, q: CpTrans, loose: set<nat>)
    requires Shape(s) && EntryOk(s, i, q, loose, q.id) && EntryCopies(s, i, q)
    ensures EntryOk(s, i, q.(writtenCnt := q.writtenCnt + 1), loose, -1)
    ensures EntryCopies(s, i, q.(writtenCnt := q.writtenCnt + 1))
  {
    hide CopyOk, Shape;
  }

  /** Now it is counted. */
  lemma PayLink(s: State, queue: seq<CpTrans>, start: nat, last: nat, transId: nat, loose: set<nat>, k: nat)
    requires k < |queue| && Linked(s, queue, start, last, transId, loose, queue[k].id)
    ensures Linked(s, queue[k := queue[k].(writtenCnt := queue[k].writtenCnt + 1)], start, last, transId, loose, -1)
  {
    hide EntryOk, EntryCopies, Shape, RingOk;
    Ids(s, queue, loose, queue[k].id);
    var r := queue[k].(writtenCnt := queue[k].writtenCnt + 1);
    var w := queue[k := r];
    PayOk(s, s.dm + k, queue[k], loose);
    forall j | 0 <= j < |w|
      ensures EntryOk(s, s.dm + j, w[j], loose, -1) && EntryCopies(s, s.dm + j, w[j])
    {
      if j != k { OweSame(s, s.dm + j, queue[j], loose, queue[k].id, -1); }
    }
  }

  lemma TightOk(s: State, i: nat, q: CpTrans, lba: nat, loose: set<nat>, owed: int)
    requires Shape(s) && EntryOk(s, i, q, loose, owed) && (Has(q.bufs, lba) ==> lba in s.pending[i])
    ensures EntryOk(s, i, q, loose - {lba}, owed)
  {
    hide Shape;
  }

  lemma Bounded(s: State, i: nat, q: CpTrans, loose: set<nat>, owed: int)
    requires Shape(s) && EntryOk(s, i, q, loose, owed)
    ensures i < |s.pending|
  {
  }

  /** No transaction has a loose write of the block any more. */
  lemma TightLink(s: State, queue: seq<CpTrans>, start: nat, last: nat, transId: nat, lba: nat, loose: set<nat>,
                  owed: int)
    requires Linked(s, queue, start, last, transId, loose, owed)
    requires forall k :: 0 <= k < |queue| && s.dm + k < |s.pending| && Has(queue[k].bufs, lba) ==>
      lba in s.pending[s.dm + k]
    ensures Linked(s, queue, start, last, transId, loose - {lba}, owed)
  {
    hide EntryOk, EntryCopies, Shape, RingOk;
    forall k | 0 <= k < |queue|
      ensures EntryOk(s, s.dm + k, queue[k], loose - {lba}, owed)
    {
      Bounded(s, s.dm + k, queue[k], loose, owed);
      TightOk(s, s.dm + k, queue[k], lba, loose, owed);
    }
  }

  /** The home block is written, from the cache for all transactions at once, or from the log for the
      oldest one. */
  lemma FlushLink(s: State, queue: seq<CpTrans>, start: nat, last: nat, transId: nat, lba: nat, step: Step)
    requires Linked(s, queue, start, last, transId, {}, -1)
    requires step == FlushCached(lba) || step == FlushLogCopy(lba)
    requires Enabled(s, step)
    ensures Linked(Apply(s, step), queue, start, last, transId, {lba}, -1)
    ensures var t := Apply(s, step);
      t.dm == s.dm && t.d == s.d && t.mustSync == s.mustSync && t.phase == s.phase && t.trans == s.trans
      && |t.pending| == |s.pending|
    ensures step == FlushCached(lba) ==> forall i :: 0 <= i < |s.pending| ==> lba !in Apply(s, step).pending[i]
    ensures step == FlushLogCopy(lba) ==> s.dm < |s.pending| && lba !in Apply(s, step).pending[s.dm]
  {
    hide EntryCopies, EntryOk, Pos, SlotAt, Shape, LogCopy, Apply, Enabled;
    FlushRing(s, start, last, transId, lba, step);
    FlushFields(s, lba, step);
    var t := Apply(s, step);
    Ids(s, queue, {}, -1);
    assert forall i :: 0 <= i < s.dm ==> t.pending[i] == {};
    forall k | 0 <= k < |queue|
      ensures EntryOk(t, t.dm + k, queue[k], {lba}, -1) && EntryCopies(t, t.dm + k, queue[k])
    {
      Bounded(s, s.dm + k, queue[k], {}, -1);
      FlushEntry(s, t, s.dm + k, queue[k], lba);
      CopiesSame(s, t, s.dm + k, queue[k]);
    }
  }

  lemma FlushFields(s: State, lba: nat, step: Step)
    requires Shape(s) && (step == FlushCached(lba) || step == FlushLogCopy(lba)) && Enabled(s, step)
    ensures var t := Apply(s, step);
      && t.geo == s.geo && t.firstId == s.firstId && t.imgs == s.imgs && t.trans == s.trans && t.disk.log == s.disk.log
      && t.dm == s.dm && t.d == s.d && t.mustSync == s.mustSync && t.phase == s.phase && |t.pending| == |s.pending|
      && (forall i :: 0 <= i < |s.pending| ==> t.pending[i] == s.pending[i] || t.pending[i] == s.pending[i] - {lba})
      && (step == FlushCached(lba) ==> forall i :: 0 <= i < |s.pending| ==> lba !in t.pending[i])
      && (step == FlushLogCopy(lba) ==> s.dm < |s.pending| && lba !in t.pending[s.dm])
  {
    hide LogCopy, Pos, SlotAt;
  }

  lemma FlushRing(s: State, start: nat, last: nat, transId: nat, lba: nat, step: Step)
    requires Shape(s) && RingOk(s, start, last, transId)
    requires step == FlushCached(lba) || step == FlushLogCopy(lba)
    requires Enabled(s, step)
    ensures var t := Apply(s, step); Shape(t) && RingOk(t, start, last, transId) && QueueEnd(t) == QueueEnd(s)
  {
    hide Pos, SlotAt, LogCopy;
    ShapeKeeps(s, step);
  }

  lemma FlushEntry(s: State, t: State, i: nat, q: CpTrans, lba: nat)
    requires Shape(s) && Shape(t) && EntryOk(s, i, q, {}, -1)
    requires s.geo == t.geo && s.firstId == t.firstId && s.imgs == t.imgs && s.trans == t.trans
    requires |s.pending| == |t.pending| && i < |s.pending|
    requires t.pending[i] == s.pending[i] || t.pending[i] == s.pending[i] - {lba}
    ensures EntryOk(t, i, q, {lba}, -1)
  {
    hide Shape;
  }

  lemma CountedIs(s: State, queue: seq<CpTrans>, loose: set<nat>)
    requires Shape(s) && QueueOk(s, queue, loose, -1)
    ensures Counted(queue)
  {
    hide Pos, SlotAt;
    forall k | 0 <= k < |queue|
      ensures queue[k].dataCnt == queue[k].writtenCnt + |queue[k].bufs|
    {
      assert EntryOk(s, s.dm + k, queue[k], loose, -1);
    }
  }

  /** Committed blocks whose content does not begin with the magic: their log copies are verbatim. */
  predicate Plain(txs: seq<Trans>) {
    forall i :: 0 <= i < |txs| ==> forall w :: w in txs[i].writes ==> !IsMagic(w.data)
  }

  lemma {:induction false} LastIn(ws: seq<Write>, lba: nat)
    ensures LastWrite(ws, lba).Wrote? ==> Write(lba, LastWrite(ws, lba).data) in ws
    decreases |ws|
  {
    if ws != [] {
      LastIn(ws[..|ws| - 1], lba);
      assert ws[|ws| - 1] in ws;
    }
  }

  /** What the log holds for a block of the head transaction. */
  lemma HeadCopy(s: State, queue: seq<CpTrans>, start: nat, last: nat, transId: nat, lba: nat)
    requires Linked(s, queue, start, last, transId, {}, -1) && queue != [] && Has(queue[0].bufs, lba) && Plain(s.trans)
    ensures Enabled(s, FlushLogCopy(lba)) && Orderly(s, FlushLogCopy(lba))
    ensures forall b :: b in queue[0].bufs && b.lba == lba ==>
      b.slot < |s.disk.log| && s.disk.log[b.slot] == LogCopy(s.trans[s.dm], lba)
  {
    hide Pos, SlotAt;
    assert EntryOk(s, s.dm + 0, queue[0], {}, -1) && EntryCopies(s, s.dm + 0, queue[0]);
    LastIn(s.trans[s.dm].writes, lba);
  }

  /** Only the head has lost its write of the block. */
  lemma OthersTight(s: State, queue: seq<CpTrans>, start: nat, last: nat, transId: nat, lba: nat, step: Step)
    requires Linked(s, queue, start, last, transId, {}, -1) && queue != [] && Enabled(s, step)
    requires step == FlushLogCopy(lba) || (step == FlushCached(lba) && IsNewest(queue, lba, 0))
    ensures |Apply(s, step).pending| == |s.pending|
    ensures forall k :: 0 < k < |queue| && s.dm + k < |s.pending| && Has(queue[k].bufs, lba) ==>
      lba in Apply(s, step).pending[s.dm + k]
  {
    hide Pos, SlotAt, LogCopy;
    forall k | 0 < k < |queue| && s.dm + k < |s.pending| && Has(queue[k].bufs, lba)
      ensures lba in Apply(s, step).pending[s.dm + k]
    {
      assert EntryOk(s, s.dm + k, queue[k], {}, -1);
    }
  }

  /** The head of the log has caught up with its tail exactly when all slots are taken. */
  lemma RingFull(s: State, start: nat, last: nat, transId: nat)
    requires Shape(s) && RingOk(s, start, last, transId) && Head(s) + Allocated(s) > Pos(s.imgs, s.dm)
    ensures last == start <==> Head(s) + Allocated(s) == Pos(s.imgs, s.dm) + s.geo.Slots()
  {
    hide Pos;
    var p, q := Pos(s.imgs, s.dm), Head(s) + Allocated(s);
    SlotLap(s.geo, p);
    if q < p + s.geo.Slots() { SlotsDiffer(s.geo, p, q); }
  }

  lemma AllocLink(s: State, queue: seq<CpTrans>, start: nat, last: nat, transId: nat)
    requires Linked(s, queue, start, last, transId, {}, -1)
    requires s.phase.Logging? && s.phase.alloc < |s.phase.img| && HasRoom(s)
    ensures Enabled(s, Alloc) && last < s.geo.maxlen && s.geo.first <= last
      && last == SlotAt(s.geo, Head(s) + Allocated(s))
    ensures var t := Apply(s, Alloc);
      && Linked(t, queue, start, Next(last, s.geo), transId, {}, -1)
      && t == s.(phase := s.phase.(alloc := s.phase.alloc + 1)) && SameRunning(s, t)
      && (Next(last, s.geo) == start <==> !HasRoom(t))
  {
    hide EntryCopies, EntryOk, Pos;
    var t := Apply(s, Alloc);
    ShapeKeeps(s, Alloc);
    EntriesSame(s, t, queue, {}, -1);
    HeadAfter(s);
    RingFull(t, start, Next(last, s.geo), transId);
  }

  lemma HeadAfter(s: State)
    requires Shape(s)
    ensures Pos(s.imgs, s.dm) <= Head(s)
  {
    PosMonotone(s.imgs, s.dm, |s.imgs|);
  }

  /** When a transaction has left the queue, or the whole queue is empty, the log has room for a
      transaction that is shorter than the log. */
  lemma RoomAgain(s: State, t: State)
    requires Shape(s) && Shape(t) && t.geo == s.geo && t.imgs == s.imgs && t.phase == s.phase && s.phase.Logging?
    requires Head(s) + Allocated(s) <= Pos(s.imgs, s.dm) + s.geo.Slots()
    requires t.dm > s.dm && |s.imgs[s.dm]| > 0
    ensures HasRoom(t)
  {
    PosMonotone(s.imgs, s.dm, t.dm);
  }
}
