/** A run of the journal that loses a committed transaction: a transaction that was completed by a
    later one's checkpoint stays at the head of the queue, is purged for space without a superblock
    write, and its log slots are reused while the disk still names them as the tail. */
module JournalLoss {
  import opened JournalFormat
  import opened JournalRecovery
  import opened JournalProtocol
  import opened JournalInvariant
  import opened JournalCrash
  import opened JournalTheorems

  const TINY := Geometry(10, false, 1, 8)

  /** One tag fits into a descriptor. */
  predicate Tiny(geo: Geometry) { geo.words == 10 && !geo.wide && geo.first == 1 && geo.maxlen >= 8 }

  function Fill(w: nat): (b: Block)
    ensures |b| == 10 && b[0] == w
  {
    [w, w, w, w, w, w, w, w, w, w]
  }

  function TinyDescriptor(id: nat, lba: nat): Block {
    [MAGIC, DESCRIPTOR_BLOCK, id, lba % WORD, FLAG_LAST_TAG, 0, 0, 0, 0, 0]
  }

  function TinyImage(id: nat, lba: nat, w: nat): seq<Block> {
    [TinyDescriptor(id, lba), Fill(w), [MAGIC, COMMIT_BLOCK, id, 0, 0, 0, 0, 0, 0, 0]]
  }

  function TinyTrans(lba: nat, w: nat): Trans { Trans([Write(lba, Fill(w))], []) }

  lemma TinyTags(id: nat, lba: nat, geo: Geometry)
    requires lba < WORD && Tiny(geo)
    ensures Tags(TinyDescriptor(id, lba), HEADER_WORDS, geo) == [Tag(lba, false, false, true)]
  {
    var b := TinyDescriptor(id, lba);
    assert TagAt(b, HEADER_WORDS, geo) == Tag(lba, false, false, true);
  }

  lemma TinyImageOk(id: nat, lba: nat, w: nat, geo: Geometry)
    requires lba < WORD && w != MAGIC && Tiny(geo)
    ensures ImageOf(TinyImage(id, lba, w), id, TinyTrans(lba, w), geo)
  {
    TinyTags(id, lba, geo);
    var img := TinyImage(id, lba, w);
    var body := img[..2];
    var ws := TinyTrans(lba, w).writes;
    assert body[2..] == [] && ws[1..] == [];
    assert Body([], id, [], [], geo);
    BodyDescriptor(body, body[2..], id, ws, ws[1..], [], geo);
    assert img[..|img| - 1] == body;
  }

  /** Taking one more step of a run. */
  lemma Then(s: State, steps: seq<Step>, step: Step) returns (steps': seq<Step>, t: State)
    requires Path(s, steps) && Shape(End(s, steps)) && Enabled(End(s, steps), step)
    ensures steps' == steps + [step]
    ensures Path(s, steps') && t == End(s, steps') == Apply(End(s, steps), step)
  {
    hide Shape, Enabled, Apply;
    var e := End(s, steps);
    t := Apply(e, step);
    assert Path(t, []);
    assert Path(e, [step]) && End(e, [step]) == End(t, []) == t;
    PathAppend(s, steps, [step]);
    steps' := steps + [step];
  }

  /** One orderly step, with the invariant carried along. */
  lemma ThenKeeps(s: State, steps: seq<Step>, step: Step) returns (steps': seq<Step>, t: State)
    requires Path(s, steps) && Inv(End(s, steps)) && Enabled(End(s, steps), step) && Orderly(End(s, steps), step)
    ensures steps' == steps + [step]
    ensures Path(s, steps') && t == End(s, steps') == Apply(End(s, steps), step) && Inv(t)
  {
    hide Enabled, Apply, Orderly, LogOk, DataOk, TailOk, RoomOk, FinishingOk;
    steps', t := Then(s, steps, step);
    StepKeeps(End(s, steps), step);
  }

  /** Between two transactions, with both tails equal. */
  ghost predicate Quiet(s: State) {
    && Inv(s) && Tiny(s.geo) && s.phase.Idle? && s.open == map[] && s.touched == {} && s.revokes == {}
    && !s.mustSync && s.d == s.dm
  }

  lemma TinyDescribes(lba: nat, w: nat)
    ensures Describes(TinyTrans(lba, w), map[lba := Fill(w)], {})
  {
    var ws := TinyTrans(lba, w).writes;
    forall x
      ensures LastWrite(ws, x) == if x == lba then Wrote(Fill(w)) else Nothing
    {
      assert LastWrite(ws[..0], x) == Nothing;
    }
  }

  /** The running transaction {lba := w} has entered its commit. */
  ghost predicate Begun(s: State, t: State, lba: nat, w: nat, alloc: nat, written: set<nat>) {
    && Inv(t) && t.phase == Logging(TinyTrans(lba, w), TinyImage(NextId(s), lba, w), alloc, written)
    && t == s.(phase := t.phase, open := map[lba := Fill(w)], touched := {lba}, cache := s.cache - {lba},
      disk := t.disk)
    && t.disk == s.disk.(log := t.disk.log)
  }

  lemma TinyBegin(s: State, lba: nat, w: nat) returns (steps: seq<Step>, t: State)
    requires Quiet(s) && lba in s.base && lba < WORD && w != MAGIC
    ensures Path(s, steps) && t == End(s, steps) && Begun(s, t, lba, w, 0, {}) && t.disk == s.disk
  {
    hide LogOk, DataOk, TailOk, RoomOk, FinishingOk, ImageOf, Describes, TinyImage, TinyTrans, Fill;
    TinyImageOk(NextId(s), lba, w, s.geo);
    TinyDescribes(lba, w);
    assert Path(s, []) && End(s, []) == s;
    steps, t := ThenKeeps(s, [], Dirty(lba, Fill(w)));
    assert t.open == map[lba := Fill(w)] && t.revokes == {} && lba in t.open;
    steps, t := ThenKeeps(s, steps, BeginCommit(TinyTrans(lba, w), TinyImage(NextId(s), lba, w)));
  }

  lemma TinyAlloc(s: State, steps: seq<Step>, t: State, s0: State, lba: nat, w: nat, n: nat, written: set<nat>)
    returns (steps': seq<Step>, t': State)
    requires Path(s, steps) && t == End(s, steps) && Begun(s0, t, lba, w, n, written)
    requires n < 3 && s0.geo.Valid() && Head(t) + n + 1 <= Pos(t.imgs, t.dm) + t.geo.Slots()
    ensures Path(s, steps') && t' == End(s, steps') && Begun(s0, t', lba, w, n + 1, written)
    ensures t'.disk == t.disk
  {
    hide LogOk, DataOk, TailOk, RoomOk, FinishingOk, TinyTrans, Fill, Pos;
    steps', t' := ThenKeeps(s, steps, Alloc);
  }

  lemma TinyGroup(id: nat, lba: nat, w: nat, j: nat, written: set<nat>, geo: Geometry)
    requires lba < WORD && w != MAGIC && j < 2 && (j == 0 ==> 1 in written) && Tiny(geo)
    ensures GroupWritten(TinyImage(id, lba, w), j, written, geo)
  {
    hide Tags;
    TinyTags(id, lba, geo);
  }

  lemma TinyWrite(s: State, steps: seq<Step>, t: State, s0: State, lba: nat, w: nat, n: nat, written: set<nat>, j: nat)
    returns (steps': seq<Step>, t': State)
    requires Path(s, steps) && t == End(s, steps) && Begun(s0, t, lba, w, n, written)
    requires Tiny(s0.geo) && HasRoom(t) && !s0.mustSync && lba < WORD && w != MAGIC
    requires j < n && j < 2 && (j == 0 ==> 1 in written)
    ensures Path(s, steps') && t' == End(s, steps') && Begun(s0, t', lba, w, n, written + {j})
    ensures t'.disk.log == t.disk.log[SlotAt(t.geo, Head(t) + j) := TinyImage(NextId(s0), lba, w)[j]]
  {
    hide LogOk, DataOk, TailOk, RoomOk, FinishingOk, TinyTrans, Pos, SlotAt, GroupWritten, TinyDescriptor, Fill;
    TinyGroup(NextId(s0), lba, w, j, written, s0.geo);
    steps', t' := ThenKeeps(s, steps, WriteLog(j));
  }

  /** What a whole small commit leaves. */
  ghost predicate CommittedTiny(s: State, t: State, lba: nat, w: nat) {
    && Quiet(t)
    && t.trans == s.trans + [TinyTrans(lba, w)] && t.imgs == s.imgs + [TinyImage(NextId(s), lba, w)]
    && t.pending == s.pending + [{lba}] && t.cache == s.cache[lba := Fill(w)]
    && t.disk.home == s.disk.home && t.base == s.base && t.firstId == s.firstId && t.d == s.d && t.geo == s.geo
  }

  lemma TinyCommit(s: State, lba: nat, w: nat) returns (steps: seq<Step>, t: State)
    requires Quiet(s) && lba in s.base && lba < WORD && w != MAGIC
    requires Head(s) + 3 < Pos(s.imgs, s.dm) + s.geo.Slots()
    ensures Path(s, steps) && t == End(s, steps) && CommittedTiny(s, t, lba, w)
  {
    hide LogOk, DataOk, TailOk, RoomOk, FinishingOk, TinyTrans, TinyImage, Fill, Pos, SlotAt, GroupWritten,
         OrderlyPath;
    steps, t := TinyBegin(s, lba, w);
    steps, t := TinyAlloc(s, steps, t, s, lba, w, 0, {});
    steps, t := TinyAlloc(s, steps, t, s, lba, w, 1, {});
    steps, t := TinyAlloc(s, steps, t, s, lba, w, 2, {});
    steps, t := TinyWrite(s, steps, t, s, lba, w, 3, {}, 1);
    steps, t := TinyWrite(s, steps, t, s, lba, w, 3, {} + {1}, 0);
    steps, t := TinyFinish(s, steps, t, lba, w);
  }

  lemma TinyFinish(s: State, steps: seq<Step>, t: State, lba: nat, w: nat) returns (steps': seq<Step>, t': State)
    requires Quiet(s) && Path(s, steps) && t == End(s, steps) && Begun(s, t, lba, w, 3, {} + {1} + {0})
    requires Head(s) + 3 < Pos(s.imgs, s.dm) + s.geo.Slots()
    ensures Path(s, steps') && t' == End(s, steps') && CommittedTiny(s, t', lba, w)
  {
    hide LogOk, DataOk, TailOk, RoomOk, FinishingOk, Pos, SlotAt, OrderlyPath, Fill;
    steps', t' := ThenKeeps(s, steps, WriteCommit);
    WithoutNothing(s.pending);
    assert t.open.Keys == {lba};
    steps', t' := ThenKeeps(s, steps', FinishCommit);
    assert t'.cache == s.cache[lba := Fill(w)];
  }

  lemma {:induction false} PosTiny(imgs: seq<seq<Block>>, i: nat)
    requires i <= |imgs| && forall k :: 0 <= k < |imgs| ==> |imgs[k]| == 3
    ensures Pos(imgs, i) == 3 * i
  {
    if i > 0 { PosTiny(imgs, i - 1); }
  }

  const START: map<nat, Block> := map[7 := Fill(0), 8 := Fill(0), 9 := Fill(0)]

  /** Two transactions write block 7, the cache checkpoints it for both, and only the older one
      leaves the queue; then a third transaction commits block 8. */
  lemma ThreeCommits(geo: Geometry, log: seq<Block>) returns (s: State, steps: seq<Step>, t: State)
    requires Tiny(geo) && |log| == geo.maxlen && forall i :: 0 <= i < |log| ==> log[i] == Fill(0)
    ensures s == Start(geo, START, log, 0)
    ensures Inv(s) && Path(s, steps) && t == End(s, steps) && Quiet(t) && t.geo == geo && t.firstId == 1
    ensures t.trans == [TinyTrans(7, 1), TinyTrans(7, 2), TinyTrans(8, 3)]
    ensures t.d == 1 && t.pending[1] == {} && t.base == START
    ensures t.imgs == [TinyImage(1, 7, 1), TinyImage(2, 7, 2), TinyImage(3, 8, 3)]
    ensures forall k :: 0 <= k < |t.imgs| ==> |t.imgs[k]| == 3
    ensures 8 in t.base && 9 in t.base && 8 in t.disk.home && t.disk.home[8] == Fill(0)
  {
    hide LogOk, DataOk, TailOk, RoomOk, FinishingOk, Fill, SlotAt, Pos, OrderlyPath, TinyTrans, Enabled, Path, End;
    s := Start(geo, START, log, 0);
    FillPlain();
    StartOk(geo, START, s.disk.log, 0);
    PosTiny(s.imgs, 0);
    var more;
    steps, t := TinyCommit(s, 7, 1);
    PosTiny(t.imgs, 0); PosTiny(t.imgs, 1);
    var t2;
    more, t2 := TinyCommit(t, 7, 2);
    PathAppend(s, steps, more);
    steps, t := steps + more, t2;
    steps, t := CheckpointSeven(s, steps, t);
    PosTiny(t.imgs, 1); PosTiny(t.imgs, 2);
    more, t2 := TinyCommit(t, 8, 3);
    PathAppend(s, steps, more);
    steps, t := steps + more, t2;
  }

  lemma FillPlain()
    ensures !IsHeader(Fill(0))
  {
  }

  lemma CheckpointSeven(s: State, steps: seq<Step>, t: State) returns (steps': seq<Step>, t': State)
    requires Path(s, steps) && t == End(s, steps) && Quiet(t) && t.d == 0 && |t.trans| == 2
    requires t.pending == [{7}, {7}] && 7 in t.cache
    ensures Path(s, steps') && t' == End(s, steps') && Quiet(t') && t'.d == 1
    ensures t' == t.(pending := [{}, {}], cache := t.cache - {7}, d := 1, dm := 1, disk := t'.disk)
    ensures t'.disk.home == t.disk.home[7 := t.cache[7]]
  {
    hide LogOk, DataOk, TailOk, RoomOk, FinishingOk, SlotAt, Pos, OrderlyPath;
    steps', t' := ThenKeeps(s, steps, FlushCached(7));
    var none: set<nat> := {7} - {7};
    assert t'.pending[0] == none && t'.pending[1] == none;
    assert t'.pending == [none, none];
    steps', t' := ThenKeeps(s, steps', AdvanceTail);
    steps', t' := ThenKeeps(s, steps', SyncTail);
  }

  /** The fourth commit needs space: the finished head is purged in memory only and the next log
      block replaces the one the superblock points at. */
  lemma FourthCommit(s: State, steps: seq<Step>, t: State) returns (steps': seq<Step>, t': State)
    requires Path(s, steps) && t == End(s, steps) && Quiet(t) && t.geo == TINY
    requires t.d == 1 && |t.trans| == 3 && t.pending[1] == {} && 9 in t.base
    requires forall k :: 0 <= k < |t.imgs| ==> |t.imgs[k]| == 3
    ensures Path(s, steps') && t' == End(s, steps') && Shape(t')
    ensures t'.trans == t.trans && t'.base == t.base && t'.acked == 3 && t'.geo == TINY
    ensures t'.disk.home == t.disk.home && !IsHeader(t'.disk.log[t'.disk.start])
  {
    hide LogOk, DataOk, TailOk, RoomOk, FinishingOk, SlotAt, Pos, OrderlyPath, TinyTrans, Path, End, GroupWritten,
         TinyDescriptor;
    var id := NextId(t);
    PosTiny(t.imgs, 1); PosTiny(t.imgs, 2); PosTiny(t.imgs, 3);
    var more, u := TinyBegin(t, 9, 4);
    more, u := TinyAlloc(t, more, u, t, 9, 4, 0, {});
    more, u := Then(t, more, PurgeUnsynced);
    more, u := Then(t, more, Alloc);
    TinyGroup(id, 9, 4, 1, {}, TINY);
    more, u := Then(t, more, WriteLog(1));
    SlotLap(TINY, 3);
    PathAppend(s, steps, more);
    steps', t' := steps + more, u;
  }

  /** Three commits have returned, yet recovery after a crash here brings back none of the states
      that contain the third one. */
  lemma CommitLost() returns (s: State, steps: seq<Step>)
    ensures Inv(s) && Path(s, steps)
    ensures var t := End(s, steps);
      && Shape(t) && t.acked == 3
      && LogHolds(t.disk, [], [], [], t.geo)
      && forall a :: t.acked <= a <= |t.trans| ==> !Recovers(t, [], a)
  {
    hide LogOk, DataOk, TailOk, RoomOk, FinishingOk, SlotAt, Pos, OrderlyPath, Path, End, Fill, Inv;
    var t;
    var zero := Fill(0);
    s, steps, t := ThreeCommits(TINY, [zero, zero, zero, zero, zero, zero, zero, zero]);
    var eight := t.disk.home[8];
    steps, t := FourthCommit(s, steps, t);
    assert Adv(t.disk.start, 0, t.geo) == t.disk.start;
    NoEvents();
    FillsDiffer(0, 3);
    assert t.trans[..3] == t.trans;
    assert LastEvent(t.trans, 8) == Wrote(Fill(3)) by {
      assert LastWrite(TinyTrans(8, 3).writes, 8) == Wrote(Fill(3));
    }
    assert !AgreesAt(t.base, t.trans[..3], Overlay(t.disk.home, 8, LastEvent([], 8)), 8);
  }

  lemma FillsDiffer(v: nat, w: nat)
    requires v != w
    ensures Fill(v) != Fill(w)
  {
    assert Fill(v)[0] != Fill(w)[0];
  }

  /** A committed block is freed, and the transaction that frees it is aborted before the block was ever
      written home: the view is now that of the time before the commit. */
  lemma AbortForgets() returns (s: State, steps: seq<Step>)
    ensures Inv(s) && Path(s, steps)
    ensures var t := End(s, steps);
      && Inv(t) && t.phase.Idle? && 7 in t.base && 7 in t.disk.home
      && t.acked == 1 && LastEvent(t.trans, 7) == Wrote(Fill(1)) && View(t, 7) == Fill(0) != Fill(1)
  {
    hide LogOk, DataOk, TailOk, RoomOk, FinishingOk, Fill, SlotAt, Pos, OrderlyPath, TinyTrans, Enabled, Path, End;
    var home := map[7 := Fill(0), 8 := Fill(0), 9 := Fill(0)];
    var zero := Fill(0);
    s := Start(TINY, home, [zero, zero, zero, zero, zero, zero, zero, zero], 0);
    FillPlain();
    StartOk(TINY, home, s.disk.log, 0);
    PosTiny(s.imgs, 0);
    var t;
    steps, t := TinyCommit(s, 7, 1);
    steps, t := FreeAndAbort(s, steps, t);
    FillsDiffer(0, 1);
  }

  lemma FreeAndAbort(s: State, steps: seq<Step>, t: State) returns (steps': seq<Step>, t': State)
    requires Path(s, steps) && t == End(s, steps) && Quiet(t) && t.pending == [{7}] && t.trans == [TinyTrans(7, 1)]
    requires 7 in t.base && 7 in t.disk.home && t.disk.home[7] == Fill(0)
    ensures Path(s, steps') && t' == End(s, steps') && Inv(t') && t'.phase.Idle? && t'.acked == t.acked
    ensures t'.base == t.base && t'.trans == t.trans && 7 in t'.disk.home && View(t', 7) == Fill(0)
    ensures LastEvent(t'.trans, 7) == Wrote(Fill(1))
  {
    hide LogOk, DataOk, TailOk, RoomOk, FinishingOk, SlotAt, Pos, OrderlyPath, Fill, Path, End, NewestCopy, Shape;
    steps', t' := ThenKeeps(s, steps, Free(7, true));
    var none := map lba | lba in t'.touched && Pending(t'.pending, lba) :: NewestCopy(t', lba);
    assert none == map[];
    steps', t' := ThenKeeps(s, steps', Abort);
    assert LastWrite(TinyTrans(7, 1).writes, 7) == Wrote(Fill(1));
  }
}
