/** A run of the journal after an unsynced purge, in which the next commit has written over the data block of the
    transaction that the superblock on disk still names, and not yet over its descriptor. */
module JournalMix {
  import opened JournalFormat
  import opened JournalRecovery
  import opened JournalProtocol
  import opened JournalInvariant
  import opened JournalCrash
  import opened JournalTheorems
  import opened JournalLoss

  const NINE := Geometry(10, false, 1, 10)

  lemma NineSlots()
    ensures SlotAt(NINE, 3) == 4 && SlotAt(NINE, 4) == 5 && SlotAt(NINE, 5) == 6 && SlotAt(NINE, 6) == 7
    ensures SlotAt(NINE, 7) == 8 && SlotAt(NINE, 8) == 9
    ensures SlotAt(NINE, 9) == 1 && SlotAt(NINE, 10) == 2 && SlotAt(NINE, 11) == 3 && SlotAt(NINE, 13) == 5
  {
    forall p: nat | p <= 9
      ensures SlotAt(NINE, p) == if p == 9 then 1 else 1 + p
    {
      AdvWithinLap(1, p, NINE);
    }
    SlotLap(NINE, 1);
    SlotLap(NINE, 2);
    SlotLap(NINE, 4);
  }

  /** The transactions that follow the first one on disk. */
  ghost predicate InLog(log: seq<Block>, slot: nat, img: seq<Block>) {
    slot + 3 <= |log| && |img| == 3 && log[slot] == img[0] && log[slot + 1] == img[1] && log[slot + 2] == img[2]
  }

  /** The fourth commit fills the log and purges the finished head, and returns. */
  lemma FillsUp(s: State, steps: seq<Step>, t: State) returns (steps': seq<Step>, t': State)
    requires Path(s, steps) && t == End(s, steps) && Quiet(t) && t.geo == NINE && t.firstId == 1
    requires |t.trans| == 3 && t.d == 1 && t.pending[1] == {} && t.base == START
    requires forall k :: 0 <= k < |t.imgs| ==> |t.imgs[k]| == 3
    ensures Path(s, steps') && t' == End(s, steps') && Shape(t') && t'.phase.Idle? && !t'.mustSync
    ensures t'.trans == t.trans + [TinyTrans(8, 5)] && t'.imgs == t.imgs + [TinyImage(4, 8, 5)]
    ensures t'.d == 1 && t'.dm == 2 && t'.geo == NINE && t'.firstId == 1 && t'.base == START && t'.acked == 4
    ensures t'.open == map[] && t'.touched == {} && t'.revokes == {} && t'.disk.start == 4 && t'.disk.sequence == 2
    ensures var img := TinyImage(4, 8, 5); t'.disk.log == t.disk.log[2 := img[1]][1 := img[0]][3 := img[2]]
  {
    hide LogOk, DataOk, TailOk, RoomOk, FinishingOk, SlotAt, Pos, OrderlyPath, TinyTrans, Path, End, GroupWritten,
         TinyDescriptor, Fill;
    NineSlots();
    PosTiny(t.imgs, 1);
    PosTiny(t.imgs, 2);
    PosTiny(t.imgs, 3);
    var more, u := TinyBegin(t, 8, 5);
    more, u := TinyAlloc(t, more, u, t, 8, 5, 0, {});
    more, u := TinyAlloc(t, more, u, t, 8, 5, 1, {});
    more, u := TinyWrite(t, more, u, t, 8, 5, 2, {}, 1);
    more, u := TinyWrite(t, more, u, t, 8, 5, 2, {} + {1}, 0);
    more, u := TinyAlloc(t, more, u, t, 8, 5, 2, {} + {1} + {0});
    steps', t' := Ends(s, steps, t, more, u);
  }

  lemma Ends(s: State, steps: seq<Step>, t: State, more: seq<Step>, u: State) returns (steps': seq<Step>, t': State)
    requires Path(s, steps) && t == End(s, steps) && Path(t, more) && u == End(t, more)
    requires Begun(t, u, 8, 5, 3, {} + {1} + {0}) && Quiet(t) && t.geo == NINE && t.firstId == 1 && |t.trans| == 3
    requires t.d == 1 && t.pending[1] == {} && |t.imgs| == 3
    requires Pos(t.imgs, 1) == 3 && Pos(t.imgs, 2) == 6 && Pos(t.imgs, 3) == 9
    ensures Path(s, steps') && t' == End(s, steps') && Shape(t') && t'.phase.Idle? && !t'.mustSync
    ensures t'.trans == t.trans + [TinyTrans(8, 5)] && t'.imgs == t.imgs + [TinyImage(4, 8, 5)]
    ensures t'.d == 1 && t'.dm == 2 && t'.geo == NINE && t'.firstId == 1 && t'.base == t.base && t'.acked == 4
    ensures t'.open == map[] && t'.touched == {} && t'.revokes == {} && t'.disk.start == 4 && t'.disk.sequence == 2
    ensures t'.disk.log == u.disk.log[3 := TinyImage(4, 8, 5)[2]]
  {
    hide LogOk, DataOk, TailOk, RoomOk, FinishingOk, SlotAt, OrderlyPath, TinyTrans, Path, End, GroupWritten,
         TinyDescriptor, TinyImage, Fill, Describes;
    var steps1, v := Then(t, more, PurgeUnsynced);
    CommitBlockIs(v);
    steps1, v := Then(t, steps1, WriteCommit);
    FinishIs(v);
    steps1, v := Then(t, steps1, FinishCommit);
    NineSlots();
    PathAppend(s, steps, steps1);
    steps', t' := steps + steps1, v;
  }

  lemma CommitBlockIs(v: State)
    requires Shape(v) && v.phase == Logging(TinyTrans(8, 5), TinyImage(4, 8, 5), 3, {} + {1} + {0}) && v.geo == NINE
    requires v.dm == 2 && v.d == 1 && |v.imgs| == 3 && Pos(v.imgs, 2) == 6 && Pos(v.imgs, 3) == 9 && !v.mustSync
    ensures Enabled(v, WriteCommit)
    ensures var t := Apply(v, WriteCommit);
      && Shape(t) && t == v.(disk := t.disk, trans := v.trans + [TinyTrans(8, 5)],
           imgs := v.imgs + [TinyImage(4, 8, 5)], pending := t.pending, phase := Finishing)
      && t.disk == v.disk.(log := v.disk.log[3 := TinyImage(4, 8, 5)[2]])
  {
    hide Pos, SlotAt, TinyDescriptor, Fill;
    NineSlots();
    var t := Apply(v, WriteCommit);
    PosPrefix(v.imgs, t.imgs, 1);
  }

  lemma FinishIs(v: State)
    requires Shape(v) && v.phase == Finishing && |v.trans| == 4 && v.dm == 2 && v.d == 1 && !v.mustSync
    ensures Enabled(v, FinishCommit)
    ensures var t := Apply(v, FinishCommit);
      Shape(t) && t == v.(cache := t.cache, open := map[], touched := {}, revokes := {}, phase := Idle, acked := 4)
  {
    hide Pos, SlotAt;
  }

  /** The next commit has written its data block, in the slot of that of transaction 2. */
  lemma FifthCommit(s: State, steps: seq<Step>, t: State) returns (steps': seq<Step>, t': State)
    requires Path(s, steps) && t == End(s, steps) && Shape(t) && t.phase.Idle? && !t.mustSync && t.geo == NINE
    requires t.open == map[] && t.revokes == {} && |t.imgs| == 4 && t.dm == 2 && t.firstId == 1 && 9 in t.base
    requires Pos(t.imgs, 2) == 6 && Pos(t.imgs, 4) == 12
    ensures Path(s, steps') && t' == End(s, steps') && Shape(t')
    ensures t'.trans == t.trans && t'.base == t.base && t'.acked == t.acked && t'.geo == NINE
    ensures t'.disk == t.disk.(log := t.disk.log[5 := Fill(4)])
  {
    hide SlotAt, Pos, Path, End, TinyDescriptor, Fill, TinyTrans;
    FillFits();
    TinyImageOk(5, 9, 4, NINE);
    TinyDescribes(9, 4);
    TinyGroup(5, 9, 4, 1, {}, NINE);
    var u;
    steps', u := Then(s, steps, Dirty(9, Fill(4)));
    assert u.open == map[9 := Fill(4)];
    BeginIs(u);
    steps', u := Then(s, steps', BeginCommit(TinyTrans(9, 4), TinyImage(5, 9, 4)));
    AllocIs(u);
    steps', u := Then(s, steps', Alloc);
    AllocIs(u);
    steps', u := Then(s, steps', Alloc);
    DataIs(u);
    steps', u := Then(s, steps', WriteLog(1));
    t' := u;
  }

  lemma FillFits()
    ensures |Fill(4)| == 10
  {
  }

  lemma BeginIs(u: State)
    requires Shape(u) && u.phase.Idle? && u.open == map[9 := Fill(4)] && u.revokes == {} && NextId(u) == 5
    requires Describes(TinyTrans(9, 4), u.open, {}) && ImageOf(TinyImage(5, 9, 4), 5, TinyTrans(9, 4), u.geo)
    ensures var step := BeginCommit(TinyTrans(9, 4), TinyImage(5, 9, 4));
      && Enabled(u, step) && Shape(Apply(u, step))
      && Apply(u, step) == u.(phase := Logging(TinyTrans(9, 4), TinyImage(5, 9, 4), 0, {}))
  {
    hide Describes, ImageOf, TinyTrans, Fill, TinyDescriptor, Pos, SlotAt;
    assert 9 in u.open;
  }

  lemma AllocIs(u: State)
    requires Shape(u) && u.phase.Logging? && u.phase.alloc < 2 && |u.phase.img| == 3 && u.geo == NINE
    requires u.dm == 2 && |u.imgs| == 4 && Pos(u.imgs, 2) == 6 && Pos(u.imgs, 4) == 12
    ensures Enabled(u, Alloc) && Shape(Apply(u, Alloc))
    ensures Apply(u, Alloc) == u.(phase := u.phase.(alloc := u.phase.alloc + 1))
  {
    hide Pos, SlotAt;
  }

  lemma DataIs(u: State)
    requires Shape(u) && u.phase == Logging(TinyTrans(9, 4), TinyImage(5, 9, 4), 2, {}) && u.geo == NINE && !u.mustSync
    requires u.dm == 2 && |u.imgs| == 4 && Pos(u.imgs, 2) == 6 && Pos(u.imgs, 4) == 12
    requires GroupWritten(TinyImage(5, 9, 4), 1, {}, NINE)
    ensures Enabled(u, WriteLog(1)) && Shape(Apply(u, WriteLog(1)))
    ensures Apply(u, WriteLog(1)) ==
            u.(disk := u.disk.(log := u.disk.log[5 := Fill(4)]), phase := u.phase.(written := {1}))
  {
    hide Pos, SlotAt, GroupWritten, TinyDescriptor, Fill, TinyTrans;
    NineSlots();
  }

  // --------------------------------------------------------------- the crash

  lemma SlotsOf(log: seq<Block>, slot: nat, img: seq<Block>)
    requires |log| == 10 && slot in {1, 4, 7} && InLog(log, slot, img)
    ensures Segment(log, slot, img, NINE) && Adv(slot, 3, NINE) == if slot == 7 then 1 else slot + 3
  {
    forall v: nat | v <= 3
      ensures Adv(slot, v, NINE) == if slot + v == 10 then 1 else slot + v
    {
      AdvWithinLap(slot, v, NINE);
    }
  }

  lemma MixedLog(disk: Disk)
    requires |disk.log| == 10 && disk.start == 4 && disk.sequence == 2
    requires InLog(disk.log, 4, TinyImage(2, 7, 4)) && InLog(disk.log, 7, TinyImage(3, 8, 3))
    requires InLog(disk.log, 1, TinyImage(4, 8, 5))
    ensures LogHolds(disk, [TinyImage(2, 7, 4), TinyImage(3, 8, 3), TinyImage(4, 8, 5)],
                     [TinyTrans(7, 4), TinyTrans(8, 3), TinyTrans(8, 5)], [], NINE)
  {
    hide Adv, ImageOf, Segment, InLog, TinyDescriptor, TinyTrans, Fill;
    var a, b, c := TinyImage(2, 7, 4), TinyImage(3, 8, 3), TinyImage(4, 8, 5);
    var x, y, z := TinyTrans(7, 4), TinyTrans(8, 3), TinyTrans(8, 5);
    TinyImageOk(2, 7, 4, NINE);
    TinyImageOk(3, 8, 3, NINE);
    TinyImageOk(4, 8, 5, NINE);
    SlotsOf(disk.log, 4, a);
    SlotsOf(disk.log, 7, b);
    SlotsOf(disk.log, 1, c);
    NoBlocks(disk.log, 4);
    assert Reads(disk.log, 4, 5, [], [], [], true, NINE);
    var none: seq<seq<Block>>, still: seq<Trans> := [], [];
    assert [c][1..] == none && [z][1..] == still;
    assert Reads(disk.log, 1, 4, [c], [z], [], true, NINE);
    assert [b, c][1..] == [c] && [y, z][1..] == [z];
    assert Reads(disk.log, 7, 3, [b, c], [y, z], [], true, NINE);
    assert [a, b, c][1..] == [b, c] && [x, y, z][1..] == [y, z];
  }

  lemma NoBlocks(log: seq<Block>, slot: nat)
    requires |log| == 10 && slot == 4
    ensures Segment(log, slot, [], NINE)
  {
  }

  /** Four commits have returned, and block 7 has its second version at home and nowhere else. A crash here, and
      recovery gives it the data of the transaction that was not committed, logged for block 9. */
  lemma WrongReplay() returns (s: State, steps: seq<Step>, imgs: seq<seq<Block>>, txs: seq<Trans>)
    ensures Inv(s) && Path(s, steps)
    ensures var t := End(s, steps);
      && t.acked == |t.trans| == 4 && LogHolds(t.disk, imgs, txs, [], t.geo)
      && LastEvent(txs, 7) == Wrote(Fill(4))
      && !Committed(t.trans, 7, Fill(4)) && 7 in t.base && t.base[7] != Fill(4)
  {
    hide LogOk, DataOk, TailOk, RoomOk, FinishingOk, SlotAt, Pos, Path, End, Fill, Inv, TinyDescriptor, LogHolds,
         Quiet, Shape;
    var zero := Fill(0);
    var t;
    s, steps, t := ThreeCommits(NINE, [zero, zero, zero, zero, zero, zero, zero, zero, zero, zero]);
    ghost var log := t.disk.log;
    OldInLog(t);
    steps, t := FillsUp(s, steps, t);
    PosTiny(t.imgs, 2);
    PosTiny(t.imgs, 4);
    steps, t := FifthCommit(s, steps, t);
    imgs := [TinyImage(2, 7, 4), TinyImage(3, 8, 3), TinyImage(4, 8, 5)];
    txs := [TinyTrans(7, 4), TinyTrans(8, 3), TinyTrans(8, 5)];
    var img := TinyImage(4, 8, 5);
    assert t.disk.log == log[2 := img[1]][1 := img[0]][3 := img[2]][5 := Fill(4)];
    MixedLog(t.disk);
    Versions(txs, t.trans);
  }

  /** Transactions 2 and 3 are in the log. */
  lemma OldInLog(t: State)
    requires Quiet(t) && t.geo == NINE && t.firstId == 1 && t.d == 1
    requires t.imgs == [TinyImage(1, 7, 1), TinyImage(2, 7, 2), TinyImage(3, 8, 3)]
    ensures |t.disk.log| == 10 && InLog(t.disk.log, 4, TinyImage(2, 7, 2)) && InLog(t.disk.log, 7, TinyImage(3, 8, 3))
  {
    hide DataOk, TailOk, RoomOk, FinishingOk, ImagesOk, NoFutureHeaders, CommitOk, SlotAt, Pos, TinyDescriptor, Fill;
    NineSlots();
    PosTiny(t.imgs, 1);
    PosTiny(t.imgs, 2);
    assert InPlace(t.geo, t.disk.log, t.imgs, 1, 0) && InPlace(t.geo, t.disk.log, t.imgs, 1, 1);
    assert InPlace(t.geo, t.disk.log, t.imgs, 1, 2) && InPlace(t.geo, t.disk.log, t.imgs, 2, 0);
    assert InPlace(t.geo, t.disk.log, t.imgs, 2, 1) && InPlace(t.geo, t.disk.log, t.imgs, 2, 2);
  }

  lemma Versions(txs: seq<Trans>, trans: seq<Trans>)
    requires txs == [TinyTrans(7, 4), TinyTrans(8, 3), TinyTrans(8, 5)]
    requires trans == [TinyTrans(7, 1), TinyTrans(7, 2), TinyTrans(8, 3), TinyTrans(8, 5)]
    ensures LastEvent(txs, 7) == Wrote(Fill(4)) && !Committed(trans, 7, Fill(4)) && START[7] != Fill(4)
  {
    hide Fill;
    FillsDiffer(1, 4);
    FillsDiffer(2, 4);
    FillsDiffer(0, 4);
    TinyWrites(7, 4, 7);
    TinyWrites(8, 3, 7);
    TinyWrites(8, 5, 7);
    TinyWrites(7, 1, 7);
    TinyWrites(7, 2, 7);
    assert LastEvent([txs[0]], 7) == Wrote(Fill(4));
    assert [txs[0], txs[1]][..1] == [txs[0]] && LastEvent([txs[0], txs[1]], 7) == Wrote(Fill(4));
    assert txs[..2] == [txs[0], txs[1]];
  }

  lemma TinyWrites(lba: nat, w: nat, x: nat)
    ensures LastWrite(TinyTrans(lba, w).writes, x) == (if x == lba then Wrote(Fill(w)) else Nothing)
    ensures EventOf(TinyTrans(lba, w), x) == LastWrite(TinyTrans(lba, w).writes, x)
  {
    assert TinyTrans(lba, w).writes[..0] == [];
  }
}
