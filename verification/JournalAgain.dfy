/** A session that uses ids again which the session before has used: stopping the journal leaves the id 0, so that
    the next session counts from 1. A crash after its first commit, and recovery goes on with a transaction of the
    session before. */
module JournalAgain {
  import opened JournalFormat
  import opened JournalRecovery
  import opened JournalProtocol
  import opened JournalInvariant
  import opened JournalRestart
  import opened JournalTheorems
  import opened JournalLoss

  /** The log as a session leaves it whose second transaction has written block 9. */
  function Used(): seq<Block> {
    var old' := TinyImage(2, 9, 5);
    [Fill(0), Fill(0), Fill(0), Fill(0), old'[0], old'[1], old'[2], Fill(0)]
  }

  /** The first transaction in the middle of its commit. */
  ghost predicate FirstCut(s: State, alloc: nat, written: set<nat>) {
    && Shape(s) && s.geo == TINY && s.phase == Logging(TinyTrans(7, 1), TinyImage(1, 7, 1), alloc, written)
    && s.trans == [] && !s.mustSync
  }

  lemma FirstBegins(s: State)
    requires Shape(s) && s.phase.Idle? && s.geo == TINY && s.open == map[7 := Fill(1)] && s.revokes == {}
    requires s.trans == [] && s.firstId == 1 && !s.mustSync
    ensures var step := BeginCommit(TinyTrans(7, 1), TinyImage(1, 7, 1));
      && Enabled(s, step) && Apply(s, step) == s.(phase := Logging(TinyTrans(7, 1), TinyImage(1, 7, 1), 0, {}))
      && FirstCut(Apply(s, step), 0, {})
  {
    hide Fill, Describes, ImageOf, TinyImage, TinyTrans, SlotAt;
    TinyImageOk(1, 7, 1, TINY);
    TinyDescribes(7, 1);
    assert 7 in s.open;
  }

  lemma FirstAlloc(s: State, n: nat)
    requires FirstCut(s, n, {}) && n < 3
    ensures Enabled(s, Alloc) && Apply(s, Alloc) == s.(phase := s.phase.(alloc := n + 1))
    ensures FirstCut(Apply(s, Alloc), n + 1, {})
  {
    hide Fill, TinyDescriptor, TinyTrans, SlotAt;
  }

  lemma FirstWrite(s: State, written: set<nat>, j: nat)
    requires FirstCut(s, 3, written) && j < 2 && (j == 0 ==> 1 in written)
    ensures Enabled(s, WriteLog(j))
    ensures Apply(s, WriteLog(j)) ==
            s.(disk := s.disk.(log := s.disk.log[1 + j := TinyImage(1, 7, 1)[j]]),
               phase := s.phase.(written := written + {j}))
    ensures FirstCut(Apply(s, WriteLog(j)), 3, written + {j})
  {
    hide Fill, TinyDescriptor, TinyTrans, GroupWritten;
    TinyGroup(1, 7, 1, j, written, TINY);
    AdvWithinLap(1, j, TINY);
  }

  lemma FirstEnds(s: State)
    requires FirstCut(s, 3, {} + {1} + {0}) && s.acked == 0
    ensures Enabled(s, WriteCommit) && Shape(Apply(s, WriteCommit)) && Enabled(Apply(s, WriteCommit), FinishCommit)
    ensures var t := Apply(Apply(s, WriteCommit), FinishCommit);
      && Shape(t) && t.trans == [TinyTrans(7, 1)] && t.acked == 1 && t.base == s.base && t.geo == TINY
      && t.disk == s.disk.(log := s.disk.log[3 := TinyImage(1, 7, 1)[2]])
  {
    hide Fill, TinyDescriptor, SlotAt;
    SlotIs(TINY, 2);
    var u := Apply(s, WriteCommit);
    assert Pos(u.imgs, 0) == 0 && u.dm == 0;
  }

  lemma SlotsOf(log: seq<Block>, slot: nat, img: seq<Block>)
    requires |log| == 8 && slot in {1, 4} && |img| == 3
    requires log[slot] == img[0] && log[slot + 1] == img[1] && log[slot + 2] == img[2]
    ensures Segment(log, slot, img, TINY) && Adv(slot, 3, TINY) == slot + 3
  {
    forall v: nat | v <= 3
      ensures Adv(slot, v, TINY) == slot + v
    {
      AdvWithinLap(slot, v, TINY);
    }
  }

  /** The reader takes the old transaction for the one that follows. */
  lemma BothRead(disk: Disk)
    requires |disk.log| == 8 && disk.start == 1 && disk.sequence == 1 && disk.log[7] == Fill(0)
    requires var a, b := TinyImage(1, 7, 1), TinyImage(2, 9, 5); disk.log[1..7] == a + b
    ensures LogHolds(disk, [TinyImage(1, 7, 1), TinyImage(2, 9, 5)], [TinyTrans(7, 1), TinyTrans(9, 5)], [], TINY)
  {
    hide Adv, ImageOf, Segment, TinyDescriptor, TinyTrans, Fill;
    var a, b := TinyImage(1, 7, 1), TinyImage(2, 9, 5);
    var x, y := TinyTrans(7, 1), TinyTrans(9, 5);
    TinyImageOk(1, 7, 1, TINY);
    TinyImageOk(2, 9, 5, TINY);
    forall k | 0 <= k < 6
      ensures disk.log[1 + k] == (a + b)[k]
    {
      assert disk.log[1..7][k] == disk.log[1 + k];
    }
    SlotsOf(disk.log, 1, a);
    SlotsOf(disk.log, 4, b);
    EndsHere(disk.log);
    var none: seq<seq<Block>>, still: seq<Trans> := [], [];
    assert Reads(disk.log, 7, 3, none, still, [], false, TINY);
    assert [b][1..] == none && [y][1..] == still;
    assert Reads(disk.log, 4, 2, [b], [y], [], false, TINY);
    assert [a, b][1..] == [b] && [x, y][1..] == [y];
  }

  lemma EndsHere(log: seq<Block>)
    requires |log| == 8 && log[7] == Fill(0)
    ensures Segment(log, 7, [], TINY) && StopsAt(log[Adv(7, 0, TINY)], 3)
  {
    FillPlain();
  }

  lemma SetUp(s: State)
    requires s == Start(TINY, START, Used(), 0)
    ensures Shape(s) && Enabled(s, Dirty(7, Fill(1))) && !Sound(s)
    ensures Apply(s, Dirty(7, Fill(1))) == s.(open := map[7 := Fill(1)], touched := {7})
    ensures Shape(Apply(s, Dirty(7, Fill(1))))
  {
    hide Sound, Fill, Harmless;
    StartOk(TINY, START, Used(), 0);
    assert IsHeader(Used()[4]) && Used()[4][2] == 2;
    OldId(Used()[4]);
    assert map[7 := Fill(1)] == s.open[7 := Fill(1)] && s.cache - {7} == map[] && s.revokes - {7} == {};
  }

  lemma OldId(b: Block)
    requires IsHeader(b) && b[2] == 2
    ensures !Harmless(b, 4, 1, TINY)
  {
  }

  /** One commit has returned, of block 7. A crash then, and recovery brings back also an old version of block 9,
      which this session has not written. */
  lemma ReplaysOld() returns (s: State, steps: seq<Step>)
    ensures s == Start(TINY, START, Used(), 0) && Path(s, steps) && !Sound(s)
    ensures var t := End(s, steps);
      && t.acked == |t.trans| == 1
      && LogHolds(t.disk, [TinyImage(1, 7, 1), TinyImage(2, 9, 5)], [TinyTrans(7, 1), TinyTrans(9, 5)], [], TINY)
      && LastEvent([TinyTrans(7, 1), TinyTrans(9, 5)], 9) == Wrote(Fill(5))
      && LastEvent(t.trans, 9) == Nothing && 9 in t.base && t.base[9] != Fill(5)
  {
    hide Fill, Path, End, TinyDescriptor, TinyTrans, Enabled, Apply, Shape, LogHolds, Sound;
    s := Start(TINY, START, Used(), 0);
    SetUp(s);
    NoSteps(s);
    var t;
    steps, t := Then(s, [], Dirty(7, Fill(1)));
    FirstBegins(t);
    steps, t := Then(s, steps, BeginCommit(TinyTrans(7, 1), TinyImage(1, 7, 1)));
    FirstAlloc(t, 0);
    steps, t := Then(s, steps, Alloc);
    FirstAlloc(t, 1);
    steps, t := Then(s, steps, Alloc);
    FirstAlloc(t, 2);
    steps, t := Then(s, steps, Alloc);
    FirstWrite(t, {}, 1);
    steps, t := Then(s, steps, WriteLog(1));
    FirstWrite(t, {} + {1}, 0);
    steps, t := Then(s, steps, WriteLog(0));
    FirstEnds(t);
    steps, t := Then(s, steps, WriteCommit);
    steps, t := Then(s, steps, FinishCommit);
    var a, b := TinyImage(1, 7, 1), TinyImage(2, 9, 5);
    assert t.disk.log == [Fill(0), a[0], a[1], a[2], b[0], b[1], b[2], Fill(0)];
    assert t.disk.log[1..7] == a + b;
    BothRead(t.disk);
    FillsDiffer(0, 5);
    NinesLast();
  }

  lemma NinesLast()
    ensures LastEvent([TinyTrans(7, 1), TinyTrans(9, 5)], 9) == Wrote(Fill(5))
    ensures LastEvent([TinyTrans(7, 1)], 9) == Nothing
  {
    hide Fill;
    assert TinyTrans(7, 1).writes[..0] == [];
    assert LastWrite(TinyTrans(7, 1).writes, 9) == Nothing;
    assert LastWrite(TinyTrans(9, 5).writes, 9) == Wrote(Fill(5));
    assert [TinyTrans(7, 1)][..0] == [];
  }
}
