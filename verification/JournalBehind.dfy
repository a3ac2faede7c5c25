/** The log while the superblock on disk is behind: what a crash finds after a purge without a superblock write,
    until the next superblock write. */
module JournalBehind {
  import opened JournalFormat
  import opened JournalRecovery
  import opened JournalProtocol
  import opened JournalInvariant
  import opened JournalCrash
  import opened JournalRestart
  import opened JournalTheorems
  import opened JournalQueue

  /** A log block is in its slot until the block one lap later is written, also when its transaction has left the
      queue. */
  ghost predicate KeptAt(geo: Geometry, log: seq<Block>, imgs: seq<seq<Block>>, head: nat, written: set<nat>, i: nat,
                         j: nat)
    requires geo.Valid() && |log| == geo.maxlen && i < |imgs| && j < |imgs[i]|
  {
    var p := Pos(imgs, i) + j + geo.Slots();
    p >= head && p - head !in written ==> InPlace(geo, log, imgs, i, j)
  }

  ghost predicate Tracked(s: State)
    requires Shape(s)
  {
    forall i: nat, j: nat :: i < |s.imgs| && j < |s.imgs[i]| ==>
      KeptAt(s.geo, s.disk.log, s.imgs, Head(s), Written(s), i, j)
  }

  lemma WriteTracks(s: State, j: nat)
    requires Core(s) && Tracked(s) && Enabled(s, WriteLog(j))
    ensures Tracked(Apply(s, WriteLog(j)))
  {
    hide LogOk, DataOk, FinishingOk, Pos, SlotAt, GroupWritten, KeptAt;
    var t := Apply(s, WriteLog(j));
    forall i: nat, k: nat | i < |t.imgs| && k < |t.imgs[i]|
      ensures KeptAt(t.geo, t.disk.log, t.imgs, Head(t), Written(t), i, k)
    {
      assert KeptAt(s.geo, s.disk.log, s.imgs, Head(s), Written(s), i, k);
      WriteKeepsAt(s, j, i, k);
    }
  }

  lemma WriteKeepsAt(s: State, j: nat, i: nat, k: nat)
    requires Core(s) && Enabled(s, WriteLog(j)) && i < |s.imgs| && k < |s.imgs[i]|
    requires KeptAt(s.geo, s.disk.log, s.imgs, Head(s), Written(s), i, k)
    ensures var t := Apply(s, WriteLog(j)); KeptAt(t.geo, t.disk.log, t.imgs, Head(t), Written(t), i, k)
  {
    hide LogOk, DataOk, FinishingOk, Pos, SlotAt, GroupWritten;
    var p, q := Pos(s.imgs, i) + k, Head(s) + j;
    PosMonotone(s.imgs, s.dm, |s.imgs|);
    PosMonotone(s.imgs, i, |s.imgs|);
    if p + s.geo.Slots() >= Head(s) && q != p + s.geo.Slots() { LapsDiffer(s.geo, p, q); }
  }

  /** Positions less than two laps apart have different slots, unless they are exactly one lap apart. */
  lemma LapsDiffer(geo: Geometry, p: nat, q: nat)
    requires geo.Valid() && p < q < p + 2 * geo.Slots() && q != p + geo.Slots()
    ensures SlotAt(geo, p) != SlotAt(geo, q)
  {
    hide SlotAt;
    SlotLap(geo, p);
    if q < p + geo.Slots() { SlotsDiffer(geo, p, q); } else { SlotsDiffer(geo, p + geo.Slots(), q); }
  }

  lemma CommitTracks(s: State)
    requires Shape(s) && Core(s) && Tracked(s) && Enabled(s, WriteCommit)
    ensures Shape(Apply(s, WriteCommit)) && Tracked(Apply(s, WriteCommit))
  {
    hide Core, Pos, SlotAt, KeptAt, InPlace;
    var t := Apply(s, WriteCommit);
    ShapeKeeps(s, WriteCommit);
    WriteCommitKeeps(s);
    NewInPlace(t);
    HeadGrows(s, t);
    forall i: nat, k: nat | i < |t.imgs| && k < |t.imgs[i]|
      ensures KeptAt(t.geo, t.disk.log, t.imgs, Head(t), Written(t), i, k)
    {
      if i < |s.imgs| {
        assert KeptAt(s.geo, s.disk.log, s.imgs, Head(s), Written(s), i, k);
        CommitKeepsAt(s, i, k);
      } else {
        InPlaceKept(t.geo, t.disk.log, t.imgs, Head(t), Written(t), i, k);
      }
    }
  }

  lemma InPlaceKept(geo: Geometry, log: seq<Block>, imgs: seq<seq<Block>>, head: nat, written: set<nat>, i: nat, j: nat)
    requires geo.Valid() && |log| == geo.maxlen && i < |imgs| && j < |imgs[i]| && InPlace(geo, log, imgs, i, j)
    ensures KeptAt(geo, log, imgs, head, written, i, j)
  {
  }

  /** The transactions of the queue are in place. */
  lemma NewInPlace(s: State)
    requires Core(s)
    ensures forall i: nat, j: nat :: s.dm <= i < |s.imgs| && j < |s.imgs[i]| ==>
      InPlace(s.geo, s.disk.log, s.imgs, i, j)
  {
    hide DataOk, FinishingOk, ImagesOk, NoFutureHeaders, CommitOk, InPlace, RoomOk;
  }

  lemma CommitKeepsAt(s: State, i: nat, k: nat)
    requires Core(s) && Enabled(s, WriteCommit) && i < |s.imgs| && k < |s.imgs[i]|
    requires KeptAt(s.geo, s.disk.log, s.imgs, Head(s), Written(s), i, k)
    ensures var t := Apply(s, WriteCommit); KeptAt(t.geo, t.disk.log, t.imgs, Head(t), Written(t), i, k)
  {
    hide LogOk, DataOk, FinishingOk, Pos, SlotAt;
    var t := Apply(s, WriteCommit);
    HeadGrows(s, t);
    PosPrefix(s.imgs, t.imgs, i);
    PosMonotone(s.imgs, i, |s.imgs|);
    var p, n := Pos(s.imgs, i) + k, |s.phase.img|;
    if p + s.geo.Slots() >= Head(t) {
      NotWrittenYet(s, p + s.geo.Slots() - Head(s));
      SlotsDiffer(s.geo, p, Head(s) + n - 1);
    }
  }

  lemma NotWrittenYet(s: State, v: nat)
    requires Core(s) && s.phase.Logging? && v >= |s.phase.img|
    ensures v !in s.phase.written
  {
    hide DataOk, FinishingOk, RoomOk, ImagesOk, IntactFrom, NoFutureHeaders, Pos, SlotAt, ImageOf, Describes,
         GroupWritten;
  }

  lemma StepTracks(s: State, step: Step)
    requires Shape(s) && Core(s) && Tracked(s) && Enabled(s, step)
    ensures Shape(Apply(s, step)) && Tracked(Apply(s, step))
  {
    hide Core, KeptAt, Apply, Enabled;
    var t := Apply(s, step);
    ShapeKeeps(s, step);
    if step.WriteLog? {
      WriteTracks(s, step.j);
    } else if step.WriteCommit? {
      CommitTracks(s);
    } else {
      SameLog(s, step);
      forall i: nat, j: nat | i < |t.imgs| && j < |t.imgs[i]|
        ensures KeptAt(t.geo, t.disk.log, t.imgs, Head(t), Written(t), i, j)
      {
        assert KeptAt(s.geo, s.disk.log, s.imgs, Head(s), Written(s), i, j);
      }
    }
  }

  lemma SameLog(s: State, step: Step)
    requires Shape(s) && Enabled(s, step) && !step.WriteLog? && !step.WriteCommit?
    ensures var t := Apply(s, step);
      t.geo == s.geo && t.disk.log == s.disk.log && t.imgs == s.imgs && Written(t) == Written(s)
  {
    hide Pos, SlotAt, Describes, Pending, NewestCopy, LogCopy;
  }

  /** Every run keeps the part of the invariant that does not depend on the superblock on disk, and the old log
      blocks until they are overwritten. */
  lemma {:induction false} RunTracks(s: State, steps: seq<Step>)
    requires Core(s) && Tracked(s) && Path(s, steps) && SteadyPath(s, steps)
    ensures Core(End(s, steps)) && Tracked(End(s, steps))
    decreases |steps|
  {
    hide Core, Tracked, Steady, Enabled, Orderly, Apply;
    if steps != [] {
      CoreShape(s);
      StepKeepsCore(s, steps[0]);
      StepTracks(s, steps[0]);
      RunTracks(Apply(s, steps[0]), steps[1..]);
    }
  }

  lemma RunsTrack(s: State, steps: seq<Step>, t: State, orderly: bool)
    requires Core(s) && Tracked(s) && Runs(s, steps, t, orderly)
    ensures Core(t) && Tracked(t)
  {
    hide Core, Tracked;
    RunTracks(s, steps);
  }

  // ----------------------------------------------------- what a crash finds

  /** Nothing behind the tail named on disk is overwritten. */
  ghost predicate Untouched(s: State)
    requires Shape(s)
  {
    var p := Pos(s.imgs, s.d) + s.geo.Slots();
    Head(s) <= p && forall v :: v in Written(s) ==> Head(s) + v < p
  }

  /** The very block that the superblock on disk names is overwritten. */
  ghost predicate Replaced(s: State)
    requires Shape(s)
  {
    var p := Pos(s.imgs, s.d) + s.geo.Slots();
    Head(s) > p || p - Head(s) in Written(s)
  }

  lemma UntouchedIntact(s: State)
    requires Core(s) && Tracked(s) && Untouched(s)
    ensures IntactFrom(s.geo, s.disk.log, s.imgs, s.d)
  {
    hide LogOk, DataOk, FinishingOk, RoomOk, Pos, SlotAt, InPlace;
    forall i: nat, j: nat | s.d <= i < |s.imgs| && j < |s.imgs[i]|
      ensures InPlace(s.geo, s.disk.log, s.imgs, i, j)
    {
      PosMonotone(s.imgs, s.d, i);
      assert KeptAt(s.geo, s.disk.log, s.imgs, Head(s), Written(s), i, j);
    }
  }

  /** The last position before `head` whose slot is that of p. */
  lemma LastLap(geo: Geometry, p: nat, head: nat) returns (q: nat)
    requires geo.Valid() && p + geo.Slots() < head
    ensures p + geo.Slots() <= q < head <= q + geo.Slots() && SlotAt(geo, q) == SlotAt(geo, p)
  {
    hide SlotAt;
    var n := geo.Slots();
    q := p + n;
    SlotLap(geo, p);
    while q + n < head
      invariant p + n <= q < head && SlotAt(geo, q) == SlotAt(geo, p)
    {
      SlotLap(geo, q);
      q := q + n;
    }
  }

  /** The reader finds nothing at the slot that the superblock on disk names. */
  lemma ReplacedStops(s: State)
    requires Core(s) && Tracked(s) && Replaced(s)
    ensures StopsAt(s.disk.log[s.disk.start], s.disk.sequence)
  {
    hide DataOk, FinishingOk, RoomOk, Pos, SlotAt, ImageOf, CommitOk, IntactFrom, NoFutureHeaders, KeptAt, InPlace;
    var p, n := Pos(s.imgs, s.d), s.geo.Slots();
    if Head(s) > p + n {
      PosMonotone(s.imgs, s.d, |s.imgs|);
      var q := LastLap(s.geo, p, Head(s));
      var i, j := Locate(s.imgs, q, |s.imgs|);
      assert i > s.d by {
        if i <= s.d {
          assert |s.imgs[s.d]| <= n;
          PosMonotone(s.imgs, i, s.d);
        }
      }
      if q + n - Head(s) in Written(s) {
        SlotLap(s.geo, q);
        RunningHeader(s, q + n - Head(s));
      } else {
        LaterHeader(s, i, j);
      }
    } else {
      SlotLap(s.geo, p);
      NotALap(s, p + n - Head(s));
      RunningHeader(s, p + n - Head(s));
    }
  }

  /** A block of a later transaction that has the slot. */
  lemma LaterHeader(s: State, i: nat, j: nat)
    requires Core(s) && Tracked(s) && s.d < i < |s.imgs| && j < |s.imgs[i]|
    requires Pos(s.imgs, i) + j + s.geo.Slots() >= Head(s) && SlotAt(s.geo, Pos(s.imgs, i) + j) == s.disk.start
    requires Pos(s.imgs, i) + j + s.geo.Slots() - Head(s) !in Written(s)
    ensures StopsAt(s.disk.log[s.disk.start], s.disk.sequence)
  {
    hide DataOk, FinishingOk, RoomOk, Pos, SlotAt, ImageOf, CommitOk, IntactFrom, NoFutureHeaders;
    assert KeptAt(s.geo, s.disk.log, s.imgs, Head(s), Written(s), i, j);
    ImageHeaders(s.imgs[i], s.firstId + i, s.trans[i], s.geo, j);
  }

  /** A commit does not write a whole lap. */
  lemma NotALap(s: State, v: nat)
    requires Core(s) && v in Written(s)
    ensures v < s.geo.Slots()
  {
    hide LogOk, DataOk, FinishingOk, Pos, SlotAt;
    PosMonotone(s.imgs, s.dm, |s.imgs|);
  }

  /** A block of the running commit that has the slot. */
  lemma RunningHeader(s: State, v: nat)
    requires Core(s) && s.d < |s.trans| && v in Written(s) && SlotAt(s.geo, Head(s) + v) == s.disk.start
    ensures StopsAt(s.disk.log[s.disk.start], s.disk.sequence)
  {
    hide DataOk, FinishingOk, RoomOk, Pos, SlotAt, ImageOf, CommitOk, IntactFrom, NoFutureHeaders, ImagesOk;
    CommitBlockIn(s, v);
    CommitDescribes(s);
    ImageHeaders(s.phase.img, NextId(s), s.phase.t, s.geo, v);
  }

  /** All log slots are allocated and the transaction at the tail is finished, with the superblock on disk
      naming it. */
  ghost predicate FullBehindDone(s: State)
    requires Shape(s)
  {
    && s.phase.Logging? && s.dm < QueueEnd(s) && s.pending[s.dm] == {} && s.d == s.dm
    && Head(s) + s.phase.alloc == Pos(s.imgs, s.dm) + s.geo.Slots()
  }

  /** When the full log loses its finished head without a superblock write, the next block that the commit
      allocates gets the slot where the superblock on disk still says the log begins: once it is written, and not
      before, the reader finds nothing at all. */
  lemma PurgeOverwrites(s: State, steps: seq<Step>)
    requires Core(s) && Tracked(s) && FullBehindDone(s) && Enabled(s, PurgeUnsynced)
    requires Path(Apply(s, PurgeUnsynced), steps)
    requires forall k :: 0 <= k < |steps| ==> steps[k].Alloc? || steps[k].WriteLog?
    ensures SlotAt(s.geo, Head(s) + s.phase.alloc) == s.disk.start
    ensures var t := End(Apply(s, PurgeUnsynced), steps);
      && t.phase.Logging? && Shape(t)
      && (s.phase.alloc in t.phase.written <==> StopsAt(t.disk.log[t.disk.start], t.disk.sequence))
  {
    hide Core, Tracked, Pos, SlotAt, Apply, Enabled, Orderly;
    CoreShape(s);
    var u := Apply(s, PurgeUnsynced);
    SlotLap(s.geo, Pos(s.imgs, s.dm));
    StepKeepsCore(s, PurgeUnsynced);
    StepTracks(s, PurgeUnsynced);
    PurgedFields(s);
    LoggingRun(u, steps);
    var t := End(u, steps);
    CoreShape(t);
    if s.phase.alloc in t.phase.written {
      ReplacedStops(t);
    } else {
      StillNamed(t);
    }
  }

  lemma PurgedFields(s: State)
    requires Shape(s) && Enabled(s, PurgeUnsynced)
    ensures Apply(s, PurgeUnsynced) == s.(dm := s.dm + 1) && s.phase.Logging?
  {
  }

  /** Log writes of a running commit. */
  lemma {:induction false} LoggingRun(s: State, steps: seq<Step>)
    requires Core(s) && Tracked(s) && s.phase.Logging?
    requires Path(s, steps) && forall k :: 0 <= k < |steps| ==> steps[k].Alloc? || steps[k].WriteLog?
    ensures var t := End(s, steps);
      && Core(t) && Tracked(t) && t.phase.Logging? && t.imgs == s.imgs && t.d == s.d && t.geo == s.geo
    decreases |steps|
  {
    hide Core, Tracked, Enabled;
    if steps != [] {
      CoreShape(s);
      StepKeepsCore(s, steps[0]);
      StepTracks(s, steps[0]);
      LoggingRun(Apply(s, steps[0]), steps[1..]);
    }
  }

  /** The block that the superblock names is there, a header with the id that the superblock gives. */
  lemma StillNamed(s: State)
    requires Core(s) && Tracked(s) && s.d < |s.imgs| && !Replaced(s)
    ensures !StopsAt(s.disk.log[s.disk.start], s.disk.sequence)
  {
    hide DataOk, FinishingOk, RoomOk, Pos, SlotAt, CommitOk, IntactFrom, NoFutureHeaders;
    ImageStart(s.imgs[s.d], s.firstId + s.d, s.trans[s.d], s.geo);
    assert KeptAt(s.geo, s.disk.log, s.imgs, Head(s), Written(s), s.d, 0);
  }

  /** The crash of a session whose superblock on disk is behind, and mount. As long as nothing behind the tail named
      on disk is overwritten all commits are there. Once the block that the superblock names is overwritten the log
      is as good as empty: the home blocks stay as they are, and the commits that had returned are all there if and
      only if every block that a transaction of the queue still has to write home has its newest committed version
      there already. Between two commits it is always one or the other. */
  method RecoverBehind(disk: Disk, geo: Geometry, ghost s: State) returns (disk': Disk)
    requires Behind(s) || (Sound(s) && s.phase.Idle? && !s.mustSync)
    requires disk == s.disk && geo == s.geo
    ensures disk'.start == 0 && Shape(s) && s.acked == |s.trans|
    ensures s.phase.Idle? ==> (Replaced(s) <==> Head(s) > Pos(s.imgs, s.d) + s.geo.Slots())
    ensures Behind(s) && Replaced(s) ==> forall lba :: SameAt(disk'.home, s.disk.home, lba)
    ensures RecoveredTo(s, disk'.home, |s.trans|) <==>
            !Replaced(s) || forall lba :: Pending(s.pending, lba) ==> CurrentAt(s, lba)
  {
    hide LogHolds, Behind, Sound, Overlay, RecoveredTo, Recovers, Pending, CurrentAt, Pos, SlotAt;
    BehindShape(s);
    ghost var imgs, txs, tail := ReaderFinds(s);
    assert disk.start != 0 by { StartInside(s); }
    var ok;
    ok, disk' := RecoverJournal(disk, geo, imgs, txs, tail);
    if Behind(s) && Replaced(s) {
      NoEvents();
      forall lba
        ensures SameAt(disk'.home, s.disk.home, lba)
      {
        assert SameAt(disk'.home, Overlay(disk.home, lba, LastEvent([], lba)), lba);
        NothingOver(disk.home, lba);
      }
      BehindCore(s);
      KeptExactly(s, disk'.home);
    } else {
      AllRecovered(s, txs, disk'.home);
      if Replaced(s) { IdleSettled(s); }
    }
  }

  /** A session between two commits, or one whose commit has not yet written over part of what the superblock on
      disk names. */
  ghost predicate Behind(s: State) {
    Core(s) && Tracked(s) && !s.phase.Finishing? && (s.phase.Idle? || Untouched(s) || Replaced(s))
  }

  lemma BehindShape(s: State)
    requires Behind(s) || (Sound(s) && s.phase.Idle? && !s.mustSync)
    ensures Shape(s) && s.acked == |s.trans|
    ensures s.phase.Idle? ==> (Replaced(s) <==> Head(s) > Pos(s.imgs, s.d) + s.geo.Slots())
  {
    hide LogOk, DataOk, FinishingOk, RoomOk, TailOk, Tracked, Pos, SlotAt, StaleOnly;
  }

  lemma BehindCore(s: State)
    requires Behind(s)
    ensures Core(s)
  {
  }

  lemma ReaderFinds(s: State) returns (imgs: seq<seq<Block>>, txs: seq<Trans>, tail: seq<Block>)
    requires Behind(s) || (Sound(s) && s.phase.Idle? && !s.mustSync)
    ensures LogHolds(s.disk, imgs, txs, tail, s.geo) && Shape(s)
    ensures Behind(s) && Replaced(s) ==> txs == []
    ensures !(Behind(s) && Replaced(s)) ==> Recovers(s, txs, |s.trans|)
  {
    hide LogHolds, Core, Sound, Tracked, Recovers, Pos, SlotAt, IntactFrom;
    BehindShape(s);
    if Behind(s) && Replaced(s) {
      imgs, txs, tail := [], [], [];
      NothingFound(s);
    } else if Behind(s) {
      UntouchedIntact(s);
      imgs, txs, tail := CrashIntact(s);
    } else {
      var a;
      imgs, txs, tail, a := SoundCrash(s);
    }
  }

  lemma StartInside(s: State)
    requires Shape(s)
    ensures s.disk.start >= s.geo.first > 0
  {
  }

  lemma NothingFound(s: State)
    requires Core(s) && Tracked(s) && Replaced(s)
    ensures LogHolds(s.disk, [], [], [], s.geo)
  {
    hide LogOk, DataOk, FinishingOk, RoomOk, Pos, SlotAt;
    ReplacedStops(s);
    assert Adv(s.disk.start, 0, s.geo) == s.disk.start;
  }

  lemma AllRecovered(s: State, txs: seq<Trans>, home: map<nat, Block>)
    requires Recovers(s, txs, |s.trans|)
    requires forall lba :: SameAt(home, Overlay(s.disk.home, lba, LastEvent(txs, lba)), lba)
    ensures RecoveredTo(s, home, |s.trans|)
  {
    hide AgreesAt, SameAt, Overlay;
    forall lba | lba in s.base
      ensures AgreesAt(s.base, s.trans[..|s.trans|], home, lba)
    {
      AgreesSame(s.base, s.trans[..|s.trans|], Overlay(s.disk.home, lba, LastEvent(txs, lba)), home, lba);
    }
  }
}
