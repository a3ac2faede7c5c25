/** Sessions one after the other. The id of the first transaction of a session can be that of a transaction which
    the session before left unfinished, and whose blocks are still in the log. */
module JournalRestart {
  import opened JournalFormat
  import opened JournalRecovery
  import opened JournalProtocol
  import opened JournalInvariant
  import opened JournalCrash

  /** A descriptor or revoke block of transaction `id`, whose data blocks do not run over the end of the log. */
  predicate Harmless(b: Block, slot: nat, id: nat, geo: Geometry) {
    IsHeader(b) && b[2] == id
    && (b[1] == REVOKE_BLOCK || (b[1] == DESCRIPTOR_BLOCK && slot + |Tags(b, HEADER_WORDS, geo)| < geo.maxlen))
  }

  /** The headers in the log are older than the next transaction, or harmless pieces of one with its id. */
  predicate LogReady(geo: Geometry, log: seq<Block>, sequence: nat)
    requires |log| == geo.maxlen
  {
    forall slot :: geo.first <= slot < geo.maxlen && IsHeader(log[slot]) ==>
      log[slot][2] <= sequence || Harmless(log[slot], slot, sequence + 1, geo)
  }

  function WithLog(s: State, log: seq<Block>): State { s.(disk := s.disk.(log := log)) }

  /** Outside the running commit the log differs from `log` by harmless pieces of a transaction of an earlier
      session. */
  ghost predicate StaleOnly(s: State, log: seq<Block>)
    requires Shape(s) && |log| == |s.disk.log|
  {
    forall slot :: s.geo.first <= slot < s.geo.maxlen ==>
      s.disk.log[slot] == log[slot]
      || (Harmless(s.disk.log[slot], slot, s.firstId, s.geo) && !InFlight(s.geo, Head(s), Written(s), slot))
  }

  /** Before its first commit block a session is in order if it is without these pieces. */
  ghost predicate Restarted(s: State, log: seq<Block>) {
    Shape(s) && s.trans == [] && |log| == |s.disk.log| && Inv(WithLog(s, log)) && StaleOnly(s, log)
  }

  ghost predicate Sound(s: State) { Inv(s) || exists log :: Restarted(s, log) }

  lemma SoundShape(s: State)
    requires Sound(s)
    ensures Shape(s)
  {
  }

  // ------------------------------------------------------------------ steps

  function LogAfter(s: State, log: seq<Block>, step: Step): seq<Block>
    requires Shape(s) && Enabled(s, step) && |log| == |s.disk.log|
  {
    if step.WriteLog? then log[SlotAt(s.geo, Head(s) + step.j) := s.phase.img[step.j]] else log
  }

  /** The step is the same without the pieces. */
  lemma SameStep(s: State, log: seq<Block>, step: Step)
    requires Shape(s) && |log| == |s.disk.log| && Shape(WithLog(s, log)) && Enabled(s, step) && !step.WriteCommit?
    ensures Enabled(WithLog(s, log), step) && (Orderly(s, step) ==> Orderly(WithLog(s, log), step))
    ensures Apply(WithLog(s, log), step) == WithLog(Apply(s, step), LogAfter(s, log, step))
  {
    hide Enabled, Orderly, Apply, Shape;
    SameEnabled(s, log, step);
    if Orderly(s, step) { SameOrder(s, log, step); }
    if step.WriteLog? {
      SameWrite(s, log, step.j);
    } else if step.Abort? {
      SameAbort(s, log);
    } else {
      SameEffect(s, log, step);
    }
  }

  lemma SameEnabled(s: State, log: seq<Block>, step: Step)
    requires Shape(s) && |log| == |s.disk.log| && Shape(WithLog(s, log)) && Enabled(s, step)
    ensures Enabled(WithLog(s, log), step)
  {
    hide Pos, SlotAt, Describes, ImageOf, GroupWritten, Pending, LastWrite;
  }

  lemma SameOrder(s: State, log: seq<Block>, step: Step)
    requires Shape(s) && |log| == |s.disk.log| && Shape(WithLog(s, log)) && Enabled(s, step) && Orderly(s, step)
    requires Enabled(WithLog(s, log), step)
    ensures Orderly(WithLog(s, log), step)
  {
    hide Pos, SlotAt, Describes, ImageOf, GroupWritten, Pending, LastWrite, LastEvent;
  }

  lemma SameWrite(s: State, log: seq<Block>, j: nat)
    requires Shape(s) && |log| == |s.disk.log| && Shape(WithLog(s, log)) && Enabled(s, WriteLog(j))
    requires Enabled(WithLog(s, log), WriteLog(j))
    ensures Apply(WithLog(s, log), WriteLog(j)) == WithLog(Apply(s, WriteLog(j)), LogAfter(s, log, WriteLog(j)))
  {
    hide Pos, SlotAt, GroupWritten;
  }

  lemma SameAbort(s: State, log: seq<Block>)
    requires Shape(s) && |log| == |s.disk.log| && Shape(WithLog(s, log)) && Enabled(s, Step.Abort)
    requires Enabled(WithLog(s, log), Step.Abort)
    ensures Apply(WithLog(s, log), Step.Abort) == WithLog(Apply(s, Step.Abort), log)
  {
    hide Pos, SlotAt, Pending, LastEvent;
    var s' := WithLog(s, log);
    assert (map lba | lba in s.touched && Pending(s.pending, lba) :: NewestCopy(s, lba))
        == (map lba | lba in s'.touched && Pending(s'.pending, lba) :: NewestCopy(s', lba));
  }

  lemma SameEffect(s: State, log: seq<Block>, step: Step)
    requires Shape(s) && |log| == |s.disk.log| && Shape(WithLog(s, log)) && Enabled(s, step)
    requires Enabled(WithLog(s, log), step) && !step.WriteCommit? && !step.WriteLog? && !step.Abort?
    ensures Apply(WithLog(s, log), step) == WithLog(Apply(s, step), log)
  {
    hide Pos, SlotAt, Describes, ImageOf, GroupWritten, Pending, LastEvent, LogCopy;
  }

  lemma WithLogShape(s: State, log: seq<Block>)
    requires Shape(s) && |log| == |s.disk.log|
    ensures Shape(WithLog(s, log))
  {
  }

  lemma {:induction false} RestartStep(s: State, log: seq<Block>, step: Step) returns (log': seq<Block>)
    requires Restarted(s, log) && Enabled(s, step) && Orderly(s, step) && !step.WriteCommit?
    ensures Restarted(Apply(s, step), log')
  {
    hide Core, TailOk, Enabled, Orderly, Apply, Shape, StaleOnly;
    log' := LogAfter(s, log, step);
    WithLogShape(s, log);
    SameStep(s, log, step);
    StepKeeps(WithLog(s, log), step);
    StaleStep(s, log, step);
  }

  lemma StaleStep(s: State, log: seq<Block>, step: Step)
    requires Shape(s) && |log| == |s.disk.log| && StaleOnly(s, log) && s.trans == []
    requires Enabled(s, step) && !step.WriteCommit?
    ensures var t := Apply(s, step);
      && Shape(t) && t.trans == [] && |t.disk.log| == |log| && StaleOnly(t, LogAfter(s, log, step))
  {
    hide Pos, SlotAt, Describes, ImageOf, GroupWritten, Pending, LastWrite, Harmless;
    var t, log' := Apply(s, step), LogAfter(s, log, step);
    forall slot | s.geo.first <= slot < s.geo.maxlen
      ensures t.disk.log[slot] == log'[slot]
        || (Harmless(t.disk.log[slot], slot, t.firstId, t.geo) && !InFlight(t.geo, Head(t), Written(t), slot))
    {
      assert s.disk.log[slot] == log[slot]
        || (Harmless(s.disk.log[slot], slot, s.firstId, s.geo) && !InFlight(s.geo, Head(s), Written(s), slot));
    }
  }

  /** With the commit block the id is used up, and the pieces do not matter any more. */
  lemma RestartCommit(s: State, log: seq<Block>)
    requires Restarted(s, log) && Enabled(s, WriteCommit)
    ensures Inv(Apply(s, WriteCommit))
  {
    hide Core, Pos, SlotAt, StaleOnly, Describes, ImageOf;
    var s' := WithLog(s, log);
    assert Enabled(s', WriteCommit);
    StepKeeps(s', WriteCommit);
    var t, t' := Apply(s, WriteCommit), Apply(s', WriteCommit);
    ShapeAfter(s);
    assert t' == WithLog(t, t'.disk.log);
    CommitSlots(s, log);
    CommitCore(t, t'.disk.log);
  }

  lemma ShapeAfter(s: State)
    requires Shape(s) && Enabled(s, WriteCommit)
    ensures Shape(Apply(s, WriteCommit))
  {
    hide SlotAt, Describes, ImageOf;
    var t := Apply(s, WriteCommit);
    PosPrefix(s.imgs, t.imgs, s.d);
  }

  /** Only slots of other transactions differ. */
  ghost predicate PiecesLeft(t: State, log: seq<Block>)
    requires Shape(t) && |log| == |t.disk.log|
  {
    forall slot :: t.geo.first <= slot < t.geo.maxlen ==>
      t.disk.log[slot] == log[slot]
      || (IsHeader(t.disk.log[slot]) && t.disk.log[slot][2] == t.firstId
          && forall j: nat :: j < Head(t) ==> slot != SlotAt(t.geo, j))
  }

  lemma CommitSlots(s: State, log: seq<Block>)
    requires Restarted(s, log) && Enabled(s, WriteCommit) && Shape(Apply(s, WriteCommit))
    ensures PiecesLeft(Apply(s, WriteCommit), Apply(WithLog(s, log), WriteCommit).disk.log)
  {
    hide Core, SlotAt, Describes, ImageOf, TailOk;
    var t, log' := Apply(s, WriteCommit), Apply(WithLog(s, log), WriteCommit).disk.log;
    HeadGrows(s, t);
    forall slot | t.geo.first <= slot < t.geo.maxlen && t.disk.log[slot] != log'[slot]
      ensures IsHeader(t.disk.log[slot]) && t.disk.log[slot][2] == t.firstId
      ensures forall j: nat :: j < Head(t) ==> slot != SlotAt(t.geo, j)
    {
      assert s.disk.log[slot] != log[slot];
      forall j: nat | j < Head(t)
        ensures slot != SlotAt(t.geo, j)
      {
        assert Head(s) + j == j;
        if j < |s.phase.img| - 1 { assert j in Written(s); }
      }
    }
  }

  lemma CommitCore(t: State, log: seq<Block>)
    requires Shape(t) && |log| == |t.disk.log| && Inv(WithLog(t, log)) && PiecesLeft(t, log)
    requires |t.trans| == 1 && t.phase.Finishing?
    ensures Inv(t)
  {
    hide ImageOf, Describes, SlotAt, AgreesAt, PendingAt, WriteAhead, LastEvent, LagChain, LastWrite;
    var u := WithLog(t, log);
    assert t.d == t.dm == 0;
    assert Pos(t.imgs, 1) == Pos(t.imgs, 0) + |t.imgs[0]|;
    forall i: nat, j: nat | t.dm <= i < |t.imgs| && j < |t.imgs[i]|
      ensures InPlace(t.geo, t.disk.log, t.imgs, i, j)
    {
      assert InPlace(u.geo, u.disk.log, u.imgs, i, j);
    }
  }

  // ------------------------------------------------------------------ crash

  /** No descriptor that the reader can meet sends it over the end of the log. */
  lemma HeaderInside(s: State, log: seq<Block>, slot: nat)
    requires Restarted(s, log) && s.geo.first <= slot < s.geo.maxlen && !StopsAt(s.disk.log[slot], s.firstId)
    ensures Harmless(s.disk.log[slot], slot, s.firstId, s.geo)
  {
    hide SlotAt, Core, TailOk, Harmless;
    if s.disk.log[slot] == log[slot] {
      var j := Running(WithLog(s, log), slot);
      WrittenInside(WithLog(s, log), j);
    }
  }

  /** Before the first commit block only the running commit has headers with its id. */
  lemma Running(s: State, slot: nat) returns (j: nat)
    requires Core(s) && s.trans == [] && s.geo.first <= slot < s.geo.maxlen && !StopsAt(s.disk.log[slot], s.firstId)
    ensures j in Written(s) && slot == SlotAt(s.geo, j)
  {
    hide SlotAt, DataOk, FinishingOk, ImagesOk, IntactFrom, CommitOk, RoomOk;
    assert InFlight(s.geo, Head(s), Written(s), slot);
    j :| j in Written(s) && slot == SlotAt(s.geo, Head(s) + j);
  }

  lemma WrittenInside(s: State, j: nat)
    requires Core(s) && s.trans == [] && j in Written(s)
    ensures Head(s) == 0 && SlotAt(s.geo, j) == s.geo.first + j
    ensures var b := s.disk.log[SlotAt(s.geo, j)];
      IsHeader(b) && b[2] == s.firstId ==> Harmless(b, SlotAt(s.geo, j), s.firstId, s.geo)
  {
    hide SlotAt, ImageOf, Describes, TailOk, DataOk, FinishingOk, ImagesOk, IntactFrom, NoFutureHeaders, Tags;
    CommitBlockIn(s, j);
    CommitDescribes(s);
    ImageHeaders(s.phase.img, NextId(s), s.phase.t, s.geo, j);
    SlotIs(s.geo, j);
    var b := s.phase.img[j];
    if IsHeader(b) && b[1] == DESCRIPTOR_BLOCK && |Tags(b, HEADER_WORDS, s.geo)| > 0 {
      var last := j + |Tags(b, HEADER_WORDS, s.geo)|;
      assert last in Written(s);
    }
  }

  lemma SlotIs(geo: Geometry, p: nat)
    requires geo.Valid() && p < geo.Slots()
    ensures SlotAt(geo, p) == geo.first + p
  {
    AdvWithinLap(geo.first, p, geo);
  }

  /** The reader goes from slot to slot until it stops or has gone once around. */
  lemma {:induction false} Walk(s: State, log: seq<Block>, slot: nat) returns (tail: seq<Block>)
    requires Restarted(s, log) && s.geo.first <= slot <= s.geo.maxlen
    ensures slot + |tail| <= s.geo.maxlen && tail == s.disk.log[slot..slot + |tail|]
    ensures Skips(tail, s.firstId, s.geo)
    ensures slot + |tail| == s.geo.maxlen || StopsAt(s.disk.log[slot + |tail|], s.firstId)
    decreases s.geo.maxlen - slot
  {
    hide Inv, StaleOnly, Tags;
    if slot == s.geo.maxlen || StopsAt(s.disk.log[slot], s.firstId) {
      tail := [];
    } else {
      HeaderInside(s, log, slot);
      var b := s.disk.log[slot];
      var k := if b[1] == DESCRIPTOR_BLOCK then |Tags(b, HEADER_WORDS, s.geo)| else 0;
      var rest := Walk(s, log, slot + k + 1);
      tail := s.disk.log[slot..slot + k + 1] + rest;
      assert tail[k + 1..] == rest && tail[0] == b;
    }
  }

  /** Nothing is committed yet, and the reader finds nothing that is. */
  lemma RestartCrash(s: State, log: seq<Block>) returns (tail: seq<Block>)
    requires Restarted(s, log)
    ensures LogHolds(s.disk, [], [], tail, s.geo) && Recovers(s, [], 0) && s.acked == 0
  {
    hide Inv, StaleOnly, Skips;
    var geo := s.geo;
    tail := Walk(s, log, geo.first);
    RestartHome(s, log);
    assert s.disk.start == geo.first by { SlotIs(geo, 0); }
    forall v: nat | v <= |tail|
      ensures v < geo.Slots() ==> Adv(geo.first, v, geo) == geo.first + v
    {
      AdvWithinLap(geo.first, v, geo);
    }
  }

  lemma RestartHome(s: State, log: seq<Block>)
    requires Restarted(s, log)
    ensures Recovers(s, [], 0)
  {
    hide SlotAt, LogOk, TailOk, FinishingOk, RoomOk, StaleOnly, CacheOk, WriteAhead;
    assert s.trans[..0] == [];
    forall lba | lba in s.base
      ensures AgreesAt(s.base, [], Overlay(s.disk.home, lba, LastEvent([], lba)), lba)
    {
      assert !Pending(s.pending, lba);
    }
  }

  /** Crash safety, also before the first commit of a session. */
  lemma SoundCrash(s: State) returns (imgs: seq<seq<Block>>, txs: seq<Trans>, tail: seq<Block>, a: nat)
    requires Sound(s)
    ensures LogHolds(s.disk, imgs, txs, tail, s.geo)
    ensures s.acked <= a <= |s.trans| && Recovers(s, txs, a)
    ensures Inv(s) && IntactFrom(s.geo, s.disk.log, s.imgs, s.d) ==> txs == s.trans[s.d..|s.trans|]
    ensures !Inv(s) ==> txs == []
  {
    hide Inv, Restarted, LogHolds, Recovers;
    if Inv(s) {
      imgs, txs, tail, a := CrashSafe(s);
    } else {
      var log :| Restarted(s, log);
      imgs, txs, a := [], [], 0;
      tail := RestartCrash(s, log);
    }
  }

  /** Every orderly step keeps a session sound. */
  lemma SoundStep(s: State, step: Step)
    requires Sound(s) && Enabled(s, step) && Orderly(s, step)
    ensures Sound(Apply(s, step))
  {
    hide Inv, Restarted, Enabled, Orderly, Apply;
    if Inv(s) {
      StepKeeps(s, step);
    } else {
      var log :| Restarted(s, log);
      if step.WriteCommit? {
        RestartCommit(s, log);
      } else {
        var log' := RestartStep(s, log, step);
      }
    }
  }

  // ------------------------------------------------------- the next session

  /** A block of the running commit that would do no harm in the next session. */
  predicate Inside(s: State, j: nat)
    requires s.phase.Logging? && j < |s.phase.img| && s.geo.Valid()
  {
    var b := s.phase.img[j];
    IsHeader(b) && b[1] == DESCRIPTOR_BLOCK ==>
      SlotAt(s.geo, Head(s) + j) + |Tags(b, HEADER_WORDS, s.geo)| < s.geo.maxlen
  }

  /** The id that recovery leaves behind when it reads all transactions from the tail on disk. */
  function LastRead(s: State): nat { s.firstId + s.d + if s.d >= |s.trans| then 0 else |s.trans| - s.d - 1 }

  /** When recovery has found no committed transaction, or no descriptor of the unfinished one has its blocks over
      the end of the log, the next session can start, and only then. */
  lemma NextReady(s: State)
    requires Core(s)
    ensures s.phase.Logging? ==> forall j :: j in s.phase.written ==> j < |s.phase.img|
    ensures LogReady(s.geo, s.disk.log, LastRead(s)) <==>
            s.d == |s.trans| || forall j :: j in Written(s) ==> Inside(s, j)
  {
    hide DataOk, FinishingOk, RoomOk, ImagesOk, IntactFrom, CommitOk, NoFutureHeaders, Pos, SlotAt, Inside, Tags;
    forall j | j in Written(s)
      ensures j < |s.phase.img| && SlotAt(s.geo, Head(s) + j) >= s.geo.first
      ensures var slot := SlotAt(s.geo, Head(s) + j);
        && s.disk.log[slot] == s.phase.img[j]
        && (IsHeader(s.phase.img[j]) ==>
              s.phase.img[j][2] == NextId(s) && (Inside(s, j) <==> Harmless(s.phase.img[j], slot, NextId(s), s.geo)))
    {
      PieceLeft(s, j);
    }
    forall j | j in Written(s) && !IsHeader(s.phase.img[j])
      ensures Inside(s, j)
    {
      NoHeaderInside(s, j);
    }
    forall slot | s.geo.first <= slot < s.geo.maxlen && IsHeader(s.disk.log[slot]) && s.disk.log[slot][2] >= NextId(s)
      ensures exists j: nat :: j in Written(s) && slot == SlotAt(s.geo, Head(s) + j)
    {
      FutureInFlight(s, slot);
    }
  }

  lemma NoHeaderInside(s: State, j: nat)
    requires s.phase.Logging? && j < |s.phase.img| && s.geo.Valid() && !IsHeader(s.phase.img[j])
    ensures Inside(s, j)
  {
  }

  lemma FutureInFlight(s: State, slot: nat)
    requires Core(s) && s.geo.first <= slot < s.geo.maxlen && IsHeader(s.disk.log[slot])
    requires s.disk.log[slot][2] >= NextId(s)
    ensures InFlight(s.geo, Head(s), Written(s), slot)
  {
    hide DataOk, FinishingOk, RoomOk, ImagesOk, IntactFrom, CommitOk, Pos, SlotAt, InFlight;
  }

  lemma PieceLeft(s: State, j: nat)
    requires Core(s) && j in Written(s)
    ensures j < |s.phase.img|
    ensures var slot := SlotAt(s.geo, Head(s) + j);
      && s.disk.log[slot] == s.phase.img[j]
      && (IsHeader(s.phase.img[j]) ==>
            s.phase.img[j][2] == NextId(s) && (Inside(s, j) <==> Harmless(s.phase.img[j], slot, NextId(s), s.geo)))
  {
    hide DataOk, FinishingOk, RoomOk, ImagesOk, IntactFrom, CommitOk, NoFutureHeaders, Pos, SlotAt, Tags;
    CommitBlockIn(s, j);
    CommitDescribes(s);
    ImageHeaders(s.phase.img, NextId(s), s.phase.t, s.geo, j);
  }

  /** After a crash before the first commit the next session has an id of its own. */
  lemma RestartReady(s: State, log: seq<Block>)
    requires Restarted(s, log)
    ensures LastRead(s) == s.firstId
    ensures forall slot :: s.geo.first <= slot < s.geo.maxlen && IsHeader(s.disk.log[slot]) ==>
      s.disk.log[slot][2] <= LastRead(s)
  {
    hide SlotAt, DataOk, TailOk, FinishingOk, RoomOk, ImagesOk, IntactFrom, CommitOk, NoFutureHeaders, Tags;
    var s' := WithLog(s, log);
    forall slot | s.geo.first <= slot < s.geo.maxlen && IsHeader(s.disk.log[slot])
      ensures s.disk.log[slot][2] <= LastRead(s)
    {
      if s.disk.log[slot] == log[slot] && log[slot][2] >= NextId(s') {
        FutureInFlight(s', slot);
        var j: nat :| j in Written(s') && slot == SlotAt(s'.geo, Head(s') + j);
        PieceLeft(s', j);
      }
    }
  }

  lemma RestartWritten(s: State, log: seq<Block>)
    requires Restarted(s, log) && s.phase.Logging?
    ensures forall j :: j in s.phase.written ==> j < |s.phase.img|
  {
    hide SlotAt, DataOk, TailOk, FinishingOk, RoomOk, ImagesOk, IntactFrom, CommitOk, NoFutureHeaders, Tags;
    forall j | j in s.phase.written
      ensures j < |s.phase.img|
    {
      PieceLeft(WithLog(s, log), j);
    }
  }

  lemma InvCore(s: State)
    requires Inv(s)
    ensures Core(s)
  {
  }

  /** Once something is committed the pieces of an earlier session do not matter any more. */
  lemma CommittedCore(s: State)
    requires (Core(s) || Sound(s)) && s.trans != []
    ensures Core(s)
  {
    hide Core, TailOk;
  }

  lemma PendingCore(s: State, lba: nat)
    requires (Core(s) || Sound(s)) && Pending(s.pending, lba)
    ensures Core(s)
  {
    hide LogOk, DataOk, RoomOk, FinishingOk, TailOk, StaleOnly;
    if !Core(s) { SoundShape(s); }
    assert s.trans != [];
    CommittedCore(s);
  }

  /** Between two commits with the superblock up to date nothing depends on what it says. */
  lemma IdleSettled(s: State)
    requires Sound(s) && s.phase.Idle? && !s.mustSync
    ensures Shape(s) && (Head(s) <= Pos(s.imgs, s.d) + s.geo.Slots() || forall lba :: !Pending(s.pending, lba))
  {
    hide LogOk, HomeOk, CacheOk, WriteAhead, FinishingOk, SlotAt, StaleOnly, LagChain, AgreesAt;
    if Inv(s) && s.d != s.dm {
      forall i: nat, lba | i < |s.pending|
        ensures lba !in s.pending[i]
      {
        assert lba in s.pending[i] ==> s.dm <= i;
      }
    }
  }
}
