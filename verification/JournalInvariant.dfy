/** Every step of the journal keeps the invariant. */
module JournalInvariant {
  import opened JournalFormat
  import opened JournalRecovery
  import opened JournalProtocol

  lemma DirtyKeeps(s: State, lba: nat, data: Block)
    requires Core(s) && Enabled(s, Dirty(lba, data))
    ensures Core(Apply(s, Dirty(lba, data))) && (TailOk(s) ==> TailOk(Apply(s, Dirty(lba, data))))
  {
    hide ImagesOk, IntactFrom, NoFutureHeaders, HomeOk, PendingOk, WriteAhead, LagChain, AgreesAt, Pos, Describes;
  }

  lemma FreeKeeps(s: State, lba: nat, revoke: bool)
    requires Core(s) && Enabled(s, Free(lba, revoke))
    ensures Core(Apply(s, Free(lba, revoke))) && (TailOk(s) ==> TailOk(Apply(s, Free(lba, revoke))))
  {
    hide ImagesOk, IntactFrom, NoFutureHeaders, HomeOk, PendingOk, WriteAhead, LagChain, AgreesAt, Pos, Describes;
  }
  lemma BeginKeeps(s: State, t: Trans, img: seq<Block>)
    requires Core(s) && Enabled(s, BeginCommit(t, img))
    ensures Core(Apply(s, BeginCommit(t, img))) && (TailOk(s) ==> TailOk(Apply(s, BeginCommit(t, img))))
  {
    hide ImagesOk, IntactFrom, NoFutureHeaders, HomeOk, PendingOk, WriteAhead, CacheOk, LagChain, AgreesAt, Pos,
         Describes;
  }

  lemma AllocKeeps(s: State)
    requires Core(s) && Enabled(s, Alloc)
    ensures Core(Apply(s, Alloc)) && (TailOk(s) ==> TailOk(Apply(s, Alloc)))
  {
    hide ImagesOk, IntactFrom, NoFutureHeaders, HomeOk, PendingOk, WriteAhead, CacheOk, LagChain, AgreesAt, Pos,
         Describes;
  }

  /** A superblock write mends the tail, however far the superblock was behind. */
  lemma SyncKeeps(s: State)
    requires Core(s)
    ensures Inv(Apply(s, SyncTail))
  {
    hide ImagesOk, IntactFrom, NoFutureHeaders, CommitOk, HomeOk, PendingOk, WriteAhead, CacheOk, LagChain, AgreesAt,
         Pos, Describes;
  }

  lemma AdvanceKeeps(s: State)
    requires Core(s) && Enabled(s, AdvanceTail)
    ensures Core(Apply(s, AdvanceTail)) && (TailOk(s) ==> TailOk(Apply(s, AdvanceTail)))
  {
    hide ImagesOk, NoFutureHeaders, CommitOk, HomeOk, WriteAhead, CacheOk, LagChain, AgreesAt, Pos, Describes,
         InPlace;
    PosMonotone(s.imgs, s.dm, s.dm + 1);
  }

  // ------------------------------------------------------------ log writes

  /** Blocks of the running commit go to slots that hold no committed transaction in the queue. */
  lemma CommitSlotFree(s: State, j: nat, i: nat, k: nat)
    requires Core(s) && s.phase.Logging? && HasRoom(s) && j < s.phase.alloc
    requires s.dm <= i < |s.imgs| && k < |s.imgs[i]|
    ensures SlotAt(s.geo, Head(s) + j) != SlotAt(s.geo, Pos(s.imgs, i) + k)
  {
    hide LogOk, DataOk, FinishingOk, TailOk, SlotAt;
    PosMonotone(s.imgs, s.dm, i);
    PosMonotone(s.imgs, i, |s.imgs|);
    SlotsDiffer(s.geo, Pos(s.imgs, i) + k, Head(s) + j);
  }

  lemma CommitSlotsDiffer(s: State, j: nat, j': nat)
    requires Core(s) && s.phase.Logging? && HasRoom(s) && j < s.phase.alloc && j' < s.phase.alloc && j != j'
    ensures SlotAt(s.geo, Head(s) + j) != SlotAt(s.geo, Head(s) + j')
  {
    hide LogOk, DataOk, FinishingOk, TailOk, SlotAt;
    PosMonotone(s.imgs, s.dm, |s.imgs|);
    if j < j' {
      SlotsDiffer(s.geo, Head(s) + j, Head(s) + j');
    } else {
      SlotsDiffer(s.geo, Head(s) + j', Head(s) + j);
    }
  }

  lemma ImageHeaders(img: seq<Block>, id: nat, t: Trans, geo: Geometry, j: nat)
    requires ImageOf(img, id, t, geo) && j < |img|
    ensures IsHeader(img[j]) ==> img[j][2] == id
    ensures IsHeader(img[j]) && j < |img| - 1 ==> img[j][1] in {DESCRIPTOR_BLOCK, REVOKE_BLOCK}
  {
    hide Body;
    var body := img[..|img| - 1];
    BodyHeaders(body, id, t.writes, t.revokes, geo);
    if j < |img| - 1 { assert body[j] == img[j]; }
  }

  /** Writing one block of the running commit keeps the committed part of the log. */
  lemma LogWriteKeepsQueue(s: State, j: nat, log: seq<Block>)
    requires Core(s) && s.phase.Logging? && HasRoom(s) && j < s.phase.alloc
    requires log == s.disk.log[SlotAt(s.geo, Head(s) + j) := s.phase.img[j]]
    ensures IntactFrom(s.geo, log, s.imgs, s.dm)
    ensures LagChain(s.geo, s.disk.log, s.firstId, s.trans, s.imgs, s.d, s.dm) ==>
            LagChain(s.geo, log, s.firstId, s.trans, s.imgs, s.d, s.dm)
  {
    hide ImagesOk, NoFutureHeaders, DataOk, FinishingOk, TailOk, RoomOk, SlotAt, ImageOf, Describes, BlockWritten;
    forall i: nat, k: nat | s.dm <= i < |s.imgs| && k < |s.imgs[i]|
      ensures InPlace(s.geo, log, s.imgs, i, k)
    {
      CommitSlotFree(s, j, i, k);
      assert InPlace(s.geo, s.disk.log, s.imgs, i, k);
    }
    ImageHeaders(s.phase.img, NextId(s), s.phase.t, s.geo, j);
    forall i: nat, k: nat | s.d <= i < s.dm && k < |s.imgs[i]|
      ensures InPlace(s.geo, s.disk.log, s.imgs, i, k)
           || StopsAt(s.disk.log[SlotAt(s.geo, Pos(s.imgs, i) + k)], s.firstId + i)
           ==> InPlace(s.geo, log, s.imgs, i, k) || StopsAt(log[SlotAt(s.geo, Pos(s.imgs, i) + k)], s.firstId + i)
    {
      if SlotAt(s.geo, Pos(s.imgs, i) + k) == SlotAt(s.geo, Head(s) + j) {
        assert StopsAt(log[SlotAt(s.geo, Pos(s.imgs, i) + k)], s.firstId + i);
      }
    }
  }

  lemma WriteLogKeeps(s: State, j: nat)
    requires Core(s) && Enabled(s, WriteLog(j))
    ensures Core(Apply(s, WriteLog(j))) && (TailOk(s) ==> TailOk(Apply(s, WriteLog(j))))
  {
    hide ImagesOk, HomeOk, PendingOk, CacheOk, WriteAhead, LagChain, AgreesAt, Pos, Describes, ImageOf, SlotAt,
         IntactFrom, CommitOk, NoFutureHeaders;
    var t := Apply(s, WriteLog(j));
    LogWriteKeepsQueue(s, j, t.disk.log);
    WriteLogFuture(s, j);
    WriteLogCommit(s, j);
  }

  lemma WriteLogFuture(s: State, j: nat)
    requires Core(s) && Enabled(s, WriteLog(j))
    ensures var t := Apply(s, WriteLog(j));
      NoFutureHeaders(t.geo, t.disk.log, NextId(t), Head(t), Written(t))
  {
    hide ImagesOk, DataOk, FinishingOk, RoomOk, TailOk, Pos, Describes, ImageOf, SlotAt, IntactFrom, CommitOk;
    var t := Apply(s, WriteLog(j));
    forall slot | s.geo.first <= slot < s.geo.maxlen && IsHeader(t.disk.log[slot])
      ensures t.disk.log[slot][2] < NextId(t) || InFlight(t.geo, Head(t), Written(t), slot)
    {
      if slot == SlotAt(s.geo, Head(s) + j) {
        assert j in Written(t);
      } else if InFlight(s.geo, Head(s), Written(s), slot) {
        var k: nat :| k in Written(s) && slot == SlotAt(s.geo, Head(s) + k);
        assert k in Written(t);
      }
    }
  }

  lemma WriteLogCommit(s: State, j: nat)
    requires Core(s) && Enabled(s, WriteLog(j))
    ensures var t := Apply(s, WriteLog(j));
      CommitOk(t.geo, t.disk.log, NextId(t), Head(t), t.phase, t.open, t.revokes)
  {
    hide ImagesOk, DataOk, FinishingOk, TailOk, Pos, Describes, ImageOf, SlotAt, IntactFrom, NoFutureHeaders;
    var t := Apply(s, WriteLog(j));
    forall k: nat | k in t.phase.written
      ensures BlockWritten(t.geo, t.disk.log, Head(t), t.phase.img, t.phase.alloc, t.phase.written, k)
    {
      if k != j {
        assert BlockWritten(s.geo, s.disk.log, Head(s), s.phase.img, s.phase.alloc, s.phase.written, k);
        CommitSlotsDiffer(s, j, k);
      }
    }
  }

  // --------------------------------------------------------- the commit block

  /** One more transaction at the end of the history. */
  lemma EventSnoc(txs: seq<Trans>, t: Trans, lba: nat)
    ensures LastEvent(txs + [t], lba) == if EventOf(t, lba) != Nothing then EventOf(t, lba) else LastEvent(txs, lba)
  {
    assert (txs + [t])[..|txs + [t]| - 1] == txs;
  }

  lemma EventDescribed(t: Trans, open: map<nat, Block>, revokes: set<nat>, lba: nat)
    requires Describes(t, open, revokes)
    ensures EventOf(t, lba) ==
            if lba in revokes then Revoked else if lba in open then Wrote(open[lba]) else Nothing
  {
  }

  lemma PendingWithout(pending: seq<set<nat>>, lbas: set<nat>, lba: nat)
    ensures Pending(Without(pending, lbas), lba) <==> Pending(pending, lba) && lba !in lbas
  {
    var p := Without(pending, lbas);
    if Pending(pending, lba) && lba !in lbas {
      var i :| 0 <= i < |pending| && lba in pending[i];
      assert lba in p[i];
    }
  }

  lemma WriteCommitKeeps(s: State)
    requires Core(s) && Enabled(s, WriteCommit)
    ensures Core(Apply(s, WriteCommit)) && (TailOk(s) ==> TailOk(Apply(s, WriteCommit)))
  {
    hide LogOk, DataOk, TailOk, Pos, SlotAt, AgreesAt;
    var t := Apply(s, WriteCommit);
    PosPrefix(s.imgs, t.imgs, s.d);
    PosPrefix(s.imgs, t.imgs, s.dm);
    PosPrefix(s.imgs, t.imgs, |s.imgs|);
    HeadGrows(s, t);
    CommitDescribes(s);
    WriteCommitLog(s);
    WriteCommitData(s);
    if TailOk(s) { WriteCommitTail(s); }
  }

  lemma CommitDescribes(s: State)
    requires Core(s) && s.phase.Logging?
    ensures Describes(s.phase.t, s.open, s.revokes) && ImageOf(s.phase.img, NextId(s), s.phase.t, s.geo)
  {
    hide ImageOf, Describes, DataOk, TailOk, ImagesOk, IntactFrom, NoFutureHeaders, BlockWritten;
  }

  lemma HeadGrows(s: State, t: State)
    requires s.phase.Logging? && t.imgs == s.imgs + [s.phase.img]
    ensures Head(t) == Head(s) + |s.phase.img|
  {
    PosPrefix(s.imgs, t.imgs, |s.imgs|);
  }

  lemma WriteCommitLog(s: State)
    requires Core(s) && Enabled(s, WriteCommit)
    ensures Shape(Apply(s, WriteCommit)) ==> LogOk(Apply(s, WriteCommit))
  {
    hide DataOk, TailOk, Pos, SlotAt, ImageOf, Describes, CommitOk, NoFutureHeaders, IntactFrom;
    var t := Apply(s, WriteCommit);
    CommitDescribes(s);
    PosMonotone(s.imgs, s.dm, |s.imgs|);
    if Shape(t) {
      WriteCommitIntact(s);
      WriteCommitFuture(s);
      assert CommitOk(t.geo, t.disk.log, NextId(t), Head(t), t.phase, t.open, t.revokes) by { NoCommitRuns(t); }
    }
  }

  lemma NoCommitRuns(s: State)
    requires Shape(s) && !s.phase.Logging?
    ensures CommitOk(s.geo, s.disk.log, NextId(s), Head(s), s.phase, s.open, s.revokes)
  {
  }

  lemma CommitBlockIn(s: State, j: nat)
    requires Core(s) && s.phase.Logging? && j in s.phase.written
    ensures BlockWritten(s.geo, s.disk.log, Head(s), s.phase.img, s.phase.alloc, s.phase.written, j)
  {
    hide ImageOf, Describes, DataOk, TailOk, ImagesOk, IntactFrom, NoFutureHeaders, BlockWritten, Pos;
  }

  lemma WriteCommitIntact(s: State)
    requires Core(s) && Enabled(s, WriteCommit) && Shape(Apply(s, WriteCommit))
    ensures var t := Apply(s, WriteCommit); IntactFrom(t.geo, t.disk.log, t.imgs, t.dm)
  {
    hide LogOk, DataOk, TailOk, SlotAt, FinishingOk, RoomOk;
    var t := Apply(s, WriteCommit);
    var n := |s.phase.img|;
    LogWriteKeepsQueue(s, n - 1, t.disk.log);
    forall i: nat, k: nat | t.dm <= i < |t.imgs| && k < |t.imgs[i]|
      ensures InPlace(t.geo, t.disk.log, t.imgs, i, k)
    {
      PosPrefix(s.imgs, t.imgs, i);
      if i < |s.imgs| {
        assert InPlace(s.geo, t.disk.log, s.imgs, i, k);
      } else if k < n - 1 {
        CommitBlockIn(s, k);
        CommitSlotsDiffer(s, k, n - 1);
      }
    }
  }

  lemma WriteCommitFuture(s: State)
    requires Core(s) && Enabled(s, WriteCommit) && Shape(Apply(s, WriteCommit))
    ensures var t := Apply(s, WriteCommit); NoFutureHeaders(t.geo, t.disk.log, NextId(t), Head(t), Written(t))
  {
    hide DataOk, TailOk, SlotAt, FinishingOk, RoomOk, CommitOk, ImageOf, IntactFrom, ImagesOk, Pos, Describes;
    var t := Apply(s, WriteCommit);
    var n := |s.phase.img|;
    CommitDescribes(s);
    forall slot | s.geo.first <= slot < s.geo.maxlen && IsHeader(t.disk.log[slot])
      ensures t.disk.log[slot][2] < NextId(t)
    {
      if slot == SlotAt(s.geo, Head(s) + n - 1) {
        ImageHeaders(s.phase.img, NextId(s), s.phase.t, s.geo, n - 1);
      } else if InFlight(s.geo, Head(s), Written(s), slot) {
        var k: nat :| k in Written(s) && slot == SlotAt(s.geo, Head(s) + k);
        CommitBlockIn(s, k);
        ImageHeaders(s.phase.img, NextId(s), s.phase.t, s.geo, k);
      }
    }
  }

  lemma WriteCommitData(s: State)
    requires Core(s) && Enabled(s, WriteCommit)
    ensures Shape(Apply(s, WriteCommit)) ==> DataOk(Apply(s, WriteCommit))
  {
    hide LogOk, TailOk, FinishingOk, RoomOk, Pos, SlotAt, Describes, EventOf, LastEvent, AgreesAt, PendingAt,
         Committed;
    var t := Apply(s, WriteCommit);
    if Shape(t) {
      CommitDescribes(s);
      forall lba | lba in s.base && !Pending(t.pending, lba)
        ensures AgreesAt(t.base, t.trans, t.disk.home, lba)
      {
        AgreesAfterCommit(s, t, lba);
      }
      forall i: nat, lba | i < |t.pending| && lba in t.pending[i]
        ensures PendingAt(t.base, t.trans, t.pending, t.dm, i, lba)
      {
        PendingAfterCommit(s, t, i, lba);
      }
      forall lba | lba in t.cache
        ensures LastEvent(t.trans, lba) == Wrote(t.cache[lba])
      {
        EventDescribed(s.phase.t, s.open, s.revokes, lba);
        EventSnoc(s.trans, s.phase.t, lba);
      }
      forall lba | lba in t.disk.home && Committed(s.trans, lba, t.disk.home[lba])
        ensures Committed(t.trans, lba, t.disk.home[lba])
      {
        CommittedMonotone(s.trans, s.phase.t, lba, t.disk.home[lba]);
      }
    }
  }

  lemma CommittedMonotone(txs: seq<Trans>, t: Trans, lba: nat, data: Block)
    requires Committed(txs, lba, data)
    ensures Committed(txs + [t], lba, data)
  {
    var i :| 0 <= i < |txs| && LastWrite(txs[i].writes, lba) == Wrote(data);
    assert (txs + [t])[i] == txs[i];
  }

  lemma AgreesAfterCommit(s: State, t: State, lba: nat)
    requires Core(s) && Enabled(s, WriteCommit) && t == Apply(s, WriteCommit)
    requires lba in s.base && !Pending(t.pending, lba)
    ensures AgreesAt(t.base, t.trans, t.disk.home, lba)
  {
    hide LogOk, TailOk, FinishingOk, RoomOk, Pos, SlotAt, Describes, EventOf, LastEvent, PendingOk, CacheOk,
         WriteAhead;
    CommitDescribes(s);
    EventDescribed(s.phase.t, s.open, s.revokes, lba);
    EventSnoc(s.trans, s.phase.t, lba);
    PendingWithout(s.pending, s.revokes, lba);
    var p := Without(s.pending, s.revokes);
    assert t.pending[|p|] == s.open.Keys;
    assert forall i :: 0 <= i < |p| ==> t.pending[i] == p[i];
  }

  lemma PendingAfterCommit(s: State, t: State, i: nat, lba: nat)
    requires Core(s) && Enabled(s, WriteCommit) && t == Apply(s, WriteCommit)
    requires i < |t.pending| && lba in t.pending[i]
    ensures |t.pending| == |t.trans| && PendingAt(t.base, t.trans, t.pending, t.dm, i, lba)
  {
    hide LogOk, TailOk, FinishingOk, RoomOk, Pos, SlotAt, EventOf, LastEvent, HomeOk, WriteAhead;
    CommitDescribes(s);
    EventDescribed(s.phase.t, s.open, s.revokes, lba);
    EventSnoc(s.trans, s.phase.t, lba);
    if i < |s.pending| {
      assert PendingAt(s.base, s.trans, s.pending, s.dm, i, lba);
    }
  }

  lemma WriteCommitTail(s: State)
    requires Inv(s) && Enabled(s, WriteCommit)
    ensures Shape(Apply(s, WriteCommit)) ==> TailOk(Apply(s, WriteCommit))
  {
    hide LogOk, DataOk, FinishingOk, RoomOk, Pos, SlotAt, AgreesAt, IntactFrom;
    var t := Apply(s, WriteCommit);
    if Shape(t) && s.d != s.dm {
      assert PureLag(s);
      LogWriteKeepsQueue(s, |s.phase.img| - 1, t.disk.log);
      assert s.trans[..|s.trans|] == s.trans && t.trans[..|s.trans|] == s.trans;
      forall i: nat, k: nat | t.d <= i < t.dm && k < |t.imgs[i]|
        ensures InPlace(t.geo, t.disk.log, t.imgs, i, k)
             || StopsAt(t.disk.log[SlotAt(t.geo, Pos(t.imgs, i) + k)], t.firstId + i)
      {
        PosPrefix(s.imgs, t.imgs, i);
        assert InPlace(s.geo, t.disk.log, s.imgs, i, k)
             || StopsAt(t.disk.log[SlotAt(s.geo, Pos(s.imgs, i) + k)], s.firstId + i);
      }
    }
  }

  // ------------------------------------------------------ return of the commit

  lemma FinishKeeps(s: State)
    requires Core(s) && Enabled(s, FinishCommit)
    ensures Core(Apply(s, FinishCommit)) && (TailOk(s) ==> TailOk(Apply(s, FinishCommit)))
  {
    hide LogOk, DataOk, TailOk, Pos, SlotAt, AgreesAt;
    var t := Apply(s, FinishCommit);
    PosMonotone(s.imgs, s.dm, t.dm);
    FinishLog(s);
    FinishData(s);
    FinishTail(s);
  }

  lemma FinishLog(s: State)
    requires Core(s) && Enabled(s, FinishCommit)
    ensures LogOk(Apply(s, FinishCommit))
  {
    hide DataOk, TailOk, Pos, SlotAt, ImagesOk, NoFutureHeaders, InPlace, Describes;
  }

  lemma FinishData(s: State)
    requires Core(s) && Enabled(s, FinishCommit)
    ensures DataOk(Apply(s, FinishCommit))
  {
    hide LogOk, TailOk, RoomOk, Pos, SlotAt, Describes, EventOf, LastEvent, WriteAhead, HomeOk;
    var t := Apply(s, FinishCommit);
    var n := |s.trans|;
    assert s.trans == s.trans[..n - 1] + [s.trans[n - 1]];
    forall lba | lba in s.open
      ensures LastEvent(t.trans, lba) == Wrote(s.open[lba])
    {
      EventDescribed(s.trans[n - 1], s.open, s.revokes, lba);
      EventSnoc(s.trans[..n - 1], s.trans[n - 1], lba);
    }
    if t.dm == n {
      NothingOpen(s.trans[n - 1], s.open, s.revokes);
      NothingPending(s);
    }
  }

  /** With the tail at the running commit and nothing open no checkpoint write is outstanding. */
  lemma NothingPending(s: State)
    requires Core(s) && s.phase.Finishing? && s.dm == |s.trans| - 1 && s.open == map[]
    ensures forall i: nat :: i < |s.pending| ==> s.pending[i] == {}
  {
    hide LogOk, TailOk, RoomOk, Describes, LastEvent, HomeOk, CacheOk, WriteAhead;
    forall i: nat, lba | i < |s.pending|
      ensures lba !in s.pending[i]
    {
      assert lba in s.pending[i] ==> s.dm <= i;
    }
  }

  lemma NothingOpen(t: Trans, open: map<nat, Block>, revokes: set<nat>)
    requires Describes(t, open, revokes) && t.writes == []
    ensures open == map[]
  {
    forall lba
      ensures lba !in open
    {
      assert LastWrite(t.writes, lba) == Nothing;
    }
  }

  lemma FinishTail(s: State)
    requires Core(s) && Enabled(s, FinishCommit)
    ensures TailOk(s) ==> TailOk(Apply(s, FinishCommit))
  {
    hide RoomOk, Pos, SlotAt, Describes, CommitOk, NoFutureHeaders, ImagesOk, CacheOk, WriteAhead, AgreesAt, InPlace,
         StopsAt;
    var t := Apply(s, FinishCommit);
    var n := |s.trans|;
    if t.dm == n {
      assert t.trans[..n] == t.trans;
      NothingOpen(s.trans[n - 1], s.open, s.revokes);
      NothingPending(s);
    }
  }

  // ----------------------------------------------------------- home writes

  lemma EventCommitted(txs: seq<Trans>, lba: nat)
    requires LastEvent(txs, lba).Wrote?
    ensures Committed(txs, lba, LastEvent(txs, lba).data)
  {
    var i := LastIsDecided(txs, lba);
  }

  lemma FlushCachedKeeps(s: State, lba: nat)
    requires Core(s) && Enabled(s, FlushCached(lba))
    ensures Core(Apply(s, FlushCached(lba))) && (TailOk(s) ==> TailOk(Apply(s, FlushCached(lba))))
  {
    hide LogOk, DataOk, TailOk, Pos, SlotAt, AgreesAt, Describes;
    var t := Apply(s, FlushCached(lba));
    FlushCachedLog(s, lba);
    FlushCachedData(s, lba);
    if TailOk(s) { FlushCachedTail(s, lba); }
    CachedNotOpen(s, lba);
    if s.phase.Finishing? {
      assert t.pending[|t.trans| - 1] == s.open.Keys - {lba};
    }
  }

  lemma CachedNotOpen(s: State, lba: nat)
    requires Core(s) && lba in s.cache
    ensures lba !in s.open && lba !in s.revokes && lba in s.base && LastEvent(s.trans, lba) == Wrote(s.cache[lba])
  {
    hide LogOk, TailOk, HomeOk, PendingOk, WriteAhead, LastEvent;
  }

  lemma FlushCachedLog(s: State, lba: nat)
    requires Core(s) && Enabled(s, FlushCached(lba))
    ensures LogOk(Apply(s, FlushCached(lba)))
  {
    hide DataOk, TailOk, Pos, SlotAt, ImagesOk, NoFutureHeaders, IntactFrom, Describes;
  }

  lemma FlushCachedData(s: State, lba: nat)
    requires Core(s) && Enabled(s, FlushCached(lba))
    ensures DataOk(Apply(s, FlushCached(lba)))
  {
    hide LogOk, TailOk, RoomOk, FinishingOk, Pos, LastEvent, Committed, Pending;
    var t := Apply(s, FlushCached(lba));
    EventCommitted(s.trans, lba);
    forall x | x in s.base && !Pending(t.pending, x)
      ensures AgreesAt(t.base, t.trans, t.disk.home, x)
    {
      PendingWithout(s.pending, {lba}, x);
      if x != lba { assert AgreesAt(s.base, s.trans, s.disk.home, x); }
    }
    forall i: nat, x | i < |t.pending| && x in t.pending[i]
      ensures PendingAt(t.base, t.trans, t.pending, t.dm, i, x)
    {
      assert PendingAt(s.base, s.trans, s.pending, s.dm, i, x);
    }
  }

  lemma FlushCachedTail(s: State, lba: nat)
    requires Inv(s) && Enabled(s, FlushCached(lba))
    ensures TailOk(Apply(s, FlushCached(lba)))
  {
    hide LogOk, DataOk, RoomOk, Pos, LastEvent, EventOf, LagChain, IntactFrom, Describes;
    var t := Apply(s, FlushCached(lba));
    CachedNotOpen(s, lba);
    if PureLag(s) {
      var q := QueueEnd(s);
      if s.phase.Finishing? {
        EventDescribed(s.trans[q], s.open, s.revokes, lba);
        assert s.trans == s.trans[..q] + [s.trans[q]];
        EventSnoc(s.trans[..q], s.trans[q], lba);
      } else {
        assert s.trans[..q] == s.trans;
      }
      forall x | x in t.base
        ensures AgreesAt(t.base, t.trans[..q], t.disk.home, x)
      {
        assert AgreesAt(s.base, s.trans[..q], s.disk.home, x);
      }
      assert PureLag(t);
    }
  }

  lemma FlushLogCopyKeeps(s: State, lba: nat)
    requires Core(s) && Enabled(s, FlushLogCopy(lba)) && Orderly(s, FlushLogCopy(lba))
    ensures Core(Apply(s, FlushLogCopy(lba))) && (TailOk(s) ==> TailOk(Apply(s, FlushLogCopy(lba))))
  {
    hide LogOk, DataOk, Pos, SlotAt, AgreesAt, Describes, IntactFrom, LagChain;
    FlushLogCopyLog(s, lba);
    FlushLogCopyData(s, lba);
  }

  lemma FlushLogCopyLog(s: State, lba: nat)
    requires Core(s) && Enabled(s, FlushLogCopy(lba))
    ensures LogOk(Apply(s, FlushLogCopy(lba)))
  {
    hide DataOk, TailOk, Pos, SlotAt, ImagesOk, NoFutureHeaders, IntactFrom, Describes;
  }

  lemma OldestPending(s: State, lba: nat)
    requires Core(s) && s.dm < |s.trans| && lba in s.pending[s.dm]
    ensures PendingAt(s.base, s.trans, s.pending, s.dm, s.dm, lba)
  {
    hide LogOk, TailOk, HomeOk, CacheOk, WriteAhead, PendingAt;
  }

  lemma FlushLogCopyData(s: State, lba: nat)
    requires Core(s) && Enabled(s, FlushLogCopy(lba)) && Orderly(s, FlushLogCopy(lba))
    ensures DataOk(Apply(s, FlushLogCopy(lba)))
  {
    hide LogOk, TailOk, RoomOk, FinishingOk, Pos, LastEvent, PendingAt, AgreesAt, LastWrite;
    var t := Apply(s, FlushLogCopy(lba));
    FlushLogCopyHome(s, lba);
    forall i: nat, x | i < |t.pending| && x in t.pending[i]
      ensures PendingAt(t.base, t.trans, t.pending, t.dm, i, x)
    {
      FlushLogCopyPending(s, lba, i, x);
    }
  }

  lemma FlushLogCopyPending(s: State, lba: nat, i: nat, x: nat)
    requires Core(s) && Enabled(s, FlushLogCopy(lba))
    requires var t := Apply(s, FlushLogCopy(lba)); i < |t.pending| && x in t.pending[i]
    ensures var t := Apply(s, FlushLogCopy(lba)); PendingAt(t.base, t.trans, t.pending, t.dm, i, x)
  {
    hide LogOk, TailOk, RoomOk, FinishingOk, Pos, LastEvent, HomeOk, CacheOk, WriteAhead;
    assert PendingAt(s.base, s.trans, s.pending, s.dm, i, x);
  }

  lemma FlushLogCopyHome(s: State, lba: nat)
    requires Core(s) && Enabled(s, FlushLogCopy(lba)) && Orderly(s, FlushLogCopy(lba))
    ensures var t := Apply(s, FlushLogCopy(lba));
      HomeOk(t.base, t.disk.home, t.trans, t.pending) && WriteAhead(t.base, t.disk.home, t.trans)
  {
    hide LogOk, TailOk, RoomOk, FinishingOk, Pos, LastEvent, Pending, PendingOk, CacheOk;
    var t := Apply(s, FlushLogCopy(lba));
    OldestPending(s, lba);
    assert LastWrite(s.trans[s.dm].writes, lba) == Wrote(t.disk.home[lba]);
    forall x | x in s.base && !Pending(t.pending, x)
      ensures AgreesAt(t.base, t.trans, t.disk.home, x)
    {
      if x == lba {
        LastVersionFlushed(s, lba, t.pending);
      } else {
        PendingElsewhere(s.pending, s.dm, lba, x);
        assert AgreesAt(s.base, s.trans, s.disk.home, x);
      }
    }
  }

  lemma PendingElsewhere(pending: seq<set<nat>>, k: nat, lba: nat, x: nat)
    requires k < |pending| && x != lba
    ensures Pending(pending[k := pending[k] - {lba}], x) == Pending(pending, x)
  {
    var p := pending[k := pending[k] - {lba}];
    if Pending(pending, x) {
      var i :| 0 <= i < |pending| && x in pending[i];
      assert x in p[i];
    }
  }

  /** When the oldest outstanding write was the only one, it was also the newest version. */
  lemma LastVersionFlushed(s: State, lba: nat, pending: seq<set<nat>>)
    requires Core(s) && s.dm < |s.trans| && lba in s.pending[s.dm]
    requires pending == s.pending[s.dm := s.pending[s.dm] - {lba}] && !Pending(pending, lba)
    ensures LastEvent(s.trans, lba) == LastWrite(s.trans[s.dm].writes, lba)
  {
    hide LogOk, DataOk, TailOk, RoomOk, FinishingOk, LastEvent;
    OldestPending(s, lba);
    var i := LastIsDecided(s.trans, lba);
    assert forall k: nat :: k < |pending| && k != s.dm && lba in s.pending[k] ==> lba in pending[k];
  }

  lemma AbortKeeps(s: State)
    requires Core(s) && Enabled(s, Abort) && Orderly(s, Abort)
    ensures Core(Apply(s, Abort)) && (TailOk(s) ==> TailOk(Apply(s, Abort)))
  {
    hide LogOk, Pos, SlotAt, AgreesAt, Describes, IntactFrom, LagChain, HomeOk, WriteAhead, LastEvent;
    var t := Apply(s, Abort);
    AbortLog(s);
    forall lba | lba in s.touched && Pending(s.pending, lba)
      ensures lba in s.base && LastEvent(t.trans, lba) == Wrote(NewestCopy(s, lba))
    {
      var i: nat :| i < |s.pending| && lba in s.pending[i];
      assert PendingAt(s.base, s.trans, s.pending, s.dm, i, lba);
    }
  }

  lemma AbortLog(s: State)
    requires Core(s) && Enabled(s, Abort)
    ensures LogOk(Apply(s, Abort))
  {
    hide DataOk, TailOk, Pos, SlotAt, ImagesOk, NoFutureHeaders, IntactFrom, Describes;
  }

  /** The purge without a superblock write keeps everything but the tail on disk. */
  lemma PurgeKeeps(s: State)
    requires Core(s) && Enabled(s, PurgeUnsynced)
    ensures Core(Apply(s, PurgeUnsynced))
  {
    hide ImagesOk, NoFutureHeaders, CommitOk, HomeOk, WriteAhead, CacheOk, LagChain, AgreesAt, Pos, Describes,
         InPlace;
    PosMonotone(s.imgs, s.dm, s.dm + 1);
  }

  /** Every orderly step, and the purge without a superblock write, keeps what does not depend on the tail in
      the superblock on disk; an orderly step keeps the tail right, too. */
  lemma StepKeepsCore(s: State, step: Step)
    requires Core(s) && Enabled(s, step) && Steady(s, step)
    ensures Core(Apply(s, step))
    ensures Orderly(s, step) && TailOk(s) ==> TailOk(Apply(s, step))
  {
    hide Core, TailOk, Apply, Enabled;
    CoreShape(s);
    match step
    case Dirty(lba, data) => DirtyKeeps(s, lba, data);
    case Free(lba, revoke) => FreeKeeps(s, lba, revoke);
    case Abort => AbortKeeps(s);
    case BeginCommit(t, img) => BeginKeeps(s, t, img);
    case Alloc => AllocKeeps(s);
    case WriteLog(j) => WriteLogKeeps(s, j);
    case WriteCommit => WriteCommitKeeps(s);
    case FinishCommit => FinishKeeps(s);
    case FlushCached(lba) => FlushCachedKeeps(s, lba);
    case FlushLogCopy(lba) => FlushLogCopyKeeps(s, lba);
    case AdvanceTail => AdvanceKeeps(s);
    case SyncTail => SyncKeeps(s);
    case PurgeUnsynced => PurgeKeeps(s);
  }

  lemma CoreShape(s: State)
    requires Core(s)
    ensures Shape(s)
  {
  }

  /** Every orderly step keeps the invariant. */
  lemma StepKeeps(s: State, step: Step)
    requires Inv(s) && Enabled(s, step) && Orderly(s, step)
    ensures Inv(Apply(s, step))
  {
    hide Core, TailOk;
    StepKeepsCore(s, step);
  }
}
