/** Results about whole runs of the journal: crash recovery, interrupted recovery, the write-ahead
    rule, abort, and the one purge that can lose commits. */
module JournalTheorems {
  import opened JournalFormat
  import opened JournalRecovery
  import opened JournalProtocol
  import opened JournalInvariant
  import opened JournalCrash
  import opened JournalRestart

  // ------------------------------------------------------------------- runs

  /** Steps that can be taken one after the other from s. */
  ghost predicate Path(s: State, steps: seq<Step>)
    decreases |steps|
  {
    steps != [] ==> Shape(s) && Enabled(s, steps[0]) && Path(Apply(s, steps[0]), steps[1..])
  }

  function End(s: State, steps: seq<Step>): State
    requires Path(s, steps)
    decreases |steps|
  {
    if steps == [] then s else End(Apply(s, steps[0]), steps[1..])
  }

  ghost predicate OrderlyPath(s: State, steps: seq<Step>)
    requires Path(s, steps)
    decreases |steps|
  {
    steps != [] ==> Orderly(s, steps[0]) && OrderlyPath(Apply(s, steps[0]), steps[1..])
  }

  /** A run whose only disorder are purges without a superblock write. */
  ghost predicate SteadyPath(s: State, steps: seq<Step>)
    requires Path(s, steps)
    decreases |steps|
  {
    steps != [] ==> Steady(s, steps[0]) && SteadyPath(Apply(s, steps[0]), steps[1..])
  }

  lemma {:induction false} RunKeepsCore(s: State, steps: seq<Step>)
    requires Core(s) && Path(s, steps) && SteadyPath(s, steps)
    ensures Core(End(s, steps))
    decreases |steps|
  {
    hide Core, Steady, Enabled, Orderly;
    if steps != [] {
      StepKeepsCore(s, steps[0]);
      RunKeepsCore(Apply(s, steps[0]), steps[1..]);
    }
  }

  /** Every state of every orderly run satisfies the invariant. */
  lemma {:induction false} RunKeeps(s: State, steps: seq<Step>)
    requires Inv(s) && Path(s, steps) && OrderlyPath(s, steps)
    ensures Inv(End(s, steps))
    decreases |steps|
  {
    hide LogOk, RoomOk, DataOk, FinishingOk, TailOk, Orderly, Enabled;
    if steps != [] {
      StepKeeps(s, steps[0]);
      RunKeeps(Apply(s, steps[0]), steps[1..]);
    }
  }

  lemma NoSteps(s: State)
    ensures Path(s, []) && OrderlyPath(s, []) && End(s, []) == s
  {
  }

  /** Two runs one after the other. */
  lemma {:induction false} PathAppend(s: State, a: seq<Step>, b: seq<Step>)
    requires Path(s, a) && Path(End(s, a), b)
    ensures Path(s, a + b) && End(s, a + b) == End(End(s, a), b)
    ensures OrderlyPath(s, a) && OrderlyPath(End(s, a), b) ==> OrderlyPath(s, a + b)
    ensures SteadyPath(s, a) && SteadyPath(End(s, a), b) ==> SteadyPath(s, a + b)
    decreases |a|
  {
    hide Shape, Enabled, Apply, Orderly, Steady;
    if a == [] {
      assert a + b == b;
    } else {
      PathAppend(Apply(s, a[0]), a[1..], b);
      assert (a + b)[1..] == a[1..] + b;
    }
  }

  /** jbd_journal_start: an empty log whose first id is one more than the last one used. */
  function Start(geo: Geometry, home: map<nat, Block>, log: seq<Block>, sequence: nat): State {
    State(geo, Disk(home, log, geo.first, sequence + 1), home, sequence + 1, [], [], [], 0, 0, false, 0, Idle,
          map[], map[], {}, {})
  }

  /** A session is in order over any old log content without headers of ids that it will use, and sound exactly if
      those with its first id are harmless pieces of an unfinished transaction. */
  lemma StartOk(geo: Geometry, home: map<nat, Block>, log: seq<Block>, sequence: nat)
    requires geo.Valid() && |log| == geo.maxlen
    ensures (forall slot :: geo.first <= slot < geo.maxlen && IsHeader(log[slot]) ==> log[slot][2] <= sequence)
      ==> Inv(Start(geo, home, log, sequence))
    ensures Sound(Start(geo, home, log, sequence)) <==> LogReady(geo, log, sequence)
  {
    hide LogReady, Restarted, Inv, Start;
    if forall slot :: geo.first <= slot < geo.maxlen && IsHeader(log[slot]) ==> log[slot][2] <= sequence {
      StartClean(geo, home, log, sequence);
    }
    if LogReady(geo, log, sequence) { StartReady(geo, home, log, sequence); }
    if Sound(Start(geo, home, log, sequence)) { SoundReady(geo, home, log, sequence); }
  }

  lemma StartClean(geo: Geometry, home: map<nat, Block>, log: seq<Block>, sequence: nat)
    requires geo.Valid() && |log| == geo.maxlen
    requires forall slot :: geo.first <= slot < geo.maxlen && IsHeader(log[slot]) ==> log[slot][2] <= sequence
    ensures Inv(Start(geo, home, log, sequence))
  {
    var s := Start(geo, home, log, sequence);
    assert Pos(s.imgs, 0) == 0 && SlotAt(geo, 0) == geo.first;
    assert IntactFrom(geo, log, s.imgs, 0);
    assert forall lba :: LastEvent(s.trans, lba) == Nothing;
  }

  lemma StartReady(geo: Geometry, home: map<nat, Block>, log: seq<Block>, sequence: nat)
    requires geo.Valid() && |log| == geo.maxlen && LogReady(geo, log, sequence)
    ensures Sound(Start(geo, home, log, sequence))
  {
    hide Inv, Tags;
    var s := Start(geo, home, log, sequence);
    var clean := seq(|log|, i requires 0 <= i < |log| =>
      if IsHeader(log[i]) && log[i][2] == sequence + 1 then [] else log[i]);
    StartClean(geo, home, clean, sequence);
    assert WithLog(s, clean) == Start(geo, home, clean, sequence);
    assert Restarted(s, clean);
  }

  lemma SoundReady(geo: Geometry, home: map<nat, Block>, log: seq<Block>, sequence: nat)
    requires geo.Valid() && |log| == geo.maxlen && Sound(Start(geo, home, log, sequence))
    ensures LogReady(geo, log, sequence)
  {
    hide Harmless, TailOk, DataOk, FinishingOk, ImagesOk, IntactFrom, CommitOk, SlotAt;
    var s := Start(geo, home, log, sequence);
    if !Inv(s) {
      var old' :| Restarted(s, old');
      assert NoFutureHeaders(geo, old', sequence + 1, 0, {});
    }
  }

  /** Every state of every orderly run of a sound session is sound. */
  lemma {:induction false} RunSound(s: State, steps: seq<Step>)
    requires Sound(s) && Path(s, steps) && OrderlyPath(s, steps)
    ensures Sound(End(s, steps))
    decreases |steps|
  {
    hide Sound, Orderly, Enabled;
    if steps != [] {
      SoundStep(s, steps[0]);
      RunSound(Apply(s, steps[0]), steps[1..]);
    }
  }

  /** Crash after any run of a session, then mount: the home blocks agree with a prefix of the
      committed transactions that contains every commit that had returned. */
  method CrashAndRecover(disk: Disk, geo: Geometry, ghost s: State, ghost steps: seq<Step>)
    returns (disk': Disk, ghost a: nat)
    requires Sound(s) && Path(s, steps) && OrderlyPath(s, steps)
    requires disk == End(s, steps).disk && geo == End(s, steps).geo
    ensures disk'.start == 0 && disk'.log == disk.log
    ensures var t := End(s, steps);
      && t.acked <= a <= |t.trans|
      && (forall lba :: lba in t.base ==> AgreesAt(t.base, t.trans[..a], disk'.home, lba))
      && Shape(t) && (AllThere(t) ==> disk'.sequence == LastRead(t))
  {
    hide LogHolds, AgreesAt, Overlay, Sound, Inv, Core, IntactFrom;
    RunSound(s, steps);
    ghost var t := End(s, steps);
    SoundShape(t);
    ghost var imgs, txs, tail;
    imgs, txs, tail, a := SoundCrash(t);
    assert disk.start >= geo.first > 0;
    var ok;
    ok, disk' := RecoverJournal(disk, geo, imgs, txs, tail);
    forall lba | lba in t.base
      ensures AgreesAt(t.base, t.trans[..a], disk'.home, lba)
    {
      AgreesSame(t.base, t.trans[..a], Overlay(disk.home, lba, LastEvent(txs, lba)), disk'.home, lba);
    }
    if !Inv(t) { NothingCommitted(t); }
  }

  /** The transactions behind the tail named on disk are in place, or there are none yet. */
  ghost predicate AllThere(s: State)
    requires Shape(s)
  {
    IntactFrom(s.geo, s.disk.log, s.imgs, s.d)
  }

  lemma NothingCommitted(s: State)
    requires Sound(s) && !Inv(s)
    ensures Shape(s) && s.trans == [] && s.d == 0 && AllThere(s)
  {
    hide Inv, StaleOnly;
  }

  /** The session that jbd_journal_start begins after a crash and recovery is sound, so that all this holds again,
      if and only if recovery has found nothing committed or no descriptor of the transaction that the crash cut off
      has its blocks over the end of the log. */
  lemma NextSession(s: State, home: map<nat, Block>)
    requires Sound(s) && Shape(s) && AllThere(s)
    ensures s.phase.Logging? ==> forall j :: j in s.phase.written ==> j < |s.phase.img|
    ensures Sound(Start(s.geo, home, s.disk.log, LastRead(s))) <==>
            s.d == |s.trans| || forall j :: j in Written(s) ==> Inside(s, j)
  {
    hide Inv, Restarted, LogReady, Inside;
    StartOk(s.geo, home, s.disk.log, LastRead(s));
    if Inv(s) {
      InvCore(s);
      NextReady(s);
    } else {
      NothingCommitted(s);
      var log :| Restarted(s, log);
      RestartReady(s, log);
      if s.phase.Logging? { RestartWritten(s, log); }
    }
  }

  lemma AgreesSame(base: map<nat, Block>, txs: seq<Trans>, h: map<nat, Block>, h': map<nat, Block>, lba: nat)
    requires AgreesAt(base, txs, h, lba) && SameAt(h', h, lba)
    ensures AgreesAt(base, txs, h', lba)
  {
  }

  // --------------------------------------------------- interrupted recovery

  /** The home blocks at some point of the third pass. */
  function MidReplay(home: map<nat, Block>, txs: seq<Trans>, id: nat, k: nat, j: nat): map<nat, Block>
    requires k < |txs| && j <= |txs[k].writes|
  {
    ReplayWrites(ReplayAll(home, txs[..k], id, RevokeTable(txs, id)), txs[k].writes[..j], id + k, RevokeTable(txs, id))
  }

  lemma {:induction false} UntouchedPrefix(home: map<nat, Block>, txs: seq<Trans>, id: nat, k: nat, lba: nat)
    requires k <= |txs| && !LastEvent(txs, lba).Wrote?
    ensures SameAt(ReplayAll(home, txs[..k], id, RevokeTable(txs, id)), home, lba)
    decreases k
  {
    if k > 0 {
      UntouchedPrefix(home, txs, id, k - 1, lba);
      assert txs[..k][..k - 1] == txs[..k - 1];
      UntouchedWrites(ReplayAll(home, txs[..k - 1], id, RevokeTable(txs, id)), txs, id, k - 1, |txs[k - 1].writes|,
      lba);
      assert txs[k - 1].writes[..|txs[k - 1].writes|] == txs[k - 1].writes;
    }
  }

  /** A block whose history does not end in a write is not written by the third pass. */
  lemma UntouchedWrites(home: map<nat, Block>, txs: seq<Trans>, id: nat, k: nat, j: nat, lba: nat)
    requires k < |txs| && j <= |txs[k].writes| && !LastEvent(txs, lba).Wrote?
    ensures SameAt(ReplayWrites(home, txs[k].writes[..j], id + k, RevokeTable(txs, id)), home, lba)
  {
    hide ReplayWrites, LastEvent, LastWrite;
    ReplayWritesAt(home, txs[k].writes[..j], id + k, RevokeTable(txs, id), lba);
    var e := LastWrite(txs[k].writes[..j], lba);
    LastWriteOnly(txs[k].writes[..j], lba);
    if e != Nothing {
      var i :| 0 <= i < j && txs[k].writes[..j][i].lba == lba;
      LastWriteOnly(txs[k].writes, lba);
      assert txs[k].writes[i].lba == lba;
      RevokedAfter(txs, k, lba);
      var r :| k <= r < |txs| && lba in txs[r].revokes;
      SuppressedBefore(txs, r, k, id, lba);
    }
  }

  /** A write that is not the last word was followed by a revoke. */
  lemma {:induction false} RevokedAfter(txs: seq<Trans>, k: nat, lba: nat)
    requires k < |txs| && LastWrite(txs[k].writes, lba) != Nothing && !LastEvent(txs, lba).Wrote?
    ensures exists r :: k <= r < |txs| && lba in txs[r].revokes
    decreases |txs|
  {
    var n := |txs| - 1;
    LastWriteOnly(txs[n].writes, lba);
    LastWriteOnly(txs[k].writes, lba);
    if lba !in txs[n].revokes {
      RevokedAfter(txs[..n], k, lba);
      var r :| k <= r < n && lba in txs[..n][r].revokes;
      assert lba in txs[r].revokes;
    }
  }

  /** Recovery interrupted at any block write of its third pass and run again gives the same home
      blocks as an uninterrupted one. */
  method RecoverInterrupted(disk: Disk, geo: Geometry, k: nat, j: nat, ghost imgs: seq<seq<Block>>,
                            ghost txs: seq<Trans>, ghost tail: seq<Block>, half: map<nat, Block>)
    returns (once: Disk, twice: Disk)
    requires LogHolds(disk, imgs, txs, tail, geo) && k < |txs| && j <= |txs[k].writes|
    requires half == MidReplay(disk.home, txs, disk.sequence, k, j)
    ensures forall lba :: SameAt(once.home, twice.home, lba)
    ensures twice.start == once.start && twice.sequence == once.sequence
  {
    hide MidReplay, Reads;
    var ok;
    assert LogHolds(disk.(home := half), imgs, txs, tail, geo);
    ok, once := RecoverJournal(disk, geo, imgs, txs, tail);
    ok, twice := RecoverJournal(disk.(home := half), geo, imgs, txs, tail);
    forall lba
      ensures SameAt(once.home, twice.home, lba)
    {
      HalfSame(disk.home, txs, disk.sequence, k, j, lba);
      assert SameAt(once.home, Overlay(disk.home, lba, LastEvent(txs, lba)), lba);
      assert SameAt(twice.home, Overlay(half, lba, LastEvent(txs, lba)), lba);
    }
  }

  lemma HalfSame(home: map<nat, Block>, txs: seq<Trans>, id: nat, k: nat, j: nat, lba: nat)
    requires k < |txs| && j <= |txs[k].writes|
    ensures LastEvent(txs, lba).Wrote? || SameAt(MidReplay(home, txs, id, k, j), home, lba)
  {
    if !LastEvent(txs, lba).Wrote? {
      UntouchedPrefix(home, txs, id, k, lba);
      UntouchedWrites(ReplayAll(home, txs[..k], id, RevokeTable(txs, id)), txs, id, k, j, lba);
    }
  }

  // ---------------------------------------------- write-ahead rule and abort

  /** Through every orderly run no home block receives content that only an open transaction has. */
  lemma WriteAheadRule(s: State, steps: seq<Step>, lba: nat)
    requires Sound(s) && Path(s, steps) && OrderlyPath(s, steps)
    requires lba in End(s, steps).disk.home
    ensures var t := End(s, steps);
      (lba in t.base && t.disk.home[lba] == t.base[lba]) || Committed(t.trans, lba, t.disk.home[lba])
  {
    hide LogOk, HomeOk, PendingOk, CacheOk, FinishingOk, TailOk, Committed, OrderlyPath, StaleOnly;
    RunSound(s, steps);
  }

  /** The cache-over-disk view of a block. */
  function View(s: State, lba: nat): Block
    requires lba in s.disk.home
  {
    if lba in s.open then s.open[lba] else if lba in s.cache then s.cache[lba] else s.disk.home[lba]
  }

  /** What the committed transactions say a block holds; a revoked block has been freed. */
  function Version(s: State, lba: nat): Block
    requires lba in s.base
  {
    var e := LastEvent(s.trans, lba);
    if e.Wrote? then e.data else s.base[lba]
  }

  /** An abort restores the committed version of a block if the transaction has a buffer for it, or the cache
      still has it, or it has been written home. Otherwise, when the transaction only freed it and so
      invalidated its buffer, the view falls back to the home block, which is right by chance at best. */
  lemma AbortRestores(s: State, lba: nat)
    requires Core(s) && s.phase.Idle? && Orderly(s, Abort)
    requires lba in s.base && LastEvent(s.trans, lba) != Revoked
    ensures lba in s.disk.home && lba in Apply(s, Abort).disk.home
    ensures var restored := lba in s.touched || lba in s.cache || !Pending(s.pending, lba);
      && View(Apply(s, Abort), lba) == (if restored then Version(s, lba) else s.disk.home[lba])
      && (s.disk.home[lba] != Version(s, lba) ==> (View(Apply(s, Abort), lba) == Version(s, lba) <==> restored))
  {
    hide LogOk, TailOk, FinishingOk, RoomOk, WriteAhead, LastEvent, PendingAt, Pending;
    var t := Apply(s, Abort);
    if lba in s.touched && Pending(s.pending, lba) {
      PendingWritten(s, lba);
    }
  }

  lemma PendingWritten(s: State, lba: nat)
    requires Core(s) && Pending(s.pending, lba)
    ensures lba in s.base && LastEvent(s.trans, lba).Wrote?
  {
    hide LogOk, TailOk, FinishingOk, RoomOk, WriteAhead, LastEvent, HomeOk, CacheOk;
    var i: nat :| i < |s.pending| && lba in s.pending[i];
    assert PendingAt(s.base, s.trans, s.pending, s.dm, i, lba);
  }

  /** When the checkpoint queue has drained every home block is current: a clean stop may clear the
      log tail. */
  lemma DrainedIsCurrent(s: State, lba: nat)
    requires Core(s) && s.dm == |s.trans| && lba in s.base
    ensures AgreesAt(s.base, s.trans, s.disk.home, lba)
  {
    hide LogOk, TailOk, FinishingOk, RoomOk, WriteAhead, LastEvent, AgreesAt, CacheOk;
    assert !Pending(s.pending, lba) by {
      forall i: nat | i < |s.pending|
        ensures lba !in s.pending[i]
      {
        assert lba in s.pending[i] ==> s.dm <= i;
      }
    }
  }

  // --------------------------------------------- when the reader finds nothing

  /** The newest committed version of a block is on its home block. */
  ghost predicate CurrentAt(s: State, lba: nat) {
    lba in s.disk.home && LastEvent(s.trans, lba) == Wrote(s.disk.home[lba])
  }

  lemma NothingOver(home: map<nat, Block>, lba: nat)
    ensures Overlay(home, lba, Nothing) == home
  {
  }

  /** All blocks agree with the first a transactions. */
  ghost predicate RecoveredTo(s: State, home: map<nat, Block>, a: nat) {
    a <= |s.trans| && forall lba :: lba in s.base ==> AgreesAt(s.base, s.trans[..a], home, lba)
  }

  lemma KeptExactly(s: State, home: map<nat, Block>)
    requires Core(s) && forall lba :: SameAt(home, s.disk.home, lba)
    ensures RecoveredTo(s, home, |s.trans|) <==> forall lba :: Pending(s.pending, lba) ==> CurrentAt(s, lba)
  {
    hide LogOk, TailOk, FinishingOk, RoomOk, WriteAhead, CacheOk, LastEvent, PendingAt, Pending;
    assert s.trans[..|s.trans|] == s.trans;
    forall lba | Pending(s.pending, lba)
      ensures lba in s.base && LastEvent(s.trans, lba).Wrote?
    {
      PendingWritten(s, lba);
    }
    if RecoveredTo(s, home, |s.trans|) {
      forall lba | Pending(s.pending, lba)
        ensures CurrentAt(s, lba)
      {
        assert AgreesAt(s.base, s.trans, home, lba);
        assert SameAt(home, s.disk.home, lba);
      }
    }
    if forall lba :: Pending(s.pending, lba) ==> CurrentAt(s, lba) {
      forall lba | lba in s.base
        ensures AgreesAt(s.base, s.trans, home, lba)
      {
        assert SameAt(home, s.disk.home, lba);
        assert !Pending(s.pending, lba) ==> AgreesAt(s.base, s.trans, s.disk.home, lba);
      }
    }
  }

  lemma NoEvents()
    ensures forall lba :: LastEvent([], lba) == Nothing
  {
  }
}
