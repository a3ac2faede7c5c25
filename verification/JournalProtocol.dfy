/** One journal session as a step system: dirty, free, abort, commit block by block, checkpoint,
    tail movement. A crash may fall between any two steps; what recovery makes of the disk then is
    proved in JournalCrash. */
module JournalProtocol {
  import opened JournalFormat
  import opened JournalRecovery

  /** Logging: the commit is writing the image of the transaction; `alloc` log blocks are allocated
      and those in `written` are on disk. Finishing: the commit block is on disk, the call has not
      returned. */
  datatype Phase = Idle | Logging(t: Trans, img: seq<Block>, alloc: nat, written: set<nat>) | Finishing

  datatype State = State(
    geo: Geometry,
    disk: Disk,
    base: map<nat, Block>,         // home blocks when the session began
    firstId: nat,                  // id of the first transaction of the session
    trans: seq<Trans>,             // committed transactions, oldest first
    imgs: seq<seq<Block>>,         // and their log images
    pending: seq<set<nat>>,        // blocks of each whose checkpoint write is outstanding
    d: nat,                        // tail in the superblock on disk, as an index into trans
    dm: nat,                       // tail in memory (journal->start, journal->trans_id)
    mustSync: bool,                // the superblock write that follows a tail move is due
    acked: nat,                    // commits that have returned
    phase: Phase,
    cache: map<nat, Block>,        // dirty unreferenced buffers
    open: map<nat, Block>,         // buffers held by the running transaction
    touched: set<nat>,             // every block with a buffer in the running transaction
    revokes: set<nat>)             // revoke records of the running transaction

  datatype Step =
    | Dirty(lba: nat, data: Block)
    | Free(lba: nat, revoke: bool)
    | Abort
    | BeginCommit(t: Trans, img: seq<Block>)
    | Alloc
    | WriteLog(j: nat)
    | WriteCommit
    | FinishCommit
    | FlushCached(lba: nat)
    | FlushLogCopy(lba: nat)
    | AdvanceTail
    | SyncTail
    | PurgeUnsynced

  // ------------------------------------------------------------- positions

  /** Log blocks used before transaction i, counted without wrapping. */
  function Pos(imgs: seq<seq<Block>>, i: nat): nat
    requires i <= |imgs|
  {
    if i == 0 then 0 else Pos(imgs, i - 1) + |imgs[i - 1]|
  }

  function SlotAt(geo: Geometry, p: nat): (s: nat)
    requires geo.Valid()
    ensures geo.first <= s < geo.maxlen
  {
    Adv(geo.first, p, geo)
  }

  lemma {:induction false} PosPrefix(a: seq<seq<Block>>, b: seq<seq<Block>>, i: nat)
    requires i <= |a| && a <= b
    ensures Pos(a, i) == Pos(b, i)
  {
    if i > 0 { PosPrefix(a, b, i - 1); }
  }

  lemma {:induction false} PosMonotone(imgs: seq<seq<Block>>, i: nat, j: nat)
    requires i <= j <= |imgs|
    ensures Pos(imgs, i) <= Pos(imgs, j)
    ensures i < j ==> Pos(imgs, i) + |imgs[i]| <= Pos(imgs, j)
    decreases j
  {
    if i < j { PosMonotone(imgs, i, j - 1); }
  }

  /** Different positions within one lap have different slots. */
  lemma SlotsDiffer(geo: Geometry, p: nat, q: nat)
    requires geo.Valid() && p < q < p + geo.Slots()
    ensures SlotAt(geo, p) != SlotAt(geo, q)
  {
    AdvAdd(geo.first, p, q - p, geo);
    LapNotClosed(SlotAt(geo, p), q - p, geo);
  }

  lemma SlotLap(geo: Geometry, p: nat)
    requires geo.Valid()
    ensures SlotAt(geo, p + geo.Slots()) == SlotAt(geo, p)
  {
    AdvAdd(geo.first, p, geo.Slots(), geo);
    AdvWithinLap(SlotAt(geo, p), geo.Slots(), geo);
  }

  // ------------------------------------------------------------ the steps

  function Count(s: State): nat { |s.trans| }

  function NextId(s: State): nat { s.firstId + |s.trans| }

  function Head(s: State): nat { Pos(s.imgs, |s.imgs|) }

  function Allocated(s: State): nat { if s.phase.Logging? then s.phase.alloc else 0 }

  function Written(s: State): set<nat> { if s.phase.Logging? then s.phase.written else {} }

  /** Index after the last transaction in the checkpoint queue. */
  function QueueEnd(s: State): nat
    requires s.phase.Finishing? ==> s.trans != []
  {
    if s.phase.Finishing? then |s.trans| - 1 else |s.trans|
  }

  predicate Pending(pending: seq<set<nat>>, lba: nat) { exists i :: 0 <= i < |pending| && lba in pending[i] }

  /** The transaction logs exactly the blocks held by the running transaction and its revokes. */
  ghost predicate Describes(t: Trans, open: map<nat, Block>, revokes: set<nat>) {
    && (forall lba :: LastWrite(t.writes, lba) == if lba in open then Wrote(open[lba]) else Nothing)
    && (forall lba :: lba in t.revokes <==> lba in revokes)
  }

  ghost predicate GroupWritten(img: seq<Block>, j: nat, written: set<nat>, geo: Geometry)
    requires j < |img|
  {
    IsHeader(img[j]) && img[j][1] == DESCRIPTOR_BLOCK ==>
      forall p: nat :: j < p <= j + |Tags(img[j], HEADER_WORDS, geo)| ==> p in written
  }

  /** Room between the block last allocated and the tail in memory. */
  predicate HasRoom(s: State)
    requires s.geo.Valid() && s.dm <= |s.imgs|
  {
    Head(s) + Allocated(s) < Pos(s.imgs, s.dm) + s.geo.Slots()
  }

  ghost predicate Enabled(s: State, step: Step)
    requires Shape(s)
  {
    match step
    case Dirty(lba, data) =>
      s.phase.Idle? && lba in s.base && |data| == s.geo.words && s.geo.Fits(lba)
    case Free(lba, revoke) =>
      s.phase.Idle? && (Pending(s.pending, lba) ==> revoke) && (revoke ==> s.geo.Fits(lba))
    case Abort => s.phase.Idle?
    case BeginCommit(t, img) =>
      && s.phase.Idle? && (s.open != map[] || s.revokes != {})
      && Describes(t, s.open, s.revokes) && ImageOf(img, NextId(s), t, s.geo)
    case Alloc =>
      && s.phase.Logging? && s.phase.alloc < |s.phase.img|
      && Head(s) + Allocated(s) + 1 <= Pos(s.imgs, s.dm) + s.geo.Slots()
    case WriteLog(j) =>
      && s.phase.Logging? && HasRoom(s) && !s.mustSync
      && j < s.phase.alloc && j < |s.phase.img| - 1
      && GroupWritten(s.phase.img, j, s.phase.written, s.geo)
    case WriteCommit =>
      && s.phase.Logging? && HasRoom(s) && !s.mustSync
      && s.phase.alloc == |s.phase.img| > 0
      && forall j: nat :: j < |s.phase.img| - 1 ==> j in s.phase.written
    case FinishCommit =>
      && s.phase.Finishing? && !s.mustSync
      && (s.dm == |s.trans| - 1 && s.trans[s.dm].writes != [] ==> s.d == s.dm)
    case FlushCached(lba) => lba in s.cache
    case FlushLogCopy(lba) => s.dm < QueueEnd(s) && lba in s.pending[s.dm]
    case AdvanceTail => s.dm < QueueEnd(s) && s.pending[s.dm] == {}
    case SyncTail => true
    case PurgeUnsynced => s.phase.Logging? && s.dm < QueueEnd(s) && s.pending[s.dm] == {}
  }

  function Without(pending: seq<set<nat>>, lbas: set<nat>): (p: seq<set<nat>>)
    ensures |p| == |pending|
    ensures forall i :: 0 <= i < |p| ==> p[i] == pending[i] - lbas
  {
    seq(|pending|, i requires 0 <= i < |pending| => pending[i] - lbas)
  }

  lemma WithoutNothing(pending: seq<set<nat>>)
    ensures Without(pending, {}) == pending
  {
    assert forall i :: 0 <= i < |pending| ==> Without(pending, {})[i] == pending[i];
  }

  lemma WithoutBoth(pending: seq<set<nat>>, a: set<nat>, b: set<nat>)
    ensures Without(Without(pending, a), b) == Without(pending, a + b)
  {
    forall i | 0 <= i < |pending|
      ensures Without(Without(pending, a), b)[i] == Without(pending, a + b)[i]
    {
      assert pending[i] - a - b == pending[i] - (a + b);
    }
  }

  /** The copy of a block in the log image of transaction i, as checkpoint and rollback read it. */
  function LogCopy(t: Trans, lba: nat): Block {
    var e := LastWrite(t.writes, lba);
    if e.Wrote? then Escaped(e.data) else []
  }

  /** The log copy of the newest committed version of a block. */
  function NewestCopy(s: State, lba: nat): Block {
    var e := LastEvent(s.trans, lba);
    if e.Wrote? then Escaped(e.data) else []
  }

  function Apply(s: State, step: Step): State
    requires Shape(s) && Enabled(s, step)
  {
    match step
    case Dirty(lba, data) =>
      s.(open := s.open[lba := data], touched := s.touched + {lba}, cache := s.cache - {lba},
      revokes := s.revokes - {lba})
    case Free(lba, revoke) =>
      s.(open := s.open - {lba}, cache := s.cache - {lba}, revokes := if revoke then s.revokes + {lba} else s.revokes)
    case Abort =>
      s.(open := map[], touched := {}, revokes := {},
         cache := s.cache + map lba | lba in s.touched && Pending(s.pending, lba) :: NewestCopy(s, lba))
    case BeginCommit(t, img) => s.(phase := Logging(t, img, 0, {}))
    case Alloc => s.(phase := s.phase.(alloc := s.phase.alloc + 1))
    case WriteLog(j) =>
      s.(disk := s.disk.(log := s.disk.log[SlotAt(s.geo, Head(s) + j) := s.phase.img[j]]),
         phase := s.phase.(written := s.phase.written + {j}))
    case WriteCommit =>
      var n := |s.phase.img|;
      s.(disk := s.disk.(log := s.disk.log[SlotAt(s.geo, Head(s) + n - 1) := s.phase.img[n - 1]]),
         trans := s.trans + [s.phase.t],
         imgs := s.imgs + [s.phase.img],
         pending := Without(s.pending, s.revokes) + [s.open.Keys],
         phase := Finishing)
    case FinishCommit =>
      var n := |s.trans|;
      s.(cache := s.cache + s.open, open := map[], touched := {}, revokes := {}, phase := Idle, acked := n,
         dm := if s.dm == n - 1 && s.trans[n - 1].writes == [] then n else s.dm)
    case FlushCached(lba) =>
      s.(disk := s.disk.(home := s.disk.home[lba := s.cache[lba]]), cache := s.cache - {lba},
         pending := Without(s.pending, {lba}))
    case FlushLogCopy(lba) =>
      s.(disk := s.disk.(home := s.disk.home[lba := LogCopy(s.trans[s.dm], lba)]),
         pending := s.pending[s.dm := s.pending[s.dm] - {lba}])
    case AdvanceTail => s.(dm := s.dm + 1, mustSync := true)
    case SyncTail =>
      s.(disk := s.disk.(start := SlotAt(s.geo, Pos(s.imgs, s.dm)), sequence := s.firstId + s.dm),
         d := s.dm, mustSync := false)
    case PurgeUnsynced => s.(dm := s.dm + 1)
  }

  // --------------------------------------------------------- the invariant

  ghost predicate Shape(s: State) {
    && s.geo.Valid() && |s.disk.log| == s.geo.maxlen
    && |s.trans| == |s.imgs| == |s.pending|
    && s.d <= s.dm <= |s.trans|
    && (s.phase.Finishing? ==> s.trans != [] && s.acked == |s.trans| - 1 && s.dm < |s.trans|)
    && (!s.phase.Finishing? ==> s.acked == |s.trans|)
    && s.disk.start == SlotAt(s.geo, Pos(s.imgs, s.d)) && s.disk.sequence == s.firstId + s.d
  }

  ghost predicate ImagesOk(geo: Geometry, firstId: nat, txs: seq<Trans>, imgs: seq<seq<Block>>)
    requires geo.Valid()
  {
    && |imgs| == |txs|
    && forall i :: 0 <= i < |txs| ==> ImageOf(imgs[i], firstId + i, txs[i], geo) && |imgs[i]| <= geo.Slots()
  }

  /** Block j of transaction i is in its slot. */
  ghost predicate InPlace(geo: Geometry, log: seq<Block>, imgs: seq<seq<Block>>, i: nat, j: nat)
    requires geo.Valid() && |log| == geo.maxlen && i < |imgs| && j < |imgs[i]|
  {
    log[SlotAt(geo, Pos(imgs, i) + j)] == imgs[i][j]
  }

  ghost predicate IntactFrom(geo: Geometry, log: seq<Block>, imgs: seq<seq<Block>>, k: nat)
    requires geo.Valid() && |log| == geo.maxlen
  {
    forall i: nat, j: nat :: k <= i < |imgs| && j < |imgs[i]| ==> InPlace(geo, log, imgs, i, j)
  }

  ghost predicate InFlight(geo: Geometry, head: nat, written: set<nat>, slot: nat)
    requires geo.Valid()
  {
    exists j: nat :: j in written && slot == SlotAt(geo, head + j)
  }

  /** No slot outside the running commit holds a header with an id still to be used. */
  ghost predicate NoFutureHeaders(geo: Geometry, log: seq<Block>, nextId: nat, head: nat, written: set<nat>)
    requires geo.Valid() && |log| == geo.maxlen
  {
    forall slot :: geo.first <= slot < geo.maxlen && IsHeader(log[slot]) ==>
      log[slot][2] < nextId || InFlight(geo, head, written, slot)
  }

  /** The running commit: `written` blocks of its image are in place, each descriptor after its data. */
  ghost predicate CommitOk(geo: Geometry, log: seq<Block>, nextId: nat, head: nat, phase: Phase,
                           open: map<nat, Block>, revokes: set<nat>)
    requires geo.Valid() && |log| == geo.maxlen
  {
    phase.Logging? ==>
      && ImageOf(phase.img, nextId, phase.t, geo) && phase.alloc <= |phase.img|
      && Describes(phase.t, open, revokes)
      && forall j: nat :: j in phase.written ==> BlockWritten(geo, log, head, phase.img, phase.alloc, phase.written, j)
  }

  ghost predicate BlockWritten(geo: Geometry, log: seq<Block>, head: nat, img: seq<Block>, alloc: nat,
                               written: set<nat>, j: nat)
    requires geo.Valid() && |log| == geo.maxlen
  {
    && j < alloc && j < |img| - 1
    && log[SlotAt(geo, head + j)] == img[j]
    && GroupWritten(img, j, written, geo)
  }

  /** A home block agrees with what the transactions say about it. */
  ghost predicate AgreesAt(base: map<nat, Block>, txs: seq<Trans>, home: map<nat, Block>, lba: nat) {
    && lba in home
    && match LastEvent(txs, lba)
       case Wrote(data) => home[lba] == data
       case Nothing => lba in base && home[lba] == base[lba]
       case Revoked => true
  }

  /** Every block without an outstanding checkpoint write agrees with the committed transactions. */
  ghost predicate HomeOk(base: map<nat, Block>, home: map<nat, Block>, txs: seq<Trans>, pending: seq<set<nat>>) {
    && home.Keys == base.Keys
    && forall lba :: lba in base && !Pending(pending, lba) ==> AgreesAt(base, txs, home, lba)
  }

  ghost predicate PendingOk(base: map<nat, Block>, txs: seq<Trans>, pending: seq<set<nat>>, dm: nat) {
    && |pending| == |txs|
    && (forall i: nat, lba :: i < |pending| && lba in pending[i] ==> PendingAt(base, txs, pending, dm, i, lba))
  }

  /** An outstanding write: its transaction is not behind the tail, the block has not been revoked
      since, and every later write of the block is outstanding too. */
  ghost predicate PendingAt(base: map<nat, Block>, txs: seq<Trans>, pending: seq<set<nat>>, dm: nat, i: nat, lba: nat)
    requires i < |pending| == |txs|
  {
    && dm <= i && lba in base
    && LastWrite(txs[i].writes, lba).Wrote?
    && LastEvent(txs, lba).Wrote?
    && forall j: nat :: i < j < |txs| && LastWrite(txs[j].writes, lba).Wrote? ==> lba in pending[j]
  }

  ghost predicate CacheOk(base: map<nat, Block>, txs: seq<Trans>, cache: map<nat, Block>, open: map<nat, Block>,
                          touched: set<nat>, revokes: set<nat>) {
    && cache.Keys !! open.Keys && revokes !! open.Keys && revokes !! cache.Keys
    && cache.Keys <= base.Keys && open.Keys <= touched <= base.Keys
    && forall lba :: lba in cache ==> LastEvent(txs, lba) == Wrote(cache[lba])
  }

  /** The transaction whose commit has not returned is the one the held buffers belong to. */
  ghost predicate FinishingOk(s: State)
    requires Shape(s)
  {
    s.phase.Finishing? ==>
      && Describes(s.trans[|s.trans| - 1], s.open, s.revokes)
      && s.pending[|s.trans| - 1] == s.open.Keys
  }

  ghost predicate Committed(txs: seq<Trans>, lba: nat, data: Block) {
    exists i :: 0 <= i < |txs| && LastWrite(txs[i].writes, lba) == Wrote(data)
  }

  /** Write-ahead rule: a home block holds its initial content or a version whose commit block is
      in the log. */
  ghost predicate WriteAhead(base: map<nat, Block>, home: map<nat, Block>, txs: seq<Trans>) {
    forall lba :: lba in home ==> (lba in base && home[lba] == base[lba]) || Committed(txs, lba, home[lba])
  }

  /** Between the two tails lie only revoke-only transactions; blocks of theirs that were reused
      stop the reader. */
  ghost predicate LagChain(geo: Geometry, log: seq<Block>, firstId: nat, txs: seq<Trans>, imgs: seq<seq<Block>>,
                           d: nat, dm: nat)
    requires geo.Valid() && |log| == geo.maxlen && dm <= |txs| == |imgs|
  {
    && (forall i :: d <= i < dm ==> txs[i].writes == [])
    && (forall i: nat, j: nat :: d <= i < dm && j < |imgs[i]| ==>
          InPlace(geo, log, imgs, i, j) || StopsAt(log[SlotAt(geo, Pos(imgs, i) + j)], firstId + i))
  }

  /** The tail on disk lags behind the one in memory while the checkpoint queue is empty. */
  ghost predicate PureLag(s: State)
    requires Shape(s)
  {
    && s.dm == QueueEnd(s)
    && LagChain(s.geo, s.disk.log, s.firstId, s.trans, s.imgs, s.d, s.dm)
    && (forall lba :: lba in s.base ==> AgreesAt(s.base, s.trans[..QueueEnd(s)], s.disk.home, lba))
  }

  ghost predicate TailOk(s: State)
    requires Shape(s)
  {
    s.d == s.dm || (s.mustSync && IntactFrom(s.geo, s.disk.log, s.imgs, s.d)) || PureLag(s)
  }

  /** The log never runs into its tail. */
  ghost predicate RoomOk(geo: Geometry, imgs: seq<seq<Block>>, dm: nat, alloc: nat, written: set<nat>)
    requires geo.Valid() && dm <= |imgs|
  {
    && Pos(imgs, |imgs|) + alloc <= Pos(imgs, dm) + geo.Slots()
    && forall j: nat :: j in written ==> Pos(imgs, |imgs|) + j + 1 < Pos(imgs, dm) + geo.Slots()
  }

  ghost predicate LogOk(s: State)
    requires Shape(s)
  {
    && ImagesOk(s.geo, s.firstId, s.trans, s.imgs)
    && IntactFrom(s.geo, s.disk.log, s.imgs, s.dm)
    && NoFutureHeaders(s.geo, s.disk.log, NextId(s), Head(s), Written(s))
    && CommitOk(s.geo, s.disk.log, NextId(s), Head(s), s.phase, s.open, s.revokes)
  }

  ghost predicate DataOk(s: State)
    requires Shape(s)
  {
    && HomeOk(s.base, s.disk.home, s.trans, s.pending)
    && PendingOk(s.base, s.trans, s.pending, s.dm)
    && CacheOk(s.base, s.trans, s.cache, s.open, s.touched, s.revokes)
    && WriteAhead(s.base, s.disk.home, s.trans)
  }

  /** The invariant, but for the tail in the superblock on disk. */
  ghost predicate Core(s: State) {
    Shape(s) && LogOk(s) && RoomOk(s.geo, s.imgs, s.dm, Allocated(s), Written(s)) && DataOk(s) && FinishingOk(s)
  }

  ghost predicate Inv(s: State) { Core(s) && TailOk(s) }

  /** What the proof needs of a step beyond its guard: a block image that is copied out of the log
      does not begin with the magic, and no finished transaction is purged without a superblock
      write. */
  ghost predicate Orderly(s: State, step: Step)
    requires Shape(s) && Enabled(s, step)
  {
    match step
    case FlushLogCopy(lba) => var e := LastWrite(s.trans[s.dm].writes, lba); e.Wrote? ==> !IsMagic(e.data)
    case Abort => forall lba :: lba in s.touched && Pending(s.pending, lba) ==>
                    var e := LastEvent(s.trans, lba); e.Wrote? ==> !IsMagic(e.data)
    case PurgeUnsynced => false
    case _ => true
  }

  /** A step that is orderly but for a purge without a superblock write. */
  ghost predicate Steady(s: State, step: Step)
    requires Shape(s) && Enabled(s, step)
  {
    step.PurgeUnsynced? || Orderly(s, step)
  }

  predicate IsMagic(data: Block) { |data| > 0 && data[0] == MAGIC }
}
