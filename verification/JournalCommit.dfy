/** The commit of a transaction, step by step, as seen by the checkpoint queue. */
module JournalCommit {
  import opened JournalFormat
  import opened JournalRecovery
  import opened JournalProtocol
  import opened JournalCrash
  import opened JournalRestart
  import opened JournalTheorems
  import opened JournalQueue
  import opened JournalRecords
  import opened JournalInvariant

  lemma BeginLink(s: State, queue: seq<CpTrans>, start: nat, last: nat, transId: nat, t: Trans, img: seq<Block>)
    requires Linked(s, queue, start, last, transId, {}, -1) && Enabled(s, BeginCommit(t, img))
    ensures var u := Apply(s, BeginCommit(t, img));
      Linked(u, queue, start, last, transId, {}, -1) && u == s.(phase := Logging(t, img, 0, {})) && SameRunning(s, u)
  {
    hide EntryCopies, EntryOk, Pos, SlotAt, Describes, ImageOf;
    var step := BeginCommit(t, img);
    ShapeKeeps(s, step);
    EntriesSame(s, Apply(s, step), queue, {}, -1);
  }

  /** A log slot in use by the queue is not one of the running commit. */
  lemma SlotsApart(s: State, slot: nat, lo: nat, hi: nat, p: nat)
    requires Shape(s) && SlotIn(s.geo, slot, lo, hi) && Pos(s.imgs, s.dm) <= lo && hi <= p
    requires p < Pos(s.imgs, s.dm) + s.geo.Slots()
    ensures slot != SlotAt(s.geo, p) && slot < s.geo.maxlen
  {
    hide Pos, SlotAt;
    var q: nat :| lo <= q < hi && slot == SlotAt(s.geo, q);
    SlotsDiffer(s.geo, q, p);
  }

  /** Writing a block of the running commit changes no log copy of the queue. */
  lemma CopiesKept(s: State, u: State, queue: seq<CpTrans>, p: nat, b: Block)
    requires Shape(s) && Shape(u) && CopiesOk(s, queue) && |s.disk.log| == |u.disk.log|
    requires Head(s) <= p < Pos(s.imgs, s.dm) + s.geo.Slots() && s.dm + |queue| <= |s.trans|
    requires u.geo == s.geo && u.dm == s.dm && s.imgs <= u.imgs && s.trans <= u.trans
    requires u.disk.log == s.disk.log[SlotAt(s.geo, p) := b]
    ensures CopiesOk(u, queue)
  {
    hide Shape, CopyOk, SlotAt, Pos;
    forall k | 0 <= k < |queue|
      ensures EntryCopies(u, u.dm + k, queue[k])
    {
      assert EntryCopies(s, s.dm + k, queue[k]);
      EntryKept(s, u, s.dm + k, queue[k], p, b);
    }
  }

  lemma EntryKept(s: State, u: State, i: nat, q: CpTrans, p: nat, data: Block)
    requires Shape(s) && Shape(u) && EntryCopies(s, i, q) && |s.disk.log| == |u.disk.log|
    requires Head(s) <= p < Pos(s.imgs, s.dm) + s.geo.Slots() && s.dm <= i
    requires u.geo == s.geo && u.dm == s.dm && s.imgs <= u.imgs && s.trans <= u.trans
    requires u.disk.log == s.disk.log[SlotAt(s.geo, p) := data]
    ensures EntryCopies(u, i, q)
  {
    hide SlotAt, Pos, SlotIn, LastWrite;
    LogSize(s);
    PosMonotone(s.imgs, s.dm, i);
    PosMonotone(s.imgs, i + 1, |s.imgs|);
    PosPrefix(s.imgs, u.imgs, i);
    PosPrefix(s.imgs, u.imgs, i + 1);
    forall b | b in q.bufs
      ensures CopyOk(u.geo, u.disk.log, Pos(u.imgs, i), Pos(u.imgs, i + 1), u.trans[i], b.lba, b.slot)
    {
      SlotsApart(s, b.slot, Pos(s.imgs, i), Pos(s.imgs, i + 1), p);
    }
  }

  lemma LogSize(s: State)
    requires Shape(s)
    ensures |s.imgs| == |s.trans| && s.dm <= |s.trans| && s.geo.Valid() && |s.disk.log| == s.geo.maxlen
  {
  }

  lemma WriteLink(s: State, queue: seq<CpTrans>, start: nat, last: nat, transId: nat, j: nat)
    requires Linked(s, queue, start, last, transId, {}, -1) && Enabled(s, WriteLog(j))
    ensures var u := Apply(s, WriteLog(j));
      && Linked(u, queue, start, last, transId, {}, -1) && SameRunning(s, u)
      && u == s.(disk := s.disk.(log := s.disk.log[SlotAt(s.geo, Head(s) + j) := s.phase.img[j]]),
                 phase := s.phase.(written := s.phase.written + {j}))
  {
    hide EntryCopies, EntryOk, Pos, SlotAt, GroupWritten;
    var u := Apply(s, WriteLog(j));
    ShapeKeeps(s, WriteLog(j));
    forall k | 0 <= k < |queue|
      ensures EntryOk(u, u.dm + k, queue[k], {}, -1)
    {
      EntrySame(s, u, s.dm + k, queue[k], {}, -1);
    }
    CopiesKept(s, u, queue, Head(s) + j, s.phase.img[j]);
  }

  /** The blocks of the commit that are on disk are in their slots. */
  ghost predicate InLog(s: State)
    requires Shape(s)
  {
    s.phase.Logging? ==> forall p: nat :: p in s.phase.written ==>
      p < s.phase.alloc && p < |s.phase.img| && s.disk.log[SlotAt(s.geo, Head(s) + p)] == s.phase.img[p]
  }

  lemma WriteInLog(s: State, j: nat)
    requires Shape(s) && Enabled(s, WriteLog(j)) && InLog(s)
    ensures Shape(Apply(s, WriteLog(j))) && InLog(Apply(s, WriteLog(j)))
  {
    hide Pos, GroupWritten, SlotAt;
    var u := Apply(s, WriteLog(j));
    ShapeKeeps(s, WriteLog(j));
    HeadAfter(s);
    forall p: nat | p in u.phase.written
      ensures u.disk.log[SlotAt(u.geo, Head(u) + p)] == u.phase.img[p]
    {
      if p < j { SlotsDiffer(s.geo, Head(s) + p, Head(s) + j); }
      if j < p { SlotsDiffer(s.geo, Head(s) + j, Head(s) + p); }
    }
  }

  /** The commit block is on disk: the transaction counts as committed, and the writes of revoked blocks
      are no longer outstanding. */
  lemma CommitLink(s: State, queue: seq<CpTrans>, start: nat, last: nat, transId: nat)
    requires Linked(s, queue, start, last, transId, {}, -1) && Enabled(s, WriteCommit)
    ensures var u := Apply(s, WriteCommit);
      && Linked(u, queue, start, last, transId, s.revokes, -1)
      && u == s.(disk := s.disk.(log := s.disk.log[
                   SlotAt(s.geo, Head(s) + |s.phase.img| - 1) := s.phase.img[|s.phase.img| - 1]]),
                 trans := s.trans + [s.phase.t], imgs := s.imgs + [s.phase.img],
                 pending := Without(s.pending, s.revokes) + [s.open.Keys], phase := Finishing)
  {
    hide EntryCopies, EntryOk, SlotAt, Without;
    var u := Apply(s, WriteCommit);
    ShapeKeeps(s, WriteCommit);
    CommitHead(s);
    forall k | 0 <= k < |queue|
      ensures EntryOk(u, u.dm + k, queue[k], s.revokes, -1)
    {
      CommitEntry(s, u, s.dm + k, queue[k]);
    }
    CopiesKept(s, u, queue, Head(s) + |s.phase.img| - 1, s.phase.img[|s.phase.img| - 1]);
  }

  lemma CommitHead(s: State)
    requires Shape(s) && Enabled(s, WriteCommit)
    ensures var u := Apply(s, WriteCommit);
      && Head(u) == Head(s) + |s.phase.img| && Pos(u.imgs, u.dm) == Pos(s.imgs, s.dm) && u.dm == s.dm
      && QueueEnd(u) == QueueEnd(s) && Allocated(u) == 0 && Allocated(s) == |s.phase.img| > 0
  {
    hide SlotAt;
    var u := Apply(s, WriteCommit);
    assert s.imgs <= u.imgs;
    PosPrefix(s.imgs, u.imgs, s.dm);
    PosPrefix(s.imgs, u.imgs, |s.imgs|);
  }

  lemma CommitEntry(s: State, u: State, i: nat, q: CpTrans)
    requires Shape(s) && Shape(u) && EntryOk(s, i, q, {}, -1)
    requires s.geo == u.geo && s.firstId == u.firstId && s.imgs <= u.imgs && s.trans <= u.trans
    requires |u.pending| > |s.pending| && forall x :: 0 <= x < |s.pending| ==> u.pending[x] == s.pending[x] - s.revokes
    ensures EntryOk(u, i, q, s.revokes, -1)
  {
    hide SlotAt, Pos;
    LogSize(s);
    PosPrefix(s.imgs, u.imgs, i);
  }

  // ------------------------------------------------------------ the commit loop

  /** A commit in progress: the committed transactions and the running one are as they were. */
  ghost predicate Progresses(s: State, t: State) {
    && t == s.(phase := t.phase, dm := t.dm, d := t.d, mustSync := t.mustSync, disk := t.disk, cache := t.cache,
               pending := t.pending)
    && s.dm <= t.dm && |t.pending| == |s.pending| && |t.disk.log| == |s.disk.log|
  }

  /** A commit that has come from s0 to s, and the queue from q0 to q: once all slots were taken the head of
      the queue was purged, and without a superblock write exactly if it was finished before the commit. */
  ghost predicate Purged(s0: State, q0: seq<CpTrans>, s: State, q: seq<CpTrans>, late: bool) {
    && s0.geo.Valid() && s0.dm <= |s0.imgs| && s.geo == s0.geo && s.imgs == s0.imgs
    && var full := Head(s0) + Allocated(s) >= Pos(s0.imgs, s0.dm) + s0.geo.Slots();
       && (late <==> Leading(q0) > 0 && full)
       && (Leading(q0) == 0 ==> Leading(q) == 0)
       && (!full ==> q == q0 && s.dm == s0.dm)
  }

  lemma PurgedOn(s0: State, q0: seq<CpTrans>, s1: State, q1: seq<CpTrans>, l1: bool, s2: State, q2: seq<CpTrans>,
                 l2: bool)
    requires Purged(s0, q0, s1, q1, l1) && Purged(s1, q1, s2, q2, l2) && Allocated(s1) <= Allocated(s2)
    ensures Purged(s0, q0, s2, q2, l1 || l2)
  {
    hide Pos, Leading;
  }

  /** Nothing is allocated, and there is room. */
  lemma PurgedNone(s: State, t: State, q: seq<CpTrans>)
    requires Shape(s) && HasRoom(s) && t.geo == s.geo && t.imgs == s.imgs && t.dm == s.dm
      && Allocated(t) == Allocated(s)
    ensures Purged(s, q, t, q, false)
  {
    hide Pos, Leading;
  }

  /** The blocks before j are on disk, and those of the open group, from j + 1 on, up to e. */
  ghost predicate OnDisk(written: set<nat>, j: nat, e: nat) {
    forall x: nat :: x in written <==> x < j || j < x < e
  }

  /** The commit has allocated a blocks of the image, and those said are on disk. */
  ghost predicate LoggedTo(s: State, t: Trans, img: seq<Block>, a: nat, j: nat, e: nat) {
    s.phase.Logging? && s.phase.t == t && s.phase.img == img && s.phase.alloc == a && OnDisk(s.phase.written, j, e)
  }

  /** Where a block that does not begin with the magic was logged there is its content. */
  lemma PlainTag(t: Tag, b: Block, w: Write)
    requires TagMatches(t, b, w)
    ensures !IsMagic(w.data) ==> b == w.data
  {
  }

  /** Block p of the image holds the write, and the slot recorded for it is that of block p. */
  ghost predicate Logged(geo: Geometry, head: nat, b: Block, w: Write, p: nat, slot: nat)
    requires geo.Valid()
  {
    slot == SlotAt(geo, head + p) && (!IsMagic(w.data) ==> b == w.data)
  }

  ghost predicate HomeAt(geo: Geometry, head: nat, img: seq<Block>, j: nat, w: Write, slot: nat)
    requires geo.Valid() && j <= |img|
  {
    exists p: nat :: p < j && Logged(geo, head, img[p], w, p, slot)
  }

  /** The first k writes have been logged in the first j blocks of the image; their slots have been noted. */
  ghost predicate HomesOk(geo: Geometry, head: nat, img: seq<Block>, ws: seq<Write>, k: nat, j: nat, homes: seq<Buf>)
    requires geo.Valid() && k <= |ws| && j <= |img|
  {
    && |homes| == k
    && forall q :: 0 <= q < k ==> homes[q].lba == ws[q].lba && HomeAt(geo, head, img, j, ws[q], homes[q].slot)
  }

  lemma HomesMore(geo: Geometry, head: nat, img: seq<Block>, ws: seq<Write>, k: nat, j: nat, homes: seq<Buf>,
                  p: nat, slot: nat)
    requires geo.Valid() && k < |ws| && j <= p < |img| && HomesOk(geo, head, img, ws, k, j, homes)
    requires slot == SlotAt(geo, head + p) && (!IsMagic(ws[k].data) ==> img[p] == ws[k].data)
    ensures HomesOk(geo, head, img, ws, k + 1, p + 1, homes + [Buf(ws[k].lba, slot)])
  {
    hide HomeAt, SlotAt;
    HomesLater(geo, head, img, ws, k, j, homes, p + 1);
    HomeNew(geo, head, img, ws[k], p, slot);
  }

  lemma HomeLater(geo: Geometry, head: nat, img: seq<Block>, j: nat, w: Write, slot: nat, j': nat)
    requires geo.Valid() && j <= j' <= |img| && HomeAt(geo, head, img, j, w, slot)
    ensures HomeAt(geo, head, img, j', w, slot)
  {
    hide Logged;
  }

  lemma HomeNew(geo: Geometry, head: nat, img: seq<Block>, w: Write, p: nat, slot: nat)
    requires geo.Valid() && p < |img| && slot == SlotAt(geo, head + p) && (!IsMagic(w.data) ==> img[p] == w.data)
    ensures HomeAt(geo, head, img, p + 1, w, slot)
  {
    hide SlotAt;
    assert Logged(geo, head, img[p], w, p, slot);
  }

  lemma HomesLater(geo: Geometry, head: nat, img: seq<Block>, ws: seq<Write>, k: nat, j: nat, homes: seq<Buf>,
                   j': nat)
    requires geo.Valid() && k <= |ws| && j <= j' <= |img| && HomesOk(geo, head, img, ws, k, j, homes)
    ensures HomesOk(geo, head, img, ws, k, j', homes)
  {
    hide HomeAt;
    forall q | 0 <= q < k
      ensures HomeAt(geo, head, img, j', ws[q], homes[q].slot)
    {
      HomeLater(geo, head, img, j, ws[q], homes[q].slot, j');
    }
  }

  /** A descriptor group at the front of what is still to be logged. */
  ghost predicate Group(img: seq<Block>, id: nat, j: nat, n: nat, ws: seq<Write>, k: nat, geo: Geometry) {
    && j < n < |img| && HeaderOf(img[j], id, DESCRIPTOR_BLOCK)
    && var ts := Tags(img[j], HEADER_WORDS, geo);
       && j + |ts| + 1 <= n && k + |ts| <= |ws|
       && forall i :: 0 <= i < |ts| ==> TagMatches(ts[i], img[j + 1 + i], ws[k + i])
  }

  /** What is left of the image decodes to what is left of the transaction. */
  ghost predicate Remaining(img: seq<Block>, id: nat, j: nat, n: nat, ws: seq<Write>, k: nat, rs: seq<nat>,
                            geo: Geometry) {
    j <= n < |img| && k <= |ws| && Body(img[j..n], id, ws[k..], rs, geo)
  }

  lemma GroupNext(img: seq<Block>, id: nat, j: nat, n: nat, ws: seq<Write>, k: nat, rs: seq<nat>, geo: Geometry)
    requires Remaining(img, id, j, n, ws, k, rs, geo) && j < n && img[j][1] == DESCRIPTOR_BLOCK
    ensures Group(img, id, j, n, ws, k, geo)
    ensures var t := |Tags(img[j], HEADER_WORDS, geo)|; Remaining(img, id, j + t + 1, n, ws, k + t, rs, geo)
  {
    var rest, left := img[j..n], ws[k..];
    assert rest[0] == img[j];
    var ts := Tags(img[j], HEADER_WORDS, geo);
    var t := |ts|;
    assert rest[t + 1..] == img[j + t + 1..n] && left[t..] == ws[k + t..];
    forall i | 0 <= i < t
      ensures TagMatches(ts[i], img[j + 1 + i], ws[k + i])
    {
      assert TagMatches(ts[i], rest[1 + i], left[i]);
    }
  }

  lemma RevokeNext(img: seq<Block>, id: nat, j: nat, n: nat, ws: seq<Write>, k: nat, rs: seq<nat>, geo: Geometry)
    returns (rs': seq<nat>)
    requires Remaining(img, id, j, n, ws, k, rs, geo) && j < n && img[j][1] != DESCRIPTOR_BLOCK
    ensures Remaining(img, id, j + 1, n, ws, k, rs', geo)
  {
    var rest := img[j..n];
    assert rest[0] == img[j] && rest[1..] == img[j + 1..n];
    rs' := rs[RevokeCount(img[j], geo)..];
  }

  lemma HeaderThere(img: seq<Block>, id: nat, j: nat, n: nat, ws: seq<Write>, k: nat, rs: seq<nat>, geo: Geometry)
    requires Remaining(img, id, j, n, ws, k, rs, geo)
    ensures j < n ==> |img[j]| >= HEADER_WORDS
    ensures j == n ==> k == |ws|
  {
    if j < n { assert img[j..n][0] == img[j]; }
  }

  lemma ImageRemains(img: seq<Block>, id: nat, t: Trans, geo: Geometry)
    requires ImageOf(img, id, t, geo)
    ensures Remaining(img, id, 0, |img| - 1, t.writes, 0, t.revokes, geo)
  {
    assert img[0..|img| - 1] == img[..|img| - 1] && t.writes[0..] == t.writes;
  }

  /** The descriptor may be written once its group is on disk. */
  lemma DescriptorReady(s: State, t: Trans, img: seq<Block>, j: nat, e: nat)
    requires Shape(s) && HasRoom(s) && !s.mustSync && LoggedTo(s, t, img, e, j, e) && j < e < |img|
    requires IsHeader(img[j]) && j + |Tags(img[j], HEADER_WORDS, s.geo)| < e
    ensures Enabled(s, WriteLog(j))
    ensures OnDisk(s.phase.written + {j}, e, e)
  {
    hide Pos, Tags;
  }

  lemma DataBlock(img: seq<Block>, id: nat, j: nat, n: nat, ws: seq<Write>, k: nat, geo: Geometry, i: nat)
    requires Group(img, id, j, n, ws, k, geo) && i < |Tags(img[j], HEADER_WORDS, geo)|
    ensures j + 1 + i < n && k + i < |ws| && !IsHeader(img[j + 1 + i])
    ensures !IsMagic(ws[k + i].data) ==> img[j + 1 + i] == ws[k + i].data
  {
    hide Tags;
    var t := Tags(img[j], HEADER_WORDS, geo)[i];
    PlainTag(t, img[j + 1 + i], ws[k + i]);
  }

  // -------------------------------------------------------- end of the commit

  lemma FinishShape(s: State)
    requires Shape(s) && Enabled(s, FinishCommit) && s.phase.Finishing?
    ensures var t, n := Apply(s, FinishCommit), |s.trans|;
      && Shape(t) && n > 0 && s.dm < n
      && t == s.(cache := s.cache + s.open, open := map[], touched := {}, revokes := {}, phase := Idle, acked := n,
                 dm := if s.dm == n - 1 && s.trans[n - 1].writes == [] then n else s.dm)
      && QueueEnd(t) == n && QueueEnd(s) == n - 1 && Allocated(t) == 0 == Allocated(s) && Head(t) == Head(s)
  {
    hide Pos, SlotAt;
    ShapeKeeps(s, FinishCommit);
  }

  /** The committed transaction joins the checkpoint queue. */
  lemma JoinLink(s: State, queue: seq<CpTrans>, start: nat, last: nat, transId: nat, q: CpTrans)
    requires Linked(s, queue, start, last, transId, {}, -1) && s.phase.Finishing? && Enabled(s, FinishCommit)
    requires EntryOk(s, |s.trans| - 1, q, {}, -1) && EntryCopies(s, |s.trans| - 1, q)
    requires queue == [] ==> s.trans[|s.trans| - 1].writes != []
    ensures Linked(Apply(s, FinishCommit), queue + [q], start, last, transId, {}, -1)
  {
    hide EntryCopies, EntryOk, Pos, SlotAt, Shape, Enabled;
    FinishShape(s);
    var t, w := Apply(s, FinishCommit), queue + [q];
    forall k | 0 <= k < |w|
      ensures EntryOk(t, t.dm + k, w[k], {}, -1) && EntryCopies(t, t.dm + k, w[k])
    {
      EntrySame(s, t, s.dm + k, w[k], {}, -1);
      CopiesSame(s, t, s.dm + k, w[k]);
    }
  }

  /** A transaction of revokes only never enters an empty queue: the tail moves past it. */
  lemma PassLink(s: State, start: nat, last: nat, transId: nat, q: CpTrans)
    requires Linked(s, [], start, last, transId, {}, -1) && s.phase.Finishing? && Enabled(s, FinishCommit)
    requires EntryOk(s, |s.trans| - 1, q, {}, -1) && s.trans[|s.trans| - 1].writes == [] && q.dataCnt == 0
    ensures Linked(Apply(s, FinishCommit), [], Wrap(q.startIblock + q.allocBlocks, s.geo), last, q.id + 1, {}, -1)
  {
    hide Pos, SlotAt, Enabled;
    FinishShape(s);
    LogSize(s);
    NextStart(s, q.allocBlocks);
    NoneLeft(q.bufs, s.pending[|s.trans| - 1]);
  }

  /** The queue is empty: its tail is where the committed transaction begins. */
  lemma EmptyQueue(s: State, start: nat, last: nat, transId: nat, q: CpTrans)
    requires Linked(s, [], start, last, transId, {}, -1) && s.phase.Finishing?
    requires EntryOk(s, |s.trans| - 1, q, {}, -1)
    ensures s.dm == |s.trans| - 1 && start == q.startIblock && transId == q.id && q.startIblock < s.geo.maxlen
  {
    hide Pos, SlotAt;
  }

  lemma FinishEnabled(s: State)
    requires Shape(s) && s.phase.Finishing? && !s.mustSync
    requires s.dm == |s.trans| - 1 && s.trans[s.dm].writes != [] ==> s.d == s.dm
    ensures Enabled(s, FinishCommit) && Orderly(s, FinishCommit)
  {
  }

  ghost predicate SameAtSlot(geo: Geometry, head: nat, p: nat, log: seq<Block>, log': seq<Block>) {
    geo.Valid() && |log| == |log'| == geo.maxlen && log'[SlotAt(geo, head + p)] == log[SlotAt(geo, head + p)]
  }

  /** The new entry of the queue, from the slots noted during the commit. */
  lemma NewEntry(s: State, u: State, homes: seq<Buf>, id: nat, start: nat)
    requires Shape(s) && Shape(u) && s.phase.Logging? && InLog(s) && From(s.phase.t.writes, s.open)
    requires 0 < |s.phase.img| <= s.geo.Slots() && u.geo == s.geo && u.firstId == s.firstId
    requires u.trans == s.trans + [s.phase.t] && u.imgs == s.imgs + [s.phase.img]
    requires |u.pending| == |s.trans| + 1 && u.pending[|s.trans|] == s.open.Keys
    requires Describes(s.phase.t, s.open, s.revokes)
    requires HomesOk(s.geo, Head(s), s.phase.img, s.phase.t.writes, |s.phase.t.writes|, |s.phase.img| - 1, homes)
    requires OnDisk(s.phase.written, |s.phase.img| - 1, |s.phase.img| - 1)
    requires id == NextId(s) && start == SlotAt(s.geo, Head(s))
    requires forall p: nat :: p < |s.phase.img| - 1 ==> SameAtSlot(s.geo, Head(s), p, s.disk.log, u.disk.log)
    ensures var q := CpTrans(id, start, |s.phase.img|, |s.phase.t.writes|, 0, homes);
      EntryOk(u, |s.trans|, q, {}, -1) && EntryCopies(u, |s.trans|, q)
    ensures forall lba :: Has(homes, lba) <==> lba in s.open
  {
    hide SlotAt, Pos, Shape, Describes, HomeAt, LastWrite, From, OnDisk;
    var ws := s.phase.t.writes;
    LogSize(s);
    LogSize(u);
    assert s.imgs <= u.imgs;
    PosPrefix(s.imgs, u.imgs, |s.imgs|);
    NextPos(u.imgs, |s.imgs|);
    HomesAre(s.geo, Head(s), s.phase.img, ws, |s.phase.img| - 1, homes, s.open, s.revokes, s.phase.t);
    var lo, hi := Pos(u.imgs, |s.imgs|), Pos(u.imgs, |s.imgs| + 1);
    forall b | b in homes
      ensures CopyOk(u.geo, u.disk.log, lo, hi, s.phase.t, b.lba, b.slot)
    {
      var q :| 0 <= q < |homes| && homes[q] == b;
      NewCopy(s, u.disk.log, lo, hi, ws[q], b.slot);
    }
  }

  lemma NextPos(imgs: seq<seq<Block>>, i: nat)
    requires i < |imgs|
    ensures Pos(imgs, i + 1) == Pos(imgs, i) + |imgs[i]|
  {
  }

  lemma HomesAre(geo: Geometry, head: nat, img: seq<Block>, ws: seq<Write>, j: nat, homes: seq<Buf>,
                 open: map<nat, Block>, revokes: set<nat>, t: Trans)
    requires geo.Valid() && j <= |img| && HomesOk(geo, head, img, ws, |ws|, j, homes) && t.writes == ws
    requires Describes(t, open, revokes)
    ensures forall lba :: Has(homes, lba) <==> lba in open
  {
    hide SlotAt, HomeAt, LastWrite;
    forall lba
      ensures Has(homes, lba) <==> lba in open
    {
      LastWriteOnly(ws, lba);
      if lba in open {
        var q :| 0 <= q < |ws| && ws[q].lba == lba;
        assert homes[q] in homes;
      }
      if Has(homes, lba) {
        var b :| b in homes && b.lba == lba;
        var q :| 0 <= q < |homes| && homes[q] == b;
        assert ws[q].lba == lba;
      }
    }
  }

  lemma NewCopy(s: State, log: seq<Block>, lo: nat, hi: nat, w: Write, slot: nat)
    requires Shape(s) && s.phase.Logging? && InLog(s) && From(s.phase.t.writes, s.open) && w in s.phase.t.writes
    requires Describes(s.phase.t, s.open, s.revokes) && 0 < |s.phase.img| && |log| == s.geo.maxlen
    requires HomeAt(s.geo, Head(s), s.phase.img, |s.phase.img| - 1, w, slot)
    requires OnDisk(s.phase.written, |s.phase.img| - 1, |s.phase.img| - 1)
    requires lo == Head(s) && hi == lo + |s.phase.img|
    requires forall p: nat :: p < |s.phase.img| - 1 ==> SameAtSlot(s.geo, Head(s), p, s.disk.log, log)
    ensures CopyOk(s.geo, log, lo, hi, s.phase.t, w.lba, slot)
  {
    hide SlotAt, Pos, LastWrite;
    var p: nat :| p < |s.phase.img| - 1 && Logged(s.geo, Head(s), s.phase.img[p], w, p, slot);
    assert LastWrite(s.phase.t.writes, w.lba) == Wrote(w.data);
    assert p in s.phase.written;
    assert SameAtSlot(s.geo, Head(s), p, s.disk.log, log);
    assert lo <= Head(s) + p < hi;
  }

  /** The commit block goes to a slot of its own. */
  lemma CommitSlot(s: State, u: State)
    requires Shape(s) && Enabled(s, WriteCommit) && |s.phase.img| <= s.geo.Slots()
    requires u.disk.log == s.disk.log[SlotAt(s.geo, Head(s) + |s.phase.img| - 1) := s.phase.img[|s.phase.img| - 1]]
    ensures forall p: nat :: p < |s.phase.img| - 1 ==> SameAtSlot(s.geo, Head(s), p, s.disk.log, u.disk.log)
  {
    hide SlotAt, Pos;
    forall p: nat | p < |s.phase.img| - 1
      ensures SameAtSlot(s.geo, Head(s), p, s.disk.log, u.disk.log)
    {
      SlotsDiffer(s.geo, Head(s) + p, Head(s) + |s.phase.img| - 1);
    }
  }

  lemma CommitEnabled(s: State, t: Trans, img: seq<Block>)
    requires Shape(s) && HasRoom(s) && !s.mustSync && img != [] && LoggedTo(s, t, img, |img|, |img| - 1, |img| - 1)
    ensures Enabled(s, WriteCommit) && Orderly(s, WriteCommit)
  {
    hide Pos;
  }

  lemma NoHomes(geo: Geometry, head: nat, img: seq<Block>, ws: seq<Write>)
    requires geo.Valid()
    ensures HomesOk(geo, head, img, ws, 0, 0, [])
  {
  }

  lemma QueueAhead(s: State, queue: seq<CpTrans>, start: nat, last: nat, transId: nat)
    requires Linked(s, queue, start, last, transId, {}, -1) && queue != [] && s.phase.Finishing?
    ensures s.dm < |s.trans| - 1
  {
    hide Pos, SlotAt;
  }

  /** What the end of the commit leaves in memory. */
  lemma FinishFields(s: State)
    requires Shape(s) && Enabled(s, FinishCommit) && s.phase.Finishing?
    ensures var t := Apply(s, FinishCommit);
      && t.geo == s.geo && t.disk == s.disk && NextId(t) == NextId(s) && t.trans == s.trans && t.mustSync == s.mustSync
      && t.cache == s.cache + s.open && t.open == map[] && t.touched == {} && t.revokes == {}
      && t.phase.Idle? && t.acked == |t.trans| && t.imgs == s.imgs && s.dm <= t.dm && RunId(t) == RunId(s) + 1
  {
    FinishShape(s);
  }

  lemma LeadingJoins(queue: seq<CpTrans>, q: CpTrans)
    requires queue == [] ==> !Done(q)
    ensures Leading(queue) == 0 ==> Leading(queue + [q]) == 0
  {
  }

  /** The entry describes the transaction that has just been committed. */
  ghost predicate Describing(s: State, q: CpTrans) {
    && Shape(s) && s.phase.Finishing? && !s.mustSync
    && EntryOk(s, |s.trans| - 1, q, {}, -1) && EntryCopies(s, |s.trans| - 1, q)
    && (q.dataCnt == 0 <==> s.trans[|s.trans| - 1].writes == []) && q.writtenCnt == 0
    && q.id == RunId(s) && forall lba :: Has(q.bufs, lba) <==> lba in s.open
  }

  /** The last step of a commit, in both cases. */
  lemma FinishLink(s: State, queue: seq<CpTrans>, start: nat, last: nat, transId: nat, q: CpTrans)
    requires Linked(s, queue, start, last, transId, {}, -1) && Describing(s, q)
    requires queue == [] && q.dataCnt != 0 ==> s.d == s.dm
    ensures Shape(s) && s.geo.Valid() && Enabled(s, FinishCommit)
      && Runs(s, [FinishCommit], Apply(s, FinishCommit), true)
    ensures if queue == [] && q.dataCnt == 0 then
              Linked(Apply(s, FinishCommit), [], Wrap(q.startIblock + q.allocBlocks, s.geo), last, q.id + 1, {}, -1)
            else
              Linked(Apply(s, FinishCommit), queue + [q], start, last, transId, {}, -1)
    ensures !(queue == [] && q.dataCnt == 0) && Leading(queue) == 0 ==> Leading(queue + [q]) == 0
    ensures var t := Apply(s, FinishCommit);
      && t.geo == s.geo && t.disk == s.disk && NextId(t) == NextId(s) && t.trans == s.trans && !t.mustSync
      && t.cache == s.cache + s.open && t.open == map[] && t.touched == {} && t.revokes == {}
      && t.phase.Idle? && t.acked == |t.trans| && t.imgs == s.imgs && s.dm <= t.dm
      && Shape(t) && RunId(t) == RunId(s) + 1
  {
    hide Runs, RunId, EntryOk, EntryCopies, Apply, Pos, SlotAt, Shape, Leading, RingOk, QueueOk, CopiesOk, Enabled,
         Orderly;
    if queue != [] { QueueAhead(s, queue, start, last, transId); }
    LogSize(s);
    FinishEnabled(s);
    ShapeKeeps(s, FinishCommit);
    RunsStep(s, FinishCommit);
    FinishFields(s);
    if queue == [] && q.dataCnt == 0 {
      PassLink(s, start, last, transId, q);
    } else {
      JoinLink(s, queue, start, last, transId, q);
      LeadingJoins(queue, q);
    }
  }

  lemma DescribingStill(s: State, t: State, q: CpTrans)
    requires Describing(s, q) && TailOnly(s, t) && Shape(t) && !t.mustSync
    ensures Describing(t, q)
  {
    hide EntryOk, EntryCopies, Pos, SlotAt;
    EntrySame(s, t, |s.trans| - 1, q, {}, -1);
    CopiesSame(s, t, |s.trans| - 1, q);
  }

  /** The slots noted while logging describe the committed transaction, and its revoked blocks are not
      outstanding any more. */
  lemma CommitDescribed(u: State, img: seq<Block>, t: Trans, homes: seq<Buf>, id: nat, start: nat)
    requires Shape(u) && HasRoom(u) && InLog(u) && !u.mustSync && img != [] && Enabled(u, WriteCommit)
    requires LoggedTo(u, t, img, |img|, |img| - 1, |img| - 1) && From(t.writes, u.open) && |img| <= u.geo.Slots()
    requires Describes(t, u.open, u.revokes) && RunningOk(u.cache, u.open, u.touched, u.revokes)
    requires HomesOk(u.geo, Head(u), img, t.writes, |t.writes|, |img| - 1, homes)
    requires id == NextId(u) && start == SlotAt(u.geo, Head(u))
    ensures Describing(Apply(u, WriteCommit), CpTrans(id, start, |img|, |t.writes|, 0, homes))
    ensures forall i :: 0 <= i < |t.revokes| ==> NotPending(Apply(u, WriteCommit).pending, t.revokes[i])
    ensures forall lba :: lba in u.revokes <==> lba in t.revokes
  {
    hide SlotAt, Pos, HomesOk, EntryOk, EntryCopies, InLog, From;
    var s := Apply(u, WriteCommit);
    ShapeKeeps(u, WriteCommit);
    CommitSlot(u, s);
    NewEntry(u, s, homes, id, start);
    forall i | 0 <= i < |t.revokes|
      ensures NotPending(s.pending, t.revokes[i])
    {
      assert t.revokes[i] in u.revokes;
    }
  }

  /** Something to commit: the step system may begin. */
  lemma BeginEnabled(s: State, t: Trans, img: seq<Block>)
    requires Shape(s) && s.phase.Idle? && t != Trans([], [])
    requires Describes(t, s.open, s.revokes) && ImageOf(img, NextId(s), t, s.geo)
    ensures Enabled(s, BeginCommit(t, img)) && Orderly(s, BeginCommit(t, img))
  {
    hide ImageOf;
    if t.writes != [] {
      var w := t.writes[|t.writes| - 1];
      assert LastWrite(t.writes, w.lba).Wrote?;
      assert w.lba in s.open;
    } else {
      assert t.revokes[0] in s.revokes;
    }
  }

  lemma FirstSlot(s: State, queue: seq<CpTrans>, start: nat, last: nat, transId: nat)
    requires Linked(s, queue, start, last, transId, {}, -1) && s.phase.Logging? && s.phase.alloc == 0
    ensures last == SlotAt(s.geo, Head(s))
  {
  }

  lemma CommitFields(u: State)
    requires Shape(u) && Enabled(u, WriteCommit)
    ensures Apply(u, WriteCommit).trans == u.trans + [u.phase.t] && Apply(u, WriteCommit).revokes == u.revokes
  {
  }

  /** A transaction shorter than the log can begin: there is room for its first block. */
  lemma QueueRoom(s: State, queue: seq<CpTrans>, start: nat, last: nat, transId: nat, t: Trans, img: seq<Block>)
    requires Linked(s, queue, start, last, transId, {}, -1) && Enabled(s, BeginCommit(t, img))
    requires Head(s) < Pos(s.imgs, s.dm) + s.geo.Slots()
    ensures var u := Apply(s, BeginCommit(t, img));
      Shape(u) && HasRoom(u) && InLog(u) && LoggedTo(u, t, img, 0, 0, 0) && u.trans == s.trans && NextId(u) == NextId(s)
  {
    hide Pos, SlotAt, Describes, ImageOf, EntryOk, EntryCopies;
    ShapeKeeps(s, BeginCommit(t, img));
  }

  /** Room is not lost when the tail moves. */
  lemma RoomOn(s: State, t: State)
    requires Shape(s) && Shape(t) && t.geo == s.geo && t.imgs == s.imgs && s.dm <= t.dm
    requires Allocated(t) == Allocated(s) && HasRoom(s)
    ensures HasRoom(t)
  {
    PosMonotone(s.imgs, s.dm, t.dm);
  }

  lemma CommitRoom(u: State)
    requires Shape(u) && Enabled(u, WriteCommit) && HasRoom(u)
    ensures Shape(Apply(u, WriteCommit)) && HasRoom(Apply(u, WriteCommit))
  {
    hide SlotAt;
    ShapeKeeps(u, WriteCommit);
    CommitHead(u);
  }

  lemma DescribingShape(s: State, q: CpTrans)
    requires Describing(s, q)
    ensures Shape(s) && !s.mustSync && s.phase.Finishing?
  {
  }

  // ------------------------------------------------- the running transaction

  /** The queue does not see what happens in the running transaction. */
  lemma RunningLink(s: State, queue: seq<CpTrans>, start: nat, last: nat, transId: nat, step: Step)
    requires Linked(s, queue, start, last, transId, {}, -1) && HasRoom(s) && Enabled(s, step)
    requires step.Dirty? || step.Free? || step.Abort?
    ensures var t := Apply(s, step);
      && Linked(t, queue, start, last, transId, {}, -1) && HasRoom(t) && NextId(t) == NextId(s)
      && t.geo == s.geo && t.disk == s.disk && t.phase == s.phase && t.mustSync == s.mustSync
  {
    hide EntryCopies, EntryOk, Pos, SlotAt, NewestCopy, Pending;
    ShapeKeeps(s, step);
    EntriesSame(s, Apply(s, step), queue, {}, -1);
  }

  /** A write is outstanding exactly if a transaction in the queue has it. */
  lemma PendingIsHeld(s: State, queue: seq<CpTrans>, start: nat, last: nat, transId: nat, lba: nat)
    requires Linked(s, queue, start, last, transId, {}, -1) && s.phase.Idle?
    ensures Pending(s.pending, lba) <==> Holds(queue, lba)
  {
    hide Pos, SlotAt, CopiesOk, RingOk, Has;
    assert forall k :: 0 <= k < |queue| ==> EntryOk(s, s.dm + k, queue[k], {}, -1);
    if Pending(s.pending, lba) {
      var i: nat :| i < |s.pending| && lba in s.pending[i];
      assert EntryOk(s, s.dm + (i - s.dm), queue[i - s.dm], {}, -1);
    }
  }

  /** The last version of a block is that of the last transaction that wrote it. */
  lemma {:induction false} LastEventAt(txs: seq<Trans>, i: nat, lba: nat)
    requires i < |txs| && LastEvent(txs, lba).Wrote? && LastWrite(txs[i].writes, lba).Wrote?
    requires forall j :: i < j < |txs| ==> !LastWrite(txs[j].writes, lba).Wrote?
    ensures LastEvent(txs, lba) == LastWrite(txs[i].writes, lba)
    decreases |txs|
  {
    hide LastWrite;
    var n := |txs| - 1;
    LastWriteOnly(txs[n].writes, lba);
    if i < n {
      LastEventAt(txs[..n], i, lba);
    }
  }

  /** The newest holder of a block has its committed version in the log. */
  lemma NewestLogged(s: State, queue: seq<CpTrans>, start: nat, last: nat, transId: nat, lba: nat, k: nat)
    requires Linked(s, queue, start, last, transId, {}, -1) && Core(s) && s.phase.Idle? && Plain(s.trans)
    requires IsNewest(queue, lba, k)
    ensures forall b :: b in queue[k].bufs && b.lba == lba ==>
      b.slot < |s.disk.log| && s.disk.log[b.slot] == NewestCopy(s, lba)
  {
    hide Pos, SlotAt, LogOk, TailOk, FinishingOk, RoomOk, HomeOk, CacheOk, WriteAhead, RingOk, LastWrite, LastEvent,
         Plain;
    var i := s.dm + k;
    assert EntryOk(s, i, queue[k], {}, -1) && EntryCopies(s, i, queue[k]);
    assert PendingAt(s.base, s.trans, s.pending, s.dm, i, lba);
    forall j | i < j < |s.trans|
      ensures !LastWrite(s.trans[j].writes, lba).Wrote?
    {
      assert EntryOk(s, s.dm + (j - s.dm), queue[j - s.dm], {}, -1);
    }
    LastEventAt(s.trans, i, lba);
    LastIn(s.trans[i].writes, lba);
    PlainAt(s.trans, i, LastWrite(s.trans[i].writes, lba).data, lba);
  }

  lemma PlainAt(txs: seq<Trans>, i: nat, data: Block, lba: nat)
    requires Plain(txs) && i < |txs| && Write(lba, data) in txs[i].writes
    ensures !IsMagic(data) && Escaped(data) == data
  {
  }

  lemma AbortFields(s: State)
    requires Shape(s) && s.phase.Idle?
    ensures Enabled(s, Abort)
    ensures var t := Apply(s, Abort);
      && t.open == map[] && t.touched == {} && t.revokes == {}
      && t.cache == s.cache + map lba | lba in s.touched && Pending(s.pending, lba) :: NewestCopy(s, lba)
  {
    hide NewestCopy, Pending;
  }

  /** An empty log: nothing is linked. */
  lemma StartLink(geo: Geometry, home: map<nat, Block>, log: seq<Block>, sequence: nat)
    requires geo.Valid() && |log| == geo.maxlen
    ensures var s := Start(geo, home, log, sequence);
      Linked(s, [], geo.first, geo.first, sequence + 1, {}, -1) && HasRoom(s) && NextId(s) == sequence + 1
  {
  }

  lemma EmptyIsCurrent(s: State, start: nat, last: nat, transId: nat)
    requires Linked(s, [], start, last, transId, {}, -1) && (Core(s) || Sound(s)) && s.phase.Idle?
    ensures forall lba :: lba in s.base ==> AgreesAt(s.base, s.trans, s.disk.home, lba)
  {
    hide LogOk, DataOk, TailOk, FinishingOk, RoomOk, AgreesAt, Pos, SlotAt, StaleOnly;
    forall lba | lba in s.base
      ensures AgreesAt(s.base, s.trans, s.disk.home, lba)
    {
      if Core(s) {
        DrainedIsCurrent(s, lba);
      } else {
        var log :| Restarted(s, log);
        RestartHome(s, log);
        NoEvents();
        NothingOver(s.disk.home, lba);
        assert s.trans[..0] == s.trans;
      }
    }
  }

  lemma QueueCore(s: State, queue: seq<CpTrans>, start: nat, last: nat, transId: nat)
    requires Linked(s, queue, start, last, transId, {}, -1) && queue != [] && (Core(s) || Sound(s))
    ensures Core(s)
  {
    hide LogOk, DataOk, TailOk, FinishingOk, RoomOk, Pos, SlotAt, StaleOnly;
    assert s.trans != [];
    CommittedCore(s);
  }

  /** A crash may come after any step of a commit: up to there the run is orderly too. */
  lemma {:induction false} Interrupted(s: State, steps: seq<Step>, t: State, k: nat)
    requires Sound(s) && Runs(s, steps, t, true) && k <= |steps|
    ensures Path(s, steps[..k]) && OrderlyPath(s, steps[..k]) && Sound(End(s, steps[..k]))
    decreases k
  {
    hide Sound, Shape, Enabled, Apply, Orderly;
    if k == 0 {
      assert steps[..0] == [];
    } else {
      var u := Apply(s, steps[0]);
      SoundShape(s);
      SoundStep(s, steps[0]);
      Interrupted(u, steps[1..], t, k - 1);
      assert steps[..k][1..] == steps[1..][..k - 1] && steps[..k][0] == steps[0];
    }
  }
}
