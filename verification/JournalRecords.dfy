/** Block records: which transaction, running or in the checkpoint queue, was the last to dirty a block;
    and the list of buffers of the running transaction. */
module JournalRecords {
  import opened JournalFormat
  import opened JournalRecovery
  import opened JournalProtocol
  import opened JournalTheorems
  import opened JournalQueue

  // --------------------------------------------------------- block records

  /** Some transaction of the queue still has to write the block. */
  predicate Holds(queue: seq<CpTrans>, lba: nat) { exists k :: 0 <= k < |queue| && Has(queue[k].bufs, lba) }

  /** The blocks whose record belongs to the running transaction. During its commit these are its dirty
      blocks. */
  function Own(s: State): set<nat> { if s.phase.Idle? then s.touched else s.open.Keys }

  /** The id that the running transaction gets. */
  function RunId(s: State): nat
    requires s.phase.Finishing? ==> s.trans != []
  {
    s.firstId + QueueEnd(s)
  }

  predicate IsId(queue: seq<CpTrans>, id: nat) { exists k :: 0 <= k < |queue| && queue[k].id == id }

  /** The newest transaction with an outstanding write of the block, if there is one, has its record. */
  ghost predicate NewestOwns(recs: map<nat, nat>, queue: seq<CpTrans>, lba: nat) {
    forall k: nat :: IsNewest(queue, lba, k) ==> lba in recs && recs[lba] == queue[k].id
  }

  /** A record belongs to the running transaction, whose id is `next`, or to one in the queue; and then to
      the newest with an outstanding write of the block. This is left open for the blocks in `free`. */
  ghost predicate RecsOk(recs: map<nat, nat>, queue: seq<CpTrans>, own: set<nat>, next: nat, free: set<nat>) {
    && (forall lba :: lba in own <==> lba in recs && recs[lba] == next)
    && (forall lba :: lba in recs && lba !in own ==> IsId(queue, recs[lba]))
    && (forall lba :: lba !in own && lba !in free ==> NewestOwns(recs, queue, lba))
  }

  predicate Numbered(queue: seq<CpTrans>, next: nat) {
    forall k :: 0 <= k < |queue| ==> queue[k].id + |queue| == next + k
  }

  lemma LinkIds(s: State, queue: seq<CpTrans>, start: nat, last: nat, transId: nat, loose: set<nat>, owed: int)
    requires Linked(s, queue, start, last, transId, loose, owed)
    ensures Shape(s) && Numbered(queue, RunId(s)) && RunId(s) == s.firstId + s.dm + |queue|
  {
    Ids(s, queue, loose, owed);
  }

  /** The jbd_buf of a block that was queued last. */
  function FirstOf(bufs: seq<Buf>, lba: nat): (b: Buf)
    requires Has(bufs, lba)
    ensures b in bufs && b.lba == lba
  {
    if bufs[0].lba == lba then bufs[0] else
      assert bufs == [bufs[0]] + bufs[1..];
      FirstOf(bufs[1..], lba)
  }

  lemma NewestIs(queue: seq<CpTrans>, lba: nat) returns (k: nat)
    requires Holds(queue, lba)
    ensures IsNewest(queue, lba, k)
  {
    hide Has;
    k := |queue| - 1;
    while !Has(queue[k].bufs, lba)
      invariant k < |queue| && forall j :: k < j < |queue| ==> !Has(queue[j].bufs, lba)
      invariant Holds(queue, lba)
      decreases k
    {
      if k == 0 { assert false; }
      k := k - 1;
    }
  }

  /** The records of a transaction are freed with it. */
  function Freed(recs: map<nat, nat>, id: nat): map<nat, nat> {
    map lba | lba in recs && recs[lba] != id :: recs[lba]
  }

  lemma RecsRetire(recs: map<nat, nat>, queue: seq<CpTrans>, own: set<nat>, next: nat, free: set<nat>)
    requires RecsOk(recs, queue, own, next, free) && queue != [] && Numbered(queue, next)
    ensures RecsOk(Freed(recs, queue[0].id), queue[1..], own, next, free)
  {
    hide Has;
    var r, w := Freed(recs, queue[0].id), queue[1..];
    assert queue[0].id != next;
    forall lba | lba in r && lba !in own
      ensures IsId(w, r[lba])
    {
      var k :| 0 <= k < |queue| && queue[k].id == recs[lba];
      assert w[k - 1].id == r[lba];
    }
    forall lba | lba !in own && lba !in free
      ensures NewestOwns(r, w, lba)
    {
      RetireOwns(recs, queue, lba, next);
    }
  }

  lemma RetireOwns(recs: map<nat, nat>, queue: seq<CpTrans>, lba: nat, next: nat)
    requires NewestOwns(recs, queue, lba) && queue != [] && Numbered(queue, next)
    ensures NewestOwns(Freed(recs, queue[0].id), queue[1..], lba)
  {
    hide Has;
    var w := queue[1..];
    forall k: nat | IsNewest(w, lba, k)
      ensures lba in recs && recs[lba] != queue[0].id && recs[lba] == w[k].id
    {
      assert w[k] == queue[k + 1];
      assert forall j :: k + 1 < j < |queue| ==> queue[j] == w[j - 1];
      assert IsNewest(queue, lba, k + 1);
    }
  }

  /** Writes of block x have ended; a transaction with an outstanding write of it that is left was the
      newest before, or x is in `free`. */
  lemma RecsEnded(recs: map<nat, nat>, queue: seq<CpTrans>, w: seq<CpTrans>, own: set<nat>, next: nat, free: set<nat>,
                  x: nat)
    requires RecsOk(recs, queue, own, next, free) && |w| == |queue|
    requires forall k :: 0 <= k < |w| ==> w[k].id == queue[k].id
    requires forall k, lba :: 0 <= k < |w| && lba != x ==> (Has(w[k].bufs, lba) <==> Has(queue[k].bufs, lba))
    requires x in free || forall k :: 0 < k < |w| ==> w[k] == queue[k]
    requires x in free || w == [] || !Has(w[0].bufs, x)
    ensures RecsOk(recs, w, own, next, free)
  {
    hide Has;
    forall lba | lba in recs && lba !in own
      ensures IsId(w, recs[lba])
    {
      var k :| 0 <= k < |queue| && queue[k].id == recs[lba];
      assert w[k].id == recs[lba];
    }
    forall lba | lba !in own && lba !in free
      ensures NewestOwns(recs, w, lba)
    {
      assert NewestOwns(recs, queue, lba);
      forall k: nat | IsNewest(w, lba, k)
        ensures lba in recs && recs[lba] == w[k].id
      {
        assert IsNewest(queue, lba, k);
      }
    }
  }

  lemma EndedHas(queue: seq<CpTrans>, p: nat, x: nat)
    requires p < |queue|
    ensures forall k, lba :: 0 <= k < |queue| && lba != x ==>
      (Has(queue[p := Ended(queue[p], x)][k].bufs, lba) <==> Has(queue[k].bufs, lba))
    ensures !Has(Ended(queue[p], x).bufs, x)
  {
    forall lba | lba != x
      ensures Has(Ended(queue[p], x).bufs, lba) <==> Has(queue[p].bufs, lba)
    {
      EndedOther(queue[p], x, lba);
    }
  }

  lemma EndedOther(q: CpTrans, x: nat, lba: nat)
    requires lba != x
    ensures Has(Ended(q, x).bufs, lba) <==> Has(q.bufs, lba)
  {
    var d := Drop(q.bufs, x);
    if Has(q.bufs, lba) {
      var b :| b in q.bufs && b.lba == lba;
      assert b in d;
    }
    if Has(d, lba) {
      var b :| b in d && b.lba == lba;
      assert b in q.bufs;
    }
  }

  /** Nobody holds block x any more. */
  lemma RecsBound(recs: map<nat, nat>, queue: seq<CpTrans>, own: set<nat>, next: nat, free: set<nat>, x: nat)
    requires RecsOk(recs, queue, own, next, free) && forall k :: 0 <= k < |queue| ==> !Has(queue[k].bufs, x)
    ensures RecsOk(recs, queue, own, next, free - {x})
  {
    hide Has;
    assert NewestOwns(recs, queue, x);
  }

  lemma RecsMore(recs: map<nat, nat>, queue: seq<CpTrans>, own: set<nat>, next: nat, free: set<nat>, x: nat)
    requires RecsOk(recs, queue, own, next, free)
    ensures RecsOk(recs, queue, own, next, free + {x})
  {
    hide NewestOwns, IsId;
  }

  /** The committed transaction joins the queue with the records of its blocks. */
  lemma RecsJoin(recs: map<nat, nat>, queue: seq<CpTrans>, own: set<nat>, next: nat, q: CpTrans)
    requires RecsOk(recs, queue, own, next, {}) && Numbered(queue, next) && q.id == next
    requires forall lba :: Has(q.bufs, lba) <==> lba in own
    ensures RecsOk(recs, queue + [q], {}, next + 1, {})
  {
    hide Has, NewestOwns;
    var w := queue + [q];
    forall lba | lba in recs
      ensures recs[lba] < next + 1 && IsId(w, recs[lba])
    {
      if lba in own {
        assert w[|queue|].id == recs[lba];
      } else {
        var k :| 0 <= k < |queue| && queue[k].id == recs[lba];
        assert w[k].id == recs[lba];
      }
    }
    forall lba: nat
      ensures NewestOwns(recs, w, lba)
    {
      JoinOwns(recs, queue, q, lba, lba in own);
    }
  }

  lemma JoinOwns(recs: map<nat, nat>, queue: seq<CpTrans>, q: CpTrans, lba: nat, mine: bool)
    requires Has(q.bufs, lba) <==> mine
    requires if mine then lba in recs && recs[lba] == q.id else NewestOwns(recs, queue, lba)
    ensures NewestOwns(recs, queue + [q], lba)
  {
    hide Has;
    var w := queue + [q];
    forall k: nat | IsNewest(w, lba, k)
      ensures lba in recs && recs[lba] == w[k].id
    {
      if mine {
        assert Has(w[|queue|].bufs, lba);
        assert k == |queue|;
      } else {
        assert k < |queue|;
        assert forall j :: k < j < |queue| ==> w[j] == queue[j];
        assert IsNewest(queue, lba, k);
      }
    }
  }

  lemma RecsPass(recs: map<nat, nat>, next: nat)
    requires RecsOk(recs, [], {}, next, {})
    ensures RecsOk(recs, [], {}, next + 1, {}) && recs == map[]
  {
    assert forall lba :: lba in recs ==> IsId([], recs[lba]);
    assert recs == map[];
  }

  /** The running transaction dirties a block. */
  lemma RecsTake(recs: map<nat, nat>, queue: seq<CpTrans>, own: set<nat>, next: nat, lba: nat)
    requires RecsOk(recs, queue, own, next, {})
    ensures RecsOk(recs[lba := next], queue, own + {lba}, next, {})
  {
    hide NewestOwns, IsId;
    var r := recs[lba := next];
    forall x | x !in own + {lba}
      ensures NewestOwns(r, queue, x)
    {
      OwnsStill(recs, r, queue, x);
    }
  }

  /** The record of a block goes back to the newest transaction that still has to write it. */
  lemma RecsBack(recs: map<nat, nat>, queue: seq<CpTrans>, own: set<nat>, next: nat, lba: nat, k: nat)
    requires RecsOk(recs, queue, own, next, {}) && lba in own && Numbered(queue, next) && IsNewest(queue, lba, k)
    ensures RecsOk(recs[lba := queue[k].id], queue, own - {lba}, next, {}) && Holds(queue, lba)
    ensures NewestOwns(recs[lba := queue[k].id], queue, lba)
  {
    hide Has;
    var r := recs[lba := queue[k].id];
    assert IsId(queue, r[lba]) && r[lba] != next;
    forall x | x !in own - {lba}
      ensures NewestOwns(r, queue, x)
    {
      if x == lba { OneNewest(queue, lba, k); } else { OwnsStill(recs, r, queue, x); }
    }
  }

  lemma OneNewest(queue: seq<CpTrans>, lba: nat, k: nat)
    requires IsNewest(queue, lba, k)
    ensures forall j: nat :: IsNewest(queue, lba, j) ==> j == k
  {
    hide Has;
  }

  lemma OwnsStill(recs: map<nat, nat>, r: map<nat, nat>, queue: seq<CpTrans>, x: nat)
    requires NewestOwns(recs, queue, x) && (x in r <==> x in recs) && (x in r ==> r[x] == recs[x])
    ensures NewestOwns(r, queue, x)
  {
    hide IsNewest;
  }

  /** Or it is freed. */
  lemma RecsGone(recs: map<nat, nat>, queue: seq<CpTrans>, own: set<nat>, next: nat, lba: nat)
    requires RecsOk(recs, queue, own, next, {}) && lba in own && !Holds(queue, lba)
    ensures RecsOk(recs - {lba}, queue, own - {lba}, next, {}) && NewestOwns(recs - {lba}, queue, lba)
  {
    hide Has, IsId;
    var r := recs - {lba};
    forall x | x !in own - {lba}
      ensures NewestOwns(r, queue, x)
    {
      if x != lba { OwnsStill(recs, r, queue, x); }
    }
  }

  /** What the records are after the running transaction gave back those of some of its blocks. */
  ghost predicate GivenBack(was: map<nat, nat>, recs: map<nat, nat>, queue: seq<CpTrans>, back: set<nat>) {
    && (forall lba :: lba !in back ==> (lba in recs <==> lba in was) && (lba in recs ==> recs[lba] == was[lba]))
    && forall lba :: lba in back ==> (lba in recs <==> Holds(queue, lba)) && NewestOwns(recs, queue, lba)
  }

  lemma BackStep(was: map<nat, nat>, recs: map<nat, nat>, r: map<nat, nat>, queue: seq<CpTrans>, back: set<nat>,
                 lba: nat)
    requires GivenBack(was, recs, queue, back) && lba !in back
    requires forall x :: x != lba ==> (x in r <==> x in recs) && (x in r ==> r[x] == recs[x])
    requires (lba in r <==> Holds(queue, lba)) && NewestOwns(r, queue, lba)
    ensures GivenBack(was, r, queue, back + {lba})
  {
    hide Holds;
    forall x | x in back + {lba}
      ensures (x in r <==> Holds(queue, x)) && NewestOwns(r, queue, x)
    {
      if x != lba { assert NewestOwns(recs, queue, x); }
    }
  }

  // ------------------------------------------------ the running transaction

  /** A buffer of the running transaction is not in the cache's charge, and a block is not both dirty and
      revoked. */
  predicate RunningOk(cache: map<nat, Block>, open: map<nat, Block>, touched: set<nat>, revokes: set<nat>) {
    && (forall lba :: lba in open ==> lba in touched && lba !in revokes)
    && (forall lba :: lba in cache ==> lba !in touched)
  }

  lemma NothingRuns(cache: map<nat, Block>, open: map<nat, Block>, touched: set<nat>, revokes: set<nat>)
    requires open == map[] && touched == {}
    ensures RunningOk(cache, open, touched, revokes)
  {
  }

  lemma RunningLess(cache: map<nat, Block>, open: map<nat, Block>, touched: set<nat>, revokes: set<nat>, lba: nat)
    requires RunningOk(cache, open, touched, revokes)
    ensures RunningOk(cache - {lba}, open, touched, revokes)
  {
  }

  /** The buffer list has every block that was dirtied; a block that was freed since, and is not revoked, has
      no write outstanding. */
  ghost predicate ListOk(bufQueue: seq<nat>, open: map<nat, Block>, touched: set<nat>, revokes: set<nat>,
                         queue: seq<CpTrans>, geo: Geometry) {
    && (forall lba :: lba in bufQueue <==> lba in touched)
    && (forall lba :: lba in bufQueue ==> geo.Fits(lba))
    && (forall lba :: lba in open ==> |open[lba]| == geo.words)
    && (forall lba :: lba in revokes ==> geo.Fits(lba))
    && (forall lba :: lba in touched && lba !in open && lba !in revokes ==> !Holds(queue, lba))
  }

  lemma NothingListed(queue: seq<CpTrans>, geo: Geometry)
    ensures ListOk([], map[], {}, {}, queue, geo)
  {
  }

  lemma ListLess(bufQueue: seq<nat>, open: map<nat, Block>, touched: set<nat>, revokes: set<nat>,
                 queue: seq<CpTrans>, w: seq<CpTrans>, geo: Geometry)
    requires ListOk(bufQueue, open, touched, revokes, queue, geo)
    requires forall lba :: Holds(w, lba) ==> Holds(queue, lba)
    ensures ListOk(bufQueue, open, touched, revokes, w, geo)
  {
    hide Holds;
  }

  /** The jbd_bufs of the running transaction as they are when it commits. */
  function Buffers(bufQueue: seq<nat>, open: map<nat, Block>): (r: seq<JournalBuf>)
    ensures |r| == |bufQueue|
    ensures forall i :: 0 <= i < |r| ==> r[i] == BufferOf(bufQueue[i], open)
  {
    seq(|bufQueue|, i requires 0 <= i < |bufQueue| => BufferOf(bufQueue[i], open))
  }

  function BufferOf(lba: nat, open: map<nat, Block>): JournalBuf {
    JournalBuf(lba, if lba in open then open[lba] else [], lba in open)
  }

  lemma {:induction false} DirtyIs(bufs: seq<JournalBuf>)
    ensures forall w :: w in DirtyWrites(bufs) <==> JournalBuf(w.lba, w.data, true) in bufs
    decreases |bufs|
  {
    if bufs != [] {
      DirtyIs(bufs[1..]);
      assert bufs == [bufs[0]] + bufs[1..];
    }
  }

  /** The writes are those of blocks that are dirty, with their content. */
  predicate From(ws: seq<Write>, open: map<nat, Block>) {
    forall w :: w in ws ==> w.lba in open && w.data == open[w.lba]
  }

  lemma FromAt(ws: seq<Write>, open: map<nat, Block>, lba: nat)
    requires From(ws, open)
    ensures LastWrite(ws, lba).Wrote? ==> lba in open && LastWrite(ws, lba) == Wrote(open[lba])
    ensures lba in open && Write(lba, open[lba]) in ws ==> LastWrite(ws, lba).Wrote?
  {
    hide LastWrite;
    LastIn(ws, lba);
    LastWriteOnly(ws, lba);
  }

  /** The running transaction is what its buffer list and revoke records say. */
  lemma RunningIs(bufQueue: seq<nat>, open: map<nat, Block>, touched: set<nat>, revokes: set<nat>, recs: seq<nat>,
                  queue: seq<CpTrans>, geo: Geometry, cache: map<nat, Block>)
    requires ListOk(bufQueue, open, touched, revokes, queue, geo) && RunningOk(cache, open, touched, revokes)
    requires forall lba :: lba in recs <==> lba in revokes
    ensures QueueFits(Buffers(bufQueue, open), geo) && forall i :: 0 <= i < |recs| ==> geo.Fits(recs[i])
    ensures From(DirtyWrites(Buffers(bufQueue, open)), open)
    ensures Describes(Trans(DirtyWrites(Buffers(bufQueue, open)), recs), open, revokes)
    ensures DirtyWrites(Buffers(bufQueue, open)) == [] <==> open == map[]
  {
    hide LastWrite, DirtyWrites, Holds;
    var bufs := Buffers(bufQueue, open);
    var ws := DirtyWrites(bufs);
    DirtyIs(bufs);
    forall lba | lba in open
      ensures Write(lba, open[lba]) in ws
    {
      var i :| 0 <= i < |bufQueue| && bufQueue[i] == lba;
      assert bufs[i] == JournalBuf(lba, open[lba], true);
    }
    forall w | w in ws
      ensures w.lba in open && w.data == open[w.lba]
    {
      var i :| 0 <= i < |bufs| && bufs[i] == JournalBuf(w.lba, w.data, true);
    }
    forall lba
      ensures LastWrite(ws, lba) == if lba in open then Wrote(open[lba]) else Nothing
    {
      FromAt(ws, open, lba);
      LastWriteOnly(ws, lba);
    }
    if ws == [] { assert open == map[]; } else { assert ws[0] in ws; }
  }
}
