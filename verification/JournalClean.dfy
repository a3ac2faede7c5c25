/** Buffers that are up to date and clean: a checkpoint leaves their blocks alone, also when a transaction
    still has to write them. */
module JournalClean {
  import opened JournalFormat
  import opened JournalRecovery
  import opened JournalProtocol
  import opened JournalTheorems
  import opened JournalQueue
  import opened JournalRecords

  /** No clean buffer is dirty. */
  predicate Apart(clean: set<nat>, cache: map<nat, Block>, open: map<nat, Block>) {
    forall lba :: lba in clean ==> lba !in cache && lba !in open
  }

  /** The transaction that has the record of the block still has to write it, and the buffer is clean. */
  ghost predicate Waits(queue: seq<CpTrans>, clean: set<nat>, recs: map<nat, nat>, lba: nat) {
    lba in clean && lba in recs && exists k :: 0 <= k < |queue| && queue[k].id == recs[lba] && Has(queue[k].bufs, lba)
  }

  /** The same blocks wait, for the same transactions. */
  ghost predicate SameWaits(q0: seq<CpTrans>, c0: set<nat>, r0: map<nat, nat>, q1: seq<CpTrans>, c1: set<nat>,
                            r1: map<nat, nat>) {
    forall lba ::
      && (Waits(q0, c0, r0, lba) <==> Waits(q1, c1, r1, lba))
      && (Waits(q0, c0, r0, lba) ==> lba in r0 && lba in r1 && r1[lba] == r0[lba])
  }

  /** A block waits for transaction `id`. */
  ghost predicate WaitsFor(queue: seq<CpTrans>, clean: set<nat>, recs: map<nat, nat>, id: nat) {
    exists lba :: Waits(queue, clean, recs, lba) && lba in recs && recs[lba] == id
  }

  lemma SameNow(q: seq<CpTrans>, c: set<nat>, r: map<nat, nat>)
    ensures SameWaits(q, c, r, q, c, r)
  {
  }

  lemma SameThen(q0: seq<CpTrans>, c0: set<nat>, r0: map<nat, nat>, q1: seq<CpTrans>, c1: set<nat>, r1: map<nat, nat>,
                 q2: seq<CpTrans>, c2: set<nat>, r2: map<nat, nat>)
    requires SameWaits(q0, c0, r0, q1, c1, r1) && SameWaits(q1, c1, r1, q2, c2, r2)
    ensures SameWaits(q0, c0, r0, q2, c2, r2)
  {
    hide Waits;
  }

  lemma SameFor(q0: seq<CpTrans>, c0: set<nat>, r0: map<nat, nat>, q1: seq<CpTrans>, c1: set<nat>, r1: map<nat, nat>,
                id: nat)
    requires SameWaits(q0, c0, r0, q1, c1, r1)
    ensures WaitsFor(q0, c0, r0, id) <==> WaitsFor(q1, c1, r1, id)
  {
    hide Waits;
  }

  /** A finished transaction leaves the queue with its records. */
  lemma WaitsRetire(queue: seq<CpTrans>, clean: set<nat>, recs: map<nat, nat>, next: nat)
    requires queue != [] && queue[0].bufs == [] && Numbered(queue, next)
    ensures SameWaits(queue, clean, recs, queue[1..], clean, Freed(recs, queue[0].id))
  {
    var w, r := queue[1..], Freed(recs, queue[0].id);
    forall lba
      ensures Waits(queue, clean, recs, lba) <==> Waits(w, clean, r, lba)
      ensures Waits(queue, clean, recs, lba) ==> lba in r && r[lba] == recs[lba]
    {
      if Waits(queue, clean, recs, lba) {
        var k :| 0 <= k < |queue| && queue[k].id == recs[lba] && Has(queue[k].bufs, lba);
        assert k > 0 && w[k - 1] == queue[k];
      }
      if Waits(w, clean, r, lba) {
        var k :| 0 <= k < |w| && w[k].id == r[lba] && Has(w[k].bufs, lba);
        assert queue[k + 1] == w[k];
      }
    }
  }

  /** The head's write of a block ends that does not wait for it. */
  lemma WaitsEnded(queue: seq<CpTrans>, clean: set<nat>, recs: map<nat, nat>, x: nat, next: nat)
    requires queue != [] && Numbered(queue, next)
    requires x in clean ==> x !in recs || recs[x] != queue[0].id
    ensures SameWaits(queue, clean, recs, queue[0 := Ended(queue[0], x)], clean, recs)
  {
    hide Has, Ended;
    var w := queue[0 := Ended(queue[0], x)];
    EndedHas(queue, 0, x);
    assert w[0].id == queue[0].id by { EndedId(queue[0], x); }
    forall lba
      ensures Waits(queue, clean, recs, lba) <==> Waits(w, clean, recs, lba)
    {
      if Waits(queue, clean, recs, lba) {
        var k :| 0 <= k < |queue| && queue[k].id == recs[lba] && Has(queue[k].bufs, lba);
        assert w[k].id == recs[lba] && Has(w[k].bufs, lba);
      }
      if Waits(w, clean, recs, lba) {
        var k :| 0 <= k < |w| && w[k].id == recs[lba] && Has(w[k].bufs, lba);
        assert queue[k].id == recs[lba] && Has(queue[k].bufs, lba);
      }
    }
  }

  lemma EndedId(q: CpTrans, x: nat)
    ensures Ended(q, x).id == q.id
  {
  }

  /** A buffer that was written becomes clean; nobody waits for its block any more. */
  lemma WaitsMore(queue: seq<CpTrans>, clean: set<nat>, recs: map<nat, nat>, x: nat)
    requires x !in clean && !Holds(queue, x)
    ensures SameWaits(queue, clean, recs, queue, clean + {x}, recs)
  {
    hide Has;
  }

  /** Nothing waits for a transaction that is not at the head any more. */
  lemma WaitsIndex(queue: seq<CpTrans>, clean: set<nat>, recs: map<nat, nat>, lba: nat, next: nat)
    requires Waits(queue, clean, recs, lba) && Numbered(queue, next)
    ensures lba in recs && recs[lba] + |queue| >= next && recs[lba] < next
    ensures queue != [] && (recs[lba] == queue[0].id ==> Has(queue[0].bufs, lba))
  {
    hide Has;
    var k :| 0 <= k < |queue| && queue[k].id == recs[lba] && Has(queue[k].bufs, lba);
  }

  /** While the running transaction owns no other record than those of its dirty blocks, a block waits exactly
      if it is clean and some transaction still has to write it: the newest of these. */
  lemma WaitsIs(queue: seq<CpTrans>, clean: set<nat>, recs: map<nat, nat>, own: set<nat>, next: nat, lba: nat)
    requires RecsOk(recs, queue, own, next, {}) && Numbered(queue, next) && lba !in own
    ensures Waits(queue, clean, recs, lba) <==> lba in clean && Holds(queue, lba)
    ensures forall k: nat :: Waits(queue, clean, recs, lba) && IsNewest(queue, lba, k) ==> recs[lba] == queue[k].id
  {
    hide Has, IsId;
    assert NewestOwns(recs, queue, lba);
    if lba in clean && Holds(queue, lba) {
      var k := NewestIs(queue, lba);
      assert Has(queue[k].bufs, lba);
    }
  }

  // ------------------------------------------------------------ one checkpoint

  /** The blocks whose record belongs to transaction `id`. */
  function Mine(recs: map<nat, nat>, id: nat): set<nat> { set lba | lba in recs && recs[lba] == id }

  /** All that the oldest transaction still has to write waits for it. */
  ghost predicate AllWait(queue: seq<CpTrans>, clean: set<nat>, recs: map<nat, nat>) {
    queue != [] && forall lba :: Has(queue[0].bufs, lba) ==> Waits(queue, clean, recs, lba) && recs[lba] == queue[0].id
  }

  /** The walk of jbd_journal_flush_trans through the buffers of a transaction, newest first, goes on at one that
      has been freed. `mine` are the blocks whose record belongs to the transaction and whose buffer is not clean:
      with the newest buffer of such a block the older ones end as well, and are freed. */
  predicate Dangles(bufs: seq<Buf>, mine: set<nat>)
    decreases |bufs|
  {
    if bufs == [] then false
    else
      var b, rest := bufs[0], bufs[1..];
      if b.lba !in mine then Dangles(rest, mine)
      else Times(rest, b.lba) >= 2 || (rest != [] && rest[0].lba == b.lba) || Dangles(Drop(rest, b.lba), mine)
  }

  lemma {:induction false} DropConcat(a: seq<Buf>, b: seq<Buf>, x: nat)
    ensures Drop(a + b, x) == Drop(a, x) + Drop(b, x)
    decreases |b|
  {
    hide Has, Drop;
    if b == [] {
      assert a + b == a;
      DropNone(x);
    } else {
      var n := |b| - 1;
      DropConcat(a, b[..n], x);
      DropLast(b[..n], b[n], x);
      DropLast(a + b[..n], b[n], x);
      assert b == b[..n] + [b[n]] && a + b == (a + b[..n]) + [b[n]];
    }
  }

  lemma DropNone(x: nat)
    ensures Drop([], x) == []
  {
  }

  lemma DropLast(a: seq<Buf>, y: Buf, x: nat)
    ensures Drop(a + [y], x) == Drop(a, x) + if y.lba == x then [] else [y]
  {
    assert (a + [y])[..|a|] == a;
  }

  lemma TimesFirst(bufs: seq<Buf>, x: nat)
    requires bufs != []
    ensures Times(bufs, x) == Times(bufs[1..], x) + if bufs[0].lba == x then 1 else 0
  {
    assert bufs == [bufs[0]] + bufs[1..];
    DropConcat([bufs[0]], bufs[1..], x);
    assert [bufs[0]][..0] == [];
  }

  /** Dropping one block takes no buffer of another. */
  lemma {:induction false} TimesOther(bufs: seq<Buf>, x: nat, y: nat)
    requires x != y
    ensures Times(Drop(bufs, x), y) == Times(bufs, y)
    decreases |bufs|
  {
    if bufs != [] {
      var b, rest := bufs[0], bufs[1..];
      assert bufs == [b] + rest;
      DropConcat([b], rest, x);
      TimesOther(rest, x, y);
      TimesFirst(bufs, y);
      assert [b][..0] == [];
      var d := Drop(bufs, x);
      if b.lba == x {
        assert d == Drop(rest, x);
      } else {
        assert d == [b] + Drop(rest, x) && d[1..] == Drop(rest, x);
        TimesFirst(d, y);
      }
    }
  }

  /** The walk stays on its list when no block of the transaction has two buffers. */
  lemma {:induction false} DanglesTwice(bufs: seq<Buf>, mine: set<nat>)
    requires Dangles(bufs, mine)
    ensures exists x :: x in mine && Times(bufs, x) >= 2
    decreases |bufs|
  {
    hide Times, Drop;
    var b, rest := bufs[0], bufs[1..];
    TimesFirst(bufs, b.lba);
    if b.lba !in mine {
      DanglesTwice(rest, mine);
      var x :| x in mine && Times(rest, x) >= 2;
      TimesFirst(bufs, x);
      assert Times(bufs, x) >= 2;
    } else if Times(rest, b.lba) >= 1 {
      assert Times(bufs, b.lba) >= 2;
    } else {
      if rest != [] { TimesFirst(rest, b.lba); }
      DanglesTwice(Drop(rest, b.lba), mine);
      var x :| x in mine && Times(Drop(rest, b.lba), x) >= 2;
      DroppedNone(rest, b.lba);
      if x != b.lba { TimesOther(rest, b.lba, x); }
      TimesFirst(bufs, x);
      assert Times(bufs, x) >= 2;
    }
  }

  lemma DroppedNone(bufs: seq<Buf>, x: nat)
    ensures Times(Drop(bufs, x), x) == 0
  {
    assert !Has(Drop(bufs, x), x);
  }

  /** It leaves it at two buffers of one block that lie side by side. */
  lemma {:induction false} DanglesNext(a: seq<Buf>, p: Buf, q: Buf, c: seq<Buf>, mine: set<nat>)
    requires p.lba == q.lba && p.lba in mine
    ensures Dangles(a + [p, q] + c, mine)
    decreases |a|
  {
    hide Times, Drop;
    var bufs := a + [p, q] + c;
    if a == [] {
      assert bufs[0] == p && bufs[1..][0] == q;
    } else {
      var b := a[0];
      assert bufs[0] == b && bufs[1..] == a[1..] + [p, q] + c;
      if b.lba !in mine {
        DanglesNext(a[1..], p, q, c, mine);
      } else if b.lba == p.lba {
        TimesPair(a[1..], p, q, c);
      } else {
        DropPair(a[1..], p, q, c, b.lba);
        DropShort(a[1..], b.lba);
        DanglesNext(Drop(a[1..], b.lba), p, q, Drop(c, b.lba), mine);
      }
    }
  }

  lemma DropShort(bufs: seq<Buf>, x: nat)
    ensures |Drop(bufs, x)| <= |bufs|
  {
  }

  lemma DropPair(a: seq<Buf>, p: Buf, q: Buf, c: seq<Buf>, x: nat)
    requires p.lba == q.lba != x
    ensures Drop(a + [p, q] + c, x) == Drop(a, x) + [p, q] + Drop(c, x)
  {
    DropConcat(a + [p, q], c, x);
    DropConcat(a, [p, q], x);
    assert [p, q][..1] == [p] && [p][..0] == [];
  }

  lemma TimesPair(a: seq<Buf>, p: Buf, q: Buf, c: seq<Buf>)
    requires p.lba == q.lba
    ensures Times(a + [p, q] + c, p.lba) >= 2
  {
    DropConcat(a + [p, q], c, p.lba);
    DropConcat(a, [p, q], p.lba);
    assert [p, q][..1] == [p] && [p][..0] == [];
    DropShort(a, p.lba);
    DropShort(c, p.lba);
  }

  /** The block waits for the oldest transaction. */
  ghost predicate WaitsFirst(queue: seq<CpTrans>, clean: set<nat>, recs: map<nat, nat>, lba: nat) {
    queue != [] && Waits(queue, clean, recs, lba) && recs[lba] == queue[0].id
  }

  /** The buffers of the head while list[..i] has been visited: of these blocks only those are left that wait. */
  ghost predicate Flushing(q0: seq<CpTrans>, c0: set<nat>, r0: map<nat, nat>, bufs: seq<Buf>, list: seq<Buf>, i: nat) {
    && i <= |list|
    && (forall b :: b in bufs ==> b in list)
    && (forall b :: b in list && Has(bufs, b.lba) ==> b in bufs)
    && (forall j :: 0 <= j < i && Has(bufs, list[j].lba) ==> WaitsFirst(q0, c0, r0, list[j].lba))
    && (forall lba :: WaitsFirst(q0, c0, r0, lba) ==> Has(bufs, lba))
  }

  /** The head has left the queue, with finished transactions behind it; nothing waited for it. */
  ghost predicate Flushed(q0: seq<CpTrans>, c0: set<nat>, r0: map<nat, nat>, queue: seq<CpTrans>, n: int) {
    && 0 < n <= |q0| && queue == q0[n..] && Leading(queue) == 0
    && forall lba :: !WaitsFirst(q0, c0, r0, lba)
  }

  lemma FirstIs(queue: seq<CpTrans>, clean: set<nat>, recs: map<nat, nat>, lba: nat, next: nat)
    requires queue != [] && Numbered(queue, next)
    ensures WaitsFirst(queue, clean, recs, lba) <==>
            lba in clean && lba in recs && recs[lba] == queue[0].id && Has(queue[0].bufs, lba)
  {
    hide Has;
  }

  lemma SameFirst(q0: seq<CpTrans>, c0: set<nat>, r0: map<nat, nat>, q1: seq<CpTrans>, c1: set<nat>, r1: map<nat, nat>)
    requires SameWaits(q0, c0, r0, q1, c1, r1) && q0 != [] && q1 != [] && q1[0].id == q0[0].id
    ensures forall lba :: WaitsFirst(q0, c0, r0, lba) <==> WaitsFirst(q1, c1, r1, lba)
  {
    hide Waits;
  }

  lemma FlushStarts(q0: seq<CpTrans>, c0: set<nat>, r0: map<nat, nat>, next: nat)
    requires q0 != [] && Numbered(q0, next)
    ensures Flushing(q0, c0, r0, q0[0].bufs, q0[0].bufs, 0)
  {
    hide Has, WaitsFirst;
    forall lba | WaitsFirst(q0, c0, r0, lba)
      ensures Has(q0[0].bufs, lba)
    {
      FirstIs(q0, c0, r0, lba, next);
    }
  }

  /** The block that is visited waits, or its buffers are gone already. */
  lemma FlushSkips(q0: seq<CpTrans>, c0: set<nat>, r0: map<nat, nat>, bufs: seq<Buf>, list: seq<Buf>, i: nat)
    requires Flushing(q0, c0, r0, bufs, list, i) && i < |list|
    requires list[i] in bufs ==> WaitsFirst(q0, c0, r0, list[i].lba)
    ensures Flushing(q0, c0, r0, bufs, list, i + 1)
  {
    hide Has, WaitsFirst;
  }

  /** Its write has ended. */
  lemma FlushEnds(q0: seq<CpTrans>, c0: set<nat>, r0: map<nat, nat>, q: CpTrans, list: seq<Buf>, i: nat)
    requires Flushing(q0, c0, r0, q.bufs, list, i) && i < |list| && !WaitsFirst(q0, c0, r0, list[i].lba)
    ensures Flushing(q0, c0, r0, Ended(q, list[i].lba).bufs, list, i + 1)
  {
    hide Has, WaitsFirst;
    var x := list[i].lba;
    EndedHas([q], 0, x);
    assert forall lba :: lba != x ==> (Has([q][0 := Ended([q][0], x)][0].bufs, lba) <==> Has([q][0].bufs, lba));
  }

  /** At the end what is left waits. */
  lemma FlushStops(q0: seq<CpTrans>, c0: set<nat>, r0: map<nat, nat>, queue: seq<CpTrans>, clean: set<nat>,
                   recs: map<nat, nat>, list: seq<Buf>)
    requires q0 != [] && queue != [] && queue[0].id == q0[0].id && Flushing(q0, c0, r0, queue[0].bufs, list, |list|)
    requires SameWaits(q0, c0, r0, queue, clean, recs) && queue[0].bufs != []
    ensures AllWait(queue, clean, recs) && WaitsFor(q0, c0, r0, q0[0].id)
  {
    hide SameWaits, Has;
    SameFirst(q0, c0, r0, queue, clean, recs);
    forall lba | Has(queue[0].bufs, lba)
      ensures WaitsFirst(q0, c0, r0, lba)
    {
      var b := BufOf(queue[0].bufs, lba);
      var j :| 0 <= j < |list| && list[j] == b;
    }
    HasSome(queue[0].bufs);
  }

  lemma BufOf(bufs: seq<Buf>, lba: nat) returns (b: Buf)
    requires Has(bufs, lba)
    ensures b in bufs && b.lba == lba
  {
    b :| b in bufs && b.lba == lba;
  }

  lemma HasSome(bufs: seq<Buf>)
    requires bufs != []
    ensures Has(bufs, bufs[0].lba)
  {
  }

  lemma FirstFor(queue: seq<CpTrans>, clean: set<nat>, recs: map<nat, nat>)
    requires queue != []
    ensures WaitsFor(queue, clean, recs, queue[0].id) <==> exists lba :: WaitsFirst(queue, clean, recs, lba)
  {
    hide Has;
    if lba :| Waits(queue, clean, recs, lba) && lba in recs && recs[lba] == queue[0].id {
      assert WaitsFirst(queue, clean, recs, lba);
    }
  }

  lemma FlushLeft(q0: seq<CpTrans>, c0: set<nat>, r0: map<nat, nat>, queue: seq<CpTrans>, n: int)
    requires Flushed(q0, c0, r0, queue, n)
    ensures !WaitsFor(q0, c0, r0, q0[0].id)
  {
    hide Has, Waits;
    FirstFor(q0, c0, r0);
  }

  /** The head was finished with the last write. */
  lemma FlushPops(q0: seq<CpTrans>, c0: set<nat>, r0: map<nat, nat>, q1: seq<CpTrans>, list: seq<Buf>, i: nat,
                  x: nat)
    requires q0 != [] && q1 != [] && q1[1..] == q0[1..] && Flushing(q0, c0, r0, Ended(q1[0], x).bufs, list, i)
    requires Done(Ended(q1[0], x)) ==> Ended(q1[0], x).bufs == []
    ensures var w := q1[0 := Ended(q1[0], x)];
      var n := Leading(w);
      n > 0 ==> Flushed(q0, c0, r0, w[n..], n)
    ensures var w := q1[0 := Ended(q1[0], x)];
      && (Leading(w) == 0 <==> !Done(w[0])) && w[0].id == q1[0].id
      && (Leading(w) == 0 ==> w[Leading(w)..] == w && w[1..] == q0[1..])
  {
    hide Ended, WaitsFirst;
    var w := q1[0 := Ended(q1[0], x)];
    var n := Leading(w);
    EndedId(q1[0], x);
    assert w[1..] == q1[1..];
    if n > 0 {
      assert |w| == |q1| && |q1| - 1 == |q1[1..]| == |q0[1..]|;
      assert w[n..] == w[1..][n - 1..] == q0[1..][n - 1..] == q0[n..];
      RestLeading(w);
      forall lba
        ensures !WaitsFirst(q0, c0, r0, lba)
      {
        assert !Has(w[0].bufs, lba);
      }
    }
  }

  lemma {:induction false} RestLeading(queue: seq<CpTrans>)
    ensures Leading(queue[Leading(queue)..]) == 0
    decreases |queue|
  {
    var n := Leading(queue);
    if n < |queue| { assert !Done(queue[n..][0]); }
  }
}
