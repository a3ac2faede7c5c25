/** Crash safety: whatever step a crash follows, recovery brings the home blocks to the state of a
    prefix of the committed transactions that contains every commit that has returned. */
module JournalCrash {
  import opened JournalFormat
  import opened JournalRecovery
  import opened JournalProtocol
  import opened JournalInvariant

  // --------------------------------------------------- reading the log back

  lemma SegmentInPlace(s: State, i: nat)
    requires Shape(s) && i < |s.imgs|
    requires forall j: nat :: j < |s.imgs[i]| ==> InPlace(s.geo, s.disk.log, s.imgs, i, j)
    ensures Segment(s.disk.log, SlotAt(s.geo, Pos(s.imgs, i)), s.imgs[i], s.geo)
    ensures Adv(SlotAt(s.geo, Pos(s.imgs, i)), |s.imgs[i]|, s.geo) == SlotAt(s.geo, Pos(s.imgs, i + 1))
  {
    forall v: nat | v < |s.imgs[i]|
      ensures s.disk.log[Adv(SlotAt(s.geo, Pos(s.imgs, i)), v, s.geo)] == s.imgs[i][v]
    {
      AdvAdd(s.geo.first, Pos(s.imgs, i), v, s.geo);
      assert InPlace(s.geo, s.disk.log, s.imgs, i, v);
    }
    AdvAdd(s.geo.first, Pos(s.imgs, i), |s.imgs[i]|, s.geo);
  }

  /** Transactions in place from i up to k, then a tail, are read as such. */
  lemma {:induction false} ReadsInPlace(s: State, i: nat, k: nat, tail: seq<Block>, lap: bool)
    requires Shape(s) && ImagesOk(s.geo, s.firstId, s.trans, s.imgs) && i <= k <= |s.imgs|
    requires forall h: nat, j: nat :: i <= h < k && j < |s.imgs[h]| ==> InPlace(s.geo, s.disk.log, s.imgs, h, j)
    requires Segment(s.disk.log, SlotAt(s.geo, Pos(s.imgs, k)), tail, s.geo)
    requires Skips(tail, s.firstId + k, s.geo)
    requires StopsAt(s.disk.log[Adv(SlotAt(s.geo, Pos(s.imgs, k)), |tail|, s.geo)], s.firstId + k)
    ensures Reads(s.disk.log, SlotAt(s.geo, Pos(s.imgs, i)), s.firstId + i, s.imgs[i..k], s.trans[i..k], tail, lap,
                  s.geo)
    ensures TotalLength(s.imgs[i..k]) == Pos(s.imgs, k) - Pos(s.imgs, i) >= 0
    decreases k - i
  {
    hide Segment, SlotAt, Adv, Skips, StopsAt, ImageOf, InPlace;
    if i < k {
      ReadsInPlace(s, i + 1, k, tail, lap);
      SegmentInPlace(s, i);
      assert s.imgs[i..k][0] == s.imgs[i] && s.trans[i..k][0] == s.trans[i];
      assert s.imgs[i..k][1..] == s.imgs[i + 1..k] && s.trans[i..k][1..] == s.trans[i + 1..k];
    }
  }

  /** The blocks of the running commit that the reader steps over before it stops. */
  lemma {:induction false} TailFrom(s: State, a: nat, ws: seq<Write>, rs: seq<nat>) returns (m: nat)
    requires Core(s) && s.phase.Logging? && a < |s.phase.img|
    requires ImageOf(s.phase.img[a..], NextId(s), Trans(ws, rs), s.geo)
    ensures a <= m < |s.phase.img| && m !in s.phase.written
    ensures forall p: nat :: a <= p < m ==> p in s.phase.written
    ensures Skips(s.phase.img[a..m], NextId(s), s.geo)
    decreases |s.phase.img| - a
  {
    hide ImageOf, Tags, TagMatches, DataOk, TailOk, RoomOk, FinishingOk, ImagesOk, IntactFrom, NoFutureHeaders, Pos,
         SlotAt;
    var img := s.phase.img;
    if a !in s.phase.written {
      m := a;
      assert img[a..m] == [];
    } else {
      assert BlockWritten(s.geo, s.disk.log, Head(s), img, s.phase.alloc, s.phase.written, a);
      ImageHead(img[a..], NextId(s), ws, rs, s.geo);
      var k := if img[a][1] == DESCRIPTOR_BLOCK then |Tags(img[a], HEADER_WORDS, s.geo)| else 0;
      assert img[a..][k + 1..] == img[a + k + 1..];
      if img[a][1] == DESCRIPTOR_BLOCK {
        m := TailFrom(s, a + k + 1, ws[k..], rs);
      } else {
        m := TailFrom(s, a + 1, ws, rs[RevokeCount(img[a], s.geo)..]);
      }
      SkipsHead(img, a, k, m, NextId(s), s.geo);
    }
  }

  lemma SkipsHead(img: seq<Block>, a: nat, k: nat, m: nat, id: nat, geo: Geometry)
    requires a + k + 1 <= m <= |img| && IsHeader(img[a]) && img[a][2] == id
    requires img[a][1] in {DESCRIPTOR_BLOCK, REVOKE_BLOCK}
    requires k == if img[a][1] == DESCRIPTOR_BLOCK then |Tags(img[a], HEADER_WORDS, geo)| else 0
    requires Skips(img[a + k + 1..m], id, geo)
    ensures Skips(img[a..m], id, geo)
  {
    hide Tags;
    assert img[a..m][k + 1..] == img[a + k + 1..m] && img[a..m][0] == img[a];
  }

  /** From the head of the log the reader sees at most a piece of the running commit. */
  lemma RunningTail(s: State) returns (m: nat, tail: seq<Block>)
    requires Core(s)
    ensures |tail| == m && forall p: nat :: p < m ==> p in Written(s)
    ensures Segment(s.disk.log, SlotAt(s.geo, Head(s)), tail, s.geo)
    ensures Skips(tail, NextId(s), s.geo)
    ensures StopsAt(s.disk.log[Adv(SlotAt(s.geo, Head(s)), |tail|, s.geo)], NextId(s))
  {
    hide ImageOf, DataOk, TailOk, FinishingOk, LogOk, RoomOk, Pos, Skips, StopsAt;
    m, tail := 0, [];
    SkipsNothing(NextId(s), s.geo);
    if s.phase.Logging? {
      var img := s.phase.img;
      assert img[0..] == img;
      CommitDescribes(s);
      assert s.phase.t == Trans(s.phase.t.writes, s.phase.t.revokes);
      ImageStart(img, NextId(s), s.phase.t, s.geo);
      m := TailFrom(s, 0, s.phase.t.writes, s.phase.t.revokes);
      tail := img[0..m];
      forall v: nat | v < m
        ensures s.disk.log[Adv(SlotAt(s.geo, Head(s)), v, s.geo)] == tail[v]
      {
        AdvAdd(s.geo.first, Head(s), v, s.geo);
        CommitBlockIn(s, v);
      }
    }
    AdvAdd(s.geo.first, Head(s), m, s.geo);
    StopsAfter(s, m);
  }

  lemma SkipsNothing(id: nat, geo: Geometry)
    ensures Skips([], id, geo)
  {
  }

  lemma StopsAfter(s: State, m: nat)
    requires Core(s) && m !in Written(s) && forall p: nat :: p < m ==> p in Written(s)
    ensures StopsAt(s.disk.log[SlotAt(s.geo, Head(s) + m)], NextId(s))
  {
    hide ImageOf, DataOk, TailOk, FinishingOk, ImagesOk, IntactFrom, Pos, SlotAt, CommitOk;
    var slot := SlotAt(s.geo, Head(s) + m);
    PosMonotone(s.imgs, s.dm, |s.imgs|);
    if m > 0 { assert m - 1 in Written(s); }
    forall j: nat | j in Written(s)
      ensures SlotAt(s.geo, Head(s) + j) != slot
    {
      if j < m {
        SlotsDiffer(s.geo, Head(s) + j, Head(s) + m);
      } else {
        SlotsDiffer(s.geo, Head(s) + m, Head(s) + j);
      }
    }
    assert !InFlight(s.geo, Head(s), Written(s), slot);
  }

  // ------------------------------------------------------------ one lap only

  lemma {:induction false} Locate(imgs: seq<seq<Block>>, p: nat, k: nat) returns (i: nat, j: nat)
    requires k <= |imgs| && p < Pos(imgs, k)
    ensures i < k && j < |imgs[i]| && p == Pos(imgs, i) + j
  {
    if p < Pos(imgs, k - 1) {
      i, j := Locate(imgs, p, k - 1);
    } else {
      i, j := k - 1, p - Pos(imgs, k - 1);
    }
  }

  /** Blocks that are all in place fit in one lap: the first block of the second lap would have
      replaced the header at the tail. */
  lemma LapBound(s: State, k: nat, m: nat)
    requires Core(s) && s.d <= k <= |s.imgs|
    requires forall i: nat, j: nat :: s.d <= i < k && j < |s.imgs[i]| ==> InPlace(s.geo, s.disk.log, s.imgs, i, j)
    requires k < |s.imgs| ==> m < |s.imgs[k]| && forall j: nat :: j < m ==> InPlace(s.geo, s.disk.log, s.imgs, k, j)
    requires k == |s.imgs| ==> forall j: nat :: j < m ==> j in Written(s)
    ensures Pos(s.imgs, k) + m <= Pos(s.imgs, s.d) + s.geo.Slots()
  {
    hide ImageOf, DataOk, TailOk, FinishingOk, SlotAt, NoFutureHeaders, IntactFrom, Describes, Pos;
    var p := Pos(s.imgs, s.d) + s.geo.Slots();
    SlotLap(s.geo, Pos(s.imgs, s.d));
    if s.d == k {
      if k == |s.imgs| && m > 0 {
        assert m - 1 in Written(s);
        PosMonotone(s.imgs, s.dm, |s.imgs|);
      }
    } else {
      ImageStart(s.imgs[s.d], s.firstId + s.d, s.trans[s.d], s.geo);
      assert InPlace(s.geo, s.disk.log, s.imgs, s.d, 0);
      if p < Pos(s.imgs, k) {
        var i, j := Locate(s.imgs, p, k);
        if i < s.d { PosMonotone(s.imgs, i, s.d); }
        SecondLap(s, i, j, p);
      } else if k < |s.imgs| && p < Pos(s.imgs, k) + m {
        SecondLap(s, k, p - Pos(s.imgs, k), p);
      } else if p < Pos(s.imgs, k) + m {
        assert p - Head(s) in Written(s);
        CommitBlockIn(s, p - Head(s));
        CommitDescribes(s);
        ImageHeaders(s.phase.img, NextId(s), s.phase.t, s.geo, p - Head(s));
      }
    }
  }

  lemma ImageStart(img: seq<Block>, id: nat, t: Trans, geo: Geometry)
    requires ImageOf(img, id, t, geo)
    ensures img != [] && IsHeader(img[0]) && img[0][2] == id
  {
    ImageHead(img, id, t.writes, t.revokes, geo);
  }

  lemma SecondLap(s: State, i: nat, j: nat, p: nat)
    requires Core(s) && i < |s.imgs| && j < |s.imgs[i]| && p == Pos(s.imgs, i) + j
    requires s.d < |s.imgs| && p == Pos(s.imgs, s.d) + s.geo.Slots()
    requires s.imgs[s.d] != [] && InPlace(s.geo, s.disk.log, s.imgs, s.d, 0) && IsHeader(s.imgs[s.d][0])
    requires s.imgs[s.d][0][2] == s.firstId + s.d
    ensures !(s.d <= i && InPlace(s.geo, s.disk.log, s.imgs, i, j))
  {
    hide Pos, ImageOf, DataOk, TailOk, FinishingOk, SlotAt, NoFutureHeaders, IntactFrom, Describes, CommitOk;
    SlotLap(s.geo, Pos(s.imgs, s.d));
    ImageHeaders(s.imgs[i], s.firstId + i, s.trans[i], s.geo, j);
  }

  // -------------------------------------------------------------- the crash

  /** Recovery, applied to what the log holds, gives the state of the first `a` transactions. */
  ghost predicate Recovers(s: State, txs: seq<Trans>, a: nat) {
    && a <= |s.trans|
    && forall lba :: lba in s.base ==>
         AgreesAt(s.base, s.trans[..a], Overlay(s.disk.home, lba, LastEvent(txs, lba)), lba)
  }

  lemma CrashIntact(s: State) returns (imgs: seq<seq<Block>>, txs: seq<Trans>, tail: seq<Block>)
    requires Core(s) && IntactFrom(s.geo, s.disk.log, s.imgs, s.d)
    ensures LogHolds(s.disk, imgs, txs, tail, s.geo) && txs == s.trans[s.d..|s.trans|]
    ensures Recovers(s, txs, |s.trans|)
  {
    hide Segment, SlotAt, Adv, Skips, StopsAt, ImageOf, InPlace, DataOk, TailOk, FinishingOk, ImagesOk,
         NoFutureHeaders, CommitOk, RoomOk, Pos, AgreesAt;
    var n := |s.trans|;
    var m, t := RunningTail(s);
    tail := t;
    imgs, txs := s.imgs[s.d..n], s.trans[s.d..n];
    ReadsInPlace(s, s.d, n, tail, Pos(s.imgs, n) - Pos(s.imgs, s.d) + |tail| == s.geo.Slots());
    LapBound(s, n, m);
    assert s.trans[..n] == s.trans;
    forall lba | lba in s.base
      ensures AgreesAt(s.base, s.trans, Overlay(s.disk.home, lba, LastEvent(txs, lba)), lba)
    {
      ReplayedOrSettled(s, lba);
    }
  }

  lemma ReplayedOrSettled(s: State, lba: nat)
    requires Core(s) && lba in s.base
    ensures AgreesAt(s.base, s.trans, Overlay(s.disk.home, lba, LastEvent(s.trans[s.d..], lba)), lba)
  {
    hide LogOk, TailOk, FinishingOk, RoomOk, CacheOk, WriteAhead, LastEvent;
    assert s.trans == s.trans[..s.d] + s.trans[s.d..];
    LastEventConcat(s.trans[..s.d], s.trans[s.d..], lba);
    if LastEvent(s.trans[s.d..], lba) == Nothing {
      assert !Pending(s.pending, lba) by {
        forall i: nat | i < |s.pending|
          ensures lba !in s.pending[i]
        {
          NoEventNoPending(s, i, lba);
        }
      }
    }
  }

  lemma NoEventNoPending(s: State, i: nat, lba: nat)
    requires Core(s) && i < |s.pending| && LastEvent(s.trans[s.d..], lba) == Nothing
    ensures lba !in s.pending[i]
  {
    hide LogOk, TailOk, FinishingOk, RoomOk, CacheOk, WriteAhead, HomeOk, LastEvent;
    if s.d <= i {
      assert s.trans[s.d..][i - s.d] == s.trans[i];
      NoEvent(s.trans[s.d..], i - s.d, lba);
    }
    assert lba in s.pending[i] ==> PendingAt(s.base, s.trans, s.pending, s.dm, i, lba);
  }

  lemma {:induction false} NoEvent(txs: seq<Trans>, i: nat, lba: nat)
    requires i < |txs| && LastEvent(txs, lba) == Nothing
    ensures EventOf(txs[i], lba) == Nothing
    decreases |txs|
  {
    if i < |txs| - 1 { NoEvent(txs[..|txs| - 1], i, lba); }
  }

  /** The first block of the lagging tail that is no longer in place; k == dm when all are. */
  lemma FirstGap(s: State) returns (k: nat, m: nat)
    requires Shape(s)
    ensures s.d <= k <= s.dm
    ensures forall i: nat, j: nat :: s.d <= i < k && j < |s.imgs[i]| ==> InPlace(s.geo, s.disk.log, s.imgs, i, j)
    ensures k < s.dm ==> m < |s.imgs[k]| && !InPlace(s.geo, s.disk.log, s.imgs, k, m)
    ensures k < s.dm ==> forall j: nat :: j < m ==> InPlace(s.geo, s.disk.log, s.imgs, k, j)
  {
    hide InPlace;
    k, m := s.d, 0;
    while k < s.dm
      invariant s.d <= k <= s.dm
      invariant forall i: nat, j: nat :: s.d <= i < k && j < |s.imgs[i]| ==> InPlace(s.geo, s.disk.log, s.imgs, i, j)
    {
      m := 0;
      while m < |s.imgs[k]|
        invariant m <= |s.imgs[k]|
        invariant forall j: nat :: j < m ==> InPlace(s.geo, s.disk.log, s.imgs, k, j)
      {
        if !InPlace(s.geo, s.disk.log, s.imgs, k, m) { return; }
        m := m + 1;
      }
      k := k + 1;
    }
  }

  /** Any prefix of a revoke-only image is stepped over block by block. */
  lemma {:induction false} PureSkips(img: seq<Block>, id: nat, rs: seq<nat>, m: nat, geo: Geometry)
    requires Body(img, id, [], rs, geo) && m <= |img|
    ensures Skips(img[..m], id, geo)
    decreases |img|
  {
    hide Tags, TagMatches, Revokes, RevokeShape, RevokeCount;
    if m > 0 {
      var rest := img[1..];
      if HeaderOf(img[0], id, DESCRIPTOR_BLOCK) {
        PureSkips(rest, id, rs, m - 1, geo);
      } else {
        PureSkips(rest, id, rs[RevokeCount(img[0], geo)..], m - 1, geo);
      }
      assert img[..m][1..] == rest[..m - 1];
    }
  }

  lemma {:induction false} PureEvents(txs: seq<Trans>, lba: nat)
    requires forall i :: 0 <= i < |txs| ==> txs[i].writes == []
    ensures !LastEvent(txs, lba).Wrote?
    decreases |txs|
  {
    if txs != [] {
      PureEvents(txs[..|txs| - 1], lba);
    }
  }

  lemma CrashLagging(s: State, k: nat, m: nat) returns (imgs: seq<seq<Block>>, txs: seq<Trans>, tail: seq<Block>)
    requires Core(s) && PureLag(s) && s.d <= k < s.dm && m < |s.imgs[k]|
    requires forall i: nat, j: nat :: s.d <= i < k && j < |s.imgs[i]| ==> InPlace(s.geo, s.disk.log, s.imgs, i, j)
    requires forall j: nat :: j < m ==> InPlace(s.geo, s.disk.log, s.imgs, k, j)
    requires !InPlace(s.geo, s.disk.log, s.imgs, k, m)
    ensures LogHolds(s.disk, imgs, txs, tail, s.geo)
    ensures Recovers(s, txs, s.acked)
  {
    hide Skips, ImageOf, DataOk, FinishingOk, NoFutureHeaders, CommitOk, RoomOk, Pos, AgreesAt, Reads;
    imgs, txs, tail := s.imgs[s.d..k], s.trans[s.d..k], s.imgs[k][..m];
    LaggingTail(s, k, m);
    ReadsInPlace(s, s.d, k, tail, Pos(s.imgs, k) - Pos(s.imgs, s.d) + |tail| == s.geo.Slots());
    LapBound(s, k, m);
    forall lba | lba in s.base
      ensures AgreesAt(s.base, s.trans[..s.acked], Overlay(s.disk.home, lba, LastEvent(txs, lba)), lba)
    {
      PureEvents(txs, lba);
    }
  }

  lemma LaggingTail(s: State, k: nat, m: nat)
    requires Core(s) && PureLag(s) && s.d <= k < s.dm && m < |s.imgs[k]|
    requires forall j: nat :: j < m ==> InPlace(s.geo, s.disk.log, s.imgs, k, j)
    requires !InPlace(s.geo, s.disk.log, s.imgs, k, m)
    ensures Segment(s.disk.log, SlotAt(s.geo, Pos(s.imgs, k)), s.imgs[k][..m], s.geo)
    ensures Skips(s.imgs[k][..m], s.firstId + k, s.geo)
    ensures StopsAt(s.disk.log[Adv(SlotAt(s.geo, Pos(s.imgs, k)), m, s.geo)], s.firstId + k)
  {
    hide Skips, ImageOf, DataOk, FinishingOk, NoFutureHeaders, CommitOk, RoomOk, AgreesAt, IntactFrom, Pos, StopsAt,
         ImagesOk;
    LaggingSkips(s, k, m);
    var img := s.imgs[k];
    forall v: nat | v < m
      ensures s.disk.log[Adv(SlotAt(s.geo, Pos(s.imgs, k)), v, s.geo)] == img[..m][v]
    {
      AdvAdd(s.geo.first, Pos(s.imgs, k), v, s.geo);
      assert InPlace(s.geo, s.disk.log, s.imgs, k, v);
    }
    AdvAdd(s.geo.first, Pos(s.imgs, k), m, s.geo);
  }

  lemma LaggingSkips(s: State, k: nat, m: nat)
    requires Core(s) && PureLag(s) && s.d <= k < s.dm && m < |s.imgs[k]|
    ensures Skips(s.imgs[k][..m], s.firstId + k, s.geo)
  {
    hide Skips, Body, DataOk, FinishingOk, NoFutureHeaders, CommitOk, RoomOk, AgreesAt, IntactFrom, Pos, InPlace,
         StopsAt;
    var img := s.imgs[k];
    assert ImageOf(img, s.firstId + k, s.trans[k], s.geo);
    PureSkips(img[..|img| - 1], s.firstId + k, s.trans[k].revokes, m, s.geo);
    assert img[..|img| - 1][..m] == img[..m];
  }

  /** In every state of the invariant the disk can be recovered, to a prefix of the committed
      transactions that contains every one whose commit has returned. */
  lemma CrashSafe(s: State) returns (imgs: seq<seq<Block>>, txs: seq<Trans>, tail: seq<Block>, a: nat)
    requires Inv(s)
    ensures LogHolds(s.disk, imgs, txs, tail, s.geo)
    ensures s.acked <= a <= |s.trans| && Recovers(s, txs, a)
    ensures IntactFrom(s.geo, s.disk.log, s.imgs, s.d) ==> txs == s.trans[s.d..|s.trans|]
  {
    hide LogHolds, Recovers, DataOk, FinishingOk, NoFutureHeaders, CommitOk, ImagesOk, RoomOk, Pos, InPlace, LagChain;
    if IntactFrom(s.geo, s.disk.log, s.imgs, s.d) {
      imgs, txs, tail := CrashIntact(s);
      a := |s.trans|;
    } else {
      var k, m := FirstGap(s);
      imgs, txs, tail := CrashLagging(s, k, m);
      a := s.acked;
    }
  }
}
