/** Three-pass recovery: scan for the last committed transaction, collect revokes, replay. */
module JournalRecovery {
  import opened JournalFormat

  /** What survives a crash: home blocks, log area and the tail in the journal superblock. */
  datatype Disk = Disk(home: map<nat, Block>, log: seq<Block>, start: nat, sequence: nat)

  // ------------------------------------------------------------- log slots

  /** The wrap macro. */
  function Wrap(slot: nat, geo: Geometry): (s: nat)
    requires geo.Valid()
  {
    if slot >= geo.maxlen then slot - (geo.maxlen - geo.first) else slot
  }

  function Next(slot: nat, geo: Geometry): (s: nat)
    requires geo.Valid() && geo.first <= slot < geo.maxlen
    ensures geo.first <= s < geo.maxlen
  {
    Wrap(slot + 1, geo)
  }

  function Adv(slot: nat, n: nat, geo: Geometry): (s: nat)
    requires geo.Valid() && geo.first <= slot < geo.maxlen
    ensures geo.first <= s < geo.maxlen
  {
    if n == 0 then slot else Next(Adv(slot, n - 1, geo), geo)
  }

  lemma {:induction false} AdvAdd(slot: nat, a: nat, b: nat, geo: Geometry)
    requires geo.Valid() && geo.first <= slot < geo.maxlen
    ensures Adv(Adv(slot, a, geo), b, geo) == Adv(slot, a + b, geo)
  {
    if b > 0 { AdvAdd(slot, a, b - 1, geo); }
  }

  /** Within one lap of the log a slot is reached by addition and at most one wrap. */
  lemma {:induction false} AdvWithinLap(slot: nat, n: nat, geo: Geometry)
    requires geo.Valid() && geo.first <= slot < geo.maxlen && n <= geo.Slots()
    ensures Adv(slot, n, geo) == Wrap(slot + n, geo)
  {
    if n > 0 { AdvWithinLap(slot, n - 1, geo); }
  }

  /** Blocks lie in consecutive slots of the circular log. */
  ghost predicate Segment(log: seq<Block>, slot: nat, blocks: seq<Block>, geo: Geometry)
    requires geo.Valid() && geo.first <= slot < geo.maxlen && |log| == geo.maxlen
  {
    forall v: nat :: v < |blocks| ==> log[Adv(slot, v, geo)] == blocks[v]
  }

  lemma SegmentHead(log: seq<Block>, slot: nat, blocks: seq<Block>, geo: Geometry)
    requires geo.Valid() && geo.first <= slot < geo.maxlen && |log| == geo.maxlen
    requires Segment(log, slot, blocks, geo)
    ensures blocks != [] ==> log[slot] == blocks[0]
  {
    assert Adv(slot, 0, geo) == slot;
  }

  lemma SegmentDrop(log: seq<Block>, slot: nat, blocks: seq<Block>, n: nat, geo: Geometry)
    requires geo.Valid() && geo.first <= slot < geo.maxlen && |log| == geo.maxlen
    requires n <= |blocks| && Segment(log, slot, blocks, geo)
    ensures Segment(log, Adv(slot, n, geo), blocks[n..], geo)
    ensures Adv(Adv(slot, n, geo), |blocks| - n, geo) == Adv(slot, |blocks|, geo)
  {
    forall v: nat | v < |blocks[n..]|
      ensures log[Adv(Adv(slot, n, geo), v, geo)] == blocks[n..][v]
    {
      AdvAdd(slot, n, v, geo);
    }
    AdvAdd(slot, n, |blocks| - n, geo);
  }

  // --------------------------------------------------------- log contents

  /** Blocks of an unfinished transaction that the scan steps over. */
  ghost predicate Skips(tail: seq<Block>, id: nat, geo: Geometry)
    decreases |tail|
  {
    if tail == [] then true
    else if HeaderOf(tail[0], id, DESCRIPTOR_BLOCK) then
      var k := |Tags(tail[0], HEADER_WORDS, geo)|;
      k + 1 <= |tail| && Skips(tail[k + 1..], id, geo)
    else
      HeaderOf(tail[0], id, REVOKE_BLOCK) && Skips(tail[1..], id, geo)
  }

  function TotalLength(imgs: seq<seq<Block>>): nat {
    if imgs == [] then 0 else |imgs[0]| + TotalLength(imgs[1..])
  }

  /** From `slot` on, the log holds the transactions `txs` with ids `id`, `id + 1`, ... and then at
      most a piece of an unfinished one, which ends at a block that stops the reader or, if `lap`, where the reader
      has gone once around. */
  ghost predicate Reads(log: seq<Block>, slot: nat, id: nat, imgs: seq<seq<Block>>, txs: seq<Trans>,
                        tail: seq<Block>, lap: bool, geo: Geometry)
    requires geo.Valid() && geo.first <= slot < geo.maxlen && |log| == geo.maxlen
    decreases |txs|
  {
    && |imgs| == |txs|
    && if txs == [] then
         && Segment(log, slot, tail, geo)
         && Skips(tail, id, geo)
         && (lap || StopsAt(log[Adv(slot, |tail|, geo)], id))
       else
         && Segment(log, slot, imgs[0], geo)
         && ImageOf(imgs[0], id, txs[0], geo)
         && Reads(log, Adv(slot, |imgs[0]|, geo), id + 1, imgs[1..], txs[1..], tail, lap, geo)
  }

  /** A disk whose log can be read to its end within one lap. */
  ghost predicate LogHolds(disk: Disk, imgs: seq<seq<Block>>, txs: seq<Trans>, tail: seq<Block>, geo: Geometry) {
    && geo.Valid() && |disk.log| == geo.maxlen && geo.first <= disk.start < geo.maxlen
    && Reads(disk.log, disk.start, disk.sequence, imgs, txs, tail, TotalLength(imgs) + |tail| == geo.Slots(), geo)
    && TotalLength(imgs) + |tail| <= geo.Slots()
  }

  // --------------------------------------------------- meaning of recovery

  function AddRevokes(m: map<nat, nat>, rs: seq<nat>, id: nat): map<nat, nat>
    decreases |rs|
  {
    if rs == [] then m else AddRevokes(m[rs[0] := id], rs[1..], id)
  }

  /** The revoke tree after the second pass over `txs`. */
  function RevokeTable(txs: seq<Trans>, id: nat): map<nat, nat> {
    if txs == [] then map[]
    else
      var n := |txs| - 1;
      AddRevokes(RevokeTable(txs[..n], id), txs[n].revokes, id + n)
  }

  predicate Suppressed(revoked: map<nat, nat>, lba: nat, id: nat) {
    lba in revoked && id <= revoked[lba]
  }

  function ReplayWrites(home: map<nat, Block>, ws: seq<Write>, id: nat, revoked: map<nat, nat>): map<nat, Block>
    decreases |ws|
  {
    if ws == [] then home
    else
      ReplayWrites(if Suppressed(revoked, ws[0].lba, id) then home else home[ws[0].lba := ws[0].data],
                   ws[1..], id, revoked)
  }

  /** The home blocks after the third pass over `txs`. */
  function ReplayAll(home: map<nat, Block>, txs: seq<Trans>, id: nat, revoked: map<nat, nat>): map<nat, Block> {
    if txs == [] then home
    else
      var n := |txs| - 1;
      ReplayWrites(ReplayAll(home, txs[..n], id, revoked), txs[n].writes, id + n, revoked)
  }

  /** The last thing a transaction history says about a block. */
  datatype Event = Nothing | Wrote(data: Block) | Revoked

  function LastWrite(ws: seq<Write>, lba: nat): Event {
    if ws == [] then Nothing
    else
      var w := ws[|ws| - 1];
      if w.lba == lba then Wrote(w.data) else LastWrite(ws[..|ws| - 1], lba)
  }

  /** Within one transaction a revoke overrides a write of the same block. */
  function EventOf(t: Trans, lba: nat): Event {
    if lba in t.revokes then Revoked else LastWrite(t.writes, lba)
  }

  function LastEvent(txs: seq<Trans>, lba: nat): Event {
    if txs == [] then Nothing
    else
      var e := EventOf(txs[|txs| - 1], lba);
      if e != Nothing then e else LastEvent(txs[..|txs| - 1], lba)
  }

  lemma {:induction false} LastEventConcat(a: seq<Trans>, b: seq<Trans>, lba: nat)
    ensures LastEvent(a + b, lba) == if LastEvent(b, lba) != Nothing then LastEvent(b, lba) else LastEvent(a, lba)
    decreases |b|
  {
    if b == [] {
      assert a + b == a;
    } else {
      LastEventConcat(a, b[..|b| - 1], lba);
      assert (a + b)[..|a + b| - 1] == a + b[..|b| - 1];
    }
  }

  lemma {:induction false} LastWriteOnly(ws: seq<Write>, lba: nat)
    ensures LastWrite(ws, lba) != Revoked
    ensures LastWrite(ws, lba) == Nothing <==> forall i :: 0 <= i < |ws| ==> ws[i].lba != lba
  {
    if ws != [] { LastWriteOnly(ws[..|ws| - 1], lba); }
  }

  lemma {:induction false} LastWriteFront(ws: seq<Write>, lba: nat)
    requires ws != []
    ensures LastWrite(ws, lba) ==
            if LastWrite(ws[1..], lba) != Nothing then LastWrite(ws[1..], lba)
            else if ws[0].lba == lba then Wrote(ws[0].data) else Nothing
  {
    if |ws| > 1 {
      LastWriteFront(ws[..|ws| - 1], lba);
      assert ws[..|ws| - 1][1..] == ws[1..][..|ws[1..]| - 1];
    }
  }

  /** A block image that begins nowhere before its last revoke: the replayed content of one block. */
  function Overlay(home: map<nat, Block>, lba: nat, e: Event): (r: map<nat, Block>) {
    if e.Wrote? then home[lba := e.data] else home
  }

  predicate SameAt(a: map<nat, Block>, b: map<nat, Block>, lba: nat) {
    (lba in a <==> lba in b) && (lba in a ==> a[lba] == b[lba])
  }

  lemma {:induction false} ReplayWritesAt(home: map<nat, Block>, ws: seq<Write>, id: nat, revoked: map<nat, nat>,
                                          lba: nat)
    ensures SameAt(ReplayWrites(home, ws, id, revoked),
                   if Suppressed(revoked, lba, id) then home else Overlay(home, lba, LastWrite(ws, lba)), lba)
    decreases |ws|
  {
    if ws != [] {
      var h := if Suppressed(revoked, ws[0].lba, id) then home else home[ws[0].lba := ws[0].data];
      ReplayWritesAt(h, ws[1..], id, revoked, lba);
      LastWriteFront(ws, lba);
      LastWriteOnly(ws[1..], lba);
    }
  }

  lemma {:induction false} AddRevokesAt(m: map<nat, nat>, rs: seq<nat>, id: nat, lba: nat)
    ensures lba in AddRevokes(m, rs, id) <==> lba in rs || lba in m
    ensures lba in rs ==> AddRevokes(m, rs, id)[lba] == id
    ensures lba !in rs && lba in m ==> AddRevokes(m, rs, id)[lba] == m[lba]
    decreases |rs|
  {
    if rs != [] {
      AddRevokesAt(m[rs[0] := id], rs[1..], id, lba);
    }
  }

  /** The revoke tree maps a block to the greatest id among the transactions that revoke it. */
  lemma {:induction false} RevokeTableAt(txs: seq<Trans>, id: nat, lba: nat)
    ensures lba in RevokeTable(txs, id) <==> exists i :: 0 <= i < |txs| && lba in txs[i].revokes
    ensures lba in RevokeTable(txs, id) ==>
      var m := RevokeTable(txs, id)[lba];
      && id <= m < id + |txs| && lba in txs[m - id].revokes
      && forall i :: m - id < i < |txs| ==> lba !in txs[i].revokes
  {
    if txs != [] {
      var n := |txs| - 1;
      RevokeTableAt(txs[..n], id, lba);
      AddRevokesAt(RevokeTable(txs[..n], id), txs[n].revokes, id + n, lba);
      if lba in txs[n].revokes {
      } else {
        forall i | 0 <= i < |txs| && lba in txs[i].revokes
          ensures i < n && lba in txs[..n][i].revokes
        {
        }
        if exists i :: 0 <= i < n && lba in txs[..n][i].revokes {
          var i :| 0 <= i < n && lba in txs[..n][i].revokes;
          assert lba in txs[i].revokes;
        }
      }
    }
  }

  /** Replaying the first n transactions with the full revoke tree, seen at one block. */
  lemma {:induction false} ReplayPrefixAt(home: map<nat, Block>, txs: seq<Trans>, n: nat, id: nat, lba: nat)
    requires n <= |txs|
    requires forall i :: n <= i < |txs| ==> lba !in txs[i].revokes
    ensures SameAt(ReplayAll(home, txs[..n], id, RevokeTable(txs, id)),
                   Overlay(home, lba, LastEvent(txs[..n], lba)), lba)
    decreases n
  {
    if n > 0 {
      var revoked := RevokeTable(txs, id);
      RevokeTableAt(txs, id, lba);
      assert txs[..n][..n - 1] == txs[..n - 1];
      ReplayWritesAt(ReplayAll(home, txs[..n - 1], id, revoked), txs[n - 1].writes, id + n - 1, revoked, lba);
      LastWriteOnly(txs[n - 1].writes, lba);
      if lba in txs[n - 1].revokes {
        assert revoked[lba] - id < n ==> revoked[lba] - id == n - 1;
        ReplaySuppressed(home, txs, n - 1, n - 1, id, lba);
      } else {
        ReplayPrefixAt(home, txs, n - 1, id, lba);
      }
    }
  }

  lemma SuppressedBefore(txs: seq<Trans>, n: nat, i: nat, id: nat, lba: nat)
    requires i <= n < |txs| && lba in txs[n].revokes
    ensures Suppressed(RevokeTable(txs, id), lba, id + i)
  {
    RevokeTableAt(txs, id, lba);
  }

  /** Nothing up to a revoke of a block is replayed. */
  lemma {:induction false} ReplaySuppressed(home: map<nat, Block>, txs: seq<Trans>, n: nat, m: nat, id: nat, lba: nat)
    requires m <= n < |txs| && lba in txs[n].revokes
    ensures SameAt(ReplayAll(home, txs[..m], id, RevokeTable(txs, id)), home, lba)
    decreases m
  {
    if m > 0 {
      var revoked := RevokeTable(txs, id);
      assert txs[..m][..m - 1] == txs[..m - 1];
      SuppressedBefore(txs, n, m - 1, id, lba);
      ReplayWritesAt(ReplayAll(home, txs[..m - 1], id, revoked), txs[m - 1].writes, id + m - 1, revoked, lba);
      ReplaySuppressed(home, txs, n, m - 1, id, lba);
    }
  }

  /** What recovery leaves in a block: the image of its last write, if no transaction from that one
      on revokes it; otherwise the block is untouched. */
  lemma RecoveredContent(home: map<nat, Block>, txs: seq<Trans>, id: nat, lba: nat)
    ensures SameAt(ReplayAll(home, txs, id, RevokeTable(txs, id)), Overlay(home, lba, LastEvent(txs, lba)), lba)
  {
    assert txs[..|txs|] == txs;
    ReplayPrefixAt(home, txs, |txs|, id, lba);
  }

  /** Transaction i is the last to write the block and none from i on revokes it. */
  predicate Decides(txs: seq<Trans>, i: nat, lba: nat, data: Block) {
    && i < |txs| && LastWrite(txs[i].writes, lba) == Wrote(data)
    && (forall j :: i <= j < |txs| ==> lba !in txs[j].revokes)
    && (forall j :: i < j < |txs| ==> LastWrite(txs[j].writes, lba) == Nothing)
  }

  lemma {:induction false} DecidesIsLast(txs: seq<Trans>, i: nat, lba: nat, data: Block)
    requires Decides(txs, i, lba, data)
    ensures LastEvent(txs, lba) == Wrote(data)
    decreases |txs|
  {
    if i < |txs| - 1 { DecidesIsLast(txs[..|txs| - 1], i, lba, data); }
  }

  lemma {:induction false} LastIsDecided(txs: seq<Trans>, lba: nat) returns (i: nat)
    requires LastEvent(txs, lba).Wrote?
    ensures Decides(txs, i, lba, LastEvent(txs, lba).data)
    decreases |txs|
  {
    var n := |txs| - 1;
    LastWriteOnly(txs[n].writes, lba);
    if EventOf(txs[n], lba) != Nothing {
      i := n;
    } else {
      i := LastIsDecided(txs[..n], lba);
    }
  }

  // ------------------------------------------------------- the three passes

  /** trans_id_diff: the signed 32-bit difference of two ids. */
  function TransIdDiff(x: nat, y: nat): int {
    var d := (x - y) % WORD;
    if d >= WORD / 2 then d - WORD else d
  }

  /** Comparing stored 32-bit ids compares the running ids as long as they are less than 2^31 apart. */
  lemma TransIdDiffExact(x: nat, y: nat)
    ensures TransIdDiff(x % 0x1_0000_0000, y % 0x1_0000_0000) == x - y <==> -0x8000_0000 <= x - y < 0x8000_0000
  {
    assert (x % WORD - y % WORD) % WORD == (x - y) % WORD;
  }

  datatype Action = Scan | Revoke | Recover

  /** struct recover_info. */
  datatype RecoverInfo = RecoverInfo(startId: nat, lastId: nat, cnt: nat, revoked: map<nat, nat>)

  lemma ImageHead(img: seq<Block>, id: nat, ws: seq<Write>, rs: seq<nat>, geo: Geometry)
    requires ImageOf(img, id, Trans(ws, rs), geo)
    ensures IsHeader(img[0]) && img[0][2] == id
    ensures |img| == 1 ==> img[0][1] == COMMIT_BLOCK && ws == [] && rs == []
    ensures |img| > 1 ==> img[0][1] in {DESCRIPTOR_BLOCK, REVOKE_BLOCK}
    ensures |img| > 1 && img[0][1] == DESCRIPTOR_BLOCK ==>
      var k := |Tags(img[0], HEADER_WORDS, geo)|;
      && k + 1 < |img| && k <= |ws|
      && (forall i :: 0 <= i < k ==> TagMatches(Tags(img[0], HEADER_WORDS, geo)[i], img[1 + i], ws[i]))
      && ImageOf(img[k + 1..], id, Trans(ws[k..], rs), geo)
    ensures |img| > 1 && img[0][1] == REVOKE_BLOCK ==>
      && RevokeShape(img[0], geo) && Revokes(img[0], geo) <= rs
      && ImageOf(img[1..], id, Trans(ws, rs[RevokeCount(img[0], geo)..]), geo)
  {
    hide Tags, TagMatches, Revokes, RevokeCount;
    var body := img[..|img| - 1];
    if |img| > 1 {
      assert body[0] == img[0];
      if img[0][1] == DESCRIPTOR_BLOCK {
        var k := |Tags(img[0], HEADER_WORDS, geo)|;
        assert img[k + 1..][..|img[k + 1..]| - 1] == body[k + 1..];
      } else {
        assert img[1..][..|img[1..]| - 1] == body[1..];
      }
    }
  }

  lemma {:induction false} ReplayWritesSplit(home: map<nat, Block>, ws: seq<Write>, k: nat, id: nat, revoked: map<nat,
                                             nat>)
    requires k <= |ws|
    ensures ReplayWrites(home, ws, id, revoked) ==
            ReplayWrites(ReplayWrites(home, ws[..k], id, revoked), ws[k..], id, revoked)
    decreases k
  {
    if k > 0 {
      var h := if Suppressed(revoked, ws[0].lba, id) then home else home[ws[0].lba := ws[0].data];
      ReplayWritesSplit(h, ws[1..], k - 1, id, revoked);
      assert ws[..k][1..] == ws[1..][..k - 1] && ws[1..][k - 1..] == ws[k..];
    }
  }

  lemma {:induction false} AddRevokesSplit(m: map<nat, nat>, rs: seq<nat>, k: nat, id: nat)
    requires k <= |rs|
    ensures AddRevokes(m, rs, id) == AddRevokes(AddRevokes(m, rs[..k], id), rs[k..], id)
    decreases k
  {
    if k > 0 {
      AddRevokesSplit(m[rs[0] := id], rs[1..], k - 1, id);
      assert rs[..k][1..] == rs[1..][..k - 1] && rs[1..][k - 1..] == rs[k..];
    }
  }

  /** jbd_build_revoke_tree. */
  method BuildRevokeTree(revoked: map<nat, nat>, b: Block, id: nat, geo: Geometry) returns (m: map<nat, nat>)
    requires RevokeShape(b, geo)
    ensures m == AddRevokes(revoked, Revokes(b, geo), id)
  {
    var n := RevokeCount(b, geo);
    m := revoked;
    ghost var rs := Revokes(b, geo);
    for i := 0 to n
      invariant m == AddRevokes(revoked, rs[..i], id)
    {
      var lba := RecordAt(b, i, geo);
      AddRevokesSplit(revoked, rs[..i + 1], i, id);
      assert rs[..i + 1][..i] == rs[..i] && rs[..i + 1][i..] == [lba];
      assert AddRevokes(m, [lba], id) == AddRevokes(m[lba := id], [], id);
      m := m[lba := id];
    }
    assert rs[..n] == rs;
  }

  /** jbd_debug_descriptor_block: steps over the data blocks of a descriptor. */
  method SkipDescriptor(desc: Block, slot: nat, geo: Geometry) returns (slot': nat)
    requires geo.Valid() && geo.first <= slot < geo.maxlen && |desc| >= HEADER_WORDS
    ensures slot' == Adv(slot, |Tags(desc, HEADER_WORDS, geo)|, geo)
  {
    var ts := IterateTags(desc, geo);
    slot' := slot;
    for i := 0 to |ts|
      invariant slot' == Adv(slot, i, geo)
    {
      slot' := Next(slot', geo);
    }
  }

  /** jbd_replay_descriptor_block: every tagged block whose revoke record is not newer goes home,
      its magic number restored. */
  method ReplayDescriptor(log: seq<Block>, home: map<nat, Block>, desc: Block, slot: nat, id: nat,
                          revoked: map<nat, nat>, geo: Geometry, ghost ws: seq<Write>)
    returns (home': map<nat, Block>, slot': nat)
    requires geo.Valid() && geo.first <= slot < geo.maxlen && |log| == geo.maxlen && |desc| >= HEADER_WORDS
    requires var ts := Tags(desc, HEADER_WORDS, geo);
      |ts| == |ws| && forall i: nat :: i < |ts| ==> TagMatches(ts[i], log[Adv(slot, i + 1, geo)], ws[i])
    ensures slot' == Adv(slot, |ws|, geo)
    ensures home' == ReplayWrites(home, ws, id, revoked)
  {
    hide Tags;
    var ts := IterateTags(desc, geo);
    slot', home' := slot, home;
    for i := 0 to |ts|
      invariant slot' == Adv(slot, i, geo)
      invariant home' == ReplayWrites(home, ws[..i], id, revoked)
    {
      ReplayWritesSplit(home, ws[..i + 1], i, id, revoked);
      assert ws[..i + 1][..i] == ws[..i] && ws[..i + 1][i..] == [ws[i]];
      slot' := Next(slot', geo);
      ReplayOne(home', ws[i], id, revoked);
      if !Suppressed(revoked, ts[i].block, id) {
        home' := home'[ts[i].block := Unescape(log[slot'], ts[i].escape)];
      }
    }
    assert ws[..|ts|] == ws;
  }

  lemma ReplayOne(home: map<nat, Block>, w: Write, id: nat, revoked: map<nat, nat>)
    ensures ReplayWrites(home, [w], id, revoked) ==
            if Suppressed(revoked, w.lba, id) then home else home[w.lba := w.data]
  {
    assert ReplayWrites(home[w.lba := w.data], [], id, revoked) == home[w.lba := w.data];
  }

  /** The reader stands before `rest`, in transaction k or in the unfinished tail. */
  ghost predicate Cursor(log: seq<Block>, slot: nat, id: nat, k: nat, rest: seq<Block>, ws: seq<Write>, rs: seq<nat>,
                         imgs: seq<seq<Block>>, txs: seq<Trans>, tail: seq<Block>, lap: bool, geo: Geometry)
    requires geo.Valid() && geo.first <= slot < geo.maxlen && |log| == geo.maxlen
  {
    && k <= |txs| == |imgs|
    && Segment(log, slot, rest, geo)
    && if k < |txs| then
         && ImageOf(rest, id, Trans(ws, rs), geo)
         && Reads(log, Adv(slot, |rest|, geo), id + 1, imgs[k + 1..], txs[k + 1..], tail, lap, geo)
       else
         Skips(rest, id, geo) && (lap || StopsAt(log[Adv(slot, |rest|, geo)], id))
  }

  ghost function Left(k: nat, rest: seq<Block>, imgs: seq<seq<Block>>, tail: seq<Block>): nat {
    |rest| + (if k < |imgs| then TotalLength(imgs[k + 1..]) + |tail| else 0)
  }

  /** Entering the next transaction, or the tail. */
  lemma EnterTrans(log: seq<Block>, slot: nat, id: nat, k: nat, imgs: seq<seq<Block>>, txs: seq<Trans>,
                   tail: seq<Block>, lap: bool, geo: Geometry)
    returns (rest: seq<Block>, ws: seq<Write>, rs: seq<nat>)
    requires geo.Valid() && geo.first <= slot < geo.maxlen && |log| == geo.maxlen
    requires k <= |txs| == |imgs| && Reads(log, slot, id, imgs[k..], txs[k..], tail, lap, geo)
    ensures Cursor(log, slot, id, k, rest, ws, rs, imgs, txs, tail, lap, geo)
    ensures k < |txs| ==> ws == txs[k].writes && rs == txs[k].revokes
    ensures Left(k, rest, imgs, tail) == TotalLength(imgs[k..]) + |tail|
  {
    if k < |txs| {
      rest, ws, rs := imgs[k], txs[k].writes, txs[k].revokes;
      assert imgs[k..][1..] == imgs[k + 1..] && txs[k..][1..] == txs[k + 1..];
      assert imgs[k..][0] == imgs[k] && txs[k..][0] == txs[k];
    } else {
      rest, ws, rs := tail, [], [];
    }
  }

  lemma LapNotClosed(start: nat, n: nat, geo: Geometry)
    requires geo.Valid() && geo.first <= start < geo.maxlen && 0 < n < geo.Slots()
    ensures Adv(start, n, geo) != start
  {
    AdvWithinLap(start, n, geo);
  }

  /** Where the cursor goes after a header block: over a commit block into the next transaction,
      over a descriptor with its data, or over a revoke block. */
  lemma CursorHead(log: seq<Block>, slot: nat, id: nat, k: nat, rest: seq<Block>, ws: seq<Write>, rs: seq<nat>,
                   imgs: seq<seq<Block>>, txs: seq<Trans>, tail: seq<Block>, lap: bool, geo: Geometry)
    returns (n: nat, k': nat, rest': seq<Block>, ws': seq<Write>, rs': seq<nat>)
    requires geo.Valid() && geo.first <= slot < geo.maxlen && |log| == geo.maxlen
    requires k <= |txs| && Cursor(log, slot, id, k, rest, ws, rs, imgs, txs, tail, lap, geo)
    requires !StopsAt(log[slot], id) && (lap && k == |txs| ==> rest != [])
    ensures log[slot][1] in {DESCRIPTOR_BLOCK, REVOKE_BLOCK, COMMIT_BLOCK}
    ensures k' == if log[slot][1] == COMMIT_BLOCK then k + 1 else k
    ensures n == if log[slot][1] == DESCRIPTOR_BLOCK then |Tags(log[slot], HEADER_WORDS, geo)| else 0
    ensures log[slot][1] == COMMIT_BLOCK ==> k < |txs| && ws == [] && rs == []
    ensures Cursor(log, Adv(slot, n + 1, geo), if k' > k then id + 1 else id, k', rest', ws', rs', imgs, txs, tail,
                   lap, geo)
    ensures Left(k, rest, imgs, tail) == Left(k', rest', imgs, tail) + n + 1
    ensures k' == k < |txs| && log[slot][1] == DESCRIPTOR_BLOCK ==>
      && n <= |ws| && ws' == ws[n..] && rs' == rs
      && forall i: nat :: i < n ==> TagMatches(Tags(log[slot], HEADER_WORDS, geo)[i], log[Adv(slot, i + 1, geo)], ws[i])
    ensures k' == k < |txs| && log[slot][1] == REVOKE_BLOCK ==>
      RevokeShape(log[slot], geo) && Revokes(log[slot], geo) <= rs && rs' == rs[RevokeCount(log[slot], geo)..]
      && ws' == ws
    ensures k < k' < |txs| ==> ws' == txs[k'].writes && rs' == txs[k'].revokes
  {
    hide Tags, TagMatches, Revokes, RevokeCount, RevokeShape, Cursor, Left;
    k', ws', rs', n := k, ws, rs, 0;
    if k < |txs| {
      CursorImage(log, slot, id, k, rest, ws, rs, imgs, txs, tail, lap, geo);
      if log[slot][1] == COMMIT_BLOCK {
        k' := k + 1;
        rest', ws', rs' := CommitStep(log, slot, id, k, rest, ws, rs, imgs, txs, tail, lap, geo);
      } else if log[slot][1] == DESCRIPTOR_BLOCK {
        n := |Tags(log[slot], HEADER_WORDS, geo)|;
        rest', ws' := rest[n + 1..], ws[n..];
        DescriptorStep(log, slot, id, k, rest, ws, rs, imgs, txs, tail, lap, geo);
      } else {
        rest', rs' := rest[1..], rs[RevokeCount(log[slot], geo)..];
        RevokeStep(log, slot, id, k, rest, ws, rs, imgs, txs, tail, lap, geo);
      }
    } else {
      n := TailStep(log, slot, id, k, rest, ws, rs, imgs, txs, tail, lap, geo);
      rest' := rest[n + 1..];
    }
  }

  lemma CursorImage(log: seq<Block>, slot: nat, id: nat, k: nat, rest: seq<Block>, ws: seq<Write>, rs: seq<nat>,
                    imgs: seq<seq<Block>>, txs: seq<Trans>, tail: seq<Block>, lap: bool, geo: Geometry)
    requires geo.Valid() && geo.first <= slot < geo.maxlen && |log| == geo.maxlen
    requires k < |txs| && Cursor(log, slot, id, k, rest, ws, rs, imgs, txs, tail, lap, geo)
    ensures ImageOf(rest, id, Trans(ws, rs), geo) && rest != [] && log[slot] == rest[0]
    ensures log[slot][1] in {DESCRIPTOR_BLOCK, REVOKE_BLOCK, COMMIT_BLOCK}
    ensures log[slot][1] == COMMIT_BLOCK <==> |rest| == 1
    ensures log[slot][1] == COMMIT_BLOCK ==> ws == [] && rs == []
  {
    hide Tags, TagMatches, Revokes, RevokeCount, RevokeShape, Reads;
    SegmentHead(log, slot, rest, geo);
    ImageHead(rest, id, ws, rs, geo);
  }

  lemma CommitStep(log: seq<Block>, slot: nat, id: nat, k: nat, rest: seq<Block>, ws: seq<Write>, rs: seq<nat>,
                   imgs: seq<seq<Block>>, txs: seq<Trans>, tail: seq<Block>, lap: bool, geo: Geometry)
    returns (rest': seq<Block>, ws': seq<Write>, rs': seq<nat>)
    requires geo.Valid() && geo.first <= slot < geo.maxlen && |log| == geo.maxlen
    requires k < |txs| && Cursor(log, slot, id, k, rest, ws, rs, imgs, txs, tail, lap, geo) && |rest| == 1
    ensures Cursor(log, Adv(slot, 1, geo), id + 1, k + 1, rest', ws', rs', imgs, txs, tail, lap, geo)
    ensures Left(k, rest, imgs, tail) == Left(k + 1, rest', imgs, tail) + 1
    ensures k + 1 < |txs| ==> ws' == txs[k + 1].writes && rs' == txs[k + 1].revokes
  {
    hide ImageOf, Reads;
    rest', ws', rs' := EnterTrans(log, Adv(slot, 1, geo), id + 1, k + 1, imgs, txs, tail, lap, geo);
  }

  lemma DescriptorStep(log: seq<Block>, slot: nat, id: nat, k: nat, rest: seq<Block>, ws: seq<Write>, rs: seq<nat>,
                       imgs: seq<seq<Block>>, txs: seq<Trans>, tail: seq<Block>, lap: bool, geo: Geometry)
    requires geo.Valid() && geo.first <= slot < geo.maxlen && |log| == geo.maxlen
    requires k < |txs| && Cursor(log, slot, id, k, rest, ws, rs, imgs, txs, tail, lap, geo) && rest != []
    requires log[slot] == rest[0] && |rest| > 1 && rest[0][1] == DESCRIPTOR_BLOCK
    ensures var n := |Tags(log[slot], HEADER_WORDS, geo)|;
      && n < |rest| && n <= |ws|
      && Cursor(log, Adv(slot, n + 1, geo), id, k, rest[n + 1..], ws[n..], rs, imgs, txs, tail, lap, geo)
      && Left(k, rest, imgs, tail) == Left(k, rest[n + 1..], imgs, tail) + n + 1
      && forall i: nat :: i < n ==> TagMatches(Tags(log[slot], HEADER_WORDS, geo)[i], log[Adv(slot, i + 1, geo)], ws[i])
  {
    hide Tags, TagMatches, ImageOf, Reads;
    ImageHead(rest, id, ws, rs, geo);
    var n := |Tags(rest[0], HEADER_WORDS, geo)|;
    forall i: nat | i < n
      ensures TagMatches(Tags(log[slot], HEADER_WORDS, geo)[i], log[Adv(slot, i + 1, geo)], ws[i])
    {
      assert log[Adv(slot, i + 1, geo)] == rest[i + 1];
    }
    SegmentDrop(log, slot, rest, n + 1, geo);
  }

  lemma RevokeStep(log: seq<Block>, slot: nat, id: nat, k: nat, rest: seq<Block>, ws: seq<Write>, rs: seq<nat>,
                   imgs: seq<seq<Block>>, txs: seq<Trans>, tail: seq<Block>, lap: bool, geo: Geometry)
    requires geo.Valid() && geo.first <= slot < geo.maxlen && |log| == geo.maxlen
    requires k < |txs| && Cursor(log, slot, id, k, rest, ws, rs, imgs, txs, tail, lap, geo) && rest != []
    requires log[slot] == rest[0] && |rest| > 1 && rest[0][1] == REVOKE_BLOCK
    ensures RevokeShape(log[slot], geo) && Revokes(log[slot], geo) <= rs
    ensures Cursor(log, Adv(slot, 1, geo), id, k, rest[1..], ws, rs[RevokeCount(log[slot], geo)..], imgs, txs, tail,
      lap, geo)
    ensures Left(k, rest, imgs, tail) == Left(k, rest[1..], imgs, tail) + 1
  {
    hide Tags, Revokes, RevokeCount, RevokeShape, ImageOf, Reads;
    ImageHead(rest, id, ws, rs, geo);
    SegmentDrop(log, slot, rest, 1, geo);
  }

  lemma TailStep(log: seq<Block>, slot: nat, id: nat, k: nat, rest: seq<Block>, ws: seq<Write>, rs: seq<nat>,
                 imgs: seq<seq<Block>>, txs: seq<Trans>, tail: seq<Block>, lap: bool, geo: Geometry)
    returns (n: nat)
    requires geo.Valid() && geo.first <= slot < geo.maxlen && |log| == geo.maxlen
    requires k == |txs| && Cursor(log, slot, id, k, rest, ws, rs, imgs, txs, tail, lap, geo)
    requires !StopsAt(log[slot], id) && (lap ==> rest != [])
    ensures log[slot][1] in {DESCRIPTOR_BLOCK, REVOKE_BLOCK}
    ensures n == if log[slot][1] == DESCRIPTOR_BLOCK then |Tags(log[slot], HEADER_WORDS, geo)| else 0
    ensures n + 1 <= |rest|
    ensures Cursor(log, Adv(slot, n + 1, geo), id, k, rest[n + 1..], ws, rs, imgs, txs, tail, lap, geo)
    ensures Left(k, rest, imgs, tail) == Left(k, rest[n + 1..], imgs, tail) + n + 1
  {
    hide Tags, Skips, ImageOf, Reads;
    TailHead(log, slot, id, rest, geo);
    n := if log[slot][1] == DESCRIPTOR_BLOCK then |Tags(rest[0], HEADER_WORDS, geo)| else 0;
    SegmentDrop(log, slot, rest, n + 1, geo);
  }

  lemma TailHead(log: seq<Block>, slot: nat, id: nat, rest: seq<Block>, geo: Geometry)
    requires geo.Valid() && geo.first <= slot < geo.maxlen && |log| == geo.maxlen
    requires Segment(log, slot, rest, geo) && Skips(rest, id, geo)
    requires rest != [] || StopsAt(log[Adv(slot, |rest|, geo)], id)
    requires !StopsAt(log[slot], id)
    ensures rest != [] && log[slot] == rest[0] && rest[0][1] in {DESCRIPTOR_BLOCK, REVOKE_BLOCK}
    ensures rest[0][1] == DESCRIPTOR_BLOCK ==>
      var n := |Tags(rest[0], HEADER_WORDS, geo)|; n + 1 <= |rest| && Skips(rest[n + 1..], id, geo)
    ensures rest[0][1] == REVOKE_BLOCK ==> Skips(rest[1..], id, geo)
  {
    hide Tags;
    SegmentHead(log, slot, rest, geo);
    assert Adv(slot, 0, geo) == slot;
  }

  lemma CursorStops(log: seq<Block>, slot: nat, id: nat, k: nat, rest: seq<Block>, ws: seq<Write>, rs: seq<nat>,
                    imgs: seq<seq<Block>>, txs: seq<Trans>, tail: seq<Block>, lap: bool, geo: Geometry)
    requires geo.Valid() && geo.first <= slot < geo.maxlen && |log| == geo.maxlen
    requires Cursor(log, slot, id, k, rest, ws, rs, imgs, txs, tail, lap, geo)
    requires StopsAt(log[slot], id)
    ensures k == |txs|
  {
    SegmentHead(log, slot, rest, geo);
    if k < |txs| {
      ImageHead(rest, id, ws, rs, geo);
    }
  }

  lemma NothingLeft(log: seq<Block>, id: nat, k: nat, rest: seq<Block>, ws: seq<Write>, rs: seq<nat>,
                    imgs: seq<seq<Block>>, txs: seq<Trans>, tail: seq<Block>, lap: bool, geo: Geometry, slot: nat)
    requires geo.Valid() && geo.first <= slot < geo.maxlen && |log| == geo.maxlen
    requires Cursor(log, slot, id, k, rest, ws, rs, imgs, txs, tail, lap, geo)
    requires Left(k, rest, imgs, tail) == 0
    ensures k == |txs|
  {
  }

  /** The reader is back where it began exactly after one lap, and then nothing is left to read. */
  lemma LapEnds(log: seq<Block>, start: nat, id: nat, k: nat, rest: seq<Block>, ws: seq<Write>, rs: seq<nat>,
                imgs: seq<seq<Block>>, txs: seq<Trans>, tail: seq<Block>, lap: bool, geo: Geometry, used: nat)
    requires geo.Valid() && geo.first <= start < geo.maxlen && |log| == geo.maxlen
    requires Cursor(log, Adv(start, used, geo), id, k, rest, ws, rs, imgs, txs, tail, lap, geo)
    requires 0 < used && used + Left(k, rest, imgs, tail) <= geo.Slots()
    ensures Adv(start, used, geo) == start <==> used == geo.Slots()
    ensures used == geo.Slots() ==> k == |txs|
  {
    hide Cursor, Left;
    if used < geo.Slots() {
      LapNotClosed(start, used, geo);
    } else {
      AdvWithinLap(start, used, geo);
      NothingLeft(log, id, k, rest, ws, rs, imgs, txs, tail, lap, geo, Adv(start, used, geo));
    }
  }

  lemma LeftIs(k: nat, rest: seq<Block>, imgs: seq<seq<Block>>, tail: seq<Block>)
    ensures k >= |imgs| ==> Left(k, rest, imgs, tail) == |rest|
  {
  }

  /** What the second pass still has to add to the revoke tree. */
  ghost predicate TableOwes(m: map<nat, nat>, rs: seq<nat>, k: nat, txs: seq<Trans>, id: nat) {
    if k < |txs| then AddRevokes(m, rs, id + k) == RevokeTable(txs[..k + 1], id) else m == RevokeTable(txs, id)
  }

  lemma TableCommit(m: map<nat, nat>, rs': seq<nat>, k: nat, txs: seq<Trans>, id: nat)
    requires k < |txs| && TableOwes(m, [], k, txs, id)
    requires k + 1 < |txs| ==> rs' == txs[k + 1].revokes
    ensures TableOwes(m, rs', k + 1, txs, id)
  {
    if k + 1 < |txs| {
      assert txs[..k + 2][..k + 1] == txs[..k + 1];
    } else {
      assert txs[..k + 1] == txs;
    }
  }

  lemma TableBlock(m: map<nat, nat>, rs: seq<nat>, n: nat, k: nat, txs: seq<Trans>, id: nat)
    requires k < |txs| && TableOwes(m, rs, k, txs, id) && n <= |rs|
    ensures TableOwes(AddRevokes(m, rs[..n], id + k), rs[n..], k, txs, id)
  {
    AddRevokesSplit(m, rs, n, id + k);
  }

  /** What the third pass still has to write. */
  ghost predicate HomeOwes(home: map<nat, Block>, ws: seq<Write>, k: nat, home0: map<nat, Block>, txs: seq<Trans>,
                           id: nat, revoked: map<nat, nat>) {
    if k < |txs| then ReplayWrites(home, ws, id + k, revoked) == ReplayAll(home0, txs[..k + 1], id, revoked)
    else home == ReplayAll(home0, txs, id, revoked)
  }

  lemma HomeCommit(home: map<nat, Block>, ws': seq<Write>, k: nat, home0: map<nat, Block>, txs: seq<Trans>,
                   id: nat, revoked: map<nat, nat>)
    requires k < |txs| && HomeOwes(home, [], k, home0, txs, id, revoked)
    requires k + 1 < |txs| ==> ws' == txs[k + 1].writes
    ensures HomeOwes(home, ws', k + 1, home0, txs, id, revoked)
  {
    if k + 1 < |txs| {
      assert txs[..k + 2][..k + 1] == txs[..k + 1];
    } else {
      assert txs[..k + 1] == txs;
    }
  }

  lemma HomeBlocks(home: map<nat, Block>, ws: seq<Write>, n: nat, k: nat, home0: map<nat, Block>, txs: seq<Trans>,
                   id: nat, revoked: map<nat, nat>)
    requires k < |txs| && HomeOwes(home, ws, k, home0, txs, id, revoked) && n <= |ws|
    ensures HomeOwes(ReplayWrites(home, ws[..n], id + k, revoked), ws[n..], k, home0, txs, id, revoked)
  {
    ReplayWritesSplit(home, ws, n, id + k, revoked);
  }

  lemma TableDone(m: map<nat, nat>, rs: seq<nat>, txs: seq<Trans>, id: nat)
    requires TableOwes(m, rs, |txs|, txs, id)
    ensures m == RevokeTable(txs, id)
  {
  }

  lemma HomeDone(home: map<nat, Block>, ws: seq<Write>, home0: map<nat, Block>, txs: seq<Trans>, id: nat,
                 revoked: map<nat, nat>)
    requires HomeOwes(home, ws, |txs|, home0, txs, id, revoked)
    ensures home == ReplayAll(home0, txs, id, revoked)
  {
  }

  lemma FirstOwes(home: map<nat, Block>, ws: seq<Write>, rs: seq<nat>, txs: seq<Trans>, id: nat, revoked: map<nat, nat>)
    requires txs != [] ==> ws == txs[0].writes && rs == txs[0].revokes
    ensures TableOwes(map[], rs, 0, txs, id) && HomeOwes(home, ws, 0, home, txs, id, revoked)
  {
    if txs != [] {
      assert txs[..1][..0] == [];
    }
  }

  /** What the running pass has accumulated at a cursor. */
  ghost predicate Progress(action: Action, info: RecoverInfo, info0: RecoverInfo, home: map<nat, Block>, k: nat,
                           ws: seq<Write>, rs: seq<nat>, disk: Disk, txs: seq<Trans>) {
    match action
    case Scan => home == disk.home && info == info0.(cnt := k)
    case Revoke =>
      && home == disk.home && info == info0.(revoked := info.revoked)
      && TableOwes(info.revoked, rs, k, txs, disk.sequence)
    case Recover => info == info0 && HomeOwes(home, ws, k, disk.home, txs, disk.sequence, info0.revoked)
  }

  /** The switch over block types in jbd_iterate_log; the cursor passes the block and what belongs to it. */
  method VisitBlock(disk: Disk, info: RecoverInfo, home: map<nat, Block>, action: Action, slot: nat, thisId: nat,
                    geo: Geometry, ghost info0: RecoverInfo, ghost k: nat, ghost rest: seq<Block>, ghost ws: seq<Write>,
                    ghost rs: seq<nat>, ghost imgs: seq<seq<Block>>, ghost txs: seq<Trans>, ghost tail: seq<Block>,
                    ghost lap: bool)
    returns (logEnd: bool, info': RecoverInfo, home': map<nat, Block>, slot': nat, thisId': nat, ghost n: nat,
             ghost k': nat, ghost rest': seq<Block>, ghost ws': seq<Write>, ghost rs': seq<nat>)
    requires geo.Valid() && geo.first <= slot < geo.maxlen && |disk.log| == geo.maxlen
    requires k <= |txs| && thisId == disk.sequence + k && (action != Scan ==> k < |txs|)
    requires Cursor(disk.log, slot, thisId, k, rest, ws, rs, imgs, txs, tail, lap, geo)
    requires Progress(action, info, info0, home, k, ws, rs, disk, txs)
    requires !StopsAt(disk.log[slot], thisId) && (lap && k == |txs| ==> rest != [])
    ensures !logEnd && slot' == Adv(slot, n, geo)
    ensures k' <= |txs| && thisId' == disk.sequence + k'
    ensures Cursor(disk.log, Adv(slot, n + 1, geo), thisId', k', rest', ws', rs', imgs, txs, tail, lap, geo)
    ensures Progress(action, info', info0, home', k', ws', rs', disk, txs)
    ensures Left(k, rest, imgs, tail) == Left(k', rest', imgs, tail) + n + 1
  {
    hide Tags, TagMatches, Revokes, RevokeCount, RevokeShape, Cursor, Left, TableOwes, HomeOwes, TotalLength;
    var b := disk.log[slot];
    logEnd, info', home', slot', thisId' := false, info, home, slot, thisId;
    n, k', rest', ws', rs' := CursorHead(disk.log, slot, thisId, k, rest, ws, rs, imgs, txs, tail, lap, geo);
    assert Adv(slot, 0, geo) == slot;
    if b[1] == DESCRIPTOR_BLOCK {
      if action == Recover {
        HomeBlocks(home, ws, n, k, disk.home, txs, disk.sequence, info.revoked);
        home', slot' := ReplayDescriptor(disk.log, home, b, slot, thisId, info.revoked, geo, ws[..n]);
      } else {
        slot' := SkipDescriptor(b, slot, geo);
      }
    } else if b[1] == COMMIT_BLOCK {
      thisId' := thisId + 1;
      if action == Scan {
        info' := info.(cnt := info.cnt + 1);
      } else if action == Revoke {
        TableCommit(info.revoked, rs', k, txs, disk.sequence);
      } else {
        HomeCommit(home, ws', k, disk.home, txs, disk.sequence, info.revoked);
      }
    } else if b[1] == REVOKE_BLOCK {
      if action == Revoke {
        TableBlock(info.revoked, rs, RevokeCount(b, geo), k, txs, disk.sequence);
        assert Revokes(b, geo) == rs[..RevokeCount(b, geo)];
        var m := BuildRevokeTree(info.revoked, b, thisId, geo);
        info' := info.(revoked := m);
      }
    } else {
      logEnd := true;
    }
  }

  lemma LogHoldsStart(disk: Disk, imgs: seq<seq<Block>>, txs: seq<Trans>, tail: seq<Block>, geo: Geometry)
    requires LogHolds(disk, imgs, txs, tail, geo)
    ensures var lap := TotalLength(imgs) + |tail| == geo.Slots();
      |imgs| == |txs| && Reads(disk.log, disk.start, disk.sequence, imgs[0..], txs[0..], tail, lap, geo)
    ensures TotalLength(imgs[0..]) == TotalLength(imgs)
  {
    assert imgs[0..] == imgs && txs[0..] == txs;
  }

  /** jbd_iterate_log: one pass over the log, from the tail in the superblock. */
  method IterateLog(disk: Disk, info: RecoverInfo, action: Action, geo: Geometry,
                    ghost imgs: seq<seq<Block>>, ghost txs: seq<Trans>, ghost tail: seq<Block>)
    returns (ok: bool, info': RecoverInfo, home: map<nat, Block>)
    requires LogHolds(disk, imgs, txs, tail, geo)
    requires action != Scan ==> info.cnt == |txs| && (txs != [] ==> info.lastId == disk.sequence + |txs| - 1)
    requires action == Revoke ==> info.revoked == map[]
    ensures ok
    ensures action != Recover ==> home == disk.home
    ensures action == Scan ==> info'.startId == disk.sequence && info'.cnt == |txs| && info'.revoked == info.revoked
    ensures action == Scan ==> info'.lastId == disk.sequence + (if txs == [] then 0 else |txs| - 1)
    ensures action == Revoke ==> info' == info.(revoked := RevokeTable(txs, disk.sequence))
    ensures action == Recover ==> info' == info
    ensures action == Recover ==> home == ReplayAll(disk.home, txs, disk.sequence, info.revoked)
  {
    hide Cursor, TableOwes, HomeOwes, Reads, RevokeTable, ReplayAll;
    ok, info', home := true, info, disk.home;
    var thisId := disk.sequence;
    var slot := disk.start;
    var logEnd := false;
    if action == Scan {
      info' := info'.(cnt := 0);
    } else if info.cnt == 0 {
      logEnd := true;
    }
    ghost var k: nat, used: nat := 0, 0;
    ghost var lap := TotalLength(imgs) + |tail| == geo.Slots();
    LogHoldsStart(disk, imgs, txs, tail, geo);
    ghost var rest, ws, rs := EnterTrans(disk.log, slot, thisId, 0, imgs, txs, tail, lap, geo);
    FirstOwes(home, ws, rs, txs, disk.sequence, info.revoked);
    while !logEnd
      invariant geo.first <= slot < geo.maxlen && ok
      invariant k <= |txs| && thisId == disk.sequence + k
      invariant logEnd ==> k == |txs|
      invariant Progress(action, info', info, home, k, ws, rs, disk, txs)
      invariant !logEnd ==> Cursor(disk.log, slot, thisId, k, rest, ws, rs, imgs, txs, tail, lap, geo)
      invariant !logEnd ==> slot == Adv(disk.start, used, geo) && used + Left(k, rest, imgs, tail) <= geo.Slots()
      invariant !logEnd && lap ==> used < geo.Slots() == used + Left(k, rest, imgs, tail)
      decreases !logEnd, Left(k, rest, imgs, tail)
    {
      if action != Scan && thisId > info.lastId {
        logEnd := true;
        continue;
      }
      if StopsAt(disk.log[slot], thisId) {
        // No magic number, or the header of another transaction.
        CursorStops(disk.log, slot, thisId, k, rest, ws, rs, imgs, txs, tail, lap, geo);
        if IsHeader(disk.log[slot]) && action != Scan { ok := false; }
        logEnd := true;
        continue;
      }
      if lap && k == |txs| { LeftIs(k, rest, imgs, tail); }
      ghost var n, k', rest', ws', rs';
      logEnd, info', home, slot, thisId, n, k', rest', ws', rs' :=
        VisitBlock(disk, info', home, action, slot, thisId, geo, info, k, rest, ws, rs, imgs, txs, tail, lap);
      AdvAdd(disk.start, used, n, geo);
      AdvAdd(disk.start, used, n + 1, geo);
      LapEnds(disk.log, disk.start, thisId, k', rest', ws', rs', imgs, txs, tail, lap, geo, used + n + 1);
      slot := Next(slot, geo);
      if slot == disk.start { logEnd := true; }
      k, rest, ws, rs, used := k', rest', ws', rs', used + n + 1;
    }
    if action == Revoke { TableDone(info'.revoked, rs, txs, disk.sequence); }
    if action == Recover { HomeDone(home, ws, disk.home, txs, disk.sequence, info.revoked); }
    if action == Scan {
      info' := info'.(startId := disk.sequence, lastId := if thisId > disk.sequence then thisId - 1 else thisId);
    }
  }

  /** jbd_recover: a disk without a log tail is left alone; otherwise the three passes run, and only
      then is the tail cleared in the journal superblock. */
  method RecoverJournal(disk: Disk, geo: Geometry, ghost imgs: seq<seq<Block>>, ghost txs: seq<Trans>,
                        ghost tail: seq<Block>)
    returns (ok: bool, disk': Disk)
    requires disk.start != 0 ==> LogHolds(disk, imgs, txs, tail, geo)
    ensures ok && disk'.log == disk.log
    ensures disk.start == 0 ==> disk' == disk
    ensures disk.start != 0 ==> disk'.start == 0
    ensures disk.start != 0 ==> disk'.sequence == disk.sequence + (if txs == [] then 0 else |txs| - 1)
    ensures disk.start != 0 ==> forall lba :: SameAt(disk'.home, Overlay(disk.home, lba, LastEvent(txs, lba)), lba)
  {
    hide LogHolds, ReplayAll, RevokeTable, SameAt, Overlay;
    if disk.start == 0 { return true, disk; }
    var info := RecoverInfo(0, 0, 0, map[]);
    var home;
    ok, info, home := IterateLog(disk, info, Scan, geo, imgs, txs, tail);
    ok, info, home := IterateLog(disk, info, Revoke, geo, imgs, txs, tail);
    ok, info, home := IterateLog(disk, info, Recover, geo, imgs, txs, tail);
    disk' := disk.(home := home, start := 0, sequence := info.lastId);
    forall lba
      ensures SameAt(disk'.home, Overlay(disk.home, lba, LastEvent(txs, lba)), lba)
    {
      RecoveredContent(disk.home, txs, disk.sequence, lba);
    }
  }
}
