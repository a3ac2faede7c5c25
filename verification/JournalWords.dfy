/** The log as numbers: blocks written in the numbers of the format are what the encoder puts out, and recovery replays
    them. Statements here name no constant of the encoder or of the reader. */
module JournalWords {
  import opened JournalFormat
  import opened JournalRecovery

  // ------------------------------------------------- numbers read as a log

  predicate FitsAll(t: Trans, geo: Geometry) {
    && (forall i :: 0 <= i < |t.writes| ==> geo.Fits(t.writes[i].lba))
    && (forall i :: 0 <= i < |t.revokes| ==> geo.Fits(t.revokes[i]))
  }

  function TagOf(w: Write, i: nat, last: bool): Tag {
    Tag(w.lba, w.data != [] && w.data[0] == 0xc03b3998, i > 0, last)
  }

  /** A tag in numbers is read as the write it was made for, and the next one follows. */
  lemma TagRead(b: Block, i: nat, w: Write, last: bool, uuid: Block, geo: Geometry)
    requires TagInWords(b, i, w, last, uuid, geo) && geo.Fits(w.lba)
    ensures TagWord(i, geo) + geo.TagWords() <= |b|
    ensures TagAt(b, TagWord(i, geo), geo) == TagOf(w, i, last)
    ensures TagWord(i, geo) + TagSize(TagOf(w, i, last), geo) == TagWord(i + 1, geo) <= |b|
  {
  }

  lemma {:induction false} TagsRead(b: Block, i: nat, ws: seq<Write>, last: bool, uuid: Block, geo: Geometry)
    requires i <= |ws| && (forall k :: 0 <= k < |ws| ==> geo.Fits(ws[k].lba))
    requires forall k: nat :: k < |ws| ==> TagInWords(b, k, ws[k], last && k == |ws| - 1, uuid, geo)
    requires if last then i < |ws| else TagWord(|ws|, geo) + geo.TagWords() > |b|
    ensures Tags(b, TagWord(i, geo), geo) ==
            seq(|ws| - i, k requires 0 <= k < |ws| - i => TagOf(ws[i + k], i + k, last && i + k == |ws| - 1))
    decreases |ws| - i
  {
    hide TagInWords, TagWord, TagAt, TagSize, TagOf;
    if i < |ws| {
      TagRead(b, i, ws[i], last && i == |ws| - 1, uuid, geo);
      if i + 1 < |ws| || !last { TagsRead(b, i + 1, ws, last, uuid, geo); }
      TagLast(ws[i], i, last && i == |ws| - 1);
    }
  }

  lemma TagLast(w: Write, i: nat, last: bool)
    ensures TagOf(w, i, last).last == last
  {
  }

  /** A group in numbers is a descriptor group that logs its writes. */
  lemma GroupRead(group: seq<Block>, id: nat, ws: seq<Write>, last: bool, uuid: Block, geo: Geometry)
    requires GroupInWords(group, id, ws, last, uuid, geo) && ws != []
    requires forall k :: 0 <= k < |ws| ==> geo.Fits(ws[k].lba)
    requires last || TagWord(|ws|, geo) + geo.TagWords() > geo.words
    ensures Body(group, id, ws, [], geo)
  {
    hide TagInWords, TagWord, Body;
    FirstTagWord(geo);
    TagsRead(group[0], 0, ws, last, uuid, geo);
    var ts := Tags(group[0], HEADER_WORDS, geo);
    forall i | 0 <= i < |ws|
      ensures TagMatches(ts[i], group[1 + i], ws[i])
    {
      assert ts[i] == TagOf(ws[i], i, last && i == |ws| - 1);
    }
    GroupCloses(group, id, ts, ws, geo);
  }

  lemma {:induction false} DataRead(img: seq<Block>, id: nat, ws: seq<Write>, uuid: Block, geo: Geometry)
    requires geo.Valid() && DataInWords(img, id, ws, true, uuid, geo)
    requires forall k :: 0 <= k < |ws| ==> geo.Fits(ws[k].lba)
    ensures Body(img, id, ws, [], geo)
    decreases |img|
  {
    hide GroupInWords, Body, DataInWords, TagsPer;
    if ws == [] {
      NoGroup(img, id, true, uuid, geo);
      EmptyBody(id, geo);
    } else {
      FirstGroup(img, id, ws, true, uuid, geo);
      var n := Least(TagsPer(geo), |ws|);
      FullIs(geo);
      GroupRead(img[..n + 1], id, ws[..n], n == |ws|, uuid, geo);
      DataRead(img[n + 1..], id, ws[n..], uuid, geo);
      BodyAppend(img[..n + 1], img[n + 1..], id, ws[..n], [], ws[n..], [], geo);
      assert img[..n + 1] + img[n + 1..] == img && ws[..n] + ws[n..] == ws;
      var none: seq<nat> := [];
      assert none + none == none;
    }
  }

  lemma FullIs(geo: Geometry)
    requires geo.Valid()
    ensures TagWord(TagsPer(geo), geo) + geo.TagWords() > geo.words
  {
  }

  lemma RevokeRead(b: Block, id: nat, rs: seq<nat>, geo: Geometry)
    requires RevokeInWords(b, id, rs, geo) && (forall k :: 0 <= k < |rs| ==> geo.Fits(rs[k]))
    ensures Body([b], id, [], rs, geo)
  {
    assert RevokeShape(b, geo) && RevokeCount(b, geo) == |rs| by { CountIs(|rs|, geo); }
    forall i: nat | i < |rs|
      ensures RecordAt(b, i, geo) == rs[i]
    {
      HalvesJoin(rs[i]);
    }
    assert Revokes(b, geo) == rs;
    var img: seq<Block> := [b];
    assert img[1..] == [] && rs[|rs|..] == [];
    assert Body(img[1..], id, [], [], geo);
  }

  lemma CountIs(n: nat, geo: Geometry)
    ensures n * (if geo.wide then 8 else 4) / (4 * geo.RecordWords()) == n
  {
  }

  lemma HalvesJoin(lba: nat)
    ensures lba / 0x1_0000_0000 * 0x1_0000_0000 + lba % 0x1_0000_0000 == lba
  {
  }

  lemma FirstRevoke(img: seq<Block>, id: nat, rs: seq<nat>, geo: Geometry)
    requires RevokesInWords(img, id, rs, geo)
    ensures rs == [] ==> img == []
    ensures rs != [] ==>
      var n := Least((geo.words - 4) / (if geo.wide then 2 else 1), |rs|);
      && 0 < n <= |rs| && img != []
      && RevokeInWords(img[0], id, rs[..n], geo) && RevokesInWords(img[1..], id, rs[n..], geo)
  {
    hide RevokeInWords;
  }

  lemma {:induction false} RevokesRead(img: seq<Block>, id: nat, rs: seq<nat>, geo: Geometry)
    requires RevokesInWords(img, id, rs, geo) && (forall k :: 0 <= k < |rs| ==> geo.Fits(rs[k]))
    ensures Body(img, id, [], rs, geo)
    decreases |img|
  {
    hide RevokeInWords, Body, RevokesInWords, Least;
    FirstRevoke(img, id, rs, geo);
    if rs == [] {
      EmptyBody(id, geo);
    } else {
      var n := Least((geo.words - 4) / (if geo.wide then 2 else 1), |rs|);
      RevokeRead(img[0], id, rs[..n], geo);
      RevokesRead(img[1..], id, rs[n..], geo);
      BodyAppend([img[0]], img[1..], id, [], rs[..n], [], rs[n..], geo);
      assert [img[0]] + img[1..] == img && rs[..n] + rs[n..] == rs;
      var none: seq<Write> := [];
      assert none + none == none;
    }
  }

  /** A transaction in numbers is one that recovery takes for committed. */
  lemma TransRead(img: seq<Block>, id: nat, t: Trans, uuid: Block, geo: Geometry)
    requires geo.Valid() && InWords(img, id, t, uuid, geo) && FitsAll(t, geo)
    ensures ImageOf(img, id, t, geo)
  {
    hide DataInWords, RevokesInWords, Body;
    var k: nat :| k < |img|
      && DataInWords(img[..k], id, t.writes, true, uuid, geo)
      && RevokesInWords(img[k..|img| - 1], id, t.revokes, geo)
      && CommitInWords(img[|img| - 1], id, geo);
    DataRead(img[..k], id, t.writes, uuid, geo);
    RevokesRead(img[k..|img| - 1], id, t.revokes, geo);
    BodyAppend(img[..k], img[k..|img| - 1], id, t.writes, [], [], t.revokes, geo);
    assert img[..k] + img[k..|img| - 1] == img[..|img| - 1];
    assert t.writes + [] == t.writes && [] + t.revokes == t.revokes;
  }

  // ------------------------------------------------------ recovery of a log

  function Joined(imgs: seq<seq<Block>>): (all: seq<Block>)
    ensures |all| == TotalLength(imgs)
  {
    if imgs == [] then [] else imgs[0] + Joined(imgs[1..])
  }

  /** The slot n places behind another one in the circular area. */
  function SlotAfter(slot: nat, n: nat, geo: Geometry): int {
    if slot + n < geo.maxlen then slot + n else slot + n - (geo.maxlen - geo.first)
  }

  /** From the slot named in the superblock on, the log is the blocks of the transactions in numbers, with ids that
      count up; then comes a block that does not go on, or the log is full. */
  ghost predicate LogInWords(d: Disk, imgs: seq<seq<Block>>, txs: seq<Trans>, uuid: Block, geo: Geometry) {
    && geo.Valid() && |d.log| == geo.maxlen && geo.first <= d.start < geo.maxlen
    && |imgs| == |txs| && |Joined(imgs)| <= geo.maxlen - geo.first
    && (forall k: nat :: k < |txs| ==> InWords(imgs[k], d.sequence + k, txs[k], uuid, geo) && FitsAll(txs[k], geo))
    && (forall v: nat :: v < |Joined(imgs)| ==> d.log[SlotAfter(d.start, v, geo)] == Joined(imgs)[v])
    && (|Joined(imgs)| < geo.maxlen - geo.first ==>
          var b := d.log[SlotAfter(d.start, |Joined(imgs)|, geo)];
          |b| < 3 || b[0] != 0xc03b3998 || b[2] != d.sequence + |txs|)
  }

  lemma {:induction false} ImagesRead(log: seq<Block>, slot: nat, id: nat, imgs: seq<seq<Block>>, txs: seq<Trans>,
                                      lap: bool, uuid: Block, geo: Geometry)
    requires geo.Valid() && geo.first <= slot < geo.maxlen && |log| == geo.maxlen && |imgs| == |txs|
    requires forall k: nat :: k < |txs| ==> InWords(imgs[k], id + k, txs[k], uuid, geo) && FitsAll(txs[k], geo)
    requires Segment(log, slot, Joined(imgs), geo)
    requires lap || StopsAt(log[Adv(slot, |Joined(imgs)|, geo)], id + |txs|)
    ensures Reads(log, slot, id, imgs, txs, [], lap, geo)
    decreases |txs|
  {
    hide InWords, ImageOf, FitsAll, StopsAt, Adv;
    if txs != [] {
      assert InWords(imgs[0], id + 0, txs[0], uuid, geo) && FitsAll(txs[0], geo);
      TransRead(imgs[0], id, txs[0], uuid, geo);
      var all := Joined(imgs);
      assert all[|imgs[0]|..] == Joined(imgs[1..]) && all[..|imgs[0]|] == imgs[0];
      SegmentDrop(log, slot, all, |imgs[0]|, geo);
      forall k: nat | k < |txs[1..]|
        ensures InWords(imgs[1..][k], id + 1 + k, txs[1..][k], uuid, geo) && FitsAll(txs[1..][k], geo)
      {
        assert InWords(imgs[k + 1], id + (k + 1), txs[k + 1], uuid, geo);
      }
      ImagesRead(log, Adv(slot, |imgs[0]|, geo), id + 1, imgs[1..], txs[1..], lap, uuid, geo);
      forall v: nat | v < |imgs[0]|
        ensures log[Adv(slot, v, geo)] == imgs[0][v]
      {
        assert all[v] == imgs[0][v];
      }
    } else {
      assert Segment(log, slot, [], geo) && Joined(imgs) == [];
    }
  }

  /** A log in numbers can be read to its end. */
  lemma LogRead(d: Disk, imgs: seq<seq<Block>>, txs: seq<Trans>, uuid: Block, geo: Geometry)
    requires LogInWords(d, imgs, txs, uuid, geo)
    ensures LogHolds(d, imgs, txs, [], geo)
  {
    hide InWords, Adv, FitsAll, Reads;
    var all := Joined(imgs);
    forall v: nat | v < |all|
      ensures d.log[Adv(d.start, v, geo)] == all[v]
    {
      AdvWithinLap(d.start, v, geo);
    }
    AdvWithinLap(d.start, |all|, geo);
    ImagesRead(d.log, d.start, d.sequence, imgs, txs, |all| == geo.Slots(), uuid, geo);
  }

  /** Recovery of a log in numbers: each block has its last write that no transaction from there on revokes. */
  method RecoverWords(d: Disk, geo: Geometry, ghost imgs: seq<seq<Block>>, ghost txs: seq<Trans>, ghost uuid: Block)
    returns (ok: bool, d': Disk)
    requires d.start != 0 && LogInWords(d, imgs, txs, uuid, geo)
    ensures ok && d'.log == d.log && d'.start == 0
    ensures forall lba :: SameAt(d'.home, Overlay(d.home, lba, LastEvent(txs, lba)), lba)
  {
    hide LogInWords, LogHolds;
    LogRead(d, imgs, txs, uuid, geo);
    ok, d' := RecoverJournal(d, geo, imgs, txs, []);
  }

  /** Descriptor, block and commit block of a transaction that writes one block, word by word. */
  ghost predicate OneWrite(img: seq<Block>, id: nat, lba: nat, data: Block, geo: Geometry) {
    && |img| == 3 && |img[0]| == |img[2]| == geo.words >= 6
    && img[0][0] == 0xc03b3998 && img[0][1] == 1 && img[0][2] == id
    && img[0][3] == lba % 0x1_0000_0000
    && img[0][4] == (if data != [] && data[0] == 0xc03b3998 then 9 else 8)
    && (geo.wide ==> img[0][5] == lba / 0x1_0000_0000)
    && img[1] == (if data != [] && data[0] == 0xc03b3998 then data[0 := 0] else data)
    && img[2][0] == 0xc03b3998 && img[2][1] == 2 && img[2][2] == id
  }

  /** Revoke block and commit block of a transaction that revokes one block, word by word. */
  ghost predicate OneRevoke(img: seq<Block>, id: nat, lba: nat, geo: Geometry) {
    && |img| == 2 && |img[0]| == |img[1]| == geo.words >= 6
    && img[0][0] == 0xc03b3998 && img[0][1] == 5 && img[0][2] == id
    && img[0][3] == (if geo.wide then 24 else 20)
    && (if geo.wide then img[0][4] == lba / 0x1_0000_0000 && img[0][5] == lba % 0x1_0000_0000 else img[0][4] == lba)
    && img[1][0] == 0xc03b3998 && img[1][1] == 2 && img[1][2] == id
  }

  lemma OneWriteIs(img: seq<Block>, id: nat, lba: nat, data: Block, geo: Geometry) returns (uuid: Block)
    requires geo.Valid() && OneWrite(img, id, lba, data, geo) && geo.Fits(lba)
    ensures InWords(img, id, Trans([Write(lba, data)], []), uuid, geo)
  {
    var size := if geo.wide then 3 else 2;
    uuid := img[0][3 + size..7 + size];
    var ws := [Write(lba, data)];
    GroupIs(img[..2], id, ws[0], uuid, geo);
    OneGroup(img[..2], id, ws, true, uuid, geo);
    assert img[2..|img| - 1] == [];
    NoRevokeBlock(id, geo);
    assert DataInWords(img[..2], id, Trans(ws, []).writes, true, uuid, geo);
  }

  lemma GroupIs(group: seq<Block>, id: nat, w: Write, uuid: Block, geo: Geometry)
    requires geo.Valid() && |group| == 2 && |group[0]| == geo.words
    requires group[0][0] == 0xc03b3998 && group[0][1] == 1 && group[0][2] == id
    requires TagInWords(group[0], 0, w, true, uuid, geo)
    requires group[1] == if w.data != [] && w.data[0] == 0xc03b3998 then w.data[0 := 0] else w.data
    ensures GroupInWords(group, id, [w], true, uuid, geo)
  {
    hide TagInWords;
  }

  lemma OneRevokeIs(img: seq<Block>, id: nat, lba: nat, uuid: Block, geo: Geometry)
    requires geo.Valid() && OneRevoke(img, id, lba, geo) && geo.Fits(lba)
    ensures InWords(img, id, Trans([], [lba]), uuid, geo)
  {
    var rs := [lba];
    assert RevokeInWords(img[0], id, rs, geo);
    var none: seq<Block> := [];
    RevokesBehind(none, img[0], id, [], rs, geo);
    assert none + [img[0]] == img[0..|img| - 1] && [] + rs == rs;
    NoGroup(img[..0], id, true, uuid, geo);
    assert DataInWords(img[..0], id, Trans([], rs).writes, true, uuid, geo);
  }

  /** One block in the log in numbers: recovery writes it to its place. */
  method ReplaysOne(d: Disk, lba: nat, data: Block, geo: Geometry) returns (ok: bool, d': Disk)
    requires geo.Valid() && |d.log| == geo.maxlen && geo.first <= d.start && d.start + 3 < geo.maxlen && geo.Fits(lba)
    requires OneWrite(d.log[d.start..d.start + 3], d.sequence, lba, data, geo)
    requires var b := d.log[d.start + 3]; |b| < 3 || b[0] != 0xc03b3998 || b[2] != d.sequence + 1
    ensures ok && d'.start == 0 && d'.home == d.home[lba := data]
  {
    hide OneWrite, InWords, LogInWords;
    ghost var img := d.log[d.start..d.start + 3];
    ghost var t := Trans([Write(lba, data)], []);
    ghost var uuid := OneWriteIs(img, d.sequence, lba, data, geo);
    OneInLog(d, img, t, uuid, geo);
    ok, d' := RecoverWords(d, geo, [img], [t], uuid);
    OneReplayed(d.home, d'.home, lba, data);
  }

  lemma OneReplayed(home: map<nat, Block>, home': map<nat, Block>, lba: nat, data: Block)
    requires forall c: nat ::
      SameAt(home', Overlay(home, c, LastEvent([Trans([Write(lba, data)], [])], c)), c)
    ensures home' == home[lba := data]
  {
    var t, goal := Trans([Write(lba, data)], []), home[lba := data];
    forall c: nat
      ensures SameAt(home', goal, c)
    {
      assert SameAt(home', Overlay(home, c, LastEvent([t], c)), c);
      LastOfOne(t, c);
      LastWriteFront(t.writes, c);
      assert t.writes[1..] == [];
    }
    SameEverywhere(home', goal);
  }

  lemma OneInLog(d: Disk, img: seq<Block>, t: Trans, uuid: Block, geo: Geometry)
    requires geo.Valid() && |d.log| == geo.maxlen && geo.first <= d.start && d.start + |img| < geo.maxlen
    requires img == d.log[d.start..d.start + |img|] && InWords(img, d.sequence, t, uuid, geo) && FitsAll(t, geo)
    requires var b := d.log[d.start + |img|]; |b| < 3 || b[0] != 0xc03b3998 || b[2] != d.sequence + 1
    ensures LogInWords(d, [img], [t], uuid, geo)
  {
    hide InWords, FitsAll;
    assert Joined([img]) == img by { assert [img][1..] == []; assert Joined([]) == []; }
  }

  lemma LastOfOne(t: Trans, b: nat)
    ensures LastEvent([t], b) == EventOf(t, b)
  {
    hide EventOf;
    assert [t][..0] == [];
  }

  lemma SameEverywhere(a: map<nat, Block>, b: map<nat, Block>)
    requires forall lba: nat :: SameAt(a, b, lba)
    ensures a == b
  {
    forall lba: nat ensures lba in a <==> lba in b { assert SameAt(a, b, lba); }
    forall lba | lba in a ensures a[lba] == b[lba] { assert SameAt(a, b, lba); }
  }

  /** A block in the log in numbers, and a later transaction that revokes it: recovery leaves its place alone. */
  method SkipsRevoked(d: Disk, lba: nat, data: Block, geo: Geometry) returns (ok: bool, d': Disk)
    requires geo.Valid() && |d.log| == geo.maxlen && geo.first <= d.start && d.start + 5 < geo.maxlen && geo.Fits(lba)
    requires OneWrite(d.log[d.start..d.start + 3], d.sequence, lba, data, geo)
    requires OneRevoke(d.log[d.start + 3..d.start + 5], d.sequence + 1, lba, geo)
    requires var b := d.log[d.start + 5]; |b| < 3 || b[0] != 0xc03b3998 || b[2] != d.sequence + 2
    ensures ok && d'.start == 0 && d'.home == d.home
  {
    hide OneWrite, OneRevoke, InWords, LogInWords;
    ghost var a, b := d.log[d.start..d.start + 3], d.log[d.start + 3..d.start + 5];
    ghost var t, r := Trans([Write(lba, data)], []), Trans([], [lba]);
    ghost var uuid := OneWriteIs(a, d.sequence, lba, data, geo);
    OneRevokeIs(b, d.sequence + 1, lba, uuid, geo);
    TwoInLog(d, a, b, t, r, uuid, geo);
    ok, d' := RecoverWords(d, geo, [a, b], [t, r], uuid);
    NoneReplayed(d.home, d'.home, lba, data);
  }

  lemma NoneReplayed(home: map<nat, Block>, home': map<nat, Block>, lba: nat, data: Block)
    requires forall c: nat ::
      SameAt(home', Overlay(home, c, LastEvent([Trans([Write(lba, data)], []), Trans([], [lba])], c)), c)
    ensures home' == home
  {
    var t, r := Trans([Write(lba, data)], []), Trans([], [lba]);
    forall c: nat
      ensures SameAt(home', home, c)
    {
      assert SameAt(home', Overlay(home, c, LastEvent([t, r], c)), c);
      LastEventConcat([t], [r], c);
      assert [t] + [r] == [t, r];
      LastOfOne(t, c);
      LastOfOne(r, c);
      LastWriteFront(t.writes, c);
      assert t.writes[1..] == [];
    }
    SameEverywhere(home', home);
  }

  lemma TwoInLog(d: Disk, a: seq<Block>, b: seq<Block>, t: Trans, r: Trans, uuid: Block, geo: Geometry)
    requires geo.Valid() && |d.log| == geo.maxlen && geo.first <= d.start && d.start + |a| + |b| < geo.maxlen
    requires a == d.log[d.start..d.start + |a|] && b == d.log[d.start + |a|..d.start + |a| + |b|]
    requires InWords(a, d.sequence, t, uuid, geo) && FitsAll(t, geo)
    requires InWords(b, d.sequence + 1, r, uuid, geo) && FitsAll(r, geo)
    requires var c := d.log[d.start + |a| + |b|]; |c| < 3 || c[0] != 0xc03b3998 || c[2] != d.sequence + 2
    ensures LogInWords(d, [a, b], [t, r], uuid, geo)
  {
    hide InWords, FitsAll;
    assert Joined([a, b]) == a + b by {
      assert [a, b][1..] == [b] && [b][1..] == [];
      assert Joined([]) == [] && Joined([b]) == b + [];
    }
  }
}
