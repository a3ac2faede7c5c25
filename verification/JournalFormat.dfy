/** The on-disk journal format: descriptor, revoke and commit blocks, block tags and escaping.
    A block is a sequence of 32-bit words, already converted from big endian. No checksum feature
    is on; `wide` is the 64BIT feature. */
module JournalFormat {

  const MAGIC: nat := 0xc03b3998
  const DESCRIPTOR_BLOCK: nat := 1
  const COMMIT_BLOCK: nat := 2
  const REVOKE_BLOCK: nat := 5

  const FLAG_ESCAPE: nat := 1
  const FLAG_SAME_UUID: nat := 2
  const FLAG_LAST_TAG: nat := 8

  const WORD: nat := 0x1_0000_0000
  const HEADER_WORDS := 3
  const REVOKE_HEADER_WORDS := 4
  const UUID_WORDS := 4

  type Block = seq<nat>

  /** Block size in words, 64-bit block numbers or not, and the circular area [first, maxlen). */
  datatype Geometry = Geometry(words: nat, wide: bool, first: nat, maxlen: nat) {
    predicate Valid() {
      words >= HEADER_WORDS + 3 + UUID_WORDS && 1 <= first < maxlen
    }

    function TagWords(): nat { if wide then 3 else 2 }

    function RecordWords(): nat { if wide then 2 else 1 }

    predicate Fits(lba: nat) { if wide then lba < WORD * WORD else lba < WORD }

    /** Number of usable log slots. */
    function Slots(): nat
      requires Valid()
    {
      maxlen - first
    }
  }

  datatype Write = Write(lba: nat, data: Block)
  datatype Trans = Trans(writes: seq<Write>, revokes: seq<nat>)

  /** A buffer queued in an open transaction; `dirty` is the cache's BC_DIRTY flag. */
  datatype JournalBuf = JournalBuf(lba: nat, data: Block, dirty: bool)

  datatype Tag = Tag(block: nat, escape: bool, sameUuid: bool, last: bool)

  // ------------------------------------------------------- the words on disk

  // The blocks of a transaction in numbers, for the encoder and the reader below to be compared with.

  /** The word at which tag i of a descriptor begins: 12 bytes of header come first, and 16 bytes of UUID lie behind
      the first tag. */
  function TagWord(i: nat, geo: Geometry): nat {
    if i == 0 then 3 else 7 + i * (if geo.wide then 3 else 2)
  }

  /** A tag from word `at` on: block number, the flags 1 (escaped), 2 (same UUID) and 8 (last tag), with 64 bits the
      upper half of the number, and the UUID in the first one. */
  predicate TagNumbers(b: Block, at: nat, lba: nat, escape: bool, first: bool, last: bool, uuid: Block,
                       geo: Geometry) {
    var size := if geo.wide then 3 else 2;
    && at + size + (if first then 4 else 0) <= |b|
    && b[at] == lba % 0x1_0000_0000
    && b[at + 1] == (if escape then 1 else 0) + (if first then 0 else 2) + (if last then 8 else 0)
    && (geo.wide ==> b[at + 2] == lba / 0x1_0000_0000 < 0x1_0000_0000)
    && (first ==> b[at + size..at + size + 4] == uuid)
  }

  /** Tag i of a descriptor is that of a write. */
  predicate TagInWords(b: Block, i: nat, w: Write, last: bool, uuid: Block, geo: Geometry) {
    TagNumbers(b, TagWord(i, geo), w.lba, w.data != [] && w.data[0] == 0xc03b3998, i == 0, last, uuid, geo)
  }

  /** A descriptor with the blocks it names behind it; the magic number at the front of a block is cleared. */
  ghost predicate GroupInWords(group: seq<Block>, id: nat, ws: seq<Write>, last: bool, uuid: Block, geo: Geometry) {
    && |group| == 1 + |ws|
    && |group[0]| == geo.words >= 3
    && group[0][0] == 0xc03b3998 && group[0][1] == 1 && group[0][2] == id
    && (forall i: nat :: i < |ws| ==> TagInWords(group[0], i, ws[i], last && i == |ws| - 1, uuid, geo))
    && (forall i: nat :: i < |ws| ==>
          group[1 + i] == if ws[i].data != [] && ws[i].data[0] == 0xc03b3998 then ws[i].data[0 := 0] else ws[i].data)
  }

  /** A revoke block: header, the bytes in use, and 4 or 8 bytes a record. */
  ghost predicate RevokeInWords(b: Block, id: nat, rs: seq<nat>, geo: Geometry) {
    && |b| == geo.words >= 4
    && b[0] == 0xc03b3998 && b[1] == 5 && b[2] == id
    && b[3] == 16 + |rs| * (if geo.wide then 8 else 4)
    && RecordsInWords(b, rs, geo)
  }

  ghost predicate RecordsInWords(b: Block, rs: seq<nat>, geo: Geometry) {
    && 4 + |rs| * (if geo.wide then 2 else 1) <= |b|
    && forall i: nat :: i < |rs| ==>
         if geo.wide then b[4 + 2 * i] == rs[i] / 0x1_0000_0000 < 0x1_0000_0000
                          && b[5 + 2 * i] == rs[i] % 0x1_0000_0000
         else b[4 + i] == rs[i] % 0x1_0000_0000
  }

  /** Descriptor groups that log the writes `ws`; each but the last is full, and that one ends with the last tag. */
  ghost predicate DataInWords(img: seq<Block>, id: nat, ws: seq<Write>, last: bool, uuid: Block, geo: Geometry)
    decreases |img|
  {
    if ws == [] then img == []
    else
      var n := Least((geo.words - 7) / (if geo.wide then 3 else 2), |ws|);
      && 0 < n < |img|
      && GroupInWords(img[..n + 1], id, ws[..n], last && n == |ws|, uuid, geo)
      && DataInWords(img[n + 1..], id, ws[n..], last, uuid, geo)
  }

  /** Revoke blocks that hold the records `rs`; each but the last is full. */
  ghost predicate RevokesInWords(img: seq<Block>, id: nat, rs: seq<nat>, geo: Geometry)
    decreases |img|
  {
    if rs == [] then img == []
    else
      var n := Least((geo.words - 4) / (if geo.wide then 2 else 1), |rs|);
      && 0 < n && 0 < |img|
      && RevokeInWords(img[0], id, rs[..n], geo)
      && RevokesInWords(img[1..], id, rs[n..], geo)
  }

  predicate CommitInWords(b: Block, id: nat, geo: Geometry) {
    |b| == geo.words >= 3 && b[0] == 0xc03b3998 && b[1] == 2 && b[2] == id
  }

  /** The log blocks of a transaction: data, revokes and one commit block. */
  ghost predicate InWords(img: seq<Block>, id: nat, t: Trans, uuid: Block, geo: Geometry) {
    exists k: nat :: k < |img|
      && DataInWords(img[..k], id, t.writes, true, uuid, geo)
      && RevokesInWords(img[k..|img| - 1], id, t.revokes, geo)
      && CommitInWords(img[|img| - 1], id, geo)
  }

  function Least(a: int, b: nat): int { if a < b then a else b }

  // ---------------------------------------------------------------- headers

  predicate IsHeader(b: Block) { |b| >= HEADER_WORDS && b[0] == MAGIC }

  predicate HeaderOf(b: Block, id: nat, kind: nat) {
    IsHeader(b) && b[1] == kind && b[2] == id
  }

  /** A block at which the log reader stops while it expects transaction `id`. */
  predicate StopsAt(b: Block, id: nat) { !IsHeader(b) || b[2] != id }

  function PutHeader(scratch: Block, kind: nat, id: nat): (b: Block)
    requires |scratch| >= HEADER_WORDS
    ensures |b| == |scratch| && HeaderOf(b, id, kind)
  {
    scratch[0 := MAGIC][1 := kind][2 := id]
  }

  // ------------------------------------------------------------------- tags

  predicate FlagSet(flags: nat, bit: nat)
    requires bit > 0
  {
    (flags / bit) % 2 == 1
  }

  function TagAt(b: Block, off: nat, geo: Geometry): (t: Tag)
    requires off + geo.TagWords() <= |b|
  {
    var flags := b[off + 1] % 0x1_0000;
    Tag(b[off] + (if geo.wide then b[off + 2] * WORD else 0),
        FlagSet(flags, FLAG_ESCAPE), FlagSet(flags, FLAG_SAME_UUID), FlagSet(flags, FLAG_LAST_TAG))
  }

  /** Words taken by a tag, with the UUID that follows the first tag of a descriptor. */
  function TagSize(t: Tag, geo: Geometry): (n: nat)
    ensures 2 <= n <= 7
  {
    geo.TagWords() + (if t.sameUuid then 0 else UUID_WORDS)
  }

  /** The tags that jbd_iterate_block_table visits from word `off` on. */
  function Tags(b: Block, off: nat, geo: Geometry): (ts: seq<Tag>)
    decreases |b| - off
  {
    if off + geo.TagWords() > |b| then []
    else
      var t := TagAt(b, off, geo);
      if off + TagSize(t, geo) > |b| then []
      else if t.last then [t]
      else [t] + Tags(b, off + TagSize(t, geo), geo)
  }

  /** One turn of the tag loop. */
  lemma TagsUnfold(b: Block, off: nat, geo: Geometry)
    ensures off + geo.TagWords() > |b| ==> Tags(b, off, geo) == []
    ensures off + geo.TagWords() <= |b| ==>
      var t := TagAt(b, off, geo);
      Tags(b, off, geo) ==
        if off + TagSize(t, geo) > |b| then [] else [t] + (if t.last then [] else Tags(b, off + TagSize(t, geo), geo))
  {
    hide TagAt, TagSize;
  }

  /** jbd_iterate_block_table, collecting the tags it hands to its callback. */
  method IterateTags(b: Block, geo: Geometry) returns (ts: seq<Tag>)
    requires |b| >= HEADER_WORDS
    ensures ts == Tags(b, HEADER_WORDS, geo)
  {
    hide Tags, TagAt;
    ts := [];
    var off: nat := HEADER_WORDS;
    var stop := false;
    ghost var rest := Tags(b, off, geo);   // what the loop has still to visit
    while !stop && off < |b|
      invariant HEADER_WORDS <= off <= |b|
      invariant Tags(b, HEADER_WORDS, geo) == ts + rest
      invariant rest == if stop then [] else Tags(b, off, geo)
      decreases |b| - off, !stop
    {
      TagsUnfold(b, off, geo);
      if off + geo.TagWords() > |b| {
        stop, rest := true, [];
      } else {
        var t := TagAt(b, off, geo);
        if off + TagSize(t, geo) > |b| {
          stop, rest := true, [];
        } else {
          rest := if t.last then [] else Tags(b, off + TagSize(t, geo), geo);
          assert ts + ([t] + rest) == (ts + [t]) + rest;
          ts := ts + [t];
          if t.last {
            stop := true;
          } else {
            off := off + TagSize(t, geo);
          }
        }
      }
    }
    TagsUnfold(b, off, geo);
  }

  /** Tags lie one after the other in words [off, end), none of them the last one. */
  ghost predicate Laid(b: Block, off: nat, end: nat, ts: seq<Tag>, geo: Geometry)
    decreases |ts|
  {
    if ts == [] then off == end
    else
      && off + geo.TagWords() <= |b|
      && TagAt(b, off, geo) == ts[0]
      && !ts[0].last
      && off + TagSize(ts[0], geo) <= |b|
      && Laid(b, off + TagSize(ts[0], geo), end, ts[1..], geo)
  }

  lemma {:induction false} LaidWithin(b: Block, off: nat, end: nat, ts: seq<Tag>, geo: Geometry)
    requires Laid(b, off, end, ts, geo)
    ensures off <= end && (ts != [] ==> end <= |b|)
    decreases |ts|
  {
    if ts != [] {
      LaidWithin(b, off + TagSize(ts[0], geo), end, ts[1..], geo);
    }
  }

  lemma {:induction false} LaidFrame(b: Block, c: Block, off: nat, end: nat, ts: seq<Tag>, geo: Geometry)
    requires Laid(b, off, end, ts, geo)
    requires |b| == |c|
    requires forall k :: off <= k < end && k < |b| ==> c[k] == b[k]
    ensures Laid(c, off, end, ts, geo)
    decreases |ts|
  {
    if ts != [] {
      LaidWithin(b, off + TagSize(ts[0], geo), end, ts[1..], geo);
      LaidFrame(b, c, off + TagSize(ts[0], geo), end, ts[1..], geo);
    }
  }

  lemma {:induction false} LaidSnoc(b: Block, off: nat, mid: nat, ts: seq<Tag>, t: Tag, geo: Geometry)
    requires Laid(b, off, mid, ts, geo)
    requires mid + TagSize(t, geo) <= |b| && TagAt(b, mid, geo) == t && !t.last
    ensures Laid(b, off, mid + TagSize(t, geo), ts + [t], geo)
    decreases |ts|
  {
    if ts == [] {
      assert (ts + [t])[1..] == [];
    } else {
      LaidSnoc(b, off + TagSize(ts[0], geo), mid, ts[1..], t, geo);
      assert (ts + [t])[1..] == ts[1..] + [t];
    }
  }

  lemma {:induction false} LaidTags(b: Block, off: nat, end: nat, ts: seq<Tag>, geo: Geometry)
    requires Laid(b, off, end, ts, geo)
    ensures Tags(b, off, geo) == ts + Tags(b, end, geo)
    decreases |ts|
  {
    if ts != [] {
      LaidTags(b, off + TagSize(ts[0], geo), end, ts[1..], geo);
      assert ts == [ts[0]] + ts[1..];
    }
  }

  /** jbd_write_block_tag: false when the tag does not fit in the rest of the descriptor. Three words are cleared
      for a tag whatever its size; `over` says that the last of them is the one behind the block. */
  method WriteTag(b: Block, off: nat, lba: nat, withUuid: bool, uuid: Block, last: bool, escape: bool,
                  geo: Geometry)
    returns (ok: bool, c: Block, size: nat, over: bool)
    requires |uuid| == UUID_WORDS && geo.Fits(lba) && HEADER_WORDS <= off
    ensures size == TagSize(Tag(lba, escape, !withUuid, last), geo)
    ensures ok <==> off + size <= |b|
    ensures |c| == |b| && (off + geo.TagWords() > |b| ==> c == b)
    ensures ok ==> TagAt(c, off, geo) == Tag(lba, escape, !withUuid, last)
    ensures ok ==> TagNumbers(c, off, lba, escape, withUuid, last, uuid, geo)
    ensures forall k :: 0 <= k < |b| && (k < off || (off + size <= k && off + 3 <= k)) ==> c[k] == b[k]
    ensures off + size < off + 3 <= |b| ==> c[off + 2] == 0
    ensures over <==> !geo.wide && off + 2 == |b|
  {
    c, over := b, false;
    size := geo.TagWords() + (if withUuid then UUID_WORDS else 0);
    if off + geo.TagWords() > |b| {
      ok := false;
      return;
    }
    c := c[off := 0][off + 1 := 0];
    if off + 2 < |b| { c := c[off + 2 := 0]; } else { over := true; }
    c := c[off := lba % WORD];
    if geo.wide { c := c[off + 2 := lba / WORD]; }
    var flags := 0;
    if withUuid {
      var at := off + geo.TagWords();
      if at + UUID_WORDS > |b| {
        ok := false;
        return;
      }
      c := c[at := uuid[0]][at + 1 := uuid[1]][at + 2 := uuid[2]][at + 3 := uuid[3]];
    } else {
      flags := flags + FLAG_SAME_UUID;
    }
    if last { flags := flags + FLAG_LAST_TAG; }
    if escape { flags := flags + FLAG_ESCAPE; }
    c := c[off + 1 := flags];
    ok := true;
  }

  // --------------------------------------------------------------- escaping

  /** The copy of a block that goes to the log: a leading magic number is cleared. */
  function Escaped(data: Block): (b: Block)
    ensures |b| == |data| && !IsHeader(b)
  {
    if |data| > 0 && data[0] == MAGIC then data[0 := 0] else data
  }

  function Unescape(b: Block, escape: bool): (data: Block)
    ensures |data| == |b|
  {
    if escape && |b| > 0 then b[0 := MAGIC] else b
  }

  /** Replay restores every block; the paths that copy a log block without un-escaping it
      (checkpoint and rollback) do so exactly when the block does not begin with the magic. */
  lemma EscapeRoundTrip(data: Block)
    requires |data| > 0
    ensures Unescape(Escaped(data), data[0] == MAGIC) == data
    ensures Escaped(data) == data <==> data[0] != MAGIC
  {
    if data[0] == MAGIC {
      assert Escaped(data)[0] != data[0];
    }
  }

  // ------------------------------------------------------- transaction images

  predicate TagMatches(t: Tag, b: Block, w: Write) {
    t.block == w.lba && !IsHeader(b) && Unescape(b, t.escape) == w.data
  }

  predicate RevokeShape(b: Block, geo: Geometry) {
    |b| >= REVOKE_HEADER_WORDS && 4 * REVOKE_HEADER_WORDS <= b[3] <= 4 * |b|
  }

  function RevokeCount(b: Block, geo: Geometry): nat
    requires RevokeShape(b, geo)
  {
    (b[3] - 4 * REVOKE_HEADER_WORDS) / (4 * geo.RecordWords())
  }

  function RecordAt(b: Block, i: nat, geo: Geometry): nat
    requires REVOKE_HEADER_WORDS + (i + 1) * geo.RecordWords() <= |b|
  {
    if geo.wide then b[4 + 2 * i] * WORD + b[5 + 2 * i] else b[4 + i]
  }

  /** The block numbers listed in a revoke block, as jbd_build_revoke_tree reads them. */
  function Revokes(b: Block, geo: Geometry): (rs: seq<nat>)
    requires RevokeShape(b, geo)
    ensures |rs| == RevokeCount(b, geo)
  {
    seq(RevokeCount(b, geo), i requires 0 <= i < RevokeCount(b, geo) => RecordAt(b, i, geo))
  }

  /** Blocks `img` are complete descriptor groups and revoke blocks of transaction `id`, in log
      order, that log the writes `ws` and the revokes `rs`. */
  ghost predicate Body(img: seq<Block>, id: nat, ws: seq<Write>, rs: seq<nat>, geo: Geometry)
    decreases |img|
  {
    if img == [] then ws == [] && rs == []
    else if HeaderOf(img[0], id, DESCRIPTOR_BLOCK) then
      var k := |Tags(img[0], HEADER_WORDS, geo)|;
      && k + 1 <= |img| && k <= |ws|
      && (forall i :: 0 <= i < k ==> TagMatches(Tags(img[0], HEADER_WORDS, geo)[i], img[1 + i], ws[i]))
      && Body(img[k + 1..], id, ws[k..], rs, geo)
    else if HeaderOf(img[0], id, REVOKE_BLOCK) then
      && RevokeShape(img[0], geo)
      && Revokes(img[0], geo) <= rs
      && Body(img[1..], id, ws, rs[RevokeCount(img[0], geo)..], geo)
    else
      false
  }

  /** The whole log image of a committed transaction. */
  ghost predicate ImageOf(img: seq<Block>, id: nat, t: Trans, geo: Geometry) {
    && img != []
    && HeaderOf(img[|img| - 1], id, COMMIT_BLOCK)
    && Body(img[..|img| - 1], id, t.writes, t.revokes, geo)
  }

  lemma EmptyBody(id: nat, geo: Geometry)
    ensures Body([], id, [], [], geo)
  {
  }

  /** A descriptor group in front of a body. */
  lemma BodyDescriptor(img: seq<Block>, rest: seq<Block>, id: nat, ws: seq<Write>, ws': seq<Write>,
                       rs: seq<nat>, geo: Geometry)
    requires img != [] && HeaderOf(img[0], id, DESCRIPTOR_BLOCK)
    requires var k := |Tags(img[0], HEADER_WORDS, geo)|;
      && k + 1 <= |img| && k <= |ws| && rest == img[k + 1..] && ws' == ws[k..]
      && forall i :: 0 <= i < k ==> TagMatches(Tags(img[0], HEADER_WORDS, geo)[i], img[1 + i], ws[i])
    requires Body(rest, id, ws', rs, geo)
    ensures Body(img, id, ws, rs, geo)
  {
  }

  /** A revoke block in front of a body. */
  lemma BodyRevoke(img: seq<Block>, rest: seq<Block>, id: nat, ws: seq<Write>, rs: seq<nat>, rs': seq<nat>,
                   geo: Geometry)
    requires img != [] && HeaderOf(img[0], id, REVOKE_BLOCK) && RevokeShape(img[0], geo)
    requires Revokes(img[0], geo) <= rs && rest == img[1..] && rs' == rs[RevokeCount(img[0], geo)..]
    requires Body(rest, id, ws, rs', geo)
    ensures Body(img, id, ws, rs, geo)
  {
  }

  lemma {:induction false} BodyAppend(a: seq<Block>, b: seq<Block>, id: nat, ws: seq<Write>, rs: seq<nat>,
                                      ws': seq<Write>, rs': seq<nat>, geo: Geometry)
    requires Body(a, id, ws, rs, geo) && Body(b, id, ws', rs', geo)
    ensures Body(a + b, id, ws + ws', rs + rs', geo)
    decreases |a|
  {
    hide Tags, TagMatches, RevokeCount, Revokes, RevokeShape;
    if a == [] {
      assert a + b == b && ws + ws' == ws' && rs + rs' == rs';
    } else if HeaderOf(a[0], id, DESCRIPTOR_BLOCK) {
      var k := |Tags(a[0], HEADER_WORDS, geo)|;
      BodyAppend(a[k + 1..], b, id, ws[k..], rs, ws', rs', geo);
      AppendDescriptor(a, b, id, ws, rs + rs', ws', geo);
    } else {
      var n := RevokeCount(a[0], geo);
      BodyAppend(a[1..], b, id, ws, rs[n..], ws', rs', geo);
      DropAppend(a, b, 1);
      DropAppend(rs, rs', n);
      BodyRevoke(a + b, a[1..] + b, id, ws + ws', rs + rs', rs[n..] + rs', geo);
    }
  }

  lemma DropAppend<T>(a: seq<T>, b: seq<T>, k: nat)
    requires k <= |a|
    ensures (a + b)[k..] == a[k..] + b
  {
  }

  lemma AppendDescriptor(a: seq<Block>, b: seq<Block>, id: nat, ws: seq<Write>, rs: seq<nat>, ws': seq<Write>,
                         geo: Geometry)
    requires a != [] && HeaderOf(a[0], id, DESCRIPTOR_BLOCK)
    requires var k := |Tags(a[0], HEADER_WORDS, geo)|;
      && k + 1 <= |a| && k <= |ws|
      && (forall i :: 0 <= i < k ==> TagMatches(Tags(a[0], HEADER_WORDS, geo)[i], a[1 + i], ws[i]))
      && Body(a[k + 1..] + b, id, ws[k..] + ws', rs, geo)
    ensures Body(a + b, id, ws + ws', rs, geo)
  {
    hide Tags, TagMatches, Body;
    var k := |Tags(a[0], HEADER_WORDS, geo)|;
    DropAppend(a, b, k + 1);
    DropAppend(ws, ws', k);
    forall i | 0 <= i < k
      ensures TagMatches(Tags(a[0], HEADER_WORDS, geo)[i], (a + b)[1 + i], (ws + ws')[i])
    {
      assert (a + b)[1 + i] == a[1 + i] && (ws + ws')[i] == ws[i];
    }
    BodyDescriptor(a + b, a[k + 1..] + b, id, ws + ws', ws[k..] + ws', rs, geo);
  }

  /** No block of an image carries a header of another transaction, so no logged data block can
      be taken for a header. */
  lemma {:induction false} BodyHeaders(img: seq<Block>, id: nat, ws: seq<Write>, rs: seq<nat>, geo: Geometry)
    requires Body(img, id, ws, rs, geo)
    ensures forall i :: 0 <= i < |img| && IsHeader(img[i]) ==> img[i][2] == id
    ensures forall i :: 0 <= i < |img| && IsHeader(img[i]) ==> img[i][1] in {DESCRIPTOR_BLOCK, REVOKE_BLOCK}
    decreases |img|
  {
    if img != [] {
      if HeaderOf(img[0], id, DESCRIPTOR_BLOCK) {
        var k := |Tags(img[0], HEADER_WORDS, geo)|;
        BodyHeaders(img[k + 1..], id, ws[k..], rs, geo);
        forall i | 0 <= i < |img|
          ensures IsHeader(img[i]) ==> img[i][2] == id && img[i][1] in {DESCRIPTOR_BLOCK, REVOKE_BLOCK}
        {
          if 1 <= i <= k {
            assert TagMatches(Tags(img[0], HEADER_WORDS, geo)[i - 1], img[1 + (i - 1)], ws[i - 1]);
          } else if i > k {
            assert img[k + 1..][i - k - 1] == img[i];
          }
        }
      } else {
        BodyHeaders(img[1..], id, ws, rs[RevokeCount(img[0], geo)..], geo);
        forall i | 0 <= i < |img| && IsHeader(img[i])
          ensures img[i][2] == id && img[i][1] != COMMIT_BLOCK
        {
          if i > 0 { assert img[1..][i - 1] == img[i]; }
        }
      }
    }
  }

  // ------------------------------------------------------------ log encoding

  function DirtyWrites(queue: seq<JournalBuf>): (ws: seq<Write>)
    ensures |ws| <= |queue|
  {
    if queue == [] then []
    else (if queue[0].dirty then [Write(queue[0].lba, queue[0].data)] else []) + DirtyWrites(queue[1..])
  }

  lemma {:induction false} DirtyWritesAppend(a: seq<JournalBuf>, b: seq<JournalBuf>)
    ensures DirtyWrites(a + b) == DirtyWrites(a) + DirtyWrites(b)
  {
    if a == [] {
      assert a + b == b;
    } else {
      var head := if a[0].dirty then [Write(a[0].lba, a[0].data)] else [];
      calc {
        DirtyWrites(a + b);
        { assert (a + b)[0] == a[0] && (a + b)[1..] == a[1..] + b; }
        head + DirtyWrites(a[1..] + b);
        { DirtyWritesAppend(a[1..], b); }
        head + (DirtyWrites(a[1..]) + DirtyWrites(b));
        (head + DirtyWrites(a[1..])) + DirtyWrites(b);
      }
    }
  }

  predicate QueueFits(queue: seq<JournalBuf>, geo: Geometry) {
    forall i :: 0 <= i < |queue| ==> geo.Fits(queue[i].lba) && (queue[i].dirty ==> |queue[i].data| == geo.words)
  }

  lemma DirtyWritesSnoc(q: seq<JournalBuf>, j: nat)
    requires j < |q|
    ensures DirtyWrites(q[..j + 1]) ==
            DirtyWrites(q[..j]) + (if q[j].dirty then [Write(q[j].lba, q[j].data)] else [])
  {
    DirtyWritesAppend(q[..j], [q[j]]);
    assert q[..j + 1] == q[..j] + [q[j]];
    assert DirtyWrites([q[j]]) == if q[j].dirty then [Write(q[j].lba, q[j].data)] else [];
  }

  /** The first loop of jbd_journal_prepare: clean buffers leave the tail of the queue. */
  method TrimClean(queue: seq<JournalBuf>) returns (q: seq<JournalBuf>)
    ensures q <= queue && DirtyWrites(queue) == DirtyWrites(q)
    ensures q != [] ==> q[|q| - 1].dirty
  {
    q := queue;
    while q != [] && !q[|q| - 1].dirty
      invariant q <= queue && DirtyWrites(queue) == DirtyWrites(q)
    {
      DirtyWritesSnoc(q, |q| - 1);
      assert q[..|q| - 1 + 1] == q;
      q := q[..|q| - 1];
    }
  }

  /** How many tags a descriptor holds; the first has the UUID behind it. */
  function TagsPer(geo: Geometry): (n: nat)
    requires geo.Valid()
    ensures n >= 1
  {
    1 + (geo.words - HEADER_WORDS - geo.TagWords() - UUID_WORDS) / geo.TagWords()
  }

  /** How many records a revoke block holds. */
  function RecordsPer(geo: Geometry): (n: nat)
    requires geo.Valid()
    ensures n >= 1
  {
    (geo.words - REVOKE_HEADER_WORDS) / geo.RecordWords()
  }

  /** Blocks for n things of which k go into one. */
  function Pieces(n: nat, k: nat): nat
    requires k > 0
  {
    if n <= k then if n == 0 then 0 else 1 else 1 + Pieces(n - k, k)
  }

  /** The log blocks of a transaction with so many dirty buffers and revoke records. */
  function ImageLength(writes: nat, revokes: nat, geo: Geometry): nat
    requires geo.Valid()
  {
    if writes == 0 && revokes == 0 then 0
    else writes + Pieces(writes, TagsPer(geo)) + Pieces(revokes, RecordsPer(geo)) + 1
  }

  /** Full pieces first, then one that is not empty. */
  lemma {:induction false} PiecesAre(m: nat, r: nat, k: nat)
    requires 0 < r <= k
    ensures Pieces(m * k + r, k) == m + 1
    decreases m
  {
    if m > 0 {
      assert m * k + r == (m - 1) * k + r + k && (m - 1) * k >= 0;
      PiecesAre(m - 1, r, k);
    }
  }

  /** The sizes of an image of m full descriptor groups and an open one with so many tags. */
  ghost predicate Sized(m: nat, closed: nat, kept: nat, group: nat, tags: nat, off: nat, geo: Geometry)
    requires geo.Valid()
  {
    && kept == m * TagsPer(geo) && closed == kept + m
    && (if group == 0 then tags == 0
        else
          && group == 1 + tags && 0 < tags <= TagsPer(geo)
          && off == HEADER_WORDS + UUID_WORDS + tags * geo.TagWords())
  }

  /** A further tag fits exactly if the descriptor does not hold all it can. */
  lemma TagFits(m: nat, closed: nat, kept: nat, group: nat, tags: nat, off: nat, geo: Geometry)
    requires geo.Valid() && Sized(m, closed, kept, group, tags, off, geo) && group > 0
    ensures off + geo.TagWords() <= geo.words <==> tags < TagsPer(geo)
    ensures off + geo.TagWords() <= geo.words ==> Sized(m, closed, kept, group + 1, tags + 1, off + geo.TagWords(), geo)
    ensures tags == TagsPer(geo) ==> Sized(m + 1, closed + group, kept + tags, 0, 0, 0, geo)
  {
    var w, room := geo.TagWords(), geo.words - HEADER_WORDS - geo.TagWords() - UUID_WORDS;
    assert TagsPer(geo) == 1 + room / w;
    if geo.wide { assert off == 7 + tags * 3; } else { assert off == 7 + tags * 2; }
  }

  lemma GroupIsFull(m: nat, closed: nat, kept: nat, group: nat, tags: nat, off: nat, geo: Geometry)
    requires geo.Valid() && Sized(m, closed, kept, group, tags, off, geo) && group > 0
    requires off + geo.TagWords() > geo.words
    ensures Sized(m + 1, closed + group, kept + tags, 0, 0, 0, geo)
  {
    TagFits(m, closed, kept, group, tags, off, geo);
  }

  /** The first tag of a descriptor. */
  lemma FirstTag(m: nat, closed: nat, kept: nat, off: nat, geo: Geometry)
    requires geo.Valid() && Sized(m, closed, kept, 0, 0, off, geo)
    ensures Sized(m, closed, kept, 2, 1, HEADER_WORDS + geo.TagWords() + UUID_WORDS, geo)
    ensures HEADER_WORDS + geo.TagWords() + UUID_WORDS <= geo.words
  {
  }

  /** The descriptor being filled: its tags so far match the data blocks that follow it. */
  ghost predicate OpenGroup(group: seq<Block>, id: nat, off: nat, ts: seq<Tag>, ws: seq<Write>, geo: Geometry) {
    && |group| == 1 + |ws| && |ts| == |ws|
    && HeaderOf(group[0], id, DESCRIPTOR_BLOCK) && |group[0]| == geo.words
    && HEADER_WORDS <= off <= geo.words
    && Laid(group[0], HEADER_WORDS, off, ts, geo)
    && (forall i :: 0 <= i < |ws| ==> TagMatches(ts[i], group[1 + i], ws[i]))
  }

  lemma OpenGroupShape(group: seq<Block>, id: nat, off: nat, ts: seq<Tag>, ws: seq<Write>, geo: Geometry)
    requires OpenGroup(group, id, off, ts, ws, geo)
    ensures |group| == 1 + |ws| && |group[0]| == geo.words && HEADER_WORDS <= off <= geo.words
  {
  }

  lemma FreshGroup(scratch: Block, id: nat, geo: Geometry)
    requires |scratch| == geo.words >= HEADER_WORDS
    ensures OpenGroup([PutHeader(scratch, DESCRIPTOR_BLOCK, id)], id, HEADER_WORDS, [], [], geo)
  {
  }

  /** A descriptor closes when its tags, read back, are the ones written. */
  lemma GroupCloses(group: seq<Block>, id: nat, ts: seq<Tag>, ws: seq<Write>, geo: Geometry)
    requires |group| == 1 + |ws| && |ts| == |ws|
    requires HeaderOf(group[0], id, DESCRIPTOR_BLOCK)
    requires Tags(group[0], HEADER_WORDS, geo) == ts
    requires forall i :: 0 <= i < |ws| ==> TagMatches(ts[i], group[1 + i], ws[i])
    ensures Body(group, id, ws, [], geo)
  {
    assert group[|ts| + 1..] == [] && ws[|ts|..] == [];
    assert Body([], id, [], [], geo);
  }

  lemma FullGroupCloses(group: seq<Block>, id: nat, off: nat, ts: seq<Tag>, ws: seq<Write>, geo: Geometry)
    requires OpenGroup(group, id, off, ts, ws, geo)
    requires off + geo.TagWords() > geo.words
    ensures Body(group, id, ws, [], geo)
  {
    LaidTags(group[0], HEADER_WORDS, off, ts, geo);
    assert Tags(group[0], off, geo) == [];
    assert ts + [] == ts;
    GroupCloses(group, id, ts, ws, geo);
  }

  /** Adding one tag and one data block to the open descriptor. */
  lemma GroupGrows(group: seq<Block>, id: nat, off: nat, ts: seq<Tag>, ws: seq<Write>,
                   desc: Block, t: Tag, w: Write, geo: Geometry)
    requires OpenGroup(group, id, off, ts, ws, geo)
    requires |desc| == geo.words && off + TagSize(t, geo) <= geo.words && TagAt(desc, off, geo) == t
    requires forall k :: 0 <= k < off ==> desc[k] == group[0][k]
    requires |w.data| > 0 && t.block == w.lba && t.escape == (w.data[0] == MAGIC)
    ensures !t.last ==>
      OpenGroup([desc] + group[1..] + [Escaped(w.data)], id, off + TagSize(t, geo), ts + [t], ws + [w], geo)
    ensures t.last ==> Body([desc] + group[1..] + [Escaped(w.data)], id, ws + [w], [], geo)
  {
    var g := [desc] + group[1..] + [Escaped(w.data)];
    EscapeRoundTrip(w.data);
    LaidFrame(group[0], desc, HEADER_WORDS, off, ts, geo);
    forall i | 0 <= i < |ws + [w]|
      ensures TagMatches((ts + [t])[i], g[1 + i], (ws + [w])[i])
    {
      if i < |ws| { assert g[1 + i] == group[1 + i]; }
    }
    if t.last {
      LaidTags(desc, HEADER_WORDS, off, ts, geo);
      assert Tags(desc, off, geo) == [t];
      GroupCloses(g, id, ts + [t], ws + [w], geo);
    } else {
      LaidSnoc(desc, HEADER_WORDS, off, ts, t, geo);
    }
  }

  /** Closes the full descriptor at the end of an image. */
  lemma FlushFull(closed: seq<Block>, group: seq<Block>, id: nat, off: nat, ts: seq<Tag>,
                  kept: seq<Write>, ws: seq<Write>, geo: Geometry)
    requires Body(closed, id, kept, [], geo)
    requires OpenGroup(group, id, off, ts, ws, geo) && off + geo.TagWords() > geo.words
    ensures Body(closed + group, id, kept + ws, [], geo)
  {
    hide Body, OpenGroup;
    FullGroupCloses(group, id, off, ts, ws, geo);
    BodyAppend(closed, group, id, kept, [], ws, [], geo);
    var none: seq<nat> := [];
    assert none + none == none;
  }

  // ------------------------------------------------ the encoder, in numbers

  lemma FreshGroupWords(scratch: Block, id: nat, uuid: Block, geo: Geometry)
    requires |scratch| == geo.words >= HEADER_WORDS
    ensures GroupInWords([PutHeader(scratch, DESCRIPTOR_BLOCK, id)], id, [], false, uuid, geo)
  {
  }

  /** A tag written behind the others leaves them as they are. */
  lemma TagsStay(b: Block, c: Block, i: nat, n: nat, w: Write, uuid: Block, geo: Geometry)
    requires i < n && |b| == |c| && TagInWords(b, i, w, false, uuid, geo)
    requires forall k :: 0 <= k < TagWord(n, geo) && k < |b| ==> c[k] == b[k]
    ensures TagInWords(c, i, w, false, uuid, geo)
  {
    var at, size := TagWord(i, geo), if geo.wide then 3 else 2;
    assert at + size + (if i == 0 then 4 else 0) <= TagWord(n, geo) by {
      if geo.wide { assert i * 3 + 3 <= n * 3; } else { assert i * 2 + 2 <= n * 2; }
    }
    if i == 0 {
      assert c[at + size..at + size + 4] == b[at + size..at + size + 4];
    }
  }

  lemma GroupWordsGrow(group: seq<Block>, id: nat, ws: seq<Write>, desc: Block, w: Write, last: bool, uuid: Block,
                       geo: Geometry)
    requires GroupInWords(group, id, ws, false, uuid, geo)
    requires |desc| == geo.words && TagInWords(desc, |ws|, w, last, uuid, geo)
    requires forall k :: 0 <= k < TagWord(|ws|, geo) && k < geo.words ==> desc[k] == group[0][k]
    ensures GroupInWords([desc] + group[1..] + [Escaped(w.data)], id, ws + [w], last, uuid, geo)
  {
    hide TagInWords;
    var g, all := [desc] + group[1..] + [Escaped(w.data)], ws + [w];
    forall i: nat | i < |all|
      ensures TagInWords(desc, i, all[i], last && i == |all| - 1, uuid, geo)
      ensures g[1 + i] ==
              if all[i].data != [] && all[i].data[0] == 0xc03b3998 then all[i].data[0 := 0] else all[i].data
    {
      if i < |ws| {
        TagsStay(group[0], desc, i, |ws|, ws[i], uuid, geo);
        assert g[1 + i] == group[1 + i];
      }
    }
  }

  lemma OneGroup(group: seq<Block>, id: nat, ws: seq<Write>, last: bool, uuid: Block, geo: Geometry)
    requires geo.Valid() && GroupInWords(group, id, ws, last, uuid, geo) && 0 < |ws| <= TagsPer(geo)
    ensures DataInWords(group, id, ws, last, uuid, geo)
  {
    hide GroupInWords;
    TagsPerIs(geo);
    assert group[..|ws| + 1] == group && ws[..|ws|] == ws by { GroupLength(group, id, ws, last, uuid, geo); }
    assert group[|ws| + 1..] == [] && ws[|ws|..] == [];
  }

  lemma GroupLength(group: seq<Block>, id: nat, ws: seq<Write>, last: bool, uuid: Block, geo: Geometry)
    requires GroupInWords(group, id, ws, last, uuid, geo)
    ensures |group| == |ws| + 1 && |group[0]| == geo.words
  {
  }

  lemma TagsPerIs(geo: Geometry)
    requires geo.Valid()
    ensures TagsPer(geo) == (geo.words - 7) / (if geo.wide then 3 else 2)
  {
  }

  lemma FirstGroup(img: seq<Block>, id: nat, ws: seq<Write>, last: bool, uuid: Block, geo: Geometry)
    requires geo.Valid() && ws != []
    ensures DataInWords(img, id, ws, last, uuid, geo) <==>
      var n := Least(TagsPer(geo), |ws|);
      && n < |img|
      && GroupInWords(img[..n + 1], id, ws[..n], last && n == |ws|, uuid, geo)
      && DataInWords(img[n + 1..], id, ws[n..], last, uuid, geo)
  {
    hide GroupInWords, TagsPer, Least;
    TagsPerIs(geo);
    var n := Least((geo.words - 7) / (if geo.wide then 3 else 2), |ws|);
    assert n == Least(TagsPer(geo), |ws|);
    LeastIs(TagsPer(geo), |ws|);
  }

  lemma LeastIs(a: nat, b: nat)
    requires a > 0
    ensures Least(a, b) <= b && (b > 0 ==> 0 < Least(a, b))
  {
  }

  /** Further groups behind full ones. */
  lemma {:induction false} GroupsBehind(m: nat, a: seq<Block>, b: seq<Block>, id: nat, ws: seq<Write>,
                                        ws': seq<Write>, last: bool, uuid: Block, geo: Geometry)
    requires geo.Valid() && |ws| == m * TagsPer(geo)
    requires DataInWords(a, id, ws, false, uuid, geo) && DataInWords(b, id, ws', last, uuid, geo)
    requires ws' != [] || ws == []
    ensures DataInWords(a + b, id, ws + ws', last, uuid, geo)
    decreases m
  {
    hide GroupInWords, TagsPer, DataInWords;
    if m == 0 {
      assert a + b == b && ws + ws' == ws' by { NoGroup(a, id, false, uuid, geo); }
    } else {
      var n := TagsPer(geo);
      assert n <= |ws| && |ws[n..]| == (m - 1) * n by { OneMorePiece(m - 1, n); assert (m - 1) * n >= 0; }
      FirstGroup(a, id, ws, false, uuid, geo);
      GroupsBehind(m - 1, a[n + 1..], b, id, ws[n..], ws', last, uuid, geo);
      DropAppend(a, b, n + 1);
      DropAppend(ws, ws', n);
      assert (a + b)[..n + 1] == a[..n + 1] && (ws + ws')[..n] == ws[..n];
      FirstGroup(a + b, id, ws + ws', last, uuid, geo);
    }
  }

  lemma NoGroup(img: seq<Block>, id: nat, last: bool, uuid: Block, geo: Geometry)
    ensures DataInWords(img, id, [], last, uuid, geo) <==> img == []
  {
  }

  /** What the encoder has written so far: full groups, and one that is being filled. */
  ghost predicate Emitted(closed: seq<Block>, group: seq<Block>, id: nat, kept: seq<Write>, ws: seq<Write>, last: bool,
                          uuid: Block, geo: Geometry) {
    && DataInWords(closed, id, kept, false, uuid, geo)
    && (group != [] ==> GroupInWords(group, id, ws, last, uuid, geo))
  }

  lemma EmittedFull(m: nat, closed: seq<Block>, group: seq<Block>, id: nat, kept: seq<Write>, ws: seq<Write>,
                    last: bool, off: nat, uuid: Block, geo: Geometry)
    requires geo.Valid() && Emitted(closed, group, id, kept, ws, last, uuid, geo)
    requires Sized(m, |closed|, |kept|, |group|, |ws|, off, geo) && group != []
    ensures DataInWords(closed + group, id, kept + ws, last, uuid, geo)
  {
    hide GroupInWords, TagsPer, DataInWords;
    OneGroup(group, id, ws, last, uuid, geo);
    GroupsBehind(m, closed, group, id, kept, ws, last, uuid, geo);
  }

  lemma EmittedNew(closed: seq<Block>, scratch: Block, id: nat, kept: seq<Write>, uuid: Block, geo: Geometry)
    requires geo.Valid() && |scratch| == geo.words && DataInWords(closed, id, kept, false, uuid, geo)
    ensures Emitted(closed, [PutHeader(scratch, DESCRIPTOR_BLOCK, id)], id, kept, [], false, uuid, geo)
    ensures TagWord(0, geo) == HEADER_WORDS
  {
    hide DataInWords;
  }

  lemma EmittedTag(closed: seq<Block>, group: seq<Block>, id: nat, kept: seq<Write>, ws: seq<Write>, desc: Block,
                   w: Write, last: bool, uuid: Block, geo: Geometry)
    requires group != [] && Emitted(closed, group, id, kept, ws, false, uuid, geo)
    requires |desc| == geo.words && TagInWords(desc, |ws|, w, last, uuid, geo)
    requires forall k :: 0 <= k < TagWord(|ws|, geo) && k < geo.words && k < |group[0]| ==> desc[k] == group[0][k]
    ensures Emitted(closed, [desc] + group[1..] + [Escaped(w.data)], id, kept, ws + [w], last, uuid, geo)
  {
    hide DataInWords, TagInWords, GroupInWords;
    GroupLength(group, id, ws, false, uuid, geo);
    GroupWordsGrow(group, id, ws, desc, w, last, uuid, geo);
  }

  lemma TagWordIs(m: nat, closed: nat, kept: nat, group: nat, tags: nat, off: nat, geo: Geometry)
    requires geo.Valid() && Sized(m, closed, kept, group, tags, off, geo) && group > 0
    ensures tags > 0 && off == TagWord(tags, geo)
  {
  }

  lemma EmittedNone(closed: seq<Block>, group: seq<Block>, id: nat, kept: seq<Write>, ws: seq<Write>, uuid: Block,
                    geo: Geometry)
    requires Emitted(closed, group, id, kept, ws, false, uuid, geo)
    ensures DataInWords(closed, id, kept, false, uuid, geo)
  {
  }

  lemma TagEmitted(b: Block, i: nat, off: nat, w: Write, withUuid: bool, last: bool, uuid: Block, geo: Geometry)
    requires |w.data| > 0 && withUuid == (i == 0) && off == TagWord(i, geo)
    requires TagNumbers(b, off, w.lba, w.data[0] == MAGIC, withUuid, last, uuid, geo)
    ensures TagInWords(b, i, w, last, uuid, geo)
  {
  }

  lemma FirstTagWord(geo: Geometry)
    ensures TagWord(0, geo) == HEADER_WORDS
  {
  }

  /** The tag of a write is in the descriptor and its block behind the others. */
  lemma TagLogged(closed: seq<Block>, group: seq<Block>, off: nat, id: nat, kept: seq<Write>, ws: seq<Write>,
                  ts: seq<Tag>, desc: Block, t: Tag, w: Write, uuid: Block, geo: Geometry)
    requires group != [] && OpenGroup(group, id, off, ts, ws, geo)
    requires Emitted(closed, group, id, kept, ws, false, uuid, geo)
    requires |desc| == geo.words && off + TagSize(t, geo) <= geo.words && TagAt(desc, off, geo) == t
    requires forall k :: 0 <= k < off && k < |group[0]| ==> desc[k] == group[0][k]
    requires |w.data| > 0 && t.block == w.lba && t.escape == (w.data[0] == MAGIC) && t.sameUuid == (ws != [])
    requires off == TagWord(|ws|, geo)
    requires TagNumbers(desc, off, w.lba, t.escape, !t.sameUuid, t.last, uuid, geo)
    ensures var g := [desc] + group[1..] + [Escaped(w.data)];
      && Emitted(closed, g, id, kept, ws + [w], t.last, uuid, geo)
      && if t.last then Body(g, id, ws + [w], [], geo)
         else OpenGroup(g, id, off + TagSize(t, geo), ts + [t], ws + [w], geo)
  {
    hide Body, OpenGroup, TagAt, Emitted, TagInWords, TagWord, Escaped, TagNumbers, TagSize;
    OpenGroupShape(group, id, off, ts, ws, geo);
    GroupGrows(group, id, off, ts, ws, desc, t, w, geo);
    TagEmitted(desc, |ws|, off, w, !t.sameUuid, t.last, uuid, geo);
    EmittedTag(closed, group, id, kept, ws, desc, w, t.last, uuid, geo);
  }

  /** One step of jbd_journal_prepare: tag a dirty buffer, starting a new descriptor when there is
      none or the current one is full, and log its data. */
  method LogBuffer(closed: seq<Block>, group: seq<Block>, off: nat, buf: JournalBuf, last: bool,
                   id: nat, uuid: Block, scratch: Block, geo: Geometry,
                   ghost kept: seq<Write>, ghost ws: seq<Write>, ghost ts: seq<Tag>, ghost m: nat)
    returns (closed': seq<Block>, group': seq<Block>, off': nat,
             ghost kept': seq<Write>, ghost ws': seq<Write>, ghost ts': seq<Tag>, ghost m': nat)
    requires geo.Valid() && |uuid| == UUID_WORDS && |scratch| == geo.words
    requires geo.Fits(buf.lba) && |buf.data| == geo.words
    requires Body(closed, id, kept, [], geo)
    requires if group == [] then ws == [] else OpenGroup(group, id, off, ts, ws, geo)
    requires Sized(m, |closed|, |kept|, |group|, |ws|, off, geo)
    requires Emitted(closed, group, id, kept, ws, false, uuid, geo)
    ensures Body(closed', id, kept', [], geo)
    ensures Emitted(closed', group', id, kept', ws', last, uuid, geo)
    ensures Sized(m', |closed'|, |kept'|, |group'|, |ws'|, off', geo)
    ensures kept' + ws' == (kept + ws) + [Write(buf.lba, buf.data)]
    ensures group' != []
    ensures if last then Body(group', id, ws', [], geo) else OpenGroup(group', id, off', ts', ws', geo)
  {
    hide Body, OpenGroup, TagAt, HeaderOf, Sized, TagsPer, Emitted, TagInWords, DataInWords, TagWord, Escaped,
         GroupInWords, TagNumbers;
    closed', group', off', kept', ws', ts', m' := closed, group, off, kept, ws, ts, m;
    var escape := buf.data[0] == MAGIC;
    var withUuid := group == [];
    if group == [] {
      FirstTag(m, |closed|, |kept|, off, geo);
      group', off', ts' := [PutHeader(scratch, DESCRIPTOR_BLOCK, id)], HEADER_WORDS, [];
      FreshGroup(scratch, id, geo);
      EmittedNone(closed, group, id, kept, ws, uuid, geo);
      EmittedNew(closed, scratch, id, kept, uuid, geo);
    } else {
      TagWordIs(m, |closed|, |kept|, |group|, |ws|, off, geo);
      TagFits(m, |closed|, |kept|, |group|, |ws|, off, geo);
    }
    OpenGroupShape(group', id, off', ts', ws', geo);
    var ok, desc, size, over := WriteTag(group'[0], off', buf.lba, withUuid, uuid, last, escape, geo);
    if !ok {
      // The descriptor is full: it is flushed and a new one is started.
      FlushFull(closed, group', id, off', ts', kept, ws, geo);
      EmittedFull(m, closed, group', id, kept, ws, false, off, uuid, geo);
      GroupIsFull(m, |closed|, |kept|, |group|, |ws|, off, geo);
      closed', kept', ws', ts', m' := closed + group', kept + ws, [], [], m + 1;
      FirstTag(m', |closed'|, |kept'|, 0, geo);
      group', off' := [PutHeader(scratch, DESCRIPTOR_BLOCK, id)], HEADER_WORDS;
      FreshGroup(scratch, id, geo);
      EmittedNew(closed', scratch, id, kept', uuid, geo);
      withUuid := true;
      ok, desc, size, over := WriteTag(group'[0], off', buf.lba, withUuid, uuid, last, escape, geo);
    }
    ghost var t := Tag(buf.lba, escape, !withUuid, last);
    ghost var w := Write(buf.lba, buf.data);
    TagLogged(closed', group', off', id, kept', ws', ts', desc, t, w, uuid, geo);
    group' := [desc] + group'[1..] + [Escaped(buf.data)];
    off', ws', ts' := off' + size, ws' + [w], ts' + [t];
  }

  lemma NothingSized(geo: Geometry)
    requires geo.Valid()
    ensures Sized(0, 0, 0, 0, 0, 0, geo)
  {
  }

  lemma AllSized(m: nat, closed: nat, kept: nat, group: nat, tags: nat, off: nat, geo: Geometry)
    requires geo.Valid() && Sized(m, closed, kept, group, tags, off, geo) && (group == 0 ==> closed == 0)
    ensures closed + group == kept + tags + Pieces(kept + tags, TagsPer(geo))
  {
    hide TagsPer;
    if group > 0 {
      PiecesAre(m, tags, TagsPer(geo));
    } else {
      assert kept == 0;
    }
  }

  lemma NothingEmitted(id: nat, uuid: Block, geo: Geometry)
    ensures Emitted([], [], id, [], [], false, uuid, geo)
  {
  }

  lemma AllEmitted(m: nat, closed: seq<Block>, group: seq<Block>, id: nat, kept: seq<Write>, ws: seq<Write>,
                   off: nat, uuid: Block, geo: Geometry)
    requires geo.Valid() && Emitted(closed, group, id, kept, ws, group != [], uuid, geo)
    requires Sized(m, |closed|, |kept|, |group|, |ws|, off, geo) && (group == [] ==> closed == [] && kept == [])
    ensures DataInWords(closed + group, id, kept + ws, true, uuid, geo)
  {
    hide DataInWords, GroupInWords, TagsPer;
    if group == [] {
      assert closed + group == [] && kept + ws == [];
      NoGroup([], id, true, uuid, geo);
    } else {
      EmittedFull(m, closed, group, id, kept, ws, true, off, uuid, geo);
    }
  }

  /** jbd_journal_prepare: drops clean buffers, fills descriptors with tags and follows each with
      its data blocks. The image decodes to exactly the dirty buffers, in queue order. */
  method Prepare(queue: seq<JournalBuf>, id: nat, uuid: Block, scratch: Block, geo: Geometry)
    returns (image: seq<Block>)
    requires geo.Valid() && |uuid| == UUID_WORDS && |scratch| == geo.words && QueueFits(queue, geo)
    ensures Body(image, id, DirtyWrites(queue), [], geo)
    ensures image == [] <==> DirtyWrites(queue) == []
    ensures |image| == |DirtyWrites(queue)| + Pieces(|DirtyWrites(queue)|, TagsPer(geo))
    ensures DataInWords(image, id, DirtyWrites(queue), true, uuid, geo)
  {
    hide Body, OpenGroup, Sized, TagsPer, Emitted, DataInWords;
    // Clean buffers at the tail of the queue go first.
    var q := TrimClean(queue);
    EmptyBody(id, geo);
    var dataCnt := |q|;
    var i := 0;                       // tags written
    var j := 0;                       // queue cursor
    var closed: seq<Block> := [];     // image of the finished descriptors
    var group: seq<Block> := [];      // descriptor being filled and its data; [] when there is none
    var off: nat := 0;
    ghost var kept: seq<Write> := [];
    ghost var ws: seq<Write> := [];
    ghost var ts: seq<Tag> := [];
    ghost var m: nat := 0;
    NothingSized(geo);
    NothingEmitted(id, uuid, geo);
    while j < |q|
      invariant 0 <= j <= |q| && dataCnt == i + |q| - j
      invariant Body(closed, id, kept, [], geo)
      invariant DirtyWrites(q[..j]) == kept + ws && i == |kept + ws|
      invariant group == [] ==> ws == [] && closed == [] && kept == []
      invariant group != [] && j < |q| ==> OpenGroup(group, id, off, ts, ws, geo)
      invariant group != [] && j == |q| ==> Body(group, id, ws, [], geo)
      invariant group == [] && j == |q| ==> q == []
      invariant group != [] ==> kept + ws != []
      invariant Sized(m, |closed|, |kept|, |group|, |ws|, off, geo)
      invariant Emitted(closed, group, id, kept, ws, group != [] && j == |q|, uuid, geo)
    {
      var buf := q[j];
      DirtyWritesSnoc(q, j);
      if !buf.dirty {
        dataCnt := dataCnt - 1;
      } else {
        var last := i == dataCnt - 1;
        closed, group, off, kept, ws, ts, m :=
          LogBuffer(closed, group, off, buf, last, id, uuid, scratch, geo, kept, ws, ts, m);
        i := i + 1;
      }
      j := j + 1;
    }
    assert q[..j] == q;
    BodyAppend(closed, group, id, kept, [], ws, [], geo);
    AllSized(m, |closed|, |kept|, |group|, |ws|, off, geo);
    AllEmitted(m, closed, group, id, kept, ws, off, uuid, geo);
    image := closed + group;
  }

  /** A revoke block holding the records `rs`. */
  ghost predicate RevokeFill(b: Block, id: nat, off: nat, rs: seq<nat>, geo: Geometry) {
    && |b| == geo.words && HeaderOf(b, id, REVOKE_BLOCK)
    && off == REVOKE_HEADER_WORDS + |rs| * geo.RecordWords() <= |b|
    && (forall i :: 0 <= i < |rs| ==>
          REVOKE_HEADER_WORDS + (i + 1) * geo.RecordWords() <= |b| && RecordAt(b, i, geo) == rs[i])
  }

  lemma RevokeCloses(b: Block, id: nat, off: nat, rs: seq<nat>, geo: Geometry)
    requires RevokeFill(b, id, off, rs, geo)
    ensures Body([b[3 := 4 * off]], id, [], rs, geo)
  {
    var c := b[3 := 4 * off];
    assert RevokeShape(c, geo) && RevokeCount(c, geo) == |rs|;
    forall i | 0 <= i < |rs|
      ensures RecordAt(c, i, geo) == rs[i]
    {
      assert RecordAt(b, i, geo) == rs[i];
    }
    assert Revokes(c, geo) == rs;
    var img: seq<Block> := [c];
    assert img[1..] == [] && rs[|rs|..] == [];
    assert Body(img[1..], id, [], [], geo);
  }

  lemma RevokeGrows(b: Block, id: nat, off: nat, rs: seq<nat>, c: Block, lba: nat, geo: Geometry)
    requires RevokeFill(b, id, off, rs, geo)
    requires |c| == |b| && off + geo.RecordWords() <= |b|
    requires forall k :: 0 <= k < off ==> c[k] == b[k]
    requires RecordAt(c, |rs|, geo) == lba
    ensures RevokeFill(c, id, off + geo.RecordWords(), rs + [lba], geo)
  {
    forall i | 0 <= i < |rs + [lba]|
      ensures REVOKE_HEADER_WORDS + (i + 1) * geo.RecordWords() <= |c| && RecordAt(c, i, geo) == (rs + [lba])[i]
    {
      if i < |rs| {
        assert RecordAt(b, i, geo) == rs[i];
      }
    }
  }

  lemma RecordsGrow(b: Block, c: Block, rs: seq<nat>, lba: nat, geo: Geometry)
    requires |b| == |c| && RecordsInWords(b, rs, geo)
    requires forall k :: 0 <= k < 4 + |rs| * geo.RecordWords() ==> c[k] == b[k]
    requires 4 + (|rs| + 1) * geo.RecordWords() <= |c| && geo.Fits(lba)
    requires var k := 4 + |rs| * geo.RecordWords();
      if geo.wide then c[k] == lba / 0x1_0000_0000 && c[k + 1] == lba % 0x1_0000_0000
      else c[k] == lba % 0x1_0000_0000
    ensures RecordsInWords(c, rs + [lba], geo)
  {
    forall i: nat | i < |rs + [lba]|
      ensures var all := rs + [lba];
        if geo.wide then c[4 + 2 * i] == all[i] / 0x1_0000_0000 < 0x1_0000_0000
                         && c[5 + 2 * i] == all[i] % 0x1_0000_0000
        else c[4 + i] == all[i] % 0x1_0000_0000
    {
      if i < |rs| {
        assert if geo.wide then c[4 + 2 * i] == b[4 + 2 * i] && c[5 + 2 * i] == b[5 + 2 * i] else c[4 + i] == b[4 + i];
      }
    }
  }

  /** A revoke block in numbers, once the bytes in use are noted. */
  lemma RevokeEmitted(b: Block, id: nat, off: nat, rs: seq<nat>, geo: Geometry)
    requires RevokeFill(b, id, off, rs, geo) && RecordsInWords(b, rs, geo)
    ensures |b| > 3 && RevokeInWords(b[3 := 4 * off], id, rs, geo)
  {
    var c := b[3 := 4 * off];
    forall i: nat | i < |rs|
      ensures if geo.wide then c[4 + 2 * i] == rs[i] / 0x1_0000_0000 < 0x1_0000_0000
                               && c[5 + 2 * i] == rs[i] % 0x1_0000_0000
              else c[4 + i] == rs[i] % 0x1_0000_0000
    {
      assert if geo.wide then c[4 + 2 * i] == b[4 + 2 * i] && c[5 + 2 * i] == b[5 + 2 * i] else c[4 + i] == b[4 + i];
    }
  }

  /** A further revoke block behind full ones. */
  lemma {:induction false} RevokesBehind(a: seq<Block>, b: Block, id: nat, rs: seq<nat>, rs': seq<nat>, geo: Geometry)
    requires geo.Valid() && |rs| == |a| * RecordsPer(geo) && 0 < |rs'| <= RecordsPer(geo)
    requires RevokesInWords(a, id, rs, geo) && RevokeInWords(b, id, rs', geo)
    ensures RevokesInWords(a + [b], id, rs + rs', geo)
    decreases |a|
  {
    hide RevokeInWords;
    var n := RecordsPer(geo);
    if a == [] {
      assert a + [b] == [b] && rs + rs' == rs' && rs'[..|rs'|] == rs';
      assert [b][1..] == [] && rs'[|rs'|..] == [];
    } else {
      OneMorePiece(|a| - 1, n);
      RevokesBehind(a[1..], b, id, rs[n..], rs', geo);
      DropAppend(a, [b], 1);
      DropAppend(rs, rs', n);
      assert (rs + rs')[..n] == rs[..n];
    }
  }

  /** One record of jbd_journal_prepare_revoke, written at word `off`. */
  method PutRecord(cur: Block, id: nat, off: nat, lba: nat, geo: Geometry, ghost rs: seq<nat>) returns (c: Block)
    requires RevokeFill(cur, id, off, rs, geo) && off + geo.RecordWords() <= |cur| && geo.Fits(lba)
    requires RecordsInWords(cur, rs, geo)
    ensures RevokeFill(c, id, off + geo.RecordWords(), rs + [lba], geo)
    ensures RecordsInWords(c, rs + [lba], geo)
  {
    hide RecordsInWords;
    c := if geo.wide then cur[off := lba / WORD][off + 1 := lba % WORD] else cur[off := lba % WORD];
    assert RecordAt(c, |rs|, geo) == lba;
    RevokeGrows(cur, id, off, rs, c, lba, geo);
    RecordsGrow(cur, c, rs, lba, geo);
  }

  lemma RevokeFillShape(b: Block, id: nat, off: nat, rs: seq<nat>, geo: Geometry)
    requires RevokeFill(b, id, off, rs, geo)
    ensures |b| == geo.words && REVOKE_HEADER_WORDS <= off <= |b|
  {
  }

  lemma FreshRevoke(scratch: Block, id: nat, geo: Geometry)
    requires geo.Valid() && |scratch| == geo.words
    ensures RevokeFill(PutHeader(scratch, REVOKE_BLOCK, id), id, REVOKE_HEADER_WORDS, [], geo)
    ensures RecordsInWords(PutHeader(scratch, REVOKE_BLOCK, id), [], geo)
  {
  }

  /** Closes a revoke block at the end of an image. */
  lemma FlushRevoke(image: seq<Block>, cur: Block, id: nat, off: nat, done: seq<nat>, rs: seq<nat>, geo: Geometry)
    requires Body(image, id, [], done, geo) && RevokeFill(cur, id, off, rs, geo)
    ensures |cur| > 3 && Body(image + [cur[3 := 4 * off]], id, [], done + rs, geo)
  {
    hide Body, RecordAt;
    RevokeCloses(cur, id, off, rs, geo);
    BodyAppend(image, [cur[3 := 4 * off]], id, [], done, [], rs, geo);
    var none: seq<Write> := [];
    assert none + none == none;
  }

  lemma NoRevokeBlock(id: nat, geo: Geometry)
    ensures RevokesInWords([], id, [], geo)
  {
  }

  /** jbd_journal_prepare_revoke: the revoke records of a transaction, over as many blocks as needed. */
  method PrepareRevoke(revokes: seq<nat>, id: nat, scratch: Block, geo: Geometry) returns (image: seq<Block>)
    requires geo.Valid() && |scratch| == geo.words
    requires forall i :: 0 <= i < |revokes| ==> geo.Fits(revokes[i])
    ensures Body(image, id, [], revokes, geo)
    ensures image == [] <==> revokes == []
    ensures |image| == Pieces(|revokes|, RecordsPer(geo))
    ensures RevokesInWords(image, id, revokes, geo)
  {
    hide Body, RevokeFill, HeaderOf, RecordsPer, RevokesInWords, RevokeInWords, RecordsInWords;
    image := [];
    EmptyBody(id, geo);
    NoRevokeBlock(id, geo);
    var cur: Block := [];   // block being filled; [] when there is none
    var off: nat := 0;
    ghost var rs: seq<nat> := [];
    ghost var done: seq<nat> := [];
    for i := 0 to |revokes|
      invariant Body(image, id, [], done, geo)
      invariant done + rs == revokes[..i]
      invariant cur == [] ==> rs == [] && image == [] && i == 0
      invariant cur != [] ==> RevokeFill(cur, id, off, rs, geo) && i > 0 && 0 < |rs| <= RecordsPer(geo)
      invariant |done| == |image| * RecordsPer(geo)
      invariant RevokesInWords(image, id, done, geo) && (cur != [] ==> RecordsInWords(cur, rs, geo))
    {
      if cur == [] {
        cur, off := PutHeader(scratch, REVOKE_BLOCK, id), REVOKE_HEADER_WORDS;
        FreshRevoke(scratch, id, geo);
      }
      RevokeFillShape(cur, id, off, rs, geo);
      RecordFits(cur, id, off, rs, geo);
      if |cur| < off + geo.RecordWords() {
        OneMorePiece(|image|, RecordsPer(geo));
        FlushRevoke(image, cur, id, off, done, rs, geo);
        RevokeEmitted(cur, id, off, rs, geo);
        RevokesBehind(image, cur[3 := 4 * off], id, done, rs, geo);
        image := image + [cur[3 := 4 * off]];
        done, rs := done + rs, [];
        cur, off := PutHeader(scratch, REVOKE_BLOCK, id), REVOKE_HEADER_WORDS;
        FreshRevoke(scratch, id, geo);
      }
      cur := PutRecord(cur, id, off, revokes[i], geo, rs);
      assert done + (rs + [revokes[i]]) == (done + rs) + [revokes[i]] == revokes[..i + 1];
      off, rs := off + geo.RecordWords(), rs + [revokes[i]];
      RevokeFillShape(cur, id, off, rs, geo);
    }
    assert revokes[..|revokes|] == revokes;
    if cur != [] {
      RevokeFillShape(cur, id, off, rs, geo);
      FlushRevoke(image, cur, id, off, done, rs, geo);
      RevokeEmitted(cur, id, off, rs, geo);
      RevokesBehind(image, cur[3 := 4 * off], id, done, rs, geo);
      PiecesAre(|image|, |rs|, RecordsPer(geo));
      image := image + [cur[3 := 4 * off]];
    }
  }

  lemma OneMorePiece(m: nat, k: nat)
    ensures (m + 1) * k == m * k + k
  {
  }

  /** A further record fits exactly if the block does not hold all it can. */
  lemma RecordFits(b: Block, id: nat, off: nat, rs: seq<nat>, geo: Geometry)
    requires geo.Valid() && RevokeFill(b, id, off, rs, geo)
    ensures |b| < off + geo.RecordWords() <==> |rs| >= RecordsPer(geo)
    ensures |rs| <= RecordsPer(geo)
  {
    hide RecordAt;
    if geo.wide { assert off == 4 + |rs| * 2; } else { assert off == 4 + |rs| * 1; }
  }

  lemma ImageInWords(data: seq<Block>, rev: seq<Block>, image: seq<Block>, id: nat, t: Trans, uuid: Block,
                     geo: Geometry)
    requires DataInWords(data, id, t.writes, true, uuid, geo) && RevokesInWords(rev, id, t.revokes, geo)
    requires |image| == |data| + |rev| + 1 && image[..|image| - 1] == data + rev
    requires CommitInWords(image[|image| - 1], id, geo)
    ensures InWords(image, id, t, uuid, geo)
  {
    hide DataInWords, RevokesInWords, CommitInWords;
    assert image[..|data|] == image[..|image| - 1][..|data|] == data;
    assert image[|data|..|image| - 1] == image[..|image| - 1][|data|..] == rev;
  }

  /** The blocks that __jbd_journal_commit_trans writes for a transaction: nothing at all for an
      empty one, otherwise an image that decodes to its dirty buffers and its revokes. */
  method EncodeTrans(queue: seq<JournalBuf>, revokes: seq<nat>, id: nat, uuid: Block, scratch: Block, geo: Geometry)
    returns (image: seq<Block>)
    requires geo.Valid() && |uuid| == UUID_WORDS && |scratch| == geo.words && QueueFits(queue, geo)
    requires forall i :: 0 <= i < |revokes| ==> geo.Fits(revokes[i])
    ensures image == [] <==> DirtyWrites(queue) == [] && revokes == []
    ensures image != [] ==> ImageOf(image, id, Trans(DirtyWrites(queue), revokes), geo)
    ensures |image| == ImageLength(|DirtyWrites(queue)|, |revokes|, geo)
    ensures image != [] ==> InWords(image, id, Trans(DirtyWrites(queue), revokes), uuid, geo)
  {
    hide TagsPer, RecordsPer, InWords, DataInWords, RevokesInWords;
    var data := Prepare(queue, id, uuid, scratch, geo);
    var rev := PrepareRevoke(revokes, id, scratch, geo);
    if data == [] && rev == [] {
      image := [];
      return;
    }
    BodyAppend(data, rev, id, DirtyWrites(queue), [], [], revokes, geo);
    assert DirtyWrites(queue) + [] == DirtyWrites(queue) && [] + revokes == revokes;
    image := data + rev + [PutHeader(scratch, COMMIT_BLOCK, id)];
    assert image[..|image| - 1] == data + rev;
    ImageInWords(data, rev, image, id, Trans(DirtyWrites(queue), revokes), uuid, geo);
  }
}
