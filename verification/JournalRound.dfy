/** A session begun over a piece of an unfinished transaction with its own first id, whose data blocks run over the
    end of the log: when its first commit is cut off, the reader goes round in the log for ever. */
module JournalRound {
  import opened JournalFormat
  import opened JournalRecovery
  import opened JournalProtocol
  import opened JournalInvariant
  import opened JournalRestart
  import opened JournalTheorems
  import opened JournalQueue

  const RING := Geometry(11, false, 1, 5)

  const EMPTY: Block := [0, 0, 0, 0, 0, 0, 0, 0, 0, 0, 0]

  /** A descriptor of two blocks, with the id 1. */
  const PIECE: Block := [MAGIC, DESCRIPTOR_BLOCK, 1, 7, 0, 0, 0, 0, 0, 8, FLAG_SAME_UUID + FLAG_LAST_TAG]

  /** It stands in the last slot but one. */
  const OLD: seq<Block> := [EMPTY, EMPTY, EMPTY, PIECE, EMPTY]

  lemma PieceTags()
    ensures |Tags(PIECE, HEADER_WORDS, RING)| == 2
  {
    hide Tags;
    TagsUnfold(PIECE, 3, RING);
    TagsUnfold(PIECE, 9, RING);
  }

  const FULL: Block := [MAGIC, REVOKE_BLOCK, 1, 44, 0, 1, 2, 3, 4, 5, 6]
  const REST: Block := [MAGIC, REVOKE_BLOCK, 1, 20, 7, 0, 0, 0, 0, 0, 0]
  const DONE: Block := [MAGIC, COMMIT_BLOCK, 1, 0, 0, 0, 0, 0, 0, 0, 0]

  const EIGHT := Trans([], [0, 1, 2, 3, 4, 5, 6, 7])

  lemma EightImage()
    ensures ImageOf([FULL, REST, DONE], 1, EIGHT, RING)
  {
    var rs := EIGHT.revokes;
    assert Revokes(FULL, RING) == rs[..7] && Revokes(REST, RING) == rs[7..];
    EmptyBody(1, RING);
    assert rs[7..][1..] == [] && [REST][1..] == [] && [FULL, REST][1..] == [REST];
    BodyRevoke([REST], [], 1, [], rs[7..], [], RING);
    BodyRevoke([FULL, REST], [REST], 1, [], rs, rs[7..], RING);
    assert [FULL, REST, DONE][..2] == [FULL, REST];
  }

  /** The slot that the scan looks at after n headers. */
  function Nth(log: seq<Block>, slot: nat, n: nat, geo: Geometry): (p: nat)
    requires geo.Valid() && geo.first <= slot < geo.maxlen && |log| == geo.maxlen
    ensures geo.first <= p < geo.maxlen
  {
    if n == 0 then slot
    else
      var q := Nth(log, slot, n - 1, geo);
      var k := if |log[q]| > 1 && log[q][1] == DESCRIPTOR_BLOCK then |Tags(log[q], HEADER_WORDS, geo)| else 0;
      Adv(q, k + 1, geo)
  }

  const CIRCLE: seq<Block> := [EMPTY, FULL, REST, PIECE, EMPTY]

  lemma {:induction false} Round(n: nat)
    ensures var p := Nth(CIRCLE, 1, n, RING);
      !StopsAt(CIRCLE[p], 1) && CIRCLE[p][1] in {DESCRIPTOR_BLOCK, REVOKE_BLOCK} && (n > 0 ==> p == 2 || p == 3) &&
      (n == 0 ==> p == 1)
  {
    hide Tags, Adv;
    if n > 0 {
      Round(n - 1);
      PieceTags();
      RingSteps();
    }
  }

  lemma RingSteps()
    ensures Adv(1, 1, RING) == 2 && Adv(2, 1, RING) == 3 && Adv(3, 3, RING) == 2
  {
    AdvWithinLap(1, 1, RING);
    AdvWithinLap(2, 1, RING);
    AdvWithinLap(3, 3, RING);
  }

  ghost predicate Upto(revokes: set<nat>, n: nat) { forall x: nat :: x in revokes <==> x < n }

  lemma FreeIs(s: State, lba: nat)
    requires Shape(s) && s.phase.Idle? && s.open == map[] && s.cache == map[] && s.geo == RING && lba < WORD
    ensures Enabled(s, Free(lba, true)) && Orderly(s, Free(lba, true))
    ensures Apply(s, Free(lba, true)) == s.(revokes := s.revokes + {lba})
  {
    assert s.open - {lba} == map[] && s.cache - {lba} == map[];
  }

  lemma {:induction false} FreeMany(s: State, n: nat) returns (steps: seq<Step>, t: State)
    requires Shape(s) && s.phase.Idle? && s.open == map[] && s.cache == map[] && s.revokes == {} && s.geo == RING
    requires n < WORD
    ensures Path(s, steps) && OrderlyPath(s, steps) && t == End(s, steps)
    ensures t == s.(revokes := t.revokes) && Upto(t.revokes, n) && Shape(t)
  {
    hide Shape, Orderly, Enabled, Apply;
    if n == 0 {
      steps, t := [], s;
    } else {
      var u;
      steps, u := FreeMany(s, n - 1);
      FreeIs(u, n - 1);
      t := OneMore(s, steps, u, Free(n - 1, true));
      steps := steps + [Free(n - 1, true)];
    }
  }

  lemma OneMore(s: State, steps: seq<Step>, u: State, step: Step) returns (t: State)
    requires Path(s, steps) && OrderlyPath(s, steps) && u == End(s, steps) && Shape(u)
    requires Enabled(u, step) && Orderly(u, step)
    ensures Path(s, steps + [step]) && OrderlyPath(s, steps + [step])
    ensures t == End(s, steps + [step]) == Apply(u, step) && Shape(t)
  {
    hide Shape, Enabled, Apply, Orderly;
    t := Apply(u, step);
    ShapeKeeps(u, step);
    assert Path(t, []) && OrderlyPath(t, []);
    assert Path(u, [step]) && End(u, [step]) == End(t, []) == t && OrderlyPath(u, [step]);
    PathAppend(s, steps, [step]);
  }

  lemma EightDescribed(revokes: set<nat>)
    requires Upto(revokes, 8)
    ensures Describes(EIGHT, map[], revokes) && revokes != {}
  {
    assert 0 in revokes;
  }

  /** The state in the middle of the commit. */
  ghost predicate Cut(s: State, alloc: nat, written: set<nat>) {
    && Shape(s) && s.geo == RING && s.phase == Logging(EIGHT, [FULL, REST, DONE], alloc, written) && !s.mustSync
    && s.imgs == [] && s.dm == 0
  }

  lemma CutWrite(s: State, written: set<nat>, j: nat)
    requires Cut(s, 2, written) && j < 2
    ensures Enabled(s, WriteLog(j)) && Orderly(s, WriteLog(j))
    ensures Apply(s, WriteLog(j)) ==
            s.(disk := s.disk.(log := s.disk.log[1 + j := [FULL, REST, DONE][j]]),
               phase := s.phase.(written := written + {j}))
  {
    AdvWithinLap(1, j, RING);
  }

  lemma CutAlloc(s: State, alloc: nat)
    requires Cut(s, alloc, {}) && alloc < 2
    ensures Enabled(s, Alloc) && Orderly(s, Alloc)
    ensures Apply(s, Alloc) == s.(phase := s.phase.(alloc := alloc + 1))
  {
  }

  lemma EightBegins(s: State)
    requires Shape(s) && s.phase.Idle? && s.open == map[] && s.geo == RING && NextId(s) == 1 && Upto(s.revokes, 8)
    ensures Enabled(s, BeginCommit(EIGHT, [FULL, REST, DONE])) && Orderly(s, BeginCommit(EIGHT, [FULL, REST, DONE]))
    ensures Apply(s, BeginCommit(EIGHT, [FULL, REST, DONE])) ==
            s.(phase := Logging(EIGHT, [FULL, REST, DONE], 0, {}))
  {
    hide Describes, ImageOf;
    EightImage();
    EightDescribed(s.revokes);
  }

  /** All stale headers have the first id of the session, and none is a commit block. Yet after a crash in the first
      commit, before its commit block, the scan never comes to a block that stops it nor back to where it began. */
  lemma GoesRound() returns (s: State, steps: seq<Step>)
    ensures s == Start(RING, map[7 := EMPTY], OLD, 0) && !Sound(s)
    ensures forall slot :: 1 <= slot < 5 && IsHeader(OLD[slot]) ==> OLD[slot][1] != COMMIT_BLOCK && OLD[slot][2] == 1
    ensures Path(s, steps) && OrderlyPath(s, steps)
    ensures var disk := End(s, steps).disk;
      && disk.start == 1 && disk.sequence == 1 && |disk.log| == 5
      && forall n: nat :: var p := Nth(disk.log, 1, n, RING);
           !StopsAt(disk.log[p], 1) && disk.log[p][1] in {DESCRIPTOR_BLOCK, REVOKE_BLOCK} && (n > 0 ==> p != 1)
  {
    hide Enabled, Orderly, Apply, Path, End, OrderlyPath, Shape, Tags, Sound, Describes, ImageOf;
    s := Start(RING, map[7 := EMPTY], OLD, 0);
    RingStart(s);
    var t;
    steps, t := FreeMany(s, 8);
    EightBegins(t);
    t := OneMore(s, steps, t, BeginCommit(EIGHT, [FULL, REST, DONE]));
    steps := steps + [BeginCommit(EIGHT, [FULL, REST, DONE])];
    CutAlloc(t, 0);
    t := OneMore(s, steps, t, Alloc);
    steps := steps + [Alloc];
    CutAlloc(t, 1);
    t := OneMore(s, steps, t, Alloc);
    steps := steps + [Alloc];
    CutWrite(t, {}, 0);
    t := OneMore(s, steps, t, WriteLog(0));
    steps := steps + [WriteLog(0)];
    CutWrite(t, {} + {0}, 1);
    t := OneMore(s, steps, t, WriteLog(1));
    steps := steps + [WriteLog(1)];
    assert t.disk.log == CIRCLE;
    forall n: nat
      ensures var p := Nth(t.disk.log, 1, n, RING);
        !StopsAt(t.disk.log[p], 1) && t.disk.log[p][1] in {DESCRIPTOR_BLOCK, REVOKE_BLOCK} && (n > 0 ==> p != 1)
    {
      Round(n);
    }
  }

  lemma RingStart(s: State)
    requires s == Start(RING, map[7 := EMPTY], OLD, 0)
    ensures Shape(s) && !Sound(s) && NextId(s) == 1
  {
    hide Sound, Tags;
    PieceTags();
    StartOk(RING, map[7 := EMPTY], OLD, 0);
    assert IsHeader(OLD[3]) && !Harmless(OLD[3], 3, 1, RING);
  }
}
