# Verification model of lwext4

lwext4 is an ext2/3/4 file system in C. This project models its four hardest parts, and two smaller ones that
rest on the same kind of argument, over an abstract disk, and proves properties of them:

* **Journal** (`Journal*.dfy`). A redo log in a circular area. `JournalFormat` encodes transactions into
  descriptor, data, revoke and commit blocks, word by word; `JournalRecovery` has the three passes of recovery
  as loops over the log, and `JournalWords` the log as the numbers of the format. `JournalProtocol` is a session
  as a step system: a step dirties or frees a block, aborts, writes one log block, checkpoints one block or
  moves the tail, and a crash may come after any of them. `JournalInvariant`, `JournalCrash` and
  `JournalTheorems` prove what every step keeps, what a crash leaves, and what follows for whole runs.
  `JournalQueue`, `JournalCommit` and `JournalOps` give the same in the form of the code: a class with tail,
  head and checkpoint queue updated in place, each of whose calls is proved to be a run of steps.
  `JournalRecords` has the block records, which say what transaction a block belongs to, and `JournalClean` the
  blocks that a checkpoint passes by. `JournalRestart` is about sessions one after the other over the same log,
  `JournalBehind` about the log while the superblock on disk is behind. `JournalCache` puts a session and the
  block cache together: the buffers of the running transaction are referenced buffers of that cache, and what
  the cache evicts, flushes or writes on its own is a run of the journal. `JournalLoss`, `JournalMix`,
  `JournalHang`, `JournalRound` and `JournalAgain` have runs in which the code loses commits, mixes up blocks or
  does not come to an end.
* **Extent tree** (`Extent*.dfy`). A tree of index and leaf nodes with search, insertion with leaf and index
  splits and growth in depth, and truncation that walks and prunes the tree in place. Its meaning is the list of
  extents in the leaves, and the finite map from logical to physical blocks that the list stands for.
  `ExtentLoss` has two files that the code damages.
* **Directory index** (`Dir*.dfy`, `HashTree.dfy`). Leaf blocks as chains of variable-length records, and a hash
  tree of one or two levels over them. Its meaning is the list of leaf blocks with their hash borders, and the
  bag of names in them. `DirLoss` has two directories that the code damages.
* **Block allocator** (`Bitmap.dfy`, `Balloc.dfy`, `Allocator.dfy`). Bitmap search and range clearing on byte
  arrays, the bitmap of a new group with its padding, address arithmetic, and allocation and freeing with the
  counters of groups, file system and inode.
* **Block cache** (`BlockCache.dfy`). Reference counts, flags, the list of dirty buffers, eviction and
  write-back; its meaning is the view that readers have of each block.
* **Indirect blocks** (`IndirectTree.dfy`, `IndirectMap.dfy`) and **extended attributes** (`XattrLayout.dfy`,
  `XattrBlock.dfy`): the ext2/3 block map, and attribute blocks with entries from the front and packed values
  from the back.

Trees are values held in a field of the object that owns them; everything that the code changes step by step is a
method with loops, specified by functions of the old state, and the laws are lemmas about those functions.
Malloc and device I/O succeed.

## Where the code departs from its intent

Each of these is stated as the exact condition under which the code does what it should, or with a run that shows it:

* A transaction whose last write ends by way of a newer one is not taken off the head of the checkpoint queue
  (the flag at src/ext4_journal.c:2109 is read too early; `JournalQueue.Lingers`). The next log block that finds the
  log full purges it without writing the superblock (src/ext4_journal.c:1376-1392), log blocks then replace
  the tail named on disk, and a crash loses commits that had returned, unless all that is outstanding is at home
  (`JournalOps.Journal.CommitTrans`, `JournalBehind.RecoverBehind`, `JournalLoss.CommitLost`). While a later commit
  has replaced data but not the first block of the transaction named on disk, recovery writes the data of one block
  to another (`JournalMix.WrongReplay`).
* A block whose buffer is up to date and clean is left alone by the checkpoint (src/ext4_blockdev.c:149-150), also
  when its committed version is not at home: it was freed, the transaction that freed it aborted, and it was read
  again. Its transaction then never leaves the queue. Stopping the journal does not end, and the assertion at
  src/ext4_journal.c:1468 fails when the log fills up to that transaction (`JournalOps.Journal.FlushTrans`,
  `JournalOps.Journal.AllocBlock`, `JournalOps.Journal.CommitTrans`, `JournalOps.Journal.PurgeAll`,
  `JournalHang.StopHangs`).
* A write past the cache leaves a clean buffer of the block with its old content (`BlockCache.Cache.WriteDirect`,
  `JournalCache.Session.CheckpointFromLog`).
* A block that is freed and dirtied again has two buffers in its transaction. Three walks then go on at a list
  element or record that has been freed: when the block is clean at commit, when its transaction is flushed with the
  two side by side, and, with a third one, when its write ends (`JournalOps.Journal.DropClean`,
  `JournalOps.Journal.FlushTrans`, `JournalOps.Journal.EndWrite`). The conditions are exact; the model goes on as
  the walk was meant to.
* Recovery leaves the id of the last committed transaction, so the next session begins with the id of the one that
  was cut off, whose blocks are still in the log. That is harmless unless a descriptor of it has its data over the
  end of the log (`JournalTheorems.NextSession`); then recovery after a crash in the first commit may go round for
  ever (`JournalRound.GoesRound`). A clean stop leaves the id 0 (src/ext4_journal.c:1445-1448), so that the next
  session counts from 1 again, and recovery may replay old transactions of an earlier session
  (`JournalTheorems.StartOk`, `JournalAgain.ReplaysOld`).
* The tag of a 32-bit layout has two words, and three are cleared for it, at the end of a block the first word behind
  it (`JournalFormat.WriteTag`).
* Checkpoint and rollback copy log blocks without undoing the escape (`JournalFormat.EscapeRoundTrip`).
* A block that was only freed in an aborted transaction is not rolled back (`JournalTheorems.AbortRestores`,
  `JournalLoss.AbortForgets`).
* The merge of a new extent in front of another keeps the old physical start, and the goal asked of the allocator
  is exactly the block that triggers it (`ExtentInsert.InsertIsUpdate`, `ExtentInsert.PrependLosesMapping`,
  `ExtentRoom.UnsafeBeforeFirst`, `ExtentOps.ExtentInode.GetBlocks`). Appending ignores whether the extents are
  unwritten.
* A split that runs out of blocks loses the extents it has moved already (`ExtentRoom.SplitLost`,
  `ExtentRoom.LostNone`, `ExtentLoss.LoseExtents`).
* Truncation from a hole does nothing (`ExtentOps.ExtentInode.RemoveSpace`, `ExtentLoss.CutInHole`).
* Splitting a directory leaf with at most half a block of names puts all names in both blocks, after reading the
  word before the sorted entries; below 2048 bytes the name that caused the split can be lost silently
  (`HashTree.HashTree.AddEntry`, `DirLoss.CopyNames`, `DirLoss.LoseName`), and the index may come out of order, so
  that lookups pass names by (`DirTree.DoubledSearch`, `DirLoss.SearchAstray`). The index is split
  before the leaf is tried, so a full index is ENOSPC even when the leaf has room (src/ext4_dir_idx.c:1292-1311).
* The bitmap search reports the start for a clear bit before the first whole byte (`Bitmap.FindIsRight`); the
  callers mask it (`Allocator.PrefixSearched`).
* Block addresses wrap at 2^32 (`Balloc.AddrRoundTrip`); the last group is counted without the first data block,
  which the padding bits mask (`Balloc.LastGroup`, `Balloc.NoneInGroup`).
* Freeing a range over two groups that are shorter than their bitmaps clears padding bits
  (`Allocator.Allocator.FreeBlocks`, `Allocator.ShortGroups`).
* Cached blocks of a range are invalidated only if its first block is cached (`BlockCache.Cache.Invalidate`).
* Replacing or removing a non-empty attribute beside an empty one moves the empty one off offset zero, although
  the comment at src/ext4_xattr.c:384 says otherwise; the next validity check then refuses the whole block
  (`XattrBlock.GoneClear`, `XattrBlock.Block.BlockSet`).

## Model

| member | source | states |
|---|---|---|
| `JournalFormat.IterateTags` | src/ext4_journal.c:811-852 | walking a descriptor collects exactly the tags that the recursive reading of the block defines, stopping at the last tag or when no tag fits |
| `JournalFormat.WriteTag` | src/ext4_journal.c:723-802 | a tag is written exactly if it fits in the rest of the descriptor, and reads back as written; block number, flags and UUID are stated as numbers (32- and 64-bit layout, with and without UUID); no other word changes but, in the 32-bit layout, the one behind the two of the tag, which is cleared: at the end of the block that word is the first one behind it |
| `JournalFormat.LaidTags` | src/ext4_journal.c:646-716 | tags laid one after the other read back in order, whatever follows them |
| `JournalFormat.EscapeRoundTrip` | src/ext4_journal.c:1961-1965 | un-escaping undoes escaping for every block; a copy taken without un-escaping is right exactly when the block does not begin with the magic |
| `JournalFormat.BodyAppend` | src/ext4_journal.c:1828-1991 | two runs of descriptor groups and revoke blocks put together decode to the concatenation of what they log |
| `JournalFormat.BodyHeaders` | src/ext4_journal.c:1961-1965 | no logged data block can be read as a header, and no block of an image carries another transaction's id |
| `JournalFormat.TrimClean` | src/ext4_journal.c:1822-1851 | dropping clean buffers from the tail of the queue loses no dirty buffer and leaves a dirty one last |
| `JournalFormat.LogBuffer` | src/ext4_journal.c:1893-1981 | one dirty buffer more is logged, in the open descriptor or in a new one when that is full; the flag for the last tag closes the group; descriptor and data are the numbers of the format |
| `JournalFormat.Prepare` | src/ext4_journal.c:1805-1991 | the image decodes to exactly the dirty buffers in queue order, over any number of descriptors, and is their groups in numbers; its length is their number and one descriptor for each full or begun group |
| `JournalFormat.PrepareRevoke` | src/ext4_journal.c:1997-2082 | the revoke blocks decode to exactly the revoke records in order, as many blocks as full or begun ones take, and are those blocks in numbers |
| `JournalFormat.EncodeTrans` | src/ext4_journal.c:2165-2187 | what a commit logs decodes to its dirty buffers and revokes, with one commit block at the end; nothing at all for an empty transaction; the length is a function of the two numbers. Word by word it is the numbers of the format: 0xc03b3998, the types 1, 2 and 5, the id, tags with the flags 1, 2 and 8, the bytes in use and the records of a revoke block |
| `JournalFormat.TagFits` | src/ext4_journal.c:1897-1946 | a descriptor takes a further tag exactly if it has fewer than the block size allows |
| `JournalFormat.RecordFits` | src/ext4_journal.c:2020-2062 | the same for a revoke block and its records |
| `JournalFormat.GroupWordsGrow` | src/ext4_journal.c:1938-1976 | a descriptor group in numbers with one more tag and block is one with that write at its end |
| `JournalWords.TagRead` | src/ext4_journal.c:646-716 | a tag in numbers, 32- or 64-bit, is read as the block, the escape, the UUID and the end of the list it was written for |
| `JournalWords.GroupRead` | src/ext4_journal.c:811-852 | a descriptor group in numbers logs exactly its writes: type 1, tags, blocks with a leading 0xc03b3998 cleared |
| `JournalWords.RevokeRead` | src/ext4_journal.c:998-1030 | a revoke block in numbers revokes exactly its records: type 5, 16 bytes and 4 or 8 for each record |
| `JournalWords.TransRead` | src/ext4_journal.c:1122-1195 | a transaction in numbers, of any number of writes and revokes, is one that recovery takes for committed |
| `JournalWords.LogRead` | src/ext4_journal.c:1061-1209 | a log of such transactions with ids that count up can be read to its end |
| `JournalWords.RecoverWords` | src/ext4_journal.c:1214-1253 | recovery of a log in numbers: each block has its last write that neither that transaction nor a later one revokes |
| `JournalWords.ReplaysOne` | src/ext4_journal.c:1122-1195 | three blocks given word by word, for any block number, id and data: recovery writes the data to that block and nothing else |
| `JournalWords.SkipsRevoked` | src/ext4_journal.c:894-899 | with a revoke block and a commit block behind them, also word by word, nothing is written |
| `JournalRecovery.AdvWithinLap` | src/ext4_journal.c:99-104 | within one lap of the log a slot is reached by addition and a single wrap correction |
| `JournalRecovery.TransIdDiffExact` | src/ext4_journal.c:106-111 | comparing 32-bit ids gives the true difference exactly while the ids are less than 2^31 apart |
| `JournalRecovery.BuildRevokeTree` | src/ext4_journal.c:998-1030 | a revoke block adds exactly its records, each with the id of its transaction |
| `JournalRecovery.RevokeTableAt` | src/ext4_journal.c:955-976 | the revoke tree has a block exactly if some transaction revokes it, with the greatest id of one that does |
| `JournalRecovery.SkipDescriptor` | src/ext4_journal.c:1032-1042 | the scan steps over exactly the data blocks of a descriptor |
| `JournalRecovery.ReplayDescriptor` | src/ext4_journal.c:879-949 | every tagged block whose revoke record is not as new goes home, with its magic restored |
| `JournalRecovery.VisitBlock` | src/ext4_journal.c:1122-1195 | one block of the log is handled: the cursor of the pass moves by exactly that block and its group, and the result of the pass so far is kept |
| `JournalRecovery.IterateLog` | src/ext4_journal.c:1061-1209 | a pass ends at the first block that does not continue the log, or once around: scan counts exactly the committed transactions, revoke builds their revoke table, recover replays them in order |
| `JournalRecovery.RecoverJournal` | src/ext4_journal.c:1214-1253 | after the three passes every block is as the committed transactions say, and the tail is cleared; a clean disk is left alone. Of which words those are: JournalWords.RecoverWords |
| `JournalRecovery.RecoveredContent` | src/ext4_journal.c:879-976 | replaying with the revoke table gives each block the image of its last write, unless that transaction or a later one revokes it; then the block is untouched |
| `JournalRecovery.DecidesIsLast` | src/ext4_journal.c:894-899 | an unrevoked write after which nothing writes or revokes the block is what recovery leaves |
| `JournalRecovery.LastIsDecided` | src/ext4_journal.c:894-899 | the converse: what recovery leaves in a replayed block was written by such a transaction |
| `JournalInvariant.StepKeeps` | src/ext4_journal.c:1315-2255 | every orderly step of a session (dirty, free, abort, commit block by block, checkpoint from cache or log, tail movement) keeps the invariant of log, tail, cache and home blocks |
| `JournalInvariant.StepKeepsCore` | src/ext4_journal.c:1367-1411 | everything but the tail named on disk is kept also by a purge without a superblock write |
| `JournalInvariant.SyncKeeps` | src/ext4_journal.c:429-440 | a superblock write makes the tail on disk right again, however far it was behind |
| `JournalInvariant.WriteCommitKeeps` | src/ext4_journal.c:2183-2187 | writing the commit block turns the running transaction into a committed one in a single step and keeps the invariant |
| `JournalInvariant.FlushCachedKeeps` | src/ext4_blockdev.c:144-171 | a checkpoint write from the cache keeps the invariant: it is the newest committed version that goes home |
| `JournalInvariant.FlushLogCopyKeeps` | src/ext4_journal.c:1329-1345 | a checkpoint write from the log keeps the invariant also when a newer version is still outstanding |
| `JournalCrash.ReplayedOrSettled` | src/ext4_journal.c:1367-1411 | each block is either replayed from the tail on or was settled at home before the tail moved past its transaction |
| `JournalCrash.CrashSafe` | src/ext4_journal.c:1061-1253 | in every reachable state what is on disk is a recoverable log, and recovery yields a prefix of the committed transactions that contains every commit that has returned |
| `JournalRestart.SoundStep` | src/ext4_journal.c:1315-2255 | a session that begins over blocks of an unfinished transaction with its own first id stays sound through every orderly step |
| `JournalRestart.RestartCommit` | src/ext4_journal.c:1769-1799 | with its first commit block such a session has the invariant of one begun over a clean log |
| `JournalRestart.Walk` | src/ext4_journal.c:1122-1195 | the reader goes through blocks left by an earlier session and by the running commit to one that stops it, or once around; it finds no commit block |
| `JournalRestart.SoundCrash` | src/ext4_journal.c:1061-1253 | a crash in a sound session leaves a log that can be recovered, to a prefix with every returned commit, also before the first commit block over such a log |
| `JournalTheorems.StartOk` | src/ext4_journal.c:1267-1306 | a session is sound if and only if all headers in the log have older ids, or its first one and are descriptor or revoke blocks, the descriptors with their data before the end of the log |
| `JournalTheorems.NextSession` | src/ext4_journal.c:1214-1306 | after a crash and recovery the next session is sound if and only if nothing committed was found, or no descriptor of the unfinished transaction has its data over the end of the log |
| `JournalTheorems.RunSound` | src/ext4_journal.c:1315-2255 | a sound session is sound after every orderly run |
| `JournalRound.GoesRound` | src/ext4_journal.c:1077-1199 | a log outside that condition: a session begun over it, a crash before its first commit block, and the scan of recovery never ends |
| `JournalAgain.ReplaysOld` | src/ext4_journal.c:1267-1449 | after a clean stop ids start from 1 again: one commit, a crash, and recovery also brings back an old version of a block that an earlier session had logged with the id that comes next |
| `JournalTheorems.RunKeeps` | src/ext4_journal.c:1315-2255 | the invariant holds after every orderly run |
| `JournalTheorems.CrashAndRecover` | src/ext4_journal.c:1214-1253 | a crash after any step of any orderly run of a sound session, then recovery: home blocks equal a prefix of the committed transactions with every acknowledged one in it and nothing of an unfinished one; the id left behind is that of the last one read |
| `JournalTheorems.RecoverInterrupted` | src/ext4_journal.c:1044-1054 | recovery cut off after any block write and run again ends with the same home blocks as one that was not cut off |
| `JournalTheorems.WriteAheadRule` | src/ext4_journal.c:1611-1663 | through every orderly run a home block holds its initial content or a version whose commit block is in the log |
| `JournalTheorems.AbortRestores` | src/ext4_journal.c:1524-1589 | an abort restores the committed version of a block whose home content differs if and only if the transaction has a buffer for it, or the cache still has it, or no transaction of the queue has it outstanding; otherwise the view falls back to the home block |
| `JournalTheorems.DrainedIsCurrent` | src/ext4_journal.c:1416-1449 | when the checkpoint queue is empty every home block is current |
| `JournalBehind.PurgeOverwrites` | src/ext4_journal.c:1367-1472 | in every state with a full log behind a finished head, the slot that the commit allocates after the unsynced purge is the one the superblock on disk names; once that block is written, and not before, the reader finds no transaction at all |
| `JournalBehind.RunTracks` | src/ext4_journal.c:1315-2255 | through every run, with or without such purges, each log block stays in its slot until the block one lap later is written, also when its transaction has left the queue |
| `JournalBehind.RecoverBehind` | src/ext4_journal.c:1214-1472 | a crash between two commits while the superblock is behind, and mount: all commits come back if and only if the log has not been written over the block that the superblock names, or everything outstanding is at home already; the same inside a commit until it writes into the transactions named there and from the write over the first block on |
| `JournalMix.WrongReplay` | src/ext4_journal.c:1376-1392 | between the two, a run after which recovery gives a block the data of an uncommitted transaction, logged for another block: its data has replaced that of the purged transaction, whose descriptor is still there |
| `JournalTheorems.KeptExactly` | src/ext4_journal.c:1214-1253 | home blocks that recovery does not touch are the committed state if and only if everything outstanding is at home already |
| `JournalLoss.AbortForgets` | src/ext4_journal.c:1524-1589 | a run after which a committed block reads as it was before its commit: it was freed, and the transaction that freed it aborted |
| `JournalLoss.CommitLost` | src/ext4_journal.c:1376-1392 | a run of the code's own steps after which three returned commits cannot all be recovered: a finished head was purged without writing the superblock |
| `JournalQueue.Lingers` | src/ext4_journal.c:2109-2151 | a finished transaction stays at the head of the queue exactly when the newest holder of the block was not first and it and all before it are finished now: the flag was read too early |
| `JournalQueue.EndingMoves` | src/ext4_journal.c:1534-1545 | ending an older write of a block takes finished transactions off the head, but never the newest holder |
| `JournalQueue.RetireKeeps` | src/ext4_journal.c:1354-1392 | taking a finished transaction off the queue is a tail step; start slot and id in memory are those of the next transaction, with one wrap correction |
| `JournalQueue.RingFull` | src/ext4_journal.c:1464-1469 | head and tail slots meet exactly when every slot of the log is taken |
| `JournalQueue.RoomAgain` | src/ext4_journal.c:1466-1469 | after one purged transaction the log has room again for a commit shorter than the log; whether one is purged is stated at AllocBlock |
| `JournalQueue.HeadCopy` | src/ext4_journal.c:1329-1341 | the log block noted for a buffer of the oldest transaction holds what that transaction committed, unless it begins with the magic |
| `JournalCommit.CopiesKept` | src/ext4_journal.c:1952-1969 | logging a block of the running commit changes no log copy that the checkpoint queue still needs |
| `JournalCommit.SlotsApart` | src/ext4_journal.c:1455-1472 | a slot in use by the queue is never allocated again |
| `JournalCommit.NewEntry` | src/ext4_journal.c:1952-1976 | the slots noted while a transaction is logged make a queue entry with a buffer for each logged copy, two for a block that was freed and dirtied again; it has a buffer for exactly the blocks of the transaction |
| `JournalCommit.NewestLogged` | src/ext4_journal.c:1546-1577 | the newest log copy among the transactions in the queue is the last committed version of the block |
| `JournalQueue.RunsKeep` | src/ext4_journal.c:1315-2255 | an orderly run of any call keeps the invariant |
| `JournalRecords.RecsRetire` | src/ext4_journal.c:1724-1764 | the block records of a transaction that leaves the queue go with it, and every other record has its right owner still |
| `JournalRecords.RecsEnded` | src/ext4_journal.c:2100-2152 | a write that ends at the head, or all writes of a block, leave each record with the newest transaction that still has to write its block |
| `JournalRecords.RecsTake` | src/ext4_journal.c:1499-1522 | dirtying a block moves its record to the running transaction, or makes one |
| `JournalRecords.RecsJoin` | src/ext4_journal.c:2218-2248 | a committed transaction takes the records of its blocks into the queue |
| `JournalRecords.RecsBack` | src/ext4_journal.c:1566-1586 | on abort the record of a block goes back to the newest transaction that still has to write it |
| `JournalRecords.RunningIs` | src/ext4_journal.c:1611-1663 | what a commit logs, read off the list of buffers, is the running transaction: every block it holds with its content, and nothing of the freed ones |
| `JournalClean.WaitsRetire` | src/ext4_journal.c:1367-1411 | no block starts or stops waiting when a finished transaction leaves the queue |
| `JournalClean.WaitsEnded` | src/ext4_journal.c:2100-2152 | nor when a write of another block ends at its head |
| `JournalClean.WaitsIs` | src/ext4_journal.c:1327-1346 | between two calls a block waits for a checkpoint that never comes exactly if its buffer is up to date and clean and a transaction of the queue still has to write it; it waits for the newest of them |
| `JournalClean.DanglesTwice` | src/ext4_journal.c:1315-1352 | the walk of a flush can go on at a freed element only if some block of the transaction has two buffers there |
| `JournalClean.DanglesNext` | src/ext4_journal.c:1315-1352 | and it does when two such buffers lie side by side |
| `JournalHang.StopHangs` | src/ext4_journal.c:1367-1449 | a call sequence after which stopping the journal does not end: commit a block, free it, abort, read it |
| `JournalCommit.Interrupted` | src/ext4_journal.c:2158-2255 | every prefix of an orderly run of a call is itself an orderly run, so a crash may fall anywhere inside a commit |
| `JournalOps.Journal.constructor` | src/ext4_journal.c:1267-1306 | a new session has an empty queue and log and the next id; it is sound exactly if the log is as StartOk says |
| `JournalOps.Journal.Retire` | src/ext4_journal.c:1354-1392 | memory and superblock image follow the step that moves the tail past the head of the queue |
| `JournalOps.Journal.PurgeWritten` | src/ext4_journal.c:1367-1411 | without flushing, exactly the finished transactions at the head leave the queue |
| `JournalOps.Journal.WriteSuper` | src/ext4_journal.c:429-440 | the superblock on disk names the tail in memory |
| `JournalOps.Journal.MoveTail` | src/ext4_journal.c:2139-2150 | the tail passes all finished transactions at the head, and the superblock is written |
| `JournalOps.Journal.EndWriteAt` | src/ext4_journal.c:2100-2152 | a write that ends is counted once; only at the head of the queue can that move the tail |
| `JournalOps.Journal.EndOlder` | src/ext4_journal.c:1532-1545 | with the newest version the older ones end too, the oldest first; only tail steps are taken |
| `JournalOps.Journal.BeginEnd` | src/ext4_journal.c:2100-2121 | the newest transaction's write of the block is taken off but not counted, so that transaction cannot be passed yet |
| `JournalOps.Journal.FinishEnd` | src/ext4_journal.c:2122-2138 | the write is counted, and all older ones of the block have ended |
| `JournalOps.Journal.EndWrite` | src/ext4_journal.c:2100-2152 | exactly the writes of the block end in all transactions; how many transactions leave the queue is stated exactly, with the early flag; block records keep their right owners; the walk goes on at a freed element exactly if the newest transaction has three buffers of the block |
| `JournalOps.Journal.WriteCached` | src/ext4_blockdev.c:144-160 | the cached version goes home, no transaction waits for the block, its buffer is clean, and its callback is still owed |
| `JournalOps.Journal.Callback` | src/ext4_blockdev.c:164-168 | the callback ends the writes of the block in all transactions, or nothing if none has it |
| `JournalOps.Journal.FlushBuf` | src/ext4_blockdev.c:144-171 | the home block gets the cached version and nothing else changes but the tail; the queue is left as the callback leaves it, with the same condition for a freed element |
| `JournalOps.Journal.CopyHome` | src/ext4_journal.c:1329-1341 | the version of the oldest transaction goes home from the log, past the buffer |
| `JournalOps.Journal.EndHead` | src/ext4_journal.c:2100-2152 | a write of the oldest transaction ends; that transaction leaves the queue with those behind it that are finished exactly if it was its last, and no other block starts or stops waiting |
| `JournalOps.Journal.FlushOne` | src/ext4_journal.c:1323-1349 | one outstanding write of the oldest transaction is done and counted, except that nothing at all happens when the block is clean and up to date and its record is that transaction's |
| `JournalOps.Journal.FlushTrans` | src/ext4_journal.c:1315-1352 | the oldest transaction is written home and leaves the queue, and the superblock follows, if and only if no block of it is clean and up to date with its record there; with only such blocks left nothing changes; when the walk goes on at a freed element is stated exactly |
| `JournalOps.Journal.PurgeOne` | src/ext4_journal.c:1367-1411 | a transaction leaves the queue unless one of its blocks waits; the superblock is left behind if and only if the head was finished before |
| `JournalOps.Journal.AllocBlock` | src/ext4_journal.c:1455-1472 | the next slot of the log in order; the assertion after the purge fails if and only if the log is full and a block of its oldest transaction waits; the superblock is left behind if and only if the log was full and that transaction finished |
| `JournalOps.Journal.LogBlock` | src/ext4_journal.c:1952-1969 | a data or revoke block goes to the slot that follows |
| `JournalOps.Journal.LogData` | src/ext4_journal.c:1952-1981 | the data blocks of a descriptor are logged and the slot of each is noted |
| `JournalOps.Journal.LogGroup` | src/ext4_journal.c:1897-1988 | a descriptor is allocated before its data and written after them |
| `JournalOps.Journal.LogImage` | src/ext4_journal.c:1805-2082 | all blocks before the commit block are on disk in their slots before the commit block is allocated |
| `JournalOps.Journal.WriteCommitBlock` | src/ext4_journal.c:1769-1799 | the commit block is the last one written and makes the transaction committed |
| `JournalOps.Journal.CompleteRevoked` | src/ext4_journal.c:2189-2216 | the outstanding writes of revoked blocks end in every transaction |
| `JournalOps.Journal.NameTail` | src/ext4_journal.c:2218-2233 | for the first transaction of an empty queue the superblock names it as the tail before the commit returns |
| `JournalOps.Journal.JoinQueue` | src/ext4_journal.c:2218-2248 | the transaction is the last in the checkpoint queue, with the records of its blocks |
| `JournalOps.Journal.PassTrans` | src/ext4_journal.c:2234-2248 | with revokes only and nothing before it the tail moves past the transaction instead |
| `JournalOps.Journal.EnterQueue` | src/ext4_journal.c:2189-2248 | after the commit block: writes of revoked blocks end, the tail is named, the commit is acknowledged, and no full log or superblock behind is left over |
| `JournalOps.Journal.RevokeList` | src/ext4_journal.c:1997-2082 | the revoke records, each once, in the order of their tree |
| `JournalOps.Journal.GiveBack` | src/ext4_journal.c:1566-1605 | the record of a block goes to the newest transaction of the queue with an outstanding write of it, or is freed if there is none |
| `JournalOps.Journal.DropClean` | src/ext4_journal.c:1822-1851 | the clean buffers at commit give back exactly their own records; a freed record is read exactly if some block that is not dirty has two buffers |
| `JournalOps.Journal.DropEmpty` | src/ext4_journal.c:2172-2180 | a transaction with nothing to log leaves no trace |
| `JournalOps.Journal.CommitBegun` | src/ext4_journal.c:2158-2255 | an image that fits is committed and acknowledged, except if and only if the log fills up to a transaction with a block that waits; the superblock is left behind if and only if the log fills up with a finished transaction at the head of the queue |
| `JournalOps.Journal.CommitTrans` | src/ext4_journal.c:2158-2255 | a commit call is a run of steps that ends with the transaction committed and acknowledged; all exceptions are exact in the number of buffers and revokes: too long for the log, the failed assertion, the superblock left behind. The run is orderly and keeps the invariant unless the superblock is left behind, and everything but the tail on disk also then |
| `JournalOps.Journal.AddBuf` | src/ext4_journal.c:1624-1653 | a block that the transaction does not hold gets a new buffer entry, also after it was freed, and its record changes owner |
| `JournalOps.Journal.SetDirty` | src/ext4_journal.c:1611-1663 | the block belongs to the running transaction, with its record, and its revoke record is gone |
| `JournalOps.Journal.MarkDirty` | src/ext4_journal.c:1648-1660 | the change itself: the buffer is dirty and not clean any more |
| `JournalOps.Journal.FreeBlock` | src/ext4_journal.c:1696-1718 | a freed block is revoked exactly if its record belongs to another transaction, or to this one with two or more buffers; and always if a transaction in the queue still has to write it |
| `JournalOps.Journal.RollBack` | src/ext4_journal.c:1546-1577 | exactly the blocks with a record and an outstanding older write are read back, in their last committed version; their records go back to the newest transaction with that write, the others are freed |
| `JournalOps.Journal.AbortTrans` | src/ext4_journal.c:1724-1764 | the running transaction leaves nothing behind but the restored buffers, and every record it owned is given back or freed |
| `JournalOps.Journal.DropBufs` | src/ext4_journal.c:1524-1589 | its buffers are invalidated, and those rolled back are dirty again |
| `JournalOps.Journal.PurgeAll` | src/ext4_journal.c:1367-1411 | the whole queue is written home by orderly steps if and only if no block waits; otherwise the loop goes on for ever at a transaction all of whose blocks wait, and nothing changes any more |
| `JournalOps.Journal.Stop` | src/ext4_journal.c:1416-1449 | stopping returns if and only if no block waits; then every home block has its committed content, the log is marked empty, and no block record is left unless a transaction is running |
| `JournalOps.Journal.Crash` | src/ext4_journal.c:1214-1253 | a crash between two calls, and mount: all commits come back, with the superblock behind exactly under the condition of RecoverBehind |
| `JournalOps.Journal.Read` | src/ext4_blockdev.c:244-268 | a block that is read has an up-to-date buffer, clean unless it was dirty |
| `JournalOps.Journal.Forget` | src/ext4_bcache.c:161-179 | a clean buffer that is dropped is not up to date any more, so its block does not wait |
| `JournalCache.FlushMany` | src/ext4_blockdev.c:144-171 | writing home any set of blocks from the cache is one orderly run of the journal |
| `JournalCache.CacheRun` | src/ext4_blockdev.c:186-268 | whatever the cache did with buffers that nobody refers to is such a run, as long as the buffers of the running transaction stay referred to and dirty |
| `JournalCache.Session.constructor` | src/ext4_journal.c:1267-1306 | journal and cache agree at the start over a clean cache |
| `JournalCache.Session.Get` | src/ext4_blockdev.c:244-268 | asking for a block may evict and write others: an orderly run that checkpoints committed blocks and touches no block of the running transaction on disk |
| `JournalCache.Session.Flush` | src/ext4_blockdev.c:444-456 | the same for a flush of the cache; afterwards only committed blocks that somebody refers to are not at home |
| `JournalCache.Session.WriteBack` | src/ext4_blockdev.c:458-471 | the same for turning write-back on or off |
| `JournalCache.Session.Put` | src/ext4_bcache.c:270-330 | the same for giving a reference back, with the write that this may cause |
| `JournalCache.Session.SetDirty` | src/ext4_journal.c:1611-1663 | the running transaction takes a reference of the buffer with each of its entries; the cache has the new content, and the disk is not written |
| `JournalCache.Session.FreeBlock` | src/ext4_journal.c:1696-1718 | a freed block loses its content in the cache, and its references stay until the transaction ends |
| `JournalCache.Session.Log` | src/ext4_journal.c:1805-2255 | log and tail writes leave cache and home blocks alone |
| `JournalCache.Session.FinishCommit` | src/ext4_journal.c:2218-2255 | with the commit its dirty buffers become blocks that the cache may write home |
| `JournalCache.Session.Unpin` | src/ext4_journal.c:2087-2098 | the reference of one buffer is given back: a checkpoint may follow, of committed content only |
| `JournalCache.Session.CheckpointCached` | src/ext4_journal.c:1325-1345 | a checkpoint from the cache is right whoever refers to the buffer, since it is not of the running transaction |
| `JournalCache.Session.CheckpointFromLog` | src/ext4_journal.c:1329-1341 | a checkpoint past the cache: afterwards the cache agrees with the disk if and only if the buffer was not clean and up to date with other content |
| `JournalCache.Session.CheckpointHead` | src/ext4_journal.c:1323-1349 | one block of the oldest transaction, as its record and buffer decide: written from the cache, left alone when the buffer is clean and up to date, or copied from the log past the buffer |
| `JournalCache.Session.Abort` | src/ext4_journal.c:1524-1589 | the aborted buffers lose content and references, those rolled back are dirty again with the committed version, whatever the cache evicts in between |
| `JournalCache.Session.WriteAheadOnDisk` | src/ext4_journal.c:1611-1663 | in every state of the two together the disk holds the first content of a block or a version whose commit block is in the log |
| `JournalCache.Session.Crash` | src/ext4_journal.c:1214-1253 | a crash in any such state, and mount: a prefix of the commits with every returned one, whatever the cache has written by then |
| `BlockCache.Cache.FlushBuf` | src/ext4_blockdev.c:144-171 | a dirty buffer reaches the disk, flags and list follow, readers see no difference |
| `BlockCache.Cache.DropBuf` | src/ext4_bcache.c:161-179 | only an unreferenced clean buffer goes, it leaves no link, and readers see no difference |
| `BlockCache.Cache.LowestLru` | src/ext4_bcache.c:156-159 | the first unreferenced buffer in the order of use |
| `BlockCache.Cache.Evict` | src/ext4_blockdev.c:194-207 | one turn: the first unreferenced buffer in the order of use goes, written before if dirty; no other buffer or disk block changes |
| `BlockCache.Cache.Shake` | src/ext4_blockdev.c:186-211 | until the cache is below its size or all are referenced, and no further; those that go are the first in the order of use that nobody refers to; dirty ones are written first; readers see no difference, and referenced buffers and their disk blocks stay as they are |
| `BlockCache.Cache.FindGet` | src/ext4_bcache.c:208-232 | found exactly if cached; one more reference, content and flags unchanged, off the lists; with the first reference the block goes to the end of the order of use, otherwise that order stays |
| `BlockCache.Cache.Alloc` | src/ext4_bcache.c:234-268 | a referenced buffer for the block, at the end of the order of use unless somebody referred to it already; a new one has no content for readers |
| `BlockCache.Cache.GetNoread` | src/ext4_blockdev.c:213-242 | afterwards the cache is within its size or every buffer is referenced; what had to leave is first in the order of use, and the block is last unless somebody referred to it already; nothing leaves a cache that is not full; readers see no difference, and referenced buffers and their disk blocks stay as they are |
| `BlockCache.Cache.Fill` | src/ext4_blockdev.c:249-266 | a buffer without content gets that of the disk, and only then |
| `BlockCache.Cache.Get` | src/ext4_blockdev.c:244-268 | the buffer holds what a reader of the block gets; evictions and order of use as for GetNoread; other referenced buffers and their disk blocks stay as they are |
| `BlockCache.Cache.Modify` | include/ext4_bcache.h:178-181 | the view of exactly this block changes |
| `BlockCache.Cache.Put` | src/ext4_bcache.c:270-330 | readers see no difference; the last reference writes a dirty buffer or puts it on the list, as write-back and the flags say; no other buffer changes |
| `BlockCache.Cache.Pin` | include/ext4_bcache.h:189-189 | one more reference of a buffer that has one, and nothing else |
| `BlockCache.Cache.WriteDirect` | src/ext4_blockdev.c:295-307 | a write past the cache changes what a reader sees exactly if the block has no content in the cache; the cache is right afterwards if and only if there is no clean buffer with other content |
| `BlockCache.Cache.CacheFlush` | src/ext4_blockdev.c:444-456 | nothing waits any more, every unreferenced buffer agrees with the disk, and no disk block of a referenced buffer is written |
| `BlockCache.Cache.WriteBack` | src/ext4_blockdev.c:458-471 | the counter never goes below zero; turned off for the last time everything waiting is written, and no disk block of a referenced buffer |
| `BlockCache.Cache.Invalidate` | src/ext4_bcache.c:194-206 | the content of the range is forgotten, if and only if its first block is cached; other views stay |
| `BlockCache.UsesMoved` | src/ext4_bcache.c:214-219 | a new use number puts a block at the end of the order of use and leaves the others in theirs |
| `BlockCache.LowestIsOldest` | src/ext4_bcache.c:156-159 | the lowest use number among the unreferenced buffers is that of the first one in the order of use |
| `BlockCache.OlderGone` | src/ext4_blockdev.c:194-207 | evicting by number means that with a block all those went that had been used before it and nobody referred to |
| `ExtentSearch.BinsearchIdx` | src/ext4_extent.c:804-821 | the last entry whose key is not above the block, or the first one |
| `ExtentSearch.BinsearchLeaf` | src/ext4_extent.c:828-853 | the last extent that does not begin behind the block, or the first one |
| `ExtentSearch.FindExtent` | src/ext4_extent.c:855-939 | the path is the one guided by the keys, and the position in the leaf is the search position among all extents of the file |
| `ExtentSearch.GetBlock` | src/ext4_extent.c:2013-2080 | a read agrees with the finite map: the mapped block, 0 for holes and unwritten space |
| `ExtentInsert.InsertSorted` | src/ext4_extent.c:1250-1346 | inserting, appended, prepended or new, keeps the extents sorted and disjoint |
| `ExtentInsert.MergesWhileRead` | src/ext4_extent.c:1194-1247 | two extents are merged if and only if they touch in file and on disk and the 16-bit count of the merged one, its length or for an unwritten extent its length and 32768, gives back length and state |
| `ExtentInsert.InsertReads` | src/ext4_extent.c:419-440 | an insertion keeps all counts readable |
| `ExtentInsert.InsertAppends` | src/ext4_extent.c:1268-1277 | an extent is appended whenever the merged count is readable |
| `ExtentRoom.RootBytes` | src/ext4_extent.c:544-570 | the entries of the root fit into the 60 bytes of the inode, 12 for the header and 12 each, and it is full exactly if one more would not |
| `ExtentInsert.InsertIsUpdate` | src/ext4_extent.c:1194-1346 | the map gains exactly the new blocks if and only if the merge, if any, is an append of the same kind of extent |
| `ExtentInsert.PrependLosesMapping` | src/ext4_extent.c:1279-1291 | a prepend maps the new block to the old start and shifts the old blocks by one |
| `ExtentInsert.CorrectedWf` | src/ext4_extent.c:1148-1192 | a new first block at the left end of a leaf: correcting the keys upwards makes the tree well formed again |
| `ExtentRoom.UnsafeBeforeFirst` | src/ext4_extent.c:592-636 | a single new block merges wrongly exactly right before the first extent in file and on disk, and that is the block the allocator is asked for |
| `ExtentRoom.OneBlockUpdate` | src/ext4_extent.c:1250-1346 | the map changes at exactly the new block if and only if it is not such a block |
| `ExtentRoom.GrownOk` | src/ext4_extent.c:1356-1418 | growing in depth keeps all extents, all leaves on one level, and takes exactly one block |
| `ExtentRoom.KeyAbove` | src/ext4_extent.c:1006-1141 | the key of the new subtree lies above that of the entry it goes next to |
| `ExtentSplit.SplitFlat` | src/ext4_extent.c:1006-1141 | a split over any number of levels moves no extent but those after the cursor, which are those given |
| `ExtentSplit.SplitWf` | src/ext4_extent.c:1006-1141 | the split tree is well formed: keys, capacities and depth |
| `ExtentSplit.SplitUsesAll` | src/ext4_extent.c:1006-1141 | a split takes exactly one block a level |
| `ExtentSplit.SplitRightPath` | src/ext4_extent.c:1484-1492 | the path after a split to the right leads to the new leaf |
| `ExtentRoom.SplitReady` | src/ext4_extent.c:1470-1494 | after a split, whichever side the new extent goes to, there is room for it and the insertion is the one in the list of extents |
| `ExtentRoom.SplitLost` | src/ext4_extent.c:1122-1139 | when the blocks run out on the way, what is gone from a well-formed tree is exactly what was moved: the extents behind the position in the leaf and right of the path below the levels that were cut |
| `ExtentRoom.LostNone` | src/ext4_extent.c:1122-1139 | nothing is lost if and only if no block was there to begin with, or the position is the last one in the leaf and in every node that was cut |
| `ExtentRoom.NeededIs` | src/ext4_extent.c:1444-1468 | the number of blocks that room takes: the full levels from the leaf up, one more if all are full |
| `ExtentLoss.LoseExtents` | src/ext4_extent.c:1122-1139 | a file of nine extents in which a refused write of block 10 unmaps block 20 |
| `ExtentLoss.CutInHole` | src/ext4_extent.c:1721-1727 | a file of two extents that a truncation in the hole between them does not shorten |
| `ExtentRoom.InsertedOk` | src/ext4_extent.c:1250-1346 | inserting in the leaf with key correction is the insertion in the list of extents and keeps the tree well formed |
| `ExtentOps.ExtentInode.CorrectIndexes` | src/ext4_extent.c:1148-1192 | keys are corrected upwards exactly as long as the path goes through first entries |
| `ExtentOps.ExtentInode.InsertLeaf` | src/ext4_extent.c:1250-1346 | merge, insert, ask for a split, or refuse an extent that is there; the tree changes only in the first two cases |
| `ExtentOps.ExtentInode.GrowInDepth` | src/ext4_extent.c:1356-1418 | the root moves one level down into a new block, or nothing happens when there is none |
| `ExtentOps.ExtentInode.SplitNode` | src/ext4_extent.c:1006-1141 | the path is cut at the cursors from the leaf up; without blocks those taken are given back but the extents moved are lost |
| `ExtentOps.ExtentInode.GrowAndFind` | src/ext4_extent.c:1451-1468 | after growing, the search ends at the same position one level further down |
| `ExtentOps.ExtentInode.RoomLevel` | src/ext4_extent.c:1444-1456 | the first level from the leaf up that is not full, -1 if all are |
| `ExtentOps.ExtentInode.MakeRoom` | src/ext4_extent.c:1444-1495 | at most one growth and one pass of splits make room; refused if and only if fewer blocks are there than full levels need; the number of lost extents is that of the cut levels |
| `ExtentOps.ExtentInode.InsertExtent` | src/ext4_extent.c:1430-1514 | success is the insertion in the list of extents in a well-formed tree, and every metadata block is accounted for; ENOSPC if and only if the extent merges with no neighbour and the blocks are fewer than needed; then exactly the moved extents are gone, none under the exact condition of LostNone. Every 16-bit count gives back length and state afterwards if it did before, and the extent is appended whenever the merged count does |
| `ExtentOps.ExtentInode.GetBlocks` | src/ext4_extent.c:2013-2139 | creating a block changes the map at exactly that block if and only if it, with the next block of the allocator, does not lie right before the first extent in file and on disk; ENOSPC and its loss as for the insertion. Every 16-bit count gives back length and state afterwards if it did before, and the block is appended whenever the merged count does |
| `ExtentCut.KeepRestricts` | src/ext4_extent.c:1579-1685 | cutting an extent and dropping those after it restricts the map to the blocks below the cut |
| `ExtentCut.HoleRestricts` | src/ext4_extent.c:1721-1727 | leaving the file alone when the cut is in a hole is right if and only if the file ends before the cut |
| `ExtentCut.CutWf` | src/ext4_extent.c:1704-1844 | what stays of a well-formed tree is well formed or empty |
| `ExtentCut.DownStep` | src/ext4_extent.c:1784-1806 | going down a level brings the walk closer to its end and keeps what it will leave |
| `ExtentCut.UpStep` | src/ext4_extent.c:1807-1824 | leaving a node with entries keeps what the walk will leave |
| `ExtentCut.BareStep` | src/ext4_extent.c:1808-1824 | leaving a node that lost all its entries drops its own entry, so no empty node but the root stays |
| `ExtentCut.DropStep` | src/ext4_extent.c:1532-1577 | dropping an entry keeps what the walk will leave and brings it closer to its end |
| `ExtentCut.KeyStep` | src/ext4_extent.c:1558-1575 | the key passed upwards after a removal never matters to what the walk leaves |
| `ExtentCut.TargetFlat` | src/ext4_extent.c:1704-1844 | the tree the walk aims at holds exactly the kept extents |
| `ExtentOps.ExtentInode.FreeTail` | src/ext4_extent.c:1592-1664 | exactly the blocks of the dropped parts are freed, each once |
| `ExtentOps.ExtentInode.RemoveIdx` | src/ext4_extent.c:1532-1577 | the emptied block is freed once and its entry is gone |
| `ExtentOps.ExtentInode.RemoveLeaf` | src/ext4_extent.c:1579-1685 | the leaf keeps exactly the extents below the cut; blocks of data and tree are conserved |
| `ExtentOps.ExtentInode.RemoveSpace` | src/ext4_extent.c:1704-1844 | from a mapped block on: the map restricted, depth reset when nothing stays, and every data and tree block is held or freed exactly as often as before; from a hole: nothing. The map ends up restricted if and only if the block is mapped or the file ends before it. Every 16-bit count gives back length and state afterwards if it did before |
| `DirBlock.Buffer.TryInsert` | src/ext4_dir.c:580-652 | succeeds exactly if a record has room, and takes the first one that has; then one name more and all others in order, in a chain that tiles the block |
| `DirBlock.Buffer.Find` | src/ext4_dir.c:654-695 | found exactly if the name is in use in the chain, at its first record |
| `DirBlock.Buffer.Remove` | src/ext4_dir.c:527-578 | the record joins its true predecessor; one name less, all others stay |
| `DirBlock.Predecessor` | src/ext4_dir.c:551-565 | the walk stops at the record right before, so the assertion holds |
| `DirBlock.EmptyTidy` | src/ext4_dir.c:527-578 | a block that has lost all names is one unused record |
| `DirBlock.TakenTidy` | src/ext4_dir.c:580-652 | inserting leaves no unused record but possibly the first |
| `DirIndex.CollisionRange` | src/ext4_dir_idx.c:645-712 | blocks with names of a hash lie from the search position to the last block marked as continued with it |
| `DirIndex.PosInside` | src/ext4_dir_idx.c:535-636 | the searches in root and node together are one search in the whole list of blocks |
| `DirIndex.PositionAt` | src/ext4_dir_idx.c:645-712 | stepping in a node or to the next node is stepping in the whole list |
| `DirIndex.PutInNode` | src/ext4_dir_idx.c:863-884 | an entry put into a node is put into the whole list |
| `DirIndex.SplitNodeFlat` | src/ext4_dir_idx.c:1132-1192 | splitting an index node moves no entry of the whole list |
| `DirIndex.DeepenFlat` | src/ext4_dir_idx.c:1193-1225 | going from one level to two moves no entry |
| `DirSplit.SortByHash` | src/ext4_dir_idx.c:961-962 | the names sorted by hash, none lost and none added |
| `DirSplit.LoadEntries` | src/ext4_dir_idx.c:927-959 | exactly the names in use, in order |
| `DirSplit.Middle` | src/ext4_dir_idx.c:984-1000 | the first name that does not fit into half a block |
| `DirSplit.Pack` | src/ext4_dir_idx.c:1012-1039 | the names of one half, packed |
| `DirSplit.PackedOk` | src/ext4_dir_idx.c:1012-1039 | the packed records tile the block and hold exactly the names of the half |
| `DirSplit.HalvesFit` | src/ext4_dir_idx.c:984-1039 | with more than half a block of names neither half is empty, and from 2048 bytes on each has room for any name |
| `DirSplit.WriteHalves` | src/ext4_dir_idx.c:984-1039 | names that fit into a block and go over half of it: both halves can be written, the first is not empty, and it is the longest that fits into half a block |
| `DirSplit.HalfSpace` | src/ext4_dir_idx.c:1012-1039 | a written half has room for another name exactly if that fits behind its names |
| `DirSplit.HalvesRoom` | src/ext4_dir_idx.c:984-1039 | the first half has room for any name, the second from 2048 bytes on |
| `DirLoss.LoseName` | src/ext4_dir_idx.c:1325-1337 | a valid directory with blocks of 1024 bytes in which an insertion reports success and the name is not there |
| `DirLoss.CopyNames` | src/ext4_dir_idx.c:961-1039 | a valid directory in which an insertion leaves every old name in two blocks |
| `DirLoss.SearchAstray` | src/ext4_dir_idx.c:570-582 | with the third of four keys out of order every search below the fourth ends at the third, past the names of the first two blocks |
| `DirTree.NotElsewhere` | src/ext4_dir_idx.c:714-831 | a name that is in no block of its collision range is in no block of the directory |
| `DirTree.DoubledSearch` | src/ext4_dir_idx.c:961-1063 | after a split that copies all names the directory can be searched as before if and only if the index is still in order |
| `DirTree.AddInLeaf` | src/ext4_dir_idx.c:1310-1314 | a name added to a block its hash belongs to: one name more, the index still leads to every name |
| `DirTree.RemoveFromLeaf` | src/ext4_dir.c:527-578 | one name less, the index still leads to every name |
| `DirTree.SplitKeepsOrder` | src/ext4_dir_idx.c:984-1063 | the two halves belong to their places in the index, equal hashes over the border by the continued bit |
| `DirTree.SplitLeaf` | src/ext4_dir_idx.c:893-1066 | dividing a leaf changes no name of the directory and keeps the index right |
| `HashTree.SearchNode` | src/ext4_dir_idx.c:570-582 | the binary search ends where halving the range by comparison leads, and at the search position if the node is in order |
| `HashTree.SearchedPos` | src/ext4_dir_idx.c:570-582 | in a node whose keys are in order that is the position of the hash; out of order the search ends where its halving leads |
| `HashTree.LimitsInBytes` | src/ext4_dir_idx.c:402-414 | the limits in the headers are what a block holds: 8 bytes an entry behind 32 bytes of the root or 8 of a node |
| `HashTree.IndexBytes` | src/ext4_dir_idx.c:1085-1115 | in every valid tree 32 bytes and 8 for each entry of the root are within the block, and 8 bytes and 8 for each entry of a node |
| `HashTree.HashTree.GetLeaf` | src/ext4_dir_idx.c:535-636 | the leaf found is at the search position in the whole list of leaf blocks, for one level and two |
| `HashTree.HashTree.NextBlock` | src/ext4_dir_idx.c:645-712 | the next leaf of the list, exactly if it goes on with the hash |
| `HashTree.HashTree.FindEntry` | src/ext4_dir_idx.c:714-831 | a name is found exactly if a linear scan of all leaf blocks finds it, in every directory whose index is in order and leads to some block with each name |
| `HashTree.HashTree.InsertIndex` | src/ext4_dir_idx.c:863-884 | the entry goes right behind the position of the path |
| `HashTree.HashTree.SplitIndex` | src/ext4_dir_idx.c:1074-1229 | room in the node, the list of leaf blocks and the position unchanged; a node or root is split, with one block more, exactly if another entry of 8 bytes would not fit into its block, and refused exactly if that holds for the node and the root of a two-level tree |
| `HashTree.HashTree.HalveLeaf` | src/ext4_dir_idx.c:893-1066 | with more than half a block of names the halves keep all names and the order; otherwise all names are in both blocks |
| `HashTree.HashTree.SplitData` | src/ext4_dir_idx.c:893-1066 | the same with the entry of the new block in the index |
| `HashTree.HashTree.InsertInHalf` | src/ext4_dir_idx.c:1325-1337 | the name goes into the half its hash belongs to, exactly if it fits behind the names there; the result is not looked at |
| `HashTree.HashTree.AddEntry` | src/ext4_dir_idx.c:1231-1363 | refused without change if and only if in both index blocks on the path of two levels another entry of 8 bytes would not fit; an index block is split if and only if another entry would not fit into it, and each holds its entries afterwards; otherwise one name more, except, with the block divided, if and only if the name does not fit into its half; and with at most half a block of names all of them are in two blocks afterwards, and lookups agree with a scan still exactly if the divided block is the first or its key is not above the new one, 0 or 1 |
| `HashTree.HashTree.RemoveEntry` | src/ext4_dir.c:527-578 | found exactly if a linear scan finds the name; then exactly one such name less |
| `Bitmap.BitsFree` | src/ext4_bitmap.c:45-88 | exactly the bits of the range are cleared, in the bit, byte and tail phases |
| `Bitmap.BitFindClr` | src/ext4_bitmap.c:90-158 | found exactly if a bit of the range is clear; the first clear bit is reported, except that one before the first whole byte is reported as the start |
| `Bitmap.FindIsRight` | src/ext4_bitmap.c:100-110 | the report is the first clear bit if and only if that is not strictly between the start and the first whole byte; otherwise the reported bit is set |
| `Bitmap.CountRange` | src/ext4_bitmap.c:45-88 | clearing a range adds as many clear bits as were set in it |
| `Bitmap.MarkBitmapEnd` | src/ext4_fs.c:272-284 | the bits from the start up to the last whole byte of the range are set, and no others change |
| `Bitmap.MarksAll` | src/ext4_fs.c:272-284 | that is all of the range if and only if it ends with a byte, or in the byte it begins in |
| `Balloc.InitBlockBitmap` | src/ext4_fs.c:290-380 | in a new bitmap exactly the blocks at the head of the group, those of bitmaps and inode table, and everything behind the group are in use: the padding that the allocator relies on |
| `Balloc.GroupBlocks` | src/ext4_fs.c:335-348 | the group size that the padding is computed from is the true one, other than the size the allocator counts with |
| `Balloc.AddrRoundTrip` | include/ext4_fs.h:94-117 | index and group to address and back is the identity if and only if the address fits into 32 bits |
| `Allocator.RelIs` | include/ext4_fs.h:94-101 | group and index of a block are quotient and remainder of its number from the first data block on |
| `Balloc.BlockAt` | src/ext4_balloc.c:61-84 | every block of the device has a place in a group, and that place leads back to it |
| `Balloc.GroupSizes` | src/ext4_super.c:51-74 | the number of blocks the code counts in a group is never below the true one |
| `Balloc.LastGroup` | src/ext4_super.c:51-74 | in the last group it is too large by exactly the first data block |
| `Balloc.NoneInGroup` | src/ext4_fs.c:272-372 | with the padding bits set a group without a clear bit among the counted blocks has no free block |
| `Balloc.FlipOk` | src/ext4_balloc.c:152-231 | bitmaps and the counters of group and file system still agree after one flipped bit if and only if it was the other way before |
| `Balloc.AllFreedOk` | src/ext4_balloc.c:233-350 | after a freed range the counters agree if and only if all its blocks were in use; exactly the blocks of the range become free |
| `Allocator.PrefixSearched` | src/ext4_balloc.c:427-451 | the near search has been over the bits before the first whole byte, so the faulty report cannot happen |
| `Allocator.FreeUndoesAlloc` | src/ext4_balloc.c:152-231 | freeing a block just allocated restores every bitmap and group counter |
| `Allocator.FreeUndoesAllocs` | src/ext4_balloc.c:233-350 | freeing a range restores every bitmap and group counter to what they were before its blocks were allocated, in whatever order |
| `Allocator.ShortGroups` | src/ext4_balloc.c:270-285 | a device of two short groups, all in use: freeing all blocks at once is outside the condition of FreeBlocks |
| `Allocator.ShortRange` | src/ext4_balloc.c:270-285 | a range no longer than the rest of the bitmap of its first group: only the blocks of that group become free, the others of the range stay in use |
| `Allocator.Allocator.SearchNear` | src/ext4_balloc.c:409-464 | the first clear bit of the group from the goal on, and none exactly if there is none |
| `Allocator.Allocator.SearchGroup` | src/ext4_balloc.c:511-534 | the first clear bit of the group; none only if its counter is zero |
| `Allocator.Allocator.TryOthers` | src/ext4_balloc.c:479-583 | the first free block of the next group in turn that has one, round up to the first; ENOSPC only if no group has one |
| `Allocator.Allocator.AllocBlock` | src/ext4_balloc.c:352-583 | ENOSPC exactly if the file system is full; otherwise only one bit set, and the three counters moved by one block: that of the first free block from the goal on in its group if there is one, and of the first free block of the next group in turn that has one if not |
| `Allocator.Allocator.TryAllocBlock` | src/ext4_balloc.c:585-665 | taken exactly if it was free, with the counters |
| `Allocator.Allocator.FreeBlock` | src/ext4_balloc.c:152-231 | the counters stay right if and only if the block was in use |
| `Allocator.Allocator.FreeInGroup` | src/ext4_balloc.c:259-327 | one round clears the bits from the block on up to the end of the bitmap, or as many as are left, and moves the three counters by their number |
| `Allocator.Allocator.FreeGroups` | src/ext4_balloc.c:259-330 | each round is described by where it begins and how many bits it clears, and no block is left over at the end, as the assertion says |
| `Allocator.Allocator.FreeBlocks` | src/ext4_balloc.c:233-350 | consistent if and only if all blocks were in use and groups are as long as their bitmaps or the range lies in one group; then exactly the blocks of the range become free. In any case exactly those become free whose bit the round of their group clears; the counters always move by their number |
| `Allocator.Allocator.FreeAllocated` | src/ext4_balloc.c:233-350 | blocks that were allocated one by one and make up a range: giving them back at once restores bitmaps and counters |
| `IndirectTree.DigitsDiffer` | src/ext4_fs.c:1403-1456 | different blocks have different ways through the tables |
| `IndirectTree.DigitsOnto` | src/ext4_fs.c:1403-1456 | every way through the tables is that of some block |
| `IndirectTree.LookupSet` | src/ext4_fs.c:1475-1638 | what a changed subtree does to the map: the blocks below it, and no others |
| `IndirectTree.NoDataIs` | src/ext4_fs.c:933-1047 | a tree maps nothing if and only if it has only tables |
| `IndirectMap.OneDown` | src/ext4_fs.c:1515-1638 | one table further on the way the same tables are missing and the same number has been allocated |
| `IndirectMap.MapChange` | src/ext4_fs.c:92-103 | a change of one block in one tree changes the map at exactly one logical block, over all four levels |
| `IndirectMap.Reach` | src/ext4_fs.c:92-103 | 12 direct blocks, and with n pointers in a block n, n * n and n * n * n more over one, two and three levels |
| `IndirectMap.WayInNumbers` | src/ext4_fs.c:1403-1456 | the pointers on the way to a logical block are the digits of its number to the base n behind the blocks that are reached with fewer levels |
| `IndirectMap.BeginsBefore` | src/ext4_fs.c:1224-1225 | a file of so many bytes takes exactly the blocks that begin before its end |
| `IndirectMap.IndirectInode.GetBlock` | src/ext4_fs.c:1345-1457 | the mapped block or 0, and EIO exactly beyond the reach of three levels |
| `IndirectMap.IndirectInode.SetIndirect` | src/ext4_fs.c:1515-1638 | one block of one tree set, tables allocated on the way one by one; it fails exactly if more are missing than there are blocks, and then the map is as before and no block is lost |
| `IndirectMap.IndirectInode.SetBlock` | src/ext4_fs.c:1475-1638 | reading j after setting i gives the new address if i = j and the old one otherwise; ENOSPC exactly if more tables are missing on the way than there are blocks, EIO exactly beyond three levels; every block is accounted for |
| `IndirectMap.IndirectInode.ClearIndirect` | src/ext4_fs.c:1118-1170 | exactly the one mapping is cleared and the block it named returned |
| `IndirectMap.IndirectInode.ReleaseBlock` | src/ext4_fs.c:1078-1176 | the block is no longer mapped, all others are, and what was used is handed back |
| `IndirectMap.IndirectInode.Truncate` | src/ext4_fs.c:1178-1259 | exactly the blocks that begin at the new end or behind it, and before the old end, are unmapped, in bytes, and each is handed back as often as it was used |
| `IndirectMap.IndirectInode.FreeTables` | src/ext4_fs.c:947-1047 | every table of the three trees is handed back once; if nothing is mapped any more that is every block the inode uses |
| `IndirectMap.IndirectInode.Dispose` | src/ext4_fs.c:933-1259 | truncating to nothing and freeing the inode hands back every data block and table exactly as often as it was in use |
| `XattrLayout.SpaceInBytes` | src/ext4_xattr.c:64-73 | 32 bytes of header and 4 behind the entries; an attribute takes 16 with its name and its value, both up to a multiple of four |
| `XattrLayout.PackedSizes` | src/ext4_xattr.c:324-340 | in a packed block the lowest offset and the sizes of the values add up to the block |
| `XattrLayout.ClosedPacked` | src/ext4_xattr.c:358-390 | closing the gap of a removed value leaves the values packed |
| `XattrLayout.ClosedApart` | src/ext4_xattr.c:358-390 | and disjoint |
| `XattrLayout.PutLaid` | src/ext4_xattr.c:393-430 | a value put below the others keeps entries, values and terminator apart |
| `XattrBlock.GoneGet` | src/ext4_xattr.c:356-391 | taking a value out, with the bytes moved and the offsets shifted: all other attributes keep their values |
| `XattrBlock.AddedGet` | src/ext4_xattr.c:393-430 | a new value: it reads back, and all other attributes keep theirs |
| `XattrBlock.GoneClear` | src/ext4_xattr.c:375-387 | empty values keep offset zero if and only if no value was moved over them: the offset of an empty value counts as below every other |
| `XattrBlock.LaidChecked` | src/ext4_xattr.c:506-565 | a block laid out by this code passes the validity check if and only if empty values have offset zero |
| `XattrBlock.EmptyValueBreaks` | src/ext4_xattr.c:375-387 | removing one attribute beside an empty one leaves a block that the next check refuses |
| `XattrBlock.Block.constructor` | src/ext4_xattr.c:676-690 | an empty valid block |
| `XattrBlock.Block.IsBlockValid` | src/ext4_xattr.c:506-565 | true exactly if header, offsets, sizes and entries pass all checks |
| `XattrBlock.Block.FindEntry` | src/ext4_xattr.c:465-496 | found exactly if the attribute is there, at its entry |
| `XattrBlock.Block.DropValue` | src/ext4_xattr.c:356-391 | bytes moved up by memmove, gap zeroed, offsets shifted: the state without the value |
| `XattrBlock.Block.PutValue` | src/ext4_xattr.c:393-448 | the attribute has its new value or is gone, all others stay, values stay disjoint and packed |
| `XattrBlock.Block.SetEntry` | src/ext4_xattr.c:311-448 | setting, replacing or removing is a map update; ENOSPC exactly if header, entries and values would not fit into the block; the block stays valid if and only if no non-empty value was taken out beside an empty one |
| `XattrBlock.Block.BlockSet` | src/ext4_xattr.c:715-735 | through the validity check: EIO exactly after an empty value has lost its place; otherwise the map update, ENOSPC exactly if it does not fit, and the block stays valid if and only if no non-empty value was taken out beside an empty one |

## Left out

- JournalTheorems.CrashAndRecover: for orderly runs, that is without the unsynced purge, which `JournalBehind.RecoverBehind` covers, and with block images copied from the log that do not begin with the magic; log and home writes in the order issued.
- JournalTheorems.NextSession: when the superblock on disk was behind revoke-only transactions whose log blocks had been used again, whether the next session is sound is left to the condition of StartOk.
- JournalBehind.RecoverBehind: a crash inside a commit that has replaced blocks of the transactions named on disk, but not the first of them, is left to the run of `JournalMix.WrongReplay`.
- JournalOps.Journal.CommitTrans: the image is encoded first and logged afterwards, where the code does both in one pass in the same order; an image as long as the log, on which the assertion at src/ext4_journal.c:1468 fails, is refused beforehand.
- JournalOps.Journal.FlushTrans: assumes that committed block images do not begin with the magic; so do AllocBlock, CommitTrans, AbortTrans and Stop, which rest on it. A walk that would go on at a freed element goes on as it was meant to.
- JournalOps.Journal.EndWrite: of a block record the owner is kept, its queue of dirty buffers is read off the checkpoint queue; two buffers of one block in one transaction end together.
- JournalOps.Journal.DropClean: the records of clean buffers are given back before the image is written, where the code does it in the middle of the queue.
- JournalCache.Session.CheckpointFromLog: log blocks are written past the cache, and the journal side of a session is the state of the step system; a session goes on only from a cache that agrees with the disk.
- JournalLoss.CommitLost: a run of the step system on a tiny log, since the contracts of the calls do not fix the order of the steps within a call; so are JournalMix.WrongReplay, JournalRound.GoesRound and JournalAgain.ReplaysOld.
- JournalProtocol: log blocks of a commit may reach the disk in any order before the commit block as long as a descriptor follows its data, more than the code does.
- HashTree.HashTree.AddEntry: after a split with at most half a block of names the names and the lookups are described, but not later insertions and removals, which rest on each name being in one block; the new key depends on the word in memory before the sorted array.
- ExtentOps.ExtentInode.InsertExtent: when a merge loses mappings the list of extents is stated but not that the tree is well formed.
- ExtentOps.ExtentInode.RemoveSpace: up to EXT_MAX_BLOCKS, as its only caller passes; the branch for the middle of an extent is not reached.
- Allocator.Allocator.AllocBlock: the goal lies on the device.
- IndirectMap.IndirectInode.Truncate: for regular files and directories, not for a link kept in the inode; the block counts are not cut to 32 bits.
- BlockCache.Cache.FlushBuf: without callbacks, which JournalOps.Journal.FlushBuf has for journal buffers, and without I/O errors; the reader-count branch at src/ext4_bcache.c:288 is left out, and the use counter does not wrap.
- XattrBlock.Block.SetEntry: entries are a list, whose bytes and hashes are not modelled; the bytes of the values are.
- Nodes of extent, indirect and directory trees are values: aliasing between buffers of one tree is not captured.
- Checksums of metadata and journal, and the tail records and limits that go with them.
- The special case for block 0 of the file system in replay, and wrap-around of 32-bit transaction ids beyond `JournalRecovery.TransIdDiffExact`.
- Creating, zeroing and splitting unwritten extents (src/ext4_extent.c:1846-1986); `ExtentInsert.InsertIsUpdate` covers their merging.
- The linear form of directories, the dot entries of the root of an index, and names of an older directory revision.
- In-inode and shared attribute blocks.
- Inode allocation, which repeats the argument of the block allocator; mkfs, partition tables, path walking, mount tables and the device drivers.
