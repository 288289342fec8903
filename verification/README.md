# Verification of two log-structured stores

This project models, and proves properties of, the two independent stores of the repository.

**The store under `scratch/`** keeps recent writes in a binary tree backed by a write-ahead log. A
full tree is set aside as the *reserve* and written, by a background `adjust`, into a ring of ten
sorted files; the same adjust merges the two oldest files. A read looks, newest first, into the
live tree, the reserve and the ten files, behind a Bloom filter. The main claims:

* on every interleaving of writes, tree swaps, single adjust steps and lock-split reads, the
  layers together answer like one map, and a read returns a value (or absence) its key had at some
  moment of the read, unless the files folded by adjusts pass it unseen; beside a single adjust
  that cannot happen, and where it does happen to a key with one copy the read is wrong; a run from
  a booted store shows that it does happen;
* a finished adjust changes no answer; restarting from files and logs restores the map under an
  exact condition, wherever the boot starts; header stamps stay ordered over whole runs and through
  restarts, so the boot scan finds the newest file exactly when the stamps allow it;
* the code underneath, in its own imperative form, computes what those claims build on: the heap
  tree, its dump with an explicit stack, log replay, the five-loop merge, binary search through
  the LRU block cache, the Bloom filter, the ring scan, and the class `Master` that ties them
  together, down to a read that goes through the cache and answers like the map.

**The lsm3 index under `pglsm-docker/lsm3`** stores into one of two small top indexes; a background
merger copies the other one into a large base index and truncates it. The main claims:

* with any number of inserters and manual requests, a merge has its index to itself, no tuple is
  lost or invented, no merge is forgotten, a merge in progress can always be finished, and the
  64-bit merge counter tells exactly whether a swap happened, wrap-around included;
* a three-way scan hands out the union in strict order without duplicates, in both directions and
  for every visiting order; turned around in mid-scan it goes on rightly exactly when no other
  index has a tuple in front and the next one back lies in its own index, and a scan on which it
  does not is shown; the unique-lookup shortcut agrees with the full scan exactly when the first
  index with a match holds every match;
* looking at the active top index, then the other one, then the base misses nothing, however much
  the merger moves in between; looking at the base first can miss a tuple that is there all along.

## Files

| file | content |
|---|---|
| Entries, SortedEntries | keys, values, deletion marks; strictly ascending entry lists |
| MergeFiles, Ring | sorted files, the merge; the ring of ten, its rotation, the boot scan |
| Log, BinaryTree | the write-ahead log and its replay; the tree on the heap |
| BlockCache, Read, FileRead, DumpRead, Bloom | the block cache; the search through it; the look at one file; a dump read back; the filter |
| Store, Master | the store as a value and what each critical section does to it; the class that does it in place |
| Machine, Reads, Overtaken | all interleavings; when a lock-split read is right; when it is not |
| Recovery, Stamps, Witness | restarting; header stamps over runs and restarts; two runs on which the store fails |
| Lsm3Control, Lsm3Protocol, Lsm3Index | the shared entry; all interleavings; the index run in place |
| Lsm3Order, Lsm3Cursors, Lsm3Turning, Lsm3Scan, Lsm3Visiting | the tuple order; the three streams; turning around; the scan; looking at indexes that change |

## Reading the model

A key is the natural number its eight 64-bit words spell; `Entries.KeyLess` proves that the
source's word loop decides exactly that order. A value is a byte string, and one made of 0xFF bytes
is a deletion mark. Answers are compared by `Entries.Live`, which reads a mark as absence, because
`merge_files` drops marks; `Reads.ReadIsExact` gives the byte-exact form for stores into which no
mark is written. Times in file headers are natural numbers.

Where code and comments disagree, the code is followed: `dump` does not empty the tree; `fread`
reports the bytes copied on a hit and the bytes fetched on a miss; `closeFile` writes nothing back;
the test `this-reserve->size == 0` in the swap block is reached only when `reserve` is not null and
is an address comparison that does not hold, so the block asks for `reserve == NULL`; `delete
reserve` leaves the tree's nodes unfreed; `del` stores 0xFF bytes, not zeros.

While a read goes from newer to older files, each finished adjust moves every file one place
towards the read and folds the two oldest into one. `Reads.Loses` names the three steps by which
the folded file passes a read unseen: the read looks at the second oldest file just when that is
emptied and its copy holds the key; it waits at the oldest file when that is overwritten, and the
merged one holds the key; or it finds in the oldest file, already merged, a value that the merge
has dropped under a deletion mark. Whether a read that loses its place is wrong depends on what
else the files and writes hold for its key; for a key with no other copy that is not written
meanwhile it always is, until the ring has come all the way round.

## Model

| member | source | states |
|---|---|---|
| Entries.KeyLess | scratch/include/master.hpp:25-37 | the word-by-word comparison is true exactly when the number a spells is below the number b spells; the first word that differs decides |
| Entries.NumInjective | scratch/include/master.hpp:21-23 | keys of equal length spell the same number only if they are the same words |
| Entries.TombLoop | scratch/include/Core/Merge.hpp:20-32 | the byte loop finds exactly the values made of 0xFF bytes alone |
| Entries.TombUnique | scratch/include/Core/Merge.hpp:11-32 | a value of the full value size is a deletion mark in exactly one way, the one `del` stores |
| SortedEntries.PutFind | scratch/include/RBTree/rbtree.hpp:252-278 | storing v under k changes the answer for k to v and no other answer |
| SortedEntries.PutAscending | scratch/include/RBTree/rbtree.hpp:252-278 | storing keeps strict key order, and the list grows exactly when the key is new |
| MergeFiles.Merge | scratch/include/Core/Merge.hpp:43-197 | the output is the merged file under the time stamp of the second oldest file, both inputs are read to end of file, whichever loop meets an end first |
| MergeFiles.FiveLoops | scratch/include/Core/Merge.hpp:86-194 | whatever is buffered and unread in the two inputs, the five loops together write exactly its merge |
| MergeFiles.Compare | scratch/include/Core/Merge.hpp:88-132 | the comparing loop leaves with one input at its end, and output plus what is still unread merge to the same as before |
| MergeFiles.MergeRound | scratch/include/Core/Merge.hpp:91-126 | one round keeps output-plus-merge-of-the-rest and consumes at least one entry |
| MergeFiles.DrainOlder | scratch/include/Core/Merge.hpp:134-147 | copies what is left of the older input without its deletion marks, and ends at end of file |
| MergeFiles.DrainNewer | scratch/include/Core/Merge.hpp:149-162 | the same for the newer input |
| MergeFiles.DrainBoth | scratch/include/Core/Merge.hpp:165-194 | with one input at its end, both draining loops write the merge of the rest |
| MergeFiles.MergedAscending | scratch/include/Core/Merge.hpp:86-194 | the merge of strictly ascending inputs is strictly ascending |
| MergeFiles.MergedFind | scratch/include/Core/Merge.hpp:86-194 | the merged file answers each key as the older map overridden by the newer one, deletions gone |
| MergeFiles.MergedTells | scratch/include/Core/Merge.hpp:20-194 | in so many words: a key has its answer in the newer file, or else the one in the older, unless that is all 0xFF bytes |
| MergeFiles.MergedUnique | scratch/include/Core/Merge.hpp:86-194 | any strictly ascending file with those answers is this very file |
| MergeFiles.MergedEntries | scratch/include/Core/Merge.hpp:86-194 | every entry written comes from an input and is no deletion mark |
| Log.LogRoundTrip | scratch/include/RBTree/rbtree.hpp:206-299 | for any sequence of inserts and deletes, replaying the log they leave rebuilds exactly the contents they made |
| Log.ReplayAppend | scratch/include/RBTree/rbtree.hpp:157-190 | a sync record makes the replay start afresh; any other record is applied to the replay so far |
| Log.ApplyTwice | scratch/include/RBTree/rbtree.hpp:173-187 | applying a record twice in a row is the same as once, so the extra round of the feof loop is harmless |
| Log.UnsyncedSplit | scratch/include/RBTree/rbtree.hpp:161-171 | when position i follows a sync record, or is the start, and no sync comes after, what counts is the log from i on |
| Log.ReplayAscending | scratch/include/RBTree/rbtree.hpp:122-191 | a replay is strictly ascending whatever the log holds |
| Log.ReplayKeys | scratch/include/RBTree/rbtree.hpp:161-187 | a replay holds exactly the keys with a write record after the last sync; a delete record alone brings no key back |
| BinaryTree.Tree.constructor | scratch/include/RBTree/rbtree.hpp:66-70 | a new tree is empty and opening its log empties that file |
| BinaryTree.Tree.Descend | scratch/include/RBTree/rbtree.hpp:217-239 | the pointer loop ends at the node where the descent for k stops, null only for an empty tree |
| BinaryTree.EndFinds | scratch/include/RBTree/rbtree.hpp:217-249 | in an ordered tree that node carries k exactly when the tree holds k, with its value |
| BinaryTree.Tree.Search | scratch/include/RBTree/rbtree.hpp:242-249 | returns the node that carries k with the value the contents give it, and null exactly when k is absent |
| BinaryTree.Tree.Insert | scratch/include/RBTree/rbtree.hpp:252-278 | contents become the old ones with k set to v, pointers stay an ordered tree without sharing, only new nodes are added, one write record is logged |
| BinaryTree.Tree.Place | scratch/include/RBTree/rbtree.hpp:264-274 | hanging a node under the stopping node, or replacing its value, sets k to v and nothing else, and counts a new node only for a new key |
| BinaryTree.HookedLinked | scratch/include/RBTree/rbtree.hpp:264-274 | after that one pointer or value change the pointers spell the attached shape, nothing moved and nothing shared |
| BinaryTree.AttachPuts | scratch/include/RBTree/rbtree.hpp:252-278 | the in-order entries of the attached shape are the old ones with k set to v |
| BinaryTree.AttachOrdered | scratch/include/RBTree/rbtree.hpp:252-278 | the attached shape is a binary search tree again |
| BinaryTree.Tree.SizeCountsKeys | scratch/include/RBTree/rbtree.hpp:47 | size is the number of distinct keys held |
| BinaryTree.Tree.Delete | scratch/include/RBTree/rbtree.hpp:286-299 | a key that is there gets 64 bytes of 0xFF and a delete record; a missing one gives -1 and changes and logs nothing; the log still stands for what was written since the last dump |
| BinaryTree.Tree.Mark | scratch/include/RBTree/rbtree.hpp:293-294 | marking a node in place sets its key to the deletion mark and changes no other answer |
| BinaryTree.Tree.LogAction | scratch/include/RBTree/rbtree.hpp:206-214 | appends one record, or nothing without a log file, and leaves the tree alone |
| BinaryTree.Tree.Walk | scratch/include/RBTree/rbtree.hpp:341-372 | the explicit-stack loop ends and writes every node once, in order of the tree |
| BinaryTree.Tree.PopNext | scratch/include/RBTree/rbtree.hpp:361-371 | popping writes the next entry in order and leaves the rest pending |
| BinaryTree.Tree.PushSpine | scratch/include/RBTree/rbtree.hpp:342-346 | pushing a node and its left chain puts its whole subtree in front of what is pending |
| BinaryTree.Tree.Dump | scratch/include/RBTree/rbtree.hpp:337-383 | the file is the time stamp and the contents in ascending order, the tree keeps its contents, a sync record is logged |
| BinaryTree.Tree.FreeNodes | scratch/include/RBTree/rbtree.hpp:386-400 | every node is deleted exactly once |
| BinaryTree.Tree.PopFree | scratch/include/RBTree/rbtree.hpp:393-400 | the one node a round reads is not among those already deleted; it takes its place with its children |
| BinaryTree.Tree.Free | scratch/include/RBTree/rbtree.hpp:386-406 | afterwards the tree is empty with size 0, every node deleted once |
| BinaryTree.Tree.ScanBack | scratch/include/RBTree/rbtree.hpp:161-171 | reading backwards stops right behind the last sync record, or at the start; the buffer holds a sync if nothing follows it |
| BinaryTree.Tree.FromFile | scratch/include/RBTree/rbtree.hpp:122-191 | the contents become the replay of the file, which is unchanged; a tree asked to load its own log moves its log elsewhere first |
| BinaryTree.Tree.Forward | scratch/include/RBTree/rbtree.hpp:173-187 | the feof loop, last record applied twice included, builds the fold of the records behind the last sync |
| BinaryTree.Tree.Rebuild | scratch/include/RBTree/rbtree.hpp:147-190 | whatever the tree held before, it then holds the replay of the file |
| BinaryTree.Reload | scratch/include/RBTree/rbtree.hpp:66-299 | whatever inserts, deletes and dumps a tree has seen, a tree loaded from its log has its answer for each key written since the last dump, and no other key |
| BlockCache.FileIO.constructor | scratch/src/BufferManager/FileIO.cpp:149-152 | at the start no block is labelled and the list is empty |
| BlockCache.FileIO.OpenFile | scratch/src/BufferManager/FileIO.cpp:9-16 | hands out the lowest descriptor not in use, reused ones included |
| BlockCache.FileIO.CloseFile | scratch/src/BufferManager/FileIO.cpp:18-37 | exactly the blocks of that file are unlabelled, list and map follow, the descriptor is free again |
| BlockCache.FileIO.Fread | scratch/src/BufferManager/FileIO.cpp:56-100 | up to the end of the block the bytes returned are the file bytes at that offset, over any history of opens, reads, evictions, closes and descriptor reuse; the block read ends up most recently used; a hit changes no block and reports the bytes asked for, a miss the bytes of the block that the file has |
| BlockCache.FileIO.ReadMiss | scratch/src/BufferManager/FileIO.cpp:81-99 | a miss fetches the block into a free or evicted slot, copies the file bytes out of it, up to the end of the block, and reports how many bytes of that block the file has |
| BlockCache.FileIO.AllocateBlock | scratch/src/BufferManager/FileIO.cpp:102-120 | returns a slot holding nothing, now first in the list; one is evicted only when none is free, and then the least recently used |
| BlockCache.FileIO.EvictLRU | scratch/src/BufferManager/FileIO.cpp:122-140 | the slot given up was used before every other occupied slot, and only it is unlabelled |
| BlockCache.FileIO.Fetch | scratch/src/BufferManager/FileIO.cpp:83-94 | labelling a free slot with a block read from the file keeps every labelled block a copy of its file and no block cached twice |
| BlockCache.EraseAgrees | scratch/src/BufferManager/FileIO.cpp:74-76 | erasing through the stored iterator takes out that slot and no other, and list and map still agree |
| BlockCache.PushAgrees | scratch/src/BufferManager/FileIO.cpp:116-117 | pushing an unlisted slot in front keeps list and map in agreement |
| BlockCache.BackIsLeast | scratch/src/BufferManager/FileIO.cpp:124 | the back of the list is the slot whose last use is the oldest |
| Read.FindEntry | scratch/include/Core/Read.hpp:18-56 | the binary search over the cached file gives exactly the answer of the entries behind the header, for every key |
| Read.ReadsStayInBlock | scratch/include/Core/Read.hpp:35-49 | if the entry size divides the block size, neither the key nor the value of any slot crosses a block edge |
| Read.DecodeEncode | scratch/include/RBTree/rbtree.hpp:359-365 | reading back the bytes a dump writes for a header and entries gives exactly those entries |
| Read.EncodeLays | scratch/include/RBTree/rbtree.hpp:359-365 | behind the header, entry i of a dump lies i + 1 slots on, its key before its value |
| FileRead.LookFile | scratch/src/master.cpp:41-48 | opening a file, searching it through the cache and closing it again gives the answer of its entries; all other files stay open as they were |
| FileRead.BytesTell | scratch/include/RBTree/rbtree.hpp:337-383 | the bytes of a sorted file, an emptied one included, decode to its entries |
| DumpRead.FindBoth | scratch/include/RBTree/rbtree.hpp:337-383 | for every key the search in the file a dump has written, through the cache, and the search in the tree come to the same answer and value |
| Bloom.BloomFile.Set | scratch/include/Bloom/bloom.hpp:101-117 | marks the three positions of the key (see `Bloom.PiecesSpell`) and no others, in memory and in the file |
| Bloom.BloomFile.Get | scratch/include/Bloom/bloom.hpp:119-130 | true exactly when all three positions of the key are marked |
| Bloom.BloomFile.SetBit | scratch/include/Bloom/bloom.hpp:110-114 | marks one position and no other; memory and file stay equal though an unchanged byte is not written |
| Bloom.BloomFile.Load | scratch/include/Bloom/bloom.hpp:71-82 | a reloaded filter has exactly the marks that were saved |
| Bloom.BloomFile.constructor | scratch/include/Bloom/bloom.hpp:82-99 | a fresh filter has no position marked, or every one |
| Bloom.NoFalseNegatives | scratch/include/Bloom/bloom.hpp:101-130 | a key once set is still found after any later sets |
| Bloom.FirstWordOf | scratch/include/Bloom/bloom.hpp:105 | the bits are taken from the key word that lies first in memory |
| Bloom.PiecesSpell | scratch/include/Bloom/bloom.hpp:105-108 | the positions are the three low 16-bit pieces of that word: with a fourth piece above them they spell it |
| Bloom.MarkedByte | scratch/include/Bloom/bloom.hpp:110-126 | position s is marked exactly when byte s / 8, divided by 2 to the power s % 8, is odd |
| Ring.AdjustKeepsAnswers | scratch/src/master.cpp:153-233 | for every key, reserve in front of the ring before an adjust answers as the ring alone after it, marks read as absence; byte for byte exactly when the merge drops no mark that was the answer |
| Ring.AdjustRotates | scratch/src/master.cpp:163-213 | seen from the new recent index every file has aged by one, the dump is newest, and the two oldest are one |
| Ring.AdjustKeepsComplete | scratch/src/master.cpp:153-233 | all ten files are again stamped and strictly sorted |
| Ring.AdjustKeepsStamps | scratch/src/master.cpp:187-213 | with a clock that does not run backwards, header stamps stay ordered by age |
| Ring.ScanRecent | scratch/src/master.cpp:270-295 | finds the first slot whose successor carries an earlier stamp, else the last slot; up to there stamps do not fall |
| Ring.ScanFindsRecent | scratch/src/master.cpp:248-295 | on ordered stamps the scan finds the newest file exactly when the oldest stamp is strictly earlier than the newest, or the newest file is in the last slot |
| Store.AdjustSteps | scratch/src/master.cpp:153-233 | the steps of an adjust together merge two files, dump the reserve, turn the ring, drop the reserve and empty the other log, and change nothing else |
| Store.AdjustTells | scratch/src/master.cpp:153-233 | place by place: the reserve under the time of the dump in the slot of the oldest file, a file with the stamp of the second oldest in that one's slot, the other eight as they were, the log that is not live empty and the live one as it was |
| Store.WriteTells | scratch/src/master.cpp:71-86 | after a write the key has the value and no other key has changed, one record is in the live log, the filter has just the key's positions more |
| Store.AnswerTells | scratch/src/master.cpp:4-69 | the layers answer absent if the filter denies the key, else as the tree, else as the reserve, else as the youngest of the ten files that has the key |
| Master.Master.DbWrite | scratch/src/master.cpp:71-86 | a write puts the pair into the live tree, its record into the current log and its marks into the filter, and leaves everything else as it was |
| Master.Master.DbRead | scratch/src/master.cpp:4-69 | run alone, through the block cache and whatever that holds, returns the answer of the layers in order, filter, live tree, reserve, ten files from newest to oldest, and so the answer of the map the store stands for; only the cache changes |
| Machine.AnswersLikeMap | scratch/src/master.cpp:4-69 | with no adjust at work, the answer of the layers is that of the map of all writes, deletion marks read as absence |
| Machine.LoneRead | scratch/src/master.cpp:4-69 | run alone, the steps the interleavings are made of return the answer of the layers, as `DbRead` does |
| Master.Master.LookInMemory | scratch/src/master.cpp:18-36 | under the memory lock the live tree decides before the reserve |
| Master.Master.LookUnlocked | scratch/src/master.cpp:40-49 | the first ring loop opens, searches and closes exactly the eight newest files in order and gives the first answer |
| Master.Master.LookLocked | scratch/src/master.cpp:54-67 | the second ring loop does so with exactly the two oldest files, the younger one first |
| Master.Master.MaybeSwap | scratch/src/master.cpp:135-148 | with at least 1024 keys and no reserve the tree is set aside and an empty one starts on the other, emptied log; otherwise tree, reserve and log stay |
| Master.Master.CopyOldest2 | scratch/src/master.cpp:160-168 | the temporary file becomes a copy of the second oldest file |
| Master.Master.ClearOldest2 | scratch/src/master.cpp:171 | the second oldest file is emptied and nothing else changes |
| Master.Master.MergeOldest | scratch/src/master.cpp:181-204 | the second oldest slot holds the merge of its copy with the oldest file, and the temporary file is empty again |
| Master.Master.DumpReserve | scratch/src/master.cpp:206-209 | the oldest slot holds the reserve in order under the current time; only the reserve's own log notes the sync |
| Master.Master.Publish | scratch/src/master.cpp:211-228 | recent moves on, exactly the log that is not current is emptied, the reserve is gone |
| Master.Master.Adjust | scratch/src/master.cpp:153-233 | run alone, the steps lead to the adjusted store, also at boot, where the reserve logs to the temporary file |
| Master.Master.Recover | scratch/src/master.cpp:302-307 | a boot round makes the replay of log i the newest file and empties log i, not the other one |
| Master.Master.constructor | scratch/src/master.cpp:246-323 | the booted store is two such rounds, backup0 first, from the scanned recent index, with an empty live tree on backup0 and the reloaded filter |
| Reads.ReadIsCurrent | scratch/src/master.cpp:4-69 | on every run a read that has not lost its place returns an answer its key had at some moment between its memory-lock section and its return |
| Reads.BesideOneAdjust | scratch/src/master.cpp:4-69 | so does every read beside which at most one adjust rewrites files |
| Reads.YoungFileIsRight | scratch/src/master.cpp:38-49 | and, however many adjusts overtake it, every read that finds its key while file age and turns of the ring come to at most seven |
| Reads.LosesLate | scratch/src/master.cpp:38-66 | to lose its place takes a ring that has turned since the snapshot and an adjust at work on the files again |
| Reads.CleanLosses | scratch/src/master.cpp:38-66 | without deletion marks there are just two ways to: looking at the emptied file, or waiting at the file that is overwritten |
| Overtaken.RightIffNotLost | scratch/src/master.cpp:4-69 | a read whose key is not written from some moment before it until it has returned, and whose value has no second copy when it loses its place, is right exactly when it has not lost it; writes to the key before and after do not matter |
| Overtaken.LossIsWrong | scratch/src/master.cpp:38-68 | such a read, having lost its place, returns an answer the key never had during the read |
| Reads.ReadIsExact | scratch/src/master.cpp:4-69 | if no deletion mark is ever written the value returned is byte for byte one the key had, or it was absent |
| Reads.StepKeepsRead | scratch/src/master.cpp:4-233 | every step of a writer, swap, adjust or reader keeps a read right, unless by that step it loses its place |
| Machine.StepKeepsStore | scratch/src/master.cpp:71-233 | every step keeps the layers answering like the map of all writes, files sorted, filter complete, and each tree the replay of its own log until its dump is in a file |
| Machine.RunInv | scratch/src/master.cpp:4-233 | the store invariant holds at every state of every run |
| Machine.SeenHappened | scratch/src/master.cpp:4-69 | everything a read may return was the answer for its key at a moment during the read |
| Machine.TruncationLosesNothing | scratch/src/master.cpp:206-228 | whenever a step shortens a log, it is the publishing step, and every entry of the tree behind that log is in the newest file |
| Machine.AdjustNeverStuck | scratch/src/master.cpp:135-233 | in each phase of an adjust its next step can be taken, and no swap can happen until it has published |
| Machine.AdjustPath | scratch/src/master.cpp:153-233 | run without interruption the seven steps of an adjust lead to the adjusted store |
| Machine.WriteKeeps | scratch/src/master.cpp:71-86 | a write keeps the store invariant |
| Machine.SwapKeeps | scratch/src/master.cpp:135-141 | setting the tree aside keeps the store invariant |
| Machine.ClearKeeps | scratch/src/master.cpp:171 | while the second oldest file is empty its copy answers for it |
| Machine.MergeKeeps | scratch/src/master.cpp:181-204 | the merged file answers for both its inputs |
| Machine.DumpKeeps | scratch/src/master.cpp:206-209 | overwriting the oldest file loses no answer, since the merge has taken it over |
| Machine.PublishKeeps | scratch/src/master.cpp:211-228 | turning the ring and dropping the reserve in one section changes no answer |
| Reads.PublishCourse | scratch/src/master.cpp:40-67 | a read whose ring is turned under it still has ahead of it every file it needs |
| Reads.LookOk | scratch/src/master.cpp:40-49 | a look that loses nothing finds an answer the key had, or leaves the read right |
| Reads.LookLocked | scratch/src/master.cpp:54-68 | the locked look at the last two files gives an answer the key had, after any number of adjusts |
| Witness.OvertakenReadMisses | scratch/src/master.cpp:40-67 | a run from a booted store on which two adjusts overtake a read, and it reports a key absent that has one and the same value throughout |
| Recovery.RecoveryExact | scratch/src/master.cpp:299-319 | after a crash with no file emptied a boot from the newest file restores the map exactly when the dump was written already, or else backup1 was the live log or no key is in both trees with different answers, and no dropped mark lets an older value show again |
| Recovery.RecoveryFrom | scratch/src/master.cpp:299-319 | wherever the boot starts, the restarted store answers as the map did exactly when the logs tell the order of their trees and the files, read from there, answer every key that is in no log as those that count |
| Recovery.FrontTells | scratch/src/master.cpp:299-319 | from the newest file on, that comes to the first condition |
| Recovery.RecoveryConsistent | scratch/src/master.cpp:299-322 | whenever the answers come back the restarted store satisfies the store invariant again |
| Recovery.KeyBack | scratch/src/master.cpp:299-319 | the same, key by key |
| Recovery.FoundRing | scratch/src/master.cpp:270-316 | the files on disk, from the newest one on, are those that count, but for a merged oldest file not yet overwritten |
| Recovery.BootedFind | scratch/src/master.cpp:301-316 | the restarted store looks in the tree of log 1, then of log 0, then in the old files |
| Recovery.BootTells | scratch/src/master.cpp:301-319 | the booted store has nothing in memory, is on backup0, both logs empty, the ring turned twice, backup0 in the first file dumped and backup1 in the second |
| Witness.StaleRecovery | scratch/src/master.cpp:270-307 | a run from a booted store to a crash, with backup0 live, after which key 0 comes back with the value it had before its last, by the boot that starts at the file the scan finds |
| Stamps.StepKeepsStamps | scratch/src/master.cpp:160-228 | with a clock that does not run backwards every step, those in the middle of an adjust included, keeps the header stamps ordered by age |
| Stamps.RunStamps | scratch/src/master.cpp:160-228 | so they are ordered at every state of every run |
| Stamps.BootFindsNewest | scratch/src/master.cpp:248-295 | after any run and a crash with no file emptied the boot scan finds the newest file exactly when the oldest stamp is strictly older than the newest, or the newest file is in the last slot |
| Stamps.FoundOrdered | scratch/src/master.cpp:270-295 | wherever the scan makes the boot start, stamps fall from there on, and if it is not the newest file it is the last slot, all stamps being equal |
| Stamps.NextLife | scratch/src/master.cpp:246-323 | after any run, a crash with no file emptied, the boot scan and both replays, the stamps are ordered again; the boot started at the newest file exactly when the stamps tell, and in the last slot otherwise; every key answers as before exactly when logs and files, read from there, tell, and then the next run can begin |
| Lsm3Control.SharedEntry.constructor | pglsm-docker/lsm3/lsm3.c:138-150 | nothing in flight, no merge due, the larger top index active |
| Lsm3Control.SharedEntry.Enter | pglsm-docker/lsm3/lsm3.c:450-454 | an insert takes the active index and merge count and is counted in on that index |
| Lsm3Control.SharedEntry.Leave | pglsm-docker/lsm3/lsm3.c:468-504 | an overflowing insert swaps the indexes and raises the merge count only if no merge is on and the count is unchanged, any other leaves them; the insert is counted out of its index and into the number of inserts, modulo 2 to the 64; the last one on the index to merge raises request and latch |
| Lsm3Control.SharedEntry.RequestMerge | pglsm-docker/lsm3/lsm3.c:1065-1082 | a manual request swaps the indexes and raises the merge count unless a merge is on, and raises request and latch if nobody is left on the old one |
| Lsm3Control.SharedEntry.CheckRequest | pglsm-docker/lsm3/lsm3.c:320-326 | the merger takes the request and learns the inactive index |
| Lsm3Control.SharedEntry.MarkDone | pglsm-docker/lsm3/lsm3.c:341-343 | only the in-progress mark is cleared |
| Lsm3Protocol.MergeIsAlone | pglsm-docker/lsm3/lsm3.c:320-344 | while the merger copies or truncates an index no insert is in flight on it, it is not active, and no step makes it active before the merge is marked done |
| Lsm3Protocol.NothingLost | pglsm-docker/lsm3/lsm3.c:218-266 | at every state the three indexes together hold exactly what was there at the start and what has been stored since |
| Lsm3Protocol.UnionStep | pglsm-docker/lsm3/lsm3.c:331-339 | storing adds just its tuple to the union; every other step, copying and truncating included, leaves the union unchanged |
| Lsm3Protocol.NoMergeForgotten | pglsm-docker/lsm3/lsm3.c:306-345 | a merge in progress has an insert still on its index, or is requested with the latch up or the merger about to check, or is being done; each swap raises the request exactly once |
| Lsm3Protocol.MergeCanFinish | pglsm-docker/lsm3/lsm3.c:306-345 | from any point of a merge, inserts already in flight and the merger alone can bring it to its end |
| Lsm3Protocol.CountIsExact | pglsm-docker/lsm3/lsm3.c:449-476 | an insert spans at most one swap, so its merge count is the current one exactly when there was no swap and exactly when its index is active, wrap-around included |
| Lsm3Protocol.FlipOnOwnIndex | pglsm-docker/lsm3/lsm3.c:470-476 | the assertion in the swap branch always holds |
| Lsm3Protocol.LeaveNeverBlocked | pglsm-docker/lsm3/lsm3.c:477-478 | so does the one before the decrement: the counter of the index an insert is on is positive, so an insert that has stored its tuple can always leave |
| Lsm3Protocol.StepKeepsInv | pglsm-docker/lsm3/lsm3.c:449-504 | every step of every inserter, request and merger keeps the protocol invariant |
| Lsm3Protocol.RunInv | pglsm-docker/lsm3/lsm3.c:286-347 | the invariant holds at every state of every run, also when both top indexes start non-empty |
| Lsm3Index.Index.constructor | pglsm-docker/lsm3/lsm3.c:123-153 | an index opened on any contents shows an initial state of the protocol |
| Lsm3Index.Index.Insert | pglsm-docker/lsm3/lsm3.c:435-507 | a whole insert takes exactly the three protocol steps of an insert; it overflows exactly when no merge is on, the number of inserts is a multiple of 65536 and its index is larger than allowed, and then, and only then, the indexes are swapped, and the merge is requested at once if no other insert is on that index; the tuple is in the index that was active |
| Lsm3Index.Index.StartMerge | pglsm-docker/lsm3/lsm3.c:1058-1084 | a manual request takes the protocol step of a request |
| Lsm3Index.Index.MergeIndexes | pglsm-docker/lsm3/lsm3.c:218-266 | the copy loop takes one protocol step for each tuple and ends with all of them in the base, which stays strictly ordered |
| Lsm3Index.Index.MergeAndTruncate | pglsm-docker/lsm3/lsm3.c:331-343 | afterwards the base has the tuples, the index is empty, the other one untouched and the merge marked done |
| Lsm3Index.Index.MergerRound | pglsm-docker/lsm3/lsm3.c:306-345 | a round of the merger takes protocol steps; with a request it merges the inactive index, without one it changes no index |
| Lsm3Index.Index.ScanAll | pglsm-docker/lsm3/lsm3.c:575-648 | a full scan hands out exactly the union of the protocol state, strictly ordered |
| Lsm3Index.Index.LookupUnique | pglsm-docker/lsm3/lsm3.c:581-614 | a unique lookup gives exactly the matches in the active top index if there are any, else those in the other one, else those in the base |
| Lsm3Index.ScanIsComplete | pglsm-docker/lsm3/lsm3.c:575-648 | so at every state of every run its output is the ordered list of what was there and what has been stored |
| Lsm3Index.PlacedOrdered | pglsm-docker/lsm3/lsm3.c:457-462 | storing a tuple keeps an index in strict order |
| Lsm3Visiting.LooksMissNothing | pglsm-docker/lsm3/lsm3.c:581-582 | looking at the active top index, later the other one, later the base finds everything stored before the first look and nothing not stored by the last |
| Lsm3Visiting.ScanSeesItsPast | pglsm-docker/lsm3/lsm3.c:575-648 | so a full scan over such looks gives a set between what was stored at its start and at its end |
| Lsm3Visiting.BaseFirstMisses | pglsm-docker/lsm3/lsm3.c:581-582 | a run on which looking at the base first misses a tuple that is never gone |
| Lsm3Order.Compare | pglsm-docker/lsm3/lsm3.c:386-408 | negative, zero or positive exactly as the first tuple sorts before, equals or sorts after the second: the first column that differs decides, and the heap TID only when none does |
| Lsm3Order.LessTotal | pglsm-docker/lsm3/lsm3.c:386-408 | the order is total: of two tuples of one index exactly one of before, equal, after holds |
| Lsm3Order.LessTransitive | pglsm-docker/lsm3/lsm3.c:386-408 | and transitive |
| Lsm3Order.StreamOrdered | pglsm-docker/lsm3/lsm3.c:588 | a backward scan of an index meets the same tuples in the mirror order |
| Lsm3Scan.Scan.constructor | pglsm-docker/lsm3/lsm3.c:509-542 | a new scan is positioned nowhere, with no end marks, over three strictly ordered indexes; no direction is fixed |
| Lsm3Scan.Scan.Rescan | pglsm-docker/lsm3/lsm3.c:544-556 | positions and end marks are forgotten, and the tuples that match the new keys are all still to come |
| Lsm3Scan.Scan.GetTuple | pglsm-docker/lsm3/lsm3.c:575-648 | for any visiting order and either direction at each call: returns the first of the tuples still due that way, none exactly when none is left, and the number unread decreases; not turned, it finds the next tuple of the union; turned around, it does so exactly when no other index has a tuple in front and its neighbour in its own index is that tuple; once only one index is left it goes to and fro in that one |
| Lsm3Turning.TurnExact | pglsm-docker/lsm3/lsm3.c:587-634 | what a turned scan hands out is the next tuple that way, among any tuples in question, exactly when all other streams are at their end and the neighbour in the current stream is that tuple |
| Lsm3Turning.OnwardNext | pglsm-docker/lsm3/lsm3.c:587-634 | a scan that goes on the same way, all tuples further on still to come, hands out the next tuple of the union, and all beyond it are still to come |
| Lsm3Turning.AloneGives | pglsm-docker/lsm3/lsm3.c:587-590 | with the other streams at their end a call in either direction gives the neighbour of the current tuple in its own index |
| Lsm3Turning.NeighbourNext | pglsm-docker/lsm3/lsm3.c:589 | which is the next tuple of that index, or none exactly at its end |
| Lsm3Scan.TurnGoesWrong | pglsm-docker/lsm3/lsm3.c:587-634 | a scan over 1, 3 and 2 hands out 1 going forward and 2 when it is then turned around |
| Lsm3Scan.Scan.ReadAll | pglsm-docker/lsm3/lsm3.c:575-648 | calls until the end give the union strictly ordered without duplicates, whatever the visiting order of each call: neighbours rise in the first column that differs, or else in the TID, or fall if the scan goes backward; a unique lookup gives the first index with a match |
| Lsm3Scan.Scan.Select | pglsm-docker/lsm3/lsm3.c:592-636 | the loop chooses the first of all unread tuples and skips copies without losing a tuple, or stops at the first non-empty index of a unique lookup |
| Lsm3Scan.Scan.Decide | pglsm-docker/lsm3/lsm3.c:615-634 | a stream becomes the choice, stays behind it, or shows a copy of it |
| Lsm3Scan.Scan.Look | pglsm-docker/lsm3/lsm3.c:592-636 | handling one stream keeps the choice the first of all visited streams and the union of what is unread |
| Lsm3Scan.Scan.Advance | pglsm-docker/lsm3/lsm3.c:587-590 | the lazy advance moves the stream of the tuple handed out last, and only that one, in the direction of the call |
| Lsm3Scan.Scan.LookUnique | pglsm-docker/lsm3/lsm3.c:597-614 | a unique lookup that finds its index marks the ones not looked at as ended |
| Lsm3Scan.Scan.GetBitmap | pglsm-docker/lsm3/lsm3.c:651-662 | collects exactly the TIDs of the union, and counts a tuple found in two indexes twice |
| Lsm3Scan.BitmapAgrees | pglsm-docker/lsm3/lsm3.c:651-662 | a full scan hands out at most as many tuples as the bitmap counts, and as many exactly when no tuple is in two indexes |
| Lsm3Scan.ReadBoth | pglsm-docker/lsm3/lsm3.c:575-662 | a bitmap and then a full scan of one index: the TIDs are the same, and the counts differ exactly when there are copies |
| Lsm3Scan.ShortcutExact | pglsm-docker/lsm3/lsm3.c:597-614 | the shortcut gives the output of the full scan exactly when the first index with a match holds every match; in particular when at most one distinct tuple matches |
| Lsm3Cursors.SkipAll | pglsm-docker/lsm3/lsm3.c:624-628 | skipping a copy loses no tuple and shortens what is unread |
| Lsm3Cursors.NextUnread | pglsm-docker/lsm3/lsm3.c:589 | moving on in either direction drops exactly the current tuple |

## Left out

Of the first store:

- Crashes between emptying the second oldest file and the end of the merge: what was in it is then only in the temporary file, which the boot discards. Crashes inside any other step of an adjust, which would leave a file half written.
- Crashes inside a write, between the log record and the filter's bits: the restarted filter may then deny the key of that one write. A crash is taken between critical sections.
- Overtaken.RightIffNotLost: says nothing of a read that loses its place when its key has another copy or is written meanwhile; it may then be right by chance. The files of a read more than eight turns of the ring behind are in the way again.
- I/O errors, partial writes and sync behaviour; a corrupt backup or filter file, on which the program exits.
- The byte layout of log records: a record is a value, so the size check of `fromFile` has no counterpart.
- Time text: header stamps are numbers; `strptime` and `difftime` are taken to be exact.
- Master.Master.Recover: the log of the boot tree, which the source puts into the temporary file, is an object of its own; the next adjust empties that file before using it.
- BlockCache.FileIO.Fread: single-threaded, as the source does not guard the cache; in `Machine` a look at one file is one step. File contents do not change while a file is open. What a read gets from behind the end of a block is left open.
- The write-back in `evictLRU` and `flushFile`: files are opened for reading only, so it has no effect.
- `Bloom` without a file, the other constructors of `BinaryTree`, `_inorder`, `fs.cpp`, `main.cpp`, batch files, data generation and tests.

Of lsm3:

- PostgreSQL internals: pages, posting lists, visibility, catalog hooks, options, starting and cancelling the worker. A B-tree is the strictly ordered sequence of its tuples; a column value is its rank under the column's comparator.
- The release of relation locks in `lsm3_insert` and their return at the end of the statement, which depend on transactions not shown here.
- Lsm3Protocol.MergeCanFinish: says a merge can be finished from every state, not that a scheduler will; the merger process is assumed not to die.
- Lsm3Scan.Scan.GetTuple: not for a call after the end of a scan that had tuples: it moves a B-tree scan that is at its end, and what that does is PostgreSQL's affair.
- The visiting order reads `active_index` twice without the lock; the model takes both reads together.
- Lsm3Visiting.LooksMissNothing: each index is looked at in one piece; a scan positioned within an index that changes under it is left to PostgreSQL's locks.
