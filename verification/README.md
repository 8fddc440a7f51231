# Models of the APUE programs

This project models parts of the example programs of *Advanced Programming in the UNIX Environment*
and proves what they promise. The centre is the key/value database library `apue.3e/db/db.c`; around
it stand nine smaller programs, each in a module of its own.

`dafny verify dfyconfig.toml` checks everything.

## The database

A database is two files: an index file of ASCII records linked by decimal file offsets into a free
list and 137 hash chains, and a data file of newline-terminated extents.

| file | contents |
|---|---|
| `DbFormat.dfy` | decimal fields, record lines, the hash |
| `DbImage.dfy` | what the bytes of the two files mean, and what each read and write does to that meaning |
| `DbLists.dfy`, `DbSurgery.dfy` | chains and free list as sequences of records; moving a record between them; the map they hold |
| `DbSpec.dfy` | the finite map, with return codes |
| `Db.dfy` | the handle as a class: the functions of the library over the bytes of the files, proved against the map |
| `DbHistory.dfy`, `DbProcs.dfy` | any number of processes; a step is one lock or unlock request, one read or one write; fcntl locks as the ranges of bytes they cover |
| `DbConcInv.dfy`, `DbConcSteps.dfy`, `DbConcWrites.dfy` | the invariant, why locks make it stable, and its proof step by step |
| `DbConc.dfy`, `DbConcLive.dfy`, `DbConcBytes.dfy` | the theorems about runs: linearizability, soundness at rest, no deadlock, what sequential reading sees, and the same runs on the bytes of the files |

In the concurrent model a delete takes effect when the data are blanked, a replacing store when the
new record is linked in, and a fetch when it reads the data. Between the two ends of a deletion the
chain still leads through the deleted record; the model keeps those pending bypasses, the keys a
store is about to put back, and the extents no record points to yet, each with the process that is
responsible for it, and proves that no other process can see them.

## The other programs

* `FooSpec.dfy`, `FooOneLock.dfy`, `FooTwoLocks*.dfy`: the reference-counted table with one lock as
  a class over linked nodes, and with two locks as threads stepping over shared memory; the second
  refines the first.
* `Semaph.dfy`: the three-member System V semaphore, with undo when a process exits at any step.
* `Rot13.dfy`: the sequential filter and the eight-buffer asynchronous pipeline.
* `Merge.dfy`: the merge of sorted segments. `SparseCopy.dfy`: the copy that leaves holes.
* `MemStream.dfy`: streams in memory. `FdPass.dfy`: the two-byte protocol for descriptors and errors.
* `Opend.dfy`: the poll loop with its two tables. `JobQueue.dfy`: the print spooler's job list.
* `Bytes.dfy`, `Options.dfy`: files as sequences, and a value or none, shared by several of these.

## Where the code differs from what its comments or readers expect

* A new key with a colon is stored so that the next search of its chain aborts:
  `DbFormat.ParseLineRoundTrip` says exactly when a record can be read, `DbHandle.Db.Store` what
  every store leaves; `DbHandle.StoreColon` is an example. A live key of blanks alone is skipped by
  `db_nextrec`: `DbHandle.ScanCompleteIffNoBlankKey`, with the example `DbHandle.StoreBlank`.
* The comment in `db_store` (`apue.3e/db/db.c:676`) speaks of a free record that is big enough; the
  code wants both lengths equal, and so does `DbHandle.Db.WalkFree`.
* `sem_create` says it handles a set that is removed under it (`apue.3e/lib/semaph.c:115-121`). It
  does when the set is gone before the call to `semop` (`Semaph.LateCallerStartsAgain`), not when the
  process sleeps in it (`Semaph.SleeperFails`); `Semaph.RemovedUnderCall` gives runs that get there.
* With `BIGCOUNT` handles open the next `sem_create` would initialise the set again:
  `Semaph.BigCountIsTheLimit`, and `Semaph.BigCountReached` for a run.
* `cp` does not truncate its destination, so old bytes show through zeros, and zeros at the end are
  lost: `SparseCopy.ExactCopy`, `SparseCopy.FreshCopy`, `SparseCopy.OldByteStays`.
* A stream opened without `+` puts its null inside the data after a write in the middle, and over
  the last byte when full, and offsets are cut to an int: `MemStream.WriteExact`,
  `MemStream.Stream.Seek`, with the examples `MemStream.MiddleLost` and `MemStream.FarSeek`.
* `recv_fd` aborts when the null and the status come in different pieces: `FdPass.Delivered`,
  `FdPass.TrailerSplit`.
* When only numbers equal to `LONG_MAX` are left the merge takes from the segment chosen last,
  and at the start from one it was never given: `Merge.MergeRight` says when that is right,
  `Merge.MaxCases` gives examples.

## Model

| member | source | states |
|---|---|---|
| DbFormat.AtolPad | apue.3e/db/db.c:323-334 | A number printed right-justified in any field is the number `atol` reads back from that field |
| DbFormat.PadIsRight | apue.3e/db/db.c:577-583 | A padded field has its blanks first and its digits last, and is as wide as asked if the number fits |
| DbFormat.PtrFieldWidth | apue.3e/db/db.c:618-631 | A pointer fills exactly the 7 bytes of its field if and only if it is at most 9999999 |
| DbFormat.LenFieldWidth | apue.3e/db/db.c:577-583 | A line length fills exactly the 4 bytes of its field if and only if it is at most 9999, so every legal one does |
| DbFormat.ParseLineRoundTrip | apue.3e/db/db.c:394-417 | Splitting the text of an index record at the separators gives back key, data offset and data length if and only if the key has no separator, and aborts if and only if it has one |
| DbFormat.DbHash | apue.3e/db/db.c:306-316 | The accumulating loop, with signed characters and wrapping at the width of the hash type, computes the weighted sum modulo 137, whatever the key |
| DbFormat.HashAppend | apue.3e/db/db.c:306-316 | The empty key has hash 0, and one more character c at place k adds c times k modulo 137, for ASCII keys that fit in a record |
| DbImage.InitRep | apue.3e/db/db.c:146-160 | The bytes written at creation represent 138 zero pointers and no records |
| DbImage.ReadPtrRep | apue.3e/db/db.c:323-334 | The bytes of a pointer field read as the pointer |
| DbImage.ReadRecRep | apue.3e/db/db.c:360-417 | The bytes of a record read as its length and as its key, data offset and data length |
| DbImage.ReadDatRep | apue.3e/db/db.c:424-435 | The bytes of an extent read as its data and a newline |
| DbImage.SetPtrRep | apue.3e/db/db.c:618-631 | Writing one pointer in place changes that pointer and nothing else in the file |
| DbImage.SameShapeSize | apue.3e/db/db.c:577-583 | A record rewritten with a key of the same length and the same offset and length has the same number of bytes |
| DbImage.PutRecRep | apue.3e/db/db.c:505-509 | Rewriting a record in place takes exactly the old bytes: every other record and pointer reads as before |
| DbImage.AppendRecRep | apue.3e/db/db.c:590-606 | A record appended at the end of the file is read back, and everything before it reads as before |
| DbImage.PutExtRep | apue.3e/db/db.c:546-555 | Data written over an extent of the same length leaves all other extents as they are |
| DbImage.AppendExtRep | apue.3e/db/db.c:542-555 | Data appended to the data file form a new extent and leave the others as they are |
| DbImage.RecordsCover | apue.3e/db/db.c:343-418 | Every byte of the index file from offset 967 on belongs to one record |
| DbImage.ExtentsCover | apue.3e/db/db.c:531-560 | Every byte of the data file belongs to one extent |
| DbLists.RemoveStruct | apue.3e/db/db.c:516-522 | Bypassing a record in its chain leaves all chains and the free list linked, disjoint and without cycles, each live key once on the chain of its hash |
| DbLists.PushStruct | apue.3e/db/db.c:687-697 | Linking a record in at the front of its list keeps the same |
| DbSurgery.FoundIsLive | apue.3e/db/db.c:284-296 | A record met on the chain with the key sought is the one live record of that key |
| DbSurgery.NotFoundIsAbsent | apue.3e/db/db.c:284-300 | A walk to the end of the chain without meeting the key means the key is nowhere in the database |
| DbSurgery.DeleteSettled | apue.3e/db/db.c:464-525 | The five writes of a deletion move exactly one record from its chain to the front of the free list; everything stays sound |
| DbSurgery.DeleteContents | apue.3e/db/db.c:464-525 | and take exactly that key out of the map |
| DbSurgery.OverwriteContents | apue.3e/db/db.c:732-737 | Overwriting the data of a live record changes the map at its key only |
| DbHandle.Db.constructor | apue.3e/db/db.c:134-164 | A new database is sound, empty, and positioned at offset 967 |
| DbHandle.Db.ReadPtr | apue.3e/db/db.c:323-334 | Reads the pointer that the file holds there |
| DbHandle.Db.WritePtr | apue.3e/db/db.c:618-631 | Writes the seven bytes of the pointer; in well-formed files that changes that pointer alone |
| DbHandle.Db.ReadIdx | apue.3e/db/db.c:343-418 | The handle then describes exactly the record at the offset (or at the position, or -1 at the end); none of the format checks that abort fails |
| DbHandle.Db.ReadDat | apue.3e/db/db.c:424-435 | Returns the data of the extent the handle describes |
| DbHandle.Db.WriteDat | apue.3e/db/db.c:531-560 | Appends or overwrites one extent and sets the handle to it |
| DbHandle.Db.WriteIdx | apue.3e/db/db.c:567-612 | Appends or rewrites the bytes of one record and sets the handle to it; with no separator in the key the files stay well formed with exactly that record changed |
| DbHandle.Db.FindAndLock | apue.3e/db/db.c:259-301 | Finds the key if and only if the map has it, and leaves the handle at the record, its position on the chain and the pointer that leads to it; the walk ends |
| DbHandle.Db.Fetch | apue.3e/db/db.c:233-253 | Returns the data the map has for the key, or none, and changes nothing |
| DbHandle.Db.DoDelete | apue.3e/db/db.c:463-525 | The record goes from its chain to the front of the free list; the map loses that key only; its data become blanks and no other byte of the data file changes |
| DbHandle.Db.Delete | apue.3e/db/db.c:440-456 | Answers 0 if the map had the key, else -1, and takes the key out; its data in the file, and nothing else there, become blanks |
| DbHandle.Db.WalkFree | apue.3e/db/db.c:767-776 | Stops at the first free record whose key length and data length are exactly these: none before it has them, and if none has it says so |
| DbHandle.Db.FindFree | apue.3e/db/db.c:752-805 | Takes exactly that record off the free list, or leaves everything as it was; the map is unchanged |
| DbHandle.Db.AppendRecord | apue.3e/db/db.c:680-687 | The map gains the pair, or, for a key with a separator, the chain can no longer be searched; the bytes appended to both files and the chain pointer, exactly |
| DbHandle.Db.AppendBytes | apue.3e/db/db.c:680-687 | The bytes that the three writes leave |
| DbHandle.Db.ReuseRecord | apue.3e/db/db.c:695-697 | The same for a free record that is reused; the files do not grow |
| DbHandle.Db.StoreNew | apue.3e/db/db.c:673-699 | A new key, whatever its characters, reuses a free record of the right sizes if there is one, else appends |
| DbHandle.Db.StoreExisting | apue.3e/db/db.c:712-738 | An existing key is overwritten in place if the length is the same, else deleted and appended; the map changes at that key only |
| DbHandle.Db.Overwrite | apue.3e/db/db.c:732-737 | The data alone change |
| DbHandle.Db.Store | apue.3e/db/db.c:637-746 | -1 and EINVAL for a bad flag, -1 and ENOENT for replacing an absent key, 1 for inserting a present one, else 0; the map changes, at that key, exactly when 0 is returned, unless a new key with a separator was stored: then the next search of its chain aborts; the files grow exactly when a record is appended |
| DbHandle.ColonRuins | apue.3e/db/db.c:577-602 | A record whose key has a separator, written anywhere and linked in, is the first of its chain and one that reading aborts at |
| DbHandle.StoreColon | apue.3e/db/db.c:637-746 | Storing a key of one colon in a new database answers 0 and leaves a chain that cannot be searched |
| DbHandle.FirstBytes | apue.3e/db/db.c:146-160 | Byte for byte the two files of a new database after the key k has been stored with the data ab |
| DbHandle.InsertTwice | apue.3e/db/db.c:700-703 | Of two insertions of one key the first answers 0 and the second 1, and a fetch gives the first data |
| DbHandle.StoreDelete | apue.3e/db/db.c:440-456 | Store, fetch, delete, fetch, delete, replace: the data, then 0, none, -1, and -1 with ENOENT |
| DbHandle.Db.WillBreak | apue.3e/db/db.c:580-583 | Finds out whether a store would append without room or write a key that cannot be read back |
| DbHandle.Db.Rewind | apue.3e/db/db.c:812-827 | Positions at the first record |
| DbHandle.Db.NextRec | apue.3e/db/db.c:835-875 | Returns the next record in file order whose key is not blank, or none at the end |
| DbHandle.Db.IsBlank | apue.3e/db/db.c:861-864 | The loop over spaces finds out whether the key is all blank |
| DbHandle.Db.ReadAll | apue.3e/db/db.c:812-875 | From a rewind to the first NULL: each pair of the map whose key is not blank exactly once |
| DbHandle.StoreBlank | apue.3e/db/db.c:857-864 | A key of one blank is in the map and sequential reading returns nothing |
| DbHandle.ScanIsMap | apue.3e/db/db.c:849-869 | The records met in file order are exactly the map less its blank keys, without repetition |
| DbHandle.ScanCompleteIffNoBlankKey | apue.3e/db/db.c:857-864 | Sequential reading misses nothing if and only if no live key is blank |
| DbHandle.RunCalls | apue.3e/db/db.c:233-746 | Any sequence of fetches, deletes and stores on a fresh database answers, call by call with the codes written out, as one finite map, up to the first store that would append a record for which there is no room or write a key that cannot be read back |
| DbSpec.CallsMean | apue.3e/db/db.c:233-746 | The maps between the calls of any sequence, and every answer and change in terms of the map before the call |
| DbProcs.RegionsDisjoint | apue.3e/db/db.c:270-283 | The byte ranges locked for chains, free list and appends overlap only when they are the same range |
| DbHistory.TakeEffectKeeps | apue.3e/db/db.c:233-746 | Letting a call take effect after all that already have keeps the history linearizable and fixes its answer |
| DbConcInv.OwnUndisturbed | apue.3e/db/db.c:540-559 | A step that keeps to the chains, records and extents its process has locked or taken disturbs nothing another process relies on |
| DbConcInv.LocalStable | apue.3e/db/db.c:259-525 | Whatever a process knows in the middle of a call still holds after any step of another process |
| DbConcSteps.FoundKey | apue.3e/db/db.c:284-296 | A record found on a locked chain is live and its extent holds the value of the key in the map |
| DbConcSteps.MissedKey | apue.3e/db/db.c:284-300 | The end of a locked chain means the map does not have the key |
| DbConcSteps.KeepCall | apue.3e/db/db.c:229-239 | The invariant over all processes, files, locks and the history survives this step: the start of a call |
| DbConcSteps.KeepLockChain | apue.3e/db/db.c:274-283 | The invariant over all processes, files, locks and the history survives this step: locking the chain |
| DbConcSteps.KeepReadHead | apue.3e/db/db.c:289 | The invariant over all processes, files, locks and the history survives this step: reading the chain pointer |
| DbConcSteps.KeepScanNext | apue.3e/db/db.c:290-295 | The invariant over all processes, files, locks and the history survives this step: reading a record of another key |
| DbConcSteps.KeepScanHit | apue.3e/db/db.c:700-712 | The invariant over all processes, files, locks and the history survives this step: meeting the key: insert fails and takes effect here, the others go on to data, deletion or overwriting |
| DbConcSteps.KeepScanMiss | apue.3e/db/db.c:661-667 | The invariant over all processes, files, locks and the history survives this step: the end of the chain: fetch, delete and replace answer and take effect here |
| DbConcSteps.KeepFetchDat | apue.3e/db/db.c:239-241 | The invariant over all processes, files, locks and the history survives this step: reading the data: the fetch takes effect |
| DbConcSteps.KeepReturn | apue.3e/db/db.c:742-745 | The invariant over all processes, files, locks and the history survives this step: unlocking the chain and returning the answer the call took effect with |
| DbConcSteps.KeepDelLock | apue.3e/db/db.c:483-484 | The invariant over all processes, files, locks and the history survives this step: locking the free list |
| DbConcSteps.KeepDelReadFree | apue.3e/db/db.c:496-502 | The invariant over all processes, files, locks and the history survives this step: reading the free-list pointer |
| DbConcSteps.KeepDelDrop | apue.3e/db/db.c:523-524 | The invariant over all processes, files, locks and the history survives this step: unlocking the free list |
| DbConcSteps.KeepNewReadHead | apue.3e/db/db.c:673-719 | The invariant over all processes, files, locks and the history survives this step: reading the chain pointer before an insertion |
| DbConcSteps.KeepFreeLock | apue.3e/db/db.c:761-762 | The invariant over all processes, files, locks and the history survives this step: locking the free list for a search |
| DbConcSteps.KeepFreeReadHead | apue.3e/db/db.c:767-768 | The invariant over all processes, files, locks and the history survives this step: reading the free-list pointer |
| DbConcSteps.KeepFreeScan | apue.3e/db/db.c:770-776 | The invariant over all processes, files, locks and the history survives this step: looking at one free record |
| DbConcSteps.KeepFreeDrop | apue.3e/db/db.c:802-804 | The invariant over all processes, files, locks and the history survives this step: unlocking the free list with or without a record |
| DbConcSteps.KeepAppLockDat | apue.3e/db/db.c:542-544 | The invariant over all processes, files, locks and the history survives this step: locking the data file |
| DbConcSteps.KeepAppDropDat | apue.3e/db/db.c:557-559 | The invariant over all processes, files, locks and the history survives this step: unlocking it |
| DbConcSteps.KeepAppLockIdx | apue.3e/db/db.c:590-593 | The invariant over all processes, files, locks and the history survives this step: locking the index records |
| DbConcSteps.KeepAppDropIdx | apue.3e/db/db.c:608-611 | The invariant over all processes, files, locks and the history survives this step: unlocking them |
| DbConcSteps.KeepNrLock | apue.3e/db/db.c:846-847 | The invariant over all processes, files, locks and the history survives this step: the lock request of db_nextrec, which every deletion in progress makes wait |
| DbConcSteps.KeepNrReturn | apue.3e/db/db.c:872-874 | The invariant over all processes, files, locks and the history survives this step: the unlocking at the end of db_nextrec |
| DbConcWrites.KeepOverDat | apue.3e/db/db.c:736-737 | The same for the write: data overwritten in place; the store takes effect |
| DbConcWrites.KeepDelBlank | apue.3e/db/db.c:489 | The same for the write: data blanked; from here the record counts as off its chain, and a delete takes effect |
| DbConcWrites.KeepDelWriteIdx | apue.3e/db/db.c:509 | The same for the write: key blanked and the record pointed at the free list |
| DbConcWrites.KeepDelWriteFree | apue.3e/db/db.c:514 | The same for the write: the record becomes the head of the free list |
| DbConcWrites.KeepDelBypass | apue.3e/db/db.c:522 | The same for the write: the chain pointer bypasses the record |
| DbConcWrites.KeepFreeTake | apue.3e/db/db.c:789-790 | The same for the write: a record taken off the free list |
| DbConcWrites.KeepReuseDat | apue.3e/db/db.c:695 | The same for the write: data written into the reused extent |
| DbConcWrites.KeepReuseIdx | apue.3e/db/db.c:696 | The same for the write: the reused record written |
| DbConcWrites.KeepAppDat | apue.3e/db/db.c:546-555 | The same for the write: data appended |
| DbConcWrites.KeepAppIdx | apue.3e/db/db.c:598-606 | The same for the write: index record appended |
| DbConcWrites.KeepLink | apue.3e/db/db.c:687-697 | The same for the write: the chain pointer written; the store takes effect |
| DbConc.NextInv | apue.3e/db/db.c:229-875 | Every step of any process keeps the whole invariant |
| DbConc.RunsLinearizable | apue.3e/db/db.c:233-746 | At every point of every run of any number of processes there is one order of the calls, respecting which returned before which began, in which a single map gives every answer returned |
| DbConc.RunsAnswer | apue.3e/db/db.c:233-746 | In that order every call that has returned answered, with the codes written out, as one map changed call by call: data or none, 0 or -1, and 0, 1, ENOENT or EINVAL for a store |
| DbConc.InsertsApart | apue.3e/db/db.c:700-703 | Between two insertions of one key that answered 0 there is a deletion of it, which answered 0 if it has returned |
| DbConc.RealTime | apue.3e/db/db.c:274-283 | A call that had returned at one point of a run comes before every call made after that point |
| DbConc.RestIsSound | apue.3e/db/db.c:233-746 | Whenever no call is under way the files are well formed, every record is on exactly one list, and the database holds the map that order built |
| DbConc.NextRecReads | apue.3e/db/db.c:842-864 | While db_nextrec holds its lock no deletion is between its first and its last write, the chains are those the pointers on file make, and every record whose key is not blank is live with the value of the map, or complete and about to be linked in by a store |
| DbConcLive.NoWaitCycle | apue.3e/db/db.c:270-283 | No chain of processes each waiting for a lock the next one holds ever closes |
| DbConcLive.NoDeadlock | apue.3e/db/db.c:483-803 | While some process is in a call, some process in a call can take its next step, unless it is about to append a record beyond the limits |
| DbConcLive.CanProceed | apue.3e/db/db.c:259-805 | Whatever record, pointer or extent a process is about to use is there, at every step |
| DbConcBytes.StepWrites | apue.3e/db/db.c:531-631 | Each step is at most one write to one file: the old bytes with that write made represent the new state |
| DbConcBytes.StepReads | apue.3e/db/db.c:360-417 | The bytes of a record a process is about to read parse as the record its step uses |
| DbConcBytes.PointerReads | apue.3e/db/db.c:323-334 | The bytes of a chain or free-list pointer a process is about to read are the pointer its step uses |
| DbConcBytes.FetchReads | apue.3e/db/db.c:424-435 | The bytes a fetch reads are what the map holds for its key |
| DbConcBytes.HasSchedule | apue.3e/db/db.c:233-746 | Every run is a schedule: which process takes each step |
| DbConcBytes.RunBytes | apue.3e/db/db.c:531-631 | From the bytes written at creation, making the write of each step of any schedule gives files that represent the state, at every point of every run |
| DbConcBytes.RestBytes | apue.3e/db/db.c:531-631 | At rest those bytes are the files of a sound database that holds the map of the calls in their order: all that the handle relies on |
| FooSpec.ApplyOk | apue.3e/threads/mutex3.c:18-90 | After any operation each object is in the bucket of its id, once, with a count of at least 1 |
| FooSpec.FindMeans | apue.3e/threads/mutex3.c:51-65 | A find succeeds if and only if some object has the id, and gives one that has |
| FooSpec.FindsNewest | apue.3e/threads/mutex3.c:51-65 | A find right after an object was created gives that object, whatever older ones have its id |
| FooSpec.CountsOutstanding | apue.3e/threads/mutex3.c:67-90 | In any legal run an object is in the table exactly while references given out have not all been released, and its count is their number |
| FooOneLock.FooTable.constructor | apue.3e/threads/mutex3.c:7-8 | All buckets empty |
| FooOneLock.FooTable.Alloc | apue.3e/threads/mutex3.c:18-41 | A new object at the head of its bucket, or null and no change |
| FooOneLock.FooTable.PushFront | apue.3e/threads/mutex3.c:33-34 | The linked list gains the object at its head |
| FooOneLock.FooTable.Hold | apue.3e/threads/mutex3.c:43-49 | One reference more |
| FooOneLock.FooTable.Find | apue.3e/threads/mutex3.c:51-65 | The first object of the bucket with the id, counted, or null |
| FooOneLock.FooTable.Rele | apue.3e/threads/mutex3.c:67-90 | One reference less; the last takes the object off its list |
| FooOneLock.FooTable.Unlink | apue.3e/threads/mutex3.c:75-83 | The list loses the object, wherever it stands; the other lists are untouched |
| FooOneLock.FooTable.Splice | apue.3e/threads/mutex3.c:76-83 | The walk to the node before the object ends there and bypasses it |
| FooTwoLocksInv.KeepAlloc | apue.3e/threads/mutex2.c:25-32 | The invariant over all threads and memory survives this step: malloc and the initial fields |
| FooTwoLocksInv.KeepHashLock | apue.3e/threads/mutex2.c:33 | The invariant over all threads and memory survives this step: taking or giving up the hash lock |
| FooTwoLocksInv.KeepFLock | apue.3e/threads/mutex2.c:47-49 | The invariant over all threads and memory survives this step: taking or giving up the lock of an object |
| FooTwoLocksInv.KeepWriteNext | apue.3e/threads/mutex2.c:34 | The invariant over all threads and memory survives this step: the link of the new object |
| FooTwoLocksInv.KeepWriteHead | apue.3e/threads/mutex2.c:35 | The invariant over all threads and memory survives this step: the bucket head: the allocation takes effect |
| FooTwoLocksInv.KeepCountUp | apue.3e/threads/mutex2.c:48-60 | The invariant over all threads and memory survives this step: the increment in foo_hold and foo_find, which takes effect |
| FooTwoLocksInv.KeepLookFind | apue.3e/threads/mutex2.c:58-59 | The invariant over all threads and memory survives this step: one step of the walk in foo_find |
| FooTwoLocksInv.KeepMiss | apue.3e/threads/mutex2.c:58-65 | The invariant over all threads and memory survives this step: the end of the walk without the id |
| FooTwoLocksInv.KeepLookRele | apue.3e/threads/mutex2.c:75-94 | The invariant over all threads and memory survives this step: the checks of the count, and one step of the walk to the node before |
| FooTwoLocksInv.KeepCountDown | apue.3e/threads/mutex2.c:81-101 | The invariant over all threads and memory survives this step: the decrements, which take effect |
| FooTwoLocksInv.KeepUnlinkFirst | apue.3e/threads/mutex2.c:89-90 | The invariant over all threads and memory survives this step: unlinking the first object of the bucket: the release takes effect |
| FooTwoLocksInv.KeepUnlinkAfter | apue.3e/threads/mutex2.c:92-94 | The invariant over all threads and memory survives this step: unlinking a later one |
| FooTwoLocksInv.KeepFree | apue.3e/threads/mutex2.c:98-99 | The invariant over all threads and memory survives this step: destroying and freeing the object |
| FooTwoLocksInv.KeepCall | apue.3e/threads/mutex2.c:44-74 | The invariant over all threads and memory survives this step: calls and returns |
| FooTwoLocksInv.KeepHandOver | apue.3e/threads/mutex2.c:44-49 | The invariant over all threads and memory survives this step: a thread hands a reference it holds to another |
| FooTwoLocksRuns.CountsAndBuckets | apue.3e/threads/mutex2.c:44-104 | In every reachable state each count is the number of references held, and each object is in its bucket unless its one holder is still allocating or already freeing it |
| FooTwoLocksRuns.FreedAlone | apue.3e/threads/mutex2.c:86-99 | An object is freed only by the thread with the only reference, and no other thread holds, waits for or walks over it |
| FooTwoLocksRuns.StepRefines | apue.3e/threads/mutex2.c:19-104 | Each step is nothing or exactly one operation of the one-lock table |
| FooTwoLocksRuns.RefinesOneLock | apue.3e/threads/mutex2.c:19-104 | Every run gives the one-lock table: same buckets, same counts, and each call returns the answer of the operation it took effect as, during the call |
| FooTwoLocksRuns.LogAnswers | apue.3e/threads/mutex2.c:19-104 | Each logged answer is the one-lock answer after the operations logged before it |
| FooTwoLocksRuns.NoDeadlock | apue.3e/threads/mutex2.c:74-102 | While some thread is in a call, one of them can take its next step, because no one waits for a lock while holding the lock of an object |
| FooTwoLocksRuns.NotKeptCanGo | apue.3e/threads/mutex2.c:57-94 | A thread that waits for no lock finds in memory whatever its next step touches |
| Semaph.LockIsExclusive | apue.3e/lib/semaph.c:49-54 | Member [2] is 1 exactly while one process is inside, and never more than one is, with exits at any step |
| Semaph.CounterCountsHandles | apue.3e/lib/semaph.c:15-24 | Once set, member [1] is BIGCOUNT less the open handles; before that it is 0 and none is open |
| Semaph.ValueIsAccounted | apue.3e/lib/semaph.c:77-81 | Member [0] is its initial value changed by the net operations of the processes still there |
| Semaph.SetOnlyBefore | apue.3e/lib/semaph.c:138-153 | [0] and [1] are set only before [1] is, with no handle open, and the set starts with the initial value of the process that completes it |
| Semaph.StartsWithArgument | apue.3e/lib/semaph.c:146-152 | The process that completes a set leaves in [0] the very value it was called with, and BIGCOUNT in [1] |
| Semaph.OperateThenExit | apue.3e/lib/semaph.c:77-81 | An operation changes [0] by its amount, and an exit after it gives back what was there |
| Semaph.InitialisedOnce | apue.3e/lib/semaph.c:138-153 | Once complete the set is never initialised again while it exists |
| Semaph.RemovedUnused | apue.3e/lib/semaph.c:243-252 | The set is removed only when no handle is open; sem_close always finds it, and never reads a count above BIGCOUNT |
| Semaph.HolderCanGo | apue.3e/lib/semaph.c:135-160 | The holder of the lock is never blocked |
| Semaph.BigCountIsTheLimit | apue.3e/lib/semaph.c:135-138 | A complete set is taken for a new one if and only if BIGCOUNT handles are open |
| Semaph.BigCountReached | apue.3e/lib/semaph.c:135-152 | A run in which one process opens BIGCOUNT handles and its next call is about to set the values of the complete set again |
| Semaph.SleeperFails | apue.3e/lib/semaph.c:115-128 | In every run, a process asleep on the lock when the set is removed sleeps ever after or is no more: it never gets a lock again, and its only steps are that the call fails and that it exits |
| Semaph.LateCallerStartsAgain | apue.3e/lib/semaph.c:104-128 | One that has got the id but not called semop yet starts again, makes a new set and gets its lock |
| Semaph.RemovedUnderCall | apue.3e/lib/semaph.c:112-121 | A run of two processes, from the start, that removes the set under a caller that sleeps, and one under a caller that does not |
| Semaph.KeepGet | apue.3e/lib/semaph.c:106-107 | The invariant over all processes survives: semget makes a new set |
| Semaph.KeepTakeLock | apue.3e/lib/semaph.c:124 | The invariant over all processes survives: op_lock |
| Semaph.KeepRead | apue.3e/lib/semaph.c:135-138 | The invariant over all processes survives: GETVAL |
| Semaph.KeepSet0 | apue.3e/lib/semaph.c:146-148 | The invariant over all processes survives: SETVAL on [0], which clears adjustments |
| Semaph.KeepSet1 | apue.3e/lib/semaph.c:150-152 | The invariant over all processes survives: SETVAL on [1], which clears adjustments |
| Semaph.KeepEndCreate | apue.3e/lib/semaph.c:159-160 | The invariant over all processes survives: op_endcreate |
| Semaph.KeepTakeClose | apue.3e/lib/semaph.c:232-233 | The invariant over all processes survives: op_close |
| Semaph.KeepRemove | apue.3e/lib/semaph.c:248-249 | The invariant over all processes survives: IPC_RMID |
| Semaph.KeepCloseDone | apue.3e/lib/semaph.c:251-252 | The invariant over all processes survives: op_unlock |
| Semaph.KeepExit | apue.3e/lib/semaph.c:55-61 | The invariant over all processes survives: exit at any point, with undo |
| Rot13.TranslateTwice | apue.3e/advio/rot13a.c:9-23 | Translating twice gives the file back, and exactly the letters change |
| Rot13.ThirteenPlaces | apue.3e/advio/rot13a.c:9-23 | A letter moves thirteen places round the alphabet of its case and nothing else moves |
| Rot13.Sequential | apue.3e/advio/rot13a.c:37-46 | However the reads are split each letter of the output is the one thirteen places on, in its case, and each other byte that of the input |
| Rot13.Pipeline.constructor | apue.3e/advio/rot13c2.c.in:48-56 | All buffers unused, nothing begun |
| Rot13.Pipeline.StartRead | apue.3e/advio/rot13c2.c.in:60-77 | An unused buffer takes the next block and less work is left |
| Rot13.Pipeline.StartWrite | apue.3e/advio/rot13c2.c.in:90-105 | A block read is translated and its write begun at its own offset; a short read is always the last block |
| Rot13.Pipeline.TranslateData | apue.3e/advio/rot13c2.c.in:98-99 | The loop over the buffer translates its first n bytes |
| Rot13.Pipeline.Visit | apue.3e/advio/rot13c2.c.in:59-128 | One visit to a buffer does one unit of work if the buffer can be acted on, else nothing; numop stays the number of buffers in use |
| Rot13.Pipeline.Complete | apue.3e/advio/rot13c2.c.in:81-109 | The system may complete any operation at any time without breaking anything |
| Rot13.Pipeline.Suspend | apue.3e/advio/rot13c2.c.in:134-137 | After the wait some buffer can be acted on |
| Rot13.Pipeline.Run | apue.3e/advio/rot13c2.c.in:57-138 | For every order of completions and every length the loop ends with each letter moved thirteen places and each other byte as it was, each block read once and written once |
| Rot13.SameOutput | apue.3e/advio/rot13c2.c.in:57-138 | The pipeline writes what the sequential program writes, the letters thirteen places on |
| Merge.Smallest | apue.3e/threads/barrier.c:68-74 | The inner loop finds the first segment with the smallest next number if there is one below LONG_MAX, else leaves the index as it was |
| Merge.Merge | apue.3e/threads/barrier.c:59-78 | For any numbers, sorted or not, and any content of the uninitialised index, the loops do the rounds of the specification, up to an access outside the arrays |
| Merge.EveryRoundFinds | apue.3e/threads/barrier.c:67-74 | Over sorted segments every round finds an index if and only if no number is LONG_MAX |
| Merge.MergeRight | apue.3e/threads/barrier.c:59-78 | For any number of equal sorted segments the merge stays within its arrays and writes a sorted permutation if and only if the numbers that are LONG_MAX all follow right on the last place of the largest other number, or there is no other and the index happened to hold 0 |
| Merge.MaxCases | apue.3e/threads/barrier.c:67-77 | Four small inputs with LONG_MAX: two that come out right and two that do not |
| SparseCopy.Cp | Chapter04/exercise_6.c:34-67 | For every split into reads the copy ends at the length of the source and has written each byte that is not 0 once, in order, at its own place |
| SparseCopy.Chunk | Chapter04/exercise_6.c:35-66 | The scanning and writing loops of one chunk end and do the same for the chunk |
| SparseCopy.SparseIs | Chapter04/exercise_6.c:38-66 | What the destination then holds, byte by byte, for any old contents |
| SparseCopy.FreshCopy | Chapter04/exercise_6.c:34-67 | On an empty destination: the source without its trailing zeros, so the source itself if and only if it does not end in a zero |
| SparseCopy.ExactCopy | Chapter04/exercise_6.c:24-67 | On any destination: the source if and only if nothing old shows through its zeros and the lengths agree |
| SparseCopy.OldByteStays | Chapter04/exercise_6.c:34-67 | A zero copied over an old 7 leaves the 7 |
| MemStream.TypeToFlags | apue.3e/exercises/fmemopen.c:96-138 | Accepts exactly one of r, w and a followed by any mix of + and b, and gives the right flags |
| MemStream.FindEnd | apue.3e/exercises/fmemopen.c:140-151 | The first null or the end of the buffer |
| MemStream.FMemOpen | apue.3e/exercises/fmemopen.c:36-94 | Fails exactly on size 0, no memory, a bad mode, or no buffer without +; position, size and what may be read and written are as the mode says, for any size |
| MemStream.Stream.Read | apue.3e/exercises/fmemopen.c:153-171 | Returns the bytes from the position on, as many as asked or as there are, and moves by them; or EBADF |
| MemStream.Stream.Write | apue.3e/exercises/fmemopen.c:173-204 | The write of a bounded file if and only if it stays within the range of an int and, without +, the byte its null will replace is 0 or there is none; EBADF on a stream for reading; with + the null goes behind the end |
| MemStream.Stream.Place | apue.3e/exercises/fmemopen.c:183-204 | What the code makes of any write, with its int arithmetic |
| MemStream.Stream.StoreAndEnd | apue.3e/exercises/fmemopen.c:188-202 | The copy, the new position and size, and the null |
| MemStream.Stream.Store | apue.3e/exercises/fmemopen.c:188-195 | The copy, the new position and size, and the null of a stream that grows |
| MemStream.Stream.PutNull | apue.3e/exercises/fmemopen.c:196-202 | The null of a stream without + |
| MemStream.Stream.Seek | apue.3e/exercises/fmemopen.c:206-229 | Goes to the offset, to the position plus it or to the end plus it, as a 32-bit int, if and only if that is within the data; this is the seek of the bounded file if and only if the conversion does not mislead |
| MemStream.ReadTail | apue.3e/exercises/fmemopen.c:206-229 | Seeking to the end and back by n, or n before the end, and reading n gives the last n bytes |
| MemStream.ReadAgain | apue.3e/exercises/fmemopen.c:206-229 | Reading, seeking back by what was read and reading gives the same bytes again |
| MemStream.WriteExact | apue.3e/exercises/fmemopen.c:173-204 | For every stream and every write: the code gives the answer, data and position of the bounded file if and only if the write ends within the range of an int and, without +, the null spares the data: a condition on the start, the length, the size and the data before the call |
| MemStream.WrittenBytes | apue.3e/exercises/fmemopen.c:183-204 | Byte by byte what a write within the range of an int leaves, but for the byte its null replaces |
| MemStream.MiddleLost | apue.3e/exercises/fmemopen.c:196-202 | Writing 1 2 3, seeking to 0 and writing 9 on a stream for writing leaves 9 0 3 |
| MemStream.FarSeek | apue.3e/exercises/fmemopen.c:209-228 | A seek to 2 to the 32 goes to 0 where the bounded file answers EINVAL |
| MemStream.ReadBack | apue.3e/exercises/fmemopen.c:153-229 | On a + stream, writing, seeking back and reading gives what was written, as far as there is room, and the rest of the data stays |
| MemStream.RunStream | apue.3e/exercises/fmemopen.c:153-229 | Any sequence of reads, writes and seeks on a + stream gives the answers and positions of a bounded file if and only if every write ends within the range of an int and no seek is one the conversion misleads; then the contents agree too |
| MemStream.SmallIsExact | apue.3e/exercises/fmemopen.c:153-229 | That holds for every operation on a buffer an int can count and seeks by offsets that stay within the range |
| Opend.Server.ClientAlloc | apue.3e/ipc2/opend/client.c:5-22 | More free entries, the same descriptors |
| Opend.Server.FirstFree | apue.3e/ipc2/opend/client.c:35-36 | The first free entry |
| Opend.Server.ClientAdd | apue.3e/ipc2/opend/client.c:27-46 | The table holds one descriptor more |
| Opend.Server.ClientDel | apue.3e/ipc2/opend/client.c:51-63 | It holds one less; the entry is always found |
| Opend.Server.GrowPollfd | apue.3e/ipc2/opend/loop.poll.c:6-22 | A longer array with the same entries |
| Opend.Server.constructor | apue.3e/ipc2/opend/loop.poll.c:34-46 | Both tables hold the listening descriptor |
| Opend.Server.Connect | apue.3e/ipc2/opend/loop.poll.c:52-66 | Both tables gain the descriptor, through growth; it is not ready in this sweep |
| Opend.Server.Hangup | apue.3e/ipc2/opend/loop.poll.c:76-89 | Both tables lose it; the last entry takes its place |
| Opend.Server.Sweep | apue.3e/ipc2/opend/loop.poll.c:68-95 | Exactly what the entries call for is done, in spite of packing: each that hung up or is at the end of its requests closed once, each other that can be read served once, no other touched; the tables agree and those closed are gone |
| Opend.DueMeans | apue.3e/ipc2/opend/loop.poll.c:68-95 | Among distinct descriptors an event is due, and once only, if and only if it is what some ready entry calls for |
| Opend.DueExactly | apue.3e/ipc2/opend/loop.poll.c:69-93 | Closing is due, once, exactly for an entry that hung up or can be read and gives 0; a request exactly for one that did not hang up, can be read and gives more |
| Opend.CalledExactly | apue.3e/ipc2/opend/loop.poll.c:52-93 | The same for a turn over the set of open descriptors, and which of them it leaves open |
| Opend.Server.Loop | apue.3e/ipc2/opend/loop.poll.c:48-96 | For any turns: in each turn exactly what it calls for is done with the descriptors open then, and at the end both tables hold exactly those that the turns leave open |
| Opend.NoneLost | apue.3e/ipc2/opend/loop.poll.c:48-96 | What the turns leave open and what they closed is what was open and what they accepted: no connection is lost or closed twice, and the listening descriptor stays |
| Opend.Server.Turn | apue.3e/ipc2/opend/loop.poll.c:48-96 | One turn of the loop: what the entries reported by poll call for is done, the tables agree, and the descriptors change by the connection accepted and those closed |
| Opend.Server.OneTurn | apue.3e/ipc2/opend/loop.poll.c:48-96 | The same over the set of open descriptors: a connection, then for each open descriptor that is ready the one thing its state calls for |
| JobQueue.Queue.constructor | apue.3e/printer/printd.c:66 | An empty list |
| JobQueue.Queue.PushTail | apue.3e/printer/printd.c:284-291 | The doubly linked list gains the job at its end |
| JobQueue.Queue.PushHead | apue.3e/printer/printd.c:305-311 | It gains the job at its head |
| JobQueue.Queue.RemoveJob | apue.3e/printer/printd.c:320-331 | It loses the job, wherever it stands |
| JobQueue.Queue.AddJob | apue.3e/printer/printd.c:275-294 | The job comes last; order of adding is kept |
| JobQueue.Queue.TakeJob | apue.3e/printer/printd.c:688-695 | The first job goes into the hand of the printer thread |
| JobQueue.Queue.ReplaceJob | apue.3e/printer/printd.c:301-313 | The job in hand goes back to the head |
| JobQueue.Queue.FinishJob | apue.3e/printer/printd.c:717-729 | The job in hand is done |
| JobQueue.Do | apue.3e/printer/printd.c:684-839 | One critical section: an added job comes last, the first is taken, the one in hand is done or goes back to the head, and nothing else changes |
| JobQueue.OneStep | apue.3e/printer/printd.c:684-839 | After any steps, what one more does to the jobs done, in hand and waiting: only a Finish makes one count as done, and a deferred one heads those waiting |
| JobQueue.FinishedCount | apue.3e/printer/printd.c:824-835 | The jobs done are as many as the Finish steps that found one in hand |
| JobQueue.TakeDefer | apue.3e/printer/printd.c:833-835 | Taking a job and deferring it leaves everything as it was |
| JobQueue.DeferredIsNext | apue.3e/printer/printd.c:301-313 | A deferred job is the next one taken, whatever clients add in between, and does not count as done |
| JobQueue.Run | apue.3e/printer/printd.c:684-839 | Any interleaving of clients and printer thread ends in exactly the state that its steps, one by one, lead to |
| JobQueue.OrderKept | apue.3e/printer/printd.c:684-839 | After any steps the jobs done, in hand and waiting are, in this order, those added: each once, and done in the order added however often one is put back |
| JobQueue.AllPrinted | apue.3e/printer/printd.c:684-839 | From any such state, finishing the job in hand and printing those waiting does every job ever added: none is stuck |
| FdPass.SendFd | apue.3e/lib/sendfd.c:13-49 | The two bytes and the descriptor |
| FdPass.SendErr | apue.3e/lib/senderr.c:10-24 | The message, a null, and a status byte that is never 0 |
| FdPass.Scan | apue.3e/lib/recvfd.c:54-68 | The scan of one chunk finds the null, and aborts unless it is next to last and a descriptor comes with status 0 |
| FdPass.RecvFd | apue.3e/lib/recvfd.c:29-73 | For any chunks: with no null before the end of file it returns -1 and all the text; a descriptor is returned only if a chunk brings it with a null and status 0; any other outcome comes with the first null |
| FdPass.WithTheNull | apue.3e/lib/recvfd.c:54-73 | What the chunk with the first null makes of it: the descriptor, the negated status, or an abort |
| FdPass.Delivered | apue.3e/lib/recvfd.c:29-73 | For every split of a message and trailer the whole message and the status arrive if and only if the trailer stays in one piece (and brings the descriptor when the status is 0); else it aborts |
| FdPass.TrailerSplit | apue.3e/lib/recvfd.c:54-68 | The trailer 0 0 in two pieces aborts the receiver, whichever brings the descriptor |
| FdPass.ErrorArrives | apue.3e/lib/recvfd.c:54-73 | send_err then recv_fd: the message, and the code itself for -255 to -1, else its negation modulo 256 negated, 0 counting as 1 |
| FdPass.DescriptorArrives | apue.3e/lib/recvfd.c:54-73 | send_fd then recv_fd: the descriptor |

## Left out

- The aborts `err_dump`, `err_quit` and `err_sys` in the database: their conditions are preconditions (no null bytes in strings, data length 2 to 1024, room in `DbHandle.Db.Store`) or steps that are not taken (`DbProcs.Fits`); the checks in `_db_readidx` are proved never to fail.
- DbHandle.Db.Store: does not model the counters `cnt_*`, and takes the argument strings as given.
- DbHandle.RunCalls: stops at the first store that breaks a limit of the format, where the library would abort half way through or later.
- After a new key with a separator the model says that its chain cannot be searched, and no more about the database.
- DbHandle.Db.ReadAll: no other call on the handle and no other process in between; the library promises nothing else.
- DbConcSteps.KeepNrLock: the reads that db_nextrec makes under its lock are not steps of the concurrent model; `DbConc.NextRecReads` says what they find in any one state. Between two of them a store may overwrite a record or link it in, which that lock does not prevent.
- DbConcSteps.KeepScanNext: header and text of an index record are read in one step, where the library makes two reads under the same lock; likewise a lock request that has to wait is one step, taken when it is granted.
- DbConcSteps.KeepCall: in the concurrent model a store has one of the three flags, since one with another flag returns before it takes any lock, and no separator in its key, since a process that meets such a record aborts.
- db_open with O_TRUNC on a database in use, db_open without O_CREAT, db_close, short reads and writes, and processes that die in the middle of a call.
- A handle used by several threads; in the concurrent model each process has its own.
- FooTwoLocksRuns.RefinesOneLock: malloc and pthread_mutex_init succeed; counts are unbounded; threads call hold and release only on objects they have a reference to, as the program requires.
- FooOneLock.FooTable.Rele: the freed node simply drops out of the table; use after free is the subject of the two-lock model.
- Semaph.CounterCountsHandles: one key; no sem_open, which takes no lock, and no direct sem_rm; a process closes only handles it has; semget and semctl succeed.
- Semaph.ValueIsAccounted: undo that would take [0] below zero stops at zero, and the model keeps account of the difference; upper limits on values are left out.
- Rot13.Pipeline.Run: the data of a buffer is a sequence in the buffer's record, the file does not change while it is read, reads and writes succeed in full; isalpha is that of the C locale; the final fsync is left out.
- Merge.MergeRight: takes sorted segments for granted; heapsort and the threads and barrier around it are left out.
- SparseCopy.Cp: opening, closing and errors; writes are complete.
- MemStream.Stream.Write: a write whose int arithmetic would overflow, or that would go outside the buffer, has no defined effect and ends as `Undefined` without one; close, funopen and the buffering of the standard I/O library are left out.
- Opend.Server.Sweep: the order in which packing has the entries visited; the uid passed on with a request, whose index no longer matches after packing; what a request does; errors of accept and read, which end the program.
- JobQueue.Run: one printer thread as in the program, each critical section one step; the worker list, the protocol with the printer, configuration and spool directory are left out.
- FdPass.RecvFd: the function that is given the text takes all of it; recvmsg errors return -1 as end of file does.
- `Chapter03/my_dup2.c`, the TELL/WAIT routines, the select version of the poll loop, and the demonstrations of processes, signals, terminals and sockets.
