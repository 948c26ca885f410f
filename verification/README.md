# MTP drive behind a write-back cache: a verified model

The program mounts an MTP device as a drive.  Applications work on local copies of files (the cache); a worker thread
pulls files from the device and pushes changed copies back; the device is a tree of nodes that can be looked up, created,
deleted, renamed and moved.  This project models that behaviour and proves what it is meant to guarantee.  One module
per component, in the order in which they build on each other:

| file | what it models |
|---|---|
| `Paths.dfy` | the path type: parsing, printing, comparison without regard to letter case, the order of cache keys |
| `CommandLine.dfy` | quoting of the controller's arguments and the daemon's tokenizer |
| `HashNames.dfy` | the provider of unique backing-file names |
| `RwLock.dfy` | the lock around the cache map, and any number of threads using it |
| `Blocks.dfy` | 512-byte block storage of an in-memory file |
| `Nodes.dfy`, `Children.dfy` | in-memory nodes, and the path map (upper-cased path to folder or bytes) a tree stands for |
| `Names.dfy` | the stored names of a tree's nodes, before and after a change |
| `Drives.dfy` | the mapped drive: lookup, read, write, create, delete, rename |
| `Printing.dfy` | printed node paths and lookup |
| `Copying.dfy`, `Moving.dfy` | the recursive copy and `moveNode` |
| `MovingBelow.dfy` | a directory moved to a free path below itself |
| `Requests.dfy` | the worker's handler for tree requests, every command and every callback site |
| `FileRequests.dfy` | the worker's handlers for pulls and pushes, bytes and callback sites |
| `CacheSpec.dfy` | the cache as a transition system over values; coherence over whole runs |
| `CacheObjects.dfy` | the cache's classes; every method is one step of `CacheSpec` |
| `Refused.dfy` | clients that end an access they were not granted |
| `CacheSync.dfy` | the loops over the cache map: sync, background eviction, shutdown flush |
| `SplitPush.dfy` | pushes in three steps that overlap with clients |
| `Forgetting.dfy` | runs in which clients lose what they wrote |
| `Accesses.dfy` | granted clients keep their file, when writers are let in, why something is pushed |
| `CacheMove.dfy` | `moveOrRenameInode`: device move plus rebinding of the entries below |
| `Misses.dfy` | concurrent misses under the reader/writer lock |
| `Scheduler.dfy`, `ConnectionSync.dfy` | request queues, worker loop, wake-up flag and callbacks; and the classes |
| `Serving.dfy` | the handlers behind the queues: the calls the scheduler sees are those the handlers make |

## How to read it

*Objects and specifications.*  What the original updates in place is a class here, and each method's contract equates
the object's new abstract state with a function of the old one.  The properties are proved about those functions: as
invariants of every step and then of every run.  `Items()` is a drive's path map; `State()` is the value of an entry,
cache, lock or connection; `View` is what clients see: the cached bytes where an entry holds the file, the device's
elsewhere.  What these functions mean is then said once more without them: in the fields before and after, in stored names
(`NamesKept`, `NamesAdded`, `NamesMoved`), in texts up to letter case (`SamePath`), or in who is served by a run.

*Pointers into the tree.*  A pointer to a node is the node's key path, and assigning through it is `Nodes.Put`.

*A device that may refuse.*  A `Drive` is `reliable` (the in-memory nodes) or may refuse any creation, read or deletion.
One body of `MoveNode` is proved for both: on a reliable drive it moves exactly when it should; on any drive no file is
lost.

*Granularity.*  One step each: finding or creating an entry with its status test and the status change of `_asyncPull`
(the original takes the status mutex twice, and what happens in that gap is not covered); one re-test by a waiting
client, which may happen at any time; the end of an access; one write by a client; one push request; one transfer by the
worker with its callback; one eviction.  A look-up with access counting and the status test is one step.  The two passes
of the background job are one uninterrupted operation.  In `SplitPush` a push is three steps instead: reading the backing
file, the write to the device with its three possible outcomes, and the callback.  Every critical
section of the lock, of the queues and of the wake-up flag is a step of its own.  "Granted" clients are those past the
status test; the original's counters are raised earlier and stay raised when access is refused, and so do the model's.

*Choices left to the environment.*  Clocks and interrupt flags become sets of due keys and arbitrary interruptions; the
order of a map traversal is arbitrary; whether a transfer fails is arbitrary.  A pull that fails may leave a part of the
file; a push that fails may leave the device as it was or without the file, because writing a file deletes it first.  A
push whose entry was evicted finds no backing file, and its callback does nothing.

*Callbacks.*  A handler gets a callback object that may be missing and remembers the values it was called with.  Every
`callback` statement of the handlers is a call to it, and `Serving` passes those calls on to the scheduler.

## What was found

- `Requests.AnswerDescribesState`: the answer to a tree request describes the state it leaves, with exactly one
  exception: asked to create the root as a directory, the handler answers false although the root is a directory.
- `CommandLine.QuotingRoundTrip`: arguments survive quoting and tokenizing exactly when the last one is not empty; a
  trailing empty argument is dropped.
- `CacheSync.FlushMeetsView` and `CacheSync.DestroyCache`: destroying the cache leaves the device equal to the view exactly
  when no cached file is empty (or stands for an empty device file), because an empty file is never pushed.
- `SplitPush.CoherentExactlyWhenNothingIsLost`: when pushes overlap with writes, and whatever fails, clients see the
  initial device plus their writes throughout a run exactly when every evicted copy is on the device and every write that
  loses a device file (which is deleted before it is created again) finds an entry holding the file.
  Both conditions can fail.  `Forgetting.EvictionCanForget`: no push fails, the callback of an earlier push makes an entry
  available whose later push is still queued, and evicting it loses a finished write.  `Forgetting.LostWriteForgets`: the
  evicted copy is on the device, but a second push of the same bytes is in flight, deletes the file, and fails.
  `SplitPush.CarefulEvictionIsCoherent` follows: while no push fails, sparing entries with a pending push is enough.
- `CacheSpec.CoherentExactlyWhenSaved`: with pushes as one step the condition is that every evicted copy is on the device,
  and only a push that failed after it had deleted the device file can break it (`CacheSpec.CacheIsCoherent`).
  `CacheSpec.LostPush`: such a push is not seen at once, and leaves an available entry without its device file exactly when
  the entry was available, without a writer, with this push still queued.  `Forgetting.LostPushForgets` is a run from the
  empty cache that gets there and then evicts the only copy.
- `MovingBelow.MoveBelowItself`: moving a directory to a free path below itself does not return on the in-memory tree: for
  every number of nested levels, as many folders have been created inside each other and the copy has not finished.
- `Refused.RefusedWriteEnds`: ending a write access that was not granted makes the entry dirty.  This changes what clients see
  exactly when nobody held the file and the failed pull left something else than the device's bytes; in
  `Refused.RefusedWriteReachesDevice` the next push writes that part over the device's file.
- `CacheMove.MoveOrRenameInode`: a move that fails has erased the entry at the target.  This shows exactly when the entry's
  copy differs from the device file and is not pushed: it is empty, or a client still writes it.
- `Accesses.WritersDuringPush`: a writer is let in while its entry is being pushed exactly when it wakes late from the wait
  for a pull, because the wait for the push comes before that wait.  `Accesses.LateWriterDuringPush` is a run of eight steps
  from the empty cache in which this happens.
- `HashNames.ConstantHashCycles`: for some hash functions the probe loop for a free name need not end.

## Model

| member | source | states |
|---|---|---|
| Paths.Parse | mtpaccess/Utils.cpp:214-238 | the parser yields the non-empty words between separators of either kind, and so only valid component names |
| Paths.SplitAtSeparator | mtpaccess/Utils.cpp:221-228 | a separator anywhere cuts a path in two: parsing is a homomorphism from text to component lists |
| Paths.GetLeftSubPath | mtpaccess/Utils.cpp:252-267 | the leading components up to the given index, all of them when it is past the end |
| Paths.GetFullPath | mtpaccess/Utils.cpp:367-386 | the loop prints the components joined by single backslashes |
| Paths.ParsePrinted | mtpaccess/Utils.cpp:367-386 | parsing what was printed gives the path back, letter case included |
| Paths.ParseChild | mtpaccess/AbstractConnection.cpp:188 | a printed path, a backslash and a valid name parse to the path extended by the name |
| Paths.ParseNodePath | mtpaccess/AbstractFileSystem.h:47-48 | the printed path of a node under a root named "" parses to the names below the root |
| Paths.PrintedLooks | mtpaccess/Utils.cpp:367-386 | a printed path has the components' characters and one more between any two of them, and no slash |
| Paths.SlashesCut | mtpaccess/Utils.cpp:221-228 | '/' and '\' both cut a path in two |
| Paths.NothingElseCuts | mtpaccess/Utils.cpp:221-228 | a text with neither of the two characters is one component |
| Paths.SpellingOfSeparators | mtpaccess/Utils.cpp:214-238 | kind, repetition, and leading or trailing separators do not change the path |
| Paths.SpellingOfLetters | mtpaccess/Utils.h:122-131 | texts that are the same up to the case of ASCII letters have the same components up to case, and the same key |
| Paths.UpperLooks | mtpaccess/Utils.h:122-131 | upper-casing changes nothing but letter case and leaves no lower-case letter |
| Paths.SameTextIsSameUpper | mtpaccess/Utils.h:122-131 | the upper-cased texts are equal exactly when the texts are the same up to the case of ASCII letters, character by character |
| Paths.SamePathIsSameKeys | mtpaccess/Utils.h:122-131 | paths have the same key exactly when their components are the same texts up to letter case |
| Paths.ComponentsTrichotomy | mtpaccess/Utils.cpp:440-449 | of two paths of equal length exactly one is less, unless they are equal ignoring letter case |
| Paths.KeyOrderIsLawful | mtpcache/FileCache.cpp:651-658 | the order on cache keys is a strict weak order whose equivalence is equal drive and the same components up to letter case |
| Paths.WordLessMeans | mtpaccess/Utils.h:131 | a name is less than another exactly when it is less at the first character where they differ in more than case, or ends there |
| Paths.PathLessMeans | mtpaccess/Utils.cpp:438-451 | a path is less than another exactly when it is shorter, or as long and less at the first component where they differ in more than letter case |
| CommandLine.BuildCommand | mtpmount/MtpMountEntry.cpp:88-97 | main's loop builds 'c' followed by every argument in quotes, separated by blanks |
| CommandLine.Tokenize | mtpaccess/Utils.cpp:316-344 | the tokenizer's loop computes the token list of its grammar, which `CutAtBlank` and `LastToken` determine for every text |
| CommandLine.CutAtBlank | mtpaccess/Utils.cpp:316-344 | any text: a blank behind an even number of quotes ends a token, which is the text before it without its quotes, empty or not |
| CommandLine.LastToken | mtpaccess/Utils.cpp:316-344 | any text whose blanks all stand behind an odd number of quotes is one token, the text without its quotes, or none when that is empty |
| CommandLine.QuotingRoundTrip | mtpmount/MtpMountEntry.cpp:88-97 | for arguments without a double quote, tokenizing the quoted join gives them back, less one trailing empty argument; and gives them back exactly when the last is not empty |
| CommandLine.SendAndReceive | mtpmount/IPC.cpp:81-85 | what the daemon's callback receives are the controller's arguments, less one trailing empty one |
| HashNames.ConflictlessHashProvider.GetHash | mtpaccess/Utils.cpp:351-365 | a call that returns hands out the first free hash of the sequence that starts with the seed's hash and goes on with the hash of the seed followed by the last hash in decimal; the name is that hash in hexadecimal, never issued before, and the conflicts are counted |
| HashNames.NumeralRoundTrip | mtpaccess/Utils.cpp:357-364 | in decimal and in hexadecimal, a number is printed with lower-case digits of that base and no leading zero, and reading it gives the number back |
| HashNames.HexInjective | mtpaccess/Utils.cpp:362-364 | different hashes print differently |
| HashNames.NamesNeverShared | mtpaccess/Utils.cpp:351-365 | over any run of calls that return, all names are pairwise distinct, whatever the hash function |
| HashNames.ConstantHashCycles | mtpaccess/Utils.cpp:355-359 | the probe loop does not end for every hash function: with a constant one no second call returns |
| RwLock.ParalellReadUniqueWriteSync.constructor | mtpaccess/Utils.h:174 | the lock starts with no reader, no writer and no request |
| RwLock.ParalellReadUniqueWriteSync.GetReadAccess | mtpaccess/Utils.cpp:392-400 | one loop test: admitted, and counted, exactly when there is neither a writer nor a write request; else nothing changes |
| RwLock.ParalellReadUniqueWriteSync.EndReadAccess | mtpaccess/Utils.cpp:405-407 | lowers the reader count by one |
| RwLock.ParalellReadUniqueWriteSync.LockWriteMutex | mtpaccess/Utils.cpp:413 | takes the write mutex unless it is taken |
| RwLock.ParalellReadUniqueWriteSync.RequestWriteAccess | mtpaccess/Utils.cpp:416-427 | sets the request and makes the first test: access at once exactly when no reader is counted, else the request stays |
| RwLock.ParalellReadUniqueWriteSync.GetWriteAccess | mtpaccess/Utils.cpp:418-426 | one loop test: the request becomes access exactly when no reader is counted, else nothing changes |
| RwLock.ParalellReadUniqueWriteSync.EndWriteAccess | mtpaccess/Utils.cpp:431-433 | ends the write access |
| RwLock.ParalellReadUniqueWriteSync.UnlockWriteMutex | mtpaccess/Utils.cpp:435 | frees the write mutex |
| RwLock.StepKeepsInv | mtpaccess/Utils.cpp:388-436 | every step of every thread keeps the lock's invariant, and while a write request is pending the reader count does not rise |
| RwLock.LockIsSafe | mtpaccess/Utils.cpp:388-436 | for any number of threads and any interleaving: an admitted writer excludes every reader and other writer, the counter equals the number of admitted readers, and does not rise under a pending request |
| RwLock.LeavesNothingBehind | mtpaccess/Utils.cpp:388-436 | when every thread has left, no count, flag or mutex of the lock is left set |
| RwLock.WaitsForSomebody | mtpaccess/Utils.cpp:388-436 | in every reachable state a thread inside the lock has a step that brings it nearer to leaving, unless it waits: for a writer or a pending request, for the owner of the write mutex, or for a reader |
| RwLock.SomebodyProceeds | mtpaccess/Utils.cpp:388-436 | the lock never deadlocks: while a thread is inside, some thread has a step that brings it nearer to leaving |
| Blocks.ReadBlock | mtpaccess/TestFileSystem.cpp:37-41 | a block of the given size holds the next bytes of the stream |
| Blocks.FillWithData | mtpaccess/TestFileSystem.cpp:29-55 | the blocks are full 512-byte blocks and one shorter last block, byte i of block k is byte 512 * k + i of the stream, and the stream is read up to there; past its end, bytes are 255 |
| Blocks.ContentToStream | mtpaccess/TestFileSystem.cpp:15-27 | reading delivers all blocks' bytes in order: byte i of block k at 512 * k + i when the blocks before the last are full |
| Nodes.PrefixClosed | mtpaccess/AbstractConnection.cpp:4-13 | every ancestor of an existing path exists and is a directory |
| Nodes.PutMap | mtpaccess/AbstractConnection.cpp:4-13 | replacing the node at a path changes the path map at and below that path only, to the new node's map |
| Names.AddedNames | mtpaccess/TestFileSystem.cpp:113-152 | a new child is stored under its name as given, and every other node keeps its name |
| Names.RenamedNames | mtpaccess/TestFileSystem.cpp:198-202 | renaming a child stores the new name as given; the nodes below it keep their names, and so do all others |
| Drives.Drive.GetContentByName | mtpaccess/TestFileSystem.cpp:85-97 | the first child whose name is the same text up to letter case, or nothing when there is none |
| Drives.Drive.CreateNewFolder | mtpaccess/TestFileSystem.cpp:113-126 | appends an empty folder of this very name unless the name is taken; a reliable directory refuses for no other reason; all other names stay |
| Drives.Drive.CreateNewFileWithStream | mtpaccess/TestFileSystem.cpp:128-152 | appends a file of this very name that holds the next `size` bytes of the stream unless the name is taken; all other names stay |
| Drives.Drive.DeleteContentByName | mtpaccess/TestFileSystem.cpp:154-168 | removes the first child with exactly this name and leaves the others in order; refuses only when there is none |
| Drives.Drive.DeleteMe | mtpaccess/TestFileSystem.cpp:57-70 | removes the node and everything below it from the path map and nothing else; only the root cannot be deleted |
| Drives.Drive.FilePathToNode | mtpaccess/AbstractConnection.cpp:4-13 | the loop over the components is lookup by key path |
| Drives.Drive.CheckIfExists | mtpaccess/AbstractConnection.cpp:20-25 | tells folder, file and absent paths of the path map apart |
| Drives.Drive.ReadFile | mtpaccess/AbstractConnection.cpp:27-35 | returns exactly the file's bytes; fails exactly for absent paths and folders |
| Drives.Drive.WriteFile | mtpaccess/AbstractConnection.cpp:37-71 | delete and re-creation replace exactly this file's bytes and keep every name, this file's included; succeeds exactly on existing files; a failure changes nothing at all, or, on an unreliable drive, deletes an existing file |
| Drives.Drive.CreateFileWithStream | mtpaccess/AbstractConnection.cpp:74-91 | for any name: adds exactly this file to the path map, at the directory's path and the upper-cased name, and stores the name as given; succeeds exactly when the directory exists and the name is free in it |
| Drives.Drive.CreateFolder | mtpaccess/AbstractConnection.cpp:124-137 | for any name: adds exactly this folder to the path map and stores the name as given; succeeds exactly when the directory exists and the name is free in it |
| Drives.Drive.DeleteFileOrDirectory | mtpaccess/AbstractConnection.cpp:104-121 | removes the whole subtree; refuses the root, absent paths, and folders where a file is expected |
| Drives.Drive.Rename | mtpaccess/TestFileSystem.cpp:198-202 | any node, the root included, to any name: the node found has the new name, and when no sibling has it the path map is the old one with the prefix rewritten |
| Drives.Drive.RenameObject | mtpaccess/AbstractConnection.cpp:185-196 | for every object and name: succeeds exactly when the object exists and the path with the parsed new name does not; then the subtree is at the new name, stored as given, the nodes below keep their names, and nothing else changed |
| Printing.ChildPathParses | mtpaccess/AbstractConnection.cpp:316 | a directory's printed path, a backslash and a child's name lead to that child |
| Printing.LookupPosition | mtpaccess/AbstractFileSystem.h:47-48 | the names on the way to any node of a well-formed tree are found again by lookup |
| Printing.PrintedPathFindsNode | mtpaccess/AbstractFileSystem.h:47-48 | on every well-formed tree, looking up a node's printed path gives that very node and no other node prints to the same key |
| Printing.TypedPathFindsNode | mtpaccess/AbstractConnection.cpp:4-13 | looking a path up finds the node whose names on the way are the same texts up to letter case, and nothing when there is none |
| Printing.SpellingsShareKeyAndNode | mtpcache/FileCache.cpp:651-658 | texts that differ by any sequence of respellings (letter case, kind and repetition of separators, separators at either end) get keys neither of which is less than the other, and when one names a tree node they all look that node up |
| Copying.CopyFileTo | mtpaccess/AbstractConnection.cpp:346-356 | a file is read and created under its name in a directory; copied exactly when both succeed, and then with its bytes |
| Copying.NewFolderIn | mtpaccess/AbstractConnection.cpp:315-317 | a folder is created under a free name and found again by its printed path |
| Copying.CopyFile | mtpaccess/AbstractConnection.cpp:340-362 | copies one file under its name, touching nothing else; on failure the source still has it |
| Copying.CopyFolder | mtpaccess/AbstractConnection.cpp:312-339 | copies one folder with all below, finding the new folder by its printed path; every file of it survives in source or copy |
| Copying.VisitChild | mtpaccess/AbstractConnection.cpp:310-364 | a visit extends the copied part by one child and lists it for deletion exactly when it was copied completely |
| Copying.TidyUp | mtpaccess/AbstractConnection.cpp:366-374 | deleting the listed children loses no file: each is in the copy |
| Copying.CopyContents | mtpaccess/AbstractConnection.cpp:289-291 | the recursive copy ends; every file survives in source or copy with its bytes; without a failure the copy's map is the source's map; a reliable drive never fails |
| Moving.MustMove | mtpaccess/AbstractConnection.cpp:207-222 | true exactly when the paths lie in different directories |
| Moving.MoveFile | mtpaccess/AbstractConnection.cpp:258-281 | a file is at the new path with its bytes and the new path's own last component as its name, nothing else changed; on failure it is not lost |
| Moving.MoveDirectory | mtpaccess/AbstractConnection.cpp:282-307 | a directory is rebuilt completely at the new path under the new path's last component, every node below under the name it had; on failure every file is at its old or its new path |
| Moving.CopyAndDelete | mtpaccess/AbstractConnection.cpp:289-306 | after the recursive copy the source is deleted when the copy was complete and nothing is lost in either case; a reliable drive ends with the prefix rewritten |
| Moving.CopiedNames | mtpaccess/AbstractConnection.cpp:282-307 | after a complete copy and the deletion of the source, the names below the target are those the source had, and all others are as before |
| Moving.RenameInPlace | mtpaccess/AbstractConnection.cpp:230-244 | within one directory, renaming is moving: the path map is the old one with the prefix rewritten, and the node has the new path's last component as its name |
| Moving.InternalMoveNode | mtpaccess/AbstractConnection.cpp:247-308 | success needs an existing source, a free target and the target's directory, and puts the whole source subtree at the target, names included; whatever fails, no file of the source subtree is lost and nothing beside source and target changes |
| Moving.MoveNode | mtpaccess/AbstractConnection.cpp:198-245 | on the in-memory tree it succeeds exactly when old exists, new is free and new's directory exists; then the path map is the old one with the prefix rewritten, old is gone, all else unchanged; the node is named by new's last component and every node below keeps its name; on any device no file is lost |
| MovingBelow.CopyContentsBelow | mtpaccess/AbstractConnection.cpp:310-336 | a visitor whose new directory lies below its source meets, on the way there, a directory for which it starts a visitor in the same situation: for every number of levels it has not finished, and the folders are nested that deep |
| MovingBelow.VisitBeside | mtpaccess/AbstractConnection.cpp:310-364 | a child beside the way is copied, and the visitor's situation stays the same |
| MovingBelow.MoveBelowItself | mtpaccess/AbstractConnection.cpp:282-291 | moving a directory to a free path below itself has not finished after any number of levels |
| Requests.AnswerDescribesState | mtpcache/ConnectionSync.cpp:269-325 | the answer is true exactly when the goal holds in the state the request leaves, except for creating the root as a directory |
| Requests.RepeatingChangesNothing | mtpcache/ConnectionSync.cpp:269-325 | repeating a request changes nothing and gets the same answer |
| Requests.RequestDoesItsWork | mtpcache/ConnectionSync.cpp:269-325 | what can be created is created and what is to be deleted is gone with all below; no other path changes |
| Requests.HandleDelete | mtpcache/ConnectionSync.cpp:269-279 | absent paths are answered true, existing ones are deleted with all below, the root is refused; one call to a callback, and the same effect without one |
| Requests.HandleCreateAsFile | mtpcache/ConnectionSync.cpp:280-295 | creates an empty file where possible and answers true when the path is or becomes a file; one call to a callback, and the same effect without one, although the early returns are skipped then |
| Requests.HandleCreateAsDirectory | mtpcache/ConnectionSync.cpp:296-309 | creates a folder where possible and answers true when a non-root path is or becomes a folder; one call to a callback, and the same effect without one, although the early returns are skipped then |
| Requests.DoForAllContent | mtpaccess/TestFileSystem.cpp:99-111 | the function object is given all children in order, or those up to the first for which its answer is false, at least one |
| Requests.HandleDiscover | mtpcache/ConnectionSync.cpp:258-336 | one call to a callback; the nodes shown are the one looked up, or all children of the directory in order up to the first answered with false, or none |
| Requests.HandleRename | mtpcache/ConnectionSync.cpp:337-342 | one call to a callback, with the success of the rename, and the rename's effect |
| Requests.HandleMove | mtpcache/ConnectionSync.cpp:343-348 | one call to a callback, with the success of the move, and the path map with the prefix rewritten where the device can move |
| Requests.HandleCommand | mtpcache/ConnectionSync.cpp:269-325 | one call to a callback, whose value tells whether the goal holds afterwards but for the root as a directory |
| Requests.HandleTreeAccessReq | mtpcache/ConnectionSync.cpp:243-352 | every command and branch: a callback is called exactly once, device and answer are those of the request, and the function object is shown what the request asks for, with a callback and without; an unmapped drive is answered false |
| FileRequests.ReadCopy | mtpcache/ConnectionSync.cpp:387-394 | the existence test and the read: a read that succeeds delivers the device file's bytes |
| FileRequests.WriteCopy | mtpcache/ConnectionSync.cpp:440-444 | the device has the backing file's bytes, or is as it was, or has lost the file; the answer tells the first |
| FileRequests.HandleFilePullReq | mtpcache/ConnectionSync.cpp:354-399 | one call to a callback, true exactly when the file is there and the read succeeded, and then the backing file has the device file's bytes; a failed read may leave a part |
| FileRequests.HandleFilePushReq | mtpcache/ConnectionSync.cpp:401-447 | one call to a callback, true exactly when the backing file is not empty, the device has the file and the write succeeded, and then the device file has the backing file's bytes; a failed write may lose the device file |
| CacheSpec.BeginKeeps | mtpcache/FileCache.cpp:193-252 | beginning an access, with a new entry and a pull request where needed, keeps the invariant and the view |
| CacheSpec.WakeFromPullKeeps | mtpcache/FileCache.cpp:218-230 | a client leaving the wait for a pull keeps the invariant and the view |
| CacheSpec.WakeFromPushKeeps | mtpcache/FileCache.cpp:201-205 | a writer leaving the wait for a push keeps the invariant and the view |
| CacheSpec.EndKeeps | mtpcache/FileCache.cpp:241-261 | ending an access keeps the invariant and the view |
| CacheSpec.WriteKeeps | mtpcache/FileCache.cpp:247-252 | a write by a granted writer changes the view at its path only, to the written bytes |
| CacheSpec.PushIfDirtyKeeps | mtpcache/FileCache.cpp:306-312 | queueing a push keeps the invariant and the view |
| CacheSpec.ServePullKeeps | mtpcache/ConnectionSync.cpp:354-399 | a pull, failed or not, and its callback keep the invariant and the view |
| CacheSpec.ServePushKeeps | mtpcache/ConnectionSync.cpp:401-447 | a push that succeeds, or fails and leaves the device as it was, keeps the invariant and the view, callback included |
| CacheSpec.OrphanHasNoFile | mtpcache/ConnectionSync.cpp:434-439 | the push of an entry that was evicted finds no backing file |
| CacheSpec.EvictKeepsBase | mtpcache/FileCache.cpp:74-90 | evicting an idle entry keeps the view exactly when the entry holds nothing or the device has its bytes |
| CacheSpec.EvictKeeps | mtpcache/FileCache.cpp:62-99 | with atomic pushes an idle entry equals the device file, so evicting it keeps the view |
| CacheSpec.StepKeeps | mtpcache/FileCache.cpp:165-345 | every step keeps the invariant, and only a client's write changes the view |
| CacheSpec.CacheIsCoherent | mtpcache/FileCache.cpp:165-345 | over every interleaving, with evictions and failing transfers that lose no device file, the view is the initial device plus the clients' writes in order, and an available entry without a granted writer equals the device file |
| CacheSpec.LostPush | mtpaccess/AbstractConnection.cpp:55-61 | a push that fails after deleting the device file keeps the view; available entries without a writer still equal the device exactly when the pushed entry is not such an entry |
| CacheSpec.StepIsCoherent | mtpcache/FileCache.cpp:165-345 | whatever fails, a step keeps the weaker invariant and shows clients nothing but their writes exactly when it does not evict a copy the device lacks |
| CacheSpec.CoherentExactlyWhenSaved | mtpcache/FileCache.cpp:62-345 | over every run, pushes that lose the device file included: clients see the initial device plus their writes throughout exactly when every evicted copy is on the device |
| CacheObjects.FileTableEntry.constructor | mtpcache/FileCache.cpp:152-163 | a new entry is non-existent with no accesses |
| CacheObjects.FileTableEntry.GetAccess | mtpcache/FileCache.cpp:193-252 | by old status and counters: a writer waits while the entry is pushing; an available, dirty or pushing entry grants access else; any other makes the client wait for a pull, which is started unless it is under way |
| CacheObjects.FileTableEntry.AfterPull | mtpcache/FileCache.cpp:218-230 | access is granted exactly when the pull did not fail |
| CacheObjects.FileTableEntry.AfterPush | mtpcache/FileCache.cpp:201-205 | a writer is granted access once the entry is no longer pushing |
| CacheObjects.FileTableEntry.EndReadAccess | mtpcache/FileCache.cpp:241-245 | lowers the read count, granted or not, and leaves the status alone |
| CacheObjects.FileTableEntry.EndWriteAccess | mtpcache/FileCache.cpp:254-261 | lowers the write count and makes the entry dirty whatever its status was, granted or not |
| CacheObjects.FileTableEntry.PushIfDirty | mtpcache/FileCache.cpp:306-312 | exactly a dirty entry becomes pushing |
| CacheObjects.FileTableEntry.PullCallback | mtpcache/FileCache.cpp:314-327 | available or failed, by the outcome |
| CacheObjects.FileTableEntry.PushCallback | mtpcache/FileCache.cpp:329-345 | a pushing entry becomes available or dirty again; any other status stays |
| CacheObjects.FileTableEntry.Idle | mtpcache/FileCache.cpp:282-298 | no transfer, no unsaved change, no counted reader, no counted writer |
| CacheObjects.FileTableEntry.Rename | mtpcache/FileCache.h:117 | the entry stands for the new device path |
| CacheObjects.FileCache.constructor | mtpcache/FileCache.cpp:5-11 | an empty cache over the device |
| CacheObjects.FileCache.CreateCacheEntry | mtpcache/FileCache.cpp:143-144 | a fresh entry is added under its key, the rest of the map stays |
| CacheObjects.FileCache.CacheAccess | mtpcache/FileCache.cpp:363-380 | the entry of the key, a new one with an unused backing file exactly when there was none |
| CacheObjects.FileCache.BeginAccessByFileName | mtpcache/FileCache.cpp:382-395 | find or create the entry, count and test, queue a pull: the begin step of the specification |
| CacheObjects.FileCache.WakeFromPull | mtpcache/FileCache.cpp:218-230 | the corresponding step of the specification; granted exactly when the pull did not fail |
| CacheObjects.FileCache.WakeFromPush | mtpcache/FileCache.cpp:201-205 | the corresponding step of the specification |
| CacheObjects.FileCache.EndFileAccessByName | mtpcache/FileCache.cpp:397-408 | the end of an access that was granted, refused or never begun; a path without an entry gets a new one |
| CacheObjects.FileCache.EnqueuePull | mtpcache/ConnectionSync.cpp:175-181 | the request is last in the pull queue |
| CacheObjects.FileCache.EnqueuePush | mtpcache/ConnectionSync.cpp:159-165 | the request is last in the push queue |
| CacheObjects.FileCache.FetchFile | mtpcache/ConnectionSync.cpp:354-399 | the worker's handler, run with a pull request of the cache: the value of its one callback and what it leaves in the backing file |
| CacheObjects.FileCache.SendFile | mtpcache/ConnectionSync.cpp:401-447 | the worker's handler, run with a push request of the cache: the value of its one callback and what it leaves on the device |
| CacheObjects.FileCache.PushEntry | mtpcache/FileCache.cpp:306-312 | exactly a dirty entry becomes pushing and its push is queued |
| CacheObjects.FileCache.PushSingleFile | mtpcache/FileCache.cpp:564-580 | true exactly when the path has an entry, which is then pushed if it is dirty |
| CacheObjects.FileCache.HandleFilePullReq | mtpcache/ConnectionSync.cpp:354-399 | the oldest pull leaves the queue and is served as in the specification on any drive: the device file's bytes, a part of them with a failure, or nothing; the callback reaches the entry if it is still there |
| CacheObjects.FileCache.HandleFilePushReq | mtpcache/ConnectionSync.cpp:401-447 | the oldest push leaves the queue and is served as in the specification on any drive, which may refuse the write or lose the file; the callback reaches the entry if it is still there; no stored name changes |
| CacheObjects.FileCache.DeleteEntry | mtpcache/FileCache.cpp:88-90 | the entry and its backing file are gone, nothing else changes |
| Accesses.GrantedStays | mtpcache/FileCache.cpp:74-90 | one step takes neither the entry nor its backing file from a granted client, unless it is that client's end |
| Accesses.GrantedKeepFile | mtpcache/FileCache.cpp:64-98 | over every run, whatever fails and is evicted: as long as fewer clients have ended their access than were granted it, the entry is in the map under the same backing file |
| Accesses.GrantedStaysSplit | mtpcache/FileCache.cpp:74-90 | the same for one step with pushes in three parts |
| Accesses.GrantedKeepFileSplit | mtpcache/FileCache.cpp:64-98 | the same over every run with pushes in three parts |
| Accesses.EvictableMeans | mtpcache/FileCache.cpp:282-298 | an entry can be evicted exactly when no access to it is counted and it is absent, available or failed |
| Accesses.WritersDuringPush | mtpcache/FileCache.cpp:193-230 | while an entry is pushing, a client is granted write access exactly by waking late from a pull; a writer that begins then waits |
| Accesses.WaitersForPush | mtpcache/FileCache.cpp:201-205 | a writer that waits for the push is granted access exactly by a step taken when the entry is no longer pushing |
| Accesses.LateWriterDuringPush | mtpcache/FileCache.cpp:201-230 | a run of eight steps from the empty cache in which a writer is granted access while the entry is pushing |
| Accesses.DirtyHasReason | mtpcache/FileCache.cpp:241-261 | over every run, an entry is dirty only after the end of a write access to it or after a failed push of it |
| Accesses.PushHasReason | mtpcache/FileCache.cpp:306-312 | over every run, a push is requested only after the end of a write access to its entry or after a failed push of it |
| Refused.GrantedEndIsStep | mtpcache/FileCache.cpp:397-408 | the end of a granted access is the step of the specification |
| Refused.RefusedReadEnds | mtpcache/FileCache.cpp:241-245 | the end of a read access that was not granted keeps the view, and the invariant exactly when the access was counted and refused |
| Refused.RefusedWriteEnds | mtpcache/FileCache.cpp:254-261 | the end of a write access that was not granted keeps the view exactly when the file is held or the failed pull left the device's bytes or nothing; it keeps the invariant exactly when the access was counted and refused, there is a copy, no pull is under way and the device has the file |
| Refused.RefusedWriteReachesDevice | dokanconnect/DokanDriveWrapper.cpp:370-390 | without any write by a client: a pull that fails part way, the end of the refused write access and a push put the part over the device's file |
| CacheSync.SyncAllDirties | mtpcache/FileCache.cpp:46-60 | uninterrupted, each dirty entry is pushing with its transfer queued and every other entry is unchanged; interrupted, some dirty entries are; in any case invariant and view are kept |
| CacheSync.Scan | mtpcache/FileCache.cpp:64-80 | pushes what is due and dirty without writers, and lists exactly the idle entries that are due |
| CacheSync.DeleteIdle | mtpcache/FileCache.cpp:88-90 | deleting an idle entry keeps invariant and view |
| CacheSync.DeleteListed | mtpcache/FileCache.cpp:82-98 | deletes listed entries only, all of them unless interrupted, and keeps the view |
| CacheSync.GeneralTimeBasedSync | mtpcache/FileCache.cpp:62-99 | every entry with a counted access, a transfer under way or an unsaved change is still there; uninterrupted, every other due entry is gone and every due dirty entry without writers is pushing with its transfer queued; nothing else changes; invariant and view are kept |
| CacheSync.FlushMeetsView | mtpcache/ConnectionSync.cpp:434-439 | flushing every entry makes the device equal to the view exactly when no cached file is empty (or stands for an empty device file) |
| CacheSync.FlushAfterServePush | mtpcache/ConnectionSync.cpp:401-447 | with no client active, serving a push does not change what the flush will leave |
| CacheSync.DestroyEntry | mtpcache/FileCache.cpp:347-360 | without a sync the entry is just removed; else it is pushed if dirty, the wait while the worker serves pushes ends, and it is removed |
| CacheSync.DeleteCacheEntry | mtpcache/FileCache.cpp:410-431 | found exactly when the path has an entry, which is removed without a sync |
| CacheSync.FlushAfterDestroy | mtpcache/FileCache.cpp:347-360 | with no client active, destroying an entry with a sync does not change what the flush will leave |
| CacheSync.DestroyCache | mtpcache/FileCache.cpp:16-26 | with no client active the device ends up with every non-empty cached content; it equals the view just before exactly when there are no empty copies |
| SplitPush.PartsMakeAPush | mtpcache/ConnectionSync.cpp:401-447 | the three parts of a push, run without interruption, are the atomic push of the specification, whether the write succeeds, is refused or loses the file |
| SplitPush.SplitStepKeeps | mtpcache/FileCache.cpp:165-345 | every step, pushes split, keeps: a copy nobody writes is dirty, or its push is queued, or the device has it or gets it from the push in flight |
| SplitPush.NoFinishedWriteIsForgotten | mtpcache/FileCache.cpp:179-345 | over all runs in which pushes succeed, an entry without a granted writer that differs from the device is dirty, or has a push queued, or is the push in flight carrying exactly its bytes |
| SplitPush.SplitStepIsCoherent | mtpcache/FileCache.cpp:165-345 | while no unwritten push in flight is stale, a step shows clients nothing but their writes exactly when it neither evicts a copy the device lacks nor loses a device file that no entry holds |
| SplitPush.CoherentExactlyWhenNothingIsLost | mtpcache/FileCache.cpp:62-345 | over every run with pushes in three parts, with every outcome of the device write: clients see the initial device plus their writes throughout exactly when every evicted copy is on the device and every lost device file is held by an entry |
| SplitPush.CarefulEvictionIsCoherent | mtpcache/FileCache.cpp:62-99 | if moreover no entry with a pending push is evicted, clients see the initial device plus their writes throughout |
| Forgetting.EvictionCanForget | mtpcache/FileCache.cpp:329-345 | a run of sixteen steps, no push failing, after which the last finished write is neither on the device nor in the cache; so clients do not see their writes, and an evicted copy was not on the device |
| Forgetting.LostWriteForgets | mtpaccess/AbstractConnection.cpp:55-61 | a run of sixteen steps in which every evicted copy is on the device and only the last write to the device fails: it loses the file, and clients no longer see what they wrote |
| Forgetting.LostPushForgets | mtpaccess/AbstractConnection.cpp:55-61 | with pushes as one step, a run of thirteen steps from the empty cache: the second of two queued pushes loses the device file of an available entry, and the eviction that follows takes the only copy |
| CacheMove.UnsyncedCacheRebind | mtpcache/FileCache.cpp:506-531 | false and no change without an entry at the old path, whatever the new path; else the entry is bound to the new key, whose entry is destroyed first, with a sync if it needs one |
| CacheMove.VisitNode | mtpcache/FileCache.cpp:490-504 | one node of the moved directory: all files at and below it are rebound to their new paths |
| CacheMove.RebindDirectory | mtpcache/FileCache.cpp:477-479 | all files below the moved directory are rebound, nothing else changes |
| CacheMove.ReboundStep | mtpcache/FileCache.cpp:506-531 | rebinding one more file extends the relocation by exactly that file |
| CacheMove.EraseTarget | mtpcache/FileCache.cpp:449-455 | erasing the entry at the new path, with a sync, keeps the invariant, and is invisible exactly when the entry can be flushed; always when the device has no file there |
| CacheMove.DestroyKeeps | mtpcache/FileCache.cpp:347-360 | while nothing is queued, destroying an entry keeps the invariant, and the view exactly when its copy can be flushed: it is on the device, or dirty and not empty |
| CacheMove.MoveInode | mtpcache/FileCache.cpp:539-543 | moving through the printed and re-parsed path is moving to the path: it succeeds exactly when the device can move |
| CacheMove.MoveOnDevice | mtpcache/FileCache.cpp:457-465 | moving or renaming, as `_mustMove` decides, succeeds exactly when the device can move and rewrites the prefix in the path map |
| CacheMove.RenameMeansMove | mtpcache/FileCache.cpp:459-462 | within one directory the device can rename exactly when it can move, and both lead to the same path |
| CacheMove.RebindMoved | mtpcache/FileCache.cpp:474-484 | after the device's move, exactly the entries of the files at and below the new path are rebound, for files and directories |
| CacheMove.MovedInv | mtpcache/FileCache.cpp:447-488 | the moved cache satisfies the cache's invariant again |
| CacheMove.MovedView | mtpcache/FileCache.cpp:447-488 | moving commutes with the view, bytes not yet pushed included |
| CacheMove.MoveOrRenameInode | mtpcache/FileCache.cpp:447-488 | for a target the device has or not: succeeds exactly when old exists, new is free and new's directory exists; then the view is the old view with the path prefix rewritten, the entries of the files below are at their new paths as they were and all others as they were, and names are as `Moving.MoveNode` says; a move that fails leaves the view alone exactly when the entry at the target can be flushed |
| Misses.EmplaceKeeps | mtpcache/FileCache.cpp:139-145 | creating an entry after the second look-up keeps one entry per key, while no other thread reads or writes the map |
| Misses.MissStepKeeps | mtpcache/FileCache.cpp:363-380 | every step of every thread keeps the invariant, and the map changes only while no other thread has access |
| Misses.ConcurrentMissesCreateOneEntry | mtpcache/FileCache.cpp:131-150 | for any number of threads and any interleaving, each key gets at most one entry ever, all who ask for a key receive that one, and nobody is done without an answer |
| Misses.AskersGetOn | mtpcache/FileCache.cpp:131-150 | in every reachable state an asker has a step that brings it nearer to its answer, unless it waits for the lock; and some thread always has such a step |
| Scheduler.WakeStepKeeps | mtpcache/ConnectionSync.cpp:56-77 | the phase-indexed invariant: whatever came in after its queue was checked is announced by the flag or about to be |
| Scheduler.QueueStepKeeps | mtpcache/ConnectionSync.cpp:159-197 | per class, what was enqueued is what was popped followed by what is queued, in order, after every step |
| Scheduler.LogStepKeeps | mtpcache/ConnectionSync.cpp:207-219 | a pull is popped only right after the tree queue, a push only right after tree and pull queue were found empty |
| Scheduler.CallStepKeeps | mtpcache/ConnectionSync.cpp:221-447 | the calls are those of the served requests, in order, each with the outcome of its service |
| Scheduler.CalledOnce | mtpcache/ConnectionSync.cpp:221-447 | in such a list each request with a callback appears once, any other not at all |
| Scheduler.ResultStepKeeps | mtpcache/ConnectionSync.h:156-184 | an unlocked WaitOnResult holds the value of its callback, and so does every result returned |
| Scheduler.SchedulerIsSound | mtpcache/ConnectionSync.cpp:56-453 | for any threads, requests and interleaving: no request is missed by a yielding worker, queues are first-in first-out, priorities are kept, each served request with a callback is called back exactly once, synchronous calls return their callback's value, and the worker leaves its loop only when it was stopped |
| Scheduler.ExitedForGood | mtpcache/ConnectionSync.cpp:207-219 | a worker that has left its loop serves nothing and calls nobody any more |
| Scheduler.QueuedIsServed | mtpcache/ConnectionSync.cpp:207-219 | in every reachable state in which a request is queued and nobody stopped the worker, at most five of its own steps take it to serving the oldest request of a queue, or to waiting for a flag that the threads of all queued requests have yet to set |
| Scheduler.StopEndsWorker | mtpcache/ConnectionSync.cpp:215-216 | a stopped worker with empty queues leaves its loop in at most seven of its own steps, or waits for a flag that the stopping thread has yet to set |
| ConnectionSync.WaitOnResult.SetSuccess | mtpcache/ConnectionSync.h:171 | the callback's first assignment |
| ConnectionSync.WaitOnResult.Unlock | mtpcache/ConnectionSync.h:172 | the callback's second assignment |
| ConnectionSync.WaitOnResult.TestUnlocked | mtpcache/ConnectionSync.h:175-183 | the wait ends exactly when unlocked, with the stored value |
| ConnectionSync.ConnectionSync.constructor | mtpcache/ConnectionSync.cpp:6-15 | empty queues, flags cleared, the worker about to check the tree queue |
| ConnectionSync.ConnectionSync.EnqueueRequest | mtpcache/ConnectionSync.cpp:159-205 | the request is last in its queue and its thread has yet to reach _threadWakeup; a synchronous one has its WaitOnResult |
| ConnectionSync.ConnectionSync.ThreadWakeup | mtpcache/ConnectionSync.cpp:71-77 | the flag is set |
| ConnectionSync.ConnectionSync.Stop | mtpcache/ConnectionSync.cpp:451 | the stop flag is set |
| ConnectionSync.ConnectionSync.ThreadWakeupForStop | mtpcache/ConnectionSync.cpp:452 | the destructor has reached _threadWakeup |
| ConnectionSync.ConnectionSync.CheckTreeAccessRequests | mtpcache/ConnectionSync.cpp:221-233 | pops the oldest request or goes on to the pull queue |
| ConnectionSync.ConnectionSync.CheckFilePullRequests | mtpcache/ConnectionSync.cpp:354-366 | pops the oldest request or goes on to the push queue |
| ConnectionSync.ConnectionSync.CheckFilePushRequests | mtpcache/ConnectionSync.cpp:401-413 | pops the oldest request or goes on to the stop test |
| ConnectionSync.ConnectionSync.TestStop | mtpcache/ConnectionSync.cpp:215-216 | leaves the loop exactly when stopping, yields otherwise |
| ConnectionSync.ConnectionSync.ThreadYield | mtpcache/ConnectionSync.cpp:56-69 | one test: a set flag is cleared and a new round begins, otherwise the worker stays |
| ConnectionSync.ConnectionSync.CallBack | mtpcache/ConnectionSync.cpp:396 | one callback with the outcome, if the request has one |
| ConnectionSync.ConnectionSync.FinishCallBack | mtpcache/ConnectionSync.h:169-174 | the callback of a synchronous call ends by unlocking it |
| ConnectionSync.ConnectionSync.ThreadRoutine | mtpcache/ConnectionSync.cpp:207-219 | every turn of the worker is a step of the scheduler and keeps its invariant |
| ConnectionSync.ConnectionSync.WaitFor | mtpcache/ConnectionSync.cpp:199-205 | a synchronous call returns the value its callback was called with |
| Serving.ServeTree | mtpcache/ConnectionSync.cpp:221-352 | serving a tree request: the handler's one call, if there is a callback, is the scheduler's step, with the answer the handler gives |
| Serving.ServePull | mtpcache/ConnectionSync.cpp:354-399 | serving a pull: the handler's one call is the scheduler's step, true only when the backing file got the device's bytes |
| Serving.ServePush | mtpcache/ConnectionSync.cpp:401-447 | serving a push: the handler's one call is the scheduler's step, true only when the device file got the backing file's bytes |

## Left out

- Drives.Drive.CreateFolder: that a node whose name is empty or has a separator is not reachable by any path, so that later operations no longer start from a well-formed tree; `CreateFileWithStream` and `RenameObject` likewise.
- Drives.Drive.Rename: the path map after renaming a node to a name a sibling has; `RenameObject` never does.
- Moving.MoveNode: does not cover moving an existing node to a free path below itself, and so neither do `Moving.InternalMoveNode`, `CacheMove`, `Requests.HandleMove` and `Serving.ServeTree`: on the in-memory tree such a call does not return (`MovingBelow.MoveBelowItself`).
- MovingBelow.MoveBelowItself: over the in-memory tree; a device that refuses a creation ends the copy, and what it leaves then is not modelled.
- HashNames.ConflictlessHashProvider.GetHash: partial correctness only, for the probe loop may cycle; the precondition says that it does not.
- CommandLine.QuotingRoundTrip: arguments that contain a double quote cannot be told apart after quoting.
- CacheMove.MoveOrRenameInode: does not cover moves with a transfer queued, or at the same time as other operations on the map (the first erasure runs without the lock).
- CacheMove.UnsyncedCacheRebind: does not cover rebinding an entry to its own key, where the original deletes the entry and goes on using it.
- Refused.RefusedWriteEnds: one step; the runs of `CacheSpec` and `SplitPush` have no ends of accesses that were not granted.
- SplitPush.CoherentExactlyWhenNothingIsLost: the backing file is read in one step when its push starts; a client that writes while the worker reads is not modelled.
- Requests.HandleTreeAccessReq: over the in-memory drive; a device that refuses is in `Drives`, `Moving` and `FileRequests`.  The copier's and the deleter's function objects, and discovery with time stamps, are not in it.
- CacheSync.DestroyCache: the worker serves pushes while the destructor waits; clients that are still writing are excluded.
- Misses.ConcurrentMissesCreateOneEntry: no eviction, deletion or renaming of entries in the meantime.
- The cache's lock inside the methods of `CacheObjects.FileCache`: the methods are steps one after the other, and the lock's part in concurrent misses is in `Misses`.
- The way of a synchronous tree request through the queue in `CacheMove`: it is a direct call, and `Scheduler` has the queues.
- Node pointers: nodes are values and pointers are key paths, so dangling pointers and aliasing of nodes are not captured.
- The gap between a status test and `_asyncPull`, and the second reading of the status after the wait for a pull (mtpcache/FileCache.cpp:195-228).
- The gap between finding an entry in `_cacheAccess` and raising its access counter, in which the background job may delete the entry (mtpcache/FileCache.cpp:384-387).
- The interval between the two passes of the background job, in which an entry on the list may come into use (mtpcache/FileCache.cpp:80-98).
- Delivery of notifications and liveness: waiters use local mutexes, so a notification can fall between test and wait; only flags and counters are modelled.
- Requests that are still queued when the worker leaves its loop at shutdown.
- Destruction of a WaitOnResult while its callback still notifies.
- Several mapped drives in one cache: cache keys are paths of one drive, while `Paths.KeyOrderIsLawful` covers the drive number in the key.
- `rebindCacheEntry`, `remap` and the counting and idle queries of the cache: single look-ups that add no property.
- COM access to real devices and its child cache, Dokan handlers, mailslots, subcommands, cache location, directory helpers, logging: input/output and user interface.
- Time stamps, `getFileSize`, the deprecated discovery, block sizes above the range of a C++ int.
- `towupper` outside the default "C" locale, in which only ASCII letters change.
