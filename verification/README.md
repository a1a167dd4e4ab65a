# Verified models of programs from tlpiexer

The repository holds solutions to exercises of *The Linux Programming Interface*. This project
models the programs in it that have an algorithm, a data structure or a protocol of their own, and
proves what they achieve for all inputs, all interleavings and all answers of the kernel. Where a
program meets its purpose only sometimes, a theorem says when; what it does not reach is listed under
"Left out".

**The directory-tree monitor** (`tlpi/inotify/inotify_dtree.c`) keeps a cache of watch descriptors
and pathnames in step with directory trees that change underneath it.

- `Monitor` states what the event handler does to the cache as functions; `WatchCache` is the slot
  array itself, a class proved against those functions; `EventWire` and `EventLoop` add the bytes of
  the events, the buffer, and the second read with its timeout.
- `Paths` and `DirTree` are what is mirrored: pathnames, and trees of inodes.
- `SyncTheorem.RoundTheorem`: after any `mkdir`, `rmdir` or `rename`, except of a directory above a root,
  and the handling of its events, the program has ended exactly when no root is left, and otherwise the cache mirrors the new trees
  *if and only if* the operation neither moved a root into a monitored tree nor moved a directory
  from outside over an empty monitored one; then the moved directory is not watched. `RunTheorem`
  extends this to runs of any length, `SyncExamples` shows the two failures on a concrete tree,
  `SyncMeasure` and `SyncProgress` that every handling of events ends and is never stuck, `SyncRecover`
  that an event which shows the cache wrong brings any state into step, and `SyncTwice` that a rename
  out and one in, queued together, are told from a rename within by their cookies.
- `Create.RunTheorem`: when directories are created while events are handled and trees are walked,
  in any interleaving, cached pathnames are always right, nothing is cached twice, and nothing is
  missing once the queue is empty; `CreateSettle` that the monitor can always come to that point.
- `EventLoop.ProcessInotifyEvents`: however the event stream is cut into reads, every event is handled
  exactly once and in order, pairs as one step, unless a rebuild discards the rest, and the program waits
  for the second half of a rename exactly when the first is the last event it has. `LoopSync` joins
  this to the round theorem: the bytes of an operation's events, in any pieces that split no pair, leave
  the slot array in step with the directory trees. `SyncSplit` says what becomes of a split pair.

**Protocols.** `SharedBuffer` (54-01): one token, a complete copy although the reader looks at the
size after giving the buffer away, termination, and the exact states in which the writer waits for
ever. `LostUpdate` (30-01): the exact set of final values. `FileAppend` (`atomic_append`): the exact
set of final sizes. `SignalExchange` (22-03): a pending bit loses nothing. `PipeFraming` (63-03):
nothing lost, torn or reordered.

**Heap structures.** `Links`, `NameValueList`, `NameServer` (59-04): a doubly linked list refines a
map with owners, and every answer follows from the log of requests and result codes. `KeyedList` (30-02): a list with first and last pointers
refines an association list in insertion order.

**Loops.** `TailOffset` (13-5): a backward scan in blocks, and exactly when it yields the last lines.
`LineBuffer` (`src/lib/59-01.c`): a block-buffered line reader. `SolveDot` (18-03): removing dots from
a pathname in place, with two cursors on one array. `SolvePaths` says what the result should be;
`SolveSteady` and `SolveTheorems` say for every absolute pathname when all its prefixes are resolved
rightly, and when it is itself if no ".." follows its steady part, both if and only if; `SolveRecovers`
shows how a later ".." can make up for an earlier fault.

`dafny verify dfyconfig.toml` checks everything.

Where the source and its documentation differ, the code is followed: 13-5 promises the last lines of
a file but prints one more when the file has more and does not end with a newline
(`TailOffset.TailTheorem`); 18-03 announces a resolved pathname but leaves the array when, among names of
three characters and more, ".." is met at depth 0 or 1, and takes a name of one or two characters together
with what follows it (`SolveTheorems.LongTheorem`,
`SolveTheorems.DotsTheorem`, `SolveTheorems.ShortTheorem`); `src/lib/59-01.c` takes old bytes of its
buffer for a line when a file ends inside a block (`LineBuffer.OldLine`, `LineBuffer.ReadPastEnd`); the
writer of 54-01 may wait for ever after a complete transfer (`SharedBuffer.EndsTheorem`);
`inotify_dtree.c` adds the result -1 of an interrupted second read to the size of the buffer, which is
shown to do no harm (`EventLoop.ReadBehind`).

## Model

| member | source | states |
|---|---|---|
| `Paths.AtOrBelowIsPrefix` | tlpi/inotify/inotify_dtree.c:639-641 | the `strncmp` test with the look at the next character holds if and only if the components of one pathname are a prefix of the other's; siblings that share characters are never confused |
| `Paths.RewriteIsComponentwise` | tlpi/inotify/inotify_dtree.c:638-645 | replacing the leading characters of a pathname replaces exactly its leading components and keeps the others |
| `Paths.RewriteBack` | tlpi/inotify/inotify_dtree.c:638-645 | renaming back undoes a renaming of a pathname if and only if the pathname was moved or did not lie at or below the new name |
| `Paths.RewriteMeets` | tlpi/inotify/inotify_dtree.c:638-645 | a pathname that is moved meets one that stays if and only if that one lies at or below the new name and the two have the same tail |
| `Paths.RewriteTogether` | tlpi/inotify/inotify_dtree.c:638-645 | two pathnames that are both moved, or both stay, stay different |
| `Monitor.RenameComponents` | tlpi/inotify/inotify_dtree.c:623-651 | on every cache, renaming keeps every watch and renames component by component |
| `Monitor.RenameBack` | tlpi/inotify/inotify_dtree.c:623-651 | renaming back restores the whole cache if and only if no entry that stays was at or below the new name |
| `Monitor.RenameDistinct` | tlpi/inotify/inotify_dtree.c:623-651 | pairwise distinct cached pathnames stay so if and only if no entry that stays at or below the new name has a counterpart with the same tail below the old one; in particular when the new name is vacant |
| `Monitor.RenameClash` | tlpi/inotify/inotify_dtree.c:623-651 | a cache and a renaming to an occupied name after which two watches have one pathname |
| `Monitor.FromAlone` | tlpi/inotify/inotify_dtree.c:981-1005 | a "moved from" that is followed by anything but a "moved to" with the same cookie makes exactly the entries at or below its pathname go, when all watches can be removed |
| `WatchCache.Watcher.FindWatch` | tlpi/inotify/inotify_dtree.c:233-243 | finds the slot of a descriptor, or -1 if and only if the cache does not know it |
| `WatchCache.Watcher.MarkCacheSlotEmpty` | tlpi/inotify/inotify_dtree.c:278-287 | removes exactly one entry from the cache and keeps all invariants |
| `WatchCache.Watcher.FindEmptyCacheSlot` | tlpi/inotify/inotify_dtree.c:291-314 | gives a free slot; growing by 200 slots keeps every slot and the whole cache |
| `WatchCache.ViewGrow` | tlpi/inotify/inotify_dtree.c:303-312 | empty slots behind the old ones change nothing in what the array stands for |
| `WatchCache.Watcher.AddWatchToCache` | tlpi/inotify/inotify_dtree.c:318-329 | adds exactly one entry, in a slot that was free; descriptors stay unique |
| `WatchCache.Watcher.PathnameToCacheSlot` | tlpi/inotify/inotify_dtree.c:334-344 | finds a used slot with the pathname if and only if the cache has one |
| `WatchCache.Watcher.TraverseTree` | tlpi/inotify/inotify_dtree.c:521-575 | a visited directory is cached unless its watch failed or is already cached; the count says which |
| `WatchCache.Watcher.WatchDir` | tlpi/inotify/inotify_dtree.c:582-600 | a whole walk, with the number of entries it added |
| `WatchCache.Watcher.Reinitialize` | tlpi/inotify/inotify_dtree.c:719-759 | the cache becomes that of fresh walks of the roots still listed, whatever it was before |
| `WatchCache.Watcher.RewriteCachedPaths` | tlpi/inotify/inotify_dtree.c:623-651 | one pass over the slots renames the subtree in the cache and keeps every descriptor |
| `WatchCache.Watcher.ZapSubtree` | tlpi/inotify/inotify_dtree.c:657-709 | removes exactly the entries at or below a pathname and returns their number, or -1 if and only if one of those watches cannot be removed |
| `WatchCache.ViewZapped` | tlpi/inotify/inotify_dtree.c:678-705 | emptying the slots at or below a pathname is removing those entries from the cache |
| `WatchCache.Watcher.FindRootDirPath` | tlpi/inotify/inotify_dtree.c:463-473 | finds the first live root with the pathname, or -1 if and only if there is none |
| `WatchCache.Watcher.ZapRootDirPath` | tlpi/inotify/inotify_dtree.c:486-505 | strikes one root; `ignoreRootDirs` stays the number of roots struck, so that the test for the end is true exactly when none is left |
| `WatchCache.NulledUpdate` | tlpi/inotify/inotify_dtree.c:499-500 | striking a live root raises the number of struck roots by one |
| `WatchCache.Watcher.ZapOrRebuild` | tlpi/inotify/inotify_dtree.c:996-1005 | zapping, with a rebuild when a watch cannot be removed |
| `WatchCache.Watcher.DeleteSelf` | tlpi/inotify/inotify_dtree.c:848-860 | a deleted directory leaves the cache, and the roots if it was one |
| `WatchCache.Watcher.MoveSelf` | tlpi/inotify/inotify_dtree.c:1047-1073 | a moved root is struck and its subtree zapped, unless it was the last |
| `WatchCache.Watcher.MovedFrom` | tlpi/inotify/inotify_dtree.c:946-1011 | on the slot array, what the "moved from" branch of the specification says; what that is, in masks and cookies, is stated by `Monitor.FromAlone` and `EventLoop.GroupedPairs` |
| `WatchCache.Watcher.HandleEvent` | tlpi/inotify/inotify_dtree.c:780-1073 | on the slot array, every branch of the handler does what the specification `Monitor.Handle` says, for which the theorems below are proved |
| `DirTree.LocOrder` | tlpi/inotify/inotify_dtree.c:680-682 | one pathname is at or below another if and only if one directory is a descendant of the other |
| `Sync.AppearInStep` | tlpi/inotify/inotify_dtree.c:804-846 | after a directory with any subtree appeared, walking it brings the cache back into step |
| `Sync.VanishInStep` | tlpi/inotify/inotify_dtree.c:981-1005 | after a directory with any subtree left, zapping its pathname brings the cache back into step |
| `Sync.MoveInStep` | tlpi/inotify/inotify_dtree.c:950-979 | after a move within the trees, rewriting the cached pathnames brings the cache back into step |
| `Sync.StrikeAgree` | tlpi/inotify/inotify_dtree.c:486-505 | striking the pathname of a lost root keeps the list in agreement with the roots that exist |
| `SyncTheorem.MkdirRound` | tlpi/inotify/inotify_dtree.c:804-846 | every `mkdir` is followed: in step again after its events |
| `SyncTheorem.RmdirRound` | tlpi/inotify/inotify_dtree.c:848-860 | every `rmdir` is followed; the program ends if and only if it removed the last root |
| `SyncTheorem.MoveWithin` | tlpi/inotify/inotify_dtree.c:950-979 | every move within or between monitored trees is followed, also one that replaces an empty directory |
| `SyncTheorem.MoveOut` | tlpi/inotify/inotify_dtree.c:981-1005 | every move out of the monitored trees is followed |
| `SyncTheorem.MoveIn` | tlpi/inotify/inotify_dtree.c:804-846 | a move in from outside is followed when the name was free; when it replaced a directory, the moved one ends monitored and without a watch |
| `SyncTheorem.RootAway` | tlpi/inotify/inotify_dtree.c:1047-1073 | a root moved out of sight is given up and the rest stays in step; the program ends if and only if it was the last |
| `SyncTheorem.RootIn` | tlpi/inotify/inotify_dtree.c:1047-1073 | a root moved into another monitored tree always ends monitored and without a watch |
| `SyncTheorem.RoundTheorem` | tlpi/inotify/inotify_dtree.c:768-1082 | for every state in step and every operation: the program has ended if and only if no root is left; otherwise cache, watches and roots mirror the new trees if and only if the operation is one it follows, and after any other the moved directory lies in a monitored tree without a watch |
| `SyncTheorem.RunTheorem` | tlpi/inotify/inotify_dtree.c:768-1082 | after any number of followed operations the cache is in step, or the program has ended, and it has ended if and only if no root is left |
| `SyncSplit.SplitTheorem` | tlpi/inotify/inotify_dtree.c:981-1005 | a rename within the monitored trees whose two events are handled one by one is followed if and only if no directory was replaced; otherwise the moved directory ends monitored and without a watch |
| `SyncTwice.TwiceTheorem` | tlpi/inotify/inotify_dtree.c:950-1005 | a rename out of the monitored trees and one into them, of the same directory or another, both made before either is handled: as their cookies differ they are not taken for one, and the cache is in step after all events; when the second was reported on a directory that left with the first, by a rebuild |
| `SyncProgress.RebuildInStep` | tlpi/inotify/inotify_dtree.c:719-759 | a rebuild brings the cache into step from any earlier state |
| `SyncRecover.RecoverTheorem` | tlpi/inotify/inotify_dtree.c:780-1033 | whatever the cache and the watches were, an event that shows them wrong (lost events, an unknown watch in the event or in its second half, a watch that cannot be removed) brings them into step with the trees and drops the events still queued |
| `SyncRecover.UnmountTheorem` | tlpi/inotify/inotify_dtree.c:1034-1045 | when a file system is unmounted exactly the entries of its directories leave the cache, and the roots stay listed |
| `SyncMeasure.RunsEnd` | tlpi/inotify/inotify_dtree.c:1137-1145 | from every state every sequence of steps ends, although removing a watch queues another event: an explicit bound from events, directories and watches |
| `SyncProgress.DrainTheorem` | tlpi/inotify/inotify_dtree.c:1137-1145 | in every run, at every point, within that bound, the handler can take another step unless all events are handled or the program has ended |
| `SyncExamples.RoundExists` | tlpi/inotify/inotify_dtree.c:1137-1145 | after every operation on a state in step there is a complete handling of its events, so the round theorem speaks about every operation |
| `SyncExamples.LostMoves` | tlpi/inotify/inotify_dtree.c:845-846 | a concrete tree and the two moves after which the cache is out of step |
| `Create.StepInv` | tlpi/inotify/inotify_dtree.c:521-600 | every step of the kernel, the handler and the walk keeps: each directory not yet watched will be met by the walk, or its creation or that of a directory above it is reported |
| `Create.RunBranches` | tlpi/inotify/inotify_dtree.c:780-846 | in creation-only runs the handler never has to rebuild the cache |
| `Create.RunTopmost` | tlpi/inotify/inotify_dtree.c:817-846 | in every state between two events, the topmost unwatched ancestor of any unwatched directory has a pending creation event on a watched parent |
| `Create.RunTheorem` | tlpi/inotify/inotify_dtree.c:521-600 | in every interleaving of creations with handling and walking, cached pathnames are right, no directory and no pathname is cached twice, and all directories are cached once the queue is empty |
| `CreateSettle.SettleTheorem` | tlpi/inotify/inotify_dtree.c:521-600 | from every state of every such run the monitor can, by its own steps, end its walk and empty the queue, and then every directory is cached with its pathname |
| `EventWire.DecodeEncode` | tlpi/inotify/inotify_dtree.c:776-802 | reading an event out of a buffer gives back the event and length that were written, whatever follows it |
| `EventWire.DecodeFields` | tlpi/inotify/inotify_dtree.c:776-802 | for every buffer: the four words of `struct inotify_event` stand at offsets 0, 4, 8 and 12, the first signed, and the name is what precedes the first null byte behind them |
| `EventLoop.GroupedOnce` | tlpi/inotify/inotify_dtree.c:946-1011 | the steps into which events are grouped contain every event once and in order |
| `EventLoop.GroupedPairs` | tlpi/inotify/inotify_dtree.c:946-956 | two neighbouring events are one step if and only if the first is a "moved from" of a directory and the second a "moved to" with the same cookie; all other steps are single events |
| `EventLoop.HandleGroup` | tlpi/inotify/inotify_dtree.c:946-1011 | an event is put off, without a change, if and only if it is a "moved from" on a known watch, the last of the buffer, and on the first try; otherwise exactly one group is handled, the same way on both tries |
| `EventLoop.ProcessNextInotifyEvent` | tlpi/inotify/inotify_dtree.c:768-1082 | on the bytes of the buffer: the event at the cursor is handled as specified and the result is the length of what was consumed, -1 or the buffer size |
| `EventLoop.Shift` | tlpi/inotify/inotify_dtree.c:1167-1170 | the bytes kept are moved to the front of the buffer in place, although the ranges may overlap |
| `EventLoop.ReadBehind` | tlpi/inotify/inotify_dtree.c:1165-1217 | after the second read the buffer holds the event put off and then the new ones; an interrupted read leaves the size one too small and the event intact |
| `EventLoop.SecondRead` | tlpi/inotify/inotify_dtree.c:1160-1217 | one more read is made behind the event put off, of whatever fits |
| `EventLoop.ProcessInotifyEvents` | tlpi/inotify/inotify_dtree.c:1095-1220 | for all results of its reads: the steps taken are the groups of all events read, in order and each once, or a prefix whose last step alone is a rebuild or the end of the program; the final cache is that of replaying the steps; the events put off are exactly the "moved from" events with which the reads so far ended, each once; another read is made exactly for each, while there are any; and a "moved from" on a known watch is handled as the last event only after such a read brought nothing |
| `EventLoop.RenameOverReads` | tlpi/inotify/inotify_dtree.c:1160-1217 | when one read ends with a "moved from" and the next brings its "moved to", the call leaves the old cache with the subtree renamed |
| `LoopSync.GroupedJoin` | tlpi/inotify/inotify_dtree.c:946-1011 | events read by two calls are grouped as if read by one, if no pair is split between them |
| `LoopSync.ServesPlays` | tlpi/inotify/inotify_dtree.c:768-1082 | every handling of events as seen from the file system is a replay of their groups, up to a step that discards the rest |
| `LoopSync.DrainsServes` | tlpi/inotify/inotify_dtree.c:768-1082 | every handling of all events comes with answers of the kernel and events queued meanwhile to which the joint theorem applies |
| `LoopSync.HandleCalls` | tlpi/inotify/inotify_dtree.c:1095-1220 | any number of calls do the steps of their events one after the other until one has the rest discarded; what a call has read ends with a "moved from" only if its last read was interrupted or it made all reads there were |
| `LoopSync.FollowedByCalls` | tlpi/inotify/inotify_dtree.c:768-1220 | after an operation that is followed, calls that bring its events in pieces that split no pair leave a cache in step with the new trees, or the program has ended because no root is left |
| `LoopSync.FollowOperation` | tlpi/inotify/inotify_dtree.c:768-1220 | the same for the slot array and the bytes read; no pair is split if no call gave up waiting for more events |
| `SharedBuffer.WriterInv` | src/imp/54-01-writer.c:65-81 | every step of the writer keeps the one-token invariant and conserves the input: written, in the buffer and unread bytes together |
| `SharedBuffer.ReaderInv` | src/imp/54-01-reader.c:53-65 | every step of the reader does, too |
| `SharedBuffer.RunTheorem` | src/imp/54-01-reader.c:53-65 | in every reachable state semaphores and holders share one token and the output is a prefix of the input; when the reader has left its loop the output is the whole input although it tests the size after releasing the buffer |
| `SharedBuffer.RunsEnd` | src/imp/54-01-writer.c:65-81 | no run is longer than 20 times the input plus 28 steps |
| `SharedBuffer.StuckTheorem` | src/imp/54-01-writer.c:74-81 | in every reachable state where no process can step, the reader has finished with complete output, and the writer has finished or waits at its last `sem_wait` while `sem_write` was never consumed |
| `SharedBuffer.EndsTheorem` | src/imp/54-01-writer.c:74-81 | both can always finish, and the writer can come to a state where it waits and nothing can happen any more if and only if the input is not empty |
| `LostUpdate.Bounds` | src/imp/30-01.c:138-144 | every complete interleaving ends with a value between 2 and twice `ninc` (1 and 2 for one round, 0 for none) |
| `LostUpdate.ResultTheorem` | src/imp/30-01.c:104-144 | for every `ninc` a value is the result of some interleaving if and only if it lies between 2 and twice `ninc` (1 and 2 for one round, 0 for none) |
| `SignalExchange.RunInv` | src/imp/22-03.c:140-182 | every step in either waiting mode keeps the stage of the exchange: whose turn it is and that the pending bit counts the signals outstanding |
| `SignalExchange.RunTheorem` | src/imp/22-03.c:140-182 | for every `nsig`: in every run at most one signal is outstanding, so the pending bit loses nothing (section 2.4 of POSIX.1-2017, System Interfaces); sends alternate, no signal goes to a process that has exited, the run is no longer than `6 * nsig` steps, and every maximal run ends with `2 * nsig` sends, all received |
| `FileAppend.AppendTheorem` | tlpi/fileio/atomic_append.c:56-62 | with `O_APPEND`, for any number of processes and any counts, the old size plus the sum of the positive counts is a size that some interleaving ends with, and the only one |
| `FileAppend.SeekTheorem` | tlpi/fileio/atomic_append.c:56-62 | with `lseek` a size is the result of some interleaving if and only if it lies between the old size plus the largest count and plus the sum of the positive counts |
| `FileAppend.Realize` | tlpi/fileio/atomic_append.c:56-62 | a schedule for every size in that range |
| `PipeFraming.FrameHeader` | src/imp/63-03.c:192-195 | the header at the front of the pipe gives the queue and the size of the message behind it, and cutting both off leaves the rest of the pipe |
| `PipeFraming.HeaderFields` | src/imp/63-03.c:86-91 | for every header: `qid` is the word at offset 0, `size` the eight bytes at offset 8 |
| `PipeFraming.WritesInv` | src/imp/63-03.c:186-200 | a write at any moment keeps the pipe a sequence of whole messages that, with those read, interleaves the queues |
| `PipeFraming.DataInv` | src/imp/63-03.c:216-223 | reading the data takes exactly the message announced by the header |
| `PipeFraming.RunTheorem` | src/imp/63-03.c:186-224 | in every reachable state, for any number of queues, the messages recovered and those in the pipe interleave what the queues have sent, with no loss, duplicate, tear or reordering within a queue; no run is longer than three steps for each message, and when nothing can happen any more all have been recovered |
| `TailOffset.TailStartUnique` | src/imp/13-5.c:130-160 | there is only one position to start from, so the block size cannot matter |
| `TailOffset.FindTailStart` | src/imp/13-5.c:130-160 | for every file, number of lines and block size, the backward scan ends at the position behind a newline that exactly so many newlines follow, or at 0 if there are not more of them |
| `TailOffset.TailTheorem` | src/imp/13-5.c:130-160 | what follows that position is the last n lines if and only if the file ends with a newline or has no more than n lines |
| `TailOffset.TailExample` | src/imp/13-5.c:130-160 | a file of two lines whose last is not terminated, of which both are shown when one was asked for |
| `LineBuffer.LineReader.constructor` | src/lib/59-01.c:7-21 | the first block is read and nothing of the stream is lost; behind a shorter stream the buffer keeps its old bytes |
| `LineBuffer.LineReader.Refill` | src/lib/59-01.c:36-53 | moving the unfinished line to the front and reading behind it keeps the bytes still to be delivered, and puts old bytes behind them only when the stream has ended |
| `LineBuffer.LineReader.ReadLine` | src/lib/59-01.c:23-70 | what each call returns, also past the end of the stream: the bytes up to the next newline in sight and their length, exactly they and the newline consumed; -1 if they are more than asked for; without a newline in sight all that the buffer holds, old bytes included, or 0 when the end had not been noted; 0 if and only if a newline comes first or nothing new came |
| `LineBuffer.ReadLines` | src/lib/59-01.c:23-70 | the k-th call returns exactly the k-th line, across any number of refills; if all of the file is in the buffer, exactly its lines are consumed and the old bytes behind them come next |
| `LineBuffer.ReadPastEnd` | src/lib/59-01.c:30-58 | for a file of terminated lines that is shorter than the buffer, the call behind its last line returns 0 if and only if the byte that the buffer held there before is a newline |
| `LineBuffer.OldLine` | src/lib/59-01.c:55-69 | a file of one line and a buffer for which a second call returns a line that is not in the file |
| `Links.BypassedLinked` | src/lib/59-04-llist.c:128-138 | after a node is bypassed, the others are still linked both ways in their order |
| `NameValueList.LList.constructor` | src/lib/59-04-llist.c:7-12 | the empty list is the empty map |
| `NameValueList.LList.Find` | src/lib/59-04-llist.c:29-32 | the search finds the node with the name if and only if the map has the name; it ends because the links have no cycle |
| `NameValueList.LList.Add` | src/lib/59-04-llist.c:24-57 | the list refines adding to a map: `EL_EXIST` and no change for a known name; links stay inverse and names distinct |
| `NameValueList.LList.Get` | src/lib/59-04-llist.c:59-77 | delivers the entry of the name, or `EL_NOEXT` |
| `NameValueList.LList.Set` | src/lib/59-04-llist.c:79-105 | replaces the value if the owner matches; `EL_NOEXT` and `EL_PERM` otherwise, without a change; `NameServer.HistoryTheorem` says that the value is then the one set |
| `NameValueList.LList.Del` | src/lib/59-04-llist.c:107-144 | removes the entry if the owner matches; `EL_NOEXT` and `EL_PERM` otherwise, without a change |
| `NameValueList.StoreRemove` | src/lib/59-04-llist.c:128-138 | taking one node out removes exactly its name from the map |
| `NameValueList.StoreUpdate` | src/lib/59-04-llist.c:101-102 | a new value in one node changes exactly its name in the map |
| `NameServer.Server.Respond` | src/imp/59-04-server.c:69-87 | one request: the map afterwards and the result code are those of the map operation, `RES_UNKOW` for other commands; a successful get fills in the entry |
| `NameServer.Server.RespondAll` | src/imp/59-04-server.c:55-96 | for every sequence of requests, without reference to how a request is carried out: each result code follows from the earlier requests and codes alone, every get delivers the item of the last request that wrote its name, and the list holds in the end exactly the names added and not deleted since, each with the value and owner of that request |
| `NameServer.HistoryTheorem` | src/imp/59-04-server.c:69-87 | the same of the map at every point of every history: its entries and the code of each request are what the log of requests and codes says |
| `NameServer.HasCreator` | src/imp/59-04-server.c:69-87 | every entry was created by an add request of its owner and has had that owner ever since |
| `NameServer.OwnerTheorem` | src/imp/59-04-server.c:69-87 | in every history an entry changes or disappears only through a successful set or delete of its name by the owner of the request that created it |
| `KeyedList.Tree.constructor` | src/imp/30-02.c:263-272 | the empty list |
| `KeyedList.Tree.Add` | src/imp/30-02.c:274-313 | appends a new key at the end and reports failure, without a change, for a known one |
| `KeyedList.Tree.Detach` | src/imp/30-02.c:328-366 | the element found is bypassed in each of the cases first, last and middle, with both end pointers right |
| `KeyedList.Tree.Del` | src/imp/30-02.c:315-377 | removes exactly the one matching element while the walk goes on behind it, and tells whether there was one |
| `KeyedList.Tree.Look` | src/imp/30-02.c:379-414 | agrees with the association list for values that are not null; a null value reads as not found |
| `KeyedList.RunTheorem` | src/imp/30-02.c:274-377 | in every history the list refines a map, keys are distinct and stand in the order of insertion |
| `SolveDot.SolveInPlace` | src/imp/18-03.c:149-201 | for every string the array is left with the result of the loop and its null, nothing behind the string is touched, and the writing cursor never overtakes the reading one; the string is refused, unchanged, if and only if it does not begin with a slash |
| `SolveDot.ScanBack` | src/imp/18-03.c:176-176 | the inner loop finds the last slash at or before a position, or leaves the array |
| `SolveSteady.TurnSlash` | src/imp/18-03.c:169-196 | what a slash does, by the characters since the last slash noticed: ".." goes back, "." and nothing are dropped, three and more are kept, other one or two are taken for unfinished |
| `SolveSteady.Reach` | src/imp/18-03.c:163-197 | as long as every component fits, the array holds the directory reached, the unfinished component and the unread rest, under them the normal forms laid over the pathname before, and the slashes remembered stand before and behind the last name or the last two |
| `SolveSteady.SteadyRight` | src/imp/18-03.c:149-201 | a pathname whose components all fit is resolved rightly |
| `SolveSteady.OffSlash` | src/imp/18-03.c:169-196 | once what is written differs from the directory reached and is not shorter, it stays so at every component but a ".." on its own |
| `SolveTheorems.UpFault` | src/imp/18-03.c:171-178 | a ".." that does not fit leaves the array if and only if no group is half and at most two names are there; otherwise a wrong directory is held |
| `SolveTheorems.HalfFault` | src/imp/18-03.c:169-196 | an empty component, "." or ".." in a half group stays behind the short name, so that what is held is longer than the directory reached |
| `SolveTheorems.PrefixTheorem` | src/imp/18-03.c:149-201 | for every absolute pathname: each prefix is resolved rightly if and only if each component fits, a condition on the pathname alone |
| `SolveTheorems.LastTheorem` | src/imp/18-03.c:149-201 | if all components before the last slash fit, the pathname is resolved rightly if and only if the component that slash ends fits |
| `SolveTheorems.SteadyTheorem` | src/imp/18-03.c:149-201 | if all components up to some point fit and no ".." follows, the array is not left and the pathname is resolved rightly if and only if the others fit; in particular for every pathname without ".." |
| `SolveTheorems.DotsTheorem` | src/imp/18-03.c:169-196 | for names of any length and then an empty component, "." or "..": resolved rightly if and only if no short name is left open, and for ".." the last name stands by itself and is not the only one |
| `SolveTheorems.ShortTheorem` | src/imp/18-03.c:171-184 | a name of one or two characters followed by an empty component, "." or "..", behind a prefix that fits and ends no half group, spoils the pathname whatever follows without a further ".." |
| `SolveTheorems.LongTheorem` | src/imp/18-03.c:149-201 | with names of three characters and more, the array is left if and only if some ".." is met at depth 0 or 1; otherwise the result is the directory that the components reach (section 4.13 of POSIX.1-2017, Base Definitions, without symbolic links), then the last component as it was |
| `SolveTheorems.LeavesArray` | src/imp/18-03.c:176-176 | "/../" is a pathname for which the loop reads in front of the array |
| `SolveTheorems.PlainTheorem` | src/imp/18-03.c:163-197 | without empty components and dots, names of any length are left as they are |
| `SolveTheorems.SolveAgain` | src/imp/18-03.c:149-201 | resolving a pathname that was resolved rightly changes nothing |
| `SolveRecovers.Recovers` | src/imp/18-03.c:171-178 | a short name, "." and ".." together are resolved rightly behind any prefix that fits, ends no half group and reaches a name, although the short name and "." are not |
| `SolveRecovers.RecoversExample` | src/imp/18-03.c:171-178 | "/foo/a/./../" is resolved to "/foo/", rightly |

## Left out

- inotify, `nftw`, `read`: an environment. What `inotify_add_watch` and the walk find are parameters of the handler; `SyncRun` and `Create` say which answers a kernel gives.
- Operations during a walk or between an operation and the handling of its events, other than creations and the two renames of `SyncTwice`: the monitor makes no promise for them and rebuilds when it notices; `SyncRecover.RecoverTheorem` is what a rebuild achieves.
- SyncTwice.TwiceTheorem: the second rename is to a free name; cookies of two renames are taken to differ, as the kernel numbers them.
- CreateSettle.SettleTheorem: that the monitor can come to rest, not that it must, as a listing may meet new entries any number of times.
- Create: adding a watch and entering it in the cache are one step, as nothing else in the program comes between them; the kernel adds entries to a directory being listed at any time.
- LoopSync.FollowOperation: excludes a pair whose second half arrives after the second read was interrupted; what such a pair leads to is stated for the handler, in `SyncSplit.SplitTheorem`, and not joined to the bytes.
- SyncTheorem.RoundTheorem: roots have fixed pathnames; renaming a directory above a root causes no event and makes its cached pathnames stale, and is not among the operations.
- Paths: a root given with a trailing slash, "/" among them: the program then joins pathnames with two slashes where `nftw` reports one, which the model does not follow.
- EventLoop.ProcessInotifyEvents: the first read is at most as large as the buffer; an option that reads more than the buffer holds is excluded.
- Logging, the command prompt, option parsing, `select`, cache dumps and consistency checks of `inotify_dtree.c`.
- Pathnames cut at `PATH_MAX`, failing allocations, failing writes and reads (except the interrupted second read and the failing removal of a watch): not modelled.
- LostUpdate.ResultTheorem: the counter is unbounded, memory is sequentially consistent.
- PipeFraming.RunTheorem: messages are at most 1023 bytes and writes of at most `PIPE_BUF` bytes are atomic, as POSIX promises; the loop around `select` is left out.
- SharedBuffer: signals that end a process, and names of semaphores left over from an earlier run.
- TailOffset.FindTailStart: the printing loop behind it is left out.
- LineBuffer.LineReader.ReadLine: requires what C demands of `memcpy`, that the unfinished line moved to the front does not overlap its old place, so that `ReadLines` is about lines of at most half a block; after a call that returned the rest of the buffer the code would read behind it.
- NameValueList.LList.Set: requires a terminated value, as `strcpy` does; the fields `size` and the function that frees the list are left out.
- NameServer.Server.Respond: sockets, and requests cut short, which the server drops.
- KeyedList.Tree.Del: the mutexes, freeing of nodes, and a key that is itself the string stored in the node removed.
- SolveTheorems.SteadyTheorem: when a ".." follows a component that does not fit, the whole pathname may be resolved rightly or not; `PrefixTheorem`, applied to its prefixes, finds the first that is not, and `Recovers` is one family that comes out right in the end.
- Programs that only demonstrate one system call, socket and daemon set-up, option parsers, sorting in 14-01, vectored I/O in 05-07 and `sendfile` in 61-03: easy members or wrappers.
