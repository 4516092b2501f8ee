# Winix: a verified model

Winix is a Minix-style kernel for the WRAMP board, with a small C library. This
project models seven parts of it in Dafny and proves what they promise.

| part | files | source |
|---|---|---|
| regular expressions | `Regex*.dfy` | `lib/regex/regexp.c` |
| message passing and ready queues | `Kernel*.dfy` | `kernel/wini_ipc.c`, `kernel/proc.c`, `kernel/sched.c`, `kernel/exception.c` |
| block cache and file data | `Device.dfy`, `BlockCache.dfy`, `File*.dfy` | `fs/cache.c`, `fs/rootfs.c`, `fs/inode.c` |
| user heap | `HeapBlocks.dfy`, `HeapList.dfy` | `lib/stdlib/stdlib.c` |
| pipes | `Pipe.dfy` | `fs/system/pipe.c` |
| pages and the heap break | `Bitmap.dfy`, `BitSets.dfy`, `PageSets.dfy`, `Pages.dfy` | `winix/bitmap.c`, `winix/mm.c`, `kernel/system/do_brk.c` |
| timers | `Timers.dfy` | `winix/timer.c`, `kernel/clock.c` |

**How the parts are built.** Code that updates things in place is a class or a
method with loops; it is proved to make exactly the step that a function on
values describes, and the properties over whole runs are proved about those
steps. Words of memory and disk are sequences of integers, addresses are
indices, and a NULL pointer is a number that is no index. `LinkedLists.dfy` has
the facts about lists linked through a table that three parts share.

**Regular expressions.** A pattern parses to a tree (`RegexSyntax`), and it is
the text of that tree and of no other (`RegexSpelling`); what is refused has the
fault it is refused for (`RegexFaults`). A tree has a meaning by what it matches
(`RegexMeaning.Matches`), one by the ways in which it matches, with decisions and
parentheses passed (`RegexWays.Goes`), and one by ordered backtracking with
captured groups (`RegexMeaning.Run`), which finds the first way (`RegexFirst`) and
captures the last pass through each group (`RegexCaptures`). The compiler is the
recursive descent of the source, run twice over the same code, with nodes that
are moved after they were written (`RegexCompile`); what it emits is the code
of the tree, cell for cell (`RegexCode.Emit`), and `RegexShape` says which cells
of a program are nodes and where every link of it leads. The machine (`RegexMachine`)
walks the cells and is proved to find what ordered backtracking finds. The
meaning has a parameter for literals, because the machine does not compare a
literal longer than one character at the place it is at: it looks at the first
character and then for the whole literal anywhere behind.

**Message passing.** A world is the kernel's state with the history of all
messages. The invariant says that runnable processes are current or in exactly
one ready queue, that blocked senders are in exactly one queue of senders, that
no two processes wait to send to each other, and that each accepted message is
waiting unaltered or was received once. It holds after every sequence of
system calls, replies, clock ticks and rebalancings (`KernelRuns.After`). The
class `KernelTable.Table` has the links and heads and tails, and plays whole
runs on them. `KernelEvents` says of each event what it does to the processes,
the history and the queues, and that over every run messages name their senders.
`KernelWaits` says exactly when a process comes to wait in receive although a
sender waits for it, which the kernel does not prevent.

**Files.** The file layer writes to the words of the device, as the compiled
build does, where the pointer to a cached block leads to the device itself; the
cache is modelled with the write-back operations beside it and is proved to be
a flat array of blocks, so that a chunk written by way of it has the effect that
the file layer relies on (`BlockCache.Cache.WriteChunk`). `FileCached` puts the
two together: it sends every chunk that a file system has written through a
cache and finds the files there, in the buffers and, once flushed, on disk.

**Where the code differs from what its comments say**, the model follows the
code. The
queue of senders and the waiting lists of a pipe are stacks, since entries are
added at the head and taken from the head. A reply stores its result in the
message's type field, since `reply_res` is another name for it, so the special
case for GETCWD in the reply never applies. A rebalancing resets priorities but
moves no process to another queue.

## Model

| member | source | states |
|---|---|---|
| RegexSpelling.ParseSpells | lib/regex/regexp.c:249-534 | a pattern is accepted with a tree exactly if it is that tree's text, by a relation on trees: what each construct looks like, classes by members and ranges, groups numbered by their parentheses, the whole of a run of ordinary characters in one literal but for a repeated last one, no repetition of what may be empty or of a repetition |
| RegexSpelling.ClassHolds | lib/regex/regexp.c:456-485 | a bracketed class holds exactly the characters it lists and those between the ends of its ranges |
| RegexSpelling.BracketSpelled | lib/regex/regexp.c:456-485 | what is read as a class is written as one: a first character stands for itself, a hyphen only there or at the end |
| RegexSpelling.BracketParses | lib/regex/regexp.c:456-485 | every class so written is read as it is meant |
| RegexSpelling.AtomSpelled | lib/regex/regexp.c:430-534 | what is read as an atom is the text of that atom |
| RegexSpelling.AtomParses | lib/regex/regexp.c:430-534 | the text of an atom is read as that atom, up to its end |
| RegexFaults.RefusalFounded | lib/regex/regexp.c:249-534 | a pattern is refused with a complaint only if the fault that the complaint speaks of is found at some place in it |
| RegexFaults.NoInternalError | lib/regex/regexp.c:301-309 | no pattern makes the parser end in one of the errors meant for impossible states |
| RegexMeaning.MeaningsAgree | lib/regex/regexp.c:752-907 | for every tree, subject and place, ordered backtracking finds a match exactly if the expression matches some stretch that begins there, and the stretch it finds is one |
| RegexMeaning.RunIsSound | lib/regex/regexp.c:752-907 | what backtracking finds is a match of the items still to be done |
| RegexMeaning.RunIsComplete | lib/regex/regexp.c:752-907 | if the items can be matched at all, backtracking finds a match |
| RegexWays.WayMatchesA | lib/regex/regexp.c:752-907 | a way through a tree, with its decisions and the parentheses it passes, is a match of the tree |
| RegexWays.MatchGoesA | lib/regex/regexp.c:752-907 | every match of a tree goes some way |
| RegexFirst.RunFirst | lib/regex/regexp.c:752-907 | for everything still to be matched, backtracking finds the first of all ways, where ways are ordered by the first decision in which they differ: an earlier alternative before a later one, and once more before no more; and it captures what that way passes |
| RegexCaptures.FindFirst | lib/regex/regexp.c:752-907 | the same for a whole pattern at any place; it misses exactly if there is no way |
| RegexCaptures.ReportsLast | lib/regex/regexp.c:822-856 | what is captured for a group is the place of the last parenthesis of that number on the way, and nothing exactly if there is none |
| RegexCaptures.AltsNumbers | lib/regex/regexp.c:249-312 | in a pattern the groups have the numbers in turn and no group holds one of its own number |
| RegexCaptures.Captured | lib/regex/regexp.c:822-856 | for every pattern, a group has both ends captured or neither, and what is captured is a stretch inside the match that the alternatives of that group match |
| RegexMeaning.LiteralIsOrdinaryIffSingle | lib/regex/regexp.c:785-802 | the literal step is comparison in place, for every subject, exactly for literals of one character |
| RegexMeaning.LiteralStretched | lib/regex/regexp.c:785-802 | at one place the literal step differs from comparison in place exactly if the first character stands there and the literal only further on |
| RegexLib.OrdinaryMeaning | lib/regex/regexp.c:785-802 | for every pattern, a match in the ordinary sense is a match; in a subject that stretches none of its literals the two are the same, and literals of one character are never stretched |
| RegexLib.LongLiteralStretches | lib/regex/regexp.c:785-802 | a concrete pattern with a longer literal whose search succeeds on a subject that does not match in the ordinary sense |
| RegexCode.LinkRoundTrip | lib/regex/regexp.c:949-959 | a stored offset decodes to what was encoded exactly if it is below the limit of its two cells |
| RegexLinks.ChoiceChain | lib/regex/regexp.c:292-298 | the BRANCH nodes of a choice are chained in order, each with its operand, and the chain ends behind the last |
| RegexLinks.StarChain | lib/regex/regexp.c:389-397 | the code of a star is a loop whose BACK link leads to its head |
| RegexLinks.PlusLoopChain | lib/regex/regexp.c:398-406 | the code of a plus loops back over its operand and then leaves |
| RegexLinks.OptChain | lib/regex/regexp.c:407-413 | the code of an option leads around its operand |
| RegexPatch.EmitLinked | lib/regex/regexp.c:595-615 | patching the open link of a fragment gives the code of the fragment with its exit set |
| RegexPatch.WalkFragment | lib/regex/regexp.c:595-615 | following the next links of a fragment that is still open ends at the node whose link is unset |
| RegexPatch.WalkMoved | lib/regex/regexp.c:574-590 | links are relative, so a fragment that is moved keeps every walk along them |
| RegexCompile.MemMove | lib/ansi/memmov.c:4-33 | an overlapping move copies the old contents and changes nothing else |
| RegexCompile.Comp.RegC | lib/regex/regexp.c:561-567 | one cell more, or one more counted |
| RegexCompile.Comp.RegNode | lib/regex/regexp.c:539-556 | a node with an open link, or three cells counted |
| RegexCompile.Comp.RegInsert | lib/regex/regexp.c:574-590 | a node in front of code already emitted, which is moved up unaltered |
| RegexCompile.Comp.RegTail | lib/regex/regexp.c:595-615 | the last node of the chain is linked, and no other cell changes |
| RegexCompile.Comp.RegOpTail | lib/regex/regexp.c:620-630 | the same for the operand of a BRANCH, and nothing for other nodes |
| RegexCompile.Comp.LoopStar | lib/regex/regexp.c:391-397 | the five steps for a star turn the code of the operand into the code of the star |
| RegexCompile.Comp.LoopPlus | lib/regex/regexp.c:400-406 | the steps for a plus turn the code of the operand into the code of the plus |
| RegexCompile.Comp.LoopOpt | lib/regex/regexp.c:407-413 | the steps for an option turn the code of the operand into the code of the option |
| RegexCompile.Comp.RegAtom | lib/regex/regexp.c:430-534 | parses what the grammar says, with its flags, and emits exactly its code; fails on the same patterns with the same error; `RegexSpelling.AtomSpelled` and `AtomParses` say what the grammar reads |
| RegexCompile.Comp.RegPiece | lib/regex/regexp.c:360-420 | the same for an atom with its repetition |
| RegexCompile.Comp.RegBranch | lib/regex/regexp.c:319-349 | the same for a concatenation |
| RegexCompile.Comp.Reg | lib/regex/regexp.c:249-312 | the same for alternatives, in a group or at the top |
| RegexLib.SizeOfPass | lib/regex/regexp.c:172-198 | the first pass counts exactly the cells of the program |
| RegexLib.CellsOfPass | lib/regex/regexp.c:172-198 | the second pass, into that many cells, emits the program and nothing else |
| RegexShape.ProgramLinks | lib/regex/regexp.c:574-630 | in every program, each link leads from a node to a node, upwards unless the node is a BACK, and from a BACK down to the head of its loop; a BRANCH has a node as its operand, the operand of a STAR or PLUS has no link, and END is the last node alone |
| RegexShape.ChainsEnd | lib/regex/regexp.c:292-298 | in every program, the chain of BRANCH nodes from any BRANCH ends at the node behind that very choice, which is no BRANCH |
| RegexShape.FollowedTo | lib/regex/regexp.c:389-414 | in every program, following links that are not BACK from any node ends at the BACK of the innermost loop around it, and at END exactly if there is none |
| RegexLib.FindMust | lib/regex/regexp.c:223-234 | the longest literal along the top-level chain of the program |
| RegexLib.Dig | lib/regex/regexp.c:200-235 | the first character, the anchor and the literal that every match needs |
| RegexLib.RegComp | lib/regex/regexp.c:160-238 | accepts exactly the texts of trees whose programs are small enough, and the result is the program of the tree with its hints; otherwise the error is that of the grammar or of the size |
| RegexMachine.StrStr | lib/ansi/strstr.c:19-31 | whether the literal occurs in the subject at or behind a place |
| RegexMachine.StrChr | lib/ansi/index.c:2-6 | whether a character is in a class |
| RegexMachine.RegRepeat | lib/regex/regexp.c:912-944 | how often the operand of a simple loop matches in a row |
| RegexMachine.StarIsGreedy | lib/regex/regexp.c:874-890 | trying a simple star from the longest run down is ordered backtracking |
| RegexMachine.PlusIsGreedy | lib/regex/regexp.c:874-890 | the same for a simple plus, which stops at one |
| RegexMachine.NextChar | lib/regex/regexp.c:874-886 | where the next node is a literal, skipping places without its first character loses no match |
| RegexMachine.Exec.RegMatch | lib/regex/regexp.c:752-907 | ends on every compiled program, stays inside the subject, and returns 1 exactly if ordered backtracking finds a match, with its end and captures, which are those of the first way (`RegexFirst.RunFirst`) |
| RegexMachine.Exec.RegTry | lib/regex/regexp.c:716-740 | clears the captures and reports the match that begins here, if there is one, with the captures of its first way (`RegexCaptures.FindFirst`) |
| RegexLib.MatchNeeds | lib/regex/regexp.c:683-705 | every match of a single alternative begins with its first character, at the start if anchored, and needs each of its literals |
| RegexLib.RegExec | lib/regex/regexp.c:662-711 | with all three filters, succeeds exactly if a match begins at some place of the subject, and reports the leftmost one in the first of its ways: where it begins and ends, and the last pass through each group |
| KernelRuns.SendOpOk | kernel/exception.c:293-303 | a SEND or SENDREC that is not to the sender itself keeps the invariant, blocked, delivered or refused |
| KernelRuns.ReceiveOpOk | kernel/wini_ipc.c:88-131 | a RECEIVE takes the first waiting message or blocks, and keeps the invariant |
| KernelRuns.NotifyOpOk | kernel/wini_ipc.c:142-189 | a notify is delivered to a process that waits for nothing else, and keeps the invariant |
| KernelRuns.SchedSafe | kernel/sched.c:80-117 | there is always a process to dispatch, it can run, and the queues and the current process are again the runnable ones |
| KernelRuns.After | kernel/exception.c:261-327 | the invariant holds after every sequence of calls, replies, ticks and rebalancings |
| KernelSafety.ExactlyOnce | kernel/wini_ipc.c:32-131 | in every world of every run, an accepted message has been received once, unaltered and at its destination, or its sender waits with it there |
| KernelSafety.RunnableOnce | kernel/sched.c:80-117 | in every world of every run a process is current, or in exactly one ready queue once, exactly if it can run |
| KernelSafety.SendersOnce | kernel/wini_ipc.c:41-73 | in every world of every run a process is in exactly one queue of senders exactly if it is blocked in a send, and never opposite its receiver |
| KernelSafety.NoLostWakeUp | kernel/wini_ipc.c:106-130 | in every world of every run the system task, or any process that awaits no reply, waits for a message only if no sender waits for it |
| KernelSafety.HistoryGrows | kernel/wini_ipc.c:32-131 | what was received stays so; a message only ever goes from waiting to received |
| KernelSafety.QuietStart | kernel/proc.c:571-595 | any kernel whose processes can all run and are queued is a start for such runs |
| KernelSafety.BootOk | kernel/main.c:29-52 | so is the state after boot, and the system task runs first |
| KernelSafety.SendSafeIffNotToSelf | kernel/wini_ipc.c:41-73 | a send keeps the kernel safe exactly if it is not to the sender itself, which the deadlock check does not catch |
| KernelWaits.QuietNext | kernel/wini_ipc.c:41-124 | from a world in which nobody waits in receive with senders in its queue, an event brings that about exactly if it is a SENDREC that is delivered at once by a process with senders in its queue, or a RECEIVE that takes the message of a process in SENDREC with senders in its own |
| KernelWaits.QuietRuns | kernel/wini_ipc.c:41-124 | over any run from such a world: it never comes about exactly if no event of the run is of these two kinds |
| KernelWaits.VictimWaits | kernel/wini_ipc.c:53-124 | in any world, such an event leaves one process waiting for a reply alone, with its queue of senders as it was |
| KernelWaits.StrandedBySending | kernel/wini_ipc.c:53-59 | four events from boot that bring it about the first way |
| KernelWaits.StrandedByReceiving | kernel/wini_ipc.c:106-124 | six events from boot that bring it about the second way |
| KernelEvents.SendersNamed | kernel/exception.c:289 | in every world of every run, each message accepted since the start names its sender, and so does each of them where it was received |
| KernelEvents.SendLogs | kernel/exception.c:289-325 | a SEND or SENDREC that is taken adds one entry, from the caller to the process asked for, with the kind and body passed and the caller's number; a waiting receiver has the message and runs, otherwise the caller is blocked in front of the senders there; one that is refused adds nothing and gives the error that the case calls for |
| KernelEvents.SendRuns | kernel/wini_ipc.c:53-75 | who runs after a send: a receiver that was waiting is put in front of its queue, and the caller goes back unless it is blocked |
| KernelEvents.ReceiveTakes | kernel/wini_ipc.c:106-124 | a RECEIVE with senders waiting gives the message of the first, which waits to send no more and is put in front if it waits for nothing else |
| KernelEvents.ReceiveBlocks | kernel/wini_ipc.c:126-130 | a RECEIVE without senders blocks the caller, and another process runs |
| KernelEvents.NotifyReaches | kernel/wini_ipc.c:142-189 | a NOTIFY gives its message and result to a process that waits for nothing else, puts it in front, and fails exactly if there is no such process or it has ended |
| KernelEvents.ReplyReaches | kernel/wini_ipc.c:142-189 | the same for a reply of the system task, which goes on running |
| KernelEvents.UnknownRefused | kernel/exception.c:316-323 | any other operation gives -EINVAL and changes nothing else |
| KernelEvents.TickDemotes | kernel/sched.c:80-117 | a tick takes one from the running process; with none left it goes behind all others, a user process one queue lower; the head of the highest queue runs, with a full quantum if it had nothing left |
| KernelEvents.RebalanceResets | kernel/sched.c:33-40 | a rebalancing sets the priority of every user process in use and nothing else |
| KernelTable.Table.StartTasks | kernel/main.c:54-63 | the tasks and init are queued in order |
| KernelTable.Table.EnqueueTail | kernel/proc.c:165-176 | the entry goes behind the last; the assertion holds for every process that is in no queue |
| KernelTable.Table.EnqueueHead | kernel/proc.c:184-195 | the entry goes in front; the assertion holds |
| KernelTable.Table.Dequeue | kernel/proc.c:207-221 | the first entry leaves, head, tail and links stay consistent |
| KernelTable.Table.WaitsFor | kernel/wini_ipc.c:43-51 | the walk finds a process exactly if it waits to send to this one |
| KernelTable.Table.DoSend | kernel/wini_ipc.c:32-78 | on the links, the step that the runs are made of, with the same result |
| KernelTable.Table.DoReceive | kernel/wini_ipc.c:88-131 | the same for receiving |
| KernelTable.Table.DoNotify | kernel/wini_ipc.c:142-189 | the same for notifying |
| KernelTable.Table.PickProc | kernel/sched.c:52-65 | the head of the highest queue that is not empty |
| KernelTable.Table.Sched | kernel/sched.c:80-117 | puts the current process back and dispatches; its loop ends after one turn |
| KernelTable.Table.RebalanceQueues | kernel/sched.c:33-40 | every user process in use gets the default priority |
| KernelTable.Table.ClockHandler | kernel/clock.c:59-74 | a tick is the step of the runs |
| KernelTable.Table.SyscallHandler | kernel/exception.c:261-327 | every call that a process may make is the step of the runs |
| KernelTable.Table.Play | kernel/exception.c:261-327 | any sequence of events, played on the links and passing over what cannot happen, ends in the kernel that the run ends in |
| Device.IoWrite | fs/rootfs.c:26-47 | the words that fit are written, and only those |
| Device.IoRead | fs/rootfs.c:26-47 | the words that are there are read |
| BlockCache.Cache.constructor | fs/cache.c:200-217 | all buffers idle and empty; clients see the disk |
| BlockCache.Removed | fs/cache.c:48-60 | a buffer leaves the list wherever it is, the rest stays linked both ways in the same order |
| BlockCache.Dequeued | fs/cache.c:62-72 | the least recently released buffer leaves a list of two or more |
| BlockCache.Enqueued | fs/cache.c:74-80 | a buffer becomes the most recently released |
| BlockCache.Cache.GetBlock | fs/cache.c:138-192 | the last contents written to the block; a miss takes the least recently released buffer, writes it back if dirty, and changes nothing that clients see |
| BlockCache.Cache.Fill | fs/rootfs.c:192-201 | a holder's change is a change of that block of the flat array |
| BlockCache.Cache.PutBlockBuffer | fs/cache.c:126-136 | a released buffer goes last; clients see no change |
| BlockCache.Cache.PutBlockBufferDirt | fs/cache.c:121-124 | the same, marked dirty |
| BlockCache.Cache.FlushBlock | fs/rootfs.c:132-135 | the block on disk becomes the buffer's, and clients see no change |
| BlockCache.Cache.FlushAllBuffer | fs/cache.c:82-93 | the disk becomes the flat array that clients see |
| BlockCache.Cache.WriteChunk | fs/rootfs.c:187-203 | a chunk written by way of the cache is a chunk written into the flat array |
| BlockCache.Cache.ReadChunk | fs/rootfs.c:187-203 | a chunk read by way of the cache is a chunk of the flat array |
| FileZones.NewTable | fs/inode.c:479-491 | an empty table changes no block of any file |
| FileZones.NewDirect | fs/inode.c:503-513 | a block recorded in an inode becomes the next block of that file and of no other |
| FileZones.NewIndirect | fs/inode.c:499-513 | the same for a block recorded in a table |
| FileData.Overwritten | fs/rootfs.c:183-213 | a chunk written inside one block of a file is put in over its words and on behind them |
| FileData.Undisturbed | fs/rootfs.c:183-213 | a file without the block written to holds what it held |
| FileData.ChunkRead | fs/rootfs.c:183-203 | a chunk read from a block is that stretch of the file |
| FileSystem.FileSys.AllocBlock | fs/inode.c:76-103 | the lowest free block, or an error exactly if no block of the device is free |
| FileSystem.FileSys.AllocInode | fs/inode.c:243-287 | the lowest free inode number, with an empty inode, or failure exactly if none is free |
| FileSystem.FileSys.CurrentZone | fs/inode.c:456-519 | the block at a position of a file, directly or through a table, or none |
| FileSystem.FileSys.AllocZone | fs/inode.c:503-536 | the next block of a file, allocated and recorded, or an error exactly if no block is free, the file is at its limit, or it needs a table and no inode is free |
| FileSystem.FileSys.CopyIn | fs/rootfs.c:183-203 | the direct path and the pointer into the block write the same words |
| FileSystem.FileSys.CopyOut | fs/rootfs.c:183-203 | both paths read the same words |
| FileSystem.FileSys.RootFsWrite | fs/rootfs.c:146-218 | a write at any place up to the end puts the accepted words in there and disturbs no other file; less than all is accepted only if no further block can be had and all blocks are full; the size grows by every word written, so it is right exactly if the write was at the end or wrote nothing |
| FileSystem.FileSys.Append | fs/rootfs.c:146-218 | at the end, what was accepted is added to the file; less than all only if there is then no room for one word more, and nothing if there was none before |
| FileSystem.FileSys.RootFsRead | fs/rootfs.c:146-218 | the words of the file from the offset on, as many as asked for or there |
| FileSystem.FileSys.AppendAll | fs/rootfs.c:146-218 | after any run of appends to any files, each file has grown by exactly the accepted parts of its own writes, in order; a part is refused only if that file has no room left, and then everything behind it is refused too |
| FileSystem.WriteThenRead | fs/rootfs.c:146-218 | what was appended in any such run is read back, by both paths: all words of the file's own writes in order unless it has no room left, and a first part of them if so |
| FileCached.ReadCached | fs/rootfs.c:187-203 | with all chunks of a file system written through the four buffers, a chunk of a file read through them is that stretch of the file |
| FileCached.FlushCached | fs/cache.c:82-93 | once these buffers are flushed, the disk is the file system's device and every file on it holds what was appended |
| HeapBlocks.MallocOk | lib/stdlib/stdlib.c:91-125 | a call keeps the tiling, the coalescing and the live payloads; the new payload is none of the old ones and large enough, by less than a header and four words more than asked for |
| HeapBlocks.FreeOk | lib/stdlib/stdlib.c:162-180 | freeing a live pointer keeps them, without that payload |
| HeapBlocks.After | lib/stdlib/stdlib.c:91-180 | so does every run of calls: no live payload is ever larger than asked for by a header and four words |
| HeapBlocks.LivePayloads | lib/stdlib/stdlib.c:91-180 | after every run, live payloads share no word and lie inside the heap |
| HeapBlocks.Conserved | lib/stdlib/stdlib.c:51-138 | headers and payloads add up to the heap |
| HeapBlocks.AllFreed | lib/stdlib/stdlib.c:162-180 | with nothing live the heap is one free block |
| HeapBlocks.GrowsOnlyWhenFull | lib/stdlib/stdlib.c:99-117 | the heap grows exactly if no free block is large enough |
| HeapList.Allocator.FindBlock | lib/stdlib/stdlib.c:38-46 | the first free block that is large enough, or the last block of the list |
| HeapList.Allocator.SplitBlock | lib/stdlib/stdlib.c:51-66 | the words then hold the list with the block cut in two, linked both ways |
| HeapList.Allocator.ExtendHeap | lib/stdlib/stdlib.c:70-89 | the words then hold the list with a block more |
| HeapList.Allocator.FusionBlock | lib/stdlib/stdlib.c:129-138 | the words then hold the list with the block joined to a free one behind it |
| HeapList.Allocator.Malloc | lib/stdlib/stdlib.c:91-125 | the list, the pointer and the break are those of the run, and no word of a live payload changes |
| HeapList.Allocator.Free | lib/stdlib/stdlib.c:162-180 | the list is that of the run, no word of another live payload changes, and a pointer outside the heap changes nothing |
| HeapList.Allocator.Run | lib/stdlib/stdlib.c:91-180 | any run of calls on the words of memory is the run on the list of blocks, so payloads stay apart and free blocks coalesced, and a payload that is not freed keeps its words |
| HeapList.Allocator.Store | lib/stdlib/stdlib.c:91-125 | a program that writes to a live payload disturbs neither the list nor another payload |
| Pipe.Pipe.constructor | fs/system/pipe.c:50-105 | an empty pipe with both ends open |
| Pipe.Pipe.Shift | fs/system/pipe.c:129-143 | the loop drops a prefix, and blanks everything exactly if the prefix is empty |
| Pipe.Pipe.TakeOut | fs/system/pipe.c:145-158 | the words at the front are delivered; the stream is conserved for counts above zero |
| Pipe.Pipe.PutIn | fs/system/pipe.c:160-173 | as many words as there is room for are accepted, at the back |
| Pipe.Pipe.PipeRead | fs/system/pipe.c:175-218 | delivered and contained words stay the accepted ones in order; who is suspended, who is woken and with which result; no writer is left waiting at an empty pipe that is open for writing |
| Pipe.Pipe.PipeWrite | fs/system/pipe.c:222-292 | a write is accepted whole or not at all, and the answer is the number of words accepted, or the error or suspension that the case calls for; which reader is woken, and exactly when the writer is suspended; if no reader waited at a pipe with words in it, none does afterwards exactly if none waited at all or the write puts nothing in |
| Pipe.ReaderLeftWaiting | fs/system/pipe.c:241-254 | a run in which a reader is left waiting at a pipe that is not empty |
| Pipe.Pipe.Dup | fs/system/dup.c:20-25 | a further descriptor of an open end is counted |
| Pipe.Pipe.PipeClose | fs/system/pipe.c:298-339 | the open ends stay counted, and with the last descriptor of an end exactly those who wait at the other are answered, once, and nobody waits there again; each reader gets the next words of the pipe and their number, each writer the number of its words that still fit |
| Pipe.Pipe.DrainReaders | fs/system/pipe.c:316-325 | the loop ends with every waiting reader answered once, in turn with the next words of the pipe |
| Pipe.Pipe.DrainWriters | fs/system/pipe.c:316-325 | the loop ends with every waiting writer answered once, in turn with as many of its words as still fit |
| Bitmap.TestSet | winix/bitmap.c:17-50 | setting one bit of a word with its mask changes that bit alone |
| Bitmap.SearchFrom | winix/bitmap.c:104-128 | the lowest run of clear bits from a place on, across words, or failure exactly if there is none or the run is as long as the map |
| Bitmap.SearchReverse | winix/bitmap.c:142-162 | the highest run of clear bits, or failure exactly if there is none or the run is as long as the map |
| Bitmap.SetBit | winix/bitmap.c:171-177 | exactly that bit is set |
| Bitmap.SetNbits | winix/bitmap.c:188-198 | exactly that run is set, or refused if it reaches the end of the map |
| Bitmap.ClearNbits | winix/bitmap.c:203-213 | exactly that run is cleared, or refused |
| Bitmap.IsBitOn | winix/bitmap.c:237-243 | whether the bit is set, for every bit but the one just behind the map |
| Bitmap.CountBits | winix/bitmap.c:255-277 | the number of set or of clear bits |
| PageSets.RoundingAgrees | winix/mm.c:96-126 | the pages searched for are as many as the pages set exactly for whole pages |
| PageSets.MovedBeyond | kernel/system/do_brk.c:66-78 | with the pages behind its image, a process's break and bottom are in order again and page aligned |
| Pages.ReleaseInverts | winix/mm.c:209-216 | releasing what was allocated gives the map back |
| Pages.RefusedIffLast | winix/bitmap.c:188-198 | a run that is found is refused exactly if it holds the last page, so never while that page is reserved |
| Pages.Memory.constructor | winix/mm.c:292-304 | the kernel's pages and the last one are taken |
| Pages.Memory.PeekFreePages | winix/mm.c:96-105 | the lowest or highest run of free pages, behind the kernel and before the reserved page, or failure only if there is none |
| Pages.Memory.GetFreePages | winix/mm.c:113-126 | those pages were free, are taken now, and nobody owned any of them |
| Pages.Memory.ReleasePages | winix/mm.c:209-216 | exactly those pages become free |
| Pages.Memory.UserGetFreePages | winix/mm.c:137-150 | the same for a process, whose table then has them |
| Pages.Memory.IsPagesFreeFrom | winix/mm.c:74-87 | whether the run is free; the reserved page stops the walk inside the map |
| Pages.Memory.UserGetFreePagesFrom | winix/mm.c:158-189 | the run is taken and owned exactly if it was free, else nothing changes |
| Pages.Memory.SysSbrk | kernel/system/do_brk.c:45-82 | the break moves exactly if it can; images stay in order and page aligned, owned by one process each, in both maps |
| Pages.Memory.DoBrk | kernel/system/do_brk.c:98-123 | the same for an absolute break, with the pages that it takes and the error that the case calls for |
| Pages.Memory.UserReleasePages | winix/mm.c:218-225 | a process's pages leave both maps |
| Pages.Memory.ReleaseProcMem | winix/mm.c:247-268 | everything the process owned is free |
| Pages.Memory.AllocMem | kernel/proc.c:462-509 | given one run of free pages for image and stack together, both allocations succeed, though the second is not checked |
| Pages.Memory.Exec | kernel/system/do_execve.c:230-247 | succeeds exactly if that run exists beforehand, and otherwise leaves the old image alone |
| Timers.TimerQueue.NewTimer | winix/timer.c:34-51 | the timer is in the sorted list with its time, the cached time is the first; refused if it is set already or for no time |
| Timers.TimerQueue.InsertTimer | winix/timer.c:79-106 | the links hold the list with the timer in front of those that do not go off before it |
| Timers.TimerQueue.DequeueAlarm | winix/timer.c:58-72 | the first timer leaves and the cached time is the next one or never; nothing is taken exactly if there is no timer, where the source panics |
| Timers.TimerQueue.RemoveTimer | winix/timer.c:112-132 | the timer leaves wherever it is; the cached time is right exactly if it was not the only one |
| Timers.TimerQueue.RunHandler | kernel/clock.c:32-35 | the timers that a handler sets are set for their times, unless they are pending already, and they change nothing about those that are due; handlers may set others at every firing |
| Timers.TimerQueue.DoTicks | kernel/clock.c:30-37 | ends though handlers set timers, fires exactly those that are due, once and in the order of their times, and leaves only later ones: those that were pending and did not go off, and those that a handler set, each for the time that the first such handler said; panics exactly if there is no timer and the cached time has come |
| Timers.ArmHolds | kernel/clock.c:30-37 | a timer that a handler sets in a tick is pending after it, unless it goes off later in the same tick |
| Timers.LostArm | winix/timer.c:34-51 | a tick in which it does go off later, and is then not pending: setting it was refused because it was still due |
| Timers.TimerQueue.RemoveThenTick | winix/timer.c:112-132 | after the only timer has been removed, a tick panics exactly if the time of that timer has come |

## Left out

- RegexLib.RegExec: an empty subject is excluded when the program has a first character, because the code steps past its end; NULL arguments and a failed allocation in regcomp are not modelled.
- Printing, tracing and error texts of the regular expression library.
- KernelRuns.After: a process never sends to itself and the system task never waits for a reply; signals, exit, fork, exec, dequeue_schedule, the write of the receiving bit at the start of a system call, pending notifications (which nothing sets) and interrupts inside an operation are not steps of the runs.
- KernelTable.Table.SyscallHandler: WINIX_STACK_TRACE and where a message lies in user memory are not modelled; messages are copied as values.
- KernelTable.Table.Sched: pending signals are not modelled.
- BlockCache.Cache.GetBlock: one device, valid block numbers above zero, a block that is not held, and two idle buffers; a failed read of the device is not modelled.
- put_block_buffer_immed and flush_inode_zones would only add easy members.
- FileSystem.FileSys.RootFsWrite: the place is not behind the end, and every file has as many blocks as its size needs, which a write elsewhere than at the end can undo for its own file; runs of writes are therefore runs of appends.
- FileSystem.FileSys.RootFsRead: the place is not behind the end of the file.
- FileSystem.FileSys.AllocBlock: the block map and the inode map are arrays of words beside the device and not blocks in the cache; the buffer of the map that the code keeps when the device is full is not modelled.
- FileSystem.FileSys.AllocInode: the table of inodes in memory never runs full, and reading and writing inodes on disk is not modelled.
- FileCached.ReadCached: the chunks go through the cache after the file system has chosen their blocks; the maps and the inodes do not.
- Directories, paths, truncation, release of inodes and seeking.
- HeapList.Allocator.Malloc: sbrk succeeds; sizes are above zero.
- HeapList.Allocator.Run: every pointer that is freed is live.
- HeapList.Allocator.Free: a pointer into the heap is a live one.
- calloc and realloc, and the kernel's own allocator.
- Pipe.Pipe.PipeRead: counts are above zero, since a read of nothing blanks the pipe; allocation of the waiting record succeeds.
- Pipe.Pipe.PipeWrite: the signal that a write to a closed pipe raises is only named.
- Pages.Memory.GetFreePages: lengths are whole pages; for others fewer pages are searched than set.
- Pages.Memory.AllocMem: the check of the executable's header and the contents of the image are not modelled.
- Sharing of memory by threads and vfork.
- Timers.TimerQueue.RemoveTimer: the timer is pending.
- Timers.TimerQueue.DoTicks: times do not wrap around, and a handler only sets timers.
- Terminals, drivers, assembly, the shell and the commands.
