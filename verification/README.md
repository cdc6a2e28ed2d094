# Buffers, swapping, files, pipes and the network path of BBN's UNIX V6

A model of the kernel kept in `jnc_bbn-files`, UNIX Version 6 with the ARPANET network control
program of BBN, and proofs about it: the parts of the kernel that hand out, share, queue or
transform something and where one wrong link or count is felt far away.

| part of the kernel | files |
|---|---|
| network buffers, and messages as rings of them | NetChunks, NetRings, NetInv, NetPool |
| what goes out to the IMP | ImpOutput |
| raw messages, in and read | RawFraming, RawInput |
| host-to-host flow control | FlowControl |
| the block buffer cache | DList, CacheInv, BufferCache |
| core and swap maps; who owns core and swap space | ResourceMap, Ownership, CoreSwap |
| free blocks of a volume, blocks of a file | FreeList, FileTree, FileTrunc, FileStore |
| the consistency checker's pass over blocks | ICheck |
| pipes: the ends, their closing, the bytes | PipeEnds, PipeClose, Pipe |
| callouts, the disk elevator, swap headers | Callout, Elevator, SwapSem |

Code that changes kernel tables in place is modelled by classes whose fields are those tables
(`NetPool`, `ImpOut`, `RawSkt`, `RawIn`, `BufferCache`, `Map`, `Memory`, `FileSys`, `ICheck`, `Pipe`, `Clock`,
`Disk`, `Swapper`).  A method is what runs between two waits or two moments at which the processor's
priority lets an interrupt in.  A class's state as a value is `Now()`; `Valid()` or `Inv(Now())` is
what holds between any two methods, every constructor makes it true, and every method keeps it.  Since
methods may be called in any order their contracts allow, what follows from the invariant holds in
every reachable state.  A call that would sleep returns with the process entered among the sleepers,
and is called again when woken, as the loops around the source's sleeps do.

Pointers between buffers are numbers: a netbuf's address, the index of a buffer header.  A ring or
list threaded through such pointers is tied to a ghost sequence, and the operations are proved
to do to the sequence what the source means them to.

## What turned out not to hold

Eight things one would expect are not so.  The model follows the code, and says exactly what it does.

- Closing an end of a pipe does not always set free those who wait at the other end.
  `PipeClose.WriterLost` and `PipeClose.ReaderLost` are two runs after which a process sleeps for good;
  `PipeClose.CloseStrandsNobody` gives the exact condition on the state at the close.
- `bmap` that runs out of blocks half way can change what a file reads as
  (`FileStore.FailureCanCorrupt`); `FileStore.FailureKeepsMap` says exactly when it does not.
- `bdfree` of a page of a pipe may lose data; `Pipe.FreeKeepsIff` is the exact condition for it not to,
  and `Pipe.Pipe.EndRead` shows that `readp` meets it.
- A timeout of a negative time makes others late, and in a sweep is not kept itself, while something
  already called is called again.  `Callout.TimeoutHonoured` is the exact condition, in a sweep and out
  of it, whatever the times in the list; `Callout.SweepRunsAway` is a sweep that calls the same function
  until the table is full, `Callout.NewEntryDropped` one that throws the new entry away.  A negative
  entry also makes later timeouts late: `Callout.NewOnTime` says by how much.
- `to_ncp` garbles a vector longer than a buffer (`NetPool.LongVectorMangled`), unless it repeats itself
  from buffer to buffer (`NetPool.GoneIff`).
- The length `rmovepad` passes on is not always that of the message it leaves: it takes off what is
  missing in bytes of the connection's size from a count of eight-bit bytes
  (`NetPool.MissingWrong`).  `NetPool.NetPool.RMovePad` says exactly when it is right: if nothing is
  missing, or the two counts of what is missing agree, which for sizes above eight they never do.
- A length word of a raw message above MAXMSG + RAWPAD loses all that is queued, not that message alone
  (`RawFraming.RawSkt.Read`, `RawFraming.LongLosesShort`).
- `freekb`'s comment speaks of a block; the loop returns every block that is whole
  (`NetPool.NetPool.FreeKb`), down to fewer than b_hyster.

## Model

| member | source | states |
|---|---|---|
| NetPool.NetPool.constructor | jnc_bbn-files/ncpkernel/ncpio.c:91-97 | Before the daemon opens, with any supply of disjoint system blocks and any surplus to keep, the pool invariant holds: every netbuf is on the free list, in one message ring or in hand, rings are closed, b_freect, b_cntfree, b_alloc and rbuf_count are exact. |
| NetPool.NetPool.LinkBuf | jnc_bbn-files/ncpkernel/kerbuf.c:1053-1074 | A buffer is put at the end of a ring (or alone): the ring is the old one with the buffer last, and no link outside the old handle and the buffer changes. |
| NetPool.NetPool.IFreeBuf | jnc_bbn-files/ncpkernel/kerbuf.c:1004-1014 | The buffer after the handle is unlinked; the rest is a ring with the same handle, 0 if none is left, and no other link changes. |
| NetPool.NetPool.GetKb | jnc_bbn-files/ncpkernel/kerbuf.c:903-959 | A new block adds eight free netbufs exactly when fewer than KB_HIWAT are allocated and the system has one; one process more waits when it has none; no system block is lost or made, and no message is touched. |
| NetPool.NetPool.InstallKb | jnc_bbn-files/ncpkernel/kerbuf.c:928-957 | The second half of getkb, after getblk may have slept and the pool has changed: still a free slot for the block, its eight netbufs are behind those that were free, and the invariant holds. |
| NetPool.NetPool.GetBuf | jnc_bbn-files/ncpkernel/kerbuf.c:807-845 | A buffer is got if and only if one is free, or fewer than KB_HIWAT blocks are allocated and the system has one. It is the first of those free, empty, unmarked and in no other message, and no block is taken in while one is free. All other messages keep their buffers and bytes. |
| NetInv.StockIff | jnc_bbn-files/ncpkernel/kerbuf.c:807-959 | The number of buffers that could be had without sleeping, the free ones and eight for each block the pool may take in and the system can give, is never negative, and is zero exactly when getbuf would sleep. |
| NetPool.NetPool.FreeBuf | jnc_bbn-files/ncpkernel/kerbuf.c:561-586 | The first buffer of a message goes back, and the message is left with its other chunks; 0 is returned exactly when it was the last. All other messages are untouched. No block is kept all of whose netbufs are free while more than the surplus are. |
| NetPool.NetPool.FreeKb | jnc_bbn-files/ncpkernel/kerbuf.c:650-709 | Nothing happens while no more than b_hyster blocks' worth of netbufs is free; otherwise exactly the blocks all eight of whose netbufs are free go back to the system and the others stay as they are, the free list being closed round the gaps. |
| NetPool.NetPool.FreeMsg | jnc_bbn-files/ncpkernel/kerbuf.c:747-755 | Exactly the message named is gone, its buffers are free or given back, and every other message keeps its buffers and bytes. |
| NetPool.NetPool.AppendB | jnc_bbn-files/ncpkernel/kerbuf.c:61-76 | A handle is returned if and only if the last buffer has room, or a buffer is to be had, within the limit if the last is raw; its last buffer has room: the same message with nothing changed if there was room, else the message with one empty buffer more, raw if the last was. |
| NetPool.NetPool.BytesOut | jnc_bbn-files/ncpkernel/kerbuf.c:247-317 | The vector gets the first bytes of the message, as many as were asked for or are there, and the message keeps the others, in order; what is returned is the count not moved; 0 replaces the handle exactly when nothing is left. |
| NetPool.NetPool.VecToMsg | jnc_bbn-files/ncpkernel/kerbuf.c:1128-1189 | All but `left` bytes of the vector follow the message's own, in its last buffer and then in new ones; bytes are left only if at that point no room is left and no buffer is to be had; the pool has as many buffers less to give as the message has more. A message is made exactly when something was moved. |
| NetPool.NetPool.CatMsg | jnc_bbn-files/ncpkernel/kerbuf.c:367-412 | The two messages become one, with the bytes of the first and then of the second; one handle of the two is kept, no other message is touched, and a null message on either side is no message. |
| NetChunks.CatConcatenates | jnc_bbn-files/ncpkernel/kerbuf.c:367-412 | The chunks of the joined message hold the first message's bytes and then the second's, in buffers of at most NET_B_SIZE bytes. |
| NetChunks.FillResumes | jnc_bbn-files/ncpkernel/kerbuf.c:1128-1189 | Moving a vector in two goes leaves the same buffers as moving it in one, so that a transfer broken off for want of buffers can be taken up again. |
| NetPool.NetPool.RawBuf | jnc_bbn-files/ncpkernel/rawtable.c:60-79 | A raw buffer is got if and only if rbuf_count is below RBUF_MAX and getbuf has one; it is marked and counted, and rbuf_count is at all times the number of marked buffers. |
| NetPool.NetPool.RMovePad | jnc_bbn-files/ncpkernel/impio.c:1192-1220 | The message keeps its first bytes, as many as its leader's count of bytes of its byte size says, or all if it has fewer; buffers past the end are freed. The length returned is that of what is kept if and only if nothing is missing or as many connection bytes as eight-bit bytes are. |
| NetPool.NetPool.ToNcp | jnc_bbn-files/ncpkernel/ncpio.c:459-515 | It succeeds if and only if the pool can give the buffers it needs: none if the vector fits in front of the data of the first buffer, else one for each buffer's worth of what does not. Then what the loop makes of the vector, and the message, follow what is queued for the daemon, the last buffer is marked as an end, and buffers already queued are not merged into; that is the vector itself if and only if it fits in a buffer or repeats itself from buffer to buffer. Otherwise both messages are as before. |
| NetPool.GoneIff | jnc_bbn-files/ncpkernel/ncpio.c:479-501 | The loop hands vectomsg the same address each time: the vector comes out as it is if and only if each byte past the first buffer is the one a buffer before it. |
| NetPool.LongVectorMangled | jnc_bbn-files/ncpkernel/ncpio.c:479-501 | A vector of 61 different bytes: the last comes out as the first. |
| NetPool.MissingExact | jnc_bbn-files/ncpkernel/impio.c:1210-1213 | When rmovepad's division gives the count it was given: for nothing missing, or a byte size of at most eight and little missing; so for eight always, for more never. |
| NetPool.MissingWrong | jnc_bbn-files/ncpkernel/impio.c:1210-1213 | Nine bytes missing of a connection of 16-bit bytes are taken for four. |
| FlowControl.StepInv | jnc_bbn-files/ncpkernel/nrdwr.c:481-554 | Every event of either host keeps credit conserved: what the sender may still send, what is on its way, what comes back as ALLs and what is queued unread are together what the receiver has given out, in bytes and in messages. |
| FlowControl.FlowSafety | jnc_bbn-files/ncpkernel/nrdwr.c:73-160 | In every state of every run: the receive queue never holds more than r_hiwat, the two-word credit never underflows or wraps, a message is only sent against credit, and bytes sent are bytes read, queued or in the net. |
| FlowControl.NoStall | jnc_bbn-files/ncpkernel/nrdwr.c:481-554 | In every run, once all has arrived and been read, the sender has credit for a byte and a message, and may send any nonempty write: sendalloc's half-way test cannot leave it dry. |
| FlowControl.RunExtends | jnc_bbn-files/ncpkernel/nrdwr.c:224-301 | Every event that can happen at the end of a run makes a longer run: the definition of a run shuts nothing out. |
| FlowControl.AnyAllocExact | jnc_bbn-files/ncpkernel/nrdwr.c:345-364 | Over both words of credit: nothing without a message of credit, and else all the bytes there are credit for, up to the 1000 of the largest message. |
| FlowControl.RunMoves | jnc_bbn-files/ncpkernel/nrdwr.c:73-301 | In every run each event moves what it should, told in whole bytes and messages: a message is the least of the count, 1000 and the credit; its RFNM takes just it off the credit; a read hands over all that is queued up to its count; an ALL goes out just when that leaves the sender half its bytes or messages or less, waits for link 0, takes it, and carries exactly what is missing to the full allocation. |
| FlowControl.EnabledIff | jnc_bbn-files/ncpkernel/nrdwr.c:224-301 | A write may send if and only if it has bytes, none is unacknowledged, and there is credit for a message and a byte; a reader that waits for link 0 goes on as soon as that is free. |
| FlowControl.InOrder | jnc_bbn-files/ncpkernel/nrdwr.c:224-301 | In every run the messages delivered and then those in the net are those sent, whole and in order. |
| ImpOutput.ImpOut.Strat | jnc_bbn-files/ncpkernel/impio.c:1407-1433 | A message put on the output queue is last in it; its first buffer goes out at once if and only if the line is idle; what is on the line followed by what the queue still holds is all that was ever queued, frame by frame. |
| ImpOutput.ImpOut.ODone | jnc_bbn-files/ncpkernel/impio.c:1562-1621 | The next buffer of the message goes out, or, at its end, the message and its buffers are freed and the first buffer of the next one goes out; the line falls idle exactly when nothing is queued. Nothing sent is taken back or repeated, and no other message is touched. |
| ImpOutput.IdleMeansAllSent | jnc_bbn-files/ncpkernel/impio.c:1562-1621 | When the line falls idle all that was ever queued has gone out, in order. |
| ImpOutput.SndNetBytesOnLine | jnc_bbn-files/ncpkernel/kerbuf.c:1259-1340 | The frames of the message sndnetbytes builds carry leader, user bytes and at most one byte of padding, each of an even number of bytes, the end marked on the last and only there: the buffer header in front is never sent. |
| RawFraming.RawSkt.Strat | jnc_bbn-files/ncpkernel/rawmain.c:1007-1037 | A raw message queued on a socket is the last to be read; joining it to those queued splits no length word. |
| RawFraming.RawSkt.Read | jnc_bbn-files/ncpkernel/rawmain.c:292-329 | A read returns bytes of one message only, in order, whatever the sizes of the reads; the next message starts with the next read; an error exactly when the next message is longer than MAXMSG + RAWPAD, and then all that is queued is lost. |
| RawInput.RawIn.DataIn | jnc_bbn-files/ncpkernel/rawmain.c:804-838 | What the interface delivers, buffer after buffer, is counted; at the end the message on the socket's queue is its length in two bytes, the leader and all the data, in order. It is flushed if and only if it was being flushed or this filled its last buffer and no raw one is to be had; then, or if the socket was closed, its buffers are freed at the end and nothing is queued. |
| RawInput.RawIn.LeaderIn | jnc_bbn-files/ncpkernel/rawmain.c:706-749 | The leader goes into a raw buffer, behind two bytes kept for the length, if and only if it fits and a raw buffer is to be had: rbuf_count below RBUF_MAX, and one free or a block to take in. Otherwise no message is made or changed, and what follows is flushed. |
| RawInput.RawIn.IHBGet | jnc_bbn-files/ncpkernel/impio.c:923-945 | A full buffer is followed by an empty one if and only if a raw buffer is to be had, and otherwise flushing begins. |
| RawInput.RawIn.Read | jnc_bbn-files/ncpkernel/rawmain.c:292-329 | A process may read from the socket while a message comes in for it: it gets what RawSkt.Read gives it, and neither is disturbed. |
| RawInput.RawIn.Discard | jnc_bbn-files/ncpkernel/rawmain.c:811-830 | The buffers of a message nobody gets are given back: it is gone, and every other message is as it was. |
| RawFraming.LongLosesShort | jnc_bbn-files/ncpkernel/rawmain.c:313-320 | A message too long with one of two bytes behind it: the read that fails loses both. |
| BufferCache.BufferCache.constructor | jnc_bbn-files/dmr/bio.c:575-612 | binit leaves all the buffers available, for no block, on the ring of no device, with nothing owed and nobody waiting. |
| BufferCache.BufferCache.GetBlk | jnc_bbn-files/dmr/bio.c:335-399 | A cached block's buffer is returned, or waited for if busy; otherwise the first available buffer that owes nothing is reassigned; if all owe, all start to be written and the caller waits. The other available buffers keep their order. No block is ever in two buffers, and no owed contents are lost. |
| BufferCache.BufferCache.Incore | jnc_bbn-files/dmr/bio.c:279-291 | The search of one device ring finds a buffer of the block if any buffer at all has it. |
| BufferCache.BufferCache.BRead | jnc_bbn-files/dmr/bio.c:60-72 | The caller waits for a buffer if and only if the block's is busy, or no buffer has it and all available ones owe. Otherwise it has the buffer that was cached, or the first available one that owes nothing; it goes on at once if and only if the block was cached and valid, and else sleeps for a read that has been started. The buffer holds what was last written to the block, by anyone. |
| BufferCache.BufferCache.ReadWanted | jnc_bbn-files/dmr/bio.c:78-92 | breada's first part: nothing happens if the block is cached; if it is not, the first available buffer that owes nothing is being read into, or, if there is none, the caller sleeps for any. What follows is BRead in the one case, IoWait in the other. |
| BufferCache.BufferCache.ReadAhead | jnc_bbn-files/dmr/bio.c:99-118 | Just if a block is asked for, not cached, and a buffer seems free, one that owes nothing is read into with nobody waiting; the caller sleeps exactly if all owe. No block's contents and no buffer held by another change. |
| BufferCache.BufferCache.BWrite | jnc_bbn-files/dmr/bio.c:127-152 | The buffer is with the driver, its contents are the block's from then on, and the caller waits unless B_ASYNC is on; a delayed write is marked to be released to the front. |
| BufferCache.BufferCache.BAWrite | jnc_bbn-files/dmr/bio.c:186-194 | The same, with nobody waiting. |
| BufferCache.BufferCache.BDWrite | jnc_bbn-files/dmr/bio.c:162-181 | The block's contents are the buffer's from now on; the buffer is released and owes them, or, on tape, is being written with nobody waiting. |
| BufferCache.BufferCache.BRelse | jnc_bbn-files/dmr/bio.c:200-232 | The buffer is available, at the front if aged and else at the end, with its block and contents; nobody is left asleep for it or for any buffer, and everybody else sleeps on. |
| BufferCache.BufferCache.IoDone | jnc_bbn-files/dmr/bio.c:527-553 | The transfer is over: disk and buffer agree, exactly those who waited for it are woken, or, if asynchronous, the buffer is released. |
| BufferCache.BufferCache.IoWait | jnc_bbn-files/dmr/bio.c:491-502 | The caller goes on only when the transfer is done, with the block's contents. |
| BufferCache.BufferCache.BFlush | jnc_bbn-files/dmr/bio.c:867-882 | Of the available buffers exactly those that owe to the device are gone, and being written; nothing else changes. |
| BufferCache.SettledDiskIsTruth | jnc_bbn-files/dmr/bio.c:867-882 | With no transfer under way and no delayed write the disk holds, for every block, what was last written to it. |
| CacheInv.AssignKeeps | jnc_bbn-files/dmr/bio.c:383-399 | Giving a buffer to another block keeps both ring structures, each block in one buffer at most, all owed contents, and every sleeper's wakeup. |
| ResourceMap.Map.Malloc | jnc_bbn-files/ken/malloc.c:29-48 | First fit on the in-place table: the entries are Taken of the old ones, and 0 is returned exactly when no entry is big enough. |
| ResourceMap.Map.MFree | jnc_bbn-files/ken/malloc.c:56-88 | The entries are Given of the old ones, whichever neighbours the piece joins. |
| ResourceMap.TakenExact | jnc_bbn-files/ken/malloc.c:29-48 | malloc takes `size` units that were free, and frees or takes no others. |
| ResourceMap.GivenExact | jnc_bbn-files/ken/malloc.c:56-88 | mfree makes exactly the units of the piece free; with GivenProper, entries stay in order with a gap between any two. |
| ResourceMap.Canonical | jnc_bbn-files/ken/malloc.c:56-88 | Two maps with the same free units have the same entries. |
| ResourceMap.FreeUndoesMalloc | jnc_bbn-files/ken/malloc.c:29-88 | Freeing what malloc just gave restores the map, entry for entry. |
| ResourceMap.AllGivenBack | jnc_bbn-files/ken/malloc.c:29-88 | After any sequence of mallocs, failed ones among them, freeing the pieces in any order restores the map, entry for entry. |
| ResourceMap.AnyOrder | jnc_bbn-files/ken/malloc.c:56-88 | In whatever order pieces are freed, the map ends up the same. |
| Ownership.CorePartition | jnc_bbn-files/ken/slp.c:144-256 | In every reachable state each unit of core there was at the start is in the free map or in exactly one image, u area or transfer, never both; and there are no others in either. |
| Ownership.SwapPartition | jnc_bbn-files/ken/slp.c:144-256 | The same of swap space: each unit is free, or of one image, one text or one dead process. |
| CoreSwap.Memory.constructor | jnc_bbn-files/ken/main.c:72-134 | After main the maps say what is free, process 0 has a u area, there are no other users, and the units there are are the free ones and that area. |
| CoreSwap.Memory.Xswap | jnc_bbn-files/ken/text.c:23-47 | There is swap space, at the first fit for the size to come back with, or nothing changes. A process on its way out keeps its core until it is written; its text has one loaded user less, and gives up its core with the last. |
| CoreSwap.Memory.SwapDone | jnc_bbn-files/ken/text.c:36-46 | The image is on the swap device and its core is free, unless it is a child's and the core the parent's. |
| CoreSwap.Memory.Expand | jnc_bbn-files/ken/slp.c:476-504 | A process that shrinks frees the tail of its core; one that grows is moved to the first fit in core, goes out with the new size if and only if nothing in core fits, and nothing has changed if nothing in swap fits either. |
| CoreSwap.Memory.BringIn | jnc_bbn-files/ken/slp.c:180-187 | A process is brought in if and only if some entry of the core map is big enough for it and, if no loaded process uses that, its text; it has the first such entry. Otherwise nothing changes. |
| CoreSwap.Memory.TextDone | jnc_bbn-files/ken/slp.c:236-244 | A text read in belongs to the text, not to the process brought in, and the process is counted as a loaded user. |
| CoreSwap.Memory.ImageDone | jnc_bbn-files/ken/slp.c:245-252 | The image is in core, and its swap space, and only that, is free. |
| CoreSwap.Memory.NewProc | jnc_bbn-files/ken/slp.c:425-456 | A child has core of its own, the first fit, or, if nothing fits, is made by writing the parent out to the first fit in swap as the child, the parent keeping its core; text counts go up by one. Nothing changes if nothing fits there either. |
| CoreSwap.Memory.Xfree | jnc_bbn-files/ken/text.c:53-70 | One user of the text less, loaded or not; its core and swap space are freed with the last, the swap space only if the file is not sticky. |
| Ownership.TextOutlives | jnc_bbn-files/ken/text.c:53-70 | After xfree a text keeps its swap space if and only if it has another user or is sticky, and its core if another user is loaded; what is not kept is free in the maps. |
| CoreSwap.Memory.Attach | jnc_bbn-files/ken/text.c:132-142 | A process takes up a text: with loaded users it shares their copy, without it goes out to be brought in with the text, unless no swap space fits. |
| CoreSwap.Memory.NewText | jnc_bbn-files/ken/text.c:107-115 | A text with swap space of its own, the first fit, and its maker as first user; nothing changes if and only if nothing fits. |
| CoreSwap.Memory.TextMade | jnc_bbn-files/ken/text.c:116-142 | Once written to its swap space the text's core goes back with the shrink to a u area, and the maker takes the text up like any other user. |
| CoreSwap.Memory.Exit | jnc_bbn-files/ken/sys1.c:355-361 | The text is given up, the u area goes to the first free block of swap, if there is one; nothing is freed twice. |
| CoreSwap.Memory.Die | jnc_bbn-files/ken/sys1.c:362-365 | The dead process's core is free, and only that. |
| CoreSwap.Memory.Reap | jnc_bbn-files/ken/sys1.c:419-425 | The dead process's block of swap is free, and its slot. |
| FileStore.FileSys.Alloc | jnc_bbn-files/ken/alloc.c:60-100 | The free list is a stack, in core and chained through the blocks themselves: the top block is given out, zeroed, or 0 if there is none. |
| FileStore.FileSys.Free | jnc_bbn-files/ken/alloc.c:107-134 | The block is the new top, spilling the core part into it when that is full; a number that is no block of the volume changes nothing. |
| FileStore.FileSys.Bmap | jnc_bbn-files/ken/subr.c:20-139 | With free blocks enough: the block of the file is there, zeroed if new, every other entry of the map is as it was, through the change to the large format and all levels, and no block is used twice; just as many blocks as were missing on the way are taken, and no block is written but those and the indirect blocks on the way. Otherwise 0, and exactly the half-built state. |
| FileTree.LookupInjective | jnc_bbn-files/ken/subr.c:20-139 | Two positions of a file never share a block. |
| FileStore.FileSys.Itrunc | jnc_bbn-files/ken/iget.c:171-214 | Every block of the file goes on the free list, in the order of the loops, and the inode is empty; no other block is written; special files are left alone. |
| FileTrunc.FreedExactly | jnc_bbn-files/ken/iget.c:171-214 | What itrunc frees is every block the inode reaches, each once, and none that was free. |
| FileStore.FailureKeepsMap | jnc_bbn-files/ken/subr.c:38-139 | After bmap ran out of blocks the file reads as before if and only if no uncleared block was hung into it, or that block happens to name nothing. |
| FileStore.FailureCanCorrupt | jnc_bbn-files/ken/subr.c:38-110 | A small file, two free blocks, and block 256 asked for: one makes the file large, the other is hung in with another file's old words in it, and a hole of the file then reads as a block of another file. |
| ICheck.ICheck.Chk | jnc_bbn-files/progs/icheck.c:201-225 | A block is bad exactly when out of range, a duplicate exactly when its bit was on; only its bit changes. |
| ICheck.ICheck.MakeFree | jnc_bbn-files/progs/icheck.c:303-325 | The list rebuilt holds exactly the unmarked blocks of the volume, in a form alloc can walk; no marked block is written. |
| ICheck.ICheck.Drain | jnc_bbn-files/progs/icheck.c:227-247 | Taking blocks until none is left gives those of the list in the reverse of their order, and empties it. |
| ICheck.DrainAscends | jnc_bbn-files/progs/icheck.c:227-325 | From the rebuilt list blocks come in ascending order, exactly those not marked, each once. |
| PipeEnds.RunOk | jnc_bbn-files/ken/pipe.c:68-301 | Over every run of readers, writers, closers and update, whoever sleeps on a pipe has cause to, and the flag that will have it woken is on; one process at a time has the lock. |
| PipeEnds.GoesOn | jnc_bbn-files/ken/pipe.c:68-301 | In every state of every run a process that is not asleep can take its next step, update gets the lock just when it is free and an end in use, and an end can be called on while it is open: the steps of a run shut nothing out. |
| PipeClose.CloseStrandsNobody | jnc_bbn-files/ken/fio.c:43-108 | After the last close of an end no run ever leaves a process asleep for the end that is gone, if and only if at the close the other end was no longer open; or the lock was free and, for a read end, the loop behind an end of file can be left by all in it: no end of file pending, one eofp caller alone, or writers none of whom the others can leave without room. |
| PipeClose.WriterLost | jnc_bbn-files/ken/pipe.c:184-200 | A writer behind an unread end of file, and the reader closes: woken, it looks at IEOFP alone and sleeps for good. |
| PipeClose.ReaderLost | jnc_bbn-files/ken/fio.c:57-108 | A reader that waits for the lock while another takes the last byte, and the writer closes: it gets the lock before i_count goes down, sleeps, and nobody wakes it. |
| PipeClose.LostStays | jnc_bbn-files/ken/pipe.c:68-301 | A process so stranded stays asleep whatever happens, but for a close of another descriptor. |
| Pipe.Pipe.constructor | jnc_bbn-files/ken/pipe.c:30-60 | A new pipe: both ends open, nothing written or read, nobody waiting, no page in a buffer. |
| Pipe.Pipe.Go | jnc_bbn-files/ken/pipe.c:68-285 | plock and what follows up to the next wait, step for step as in PipeEnds; ends of file are sent and taken in their place among the bytes. |
| Pipe.Pipe.EndRead | jnc_bbn-files/ken/pipe.c:116-152 | readi hands over the next unread bytes; what was taken so far is at all times the beginning of what was written; bdfree calls off the writes of exactly the pages wholly read, and of the last page too when the pipe starts over empty. |
| Pipe.Pipe.EndWrite | jnc_bbn-files/ken/pipe.c:208-232 | writei adds as many bytes as there is room for, never past PIPSIZ, and waiting readers are woken; of the pages written exactly those not full, or all as long as IPIPE is on, are delayed writes. |
| Pipe.Pipe.Close | jnc_bbn-files/ken/fio.c:43-108 | The wakeups, then plock and iput: the step PipeClose is about; bytes in the pipe are kept. |
| Pipe.Pipe.CloseShared | jnc_bbn-files/ken/fio.c:57-64 | A close of a shared descriptor turns off IREAD, IWRITE and IPIPE and wakes everyone, whom the loops put back to sleep; no byte is lost for it, though writes of full pages are then started at once. |
| Pipe.Pipe.Update | jnc_bbn-files/ken/alloc.c:321-327 | update takes the lock of a pipe's inode when it is free; nothing else of the pipe changes. |
| Pipe.Pipe.EndUpdate | jnc_bbn-files/ken/alloc.c:321-327 | And gives it up, waking those who wait for it. |
| Pipe.Pipe.Disturb | jnc_bbn-files/dmr/bio.c:304-399 | A page's buffer may be written, read in or given away at any time without harm to the unread bytes. |
| Pipe.FreeKeeps | jnc_bbn-files/dmr/bio.c:304-317 | Calling off the delayed write of a page keeps the unread bytes if none is on it. |
| Pipe.FreeKeepsIff | jnc_bbn-files/dmr/bio.c:304-317 | That no unread byte is on the page is the exact condition for calling off its write to be safe whatever the pages and bytes are. |
| Callout.Clock.Timeout | jnc_bbn-files/ken/clock.c:160-190 | The new entry and the one behind it share the latter's time, whatever the times, in a sweep or out of it. While no time has been negative the list spells the old jobs and the new one, behind all that are due no later, and no other job's tick changes or is lost. |
| Callout.Clock.Tick | jnc_bbn-files/ken/clock.c:54-59 | The first entry with time left loses a tick; that brings every job one tick closer. |
| Callout.Clock.Fire | jnc_bbn-files/ken/clock.c:72-78 | The entry the sweep has come to is called if it has no time left. While no time has been negative: a function is called if and only if its tick has come, with its own argument, and the first in order. |
| Callout.Clock.Sweep | jnc_bbn-files/ken/clock.c:72-86 | A sweep in which each function called asks for any timeouts of times not negative: nothing due is left, nothing not due was called, calls are in the order of their ticks, and each job there was or was asked for was called or is still in the list, once. |
| Callout.TimeoutHonoured | jnc_bbn-files/ken/clock.c:160-190 | For every list a sweep has come down to, negative times in it or not, in a sweep or out of it: whatever function is asked for is among those still to be called, and each of the others is called when it was, if and only if the time is not negative, or the list is empty, or its first entry is due even sooner. |
| Callout.SpellsHonoured | jnc_bbn-files/ken/clock.c:160-190 | As long as no time has been negative, that is: the time is not negative, or the list is empty. |
| Callout.NewOnTime | jnc_bbn-files/ken/clock.c:160-190 | The new job itself is late by what the negative entries before it lack, less its own: so a timeout of a time not negative is kept to the tick if and only if it goes behind no negative entry. |
| Callout.CallingKept | jnc_bbn-files/ken/clock.c:27-91 | Ticks, calls, compaction and timeouts that meet the condition keep what the two lemmas need. |
| Callout.TickBrings | jnc_bbn-files/ken/clock.c:54-59 | The waits the lemmas speak of are ticks: a tick takes one from each that is not zero. |
| Callout.CalledIff | jnc_bbn-files/ken/clock.c:72-78 | A sweep reaches an entry exactly when its wait is zero. |
| Callout.SweepRunsAway | jnc_bbn-files/ken/clock.c:72-91 | Function 7, second in the list, asks each time it is called to be called in -60 ticks: for every n, after n calls it is the same entry that is next, and the list has grown by n. |
| Callout.NewEntryDropped | jnc_bbn-files/ken/clock.c:72-91 | First in the list, its new entry is dropped by the compaction and the old one stays, it and all behind it 60 ticks late. |
| Elevator.PlacedSweeps | jnc_bbn-files/dmr/rp.c:64-104 | Placing a request keeps the queue a series of sweeps: the arm turns only where it has gone as far as anything placed before asks. |
| Elevator.PlacedSettled | jnc_bbn-files/dmr/rp.c:64-104 | Placing a request never makes a gap that would take one already behind it. |
| Elevator.PlacedBehindEqual | jnc_bbn-files/dmr/rp.c:64-104 | So in every queue there can be a new request is behind all others for its cylinder: those are served in the order asked for. |
| Elevator.Disk.Strategy | jnc_bbn-files/dmr/rp.c:64-104 | The request is in the first gap that takes its cylinder, never before the one under way, and behind all others for that cylinder; all others are there, in the order they were in. |
| Elevator.Disk.Done | jnc_bbn-files/dmr/rp.c:117-147 | The request under way leaves, the rest in order. |
| SwapSem.Swapper.Pee | jnc_bbn-files/ken/proc_util.c:95-108 | A process is let in exactly when the count is positive, and else is in state SWAIT, last in the ring; the processes in that state are at all times those in the ring. |
| SwapSem.Swapper.Vee | jnc_bbn-files/dmr/bio.c:833-859 | Giving up a header makes the first who waits, and nobody else, able to run, if any waits; a count below zero is the number who wait, and the order of service is the order of asking. |
| SwapSem.Swapper.TakeHeader | jnc_bbn-files/dmr/bio.c:833-859 | Whoever is let in finds one of the two headers free: swap's panic cannot happen. |
| SwapSem.Swapper.QEnter | jnc_bbn-files/ken/proc_util.c:27-52 | The process is last in the ring. |
| SwapSem.Swapper.QDelink | jnc_bbn-files/ken/proc_util.c:60-85 | The first leaves, and 0 is returned exactly for an empty ring. |

## Left out

- Interrupts inside a method: each method is one atomic step, as the source's spl brackets and the lack of preemption in the kernel make it, with a break wherever it sleeps.  Where the source has no bracket and needs one (clock's compaction of the callout list while an interrupt calls timeout) the race is not modelled.
- Signals that end a sleep, and who runs first among those woken: wakeup makes all of them able to run, and any order is allowed.
- Scheduling policy: swtch's choice of a process and sched's choice of whom to bring in or send out.  Any process that could be chosen may be.
- Device registers, the UNIBUS map, errors of a device, PASYNC and physio.  A transfer that is started moves its block at some later moment.
- The kernel built with BUFMOD, LCBA or without the network: the parts for other values of these switches.
- User addresses that fault in bytesout, vectomsg, readi and writei.
- Panics for want of swap space: Xswap, NewText and Exit return 0 instead, with what has changed by then.
- FailureKeepsMap: the disk is without buffers.  If the last free block still has one marked B_DELWRI, alloc's clearing reaches the disk after all; marked only B_DONE, reads see zeros until the buffer is used for another block.
- ReadAhead: rablock and readi's choice of the block to read ahead are not part of this model.
- ResourceMap.Map.MFree: the table has a slot to spare; the source does not look, and writes past the table when it is full.
- Callout.Clock.Timeout: the table has an entry to spare; the source does not look, and writes past the table when it is full.
- Callout.Clock.Sweep: the functions called ask for times not negative; TimeoutHonoured and SweepRunsAway are about the others.
- NetPool.NetPool.ToNcp: the daemon is running; if it is not, the message is freed.
- RawInput.RawIn.DataIn: a message longer than 65535 bytes is not part of this model, nor the count of bytes that went to the emergency buffer; which socket a message is for (rawtable.c) is given.
- NetPool.NetPool.RMovePad: counts are not cut to 16 bits; a leader that claims more than 32767 bits' worth of eight-bit bytes is not part of this model.
- FlowControl.FlowSafety: one connection, whose messages arrive in order; the allocation a user asks to have changed, and closing, are not part of this model.
- ImpOut.ODone: without an error from the interface, which the source answers by sending again.
- CoreSwap: overlays of exec other than by Expand, and ptrace's changes of a text.
- CoreSwap.Memory keeps the two maps as lists of entries, not as the tables of ResourceMap.Map, so the limit on their slots is not in it.
- Xfree: a file loses its sticky bit only by a new text's `sticky` parameter; x_iptr's inode is not modelled.
- RawSkt: n_open's states.
- The rest of iput, iget, namei, the super block's inode list, and ICheck's walk of the inodes that calls Chk.
- The line clock's other duties, the terminal driver, the daemon's protocol and all user programs.
