# Proofs about the driver examples

A Dafny model of the parts of this repository whose behaviour is hard to see from one function at a time,
with proofs of what they keep and compute. `dafny verify dfyconfig.toml` checks everything. Module `Common` holds
options, error numbers and small facts that the others share, `Bits` bit fields and little-endian words.

## What is modelled

**AArch64 page tables** (`test_mmu/mmu_tools.py`; modules `MmuModel`, `MmuSplit`, `MmuPut`, `MmuWalk`,
`MmuRegions`, `MmuTool`). The generator applies an ordered list of 1G/2M/4K regions to three entry arrays, splits
live blocks into sub-tables on demand, appends entries to a linear list and serialises that list. The main
result, `MmuTool.GenElxBin`, is a compiler-style statement: for every list of regions aligned to their granularity,
a three-level walk as in sections D5.3.1 and D5.3.2 of Arm DDI 0487E over the emitted bytes gives every 39-bit
virtual address exactly what the last region covering it says, and a fault if none does; and a section with a page
for the first level and one for each sub-table the regions span is always large enough. It rests on three layers:
splitting keeps the meaning of every page, writing a descriptor redirects exactly its own pages, and the walk over
the image computes the meaning of the arrays. An entry object lives in one array slot for good, so the slot is its identity; the list of
items holds slots, and an entry that is listed twice is one object, as in the source. Line 310 of the source has a
whitespace slip; it is read as the first statement of the `1G` branch. Regions need not be aligned: the same holds with
each region replaced by what the stepping makes of it (`MmuRegions.Stepped`), which moves both starts down to a
granule and keeps the number of granules. For an aligned region that is the region itself; when it maps all of an
unaligned one, nothing else, and as the region says is stated below. The shipped `mmu.json` gives inclusive ends, which mean the same as exclusive ones; its 4K region for
EL3 lies beyond the level-3 array.

**Tick broadcast** (`test_list_head/test_list_head.c`; module `TickBroadcast`). A state machine with one step per
shared access: any number of readers, one timer handler, any interleaving.

**Bulk gadget request pools** (`test_gadget/scale_usb.c`; modules `ScaleRequests`, `ScalePackets`, `ScaleModel`,
`ScaleRuns`, `ScaleUsb`). Reads, writes, completions and soft resets. Wherever a call drops the device lock, a
schedule given to the call says which completions and resets happen there, so a contract covers all interleavings.
`ScaleModel` says what each operation makes of the device as a value, and what that keeps, for any behaviour of the
world that leaves a caller's own request alone; `ScaleRuns` has the theorems about every run of operations;
`ScaleUsb` is the device, whose methods are proved to do what the model does. The lists of the two directions are
sequences in two records; the histories of what completed, what was delivered and what was queued are part of
the records. Assumed: completions are atomic with respect to the
lock (`rx_complete` does not take it), and `usb_ep_disable` gives back every submitted request through its
completion routine, which makes the loop at lines 1259-1264 dead. The comment at lines 880-882 says the opposite
of the code about when an empty packet is sent; the code is followed.

**Composite gadget** (`test_gadget/composite.c`, `test_gadget/config.c`; modules `UsbDescriptors`, `Composite`,
`CompositeLookup`). Registration and selection of configurations, endpoint bitmaps and dispatch, counts and lookup
by index, and descriptor assembly. What each operation makes of the device is a function on values, the theorems are
about every run of operations, and the device's methods are proved to perform exactly the run. Callbacks are given
by their results. A function belongs to one configuration
and is known by its position there. `MAX_CONFIG_INTERFACES` is 16; the header that defines it is not part of this
model.

**String descriptors** (`test_gadget/usbstring.c`; module `UsbString`), **C2 port** (`test_c2port/core.c`; modules
`C2Frames`, `C2Device`, `C2Port`) and **SPI-to-APB writes** (`test_spi/spi2apb.c`; module `SpiApb`). The last two
are proved against explicit devices whose delays, errors and answers are arbitrary. Bit masks and shifts are
written as division and remainder, and a bitwise or of fields that do not overlap as a sum; where that they do not
overlap is itself the point, `Bits.Or` is a bitwise or.

## Properties that turned out false, and when they hold

- "Item p of the list has `rel_addr` 8p" fails once a split region is coarsened and split again
  (`MmuPut.NaiveLost`). A split keeps it exactly if the entry has a table already or none of the children was ever
  listed (`MmuPut.NaiveSplit2Iff`, `MmuPut.NaiveSplit3Iff`); writing a leaf neither makes nor breaks it
  (`MmuPut.NaivePuts`).
- "Every address a region covers is mapped, as the region says" fails for unaligned regions
  (`MmuRegions.EndLeftOut`). All of a region is mapped exactly if offset in the granule plus size is at most the
  granules stepped through (`MmuRegions.NoneLeftOutIff`), nothing else is exactly if virtual start and size are whole
  granules (`MmuRegions.NoneBesidesIff`), and it is mapped as it says exactly if, besides the former, both starts
  have the same offset (`MmuRegions.MappedAsSaidIff`).
- "A reader takes each count at most once" fails when an increment falls between a read's flag test and its load
  (`TickBroadcast.CountTakenTwice`), and when a file is opened between an increment and its marking
  (`TickBroadcast.OpenedTooEarly`). A reader comes to be sent for a count it has exactly by a load with its flag up
  again or owed, or by such an open (`TickBroadcast.StaleIff`, for runs `TickBroadcast.EverStaleIff`); some schedule
  then makes it take the count again, and none does otherwise (`TickBroadcast.TakesAgainIff`); a run without such a
  clash has strictly rising counts (`TickBroadcast.NoClashNoRepeat`).
- "A write goes out as one transfer" holds for a buffer exactly if it fits one request or the packet size divides
  512 (`ScalePackets.OneTransferIff`).
- "A flash read returns the bytes at its offset", whatever the flash holds, is true exactly if the block ends within
  the first 64K, since two address bytes wrap (`C2Port.ReadReach`); at 64K it returns the byte at address 0
  (`C2Port.ReadWraps`). The same condition decides whether a write lands in place (`C2Port.WriteReach`). What was
  written is read back in any case (`C2Port.StoredReads`).

## Model

| member | source | states |
|---|---|---|
| `MmuTool.GenElxBin` | test_mmu/mmu_tools.py:342-362 | For every list of aligned map lines the walk over the emitted image sends each 39-bit virtual address where the last line that covers it says, in address and in the fields of its memory attributes, and faults elsewhere; in general the same with the stepped regions; the attribute-error exit is never taken; the image is no larger than a page for the first level and one for each sub-table the lines span, and a section of that size always yields it |
| `MmuTool.LinesDecide` | test_mmu/mmu_tools.py:345-357 | Of the lines that cover an address the last decides, by its own physical and virtual begin and its kind of memory |
| `MmuTool.LineIsRegion` | test_mmu/mmu_tools.py:47-62 | A line reaches the tables with its own bounds and with the memory type, shareability, access and security its kind and level call for |
| `Bits.LittleEndian` | test_mmu/mmu_tools.py:194-205 | A word is stored with its lowest byte first |
| `MmuTool.MmuTables.constructor` | test_mmu/mmu_tools.py:94-110 | The new object is the empty table set, and satisfies the state invariant |
| `MmuTool.MmuTables.ReallocL2` | test_mmu/mmu_tools.py:222-243 | The loop has the effect of splitting the level-1 entry as a whole: children inherit the block or fault, the list grows by exactly the children, the parent points at them |
| `MmuTool.MmuTables.ReallocL3` | test_mmu/mmu_tools.py:244-265 | The same for a level-2 entry |
| `MmuTool.MmuTables.ReallocTb` | test_mmu/mmu_tools.py:266-284 | No translation changes, the invariant is kept, every table the range needs is in place, and no more tables are listed than the range spans |
| `MmuTool.MmuTables.PutGranule` | test_mmu/mmu_tools.py:309-332 | Exactly the entry of the granule that holds the address is rewritten |
| `MmuTool.MmuTables.MmuMap` | test_mmu/mmu_tools.py:293-332 | The region's pages get its addresses and attributes, every other page keeps its translation, the invariant is kept |
| `MmuTool.MmuTables.Write2Bin` | test_mmu/mmu_tools.py:184-221 | One little-endian word per item; no error exit in any state that satisfies the invariant; success exactly when the image fits the section |
| `MmuTool.EmittedImplements` | test_mmu/mmu_tools.py:184-211 | An image of tables that mean the region list is walked as the last covering stepped region says |
| `MmuTool.PutOverlays` | test_mmu/mmu_tools.py:304-332 | One turn of the mapping loop lays one more granule on top, keeps the rest, and leaves the remaining granules live |
| `MmuTool.AllocatedMore2` | test_mmu/mmu_tools.py:278-280 | One turn of the allocation loop for 2M keeps meaning and invariant and extends the range that has tables |
| `MmuTool.AllocatedMore3` | test_mmu/mmu_tools.py:281-284 | The same for 4K, where a level-1 split must not undo level-2 tables made before |
| `MmuTool.MmuTables.MapAll` | test_mmu/mmu_tools.py:345-357 | After all regions the tables mean their overlay, in order, and list at most the tables the regions span |
| `MmuTool.CountMore3` | test_mmu/mmu_tools.py:281-284 | One turn of the 4K allocation loop lists at most one level-3 table, and a level-2 table only for a 1G range not met before |
| `MmuTool.CountEnds` | test_mmu/mmu_tools.py:266-284 | The loop stops without listing a table beyond the end of the range |
| `MmuSplit.StartOk` | test_mmu/mmu_tools.py:102-110 | The start state satisfies the invariant and maps nothing |
| `MmuSplit.Split2Preserves` | test_mmu/mmu_tools.py:222-243 | Splitting a level-1 entry changes the translation and attributes of no page, whether it was a fault, a block, a live table or a block over stale sub-tables |
| `MmuSplit.Split2Keeps` | test_mmu/mmu_tools.py:222-243 | Every live pointer still names 4096-aligned, 512 consecutive items that are its children; `rel_addr` stays 8 times the list length |
| `MmuSplit.Split3Preserves` | test_mmu/mmu_tools.py:244-265 | Splitting a level-2 entry changes the translation of no page |
| `MmuSplit.Split3Keeps` | test_mmu/mmu_tools.py:244-265 | The invariant survives a level-2 split, and level 1 is untouched |
| `MmuSplit.ItemsGrow` | test_mmu/mmu_tools.py:234-238 | An entry's own address is that of its last listing, also after it is listed again |
| `MmuPut.Put1Keeps` | test_mmu/mmu_tools.py:309-316 | A 1G block over live or stale sub-tables keeps the invariant |
| `MmuPut.Put2Redirects` | test_mmu/mmu_tools.py:317-324 | A 2M block under a live table redirects its 512 pages and no other |
| `MmuPut.Put3Keeps` | test_mmu/mmu_tools.py:325-332 | A page entry keeps the invariant |
| `MmuPut.NaiveIff` | test_mmu/mmu_tools.py:234-238 | Positions and own addresses agree for all items exactly when no entry is listed twice |
| `MmuPut.NaiveSplit2Iff` | test_mmu/mmu_tools.py:222-243 | A level-1 split keeps the naive layout exactly if the entry has a table or none of its children was ever listed |
| `MmuPut.NaiveSplit3Iff` | test_mmu/mmu_tools.py:244-265 | The same for a level-2 split |
| `MmuPut.NaivePuts` | test_mmu/mmu_tools.py:309-332 | Writing a block or page neither makes nor breaks the naive layout |
| `MmuPut.NaiveLost` | test_mmu/mmu_tools.py:225-242 | Split, coarsen, split again: the naive layout is lost, the invariant is not |
| `MmuWalk.PackFields` | test_mmu/mmu_tools.py:190-207 | Address, type and attribute bits never overlap, and each is recovered from the word |
| `MmuWalk.ItemWord` | test_mmu/mmu_tools.py:190-211 | Every item has a word below 2^64, so neither the error exit nor a packing error is possible |
| `MmuWalk.LeafDecodes` | test_mmu/mmu_tools.py:193-207 | A leaf descriptor decodes to the output address and attributes that went into it |
| `MmuWalk.LoadChild` | test_mmu/mmu_tools.py:234-242 | Reading slot i of a live table in the image yields the word of its i-th child |
| `MmuWalk.WalkCorrect` | test_mmu/mmu_tools.py:184-211 | The architectural walk over the bytes equals the meaning of the entry arrays, for every address |
| `MmuRegions.PageMeaningIsLastWins` | test_mmu/mmu_tools.py:345-357 | Overlaying regions granule by granule in order equals "the last stepped region that covers the address" |
| `MmuRegions.AlignedIsExact` | test_mmu/mmu_tools.py:299-332 | For a region with bounds on its granularity the stepping maps exactly the region |
| `MmuRegions.NoneLeftOutIff` | test_mmu/mmu_tools.py:299-332 | All addresses of a region are mapped exactly if its offset in the granule plus its size is at most the granules stepped through |
| `MmuRegions.NoneBesidesIff` | test_mmu/mmu_tools.py:299-332 | No other address is mapped exactly if virtual start and size are whole granules |
| `MmuRegions.MappedAsSaidIff` | test_mmu/mmu_tools.py:299-332 | Every address goes where the region says exactly if none is left out and both starts have the same offset in their granules |
| `MmuRegions.EndLeftOut` | test_mmu/mmu_tools.py:299-332 | An unaligned region with a covered address that faults |
| `MmuRegions.InclusiveEnd` | test_mmu/mmu.json:7-8 | An end given inclusively means the same region |
| `MmuRegions.ShippedPagesDoNotFit` | test_mmu/mmu.json:8 | Every level-3 index that the shipped 4K region needs lies past the end of the array |
| `MmuRegions.AttrBitsOk` | test_mmu/mmu_tools.py:47-62 | Every attribute word stays in bits [11:2] and has exactly its fields: memory type 0, 4 or 2, shareability, access, access and not-global flags, non-secure exactly for EL1 |
| `TickBroadcast.RunKeeps` | test_list_head/test_list_head.c:79-307 | Every step of every actor keeps the protocol invariant, so every run does |
| `TickBroadcast.NoTickMissed` | test_list_head/test_list_head.c:105-128 | In every run, a reader between reads whose flag is down while the handler is idle has the current count |
| `TickBroadcast.NoLostWakeup` | test_list_head/test_list_head.c:105-121 | In every run, a sleeper with its flag up is queued and the wake-up is still to come |
| `TickBroadcast.HandlerTouchesOpenOnly` | test_list_head/test_list_head.c:287-297 | The handler never reaches an entry that was released |
| `TickBroadcast.TakesNeverGoBack` | test_list_head/test_list_head.c:122-128 | In every run the counts a reader takes never go back, not even across close and open, and are the words it reads as long as the 64-bit counter has not wrapped |
| `TickBroadcast.FinishWakes` | test_list_head/test_list_head.c:286-304 | The handler terminates, flags everyone it owes, and leaves no flagged reader asleep |
| `TickBroadcast.FinishIsRun` | test_list_head/test_list_head.c:281-307 | Finishing is a run of that many handler steps |
| `TickBroadcast.OneTick` | test_list_head/test_list_head.c:281-304 | A whole run of the handler counts one tick, flags every open reader and leaves none asleep |
| `TickBroadcast.ExitIff` | test_list_head/test_list_head.c:105-128 | A reader gets to the exit of a read by loading the count, or by finding its flag down while non-blocking or with a signal pending, and in no other way |
| `TickBroadcast.ReadsAccount` | test_list_head/test_list_head.c:105-145 | In every run, reads that return are as many as counts taken and reads given up |
| `TickBroadcast.BlockingReadsTake` | test_list_head/test_list_head.c:105-145 | In every run, a reader that blocks and has no signal takes one count for each read that returns |
| `TickBroadcast.ReadSleeps` | test_list_head/test_list_head.c:105-121 | A blocking read that finds its flag down goes to sleep on the queue |
| `TickBroadcast.SleepsOn` | test_list_head/test_list_head.c:105-121 | It stays asleep, with no count, until the handler or a signal wakes it |
| `TickBroadcast.SomeoneSleeps` | test_list_head/test_list_head.c:105-121 | A run that reaches a sleeper |
| `TickBroadcast.SignalEnds` | test_list_head/test_list_head.c:114-117 | A signal gets a sleeper out of the read without a count |
| `TickBroadcast.ReadGivesUp` | test_list_head/test_list_head.c:111-117 | A read that may not wait and finds its flag down returns with no count and nothing changed |
| `TickBroadcast.ReadTakes` | test_list_head/test_list_head.c:122-128 | An undisturbed read of a flagged reader takes the current count and puts its flag down |
| `TickBroadcast.CountTakenTwice` | test_list_head/test_list_head.c:105-128 | A run in which one reader takes count 2 twice |
| `TickBroadcast.OpenedTooEarly` | test_list_head/test_list_head.c:166-168 | A file opened between an increment and its marking can be sent for its opening count |
| `TickBroadcast.StaleIff` | test_list_head/test_list_head.c:105-128 | A step makes a reader be sent for a count it has exactly if it is a load with the flag up or owed, or an open between increment and marking |
| `TickBroadcast.EverStaleIff` | test_list_head/test_list_head.c:105-128 | The same for whole runs |
| `TickBroadcast.NoClashNoRepeat` | test_list_head/test_list_head.c:105-128 | In a run without such a clash the counts a reader takes rise strictly |
| `TickBroadcast.TakesAgainIff` | test_list_head/test_list_head.c:105-128 | Some schedule makes a reader take again the count it has, exactly if it is in that state |
| `ScaleRuns.Conservation` | test_gadget/scale_usb.c:511-920 | After any run of reads, writes, polls, completions and resets every request of both pools is in exactly one place, and a partly read request exists exactly when bytes are left |
| `ScaleRuns.StreamFidelity` | test_gadget/scale_usb.c:511-810 | In any run, bytes returned by successful reads, then unread, are a subsequence of what completed, which is exactly the payloads of the run's completions that found their request submitted and reported success; without a reset they are all that completed, in completion order |
| `ScaleRuns.PerformedKeeps` | test_gadget/scale_usb.c:511-920 | Every operation keeps both pools and adds to what was delivered exactly what a successful read returns |
| `ScaleRuns.RunFed` | test_gadget/scale_usb.c:520-531 | Nothing completes that no event of the run delivers, and nothing out of order |
| `ScaleRuns.RunLands` | test_gadget/scale_usb.c:520-531 | Over every run, what completes is exactly the payloads of the events that find their receive request submitted and report success, in the order they strike |
| `ScaleRuns.InterferedLands` | test_gadget/scale_usb.c:520-531 | The same for any sequence of events |
| `ScaleRuns.ReadInRun` | test_gadget/scale_usb.c:694-810 | Without a reset, what a read returns, then what is unread, is what was unread, then what lands while it waits and copies; it returns all bytes wanted or leaves none |
| `ScaleRuns.WriteInRun` | test_gadget/scale_usb.c:860-929 | Without reset, fault or refusal a write adds its pieces to what is queued, in order, all of them or until no request is free |
| `ScaleUsb.Run` | test_gadget/scale_usb.c:511-920 | The driver ends in exactly the device, and returns exactly the bytes, that the run of operations leads to |
| `ScaleUsb.ScaleDev.constructor` | test_gadget/scale_usb.c:2008-2034 | Every request of both pools is on its free list, once; nothing is submitted, completed or in hand |
| `ScaleUsb.ScaleDev.RxComplete` | test_gadget/scale_usb.c:511-560 | A completion moves exactly that request, to the tail of the completed list only if it carries data |
| `ScaleUsb.ScaleDev.TxComplete` | test_gadget/scale_usb.c:562-591 | A completed transmit request is free again |
| `ScaleUsb.ScaleDev.SetupRxReqs` | test_gadget/scale_usb.c:641-671 | Requests are submitted as the model says, one after the other |
| `ScaleModel.Submitted` | test_gadget/scale_usb.c:641-671 | Submission stops only when no free request is left or the controller refuses; nothing else changes |
| `ScaleUsb.ScaleDev.SoftReset` | test_gadget/scale_usb.c:1232-1271 | A reset has the effect of giving back all that is submitted and dropping the partly read request |
| `ScaleModel.ResetAll` | test_gadget/scale_usb.c:1232-1271 | After a reset nothing is submitted and no request is partly read |
| `ScaleModel.HappenedKeeps` | test_gadget/scale_usb.c:511-591 | A completion or reset keeps both invariants and the bytes a reader has in hand |
| `ScaleModel.RxFinishedMeans` | test_gadget/scale_usb.c:520-555 | A successful completion of a submitted request with data appends exactly that data to what is unread; any other puts the request on the free list; nothing else moves |
| `ScaleModel.TxFinishedMeans` | test_gadget/scale_usb.c:562-591 | A finished transmit request that was submitted is on the free list and off the controller |
| `ScaleModel.ResetMeans` | test_gadget/scale_usb.c:1232-1271 | A reset puts everything submitted and the partly read request on the free lists; completed requests stay |
| `ScaleModel.InOrder` | test_gadget/scale_usb.c:511-591 | Events take effect one after the other |
| `ScaleModel.ScheduledSane` | test_gadget/scale_usb.c:511-591 | Whatever a schedule lets happen keeps the invariants and the caller's request, and without a reset loses no byte |
| `ScaleUsb.ScaleDev.DoRead` | test_gadget/scale_usb.c:673-810 | The read does to the device, and returns, what the model says |
| `ScaleUsb.ScaleDev.CopyLoop` | test_gadget/scale_usb.c:740-798 | The copy loop has the outcome of the model's |
| `ScaleModel.ReadMeans` | test_gadget/scale_usb.c:673-810 | Whatever happens while the lock is dropped, both pools are conserved; a positive result counts the bytes delivered, -EINVAL and -EAGAIN come for the reasons they should |
| `ScaleModel.ReadProgress` | test_gadget/scale_usb.c:694-810 | Without a reset, bytes returned, then unread, are the bytes unread before, then those that arrived; the read returns all bytes wanted or leaves none unread |
| `ScaleModel.ReadLoopFills` | test_gadget/scale_usb.c:740-798 | A copy loop that no reset cuts short has all the bytes wanted, or has left none |
| `ScaleUsb.ScaleDev.DoWrite` | test_gadget/scale_usb.c:813-931 | The write does to the device, and returns, what the model says |
| `ScaleUsb.ScaleDev.FillLoop` | test_gadget/scale_usb.c:860-929 | The transmit loop has the outcome of the model's |
| `ScaleModel.WriteMeans` | test_gadget/scale_usb.c:813-931 | Both pools are conserved; a positive result n means exactly the first n bytes were queued, in order; if n is everything, the requests are the full cut of the buffer; -EINVAL comes exactly without interface or data, any other negative result is -EAGAIN |
| `ScaleModel.WriteProgress` | test_gadget/scale_usb.c:860-929 | Without reset, fault or refusal a write queues everything or leaves no request free, at least as many pieces as requests were free, and is positive exactly if it queued some |
| `ScaleRequests.RxDoneKeeps` | test_gadget/scale_usb.c:520-555 | A completion keeps conservation, bookkeeping and the stream |
| `ScaleRequests.CopyKeeps` | test_gadget/scale_usb.c:760-793 | Copying part or all of a request to the caller keeps conservation and the stream |
| `ScaleRequests.TakeBufferKeeps` | test_gadget/scale_usb.c:742-755 | Taking the oldest completed request keeps the stream, and it is never empty |
| `ScaleRequests.TakeCurrentKeeps` | test_gadget/scale_usb.c:704-710 | Taking over the partly read request loses nothing |
| `ScaleRequests.DropCurrentKeeps` | test_gadget/scale_usb.c:1244-1250 | Dropping the partly read request keeps conservation, and what remains is still a subsequence of what completed |
| `ScaleRequests.GiveUpKeeps` | test_gadget/scale_usb.c:772-777 | A reader that finds a reset struck returns its request without breaking conservation or reordering the stream |
| `ScaleRequests.DropRest` | test_gadget/scale_usb.c:1244-1250 | Dropping the bytes kept back reorders, repeats and invents nothing |
| `ScaleRuns.ReturnedIsCompleted` | test_gadget/scale_usb.c:694-810 | What successful reads returned, then what is unread, is a subsequence of what completed, and all of it if no reset struck |
| `ScaleRequests.TxLeaveKeeps` | test_gadget/scale_usb.c:888-915 | A writer's request goes to exactly one list on every exit |
| `ScalePackets.PiecesData` | test_gadget/scale_usb.c:860-883 | The pieces carry the buffer exactly, none empty, none above 512 bytes |
| `ScalePackets.WireEndsOnce` | test_gadget/scale_usb.c:862-883 | If a buffer fits one request or the packet size divides 512, it is cut into packets of which exactly the last is short or empty |
| `ScalePackets.WireBreaks` | test_gadget/scale_usb.c:862-883 | Otherwise a short packet comes before the last, for every longer buffer |
| `ScalePackets.OneTransferIff` | test_gadget/scale_usb.c:862-883 | A buffer goes out as one transfer exactly if it fits one request or the packet size divides 512 |
| `UsbDescriptors.ParseFlat` | test_gadget/config.c:53-63 | Splitting marshalled descriptors by bLength gives them back, in order |
| `UsbDescriptors.FillBuf` | test_gadget/config.c:44-64 | Succeeds exactly when everything fits, with the descriptors in place and earlier bytes untouched |
| `Composite.Run` | test_gadget/composite.c:371-605 | The driver ends in exactly the device the run of operations leads to, and the number read back names exactly the active configuration |
| `Composite.RunSafe` | test_gadget/composite.c:371-605 | After any run configuration values are unique, nonzero bytes and only functions of the active configuration have endpoint bits; after a run that ends with SET_CONFIGURATION n the active configuration is the unique one numbered n if it accepts, and none otherwise |
| `Composite.RegisteredIsSelectable` | test_gadget/composite.c:386-532 | After any run, a configuration whose value is free and whose bind succeeds is at the end of the list as described, and selecting its number activates it if every set_alt accepts |
| `Composite.RemovalsInRun` | test_gadget/composite.c:590-605 | In any run, removing takes exactly that configuration off the list, and a disconnect deselects |
| `Composite.EffectKeeps` | test_gadget/composite.c:371-605 | Every operation keeps values, dense interfaces and bitmaps sound |
| `Composite.ConfiguredActive` | test_gadget/composite.c:386-473 | SET_CONFIGURATION activates configuration i exactly if it has that nonzero number and all its interfaces come up |
| `Composite.InterfaceId` | test_gadget/composite.c:222-233 | The next number goes to the function and was free before; none beyond the limit |
| `Composite.AddFunction` | test_gadget/composite.c:92-132 | The function gets exactly the next interface numbers it asks for, as far as they last; one whose bind fails leaves functions and interfaces as they were |
| `Composite.RecordEndpoints` | test_gadget/composite.c:443-454 | Bits are set exactly for the endpoints the descriptors name |
| `Composite.ArmOne` | test_gadget/composite.c:425-454 | Bringing up interface n records its function's endpoints and no other's |
| `Composite.RaiseAll` | test_gadget/composite.c:424-473 | All interfaces come up and every bitmap is that of the endpoints named, or every bitmap is clear; the former exactly when no set_alt refuses |
| `Composite.ArmedAll` | test_gadget/composite.c:425-430 | Stopping at the first free interface number misses no interface |
| `Composite.ArmUnique` | test_gadget/composite.c:425-454 | The bitmaps of a configuration that is up are those its descriptors name, whatever happened before |
| `Composite.CompositeDev.ResetConfig` | test_gadget/composite.c:371-384 | No configuration is active and all bitmaps are clear; nothing else changed |
| `Composite.CompositeDev.SetConfig` | test_gadget/composite.c:386-483 | On success with n nonzero the unique configuration numbered n is active and its functions' endpoint bits are those of their high-speed lists at high speed, of their full-speed lists otherwise; on failure or n = 0 none is active; success exactly when n is 0 or such a configuration exists and accepts |
| `Composite.CompositeDev.BringUp` | test_gadget/composite.c:422-473 | The configuration is active exactly when all its interfaces came up |
| `Composite.ArmedBits` | test_gadget/composite.c:432-454 | Endpoint bits go by the list of the speed in use, by endpoint descriptors only, direction times 16 plus number |
| `Composite.DelaysCount` | test_gadget/composite.c:466-473 | The delayed-status count is the number of interfaces, before the first refusal, that ask for it |
| `Composite.CompositeDev.AddConfig` | test_gadget/composite.c:500-565 | Zero, missing bind and duplicate values are refused with their error codes and change nothing, as does a failed bind; otherwise a configuration is added at the end with the draft's header, exactly the functions whose callbacks are there and whose bind succeeds, in order and each with its own lists, the interfaces each took, and the speeds that the draft or some function supports |
| `Composite.RegisteredMeans` | test_gadget/composite.c:500-532 | The same on values |
| `Composite.BuiltMeans` | test_gadget/composite.c:92-132 | What a bind builds, in terms of its additions alone |
| `Composite.BuiltKeeps` | test_gadget/composite.c:511-532 | A configuration built by any additions has dense interfaces and no endpoint bits |
| `Composite.CompositeDev.RemoveConfig` | test_gadget/composite.c:590-605 | Exactly that configuration is gone, deactivated if it was active; another active one stays active |
| `Composite.CompositeDev.Disconnect` | test_gadget/composite.c:1042-1056 | No configuration is active afterwards |
| `Composite.CompositeDev.GetConfiguration` | test_gadget/composite.c:927-935 | The number read back is that of the active configuration and of no other, 0 if none |
| `Composite.CompositeDev.Dispatch` | test_gadget/composite.c:997-1005 | The first function with the bit, none if no function has it |
| `Composite.PackEpInjective` | test_gadget/composite.c:451-453 | Two proper endpoint addresses never share a bit |
| `CompositeLookup.DispatchExact` | test_gadget/composite.c:997-1006 | With disjoint endpoint sets a request reaches exactly the function whose high-speed list at high speed, else whose full-speed list, holds the endpoint |
| `CompositeLookup.BitMeansNamed` | test_gadget/composite.c:432-454 | In an active configuration a bit is up exactly for the endpoints named |
| `CompositeLookup.CountConfigs` | test_gadget/composite.c:325-350 | The count is the number of configurations usable at the speed asked about |
| `CompositeLookup.ConfigIndex` | test_gadget/composite.c:288-323 | Index i selects the i-th configuration usable at that speed, or none |
| `CompositeLookup.AdvertisedIsServed` | test_gadget/composite.c:288-366 | An index is served exactly when it is below the advertised count, for the speed in use and the other one |
| `CompositeLookup.UsablesExact` | test_gadget/composite.c:309-321 | The reference list holds exactly the configurations with the flag of the speed, ascending |
| `CompositeLookup.CountFitsByte` | test_gadget/composite.c:365-365 | Unique nonzero byte values keep the count within its byte |
| `CompositeLookup.ConfigBuf` | test_gadget/composite.c:235-286 | Succeeds exactly when all fits in 1024 bytes; the nine header bytes are those of section 9.6.3 of USB 2.0 with the right total; splitting by bLength yields the header, the extra descriptors, then each function's high-speed list at high speed, else its full-speed list, in order |
| `CompositeLookup.FillFunctions` | test_gadget/composite.c:265-281 | The lists of all functions for the speed, in list order, or a refusal if they do not fit |
| `UsbString.RoundTrip` | test_gadget/usbstring.c:33-81 | Decoding the UTF-8 of nonzero, non-surrogate code points returns the first max of them |
| `UsbString.DecodeExact` | test_gadget/usbstring.c:33-83 | What is accepted, and as what: exactly runs of well-formed sequences, not necessarily shortest, up to the limit or the end |
| `UsbString.NextUnit` | test_gadget/usbstring.c:33-76 | One unit is read exactly as specified, never past the terminator |
| `UsbString.Utf8ToUtf16Le` | test_gadget/usbstring.c:23-84 | The buffer holds the decoded units, each with its low byte first, or -1 for a malformed string |
| `UsbString.GetString` | test_gadget/usbstring.c:104-135 | The descriptor of the first string with that id, low bytes first; its length is even and at most 254; the language for id 0; a stall for unknown ids and malformed text |
| `UsbString.LookupFirst` | test_gadget/usbstring.c:118-120 | Of several entries with the id the first counts |
| `UsbString.EncodeSamples` | test_gadget/usbstring.c:33-76 | The encoding at the ends of its ranges |
| `UsbString.TextSurvives` | test_gadget/usbstring.c:126-134 | Encodable text comes back as its first 126 code units |
| `C2Frames.DecodeBack` | test_c2port/core.c:102-258 | Reading a trace of frames recovers exactly the accesses and bytes, whatever the waits |
| `C2Frames.FrameBack` | test_c2port/core.c:102-258 | One frame is recognised whatever follows it |
| `C2Frames.BitsRoundTrip` | test_c2port/core.c:117-123 | Shifting a byte out least significant bit first loses nothing |
| `C2Frames.BitsLowFirst` | test_c2port/core.c:117-123 | Bit i of a byte is the i-th on the wire |
| `C2Device.FieldReceived` | test_c2port/core.c:183-189 | Eight driven bits give the device the byte they spell |
| `C2Port.Perform` | test_c2port/core.c:80-258 | For every sequence of primitives against any device, the wire decodes to exactly the accesses and bytes if all succeed; the bus is at rest in any case |
| `C2Port.Port.StrobeCk` | test_c2port/core.c:80-96 | One strobe is one rising edge with the line as it stands |
| `C2Port.Port.DataGet` | test_c2port/core.c:152-153 | Sampling happens only with the line released |
| `C2Port.Port.WriteAr` | test_c2port/core.c:102-128 | The frame on the wire, the device's register, and the bus at rest |
| `C2Port.Port.ReadAr` | test_c2port/core.c:130-160 | The byte is the device's status |
| `C2Port.Port.WriteDr` | test_c2port/core.c:162-208 | Succeeds exactly when the device is ready within 20 strobes; the bus is at rest also on a timeout |
| `C2Port.Port.ReadDr` | test_c2port/core.c:210-258 | The same for reads, with the device's byte |
| `C2Port.Port.RecvByte` | test_c2port/core.c:244-252 | Shifting in rebuilds the byte the device shifts out |
| `C2Port.Port.PollInBusy` | test_c2port/core.c:260-279 | Succeeds exactly if the device is busy for fewer than 20 polls; the device's job is left alone |
| `C2Port.Port.PollOutReady` | test_c2port/core.c:281-301 | Succeeds exactly if an output byte is waiting and ready within 10000 polls |
| `C2Port.Port.ReadFlash` | test_c2port/core.c:630-718 | A non-negative result is at most 128, the count and what is left of the flash, and no fewer, 0 at or past the end; the buffer then holds what the wrapped address reaches, which within 64K is the flash from the offset on; against a willing device the result is non-negative, against one that stays busy or never has its byte ready it is -EIO, and one that refuses commands makes it negative |
| `C2Port.Port.Feed` | test_c2port/core.c:650-658 | A command byte reaches the device, and the step fails exactly if the device is then busy for 20 polls or more |
| `C2Port.Port.WriteFlash` | test_c2port/core.c:741-833 | A non-negative result n means exactly the first n bytes were stored, as many as can be, within 64K in place with nothing else changed; against a willing device the result is non-negative, against a stuck or refusing one it is negative as for reads |
| `C2Port.WriteThenRead` | test_c2port/core.c:630-833 | A write followed by a read of the same range returns what was written, also where addresses wrap |
| `C2Port.StoredExact` | test_c2port/core.c:783-796 | A block that ends within 64K lands where it belongs and nothing else changes |
| `C2Port.ReadReach` | test_c2port/core.c:674-684 | A block read gives the bytes at its offset, whatever the flash holds, exactly if the block ends within 64K |
| `C2Port.ReadWraps` | test_c2port/core.c:674-684 | At offset 64K a read gives the byte at address 0 |
| `C2Port.WriteReach` | test_c2port/core.c:783-796 | A block write lands in place, whatever is stored where, exactly if the block ends within 64K |
| `C2Port.StoredReads` | test_c2port/core.c:783-796 | A stored block is read back from where it was stored, wrapped or not |
| `SpiApb.Bridge.SafeWriteChunk` | test_spi/spi2apb.c:319-339 | The result is that of the schedule of answers; on 0 the chunk is stored; nothing outside the chunk changes |
| `SpiApb.Bridge.SafeWrite` | test_spi/spi2apb.c:352-369 | At most four attempts per chunk; on 0 the range equals the data and nothing else changed; otherwise every chunk before the failing one is in place and nothing beyond it was touched |
| `SpiApb.Bridge.OperationQuery` | test_spi/spi2apb.c:230-249 | 0 exactly if the device identified itself in its answer to the last write, and then a zero code exactly if that write stored its data |
| `SpiApb.OutcomeZero` | test_spi/spi2apb.c:325-338 | A chunk succeeds exactly when an attempt within the limit is answered "done" after retryable errors only |
| `SpiApb.OutcomeExact` | test_spi/spi2apb.c:325-338 | Every attempt but the last is answered with a retryable error; the last is not, or is the fourth; the result is its code, or -1 without identification |
| `SpiApb.TransferUsed` | test_spi/spi2apb.c:325-367 | At most four attempts per chunk, for every length and schedule |
| `SpiApb.TransferDone` | test_spi/spi2apb.c:356-368 | What completed is whole chunks, all of them exactly on success |

## Left out

- MmuTool.GenElxBin: a region outside the arrays raises an IndexError in the source; here fitting is a precondition (`Fits`), as is that output addresses stay within 48 bits and that the table section does.
- MmuTool.MmuTables.Write2Bin: file output and the section lookup in the ELF file; base and section size are inputs.
- `dump_tables`, JSON loading and comment stripping in `mmu_tools.py`: I/O and side tooling.
- TickBroadcast.NoTickMissed: number formatting, the copy to the caller, scheduler priority and the sysfs timer controls; removing the waiter and resetting its task state are one step.
- ScaleUsb.ScaleDev.DoWrite: the non-blocking branch, where line 850 locks a mutex it should unlock.
- ScaleUsb.ScaleDev.DoRead: runs in which a copy to the caller faults for ever; a schedule of faults is finite.
- Vendor requests, sysfs and character-device registration in `scale_usb.c`.
- Composite.AddFunction: a bind that fails after it took an interface ID, which would leave the interface with a removed function.
- Composite.CompositeDev.SetConfig: a function without descriptors for the current speed makes the source follow a null pointer; here it is a precondition.
- Composite.CompositeDev.Dispatch: endpoint requests without an active configuration, for which the source follows a null pointer.
- String ID allocators, language collection, `usb_copy_descriptors`, `usb_find_endpoint` and `usb_gadget_config_buf`: copies and scans that no other property here needs.
- C2Port.Port.WriteFlash: zero-length writes; erase and version commands; flash cells that can only be cleared.
- C2Port.Port.ReadFlash: a device that is not ready for a command byte within the wait limit, whose error the source ignores.
- Microsecond delays, interrupt masking and the device reset in `core.c`.
- SpiApb.Bridge.SafeWrite: wrap-around of the 32-bit address; `spi_sync` results, which the source ignores; bit reversal, reads and the interrupt request.
- The register headers and the char-device, tasklet, workqueue, netlink, tap, DRM, framebuffer and GPIO examples.
