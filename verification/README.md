# nvkvm transport: verified model

nvkvm lets a program inside a virtual machine use the host's NVIDIA driver. A guest kernel module
stands in for the driver, forwards every call to a per-process *isolate* on the host, and brings the
results back. This project models the guest side of that transport in Dafny, together with the
isolate's half of each protocol, and proves what the transport promises to the program above it: calls
reach the driver in order and at most once and are answered, memory means the same before and after it is
moved to the host, a forwarded control changes the caller's memory as a local one would, nothing is freed
while somebody still holds it, and processes share an isolate only if they share their memory.

`dafny verify dfyconfig.toml` checks the whole project.

## How the model is built

| file | what it models |
|---|---|
| `Bits.dfy`, `Bytes.dfy`, `Options.dfy` | masks and alignment; little-endian words and stores in byte strings; optional values |
| `Ring.dfy` | the single-producer, single-consumer byte ring, in place over an array |
| `RingFifo.dfy`, `RingRun.dfy` | what the bytes of a ring mean as a queue; every interleaving of the two sides |
| `Messages.dfy` | the request and reply records, and the wait for a reply |
| `FastPath.dfy` | requests, replies, fallbacks and lost isolates over two rings and the virtqueue |
| `Pump.dfy` | the pump thread, the wake-up and the isolate's loop on the request ring |
| `Migrate.dfy`, `MigrateMeaning.dfy` | moving a range of memory to the host chunk by chunk; what that means for its reader |
| `Inflight.dfy`, `TxnId.dfy` | requests in flight on the virtqueue; the transaction-id allocator |
| `Marshal.dfy` | controls whose parameters point at lists in the caller's memory |
| `Abi.dfy`, `Fields.dfy`, `InnerFields.dfy` | driver versions; parameter sizes; descriptors, pointers and process ids on their way out and back |
| `Lifetimes.dfy`, `Isolation.dfy` | open files, sessions, isolates and proxy buffers; which processes share an isolate |
| `Forwarding.dfy`, `BufferNames.dfy` | where buffer operations go; what the numbers they carry name on the host |
| `VCache.dfy`, `HashIndex.dfy`, `PageWalk.dfy` | the validation cache; the index of anonymous mappings; the page-table walk |

Code that works in place is a class or a method over an array whose postcondition equates the new state
with a function of the old one. Protocols with several parties are state machines: each load or store of
a shared word, each hand-over and each failure is a step, and a property "of every run" quantifies over
all finite sequences of steps from the initial state. The host, allocations and the isolate's driver are
arbitrary: they succeed, fail, or answer anything, except where a lemma says what is asked of them.

Integers are unbounded in Dafny, so the source's 32- and 64-bit wrap-around is written out wherever it
can happen: the ring counters, the record size, the rounding of a migration request, the window check,
the transaction counters and the version parser.

## What the code does that its comments do not say

The model follows the code. Each of these is stated exactly.

- The transaction-id allocator says that consecutive uses of a slot get distinct ids. They do exactly
  when the two seeds differ in their epoch; with one slot busy, two seeds in a row give the same id
  (`TxnId.SlotReuse`, `TxnId.SlotReuseExample`).
- The overflow test of range migration accepts some requests that do overflow: those that wrap round to
  their own first page. They take at most one page. The pages taken cover the request exactly when
  rounding up its end does not overflow (`Migrate.SpanCovers`, `Migrate.OverflowAccepted`,
  `Migrate.OverflowExample`).
- Migration says the caller never sees a hole. Every page that could be read still reads the same exactly
  when no remap failed during the call; a remap that fails after its zap leaves its chunk unmapped
  (`MigrateMeaning.NoPageIsLost`, `MigrateMeaning.FailureMovesPrefix`).
- Migration returns 0 also when it has nothing to do. A return of 0 means that every page of the request
  was moved exactly when the checks let the call work and the end of the request does not overflow
  (`MigrateMeaning.ZeroMeansMoved`).
- Cleaning up after a migration leaves the handles that cleaning up before it would have left, exactly
  when every moved chunk was recorded; a chunk for whose record there was no memory stays open
  (`MigrateMeaning.FreeUndoesMigrate`, `MigrateMeaning.FreeLeavesUntracked`).
- The ring's comments say that whatever values the shared counters hold, no access leaves the data region.
  A reservation stays inside exactly when the tail's offset leaves room for a header, and peek reads
  inside, whatever the bytes are, exactly when no available header straddles the end of the region.
  Counters that are multiples of eight always satisfy both; a tail or head of 60 in a ring of 64 bytes
  does not (`Ring.PlanInBounds`, `Ring.TailSafe`, `Ring.PeekReadsInside`, `Ring.UnalignedTailExample`,
  `Ring.UnalignedHeadExample`). A read outside is always answered by BAD (`Ring.OutsideIsBad`).
- The size table goes by the command's number under any type, the sanitizer only under the frontend's.
  Pointers are stripped from every buffer exactly when the word has the frontend's type; under another
  type the same command is sized and passed through (`Fields.StripsExactly`, `Fields.OtherTypeExample`).
- An allocation that describes the caller's own memory is sent with its address once migration returns 0.
  The described pages were all taken exactly when the checks of the migration let it work and their end
  does not overflow; a limit of 2^64 - 1 makes the length zero and takes none
  (`Fields.KeptAddressIsMigrated`, `Fields.WholeSpaceKept`).
- The isolate finds the lists of FIFO_GET_CHANNELLIST 24 bytes in, the guest puts them behind the
  parameters. The two agree when the parameters are 24 bytes long, and for no longer parameters
  (`Marshal.ChannelListMeaning`, `Marshal.ChannelListDiffers`).
- A list control that a signal interrupts, or that the transport gives up, copies its own staged buffer
  back: the caller's memory is as it was, although the driver may have run (`Marshal.Caller.ListControl`).
- A list control with no elements, or with no list, is sent without staging, and then its parameters come
  back with the pointer cleared; and where the elements asked for would fit behind the first sixteen bytes
  of the parameters, the isolate takes those for the list. It does what the driver in place would do
  exactly when neither happens (`Marshal.PlainMeaning`). With more than 65536 elements the driver is not
  shown the list at all (`Marshal.OverCap`).
- The guest tags every process id whose four bytes are in the query, the device resolves only entries that
  are there whole. For an entry cut short the driver is asked for the tag (`InnerFields.DriverIsAsked`).
- A proxy buffer's cached handle is looked up by isolate id. It is valid in the isolate it is forwarded to
  exactly unless the isolate it was imported into has been killed since, whose id another may have
  (`Forwarding.ResolveInEveryRun`, `Forwarding.ReusedIdExample`). It belongs to the file that imported it,
  and another file of the same isolate is served it as well (`Forwarding.ForwardedOnOwnContext`,
  `Forwarding.SecondFileExample`).
- The version table is meant to hold on to the last measured layout below an unpublished branch. In the
  gaps 521-524, 531-534 and 566-569 it goes to the next row instead (`Abi.NewerRowOnlyInGaps`).
- UVM_MAP_EXTERNAL_ALLOCATION swaps a descriptor at the profile's offset and restores four bytes at
  offset 16. The descriptor comes back exactly when it was none or is its own token
  (`Fields.ExternalMappingRoundTrip`).
- A call for a modeset file with 16 bytes of parameters or more has bytes 8 to 16 restored, whatever its
  command: a descriptor or pointer elsewhere is not put back, and the status behind an event's descriptor
  is the caller's (`Fields.DescriptorRoundTrip`, `Fields.PointersComeBack`).
- The validation cache remembers the range in the host's answer. A hit gives the last status for the key
  as long as no key is cached twice, which holds while the host leaves the range alone
  (`VCache.Cache.Validate`).
- The ring's header says the guest compares the loop's last position with what it published; the pump
  instead tests the ring again. That test is what `Pump` models.

## Model

| member | source | states |
|---|---|---|
| Ring.SizeTest | src/common/nvkvm_ring.h:90-93 | the mask test accepts exactly the powers of two from 64 on |
| Ring.Masked | src/common/nvkvm_ring.h:118-118 | masking a free-running counter is its remainder by the capacity |
| Ring.RoundUpMasked | src/common/nvkvm_ring.h:84-87 | the masked sum is the next multiple of eight, with 32-bit wrap-around |
| Ring.SizeOkMeaning | src/common/nvkvm_ring.h:89-93 | a capacity and its half are multiples of eight, and the capacity divides the counter range |
| Ring.PlanInBounds | src/common/nvkvm_ring.h:104-150 | whatever head and tail the shared words hold, a granted reservation keeps every header and the payload inside the data region exactly when the tail's offset leaves room for a header; a multiple of eight always does |
| Ring.TailSafe | src/common/nvkvm_ring.h:106-150 | a tail is served inside the region for every head and payload exactly when its offset leaves room for a header |
| Ring.UnalignedTailExample | src/common/nvkvm_ring.h:139-150 | a granted reservation whose skip header ends four bytes past the region |
| Ring.EmptyRingGrant | src/common/nvkvm_ring.h:123-140 | an empty ring grants a record at every aligned tail exactly when the rounded record is at most half the capacity |
| Ring.FastPathFits | src/common/nvkvm_ring_ioctl.h:31-46 | every request within the size caps fits an empty ring of 16 KiB or more, wherever its tail is |
| Ring.PeekSafe | src/common/nvkvm_ring.h:168-219 | on any bytes, any tail and any head: peek ends, moves the head only forward inside the available window, keeps its alignment, and returns only records inside both window and region |
| Ring.LookExact | src/common/nvkvm_ring.h:195-212 | the verdict on a header says exactly whether a data record, a skip, or neither lies at the head |
| Ring.PeekExact | src/common/nvkvm_ring.h:168-219 | peek passes skip records and no others; it stops at the first head without one, EMPTY exactly at the tail, OK exactly on a data record, with that record |
| Ring.LookBeyond | src/common/nvkvm_ring.h:195-212 | the verdict on a header never depends on the bytes that follow the region |
| Ring.OutsideIsBad | src/common/nvkvm_ring.h:195-204 | a header is read past the region exactly when peek stops with BAD at a head that has no room for one |
| Ring.PeekReadsInside | src/common/nvkvm_ring.h:172-204 | for all bytes every header read stays inside, exactly when no available header straddles the end of the region; aligned heads never have one |
| Ring.UnalignedHeadExample | src/common/nvkvm_ring.h:195-198 | a head at which the first read leaves the region, whatever the bytes are |
| Ring.Advance | src/common/nvkvm_ring.h:208-208 | consuming bytes shrinks the 64-bit distance by just that much, across counter wrap |
| Ring.SharedRing.constructor | src/common/nvkvm_ring.h:62-82 | a fresh ring is empty, with a data region of the capacity |
| Ring.SharedRing.StoreHeader | src/common/nvkvm_ring.h:142-148 | the bytes of the header that fall inside the region are stored, the rest is what spills over |
| Ring.SharedRing.Reserve | src/common/nvkvm_ring.h:101-151 | in place, for any counters: the region ends as the plan's headers over the old bytes, counters untouched, with the payload offset, the total to commit, and the bytes written past the end, none exactly when the plan is inside; when a plan exists is `RingFifo.GrantExact` |
| Ring.SharedRing.Commit | src/common/nvkvm_ring.h:155-158 | only the tail moves, modulo 2^64, and multiples of eight stay so |
| Ring.SharedRing.Inspect | src/common/nvkvm_ring.h:195-212 | the verdict on the header at any head, read through to what follows the region, and whether the read stayed inside |
| Ring.SharedRing.PeekRecord | src/common/nvkvm_ring.h:168-219 | the loop over skips refines the recursive look for any counters: same verdict, same head left behind, and it tells whether every read stayed inside; a bad capacity is BAD and moves nothing |
| Ring.SharedRing.Pop | src/common/nvkvm_ring.h:224-227 | only the head moves, modulo 2^64, and multiples of eight stay so |
| Ring.SharedRing.HasWork | src/common/nvkvm_ring.h:249-253 | true exactly when the counters' distance is not zero |
| RingFifo.CounterOffset | src/common/nvkvm_ring.h:118-118 | a counter kept modulo 2^64 gives the offset of the unbounded stream position |
| RingFifo.CounterDistance | src/common/nvkvm_ring.h:117-117 | 64-bit differences of counters are stream distances |
| RingFifo.NoAlias | src/common/nvkvm_ring.h:111-119 | positions less than a capacity apart never share a byte |
| RingFifo.HoldsFrame | src/common/nvkvm_ring.h:168-219 | writes elsewhere do not disturb the queue that a stretch of the stream holds |
| RingFifo.HoldsAppend | src/common/nvkvm_ring.h:155-158 | publishing a stored record appends it to the queue |
| RingFifo.HoldsRest | src/common/nvkvm_ring.h:224-227 | releasing the oldest record leaves the rest of the queue |
| RingFifo.HoldsPastSkip | src/common/nvkvm_ring.h:206-210 | releasing only a skip leaves the same payloads |
| RingFifo.QueueFits | src/common/nvkvm_ring.h:117-140 | a queue never takes more bytes than the stretch that holds it |
| RingFifo.GrantExact | src/common/nvkvm_ring.h:101-151 | for every head, tail and payload a ring in use grants a reservation exactly when there is a free place for the record, directly or behind a skip, and takes the shortest such place |
| RingFifo.PeekQueue | src/common/nvkvm_ring.h:168-219 | on a ring that holds a queue peek is never BAD: EMPTY exactly for the empty queue, and otherwise the oldest payload, after at most one skip |
| RingRun.GrantIsFree | src/common/nvkvm_ring.h:115-140 | a reservation granted against any stale head lies wholly in free space |
| RingRun.StoreMissesFlight | src/common/nvkvm_ring.h:129-149 | no store of an unpublished record hits a byte in flight |
| RingRun.LoadHeadKeeps | src/common/nvkvm_ring.h:115-140 | loading the head keeps the ring invariant |
| RingRun.StoreByteKeeps | src/common/nvkvm_ring.h:129-149 | so does each byte the producer stores |
| RingRun.PublishKeeps | src/common/nvkvm_ring.h:155-158 | so does publishing the tail, and the payload joins the queue |
| RingRun.LoadTailKeeps | src/common/nvkvm_ring.h:183-193 | so does loading the tail: the checks on it never fail |
| RingRun.ReadKindKeeps | src/common/nvkvm_ring.h:197-212 | so does judging a header read word by word: it is never malformed |
| RingRun.SkipPastKeeps | src/common/nvkvm_ring.h:206-210 | so does advancing over a skip |
| RingRun.CopyByteKeeps | src/common/nvkvm_ring.h:214-217 | so does each byte the consumer copies, which is the payload's |
| RingRun.ReleaseKeeps | src/common/nvkvm_ring.h:224-227 | so does releasing a copied record |
| RingRun.WritesAreFree | src/common/nvkvm_ring.h:101-158 | in every reachable state the producer's stores are inside the region and miss all published bytes |
| RingRun.ReadsArePublished | src/common/nvkvm_ring.h:168-227 | in every reachable state the consumer's reads are inside the region and published |
| RingRun.StepRefinesQueue | src/common/nvkvm_ring.h:101-227 | every step is an enqueue of the payload at the back, a dequeue from the front, or no change of an abstract queue |
| RingRun.EveryRunIsFifo | src/common/nvkvm_ring.h:101-227 | in every run of split producer and consumer steps, from any counter value: never BAD, payloads come out in order and unaltered up to seven bytes of padding, an empty ring has lost nothing, and the two sides never touch the same byte |
| RingRun.ConsumerAdvances | src/common/nvkvm_ring.h:168-227 | with a record in flight, every step of the consumer pops the oldest one or brings it exactly one step closer |
| RingRun.EveryPayloadIsDelivered | src/common/nvkvm_ring.h:168-227 | in every run, however the producer's steps fall in between, the consumer can go on while a payload waits and has popped the oldest within its own next steps, at most fifteen more than the payload has bytes |
| Messages.HeadRoundTrip | src/common/nvkvm_ring_ioctl.h:38-57 | the six header words read back, whatever follows |
| Messages.RequestRoundTrip | src/stub/nvkvm_stub.c:2342-2362 | a request within the caps is accepted by the isolate with every field and both buffers as the guest wrote them, whatever padding the ring adds |
| Messages.AcceptedIsSent | src/stub/nvkvm_stub.c:2342-2362 | the isolate accepts exactly the records that begin with some request within the caps, and reads that request |
| Messages.ReplyRoundTrip | src/guest/nvkvm_main.c:360-387 | for every reply: the signed return value, an error kept and anything else 0, the front of each buffer replaced by what the isolate sent unless it is longer than the buffer; a PUNT leaves both alone, and a wait for any other id passes it over |
| Messages.AcceptIsSafe | src/guest/nvkvm_main.c:360-387 | whatever a record says, the buffers keep their lengths and hold only the caller's bytes and the record's; a fallback leaves them as they were |
| Messages.WaitReply | src/guest/nvkvm_main.c:343-405 | the wait takes the first record that is its own and only records before it, or all of them and gives up with the buffers untouched |
| FastPath.TxnSequence | src/guest/nvkvm_main.c:463-465 | the k-th request's id, skipping zero at the 32-bit wrap |
| FastPath.TxnDistinct | src/guest/nvkvm_main.c:463-465 | ids repeat only after 2^32 - 1 requests |
| FastPath.WindowIsSmall | src/guest/nvkvm_main.c:456-477 | the requests and replies in the rings span far fewer requests than there are ids |
| FastPath.AcceptedIsOwn | src/guest/nvkvm_main.c:362-387 | a reply has the waiting id exactly when it answers the waiting call; then it is the last one and tells truly whether the control ran |
| FastPath.NextKeeps | src/guest/nvkvm_main.c:343-485 | publish, execute, reply, pop, exit, drop, accept, give up, decline and forward all keep the invariant |
| FastPath.AtMostOnce | src/guest/nvkvm_main.c:2031-2057 | in every run a control runs at most once across ring and virtqueue: never while a fallback is pending, once when forwarded, as its reply says when answered |
| FastPath.RepliesReachTheirCaller | src/guest/nvkvm_main.c:428-485 | in every run the reply a caller accepts is to its own request, and it falls back only if the control did not run |
| FastPath.AnswersReachTheirCaller | src/guest/nvkvm_main.c:362-387 | in every run an answered call returns what the isolate answered that very call, its error or 0, and was not punted; a call on the virtqueue was never published or was punted |
| FastPath.OwnReplyIsKept | src/guest/nvkvm_main.c:343-405 | in every run, while a call waits, the isolate has answered it exactly when its reply is in the ring: replies to others are dropped, its own never |
| Pump.DiffersExact | src/common/nvkvm_ring.h:249-253 | 64-bit counters differ exactly when the positions do |
| Pump.NextKeeps | src/guest/nvkvm_main.c:305-328 | each load, queueing, wake-up, loop exit, failure and disturbance keeps the wake-up invariant |
| Pump.NothingStranded | src/guest/nvkvm_main.c:305-328 | in every run, when the pump sleeps and no wake-up is on its way the request ring is empty; a loop past its exit re-check has drained all it saw |
| Pump.PumpReachesLoop | src/guest/nvkvm_main.c:309-325 | from every invariant state with work and no wake-up owed, the pump's own steps reach ENTER_LOOP |
| Pump.EveryRequestIsDriven | src/guest/nvkvm_main.c:479-479 | in every run, from every state with a request in the ring, the owed wake-up and at most seven pump steps put an ENTER_LOOP in flight |
| Pump.IdlePumpSleeps | src/guest/nvkvm_main.c:305-328 | without a request the pump goes to sleep within seven steps of its own, sends no ENTER_LOOP on the way, and stays asleep until it is woken |
| Migrate.SpanCovers | src/guest/nvkvm_mmap.c:826-828 | the pages taken cover the request exactly when rounding up its end does not overflow, and then exceed it by less than a page |
| Migrate.OverflowAccepted | src/guest/nvkvm_mmap.c:845-846 | an overflowing request passes the test exactly when it wraps round to its own first page; at most one page is then taken |
| Migrate.OverflowExample | src/guest/nvkvm_mmap.c:826-846 | a request for nearly the whole address space that is accepted and takes no page |
| Migrate.GpaInWindowExact | src/guest/nvkvm_mmap.c:746-760 | with wrapping additions, the test is containment in the window |
| Migrate.Guest.FillSlot | src/guest/nvkvm_mmap.c:979-984 | the slot holds the pinned pages' contents, page for page |
| Migrate.Guest.UploadBatch | src/guest/nvkvm_mmap.c:970-989 | one batch lands at its offset of the object, or nothing changes |
| Migrate.Guest.Upload | src/guest/nvkvm_mmap.c:969-994 | for every slot size the batches add up to the chunk's contents; a failure closes the handle; the pages held both pinned and uploaded are then exactly the chunk's, or none |
| Migrate.Guest.Place | src/guest/nvkvm_mmap.c:1004-1068 | share, map, check, zap and remap: all of it, or everything closed again, with the pages unmapped exactly when a remap was counted as failed |
| Migrate.Guest.Finish | src/guest/nvkvm_mmap.c:1077-1100 | the record is kept if there is memory for it, and the chunk's pins are dropped once each, in order |
| Migrate.Guest.MigrateChunk | src/guest/nvkvm_mmap.c:953-1108 | a chunk is migrated with fresh handle, token and window pages inside the window, or abandoned with nothing left open and its pins kept; either way nothing is held twice afterwards |
| Migrate.Guest.PinPages | src/guest/nvkvm_mmap.c:882-887 | success exactly when every page is pinned; the pins taken are the range's first pages |
| Migrate.Guest.MoveChunks | src/guest/nvkvm_mmap.c:953-1109 | the loop ends with all pages moved or stopped after whole chunks, whose pins alone are dropped |
| Migrate.Guest.MigratePages | src/guest/nvkvm_mmap.c:882-1137 | on every exit each pin taken is dropped exactly once, in order, and the pages held both pinned and written to an open object were never more than 2 MiB |
| Migrate.Guest.MigrateRange | src/guest/nvkvm_mmap.c:823-1138 | each check decides as the source lists them, told from the request's own pages: nothing to do, overflow, more than 2 GiB, no isolate, no slot, a record of the start page; then nothing changes. Otherwise success moves the whole range and failure a prefix of whole chunks |
| Migrate.PrecheckExact | src/guest/nvkvm_mmap.c:843-870 | which answer the checks give, or none, by the number of pages, the end of the request, the isolate, the slot and the records |
| Migrate.Guest.FindRecord | src/guest/nvkvm_mmap.c:854-859 | true exactly when some record starts at the page |
| Migrate.TakenCovers | src/guest/nvkvm_mmap.c:826-867 | a call takes every page of a request exactly when its checks let it work and the end does not overflow, also when the length argument wrapped to zero |
| Migrate.FreedExactly | src/guest/nvkvm_mmap.c:682-693 | after k records exactly their handles, copies and mappings are gone |
| Migrate.Guest.CpuPagesFree | src/guest/nvkvm_mmap.c:672-694 | every recorded chunk is released once, while its handle is open and its mapping live |
| MigrateMeaning.RunReads | src/guest/nvkvm_mmap.c:1022-1068 | after any number of chunks a moved page maps to its own chunk's window pages and reads what it read before; others are untouched |
| MigrateMeaning.JoinedIsContent | src/guest/nvkvm_mmap.c:953-994 | the chunks' objects joined are the range's contents, without gap or overlap |
| MigrateMeaning.RunData | src/guest/nvkvm_mmap.c:962-1011 | each chunk's object holds its pages and its token its window pages, whatever chunks came after |
| MigrateMeaning.SuccessPreservesMemory | src/guest/nvkvm_mmap.c:953-1117 | a successful call changes what no page reads: range pages read through their chunk, pages elsewhere keep their mapping, the objects are the range |
| MigrateMeaning.FailureMovesPrefix | src/guest/nvkvm_mmap.c:1119-1137 | after a failed call a prefix of whole chunks is moved and reads as before, all else is untouched, except that the pages of a chunk whose remap failed are unmapped |
| MigrateMeaning.NoPageIsLost | src/guest/nvkvm_mmap.c:1022-1068 | on either exit every readable page still reads the same, exactly when no remap failed during the call |
| MigrateMeaning.ZeroMeansMoved | src/guest/nvkvm_mmap.c:843-867 | a return of 0 means every page of the request was moved by the call, exactly when the checks let it work and the end does not overflow |
| MigrateMeaning.RepeatedCall | src/guest/nvkvm_mmap.c:854-859 | a call that moved something, repeated, returns 0 exactly when its first chunk was recorded, and then changes nothing |
| MigrateMeaning.NothingElseIsOpen | src/guest/nvkvm_mmap.c:1104-1137 | on either exit the handles, copies and mappings open beyond those before are those of the moved chunks, one each, and so are the records |
| MigrateMeaning.FreeUndoesMigrate | src/guest/nvkvm_mmap.c:672-694 | whatever was recorded before, cleaning up after the call leaves the handles cleaning up before it would have left exactly when every moved chunk was recorded; copies and mappings then agree as well |
| MigrateMeaning.FreeLeavesUntracked | src/guest/nvkvm_mmap.c:1077-1088 | in general a handle of the call stays open exactly when no kept record has it |
| Inflight.NextKeeps | src/guest/nvkvm_virtio.c:405-479 | submission, completion, callback, signal, wake-up and both frees keep the ownership invariant |
| Inflight.NothingFreedEarly | src/guest/nvkvm_virtio.c:177-193 | in every run a descriptor is in one place, its cookie names the live record it was made for with its buffer, each use completes at most once, and a call returns 0 or -ERESTARTSYS exactly when it completed; which of the two is `Inflight.ReturnsWhatHappened` |
| Inflight.ReturnsWhatHappened | src/guest/nvkvm_virtio.c:405-479 | in every run a call returns 0 exactly when it completed and no signal ended its wait, -ERESTARTSYS exactly when one did and it completed all the same, -ENOMEM without a buffer, and the virtqueue's error after a refusal |
| Inflight.EveryWaitEnds | src/guest/nvkvm_virtio.c:171-196 | in every run a record waits for its completion exactly while its descriptor is outstanding, so no wake-up is lost; once the host has returned it the callback alone completes it |
| Inflight.FreesComeLast | src/guest/nvkvm_virtio.c:446-479 | in every run a step that frees a buffer or a record frees one whose descriptor has come back, also after a signal |
| TxnId.ProbeReaches | src/guest/nvkvm_virtio.c:76-80 | from every seed the probes reach every slot, also across the 32-bit wrap |
| TxnId.PickExact | src/guest/nvkvm_virtio.c:72-92 | no id exactly when all 4095 usable slots are taken; otherwise a non-zero id with a clear slot and the seed's epoch |
| TxnId.SlotReuse | src/guest/nvkvm_virtio.c:84-87 | two ids of one slot differ exactly when their seeds' epochs do |
| TxnId.SlotReuseExample | src/guest/nvkvm_virtio.c:84-87 | two seeds in a row that get the same id |
| TxnId.Allocator.constructor | src/guest/nvkvm_virtio.c:72-75 | nothing is outstanding |
| TxnId.Allocator.Alloc | src/guest/nvkvm_virtio.c:72-92 | the id is distinct from every outstanding one and sets its own bit only; failure changes nothing but the counter |
| TxnId.Allocator.Free | src/guest/nvkvm_virtio.c:94-102 | the owner's bit is cleared and no other |
| Marshal.ServeStaged | src/stub/nvkvm_stub.c:1014-1058 | the isolate finds the staged list by its size and sends back the driver's results for the caller's inputs, with no address of its own |
| Marshal.ListMeaning | src/guest/nvkvm_main.c:1510-1586 | staging, serving and copying back an info or caps list changes the caller's memory as the driver run in place would, for every driver that keeps the pointer |
| Marshal.TablesAgree | src/stub/nvkvm_stub.c:452-478 | for every control the guest's and the isolate's table give the same element size |
| Marshal.PlainServed | src/stub/nvkvm_stub.c:1020-1059 | parameters without a list come back as the driver leaves them when it is given none, and with no pointer, unless the isolate takes their tail for the list |
| Marshal.PlainMeaning | src/guest/nvkvm_main.c:1552-1586 | a caller that passes no elements or no list: forwarding does what every driver in place would do exactly when there is no pointer to lose and the isolate does not take the tail of the parameters for the list |
| Marshal.OverCap | src/guest/nvkvm_main.c:1558-1559 | with more elements than the cap the driver is not shown the list and the pointer is lost |
| Marshal.RefusalChangesNothing | src/guest/nvkvm_virtio.c:1149-1154 | a request refused for its size leaves the caller's memory as it was, copy-back included |
| Marshal.ChannelListMeaning | src/guest/nvkvm_main.c:2221-2257 | the same for the two lists of a channel-list control with 24 bytes of parameters |
| Marshal.RefusalChangesNothing2 | src/guest/nvkvm_main.c:2221-2257 | a refused channel-list control leaves the caller's memory as it was |
| Marshal.ChannelListDiffers | src/stub/nvkvm_stub.c:1099-1131 | with longer parameters every caller's memory has a driver whose last entry is not brought back |
| Marshal.Caller.Return | src/guest/nvkvm_main.c:2259-2287 | the copy-back in place: list and parameters with the caller's pointer, a list that can no longer be written being passed over |
| Marshal.Caller.ListControl | src/guest/nvkvm_virtio.c:1109-1287 | the whole call: the exact return value, and memory that ends as the driver in place would leave it exactly when the request fitted, came back, and its status allows copying; otherwise it is as before, also when a signal gave the call up |
| Marshal.Caller.PlainControl | src/guest/nvkvm_main.c:2351-2352 | the call for a list that is not staged: the exact return value, and parameters that come back as the isolate left them exactly when the request fitted, came back, and its status allows copying |
| Marshal.Caller.Control | src/guest/nvkvm_main.c:1419-1586 | the whole call for all of these: refused for size or an unreadable address, staged exactly for 1 to 65536 elements behind a pointer, and otherwise sent alone |
| Abi.EveryVersionHasARow | src/common/nvkvm_abi.h:314-385 | every version, readable or not, selects an id that has a row, so the lookup never takes its default |
| Abi.NewerRowOnlyInGaps | src/common/nvkvm_abi.h:314-385 | a version gets a row newer than its branch exactly in three unpublished gaps |
| Abi.LatestRow | src/common/nvkvm_abi.h:314-385 | it gets the newest row not above its branch exactly outside those gaps and two groups of early builds |
| Abi.RowExact | src/common/nvkvm_abi.h:314-385 | the row of every version: 570 when unknown, the next row up before all rows and in the gaps, the row before its branch's for an early build, and otherwise the newest its branch can have |
| Abi.RowsConsistent | src/common/nvkvm_abi.h:117-238 | in every row the varying fields lie inside the structures of that row |
| Abi.ById | src/common/nvkvm_abi.h:295-306 | the row with the id, or the 570 row when there is none |
| Abi.ReadComponent | src/common/nvkvm_abi.h:260-280 | the digits' value modulo 2^32, and where they end |
| Abi.ParseVersion | src/common/nvkvm_abi.h:260-280 | the three dotted components of any string, missing ones zero |
| Abi.VersionRoundTrip | src/common/nvkvm_abi.h:260-280 | a printed version parses back to its three numbers, whatever follows |
| Abi.ForVersion | src/common/nvkvm_abi.h:406-412 | for every string, the exact row of its version's id |
| Fields.DispatchesAgree | src/guest/nvkvm_ioctl.c:46-201 | for every word and profile, a word the sanitizer rewrites by number has its size by number |
| Fields.Sanitize | src/guest/nvkvm_ioctl.c:253-554 | for every command and profile, every access is inside a buffer of the table's size, which is kept |
| Fields.SanitizeFrame | src/guest/nvkvm_ioctl.c:253-554 | outside the command's descriptor and pointers no byte of any command changes |
| Fields.PointersAreStripped | src/guest/nvkvm_ioctl.c:345-479 | a pointer of a command sized by number leaves as zero under the frontend's type, but for the address of described memory, and unchanged under any other type |
| Fields.StripsExactly | src/guest/nvkvm_ioctl.c:334-343 | for a command with pointers, no buffer lets one out exactly when the word has the frontend's type |
| Fields.OtherTypeExample | src/guest/nvkvm_ioctl.c:121-198 | a memory allocation by number under another type is sized and passed through as it is |
| Fields.KeptAddressIsMigrated | src/guest/nvkvm_ioctl.c:396-412 | when the address of described memory is sent, every described page was taken exactly if the migration's checks let it work and the end does not overflow |
| Fields.WholeSpaceKept | src/guest/nvkvm_ioctl.c:396-402 | a limit of 2^64 - 1 takes no page and is accepted |
| Fields.DescriptorIsSwapped | src/guest/nvkvm_ioctl.c:268-546 | the words whose descriptor is looked at are refused for an unknown one with -EBADF and for memory that could not be migrated with that error, and are otherwise sent with the token; every other word is sent as it is |
| Fields.SanitizeParams | src/guest/nvkvm_ioctl.c:253-554 | the rewriting in place: sent exactly as specified, or exactly the error specified |
| Fields.DescriptorRoundTrip | src/guest/nvkvm_main.c:1268-1303 | whatever the host answers, the caller's descriptor comes back in its field and the host's bytes everywhere else, exactly unless the call is for a modeset file with 16 bytes or more |
| Fields.PointersComeBack | src/guest/nvkvm_main.c:2117-2183 | a pointer the host leaves as it was sent comes back as the caller passed it, exactly unless it was stripped from a call for a modeset file |
| Fields.RestoreParams | src/guest/nvkvm_main.c:2117-2183 | the restoring in place, for each kind of saved value; what every byte then is, is `Fields.RestoreExact` |
| Fields.RestoreExact | src/guest/nvkvm_main.c:2117-2183 | for every command, profile and kind of file, whatever the host answers: every byte the caller gets is its own, its own unless the whole field was zero, zero, or the host's, by a table of fields |
| Fields.ExternalMappingRoundTrip | src/guest/nvkvm_main.c:1273-1281 | if the host leaves the field alone, the descriptor comes back exactly when it was none or is its own token, and the host's bytes at 16 come through exactly when they are the caller's |
| InnerFields.TagPids | src/guest/nvkvm_main.c:916-961 | in place: the first process ids, as many as are asked for, fit and are allowed, become tags; the originals are kept |
| InnerFields.PidCountExact | src/guest/nvkvm_main.c:924-941 | exactly the entries that are asked for, allowed and long enough are looked at |
| InnerFields.TaggedQuery | src/guest/nvkvm_main.c:943-956 | each leaves as its isolate's tag, 0 if the caller cannot see it, and no other byte changes |
| InnerFields.RestorePids | src/guest/nvkvm_main.c:963-973 | the originals are put back in place |
| InnerFields.PidRoundTrip | src/guest/nvkvm_main.c:2084-2089 | whatever the host answers, every process id asked about comes back as written and every other byte is the host's |
| InnerFields.UntagPids | src/qemu/nvkvm_isolate_handlers.c:1866-1907 | in place: the device replaces the process id of every whole entry by the process of the isolate it is tagged with, or 0 |
| InnerFields.TagRoundTrip | src/qemu/nvkvm_isolate_handlers.c:1893-1902 | the device finds the isolate the guest meant; a tag is 0 exactly when the process has none |
| InnerFields.OnlyIsolatesAreAsked | src/qemu/nvkvm_isolate_handlers.c:1893-1904 | whatever is in a query, the driver is asked about nobody but living isolates: an untagged entry becomes 0 |
| InnerFields.DriverIsAsked | src/qemu/nvkvm_isolate_handlers.c:1882-1904 | through guest and device, the driver is asked for the process of the isolate that serves each process id, and for 0 if the caller cannot see it; but for an entry that is cut short it gets the guest's tag |
| InnerFields.SwapObject | src/guest/nvkvm_main.c:1452-1484 | the descriptor of an exported or imported object is kept and leaves as its token |
| InnerFields.SwapPlanes | src/guest/nvkvm_main.c:1393-1417 | for a registration by descriptor the planes' descriptors are kept and swapped in place, the non-positive ones passed over; every other control is left alone |
| InnerFields.PlaneLeaves | src/guest/nvkvm_main.c:1400-1416 | every plane leaves with its descriptor's token, if there is one |
| InnerFields.RestoreFields | src/guest/nvkvm_main.c:2344-2350 | the kept descriptors are put back in place |
| InnerFields.InnerRoundTrip | src/guest/nvkvm_main.c:2091-2101 | whatever the host answers, kept descriptors come back as written and every other byte is the host's |
| InnerFields.PlanesRoundTrip | src/guest/nvkvm_main.c:2342-2350 | whatever the host answers, exactly the planes that have a descriptor in a registration by descriptor get theirs back; every other byte of every control is the host's |
| Lifetimes.NextKeeps | src/guest/nvkvm_main.c:637-753 | open, failed open, close, proxy creation, free and import keep all reference counts exact |
| Lifetimes.DestroyedLast | src/guest/nvkvm_main.c:683-753 | a step that takes a context away destroys it, with its file closed and its last proxy gone |
| Lifetimes.NextLosesNone | src/guest/nvkvm_session.c:101-144 | no step loses an isolate: each is killed or still serves its session |
| Lifetimes.ReferencesAreExact | src/guest/nvkvm_session.c:28-144 | in every run: contexts count file and proxies and are destroyed once; sessions count contexts, are registered exactly while they have some, and share no address space; isolates are killed once, exactly when their session goes |
| Isolation.RunServes | src/guest/nvkvm_session.c:48-57 | from its open until it is destroyed a context serves the address space it was opened from |
| Isolation.OneIsolatePerProcess | src/guest/nvkvm_session.c:36-57 | in every run two open contexts run in the same isolate exactly when they were opened from the same address space |
| Forwarding.ResolveExact | src/guest/nvkvm_drm.c:237-295 | a resolved handle was minted in the isolate it is forwarded to, exactly unless it is cached and the isolate it was imported into has been killed |
| Forwarding.ResolveInEveryRun | src/guest/nvkvm_drm.c:237-295 | the same in every state of every run of opens, closes, proxies and imports; what the number in the handle names is `BufferNames.NumberNamesBuffer` |
| Forwarding.ForwardedOnOwnContext | src/guest/nvkvm_drm.c:218-233 | in every run a handle is forwarded on the file it belongs to exactly unless the cache serves it to another file than its importer; on its own file it is valid; an importer still open is in the caller's isolate |
| Forwarding.SecondFileExample | src/guest/nvkvm_drm.c:271-277 | a run in which a process's second file is served the number of its first, which names nothing there |
| Forwarding.ResolveWithoutReuse | src/guest/nvkvm_drm.c:262-277 | when ids are never used again every resolved handle is valid |
| Forwarding.ReusedIdExample | src/guest/nvkvm_drm.c:271-277 | a run to a state in which a cached number reaches an isolate it was not minted in, and names nothing there |
| BufferNames.NextNamed | src/guest/nvkvm_drm.c:237-295 | every step keeps the host's table of buffer numbers right: a proxy's own number names its buffer, and a cached one does while its importer is open |
| BufferNames.NumberNamesBuffer | src/guest/nvkvm_drm.c:256-277 | in every run a forwarded number names the proxy's own buffer in the file it belongs to, and in the file it is forwarded on unless the cache serves it to another file than its importer |
| BufferNames.NumbersTellProxiesApart | src/guest/nvkvm_drm.c:256-277 | in every run operations on two proxies never reach the same number of the same file, each being forwarded on its own |
| BufferNames.ImportsExactly | src/guest/nvkvm_drm.c:262-283 | in every run a buffer is imported exactly when owner and caller run in different isolates and the last import was not for an isolate with the caller's id |
| BufferNames.ImportIsServed | src/guest/nvkvm_drm.c:279-289 | the importer is then served the number of that very buffer, on its own file |
| VCache.DistinctGrows | src/guest/nvkvm_main.c:2060-2075 | remembering a result keeps the cached keys distinct exactly when its key is not among the fifteen that stay |
| VCache.Cache.constructor | src/guest/nvkvm_session.c:60-76 | the cache starts empty |
| VCache.Cache.Clear | src/guest/nvkvm_session.c:91-99 | nothing cached survives, and the replacement order goes on |
| VCache.Cache.Lookup | src/guest/nvkvm_main.c:1997-2021 | a hit exactly when the key is among the last sixteen results since the last clear; while no key is cached twice, with the status the host last gave for it |
| VCache.Cache.Insert | src/guest/nvkvm_main.c:2060-2075 | any result replaces the oldest of sixteen, also across the counter's wrap; the keys stay distinct exactly when its key is not among those that stay |
| VCache.Cache.Validate | src/guest/nvkvm_main.c:1983-2075 | a call answers from the last sixteen results or forwards; only successful forwards are remembered, under the range in the answer, and no key is cached twice while that is the caller's |
| HashIndex.ScanFinds | scripts/mode2_diag/nvmemsnap.c:124-133 | for every insertion order and collision pattern the probe for a present key stops at it |
| HashIndex.AddKeeps | scripts/mode2_diag/nvmemsnap.c:114-122 | writing a key where its probe stops leaves every key reachable |
| HashIndex.AnonIndex.constructor | scripts/mode2_diag/nvmemsnap.c:45-46 | an empty table stands for the empty map |
| HashIndex.AnonIndex.Add | scripts/mode2_diag/nvmemsnap.c:114-122 | the map gains or replaces the key; a new key in a full table is dropped |
| HashIndex.AnonIndex.Find | scripts/mode2_diag/nvmemsnap.c:124-133 | the last length added for the key, and 0 for every other |
| PageWalk.CoversMeans | src/guest/nvkvm_mmap.c:86-102 | a large leaf counts as covered exactly when some page of the range lies in it |
| PageWalk.SameShape | src/guest/nvkvm_mmap.c:73-108 | clearing bits never changes which leaf the walk finds |
| PageWalk.StepClears | src/guest/nvkvm_mmap.c:73-108 | one step, skipping to the end of a large leaf, clears exactly what the pages it passes require |
| PageWalk.Mm.ForceWriteBack | src/guest/nvkvm_mmap.c:68-109 | the walk ends with the cache bits of every present leaf over the range cleared, at all three sizes, and nothing else changed |
| PageWalk.PageBecomesWriteBack | src/guest/nvkvm_mmap.c:68-109 | bit by bit, for every page: it keeps its leaf, address and other bits; every mapped page of the range ends with cache-disable, write-through and the page attribute of its leaf size off, and a leaf that maps no page of the range is as it was |

## Left out

- Hardware memory ordering: each atomic load or store is one step, in the order the code gives.
- Capacities above 2^31: the per-ring size is a 32-bit power of two.
- FastPath: takes the two rings as the queues they are proved to be in `RingRun`, and their capacity as the sum of the payloads they hold.
- FastPath.AtMostOnce: the repeated attempts of the virtqueue path after a page fault count as one run of the control.
- Pump: stopping the thread while its session is torn down, and the length of the back-off sleep.
- Migrate: contents are page by page; slot sizes and host addresses are whole pages; nobody writes to the range during the call; the vma checks and flags are the nondeterministic failures of `Place` and `PinPages`.
- Single-page migration, the write-back of migrated pages and the UVM realize path: they would add easier members of the same kind.
- Inflight: the fields the completion callback decodes from a response, and the slot allocator beside it.
- Inflight, FastPath, Pump and Lifetimes are state machines on values, not classes: their locks are the atomicity of the steps.
- Transaction ids that some error exits do not give back, and hand-built requests with ids outside the allocator.
- Marshal: the repeated attempts after a page fault; parameters shorter than 16 bytes, the GET_BUILD_VERSION strings, and overlapping buffers; the channel-list copy is a function, not a method.
- Fields: the class-by-class sizes of allocation parameters and the event descriptor inside NV0005 allocations, which is swapped and not restored.
- Lifetimes: each system call is one step; buffer identification, export and an import that the host refuses are not modelled, and the host closes a number only when its proxy is freed or its file closed.
- InnerFields: the memory figures the device fills in for a process id after the call.
- VCache: which commands tear a range down is left to the caller of `Clear`.
- RingRun: both sides keep to the protocol; counters that a peer overwrites are treated in `Ring`, one call at a time.
- A base of 0 in the mapping index: it marks an empty slot, so adding it changes nothing that can be found.
- The display, proc and character-device plumbing, the virtio probe, the host emulator and the vendored driver sources.
