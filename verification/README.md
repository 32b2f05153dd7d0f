# TDH Socket and libeasy: a verified model

This project models the parts of TDH Socket (a MySQL plugin that serves reads and writes over its
own binary protocol) and of libeasy, the network library beneath it, in which state, order and
arithmetic are hardest to get right, and proves what they keep. Everything below is proved for all
inputs, all runs and all interleavings that the code allows; code that updates memory in place is
written as classes with loops, and each of its methods is proved against a specification function
about which the properties are then shown.

| files | system part |
|---|---|
| `Bits`, `PageZone`, `PageAllocator` | the buddy page allocator of libeasy |
| `SlabCache`, `SlabManager` | slab caches on top of it |
| `TimerHeap`, `PendingQueue`, `EventLoop` | timers and pending events of the event loop |
| `HttpParser`, `HttpRun`, `HttpMarks`, `HttpExecute`, `HttpReads`, `HttpChunked`, `HttpHeaders`, `HttpLine`, `HttpRequest`, `HttpResponse`, `HttpMethodExact`, `HttpLineExact`, `HttpHeadExact` | the HTTP parser |
| `Wire`, `PacketFraming`, `RequestCodec`, `RequestInverse`, `RequestClient`, `RequestDecoder` | packets, and requests from client to server |
| `StreamResponse`, `StreamHandshake` | results from server to client, and the threads that send them |
| `TableCache`, `IndexScan`, `WriteRound` | tables, scans and transactions of a worker thread |
| `BloomRotation` | the filters that guess hot reads |
| `LocalTime` | the calendar of the log |
| `Common` | what several of them share |

Some findings where the code differs from what one would expect:

* A client cannot tell a cell of one zero byte from the empty string (`StreamResponse.ZeroByteIsLost`);
  `StreamResponse.RowsArrive` says exactly when rows arrive unchanged.
* An update that is refused half way is still committed up to the error, unless it is part of a batch
  or shares a group with one that fails: `WriteRound.RefusedRound` is an instance,
  `WriteRound.RefusedButKept` says exactly when.
* The client accepts requests with an empty key, and ranges with one key, which the server refuses:
  `RequestClient.RefusedByServer` has one of each, `RequestClient.CallRoundTrip` says exactly when.
* In the HTTP parser's hexadecimal table every byte from 128 on counts as the digit 0:
  `HttpChunked.HighByteIsZero` is an instance, `HttpChunked.SizeTextReads` says exactly which texts are
  accepted as a size, as which, and when that is the size they spell.
* The HTTP parser reads words as methods that are none: `HttpMethodExact.NoMethodTaken` is an instance,
  `HttpMethodExact.MethodExactly` with `HttpMethodExact.WholeWords` says exactly which.
* Each line break in front of a response is announced as a message of its own
  (`HttpResponse.EveryBreakAnnounced`); in front of a request none is (`HttpLine.BreaksRead`).
* The decoders have room for ten parts in a key, and the first one for ten keys; beyond that they go
  past their arrays unless something else is noticed before: `RequestClient.BeyondTheArrays` has
  instances, `RequestClient.CallRoundTrip` with `RequestCodec.FindVerdict` says exactly when.
* Whether the parser keeps a connection depends on the request's headers and trailer alone, whatever
  the protocol version: `HttpRequest.PlainIsNotKept` is an instance, `HttpRequest.RequestReads` says
  exactly when.
* The year loop of `easy_localtime` can step over the year it looks for: `LocalTime.StepsOver1973` is an
  instance, `LocalTime.StepsOver` says exactly when. What falls in every round is the distance in days
  (`LocalTime.YearRound`).

## Model

| member | source | states |
|---|---|---|
| `PageZone.BuddyIsHead` | libeasy/memory/easy_mem_page.c:176-180 | in a zone tiled by aligned blocks, the page whose flag a merge reads is always the head of a block of at most the same order, so stale flag bytes inside blocks are never read |
| `PageZone.MergeTest` | libeasy/memory/easy_mem_page.c:176-180 | the merge loop's flag comparison is true exactly when the buddy is a free block of the same order |
| `PageZone.AllFreeIsCoalesced` | libeasy/memory/easy_mem_page.c:167-196 | when no block is in use, every block has the largest order |
| `PageZone.SplitTiling` | libeasy/memory/easy_mem_page.c:150-165 | halving a used block keeps alignment, disjointness, cover and coalescence of all blocks |
| `PageZone.JoinTiling` | libeasy/memory/easy_mem_page.c:182-190 | joining a block with its free buddy keeps alignment, disjointness, cover and coalescence |
| `PageZone.Expand` | libeasy/memory/easy_mem_page.c:150-165 | splitting down from any order leaves a block of exactly the wanted order, keeps the invariant, and touches no flag of another live block |
| `PageZone.ExpandIs` | libeasy/memory/easy_mem_page.c:150-165 | the upper halves of the block that is split head the free lists of their orders; other lists, and all flags and blocks outside it, are as before |
| `PageZone.RmQueue` | libeasy/memory/easy_mem_page.c:126-148 | the search fails exactly when no free list from the wanted order up has a block; otherwise it takes the first block of the least such order and cuts it down: its upper halves head the lists of the orders in between, and no other list, no block outside it and not `last` changes; `free_pages` falls by the size |
| `PageZone.Alloc` | libeasy/memory/easy_mem_page.c:79-106 | an allocation fails exactly when the order is illegal, or no free block is large enough and the zone is used up; success is the cut that `RmQueue` states, and the zone grows, by the block at its end, only if no free list has a block; the invariant and every other live block with its flags are kept |
| `PageZone.EnoughPages` | libeasy/memory/easy_mem_page.c:88-90 | the `free_pages` guard in front of the search never hides a block that is large enough |
| `PageZone.Merge` | libeasy/memory/easy_mem_page.c:167-196 | merging upward ends in a coalesced zone in which exactly the freed block is no longer live and no flag of another live block has changed |
| `PageZone.MergeFiles` | libeasy/memory/easy_mem_page.c:167-196 | the freed block, with the buddies that it absorbs taken off their lists, heads the free list of the order it has grown to; it starts where the aligned block around it starts |
| `PageZone.Free` | libeasy/memory/easy_mem_page.c:109-123 | freeing a block head keeps the invariant, releases exactly that block if it is in use, and changes nothing otherwise |
| `PageZone.Run` | libeasy/memory/easy_mem_page.c:79-123 | the zone invariant holds after any sequence of allocations and frees of block heads |
| `PageZone.RunPartitions` | libeasy/memory/easy_mem_page.c:79-238 | after any run from a fresh zone with arbitrary flag bytes, each page lies in exactly one aligned block whose head flag gives order and use, which is listed exactly when free; `free_pages` is the sum over the free lists; with nothing in use all blocks have the largest order |
| `PageAllocator.ZoneGeometry` | libeasy/memory/easy_mem_page.c:27-63 | the number of pages is a power of two that is a whole number of largest blocks, and the first page is aligned to the largest block, for any requested size up to 2G and any page-aligned memory |
| `PageAllocator.Allocator.constructor` | libeasy/memory/easy_mem_page.c:27-70 | a created zone satisfies the zone invariant |
| `PageAllocator.Allocator.Expand` | libeasy/memory/easy_mem_page.c:150-165 | the in-place split loop computes `PageZone.Expand` |
| `PageAllocator.Allocator.RmQueue` | libeasy/memory/easy_mem_page.c:126-148 | the in-place search computes `PageZone.RmQueue`, whose contract says which block it takes and what it leaves |
| `PageAllocator.Allocator.AllocPages` | libeasy/memory/easy_mem_page.c:79-106 | the updating code computes `PageZone.Alloc` and keeps the invariant |
| `PageAllocator.Allocator.MergeBuddyPage` | libeasy/memory/easy_mem_page.c:167-196 | the in-place merge loop computes `PageZone.Merge` |
| `PageAllocator.Allocator.FreePages` | libeasy/memory/easy_mem_page.c:109-123 | the updating code computes `PageZone.Free` on a block head and ignores pointers outside the pages in play |
| `SlabCache.GetObjKeeps` | libeasy/memory/easy_mem_slab.c:231-242 | taking an object keeps the index chain of a slab: it visits exactly the indices that are not out, each once, and its length is `num - inuse` |
| `SlabCache.PutObjKeeps` | libeasy/memory/easy_mem_slab.c:313-321 | returning an object keeps the same |
| `SlabCache.SearchGeometryOk` | libeasy/memory/easy_mem_slab.c:200-215 | below the order limit, the size search always gives at least one object, room for header and index array, and indices that fit 16 bits beside the end marker |
| `SlabCache.LookupFindsOwner` | libeasy/memory/easy_mem_slab.c:307-336 | for every object in use, the page flag and the address mask find the slab and the cache that issued it |
| `SlabCache.ObjectsDisjoint` | libeasy/memory/easy_mem_slab.c:231-242 | an object in use overlaps no other object in use, nor the header or index array of any slab, whether or not objects of that slab are out |
| `SlabCache.MarkSlabKeeps` | libeasy/memory/easy_mem_slab.c:268-280 | writing the page flags of a new slab keeps the zone invariant and the flags of all other live blocks |
| `SlabCache.TakeFromIssues` | libeasy/memory/easy_mem_slab.c:135-146 | taking from a listed slab issues an object that was not out, moves the slab to the list that its fullness calls for, and changes nobody else's objects |
| `SlabCache.GrownIssues` | libeasy/memory/easy_mem_slab.c:244-304 | growing a cache adds one slab, lists it by fullness, raises `free_objects` by `num`, and issues its first object |
| `SlabCache.CacheAlloc` | libeasy/memory/easy_mem_slab.c:117-154 | an allocation fails exactly when no slab of the cache has room and the zone has no pages; otherwise exactly one new object is out, taken from the first partial slab, else from the first spare one, else from a new slab; only then is the zone touched |
| `SlabCache.FreeObjReturns` | libeasy/memory/easy_mem_slab.c:157-186 | freeing returns exactly that object and keeps the manager invariant, whether the slab is relisted or given back to the zone |
| `SlabCache.FreeObjSlab` | libeasy/memory/easy_mem_slab.c:157-186 | what becomes of the slab: kept and relisted by its fullness, or given back to the zone exactly if it is empty and its cache has more than two slabs |
| `SlabCache.PopulationIs` | libeasy/memory/easy_mem_slab.c:157-186 | the lists of a cache hold exactly its slabs, so that the counter it compares is twice their number in objects |
| `SlabCache.AddressDecodes` | libeasy/memory/easy_mem_slab.c:307-317 | masking and dividing an issued address gives back its slab and index |
| `SlabCache.CacheFree` | libeasy/memory/easy_mem_slab.c:157-186 | a free by address returns exactly the object at that address; a slab that becomes empty is kept exactly if the cache had at most two slabs, and otherwise is gone and its block no longer live; a slab that does not become empty heads the partial list |
| `SlabCache.CreateCacheKeeps` | libeasy/memory/easy_mem_slab.c:189-228 | a new cache, if there is room for one, keeps the manager invariant |
| `SlabCache.MgrStep` | libeasy/memory/easy_mem_slab.c:71-186 | the manager invariant (chains, lists by fullness, `free_objects` equal to `num` times the slabs, flags, disjoint pages) survives every operation, including page blocks taken and returned by others |
| `SlabCache.FreeAddress` | libeasy/memory/easy_mem_slab.c:76-85 | freeing an object in use through the cache that the lookup finds returns exactly that object |
| `SlabCache.RunKeepsObjects` | libeasy/memory/easy_mem_slab.c:71-336 | in every state of any run, the address of each object in use leads back to its slab and cache, and the object shares no byte with another nor with the header or index array of any slab |
| `SlabCache.HeldUntilFreed` | libeasy/memory/easy_mem_slab.c:71-186 | through any run, an object stays out, in the same cache and at the same address, until that address is freed |
| `SlabManager.ComputeGeometry` | libeasy/memory/easy_mem_slab.c:200-215 | the search loop computes the geometry of `SlabCache.CacheGeo` |
| `SlabManager.Manager.CreateCache` | libeasy/memory/easy_mem_slab.c:189-228 | the cache gets the next index, or none once there are `cache_max_num`; the updating code computes `SlabCache.CreateCache` |
| `SlabManager.Manager.MarkFlags` | libeasy/memory/easy_mem_slab.c:268-280 | both flag loops write what `SlabCache.MarkSlab` says |
| `SlabManager.Manager.CacheGrow` | libeasy/memory/easy_mem_slab.c:244-304 | the updating code computes `SlabCache.AllocNew` |
| `SlabManager.Manager.CacheAlloc` | libeasy/memory/easy_mem_slab.c:117-154 | the updating code computes `SlabCache.CacheAlloc` |
| `SlabManager.Manager.CacheFree` | libeasy/memory/easy_mem_slab.c:157-186 | the updating code computes `SlabCache.CacheFree`, whose contract says when an empty slab is kept |
| `TimerHeap.RootIsLeast` | libeasy/io/ev.c:1919-1930 | in a 4-ary heap the root expires no later than any entry |
| `TimerHeap.MinChild` | libeasy/io/ev.c:1126-1150 | the minimum among up to four children, on the fast and on the slow path |
| `TimerHeap.SiftedOk` | libeasy/io/ev.c:1919-1930 | a permutation of a heap that is ordered and whose watchers know their positions is a valid timer heap again |
| `EventLoop.Loop.UpHeap` | libeasy/io/ev.c:1202-1220 | moving an entry up restores order and back-pointers and keeps the entries |
| `EventLoop.Loop.DownHeap` | libeasy/io/ev.c:1122-1160 | moving an entry down restores order and back-pointers and keeps the entries |
| `EventLoop.Loop.AdjustHeap` | libeasy/io/ev.c:1223-1229 | whichever way the entry has to go, the heap is restored |
| `EventLoop.Loop.TimerStart` | libeasy/io/ev.c:2614-2634 | the heap, its back-pointers and cached keys stay right; exactly this timer becomes active |
| `EventLoop.Loop.TimerStop` | libeasy/io/ev.c:2638-2664 | the same for stopping; the pending event is cleared and the remaining time stored |
| `EventLoop.Loop.TimerAgain` | libeasy/io/ev.c:2668-2684 | a repeating timer is active afterwards and expires one period from now; another is stopped if it is active, and otherwise nothing changes |
| `EventLoop.Loop.ClearPending` | libeasy/io/ev.c:2518-2525 | exactly the watcher's own slot is emptied |
| `EventLoop.Loop.FeedEvent` | libeasy/io/ev.c:889-902 | an event is appended to the queue of its priority, or merged into the slot it already has |
| `EventLoop.Loop.FeedReverseDone` | libeasy/io/ev.c:905-918 | the collected watchers are fed from last to first |
| `EventLoop.Loop.TimersReify` | libeasy/io/ev.c:2117-2147 | the loop ends; whatever is pending before, exactly the timers due are fed, each once, in order of expiry, and every other watcher keeps its slot and its events; none due is left in the heap; repeating ones are rescheduled, others stopped, with only the new event pending |
| `EventLoop.ReifiedIs` | libeasy/io/ev.c:2117-2147 | the same of the queue alone: what clearing the stopped timers and feeding all due ones in reverse leaves pending, watcher by watcher |
| `EventLoop.Loop.TimersReschedule` | libeasy/io/ev.c:2222-2233 | all active timers move by the same amount and the heap stays a heap |
| `EventLoop.Loop.TimeUpdate` | libeasy/io/ev.c:2236-2296 | a monotonic clock moves no timer; when the time of day jumps, every active timer keeps the time it has left |
| `PendingQueue.FeedAllAdds` | libeasy/io/ev.c:889-902 | feeding distinct watchers into any queues gives each one more event, in the slot it had if it had one, and leaves what others have pending |
| `PendingQueue.FeedAllCalls` | libeasy/io/ev.c:889-902 | watchers fed into any queues are called before those that wait there, the last one first, except that one with something pending keeps its turn |
| `PendingQueue.ReversalsCancel` | libeasy/io/ev.c:905-918 | for any queues, feeding in reverse and invoking from the end gives the original order within each priority, ahead of what was waiting |
| `PendingQueue.CalledPending` | libeasy/io/ev.c:2076-2091 | exactly the watchers with something pending are called |
| `PendingQueue.CalledDistinct` | libeasy/io/ev.c:2076-2091 | no watcher is called twice |
| `PendingQueue.ByPriorityOrder` | libeasy/io/ev.c:2076-2091 | the call order of watchers sorted by expiry: higher priority first, earlier expiry first within a priority, and the same watchers |
| `EventLoop.Loop.InvokePending` | libeasy/io/ev.c:2076-2091 | the callbacks run from the last event of the highest priority down, and all queues are empty afterwards |
| `EventLoop.Loop.RunDueTimers` | libeasy/io/ev.c:2076-2147 | one reify and one invoke call, once each, exactly the due timers and the watchers that had something pending; in each priority the due timers come in order of expiry and ahead of what was waiting; from empty queues the calls are sorted by priority and then by expiry |
| `HttpRun.StepInv` | libeasy/packet/http/http_parser.c:396-1716 | every byte keeps the parser invariant, and no assertion of the parser (`nread == 1`, chunked flag, header states) can fail, on any input |
| `HttpRun.RunInv` | libeasy/packet/http/http_parser.c:396-1716 | the same over whole inputs |
| `HttpMarks.MarksFollowState` | libeasy/packet/http/http_parser.c:362-394 | after every byte outside the body, exactly those marks are set that a call starting in the new state sets at its first byte |
| `HttpMarks.ActKeeps` | libeasy/packet/http/http_parser.c:39-72 | setting and clearing marks only moves bytes between what is pending and what has been called back |
| `HttpExecute.BodyRun` | libeasy/packet/http/http_parser.c:1587-1614 | reading body bytes in bulk is reading them one at a time |
| `HttpExecute.Executor.constructor` | libeasy/packet/http/http_parser.c:1762-1770 | an initialised parser satisfies the invariant |
| `HttpExecute.Executor.Perform` | libeasy/packet/http/http_parser.c:39-72 | the mark and callback macros, in order, say what the reference says of one byte |
| `HttpExecute.Executor.TakeBody` | libeasy/packet/http/http_parser.c:1587-1698 | identity, until-close and chunk data: the bytes taken, the state reached and the callbacks |
| `HttpExecute.Executor.FlushAll` | libeasy/packet/http/http_parser.c:1718-1723 | at the end of a piece the pending bytes of every mark are called back |
| `HttpExecute.Executor.Execute` | libeasy/packet/http/http_parser.c:331-1735 | one call against a reference that knows neither marks nor bulk reads: the saved state and the data of URL and of all other pieces on success; the failing byte, the dead state and a prefix of the data on error; the exit on upgrade; the end of input (which texts get through: `HttpRequest.RequestReads`; which are refused: `HttpMethodExact.MethodExactly`, `HttpHeadExact.HeadExactly`) |
| `HttpExecute.Executor.FeedAll` | libeasy/packet/http/http_parser.c:331-1735 | any way of cutting an input into non-empty pieces gives the same saved state, the same data with the same notices in between, and the same position of an error as the whole input |
| `HttpExecute.FedNext` | libeasy/packet/http/http_parser.c:1718-1730 | what two calls did is what one call on both pieces would have done |
| `HttpRun.RunAppend` | libeasy/packet/http/http_parser.c:362-404 | a run over two pieces is the run over the second from where the first led |
| `HttpHeaders.NameReads` | libeasy/packet/http/http_parser.c:1139-1329 | after any header name, the automaton's state tells exactly whether the name is one of the five words it looks for, in any case and with spaces after it |
| `HttpHeaders.ValueTextReads` | libeasy/packet/http/http_parser.c:1331-1486 | after any header value, the state tells exactly whether it is chunked, keep-alive or close for the field in question, and a content length is the number its digits spell (what is no length is refused: `HttpHeadExact.LengthExactly`) |
| `HttpHeaders.HeaderLine` | libeasy/packet/http/http_parser.c:1139-1512 | a header line calls back its name and its value and changes flags and content length as its meaning says |
| `HttpLine.MethodReads` | libeasy/packet/http/http_parser.c:605-721 | the name of every one of the 23 methods leads to that method, through the guesses on the way |
| `HttpLine.TargetReads` | libeasy/packet/http/http_parser.c:723-1034 | a URL with or without scheme, host, port, path, query and fragment is called back part by part, and as a whole; marks repeated before query or fragment are skipped |
| `HttpLine.OldLineEnds` | libeasy/packet/http/http_parser.c:840-1034 | a line that ends after the URL is HTTP/0.9 |
| `HttpLine.VersionReads` | libeasy/packet/http/http_parser.c:1036-1137 | major and minor version are the numbers that their digits spell |
| `HttpMethodExact.MethodExactly` | libeasy/packet/http/http_parser.c:605-721 | while no method has ended, the parser has exactly the method in mind that the bytes stand for, and has refused them if there is none; a space ends the method exactly if the name is complete |
| `HttpMethodExact.WholeWords` | libeasy/packet/http/http_parser.c:681-721 | which complete words are read as which method: the name alone, except that words which begin like CONNECT and MKCOL are not compared to their end |
| `HttpMethodExact.NoMethodTaken` | libeasy/packet/http/http_parser.c:692-697 | the word CXXXXXX is no method and is read as CONNECT |
| `HttpLineExact.LineExactly` | libeasy/packet/http/http_parser.c:723-1137 | after the method, the parser gets past a line exactly if it is the rest of a request line, and refuses every other |
| `HttpLineExact.RefusedAtOnce` | libeasy/packet/http/http_parser.c:723-1137 | it stops at the first byte with which no request line goes on: as long as it reads, some request line with at most 16 more bytes begins like this |
| `HttpHeadExact.HeaderExactly` | libeasy/packet/http/http_parser.c:1139-1512 | the parser gets past a line that is not empty exactly if it is a header line; any other is refused, unless a length leaves 64 bits |
| `HttpHeadExact.LengthExactly` | libeasy/packet/http/http_parser.c:1371-1431 | in the value of a Content-Length header, the first byte that is neither a digit nor a space after the first digit is refused there, and no other byte is |
| `HttpHeadExact.HeadExactly` | libeasy/packet/http/http_parser.c:605-1512 | of all texts that begin with a method and go on in lines, exactly those are read that are a request line and headers, and every other is refused |
| `HttpHeadExact.BlankExactly` | libeasy/packet/http/http_parser.c:1139-1516 | a carriage return where a header could begin is refused unless a line feed follows |
| `HttpRequest.RequestReads` | libeasy/packet/http/http_parser.c:331-1710 | a request of any method, URL, version or none, headers with or without colon, either line end, any line breaks before it and spaces around its URL, and content (none, of a given length, or chunked with extensions and trailer) is read as exactly its parts in their order, completes once, and leaves the parser ready for the next request exactly if headers and trailer asked to keep the connection, whatever the version |
| `HttpRequest.PlainIsNotKept` | libeasy/packet/http/http_parser.c:1514-1580 | the request `GET / HTTP/1.1` without headers is read in full and leaves the parser dead |
| `HttpRequest.HandoverReads` | libeasy/packet/http/http_parser.c:1514-1551 | the head of a CONNECT or of a request with an Upgrade header is read as its parts, both notices are raised, and the parser stops at its last byte |
| `HttpResponse.StatusReads` | libeasy/packet/http/http_parser.c:447-603 | a status line begins a message and gives the version and the status that its digits spell, whatever reason follows |
| `HttpResponse.StatusExactly` | libeasy/packet/http/http_parser.c:447-603 | the parser gets past the first line of a response exactly if it is a status line, and refuses every other |
| `HttpResponse.ReplyReads` | libeasy/packet/http/http_parser.c:447-1710 | a response with any status line, headers and body (none, of a given length, chunked with trailer, or all until the connection is closed) is read as exactly its parts in their order; it has no body without a length exactly if the connection is to be kept; where the parser is afterwards |
| `HttpResponse.EveryBreakAnnounced` | libeasy/packet/http/http_parser.c:447-460 | each line break before a response announces another message |
| `HttpResponse.EitherReads` | libeasy/packet/http/http_parser.c:413-445 | a parser for either kind reads a text that begins with HT like one for responses, and any other like one for requests |
| `HttpRequest.PipelineReads` | libeasy/packet/http/http_parser.c:331-1710 | requests sent one after another are read one after another; the trailer of one counts against the header limit of the next |
| `HttpRequest.ReceiveRequests` | libeasy/packet/http/http_parser.c:331-1735 | requests that arrive in any pieces: every byte is accepted, the callbacks get exactly the parts of the requests in their order, and the parser is ready for another one exactly if the last one asked to keep the connection |
| `HttpRequest.CutsSay` | libeasy/packet/http/http_parser.c:331-1735 | what a text says is what the callbacks get from `HttpExecute.Executor.FeedAll`, however the text is cut |
| `HttpChunked.OneChunk` | libeasy/packet/http/http_parser.c:1616-1710 | one chunk, with its size in any hexadecimal spelling, is delivered whole and leaves the parser before the next size |
| `HttpChunked.ChunksRead` | libeasy/packet/http/http_parser.c:1616-1710 | any list of non-empty chunks with sizes below 2^63 (section 3.6.1 of RFC 2616) is delivered as its concatenation, and the size 0 after it leads to the trailer |
| `HttpRequest.ChunkedBody` | libeasy/packet/http/http_parser.c:1514-1710 | after the chunks, the headers of the trailer are called back and noted, and the message completes once |
| `HttpChunked.SizeTextReads` | libeasy/packet/http/http_parser.c:1616-1665 | any text before the first CR, semicolon or space is accepted as a size exactly when it is hexadecimal, below 2^63 and short enough once every byte from 128 on is replaced by the digit 0, and that number is the size read; a text is hexadecimal, and then read as what it spells, exactly when it has no such byte |
| `HttpChunked.SizeLineExactly` | libeasy/packet/http/http_parser.c:1665-1679 | after a size and its carriage return only a line feed is read |
| `HttpChunked.DataExactly` | libeasy/packet/http/http_parser.c:1681-1710 | after the data of a chunk only carriage return and line feed are read, and anything else is refused at that byte |
| `HttpChunked.HighByteIsZero` | libeasy/packet/http/http_parser.c:155-164 | the byte 128 is no hexadecimal digit and is read as the size 0 |
| `WriteRound.RepliesAreHonest` | TDHSocket/tdh_socket_request_thread.cpp:119-214 | with group commit on or off, a 2xx reply other than 207 belongs to committed changes; a 207 chain is all 200 with the whole batch committed, or has no 2xx and nothing committed (the converse: `WriteRound.SingleFate`, `WriteRound.BatchSuccessIsKept`) |
| `WriteRound.SingleFate` | TDHSocket/tdh_socket_request_thread.cpp:119-214 | the reply and the committed changes of a single request in all cases: closed, late, without a table, without a lock, gone, undone and served |
| `WriteRound.SuccessIsKept` | TDHSocket/tdh_socket_request_thread.cpp:119-214 | a request that succeeds with its table open and locked, in a round that is not undone, is reported as 200 and committed |
| `WriteRound.BatchSuccessIsKept` | TDHSocket/tdh_socket_dbcontext.cpp:1041-1128 | a batch of successes is reported as 207 with 200 for each and committed whole, unless the transaction is undone; it does not itself ask for that |
| `WriteRound.WhyUndone` | TDHSocket/tdh_socket_request_thread.cpp:179-198 | a group is undone exactly if it has its lock and the commit fails or one of its batches has a request that fails |
| `WriteRound.RefusedButKept` | TDHSocket/tdh_socket_dbcontext.cpp:892-991 | what a round commits of a refused single request: all changes up to the error, exactly if its table was open and locked and nothing undoes the transaction, else none |
| `WriteRound.RefusedButKeptExample` | TDHSocket/tdh_socket_dbutil.hpp:657-735 | a refused update that is committed in part |
| `WriteRound.RefusedRound` | TDHSocket/tdh_socket_request_thread.cpp:119-214 | a thread that gets such an update reports the failure and has committed the change, with group commit and without |
| `WriteRound.UndoneKeepsNothing` | TDHSocket/tdh_socket_request_thread.cpp:179-198 | a group that is rolled back leaves nothing committed and reports no success |
| `WriteRound.Context.Finish` | TDHSocket/tdh_socket_dbutil.hpp:385-472 | the transaction is committed unless an error was noted or the commit fails; otherwise nothing of it is |
| `WriteRound.Context.DoOp` | TDHSocket/tdh_socket_dbcontext.cpp:480-507 | inside a group or a batch a request only adds to the transaction; alone it meets the fate of its own commit, which `WriteRound.SingleFate` states case by case |
| `WriteRound.Context.DoBatch` | TDHSocket/tdh_socket_dbcontext.cpp:1041-1068 | one failure marks the transaction for rollback, the rest still runs, unless the client is gone |
| `WriteRound.Context.DoBatchWithLock` | TDHSocket/tdh_socket_dbcontext.cpp:1070-1128 | a batch with its own lock is committed and reported whole or not at all |
| `WriteRound.Context.Process` | TDHSocket/tdh_socket_handler.cpp:213-262 | one request of a round: closed, late, single or batch |
| `WriteRound.Context.Round` | TDHSocket/tdh_socket_request_thread.cpp:119-214 | the round commits exactly the changes, and sends exactly the replies, that the fates of its requests say |
| `StreamHandshake.StepKeeps` | TDHSocket/tdh_socket_encode_response.hpp:224-254 | every step of every thread keeps the invariant of mutexes, flags and lists (packets are accounted for in `StreamHandshake.NothingIsLost`) |
| `StreamHandshake.NothingIsLost` | TDHSocket/tdh_socket_encode_response.hpp:224-254 | in every run, what has been written to the connection, what is in the output list, what the IO thread holds and what is queued is, in this order, exactly what the workers have handed over, each once |
| `StreamHandshake.AllIsSent` | TDHSocket/tdh_socket_encode_response.hpp:224-254 | when the IO thread rests with nothing queued, everything handed over has been written, in that order |
| `StreamHandshake.HandshakeIsSafe` | TDHSocket/tdh_socket_handler.cpp:82-101 | in every interleaving of any number of workers with the IO thread, the abort is unreachable, a worker that fills its buffer has nothing in the output list, and workers are woken only once that list is empty |
| `StreamHandshake.RefillAfterDrain` | TDHSocket/tdh_socket_encode_response.hpp:224-254 | a worker goes on to refill its buffer only when the buffer has left the output list, and does not when the connection was closed |
| `StreamHandshake.SleeperIsListed` | libeasy/io/easy_connection.c:1416-1435 | the request of a sleeping worker is in exactly one of the lists that the IO thread has yet to go through |
| `StreamHandshake.NoLostWakeup` | libeasy/io/easy_connection.c:1021-1039 | when the IO thread rests, every sleeping worker has an event pending or bytes still to be written |
| `StreamHandshake.NobodyIsStuck` | TDHSocket/tdh_socket_encode_response.hpp:224-254 | in every state of a run, a worker that does not sleep and has not ended can go on, or waits for a mutex that the IO thread holds and can release; and the IO thread can go on, or waits for one that a worker holds and can release |
| `StreamHandshake.IoComesToRest` | libeasy/io/easy_connection.c:1021-1039 | once at work, the IO thread rests after a number of steps of its own that is bounded by what it has taken up, whatever the workers do in between |
| `StreamHandshake.MutexIsAlive` | TDHSocket/tdh_socket_handler.cpp:352-370 | the IO thread locks a worker's mutex only while the worker sleeps inside `send_stream` |
| `StreamResponse.Writer.constructor` | TDHSocket/tdh_socket_encode_response.hpp:109-134 | the buffer holds the header and is never smaller than it |
| `StreamResponse.Writer.SendStream` | TDHSocket/tdh_socket_encode_response.hpp:224-254 | a full buffer becomes a 202 packet whose length is the buffer's, and the buffer starts again |
| `StreamResponse.Writer.WriteData` | TDHSocket/tdh_socket_encode_response.hpp:256-299 | the fill-and-flush loop appends exactly the length and the bytes to the stream and leaves the buffer non-empty |
| `StreamResponse.Writer.WriteRow` | TDHSocket/tdh_socket_dbutil.hpp:604-633 | a row is written cell by cell: NULL as nothing, the empty string as one zero byte |
| `StreamResponse.Respond` | TDHSocket/tdh_socket_encode_response.hpp:109-299 | for any rows and any buffer size: all packets are 202 except a final 200, each has the positive length of its payload and fits the buffer, all but the last are full, and the payloads are header and rows |
| `StreamResponse.ParseResponse` | python/src/response.py:19-45 | the client's loop computes `StreamResponse.Parse` |
| `StreamResponse.DoResponse` | python/src/statement.py:36-64 | 202 packets are collected up to the first 200, whose data completes the answer; any other code ends it |
| `StreamResponse.ParseSeen` | python/src/response.py:19-45 | what arrives of any rows: the same rows with a single zero byte read as the empty string, and none if there are no fields |
| `StreamResponse.RowsArrive` | python/src/response.py:19-45 | the client gets the rows back exactly when no cell is a single zero byte and a table without fields has no rows |
| `StreamResponse.ZeroByteIsLost` | python/src/response.py:38-39 | a cell of one zero byte comes back empty |
| `StreamResponse.Query` | TDHSocket/tdh_socket_dbutil.hpp:604-633 | server and client together, for any buffer size |
| `RequestCodec.RoundTrip` | python/src/request.py:16-192 | every request whose numbers fit their words, whatever else is wrong with it, meets its verdict in either decoder: it is returned with all bytes consumed and PRIMARY for a missing index, refused with a given error, or makes the decoder go past its arrays |
| `RequestCodec.AcceptedMeets` | TDHSocket/tdh_socket_decode_request_binary.cpp:71-342 | a request is accepted exactly if it meets what the server demands: a table with its fields, flags that exist, one value for each field, usable keys and room for them |
| `RequestCodec.ClientVerdict` | python/src/request.py:16-192 | for a request that the client lets through, only its keys and filters decide |
| `RequestInverse.DecodedIs` | TDHSocket/tdh_socket_decode_request_binary.cpp:71-342 | whatever bytes a decoder accepts are the encoding of a request, and it returns what there is to keep of that request |
| `RequestInverse.AcceptsExactly` | TDHSocket/tdh_socket_decode_request_binary.cpp:36-342 | the bytes that a decoder accepts are exactly the encodings of the requests that meet the demands |
| `RequestCodec.RoomEnough` | TDHSocket/tdh_socket_decode_request_binary_v2.cpp:138-205 | with at most ten parts in a key and room for the keys (at most ten, or memory granted to the second decoder) the verdict is acceptance exactly when every key has a part and a range has two keys, and never an overrun |
| `RequestClient.CallRoundTrip` | python/src/request.py:16-192 | the same from the strings that the caller passes, each sent with a zero byte after it or, if empty, not at all |
| `RequestClient.SentOnce` | python/src/request.py:16-31 | different requests are different on the way |
| `RequestCodec.EncodeOnce` | python/src/request.py:16-192 | two requests of one kind with the same bytes are the same, usable or not, with or without an index |
| `RequestClient.BytesTellRequests` | python/src/request.py:16-192 | the same from the strings that the caller passes |
| `RequestClient.RefusedByServer` | python/src/request.py:104-110 | a key without parts and a range with one key pass the checks of the client and are refused by both decoders |
| `RequestClient.BeyondTheArrays` | TDHSocket/tdh_socket_decode_request_binary.cpp:143-165 | eleven keys overrun the first decoder and are accepted by the second if it gets the memory; a key of eleven parts overruns both |
| `RequestCodec.AcceptedIsPrefixFree` | TDHSocket/tdh_socket_decode_request_binary.cpp:71-342 | once a decoder accepts some bytes it refuses every strict prefix and every strict extension of them |
| `RequestCodec.ReadRequestMore` | libtdhs/util.hpp:85-107 | more input never changes what has been read |
| `RequestCodec.VersionsAgree` | TDHSocket/tdh_socket_decode_request_binary_v2.cpp:71-378 | on every input with at most ten keys, well-formed or not, the two decoders agree |
| `RequestDecoder.Reader.U32` | libtdhs/util.hpp:93-99 | reading a word moves the position by four or fails |
| `RequestDecoder.Reader.String` | libtdhs/util.hpp:101-107 | reading a string checks length and terminator |
| `RequestDecoder.Reader.ReadTableInfo` | TDHSocket/tdh_socket_decode_request_binary.cpp:71-104 | the cursor code computes `RequestCodec.ReadTable` |
| `RequestDecoder.Reader.Filters` | TDHSocket/tdh_socket_decode_request_binary.cpp:107-136 | the loop stores the first 256 filters of `RequestCodec.ReadFilters` and checks their flags |
| `RequestDecoder.Reader.Keys` | TDHSocket/tdh_socket_decode_request_binary_v2.cpp:145-181 | the loop stores as many keys of `RequestCodec.ReadKeys` as there is room for |
| `RequestDecoder.Reader.ReadGet` | TDHSocket/tdh_socket_decode_request_binary.cpp:138-189 | the cursor code computes `RequestCodec.ReadFind`, checks included |
| `RequestDecoder.Reader.Updates` | TDHSocket/tdh_socket_decode_request_binary.cpp:213-243 | the loop computes `RequestCodec.ReadUpdates` |
| `RequestDecoder.DecodeRequest` | TDHSocket/tdh_socket_decode_request_binary.cpp:36-69 | the decoders compute `RequestCodec.Decode` on any bytes, errors and array overruns included |
| `PacketFraming.FrameBack` | libtdhs/tdh_socket_protocol.cpp:38-131 | an encoded packet is decoded to itself, whatever follows it |
| `PacketFraming.FrameExactly` | libtdhs/tdh_socket_protocol.cpp:38-131 | the bytes in which a packet is recognised are exactly its encoding and what follows |
| `PacketFraming.RejectExactly` | libtdhs/tdh_socket_protocol.cpp:47-128 | a connection is given up exactly over another magic code, a size beyond the limit, or a complete batch whose chain is broken |
| `PacketFraming.BatchBack` | libtdhs/tdh_socket_protocol.cpp:91-128 | a batch is taken apart into the packets it was made of |
| `PacketFraming.ChainExactly` | libtdhs/tdh_socket_protocol.cpp:91-128 | a batch is taken apart exactly if as many packets as it announces follow one another, whatever their magic codes, sizes and the bytes behind them |
| `PacketFraming.ChainIs` | libtdhs/tdh_socket_protocol.cpp:91-128 | and then into those packets, without their reserved words |
| `PacketFraming.PartialFrame` | libtdhs/tdh_socket_protocol.cpp:47-76 | every strict prefix of a packet is recognised as incomplete, and from the header on the missing bytes are counted right |
| `PacketFraming.FrameMore` | libtdhs/tdh_socket_protocol.cpp:38-131 | more input changes no verdict but the one that there is too little, and that one, once the number of bytes to wait for is known, exactly when they have come |
| `PacketFraming.FramesAppend` | libtdhs/tdh_socket_protocol.cpp:38-131 | the packets of two pieces are those of the first and those of what it left over followed by the second |
| `PacketFraming.LinkChain` | libtdhs/tdh_socket_protocol.cpp:91-128 | the loop over a batch computes `PacketFraming.Chain` |
| `PacketFraming.TdhsDecode` | libtdhs/tdh_socket_protocol.cpp:38-131 | the decoder computes `PacketFraming.DecodeFrame`, and refuses a complete packet for which there is no memory |
| `Wire.Be32Bytes` | libtdhs/util.hpp:93-99 | words are sent with the most significant byte first |
| `PacketFraming.Connection.ReceiveAll` | libtdhs/tdh_socket_protocol.cpp:38-131 | however a stream is cut, the same packets come out of it and it breaks off at the same one |
| `LocalTime.DivIsFloor` | libeasy/util/easy_time.c:28 | the `DIV` macro rounds down for either sign |
| `LocalTime.YearsApart` | libeasy/util/easy_time.c:29 | the leap-year formula gives the distance of any two years as the calendar counts it |
| `LocalTime.YearRound` | libeasy/util/easy_time.c:60-69 | one round of the year loop keeps the day and lowers a measure, for either sign |
| `LocalTime.StepsOver` | libeasy/util/easy_time.c:60-69 | a guess looking forward is never too early and one looking back never too late, and each steps over the year it looks for exactly when the leap days on the way say so |
| `LocalTime.StepsOver1973` | libeasy/util/easy_time.c:60-69 | looking for the last day of 1973, the first guess is 1974 |
| `LocalTime.YearOf` | libeasy/util/easy_time.c:58-69 | the year loop ends at the year and day of the year |
| `LocalTime.MonthOf` | libeasy/util/easy_time.c:77-85 | the month loop ends at the month and day of the month |
| `LocalTime.DateIsUnique` | libeasy/util/easy_time.c:16-87 | no two dates are the same second |
| `LocalTime.EasyLocaltime` | libeasy/util/easy_time.c:16-87 | for every time and zone offset, the one Gregorian date, time, weekday and day of the year that is `t - timezone` seconds after 1970, or 0 exactly when its year does not fit an int |
| `BloomRotation.AddedKeeps` | TDHSocket/tdh_socket_optimize.cpp:213-261 | one request keeps the filters nested in rotation order and is known to the current filter |
| `BloomRotation.AbsentEverywhere` | TDHSocket/tdh_socket_optimize.cpp:243-259 | a hash that the current filter lacks is in no filter, so the break on a known hash can only fire at the current one |
| `BloomRotation.AddedRemembers` | TDHSocket/tdh_socket_optimize.cpp:225-239 | what the current filter knows after a request, with and without a rotation |
| `BloomRotation.AddedReaches` | TDHSocket/tdh_socket_optimize.cpp:213-261 | each filter after a request: what rotation left in it, and the hash if it is new and every filter from the current one up to it holds more than its share |
| `BloomRotation.RunKeeps` | TDHSocket/tdh_socket_optimize.cpp:213-261 | the same after any run from empty filters |
| `BloomRotation.SetBit` | libtdhs/tdh_socket_bloom_filter.c:43-45 | setting a bit adds exactly that number to the members of the bit array |
| `BloomRotation.Filter.AddHash` | TDHSocket/tdh_socket_optimize.cpp:63-71 | a new hash sets its bit and raises the count, so the count is the number of bits set |
| `BloomRotation.Filter.Check` | libtdhs/tdh_socket_bloom_filter.c:47-49 | a hash is found exactly when its bit is set |
| `BloomRotation.Filter.Reset` | TDHSocket/tdh_socket_optimize.cpp:38-44 | a reset filter knows nothing |
| `BloomRotation.Optimizer.constructor` | TDHSocket/tdh_socket_optimize.cpp:83-116 | all filters of a new group are empty |
| `BloomRotation.Optimizer.AddOptimize` | TDHSocket/tdh_socket_optimize.cpp:213-261 | the updating code computes `BloomRotation.Added` |
| `BloomRotation.Optimizer.IsQuick` | TDHSocket/tdh_socket_optimize.cpp:171-183 | a read is quick exactly when the current filter knows its hash |
| `IndexScan.FillFilterBuf` | TDHSocket/tdh_socket_dbutil.hpp:179-216 | the buffer holds the filter values that are not NULL, one after another, with one byte to spare |
| `IndexScan.FilterRecord` | TDHSocket/tdh_socket_dbutil.hpp:537-595 | each value is read where it was written, and a record passes exactly when all filters hold, NULL before everything |
| `IndexScan.FlagLaws` | TDHSocket/tdh_socket_dbutil.hpp:561-579 | the six comparisons are each other's complements and unions |
| `IndexScan.NullLaws` | TDHSocket/tdh_socket_dbutil.hpp:552-556 | NULL is equal to NULL and before everything else; other values compare as the field does |
| `IndexScan.WindowIs` | TDHSocket/tdh_socket_dbcontext.cpp:759-876 | skipping and counting down row by row is dropping `start` rows and taking `limit`, where 0 means all |
| `IndexScan.OutcomeIs` | TDHSocket/tdh_socket_dbcontext.cpp:876-886 | a read error is reported exactly when the scan gets that far |
| `IndexScan.InReadsAll` | TDHSocket/tdh_socket_dbcontext.cpp:811-832 | without errors, an IN reads the records of all its keys, key after key |
| `IndexScan.ScanReads` | TDHSocket/tdh_socket_dbcontext.cpp:811-832 | with errors too: an IN reads whole keys up to the first that ends with an error, a plain read its one key |
| `IndexScan.DoFind` | TDHSocket/tdh_socket_dbcontext.cpp:759-886 | the processed rows are drop-start, take-limit of the rows that are not deleted and pass the filters, over all keys of an IN, up to an error |
| `TableCache.SearchIsRight` | libeasy/util/easy_hash.c:92-112 | searching the chain of a key finds the handle of a name, if there is one, even when keys collide |
| `TableCache.AddHolds` | libeasy/util/easy_hash.c:45-69 | adding a handle keeps every handle in the chain of its key, once |
| `TableCache.FlatLists` | libeasy/util/easy_hash.h:42-44 | going through all chains meets every handle once |
| `TableCache.Context.Find` | libeasy/util/easy_hash.c:92-112 | the search loop returns the handle of the name |
| `TableCache.Context.Restore` | TDHSocket/tdh_socket_dbcontext.cpp:303-325 | the first open of a round brings back exactly the tables kept |
| `TableCache.Context.OpenTable` | TDHSocket/tdh_socket_dbcontext.cpp:295-362 | a request gets the handle of its own name; MySQL is asked only for a name that the thread does not have open, and a refusal is noted; `opened_table_num` is the number of handles in the hash |
| `TableCache.Context.LockTables` | TDHSocket/tdh_socket_dbcontext.cpp:366-402 | with group commit, the locked tables are exactly those in use, each once, with up to 128 tables and with more |
| `TableCache.BatchTables` | TDHSocket/tdh_socket_dbcontext.cpp:1070-1107 | the list of tables that a batch locks for itself has each table of its requests exactly once, although it is searched only where a filter bit is set |
| `TableCache.Context.LockAll` | TDHSocket/tdh_socket_dbcontext.cpp:366-411 | while a request runs, no table is locked twice and all its own are locked; without group commit no others are |
| `TableCache.Context.CloseTables` | TDHSocket/tdh_socket_dbcontext.cpp:443-468 | the tables are kept when caching is on and they are few enough, otherwise all are closed; a round without tables keeps what was kept |
| `TableCache.Context.CloseCached` | TDHSocket/tdh_socket_dbcontext.cpp:470-478 | nothing stays open or kept |
| `TableCache.Context.Round` | TDHSocket/tdh_socket_request_thread.cpp:119-178 | over a round with group commit or without: a packet has a table exactly if its name was kept from before, or opened for it or a packet before it, and then it has the one handle of its own name; the tables of the round are exactly those; each request runs with its tables locked, and no open table is lost |
| `TableCache.WhoHasTables` | TDHSocket/tdh_socket_dbcontext.cpp:295-362 | which packets of a round have a table, told by what was kept and what was asked for |
| `TableCache.Context.WakeUp` | TDHSocket/tdh_socket_request_thread.cpp:216-273 | the same for a wake-up of the thread; nothing stays open while caching is off or after a table could not be opened; otherwise the tables of the round are kept if they are few enough |

## Left out

- Spin locks, `libeasy/memory/easy_mem_pool.c`, `easy_mem_slab_realloc` beyond its free path, and the binary search that picks a cache for a size: page and slab operations are atomic steps of one run.
- PageAllocator.ZoneGeometry: does not model a failing `memalign` or the 32-bit overflow of zones above 2G, which the allocator does not support.
- PageAllocator.Allocator.constructor: has the same limit of 2G on the requested size.
- PageZone.Free: does not model a free of a page inside a block, which the flags do not detect.
- PageAllocator.Allocator.FreePages: leaves out the same pages.
- SlabCache.MgrStep: clients free only objects they hold.
- Periodic timers, `reheap` and watchers other than timers.
- EventLoop.Loop.TimeUpdate: does not model the real-time clock kept beside the monotonic one, which only periodic timers read.
- EventLoop.Loop.InvokePending: does not model callbacks that change the loop while it invokes them.
- EventLoop.Loop.TimerStart: does not model the growth of the heap array; times are exact numbers, without rounding.
- HttpExecute.Executor.Execute: does not model callbacks that return non-zero, nor what the read-only fields hold after an error or an undefined byte; a method name read past its end or a length of 2^63 and more is an undefined outcome about which only the position is stated.
- The build of the HTTP parser without strict checks, and `easy_http_merge_path`.
- WriteRound.Context.Round: does not model failing allocations of reply buffers or nested batches; storage engine, lock and commit answers are inputs.
- StreamHandshake.StepKeeps: does not model spurious wake-ups, reference counts, or other connections of the same IO thread, which only delay its steps.
- StreamResponse.Respond: does not model the twenty header bytes of a packet, which `PacketFraming` covers, nor a connection that is closed in the middle, which `StreamHandshake` covers.
- StreamResponse.DoResponse: does not model packet ids and the error code inside an error packet.
- RequestClient.CallRoundTrip: does not model character encoding and lower-casing in the client; strings are the encoded bytes.
- RequestDecoder.DecodeRequest: does not model BSON requests; memory for more than ten keys is granted or not by an input.
- PacketFraming.TdhsDecode: does not model time stamps.
- PacketFraming.Connection.ReceiveAll: does not model failing allocation.
- LocalTime.EasyLocaltime: does not model overflow of 64-bit intermediate values, which no `time_t` with a real zone offset reaches.
- BloomRotation.Optimizer.AddOptimize: does not model concurrent requests or a rotation counter beyond 64 bits; hash values are inputs.
- IndexScan.DoFind: does not model kills, key preparation, row locks or a failing row handler; index contents and field comparison are inputs.
- TableCache.Context.OpenTable: does not model failing allocation; a table opens under the name it was asked for, and names are compared as strings.
- Thread dispatch, throttling, group-commit limits, row cache, shaking hands, permissions, plugin variables and status output.
