# A model of the storage prototype's hard parts

This project models, in Dafny, the parts of the deduplicating storage prototype (client, server and their shared
utilities) whose correctness depends on state kept across functions or threads, and proves what they promise.

- **Queues between threads** (`RingBlock`, `SpscQueue`, `SpscInvariant`, `SpscTheorems`, `SpscCalls`,
  `SpscZeroSize`): the
  single-producer single-consumer ring of ring buffers that carries chunks and containers, with the shutdown protocol of
  `MessageQueue` and its draining loop.
- **The multi-consumer queue** (`FreeList`, `FreeListProof`, `FreeListCalls`, `OptimisticDequeue`, `DequeueCalls`,
  `BlockIndex`, `BlockIndexProof`, `SubQueue`): the reference-counted free list, the optimistic dequeue counters, and the
  circular block index of one producer, the last two also as one machine.
- **Chunking and the wire** (`Gear`, `Chunker`, `Bytes`, `Wire`): FastCDC with its windowed reader, the Gear hash, batching,
  packing and unpacking.
- **The restore cache** (`Lru`, `LruHistory`, `ReadCache`): the LRU map and the pool of container buffers in front of the
  disk.
- **Parsers and persistence** (`Json`, `JsonParser`, `JsonRoundTrip`, `JsonText`, `Http`, `HttpMessages`, `Database`).
- **Sessions** (`Session`, `SessionProof`, `SessionOutcome`): clients, server threads, their workers and the
  per-client lock table.
- **Container names** (`ContainerName`).

`Bits`, `Common` and `Traces` hold word arithmetic, shared helpers and reasoning about runs.

Concurrent code is a state machine whose steps are the atomic operations of the source under sequential consistency: loads,
stores, compare-and-swap and fetch-and-add are steps, fences are not. In `BlockIndex` the enqueue that starts a block folds
some of them into one step: the 32 flag loads of `is_empty`, the store of `tailBlock` and the 32 stores of `reset_empty` (or
those of making a block). That is harmless: a flag is only ever set while its block is in use, by the one consumer of its
element, so a block whose flags were all seen set stays so; no consumer touches it, or a new block, until its entry and then
the tail are published, which are steps of their own; and `tailBlock` is read by the producer alone.

A theorem about runs holds for every finite sequence of states in which each follows from the one before by some thread's
step. Sequential code that updates variables is a method with loops, proved against functions or predicates whose own
properties are the theorems. Session encryption is an inverse pair that keeps lengths, a connection is a reliable queue in
each direction, a file is a sequence of bytes.

## Findings

- A `ReaderWriterQueue` constructed for size 0 gets blocks of one slot; with allocating enqueues the consumer's assert can
  fail. For sizes from 2^63 on the rounding wraps and it gets a block of no slots (`SpscZeroSize.AssertsIffSize`).
- The container cache is right only when the configured pool size is the LRU limit of 64 written into the class
  (`ReadCache.CacheRightIff`). A smaller pool returns wrong bytes, a larger one is overrun.
- A fingerprint index with an empty key is cut short on reload (`Database.FpRoundTripIff`).
- JSON keys are printed as stored but stored escaped when parsed, so only keys in escaped form survive; a bare integer loads
  as null (`JsonRoundTrip.LoadOfDump`).
- Of the well-formed HTTP responses, exactly those are read as sent (`HttpMessages.ReadRightIff`) that have a non-empty
  ASCII reason phrase and a code from 100 on; version numbers and content lengths that fit an int; one blank before each
  header value, none behind it, no tab; chunk extensions (one at most) and trailers of letters, digits and blanks; and no
  body that ends with the connection. `HttpMessages.Readable` writes this out. A content length of 2^31 or more, for one,
  does not survive `atoi`, and `Content-Length:0` without a blank is a parsing error.
- An average chunk size of 1 passes the start-up checks, but its masks do not nest (`Chunker.SettingsAreValid`).
- At the shipped chunk sizes the normal size is below the minimum, so the first mask is never used
  (`Chunker.ConfiguredCut`, `Chunker.FirstMaskIsUsedIff`).
- A dequeue of the multi-consumer queue can fail beside an element that nobody takes, while another one has drawn a ticket
  too late and not yet given it back (`DequeueCalls.FailureBesideElement`); alone it cannot
  (`DequeueCalls.LoneFailureSawEmpty`).
- The JSON parser keeps an escape of four hexadecimal digits as it is written (`JsonText.PieceMeaning`).
- A batch size above 262080 chunks overflows the 32-bit size field of the message header (`Wire.BatchFitsIff`).
- After 2^63 failed dequeues a consumer that kept an old overcommit count can take an index that is not published; up to
  there it cannot (`OptimisticDequeue.SafeIffCalm`).
- The comment in the queue's source asks for a division that keeps the sign; the code divides unsigned numbers, and is right
  all the same because the index size is a power of two (`BlockIndexProof.LookupExact`).

## Model

| member | source | states |
|---|---|---|
| Bits.CeilToPow2 | Prototype/include/messageQueue/readerwriterqueue.h:654-666 | For every word, the bit-smearing loop returns the least power of two not below it, and 0 for 0 and for words above 2^63. |
| RingBlock.MaskedSucc | Prototype/include/messageQueue/readerwriterqueue.h:553-566 | For a power-of-two block, masking `index + 1` is stepping round the ring. |
| RingBlock.MaskedDist | Prototype/include/messageQueue/readerwriterqueue.h:493-506 | For a power-of-two block, the masked word difference `tail - front` is the number of elements, also when it wraps below zero. |
| SpscQueue.Construct | Prototype/include/messageQueue/readerwriterqueue.h:105-158 | The constructor builds a ring of empty blocks, linked in a loop, of the count and size the capacity formula asks for, for every size a word holds: from 2^63 on, one block of no slots. |
| SpscInvariant.ProducerInv | Prototype/include/messageQueue/readerwriterqueue.h:535-636 | Every atomic step of `inner_enqueue` keeps the ring invariant: blocks strictly between front and tail full, blocks from behind tail to before front empty, shadow indices stale but safe, contents equal to what was enqueued and not dequeued. |
| SpscInvariant.ConsumerInv | Prototype/include/messageQueue/readerwriterqueue.h:285-376 | Every atomic step of `try_dequeue`, of the size query and of the draining loop keeps the same invariant. |
| SpscTheorems.FifoOrder | Prototype/include/messageQueue/readerwriterqueue.h:285-376 | In every interleaving the dequeued sequence is a prefix of the enqueued one, and the rest is exactly what the blocks hold: along the links from front to tail block, each block's data between its indices. |
| SpscTheorems.FailedDequeueSawEmpty | Prototype/include/messageQueue/readerwriterqueue.h:326-376 | A `try_dequeue` that returns false, from whatever position, has an instant inside the call at which the queue was empty. |
| SpscTheorems.FailedEnqueueSawFull | Prototype/include/messageQueue/readerwriterqueue.h:552-636 | Promised capacity: an enqueue that ends without adding, from whatever position, has an instant inside the call at which at least `size` elements were held. |
| SpscTheorems.SizesArePowers | Prototype/include/messageQueue/readerwriterqueue.h:105-158 | With a power-of-two maximum, every block ever linked has a power-of-two size, so the masks are sound. |
| SpscTheorems.ShutdownLosesNothing | Prototype/src/Client/restoreWriter.cc:55-78 | A loop that tests `done_`, then emptiness, then pops, exits only after the producer closed and every element was handled once, in order. |
| SpscTheorems.BlocksDouble | Prototype/include/messageQueue/readerwriterqueue.h:602-625 | Over every run the size of the next block is that of the first ones doubled with each block linked since, until it reaches the maximum. |
| SpscCalls.EnqueueCall | Prototype/include/messageQueue/readerwriterqueue.h:535-636 | From its first step to its last, in every interleaving, an enqueue adds exactly its argument; only a call that may not allocate can end without adding, and then the queue held at least `size` elements at an instant of the call. |
| SpscCalls.DequeueCall | Prototype/include/messageQueue/readerwriterqueue.h:285-376 | From its first step to its last, a dequeue takes the oldest element and returns true, or takes nothing, returns false, and the queue was empty at an instant of the call. |
| SpscCalls.WaitFree | Prototype/include/messageQueue/readerwriterqueue.h:285-376 | However the other thread is scheduled, an enqueue ends after at most six steps of its own and a dequeue after at most nine. |
| SpscCalls.ShutdownEnds | Prototype/src/Client/restoreWriter.cc:55-78 | Once the producer has closed, the draining loop ends after finitely many steps with every element handled; the size it tests is exact. |
| SpscZeroSize.ZeroSizeBreaks | Prototype/include/messageQueue/readerwriterqueue.h:326-352 | A queue constructed for zero elements has a run, with allocating enqueues, that reaches a failing assert of the consumer. |
| SpscZeroSize.HugeSizeBreaks | Prototype/include/messageQueue/readerwriterqueue.h:105-158 | A queue constructed for 2^63 elements or more starts with a block that has no slot. |
| SpscZeroSize.AssertsIffSize | Prototype/include/messageQueue/readerwriterqueue.h:572-601 | In every reachable state indices lie inside their blocks, the block ahead is empty for the producer and the one ahead non-empty for the consumer (the two asserts), if and only if the queue was constructed for at least one element and fewer than 2^63. |
| FreeListProof.NextInv | Prototype/include/messageQueue/concurrentqueue.h:1399-1478 | Every step of any number of threads in `add`, `try_get` and `add_knowing_refcount_is_zero` keeps the free-list invariant. |
| FreeListProof.NeverHandedOutTwice | Prototype/include/messageQueue/concurrentqueue.h:1413-1478 | Over every run, two `try_get` calls return the same node only with an `add` of it in between. |
| FreeListProof.CountsAreExact | Prototype/include/messageQueue/concurrentqueue.h:1399-1478 | Over every run, a node's masked count is the list's, current adder's or taker's reference plus the getters in flight, where such a thread exists; the next pointers from the head visit each listed node once and no other; and the source's assert holds. |
| FreeListProof.QuiescentConservation | Prototype/include/messageQueue/concurrentqueue.h:1399-1478 | With all threads idle, each node is either with a caller at count 0 or on the list at count 1: none is lost. |
| FreeListCalls.GetOrEmpty | Prototype/include/messageQueue/concurrentqueue.h:1413-1451 | Over every run, a `try_get` that ends hands out the node it took off the list, or returns null and the list was empty at an instant of the call. |
| FreeListCalls.LoneGetSucceeds | Prototype/include/messageQueue/concurrentqueue.h:1413-1451 | With no other thread under way a `try_get` takes the head of a non-empty list in six steps. |
| FreeListCalls.LoneAddSucceeds | Prototype/include/messageQueue/concurrentqueue.h:1399-1411 | With no other thread under way an `add` puts its node at the head of the list in five steps. |
| OptimisticDequeue.CircularLessIsLess | Prototype/include/messageQueue/concurrentqueue.h:430-441 | The wrapping comparison of words is the order of the counts they stand for, while these are less than half the range apart. |
| OptimisticDequeue.WindowIsExact | Prototype/include/messageQueue/concurrentqueue.h:430-441 | Of two counts less than a word apart, exactly those less than half a word apart compare correctly. |
| OptimisticDequeue.WinsBelowTail | Prototype/include/messageQueue/concurrentqueue.h:1925-1945 | Tickets that pass the second test never outnumber the published elements. |
| OptimisticDequeue.NotFarAhead | Prototype/include/messageQueue/concurrentqueue.h:1901-1998 | A deciding consumer's count is ahead of the tail by less than the failed dequeues and the dequeues under way together, however stale its copies. |
| OptimisticDequeue.NeverOverclaims | Prototype/include/messageQueue/concurrentqueue.h:1901-1998 | For any number of dequeuers and any order of the optimistic and overcommit increments, an index is taken from `headIndex` only below `tailIndex`, so all taken indices are distinct and published, as long as the failed dequeues and the other threads number at most 2^63. |
| OptimisticDequeue.SafeIffCalm | Prototype/include/messageQueue/concurrentqueue.h:1901-1998 | No run overclaims in which failed dequeues and dequeues under way never number more than c, if and only if c is at most 2^63 + 1; beyond it a run of three threads takes an index that is not published. |
| OptimisticDequeue.OptimisticCountIsConserved | Prototype/include/messageQueue/concurrentqueue.h:1901-1998 | With no dequeue under way, optimistic count minus overcommit is exactly the head index again. |
| DequeueCalls.FailedDequeueSpokenFor | Prototype/include/messageQueue/concurrentqueue.h:1901-1998 | In every interleaving, the elements published at an instant of a failing dequeue do not outnumber those taken, the other dequeues under way and the tickets given back during the call, at instants of the call. |
| DequeueCalls.LoneFailureSawEmpty | Prototype/include/messageQueue/concurrentqueue.h:1901-1998 | A dequeue that no other one overlaps with a ticket in hand fails only if the queue was empty at an instant of it. |
| DequeueCalls.FailureBesideElement | Prototype/include/messageQueue/concurrentqueue.h:1901-1998 | With other dequeues under way, a call can fail although an element that nobody takes is there at every instant of it: a run of three threads. |
| SubQueue.EveryClaimDelivers | Prototype/include/messageQueue/concurrentqueue.h:1795-1998 | Counters and block index in one machine, with no guard on taking an index: each consumer the counters let through gets the element enqueued under its index, no element is delivered twice, and with no dequeue under way every index taken has been delivered. |
| SubQueue.ClaimFindsBlock | Prototype/include/messageQueue/concurrentqueue.h:1954-1963 | In the joined machine, whichever index array a consumer loaded and however the indices have wrapped, the slot it computes holds the block of the index that the counters gave it. |
| SubQueue.NobodyStuck | Prototype/include/messageQueue/concurrentqueue.h:1513-1552 | In the joined machine no guard of a producer or consumer step ever fails: nobody reads or writes outside an index or a block, and an empty flag about to be set is not set (the source's assert). |
| SubQueue.EnqueueCanSucceed | Prototype/include/messageQueue/concurrentqueue.h:1795-1898 | From every position in an enqueue there is a way to its end that publishes the value, unless the index is full at its largest size. |
| SubQueue.DrainedIsReused | Prototype/include/messageQueue/concurrentqueue.h:1800-1824 | With the producer's oldest block drained, an enqueue that needs a block can take that one, without new memory. |
| BlockIndexProof.LookupExact | Prototype/include/messageQueue/concurrentqueue.h:1954-1963 | The slot computed with unsigned division and a power-of-two mask is the slot of the block that holds the index, for every wrap-around. |
| BlockIndexProof.NewIndexOk | Prototype/include/messageQueue/concurrentqueue.h:2301-2338 | The doubled index copied from a full one has the entries of all blocks of the ring, in the slots that lookups will compute. |
| BlockIndexProof.ProducerKeeps | Prototype/include/messageQueue/concurrentqueue.h:1795-1898 | Every step of a single-element enqueue (reuse of an emptied block, growth of the index, new block, entry, front, element, tail) keeps the block-index invariant, for consumers holding a current or a replaced index. |
| BlockIndexProof.ConsumerKeeps | Prototype/include/messageQueue/concurrentqueue.h:1946-1988 | Every step of a dequeue after its claim keeps the invariant. |
| BlockIndexProof.LookupFindsBlock | Prototype/include/messageQueue/concurrentqueue.h:1954-1963 | Over every run, the slot a consumer computes holds the block whose base is its index rounded down to the block size. |
| BlockIndexProof.EachIndexDeliversOnce | Prototype/include/messageQueue/concurrentqueue.h:1946-1988 | Over every run, the value taken under an index is the one enqueued under it, no index is taken twice, and with no dequeue under way every claimed index has been taken. |
| BlockIndexProof.ConsumerNeverStuck | Prototype/include/messageQueue/concurrentqueue.h:1513-1552 | No consumer step reads outside an index or a block, and the empty flag it sets was not set before (the source's assert). |
| BlockIndexProof.ProducerNeverStuck | Prototype/include/messageQueue/concurrentqueue.h:1795-1898 | No producer step writes outside an index or a block. |
| Gear.ClosedForm | Prototype/src/Client/chunker.cc:577-597 | The hash of n bytes is the floor of the sum of their table values weighted by halving powers. |
| Gear.OldBytesHardlyMatter | Prototype/src/Client/chunker.cc:577-597 | Bytes more than 32 positions back change the hash by at most one. |
| Chunker.SettingsAreValid | Prototype/src/Client/chunker.cc:69-94 | Settings that pass the start-up checks give a normal size within bounds, and every hash accepted before the normal size is accepted after it if and only if the average size is above 1. |
| Chunker.NormalSizeIff | Prototype/src/Client/chunker.cc:545-556 | The normal size is the average less the minimum and half of it, rounded up, or 0 where that is more, if and only if that sum fits 32 bits. |
| Chunker.BitsAreNearest | Prototype/src/Client/chunker.cc:89-92 | The number of bits is the integer nearest to the binary logarithm of the average. |
| Chunker.MasksDivide | Prototype/src/Client/chunker.cc:564-568 | The masks test divisibility by 2^(bits + 1), at most 2^31, and by 2^(bits - 1), at least 2. |
| Chunker.SettingsCut | Prototype/src/Client/chunker.cc:577-598 | For all settings with an average above 1 and a sum that fits: the cut is just past the first hash from the minimum on that is a multiple of the first divisor, or of the second from the normal size on. |
| Chunker.ConfiguredCut | Prototype/config.json:4-6 | At the shipped sizes the normal size is 2048 and a chunk ends just past the first hash behind 4096 bytes that is a multiple of 2^12, else at the bound. |
| Chunker.FirstMaskIsUsedIff | Prototype/src/Client/chunker.cc:577-598 | Some position is tested with the first mask exactly when the average exceeds two and a half times the minimum. |
| Chunker.CutLenIsFirst | Prototype/src/Client/chunker.cc:577-598 | The cut is just past the first masked hit after the minimum size, or at the maximum size or the end. |
| Chunker.CutPoint | Prototype/src/Client/chunker.cc:577-598 | The two loops over one running hash find that cut. |
| Chunker.ChunksCoverFile | Prototype/src/Client/chunker.cc:486-530 | Cutting the whole file loses nothing; every chunk but the last is longer than the minimum, every chunk at most the maximum. |
| Chunker.CutLenLocal | Prototype/src/Client/chunker.cc:493-496 | A cut depends on no more than the first maximum-size bytes. |
| Chunker.ChunkWindow | Prototype/src/Client/chunker.cc:493-519 | The inner loop emits whole-file chunks, and moves forward exactly when the window can hold a maximal chunk or is the last one. |
| Chunker.FastCDC | Prototype/src/Client/chunker.cc:479-535 | For every file and every read size of at least the maximum chunk size and below 2^32, the re-seeking reader ends and emits exactly the whole-file chunks. |
| Wire.UnpackPack | Prototype/src/Client/dataRetriever.cc:199-227 | Unpacking a packed batch gives its chunks back, whatever follows in the buffer. |
| Wire.BatchFitsIff | Prototype/src/Client/dataSender.cc:205-219 | The header's 32-bit size is right for every batch if and only if a full batch fits 32 bits. |
| Wire.OversizedBatchIsLost | Prototype/src/Client/dataSender.cc:205-219 | A batch of full chunks too large for the size field cannot be read back from the bytes sent. |
| Wire.DataSender.ProcessChunk | Prototype/src/Client/dataSender.cc:205-219 | Appends the chunk to those taken; a batch goes out exactly when it is full, and the buffer holds the packed rest. |
| Wire.DataSender.ProcessRecipeEnd | Prototype/src/Client/dataSender.cc:180-197 | Sends the rest, if any, then the recipe end: the messages are full batches, at most one shorter one, one recipe end. |
| Wire.DataSender.Run | Prototype/src/Client/dataSender.cc:129-173 | Fed the queued chunks and the recipe end, the sender has sent a whole upload of exactly those chunks. |
| Wire.DataRetriever.ProcessChunkBatch | Prototype/src/Client/dataRetriever.cc:199-227 | The unpacking loop queues exactly the unpacked chunks and counts them and their bytes; it faults exactly when the batch does not unpack within its bounds. |
| Wire.UploadCarriesFile | Prototype/src/Client/dataSender.cc:180-250 | Every whole upload of a file's chunks reads back as the file with its size and chunk count, with one recipe end, last, and no message beyond the item count or the buffer size. |
| Wire.Upload | Prototype/src/Client/chunker.cc:479-530 | The client pipeline from file to messages meets all of this. |
| Wire.BackupAsConfigured | Prototype/config.json:2-8 | The same with the Gear table and the shipped configuration. |
| Wire.UploadThenUnpack | Prototype/src/Client/dataRetriever.cc:199-227 | For every file and batch size, the sender's payloads run through the retriever's loop give back the file, byte for byte. |
| Lru.Cache.Get | Prototype/include/lruCache.h:144-152 | The value for the key, which becomes the most recently used; the order of the others is kept. |
| Lru.Cache.Insert | Prototype/include/lruCache.h:116-128 | The new order of entries after overwriting or adding and pruning; list and map agree. |
| Lru.Cache.Prune | Prototype/include/lruCache.h:192-205 | The least recently used entries are dropped down to the limit once the limit plus elasticity is reached. |
| Lru.Cache.PruneValue | Prototype/include/lruCache.h:183-189 | The value of the least recently used entry, which stays in the map. |
| LruHistory.RecentlyUsed | Prototype/include/lruCache.h:116-152 | After any stores and fetches the entries stand in order of last use, each with the value stored last under its key, and every key used and gone was used before all of them, with the cache full. |
| LruHistory.Replay | Prototype/include/lruCache.h:101-205 | The operations carried out on the list and map leave exactly that. |
| ReadCache.ReadCache.InsertToCache | Prototype/src/Util/readCache.cc:48-62 | The container overwrites the start of the evicted or next pool slot, and its name maps to that slot; it faults exactly on an empty list or a slot outside the pool. |
| ReadCache.RequestRight | Prototype/src/Server/enclaveRecvDecoder.cc:126-180 | With a pool of 64, live names lie in distinct slots that start with their containers, and every request keeps this and gives the bytes on disk. |
| ReadCache.GetReqContainers | Prototype/src/Server/enclaveRecvDecoder.cc:113-181 | With an agreeing cache, every requested entry starts with its container's bytes; it stops exactly when a name is in neither directory. |
| ReadCache.SmallPoolBreaks | Prototype/src/Util/readCache.cc:48-62 | With 1 to 63 slots, a name whose slot was reused stays in the map and later yields another container's bytes. |
| ReadCache.LargePoolBreaks | Prototype/src/Util/readCache.cc:48-62 | With more than 64 slots, the next index runs past the pool. |
| ReadCache.CacheRightIff | Prototype/include/readCache.h:27-27 | For all disks and request sequences the cache agrees with the disk if and only if the pool has exactly 64 slots. |
| Json.EscapeIsEscaped | Prototype/include/IAS/json.h:28-59 | Escaped text is in escaped form and unescapes to the original. |
| JsonParser.JsonEscape | Prototype/include/IAS/json.h:28-59 | The loop computes the escaped text. |
| JsonParser.ParseString | Prototype/include/IAS/json.h:644-698 | The loop reads what the recursive reading of the rest of the text reads, with the same faults. |
| JsonParser.ParseNumber | Prototype/include/IAS/json.h:700-749 | The loop reads an integer and leaves its separator, or fails as specified. |
| JsonParser.ParseArray | Prototype/include/IAS/json.h:613-642 | The offset-moving loop does what the recursive array parser does on the rest of the text. |
| JsonParser.ParseObject | Prototype/include/IAS/json.h:575-611 | The offset-moving loop does what the recursive object parser does on the rest of the text. |
| JsonParser.LoadText | Prototype/include/IAS/json.h:777-800 | The imperative parser computes Load. |
| Json.PutSorted | Prototype/include/IAS/json.h:575-611 | Setting a key keeps the members of an object in key order, each key once. |
| Json.PutMembers | Prototype/include/IAS/json.h:575-611 | Setting a key gives it the value, keeps every member with another key, and adds nothing else. |
| JsonText.DocLoads | Prototype/include/IAS/json.h:568-775 | Every text of a value after RFC 8259 without fraction or exponent (any blanks, any escapes, keys in any order and any number of times), in front of anything, parses as what it means, and the parser stops just behind it. |
| JsonText.LastWins | Prototype/include/IAS/json.h:575-611 | Entries set one after the other leave, in key order, each key with the value of its last entry, and no other key. |
| JsonText.ObjectLoads | Prototype/include/IAS/json.h:575-611 | In an object loaded from text each key has the value of its last occurrence, whatever the order, and there are no other keys. |
| JsonRoundTrip.ValueParses | Prototype/include/IAS/json.h:457-502 | A printed value followed by anything parses back, and the parser stops just behind it, at every depth and for every blank tab. |
| JsonRoundTrip.ParsedKeysAreEscaped | Prototype/include/IAS/json.h:575-611 | Whatever the text, every key of a parsed tree is in escaped form. |
| JsonRoundTrip.BareIntegerIsLost | Prototype/include/IAS/json.h:700-749 | A bare integer loads as null. |
| JsonRoundTrip.LoadOfDump | Prototype/include/IAS/json.h:457-502 | Loading a dumped tree without floating numbers gives the tree back if and only if all its keys are in escaped form and it is not a bare integer. |
| Http.SplitIndependent | Prototype/include/IAS/httpparser/httpresponseparser.h:42-45 | How the bytes are split across parse calls makes no difference to result or response. |
| Http.HttpResponseParser.Parse | Prototype/include/IAS/httpparser/httpresponseparser.h:53-533 | The loop leaves the parser in the state of consuming the whole input, and returns that result; a version number or content length that does not fit an int, and data that no vector can hold, are faults. |
| Http.ParsePieces | Prototype/include/IAS/httpparser/httpresponseparser.h:42-45 | A caller's loop over the pieces gets the result of the concatenation. |
| HttpMessages.SizeReads | Prototype/include/IAS/httpparser/httpresponseparser.h:380-446 | A chunk size written in hexadecimal, in any case and with leading zeros, is read as its value. |
| HttpMessages.ChunkedCompletes | Prototype/include/IAS/httpparser/httpresponseparser.h:380-527 | A readable chunked body (extensions and trailers in the accepted characters) completes with the concatenated chunk data. |
| HttpMessages.SizedCompletes | Prototype/include/IAS/httpparser/httpresponseparser.h:371-379 | A body of the announced length completes with that body. |
| HttpMessages.ChunkedFails | Prototype/include/IAS/httpparser/httpresponseparser.h:380-527 | A well-formed chunked body with any other extension or trailer, or with more data than a vector holds, is refused or faults. |
| HttpMessages.FieldsSpoil | Prototype/include/IAS/httpparser/httpresponseparser.h:231-330 | Header fields of which one is not readable are refused or fault, or leave a value longer than the one sent. |
| HttpMessages.ResponseCompletes | Prototype/include/IAS/httpparser/httpresponseparser.h:53-533 | Every readable response, split in any way and followed by anything, completes with exactly its data as content, its headers, status and version. |
| HttpMessages.ReadRightIff | Prototype/include/IAS/httpparser/httpresponseparser.h:53-533 | A response well-formed after RFC 7230 (any blanks and tabs around header values, any chunk extensions and trailers, an empty reason phrase, a body ended by closing) is read as it was sent, whatever the split, if and only if it is readable, which is a test on the response alone. |
| HttpMessages.BlanksMatter | Prototype/include/IAS/httpparser/httpresponseparser.h:285-294 | An Age header with no blank behind its colon, or with several, makes a well-formed response be read wrong. |
| HttpMessages.EmptyReasonMatters | Prototype/include/IAS/httpparser/httpresponseparser.h:196-220 | So does an empty reason phrase. |
| Database.FpRoundTripIff | Prototype/src/Database/inMemoryDatabase.cc:28-44 | Saving in any iteration order and loading gives the same fingerprint index if and only if no key is empty. |
| Database.SfRoundTripIff | Prototype/src/Database/inMemoryDatabase.cc:47-71 | The same for the three super-feature maps, vectors in order, if and only if no key and no vector is empty. |
| Database.InMemoryDatabase.InsertSF | Prototype/src/Database/inMemoryDatabase.cc:284-302 | Each of the three maps is updated as the flag says; no stored vector is ever empty. |
| Database.InMemoryDatabase.QuerySF | Prototype/src/Database/inMemoryDatabase.cc:315-329 | The first indexed super-feature decides: the first fingerprint under it. |
| Database.QueryGivesFirst | Prototype/src/Database/inMemoryDatabase.cc:284-329 | After any calls of InsertSF with any flags, a query gives the fingerprint first added, since the last replacement or erasure, under the first of the three 32-byte super-features that is present, and nothing exactly when none is. |
| Database.InsertThenQuery | Prototype/src/Database/inMemoryDatabase.cc:284-329 | The calls carried out on the database object answer the query so. |
| Database.InMemoryDatabase.QueryDeltaIndex | Prototype/src/Database/inMemoryDatabase.cc:350-362 | Hands over what is recorded under a base, and forgets it. |
| Database.FetchGivesSince | Prototype/src/Database/inMemoryDatabase.cc:337-362 | After any sequence of inserts and queries, a query hands over exactly the deltas recorded under the base since the last query of it, in order. |
| Database.InMemoryDatabase.SaveFp | Prototype/src/Database/inMemoryDatabase.cc:28-44 | The save loop writes the specified records. |
| Database.InMemoryDatabase.SaveSf | Prototype/src/Database/inMemoryDatabase.cc:47-71 | The nested save loops write the specified records. |
| Database.InMemoryDatabase.constructor | Prototype/src/Database/inMemoryDatabase.cc:80-181 | The load loops build the specified indexes. |
| Database.Restart | Prototype/src/Database/inMemoryDatabase.cc:28-181 | Closing and reopening gives equal indexes, so every query is answered as before. |
| SessionProof.NoReceiveFails | Prototype/src/Server/serverOptThread.cc:239-428 | Over every run of any number of upload, offline, download and missing-file sessions, each receive of client, server thread and worker finds a message type it accepts. |
| SessionProof.HeadThenFingerprints | Prototype/src/Server/enclaveRecvDecoder.cc:54-87 | The recipe head is read from the shared handle before the decoder reads any fingerprint: the client gets the head, the enclave exactly the whole fingerprints that follow it; a finished upload has received everything up to the recipe end. |
| SessionOutcome.SessionsEndWell | Prototype/src/Server/serverOptThread.cc:328-440 | Over every run, by what is given at its beginning: a login is refused exactly when a download asks for a file that does not exist; a session the server has finished has received every batch of its upload and the recipe end, or refused, or sent the head, every batch of chunks and the final message with all whole fingerprints read; a client that is done has received all that was sent. |
| SessionOutcome.EverySessionEnds | Prototype/src/Server/serverOptThread.cc:239-440 | Every run is of bounded length, and one that cannot go on has finished every session, whatever the schedule. |
| SessionProof.OneSessionPerClient | Prototype/src/Server/serverOptThread.cc:274-292 | At most one session per client ID is past its lock. |
| SessionProof.NeverDeadlocked | Prototype/src/Server/serverOptThread.cc:274-292 | Although the table's lock is held while a client's lock is awaited, every unfinished session can go on, or the holder of the lock it waits for can, or the holder of the lock that one waits for. |
| ContainerName.Increment | Prototype/include/define.h:174-184 | One step of the odometer adds one; no carry passes the last digit while the count fits. |
| ContainerName.CreateUUID | Prototype/include/define.h:170-195 | The name is the base-36 numeral of the count, for every count that has one of that length. |
| ContainerName.NamesAreOrdered | Prototype/include/define.h:170-195 | Any two counts below 2^31 have different 7-character names, in lexicographic order of the counts. |

## Left out

- Weak memory ordering and the fences of `atomicops.h`: sequential consistency is assumed.
- SSL sockets, remote attestation, SGX calls and the enclave code (sketch, heap, delta coding, offline merge, restore decoding).
- In the multi-consumer queue: bulk operations, the implicit producer and its hash, tokens, exceptions, destructors, the
  size limit of a subqueue, and blocking queues.
- Fixed-size, FSL and UBC chunking, and the generator of compressible data: easier than the chunker modelled.
- Memory allocation failure, except that an enqueue of the multi-consumer queue may fail, and exits on I/O errors.
- LevelDB, configuration, logging, timing, statistics, scripts.
- HTTP header semantics beyond Content-Length and Transfer-Encoding, such as keep-alive.
- JSON floating numbers and exponents: a text with one counts as a fault of the parser.
- The data writer thread of an upload session and remote-attestation sessions; a client that disconnects early.
- Files cut short by a crash while they are written: loading them is not specified.
- BlockIndexProof.EachIndexDeliversOnce: in this machine alone a consumer claims an index only below the tail; SubQueue drops
  that guard, and states this and the other theorems over its own runs. The index is not grown beyond 2^59 slots, the range
  of a 64-bit index in blocks.
- SpscTheorems.FailedEnqueueSawFull: stated for sizes from 1 to 2^63 - 1; for size 0 the promise says nothing.
- SpscTheorems.FailedDequeueSawEmpty: stated for sizes from 1 to 2^63 - 1, those for which the queue is safe.
- SpscTheorems.FifoOrder: stated for sizes from 1 to 2^63 - 1; outside, nothing is said beyond the failing assert and index.
- SpscCalls.EnqueueCall: stated for sizes from 1 to 2^63 - 1, like the other theorems about runs.
- SpscCalls.DequeueCall: the same.
- SpscCalls.ShutdownEnds: the same.
- SpscTheorems.ShutdownLosesNothing: stated for sizes from 1 to 2^63 - 1, like the other theorems about runs.
- SpscTheorems.SizesArePowers: stated for sizes below 2^63; beyond, the first block has no slots. A block size whose double
  does not fit a word is not modelled, here or in the constructor.
- DequeueCalls.FailedDequeueSpokenFor: stated for calls during which fewer than 2^63 elements are published and not taken,
  the range of the wrapping comparison.
- DequeueCalls.LoneFailureSawEmpty: the same.
- LruHistory.RecentlyUsed: stated for caches without elasticity, as the container cache is.
- JsonText.DocLoads: numbers with a fraction or an exponent, and integers beyond a `long`, are left out.
- Chunker.SettingsCut: an average size of 1, and minima whose sum wraps, are left out; SettingsAreValid and NormalSizeIff say
  what happens there.
- Chunker.FastCDC: the copy into a chunk's buffer of 16384 bytes is not modelled; a maximum chunk size above that is covered
  here, and overruns the buffer in the source with every longer chunk.
- Database.FpRoundTripIff: keys and values of 2^31 bytes or more, whose length does not fit the int written, are excluded by
  the type of strings.
- Database.SfRoundTripIff: the same.
- Wire.Upload: batch sizes above 262080 chunks and maximum chunk sizes above 16384 are excluded; for the former
  OversizedBatchIsLost shows what is lost.
- Wire.UploadThenUnpack: the same.
- HttpMessages.ReadRightIff: well-formed leaves out folded header lines, a chunked encoding announced in a list of encodings,
  single chunks above 2^63 - 1 bytes, and responses that announce a length and carry no body (to HEAD, or with code 304).
- HttpMessages.SizeReads: sizes above the largest `long` are cut off by the source and excluded.
- JsonParser.ParseNumber: floating numbers and exponents count as faults.
- Http.HttpResponseParser.Parse: the parser's fields and the response's are one record that the loop replaces step by step.
- SessionProof.HeadThenFingerprints: the recipe file does not change during a download, and whether it exists is fixed when
  the session begins; how many chunk messages the enclave sends for each read of fingerprints is given, not derived.
