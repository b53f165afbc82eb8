# Verified model of the llmengine runtime

This project models the parts of the llmengine inference runtime whose correctness is not visible from one function:
the graph and memory planner, the byte-level BPE tokenizer, the paged KV cache with its schedulers and the
forward-pass protocol, the attention kernels, and the index arithmetic of transpose, matrix products and the GGUF
header reader. `dafny verify dfyconfig.toml` checks all of it.

## What is proved

**Planned execution preserves meaning** (`Executor.dfy`). Kernels are arbitrary partial functions from input contents
to output contents. The run is defined twice: on the bytes that the bindings point at, and with one private tensor per
value; each definition records what every node reads. For every graph in which a value has at most one producer, every
needed value is produced or bound, and inputs and constants are not written, `RunPlanned` shows that compiling,
planning, allocating overlapping arena tensors and running performs the run on bytes, that its record of reads equals
the private one, that the Output values agree, and that it succeeds exactly when the graph sorts, every compute node
has a kernel, the plan exists and can be allocated, and the private run succeeds (`AllocationNeeds` says what
allocation asks of the graph). It rests on the planner's live ranges, its greedy reuse, its arena layout and the
alignment of the arena bases. Graphs made by the builder from ids it returned meet the demands (`BuiltIsRunnable`);
where a builder method does not look up one of its inputs, `AppendSortsIff` gives the exact condition. The choice of
buffers is stated about the finished plan: in the placing order each range has the smallest free buffer that is large
enough (`BestFitPlan` in `BestFit.dfy`), which determines the assignment (`BestFitIsUnique`). Greedy reuse is shown
optimal for pools of one size.

**Topological order** (`Graph.dfy`). `SortCorrect`: Kahn's loop succeeds on a valid graph if and only if there is no
closed walk.

**Tokenizer** (`Bpe.dfy`, `ByteTable.dfy`, `PreTokenizer.dfy`, `Tokenizer.dfy`, `TokenizerRoundTrip.dfy`). The merge
loop never unlinks absorbed symbols from the scan, so they keep competing for merges; `BytePairEncode` shows that it
still computes canonical byte pair encoding, because such merges do not touch the reachable list, and that it
terminates. What a piece is, is stated apart from the loops that cut it, and encoding has exactly one result that
meets its contract (`EncodingIsUnique`). Text is scannable when every leading byte has its continuation bytes and
ASCII takes one byte; all well-formed UTF-8 is (`WellFormedScans`, section 4 of RFC 3629), and so are surrogates and
codes beyond the last. `RoundTrip` is decode after encode: it returns a scannable text if and only if no end id was
produced, and `NoEndProduced` says which texts and vocabularies exclude that. Byte 0xFF collides with the table's
sentinel: `MapRoundTrip` states the exact condition for arbitrary bytes, and scannable text never contains it.

**Paged KV cache** (`PagedCacheSpec.dfy`, `PagedKVCache.dfy`). The class carries a ghost map from (sequence, layer,
position) to the row last written there; every method keeps the invariant that free list and block tables partition
the blocks and that each row of the map is stored where the tables say. Rows inside a length that were never written
hold whatever an earlier owner left, so only written rows are promised.

**Schedulers** (`BatchRuns.dfy`, `BatchHistory.dfy`, `ContinuousBatchScheduler.dfy`, `PagedAttentionScheduler.dfy`).
Runs are arbitrary sequences of submit, admit, mark, evict, collect and cache writes. `RunGuaranteed` is the admission
guarantee, `RunOrderly` the life cycle, and `HeadIsAdmitted` the progress of a scheduler that shares its cache with
nobody. `OutputsAreReports` reads every output off the list of events. The guarantee fails when a collected id is
reused for a longer request before it has been evicted: `ReuseBeforeEvictBreaks` is such a run from the start,
`SubmittedRoomy` the exact condition. Marks need discipline too: `ProgressOnFinished` says when a late progress report
is harmless.

**Forward pass** (`ForwardPass.dfy`, `PassTheorems.dfy`, `PassRuns.dfy`, `ContiguousPass.dfy`). All RoPE and attention
nodes of a pass use one base position and the length grows once, however many layers there are; `RunPass` gives the
exact condition for success. `RunPasses` runs any number of passes over any sequences. They all succeed exactly when
the nodes can work, the free blocks cover what the passes take together, and the contiguous cache has the room; then
every layer of every sequence ends up with the tokens of that sequence's passes in order, every output attends to
exactly the tokens of its own sequence up to itself, and so equals the row that one causal pass computes
(`PassesEqualRecomputed`). Otherwise the histories of the passes before the failed one are kept. `AdmittedPassFits`
joins this with the admission guarantee. A pass that fails in a node returns before the reset and keeps its position.
The next pass appends to its sequence exactly when that position is its length (`PassAppendsIff`); on the same
sequence a retry is always right (`RetryExtendsOnce`), on another one it can go wrong (`StalePosition`).

**Attention** (`AttentionKernels.dfy`, `CachedAttention.dfy`, `KVCache.dfy`, `PagedAttention.dfy`,
`BatchedAttention.dfy`). Over the reals, with exp any positive function that turns sums into products, the tiled
online-softmax kernels and the plain kernels equal one reference, for every length, tile size, vector width and mask,
and cached decoding (contiguous, paged, or through a padded batch table) equals one causal pass over all tokens.
`PrefillAndDecode` in `ContiguousPass.dfy` runs prefill and decode passes on the contiguous cache with RoPE as any
function of a row and a position: every query and key is rotated for its own position in the stream.

**Index arithmetic and format** (`Transpose.dfy`, `Gemm.dfy`, `GgufSpec.dfy`, `GgufReader.dfy`). Transpose at every
rank and its CUDA index loop; tiled, lane-wise and Q8_0 matrix products; and a GGUF version 3 writer that the reader
inverts (GGUF specification, section "File Structure"). `GgufFormat.dfy` states what literal bytes are read as,
without the writer.

The code is followed where its comments differ: the contiguous decode path calls the tiled kernel although its comment
names `sdpa_decode`, and the repository's own scheduler test collects before it evicts, which is safe only while the
id is not reused.

Predicates live in modules whose names end in `Spec`; the modules that use them prove the facts and hold the
imperative methods. Matrix products and the storage of both caches are flat row-major buffers; in the attention
kernels, buffers that are addressed as pointer plus row times stride are modelled as sequences of rows.

## Model

| member | source | states |
|---|---|---|
| `Graphs.Graph.AddValue` | src/graph/graph.cpp:13-19 | the new value gets the next id and is appended; nothing else changes |
| `Graphs.Graph.AddNode` | src/graph/graph.cpp:21-28 | the new node gets the next id and is appended; nothing else changes |
| `Graphs.Graph.SetKind` | src/graph/graph.cpp:30-36 | an existing value changes only its kind; an unknown id is refused and nothing changes |
| `Graphs.Graph.Validate` | src/graph/graph.cpp:65-94 | success exactly when every input and output id names a value and every Output node has an input |
| `Graphs.ProducersAreLast` | src/graph/graph.cpp:103-109 | the producer map sends a value to the last node that lists it as an output, and only produced values are in it |
| `Graphs.Graph.BuildEdges` | src/graph/graph.cpp:110-120 | the adjacency lists and in-degrees count one edge per input occurrence, multi-edges and self-loops included |
| `Graphs.DegreesStep` | src/graph/graph.cpp:129-136 | relaxing the popped node leaves for every node the number of its inputs whose producer is still unordered |
| `Graphs.KahnStep` | src/graph/graph.cpp:129-136 | one round keeps the queue and order duplicate-free, the queue holding exactly the unordered nodes without open inputs, and producers before consumers |
| `Graphs.DrainResult` | src/graph/graph.cpp:129-141 | when the queue runs dry, every node left out still waits for a node left out |
| `Graphs.SortedIsAcyclic` | src/graph/graph.cpp:96-142 | an order with every producer before its consumers that covers all nodes rules out closed walks |
| `Graphs.UnsortedIsCyclic` | src/graph/graph.cpp:138-140 | if nodes remain, walking back along unordered producers repeats a node, so a closed walk exists |
| `Graphs.SortedIffAcyclic` | src/graph/graph.cpp:96-142 | all nodes are ordered if and only if the producer-to-consumer relation has no closed walk |
| `Graphs.SortCorrect` | src/graph/graph.cpp:96-142 | on a valid graph sorting succeeds if and only if the graph is acyclic, and then gives a permutation of the nodes with every producer before its consumers |
| `Graphs.Graph.TopologicalSort` | src/graph/graph.cpp:96-142 | the loops over in_degree and the queue return exactly the order (or error) that SortCorrect speaks about |
| `GraphBuilders.GraphBuilder.Leaf` | src/graph/graph_builder.cpp:20-30 | input and constant append one value with the given shape, dtype, device and kind, without a node |
| `GraphBuilders.GraphBuilder.Operator` | src/graph/graph_builder.cpp:32-315 | an operator method refuses an unknown looked-up input or a shape error without changing the graph, and otherwise appends one intermediate value, with the inferred shape and the dtype and device of one of its inputs, and one node that produces it |
| `GraphBuilders.GraphBuilder.MarkOutput` | src/graph/graph_builder.cpp:317-325 | output turns an existing value into an Output value and appends no node |
| `BuiltGraphs.BuiltSorts` | src/graph/graph_builder.cpp:32-315 | a graph whose nodes use only ids returned earlier is valid, acyclic and always sorts |
| `BuiltGraphs.BuiltIsSingleProducer` | src/graph/graph_builder.cpp:32-315 | every value of a built graph has at most one producer |
| `BuiltGraphs.BuiltIsRunnable` | src/graph/graph_builder.cpp:32-315 | once the values without a producer are bound, a built graph meets every demand of planned execution |
| `BuiltGraphs.AppendSortsIff` | src/graph/graph_builder.cpp:133-150 | appending a node sorts if and only if all its inputs are ids already returned; rms_norm does not look up its weight, so this is the condition its caller must meet |
| `LiveRanges.AlignUp` | src/runtime/memory_planner.cpp:19-23 | the result is the least multiple of the alignment that is at least the value |
| `LiveRanges.ElementCount` | src/core/shape.cpp:31-45 | the number of elements is the product of the dims, and an error exactly when some leading dims multiply beyond 64 bits |
| `LiveRanges.ElementSize` | include/minillm/core/dtype.h:41-57 | the size of one element of every dtype, and which have none |
| `LiveRanges.FootprintInBytes` | src/runtime/memory_planner.cpp:170-219 | a value is planned with the product of its dims times its element size, skipped for its kind, device or shape, and an overflow exactly beyond 64 bits |
| `LiveRanges.ComputeLiveness` | src/runtime/memory_planner.cpp:124-144 | for every value: produced exactly if some ordered node defines it, first is the last such node, last the latest node that touches it |
| `LiveRanges.ComputeRanges` | src/runtime/memory_planner.cpp:146-219 | ranges, eligibility, aligned sizes, counts and naive bytes; out of range exactly when an eligible size overflows |
| `LiveRanges.EligibleInOrder` | src/runtime/memory_planner.cpp:221-236 | a duplicate-free list of exactly the eligible indices, sorted by first node, last node and size, summing to the same bytes |
| `BufferReuse.Release` | src/runtime/memory_planner.cpp:270-277 | buffers whose last use lies before the frontier move to the free set of their own pool, and the live and free books stay exact |
| `BufferReuse.PlaceOne` | src/runtime/memory_planner.cpp:264-303 | one turn of the greedy pass takes the smallest buffer of the pool that is free before the range starts and large enough, the lowest numbered one on a tie, and opens a new one of exactly the needed size only when there is none; it keeps: no two ranges of a buffer overlap in time, a buffer is large enough, and in a uniform pool a new buffer is opened only when all are live |
| `BufferReuse.AssignBuffers` | src/runtime/memory_planner.cpp:264-303 | after the pass every eligible range has a buffer of its pool that is large enough, ranges sharing a buffer are apart in time, the economy facts hold, and every choice was best fit in the sorted order |
| `BestFits.FoundIsChosen` | src/runtime/memory_planner.cpp:279-283 | what lower_bound finds in the free list is the best of all buffers of the pool that are free and large enough |
| `BestFits.NothingIsChosen` | src/runtime/memory_planner.cpp:279-289 | when lower_bound finds nothing, in a pool of whatever sizes, no free buffer of the pool is large enough |
| `BestFits.BestFitIsUnique` | src/runtime/memory_planner.cpp:225-303 | best fit leaves no choice: for one placing order it determines the buffer of every range and its size |
| `BufferReuse.NothingFreeMeansLive` | src/runtime/memory_planner.cpp:280-289 | when best fit finds nothing in a pool of one size, every buffer of that pool is held by a live range |
| `BufferReuse.FreshIsNeeded` | src/runtime/memory_planner.cpp:289-302 | a new buffer in a uniform pool is needed: as many ranges as buffers are live where it starts |
| `ArenaLayouts.PackedDisjoint` | src/runtime/memory_planner.cpp:336-350 | two buffers of one arena occupy disjoint byte intervals inside the arena |
| `ArenaLayouts.LayOut` | src/runtime/memory_planner.cpp:336-350 | every buffer gets the arena of its pool and an offset where the arena ended so far; arena numbers are dense |
| `ArenaLayouts.ArenasSumToPlanned` | src/runtime/memory_planner.cpp:305-350 | the arena totals add up to exactly the sum of the buffer sizes |
| `MemoryPlanners.Plan` | src/runtime/memory_planner.cpp:105-353 | planning fails for a zero alignment, an invalid or cyclic graph, or a size overflow, and otherwise returns a plan that satisfies all the facts below and whose buffers were chosen by best fit, with starts and ends rising and sizes falling along the placing order |
| `PlanTheorems.PlanBounds` | src/runtime/memory_planner.cpp:213-307 | at every node the aligned bytes of simultaneously live eligible values are at most planned_bytes, which is at most naive_bytes |
| `PlanTheorems.LiveNeedBuffers` | src/runtime/memory_planner.cpp:264-303 | ranges live together in a pool sit in different buffers, so the pool has at least that many buffers |
| `PlanTheorems.ReuseIsOptimal` | src/runtime/memory_planner.cpp:264-303 | in a pool of one aligned size the number of buffers equals the largest number of ranges live at one node |
| `PlanTheorems.LiveTogetherDisjoint` | src/runtime/memory_planner.cpp:336-350 | two planned values live at a common node occupy disjoint byte intervals of their arenas |
| `PlanTheorems.OffsetsAligned` | src/runtime/memory_planner.cpp:345-349 | every buffer offset is a multiple of the alignment |
| `PlanTheorems.ArenaTotals` | src/runtime/memory_planner.cpp:305-350 | the sizes that the runtime allocates for the arenas add up to exactly planned_bytes |
| `RuntimeContexts.RuntimeContext.Bind` | src/runtime/runtime_context.cpp:53-60 | the given tensor becomes the value's tensor, with its contents |
| `RuntimeContexts.PlannedInside` | src/runtime/runtime_context.cpp:172-180 | a planned tensor lies inside its arena block after the base was aligned, and starts at a multiple of the alignment |
| `RuntimeContexts.PlannedSeparate` | src/runtime/runtime_context.cpp:172-207 | planned tensors of values that are live together share no byte |
| `RuntimeContexts.ArenasFitIffBuffersDo` | src/runtime/runtime_context.cpp:129-170 | checking each arena's first buffer and total is the same as checking every buffer, because an arena is one pool |
| `RuntimeContexts.RuntimeContext.AllocateArenas` | src/runtime/runtime_context.cpp:122-170 | one block per arena, large enough for its buffers plus alignment; fails exactly for an oversized or CUDA arena |
| `RuntimeContexts.RuntimeContext.BindRanges` | src/runtime/runtime_context.cpp:182-207 | each planned value without a tensor gets its arena place; tensors share bytes only if their values are never live together |
| `RuntimeContexts.RuntimeContext.AllocateRest` | src/runtime/runtime_context.cpp:209-217 | every remaining value that needs storage gets a zero-filled block of its own |
| `RuntimeContexts.RuntimeContext.AllocateWithPlan` | src/runtime/runtime_context.cpp:102-220 | allocation succeeds exactly when sizes and devices allow it, and then the context is prepared: all tensors inside storage, shared only apart in time |
| `Executors.ReadIsCurrent` | src/runtime/memory_planner.cpp:128-144 | an input of a node is inside its live range when the node runs |
| `Executors.WritesClash` | src/runtime/memory_planner.cpp:264-303 | what a node writes shares no byte with another value that is still needed |
| `Executors.RunNode` | src/runtime/executor.cpp:49-69 | one node does on the bound bytes exactly what the step function says: it reads its input tensors, and fails or writes each output to the bytes of its tensor |
| `Executors.StepSimulates` | src/runtime/executor.cpp:49-69 | one step on shared bytes reads what the step on private tensors reads, fails in the same case, and leaves every value that is still needed as it is there |
| `Executors.CpuExecutor.Compile` | src/runtime/executor.cpp:16-43 | compile keeps the graph's sorted order exactly when the graph sorts and every compute node is supported and registered |
| `Executors.CpuExecutor.Run` | src/runtime/executor.cpp:45-77 | running all sorted nodes computes the run function on the bound bytes, whose trace is what every node read from them; success exactly when no node fails and the KV cache advances |
| `Executors.RunSimulates` | src/runtime/executor.cpp:45-77 | the run on shared bytes and the run on private tensors succeed together, with the same trace of reads at every node |
| `Executors.OutputIsCurrent` | src/runtime/memory_planner.cpp:164-166 | an Output value is still current after the last node |
| `Executors.RunPlanned` | src/runtime/executor.cpp:16-77 | from the prepared bytes on, the trace of what every node read from the blocks equals the trace of the private run, and all Output values agree; success exactly when the graph sorts, every compute node has a kernel, the plan exists and can be allocated, the private run succeeds and the KV cache advances |
| `RuntimeContexts.AllocationNeeds` | src/runtime/runtime_context.cpp:129-220 | in terms of the graph, allocation succeeds exactly when no planned value is on a CUDA device, every other value that needs storage has a size, and each arena stays within size_t, for which the sum of all planned values is enough |
| `Bpe.LiveMerge` | src/io/bpe_tokenizer.cpp:440-445 | merging at a reachable symbol merges that pair of the plain list |
| `Bpe.DeadMerge` | src/io/bpe_tokenizer.cpp:440-445 | merging at an absorbed symbol leaves the reachable list as it was |
| `Bpe.BestNodeIsBestPair` | src/io/bpe_tokenizer.cpp:428-436 | the chosen symbol, when reachable, is the leftmost pair of least rank of the list |
| `Bpe.MergeStep` | src/io/bpe_tokenizer.cpp:438-446 | every round keeps the canonical result of the reachable list and the text it spells, and the sum of the distances to the next symbols falls |
| `Bpe.NoNodeMeansNoPair` | src/io/bpe_tokenizer.cpp:438-438 | when no symbol has a ranked pair, neither has the list |
| `Bpe.FindBest` | src/io/bpe_tokenizer.cpp:425-436 | the scan returns the first symbol of least rank among all symbols with a successor, absorbed ones included, or none |
| `Bpe.MergeAll` | src/io/bpe_tokenizer.cpp:424-446 | the linked-list loop ends, and its reachable list is the canonical merge of the initial characters and spells the same text |
| `Bpe.BytePairEncode` | src/io/bpe_tokenizer.cpp:401-461 | bpe returns the known ids of canonical byte pair encoding of the word, whose parts spell the word |
| `Bpe.CanonicalText` | src/io/bpe_tokenizer.cpp:424-446 | canonical merging never changes the text that the list spells |
| `Bpe.CanonicalSpells` | src/io/bpe_tokenizer.cpp:401-446 | the canonical parts of a word, put together, are the word |
| `Bpe.CanonicalIsFinal` | src/io/bpe_tokenizer.cpp:438-438 | canonical merging stops only when no adjacent pair has a rank |
| `Bpe.SomePairIsBest` | src/io/bpe_tokenizer.cpp:428-436 | if any adjacent pair has a rank there is exactly one leftmost pair of least rank |
| `ByteTables.CodePointInjective` | src/io/bpe_tokenizer.cpp:21-42 | different bytes get different code points |
| `ByteTables.InitTable` | src/io/bpe_tokenizer.cpp:16-43 | the two tables, entry by entry: 33..126, 161..172 and 174..255 stand for themselves, 0..32 for 256..288, 127..160 for 289..322 and 173 for 323; the inverse holds these and 0xFF everywhere else |
| `ByteTables.CodePointOf` | src/io/bpe_tokenizer.cpp:21-42 | the code point of every byte in numbers |
| `ByteTables.IndirectInOrder` | src/io/bpe_tokenizer.cpp:32-42 | the 68 bytes without a code point of their own take 256..323 in increasing order, and all of these |
| `ByteTables.MappedByte` | src/io/bpe_tokenizer.cpp:45-67 | the one or two bytes that every byte is mapped to |
| `ByteTables.MappedSpace` | src/io/bpe_tokenizer.cpp:45-67 | a space in front of the letter a becomes C4 A0 61 |
| `ByteTables.BytesToUnicode` | src/io/bpe_tokenizer.cpp:45-67 | the output is the UTF-8 form of each byte's code point, in order |
| `ByteTables.UnicodeToBytes` | src/io/bpe_tokenizer.cpp:69-90 | each character of the input yields the byte of its code point, or nothing where the table has its sentinel |
| `ByteTables.EncodeThenDecodeAt` | src/io/bpe_tokenizer.cpp:45-90 | the UTF-8 form of every code point up to 21 bits is read back as that code point, with nothing more consumed |
| `ByteTables.EncodedCharacters` | src/io/bpe_tokenizer.cpp:45-67 | the UTF-8 bytes of one character of each length |
| `ByteTables.UnmapMap` | src/io/bpe_tokenizer.cpp:45-90 | mapping and unmapping keeps every byte but 0xFF |
| `ByteTables.MapRoundTrip` | src/io/bpe_tokenizer.cpp:45-90 | unmapping the mapped bytes restores them if and only if 0xFF does not occur |
| `ByteTables.SplitMapped` | src/io/bpe_tokenizer.cpp:407-411 | the characters of mapped text are the mapped bytes, one by one |
| `PreTokenizers.PieceEnd` | src/io/bpe_tokenizer.cpp:241-389 | a piece is a contraction, letters with at most one other character in front, one to three digits, other characters with at most one space in front and newlines behind, or white space; every run is as long as it can be |
| `PreTokenizers.PreTokenize` | src/io/bpe_tokenizer.cpp:234-391 | a scannable text is cut into pieces of these kinds, which concatenate back to it; none is empty and each is scannable; every iteration advances |
| `PreTokenizers.CutIsUnique` | src/io/bpe_tokenizer.cpp:234-391 | there is only one way to cut a text |
| `PreTokenizers.SpaceTakesRest` | src/io/bpe_tokenizer.cpp:329-385 | a space in front of a letter or a digit makes all of the rest of the text one piece |
| `Utf8.WellFormedScans` | src/io/bpe_tokenizer.cpp:94-108 | every text that is well-formed in the sense of section 4 of RFC 3629 is scannable |
| `Tokenizers.FindEarliest` | src/io/bpe_tokenizer.cpp:475-486 | the earliest occurrence of any added token at or after the cursor, the first listed one on a tie, or none |
| `Tokenizers.EncodeRun` | src/io/bpe_tokenizer.cpp:489-495 | the ids of a run are the canonical ids of its mapped pieces, and the pieces are those that the run is cut into |
| `Tokenizers.Encode` | src/io/bpe_tokenizer.cpp:465-517 | encoding is a sequence of rounds that cover the text, each cut into its pieces, framed by the begin and end ids when these exist and are asked for |
| `Tokenizers.EncodingIsUnique` | src/io/bpe_tokenizer.cpp:465-517 | the contract of encode leaves exactly one result for a text and a vocabulary |
| `Tokenizers.TokenToText` | src/io/bpe_tokenizer.cpp:521-538 | a token is its byte escape or its unmapped text; unknown ids are empty |
| `Tokenizers.ByteEscape` | src/io/bpe_tokenizer.cpp:526-535 | the token <0xHH> is the byte that its two digits write, for all 256 bytes and digits of either case |
| `Tokenizers.LineFeedToken` | src/io/bpe_tokenizer.cpp:526-535 | <0x0A> is a line feed |
| `Tokenizers.Decode` | src/io/bpe_tokenizer.cpp:540-558 | the texts of the ids up to the end id, or an error exactly for an empty vocabulary or an id out of range before it |
| `TokenizerRoundTrip.CanonicalMapped` | src/io/bpe_tokenizer.cpp:401-461 | canonical merging of mapped bytes yields mapped runs of bytes |
| `TokenizerRoundTrip.PieceText` | src/io/bpe_tokenizer.cpp:491-495 | decoding the ids of one piece returns the piece |
| `TokenizerRoundTrip.RoundText` | src/io/bpe_tokenizer.cpp:475-511 | decoding the ids of one round returns exactly the text the round consumed |
| `TokenizerRoundTrip.AllSlices` | src/io/bpe_tokenizer.cpp:465-517 | every id that encoding produces names a token that is the mapped form of a non-empty part of the text |
| `TokenizerRoundTrip.RoundTrip` | src/io/bpe_tokenizer.cpp:465-558 | decode(encode(text)) == text if and only if encoding produced no end id, for every scannable text, given all byte symbols and merge results, no byte escapes, and printable added tokens |
| `TokenizerRoundTrip.NoEndProduced` | src/io/bpe_tokenizer.cpp:465-517 | in terms of text and vocabulary: when no part of the text is what the end token stands for, encoding produces no end id |
| `TokenizerRoundTrip.EncodeThenDecode` | src/io/bpe_tokenizer.cpp:465-558 | the two methods together return the text exactly when encoding produced no end id by itself and an end id that was asked for is known; the former holds when no part of the text is what the end token stands for |
| `PagedKVCaches.PagedKVCache.Init` | src/runtime/cache/paged_kv_cache.cpp:27-56 | refused exactly for a non-positive argument; otherwise zeroed storage, all blocks free with block 0 on top, no sequences |
| `PagedKVCaches.PagedKVCache.Reset` | src/runtime/cache/paged_kv_cache.cpp:215-236 | storage is zeroed, all blocks are free and all sequences gone |
| `PagedKVCaches.PagedKVCache.Release` | src/runtime/cache/paged_kv_cache.cpp:238-259 | the cache is empty and uninitialized |
| `PagedKVCaches.PagedKVCache.EnsureSequence` | src/runtime/cache/paged_kv_cache.cpp:261-275 | only the sequence table may grow |
| `PagedKVCaches.PagedKVCache.FreeSequence` | src/runtime/cache/paged_kv_cache.cpp:277-300 | exactly the sequence's blocks return to the free list, its rows disappear from the map, every other sequence keeps rows, length and blocks |
| `PagedKVCaches.PagedKVCache.ReserveSequence` | src/runtime/cache/paged_kv_cache.cpp:327-349 | succeeds or fails as its guards say, takes the missing blocks from the back of the free list, and keeps the map of rows |
| `PagedKVCaches.PagedKVCache.SetSequenceLength` | src/runtime/cache/paged_kv_cache.cpp:351-357 | reserves room first; only the length of that sequence changes and no row does |
| `PagedKVCaches.PagedKVCache.PhysicalBlock` | src/runtime/cache/paged_kv_cache.cpp:359-370 | the block of a position exactly when the position is inside the block table |
| `PagedKVCaches.PagedKVCache.TokenIndex` | src/runtime/cache/paged_kv_cache.cpp:372-386 | the storage index of a row exactly when layer and position exist |
| `PagedKVCaches.PagedKVCache.WriteTokens` | src/runtime/cache/paged_kv_cache.cpp:410-439 | on success exactly rows start..start+count-1 of that sequence and layer take the given values; a failing call changes no row, length, block table or free list |
| `PagedKVCaches.PagedKVCache.AppendTokens` | src/runtime/cache/paged_kv_cache.cpp:441-444 | writes at the length that all layers share |
| `PagedKVCaches.PagedKVCache.ReadToken` | src/runtime/cache/paged_kv_cache.cpp:388-408 | readable exactly inside the length, and a written row reads back its head for key_ptr and value_ptr |
| `PagedCacheProofs.RowsDisjoint` | src/runtime/cache/paged_kv_cache.cpp:379-385 | two different rows of the cache never share a float |
| `PagedCacheProofs.WriteRowReads` | src/runtime/cache/paged_kv_cache.cpp:421-434 | writing a row changes what is read there and nothing else |
| `PagedCacheProofs.StoreRow` | src/runtime/cache/paged_kv_cache.cpp:421-434 | storing a row is updating one key of the map (sequence, layer, position) to row |
| `PagedCacheProofs.TakeGood` | src/runtime/cache/paged_kv_cache.cpp:342-347 | taking blocks keeps free list and tables a partition of all blocks, moves no row, and adds exactly the blocks taken |
| `PagedCacheProofs.ReserveGood` | src/runtime/cache/paged_kv_cache.cpp:327-349 | reserving keeps every invariant; a failing call leaves free list, flags, tables and lengths alone |
| `PagedCacheProofs.ReserveRoom` | src/runtime/cache/paged_kv_cache.cpp:332-340 | reserving succeeds if and only if the sequence's blocks and the free blocks hold the tokens, and then the sequence has the room |
| `PagedCacheProofs.GrownStores` | src/runtime/cache/paged_kv_cache.cpp:342-347 | growing a block table never moves an existing row |
| `PagedCacheProofs.GivenBackGood` | src/runtime/cache/paged_kv_cache.cpp:281-289 | giving blocks back keeps the partition and the rows of all other sequences |
| `PagedCacheProofs.ClearedGood` | src/runtime/cache/paged_kv_cache.cpp:40-55 | a fresh cache satisfies the ownership invariant |
| `PagedCacheProofs.LengthInside` | src/runtime/cache/paged_kv_cache.cpp:394-399 | a position below the length is always inside the block table |
| `PagedAttentionSchedulers.PagedAttentionScheduler.AddSequence` | src/runtime/cache/paged_attention_scheduler.cpp:19-38 | accepted exactly for a non-empty cached sequence with room in the batch, appended once |
| `PagedAttentionSchedulers.PagedAttentionScheduler.RemoveSequence` | src/runtime/cache/paged_attention_scheduler.cpp:40-46 | the sequence is gone and the others stay |
| `PagedAttentionSchedulers.PagedAttentionScheduler.BuildBatch` | src/runtime/cache/paged_attention_scheduler.cpp:57-114 | a batch exactly when there are active sequences and each has tokens; its padded table, widths and lengths describe the cache |
| `PagedAttentionSchedulers.PaddedAddress` | src/runtime/cache/paged_attention_scheduler.cpp:97-111 | reading through the padded table finds the row exactly where the cache keeps it |
| `ContinuousBatchSchedulers.ContinuousBatchScheduler.Submit` | src/runtime/continuous_batch_scheduler.cpp:19-53 | a refused request changes nothing; an accepted one gets a slot and joins the end of the queue |
| `ContinuousBatchSchedulers.ContinuousBatchScheduler.AdmitWaiting` | src/runtime/continuous_batch_scheduler.cpp:55-77 | the loop does exactly the admissions that the theorems below speak about, and fails without effect |
| `ContinuousBatchSchedulers.ContinuousBatchScheduler.MarkPrefillProgress` | src/runtime/continuous_batch_scheduler.cpp:79-85 | progress is recorded and a complete prompt starts decoding |
| `ContinuousBatchSchedulers.ContinuousBatchScheduler.MarkTokenGenerated` | src/runtime/continuous_batch_scheduler.cpp:87-93 | the token is appended behind the earlier ones and the limit finishes the sequence |
| `ContinuousBatchSchedulers.ContinuousBatchScheduler.MarkFinished` | src/runtime/continuous_batch_scheduler.cpp:95-97 | the sequence is finished |
| `ContinuousBatchSchedulers.ContinuousBatchScheduler.EvictFinished` | src/runtime/continuous_batch_scheduler.cpp:99-109 | exactly the finished active sequences leave and give their blocks back; the others keep order, rows and blocks |
| `ContinuousBatchSchedulers.ContinuousBatchScheduler.CollectFinished` | src/runtime/continuous_batch_scheduler.cpp:111-125 | each finished request in use is handed out with its tokens and its slot is freed; none is left |
| `BatchProofs.AutoIdsNeverCollide` | src/runtime/continuous_batch_scheduler.cpp:27-44 | a well-formed request without an id is always accepted, in a slot never used before |
| `BatchProofs.SubmittedOrderly` | src/runtime/continuous_batch_scheduler.cpp:27-52 | accepting a request keeps the scheduler orderly if and only if its slot is not active any more |
| `BatchProofs.SubmittedRoomy` | src/runtime/continuous_batch_scheduler.cpp:27-52 | accepting a request keeps the promise of room if and only if its slot is not active or has the room already |
| `BatchProofs.AdmittedMoves` | src/runtime/continuous_batch_scheduler.cpp:59-75 | admission moves the oldest waiting requests, in order, to the end of the active list |
| `BatchProofs.MarksOrderly` | src/runtime/continuous_batch_scheduler.cpp:79-97 | marking an active unfinished sequence keeps the scheduler orderly |
| `BatchProofs.EvictedOrderly` | src/runtime/continuous_batch_scheduler.cpp:99-109 | eviction keeps the scheduler orderly |
| `BatchProofs.EvictedRoomy` | src/runtime/continuous_batch_scheduler.cpp:99-109 | eviction takes room from no sequence that stays |
| `BatchProofs.CollectOneOrderly` | src/runtime/continuous_batch_scheduler.cpp:113-123 | collecting moves one accepted request from its slot to the collected ones |
| `BatchProofs.OutputsAnswerRequests` | src/runtime/continuous_batch_scheduler.cpp:113-123 | each output carries the prompt of an accepted request not collected before, and at most max_tokens tokens |
| `BatchProofs.PromisedWritesSucceed` | src/runtime/continuous_batch_scheduler.cpp:67-69 | no write inside prompt + max_tokens of an active sequence fails for lack of blocks |
| `BatchProofs.WritesKeepRoom` | src/runtime/cache/paged_kv_cache.cpp:410-439 | writes by anyone never take room away |
| `BatchRuns.ReuseBeforeEvictBreaks` | src/runtime/continuous_batch_scheduler.cpp:27-52 | a run from the start, disciplined up to its last step, in which a collected id is reused before it is evicted: the request is accepted and breaks both the order and the promise of room |
| `BatchProofs.ProgressOnFinished` | src/runtime/continuous_batch_scheduler.cpp:79-85 | a progress report on a finished request keeps the scheduler orderly if and only if it leaves the request finished, or the request is active with tokens left, or it was collected and evicted |
| `BatchRuns.AdmitAllKeeps` | src/runtime/continuous_batch_scheduler.cpp:55-77 | admission keeps all promises and stops only when nobody waits, the batch is full or the head does not get its blocks |
| `BatchRuns.RunExclusive` | src/runtime/continuous_batch_scheduler.cpp:55-125 | over every run that writes rows for active sequences only, only active sequences own blocks |
| `BatchRuns.HeadIsAdmitted` | src/runtime/continuous_batch_scheduler.cpp:55-77 | in every such run from the start, whenever nothing is active the head request is admitted if and only if it fits the whole cache |
| `BatchRuns.RunGuaranteed` | src/runtime/continuous_batch_scheduler.cpp:19-125 | over every careful run: at most max_batch_size active, and every active sequence keeps the blocks for prompt and output from admission to eviction |
| `BatchRuns.RunOrderly` | src/runtime/continuous_batch_scheduler.cpp:19-125 | over every disciplined run: queues duplicate-free and disjoint, admission first in first out, slots faithful to their requests |
| `BatchRuns.CollectedOnce` | src/runtime/continuous_batch_scheduler.cpp:111-125 | over every disciplined run: no request is collected twice, and each accepted one is either collected or in a slot |
| `BatchHistory.RunExplained` | src/runtime/continuous_batch_scheduler.cpp:20-125 | in every run from the start, whatever the events: a slot in use belongs to the last request accepted into it, and its tokens are those of the events for its id since then, in their order |
| `BatchHistory.OutputsAreReports` | src/runtime/continuous_batch_scheduler.cpp:87-125 | each collected output is the id and prompt of one accepted request with exactly the tokens that the events report for that id between its acceptance and its collection, in their order |
| `BatchHistory.RunPhases` | src/runtime/continuous_batch_scheduler.cpp:79-97 | in every disciplined run a request is finished exactly when an event finished it or it has all its tokens, and otherwise decodes exactly when an event reported its whole prompt as processed |
| `AttentionProofs.SoftmaxIsDistribution` | src/runtime/kernels/cpu_kernels.cpp:384-430 | softmax weights are positive and add up to one |
| `AttentionProofs.ExpsShift` | src/runtime/kernels/cpu_kernels.cpp:563-596 | changing the subtracted maximum multiplies every exponential by one factor |
| `AttentionProofs.NormalizedSum` | src/runtime/kernels/cpu_kernels.cpp:598-610 | dividing the running weighted sum by the running sum is attention, whatever maximum was subtracted |
| `AttentionKernels.FlashTile` | src/runtime/kernels/cpu_kernels.cpp:536-596 | one tile keeps: m is the maximum so far, l the sum of exp(s - m), o the weighted sum of values; a processed tile has an unmasked key |
| `AttentionKernels.FlashRow` | src/runtime/kernels/cpu_kernels.cpp:526-611 | for every length, tile size, mask and vector width the online softmax row is attention over the unmasked keys |
| `AttentionKernels.FlashSdpa` | src/runtime/kernels/cpu_kernels.cpp:511-613 | every head and row of flash_sdpa is the reference attention |
| `AttentionKernels.PlainRow` | src/runtime/kernels/cpu_kernels.cpp:357-428 | the score matrix row, its softmax and the weighted columns are the reference attention |
| `AttentionKernels.Sdpa` | src/runtime/kernels/cpu_kernels.cpp:343-430 | every head and row of sdpa is the same reference attention |
| `AttentionKernels.FlashDecode` | src/runtime/kernels/cpu_kernels.cpp:623-710 | flash_sdpa_decode with grouped heads is the reference attention |
| `AttentionKernels.PlainDecode` | src/runtime/kernels/cpu_kernels.cpp:440-502 | sdpa_decode is the same reference attention |
| `RealVectors.DotLanes` | src/runtime/kernels/cpu_kernels.cpp:366-376 | lane sums and the tail add up to the dot product for every width |
| `BatchedAttention.OnlineHead` | src/runtime/kernels/cuda_kernels.cu:757-800 | the one-key-at-a-time decode kernel equals the CPU reference |
| `BatchedAttention.BatchHead` | src/runtime/kernels/cuda_kernels.cu:698-754 | the batched kernel over padded tables is attention over the rows the cache keeps for that sequence |
| `PagedAttention.PagedHead` | src/runtime/cache/paged_kv_cache.cpp:475-512 | one head over cached positions is attention over the written rows; an error exactly for a missing layer, head or position |
| `PagedAttention.PagedDecode` | src/runtime/cache/paged_kv_cache.cpp:456-515 | succeeds exactly as the guards say, and every head is attention over the whole written sequence |
| `TokenAttention.CheckShape` | src/runtime/kernels/cpu_kernel_adapter.cpp:444-468 | a shape exactly when counts are positive, heads divide and row sizes match, with the matching error otherwise |
| `TokenAttention.Interleave` | src/runtime/kernels/cpu_kernel_adapter.cpp:590-608 | the buffer holds head h of every token at [h, token], each key head repeated for its group |
| `TokenAttention.AttendChunk` | src/runtime/kernels/cpu_kernel_adapter.cpp:584-623 | interleaving, flash attention and bringing tokens back gives every token attention over the tokens it may see |
| `TokenAttention.AttentionUnique` | src/runtime/kernels/cpu_kernel_adapter.cpp:584-749 | query and visible rows determine a token's result |
| `TokenAttention.HeadsShareKeys` | src/runtime/kernels/cpu_kernel_adapter.cpp:450-470 | query heads j * group to j * group + group - 1 attend with key head j |
| `KVCaches.KVCache.Init` | src/runtime/cache/kv_cache.cpp:17-40 | initialized exactly for positive arguments |
| `KVCaches.KVCache.SetCachedLen` | src/runtime/cache/kv_cache.cpp:110-112 | the length is clamped to 0..max_seq_len |
| `KVCaches.KVCache.Attention` | src/runtime/kernels/cpu_kernel_adapter.cpp:626-749 | the prefill and decode paths succeed exactly as their guards say, copy the rows behind the cached ones in the flat storage of the layer, and attend over all cached rows |
| `KVCaches.StepLayer` | src/runtime/kernels/cpu_kernel_adapter.cpp:626-749 | a prompt on an empty layer, or one token behind the cached ones, extends the layer and its outputs by causal attention |
| `KVCaches.CachedEqualsRecomputed` | src/runtime/kernels/cpu_kernel_adapter.cpp:584-749 | step-by-step outputs from the cache equal one causal pass over all tokens |
| `ContiguousPasses.RopeNode` | src/runtime/kernels/cpu_kernel_adapter.cpp:394-420 | row s is rotated for the position that RoPE starts from plus s |
| `ContiguousPasses.LayerNodes` | src/runtime/kernels/cpu_kernel_adapter.cpp:394-749 | RoPE starts at exactly the position at which attention copies the first row: behind all cached tokens |
| `ContiguousPasses.RunLayers` | src/runtime/executor.cpp:45-77 | in one pass RoPE starts in every layer at the number of tokens cached before the pass, and the shared length moves once |
| `ContiguousPasses.PrefillAndDecode` | examples/generate.cpp:201-300 | after prefill and any number of decode steps through all layers, every output is causal attention over all tokens of its layer up to its own, with every query and key rotated for its own position in the stream |
| `ForwardPasses.WriteChunk` | src/runtime/kernels/cpu_kernel_adapter.cpp:493-499 | a chunk's rows land at write_pos.. of one layer and nothing else changes; it succeeds exactly when the layer exists and the whole chunk finds room |
| `ForwardPasses.AttendPaged` | src/runtime/kernels/cpu_kernel_adapter.cpp:502-580 | a single token attends to all rows of its sequence, a token of a longer chunk to the rows up to its own position |
| `ForwardPasses.PassContext.AttentionNode` | src/runtime/kernels/cpu_kernel_adapter.cpp:480-581 | the node fixes the write position once, writes there and attends; it succeeds exactly when the chunk is empty, or the sequence id is valid, the layer exists and the chunk finds room |
| `ForwardPasses.PassContext.AdvanceStep` | src/runtime/runtime_context.cpp:222-243 | the write position is forgotten on every path; success exactly when there is nothing to advance or the contiguous cache has the room, and only then does its length grow |
| `ForwardPasses.PassContext.RunPass` | src/runtime/executor.cpp:45-77 | on the paged cache, from any write position: success exactly when every node can do its work and the KV cache can advance; then all RoPE and attention nodes used one base position and the length grew once whatever the number of layers; failed or not, no row outside the chunk changed, and only a pass that fails in a node keeps its position |
| `PassTheorems.PassesDoNotInterfere` | src/runtime/kernels/cpu_kernel_adapter.cpp:480-500 | a pass over one sequence, failed or not, leaves rows, table and length of every other sequence alone |
| `PassTheorems.PassExtendsHistory` | src/runtime/kernels/cpu_kernel_adapter.cpp:480-581 | if a layer holds a sequence's history up to the base position, a pass extends it by its own tokens and each output is attention over exactly the history up to that token |
| `PassTheorems.PagedEqualsRecomputed` | src/runtime/kernels/cpu_kernel_adapter.cpp:480-581 | a paged output equals the row that one causal pass, or the contiguous cache, computes |
| `PassTheorems.AppendsDoNotAlign` | src/runtime/cache/paged_kv_cache.cpp:441-444 | appending the same tokens to one layer and then to another puts them that many positions later in the second, whose rows at the old length stay as they were |
| `PassTheorems.PassAppendsIff` | src/runtime/kernels/cpu_kernel_adapter.cpp:480-499 | a pass appends its tokens to its sequence if and only if no position was kept or the kept one is the sequence's length; below it a row of the history is overwritten, above it the length covers a row that the pass did not write |
| `PassTheorems.RetryExtendsOnce` | src/runtime/executor.cpp:45-77 | repeating a failed pass on its sequence extends the history from before the failure by the chunk, once, with the right outputs |
| `PassTheorems.StalePosition` | src/runtime/kernels/cpu_kernel_adapter.cpp:480-487 | a concrete run: after a pass over sequence 0 that failed behind its attention node, the next pass writes the only token of sequence 1 at position 1 and reports length 2 |
| `PassRuns.RunPasses` | src/runtime/executor.cpp:45-77 | any number of passes over any sequences succeed exactly when every node can work, the free blocks cover what the passes take together, and the contiguous cache has the room; then every layer of every sequence holds the tokens of its passes in order, and each output attends to exactly the tokens of its own sequence up to itself; otherwise the histories of the passes before the failed one are kept |
| `PassRuns.ReservedFits` | src/runtime/cache/paged_kv_cache.cpp:327-349 | with the room of all passes reserved and nothing for the contiguous cache to take, passes whose nodes can work all succeed |
| `PassRuns.PassesEqualRecomputed` | src/runtime/kernels/cpu_kernel_adapter.cpp:480-581 | every output of such a run is the row that one causal pass over its sequence's whole history computes |
| `PassRuns.AdmittedPassFits` | src/runtime/continuous_batch_scheduler.cpp:55-77 | an active sequence has the room for every pass within its prompt and token limit |
| `MixedRadix.IndexThenLinear` | src/runtime/kernels/cpu_kernels.cpp:789-802 | every position has a multi-index inside the dims and is that multi-index's position |
| `MixedRadix.LinearThenIndex` | src/runtime/kernels/cpu_kernels.cpp:789-802 | every multi-index inside the dims has a position and is that position's multi-index |
| `MixedRadix.IndexFromRight` | src/runtime/kernels/cuda_kernels.cu:485-498 | digits peeled from the last axis are the digits found from the first |
| `Transposes.Strides` | src/runtime/kernels/cpu_kernels.cpp:779-784 | each stride is the product of the later dims |
| `Transposes.Transpose` | src/runtime/kernels/cpu_kernels.cpp:763-808 | for every rank, dims and axes the output position holds the input at the position with exchanged digits |
| `Transposes.TransposedAt` | src/runtime/kernels/cpu_kernels.cpp:763-808 | the output at a multi-index is the input at the multi-index with the two axes exchanged |
| `Transposes.TransposeTwice` | src/runtime/kernels/cpu_kernels.cpp:763-808 | transposing again with the same axes restores the input |
| `Transposes.CudaSource` | src/runtime/kernels/cuda_kernels.cu:477-500 | the right-to-left digit loop finds the same source position as the CPU |
| `Gemm.PartialIsDot` | src/runtime/kernels/cpu_kernels.cpp:70-108 | the element of the product is the dot product of a row and a column |
| `Gemm.Sgemm` | src/runtime/kernels/cpu_kernels.cpp:70-108 | for every size, tile and vector width the tiled loops over the flat row-major buffers compute the plain product |
| `Gemm.SgemmNt` | src/runtime/kernels/cpu_kernels.cpp:137-198 | every element of the flat result is the dot product of two rows of the flat operands, whatever the width and the unrolling |
| `Gemm.TransposedAgrees` | src/runtime/kernels/cpu_kernels.cpp:70-196 | the two layouts compute the same product |
| `Gemm.Dequantize` | src/io/gguf_weight_loader.cpp:446-463 | block by block, every element is its block's scale times its signed byte |
| `Gemm.SignedBytes` | src/runtime/kernels/cpu_kernels.cpp:45-51 | bytes below 128 stand for themselves and the others for 256 less: 0xFF is -1 |
| `Gemm.Q8Bytes` | src/io/gguf_weight_loader.cpp:446-463 | an element is the scale of the first two bytes of its block of 34 times its own signed byte |
| `Gemm.SgemmQ8` | src/runtime/kernels/cpu_kernels.cpp:116-130 | the Q8_0 product equals dequantizing and then multiplying |
| `Gemm.SgemmNtQ8` | src/runtime/kernels/cpu_kernels.cpp:208-218 | the transposed Q8_0 product equals dequantizing and then multiplying |
| `Gemm.MatrixElement` | src/runtime/kernels/cpu_kernels.cpp:124-126 | a row-major buffer holds element (i, j) at i * cols + j |
| `GgufProofs.EncodedBack` | src/io/gguf_parser.cpp:280-305 | little-endian numbers are read back from their bytes |
| `GgufProofs.ValueBack` | src/io/gguf_parser.cpp:343-401 | every metadata value, arrays nested to any depth included, is read back and nothing more is consumed |
| `GgufProofs.PairsBack` | src/io/gguf_parser.cpp:403-416 | all metadata pairs are read back in order |
| `GgufProofs.InfoBack` | src/io/gguf_parser.cpp:430-466 | a tensor entry with its dims written in reverse is read back row-major |
| `GgufProofs.HeaderBack` | src/io/gguf_parser.cpp:498-537 | the reader inverts the writer on every header within the limits, whatever follows it |
| `GgufProofs.AllPairsKept` | src/io/gguf_parser.cpp:413-413 | with distinct keys the metadata holds exactly the written pairs |
| `GgufProofs.FirstPairWins` | src/io/gguf_parser.cpp:413-413 | a repeated key keeps its first value |
| `GgufProofs.DataOffsetLeast` | src/io/gguf_parser.cpp:539-553 | the data offset is the least aligned offset at or after the header's end |
| `GgufFormat.ValueFromBytes` | src/io/gguf_parser.cpp:343-401 | for every type tag from 0 to 12, what the bytes behind it are read as, in numbers, arrays of any depth included |
| `GgufFormat.PairFromBytes` | src/io/gguf_parser.cpp:403-416 | a pair is eight bytes of length, the key, the four bytes of the tag, and the value |
| `GgufFormat.BlockCount` | src/io/gguf_parser.cpp:343-416 | the bytes 20 00 00 00 are the number 32 under tag 4 and the bits of a float under tag 6 |
| `GgufFormat.MatrixFromBytes` | src/io/gguf_parser.cpp:430-466 | the tensor table entry of a matrix, byte by byte: name, number of dims, columns, rows, type, offset |
| `GgufFormat.HeaderFromBytes` | src/io/gguf_parser.cpp:498-537 | the file begins with GGUF, version 3, the number of tensors and the number of pairs; then come the pairs and the tensor table |
| `GgufFormat.OtherStarts` | src/io/gguf_parser.cpp:505-519 | any other magic is an invalid argument and any other version unsupported |
| `GgufFormat.RefusedBytes` | src/io/gguf_parser.cpp:318-401 | unknown tags, strings beyond 67108864 bytes and arrays beyond 16777216 elements are refused |
| `GgufFormat.RefusedTensors` | src/io/gguf_parser.cpp:430-455 | a tensor without dims, with more than 8, or with a dim of 0 or beyond a signed 64-bit number is refused |
| `GgufFormat.RefusedCount` | src/io/gguf_parser.cpp:420-428 | more than 1048576 tensors are refused |
| `GgufReaders.GgufStream.Value` | src/io/gguf_parser.cpp:343-401 | the recursive reader agrees with the specification and terminates because every element consumes bytes |
| `GgufReaders.GgufStream.Metadata` | src/io/gguf_parser.cpp:403-416 | the map built by the loop is the first-wins map of the pairs read |
| `GgufReaders.GgufStream.Dims` | src/io/gguf_parser.cpp:444-455 | the dims end up row-major, the reverse of their file order |
| `GgufReaders.GgufStream.Parse` | src/io/gguf_parser.cpp:498-561 | the file's counts, metadata, tensor table and data offset, or the first error |
| `GgufReaders.WriteThenParse` | src/io/gguf_parser.cpp:498-561 | parsing what the writer wrote returns every pair, the tensor table, and the least multiple at or after the header of the number under general.alignment, or of 32 without such a pair |

## Left out

- The CUDA build: arenas, tensors and caches on a device; an arena or tensor on a CUDA device is the unsupported case of a build without CUDA. The three CUDA kernels that are modelled are read sequentially, without threads and reductions.
- Floating-point rounding, NaN and infinities: kernels work over the reals, a masked score is a separate case instead of negative infinity, and the uniform fallback of softmax is reached only by an empty row.
- The arithmetic of RoPE, which is any function of a row and its position, RMSNorm, SiLU and SwiGLU arithmetic, f16 and bf16 conversion, the sampler, configuration and weight-name mapping, most shape inference, the kernel registry beyond membership, dumps and reports.
- Names, error texts and skip reasons; a status is success or its error code.
- Overflow of int positions and lengths; sizes that the planner checks against overflow are modelled with that check.
- The iteration order of unordered maps in arena allocation, which only renumbers blocks, and the order in which std::sort leaves ties; the theorems hold for every such order.
- Letters and digits of the pre-tokenizer are arbitrary classes of code points. It does not follow the GPT-2 pattern: behind a space in front of a letter it does not cut the text any further (PreTokenizers.SpaceTakesRest), and the model follows the code.
- Tokenizer initialization from GGUF metadata: vocabulary, ranks and added tokens are parameters.
- Graph nodes of kind Output exist in the executor model, but the builder never makes one; a value that is only listed by such a node and not of kind Output may be overwritten after its last use.
- GGUF file streams, memory mapping, tensor views and tensor data; the reader works on a byte sequence. Floating-point metadata is kept as bits.
- Executors.RunNode: a kernel reads all its inputs before it writes its outputs; kernels that work in place are covered because their input and output tensors never share bytes.
- Executors.RunPlanned: the status of the KV-cache step at the end of a run is a parameter; the step itself is modelled in ForwardPasses.PassContext.AdvanceStep.
- PreTokenizers.PreTokenize: requires scannable text; a truncated last character makes the source read past the end of the text, and where other malformed text is cut is not modelled.
- KVCaches.StepLayer: the streams and the numbers of tokens are those of a run that fits into the cache; the guards of the kernel are in KVCaches.KVCache.Attention.
- Tokenizers.Encode: requires scannable text and scannable added tokens; for the same reason, since each run goes through the pre-tokenizer.
- PassRuns.RunPasses: every pass has a non-negative sequence id, at least one token and at most one attention node per layer, as the models that use it have; the run starts from empty sequences and requires a context that kept no write position, which is what a fresh context has.
- ForwardPasses.PassContext.AttentionNode: requires the cache to have the node's head count and head size, which the source does not check; with other counts it would address rows of the wrong width.
- GgufReaders.GgufStream.Parse: an alignment of zero, by which the source divides, is an error here; opening the file and attaching its memory view are not modelled.
- GraphBuilders.GraphBuilder.Operator: stands for all operator methods; the inferred shape or its error, the dtype and the device are parameters, and attributes are not modelled.
- PagedKVCaches.PagedKVCache.WriteTokens: null pointers are not modelled; the buffers have the size that the source assumes.
- KVCaches.KVCache.Attention: a cache made for another row size than the node's has to be large enough for the rows; the source checks only its length, and would write past the end of a smaller one.
- Transposes.Transpose: negative axes are resolved by its caller and are not part of this model.
