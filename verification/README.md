# Verified model of the decoders and planners

The repository takes compressed archives apart and rebuilds files from binary patches. Its
decoders keep explicit state: heaps, rings, range coders, code tables, worklists. This project
models that state in Dafny, in the form the Go code has (classes and arrays where it updates
fields and slices in place, step systems where it runs goroutines), and proves what each decoder
means.

- **Future-LZ kernel** (`Srep*`, `ChunkMemory`, `MatchHeap`, `SpillFormat`, `SpillWalk`). The chunk
  allocator, the treap with parent pointers, spilled blocks and the block decoder are methods over
  the original's fields. A finished decoding is *explained*: every byte of the output is the next
  literal or repeats the byte its match points at, wherever that match waited. Whether any match was
  left out is a condition on the bytes of the stream alone, and when none was, memory limits and
  spills leave no trace in the output.
- **Constant propagation over installer bytecode** (`Ps*`). The worklist analysis ends without its
  step cap in the least fixed point of a monotone transfer function. Every argument it reports as
  known is the value in every run of a concrete interpreter that reaches the call, and of runs that
  leave nothing to chance it knows all there is to know.
- **rANS with adaptive models** (`Ans*`). What a specification encoder writes, the decoder reads
  back, for all mixtures of adaptive bits, symbols, mixed symbols and raw bits. Learning a value never
  makes it less likely.
- **Recipe scheduler** (`Recipe*`). Dependencies from the read and write tables, and exactly which
  recipes end in the same files in every order those allow.
- **Parallel block decoder** (`ParallelBlocks`, `ParallelEnds`). Producer, workers and consumer as
  steps; safety and delivery over all interleavings.
- **Tornado** (`Tor*`). The adaptive Huffman decoder from its buffered byte input up: bits, lookup
  tables, rebuilds, and the tree as a rule says it. A specification encoder that rebuilds in step is read back over whole runs. The
  adaptive counter and the circular output window.
- **Vorbis codewords and lookup sizes** (`Vorbis*`), sections 3.2.1 and 9.2.3 of the Vorbis I specification.
- **Patch decoders** (`Xd*` for VCDIFF, sections 5 and 6 of RFC 3284; `X5*` for HDIFF13 covers), each with
  a specification writer that they read back.
- **x4 cipher** (`X4*`). Decrypting in place undoes encrypting in place.

`Bytes`, `Counting` and `Permutations` hold what several parts share.

## Where the code falls short of a property

- A spilled block is marked with the destination of the last match it took. The walk that fills it
  is cyclic, so this need not be the first destination of the block. `Kernel.Save` proves that it
  is exactly when `SpillWalk.Late` is false of the heap before the call. `SrepSpillExample.LosesMatch`
  decodes a stream of three blocks to its end and leaves out a match that was due;
  `SrepStream.LeftOut` says of every stream, on its bytes, whether that happens.
- The scheduler remembers only the last reader of a file. `RecipeNeeds.DeterministicIff` says for
  every recipe whether its dependencies suffice: exactly when they order each forgotten reader whose
  effects last before the writer that follows it. `RecipeRuns.TwoReaders` is a recipe they do not suffice for.
- A cancellation from outside can be reported as the end of the stream, in place of blocks or of an
  error. `ParallelEnds.EarlyEndIff` says from which states: exactly when no error is on its way to the
  reader, and the input is unreadable at its end or some block is not on its way.

## Model

| member | source | states |
|---|---|---|
| SrepStream.LimitsDoNotMatter | stream/srep/future.go:352-589 | two finished decodings of the same blocks, whatever their memory: either both applied every due match or neither did, and when the stream fills its output they agree byte for byte |
| SrepStream.DecodeTwice | stream/srep/future.go:456-471 | two kernels with different memory limits and spill sizes over the same bytes: runs that finish agree when the stream fills its output, which one run without a late spill shows |
| SrepStream.LeftOut | stream/srep/future.go:503-589 | all due matches were applied if and only if the due match lengths and the literals add up to the output size, a sum over the stream alone |
| SrepStream.Decode | stream/srep/reader.go:146-210 | header by header: a finished run splits the input into blocks, its literals are the blocks' literals in order, its matches are theirs, and each output byte is explained; without a late spill no match is left out; with no empty matches the restore budget cannot run out when it exceeds a block |
| SrepStream.WireBack | stream/srep/reader.go:146-190 | blocks put on the wire are the blocks the reader finds |
| SrepStream.StreamBack | stream/srep/reader.go:146-190 | from matches and literals to the bytes of a stream and back: the reader finds exactly those |
| SrepHistory.SameOutput | stream/srep/future.go:503-589 | the output is a function of literals, matches and length: two explained outputs that applied the same matches are equal, overlapping copies included |
| SrepHistory.CompleteMeans | stream/srep/future.go:503-589 | every due match was applied if and only if the sizes add up |
| SrepKernel.Kernel.Block | stream/srep/future.go:503-589 | one block: success extends the explained history by exactly the block's bytes, literals and matches and keeps the kernel's invariant; bad statistics are refused; a block that nothing waits for always succeeds when its matches fit in memory, and then holds exactly those, or when its one match fits after one save, and then the heap is what the save leaves and that match |
| SrepKernel.Kernel.Drain | stream/srep/future.go:516-563 | the copy loop ends with no due match in the heap, and each restore lets the block go on by a byte at least when no match is empty |
| SrepKernel.Kernel.Save | stream/srep/future.go:352-411 | fails exactly when the walk finds nothing to spill; otherwise no pending match is lost, chunks are freed, the heap is what the course of the walk leaves with a mark for what it took, and the mark is at the block's first destination if and only if the heap before the call is not Late |
| SrepKernel.Kernel.Restore | stream/srep/future.go:413-447 | the block behind a mark is back in memory, its number is free, nothing pending changed |
| SpillWalk.OneWhole | stream/srep/future.go:361-393 | the heap before a save decides the whole course of its walk |
| SpillWalk.LateIs | stream/srep/future.go:361-393 | Late holds of a heap if and only if the course of the walk passes the front and spills after that |
| SrepSpillExample.ThreeLate | stream/srep/future.go:361-393 | over three held matches below the barrier, with room for all, the walk spills the third, the first, and then the second |
| SrepSpillExample.LosesMatch | stream/srep/future.go:503-589 | three blocks, decoded one after the other from a new kernel to the end of the stream, for any literals of three given lengths: the output is explained, but a match due in it was left out |
| SpillFormat.DecodeStats | stream/srep/future.go:478-495 | the matches whose records the bytes are, each with the literals skipped before its source, the way to its destination and its length beyond the least one; refused exactly when no list of matches is recorded |
| SpillFormat.StatsIff | stream/srep/future.go:478-495 | a list of matches is read if and only if it fits the block and the bytes are what a writer lays down for it, and at most fifteen more |
| SpillFormat.StatsBack | stream/srep/future.go:478-495 | what a writer lays down for any list of matches that fits the block is read back, for every least length |
| ChunkMemory.MemMgr.Save | stream/srep/future.go:77-96 | the bytes are stored under a new head and every other chain keeps its bytes; chunks in use grow by the rounded-up number; a save no longer than available stays within the limit |
| ChunkMemory.MemMgr.Restore | stream/srep/future.go:98-105 | copies back the stored bytes and changes nothing else |
| ChunkMemory.MemMgr.FreeChain | stream/srep/future.go:107-113 | exactly one chain is gone; used, free and chunk 0 still account for all chunks |
| MatchHeap.Heap.Insert | stream/srep/future.go:200-233 | adds exactly one node with the next stamp; tree order, priorities and parent links hold |
| MatchHeap.Heap.EraseNode | stream/srep/future.go:235-254 | removes exactly that node, and nothing when it is not there |
| MatchHeap.Heap.EraseDest | stream/srep/future.go:256-279 | removes exactly the nodes of one destination |
| MatchHeap.Heap.Prev | stream/srep/future.go:281-296 | the neighbour before a node in the order of destination and stamp |
| MatchHeap.Heap.Next | stream/srep/future.go:298-313 | the neighbour after a node |
| MatchHeap.Heap.Rightmost | stream/srep/future.go:315-321 | the last node |
| MatchHeap.Heap.Begin | stream/srep/future.go:323-331 | the first node |
| PsCalls.Calls | setupdata/plan.go:146-355 | recursion beyond depth 32 is refused; the records are of watched calls, have sites of their own, in program order, and name the calls there; when the layouts agree at joins, every call event of every concrete run from agreeing parameters is recorded at its site, and every argument recorded there as known is the one passed; a call in a whole run that leaves nothing to chance and never comes back to an instruction is recorded with every string and number it passes; where such a run exists, nested calls included, the analysis does not fail |
| PsExample.RecordsPath | setupdata/plan.go:146-355 | a script that joins two constants and deletes the file: the deletion is recorded with the whole path |
| PsExact.CalcExact | setupdata/plan.go:184-200 | a calculated value is known if and only if the operands allow one value only, and then it is that value; joined strings up to 2^20 characters |
| PsExact.TooLong | setupdata/plan.go:187-189 | longer joined strings are given up |
| PsExact.CompareExact | setupdata/plan.go:246-258 | the same for comparisons |
| PsExact.InvertExact | setupdata/plan.go:259-268 | the same for negation |
| PsExact.ReturnExact | setupdata/plan.go:219-244 | the same for what calls return |
| PsExact.EffectKnows | setupdata/plan.go:181-281 | when every string and number in memory is known, it is so after each instruction whose result the operands determine |
| PsSure.RunIsLine | setupdata/plan.go:163-333 | a whole run that leaves nothing to chance is the one line of states that the transfer function makes, and these say all there is to say of its points |
| PsSure.StepIsReal | setupdata/plan.go:163-333 | a step that leaves nothing to chance is a step of the concrete interpreter |
| PsSolve.Solve | setupdata/plan.go:161-333 | on success a post-fixpoint of the transfer function over all reachable instructions, and when references agree at joins the least: no fixed point says more anywhere; on code that goes one way it succeeds with exactly the states on that way; the loop ends by a measure of its own, without the step cap |
| PsMonotone.FlowMore | setupdata/plan.go:181-316 | the transfer function is monotone: from more knowledge no new successor, and no less known there |
| PsMonotone.JoinLeast | setupdata/plan.go:91-114 | of all states that both sides confirm, the join knows most |
| PsFlow.ImportedBack | setupdata/plan.go:116-135 | the signature read from a library import is the one it was declared with |
| PsFlow.DirOfIs | setupdata/plan.go:230-232 | a directory ends behind the last separator |
| PsFlow.WrapIs | setupdata/plan.go:190-197 | sums and differences are the one number of 64 bits, two's complement, that differs by a multiple of 2^64 |
| PsSolve.RunCovered | setupdata/plan.go:163-333 | every point of every run is covered by the abstract state of its instruction |
| AnsDecoder.DecodeStream | stream/magic2/entropy.go:17-98 | the bytes of the specification encoder decode to the encoded values, and finish accepts |
| AnsStream.RoundTrip | stream/magic2/entropy.go:26-98 | any decoding trace of an encoded stream finds the encoded values and ends in the encoder's first state with no byte left |
| AnsStream.EncodeBounds | stream/magic2/entropy.go:26-34 | the state stays in [2^23, 2^31) |
| AnsStream.SliceUnique | stream/magic2/entropy.go:81-89 | no state lies in the slices of two values |
| AnsModels.AdaptWide | stream/magic2/entropy.go:65-73 | adaptation never leaves int16 and keeps every interval at least floor(2^k / n) wide |
| AnsModels.AdaptCdf | stream/magic2/entropy.go:65-73 | the loop on the array does that adaptation |
| AnsModels.MixtureCdf | stream/magic2/kernel.go:59-70 | the mixture of two wide tables is a strictly increasing CDF from 0 to 32768 |
| AnsModels.WeighedOk | stream/magic2/kernel.go:71-75 | the mixing weight never reaches 0 or wraps |
| AnsModels.WeighedStep | stream/magic2/kernel.go:71-74 | the weight goes a sixteenth of the way to the table that found the symbol likelier |
| AnsModels.WeighedLikelier | stream/magic2/kernel.go:71-74 | by the new weight, the symbol's mean width in the two tables is no less than by the old one |
| AnsModels.MixtureMeans | stream/magic2/kernel.go:64-69 | each width of the mixture is the weighted mean of the two, but for rounding by less than two |
| AnsModels.AdaptLearns | stream/magic2/entropy.go:65-73 | learning a symbol widens no interval but its own, and does not narrow that |
| AnsModels.AdaptStep | stream/magic2/entropy.go:65-73 | each boundary goes the 2^k-th part of its way, rounded down |
| AnsCoder.BitNextMoves | stream/magic2/entropy.go:36-50 | the probability of the bit seen grows by the 2^shift-th part of the rest, rounded down |
| AnsStream.LearnFavours | stream/magic2/kernel.go:50-80 | for every operation: the slice of the value learnt does not get smaller, for a mixture by no more than 3 of 32768 from rounding, and no other bit's or symbol's slice gets larger |
| AnsDecoder.Decoder.Mix | stream/magic2/kernel.go:59-80 | one mixed symbol: the value is the one whose slice of the mixture holds the state, and tables and weight learn it, as AnsStream.LearnFavours says |
| RecipeOrder.Plan.ScheduleLeaf | reconstruct_schedule.go:178-257 | the dependencies of a leaf are exactly the last writers of its files, the last readers of its outputs and the barriers |
| RecipeLive.SameAsSerial | reconstruct_schedule.go:215-257 | when the forgotten readers whose effects last are ordered, every allowed order leaves the files of recipe order |
| RecipeLive.OneReaderSerial | reconstruct_schedule.go:215-257 | with at most one reader of a path between its writes, so does every allowed order |
| RecipeRuns.OrderedIff | reconstruct_schedule.go:240-257 | the dependencies order every conflict if and only if they order each forgotten reader before the next writer |
| RecipeRuns.TwoReaders | reconstruct_schedule.go:250-252 | copy, copy, delete: an allowed order loses a file that recipe order leaves |
| RecipeNeeds.DeterministicIff | reconstruct_schedule.go:215-257 | for every recipe, all allowed orders end alike for all actions if and only if each forgotten reader whose effects last comes before the next writer |
| RecipeNeeds.ForgottenReader | reconstruct_schedule.go:250-252 | each unordered forgotten reader whose effects last comes with actions, files and an allowed order that end differently |
| ParallelBlocks.StepInv | stream/fourx4/reader.go:138-251 | every step of producer, workers and consumer keeps the invariant: each sequence number is in exactly one place, messages are true, cancellation has a cause |
| ParallelBlocks.EmittedPrefix | stream/fourx4/reader.go:191-213 | what was emitted is a prefix of sequential decoding |
| ParallelBlocks.EofComplete | stream/fourx4/reader.go:191-213 | without cancellation from outside, the end is reported only after every block, none failed |
| ParallelBlocks.Progress | stream/fourx4/reader.go:138-251 | while the reader waits some step other than a cancellation is enabled: no deadlock |
| ParallelBlocks.Delivers | stream/fourx4/reader.go:138-251 | every schedule is finite, and one that cannot go on has told the truth: the end exactly when nothing failed, after all blocks in order |
| ParallelEnds.EarlyEndIff | stream/fourx4/reader.go:138-213 | from every running state, some continuation reports the end of an input that is unreadable or not emitted in full if and only if no error is on its way to the consumer, and the input is unreadable at its end or some block is not on its way |
| ParallelEnds.CancelledEmpty | stream/fourx4/reader.go:138-213 | cancelled at once, every input can look empty |
| TorHuffman.HuffTree.Build | stream/tor/huffman.go:37-174 | a rebuild makes the tree the rule says, and tables that decode its codewords; it fails exactly for depth above 28, which takes counters of at least the matching Fibonacci number together; counters age by the mode |
| TorRule.GrownIs | stream/tor/huffman.go:82-113 | the merged buffer is a tree by that rule, each node weighs what its children weigh, and children have their parent's codeword with a 0 or a 1 behind it |
| TorRule.GrownOnly | stream/tor/huffman.go:82-113 | the rule and the leaves' weights fix all merges, lengths and codewords |
| TorHuffman.ByRuleOnly | stream/tor/huffman.go:37-113 | there is one tree by the rule for any counters |
| TorHuffman.AgedMeans | stream/tor/huffman.go:145-172 | a counter loses the factor-th part of it, or one when it is less than the factor, but never its last |
| TorHuffman.Leaves | stream/tor/huffman.go:37-113 | sorting, merging and the codewords: the buffer holds the one tree of the counters |
| TorHuffman.IsTreeOnly | stream/tor/huffman.go:37-113 | the counters fix order, depths and codewords |
| TorHuffman.HuffTree.constructor | stream/tor/huffman.go:14-28 | the first tree is that of counters all 1, and valid: its build cannot fail |
| TorHuffman.HuffTree.Sym | stream/tor/huffman.go:176-185 | for every window of maxbits bits, the one symbol whose codeword the window begins with; no stale entry is read |
| TorHuffman.FreshFunds | stream/tor/huffman.go:145-172 | after any rebuild the counters can take 131071 more symbols and still fit the widths a rebuild relies on |
| TorDecoder.HuffDec.DecodeSym | stream/tor/huffman.go:197-219 | the next symbol that is not the tree's own: of what a coder in step has written, rebuilds in between included, it is the next symbol, and the rest is still in step; over whole runs the counters stay in their widths |
| TorRoundTrip.DecodeAll | stream/tor/huffman.go:197-219 | repeated calls read back what was written in step, over all rebuilds, and all of it when the words go more than 32 bits further |
| TorRoundTrip.ThereAndBack | stream/tor/huffman.go:14-219 | a new decoder reads back all symbols from the bytes of the specification encoder, over all rebuilds; there are such bytes exactly when no tree on the way gets deeper than 28 |
| TorWriter.Write | stream/tor/huffman.go:37-219 | the specification encoder keeps counters and tree in step with the decoder, and gives up exactly at a tree that no decoder would build |
| TorDecoder.BitIn.Need | stream/tor/stream.go:95-101 | refilling changes nothing of what is still to be read, and gives its lowest bits |
| TorBytes.ByteIn.Get | stream/tor/stream.go:28-81 | the buffered input gives the bytes of the source in order, over all refills, and behind the end the ones its buffer still holds there |
| TorWriter.SpellsOnly | stream/tor/huffman.go:176-185 | the bits spell one symbol and leave one rest |
| TorCodes.Assign | stream/tor/huffman.go:102-113 | the codeword loop: every word reaches exactly one leaf, the shares add up to 1, the first leaf is deepest |
| TorTree.MergeAll | stream/tor/huffman.go:82-101 | the two-queue merge never takes a fence for a node; each node is heavy for its height; each merge follows the rule: two leaves when no inner node waits or the second leaf is lighter than the first inner node, else two inner nodes when no leaf waits or the second is lighter than the first leaf, else one of each |
| TorSort.SortLeaves | stream/tor/huffman.go:38-80 | the bucket pass and the insertion sort leave the symbols in the order of count, then symbol |
| TorLookup.LookupRight | stream/tor/huffman.go:124-144 | the two filled tables give a leaf's symbol for every window its codeword begins |
| TorWindow.Window.Run | stream/tor/decompress.go:85-215 | the ring with incremental flushing emits what an unbounded array would, and accepts whenever the tokens stay within the window |
| TorWindow.RepeatMeans | stream/tor/decompress.go:121-151 | each byte of an overlapping copy equals the byte one distance before it |
| TorCounter.Counter.Rescale | stream/tor/arith.go:88-109 | counts in use become the live counts; all at least 1, together 16384, with live counts and remainder adding up again |
| TorCounter.ShrunkMeans | stream/tor/arith.go:88-109 | a live count loses a sixth, or one when it is less than six, but never its last |
| TorCounter.Counter.Inc | stream/tor/arith.go:111-117 | one symbol more; the remainder never goes below its bound |
| TorCounter.Counter.Decode | stream/tor/arith.go:119-131 | the binned search finds the symbol whose interval holds the count, and refuses exactly counts past the total |
| TorCounter.OwnerUnique | stream/tor/arith.go:119-131 | no count lies in two symbols' intervals, so a linear scan finds the same |
| VorbisCodes.BuildCodes | stream/mpzz/audio.go:11-44 | succeeds if and only if the lengths are feasible (Kraft sum at most 1, none above 32); each entry has the least prefix of its length that no entry before it has taken any word of; codewords and free nodes then divide up all 32-bit words |
| VorbisCodes.DeepestFirst | stream/mpzz/audio.go:29-39 | the deepest free node that is not too deep begins with the first open prefix |
| VorbisCodes.Hole | stream/mpzz/audio.go:29-39 | free nodes of different depths, all deeper than a length, never make up a prefix of that length |
| VorbisCodes.Oversubscribed | stream/mpzz/audio.go:29-35 | when no free node is short enough, no code with these lengths exists |
| VorbisBits.ReadsOne | stream/mpzz/audio.go:11-44 | codewords are prefix-free: no bits begin with two of them |
| VorbisBits.ReadBack | stream/mpzz/audio.go:46-52 | the written codewords fall into codewords in one way only, the symbols written |
| VorbisBits.WalkParses | stream/mpzz/audio.go:11-44 | a decoder that takes bit after bit finds a list of symbols if and only if the bits are their codewords |
| VorbisBits.WalkBack | stream/mpzz/audio.go:46-52 | that decoder finds in the written codewords exactly the symbols written |
| VorbisBits.WriteAll | stream/mpzz/audio.go:46-52 | symbols written through the bit writer are what that decoder finds in its bits; refused exactly for symbols without a codeword |
| VorbisBits.BitWriter.WriteSymbol | stream/mpzz/audio.go:46-52 | appends the codeword from its root bit on, or nothing for a symbol without one |
| VorbisBits.BitWriter.Write | stream/mpzz/setup.go:13-22 | appends the low n bits, lowest first, and keeps all earlier ones |
| VorbisLookup.LookupCount | stream/mpzz/setup.go:299-321 | the bisection finds the greatest number whose power dim is at most entries, without a product past entries (section 9.2.3 of the Vorbis I specification), and says what it gives for dim 0 and for no entries |
| VorbisLookup.RootUnique | stream/mpzz/setup.go:299-321 | only one number has that property |
| XdWindow.EmitWindow | reconstruct/xdelta/decode.go:378-429 | succeeds if and only if the instructions, run one half at a time over source segment and target, fill the window and use up all three sections; the target is what they make |
| XdRoundTrip.WindowBack | reconstruct/xdelta/decode.go:378-557 | the sections an encoder makes of any allowed instructions, with whichever of the 256 codes, pairs and implicit sizes included, decode to what the instructions make (sections 5 and 6 of RFC 3284) |
| XdRoundTrip.PlainSays | reconstruct/xdelta/decode.go:58-104 | every list of instructions can be written with the table's codes |
| XdWindow.CopyMeans | reconstruct/xdelta/decode.go:511-557 | a copy that runs into its own output repeats it |
| XdCodes.AddressBack | reconstruct/xdelta/decode.go:462-495 | decoding an encoded address in any mode gives it back and leaves the same caches (section 5.3 of RFC 3284) |
| XdCodes.NearIs | reconstruct/xdelta/decode.go:462-495 | the near cache has the last four addresses, each at its turn (section 5.1 of RFC 3284) |
| XdCodes.SameIs | reconstruct/xdelta/decode.go:462-495 | the same cache has at each place the last address that belongs there |
| XdCodes.ReadWrite | reconstruct/xdelta/decode.go:497-509 | reading a written integer gives it back and stops behind it |
| XdCodes.SizeIsLength | reconstruct/xdelta/decode.go:362-376 | the computed size is the written length |
| XdCodes.BuildTable | reconstruct/xdelta/decode.go:58-104 | the built array is the default code table of section 5.6 of RFC 3284, by its closed form |
| X5Covers.ApplyCovers | reconstruct/x5/decode.go:149-242 | succeeds if and only if covers parse in order and within bounds, literals fill the gaps and all sections are used up; the output is the patch |
| X5Covers.PatchInside | reconstruct/x5/decode.go:192-222 | inside a cover each byte is the old byte plus the expanded difference byte, mod 256 |
| X5Covers.PatchOutside | reconstruct/x5/decode.go:199-237 | outside covers each byte is the next literal |
| X5Covers.RleDec.Consume | reconstruct/x5/decode.go:256-328 | takes the next n expanded bytes, or fails exactly when there are not so many well-formed ones |
| X5Rle.TakeTwice | reconstruct/x5/decode.go:256-328 | taking a then b is taking a + b |
| X5Rle.FullTake | reconstruct/x5/decode.go:256-328 | what is taken and what is left make up the full expansion |
| X5Rle.FullDone | reconstruct/x5/decode.go:252-254 | nothing is left to expand if and only if the decoder is done |
| X5Writer.PatchBack | reconstruct/x5/decode.go:149-328 | covers in order, runs as long as the output and literals, laid down by a writer, are a good patch and make the output they say |
| X5Writer.CoversBack | reconstruct/x5/decode.go:161-203 | covers a writer lays down are read back, offsets forward and back |
| X5Writer.RunsBack | reconstruct/x5/decode.go:256-328 | the expanded stream is what was written: zeros, bytes of all ones, one byte over and over, bytes as they are |
| X5Writer.PackBack | reconstruct/x5/decode.go:330-360 | a number with its tag is read back, for every number below 2^64 |
| X4Buffers.DecryptUndoes | reconstruct/x4/cipher.go:182-222 | for every cipher, tables and buffer, decrypting what encrypting made gives the plain buffer back, the rest of fewer than eight bytes included |
| X4Buffers.EncryptUndoes | reconstruct/x4/cipher.go:182-222 | and the other way round |
| X4Buffers.ThereAndBack | reconstruct/x4/cipher.go:182-222 | for every key: two ciphers made from it, one encrypts in place, the other decrypts, and the buffer is as before |
| X4Buffers.Encrypt | reconstruct/x4/cipher.go:182-201 | every whole block is enciphered with the RC4 state its position calls for, the rest is untouched |
| X4Buffers.Decrypt | reconstruct/x4/cipher.go:203-222 | every whole block is deciphered with that same state |
| X4Cipher.InitialOfFinal | reconstruct/x4/cipher.go:73-112 | the initial permutation of a final permutation is the swapped halves |
| X4Cipher.FinalOfInitial | reconstruct/x4/cipher.go:73-112 | and back, for all eight bytes |
| X4Cipher.Unwound | reconstruct/x4/cipher.go:129-141 | the rounds with keys from the last undo the rounds in order, for every round count and round function |
| X4Stream.Keystream | reconstruct/x4/cipher.go:144-160 | eight bytes in place are two runs of four plain RC4 steps |
| X4Stream.Setup | reconstruct/x4/cipher.go:23-38 | the key setup leaves a permutation of the bytes |
| X4Stream.BoxShuffle | reconstruct/x4/cipher.go:144-180 | the state in front of every block is a permutation |
| X4Stream.BlockParamsAre | reconstruct/x4/cipher.go:168-180 | blocks go in pairs of which the second uses RC4; rounds go from 1 to 16, then 0, pair by pair |

## Left out

- SrepKernel.Kernel.Block: a budget bounds the spilled blocks that come back within one block; it is never used up when no match is empty and it exceeds the block's size, and no measure is known for empty matches.
- SrepStream.Decode: reading in pieces, buffer reuse, hashes and cancellation are not modelled; the input is all there.
- SrepStream.LimitsDoNotMatter: says nothing of runs that give up for lack of memory.
- MatchHeap.Heap.Insert: nodes are entries of a map under their stamps, so memory reuse of nodes is not captured; stamps do not wrap.
- ChunkMemory.MemMgr.Save: chunk numbers are unbounded where the original keeps them in 32 bits.
- SrepKernel.Kernel.Save: no bound on memory while a block comes back, which the code does not give either.
- PsCalls.Calls: holds for programs in which calls write only their result slot, parameters are never assigned, reference slots agree at joins and point at plain variables, reference chains are shorter than 64 and nothing is raised; writes through var parameters and globals that nested calls change are not tracked by the code, and the concrete runs have none: a call to an internal procedure leaves the caller's memory as it is, as its results are parameters, which are never assigned. Of runs that come back to an instruction, or in which a value is open, no more is promised than that the result is the least fixed point.
- PsSolve.Solve: the step cap stays in the model as an error result; the loop is also shown to end without it, and code that goes one way never meets it.
- Decoding bytecode into instructions, reading the container, and turning recorded calls into operations (setupdata/plan.go:373-461) start before and after this model; upper-casing is ASCII only.
- AnsDecoder.DecodeStream: contexts, predictors, images, audio and the buffer layer of magic2 are replaced by an arbitrary sequence of operations.
- RecipeLive.OneReaderSerial: paths are opaque; parsing recipes, hashing and failing leaves are not modelled.
- ParallelBlocks.Delivers: framing of blocks, options and the inner decoders are parameters; cancellation is a step.
- TorHuffman.HuffTree.Build: starts from counters whose widths hold; the history that keeps them so allows 131071 symbols between two rebuilds, and the code has no guard beyond that.
- TorDecoder.BitIn.Need: a horizon bounds how many words a run may read, as the input goes on for ever behind its end, where the buffer's old bytes come round; at the horizon the decoder stops with an answer of its own.
- TorWriter.Write: the encoder is a specification, there is none in the repository; it writes one number, lowest bits first, in place of a bit output.
- TorWindow.Window.Run: without data tables and the output cap, as tables across flushes rest on what only the encoder guarantees.
- TorCounter.Counter.Decode: the range decoder around the counter is not modelled.
- VorbisBits.BitWriter.Write: setting a bit is an addition in place of a bitwise or.
- The setup and audio decoders of mpzz are left out.
- XdRoundTrip.WindowBack: the encoder is a specification, there is none in the repository.
- XdWindow.EmitWindow: file header, window header, secondary compression and checksum are outside; the source segment is given.
- X5Covers.ApplyCovers: header and section decompression are outside.
- X5Writer.PatchBack: the writer is a specification, there is none in the repository; so are the writers of SpillFormat and SrepStream.
- reconstruct/x5n/sf20.go: its run-length layer is close to the one of x5 and would add easy members.
- X4Buffers.NewFarmCipher: the DES subkeys and the substitution tables are parameters, as the cipher is inverted for all of them.
- Padding, packing and the placeholder cipher of x4 are left out.
- I/O, readers, contexts, checksums, the command line and third-party codecs are left out throughout.
