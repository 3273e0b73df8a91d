# MachServe: verified host-side model

MachServe is an LLM inference engine written in Rust. Its GPU kernels are out of reach of a proof, but the code
around them is not: slot and page allocators, an expert cache, the continuous-batching scheduler, number formats, and
the preparation of multimodal prompts. This project models that host-side code in Dafny and proves what it is for.

`dafny verify dfyconfig.toml` checks everything.

## What is modelled

- **Number formats** (`Rounding`, `MiniFloat`, `Fp16`, `Fp8`): the bit-level conversions between binary32, binary16
  (sections 3.4 and 4.3.1 of IEEE 754-2019), bfloat16 and E4M3. Values are integers scaled by a power of two, so they
  are exact; "rounds correctly" means that no other value of the target format is nearer, with ties to the even code.
- **Quantized tensors** (`Fp8Tensor`, `Fp8Concat`, `E4m3Codec`): block quantization, its parallel form, and
  concatenation, in exact arithmetic over a codec; and the codec that E4M3 is on all reals, with its error bound.
- **Expert cache** (`ExpertCache`): the LRU cache of GPU-resident experts and its step planners.
- **LCM block pool** (`KvBlockPool`, `KvBlockPlan`, `KvBlockHandles`, `KvBlockRefs`): the two-level slot allocator, the
  agreement between planning and commit, and reference-counted handles over whole runs.
- **Continuous batching** (`Batched`, `EngineSpec`, `Retirement`, `EngineRuns`, `EngineCompletion`, `EngineAdmission`,
  `EngineRows`, `Continuous`): `Batched` is the batched forward pass over an uninterpreted causal transformer, with
  attention layers over a key/value cache and recurrent layers over a state per slot. `EngineSpec` is the scheduler
  without caches, in which every sequence advances alone; the properties of whole runs are proved about it.
  `Continuous` is the engine object with dense slots, a shared cache, chunked prefill, compaction and retirement; each
  of its methods is proved to refine the operation of the specification, and `Generated` states the result for its
  callers: what a sequence has generated is what its request generates alone.
- **Paged key/value mode** (`PagedOwnership`, `PagedKv`, `PagedEngine`, `PagedContents`, `PagedModel`): the page pool,
  the content cache, block tables, and eviction of retired requests. Nothing is lost or freed twice, and with a free
  slot admission never fails. `PagedModel` joins that object with the pages of every layer and the layer-by-layer
  forward pass through the block tables: whatever is shared, every row is sampled as its sequence alone would be.
- **CPU engine** (`RequestFsm`, `CpuSpec`, `CpuEngine`): the smaller batching engine with its lifecycle state machine,
  against the sequential decode that its own tests use as the specification.
- **Multimodal prompts** (`Mrope`, `MropeLayout`, `SmartResize`, `PatchLayout`, `ImageProcessor`): rotary positions,
  image resizing within a pixel budget, and the patch layout.
- **Staged file swap** (`ParityFiles`): the export of three files that must change together.

`Arithmetic`, `Collections` and `Tokens` hold what several of them use. The modules follow the source's form: objects
that update their fields are classes (`LruExpertCache`, `BlockPool`, `BatchedModel`, `ContinuousModel`,
`PagedEngineState`, `PagedBatchedModel`, `CpuEngine`, `Disk`), loops are loops with invariants, and pure code is
functions.

## What the proofs found

- `continuous.rs` 1190-1199: the hard-limit pass appends slots to the done list without sorting it, and the list is
  retired from its end by slot number. When a sequence at the context limit sits below one that a finish rule stops in
  the same step, retirement goes wrong: it panics (`EngineCompletion.DisorderlyStepPanics`) or finishes a neighbour in
  place of the listed sequence (`EngineCompletion.DisorderlyStepFinishesNeighbour`).
  `Retirement.RetirementIsExactIffAscending` and `EngineCompletion.OrderlyIffExact` give the exact condition on a step.
  A caller can avoid it at admission: when prompt and new tokens of every request fit the context
  (`EngineAdmission.FitsContext`), no run panics and every output is complete
  (`EngineAdmission.FittingRunsAreComplete`). That bound is tight: every admitted request beyond it makes some engine
  panic (`EngineAdmission.OverlongRequestPanics`). Batch isolation (`EngineRuns.GeneratedIsSequential`) holds without
  the condition, for every run that does not panic.
- `fp16.rs` 86-94: `f32_to_bf16` has no case for NaN. A NaN stays one exactly if its magnitude bits are between
  0x7f808000 and 0x7fff8000, both excluded; below it becomes infinity, and above it becomes zero of the other sign
  (`Fp16.F32ToBf16`).
- `fp8.rs` 322-329: `concat_many` is documented to equal the fold of `concat` if and only if all parts are aligned.
  Aligned parts do agree (`Fp8Concat.ConcatManyIsFold`), but so do others: two non-empty parts always do unless `concat`
  appends them while the second is not aligned (`Fp8Concat.TwoPartsIff`), and an empty default tensor in front of
  aligned parts makes the two differ (`Fp8Concat.EmptyFrontDisagrees`). `Fp8Concat.FoldIsManyIff` gives the exact
  condition.
- `vision_c4_golden.py` 158-161: an interrupt right after an old file was parked, before the swap is registered,
  leaves its target missing. `ParityFiles.WriteParityFiles` is all or nothing exactly if the failing operation is not
  such a one, and `ParityFiles.InterruptedExport` is a run in which it is.
- `cpu_engine.rs` 214: the comment says that the oldest slot is prefilled first; the code takes the slot with the
  lowest index. The model follows the code.
- `image_processor.rs` 192-199: clamping to one unit can break the pixel budget (`SmartResize.ClampExceedsBudget`), and
  so can enlarging to the minimum (`SmartResize.EnlargeExceedsBudget`). `SmartResize.ResizedFitsIff` says for every
  accepted image exactly when the result is within the budget, by a condition on the input.
- `mrope.rs` 294-304: positions of a grid leave the range that the next group starts from exactly when the grid has
  more frames than its longer side has merged units (`Mrope.GroupStaysInsideIff`).

## Model

| member | source | states |
|---|---|---|
| `Rounding.RoundStep` | crates/mach-model/src/fp16.rs:31-53 | rounding up past the half, or on it when the code is odd, gives the nearest code with ties to even, in any value table |
| `Rounding.RoundingIsMonotone` | crates/mach-model/src/fp16.rs:9-55 | nearest rounding never gives a smaller code to a larger value; in particular it is a function |
| `Rounding.ClampedIsNearest` | crates/mach-model/src/fp8.rs:62-77 | rounding in a longer table and clamping to the top code is nearest rounding with saturation |
| `MiniFloat.ShiftRightEven` | crates/mach-model/src/fp8.rs:48-55 | no integer is nearer to the exact quotient of the dropped bits than the result, and of two equally near ones it is the even one |
| `MiniFloat.NarrowNormal` | crates/mach-model/src/fp16.rs:40-54 | narrowing a normal number by rounding the dropped bits is nearest rounding in the target format, also when the carry enters the exponent |
| `MiniFloat.NarrowToSubnormal` | crates/mach-model/src/fp16.rs:24-39 | the same for results in the subnormal range |
| `MiniFloat.RelativeErrorBound` | crates/mach-model/src/fp8.rs:10-22 | nearest rounding is off by at most half the smallest subnormal or the relative error of the format |
| `Fp16.F32ToF16` | crates/mach-model/src/fp16.rs:9-55 | every finite input gets the nearest binary16 value, ties to even, infinity as the value 2^16; infinities, NaNs and signs are kept |
| `Fp16.F16ToF32` | crates/mach-model/src/fp16.rs:59-82 | widening is exact for every finite half; infinities and NaNs keep their class |
| `Fp16.WidenSubnormal` | crates/mach-model/src/fp16.rs:63-75 | a subnormal half is widened to the binary32 of the same value |
| `Fp16.Normalize` | crates/mach-model/src/fp16.rs:67-74 | the shifting loop ends with the implicit bit set and keeps the value |
| `Fp16.F32ToBf16` | crates/mach-model/src/fp16.rs:86-94 | every finite input gets the nearest bfloat16 value, ties to even; infinities are kept; a NaN stays a NaN exactly if its bits are in the stated range, and becomes infinity below it and zero of the other sign above it |
| `Fp16.Bf16ToF32` | crates/mach-model/src/fp16.rs:98-100 | widening bfloat16 is exact; infinities and NaNs keep their class |
| `Fp16.HalfRoundTrip` | crates/mach-model/src/fp16.rs:9-82 | a half widened and narrowed comes back unchanged; a NaN comes back as a NaN |
| `Fp16.HalfErrorBound` | crates/mach-model/src/fp16.rs:124-152 | narrowing a value up to 65504 is off by at most a 2^-11th part of it or 2^-25 |
| `Fp16.NarrowingIsMonotone` | crates/mach-model/src/fp16.rs:9-55 | a larger finite input never gets a smaller half, signs included |
| `Fp16.NarrowingIsUnique` | crates/mach-model/src/fp16.rs:9-55 | there is only one correct rounding of a finite input |
| `Fp16.OverflowThreshold` | crates/mach-model/src/fp16.rs:19-51 | a finite input becomes infinity exactly from 65520 up |
| `Fp8.F32ToE4m3` | crates/mach-model/src/fp8.rs:27-78 | every finite input gets the nearest E4M3 value, ties to even, saturating at 448; the NaN code only for NaN and infinity |
| `Fp8.E4m3ToF32` | crates/mach-model/src/fp8.rs:82-106 | widening is exact for every code that is not NaN |
| `Fp8.E4m3RoundTrip` | crates/mach-model/src/fp8.rs:386-402 | every code that is not NaN survives the trip through binary32 |
| `Fp8.E4m3IsMonotone` | crates/mach-model/src/fp8.rs:27-78 | quantization keeps the order of finite inputs, saturation and signs included |
| `Fp8.E4m3ErrorBound` | crates/mach-model/src/fp8.rs:404-433 | for values up to 448 the error is at most a sixteenth of the value or 2^-10 |
| `Fp8.SaturationThreshold` | crates/mach-model/src/fp8.rs:38-76 | the code of 448 is given exactly from 432 up |
| `Fp8Tensor.QuantizeBlock` | crates/mach-model/src/fp8.rs:134-160 | one scale a block and one code an element, block by block; the tensor has ceil(n/block) scales |
| `Fp8Tensor.ElementIs` | crates/mach-model/src/fp8.rs:134-160 | element by element: the scale of a block is the largest magnitude in it over 448, and a code is that of the element over its scale, or 0 in a block of zeros |
| `Fp8Tensor.Quantize` | crates/mach-model/src/fp8.rs:126-131 | one block for the whole tensor; the empty tensor has none |
| `Fp8Tensor.QuantizePar` | crates/mach-model/src/fp8.rs:166-209 | for every number of threads and every length the parallel form is the sequential result |
| `Fp8Tensor.ScaleCount` | crates/mach-model/src/fp8.rs:134-160 | the number of scales is ceil(n/block) |
| `Fp8Tensor.Dequantize` | crates/mach-model/src/fp8.rs:212-219 | every element is its code's value times the scale of its block; the scale index is in bounds |
| `Fp8Concat.Concat` | crates/mach-model/src/fp8.rs:269-291 | a well-formed tensor; when the first part ends on a block of the common size it dequantizes to exactly the values of both, whatever the length of the second; otherwise it quantizes those values once more |
| `Fp8Concat.ConcatMany` | crates/mach-model/src/fp8.rs:330-359 | a well-formed tensor; when all parts are aligned it dequantizes to exactly the values of all |
| `Fp8Concat.ConcatManyIsFold` | crates/mach-model/src/fp8.rs:322-329 | for aligned parts the single pass equals the left fold of `concat`, empty parts included |
| `Fp8Concat.FoldIsManyIff` | crates/mach-model/src/fp8.rs:322-359 | for parts that are not all aligned the two agree exactly if the last step of the fold quantizes too, to the same codes |
| `Fp8Concat.TwoPartsIff` | crates/mach-model/src/fp8.rs:322-359 | for two parts with elements that are not both aligned: the two agree exactly if `concat` does not append them |
| `Fp8Concat.AlignedFrontIff` | crates/mach-model/src/fp8.rs:322-359 | aligned parts and any last one: the two agree exactly if that is aligned too or has another block |
| `Fp8Concat.EmptyFrontDisagrees` | crates/mach-model/src/fp8.rs:322-359 | behind an empty default tensor aligned parts of more than one block give different results |
| `Fp8Concat.QuantizeDistributes` | crates/mach-model/src/fp8.rs:262-268 | quantizing a concatenation is concatenating the quantizations, when the first part ends on a block |
| `Fp8Concat.DequantizeDistributes` | crates/mach-model/src/fp8.rs:262-268 | dequantizing an appended tensor is appending the dequantized parts, also when the last block of the second is short |
| `E4m3Codec.RoundTripError` | crates/mach-model/src/fp8.rs:134-219 | quantizing to E4M3 and dequantizing is off by at most a sixteenth of the element or 2^-10 of its block's scale, for every vector, block and element |
| `E4m3Codec.E4m3IsOk` | crates/mach-model/src/fp8.rs:10-22 | encoding and decoding a real up to 448 is off by at most a sixteenth of it or 2^-10 |
| `E4m3Codec.EncodeIsF32ToE4m3` | crates/mach-model/src/fp8.rs:27-78 | on binary32 values the encoder of reals is the conversion of the bits |
| `E4m3Codec.DecodeIsE4m3ToF32` | crates/mach-model/src/fp8.rs:82-106 | the decoder of reals is the widening of the bits |
| `E4m3Codec.LargestIsExact` | crates/mach-model/src/fp8.rs:134-160 | the elements of largest magnitude in a block come back exactly |
| `E4m3Codec.ValuesAreKept` | crates/mach-model/src/fp8.rs:386-402 | every value of the format is encoded as itself |
| `E4m3Codec.RequantizingKeepsValues` | crates/mach-model/src/fp8.rs:134-219 | quantizing what a quantized tensor dequantizes to, in the same blocks, changes no value |
| `ExpertCache.LruExpertCache.Get` | crates/mach-model/src/moe_backend.rs:83-87 | returns the slot of a resident and makes it the most recent; a miss changes nothing |
| `ExpertCache.LruExpertCache.Put` | crates/mach-model/src/moe_backend.rs:92-121 | a miss gets the lowest free slot, or the slot of the least recent resident, which is reported as evicted; the newcomer is the most recent one, and the others keep their order |
| `ExpertCache.LruExpertCache.FreeSlot` | crates/mach-model/src/moe_backend.rs:104-112 | the lowest slot that no resident uses |
| `ExpertCache.LruExpertCache.Touch` | crates/mach-model/src/moe_backend.rs:231-236 | moves an expert to the recent end and keeps the order of the others |
| `ExpertCache.LruExpertCache.EvictLru` | crates/mach-model/src/moe_backend.rs:238-242 | removes exactly the least recent resident and returns its slot |
| `ExpertCache.LruExpertCache.EvictLruNotIn` | crates/mach-model/src/moe_backend.rs:220-230 | removes the coldest resident outside the routed set, if there is one |
| `ExpertCache.LruExpertCache.PlanStep` | crates/mach-model/src/moe_backend.rs:163-182 | residents stay, misses fill the free slots, the rest goes to the CPU; nothing is evicted; the queue is then the routed residents by last use, behind them the others in their order; exactly the routed experts that got a slot and were not resident are fetched, once each |
| `ExpertCache.LruExpertCache.PlanLru` | crates/mach-model/src/moe_backend.rs:189-216 | no routed expert is evicted, every GPU placement is still that expert's slot at the end, different experts have different slots, min(capacity, distinct routed) experts are on the GPU, the coldest others are evicted first, and the queue is then the routed residents by last use, hits included, behind them the others in their order |
| `ExpertCache.OutsideKeepsOrder` | crates/mach-model/src/moe_backend.rs:189-236 | the experts outside a step stand behind it in the order they had |
| `ExpertCache.NoPlacementServesMore` | crates/mach-model/src/moe_backend.rs:189-216 | no assignment of slots to routed experts serves more of them |
| `ExpertCache.RecentIsByLastUse` | crates/mach-model/src/moe_backend.rs:231-236 | the unbounded recency stack lists every used id once, by time of last use |
| `ExpertCache.StackProperty` | crates/mach-model/src/moe_backend.rs:92-121 | after any trace of puts the recency queue is the first `capacity` entries of that stack |
| `ExpertCache.ResidentsAreMostRecent` | crates/mach-model/src/moe_backend.rs:92-121 | the residents are exactly the `capacity` most recently used distinct experts |
| `ExpertCache.SmallerIsIncluded` | crates/mach-model/src/moe_backend.rs:92-121 | on the same trace a smaller cache's residents are residents of a larger one |
| `KvBlockPool.OccupyKeepsInv` | crates/mach-model/src/kv_block_pool.rs:235-264 | a commit keeps the pool invariant: queue, counts, bindings and bits agree |
| `KvBlockPool.ReleaseKeepsInv` | crates/mach-model/src/kv_block_pool.rs:196-223 | a release keeps the pool invariant |
| `KvBlockPool.FreeQueueFits` | crates/mach-model/src/kv_block_pool.rs:196-223 | the free queue never holds more than the parents |
| `KvBlockPool.CommitHead` | crates/mach-model/src/kv_block_pool.rs:235-331 | the first planned slot passes every assertion of `occupy`, and afterwards the candidates are the remaining ones |
| `KvBlockPlan.CandidatesAre` | crates/mach-model/src/kv_block_pool.rs:270-331 | the planner's candidates are exactly the slots the group can be given, each once |
| `KvBlockPlan.PlanCommits` | crates/mach-model/src/kv_block_pool.rs:123-150 | a plan of any length commits slot by slot and leaves the remaining candidates |
| `KvBlockPlan.PlansCompose` | crates/mach-model/src/kv_block_pool.rs:123-150 | asking for m and then n blocks gives the slots of asking for m + n |
| `KvBlockPlan.PlanBindsFewest` | crates/mach-model/src/kv_block_pool.rs:270-331 | no choice of as many distinct slots binds fewer new parents |
| `KvBlockPlan.PlanOrder` | crates/mach-model/src/kv_block_pool.rs:270-331 | what a plan uses first, for every two slots: of partial parents those with more occupied slots, of equally full ones the lower id, in a parent the lower slots, free parents only behind all of these and in queue order |
| `KvBlockHandles.BlockPool.constructor` | crates/mach-model/src/kv_block_pool.rs:81-97 | all parents are free, in order, and the invariant holds |
| `KvBlockHandles.BlockPool.Occupy` | crates/mach-model/src/kv_block_pool.rs:235-264 | exactly that slot becomes occupied, its parent is bound, and a free parent leaves the head of the queue; the original's assertions are the preconditions |
| `KvBlockHandles.BlockPool.Release` | crates/mach-model/src/kv_block_pool.rs:196-223 | exactly that slot becomes vacant; the last slot of a parent sends it to the end of the queue |
| `KvBlockHandles.BlockPool.PlanLocations` | crates/mach-model/src/kv_block_pool.rs:270-331 | the planning loops compute the specified plan |
| `KvBlockHandles.BlockPool.AcquireBlocks` | crates/mach-model/src/kv_block_pool.rs:123-150 | exactly `num` distinct fresh slots if and only if vacant slots and free parents cover the request; otherwise nothing changes |
| `KvBlockHandles.BlockPool.CommitAll` | crates/mach-model/src/kv_block_pool.rs:141-149 | no assertion of `occupy` fires while a plan is committed in order |
| `KvBlockRefs.StepKeepsInv` | crates/mach-model/src/kv_block_pool.rs:336-412 | acquire, clone, reset and drop keep the invariant of pool, counts and handles |
| `KvBlockRefs.Run` | crates/mach-model/src/kv_block_pool.rs:71-412 | every run from an empty pool keeps it |
| `KvBlockRefs.LiveBlockOccupied` | crates/mach-model/src/kv_block_pool.rs:358-362 | every handle refers to a live block with an occupied slot, so `release` cannot fail |
| `KvBlockRefs.LiveBlocksAreDisjoint` | crates/mach-model/src/kv_block_pool.rs:123-150 | two live blocks never share a slot |
| `KvBlockRefs.NoHandlesNoSlots` | crates/mach-model/src/kv_block_pool.rs:358-362 | with no handle left the pool is empty again |
| `Batched.BuildGdnRuns` | crates/mach-model/src/batched.rs:4747-4793 | accepts a batch if and only if every slot's rows form one consecutive chunk of at most 12 rows, and then returns the partition of the rows into these chunks, one a slot |
| `Batched.ScanRun` | crates/mach-model/src/batched.rs:4759-4769 | the maximal block of one slot, or the first position that does not step by one |
| `Batched.StoreRows` | crates/mach-model/src/continuous.rs:967-969 | after the stores every covered position of the layer holds its own stream's key/value |
| `Batched.AttendRows` | crates/mach-model/src/continuous.rs:967-969 | every row attends over exactly its own stream, so the next hidden states are those of the streams alone |
| `Batched.ContextIsStream` | crates/mach-model/src/continuous.rs:967-969 | the context that a row reads from the cache is the key/value stream of its own sequence |
| `Batched.BatchedModel.CheckRows` | crates/mach-model/src/batched.rs:4726-4793 | the checks on positions, slots and chunk runs |
| `Batched.BatchedModel.RunLayers` | crates/mach-model/src/batched.rs:4705-4793 | all rows end with the hidden state of their stream alone, and the cache holds all stored rows |
| `Batched.BatchedModel.DecodeStepExplicit` | crates/mach-model/src/batched.rs:4705-4793 | rejects exactly the batches that fail a check, and otherwise samples every row as its sequence alone would be |
| `Batched.BatchedModel.CopySeqKv` | crates/mach-model/src/batched.rs:5067-5139 | the first `len` positions of a slot are copied in every layer; other slots and later positions stay |
| `Batched.RecurRows` | crates/mach-model/src/batched.rs:3402-3530 | in a recurrent layer every row reads the state of its own sequence after its own token, and every slot ends with the state of its stream |
| `Batched.RunsAreInOrder` | crates/mach-model/src/batched.rs:4738-4793 | rows that pass the check of the chunk runs take up every recurrence where it stands, one token after the other |
| `Batched.BatchedModel.CopyGdnSlot` | crates/mach-model/src/batched.rs:5179-5215 | the recurrent state of a slot is copied in every recurrent layer; other slots and the key/values stay |
| `Batched.BatchedModel.ClearGdnSlot` | crates/mach-model/src/batched.rs:2644-2677 | the recurrent state of a slot is the initial one again; other slots and the key/values stay |
| `EngineSpec.CountsAreMultiset` | crates/mach-model/src/continuous.rs:1160-1176 | the occurrence counts are the multiset of the generated tokens |
| `EngineSpec.TakesFitBudget` | crates/mach-model/src/continuous.rs:956-1004 | the rows granted in a step never exceed the row budget |
| `EngineSpec.GrantsAreMaximal` | crates/mach-model/src/continuous.rs:956-1004 | slots are served in order, and one gets less than it can use only when the budget is used up: the rest of its prompt, at most 12 rows with recurrent layers, then one row until its context is full |
| `EngineSpec.AdvancedOk` | crates/mach-model/src/continuous.rs:1124-1187 | an advanced sequence is in its prompt, or has all but its last token cached |
| `Retirement.RetirementIsExactIffAscending` | crates/mach-model/src/continuous.rs:1197-1199 | retiring in reverse list order finishes exactly the listed slots if and only if the list is ascending |
| `Retirement.DoneSlotsAre` | crates/mach-model/src/continuous.rs:1122-1196 | the done list holds the slots that a rule stops and those at the context limit, and no others |
| `Retirement.DoneAscendingIff` | crates/mach-model/src/continuous.rs:1190-1196 | the list is ascending exactly when no limited slot is below a stopped one |
| `Retirement.AscendingRemoves` | crates/mach-model/src/continuous.rs:1197-1199 | an ascending list keeps the other slots in order |
| `EngineRuns.OpKeepsInv` | crates/mach-model/src/continuous.rs:713-1201 | add, step and cancel keep: every sequence has generated what its request generates alone, the steps returned just that, and every id is in exactly one place |
| `EngineRuns.StepReturnsInOrder` | crates/mach-model/src/continuous.rs:1124-1187 | a step returns the new token of every sequence that gets one, in slot order, and nothing else |
| `EngineRuns.GeneratedIsSequential` | crates/mach-model/src/continuous.rs:943-1201 | batch isolation and streaming, over every interleaving of add, step and cancel that does not panic: what the steps returned for an id is the first tokens that its request generates alone, and what the engine holds for it |
| `EngineCompletion.OrderlyIffExact` | crates/mach-model/src/continuous.rs:1190-1199 | a step retires just the sequences it lists exactly if no limited slot is below a stopped one |
| `EngineCompletion.DoneMeansStopped` | crates/mach-model/src/continuous.rs:1122-1196 | a slot is listed exactly when its request alone would stop after as many tokens |
| `EngineCompletion.OrderlyRunsAreExact` | crates/mach-model/src/continuous.rs:943-1201 | orderly runs never panic, finish sequences at their first stop and no other |
| `EngineCompletion.FinishedIsSolo` | crates/mach-model/src/continuous.rs:943-1201 | in an orderly run a finished sequence that was not cancelled has generated the complete output of its request alone, every other one a prefix |
| `EngineCompletion.FinishRules` | crates/mach-model/src/continuous.rs:1157-1199 | where a sequence ends, for every finished and not cancelled record of an orderly run, in terms of its request: no earlier token is the end token and no earlier prefix ends with a stop sequence; with budget and context left the last token does one of the two; and the record says so exactly then |
| `EngineCompletion.LiveRules` | crates/mach-model/src/continuous.rs:1157-1199 | in an orderly run a sequence in a slot has met no end token and no stop sequence and has budget and context left |
| `EngineCompletion.DisorderlyStepPanics` | crates/mach-model/src/continuous.rs:1190-1199 | two requests for which a step panics, in any model |
| `EngineCompletion.DisorderlyStepFinishesNeighbour` | crates/mach-model/src/continuous.rs:1190-1199 | three requests for which a step finishes the wrong sequence, in any model |
| `EngineCompletion.StepMakesProgress` | crates/mach-model/src/continuous.rs:955-1199 | every step that does not panic decreases the work left |
| `EngineAdmission.FittingRunsAreOrderly` | crates/mach-model/src/continuous.rs:753-1201 | when prompt and new tokens of every added request fit the context, every step of every run retires exactly the sequences it lists |
| `EngineAdmission.FittingRunsAreComplete` | crates/mach-model/src/continuous.rs:753-1201 | then no run panics, and every sequence that finished without being cancelled has returned its complete solo output, every other one a prefix of it |
| `EngineAdmission.OverlongRequestPanics` | crates/mach-model/src/continuous.rs:1190-1199 | the bound is tight: for every admitted request beyond it there are a model and a second request, within it, with which the engine panics |
| `EngineRows.RowsFitBudget` | crates/mach-model/src/continuous.rs:956-1004 | the batch has at most as many rows as the budget |
| `EngineRows.RowsAreRuns` | crates/mach-model/src/continuous.rs:970-987 | for models with recurrent layers the batch of a step passes the run builder |
| `EngineRows.BatchIsComplete` | crates/mach-model/src/continuous.rs:956-1004 | every row is the next part of its slot's stream, and its whole context is cached or in the same batch |
| `EngineRows.HeldAfter` | crates/mach-model/src/continuous.rs:967-969 | after the forward pass every slot's prefix and recurrent state belong to its own sequence, the new rows included |
| `EngineRows.HeldAfterCopy` | crates/mach-model/src/continuous.rs:1391-1402 | compaction moves prefix and recurrent state with their slot and leaves the other slots alone |
| `EngineRows.HeldAfterClear` | crates/mach-model/src/continuous.rs:809-816 | after the reset at admission the slot is ready for a new sequence, and the other slots still hold theirs |
| `EngineRows.RowsStartAtBases` | crates/mach-model/src/continuous.rs:956-1004 | the rows of every slot start where its cached prefix ends, so the recurrences are taken up there |
| `EngineRows.RowsAreInOrder` | crates/mach-model/src/continuous.rs:956-1004 | in every model a row of a slot is where the cached prefix and the rows before it end |
| `EngineRows.HasStop` | crates/mach-model/src/continuous.rs:27-31 | the output ends with a non-empty stop sequence |
| `EngineRows.Absorb` | crates/mach-model/src/continuous.rs:1124-1187 | taking the samples of one slot is exactly one step of that sequence alone, with its finish rules, whose meaning for the request is `EngineCompletion.FinishRules` |
| `Continuous.BatchIsAccepted` | crates/mach-model/src/continuous.rs:956-1004 | every batch built by a step passes every check of the batched model |
| `Continuous.BuildRows` | crates/mach-model/src/continuous.rs:956-1004 | the loop builds the granted blocks in slot order, each row with the inputs of its own sequence |
| `Continuous.RowsOfSlot` | crates/mach-model/src/continuous.rs:957-1003 | prompt rows up to the budget and the chunk cap, or one decode row, or none |
| `Continuous.AbsorbAll` | crates/mach-model/src/continuous.rs:1122-1187 | all slots advance as specified; the outputs and the stopped slots are collected in slot order |
| `Continuous.LimitPass` | crates/mach-model/src/continuous.rs:1190-1196 | appends the slots at the context limit that are not listed |
| `Continuous.RecordOf` | crates/mach-model/src/continuous.rs:1311-1329 | the finished record; its finish reason is the one of `EngineCompletion.FinishRules` |
| `Continuous.KvMovedNext` | crates/mach-model/src/continuous.rs:1391-1402 | one step of the compaction keeps every prefix with its sequence |
| `Continuous.CompactedIsSound` | crates/mach-model/src/continuous.rs:1391-1404 | after the compaction the slots are the old ones without the finished one, soundly |
| `Continuous.ContinuousModel.constructor` | crates/mach-model/src/continuous.rs:254-293 | an empty engine; the row budget is at least the number of slots |
| `Continuous.ContinuousModel.Add` | crates/mach-model/src/continuous.rs:753-929 | admits into the next free slot, or reports which check failed and changes nothing |
| `Continuous.ContinuousModel.Step` | crates/mach-model/src/continuous.rs:943-1201 | refines the specified step (where sequences end is `EngineCompletion.FinishRules`, who gets rows `EngineSpec.GrantsAreMaximal`, what is returned `EngineRuns.StepReturnsInOrder`), panics exactly when that does and never when all admissions fit the context, and its batch is never rejected |
| `Continuous.ContinuousModel.AdvanceSlots` | crates/mach-model/src/continuous.rs:943-1196 | the step up to retirement: every slot advances by its grant, and the cache stays sound |
| `Continuous.ContinuousModel.Forward` | crates/mach-model/src/continuous.rs:1056-1114 | the forward pass samples every row as its sequence alone; an empty batch is skipped |
| `Continuous.ContinuousModel.RetireAll` | crates/mach-model/src/continuous.rs:1197-1199 | retires in reverse list order, and panics exactly when a position is out of range |
| `Continuous.ContinuousModel.Finish` | crates/mach-model/src/continuous.rs:1294-1405 | records the sequence and compacts the slots above it, cache prefixes included |
| `Continuous.ContinuousModel.Compact` | crates/mach-model/src/continuous.rs:1391-1402 | the compaction loop |
| `Continuous.ContinuousModel.Cancel` | crates/mach-model/src/continuous.rs:1284-1292 | finishes the live sequence with the id; otherwise nothing changes |
| `Continuous.ContinuousModel.Drain` | crates/mach-model/tests/continuous.rs:73-75 | repeated steps end; without a panic everything is finished; a panic means a disorderly step, and there is none when all admissions fit the context |
| `Continuous.ContinuousModel.Generated` | crates/mach-model/src/continuous.rs:1220-1230 | the tokens of an id are exactly the first tokens that its request generates alone and what the steps returned for it, complete after an orderly run and whenever all admissions fit the context |
| `PagedOwnership.SharedPagesAgree` | crates/mach-model/src/continuous.rs:451-457 | two table entries share a page only as the same content of a full prompt page |
| `PagedOwnership.DecodePagesArePrivate` | crates/mach-model/src/paged_kv.rs:912-918 | pages past the full prompt pages have one holder and are not registered |
| `PagedOwnership.DrainedIsLive` | crates/mach-model/src/continuous.rs:176-186 | with nothing left to evict only live tables hold pages |
| `PagedOwnership.InstallKeepsOwned` | crates/mach-model/src/continuous.rs:884-894 | installing a planned table keeps the ownership invariant |
| `PagedOwnership.RegisterKeepsOwned` | crates/mach-model/src/paged_kv.rs:903-910 | registering a full page, first writer wins, keeps it |
| `PagedOwnership.ReturnedIsPrivate` | crates/mach-model/src/continuous.rs:1344-1354 | a page that retirement gives back has no other holder |
| `PagedOwnership.FinishKeepsOwned` | crates/mach-model/src/continuous.rs:1332-1377 | retirement loses no page and gives back nothing that is live or registered |
| `PagedOwnership.UnmapKeepsOwned` | crates/mach-model/src/continuous.rs:154-174 | evicting a hash that nothing claims and no live table holds keeps the invariant |
| `PagedKv.CountDown` | crates/mach-model/src/continuous.rs:161-172 | a claimed hash is always in the count table, and its count tells whether anything else claims it |
| `PagedKv.EvictsTransitive` | crates/mach-model/src/continuous.rs:187-201 | evictions compose: only unclaimed hashes without a live page are unmapped, and one page returns for each |
| `PagedKv.EvictedAre` | crates/mach-model/src/continuous.rs:154-201 | after evictions exactly the hashes stay registered that a surviving retired request claims or a live table holds |
| `PagedKv.RegisteredPromptIsReused` | crates/mach-model/src/continuous.rs:834-909 | when all full pages of a prompt are registered and the rest of its table fits the pool, admission evicts nothing and reports all tokens of the full pages, one fewer when they are the whole prompt |
| `PagedKv.AllOwned` | crates/mach-model/src/paged_kv.rs:253-269 | when the allocator has nothing to hand out, every page is owned |
| `PagedEngine.PagedEngineState.constructor` | crates/mach-model/src/continuous.rs:645-663 | an empty pool with one full-length table a slot |
| `PagedEngine.PagedEngineState.AllocPage` | crates/mach-model/src/paged_kv.rs:253-269 | hands out a page that nobody owns: the one given back last, or else the lowest never used; fails exactly when all are owned; the assertion never fires |
| `PagedEngine.PagedEngineState.FreePage` | crates/mach-model/src/paged_kv.rs:280-288 | takes one owned page back, to be the next one handed out |
| `PagedEngine.PagedEngineState.PlanWithChain` | crates/mach-model/src/paged_kv.rs:855-893 | aliases exactly the leading run of registered full pages, allocates the rest, and gives everything back when the pool is short |
| `PagedEngine.PagedEngineState.PadTable` | crates/mach-model/src/paged_kv.rs:919-935 | extends a table to full length with fresh pages, or leaves everything as it was |
| `PagedEngine.PagedEngineState.ReferencedPages` | crates/mach-model/src/continuous.rs:123-129 | the pages of all live tables |
| `PagedEngine.PagedEngineState.ClaimedCounts` | crates/mach-model/src/continuous.rs:136-144 | the exact number of claims of every hash |
| `PagedEngine.PagedEngineState.EvictPage` | crates/mach-model/src/paged_kv.rs:948-955 | unregisters a hash and returns its page |
| `PagedEngine.PagedEngineState.EvictOldest` | crates/mach-model/src/continuous.rs:154-174 | drops one retired request and returns exactly the pages that fell free; the counts stay exact and no lookup fails |
| `PagedEngine.PagedEngineState.EvictOneRetired` | crates/mach-model/src/continuous.rs:187-201 | drops the oldest retired requests up to the first that frees a page; false leaves the retired list empty and every page in place; nothing live is freed, nothing claimed by a survivor is unmapped |
| `PagedEngine.PagedEngineState.PlanAndPad` | crates/mach-model/src/continuous.rs:847-883 | one attempt: a full-length table ready to install, or nothing changed, and then the pool has too few free pages for what the prompt cannot reuse |
| `PagedEngine.PagedEngineState.PlanWithEviction` | crates/mach-model/src/continuous.rs:847-883 | the retry loop ends, with a free slot it ends with a plan, and every eviction starts while the pool is too full for the table |
| `PagedEngine.PagedEngineState.Admit` | crates/mach-model/src/continuous.rs:834-909 | admission with a free slot never fails; it evicts only while the pool is too full, reuses exactly the leading registered pages and leaves at least one token to prefill; the other tables stay |
| `PagedEngine.PagedEngineState.Materialize` | crates/mach-model/src/continuous.rs:1141-1155 | afterwards every full page of the prompt resolves; existing mappings stay |
| `PagedEngine.PagedEngineState.ReturnPages` | crates/mach-model/src/continuous.rs:1344-1354 | gives back exactly the pages that do not resolve; no page is freed twice |
| `PagedEngine.PagedEngineState.Finish` | crates/mach-model/src/continuous.rs:1332-1387 | retires a slot: the tables above move down, and the request becomes the newest retired one; with at most 4 x capacity retired requests nothing is evicted, otherwise every eviction starts above that bound |
| `PagedEngine.FinishMakesRoom` | crates/mach-model/src/continuous.rs:1344-1354 | a finishing slot gives back at least all pages behind its full prompt pages |
| `PagedEngine.FinishAndReadmit` | crates/mach-model/src/continuous.rs:834-1387 | the reuse law: a prompt that is registered, finished within the bound and admitted again reports all tokens of its full pages, one fewer when they are the whole prompt |
| `PagedEngine.ReusedTokens` | crates/mach-model/src/continuous.rs:862-872 | the covered tokens, one fewer when they are the whole prompt |
| `PagedContents.ContextIsOwnStream` | crates/mach-model/src/batched.rs:3945-3985 | what a row reads through its block table is the key/value stream of its own sequence |
| `PagedContents.StoreKeepsContent` | crates/mach-model/src/batched.rs:3923-3944 | storing a row, also one that is prefilled again in a shared or registered page, keeps every sequence's content |
| `PagedContents.AliasedPagesHold` | crates/mach-model/src/paged_kv.rs:855-880 | the aliased pages already hold what prefilling the covered tokens would store |
| `PagedContents.AdmissionKeepsContent` | crates/mach-model/src/continuous.rs:834-909 | admission, with the evictions it needs, keeps all content; the new sequence starts with its covered tokens held |
| `PagedContents.MaterializeKeepsContent` | crates/mach-model/src/continuous.rs:1141-1155 | registering the full pages of a stored prompt: every registered page holds what its hash stands for |
| `PagedContents.RetirementKeepsContent` | crates/mach-model/src/continuous.rs:1332-1387 | retirement and the evictions after it take nothing from the other sequences |
| `PagedContents.RunIsIsolated` | crates/mach-model/src/continuous.rs:834-1387 | isolation through block tables over every run of admissions, stores, registrations, retirements and evictions |
| `PagedContents.PositionIsMapped` | crates/mach-model/src/batched.rs:3915-3922 | a block table maps every position that its length covers, to a page of the pool |
| `PagedModel.StorePagedRows` | crates/mach-model/src/batched.rs:3923-3944 | storing the rows of a batch through the block tables keeps the content of the layer, and every sequence has stored its own rows |
| `PagedModel.AttendPagedRows` | crates/mach-model/src/batched.rs:3945-3985 | every row attends over exactly its own stream, so the next hidden states are those of the streams alone |
| `PagedModel.EngineBatchIsOk` | crates/mach-model/src/continuous.rs:956-1004 | the batch of an engine step meets what the forward pass requires, and stores what every sequence was granted |
| `PagedModel.PagedBatchedModel.constructor` | crates/mach-model/src/batched.rs:1100-1120 | an empty pool whose pages hold anything |
| `PagedModel.PagedBatchedModel.Admit` | crates/mach-model/src/continuous.rs:834-909 | the new sequence starts with its covered tokens stored, in every layer; all other content stays |
| `PagedModel.PagedBatchedModel.RunLayers` | crates/mach-model/src/batched.rs:4705-4793 | all rows end with the hidden state of their stream alone, and every layer holds the stored rows |
| `PagedModel.PagedBatchedModel.DecodeStep` | crates/mach-model/src/batched.rs:4705-4793 | every row is sampled as its sequence alone would be |
| `PagedModel.PagedBatchedModel.Push` | crates/mach-model/src/continuous.rs:1156-1157 | a sampled token extends one sequence and leaves all stored content valid |
| `PagedModel.PagedBatchedModel.Materialize` | crates/mach-model/src/continuous.rs:1141-1155 | once the prompt is stored its full pages are registered, and all content stays |
| `PagedModel.PagedBatchedModel.Finish` | crates/mach-model/src/continuous.rs:1332-1387 | the sequence goes, the content of all others stays, and nothing is evicted within the bound on retired requests |
| `RequestFsm.RunsKeepStream` | crates/mach-model/src/scheduler_fsm.rs:171-312 | legal runs keep the token stream and the budget and never credit more decoded tokens than the stream has grown |
| `RequestFsm.ResumeKeepsBudget` | crates/mach-model/src/scheduler_fsm.rs:218-272 | an evicted request can be resumed exactly by prefill chunks that end with its whole stream, and then it is as if it had not been evicted |
| `RequestFsm.FinishedIsFinal` | crates/mach-model/src/scheduler_fsm.rs:240-297 | no event leaves the final state |
| `CpuSpec.Argmax` | crates/mach-model/src/cpu_engine.rs:342-348 | the loop computes the specified index |
| `CpuSpec.ArgmaxIsLastMaximum` | crates/mach-model/src/cpu_engine.rs:342-348 | that index is the last of the largest logits behind the last NaN, or that NaN at the end |
| `CpuEngine.PrefillSlot` | crates/mach-model/src/cpu_engine.rs:326-339 | a served slot is where its request alone is after the prompt, with the counts of reused and computed tokens that the cache reports; a failure changes nothing |
| `CpuEngine.DecodeSlot` | crates/mach-model/src/cpu_engine.rs:242-263 | one decode step of the request alone; its lifecycle events are legal; finished exactly when the budget is used up |
| `CpuEngine.CpuEngine.constructor` | crates/mach-model/src/cpu_engine.rs:127-150 | an idle engine |
| `CpuEngine.CpuEngine.Add` | crates/mach-model/src/cpu_engine.rs:159-178 | queues a request under a new id, or reports an empty prompt or a full queue and changes nothing |
| `CpuEngine.CpuEngine.DrainFinished` | crates/mach-model/src/cpu_engine.rs:188-190 | every record handed over holds the sequential greedy decode of its request, whatever the order of calls |
| `CpuEngine.CpuEngine.AdmitPending` | crates/mach-model/src/cpu_engine.rs:278-302 | the oldest queued requests go into the lowest free slots, in order, until one of the two runs out; other slots stay |
| `CpuEngine.CpuEngine.PrefillFirst` | crates/mach-model/src/cpu_engine.rs:214-238 | prefills the waiting slot with the lowest index and no other; a failure frees that slot and reports its id |
| `CpuEngine.CpuEngine.DecodeAll` | crates/mach-model/src/cpu_engine.rs:240-263 | every prefilled slot has exactly one more token and no other slot changes; the completed ones are listed in order |
| `CpuEngine.CpuEngine.FinishSlot` | crates/mach-model/src/cpu_engine.rs:305-322 | the record of the slot is the newest, the oldest is dropped only beyond the bound, the statistics grow by this request, the slot is free |
| `CpuEngine.CpuEngine.Step` | crates/mach-model/src/cpu_engine.rs:207-268 | the new slots, queue and records by the four parts of a step; keeps transparency, conservation of ids and the statistics; unless idle the work left decreases, also when a prefill fails |
| `CpuEngine.CpuEngine.StepUntilDone` | crates/mach-model/src/cpu_engine.rs:272-275 | always ends; without a failure every request is completed or had failed before |
| `Mrope.ValidateVisionGrid` | crates/mach-model/src/mrope.rs:242-258 | accepts exactly the non-empty grids of whole merged rows and columns whose size fits |
| `Mrope.VisionPositions` | crates/mach-model/src/mrope.rs:264-292 | fills the block of the grid, and fails exactly when a position exceeds 32 bits |
| `Mrope.BlockIsRowMajor` | crates/mach-model/src/mrope.rs:275-290 | the block is the row-major enumeration of frames, rows and columns |
| `Mrope.GroupStaysInsideIff` | crates/mach-model/src/mrope.rs:294-304 | all positions of a grid lie before the next group exactly if it has no more frames than its longer side |
| `Mrope.AdvanceVisionPos` | crates/mach-model/src/mrope.rs:294-304 | the next group starts past the longer side |
| `Mrope.PlaceAll` | crates/mach-model/src/mrope.rs:154-228 | the loop over the runs computes the specified layout, or rejects the prompt exactly when there is none; what the layout is, `MropeLayout` says token by token |
| `Mrope.MropePositions` | crates/mach-model/src/mrope.rs:91-240 | accepts exactly the inputs that have a layout (`MropeLayout.AcceptedIff`); delta plus the prompt length is one past the largest position |
| `Mrope.PositionsInRange` | crates/mach-model/src/mrope.rs:154-228 | every token has a position within the number of tokens |
| `Mrope.DeltaIsNotPositive` | crates/mach-model/src/mrope.rs:229-239 | delta is not positive, for every accepted input |
| `Mrope.LaterRunsAreLater` | crates/mach-model/src/mrope.rs:154-228 | when no image has more frames than its longer side has merged units, every position of a run is below every position of a later run, across all axes; videos need no condition |
| `Mrope.EndIsPastLargest` | crates/mach-model/src/mrope.rs:229-239 | then the numbering ends one past the largest position |
| `Mrope.GridsUsedOnceInOrder` | crates/mach-model/src/mrope.rs:217-228 | the vision runs are exactly the grids, in order, each with its number of tokens |
| `MropeLayout.AcceptedIff` | crates/mach-model/src/mrope.rs:91-240 | exactly the prompts are accepted in which the image runs are the image grids, in order and with their token counts, the video runs are the frames, and all other tokens are text, within the range of a position |
| `MropeLayout.PlacedIff` | crates/mach-model/src/mrope.rs:154-228 | the same of the layout from any start |
| `MropeLayout.TextInLayout` | crates/mach-model/src/mrope.rs:166-181 | in every accepted prompt a text token has three equal coordinates, and the next text token is one later on every axis |
| `MropeLayout.AfterText` | crates/mach-model/src/mrope.rs:176-181 | an image or frame behind text starts one later than that text on every axis |
| `MropeLayout.TextAlone` | crates/mach-model/src/mrope.rs:166-181 | a prompt of text alone is numbered from zero |
| `MropeLayout.FirstPosition` | crates/mach-model/src/mrope.rs:154-228 | every layout begins with three equal coordinates, the start of the numbering |
| `MropeLayout.VisionInLayout` | crates/mach-model/src/mrope.rs:182-209 | the run with as many runs of its kind before it as grids takes that grid: frame, row and column are added to the position of its first token, in row-major order, and the run behind it starts past the longer side |
| `MropeLayout.FramesAre` | crates/mach-model/src/mrope.rs:147-152 | the frames of the videos in order, each a grid of one frame |
| `SmartResize.SnapIsNearest` | crates/mach-model/src/image_processor.rs:189-191 | no number of units is nearer to the exact quotient, and of two equally near ones it is the even one |
| `SmartResize.ShrinkUnits` | crates/mach-model/src/image_processor.rs:192-195 | the floor of the scaled side is the largest number of units within the budget, stated without roots |
| `SmartResize.EnlargeUnits` | crates/mach-model/src/image_processor.rs:196-199 | the ceiling of the scaled side is the smallest number of units that reaches the minimum |
| `SmartResize.SmartResize` | crates/mach-model/src/image_processor.rs:164-209 | accepts exactly positive sizes with an aspect ratio of at most 200, an ordered budget and a result within machine size, and computes the specified size |
| `SmartResize.ResizedIsUnique` | crates/mach-model/src/image_processor.rs:164-209 | that size is determined by the input |
| `SmartResize.ResizedIsAligned` | crates/mach-model/src/image_processor.rs:164-209 | both sides are positive multiples of the factor |
| `SmartResize.ResizedFitsIff` | crates/mach-model/src/image_processor.rs:164-209 | every accepted image stays within the pixel budget if and only if neither clamping to one unit nor enlarging takes it over, by a condition on the input |
| `SmartResize.ResizedReachesMinimum` | crates/mach-model/src/image_processor.rs:196-199 | an image that is not shrunk has at least the smallest number of pixels |
| `SmartResize.ClampExceedsBudget` | crates/mach-model/src/image_processor.rs:192-195 | an image that is accepted, shrunk and clamped, and is over the budget |
| `SmartResize.EnlargeExceedsBudget` | crates/mach-model/src/image_processor.rs:196-199 | an image that is accepted and enlarged, and is over the budget |
| `SmartResize.CappedBudget` | crates/mach-model/src/image_processor.rs:281-298 | the pixel budget cut to the allowed patches; unchanged when those do not bind |
| `SmartResize.CappedSizeFits` | crates/mach-model/src/image_processor.rs:281-298 | an aligned size is within the capped budget exactly if it is within the pixel budget and, when the cap applies, has at most the allowed patches |
| `PatchLayout.LayoutIsBijective` | crates/mach-model/src/image_processor.rs:327-350 | every value of the resized image stands at exactly one position for each temporal copy, and every position holds one |
| `PatchLayout.LayoutFormula` | crates/mach-model/src/image_processor.rs:327-350 | where a value of the image stands, by the order of merged blocks, patches, channels, copies, rows and columns |
| `PatchLayout.FilledFormula` | crates/mach-model/src/image_processor.rs:327-350 | and there stands the raw value of that row, column and channel, as it is stored |
| `PatchLayout.FillPatches` | crates/mach-model/src/image_processor.rs:327-350 | the eight nested loops put at every position the value of its own source |
| `PatchLayout.PushPlane` | crates/mach-model/src/image_processor.rs:337-344 | one patch of one channel, row by row |
| `ImageProcessor.Validate` | crates/mach-model/src/image_processor.rs:114-140 | accepts exactly the configurations with sizes and pixel counts in range and a finite mean and a finite nonzero deviation for every channel |
| `ImageProcessor.NormalizedIs` | crates/mach-model/src/image_processor.rs:337-344 | the stored value times the deviation plus the mean of the channel is the raw value over 255 |
| `ImageProcessor.Preprocess` | crates/mach-model/src/image_processor.rs:257-356 | fails exactly if a check on the configuration or the input fails or the resized size exceeds a limit or a machine size, never for an image that fits the downscaled budget; otherwise every patch value is the normalized value of its source pixel and the grid is within the limit |
| `ParityFiles.Stage` | tools/vision_c4_golden.py:150-151 | stages all files, or stops with every target and backup as before |
| `ParityFiles.SwapOne` | tools/vision_c4_golden.py:152-162 | one swap: fails exactly if the failing operation is one of its own; installed, or the old file in place or parked, by which operation it is |
| `ParityFiles.SwapAll` | tools/vision_c4_golden.py:152-162 | all swaps, with the registered ones in a state that can be undone |
| `ParityFiles.Rollback` | tools/vision_c4_golden.py:163-172 | every target has its old content or is absent again, and nothing staged is left |
| `ParityFiles.WriteParityFiles` | tools/vision_c4_golden.py:120-177 | for any number of files, any disk and any single operation that fails or is interrupted: rolled back exactly if that operation stages or swaps, and then all is back as before if and only if it is not an interrupt between parking a file and registering its swap; that one file is parked |
| `ParityFiles.InterruptedExport` | tools/vision_c4_golden.py:152-162 | a run in which that happens |
| `ParityFiles.ParityNamesAreApart` | tools/vision_c4_golden.py:127-147 | the nine paths of the export are different in every directory |

## Left out

- GPU kernels, HIP calls, streams, device buffers and profiling: foreign calls.
- Floating-point transformer arithmetic: the transformer of `Batched` is uninterpreted, with one key/value per row and
  layer; the isolation theorems hold for every such transformer.
- Sampling other than greedy, its seeds, log-probabilities and logit bias: the sampler is a function of the hidden
  state, the token counts and fixed parameters. The seed advances once a step, so chunking affects it.
- State-reuse anchors, multimodal rows, and paged key/value inside `Continuous`: its cache is the contiguous one. The
  paged mode has an object of its own, `PagedModel.PagedBatchedModel`, that takes the engine's batches.
- Continuous.ContinuousModel.Add: the checks on multimodal prompts, state reuse and the seed that is derived from the id
  are not modelled.
- Continuous.ContinuousModel.Finish: the capture of a state-reuse anchor and the paged branch are not part of it; the
  latter is `PagedEngine.PagedEngineState.Finish`.
- Continuous.AbsorbAll: takes the slots as a value and returns them, where the original updates them in place; the
  object then stores the result.
- Continuous.BuildRows: reads the slots as a value, for the same reason.
- PagedEngine.PagedEngineState.Admit: the block table is installed by assignment; the freeing of the plan after a
  rejected installation is not modelled, since the proof shows that no table is rejected.
- PagedContents.RunIsIsolated: assumes that a chained content hash names its prefix, that is, that no two prefixes have
  the same hash; so does `PagedModel.PagedBatchedModel.Admit`.
- The allocated bitmap of the page allocator is the set of its true entries.
- The budgeted planner `plan` of the expert cache: it may evict an expert that it has placed in the same step, so it
  has none of the guarantees of `plan_lru`.
- Fp16.F32ToF16: NaN payloads are not modelled beyond NaN staying NaN. Shifts and masks are divisions and remainders.
- Fp8Tensor.QuantizeBlock: exact arithmetic in place of binary32 division and multiplication by the scale; so is
  E4m3Codec.RoundTripError. Zero has no sign in it. `dequantize_f16` and `split_row_blocks` are not modelled.
- CpuEngine.PrefillSlot: the prefix cache is an environment that fails at any time or leaves the model and the logits
  as a full forward pass does; its own planner and page store are not modelled.
- SmartResize.SmartResize: exact arithmetic, with the square root as a parameter.
- ImageProcessor.Preprocess: the resampler is a parameter, and values are normalized in exact arithmetic.
- ParityFiles.WriteParityFiles: one operation of staging, swapping or cleanup fails or is interrupted; the operations of
  the rollback succeed, as the original assumes.
- Counters such as ids, steps and token totals are unbounded; 32- and 64-bit limits are modelled where the code checks
  them.
- Block tables of `kv_block_pool.rs`, the prefix index, the reuse planner, the bandwidth policy, configuration helpers,
  `ack` and the accessors: easy members.
- Image decoding, the bicubic resampler, JSON parsing, the HTTP server, benchmarks and the other tools.
