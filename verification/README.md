# TMA GEMM and FlashAttention kernels: a Dafny model

The repository holds two families of Hopper-style GPU kernels: a GEMM and two FlashAttention
forward kernels (`v3_mMnNkN`, with a grid of row and column warps, and `v3_mMn1k1`, with one
column of warps). Without the CUDA plumbing they are concurrent protocols over shared memory plus
exact index and softmax algebra. This project models both and proves what makes the kernels right.
`dafny verify dfyconfig.toml` checks everything.

## What is modelled

**The protocol.** A thread block is a state machine (`Machine`). All threads walk one *script* of
events: ring items (`Xfer`), named barriers (`Sync`), consumer accesses to shared memory outside the
rings (`Work`), and bulk stores. Consumers take ring items by waiting on a full barrier, reading and
arriving on the empty barrier; the producer thread waits on the empty barrier, announces the bytes,
and issues the copy in pieces of any size; the copy engine lands bytes in pieces of any size, at any
time. Waits see only one parity bit. The number of rings, slots, consumers, other producer threads
and items is arbitrary. A run is any interleaving of enabled steps. Barriers follow the PTX ISA,
section "Parallel Synchronization and Communication Instructions: mbarrier": a phase completes when
the pending count and the transaction count are both zero, and a parity wait passes when the phase
of that parity is not the open one. `Lanes` holds the per-slot invariant, `Invariant` its lift to
all reachable states, `Safety`, `Liveness` and `Stores` the results that hold of every script.

**The two scripts.** `GemmProtocol` and `FlashProtocol` are the scripts of one thread block of each
kernel, `Roles`, `GemmProgram` and `FlashProgram` show that the loops of the individual threads are
exactly these scripts, restricted to the events a thread takes part in. `Pipelines` has the pipeline
objects as classes that change barriers and positions in place.

**Shared memory.** `Overlay` is the layout of Q, K, V and O over one array; `FlashSafety` and
`OutputRace` say who can touch which part of it at the same time. `Smem` compares the generators'
byte counts with the storage structs.

**Numbers.** `Softmax`, `SoftmaxMerge`, `Attention` and `FlashRow` follow one query row from the
scores to the output: online softmax over blocks in each column warp, quad reduction by XOR shuffles
(`Butterfly`), exchange of maxima and sums, normalization, sum of partial outputs, causal masking and
the placement of columns in threads (`Fragments`, `Causal`). `Gemm` follows the matrix product from
the swizzled grid-stride loop (`Tiles`) to the last element of C.

## Results that deserve attention

* **Output overlay with one column warp.** With `WARPS_N == 1`, and in `v3_mMn1k1`, no barrier lies
  between the last reads of Q and K and the writes of O, which reuse their bytes. A *clash* is a byte that one
  warp has begun to overwrite with its rows of the output while another warp has yet to release the item it reads
  there; a warp reads its own rows of Q, but all of K and V. `OutputRace.OutputSafeIff` and `OutputRace.TileSafeIff`
  decide every tile: no run has a clash if and only if there is one warp, or the last K block of the tile travels in
  slot 1 of the ring, a matter of the block counts so far, and, should it be the tile's only K block, the warps that
  read Q's rows are the ones that write them. They are in every generated configuration and in `v3_mMn1k1`
  (`OutputRace.LaunchTileSafeIff`). For tiles of equal length, all outputs are safe exactly if the number of K blocks
  is odd; if it is even, already the first tile has a clash (`OutputRace.UniformSafeIff`). The runs that lead to
  a clash move the lanes of each warp together, as warp-wide instructions demand, and end with one warp at its
  output write and all lanes of another at the item (`OutputRace.MeetingState`). With several column warps there
  is no clash (`FlashSafety.WriterAlone`, `FlashSafety.WritersApart`).
* **Row ownership.** Scores can be reused as the PV operand if and only if each warp holds one row
  fragment, or there is a single row of warps, or rows are strided as in `v3_mMn1k1`
  (`Fragments.RowsAgreeIff`). The static assertion of `v3_mMnNkN` is weaker; the generator's condition
  is sufficient (`Smem.FlashValidRows`).
* **GEMM shared-memory filter.** `smem_bytes` omits the final padding. The filter decides rightly about a
  configuration if and only if `smem_bytes` does not lie between the limit rounded down to a multiple of 128 and the
  limit (`Smem.GemmFilterIff`). For whole kibibytes that never happens (`Smem.GemmFilterKiB`), nor for any limit
  less than 16 bytes per stage beyond a multiple of 128 (`Smem.GemmFilterExact`); for others it can
  (`Smem.GemmFilterBytes`).
* **Sequence lengths.** Neither kernel checks that the sequence length is a multiple of the tiles; the bulk loads fill
  what lies beyond with zeros, and without a causal mask nothing hides those keys. The result is attention over the
  true keys, for all queries and keys, if and only if the kernel masks or the length is a multiple of the key block
  (`FlashRow.RaggedIff`, about what `FlashRow.Forward` computes). Causal tiles of a ragged sequence can also visit
  more K blocks than the sequence has; `Causal.BlocksFitIff` says exactly when none does.

## Assumptions

* `PipelineState` comes from CUTLASS, which is not part of this model: `++` is taken to advance the index
  modulo the number of stages and to flip the phase on wrap-around.
* Memory is sequentially consistent at barriers; the fences (`fence_view_async_shared`, `tma_store_fence`) are
  not modelled.
* Numbers are reals; `exp2` is any positive function turning sums into products, and minus infinity is an
  explicit value whose weight is zero, which the code gets for a positive scale. Conversions to 16 bits and
  `__fdividef` are exact.
* C++ `int` does not overflow.
* CuTe layouts are taken by their meaning: tiles are intervals of `BM * K` elements, copies move whole tiles, the
  fragments of one MMA are those of the PTX ISA, section "Matrix Fragments for mma.m16n8k16 with floating point
  type".

## Model

| member | source | states |
|---|---|---|
| Lanes.ProducerParityExact | flashattention/v3_mMnNkN/pipeline.hpp:34 | the empty barrier has completed the awaited round or one less; the parity test passes exactly in the first case, and then all consumers have released the slot |
| Lanes.ConsumerParityExact | flashattention/v3_mMnNkN/pipeline.hpp:45-47 | the full barrier has completed the awaited round number or one more; the parity test passes exactly in the second case |
| Lanes.ReaderAlone | flashattention/v3_mMnNkN/pipeline.hpp:45-52 | while a consumer reads a slot, all its bytes have landed, none are on the way, and the reader has not yet arrived in the open empty phase |
| Barriers.ArriveKeepsRounds | gemm/gemm_cute.hpp:107-108 | an arrival of a member that is behind completes the phase exactly if it is the last one, and keeps everybody within one round |
| Invariant.StepKeeps | gemm/gemm_cute.hpp:114-257 | every step of every thread, copy engine and store keeps the invariant of rings, barriers and stores |
| Safety.ReaderSeesItsItem | gemm/gemm_cute.hpp:193-209 | in every reachable state, what a reading consumer finds in its slot is the item of its own event, whole, with nothing being copied into the slot |
| Safety.ReadsTheStream | flashattention/v3_mMnNkN/pipeline.hpp:31-56 | in every run, each consumer has read exactly the producer's items, once, in order, up to where it stands |
| Safety.ConsumerWaitExact | gemm/gemm_cute.hpp:195 | one phase bit stands for the unbounded round counter at every consumer wait |
| Safety.ProducerWaitExact | gemm/gemm_cute.hpp:135-137 | the same at every producer wait; the wait passes exactly when every consumer has released the slot often enough |
| Safety.NoOverArrival | flashattention/v3_mMnNkN/pipeline.hpp:35 | neither the producer nor a consumer arrives twice in a phase of a ring barrier |
| Safety.NoOverSync | flashattention/v3_mMnNkN/flashatten_v3.hpp:111-118 | no thread arrives twice in a phase of a named barrier |
| Safety.StartsAgree | gemm/gemm_cute.hpp:134-137 | in every reachable state the guarded wait with flipped phase lets the producer go exactly when the wait with start phase 1 does |
| Safety.GuardedRunsAgree | gemm/gemm_cute.hpp:114-142 | both ways to start the ring admit exactly the same runs |
| Safety.Separation | gemm/gemm_cute.hpp:243-247 | once one member is past a barrier, every other has reached it |
| Safety.Lag | flashattention/v3_mMn1k1/flashatten_v3.hpp:384-405 | once a consumer is past a ring item, that item has landed and every consumer is past all earlier items of its slot, so with one V slot nobody is behind on an earlier V |
| Safety.LoadsLanded | flashattention/v3_mMn1k1/flashatten_v3.hpp:340-346 | once a consumer has taken the last item before a block-wide barrier, all loads before it have landed |
| Liveness.NeverStuck | flashattention/v3_mMnNkN/flashatten_v3.hpp:449-532 | every unfinished reachable state has an enabled step: no deadlock among rings, epilogue barriers, stores and rendezvous |
| Liveness.StepDecreases | flashattention/v3_mMnNkN/flashatten_v3.hpp:449-532 | every step lowers a measure |
| Liveness.EveryRunEnds | flashattention/v3_mMnNkN/flashatten_v3.hpp:449-532 | there is no infinite run |
| Liveness.MaximalRunsFinish | gemm/gemm_cute.hpp:120-260 | every run that cannot be continued has finished, and each consumer has read the whole stream |
| Pipelines.PipelineStorage.InitBarrier | flashattention/v3_mMnNkN/kernel_traits.hpp:26-34 | after initialization every slot is empty, with one producer arrival and all consumer arrivals outstanding |
| Pipelines.Pipeline.Acquire | flashattention/v3_mMnNkN/pipeline.hpp:32-36 | passes exactly on the parity of the empty barrier, and then announces the bytes on that slot's full barrier and changes nothing else |
| Pipelines.Pipeline.CopyG2S | flashattention/v3_mMnNkN/pipeline.hpp:38-43 | a copy that is let in announces and issues all bytes in the current slot and moves on; one that is not changes nothing |
| Pipelines.Pipeline.Release | flashattention/v3_mMnNkN/pipeline.hpp:49-52 | arrives on the current empty barrier, moves on, changes nothing else |
| Pipelines.PhasePipeline.CopyG2S | flashattention/v3_mMn1k1/pipeline.hpp:89-94 | the one-slot pipeline with a toggled bit behaves as a full pipeline of one slot |
| Pipelines.PhasePipeline.Release | flashattention/v3_mMn1k1/pipeline.hpp:100-107 | likewise for release |
| Pipelines.ToggledIsPhase | flashattention/v3_mMn1k1/pipeline.hpp:105-107 | at every event the toggled bit equals the phase of the full pipeline position |
| Pipelines.CopyIsFourSteps | flashattention/v3_mMnNkN/pipeline.hpp:38-43 | an undisturbed copy_g2s is four steps of the producer thread in the machine |
| Pipelines.TakeIsTwoSteps | flashattention/v3_mMnNkN/pipeline.hpp:45-52 | wait and release are two steps of a consumer thread in the machine |
| Pipelines.CopyKeeps | flashattention/v3_mMnNkN/pipeline.hpp:31-43 | copy_g2s keeps the slot's invariant and leaves exactly the announced bytes outstanding |
| Roles.IdleStep | flashattention/v3_mMnNkN/flashatten_v3.hpp:449-467 | an event outside a thread's program never blocks or changes anything but the thread's place in the script |
| GemmProgram.ProducerThread | gemm/gemm_cute.hpp:119-146 | the producer loop is the script restricted to copies and the last rendezvous |
| GemmProgram.EveryBlockIsGemm | gemm/gemm_cute.hpp:106-110 | every thread block of every launch satisfies the premises of the GEMM results, with all consumer threads at the epilogue barrier and all threads at the end |
| GemmProgram.ConsumerThread | gemm/gemm_cute.hpp:180-259 | the consumer loop with its store_in_flight flag is ConsumerProgram |
| GemmProgram.ConsumerPrograms | gemm/gemm_cute.hpp:180-259 | ConsumerProgram is the script without its first store wait, or without stores and waits for threads that do not store |
| GemmProgram.SparedWait | gemm/gemm_cute.hpp:240-242 | the wait spared by store_in_flight would not have blocked |
| GemmProgram.ConsumersGetTheLoads | gemm/gemm_cute.hpp:121-144 | in every run, the i-th item a consumer reads is the i-th load of the producer's loop, and there are as many items as loads |
| GemmProgram.ConsumersGetAllLoads | gemm/gemm_cute.hpp:121-231 | in every run that cannot be continued, the loads behind what each consumer has read are all loads of its thread block, in order |
| GemmProgram.RunsComputeTiles | gemm/gemm_cute.hpp:185-231 | in every such run, the loads a consumer read for its n-th tile accumulate to that tile's elements of the product |
| GemmProtocol.WriterSeesNoStore | gemm/gemm_cute.hpp:240-245 | while any consumer writes sC, no bulk store reads it |
| GemmProtocol.StoreSeesFinishedTile | gemm/gemm_cute.hpp:245-252 | while a bulk store reads sC, it is the only one, every consumer has finished that tile, and none writes |
| GemmProtocol.NoStoreAtTheEnd | gemm/gemm_cute.hpp:255-259 | no bulk store outlives the thread block |
| Stores.StoreAccount | gemm/gemm_cute.hpp:248-251 | in every run, the bulk stores that have finished and those under way are exactly the store events thread 0 has passed |
| Stores.AllStoresFinish | gemm/gemm_cute.hpp:240-257 | in every run that cannot be continued, every store event's store has happened and finished |
| Stores.GemmStoresTiles | gemm/gemm_cute.hpp:185-257 | so a GEMM thread block has stored as many tiles as it has |
| Stores.FlashStoresTiles | flashattention/v3_mMnNkN/flashatten_v3.hpp:526-530 | and so has a FlashAttention thread block |
| Overlay.SlotsApart | flashattention/v3_mMnNkN/kernel_traits.hpp:55-69 | operands in different slots overlap only if both are Q; none overlaps V; all lie inside the array |
| Overlay.QSlotsOverlap | flashattention/v3_mMnNkN/kernel_traits.hpp:82-84 | Q in slot 0 and Q in slot 1 overlap exactly if a Q tile is larger than a K tile |
| Overlay.OSlotsApart | flashattention/v3_mMnNkN/kernel_traits.hpp:58-65 | output slots are disjoint and inside the array |
| Overlay.OutputOverlap | flashattention/v3_mMn1k1/kernel_traits.hpp:61-65 | the output slot overlaps slot 0, Q in slot 1 exactly if Q is larger, never K in slot 1 or V |
| FlashProtocol.ScriptShape | flashattention/v3_mMnNkN/flashatten_v3.hpp:449-532 | every script puts each Q right before a K and right after a rendezvous, and surrounds each output write with its barriers |
| FlashSafety.OperandsApart | flashattention/v3_mMnNkN/flashatten_v3.hpp:452-463 | in every reachable state, any two items that have begun to load and that some consumer has yet to release occupy disjoint bytes inside the array, for all tile sizes and block counts |
| FlashSafety.TouchedUnreleased | flashattention/v3_mMnNkN/pipeline.hpp:38-52 | whatever is being read or has bytes on the way counts as unreleased |
| FlashSafety.WriterSeesNoCopies | flashattention/v3_mMnNkN/flashatten_v3.hpp:357-367 | while any consumer writes partial results or output, no load is under way and no store reads the array |
| FlashSafety.WriterAlone | flashattention/v3_mMnNkN/flashatten_v3.hpp:139-215 | with several column warps, nobody reads Q, K or V while output is written, and partial results are complete before they are read |
| FlashSafety.StatsApart | flashattention/v3_mMnNkN/flashatten_v3.hpp:129-151 | while any consumer saves its row statistics, nobody reads statistics or writes output |
| FlashSafety.TouchesInside | flashattention/v3_mMnNkN/flashatten_v3.hpp:198-214 | everything a warp touches of the output lies in an output slot and in the array |
| FlashSafety.PartialsRead | flashattention/v3_mMnNkN/flashatten_v3.hpp:198-214 | a warp of column 0 works on exactly the elements that the other columns' warps of its row have saved |
| FlashSafety.SlotOf | flashattention/v3_mMnNkN/kernel_traits.hpp:97-99 | an element of the array lies in output slot n exactly if its place divided by the tile size is n |
| FlashSafety.WritersApart | flashattention/v3_mMnNkN/flashatten_v3.hpp:190-218 | two warps at work on partial results or the final tile at the same time touch different elements of the output slots |
| FlashSafety.StoreAlone | flashattention/v3_mMnNkN/flashatten_v3.hpp:522-531 | while the bulk store reads the output tile, all consumers have finished it and no load of the next tile has started |
| OutputRace.ReaderNear | flashattention/v3_mMn1k1/flashatten_v3.hpp:384-405 | with one column warp, once a consumer writes output, all others have released everything but the last K, the last V and, with one K block, Q |
| OutputRace.ClearIsSafe | flashattention/v3_mMn1k1/flashatten_v3.hpp:400-405 | if the last K is in slot 1, and a lone block's Q rows are read by their writers, no interleaving at all has a clash |
| OutputRace.OutputSafeIff | flashattention/v3_mMn1k1/flashatten_v3.hpp:400-405 | no run of whole warps has a clash at the output write, if and only if there is one warp, or the last K is in slot 1 and there are several K blocks or Q's readers are O's writers |
| OutputRace.MeetingState | flashattention/v3_mMn1k1/flashatten_v3.hpp:384-405 | otherwise some run of whole warps brings one warp to its output write while all lanes of another read the item in the way |
| OutputRace.TileSafeIff | flashattention/v3_mMnNkN/flashatten_v3.hpp:357-367 | the same condition in terms of the block counts of the tiles so far |
| OutputRace.LaunchTileSafeIff | flashattention/v3_mMnNkN/kernel_traits.hpp:122-141 | with the rows of the MMA fragments: a tile is safe if and only if there is one warp, or its last K is in slot 1 and it has several K blocks or rows that agree |
| OutputRace.UniformSafeIff | flashattention/v3_mMnNkN/flashatten_v3.hpp:358-360 | with several warps, tiles of n blocks each are all safe if and only if n is odd |
| FlashProgram.BlocksOf | flashattention/v3_mMnNkN/flashatten_v3.hpp:451-460 | every tile has at least one K block |
| FlashProgram.ProducerTile | flashattention/v3_mMnNkN/flashatten_v3.hpp:450-466 | the producer threads' tile loop is the tile's script restricted to their events |
| FlashProgram.ConsumerTile | flashattention/v3_mMnNkN/flashatten_v3.hpp:504-531 | the same for the consumer threads |
| FlashProgram.RunThread | flashattention/v3_mMnNkN/flashatten_v3.hpp:449-532 | the grid-stride loop of any thread is the thread block's script restricted to that thread's events |
| FlashProgram.TileRunOnce | flashattention/v3_mMnNkN/flashatten_v3.hpp:411-451 | every query block of the sequence, head and batch is computed by exactly one thread block in exactly one iteration |
| FlashProgram.OnlyTiles | flashattention/v3_mMnNkN/flashatten_v3.hpp:449-460 | thread blocks compute nothing else, and each tile with its own number of K blocks |
| FlashProgram.RowInTile | flashattention/v3_mMnNkN/flashatten_v3.hpp:414 | every row of the sequence lies in exactly one query block |
| FlashProgram.EveryBlockIsFlash | flashattention/v3_mMnNkN/flashatten_v3.hpp:111-118 | every thread block of every launch satisfies the premises of the protocol results, with all consumer threads at the epilogue barrier and all threads at the rendezvous |
| Tiles.SwizzleInGrid | utils/tools.h:30-40 | every linear id names a tile inside the grid, and the tile determines the id |
| Tiles.UnswizzleInRange | utils/tools.h:30-40 | every tile is named by an id in range, also in the ragged last column group |
| Tiles.GridIdAt | gemm/gemm_cute.hpp:121 | the n-th id of a thread block is its number plus n times the grid |
| Tiles.VisitedOnce | gemm/gemm_cute.hpp:121 | each id is visited by exactly one thread block, in exactly one iteration |
| Tiles.TileComputedOnce | gemm/gemm_cute.hpp:121-123 | each output tile is computed by exactly one thread block in exactly one iteration |
| Tiles.TileCoordBijection | flashattention/v3_mMnNkN/flashatten_v3.hpp:380-388 | tile ids and (query block, head, batch) correspond one to one |
| Gemm.Producer | gemm/gemm_cute.hpp:119-144 | the producer loads, tile after tile, all k-blocks of its thread block's tiles |
| Gemm.CopyBlock | gemm/gemm_cute.hpp:139-140 | the bulk copy puts the block of the item's coordinates into the slot |
| Gemm.MmaElement | gemm/gemm_cute.hpp:197-206 | the blocks in a slot extend a partial dot product by their columns |
| Gemm.ConsumePipe | gemm/gemm_cute.hpp:193-209 | one ring item extends all partial dot products of a tile |
| Gemm.ComputeTile | gemm/gemm_cute.hpp:190-231 | after the k-loop the accumulators hold the full dot products of the consumer's own tile, read from the producer's items |
| Gemm.StoreTile | gemm/gemm_cute.hpp:245-251 | the tile goes to its place in C and nowhere else |
| Gemm.Consumers | gemm/gemm_cute.hpp:185-253 | a thread block writes exactly the tiles due to it, each once, with final values |
| Gemm.GemmTn | gemm/gemm_cute.hpp:288-351 | sizes that do not divide are refused and C is unchanged; otherwise every element of C is the full dot product and every tile is written once |
| Butterfly.WarpReduce | utils/utils.h:38-56 | after the halving loop each lane holds the reduction of its aligned group, for any power of two and any associative commutative operator |
| Butterfly.ShuffleStep | utils/utils.h:42-44 | one XOR step joins the two halves of a residue class |
| Butterfly.Interleave | utils/utils.h:38-56 | reducing even and odd places separately gives the whole reduction |
| ExtendedReals.MaxIsLeast | utils/utils.h:43 | the maximum is the least value not below either argument |
| Softmax.WarpRow.ReduceMax | utils/utils.h:58-66 | the row maximum is not below any score seen so far, as real numbers, and is one of them |
| Softmax.WarpRow.SoftmaxRescale | flashattention/v3_mMnNkN/flashatten_v3.hpp:231-254 | sums and output become relative to the new maximum, scores become weights, lane sums take them in; for an increasing exp2 and a positive scale no weight is above one |
| Softmax.WeightAtMostOne | flashattention/v3_mMnNkN/flashatten_v3.hpp:248-251 | relative to a score that is not exceeded, no weight is above one |
| Softmax.CorrectionAtMostOne | flashattention/v3_mMnNkN/flashatten_v3.hpp:240-246 | nor is any correction to a new maximum |
| Softmax.WarpRow.AccumulatePV | flashattention/v3_mMnNkN/flashatten_v3.hpp:311-333 | the output row includes the block's weighted values |
| Softmax.LaneMax | utils/utils.h:7-17 | a lane's maximum bounds its scores and the start value and is one of them |
| Softmax.BlockProduct | flashattention/v3_mMnNkN/flashatten_v3.hpp:326-331 | one entry of the PV product is the sum of weights times values |
| Softmax.Reweigh | flashattention/v3_mMnNkN/flashatten_v3.hpp:240-246 | the correction factor turns weights relative to the old maximum into weights relative to the new one, minus infinity included |
| Softmax.NewMax | utils/utils.h:58-66 | the largest of the lanes' maxima is the maximum of all columns seen |
| Softmax.SumPermuted | flashattention/v3_mMnNkN/flashatten_v3.hpp:133 | sums do not depend on the order of columns |
| SoftmaxMerge.NormalizeStats | flashattention/v3_mMnNkN/flashatten_v3.hpp:141-164 | a warp's output is multiplied by its correction divided by the global sum |
| SoftmaxMerge.NormalizeSingle | flashattention/v3_mMnNkN/flashatten_v3.hpp:165-175 | with one column warp it is divided by its own sum |
| SoftmaxMerge.MaxOfBounds | flashattention/v3_mMnNkN/flashatten_v3.hpp:144-148 | the global maximum is not below any warp's maximum and is one of them |
| SoftmaxMerge.MergedSums | flashattention/v3_mMnNkN/flashatten_v3.hpp:150-157 | warps' sums and outputs, corrected to the global maximum, add up to those of the whole row |
| SoftmaxMerge.MergeIsAttention | flashattention/v3_mMnNkN/flashatten_v3.hpp:120-218 | the merged result is softmax attention over all columns, in any order |
| Attention.RunWarp | flashattention/v3_mMnNkN/flashatten_v3.hpp:507-520 | after its block loop a warp holds maximum, sums and output of all its columns |
| Attention.QuadSum | flashattention/v3_mMnNkN/flashatten_v3.hpp:133 | the quad sum deferred to the end is the sum over all lanes' columns |
| Attention.ReduceO | flashattention/v3_mMnNkN/flashatten_v3.hpp:206-216 | warp 0 ends with the sum of all warps' partial rows |
| Attention.AttentionRow | flashattention/v3_mMnNkN/flashatten_v3.hpp:496-526 | for any warps, blocks and placement of columns with one finite score, the row is softmax attention |
| FlashRow.PlacedOnce | flashattention/v3_mMnNkN/kernel_traits.hpp:124-141 | warps, blocks and lanes together hold every visited column exactly once |
| FlashRow.PlacedAsFragment | flashattention/v3_mMnNkN/flashatten_v3.hpp:76-100 | the column a register stands for in the mask is the column whose score and value it holds |
| FlashRow.HiddenIgnored | flashattention/v3_mMnNkN/flashatten_v3.hpp:240-252 | hidden columns do not change the attention of a row |
| FlashRow.Diagonal | flashattention/v3_mMnNkN/flashatten_v3.hpp:504-514 | a column is visited without mask exactly if it is not beyond the row |
| FlashRow.SeenCausal | flashattention/v3_mMnNkN/flashatten_v3.hpp:504-514 | with a causal mask, the columns the kernel sees are the visible ones and hidden ones, for any sequence length |
| FlashRow.RaggedIff | flashattention/v3_mMnNkN/flashatten_v3.hpp:414-415 | the result is attention over the true keys, for all queries and keys of a length, if and only if the kernel masks or the length is a multiple of the key block |
| FlashRow.QKProduct | flashattention/v3_mMnNkN/flashatten_v3.hpp:280-289 | the k-steps add up to the product of query and key |
| FlashRow.UnitProduct | flashattention/v3_mMnNkN/flashatten_v3.hpp:280-289 | the product with a unit vector selects the key's element |
| FlashRow.ProductLinear | flashattention/v3_mMnNkN/flashatten_v3.hpp:280-289 | the product is linear in the query, so with the row above it is the dot product |
| FlashRow.SeeColumns | flashattention/v3_mMnNkN/flashatten_v3.hpp:507-514 | the loop over the blocks yields the masked scores of the columns the kernel sees |
| FlashRow.AttentionIsSoftmaxRow | flashattention/v3_mMnNkN/flashatten_v3.hpp:496-526 | attention over columns is the reference, softmax(scale * q * K) * V written out over keys and values |
| FlashRow.Forward | flashattention/v3_mMnNkN/flashatten_v3.hpp:496-526 | for a sequence of any length, a query row's output is that reference over the visible keys, and without a causal mask over the zero padding as well |
| FlashRow.RegisterHoldsSeen | flashattention/v3_mMnNkN/flashatten_v3.hpp:510-513 | after the mask, a register holds exactly the score of the column it stands for in its query row |
| Causal.BlocksAndDiagonal | flashattention/v3_mMnNkN/flashatten_v3.hpp:504-514 | skipped blocks lie above the diagonal, unmasked ones on or below it; visited and unmasked is exactly col <= row |
| Causal.VisitedIff | flashattention/v3_mMnNkN/flashatten_v3.hpp:504 | a causal tile visits exactly the blocks in which some row sees some column, a plain tile those that hold a column of the sequence |
| Causal.MaskNeededIff | flashattention/v3_mMnNkN/flashatten_v3.hpp:511 | with even tile sizes, the mask is applied exactly to the blocks in which it hides something |
| Causal.BlockCounts | flashattention/v3_mMnNkN/flashatten_v3.hpp:414-460 | every tile visits at least one block, and column 0 is visible to every row |
| Causal.BlocksFitIff | flashattention/v3_mMnNkN/flashatten_v3.hpp:414-460 | no causal tile visits a block beyond the sequence, if and only if the rows rounded up to whole Q tiles need no more blocks than the sequence has |
| Causal.WholeTilesFit | flashattention/v3_mMnNkN/flashatten_v3.hpp:414-460 | that holds for every length that is a multiple of the Q tile |
| Fragments.MaskCoordinates | flashattention/v3_mMn1k1/flashatten_v3.hpp:82-105 | the coordinates the mask computes are those of the fragment map, blocked or strided |
| Fragments.EachElementOnce | flashattention/v3_mMnNkN/kernel_traits.hpp:124-131 | every register lies in the tile and is found again from its place |
| Fragments.EachPlaceOwned | gemm/gemm_cute.hpp:321-331 | every element of the tile is held by a register |
| Fragments.KeysAgree | flashattention/v3_mMnNkN/flashatten_v3.hpp:220-229 | each score register has the key index that the PV operand expects in its place |
| Fragments.RowsAgreeIff | flashattention/v3_mMnNkN/kernel_traits.hpp:122-141 | rows agree for all registers exactly in the strided variant, with one row fragment per warp, or with one row of warps |
| Fragments.QKWarpOf | flashattention/v3_mMnNkN/kernel_traits.hpp:124-131 | a score register's row belongs to its own warp's row of warps |
| Fragments.PVWarpOf | flashattention/v3_mMnNkN/kernel_traits.hpp:133-141 | likewise for the rows of the PV product, which are not permuted |
| Fragments.RowWarpsIff | flashattention/v3_mMnNkN/kernel_traits.hpp:122-141 | every row of the tile belongs to the same warps in both products under the same condition |
| Fragments.CausalMask | flashattention/v3_mMnNkN/flashatten_v3.hpp:74-108 | exactly the registers whose key lies beyond their query become minus infinity |
| Fragments.MaskBlock | flashattention/v3_mMnNkN/flashatten_v3.hpp:510-513 | the guarded call hides exactly the pairs that the causal tiling calls masked |
| Smem.AlignUpIsFormula | flashattention/v3_mMnNkN/flash_configs.py:31-32 | align_up gives the least multiple that is not below the value |
| Smem.FlashSmemBytes | flashattention/v3_mMnNkN/flash_configs.py:41-62 | the running offset computes the byte count used below |
| Smem.StatsFit | flashattention/v3_mMnNkN/flashatten_v3.hpp:129-134 | every warp's statistics of every row have a place of their own within the slots that are counted |
| Smem.FlashBytesBound | flashattention/v3_mMnNkN/kernel_traits.hpp:36-80 | smem_bytes is at least the padded struct, and equal to it at stage 2 |
| Smem.FlashBytesOneExact | flashattention/v3_mMn1k1/flash_configs.py:39-54 | the one-column variant's smem_bytes is the size of its struct |
| Smem.FlashValidFits | flashattention/v3_mMnNkN/flash_configs.py:94-118 | an accepted configuration's struct fits the limit |
| Smem.FlashValidRows | flashattention/v3_mMnNkN/flash_configs.py:94-118 | an accepted configuration satisfies the kernel's assertions, and scores are reusable as the PV operand |
| Smem.GemmOffset | gemm/gemm_configs.py:31-35 | smem_bytes is the struct without its final padding, since the tiles need no padding |
| Smem.GemmFitsIff | gemm/gemm_cute.hpp:36-45 | the padded struct fits any limit exactly if smem_bytes fits the limit rounded down to a multiple of 128 |
| Smem.GemmFilterIff | gemm/gemm_configs.py:63-88 | the filter decides rightly, for any limit, exactly if smem_bytes does not lie between that and the limit |
| Smem.GemmFilterExact | gemm/gemm_configs.py:63-88 | so it is exact for all configurations if the limit is less than 16 bytes per stage beyond a multiple of 128 |
| Smem.GemmFilterKiB | gemm/gemm_configs.py:87-92 | and for whole kibibytes |
| Smem.GemmFilterBytes | gemm/gemm_configs.py:63-88 | a configuration that is accepted and too large for a limit between |
| Smem.GemmValidSound | gemm/gemm_configs.py:63-88 | an accepted configuration fits whole kibibytes and satisfies the kernel's assertions, its warps tile the block exactly, and each thread has as many accumulators as the generator counts, at most 64 |
| Smem.PowerOfTwoByBits | gemm/gemm_configs.py:28-29 | the bit trick recognises exactly the powers of two |
| Smem.LegalWarpShapes | gemm/gemm_configs.py:38-53 | the generator yields every legal warp shape and nothing else, in order |
| Smem.RegistersFit | utils/tools.h:24-28 | producer and consumer registers fit the register file, and eight more per consumer would not fit or exceed the cap |
| ConfigNames.ParseConfigName | flashattention/v3_mMnNkN/flash_configs.py:26-66 | parsing a configuration's name gives the configuration back |
| ConfigNames.NameSpelled | flashattention/v3_mMnNkN/flash_configs.py:65-66 | a name is the six numbers with their labels |
| ConfigNames.AppendUnique | flashattention/v3_mMnNkN/flash_configs.py:162-165 | comparing names drops exactly repeated configurations |
| ConfigNames.NamedConfigs | flashattention/v3_mMnNkN/flash_configs.py:179-185 | one malformed name or invalid configuration fails the whole list; otherwise exactly the named configurations are listed, each once |
| ConfigNames.WarpShapes | flashattention/v3_mMnNkN/flash_configs.py:79-91 | every pair of warp counts that the ranges allow, once |
| ConfigNames.DefaultConfigs | flashattention/v3_mMnNkN/flash_configs.py:168-176 | exactly the valid configurations of the tables, each once |
| ConfigNames.GenerateConfigs | flashattention/v3_mMnNkN/flash_configs.py:179-187 | the named configurations, or the defaults if there are no names |

## Left out

* Pipelines.Pipeline.Acquire: blocking is one poll with a result; a thread that waits polls again. The interleavings are in `Machine`, where a wait is a step enabled only when it passes.
* Pipelines.Pipeline.CopyG2S: likewise, a refused copy is one that polls again.
* Pipelines.PhasePipeline.CopyG2S: likewise.
* Gemm.GemmTn: thread blocks run one after the other, and a thread block's consumers run after its producer; that each consumer reads the producer's loads under any interleaving, and what they add up to, is `GemmProgram.RunsComputeTiles`.
* Gemm.ConsumePipe: the multiplication works on the elements of the slot; how they are spread over threads is `Fragments`.
* GemmProtocol.WriterSeesNoStore: in the script every tile waits for the store before it; the code skips the first wait, see `GemmProgram.SparedWait`.
* FlashSafety.WriterAlone: the output slots' elements are told apart in `FlashSafety.WritersApart`, by a map from the elements of a tile to rows of warps.
* OutputRace.OutputSafeIff: a tile layout is any map from elements to warps that is the same for Q and O; the swizzle itself is not modelled. A warp counts as reading its whole part of an item until it releases it.
* ConfigNames.ParseConfigName: digits are ASCII.
* A and B of one GEMM item are two copies onto one barrier; the machine allows the announced bytes to be issued in any pieces, which includes these two.
* Barrier invalidation at the end of the GEMM kernel, register reallocation, warp specialization beyond roles.
* CuTe internals: swizzled layouts, TMA descriptors, `partition_*`, `retile_*`.
* Floating-point rounding, 16-bit conversion, fast division.
* CMake output, environment variables, drivers, benchmarks, Python bindings, printing.
* Overflow of C++ integers.
