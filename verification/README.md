# A verified model of vLLM Ascend's host-side logic

This project models seven parts of vLLM Ascend (and of the vLLM tree beside it) that decide something on
the host before or around the device work, and proves what those parts are for.

- **CPU pools** (`Cpu*.dfy`, `DeviceTable.dfy`). Each worker process splits the host's CPUs among NPUs on
  its own, without talking to the other workers. `CpuPlan` holds the three strategies as functions of one
  worker's view of the host, class `CpuAlloc` runs them as the source does, and `CpuSlices`, `CpuGroups`
  and `CpuClusters` prove that workers who see different NPUs agree and do not take the same CPU;
  `CpuReach` and `CpuBuilds` say when builds succeed and when they overlap, and `CpuPlaces` which CPUs
  each NPU gets, by counting.
- **Compressed positions** (`Compressed*.dfy`). The cumulative-sum form against one range per request, and
  independence of how the scheduler cuts a request into steps.
- **NZ layouts** (`Tensors.dfy`, `Nz*.dfy`). Three transforms into 16-wide blocks as index maps on tensors
  of any size.
- **MoE communication, padding and mask** (`MoeComm.dfy`, `ForwardContext.dfy`). When ranks that do not
  exchange their token counts still choose the same collective, and what the shared mask shows.
- **QoS tool** (`Qos*.dfy`). Apply and unset over a driver whose calls may fail, with the state file
  between them. `QosTool` has the loops, `QosAccept` the file round trip, `QosRuns` the restore theorem,
  `QosLimits` and `QosHistory` its exact limits, `QosFormat` which files it accepts.
- **Attention start gate** (`StartGate*.dfy`). Every interleaving of record, wait, reset and get, and
  what each call does undisturbed.
- **Client pool** (`ClientPool.dfy`) and **capture sizes** (`CaptureSizes.dfy`).

`Prelude.dfy` holds what the others share: optional values and outcomes, rounding, decimal digits, lists
without repetition, sorting, and dictionaries that remember insertion order.

Some promises hold only under a condition that the source does not state. Each has its exact condition
and inputs on which it fails: a family of them, or for the start gate one run from the start.

- Topology pools of different groups overlap after NUMA extension on whole families of hosts
  (`TopoGroupsMayOverlap`, `NeighbourIsReached`); no CPU goes to two NPUs if and only if candidates with
  different reach have disjoint reach (`TopoDisjointIff`), which neighbours break (`NeighboursOverlap`).
- With the recompute scheduler on, skipping the data-parallel all-reduce is decided at the potential decode
  size only (`SkippedRanksMayDisagree`); larger batches agree if and only if they are within the MC2
  capacity or an A3 fuses prefill (`SkipAgreesIff`, and in terms of the configuration `ConfigAgreesIff`).
- Ranks that skip the all-reduce may pad to different lengths under flash communication
  (`SkippedLengthsDiffer`); the exact condition is in `PaddedLengthsAgreeIff`.
- A mask view has the full padded length for every batch if and only if the tensor-parallel size divides
  the buffer length (`FullViewIff`).
- Repeated applies of the QoS tool can lose the first snapshot (`SecondApplyLosesSnapshot`); it survives if
  and only if all three dictionaries know the device (`SnapshotKeptIff`). `UndoneIffRecoverable` says when
  one apply is undone, and `RunUndoneIff` when a run is, with any faults.
- Two threads that both find no gate publish two gates (`TwoGetsMayCreateTwoGates`); `GetsAgreeIff` says
  when gets agree. A wait may return False on an open gate (`FalseOnOpenGate`), if and only if the
  gate was opened after the time of that wait had run out (`FalseOnOpenIff`).

Where code and text disagree, the model follows the code. The description of `select_moe_comm_method`
makes fused MC2 on A3 depend on dynamic expert balancing and MTP mode, which the selector does not look
at, and compares the expert-parallel size on A5 where the selector compares the world size. The help text
of the QoS tool says that several applies reuse the first snapshot, while the code recaptures a device
that one dictionary misses.

## Model

| member | source | states |
|---|---|---|
| `CpuSlices.GlobalSlicesPartition` | vllm-ascend/vllm_ascend/cpu_binding.py:475-512 | the slices of ids 0..total-1 concatenate to the sorted CPUs and differ in size by at most one, for every CPU list and total |
| `CpuSlices.GlobalSlicesDisjoint` | vllm-ascend/vllm_ascend/cpu_binding.py:505-512 | slices of two ids share no CPU |
| `CpuSlices.GlobalWorkersDisjoint` | vllm-ascend/vllm_ascend/cpu_binding.py:444-517 | two processes whose visible NPUs are logical ones, with any visible lists, give one id the same pool and distinct ids disjoint pools, each large enough for the role split |
| `CpuSlices.GlobalPoolsFit` | vllm-ascend/vllm_ascend/cpu_binding.py:493-517 | a sliced pool has no CPU twice and never fewer than the role split needs |
| `CpuPlaces.GlobalPlanBuiltIff` | vllm-ascend/vllm_ascend/cpu_binding.py:444-517 | slicing succeeds if and only if there is nothing to bind, or there are 5 allowed CPUs (3 on A5) for each NPU sliced for and every visible id is below their number; too few CPUs are noticed first |
| `CpuPlaces.SlicedBuiltIff` | vllm-ascend/vllm_ascend/cpu_binding.py:538-554 | the same for the whole build, on A3 and on every device but A5 without affinity |
| `CpuPlaces.GlobalPlaces` | vllm-ascend/vllm_ascend/cpu_binding.py:475-517 | an allowed CPU goes to an NPU exactly by how many allowed CPUs have smaller numbers |
| `CpuGroups.SharesPartition` | vllm-ascend/vllm_ascend/cpu_binding.py:259-268 | the shares of a group concatenate to the group's pool, the last one taking the remainder |
| `CpuGroups.GroupSharesDisjoint` | vllm-ascend/vllm_ascend/cpu_binding.py:259-268 | two NPUs of a group never share a CPU |
| `CpuGroups.GroupCovered` | vllm-ascend/vllm_ascend/cpu_binding.py:259-268 | every CPU of the group's pool goes to some NPU of the group |
| `CpuGroups.CandidatePoolsAgree` | vllm-ascend/vllm_ascend/cpu_binding.py:563-580 | two workers with different visible NPUs whose builds succeed have the same candidates, the same pools and the same extended NUMA map |
| `CpuGroups.TopoPoolsNoDup` | vllm-ascend/vllm_ascend/cpu_binding.py:270-282 | no extended pool lists a CPU twice, whatever the NUMA numbering |
| `CpuGroups.TopoWorkersAgree` | vllm-ascend/vllm_ascend/cpu_binding.py:556-593 | both workers cut the same pools, so distinct NPUs of one group are disjoint across processes |
| `CpuGroups.TopoFindsVisible` | vllm-ascend/vllm_ascend/cpu_binding.py:565-593 | when every visible NPU is a known logical one, the build fails only on a candidate, never on the final lookup |
| `CpuReach.TopoPlanBuiltIff` | vllm-ascend/vllm_ascend/cpu_binding.py:563-593 | the build succeeds if and only if every candidate has allowed affinity CPUs and the host lists the node of each |
| `CpuReach.TopoDisjointIff` | vllm-ascend/vllm_ascend/cpu_binding.py:556-593 | on a host with nodes 0..k-1, no two workers ever give one CPU to two NPUs if and only if candidates that can reach different CPUs (their own and those of the next node) have none in common |
| `CpuPlaces.TopoPlaces` | vllm-ascend/vllm_ascend/cpu_binding.py:556-593 | of the CPUs it reaches, an NPU gets exactly the part given by its rank among the candidates with the same reach, the last one taking the rest |
| `CpuPlaces.TopoBuiltIff` | vllm-ascend/vllm_ascend/cpu_binding.py:538-554 | devices other than A3 and A5 use the topology plan when there is affinity, and no rows raise |
| `CpuReach.NeighbourIsReached` | vllm-ascend/vllm_ascend/cpu_binding.py:270-282 | a candidate on the node before another one reaches every CPU of that other one |
| `CpuReach.NeighboursOverlap` | vllm-ascend/vllm_ascend/cpu_binding.py:270-282 | two candidates on neighbouring nodes with different reach put a CPU into the pools of two NPUs of the host |
| `CpuGroups.SharesDisjointIff` | vllm-ascend/vllm_ascend/cpu_binding.py:582-591 | after extension, all shares are disjoint if and only if the pools of different groups are |
| `CpuOverlap.TopoGroupsMayOverlap` | vllm-ascend/vllm_ascend/cpu_binding.py:270-282 | for any CPUs on three nodes, three or more on each, and two NPUs affine to the first two nodes, the build succeeds, both pools pass the role split, and every CPU of the second node is in both |
| `CpuClusters.NumaMembers` | vllm-ascend/vllm_ascend/cpu_binding.py:284-296 | the CPUs of a NUMA node are exactly those whose row names it, each once |
| `CpuClusters.ClusterSound` | vllm-ascend/vllm_ascend/cpu_binding.py:395-432 | an NPU's cluster is full, allowed, free of UVB CPUs and on the NPU's own node |
| `CpuClusters.ClustersDisjoint` | vllm-ascend/vllm_ascend/cpu_binding.py:410-432 | clusters of two NPUs are disjoint, on one node or on two |
| `CpuClusters.NodeZeroHasNoCluster` | vllm-ascend/vllm_ascend/cpu_binding.py:338-341 | after the UVB reservation node 0 has no cluster left |
| `CpuClusters.NoCandidateOnNodeZero` | vllm-ascend/vllm_ascend/cpu_binding.py:377-442 | in a successful 950 plan every candidate is affine to one node, and that is not node 0 |
| `CpuClusters.BuildsAgree` | vllm-ascend/vllm_ascend/cpu_binding.py:386-408 | two workers that get past node detection have the same candidates, nodes and cluster input, whether or not the clusters suffice |
| `CpuClusters.WorkersShareOneClusterPlan` | vllm-ascend/vllm_ascend/cpu_binding.py:377-442 | across processes, every visible NPU gets one good cluster of all threads of eight cores, with one or two threads a core, equal for equal NPUs and disjoint for distinct ones |
| `CpuBuilds.ClusterPlanBuiltIff` | vllm-ascend/vllm_ascend/cpu_binding.py:377-442 | the 950 build succeeds if and only if there is affinity, a core has one or two threads, and every candidate lies on one node that has all threads of eight cores for each of its candidates; without affinity or with another thread count it is skipped |
| `CpuPlaces.ClusterPlaces` | vllm-ascend/vllm_ascend/cpu_binding.py:395-432 | a usable CPU of a node goes to an NPU exactly by how many usable CPUs and how many NPUs of that node have smaller numbers |
| `CpuAlloc.CpuAlloc.BuildCpuNodeMap` | vllm-ascend/vllm_ascend/cpu_binding.py:284-296 | the loop builds both maps of the rows, and raises on no rows |
| `CpuAlloc.CpuAlloc.ExtendNuma` | vllm-ascend/vllm_ascend/cpu_binding.py:270-282 | extension, error on an unknown CPU, and the entry that indexing the default dictionary may add |
| `CpuAlloc.CpuAlloc.AverageDistribute` | vllm-ascend/vllm_ascend/cpu_binding.py:259-268 | for any list of groups, each NPU gets its share of the sorted pool of the first NPU in the last group that lists it |
| `CpuAlloc.CpuAlloc.BuildGlobalSliceCpuPool` | vllm-ascend/vllm_ascend/cpu_binding.py:444-517 | the loop computes the global plan, with its errors |
| `CpuAlloc.CpuAlloc.BuildTopoAffinityCpuPool` | vllm-ascend/vllm_ascend/cpu_binding.py:556-593 | extension, grouping by pool, sharing and selection together compute the topology plan |
| `CpuAlloc.CpuAlloc.BuildAscend950CpuPools` | vllm-ascend/vllm_ascend/cpu_binding.py:377-442 | grouping by node and handing out clusters computes the 950 plan, or leaves the pools as they were |
| `CpuAlloc.CpuAlloc.BuildCpuPools` | vllm-ascend/vllm_ascend/cpu_binding.py:538-554 | the strategy follows the device type, and the result is the plan the cross-process lemmas speak about |
| `CpuAlloc.CpuAlloc.Allocate` | vllm-ascend/vllm_ascend/cpu_binding.py:601-623 | raises exactly when some pool has fewer than 5 CPUs (never on A5); otherwise every NPU gets its roles |
| `CpuAlloc.SplitRoles` | vllm-ascend/vllm_ascend/cpu_binding.py:606-623 | IRQ, main, ACL and release CPUs are the pool in order, with a main role that is never empty |
| `CpuAlloc.GlobalRolesApart` | vllm-ascend/vllm_ascend/cpu_binding.py:493-517 | after slicing, the role split accepts every pool, covers it, and no CPU has two roles |
| `CpuAlloc.CpuAlloc.BuildAndAllocate` | vllm-ascend/vllm_ascend/cpu_binding.py:792-795 | pools then roles: skips and errors of the build pass through, and after successful slicing the role split never raises |
| `CpuMask.CpuToMask` | vllm-ascend/vllm_ascend/cpu_binding.py:219-227 | read as big-endian 32-bit hexadecimal words of eight digits the mask is 2 to the power of the CPU, for every CPU |
| `CpuMask.Hex8RoundTrip` | vllm-ascend/vllm_ascend/cpu_binding.py:219-227 | a word below 2^32 is eight digits and reads back |
| `DeviceTable.GetAllLogicNpus` | vllm-ascend/vllm_ascend/cpu_binding.py:90-102 | strictly ascending, and exactly the ids that some chip entry names |
| `DeviceTable.ResolvesIff` | vllm-ascend/vllm_ascend/cpu_binding.py:134-147 | a row resolves to an id if and only if its chip, or the only chip of its card, carries that id, which then is a logical one |
| `DeviceTable.RaisesIff` | vllm-ascend/vllm_ascend/cpu_binding.py:134-147 | a row raises if and only if no chip carries an id for it, and as ambiguous if and only if it names no chip and its card does not have exactly one |
| `DeviceTable.GetRunningNpus` | vllm-ascend/vllm_ascend/cpu_binding.py:149-181 | exactly the visible ids with a process row, ascending, all logical; raises exactly on an unresolvable row or when nothing is left |
| `DeviceTable.LoadDeviceInfo` | vllm-ascend/vllm_ascend/cpu_binding.py:62-69 | the logical list holds exactly the ids of the map and the running list exactly the visible ids that run, both sorted, the second within the first; raises exactly when a row does not resolve or nothing is left |
| `CompressedPositions.VectorisedIsPerRequest` | vllm-ascend/vllm_ascend/utils.py:1693-1712 | the arange/repeat/cumsum form is the concatenation of one range per request |
| `CompressedPositions.CompressedMonotone` | vllm-ascend/vllm_ascend/utils.py:1683-1690 | the compressed length never shrinks as tokens are added, for every ratio, so no step takes positions back |
| `CompressedPositions.GetCompressedPosAndIndices` | vllm-ascend/vllm_ascend/utils.py:1647-1713 | for every cache group a request gets one position for each window of ratio tokens that becomes full, counted on the computed and on the computed and scheduled tokens; and exactly when each shape error is raised |
| `CompressedPositions.GroupEntries` | vllm-ascend/vllm_ascend/utils.py:1693-1713 | entry j of a request stands after those of the requests before it, holds its start + j and carries its label |
| `CompressedPositions.OneCountForAll` | vllm-ascend/vllm_ascend/utils.py:1709-1709 | with one request and several labels each label is repeated for all positions |
| `CompressedRuns.SelectRow` | vllm-ascend/vllm_ascend/utils.py:1693-1712 | picking the positions labelled with a request gives exactly that request's range |
| `CompressedRuns.ChunkInvariance` | vllm-ascend/vllm_ascend/utils.py:1683-1713 | over any sequence of scheduler steps a request is given k positions 0, 1, .., in order, with k * ratio <= N < (k + 1) * ratio for its N tokens, and k = N for a ratio of 0 or 1 |
| `CompressedRuns.SameTotalSamePositions` | vllm-ascend/vllm_ascend/utils.py:1683-1713 | two ways to cut the same tokens into steps give a request the same positions |
| `Tensors.PermuteRoundTrip` | vllm-ascend/vllm_ascend/utils.py:1617-1638 | permuting by inverse axes gives the tensor back |
| `Tensors.UnflatFlat` | vllm-ascend/vllm_ascend/utils.py:352-371 | the row-major position of an index determines the index, for every shape |
| `Arithmetic.RoundUp` | vllm-ascend/vllm_ascend/utils.py:301-308 | a multiple of the alignment, not below the value and less than one step above it |
| `NzTransforms.NdToNz2dAt` | vllm-ascend/vllm_ascend/utils.py:352-371 | cell (0, j, i, l) holds element (i, 16j+l) of the input, or zero outside it |
| `NzTransforms.NdToNz2dPlacesOnce` | vllm-ascend/vllm_ascend/utils.py:352-371 | every element has its own cell and can be read back there; every other cell is zero |
| `NzTransforms.PadIntoBuffer` | vllm-ascend/vllm_ascend/utils.py:374-384 | writing rows into a zeroed buffer is padding the matrix |
| `NzTransforms.NdToNzSpec` | vllm-ascend/vllm_ascend/utils.py:374-384 | the buffer version gives the same tensor as `nd_to_nz_2d` for every matrix |
| `NzCache.TransSucceedsIff` | vllm-ascend/vllm_ascend/utils.py:1617-1638 | it succeeds exactly with two dimensions or more, on empty tensors and on those whose last two sizes are whole tiles of 16 by 16, or 16 by 32 for int8 |
| `NzCache.TransAt` | vllm-ascend/vllm_ascend/utils.py:1617-1638 | with any batch dimensions, tile cell (j1, i1, i0, j0) holds element (16 i1 + i0, w j1 + j0), where w is 32 for int8 and 16 otherwise |
| `NzCache.TransRoundTrip` | vllm-ascend/vllm_ascend/utils.py:1617-1638 | for both tile widths the transform loses nothing: the inverse axes give the input back |
| `NzCache.TransIsNdToNz2d` | vllm-ascend/vllm_ascend/utils.py:1617-1638 | on matrices of whole 16x16 tiles its data is that of `nd_to_nz_2d` |
| `MoeComm.SelectsFusedIff` | vllm-ascend/vllm_ascend/ascend_forward_context.py:255-282 | fused MC2 if and only if an A3 spreads its experts and the flag is 1 with at most 32 ranks, 2 with dynamic w8a8, combined decode and a batch within the capacity, or any other value but 0 |
| `MoeComm.SelectsMc2Iff` | vllm-ascend/vllm_ascend/ascend_forward_context.py:240-300 | MC2 if and only if the batch is within the capacity and the device is an A2 with at most 24 experts on each of 16 or more ranks, an A3 that does not fuse, or an A5 with two ranks or more |
| `MoeComm.SelectsAllToAllIff` | vllm-ascend/vllm_ascend/ascend_forward_context.py:255-300 | all-to-all if and only if an A3 without fused prefill has a batch above the capacity, or an A5 that does not use MC2 has more ranks than experts per token |
| `MoeComm.SelectsAllGatherIff` | vllm-ascend/vllm_ascend/ascend_forward_context.py:240-356 | all-gather if and only if the experts are not spread, the device is a 310P, or neither MC2 nor all-to-all serves an A2 or A5 |
| `MoeComm.SelectsNoneIff` | vllm-ascend/vllm_ascend/ascend_forward_context.py:303-356 | no method for exactly the dense models, and an error exactly when a capacity is needed and not set |
| `MoeComm.ShouldSkipIff` | vllm-ascend/vllm_ascend/utils.py:1230-1275 | the skip decision and its error over the configuration and the methods of the two tested batches |
| `MoeComm.Mc2ForSmaller` | vllm-ascend/vllm_ascend/ascend_forward_context.py:240-300 | a selector that picks MC2 or fused MC2 for some batch picks the same method for every smaller one, on every device type |
| `MoeComm.SkipMeansMc2` | vllm-ascend/vllm_ascend/utils.py:1230-1275 | when the all-reduce is skipped for a MoE model, every batch up to the tested maximum uses the one method tested |
| `MoeComm.SkipAgreesIff` | vllm-ascend/vllm_ascend/utils.py:1265-1275 | with the all-reduce skipped, all batches up to a bound agree if and only if the bound is within the MC2 capacity or the device is an A3 whose fused MC2 covers prefill |
| `MoeComm.ConfigAgreesIff` | vllm-ascend/vllm_ascend/utils.py:1265-1275 | the same with the capacity and the potential maximum of one configuration: the bound is within 512 tokens a rank and within the rounded size the capacity is meant for, or an A3 fuses prefill |
| `MoeComm.PrefillCapacityAgreesIff` | vllm-ascend/vllm_ascend/ascend_forward_context.py:202-217 | a capacity meant for prefill covers every batch of the scheduler if and only if its limit is within 512 tokens a rank, or an A3 fuses prefill |
| `MoeComm.SkippedRanksMayDisagree` | vllm-ascend/vllm_ascend/utils.py:1265-1275 | every A3 decode server with the recompute scheduler, no fused prefill and a capacity between the potential maximum and the limit of the scheduler skips the all-reduce; a rank above the capacity then picks all-to-all and one within it MC2 |
| `MoeComm.RecomputingIsDecodeOnly` | vllm-ascend/vllm_ascend/utils.py:1265-1275 | a server with graphs up to 256 tokens and a limit of 8192 is one of them, for every tensor-parallel size from 1 to 16 |
| `MoeComm.ChoosesByIs` | vllm-ascend/vllm_ascend/worker/model_runner_v1.py:672-720 | whatever counts a rank passes on, it chooses by its own count when alone or skipping and by the maximum otherwise |
| `MoeComm.RanksAgree` | vllm-ascend/vllm_ascend/worker/model_runner_v1.py:672-720 | skipped or not, any two ranks choose the same collective for batches up to the tested maximum |
| `MoeComm.CapacityBounds` | vllm-ascend/vllm_ascend/ascend_forward_context.py:202-217 | the capacity is a multiple of the tensor-parallel size, at least min(max tokens, 512 tp) and at most 512 tp |
| `MoeComm.CapacityIs` | vllm-ascend/vllm_ascend/ascend_forward_context.py:202-217 | it is the least multiple of the tensor-parallel size that holds the tokens, cut off at 512 a rank |
| `MoeComm.PotentialCoversIff` | vllm-ascend/vllm_ascend/utils.py:1173-1207 | covers every decode batch the scheduler can form if and only if there are capture sizes or no such batch exceeds 512; with capture sizes it is the least number that does and covers these too |
| `ForwardContext.AlonePads` | vllm-ascend/vllm_ascend/ascend_forward_context.py:126-191 | a rank that is alone, or has no counts, pads under flash communication only, by less than tp to the least multiple of tp; its mask always has the least multiple |
| `ForwardContext.AmongPads` | vllm-ascend/vllm_ascend/ascend_forward_context.py:126-191 | with counts of several ranks the least multiple that holds the largest count takes its place |
| `ForwardContext.FlashCommIff` | vllm-ascend/vllm_ascend/ascend_forward_context.py:125-144 | flash communication is on exactly with a token count and either flashcomm 2 over two ranks or sequence parallelism, in a MoE context or for more than 1000 tokens of a dense main model |
| `Arithmetic.RoundUpLeast` | vllm-ascend/vllm_ascend/ascend_forward_context.py:126-191 | no smaller multiple would do |
| `ForwardContext.PaddedLengthIs` | vllm-ascend/vllm_ascend/ascend_forward_context.py:126-191 | under flashcomm with data parallelism a rank pads, never by a negative amount, to the least multiple that holds its own count when it skips and the maximum otherwise |
| `ForwardContext.PaddedLengthsAgreeIff` | vllm-ascend/vllm_ascend/ascend_forward_context.py:126-191 | two ranks pad to the same length if and only if the all-reduce was not skipped or their counts round up to the same multiple |
| `ForwardContext.SkippedLengthsDiffer` | vllm-ascend/vllm_ascend/worker/model_runner_v1.py:689-691 | under any configuration that skips, ranks with n and n + tp tokens, both multiples of tp, pad to exactly these two lengths |
| `ForwardContext.RecomputingLengthsDiffer` | vllm-ascend/vllm_ascend/worker/model_runner_v1.py:689-691 | the recomputing decode server is such a configuration for every tensor-parallel size from 1 to 16 |
| `ForwardContext.FullViewIff` | vllm-ascend/vllm_ascend/ascend_forward_context.py:181-191 | every batch fits the buffer after padding if and only if the tensor-parallel size divides the buffer length |
| `ForwardContext.ViewsCountActual` | vllm-ascend/vllm_ascend/ascend_forward_context.py:181-191 | a view is True exactly at the actual tokens, and has full padded length on a divisible buffer |
| `ForwardContext.Globals.SetCapacity` | vllm-ascend/vllm_ascend/ascend_forward_context.py:202-217 | write-once, from the first of three sources that applies |
| `ForwardContext.Globals.SetPotential` | vllm-ascend/vllm_ascend/utils.py:1216-1221 | write-once |
| `ForwardContext.Globals.SetMask` | vllm-ascend/vllm_ascend/ascend_forward_context.py:224-233 | allocated once, all False, and only for MoE models |
| `ForwardContext.Globals.Enter` | vllm-ascend/vllm_ascend/ascend_forward_context.py:181-191 | overwrites exactly the view of the one shared buffer |
| `ForwardContext.Globals.Run` | vllm-ascend/vllm_ascend/ascend_forward_context.py:181-191 | over any sequence of forwards, with or without a token count, each view depends on its own forward only, whatever earlier ones left |
| `QosText.IntRoundTrip` | vllm-ascend/tools/ai_qos.py:73-93 | a device or master number written as a key reads back |
| `QosFormat.ParseIntIff` | vllm-ascend/tools/ai_qos.py:73-93 | text is read as n if and only if it is the decimal of n with any leading zeros and its sign, of which + may be missing |
| `QosFormat.ToIntIff` | vllm-ascend/tools/ai_qos.py:91-93 | a JSON value is read as n if and only if it is n, a boolean, a number without its fraction, or such a text |
| `QosFormat.AcceptsIff` | vllm-ascend/tools/ai_qos.py:56-121 | unset accepts a file if and only if its keys are numbers and its values lists of 5, 4 and 3 integers, with the bandwidth and fuse parts optional; any other file is removed and the driver left alone |
| `QosFormat.LastTupleCounts` | vllm-ascend/tools/ai_qos.py:98-119 | of several keys for one device the last one in the file counts |
| `QosFormat.LoadIs` | vllm-ascend/tools/ai_qos.py:249-267 | which files raise, which count as none, and what is taken from the others |
| `QosFormat.PriorityIs` | vllm-ascend/tools/ai_qos.py:322-366 | the QoS value of each master: the lower direction decides, SDMA is one above AIV at each level, PCIe DMA is at the ends |
| `QosApply.SetDevicesAt` | vllm-ascend/tools/ai_qos.py:404-420 | the driver after an apply, slot by slot, for any device list and any failing calls |
| `QosApply.FreshCaptureSaves` | vllm-ascend/tools/ai_qos.py:178-221 | a first capture saves exactly the slots it could read |
| `QosApply.CaptureTrue` | vllm-ascend/tools/ai_qos.py:178-221 | capturing devices that still have their original settings adds only true entries |
| `QosAccept.EncodedAccepted` | vllm-ascend/tools/ai_qos.py:56-121 | a file with number tuples under canonical keys is accepted by the unset validator, and writing the parsed values gives the file again |
| `QosRuns.WrittenIsAccepted` | vllm-ascend/tools/ai_qos.py:424-436 | every run of applies that starts without a usable file succeeds and leaves a file that unset accepts and reads back in full, whichever calls fail |
| `QosRestore.RestoresSaved` | vllm-ascend/tools/ai_qos.py:270-309 | restoring sets exactly the saved slots to their original values and leaves the others alone |
| `QosRuns.RunKeepsInv` | vllm-ascend/tools/ai_qos.py:340-436 | through every run of applies the file holds every original setting of every device touched and only true entries, and the driver has changed only where the tool may write |
| `QosRuns.UnsetRestoresOriginal` | vllm-ascend/tools/ai_qos.py:270-319 | after any applies with any priorities and lists, unset gives back every setting and removes the file; only each device's first reads and the writes of unset must succeed |
| `QosRuns.CompleteStays` | vllm-ascend/tools/ai_qos.py:224-267 | a device known to all three dictionaries keeps its entries through every later run, whatever fails |
| `QosApply.CaptureEntry` | vllm-ascend/tools/ai_qos.py:231-246 | in each dictionary a captured device gets what can be read now, and every other entry is kept |
| `QosLimits.UndoneIffRecoverable` | vllm-ascend/tools/ai_qos.py:195-221 | a first apply is undone if and only if no unreadable setting was overwritten with something else |
| `QosHistory.UnsetLeaves` | vllm-ascend/tools/ai_qos.py:270-319 | after any run, whatever calls fail in it, unset leaves in each slot what the commands before the capture in the file made of it, or all commands if that capture could not read it |
| `QosHistory.WholeIsRestored` | vllm-ascend/tools/ai_qos.py:224-246 | a device whose bandwidth and fuse mode the first command that lists it could read gets back every setting that command read or none sets, after any run |
| `QosHistory.ReadableIsRestored` | vllm-ascend/tools/ai_qos.py:224-246 | a device that the first command that lists it could read gets every setting back, after any run |
| `QosHistory.RunUndoneIff` | vllm-ascend/tools/ai_qos.py:270-319 | any run is undone if and only if each slot is harmless: no command that decides it sets it, or the last one that does puts the first value |
| `QosLimits.SnapshotKeptIff` | vllm-ascend/tools/ai_qos.py:231-246 | in each of the three dictionaries the entry of a device survives every driver state if and only if the device is not listed or is in all three |
| `QosLimits.SecondApplyLosesSnapshot` | vllm-ascend/tools/ai_qos.py:207-246 | with an unreadable bandwidth a second apply saves the values of the first one, and unset restores those |
| `QosTool.CaptureOriginalQos` | vllm-ascend/tools/ai_qos.py:178-192 | the nested loops give the QoS part of the capture |
| `QosTool.CaptureOriginalMata` | vllm-ascend/tools/ai_qos.py:195-210 | the loop gives the bandwidth part, skipping devices with a failing call |
| `QosTool.CaptureOriginalFuse` | vllm-ascend/tools/ai_qos.py:213-221 | the loop gives the fuse part |
| `QosTool.UpdateCaptured` | vllm-ascend/tools/ai_qos.py:238-246 | copying a fresh capture over the dictionaries is capturing into them, in the same order |
| `QosTool.MergeBaseline` | vllm-ascend/tools/ai_qos.py:224-246 | a device missing anywhere is captured in all three dictionaries, the others are kept |
| `QosTool.ParseAndValidate` | vllm-ascend/tools/ai_qos.py:56-121 | the validator's loops, with every way to reject |
| `QosTool.Tool.SetQos` | vllm-ascend/tools/ai_qos.py:340-436 | the whole apply: driver, file and the failure on a file that holds no object |
| `QosTool.Tool.RunUnset` | vllm-ascend/tools/ai_qos.py:270-319 | the whole unset: no file, a rejected file, and the restore in its three loops |
| `StartGateProof.StepInv` | vllm-ascend/vllm_ascend/memcache_comm_fence.py:41-91 | every atomic step of every thread keeps the invariant of the gates, the global and the log |
| `StartGateProof.GateIsSafe` | vllm-ascend/vllm_ascend/memcache_comm_fence.py:41-91 | in every interleaving a gate is opened once, by an event recorded before and used once; a wait that returns True synchronised on that event; one that returns False had its time run out while its gate was closed; records open the gate they read, gets return the published one and make one only if nothing was published when they last looked, and no wake-up is lost |
| `StartGateProof.EventStays` | vllm-ascend/vllm_ascend/memcache_comm_fence.py:48-51 | the first event of a gate stays through every run |
| `StartGateProof.GetsAgreeIff` | vllm-ascend/vllm_ascend/memcache_comm_fence.py:78-83 | two gets, whether they found a gate or made one, return the same gate if and only if nothing was published after the first up to the second |
| `StartGateCalls.GetAfterPublish` | vllm-ascend/vllm_ascend/memcache_comm_fence.py:78-83 | in every reachable state after a publication a get returns the gate published last and changes nothing |
| `StartGateCalls.GetFindsReset` | vllm-ascend/vllm_ascend/memcache_comm_fence.py:65-83 | from the start, a get after a reset returns the gate of the reset |
| `StartGateCalls.ResetPublishes` | vllm-ascend/vllm_ascend/memcache_comm_fence.py:65-75 | a reset publishes a new closed gate |
| `StartGateCalls.RecordIs` | vllm-ascend/vllm_ascend/memcache_comm_fence.py:41-51 | a record opens a closed gate with a new event and notifies who waits on it, and leaves an open gate alone |
| `StartGateCalls.RecordWithoutGate` | vllm-ascend/vllm_ascend/memcache_comm_fence.py:86-91 | a record without a published gate only looks |
| `StartGateCalls.WaitIs` | vllm-ascend/vllm_ascend/memcache_comm_fence.py:53-62 | a wait blocks on a closed gate, and returns True on an open one whose event the device has reached |
| `StartGateCalls.WaiterReturnsTrue` | vllm-ascend/vllm_ascend/memcache_comm_fence.py:53-62 | who waits on a gate that was opened returns True once the device reaches its event |
| `StartGateProof.FalseOnOpenGate` | vllm-ascend/vllm_ascend/memcache_comm_fence.py:53-58 | from the start, a run in which a waiter returns False although its gate was opened after its time had run out |
| `StartGateProof.FalseOnOpenIff` | vllm-ascend/vllm_ascend/memcache_comm_fence.py:53-58 | in every run, a wait that returns False does so on an open gate if and only if the gate was opened strictly between the last expiry of its thread and its return |
| `StartGateProof.TwoGetsMayCreateTwoGates` | vllm-ascend/vllm_ascend/memcache_comm_fence.py:78-83 | two threads that both read None publish two different gates |
| `ClientPool.StepInv` | vllm/benchmarks/benchmark_hidden_state_extraction.py:133-177 | every step keeps the account of prompts: queued, in work and done make up all of them |
| `ClientPool.NeverBlocks` | vllm/benchmarks/benchmark_hidden_state_extraction.py:133-177 | a client about to take an item never finds the queue empty |
| `ClientPool.RunsAreBounded` | vllm/benchmarks/benchmark_hidden_state_extraction.py:133-177 | no schedule has more than 2 prompts + clients steps, so every run ends |
| `ClientPool.ResultsGrow` | vllm/benchmarks/benchmark_hidden_state_extraction.py:133-177 | results are only ever added at the end |
| `ClientPool.RunsComplete` | vllm/benchmarks/benchmark_hidden_state_extraction.py:240-258 | a run that ends has each prompt in the results exactly once and nothing else, one sentinel used per client and an empty queue |
| `CaptureSizes.IndicesAscend` | vllm-ascend/vllm_ascend/platform.py:109-125 | the four rounded indices are strictly increasing and in range for every length |
| `CaptureSizes.SampleAscends` | vllm-ascend/vllm_ascend/platform.py:109-125 | the sampled sizes stay strictly increasing and keep both ends |
| `CaptureSizes.SampleIsSpread` | vllm-ascend/vllm_ascend/platform.py:109-125 | sample i is at the position nearest to i thirds of the way from the first size to the last |
| `CaptureSizes.ExpandMembers` | vllm/vllm/config/compilation.py:1087-1101 | the compile sizes are the listed sizes, and the capture sizes if these are named |
| `CaptureSizes.CompilationConfig.PostInit` | vllm/vllm/config/compilation.py:1081-1106 | expands the compile sizes and sorts the capture sizes, and stops before either when a text is unknown |
| `CaptureSizes.CompilationConfig.Update` | vllm-ascend/vllm_ascend/utils.py:647-682 | the three ways to fail in their order, and what has been stored by then |
| `CaptureSizes.CompilationConfig.Prune` | vllm-ascend/vllm_ascend/platform.py:109-125 | on ascending sizes it raises exactly when a configured maximum is not the last size or a compile size is an unknown text |

## Left out

- Commands and their text: `npu-smi`, `lscpu`, `ps`, `taskset`, `migratepages` and `/proc` are not run or parsed; the tables they give are inputs.
- Binding threads, memory and IRQs to the CPUs that were chosen.
- Digits other than ASCII 0-9, and surrounding blanks or underscores, where the source tests `isdigit` or calls `int` on text.
- QosRuns.UnsetRestoresOriginal: a call that fails during one command fails every time within that command; faults that come and go inside a command are not modelled.
- JSON as text, file permissions and a file that cannot be removed: the state file is absent, unreadable or a JSON value.
- The switch commands that apply prints and unset prints again with `undo`: they are an input list that is stored and parsed back.
- How `_device_list` reads the visible devices: the list is an input.
- Floating-point rounding in `round` and `math.ceil`: exact quotients are used, which no input of the modelled calls puts on a half.
- Tensor element values are integers, and strides, devices and data types other than the int8 distinction are not modelled.
- Fields of the forward context other than token counts, padding and mask.
- The order in which Python lists a set of compile sizes: every order is allowed.
- Device streams: an event is recorded or complete, and the device may complete a recorded event at any time.
- StartGateProof.GateIsSafe: records go through the module function; a caller that records on a gate object it kept is not modelled, and neither are wake-ups without a notification.
- Requests of the client pool that fail: the engine call of a client always returns.
- vLLM's scheduler and KV-cache block pool, the kernels and their bindings, and the other tools and benchmarks.
