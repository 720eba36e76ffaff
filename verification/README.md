# A verified model of a serving-stack overlay

The overlay changes how a large-model server registers host memory, drafts tokens, samples, stores quantised weights,
groups its KV cache and accounts for traces. This project models the parts of it that are algorithms or protocols, and
proves what they promise. Where a promise fails, the code is kept as it is, a concrete failing input is given, and the
exact condition under which the promise holds is proved.

| module | what it models |
|---|---|
| `HostRegistration`, `RegionPinning` | row-aligned chunk plans; registering and rolling back host memory against a runtime that may fail anywhere; one worker's region |
| `PinProtocol` | N workers on a TP x PCP x PP grid taking registration turns, agreeing by group maxima, rolling back in turns |
| `RegionLifecycle` | the race to create, join, map and unlink one shared-memory pathname |
| `StreamRewrite` | the FP8 residual stream: an all-reduce moved from the producing projection to the consuming epilogue |
| `TopKTopP` | top-k/top-p masking from the largest candidates, against sorting the whole row |
| `DraftMatch` | the tiled n-gram matcher with its packed atomic-max key |
| `DraftCapture` | the split, sharded, rescaled softmax confidence and the returned token id |
| `DraftController` | the vectorised per-slot draft gate, its early exit and the assembly of drafts |
| `ContextMirror` | the incremental token mirror the matcher reads |
| `DraftHead` | the 2-bit draft head: packing, bf16 bit-pattern decode, premultiplied scales, block candidates |
| `DraftRerank` | how far the head's coarse logits are off, which tokens are rescored exactly, and when the right one wins |
| `WeightLayout` | fragment-order weights, row references, and two projections merged into one |
| `NibblePacking` | 4-bit codes in lane order, and the clip search that chooses them |
| `GroupSize` | the KV cache group size search |
| `GrammarTermination` | grammar acceptance, validation and reset around termination |
| `IntervalAccounting`, `WorkerWindows` | interval unions, per-round rows, worker windows matched to their markers, unattributed time |
| `Logits`, `FragmentOrder`, `Arithmetic`, `Options` | shared definitions and index arithmetic |

Conventions. Floating-point arithmetic is modelled over the reals, and the exponential is a parameter that is positive
and, where the code relies on it, turns sums into products. Bit patterns are bit vectors. Calls into code that is not
here (the GPU runtime, the matcher, the drafter, tensor kernels) return arbitrary or parameter values. Methods follow
the source's loops and in-place updates and are proved against functions; the lemmas then say what those functions mean.
`dafny verify dfyconfig.toml` checks everything.

What the proofs found in the code:

- A vocabulary split whose first 512-wide block is all minus infinity makes the confidence NaN. With finite real logits
  that happens exactly when a shard's last 4096-wide chunk begins inside its padding (`SafeIffPaddingFits`).
- Sequence-parallel layers apart, whose code is not here, some weights make the streamed decoder differ from the stock
  one exactly when a `layer_scale` layer is live (its learned scales are dropped), or when an `expert_gate` layer follows
  a layer whose partial sum was left to it (`PreservedIffSafe`).
- The composite top-k/top-p mask equals the sorted reference under every legal sort exactly when the top-p cut splits no
  tie and, should the k-th value's ties run past the window, top-p cuts nothing at all (`ExactIff`).
- The 2-bit head is exact for every input exactly when K is a multiple of 512; its guard admits multiples of 256. Its
  quantiser keeps every weight of a group within half a step exactly when the group's range lies within 3.5 steps of
  zero (`WithinHalfStep`).
- After the exact rerank the draft head's argmax is the exact one for certain when at most 8 tokens (the candidates of a
  block; or the number rescored, if smaller) come within twice the quantisation slack of it (`HeadFindsWinner`). Being
  rescored is necessary for the winner only when the other logits are blanked (`WinnerIff`, `UnrescoredCanWin`).
- At any draft width the matcher is right for all contexts of a length exactly up to 2^20 + 1 tokens (`LimitIsSharp`).
- The 4-bit clip search's error is NaN exactly when the group's first scale rounds to an f16 zero and the group holds a
  zero weight; every try is then NaN, the first is kept, and the group reads back as zeros (`KeptErrorIsNumberIff`).
- The mirror is exact under stable tokens exactly when no empty call falls between two non-empty ones: the early return
  on an empty batch forgets nobody, so a request id that comes back with other tokens is not copied again.
- With a failing worker about, three or more workers can return normally with two different files; two cannot.
- The controller's comments promise a free n-gram tail at the forward cap. That branch is never taken: a request still
  running there has just disagreed with the n-gram (`CapNeverCopies`).
- The forward cap is kept exactly when the matcher ran; without it the native full-width draft runs (`ProposeDraft`).
- The comment above the non-canonical `continue` in the group-size search is right: canonical sizes lose nothing.

## Model

| member | source | states |
|---|---|---|
| HostRegistration.PlanRegistrationChunks | radiance_kv_offload.py:101-126 | the planning loop fails exactly on the arguments for which the source raises, and otherwise returns the plan whose properties are the next row |
| HostRegistration.PlanPartitionsRegion | radiance_kv_offload.py:106-126 | every planned chunk starts and ends on a row, and each byte of the region lies in exactly one chunk |
| HostRegistration.ChunkSizes | radiance_kv_offload.py:115-126 | without a request, or with one covering the region, there is one chunk; otherwise all chunks but the last have one size, the most whole rows within the request, or a single row where none fits |
| HostRegistration.RollbackHostChunks | radiance_kv_offload.py:129-164 | chunks are tried once each, last first; those not released stay listed in their original order and are exactly those still registered; the first bad status, the last drained error and whether anything raised are reported; no pending error survives unless something raised |
| HostRegistration.RegisterHostChunks | radiance_kv_offload.py:167-213 | the plan is tried in order; success registers all of it; failure leaves registered and listed exactly what the rollback could not release, with the refusing status and the error drained after it; other registrations are untouched |
| HostRegistration.FirstBadAt | radiance_kv_offload.py:141-164 | the release error a rollback reports is the status of the first failed unregister call in the log, and there is none when no call failed |
| HostRegistration.ReleaseChunk | radiance_kv_offload.py:141-157 | one unregister call: released, or a bad status that is drained on the same handle, or an exception |
| RegionPinning.Region.PinMmapRegion | patch_kv_offload_registration.py:318-452 | for a lone worker the outcome is decided by the calls' results (nothing refused; refused and cleanly rolled back under auto; anything else an error), and the region's fields list exactly what is still registered |
| RegionPinning.VerdictIs | patch_kv_offload_registration.py:387-452 | call by call: pinned exactly when no registration was refused and nothing raised, pageable exactly under auto when one was refused, no release failed and nothing raised |
| RegionPinning.Region.Cleanup | patch_kv_offload_registration.py:165-188 | shutdown releases what it can and reports the rest, all of it when the runtime handle is missing; the region's fields are cleared either way |
| PinProtocol.RankIsBijection | patch_kv_offload_registration.py:284-294 | the mixed-radix rank maps the grid one to one onto 0..world-1 |
| PinProtocol.GlobalBarrier | patch_kv_offload_registration.py:296-299 | when one worker has left a barrier over TP, PCP and PP in sequence, every worker has reached it |
| PinProtocol.ThreeMaximaAreGlobal | patch_kv_offload_registration.py:306-315 | three successive group maxima give each worker the maximum over the whole grid |
| PinProtocol.TurnsExclude | patch_kv_offload_registration.py:353-427 | in every reachable state at most one worker is registering or rolling back |
| PinProtocol.FinishedAgree | patch_kv_offload_registration.py:387-452 | no two finished workers disagree on the outcome or on how many collectives they called, even while others still run |
| PinProtocol.FinishedChunks | patch_kv_offload_registration.py:369-415 | a worker that returned pinned holds its whole plan, one that returned pageable or raised after a clean rollback of its own holds nothing |
| PinProtocol.FinishedOutcome | patch_kv_offload_registration.py:392-452 | all pinned exactly when every status is 0; pageable exactly when the worst is an ordinary failure, every rollback succeeded and the policy is auto |
| PinProtocol.FailedStaysOut | patch_kv_offload_registration.py:346-360 | on every run a worker whose status became 2 keeps it and is never inside its registration turn |
| PinProtocol.FailureFailsAll | patch_kv_offload_registration.py:346-452 | a finished run in which some worker's status was ever 2, for instance because it failed to prepare, ends with every worker raising |
| PinProtocol.FinishedRunIsUnanimous | patch_kv_offload_registration.py:318-452 | for every grid, interleaving and failure pattern a finished run is all pinned, all released (auto only), all skipped, or all raising, with equal barrier counts; unless pinned, clean rollbacks leave no worker a chunk |
| PinProtocol.NeverStuck | patch_kv_offload_registration.py:353-433 | until all have finished some worker can move: none is stranded at a collective |
| PinProtocol.RunsAreBounded | patch_kv_offload_registration.py:353-452 | every run has bounded length, so with the previous row every run finishes |
| PinProtocol.StepInv | patch_kv_offload_registration.py:318-452 | each step of any worker keeps the protocol invariant |
| RegionLifecycle.LinkedIffOwed | patch_kv_offload_lifecycle.py:92-165 | the pathname is linked exactly when one creator still owes an unlink, and then it names that creator's file |
| RegionLifecycle.EndedLeavesNothing | patch_kv_offload_lifecycle.py:132-165 | a worker that ended called the barrier exactly once, and when all have ended no name remains |
| RegionLifecycle.UnlinkedForGood | patch_kv_offload_lifecycle.py:149-165 | once a worker has returned, an unlinked name stays unlinked |
| RegionLifecycle.SameFileUnlessAbandoned | patch_kv_offload_lifecycle.py:92-165 | unless a creator gave its file up, all normal returners map one fully sized file |
| RegionLifecycle.AllReturnedAgree | patch_kv_offload_lifecycle.py:92-165 | if every worker returns normally they map one and the same file |
| RegionLifecycle.TwoFiles | patch_kv_offload_lifecycle.py:107-147 | a run of any three or more workers in which two return normally with different files |
| RegionLifecycle.ReturnersAlwaysAgreeIff | patch_kv_offload_lifecycle.py:92-165 | normal returners agree in every run exactly when there are at most two workers |
| StreamRewrite.Install | radiance_arnq.py:267-380 | the installer changes nothing outside its guards and otherwise leaves each layer with exactly the flags of the specification, which FlagsFromFacts states in the layers' properties |
| StreamRewrite.InstallOne | radiance_arnq.py:319-371 | one layer's iteration: its own flags, its reductions, and the next layer's input flag |
| StreamRewrite.FlagsFromFacts | radiance_arnq.py:319-371 | from a layer's own properties and its successor's: exactly when its attention sum is left to the epilogue, its down projection hands its partial sum over and the successor takes it, and its activation and gated norm are fused |
| StreamRewrite.NormOnlySimulates | radiance_arnq.py:300-312 | fusing only the gated norms, under the installer's conditions, changes no layer's result |
| StreamRewrite.LayerSimulates | radiance_arnq.py:214-248 | if the all-reduce of the streamed hidden state is the stock one before a layer, it is so after it, for all flags that fuse a norm or an activation only where the layer allows it |
| StreamRewrite.StreamEqualsStock | radiance_arnq.py:214-248 | on a safe layer list the streamed decoder computes the stock hidden states and residual on every rank, for any tensors, weights and mix of eligible layers |
| StreamRewrite.UnsafeDiffers | radiance_arnq.py:320-349 | on any layer list that is not safe some weights and inputs make the two decoders differ: a mlp scale the streamed layer drops, or a partial sum nobody reduces |
| StreamRewrite.PreservedIffSafe | radiance_arnq.py:317-377 | without sequence-parallel layers, meaning is preserved for all weights and inputs exactly on safe layer lists |
| TopKTopP.ApplyTopKTopPComposite | radiance_topk.py:45-59 | the in-place masking and scattering leave the row equal to the composite rule, to which the rows below apply |
| TopKTopP.SoftmaxIsShare | radiance_topk.py:54 | the probabilities of a row are its exponentials' shares of their sum, none for minus infinity, and together one |
| TopKTopP.KIsClamped | radiance_topk.py:48 | a k below one acts as one, a k past the window as the whole window |
| TopKTopP.TopKValuesAgree | radiance_topk.py:16-22 | any two lists of largest entries hold equal values position by position, however ties are ordered |
| TopKTopP.TopKIsExact | radiance_topk.py:20-22 | without top-p the composite equals the sorted reference, ties past the window included |
| TopKTopP.CompositeAt | radiance_topk.py:51-58 | a candidate survives exactly when the mass strictly above its position is below p |
| TopKTopP.ReferenceAt | radiance_topk.py:23-26 | the ascending-cumulative rule keeps exactly the same descending positions |
| TopKTopP.CompositeIsExact | radiance_topk.py:12-35 | with the k-th value's ties inside the window and no tie at the cut, the composite mask is the reference's |
| TopKTopP.ExactIff | radiance_topk.py:29-35 | for every row and window, the composite equals the reference under every legal sort exactly when the cut splits no tie and, if the ties run past the window, top-p cuts nothing |
| TopKTopP.TiesPastWindowDiffer | radiance_topk.py:29-31 | a concrete row whose ties run past the window: four equal logits, a window of two, and the two rules differ |
| DraftMatch.ScanLane | radiance_draft_gpu.py:31-36 | a lane's counter is the longest suffix match ending at its position, up to 24 |
| DraftMatch.MatchScan | radiance_draft_gpu.py:26-37 | whatever order the programs run in, each key ends as the largest lane key of its row |
| DraftMatch.MatchGather | radiance_draft_gpu.py:41-46 | each output row holds the decoded continuation and -1 elsewhere, and its count |
| DraftMatch.MatchGpu | radiance_draft_gpu.py:49-59 | scan in any order, then gather, for every row |
| DraftMatch.OrDisjoint | radiance_draft_gpu.py:37 | shift and bitwise or of a length and a position is their sum when the position fits |
| DraftMatch.KeyOrder | radiance_draft_gpu.py:37 | packed keys order by length, then by position |
| DraftMatch.KeyDecodes | radiance_draft_gpu.py:23-43 | the winning key is zero exactly when nothing matches, and otherwise decodes to the longest match, latest on ties |
| DraftMatch.ExactWithinPositions | radiance_draft_gpu.py:49-59 | up to 2^20 + 1 tokens the result is, token by token, what follows the end of the longest suffix match of 3 to 24 tokens, the latest on ties, nspec tokens or as many as the context holds; and nothing when there is no match |
| DraftMatch.LimitIsSharp | radiance_draft_gpu.py:23-43 | at any draft width, a context length is handled correctly for all contents exactly up to that limit |
| DraftCapture.CaptureSplit | radiance_draft_gpu.py:67-80 | a split ends with its maximum and its sum relative to it, NaN exactly when its first block is non-empty and all minus infinity |
| DraftCapture.BlockStep | radiance_draft_gpu.py:71-78 | one block's rescaling keeps the running sum |
| DraftCapture.CapS2Local | radiance_draft_gpu.py:104-113 | combining the splits, empty ones included, gives the shard's maximum and sum |
| DraftCapture.CaptureGpu | radiance_draft_gpu.py:84-100 | the gathered row's confidence is the inverse of that sum |
| DraftCapture.RankStat | radiance_draft.py:94-123 | a rank blanks its padding and reports its maximum, its sum and the id of a maximal entry |
| DraftCapture.CombineRanks | radiance_draft.py:119-129 | the combined id and confidence from the gathered triples, a single rank's directly |
| DraftCapture.ConfidenceIsExactIff | radiance_draft.py:94-129 | the sharded confidence is 1 / sum exp(l - max) of the gathered row exactly when every split of every shard is sound, and NaN otherwise |
| DraftCapture.ConfidenceIsProbability | radiance_draft.py:94-129 | on sound splits the confidence is the softmax probability of the largest gathered logit: its exponential over the sum of all |
| DraftCapture.IdAttainsMaximum | radiance_draft.py:117-128 | the returned id holds the gathered row's maximum |
| DraftCapture.ShardedEqualsGathered | radiance_draft_gpu.py:116-120 | the two draft paths give one number |
| DraftCapture.SafeIffPaddingFits | radiance_draft.py:106-108 | with finite real logits a shard is safe exactly when its last chunk does not begin in the padding |
| DraftController.BatchCeil | radiance_draft.py:69-79 | the ceiling is that of the last schedule entry the batch reaches, the first entry's below all, at least 1 |
| DraftController.NextTracks | radiance_draft.py:182-202 | one vectorised slot moves a running request as the scalar rule does and freezes a stopped one |
| DraftController.CapNeverCopies | radiance_draft.py:194-202 | at the cap every running request has disagreed, so its action is left as without the cap |
| DraftController.Drafter.constructor | radiance_draft.py:216-225 | a proposal starts with the cap set only when it is below the width, an empty gate and no stop |
| DraftController.Drafter.GreedySample | radiance_draft.py:159-205 | after each slot the gate tracks every request, and stop is raised exactly when all have settled |
| DraftController.Drafter.RunForwards | patch_mtp_loopbreak.py:26-31 | the loop breaks at the first slot at which all have settled, no earlier and no later |
| DraftController.Drafter.Postprocess | radiance_draft.py:309-342 | each row is trimmed to its stop slot, given its tail, never left empty, and cut at the width |
| DraftController.ProposeDraft | radiance_draft.py:159-342 | each request gets exactly its own scalar reference draft (StopSlot, DraftIs), whatever else is in the batch; forwards are the largest any request needs; the cap holds exactly when the matcher ran |
| DraftController.StopSlot | radiance_draft.py:182-202 | before the stop slot no token agrees with the n-gram and the product of confidences is at least tau; the stop slot is the first agreement, then copied from, or the first product below tau, or the limit |
| DraftController.DraftIs | radiance_draft.py:309-342 | a copied draft is the drafter's tokens before the stop slot and the n-gram's from it on, cut at nspec; any other is the drafter's tokens before it, or its first token |
| DraftController.DraftWidth | radiance_draft.py:333-341 | every draft has 1 to nspec tokens |
| DraftController.DraftStartsWithDrafter | radiance_draft.py:182-191 | a draft repeats the drafter's tokens up to its stop, and a copied tail begins with the drafter's own token |
| ContextMirror.Mirror.Prepare | radiance_draft.py:260-301 | one call copies what each live request gained on its row, prunes the records, and says whether the matcher runs |
| ContextMirror.PreparedHolds | radiance_draft.py:282-298 | a call carries an exact mirror to the next batch when tokens seen in both are stable |
| ContextMirror.MirrorIsExact | radiance_draft.py:260-298 | over any run with joins, leaves and row changes the mirror equals every live row after each call, given stability across the last non-empty call |
| ContextMirror.ExactIffNoGap | radiance_draft.py:270-298 | with tokens stable while a request is continuously live, a pattern of empty calls keeps every mirror exact precisely when none falls between two non-empty calls |
| DraftHead.ByteDecodes | radiance_drafthead.py:148-154 | byte j, plane q read as bf16 is 1 + v/4 for the code of k = q K/4 + j |
| DraftHead.ColumnLogit | radiance_drafthead.py:142-161 | the kernel's loops accumulate the specified tiles from the packed bytes and premultiplied scales |
| DraftHead.BiasCancels | radiance_drafthead.py:334-341 | the premultiplied scales cancel the bias: a tile contributes sum x s (code - zero) |
| DraftHead.KernelIsExact | radiance_drafthead.py:127-164 | for K a multiple of four groups the accumulator is the dequantised product, each k read once |
| DraftHead.ExactIffFourGroups | radiance_drafthead.py:294-298 | for widths the guard admits, exactness for every input holds precisely at multiples of four groups |
| DraftHead.QuantizeHead | radiance_drafthead.py:294-341 | unsuitable widths are refused; otherwise each row's minima, steps, zero points, codes, bytes and premultiplied scales are computed and stored, chunk by chunk |
| DraftHead.WithinHalfStep | radiance_drafthead.py:321-326 | all weights of a group are dequantised within half a step exactly when its range lies within 3.5 steps of zero |
| DraftHead.StoredWithinSixth | radiance_drafthead.py:321-326 | three stored steps make a group's range, or 3e-8 if that is wider; all its weights read back within a sixth of that exactly when none lies further than seven sixths of it from zero |
| DraftHead.Emit | radiance_drafthead.py:109-125 | a block emits distinct in-range lanes with their values, and a lane left out is matched or beaten by all emitted ones |
| DraftRerank.CoarseNear | radiance_drafthead.py:127-164 | with every group in range a coarse logit is within half of each group's step, times the group's activation magnitude, of the exact one |
| DraftRerank.RerankExact | radiance_drafthead.py:167-178 | the vector of partial sums over blocks of K adds up to the exact dot product |
| DraftRerank.CoarseCandidates | radiance_drafthead.py:203-208 | over all blocks the candidates are distinct tokens with their coarse logits, and a token left out is matched or beaten by all of its block's |
| DraftRerank.CoarseTopIsRescored | radiance_drafthead.py:212 | whatever the ties, a token with fewer rivals than both KCAND and RERANK is rescored |
| DraftRerank.Rescore | radiance_drafthead.py:213-224 | in place: rescored tokens hold their exact logits, the others their coarse ones or minus infinity |
| DraftRerank.WinnerIff | radiance_drafthead.py:215-224 | blanked, the exact winner wins exactly when it was rescored; otherwise exactly when no coarse logit left reaches it or, not rescored, its own coarse logit beats everything |
| DraftRerank.UnrescoredCanWin | radiance_drafthead.py:215-224 | a concrete row whose exact winner wins without having been rescored |
| DraftRerank.MarginSuffices | radiance_drafthead.py:33-41 | with coarse logits within delta, the winner is rescored and wins if no more than min(KCAND, RERANK) tokens come within 2 delta of it |
| DraftRerank.HeadFindsWinner | radiance_drafthead.py:33-41 | the same for the packed head itself, with delta the largest slack of any row |
| WeightLayout.UnpermutePermute | radiance_mxfp4.py:111-141 | unpermute_w undoes permute_w |
| WeightLayout.PermuteUnpermute | radiance_mxfp4.py:111-141 | permute_w undoes unpermute_w |
| WeightLayout.LaneHolds | radiance_mxfp4.py:114-116 | lane l of a tile holds four bytes of row 16 nt + l mod 16 from k-step ks, half l / 16 |
| WeightLayout.PermuteConcat | radiance_gdnmerge.py:187-189 | permuting commutes with concatenation of whole 16-row tiles |
| WeightLayout.ColumnMaxIs | radiance_mxfp4.py:574-580 | a row reference is attained by, and bounds, that row's block exponents |
| WeightLayout.RowRefBeside | radiance_gdnmerge.py:142-145 | row references of concatenated scales are the concatenated references |
| WeightLayout.MergedValid | radiance_gdnmerge.py:20-25 | merged tensors are what a natively merged layer would hold |
| WeightLayout.MergedSlices | radiance_gdnmerge.py:47-55 | slicing the merged projection gives the two separate ones, in either storage order, for any kernel that treats weight rows independently |
| WeightLayout.MergingKeepsOutputs | radiance_gdnmerge.py:122-137 | under the merge guards the two slices are what each projection computes on its own, whatever a kernel that serves the unserved ones would compute |
| WeightLayout.GdnModule.MergeOne | radiance_gdnmerge.py:122-170 | merging happens exactly under the guards, installs the merged tensors and forward, sets the marker under the profile that needs it, and releases the original weights and scales but not the row references; otherwise nothing changes |
| WeightLayout.GdnModule.Project | radiance_gdnmerge.py:51-55 | the merged forward's two views are the two projections |
| NibblePacking.PlaceOfSource | radiance_w4.py:62-65 | from word and nibble to (row, k) and back |
| NibblePacking.SourceOfPlace | radiance_w4.py:248-252 | from (row, k) to word and nibble and back |
| NibblePacking.EachCodeOnce | radiance_w4.py:248-256 | every nibble of every word holds exactly one code |
| NibblePacking.NibbleHolds | radiance_w4.py:248-256 | the layout in plain numbers: which row and k every nibble of every word holds |
| NibblePacking.UnpackPack | radiance_w4.py:237-256 | every signed code -8..7 is read back exactly |
| NibblePacking.PackWords | radiance_w4.py:253-256 | the nibble-by-nibble accumulation builds those words |
| NibblePacking.ScaleDecodes | radiance_w4.py:258-261 | each group's scale is in the low half of its word, the bias constant in the high half |
| NibblePacking.CodeIsNearest | radiance_w4.py:183-189 | at a positive scale no code of -8..7 is nearer to the weight than its own |
| NibblePacking.EndCode | radiance_w4.py:183-187 | a scale too small for its weight, zero included, gives the end code on the weight's side |
| NibblePacking.FirstScale | radiance_w4.py:185-217 | the first scale spans the group's largest magnitude in seven steps, with the floor at 1e-12 |
| NibblePacking.ClippedScale | radiance_w4.py:185-219 | the i-th clip takes i / (2 steps) off that magnitude, never more than half of it |
| NibblePacking.WordsConcat | radiance_w4.py:265-274 | packing batches of whole tiles and concatenating packs the whole |
| NibblePacking.Prepare | radiance_w4.py:265-274 | the chunked loop yields the packing of the whole matrix |
| NibblePacking.BestIsLeast | radiance_w4.py:216-224 | the search keeps a grid it tried with the least error, the first such; NaN errors come all together |
| NibblePacking.BestOverCodes | radiance_w4.py:183-224 | no choice of codes at any tried scale that stays positive in f16 has a smaller squared error than the kept grid |
| NibblePacking.KeptErrorIsNumberIff | radiance_w4.py:183-189 | the kept error is NaN exactly when the first scale rounds to an f16 zero in a group with a zero weight, and then the stored scale is zero |
| NibblePacking.SearchGroup | radiance_w4.py:216-224 | the clip loop for one (row, group) computes it |
| NibblePacking.Quantize | radiance_w4.py:192-227 | the row-chunked loop quantises every row group by group |
| NibblePacking.PreparedDecodes | radiance_w4.py:237-274 | what the kernel reads from a prepared weight is the least-error code |
| NibblePacking.PreparedIsNearest | radiance_w4.py:237-274 | the code the kernel reads is, at the kept scale stored beside it, the nearest to the weight |
| GroupSize.CanonicalEquivalent | patch_kv_group_size.py:99-102 | every size has a canonical size no larger with identical splits |
| GroupSize.PickGroupSize | patch_kv_group_size.py:71-121 | the switches, the forced value and the fallback to upstream, which happens exactly when there are more buckets than groups allowed; otherwise the first best admitted size |
| GroupSize.Search | patch_kv_group_size.py:97-111 | the search loop, with its tie-break by group count and then by size |
| GroupSize.PickIsOptimal | patch_kv_group_size.py:28-30 | the pick has the least size times blocks of all sizes meeting the cap, canonical or not, however large |
| GroupSize.PickMaximisesCapacity | patch_kv_group_size.py:28-30 | the pick maximises floor(floor(pages / g) / blocks) for any number of pages |
| GroupSize.NoPlanNeedsLess | patch_kv_group_size.py:97-106 | any way of splitting the buckets into groups of at most g layers has at least the counted groups and reserves at least the counted blocks |
| GroupSize.PickBeatsPlans | patch_kv_group_size.py:28-30 | some split into groups of the picked size keeps the cap and takes no more pages than any split, of any size, that keeps it |
| GrammarTermination.Grammar.constructor | patch_xgrammar_spec_termination.py:112-121 | a fresh grammar is consistent exactly when the empty history is not finished |
| GrammarTermination.Grammar.AcceptTokens | patch_xgrammar_spec_termination.py:65-87 | accept advances by exactly what the batch consumes, keeps the cached flag the matcher's, never feeds a terminated matcher, and reports whether the batch was good |
| GrammarTermination.Grammar.ValidateTokens | patch_xgrammar_spec_termination.py:89-109 | validation returns that same prefix and leaves the matcher as it was |
| GrammarTermination.Grammar.Reset | patch_xgrammar_spec_termination.py:117-121 | reset restores a fresh grammar |
| GrammarTermination.ConsumedIsLongest | patch_xgrammar_spec_termination.py:65-109 | what is consumed is the longest legal extension that never passes a finished history |
| GrammarTermination.BatchesCompose | patch_xgrammar_spec_termination.py:65-87 | accepting a + b consumes a, then b only if a was good, and is good when both are |
| GrammarTermination.AcceptInTwo | patch_xgrammar_spec_termination.py:65-87 | accepting a then b leaves the grammar as accepting a + b at once |
| IntervalAccounting.SweepStep | tools/analyze_release_timings.py:104-107 | in start order a span adds exactly its ticks past the frontier |
| IntervalAccounting.SweepWindow | tools/analyze_release_timings.py:104-108 | the sweep measures the union of the intervals |
| IntervalAccounting.Union | tools/analyze_cache_job_telemetry.py:104-111 | union_ms measures the union, empty and reversed spans ignored |
| IntervalAccounting.Unattributed | tools/analyze_cache_job_telemetry.py:796-805 | unattributed time is elapsed minus covered, never negative without its clamp |
| IntervalAccounting.ClippedTicks | tools/analyze_cache_job_telemetry.py:796-799 | clipping keeps exactly the covered ticks of the window |
| IntervalAccounting.MeasureRound | tools/analyze_release_timings.py:86-122 | an error exactly when work crosses the boundary, needs stage accounting or is not on one device; otherwise elapsed = kernel sum - overlap + overhead with both clamps inactive |
| IntervalAccounting.RoundErrors | tools/analyze_release_timings.py:86-103 | from the records' own fields: which rounds are an error |
| IntervalAccounting.RoundTicks | tools/analyze_release_timings.py:86-108 | in a valid round nothing is clipped, and a tick counts as busy exactly when some record runs at it |
| IntervalAccounting.MeasureRoundWindows | tools/analyze_release_timings.py:56-122 | a row for each selected round, or an error exactly for invalid windows, events or rounds |
| IntervalAccounting.DurationConserved | tools/analyze_release_timings.py:184-188 | over consecutive windows an event's clipped pieces sum to its duration |
| IntervalAccounting.PiecesSum | tools/analyze_release_timings.py:184-188 | and, for any event, to its piece of the whole span |
| IntervalAccounting.MeasureWindow | tools/analyze_release_timings.py:183-219 | a window's row accounts for its clipped pieces; each stage, (stage, kernel) and (layer, stage) entry grows by exactly its own |
| IntervalAccounting.StageTicks | tools/analyze_release_timings.py:184-196 | a stage's entry counts the (record, tick) pairs of its kernels in the window, and the bookkeeping stage's those of all copies and fills |
| IntervalAccounting.KernelTicks | tools/analyze_release_timings.py:199-201 | the same for a kernel name in a stage |
| IntervalAccounting.LayerTicks | tools/analyze_release_timings.py:196-198 | the same for a layer in a stage |
| IntervalAccounting.RowTicks | tools/analyze_release_timings.py:202-212 | the row's kernel time counts the pairs of all records, its clipped activity those of records a boundary cuts |
| IntervalAccounting.BusyTicks | tools/analyze_release_timings.py:202-211 | a worker window's tick counts as busy exactly when some record runs at it |
| IntervalAccounting.RecordCounts | tools/analyze_release_timings.py:199-205 | the record counts are the numbers of records that run at some tick of the window |
| IntervalAccounting.WindowErrors | tools/analyze_release_timings.py:189-207 | a window is an error exactly when a kernel running in it has no stage, nothing runs in it, or two running records are on different devices |
| WorkerWindows.MatchTarget | tools/analyze_release_timings.py:175-182 | bisection finds the marker whose interval a target belongs to, and reports an error exactly when no marker contains it with the next round following |
| WorkerWindows.MatchIs | tools/analyze_release_timings.py:175-182 | from the markers' own fields: which targets have one |
| WorkerWindows.InOneInterval | tools/analyze_release_timings.py:176-182 | a retained target lies in the interval of exactly one marker |
| WorkerWindows.WindowsApart | tools/analyze_release_timings.py:179-180 | the windows of two retained targets are the same or disjoint |
| WorkerWindows.SelectedSplits | tools/analyze_release_timings.py:169-174 | targets 0 and 1 are omitted and all others retained, each as often as it was selected |
| WorkerWindows.MeasureWorkerWindows | tools/analyze_release_timings.py:147-233 | succeeds exactly when some target is retained and every retained one is matched, classified and on one device; rows carry their markers' rounds, the first two cycles are listed as omitted, every kernel and layer entry is its clipped time over the windows, and the closing consistency check never fails |

## Left out

- Timestamps are integer ticks, so that a union has a cardinality; the division to milliseconds and floating-point summation are not modelled.
- Rounding of f32, bf16, fp16 and fp8 arithmetic is not modelled anywhere; NaN is modelled only in the draft confidence and in the clip search's error, where the code produces it.
- Drafted ids are passed between ranks as 32-bit floats; ids are integers here.
- PinProtocol assumes all workers share valid settings and a row stride that divides the size; otherwise a worker raises before its first barrier.
- A collective over a group of one is skipped by the source and let through with the worker's own value in the model; the rendezvous count is the same.
- RegionLifecycle.EndedLeavesNothing: unlink() of a linked name is taken to succeed; a failing unlink, and a process killed before its unlink, are not modelled.
- StreamRewrite.StreamEqualsStock: tensors, norms, quantisation and weights are abstract. A layer_scale layer multiplies its attention and mlp outputs by one plus a learned scale; a row-parallel projection adds its bias on rank 0 before the reduction. That layer code is the serving engine's and not part of the repository.
- StreamRewrite.PreservedIffSafe: layer lists with a live sequence-parallel branch are left out, because that branch's code is not in the repository; the installer's flags for such layers are modelled.
- The installer's closing pass over missing attributes is proved to find nothing and is not written out.
- TopKTopP and the draft capture model one row; rows are independent in the source. The stock route for disabled top-k is not modelled.
- DraftController: the drafter's tokens and confidences per slot are inputs, and the paths that bypass the controller (local argmax reduction, heterogeneous vocabularies, exceptions) are not modelled.
- ContextMirror: request ids within one batch are distinct, as the input batch keeps them.
- DraftHead.ColumnLogit: one activation row and one weight row; the tile's lanes are independent. Storing the logits as bf16 and the embedding bias are not modelled.
- WeightLayout: the GEMM is any function of an activation row and one weight row; layer eligibility, which fixes K as a multiple of 16, is taken as given.
- NibblePacking.SearchGroup: one (row, group) at a time; the source searches all of them elementwise at once. Rounding a scale to f16 is any monotone function that is not negative on positive scales; overflow to infinity is not modelled, and NaN is taken to convert to the integer 0.
- GroupSize.PickGroupSize: bucket sizes and block costs are inputs, absent when the source falls back on an exception.
- GrammarTermination: the matcher is one with exact rollback and non-mutating rejection; the rollback entry point of the wrapper is not part of this model.
- WorkerWindows.MeasureWorkerWindows: the sorted marker tuples, the target scopes' starts and the events' stages and layers are inputs; times are summed, not divided by the number of rows.
- The HIP and assembly kernels, the all-reduce flag handshake, the paged-attention planners, environment parsing, logging, manifests and the text patching itself are not modelled.
