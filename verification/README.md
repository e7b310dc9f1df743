# Camelid verification

A Dafny model of the algorithms at the centre of Camelid, a local inference engine, with proofs of what
each fast form is supposed to equal. Model mathematics (embeddings, layers, attention, output heads,
sampling) is represented by function-valued fields, so every theorem holds for every network. Floating
point is represented by `real` or by uninterpreted functions; the answers of
devices and transports are parameters or nondeterministic choices, so a theorem covers every way they can fail.

`dafny verify dfyconfig.toml` checks the whole project.

## Modules

| module | subject |
|---|---|
| `Prelude` | options, results, small sequence and product facts, and the sort used by several components |
| `TokenTree`, `TargetCache`, `SpeculativeRun` | draft trees, the target's KV cache under ancestor-masked batches and in-place compaction, and speculative decoding as whole runs |
| `WidthSchedule`, `MtpGeneration`, `TraceAudit` | the verifier-width state machine, the multi-token-prediction loop (plans, rounds, stops, budgets), the validator of its traces, and what passing that validator establishes |
| `DraftLattice`, `Frontier`, `DraftCursor` | the candidate lattice, its best-first scheduler and rerank, and the branch cursor over the draft head's ephemeral cache |
| `Catchup`, `ForestCommit` | target-authoritative updates of the draft head, eager and deferred, and a whole draft-forest round: explore, rerank, verify with captures, accept, commit |
| `PrefixCache`, `EntropyBound`, `BlockDiffusion` | the prefix-KV step cache, the Entropy-Bound acceptance rule, the denoise loop, canvas trimming and the block-autoregressive loop |
| `KvRoom`, `LayerStack`, `Pipeline`, `PipelineProgress`, `Wire` | how far a session's cache may grow, a layer-range session and the single-node reference, the two-node protocol, which of its runs can complete, and the byte formats between nodes |
| `I2S`, `Reduction`, `HeadWeightCache` | the ternary layout and its table kernels, the parallel reductions, and the weak-reference weight cache |
| `Checkpoint` | payload tiling and the draft-vocabulary cross-check |

## Where the code falls short of a tempting claim

Each is stated for all inputs as an equivalence, with a concrete failing input.

- A generation that passes the tree-tail validator with truthful predictions need not be what the target
  would have written. `TraceAudit.GreedyIffAnchored` gives the exact condition: the first token (the first
  round's anchor, or the only token when there is no round) is the prefill prediction and every later
  round's anchor is the previous round's bonus. `TraceAudit.FaithfulIff` adds what is missing about stops: no
  emitted token is a stop, and the terminal stop is one, predicted by the target. The validator compares a
  round's stop with that round's own bonus and leaves the rest out. `TraceAudit.FirstAnchorUnchecked`,
  `BonusLinkUnchecked`, `BareTokenUnchecked`, `EmittedStopUnchecked` and `BareStopUnchecked` each pass the whole
  validator and break one of them. The generation loop itself meets all of them (`MtpGeneration.Generate`).
- The step cache's guard compares prompt lengths only. A cache sealed for another prompt of the same length
  is trusted, and `PrefixCache.CacheServesIff` shows that it serves every network and canvas if and only if
  the prompts are equal; `PrefixCache.WrongPromptServed` names the network that tells them apart. The denoise
  loop is sound because its cache never outlives one call (`BlockDiffusion.Denoise`).
- A tensor survives the wire if and only if its rank, dimensions and length are 32-bit
  (`Wire.TensorSurvivesIff`). Larger dimensions raise no error: `Wire.DimensionsCutSilently` gives what comes
  back, and `Wire.LostDimension` an example.
- A drafter configuration passes validation and still can never draft exactly when it allows a single lattice
  node (`Frontier.RootExpansionRefusedIff`; `Frontier.SingleNodeRefused` is the smallest).
- Splitting a model over two nodes loses runs that one node completes. A pipelined run can complete, from any
  reachable state, if and only if the prompt's rows fit one packet of 2^22 floats, lengths and positions fit 32
  bits, ids have embeddings and both nodes have room (`PipelineProgress.CanFinishIff`);
  `PipelineProgress.LongPromptNeverFinishes` is a prompt of 1366 tokens at width 3072 that a single session
  completes and no attempt of the pipeline ever does.
- A multi-token-prediction round planned within the remaining outputs fits the cache unless it is a padded
  sixteen-row tail with fewer than sixteen positions left (`WidthSchedule.PlannedFitsIff`). Six spare positions
  are exactly enough (`WidthSchedule.SpareRowsIff`); `WidthSchedule.OneShotTailOverruns` is a run without them.

Two smaller observations, modelled as the code has them: a negative ubatch limit wraps to a very large one
(`BlockDiffusion.UbatchLimit`), and on an empty canvas the stability counter runs one ahead, which no step can
observe because none is ever confident.

## Model

| member | source | states |
|---|---|---|
| TokenTree.PathIsChain | src/inference/spec_tree.rs:29-43 | the parent walk from any row reaches the root, strictly descending, with one row per depth |
| TokenTree.ChainIsPath | src/inference/spec_tree.rs:82-92 | a root-to-leaf chain of parent edges is the root path of its last row, so root paths are unique |
| TokenTree.RootPath | src/inference/spec_tree.rs:82-92 | the reversed parent walk returns the root-first path of the node |
| TokenTree.FindChild | src/inference/spec_tree.rs:159-212 | the scan finds the first later row that is a child with the wanted token, or there is none anywhere |
| TokenTree.AcceptLongestPath | src/inference/spec_tree.rs:159-212 | the walk ends on a maximal path of target-agreed edges and emits the target's prediction at every row of it |
| TokenTree.AcceptedUnique | src/inference/spec_tree.rs:159-212 | tree and predictions determine the accepted path and the emitted tokens |
| TokenTree.TreeAcceptEqualsLinear | src/inference/spec_tree_lossless.rs:131-166 | on a single-branch tree acceptance is exactly the longest-matching-prefix rule, in both directions |
| TargetCache.GreedyComparable | src/inference/spec_tree_lossless.rs:50-128 | greedy continuations of one context are prefixes of one another |
| TargetCache.AncestorWords | src/inference/spec_tree.rs:114-133 | the bits set by the parent walk are exactly the node's root path |
| TargetCache.AncestorBitset | src/inference/spec_tree.rs:114-133 | the flat buffer holds one stride of words per node, and each node's words admit exactly its own root path |
| TargetCache.VisibleIsPath | src/inference/spec_tree.rs:114-133 | reading the admitted slots in slot order is reading the branch root-first |
| TargetCache.PathRows | src/inference/metal_resident.rs:1892-2052 | the cache rows of a branch are the committed rows followed by that branch's node rows |
| TargetCache.RowVerified | src/inference/metal_resident.rs:1892-2052 | a row computed from the slots its mask admits equals the row and the prediction of a linear decode of its branch |
| TargetCache.Session.VerifyTree | src/inference/metal_resident.rs:1892-2052 | one masked batch predicts and captures, at every node, what plain decoding of that node's branch would, and leaves committed rows alone |
| TargetCache.Session.CompactPath | src/inference/metal_resident.rs:2036-2052 | the in-place gather moves exactly the accepted rows, none overwritten before it is read |
| TargetCache.Session.CommitPath | src/inference/metal_resident.rs:1892-2052 | after committing an accepted path the cache is the one a linear decode of it would have left |
| SpeculativeRun.AcceptedIsGreedy | src/inference/spec_tree.rs:159-212 | with truthful predictions the emitted tokens are the target's own greedy continuation, whatever was drafted |
| SpeculativeRun.VerifyTreeRound | src/inference/metal_resident.rs:1892-2052 | runs if and only if the session is ready, the tree is not empty, within the node cap and fits, and the device takes the batch; a decline commits nothing, a round emits greedy tokens and commits the anchor and all but the last of them |
| SpeculativeRun.DecodeWithTrees | src/inference/spec_tree_lossless.rs:50-128 | over whole runs, for any drafted trees, the output is the target's greedy stream, cut only by the count or a full cache |
| SpeculativeRun.AcceptTree | src/gemma4_mtp12_tree_policy.rs:27-104 | refuses exactly an invalid tree, a stop anchor, the wrong number of rows or an id outside the vocabulary; otherwise commits a maximal agreed path before any stop token and names the bonus or the stop that ended it |
| SpeculativeRun.AcceptLinear | src/gemma4_runtime.rs:7813-7853 | the linear rule makes the same decision on the padded single-branch batch |
| SpeculativeRun.DecisionUnique | src/gemma4_mtp12_tree_policy.rs:27-104 | with distinct sibling tokens there is only one such decision |
| SpeculativeRun.ChainTreeSameDecision | src/gemma4_runtime.rs:10087-10136 | on a tree proposal that is a plain chain the tree rule and the linear rule reach one decision, so mixing the two is harmless |
| WidthSchedule.Start | src/gemma4_runtime.rs:9896-9920 | a generation gets a valid scheduler iff the width is admitted and the two wide selectors are not both on; each selector is inert at a width it was not made for, the adaptive one starts in an eight-row warm-up and the one-shot one in an eight-row bootstrap |
| WidthSchedule.TailWidth | src/gemma4_runtime.rs:7781-7790 | the widest admitted width that fits both the configuration and the remainder, and none iff either is below two |
| WidthSchedule.PlanRound | src/gemma4_runtime.rs:7260-7302 | a plan exists iff at least two outputs remain; it is padded exactly in the two padded-tail ranges, where it reserves the bonus, and is otherwise the widest admitted width that fits |
| WidthSchedule.PlannedFitsIff | src/gemma4_runtime.rs:7260-7302 | while the remaining outputs fit the cache, the planned rows do too, unless the sixteen-row tail is padded with fewer than sixteen positions left |
| WidthSchedule.SpareRowsIff | src/gemma4_runtime.rs:7260-7302 | a one-shot schedule in its wide state never overruns if and only if six positions are spare |
| WidthSchedule.OneShotTailOverruns | src/gemma4_runtime.rs:7260-7354 | 19 outputs in 19 positions: after a full first round, eleven positions are planned with sixteen rows |
| WidthSchedule.FinishRound | src/gemma4_runtime.rs:7304-7354 | a round of this plan is refused iff it accepts a whole plan or more; a stop or a budget tail holds the schedule; otherwise warm-up goes wide exactly after a full round, the bootstrap always, and the wide state is kept exactly after a full round or under the one-shot policy |
| WidthSchedule.AdaptiveWidths | src/gemma4_runtime.rs:7260-7354 | over whole runs of an adaptive schedule, a round is planned with sixteen rows exactly when a full eight-row round earned them and no round that counts has been partial since |
| WidthSchedule.OneShotWidths | src/gemma4_runtime.rs:7260-7354 | over whole runs of a one-shot schedule, a round is planned with sixteen rows exactly after some round that counts |
| WidthSchedule.FixedWidths | src/gemma4_runtime.rs:7260-7354 | every other schedule stays at its configured width |
| MtpGeneration.PlannedWidths | src/gemma4_runtime.rs:9970-10279 | the widths a generation's trace records are those two laws' |
| MtpGeneration.RoundRows | src/gemma4_runtime.rs:9970-10279 | every round of a generation has 2, 4, 8 or 16 rows within its scheduled width and the outputs left; it is a tree exactly when trees are on and all eight of eight rows are live, and is padded only as the tail that keeps its width and leaves one output |
| MtpGeneration.Materialize | src/gemma4_runtime.rs:7792-7811 | a batch is built exactly for a proposal of the planned shape: a valid tree rooted at the anchor for a full eight-row plan, or the planned number of drafts, anchor first and anchor padding last |
| MtpGeneration.RunRound | src/gemma4_runtime.rs:9970-10279 | a round fails with nothing committed, or records truthful predictions and a valid decision and commits exactly the emitted tokens; for a target within its vocabulary it runs if and only if the proposal has the planned shape, its rows fit and the device takes them |
| MtpGeneration.RoundIsGreedy | src/gemma4_runtime.rs:9970-10279 | a round anchored at the target's own token emits greedy tokens, none a stop, and its bonus is the next greedy token |
| TraceAudit.LosslessIffAnchorsChain | examples/gemma4_mtp12_validate_tree_tail.rs:114-260 | the tokens of a truthful trace are the greedy stream if and only if the first anchor is the prefill prediction and every later one the previous bonus |
| TraceAudit.GreedyIffAnchored | examples/gemma4_mtp12_validate_tree_tail.rs:38-285 | the tokens of a whole consistent, truthful generation, free bonus and empty trace included, are the greedy stream if and only if it is anchored |
| TraceAudit.FaithfulIff | examples/gemma4_mtp12_validate_tree_tail.rs:38-285 | such a generation is the target's output cut at the budget or at its own stop if and only if it is anchored and stops honestly |
| TraceAudit.ChecksIff | examples/gemma4_mtp12_validate_tree_tail.rs:38-285 | the modelled verdict is the conjunction of the validator's own assertions, written out round by round, for the end of the generation and for its padded tail |
| TraceAudit.FirstAnchorUnchecked | examples/gemma4_mtp12_validate_tree_tail.rs:114-260 | a generation passing every check with truthful predictions may start from a token the target did not predict |
| TraceAudit.BonusLinkUnchecked | examples/gemma4_mtp12_validate_tree_tail.rs:114-260 | two rounds pass every check and break nothing but the link from a bonus to the next anchor |
| TraceAudit.BareTokenUnchecked | examples/gemma4_mtp12_validate_tree_tail.rs:238-258 | a generation without rounds may hold any single token |
| TraceAudit.EmittedStopUnchecked | examples/gemma4_mtp12_validate_tree_tail.rs:238-258 | an anchored generation without rounds may emit a stop token |
| TraceAudit.BareStopUnchecked | examples/gemma4_mtp12_validate_tree_tail.rs:238-258 | a generation without rounds may claim a stop the target never predicted |
| MtpGeneration.Generate | src/gemma4_runtime.rs:9828-10311 | for any assistant and any schedule a completed run is the greedy output cut at the budget or the target's own stop, the cache holds prompt plus traced tokens, the trace is consistent with that cursor and each round has the rows and the tree that the schedule its predecessors left plans for the outputs and positions remaining; under the padded eight-row schedule it passes the whole validator; it completes whenever neither device nor assistant fails and the cache has room, six spare positions included for a one-shot schedule |
| MtpGeneration.ChunkWidth | src/gemma4_runtime.rs:6784-6792 | the next chunk of a prompt is the widest of 16, 8, 4, 2 and 1 that is left |
| MtpGeneration.Prefill | src/gemma4_runtime.rs:9248-9310 | succeeds if and only if the prompt is not empty, fits and the device takes each of its chunks, with the prompt's rows committed and its next token returned; otherwise a proper prefix of the prompt is committed |
| MtpGeneration.PairParity | examples/gemma4_mtp12_validate_tree_tail.rs:361-405 | any two completed runs agree on tokens and stop; cursors differ by at most the one unforwarded bonus, and only at the budget |
| MtpGeneration.CheckGeneration | examples/gemma4_mtp12_validate_tree_tail.rs:38-285 | the running cursor and traced output accept exactly the generations that meet the per-round, whole-run, width, padding and tree-eligibility rules |
| DraftLattice.ExpandKeeps | src/inference/spec_tree.rs:358-411 | an accepted expansion keeps parents first, depths consecutive, scores non-rising along edges and sibling tokens distinct |
| DraftLattice.ExpandIff | src/inference/spec_tree.rs:358-411 | refuses exactly an unknown parent, a depth beyond sixteen bits, a positive log-probability, a repeated token or a mass above 1.00001; otherwise appends the candidates in order, one level down, each at its parent's score plus its own |
| DraftLattice.StrongestIsConnected | src/inference/spec_tree.rs:413-489 | truncating the rank order never orphans a node |
| DraftLattice.StrongestScores | src/inference/spec_tree.rs:413-489 | no node left out of the rerank is more probable than a kept one, shallower than an equally probable one, or older than an equally probable and deep one |
| DraftLattice.RenderedPaths | src/inference/spec_tree.rs:413-489 | each verifier row's root path, read through its source nodes, is its lattice branch |
| DraftLattice.RerankConnected | src/inference/spec_tree.rs:413-489 | the rerank fails only for a zero budget; otherwise it lays out the strongest nodes as a well-formed tree |
| Frontier.NextParent | src/eagle3_runtime.rs:350-378 | the scheduled parent is the highest-ranked eligible node, and none is scheduled iff none is eligible or a budget is spent |
| Frontier.NextParentScores | src/eagle3_runtime.rs:350-378 | no waiting node within the depth limit is more probable than the scheduled one, none as probable is shallower and none as probable and deep is older; none is scheduled iff none waits or a budget is spent |
| Frontier.ScoresFall | src/eagle3_runtime.rs:350-378 | parents are expanded from the most to the least probable, and nothing that still waits is more probable than any of them |
| Frontier.ExpandedBestFirst | src/eagle3_runtime.rs:412-487 | with step scores at most zero, expanding the best parent keeps every expanded node ahead of every eligible one |
| Frontier.ExpansionKeepsInv | src/eagle3_runtime.rs:412-487 | an expansion keeps the expansion order strictly ranked, the expanded set ancestor-closed and all three budgets |
| Frontier.PathExpanded | src/eagle3_runtime.rs:381-395 | every node on an expanded node's root path has been expanded |
| Frontier.RootExpansionRefusedIff | src/eagle3_runtime.rs:135-158 | a valid configuration refuses even the root exactly when it allows a single node |
| Frontier.SingleNodeRefused | src/eagle3_runtime.rs:135-158 | a concrete valid configuration that schedules nothing |
| Frontier.Frontier.RecordExpansion | src/eagle3_runtime.rs:412-487 | succeeds exactly for the scheduled parent with a sound observation; the lattice then grows by exactly the first candidates that the per-parent cap and the room allow, in order with their log-probabilities; a refusal changes nothing |
| Frontier.RecordableIff | src/eagle3_runtime.rs:412-487 | what success asks of an observation, number by number: 3072 hidden values, 32000 draft tokens, finite, distinct and ranked candidates, none above the normalizer by more than 0.00001, retained probabilities within 1.00001 |
| Frontier.ChildrenOfExpanded | src/eagle3_runtime.rs:412-487 | in every explored lattice the children of the k-th expanded node are exactly the retained candidates of what was observed there, in order |
| Frontier.NodeOfStep | src/eagle3_runtime.rs:412-487 | every node carries one candidate of its parent's observation, one level down, scored by the parent's score plus the candidate's logit less the normalizer, capped at zero, and the state that observation left |
| Frontier.ScoreIsSum | src/inference/spec_tree.rs:290-411 | a node's score is the sum of those steps along its root path |
| DraftCursor.SharedNodes | src/eagle3_runtime.rs:243-273 | the retained length is the longest common prefix of the two branches, defined iff they share a root |
| DraftCursor.BranchPrefix | src/eagle3_runtime.rs:243-273 | the cache cells of a branch prefix are a prefix of the branch's cells |
| DraftCursor.ObservedFromBranch | src/eagle3_runtime.rs:767-864 | what the head was shown for an expanded node: above the stable rows one cell per node of its branch but the root, each made of that node's token, the state its parent's observation left and the next position, and then the node's own token and its parent's state |
| DraftCursor.ScheduledIsFresh | src/eagle3_runtime.rs:767-864 | a scheduled branch is never a prefix of the one the cursor is on, so the internal-consistency errors are unreachable |
| DraftCursor.MoveCursor | src/eagle3_runtime.rs:767-864 | rolling back to the common prefix and replaying only the suffix gives the output of a full replay from the stable prefix |
| DraftCursor.SourcePathTo | src/eagle3_runtime.rs:381-395 | an error exactly for a node outside the lattice; otherwise the node's whole root path |
| DraftCursor.DraftDynamicFrontier | src/eagle3_runtime.rs:767-864 | on every exit the head is back at the stable rows; on success the lattice is the one its expansions build, every observation equals a full replay of its branch, no parent is left to schedule and the forward count is the rows replayed; with sound observations, a running device and room for the deepest branch it drafts if and only if the configuration is valid and allows a second node |
| DraftCursor.ReplayCostSnoc | src/eagle3_runtime.rs:767-864 | an expansion costs one forward per node of its branch beyond the common prefix with the branch before it |
| DraftCursor.DraftChain | src/eagle3_runtime.rs:906-942 | the linear draft is the head's own top-1 chain from the seed, the watermark is restored either way, and a seeded chain with room, sized vectors and a running device succeeds |
| DraftCursor.Head.RollbackTo | src/eagle3_runtime.rs:805-820 | rollback only lowers the watermark and keeps the rows below it |
| DraftCursor.Head.ForwardToken | src/eagle3_runtime.rs:821-835 | runs if and only if both inputs have the head's width, the position is the watermark, there is room and the device runs it; it appends one cell and outputs from all cells, and a failure changes no committed row |
| Catchup.Interleave | src/eagle3_runtime.rs:29-58 | succeeds exactly for three captures of width 3072 with equal row counts; row i is the three taps of row i side by side |
| Catchup.InterleavedNumber | src/eagle3_runtime.rs:29-58 | number h of tap t of row i lands at 9216 i + 3072 t + h |
| Catchup.DeferredEqualsEager | src/eagle3_runtime.rs:953-980 | for every sequence of rounds, queueing all and materializing once gives the same head rows, seed and refusals as accepting each |
| Catchup.AcceptedPairs | src/eagle3_runtime.rs:947-980 | an accepted round adds one cell per token, made of its embedding, the target row of the same place and the next position, and the seed is the head's answer to the last pair |
| Catchup.EffectiveFilledIsEager | src/eagle3_runtime.rs:81-95 | the materialized watermark plus the queued rows is the eager watermark |
| Catchup.AuthoritativeCatchup.EffectiveFilled | src/eagle3_runtime.rs:81-95 | the queue's own watermark is the one the eager history of its rounds has, and fails only on overflow |
| Catchup.DeferredRun | src/eagle3_runtime.rs:953-980 | queueing a whole run and materializing once leaves exactly the eager state; refused rounds leave no trace, the effective watermark is the eager one after every round, a failure keeps head and queue, and it succeeds if and only if the queued rows fit and the device runs them |
| Catchup.EagerRun | src/eagle3_runtime.rs:686-721 | accepting every round as it comes, refused ones skipped, leaves the eager state, and completes if and only if all accepted rows fit and the device runs them |
| Catchup.CompareRuns | src/eagle3_runtime.rs:953-980 | two drafters that start alike and see the same run, one eager and one deferred, end in the same state; with a running device both complete when the rows fit |
| Catchup.AcceptTwice | src/eagle3_runtime.rs:686-721 | accepting two rounds in turn is accepting their concatenation |
| Catchup.Drafter.AcceptFeatures | src/eagle3_runtime.rs:947-980 | all rows and a fresh seed, or no change at all; it succeeds if and only if there are tokens, whole rows for each of them, room and a device that runs them |
| Catchup.Drafter.AcceptAuthoritative | src/eagle3_runtime.rs:686-721 | the eager update appends exactly the rows paired with emitted tokens; it succeeds if and only if the captures are three equal taps with a row per token and the rows fit and run |
| Catchup.Drafter.AcceptCatchup | src/eagle3_runtime.rs:953-980 | materialization empties the queue on success and keeps it, the rows and the seed on failure; it succeeds if and only if the queue is empty or its rows fit and run |
| Catchup.AuthoritativeCatchup.Push | src/eagle3_runtime.rs:96-125 | an admissible round is queued with its authoritative prefix; a refused one changes nothing |
| ForestCommit.AcceptTargetPredictions | src/eagle3_runtime.rs:582-609 | an error exactly for the wrong number of rows; otherwise the accepted path and tokens, with the lattice node of every accepted row |
| ForestCommit.AcceptedIsBranch | src/eagle3_runtime.rs:582-609 | on a reranked lattice the accepted rows name one lattice branch |
| ForestCommit.GatherLayerInputs | src/eagle3_runtime.rs:626-650 | an error exactly for a row outside some capture; otherwise the path's rows of every capture, in path order |
| ForestCommit.GatheredFeatures | src/eagle3_runtime.rs:626-650 | gathering and then interleaving is interleaving and then gathering |
| ForestCommit.AcceptForest | src/eagle3_runtime.rs:982-999 | commits the interleaved rows of the accepted path or changes nothing; it succeeds if and only if the captures are three taps of width 3072 that have all rows of the path, whatever their heights, and the rows fit and run |
| ForestCommit.ForestEqualsLinear | src/eagle3_runtime.rs:982-999 | the rows gathered from a tree pass along a path are those of a linear pass over that path |
| ForestCommit.SnapshotsAreTruthful | src/inference/metal_resident.rs:1876-2052 | the snapshots of a masked batch hold, in every row, what a linear decode of that node's own branch captures |
| ForestCommit.VerifyWithCaptures | src/inference/metal_resident.rs:1876-2052 | runs if and only if the tree is within the cap and fits and the device takes the batch; predictions and snapshots are truthful and exactly the accepted path is committed, and a decline commits nothing |
| ForestCommit.Finish | src/eagle3_runtime.rs:489-499 | the verifier tree of an explored frontier renders exactly its strongest nodes within the budget and is rooted at the anchor |
| ForestCommit.ForestRound | src/main.rs:10402-10461 | explore, rerank, verify, accept and commit: the emitted tokens are the target's greedy stream, the target cache holds the accepted path and the draft head is as linear verification of that path would leave it; a failed round leaves the head alone; drafting goes through when nothing is wrong with observations, room and device, and then the round succeeds if and only if the tree has two rows and fits, the devices run and the head has room |
| PrefixCache.AllowedDependsOnAdmitted | src/diffusion_gemma.rs:2207-2311 | attention under the region mask depends only on the admitted keys |
| PrefixCache.RowEquation | src/diffusion_gemma.rs:2202-2311 | every row of every layer attends to exactly the positions it may see, each with the K/V of its own row and absolute position, and goes through the feed-forward of its side of the region split |
| PrefixCache.PromptSees | src/diffusion_gemma.rs:2301-2311 | a prompt row sees position k exactly when k is not after it and, on a sliding layer, less than a window back |
| PrefixCache.CanvasSees | src/diffusion_gemma.rs:2202-2311 | a canvas row sees the whole canvas and prompt position k on every global layer, and on a sliding one exactly when k is less than a window before the canvas |
| PrefixCache.FirstRows | src/diffusion_gemma.rs:2160-2200 | prompt ids and canvas ids go through their own embeddings, the canvas with its own positions |
| PrefixCache.LastRows | src/diffusion_gemma.rs:2545-2640 | the logits of canvas position j are read off its own row of the last layer |
| PrefixCache.PromptRowsInvariant | src/diffusion_gemma.rs:2207-2311 | the prompt's hidden rows after any number of layers are the same for every canvas and every conditioning |
| PrefixCache.SuffixLayer | src/diffusion_gemma.rs:2301-2311 | a layer over the materialized suffix with true prefix K/V is that suffix of the full layer |
| PrefixCache.ForwardCached | src/diffusion_gemma.rs:2114-2199 | the cached pass bails exactly when some layer's fast attention fails; otherwise it returns the logits that the cache's own K/V give |
| PrefixCache.ForwardFull | src/diffusion_gemma.rs:2114-2199 | the full pass returns the plain forward's logits, and each capture is the prompt's own K/V where the fast path completed and empty elsewhere |
| PrefixCache.CachedLogitsSealed | src/diffusion_gemma.rs:2114-2199 | with a cache sealed for the prompt the cached logits are the full ones, for every canvas and conditioning |
| PrefixCache.CacheServesIff | src/diffusion_gemma.rs:2072-2108 | among prompts of one length, a cache sealed for one serves another on every network and canvas if and only if they are equal |
| PrefixCache.WrongPromptServed | src/diffusion_gemma.rs:2072-2108 | prompts of one length that differ at a position get different logits on the network that looks there |
| PrefixCache.ForwardStep | src/diffusion_gemma.rs:2072-2108 | succeeds if and only if the prompt is not empty, the canvas has the right length and readable ids, and the prompt's ids are readable or a matching cache serves; the logits are those of the trusted cache when it serves and the plain forward's otherwise, with a cache sealed for the prompt always the plain forward's; the cache afterwards is given for every outcome, and a new one is sealed exactly when every layer of the full pass was fast |
| EntropyBound.ArgsortAscending | src/diffusion_gemma.rs:880-892 | the order is a permutation with ascending keys, lower index first on ties |
| EntropyBound.ArgsortedUnique | src/diffusion_gemma.rs:880-892 | the keys determine that order |
| EntropyBound.AcceptPositions | src/diffusion_gemma.rs:2736-2758 | a position is accepted exactly when the entropies ranked strictly before it sum to at most the bound |
| EntropyBound.RuleUnique | src/diffusion_gemma.rs:2736-2758 | entropies and bound determine the accepted set |
| EntropyBound.AcceptsSomethingIff | src/diffusion_gemma.rs:2736-2758 | with entropies, which are not negative, something is accepted if and only if the bound is not negative |
| EntropyBound.RuleAcceptsPrefix | src/diffusion_gemma.rs:2736-2758 | the accepted positions are a prefix of the order, for non-negative entropies whatever the bound |
| EntropyBound.AcceptanceIsOptimal | src/diffusion_gemma.rs:2736-2758 | the accepted set is within the bound, no set within the bound is larger, and no accepted position has more entropy than a rejected one |
| EntropyBound.SmallestSum | src/diffusion_gemma.rs:2736-2758 | no set of positions sums to less than equally many of the lowest-ranked ones |
| BlockDiffusion.Repeats | src/diffusion_gemma.rs:2890-2902 | the inner scan reports exactly seven equal tokens at the stride within the full canvas |
| BlockDiffusion.TrimCanvas | src/diffusion_gemma.rs:2879-2910 | the cut is the first end-of-generation index, or an earlier loop onset strictly before its predecessor |
| BlockDiffusion.TrimUnique | src/diffusion_gemma.rs:2879-2910 | the trim specification determines the cut |
| BlockDiffusion.TrimmedIsClean | src/diffusion_gemma.rs:2873-2910 | the kept text has no end-of-generation token and no complete loop |
| BlockDiffusion.DenoiseStep | src/diffusion_gemma.rs:2655-2779 | accepted positions keep their draw, the others are renoised, and the outputs are read off the step's logits |
| BlockDiffusion.Stability | src/diffusion_gemma.rs:2843-2850 | the counter is the number of trailing steps whose argmax repeats, and the step finishes iff it is stable and confident |
| BlockDiffusion.Denoise | src/diffusion_gemma.rs:2781-2872 | the run is at most max(1, maxSteps) steps long, exactly that long when no step finishes it, and each step's temperature is that schedule's; with draws inside the embedding table it succeeds if and only if the prompt is non-empty and readable |
| BlockDiffusion.RunEquations | src/diffusion_gemma.rs:2781-2872 | the first canvas is drawn and unconditioned, every later one is the previous step's and conditioned on its logits and temperature; arguments, entropies and draws are read off the step's own logits, and accepted draws are kept and the rest renoised |
| BlockDiffusion.FinishedIff | src/diffusion_gemma.rs:2843-2850 | a step finishes the run exactly when the argmax is that of each of the stability-many steps before it and the mean entropy is below the threshold |
| BlockDiffusion.DenoiseRunUnique | src/diffusion_gemma.rs:2781-2872 | network, draws, parameters and prompt determine the whole run: fast mode, the step cache and its failures have no influence |
| BlockDiffusion.EachBlock | src/diffusion_gemma.rs:2963-2997 | every block denoises the prompt plus all earlier canvases within the budget, and all but the last are full |
| BlockDiffusion.ResponseIsClean | src/diffusion_gemma.rs:2984-2997 | no end-of-generation token reaches the response |
| BlockDiffusion.ResponseLength | src/diffusion_gemma.rs:2984-2997 | the response length is fixed by the block count and the last cut |
| BlockDiffusion.PrefixLength | src/diffusion_gemma.rs:2963-2997 | the i-th block sees exactly i full canvases after the prompt |
| BlockDiffusion.GenerateBlocks | src/diffusion_gemma.rs:2948-3000 | success needs a non-empty readable prompt whose first block fits, and with draws inside the embedding table nothing else; at most max(1, nBlocks) blocks, the response concatenates the cut canvases and the stop reason is exactly the condition that held |
| LayerStack.ArgmaxIsFirstLargest | examples/parity_node.rs:45-55 | argmax is the first index of the largest value |
| LayerStack.ScanArgmax | examples/parity_node.rs:45-55 | the scan computes that argmax |
| LayerStack.HiddenPrefix | src/inference.rs:5652-5710 | causality: the rows of a prefix do not depend on what follows |
| LayerStack.ThroughIsHidden | src/inference.rs:5652-5710 | running a layer range over new rows and cached K/V gives those rows of the whole-sequence forward |
| LayerStack.StaleRowsUnread | src/inference.rs:5652-5710 | rows at or above the watermark never influence an output |
| LayerStack.ForwardsHidden | src/inference.rs:5652-5710 | a successful call yields the whole-sequence rows and leaves the cache holding the longer sequence |
| KvRoom.AdmitsShorter | src/inference/kv_cache.rs:352-379 | room for a length is room for any shorter one, chunked growth and the saturating byte budget included |
| KvRoom.AdmitsIff | src/inference/kv_cache.rs:352-379 | the rows reserved are the least sufficient multiple of the chunk, cut at the context; a length is admitted if and only if it is in the context and those rows are within the budget or the budget is the largest 64-bit number |
| KvRoom.GrownIsFixed | src/inference/kv_cache.rs:535-544 | a grown size holds what was asked for, within the context, and is not grown again |
| LayerStack.Shard.EnsureCapacity | src/inference/kv_cache.rs:352-379 | the answer depends on context, chunk and budget only, never on what is already allocated |
| LayerStack.Shard.ForwardLayerRange | src/inference.rs:5652-5710 | succeeds if and only if the rows start at the watermark, the cache has room and no layer fails; refused away from the watermark with no change, and a failure part-way keeps every committed row |
| LayerStack.Reference | examples/parity_node.rs:184-211 | yields the first max(1, maxTokens) tokens of the greedy continuation; on a fresh session it succeeds if and only if ids and positions fit and no device call fails |
| Pipeline.ServeKeeps | examples/parity_node.rs:243-257 | serving any packet, including leftovers of an abandoned connection, keeps the invariant |
| Pipeline.AnswerIsNext | examples/parity_node.rs:243-257 | serving the current run's packet answers its next greedy token and brings the worker's cache up to date |
| Pipeline.AcceptKeeps | examples/parity_node.rs:226-240 | rewinding the worker's watermark on accept keeps the invariant with stale rows left in place |
| Pipeline.BeginKeeps | examples/parity_node.rs:272-292 | a run, or the retry of one, starts from a rewound coordinator and a fresh connection |
| Pipeline.ReceiveKeeps | examples/parity_node.rs:293-312 | a received token is the next greedy one and the rows sent on are the ones the worker needs |
| Pipeline.RunKeeps | examples/parity_node.rs:226-320 | the invariant holds in every reachable state, for any interleaving of failures, hang-ups and retries |
| Pipeline.CompletedRunIsReference | examples/parity_node.rs:364-378 | a run that completes yields exactly the single-node greedy tokens, max(1, maxTokens) of them, however many attempts preceded it |
| Pipeline.WatermarksInStep | examples/parity_node.rs:272-320 | the two watermarks differ by exactly the rows in flight and both caches hold the same tokens |
| Pipeline.ReceivedIff | src/cluster.rs:56-106 | of the packets a sender can frame, the worker's receiver reads exactly those within its float limit |
| PipelineProgress.CanFinish | examples/parity_node.rs:272-320 | while the worker serves the current run, a run that fits can complete |
| PipelineProgress.CanFinishIff | examples/parity_node.rs:226-320 | from every reachable state, idle, unaccepted and lost connections included, a run can complete if and only if its ids, packet, 32-bit lengths and positions and both caches fit |
| PipelineProgress.LongPromptNeverFinishes | examples/parity_node.rs:226-320 | a run that a single session completes and that no attempt of the pipeline ever does |
| Wire.ParseIff | src/cluster.rs:64-145 | a receiver yields a message after n words iff those words are the sender's for that message and it fits |
| Wire.ReceiveIff | src/cluster.rs:22-145 | reading yields a message and a rest iff the bytes are its encoding followed by that rest |
| Wire.StreamIff | src/cluster.rs:22-145 | any sequence of messages written back to back is read back as itself, consuming exactly its bytes, and nothing else is ever read |
| Wire.ActivationReceivedIff | src/cluster.rs:64-106 | a framed activation is read if and only if its float count is within the receiver's limit |
| Wire.ActivationBytes | src/cluster.rs:22-54 | the bytes EF BE AD DE, then position, sequence length, float count and floats as little-endian words |
| Wire.FeedbackBytes | src/cluster.rs:108-119 | the bytes ED FE FE CA, the token, and one or zero |
| Wire.TensorBytes | src/distributed.rs:705-724 | rank, dimensions, length and data as little-endian words, sizes cut to 32 bits |
| Wire.TensorSurvivesIff | src/distributed.rs:705-774 | a tensor survives the trip iff its rank, dimensions and length are 32-bit |
| Wire.DimensionsCutSilently | src/distributed.rs:705-774 | oversized dimensions come back cut to 32 bits, with no error |
| Wire.LostDimension | src/distributed.rs:705-774 | a dimension of 2^32 comes back as zero |
| Wire.Writer.SendActivation | src/cluster.rs:22-54 | an oversized vector is refused before anything is written; otherwise the encoding is appended, whole if the transport takes it and cut exactly where it fails otherwise |
| Wire.Writer.SendFeedback | src/cluster.rs:108-119 | the encoding is appended, whole if the transport takes it and cut exactly where it fails otherwise |
| Wire.Writer.SerializeTensor | src/distributed.rs:705-724 | the encoding is appended, whole if the transport takes it and cut exactly where it fails otherwise |
| Wire.Reader.ReceiveActivation | src/cluster.rs:64-106 | returns and consumes what the format says, refusing a wrong magic, an excessive count or a short read |
| Wire.Reader.ReceiveFeedback | src/cluster.rs:121-145 | returns and consumes what the format says, refusing a wrong magic or flag |
| Wire.Reader.DeserializeTensor | src/distributed.rs:726-774 | returns and consumes what the format says, refusing a short read |
| I2S.ByteInBounds | src/bitnet_kernels.rs:148-159 | every logical index of a whole number of tiles maps inside the packed bytes |
| I2S.PlaceInjective | src/bitnet_kernels.rs:148-159 | no two values share a byte and a slot |
| I2S.StoredCode | src/bitnet_kernels.rs:341-359 | storing into an empty slot sets it and leaves the other three unchanged |
| I2S.TernaryIs | src/bitnet_kernels.rs:148-159 | value 32 * slot + j of a tile is two bits of its byte j, the first slot in the highest, with 00 minus one, 10 one and the other two zero |
| I2S.ByteDecodes | src/bitnet_kernels.rs:148-159 | the byte 1B holds minus one, zero, one and zero, 32 values apart |
| I2S.Encode | src/bitnet_kernels.rs:341-359 | decoding inverts the encoder on every ternary sequence of whole tiles |
| I2S.NewMatrix | src/bitnet_kernels.rs:105-146 | accepts exactly non-zero shapes of whole tiles with a 32-byte trailer and a finite scale |
| I2S.DotFits | src/bitnet_kernels.rs:161-231 | partial sums of int8 inputs stay within 128 per column |
| I2S.DotOfColumn | src/bitnet_kernels.rs:172-181 | an input that is zero outside one column gives that column's product |
| I2S.DotAddsUp | src/bitnet_kernels.rs:172-181 | the dot product of a sum of inputs is the sum of the dot products |
| I2S.DirectDot | src/bitnet_kernels.rs:172-181 | the column loop is the dot product with the decoded row |
| I2S.PairDot | src/bitnet_kernels.rs:182-202 | the nine-entry table kernel gives the same integer for every width |
| I2S.TripleTable | src/bitnet_kernels.rs:207-226 | the three nested loops fill the table so that entry i is the signed sum its base-3 digits name |
| I2S.TripleDot | src/cuda.rs:559-577 | the 27-entry table kernel gives the same integer for every width |
| I2S.RowDot | src/bitnet_kernels.rs:161-231 | all modes equal the dot product with the decoded row, and every read is in bounds |
| Reduction.LanePartial | src/cuda.rs:632-642 | the strided loop sums exactly the columns congruent to the lane |
| Reduction.SharesCover | src/cuda.rs:632-642 | the lanes' shares add up to the sequential sum for every width |
| Reduction.HalvingStep | src/cuda.rs:646-652 | adding the upper half onto the lower keeps the sum of the live lanes |
| Reduction.SharedMemoryTree | src/cuda.rs:644-653 | the in-place halving tree leaves slot 0 with the sum of all slots |
| Reduction.WarpTree | src/cuda.rs:502-506 | the shuffle-down tree leaves lane 0 with the sum although upper lanes hold partial garbage |
| Reduction.BlockRow | src/cuda.rs:623-655 | a block row equals the sequential sum over all columns |
| Reduction.WarpRow | src/cuda.rs:484-508 | a warp row equals the sequential sum over all blocks |
| HeadWeightCache.CheckFinite | src/cuda.rs:1391-1400 | the scan accepts exactly the matrices with no infinite or NaN half-precision word |
| HeadWeightCache.FiniteIff | src/cuda.rs:1391-1400 | the words refused are exactly 7C00 to 7FFF and FC00 to FFFF, low byte first |
| HeadWeightCache.NoStaleEntry | src/cuda.rs:681-687 | an address the allocator may hand out has no cache entry |
| HeadWeightCache.RetainKeeps | src/cuda.rs:1386-1392 | dropping expired entries frees exactly the unowned allocations and keeps every live entry equal to its host bytes |
| HeadWeightCache.InsertKeeps | src/cuda.rs:1432-1442 | caching a checked live allocation keeps the cache equal to host memory |
| HeadWeightCache.Backend.DropRef | src/cuda.rs:681-687 | the last strong reference frees the address only when no entry holds a weak one |
| HeadWeightCache.Backend.HeadMatvec | src/cuda.rs:1356-1449 | succeeds exactly when the shape fits, input and weights are finite, the bytes are resident or upload, and the kernel runs; hit or miss, the product uses the live host bytes |
| Checkpoint.TensorBytes | src/eagle3.rs:493-505 | succeeds iff no multiplication overflows 64 bits and returns dtype width times shape |
| Checkpoint.ProductSplits | src/eagle3.rs:493-505 | the element count of a shape is the product of its dimensions |
| Checkpoint.ContiguousTiles | src/eagle3.rs:584-603 | a gap-free walk from zero to the payload end puts every offset in exactly one range |
| Checkpoint.WalkAcceptsIff | src/eagle3.rs:584-603 | for non-empty ranges the sort-and-cursor walk accepts exactly the tilings |
| Checkpoint.ValidateRanges | src/eagle3.rs:538-606 | success means correct sizes and a tiling; for non-empty ranges exactly then |
| Checkpoint.DecodeD2t | src/eagle3.rs:731-770 | succeeds iff the deltas name an injection of the draft vocabulary into the target vocabulary; the stored ids are its 32-bit words, and are the map itself in a vocabulary of 32-bit ids |
| Checkpoint.NarrowedIsMapIff | src/eagle3.rs:765-768 | what is stored of an accepted map is the map if and only if all its ids have 32 bits |
| Checkpoint.MaskIsImageIff | src/eagle3.rs:772-810 | equal count and one-way inclusion hold iff the mask marks exactly the map's image |
| Checkpoint.DecodeT2d | src/eagle3.rs:772-810 | succeeds iff the bytes are booleans, as many as the target vocabulary, and agree with the map, and returns them |
| Checkpoint.DecodeVocabulary | src/eagle3.rs:731-810 | on a vocabulary of 32-bit ids both decoders succeed if and only if every row names a token of its own and the bytes are ones exactly at the named tokens; the map is then that injection and the mask its image |

## Left out

- Floating-point rounding, bit parity with other engines and NaN ordering: scores, entropies, logits and kernel sums are exact reals or integers, and layer mathematics is an uninterpreted function.
- BlockDiffusion.DenoiseStep: the temperature schedule, the argmax, entropy and inverse-CDF row scans and the seeded generator are functions of their inputs.
- PrefixCache.ForwardStep: device and file-read failures inside a layer, the projection or the self-conditioning signal; embedding reads past the mapped file are modelled.
- The self-conditioning arithmetic inside the canvas embedding, expert routing and the device-resident self-conditioning path.
- The diagnostic step cap and the other environment switches, timings, telemetry, cancellation and receipts.
- MtpGeneration.CheckGeneration: timings, memory receipts, cache counters, shape labels, rollback flags and the assistant's own receipts (margins, runner-up ids, fork counts).
- MtpGeneration.Materialize: the cross-check of a tree's topology against the assistant's own branch marker, which can only turn a round into an error.
- MtpGeneration.Generate: cancellation between rounds, which returns a prefix of the run under its own label, and the streamed text.
- DraftLattice.RerankConnected: per-row cumulative scores are carried but nothing is stated about their rounding.
- PipelineProgress.CanFinishIff: every hidden row counts as `width` floats; allocation failures within the byte budget and architectures that the dense CPU layers refuse outright are not modelled, and the five-attempt bound is left out.
- Pipeline.CompletedRunIsReference: prompts are non-empty; on an empty one the source panics on both the reference and the worker side, as does `LayerStack.Reference`.
- Pipeline: the bound of five attempts per run and the number of runs; the theorems hold for any number. Sockets, timeouts and weight-size caps are transport concerns.
- The other distributed worker loop, node admission, layer-range validation and hardware probing: single-branch checks.
- Wire: how a header array is filled byte range by byte range; the bytes written and read are modelled, the scratch buffer is not.
- I2S.RowDot: the final multiplication by the activation and tensor scales, and 32-bit wrap-around for rows wider than 2^24 (`I2S.DotFits` bounds the rest).
- Activation quantization, since it only rounds and clamps floats.
- HeadWeightCache.Backend.HeadMatvec: the mutex is modelled by running one call at a time; the kernel and the check of its output are one outcome.
- The other weight cache, keyed by bare address, whose soundness rests on model lifetime outside the modelled code.
- Checkpoint.ValidateRanges: for zero-length tensors the walk may refuse a tiling, depending on how an unstable sort orders equal starts; the pinned tensors are all non-empty. JSON parsing and the name-set comparison are not modelled.
- Model catalogue, downloads, journals, the frontend and desktop shell, and embedding numerics.
