# A verified model of the reward pipeline and the verl pieces under it

The repository trains vision-language models with reinforcement learning. Its root scripts score
replies (`json_answer_reward.py`, `reward_model.py`), serve the summary judge
(`reward_model_server.py`), re-score validation output (`plot_val_trends.py`) and collect rollouts
that can be resumed (`rollout_checkpoint.py`, `evaluate_rollout_checkpoints.py`). Below them sits
verl: the `DataProto` batch container and the conversion of weights to and from Megatron's
tensor-parallel layout. This project models these parts in Dafny and proves what they promise.

`dafny verify dfyconfig.toml` checks everything.

## Modules

| module | subject |
|---|---|
| Prelude | options, results, sequence flattening and cutting, multiplication facts |
| JsonScan | the brace-balancing scanner and the search for the last JSON object in free text |
| Boxes | analytic IoU, the painted union IoU R2, and when the two agree |
| Permutations | the pigeonhole principle and permutations of sequences |
| Assignment | one-to-one matching by total IoU and the class-two reward |
| BoxMeaning | painted cells, the IoUs as shares of cells, the class-two score as a best sum |
| Reward | R3, R4, classes three and four, routing, the training gate |
| RewardMeaning | gate, formulas, label scores and directions in the terms of a reply |
| WeightLayout | group-interleaved QKV packing, sharding, merging; expert ranges |
| LayerMerge | renumbering pipeline layers while stages are merged |
| RowAlgebra | `DataProto` operations as one common index map over all columns |
| RowMeaning | which rows each `DataProto` operation reads |
| Dispatch | pad, chunk, work, concatenate, unpad |
| FoldBatch | folding and unfolding the batch dimension; column chunks |
| Batcher | the dynamic batcher as interleaved atomic steps and as an object |
| BatcherProgress | what the batcher delivers, fails and serves |
| Scheduler | the scheduler that serialises the shared model |
| SummaryScoring | batched summary scoring against pair-by-pair scoring |
| DedupScoring | deduplicated batched re-scoring against the per-case report |
| PromptIndex | the memoised prompt index |
| Checkpoint | the append-only checkpoint, its histories, and the strict loader |
| CheckpointMeaning | row order and loader acceptance by positions in the file |

Numbers that the program holds as floats are real numbers here. Where the program calls a library or
another service, the model takes the callee as a parameter: `json.loads` is a function from text to
dict, other value or error; `linear_sum_assignment` is any optimal one-to-one assignment; the judge,
the classifier, the square root and the exponential are functions with stated properties. What the
text parsers read out of a reply is given as a record with one field per parser, so that parsers
which can disagree in the program can disagree in the model.

## What the proofs found

- The last-object search documents that it returns the object that ends last among all `{` that start
  one. A brace inside a string of an accepted object can start a dict that ends later, and the code
  skips it. `JsonScan.LatestOfAllCanFail` gives the reply `{"a":"{"}x":1}`; `JsonScan.LatestOfAllIff`
  says exactly when the promise holds, and `JsonScan.LatestAmongStructural` that it always holds for
  braces outside strings.
- The reporting entry is documented to agree with the training score. Behind a closed answer gate
  training returns 0 at once, while the report goes on to read the boxes and to ask the judge, so it
  can fail there: on a box coordinate too large for a float (`Reward.ReportCanRaise`), or on the judge.
  For a source in no route the report reads both texts before it refuses the source, and can fail on
  that. `Reward.ScoreAgreesWithDetailsIff` says that the two agree, errors included, in exactly all
  other cases.
- The offline decomposition reads the JSON objects of both texts on every route, the report only on
  the spatial ones. A reply nested too deeply for the JSON reader is scored 0 by the report on an
  answer route and stops the decomposition (`DedupScoring.DecomposingCanRaise`);
  `DedupScoring.RescoreAll` gives the exact condition.
- `fold_batch_dim` writes the folded object columns back into the dict of its argument. Folding and
  unfolding restores every column of the result but leaves the caller's object columns folded
  (`FoldBatch.FoldThenUnfold`, `FoldBatch.FoldInPlaceVisibleIff`).
- For two integer boxes, R2 is the analytic IoU exactly when at least one box paints something: two
  empty boxes score 1 in R2 and 0 in IoU (`Boxes.R2IsIouIff`).
- A pipeline stage without layers still moves the layer counter on by one, so the merged numbers are
  contiguous exactly when no such stage comes before one with layers (`LayerMerge.ContiguousIff`;
  a failing input in `LayerMerge.EmptyStageShiftsNumbers`).
- Experts are covered exactly when the expert-parallel size divides their number
  (`WeightLayout.EveryExpertOwnedIff`; three experts on two ranks in `WeightLayout.ThreeExpertsTwoRanks`).
- A submitted request can stay unresolved for ever in two ways: its check came before an abort and its
  put after the drain (`Batcher.AbortCanStrand`), or it was still queued when the thread left through a
  close, which never drains (`Batcher.CloseCanStrand`). `Batcher.UnresolvedIff` says which requests of
  a run these are, `Batcher.LeftByCloseIff` and `Batcher.LeftByFatalIff` say it for each way the thread
  can leave, and `Batcher.NobodyIsLeftIff` says when there are none and never will be.
- The scheduler can leave both kinds of task waiting for an idle model for ever: each evaluates the
  wait condition once per wake-up, on the queue lengths of that moment, and each can be refused in
  favour of the other (`Scheduler.DifferentSnapshotsCanStall`). `Scheduler.StuckIff` says that this
  happens exactly when the queue lengths each has read since the model was freed prefer the other, and
  `Scheduler.OneSnapshotNeverSticks` that queue lengths which do not change in between never do it.

## Model

| member | source | states |
|---|---|---|
| JsonScan.ScanBalancedJson | json_answer_reward.py:268-306 | The loop over depth, in_str and esc returns the dict at the first balanced closing brace, or no object with the position where the scan stopped |
| JsonScan.ExtractLastJsonObj | json_answer_reward.py:309-341 | The search loop returns the value of the last object accepted from left to right, and nothing exactly when none is accepted |
| JsonScan.RunQuoted | json_answer_reward.py:276-288 | The text of any RFC 8259 string, whatever braces, quotes and escapes it holds, leaves the scan depth unchanged |
| JsonScan.ObjectIsSelfClosing | json_answer_reward.py:276-306 | The text of every well-formed JSON object closes with its own last character and not before |
| JsonScan.SeriesYieldsLast | json_answer_reward.py:309-341 | Free text that holds any series of JSON objects between stretches without an opening brace yields exactly the last object, and none if there is none |
| JsonScan.Lockstep | json_answer_reward.py:276-306 | A scan some levels shallower stays in step with the outer scan and closes strictly earlier |
| JsonScan.InnerClosesEarlier | json_answer_reward.py:326-341 | A scan from an inner brace outside strings closes, and strictly before the outer scan does |
| JsonScan.AcceptedSpansInOrder | json_answer_reward.py:326-341 | The objects the search accepts occupy disjoint spans from left to right |
| JsonScan.AcceptedEndsIncrease | json_answer_reward.py:333-338 | Ends of accepted objects strictly increase, so the comparison with the best end always succeeds |
| JsonScan.LastAcceptedIsResult | json_answer_reward.py:326-341 | The result is what the last accepted start yields, and there is none exactly when nothing is accepted |
| JsonScan.LatestAmongStructural | json_answer_reward.py:336-341 | Every brace that starts a dict and is not hidden in a string of an accepted object ends no later than the result |
| JsonScan.LatestOfAllIff | json_answer_reward.py:309-316 | The documented promise over all braces holds exactly when every dict that starts inside a string of an accepted object ends by the end of the last accepted object |
| JsonScan.LatestOfAllWithoutHiddenBraces | json_answer_reward.py:309-316 | The documented promise holds when no accepted object has an opening brace in a string |
| JsonScan.LatestOfAllCanFail | json_answer_reward.py:309-316 | On one reply, for every reader that accepts its two balanced pieces as dicts, the search returns the first and the documented promise fails |
| Boxes.ClampBox | json_answer_reward.py:236-238 | A clamped box lies on the canvas, and a box on the canvas is unchanged |
| Boxes.IouRange | json_answer_reward.py:241-255 | IoU lies in [0,1] for any two boxes, proper or not |
| Boxes.IouSymmetric | json_answer_reward.py:241-255 | IoU does not depend on the order of the two boxes |
| Boxes.IouOneIff | json_answer_reward.py:241-255 | IoU is 1 exactly for a proper box and itself |
| Boxes.RasterizeUnion | json_answer_reward.py:643-656 | A cell of the mask is painted exactly when some truncated and clamped box covers it |
| Boxes.ScoreR2 | json_answer_reward.py:659-670 | Scores two lists by the cells they paint, empty against empty being 1 |
| Boxes.R2Laws | json_answer_reward.py:659-670 | R2 is symmetric, lies in [0,1], and is 1 exactly when both lists paint the same cells |
| Boxes.R2IgnoresListing | json_answer_reward.py:643-670 | R2 does not depend on order, on duplicates or on boxes whose cells other boxes cover |
| Boxes.ContainedIsWithin | json_answer_reward.py:649-655 | A box whose coordinates lie inside another box's paints no cell the other does not |
| Boxes.R2IsIouIff | json_answer_reward.py:643-670 | For single integer boxes R2 equals the analytic IoU exactly when at least one of them is proper |
| BoxMeaning.ClampIsNearest | json_answer_reward.py:236-238 | A value inside the range is kept and one outside goes to the nearer edge, so no value of the range lies between |
| BoxMeaning.TruncTowardZero | json_answer_reward.py:651 | A coordinate becomes the integer next to it on the side of zero |
| BoxMeaning.PaintedIff | json_answer_reward.py:643-656 | The painted cells are exactly the canvas cells whose far corner lies in some box, left and upper edge excluded |
| BoxMeaning.R2IsShare | json_answer_reward.py:659-670 | R2 is the number of cells painted by both lists over the number painted by either, and 1 for two blank canvases |
| BoxMeaning.IntIouIsShare | json_answer_reward.py:241-255 | The IoU of integer boxes is the number of cells in both over the number in either |
| Assignment.FillIouMatrix | json_answer_reward.py:867-870 | The nested loops fill the matrix with the IoU of every pair |
| Assignment.ComputeHungarianMatch | json_answer_reward.py:858-873 | Nothing when a side is empty, else the assigned pairs with their IoU |
| Assignment.ScoreHungarianIou | json_answer_reward.py:559-586 | The matched IoU over the longer list, and 0 when a side is empty |
| Assignment.BeatsPartial | json_answer_reward.py:583-584 | A maximum full assignment has at least the total of every partial one-to-one matching |
| Assignment.ScoreRange | json_answer_reward.py:559-586 | The class-two score lies in [0,1] |
| Assignment.ScoreIgnoresOrder | json_answer_reward.py:559-586 | Permuting either list does not change the score, whichever optimal assignment is returned |
| Assignment.ScoreSymmetric | json_answer_reward.py:559-586 | Ground truth and prediction may change places |
| Assignment.ScoreOneIff | json_answer_reward.py:559-586 | The score is 1 exactly when the lists are non-empty permutations of each other with proper boxes |
| Assignment.ExtraBoxNeverHelps | json_answer_reward.py:559-586 | Appending a predicted box that overlaps nothing never raises the score |
| Assignment.OnlyIdentityIsBest | json_answer_reward.py:858-873 | For distinct proper boxes matched against themselves the identity is the only optimal assignment |
| BoxMeaning.ScoreIsShare | json_answer_reward.py:559-586 | The class-two score is the sum of the matched pairs' IoUs over the longer length |
| BoxMeaning.MatchedSumIsBest | json_answer_reward.py:583-584 | No one-to-one pairing of the boxes, of whatever size, has a larger sum of IoUs than the matched one |
| BoxMeaning.OneExactPairScore | json_answer_reward.py:559-586 | One exact proper pair and no other overlap score 1 over the longer length |
| Reward.Cosine | json_answer_reward.py:755-761 | The clipped cosine lies in [0,1], near-zero norms included |
| Reward.DirectionCoefficient | json_answer_reward.py:738-765 | The direction coefficient lies in [0,1] in every combination of missing vectors and dimensions |
| Reward.ScoreR3 | json_answer_reward.py:691-774 | The format gate over all predictions, then the mean of label score times IoU over the matches |
| Reward.LabelScoreRange | json_answer_reward.py:727-770 | A label score lies in [0,1] |
| Reward.R3Range | json_answer_reward.py:691-774 | R3 is -1 on a badly formatted prediction and in [0,1] otherwise, and is 1 exactly when every match scores 1 |
| Reward.R4 | json_answer_reward.py:833-855 | Whenever R4 returns, its value lies in [0,1] |
| Reward.ComputeParts | json_answer_reward.py:909-911 | R2 and R3 of the entries under the matching |
| Reward.ScoreSpatialConsistencyBbox | json_answer_reward.py:880-914 | Class three with its gate before the entries are read, its empty ground truth branch, and R4 asked only when needed; a parser that raises is an error |
| Reward.ScoreSpatialDetection | json_answer_reward.py:921-938 | Class four, without a gate |
| Reward.ConsistencyRange | json_answer_reward.py:880-914 | On a non-empty ground truth class three lies in [-0.15,1] and is 1 exactly when both texts can be read, the answer is right and R2, R3 and R4 are all 1 |
| Reward.DetectionRange | json_answer_reward.py:921-938 | Class four lies in [-0.25,1] and is 1 exactly when both texts can be read and R2, R3 and R4 are all 1 |
| Reward.SelfR3 | json_answer_reward.py:691-774 | Repeating distinct proper entries earns R3 of 1 exactly when every label is well formed and no direction vanishes |
| Reward.ClassifierJudgesSelfExact | reward_model.py:855-861 | The classifier's exact-match fast path judges every non-blank summary to agree fully with itself |
| Reward.ReproducedDetectionIff | json_answer_reward.py:921-938 | A reply that repeats the ground truth scores 1 in class four exactly when its labels are well formed and its summary is non-blank text |
| Reward.ReproducedConsistencyIff | json_answer_reward.py:880-914 | The same in class three, where the answer must be present too |
| Reward.RoutesAreDisjoint | json_answer_reward.py:1052-1117 | No data source is in two routes, and every gated source has an answer |
| Reward.RouteOrderDoesNotMatter | json_answer_reward.py:1120-1154 | Training and report test the routes in opposite orders and still choose the same one |
| Reward.ScoreAgreesWithDetailsIff | json_answer_reward.py:941-997 | Training score and report agree, errors included, exactly when the report neither fails behind a closed answer gate, on an entry list or on the judge of a non-empty ground truth, nor fails to read a text of a source in no route |
| Reward.ReportCanRaise | json_answer_reward.py:957-958 | A wrong answer with a coordinate too large for a float: training returns 0 and the report raises |
| Reward.WrongAnswerScoresZero | json_answer_reward.py:1157-1175 | R1 of 0 forces the plain score to be 0 |
| Reward.GatedScoreRight | json_answer_reward.py:1202-1266 | With R1 and the gate given, the score is R1 times gate times plain score, and the plain score exists when both are open |
| Reward.TrainingIsGatedScore | json_answer_reward.py:1178-1266 | Whenever the training entry returns, its score is R1 times the gate times the plain score, and the plain score itself on ungated sources |
| RewardMeaning.GateOpensIff | json_answer_reward.py:1229-1266 | On a gated source with a right answer and a valid judgement, U, or A for the answer a, or B for the answer b, each in either case, leads to the plain score or its error, and every other option to a score of 0 with a closed gate |
| RewardMeaning.BeforeTheJudge | json_answer_reward.py:1199-1222 | A wrong answer scores 0 with R1 of 0, a reply without a last sentence scores 0 as malformed, a question without options is an error |
| RewardMeaning.BadJudgement | json_answer_reward.py:1229-1239 | An option other than A, B and U, or an unclear probability out of range, is an error |
| RewardMeaning.R1Meaning | json_answer_reward.py:1157-1175 | R1 is 1 exactly when both texts give the same answer, read by the extractor on the answer routes and from the objects on the spatial consistency route; other sources have none |
| RewardMeaning.AnswerScoreMeaning | json_answer_reward.py:507-515 | Class one is 1 exactly when both texts give an answer and the answers are equal |
| RewardMeaning.R4Meaning | json_answer_reward.py:842-855 | The judge is asked about reply and ground truth, in this order, exactly when both summaries have text, and an answer out of range is an error; otherwise R4 is 0 |
| RewardMeaning.OpenGateValue | json_answer_reward.py:910-914 | Behind an open gate a non-empty ground truth scores a tenth, a quarter of R2, a quarter of R3 and two fifths of R4 |
| RewardMeaning.ConsistencyValue | json_answer_reward.py:896-914 | Class three on readable texts is 0 for a wrong answer, 1 or 0.2 on an empty ground truth, and an error when the judge answers out of range |
| RewardMeaning.DetectionValue | json_answer_reward.py:934-938 | Class four on readable texts is a quarter of R2, a quarter of R3 and half of R4 |
| RewardMeaning.ReportedParts | json_answer_reward.py:941-997 | The report carries the gate, R2, R3 and R4 under their own names, on the routes and ground truths where they are computed |
| RewardMeaning.LabelScoreZero | json_answer_reward.py:732-733 | A label scores 0 when the ground truth has no keyword or the reply names one too many |
| RewardMeaning.LabelScoreMeaning | json_answer_reward.py:735-770 | Otherwise the score times the number of wanted keywords is the number of hits other than move plus, on a hit of move, the direction coefficient |
| RewardMeaning.DirectionMeaning | json_answer_reward.py:804-826 | A point is a direction from the box centre with the vertical axis up, three numbers are a direction as they stand |
| RewardMeaning.CosineMeaning | json_answer_reward.py:755-761 | 0 below the norm threshold and for obtuse angles, and otherwise the inner product over the product of the lengths, never above 1 |
| RewardMeaning.DirectionCoefficientMeaning | json_answer_reward.py:739-765 | 1 without a wanted direction, 0 without a given one, the cosine for equal dimensions, and the cosine of the first two components less a tenth, not below 0, for different ones |
| RewardMeaning.FormatGateIff | json_answer_reward.py:709-719 | R3 is -1 exactly when some predicted label has a move without exactly one vector or a vector without a move |
| RewardMeaning.R3IsMean | json_answer_reward.py:721-774 | Past the gate R3 is the mean of label score times IoU over the matches, and 0 without matches |
| RewardMeaning.OneAgainstOne | json_answer_reward.py:858-873 | One wanted against one predicted entry earns the label score times the IoU of their boxes |
| WeightLayout.ChunkEven | verl/scripts/legacy_model_merger.py:547-548 | torch.chunk of a length that divides evenly cuts into equal consecutive pieces |
| WeightLayout.MergeAcrossTpQkv | verl/scripts/legacy_model_merger.py:534-562 | The merge of fused attention shards, with its assertions as errors, is the split and join of all chunks at the computed sizes |
| WeightLayout.SplitAndJoin | verl/scripts/legacy_model_merger.py:546-561 | The nested loops split every chunk into its three parts and join the parts of each kind in order; a chunk of the wrong height is an error |
| WeightLayout.ShardedPieces | verl/scripts/legacy_model_merger.py:546-548 | Cutting equal blocks into equal shards and chunking each shard gives the blocks back in order |
| WeightLayout.SplitPacked | verl/scripts/converter_hf_to_mcore.py:155-161 | Splitting the blocks of a group-by-group packing recovers the three inputs |
| WeightLayout.QkvRoundTrip | verl/scripts/legacy_model_merger.py:534-562 | Packing, sharding and merging returns q, k and v unchanged for all head counts, head sizes and any tp dividing the key-value heads |
| WeightLayout.TooManyShards | verl/scripts/legacy_model_merger.py:540-554 | With more shards than key-value heads no merge succeeds |
| WeightLayout.VisionPackIsGroupPack | verl/scripts/converter_hf_to_mcore.py:278-285 | Transposing (3, groups, rows) to (groups, 3, rows) is the group-by-group packing of the three thirds, row by row |
| WeightLayout.MergeAcrossTpGateUp | verl/scripts/legacy_model_merger.py:523-533 | The loop halves each shard and joins first and second halves; a shard that does not split in two is an error |
| WeightLayout.GateUpRoundTrip | verl/scripts/legacy_model_merger.py:523-533 | Shards that stack a gate part over an equally tall up part merge to the whole gate and the whole up |
| WeightLayout.OwnerIsUnique | verl/scripts/converter_hf_to_mcore.py:183-191 | No expert is converted by two ranks |
| WeightLayout.OwnerFormula | verl/scripts/converter_hf_to_mcore.py:183-191 | A rank converts exactly the experts whose index divided by the range size is the rank |
| WeightLayout.EveryExpertOwnedIff | verl/scripts/converter_hf_to_mcore.py:183-191 | Every expert is converted by some rank exactly when the number of ranks divides the number of experts |
| WeightLayout.ThreeExpertsTwoRanks | verl/scripts/converter_hf_to_mcore.py:183-191 | With three experts on two ranks nobody converts the last one |
| LayerMerge.MergeStateDicts | verl/scripts/legacy_model_merger.py:613-661 | The nested loops write, in (vpp, pp, key) order, every output of every key under its renumbered name; when stage (p, v) holds layers 0 to n(p, v)-1, local layer l is stored as l plus the layers of all stages before (v, p) in that order |
| LayerMerge.WriteStage | verl/scripts/legacy_model_merger.py:622-656 | One stage writes all its keys shifted by the layers so far and reports its largest local number |
| LayerMerge.MergedInOrder | verl/scripts/legacy_model_merger.py:620-661 | Each layer tensor of stage (p, v) is in the merged dict under its local number plus the layers of all pp ranks of the earlier vpp ranks and of the earlier pp ranks of its own |
| LayerMerge.StagePosition | verl/scripts/legacy_model_merger.py:620-623 | Stage (p, v) is number v * pp_size + p in the order of merging |
| LayerMerge.AllWritesDistinct | verl/scripts/legacy_model_merger.py:617-661 | Layer keys of different stages never coincide, and all lie below the running layer count |
| LayerMerge.EveryLayerTensorKept | verl/scripts/legacy_model_merger.py:617-661 | Every output of every layer key of every stage is in the merged dict under its renumbered name: nothing overwrites it |
| LayerMerge.PlainTensorKept | verl/scripts/legacy_model_merger.py:641-654 | A tensor outside the layers is kept under its own name, as the last stage that has it writes it |
| LayerMerge.ContiguousIff | verl/scripts/legacy_model_merger.py:617-661 | Merged layer numbers are exactly 0 to total-1 if and only if no stage without layers precedes one with layers |
| LayerMerge.EmptyStageShiftsNumbers | verl/scripts/legacy_model_merger.py:617-661 | An empty stage before a stage with layer 0 gives a merged model with layer 1 and without layer 0 |
| LayerMerge.OffsetIsLayerCount | verl/scripts/legacy_model_merger.py:617-661 | With at least one layer per stage, a stage's numbers start right after all layers of the stages before it |
| RowAlgebra.OnColumnReads | verl/verl/protocol.py:635-719 | Slicing, selecting, repeating, reordering and chunking each read a column through one index map that depends on the operation and the row count only |
| RowMeaning.SelectReads | verl/verl/protocol.py:635-673 | Selection takes exactly indices from -n to n-1 and returns, for tensor and object columns, the rows at them in their order, negative ones counted from the end |
| RowMeaning.ReorderReads | verl/verl/protocol.py:963-969 | Reordering returns the rows at the given indices in the same way |
| RowMeaning.SliceMeaning | verl/verl/protocol.py:675-719 | Row k of a slice is row lo + k * step as long as that lies below hi, with lo and hi read off the bounds: negative ones from the end, outside ones moved to the nearest end |
| RowMeaning.MaskMeaning | verl/verl/protocol.py:645-673 | A boolean selection keeps exactly the flagged rows, each at the place given by the flags set before it |
| RowMeaning.InterleaveMeaning | verl/verl/protocol.py:971-1013 | Interleaved repetition puts copy m of row q at q * r + m |
| RowMeaning.TileMeaning | verl/verl/protocol.py:971-1013 | Tiled repetition puts row m of copy q at q * n + m |
| RowMeaning.SampleRepeatMeaning | verl/verl/protocol.py:1054-1100 | Per-sample repetition puts row i at the places from the sum of the counts before it up to the sum with it |
| RowMeaning.ChunkMeaning | verl/verl/protocol.py:864-903 | Row j of piece i of an even chunk is row i * w + j, and there are as many pieces as asked for |
| RowAlgebra.RepeatReads | verl/verl/protocol.py:971-1013 | Interleaved repetition reads row k from row k/r, tiled repetition from row k mod n |
| RowAlgebra.OwnerByPrefixSums | verl/verl/protocol.py:1054-1100 | Per-sample repetition reads row k from the row whose prefix-sum span holds k |
| RowAlgebra.ChunkReads | verl/verl/protocol.py:864-903 | Piece i of a chunk reads consecutive rows from the sum of the lengths before it, with and without automatic padding |
| RowAlgebra.LengthsOfChunk | verl/verl/protocol.py:879-882 | Chunking loses nothing and cuts into pieces of the lengths the object columns are split at |
| RowAlgebra.EvenLengths | verl/verl/protocol.py:873-876 | A length that divides gives as many pieces as asked for, all of the same size |
| RowAlgebra.ArraySplitMatchesChunk | verl/verl/protocol.py:879-895 | Splitting object columns at the tensors' running chunk lengths gives the pieces a tensor chunk gives, for every length and number of chunks |
| RowAlgebra.ObjectsLikeTensors | verl/verl/protocol.py:864-903 | numpy's repeat, tile, mask selection and array_split on object columns do row by row what torch's calls do on tensors |
| RowAlgebra.RowsStayAligned | verl/verl/protocol.py:635-1100 | Any sequence of operations reads all tensor and object columns through one common index map |
| Dispatch.PaddingProtos | verl/verl/protocol.py:85-93 | The padding loop terminates, and gathers the data's own rows repeated cyclically |
| Dispatch.PadToDivisor | verl/verl/protocol.py:74-99 | Padded data is divisible, keeps its rows, and row len+k is row k mod len; empty data is returned unchanged |
| Dispatch.ConcatRows | verl/verl/protocol.py:917-961 | Concatenation lays the rows of the parts end to end, all columns together |
| Dispatch.ChunkRows | verl/verl/protocol.py:864-903 | The rows of piece i are the i-th piece of the rows, with and without automatic padding |
| Dispatch.ChunkedWork | verl/verl/protocol.py:864-961 | Chunking, letting each worker map its rows and concatenating gives the mapped rows in order |
| Dispatch.UnpadRows | verl/verl/protocol.py:102-106 | Removing the padding leaves exactly the results of the original rows |
| Dispatch.DispatchAll | verl/verl/protocol.py:74-106 | Pad, chunk, work, concatenate and unpad together give f of the original rows for any worker count and any row-wise f |
| FoldBatch.FoldBatchDim | verl/verl/protocol.py:202-219 | Folds every column; the object columns are folded in the caller's own dict, which the result shares; a size that does not divide is an error that changes nothing, and an object column without elements per row is one that leaves the dict partly folded |
| FoldBatch.UnfoldBatchDim | verl/verl/protocol.py:222-238 | Unfolds every column into a new dict and leaves its input alone |
| FoldBatch.FoldUnfold | verl/verl/protocol.py:202-238 | Unfolding a folded column gives the column back |
| FoldBatch.NpFoldMatches | verl/verl/protocol.py:216-217 | The dimension numpy infers for an object column is the one the tensors get, and cannot be inferred exactly when a row has no elements |
| FoldBatch.FoldThenUnfold | verl/verl/protocol.py:202-238 | The round trip restores all columns of both kinds, while the caller's object columns stay folded |
| FoldBatch.FoldMeaning | verl/verl/protocol.py:202-219 | Element (i, j, rest) of the folded column is element (i*(b/m)+j, rest) of the original |
| FoldBatch.FoldInPlaceVisibleIff | verl/verl/protocol.py:214-217 | The caller's object columns survive folding exactly when there are none |
| FoldBatch.UnfoldChunksIff | verl/verl/protocol.py:1015-1052 | Column chunks can be unfolded exactly when n divides the width or the column is empty anyway |
| FoldBatch.UnfoldChunksMeaning | verl/verl/protocol.py:1015-1052 | Element s*(w/n)+c of row i goes to element c of row i*n+s |
| FoldBatch.KeptColumnRepeats | verl/verl/protocol.py:1015-1052 | A column that is not split has row k taken from row k/n |
| Batcher.StepKeepsInv | reward_model_server.py:94-194 | Every atomic step keeps the conservation, order, batch-size and honesty invariant |
| Batcher.EveryRunIsSound | reward_model_server.py:94-194 | In every interleaving each request is in exactly one of queue, active batch and resolved; batches have 1 to max requests in arrival order; a delivered value is the validated score at the request's own position |
| Batcher.RunKeepsResolved | reward_model_server.py:130-182 | No run changes a future once it is set |
| Batcher.DeliveryNeverRaises | reward_model_server.py:181-182 | Setting a result never meets a future that is already set |
| Batcher.UnresolvedIff | reward_model_server.py:94-194 | Once the thread is gone, requests are resolved in arrival order as far as some step took them out of the queue, and exactly the others are not |
| Batcher.LeftByCloseIff | reward_model_server.py:119-122 | Left through a close alone, exactly the requests queued when the thread left and those put later are unresolved |
| Batcher.LeftByFatalIff | reward_model_server.py:124-136 | After the last drain has found the queue empty, exactly the requests put later that the thread did not collect before it left are unresolved |
| Batcher.NobodyIsLeftIff | reward_model_server.py:94-136 | With the thread gone, no continuation ever has an unresolved request exactly when the queue is empty and no submitter stands between its check and its put |
| Batcher.AbortCanStrand | reward_model_server.py:97-107 | A run in which the check precedes an abort and the put follows its drain leaves a request unresolved |
| Batcher.CloseCanStrand | reward_model_server.py:119-122 | A run with a close and no error leaves a queued request unresolved |
| Batcher.SetMeaning | reward_model_server.py:181-182 | Delivering position by position gives each request its own result and touches no other future |
| Batcher.FailMeaning | reward_model_server.py:190-193 | Failing a batch sets exactly its still pending requests |
| Batcher.DynamicBatcher.SubmitCheck | reward_model_server.py:97-104 | A submit passes its check exactly when the batcher is neither in a fatal state nor stopped |
| Batcher.DynamicBatcher.Put | reward_model_server.py:106-107 | Appends the request of a submitter that passed its check to the queue, with a pending future |
| Batcher.DynamicBatcher.Abort | reward_model_server.py:124-136 | Enters the fatal state, stops, and fails exactly the queued requests |
| Batcher.DynamicBatcher.GetFirst | reward_model_server.py:140-145 | Takes the oldest request as a new batch, or times out |
| Batcher.DynamicBatcher.GetMore | reward_model_server.py:147-154 | Adds the oldest request to a batch that is not full, or ends the window |
| Batcher.DynamicBatcher.ReceiveScores | reward_model_server.py:156-173 | Goes on to deliver exactly when the answer is a list of one valid score per request of the batch; anything else starts the failure path |
| Batcher.DynamicBatcher.DeliverAll | reward_model_server.py:181-182 | Sets all results of the batch and leaves the thread idle, other futures and the queue untouched |
| Batcher.DynamicBatcher.FailFatally | reward_model_server.py:184-194 | A failed model call fails exactly the queued requests and the active batch, and the thread exits |
| Batcher.DynamicBatcher.FinishBatch | reward_model_server.py:156-194 | From the answer to the end of the batch: one valid score per request leaves each request of the batch with its validated score and everything else alone; any other answer fails exactly the batch and the queue and ends the thread |
| BatcherProgress.GoodAnswerIsDelivered | reward_model_server.py:165-182 | From every state in which the model is asked, one valid score per request leads in as many deliveries as requests to each of them holding the validated score at its place, and the thread goes on without an error |
| BatcherProgress.OtherAnswerIsFatal | reward_model_server.py:156-194 | Any other answer, or none, leads to the failure of exactly the batch and the queue and to the end of the thread |
| BatcherProgress.DeliversIff | reward_model_server.py:156-173 | The thread goes on to deliver exactly after a list of one valid score per request |
| BatcherProgress.QueueIsServed | reward_model_server.py:138-182 | An idle thread that was not stopped can serve the first k queued requests for any k up to the batch size, each with the score at its own place, and is idle again |
| BatcherProgress.LeavesWhenStopped | reward_model_server.py:138-143 | An idle thread leaves exactly when it was told to stop, and an empty poll leads back to that test |
| Scheduler.StepKeepsInv | reward_model_server.py:200-262 | Every hold of the lock keeps mutual exclusion, the meaning of the active flag, distinct arrival numbers, and that every waiter of an idle model is due to be woken or has been refused |
| Scheduler.ModelIsExclusive | reward_model_server.py:234-262 | In every reachable state at most one task runs the model, and the flag is set exactly while one does |
| Scheduler.ExactlyOneMayStart | reward_model_server.py:213-232 | On one snapshot an idle model with waiters lets exactly one start: most batch plus backlog, earlier arrival on ties |
| Scheduler.MayStartIff | reward_model_server.py:213-232 | A waiter may start exactly when the model is idle and its batch plus its queue is larger than the other waiter's, or as large and its arrival earlier, or nobody else waits |
| Scheduler.EnterIsMeant | reward_model_server.py:243-256 | An arrival is registered with its own size as later than all waiters; it runs at once if the model is idle and it goes first, and waits otherwise |
| Scheduler.StuckIff | reward_model_server.py:213-262 | In every reachable state with an idle model and waiters, nothing can happen any more exactly when both kinds wait and the queue lengths each read since the model was freed prefer the other; otherwise some waiter is still to be woken |
| Scheduler.TwoWakesIff | reward_model_server.py:253-262 | Two woken waiters, in either order, start nobody exactly when the queue lengths each reads prefer the other |
| Scheduler.OneSnapshotNeverSticks | reward_model_server.py:213-232 | Queue lengths that stay the same between the evaluations never leave everybody waiting |
| Scheduler.DifferentSnapshotsCanStall | reward_model_server.py:213-262 | A run the code can take, with a task re-entering before the other wakes, after which nothing can happen and both kinds wait for an idle model |
| Scheduler.GiveUpWakesNobody | reward_model_server.py:252-256 | A wait that is given up notifies nobody: the other waiter may start on any queue lengths and is not woken |
| Scheduler.QueueLengthInferenceScheduler.Enter | reward_model_server.py:243-256 | Registers a waiting batch with its size and a later arrival number than all others and evaluates its wait condition under the same hold of the lock, or refuses a second batch of the same kind and changes nothing |
| Scheduler.QueueLengthInferenceScheduler.Wake | reward_model_server.py:252-256 | A woken waiter takes the model exactly when the wait condition holds, and otherwise waits for the next wake-up |
| Scheduler.QueueLengthInferenceScheduler.Finish | reward_model_server.py:259-262 | Releases the model and makes every waiter due |
| SummaryScoring.ScoreSummariesDetailed | reward_model.py:831-911 | The batched form with fast paths and scatter returns exactly what scoring pair after pair returns, errors included |
| SummaryScoring.FillFastPaths | reward_model.py:841-862 | The first loop leaves open exactly the slow-path pairs, in order, and settles all others |
| SummaryScoring.PointwiseErr | reward_model.py:892-911 | The first failing pair decides the error of scoring pair after pair |
| SummaryScoring.SingleMeaning | reward_model.py:841-911 | A blank side scores 0 as a sure D, equal texts score 1 as a sure A; otherwise A counts once, B half, C a quarter and D nothing, and numbers that are no probabilities or a score above 1 are an error |
| SummaryScoring.NormalizedMeaning | reward_model.py:625-634 | Each normalised probability times the sum of the exponentials is the exponential of its own log-probability, whatever the largest one is |
| SummaryScoring.NormalizedNeverFails | reward_model.py:625-658 | Normalised log-probabilities always pass the validator and give a score in [0,1] |
| DedupScoring.DecomposeCase | plot_val_trends.py:310-361 | Leaves in the case exactly its sub-scores without the judge and the pair still to be judged |
| DedupScoring.UniquePairs | plot_val_trends.py:374-380 | The distinct pairs of all cases, each once |
| DedupScoring.JudgePairs | plot_val_trends.py:383-393 | Every distinct pair gets the judge's own score whatever the batch size; any invalid score is an error |
| DedupScoring.ScoreR4Locally | plot_val_trends.py:374-407 | Deduplicated batched judging leaves every case with what judging its own pair gives |
| DedupScoring.DecomposedMatchesDetails | json_answer_reward.py:941-997 | When both objects can be read, decomposing a case and filling in the judge's score gives exactly the report's details, and fails exactly when the report fails; when one cannot, decomposing fails and the report exactly on the spatial routes or when it fails without the objects |
| DedupScoring.DecomposingCanRaise | plot_val_trends.py:310-318 | A reply nested too deeply for the JSON reader: the report gives it 0 on an answer route and the decomposition raises |
| DedupScoring.RescoreAll | plot_val_trends.py:310-407 | For any cases and batch size the fast path succeeds exactly when every case's report does and its two objects can be read, and then each case carries its report's sub-scores and total |
| PromptIndex.SortIsLongestFirst | plot_val_trends.py:222 | The indexed keys are visited longest first |
| PromptIndex.FirstContainedIsLongest | plot_val_trends.py:237-244 | The loop finds a longest contained key of at least 24 characters, and none only if there is none |
| PromptIndex.ContainsIff | plot_val_trends.py:242 | A key is contained exactly when some stretch of the text equals it |
| PromptIndex.SearchMeaning | plot_val_trends.py:218-244 | Among the contained keys of at least 24 characters the search takes the longest, and among those the one the entries name first |
| PromptIndex.CandidatesMeaning | plot_val_trends.py:218-244 | In an index built from entries the candidates are the entries of the exact key if there are any, else those of the best contained key, else none |
| PromptIndex.LookupMeaning | plot_val_trends.py:225-261 | A lookup uses the exact key if indexed, else a longest usable one, and the first entry with the record's ground truth if there is any |
| PromptIndex.SourceIndex.constructor | plot_val_trends.py:218-223 | Builds a table that lists, under every key, exactly the entries with that key, in their order and with repetitions, and sorts the keys by length with ties in order of first appearance |
| PromptIndex.SourceIndex.Match | plot_val_trends.py:225-261 | A memoised lookup returns what an uncached one would and keeps the cache right |
| PromptIndex.SourceIndex.MatchAll | plot_val_trends.py:225-261 | For any sequence of lookups every answer is the uncached one |
| Checkpoint.ReadCheckpoint | rollout_checkpoint.py:75-90 | An error exactly when some line is neither blank nor a record; otherwise the latest record of every row, keys in order of first appearance |
| Checkpoint.LatestIsLast | rollout_checkpoint.py:75-90 | The record kept for a row is the last one in the file |
| CheckpointMeaning.FirstSeenOrder | rollout_checkpoint.py:75-90 | The rows stand in the order in which the file first names them |
| Checkpoint.GoodLogResumes | rollout_checkpoint.py:135-155 | A log written under the same parameters is never refused on resume |
| Checkpoint.RunLocal | rollout_checkpoint.py:183-225 | Appends one record per pending row, in order, with the batch result or the row's own |
| Checkpoint.BatchingDoesNotShow | rollout_checkpoint.py:196-221 | With an engine that treats rows separately every row gets the result of a call for it alone, whatever the batch size and whichever batch calls fail |
| Checkpoint.RunRemote | rollout_checkpoint.py:228-277 | Appends one record per pending row in the order the calls complete |
| Checkpoint.PrefixIsPossible | rollout_checkpoint.py:183-277 | Any first part of a run in any completion order is a possible invocation, and the whole run a finished one |
| Checkpoint.InvokeLocal | rollout_checkpoint.py:378-403 | One local invocation from reading the file to the last append: it is refused exactly when the last record of some row does not fit the parameters; otherwise each selected row without a record, or with a failed last record under retry, gets exactly one new record with its own data, in the order of the selection, no other row gets one, and a log of the same parameters ends good and complete; with an engine that treats rows separately each new record holds what a call for its row alone gives, a failed one an error |
| Checkpoint.InvokeRemote | rollout_checkpoint.py:378-403 | The same for a remote invocation, its calls completing in any order and each new record holding what the call for its own row gave |
| Checkpoint.PendingIff | rollout_checkpoint.py:388-392 | A row is pending exactly when the file has no record of it, or retry is set and the last record of it in the file has an error |
| Checkpoint.FinishedRunsExactly | rollout_checkpoint.py:386-403 | A finished invocation adds exactly one record for every row that has to run and none for any other |
| Checkpoint.UntouchedKeepsLast | rollout_checkpoint.py:386-392 | A row that need not run, selected or not, keeps its last record |
| Checkpoint.ResumableIff | rollout_checkpoint.py:135-155 | Validation passes exactly when every last record has the same parameters and belongs to a selected row with its ground truth |
| Checkpoint.PendingInOrder | rollout_checkpoint.py:388-392 | Pending rows keep the order of the selection |
| Checkpoint.SessionKeepsGood | rollout_checkpoint.py:386-392 | No invocation supersedes a success or writes a record that is not of a selected row |
| Checkpoint.FinishedIsComplete | rollout_checkpoint.py:386-392 | After a finished invocation the latest-record view holds each selected row once, with its order and ground truth |
| Checkpoint.EveryHistoryIsGood | rollout_checkpoint.py:362-392 | Both hold after every history of crashed, resumed, overwriting and retrying invocations |
| Checkpoint.FullRangeIff | evaluate_rollout_checkpoints.py:96-97 | Distinct sample orders fill 0 to n-1 exactly when all of them lie in it |
| Checkpoint.CheckRecords | evaluate_rollout_checkpoints.py:73-95 | The loop accepts exactly matching metadata and pairwise different sample orders |
| Checkpoint.LoadModelRun | evaluate_rollout_checkpoints.py:56-98 | The loader accepts exactly the readable, complete, consistent and gapless files and returns their latest records |
| CheckpointMeaning.AcceptableIff | evaluate_rollout_checkpoints.py:63-98 | A file is accepted exactly when the last records of all rows carry the expected schema, mode and name and one backend, their sample orders are 0 to n-1 without repetition, and n is what the last record of the row named first says |
| Checkpoint.CompleteIsAcceptable | evaluate_rollout_checkpoints.py:56-98 | A complete log is accepted under the name its parameters give the file |
| Checkpoint.FinishedHistoryLoads | evaluate_rollout_checkpoints.py:56-98 | From an empty file, the lines that any history whose last invocation finished has written are accepted by the loader |

## Left out

- Floating-point rounding, infinities and NaN: numbers are real numbers, so the finiteness checks of the program have no counterpart. A coordinate that cannot be converted makes its parser raise.
- The parsers behind a reply (regular expressions for keywords and vectors, box and answer parsing, prompt keys, `_parse_json_obj` trying the whole text first): their results are inputs, which may be that they raise. The support judge's option arrives with its white space already stripped.
- The insides of `json.loads`, `linear_sum_assignment`, `torch.chunk`, `torch.cat`, `np.array_split`, `sqrt` and `exp`: their results are stated or are parameters.
- `score_answer_and_summary` and the route for externally produced answers: one gate and one R4 call, nothing new.
- vLLM and Transformers inference, tokenisers, truncation and prompts, HTTP handlers, CUDA monitoring.
- SummaryScoring.ScoreSummariesDetailed: pairs are pairs of strings by type and the classifier answers every pair, so the type and batch-size errors do not occur.
- DedupScoring.RescoreAll: the report's display fields and the count of invalid rewards in `collect` are not modelled.
- WeightLayout.MergeAcrossTpQkv: `torch.chunk` and `split` reject what the model reports as one error; replicated tensors and merging along dimension 1 are not modelled.
- LayerMerge.MergeStateDicts: key renaming, skipped keys and tied embeddings are given by the list of outputs of each key.
- Element accounting (`numel`) of the converter: it only adds the sizes of what it copies.
- `meta_info` of a DataProto, including the metrics that `concat` merges; claims are about rows.
- RowAlgebra.ChunkReads: without any tensor column numpy splits a length that does not divide into pieces of its own sizes; the model splits object columns at the tensors' chunk lengths.
- RowAlgebra.OnColumnReads: slice steps are positive, and an index out of range is an input the operation does not accept.
- `DataProtoFuture`, `union`, `pop`, `padding`, serialisation: plumbing around the same columns.
- FoldBatch.UnfoldBatchDim: unfolds two batch dimensions, the default, and needs a tensor column to read the batch size from.
- FoldBatch.UnfoldChunksMeaning: stated per column; the loop over the columns is not modelled.
- Batcher.DynamicBatcher.GetMore: deadlines and timeouts are free choices, so an empty poll stands for either; logging and the fatal callback are not modelled. A queue get and the failure of its request are one step of the drain.
- Scheduler.QueueLengthInferenceScheduler.Wake: the live queue lengths are given to each evaluation; spurious wake-ups, which a condition variable may add, are not modelled.
- Checkpoint.InvokeLocal: one line append is atomic, so an invocation never leaves a torn line; paths, metadata construction and image loading are not part of this model.
- `validate_runs` and the HTML reports: comparisons of finished runs and presentation.
- White space is the four JSON white space characters; other Unicode white space is not modelled.
