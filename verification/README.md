# Modori: verified models of the benchmark, kit and release scripts

The scripts of Modori decide whether a research kit may be trusted: they plan clarifying questions and compare
planners, write and read canonical manifests, walk, copy, extract and remove file trees, publish directories and
result files, measure and judge benchmark runs, and verify a release merge. This project models that logic in Dafny and
proves what the scripts are for. `dafny verify dfyconfig.toml` checks all of it.

The code that changes things step by step is modelled as classes and methods with loops (the memo table of the oracle, the
file system, the directories of a publication, the output directory, the span hook, the state of a complete run); the
code made of expressions is modelled as functions. Failing checks, renames and writes are parameters that may say no at
every single step, so a theorem about a method is a theorem about every pattern of failures.

| files | subject |
|---|---|
| `planner`, `trajectories`, `game_theorems`, `toy_benchmark` | the clarification planner as a minimax game: memoised search, re-planning, optimality |
| `json`, `json_roundtrip`, `json_theorems`, `utf8` | canonical JSON (sections 4 to 7 of RFC 8259, closed profile): printer and strict parser |
| `manifest`, `manifest_theorems` | sorted, collision-free manifests |
| `filesystem`, `tree_walk`, `inventory`, `inventory_digest`, `copy_tree`, `frozen_inputs`, `state_removal` | walking, inventorying, copying, freezing and removing trees |
| `kit_archive`, `kit_extraction`, `kit_walk` | validating and extracting the kit archive |
| `publication`, `benchmark_outputs` | publication with rollback; the three result files |
| `release_integration` | the release-merge verifier |
| `benchmark_contract`, `office_contract`, `child_observation`, `observation_ids`, `observations`, `observation_validators`, `producer_theorems`, `component_theorems`, `producer_meets_validator` | the lists a run emits, and their independent validation |
| `percentiles`, `evaluation`, `evaluation_theorems`, `verdict`, `produced_results` | strata, nearest-rank p95, verdict, and that a produced result can be evaluated |
| `records`, `result_json`, `sealed_records`, `sealing`, `encodable_results`, `returned_run`, `returned_files` | the JSON of results: strict readers and writers, the seal, and the verification of returned files, from their bytes and in their directory |
| `spans`, `span_stops`, `span_hook`, `run_tasks`, `run_authority`, `run_lifecycle`, `complete_benchmark`, `end_to_end` | timed spans inside waits; the life of a whole run, from the first child to the verified return |
| `wrappers`, `text`, `sorting`, `sequences`, `paths` | shared vocabulary |

## Where the code does less than it seems

* A kit path "." is accepted: it has no parts, so no test on parts can refuse it. An archive with a file named "." passes
  validation and cannot be extracted (`KitWalk.DotArchiveIsAccepted`). Extraction of an accepted archive succeeds exactly
  when no path is both a file and a directory and every size is as listed (`KitExtraction.ExtractVerifiedZip`).
* `"schema_version":true` is accepted in a manifest, because Python compares `True == 1`; it is not written back
  (`ManifestTheorems.TrueIsAcceptedAsVersion`). Rewriting an accepted manifest gives the same bytes if and only if the
  version is the integer (`ManifestTheorems.RewritingAcceptedManifest`).

## Model

| member | source | states |
|---|---|---|
| `Planner.IndependentOracle.Policy` | scripts/benchmark_counterfactual_clarification.py:354-399 | On one shared memo table, after any earlier calls: the outcome is that of plain recursive minimax; new table entries carry at most this budget; the number of evaluated states grows exactly as the table does; a cached call changes nothing but the hit count |
| `Planner.IndependentOracle.EvaluateQuestions` | scripts/benchmark_counterfactual_clarification.py:354-399 | The loop over the candidate questions gives the plain evaluations and stores only entries with a smaller budget, so the state in progress is never overwritten |
| `Planner.IndependentOracle.AskBranches` | scripts/benchmark_counterfactual_clarification.py:354-399 | The loop over the answers of one question, with the same accounting |
| `Planner.AskShared` | scripts/benchmark_counterfactual_clarification.py:733-768 | Any list of cases put to one oracle: every outcome is the plain one, and at the end the evaluated states are as many as the memo entries |
| `Planner.CandidatesAreBlockerQuestions` | scripts/benchmark_counterfactual_clarification.py:296-300 | The candidates are exactly the questions of the current blockers |
| `Trajectories.CompleteWorldsAreAll` | scripts/benchmark_counterfactual_clarification.py:515-533 | The enumerated worlds are exactly the total assignments that agree with the confirmed facts and take admissible values elsewhere |
| `Trajectories.RunTrajectory` | scripts/benchmark_counterfactual_clarification.py:536-593 | The loop, with its repeated-question test, follows the recursive walk |
| `GameTheorems.PlanIsBestQuestion` | scripts/benchmark_counterfactual_clarification.py:354-399 | The planned question is the question of a current blocker, and no current question has a better worst answer |
| `GameTheorems.ReplanningRealisesPlan` | scripts/benchmark_counterfactual_clarification.py:536-593 | For every valid game, state and budget: the worst loss over all complete worlds of re-planning at each step is the loss the root plan announces; no question is asked twice and at most `budget` are asked |
| `GameTheorems.PlanIsOptimal` | scripts/benchmark_counterfactual_clarification.py:478-512 | No sequential policy has a smaller worst-world loss than the oracle |
| `GameTheorems.NoQuestionAskedTwice` | scripts/benchmark_counterfactual_clarification.py:536-593 | No sequential policy repeats a question or exceeds its budget, in any world |
| `GameTheorems.TrajectoryWithinValue` | scripts/benchmark_counterfactual_clarification.py:536-593 | Along a walk in any world the loss never exceeds a value function that covers the chosen questions, for any order that question costs do not disturb |
| `GameTheorems.AdversaryWorld` | scripts/benchmark_counterfactual_clarification.py:354-399 | Against every sequential policy some complete world does at least as badly as an unbeatable value |
| `GameTheorems.LossLeTotalOrder` | src/modori/research_os/counterfactual_planner.py:278-286 | The order of losses is total, transitive and antisymmetric |
| `GameTheorems.ChargeMonotone` | src/modori/research_os/counterfactual_planner.py:297-312 | Paying for questions neither makes nor removes an order between two losses |
| `ToyBenchmark.ToyGameIsValid` | scripts/benchmark_counterfactual_clarification.py:224-282 | The toy domain meets the hypothesis of the theorems: its blockers name unanswered facts, and the answers of a question are the values its fact can take |
| `ToyBenchmark.NoRivalBeatsTheOracle` | scripts/benchmark_counterfactual_clarification.py:445-512 | On the toy domain neither the one-step greedy policy nor the fixed order nor the severity-impact rule has a smaller worst-world loss than the oracle |
| `ToyBenchmark.FixedTreeIsSequential` | scripts/benchmark_counterfactual_clarification.py:478-512 | Any fixed order that lists every question asks the question of a current blocker |
| `Json.CanonicalValue` | scripts/live_research_os_office_kit.py:76-97 | The recursive check returns the value itself exactly when it is in the closed profile: depth, safe integers, closed keys, normalised text |
| `Json.BuildObject` | scripts/live_research_os_office_kit.py:116-122 | The pairs hook keeps the pairs in order and refuses a repeated key |
| `Utf8.DecodeEncode` | scripts/live_research_os_office_kit.py:125-139 | Strict UTF-8 decoding gives back every encoded text |
| `Utf8.EncodeDecode` | scripts/live_research_os_office_kit.py:125-139 | Only the bytes the encoder writes are decoded |
| `JsonRoundTrip.ParsePrintedValue` | scripts/live_research_os_office_kit.py:100-139 | Parsing the text of a value, followed by any text that cannot continue a number, gives the value with exactly that rest |
| `JsonTheorems.ParseOfPrinted` | scripts/live_research_os_office_kit.py:100-139 | Parsing a printed value returns it with its keys sorted |
| `JsonTheorems.SameBytesSameValue` | scripts/live_research_os_office_kit.py:100-109 | Two printable values have the same bytes exactly when they are equal up to the order of keys |
| `JsonTheorems.AcceptedIsPrinted` | scripts/live_research_os_office_kit.py:125-139 | Whatever the strict parser accepts is the printing of the value it returns |
| `JsonTheorems.AcceptedExactlyWhenPrinted` | scripts/live_research_os_office_kit.py:125-139 | A byte string is accepted exactly when it is the printing of some value in the closed profile and at most 16 MiB long |
| `Manifest.OrderedMeaning` | scripts/live_research_os_office_kit.py:209-225 | Ordering succeeds exactly when no two paths collide, also not by case, and is then a sorted permutation |
| `Manifest.CollectEntries` | scripts/live_research_os_office_kit.py:239-273 | The loop over raw entries stops at the first bad one and otherwise keeps their order |
| `Manifest.ManifestBytesIgnoreOrder` | scripts/live_research_os_office_kit.py:228-236 | A manifest does not depend on the order of its entries |
| `ManifestTheorems.ManifestRoundTrip` | scripts/live_research_os_office_kit.py:228-273 | Writing succeeds exactly for collision-free entries, and reading the bytes gives the entries sorted by path |
| `ManifestTheorems.RewritingAcceptedManifest` | scripts/live_research_os_office_kit.py:239-273 | Writing an accepted manifest again gives the same bytes if and only if its schema version is the integer |
| `ManifestTheorems.TrueIsAcceptedAsVersion` | scripts/live_research_os_office_kit.py:239-273 | A manifest whose schema version is `true` is accepted, and is not what would be written: the code compares `True == 1` |
| `TreeWalks.Walk` | scripts/verify_office_live_research_os_kit.py:226-256 | The stack walk succeeds exactly on trees without special nodes, and lists every directory and file outside the mutable roots exactly once, whatever the order of listing |
| `TreeWalks.Scan` | scripts/build_installer.py:345-408 | One directory: refused at a special entry, otherwise its subdirectories and files |
| `Inventories.InventoryTree` | scripts/build_installer.py:345-408 | The inventory is that of a complete walk, sorted, with the sizes and digests of the files, and its digest is the hash of its lines |
| `InventoryDigests.DigestBytesDetermine` | scripts/build_installer.py:391-410 | The bytes hashed for two inventories are equal exactly when the inventories are, also with line breaks in names, for names without NUL and hashes of 64 characters |
| `Inventories.SameTreeSameInventory` | scripts/build_installer.py:345-408 | Trees with the same content have equal inventories, however they were walked |
| `CopyTree.CopyInventoryTree` | scripts/build_installer.py:510-556 | To a place outside the source, for any inventory and any present state of the source: the copy succeeds exactly when the destination is absent below an existing directory, every listed directory is still one and is listed before those in it, and every listed file is still a file; it then holds exactly what is listed, with the present contents. A copy from the inventory of an unchanged source succeeds and is the same tree; an existing destination is refused untouched; nothing outside the destination changes, also when the copy fails |
| `CopyTree.CopyDirectories` | scripts/build_installer.py:510-556 | The loop over the listed directories succeeds exactly when each is a directory of the source that is neither the root nor listed, itself or below, before; the directories made are then the listed ones and those on the way to them |
| `CopyTree.CopyFiles` | scripts/build_installer.py:510-556 | The loop over the listed files succeeds exactly when each is a file of the source; the copy then holds the listed directories and files and the directories on the way, and nothing else |
| `CopyTree.CopyHasSameInventory` | scripts/build_installer.py:510-556 | The inventory of the copy equals that of the source |
| `FrozenInputs.FreezeReleaseInputs` | scripts/build_installer.py:559-602 | When the package or the script may have changed since they were listed, to a snapshot apart from both: freezing succeeds exactly when the package still has the listed directories, files, sizes and hashes, the script its size and hash, and there is room; the snapshot then repeats the package and the script, and in every case nothing outside the snapshot changes |
| `FrozenInputs.HasInventory` | scripts/build_installer.py:581-592 | Taking an inventory again and comparing it finds equality exactly when the tree has that inventory, in whatever order directories are listed |
| `FrozenInputs.MovedInventory` | scripts/build_installer.py:345-408 | The same tree at another place has the same inventory |
| `StateRemoval.RemoveUserState` | scripts/installer_smoke.py:696-749 | Removal succeeds exactly when the tree is plain and all rechecks pass; then exactly the tree below and with the root is gone; in every case nothing outside changes and nothing is added |
| `StateRemoval.EmptyInTurn` | scripts/installer_smoke.py:733-749 | By decreasing depth every directory is empty when its turn to be removed comes |
| `StateRemoval.OnlyRootLeft` | scripts/installer_smoke.py:733-749 | After the files and the directories only the empty root is left of the tree |
| `StateRemoval.AllPassOnWalk` | scripts/installer_smoke.py:515-531 | The rechecks of all entries of the tree are those of the listed files and directories |
| `KitArchive.RequiredDirectories` | scripts/verify_office_live_research_os_kit.py:259-264 | The required directories are the proper ancestors of the listed files |
| `KitArchive.CheckMembers` | scripts/verify_office_live_research_os_kit.py:482-556 | The pass over the members: every member passes its tests, the sizes stay within the limit, and the listed directories are exactly the required ones and the mutable roots |
| `KitArchive.ValidateZipInventory` | scripts/verify_office_live_research_os_kit.py:482-556 | The validation accepts exactly the acceptable archives, and returns their root |
| `KitExtraction.ParentComesFirst` | scripts/verify_office_live_research_os_kit.py:559-581 | In an acceptable archive the parent of every member is listed, as a directory, before it |
| `KitExtraction.AcceptedPlacesApart` | scripts/verify_office_live_research_os_kit.py:482-556 | No place is both a file and a directory exactly when all members have different places |
| `KitExtraction.AcceptedIsExtractable` | scripts/verify_office_live_research_os_kit.py:559-581 | Acceptance gives everything extraction relies on |
| `KitExtraction.ExtractVerifiedZip` | scripts/verify_office_live_research_os_kit.py:559-581 | Extracting an accepted archive in the listed order succeeds exactly when no path is both a file and a directory and the sizes are as listed; the result is then the listed tree, and nothing outside is touched |
| `KitExtraction.ExtractedIsListed` | scripts/verify_office_live_research_os_kit.py:559-581 | The extracted tree holds every member with its content, and nothing else |
| `KitWalk.WalkImmutable` | scripts/verify_office_live_research_os_kit.py:226-256 | The walk outside the mutable roots as two sorted lists of texts |
| `KitWalk.ExtractedInventory` | scripts/verify_office_live_research_os_kit.py:379-466 | Walking the extracted kit finds exactly the listed files and the directories they require |
| `KitWalk.DotArchiveIsAccepted` | scripts/verify_office_live_research_os_kit.py:482-556 | An archive with a file named "." is accepted, although that file and the root are the same path |
| `Publication.Directories.Publish` | scripts/build_installer.py:1292-1361 | For every pattern of failing checks and renames: the candidate returns normally exactly when every step passes, and is then at final with the expected evidence; the rollback fails exactly when the candidate had reached hidden, a later step fails and so does a step of the rollback; every other ending leaves everything as it was; in every state on the way the candidate is at one place |
| `Publication.Directories.Promote` | scripts/build_installer.py:1292-1361 | From hidden to final, with the checks between |
| `Publication.Directories.Restore` | scripts/build_installer.py:1272-1289 | The rollback brings the candidate back to staged exactly when its five steps pass |
| `Publication.OneCopy` | scripts/build_installer.py:1292-1361 | In every recorded state there is exactly one place that holds the candidate |
| `BenchmarkOutputs.WriteBenchmarkOutputs` | scripts/run_office_live_research_os_benchmark.py:2566-2608 | At every state on the way, also during rollback, the JSON file is visible only with its complete sidecar and summary; success means every write and rename worked, all three targets and no temporary file; a rolled-back failure leaves the directory as it was; rollback fails exactly when a name that was visible at the failure cannot be unlinked; an existing target is refused untouched |
| `BenchmarkOutputs.MovingStep` | scripts/run_office_live_research_os_benchmark.py:2566-2608 | Each rename keeps the JSON file last |
| `BenchmarkOutputs.RemoveAll` | scripts/run_office_live_research_os_benchmark.py:2566-2608 | Removing the published and temporary names restores the directory, and succeeds exactly when each of them that is there can be unlinked |
| `ReleaseIntegration.ManifestPartitions` | scripts/verify_release_integration.py:100-133 | The three lists partition the paths changed on either side and record the blobs of all three commits |
| `ReleaseIntegration.ValidateLedger` | scripts/verify_release_integration.py:241-346 | The loops over the ledger accept exactly the complete ones: every shared path resolved once, every adjustment for a branch-only path with the side and blob of its source |
| `ReleaseIntegration.VerifyIntegration` | scripts/verify_release_integration.py:349-460 | The verification returns exactly when the ledger is complete, the merge has the two parents, every branch-only path is fine, no test is lost and no residue is left; it reports the adjusted paths |
| `ReleaseIntegration.VerificationIsExact` | scripts/verify_release_integration.py:349-460 | Every branch-only path is fine exactly when it has its own blob and no adjustment, or the blob of an adjustment for it; the adjusted paths are then those of the ledger and as many |
| `ReleaseIntegration.VerifyMerge` | scripts/verify_release_integration.py:349-460 | For the manifest built from the repository: the merge passes exactly when the ledger is complete, the merge has these two parents, every path that one branch alone has changed since the merge base has that branch's blob and no adjustment or is adjusted from it, no test is lost and no residue is left; the ledger then has an entry for exactly the paths changed on both sides, and the report lists its adjustments and counts the paths of each side and the tests |
| `ReleaseIntegration.AdjustedAreTheAdjustments` | scripts/verify_release_integration.py:349-460 | The adjusted paths are the paths of the adjustments, with multiplicity |
| `Observations.FlattenObservations` | scripts/run_office_live_research_os_benchmark.py:2109-2222 | The nested loops append the five lists in the order of the nested comprehensions |
| `ObservationValidators.ValidateIdentityWaits` | scripts/live_research_os_office_benchmark.py:1032-1053 | Accepts exactly the lists with valid items whose IDs are the expected ones, in order |
| `ObservationValidators.ValidateDecisionWaits` | scripts/live_research_os_office_benchmark.py:1056-1098 | The same for decision waits, with the tests on rounds |
| `ObservationValidators.ValidateComponents` | scripts/live_research_os_office_benchmark.py:1101-1137 | Accepts exactly the lists whose pairs are the sorted expected ones and whose durations are at most those of their parent waits |
| `ObservationValidators.ValidateAcknowledgements` | scripts/live_research_os_office_benchmark.py:1140-1162 | Accepts exactly the lists with valid items whose IDs are the expected ones, in order |
| `ObservationValidators.ValidateResources` | scripts/live_research_os_office_benchmark.py:1187-1222 | Accepts exactly the nonempty sorted lists of valid items that cover both cache states |
| `ObservationIds.DistinctIdentityIds` | scripts/live_research_os_office_benchmark.py:990-998 | For every protocol the expected IDs of identity waits are distinct |
| `ObservationIds.DistinctDecisionIds` | scripts/live_research_os_office_benchmark.py:1001-1017 | The expected IDs of decision waits are distinct |
| `ObservationIds.DistinctAckIds` | scripts/live_research_os_office_benchmark.py:1020-1029 | The expected IDs of acknowledgements are distinct |
| `OfficeContract.OfficeIsValid` | scripts/run_office_live_research_os_benchmark.py:1161-1186 | The profiles, actions and component names of the office benchmark meet the hypotheses of the theorems |
| `ComponentTheorems.PlacedNames` | scripts/run_office_live_research_os_benchmark.py:1161-1186 | The component names of a scenario, placed under its waits, are the pairs the validator expects of those waits |
| `ProducerMeetsValidator.ComponentsAccepted` | scripts/live_research_os_office_benchmark.py:1101-1137 | The sorted components of a full family pass: pairs, order, and the bound by the parent wait |
| `ProducerMeetsValidator.FlattenedIsAccepted` | scripts/run_office_live_research_os_benchmark.py:2109-2222 | For every protocol and every full family of valid observations the flattened lists pass all five validators, and every lookup on the way succeeds |
| `Percentiles.NearestRankIsP95` | scripts/live_research_os_office_benchmark.py:803-816 | The nearest-rank value is the least sample with at least ceil(19n/20) samples not above it |
| `Percentiles.P95Margin` | scripts/live_research_os_office_benchmark.py:803-816 | It is at most v exactly when the samples up to v outweigh the larger ones 19 to 1 |
| `Percentiles.MergeLaw` | scripts/live_research_os_office_benchmark.py:803-816 | The p95 of a list divided into strata lies between the least and the greatest p95 of the strata |
| `Evaluations.Evaluate` | scripts/live_research_os_office_benchmark.py:1361-1523 | The evaluation in its stages, stopping at the first row that cannot be built, is the specified one |
| `Evaluations.EvaluateRows` | scripts/live_research_os_office_benchmark.py:1361-1523 | The four loops build the rows of all questions in order |
| `EvaluationTheorems.RowAnswers` | scripts/live_research_os_office_benchmark.py:1338-1358 | A row counts the samples of its question and holds their p95, their maximum and the comparison with the limit |
| `EvaluationTheorems.AggregateBetweenProfiles` | scripts/live_research_os_office_benchmark.py:1361-1474 | Each all-profile row lies between two profile rows of the same stage and cache state, and fails only if a profile row fails |
| `EvaluationTheorems.ProfileBetweenRounds` | scripts/live_research_os_office_benchmark.py:1361-1474 | Each later-decision profile row lies between two of its round rows, and fails only if a round row fails |
| `EvaluationTheorems.EvaluatedResult` | scripts/live_research_os_office_benchmark.py:1361-1474 | Whenever an evaluation returns, both laws apply to its rows |
| `Verdicts.PassMeans` | scripts/live_research_os_office_benchmark.py:1475-1523 | The evaluation says pass exactly when every row is within its limit, all execution conditions hold, and no error is recorded |
| `Verdicts.ReturnsExactlyWhen` | scripts/live_research_os_office_benchmark.py:1361-1523 | The evaluation returns exactly when the result is valid, every stratum has between one and 2^53-1 samples, and its limit in nanoseconds is between one and 2^53-1 |
| `Records.RecordFaithful` | scripts/live_research_os_office_benchmark.py:1526-1572 | A reader with an exact field set and strict scalar types gives back every written record, in any key order, and whatever it accepts is a writing up to the order of keys |
| `ResultJson.EvaluationFaithful` | scripts/live_research_os_office_benchmark.py:1526-1572 | The mapping of an evaluation is read back as that evaluation, and every mapping that can be read, field sets and types included, is the writing of the evaluation read, up to the order of keys |
| `ResultJson.BaseReadsBack` | scripts/live_research_os_office_benchmark.py:1256-1335 | The mapping of an unsealed result is read back as the protocol, conditions, five lists and error codes that were written |
| `ResultJson.BaseSorted` | scripts/live_research_os_office_benchmark.py:1256-1335 | What is read of an unsealed result does not depend on the order of keys at any depth |
| `Sealing.StoredExactlyWhenWritten` | scripts/live_research_os_office_benchmark.py:1526-1572 | A stored evaluation is accepted as equal to the recomputed one exactly when it is its writing, up to the order of keys |
| `Sealing.AcceptedIsSealed` | scripts/live_research_os_office_benchmark.py:1591-1620 | A result with evaluation and hash is accepted exactly when it is, up to the order of keys, what sealing its base gives: evaluation and hash cannot be altered |
| `Sealing.SealedResultIsAccepted` | scripts/live_research_os_office_benchmark.py:1575-1588 | Every sealed result has all fields, is accepted, and its base is the one that was sealed |
| `Sealing.AcceptedVerdict` | scripts/live_research_os_office_benchmark.py:1591-1620 | The verdict stored in an accepted result is the recomputed one: pass exactly when every row is within its limit, the conditions hold and no error is recorded |
| `EncodableResults.SealsExactlyWhen` | scripts/live_research_os_office_benchmark.py:1575-1588 | Sealing succeeds exactly when the values pass their tests, the evaluation returns, and the values that the evaluation does not use are canonical JSON; everything else can always be encoded |
| `ProducedResults.ProducedEvaluates` | scripts/run_office_live_research_os_benchmark.py:2502-2563 | The result of a full family of observations can be evaluated |
| `ReturnedRuns.ReadResult` | scripts/verify_office_live_research_os_kit.py:657-677 | Strict parsing, canonical bytes and the hash accept exactly the byte strings that are the text of some sealed result, and give its base |
| `ReturnedRuns.VerifyReturnedResultBytes` | scripts/verify_office_live_research_os_kit.py:690-756 | For arbitrary bytes: the files are accepted exactly when they are what a run of this kit on a valid machine writes for some base; the verdict is then recomputed from that base, a pass exactly when every row is within its limit and no error is recorded; and which reason means what |
| `ReturnedRuns.CheckBase` | scripts/verify_office_live_research_os_kit.py:728-756 | On an accepted text the tests on name, kit, conditions and summary refuse exactly what is not written for its base, with the reason of the test that fails |
| `ReturnedRuns.TextDeterminesBase` | scripts/verify_office_live_research_os_kit.py:657-677 | Two bases with the same text are the same, up to the order of keys |
| `ReturnedRuns.GenuineIsDetermined` | scripts/verify_office_live_research_os_kit.py:690-756 | Two accepted sets of files are identical exactly when their bases are the same up to the order of keys: no byte of them can be altered |
| `ReturnedRuns.WrittenIsGenuine` | scripts/run_office_live_research_os_benchmark.py:2566-2580 | Every sealed result can be written, and what is written is accepted exactly when the result names the kit, its conditions are valid and its text has at most 16 MiB |
| `ReturnedFiles.VerifyReturnedResult` | scripts/verify_office_live_research_os_kit.py:759-791 | For three arbitrary locations: verification accepts exactly when they are the three names the writer gives to a result, in one directory, and that directory holds under them the bytes that a run of this kit on a valid machine writes for some base, with a summary of 1 byte to 16 MiB; the verdict is recomputed from that base; files that are missing, empty, too long or misnamed are an invalid file set |
| `ReturnedFiles.ReadsWhatIsWritten` | scripts/verify_office_live_research_os_kit.py:768-784 | What is read under the names that verification derives from the JSON file, by its stem, are the files written under the names of the writer, and nothing else is read |
| `ReturnedFiles.Write` | scripts/run_office_live_research_os_benchmark.py:2566-2608 | Writing a result into a directory: in every state its JSON name is visible only with the other two files complete; published means that exactly the three files were added |
| `Spans.SpansAreCounted` | scripts/run_office_live_research_os_benchmark.py:1323-1375 | Recorded spans are the ended ones and open spans are begins less ends, over any sequence of stages |
| `SpanStops.ExecStops` | scripts/run_office_live_research_os_benchmark.py:1357-1375 | With an increasing timer a script of stages runs to its end exactly when no stage is the poisoned one and, for every span, begins and ends alternate from whether it is open; a span is open at the end exactly when its begins outnumber its ends from where it stood |
| `SpanStops.ScenarioStops` | scripts/run_office_live_research_os_benchmark.py:1378-1569 | A scenario that starts with no open span comes to its end exactly when in each of its waits no stage is the poisoned one and every span is begun and ended in turn |
| `Spans.WaitBounds` | scripts/run_office_live_research_os_benchmark.py:1222-1238 | With a non-decreasing timer, whatever is recorded inside a wait has a positive duration of at most that of the wait, if every span of its prefix open at its first reading was begun no earlier |
| `Spans.FitsExactlyWhen` | scripts/run_office_live_research_os_benchmark.py:1222-1238 | For every state, prefix and non-decreasing timer: all well-named scripts, however the timer goes on, fit their wait if and only if every open span of the prefix was begun at or after the first reading of the wait |
| `Spans.ScenarioWithinWaits` | scripts/run_office_live_research_os_benchmark.py:347-361 | The test on parents in the observation cannot fail for a scenario that begins with no open span, which is how the hook is constructed |
| `Spans.EarlyBeginIsRefused` | scripts/run_office_live_research_os_benchmark.py:347-361 | The condition is needed: a hook that is called once before the initial wait, with a timer that moves on before it, records a span that exceeds the wait |
| `SpanHook.ProductSpanHook.Call` | scripts/run_office_live_research_os_benchmark.py:1357-1375 | The hook object changes its fields as specified, or raises |
| `SpanHook.ProductSpanHook.MeasureWait` | scripts/run_office_live_research_os_benchmark.py:1378-1569 | One wait of a scenario, from timer reading to timer reading |
| `SpanHook.ProductSpanHook.RunScenario` | scripts/run_office_live_research_os_benchmark.py:1378-1569 | The waits of a scenario one after the other give the specified state and durations |
| `SpanHook.ScriptsAreWellNamed` | scripts/run_office_live_research_os_benchmark.py:1378-1569 | The timed components of a scenario carry the prefix of the wait they run in |
| `RunTasks.ChildIdIsUnique` | scripts/run_office_live_research_os_benchmark.py:2364-2418 | Different tasks of a run have different child IDs |
| `RunTasks.ChildIdIsAccepted` | scripts/run_office_live_research_os_benchmark.py:844-862 | Every child ID of a run is accepted when its root is prepared |
| `RunTasks.OfficeNamesAreShort` | scripts/run_office_live_research_os_benchmark.py:844-862 | The profile names of the office benchmark meet the hypothesis on their length |
| `RunAuthority.FreshAuthority` | scripts/run_office_live_research_os_benchmark.py:2473-2483 | Collecting the digests of all scenarios, in whatever order the dictionary is visited, and counting them: the counts agree exactly when no digest occurs twice |
| `RunLifecycle.CompleteRun.Create` | scripts/run_office_live_research_os_benchmark.py:844-862 | Preparing the root of a new task never meets an existing one; it touches the disk only, not the list for cleanup |
| `RunLifecycle.WarmReportIs` | scripts/run_office_live_research_os_benchmark.py:2043-2057 | Under the inventory test every warm report carries the child ID and the profile of its task, in order, and is the observation of that task |
| `RunLifecycle.CompleteRun.CollectReport` | scripts/run_office_live_research_os_benchmark.py:2446-2471 | One warm report is collected, filed, and listed for cleanup when it has a profile |
| `RunLifecycle.CompleteRun.Cleanup` | scripts/run_office_live_research_os_benchmark.py:2069-2106 | Cleanup succeeds exactly when the list names the roots on disk, each once; the run root is then gone |
| `RunLifecycle.CompleteRun.Gather` | scripts/run_office_live_research_os_benchmark.py:2334-2488 | The loops up to the flattening come to their end exactly when every cold child and every warm iteration, the warm-up included, reports completely and validly and no authority digest of a measured scenario occurs twice; then the roots on disk are those of the planned tasks that have one, created by the run or by the warm runner, the list for cleanup holds each of them once, and both dictionaries are total and hold what was observed |
| `RunTasks.RootsOfRun` | scripts/run_office_live_research_os_benchmark.py:2364-2471 | The child roots of a whole run are those of the planned tasks, without the identity tasks of warm iterations |
| `RunLifecycle.AllMeasured` | scripts/run_office_live_research_os_benchmark.py:2109-2222 | Every lookup of the flattening finds the observation of its task |
| `RunLifecycle.GoodObservation` | scripts/run_office_live_research_os_benchmark.py:1996-2040 | What a good run has observed for a planned task is valid, of its cache state and profile, and, without a profile, has all acknowledgements |
| `CompleteBenchmarks.RunGivesFamily` | scripts/run_office_live_research_os_benchmark.py:2348-2471 | What a good run files is a full family of valid observations, provided its measurements are within 2^53-1 |
| `CompleteBenchmarks.SealAround` | scripts/run_office_live_research_os_benchmark.py:2541-2563 | The result is sealed before the cleanup, after it and at the end: it comes out exactly when it can be sealed each time; if the provisional result cannot be sealed every child root stays on disk, and otherwise none does, whatever comes after |
| `CompleteBenchmarks.RunAndSeal` | scripts/run_office_live_research_os_benchmark.py:2334-2563 | A complete benchmark returns exactly when every child reports well, no authority is reused and the result flattened out of what was observed can be sealed three times; when the provisional result cannot be sealed all child roots of the run are left on disk, and otherwise nothing is; a run within the numbers of the format has a valid result that can be evaluated |
| `EndToEnd.BenchmarkAndVerify` | scripts/run_office_live_research_os_benchmark.py:2334-2608 | One run from the first child to the verified return. Files come out exactly when every child reports well, no authority is reused and the result can be sealed each time, and the child roots that are left are stated for both endings. The files are written into the output directory: in every state of it the JSON file is visible only beside its complete sidecar and summary, and all three are published exactly when no name was taken and no write or rename fails. Verification of what the directory then holds recomputes the evaluation of the flattened observations, passes exactly when every row is within its limit, and refuses exactly files of another kit, from an invalid machine, or too long to be read |

## Left out

- `Planner.IndependentOracle.Policy`: facts are reduced to two states, unknown and confirmed by the user, and the state digest is assumed injective; question costs have no dependency deficit in this oracle, as in the code.
- `GameTheorems.PlanIsOptimal`: is about policies that ask a question of a current blocker; `batch_form` does not and ignores the stop condition, and the production planner and the cap of `oracle_policy` at budget 3 are not part of this model.
- `ToyBenchmark.NoRivalBeatsTheOracle`: the impact numbers of the severity-impact rule are a parameter, so the result holds for any of them; reports, search-work counters and performance figures are left out.
- `JsonTheorems.AcceptedExactlyWhenPrinted`: texts are sequences of Unicode scalar values, so an escaped lone surrogate is refused while scanning, one step before the code refuses it; the recursion limit of the parser is not modelled.
- `ManifestTheorems.ManifestRoundTrip`: normalisation form C is an uninterpreted test on text with the hypothesis that ASCII text passes it.
- `Inventories.InventoryTree`: the checks for links and reparse points and for a file that changes while it is hashed are reduced to the kinds of nodes.
- `CopyTree.CopyInventoryTree`: link, junction and identity rechecks are not modelled here; for a destination inside the source only the frame is stated.
- `FrozenInputs.FreezeReleaseInputs`: the evidence taken before is a parameter, the snapshot is apart from its sources, and link and path-safety rechecks are not modelled.
- `StateRemoval.RemoveUserState`: the rechecks of links and identities are answers given for each entry, before and after it is touched.
- `KitArchive.ValidateZipInventory`: the contamination rule and the CRC test of the archive are parameters; case folding is that of ASCII text.
- `Publication.Directories.Publish`: a rename happens or raises without change, and nobody else writes; link and ancestry checks are reduced to pass or fail.
- `BenchmarkOutputs.WriteBenchmarkOutputs`: `os.replace` happens or raises without change, a failing write leaves an arbitrary temporary file, and the random token is new; file system flushing is not modelled.
- `ReleaseIntegration.VerifyIntegration`: the queries to Git are functions, so rename detection and failing commands are not modelled; the constant and empty fields of the report are left out.
- `ReleaseIntegration.ValidateLedger`: the JSON typing and the schema tests of the ledger are reduced to flags of its entries.
- `Percentiles.NearestRankIsP95`: `math.ceil(0.95 * n)` is the exact ceiling of 19n/20.
- `ProducerMeetsValidator.FlattenedIsAccepted`: durations are assumed to be at most 2^53-1, which the observation does not check and the result does; the tests of an observation on identities, outputs and the form of digests are reduced to one flag.
- `ProducedResults.ProducedEvaluates`: assumes at most 2^53-1 samples and at least one round for every profile.
- `Sealing.AcceptedIsSealed`: SHA-256 is an uninterpreted function into hexadecimal digests; the tests on values that the evaluation does not use (hardware, fixture, overheads, stress check, protocol digest, dates, privacy scan) are one test on the result that does not see the order of keys.
- `ReturnedRuns.VerifyReturnedResultBytes`: the wording of the summary is a parameter, a function of run ID, source commit, protocol digest and evaluation; the digest of the kit identity is given.
- `ReturnedFiles.VerifyReturnedResult`: links, reparse points and failing reads are reduced to which files there are.
- `ReturnedRuns.WrittenIsGenuine`: the limits of Python on recursion and on digits of an integer are not modelled; both only refuse text that is not canonical.
- `Spans.ScenarioWithinWaits`: hook stages fired after the last wait, as during recovery, are outside the scripts.
- `SpanHook.ProductSpanHook.RunScenario`: takes the number of later waits as given; the loop on the action of the product's record, its tests on round counts and the recovery after a stop are left out.
- `RunLifecycle.CompleteRun.Cleanup`: the markers, the test for the `LocalAppData` directory and the contents of child roots are left out, and a missing root is an error, as with the real warm runner.
- `RunLifecycle.CompleteRun.Gather`: quarantine, collection hooks, the reuse of nonces, and the run ID and source commit carried by an observation are not modelled; the overheads of a report are reduced to whether it carries them, and the intended capability and step to one flag.
- `CompleteBenchmarks.RunAndSeal`: the timer may read anything, so the values that differ between the three sealings, the overheads, are parameters; the stress check is one of them.
- `EndToEnd.BenchmarkAndVerify`: the handling of failures by the command line around the run is not modelled.
- Clocks, UUIDs, subprocesses, Windows calls, the registry, installer builds and measuring are foreign calls without visible logic.
- `parse_package_lock`, the kit identity and the older copies of builder, runner and verifier would only repeat these proofs.
