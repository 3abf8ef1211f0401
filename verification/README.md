# Verification of the evaluation harness, the assessor and the deterministic policies

A Dafny model of five parts of the repository, with proofs about whole runs and about every input.

1. **The execution journal and its checker** (`Journal`, `JournalWriter`, `JournalChecker`, `JournalMeaning`, `JournalRuns`).
   Concurrent workers append operations, attempts, retries and traces to one numbered journal; a replay accepts or rejects
   the file and counts its outcomes. Every interleaving is accepted as partial, and as complete when everything in it went
   well; acceptance has a declarative meaning, and a run sealed as completed is one the later capture check accepts with the
   same counts.
2. **Paired-run stages and their measurement** (`PairStages`, `PairReceipts`, `AttemptMeasurement`, `AttemptLaws`).
   Attempt directories are made by racing Begin commands, whose looks at the receipt, the failure, the owner and the native
   process are separate steps, while owners may die at any step. Interval measurement is a sweep over sorted end points.
3. **The assessor** (`ContextAllocator`, `Boundaries`, `EvidenceConflicts`, `Assessment`, `ResponseChecks`,
   `RelationshipChecks`, `ResponseContract`, `AcceptedResponse`, `ResponseReading`). A greedy allocator under two budgets,
   markers around every code point and their resolver, and the validator of a complete response: it accepts exactly the
   responses its predicates describe, an accepted response meets a contract stated over the submission, and every field and
   offset of it is read from its own place in the answer.
4. **Fan-out code that must agree with its simple form** (`KnowledgeMapping`, `CorpusImport`, `ImportRuns`, `Embedding`,
   `AuditExport`). Concurrent import against sequential import, chunked embedding with one retry budget, and audit pages
   against the whole log.
5. **Decision and scoring rules** (`ConflictPolicy`, `OrganizationScore`).

`Text`, `Sums`, `Distinct` and `Options` hold what the parts share. Methods follow the loops and branches of the code and are
proved against declarative predicates or specification functions; lemmas say what those mean. Every lemma turns Dafny's automatic
induction off, so each inductive proof shows its own recursive call.

## What the proofs found

- A Begin looks at the receipt, then the failure, then the owner. An owner that records an outcome after Begin has looked for it
  and is gone before Begin looks at the owner is overtaken: Begin makes another attempt after a finished or failed one.
  `PairStages.EveryOrderlyRunIsSafe` proves every guarantee for runs without such a step, and `PairStages.OvertakingBreaks`
  proves that one such step is enough to lose it; `PairStages.SafeExactlyWhenOrderly` makes this exact, and
  `PairStages.OvertakingHappens` gives the runs from an empty stage. Capture and score are not affected.
- `latestPairStage` takes the last directory name. It is the newest attempt up to number 9999 and is not from 10000 on
  (`PairReceipts.LastNameIsNewest`, exact for numbers below 99990).
- An admitted conversation stays within the input budget on every turn exactly when the admitted request has a token or the repair
  headroom itself fits (`ContextAllocator.AdmittedConversationFits`, with a concrete failing budget).
- A walk over audit pages ends exactly when every entry fits an empty page; before a larger one the cursor never moves
  (`AuditExport.WalkEndsExactly`).
- The journal checker does not require an attempt to finish before its operation does, so no proof claims full nesting.

## Model

| member | source | states |
|---|---|---|
| JournalWriter.ExecutionJournal.constructor | internal/evalharness/measurements.go:145-205 | a new journal holds just the numbered run start |
| JournalWriter.ExecutionJournal.Append | internal/evalharness/measurements.go:207-260 | sequence numbers stay gap-free even when a write fails, after which nothing more is written; succeeds exactly while no append has failed |
| JournalWriter.ExecutionJournal.AllocateOperation | internal/evalharness/measurements.go:262-283 | an operation id that no operation or attempt was ever given; the query phase is the first query exactly for the first recall, and setup exactly for what is no recall |
| JournalWriter.ExecutionJournal.AllocateAttempt | internal/evalharness/measurements.go:336-353 | an attempt id that no operation or attempt was ever given, from the same counter |
| JournalWriter.ExecutionJournal.Finish | internal/evalharness/measurements.go:408-449 | a run sealed as completed is accepted by the later capture check with the recorded counts; completed exactly when nothing failed and the journal with its end is acceptable |
| JournalWriter.ValidateCapture | internal/evalharness/measurement_validation.go:247-257 | accepts exactly complete journals whose recount equals the stored counts |
| JournalRuns.NextKeeps | internal/evalharness/measurements.go:207-406 | every atomic step of any worker keeps the journal legal and every worker's view of it true |
| JournalRuns.EveryRunIsAccepted | internal/evalharness/measurements.go:207-406 | in every interleaving, with any number of calls and retries in an operation and wherever an append fails, the journal is numbered 1..k and accepted as partial |
| JournalRuns.GoodRunIsComplete | internal/evalharness/measurements.go:207-449 | in every interleaving, a run in which every planned item was taken, every worker did well and no append failed leaves a journal accepted as complete |
| JournalChecker.StepAcceptsLegal | internal/evalharness/measurement_validation.go:38-107 | the replay accepts a record exactly when it is legal after its past |
| JournalChecker.StepTracks | internal/evalharness/measurement_validation.go:38-107 | the replay maps always describe the records read |
| JournalChecker.CollectPlanned | internal/evalharness/measurement_validation.go:24-34 | accepts exactly distinct non-empty planned ids, and collects them |
| JournalChecker.Replay | internal/evalharness/measurement_validation.go:38-107 | reads to the end exactly when every record is stamped and legal and the run end, if complete is asked for, says completed |
| JournalChecker.TallyOperations | internal/evalharness/measurement_validation.go:108-123 | counts each operation once under its kind and outcome; fails exactly when completeness is asked for and one is not complete |
| JournalChecker.TallyAttempts | internal/evalharness/measurement_validation.go:108-143 | counts each attempt once under its outcome; fails exactly on an unfinished one when complete |
| JournalChecker.CountUndispatched | internal/evalharness/measurement_validation.go:108-143 | counts the planned work never started; fails exactly when complete and some is left |
| JournalChecker.TallyIsExpected | internal/evalharness/measurement_validation.go:108-143 | the counts are how many operations, attempts and undispatched items the journal itself has in each state |
| JournalChecker.ExecutionOutcomes | internal/evalharness/measurement_validation.go:23-143 | accepts exactly the acceptable journals; the counts are the journal's, and add up to operations, attempts and undispatched work |
| Journal.AcceptancePrefix | internal/evalharness/measurement_validation.go:38-143 | partial acceptance is closed under prefixes |
| JournalMeaning.PlannedWorkDoneOnce | internal/evalharness/measurement_validation.go:38-143 | in a complete journal each planned import and each planned recall was started once and later finished once as completed, or reused for imports |
| JournalMeaning.NextStartAccepted | internal/evalharness/measurement_validation.go:38-63 | a started operation is accepted next exactly when its id is new and it is a setup, or a planned import or recall not started before |
| JournalMeaning.CompleteExactly | internal/evalharness/measurement_validation.go:38-143 | a journal is accepted as complete exactly when it is accepted as partial, ends with a completed run, every planned import and recall was started, and every operation, attempt and trace is there |
| JournalMeaning.AttemptInsideOperation | internal/evalharness/measurement_validation.go:38-143 | every attempt started inside its open operation and finished at most once, exactly once when complete |
| JournalMeaning.RecallTracedOnce | internal/evalharness/measurement_validation.go:38-143 | each planned recall has exactly one trace, saved after its finish |
| JournalMeaning.RunEndsOnce | internal/evalharness/measurement_validation.go:38-143 | the run end is the single last record and says completed |
| JournalMeaning.StartsHaveDistinctIds | internal/evalharness/measurement_validation.go:52-80 | operations and attempts started are as many as their ids |
| JournalMeaning.TallyIsUnique | internal/evalharness/measurement_validation.go:108-143 | one journal has one tally |
| JournalMeaning.TallyIgnoresTheEnd | internal/evalharness/measurements.go:408-449 | recording the run end changes no count |
| PairStages.StepKeeps | internal/evalharness/paired_receipts.go:70-242 | every orderly step of a Begin, an owner or the outside keeps the stage invariant |
| PairStages.EveryOrderlyRunIsSafe | internal/evalharness/paired_receipts.go:70-242 | attempts are numbered 1..n, only the newest can have a live owner, no failed or receipted attempt is followed by another, no recorded native process of an older one runs, capture and score have at most one |
| PairStages.OutcomeIsFinal | internal/evalharness/paired_receipts.go:107-195 | after a receipt or a failure no attempt follows, and a later Begin returns only the receipted attempt and never a failed one |
| PairStages.UnchangedReceiptIsReused | internal/evalharness/paired_receipts.go:107-121 | a new Begin on an unchanged receipted attempt returns it as reused |
| PairStages.OvertakingBreaks | internal/evalharness/paired_receipts.go:113-133 | one outcome recorded between the looks of a Begin leads, by orderly steps, to a finished or failed attempt being followed by another |
| PairStages.OvertakingHappens | internal/evalharness/paired_receipts.go:107-195 | in every restartable stage a concrete run from the start, with a finish or with a failure, ends with a second attempt beside the finished or failed one |
| PairStages.SafeExactlyWhenOrderly | internal/evalharness/paired_receipts.go:70-242 | in a sound state a step is orderly exactly when every orderly run after it stays safe |
| PairReceipts.StageStore.Begin | internal/evalharness/paired_receipts.go:70-195 | run alone on an empty stage, Begin makes attempt 1 with its intent; on a proven newest attempt with valid outputs it returns that one; on a stopped one it marks it interrupted and makes the next, or in capture and score finishes it if its outputs are valid; anything else, and any entry that is no attempt, is refused and nothing changes; in every case it is one run of the stage steps |
| PairReceipts.StageStore.Inspect | internal/evalharness/paired_receipts.go:107-159 | the checks of the newest attempt are the inspecting steps in their order |
| PairReceipts.StageStore.MakeAttempt | internal/evalharness/paired_receipts.go:160-172 | making the directory is refused if it exists, and otherwise the new attempt holds just its intent and is returned |
| PairReceipts.FinishIsOnce | internal/evalharness/paired_receipts.go:197-242 | a finish succeeds exactly on valid outputs of a proven attempt or of one of this configuration without an outcome, and leaves a receipt that verifies; finishing again changes nothing and succeeds exactly for the same configuration and valid outputs; a refused finish changes nothing |
| PairReceipts.FinishThenVerify | internal/evalharness/paired_receipts.go:244-275 | a receipt verifies exactly while configuration and artifacts are those it was written for |
| PairReceipts.FailureIsFinal | internal/evalharness/paired_report.go:345-351 | after a failure no finish succeeds or writes a receipt, and a receipt already there no longer verifies |
| PairReceipts.ScanAttempts | internal/evalharness/paired_receipts.go:94-106 | finds the highest number, and fails exactly on an entry that is no attempt |
| PairReceipts.NameParses | internal/evalharness/paired_receipts.go:94-109 | an attempt number is read back from its directory name |
| PairReceipts.LastNameIsNewest | internal/evalharness/paired_report.go:160-174 | below 99990 attempts the last name in the listing is the newest attempt exactly when there are at most 9999 |
| AttemptMeasurement.SortEvents | internal/evalharness/paired_state.go:345-352 | the events are some sorted permutation |
| AttemptMeasurement.Sweep | internal/evalharness/paired_state.go:345-371 | over any sorted permutation of the end points: maximum overlap, covered length and span |
| AttemptMeasurement.SpanOfEvents | internal/evalharness/paired_state.go:353-371 | last minus first event is latest end minus earliest start |
| AttemptMeasurement.MeasurePairAttempts | internal/evalharness/paired_state.go:310-371 | accepts exactly valid receipts with distinct keys; overlap is the maximum over instants, covered time the length of the union |
| AttemptLaws.MeasuredBounds | internal/evalharness/paired_state.go:310-371 | covered <= span and covered <= attempt time <= overlap * covered |
| AttemptLaws.CountsExactly | internal/evalharness/paired_state.go:310-345 | each count is the number of receipts of its kind, token totals are the sums, and intervals are available when no receipt is unfinished or invalid |
| AttemptLaws.KeysIdentify | internal/evalharness/paired_state.go:317-320 | for identities without a slash two receipts have the same key exactly when they are of the same attempt |
| AttemptLaws.OrderDoesNotMatter | internal/evalharness/paired_state.go:310-371 | no measured number depends on input order or sort ties |
| AttemptLaws.SplitByWindow | internal/evalharness/paired_report.go:213-227 | each window holds exactly its attempts, in order |
| AttemptLaws.WindowsConserve | internal/evalharness/paired_report.go:213-227 | every count and token total is the sum over windows |
| AttemptLaws.WindowReceiptsValid | internal/evalharness/paired_report.go:213-227 | each window measures without error when the whole does |
| AttemptLaws.WindowsAvailable | internal/evalharness/paired_report.go:213-227 | the whole has intervals exactly when every window has |
| AttemptLaws.WindowOverlapBounds | internal/evalharness/paired_report.go:213-227 | each window's overlap <= the whole's <= the sum of the windows' |
| ContextAllocator.AdmittedConversationFits | internal/assessor/assessor_budget.go:276-284 | every turn of an admitted conversation fits the input budget exactly when the request has a token or the headroom fits |
| ContextAllocator.EmptyRequestCanOverflow | internal/assessor/assessor_budget.go:276-284 | a concrete budget where an empty admitted request outgrows it |
| ContextAllocator.SortGroups | internal/assessor/assessor_budget.go:159-172 | the groups are a permutation ordered by submitted evidence index, then id |
| ContextAllocator.NumberedEvidence | internal/assessor/assessor_budget.go:436-444 | the index in an evidence id is the number after its prefix |
| ContextAllocator.SplitPredicates | internal/assessor/assessor_budget.go:173-195 | mandatory and optional predicates in their order |
| ContextAllocator.WithKeysSplits | internal/assessor/assessor_budget.go:173-195 | mandatory and optional together are the offered predicates |
| ContextAllocator.MandatoryExactly | internal/assessor/assessor_budget.go:165-195 | a predicate is mandatory exactly when its key is one that a submitted relationship names |
| ContextAllocator.AssessmentRequest.TryPredicate | internal/assessor/assessor_budget.go:229-274 | a predicate is kept exactly if both counts stay in budget beside those kept before it, else omitted and counted; it stops exactly when that count fails |
| ContextAllocator.AssessmentRequest.TryCandidate | internal/assessor/assessor_budget.go:229-274 | the same for one candidate of one group |
| ContextAllocator.AssessmentRequest.Round | internal/assessor/assessor_budget.go:229-274 | one round tries the next item of every list, and stops only at an item whose count fails beside those kept before it |
| ContextAllocator.AssessmentRequest.Rounds | internal/assessor/assessor_budget.go:229-274 | after all rounds every optional item has been tried exactly once; they stop only at an item whose count fails beside those kept before it |
| ContextAllocator.AssessmentRequest.Allocate | internal/assessor/assessor_budget.go:153-274 | keeps mandatory predicates, all groups and list order, keeps both counts in budget, and keeps each optional item exactly if it fits beside those kept before it; too large exactly when the request without options does not fit; the count failed exactly when it fails on that request or, it fitting, on the first item in order that cannot be counted; with a count for every selection it succeeds exactly when the request without options fits |
| ContextAllocator.AllocationIsUnique | internal/assessor/assessor_budget.go:229-274 | the offer alone determines which items are kept |
| ContextAllocator.AllocationIsMaximal | internal/assessor/assessor_budget.go:229-274 | for a monotone count no omitted item fits beside the final kept set |
| ContextAllocator.KeptPlusOmitted | internal/assessor/assessor_budget.go:229-274 | what the request holds is what was kept, list by list |
| ContextAllocator.ValidateLimits | internal/assessor/assessor_budget.go:318-344 | accepts a minimum request with tokens exactly when its context fits and every turn of every conversation it starts stays within the input budget |
| ContextAllocator.AdmitMinimumRequest | internal/assessor/assessor_budget.go:132-147 | limits accepted at startup, and only those, let the allocator admit the minimum request |
| Boundaries.PrefixesFound | internal/assessor/assessor_boundaries.go:35-43 | a content cannot contain more distinct prefixes than it has code points |
| Boundaries.BoundaryPrefix | internal/assessor/assessor_boundaries.go:35-43 | the search takes the first absent prefix, within content length + 1 salts |
| Boundaries.PrepareEvidence | internal/assessor/assessor_boundaries.go:13-33 | the text has a marker around every code point and the reference map names each offset once |
| Boundaries.RefsAndOffsetsAreInverse | internal/assessor/assessor_boundaries.go:45-69 | references exist exactly for offsets 0..n and the two lookups are inverse |
| Boundaries.ErasedSelectionIsSpan | internal/assessor/assessor_submission_contract.go:576-601 | erasing markers between two references gives exactly the evidence span of their offsets |
| Boundaries.ErasedTextIsContent | internal/assessor/assessor_boundaries.go:13-33 | erasing every marker gives the content back |
| EvidenceConflicts.CitableEvidence | internal/assessor/conflict_validation.go:16-67 | exactly submitted, known and candidate evidence is citable, each in its role |
| EvidenceConflicts.ResolvePositions | internal/assessor/conflict_validation.go:88-140 | resolves every position in place, or finds a repeat or an unresolvable one |
| EvidenceConflicts.ResolvedExactly | internal/assessor/conflict_validation.go:88-140 | a position resolves exactly when its fields are trimmed, its evidence is citable and both references are known there, in order and within the quote bound; it keeps its fields and gets the offsets of its own references |
| EvidenceConflicts.CheckResult | internal/assessor/conflict_validation.go:82-176 | accepts exactly clean results |
| EvidenceConflicts.CaseKeyIsUnique | internal/assessor/conflict_validation.go:165-176 | the key of a case depends only on which places it cites |
| EvidenceConflicts.ResolveConflictResults | internal/assessor/conflict_validation.go:69-182 | accepts exactly lists of clean results about different cases |
| EvidenceConflicts.AcceptedResultIsFounded | internal/assessor/conflict_validation.go:82-176 | an accepted result has distinct in-range places, one on submitted evidence; a candidate stands beside an item it was offered to and is the chosen duplicate of none |
| EvidenceConflicts.PositionsReadTheAnswer | internal/assessor/conflict_validation.go:82-182 | every position of an accepted result keeps the evidence and references given at its place and lies at the offsets of those references |
| EvidenceConflicts.AcceptedCasesDiffer | internal/assessor/conflict_validation.go:165-182 | no two accepted results cite the same set of places |
| Assessment.SpanKeyIsUnambiguous | internal/assessor/assessor_response_validation_helpers.go:230-232 | the formatted span key names one span, whatever the evidence id contains |
| Assessment.LastEvidenceById | internal/assessor/semantic_shared.go:59-65 | a lookup finds the last item of that trimmed id, if there is one |
| Assessment.KnownEvidenceWins | internal/assessor/semantic_shared.go:67-73 | the evidence of a response is all submitted and known evidence, and known evidence hides submitted evidence of the same id |
| ResponseChecks.CheckSignals | internal/assessor/assessor.go:767-796 | accepts exactly bounded lists of distinct signals of known kinds on real spans that match their kind |
| ResponseChecks.CheckSecurity | internal/assessor/assessor.go:744-808 | accepts exactly one clean result per evidence item, rejecting exactly with signals |
| ResponseChecks.CollectGroups | internal/assessor/equivalence_validation.go:107-140 | accepts exactly distinct named groups of bounded distinct candidates |
| ResponseChecks.CheckEquivalence | internal/assessor/equivalence_validation.go:103-188 | accepts exactly one allowlisted choice per group |
| ResponseChecks.AllowsUngroundedReuse | internal/assessor/assessor_submission_contract.go:771-812 | holds exactly for a pinned entity used only by relationships with a single, unsupported result |
| ResponseChecks.CheckEntities | internal/assessor/assessor.go:810-915 | accepts exactly distinct clean results whose shared spans are one logical entity, and writes exact surfaces |
| RelationshipChecks.CheckEvidence | internal/assessor/assessor_response_validation_helpers.go:110-133 | accepts exactly 1 to 20 distinct spans inside known evidence |
| RelationshipChecks.CheckRelationships | internal/assessor/assessor.go:917-990 | accepts exactly distinct results with a clean disposition and clean splits |
| RelationshipChecks.CheckRequiredSplit | internal/assessor/assessor_response_validation_helpers.go:37-76 | stopping at the first match is right: holds exactly when submitted evidence, or an exact span where none is listed, is used |
| RelationshipChecks.CheckRequired | internal/assessor/assessor_response_validation_helpers.go:15-80 | accepts exactly when every required relationship is answered and every split of it meets it |
| RelationshipChecks.RangeCovered | internal/assessor/assessor_submission_contract.go:814-821 | holds exactly when one support of the same evidence contains the range |
| RelationshipChecks.CheckSupports | internal/assessor/assessor_submission_contract.go:725-742 | accepts exactly distinct allowlisted supports including a submitted one |
| RelationshipChecks.CheckKeptSplit | internal/assessor/assessor_submission_contract.go:691-754 | accepts exactly splits that keep their target and cite within it |
| RelationshipChecks.CheckKeptEntities | internal/assessor/assessor_submission_contract.go:631-668 | accepts exactly results for every entity target and no other, pinned ids kept |
| RelationshipChecks.CheckKeptRelationships | internal/assessor/assessor_submission_contract.go:670-762 | accepts exactly results for every relationship target and no other, each kept |
| ResponseContract.AssessmentResponse.NormalizeSecurity | internal/assessor/equivalence_validation.go:8-48 | results take trimmed fields and, when empty, the older flat signals |
| ResponseContract.AssessmentResponse.Normalize | internal/assessor/assessor.go:247-288 | every field of every result is trimmed in place, nothing is added or lost |
| ResponseContract.AssessmentResponse.ResolveEntities | internal/assessor/assessor_submission_contract.go:437-506 | each entity gets the span of its allowlisted grounding; fails exactly on one outside it or with a wrong anchor |
| ResponseContract.AssessmentResponse.ResolveRelationships | internal/assessor/assessor_submission_contract.go:508-547 | every range gets its offsets; fails exactly on an unresolvable one |
| ResponseContract.AssessmentResponse.ResolveSecurity | internal/assessor/assessor.go:717-742 | every signal gets its offsets; fails exactly on an unresolvable one |
| ResponseContract.AssessmentResponse.Check | internal/assessor/assessor.go:297-304 | all validators together accept exactly clean responses |
| ResponseContract.AssessmentResponse.Prepare | internal/assessor/assessor.go:242-322 | accepts exactly the responses that have a prepared form, and leaves that form in place |
| ResponseContract.OneOutcome | internal/assessor/assessor.go:242-322 | a response has one prepared form |
| AcceptedResponse.EachTargetAnsweredOnce | internal/assessor/assessor.go:744-990 | in an accepted response entities, relationships, security and equivalence are each one per target with nothing extra |
| AcceptedResponse.StoredRelationshipsAreClean | internal/assessor/assessor_submission_contract.go:670-762 | stored splits 0..k-1 keep endpoints, polarity and bounds, use only entities grounded as submitted, have distinct allowlisted supports including a submitted one, and quote predicate and value inside a support |
| AcceptedResponse.UngroundedEntityCarriesNothing | internal/assessor/assessor.go:845-855 | no stored split refers to an ungrounded or ambiguous entity |
| AcceptedResponse.EntitiesAreJustified | internal/assessor/assessor.go:810-915 | an accepted grounded entity quotes its evidence span; a reuse names the only candidate of its kind offered there, or the pinned one; a creation has no such candidate; without a grounding it is ambiguous or a pinned reuse |
| AcceptedResponse.SplitsFit | internal/assessor/assessor.go:917-990 | an accepted split uses an offered predicate version that allows the kinds at both its ends, or proposes one, and its validity is in order |
| ResponseReading.SplitsReadTheAnswer | internal/assessor/assessor_submission_contract.go:508-547 | every split of an accepted response keeps the trimmed fields of the split at its place, and its predicate, value and support ranges each keep their own evidence id and references and lie at the offsets of those references in that evidence |
| ResponseReading.RangeResolvesExactly | internal/assessor/assessor_submission_contract.go:576-601 | a range resolves exactly when its evidence and both references are known there, the first before the second |
| ResponseReading.EntitiesReadTheAnswer | internal/assessor/assessor_submission_contract.go:437-506 | every entity of an accepted response keeps the trimmed fields of the one at its place, has the span of the grounding it names, with its anchor if it has one, and the kind of the candidate, the target or the answer |
| ResponseReading.SignalsReadTheAnswer | internal/assessor/assessor.go:717-742 | every security result of an accepted response is the one at its place, of the newer list or, that being empty, of the older; its signals keep their fields and lie at the offsets of their own references |
| ResponseReading.ChoicesReadTheAnswer | internal/assessor/assessor.go:260-268 | every equivalence choice of an accepted response is the one at its place, trimmed |
| KnowledgeMapping.AddedExact | internal/evalharness/mapping.go:16-41 | adding keeps the mapping well formed and changes one list and at most one default |
| KnowledgeMapping.AppendNewExactly | internal/evalharness/mapping.go:32-37 | adding references to a list keeps it in front, adds each new one once, and loses none |
| KnowledgeMapping.KnowledgeMap.AddSourceMapping | internal/evalharness/mapping.go:16-41 | ignores incomplete references, else adds the trimmed one |
| KnowledgeMapping.KnowledgeMap.AddDefaults | internal/evalharness/mapping.go:97-107 | whatever order the map is walked in, the chosen defaults replace and join their lists |
| KnowledgeMapping.KnowledgeMap.AddLists | internal/evalharness/mapping.go:108-122 | whatever order the maps are walked in, each chosen list gains the new references in order |
| KnowledgeMapping.KnowledgeMap.Merge | internal/evalharness/mapping.go:75-126 | the merge is the one mapping with the source's defaults and each list extended by what it lacked |
| KnowledgeMapping.MergeIsUnique | internal/evalharness/mapping.go:75-126 | a merge has one result |
| KnowledgeMapping.MergeOneEach | internal/evalharness/mapping.go:75-126 | merging references of new sources adds just them |
| KnowledgeMapping.SameRefSet | internal/evalharness/mapping.go:224-244 | holds exactly when both lists have the same keys, each as often |
| CorpusImport.ImportItem | internal/evalharness/client_contract.go:189-206 | accepts exactly a completed submission with an evidence id, which contributes its one reference |
| CorpusImport.ContributionExactly | internal/evalharness/client_contract.go:189-206 | an item contributes its evidence under its trimmed source exactly when neither the source nor the id is blank |
| CorpusImport.ImportGroup | internal/evalharness/client.go:435-445 | importing in order gives the references of all items; it stops at the first error with the references before it |
| CorpusImport.RefsIgnoreOrder | internal/evalharness/client.go:188-381 | with distinct sources the references do not depend on the order |
| CorpusImport.ImportGroups | internal/evalharness/client.go:484-498 | one group per key: the items of that key in corpus order |
| CorpusImport.GroupsPartition | internal/evalharness/client.go:484-511 | the groups hold each item exactly as often as the corpus does |
| CorpusImport.SameCaseSameKey | internal/evalharness/client.go:500-511 | items of one case share a group |
| CorpusImport.SameGroupExactly | internal/evalharness/client.go:500-511 | two items share a group exactly when they have the same case or, both without, the same source or else content |
| CorpusImport.CallWithRetry | internal/evalharness/client.go:606-634 | at most six attempts; succeeds exactly when an answer within them is stored after transient ones only, each with a recorded retry and no cancellation |
| ImportRuns.StepKeeps | internal/evalharness/client.go:207-381 | every step keeps each fed job in exactly one place with its items imported once so far |
| ImportRuns.NoErrorMeansImported | internal/evalharness/client.go:207-381 | an import without an error received every job once and imported each unskipped item exactly once, in order, on one worker |
| ImportRuns.ImportFileSequential | internal/evalharness/client.go:188-205 | gives the references of the unskipped items up to the first error, and counts the lines done; succeeds exactly when no line fails |
| ImportRuns.FileImportIsSequential | internal/evalharness/client.go:207-296 | in every schedule without an error the concurrent file import gives the sequential mapping and count |
| ImportRuns.GroupedImportIsSequential | internal/evalharness/client.go:306-381 | in every schedule without an error the grouped import gives the sequential mapping, each group in corpus order on one worker |
| Embedding.PlaceVectors | internal/embedding/openai_provider.go:255-298 | accepts exactly one vector per text with indexes that are a permutation, and places each in its slot |
| Embedding.EverySlotFilledOnce | internal/embedding/openai_provider.go:271-298 | an accepted response fills every slot once |
| Embedding.RetryProvider.Call | internal/embedding/openai_provider.go:146-299 | one call; an accepted answer is in text order |
| Embedding.RetryProvider.EmbedChunk | internal/embedding/retry_provider.go:141-171 | succeeds exactly when some call within the budget left is answered well after transient failures only and without a stop; every retry follows a transient failure; it fails only on a stop, a permanent or malformed answer, or a spent budget; calls are one more than the retries spent |
| Embedding.RetryProvider.EmbedBatch | internal/embedding/retry_provider.go:138-176 | vector i is that of text i; succeeds exactly when every chunk in turn is served within the one shared budget; at most one call per chunk plus the retries, and at most n + retries * b texts sent |
| Embedding.RetryProvider.FewFailuresAreServed | internal/embedding/retry_provider.go:138-176 | a provider that fails for now on at most as many calls as the budget, and otherwise answers well, serves every batch |
| Embedding.ChunksRoundUp | internal/embedding/openai_provider.go:129-144 | the chunks are the quotient rounded up, one for an empty batch |
| Embedding.CalculateDelay | internal/embedding/retry_provider.go:260-281 | doubling with an early cap is the capped exponential plus jitter |
| AuditExport.FillPage | internal/audit/export.go:178-204 | takes as many entries as limit and bytes allow; more is set exactly when entries read remain |
| AuditExport.ParsedExactly | internal/audit/export.go:61-104 | a request is accepted exactly when its limit is at most 1000, 100 standing for none, and its cursor, if any, has at most 1024 characters, decodes, is of version 1 and of the same scope, and has a canonical position or none |
| AuditExport.BytesExactly | internal/audit/export.go:182-204 | the size of a page is that of its entries and one line end for each |
| AuditExport.ReadIsPrefix | internal/audit/export.go:171-180 | reading one entry beyond the limit is enough to fill the page and to see whether entries remain |
| AuditExport.ExportPage | internal/audit/export.go:146-218 | the next full page within both limits; more is true exactly when entries remain after its cursor |
| AuditExport.PageIsUnique | internal/audit/export.go:146-218 | a cursor and a limit determine the page, its cursor, its size and whether more remains |
| AuditExport.NumeralCodecIsFaithful | internal/audit/export.go:61-110 | the demand on the text form of cursors is met by a codec for any scope and any log whose positions have numerals within the cursor size |
| AuditExport.StuckExactly | internal/audit/export.go:190-193 | a page is empty exactly at the end or before an entry too large for any page |
| AuditExport.Walk | internal/audit/export.go:61-218 | following cursors yields every entry once, in order, and ends |
| AuditExport.WalkEndsExactly | internal/audit/export.go:146-218 | some number of pages gets through the log exactly when every entry fits an empty page |
| ConflictPolicy.CanonicalRank | internal/domain/conflict_overdue_resolution.go:87-100 | ranking a canonical authority name again gives the same rank |
| ConflictPolicy.BestSupport | internal/domain/conflict_overdue_resolution.go:50-62 | the position's best support, if it has one |
| ConflictPolicy.SelectLastWriteWinner | internal/domain/conflict_overdue_resolution.go:43-85 | a winner exactly when a named position has a support: the lexicographic best over all pairs |
| ConflictPolicy.WinnerIsTheBestPair | internal/domain/conflict_overdue_resolution.go:43-100 | the winner is a named position with one of its supports, and no support of a named position is better: of a higher authority (authoritative, primary, secondary, inferred or derived, anything else), of the same one but later, or equal in both under a smaller position id |
| ConflictPolicy.ReorderingKeepsWinner | internal/domain/conflict_overdue_resolution.go:43-85 | reordering positions or supports keeps the winner |
| ConflictPolicy.NormalizePositions | internal/domain/conflict_policy.go:133-150 | the named positions, trimmed, with counts at least zero |
| ConflictPolicy.NamedExactly | internal/domain/conflict_policy.go:133-150 | each record with an id stands for itself, trimmed and with a count of at least zero, exactly as often as it was given |
| ConflictPolicy.Evaluate | internal/domain/conflict_policy.go:70-131 | resolves exactly when due with two named positions and a strict majority, for that position |
| ConflictPolicy.MajorityOutweighsOthers | internal/domain/conflict_policy.go:106-117 | a strict majority is a position with more supporters than all the others together |
| ConflictPolicy.MajorityIsUnique | internal/domain/conflict_policy.go:106-117 | at most one position has a strict majority |
| ConflictPolicy.EvaluationIsUnique | internal/domain/conflict_policy.go:70-131 | the decision is a function of the named positions and the clock |
| ConflictPolicy.OrderDoesNotDecide | internal/domain/conflict_policy.go:70-131 | reordering the positions changes nothing |
| OrganizationScore.ReadJudgment | internal/evalharness/organization_score.go:21-43 | accepts exactly complete distinct judged sources |
| OrganizationScore.ReadItem | internal/evalharness/organization_score.go:50-62 | an item's meanings, sources and facts, unless a source is unknown |
| OrganizationScore.CountRepeats | internal/evalharness/organization_score.go:66-71 | in any order counts the meanings seen before |
| OrganizationScore.ScoreOrganization | internal/evalharness/organization_score.go:21-78 | repeats are the meanings summed per item less the distinct meanings; fails exactly on malformed input |
| OrganizationScore.ScoreExactly | internal/evalharness/organization_score.go:21-78 | in terms of the judged sources: repeats are the pairs of an item and a key it uses less the keys used, false consolidations the items that use two keys, and what is kept the sources and facts some item uses |
| OrganizationScore.PerfectExactly | internal/evalharness/organization_score.go:21-78 | no repeats, no false consolidation and full preservation exactly when the items partition the sources by equivalence key |
| OrganizationScore.UnorganizedItems | internal/evalharness/organization_score.go:80-86 | one item per source |
| OrganizationScore.UnorganizedScore | internal/evalharness/organization_score.go:80-86 | unorganized items score repeats equal to sources less distinct keys, and lose nothing |

## Left out

- JournalWriter.ExecutionJournal.Append: a line torn by a crash, credential protection of causes and the endpoint fields of a record are not modelled; a failed write either leaves the whole record or none.
- JournalWriter.ExecutionJournal.Finish: closing the files and sealing the artifact hashes are two booleans given by the environment.
- JournalRuns.EveryRunIsAccepted: how often an operation retries and the delays are arbitrary, which covers the retries of every call in it; time stamps and elapsed times are arbitrary non-negative values; query order is the order of allocation.
- JournalChecker.ExecutionOutcomes: planned work is a pair of kind and item rather than the text `kind:item`, which is unambiguous for the three kinds in use; hash comparison of saved traces and the trace file's own contents are not part of this model.
- PairStages.EveryOrderlyRunIsSafe: a process identity is a number that never becomes alive again; finishing or failing an attempt is one step of its live owner, with output validation answered by the environment; release lookup, deadline and clock checks of Begin can only refuse, which a Begin may do at any step.
- PairReceipts.StageStore.Begin: writing `requests.json` for an import is part of the arbitrary artifact files; a directory whose name parses as an attempt without being its padded form is not modelled; the outputs are valid or not for the whole of one call.
- PairReceipts.LastNameIsNewest: names of 99990 attempts and more, where the comparison turns round again, are not covered.
- AttemptMeasurement.MeasurePairAttempts: time is a count of ticks; token sums and ticks are unbounded integers.
- ContextAllocator.AssessmentRequest.Allocate: token counting is an arbitrary partial function; the recorded counts belong to the truncation flag on entry, so no claim is made that they equal a recount of the final request.
- Boundaries.BoundaryPrefix: SHA-256 is an arbitrary function whose first |content| + 1 digests are distinct; text is a sequence of code points.
- Assessment.SpanKeyIsUnambiguous: span sets use the span itself as key, which this lemma justifies for resolved spans; signal keys and predicate keys are tuples likewise.
- ResponseContract.AssessmentResponse.Prepare: time parsing and formatting, lower-casing and the active-markup pattern are parameters; results are sequences of values reassigned element by element, so sharing of one nested value between results is not captured; error messages and their order are left out.
- CorpusImport.ImportItem: the evidence id is a function of the item, as its idempotency key promises; the other fields of a reference (rank, grade, reason, equivalents) and the retired Dream references are not modelled.
- ImportRuns.NoErrorMeansImported: reading lines, decoding them and the journal calls inside an import are not modelled; a read failure is a step that stops the feeding.
- Embedding.RetryProvider.EmbedBatch: requires a chunk size of at least one; the provider is assumed to label vectors with the position of their text or return them in order, and error classification is given with each answer.
- AuditExport.ExportPage: positions are integers in the store's order, and the text form of cursors is any codec; the projection of entry fields and the export slots are left out.
- AuditExport.Walk: the codec reads back the cursors behind the log's entries, each of at most 1024 characters.
- ConflictPolicy.SelectLastWriteWinner: lower-casing is any function that keeps the canonical names.
- OrganizationScore.ScoreOrganization: the two ratios are left as their integer numerators and denominators.
- Normalising and validating the request before an assessment, the readiness and import-receipt evaluation of paired runs, and the resolution of mapped references add further checks of the same kind.
- HTTP, databases, prompts, configuration, portals and telemetry are not modelled.
