# Verified model of the C2C core services

This project models the parts of the repository that keep state over whole runs, or that compute one
thing in two forms, and proves what they promise. It is plain Dafny 4.11; `dafny verify dfyconfig.toml`
checks everything.

| files | what they model |
|---|---|
| `EditorAssistBudget`, `BudgetLockProtocol`, `BudgetAccounting`, `BudgetSchedules` | the editor-assist budget store: its counters, its promise-chain mutex as a state machine over the steps of the JavaScript engine, the accounting over all interleavings, and when the daily cap holds |
| `EvidenceManifest`, `EvidenceCompleteness`, `EvidenceStore`, `EvidenceInvariants`, `EvidenceHistory`, `EvidenceUpdates`, `EvidenceGaps` | the evidence pack store: manifest rules, completeness and referential integrity, create, update and export, what holds over every sequence of calls, which value each field ends with, and what each reported gap stands for |
| `JsonSchema`, `SchemaEvaluator`, `SchemaGrounding`, `SchemaViolations` | the small JSON Schema evaluator of the parity contract check, its declarative meaning, its termination, and where its errors lie and when it raises |
| `RateLimiter`, `RateLimiterHistory` | the sliding-window rate limiter, with arrays compacted in place |
| `SessionStore`, `SessionHistory` | the session store with idle sweep and first-in first-out cap |
| `ModelGateway`, `ModelGatewayOrder` | the capability view, the request validator and the fallback loop of the model gateway, and the order in which they check and call |
| `LearningAnalyzer`, `LearningService`, `LearningRecords`, `LearningMeaning` | the pattern analyzer, the merge of its candidates into the log, its keys in terms of the recorded events, and what a candidate says about them |
| `TrajectoryLedger` | the trajectory ledger of the harness |
| `OutputChange`, `OutputCauses` | the output delta and the explanation of its causes, told by the fields of the two runs |
| `CanonicalJson` | the canonical form under the digests of trust cases |
| `FileTree` | the file tree of generated artifacts with its name indexes |
| `Prelude`, `Text` | shared datatypes, joined keys, trimming |

The form follows the source. Stores and analyzers that change their fields are classes whose methods are
proved against functions of the old state; loops are loops with invariants; checks, keys and derived
values are functions. The lemmas are then about those functions and about runs, which are sequences of
calls. What the services take from outside is a parameter or a function field: instants (integers),
identifiers and secrets, hashes, regular expressions, URL and time parsing, lower-casing, the order of
names in a locale. Where Go ranges over a map the methods take the keys in any order.

Where a promise does not hold of the code the code is modelled as it is, a lemma gives an input, and a
lemma says when it does hold, exactly unless noted:

- `OracleComparison` says that matched=false rules out a success. The verdict only counts towards the
  comparison being there at all: it changes the gaps of a W0.2 pack exactly when it changes that
  (`VerdictCountsAsPresence`), so that matched=false rules out success exactly for a comparison that
  holds nothing but its verdict (`MismatchRulesOutIffOnlyVerdict`, `BareVerdictDecides`). A pack whose
  comparison holds anything else can be stored as a success although it did not match
  (`SuccessWithoutMatch`).
- Invocation keys are joined with NUL, and an id may contain one: two references with one key agree
  exactly when their ids have the same length (`InvocationKeyInjective`, `InvocationKeyCollision`). A
  success is therefore audit complete exactly when these lengths tell its repair invocations apart
  (`SuccessIsAuditComplete`); all the rest needs no condition (`SuccessIsComplete`).
- A patch may replace the oracle comparison, the assist decision or the budget summary by an empty
  record. A W0.2 pack keeps its required artifacts through a patch exactly when the patch does neither
  this nor block (`PatchKeepsRequired`).
- The daily cap bounds each visit to a day. A clock that steps back can enter a day again, and a refund
  makes room for one more grant, also when what it gives back was granted on an earlier day. Days entered
  at most k times with at most r refunds keep the cap in every run exactly when k is zero, or k is one and
  r is zero, or the store grants nothing (`DailyGrantsAreBounded`, `CapHoldsIffEnteredOnce`,
  `ClockStepBackPassesCap`, `RefundPassesCap`). A clock that never goes back enters no day twice
  (`MonotoneEntersOnce`).
- The sliding window is bounded in every run whose clock steps back by at most s between calls of a key
  exactly when s is zero, at most one hit is allowed or the window is empty (`BoundHoldsIff`,
  `ClockStepBackAdmitsTooMuch`); whatever the clock does exactly in the last two cases
  (`BoundNeedsNoClockIff`).
- Scopes with NULs in their ids can share one session budget; two scopes with one key are the same
  exactly when their ids have the same lengths (`ScopeKeyInjective`, `ScopeKeyCollision`). The server
  forms scopes only from ids without NUL (`ServerScopesDoNotCollide`), so that only other callers of the
  exported store can meet this.
- const and enum treat true as 1 and false as 0, as Python does; they are the equality of JSON Schema
  (draft 2020-12, Core, section 4.2.2) exactly elsewhere (`EqualityAgrees`). The type `integer` refuses
  1.0, which Validation, section 6.1.1, counts as an integer; the types are the standard's exactly apart
  from whole floats (`TypesAgree`, `WholeFloatIsRefused`).
- A retry is a failed event before a completed one, and the sort is not stable. Every sort reports a
  group exactly when some failure is strictly earlier than some completion, and some sort does exactly
  when one is no later (`RetryByTime`), so that the sort decides exactly when the failures are tied
  (`SortDecidesIffTied`). The keys of a run are those of its recorded events for every sort exactly when
  each group with a failure no later than a completion shares its digest with one that has a strictly
  earlier failure (`RunKeysAreRecorded`); when digests tell groups apart, exactly when no group is tied
  (`CoveredIffUntied`).
- Of an allOf entry with an if the evaluator looks at if and then only: whatever stands beside them, else
  and unknown keywords included, is neither evaluated nor refused (`EntryIgnoresOthers`,
  `KeywordBesideIfIsLost`). Such an entry means all its keywords exactly when these hold of whatever its
  condition holds of (`EntryIsWholeIff`).
- A role configured with surrounding white space is listed by the capability view and refused by the
  validator (`UntrimmedRoleMisreports`, `PaddedRoleWitness`).
- Exchanging two runs changes the reason of an unavailable explanation exactly when one run id is empty
  (`SwapKeepsExplanation`), and outputs that differ only in line endings are changed with no changed lines
  (`CountsMean`).
- A key named `__proto__` is lost in the canonical form (`PrototypeKeyIsLost`); array-index keys are
  covered.
- A path that an earlier path equals or goes on below is not shown in the file tree (`FilesAreTheInputs`).

## Model

| member | source | states |
|---|---|---|
| `EditorAssistBudget.ScopeKeyInjective` | services/c2c-bff/src/editorExplain.ts:604-606 | two scopes that share a session entry are the same scope exactly when their tenant ids and their user ids are equally long, as they are when these hold no NUL |
| `EditorAssistBudget.ScopeKeyCollision` | services/c2c-bff/src/editorExplain.ts:604-606 | two different scopes with a NUL in an id can share one session budget, through the exported store only |
| `EditorAssistBudget.ServerScopesDoNotCollide` | services/c2c-bff/src/sessionStore.ts:48 | scopes built from ids that the session store accepts share an entry only when they are the same |
| `EditorAssistBudget.BudgetStore.SnapshotFor` | services/c2c-bff/src/editorExplain.ts:681-694 | reading a session changes nothing and splits the limit into used and remaining, never below zero |
| `EditorAssistBudget.BudgetStore.Open` | services/c2c-bff/src/editorExplain.ts:650-670 | the head of consume makes the session entry, reads the clock, and makes the tenant entry; a failing clock leaves the session entry behind |
| `EditorAssistBudget.BudgetStore.Consume` | services/c2c-bff/src/editorExplain.ts:699-722 | the locked body: date change, tenant cap before session limit, both counters or neither |
| `EditorAssistBudget.BudgetStore.Refund` | services/c2c-bff/src/editorExplain.ts:726-735 | a refund takes one unit from each existing counter that is positive, independently of the other |
| `BudgetLockProtocol.StepKeepsInv` | services/c2c-bff/src/editorExplain.ts:613-635 | every step of the promise engine, in any order, keeps the shape of the lock chains |
| `BudgetLockProtocol.RunKeepsInv` | services/c2c-bff/src/editorExplain.ts:613-635 | the shape of the lock chains holds throughout every run |
| `BudgetLockProtocol.MutualExclusion` | services/c2c-bff/src/editorExplain.ts:613-635 | in every reachable state at most one closure runs inside each session entry and each tenant entry |
| `BudgetLockProtocol.ArrivalOrder` | services/c2c-bff/src/editorExplain.ts:621-628 | an entry admits a caller only after every earlier one has run its closure and released |
| `BudgetLockProtocol.SessionOrder` | services/c2c-bff/src/editorExplain.ts:695-698 | consumes of one session are served, from entry to return, in the order in which they were invoked |
| `BudgetLockProtocol.ReleaseIsBound` | services/c2c-bff/src/editorExplain.ts:620-634 | the finally block never calls the initial no-op: the release function is bound by then |
| `BudgetLockProtocol.NoDeadlock` | services/c2c-bff/src/editorExplain.ts:695-725 | as long as some call has not finished, some step is enabled: session locks before tenant locks cannot deadlock |
| `BudgetLockProtocol.InternalStepWorks` | services/c2c-bff/src/editorExplain.ts:613-635 | every step other than an invocation or a refund does one unit of the remaining work |
| `BudgetLockProtocol.EveryCallFinishes` | services/c2c-bff/src/editorExplain.ts:695-725 | without new calls, however the reactions interleave, every maximal run has exactly the same number of steps and ends with an outcome for every call |
| `BudgetAccounting.CountersAreBalances` | services/c2c-bff/src/editorExplain.ts:637-737 | in every reachable state, whatever clock and refunds do, each counter is its grants minus its effective refunds (for a tenant since its last date change) and lies between zero and its limit |
| `BudgetAccounting.SnapshotsAddUp` | services/c2c-bff/src/editorExplain.ts:681-694 | every snapshot given to a caller satisfies used + remaining = limit |
| `BudgetAccounting.SessionUsedIsGrants` | services/c2c-bff/src/editorExplain.ts:710-718 | without refunds a session has used exactly what it was granted, at most its limit |
| `BudgetAccounting.DailyGrantsAreBounded` | services/c2c-bff/src/editorExplain.ts:672-735 | whatever the clock and the refunds do, the grants of a day are at most the cap for each time its counter was started plus the refunds that took effect on that day; no grant falls on a day never entered |
| `BudgetAccounting.MonotoneEntersOnce` | services/c2c-bff/src/editorExplain.ts:653-679 | with a clock that never goes back no tenant enters a day twice, and it has entered its current day |
| `BudgetAccounting.DailyCapHolds` | services/c2c-bff/src/editorExplain.ts:672-735 | with a clock that never goes back the tenant counter is the grants of its current day minus its refunds of that day, and no day exceeds the cap by more than these refunds |
| `BudgetAccounting.GrantedIffRoom` | services/c2c-bff/src/editorExplain.ts:699-722 | in every reachable state a call is granted exactly when its session balance is below the limit and the balance of its tenant on the day of the reading below the cap; a grant is then recorded, preceded by a date change exactly when the day is new, and the snapshot shows the balance after the step |
| `BudgetAccounting.ClockFailureCountsNothing` | services/c2c-bff/src/editorExplain.ts:672-673 | a clock that fails in the closure changes no counter and the call reports the failure |
| `BudgetAccounting.RefundTakesOneUnit` | services/c2c-bff/src/editorExplain.ts:726-735 | a refund takes one unit from the session and one from the tenant, each exactly when its balance is positive |
| `BudgetAccounting.FirstCallStartsDay` | services/c2c-bff/src/editorExplain.ts:659-670 | a call starts the day of its tenant exactly when the tenant has none yet and the clock answers |
| `BudgetSchedules.CallAlone` | services/c2c-bff/src/editorExplain.ts:613-725 | a call made while nobody holds or waits for a lock runs to its end by itself and leaves both locks free |
| `BudgetSchedules.ClockStepBackPassesCap` | services/c2c-bff/src/editorExplain.ts:672-679 | for every positive limit and cap some reachable state without refunds has entered a day twice and granted one more than the cap on it |
| `BudgetSchedules.RefundPassesCap` | services/c2c-bff/src/editorExplain.ts:726-735 | for every positive limit and cap some reachable state has entered a day once, refunded once and granted one more than the cap on it |
| `BudgetSchedules.CapHoldsIffEnteredOnce` | services/c2c-bff/src/editorExplain.ts:672-735 | days entered at most k times with at most r refunds keep the cap in every run exactly when k is zero, or k is one and r is zero, or nothing can be granted |
| `EvidenceManifest.ManualEditSignalsAgree` | services/evidence-service/manifest.go:976-1014 | in a valid manifest carriedOver, a positive drift count and the presence of an overlay with that region count are the same thing |
| `EvidenceManifest.ReferenceKeyInjective` | services/evidence-service/manifest.go:1449-1451 | the key of a data reference determines uri and hash |
| `EvidenceManifest.InvocationKeyInjective` | services/evidence-service/manifest.go:1453-1455 | two valid invocation references with one key agree exactly when their invocation ids have the same length |
| `EvidenceManifest.NulFreeKeyInjective` | services/evidence-service/manifest.go:1453-1455 | without NUL in the ids the key of an invocation reference determines it |
| `EvidenceManifest.InvocationKeyCollision` | services/evidence-service/manifest.go:242-281 | two different references that both pass validation can have one key |
| `EvidenceCompleteness.CountCandidates` | services/evidence-service/manifest.go:1351-1370 | the loop over candidates counts matches, selected matches and selected strays |
| `EvidenceCompleteness.IndexInvocations` | services/evidence-service/manifest.go:1331-1340 | the loop indexes exactly the invocations that have an id and a ledger reference, and the roles that occur |
| `EvidenceCompleteness.IndexReferences` | services/evidence-service/manifest.go:1408-1415 | the two reference sets hold exactly the keys of test results and candidates |
| `EvidenceCompleteness.CheckAttempt` | services/evidence-service/manifest.go:1416-1432 | one repair attempt yields exactly its unresolved references, in order |
| `EvidenceCompleteness.CheckAttempts` | services/evidence-service/manifest.go:1416-1432 | the loop yields the gaps of all attempts in order |
| `EvidenceCompleteness.ValidateReferentialIntegrity` | services/evidence-service/manifest.go:1326-1434 | the method returns exactly the list of integrity gaps of the specification |
| `EvidenceCompleteness.EvaluateValidationForWave` | services/evidence-service/manifest.go:1162-1278 | the method returns exactly the required and missing artifacts of the wave |
| `EvidenceCompleteness.EvaluateValidationForManifest` | services/evidence-service/manifest.go:1280-1315 | the overlay is added to the lists exactly when edits were carried over and it is absent |
| `EvidenceCompleteness.CountsMeanOneSelected` | services/evidence-service/manifest.go:1351-1370 | no candidate gap means: exactly one candidate matches the final artifact, it is selected, and no other candidate is |
| `EvidenceCompleteness.NoAttemptGaps` | services/evidence-service/manifest.go:1408-1432 | no attempt gap means: every attempt resolves its test result and its new candidate inside the pack and names a repair invocation whose key is stored |
| `EvidenceCompleteness.CheckedMeansResolved` | services/evidence-service/manifest.go:1408-1432 | every attempt resolves all its references exactly when there is no such gap and for each repair invocation a stored one has its key and an equally long id |
| `EvidenceCompleteness.NoGapsMeansAuditChecked` | services/evidence-service/manifest.go:1162-1278 | for valid artifacts the missing list is empty exactly when the pack passes the audit up to the identity of its repair invocations, stated without reference to the loops |
| `EvidenceCompleteness.NoGapsMeansAuditComplete` | services/evidence-service/manifest.go:1162-1278 | valid artifacts are audit complete exactly when the missing list is empty and the lengths of the ids tell the repair invocations apart, which NUL-free ids always do |
| `EvidenceCompleteness.InvocationGapMissesCollision` | services/evidence-service/manifest.go:1453-1455 | with a NUL in an id an attempt can pass although its invocation is not in the pack |
| `EvidenceStore.MergeAssociative` | services/evidence-service/store.go:248-346 | merging patches is associative |
| `EvidenceStore.MergeIdentity` | services/evidence-service/store.go:248-346 | the empty patch is a left and right identity of merging |
| `EvidenceStore.MergeArtifacts` | services/evidence-service/store.go:248-346 | field by field overwriting and appending computes the merge |
| `EvidenceStore.NormalizeBlockedArtifacts` | services/evidence-service/store.go:429-441 | the loop clears the selection of every candidate and the generated and final artifacts |
| `EvidenceStore.RelaxBlockedValidation` | services/evidence-service/store.go:408-427 | the loop drops exactly the gaps that a blocked run may have |
| `EvidenceStore.ApplyPatch` | services/evidence-service/store.go:129-169 | the sequence of field updates of a patch computes the patched pack |
| `EvidenceStore.PackStore.Create` | services/evidence-service/store.go:52-104 | Create changes the pack map and counter as specified; a refused pack keeps the map and uses up a number |
| `EvidenceStore.PackStore.Update` | services/evidence-service/store.go:129-188 | Update replaces one pack by its patched and recomputed form or leaves the map unchanged |
| `EvidenceStore.PackStore.RecordExport` | services/evidence-service/store.go:213-222 | RecordExport appends one record to one pack |
| `EvidenceInvariants.PackIdInjective` | services/evidence-service/store.go:67-68 | pack ids of different numbers differ, whatever the run ids |
| `EvidenceInvariants.NextIdIsFresh` | services/evidence-service/store.go:67-68 | the id of the next pack is never taken |
| `EvidenceInvariants.StepKeepsInv` | services/evidence-service/store.go:52-222 | every call keeps every stored pack coherent, valid and filed under its own id |
| `EvidenceInvariants.RunKeepsInv` | services/evidence-service/store.go:52-222 | so does every sequence of calls |
| `EvidenceInvariants.StatusFieldsAgree` | services/evidence-service/manifest.go:1467-1509 | in every reachable store: ok iff nothing is missing, success iff complete iff ok and not blocked, blocked classification iff blocked completeness |
| `EvidenceInvariants.BlockedPacksSelectNothing` | services/evidence-service/store.go:348-382 | a reachable blocked W0.2 pack has no non-zero generated or final artifact and no selected candidate |
| `EvidenceInvariants.ManualEditsAgree` | services/evidence-service/manifest.go:976-1014 | the three manual-edit signals agree in every reachable pack |
| `EvidenceInvariants.SuccessIsAuditComplete` | services/evidence-service/manifest.go:1326-1434 | a reachable W0.2 pack is a success exactly when it is not blocked and passes the audit up to invocation identity; it is then audit complete exactly when the lengths of the ids tell its repair invocations apart |
| `EvidenceInvariants.SuccessIsComplete` | services/evidence-service/manifest.go:1326-1434 | every reachable W0.2 success, whatever its ids, has the fifteen artifacts, one selected candidate that alone matches the final artifact, generatedJava equal to it, budgets that only grew, and for every repair attempt a stored test result, a stored candidate and a repair invocation with a stored key |
| `EvidenceInvariants.BlockedCompleteKeepsLineage` | services/evidence-service/store.go:384-427 | a blocked pack can be complete only with its budget summary and, once the assist gate was reached, its decision |
| `EvidenceHistory.EvidenceAccrues` | services/evidence-service/store.go:129-222 | later calls only add evidence: lists only grow and single fields stay set; generated and final Java and the selections are kept unless a call blocks a W0.2 pack, and the overlay unless a call clears it |
| `EvidenceHistory.PatchKeepsRequired` | services/evidence-service/store.go:129-188 | a valid patch leaves a W0.2 pack all its fifteen artifacts exactly when it neither blocks nor brings an empty comparison, decision or budget summary |
| `EvidenceHistory.StepKeepsRequired` | services/evidence-service/store.go:129-222 | a call takes a required artifact from a stored W0.2 pack exactly when it is a successful update of it with such a patch |
| `EvidenceHistory.RequiredStay` | services/evidence-service/store.go:129-222 | a W0.2 pack with all required artifacts keeps them through any calls without such a patch |
| `EvidenceHistory.CallsTouchOnePack` | services/evidence-service/store.go:52-222 | a call changes at most the pack it names or creates, and a failed call changes no pack |
| `EvidenceHistory.W0StaysOk` | services/evidence-service/manifest.go:1019-1148 | once a W0 pack is ok every later sequence of calls keeps it ok |
| `EvidenceHistory.BlockedStays` | services/evidence-service/store.go:129-188 | a blocked pack stays blocked until a call unblocks it |
| `EvidenceHistory.VerdictCountsAsPresence` | services/evidence-service/manifest.go:403-469 | changing the oracle verdict changes the gaps of a W0.2 pack exactly when it changes whether the comparison is there, and never those of a W0 pack |
| `EvidenceHistory.MismatchRulesOutIffOnlyVerdict` | services/evidence-service/manifest.go:403-469 | matched=false rules out an empty list of gaps exactly when the comparison holds nothing but its verdict |
| `EvidenceHistory.BareVerdictDecides` | services/evidence-service/manifest.go:403-469 | an audit complete pack whose comparison holds only matched=true gets a gap when the verdict is turned |
| `EvidenceHistory.SuccessWithoutMatch` | services/evidence-service/manifest.go:403-436 | a stored pack can be a success although its oracle comparison failed |
| `EvidenceUpdates.CreateStores` | services/evidence-service/store.go:52-104 | a new pack holds every field as given, with the next number in its id, and is the only pack that changes |
| `EvidenceUpdates.CreateAcceptsIff` | services/evidence-service/store.go:52-104 | a creation is accepted exactly when it names a run and a known wave, has an instant, an id of the right form, agreeing manual-edit fields, well-formed artifacts and, when blocked in W0.2, no selected Java |
| `EvidenceUpdates.CreateRefusals` | services/evidence-service/store.go:52-104 | a refused creation gives the first reason that applies, keeps every pack, and uses up a number once run and wave are known |
| `EvidenceUpdates.UpdateStores` | services/evidence-service/store.go:129-188 | after a successful update each field is what the patch brings and otherwise what it was; lists gain what the patch brings; blocking a W0.2 pack clears generated and final Java and all selections, and saying that no edits were carried over clears overlay and drift |
| `EvidenceUpdates.UpdateAcceptsIff` | services/evidence-service/store.go:129-188 | an update is accepted exactly when what it would store has agreeing manual-edit fields and well-formed artifacts and, when then blocked in W0.2, no selected Java |
| `EvidenceUpdates.UnknownPackIsRefused` | services/evidence-service/store.go:129-136 | an update is refused as unknown exactly when the pack is not stored |
| `EvidenceUpdates.ExportStores` | services/evidence-service/store.go:213-222 | an export record is appended to its pack and nothing else changes |
| `EvidenceUpdates.ReferencesAreTheLastBrought` | services/evidence-service/store.go:248-346 | after any calls each reference of a pack is the last one that an accepted patch brought |
| `EvidenceUpdates.RecordsAreTheLastBrought` | services/evidence-service/store.go:248-346 | so are oracle comparison, runtime version, assist decision and budget summary |
| `EvidenceUpdates.ClearableFieldsAreTheLastSet` | services/evidence-service/store.go:129-169 | so are generated Java, final artifact and overlay, where blocking a W0.2 pack sets the first two to none and dropping carried-over edits the last |
| `EvidenceGaps.NamesMean` | services/evidence-service/manifest.go:1162-1406 | a name outside the candidate rules is in the list of a W0.2 pack exactly when the artifact of that name is absent or the rule of that name is broken, and in that of a W0 pack exactly when its artifact is absent |
| `EvidenceGaps.CandidateNamesMean` | services/evidence-service/manifest.go:1351-1370 | the candidate gaps say exactly that the final artifact is not one single candidate, and that a stray candidate is selected or the final one is not |
| `EvidenceGaps.AttemptFieldsMean` | services/evidence-service/manifest.go:1408-1434 | a field of a repair attempt is reported exactly when that attempt exists and the field does not resolve |
| `EvidenceGaps.GateMeans` | services/evidence-service/store.go:384-400 | the assist gate was reached exactly when a transformation or repair agent left a trajectory or an invocation, or there is a repair attempt |
| `EvidenceGaps.StoredMissingMeans` | services/evidence-service/store.go:408-427 | a stored pack misses exactly the gaps of its wave, without the five post-gate artifacts and, before the gate, the decision when it is a blocked W0.2 pack |
| `EvidenceGaps.StoredRequiredMeans` | services/evidence-service/manifest.go:1280-1315 | it requires the artifacts of its wave, and after them the overlay exactly when edits were carried over |
| `EvidenceGaps.StoredMissingInOrder` | services/evidence-service/manifest.go:1162-1434 | its list names each gap once and in the order of the checks, selected strays aside, which may repeat |
| `JsonSchema.EqualityAgrees` | scripts/validate_parity_contract_schemas.py:210-216 | the == of const and enum is JSON equality exactly where no boolean is compared with a number |
| `JsonSchema.TypesAgree` | scripts/validate_parity_contract_schemas.py:174-181 | a type name is judged as in JSON Schema, whose names are listed by the kind of payload, exactly except that a whole float is no integer |
| `JsonSchema.WholeFloatIsRefused` | scripts/validate_parity_contract_schemas.py:174-181 | 1.0 is an integer of JSON Schema and is refused |
| `JsonSchema.EvaluatorTypesAre` | scripts/validate_parity_contract_schemas.py:174-181 | the names accepted for a payload, written out by its kind |
| `JsonSchema.FindIsFirst` | scripts/validate_parity_contract_schemas.py:239-245 | the schema of a property is the first of that name, and there is none exactly when no property has it |
| `JsonSchema.ResolveIsLookup` | scripts/validate_parity_contract_schemas.py:163-171 | a reference resolves to the definition that it names under $defs, and no other form resolves |
| `SchemaEvaluator.ScalarExact` | scripts/validate_parity_contract_schemas.py:218-232 | a string or number adds no error exactly when each of its keywords holds |
| `SchemaEvaluator.RequiredExact` | scripts/validate_parity_contract_schemas.py:235-238 | no required error exactly when every required key is there |
| `SchemaEvaluator.CheckIsMeaning` | scripts/validate_parity_contract_schemas.py:184-273 | on supported schemas evaluation never raises, and it adds no error exactly when the declarative conjunction of all keywords holds |
| `SchemaEvaluator.EntryIgnoresOthers` | scripts/validate_parity_contract_schemas.py:260-273 | the outcome of an allOf entry with an if depends on its if and then only |
| `SchemaEvaluator.EntryIsWholeIff` | scripts/validate_parity_contract_schemas.py:260-273 | an entry means the conjunction of all its keywords exactly when it has no if, or its other keywords hold, or its condition fails |
| `SchemaEvaluator.OnlyConditionIsWhole` | scripts/validate_parity_contract_schemas.py:260-273 | an entry with nothing beside if and then means all its keywords |
| `SchemaEvaluator.KeywordBesideIfIsLost` | scripts/validate_parity_contract_schemas.py:260-273 | a required key beside an if is not asked for, and an unknown keyword there is not refused |
| `SchemaEvaluator.ValidateNode` | scripts/validate_parity_contract_schemas.py:184-257 | the recursive method appends exactly the specified errors after the ones already there, and raises exactly when specified |
| `SchemaEvaluator.ValidateScalar` | scripts/validate_parity_contract_schemas.py:218-232 | the string and number keywords append their errors in order |
| `SchemaEvaluator.ValidateObject` | scripts/validate_parity_contract_schemas.py:234-245 | required keys first, then the fields in payload order |
| `SchemaEvaluator.ValidateFields` | scripts/validate_parity_contract_schemas.py:239-245 | each field is evaluated by its property, or reported when the node is closed |
| `SchemaEvaluator.ValidateArray` | scripts/validate_parity_contract_schemas.py:247-253 | minItems, then every item |
| `SchemaEvaluator.ValidateEntries` | scripts/validate_parity_contract_schemas.py:255-257 | the entries of allOf in order, on one error list |
| `SchemaEvaluator.ApplyConditional` | scripts/validate_parity_contract_schemas.py:260-273 | an if is evaluated on a list of its own and then counts as an implication |
| `SchemaEvaluator.ValidatePayload` | scripts/validate_parity_contract_schemas.py:276-280 | earlier errors stay in front, and the list is unchanged exactly when the payload is accepted |
| `SchemaEvaluator.GroundedHasNoCycle` | scripts/validate_parity_contract_schemas.py:163-193 | a ranked document has no chain of references that returns at the same payload |
| `SchemaEvaluator.TestsAreConditions` | scripts/validate_parity_contract_schemas.py:194-232 | type, const, enum and the scalar keywords hold exactly when, by kind of payload, a listed type name fits, some value is equal, and length or number are not outside their bounds |
| `SchemaViolations.ScalarRulesMean` | scripts/validate_parity_contract_schemas.py:218-232 | each scalar rule is reported under its own name exactly when its keyword fails |
| `SchemaViolations.RequiredRulesMean` | scripts/validate_parity_contract_schemas.py:235-238 | a missing key is reported under its own name exactly when it is required and not there |
| `SchemaViolations.ViolationsArePlaced` | scripts/validate_parity_contract_schemas.py:184-273 | every reported violation leads along its path to a value inside the payload of the kind that the rule speaks of |
| `SchemaViolations.FirstTestDecides` | scripts/validate_parity_contract_schemas.py:200-216 | when type, const or enum fails, the first of them is the only error of its node |
| `SchemaViolations.ItemsInOrder` | scripts/validate_parity_contract_schemas.py:247-253 | the errors of an array come in the order of its items |
| `SchemaViolations.FieldsInOrder` | scripts/validate_parity_contract_schemas.py:239-245 | the errors of the fields of an object come in the order of the fields |
| `SchemaViolations.RaisesIff` | scripts/validate_parity_contract_schemas.py:155-257 | evaluation of a node without reference raises exactly when it has an unknown keyword or unusable types, or its type, const and enum hold and a field, an item or an entry that is looked at raises |
| `SchemaViolations.ReferenceRaisesIff` | scripts/validate_parity_contract_schemas.py:163-192 | a reference raises exactly when it does not resolve or what it stands for raises |
| `SchemaGrounding.RanksSettle` | scripts/validate_parity_contract_schemas.py:163-193 | in a document without such cycles the reference ranks settle once every definition has been passed |
| `SchemaGrounding.GroundedIffAcyclic` | scripts/validate_parity_contract_schemas.py:163-193 | a document can be ranked, so that evaluation terminates, exactly when its references never cycle without descending into the payload |
| `RateLimiter.Compact` | services/c2c-bff/src/rateLimit.ts:77-85 | the in-place pass with read and write index leaves exactly the hits after the cutoff, in order |
| `RateLimiter.Limiter.Evict` | services/c2c-bff/src/rateLimit.ts:51-57 | eviction deletes first-inserted buckets until there is room |
| `RateLimiter.Limiter.Open` | services/c2c-bff/src/rateLimit.ts:69-74 | a missing bucket is created empty after making room; an existing one is kept |
| `RateLimiter.Limiter.Admit` | services/c2c-bff/src/rateLimit.ts:77-90 | compaction, then the hit is recorded exactly when there is room |
| `RateLimiter.Limiter.Consume` | services/c2c-bff/src/rateLimit.ts:60-91 | one call has the specified effect on all buckets and the specified answer; an empty key is always permitted |
| `RateLimiterHistory.RunKeepsBucket` | services/c2c-bff/src/rateLimit.ts:60-91 | through every run whose clock never goes back between the calls of a key, its compacted array loses only hits that no longer matter |
| `RateLimiterHistory.PermittedIffBelowLimit` | services/c2c-bff/src/rateLimit.ts:77-90 | when the clock never went back between the calls of a key, a call is permitted exactly when fewer than maxHits hits admitted since the creation of its bucket lie in the window that ends now |
| `RateLimiterHistory.EveryWindowIsBounded` | services/c2c-bff/src/rateLimit.ts:77-90 | then every window of that length, wherever it ends, holds at most maxHits admitted hits of a live bucket |
| `RateLimiterHistory.EvictDropsOldest` | services/c2c-bff/src/rateLimit.ts:51-57 | what eviction keeps is the end of the insertion order |
| `RateLimiterHistory.BucketsAreBounded` | services/c2c-bff/src/rateLimit.ts:51-57 | there are never more than maxBuckets buckets, or one when maxBuckets is below one |
| `RateLimiterHistory.ClockStepBackAdmitsTooMuch` | services/c2c-bff/src/rateLimit.ts:67-90 | for every limit of two or more hits and every positive step a run whose clock steps back by no more than that exceeds the window |
| `RateLimiterHistory.BoundHoldsIff` | services/c2c-bff/src/rateLimit.ts:67-90 | the bound holds in every run whose clock steps back by at most a given amount exactly when that is zero, at most one hit is allowed or the window is empty |
| `RateLimiterHistory.SingleHitNeedsNoClock` | services/c2c-bff/src/rateLimit.ts:67-90 | with at most one hit allowed, or an empty window, the bound holds whatever the clock does |
| `RateLimiterHistory.BoundNeedsNoClockIff` | services/c2c-bff/src/rateLimit.ts:67-90 | the bound holds in every run whatever the clock does exactly for such limits |
| `RateLimiterHistory.EvictIsMinimal` | services/c2c-bff/src/rateLimit.ts:51-57 | below the cap nothing is evicted, and at or above it exactly so much that one more bucket fits |
| `RateLimiterHistory.LiveBucketsAreTheLastOpened` | services/c2c-bff/src/rateLimit.ts:51-74 | after any calls the buckets are the last ones opened, as many as the cap allows, in the order of their opening |
| `RateLimiterHistory.LiveIff` | services/c2c-bff/src/rateLimit.ts:51-74 | a bucket is live exactly when it was opened and fewer than the larger of the cap and one have been opened since |
| `RateLimiterHistory.NoKeyIsPermitted` | services/c2c-bff/src/rateLimit.ts:60-66 | a call without a key is permitted and changes nothing |
| `SessionStore.Store.SweepIdle` | services/c2c-bff/src/sessionStore.ts:189-196 | the loop deletes the sessions that have been idle too long |
| `SessionStore.Store.Evict` | services/c2c-bff/src/sessionStore.ts:202-208 | the loop deletes first-inserted sessions until there is room |
| `SessionStore.Store.Create` | services/c2c-bff/src/sessionStore.ts:211-235 | sweep, eviction and insertion in this order, or a refusal that changes nothing |
| `SessionStore.Store.Get` | services/c2c-bff/src/sessionStore.ts:236-252 | a lookup touches the session, or deletes it when it has been idle too long |
| `SessionStore.Store.GetPreference` | services/c2c-bff/src/sessionStore.ts:253-259 | reading a preference touches the session |
| `SessionStore.Store.SetPreference` | services/c2c-bff/src/sessionStore.ts:260-286 | a malformed trust-case id is refused after the session was touched |
| `SessionStore.Store.Delete` | services/c2c-bff/src/sessionStore.ts:287-292 | deletion tells whether the session was there |
| `SessionHistory.SweptWouldBeRefused` | services/c2c-bff/src/sessionStore.ts:189-196 | the sweep removes nothing but sessions that every lookup at that instant or later would refuse |
| `SessionHistory.EvictDropsOldest` | services/c2c-bff/src/sessionStore.ts:202-208 | the cap removes a prefix of the enumeration order and changes nothing else |
| `SessionHistory.LookupMatchesHistory` | services/c2c-bff/src/sessionStore.ts:236-252 | with a monotone clock a lookup answers what the history of openings, accesses, preferences, logouts and evictions says, as if there were no sweep |
| `SessionHistory.SecretIsStable` | services/c2c-bff/src/sessionStore.ts:216-229 | every successful lookup of a session sees the secret, identity and creation time that its creation returned, whatever the clock does |
| `SessionHistory.RunKeepsCreation` | services/c2c-bff/src/sessionStore.ts:229-233 | with fresh ids and a monotone clock the sessions are enumerated in order of creation |
| `SessionHistory.EvictionIsOldestFirst` | services/c2c-bff/src/sessionStore.ts:198-208 | so the cap always evicts a session created no later than any it keeps |
| `SessionHistory.SessionsAreBounded` | services/c2c-bff/src/sessionStore.ts:202-208 | there are never more than maxSessions sessions, or one when maxSessions is below one |
| `SessionHistory.NewIdIsUnused` | services/c2c-bff/src/sessionStore.ts:216-233 | a fresh id is never one of a stored session |
| `SessionHistory.EvictIsMinimal` | services/c2c-bff/src/sessionStore.ts:202-208 | below the cap no session is evicted, and at or above it exactly so many that one more fits |
| `SessionHistory.SweepIsExact` | services/c2c-bff/src/sessionStore.ts:189-196 | the sweep removes exactly the sessions whose last access is longer ago than the timeout |
| `SessionHistory.CreateKeepsTheLast` | services/c2c-bff/src/sessionStore.ts:211-235 | a creation keeps of the swept sessions the last ones that leave room and adds the new one at the end; a refused one changes nothing |
| `SessionHistory.RepliesMatchHistory` | services/c2c-bff/src/sessionStore.ts:236-292 | lookups, preferences and deletions reply what the history says: the record as last changed, the preference last set, and whether a session was there |
| `Text.TrimIdempotent` | services/model-gateway-service/server.go:708-714 | trimming twice is trimming once |
| `Text.BlankIsTrimmedAway` | services/model-gateway-service/server.go:753-783 | a text is blank exactly when nothing is left after trimming |
| `Text.TrimTakesSpaces` | services/model-gateway-service/server.go:708-714 | trimming takes white space away at both ends, all of it and nothing else |
| `ModelGateway.ValidateInvocation` | services/model-gateway-service/server.go:738-877 | the error is the first failing check; the record names the model only when all checks passed |
| `ModelGateway.CheckModel` | services/model-gateway-service/server.go:793-869 | the checks on the model, in their order |
| `ModelGateway.Availability` | services/model-gateway-service/server.go:311-359 | the view lists exactly the configured models that pass its checks, in order, and is ok exactly when there is one |
| `ModelGateway.AcceptedIffListed` | services/model-gateway-service/server.go:738-877 | a request whose own checks pass is accepted exactly when the view of its trimmed role lists its model and neither name is blank |
| `ModelGateway.AvailabilityAgrees` | services/model-gateway-service/server.go:311-359 | for a trimmed non-empty role and a non-blank model the capability view and the validator agree |
| `ModelGateway.UntrimmedRoleMisreports` | services/model-gateway-service/config.go:187-202 | for a role configured with surrounding white space the two agree on a model exactly when the view of the trimmed role says the same |
| `ModelGateway.PaddedRoleWitness` | services/model-gateway-service/config.go:187-202 | such a role can list a model that every request naming the role is refused |
| `ModelGateway.FallbackModelIds` | services/model-gateway-service/server.go:708-726 | the loop with its set of seen names computes the specified candidates |
| `ModelGateway.FallbackMembers` | services/model-gateway-service/server.go:708-726 | the candidates are the trimmed, non-empty, allowed deployments other than the current model, each once |
| `ModelGateway.Invoke` | services/model-gateway-service/server.go:436-693 | one invocation calls models along the plan until one answers; reply, record and event name the one that answered, or the requested one when none did; a refused request calls none |
| `ModelGateway.TryFallbacks` | services/model-gateway-service/server.go:534-553 | the fallback loop stops at the first answer and otherwise tries every candidate that validates |
| `ModelGateway.PlanIsSafe` | services/model-gateway-service/server.go:534-553 | every model of the plan passed full validation for the role of the request, none occurs twice, and no fallback that would pass is missing |
| `ModelGateway.WalkIsDetermined` | services/model-gateway-service/server.go:529-553 | the answers of the providers and the deadline determine which models are called |
| `ModelGatewayOrder.ApprovalEndsAfterExpiry` | services/model-gateway-service/config.go:48-69 | an approval that ever holds does so exactly up to and including the instant of its expiry |
| `ModelGatewayOrder.ProblemIsFirst` | services/model-gateway-service/server.go:738-877 | the validator reports the first of its eighteen checks that fails, each told by the fields of request, model and gateway, and accepts exactly when none does |
| `ModelGatewayOrder.ViewKeepsOrder` | services/model-gateway-service/server.go:311-359 | the capability view lists the reachable models in the configured order, each as often as it is configured |
| `ModelGatewayOrder.PlanFollowsConfiguration` | services/model-gateway-service/server.go:708-726 | fallback candidates, and those of them that validate, are in the order in which they are configured first |
| `ModelGatewayOrder.CallsFollowConfiguration` | services/model-gateway-service/server.go:534-553 | no fallback is called before every configured fallback ahead of it that validates has been called and has failed |
| `ModelGatewayOrder.FirstFailureDecides` | services/model-gateway-service/server.go:530-534 | a first call that runs into its deadline is the only one; after any other failure the next planned model is called |
| `LearningAnalyzer.Group` | services/experience-learning-service/analyzer.go:55-72 | the loop files each eligible event under its key, in order, and no other |
| `LearningAnalyzer.Analyzer.AnalyzeBucket` | services/experience-learning-service/analyzer.go:357-618 | the candidates of a bucket are those of its checks, in order, with their evidence and consecutive ids |
| `LearningAnalyzer.Analyzer.HasRecovery` | services/experience-learning-service/analyzer.go:568-579 | the scan finds a recovery exactly when some failed item comes before some completed one |
| `LearningAnalyzer.Analyzer.FindRetry` | services/experience-learning-service/analyzer.go:650-665 | the scan with two indices finds the first failed item and the first completed one after it |
| `LearningAnalyzer.RecoversIffFound` | services/experience-learning-service/analyzer.go:650-665 | both indices are found exactly when some failure comes before some completion |
| `LearningAnalyzer.Analyzer.AnalyzeRetrySequences` | services/experience-learning-service/analyzer.go:628-712 | each group with a recovery yields one candidate that names the two events, in any order of enumeration |
| `LearningAnalyzer.Analyzer.AnalyzeLedger` | services/experience-learning-service/analyzer.go:714-797 | each ledger step yields an abort and a budget candidate as its checks say |
| `LearningAnalyzer.Analyzer.AnalyzeAccepted` | services/experience-learning-service/analyzer.go:84-122 | each accepted event yields one candidate |
| `LearningAnalyzer.DedupeCandidates` | services/experience-learning-service/analyzer.go:921-937 | one candidate for each key, namely the first, in any order of enumeration |
| `LearningAnalyzer.ApplyPolicyGating` | services/experience-learning-service/analyzer.go:939-953 | gating marks candidates as ignored and keeps their keys |
| `LearningAnalyzer.Analyzer.AnalyzeRun` | services/experience-learning-service/analyzer.go:28-135 | the candidates of a run have distinct keys, and these are the keys of its events, sorted by creation time and step, and of its ledgers, whatever the order in which maps are enumerated and the ids given before; each is the candidate of a bucket, a recovering group, a ledger step or an accepted event, ignored exactly when the policy does more than observe |
| `LearningService.GroupsPartition` | services/experience-learning-service/analyzer.go:55-72 | grouping loses and duplicates no event |
| `LearningService.BucketIsUniform` | services/experience-learning-service/analyzer.go:63-71 | the events of a bucket share mapped status and output hash |
| `LearningService.BucketRules` | services/experience-learning-service/analyzer.go:357-618 | unchanged_output is reported for a bucket exactly when repeat_action is, repeated_failure exactly for a failed bucket that is large enough, and a retry never |
| `LearningService.RetryIffFailedBeforeCompleted` | services/experience-learning-service/analyzer.go:628-665 | a retry is reported for a group exactly when, in the sorted events of the run, some failed event of the group comes before some completed one |
| `LearningRecords.ArrangedIsSorted` | services/experience-learning-service/analyzer.go:47-52 | what the analysis of a run works on is one of the sorts that the following rows speak of |
| `LearningRecords.RunGroupsPartition` | services/experience-learning-service/analyzer.go:47-72 | each recorded event of the run occurs in the group of its key, and only there, as often as it was recorded |
| `LearningRecords.SameBucketKeys` | services/experience-learning-service/analyzer.go:54-78 | the keys of the buckets do not depend on the order of the events |
| `LearningRecords.ExtremeSorts` | services/experience-learning-service/analyzer.go:47-52 | among the sorts of a run one reports exactly the groups with a strictly earlier failure and one exactly those with a failure no later than a completion |
| `LearningRecords.RetryByTime` | services/experience-learning-service/analyzer.go:628-712 | every sort reports a group exactly when some failed event is strictly earlier than some completed one, and some sort does exactly when one is no later |
| `LearningRecords.SortDecidesIffTied` | services/experience-learning-service/analyzer.go:47-52 | two sorts of a run differ about a group exactly when some failure is no later than a completion and none is strictly earlier |
| `LearningRecords.RunKeysAreRecorded` | services/experience-learning-service/analyzer.go:28-135 | the keys of a run are those of its recorded events and ledgers for every sort exactly when each group with a failure no later than a completion shares its digest with a group that has a strictly earlier one |
| `LearningRecords.CoveredIffUntied` | services/experience-learning-service/analyzer.go:628-712 | when digests tell groups apart this means that no group is tied |
| `LearningService.FailedAndCompletedStatuses` | services/experience-learning-service/analyzer.go:884-893 | under the mapping of the service exactly failed and the four build failures count as failed, and exactly completed as completed |
| `LearningService.CountsAddUp` | services/experience-learning-service/server.go:536-540 | the counts by pattern add up to the number of stored candidates |
| `LearningService.AppendKeepsDistinct` | services/experience-learning-service/server.go:517-531 | appending a candidate whose key is new keeps the keys of every run distinct |
| `LearningService.Service.Merge` | services/experience-learning-service/server.go:509-531 | the loop appends exactly the candidates with new keys and leaves other runs alone; it stops only at a new candidate that the log refuses, and keeps what was appended |
| `LearningService.Service.RunLearningSummary` | services/experience-learning-service/server.go:490-551 | keys stay unique per run, a success adds exactly the keys of the run to those in the log, every candidate added is one that the recorded events or ledgers show and is ignored unless the policy only observes, other runs keep theirs, a call with no new key appends nothing, a log that refuses nothing makes only a blank run fail, and the summary counts the log |
| `LearningService.Service.AnalyzeTwice` | services/experience-learning-service/server.go:490-551 | a second call with no new events or ledgers appends nothing and returns the same summary |
| `LearningMeaning.OutcomeMeans` | services/experience-learning-service/analyzer.go:851-866 | an event is about compiling, testing or neither as its status, declared outcome, type and data class say, in this order of precedence |
| `LearningMeaning.ContainsMeans` | services/experience-learning-service/analyzer.go:851-882 | one text contains another exactly when it stands somewhere between a before and an after |
| `LearningMeaning.InOrderMeans` | services/experience-learning-service/analyzer.go:47-52 | sorted means by instants, and by steps where these are the same |
| `LearningMeaning.FailurePatternsMean` | services/experience-learning-service/analyzer.go:487-562 | a compile or test failure is reported for a bucket exactly when failures are wanted and an event of the bucket failed with that outcome |
| `LearningMeaning.LedgerReportsMean` | services/experience-learning-service/analyzer.go:714-797 | the keys of ledgers are exactly those of steps whose status is aborted, or whose type, transition or status speaks of a budget |
| `LearningMeaning.AcceptedMeans` | services/experience-learning-service/analyzer.go:868-882 | an event counts as accepted by its status, its flag, its transition or its type |
| `LearningMeaning.BucketCandidateDescribes` | services/experience-learning-service/analyzer.go:375-618 | a candidate of a bucket counts and names the events it rests on, the failures when it is about failures and else the whole bucket, with the first and last step |
| `LearningMeaning.RetryCandidateDescribes` | services/experience-learning-service/analyzer.go:645-710 | a retry names the first failed event and the first completed one after it |
| `LearningMeaning.AcceptedCandidateDescribes` | services/experience-learning-service/analyzer.go:84-122 | an accepted artifact is reported with its event as only evidence |
| `LearningMeaning.StepCandidateDescribes` | services/experience-learning-service/analyzer.go:714-797 | an aborted or over-budget step is reported with its event as only evidence |
| `LearningMeaning.FirstOfIsFirst` | services/experience-learning-service/analyzer.go:921-937 | of several candidates with one key the first is the one that is kept |
| `LearningMeaning.FingerprintsTellApart` | services/experience-learning-service/analyzer.go:55-72 | when digests differ for different keys, the fingerprints of different groups and buckets differ |
| `TrajectoryLedger.Validate` | services/agentic-harness-core/types.go:244-286 | the loop with its map of seen ids accepts exactly the ledgers with valid steps and distinct step ids |
| `TrajectoryLedger.Sort` | services/agentic-harness-core/types.go:301-306 | a permutation in order of creation time and step, with nothing promised about ties |
| `TrajectoryLedger.Build` | services/agentic-harness-core/types.go:288-343 | some sorted permutation of the run's events is renumbered from one, and the error says whether the result validates |
| `TrajectoryLedger.StepsAreTheRun` | services/agentic-harness-core/types.go:292-337 | the steps stand for exactly the events of the run, each as often as it was recorded |
| `TrajectoryLedger.StartedAtIsEarliest` | services/agentic-harness-core/types.go:301-313 | startedAt is the least creation time of the run |
| `TrajectoryLedger.CompletedAtIsLatestTerminal` | services/agentic-harness-core/types.go:318-337 | completedAt is the latest creation time of a run.completed or run.failed event |
| `TrajectoryLedger.ValidEventsBuildValidLedger` | services/agentic-harness-core/types.go:156-286 | when the events of the run validate, the built ledger validates |
| `TrajectoryLedger.LedgerIsDetermined` | services/agentic-harness-core/types.go:301-306 | the sort can leave one list only, whatever the order of recording, exactly when no two different events share instant and step |
| `TrajectoryLedger.SortedMeans` | services/agentic-harness-core/types.go:301-306 | sorted means by instants, and by steps where these are the same |
| `TrajectoryLedger.StepsCarryEvents` | services/agentic-harness-core/types.go:314-334 | the i-th step carries twelve fields of the i-th event and i as its number |
| `TrajectoryLedger.LedgerCarriesLatest` | services/agentic-harness-core/types.go:308-337 | status and workflow of the ledger are those of an event after which none comes |
| `TrajectoryLedger.OpenWithoutTerminal` | services/agentic-harness-core/types.go:318-337 | without a run.completed or run.failed event completedAt is absent |
| `Prelude.JoinAfterSplit` | services/c2c-bff/src/outputChangeExplanation.ts:172-175 | splitting at a separator loses nothing |
| `OutputChange.SameLinesIffSameText` | services/c2c-bff/src/outputChangeExplanation.ts:172-175 | two outputs have the same lines exactly when they are the same text up to line endings |
| `OutputChange.FindCut` | services/c2c-bff/src/outputChangeExplanation.ts:185-202 | the two scans find the longest common prefix and then the longest common suffix |
| `OutputChange.BuildExcerpt` | services/c2c-bff/src/outputChangeExplanation.ts:177-224 | the excerpt is one line of context on either side of the first four removed and the first four added lines |
| `OutputChange.CutSplits` | services/c2c-bff/src/outputChangeExplanation.ts:185-202 | previous = P + R + S and current = P + A + S, where R and A differ at both ends when neither is empty |
| `OutputChange.CutIsUnique` | services/c2c-bff/src/outputChangeExplanation.ts:183-204 | there is only one such cut |
| `OutputChange.SwapKeepsCut` | services/c2c-bff/src/outputChangeExplanation.ts:177-224 | exchanging the runs keeps the cut and its context and exchanges removed and added lines |
| `OutputChange.BuildDelta` | services/c2c-bff/src/outputChangeExplanation.ts:226-263 | the delta is changed exactly when the texts differ; its counts exchange their roles with the runs |
| `OutputChange.CountsMean` | services/c2c-bff/src/outputChangeExplanation.ts:230-246 | added minus removed is the difference in length, and both are zero exactly when only line endings differ |
| `OutputChange.Explain` | services/c2c-bff/src/outputChangeExplanation.ts:327-640 | the pushes list the seven causes with their flags, and the determination and primary category follow from those that hold |
| `OutputChange.DeterminationMeans` | services/c2c-bff/src/outputChangeExplanation.ts:581-588 | a primary category is named exactly when it holds and no other does, and no cause is found exactly when nothing stronger holds and the artifact is the same |
| `OutputChange.FlagsAreSymmetric` | services/c2c-bff/src/outputChangeExplanation.ts:422-579 | every category flag is symmetric in the two runs |
| `OutputChange.SwapKeepsExplanation` | services/c2c-bff/src/outputChangeExplanation.ts:327-416 | exchanging the runs keeps availability and reason exactly when the run ids are both empty or both non-empty, and then keeps the list of changed categories |
| `OutputCauses.FlagsMean` | services/c2c-bff/src/outputChangeExplanation.ts:422-579 | which difference between the two runs raises which flag; a runtime change needs the same trust case, and a refresh that nothing else changed |
| `OutputCauses.EntriesCarryFlags` | services/c2c-bff/src/outputChangeExplanation.ts:422-579 | the seven entries carry these flags in the order of the causes |
| `OutputCauses.DeterminationCounts` | services/c2c-bff/src/outputChangeExplanation.ts:581-588 | one cause that holds, several or none decide the determination |
| `OutputCauses.ReasonIsFirst` | services/c2c-bff/src/outputChangeExplanation.ts:327-416 | the reported reason is the first of eight that applies, and there is an explanation exactly when none does |
| `OutputCauses.ExcerptShows` | services/c2c-bff/src/outputChangeExplanation.ts:205-223 | the excerpt shows the first four removed and the first four added lines in order, and the unchanged line on either side, which both outputs have |
| `OutputCauses.RemovedCountIs` | services/c2c-bff/src/outputChangeExplanation.ts:230-246 | the count of removed lines is the number of places where the previous output has a line that the current one has not there |
| `OutputCauses.LineEndingsAreReplaced` | services/c2c-bff/src/outputChangeExplanation.ts:172-175 | each CR LF becomes one LF, wherever it stands |
| `OutputCauses.OtherTextIsKept` | services/c2c-bff/src/outputChangeExplanation.ts:172-175 | a text without CR LF is kept as it is |
| `OutputCauses.LinesHoldNoSeparator` | services/c2c-bff/src/outputChangeExplanation.ts:172-175 | no line holds a separator |
| `CanonicalJson.KeyTotal` | services/c2c-bff/src/trust-cases.ts:184-189 | the order in which sorted keys are enumerated, array indices first, is total and asymmetric |
| `CanonicalJson.LexSortSorted` | services/c2c-bff/src/trust-cases.ts:184-185 | sorting the keys loses nothing and sorts |
| `CanonicalJson.RebuildSorted` | services/c2c-bff/src/trust-cases.ts:186-189 | assigning sorted keys one by one leaves every property but the prototype key, in the order of enumeration |
| `CanonicalJson.CanonicalIsAlike` | services/c2c-bff/src/trust-cases.ts:177-190 | a value equals its canonical form up to key order at every depth |
| `CanonicalJson.CanonicalIsUnique` | services/c2c-bff/src/trust-cases.ts:177-190 | there is one canonical value among all that are equal up to key order |
| `CanonicalJson.SameCanonicalIffAlike` | services/c2c-bff/src/trust-cases.ts:177-190 | two values have the same canonical form exactly when they are equal up to key order at every depth, prototype keys aside |
| `CanonicalJson.CanonicalIsIdempotent` | services/c2c-bff/src/trust-cases.ts:177-190 | canonicalizing twice is canonicalizing once |
| `CanonicalJson.PrototypeKeyIsLost` | services/c2c-bff/src/trust-cases.ts:186-189 | a property named __proto__ does not reach the canonical form, so two different values can have one digest input |
| `CanonicalJson.LexLessMeans` | services/c2c-bff/src/trust-cases.ts:184-185 | keys are sorted by their first differing code unit, a prefix before what it begins |
| `CanonicalJson.IndexMeans` | services/c2c-bff/src/trust-cases.ts:186-189 | an array index is a decimal number up to 2^32 - 2 without a leading zero |
| `CanonicalJson.IndexOrder` | services/c2c-bff/src/trust-cases.ts:186-189 | indices are enumerated as numbers |
| `CanonicalJson.CanonicalIsEnumerated` | services/c2c-bff/src/trust-cases.ts:184-189 | the properties of a canonical object are its indices in numeric order and then its other keys by code units |
| `FileTree.TreeNode.Child` | apps/c2c-studio/src/hooks/useGeneratedArtifacts.ts:31-61 | a child is found in the index or created in list and index; node and index stay in step |
| `FileTree.TreeNode.Add` | apps/c2c-studio/src/hooks/useGeneratedArtifacts.ts:44-63 | adding one path keeps the name index of every node equal to its child list and shows the specified tree |
| `FileTree.BuildFileTree` | apps/c2c-studio/src/hooks/useGeneratedArtifacts.ts:20-64 | the loops build the specified tree of the input |
| `FileTree.InsertFile` | apps/c2c-studio/src/hooks/useGeneratedArtifacts.ts:48-62 | adding a path shows a new file exactly where no node was, and changes no other file |
| `FileTree.NodesAreThePrefixes` | apps/c2c-studio/src/hooks/useGeneratedArtifacts.ts:40-64 | the tree has a node at exactly the prefixes of the input paths |
| `FileTree.FilesAreTheInputs` | apps/c2c-studio/src/hooks/useGeneratedArtifacts.ts:40-64 | an input shows as a file exactly when no earlier path equals it or goes on below it |
| `FileTree.PrefixFreeShowsAll` | apps/c2c-studio/src/hooks/useGeneratedArtifacts.ts:40-64 | for distinct paths of which none is a prefix of another the files are exactly the inputs |
| `FileTree.BuildIsWellFormed` | apps/c2c-studio/src/hooks/useGeneratedArtifacts.ts:40-64 | no two siblings share a name, so each directory appears once, and every node has the path that leads to it |
| `FileTree.InputsKeepTheirPaths` | apps/c2c-studio/src/hooks/useGeneratedArtifacts.ts:41-55 | the node of an input carries the path as it was given |
| `FileTree.SortedIsAlike` | apps/c2c-studio/src/hooks/useGeneratedArtifacts.ts:66-75 | sorting orders the children of every node and changes nothing else |
| `FileTree.SortedTreeIgnoresOrder` | apps/c2c-studio/src/hooks/useGeneratedArtifacts.ts:66-75 | for prefix-free paths and a strict total order of names the sorted tree does not depend on the order of the input |
| `FileTree.DirectoriesFirst` | apps/c2c-studio/src/hooks/useGeneratedArtifacts.ts:66-75 | every node of a sorted tree lists its directories first and then its files, both by name |

## Left out

- HTTP handlers, tokens, headers, environment and YAML loading, JSONL files, tar export, locks of the Go services: the models start at the calls behind them, and each Go method is one step.
- Hashes, regular expressions, secret patterns, URL and RFC 3339 parsing, RFC 3339 formatting: functions or inputs without assumptions about them.
- Message texts, display strings, links, confidences and free payloads: only codes, flags and references are kept.
- Fields that are constants of the services (schema version, capability, service name) and their checks in the validators; which field a validation error names.
- Cloning and pointer aliasing in the Go stores: manifests are values.
- `EvidenceStore.PackStore.Create`: the pack counter is unbounded; the wrap-around of a 64-bit counter is not modelled.
- `Get` and `List` of the pack store: plain reads.
- `SessionStore.Store.SetPreference`: records are values in the map, so that a caller who keeps an old record does not see the new preference; the properties that a JavaScript object inherits are not preferences here.
- `SessionStore.Store.Create`: the identity rules and the redaction limits are one predicate.
- `RateLimiter.Limiter.Consume`: a bucket is an array of fixed size with a length instead of an array that grows and shrinks.
- `BudgetLockProtocol.EveryCallFinishes`: one promise reaction is one step, and the reaction may be any pending one; the order of the microtask queue is not modelled, so that more runs are covered than the engine has.
- Schemas that are not documents: a schema file is a tree of nodes with its supported keywords, and NaN and infinite numbers are not payloads. A rank of the definitions is a field of the document; `GroundedIffAcyclic` says when there is one.
- `SchemaEvaluator.CheckIsMeaning`: if and then beside allOf, keywords beside $ref, and keywords beside the if of an allOf entry are ignored by the evaluator and therefore by the meaning. An additionalProperties that is a schema counts as open, as in the evaluator; its content is not kept.
- `ModelGateway.Invoke`: prompts, parameters, usage, latency and the ledger sink; the instant is the same for all validations of one invocation; the deadline is read after the first call and at the end.
- The sorting of role names in the capability response and the loading of the gateway configuration.
- `LearningAnalyzer.Analyzer.AnalyzeRun`: sort.Slice is some function that returns its input in order, as its fixed pivots make it, with nothing known about ties; the learning signals and the reporting of patterns in sorted order are left out. A status mapping is a parameter; `MapsStatuses` names the one in use.
- `LearningService.Service.RunLearningSummary`: the artifact registry and its file.
- `OutputChange.Explain`: what is read from a trust summary is given as optional digests; summaries and evidence links are left out.
- `FileTree.SortedTreeIgnoresOrder`: sorting is modelled on the tree that the nodes show, not in place, and `FileTree.TreeNode.Add` walks down a path by recursion where the source uses a loop over the segments.
- The cross-entry checks of the trust-case catalogue, the telemetry tables, capability registries, run status table and user interface: long case lists or plumbing without further properties.
