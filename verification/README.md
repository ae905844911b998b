# A verified model of the NEXARA PRIME governed ledger

This project models the durable ledger of NEXARA PRIME and the protocols that run on it, and proves
what they guarantee over all runs.

- **The store.** Two tables, changed in place: records, each with an integrity seal and a first-write
  origin, and events, unique by id and by non-null idempotency key; beside them the index of
  conversation messages. `StoreSpec` says what each store call does to the tables, `Sqlite` does it
  imperatively, `Migration` is the schema upgrade, `Bus` the link from durable insertion to notification.
- **Approvals.** Request, decide or expire, consume; every call is a program of atomic store steps
  (`ApprovalSteps`), any number of calls interleave (`ApprovalRuns`), and `Approvals` is the engine itself.
- **Evidence.** Idempotent add, verification, trust, receipt chains (`Evidence*`, `Receipts`, `ReceiptAudit`).
- **Evaluations**, **memory and knowledge**, **conversations**, **capability scores**, **writer leases**.

## How to read it

Texts are a datatype (`Ledger.Text`): digests and derived ids are injective constructors over what they
are computed from, so no axiom about hashing is needed. A payload is a map from field names to values.
`new_id` and the clock are arguments (`gen`, `stamp`, `now`); a generated id is one that occurs nowhere yet.

Two kinds of runs appear. In a *raw run* anybody may call any store operation with any arguments between
any two steps. In an *engine run* others may still call any store operation, as long as the records of the
protocol at hand are left alone. They may insert any event and take any key, but for two cases: approval runs
keep the events under the ids of transitions as they are (`ApprovalLifecycle.Leaves`), and conversation runs
the events that announce messages (`ConversationRuns.Leaves`).

Approval, evidence and evaluation calls interleave step by step. Memory calls appear twice: one after another
(`MemoryRuns`), and as programs of store calls in any interleaving (`MemorySteps`, `MemoryInterleaving`), for
the kernel takes no lock; a call that nobody disturbs does the same in both. Conversation and capability calls
run one after another; what a conversation call does that writes late is in `ConversationLate` and
`ConversationRaces`. Lease calls interleave as the manager's lock allows.

Each stateful engine also exists as a class (`SQLiteStore`, `EventBus`, `ApprovalEngine`, `EvidenceStore`,
`ReceiptAuditor`, `EvaluationEngine`, `MemoryKernel`, `KnowledgeService`, `ConversationStore`,
`CapabilityRegistry`, `WriterLeaseManager`) whose methods follow the source's branches and loops and are
proved to do to the tables exactly what the functions used in the runs say.

The modules named `...Answers` (with `ApprovalExactly`, `ApprovalReading`, `EvidenceReplays` and
`MigrationLiveness`) say what each call answers and leaves behind in the fields of the stored rows and events
and the arguments of the call, on any tables, without the functions that the runs are made of. The methods of
the classes promise it, so the two descriptions are proved to agree.

`dafny verify dfyconfig.toml` checks the whole project.

## Where the code keeps less than it seems to promise

Each point names a lemma that says exactly when the promise is kept, and one that exhibits where it is not,
as a rule at the end of a run from an empty store.

- Evidence added under a status other than `unverified` and `verified` can be verified, but does not count
  as preverified afterwards (`EvidenceGuarantees.VerifiedIsTrusted`, `EvidenceCases.OddStatusIsNotTrusted`).
- A process that dies between adding the seal column and filling it leaves rows that the next start takes
  for corrupt (`Migration.SealBackfillRestarts`, `Migration.InterruptedSealsLoseAll`); only the origin backfill
  can be restarted.
- In the global scope `detect_supersession` can report a duplicate where the next write still retires
  records (`Knowledge.PredictionExactlyWhen`, `MemoryCases.TwoMissionsAreMissed`).
- Two memory writes of different contents that both look before either saves leave two committed contents
  under one key (`MemoryAgreement.AgreesExactlyWhen`, `MemoryAgreement.TwoWritesLeaveTwoContents`); and between
  a write's retirements and its save, `superseded_by` names a record that is not stored
  (`MemoryAgreement.SupersessionEndsOrIsOnItsWay`, `MemoryAgreement.RetiredDangles`,
  `MemoryAgreement.RetiredLeadsNowhere`).
- `commit_candidate` does not look for conflicts and can leave two committed contents under one key
  (`MemoryReplay.CommitKeepsAgreementExactlyWhen`, `MemoryReplay.CommitCanBreakAgreement`).
- A patch that was only filed as a candidate makes its own replay fail
  (`MemoryReplay.PatchReplaysExactlyWhen`, `MemoryCases.PatchCannotBeRepeated`).
- A memory key that another mission used before does not protect: the same write, repeated, is carried out
  again (`MemoryReplay.ReplayAnswersExactlyWhen`, `MemoryCases.RepeatIsWrittenAgain`).
- The events of closing and reopening go by fixed keys, so the event log shows at most one of each and does
  not tell whether a conversation is open; and where somebody else took the key, the call raises although the
  status is saved (`ConversationLog.ChangeIsLoggedExactlyWhen`, `ConversationLog.LogHidesStatusExactlyWhen`,
  `ConversationLog.SecondCloseLeavesNoTrace`, `ConversationLog.ClosingRaises`).
- Two appends that both read the conversation before either writes lose one message from its list, and a close
  or reopen that writes late drops what was appended in between (`ConversationLate.LateAppendAgreesExactlyWhen`,
  `ConversationLate.LateStatusAgreesExactlyWhen`, `ConversationLate.TwoAppendsLoseOne`,
  `ConversationLate.TwoAppendsToANewConversation`, `ConversationRaces.LateCloseDropsMessage`).
- Two keyed appends that both search before either writes leave two messages under one key
  (`ConversationRaces.LateAppendKeepsKeysExactlyWhen`, `ConversationRaces.TwoKeyedAppendsLeaveTwo`).
- An append that read a conversation before it was closed writes to it all the same, and opens it again
  (`ConversationRaces.LateAppendReopensExactlyWhen`, `ConversationRaces.LateAppendReopens`).
- Evidence that starts with an empty id counts live but not after a restart, so does evidence brought when a
  key is replayed, and a key replayed under another capability marks that capability's last outcome
  (`CapabilityRestart.UpdateKeepsAgreementExactlyWhen`, `CapabilityCases.EmptyEvidenceDeparts`,
  `CapabilityCases.LateEvidenceDeparts`, `CapabilityCases.ForeignKeyDeparts`); registering a capability again
  forgets its outcomes in memory only (`CapabilityRestart.RegisterKeepsAgreementExactlyWhen`,
  `CapabilityCases.RegisteringAgainForgets`).
- Past a hundred outcomes, equal timestamps at the edge of the last hundred let a restart see another failure
  rate (`CapabilityTies.RestartAgreesExactlyWhen`, `CapabilityCases.TiedRunDisagrees`).
- `record_history` called by itself leaves the live score stale
  (`CapabilityCases.RecordOnlyKeepsAgreementExactlyWhen`, `CapabilityCases.RecordedFirstDeparts`).
- Two lease managers, each with its own lock, do not exclude each other
  (`Leases.LateGrantExcludesExactlyWhen`, `Leases.WithoutTheLockBothHold`).

## Model

| member | source | states |
|---|---|---|
| StoreSpec.CommitIsAtomic | src/nexara_prime/db.py:821-946 | a multi-record, multi-event commit applies every field change, reseals every row it touches, inserts every event and keeps keys unique, or leaves both tables exactly as they were |
| StoreSpec.ApplyGrows | src/nexara_prime/db.py:368-1333 | no store call, whatever its arguments, loses a row or an event, changes a set origin, rewrites an event or puts one key on two events; a new row is anchored to the first content written under its id |
| StoreSpec.SaveAllGrows | src/nexara_prime/db.py:510-571 | the atomic save of several records keeps every existing row as it is and anchors each new row to the first item of its id |
| StoreSpec.UpdatedAt | src/nexara_prime/db.py:731-819 | the writes of a multi-row compare-and-set change exactly the named rows, each by its own field and a new seal |
| StoreAnswers.SaveAllStands | src/nexara_prime/db.py:510-571 | several records are saved exactly when none contradicts a row that is there or another of them; then each row has its record's columns, payload and seal, and nothing else is new |
| StoreAnswers.CasFieldStands | src/nexara_prime/db.py:629-681 | one field is set, and the row sealed again, exactly where the row is of the type, sealed, and holds what was expected; all other columns, fields and rows stay |
| StoreAnswers.ReplaceStands | src/nexara_prime/db.py:683-729 | the payload is replaced, and the row sealed again, exactly where the row is of the type and still sealed as the caller read it |
| StoreAnswers.ClaimStands | src/nexara_prime/db.py:1025-1142 | a record and its event are claimed exactly where the record is new and the event is new or there already, and what stands then has the columns and payloads given |
| StoreAnswers.RepairStands | src/nexara_prime/db.py:1163-1306 | a payload is replaced and its event bound exactly where the seal is as read and the event is there, new, or there but for a key that nobody has |
| StoreAnswers.BundleStands | src/nexara_prime/db.py:456-508 | both payloads are written and sealed over the columns given; a row that was there keeps its type, mission, time and origin |
| Sqlite.SQLiteStore.GetRecordEnvelope | src/nexara_prime/db.py:573-609 | an envelope is handed out exactly for a row whose payload is an object, whose seal matches and whose origin is set |
| Sqlite.SQLiteStore.FindRecordEnvelope | src/nexara_prime/db.py:1144-1161 | finds an intact record of the type with that field value of which none is older, or there is none |
| Sqlite.SQLiteStore.ListRecords | src/nexara_prime/db.py:948-959 | lists the payloads of all rows of the type and mission, once each, oldest first |
| Sqlite.SQLiteStore.SaveRecord | src/nexara_prime/db.py:368-401 | the upsert replaces every column but the origin |
| Sqlite.SQLiteStore.SaveRecordIfAbsent | src/nexara_prime/db.py:410-439 | inserts exactly when the id is free, and says so |
| Sqlite.SQLiteStore.CompareAndSetRecordField | src/nexara_prime/db.py:629-681 | sets one field of an intact row that holds the expected value, otherwise changes nothing |
| Sqlite.SQLiteStore.ReplaceRecordPayload | src/nexara_prime/db.py:683-729 | replaces the payload exactly when the row is still sealed as the caller read it |
| Sqlite.SQLiteStore.SaveRecordsAtomically | src/nexara_prime/db.py:510-571 | the insertion loop with rollback: all records are stored or there already, or nothing is written |
| Sqlite.SQLiteStore.CompareAndSetRecordFields | src/nexara_prime/db.py:731-819 | the checking loop and the writing loop amount to one atomic update |
| Sqlite.SQLiteStore.CompareAndSetRecordFieldsAndEvents | src/nexara_prime/db.py:821-946 | the loops over rows and events, with their rollback, amount to one atomic commit |
| Sqlite.SQLiteStore.SaveRecordAndEventIfAbsent | src/nexara_prime/db.py:1025-1142 | claims a record together with its event, adopts an event of the same identity, or reports the loss or the conflict without writing |
| Sqlite.SQLiteStore.RepairRecordEvent | src/nexara_prime/db.py:1163-1306 | replaces a payload under its seal and binds its event in one step, or writes nothing |
| Sqlite.SQLiteStore.SaveEvent | src/nexara_prime/db.py:1308-1333 | insert-or-ignore, answering with the event found by key, or by id when there is no key |
| Sqlite.SQLiteStore.SaveConversationBundle | src/nexara_prime/db.py:456-508 | message, conversation, index row and event in one transaction; an existing row keeps its type, mission and creation columns |
| Bus.EventBus.NotifyPersisted | src/nexara_prime/events.py:18-25 | every subscriber is handed the event once; as long as nobody had heard of it before, no inbox holds an event twice or one that is not durable |
| Bus.EventBus.Publish | src/nexara_prime/events.py:30-62 | subscribers hear of an event exactly when this call inserted it; the call returns exactly when what answers for the event comes from the same producer |
| Migration.InitSchema | src/nexara_prime/db.py:126-366 | the sealing, voting and anchoring loops, over rows and events in any order, compute one upgrade of the store, told column by column: which rows are sealed and how, which are anchored and to what form, as the fields of the request and creation events say; the last loop indexes every message of a stored conversation that was not indexed, under that conversation and with its own time |
| Migration.MigrationMeans | src/nexara_prime/db.py:126-343 | a row is sealed exactly if it is an object whose seal fits or that is older than seals; an approval or evidence without origin is anchored exactly if of all events about its request or creation there is one, by the right actor, under the id and key it must have, about the row's mission and with the record in it, and then to the pending form of that record, or to the record |
| MigrationLiveness.RequestedIsReadable | src/nexara_prime/db.py:197-325 | an approval from before the upgrade, with the event that `request` wrote and no other about its request, is readable afterwards as it is, and passes the origin check exactly if nothing but the decision differs from what was requested |
| MigrationLiveness.ReadableWasRequested | src/nexara_prime/db.py:197-325 | an approval without origin is readable after the upgrade exactly if its seal can be trusted and the one such event exists; an event by another actor, about another mission, or under another id or key never anchors it |
| MigrationLiveness.AddedIsReadable | src/nexara_prime/db.py:244-343 | evidence from before the upgrade, with the event that `add` wrote and no other about its creation, is readable afterwards and anchored to the record made of what was asked for |
| MigrationLiveness.ReadableWasCreated | src/nexara_prime/db.py:244-343 | evidence without origin is readable after the upgrade exactly if its seal can be trusted and the one creation event exists |
| Migration.WinnerIsElected | src/nexara_prime/db.py:174-285 | the fold over request or creation events elects, in any order, what all of them together elect; a spoiled or contradicted entry stays spoiled |
| Migration.MigrationIsIdempotent | src/nexara_prime/db.py:126-343 | upgrading twice is upgrading once |
| Migration.OriginBackfillRestarts | src/nexara_prime/db.py:174-343 | restarting after any part of the origin backfill ends in the same store |
| Migration.SealBackfillRestarts | src/nexara_prime/db.py:119-173 | restarting before the seals were filled gives the same store exactly when no readable row was without a seal |
| Migration.InterruptedSealsLoseAll | src/nexara_prime/db.py:119-173 | of a store from before the seals, a start that restarts there makes nothing readable, and one that goes through makes every ordinary record readable |
| Migration.CorruptRowsAreKept | src/nexara_prime/db.py:131-147 | rows that are no JSON objects, and rows whose seal does not match, are never changed |
| Migration.ConflictQuarantines | src/nexara_prime/db.py:174-285 | one event that spoils an approval's or a piece of evidence's history, or two that disagree, leave it unanchored and so unreadable |
| Migration.MigrationBlessesOnlyTheRequest | src/nexara_prime/db.py:311-343 | an upgraded approval passes the origin check exactly when it differs from its request event in status and decision only |
| Migration.MigrationBlessesOnlyTheCreation | src/nexara_prime/db.py:311-343 | upgraded evidence passes the origin check exactly in the form its creation event describes |
| ApprovalGuarantees.LifecycleIsMonotone | src/nexara_prime/governance.py:360-430 | in every engine run the status moves only from pending to decided or expired and from approved to consumed, and the request never changes |
| ApprovalGuarantees.OneDeciderWins | src/nexara_prime/governance.py:48-80 | of any number of interleaved deciders of one approval at most one commits |
| ApprovalGuarantees.OneDeciderWinsForGood | src/nexara_prime/governance.py:48-80 | once a caller has committed its decision or expiry, no other caller of that approval has committed or ever will, and the first one's answer stands |
| ApprovalGuarantees.FirstDeciderCommits | src/nexara_prime/governance.py:48-80 | a decider whose approval is still as it read it commits exactly when nobody else holds the key of its event |
| ApprovalGuarantees.ReadsNeverFail | src/nexara_prime/governance.py:432-447 | reading and deciding never report a broken approval, even when another transition lands between the envelope read and the event scans |
| ApprovalGuarantees.EventsTellOneStory | src/nexara_prime/governance.py:99-229 | no approval has both a decided and an expired event; a consumed event stands beside a decided event with status approved |
| ApprovalGuarantees.DecisionPrecedesUse | src/nexara_prime/governance.py:231-297 | when a consumed event appears, the approval was approved and its decision on record already |
| ApprovalGuarantees.ConsumptionBelongsToItsUser | src/nexara_prime/governance.py:174-199 | after a consumption `consumption_matches` holds for that actor and use id and for no other, in every later state |
| ApprovalRuns.ConsumedAtMostOnce | src/nexara_prime/governance.py:231-297 | in raw runs, even if others put the status back to approved, at most one call consumes an approval |
| ApprovalRuns.ConsumedAsRequested | src/nexara_prime/governance.py:245-261 | in raw runs a consumed approval equals the first content stored under its id in everything but status and the four decision fields |
| ApprovalExactly.GetExactly | src/nexara_prime/governance.py:432-447 | in every engine run `get` returns a stored approval, with the fields of its row, and nothing else |
| ApprovalExactly.DecideExactly | src/nexara_prime/governance.py:360-430 | in every engine run an undisturbed `decide` answers by its arguments and the stored fields alone: the refusals in their order, the expiry or the decision, and a transition conflict exactly where the key of its event is taken |
| ApprovalExactly.ConsumeExactly | src/nexara_prime/governance.py:231-297 | in every engine run an undisturbed use goes through if and only if the stored approval is approved, a single action, for this actor if it names one, both names are given, and nobody holds the key of its use |
| ApprovalExactly.RequestExactly | src/nexara_prime/governance.py:299-358 | on any tables a request is stored if and only if its id is new and the id and the key of its event are free, or hold that very event |
| ApprovalAnswers.MissingFieldsTakeDefaults | src/nexara_prime/models.py:330-359 | a stored approval is read with the fields it has; one that is missing takes the default listed, and the four that have none must be there |
| ApprovalReading.TerminalIsBorneOut | src/nexara_prime/governance.py:99-229 | on any tables, the transition of an approval is on record exactly if under its id and key stands an event of its kind about its mission by the right actor, with the body that the approval's fields and the status its action stands for make up |
| ApprovalReading.UsableExactlyWhen | src/nexara_prime/governance.py:245-261 | on any tables, what makes an approval usable, in the columns of its row and the arguments of the call |
| ApprovalReading.MatchesExactlyWhen | src/nexara_prime/governance.py:174-199 | where no key is on two events, `consumption_matches` holds exactly for the actor and the use that the recorded use names |
| Approvals.ApprovalEngine.TerminalTransitionIsValid | src/nexara_prime/governance.py:220-229 | the event scan for a terminal status finds the transition exactly when it is recorded, field by field |
| Approvals.ApprovalEngine.ConsumptionTransitionExists | src/nexara_prime/governance.py:136-172 | the event scan finds the consumption exactly when it is recorded as required, field by field |
| Approvals.ApprovalEngine.Request | src/nexara_prime/governance.py:299-358 | the live call does what its steps do, and announces exactly the event it inserted; the row and the event stored have the fields of the request, or nothing is written |
| Approvals.ApprovalEngine.GetApproval | src/nexara_prime/governance.py:432-447 | the live call does what its steps do and writes nothing; on any tables it returns the approval exactly if the row is intact, names itself, is anchored to its pending form and its transition is on record, and else says which of these fails |
| Approvals.ApprovalEngine.Decide | src/nexara_prime/governance.py:360-430 | the live call does what its steps do; subscribers hear exactly the event it inserted, in both the deciding and the expiring branch; on any tables the record returned and stored has the action named, or approved or rejected as asked, the status that action stands for, the signature of the call and all other fields as they were, and the refusals come in their order |
| Approvals.ApprovalEngine.ConsumeSingleAction | src/nexara_prime/governance.py:231-297 | the live call does what its steps do, and announces exactly the event it inserted; on any tables it goes through if and only if the approval is spendable, and then only the status changes |
| EvidenceRules.OriginIsUnique | src/nexara_prime/evidence.py:96-136 | at most one of the forms the search may try is the anchored one |
| EvidenceRules.SearchIsComplete | src/nexara_prime/evidence.py:96-136 | the search finds the anchored form exactly when one of the forms it may try is anchored |
| EvidenceForms.OriginIsFound | src/nexara_prime/evidence.py:96-136 | for a record made by `add` the search succeeds exactly when it was not verified since, or was added under one of the two standard statuses |
| EvidenceForms.MatchMeansAgreement | src/nexara_prime/evidence.py:192-261 | a stored record answers a request exactly when the two requests mean the same |
| EvidenceForms.AgreesWithItself | src/nexara_prime/evidence.py:362-459 | an add agrees with its own record unless it named an empty source event |
| EvidenceGuarantees.OneRecordPerKey | src/nexara_prime/evidence.py:362-459 | at most one evidence record carries a key, and one event holds the key: its creation event |
| EvidenceGuarantees.ReturnedAddsAgree | src/nexara_prime/evidence.py:362-459 | all interleaved adds that return under one key asked for the same and get the same artifact |
| EvidenceGuarantees.FinishedAddsAreRight | src/nexara_prime/evidence.py:192-261 | a keyed add returns only for the request the record was added for, and fails only for another request, a record that can no longer be traced to its first form, or an event conflict |
| EvidenceConflicts.ConflictWasDisputed | src/nexara_prime/db.py:1025-1142 | an add or a verification reports an event conflict only if at some time before another event held the id or the key of its event |
| EvidenceConflicts.AgreeingAddReturns | src/nexara_prime/evidence.py:362-459 | where nobody else touches the events of the key, every finished add that asked for what the record was added for returns its artifact, unless the record can no longer be traced to its first form |
| EvidenceConflicts.CallersKeysAreQuiet | src/nexara_prime/evidence.py:362-510 | no other add and no verification ever touches the events of a key that a caller made up |
| EvidenceGuarantees.LaterAddsChangeNothing | src/nexara_prime/evidence.py:263-360 | once a record holds the key's id, no add under the key changes either table |
| EvidenceGuarantees.RetriesSuffice | src/nexara_prime/evidence.py:263-360 | the two repair rounds are always enough, and the repair event is never ambiguous |
| EvidenceGuarantees.VerifiedIsTrusted | src/nexara_prime/evidence.py:461-537 | a returned verification was true, and the record then counts as preverified exactly when it was added under a standard status |
| EvidenceCases.OddStatusIsNotTrusted | src/nexara_prime/evidence.py:461-537 | a run: evidence added under any other status is verified, the call returns true, and the record does not count as preverified |
| EvidenceGuarantees.TrustLasts | src/nexara_prime/evidence.py:512-537 | that stays so in all later states, also for a check that reads the record now and its events later |
| EvidenceGuarantees.SecondVerifyChangesNothing | src/nexara_prime/evidence.py:461-510 | after a verification has returned no further verification changes the tables |
| EvidenceGuarantees.LostRaceMeansVerified | src/nexara_prime/evidence.py:461-510 | a verification that loses its compare-and-set loses it to another verification |
| EvidenceGuarantees.ReplaySucceeds | src/nexara_prime/evidence.py:263-360 | replaying an agreeing add returns in six steps and writes nothing, verified or not |
| EvidenceTrust.TrustedIsAsFirstWritten | src/nexara_prime/evidence.py:512-537 | in raw runs preverified evidence has the type, mission, creation time and fields of its first write, but for status, envelope digest and, without a request digest, the source event |
| EvidenceTrust.TrustNeedsProof | src/nexara_prime/evidence.py:160-190 | in raw runs evidence not first written as verified is trusted only with a verification event for its content |
| EvidenceAnswers.VerifyMeans | src/nexara_prime/evidence.py:461-510 | on any tables: what is no intact evidence, or does not name its own id, its row's mission and the digest of its eleven identity fields, is refused and nothing written; else the answer is whether the content fits its digest, and only status and envelope digest change, beside the one event |
| EvidenceAnswers.PreverifiedSees | src/nexara_prime/evidence.py:512-537 | evidence that counts as preverified names itself and its mission under a fitting envelope digest, has content that fits and the status verified |
| EvidenceAnswers.ClaimMeans | src/nexara_prime/evidence.py:362-459 | the record and the event of a new add hold every argument of the call, the ids and keys derived from it and both digests |
| EvidenceReplays.EveryAddReturnsAsAsked | src/nexara_prime/evidence.py:362-459 | in every run, whoever else writes what, every artifact that an add returns says what its caller asked for |
| EvidenceReplays.ReplayExactlyWhen | src/nexara_prime/evidence.py:192-261 | on any tables a stored record is accepted for a request exactly if it is intact, consistent evidence of the mission, can be traced to its first form and has the fields and the request digest of that request; the two refusals are told apart |
| EvidenceReplays.SearchMeans | src/nexara_prime/evidence.py:96-136 | the search finds a form exactly if the row is anchored to one of the forms it may try, written out field by field |
| EvidenceReplays.ScanPlans | src/nexara_prime/evidence.py:284-343 | where nobody holds the key, a repair binds the record to the one old creation event or to a new one with the first form in it, fills only a missing source event, and gives up where there are two |
| EvidenceEngine.EvidenceStore.Add | src/nexara_prime/evidence.py:362-459 | the live call does what its steps do when no other caller interferes; what it returns says what was asked for, and a new record and its event hold every argument |
| EvidenceEngine.EvidenceStore.Verify | src/nexara_prime/evidence.py:461-510 | the live call does what its steps do when no other caller interferes; on any tables its answer is that of the row's own fields, envelope digest included |
| EvidenceEngine.EvidenceStore.IsPreverifiedAndIntegrityBound | src/nexara_prime/evidence.py:512-537 | the live check answers exactly as the trust predicate says |
| Receipts.EveryRowCountedOnce | src/nexara_prime/db.py:982-1023 | every row in scope, by column or by payload mission, is counted exactly once, as valid or as corrupt |
| Receipts.CountsAddUp | src/nexara_prime/evidence.py:539-612 | gaps, unverifiable and verified receipts add up to the valid tool rows |
| Receipts.IntactMeansEveryLink | src/nexara_prime/evidence.py:539-612 | a chain is intact exactly when every invocation has a receipt that verifies, no failure lacks its code and no tool row is corrupt |
| Receipts.PresentMeansIntact | src/nexara_prime/evidence.py:709-780 | the status is present exactly when the chain is intact and a relevant tool ran, and invalid exactly when a row is corrupt or a failure unexplained |
| Receipts.SecondAuditRepeats | src/nexara_prime/evidence.py:539-612 | a second audit, at any later time, gives the same report and leaves the store as it is |
| ReceiptAnswers.AuditMeans | src/nexara_prime/evidence.py:539-612 | on any tables, in any order of the query: each readable tool row of the mission is one link, which has a receipt exactly if some listed evidence names the invocation and, where the row gives a receipt id, has that id; it verifies exactly if that evidence would verify on the tables as they were; the counts are the numbers of such links |
| ReceiptAnswers.StatusMeans | src/nexara_prime/evidence.py:709-780 | on any tables: present exactly if every tool row of the mission is intact, has its receipt, which verifies, and no failure lacks its code, and a tool asked about ran; invalid exactly if a row is corrupt or a failure unexplained |
| ReceiptAnswers.VerifiableStays | src/nexara_prime/evidence.py:461-510 | verifying one record makes no other verifiable or unverifiable, nor itself |
| ReceiptAnswers.AddedReceiptIsPresent | src/nexara_prime/evidence.py:539-612 | where the mission has no tool record, adding evidence for an invocation and then the tool record that names both makes the status present |
| ReceiptAnswers.FirstReceiptIsPresent | src/nexara_prime/evidence.py:709-780 | so the first evidence of an empty store and the tool record that names it are attested |
| ReceiptAudit.ReceiptAuditor.AuditRecordEnvelopes | src/nexara_prime/db.py:982-1023 | the loop sorts the rows in scope into valid and corrupt |
| ReceiptAudit.ReceiptAuditor.VerifyReceiptChain | src/nexara_prime/evidence.py:539-612 | the loop with its three counters computes the report, and each receipt is verified on the way; the report says of the tables, as the audit finds them, which tool rows are corrupt, which have a receipt and which of those verify |
| ReceiptAudit.ReceiptAuditor.ReceiptStatus | src/nexara_prime/evidence.py:709-780 | the status follows from the report, branch by branch, and is present, invalid or missing as the tool and evidence rows say |
| EvaluationSteps.PassesExactlyWhen | src/nexara_prime/evaluation.py:42-50 | a mission passes exactly with a report in a final state, low risk, a tool call and at least four pieces of evidence |
| EvaluationSteps.ScoresAreBounded | src/nexara_prime/evaluation.py:42-50 | every score lies between nothing and one and is reported as computed; more evidence lowers none and undoes no pass |
| EvaluationAnswers.ResultIs | src/nexara_prime/evaluation.py:42-64 | the scores in numbers: a quarter of coverage for each piece of evidence up to four, five hundred over the tokens beyond five hundred, and the two values of each other score with the condition for the higher one |
| EvaluationGuarantees.ReturnedEvaluationsAgree | src/nexara_prime/evaluation.py:15-129 | all interleaved calls that return under one key are for one mission and return equal results |
| EvaluationGuarantees.OneEvaluationPerKey | src/nexara_prime/evaluation.py:65-86 | a key has at most one stored evaluation and one mapping, and both or neither |
| EvaluationGuarantees.OtherMissionsChangeNothing | src/nexara_prime/evaluation.py:88-119 | a call of another mission under a won key never returns and never writes |
| EvaluationGuarantees.WinningMissionNeverConflicts | src/nexara_prime/evaluation.py:88-147 | a call of the winning mission returns the winner's result or reports an event conflict, nothing else |
| EvaluationConflicts.ConflictWasContested | src/nexara_prime/events.py:30-62 | a call reports an event conflict only if at some time before an event of another producer, or under another key, held the id or the key of its event |
| EvaluationConflicts.WinningMissionReturns | src/nexara_prime/evaluation.py:88-147 | where others leave the events of the key alone, every finished call of the winning mission returns the winner's result |
| EvaluationGuarantees.WinnersStay | src/nexara_prime/db.py:510-571 | a key once won keeps its evaluation unchanged |
| Evaluations.EvaluationEngine.Evaluate | src/nexara_prime/evaluation.py:15-147 | the live call does what its steps do; subscribers hear exactly the event it inserted; what it returns was stored, with those scores and its mapping, or was found stored for this mission and key |
| Evaluations.PreparedIsTheSteps | src/nexara_prime/evaluation.py:15-147 | the class's account of a keyed call is the chain of steps that the runs interleave |
| MemoryGuarantees.OneContentPerKey | src/nexara_prime/memory.py:115-148 | in every run of write, propose and patch two committed records of one mission, or of none, under one key have the same content |
| MemoryGuarantees.SupersessionEndsCommitted | src/nexara_prime/memory.py:115-136 | following `superseded_by` from any record ends, in no more steps than there are records, at a committed record with the same key |
| MemorySteps.AloneWriteIsOneMove | src/nexara_prime/memory.py:102-148 | a write that nobody disturbs after its look leaves, store call by store call, what the single move of the runs leaves |
| MemorySteps.AloneProposalIsOneMove | src/nexara_prime/memory.py:258-328 | so does a proposal, and a patch, which maps its own key last |
| MemoryAgreement.LateSaveAgreesExactlyWhen | src/nexara_prime/memory.py:137-144 | a record saved long after its call looked keeps one content per key exactly when no committed record of the mission says something else by then |
| MemoryAgreement.AgreesExactlyWhen | src/nexara_prime/memory.py:82-328 | in every interleaved run the committed records of a mission agree at all times exactly when every record is committed while nothing that stands says something else |
| MemoryAgreement.WithoutOverlapAgrees | src/nexara_prime/memory.py:115-144 | it is enough that nobody commits while a call of the mission with another content for the key is between its look and its save |
| MemoryAgreement.TwoWritesLeaveTwoContents | src/nexara_prime/memory.py:82-148 | a run: two writes of different contents both look, both save, both succeed, and the key has two contents |
| MemoryAgreement.SupersessionEndsOrIsOnItsWay | src/nexara_prime/memory.py:115-144 | in every interleaved run following `superseded_by` ends, in no more steps than there are rows, at a committed record with the same key, or at one that a call under way is about to save under it |
| MemoryAgreement.RetiredDangles | src/nexara_prime/memory.py:125-136 | between a retirement and the save the retired record leads nowhere |
| MemoryAgreement.RetiredLeadsNowhere | src/nexara_prime/memory.py:115-144 | a run: one write goes through, another of other content looks and retires its record; until that one saves, the only row stored is a memory record that leads nowhere |
| MemoryAnswers.WriteMeans | src/nexara_prime/memory.py:82-148 | on any tables: a write returns and stores a committed record of its arguments, verified and canonical exactly when evidence is named, and retires exactly the committed records of the scope that say otherwise; decisions, failures, failure experiences and patches of a mission are refused without evidence; a replay answers only the same request |
| MemoryAnswers.ProposeMeans | src/nexara_prime/memory.py:258-328 | on any tables: a proposal is committed at once exactly when asked to be, no inference, at a confidence of at least 0.8, with evidence and nothing committed saying otherwise; else it is filed as a candidate, or with its conflicts named; blank texts and confidences outside nothing to one are refused, and a committed record that says the same answers for it |
| MemoryAnswers.PatchMeans | src/nexara_prime/memory.py:212-256 | on any tables: what the mapping found under the key answers, refusal by refusal, and else a patch is such a proposal at full confidence whose record then gets the key |
| MemoryReplay.WriteLeavesOneContent | src/nexara_prime/memory.py:82-148 | after a write every committed record of its scope under the key says what was written |
| MemoryReplay.RecallAfterWrite | src/nexara_prime/knowledge.py:171-206 | right after a write recall in its scope returns exactly one record for the key, with the written content |
| MemoryReplay.WriteReplaysExactlyWhen | src/nexara_prime/memory.py:84-101 | a keyed write is a replay exactly when the mapping found and the record it names are its own mission's; a replay writes nothing and answers only the stored request; any other write is carried out |
| MemoryReplay.ReplayAnswersExactlyWhen | src/nexara_prime/memory.py:84-101 | after any further moves the same keyed write is sure to answer with its record, the same but for its standing, and to write nothing, exactly when every mapping of the key that serves another mission is later than its own |
| MemoryKeys.FoundExactlyWhen | src/nexara_prime/db.py:1144-1161 | the search for a key is sure to hand back the mission's own mapping exactly when every mapping of the key that serves others is later |
| MemoryKeys.RunKeepsKeys | src/nexara_prime/memory.py:84-145 | in every run mappings of one key name different records, and a mission has two mappings of a key only where another mission used it before |
| MemoryCases.RepeatIsWrittenAgain | src/nexara_prime/memory.py:84-101 | a run: a mission writes under a key, another writes under it and repeats its call word for word; the other mission then has two committed records of one request |
| MemoryReplay.PatchReplaysExactlyWhen | src/nexara_prime/memory.py:212-256 | repeating a patch under its key answers as before and writes nothing exactly when the first one settled |
| MemoryCases.PatchCannotBeRepeated | src/nexara_prime/memory.py:212-256 | a run: on an empty store a patch without evidence returns a candidate, and every repeat of it is refused |
| MemoryReplay.CommitKeepsAgreementExactlyWhen | src/nexara_prime/memory.py:330-344 | committing by hand keeps one content per key exactly when no committed record of the mission says something else |
| MemoryReplay.CommitCanBreakAgreement | src/nexara_prime/memory.py:330-344 | a candidate proposed, another content written, the candidate committed: two contents under one key |
| MemoryEngine.MemoryKernel.Supersede | src/nexara_prime/memory.py:115-136 | the loop retires exactly the outdated records of the scope and remembers one of the newest |
| MemoryEngine.MemoryKernel.Write | src/nexara_prime/memory.py:82-148 | the live call leaves the tables and the answer that the runs are about; the record returned and the row stored have the arguments in their fields and are verified and canonical exactly when source evidence is named |
| MemoryEngine.MemoryKernel.Propose | src/nexara_prime/memory.py:258-328 | the live call leaves the tables and the answer that the runs are about, with status, record type, mapping, conflicts and events as the arguments and the scope say |
| MemoryEngine.MemoryKernel.Patch | src/nexara_prime/memory.py:212-256 | the live call leaves the tables and the answer that the runs are about: a patch of kind patch at full confidence, or what the key's mapping answers |
| MemoryEngine.MemoryKernel.CommitCandidate | src/nexara_prime/memory.py:330-344 | the live call blesses the record without looking at its scope: status, verified and canonical change, the other fields stay; inferences and candidates with conflicts are refused |
| Knowledge.PredictionExactlyWhen | src/nexara_prime/knowledge.py:57-97 | the report names exactly the records the next write retires, unless the scope holds both the new content and another under the key |
| Knowledge.PredictionMatchesTheKernel | src/nexara_prime/knowledge.py:57-97 | in every run, for a mission, the report names exactly the records the next write retires |
| MemoryCases.TwoMissionsAreMissed | src/nexara_prime/knowledge.py:57-97 | a run: two missions write different contents under one key; asked without a mission the report names nothing, though the next such write retires a record |
| Knowledge.GlobalPredictionCanMiss | src/nexara_prime/knowledge.py:57-97 | without a mission it can miss: two missions that hold different contents under one key |
| Knowledge.OneStandsPerKey | src/nexara_prime/knowledge.py:171-206 | under each key exactly one record survives recall, the last committed, if any was committed |
| Knowledge.SurvivingAreNotReplaced | src/nexara_prime/knowledge.py:171-206 | the records recalled are exactly the committed ones that nothing later under their key replaces |
| Knowledge.RecallIsOnePerKey | src/nexara_prime/knowledge.py:171-206 | in every run recall returns one record for each key committed in the scope; within a mission it says what every committed record of the key says |
| KnowledgeEngine.KnowledgeService.DetectSupersession | src/nexara_prime/knowledge.py:57-97 | the report predicts exactly what the next write retires if, and only if, the scope does not hold both the new content and another under the key; it names the first record that says the content, or every committed record under the key |
| KnowledgeEngine.KnowledgeService.QueryNonSuperseded | src/nexara_prime/knowledge.py:171-206 | the dictionary of groups and the set of replaced ids leave exactly the surviving records |
| ConversationReplay.ProjectionsAgree | src/nexara_prime/conversations.py:139-210 | in every run a message id is listed by its conversation exactly when it is stored, indexed and announced for that conversation |
| ConversationReplay.InOneOrder | src/nexara_prime/conversations.py:164-196 | no message is listed twice, and listed messages are stored and announced in the listed order, strictly so when the clock moves between calls |
| ConversationReplay.MessagesAreTheList | src/nexara_prime/conversations.py:93-103 | when the clock moves between calls `messages` returns exactly the listed messages in the listed order |
| ConversationReplay.BackfillIsIdle | src/nexara_prime/db.py:353-366 | a restart finds no index row to add |
| ConversationReplay.AppendAnswers | src/nexara_prime/conversations.py:139-163 | under a key an append adds a message exactly when no message of the conversation has the key; otherwise it writes nothing and returns that message or refuses different content |
| ConversationReplay.ReplayReturnsTheMessage | src/nexara_prime/conversations.py:154-163 | after any further calls the same append to an open conversation returns the message first returned and changes nothing |
| ConversationReplay.RunKeepsMessages | src/nexara_prime/conversations.py:139-210 | no call ever loses or changes a stored message |
| ConversationAnswers.StripTrims | src/nexara_prime/conversations.py:139-147 | what a message keeps of its text is the text without the white space around it |
| ConversationAnswers.TrimmedOnce | src/nexara_prime/conversations.py:139-147 | and there is one such text |
| ConversationAnswers.AppendMeans | src/nexara_prime/conversations.py:139-210 | on any tables: the refusals in their order, the message found under the key, or a new message with the trimmed text and the other arguments, one id more in the list, a title of at most 120 characters from a first user message, the index row and the event |
| ConversationLog.LogHidesStatusExactlyWhen | src/nexara_prime/conversations.py:212-283 | closing and reopening leave the event log as it was exactly when the keys of both kinds were taken before |
| ConversationLog.ChangeIsLoggedExactlyWhen | src/nexara_prime/conversations.py:212-283 | a change of status is saved in any case; it adds no event exactly when the key of its kind is taken, and raises exactly when the event that took it is somebody else's |
| ConversationLog.SecondCloseLeavesNoTrace | src/nexara_prime/conversations.py:212-283 | a run: created, closed, reopened, closed; the last call returns and the event log is what it was while the conversation stood open |
| ConversationLog.ClosingRaises | src/nexara_prime/conversations.py:212-247 | a run: a conversation is created, somebody else records any event of theirs under the key of its closing, and closing it raises and leaves it closed |
| ConversationLate.LateAppendAgreesExactlyWhen | src/nexara_prime/conversations.py:139-210 | an append that writes late keeps list, records, index and announcements together exactly when the conversation still lists what the call read |
| ConversationLate.LateStatusAgreesExactlyWhen | src/nexara_prime/conversations.py:212-283 | so does a close or reopen that writes late |
| ConversationLate.TwoAppendsLoseOne | src/nexara_prime/conversations.py:139-210 | after any run, of two appends that read the same conversation the first leaves a message that is stored, indexed and announced and not listed |
| ConversationLate.TwoAppendsToANewConversation | src/nexara_prime/conversations.py:139-210 | a run: a conversation just created loses one of two such appends from its list |
| ConversationRaces.LateCloseDropsMessage | src/nexara_prime/conversations.py:212-247 | a run: created, a message posted; a close that read the conversation before drops the message from its list |
| ConversationRaces.LateAppendKeepsKeysExactlyWhen | src/nexara_prime/conversations.py:154-163 | an append that writes late leaves each key to one message exactly when it has no key or no message of the conversation has it by then |
| ConversationRaces.TwoKeyedAppendsLeaveTwo | src/nexara_prime/conversations.py:139-210 | a run: two appends under one key that both search a new conversation before either writes are both stored under it |
| ConversationRaces.LateAppendReopensExactlyWhen | src/nexara_prime/conversations.py:139-210 | an append that read the conversation open leaves it open, and leaves its status as it finds it exactly when it was not closed meanwhile |
| ConversationRaces.LateAppendReopens | src/nexara_prime/conversations.py:139-210 | a run: created and closed; an append that read the conversation before opens it and adds its message |
| ConversationEngine.ConversationStore.Create | src/nexara_prime/conversations.py:35-72 | the live call leaves the tables and the answer that the runs are about: open, empty, under the trimmed title asked for, cut to 120 characters, or the standard one |
| ConversationEngine.ConversationStore.Get | src/nexara_prime/conversations.py:74-83 | a conversation is returned exactly when the record names itself and an intact conversation record of that id exists; the refusals are told apart |
| ConversationEngine.ConversationStore.Messages | src/nexara_prime/conversations.py:93-103 | the loop keeps exactly the messages of the conversation, oldest first |
| ConversationEngine.ConversationStore.FindMessageByIdempotency | src/nexara_prime/conversations.py:105-111 | finds a message of the conversation with the key, or there is none |
| ConversationEngine.ConversationStore.AppendMessage | src/nexara_prime/conversations.py:139-210 | the live call leaves tables, index and answer that the runs are about, field by field |
| ConversationEngine.ConversationStore.Close | src/nexara_prime/conversations.py:212-247 | the live call leaves the tables and the answer that the runs are about: status and time change, and the event is inserted where its id and key are free |
| ConversationEngine.ConversationStore.Reopen | src/nexara_prime/conversations.py:249-283 | the live call leaves the tables and the answer that the runs are about: status and time change, and the event is inserted where its id and key are free |
| CapabilityRestart.RestartAgrees | src/nexara_prime/capabilities.py:199-257 | after any faithful run a registry rebuilt from the store has the live success rate, averages, evidence count and confidence for every capability, and, if the clock moves or there are at most a hundred outcomes, the live failure rate |
| CapabilityTies.RestartAgreesExactlyWhen | src/nexara_prime/capabilities.py:199-257 | after any faithful run whose clock does not go back, a registry rebuilt from whatever order the store lists ties in has every live score exactly when no outcome inside the window of the last hundred shares its timestamp with one before it, or those that share it succeeded alike |
| CapabilityCases.TiedRunDisagrees | src/nexara_prime/capabilities.py:199-257 | a run: a hundred and one outcomes at one moment, the first a failure; there is a listing after which the failure rate differs |
| CapabilityRestart.UpdateKeepsAgreementExactlyWhen | src/nexara_prime/capabilities.py:342-398 | after a faithful run one more `update_score`, whatever its arguments, keeps that agreement exactly when its evidence is empty just where the stored evidence id is |
| CapabilityCases.EmptyEvidenceDeparts | src/nexara_prime/capabilities.py:342-398 | a run after which an update with an empty evidence id makes every restart disagree |
| CapabilityCases.LateEvidenceDeparts | src/nexara_prime/capabilities.py:342-398 | a run after which an update that replays a key, now with evidence, makes every restart disagree |
| CapabilityCases.ForeignKeyDeparts | src/nexara_prime/capabilities.py:342-398 | a run after which an update under a key of another capability makes every restart disagree |
| CapabilityCases.RecordOnlyKeepsAgreementExactlyWhen | src/nexara_prime/capabilities.py:259-340 | after a faithful run, recording an outcome without rescoring keeps the agreement exactly when the key was known, or the outcome succeeded as all before it, has the average latency and cost, and brings no evidence |
| CapabilityCases.RecordedFirstDeparts | src/nexara_prime/capabilities.py:259-340 | a run: the first outcome of a capability recorded without rescoring; every restart then disagrees |
| CapabilityRestart.RegisterKeepsAgreementExactlyWhen | src/nexara_prime/capabilities.py:127-156 | registering a capability keeps that agreement exactly when no outcome of it is stored |
| CapabilityCases.RegisteringAgainForgets | src/nexara_prime/capabilities.py:127-156 | a run: registered, scored, registered again; every restart then disagrees |
| CapabilityRestart.OneOutcomePerKey | src/nexara_prime/capabilities.py:301-317 | at most one outcome is ever stored under a key, whatever the capability |
| CapabilityRestart.RepeatChangesNothing | src/nexara_prime/capabilities.py:342-398 | repeating an `update_score` under its key changes no record, entry, score or source |
| CapabilityAnswers.LiveMeans | src/nexara_prime/capabilities.py:420-454 | the live score in numbers: successes over outcomes, failures over the last hundred or fewer, the averages, the number of outcomes with evidence, and a confidence of 0.3 up to three of these and a tenth for each up to one |
| CapabilityAnswers.RebuiltMeans | src/nexara_prime/capabilities.py:224-257 | the rebuilt score likewise, with the number of pieces of evidence |
| CapabilityAnswers.UpdateMeans | src/nexara_prime/capabilities.py:342-454 | an update adds one entry and one record of its arguments unless the key was seen, gives its evidence to the first entry with the key or to the last, and the score then says what the history says, with every piece of evidence among its sources |
| CapabilityAnswers.RestartMeans | src/nexara_prime/capabilities.py:199-257 | a new registry has, for each capability with stored outcomes, one entry for each of them, oldest first, with its fields, and the score of these |
| CapabilityEngine.CapabilityRegistry.constructor | src/nexara_prime/capabilities.py:34-51 | a new registry is exactly the one rebuilt from the stored outcomes, entry by entry and score by score |
| CapabilityEngine.CapabilityRegistry.LoadHistory | src/nexara_prime/capabilities.py:199-222 | the loop files every stored outcome under its capability, oldest first |
| CapabilityEngine.CapabilityRegistry.RecordHistory | src/nexara_prime/capabilities.py:259-340 | adds one outcome to memory and store, unless the key is in this history or in any stored record |
| CapabilityEngine.CapabilityRegistry.UpdateScore | src/nexara_prime/capabilities.py:342-454 | the live call leaves the lists, records and scores that the runs are about, and these say what the arguments and the history say |
| Leases.OneWriterAtATime | src/nexara_prime/governance.py:480-506 | in every state of every run two leases on one resource that are active at the same time have the same writer |
| Leases.AcquireExactlyWhen | src/nexara_prime/governance.py:484-490 | the loop of `acquire` finds no conflict exactly when no other writer holds the resource |
| Leases.ReleaseIsFinal | src/nexara_prime/governance.py:497-506 | a released lease is never active again |
| Leases.WithoutTheLockBothHold | src/nexara_prime/governance.py:478-495 | two requests of different writers that both pass the loop before either writes both hold the resource: the lock is what excludes |
| Leases.LateGrantExcludesExactlyWhen | src/nexara_prime/governance.py:484-495 | a lease granted long after its look keeps one writer per resource exactly when nobody else holds the resource by then, or the lease is over by then |
| LeaseAnswers.GrantedExactlyWhen | src/nexara_prime/governance.py:480-490 | in every state of every run a look at one moment passes exactly when no lease row of another writer on the resource is switched on with its expiry to come |
| LeaseAnswers.ReleaseFrees | src/nexara_prime/governance.py:484-506 | while one lease alone is active on a resource every other writer is barred; after its owner's release nobody is |
| LeaseEngine.WriterLeaseManager.Acquire | src/nexara_prime/governance.py:484-495 | the loop either grants the lease with no other writer active, saves it with the fields of the request and announces it to every subscriber, or stops at a lease that bars it or cannot be read and writes nothing |
| LeaseEngine.WriterLeaseManager.Release | src/nexara_prime/governance.py:497-506 | only the owner's release goes through; it saves the lease as inactive, all else as it was, and announces it to every subscriber; the three refusals are told apart |

## Left out

- SQLite, JSON text, SHA-256 bits, threads, file locks: a store method is one atomic step, encoding is the
  identity, digests are injective constructors.
- The security audit calls in the conversation store: they write nothing the modelled code reads.
- `list_records` over rows that cannot be decoded raises in the source; the listing methods require readable
  rows of the listed type.
- Floating point: scores, averages and confidences are real numbers.
- Sqlite.SQLiteStore.ListRecords: rows whose payload is JSON but no object are handed back as they are by the
  source, and are excluded here.
- Sqlite.SQLiteStore.CompareAndSetRecordField: a malformed payload raises in the source and is a refusal here;
  nothing is written either way.
- MemoryGuarantees.OneContentPerKey: calls run one after another here, see MemoryAgreement.AgreesExactlyWhen for
  interleaved ones. `commit_candidate` is not a move, see MemoryReplay.CommitKeepsAgreementExactlyWhen.
- MemoryAgreement.AgreesExactlyWhen: a keyed search that reads the mapping and then its record is one step.
- MemoryEngine.MemoryKernel.Propose: the kind is taken as given; turning unknown kind names into a default kind
  is left out.
- KnowledgeEngine.KnowledgeService.QueryNonSuperseded: the kind and key filters, applied to the result, are left out.
- ConversationReplay.ProjectionsAgree: calls run one after another here; for a call that writes late see
  ConversationLate.LateAppendAgreesExactlyWhen.
- ConversationEngine.ConversationStore.Messages: the order by message id among messages with equal times.
- ConversationReplay.AppendAnswers: keys are looked up within one conversation, so two conversations may use one key.
- CapabilityRestart.RestartAgrees: the moves are registering, `update_score` and restarting; for a direct call of
  `record_history` see CapabilityCases.RecordOnlyKeepsAgreementExactlyWhen. The decay of confidence with time is left out.
- CapabilityEngine.CapabilityRegistry.constructor: a registry without a store, and the default capabilities, are left out.
- Leases.OneWriterAtATime: one manager, as its lock is per object.
- `MemoryLayerManager`, patch review, retrieval and keyword search: glue over other modules.
- `verify_evidence_binding`, `verify_all`, `state_change` and other read-only summaries.
- Policy tables, schedulers, adapters, API, command line and user interface.
