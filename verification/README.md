# Verification of the durable state machines

This project models, in Dafny, the parts of the FLOP agent whose value is that they stay correct through
crashes, restarts, repeated calls and odd clocks, and proves what they promise. Each section below is a group of
modules; the modules ending in `Safety`, `Theorems` or `Runs` hold the main results.

- **Observation journal and one-shot runner** (`Journal*.dfy`, `Runner*.dfy`). A hash-chained write-ahead journal,
  its record grammar, the guards of each operation, atomic replacement with fsync, the recovery projection, and
  the runner that requests four fixed sources at most once each. `RunnerProtocol` is a state machine over many
  processes with every system call a separate step that may fail, processes that die and power losses that bring
  back the durable file. `JournalStore.Store` and `Runner.FixtureRunner` are the same operations as the program
  runs them.
- **Engagement scheduler** (`Scheduler*.dfy`). A persisted circuit breaker with a pruned 24-hour window. Each
  possible file content carries the unbounded history that led to it; clock readings are arbitrary.
- **Engagement history** (`Lines.dfy`, `History*.dfy`). A sorted JSON-lines history with tail recovery,
  de-duplication and atomic replacement.
- **KV observatory** (`Kv*.dfy`). Note rows against the whole poll history, and snapshot publication through a
  symbolic link with ten fault points.
- **Delegation resolution** (`Delegation*.dfy`), **Base58 and did:key** (`Base58.dfy`, `Did*.dfy`), **Presence
  writer** (`Presence*.dfy`), **collaboration log** (`Collaboration*.dfy`) and **retention ceremony**
  (`Retention*.dfy`).

Where the program updates something in place there is a class or a method with the same loops, proved equal to
a specification function; what is promised is then proved of that function, over all inputs and all runs. The
classes' `Valid()` is the invariant those proofs keep, and their methods promise what follows from it.
Lemmas and predicates called `Tells`, `Means` or `Says` state in the records' own fields what an operation answers
and leaves, without the functions it is computed with.
`dafny verify dfyconfig.toml` checks everything.

## Conventions

- Hashes are injective: a digest is a term of a datatype that contains what it is a digest of, or stands for that
  value itself. Signature checks are arbitrary predicates; one body may have many valid signatures.
- Codecs (JSON with validation) are parameters with stated laws: `JournalBytes.Lawful`, `HistoryFile.Lawful`.
  `JournalCodec.CodecIsLawful` and `HistoryCodec.CodecIsLawful` exhibit codecs that meet them, built on `TokenCodec`.
- The file system keeps replace, fsync, locks and crashes. A list of images is the set of contents a power loss may
  leave, the last one being what a reader sees.
- Calls on the presence state and on snapshot directories are modelled one after another, since the program takes
  no lock there.

## Findings

Where the code does not do what one would expect, the exact condition is proved, and an input at which it fails is
exhibited.

- Inspecting a finalized history whose durability is unknown raises, since the state shown is then
  RECONCILIATION_REQUIRED while the validator wants FINALIZED
  (`src/flop_agent/durable_observation_journal.py:637-659`). Condition: `JournalProjection.ProjectionErrors`.
  Input: `JournalWitness.FinalizedUnknownRejected`, and a run that gets there when the directory fsync of the last
  append fails, `JournalWitness.FinalizeUnderFailingSync`.
- Validation admits an interrupted run in a disabled state, and recovery re-enables the scheduler
  (`src/flop_agent/engagement_scheduler.py:470-472`). Condition: `SchedulerSafety.RecoveryReenables`. Input:
  `SchedulerSafety.RecoveryReenablesWitness`. No operation reaches such a state.
- Snapshot recovery raises instead of skipping a generation when a file is not text, is JSON but no object, or has a
  list or an object for its identifier or time (`src/flop_agent/kv_observatory.py:510-513`, `546`, `559`).
  Condition: `KvSnapshotsSafety.EscapesIff` for one generation, `KvSnapshotsSafety.RecoveryRestoresIff` for
  recovery. Inputs: `KvSnapshotsSafety.RecoveryCanFail`, `KvSnapshotsSafety.RecoveryCanFailTwice`. No interrupted
  write leaves such a generation.
- A row whose JSON contains U+0085, U+2028 or U+2029 is appended and makes the history unloadable, because loading
  splits text and appending splits bytes (`src/flop_agent/engagement_history.py:91-92`, `133`). Condition:
  `HistoryTail.AppendThenLoad`. Input: `HistoryWitness.WideRowUnloadable`.
- An unterminated last line with a byte order mark, or in UTF-16, is no row for loading, which parses text, and a
  row for appending, which parses bytes; appending completes it with a newline, and the history no longer loads
  (`src/flop_agent/engagement_history.py:94`, `136-137`). Condition: `HistoryTail.AppendThenLoad`. Input:
  `HistoryWitness.MarkedTailSpoils`.
- A torn tail that stops inside a character, or has a break of the previous kind in it after which loading finds
  something that is neither blank nor a row, is set aside but not removed, and every later append fails
  (`src/flop_agent/engagement_history.py:92-99`, `138-142`). Condition: `HistoryStore.TornTail`, for ever by
  `HistoryStore.RefusedForever`. Inputs: `HistoryWitness.CutCharacterRefused`, `HistoryWitness.BrokenTailRefused`.
- A tail of a break and then a row loads as that row, and the next append sets the row aside
  (`src/flop_agent/engagement_history.py:92-94`, `133-141`). Condition: `HistoryTail.TailKeys`. Input:
  `HistoryWitness.RowSetAside`.
- A presence write whose answer is lost stops the writer for good (`src/flop_agent/presence.py:461-467`).
  Condition: `PresenceSafety.StoppedIffDiverged`. Input: `PresenceSafety.LostAnswerWitness`.
- The successor recorded for a superseded delegation may be another signature of the same body when the input order
  changes (`src/flop_agent/delegation_resolution.py:67-73`); states, ranks and counts do not depend on it. Condition:
  `DelegationResult.SuccessorOrderFreeIff`. Input: `DelegationResult.SuccessorFollowsOrder`.

## Model

| member | source | states |
|---|---|---|
| JournalRecords.HeadDeterminesJournal | src/flop_agent/durable_observation_journal.py:188-192 | two chained journals with the same head hash are equal record for record |
| JournalRecords.ChainedExtend | src/flop_agent/durable_observation_journal.py:183-192 | appending a record keeps the hash chain exactly when the record carries the old head, the next sequence and the fixed plan and attempt |
| JournalRecords.ChainedPrefix | src/flop_agent/durable_observation_journal.py:188-192 | every prefix of a chained journal is chained |
| JournalGrammar.HistoryValid | src/flop_agent/durable_observation_journal.py:240-268 | the index-advancing scan accepts exactly the record lists an independent stage automaton accepts |
| JournalGrammar.StagePrefix | src/flop_agent/durable_observation_journal.py:240-268 | the record grammar is closed under prefixes |
| JournalGrammar.AtMostSeventeen | src/flop_agent/durable_observation_journal.py:240-268 | no accepted history has more than seventeen records |
| JournalBytes.InspectBytes | src/flop_agent/durable_observation_journal.py:219-237 | the line loop classifies bytes as the recursive specification does, the early TORN_TAIL return included |
| JournalBytes.ValidIsChained | src/flop_agent/durable_observation_journal.py:219-237 | whatever is read is a chained record list, and whatever is read as VALID is also in the grammar |
| JournalBytes.WrittenReadsBack | src/flop_agent/durable_observation_journal.py:407-412 | decoding the encoding of a chained history in the grammar gives VALID and the same records |
| JournalBytes.CutJournalReads | src/flop_agent/durable_observation_journal.py:219-237 | a written journal cut at any byte is ABSENT, VALID or TORN_TAIL with exactly the complete records, never CORRUPT |
| JournalReading.InspectIff | src/flop_agent/durable_observation_journal.py:219-237 | a file is VALID with given records exactly when all its lines are complete and decode to them and they are a chained history in the grammar, torn exactly when only the last line is cut short after chained records, and CORRUPT otherwise |
| JournalGuards.GuardByStage | src/flop_agent/durable_observation_journal.py:485-622 | each operation's own checks pass exactly in the stages of the grammar meant for it |
| JournalGuards.GuardMatchesGrammar | src/flop_agent/durable_observation_journal.py:485-622 | the checks admit exactly the one-record extensions the grammar accepts |
| JournalGuards.StageWithNewRecord | src/flop_agent/durable_observation_journal.py:396-412 | the record an operation builds moves the grammar to the next stage when admitted and breaks it otherwise |
| JournalGuards.AdmittedExtends | src/flop_agent/durable_observation_journal.py:396-412 | an admitted operation extends a journal the operations wrote to another such journal, chain and grammar included |
| JournalGuards.NewRecordSays | src/flop_agent/durable_observation_journal.py:396-412 | the record an admitted operation writes names its type, attempt state, source and source state, and carries exactly the result or evidence identifier it was given |
| JournalGuards.GuardRefusal | src/flop_agent/durable_observation_journal.py:485-622 | an operation outside its stage is refused with the one error that the stage gives |
| JournalAppend.CandidateOutcome | src/flop_agent/durable_observation_journal.py:390-412 | on a written journal the candidate is the extended journal, or the attempt is terminal, or the limit is reached, or the stage forbids it: which one is read off the stage and the size |
| JournalStore.Store.WriteTemporary | src/flop_agent/durable_observation_journal.py:413-426 | the write loop leaves exactly the candidate in the temporary file, or reports why not; it succeeds exactly when the file opens, the pieces accepted cover the candidate and the fsync succeeds |
| JournalStore.Store.Publish | src/flop_agent/durable_observation_journal.py:413-449 | a replacement is complete and durable, or complete with durability unknown, or has not happened |
| JournalStore.Store.Append | src/flop_agent/durable_observation_journal.py:383-458 | append adds exactly one record or none, the record says its operation field by field, and an unknown durability or a busy lock is reported as such |
| JournalStore.Store.PrepareAttempt | src/flop_agent/durable_observation_journal.py:470-483 | a token is issued only for a journal that did not exist and whose first record is durable |
| JournalStore.Store.Perform | src/flop_agent/durable_observation_journal.py:485-622 | a token holder's operation succeeds when the stage admits it, the journal fits and the system calls succeed, and its record says the operation field by field, identifiers included; in any other stage it is refused with that stage's error, and never with CANDIDATE_INVALID |
| JournalStore.Store.InspectJournal | src/flop_agent/durable_observation_journal.py:624-660 | inspection fails exactly for a finalized history whose durability is unknown; otherwise it shows integrity, durability, every source and the attempt state as the stage has them, and asks for people exactly where there is doubt |
| JournalProjection.ProjectionErrors | src/flop_agent/durable_observation_journal.py:624-756 | the projection passes its validator for every API-written reading, with the one exception of a finalized history of unknown durability, reported as FINALIZATION_CONTRADICTION |
| JournalProjection.ProjectionTells | src/flop_agent/durable_observation_journal.py:624-660 | field by field, what is shown of every reading of an API-written journal: durability, sources, attempt state, reconciliation and review, read off the stage |
| JournalProjection.NoErrorsIff | src/flop_agent/durable_observation_journal.py:667-756 | the validator accepts exactly the projections whose fields contradict neither each other nor the ban on acting |
| JournalProjection.CutJournalProjects | src/flop_agent/durable_observation_journal.py:624-756 | a journal cut at any byte still projects without an error |
| JournalWitness.FinalizedUnknownRejected | src/flop_agent/durable_observation_journal.py:637-659 | a finalized journal the operations wrote, whose projection is rejected when its durability is unknown and accepted otherwise |
| JournalWitness.FinalizeUnderFailingSync | src/flop_agent/durable_observation_journal.py:436-449 | when only the directory fsync of the finalization fails, the finalization reports unknown durability and inspection then raises |
| JournalCodec.CodecIsLawful | src/flop_agent/durable_observation_journal.py:396-412 | the laws assumed of the record codec can be met |
| Runner.FixtureRunner.IssuePermit | src/flop_agent/manual_reobservation_runner.py:227-233 | a permit is fresh and unspent |
| Runner.FixtureRunner.Begin | src/flop_agent/manual_reobservation_runner.py:235-259 | an existing journal or a spent permit blocks the start and changes nothing; a start leaves the three scripted records and a spent permit, and happens whenever nothing stands against it, the journals fit and the system calls succeed |
| Runner.FixtureRunner.RunSource | src/flop_agent/manual_reobservation_runner.py:262-325 | the observer is called at most once, after the REQUEST_BOUNDARY of that source is in the journal; the records written are intent, boundary and a result with the observed identifier; when the system calls succeed and the journals fit there is no error exactly for a complete observation, and otherwise the error of that kind of observation |
| Runner.FixtureRunner.Finish | src/flop_agent/manual_reobservation_runner.py:326-342 | evidence with the given identifier and finalization close the journal durably, and do so whenever the system calls succeed and the journals fit |
| Runner.FixtureRunner.Execute | src/flop_agent/manual_reobservation_runner.py:235-346 | the calls made are a prefix of the fixed source order and the journal is a prefix of the script of the observations; from a fresh start, when the system calls succeed and the journals of the script fit, the run succeeds exactly when all four observations are complete, and otherwise stops at the first that is not, with its error |
| Runner.WholeRunSays | src/flop_agent/manual_reobservation_runner.py:235-346 | a finished journal holds, for each source in order, intent, boundary and a result with the identifier observed, then the evidence identifier, then the finalization |
| RunnerSafety.StepKeeps | src/flop_agent/durable_observation_journal.py:383-483 | every step of every process, crash and power loss keeps the protocol invariant: one token holder, lock, temporary file, journal and durable journal in agreement |
| RunnerSafety.RunKeeps | src/flop_agent/durable_observation_journal.py:383-483 | so does every run |
| RunnerTheorems.ObserverAtMostOnce | src/flop_agent/manual_reobservation_runner.py:235-325 | over any interleaving of processes, crashes and restarts the observer is called for sources 0, 1, 2, 3 in this order at most once each, at most one token is ever issued, and the durable file holds the boundary of every call |
| RunnerTheorems.CallsFollowDurableBoundary | src/flop_agent/manual_reobservation_runner.py:263-273 | at the moment of a call the boundary record of exactly that source is already durable |
| RunnerTheorems.NeverTorn | src/flop_agent/durable_observation_journal.py:383-458 | in every reachable state a reader finds no journal or a complete VALID one |
| RunnerTheorems.OldOrNew | src/flop_agent/durable_observation_journal.py:413-458 | any step leaves the old record list or the list with one more; a power loss leaves the visible or the durable one |
| RunnerTheorems.FrozenStep | src/flop_agent/durable_observation_journal.py:460-483 | with a journal present and no token holder, no step changes the journal, the tokens or the calls |
| RunnerTheorems.FrozenForever | src/flop_agent/durable_observation_journal.py:460-483 | nor does any run |
| RunnerTheorems.RestartFreezes | src/flop_agent/durable_observation_journal.py:460-483 | after a power loss that leaves a journal, nothing is ever appended or requested again |
| RunnerWitness.SomeRunSucceeds | src/flop_agent/manual_reobservation_runner.py:235-346 | whatever is observed, and with room for the journal, some run of the protocol calls the four sources in order and ends with the whole script durable |
| RunnerWitness.RoomCanBeFound | src/flop_agent/durable_observation_journal.py:396-412 | for any observations there is a lawful codec that leaves room for the journals of their run |
| SchedulerPolicy.ValidLater | src/flop_agent/engagement_scheduler.py:94-144 | a state valid now stays valid as time passes |
| SchedulerPolicy.RecentIsSuffix | src/flop_agent/engagement_scheduler.py:339-342 | pruning a sorted list drops exactly a prefix, the attempts at or before the cutoff |
| SchedulerPolicy.NextEligibleIsExact | src/flop_agent/engagement_scheduler.py:345-372 | for an enabled state left alone, a run is allowed at a later time exactly when the reported next eligible time is reached |
| SchedulerPolicy.EvaluateTells | src/flop_agent/engagement_scheduler.py:345-363 | each outcome of the evaluation, in the fields of the state: open circuit, disabled, before the not-before time, within the interval, over budget, or none of these |
| SchedulerLog.AttemptsSpaced | src/flop_agent/engagement_scheduler.py:339-361 | in every legal history attempts are half an hour apart and any 25 of them span a day |
| SchedulerLog.ConfiguredInterval | src/flop_agent/engagement_scheduler.py:350-351 | each attempt keeps the interval configured when it was recorded, never less than half an hour |
| SchedulerLog.DailyBudget | src/flop_agent/engagement_scheduler.py:339-361 | any window (t - 24 h, t] of the unbounded history holds at most 24 attempts |
| SchedulerLog.NeverBefore | src/flop_agent/engagement_scheduler.py:353-361 | no attempt is stamped before the not-before time in force, nor while disabled or at the failure threshold |
| SchedulerLog.CircuitBreaker | src/flop_agent/engagement_scheduler.py:384-388 | after two failures in a row no attempt happens without an approved reset and a later enabling |
| SchedulerSafety.StepKeeps | src/flop_agent/engagement_scheduler.py:430-513 | every operation, crash and power loss keeps each possible file content faithful to a legal history |
| SchedulerSafety.BudgetOverRuns | src/flop_agent/engagement_scheduler.py:464-498 | for every configured interval and every run with an arbitrary clock: at most 24 attempts and 24 calls in any day, half an hour apart, and every call is a durable attempt |
| SchedulerSafety.ConfiguredIntervalOverRuns | src/flop_agent/engagement_scheduler.py:345-361 | for every configured interval and every run, all attempts in whatever the file holds and all calls are that interval apart |
| SchedulerSafety.StateTellsHistory | src/flop_agent/engagement_scheduler.py:384-388 | the stored failure count is the trailing failure count of the whole history, and the circuit is open exactly at the threshold |
| SchedulerSafety.CircuitBreakerOverRuns | src/flop_agent/engagement_scheduler.py:430-513 | the circuit breaker and the not-before time hold over every run, whatever the interval |
| SchedulerSafety.RunOnceTells | src/flop_agent/engagement_scheduler.py:464-498 | what a run leaves, in the fields of the state and the log: a recovery, a refusal, or an attempt and the reported success or the reported failure of its class |
| SchedulerSafety.RunOnceAnswers | src/flop_agent/engagement_scheduler.py:464-498 | what a run answers: success exactly when success was reported and stored, a failure class exactly when that failure was, a refusal with its reason |
| SchedulerSafety.TwoFailuresOpen | src/flop_agent/engagement_scheduler.py:384-388 | over every run, two calls answered with failure and no success or reset between them open the circuit in every content the file may have, and no call follows without a reset |
| SchedulerSafety.OpenStaysShut | src/flop_agent/engagement_scheduler.py:345-372 | an open circuit stays open and calls nothing, over any events but a reset, crashes included |
| SchedulerSafety.NoWriteRejected | src/flop_agent/engagement_scheduler.py:94-177 | in reachable states no operation's own write is rejected by validation |
| SchedulerSafety.CallsFollowDurableAttempt | src/flop_agent/engagement_scheduler.py:478-482 | the collector is called only when the new attempt is the only content a power loss can leave |
| SchedulerSafety.RecoveryReenables | src/flop_agent/engagement_scheduler.py:470-472 | validation alone is not enough: recovery of a running but disabled state re-enables it exactly when no failure is counted, and that write is accepted exactly when a not-before time is present or a failure is counted |
| SchedulerSafety.RecoveryReenablesWitness | src/flop_agent/engagement_scheduler.py:470-472 | such a state exists and validates |
| Scheduler.SchedulerFile.WriteFile | src/flop_agent/engagement_scheduler.py:157-177 | the write refuses an invalid state and otherwise leaves the old content, the new one not yet durable, or the new one |
| Scheduler.SchedulerFile.RunOnce | src/flop_agent/engagement_scheduler.py:464-498 | a run leaves and answers what RunOnceTells and RunOnceAnswers say: recovery, refusal, or the attempt stamped before the call and the reported outcome after it; in every valid state all calls so far keep the day budget and the spacing, and are durable attempts |
| Scheduler.SchedulerFile.EnableScheduled | src/flop_agent/engagement_scheduler.py:430-445 | enabling is accepted exactly from a valid, disabled, unfailed, idle state whose write is durable; it sets the not-before time and keeps the attempts |
| Scheduler.SchedulerFile.DisableScheduled | src/flop_agent/engagement_scheduler.py:448-461 | disabling is accepted exactly from a valid, enabled, idle state whose write is durable; it keeps attempts and failure count |
| Scheduler.SchedulerFile.ApproveReset | src/flop_agent/engagement_scheduler.py:501-514 | a reset is accepted exactly from a valid open circuit whose write is durable; it leaves the scheduler disabled and the failures cleared, the attempts kept |
| Base58.IndexOfLetter | src/flop_agent/did_key.py:7-7 | no character occurs twice in the alphabet, so the index of a digit's letter is the digit |
| Base58.DigitsOfNumber | src/flop_agent/did_key.py:14-16 | the digits of a canonical digit string's number are that string, in base 58 and in base 256 |
| Base58.ConvertBack | src/flop_agent/did_key.py:10-25 | converting digits between the bases and back, leading zeros kept one for one, changes nothing |
| Base58.DecodingOfEncoding | src/flop_agent/did_key.py:10-25 | decoding undoes encoding for every byte string |
| Base58.EncodingOfDecoding | src/flop_agent/did_key.py:10-25 | encoding undoes decoding for every text over the alphabet, so texts are canonical |
| DidKey.BytesFit | src/flop_agent/did_key.py:24-24 | the width computed from the bit length neither overflows nor leaves a leading zero byte |
| DidKey.Encode | src/flop_agent/did_key.py:10-17 | the division loop computes the Base58 text |
| DidKey.Decode | src/flop_agent/did_key.py:20-25 | the accumulating loop computes the bytes, and fails exactly on a character outside the alphabet |
| DidKey.DecodeMultibase | src/flop_agent/remote_content_policy.py:680-689 | the second decoder returns the same bytes behind its prefix character, and nothing exactly when the first one fails or the prefix is missing |
| DidKey.DidFromPublicKey | src/flop_agent/did_key.py:28-34 | a key of 32 bytes becomes the prefixed text; any other length is refused |
| DidKey.PublicKeyFromDid | src/flop_agent/did_key.py:37-47 | a DID yields its key or the error of the first check that fails |
| DidKey.DidEd25519Key | src/flop_agent/remote_content_policy.py:692-698 | the second reader accepts exactly the DIDs the first one accepts, with the same key |
| DidKey.KeyOfDid | src/flop_agent/did_key.py:28-47 | a key is read back from its DID |
| DidKey.DidOfKey | src/flop_agent/did_key.py:28-47 | an accepted DID is the one its key encodes to |
| DidPrefix.DidStarts | src/flop_agent/did_key.py:28-34 | the DID of every key has 56 characters and starts with did:key:z6Mk |
| DidPrefix.AcceptedStarts | src/flop_agent/did_key.py:37-47 | so has every DID that is accepted |
| DidPrefix.LettersOfAlphabet | src/flop_agent/did_key.py:7-7 | the letters are the digits and the Latin letters without 0, O, I and l |
| Delegation.OutsidersDoNotInterfere | src/flop_agent/delegation_resolution.py:54-73 | adding forged, expired or unapproved-root records changes no record's state or rank |
| Delegation.OutsiderLeavesEntries | src/flop_agent/delegation_resolution.py:54-73 | inserting such a record anywhere leaves every other whole entry, successor included, as it was |
| Delegation.CurrentAgree | src/flop_agent/delegation_resolution.py:60-73 | the current records of an agent are one body, no valid record of that agent has another root or a larger nonce, and none is in conflict |
| Delegation.HasCurrentIff | src/flop_agent/delegation_resolution.py:60-73 | an agent has a current record exactly when it has valid records that agree on the root and on the body of the highest nonce |
| Delegation.SuccessorIsCurrent | src/flop_agent/delegation_resolution.py:70-73 | the successor of a superseded record is current, of the same agent and root, and ranks strictly higher |
| DelegationResult.SealedResultIsValid | src/flop_agent/delegation_resolution.py:35-45 | for every input, malformed ones included, the sealed result passes the schema, the counts and the supersession check |
| DelegationResult.CountsOfRecords | src/flop_agent/delegation_resolution.py:75-76 | each count is the number of distinct records in that state |
| DelegationResult.OrderKeepsEntries | src/flop_agent/delegation_resolution.py:46-73 | input order and exact duplicates change no state, rank or successor body (the successor record itself may be another signature of it) |
| DelegationResult.SuccessorFollowsOrder | src/flop_agent/delegation_resolution.py:67-73 | of two signatures of one body the first in input order is the named successor: an input at which the condition of SuccessorOrderFreeIff fails |
| DelegationResult.SuccessorOrderFreeIff | src/flop_agent/delegation_resolution.py:67-73 | a record's successor is the same for every input order and repetition exactly when the record is no valid one, its group conflicts on the root or on the body of the highest nonce, it has the highest nonce itself, or one record alone has it; SuccessorFollowsOrder is a failing input |
| DelegationResult.OrderKeepsSummary | src/flop_agent/delegation_resolution.py:46-81 | nor any count or the overall resolution |
| DelegationMeaning.StateOfMeans | src/flop_agent/delegation_resolution.py:46-73 | the state of each record, by its own signature, root and expiry, and by whether the valid records of its agent agree and have larger nonces |
| DelegationMeaning.RankOfMeans | src/flop_agent/delegation_resolution.py:65-66 | a valid record without contest is ranked by the number of distinct nonces of its agent up to its own |
| DelegationMeaning.ResolutionOfMeans | src/flop_agent/delegation_resolution.py:77-81 | the resolution of a note: a conflict anywhere, otherwise a current, an expired, a forged record, in this order, and unverified roots only when there is nothing else |
| DelegationResolver.PositionCounts | src/flop_agent/delegation_resolution.py:65-65 | a nonce's position in the sorted list of distinct nonces is the number of nonces up to it |
| DelegationResolver.Parse | src/flop_agent/delegation_resolution.py:46-58 | the first loop refuses a malformed record and keeps one classified entry per distinct record |
| DelegationResolver.SettleRooted | src/flop_agent/delegation_resolution.py:65-73 | ranks, body conflicts and supersession of one group, in place, are what the set of records determines |
| DelegationResolver.Settle | src/flop_agent/delegation_resolution.py:60-73 | the loop body replaces exactly the group's entries by the specified ones |
| DelegationResolver.SettleAgents | src/flop_agent/delegation_resolution.py:59-73 | whatever order the agents are taken in, all entries end as specified |
| DelegationResolver.Resolve | src/flop_agent/delegation_resolution.py:37-82 | the whole resolution equals its set-based specification; a refused note is answered with its reason, and any other with the meaning of each record and of all of them |
| PresenceSafety.StepKeeps | src/flop_agent/presence.py:298-499 | every operation, with old previews replayed and writes lost, keeps note, state file, attempts and successes in agreement |
| PresenceSafety.AttemptsAnHourApart | src/flop_agent/presence.py:452-454 | attempt stamps are an hour apart for any clock |
| PresenceSafety.SuccessAdvances | src/flop_agent/presence.py:464-491 | a success publishes a strictly larger sequence than the last recorded one, and the note then holds it |
| PresenceSafety.NoteNeverFalls | src/flop_agent/presence.py:324-332 | the note only moves to larger numbers, and a foreign value is never overwritten |
| PresenceSafety.ExecutedTells | src/flop_agent/presence.py:423-499 | the outcome, the state and the note after an execution: nothing is attempted or written without approval, every switch, the hour, and the state the preview was made for; each other outcome is read off the note and the delivery |
| PresenceSafety.PreviewedTells | src/flop_agent/presence.py:357-414 | each answer of a preview is given exactly for its reason, and a ready one asks for the sequence observed on the note observed |
| PresenceSafety.ObservedTells | src/flop_agent/presence.py:298-321 | the status after an observation, from the last one and the published sequence |
| PresenceSafety.DivergedStep | src/flop_agent/presence.py:283-287 | once the note differs from the last recorded success, no operation calls the writer |
| PresenceSafety.DivergedForever | src/flop_agent/presence.py:283-287 | so the note and the attempts stay as they are over every run: one half of StoppedIffDiverged |
| PresenceSafety.StoppedIffDiverged | src/flop_agent/presence.py:464-491 | in every reachable world, no run adds an attempt exactly when the note differs from the last recorded success; otherwise some run adds a success |
| PresenceSafety.LostAnswerWitness | src/flop_agent/presence.py:464-470 | a first write that was applied and whose answer was lost reaches such a world |
| PresenceSafety.LostWriteDiverges | src/flop_agent/presence.py:464-499 | a write that changed the note without being recorded as a success leaves it diverged, and a success never does |
| PresenceAdapter.Adapter.Observe | src/flop_agent/presence.py:298-321 | observing leaves what ObservedTells says and keeps the invariant: it never changes the published sequence, the attempt stamp or the note |
| PresenceAdapter.Adapter.PreviewFirstWrite | src/flop_agent/presence.py:357-414 | previewing answers and leaves what PreviewedTells says: a preview is issued exactly for a larger sequence on an absent or expected note with everything read and enough time passed; nothing is written to the note |
| PresenceAdapter.Adapter.Execute | src/flop_agent/presence.py:423-499 | an attempt or a change of the note needs human approval, every switch on, the observed sequence and no blocking status; the stamp is saved before the writer is called; success strictly raises the published sequence, and the note then holds it |
| KvHistory.SinceFirstCounts | src/flop_agent/kv_observatory.py:210-215 | the observation count starts at the first poll that listed the key |
| KvHistory.StepIsRecomputation | src/flop_agent/kv_observatory.py:195-223 | one poll on a row gives the row recomputed from the whole longer history: state, digests, change time and count |
| KvHistory.VisibleIsListed | src/flop_agent/kv_observatory.py:217-220 | a key is visible after a poll exactly when that poll listed it |
| KvHistory.DisappearanceKeepsValue | src/flop_agent/kv_observatory.py:217-220 | a disappearance keeps digest, previous digest and change time |
| KvStore.VisibleIsLastListing | src/flop_agent/kv_observatory.py:195-223 | the visible keys of a namespace are exactly the keys of its last successful poll |
| KvStore.UpdateListed | src/flop_agent/kv_observatory.py:198-216 | the first loop steps every listed key and leaves the unlisted ones popped out |
| KvStore.MarkMissing | src/flop_agent/kv_observatory.py:217-220 | the second loop marks exactly those |
| KvStore.Store.Observe | src/flop_agent/kv_observatory.py:195-223 | after a poll every row of the table is still its key's history, or the transaction changed nothing |
| KvStore.Store.FailedPoll | src/flop_agent/kv_observatory.py:225-231 | a failed poll is recorded and touches no row |
| KvSnapshots.CompleteIff | src/flop_agent/kv_observatory.py:503-516 | a generation is complete exactly when all four files are objects that carry one comparable identity and time |
| KvPublisher.ValidateGeneration | src/flop_agent/kv_observatory.py:503-516 | the file loop and the set comparison give the specified verdict, escaping exceptions included |
| KvSnapshotsSafety.WriteKeepsPublished | src/flop_agent/kv_observatory.py:566-599 | a write interrupted at any fault point leaves a published output on the old or the new complete generation and changes no earlier generation |
| KvSnapshotsSafety.WriteCompletes | src/flop_agent/kv_observatory.py:566-599 | an undisturbed write publishes exactly its snapshot |
| KvSnapshotsSafety.WriteTells | src/flop_agent/kv_observatory.py:566-599 | from any state and at every fault point: the generations, the link, the temporary directory and the answer after a write |
| KvSnapshotsSafety.DonePublishes | src/flop_agent/kv_observatory.py:566-599 | an answer of success means that the output links to exactly this snapshot, whatever it was before |
| KvSnapshotsSafety.HealthyWriteCompletes | src/flop_agent/kv_observatory.py:566-599 | from every state that runs can reach, the first write included, an undisturbed write of a new snapshot is published |
| KvSnapshotsSafety.WriteAfterAnyRun | src/flop_agent/kv_observatory.py:534-599 | so it is after any run of interrupted writes and recoveries from an empty directory |
| KvSnapshotsSafety.RecoveryRestoresIff | src/flop_agent/kv_observatory.py:534-563 | recovery raises exactly when a generation whose validation escapes (EscapesIff) comes before a complete one; otherwise the output is published, on the newest complete generation, whenever one exists |
| KvSnapshotsSafety.RecoveryIdempotent | src/flop_agent/kv_observatory.py:534-563 | recovering again changes nothing and answers the same |
| KvSnapshotsSafety.RecoveryCanFail | src/flop_agent/kv_observatory.py:551-562 | a newer generation whose status file is no object, or has a list or object for its identity or time, hides an older complete one |
| KvSnapshotsSafety.RecoveryCanFailTwice | src/flop_agent/kv_observatory.py:510-513 | both kinds of input are exhibited: a JSON list as the file, and an object with a list for its identifier |
| KvSnapshotsSafety.EscapesIff | src/flop_agent/kv_observatory.py:503-516 | validation escapes exactly when a file is unreadable and those before it are present JSON, or all files are JSON and some is no object or has an unhashable identity or time |
| KvSnapshotsSafety.RunKeepsPublished | src/flop_agent/kv_observatory.py:534-599 | over any run of interrupted writes and recoveries a published output stays published and completed generations never change |
| KvSnapshotsSafety.RecoveryAfterAnyRun | src/flop_agent/kv_observatory.py:534-599 | after any such run recovery succeeds, and publishes whenever a generation was completed |
| KvPublisher.Publisher.AtomicPointer | src/flop_agent/kv_observatory.py:519-531 | the link is swapped or untouched, and only a dying process leaves a stray pointer |
| KvPublisher.Publisher.RecoverOutput | src/flop_agent/kv_observatory.py:534-563 | recovery is the specified event, whose success is characterised by RecoveryRestoresIff; a published output stays, and after runs of this program recovery never raises and publishes whenever a generation exists |
| KvPublisher.Publisher.WriteSnapshots | src/flop_agent/kv_observatory.py:566-599 | publication is the specified event at every fault point, cleanup included: success means the output links to exactly this snapshot, which an undisturbed write of a new one always reaches; a published output stays published and no generation changes |
| HistoryText.SameLines | src/flop_agent/engagement_history.py:91-92 | decoded text and bytes are cut into the same lines when no wide break occurs |
| HistoryText.CutLastLine | src/flop_agent/engagement_history.py:133-141 | removing the last line leaves the other lines |
| HistoryRows.InsertSorted | src/flop_agent/engagement_history.py:102-102 | inserting a new key into sorted rows keeps them sorted |
| HistoryRows.SortElements | src/flop_agent/engagement_history.py:102-102 | sorting is a permutation |
| HistoryFile.LoadSorted | src/flop_agent/engagement_history.py:85-102 | loading returns rows strictly increasing by key |
| HistoryLoading.LoadMeans | src/flop_agent/engagement_history.py:85-102 | loading fails exactly for text that does not decode or, when strict, for a bad line that is not the forgiven tail; otherwise a row is loaded exactly when no later line has its key |
| HistoryTail.KeptReadsSame | src/flop_agent/engagement_history.py:127-141 | for every loadable history, what an append keeps of it loads exactly when every piece of a completed tail is blank or a row, and then as the whole history if a completed tail is rows and a tail set aside holds none, as the part before the tail otherwise |
| HistoryTail.AppendThenLoad | src/flop_agent/engagement_history.py:105-161 | for every loadable history, loading after an append of a new key succeeds exactly when the encoded row contains no wide break and every piece of a completed tail is blank or a row; it then gives the rows kept (KeptReadsSame) and the new one, in key order |
| HistoryStore.LoadRows | src/flop_agent/engagement_history.py:85-102 | the loop over lines computes the load: sorted by key, with the last row of each key, and an error exactly for a line that cannot be read |
| HistoryStore.TornTail | src/flop_agent/engagement_history.py:134-144 | a tail that is no row is set aside; the append then succeeds exactly when the tail is whole characters, every piece of it but the last is blank or a row, and the key is new; otherwise nothing is written |
| HistoryTail.TornTailLoads | src/flop_agent/engagement_history.py:85-102 | a history with a torn tail loads exactly under that condition, and as the history before the tail if no piece of the tail is a row |
| HistoryTail.TailKeys | src/flop_agent/engagement_history.py:133-141 | setting the tail aside loses a loaded key exactly when a piece of the tail is a row of a key the history before it does not have |
| HistoryStore.RefusedForever | src/flop_agent/engagement_history.py:142-144 | a history that does not load is never replaced again, whatever is appended |
| HistoryWitness.WideRowUnloadable | src/flop_agent/engagement_history.py:91-92 | a row holding U+2028 is appended to an empty history, which then does not load |
| HistoryWitness.MarkedTailSpoils | src/flop_agent/engagement_history.py:131-137 | a last line with a byte order mark is completed by an append, after which the history does not load |
| HistoryWitness.CutCharacterRefused | src/flop_agent/engagement_history.py:90-91 | a tail cut inside a character blocks every append |
| HistoryWitness.BrokenTailRefused | src/flop_agent/engagement_history.py:92-99 | so does a tail of whole characters with a break after which it is no row |
| HistoryWitness.RowSetAside | src/flop_agent/engagement_history.py:133-141 | a tail of a break and a row loads as that row and is lost by the next append |
| HistoryCodec.CodecIsLawful | src/flop_agent/engagement_history.py:85-102 | the laws assumed of the row codec can be met, UTF-8 decoding included |
| HistoryStore.OldOrNew | src/flop_agent/engagement_history.py:150-181 | every content a crash can leave is an old one or the complete new file, and each transaction state says which |
| HistoryStore.AppendMeans | src/flop_agent/engagement_history.py:105-182 | the answer, the transaction state, the contents a crash can leave and the tail set aside, for every content and every point an append can reach |
| HistoryStore.ExtendedReadable | src/flop_agent/engagement_history.py:142-162 | an append to a readable history keeps it readable and adds exactly the new row and its key |
| HistoryStore.RunKeeps | src/flop_agent/engagement_history.py:105-182 | over appends that fail, crash or repeat and power losses the history stays loadable, and a row or key that every possible content holds stays in all of them |
| HistoryStore.DurableRowStays | src/flop_agent/engagement_history.py:105-182 | over every such run, the row of an append that reported durability, whichever it was, is in every later load |
| HistoryStore.History.WriteCandidate | src/flop_agent/engagement_history.py:154-158 | the write loop leaves the whole payload exactly when the pieces accepted cover it, and reports failure with a prefix otherwise |
| HistoryStore.History.Append | src/flop_agent/engagement_history.py:105-182 | an append answers and leaves what AppendMeans says; the candidate takes the place of the history only when complete; a readable history stays readable, no row or key held by every possible content is lost, and the row of a durable append is in every content a crash can leave |
| Collaboration.LastAccepted | src/flop_agent/collaboration.py:178-228 | an accepted event carries the next sequence and the previous head, comes from the state of the log before it by an allowed transition, and determines the state after it |
| Collaboration.StateOfLog | src/flop_agent/collaboration.py:178-235 | the state of an accepted log is read off the log: sequence, head, keys, task |
| Collaboration.HeadDeterminesLog | src/flop_agent/collaboration.py:183-184 | two accepted logs with the same head digest are equal |
| Collaboration.RecoveryAbsorbs | src/flop_agent/collaboration.py:206-213 | after RECOVERY_REQUIRED only recovery events are accepted and the phase stays |
| Collaboration.CompletionEnds | src/flop_agent/collaboration.py:206-213 | nothing is accepted after completion |
| CollaborationRuns.PhaseIffStraight | src/flop_agent/collaboration.py:57-78 | a log is in a phase of the straight path exactly when it is a straight run of that length |
| CollaborationRuns.CompletedIff | src/flop_agent/collaboration.py:178-235 | a log reaches COMPLETED exactly when it is the eight events in order with three exact approvals, four signed events under unused keys, and one task |
| CollaborationRuns.RecoveryIff | src/flop_agent/collaboration.py:206-228 | a log is in recovery exactly when it is a straight run, begun and not completed, followed by recovery events in order |
| CollaborationRuns.AcceptedIff | src/flop_agent/collaboration.py:178-235 | the accepted logs are exactly the straight runs and the straight runs, begun and not completed, followed by recovery events in order |
| CollaborationRuns.RefusalExplains | src/flop_agent/collaboration.py:178-228 | every refusal names something that is wrong with the event |
| RetentionSafety.LinkedFacts | src/flop_agent/observation_retention.py:306-336 | along the chain of attempt records the k-th has generation k, which counts the attempted sources, and names the one before it |
| RetentionSafety.StepKeeps | src/flop_agent/observation_retention.py:229-336 | every call keeps the attempt records one linked chain with only the last active |
| RetentionSafety.MigrateMeans | src/flop_agent/observation_retention.py:233-255 | when a migration is answered and what it issues, and the reason of each refusal |
| RetentionSafety.BeginMeans | src/flop_agent/observation_retention.py:286-304 | when an attempt begins and what its first record says, and the reason of each refusal |
| RetentionSafety.RecordMeans | src/flop_agent/observation_retention.py:306-336 | when a source is recorded, what the new record says of that source, of the others and of the attempt, and the reason of each refusal |
| RetentionSafety.ProjectionShows | src/flop_agent/observation_retention.py:347-420 | a projection shows the identifiers of its record and, for an attempt, its generation, status, sources and supersession |
| RetentionSafety.OneChain | src/flop_agent/observation_retention.py:286-336 | after any calls: at most five attempt records, unforked, generation equal to the sources attempted, none but the last terminal |
| RetentionSafety.EveryTokenProjects | src/flop_agent/observation_retention.py:347-433 | every token ever issued projects without error, superseded ones included, and an attempt shows as superseded exactly when it is not the last |
| RetentionSafety.CommitNeverSucceeds | src/flop_agent/observation_retention.py:338-345 | no result is ever committed |
| RetentionSafety.ResolveStable | src/flop_agent/observation_retention.py:220-227 | a token resolves to the same record after any other calls |
| RetentionThreads.InterleavingIsSequential | src/flop_agent/observation_retention.py:220-336 | however the two critical sections of calls from many threads interleave, the state and every answer are those of the same calls made one after another in the order of their answers |
| RetentionThreads.OneChainForThreads | src/flop_agent/observation_retention.py:286-336 | so the attempt records stay one unforked chain of at most five under every interleaving |
| RetentionThreads.EveryTokenProjectsForThreads | src/flop_agent/observation_retention.py:347-433 | under every interleaving every token issued projects, and an attempt shows as superseded exactly when it is not the last |
| RetentionThreads.CommitNeverSucceedsForThreads | src/flop_agent/observation_retention.py:338-345 | no result is committed even when other calls run between the resolutions of the two tokens |
| RetentionAuthority.Authority.Migrate | src/flop_agent/observation_retention.py:233-255 | migration answers and leaves what MigrateMeans says: at most once per evidence, never to the same revision |
| RetentionAuthority.Authority.Begin | src/flop_agent/observation_retention.py:286-304 | beginning answers and leaves what BeginMeans says: one attempt per plan, whose first record becomes the active one |
| RetentionAuthority.Authority.RecordSource | src/flop_agent/observation_retention.py:306-336 | recording a source answers and leaves what RecordMeans says: only on the active record of an unfinished attempt and an unattempted source, with the status that source makes, superseding that record |
| RetentionAuthority.Authority.CommitResult | src/flop_agent/observation_retention.py:338-345 | the decision is the specified one, and an error in every state the calls can reach |
| RetentionAuthority.Authority.Project | src/flop_agent/observation_retention.py:347-433 | the projection shows its record and is acceptable, and is given for every issued token in every state the calls can reach |
| RetentionAuthority.Validate | src/flop_agent/observation_retention.py:438-573 | the validator collects exactly the specified errors, and none exactly for a projection whose fields are those its kind requires |
| RetentionSafety.AttemptProjects | src/flop_agent/observation_retention.py:513-560 | a consistent attempt record passes the validator, superseded or not |

## Left out

- Path, owner, mode, inode and symbolic-link checks of files and directories, and short reads.
- The process-identity check of journal tokens across a fork (FOREIGN_PROCESS_ATTEMPT); tokens are dropped with their process.
- JSON, JSON Schema, SHA-256 and Ed25519 themselves, and the canonical encodings; the artifact identifier of a delegation result.
- The constant fields of every projection and their constant checks (policy names, false flags, versions).
- Waiting for locks and deadlines; a lock is obtained or refused, a deadline is a stop before the replacement.
- The scheduler's provisioning, its legacy schema and the fields of its printed results.
- The observatory's network poll, key filters, note and trust classes, poll cycles and the snapshot payloads.
- `SELECT` and transactions of SQLite beyond all-or-nothing.
- Presence previews not made by the preview operation; the local capability that guards execution; loss of the presence state file in a power failure, which the program does not fsync.
- A presence state file that belongs to another room or is malformed, which stops the operation; the audit log.
- A death inside snapshot recovery itself, which only ever starts from an output that is not published and can be run again.
- The delegation registry, which is required to be empty, so the public entry always stops with ROOT_AUTHORITY_UNAPPROVED.
- Reading the delegation bytes: a note is of the wrong type, too large, unreadable or a list of items.
- Provenance white space in the collaboration log is a parameter; digests of events and of subjects are kept apart.
- Weak references in the retention registries: a token nobody holds is never presented again.
- An output link that points outside the generations directory, and file system errors of recovery's own cleanup and listing.
- KvSnapshotsSafety.WriteKeepsPublished: a failure of a plain write counts as a fault after some number of files; damage to a completed generation by anything else is not modelled.
- PresenceSafety.SuccessAdvances: the note is changed by this writer only, as its compare-and-set contract assumes between the read and the write.
- Runtime capability tables, testnet readiness, faucet and referral checks, the dashboard, the command line and HTML scraping: long closed tables or input and output.
