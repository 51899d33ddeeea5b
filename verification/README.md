# Verified models of the storage kernel, the status lists, the ION update log and the submission lifecycle

The project models the parts of the service that keep state, and proves what they keep, for every
input, every interleaving and every crash.

* **Transactions** (`Kernel`, `Serialisability`, `Batches`, `Serial`, `Retries`, `Execute`). A business function
  reads the committed store and buffers its writes. It is a strategy: given the replies to its reads so
  far, it asks, commits or aborts.
  Clients interleave under optimistic locking, one Redis command at a time, with retry. One theorem
  of serialisability serves all the machines below. It is stated through a contract between the
  clients (what a good store is, what a permitted commit is), because some functions read keys they
  do not watch. `Retries` says what becomes of those that do not commit, and `Execute` has the two
  executors in imperative form.
* **Credential status** (`Status`, `StatusSteps`, `StatusUpdates`, `StatusRuns`, `StatusLimits`,
  `StatusAnswers`, `StatusExamples`, `StatusService`). Each triple of issuer, schema and purpose has a shuffled index
  pool, a cursor and a list of bits. Lists and credentials are found again by scanning key strings.
  `StatusRuns` has the concurrent results, `StatusUpdates` and `StatusLimits` the exact conditions for
  single updates and for batches, `StatusAnswers` what callers are told, in terms of what they asked
  for, `StatusExamples` stores on which an update breaks a list,
  `StatusService` the code statement by statement.
* **ION updates** (`Ion`, `IonRuns`, `IonTheorems`, `IonAnswers`, `IonDocuments`, `IonOverlaps`,
  `IonLimits`). The persisted log,
  the staged key, the DID record and a ledger, with a crash possible at any step and the ledger's
  answer possibly lost.
  Signing, key chaining and commitments follow the update operation of the DIF Sidetree protocol.
* **Submissions, applications and operations** (`OperationIds`, `Lifecycle`, `LifecycleLogs`,
  `LifecycleLimits`, `LifecycleService`). Two records in two namespaces that change together:
  `Lifecycle` has what holds with one creator per submission, `LifecycleLogs` what holds of any clients
  whatsoever, told from the order of their commits.
* **Paging** (`KeyOrder`, `Paging`, `SqlPaging`), **encryption** (`Buckets`,
  `BucketLaws`, `Encrypted`, `EncryptedStore`), **key strings** (`ScanKeys`), **the race for the first success** (`Race`), **the
  service key** (`ServiceKeys`) and **key pairs and DID batches** (`Keystore`).

Where the code does not keep what one would expect, a lemma gives the condition under which it does,
or a run or store on which it fails:

* An attempt that has lost its watched keys already can still run into an error on its mixed reads, and
  an error is not retried (`Retries.TornReadFails`); `Retries.ProspectsDecide` says when a client can
  still commit.
* The scan behind a status update takes every key that contains the issuer and ends in the schema, and
  a key holds the subject too. If an issuer is the subject of another issuer's credential of the same
  schema and purpose, that one's index can end up on the wrong list, and the list key no longer
  protects the scan (`StatusExamples`). The concurrent results ask that the names in the requests
  exclude this (`StatusRuns.NamesClear`); `StatusSteps.ScanIsExact` and `MistakableDecides` say exactly
  when it can happen.
* Two status-bearing requests for one triple in one batch get one index, and two updates on one list in
  one batch lose a bit; `StatusLimits.GoodAfterCreates` and `StatusUpdates.GoodAfterUpdates` give
  the conditions under which a batch of any length keeps the lists in order, and no other.
* Clearing a flag writes a revocation list without the other credentials, whatever the list was before
  (`StatusUpdates.GoodAfterUpdate`).
* The exhaustion check wraps an error that is nil. Whether the SDK function then returns an error is
  not visible in the repository, so every result holds for both answers (the parameter `strict`).
* `isPreviouslyAnchoredError` is constantly false, although the comment beside its caller expects
  more; `IonTheorems.LedgerAgreementConstantFalse` says exactly when this does harm.
* One `UpdateDID` in flight per DID is assumed (`IonRuns.Exclusive`); `IonLimits` has a run that breaks
  it, and `IonOverlaps` what is left then: no Done update is invented, and the log forgets one exactly
  when a call stores a log that it read before. A soft delete and an update can undo each other;
  `IonDocuments` says exactly when.
* `CreateSubmission` checks, then writes; the results of `Lifecycle` assume one creator per id, and ids
  without a slash. `LifecycleLimits` shows why, and `LifecycleLogs.PairFollowsLog` says for any clients
  when a pair is in step.
* The review of an application judges it before looking at the operation, so a review that is refused
  after a cancel has overwritten the application (`LifecycleLimits.RefusedReviewOverwrites`). It also
  writes the status constants of submissions: an approved application reads as cancelled, and none ever
  as fulfilled (`LifecycleLogs.ApprovedReadsAsCancelled`).
* `GetKeyDetails` leaves out the time of revocation.
* `WriteMany` refuses lists of wrong length only when both lengths are wrong; a single wrong one is an
  index panic if the list is too short. The model calls that an error.
* The value pager of SQL returns a token for a page of size zero, the cursor pager does not.

## Model

| member | source | states |
|---|---|---|
| `Serialisability.Serialisable` | core/storage/redis.go:147-189 | After any interleaving of watch, reads, queued writes and EXEC, the store is what the committed business functions leave when run one at a time in EXEC order; each caller told it committed got the output of that serial execution; attempts that aborted, lost the race or gave up wrote nothing. Reads need not be watched as long as every commit that changes their answer touches a watched key |
| `Serialisability.WatchedReadsSerialise` | core/storage/redis.go:147-189 | The documented case: when every read of a business function depends on watched keys only, serialisability needs nothing else of anyone |
| `Serialisability.RunsKeepStable` | core/storage/redis.go:147-189 | Whatever every permitted commit keeps, every run of any clients keeps from any point on |
| `Batches.BatchIsSequential` | core/service/credential/service.go:628-645 | A batch of functions in one transaction commits and leaves the store exactly as the same functions in transactions of their own would, provided none of them can tell that an earlier one has committed, although all of them read the store as it was before the batch |
| `Batches.BatchSplits` | core/service/credential/service.go:628-645 | The last function of a batch, like all others, reads the store as it was before the batch; it decides as it would alone, and its writes are laid over those of the others |
| `Serial.SerialRuns` | core/storage/redis.go:147-189 | The converse of serialisability: every order in which clients can commit one after the other is an interleaving of the machine that commits them in that order |
| `Serial.LateRuns` | core/storage/redis.go:202-205 | A client that watches nothing, like a plain write, may have looked before all the others and commit after them |
| `Retries.FailsByItself` | core/storage/redis.go:176-187 | In every run a client ends up failed if and only if a function of its own aborts or it gives up; losing EXEC fails nobody, however often, nor does anything others do |
| `Retries.AttemptsAreLostExecs` | core/storage/redis.go:176-183 | A client that is neither done nor failed has lost EXEC exactly as often as it has begun again |
| `Retries.GivesUpOnlyAfterLosing` | core/storage/redis.go:173-187 | A client gives up only after it has lost EXEC |
| `Retries.DirtyMeansTouched` | core/storage/redis.go:150-162 | An attempt is lost if and only if somebody else has committed to one of its watched keys since it began to watch them |
| `Retries.RetriesAndCommits` | core/storage/redis.go:176-183 | A client whose attempt is lost but will run to its end goes on by itself to watch again and to commit with the output of its functions run alone on the store, if they commit there |
| `Retries.ProspectsDecide` | core/storage/redis.go:147-189 | In every reachable world a client can go on by itself to commit if and only if what is left of its attempt runs to its end and, if the attempt is lost, its functions run alone would commit |
| `Retries.TornReadFails` | core/storage/redis.go:155-183 | A run in which a lost attempt reads two keys from before and after another's commit, aborts over the difference and never commits, although run alone it would |
| `Serialisability.FromUnmoved` | core/storage/redis.go:151-176 | An attempt whose watched keys another client's commit left alone goes on to the same outcome as before that commit |
| `Execute.RedisDB.Execute` | core/storage/redis.go:147-189 | Against any commits of others between any two commands, as long as they keep to the contract: success means the functions ran, in effect, alone on the store found at EXEC, with that output and exactly those writes, even if they read keys that are not watched; failure leaves the store as the others left it; an attempt is lost only to a rival's commit, so more attempts than rival commits always succeed; undisturbed it answers as the exclusive transaction does |
| `Execute.AnyRivalsKeep` | core/storage/redis.go:147-189 | For functions whose answers depend on watched keys only, nothing is asked of the others |
| `Execute.BoltDB.Execute` | core/storage/bolt.go:160-191 | The exclusive transaction reads the committed data, keeps its writes in its own copy, and either commits all of them or rolls back, with the outcome of the functions run alone |
| `StatusService.RandomUniqueNum` | core/service/credential/storage.go:574-586 | The array holds the numbers 1..count swapped exactly as the random source says, pairwise distinct, so for the bit string length it is a shuffle |
| `StatusService.AnyOrderComesOut` | core/service/credential/storage.go:574-586 | And every order of the numbers comes out of some swaps |
| `StatusService.GetNextStatusListRandomIndex` | core/service/credential/storage.go:122-148 | Gives the pool entry under the committed cursor, and an error exactly when pool or cursor is missing or the cursor lies outside the pool |
| `StatusService.IncrementStatusListIndexTx` | core/service/credential/storage.go:164-189 | Queues the cursor plus one; at the limit it queues nothing and succeeds or fails as the unseen SDK function decides |
| `StatusService.GetStatusListCredentialKeyData` | core/service/credential/storage.go:412-453 | The scan over the keys of all lists finds what the machine's lookup finds: none, one, or too many |
| `StatusService.CreateStatusListEntryForCredential` | core/service/credential/status.go:19-67 | Fails exactly when the entry cannot be made, and otherwise gives its index and list and queues pool, cursor and list as the machine does |
| `StatusService.CreateCredential` | core/service/credential/service.go:138-256 | The statements of the create commit exactly when the business function of the machine does, with the same response and queued writes |
| `StatusService.BatchCreateCredentials` | core/service/credential/service.go:594-653 | The batch loop does what the functions of one transaction do in the machine |
| `StatusService.FlaggedOthers` | core/service/credential/service.go:513-526 | The accumulation loop collects exactly the indexes of the other flagged credentials whose key contains the issuer and ends in the schema, whoever issued them |
| `StatusService.UpdateCredentialStatus` | core/service/credential/service.go:450-573 | The statements of the update commit exactly when the business function of the machine does, with the same response and queued writes |
| `StatusService.BatchUpdateCredentialStatus` | core/service/credential/service.go:655-693 | The loop over the updates does what the functions of one transaction do in the machine |
| `StatusSteps.FindListExact` | core/service/credential/storage.go:545-563 | The lookup of a triple's list by its key string finds exactly that list if no other stored list's key is taken by the scan, and that is exactly when the scan takes no other |
| `StatusSteps.CreateDecides` | core/service/credential/status.go:34-57 | Which reads a create makes on a store, and the decision they lead to: new list, next index, or which error |
| `StatusSteps.WrittenByCreate` | core/service/credential/storage.go:202-225 | A create that commits on a good store adds one new credential and nothing else to its triple: with a fresh pool, cursor 1 and an empty list for a first one, else with the pool entry under the cursor and the cursor moved by one |
| `StatusSteps.WrittenKeepsGood` | core/service/credential/status.go:34-57 | Such a create keeps every triple's list, pool, cursor and flags in order and disturbs no credential or mark of any triple |
| `StatusSteps.NextIndexIsNew` | core/service/credential/storage.go:122-148 | As long as there are any, the index handed out next is held by no credential of the triple |
| `StatusSteps.UpdateDecides` | core/service/credential/service.go:450-482 | Which reads an update makes on a store, and the decision they lead to |
| `StatusSteps.ScanFinds` | core/service/credential/service.go:513-526 | On every store the scan by key string finds exactly the other flagged credentials of the triple itself and, with them, the strays: flagged credentials of other triples whose key it takes |
| `StatusSteps.ScanIsExact` | core/service/credential/service.go:513-526 | The scan's indexes are those of the triple's own flagged credentials if and only if no stray has an index that is not among them; there are no strays where no credential can be mistaken |
| `StatusSteps.MistakableDecides` | core/service/credential/storage.go:455-466 | With colon-free schemas a credential can be mistaken for one of a triple if and only if another issuer issued it for the same schema and purpose and the triple's issuer occurs in its key, as it does when that issuer is its subject |
| `StatusUpdates.GoodAfterUpdate` | core/service/credential/service.go:513-573 | A committed update of any kind leaves all lists in order, bits and purpose, if and only if it had nothing to do, or sets the credential's own flag and every stray's index is flagged anyway, or clears the flag of a revocable credential while no other is revoked |
| `StatusUpdates.WrittenByUpdates` | core/service/credential/service.go:655-693 | A committed batch of own-flag updates of any length sets the flags of exactly the credentials it changes, and leaves on each list what its last request on it computed from the store before the batch |
| `StatusUpdates.GoodAfterUpdates` | core/service/credential/service.go:655-693 | After a committed batch of own-flag updates of any length all lists agree with the flags if and only if no list has two different credentials changed by the batch, on stores where nothing can be mistaken and no index has been handed out twice |
| `StatusUpdates.UpdatesKeepGood` | core/service/credential/service.go:655-693 | Such a batch keeps everything in order, also past the limit, if no list has two different credentials changed by it |
| `StatusUpdates.UpdatesAreQuiet` | core/service/credential/service.go:513-526 | To a list it does not write, a batch of updates makes no difference: no bearer of it changes, nor what the scan for it finds |
| `StatusUpdates.BatchOfTwoUpdatesLosesABit` | core/service/credential/service.go:655-693 | Two updates on one list in one batch both set their flag, and the list has the bit of the second alone |
| `StatusRuns.BatchKeepsGood` | core/service/credential/service.go:594-653 | A batch with at most one status-bearing request per triple keeps everything in order and is no different from the requests one by one |
| `StatusRuns.UpdatingInsulated` | core/service/credential/service.go:420-442 | Watching the list keys is enough for updates although the credentials they read and scan are not watched: no permitted commit that leaves the list keys alone changes an answer |
| `StatusRuns.StatusSerialisable` | core/service/credential/service.go:92-130 | Any interleaving of create transactions, batches, and transactions of own-flag updates is serialisable, provided that no requested credential can be mistaken for one of an updated list and no requested list for another; its store holds exactly the credentials of the committed creates |
| `StatusRuns.StatusListAgrees` | core/service/credential/service.go:420-573 | In every store reachable under that condition on the requests' names, each list has its triple's purpose and is exactly the index set of the triple's credentials that carry its flag (W3C Verifiable Credentials Status List v2021, section "Bitstring Generation Algorithm") |
| `StatusRuns.UniqueIndexes` | core/service/credential/status.go:34-57 | In every reachable store all credentials of a triple name its one list and have indexes in 1..131072; the indexes are pairwise distinct if and only if at most 131072 have been handed out; if exhaustion aborts, at most 131071 are |
| `StatusRuns.IndexConservation` | core/service/credential/storage.go:164-225 | Before the limit the cursor equals the number of status-bearing requests that committed for the triple: an aborted create consumes no index, a committed one exactly one |
| `StatusLimits.GoodAfterCreates` | core/service/credential/service.go:594-653 | A batch of new requests of any length that commits below the limit leaves pools, cursors and lists in order if and only if no two of its status-bearing requests are for one triple: the cursor moves by one where the bearers grow by two |
| `StatusLimits.BatchOfTwoCollides` | core/service/credential/storage.go:137 | Two status-bearing requests for one triple in one batch get the same index from the same committed cursor; for a new triple both make a list, and the first credential names the one that is overwritten |
| `StatusLimits.CreateAtLimit` | core/service/credential/storage.go:175-177 | At the limit a create commits exactly when wrapping the nil error yields no error; it gets the last index of the pool, which is still new to the first that gets it |
| `StatusLimits.ExhaustionRepeatsTheLastIndex` | core/service/credential/storage.go:164-189 | The next create then gets the same index again |
| `StatusAnswers.KeyTexts` | core/service/credential/storage.go:565-572 | The key strings of lists and credentials, written out |
| `StatusAnswers.CreatedAsRequested` | core/service/credential/service.go:138-256 | Whatever the store, a create that commits is for at most one purpose; under its id is a credential with the issuer, subject and schema asked for, no flag, and an entry exactly if it is to be revocable or suspendable, of that purpose; and that credential is the answer |
| `StatusAnswers.EntryNamesRequestedList` | core/service/credential/status.go:19-67 | Its entry names the list of the issuer, the schema and the purpose asked for, which exists with that purpose, and has an index of it |
| `StatusAnswers.CreateRefused` | core/service/credential/service.go:138-256 | A create is refused if and only if it asks for both purposes, cannot be built, or asks for a list whose indexes are exhausted where exhaustion is an error |
| `StatusAnswers.AmbiguousListRefused` | core/service/credential/storage.go:545-563 | A status-bearing create is refused when the keys of two stored lists are taken by the scan for its list |
| `StatusAnswers.BatchCreatesAsRequested` | core/service/credential/service.go:594-653 | The answers of a batch of creates are, index by index, the credentials found in the store afterwards, as they were asked for |
| `StatusAnswers.UpdateAnswersTheFlags` | core/service/credential/service.go:450-482 | Whatever the store, an update that commits answers exactly the flags its credential carries afterwards, and these are the ones asked for; nothing else of it and no other credential is different |
| `StatusAnswers.UpdateRefused` | core/service/credential/service.go:450-482 | An update is refused if and only if it asks for both flags, there is no such credential, or it asks for a change of one that has no status or whose list cannot be built |
| `StatusAnswers.BatchAnswersTheFlags` | core/service/credential/service.go:655-693 | The answers of a batch are the flags asked for, and they are all found in the store afterwards if and only if no credential was asked to carry different flags |
| `StatusExamples.ClearingLosesTheOthers` | core/service/credential/service.go:519-536 | From a good store with two revoked credentials, clearing one writes an empty list although the other is still revoked |
| `StatusExamples.ClearingTurnsTheList` | core/service/credential/service.go:538-544 | From a good store with one suspended credential, clearing it leaves the right bits on a list that has become a revocation list |
| `StatusExamples.ForeignIndexOnTheList` | core/service/credential/service.go:513-531 | Issuer a has issued and revoked a credential of b's; when b revokes one of its own of the same schema, a's index is on b's list |
| `StatusExamples.ForeignCommitMovesTheScan` | core/service/credential/storage.go:455-466 | In that situation a's own revocation changes the answer of b's scan without touching b's list key |
| `Ion.IonHandler.PrepareUpdate` | core/service/did/ion.go:226-310 | The statements of the first transaction have the effect of the transition on the stored records, errors leaving them untouched |
| `Ion.IonHandler.ApplyUpdate` | core/service/did/ion.go:179-224 | So do those of the second |
| `Ion.ApplyTwice` | core/service/did/ion.go:179-224 | Applying changes nothing when there is no anchored update to apply, so doing it again is harmless |
| `Ion.IonHandler.UpdateDID` | core/service/did/ion.go:126-177 | An undisturbed call leaves records, ledger and answer as the whole-call function says |
| `Ion.IonHandler.SoftDeleteDID` | core/service/did/ion.go:573-588 | Reads the record, sets the flag and writes the record back; nothing else changes |
| `IonTheorems.CallIsARun` | core/service/did/ion.go:126-177 | An undisturbed call, whatever it resumes and however the ledger answers, is one run of the machine that ends in the same records and the same ledger |
| `IonRuns.PrepareResult` | core/service/did/ion.go:226-310 | On well-kept records prepare resumes a pending entry untouched, or appends one pre-anchor entry whose update reveals and is signed with the stored update key and commits to the freshly staged one |
| `IonRuns.AppliedLog` | core/service/did/ion.go:179-224 | Applying an anchored entry appends its update to the Done updates, promotes the key it commits to and stores its record |
| `IonRuns.RunsKeepInv` | core/service/did/ion.go:126-310 | The records, the staged key, the processes' memories and the ledger stay tied together through every run with crashes, lost answers and soft deletes |
| `IonTheorems.KeyChain` | core/service/did/ion.go:179-310 | In every run with crashes at any step each Done update was signed with the key its predecessor, or the creation, committed to; while an update is pending the staged private key matches its next public key |
| `IonTheorems.LedgerAgreementExact` | core/service/did/ion.go:146-177 | If an update already anchored is recognised exactly, the local key and Done updates equal the ledger's whenever no update is half way |
| `IonTheorems.LedgerAgreementConstantFalse` | core/service/did/ion.go:346-349 | With the constant answer of the code this holds at such a point if and only if no accepted anchor went unrecorded |
| `IonTheorems.LogShape` | core/service/did/ion.go:226-310 | All entries of a persisted log but the last are Done or anchor errors and none is blank; one step leaves the log, appends a pre-anchor entry to a finished one, or moves the last status from pre-anchor to anchored or anchor error, or from anchored to done |
| `IonTheorems.PrepareYieldsPending` | core/service/did/ion.go:226-310 | Prepare always hands back a last entry that is pre-anchor or anchored; a pending one is resumed as it is, whatever the new request asks for |
| `IonAnswers.ReachedCallAnswers` | core/service/did/ion.go:126-177 | From every record that crashes and soft deletes can lead to: a call answers with a document if and only if it has got one more update done, which is its last entry, on the ledger and in the key chain, and then it is the stored document; an error leaves Done updates, update key and record as they were; it succeeds if and only if an anchored update waits to be applied, or the ledger answers and its key is the stored one |
| `IonAnswers.NewUpdateAnswers` | core/service/did/ion.go:126-177 | A call that resumes nothing and is answered yields the document of the stored patches followed by its own |
| `IonAnswers.CallsAccumulate` | core/service/did/ion.go:226-310 | Any number of answered calls in a row all succeed, and each answers the patches of all so far, in order |
| `IonDocuments.FoldedPatches` | core/service/did/ion.go:312-344 | Re-encoding the long form update by update keeps all earlier patches in order, the suffix data and the last commitment, under the short form DID |
| `IonDocuments.DocumentConservation` | core/service/did/ion.go:283-302 | In every run, whatever soft deletes it has, the stored long form holds the creation patches followed by the patches of the Done updates, each once, with the operations in step, if and only if the last write to the record goes back to a read of one that held all, with no update finished in between; anchor errors contribute nothing |
| `IonDocuments.CalmRunsConserve` | core/service/did/ion.go:573-588 | So it does whenever no update finishes while a soft delete is between its read and its write |
| `IonDocuments.StaleWriteLoses` | core/service/did/ion.go:573-588 | A soft delete written back last loses Done updates exactly when one finished between its read and its write, or the record it read had lost some |
| `IonDocuments.FlagAfterFinish` | core/service/did/ion.go:199-218 | After an update the flag is what it was when the call that created the entry began; a soft delete is lost to it if and only if it was written in between to a record that was not deleted before |
| `IonOverlaps.DoneIsApplied` | core/service/did/ion.go:126-177 | However many calls are in flight at once, with crashes, lost answers and soft deletes, every Done update is one the ledger has applied, and the ledger's updates form one chain of keys from the creation on |
| `IonOverlaps.OnlyStaleStoresForget` | core/service/did/ion.go:158-168 | A run of overlapping calls takes a Done update out of the log at some step if and only if one of them stores, outside a transaction, a log it read before that update was done; else what is Done stays Done |
| `IonLimits.SoftDeleteIsOverwritten` | core/service/did/ion.go:288-294 | A soft delete between prepare and apply takes effect and is gone when the update is done |
| `IonLimits.SoftDeleteRevertsUpdate` | core/service/did/ion.go:573-588 | A soft delete that reads before an apply and writes after it takes the update out of the record while the log keeps it as Done |
| `IonLimits.TwoCallsInFlightLoseADoneEntry` | core/service/did/ion.go:158-168 | With two calls in flight, storing an outcome outside a transaction overwrites a Done entry, although no accepted anchor went unrecorded |
| `IonLimits.CrashAfterAcceptDiverges` | core/service/did/ion.go:146-177 | One call at a time, but with a crash between the ledger's acceptance and its recording, the resumed update ends as an anchor error and the local state never agrees with the ledger at that point |
| `OperationIds.NamesMatch` | core/service/operation/storage/storage.go:46-54 | The submission id is recovered from its operation id, and the operation found in its namespace, if and only if the submission id has no slash |
| `OperationIds.ResponseNamesMatch` | core/service/operation/credential/response.go:5-13 | The same of the operations of applications, in a namespace of their own |
| `OperationIds.ObjectIDDecides` | core/service/operation/storage/storage.go:46-54 | The object id of any operation id is what follows its last slash, and empty without one |
| `OperationIds.NamespaceDecides` | core/service/operation/storage/namespace/namespace.go:14-35 | An operation id belongs to the submissions' namespace if and only if it is the one made from the slash-free id after its last slash |
| `Lifecycle.UpdateDecides` | core/storage/storage.go:142-174 | The two-record update: a missing submission, a missing operation and a finished operation are refused in that order; otherwise both records are written, the operation done and holding the changed submission |
| `Lifecycle.SettlingDecidesOnce` | core/service/operation/submission/submission.go:57-75 | A review or cancel that commits closes an open pair, carries its own verdict, and leaves every other pair and every earlier decision alone |
| `Lifecycle.DoneMeansDecided` | core/service/presentation/storage.go:30-64 | Under any interleaving of creators, reviews and cancels, beside any clients of applications, for ids with both records the operation is done if and only if the status is not pending, and its response is then the stored submission itself |
| `Lifecycle.DecidedByOneClient` | core/storage/storage.go:142-174 | At most one review or cancel of a submission is told it succeeded, the record carries that one's status and reason, and the pair was open before |
| `Lifecycle.ClosedIsFinal` | core/service/operation/submission/submission.go:64-75 | Once a pair is closed, status, reason and response never change again |
| `Lifecycle.CommitHasEffect` | core/service/operation/storage.go:29-72 | Whatever the store, a client of submissions or applications that commits leaves in its record and its operation exactly what it is for, touches no other key, and has found the operation open if it closes it |
| `Lifecycle.CommitDecides` | core/service/operation/storage.go:29-87 | Exactly when each client commits: what it stores has an id, what it changes is there, and the operation it closes is there and open |
| `Lifecycle.CommitKeepsContents` | core/storage/storage.go:142-209 | What a client stores has exactly its contents, under the operation id made from its own id; what it changes keeps contents and id |
| `LifecycleLogs.LastWriterDecides` | core/storage/storage.go:142-209 | In every interleaving of any clients, several creators of one id included, each record carries the verdict, and each operation the state and response, of the last committed client to write it |
| `LifecycleLogs.DecidedTwiceOnlyIfReopened` | core/service/operation/submission/submission.go:64-75 | Two decisions of one operation, of a submission or an application, both commit only if the operation was stored anew between them |
| `LifecycleLogs.PairFollowsLog` | core/service/presentation/service.go:222-280 | Whoever the clients are, a submission and its operation are in step if and only if the last commits to write them are either both their creators' or both not; what nobody wrote counts as it was |
| `LifecycleLogs.StatusTells` | core/service/operation/submission/submission.go:23-47 | In every run the stored status of a submission, 1 to 4, tells whether the last commit to write it created, cancelled, denied or approved it, and the reason is that commit's |
| `LifecycleLogs.ApplicationFollowsLog` | core/service/manifest/storage/storage.go:240-274 | An application's closed operation answers what the application says if and only if the last commits to write the one and the other had the same verdict; it is closed if and only if the last to write it was not its creator |
| `LifecycleLogs.ApprovedReadsAsCancelled` | core/service/operation/credential/response.go:14-38 | In every run no application is ever marked fulfilled; one that has been written reads as cancelled if and only if it was cancelled or approved last, and as rejected if and only if it was denied last |
| `LifecycleService.Records.UpdateValueAndOperation` | core/storage/storage.go:142-209 | The statements of the two-record update, with the done gate and the response filled in on the way, have the outcome and effect of the business function of the machine |
| `LifecycleService.Records.UpdateSubmission` | core/service/presentation/storage.go:30-64 | Succeeds exactly when both records are there and the operation is open; then exactly the two records change, to the verdict and to the done operation with that submission as response |
| `LifecycleService.Records.ReviewSubmission` | core/service/presentation/service.go:314-327 | Has the effect of the reviewing client of the machine, and returns the submission as stored |
| `LifecycleService.Records.CancelOperation` | core/service/operation/storage.go:29-72 | For operations of submissions and of applications: has the effect of the cancelling client of the machine, succeeds exactly when the id has one of the two prefixes, both records are there and the operation is open, and returns the operation as stored |
| `LifecycleService.Records.Update` | core/storage/storage.go:176-209 | Changes status and reason of one record, whatever they were, or refuses a missing one |
| `LifecycleService.Records.StoreReviewApplication` | core/service/manifest/storage/storage.go:240-274 | Succeeds exactly when the application is there, the response has an id and the operation is open; a review that fails has left behind the judged application, and with an id also the response, unless the application itself was missing |
| `LifecycleService.Records.GetSubmission` | core/service/presentation/storage.go:162-175 | Tells a missing submission from an unreadable one |
| `LifecycleService.Records.CreateSubmission` | core/service/presentation/service.go:194-280 | Refuses an id that is taken or empty and a submission that does not verify; otherwise adds a pending submission and an open operation and nothing else |
| `LifecycleLimits.CancelHitsItsSubmission` | core/service/operation/storage.go:29-45 | A cancel that commits keeps the pair it was meant for in step if and only if the submission id has no slash; otherwise it cancels another submission |
| `LifecycleLimits.TwoCreatorsReopen` | core/service/presentation/service.go:222-272 | A run in which two creators of one id both look before either writes, and all commit: a reviewed submission becomes pending again behind a done operation |
| `LifecycleLimits.TwoOperationsReopen` | core/service/presentation/service.go:272-280 | A run in which the operation of a submission is stored twice around a review: it is open again behind an approved submission, and the next review would commit |
| `LifecycleLimits.RefusedReviewOverwrites` | core/service/manifest/storage/storage.go:240-274 | A run in which an application is cancelled and then reviewed: the last access of the review is refused, and yet the application carries the denial and the response is stored, while the operation says cancelled |
| `KeyOrder.LessTotal` | core/storage/bolt.go:45-63 | The cursor's byte order is a strict total order on keys |
| `KeyOrder.LessDecides` | core/storage/bolt.go:45-63 | One key comes before another if and only if it is a proper beginning of it or smaller at their first difference |
| `KeyOrder.PrefixBlock` | core/storage/bolt.go:241-257 | Keys with a prefix lie together from the prefix on, so a prefix read may stop at the first other key |
| `Paging.ReadPage` | core/storage/bolt.go:32-66 | The cursor loop returns exactly the first `size` entries not before the token (all for -1) and the key after them as token |
| `Paging.ReadAll` | core/storage/bolt.go:259-274 | The cursor loop returns the bucket's contents |
| `Paging.ReadPrefix` | core/storage/bolt.go:241-257 | The cursor loop returns exactly the bucket's entries whose key has the prefix |
| `Paging.NoKeyTwice` | core/storage/bolt.go:32-66 | Whatever is written or deleted between the pages, following the tokens hands out strictly increasing keys |
| `Paging.NoKeyMissed` | core/storage/bolt.go:32-66 | A walk that completes hands out every key that was present throughout |
| `Paging.EveryKeyOnce` | core/storage/bolt.go:32-66 | So a key present throughout is handed out exactly once |
| `Paging.NothingInvented` | core/storage/bolt.go:32-66 | Every entry handed out was in the bucket when one of the pages was read |
| `Paging.QuietWalk` | core/storage/bolt.go:32-66 | On a quiet store the walk completes if and only if it has at least max(1, ceil(n/size)) pages, a number that is the quotient rounded up; they concatenate to all that is left from the token on, from the empty token to what ReadAll reads |
| `Paging.NothingToPage` | core/storage/bolt.go:50-63 | With a page size of zero or below -1 the first page of any bucket is empty and has no token, so the walk is over at once with nothing handed out |
| `SqlPaging.ReadRowsAsMap` | core/storage/sql.go:243-263 | The row loop gives the rows as a map without their namespace, and the key of the last row |
| `SqlPaging.ReadPage` | core/storage/sql.go:265-294 | Asking for one row more and deleting it again gives the page and the token of that row |
| `SqlPaging.SelectDecides` | core/storage/sql.go:265-271 | The query finds a row if and only if it is in the table, in the namespace, and not before the token |
| `SqlPaging.BucketDecides` | core/storage/sql.go:265-271 | The bucket the pagers are compared on has an entry if and only if the table has the row with the qualified key, wherever in the table it is |
| `SqlPaging.PagersAgree` | core/storage/sql.go:265-294 | On the same contents the two pagers give the same entries always, and corresponding tokens if and only if the size is not zero or nothing is left |
| `SqlPaging.WalksAgree` | core/storage/sql.go:265-294 | With a positive size, or -1, they agree along the whole walk, whatever happens to the store in between |
| `SqlPaging.SqlStuckAtZero` | core/storage/sql.go:281-292 | With size zero the SQL pager hands out the same token for ever |
| `Buckets.InsertMeans` | core/storage/bolt.go:197-205 | Putting a key into a sorted bucket is updating the map it stands for |
| `Buckets.RemoveMeans` | core/storage/bolt.go:293-301 | Deleting a key from a sorted bucket is taking it out of the map |
| `BucketLaws.ReadsAgree` | core/storage/bolt.go:226-291 | The value read, the flag, the whole map, the entries with a prefix and the keys in order all tell of the same contents |
| `BucketLaws.WriteIsRead` | core/storage/bolt.go:193-205 | A write is refused, changing nothing, exactly for an empty name; else its value is read at its key, and every other key reads as before |
| `BucketLaws.WriteManyIsRead` | core/storage/bolt.go:207-224 | Exactly when WriteMany is refused, changing nothing; else each key reads as the last value written to it |
| `BucketLaws.DeleteIsRead` | core/storage/bolt.go:293-301 | A delete is refused exactly for a missing namespace; else its key reads as missing and every other as before |
| `BucketLaws.DeleteNamespaceIsRead` | core/storage/bolt.go:303-310 | So is the deletion of a namespace, after which none of its keys is there |
| `BucketLaws.ExecuteIsRead` | core/storage/bolt.go:160-191 | A transaction whose function finishes answers what the function does, and each key reads as its last write; one that fails changes nothing |
| `Encrypted.UnderAnswer` | core/storage/encrypt.go:65-127 | For all six read operations, decrypting what the inner store answers is what the decrypted store answers, keys, order and page tokens included |
| `Encrypted.ViewPut` | core/storage/encrypt.go:45-51 | Writing a ciphertext into the inner store is writing its plaintext into the decrypted store, errors included |
| `Encrypted.ViewListed` | core/storage/encrypt.go:53-63 | The same for lists of writes, including those whose lengths do not match |
| `Encrypted.BoltStore.Ask` | core/storage/bolt.go:226-291 | The inner store's reads answer as the meaning of the query says; a missing namespace reads as empty |
| `Encrypted.BoltStore.WriteMany` | core/storage/bolt.go:207-224 | All of the writes or none; the lengths are refused only when both differ, and an index past the end leaves the store as it was |
| `Encrypted.BoltStore.Delete` | core/storage/bolt.go:293-301 | Refuses a missing namespace, else takes out the one key |
| `Encrypted.BoltStore.DeleteNamespace` | core/storage/bolt.go:303-310 | Refuses a missing namespace, else takes out all of it |
| `EncryptedStore.EncryptedWrapper.DecryptMap` | core/storage/encrypt.go:89-99 | Succeeds exactly when every value decrypts, and then maps every key to its plaintext |
| `EncryptedStore.EncryptedWrapper.Ask` | core/storage/encrypt.go:65-123 | Every read through the wrapper answers as the plain store would |
| `EncryptedStore.EncryptedWrapper.Write` | core/storage/encrypt.go:45-51 | A write through the wrapper is that write on the plain store |
| `EncryptedStore.EncryptedWrapper.WriteMany` | core/storage/encrypt.go:53-63 | So is a list of writes |
| `EncryptedStore.EncryptedWrapper.Delete` | core/storage/encrypt.go:125-127 | So is a delete |
| `EncryptedStore.EncryptedWrapper.DeleteNamespace` | core/storage/encrypt.go:129-131 | So is the deletion of a namespace |
| `EncryptedStore.EncryptedWrapper.Execute` | core/storage/encrypt.go:138-150 | So is a transaction whose function reads through the wrapper and writes through the encrypting transaction; a failure rolls everything back |
| `EncryptedStore.EncryptedWrapper.DoAll` | core/storage/encrypt.go:45-150 | Every sequence of operations gives the replies, and the decrypted store, of the same sequence on the plain store, for any randomised cipher that decrypts what it encrypts |
| `ScanKeys.StatusListKeyInjective` | core/service/credential/storage.go:565-568 | Two triples share a key only if they are the same, when `:sc:` does not occur in the issuer followed by `:sc` and purposes have no colon |
| `ScanKeys.SuffixDecides` | core/service/credential/storage.go:412-425 | With colon-free schemas and purposes the suffix query matches a key if and only if schema and purpose are the key's own |
| `ScanKeys.GetStatusListKeys` | core/service/credential/storage.go:412-425 | The scan loop collects the matching keys in order |
| `ScanKeys.ScanDecides` | core/service/credential/storage.go:412-425 | The scan takes a key if and only if it is stored and matches |
| `ScanKeys.ScanIsExact` | core/service/credential/storage.go:412-453 | The scan finds exactly the triple's own list if and only if no other stored list of that schema and purpose has the issuer somewhere in its key |
| `ScanKeys.IssuerPrefixIsMistaken` | core/service/credential/storage.go:418-425 | An issuer whose name begins another's is handed the other's list |
| `ScanKeys.PrefixDecides` | core/service/credential/storage.go:348-372 | A stored key begins with an id if and only if it is that credential's, when no id begins another |
| `ScanKeys.SameLengthApart` | core/service/credential/service.go:146 | Ids of equal length, as UUIDs are, never begin one another |
| `ScanKeys.GetCredential` | core/service/credential/storage.go:348-372 | Reading by id as prefix succeeds if and only if exactly one stored key begins with the id; the result is the credential with that id if and only if there is one, and otherwise that of a longer id |
| `ScanKeys.MatchesById` | core/service/credential/storage.go:348-372 | Where no other id begins with it or the other way round, the only match is the only credential with the id |
| `ScanKeys.CredentialScanDecides` | core/service/credential/storage.go:455-494 | With colon-free schemas the credential scan takes exactly the credentials of the schema whose key has the issuer somewhere in it, the issuer's own among them |
| `ScanKeys.OwnCredentialMatches` | core/service/credential/storage.go:455-466 | The scan takes every credential of the issuer and schema it is for, whatever colons they have |
| `ScanKeys.SubjectIsMistaken` | core/service/credential/storage.go:455-466 | It also takes whatever others have issued to that issuer for the same schema |
| `SqlPaging.SelectSeeks` | core/storage/sql.go:265-271 | What the query with a token selects, by comparing whole row keys, is what the cursor finds from that token on in a bucket of the same contents |
| `Race.AnswersAreEarned` | core/internal/util/error.go:89-137 | Under every schedule the answer is what it claims to be: a value some run returned, an error some run was to return on, a cancellation that happened, or the errors of all runs when every one failed |
| `Race.FirstSuccessWins` | core/internal/util/error.go:89-137 | With at least one run, no error to return on and no cancellation, the caller gets a successful run's value if and only if some run has succeeded, and otherwise every run has failed and it gets their errors, one each |
| `Race.NeverStuck` | core/internal/util/error.go:107-136 | While the caller waits there is always a run going, a sender it can receive from, or a wait that can finish |
| `Race.SchedulesEnd` | core/internal/util/error.go:107-136 | No schedule is longer than a bound fixed by the number of runs |
| `Race.LosersStayBlocked` | core/internal/util/error.go:107-121 | A goroutine that has something to send after the caller has returned stays blocked for ever on its unbuffered channel, and the waiter with it |
| `Race.BlockedUnlessWaited` | core/internal/util/error.go:107-136 | Once nothing can move, the caller has its answer, and something is left blocked if and only if the answer did not come from the waiter |
| `ServiceKeys.OneServiceKey` | core/service/keystore/storage.go:92-128 | Any number of concurrent boots on a store without the key commit exactly one key, that of the first to commit, and change nothing else; every boot that succeeded reads that key |
| `ServiceKeys.ServiceKeyStays` | core/service/keystore/storage.go:92-128 | Once there is a key no later boot changes the store |
| `ServiceKeys.BootsGoOn` | core/service/keystore/storage.go:92-128 | Where the key is not unreadable a boot fails only by giving up; until then it can go on by itself to commit, however often it has lost the race |
| `ServiceKeys.EnsureDecides` | core/service/keystore/storage.go:104-121 | A boot writes only when the key is missing, does nothing when it is there, and fails on an unreadable one |
| `Keystore.StoreKeepsPairs` | core/service/keystore/storage.go:185-228 | Storing a key leaves its public record equal to the public half of the private one and keeps all other pairs; cut short between the two writes it breaks the pair if and only if an old private key with another public half was there |
| `Keystore.KeyStorage.StoreKey` | core/service/keystore/storage.go:185-228 | Refuses an empty id or unreadable material without writing; otherwise writes exactly the two records, paired |
| `Keystore.KeyStorage.GetKey` | core/service/keystore/storage.go:245-265 | Returns the stored private record, or an error when it is missing or unreadable |
| `Keystore.KeyStorage.RevokeKey` | core/service/keystore/storage.go:231-243 | Stores the record again with flag and time set; for a paired key nothing but its private record changes, and the pair stays paired |
| `Keystore.KeyStorage.GetKeyDetails` | core/service/keystore/storage.go:267-291 | The details carry the stored public key, which for a paired key is the public half of the private one, and the flag, but never the time of revocation |
| `Keystore.BatchServesAll` | core/service/did/batch.go:58-71 | After the writes of a batch every request has its document, named after the generated key, and under its key id that key, not revoked, with its public half, whatever the store held before |
| `Keystore.BatchTouches` | core/service/did/batch.go:58-71 | A batch changes no record but those of its own requests |
| `Keystore.BatchService.CreateDID` | core/service/did/key.go:42-84 | Queues document, public record and private record of a request that can be created, and fails otherwise |
| `Keystore.BatchService.BatchCreateDIDs` | core/service/did/batch.go:38-83 | Succeeds if and only if every request can be created, with all documents in order and all records stored; otherwise the store differs by the temporary watch key alone |

## Left out

- Serialisable: an attempt that queued no writes is modelled as an EXEC that still validates its watched keys; whether the Redis client library sends EXEC for an empty queue is not visible in the repository.
- Execute.RedisDB.Execute: the wall-clock limits of the backoff are a bound on the number of attempts.
- StatusSerialisable: a credential's uuid, its list's uuid and its shuffle are drawn once per request rather than once per attempt; only the draws of the attempt that commits reach the store.
- StatusListAgrees: deletion of credentials, and updates that clear a flag or set one of the other purpose, are not in the concurrent machine; StatusUpdates.GoodAfterUpdate covers them one at a time.
- GoodAfterUpdates: stated for batches in which every request sets its credential's own flag.
- StatusSerialisable: records are told apart by id and by triple; ScanKeys.PrefixDecides and ScanKeys.StatusListKeyInjective say when their key strings are as distinct.
- CreateCredential: schema resolution, the credential builder, evidence, expiry and signing are one flag that says whether they succeed.
- UpdateCredentialStatus: the list generation of the SDK is taken to yield the set of the given indexes; its own checks of the credentials it is given are one flag.
- LedgerAgreementExact: an update takes effect on the ledger when anchor is called or not at all; an operation that is accepted but applied later is not modelled.
- RunsKeepInv: each of the two transactions of an update is one step; what they read without watching it, other updates write only together with the watched log, and a soft delete inside one counts as coming right after it.
- UpdateDID: the undisturbed call is stated for logs that the handler itself has written (every reachable log is one).
- ApplicationFollowsLog: the validation of applications, issuance templates and the making of credential responses choose which clients run and with what contents; they are not modelled.
- CreateSubmission: verification of the token, the credentials and the presentation, and the lookup of the definition, are one flag.
- UpdateSubmission: the JSON merge of the updated fields is a record update; fields outside the record are not modelled.
- ReadPage: page tokens are keys, without their base64 form and without malformed tokens.
- PagersAgree: page sizes below -1, and LIKE wildcards inside namespaces, are not modelled; rows have unique keys.
- SQL writes: they insert without replacing, so they do not make a map.
- Redis paging and scans: the order of SCAN is not specified, so there is nothing to prove about their pages.
- Redis and SQL variants of UpdateValueAndOperation on the stores themselves: nothing in the modelled services calls them.
- DoAll: a resolver that cannot supply the key, which makes encryption or decryption fail, is not modelled.
- StoreKey: the encryption of private key records is the wrapper's subject and is left out here.
- OneServiceKey: the key an instance generates is fixed per boot rather than per attempt; a retried attempt finds the key of the commit that beat it.
- FirstSuccessWins: a call without runs returns at once with a zero value and no error and is not in the machine.
- Cryptography, JWTs, DID resolution, JSON schemas and filters: uninterpreted, with the laws named where they are used.
- JSON encodings: stored values are datatypes; an unreadable value is modelled where the code has a branch for it.
- Contracts, HTTP routing, middleware, configuration, sessions and roles, IPFS, RPC and benchmarks: no state of the kind proved here.
- Small helpers: they would only add easy members.
