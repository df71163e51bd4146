# Versioned airworthiness records: a Dafny model

The backend keeps certificates and release authorizations under dual control. A request reads a row,
checks status, role and separation of duty on that snapshot, and then replaces the whole row in a
transaction that is guarded only by the version the client sent; the same transaction appends one revision
and one audit. This project models that protocol, the list queries around it and the rate limiter in front
of it, and proves what they guarantee.

## How it is modelled

- `Records`, `StatusGraph`, `Rules`: rows, requests, the two transition tables, and the checks of both
  services as functions from a snapshot and a request to a prepared row or an error.
- `Tables`, `Rely`: the three tables, the transactions as functions on them, and what a reader or writer
  may rely on while other requests run.
- `Ledger`: what each operation writes, column by column in the words of whoever asked for it, without the functions
  that compute it; `Rules.Refuses` does the same for what is refused. The machine and the services are both
  proved to keep to them.
- `Machine`, `Invariants`, `Runs`: concurrent requests as a step machine (create, read, begin, commit,
  abort, begin delete, remove, audit the removal). Every choice of the environment is in the label, so a
  theorem about all label sequences is a theorem about all interleavings and all rollbacks. `trail` and
  `seen` are bookkeeping that no step looks at; `Runs.TrailRemembersRows` shows that the trail tells the truth.
- `Serializability`, `Progress`, `LostUpdates`, `Deletions`, `Chains`, `Histories`, `Fields`, `Seeds`, `StatusCounts`:
  the theorems about runs.
- `Repositories`, `Service`, `CertificateService`, `AuthorizationService`: the imperative code over a
  `Store` whose tables other requests change between any two statements (`Interfere`). What a method relies on
  there is exactly what `Runs.RunEvolves` proves of every run of the machine, and every method proves the same
  of itself. The ghost `journal` records a request's own transactions, so that "writes nothing" can be said.
- `Windows`, `RateLimiter`: the limiter against an ideal counter over its whole call history.
- `Paging`, `Batching`: offset paging in 64-bit arithmetic and the batched loading of revisions.

Two hypotheses are explicit. *Disciplined* runs are those in which a client only sends a version it has received
for that record, as the web client does (`frontend/src/stores/factory.ts:37`); receiving any answer is the
`Read` step. *Authentic* runs are those in which every request carries a user name
(`backend/internal/middleware/auth.go:50`). Theorems that need neither say so by not asking for them.

The repository's README (line 45) says that status changes are under optimistic locking and that business
fields are locked once review begins, so that reviewed evidence is not overwritten. The code keeps that
promise exactly when the version sent is not newer than the version the request was checked against.
`LostUpdates.StatusIsKeptIff` proves both directions for every update and transition: only then is the row
that is replaced in the status that was checked in every future. `LostUpdates.EditsReplaceOnlyDraftsIff` says
the same of edits even if every other client is disciplined and authenticated, so a single client that guesses
versions is enough; `LostUpdates.UnseenVersionUndoesPublication` is such a run, in which a published
certificate becomes a draft again.

Four more expectations hold only under a condition, and each has its exact one. A delete removes the draft it
was checked on if and only if the version did not move in between
(`Deletions.RemovalsAreExactIffVersionStands`), and nothing in the code sees to that
(`Deletions.DeletesCanTakeReviewedRows`). A key gets at most one allowance per backend in a minute if and only
if that minute is a window of the limiter or the limit lets nothing through
(`Windows.OneAllowanceIffAligned`). A client that waits as long as Retry-After says is let through if and only
if the time to the reset was a whole number of seconds or less than one, or its window was over already: the
seconds are rounded down (`Windows.WaitingAsToldIff`). A page number selects its page if and only if its
offset survives 64 bits or lands past the end (`Paging.RightPageIffOffsetFits`, with
`Paging.HugePageShowsTheFirst` as an example).

## Model

| member | source | states |
|---|---|---|
| Rules.AuthorizationDuties | backend/internal/service/release_authorization.go:99-119 | an authorization transition is accepted if and only if an operator submits a draft, or a reviewer or admin other than the submitter takes one of six edges |
| Rules.CertificateDuties | backend/internal/service/certificate_record.go:101-115 | a certificate transition is accepted if and only if an operator lets it expire, or a reviewer or admin other than the preparer publishes or revokes it |
| Rules.RefusalTable | backend/internal/service/release_authorization.go:68-118 | each error has its exact condition, in both services: locked beyond draft, blank code, name, facility or owner, no such edge, a role too low for the edge, a reviewer on own work; no other error is reported |
| Ledger.CreationWrites | backend/internal/repository/release_authorization.go:61-76 | a creation succeeds exactly on an unused key and code, deleted rows included, and then writes the row that was sent and a revision and audit that name the sender, column by column |
| Ledger.CommitWrites | backend/internal/repository/certificate_record.go:78-95 | a commit writes the checked row as the request edits it, and a revision and audit with its actor, request id, reason or fixed text, evidence and time |
| Ledger.DeletionIsAudited | backend/internal/service/certificate_record.go:137 | the audit of a delete names its actor and request id, goes from the checked status to deleted, and changes nothing else |
| Invariants.UniqueIndexNeverRejects | backend/internal/model/release_authorization.go:35-36 | in every well-formed state a commit succeeds exactly when its record is live at the expected version; the unique index on (record, version) never rejects it |
| Runs.RunEvolves | backend/internal/repository/base.go:65-101 | along any run versions never decrease, a version never changes its content, code and creation time are fixed, deleted rows are final, and histories are only appended to |
| Runs.CreationsStoreTheirInput | backend/internal/service/release_authorization.go:42-61 | for every state and creation: it goes through exactly if no required field is blank and key and code are unused, and then stores what was sent; otherwise nothing changes |
| Runs.CommitsRecordTheirRequest | backend/internal/service/certificate_record.go:63-124 | every commit that lands, whatever version was sent, writes the row it was checked against as its request edits it, and tells of it in both logs in the request's own words |
| Runs.LosersLeaveNoTrace | backend/internal/repository/base.go:73-75 | a commit that loses the version race, or a delete that finds its row gone, ends its request and changes nothing |
| Runs.DenseLockstepLogs | backend/internal/repository/certificate_record.go:61-94 | after any run the revisions of a record carry exactly the versions 1..Version, and its version audits match them one to one in actor, request, action, reason and resulting status |
| Runs.TrailRemembersRows | backend/internal/repository/release_authorization.go:84-91 | whatever row a record had at any point of a run is the version of that number in its trail at the end |
| Runs.TornGet | backend/internal/repository/release_authorization.go:53-59 | a Get whose two queries are separated by any steps returns a list that starts with the complete history of the version it returns |
| Runs.AnswerShowsOwnVersion | backend/internal/service/release_authorization.go:120-128 | after a request committed on version e, every later history shows at version e+1 its actor, request id, action, reason, time and status, and the evidence of an update |
| Runs.SingleWinnerPerVersion | backend/internal/repository/base.go:65-76 | over a whole run exactly one request committed against each version below the current one, and none against any other |
| Runs.VersionCountsCommits | backend/internal/service/release_authorization.go:85 | the version of a record is one plus the number of updates and transitions that committed |
| Runs.DeletedOnce | backend/internal/repository/base.go:92-101 | a record is removed at most once, and exactly when its row says deleted |
| Runs.DeletedIsFinal | backend/internal/repository/base.go:65-76 | after a delete neither the row nor the history of the record ever changes |
| Runs.DeleteAuditsFollowDeletes | backend/internal/service/release_authorization.go:130-142 | every delete audit goes from draft to deleted and belongs to a row that is deleted |
| Serializability.VersionsAreAChain | backend/internal/service/release_authorization.go:63-128 | in a disciplined run every version of a record is the answer to a request checked against the version before it |
| Serializability.CommitOverwritesItsSnapshot | backend/internal/service/certificate_record.go:63-124 | in a disciplined run a commit replaces exactly the row it was checked against, by the edit its request stands for, column by column |
| Serializability.RunsAreSerializable | backend/internal/service/release_authorization.go:63-128 | the tables after any disciplined interleaving are those of a sequential object that performs the same operations in commit order and accepts each of them |
| Progress.AcceptedRequestsCanBeServed | backend/internal/service/release_authorization.go:63-128 | conversely, what the sequential object accepts a disciplined client can bring about, with the same tables as result |
| LostUpdates.StatusIsKeptIff | backend/internal/service/certificate_record.go:63-124 | for every accepted update or transition: in every future the row it replaces is in the status it was checked in, if and only if the version it names is not newer than the one it was checked against |
| LostUpdates.EditsReplaceOnlyDraftsIff | backend/internal/service/release_authorization.go:63-91 | for every accepted edit: it replaces only drafts in every future in which all other clients are disciplined and authenticated, if and only if the version it names is not newer than the one it was checked against |
| Progress.DraftsCanLeaveAt | backend/internal/service/release_authorization.go:93-128 | such clients can edit any draft up to any later version and have it submitted or published there, with all waiting requests left waiting |
| LostUpdates.ExactIffVersionWasObserved | backend/internal/repository/base.go:65-76 | the same condition, column by column: the stored row a request replaces equals its snapshot in every future |
| LostUpdates.AnyVersionIsReachable | backend/internal/service/release_authorization.go:63-91 | copies of an accepted request, checked against one row, can bring the record to any later version in the status they ask for, while other requests wait |
| LostUpdates.UnseenVersionUndoesPublication | backend/internal/service/certificate_record.go:63-93 | a run in which an edit naming a version not yet received turns a published certificate into a draft, audited as draft to draft |
| Deletions.RemovalsAreExactIffVersionStands | backend/internal/service/release_authorization.go:130-142 | a removal right after its check removes exactly the draft that was checked; in any future it takes that row if and only if the version of the record has not moved |
| Deletions.DeletesCanTakeReviewedRows | backend/internal/repository/base.go:92-101 | after every accepted delete check, disciplined and authenticated clients can bring about that the same removal takes a row that is no longer a draft |
| Deletions.DeletesCanBeServed | backend/internal/service/certificate_record.go:126-138 | an uninterrupted delete marks its draft deleted, adds one audit under its caller's name, and leaves nothing waiting |
| Deletions.DeleteAuditsNameTheirCallers | backend/internal/service/release_authorization.go:130-142 | in every run, every delete audit carries the actor and request id of an earlier delete of that record that was accepted on a draft |
| Deletions.DeletesAreAuditedOnce | backend/internal/service/release_authorization.go:138-141 | in every run, a record has at most one delete audit, done or still to come, and only if its row is deleted |
| Histories.DualControl | backend/internal/service/release_authorization.go:105-119 | an authorization beyond draft rests on a last submission by SubmittedBy; every later revision has another actor, and the request that made it had a reviewing role; ReviewedBy and ReviewReason are those of the last one; at most three versions follow the submission |
| Chains.LastSubmission | backend/internal/service/release_authorization.go:99-119 | in every sequence of versions answered one at a time, the last submission is followed only by decisions of other people under reviewing roles, at most three of them |
| Histories.FrozenSinceLastDraft | backend/internal/service/release_authorization.go:68-91 | business fields are those of the last draft version, in every later revision and in every row read since, with any updates in flight |
| Chains.LastDraft | backend/internal/service/release_authorization.go:68-70 | in every such sequence all versions after the last draft are transitions that keep its business fields |
| Histories.AuditsAreAWalk | backend/internal/repository/release_authorization.go:78-94 | the version audits of a created record walk its status graph from nothing to its present status, each starting where the one before ended |
| Histories.StoryIsAWalk | backend/internal/repository/release_authorization.go:92 | the audits of every such sequence join up into a walk of the status graph |
| Histories.CertificateHistory | backend/internal/service/certificate_record.go:85-115 | a certificate is drafts, then at most one valid, one expired and one revoked version; publisher and revoker differ from the last preparer, and PreparedBy and VerifiedBy name them |
| Chains.CertificateShape | backend/internal/service/certificate_record.go:99-117 | every such sequence of certificate versions has that shape, with the people who made them |
| Histories.SubmissionsAreReturnedOrOpen | backend/internal/constants/status.go:52-58 | submissions equal returns to draft, plus one while the authorization is not a draft |
| Histories.StoryCycles | backend/internal/constants/status.go:52-58 | the same count for every sequence of versions answered one at a time |
| Histories.FewVersionsLeft | backend/internal/constants/status.go:45-58 | a decided authorization or published certificate, seeded or created, has at most two versions left, stays decided or published, and keeps its fields |
| Chains.RunsDown | backend/internal/constants/status.go:45-58 | along every such sequence the versions left strictly decrease once decided or published |
| Fields.FieldsStaySound | backend/internal/service/certificate_record.go:107-115 | with any versions sent, every row names the people its status needs and they are different people |
| Fields.DecisionsAlwaysHaveASubmitter | backend/internal/service/release_authorization.go:114-116 | the guard on an empty SubmittedBy never lets a decision through |
| Fields.SubmittersAreNeverLost | backend/internal/service/release_authorization.go:105-119 | in a disciplined run of authenticated users an authorization that was ever submitted names a submitter ever after, in drafts returned from review too |
| Seeds.SeededIsInitial | backend/internal/database/database.go:181-257 | the demonstration rows meet every condition the theorems put on a starting point |
| StatusCounts.CountByStatus | backend/internal/repository/base.go:103-120 | the map has exactly the statuses of live rows, each with its number of live rows, and the numbers sum to the live rows |
| StatusCounts.CountsAreAudited | backend/internal/repository/base.go:103-120 | in every disciplined run a status count is the initial count plus the audits entering the status, minus those leaving it, minus the records removed in it |
| Repositories.Store.Get | backend/internal/repository/certificate_record.go:53-59 | returns the row as it was, with a list that starts with exactly that row's history; not found exactly for rows that are missing or deleted; the failure of either query, the second only if there is a row |
| Repositories.Store.OptimisticUpdate | backend/internal/repository/base.go:65-76 | compare-and-set of the whole row except code, creation time and deletion mark |
| Repositories.Store.AppendAudit | backend/internal/repository/base.go:78-90 | one more audit, with "system" and "untracked" for blank names |
| Repositories.Store.CreateVersion | backend/internal/repository/certificate_record.go:61-76 | row, revision and audit together, or nothing, for a failure at any of the three writes |
| Repositories.Store.UpdateVersion | backend/internal/repository/release_authorization.go:78-94 | row, revision and audit together, or nothing, for a failure at any of the three writes; a valid database stays valid |
| Repositories.Store.Delete | backend/internal/repository/base.go:92-101 | marks a live row deleted and looks at nothing else, or fails and changes nothing |
| Service.ServedExactly | backend/internal/service/release_authorization.go:84-91 | a request that committed, answered or not, and named no version newer than it read replaced the row that was read, as if done in one step |
| Service.ServedRecords | backend/internal/service/certificate_record.go:85-93 | a request that committed wrote the row it read as it edits it, and revision and audit in its own words; the answer shows that revision, and that row while its version is the last |
| Service.RefusedExactly | backend/internal/service/release_authorization.go:63-128 | each error answered has its exact condition: the queries, then the table of refusals, then conflict or failure of the database; a request that did not commit is always answered with one |
| Service.CreatedRecords | backend/internal/service/release_authorization.go:42-61 | a creation that committed stored what was sent, and row and first revision in the answer say so; invalid input and a taken code are reported exactly when they occur |
| Service.DeletedNamesItsCaller | backend/internal/service/certificate_record.go:126-138 | a delete that reports success leaves an audit with its caller's name and request id as the last one; locked and not found are reported exactly when they occur |
| Service.DeletedExactly | backend/internal/service/release_authorization.go:130-142 | a delete that wrote was checked on a draft, and removed exactly that draft if and only if the version did not move between check and write |
| CertificateService.CertificateRecordService.Create | backend/internal/service/certificate_record.go:42-61 | one transaction answered with its own first version, or an error and no change; only the closing Get can fail after it |
| CertificateService.CertificateRecordService.Update | backend/internal/service/certificate_record.go:63-93 | under interference and failures: the first failing query or check is reported and nothing written, or one commit is made as a whole and shown in the answer if it can be read, or a conflict or failure leaves the tables alone |
| CertificateService.CertificateRecordService.Transition | backend/internal/service/certificate_record.go:95-124 | the same for transitions |
| CertificateService.CertificateRecordService.Delete | backend/internal/service/certificate_record.go:126-138 | checks the snapshot, removes whatever row is there, then audits in a write of its own that can fail alone |
| AuthorizationService.ReleaseAuthorizationService.Create | backend/internal/service/release_authorization.go:42-61 | one transaction answered with its own first version, or an error and no change; only the closing Get can fail after it |
| AuthorizationService.ReleaseAuthorizationService.Update | backend/internal/service/release_authorization.go:63-91 | under interference and failures: the first failing query or check is reported and nothing written, or one commit is made as a whole and shown in the answer if it can be read, or a conflict or failure leaves the tables alone |
| AuthorizationService.ReleaseAuthorizationService.Transition | backend/internal/service/release_authorization.go:93-128 | the same for transitions |
| AuthorizationService.ReleaseAuthorizationService.Delete | backend/internal/service/release_authorization.go:130-142 | checks the snapshot, removes whatever row is there, then audits in a write of its own that can fail alone |
| RateLimiter.Limiter.CleanupLocal | backend/internal/middleware/ratelimit.go:85-94 | from 512 entries on, drops exactly the buckets of earlier windows |
| RateLimiter.Limiter.IncrementLocal | backend/internal/middleware/ratelimit.go:71-83 | returns exactly the calls of the key in this minute over the whole history, and leaves at most max(512, keys called in this minute) entries |
| RateLimiter.Limiter.Increment | backend/internal/middleware/ratelimit.go:57-69 | counts in Redis under minute and key, and may fail after counting |
| RateLimiter.Limiter.Middleware | backend/internal/middleware/ratelimit.go:37-55 | passes a request exactly when the backend that answered has counted at most limit calls, with other requests running between its steps; the reset is the start of the next minute, and the wait is the whole seconds left until it, at least one |
| RateLimiter.PruningForgetsNothing | backend/internal/middleware/ratelimit.go:85-94 | pruning never loses a count that can still be asked for |
| Windows.OneBackendAdmitsTheFirst | backend/internal/middleware/ratelimit.go:48-52 | locally exactly the first limit calls of a key and window pass; through Redis at most, and exactly if no counted reply was lost |
| Windows.AdmissionBounds | backend/internal/middleware/ratelimit.go:37-83 | at most 2 limit admissions per key and window and 4 limit in any half-open minute with arbitrary Redis failures, 2 limit in any minute without Redis |
| Windows.AdmissionBoundsAreReached | backend/internal/middleware/ratelimit.go:37-83 | for every limit, key and minute that straddles two windows there is a history in time order that reaches 2 limit without Redis and 4 limit with Redis failing now and then, and limit and 2 limit in one window |
| Windows.OneAllowanceIffAligned | backend/internal/middleware/ratelimit.go:71-83 | a minute never gets more than one allowance per backend, over all histories, if and only if it is a window of the limiter or the limit lets nothing through |
| Windows.ComesBackIffReset | backend/internal/middleware/ratelimit.go:46-52 | a call the local limiter turned away is let through when it comes back if and only if it waited for the reset, and is then counted as the first, whatever other calls came before the reset |
| Windows.WaitingAsToldIff | backend/internal/middleware/ratelimit.go:46-49 | waiting exactly as long as Retry-After says is enough if and only if the window was over already or the time left was a whole number of seconds or less than one |
| Paging.ListingIsUnique | backend/internal/repository/base.go:46-47 | the order (updated_at desc, id desc) leaves one possible listing, so pages fetched by separate queries fit together |
| Paging.NormalizePage | backend/internal/repository/base.go:122-133 | page at least 1, page size 20 if missing and between 1 and 100 otherwise |
| Paging.List | backend/internal/repository/base.go:31-49 | with Count and Find on two states of the tables: total is the number of live records of the table that meet the filter in the first, all items are such records of the second, and they are the page asked for of the second if and only if its offset survives 64-bit arithmetic or lands past the end; either query's failure is reported |
| Paging.RightPageIffOffsetFits | backend/internal/repository/base.go:46-47 | the exact condition under which the machine offset selects the right page |
| Paging.HugePageShowsTheFirst | backend/internal/repository/base.go:46-47 | page 2^62 + 1 of size 20 returns the first page instead of nothing |
| Paging.PagesTile | backend/internal/repository/base.go:31-49 | pages 1 to the last concatenate to the listing, all but the last are full, later ones are empty, and none of them overflows |
| Paging.PagesShowTheMatches | backend/internal/repository/base.go:31-49 | turning all pages shows every live record of the table that meets the filter, once, nothing else, latest change first and then highest id |
| Paging.DeletedAreNotListed | backend/internal/repository/base.go:92-101 | after a delete the listing is the old one without that record, and no page shows it |
| Batching.BatchedEqualsPerRecord | backend/internal/repository/certificate_record.go:30-59 | the part of the one batched answer that belongs to a record equals what the record's own query returns |
| Batching.ValidLogsAnswerInOrder | backend/internal/repository/certificate_record.go:53-59 | in a valid database the version-ordered query for a record is answered by its log in insertion order, and the unique index holds |
| Batching.ValidLogsAreUnique | backend/internal/model/release_authorization.go:35-36 | dense histories leave no two log entries of one record with the same version |
| Batching.BatchesAreComplete | backend/internal/repository/certificate_record.go:30-51 | at any point of any run the part of a batch that belongs to a record is its whole history, versions 1 to the present one in order |
| Batching.TornList | backend/internal/repository/certificate_record.go:30-51 | with any steps between the page query and the revision query, each item's list still starts with the complete history of the version it shows |
| Batching.AttachRevisions | backend/internal/repository/certificate_record.go:35-51 | every item of the page gets exactly its own record's history, in place, and nothing else of it changes |

## Left out

- Aircraft part and inspection task services: the same compare-and-set without lock, separation of duty or revisions; they would add weaker copies.
- ListAudits and EntityHistory: ordered by time alone, so ties leave their paging open.
- Strings: trimming, upper-casing, JSON binding, length limits and the LIKE search are not modelled; a search is any condition on rows, and fixed log texts are named constants.
- Time: instants are naturals, the limiter's clock never goes back and is read once for the reset and the wait, and the ORM's own stamping of updated_at at write time is not modelled.
- Numbers: versions are unbounded naturals (a compare-and-set can only reach expected + 1 from a stored version); metricValue is a real.
- Database and Redis: transactions are atomic and may fail as a whole, a non-positive OFFSET skips nothing, Redis counters outlive their minute and are not lost.
- Failures of the revision query of List and of CountByStatus: reported like the other query failures.
- HTTP handlers, JWT, bcrypt, role ranks, configuration, health checks, front end: input and output around the modelled code.
