# Stead, modelled and proved in Dafny

Stead is a savings app: people sign in with a one-time password, set a goal, import bank
statements, and are warned by SMS when the goal is at risk. This project models the parts of its
API and mobile client where calls race, state survives crashes, or text and money must survive a
round trip, and proves what they guarantee over every run and every input.

`dafny verify dfyconfig.toml` checks everything.

## How it is built

Code that changes rows or fields step by step appears twice: as a pure state machine whose steps
are the source's statements, over which the guarantees are proved for all interleavings, and as
classes whose methods update fields in place and are proved against the same functions. The modules
named `...Outcomes`, `...Meaning`, `...Flows`, `...Pace` and `CsvDialect` then say what all of it comes
to in terms of rows, fields and texts alone, without those functions.

| modules | what they model |
|---|---|
| `RefreshFamilies`, `RefreshFamilyProofs`, `RefreshFamilyTheorems`, `RefreshOutcomes`, `RefreshTokenStore` | sign-in, refresh rotation with reuse detection (section 4.14.2 of RFC 9700), revocation, the cap on families |
| `OtpRequests`, `OtpRequestProofs`, `OtpRequestOutcomes`, `OtpRequestStore` | requesting a password under an idempotency key, including takeover after 30 seconds |
| `OtpVerification`, `OtpVerificationProofs`, `OtpVerificationOutcomes`, `OtpVerificationStore` | verifying it, concurrent retries, lockout, replay |
| `NotificationQueue`, `NotificationQueueProofs`, `NotificationQueueOutcomes`, `NotificationQueueStore` | the job queue, its claims, retries, dead letters and single consumer |
| `AlertRules`, `Alerts`, `AlertOutcomes`, `Calendar` | readiness alerts, their dedupe keys, and the weekly schedule on the Gregorian calendar |
| `StabilityEngine`, `StabilityPace`, `DoubleRounding` | the readiness score and status for any rounding of its arithmetic, the folds that feed it, and the rounding of doubles |
| `Csv`, `CsvDialect`, `ImportCells`, `CellMeaning`, `TransactionImport`, `TransactionMeaning`, `ImportLedger`, `ImportOutcomes` | reading and printing CSV, the two statement layouts, rows, fingerprints, preview and import |
| `MobileSession`, `MobileFlows` | token refresh racing logout and sign-in on the device |
| `Money`, `FormMeaning` | kobo and naira text, and the goal form |
| `Wrappers`, `Text`, `Numerals` | options and lists, string operations, numerals |

## What the proofs rest on

- A single statement, and a whole transaction, is one atomic step at one instant; the per-user
  advisory lock is what makes that fair for refresh rows. The database enforces the unique and
  foreign keys declared in `api/prisma/schema.prisma`. A failed statement has no effect; a
  statement whose answer is lost is a separate, explicit fault in `OtpVerification` and
  `NotificationQueue`.
- Between steps a call keeps only what it read. Calls may crash or be aborted between any two
  steps, and a shared clock never runs backwards within a run of the protocols.
- SHA-256, HMAC and bcrypt are injective, AES-GCM opens only with what it was sealed with, and
  generated ids and tokens never collide. Rate limits, the SMS provider, signing failures and
  telemetry failures are free choices of the environment.
- The score's arithmetic may round in any way that keeps order, is exact for whole numbers and
  multiples of 2^-30 of at most 53 bits, keeps whole numbers whole and positive numbers positive, and
  has a relative error of at most 2^-53. Rounding to 53 bits, ties to even, is such a way
  (`DoublesRound`), and so is not rounding at all. Overflow and underflow of doubles are left out.
- Fields documented as history (`issued`, `sessions`, `chains`, `rotatedAt`, `results`, `accepted`,
  `lost`) are not stored by the program; they only let the statements speak about the past.

## What the proofs found

- More savings or balance lower the score exactly when they settle a goal that scored above 80,
  from as much as 100 to exactly 80 (`ScoreFallsExactly`). The status never worsens.
- A later due date can lower the score: exactly when an overdue goal becomes one due within 29 days
  (`LaterDueDateHelpsExactly`). Overdue, a goal asks for what is owed in one month; with a few days
  left, for as much in those days, so the same income supports less of it.
- A verification key can yield one more session exactly when it is not stored with a code that was
  queued for delivery (`KeyYieldsAgainExactly`): a code that was never queued, verified all the same
  and then withdrawn frees its key. While the codes behind its sessions are stored, that is also
  exactly when two successful replies under it can come to differ (`RepliesDisagreeExactly`).
- A code the user holds when a success is returned can verify later only if it was created after the
  session behind that success; by replay that happens (`SuccessIsFinal`, `NewerCodeOutlivesReplay`).
- A code the user holds when a lockout is returned can verify later only if it was created while the
  lockout was being recorded (`LockoutIsFinal`, `NewerCodeOutlivesLockout`).
- The branch of `verifyOtp` that reports a code as already locked can never be taken.
- Alert spacing, alternation and the bound of five hold for saved evaluations. If the save after
  queueing is lost they fail, and `SecondRiskWithinADay` and `SecondRecovery` say exactly when. More
  than five risk alerts can follow exactly when the score last notified is not below 20 and time is
  left for them (`MoreThanFiveRisks`). Each comes with a run.
- If the answer to marking a job sent is lost, the job of a delivered message becomes pending or dead,
  exactly when the consumer gets to record the failure (`LostAnswerLeavesSent`). The message is not
  sent again: the payload is redacted, so the job can only fail until it is dead
  (`LostIsNeverDelivered`), and such jobs are the only redacted ones that are not finished
  (`RedactedExactly`).
- A translated statement record with a blank date, a blank description and not exactly one amount
  disappears instead of being reported, and the rows after it are renumbered (`DroppedRecords`).
- Logout clears the device for good exactly when nobody is signing in as it starts
  (`LogoutClearsExactly`); otherwise the sign-in can put tokens back after the clearing.
- The `revokedAt` of a replaced row is not always the time of its rotation: exactly when a late
  refresh of an expired token overwrote it (`RevocationTimeIsLost`). The age bound on rotations is
  therefore stated about the insertion of successors.

## Model

| member | source | states |
|---|---|---|
| `RefreshFamilyProofs.RunKeepsInv` | api/src/auth/auth.service.ts:672-790 | in every state any interleaving of sign-ins, rotations (also rolled back), revocations and crashes can reach: one chain per family, the cap, unique token hashes, and what every call in flight may rely on |
| `RefreshFamilyTheorems.FamilyIsOneChain` | api/src/auth/auth.service.ts:716-744 | the rows of a family form one replacement chain sharing user and birth date; at most one of them is unrevoked |
| `RefreshFamilyTheorems.RotationsAreYoungAndBound` | api/src/auth/auth.service.ts:699-740 | no rotation of any length of chain happened at or beyond the birth date plus the maximum age, and the successor of a device-bound row is bound to the same device |
| `RefreshFamilyTheorems.RevocationTimeIsLost` | api/src/auth/auth.service.ts:688-724 | the revocation time of a replaced row differs from the time of its rotation exactly when, at some later time, a refresh that had read the row unrevoked found it expired and revoked it once more |
| `RefreshFamilyTheorems.LateReaderOverwrites` | api/src/auth/auth.service.ts:688-693 | in every reachable state, any refresh that has read its row unrevoked can come to overwrite the revocation time of that row with any later time past its expiry |
| `RefreshFamilyTheorems.RevocationTimeCanBeLost` | api/src/auth/auth.service.ts:688-724 | a run from the empty table in which a rotation at time 0 ends up recorded as a revocation at time 10 |
| `RefreshFamilyTheorems.DeadStaysDead` | api/src/auth/auth.service.ts:716-754 | a family without an unrevoked row never gets one again, although calls holding stale snapshots are still in flight |
| `RefreshFamilyTheorems.LogoutIsFinal` | api/src/auth/auth.service.ts:782-790 | the family a returned logout ended has no unrevoked row in any later state |
| `RefreshFamilyTheorems.AllDevicesLogoutIsFinal` | api/src/auth/auth.service.ts:774-780 | every family the user had when an all-devices logout committed stays without an unrevoked row |
| `RefreshFamilyTheorems.OneRefreshWins` | api/src/auth/auth.service.ts:719-732 | of any number of refreshes of one token at most one succeeds |
| `RefreshFamilyTheorems.LiveFamiliesCapped` | api/src/auth/auth.service.ts:1089-1116 | starting from an empty table, a user never has more families with an unrevoked row than configured |
| `RefreshFamilyTheorems.SignInEffect` | api/src/auth/auth.service.ts:1070-1139 | a committed sign-in leaves its family usable, no other unrevoked row bound to the device, and every row it ended besides the device's own is no newer than any row it kept |
| `RefreshFamilyTheorems.SignInEvictsOldest` | api/src/auth/auth.service.ts:1101-1115 | a row ended by making room belongs to a family no newer than every family kept |
| `RefreshOutcomes.BeatenRefreshEndsFamily` | api/src/auth/auth.service.ts:719-764 | a refresh at its claim whose row another call has revoked: by the time it has answered it was cut short or the family is ended, for good |
| `RefreshOutcomes.ReuseEndsFamily` | api/src/auth/auth.service.ts:686-689 | so does a refresh that presents a token used or revoked before it read its row |
| `RefreshOutcomes.LoserRevokesSuccessor` | api/src/auth/auth.service.ts:719-764 | once one refresh of a token has succeeded, any other that has yet to read or to claim its row ends the family, the successor of the winner included |
| `RefreshOutcomes.LogoutEndsFamily` | api/src/auth/auth.service.ts:782-790 | a logout given a stored token, used or not, was cut short or has ended the family of that token for good when it has answered |
| `RefreshOutcomes.AgedRefreshEndsFamily` | api/src/auth/auth.service.ts:699-703 | a refresh that finds its family at or beyond the maximum age ends it |
| `RefreshOutcomes.ExpiredRefreshRevokesRow` | api/src/auth/auth.service.ts:691-697 | one that finds its token unused but expired is refused, and the row is revoked |
| `RefreshOutcomes.WrongDeviceIsRefused` | api/src/auth/auth.service.ts:710-714 | one from another device than the row is bound to is refused and changes nothing |
| `RefreshOutcomes.LateClaimIsRefused` | api/src/auth/auth.service.ts:756-764 | one whose claim failed though its row is still unused is refused and revokes nothing |
| `RefreshOutcomes.RotationEffect` | api/src/auth/auth.service.ts:716-754 | what a successful refresh found, and every field of the two rows it wrote; nothing else changes |
| `RefreshOutcomes.UsableTokenRotates` | api/src/auth/auth.service.ts:672-767 | from any reachable state a usable token presented by its device is rotated when nothing intervenes |
| `RefreshOutcomes.EvictsOnlyWhenFull` | api/src/auth/auth.service.ts:1089-1107 | a sign-in ends a row of another device only when the user then holds as many families as allowed |
| `RefreshOutcomes.RevocationHasCause` | api/src/auth/auth.service.ts:686-790 | whenever a row is revoked: by its own rotation or expiry, because its family was reused, grew too old or was logged out, or by a logout from all devices or a sign-in of its user, and at that time |
| `RefreshTokenStore.RefreshTokenTable.GroupLiveFamilies` | api/src/auth/auth.service.ts:1089-1093 | one group per family with an unrevoked row, with the least creation time among those rows |
| `RefreshTokenStore.SortedByAge` | api/src/auth/auth.service.ts:1101-1105 | sorting by creation time gives an ordered permutation of the groups |
| `RefreshTokenStore.OldestPrefixEvicts` | api/src/auth/auth.service.ts:1096-1106 | the first `overflow` groups of the sorted list are oldest families, just enough to leave room for one more |
| `RefreshTokenStore.RefreshTokenTable.RevokeDeviceFamilies` | api/src/auth/auth.service.ts:1075-1087 | the loop ends exactly the families with an unrevoked row of this device |
| `RefreshTokenStore.RefreshTokenTable.EvictOverflow` | api/src/auth/auth.service.ts:1089-1115 | the loop ends exactly a set of oldest families that makes room |
| `RefreshTokenStore.RefreshTokenTable.PrepareRefreshFamilySlot` | api/src/auth/auth.service.ts:1070-1116 | both loops together |
| `RefreshTokenStore.RefreshTokenTable.IssueSession` | api/src/auth/auth.service.ts:957-1022 | the sign-in transaction as one update of the table, or nothing when signing fails |
| `RefreshTokenStore.RefreshTokenTable.RotateInTransaction` | api/src/auth/auth.service.ts:716-754 | claim, insert, link and sign, or a table left as it was; it rotates exactly when the row is claimable and signing works |
| `RefreshTokenStore.RefreshTokenTable.RefreshSession` | api/src/auth/auth.service.ts:672-757 | an undisturbed refresh succeeds exactly for a token usable by this device now; a used or overaged one ends the family, an expired one is revoked alone, a wrong device changes nothing |
| `RefreshTokenStore.RefreshTokenTable.RevokeRefreshFamily` | api/src/auth/auth.service.ts:1164-1179 | every unrevoked row of the family is revoked and nothing else changes |
| `OtpRequestProofs.RunKeepsInv` | api/src/auth/auth.service.ts:254-464 | what the rows, the jobs and every call in flight satisfy under all interleavings, crashes, faults and takeovers |
| `OtpRequestProofs.JobCarriesItsRowsCode` | api/src/auth/auth.service.ts:398-456 | a queued job points to a stored row of its own key, and would send exactly that row's code to that row's phone |
| `OtpRequestProofs.CompletedMeansEnqueued` | api/src/auth/auth.service.ts:153-173 | a row is marked completed only when its job is in the queue |
| `OtpRequestProofs.ReplyMeansEnqueued` | api/src/auth/auth.service.ts:451-463 | a call returns success only when the key has its job, and shows that row's code if it shows one |
| `OtpRequestProofs.DeliveredRowStays` | api/src/auth/auth.service.ts:175-206 | once a key has its job, the row behind it is never taken over and keeps its code |
| `OtpRequestProofs.RepliesAgree` | api/src/auth/auth.service.ts:137-216 | all successful replies for a key, at any time, are the same |
| `OtpRequestProofs.OnlyStaleRequestsDisappear` | api/src/auth/auth.service.ts:175-187 | a row disappears only unfinished and unsent, after the timeout or by its own failed call |
| `OtpRequestOutcomes.RetryGetsReply` | api/src/auth/auth.service.ts:137-173 | once the job of a key is queued, a call of its phone that has yet to look the key up, insert or publish answers with the code of that job unless it crashes |
| `OtpRequestOutcomes.TakeoverMeetsJob` | api/src/auth/auth.service.ts:188-204 | so does a call that meets the job only when it tries to take the request over |
| `OtpRequestOutcomes.CooldownDecides` | api/src/auth/auth.service.ts:362-396 | a call goes on to a new code only if the phone has no request from within the cool-down, and answers there only with the code of its own completed one |
| `OtpRequestOutcomes.NewRequestSends` | api/src/auth/auth.service.ts:254-464 | from any reachable state, a new key of a phone past its cool-down leaves one new row and its job, with every field of both, and the answer |
| `OtpRequestOutcomes.FailedEventLeavesNothing` | api/src/auth/auth.service.ts:444-449 | a request whose event cannot be recorded leaves rows and jobs as they were |
| `OtpRequestOutcomes.AbandonedIsReplaced` | api/src/auth/auth.service.ts:175-187 | a retry of an unfinished request without a job, at least thirty seconds old, removes it and sends a new code |
| `OtpRequestOutcomes.YoungRequestIsLeft` | api/src/auth/auth.service.ts:209-212 | a retry of a younger one is refused and changes nothing |
| `OtpRequestOutcomes.LostInsertFails` | api/src/auth/auth.service.ts:418-431 | a call that lost the insert and then finds nothing of the winner reports the conflict |
| `OtpRequestStore.OtpTables.EnqueueOtpRequested` | api/src/notifications/notification-queue.service.ts:74-118 | queues the job, or reports the conflict unless the existing job is this row's |
| `OtpRequestStore.OtpTables.ReplayOtpRequest` | api/src/auth/auth.service.ts:137-216 | every outcome for a stored request: answered when completed, completed and answered when its job exists, refused for another phone, still processing while young, and taken over, exactly that row removed, when abandoned |
| `OtpRequestStore.OtpTables.SendNewCode` | api/src/auth/auth.service.ts:398-463 | insert, event, job and completion as one change of rows and jobs; when the event cannot be recorded no row is left |
| `OtpRequestStore.OtpTables.RequestOtp` | api/src/auth/auth.service.ts:254-464 | an undisturbed request: which outcome it has and the whole tables it leaves, also when it is limited, refused, or its event cannot be recorded; success leaves the matching job behind |
| `OtpVerificationProofs.RunKeepsInv` | api/src/auth/auth.service.ts:466-670 | what rows, sessions and calls in flight satisfy under all interleavings, crashes, aborts and lost acknowledgements |
| `OtpVerificationProofs.OneSessionPerCode` | api/src/auth/auth.service.ts:957-968 | a code yields at most one session however many retries race |
| `OtpVerificationProofs.OneSessionPerStoredKey` | api/src/auth/auth.service.ts:1008-1021 | a key yields at most one session among codes still stored |
| `OtpVerificationProofs.SecondSessionMeansWithdrawn` | api/src/auth/auth.service.ts:1008-1021 | two sessions share a key only if the code behind the first is no longer stored |
| `OtpVerificationProofs.OneSessionPerKey` | api/src/auth/auth.service.ts:934-1037 | once the code behind a session has been queued for delivery, its key yields no later session |
| `OtpVerificationProofs.KeyYieldsAgainExactly` | api/src/auth/auth.service.ts:1008-1021 | from any reachable state a key can yield one more session exactly when it is not stored with a code whose job was queued |
| `OtpVerificationProofs.UndeliveredCodeFreesItsKey` | api/src/auth/auth.service.ts:444-449 | for any session whose code is still stored: its key can yield another one exactly while that code was not queued for delivery |
| `OtpVerificationProofs.ReplyIsStoredSession` | api/src/auth/auth.service.ts:926-931 | a successful reply is the stored response of a session created under its key |
| `OtpVerificationProofs.RepliesAgree` | api/src/auth/auth.service.ts:497-504 | all successful replies for a key are the identical response while its codes stay stored |
| `OtpVerificationProofs.RepliesCanDisagree` | api/src/auth/auth.service.ts:497-504 | from any reachable state with a success under a key that no delivered code holds, a later success under that key can carry another response |
| `OtpVerificationProofs.RepliesDisagreeExactly` | api/src/auth/auth.service.ts:497-504 | while the codes behind the sessions of a key are stored: a continuation with two different successful replies under it exists exactly when it is not stored with a code that was queued for delivery |
| `OtpVerificationProofs.ConsumedNeverVerifies` | api/src/auth/auth.service.ts:958-968 | a consumed code never creates a session again |
| `OtpVerificationProofs.RetirementIsFinal` | api/src/auth/auth.service.ts:626-629 | once a lockout has retired the codes of its user, none of them ever creates a session |
| `OtpVerificationProofs.LockoutIsFinal` | api/src/auth/auth.service.ts:626-644 | a code the user holds when, or after, a lockout is returned verifies later only if it was created after the lockout retired the codes, while the event was being recorded or later |
| `OtpVerificationProofs.NewerCodeOutlivesLockout` | api/src/auth/auth.service.ts:626-644 | from any reachable state in which a lockout is still being recorded, the user can hold a newer code when it is returned, and verify it afterwards |
| `OtpVerificationProofs.LockoutHappens` | api/src/auth/auth.service.ts:612-629 | for every maximum, that many wrong codes lead to such a state |
| `OtpVerificationProofs.CommitIsFinal` | api/src/auth/auth.service.ts:957-973 | after a session was created no code the user then held ever creates another |
| `OtpVerificationProofs.SuccessIsFinal` | api/src/auth/auth.service.ts:497-504 | however a success is returned, a code the user holds at that time verifies later only if it was created after the session behind the success |
| `OtpVerificationProofs.NewerCodeOutlivesReplay` | api/src/auth/auth.service.ts:497-504 | wherever a success can be replayed, the user can hold a newer code before the replay returns, and verify it afterwards |
| `OtpVerificationProofs.ReplayHappens` | api/src/auth/auth.service.ts:497-504 | a run from the empty table in which that happens |
| `OtpVerificationProofs.NeverAlreadyLocked` | api/src/auth/auth.service.ts:596-611 | the lookup never returns a locked code: the branch that reports one is dead |
| `OtpVerificationOutcomes.ReplyFitsItsSession` | api/src/auth/auth.service.ts:877-932 | a success is returned only for the phone, code, key and device its session was created with |
| `OtpVerificationOutcomes.SessionNeedsItsCode` | api/src/auth/auth.service.ts:613-663 | the step that creates a session finds the code of the call, open, and unexpired when it was compared |
| `OtpVerificationOutcomes.ExpiredNeverVerifies` | api/src/auth/auth.service.ts:573-580 | a code that ran out before any call compared it never creates a session |
| `OtpVerificationOutcomes.TriesNewestCode` | api/src/auth/auth.service.ts:573-594 | a call tries the newest live code of its user, and looks its key up once more only if there is none |
| `OtpVerificationOutcomes.RetryGetsSession` | api/src/auth/auth.service.ts:497-504 | a call that looks its key up, or is about to create a session, while a session is stored under it for the same phone, code and device answers with the stored response, unless it crashes, the code is withdrawn or the window passes |
| `OtpVerificationOutcomes.LateRetryGetsSession` | api/src/auth/auth.service.ts:581-594 | so does one whose first lookup came before the commit of the winner and that finds no live code after it, unless it is limited |
| `OtpVerificationOutcomes.OwnSessionIsReturned` | api/src/auth/auth.service.ts:957-1037 | a call whose session was committed returns it, also when the commit was not acknowledged, with the same exceptions |
| `OtpVerificationOutcomes.TooLateYieldsNothing` | api/src/auth/auth.service.ts:916-925 | a call that begins when the session stored under its key is more than ten minutes old never succeeds while that row is stored |
| `OtpVerificationOutcomes.OnlyOwnCodesAreConsumed` | api/src/auth/auth.service.ts:618-629 | a code is consumed only by a commit or a lockout of its own user, or by the last miss allowed against it |
| `OtpVerificationStore.OtpTable.ReplayOtpVerification` | api/src/auth/auth.service.ts:877-932 | the stored response is returned exactly for the same phone, device, code and within ten minutes; anything else under the key is an error |
| `OtpVerificationStore.OtpTable.IssueVerifiedSession` | api/src/auth/auth.service.ts:957-1022 | the transaction commits exactly when signing works, the code is claimable and the key free; then the whole new table, otherwise the old one |
| `OtpVerificationStore.OtpTable.VerifyOtp` | api/src/auth/auth.service.ts:466-670 | an undisturbed verification: which code is tried, when it opens a session, that a wrong one is counted, and when it locks |
| `OtpVerificationStore.OtpTable.CountMiss` | api/src/auth/auth.service.ts:614-655 | a wrong code counts one attempt and changes nothing else; the last allowed one consumes every code of the user |
| `NotificationQueueProofs.LifecycleHolds` | api/src/notifications/notification-queue.service.ts:270-391 | in every reachable state, whatever answers are lost: attempts, failure rows, dead-lettering, redaction, sending time, locks and what the consumer holds agree for every job, with crashes anywhere and jobs removed at any time |
| `NotificationQueueProofs.TerminalIsFinal` | api/src/notifications/notification-queue.service.ts:320-375 | in any run: a sent or dead job stays exactly as it is in every continuation, for as long as it is stored, exactly when it is not a sent one the consumer is about to record a failure for; a dead one always does |
| `NotificationQueueProofs.DeadExactlyAtMaximum` | api/src/notifications/notification-queue.service.ts:343-371 | in any run: attempts equal the failure rows numbered from one, never exceed the maximum, reach it exactly in dead letter, whose last row alone is terminal; sent means the provider took the message |
| `NotificationQueueProofs.RedactedExactly` | api/src/notifications/notification-queue.service.ts:320-391 | finished jobs are redacted, and sent ones have a sending time; any other stored job is redacted, or has one, exactly when it was marked sent while the answer was lost |
| `NotificationQueueProofs.LostIsNeverDelivered` | api/src/notifications/notification-consumer.service.ts:136-164 | a job marked sent while the answer was lost is never given to the provider again and stays redacted, and once it has left `sent` it never returns there |
| `NotificationQueueProofs.FailuresAreKept` | api/src/notifications/notification-queue.service.ts:343-371 | a failure row stays as it was written for as long as its job is stored, and the maximum does not change |
| `NotificationQueueProofs.LostAnswerLeavesSent` | api/src/notifications/notification-consumer.service.ts:105-116 | whenever marking a job sent takes effect but its answer is lost, the job leaves `sent` exactly when the consumer gets to record a failure for it before it crashes, its statement fails or the job is removed, whatever else happens in between |
| `NotificationQueueProofs.LeavesSentThere` | api/src/notifications/notification-consumer.service.ts:105-116 | it is sent up to that statement and no longer after it |
| `NotificationQueueProofs.RestsForGood` | api/src/notifications/notification-queue.service.ts:320-375 | in any run, whatever answers are lost: a finished job the consumer is not at work on stays exactly as it is for as long as it is stored |
| `NotificationQueueProofs.SentCanBeLeft` | api/src/notifications/notification-consumer.service.ts:105-116 | a concrete run in which that happens: the job of a delivered message becomes pending with a failed attempt |
| `NotificationQueueProofs.BackoffGrows` | api/src/notifications/notification-queue.service.ts:525-527 | later attempts never wait less, none less than two seconds, and from the fifth on all wait thirty |
| `NotificationQueueProofs.ClaimsWait` | api/src/notifications/notification-queue.service.ts:270-303 | a job enters processing only through a claim, not before its time, and a lock is taken over only after five minutes |
| `NotificationQueueProofs.RetriesWait` | api/src/notifications/notification-queue.service.ts:343-371 | after a failure that was not the last, the job is claimed again only once its backoff has passed, over whole runs |
| `NotificationQueueOutcomes.EnqueueLeaves` | api/src/notifications/notification-queue.service.ts:74-118 | every field of a new job: pending, due at once, no attempt against it |
| `NotificationQueueOutcomes.SentLeaves` | api/src/notifications/notification-queue.service.ts:320-341 | a job becomes sent only after the provider took it; then its payload is gone, the time is noted, and nothing else changes |
| `NotificationQueueOutcomes.FailureLeaves` | api/src/notifications/notification-queue.service.ts:343-375 | whenever a failure is added to a job: one attempt more, the row appended, dead and redacted at the maximum, otherwise pending again after 2, 4, 8, 16 and then always 30 seconds |
| `NotificationQueueOutcomes.OnlyItsJobChanges` | api/src/notifications/notification-queue.service.ts:270-375 | a statement of the consumer changes no job but the one it has found or holds |
| `NotificationQueueOutcomes.DeliveryFailureCounts` | api/src/notifications/notification-consumer.service.ts:95-133 | a payload that cannot be opened, a failed check or a refusal by the provider is counted as a failure by the next statement that takes effect |
| `NotificationQueueOutcomes.TakesOldestDue` | api/src/notifications/notification-queue.service.ts:273-288 | the consumer takes up only a job that is due, and none that is due was created before it |
| `NotificationQueueOutcomes.DueJobCanBeSent` | api/src/notifications/notification-queue.service.ts:270-341 | from any reachable state, the oldest job, once due, can be delivered and is then sent, whatever became of the consumer that held it |
| `NotificationQueueOutcomes.RemovedIsNotDelivered` | api/src/notifications/notification-consumer.service.ts:96-103 | a job removed before its delivery was cleared is never given to the provider |
| `NotificationQueueStore.Queue.FindReady` | api/src/notifications/notification-queue.service.ts:285-288 | the candidate is a ready job and no ready job is older; none is returned only when none is ready |
| `NotificationQueueStore.Queue.ClaimReadyJob` | api/src/notifications/notification-queue.service.ts:270-318 | claims the oldest ready job and returns it, or marks it failed when its payload cannot be opened |
| `NotificationQueueStore.Queue.MarkFailed` | api/src/notifications/notification-queue.service.ts:343-375 | the whole new state: retry with backoff, or dead letter with redaction |
| `NotificationQueueStore.Queue.RedactTerminalPayloads` | api/src/notifications/notification-queue.service.ts:383-391 | exactly the terminal jobs are redacted |
| `NotificationQueueStore.ConsumerService.Tick` | api/src/notifications/notification-consumer.service.ts:51-133 | a poll does nothing while another is at work; otherwise it leaves exactly one job changed, or none when none is ready |
| `NotificationQueueStore.PollIsARun` | api/src/notifications/notification-consumer.service.ts:90-119 | an undisturbed poll is a run of the single steps |
| `Calendar.NextDayCounts` | api/src/alerts/alert-rules.ts:95-96 | the closed form of day counting advances by one from each day to the next, across months, years and leap days |
| `Calendar.DayNumberNames` | api/src/alerts/alert-rules.ts:95-96 | naming and counting days are inverse |
| `Calendar.IsoInstantInjective` | api/src/alerts/alert-rules.ts:59 | two instants of years up to 9999 with the same ISO text are equal |
| `AlertRules.KeyDetermines` | api/src/alerts/alert-rules.ts:44-61 | equal dedupe keys come from the same user, goal, kind, anchor, last notified status and score, and current status and score |
| `AlertRules.SameKeySameWeek` | api/src/alerts/alert-rules.ts:91-96 | two local dates have the same weekly key exactly when they lie in the same Sunday-to-Saturday week |
| `AlertRules.DueStaysDue` | api/src/alerts/alert-rules.ts:97-99 | due-ness once reached holds for every later local day and hour of the week |
| `AlertOutcomes.DueExactly` | api/src/alerts/alert-rules.ts:97-99 | the summary is due exactly from its day and hour on, counted in hours from the Sunday midnight that starts the local week |
| `Alerts.EqualKeysAreOneAlert` | api/src/alerts/alert-rules.ts:44-61 | two evaluations with one key are of the same user, goal, decision, score and baseline, and the earlier one was lost; so no key of a saved alert is used again |
| `Alerts.RetryRepeatsKey` | api/src/alerts/alerts.service.ts:107-151 | after any number of lost saves the same metrics decide the same and repeat the key exactly |
| `Alerts.SavedAlertIsQueued` | api/src/alerts/alerts.service.ts:113-146 | what a saved evaluation decided is in the queue, put there by it or by a lost evaluation of the same alert |
| `Alerts.RiskAlertsAreSpaced` | api/src/alerts/alert-rules.ts:30-33 | after a saved risk alert none is decided for 24 hours |
| `Alerts.SecondRiskWithinADay` | api/src/alerts/alerts.service.ts:107-151 | exactly when a second risk alert is decided within 24 hours of one: no risk alert was saved since the first, and the score is unstable and worse than the last saved baseline |
| `Alerts.LostSaveBreaksSpacing` | api/src/alerts/alerts.service.ts:115-174 | when nothing is saved in between: exactly when the first save was lost and the new score is unstable and worse than the unchanged baseline |
| `Alerts.KeysAgree` | api/src/alerts/alert-rules.ts:44-61 | two decided alerts have one key exactly when user, goal, kind, score and baseline agree |
| `Alerts.LostAlertsDifferByScore` | api/src/alerts/alert-rules.ts:44-61 | while nothing is saved two alerts of one kind differ exactly when their scores do |
| `Alerts.TwoRisksInAnHour` | api/src/alerts/alerts.service.ts:115-174 | a run with two different risk alerts one hour apart |
| `Alerts.RiskBetweenRecoveries` | api/src/alerts/alert-rules.ts:24-28 | between a saved recovery and the next there is a saved risk alert |
| `Alerts.SecondRecovery` | api/src/alerts/alerts.service.ts:107-151 | without a saved risk alert in between, a second recovery is decided exactly when no recovery was saved since the first and the score is stable |
| `Alerts.TwoRecoveriesInARow` | api/src/alerts/alerts.service.ts:115-174 | a run with two different recoveries after one risk alert |
| `Alerts.RecoveryFollowsRisk` | api/src/alerts/alert-rules.ts:22-28 | after a saved risk alert every stable evaluation decides a recovery until one is saved |
| `Alerts.RelapseIsReported` | api/src/alerts/alert-rules.ts:30-41 | after a saved recovery a non-stable evaluation decides a risk alert exactly when 24 hours have passed since the last one, until one is saved |
| `Alerts.AtMostFiveRisks` | api/src/alerts/alert-rules.ts:36-41 | at most five risk alerts are saved without a recovery between them |
| `Alerts.FiveRisksHappen` | api/src/alerts/alert-rules.ts:36-41 | a run, with real dates, that saves five |
| `Alerts.MoreThanFiveRisks` | api/src/alerts/alerts.service.ts:115-174 | a run has a continuation that queues more than five different risk alerts with no recovery saved between them exactly when the score last notified is not below 20 and there is time for six evaluations past the cool-down |
| `Alerts.RisksInARow` | api/src/alerts/alerts.service.ts:115-174 | a run that queues up to seventy different risk alerts within as many milliseconds |
| `Alerts.OneWeeklyJob` | api/src/alerts/alerts.service.ts:91-101 | at most one weekly job exists per user, goal and week, in any run with crashes |
| `Alerts.DueWeekIsQueued` | api/src/alerts/alerts.service.ts:84-105 | once an evaluation of a due week got past its weekly step that job is there for good |
| `Alerts.MissedWeekIsMadeUp` | api/src/alerts/alerts.service.ts:84-105 | a week whose first due evaluation was lost is made up for by any later one of the week |
| `Alerts.WeeklyJobExactlyWhenDue` | api/src/alerts/alerts.service.ts:84-105 | the job of a week is in the queue exactly when an evaluation of that week, with the summary due, got past its weekly step |
| `Alerts.JobsComeFromEvaluations` | api/src/notifications/notification-queue.service.ts:179-206 | a job is what its key names: a weekly summary some evaluation of that week found due, or an alert some evaluation decided under that key |
| `AlertOutcomes.ObservedIsLatest` | api/src/alerts/alerts.service.ts:79-82 | in every run the row exists from the first saved evaluation on, and shows the score and band of the latest |
| `AlertOutcomes.StampIsLatest` | api/src/alerts/alerts.service.ts:142-146 | the time noted for either kind of alert is that of the latest saved one, and there is none before the first |
| `AlertOutcomes.BaselineIsLatest` | api/src/alerts/alerts.service.ts:140-150 | the status and score noted as notified are those of the latest saved evaluation that decided an alert, or was the first one and stable; there are none before |
| `AlertOutcomes.WeekIsLatest` | api/src/alerts/alerts.service.ts:91-104 | the week noted is that of the latest saved evaluation with the summary due, the time noted that of the one that first noted this week |
| `AlertOutcomes.AlertsAreWanted` | api/src/alerts/alerts.service.ts:107-151 | every alert job comes from an evaluation of its user and goal with risk alerts enabled: a risk alert from an unstable one, a recovery from a stable one |
| `Alerts.AlertsService.EnqueueReadinessAlert` | api/src/notifications/notification-queue.service.ts:179-206 | a taken key is reported and changes nothing |
| `Alerts.AlertsService.EvaluateUser` | api/src/alerts/alerts.service.ts:60-175 | one evaluation, also one cut short, is one step of the runs above |
| `DoubleRounding.RoundEvenIsNearest` | api/src/dashboard/engine.ts:34-63 | rounding a scaled number takes the nearest whole number, the even one of two |
| `DoubleRounding.RoundedIsADouble` | mobile/src/lib/transactions.ts:89 | a rounded number has a significand of 53 bits, the nearest to the number rounded |
| `DoubleRounding.DoublesRound` | api/src/dashboard/engine.ts:34-63 | rounding to 53 significant bits, ties to even, as JavaScript numbers do, has every property that the results about the score use |
| `StabilityEngine.ScoreInRange` | api/src/dashboard/engine.ts:58-63 | the score is in 0..100 for all inputs, however its arithmetic is rounded |
| `StabilityEngine.ScoreGrowsWhileOwing` | api/src/dashboard/engine.ts:34-63 | while something is owed, more savings or balance never lower the score |
| `StabilityEngine.SettledScore` | api/src/dashboard/engine.ts:34-63 | with nothing owed on a real goal the score is exactly 80 |
| `StabilityEngine.ScoreFallsExactly` | api/src/dashboard/engine.ts:34-63 | more savings or balance lower the score exactly when they settle a real goal that scored above 80 |
| `StabilityEngine.ScoreCanFall` | api/src/dashboard/engine.ts:34-63 | an input whose score falls from 100 to 80 when the last kobo is saved |
| `StabilityEngine.StatusNeverWorsens` | api/src/dashboard/engine.ts:34-70 | the status never worsens as savings or balance grow |
| `StabilityEngine.StableNeedsSavings` | api/src/dashboard/engine.ts:58-70 | no balance, income or buffer makes a goal stable before 255013683/2^30 of it, just under 19/80, is saved |
| `StabilityEngine.StableNeedsExactly` | api/src/dashboard/engine.ts:58-70 | without rounding that bound is 19/80 |
| `StabilityEngine.StableNeedsBalance` | api/src/dashboard/engine.ts:45-70 | while something is owed, no savings or income make it stable without a positive balance |
| `StabilityEngine.InflowNeverWorsens` | api/src/dashboard/dashboard.service.ts:30-50 | one more inflow, linked or not, wherever it sorts, never worsens the status, although every partial sum is rounded |
| `StabilityEngine.OutflowNeverImproves` | api/src/dashboard/dashboard.service.ts:30-50 | one more outflow never improves it |
| `StabilityPace.DaysExactly` | api/src/dashboard/engine.ts:30-31 | for every rounding: `n` days are left exactly when the due instant lies more than `n - 1` and at most `n` days ahead, none exactly when it has passed |
| `StabilityPace.PaceExactly` | api/src/dashboard/engine.ts:37-42 | without rounding, the pace is the least whole amount whose `days / 30` multiple covers what is owed; once due, all that is owed |
| `StabilityPace.PaceIsClose` | api/src/dashboard/engine.ts:37-42 | and for every rounding it is at most one kobo off that, for a pace of up to 2^50 kobo |
| `StabilityPace.LaterDueDateHelpsExactly` | api/src/dashboard/engine.ts:30-63 | going from `d` to `e` more days left never costs a point exactly when it is not from an overdue goal to one due within 29 days |
| `StabilityPace.DueSoonNeverHelps` | api/src/dashboard/engine.ts:37-63 | and in that case the score never rises |
| `StabilityPace.IncomeHelpsUpToPace` | api/src/dashboard/engine.ts:49-63 | a larger income never lowers the score, and all incomes of at least the pace give the same |
| `StabilityPace.CoveredOnly` | api/src/dashboard/engine.ts:44-70 | without rounding, a goal with nothing saved and no income is never stable, and not critical exactly when the balance is at least 1.95 times the goal |
| `StabilityPace.BackedIsStableExactly` | api/src/dashboard/engine.ts:34-70 | without rounding, a goal whose rest the balance covers twice and whose pace the income covers is stable exactly when 19/80 are saved, and never critical |
| `StabilityPace.NoGoalScores` | api/src/dashboard/engine.ts:34-63 | a goal of nothing scores 40, however the arithmetic is rounded |
| `StabilityPace.DashboardReads` | api/src/dashboard/dashboard.service.ts:30-60 | the inputs of the engine: balance and savings are inflows less outflows, of all transactions and of those of the goal, exactly as long as neither sum exceeds 2^53; an income of zero is none |
| `Csv.ParseCsvRecords` | api/src/transactions/transaction-import.csv.ts:3-69 | the loop computes the reading function, errors included |
| `Csv.PrintThenParse` | api/src/transactions/transaction-import.adapters.ts:31-36 | printing and reading back any list of non-empty records is the identity up to dropping blank records |
| `Csv.ParsedRecordsAreFilled` | api/src/transactions/transaction-import.csv.ts:61-68 | every record read has a field that is not blank |
| `Csv.CanonicalFormIsStable` | api/src/transactions/transaction-import.adapters.ts:74-75 | canonicalising and re-reading an accepted file changes nothing |
| `CsvDialect.AcceptsExactly` | api/src/transactions/transaction-import.csv.ts:3-69 | a text is malformed exactly when a character outside of quotes is misplaced, unclosed exactly when none is but the quotes are odd in number, and accepted otherwise |
| `CsvDialect.EveryStyleIsRead` | api/src/transactions/transaction-import.csv.ts:3-69 | records written with any choice of quoting, white space after closing quotes and line ends are read back, less the blank ones |
| `ImportCells.ParseDateInverts` | api/src/transactions/transaction-import.parser.ts:20-28 | exactly the ISO text of a real day is accepted as that day |
| `ImportCells.TranslatedDate` | api/src/transactions/transaction-import.adapters.ts:46-66 | a translated date cell reads as a day exactly when the cell spells that day, as ISO or day/month/year or day-month-year |
| `ImportCells.AmountRoundTrip` | api/src/transactions/transaction-import.parser.ts:37-48 | every amount up to the largest safe integer is read back from its naira text, grouped or not, with or without a currency |
| `ImportCells.NoteIsNormal` | api/src/transactions/transaction-import.parser.ts:92-94 | a note keeps the text of the description, loses white space at its ends, and has single blanks between words |
| `CellMeaning.DirectionExactly` | api/src/transactions/transaction-import.parser.ts:30-35 | a type cell means an inflow exactly when it is income, in or credit, and an outflow exactly when it is expense, out or debit, in letters of any size and with white space around it |
| `CellMeaning.DayExactly` | api/src/transactions/transaction-import.parser.ts:20-28 | a date cell means a day exactly when it is the ISO text of that day, white space around it apart |
| `CellMeaning.AmountExactly` | api/src/transactions/transaction-import.parser.ts:37-48 | an amount cell means an amount exactly when that is positive and safe and the cell spells it |
| `CellMeaning.FilledExactly` | api/src/transactions/transaction-import.adapters.ts:67-68 | a debit or credit cell counts as filled unless it is blank or only a currency |
| `TransactionImport.DebitCreditToCanonicalCsv` | api/src/transactions/transaction-import.adapters.ts:94-134 | the loop prints the header and the translation of every record |
| `TransactionImport.ToCanonicalImportCsv` | api/src/transactions/transaction-import.adapters.ts:142-159 | which layout is used, and which files are refused |
| `TransactionImport.CanonicalFormReadsBack` | api/src/transactions/transaction-import.adapters.ts:142-159 | the canonical form reads back as the canonical records, less the blank ones |
| `TransactionImport.CanonicalFileIsUnchanged` | api/src/transactions/transaction-import.adapters.ts:70-76 | for a file in the canonical layout that is the file itself |
| `TransactionImport.StatementKeepsMeaning` | api/src/transactions/transaction-import.adapters.ts:94-134 | end to end: a statement row is `in` only if the credit column alone was filled and `out` only if the debit column alone was, with that column's amount and the reordered date; with both or neither filled it is never valid |
| `TransactionImport.DroppedRecords` | api/src/transactions/transaction-import.csv.ts:68 | exactly the records with blank date and description and not exactly one amount vanish in translation |
| `TransactionImport.NumberRows` | api/src/transactions/transaction-import.parser.ts:87-130 | the loop with its map of occurrences numbers every repeat of a valid row |
| `TransactionImport.ParseTransactionImport` | api/src/transactions/transaction-import.parser.ts:50-131 | the parser, errors included |
| `TransactionMeaning.CanonicalFileIsRead` | api/src/transactions/transaction-import.parser.ts:57-85 | a canonical file, its columns in any order, is read exactly when no header is repeated and it has 1 to 500 data rows, and which error it gets otherwise |
| `TransactionMeaning.StatementIsRead` | api/src/transactions/transaction-import.adapters.ts:83-134 | a statement is read exactly when 1 to 500 of its records are kept |
| `TransactionMeaning.OtherFilesAreRefused` | api/src/transactions/transaction-import.adapters.ts:142-159 | unreadable, empty and other files, each with its error |
| `TransactionMeaning.StatementColumnsAre` | api/src/transactions/transaction-import.adapters.ts:6-44 | which columns of a statement are used: by name, the date and description also by the first alias present |
| `TransactionMeaning.RowsAreReported` | api/src/transactions/transaction-import.parser.ts:95-130 | every row is reported under its number, with an error for exactly the fields that are wrong; a description is too long beyond 280 UTF-16 units |
| `TransactionMeaning.CanonicalFileKeepsMeaning` | api/src/transactions/transaction-import.parser.ts:87-94 | row `i` of a readable canonical file has the day its date cell spells in ISO, the note of its description cell, the amount its amount cell spells, and is `in` exactly for income, in or credit and `out` exactly for expense, out or debit |
| `TransactionMeaning.StatementRowMeansCells` | api/src/transactions/transaction-import.adapters.ts:102-132 | a row of a statement is `in` exactly when the credit cell alone is filled and `out` exactly when the debit cell alone is, with the amount that cell spells |
| `ImportLedger.FingerprintDetermines` | api/src/transactions/transaction-import.parser.ts:107-117 | a fingerprint determines canonical text and occurrence, even when notes contain bars |
| `ImportLedger.CanonicalTextDetermines` | api/src/transactions/transaction-import.parser.ts:107-112 | rows share a canonical text exactly when they agree on day, direction, amount and lower-cased note |
| `ImportLedger.FingerprintsDiffer` | api/src/transactions/transaction-import.parser.ts:113-117 | no two rows of a file share a fingerprint |
| `ImportLedger.StoredAsOftenAsInOneFile` | api/src/transactions/transactions.service.ts:103-153 | from CSV texts to the table: after confirming all valid rows of any files, each transaction is stored exactly as often as the file that has it most |
| `ImportLedger.StoredIsMaximum` | api/src/transactions/transactions.service.ts:136-147 | in terms of parsed rows: each canonical text is stored exactly as often as the file that has it most |
| `ImportLedger.StoredIsNumbered` | api/src/transactions/transactions.service.ts:136-147 | nothing else is stored |
| `ImportLedger.OrderDoesNotMatter` | api/src/transactions/transactions.service.ts:136-147 | what is stored depends neither on the order of rows nor on the order or repetition of files |
| `ImportLedger.OrderKeepsTransactions` | api/src/transactions/transactions.service.ts:136-147 | and each slot holds the same transaction and goal link, up to the case of its note |
| `ImportLedger.ReimportAddsNothing` | api/src/transactions/transactions.service.ts:136-147 | importing rows again adds nothing |
| `ImportLedger.AllValidAreConfirmed` | api/src/transactions/transactions.service.ts:108-134 | selecting the numbers of all valid rows refuses nothing and inserts exactly those rows |
| `ImportLedger.SelectedCount` | api/src/transactions/transactions.service.ts:108-115 | a duplicate-free selection whose numbers are all found selects exactly that many rows |
| `ImportLedger.PreviewThenConfirm` | api/src/transactions/transactions.service.ts:70-153 | confirming exactly the ready rows of a preview on an unchanged store imports exactly the ready count |
| `ImportLedger.PreviewCountsAddUp` | api/src/transactions/transactions.service.ts:90-100 | every row of a preview is counted once: ready, duplicate or invalid |
| `ImportOutcomes.PreviewShows` | api/src/transactions/transactions.service.ts:89-100 | a preview shows each row in order under its number, a duplicate exactly when it is stored; the three counts are those of valid new rows, stored rows and invalid rows |
| `ImportOutcomes.RefusedExactly` | api/src/transactions/transactions.service.ts:108-134 | an import is refused for exactly the chosen numbers that name no row or an invalid one |
| `ImportOutcomes.RefusedOrder` | api/src/transactions/transactions.service.ts:124-133 | those that name no row come first, then the invalid ones in the order of the file |
| `ImportOutcomes.ChosenIsStored` | api/src/transactions/transactions.service.ts:136-147 | after a confirmation each chosen row has its slot |
| `ImportOutcomes.OnlyChosenIsAdded` | api/src/transactions/transactions.service.ts:136-147 | a confirmation overwrites nothing, and adds only chosen rows, with their fields and the chosen goal |
| `ImportLedger.TransactionStore.CreateMany` | api/src/transactions/transactions.service.ts:136-147 | the loop inserts what is new and counts it |
| `ImportLedger.TransactionStore.PreviewImport` | api/src/transactions/transactions.service.ts:70-101 | the preview, errors included |
| `ImportLedger.TransactionStore.ConfirmImport` | api/src/transactions/transactions.service.ts:103-153 | refuses missing and invalid rows by number without a change, otherwise imports; imported and duplicate counts add up to the selection |
| `MobileSession.RunKeepsFlight` | mobile/src/lib/api.ts:96-149 | in every run the refresh in flight is the one remembered, and none is of a later epoch than the current one |
| `MobileSession.OneRefreshAtATime` | mobile/src/lib/api.ts:120-149 | never are two refreshes outstanding |
| `MobileSession.LogoutHolds` | mobile/src/lib/auth-state.tsx:74-96 | a logout started while nobody is signing in: what tokens, flags, its own progress and refreshes satisfy at every later await until the next sign-in begins, with other logouts and refreshes running |
| `MobileSession.LogoutClearsForGood` | mobile/src/lib/auth-state.tsx:63-96 | once such a logout has cleared the session, memory, store and view hold no token until the next sign-in begins, whatever refresh was in flight |
| `MobileSession.LogoutClearsExactly` | mobile/src/lib/auth-state.tsx:74-123 | from any reachable state, a logout clears for good, in every continuation in which nobody begins to sign in, exactly when nobody is signing in as it starts |
| `MobileSession.SignInBringsTokensBack` | mobile/src/lib/auth-state.tsx:108-123 | wherever a logout that has not cleared overlaps a sign-in, the sign-in going on alone can put tokens back after the clearing |
| `MobileSession.OvertakenRefreshReturnsNothing` | mobile/src/lib/api.ts:124-149 | a refresh still working when a logout begins never hands out a token |
| `MobileFlows.SignInLeaves` | mobile/src/lib/token-store.ts:99-106 | a sign-in that nothing disturbs leaves access and refresh token each in its place in memory and store, the access token shown, and refreshing allowed |
| `MobileFlows.FailedSignInLeaves` | mobile/src/lib/auth-state.tsx:108-121 | one whose first step fails leaves everything as it was |
| `MobileFlows.RefreshPosts` | mobile/src/lib/api.ts:125-132 | a refresh that nothing disturbs posts the refresh token in memory, or else the stored one, and returns nothing without one |
| `MobileFlows.RefreshLeaves` | mobile/src/lib/api.ts:132-141 | one that the server answers leaves the two tokens of the answer in their places and returns its access token |
| `MobileFlows.RefusedRefreshLeaves` | mobile/src/lib/api.ts:142-146 | one that the server refuses leaves the tokens and returns nothing |
| `MobileFlows.LogoutLeaves` | mobile/src/lib/auth-state.tsx:63-96 | a logout that nothing disturbs clears memory and view at once and leaves no token |
| `MobileFlows.TokensStayInPlace` | mobile/src/lib/token-store.ts:82-115 | in every run, access tokens are only in the access places and the view, refresh tokens only in the refresh places; only refresh tokens are posted and only access tokens returned |
| `MobileFlows.OvertakenSessionIsErased` | mobile/src/lib/auth-state.tsx:143-149 | a refresh that is storing its session when a logout begins has erased it from memory and store by the time it settles, until the next sign-in |
| `MobileSession.AuthClient.RotateAccessToken` | mobile/src/lib/api.ts:120-127 | starts one refresh unless none is allowed or one is in flight |
| `MobileSession.AuthClient.RunRefreshNext` | mobile/src/lib/api.ts:124-149 | the refresh with its bookkeeping: when it settles, nothing is in flight any more |
| `MobileSession.AuthClient.RefreshNext` | mobile/src/lib/api.ts:125-142 | the refresh from one await to the next, with its checks |
| `MobileSession.AuthClient.PersistNext` | mobile/src/lib/auth-state.tsx:143-151 | the callback that stores a session, and erases it again when a logout came between |
| `MobileSession.AuthClient.SaveNext` | mobile/src/lib/token-store.ts:99-106 | the two writes of a session, one after the other |
| `MobileSession.AuthClient.StartLogout` | mobile/src/lib/auth-state.tsx:74-79 | a logout up to its first await |
| `MobileSession.AuthClient.RunLogoutNext` | mobile/src/lib/auth-state.tsx:79-94 | a logout from one await to the next |
| `MobileSession.AuthClient.RunLoginNext` | mobile/src/lib/auth-state.tsx:108-121 | a sign-in from one await to the next: nothing is shown before both writes |
| `Money.TruncationIsExact` | mobile/src/lib/transactions.ts:88-89 | for every safe amount, truncating the double nearest to k/100 gives the whole naira |
| `Money.NairaRoundTrip` | mobile/src/lib/transactions.ts:88-105 | every amount from one kobo to the largest safe integer survives being shown and read; zero is refused where required and kept where optional |
| `Money.DateInputIsRead` | mobile/src/lib/transactions.ts:68-80 | a date field is accepted exactly for the text of a real day, and keeps it |
| `Money.UnchangedFormKeepsGoal` | mobile/src/lib/goal-form.ts:44-94 | opening a goal in the form and saving it keeps target, due day and income, null and zero apart, and a trimmed name |
| `Money.UnchangedFormIsSaved` | mobile/src/lib/goal-form.ts:30-64 | the form saves it exactly when the name is not blank, the target positive, and the due day real |
| `FormMeaning.AmountFieldExactly` | mobile/src/lib/transactions.ts:96-105 | a required amount is accepted exactly when the field, commas and white space around it apart, spells it and it is positive and safe |
| `FormMeaning.IncomeFieldExactly` | mobile/src/lib/goal-form.ts:19-28 | an optional one is blank exactly for nothing but white space or nothing but commas, and an amount exactly when the field spells a safe one |
| `FormMeaning.DateFieldIsNoon` | mobile/src/lib/transactions.ts:68-80 | a date field of a day from 1970 on becomes the instant of noon of that day, UTC |
| `FormMeaning.FormSavesExactly` | mobile/src/lib/goal-form.ts:44-94 | which goal the form saves for any four fields, or that it saves none |
| `FormMeaning.FirstBadFieldIsReported` | mobile/src/lib/goal-form.ts:30-42 | which error it reports: that of the first field that is not good |

## Left out

- OtpVerificationProofs.OneSessionPerKey: speaks of sessions after one whose code was queued for delivery; `KeyYieldsAgainExactly` gives the exact condition.
- OtpVerificationProofs.RepliesAgree: for codes that are still stored; `RepliesDisagreeExactly` says from which of these states two replies can come to differ.
- Alerts.RiskAlertsAreSpaced: spacing is from a saved alert; `SecondRiskWithinADay` covers the others.
- ImportLedger.OrderDoesNotMatter: speaks of which rows are stored; the spelling of a note comes from the first import of a row, its transaction does not (`OrderKeepsTransactions`).
- RefreshFamilyTheorems.SignInEffect: compares the families that were ended with those kept; the new family itself may be older than an ended one, because its creation time is taken before the transaction.
- OtpVerificationStore.OtpTable.CountMiss: attempts are counted serially; the increment is a plain read and write, and concurrent misses may count once.
- StabilityEngine.StableNeedsSavings: the bound holds for every rounding and so is a little below the 19/80 of `StableNeedsExactly`.
- Money.NairaRoundTrip: amounts are not negative, as the API's schema demands.
- `adoptLegacyOtpRequest` and the discovery of legacy jobs by phone: compatibility with rows whose origin is not visible.
- The cool-down and hourly limits of `RequestOtp` are one free choice in the undisturbed method; the concurrent model has the cool-down.
- Overlapping evaluations of one user and goal: the scheduler does not overlap them, and evaluations in a run are complete steps.
- Job payloads stored in clear text, which `decryptPayload` still accepts.
- Several consumer processes with expired leases: one process and its `isProcessing` guard are assumed.
- Account deletion, its guard of in-memory ids and the cascade: jobs may disappear at any time, and delivery may be refused, nothing more.
- StabilityPace.DaysExactly: for due dates less than 2^53 milliseconds ahead, which every date that JavaScript can hold is from 1970 on.
- StabilityPace.PaceIsClose: for an exact pace of up to 2^50 kobo a month; without rounding `PaceExactly` has no bound.
- The token a logout posts to the server, and the answer of the server to it.
- The 401 retry of a single request and its `_steadRetry` flag: a refresh, and a logout, may start at any time, which covers it.
- The bootstrap effect of the auth provider, failing secure storage and its fallbacks.
- `toLowerCase` beyond ASCII for headers and direction words; none of the words looked for has a non-ASCII upper-case form. Lower-casing of notes is an arbitrary function throughout.
- Time zones: local year, month, day, weekday and hour are given, for years 1970 to 9999.
- Redaction of logs, metrics, message bodies, preferences, other services and screens: formatting and plumbing.
- `calculateNetKobo`: the same fold as the dashboard's balance, which is modelled.
