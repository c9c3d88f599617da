# Models of the lab platform's database protocols

This project models the protocols by which the backend's processes share one PostgreSQL database
and one Redis store, and proves what they keep over every run. Isolation is READ COMMITTED: a
statement reads the latest commits, pending writes belong to their transaction, rows and advisory
locks are held until it ends. Runs are lists of steps of a total step function, so a theorem about
`Exec(s, steps)` is about every interleaving. Where the source changes state step by step there is
also a class whose methods follow the code statement by statement; its contracts tie the tables
after a call to the functions of the model, and in the three concurrent protocols and the blocklist a ghost log
records that every execution of the code is one of the runs that the theorems are about.

| files | what they model |
|---|---|
| `Lifecycle`, `LifecycleSafety`, `TerraformRuns`, `LifecycleProgress`, `LabWorkers` | deployments moved by any number of provisioning and cleanup workers, with crashes, rollbacks and the operations feed in the same transactions |
| `OpsFeed` | the keyed upsert of the feed |
| `CourseDeploy` | concurrent course deployments: advisory lock, guardrail checks, insert, members; beside the workers |
| `Subnets` | the subnet allocator: locked counter, unique violation, rollback, second read |
| `Payments`, `PaymentRaces`, `VerifyRaces`, `CaptureRaces`, `LinkRaces`, `PackageOrders`, `Billing` | Razorpay webhooks and verify-capture requests over payments, purchases, entitlements, workshops and the dedupe table |
| `Seats`, `SeatRaces`, `Invites`, `WorkshopDesk` | the trigger behind `used_seats`, seat grants, and workshop invites that reserve seats |
| `InviteRaces`, `InviteAddressees`, `InviteSessions` | invite requests whose reads, guarded updates and commits interleave |
| `Blocklist` | JWT revocation with expiring keys against a permanent revocation set |
| `Pages`, `PageStudio` | page revisions and their rollback |
| `Runs`, `Finite`, `Wrappers` | runs of a step function, finite sets and sums, `Option` and `Result` |

`dafny verify dfyconfig.toml` checks everything.

## Where the code departs from what is said about it

- The repository's README (lines 427-430) draws edges from `failed` back to `queued` and from
  `cleanup_failed` back to `terminating`. The code has neither: the cleanup worker says so itself
  (`backend/workers/lab_cleanup_worker.py:168-170`). The model follows the code
  (`LifecycleSafety.PathsAreFew`, `LifecycleSafety.FinalIsForever`).
- A lab whose `running` write is lost is recorded as `failed` and never torn down
  (`TerraformRuns.LostRunningWrite`, `TerraformRuns.FailedLabIsNeverDestroyed`), and in no other way is a
  failed lab one that was built (`TerraformRuns.FailedWasBuiltIff`). A cleanup whose
  `expired` statement raises writes `cleanup_failed` in the same aborted session and so leaves the row
  in `terminating` for ever (`LifecycleProgress.AbortedCleanupIsStranded`).
- `SKIP LOCKED` passes over more than rows that are being claimed. `FOR UPDATE` conflicts with the
  FOR KEY SHARE lock by which a foreign key check holds the row it refers to: while a participant is
  added to a deployment (`backend/routers/labs.py:713-721`), or the feed row of a new run is written
  (`backend/routers/course.py:946-963`), even a single worker takes a younger row first
  (`LifecycleProgress.SkippedRowsAreLocked`, `LifecycleProgress.ReferencedRowIsPassedOver`).
- `deploy_course_lab` promises that there are no empty runs. It counts the roster and reads it
  again later: the run is empty exactly when the second read is
  (`CourseDeploy.RunIsEmptyIff`, `CourseDeploy.EmptyRunHappens`).
- verify-capture answers `fulfilled` also when fulfilment returned early; an order that failed once
  stays unfulfilled even if a second attempt on it is captured (`Payments.FulfilledIsTrueIff`,
  `PaymentRaces.CaptureAfterFailureIsLost`). The same answer is given when the insert of its synthetic
  event fails as a statement: the exception is swallowed, the COMMIT of the aborted transaction is a
  rollback without an error, and nothing is stored (`Payments.FulfilledButRolledBack`). Between
  interleaved requests the payment can also fail after the request has been accepted
  (`VerifyRaces.AnswerCanBeFalse`); `VerifyRaces.AnswerIsTrueIff` says when the answer is true.
- A package payload that keeps `content_id` but drops both `workshop_id` and `kind` is not completed
  from its order and is taken for a retail payment (`Payments.WorkshopIsRestoredIff`), with a purchase
  that nobody paid for (`PaymentRaces.PartialPayloadKeepsLedgerIff`).
- The workshop check of a package capture takes no lock. Request by request a workshop has one link
  (`PackageOrders.AtMostOneLink`); between interleaved requests the link can be taken over
  (`LinkRaces.LinkCanBeStolen`), at exactly one kind of commit (`LinkRaces.LinkMovesIff`), and not while
  package transactions for different payments of a workshop are kept apart
  (`LinkRaces.ExclusiveRunKeepsLink`).
- `grant-seat` ignores pending invites and can take a seat that one of them reserves
  (`Invites.ReservationCanBeLost`); `Invites.GrantKeepsReservedIff` says when it does not.
- resend_invite does not look at the row count of its UPDATE and can report success for a token that opens
  nothing (`InviteRaces.ResendInVain`, `InviteRaces.ResendIsAliveIff`).
- The trigger's COUNT keeps the snapshot of its statement while it waits for the workshop row, so two
  overlapping grants can leave `used_seats` one short (`SeatRaces.SeatIsLost`,
  `SeatRaces.ExactAfterCommitIff`).
- A caller of the subnet allocator that loses the race for the last octet is told that the pool is exhausted,
  although its user has a subnet (`Subnets.LastOctetRace`, `Subnets.ToldExhaustedDespiteSubnetIff`).
- The lifetime of a blocklist key is the remaining life of the token rounded down, so a revoked token is
  accepted again in a last fraction of a second (`Blocklist.AgreesExceptInGap`, `Blocklist.GapHappens`).
- The revision written when a page is published holds the page from before: rolling back to it takes
  the page out of publication (`Pages.RollbackUndoesEverything`). A page that had been published or
  archived before cannot be rolled back at all: the rollback binds the captured timestamps as text
  (`backend/routers/admin.py:1394-1395`), and the driver refuses that
  (`Pages.SecondPublicationCannotBeUndone`).

## Assumptions

- An exception from a commit means that nothing was committed.
- Signatures are correct, SHA-256 is injective, and new UUIDs, tokens and order ids are fresh.
- The gateway keeps the notes and the amount of an order as they were created. In the runs of
  `PaymentRaces`, a payload names a known order, or none, and reaches fulfilment with the content and the
  workshop of that order (`PaymentRaces.Honest`); what it drops otherwise does not matter, and what
  happens to the one kind of payload that loses its workshop is stated above.
- A `payment.captured` delivery is taken at its word, as by the code, which does not look at the status of its entity.
- The driver, asyncpg, refuses a text for a TIMESTAMPTZ parameter.
- Redis answers, a key set for n seconds is there for exactly n seconds, and there is one clock.
- The seat checks, which take no lock, hold request by request: in `Seats`, `Invites` and `WorkshopDesk` each
  request or statement is one atomic step, and so it is in `PackageOrders` and `Pages`. What the guarded
  updates and unique indexes of the invites give, they give over every interleaving (`InviteRaces`).
- Each API transaction refers to at most one committed deployment, as those of the code do.
- Course guardrails: deployments come from the course path only and the guardrail rows are fixed.

## Model

| member | source | states |
|---|---|---|
| `LifecycleSafety.OwnedAlways` | backend/workers/lab_worker.py:143-203 | ownership invariant, over every interleaving of enqueues, any number of provisioning and cleanup workers, rollbacks and crashes: a row that a worker has claimed is in the status its claim left it in, and no two workers hold the same row |
| `LifecycleSafety.UnguardedWritesAreSafe` | backend/workers/lab_cleanup_worker.py:119-158 | a worker about to write an outcome with `UPDATE ... WHERE id` finds the row in exactly its own claimed status, held by nobody else; its statement is enabled at once, whatever other workers do and whichever API transactions refer to the row |
| `LifecycleSafety.StepEffect` | backend/workers/lab_worker.py:28-55 | every commit moves one row along one edge of the lifecycle graph and adds exactly that feed key; every other step leaves rows and feed alone, except for a new queued row |
| `LifecycleSafety.HistoryIsPath` | backend/workers/lab_worker.py:208-285 | the statuses that a row has had during any run form a path of the lifecycle graph, from `queued` to its present status |
| `LifecycleSafety.PathsAreFew` | backend/workers/lab_cleanup_worker.py:163-221 | there are exactly seven such histories, none of which re-queues a failed row or claims a `cleanup_failed` one again |
| `LifecycleSafety.FinalIsForever` | backend/workers/lab_cleanup_worker.py:168-170 | a failed, expired or cleanup_failed row never changes again |
| `LifecycleSafety.FeedIsTrace` | backend/services/ops_feed.py:126-221 | the feed keys of a row are exactly the statuses it has passed through after `queued`, in every committed state |
| `LifecycleSafety.FeedKeyIsNew` | backend/services/ops_feed.py:41-111 | a worker never commits a feed key that is already there |
| `LifecycleSafety.RolledBackClaim` | backend/workers/lab_worker.py:44-55 | a claim that is rolled back, at whatever point of its transaction, leaves the whole state as it was |
| `LifecycleSafety.Isolation` | backend/workers/lab_worker.py:249-285 | while a worker holds a row, nothing the others do changes that row, moves that worker or removes a feed key |
| `LifecycleSafety.ClaimedIsUnreferenced` | backend/routers/labs.py:713-721 | over every run, no open API transaction refers to a row that a claim has locked |
| `TerraformRuns.ApplyOnceThenDestroyOnce` | backend/workers/lab_worker.py:249-285 | per deployment apply and destroy are each launched at most once, and destroy only after apply was launched and succeeded, after `running` was committed and after the row had expired |
| `TerraformRuns.CloudAlways` | backend/workers/lab_cleanup_worker.py:208-221 | the invariant behind it, over every run: each launched job agrees with the status of its row and with the phase of its worker, and none is launched twice |
| `TerraformRuns.FailedWasBuiltIff` | backend/workers/lab_worker.py:278-285 | over every run, a deployment recorded as failed had its apply succeed if and only if an exception had reached its worker between the end of the apply and the commit of `running` |
| `TerraformRuns.FailedLabIsNeverDestroyed` | backend/workers/lab_cleanup_worker.py:26-40 | a deployment recorded as failed is never torn down by anybody, whatever Terraform had built |
| `TerraformRuns.LostRunningWrite` | backend/workers/lab_worker.py:278-285 | such a deployment exists: apply succeeds, the commit of `running` raises, and the row ends as `failed` |
| `LifecycleProgress.TransitionsAreBounded` | backend/workers/lab_worker.py:208-292 | n deployments allow at most 4n committed status changes, less the rank that is left, whatever fails and however often |
| `LifecycleProgress.AttendedAlways` | backend/workers/lab_worker.py:249-285 | when no worker crashes on a claimed row and every outcome write commits, each claimed row is held by a worker of the right kind that can still write to it |
| `LifecycleProgress.QuiescentIsFinished` | backend/workers/lab_cleanup_worker.py:163-228 | when no worker crashes and every outcome write commits, a state past all expiries in which no transaction is open and no worker finds anything to claim holds only failed, expired and cleanup_failed rows |
| `LifecycleProgress.CanFinish` | backend/workers/lab_cleanup_worker.py:163-228 | no dead end: from every state that a faultless run reaches, some faultless continuation, in which the open API transactions end, brings every row to a final status |
| `LifecycleProgress.StrandedIsForever` | backend/workers/lab_worker.py:28-41 | a row whose owner is gone keeps its claimed status for ever, because no statement claims it again |
| `LifecycleProgress.AbortedCleanupIsStranded` | backend/workers/lab_cleanup_worker.py:216-221 | when the `expired` write raises, the row is stranded if and only if the session is unusable afterwards, so that `cleanup_failed` cannot be written in it; a failed UPDATE and a failed feed upsert are both such |
| `LifecycleProgress.ClaimsTheFirst` | backend/workers/lab_cleanup_worker.py:26-40 | first come, first served, in every state: a cleanup worker can claim exactly the row with the earliest `expires_at` among the expired, running and unlocked ones, and a provisioning worker exactly the one with the earliest `created_at` among the queued and unlocked ones |
| `LifecycleProgress.SkippedRowsAreLocked` | backend/workers/lab_worker.py:28-41 | a claim passes over an older row only if another claim of the same kind has it or an open API transaction refers to it, and over no more rows than there are such claims, fewer than W, and such transactions |
| `LifecycleProgress.ReferencedRowIsPassedOver` | backend/routers/labs.py:713-721 | with a single worker and no rival the younger of two rows is claimed while a participant is being added to the older |
| `LabWorkers.LabDatabase.ClaimStatement` | backend/workers/lab_worker.py:28-41 | locks the queued row that was created first, or for a cleanup worker the expired running row that expired first, among those that nothing has locked; none only if all such rows are locked |
| `LabWorkers.LabDatabase.ClaimJob` | backend/workers/lab_worker.py:44-55 | claims that row, oldest `created_at` or earliest `expires_at` first, with status and feed key committed together although others run in between; nothing is claimed only if every candidate was locked or the commit failed |
| `LabWorkers.LabDatabase.MarkOutcome` | backend/workers/lab_worker.py:143-203 | the unguarded write, with others running before its commit: on success the row is as its owner knew it but for the status, with its feed key; after an exception the row is unchanged |
| `LabWorkers.LabDatabase.RunJob` | backend/workers/lab_worker.py:251-271 | the external job, with others running meanwhile: the claimed row is unchanged and the outcome follows the exit of Terraform |
| `LabWorkers.LabDatabase.ProvisioningTurn` | backend/workers/lab_worker.py:220-285 | one turn of the loop: the row ends as running, or failed after a second write in a fresh session, or stays in provisioning if that write is lost too |
| `LabWorkers.LabDatabase.CleanupTurn` | backend/workers/lab_cleanup_worker.py:179-221 | one turn of the loop: the row ends as expired, or cleanup_failed if the session survived, or stays in terminating |
| `OpsFeed.OperationsFeed.EmitOpsEvent` | backend/services/ops_feed.py:41-111 | only an empty or blank key is refused; otherwise exactly one row per key, with title, message, deployment and coerced severity of the event emitted last and the present update time; a new row is unread, created now and of the type of the event; an existing one keeps its type, creation time and read state; other rows are untouched |
| `OpsFeed.CoerceSeverity` | backend/services/ops_feed.py:33-38 | info, warning and critical are kept, in whatever case and however padded, and everything else becomes info |
| `OpsFeed.EmitTwiceIsEmitOnce` | backend/services/ops_feed.py:41-111 | emitting an event again later changes no more than the update time of its row |
| `OpsFeed.EmitsCommute` | backend/services/ops_feed.py:26-30 | events whose keys differ after stripping can be written in either order |
| `OpsFeed.LabKeysAreDistinct` | backend/services/ops_feed.py:199-202 | `lab-deploy:{id}:{transition}` determines id and transition, and is its own normal form |
| `Subnets.AllocationsAreDistinct` | backend/services/subnet_service.py:26-69 | over every interleaving from the seeded counter: distinct subnets, one per user, octets in 2..254, and the counter always one above the number of rows, whatever was rolled back |
| `Subnets.RacersAgree` | backend/services/subnet_service.py:71-91 | all successful callers for one user are given the same subnet, the one in the table; the failure that the code calls a bug is never seen |
| `Subnets.ToldExhaustedDespiteSubnetIff` | backend/services/subnet_service.py:26-47 | a caller that had read no row is told that the pool is exhausted although its user has a subnet if and only if the pool is full and the user was given one since it looked |
| `Subnets.LastOctetRace` | backend/services/subnet_service.py:26-47 | a run from the seeded tables in which two callers for one user race for the last octet and the second is told so |
| `Subnets.AllocationsStay` | backend/services/subnet_service.py:13-24 | an allocation never changes |
| `Subnets.NoOctetIsLost` | backend/services/subnet_service.py:51-69 | the octets in use are exactly the first unreserved ones up to the counter: no rollback loses one |
| `Subnets.ExhaustedMeansFull` | backend/services/subnet_service.py:46-47 | the pool is reported exhausted only when all 253 octets are held |
| `Subnets.SkipReserved` | backend/services/subnet_service.py:40-44 | the loop finds the first octet that is not reserved |
| `Subnets.SubnetDatabase.ReadCounter` | backend/services/subnet_service.py:28-49 | under the lock: the octet after the counter, or the failure that applies, and nothing written yet |
| `Subnets.SubnetDatabase.StoreSubnet` | backend/services/subnet_service.py:51-91 | counter and row are committed together; a conflict is answered with the committed row; it fails only if its commit fails |
| `Subnets.SubnetDatabase.GetOrAllocateSubnet` | backend/services/subnet_service.py:11-91 | interrupted at every await: a returned subnet is the one stored for this user, an existing one is returned unchanged, a failure means a full pool or a failed commit, and the call is still waiting exactly while somebody else holds the counter |
| `CourseDeploy.GuardrailsHold` | backend/routers/course.py:833-881 | over every interleaving of deploy transactions, roster changes and worker steps, per owner and lab: at most one queued or provisioning row, and no more queued, provisioning and running rows than max_concurrent_deployments of its guardrail row, or 10 without one |
| `CourseDeploy.ChecksHoldAtCommit` | backend/routers/course.py:835-946 | the two checks are still true at the commit, however much later it comes |
| `CourseDeploy.WorkersOnlyShrink` | backend/routers/course.py:842-871 | no worker step adds a row to either of the sets that the checks look at |
| `CourseDeploy.RunIsEmptyIff` | backend/routers/course.py:882-944 | a run has no members exactly when the roster is empty at its second read; the earlier count does not decide it |
| `CourseDeploy.EmptyRunHappens` | backend/routers/course.py:882-944 | so an empty run can be queued: a complete run from an empty database in which the only learner leaves between the two reads |
| `CourseDeploy.CountedLearnerIsMember` | backend/routers/course.py:882-944 | a learner who was counted and is not taken off the roster before the second read is a member of the run, whatever else happens in between |
| `CourseDeploy.CourseDatabase.BeginRequest` | backend/routers/course.py:813-831 | an expiry in the past and one beyond the guardrail are refused, and nothing else is at this point |
| `CourseDeploy.CourseDatabase.TakeLock` | backend/routers/course.py:833-840 | the request has the lock exactly when no rival for the same owner and lab holds it, and otherwise waits |
| `CourseDeploy.CourseDatabase.CheckGuardrails` | backend/routers/course.py:842-896 | a request passes the three checks or is refused for a reason that still holds |
| `CourseDeploy.CourseDatabase.AttachMembers` | backend/routers/course.py:930-944 | the loop attaches every participant and nobody else |
| `CourseDeploy.CourseDatabase.InsertRun` | backend/routers/course.py:898-946 | after the commit the new row is the only pending one of its owner and lab, within the guardrail, and its members are the learners enrolled at the insert; without it nothing was queued |
| `CourseDeploy.CourseDatabase.DeployCourseLab` | backend/routers/course.py:770-946 | the whole request, interrupted at every await: success leaves the new row as the only pending one, within max_concurrent_deployments (or 10), with the learners of the second roster read as members; it is refused as too long if and only if it ends later than max_duration_hours (or 4) from now; a refusal states a reason that holds of the columns; and it is still waiting only while another request for the same owner and lab is between its lock and its end |
| `PaymentRaces.SettledOnce` | backend/services/razorpay_billing.py:579-595 | however a payment is delivered, retried and verified, exactly as many transactions have committed an outcome for it as it has left `pending`, so at most one |
| `PaymentRaces.CommitSettles` | backend/services/razorpay_billing.py:579-650 | that one transaction commits the status change together with all of its effects, and with nothing else |
| `PaymentRaces.SettledIsForever` | backend/services/razorpay_billing.py:332-351 | captured and failed are final |
| `PaymentRaces.LedgerAlways` | backend/services/razorpay_billing.py:626-650 | in every reachable state, with prices and workshops edited at any time, a captured retail payment has the purchase of its user and content, tied to a captured payment of that user, and an active entitlement; and no purchase or entitlement exists that a captured retail payment did not pay for |
| `PaymentRaces.RedeliveryChangesNothing` | backend/routers/billing.py:391-398 | a delivery of a committed event id, at any later point of any run, has nothing to commit |
| `PaymentRaces.RolledBackDeliveryIsRetried` | backend/routers/billing.py:399-402 | a delivery that is rolled back leaves the database as it was, and the retry is taken up as if it were the first |
| `PaymentRaces.SoloWebhook` | backend/routers/billing.py:391-398 | a delivery that nobody interrupts commits what the sequential `Webhook` says |
| `PaymentRaces.SoloVerify` | backend/routers/billing.py:349-358 | a verify-capture request that nobody interrupts commits what the sequential `Verify` says |
| `LinkRaces.LinkMovesIff` | backend/services/razorpay_billing.py:442-457 | in any reachable state of interleaved requests, a link that is set changes at the commit of a package capture for that workshop whose payment is not the linked one, and at no other step |
| `LinkRaces.ExclusiveRunKeepsLink` | backend/services/razorpay_billing.py:543-603 | over any run of interleaved requests in which no two package transactions for different payments of a workshop are past the check at once, its link never changes once set |
| `LinkRaces.LinkCanBeStolen` | backend/services/razorpay_billing.py:543-603 | a run from a database without orders in which a workshop is linked to one captured payment and then to another |
| `PaymentRaces.CaptureAfterFailureIsLost` | backend/services/razorpay_billing.py:767-785 | an order that failed and is then captured stays unfulfilled although verify-capture answers `fulfilled` |
| `Payments.WebhookAndVerifyCommute` | backend/services/razorpay_billing.py:673-785 | webhook first or verify-capture first: the same captured entity leads to the same payments, purchases, entitlements and workshops |
| `Payments.FulfilTwiceIsOnce` | backend/services/razorpay_billing.py:480-650 | fulfilment is idempotent, and merging the notes once or twice makes no difference |
| `Payments.FulfilledIsTrueIff` | backend/services/razorpay_billing.py:673-785 | for a request that nobody interrupts: after the answer fulfilled the payment is captured if and only if it was pending, the entity named the order, the notes were well-formed, the workshop check passed, and the swallowed event insert had not aborted the transaction |
| `VerifyRaces.AnswerIsTrueIff` | backend/services/razorpay_billing.py:767-785 | between interleaved requests: a verify request about to commit its fulfilled leaves the payment captured if and only if it has taken the payment itself or finds it captured |
| `VerifyRaces.AnswerIsTrueUnlessFailed` | backend/services/razorpay_billing.py:579-595 | before that: once all checks have passed the answer will be true if and only if the payment is not marked failed when the UPDATE finds it |
| `VerifyRaces.AnswerCanBeFalse` | backend/services/razorpay_billing.py:673-785 | a run in which a failed-payment delivery commits in between, and fulfilled is committed and answered for a failed payment |
| `Payments.FulfilledButRolledBack` | backend/services/razorpay_billing.py:778-785 | when the event insert fails as a statement, fulfilled is answered, the commit is a silent rollback, and what would have been stored is lost |
| `Payments.RedeliveryIsNoop` | backend/routers/billing.py:391-395 | a recorded event id makes the delivery a no-op, whatever its payload |
| `Payments.WorkshopIsRestoredIff` | backend/services/razorpay_billing.py:24-53 | a payload that drops some notes of its retail or package order reaches fulfilment with the content and workshop of that order if and only if it is not a package payload that keeps the content and drops both workshop and kind |
| `PaymentRaces.PartialPayloadKeepsLedgerIff` | backend/services/razorpay_billing.py:24-53 | such a payload, with the amount of the payment or none, is captured as a retail payment and makes a purchase that nobody paid for unless the user had bought the content before; every other partial payload of a pending package order keeps the ledger sound |
| `PackageOrders.AtMostOneLink` | backend/services/razorpay_billing.py:432-457 | over any run of atomic requests a workshop is linked to at most one payment |
| `PackageOrders.PackageIsOrderedIff` | backend/services/razorpay_billing.py:183-244 | a package is ordered if and only if the workshop is active, has seats and has a listed price; the order is for seat_cap times that price and its notes name the workshop; a refusal names the first thing that is missing |
| `PackageOrders.RetailIsOrderedIff` | backend/services/razorpay_billing.py:87-118 | a retail order is for the active price of its content |
| `PackageOrders.LinkIsForever` | backend/services/razorpay_billing.py:432-457 | a linked workshop is never relinked or unlinked |
| `PackageOrders.FulfilLinks` | backend/services/razorpay_billing.py:372-439 | a new link is to a payment that this request captures, for seat_cap times the active unit price, on an unlinked workshop that is not archived |
| `PackageOrders.UnchangedOrderIsLinked` | backend/services/razorpay_billing.py:209-307 | an order that is captured with cap, price, content, status and absence of another link unchanged is always accepted |
| `PackageOrders.LinkedOnlyIfMatching` | backend/services/razorpay_billing.py:372-439 | a faithful package capture succeeds if and only if workshop, content, cap, price, amount and link match at that moment |
| `Billing.BillingDatabase.MergePaymentNotes` | backend/services/razorpay_billing.py:24-53 | only the notes change; a note that the payment has is never overridden, and when the order is fetched every note that it lacks is the one of the order |
| `Billing.BillingDatabase.PackageCaptureRefusal` | backend/services/razorpay_billing.py:372-439 | a capture is let through if and only if it pays seat_cap times the active price of an active workshop of its content that is linked to no other payment; and then capturing it makes the link |
| `Billing.BillingDatabase.FulfillPaymentCaptured` | backend/services/razorpay_billing.py:480-670 | every early return leaves the tables alone; purchases and entitlements stay exactly what captured retail payments bought, and settled payments stay as they are |
| `Billing.BillingDatabase.MarkPaymentFailed` | backend/services/razorpay_billing.py:328-351 | only a pending payment is marked failed, with the id of the attempt, and nothing else changes; the ledger stays sound |
| `Billing.BillingDatabase.RazorpayWebhook` | backend/routers/billing.py:371-404 | dedupe row and effects commit together or not at all; a captured event fulfils, a failed one marks the payment failed, any other does neither; a duplicate changes nothing; the ledger stays sound |
| `Billing.BillingDatabase.VerifyCapture` | backend/routers/billing.py:330-368 | already_fulfilled, not_captured and fulfilled are each answered under an exact condition on the payment row and on what the gateway says; a payment that the gateway has not captured changes nothing; an exception of fulfilment or commit is an error 500 and rolled back; one of the event insert still answers fulfilled, and stores nothing if its statement had failed; the ledger stays sound |
| `Payments.VerifyAnswerIff` | backend/services/razorpay_billing.py:700-770 | which answer is given when: in particular fulfilled only for an uncaptured order of the caller for which the gateway has captured a payment with the right order, amount and a content |
| `Payments.WebhookDispatches` | backend/services/razorpay_billing.py:310-325 | the kind of the event alone decides between fulfilment, failure and neither; the event id is recorded |
| `Payments.RefusalIsTheFirstDefect` | backend/services/razorpay_billing.py:372-439 | which of the six defects of a package capture is reported: the first in the order of the checks, and none exactly if the payment is for all seats |
| `Payments.FulfilCapturesIff` | backend/services/razorpay_billing.py:480-600 | a payment becomes captured if and only if it is pending, the entity is for its order and amount, the notes agree with it and, for a package, it pays for all seats; a settled payment never changes |
| `Payments.FulfilStores` | backend/services/razorpay_billing.py:575-650 | all that a capture stores: status and gateway id of the payment and, for a package, the link and the paid status of its workshop, or else the active entitlement and the purchase, unless the user had it |
| `Payments.RefusalIsReported` | backend/services/razorpay_billing.py:535-573 | the feed row of a payment holds the reason of its last refused package capture, and nothing else is reported so |
| `CaptureRaces.SettledOnlyAsReported` | backend/services/razorpay_billing.py:310-325 | over every interleaving: a payment is captured only through a payment.captured delivery, or a verify-capture request of its own user whose payment the gateway has captured, for this order and amount; it is failed only through a payment.failed delivery for its order; and the gateway id it stores is that of the report |
| `CaptureRaces.VerifyStartsIff` | backend/services/razorpay_billing.py:700-752 | exactly when an interleaved verify-capture request goes on to fulfilment, has nothing to do, or is rolled back |
| `Seats.CountersAreExact` | alembic/versions/0011_workshop_used_seats_from_entitlements.py:17-70 | after the migration and any sequence of inserts, updates, moves between workshops and deletes, one statement after the other, used_seats of every workshop is its number of active entitlements |
| `SeatRaces.ExactAfterCommitIff` | alembic/versions/0011_workshop_used_seats_from_entitlements.py:43-55 | between overlapping inserts: a commit leaves used_seats exact if and only if nobody has committed since its trigger took its snapshot, and otherwise short by exactly the seats committed in between |
| `SeatRaces.NeverOvercounts` | alembic/versions/0011_workshop_used_seats_from_entitlements.py:43-55 | over every interleaving of inserts used_seats is never above the number of seats |
| `SeatRaces.SeatIsLost` | alembic/versions/0011_workshop_used_seats_from_entitlements.py:43-55 | a run in which two seats are granted and used_seats is one |
| `Seats.RecountedAt` | alembic/versions/0011_workshop_used_seats_from_entitlements.py:43-55 | the loop recounts the workshops it is given and no others |
| `Seats.GrantAddsAtMostOne` | backend/services/workshop_seat_grants.py:93-132 | a grant makes its row active from now on, until the given end or else the end it had, adds a seat exactly if the row was not active, and changes no other row or counter |
| `Seats.EntitlementTable.constructor` | alembic/versions/0011_workshop_used_seats_from_entitlements.py:17-26 | the migration: every counter is exact whatever it held before |
| `Seats.EntitlementTable.RefreshUsedSeats` | alembic/versions/0011_workshop_used_seats_from_entitlements.py:29-60 | the trigger loop, with the recount of each touched workshop |
| `Seats.EntitlementTable.InsertRow` | alembic/versions/0011_workshop_used_seats_from_entitlements.py:39-41 | an insert with its trigger keeps all counters exact; it changes its own row only, and nothing on a violation |
| `Seats.EntitlementTable.UpdateRow` | alembic/versions/0011_workshop_used_seats_from_entitlements.py:37-38 | an update, also one that moves the row to another workshop, keeps all counters exact; it changes its own row only, and nothing on a violation |
| `Seats.EntitlementTable.DeleteRow` | alembic/versions/0011_workshop_used_seats_from_entitlements.py:35-36 | a delete with its trigger keeps all counters exact |
| `Invites.SeatsNeverExceedCap` | backend/services/workshop_seat_grants.py:70-90 | in any run of atomic invite requests, grants and patches that never lower a cap, the active seats of a workshop never exceed its cap |
| `Invites.RedeemFindsASeat` | backend/services/workshop_invites.py:78-90 | in a run whose direct grants, if any, leave the reserved seats alone, redeeming a pending and unexpired invite never fails for lack of a seat |
| `Invites.ReservedAlways` | backend/services/workshop_invites.py:47-90 | in such a run the active seats and pending invites of a workshop together never exceed its cap |
| `Invites.GrantKeepsReservedIff` | backend/routers/workshops.py:601-611 | a successful direct grant keeps the reserved seats if and only if its user had the seat already or active seats and pending invites were below the cap |
| `Invites.GrantRefusalIff` | backend/services/workshop_seat_grants.py:34-90 | with an exact counter: each of the six refusals has its exact condition on the columns of the workshop, and there is none if and only if the workshop is active, paid, waived or a demo, under way, and has a seat left |
| `Invites.GrantNeedsBothCounts` | backend/services/workshop_seat_grants.py:67-90 | whatever the counter says, no seat is granted unless the active entitlements themselves leave one |
| `Invites.GrantOutcome` | backend/routers/workshops.py:566-612 | a direct grant succeeds under exactly these conditions, and then writes the seat of this user for the content of the workshop, active from now to its end, and nothing else |
| `Invites.GrantTakesReservedSeat` | backend/routers/workshops.py:601-611 | a direct grant ignores pending invites: with one seat it takes the one reserved for an invite, which can then no longer be redeemed |
| `Invites.ReservationCanBeLost` | backend/routers/workshops.py:566-612 | a run from the empty database in which that happens |
| `InviteRaces.AcceptedIsSeated` | backend/services/workshop_invites.py:416-443 | over every interleaving an accepted invite and its seat are committed together |
| `InviteAddressees.AcceptedByItsAddressee` | backend/services/workshop_invites.py:393-434 | over every interleaving, an accepted invite was redeemed by a request made under the address of the invite, with its token, for the user who has it |
| `InviteAddressees.WrongAddressIsRefused` | backend/services/workshop_invites.py:393-398 | over every interleaving, a request that presents the token of an invite under another address is refused and never takes any invite, whatever becomes of invite and token before it reads them |
| `InviteAddressees.ReadAdmitsIff` | backend/services/workshop_invites.py:360-398 | a redemption passes its checks if and only if, when the token is read, an invite with it is pending, in its term and for this address |
| `InviteRaces.InsertOutcome` | alembic/versions/0013_workshop_invites.py:41-43 | the insert of an invite waits exactly while another request adds or changes the invite of the address, and otherwise is refused exactly if a pending one is committed |
| `Invites.AcceptedHasSeat` | backend/services/workshop_invites.py:405-443 | with requests as single steps, and grants, revocations of invites and patches beside them: every accepted invite has a matching active workshop entitlement |
| `InviteRaces.TakenOnce` | backend/services/workshop_invites.py:296-311 | over every interleaving of statements, exactly as many commits have taken an invite out of `pending` as it has left it: none while it is pending and one ever after |
| `Invites.LeavesPendingOnce` | backend/services/workshop_invites.py:294-311 | with requests as single steps: an invite that has left `pending` never changes |
| `InviteRaces.DeadIsForever` | backend/services/workshop_invites.py:416-434 | over every interleaving, a token that no pending invite carries and no open request is writing is never redeemed, however early a request had read it |
| `InviteRaces.LateRedemptionIsRefused` | backend/services/workshop_invites.py:416-434 | a redemption that has read its token before a resend, a revocation or another redemption of the same invite commits is refused, whatever happens next |
| `Invites.SpentIsDead` | backend/services/workshop_invites.py:353-386 | with requests as single steps: a token that no pending invite carries is refused by preview and redemption for ever |
| `Invites.RedeemSpends` | backend/services/workshop_invites.py:405-443 | redemption spends the token |
| `Invites.RedeemOutcome` | backend/services/workshop_invites.py:353-443 | exactly when each answer is given to the token of an invite: a live token opens its invite to its own address alone (403 otherwise), and to that if and only if the workshop is open and has a seat left; then the invite is accepted and the seat given |
| `Invites.UnknownToken` | backend/services/workshop_invites.py:359-381 | a token that no invite has is refused: as invalid if it is too short, and as not found otherwise |
| `Invites.CreateOutcome` | backend/services/workshop_invites.py:93-153 | an invite is made if and only if the workshop is open, active seats and pending invites leave room and none is pending for the address; it is pending for that address, for at least a day |
| `Invites.ResendOutcome` | backend/services/workshop_invites.py:215-258 | an invite can be resent if and only if it is pending; its token and term change and nothing else |
| `Invites.RevokeOutcome` | backend/services/workshop_invites.py:294-311 | an invite can be revoked if and only if it is pending; its status changes and nothing else |
| `InviteRaces.RedeemedOnce` | backend/services/workshop_invites.py:416-443 | over every interleaving of statements a token is redeemed at most once |
| `Invites.RedeemedAtMostOnce` | backend/services/workshop_invites.py:353-443 | the same with requests as single steps |
| `InviteRaces.ResendIsAliveIff` | backend/services/workshop_invites.py:244-285 | resend_invite reports success whatever its guarded UPDATE has found: the new token is alive if and only if the invite was still pending at that statement |
| `InviteRaces.ResendInVain` | backend/services/workshop_invites.py:244-285 | a run in which a revocation commits after the read of resend_invite, which then reports success for a token that opens nothing |
| `Invites.ResendSpends` | backend/services/workshop_invites.py:238-258 | with requests as single steps: after a resend the old token is dead and the new one is not |
| `Invites.NewTokenOpensItsInvite` | backend/services/workshop_invites.py:107-134 | a new token opens its own invite and no other, until the end of its term of at least a day |
| `InviteRaces.OnePendingEver` | alembic/versions/0013_workshop_invites.py:41-43 | over every interleaving at most one committed invite per workshop and address is pending |
| `Invites.OnePendingPerAddress` | alembic/versions/0013_workshop_invites.py:41-43 | the same with requests as single steps |
| `Invites.PreviewAgreesWithRedeem` | backend/services/workshop_invites.py:315-386 | preview says valid exactly when redemption passes its token, expiry and status checks, and otherwise both give the same reason |
| `WorkshopDesk.WorkshopDesk.SeatRefusal` | backend/services/workshop_seat_grants.py:34-90 | with an exact counter a grant is let through if and only if the workshop is active, paid, waived or a demo, under way, and its active entitlements leave a seat: the two capacity checks agree; with any counter it is let through only if they leave one |
| `WorkshopDesk.WorkshopDesk.UpsertSeat` | backend/services/workshop_seat_grants.py:93-132 | the upsert with its trigger writes the seat of the user, active from now to the end of the workshop, touches no other row and keeps all counters exact |
| `WorkshopDesk.WorkshopDesk.GrantSeat` | backend/routers/workshops.py:566-612 | refused if and only if the workshop is not open or has no seat left; success leaves the user with the seat, until the end of the workshop, and nothing else changed; caps and counters keep holding; a refusal or an exception changes nothing |
| `WorkshopDesk.WorkshopDesk.CreateInvite` | backend/services/workshop_invites.py:93-186 | an invite is made only where active seats and pending invites, this one included, stay within the cap; a refusal, a unique violation or an exception leaves nothing |
| `WorkshopDesk.WorkshopDesk.ResendInvite` | backend/services/workshop_invites.py:215-285 | as a single step: after success the old token is dead and the new one alive |
| `WorkshopDesk.WorkshopDesk.RevokeInvite` | backend/services/workshop_invites.py:294-311 | after success the token of the invite is dead |
| `WorkshopDesk.WorkshopDesk.RedeemInvite` | backend/services/workshop_invites.py:353-448 | as a single step: success leaves the one live invite with the token, which was for the address of the caller, accepted, its user with the active seat and the token dead; a live token under another address is a 403; anything else changes nothing |
| `InviteSessions.InviteSessions.RedeemInvite` | backend/services/workshop_invites.py:353-450 | interrupted at every await: success leaves the invite, which was for the address of this user, accepted by the user with the seat; a token that is not live when it is read, or is presented under another address, is refused and changes nothing; a request that passes the seat checks and whose commit works is refused only when no invite with its token admits its address; it waits only while another request has the row |
| `InviteSessions.InviteSessions.ResendInvite` | backend/services/workshop_invites.py:215-289 | interrupted at every await: after the answer success the new token is alive if and only if the invite is pending |
| `InviteSessions.InviteSessions.RevokeInvite` | backend/services/workshop_invites.py:294-312 | interrupted at every await: success means revoked, and a refusal means that there was no such pending invite |
| `InviteSessions.InviteSessions.UpdatePending` | backend/services/workshop_invites.py:416-434 | the guarded UPDATE: waits for the row, then looks at its status again |
| `Blocklist.AgreesExceptInGap` | backend/utils/security.py:96-121 | at every time of every run the expiring keys answer like a revocation set that never forgets, except, and exactly, between the end of the key and the end of the token, which lies within the last second of the token |
| `Blocklist.GapIsEmptyIff` | backend/utils/blocklist.py:90-93 | there is no such gap if and only if the token was revoked on a whole second |
| `Blocklist.GapHappens` | backend/utils/blocklist.py:90-100 | a run in which a revoked token is accepted again half a second before its end |
| `Blocklist.LogoutIsFinal` | backend/routers/auth.py:241-257 | after a logout the token is refused for ever but for its last second, whatever else happens |
| `Blocklist.KeysAreBounded` | backend/utils/blocklist.py:90-100 | every live key belongs to a token that has not ended, and there are no more keys than tokens issued within the last lifetime |
| `Blocklist.TokenService.CreateAccessToken` | backend/utils/security.py:38-60 | a new jti and an `exp` within the lifetime, short of it by less than a second |
| `Blocklist.TokenService.RevokeToken` | backend/utils/blocklist.py:77-100 | a key that ends with the token or less than a second earlier; none when less than a second is left |
| `Blocklist.TokenService.RevokeTokenByPayload` | backend/utils/security.py:63-93 | nothing without both claims; otherwise the key and one audit row |
| `Blocklist.TokenService.DecodeToken` | backend/utils/security.py:96-121 | for an issued token the answer is that of a revocation set that never forgets, unless the token was revoked and is in the last second of its life |
| `Blocklist.TokenService.LogOut` | backend/routers/auth.py:241-257 | only a token that is still accepted is revoked, and it counts as revoked from then on |
| `Pages.RollbackUndoesEverything` | backend/routers/admin.py:1347-1436 | after publishing a page and any later edits, publications and rollbacks of any pages, a rollback to that revision succeeds if and only if the page had no timestamps before; then it gives back exactly the page and sections from before the publication, and other pages are untouched |
| `Pages.SecondPublicationCannotBeUndone` | backend/routers/admin.py:1394-1395 | the revision of a second publication can never be rolled back to, unless the page was rolled back in between |
| `Pages.SnapshotIsFaithful` | backend/routers/admin.py:78-141 | a snapshot determines every column of the page and every section, and lists the sections in strictly increasing position |
| `Pages.PageComesBackIff` | backend/routers/admin.py:1374-1397 | written back, a captured page is the page itself if its timestamps are null, and is refused otherwise |
| `Pages.InsertAllRestores` | backend/routers/admin.py:1403-1425 | the insert loop never meets a taken id or position, and puts back exactly the rows captured |
| `Pages.RollbackRestores` | backend/routers/admin.py:1347-1436 | a rollback to an existing revision of the page succeeds if and only if both captured timestamps are null, and then changes nothing but that page and its sections, which become what was captured |
| `Pages.DefaultsAreIdentityIff` | backend/routers/admin.py:1413-1424 | the defaults of the rollback are the identity on a section exactly when its payload is true in Python or the empty object, as every payload accepted by the endpoints is; the other columns always come back |
| `Pages.PositionsStayUnique` | alembic/versions/0006_content_studio_foundation.py:59-60 | no two sections of a page ever share a position |
| `Pages.SlugsStayUnique` | alembic/versions/0006_content_studio_foundation.py:21 | no two pages ever share a slug |
| `PageStudio.PageStudio.CreatePageRevision` | backend/routers/admin.py:78-141 | appends the snapshot of the page, or does nothing for a page that does not exist |
| `PageStudio.PageStudio.PatchWebsitePage` | backend/routers/admin.py:1123-1164 | the given fields are stored and all other columns stay; an empty patch and an unknown page are refused |
| `PageStudio.PageStudio.PatchWebsitePageStatus` | backend/routers/admin.py:1167-1203 | the page has the requested status afterwards and the timestamp of that status only; publishing, and nothing else, writes a revision, with the page as it was before |
| `PageStudio.PageStudio.CreateWebsitePageSection` | backend/routers/admin.py:1206-1245 | a section with the given columns if and only if the page exists and the position is free, and otherwise nothing |
| `PageStudio.PageStudio.PatchWebsitePageSection` | backend/routers/admin.py:1248-1291 | the given fields are stored and all other columns stay; refused exactly for an empty patch, an unknown section or a position that another section of the page has |
| `PageStudio.PageStudio.DeleteWebsitePageSection` | backend/routers/admin.py:1294-1309 | removes that section only |
| `PageStudio.PageStudio.InsertSections` | backend/routers/admin.py:1403-1425 | the loop succeeds exactly if no captured section violates a constraint, and then inserts all of them |
| `PageStudio.PageStudio.RollbackWebsitePageRevision` | backend/routers/admin.py:1347-1436 | page update, delete and inserts take effect together, or not at all; on a sound database a violation means a captured timestamp |

## Left out

- Terraform, shell scripts, AWS, SSM, Headscale, Razorpay HTTP and e-mail: success or failure of each is a parameter of the step or method; outputs, IP addresses, error texts and heartbeats are not kept.
- The endless poll loops: a turn of each worker is a method, and any finite schedule of turns is a run.
- The deploy routes under `/labs` and `request-run`, which take no advisory lock: the guardrail results are about the course path alone, and all other enqueues are the step `Lifecycle.Enqueue`.
- The deletion of courses and workshops, which cascades to finished rows, and manual edits of status, cap, payment or role: no step of any run.
- Advisory-lock hash collisions, which only add waiting: the model locks by owner and content.
- LifecycleProgress.QuiescentIsFinished: says nothing about fairness; that some continuation finishes is `LifecycleProgress.CanFinish`.
- Feed rows other than lab transitions and refused captures, feed metadata, and acknowledgement by administrators.
- OpsFeed.CoerceSeverity: stripping and lower-casing are those of ASCII text.
- The mock-payment branch of verify-capture and gateway configuration errors.
- PaymentRaces.SoloVerify: the workshop check reads workshop and price in one step; in the interleaved model the synthetic event of verify-capture is recorded at the commit, and an insert of it that fails is the step that aborts.
- Payment timestamps, currencies and raw responses; entitlement validity of retail purchases.
- Address normalisation of invites: addresses are compared as the normalised strings that the endpoints pass in; the existence check on the user of a direct grant.
- Invites.LeavesPendingOnce: with requests as single steps; over interleaved statements it is `InviteRaces.TakenOnce`.
- Invites.SpentIsDead: with requests as single steps; over interleaved statements it is `InviteRaces.DeadIsForever`.
- Invites.RedeemedAtMostOnce: with requests as single steps; over interleaved statements it is `InviteRaces.RedeemedOnce`.
- Invites.ResendSpends: with requests as single steps; over interleaved statements it is `InviteRaces.ResendIsAliveIff`.
- Invites.OnePendingPerAddress: with requests as single steps; over interleaved statements it is `InviteRaces.OnePendingEver`.
- WorkshopDesk.WorkshopDesk.ResendInvite: as a single step, in which the guarded UPDATE always finds its row; with others in between it is `InviteSessions.InviteSessions.ResendInvite`.
- WorkshopDesk.WorkshopDesk.RedeemInvite: as a single step, in which the guard cannot fail; with others in between it is `InviteSessions.InviteSessions.RedeemInvite`.
- InviteRaces.RedeemedOnce: the seat checks of interleaved requests are only a reason to refuse, so nothing is said about the cap there.
- SeatRaces.ExactAfterCommitIff: inserts of active entitlements for one workshop only; other statements are in `Seats`, one after the other.
- Turning overdue pending invites into `expired`: no code does it, and they go on counting as pending, as in the model.
- Invites.SeatsNeverExceedCap: patches that lower a cap below its used seats are excluded; the endpoint does not stop them.
- The audit row of a logout may be lost: `log_token_event` swallows its own exceptions, as it says.
- The id default of the rollback is not modelled, since every captured section has an id.
- Redis failure: the code lets a token pass when Redis does not answer on a read.
- FastAPI routing, rate limits, CORS, logging, listing and report endpoints, role assignment, catalogue and course editing: plumbing or few-branch code that would add only easy members.
