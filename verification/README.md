# Verified model of the notification, identity and upload services

This project models the protocols of the backend's three Go services as Dafny state machines,
proves what every run of them keeps, and proves that the code, written as Dafny methods in the
shape of the Go functions, makes only steps of those machines.

| File | What it models |
|---|---|
| `Keyset.dfy` | keyset paging over any strict total order |
| `UserStream.dfy` | the identity service's user stream over a changing table |
| `Campaign.dfy` | the campaign dispatch protocol: publishes, checkpoints, crashes and restarts |
| `CampaignWorker.dfy` | the dispatcher's code: re-batching callback, retries, checkpoints |
| `Upload.dfy` | one multipart session under concurrent requests and the janitor |
| `UploadInit.dfy` | part size and part count, through float64 division |
| `UploadService.dfy` | the code of the session requests and of the janitor |
| `Outbox.dfy` | the transactional outbox and its workers |
| `EmailQueue.dfy` | email queue, retry queue, dead-letter queue and table, replay |
| `Delivery.dfy` | both together with the notifications table and the delivery webhook |
| `DeliveryWorkers.dfy` | the code of the outbox worker, email worker, dead-letter worker and replay |
| `CircuitBreaker.dfy` | the breaker as a function of its call history |
| `Scheduler.dfy`, `SchedulerService.dfy` | the daily scheduler: safety, liveness, and its loop |
| `History.dfy` | notification history paging |
| `RateLimit.dfy` | the fixed-window rate limiter |
| `PreferenceCache.dfy` | the preference cache against its table |

## How to read it

A protocol is a datatype of actions, `Enabled`/`Allowed` and `Apply`, and a function `Execute` that
runs a history of actions. A repository, broker or storage call is one action. Its failure, a lost
write and a crash are actions or flags of actions, so a theorem about all histories covers all of
them. In the classes the answers of the outside world are a parameter `env` or a `var x: bool := *`,
and `Interfere` is the place where other processes act between two calls: it performs any number of
actions of others, and its contract, which is all the caller knows, says what they cannot touch. A
process that is `alone` has no others beside it; what its operation then does is determined by the
store and by which of its own calls succeed. In `CampaignWorker.dfy` the constants `dbWorks` and
`restWorks` say that the database, or everything else, answers without an error.

## Where the code is not what it promises

Each of these comes with the condition, checkable before the call or the step, under which the code
does what one would expect.

- **The outbox does not guarantee delivery.** The comment at
  `services/notification/internal/service/notification_service.go:155-157` promises delivery even
  after a crash. No code ever takes back an event that is `processing`: an event whose worker
  crashes before publishing it, or whose retry or failure could not be recorded, stays there.
  `Outbox.CanStillBePublished` gives the exact condition, `Outbox.CrashStrands` the failing family.
- **Overlapping replays of one dead-letter row duplicate its message**, without any crash or failed
  write: the status is read before the publish and marked after it. `EmailQueue.StepCount` says
  exactly which steps duplicate, `EmailQueue.OverlappingReplaysDuplicate` gives the history, and
  `EmailQueue.OrderlyIsExact` shows that nothing is duplicated if no delivery or archiving goes
  unacknowledged, no replay is broken off and no two replays of one row overlap.
- **The part count misses the end of some files from 2^53 bytes on.** The size is rounded to float64;
  the parts cover the file if and only if it was not rounded down to a whole number of parts:
  `UploadInit.PartCountIsExact`, and `UploadInit.OddByteIsLost` for the first such size.
- **A confirmed part can be pending again.** A request for its URL that has read the row before saves
  it as it was. `Upload.MarkCanBeLost` shows that this is the only way, `Upload.MarkIsKept` that
  without such a request the part stays uploaded, and `Upload.ConfirmationUndone` gives a behaviour.
- **A send time need not be in the documented HH:MM form**: `Scheduler.LooseFormAccepted`;
  `Scheduler.DocumentedForm` says which accepted send times are.
- **A breaker call without an error need not have run its operation**: `CircuitBreaker.IdleCallHappens`,
  and `CircuitBreaker.NoErrorWithoutRun` for when it has not. The email worker takes such a call for
  a sent mail, and the model follows it; `Delivery.HandledWasMailed` says what this costs.
- **A rate window is cut to whole seconds.** One shorter than a second limits nothing:
  `RateLimit.ShortWindowLimitsNothing`. From one second on no Redis window exceeds the limit
  (`RateLimit.WindowBound`), but the configured window does unless it is whole seconds or nothing is
  allowed (`RateLimit.ConfiguredWindow`), and twice the limit bounds any interval of its length if
  and only if it is whole seconds or the limit is at most one (`RateLimit.TwiceTheLimit`).
- **A paused campaign is not resumed by itself.** The log line at
  `services/notification/internal/worker/campaign_worker.go:198-201` leaves it to the next dispatcher, but a
  campaign can still be claimed if and only if it is pending: `Campaign.CanStillBeClaimed`.
- **Saving a preference does not bring back a soft-deleted row**, so the look-up goes on answering
  true: `PreferenceCache.SavedIsFound`.
- **The retry delay that is announced is never the one that is kept.** Every retry waits the queue's 60
  seconds, which is announced for a count of 0 alone (`EmailQueue.DelayKept`); the handler counts
  first, so that it announces 5 minutes or more (`EmailQueue.DelayNeverKept`).

## Model

| member | source | states |
|---|---|---|
| Keyset.BeyondIsSuffix | services/notification/internal/repository/notification_repository.go:165-170 | continuing behind a key of the sorted list leaves exactly the keys that follow it, for any strict order |
| Keyset.PageHasNoGaps | services/identity/internal/repository/user_repository.go:69-80 | a page holds every key beyond the cursor up to its own last key, and all of them if it is not full |
| UserStream.ListUsersIsPage | services/identity/internal/repository/user_repository.go:69-80 | the query returns rows of matching users beyond the cursor in id order and leaves one out only when the page is full and ends before it |
| UserStream.ListedCount | services/identity/internal/repository/user_repository.go:82-90 | CountUsers is the length of the unlimited listing |
| UserStream.SendPage | services/identity/internal/grpc/user_service_server.go:56-65 | the sends go out in order, every one before the stop succeeds, and it stops exactly at the first that fails |
| UserStream.StreamUsers | services/identity/internal/grpc/user_service_server.go:27-76 | on tables that change between reads: ids strictly increase, every record was a matching row, nobody who matched throughout and was passed is left out, and after success every page but the last was full; it ends in an error only if the caller went away, a read failed or a send failed, so with working calls it succeeds |
| UserStream.SentIsARow | services/identity/internal/repository/user_repository.go:69-80 | every record sent shows the id, address, name and role of a user that a page read found, not deleted and of the role asked for |
| UserStream.FixedTableStream | services/identity/internal/grpc/user_service_server.go:42-72 | on a fixed table what was sent is a prefix of the whole listing, and all of it when the call succeeds |
| UserStream.FixedTableCount | services/identity/internal/grpc/user_service_server.go:78-84 | on a fixed table a successful stream from the start has CountUsers records |
| UserStream.ExactlyOnce | services/identity/internal/grpc/user_service_server.go:41-72 | a user who matched in every table read and lies beyond the start cursor is sent exactly once by a successful stream |
| Campaign.ExecuteCovered | services/notification/internal/worker/campaign_worker.go:134-213 | in every state any history reaches, the stored cursor stands behind published users only, and every message in the log is for a recipient |
| Campaign.Coverage | services/notification/internal/worker/campaign_worker.go:134-213 | over any sequence of runs and crashes, every user at or below the stored cursor has been published, and every user once the campaign is completed |
| Campaign.PublishedIsFor | services/notification/internal/worker/campaign_worker.go:242-258 | after any history every message is addressed to one of the recipients and carries the campaign's id, event type, channel, subject and content |
| Campaign.CountConservation | services/notification/internal/repository/campaign_repository.go:121-132 | dispatched_count never exceeds the number of users at or below the stored cursor, and equals it when no checkpoint write was lost |
| Campaign.RepeatBound | services/notification/internal/worker/campaign_worker.go:162-178 | when no checkpoint was lost, a crash at any point leaves at most one batch of users published beyond the stored cursor |
| Campaign.QuietRunPublishesInOrder | services/notification/internal/worker/campaign_worker.go:143-213 | one run that meets no full queue has published a prefix of the recipients in id order, each once, and all of them when completed |
| Campaign.ClaimedOnce | services/notification/internal/repository/campaign_repository.go:80-109 | over any history a campaign is claimed at most once |
| Campaign.CanStillBeClaimed | services/notification/internal/repository/campaign_repository.go:83-91 | a campaign can still be claimed if and only if it is pending, so one left dispatching never is again |
| CampaignWorker.BackoffBound | services/notification/internal/worker/campaign_worker.go:218-234 | up to five attempts wait at most 75 seconds |
| CampaignWorker.ClaimReady | services/notification/internal/repository/campaign_repository.go:80-109 | claims the earliest scheduled campaign that is pending, due, not deleted and not locked, if there is one, and changes only its status |
| CampaignWorker.AttemptsBound | services/notification/internal/worker/campaign_worker.go:217-240 | attempts publish no more messages than as many whole batches |
| CampaignWorker.World.ClaimPendingCampaign | services/notification/internal/repository/campaign_repository.go:80-109 | as one campaign's own row sees it: only a pending campaign is claimed, and nothing but its status changes |
| CampaignWorker.World.SetTotalRecipients | services/notification/internal/repository/campaign_repository.go:111-119 | the total is stored and nothing else changes; after an error it may be left as it was |
| CampaignWorker.World.CheckpointDispatch | services/notification/internal/repository/campaign_repository.go:121-132 | cursor and count move together or not at all; after an error either may be the case |
| CampaignWorker.World.MarkCampaignStatus | services/notification/internal/repository/campaign_repository.go:134-142 | completed only when every recipient is published; the call is recorded, and the row has the new status unless the write was lost, which takes a failing database |
| CampaignWorker.World.NowCovered | services/notification/internal/worker/campaign_worker.go:98-213 | the calls the code has made are a history the protocol allows, so the theorems about histories hold of the code |
| CampaignWorker.CampaignWorker.TryPublishBatch | services/notification/internal/worker/campaign_worker.go:242-258 | publishes the batch in order up to the first error; a message the full queue refused is not published, after any other error it may be |
| CampaignWorker.CampaignWorker.PublishBatch | services/notification/internal/worker/campaign_worker.go:217-240 | what it publishes is a prefix of the batch for each of at most five failed attempts, a proper one when the queue was full (all five when the retries are exhausted), then on success (after at most four of them) the whole batch in order; in every outcome at most five times the batch; it waits at most 75 seconds |
| CampaignWorker.CampaignWorker.Flush | services/notification/internal/worker/campaign_worker.go:162-195 | a batch that ends where the protocol says is published and checkpointed, and a run without faults stays on its track |
| CampaignWorker.CampaignWorker.OnUser | services/notification/internal/worker/campaign_worker.go:150-180 | the reused buffer always holds the users received since the last flush, and the cursor its last one |
| CampaignWorker.CampaignWorker.Receive | services/notification/internal/grpc/identity_client.go:64-75 | the callback has been called for a prefix of the records, in order; it ends with the first error of stream or callback and is all of them without one |
| CampaignWorker.CampaignWorker.StreamUsers | services/notification/internal/grpc/identity_client.go:54-76 | without an error the callback has had every recipient beyond the cursor |
| CampaignWorker.CampaignWorker.StartRun | services/notification/internal/worker/campaign_worker.go:119-145 | a run starts from the stored cursor with the first recipient the cursor has not passed |
| CampaignWorker.CampaignWorker.DispatchCampaign | services/notification/internal/worker/campaign_worker.go:98-213 | success means that all recipients are published and the last call was to mark the row completed; after a cancellation the status is left; after any other error the last call was to mark the row failed, and it is unless that write was lost; with working calls the run succeeds; a run without faults publishes exactly the recipients beyond the stored cursor, once and in order, and leaves cursor, count, total and status accordingly |
| CampaignWorker.ServerStream | services/identity/internal/grpc/user_service_server.go:27-76 | the service's stream sends a prefix of the recipients beyond the cursor, and all of them unless one of its calls fails |
| Upload.TrimUnquotes | services/upload/internal/service/upload_session_service.go:267-270 | a trimmed ETag is empty or neither begins nor ends with a quote |
| Upload.TrimCuts | services/upload/internal/service/upload_session_service.go:267-270 | trimming takes away quotes at both ends and nothing else |
| Upload.StepExclusive | services/upload/internal/service/upload_session_service.go:323-371 | every step of every request, blind saves included, keeps completers exclusive and completions at most one |
| Upload.StepRows | services/upload/internal/repository/upload_session_repository.go:67-83 | every step, stale saves included, keeps part numbers, ETags of uploaded parts, and the part lists of all storage calls sound |
| Upload.CompletesAtMostOnce | services/upload/internal/service/upload_session_service.go:323-371 | under every interleaving at most one completer is between its transition and its exit, CompleteMultipartUpload succeeds at most once, and a completed row was completed by it |
| Upload.TerminalIsForever | services/upload/internal/repository/upload_session_repository.go:108-120 | once completed, aborted or expired, a session is never active or completing again |
| Upload.CompletionLists | services/upload/internal/service/upload_session_service.go:313-340 | every CompleteMultipartUpload call lists exactly the parts 1..TotalParts ascending, each with an unquoted ETag |
| Upload.MarkCanBeLost | services/upload/internal/repository/upload_session_repository.go:81-83 | a request can take away the mark of an uploaded part in its next step if and only if it is a part-URL request that read the row before |
| Upload.MarkIsKept | services/upload/internal/service/upload_session_service.go:200-226 | without such requests in between an uploaded part stays uploaded |
| Upload.ConfirmationUndone | services/upload/internal/service/upload_session_service.go:222-226 | a behaviour in which a confirmed part is pending again |
| UploadInit.PartSize | services/upload/internal/service/upload_session_service.go:68-75 | the part size is at least 5 MiB and whole MiB within 64 bits, whatever the 64-bit product wraps to |
| UploadInit.CeilOfQuotient | services/upload/internal/service/upload_session_service.go:77 | the rounded quotient of a float64 value and whole MiB still has the exact ceiling |
| UploadInit.PartCountIsExact | services/upload/internal/service/upload_session_service.go:77 | for every 64-bit size the part count is the least number of parts that cover the file if and only if the size was not rounded down to a whole number of parts; otherwise the parts hold exactly the rounded size |
| UploadInit.SmallSizesAreExact | services/upload/internal/service/upload_session_service.go:77 | up to 2^53 bytes no size is rounded, so there the part count is always the least cover |
| UploadInit.OddByteIsLost | services/upload/internal/service/upload_session_service.go:77 | at 2^53 + 1 bytes with parts of 1 TiB the last byte is in no part |
| UploadInit.InitChunkedUpload | services/upload/internal/service/upload_session_service.go:60-152 | for every 64-bit size: which error a request gets, check by check, and accepted exactly when every check passes; then 1..10000 parts, the least cover exactly when the size was not rounded away, numbered from 1 and pending, in a state the session protocol starts from; storage forgets the upload exactly when only the rows could not be created |
| UploadService.PendingParts | services/upload/internal/service/upload_session_service.go:313-318 | exactly the numbers of the parts not uploaded |
| UploadService.BuildCompletedParts | services/upload/internal/service/upload_session_service.go:332-338 | number and ETag of every part, in order |
| UploadService.GetUploadedParts | services/upload/internal/repository/upload_session_repository.go:85-94 | the number of the rows marked uploaded, which is all of them exactly when none is pending |
| UploadService.Store.TransitionSessionStatus | services/upload/internal/repository/upload_session_repository.go:111-120 | true means that the status was the expected one and now is the new one; false means that it is as it was, or, after a database error, the new one |
| UploadService.Store.CompleteSession | services/upload/internal/service/upload_session_service.go:295-371 | makes only steps of the protocol; accepted means that the upload has been completed, exactly once; alone, it makes one storage call with exactly the parts of an in-progress session whose parts are uploaded, and leaves any other session as it is; a storage error puts the session back in progress so that it can be tried again; later failures leave it completing, and otherwise it is completed |
| UploadService.Store.GetPartURL | services/upload/internal/service/upload_session_service.go:184-241 | makes only steps of the protocol; accepted means that a URL was signed for one of the session's parts and, if that save worked, was in the part's row when it was made; alone, it is accepted exactly for a part not uploaded of an active session when its calls succeed, saves that URL in that row alone and moves the session to in progress, and changes nothing otherwise |
| UploadService.Store.ConfirmPart | services/upload/internal/service/upload_session_service.go:243-293 | accepted means that the part was uploaded with the unquoted, non-empty ETag when the request had saved it, and the count returned is that of the rows it read afterwards; alone, it confirms exactly an open part with an ETag, whose row alone changes, and answers by which of its calls succeed |
| UploadService.Store.AbortSession | services/upload/internal/service/upload_session_service.go:373-396 | accepted means that the session is aborted, even if it was completed meanwhile; alone it changes the status and nothing else |
| UploadService.Store.ExpireSession | services/upload/internal/worker/janitor_worker.go:97-114 | only an overdue session read as active is marked expired, by a save that may be stale; alone every such session is, and any other stays as it is |
| Outbox.StepInv | services/notification/internal/worker/outbox_worker.go:61-139 | every repository or broker call of every worker keeps the relation between status, holder and publishes of each event |
| Outbox.StepMonotone | services/notification/internal/repository/outbox_repository.go:74-104 | published and failed are final, and publishes are never undone |
| Outbox.ClaimsAreExclusive | services/notification/internal/repository/outbox_repository.go:42-72 | in every reachable state no two workers hold the same event |
| Outbox.PublishedAtMostOnce | services/notification/internal/worker/outbox_worker.go:75-139 | over all runs: at most one successful and at most max(1, limit) failed publishes, published_at set exactly when published, retry_count at most max(1, limit) - 1, and given up only after max(1, limit) failed publishes |
| Outbox.CanStillBePublished | services/notification/internal/repository/outbox_repository.go:45-51 | an event can still be published if and only if it is pending or a running worker has it before its last publish |
| Outbox.CrashStrands | services/notification/internal/worker/outbox_worker.go:70-72 | an event whose worker crashes before publishing it is never published |
| EmailQueue.HandleRange | services/notification/internal/worker/email_worker.go:147-171 | a retry carries a count within the limit and comes with an acknowledgement; a task is rejected only with its retries spent |
| EmailQueue.DelayKept | services/notification/internal/worker/email_worker.go:291-301 | the announced delay is the queue's 60 seconds exactly for a count of 0 |
| EmailQueue.DelayNeverKept | services/notification/internal/worker/email_worker.go:95-109 | in every history the delay announced for a retry is at least 5 minutes, and so never the queue's 60 seconds |
| EmailQueue.DeliverCount | services/notification/internal/worker/email_worker.go:111-182 | a delivery moves its message to exactly one place, except that a retry published without the acknowledgement duplicates it |
| EmailQueue.ArchiveCount | services/notification/internal/worker/dlq_worker.go:62-91 | archiving moves the message from the dead-letter queue to a pending row, or duplicates it without the acknowledgement |
| EmailQueue.ReplayCount | services/notification/internal/service/dlq_service.go:69-110 | no step of a replay loses a message, and exactly a publish of a row replayed meanwhile, and the end of a replay between publish and mark, duplicate one |
| EmailQueue.StepCount | services/notification/internal/worker/email_worker.go:111-182 | every step keeps the number of messages but for what enters, plus one exactly for the steps that duplicate |
| EmailQueue.MessagesAreConserved | services/notification/internal/worker/email_worker.go:111-182 | queues, pending rows and finished messages together are as many as entered, plus one for every step of the history that duplicated a message |
| EmailQueue.OrderlyIsExact | services/notification/internal/service/dlq_service.go:69-110 | exactly as many as entered, if everything is acknowledged, no replay is broken off and no two replays of one row overlap |
| EmailQueue.OverlappingReplaysDuplicate | services/notification/internal/service/dlq_service.go:75-105 | two overlapping replays of one row, without any fault, leave two messages where one entered |
| EmailQueue.RetriesAreBounded | services/notification/internal/worker/email_worker.go:152-170 | retry counts stay within 0..MaxRetries, and tasks are dead-lettered only at MaxRetries |
| Delivery.NewPresent | services/notification/internal/worker/outbox_worker.go:93 | nothing but the publish of its event brings up a message, a mail or an update for a notification |
| Delivery.StaysInTransit | pkg/broker/rabbitmq.go:401-415 | a message stays in a queue or in the dead-letter table until it is delivered |
| Delivery.StepInv | services/notification/internal/worker/outbox_worker.go:102-117 | every step of outbox, queues, replay, webhook and late status updates keeps the agreement of the tables |
| Delivery.FailureIsFinal | services/notification/internal/worker/outbox_worker.go:102-117 | once an event has failed, its notification is failed in every later state, and no message, mail or update for it exists |
| Delivery.OneEventEach | services/notification/internal/service/notification_service.go:155-207 | events and the notifications created with an event correspond one to one (campaign audits insert notifications without one) |
| Delivery.NothingIsLost | services/notification/internal/worker/email_worker.go:111-182 | a published notification has a message in a queue, a dead-letter row, or a delivery acknowledged for good, whatever crashes |
| Delivery.PathConserves | services/notification/internal/worker/outbox_worker.go:93-132 | over the whole path the messages are as many as the events published and the foreign messages, plus one for every step that duplicated one |
| Delivery.HandledWasMailed | services/notification/internal/worker/email_worker.go:174-181 | a handled notification was mailed, or one of its deliveries met the breaker's idle call |
| DeliveryWorkers.OthersKeep | services/notification/internal/repository/outbox_repository.go:42-72 | no action of another process changes an event a worker has claimed, or a replay that has begun |
| DeliveryWorkers.Workers.CreateWithOutbox | services/notification/internal/service/notification_service.go:158-207 | notification and event are created together or not at all |
| DeliveryWorkers.Workers.ClaimPendingBatch | services/notification/internal/repository/outbox_repository.go:42-72 | distinct events that were pending and not locked, as many as there are up to `limit` if the transaction is made and answered, all of them if they are fewer; the caller holds exactly those, they are processing, and no other event changes |
| DeliveryWorkers.Workers.ProcessBatch | services/notification/internal/worker/outbox_worker.go:61-73 | every event claimed was pending and not locked, none is left out while the batch has room, each is tried once more and let go; alone, each is left published, failed or pending as its publish went, and no other event changes |
| DeliveryWorkers.Workers.PublishEvent | services/notification/internal/worker/outbox_worker.go:75-139 | exactly one more publish of the event, recorded as published, retried or failed by the limit, or not recorded if that write fails; a failed event leaves a failed notification; alone, exactly one message with a count of 0 is put into the queue when the publish succeeds, and no other event changes |
| DeliveryWorkers.Workers.MarkPublished | services/notification/internal/repository/outbox_repository.go:74-83 | status and publication time are set together, and nothing else in any table changes |
| DeliveryWorkers.Workers.IncrementRetry | services/notification/internal/repository/outbox_repository.go:85-94 | the event is pending again with one more retry, and nothing else changes |
| DeliveryWorkers.Workers.MarkFailed | services/notification/internal/worker/outbox_worker.go:103-113 | event and notification fail in one transaction or neither does, and nothing else changes |
| DeliveryWorkers.Workers.SendEmail | services/notification/internal/worker/email_worker.go:303-335 | an empty recipient fails without a call to the breaker; otherwise the answer is what the breaker's call came to |
| DeliveryWorkers.Workers.HandleMessage | services/notification/internal/worker/email_worker.go:111-182 | the send result is what the breaker's one call for this mail came to; a sent mail is acknowledged and its notification delivering, an open breaker requeues, a failed send below the limit is acknowledged once its retry is published and requeued otherwise, at the limit it is rejected and the notification failed, and a malformed message is rejected |
| DeliveryWorkers.Workers.HandleDelivery | pkg/broker/rabbitmq.go:395-415 | queue by queue: an acknowledged delivery of a sent mail takes one copy out of the main queue for good, an open breaker changes no queue, a failed send below the limit moves the copy to the retry queue with one more retry, at the limit or when malformed to the dead-letter queue; the notification becomes delivering, failed or stays; an acknowledged delivery neither loses nor duplicates the message |
| DeliveryWorkers.Workers.SaveToDLQ | services/notification/internal/worker/dlq_worker.go:62-91 | the message leaves the dead-letter queue only for a row in the table; without failures it moves there |
| DeliveryWorkers.Workers.ReplayDLQMessage | services/notification/internal/service/dlq_service.go:69-110 | success means that this request read the pending row, then published its message with a retry count of 0 and marked the row; alone, it succeeds for every pending row with a task when its calls do, and changes only that row, the queue and the notification |
| DeliveryWorkers.Workers.HandleMailpitWebhook | services/notification/internal/service/notification_service.go:217-245 | only a mail that was sent is found, success means that its notification is marked sent, and nothing else changes |
| CircuitBreaker.CircuitBreaker.Execute | services/notification/internal/worker/circuit_breaker.go:40-75 | every call comes to what the history of calls says; closed means fewer trailing failures than max(1, maxFailures) and failureCount is that number, otherwise failureCount is the threshold |
| CircuitBreaker.EveryCall | services/notification/internal/worker/circuit_breaker.go:40-75 | a call runs if and only if fewer than max(1, maxFailures) runs have failed since the last success or the call before was idle; otherwise it is refused exactly within openDuration after the last failure |
| CircuitBreaker.RefusedUntilIdle | services/notification/internal/worker/circuit_breaker.go:45-50 | after a failure that opened the breaker all calls are refused up to one idle call, and a run follows that call and nothing else |
| CircuitBreaker.NextRun | services/notification/internal/worker/circuit_breaker.go:45-57 | the next run starts more than openDuration after the failure and right after exactly one call that ran nothing |
| CircuitBreaker.NoErrorWithoutRun | services/notification/internal/worker/circuit_breaker.go:40-75 | a call without an error has not run its operation exactly when enough runs in a row had failed, more than openDuration before, and no idle call came since |
| CircuitBreaker.IdleCallHappens | services/notification/internal/worker/circuit_breaker.go:45-50 | for every threshold and duration there is a history with a call that ran nothing and returned no error |
| Scheduler.HourMinuteRoundTrip | services/notification/internal/service/scheduler_service.go:217-228 | every time of day in the form HH:MM is accepted and read back as its hour and minute |
| Scheduler.DocumentedForm | services/notification/internal/service/scheduler_service.go:217-228 | an accepted send time is a time of day in the form HH:MM if and only if it is two digits, a colon and two digits |
| Scheduler.LooseFormAccepted | services/notification/internal/service/scheduler_service.go:217-228 | the check accepts a send time that is not in that form |
| Scheduler.SendsAreApart | services/notification/internal/service/scheduler_service.go:178-215 | over any runs and edits, whatever follows a recorded send is more than 20 hours later and on a later local day |
| Scheduler.SendsWhileEnabled | services/notification/internal/repository/schedule_repository.go:66-72 | over any runs and edits, every send was made by a run of its own that found the schedule enabled and not sent in the 20 hours before |
| Scheduler.SendsAreNotEarly | services/notification/internal/service/scheduler_service.go:196-201 | no send, recorded or not, precedes the send time of its local day |
| Scheduler.EveryDayOnce | services/notification/internal/service/scheduler_service.go:40-122 | with a run in every 60-second window and all writes succeeding, an enabled and validated schedule is sent exactly once every local day, within a minute of the later of its send time and the end of the 20 hours |
| Scheduler.ServedBy | services/notification/internal/repository/schedule_repository.go:66-72 | a run late enough in the day finds the day served or serves it: the 20-hour filter starves no day |
| SchedulerService.SchedulerService.FindDueCandidates | services/notification/internal/repository/schedule_repository.go:66-72 | exactly the enabled schedules not sent for 20 hours, each once |
| SchedulerService.SchedulerService.FetchTemplates | services/notification/internal/service/scheduler_service.go:49-66 | the repository is asked for the template of every event type among the candidates exactly once, and for no other |
| SchedulerService.SchedulerService.ProcessSchedule | services/notification/internal/service/scheduler_service.go:68-119 | one candidate goes through one run of the protocol, with the answers its calls got, and no other schedule changes |
| SchedulerService.SchedulerService.ProcessDueSchedules | services/notification/internal/service/scheduler_service.go:40-122 | every schedule goes through one run of the protocol with the answers its calls got: it is sent once, with its time recorded by the second write, exactly if it is enabled, not sent for 20 hours nor on this local day, its time has come, its template is found and the calls before succeed; any other schedule is left as it was |
| History.ListNotifications | services/notification/internal/service/notification_service.go:273-352 | an error exactly for malformed fields or a failing query, otherwise the page behind the cursor for the limit clamped to 20 by default and 100 at most: only rows of the request's user that pass its filters and are older than its cursor, shown as they are, newest first, and none left out but older ones that the next page's cursor leads to |
| History.List | services/notification/internal/repository/notification_repository.go:146-172 | the first rows, up to the limit, of the selected rows behind the cursor in descending order |
| History.NextPage | services/notification/internal/repository/notification_repository.go:165-170 | behind a row's cursor come the rows that follow it, whatever newer rows have been inserted |
| History.PageNumber | services/notification/internal/service/notification_service.go:320-345 | page k is cut from the first table's list at row k times the limit |
| History.WalkIsTheHistory | services/notification/internal/service/notification_service.go:273-352 | following NextCursor gives the whole filtered history in order, each row exactly once, in max(1, ceil(n / limit)) pages, although newer rows arrive between the pages |
| History.WalkGoesOn | services/notification/internal/service/notification_service.go:341-351 | a page that says there are more carries a cursor, and pages are left, so the walk ends |
| RateLimit.RateLimiter.RunScript | pkg/ratelimit/ratelimit.go:11-18 | the counter goes on with its window or starts the next one, with an expiry set once per window |
| RateLimit.RateLimiter.Allow | pkg/ratelimit/ratelimit.go:44-68 | the configured duration is cut to whole seconds; allowed exactly for the first `limit` requests of the Redis window; Remaining is what is left, ResetIn the rest of that window to half a second |
| RateLimit.WindowBound | pkg/ratelimit/ratelimit.go:11-18 | no window that Redis counts allows more than the limit |
| RateLimit.ConfiguredWindow | pkg/ratelimit/ratelimit.go:45-47 | counted from the first request of a window on, the configured length holds at most the limit if and only if it is whole seconds or nothing is allowed |
| RateLimit.RefusedMeansFull | pkg/ratelimit/ratelimit.go:63-64 | a refusal means that exactly the limit was allowed in the current window |
| RateLimit.RateBound | pkg/ratelimit/ratelimit.go:44-68 | any half-open interval of the configured length, of at least a second, holds at most 2 limit - 1 allowed requests if that is whole seconds and at most 3 limit - 1 otherwise |
| RateLimit.BoundIsReached | pkg/ratelimit/ratelimit.go:44-68 | for every such window and positive limit some log and interval reach that number |
| RateLimit.TwiceTheLimit | pkg/ratelimit/ratelimit.go:44-68 | twice the limit bounds every interval of the configured length if and only if that is whole seconds or the limit is at most one |
| RateLimit.ShortWindowLimitsNothing | pkg/ratelimit/ratelimit.go:45-47 | with a window below a second every request is allowed, for a positive limit |
| PreferenceCache.ScanIsLookup | services/notification/internal/service/preference_service.go:97-105 | scanning the cached list answers like the query on the table it was made from |
| PreferenceCache.SavedIsFound | services/notification/internal/repository/preference_repository.go:47-55 | after a request the last item for a key decides the look-up, unless the row is soft-deleted |
| PreferenceCache.OtherUsersKept | services/notification/internal/repository/preference_repository.go:47-55 | saving leaves the rows of other users |
| PreferenceCache.EntryAnswers | services/notification/internal/service/preference_service.go:16-19 | an entry served before it expires answers like the table at some moment of the last 300 seconds |
| PreferenceCache.PreferenceService.GetPreferences | services/notification/internal/service/preference_service.go:40-55 | the rows of a table of the last 300 seconds, and of the current one if no delete failed and no request stopped midway; a hit changes nothing, a miss queries the table and caches what it found for 300 seconds, and an error needs a failing query |
| PreferenceCache.PreferenceService.GetByUserID | services/notification/internal/repository/preference_repository.go:25-31 | exactly the user's rows that are not soft-deleted |
| PreferenceCache.PreferenceService.IsNotificationEnabled | services/notification/internal/service/preference_service.go:92-108 | other event types are always enabled; an answer is the plain look-up on the table at some moment of the last 300 seconds, and on the current table if nothing was cached, or no delete failed and no request stopped midway; no row that is not soft-deleted means enabled |
| PreferenceCache.PreferenceService.UpsertPreferences | services/notification/internal/service/preference_service.go:57-90 | succeeds if and only if all items are promotions and every save succeeds; then all are saved and the cache stays true to the table if the delete succeeds; otherwise the items before the first failing one, and perhaps that one; a request with another event type saves nothing |

## Left out

- Network, broker, SMTP, S3, Redis and HTTP calls are results that may be anything their contracts allow; clocks are parameters.
- The notification service's template rendering, recipient checks and opt-out branch: a notification is created or not; a scheduled send to a user who opted out counts as sent, as the scheduler records it.
- CampaignWorker.World.ClaimPendingCampaign: the choice among several campaigns, which CampaignWorker.ClaimReady states.
- The JSON filter of a campaign is the role it holds; one dispatcher runs per campaign.
- Notifications inserted without an event, such as the audits of campaign mails.
- Campaign `sent_count` and `failed_count`, and the handler of campaign messages.
- Campaign.QuietRunPublishesInOrder: one run only, because a resumed run repeats up to a batch, which Campaign.RepeatBound states.
- UserStream.FixedTableStream: fixed table, because on a changing one StreamUsers itself states what is sent.
- CampaignWorker.CampaignWorker.DispatchCampaign: fixed user table, as the coverage it states is about the users of one table.
- Upload: presign expiry, the video row's contents and the published event are results without effect on the session; object-relational saving of associations is not modelled.
- UploadService.Store.GetPartURL: the time at which the URL expires.
- UploadService.Store.ExpireSession: one overdue session; the query for the batch and its limit, because the sessions of a batch do not affect each other.
- DeliveryWorkers.Workers.ClaimPendingBatch: the order by creation time, because events have no time here.
- DeliveryWorkers.Workers.HandleDelivery: handler and acknowledgement are one action; a status update may also come later or never.
- The time a message spends in the retry queue: it may leave it at any moment.
- Webhook dead letters: their replay publishes to another routing key, so email conservation does not extend to them.
- Rows of `notifications` are compared by status alone; error texts and times of updates are not modelled.
- Scheduler: zones are fixed offsets, without daylight saving; schedules are edited between runs, not within one.
- Scheduler.EveryDayOnce: times are whole microseconds, the resolution of the database.
- History: a cursor is the pair it encodes; its JSON and base64url text (section 5 of RFC 4648) is assumed to round-trip, and the time formats of `from` and `to` are parsed or malformed.
- RateLimit: the script's integer overflow, and windows configured finer than a millisecond.
- PreferenceCache: overlapping calls, and how the object-relational mapper writes a false value into a column with a default; the statement's own assignment is modelled.
- User creation, seeding, dead-letter and video listings, the simple upload flow, authentication, metrics and tracing.
