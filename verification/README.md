# The health-to-alert pipeline, modelled and proved

A poller reads every device's health, remembers it, and puts messages on a durable queue. An uploader resends the head
of the queue until the cloud takes it. The cloud applies each message in a transaction of its own, opens, refreshes
and resolves alerts, and appends events to an outbox that several workers publish. Beside this pipeline stand the alert
list with its cursors, the syslog parser and aggregator, the device scoring and the replay buffer.

Each component is a class (or, where the source is pure, functions) proved equal, operation by operation, to functions
on its state. Everything about runs is then proved on those functions.

| files | component |
|---|---|
| `Messages`, `Sequences` | the three message kinds; removing consecutive repeats, sorted finite sets |
| `Cloud`, `CloudInvariants`, `Provenance`, `Ingestor` | tables, effects of a message and of auto-fix; invariants over every run; where each field comes from; the ingestor's methods |
| `Interleaving`, `Progress` | ingest transactions statement by statement, many at once: their serialisability; that they get on |
| `Queue`, `QueueInvariants`, `RowHistory`, `PendingOrder` | the durable queue: conservation, caps, eviction; what each row tells; order of the pending rows |
| `Uploader`, `UploadRuns`, `HeadOfLine`, `HeadOfLineExact` | the upload loop; its counters and waits over runs; the bound on head-of-line blocking, and that it is exact |
| `Views`, `Sharing`, `Delivery`, `Draining` | what the cloud shows of a device; a cloud used by others meanwhile; exactly-once effect of at-least-once delivery; the queue can always be drained |
| `Poller`, `PollRuns`, `EndToEnd` | a poll and runs of polls; poller, queue, uploader and cloud together |
| `Outbox` | claim, publish, mark, commit and abort of concurrent outbox workers |
| `Cursor`, `Paging` | base64url cursors; keyset pages over a table that changes |
| `SyslogHealth`, `Aggregator`, `AggregatorRuns` | syslog health score; the aggregator; its runs against a reference that forgets nothing |
| `Regex`, `Syslog`, `SyslogRoundTrip`, `SyslogIetf` | a backtracking matcher; header patterns, printer and parser; exact round trips of the BSD forms and of the IETF form |
| `Mapper`, `MapperScores`, `ReplayBuffer` | device scoring and what it means for the record; the replay buffer |

## Assumptions

- Clock readings never go back in the order steps take effect, and in the aggregator they are positive. Times are
  real numbers.
- Queue rows are ordered by (enqueued_at, id): the SQL orders by enqueued_at alone, one insert gives all its rows the
  same time, and ids grow with insertion. The devices the sweep lists, and the rows an UPDATE returns, come in
  insertion and id order.
- Row ids are never reused. Identifiers drawn with uuid4 are fresh; the model draws them from a counter.
- A device upsert is the first statement of every ingest transaction on a device and holds its row lock until the end.
  Other statements read committed data.
- Auto-fix is one atomic step.
- A failed send may have had any prefix of its batch handled, each message of it applied or rolled back, but it takes
  effect before the next send starts.
- The cloud is shared. Before and after every message of a request others may ingest, fix and authorise at will; only
  one box reports a given device.
- Polls run to completion.
- A text function (classification and signature of a syslog line, JSON of a cursor key) is a parameter. Only cursors
  need a property of it: decoding reads back the keys that were served.

## Where the code decides

- A healthy *periodic* message leaves alerts alone; only a healthy transition resolves them.
- The event of a resolution names "opened" as the state it came from. `ResolutionNamesPriorStateUnlessDispatched`
  proves that this is the true prior state exactly when no auto-fix was dispatched for the alert;
  `ResolutionCanNameAWrongPriorState` gives a run in which it is not.
- A further temperature reading can make a device look better: `max` returns NaN when the first reading is NaN, and
  NaN reaches no limit. `NanHidesHeat` gives the input (80 degrees: unhealthy; NaN, then 80: healthy), and
  `MoreReadingsHelpExactlyWhenHidden` the exact condition.
- The head row survives at most 2 * min(n, 25000) permanent rejections below the caps, n being the batch size, since
  no more than 25000 rows can be pending there; `BoundIsReached` shows a run that reaches this for every n.
- A device first seen in a bad state, and staying in it, has no alert: transitions need a change
  (`UnchangedDeviceHasNoAlert`).
- Structured data of an IETF line ends at its first closing bracket: with a second element, or a bracket escaped as
  section 6.3.3 of RFC 5424 allows, the rest is read as message (`InnerBracketCutsData`).
- The aggregator never announces silence: the periodic loop evaluates health for its summary but sends no transition.
  Every summary carries the health of the moment, also the periodic one. syslog/tests/test_aggregator.py:234-239
  and :266-275 expect otherwise; the model follows syslog/aggregator.py.

## Model

| member | source | states |
|---|---|---|
| Ingestor.Backend.UpsertDevice | backend/app/repositories/devices.py:9-34 | only this device's row changes: created at the envelope's property, otherwise kept |
| Ingestor.Backend.UpdateHealth | backend/app/repositories/devices.py:36-56 | stores the health and returns the prior status exactly when it changed |
| Ingestor.Backend.FindOpenForDevice | backend/app/repositories/alerts.py:94-106 | scans for the open alert of the device and kind that was opened last; none exactly when there is no open one |
| Ingestor.Backend.ResolveAllForDevice | backend/app/repositories/alerts.py:237-249 | every open alert of the device, and no other, becomes resolved at the given time; their ids are returned |
| Ingestor.Backend.EnqueueEvent | backend/app/lib/ingestor.py:251-258 | appends one row to the outbox and changes nothing else |
| Ingestor.Backend.HandlePeriodic | backend/app/lib/ingestor.py:108-139 | the tables become those after the message's effects; a change of status is logged with its prior status |
| Ingestor.Backend.HandleTransition | backend/app/lib/ingestor.py:141-249 | the tables become those after the message's effects, whichever of resolve, refresh and open applies |
| Ingestor.Backend.CloseAlerts | backend/app/lib/ingestor.py:173-181 | resolves the device's open alerts and logs each |
| Ingestor.Backend.OpenOrRefresh | backend/app/lib/ingestor.py:183-249 | refreshes the open alert of that kind, or opens one with the severity its status maps to |
| Ingestor.Backend.HandleOne | backend/app/lib/ingestor.py:63-76 | dispatch by message kind has exactly the effects specified for the message |
| Ingestor.Backend.Transact | backend/app/lib/ingestor.py:44-46 | all of a message's effects, or none when it raises |
| Ingestor.Backend.HandleBatch | backend/app/lib/ingestor.py:28-61 | accepted + rejected is the batch length, the rejected list names exactly the raising positions, and the tables are those after the accepted messages |
| Ingestor.Backend.RequestAutoFix | backend/app/routers/alerts.py:82-135 | every answer and effect of a request: missing key, cached reply, then another provider's alert is not found, a resolved one a conflict, an unauthorised one refused, each without any effect; only else it is dispatched |
| CloudInvariants.FindOpenIsExact | backend/app/repositories/alerts.py:94-106 | the lookup finds the open alert of the device and kind, and fails exactly when there is none |
| CloudInvariants.HealthyTransitionResolvesAll | backend/app/lib/ingestor.py:173-181 | a healthy transition leaves its device with no open alert and other devices' alerts as they were |
| CloudInvariants.ApplySetsHealth | backend/app/lib/ingestor.py:108-161 | a message sets its device's status only; unless it is a transition it leaves every alert alone |
| CloudInvariants.DoKeepsInvariants | backend/app/lib/ingestor.py:63-258 | every ingest, auto-fix and authorisation keeps the table's invariants and its agreement with the outbox |
| CloudInvariants.RunKeepsInvariants | backend/app/lib/ingestor.py:63-258 | in every reachable state: one open alert per device and kind, severities as mapped from the kind, and an outbox that replays to the alert table |
| CloudInvariants.ResolvedRowsAreFrozen | backend/app/repositories/alerts.py:237-249 | resolved is terminal: over every run a resolved row stays resolved, and the row is unchanged unless auto-fix is authorised on it |
| CloudInvariants.OutboxTellsEachAlertsStory | backend/app/lib/ingestor.py:173-249 | per alert the outbox reads opened, then updates and dispatches, then at most one resolution, there exactly when the row is resolved |
| CloudInvariants.ReplayRebuildsOpenAlerts | backend/app/lib/ingestor.py:173-258 | replaying the outbox of any run rebuilds every alert's device, kind, severity and state, hence the open set |
| CloudInvariants.ActingMeansDispatched | backend/app/routers/alerts.py:113-124 | an open alert is acting exactly when a dispatch for it is in the outbox |
| CloudInvariants.ResolutionNamesPriorStateUnlessDispatched | backend/app/lib/ingestor.py:176-180 | the constant prior state in a resolution event is true if and only if no auto-fix was dispatched |
| CloudInvariants.ResolutionCanNameAWrongPriorState | backend/app/lib/ingestor.py:176-180 | a reachable run in which the resolution says "opened" of an alert that was acting |
| CloudInvariants.SeverityFollowsKind | backend/app/lib/health.py:11-16 | over every run an alert is P1 exactly when raised for unhealthy, P2 for degraded, P3 for unknown, and none is P4 |
| Provenance.AlertsAreGrounded | backend/app/lib/ingestor.py:173-230 | over every run each field of an alert has its source: the transition that opened it, the last that refreshed it, the grant, the fix, the first recovery that resolved it |
| Provenance.DispatchWasAllowed | backend/app/routers/alerts.py:99-124 | a dispatch in the outbox was asked for by the alert's own provider, confirmed, after a grant |
| Provenance.DispatchIsActing | backend/app/routers/alerts.py:113-124 | the outbox holds a dispatch for an alert exactly when the alert was acted on |
| Provenance.KnownOnceReported | backend/app/repositories/devices.py:9-34 | a device is known exactly when some message was about it |
| Provenance.DevicesAreGrounded | backend/app/repositories/devices.py:9-56 | its row has the property of the first message about it, and the health and time of the last |
| Provenance.PeriodicLogsChange | backend/app/lib/ingestor.py:126-139 | a periodic message logs a change of status, from the one known before, exactly when there is one |
| Provenance.HeartbeatIsLogged | backend/app/lib/ingestor.py:102-106 | a heartbeat logs its queue depth and touches neither devices nor alerts |
| Provenance.RelapseIsLogged | backend/app/lib/ingestor.py:187-249 | a transition for the worse logs one event: an update of the open alert of its kind, or else an opening |
| Provenance.RecoveryIsLogged | backend/app/lib/ingestor.py:173-181 | a recovery logs one resolution for each alert open for the device, and nothing else |
| Provenance.OutboxRowsAreRight | backend/app/lib/ingestor.py:176-249 | over every run an event names an alert that is there, at that alert's property, and an opening says what was opened |
| Interleaving.StepRefines | backend/app/repositories/devices.py:21-34 | every statement of every interleaving keeps the locking invariant and acts on the committed tables as its serial action, or not at all |
| Interleaving.ExecutionsAreSerialisable | backend/app/lib/ingestor.py:44-46 | every interleaving leaves the tables that the transactions, run alone in commit order, would leave |
| Interleaving.OneOpenAlertPerKind | backend/app/lib/ingestor.py:187-230 | in every interleaving at most one open alert per device and kind, with the severity of its kind |
| Interleaving.HealthyCommitLeavesNoneOpen | backend/app/lib/ingestor.py:173-181 | the moment a healthy transition commits its device has no open alert, whatever ran beside it |
| Progress.OnlyHoldersMakeWait | backend/app/repositories/devices.py:21-34 | a transaction waits exactly when another holds its device's row, and that other does not wait |
| Progress.NoDeadlock | backend/app/lib/ingestor.py:44-46 | in every reachable state with transactions open, one of them can go on |
| Progress.RunOutCommits | backend/app/lib/ingestor.py:44-46 | a transaction that does not wait, run on alone, commits exactly its message's effects |
| Progress.FreeMessageIsIngested | backend/app/lib/ingestor.py:42-46 | any message can be ingested whenever nobody holds its device |
| Progress.OthersNeverWait | backend/app/routers/alerts.py:99-124 | beginning, giving up, auto-fix and authorisation never wait, and an abort leaves the tables alone |
| Queue.OutboundQueue.TrimAll | poller/outbound_queue.py:62-79 | the three deletes give exactly the specified trim |
| Queue.OutboundQueue.Enqueue | poller/outbound_queue.py:44-49 | one row appended with the next id, then the trim |
| Queue.OutboundQueue.EnqueueAll | poller/outbound_queue.py:51-60 | all rows appended with one time and rising ids, then one trim; nothing for an empty list |
| Queue.OutboundQueue.Take | poller/outbound_queue.py:81-86 | the first pending rows, at most n, in order |
| Queue.OutboundQueue.Acknowledge | poller/outbound_queue.py:88-93 | deletes exactly the rows with these ids |
| Queue.OutboundQueue.RecordFailure | poller/outbound_queue.py:95-102 | counts an attempt and stores the clipped error on exactly these rows |
| Queue.OutboundQueue.SetAside | poller/outbound_queue.py:104-116 | parks exactly these rows, then trims |
| Queue.OutboundQueue.Depth | poller/outbound_queue.py:118-121 | the counted rows are what batches can be made of: a batch of any size is as long as asked, up to the depth |
| QueueInvariants.TrimKeepsNewestPerLane | poller/outbound_queue.py:62-79 | after a trim each class holds its newest rows up to its cap; other classes are untouched by it |
| QueueInvariants.DropOldestDropsOldest | poller/outbound_queue.py:65-72 | whatever a trim deletes is older than everything its class keeps |
| QueueInvariants.TrimBelowCaps | poller/outbound_queue.py:28-79 | with at most 5000, 20000 and 500 rows a trim changes nothing |
| QueueInvariants.DoKeepsInv | poller/outbound_queue.py:44-116 | each operation keeps order, conservation, caps and oldest-first eviction |
| QueueInvariants.RunKeepsInv | poller/outbound_queue.py:44-116 | in every reachable state each id ever assigned is in exactly one of table, acked, evicted; caps hold; in the two pending classes evicted rows are older than all that is left (for the quarantined class see DropOldestDropsOldest, trim by trim) |
| QueueInvariants.RunExtends | poller/outbound_queue.py:14-26 | what was acked or evicted stays so, and no id is given a second payload |
| QueueInvariants.StaleAckRemovesOnlySentRows | poller/outbound_queue.py:81-93 | acking a batch taken any time ago removes only rows that batch carried, with the payload it carried |
| RowHistory.RowsTellTheirHistory | poller/outbound_queue.py:44-116 | over every run a row's payload, time, attempts, state and last error (300 characters of it) are those its insertion, failures and quarantine gave it |
| RowHistory.CapsHold | poller/outbound_queue.py:28-30 | at most 5000 periodic, 20000 other and 500 quarantined rows in every reachable state |
| PendingOrder.EnqueueAppends | poller/outbound_queue.py:51-60 | an insert that fits the caps appends to the pending rows and evicts nothing |
| PendingOrder.AckTakesFront | poller/outbound_queue.py:81-93 | acking the head batch leaves the rest of the pending rows in order |
| PendingOrder.QuarantineTakesFront | poller/outbound_queue.py:104-116 | parking the head batch takes it out and leaves the rest in order |
| Uploader.CloudUploader.OneTurn | poller/uploader.py:145-180 | take, send, then ack and clear, or mark failed and count, or quarantine at the third permanent rejection; the backoff as the code sets it |
| Uploader.CloudUploader.Run | poller/uploader.py:143-180 | the loop is the turns in sequence |
| UploadRuns.BackoffDoubles | poller/uploader.py:144-180 | the wait is the configured time doubled once per failure since the last delivery, quarantines aside, up to 600 seconds |
| UploadRuns.CountIsRefusals | poller/uploader.py:157-171 | the count kept for a batch is its permanent rejections since the last delivery, modulo its third one |
| UploadRuns.QuarantinedAtThird | poller/uploader.py:166-171 | a batch is quarantined at its third such rejection, and not before |
| HeadOfLine.ArrivalsKeepInv | poller/outbound_queue.py:51-60 | arrivals that lengthen the head batch keep the count invariant and cost the head row no patience it had |
| HeadOfLine.TurnSpendsPatience | poller/uploader.py:163-180 | each permanent rejection uses up one unit of the head row's patience, or the row leaves |
| HeadOfLine.HeadLeavesAfterRejections | poller/uploader.py:143-180 | below the caps the head row is no longer pending after at most 2n + 1 permanently rejected sends, arrivals notwithstanding |
| HeadOfLine.ReachableKeepsInv | poller/uploader.py:143-180 | the bound's premise holds in every state the loop reaches below the caps |
| HeadOfLineExact.SameTurns | poller/uploader.py:143-180 | below the caps the loop behaves as with batches of at most 25000 rows |
| HeadOfLineExact.HeadLeavesInTime | poller/uploader.py:143-180 | from every state reached below the caps, 2 * min(n, 25000) + 1 permanent rejections move the head row out |
| HeadOfLineExact.BoundIsReached | poller/uploader.py:166-177 | for every n some run of arrivals and 2 * min(n, 25000) permanent rejections leaves the head row pending |
| Sharing.FixKeepsView | backend/app/routers/alerts.py:113-124 | an auto-fix shows in no device's status or open kinds |
| Sharing.ActKeepsView | backend/app/lib/ingestor.py:63-249 | whatever another does, the tables stay sound, and a device it does not report looks the same |
| Sharing.SharedBatchRunsView | backend/app/lib/ingestor.py:42-61 | with others acting between its messages, a batch still moves the view of its own devices through its accepted messages |
| Sharing.QuietBatchIsBatch | backend/app/lib/ingestor.py:42-61 | with no one else about, it is the batch the ingestor handles |
| Views.ApplyStepsView | backend/app/lib/ingestor.py:63-249 | one ingested message moves each device's status and open kinds by a function of the message alone |
| Views.BatchRunsView | backend/app/lib/ingestor.py:42-61 | a batch moves each device's view through its accepted messages in order |
| Views.BatchAbsorbsItsOwnMessages | backend/app/lib/ingestor.py:173-205 | processing a batch hides any earlier, partial or repeated, processing of messages from it |
| Delivery.LosslessRunStaysSound | poller/uploader.py:143-180 | over every run of turns on a shared cloud, the queue's, the loop's and the tables' invariants hold |
| Delivery.LosslessRunKeepsInv | poller/uploader.py:143-180 | over every run of turns on a shared cloud, whatever was applied of the pending messages is absorbed by processing them |
| Delivery.ExactlyOnceEffect | poller/uploader.py:143-180 | at each ack, whatever others did meanwhile, the status and open kinds of a device only this box reports are as if all acked messages were processed once, in queue order |
| Draining.QueueCanBeDrained | poller/uploader.py:143-161 | from every state the loop reaches, ceil(pending / n) sends that succeed empty the queue |
| Draining.SuccessesConcernNoOther | poller/uploader.py:155-161 | such sends need nobody else, so every device keeps its only reporter |
| Poller.StateStore.Remember | poller/state_store.py:48-75 | stores status, score and time, keeps first_seen, moves last_change only on a change, returns the previous status or none |
| Poller.StateStore.DevicesNotSeenSince | poller/state_store.py:95-107 | a device is listed exactly when its row was last seen before the cutoff, with that row, in table order |
| Poller.Poller.ReportAll | poller/main.py:53-75 | the device loop records and queues as specified, counting devices, transitions and unhealthy ones |
| Poller.Poller.FlagMissing | poller/main.py:103-126 | the sweep flags and records as specified |
| Poller.Poller.PollOnce | poller/main.py:45-139 | a whole poll: the state table, the queue with all messages and the heartbeat in one insert, and the summary |
| PollRuns.TransitionsAreDestutteredHistory | poller/main.py:68-75 | a device's transition messages are its recorded statuses without consecutive repeats, less the first |
| PollRuns.OneVanishedPerDisappearance | poller/main.py:103-126 | in everything sent, before each vanished transition of a device, and between any two, there is a message from a report of it |
| PollRuns.FlaggedExactly | poller/main.py:105-109 | a poll's messages hold a vanished transition for exactly the known, unreported devices that were not unhealthy and were last seen before the cutoff |
| PollRuns.RowsTellRecords | poller/state_store.py:48-75 | over every run a device's row has the status, score and time of its latest record, the time of its first, and the time since when its status has lasted |
| PollRuns.VanishedExactlyWhenSilent | poller/main.py:103-126 | along every run a poll raises the alarm for exactly the devices its report lacks, last recorded other than unhealthy, all of whose records are older than the grace period; the alarm says for how long |
| PollRuns.PollMirrorsReport | poller/main.py:56-101 | a poll samples and records exactly what the platform reported, in its order; every other record is a sweep's |
| PollRuns.MessagesSayWhatHappened | poller/main.py:56-133 | all messages bear the poll's time, a change repeats the sample before it, an alarm is unhealthy with score 0, the heartbeat counts known and unhealthy devices |
| PollRuns.ReportedIsNeverFlagged | poller/main.py:103-109 | no vanished transition is sent for a device in the current report |
| Sequences.DestutterHasNoRepeats | poller/main.py:70 | what a device's transitions announce never repeats the status before it |
| Sequences.DestutterFixesRepeatFree | poller/main.py:70 | a history without repeats is announced in full |
| Sequences.DestutterAbsorbsRepeat | poller/main.py:70 | recording the same status again, anywhere, announces nothing |
| PollRuns.MessagesPerPoll | poller/main.py:45-133 | messages queued = usable devices + transitions + (1 if the platform was reported) + 1 |
| PollRuns.OpenAfterMeans | poller/main.py:70-73 | a kind is due after a history exactly when it was changed to and healthy was not since |
| EndToEnd.RunKeepsLedger | poller/outbound_queue.py:81-93 | what was ever queued is what was acked followed by what is pending, in order |
| EndToEnd.DrainedCloudShowsHistory | poller/main.py:56-133 | once the queue has drained, whatever others did, the cloud's view of each device only this poller reports is the one its recorded history determines |
| EndToEnd.HealthyDeviceHasNoOpenAlert | backend/app/lib/ingestor.py:173-181 | from empty stores, drained: a device last recorded healthy has no open alert |
| EndToEnd.UnhealthyDeviceHasOneAlertOfItsKind | backend/app/lib/ingestor.py:183-230 | a device that has changed status and is now in another status than healthy has exactly one open alert of that kind, P1 for unhealthy, P2 for degraded, P3 for unknown |
| EndToEnd.UnchangedDeviceHasNoAlert | poller/main.py:70 | a device whose recorded status never changed has no alert |
| Outbox.Table.PollOnce | backend/app/lib/outbox_poller.py:24-51 | publishes and marks up to 50 claimable rows, every claimable row left out being later than a full batch of them; a failure part way has sent a front part and marked nothing; undisturbed it publishes min(50, unpublished) rows |
| Outbox.RunKeepsInv | backend/app/lib/outbox_poller.py:24-51 | every interleaving of claims, publishes, marks, commits, aborts and inserts keeps the protocol invariant |
| Outbox.WorkersNeverShareARow | backend/app/lib/outbox_poller.py:27-34 | two workers never hold the same row |
| Outbox.PublishedRowSends | backend/app/lib/outbox_poller.py:43-51 | a published row was sent once by the transaction that marked it; its sends are 1 plus the aborted transactions that had sent it |
| Outbox.AttemptsCountPublication | backend/app/lib/outbox_poller.py:44-51 | attempts is 1 exactly for published rows and otherwise 0 |
| Outbox.CommitReducesUnpublished | backend/app/lib/outbox_poller.py:26-51 | each committed nonempty poll lowers the unpublished count by all it claimed |
| Outbox.OldestTakesOldest | backend/app/lib/outbox_poller.py:27-34 | any claimable row a claim leaves out comes after a full batch |
| Outbox.ClaimTakesOldest | backend/app/lib/outbox_poller.py:27-34 | so too among many workers, and a claim can be made exactly when there is an unpublished row nobody holds |
| Outbox.WorkersCanGoOn | backend/app/lib/outbox_poller.py:37-51 | a worker with an open transaction can always publish, mark or commit next |
| Outbox.PollsDrainOutbox | backend/app/lib/outbox_poller.py:24-51 | undisturbed, N rows are published in ceil(N / 50) polls, 50 at a time |
| Cursor.DecodeEncode | backend/app/lib/cursor.py:15 | decoding undoes base64url encoding for every byte string |
| Cursor.StrippedRoundTrip | backend/app/lib/cursor.py:15-21 | stripping the padding and putting it back loses nothing, for every byte string |
| Cursor.StrippedIsUrlSafe | backend/app/lib/cursor.py:15 | a cursor is letters, digits, '-' and '_' only |
| Cursor.KnownEncodings | backend/app/lib/cursor.py:15 | the short test vectors of section 10 of RFC 4648 |
| Cursor.KnownLongerEncodings | backend/app/lib/cursor.py:15 | the longer ones |
| Cursor.KnownUrlLetters | backend/app/lib/cursor.py:15 | '-' and '_' stand where section 5 of RFC 4648 has them |
| Cursor.Codec.CursorRoundTrip | backend/app/lib/cursor.py:12-22 | for every key that JSON reads back: decode_cursor inverts encode_cursor, the cursor is not empty, and no other such key has it |
| Paging.PageIsFront | backend/app/repositories/alerts.py:108-154 | a page is the first candidates past its cursor in order; what it leaves out comes after its next cursor |
| Paging.PageShowsOnlyWanted | backend/app/repositories/alerts.py:129-140 | no page shows another provider's alert, nor one of another property or state than asked for |
| Paging.StillPagesShowAllWanted | backend/app/repositories/alerts.py:108-199 | on a fixed table the pages show exactly the alerts asked for |
| Paging.UrgentComesBefore | backend/app/repositories/alerts.py:10-15 | on every run alerts of unhealthy devices come before degraded ones, these before unknown ones, and newer before older of a kind |
| Paging.UrgentIsListedFirst | backend/app/repositories/alerts.py:108-154 | a page that holds an alert holds before it every more urgent one that matches and was not paged past |
| Paging.KeysStrictlyAdvance | backend/app/repositories/alerts.py:120-139 | whatever tables the fetches meet, the keys of a session strictly advance |
| Paging.NoAlertReturnedTwice | backend/app/repositories/alerts.py:108-154 | while keys of existing alerts stay, no alert is returned twice |
| Paging.MatchingAlertReturnedExactlyOnce | backend/app/repositories/alerts.py:108-154 | an alert that matches at every fetch is returned exactly once by the time there is no more |
| Paging.PagingUnderChange | backend/app/repositories/alerts.py:108-199 | both hold for fetches taken anywhere along any run of ingest, auto-fix and authorisation |
| Paging.PagesOfStillTable | backend/app/repositories/alerts.py:108-199 | on a fixed table the pages join up to the whole sorted list, in the stated number of fetches |
| Paging.FetchesIsCeiling | backend/app/repositories/alerts.py:146-154 | that number is max(1, N / limit rounded up) |
| Paging.TokensResumeByKey | backend/app/repositories/alerts.py:120-123 | the token of a key that JSON reads back resumes exactly where paging by that key would |
| Paging.TokenSessionServesSession | backend/app/repositories/alerts.py:108-154 | a client that hands back each token is served the very pages of the session by keys, and no token is refused |
| Paging.TokenPagingUnderChange | backend/app/repositories/alerts.py:108-199 | such a client sees no alert twice, and every alert that matches at each fetch once, while the cloud runs |
| SyslogHealth.ComputeHealth | syslog/aggregator.py:84-117 | the counting loops give the specified score, status and reasons |
| SyslogHealth.CounterCounts | syslog/aggregator.py:98-99 | summing a counter's entries over a class of keys counts the occurrences in that class |
| SyslogHealth.WarningSpellings | syslog/aggregator.py:141 | the summary's two-key warning count equals the rank-based one used for the score |
| SyslogHealth.ScoreStaysInRange | syslog/aggregator.py:101-117 | for a seen, non-stale device the score is in 5..100, the clamp never acts, and the score decides the status |
| SyslogHealth.VerdictByCounts | syslog/aggregator.py:101-116 | the exact error and warning counts for healthy and for unhealthy |
| SyslogHealth.VerdictWhenQuiet | syslog/aggregator.py:104-116 | the same counts after a silence of more than half the limit: healthy only with no error and no warning, at 85 |
| SyslogHealth.ReasonsAreExact | syslog/aggregator.py:107-112 | each reason is given exactly when its count reaches its threshold |
| SyslogHealth.MoreEventsNeverHelp | syslog/aggregator.py:92-117 | one more event never raises the score nor improves the status |
| SyslogHealth.SilenceIsUnhealthy | syslog/aggregator.py:84-90 | never heard from: unknown at 0; silent beyond the limit: unhealthy at 10, with the whole seconds of silence |
| SyslogHealth.ScoreFloorIsReached | syslog/aggregator.py:101-105 | the lowest score, 5, is reached exactly with eight errors, ten warnings and half a silence |
| SyslogHealth.SeverityNames | syslog/classify.py:15-36 | which names count as errors, which as warnings, and which lines are noise |
| SyslogAggregator.DeviceState.EvictOld | syslog/aggregator.py:74-82 | the popping loop and the cache rebuild give the specified eviction |
| SyslogAggregator.DeviceState.BuildSummary | syslog/aggregator.py:119-145 | the summary carries the health of the moment and the very counts the score used |
| SyslogAggregator.DeviceState.Accept | syslog/aggregator.py:56-72 | a line is absorbed as a repeat, or kept, evicted around, judged, and announced if the status changed |
| SyslogAggregator.Aggregator.Ingest | syslog/aggregator.py:37-72 | noise changes nothing; otherwise only the line's device changes, created at first sight |
| SyslogAggregator.Aggregator.RunPeriodic | syslog/aggregator.py:158-167 | one pass evicts and summarises every device in order |
| AggregatorRuns.EvictionIsFilter | syslog/aggregator.py:74-77 | popping old heads equals filtering on the cutoff |
| AggregatorRuns.RunTracksHistory | syslog/aggregator.py:37-82 | in every reachable state the window, cache and last status are those determined by everything ever kept |
| AggregatorRuns.DropIsExact | syslog/aggregator.py:56-61 | although cache entries expire, a line is dropped exactly when one of its signature was kept less than 60 s before, ever |
| AggregatorRuns.KeptAreSpaced | syslog/aggregator.py:56-64 | events kept with one signature are at least 60 s apart over the whole run |
| AggregatorRuns.HeldAreSpaced | syslog/aggregator.py:45-82 | so are the held ones, in every reachable state |
| AggregatorRuns.HeldPerSignatureBounded | syslog/aggregator.py:45-82 | at most floor(window / 60) + 1 held events per signature |
| AggregatorRuns.TickReportsEveryDevice | syslog/aggregator.py:160-165 | a pass sends one summary per device, of its record after eviction |
| AggregatorRuns.SummariesTellWindow | syslog/aggregator.py:119-165 | at any time of any run each summary has the health and the counts of the events kept within the window ending then |
| AggregatorRuns.ListedOnceHeard | syslog/aggregator.py:39-54 | a device is summarised from its first line that is not noise on |
| AggregatorRuns.ChangeTellsWindow | syslog/aggregator.py:63-72 | a line that changes the verdict sends one payload, with the health and the counts of the window ending with it |
| AggregatorRuns.TransitionsAreDestutteredVerdicts | syslog/aggregator.py:69-72 | a device's first verdict and then its transition statuses are its verdicts without consecutive repeats; the timer adds none |
| Regex.RunTakesAll | syslog/syslog_listener.py:8-14 | a greedy repeat takes its whole run if the rest then matches |
| Regex.RunStops | syslog/syslog_listener.py:8-14 | where a greedy repeat stopped, and that stopping one later would not have matched |
| Syslog.DecimalRoundTrip | syslog/syslog_listener.py:47 | reading a printed number gives it back |
| Syslog.TwoDigitsRoundTrip | syslog/syslog_simulator.py:62 | the two figures of an hour, minute or second read as its number |
| SyslogRoundTrip.PriRoundTrip | syslog/syslog_listener.py:46-50 | decoding facility * 8 + severity gives both back, for all facilities, "unknown" beyond the 24 (section 4.1.1 of RFC 3164, section 6.2.1 of RFC 5424) |
| SyslogRoundTrip.HeaderMatches | syslog/syslog_listener.py:8-14 | the priority in angle brackets is read whole or not at all, whatever pattern follows |
| SyslogRoundTrip.LineFound | syslog/syslog_listener.py:8-43 | whatever text matches either BSD form, the host, tag and message read from it are well formed |
| SyslogRoundTrip.PrintedLineRoundTrips | syslog/syslog_listener.py:53-82 | for any priority and time a printed line is read back as printed if and only if host, tag and message are well formed |
| SyslogRoundTrip.SimulatedLineRoundTrips | syslog/syslog_simulator.py:59-63 | parse_message of build_rfc3164 returns host, tag, severity and message if and only if they are well formed |
| SyslogRoundTrip.PlainTagIsOk | syslog/syslog_listener.py:12 | a nonempty tag without ':', '[' or white space is well formed |
| SyslogRoundTrip.RelayedLineRoundTrips | syslog/syslog_listener.py:25-37 | the same for lines a relay rewrote to an ISO time stamp without a version: no well-formed one is lost |
| SyslogRoundTrip.TrailingNewlineIsDropped | syslog/syslog_listener.py:8-14 | a newline at the end of a printed line does not show |
| SyslogRoundTrip.MissingColonIsFine | syslog/syslog_listener.py:12 | a line without the colon after its tag is read the same |
| SyslogRoundTrip.ReadSeveritiesRank | syslog/syslog_listener.py:39-50 | the severity name read off a line has, in the aggregator's table, the rank of the number it came from |
| SyslogIetf.IetfLineRoundTrips | syslog/syslog_listener.py:16-21 | a line of nine fields is read back field by field if and only if they are well formed (section 6 of RFC 5424) |
| SyslogIetf.IetfLineIsParsed | syslog/syslog_listener.py:53-82 | the record of such a line has its stamp, host and message, and the application name as its tag |
| SyslogIetf.IetfFound | syslog/syslog_listener.py:16-21 | whatever text is read in this form, each field read is well formed |
| SyslogIetf.ParsedIetfIsWellFormed | syslog/syslog_listener.py:53-82 | so is each record parsed in it |
| SyslogIetf.SpareSpaceIsForgiven | syslog/syslog_listener.py:17 | the record alone does not tell a well-formed line: with a spare space after the version it is the same |
| SyslogIetf.InnerBracketCutsData | syslog/syslog_listener.py:20 | structured data with an inner closing bracket is not read whole |
| SyslogIetf.BsdExample | syslog/syslog_listener.py:53-82 | an example of section 5.4 of RFC 3164, parsed |
| Mapper.AssessDevice | poller/mapper.py:144-238 | the findings met one by one, with the worst status kept, give the assessment by counts; the last correction never acts |
| Mapper.ScanPorts | poller/mapper.py:195-211 | one pass over the ports collects the down, flapping and dim ones in order |
| Mapper.VerdictsMeanCounts | poller/mapper.py:144-238 | unhealthy iff errors, degraded iff only warnings, healthy iff no reasons iff score 100; score in 0..100 |
| MapperScores.ScoreFromRecord | poller/mapper.py:171-238 | for a device in contact the exact score, errors, warnings and events, from how many parts and ports are in which condition |
| MapperScores.ReasonsTellFindings | poller/mapper.py:171-228 | the reasons are exactly: each failed part, the hottest reading if too hot, and the counts of ports down, flapping and dim |
| MapperScores.NamedLevelIsWeakest | poller/mapper.py:223-228 | the level an optical finding names is a dim port's, and none receives less |
| MapperScores.LostContactExactly | poller/mapper.py:156-169 | which lost and state fields put a device out of contact, and that it is then unhealthy at 0 whatever else is read |
| Mapper.MoreEquipmentNeverHelps | poller/mapper.py:171-238 | further parts, readings or ports, wherever listed, never improve score or status, unless a NaN at the head of the readings hides a hot one |
| Mapper.MoreReadingsHelpExactlyWhenHidden | poller/mapper.py:181-193 | further readings improve the assessment if and only if the device is in contact, the list now begins with NaN while it was hot, and parts and ports leave some score |
| Mapper.NanHidesHeat | poller/mapper.py:181-193 | the input: a NaN read before 80 degrees turns an unhealthy device healthy |
| Mapper.HottestIsMax | poller/mapper.py:183 | `max` of readings is NaN exactly when the first is, and otherwise the largest of the others |
| ReplayBuffer.SseReplayBuffer.Add | backend/app/lib/sse_buffer.py:24-27 | drops what is older than the window and appends the event |
| ReplayBuffer.SseReplayBuffer.EventsSince | backend/app/lib/sse_buffer.py:29-34 | everything after the first event with the id, nothing when it is not held |
| ReplayBuffer.BufferIsSuffix | backend/app/lib/sse_buffer.py:24-27 | the buffer is a suffix of all that was ever added |
| ReplayBuffer.BufferHoldsWindow | backend/app/lib/sse_buffer.py:24-27 | it holds every event inside the window of the latest addition |
| ReplayBuffer.RecentEventIsHeld | backend/app/lib/sse_buffer.py:29-34 | an event inside the window can be asked about |
| ReplayBuffer.ReplayIsWhatCameAfter | backend/app/lib/sse_buffer.py:29-34 | what follows a held event in the buffer is exactly what was added after it |

## Left out

- Ingestor.Backend.UpsertDevice: does not model the label, class, vendor, site and edge columns that the upsert merges; no alert rule reads them.
- Ingestor.Backend.HandleOne: does not model the property, edge-box and raw-event rows, which no modelled statement reads back.
- Ingestor.Backend.RequestAutoFix: one atomic step, and cached replies never expire; the code's statements commit one by one and the cache has a lifetime.
- Ingestor.Backend.HandleBatch: does not model the property upsert and the reason text of a rejection; which messages raise is an input.
- Alert summary and detail text: an opaque value made of the message and the opening time.
- Ingestor.Backend.HandlePeriodic: does not model the raw-event row it inserts.
- Ingestor.Backend.HandleTransition: does not model the raw-event row it inserts, nor the spelling of severities in it.
- Interleaving: row locks on alerts are not modelled; a transaction writes only its own device's alerts, and auto-fix is one step.
- Delivery.ExactlyOnceEffect: for runs without trims, quarantines and rejected messages of its own; each of these drops messages by design, so the law does not hold of them.
- HeadOfLine.HeadLeavesAfterRejections: below the caps, since a trim drops rows and so changes batches by itself; a shutdown of the loop is not modelled.
- Uploader.CloudUploader.OneTurn: the HTTP exchange is an input with the three outcomes ok, retryable and permanent; waiting and logging are left out.
- Poller.Poller.PollOnce: the platform's answer is an input, already assessed and with its device ids; a failing query before the device loop ends the poll before anything happens and is not modelled.
- Outbox.Table.PollOnce: the text published on a channel; a publish that fails counts as not sent.
- Paging: the columns of a row beside its key; the SQL engine's sorting is the specification of the order.
- Cursor.Codec.CursorRoundTrip: the JSON text of a key is given; only keys that decoding reads back are spoken of.
- SyslogAggregator.DeviceState.BuildSummary: does not model the top_events list and the descriptive fields of the payload.
- SyslogAggregator.DeviceState.Accept: the count of a cache entry is stored as in the code but, being read only for whether it is positive, appears in no result.
- SyslogAggregator.Aggregator.Ingest: the lock is one step per call, so calls and timer passes interleave only whole.
- Regex: which characters beyond ASCII are digits and letters is an unspecified table, so the results hold for any; white space is Unicode's.
- Syslog: months are named in English, as in the C locale; the receiver's address and clock are left out of the record.
- Mapper.AssessDevice: turning raw attributes into part states, floats and lower-case text is left out; records come with these fields read, NaN and infinities included.
- ReplayBuffer: events of several connections and the missing event id of published messages; the buffer alone is modelled.
- Platform assessment, device identity and naming, the syslog queue and uploader, estate and property views, authentication, ETags and the frontend.
