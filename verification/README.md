# A verified model of the QQ bridge

The QQ bridge carries messages between turntf users and QQ conversations. It keeps seven SQLite tables, two loops that
drain them, a consumer of gateway events, and a gateway that speaks to QQ. This project models that logic in Dafny and
proves what holds over every run of it: with any interleaving of its actors, any write failing (or landing without
anybody being told), and the process restarting between any two steps.

Verify it with `dafny verify dfyconfig.toml`.

## How the model is built

**The store.** `Tables` states every transaction literally, `INSERT OR IGNORE` included, on the tables as sequences of
rows in id order. `Stores.Store` is the object whose methods change those tables in place, statement by statement and
loop by loop; each method is proved to do what `Tables` and `Queues` define. `Effects` describes what a transaction
amounts to when nothing conflicts, and `Bridge.StepAddsDelta` proves that in a reachable state nothing ever does: this
is where the injectivity of the printed job keys is used.

**The runtime.** `Queues` is one job queue with the loop that works it, as a state machine whose loop is idle, holds a
claimed job, has its answer, or is about to report. `Bridge` puts two of them together with the turntf client and the
event consumer. A step of `Bridge` is one atomic action, and its `Fate` says whether the write commits, fails, or commits
although the caller sees an error. `Loops.Runtime` is the code of the loops, proved to be runs of that machine. Theorems
about one queue (`QueueRuns`, `QueueSends`, `QueueOrder`, `QueueFate`) are carried to the two queues of the bridge in
`BridgeQueues`. `Exchanges` joins two whole bridges by the network between them, `Misrouting` holds the runs that show the
routing conditions to be exact, and `StoredJobs` says what the gateways make of stored jobs.

**The gateways.** `NapCatCalls` models concurrent sends, the reader and the disconnect handler around the locked map and
the one-slot channels; `NapCatProgress` shows when replies and disconnects cannot block, and exactly in which states the
reader's goroutine is stuck for ever. `NapCatRender` and
`Gateways` hold the two message builders.

**Values.** `Envelopes`, `Conversations`, `JobKeys` and `Strings` hold messages, their normalisation, conversation keys,
relay patterns, and the printing of job keys.

## Where the code does not do what one expects

The model follows the code, and each of these is a theorem:

- Reopening the database does not return a `processing` row to `pending`. `QueueFate.DeliverableIffAlive` says exactly
  which jobs of a queue can still be delivered, `BridgeQueues.DeliveredInTheEndIffAlive` carries this to the runs of the
  bridge, and `BridgeQueues.RestartStrands` says that a restart loses the jobs in flight.
- An event nobody is bound to is neither routed later (the bridge's own README, at its line 640, speaks of waiting for a
  binding) nor relayed: `FanOuts.OrphansAreNotRelayed`, `FanOuts.CopyExistsIffOwed`, and
  `Misrouting.LateBindingDoesNotHelp` for a run in which the binding comes.
- `Validate` normalises copies of the relay patterns, and the stored ones are matched as written:
  one that was not written in normal form matches nothing, and its peer is never sent anything:
  `Conversations.StoredPatternWorksIffNormal`, `Conversations.UnnormalisedPatternNeverMatches`,
  `FanOuts.UnnormalisedPeerGetsNothing`.
- Conversation keys can collide, and then events reach users who never wrote to their conversation.
  `Conversations.KeysAgreeIff` and `Conversations.KeyIsSharedIff` say exactly when, and `Misrouting.RoutedRightIff` that
  routing is right in every run exactly for the conversations whose key reads in one way only.
- Events without any id are taken for one exactly when the digests of their conversations agree and they are stored in the
  same millisecond: `Replay.MadeUpIdsAgreeIff`, `Replay.NamelessEventIsDroppedIff`; `Replay.NamelessEventIsLost` shows a
  message that is lost this way.
- A receipt is answered with a receipt, so two bridges left alone can go on for ever, exactly when they are different
  users and some receipt is on its way: `Poison.AnsweredIff`, `Exchanges.ReceiptsNeverStopIff`, `Exchanges.OneBadMessageIsEnough`.
- The reader can wait for ever on a full slot, and so can the disconnect handler, which then holds the lock:
  `NapCatProgress.ReaderStuckIff`, `NapCatProgress.PushFinishesIff`, `NapCatProgress.FailPushFinishesIff`,
  `NapCatProgress.StuckStatesAreReachable`.
- The reconnect delay reaches 32 s, not the 30 s at line 595 of the bridge's own README:
  `NapCatCalls.ReconnectDelayReaches32`.

## Model

| member | source | states |
|---|---|---|
| Ingestion.ExactlyOneOutcome | internal/qqbridge/store.go:201-285 | In every reachable state, with faults and restarts, a cursor has exactly one of an outbound job, an `invalid` receipt and a `kind` receipt if a message for the bridge is archived under it, and none otherwise |
| Ingestion.IngestionIsExact | internal/qqbridge/store.go:229-284 | The outbound table carries exactly the chat messages of the archive in arrival order, and the arrival receipts are exactly those the other messages to the bridge call for, in order |
| Ingestion.IngestionBalances | internal/qqbridge/store.go:201-285 | Outbound jobs plus arrival receipts number exactly the archived messages meant for the bridge |
| Ingestion.FamiliesExclude | internal/qqbridge/store.go:243-381 | A delivery job belongs to at most one of: arrival receipts, delivery receipts, event copies |
| Ingestion.OthersAreOnlyArchived | internal/qqbridge/store.go:229-231 | A message that is not addressed to the bridge, or that the bridge sent itself, is archived and changes nothing else |
| Receipts.JobsNameTheirMessage | internal/qqbridge/store.go:259-283 | Every outbound job comes from an archived message to the bridge: its cursor, its sender, its parsed body, the key of its conversation |
| Receipts.ArrivalReceiptsNameTheirMessage | internal/qqbridge/store.go:233-257 | Every arrival receipt answers the sender of an archived message to the bridge: `invalid` iff the body does not parse, naming the message's cursor and the problem, `kind` iff it parses as something other than chat, naming its conversation, message and kind; both say `unsupported_content` |
| Receipts.DeliveryReceiptsNameTheirRefusal | internal/qqbridge/runtime.go:166-179 | Over every run a `delivery` receipt reports a terminal refusal that the gateway really gave for that job, to its sender, with the job's conversation and message, the error's code and its text |
| Receipts.WrongKindWording | internal/qqbridge/store.go:253-253 | What the receipt for a system message or a receipt says |
| Receipts.AtMostOneReceipt | internal/qqbridge/store.go:674-680 | One source cursor gets at most one receipt over the three families together, in any reachable state |
| Receipts.ReceiptIsFinal | internal/qqbridge/runtime.go:159-179 | Once a job's `delivery` receipt exists, in every continuation the job's row never changes again, is not delivered and is not sent, even if marking it failed did not work |
| Receipts.FailedIffReceipted | internal/qqbridge/runtime.go:166-179 | If the outbound loop meets no fault, then at its head a job is failed iff its receipt exists, addressed to the sender of its message |
| Receipts.RunKeepsUnique | internal/qqbridge/store.go:151-165 | `UNIQUE(job_key)` holds over every run |
| FanOuts.FanOutIsExact | internal/qqbridge/store.go:343-388 | Over any history the event copies in the delivery table are, in order, one `inbound` job per user who had by then written to the conversation and, if any, one `relay` job per matching peer; none was dropped as a duplicate |
| FanOuts.CopyExistsIffOwed | internal/qqbridge/store.go:369-386 | For each `inbound` and `relay` key: the job exists iff the event owes it (a bound reader; a matching peer of an event with readers), and then it is addressed and filled as the key says |
| FanOuts.RelayedIff | internal/qqbridge/store.go:376-386 | Over every run an event is relayed to a peer with a normal pattern iff it is delivered and its conversation equals the pattern in platform, scene and chat, and in the thread if the pattern names one |
| FanOuts.EveryJobHasAFamily | internal/qqbridge/store.go:682-706 | Every delivery job is an arrival receipt, a delivery receipt or an event copy |
| FanOuts.EventsAreAccountedFor | internal/qqbridge/store.go:352-388 | No event stays `pending`; the orphan rows are exactly those of the failed events, in order and with their key, content and time, gateway ids unique on both sides, so an event is `failed` iff its id is in the orphan table; it is `delivered` iff some `inbound` job for it exists |
| FanOuts.EventsReachTheirKey | internal/qqbridge/store.go:647-672 | Over every run an event is queued for exactly the users who had by then sent chat under its key |
| FanOuts.EventsReachTheirConversation | internal/qqbridge/store.go:647-672 | An event whose key reads in one way only is queued for exactly the users who had sent chat to that same conversation, up to no thread versus thread `-`, whatever else is archived |
| FanOuts.UnambiguousTrafficIsRouted | internal/qqbridge/store.go:647-672 | Where event and archived chats have no bar in platform or chat and a thread other than `-`, to exactly the users who had sent chat to the equal conversation |
| Misrouting.RoutedRightIff | internal/qqbridge/store.go:348-374 | The events of a conversation reach none but those who wrote to it, over all runs, iff its key reads in one way only |
| Misrouting.SharedKeyMisroutes | internal/qqbridge/store.go:348-374 | A user who writes to one conversation gets the event of another with the same key: the run |
| Misrouting.LateBindingDoesNotHelp | internal/qqbridge/store.go:352-367 | An event fails for want of a binding, a user then writes to its conversation and is bound, and still it stays failed with nothing queued: the run |
| FanOuts.OrphansAreNotRelayed | internal/qqbridge/store.go:352-367 | Over every run and continuation: a failed event had no readers, stays failed whatever bindings come later, and never has an `inbound` or `relay` job |
| FanOuts.UnnormalisedPeerGetsNothing | internal/qqbridge/store.go:376-379 | Over every run no `relay` job exists for a peer whose valid pattern was not written in normal form |
| Bindings.BindingsIndexTheArchive | internal/qqbridge/store.go:624-645 | The bindings are exactly those the archived chats justify, with the conversation and time of the latest and the time of the first |
| Bindings.BindingExistsIff | internal/qqbridge/store.go:259-261 | Over every run a binding exists iff it is for this bridge and a user other than it who has sent it a parseable chat under that key |
| Bindings.UpsertKeepsIndex | internal/qqbridge/store.go:629-643 | One more message and its upsert keep that index correct |
| Bindings.BoundUsersAreSenders | internal/qqbridge/store.go:647-672 | The users listed for a key are exactly the senders of archived chats with that key |
| Replay.RepeatsCanBeErased | internal/qqbridge/store.go:204-228 | Erasing from any run every repeated save or enqueue of an identity already committed leaves the whole system identical, whatever happened in between |
| Replay.ErasureIsComplete | internal/qqbridge/store.go:320-341 | After the erasure no call repeats an earlier committed one |
| Replay.MadeUpIdsAgreeIff | internal/qqbridge/store.go:306-315 | Two events without an id get the same made-up id iff the digests of their conversation keys agree and they are stored in the same millisecond, whatever the digest prints |
| Replay.DroppedIffRepeated | internal/qqbridge/store.go:204-341 | After any run, a call that commits (save, cursor or event) changes nothing iff an earlier committed call of the run has its identity |
| Replay.RecordedIffCommitted | internal/qqbridge/store.go:204-341 | A run has recorded exactly the identities of its committed calls |
| Replay.NamedEventIsStored | internal/qqbridge/store.go:306-335 | And a new one is stored as one more row with that id, its normalised envelope, the key of its conversation and the time |
| Replay.NamedEventIsDroppedIff | internal/qqbridge/store.go:306-341 | After any run, a committing event with an id of the gateway's or its own changes nothing iff a row with that very id is there |
| Replay.DifferentNamesAreBothStored | internal/qqbridge/store.go:306-341 | Two events under different ids that both commit on a fresh bridge are both stored, each under its id |
| Replay.NamelessEventIsDroppedIffRepeated | internal/qqbridge/store.go:306-341 | After any run, an event without an id that commits is dropped iff an earlier committed event has the id made up for it |
| Replay.NamelessEventIsDroppedIff | internal/qqbridge/store.go:306-341 | Right after one such event committed, a second that commits is dropped iff the two share their made-up id or its id was known before; otherwise it is stored |
| Replay.SecondNamelessEventIsLost | internal/qqbridge/store.go:306-341 | Of any two events without an id reaching a fresh bridge in one conversation and millisecond, the first is stored and nothing is left of the second |
| Replay.NamelessEventIsLost | internal/qqbridge/store.go:306-341 | Of two different texts reaching a fresh bridge in one group and millisecond the first is stored and nothing is left of the second |
| Replay.NamelessEventsCollide | internal/qqbridge/store.go:306-315 | From any reachable state, in one conversation and millisecond, the second of two such events changes nothing |
| Poison.EveryMessageCommits | internal/qqbridge/store.go:233-258 | `SaveMessage` commits for every message whatever its body |
| Poison.EveryDeliveryReceiptCommits | internal/qqbridge/store.go:392-397 | The receipt for a failed delivery always passes validation and commits |
| Poison.EventCommitsIff | internal/qqbridge/store.go:300-386 | Exactly which events commit: valid chats already known, bound to nobody, or whose matching relay targets are all valid |
| Poison.ValidConfigNeverBlocks | internal/qqbridge/config.go:153-163 | Under a relay configuration that passed `Validate`, an event commits iff it is a valid chat |
| Poison.ValidateRelay | internal/qqbridge/config.go:153-163 | The relay scan accepts exactly the configurations whose peers have both ids and whose two conversations have a known scene and a visible chat id |
| Poison.AnsweredIff | internal/qqbridge/store.go:229-257 | A message is answered on arrival iff it is for the bridge and does not parse or is not chat; the answer is one valid receipt to its sender |
| Poison.ReceiptIsAnswered | internal/qqbridge/store.go:246-257 | A receipt that reaches a bridge is answered with one valid receipt to its sender, under its `kind` key |
| Exchanges.OneMoreAnswer | internal/qqbridge/store.go:246-257 | Two bridges of different users left alone (delivery loops and network only), with a receipt on its way, get to one more answering receipt, on its way back |
| Exchanges.ReceiptsNeverStopIff | internal/qqbridge/store.go:229-257 | The answering receipts in the two tables are unbounded over the runs from here iff the bridges are different users and some receipt is on its way |
| Exchanges.ReachableIsWellFormed | internal/qqbridge/store.go:682-706 | Over every run all delivery jobs carry valid envelopes, receipts or chats |
| Exchanges.OneBadMessageIsEnough | internal/qqbridge/store.go:233-257 | One message that is not a chat, between two fresh bridges of different users, leads to any number of answers |
| Bridge.StepAddsDelta | internal/qqbridge/store.go:690-705 | In a reachable state no `INSERT OR IGNORE` is dropped: every step appends exactly its declared rows and steps both queues |
| BridgeRuns.RunKeepsCore | internal/qqbridge/store.go:84-174 | Over every run: unique cursors and sources, every key accounted for by a row it comes from, orphans are events, both queues safe |
| BridgeRuns.QueuesOfARun | internal/qqbridge/runtime.go:129-229 | Each queue of a run of the bridge is a run of the single queue, so its theorems apply |
| BridgeQueues.FinalJobsAreFinal | internal/qqbridge/store.go:409-496 | In both queues, over every interleaving, delivered and failed rows never change and `attempts` counts the committed claims |
| BridgeQueues.ClaimsArePaced | internal/qqbridge/store.go:423-437 | With a loop clock that does not step back, the k-th claim of a job is at least `Wait(k)` after its creation |
| BridgeQueues.ClaimsStayInTheCap | internal/qqbridge/store.go:498-610 | Under the same clock, by time t a job of either queue has been claimed at most as often as the closed-form cap allows |
| BridgeQueues.SendsStayInTheCap | internal/qqbridge/runtime.go:147-228 | And sent at most that often, if the readings for its sends keep up too |
| BridgeQueues.NoJobIsAcceptedTwice | internal/qqbridge/runtime.go:147-217 | Over every interleaving, with failing writes and restarts, at most one send of a job of either queue is answered with success |
| BridgeQueues.OvertakingIsInsideBackoff | internal/qqbridge/store.go:505-514 | With a monotone clock, a claim passes over an earlier waiting job only inside that job's current backoff window |
| BridgeQueues.ClaimsFollowTheArchive | internal/qqbridge/store.go:266-282 | Without retries the k-th outbound claim takes the k-th chat message of the archive |
| BridgeQueues.LoopsDrain | internal/qqbridge/runtime.go:129-229 | Left alone, a loop empties its queue in as many turns as jobs wait, each claimed and sent once, in ascending id, and settled by its answer |
| BridgeQueues.RestartStrands | internal/qqbridge/store.go:60-82 | In both queue tables a row that is `processing` at a restart stays so in every continuation |
| BridgeQueues.DeliveredInTheEndIffAlive | internal/qqbridge/store.go:409-496 | From any reachable state of the bridge, some continuation delivers a job of either queue iff it is delivered, waiting, or held with a way left |
| Queues.StepIsSafe | internal/qqbridge/runtime.go:129-229 | Every step keeps the loop's local copy in agreement with the row it may settle, and keeps final and spent rows |
| Queues.RunIsSafe | internal/qqbridge/runtime.go:129-229 | The same over every run, with failing writes and restarts |
| Queues.FirstDue | internal/qqbridge/store.go:505-514 | The claimed row is due, and no row with a smaller id is |
| Queues.SettledRows | internal/qqbridge/store.go:409-452 | Settling touches the held row alone: its status follows the answer, a retry is due after the backoff, error and remote id are recorded, carried item and attempts stay |
| Queues.ItemsGrow | internal/qqbridge/store.go:682-706 | What the rows carry changes only by insertion at the end |
| QueueRuns.FinalRowsAreFinal | internal/qqbridge/store.go:409-496 | For one queue from empty, over any two runs: final rows are kept and attempts equal claims |
| QueueRuns.RetryRateBound | internal/qqbridge/store.go:720-728 | The k-th claim of a job comes no earlier than `Wait(k)` after its creation |
| QueueRuns.WaitClosedForm | internal/qqbridge/store.go:720-728 | `Wait(k)` is 1000·(2^(k-1) − 1) ms up to k = 7 and 1000·(63 + 32·(k − 7)) ms from there |
| QueueRuns.ClaimCapIsExact | internal/qqbridge/store.go:720-728 | The closed-form cap inverts the wait: `Wait(k)` is within d milliseconds iff k is within the cap |
| QueueRuns.ClaimsAreCapped | internal/qqbridge/store.go:498-555 | By time t a job has been claimed at most that often |
| QueueSends.SendsNeverExceedClaims | internal/qqbridge/runtime.go:136-151 | Over every run the sends of a job, and the one about to happen, never exceed its claims |
| QueueSends.SendRateBound | internal/qqbridge/runtime.go:147-151 | The k-th send of a job comes no earlier than `Wait(k)` after its creation |
| QueueSends.SendsAreCapped | internal/qqbridge/runtime.go:147-151 | By time t a job has been sent at most as often as the closed-form cap allows |
| QueueSends.CapIsAttained | internal/qqbridge/store.go:720-728 | The bounds are tight: a job refused whenever it is tried is claimed and sent for the k-th time exactly `Wait(k)` after its creation, and in d milliseconds exactly as often as the cap allows |
| QueueSends.AcceptedAtMostOnce | internal/qqbridge/runtime.go:147-180 | Over every run at most one send of a job is answered with success, and such a job is delivered, stranded, or held with that answer |
| QueueOrder.OvertakingIsBounded | internal/qqbridge/store.go:505-514 | Bounded overtaking for one queue |
| QueueOrder.ClaimsFollowInsertion | internal/qqbridge/store.go:505-514 | Without retries the k-th claim takes the k-th row inserted |
| QueueOrder.QueueDrains | internal/qqbridge/runtime.go:129-181 | n waiting due jobs need exactly n turns, each claimed and sent once in ascending id, at its turn's time and with its turn's answer |
| QueueFate.DeliverableIffAlive | internal/qqbridge/store.go:409-452 | Some continuation, restarts included, delivers a job iff it is waiting, held with a way left, or delivered already |
| QueueFate.RestartLosesTheClaimedJob | internal/qqbridge/store.go:541-554 | A restart right after a claim commits loses the job before any send |
| QueueFate.NoFaultsNothingStranded | internal/qqbridge/runtime.go:129-181 | Without faults and restarts the only `processing` row is the one the loop holds |
| Loops.Runtime.OutboundLoopTurn | internal/qqbridge/runtime.go:129-181 | One turn of the outbound loop over the store is four steps of the machine, whatever fails in it. In a reachable state with nothing failing the first due job is delivered if the gateway accepted it, failed with its receipt to the sender queued if the gateway's own error is terminal, and due again after its backoff, the error recorded, if that error is retryable or is no bridge error |
| Loops.Runtime.DeliveryLoopTurn | internal/qqbridge/runtime.go:183-229 | The same for the delivery loop: delivered, due again after its backoff, or failed, and no other row touched |
| Loops.OutboundTurnComesTo | internal/qqbridge/runtime.go:129-181 | What four steps of the outbound loop come to in a reachable state, by what the gateway answered |
| Loops.DeliveryTurnComesTo | internal/qqbridge/runtime.go:183-229 | The same of the four steps of the delivery loop in any state |
| Loops.Runtime.ConsumeGatewayEvent | internal/qqbridge/runtime.go:113-127 | Consuming an event is one step of the machine; errors change nothing |
| Stores.Store.SaveMessage | internal/qqbridge/store.go:201-285 | The in-place transaction ends in the tables `Tables.SaveMessage` defines, or in those it began with |
| Stores.Store.SaveCursor | internal/qqbridge/store.go:287-295 | Adds an unseen cursor once, at the end |
| Stores.Store.EnqueueInboundEvent | internal/qqbridge/store.go:297-390 | The in-place transaction with both fan-out loops ends as `Tables.EnqueueEvent` defines, or rolled back |
| Stores.Store.FanOutTx | internal/qqbridge/store.go:369-386 | The two loops deliver to the listed users and then relay to the matching peers, stopping at the first error |
| Stores.Store.QueueReceipt | internal/qqbridge/store.go:392-397 | Commits the receipt or changes nothing |
| Stores.Store.EnqueueReceiptTx | internal/qqbridge/store.go:674-680 | An unusable conversation is replaced by the stand-in |
| Stores.Store.EnqueueTurnTFDeliveryTx | internal/qqbridge/store.go:682-706 | Refuses an invalid envelope, ignores a known key, else appends one pending job, due at once |
| Stores.Store.EndTx | internal/qqbridge/store.go:612-622 | All of the transaction or none of it |
| Stores.Store.UpsertBindingTx | internal/qqbridge/store.go:624-645 | Inserts, or updates conversation and time while keeping the creation time |
| Stores.Store.ListBindings | internal/qqbridge/store.go:647-672 | Lists exactly the local users of bindings under this bridge and key, in ascending order of node and user id |
| Stores.Store.ClaimOutboundJob | internal/qqbridge/store.go:498-555 | Claims the first due row: processing, one attempt more, all else as it was, and returned as claimed |
| Stores.Store.ClaimTurnTFDeliveryJob | internal/qqbridge/store.go:557-610 | The same for delivery jobs |
| Stores.Store.MarkOutboundDelivered | internal/qqbridge/store.go:409-421 | Overwrites the row's status whatever it was |
| Stores.Store.RetryOutbound | internal/qqbridge/store.go:423-437 | Pending again, due after the backoff for its attempts |
| Stores.Store.FailOutbound | internal/qqbridge/store.go:439-452 | Failed, with the error's code and text |
| Stores.Store.MarkTurnTFDeliveryDelivered | internal/qqbridge/store.go:454-465 | Overwrites the row's status whatever it was |
| Stores.Store.RetryTurnTFDelivery | internal/qqbridge/store.go:467-481 | Pending again, due after the backoff for its attempts |
| Stores.Store.FailTurnTFDelivery | internal/qqbridge/store.go:483-496 | Failed, with the error's code and text |
| Effects.SaveMessageEffect | internal/qqbridge/store.go:201-285 | With fresh keys a save commits the message, its binding, and its one job or receipt |
| Effects.EnqueueEventEffect | internal/qqbridge/store.go:343-388 | With fresh keys an enqueue commits iff its relays are possible, and then the event with its final status, its orphan row or its fan-out |
| Effects.ReceiptItemIsNormal | internal/qqbridge/store.go:674-680 | A receipt validates iff its text is visible |
| JobKeys.PrintInjective | internal/qqbridge/store.go:370-381 | Equal printed keys come from the same family, numbers (negative ones included) and suffix |
| JobKeys.PrintedForm | internal/qqbridge/store.go:243-381 | What the keys of the three families look like |
| JobKeys.PrintedCursor | internal/qqbridge/store.go:708-710 | What a message cursor looks like as an id |
| Strings.DecimalRoundTrip | internal/qqbridge/store.go:709-709 | A printed number reads back as itself |
| Strings.DecimalIsCanonical | internal/qqbridge/store.go:709-709 | No leading zeros, and a sign on negative numbers only |
| Strings.JoinInjective | internal/qqbridge/model.go:150-150 | Joining equally many separator-free parts is injective; only the last may hold the separator |
| Strings.WhiteSpaceListed | internal/qqbridge/model.go:128-128 | The white space characters, one by one |
| Strings.TrimSpaceCuts | internal/qqbridge/model.go:128-128 | Trimming cuts white space off both ends and nothing else |
| Conversations.KeysAgreeIff | internal/qqbridge/model.go:145-151 | Two normal references, whatever they hold, share a key iff the one is, up to no thread versus thread `-`, a reading of the other's key: a cut into platform, known scene, chat and thread slot, none empty or padded |
| Conversations.KeyIsSharedIff | internal/qqbridge/model.go:145-151 | A normal reference shares its key with another iff it has no thread or the thread `-`, or its key reads in another way |
| Conversations.OneReadingIff | internal/qqbridge/model.go:145-151 | A key reads in one way only iff all normal references with that key are one conversation, up to no thread versus thread `-` |
| Conversations.PlainHasOneReading | internal/qqbridge/model.go:145-151 | A key without a further bar in platform, chat or thread reads in one way only |
| Conversations.PlainKeysAgreeIff | internal/qqbridge/model.go:145-151 | A normal reference without any bar shares its key with any normal one iff they differ at most in no thread versus thread `-` |
| Conversations.HomeKeyIsSharedIff | internal/qqbridge/model.go:145-151 | Among references without a bar in the platform, one shares its key iff it has no thread or the thread `-`, or chat and thread can be cut elsewhere |
| Conversations.BarFreeKeysAgreeIff | internal/qqbridge/model.go:145-151 | Normal references without a bar in platform or chat share a key iff they differ at most in no thread versus thread `-` |
| Conversations.KeyInjective | internal/qqbridge/model.go:145-151 | Under those hypotheses and no thread `-`, keys are injective |
| Conversations.KeysCollide | internal/qqbridge/model.go:145-151 | Two pairs of different normal references with equal keys |
| Conversations.StoredPatternWorksIffNormal | internal/qqbridge/config.go:153-162 | A stored valid pattern behaves like the validated one, and matches any normal reference at all, iff it was written in normal form |
| Conversations.UnnormalisedPatternNeverMatches | internal/qqbridge/model.go:161-175 | A valid pattern not in normal form (no platform, or padding) matches no normal reference |
| Conversations.UnnormalisedPatternsExist | internal/qqbridge/config.go:153-162 | Two such patterns: one without a platform, one with a padded chat id |
| Envelopes.NormalizeRef | internal/qqbridge/model.go:124-143 | Accepts exactly known scenes with a visible chat id, yields the normal form, leaves the normal form alone |
| Envelopes.NormalizedFields | internal/qqbridge/model.go:124-143 | Each field of the normal form: trimmed, and `qq` for a platform without visible text |
| Envelopes.NormalizeEnvelope | internal/qqbridge/model.go:100-122 | Accepts exactly the valid envelopes, touches version and conversation only, is idempotent |
| Envelopes.NormalizeAccepts | internal/qqbridge/model.go:100-122 | Exactly which envelopes are accepted, field by field |
| Envelopes.ConversationRefVar.NormalizeAndValidate | internal/qqbridge/model.go:124-143 | The in-place version: the normal form, or an error with the fields rewritten so far |
| Envelopes.EnvelopeVar.NormalizeAndValidate | internal/qqbridge/model.go:100-122 | The in-place version agrees with `NormalizeEnvelope`, error by error |
| Envelopes.ValidateContent | internal/qqbridge/model.go:182-195 | Reports the first invalid segment by its index; accepts exactly non-empty content of valid segments |
| Envelopes.ValidSegmentIff | internal/qqbridge/model.go:197-230 | Which field each kind of segment must have, and that it need have no other |
| Envelopes.ParseEnvelope | internal/qqbridge/model.go:89-98 | A decoded body normalised, and normal ones as they are, or the error |
| Envelopes.ErrorTextIsVisible | internal/qqbridge/errors.go:23-37 | A bridge error never prints blank |
| Envelopes.ErrorTextTellsAll | internal/qqbridge/errors.go:23-37 | An error prints its code, then its message and its cause where it has them |
| Envelopes.CodeNamesDiffer | internal/qqbridge/errors.go:7-14 | Different receipt codes print differently |
| Envelopes.ReceiptIsNormal | internal/qqbridge/model.go:243-259 | A receipt about a normal conversation is a valid envelope iff its text is visible |
| Envelopes.TextSummary | internal/qqbridge/model.go:232-241 | The concatenated text of the text segments |
| Envelopes.TextOfParts | internal/qqbridge/model.go:232-241 | The parts of a content contribute their text in order |
| NapCatCalls.SendReturnsItsOwnReply | internal/qqbridge/gateway_napcat.go:134-165 | Over every run a send returns the id of a frame with its own echo, status ok and return code 0, fails for good only on a frame with its own echo that is not, with its wording, and reports anything else as retryable |
| NapCatCalls.UnregisterRemovesOnlyItsOwn | internal/qqbridge/gateway_napcat.go:145-149 | A send's deferred delete leaves every other call's entry in place, until the 64-bit counter wraps |
| NapCatCalls.RegisterOverwritesNothing | internal/qqbridge/gateway_napcat.go:142-144 | And registering a send overwrites no entry: its echo is not in the map |
| NapCatCalls.EchoInjective | internal/qqbridge/gateway_napcat.go:134-134 | Different counter values print different echoes |
| NapCatCalls.NapCatGateway.BeginSend | internal/qqbridge/gateway_napcat.go:134-141 | Takes the next number, prints it into the echo, and starts with an empty slot |
| NapCatCalls.NapCatGateway.RegisterSend | internal/qqbridge/gateway_napcat.go:142-144 | Enters the call into the map under the lock |
| NapCatCalls.NapCatGateway.ReceiveResult | internal/qqbridge/gateway_napcat.go:155-160 | Empties its own slot and returns what was in it |
| NapCatCalls.NapCatGateway.UnregisterSend | internal/qqbridge/gateway_napcat.go:145-149 | Removes its own entry under the lock and returns the result decided before |
| NapCatCalls.NapCatGateway.LookUpFrame | internal/qqbridge/gateway_napcat.go:236-249 | Finds the call by echo, or drops the frame; the result follows the frame's status |
| NapCatCalls.NapCatGateway.PushResult | internal/qqbridge/gateway_napcat.go:243-249 | Fills the empty slot and goes on reading |
| NapCatCalls.NapCatGateway.FailEntry | internal/qqbridge/gateway_napcat.go:255-258 | Fills one empty slot with the disconnect error and removes the entry, lock in hand |
| NapCatCalls.ReconnectDelayReaches32 | internal/qqbridge/gateway_napcat.go:186-188 | The delay starts at 1 s and doubles; it exceeds 30 s exactly from the sixth wait on, where it is 32 s |
| NapCatProgress.RepliesNeverBlock | internal/qqbridge/gateway_napcat.go:236-250 | With no cancellation and at most one answer per request, after a write that returns nil, the reader always finds the slot empty |
| NapCatProgress.DisconnectFinishes | internal/qqbridge/gateway_napcat.go:252-259 | In such runs the disconnect handler always gets the lock released and every entry failed, helped only by sends reading their slots |
| NapCatProgress.ReaderStuckIff | internal/qqbridge/gateway_napcat.go:210-259 | In every reachable state the reader's goroutine never moves again iff it is wedged on an entry or jammed on a reply |
| NapCatProgress.PushFinishesIff | internal/qqbridge/gateway_napcat.go:236-250 | In every reachable state the reader can get rid of the reply it pushes iff the slot is empty or the send still listens |
| NapCatProgress.FailPushFinishesIff | internal/qqbridge/gateway_napcat.go:252-259 | In every reachable state the handler can pass an entry iff its slot is empty or its send still listens |
| NapCatProgress.WedgedForever | internal/qqbridge/gateway_napcat.go:252-259 | A handler waiting for a send that has left holds the lock in every continuation |
| NapCatProgress.JammedForever | internal/qqbridge/gateway_napcat.go:243-249 | A reader waiting for a send that has left never reads a frame again |
| NapCatProgress.CancelThenDisconnectWedges | internal/qqbridge/gateway_napcat.go:161-162 | A reply in the slot, a cancellation and a disconnect wedge the gateway |
| NapCatProgress.SecondAnswerThenCancelJams | internal/qqbridge/gateway_napcat.go:161-162 | A reply in the slot, a second answer and a cancellation jam the reader |
| NapCatProgress.EarlyReplyWaits | internal/qqbridge/gateway_napcat.go:236-250 | A reply in the slot of a waiting send is reached from the start |
| NapCatProgress.StuckStatesAreReachable | internal/qqbridge/gateway_napcat.go:236-259 | Wedged and jammed states are both reached from the start |
| NapCatRender.RenderNapCatSegments | internal/qqbridge/gateway_napcat.go:355-411 | Succeeds iff every segment is of a known kind with a decodable payload if JSON, and then wire i has the documented type and keys with segment i's own values; refusals are terminal |
| NapCatRender.RenderedAllOnTheWire | internal/qqbridge/gateway_napcat.go:355-411 | Rendered content is in wire form, segment by segment |
| NapCatRender.ParseNapCatSegments | internal/qqbridge/gateway_napcat.go:413-454 | For wires of any origin: those of known types are read one for one and in order, an address from `url` before `file`, every other field from its own key; with none left the raw text is the one text segment; only blank text is then refused, for good |
| NapCatRender.ParsedAllRead | internal/qqbridge/gateway_napcat.go:413-454 | Reading yields a segment for each wire of a known type, in order, and nothing for the others |
| NapCatRender.StringValueLaws | internal/qqbridge/gateway_napcat.go:479-502 | How a field is read: null and blank strings are passed over, strings trimmed, numbers by their whole part, anything else as its text without quotes around it |
| NapCatRender.ParseAfterRender | internal/qqbridge/gateway_napcat.go:355-454 | Parse after render succeeds on all valid content, keeps count, order and kinds, trims strings, drops untransmitted fields, keeps JSON values, yields valid content, and is idempotent |
| NapCatRender.ComesBackUnchangedIff | internal/qqbridge/gateway_napcat.go:413-502 | Content comes back as sent iff each segment sets only transmitted fields and has no padding |
| NapCatRender.PrepareSend | internal/qqbridge/gateway_napcat.go:115-133 | Refuses for good exactly invalid or unsupported messages, asks for a retry exactly when a good one meets no connection, else has its action with the right name, target and a message in wire form that reads back |
| Gateways.NewGatewayCapabilities | internal/qqbridge/gateway.go:12-18 | Supports exactly the kinds given |
| Gateways.SupportsAll | internal/qqbridge/gateway.go:25-37 | No error iff every segment is of a supported kind; the error is terminal |
| Gateways.BuildQQBotAPIMessage | internal/qqbridge/gateway_qqbot.go:243-305 | The one-pass builder computes the fold `Finish(ScanAll(...))`; a rich message carries the url of a medium of the content under type 1 iff it is an image, 2 iff a video, 3 iff audio |
| Gateways.ScanClosedForm | internal/qqbridge/gateway_qqbot.go:249-267 | On valid content of supported kinds the scan holds the one reply, the one medium and all the text, or stopped at a second reply or medium; its default branch is never taken |
| Gateways.BuildsExactly | internal/qqbridge/gateway_qqbot.go:269-304 | It succeeds iff there is at most one reply, at most one medium, not both, and some medium or text; the text is the text summary, trimmed only without a medium |
| Gateways.BuiltPostsTheContent | internal/qqbridge/gateway_qqbot.go:269-304 | What is built posts the content, said without the builder's own definitions |
| Gateways.PrepareQQBotSend | internal/qqbridge/gateway_qqbot.go:123-137 | Before the call to the platform, refuses for good exactly messages that are invalid, of a kind other than text, image, audio, video and reply, or do not fit one API message; otherwise the message posts the content: its one medium by url and type with all the text, or the trimmed text with its reply |
| StoredJobs.StoredJobIsSendable | internal/qqbridge/gateway_napcat.go:115-133 | Every outbound job of every run passes all of NapCat's checks |
| StoredJobs.QQBotAcceptsIff | internal/qqbridge/gateway_qqbot.go:123-137 | A stored job passes the QQ Bot checks iff its segments are of the five declared kinds and fit one API message; otherwise the refusal is terminal |

## Left out

- The database: SQL text, pragmas, WAL and indexes. Each transaction is one atomic, serialisable step that commits or
  changes nothing. Columns are taken to be non-null; a nil body, which `OR IGNORE` would drop without a word, is no message here.
- Gaps that SQLite may leave in AUTOINCREMENT ids, and int64 overflow of ids and times: ids are consecutive and unbounded.
- A configuration that changes between restarts: bridge user and relay peers are fixed over a run.
- JSON text: encoding and decoding are taken to be inverse on the values stored and sent, and a body either decodes to an
  envelope or does not. Numbers inside JSON payloads are abstract; envelope metadata values are strings.
- SHA-256 in `Hash`: a parameter of the configuration.
- `%q` escaping in error texts: `Quote` puts plain quotation marks.
- Error-text matching in `mapQQBotError` and `classifyTurnTFSendError`: only retryable versus terminal is kept, as a parameter of the send.
- The branch of the delivery loop for an envelope that cannot be encoded: the same transition as a terminal refusal.
- The network between two bridges: in `Exchanges` it hands over once, under a cursor new to the receiver, each message
  whose delivery job is marked delivered. Messages that arrive although their job is not marked are not carried.
- The endless loops and their sleeps: one turn each is modelled, and runs are any interleaving of turns.
- Other actors between two statements of one loop turn: a method body is sequential, so the turns of `Loops` run
  undisturbed. The interleaved steps are those of `Bridge`, over which all theorems range.
- `LoadSeenMessages`, `Close`, logging, configuration files, command line, OAuth, WebSocket dialling and headers.
- `extractID` and the copying of inbound event fields: they depend on library decoding.
- The frames of gateway events in `readLoop` and the blocking of the events channel: they touch neither the map nor the slots.
- Progress of a send whose peer never answers: the runtime passes a context without a deadline, so there is none to prove.
- Blocking inside a method of `NapCatGateway`: each method starts at the moment the lock is free or the channel is ready,
  which its precondition says. Waiting for that moment is part of the machine, whose steps change nothing until then.
