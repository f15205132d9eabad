# A verified model of tgNtfy

tgNtfy takes events over HTTP, limits them per service, stores each event id once, routes it to the
Telegram user who owns the event's identity, gathers a user's events in short windows, writes one
delivery row per window and sends it, paced and retried, to the user's chat or forum topic. This
project states in Dafny what that pipeline does and proves what holds over all of its runs.

| file | models |
|---|---|
| `Coalesce.dfy` | the coalescer: its critical sections as functions and as a class whose methods are proved to be them |
| `CoalesceRuns.dfy` | every interleaving of Add, forced flush and window timer |
| `FlushOrder.dfy` | in which order a key's batches are flushed |
| `CoalesceRate.dfy` | how many batches a burst becomes |
| `Limit.dfy` | ring-buffer windows, the two-window limiter, the registry |
| `Deliveries.dfy`, `Pacing.dfy`, `Transport.dfy` | delivery rows, the token bucket, the retry loop |
| `Egress.dfy` | queue, worker and rows as interleaving steps |
| `Tables.dfy`, `Store.dfy`, `StoreRuns.dfy` | the tables as maps, the store and handlers as they run, and whole runs of them |
| `TopicRaces.dfy` | topic creation and group binding statement by statement |
| `Topic.dfy`, `Menu.dfy`, `Dispatch.dfy` | topic names, the menu's toggles, flushing a batch |
| `Pipeline.dfy` | all of it together, from a posted event to its delivery |

Code that changes state is a class or a method with a loop, proved equal to a function of the old
state (`Store`, `Coalescer`, `Window`, `TokenBucket`, `TelegramTransport`, `DeliveryTable`, `Queue`,
`BatchFlusher`, `SanitizeTopicName`, `RemoveStr`); the same functions are the steps of the
transition systems, so what is proved about all runs is about what those methods do. A fact over
runs is stated for every position `n` of every step sequence from the empty state.

The main results, in order of weight:

1. `Pipeline`: each routed event is in exactly one place, the books balance at every moment, deliveries
   never cross users, and at rest each event is in one delivery (two if its batch's timer was missed)
   that was sent once, or failed for good, or says pending: dropped by the full queue, or reset after
   its failure.
2. `CoalesceRuns`: nothing is lost, reordered, duplicated or moved; how far a batch can exceed its cap;
   how often it is flushed; every schedule drains. `FlushOrder`: exactly when batches keep their order.
3. `Transport`, `Pacing`, `Egress`: the retry loop forgets 429s, terminates, and its rows tell the truth;
   sends are paced; the queue is first in, first out; nothing is sent twice.
4. `Limit`: the ring buffer decides as the complete log does, the caps hold in every window, and
   services do not disturb each other.
5. `StoreRuns`, `TopicRaces`, `Dispatch`: ownership, codes and topics over whole runs, and exactly when
   racing calls leave a thread that belongs to another chat.
6. `Topic`, `Menu`: sanitising settles after two passes, and exactly when after one; toggles act as
   exclusive or, and exactly when a press does only what its button says.

## Where code and documentation disagree

The model follows the code.

- Event ids are unique for ever, not for 24 hours (the repository's `README.md:226`, `internal/store/events.go:30-46`):
  `StoreRuns.EventAcceptedOnce`.
- A link code links an identity of any service although there is an error for a code bound to a
  different one (`internal/store/identity.go:41-61`): `StoreRuns.CodeLinksAnotherService`.
- A second claim of govpn's admin identity succeeds without effect instead of answering 409
  (the repository's `README.md:147`, `internal/store/users.go:59-74`): `StoreRuns.FirstClaimerKeepsAdmin`.
- A call of `EnsureTopic` that loses the race returns its own topic, not the recorded one
  (`internal/store/topics.go:15-42`): `TopicRaces.LoserRun`, and exactly when in
  `TopicRaces.AnswerOnRecordIff`.
- When sanitising leaves nothing of a stored name, the topic gets the stored name and not the service id
  (`internal/dispatch/dispatch.go:26-35`): `Dispatch.StoredNameSettlesIff`, `Dispatch.BlankNameIsStored`.
- `Stop` does not drain the queue (`internal/transport/transport.go:186-187`): `Egress.DeliveryStranded`,
  and exactly when it does in `Egress.HaltDrainsIff`. The step `Halt` is the worker's exit; between
  closing the channel and that exit the `select` may still receive.
- The pacing bucket is one for all chats, not one per chat (the repository's `README.md:65`,
  `internal/transport/transport.go:146-148`), and at the sends its bound holds only up to the lateness of
  the first send after its take: `Transport.SendsObeyBucket`, `Transport.LateFirstSend`.
- After a reset a row's attempts need not be those made (`internal/store/deliveries.go:57-67`):
  `Egress.RowForgets`, and exactly when in `Egress.AttemptsTrueIff`.
- The wait is not capped for every attempt number (`internal/transport/transport.go:69-76`), though for all
  that occur: `Transport.BackoffIsCappedDoublingIff`.
- "Requeued n" resets rows and sends nothing (`internal/menu/handler.go:147-155`): `Egress.NothingIsResent`;
  the rows leave the list of failures for good, `Egress.ResetRowIsLost`.
- Not every linked service gets a subscription row (the repository's `README.md:149`): claiming govpn's
  admin identity makes none (`internal/store/users.go:69-72`), so its owner's mute and type presses
  are lost: `StoreRuns.ClaimerCannotMute`, and that it is the only case in `StoreRuns.MuteWorksBut`.
- A batch can hold more than `cap` items and can be flushed twice
  (`internal/coalesce/coalesce.go:65-105`): `CoalesceRuns.CapCanBeExceeded`,
  `CoalesceRuns.BatchCanBeFlushedTwice`; the exact bounds are `OverrunIsCallersWaiting`, `BatchBound`
  and `FlushedAtMostTwice`.
- The "Unmute" button mutes (`internal/menu/menu_kb.go:51-54`, `internal/menu/menu_kb.go:87-90`): `Menu.ButtonEffects`.
- "Bound to a different service" is answered only in the second of expiry (`internal/store/identity.go:48-63`):
  `StoreRuns.LinkRequestAnswers`.
- The keyboard shows every type as off while the empty list means that all are on, so the first press
  turns the others off (`internal/menu/menu_kb.go:72-90`): `Menu.PressFlipsOnlyItsTypeIff`.

## Model

| member | source | states |
|---|---|---|
| Pipeline.NoEventIsLost | internal/ingest/ingest.go:324-348 | at every moment the batch sizes of all rows, the unflushed items and the events about to be added equal the stored events with a target, plus batches flushed twice, of which there are none unless a fired timer escaped Stop |
| Pipeline.EventInOnePlace | internal/ingest/ingest.go:341-348 | a routed event is in exactly one Add call before its lock or at exactly one position of one batch; any other event is nowhere |
| Pipeline.TwoDeliveriesMeanMissedTimer | internal/coalesce/coalesce.go:70-105 | two deliveries with the same event are two flushes of one batch whose timer had fired before Stop |
| Pipeline.EveryEventIsDelivered | internal/ingest/ingest.go:337-348 | once the coalescer is quiet every routed event, with its content, is in a flushed batch whose row is of the owner, the service and the type of the event as posted |
| Pipeline.EveryEventSettles | internal/transport/transport.go:123-223 | at rest, in every run, every routed event is in a delivery of its own owner, service and type that was sent exactly once, or failed for good telling its attempts, or says pending because the queue was full or a reset picked it after its failure; unless its own batch's timer was missed it is in no other |
| Pipeline.EveryScheduleRests | internal/coalesce/coalesce.go:65-112 | once no more events are posted, every schedule of the whole gate has a bounded number of steps other than store actions, 429s, resets and the halt |
| Pipeline.NotAtRestCanStep | internal/transport/transport.go:174-184 | until the gate is at rest, and unless the worker was stopped, such a step is possible |
| Pipeline.EventSentAtMostOnce | internal/transport/transport.go:190-237 | two deliveries of an event are of one batch; unless that batch's timer was missed they are the same delivery; and a delivery has at most one successful send |
| Pipeline.DeliveriesAreIsolated | internal/dispatch/dispatch.go:61-87 | for any delivery and any event in it: the one step that stored this event added it, with its own service, type and content, for this delivery's user alone, who then actively owned its identity; and the step that flushed this very batch made this delivery for the user's chat as the tables then said, in a thread created in that chat if in any |
| Pipeline.EverySendIsADelivery | internal/transport/transport.go:225-230 | every send made is of the delivery made with its row, with that chat, thread and text |
| Pipeline.RouteHistory | internal/ingest/ingest.go:324-348 | behind every routed event is the step that stored it, with the active owner as its only target, under the event's own service and type and with its content |
| Pipeline.DeliveryHistory | internal/dispatch/dispatch.go:61-69 | behind delivery j is the flush step that made delivery j, for the chat and thread the tables named at that step |
| Pipeline.PostFacts | internal/store/schema.go:68-75 | an event is added for at most one user, the active owner of its identity, and only under a new id |
| Pipeline.CoRun | internal/coalesce/coalesce.go:65-112 | the coalescer inside any run of the gate has a run of its own, so every result about it carries over |
| Pipeline.EgRun | internal/transport/transport.go:174-184 | likewise for queue, worker and rows |
| Pipeline.DbRun | internal/ingest/ingest.go:324-349 | likewise for the tables |
| CoalesceRuns.NothingLost | internal/coalesce/coalesce.go:65-112 | in every interleaving and for every key, the batches in the order they left the map followed by the open one spell out exactly what was added |
| CoalesceRuns.OverrunIsCallersWaiting | internal/coalesce/coalesce.go:84-97 | a registered batch of n items at or over the cap has exactly n - cap + 1 Add calls between their unlock and forceFlush's lock; under the cap it has none; a cap below one acts like one |
| CoalesceRuns.BatchBound | internal/coalesce/coalesce.go:84-105 | with at most N Adds in progress no batch ever exceeds cap - 1 + N items; a cap below one acts like one |
| CoalesceRuns.FlushedAtMostTwice | internal/coalesce/coalesce.go:70-105 | flushes done and due of a batch that left the map are exactly one, or two if its timer had fired before Stop; every flush carries the whole batch under its key |
| CoalesceRuns.QuietMeansFlushed | internal/coalesce/coalesce.go:65-112 | with no call in progress and no timer pending the map is empty and every batch was flushed its full number of times |
| CoalesceRuns.NotQuietCanStep | internal/coalesce/coalesce.go:65-112 | until quiet, some step other than a new Add is possible |
| CoalesceRuns.EveryScheduleDrains | internal/coalesce/coalesce.go:65-112 | without new Adds the number of further steps is bounded in every schedule |
| CoalesceRuns.FlushedPlusWaiting | internal/coalesce/coalesce.go:107-112 | items flushed plus items waiting equal items added plus those flushed twice |
| CoalesceRuns.InvStep | internal/coalesce/coalesce.go:65-112 | every step keeps registration, timer, order, cap, flush and content invariants |
| CoalesceRuns.CapCanBeExceeded | internal/coalesce/coalesce.go:84-97 | two overlapping Adds make a batch of two under a cap of one |
| CoalesceRuns.BatchCanBeFlushedTwice | internal/coalesce/coalesce.go:70-104 | whenever an Add is about to force-flush a batch with an armed timer, the timer firing first leads to two flushes |
| FlushOrder.FlushOrderIff | internal/coalesce/coalesce.go:70-105 | in every run a key's batches are first flushed in the order they left the map, without a gap, exactly if no flush overtook an earlier batch of the key |
| FlushOrder.UnovertakenIsInOrder | internal/coalesce/coalesce.go:65-112 | and then the items flushed so far are the beginning of what was added under the key, in order |
| FlushOrder.BatchOvertaken | internal/coalesce/coalesce.go:101-111 | a run in which the second batch of a key is flushed before the first |
| Coalesce.Coalescer.AddLocked | internal/coalesce/coalesce.go:66-86 | appends to the registered batch or opens one, leaves all else alone, and reports whether the batch holds cap items or more |
| Coalesce.Coalescer.ForceFlushLocked | internal/coalesce/coalesce.go:95-104 | unregisters the batch and stops its timer only if it is still registered, and says whether to flush |
| Coalesce.Coalescer.TimerLocked | internal/coalesce/coalesce.go:70-80 | unregisters the batch if it is still registered and goes on to flush in either case |
| Coalesce.Coalescer.Add | internal/coalesce/coalesce.go:65-105 | with nothing in between, and whatever overlapping calls have left behind, the item waits or its batch reaches cap items and is flushed whole |
| Coalesce.Joined | internal/coalesce/coalesce.go:66-86 | an item joins the end of its own key's open batch and no other key's changes |
| Coalesce.AloneStaysBelow | internal/coalesce/coalesce.go:84-105 | Adds one at a time keep every open batch non-empty and under the cap |
| CoalesceRate.BatchesForBurst | internal/coalesce/coalesce.go:65-105 | n events of one key over a span make at most n/cap + span/window + 1 batches and at least n/cap |
| CoalesceRate.OpenWithinWindow | internal/coalesce/coalesce.go:65-91 | the open batch holds exactly the latest arrivals since its first, all within less than one window |
| Transport.TelegramTransport.DeliverWithRetry | internal/transport/transport.go:190-223 | whenever a final answer or five answers other than 429 are ahead it terminates; outcome and final row depend only on those answers, no other row changes, and the one terminal store call comes last; every send carries the delivery's text to its chat and thread, and between two sends the wait the answer demands has passed |
| Transport.EndsIff | internal/transport/transport.go:190-223 | what the loop asks of the answers is exact: somewhere ahead one is final, or uses up the last attempt |
| Transport.TelegramTransport.Attempt | internal/transport/transport.go:192-218 | one send, exactly one store call for its answer, the row changed as that answer demands, and then exactly the wait it demands: retry_after if positive, else the backoff; the retry is scheduled for its end |
| Transport.AnswerWrites | internal/store/deliveries.go:28-54 | what each answer writes to the row, column by column, and that it writes no other |
| Transport.BackoffValues | internal/transport/transport.go:66-76 | the waits after attempts 0 to 5 are 5, 10, 20, 40, 80 and 160 seconds, from 6 on five minutes |
| Transport.TelegramTransport.Deliver | internal/transport/transport.go:192-237 | every send follows a take of its own and carries the text to the chat and thread of the delivery, and only a success is recorded |
| Transport.FloodsChangeNothing | internal/transport/transport.go:197-208 | inserting any number of 429s anywhere changes neither the outcome nor the final row |
| Transport.RoundFacts | internal/transport/transport.go:191-219 | each answer either keeps the loop's invariant, with a 429 bringing the next other answer nearer, or settles the delivery |
| Transport.FreshRowBookkeeping | internal/store/deliveries.go:28-54 | a fresh row ends sent or permanently failed with the attempts really made, at most five, nothing scheduled and the last error; it is given up after exactly five failures or one Forbidden; in between a failed row always has its retry scheduled |
| Transport.SendsObeyBucket | internal/transport/transport.go:190-193 | any stretch of the transport's sends obeys the bucket's own bound when its first send follows its take at once, and otherwise up to that send's lateness, at most one token |
| Transport.LateFirstSend | internal/transport/transport.go:158-193 | a transport with the production bucket whose sends break the tight bound, for any lateness of the first send; from a token's refill on, 31 sends coincide |
| Transport.BackoffIsCappedDoublingIff | internal/transport/transport.go:70-76 | the 64-bit wait is five seconds doubled up to five minutes exactly unless n is over 54 or the bit of 5^10 shifted into the sign is set, and is then zero or negative: never up to 30, first at 31, next at 34 |
| Pacing.TokenBucket.Take | internal/transport/transport.go:96-112 | a take finds a whole token no later than the second look, exactly when the missing part has been refilled but for the clock's own time, and leaves the level that one refill up to the take would |
| Pacing.TakesArePaced | internal/transport/transport.go:96-112 | any j - i + 1 takes fit into the capacity plus the refill between the first and the last |
| Pacing.LevelInRange | internal/transport/transport.go:100-107 | the level stays between zero and the capacity |
| Pacing.SendsArePaced | internal/transport/transport.go:190-193 | measured at the sends, j - i + 1 of them fit the capacity, the refill between them and the lateness of the first; the takes' own bound holds when that is zero |
| Pacing.LatenessCostsOneToken | internal/transport/transport.go:190-193 | however late the first send, the excess is at most one token |
| Pacing.ThirtyOneSendsAtOnce | internal/transport/transport.go:158-158 | times of takes and sends for which the excess is the whole token; `Transport.LateFirstSend` has a transport behind it |
| Egress.QueueIsFifo | internal/transport/transport.go:123-138 | what was received followed by what is queued is exactly what was offered while there was room, in order; the length never exceeds the capacity |
| Egress.DroppedStaysPending | internal/transport/transport.go:123-129 | a delivery dropped by the full queue leaves a row as it was created, pending with no attempt, and is never sent |
| Egress.SentAtMostOnce | internal/transport/transport.go:174-184 | a row has at most one successful send and is marked sent exactly then |
| Egress.EverySendWasOffered | internal/transport/transport.go:174-184 | every send is of the delivery that was offered with its row |
| Egress.SentIsFinal | internal/store/deliveries.go:57-67 | a sent row never changes again, not even by a reset |
| Egress.NothingIsResent | internal/store/deliveries.go:57-67 | once the worker is done with a row it is never sent again, whatever is reset |
| Egress.RowsTellTheTruth | internal/store/deliveries.go:28-54 | without resets, attempts are the sends not answered 429, at most five, and failed with nothing scheduled means exactly given up |
| Egress.AttemptsTrueIff | internal/store/deliveries.go:28-67 | in every run, resets included, a row's attempts are its sends not answered 429 exactly if no reset picked it or a failure was written to it since; otherwise it shows 0, or 1 once sent; and failed with nothing scheduled means exactly given up and not reset since |
| Egress.IdleMeansSettled | internal/transport/transport.go:174-223 | with queue empty and worker idle, in every run, a row is sent exactly if one send succeeded, failed for good exactly if it was kept and neither sent nor reset since, and otherwise pending |
| Egress.ResetRowIsLost | internal/store/deliveries.go:57-67 | a row reset after the worker was done with it says pending and never changes again, so no later reset finds it |
| Egress.EveryScheduleSettles | internal/transport/transport.go:174-223 | without new deliveries the number of steps other than 429s, resets and the halt is bounded in every schedule |
| Egress.ResetMidwayForgets | internal/store/deliveries.go:57-67 | a reset during the retries makes a row sent after several attempts claim one |
| Egress.RowForgets | internal/store/deliveries.go:57-67 | a run from the start in which a row sent at the second attempt shows one |
| Egress.HaltStrandsQueue | internal/transport/transport.go:186-187 | after Stop the queued deliveries stay in the queue |
| Egress.HaltDrainsIff | internal/transport/transport.go:174-187 | after the worker has left, everything kept has been received exactly if the queue was empty then and has kept nothing since |
| Egress.DeliveryStranded | internal/transport/transport.go:186-187 | a run from the start that ends with a delivery stranded in the queue |
| Egress.AnswerIsARound | internal/transport/transport.go:191-219 | the worker's steps on a delivery are the rounds of the retry loop |
| Egress.GiveUpIsTheEnd | internal/transport/transport.go:220-222 | giving up ends that loop with what exhaustion promises |
| Egress.Queue.Recv | internal/transport/transport.go:130-138 | takes the oldest, so that received followed by queued is unchanged |
| Deliveries.DeliveryTable.RetryAllFailed | internal/store/deliveries.go:57-67 | resets exactly the first max failed rows in id order and returns how many |
| Deliveries.ResetPicksFirst | internal/store/deliveries.go:57-67 | the rows picked are failed ones, the earliest first, all or exactly max of them, and only status, attempts and next retry are reset |
| Limit.Window.Allow | internal/limit/limit.go:24-45 | accepts exactly when fewer than cap of the last cap accepted times are within the window, and then records the time |
| Limit.RingRefinesFullLog | internal/limit/limit.go:24-45 | with a clock that does not go back, looking at the last cap accepted times decides as looking at all of them |
| Limit.RingCountsLast | internal/limit/limit.go:29-38 | counting once round from the cursor counts the recent ones among the last cap accepted times |
| Limit.RingReadFromCursor | internal/limit/limit.go:32-44 | the ring read once round from the cursor is unused slots followed by exactly the last cap accepted times, oldest first |
| Limit.RingAdvance | internal/limit/limit.go:42-43 | overwriting at the cursor and moving it on keeps that, with the new time last |
| Limit.SpreadKept | internal/limit/limit.go:39-44 | accepting keeps at most cap accepted times in every closed interval of the window's length |
| Limit.Limiter.Allow | internal/limit/limit.go:62-67 | accepted by both windows; a call the minute window rejects has entered the second window |
| Limit.DecideIsNaive | internal/limit/limit.go:62-67 | one decision and its effect are those of two complete logs, 30 in a second and 100 in a minute |
| Limit.RunIsNaive | internal/limit/limit.go:62-67 | over a whole trace with a clock that does not go back every verdict is that of two complete logs |
| Limit.VerdictsAreNaive | internal/limit/limit.go:80-89 | in any mixed trace each service gets the verdicts of its own two complete logs |
| Limit.Registry.AllowForService | internal/limit/limit.go:80-89 | asks the service's own limiter, made on first use, and leaves all others as they were |
| Limit.ServicesDoNotInterfere | internal/limit/limit.go:80-89 | in any mixed trace a service gets the verdicts and the windows it would get alone |
| Limit.CapsHoldPerService | internal/limit/limit.go:54-67 | per service at most 30 accepted calls in any second and 100 in any minute |
| Store.Store.LinkIdentity | internal/store/identity.go:31-103 | consume, then check and write, with every later failure rolled back, does what the tables' function says |
| Store.Store.EnsureServiceUser | internal/store/identity.go:106-119 | two statements without a transaction do what the tables' function says, also when the second fails |
| Store.Store.ConsumeConnectCode | internal/store/codes.go:41-64 | uses up an open code of its user, or says why not and changes nothing |
| Store.Store.EnsureTopic | internal/store/topics.go:18-42 | the recorded thread, or a new one recorded, or failure with no change |
| Store.Store.ResolveRoutes | internal/store/routing.go:25-70 | the loop over joined rows yields at most one target, creating its topic on the way and falling back to thread 0 |
| Store.Store.QueryTargets | internal/store/routing.go:26-35 | the join and its filters select the active owner exactly when the event is to be routed |
| Store.Store.HandleLink | internal/ingest/ingest.go:186-241 | known service, open code, redemption with the sanitised name, then a topic if a group is bound |
| Store.Store.FinishSetup | internal/menu/setup.go:66-84 | consume the code, bind the group, forget topics; a bad code changes nothing |
| Store.Store.HandleEvent | internal/ingest/ingest.go:286-349 | limit, drop rule, duplicate check, routing, and the calls of Add: for each target's user the key with the event's service and type, and the item with its content |
| StoreRuns.OwnerNeverChanges | internal/store/identity.go:66-87 | in any run an identity keeps its owner through unlinking, relinking and all else but an administrator's link |
| StoreRuns.LinkCodeWorksOnce | internal/store/identity.go:40-64 | a link code is redeemed at most once in any run and cannot be issued again once used |
| StoreRuns.LinkSucceedsIff | internal/store/identity.go:41-79 | a redemption succeeds exactly for an open code of that user, a known service and an identity not another's; the code's service plays no part |
| StoreRuns.FailureChangesNothing | internal/store/identity.go:36-102 | a failing redemption or link request leaves every table as it was |
| StoreRuns.LinkEffect | internal/store/identity.go:80-102 | a successful redemption changes this code, this identity, this subscription's mute and this service's name, and nothing else |
| StoreRuns.LinkedEventsAreRouted | internal/store/routing.go:25-70 | after a link request exactly the admitted types of that identity reach its user and nobody else |
| StoreRuns.SilencedThenNotRouted | internal/store/admin.go:27-31 | unlinking stops exactly that identity's events; muting stops exactly that user's events from that service, if there is a subscription row, and otherwise none |
| StoreRuns.OnlyAdminUnsubscribed | internal/store/identity.go:80-118 | in every run each linked identity but govpn's admin comes with a subscription of its owner |
| StoreRuns.MuteWorksBut | internal/store/subscriptions.go:61-70 | in every run the owner's mute silences every routed event, except govpn's admin events while their owner has no subscription |
| StoreRuns.ClaimerCannotMute | internal/store/users.go:59-74 | a run in which the first user claims govpn's admin identity, mutes it and presses a type: no table changes and its events keep coming |
| StoreRuns.AdminLinkTakesOver | internal/store/admin.go:11-24 | the new owner gets the identity, with mute and types as they were |
| StoreRuns.EnsureFailsHalfwayIff | internal/store/identity.go:106-119 | fails exactly for an unknown user or service, and leaves the first statement standing exactly when it reactivated an unlinked identity; nothing else is left |
| StoreRuns.EnsureEffect | internal/store/identity.go:106-119 | otherwise the identity is active with its owner, and a subscription is added or left as it is, muted or not |
| StoreRuns.ClaimSucceedsIff | internal/store/users.go:59-74 | a claim succeeds exactly if the identity is claimed or user and service exist, and changes nothing but that identity |
| StoreRuns.ServiceEffect | internal/store/services.go:59-101 | a service is registered once under its name; enabling or disabling changes that flag alone |
| StoreRuns.FirstClaimerKeepsAdmin | internal/store/users.go:59-74 | the first claimer keeps govpn's admin identity and later claims do nothing |
| StoreRuns.LinkRequestSucceedsIff | internal/ingest/ingest.go:186-223 | a link request succeeds exactly for a known service, an open code and an identity not another's, and it links the code's user |
| StoreRuns.LinkRequestAnswers | internal/ingest/ingest.go:186-223 | every answer to a link request for all inputs; a code of another service is only ever reported in the second of its expiry |
| StoreRuns.LinkReportsTopicIff | internal/ingest/ingest.go:226-244 | the request reports a topic exactly when one is on record afterwards |
| StoreRuns.PostedEventAnswers | internal/ingest/ingest.go:286-349 | an event is accepted exactly when it passes the limiter and the drop rules and its id is new; anything else stores nothing; it is added for its one routed user or for nobody |
| StoreRuns.RoutedTo | internal/store/routing.go:25-70 | an event goes to nobody or to its owner alone, in the chat and mode of the owner's row and in the topic on record afterwards; in a group that topic is made if there was none and Telegram makes it |
| StoreRuns.EnsureMakesTopic | internal/store/topics.go:18-42 | asking for a topic leaves one on record whenever there was one or Telegram makes one, answers with it, and changes nothing else |
| StoreRuns.PostingMakesTopic | internal/ingest/ingest.go:337-348 | an accepted event whose owner is in a group leaves a topic of that group on record as soon as Telegram makes one |
| StoreRuns.LinkingMakesTopic | internal/ingest/ingest.go:226-241 | so does a successful link request of a user in a group |
| StoreRuns.EventAcceptedOnce | internal/store/events.go:30-46 | an event id is accepted once in any run, for ever |
| StoreRuns.CodeLinksAnotherService | internal/store/identity.go:41-43 | a code issued for one service links an identity of another |
| StoreRuns.CodeLifetime | internal/store/codes.go:25-30 | a link code works for its user until its ttl less one second and never past its ttl |
| StoreRuns.ConnectCodeLifetime | internal/store/codes.go:33-64 | a connect code, new or issued again, binds a group until its ttl less one second and never past its ttl, and for no other user |
| StoreRuns.ConnectCodeWorksOncePerIssue | internal/store/codes.go:33-64 | between two uses of a connect code it was issued again |
| StoreRuns.SetupSucceedsIff | internal/menu/setup.go:66-84 | binding succeeds exactly for an open code of that user; then messages go to the new group, only that user's topics are gone, nobody else's chat changes |
| StoreRuns.GroupIsLastConnect | internal/menu/setup.go:66-84 | in every run a user has the group of that user's own last successful /connect, and none before the first |
| StoreRuns.FkRun | internal/store/schema.go:52-136 | every reachable state satisfies the foreign keys |
| StoreRuns.TopicFixedUntilRebind | internal/store/topics.go:18-42 | with atomic handlers a topic row is fixed until its user binds a group |
| StoreRuns.OneTopicPerBinding | internal/store/topics.go:18-42 | between two creations of a topic for one user and service the user bound a group |
| StoreRuns.TopicsFollowTheGroup | internal/menu/setup.go:75-84 | across any number of rebinds every topic row belongs to the group bound now |
| TopicRaces.RowFixedUntilClear | internal/store/topics.go:18-42 | under any interleaving a topic row is fixed until it is cleared, and at most one is written in between |
| TopicRaces.EveryTopicAccountedFor | internal/store/topics.go:32-41 | topics made at Telegram are recorded, orphaned or about to be inserted |
| TopicRaces.ThreadAtHomeIff | internal/store/topics.go:32-41 | with no binding half done, a recorded thread is of the bound group exactly when the recording call had read the group bound at that time |
| TopicRaces.StaleThreadCanStay | internal/menu/setup.go:75-84 | from any state a call that read the old group can leave its thread behind a complete binding |
| TopicRaces.LoserReturnsItsOwn | internal/store/topics.go:15-42 | the slower of two calls returns an orphaned topic |
| TopicRaces.LoserRun | internal/store/topics.go:18-42 | a run from the start in which that happens |
| TopicRaces.AnswerAtOnceIff | internal/store/topics.go:22-41 | an insert answers with the recorded thread exactly if it wrote the row or the row has the same thread; a select that finds the row always does |
| TopicRaces.AnswerOnRecordIff | internal/store/topics.go:18-42 | over every run, a call that missed the row answers with the thread then on record exactly if no other call wrote, since its select, a row that still stands and has another thread |
| TopicRaces.AloneIsEnsureTopic | internal/store/topics.go:18-42 | uninterrupted, the three steps are the atomic call |
| Dispatch.BatchFlusher.Flush | internal/dispatch/dispatch.go:57-89 | one row and one queued delivery for the destination the tables name now, or nothing for an empty batch or an unknown user |
| Dispatch.FlushGoesWhereRouted | internal/dispatch/dispatch.go:62-69 | if the tables do not change in between, a batch goes where its event was routed, also when no topic could be made |
| Dispatch.ThreadIsOfChat | internal/dispatch/dispatch.go:62-69 | in every reachable state a thread is only named together with the chat it was created in |
| Dispatch.TopicNameSettlesIff | internal/dispatch/dispatch.go:28-35 | for every display name, also one an administrator stored unsanitised, exactly when the topic's name is trimmed, single-spaced, short and clean |
| Dispatch.TopicNameNotEmpty | internal/store/topics.go:46-59 | a topic is named after the stored name, or the service id if there is none, and never by nothing |
| Dispatch.StoredNameSettlesIff | internal/ingest/ingest.go:204-208 | a linked name gives a trimmed, single-spaced topic name exactly when what was stored is not blank |
| Dispatch.BlankNameIsStored | internal/ingest/ingest.go:204-208 | a name of control runes around a space is stored as that space |
| Topic.Collapse | internal/topic/topic.go:19-31 | the first loop yields the one tidy string that has the words of its input |
| Topic.SanitizeTopicName | internal/topic/topic.go:18-45 | both loops and the cut give the kept runes of the joined words, at most 128 |
| Topic.NameIsClean | internal/topic/topic.go:11-17 | at most 128 runes, no control or format rune, no whitespace but the ASCII space |
| Topic.NameIsPrefix | internal/topic/topic.go:18-45 | the visible runes are the first visible runes of the input in order, and all of them unless cut |
| Topic.TwoPassesSettle | internal/topic/topic.go:18-45 | after two passes a name is trimmed and single-spaced and further passes change nothing |
| Topic.FixedIff | internal/topic/topic.go:18-45 | sanitising leaves a name alone exactly when it is tidy, short and free of control runes |
| Topic.OnePassSettlesIff | internal/topic/topic.go:18-45 | for every input, one pass is enough exactly when no word within the cut loses all its runes (unless it is alone) and the cut is not behind a space |
| Topic.OnePassMayNotSettle | internal/topic/topic.go:18-45 | a name for which one pass is not enough |
| Topic.TidyIsJoined | internal/topic/topic.go:19-32 | a tidy string is its words joined by single spaces |
| Menu.HandleMenuCallback | internal/menu/menu_kb.go:36-70 | mute always mutes, a type press toggles, anything else does nothing |
| Menu.RemoveStr | internal/menu/handler.go:167-175 | filters in place: the result in front, the cells behind it untouched |
| Menu.Contains | internal/menu/handler.go:158-165 | says whether the value is in the list |
| Menu.ButtonMeansItsTypeIff | internal/menu/menu_kb.go:37-59 | a type button toggles its own service and type exactly when neither name has a colon |
| Menu.ButtonEffects | internal/menu/menu_kb.go:36-70 | what each button of the menu does to the tables; the mute button mutes also when it says "Unmute" |
| Menu.ListIsXorOfPresses | internal/menu/menu_kb.go:55-68 | in any run a stored list is free of duplicates and is the earlier set with the types flipped that were pressed an odd number of times |
| Menu.ToggledFacts | internal/menu/menu_kb.go:61-66 | a toggle flips membership of its type, keeps the others in their order, adds at the end, and makes no duplicates |
| Menu.PressFlipsOnlyItsTypeIff | internal/store/routing.go:32-34 | for all inputs, a press flips its own type's routing and no other's exactly when there is a subscription, it is not muted, and its list names another type |
| Menu.PressFlips | internal/menu/menu_kb.go:55-68 | what a press does to each type: nothing without a subscription or while muted; else it flips its own type, or every type but its own if the list names no other |

The methods of `Store` and `DeliveryTable` without a row are single statements, each proved equal to its
function; what they achieve is in the rows above.

## Left out

- HTTP, JSON and YAML decoding, token authentication, envelope and length limits, metrics, logs, health
  endpoint and admin printing: input and output around the modelled decisions.
- Message rendering, icons, keyboards and texts: the rendered text is a parameter of the flush.
- Overflow of retry_after in nanoseconds: it is counted in unbounded integers.
- Strings are sequences of runes: bytes that are not UTF-8 have become U+FFFD before. The space and control
  classes are those of Unicode 15.
- `TelegramTransport.Run`, which blocks for ever: its rounds are the steps of `Egress`.
- The catalog: an event's "known" and "drop" flags are parameters of the ingest step.
- Code generation and token hashing: a code is a parameter of the step that issues it.
- The Bot API, its client and the proxy: a send has an arbitrary answer, a topic creation an arbitrary
  reply.
- SQL text and SQLite: each statement is its effect on maps with the schema's keys; errors other than
  uniqueness and foreign keys are assumed not to happen. Ids are positions, unread timestamp columns
  and user names are dropped, and the calendar and its text format are whole seconds.
- Retention: the code deletes no event rows, so neither does the model.
- Floating-point rounding in the token bucket: levels are exact multiples of one nanosecond's refill, and
  buckets hold at least one token, as the production one does.
- Clocks that go back, and unserialised calls of one limiter: limiter results ask for times that do not
  decrease, and the bucket's clock never goes back.
- The branch of `window.allow` that appends to a short ring: the ring is always made at full length.
- A queue of capacity zero, whose send can succeed while a receiver waits: the model then always drops.
- `Pipeline.DeliveriesAreIsolated`: a delivery carries the events of the batch it was flushed from; that its
  rendered text shows them, and no others, is not part of this model, because rendering is not.
- `Pipeline.NoEventIsLost`: takes a handler's store calls, and those of a flush, as one step each; races
  inside topic creation and binding are in `TopicRaces`.
- `CoalesceRate.BatchesForBurst`: takes Adds one at a time and timers on time; late timers and overlapping
  Adds are covered by the unconditional results of `CoalesceRuns`.
- A second worker: the program starts one.
- The fixture `SetTopic`, which overwrites topic rows.
