# A verified model of the qsl-server relay

The relay stores opaque messages per route, hands them out by legacy pulls (delete on
delivery) or by lease pulls (delete on acknowledgement), expires them after a retention
time, and keeps single-use invite slots that gate the first push into a mailbox. This
project models its durable store, the steps of its request handlers, its token bucket and
its base64url codec, and proves what they promise over every run.

## How it is built

| file | role |
|---|---|
| `RelaySpec.dfy` | the relay as a simple machine: one FIFO queue per live route, a slot table, a message counter; `Step` is one store operation |
| `Store.dfy` | the store in the form of the source: flat tables changed statement by statement on a transaction copy, proved to act like `RelaySpec` |
| `QueueLemmas.dfy`, `Fates.dfy` | row edits; what a step does to each single message |
| `Runs.dfy`, `Conservation.dfy`, `Delivery.dfy`, `Sweeps.dfy`, `Slots.dfy` | theorems about all runs |
| `Handlers.dfy`, `Interleaving.dfy` | the handlers as a class, and any number of clients, each in flight between any two of its locked steps |
| `RateLimits.dfy` | the rate limit and the life of rate buckets in every interleaving |
| `Requests.dfy` | whole requests one after another: what background sweeps and their pruning of buckets change for clients |
| `Limits.dfy`, `RateBucket.dfy`, `Codec.dfy` | configuration limits, token bucket, base64url |
| `Witnesses.dfy` | concrete runs: bounds that are attained, and departures from the documents |

A run is any sequence of operations from an empty store. The clock is a free argument of
every operation, because the handlers read it before they take the lock; it may run
backwards from one operation to the next, and only the theorems about background sweeps ask for
more. Sweeping follows the code: status, pull, ack, background sweep and a successful
create sweep; enqueue, redeem and revoke do not, and a create that is refused rolls its
sweep back. Secrets are compared by an arbitrary predicate on the stored hash, as the
store's own methods take it.

## Main results

- The flat tables refine one FIFO queue per route; removing idle routes only when a
  message expired equals always removing them (`DurableStore`).
- Conservation: an accepted message is queued unaltered until it leaves once, for one
  reason, and its number never returns (`Conservation.AcceptedIsConserved`). Through the
  handlers: success replies and stored messages correspond one to one, and every such
  message is conserved (`Interleaving.SuccessMeansStored`, `Interleaving.SuccessIsConserved`).
- Successive deliveries of one message are at least a lease apart, whatever other clocks do
  (`Conservation.DeliveriesApart`, attained in `Witnesses`); nothing is held back
  (`Delivery.ReturnedOrOlderFirst`), and first deliveries of a route are in the order of
  acceptance over whole runs (`Delivery.FirstDeliveriesInOrder`).
- All caps hold in every interleaving of pushes in flight (`Interleaving.CapsHoldUnderRaces`).
- One redemption and one push per invite slot (`Slots.AtMostOnce`, `Slots.PushNeedsRedeem`).
- Background sweeps cannot be observed in the replies of the store
  (`Sweeps.SweepsAreUnobservable`): in any run with ordered clocks they change no reply but those
  of revoke, and of redeem only which of not found, revoked and expired names a dead slot. A
  background sweep also prunes rate buckets; the answers to whole requests stay the same too
  (`Requests.ClientsCannotTell`), if no creation leaves the bucket of a route that its own sweep
  removes. That condition is exact for a single creation (`Requests.TraceOfSweepIff`), and
  `Witnesses.SweepCanBeTold` is a run in which clients can tell.
- Lease then ack equals a legacy pull, exactly unless another leased copy shares an id
  (`Delivery.LeaseThenAckIsLegacy`).
- A pull of at most sixteen that comes back short means an empty mailbox
  (`Delivery.ShortBatchMeansEmpty`).
- The exact window bound of the token bucket (`RateBucket.WindowSlack`). Under every
  interleaving, the gate of a route passes at most one fresh bucket's allowance for each lifetime
  of its bucket, plus that slack if the bucket was there before (`RateLimits.GateUnderRaces`); so
  do the enqueues of a whole run, without the slack (`RateLimits.EnqueuesAreLimited`).
- What each request is told and does, from the handlers' point of view (`Handlers.PushAnswers`,
  `Requests.PullMeans`, `Requests.AckMeans`, `Handlers.CreateAnswers`, `Slots.RedeemCauses`,
  `Slots.RevokeCauses`), and what idle time earns in a bucket (`RateBucket.CallsAtOnce`).
- The codec decodes a string to x exactly when the string encodes x (`Codec.DecodedIff`,
  `Codec.Decode`).

## Where the code differs from what is said about it

- `docs/server/DOC-SRV-007_Invite_Slot_Contract_v1.0.0_DRAFT.md` promises
  `ERR_INVITE_EXPIRED` for a push into an expired slot. With nothing between the two calls of
  a push that reply never comes: the status call has already swept the row with the same
  clock, and the push is an ordinary one. `Slots.ExpiredSlotIsOrdinary` gives the exact
  condition (a push without a ticket is refused iff the expiry is in the future) and
  `Slots.ExpiredSlotTakesAnyPush` a concrete case. With other operations in between, the
  reply comes iff the slot was created between the two calls with an expiry that the pusher's
  clock has reached, by a creator whose clock is behind (`Slots.ExpiredReplyNeedsSkew`);
  `Witnesses.ExpiredReplyHappens` is such a run.
- The textbook bound for a token bucket, burst plus refill times the seconds of the window,
  is not met. Refills come in whole-second steps, so a window of half a second can hold a burst
  and a refill. `RateBucket.WindowSlack` proves that the excess is min(burst, refill) and
  that no smaller slack holds. A full bucket takes a refill that is due only after its first
  token, so `burst + 1` calls at one instant can pass: `RateBucket.TextbookCountIff` says when.
- `docs/CONFIGURATION.md` and `docs/server/DOC-SRV-003_Relay_Inbox_Contract_v1.0.0_DRAFT.md`
  speak of idle routes being reclaimed after `ROUTE_IDLE_TTL_MS`. The code has no such rule.
  A route goes exactly in the operation in which the last of its messages leave
  (`Conservation.RouteGoesIff`), and it stays untouched for any length of time while one is
  unexpired (`Conservation.IdleRouteStays`). `Witnesses.IdleRouteIsKept` is the run: one push at
  0, and a status call at `d` that finds the route iff `d` is below the retention time.
- `docs/server/DOC-SRV-003_Relay_Inbox_Contract_v1.0.0_DRAFT.md` releases the rate accounting of
  a route with the route. A creation does not: its sweep removes routes, and the handler discards
  the statistics that name them. With nothing in between, every other request takes the bucket of
  a route away iff it removes the route, and a creation leaves all buckets
  (`Requests.BucketFollowsRoute`). In an interleaving a request comes to owe a drop iff it removes
  the route and is not a creation (`RateLimits.DropIsOwedIff`), and a bucket goes iff a drop that
  is owed names it, live route or not (`RateLimits.BucketGoesIff`). Three ways to fail:
  `Witnesses.SpentBucketOutlivesRoute`, where the spent bucket left by a creation refuses the
  first push on a new route; `RateLimits.LateDropHitsLiveRoute`, played from the start in
  `Witnesses.LateDropHappens`; and `RateLimits.LateReleaseHitsLiveRoute`, after a refusal for the
  route cap.

## Model

| member | source | states |
|---|---|---|
| DurableStore.SweepRefines | src/store.rs:301-348 | The retention statements, with routes cleaned only when some message expired, are the sweep of every queue and slot |
| DurableStore.Store.constructor | src/store.rs:211-295 | A new store is the empty relay |
| DurableStore.Store.SweepExpired | src/store.rs:301-348 | Sweeps the tables like the relay and reports how many messages, which routes and how many slots went |
| DurableStore.Store.RetentionSweep | src/store.rs:350-359 | Commits exactly one sweep |
| DurableStore.Store.RouteStatus | src/store.rs:361-392 | Commits a sweep and reports existence, depth and live routes of the swept state |
| DurableStore.Store.InviteCreate | src/store.rs:399-457 | Creates the slot or refuses it; a refusal leaves the tables as they were, sweep included |
| DurableStore.Store.InviteRedeem | src/store.rs:475-545 | Consumes an active slot and returns its blobs, or says why not in the documented order of causes and changes nothing |
| DurableStore.Store.InviteRevoke | src/store.rs:550-593 | Revokes with the token checked first; anything else changes nothing |
| DurableStore.Store.Enqueue | src/store.rs:596-702 | Appends to the queue of the route and spends the ticket in one commit; a refusal after the ticket was burnt rolls everything back |
| DurableStore.Store.TakeRows | src/store.rs:737-749 | The loop that stops at the first row over the budget finds the longest prefix that fits |
| DurableStore.Store.Pull | src/store.rs:704-806 | Returns the batch and deletes or leases exactly it; a drained route disappears |
| DurableStore.Store.Ack | src/store.rs:808-859 | Deletes and counts leased copies of the ids on the route; a drained route disappears |
| DurableStore.PutRefines | src/store.rs:769-799 | Changing one route and deleting its row when nothing is left is replacing that queue |
| DurableStore.PullRefines | src/store.rs:751-799 | A statement that selects rows by number touches no other route, and a lease never empties one |
| DurableStore.InsertRefines | src/store.rs:682-699 | Inserting the rows appends one message with a new number |
| RelaySpec.LongestFit | src/store.rs:737-749 | The result fits and every longer prefix does not |
| QueueLemmas.FirstMisfit | src/store.rs:740-749 | Stopping at the first misfit yields the longest fitting prefix, because sizes only grow |
| QueueLemmas.SizeAdds | src/store.rs:740-749 | The size of a batch is the sum of its body lengths |
| Fates.StepQueue | src/store.rs:301-339 | Every step gives each message of each queue one fate, in order, and appends at most one accepted message |
| Fates.PulledFate | src/store.rs:751-768 | A pull removes or leases exactly the messages it returns |
| Fates.StepWellFormed | src/store.rs:228-257 | Queues stay nonempty and ordered, numbers stay unique, slot states and blobs stay consistent |
| Fates.StepNext | src/store.rs:235 | The counter grows by one with each accepted push and never otherwise |
| Runs.RunWellFormed | src/store.rs:228-257 | Well-formedness holds in every reachable state |
| Runs.RunBounded | src/store.rs:653-688 | Route, depth, body and slot limits hold in every reachable state |
| Runs.RunBytes | src/store.rs:653-688 | Stored bytes never exceed routes times depth times body size |
| Conservation.AcceptedIsConserved | src/store.rs:689-701 | At every later moment an accepted message is queued unaltered and never left, or left in one step for one reason and is nowhere since; never both |
| Conservation.NumbersNotReused | src/store.rs:235 | Two accepted pushes never share a number |
| Conservation.RouteGoesIff | src/store.rs:320-339 | A route goes exactly in the operation in which all messages it still has leave |
| Conservation.IdleRouteStays | docs/CONFIGURATION.md:17 | However long a route is idle, it stays while it holds an unexpired message that no pull or ack of its key touched |
| Conservation.LeaseHasHistory | src/store.rs:759-766 | A lease was set by an earlier lease pull that returned the message, to its clock plus the lease |
| Conservation.DeliveriesApart | src/store.rs:721-766 | Two deliveries of one message: the first was a lease, on the same route, and the clocks differ by at least the lease |
| Conservation.LeavingMeans | src/store.rs:704-859 | A message leaves as expired iff its time had come, else by the legacy pull that returned it unaltered or by an ack of its id after a lease pull returned it; nobody is handed it afterwards |
| Conservation.LeaseHolds | src/store.rs:759-766 | After a legacy delivery the message is gone for good; after a lease it stays leased at least that long |
| Delivery.PullTakesLongestPrefix | src/store.rs:718-750 | The reply is the longest prefix of the visible messages within both limits, nonempty if anything is visible, within budget if every body is |
| Delivery.ReturnedOrOlderFirst | src/store.rs:721-726 | A stored message with no live lease is returned, or the limits were used on older ones |
| Delivery.FirstDeliveriesInOrder | src/store.rs:721-728 | In any run, a message handed out for the first time was accepted after every message handed out before on its route |
| Delivery.LegacyIsFifo | src/store.rs:721-758 | On a route without lease pulls all deliveries of a run are in the order of acceptance |
| Delivery.BatchNeverCut | src/lib.rs:559-574 | A handler pull of at most sixteen returns min(asked, depth limit, visible) messages |
| Delivery.ShortBatchMeansEmpty | src/lib.rs:564-570 | In every reachable store of a legal configuration a short batch of at most sixteen means nothing visible is left |
| Delivery.LegacyPullTakesPrefix | src/store.rs:737-786 | With no leases and nothing expired a legacy pull takes a nonempty prefix of the queue and leaves the rest |
| Delivery.Drain | src/store.rs:769-786 | Legacy pulls return the queue in order, at least one message each, and the last one frees the route |
| Delivery.AckCounts | src/store.rs:820-833 | The count is the number of unexpired leased copies with those ids on the route |
| Delivery.AckRemoves | src/store.rs:820-833 | Exactly those copies go; unleased duplicates stay |
| Delivery.RepeatedAckIsZero | src/store.rs:820-833 | Repeating an ack with no lease on the route in between acknowledges nothing |
| Delivery.LeaseThenAckIsLegacy | src/store.rs:751-852 | Lease then ack reaches the state of the legacy pull iff no other leased copy shares a returned id |
| Delivery.SlotTableIsIrrelevant | src/store.rs:612-652 | For keys that are not slots, status, push, pull and ack do not depend on the slot table or the ticket |
| Delivery.OtherRoutesOnlySwept | src/store.rs:704-859 | An operation leaves every other route as its own sweep leaves it, order and leases included |
| Sweeps.SweepTwice | src/store.rs:301-348 | Two sweeps in either order equal one sweep at the later clock |
| Sweeps.SweepsAreUnobservable | src/store.rs:350-359 | In a run of store operations with ordered clocks, redeems and revokes included, removing all background sweeps changes no status, push, pull, ack or create reply, and no redeem reply except among not found, revoked and expired |
| Sweeps.RedeemAndRevokeCanTell | src/store.rs:489-516 | A sweep changes a redeem or revoke reply iff the slot's row was still there and due |
| Requests.ClientsCannotTell | src/lib.rs:483-516 | In a run of whole requests with ordered clocks, removing all background sweeps and their pruning changes no answer, if no creation leaves a bucket; redeem and revoke as before |
| Requests.TraceOfSweepIff | src/lib.rs:768-805 | A sweep before a creation makes no difference to the state iff the creation leaves no bucket of a route that its sweep removes |
| Requests.BucketFollowsRoute | src/lib.rs:1242-1249 | With nothing in between a request takes the bucket of a route away iff it removes the route; a creation leaves every bucket |
| Slots.SlotStep | src/store.rs:529-592 | A kept row changes only by redemption, revocation or a push that spends its ticket, and exactly so |
| Slots.RedeemCauses | src/store.rs:468-545 | Redemption succeeds iff the slot is active, unexpired and the capability verifies, and returns the stored blobs; each refusal has its exact cause in the documented order and changes nothing |
| Slots.RevokeCauses | src/store.rs:550-593 | Each reply to a revocation has its exact cause, the token before the state; only a new revocation changes anything |
| Slots.CreateCauses | src/store.rs:416-437 | Each reply to a creation has its exact cause on the swept table, with the true count; a refusal changes nothing |
| Slots.PushCauses | src/store.rs:622-688 | Each of the replies to a push has its exact cause: slot before depth before route cap, with the true depth and route count |
| Slots.PushAllOrNothing | src/store.rs:596-702 | A push is accepted iff the state changes at all; then one message is appended, the ticket is cleared, the counter moves by one, and nothing else changes |
| Slots.SlotGoes | src/store.rs:424-437 | A slot goes only by a committed sweep at or after its expiry; a full table evicts nothing |
| Slots.SlotLife | src/store.rs:32-41 | Expiry and hashes never change, states only move forward, blobs are there iff the slot is active |
| Slots.AtMostOnce | src/store.rs:529-545 | At most one redemption and one accepted push per slot, and neither after a revocation |
| Slots.PushNeedsRedeem | src/store.rs:637-652 | An accepted push follows the slot's only redemption and was checked against the ticket that redemption stored |
| Slots.TicketAndMessage | src/store.rs:645-700 | A live ticket is spent iff a push commits its message or a revocation commits |
| Slots.RefusedPushRetries | src/store.rs:646-680 | A push refused for depth or route cap changes nothing, and the same ticket is admitted once there is room |
| Slots.CreatedIsActive | src/store.rs:438-456 | A created slot is active with the published blobs and no ticket, in place of any expired predecessor |
| Slots.SlotStays | src/store.rs:340-346 | A slot stays until a sweep at or after its expiry commits |
| Slots.RevokedIff | src/store.rs:580-592 | A slot is revoked iff some operation of its life revoked it |
| Slots.SecondRedeem | src/store.rs:32-38 | Until expiry a second redeem says already used, or revoked iff it was revoked since, never unknown |
| Slots.ExpiredSlotIsOrdinary | docs/server/DOC-SRV-007_Invite_Slot_Contract_v1.0.0_DRAFT.md:82-96 | A push without ticket into a slot is refused iff the expiry is in the future; the expired reply never comes; afterwards the push is an ordinary one |
| Slots.ExpiredSlotTakesAnyPush | docs/server/DOC-SRV-008_Relay_V2_Contract_v1.0.0_DRAFT.md:61-66 | A concrete expired slot whose mailbox accepts a push without a ticket |
| Slots.ExpiredReplyNeedsSkew | src/lib.rs:1093-1162 | With other operations in between, a push is refused as expired iff the slot was created in between with an expiry its clock has reached, is still that slot and was not revoked |
| Witnesses.LeaseBoundIsAttained | src/store.rs:721-766 | A run that delivers one message twice exactly a lease apart |
| Witnesses.IdleRouteIsKept | docs/CONFIGURATION.md:17 | A route with one message is found by a status call iff the retention time has not passed, however long it was idle |
| Witnesses.ExpiredReplyHappens | src/store.rs:630-636 | A run in which a push is refused as expired because a creator with an older clock came in between |
| Witnesses.LateDropHappens | src/lib.rs:1242-1249 | From the initial state: push, draining pull, second push, then the drop; the route is live and its bucket is gone |
| Witnesses.SpentBucketOutlivesRoute | src/lib.rs:768-805 | From the initial state: a push, a creation that sweeps its route away, and a push on the new route that the old spent bucket refuses |
| Witnesses.SweepCanBeTold | src/lib.rs:483-516 | The same requests with a background sweep before the creation: the last push succeeds |
| Witnesses.SlotIsUsed | src/store.rs:489-702 | A run in which a slot is created, redeemed and takes its one push |
| Limits.LimitOrError | src/lib.rs:294-299 | Zero is refused; a value above the ceiling becomes the ceiling |
| Limits.NewSettings | src/lib.rs:146-292 | Settings are accepted iff every limit but the two refill rates is positive; the result is the greatest legal settings that exceed neither what was asked nor a ceiling |
| Limits.CeilingsApply | src/lib.rs:93-134 | Asking for the ceilings or more yields exactly them |
| Limits.DefaultsAreLegal | docs/CONFIGURATION.md:11-24 | The documented defaults are accepted unchanged |
| Handlers.CreateGuard | src/lib.rs:733-759 | A request passes iff its fields are there, both blobs decode to something within the limit and its expiry is ahead; each error has its own condition; what passes carries the decoded blobs, the hashes and the lowered expiry |
| Handlers.CreateAnswers | src/lib.rs:702-809 | Each answer to a creation has its exact cause: body cap, token, fields and blobs, size, expiry, duplicate, slot cap; a request within the body cap pays its token in any case |
| Handlers.CreatePublishes | src/lib.rs:733-790 | A created slot carries the decoded blobs, hashes and lowered expiry of its request; otherwise the relay is unchanged |
| Handlers.PushAnswers | src/lib.rs:1066-1209 | A body is refused iff it is empty or above the limit, before anything happens; each other answer of a push alone has its exact cause, a refusal for room comes before the token, and the relay is the swept one plus its message iff it succeeds |
| Handlers.CommitAnswers | src/lib.rs:1137-1198 | Under races each answer of the transaction of a push has its exact cause; only a route-cap refusal releases the bucket, only a success changes the relay |
| Requests.PullMeans | src/lib.rs:1211-1267 | A pull is refused iff its max is zero or its mode unknown; else it returns the longest prefix of the unexpired unleased messages within both limits; mode lease keeps every message and leases those returned, no mode removes exactly those |
| Requests.AckMeans | src/lib.rs:1269-1315 | An ack is refused iff it names no id or more than 4096; else exactly the unexpired leased messages with a named id go, and their number is the answer |
| Interleaving.MoveIsStep | src/lib.rs:1066-1209 | Each locked step of a request performs one checked store operation on the relay, or none |
| Interleaving.InterleavingIsRun | src/lib.rs:1066-1209 | Every interleaving of requests is a run of store operations |
| Interleaving.LonePushIsHandler | src/lib.rs:1066-1209 | The locked steps of a push, played with nothing in between, act and answer like the whole handler |
| Interleaving.LoneDeliveryIsHandler | src/lib.rs:1211-1315 | So do the transaction and the two bucket drops of a pull or an ack |
| Interleaving.LoneCreateIsHandler | src/lib.rs:702-809 | So do the gate and the transaction of a creation |
| Interleaving.CapsHoldUnderRaces | src/lib.rs:1095-1169 | Every cap and the byte bound hold in every interleaving, although the first check is stale |
| Interleaving.SuccessMeansStored | src/lib.rs:1170-1208 | Success replies and accepted enqueues of the run correspond one to one, each with its own push |
| Interleaving.SuccessIsConserved | src/lib.rs:1170-1208 | Each success has a stored message of its own, which at the end is still queued or left once for one reason |
| Interleaving.AdviceIsNotEnough | src/lib.rs:1105-1118 | With one place left two pushes can pass the first check, and only the first to commit is stored |
| RateBucket.PushRateBucket.Refill | src/lib.rs:57-74 | Saturating arithmetic equals the refill over unbounded integers that the laws below count |
| RateBucket.PushRateBucket.TryConsume | src/lib.rs:48-55 | Refills, then takes a token iff there is one |
| RateBucket.AcceptsSinceCreation | src/lib.rs:40-75 | Accepts since creation are at most burst plus refill per whole second, for call times in any order |
| RateBucket.WindowBound | src/lib.rs:40-75 | In any window accepts are at most burst + min(burst, refill) + refill * whole seconds |
| RateBucket.WindowSlack | src/lib.rs:57-74 | A slack over burst + refill * whole seconds holds for all histories iff it is at least min(burst, refill) |
| RateBucket.NeverStarves | src/lib.rs:57-74 | Refused calls change nothing, and the first call a second after the last refill is accepted |
| RateBucket.CallsAtOnce | src/lib.rs:48-74 | n calls at one instant are accepted as far as the idle seconds have earned tokens, and the bucket they leave is given |
| RateBucket.CallsAtTwoInstants | src/lib.rs:48-74 | The exact count over two instants, which fixes from when the second idle time counts |
| RateBucket.TextbookCountIff | src/lib.rs:57-74 | The count is min(n, burst, tokens + seconds * refill) iff not more than a burst is asked of a full bucket with a refill due |
| RateLimits.GateIsBucket | src/lib.rs:1120-1135 | While a route keeps its bucket, the pushes that pass its gate are those one bucket accepts at their instants, in the order of the interleaving |
| RateLimits.GateUnderRaces | src/lib.rs:1120-1135 | In any stretch of any interleaving and any window, the gate of a route lets through at most burst + refill * whole seconds per lifetime of its bucket, plus min(burst, refill) once if the bucket was there at first |
| RateLimits.TokensPayForEnqueues | src/lib.rs:1120-1169 | Enqueue transactions of a route plus pushes still waiting for theirs equal the tokens its gate gave out |
| RateLimits.EnqueuesAreLimited | src/lib.rs:1120-1169 | The enqueue transactions of a route in a whole run are at most burst + refill * whole seconds per lifetime of its bucket |
| RateLimits.BucketIsReleased | src/lib.rs:1242-1249 | From a removal by any request but a creation on, at every later point, the drop is pending or the bucket has been gone at some point since |
| RateLimits.LoneDeliveryDrops | src/lib.rs:1242-1249 | A pull or ack with nothing in between drops the bucket of a route iff it removes the route |
| RateLimits.BucketGoesIff | src/lib.rs:500-523 | In an interleaving a bucket goes iff a drop that is owed names its route, whatever the state of the relay |
| RateLimits.LateDropHitsLiveRoute | src/lib.rs:1246-1249 | A push stored between the draining transaction and the drop leaves a live route without its bucket |
| RateLimits.LateReleaseHitsLiveRoute | src/lib.rs:1177-1184 | A push stored while another one, refused for the route cap, has yet to release the bucket ends with a live route and no bucket |
| RateLimits.DropIsOwedIff | src/lib.rs:500-523 | A request comes to owe the drop of a bucket iff it removes the route and is not a creation, which leaves all buckets as they are |
| RateLimits.CreationKeepsBucket | src/lib.rs:768-805 | The bucket of a route that a creation removed stays until another request removes a later route of the key or a push on it is refused for the route cap |
| Codec.Encode | src/lib.rs:663-683 | The result is the base64url numeral of the bytes, of length ceil(4n/3) |
| Codec.Decode | src/lib.rs:633-661 | Returns the bytes that the string without trailing '=' encodes, or nothing when it encodes none |
| Codec.DecodedIff | src/lib.rs:633-661 | A string decodes to x iff it is the encoding of x |
| Codec.TrimEndIs | src/lib.rs:644 | Trimming removes all trailing = and nothing else |
| Codec.AlphabetIff | src/lib.rs:634-664 | A character has a value iff it is that entry of the table: A-Z, a-z, 0-9, -, _ |
| Codec.KnownEncodings | src/lib.rs:663-683 | Three test vectors of section 10 of RFC 4648 |
| Codec.HighBitsFall | src/lib.rs:646-655 | Bits that leave the 32-bit accumulator are never part of an output byte |
| Codec.RejectedForGood | src/lib.rs:656-659 | A rejected string is the encoding of no byte string |
| Codec.EncodingUnique | src/lib.rs:663-683 | A byte string has one encoding |
| Codec.DecodingUnique | src/lib.rs:633-661 | A string encodes one byte string |
| Codec.DecodeEncoded | src/lib.rs:633-683 | Decoding an encoding gives the bytes back |
| Codec.EncodeDecoded | src/lib.rs:633-683 | Encoding what was decoded gives the string back without trailing '=' |
| Codec.LegitimateCreateFits | src/lib.rs:123-126 | Two blobs within the limit plus 4096 bytes fit the body cap, and at the limit fill it |

## Left out

- HTTP, JSON, headers, authentication, logging and the asynchronous runtime; of the handlers only the order of their guards and store calls is kept. `str::trim` blankness of the create fields is a boolean of the request.
- SQLite itself, fsync and query plans: each statement is modelled by its meaning on the tables. I/O errors, lock poisoning and the end of the 64-bit row numbers do not occur.
- Clocks and the lease deadline are unbounded integers; `now + lease` does not overflow for any clock more than an hour below the largest `i64`.
- SHA-256, random tokens and constant-time comparison: route keys are given, and a presented secret is an arbitrary predicate on the stored hash.
- Columns nothing reads: `log_id`, `created_at`, `last_touched`, `consumed_at`, and the per-route log list of the sweep statistics.
- A restart with different limits: a run has one configuration. `Delivery.BatchNeverCut` is stated for any store with legal bodies and shows what a smaller depth limit does.
- The two bucket drops of one pull or ack may be played in either order in `Interleaving`; the code does them in turn.
- The redeem and revoke handlers add body caps and blank-field guards to the store calls; `Interleaving` and `Requests` use the store calls. The body cap of the ack handler is left out too.
- DurableStore.Store.constructor: opens a fresh store only; reopening an existing file and the schema version guard are not part of this model.
- Environment and command-line configuration, server info, and the vestigial `route_idle_ttl` of the controls.
- The v2 relay contract, of which nothing is implemented.
