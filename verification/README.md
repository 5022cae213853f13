# Verified model of the shipping backend

A Dafny model of the state machines, protocols, caches and exact arithmetic of the Pikshipp
shipping backend, with proofs. Run `dafny verify dfyconfig.toml` in this directory.

A database transaction is one atomic step on maps and sequences that stand for tables. The clock,
fresh identifiers, the order in which Go ranges over a map and carrier answers are inputs. So are
database failures in Book, PollNow, IngestEvents, Activate, the policy engine and the forwarder; the
other services meet only refusals by constraints. Code that changes state is a class whose methods take the same steps and are proved
equal to a specification function; the results are lemmas about that function over whole runs.

| file | what it models |
|---|---|
| `Orders.dfy` | the order state machine, its log, stamps and AWB |
| `Shipments.dfy` | the shipment state machine, its mirror on orders, the transactions of Book |
| `Booking.dfy` | any number of Books interleaved with each other and with crashes |
| `Tracking.dfy` | polling a sorted batch with a predicted state, against per-event ingestion |
| `Wallet.dfy` | the two-phase wallet with its conflict rules and constraints |
| `SessionCache.dfy` | map plus list, with age and capacity, refining a recency sequence |
| `Policy.dfy`, `Contracts.dfy` | layered settings through a timed cache, and contracts that write them |
| `Outbox.dfy` | claim, mark, commit, enqueue, by any number of forwarders |
| `Notifications.dfy` | repeated in-order replacement over a map, against one-pass filling |
| `CanonicalJson.dfy`, `Audit.dfy` | key-sorted JSON, and the hash-chained audit log over it |
| `AuditOverlap.dfy` | audit rows written by overlapping transactions |
| `Breaker.dfy` | the carrier circuit breaker with overlapping calls |
| `Allocation.dfy`, `Pricing.dfy`, `Money.dfy` | scoring and ranking, slab pricing and package sums, checked 64-bit money |
| `Core.dfy`, `Sorting.dfy` | identifiers, options and error classes; sort.Slice |

## Where the code and its words part

The model follows the code.

- MarkBooked accepts "ready" in its own check and is then always refused by the transition table (`Orders.BookingNeedsAllocating`).
- One shipment row per order and no second carrier call means that a failed Book can never be retried (`Booking.NoSecondChance`); the order's state does not stop the carrier call (`Booking.BookExactly`).
- A return on the shipment is never mirrored on the order (`Shipments.ReturnsLeaveOrders`).
- Cancelling a shipment has no state guard: a delivered one can be cancelled (`Shipments.ShipmentService.Cancel`).
- Credit and Reserve are documented as idempotent on their ref; the balance and hold_total are not (`Wallet.CreditTwice`, `Wallet.ReserveTwiceExactly`, `Wallet.LeakIsPermanent`). The floor Debit checks can be passed by later Confirms exactly when the active holds are not covered (`Wallet.FloorCanBeBreachedExactly`, `Wallet.DebitGuardsTheFloorExactly`).
- The outbox comment promises at least once; the mark is committed before the insert (`Outbox.DropsExactly`, `Outbox.LostForGood`).
- The breaker comment bounds concurrent probes; completions of older calls break the bound, and probes ending in non-transient errors stop it for good (`Breaker.BoundCanFailExactly`, `Breaker.StuckExactlyWhenWedged`).
- The policy cache calls its ttl a fallback for missed notifications; nothing listens for them, so locks lapse after five seconds (`Policy.GlobalLockLastsFiveSeconds`).
- Audit events with a nil payload or a time below the microsecond do not verify once stored (`Audit.SerialChainsVerifyExactly`). Reading the last hash takes no lock, so overlapping Emits fork the chain (`AuditOverlap.OverlappingEmitsBreakTheChain`).
- Bytes outside ASCII are re-encoded on every pass of a template, so that templates with a dash are damaged and accented values show the order of the map (`Notifications.DashIsDamaged`, `Notifications.SettlesOneWayExactly`).
- A heavier package can cost less, and one more quote can swap two others (`Pricing.PricesNeverFallExactly`, `Allocation.OrderFlipsExactly`).
- MulPercent reports success on overflow below (`Money.MulPercentIsExactly`).

## Model

| member | source | states |
|---|---|---|
| `Orders.OrderService.Create` | backend/internal/orders/service_impl.go:30-47 | refuses an order without lines, a (seller, channel, channel order id) already taken and values a CHECK constraint rejects; otherwise inserts one draft with no AWB, no stamps and an empty log, and touches no other row |
| `Orders.OrderService.TransitionState` | backend/internal/orders/repo.go:234-259 | refuses a pair outside the table; otherwise moves the row, stamps shipped/delivered only if unset, and appends one event |
| `Orders.OrderService.TransitionUnder` | backend/internal/orders/service_impl.go:122-138 | NotFound for a missing or foreign row, InvalidArgument in any other state than `from`, else exactly one step of the order machine |
| `Orders.OrderService.MarkReady` | backend/internal/orders/service_impl.go:140-142 | the table and the outcome are those of the order machine for "ready" |
| `Orders.OrderService.MarkAllocating` | backend/internal/orders/service_impl.go:169-171 | the table and the outcome are those of the order machine for "allocating" |
| `Orders.OrderService.MarkBooked` | backend/internal/orders/service_impl.go:173-194 | AWB, carrier and booking stamp are written together with the step and its event, or nothing is |
| `Orders.OrderService.MarkInTransit` | backend/internal/orders/service_impl.go:196-198 | the table and the outcome are those of the order machine for "in transit" |
| `Orders.OrderService.MarkDelivered` | backend/internal/orders/service_impl.go:200-202 | the table and the outcome are those of the order machine for "delivered" |
| `Orders.OrderService.Cancel` | backend/internal/orders/service_impl.go:144-167 | cancels from draft, ready, allocating or booked only, stamping and logging it |
| `Orders.OrderService.MarkRTO` | backend/internal/orders/service_impl.go:204-220 | returns from booked, in transit or delivered only |
| `Orders.OrderService.Close` | backend/internal/orders/service_impl.go:263-279 | closes from delivered or RTO only |
| `Orders.RunsAreCoherent` | backend/internal/orders/service.go:46-66 | over every run: the log is a chained walk in the allowed table from draft to the current state, and AWB, carrier and each stamp are present exactly when the log holds their state |
| `Orders.WalkClimbs` | backend/internal/orders/service.go:46-57 | along any service walk a rank rises strictly, although the table itself allows steps back |
| `Orders.AtMostSevenEvents` | backend/internal/orders/service.go:46-57 | no run logs more than seven transitions, and no state twice |
| `Orders.MilestonesAreWrittenOnce` | backend/internal/orders/repo.go:234-269 | once set, AWB, carrier and the four stamps survive every later run, and the log only grows |
| `Orders.BookingNeedsAllocating` | backend/internal/orders/service_impl.go:184-192 | an order can be booked if and only if it is allocating: the branch the comment opens for "ready" is always refused by the transition table |
| `Orders.BookedPath` | backend/internal/orders/service_impl.go:169-194 | an order in state booked has exactly the log draft, ready, allocating, booked |
| `Orders.WorksWhereTheTableAllows` | backend/internal/orders/service.go:46-66 | each operation takes an order to the state of its name from exactly the states from which the allowed table leads there; "ready" alone from draft only |
| `Orders.StampsTellTheCalls` | backend/internal/orders/repo.go:234-269 | after every run the four stamps are the times of the very calls that took the order into the state, and AWB and carrier are those the booking call named |
| `Shipments.ShipmentService.Transition` | backend/internal/shipments/service_impl.go:343-382 | a mark moves the row from its one source state and logs it, or refuses and changes nothing |
| `Shipments.ShipmentService.FanoutOrderTransition` | backend/internal/shipments/service_impl.go:438-460 | the order of the shipment follows best-effort, for all three targets: its machine takes the step or silently does not; a missing or foreign shipment row is ignored |
| `Shipments.ShipmentService.MarkInTransit` | backend/internal/shipments/service_impl.go:418-424 | booked to in transit; when the shipment moved, a booked order of the seller is in transit too |
| `Shipments.ShipmentService.MarkDelivered` | backend/internal/shipments/service_impl.go:426-432 | in transit to delivered; when the shipment moved, an order of the seller in transit is delivered too |
| `Shipments.InTransitReachesTheOrder` | backend/internal/shipments/service_impl.go:438-460 | a booked shipment that goes in transit takes its booked order along, both stamped; an order in any other state, and every other row, stays |
| `Shipments.DeliveryReachesTheOrder` | backend/internal/shipments/service_impl.go:438-460 | a delivered shipment takes its order from in transit to delivered, both stamped; an order in any other state, and every other row, stays |
| `Shipments.ReturnMarksMove` | backend/internal/shipments/service_impl.go:462-486 | the return marks move the shipment alone, from booked or in transit into the return and from there to its end |
| `Shipments.ShipmentService.MarkRTO` | backend/internal/shipments/service_impl.go:462-482 | one guarded transaction moves a booked or in-transit row to return in progress, and leaves the order alone |
| `Shipments.ShipmentService.CompleteRTO` | backend/internal/shipments/service_impl.go:484-486 | RTO in progress to RTO completed only |
| `Shipments.ReturnsLeaveOrders` | backend/internal/shipments/service_impl.go:462-486 | a mark of a return, begun or completed, changes no order |
| `Shipments.ShipmentService.Cancel` | backend/internal/shipments/service_impl.go:384-416 | an owned row becomes cancelled from any state at all, keeping its AWB and logging the step |
| `Shipments.CancelWrites` | backend/internal/shipments/service_impl.go:384-416 | the cancelled row keeps every column but state, stamp and log |
| `Shipments.ShipmentService.PersistPhaseA` | backend/internal/shipments/service_impl.go:169-201 | inserts one pending row unless the order is missing or already has a shipment |
| `Shipments.ShipmentService.ConfirmPhaseB` | backend/internal/shipments/service_impl.go:203-215 | writes booked and the AWB over any state; refused when another row bears that AWB or the row is missing |
| `Shipments.ShipmentService.MarkFailed` | backend/internal/shipments/service_impl.go:219-228 | best effort: marks the row failed, or does nothing when the database is down |
| `Shipments.ShipmentService.Book` | backend/internal/shipments/service_impl.go:92-167 | the whole sequence, with each of its four transactions and the carrier free to fail, ends in the tables and the result of the booking specification |
| `Shipments.BookLeaves` | backend/internal/shipments/service_impl.go:92-228 | the very shipment and order row a Book leaves, column by column, for every answer of the carrier and every failure after phase A |
| `Tracking.TrackingService.ApplyTransition` | backend/internal/tracking/tracking.go:156-171 | issues the one mark the event asks for in the believed state, or none |
| `Sorting.SortSlice` | backend/internal/tracking/tracking.go:227-231 | the array is permuted in place so that no element is less than one before it, for any comparison that is a weak order |
| `Tracking.TrackingService.SortOldestFirst` | backend/internal/tracking/tracking.go:227-231 | sorts the copied batch by time, as a permutation, in place |
| `Tracking.TrackingService.IngestOne` | backend/internal/tracking/tracking.go:120-154 | one event: dedupe insert, then at most one mark from the state just read; unknown AWBs, and events whose lookup or insert fails, change nothing |
| `Tracking.TrackingService.IngestEvents` | backend/internal/tracking/tracking.go:109-118 | a feed is its events one after the other, those that failed left out |
| `Tracking.TrackingService.PollNow` | backend/internal/tracking/tracking.go:195-271 | each refusal, a failed lookup and a failed insert transaction leave every table alone; otherwise the rows are inserted and the batch is walked with the predicted state, in some oldest-first order of the fetched events |
| `Tracking.TrackingService.FeedAboutOneShipment` | backend/internal/tracking/tracking.go:109-154 | a feed about one shipment is the per-event walk of that shipment, and inserts one row per event |
| `Tracking.LivePredictionIsReal` | backend/internal/tracking/tracking.go:276-292 | whenever the predicted state is booked or in transit, it is the real state of the row |
| `Tracking.PollNeverIssuesARefusedMark` | backend/internal/tracking/tracking.go:156-171 | every in-transit or delivered mark a poll issues succeeds on the real row, for every batch and position |
| `Tracking.PollRefinesIngest` | backend/internal/tracking/tracking.go:195-292 | with no return delivered early, a batch poll leaves shipments, orders and logs exactly as per-event ingestion does |
| `Tracking.PollEndsLikeIngestExactly` | backend/internal/tracking/tracking.go:195-292 | in general the two end in the same shipment state if and only if no return is delivered early or what follows the first early one is forgiving |
| `Tracking.DeadMatchesIngest` | backend/internal/tracking/tracking.go:276-292 | from a live state, a batch whose prediction is dead ends where ingestion ends if and only if the rest is forgiving |
| `Tracking.EarlyReturnCanStrandAPoll` | backend/internal/tracking/tracking.go:276-292 | the failing family is not empty: return delivered, then picked up |
| `Tracking.PollOnlyClimbs` | backend/internal/tracking/tracking.go:195-271 | a poll never lowers the rank of a shipment, and leaves every table alone unless it raises it |
| `Tracking.ReturnEndsTheTrip` | backend/internal/tracking/tracking.go:156-171 | after a batch that holds a return-initiated event the shipment is no longer going out |
| `Tracking.TrackingService.ThirdPollNowIsIdle` | backend/internal/tracking/tracking.go:195-271 | three PollNow calls on the same fetched events, each in whatever order its sort leaves: the third changes neither shipments nor orders unless the fetch has such a tie, and with or without one the second adds no tracking_event row |
| `Tracking.ThirdPollIsIdle` | backend/internal/tracking/tracking.go:195-271 | from any state and for any batch listed in one order, a third identical poll changes no table at all |
| `Tracking.ThirdPollMovesExactly` | backend/internal/tracking/tracking.go:195-271 | some state and some oldest-first listings of a fetch let a third poll move the row if and only if the fetch holds no return-initiated event and its earliest return delivery has the time of its earliest delivery or of its earliest pickup or movement |
| `Tracking.DistinctTimesDoNotMatter` | backend/internal/tracking/tracking.go:227-231 | events at distinct times never do |
| `Tracking.PollEndsAtTripEnd` | backend/internal/tracking/tracking.go:195-292 | where a poll ends, for every batch, in closed form: read off the state read and the batch, without walking it |
| `Tracking.PollCarriesTheOrder` | backend/internal/tracking/tracking.go:195-292 | a poll of a booked or in-transit pair leaves the order booked, in transit or delivered exactly as far as the shipment climbed on its way out, whatever return follows, and touches no other row |
| `Tracking.PollIsIdleExactly` | backend/internal/tracking/tracking.go:156-171 | a poll leaves the row alone if and only if no return starts and no pickup or movement (from booked), or no delivery (from in transit), is listed before every return; or the return it is on is not delivered |
| `Tracking.SecondPollIsIdleExactly` | backend/internal/tracking/tracking.go:276-292 | a second identical poll moves the row if and only if the first read a live state, no delivery came first, and the batch either lists return deliveries only ahead of the return, or has no return and lists pickup and delivery both before any return delivery, in the wrong order |
| `Tracking.SecondPollCanMatter` | backend/internal/tracking/tracking.go:195-271 | that family is not empty: a delivery listed before the pickup |
| `Tracking.EventTableConverges` | backend/internal/tracking/tracking.go:97-103 | polling events already polled adds no tracking_event row and rewrites none, in any order |
| `Tracking.FirstEventIsRecorded` | backend/internal/tracking/tracking.go:97-103 | of several events with one new dedupe key the first listed is the one recorded |
| `Booking.NextKeepsInv` | backend/internal/shipments/service_impl.go:92-228 | every transaction of every Book, every other transaction on orders and shipments and every crash keeps the booking invariant |
| `Booking.MarkIsTwoSteps` | backend/internal/shipments/service_impl.go:418-460 | a tracking mark of the service is two transactions of the protocol, the row and then the order, and a crash can fall between them |
| `Booking.RunKeepsInv` | backend/internal/shipments/service_impl.go:92-228 | the invariant holds after any interleaving of any number of Books, crashes included |
| `Booking.AwbProvenance` | backend/internal/shipments/service_impl.go:203-215 | AWB and carrier of an order are those of the order's own shipment row, and the carrier issued the AWB for that row |
| `Booking.CarrierCalledOncePerOrder` | backend/migrations/0013_shipments.up.sql:56-56 | however many Books run, two carrier calls are never for the same order |
| `Booking.BookedMeansOneSuccess` | backend/internal/orders/service_impl.go:173-194 | an order reached booked if and only if one Book succeeded for it; at most one does, and then AWB and carrier are set |
| `Booking.NoSecondChance` | backend/internal/shipments/service_impl.go:92-228 | once a Book ended with its row in place and the order unbooked, no later run ever books the order, and every later carrier call is for another order |
| `Booking.BookExactly` | backend/internal/shipments/service_impl.go:92-167 | exactly when the carrier is asked, when the shipment comes out booked, and that an order neither ready nor allocating stays where it was under a booked shipment |
| `Booking.BookAloneIsARun` | backend/internal/shipments/service_impl.go:92-167 | the sequential method, for every environment, is the run of the interleaved protocol with one Book |
| `Wallet.WalletService.InsertLedgerEntry` | backend/internal/wallet/repo.go:41-46 | refuses a non-positive amount; a used (ref, direction) is skipped and still reported as success |
| `Wallet.WalletService.InsertOrGetHold` | backend/internal/wallet/repo.go:50-59 | a new ref gets a row, an active one is handed back, a resolved one is given the new id |
| `Wallet.WalletService.Credit` | backend/internal/wallet/service_impl.go:55-70 | account check, ledger insert and balance increment commit together or not at all |
| `Wallet.WalletService.Debit` | backend/internal/wallet/service_impl.go:170-190 | refused below the grace floor; otherwise ledger and balance move together |
| `Wallet.WalletService.Reserve` | backend/internal/wallet/service_impl.go:72-115 | refused when balance plus credit less holds does not cover the amount; otherwise hold row and hold_total move together |
| `Wallet.WalletService.Confirm` | backend/internal/wallet/service_impl.go:117-146 | idempotent on a confirmed hold; otherwise ledger, balance, hold_total and status move together, and a used debit ref rolls all back |
| `Wallet.WalletService.Release` | backend/internal/wallet/service_impl.go:148-168 | an active hold becomes released and its amount leaves hold_total; idempotent on a released or expired hold, refused on a confirmed one |
| `Wallet.ReleaseFreesTheFunds` | backend/internal/wallet/service_impl.go:148-168 | the exact effect and reply by the status of the hold: an active one frees its amount and nothing else changes; in every other case no table changes |
| `Wallet.ConfirmSpendsTheHold` | backend/internal/wallet/service_impl.go:117-146 | likewise for Confirm: amount from hold to ledger with the available funds unchanged, or the reply alone |
| `Wallet.ReserveHoldsTheFunds` | backend/internal/wallet/service_impl.go:72-115 | the reply and the rows written in every case, the first refusal that applies first |
| `Wallet.CreditAndDebitMoveTheBalance` | backend/internal/wallet/service_impl.go:32-70 | at most one ledger row, the balance moved by the amount, and nothing else; a new account is empty with a grace of 50 000 paise |
| `Wallet.HoldsResolveOnce` | backend/internal/wallet/service_impl.go:117-168 | over every later run a hold keeps seller, amount and ref, leaves "active" at most once, for confirmed or released, and never leaves those |
| `Wallet.WalletService.EnsureAccount` | backend/internal/wallet/service_impl.go:32-36 | opens an account once, with the default grace |
| `Wallet.RunIsSound` | backend/migrations/0009_wallet.up.sql:1-70 | amounts stay positive and refs unique in the ledger and hold tables over every run |
| `Wallet.ApplyConserves` | backend/internal/wallet/service_impl.go:55-190 | one call moves the balance away from the ledger, and hold_total away from the active holds, by exactly the untraced and leaked amount of that call |
| `Wallet.DriftLaw` | backend/internal/wallet/service_impl.go:55-190 | over every run, replays included: balance minus ledger is the sum of the untraced amounts, hold_total minus active holds the sum of the leaked ones |
| `Wallet.BooksBalanceExactly` | backend/internal/wallet/service_impl.go:55-190 | a seller's books agree all through a run if and only if no call of it is a replay that passes its checks on a (ref, direction) the ledger has or on the seller's own resolved hold |
| `Wallet.DriftIsAReplay` | backend/internal/wallet/repo.go:41-59 | a call drifts if and only if that guard, which can be looked up before the call, holds: a Reserve on an active ref and any Confirm never do |
| `Wallet.WalletFloor` | backend/internal/wallet/service_impl.go:170-190 | available funds never fall below zero before the first Debit, nor below minus (grace plus what was on hold at the last Debit) after it |
| `Wallet.ConfirmStaysWithinCredit` | backend/internal/wallet/service_impl.go:117-146 | in runs without Debits no Confirm takes the balance below the credit limit |
| `Wallet.FloorCanBeBreachedExactly` | backend/internal/wallet/service_impl.go:117-146 | some sequence of Confirms takes the balance below minus (grace plus credit) if and only if the balance less the active holds is below it already |
| `Wallet.DebitGuardsTheFloorExactly` | backend/internal/wallet/service_impl.go:176-187 | the floor a Debit has checked can be passed by later Confirms if and only if balance less amount less active holds, read before the Debit, lies below it |
| `Wallet.GraceFloorCanBeBreached` | backend/internal/wallet/service_impl.go:176-187 | that family is reached from an empty bank: reserve, debit to the floor, confirm |
| `Wallet.ResolvingTwiceIsOnce` | backend/internal/wallet/service_impl.go:117-168 | repeating a Confirm or a Release, with any ref, succeeds and changes nothing |
| `Wallet.CreditTwice` | backend/internal/wallet/service.go:21-23 | a repeated Credit leaves the ledger alone and raises the balance again, against the documented idempotence |
| `Wallet.ReserveTwiceExactly` | backend/internal/wallet/service.go:25-28 | a repeated Reserve is idempotent if and only if the funds would have covered the amount twice |
| `Wallet.LeakIsPermanent` | backend/internal/wallet/repo.go:50-68 | what a Reserve on a resolved ref adds to hold_total can be neither confirmed nor released, and after every later run hold_total still exceeds the active holds by it |
| `SessionCache.SessionCache.Get` | backend/internal/auth/cache.go:41-57 | map and list, walked in place, give the result and the next recency sequence of the specification; an expired entry is removed |
| `SessionCache.SessionCache.Set` | backend/internal/auth/cache.go:59-80 | refreshes and moves to the back, or evicts the front at capacity and appends |
| `SessionCache.SessionCache.Delete` | backend/internal/auth/cache.go:82-89 | removes the entry from map and list together |
| `SessionCache.SessionCache.MoveToBack` | backend/internal/auth/cache.go:41-57 | the list keeps its elements, the used one last, and map and list stay in one-to-one correspondence |
| `SessionCache.RunIsDistinctAndBounded` | backend/internal/auth/cache.go:59-80 | over every run hashes are distinct and the length never exceeds the capacity |
| `SessionCache.CachedIsStored` | backend/internal/auth/cache.go:41-89 | every cached item is what the history last stored under its hash |
| `SessionCache.HitReturnsLatest` | backend/internal/auth/cache.go:41-57 | a hit returns the principal of the latest Set with no later Delete, at most ttl old |
| `SessionCache.StoredIsLatestSet` | backend/internal/auth/cache.go:59-89 | "last stored" is read off the history: the Set after which nothing sets or deletes that hash |
| `SessionCache.BehindMeansUsedSince` | backend/internal/auth/cache.go:41-80 | the list is in order of use: everything behind an item was used after it |
| `SessionCache.EvictionNeedsCapOthers` | backend/internal/auth/cache.go:59-80 | an item at the front of a full cache has seen capacity-many other hashes used since |
| `SessionCache.RecentlyUsedIsPresent` | backend/internal/auth/cache.go:41-89 | a stored, unexpired hash is still cached if fewer than cap other hashes were set or hit since its last use |
| `Notifications.ReplaceAll` | backend/internal/notifications/notifications.go:134-146 | the byte loop is the left-to-right scan, terminates because the token is not empty, and re-encodes every byte it copies |
| `Notifications.Interpolate` | backend/internal/notifications/notifications.go:126-132 | the range loop replaces every key once, in whatever order the map gives |
| `Notifications.Parse` | backend/internal/notifications/notifications.go:126-146 | a template whose braces alternate is a sequence of literals and slots that renders back to it |
| `Notifications.ReplacedIsPass` | backend/internal/notifications/notifications.go:134-146 | on such a template one replacement fills exactly the slots of its key and re-encodes the rest once |
| `Notifications.OrderIsPasses` | backend/internal/notifications/notifications.go:126-146 | on such a template the loop over the map, in any order, is a walk of passes over the pieces |
| `Notifications.PassedIsSettled` | backend/internal/notifications/notifications.go:134-146 | where each piece ends: a filled slot is re-encoded once for every key visited after its own, other text once for every key |
| `Notifications.SettlesOneWayExactly` | backend/internal/notifications/notifications.go:126-132 | every map order leaves the same pieces if and only if the payload has at most one key or every value a slot uses is ASCII |
| `Notifications.InterpolationIsConfluent` | backend/internal/notifications/notifications.go:126-132 | under that condition any two map orders give the same string |
| `Notifications.AccentedValueShowsTheOrder` | backend/internal/notifications/notifications.go:126-146 | outside it the order can show: an accented value and a key the template never uses |
| `Notifications.InterpolationIsOnePassExactly` | backend/internal/notifications/notifications.go:126-146 | one map order gives simultaneous substitution if and only if the payload is empty, or the text outside the filled slots is ASCII and so is every used value but that of the key visited last |
| `Notifications.OnePassInEveryOrderExactly` | backend/internal/notifications/notifications.go:126-146 | every map order does if and only if the payload is empty, or the text outside the filled slots is ASCII and there is a single key or every used value is ASCII |
| `Notifications.AsciiTemplatesAreFilled` | backend/internal/notifications/notifications.go:126-146 | an ASCII template with alternating braces is filled in one pass whenever the values its slots use are ASCII |
| `Notifications.DashIsDamaged` | backend/internal/notifications/notifications.go:162-167 | a template with text outside ASCII anywhere around its slots, as the dash of several subjects, comes out as written if and only if the payload is empty |
| `Notifications.NestedBracesAreNotConfluent` | backend/internal/notifications/notifications.go:126-146 | without alternating braces the map order can show |
| `Outbox.Forwarder.ListAndMarkPending` | backend/internal/outbox/repo.go:43-82 | claims the oldest unlocked pending rows, at most n, and marks exactly those, or nothing when the commit fails |
| `Outbox.Forwarder.Forward` | backend/internal/outbox/forwarder.go:68-92 | marks the claim, then enqueues it as one batch; a failed insert leaves it marked |
| `Outbox.Forwarder.ForwardRounds` | backend/internal/outbox/forwarder.go:53-92 | undisturbed rounds enqueue the pending events oldest first, each once |
| `Outbox.RoundsToDrain` | backend/internal/outbox/forwarder.go:68-92 | n pending events are drained after that many rounds if and only if they are at least n over the batch size, rounded up |
| `Outbox.MarkingRemovesTheClaim` | backend/internal/outbox/repo.go:15-22 | marking a claim leaves exactly the other pending rows claimable, in order |
| `Outbox.NextKeepsInv` | backend/internal/outbox/repo.go:43-82 | every step of every forwarder, aborts and crashes included, keeps the invariant |
| `Outbox.EveryRunKeepsInv` | backend/internal/outbox/repo.go:43-82 | after any interleaving no event is enqueued twice, and every marked one is in exactly one of in hand, enqueued, dropped |
| `Outbox.DropsExactly` | backend/internal/outbox/forwarder.go:23-26 | some event is marked, not in the job queue and held by no forwarder if and only if some step crashed or failed to insert after its mark was committed; the at-least-once of the comment does not follow |
| `Outbox.LostForGood` | backend/internal/outbox/forwarder.go:23-26 | no later run of any forwarders enqueues or picks up an event lost that way |
| `Outbox.DroppedStaysDropped` | backend/internal/outbox/forwarder.go:23-26 | the same for an event of a batch known to be dropped |
| `Outbox.QuietMeansDelivered` | backend/internal/outbox/forwarder.go:68-92 | with nothing lost and nobody holding a batch, the enqueued events are the marked ones |
| `Breaker.Breaker.Allow` | backend/internal/carriers/breaker.go:44-66 | admits and counts exactly as the counter machine does |
| `Breaker.Breaker.RecordSuccess` | backend/internal/carriers/breaker.go:69-83 | clears failures; in half-open frees a slot and closes after enough successes |
| `Breaker.Breaker.RecordFailure` | backend/internal/carriers/breaker.go:86-98 | counts; trips at the threshold and clears the slots |
| `Breaker.Breaker.Guarded` | backend/internal/carriers/breaker.go:126-150 | the wrapper records successes and transient errors, and nothing for other errors |
| `Breaker.LawsHold` | backend/internal/carriers/breaker.go:44-98 | over every run of overlapping calls: failures counts failures since the last success; closed means below the threshold; slots taken are running probes plus leaked less stolen ones |
| `Breaker.ProbeBound` | backend/internal/carriers/breaker.go:41-43 | running probes plus leaked slots never exceed the limit plus the slots stolen by older calls |
| `Breaker.NothingStolenWithoutStale` | backend/internal/carriers/breaker.go:41-66 | without completions of older calls the documented bound on concurrent probes holds |
| `Breaker.TooManyProbesExactly` | backend/internal/carriers/breaker.go:41-66 | in half-open more probes run than allowed if and only if more slots were stolen by older calls than are leaked or free |
| `Breaker.BoundCanFailExactly` | backend/internal/carriers/breaker.go:41-98 | some run breaks the documented bound if and only if it takes two failures to trip or two successes to close: only thresholds of one keep it |
| `Breaker.StuckExactlyWhenWedged` | backend/internal/carriers/breaker.go:44-98 | a reachable breaker never admits a call again if and only if it is half-open with all slots taken and no call running |
| `Breaker.OtherErrorsWedge` | backend/internal/carriers/breaker.go:126-150 | probes that end in a non-transient error take it there, one slot each |
| `Breaker.FailuresTrip` | backend/internal/carriers/breaker.go:86-98 | a closed breaker trips at exactly the threshold of failures, and then refuses until more than the timeout has passed |
| `Breaker.TimeoutHalfOpens` | backend/internal/carriers/breaker.go:44-66 | the first call after that opens a half-open period with one slot taken |
| `Breaker.SuccessesClose` | backend/internal/carriers/breaker.go:69-83 | half-open closes at exactly the configured number of successes, with the failures forgotten |
| `CanonicalJson.CanonicalIgnoresKeyOrder` | backend/internal/audit/chain.go:41-84 | values that differ in key order alone, at any depth, have one canonical form |
| `CanonicalJson.CanonicalIsSame` | backend/internal/audit/chain.go:62-84 | canonical form is the same value as the original |
| `CanonicalJson.CanonicalIsIdempotent` | backend/internal/audit/chain.go:41-84 | canonicalising twice is canonicalising once |
| `CanonicalJson.CanonicalDecidesSameness` | backend/internal/audit/chain.go:41-84 | two values share a canonical form if and only if they differ in key order alone |
| `Audit.VerifyChain` | backend/internal/audit/chain.go:90-104 | accepts exactly the chains whose every hash recomputes behind the one before, and otherwise names the first that does not |
| `Audit.LastHashFixesEveryByte` | backend/internal/audit/chain.go:19-36 | two accepted chains of one length with one last hash hashed the same bytes at every position, or two of those inputs collide |
| `Audit.SameBytesSameFields` | backend/internal/audit/chain.go:19-36 | equal bytes from fields of equal lengths mean equal previous hash, id, seller, action, target, time, canonical payload and actor |
| `Audit.ProvenanceIsNotHashed` | backend/internal/audit/chain.go:10-18 | impersonation, address and agent are outside the hash |
| `Audit.BytesSurviveExactly` | backend/internal/audit/repo.go:107-148 | what verification hashes for a stored row is what Emit hashed if and only if the previous hashes agree, the payload was not nil and the time had no part below a microsecond |
| `Audit.RowsVerifyExactly` | backend/internal/audit/chain.go:90-104 | listed rows pass if and only if each carries the hash of the row listed before it and its event survived storage |
| `Audit.AuditService.IsHighValue` | backend/internal/audit/high_value.go:42-58 | true exactly for the listed actions and the listed prefixes |
| `Audit.FamiliesAndSingles` | backend/internal/audit/high_value.go:42-58 | an entry ending in a dot or underscore covers what starts with it, any other only itself |
| `Audit.DefaultsFillGaps` | backend/internal/audit/service_impl.go:36-52 | Emit fills in id, time and actor where the caller gave none, and keeps everything else |
| `Audit.AuditService.Emit` | backend/internal/audit/service_impl.go:36-52 | one row behind the last hash of its chain, or nothing for a low-value action |
| `Audit.SerialEmitsChain` | backend/internal/audit/repo.go:47-72 | serialised Emits over any mixture of sellers leave every chain numbered 1, 2, 3, … and linked hash by hash |
| `Audit.ListingIsTheChain` | backend/internal/audit/repo.go:74-80 | such a chain can be listed in one order only |
| `Audit.SerialChainsVerifyExactly` | backend/internal/audit/repo.go:153-200 | after serialised Emits a seller's listing verifies if and only if every event of that seller survives storage |
| `AuditOverlap.EveryRunIsAligned` | backend/internal/audit/service_impl.go:36-52 | in every interleaving of overlapping transactions each row was written for an event that some worker read in |
| `AuditOverlap.ListingHasSources` | backend/internal/audit/repo.go:153-200 | hence every listing has its source events |
| `AuditOverlap.TwoReadsShareTheHash` | backend/internal/audit/repo.go:30-46 | at any point of any run two Emits of a chain can both read its last hash before either commits |
| `AuditOverlap.CommitCarriesTheReadHash` | backend/internal/audit/repo.go:112-148 | whatever happens in between, the row a transaction commits carries the hash it read |
| `AuditOverlap.HashesTellRowsApart` | backend/internal/audit/chain.go:19-36 | rows with different ids of one length, behind hashes of one length, have different hashes unless their inputs collide |
| `AuditOverlap.TwoRowsBehindOneHashBreakTheChain` | backend/internal/audit/repo.go:30-72 | once two rows of a chain follow the same hash, no listing of that chain verifies in any later state; for a hash that is not empty, as long as ids are distinct and of one length, no two hashed inputs collide and no later row shares the hash of the first |
| `AuditOverlap.OverlappingEmitsBreakTheChain` | backend/internal/audit/service_impl.go:36-52 | hence: when two Emits that read the same last hash both commit, at any point of any run, no listing of that chain ever verifies again, under the same condition on ids, inputs and the first hash |
| `Policy.PolicyCache.GlobalLock` | backend/internal/policy/cache.go:36-43 | the cached lock if it has not expired |
| `Policy.PolicyCache.SellerTypeLock` | backend/internal/policy/cache.go:45-54 | the cached lock of the seller type if it has not expired |
| `Policy.PolicyCache.SellerOverride` | backend/internal/policy/cache.go:56-65 | the cached override if it has not expired |
| `Policy.PolicyCache.SetGlobalLock` | backend/internal/policy/cache.go:67-71 | replaces one entry, to expire one ttl from now |
| `Policy.PolicyCache.SetSellerTypeLock` | backend/internal/policy/cache.go:73-80 | replaces one entry of the nested map, creating the inner map if needed |
| `Policy.PolicyCache.SetSellerOverride` | backend/internal/policy/cache.go:82-89 | replaces one entry of the nested map, creating the inner map if needed |
| `Policy.PolicyCache.InvalidateSeller` | backend/internal/policy/cache.go:91-97 | deletes one override and nothing else |
| `Policy.PolicyCache.InvalidateLock` | backend/internal/policy/cache.go:99-111 | deletes one lock and nothing else |
| `Policy.Engine.constructor` | backend/internal/policy/service_impl.go:199-218 | a new engine's cache holds every lock row, stamped now, and no override |
| `Policy.Engine.ResolveSetting` | backend/internal/policy/service_impl.go:49-92 | the answer layer by layer: fresh global lock, fresh type lock, fresh cached override, override row, type default, global default; the failures and the promotion into the cache |
| `Policy.Engine.SetSellerOverride` | backend/internal/policy/service_impl.go:106-136 | refused when unknown, not overridable or locked in the cache; otherwise row and cache entry are written |
| `Policy.Engine.RemoveSellerOverride` | backend/internal/policy/service_impl.go:138-149 | row and cache entry go together |
| `Policy.Engine.InstallLock` | backend/internal/policy/service_impl.go:151-171 | row and cache entry are written together |
| `Policy.Engine.LiftLock` | backend/internal/policy/service_impl.go:173-185 | row and cache entry go together |
| `Policy.CacheMirrorsTables` | backend/internal/policy/service_impl.go:49-218 | over every serial run every cached override is its row, and the cached locks are the lock rows with the time of their installation or warming |
| `Policy.ResolveIsLayered` | backend/internal/policy/service_impl.go:49-92 | hence Resolve returns lock in force, else override row, else type default, else global default, whatever the cache holds |
| `Policy.ResolveByLayers` | backend/internal/policy/service_impl.go:49-92 | after any serial run, over tables alone: a global lock less than five seconds old, else likewise the type lock, else the override row, else the type default, else the global default |
| `Policy.ResolveCachesTheRow` | backend/internal/policy/service_impl.go:76-81 | a Resolve writes no table and caches exactly the row it had to read, for five seconds |
| `Policy.OverrideWritesTakeEffect` | backend/internal/policy/service_impl.go:106-149 | overrides are set and removed in table and cache, or refused for the first reason that applies with nothing written |
| `Policy.LockWritesTakeEffect` | backend/internal/policy/service_impl.go:151-185 | locks are installed and lifted in table and cache, or refused with nothing written |
| `Policy.FailedRowReadDropsTheOverride` | backend/internal/policy/service_impl.go:76-91 | a swallowed read failure can only drop the override layer |
| `Policy.OverrideIsLockedExactly` | backend/internal/policy/service_impl.go:114-120 | an override is refused as locked if and only if a lock row covers it that is less than five seconds old |
| `Policy.GlobalLockLastsFiveSeconds` | backend/internal/policy/cache.go:10-11 | an untouched lock is what Resolve answers for exactly five seconds; then its row remains and is ignored |
| `Policy.ServedOverrideIsRecent` | backend/internal/policy/cache.go:82-89 | however callers interleave, a cached override was its row's value less than five seconds plus the table-to-cache delay ago |
| `Policy.StalenessBoundIsTight` | backend/internal/policy/service_impl.go:76-81 | for every delay a late reader serves a removed override at the last nanosecond of that bound |
| `Contracts.ContractService.Create` | backend/internal/contracts/contracts.go:84-93 | adds one draft under a fresh id and touches no other contract |
| `Contracts.ContractService.ValueForType` | backend/internal/contracts/contracts.go:171-202 | the coercion of each setting type, and its refusals |
| `Contracts.TermsKeepTheirValue` | backend/internal/contracts/contracts.go:171-202 | truths, texts and lists of texts arrive unchanged, numbers cut toward zero, items that are not text are dropped, any other kind is refused |
| `Contracts.TermsArrive` | backend/internal/contracts/contracts.go:95-166 | after a successful activation each known key holds the value of its term, and the marker the contract id |
| `Contracts.ContractService.WriteTerms` | backend/internal/contracts/contracts.go:138-166 | writes terms in map order up to the first refused, then the marker |
| `Contracts.ContractService.Activate` | backend/internal/contracts/contracts.go:95-124 | supersedes, if that update does not fail, marks active unless the unique index refuses, refetches by id alone and writes the terms; every database failure on the way is an input |
| `Contracts.ContractService.Terminate` | backend/internal/contracts/contracts.go:214-238 | the seller's active contract is terminated, and the overrides are removed in any case |
| `Contracts.TerminateEndsTheContract` | backend/internal/contracts/contracts.go:214-238 | exactly the seller's active contract goes to terminated; foreign, inactive and other contracts keep their phase |
| `Contracts.ActivateMovesThePhases` | backend/internal/contracts/contracts.go:95-124 | the marked contract is active and the one active before superseded; with failures, exactly what did not fail |
| `Contracts.ActivateExactly` | backend/internal/contracts/contracts.go:95-166 | an activation succeeds if and only if the contract exists, is marked and read back, no lost supersede leaves another active one in its way, and every known term and the marker can be written; then the rows are the old ones overlaid with both, whatever the map order |
| `Contracts.LaterTermsWin` | backend/internal/contracts/contracts.go:95-166 | after activations that all succeed each setting is the last term naming it, and what none names is untouched |
| `Contracts.AtMostOneActive` | backend/migrations/0017_contracts.up.sql:30-30 | no serial run leaves a seller two active contracts, whatever updates fail, the ignored supersede among them |
| `Contracts.ActivateThenTerminateRemovesItsKeys` | backend/internal/contracts/contracts.go:95-238 | activating, even half-way, and then terminating removes exactly the contract's known keys and the marker |
| `Contracts.ActivateThenTerminateIsIdentityExactly` | backend/internal/contracts/contracts.go:95-238 | the pair is the identity on overrides if and only if none of those keys was overridden before |
| `Contracts.TerminatingTheOldStripsTheNew` | backend/internal/contracts/contracts.go:214-238 | terminating a superseded contract leaves its successor active without marker and without every shared term |
| `Allocation.AllocationEngine.BuildCandidates` | backend/internal/allocation/allocation.go:120-137 | exactly the allowed, not excluded, well-formed carriers, in both services |
| `Allocation.AllocationEngine.Measure` | backend/internal/allocation/allocation.go:159-173 | the attained minimum and maximum cost and maximum days |
| `Allocation.AllocationEngine.SortByScore` | backend/internal/allocation/allocation.go:199-201 | descending by score, as a permutation, in place |
| `Allocation.AllocationEngine.Rank` | backend/internal/allocation/allocation.go:155-211 | None exactly when nobody quoted; otherwise a ranking of the scored quotes |
| `Allocation.ScoresAreFractionsExactly` | backend/internal/allocation/allocation.go:175-191 | cost scores lie in [0, 1] and speed scores are not negative; all speed scores are at most one if and only if no quote needs a positive number of days or none promises less than one |
| `Allocation.ScoresAreNormalised` | backend/internal/allocation/allocation.go:175-191 | each score times its span is the money or the days short of the worst |
| `Allocation.BlendIsAFraction` | backend/internal/allocation/allocation.go:189-190 | with non-negative weights the total of two such scores lies in [0, 1] |
| `Allocation.DominatingScoresHigher` | backend/internal/allocation/allocation.go:175-191 | a quote that is better in one respect and no worse in the other scores strictly higher |
| `Allocation.RecommendationIsParetoOptimal` | backend/internal/allocation/allocation.go:199-211 | no quote dominates the recommended one |
| `Allocation.OrderIsTheBalance` | backend/internal/allocation/allocation.go:175-191 | of two quotes the higher scored is the one an integer balance of money and days saved favours: exact in both directions |
| `Allocation.ProportionKeepsEveryOrder` | backend/internal/allocation/allocation.go:159-191 | adding or dropping quotes keeps the order of any two others as long as cost range and longest time stay in proportion |
| `Allocation.OrderFlipsExactly` | backend/internal/allocation/allocation.go:175-191 | which of two quotes ranks higher depends on what else is quoted if and only if one is cheaper and the other faster |
| `Allocation.ALoserCanFlipTheWinner` | backend/internal/allocation/allocation.go:175-191 | one extra quote that wins nothing is enough to flip such a pair |
| `Pricing.PricingEngine.FindZone` | backend/internal/pricing/pricing.go:185-206 | the first zone with a code and a matching pattern |
| `Pricing.PricingEngine.ComputeQuote` | backend/internal/pricing/pricing.go:177-249 | zone, weight, row and slabs by the card alone: base plus rate times the least number of further slabs |
| `Pricing.QuoteIsCharged` | backend/internal/pricing/pricing.go:177-249 | a quote charges the larger of declared and volumetric weight on the first covering row of the first matching zone, with its days, base and the fewest further slabs |
| `Pricing.ChargedIsQuoted` | backend/internal/pricing/pricing.go:177-249 | and whatever the card charges so is quoted |
| `Pricing.PricingEngine.QuoteAll` | backend/internal/pricing/pricing.go:94-117 | the quotes of the candidates that can be priced, in order, for no other carrier |
| `Pricing.QuotesAreTheCandidates` | backend/internal/pricing/pricing.go:94-117 | each priceable candidate is quoted as often as it was asked for, and nobody else |
| `Pricing.PricingEngine.HandleQuote` | backend/api/http/handlers/pricing.go:69-140 | refuses a malformed pincode, an empty request, an unknown payment mode or a non-positive package, and nothing else; otherwise one row per quoted carrier and service with the sums, counts, first zone and largest days of its quotes |
| `Pricing.ExtraSlabsAreLeast` | backend/internal/pricing/pricing.go:228-237 | the extra slabs are the fewest that, with the first, hold the chargeable weight |
| `Pricing.VolumetricIsCloseBelow` | backend/internal/pricing/pricing.go:208-213 | the integer volumetric weight is below the exact one by less than a kilogram |
| `Pricing.QuoteIsMonotone` | backend/internal/pricing/pricing.go:208-246 | within one slab row with non-negative rates, a package no smaller in weight and each dimension never costs less |
| `Pricing.PricesNeverFallExactly` | backend/internal/pricing/pricing.go:142-148 | on a card whose rows do not overlap, a heavier weight never costs less if and only if no row falls within itself and every row ends no dearer than any higher row begins |
| `Pricing.LargerNeverCostsLess` | backend/internal/pricing/pricing.go:177-249 | on such a card a package no smaller in weight and each dimension never costs less, across rows too |
| `Pricing.HeavierCanCostLess` | backend/internal/pricing/pricing.go:142-148 | a card outside that condition, and the two weights that show it |
| `Pricing.RowTotalIsItsBreakdown` | backend/api/http/handlers/pricing.go:116-139 | after the package loop each total is the sum of its breakdown |
| `Money.AddIsExact` | backend/internal/core/money.go:78-85 | Add reports success if and only if the true sum fits, and then it is the sum |
| `Money.SubIsExact` | backend/internal/core/money.go:97-104 | the same for Sub |
| `Money.MulIntIsExactButOnce` | backend/internal/core/money.go:115-125 | the divide-back check is right for every pair but MinInt64 times minus one, which it passes |
| `Money.MulPercentIsExactly` | backend/internal/core/money.go:127-139 | refuses negative rates and overflow above; what it reports as a success is the amount cut toward zero if and only if the product is not below MinInt64 |

## Left out

- HTTP routing, middleware, sessions, OAuth, configuration, logging, metrics and the frontend: plumbing and presentation.
- Carrier, shop, storage, mail and SMS clients: a carrier is an input (an AWB, a transient error, another error); AWBs are assumed not to be empty.
- SQL text, connection pools, JSON and UUID libraries: only row effects; row-level security is a seller filter on the row looked up. The audit table's policies, which name SELECT alone, are not modelled.
- SHA-256, base64url, RFC 3339 formatting, json.Marshal and JSONB: functions handed in; results hold unless two of the inputs in question collide. Times are those of the years 1 to 9999.
- Carrier status tables, the dedupe hash and regular expressions: functions handed in.
- Reads and edits without a state machine: Get, List, FetchLabel, order Update and MarkPaid, label and catalogue queries.
- NDR, seller lifecycle, support, reports, risk, limits, COD and reconciliation services: unguarded single-row updates that add only easy members.
- 64-bit wrap-around outside `Money.dfy`, and floating-point rounding in allocation: integers are unbounded and scores exact rationals. A zero sum of weights, where the scores are not numbers, is excluded.
- The order sort.Slice leaves equal elements in: any sorted permutation is allowed.
- Shipment event logs when a Cancel races with a Book: phase B has no state guard, so nothing is claimed about that walk.
- Several clock readings within one call count as one reading; a walk over a batch stamps one time.
- Tracking.TrackingService.PollNow: a mark that fails on the database is not modelled. After such a failure the prediction runs ahead of the row, so that `Tracking.PollNeverIssuesARefusedMark` and the comparison with ingestion do not cover that poll: of a pickup and a delivery, the second mark is then refused.
- Tracking.TrackingService.IngestOne: likewise for its one mark; a failed lookup or insert is modelled.
- Database failures in the order and wallet services, and in the marks of the shipment service.
- Database failures inside contract Create and Terminate: those of Activate are inputs, these are not.
- Rate card rows that overlap: the query picks one of them by its plan, the model the first; `Pricing.PricesNeverFallExactly` is about rows that do not overlap.
- Templates whose braces do not alternate, and slot names outside ASCII beside keys outside ASCII: only examples or nothing is claimed about them.
- A global policy lock with a non-empty scope value, and policy audit events on read: not modelled.
- EmitAsync and the platform chain's verification job: the first only hands an event to an outbox that is not wired, the second does not exist.
- Several Emits inside one overlapping transaction: in the interleaved audit model a transaction emits once.
- Rows of the quote response are values in the map, not shared pointers; no alias of them is ever taken.
- HTML rendering puts the recipient's name into the payload map before it interpolates: only interpolation is modelled.
