/**
 The order record and its state machine (backend/internal/orders).

 One service transaction is one method call. The methods follow the Go code: lock the row, check,
 update, append an order_state_event row. `Enabled` and `After` are the specification: a small table
 of the states each operation works from, and the row it leaves. The lemmas are about every run of
 operations on one order.
 */
module Orders {
  import opened Core

  datatype OrderState =
    Draft | Ready | Allocating | Booked | InTransit | Delivered | Closed | Cancelled | RTO

  datatype StateEvent = StateEvent(from: OrderState, to: OrderState)

  /** An order_record row with its order_state_event rows, oldest first. */
  datatype Order = Order(
    seller: SellerId,
    state: OrderState,
    awb: Option<string>,
    carrier: Option<string>,
    bookedAt: Option<Time>,
    shippedAt: Option<Time>,
    deliveredAt: Option<Time>,
    cancelledAt: Option<Time>,
    events: seq<StateEvent>)

  datatype OrderOp =
    | MarkReady
    | Cancel
    | MarkAllocating
    | MarkBooked(awb: string, carrier: string)
    | MarkInTransit
    | MarkDelivered
    | MarkRTO
    | Close

  // ---------------------------------------------------------------- the table and its lookup

  function AllowedTargets(from: OrderState): set<OrderState> {
    match from
    case Draft => {Ready, Cancelled}
    case Ready => {Allocating, Cancelled, Draft}
    case Allocating => {Booked, Ready, Cancelled}
    case Booked => {InTransit, Cancelled, RTO}
    case InTransit => {Delivered, RTO}
    case Delivered => {Closed, RTO}
    case Closed => {}
    case Cancelled => {}
    case RTO => {Closed}
  }

  predicate CanTransition(from: OrderState, to: OrderState) {
    to in AllowedTargets(from)
  }

  // ---------------------------------------------------------------- specification of one operation

  /** The states an operation works from. Note MarkBooked: only from allocating. */
  function Sources(op: OrderOp): set<OrderState> {
    match op
    case MarkReady => {Draft}
    case Cancel => {Draft, Ready, Allocating, Booked}
    case MarkAllocating => {Ready}
    case MarkBooked(_, _) => {Allocating}
    case MarkInTransit => {Booked}
    case MarkDelivered => {InTransit}
    case MarkRTO => {Booked, InTransit, Delivered}
    case Close => {Delivered, RTO}
  }

  function Target(op: OrderOp): OrderState {
    match op
    case MarkReady => Ready
    case Cancel => Cancelled
    case MarkAllocating => Allocating
    case MarkBooked(_, _) => Booked
    case MarkInTransit => InTransit
    case MarkDelivered => Delivered
    case MarkRTO => RTO
    case Close => Closed
  }

  predicate Enabled(o: Order, op: OrderOp) {
    o.state in Sources(op)
  }

  /** SQL's COALESCE(column, now()). */
  function Coalesce(stamp: Option<Time>, now: Time): Option<Time> {
    if stamp.Some? then stamp else Some(now)
  }

  /** The row an enabled operation leaves. */
  function After(o: Order, op: OrderOp, now: Time): Order {
    var moved := o.(state := Target(op), events := o.events + [StateEvent(o.state, Target(op))]);
    match op
    case MarkBooked(awb, carrier) => moved.(awb := Some(awb), carrier := Some(carrier), bookedAt := Some(now))
    case MarkInTransit => moved.(shippedAt := Coalesce(o.shippedAt, now))
    case MarkDelivered => moved.(deliveredAt := Coalesce(o.deliveredAt, now))
    case Cancel => moved.(cancelledAt := Some(now))
    case _ => moved
  }

  /** One call on one row: a refused call leaves the row alone. */
  function Step(o: Order, op: OrderOp, now: Time): Order {
    if Enabled(o, op) then After(o, op, now) else o
  }

  type OrderTable = map<OrderId, Order>

  predicate Owns(t: OrderTable, seller: SellerId, id: OrderId) {
    id in t && t[id].seller == seller
  }

  /** One call on the table: a missing row, or another seller's, is not found. */
  function StepTable(t: OrderTable, seller: SellerId, id: OrderId, op: OrderOp, now: Time): OrderTable {
    if Owns(t, seller, id) then t[id := Step(t[id], op, now)] else t
  }

  function OutcomeOf(t: OrderTable, seller: SellerId, id: OrderId, op: OrderOp): Outcome {
    if !Owns(t, seller, id) then Refused(NotFound)
    else if Enabled(t[id], op) then Done
    else Refused(InvalidArgument)
  }

  function NewOrder(seller: SellerId): Order {
    Order(seller, Draft, None, None, None, None, None, None, [])
  }

  // ---------------------------------------------------------------- the service

  class OrderService {
    var table: OrderTable
    /** The unique index on (seller_id, channel, channel_order_id). */
    var channelKeys: set<(SellerId, string, string)>

    constructor ()
      ensures table == map[] && channelKeys == {}
    {
      table := map[];
      channelKeys := {};
    }

    /**
     Create: a fresh row in draft. `checksHold` says whether the CHECK constraints of the two tables
     accept the request.
     */
    method Create(
        seller: SellerId, freshId: OrderId, channel: string, channelOrderId: string, lines: nat, checksHold: bool)
      returns (r: Outcome)
      requires freshId !in table
      modifies this
      ensures r ==
        if lines == 0 then Refused(InvalidArgument)
        else if (seller, channel, channelOrderId) in old(channelKeys) || !checksHold then Refused(Database)
        else Done
      ensures table == if r == Done then old(table)[freshId := NewOrder(seller)] else old(table)
      ensures channelKeys
              == if r == Done then old(channelKeys) + {(seller, channel, channelOrderId)} else old(channelKeys)
    {
      if lines == 0 {
        return Refused(InvalidArgument);
      }
      var key := (seller, channel, channelOrderId);
      if key in channelKeys || !checksHold {
        return Refused(Database);
      }
      channelKeys := channelKeys + {key};
      table := table[freshId := NewOrder(seller)];
      r := Done;
    }

    /** transitionState: re-checks the table, stamps the milestone column, appends the event. */
    method TransitionState(id: OrderId, from: OrderState, to: OrderState, now: Time) returns (r: Outcome)
      requires id in table && table[id].state == from
      modifies this`table
      ensures !CanTransition(from, to) ==> r == Refused(InvalidArgument) && table == old(table)
      ensures CanTransition(from, to) ==>
        r == Done &&
        table == old(table)[id := old(table)[id].(
          state := to,
          shippedAt := if to == InTransit then Coalesce(old(table)[id].shippedAt, now) else old(table)[id].shippedAt,
          deliveredAt := if to == Delivered
            then Coalesce(old(table)[id].deliveredAt, now) else old(table)[id].deliveredAt,
          events := old(table)[id].events + [StateEvent(from, to)])]
    {
      if !CanTransition(from, to) {
        return Refused(InvalidArgument);
      }
      var row := table[id];
      if to == InTransit {
        row := row.(state := to, shippedAt := Coalesce(row.shippedAt, now));
      } else if to == Delivered {
        row := row.(state := to, deliveredAt := Coalesce(row.deliveredAt, now));
      } else {
        row := row.(state := to);
      }
      row := row.(events := row.events + [StateEvent(from, to)]);
      table := table[id := row];
      r := Done;
    }

    /** transitionUnder: a fixed source state, checked under the row lock. */
    method TransitionUnder(seller: SellerId, id: OrderId, from: OrderState, op: OrderOp, now: Time)
      returns (r: Outcome)
      requires Sources(op) == {from}
      requires op.MarkReady? || op.MarkAllocating? || op.MarkInTransit? || op.MarkDelivered?
      modifies this`table
      ensures r == OutcomeOf(old(table), seller, id, op)
      ensures table == StepTable(old(table), seller, id, op, now)
    {
      if !(id in table && table[id].seller == seller) {
        return Refused(NotFound);
      }
      var state := table[id].state;
      if state != from {
        assert from in Sources(op);
        return Refused(InvalidArgument);
      }
      assert from in Sources(op);
      r := TransitionState(id, from, Target(op), now);
    }

    method MarkReady(seller: SellerId, id: OrderId, now: Time) returns (r: Outcome)
      modifies this`table
      ensures r == OutcomeOf(old(table), seller, id, OrderOp.MarkReady)
      ensures table == StepTable(old(table), seller, id, OrderOp.MarkReady, now)
    {
      r := TransitionUnder(seller, id, Draft, OrderOp.MarkReady, now);
    }

    method MarkAllocating(seller: SellerId, id: OrderId, now: Time) returns (r: Outcome)
      modifies this`table
      ensures r == OutcomeOf(old(table), seller, id, OrderOp.MarkAllocating)
      ensures table == StepTable(old(table), seller, id, OrderOp.MarkAllocating, now)
    {
      r := TransitionUnder(seller, id, Ready, OrderOp.MarkAllocating, now);
    }

    method MarkInTransit(seller: SellerId, id: OrderId, now: Time) returns (r: Outcome)
      modifies this`table
      ensures r == OutcomeOf(old(table), seller, id, OrderOp.MarkInTransit)
      ensures table == StepTable(old(table), seller, id, OrderOp.MarkInTransit, now)
    {
      r := TransitionUnder(seller, id, Booked, OrderOp.MarkInTransit, now);
    }

    method MarkDelivered(seller: SellerId, id: OrderId, now: Time) returns (r: Outcome)
      modifies this`table
      ensures r == OutcomeOf(old(table), seller, id, OrderOp.MarkDelivered)
      ensures table == StepTable(old(table), seller, id, OrderOp.MarkDelivered, now)
    {
      r := TransitionUnder(seller, id, InTransit, OrderOp.MarkDelivered, now);
    }

    method Cancel(seller: SellerId, id: OrderId, now: Time) returns (r: Outcome)
      modifies this`table
      ensures r == OutcomeOf(old(table), seller, id, OrderOp.Cancel)
      ensures table == StepTable(old(table), seller, id, OrderOp.Cancel, now)
    {
      if !(id in table && table[id].seller == seller) {
        return Refused(NotFound);
      }
      var state := table[id].state;
      if !CanTransition(state, Cancelled) {
        return Refused(InvalidArgument);
      }
      table := table[id := table[id].(state := Cancelled, cancelledAt := Some(now))];
      table := table[id := table[id].(events := table[id].events + [StateEvent(state, Cancelled)])];
      r := Done;
    }

    /** The guard lets ready through, as the source's comment intends; the transition table then refuses it. */
    method MarkBooked(seller: SellerId, id: OrderId, awb: string, carrier: string, now: Time) returns (r: Outcome)
      modifies this`table
      ensures r == OutcomeOf(old(table), seller, id, OrderOp.MarkBooked(awb, carrier))
      ensures table == StepTable(old(table), seller, id, OrderOp.MarkBooked(awb, carrier), now)
    {
      if !(id in table && table[id].seller == seller) {
        return Refused(NotFound);
      }
      var state := table[id].state;
      if state != Allocating && state != Ready {
        return Refused(InvalidArgument);
      }
      r := TransitionState(id, state, Booked, now);
      if r != Done {
        return;
      }
      table := table[id := table[id].(awb := Some(awb), carrier := Some(carrier), bookedAt := Some(now))];
    }

    method MarkRTO(seller: SellerId, id: OrderId, now: Time) returns (r: Outcome)
      modifies this`table
      ensures r == OutcomeOf(old(table), seller, id, OrderOp.MarkRTO)
      ensures table == StepTable(old(table), seller, id, OrderOp.MarkRTO, now)
    {
      if !(id in table && table[id].seller == seller) {
        return Refused(NotFound);
      }
      var state := table[id].state;
      if !CanTransition(state, RTO) {
        return Refused(InvalidArgument);
      }
      r := TransitionState(id, state, RTO, now);
    }

    method Close(seller: SellerId, id: OrderId, now: Time) returns (r: Outcome)
      modifies this`table
      ensures r == OutcomeOf(old(table), seller, id, OrderOp.Close)
      ensures table == StepTable(old(table), seller, id, OrderOp.Close, now)
    {
      if !(id in table && table[id].seller == seller) {
        return Refused(NotFound);
      }
      var state := table[id].state;
      if !CanTransition(state, Closed) {
        return Refused(InvalidArgument);
      }
      r := TransitionState(id, state, Closed, now);
    }
  }

  // ---------------------------------------------------------------- runs

  /** Any calls, in any order, at any clock readings, refused ones included. */
  function Run(o: Order, calls: seq<(OrderOp, Time)>): Order
    decreases |calls|
  {
    if calls == [] then o
    else Step(Run(o, calls[..|calls| - 1]), calls[|calls| - 1].0, calls[|calls| - 1].1)
  }

  /** How far along its life an order is. */
  function Rank(s: OrderState): nat {
    match s
    case Draft => 0
    case Ready => 1
    case Allocating => 2
    case Booked => 3
    case InTransit => 4
    case Delivered => 5
    case RTO => 6
    case Closed => 7
    case Cancelled => 7
  }

  /** The log is a walk in the allowed table from draft to `end`, each step climbing in rank. */
  predicate Walk(events: seq<StateEvent>, end: OrderState) {
    if events == [] then end == Draft
    else
      var last := events[|events| - 1];
      && last.to == end
      && CanTransition(last.from, last.to)
      && Rank(last.from) < Rank(last.to)
      && Walk(events[..|events| - 1], last.from)
  }

  /** Some entry of the log leads to s. */
  predicate Enters(events: seq<StateEvent>, s: OrderState) {
    events != [] && (events[|events| - 1].to == s || Enters(events[..|events| - 1], s))
  }

  predicate Logged(o: Order, s: OrderState) {
    Enters(o.events, s)
  }

  /** What every reachable row satisfies. */
  predicate Coherent(o: Order) {
    && Walk(o.events, o.state)
    && (o.bookedAt.Some? <==> Logged(o, Booked))
    && (o.awb.Some? <==> Logged(o, Booked))
    && (o.carrier.Some? <==> Logged(o, Booked))
    && (o.shippedAt.Some? <==> Logged(o, InTransit))
    && (o.deliveredAt.Some? <==> Logged(o, Delivered))
    && (o.cancelledAt.Some? <==> Logged(o, Cancelled))
  }

  lemma AppendLogged(o: Order, o': Order, e: StateEvent, s: OrderState)
    requires o'.events == o.events + [e]
    ensures Logged(o', s) <==> Logged(o, s) || e.to == s
  {
    assert o'.events[..|o.events|] == o.events;
  }

  lemma StepKeepsWalk(o: Order, op: OrderOp, now: Time)
    requires Walk(o.events, o.state) && Enabled(o, op)
    ensures var o' := After(o, op, now);
      Walk(o'.events, o'.state) && o'.events == o.events + [StateEvent(o.state, Target(op))]
  {
    AfterLogs(o, op, now);
    EnabledClimbs(o, op);
    OneMoreStep(o.events, o.state, Target(op));
  }

  lemma AfterLogs(o: Order, op: OrderOp, now: Time)
    ensures var o' := After(o, op, now);
      o'.state == Target(op) && o'.events == o.events + [StateEvent(o.state, Target(op))]
  {
  }

  lemma EnabledClimbs(o: Order, op: OrderOp)
    requires Enabled(o, op)
    ensures CanTransition(o.state, Target(op)) && Rank(o.state) < Rank(Target(op))
  {
  }

  lemma OneMoreStep(events: seq<StateEvent>, from: OrderState, to: OrderState)
    requires Walk(events, from) && CanTransition(from, to) && Rank(from) < Rank(to)
    ensures Walk(events + [StateEvent(from, to)], to)
  {
    assert (events + [StateEvent(from, to)])[..|events|] == events;
  }

  /** Each stamp is set by the step into its state and by no other. */
  lemma StampsFollow(o: Order, op: OrderOp, now: Time, booked: bool, shipped: bool, delivered: bool, cancelled: bool)
    requires o.bookedAt.Some? == o.awb.Some? == o.carrier.Some? == booked
    requires o.shippedAt.Some? == shipped && o.deliveredAt.Some? == delivered && o.cancelledAt.Some? == cancelled
    ensures var o', to := After(o, op, now), Target(op);
      && o'.bookedAt.Some? == o'.awb.Some? == o'.carrier.Some? == (booked || to == Booked)
      && o'.shippedAt.Some? == (shipped || to == InTransit)
      && o'.deliveredAt.Some? == (delivered || to == Delivered)
      && o'.cancelledAt.Some? == (cancelled || to == Cancelled)
  {
  }

  lemma StepKeepsCoherent(o: Order, op: OrderOp, now: Time)
    requires Coherent(o)
    ensures Coherent(Step(o, op, now))
  {
    if Enabled(o, op) {
      var o' := After(o, op, now);
      var e := StateEvent(o.state, Target(op));
      StepKeepsWalk(o, op, now);
      AppendLogged(o, o', e, Booked);
      AppendLogged(o, o', e, InTransit);
      AppendLogged(o, o', e, Delivered);
      AppendLogged(o, o', e, Cancelled);
      StampsFollow(o, op, now, Logged(o, Booked), Logged(o, InTransit), Logged(o, Delivered), Logged(o, Cancelled));
    }
  }

  /** Main result: whatever is called, the row stays coherent with its log. */
  lemma {:induction false} RunsAreCoherent(seller: SellerId, calls: seq<(OrderOp, Time)>)
    ensures Coherent(Run(NewOrder(seller), calls))
  {
    if calls != [] {
      RunsAreCoherent(seller, calls[..|calls| - 1]);
      StepKeepsCoherent(Run(NewOrder(seller), calls[..|calls| - 1]), calls[|calls| - 1].0, calls[|calls| - 1].1);
    }
  }

  lemma {:induction false} WalkIsShort(events: seq<StateEvent>, end: OrderState)
    requires Walk(events, end)
    ensures |events| <= Rank(end)
  {
    if events != [] {
      WalkIsShort(events[..|events| - 1], events[|events| - 1].from);
    }
  }

  /** No run ever records more than seven transitions of an order, and no state twice. */
  lemma AtMostSevenEvents(seller: SellerId, calls: seq<(OrderOp, Time)>)
    ensures |Run(NewOrder(seller), calls).events| <= 7
    ensures var ev := Run(NewOrder(seller), calls).events;
      forall j, k :: 0 <= j < k < |ev| ==> ev[j].to != ev[k].to
  {
    var o := Run(NewOrder(seller), calls);
    RunsAreCoherent(seller, calls);
    WalkIsShort(o.events, o.state);
    forall j, k | 0 <= j < k < |o.events| ensures o.events[j].to != o.events[k].to {
      WalkClimbs(o.events, o.state, j, k);
    }
  }

  lemma {:induction false} WalkClimbs(events: seq<StateEvent>, end: OrderState, j: nat, k: nat)
    requires Walk(events, end) && j < k < |events|
    ensures Rank(events[j].to) < Rank(events[k].to)
    decreases |events|
  {
    var init := events[..|events| - 1];
    if k < |events| - 1 {
      WalkClimbs(init, events[|events| - 1].from, j, k);
    } else if j < k - 1 {
      WalkClimbs(init, events[|events| - 1].from, j, k - 1);
      assert events[k - 1].to == events[k].from;
    } else {
      assert init[j] == events[j] && init[|init| - 1].to == events[k].from;
    }
  }

  /** `later` still carries every milestone `o` has, and extends its log. */
  predicate KeepsMilestones(o: Order, later: Order) {
    && (o.awb.Some? ==> later.awb == o.awb && later.carrier == o.carrier && later.bookedAt == o.bookedAt)
    && (o.shippedAt.Some? ==> later.shippedAt == o.shippedAt)
    && (o.deliveredAt.Some? ==> later.deliveredAt == o.deliveredAt)
    && (o.cancelledAt.Some? ==> later.cancelledAt == o.cancelledAt)
    && o.events <= later.events
  }

  lemma StepKeepsMilestones(o: Order, op: OrderOp, now: Time)
    requires Coherent(o)
    ensures KeepsMilestones(o, Step(o, op, now))
  {
    LoggedIsBehind(o);
  }

  /** Once written, the AWB, the carrier and the four stamps of an order never change again. */
  lemma {:induction false} MilestonesAreWrittenOnce(
    seller: SellerId, first: seq<(OrderOp, Time)>, later: seq<(OrderOp, Time)>)
    ensures KeepsMilestones(Run(NewOrder(seller), first), Run(NewOrder(seller), first + later))
    decreases |later|
  {
    var all := first + later;
    if later == [] {
      assert all == first;
    } else {
      var init := later[..|later| - 1];
      assert all[..|all| - 1] == first + init;
      MilestonesAreWrittenOnce(seller, first, init);
      RunsAreCoherent(seller, first + init);
      StepKeepsMilestones(Run(NewOrder(seller), first + init), all[|all| - 1].0, all[|all| - 1].1);
    }
  }

  /** A state in the log ranks no higher than the current one; booked and cancelled cannot recur. */
  lemma LoggedIsBehind(o: Order)
    requires Walk(o.events, o.state)
    ensures forall s :: Logged(o, s) ==> Rank(s) <= Rank(o.state)
  {
    forall s | Logged(o, s) ensures Rank(s) <= Rank(o.state) {
      EnteredIsBehind(o.events, o.state, s);
    }
  }

  lemma {:induction false} EnteredIsBehind(events: seq<StateEvent>, end: OrderState, s: OrderState)
    requires Walk(events, end) && Enters(events, s)
    ensures Rank(s) <= Rank(end)
  {
    var last := events[|events| - 1];
    if last.to != s {
      EnteredIsBehind(events[..|events| - 1], last.from, s);
    }
  }

  /** The operation takes the order to this state exactly from where the allowed table leads there. */
  predicate MovesTo(o: Order, op: OrderOp, to: OrderState, now: Time) {
    if CanTransition(o.state, to) then Step(o, op, now) != o && Step(o, op, now).state == to else Step(o, op, now) == o
  }

  /**
   Main result, exact: each operation takes an order to the state of its name, from exactly the states
   from which the allowed table leads there; "ready" alone is narrower, from draft only.
   */
  lemma WorksWhereTheTableAllows(o: Order, awb: string, carrier: string, now: Time)
    ensures MovesTo(o, OrderOp.MarkAllocating, Allocating, now)
    ensures MovesTo(o, OrderOp.MarkBooked(awb, carrier), Booked, now)
    ensures MovesTo(o, OrderOp.MarkInTransit, InTransit, now)
    ensures MovesTo(o, OrderOp.MarkDelivered, Delivered, now)
    ensures MovesTo(o, OrderOp.MarkRTO, RTO, now)
    ensures MovesTo(o, OrderOp.Close, Closed, now)
    ensures MovesTo(o, OrderOp.Cancel, Cancelled, now)
    ensures if o.state == Draft then Step(o, OrderOp.MarkReady, now).state == Ready
            else Step(o, OrderOp.MarkReady, now) == o
  {
  }

  /** Call number k took the order into state s. */
  predicate Entered(seller: SellerId, calls: seq<(OrderOp, Time)>, k: int, s: OrderState) {
    && 0 <= k < |calls|
    && Run(NewOrder(seller), calls[..k]).state != s && Run(NewOrder(seller), calls[..k + 1]).state == s
  }

  /** The order went into s by this call at this time. */
  ghost predicate WentBy(seller: SellerId, calls: seq<(OrderOp, Time)>, s: OrderState, op: OrderOp, at: Time) {
    exists k :: Entered(seller, calls, k, s) && calls[k] == (op, at)
  }

  /** Stamps, AWB and carrier of the row are those of the very calls that took the order into the state. */
  ghost predicate StampsAreTrue(seller: SellerId, calls: seq<(OrderOp, Time)>, o: Order) {
    && (o.bookedAt.Some? ==> BookedBy(seller, calls, o))
    && (o.shippedAt.Some? ==> WentBy(seller, calls, InTransit, OrderOp.MarkInTransit, o.shippedAt.value))
    && (o.deliveredAt.Some? ==> WentBy(seller, calls, Delivered, OrderOp.MarkDelivered, o.deliveredAt.value))
    && (o.cancelledAt.Some? ==> WentBy(seller, calls, Cancelled, OrderOp.Cancel, o.cancelledAt.value))
  }

  ghost predicate BookedBy(seller: SellerId, calls: seq<(OrderOp, Time)>, o: Order)
    requires o.bookedAt.Some?
  {
    && o.awb.Some? && o.carrier.Some?
    && WentBy(seller, calls, Booked, OrderOp.MarkBooked(o.awb.value, o.carrier.value), o.bookedAt.value)
  }

  lemma WentByStays(
      seller: SellerId, calls: seq<(OrderOp, Time)>, last: (OrderOp, Time), s: OrderState, op: OrderOp, at: Time)
    ensures WentBy(seller, calls, s, op, at) ==> WentBy(seller, calls + [last], s, op, at)
  {
    if k :| Entered(seller, calls, k, s) && calls[k] == (op, at) {
      assert (calls + [last])[..k] == calls[..k] && (calls + [last])[..k + 1] == calls[..k + 1];
      assert Entered(seller, calls + [last], k, s);
    }
  }

  lemma WentByLast(seller: SellerId, calls: seq<(OrderOp, Time)>, op: OrderOp, at: Time)
    requires var o := Run(NewOrder(seller), calls); Enabled(o, op) && o.state != Target(op)
    ensures WentBy(seller, calls + [(op, at)], Target(op), op, at)
  {
    var all := calls + [(op, at)];
    assert all[..|calls|] == calls && all[..|calls| + 1] == all;
    assert Run(NewOrder(seller), all) == After(Run(NewOrder(seller), calls), op, at);
    assert Entered(seller, all, |calls|, Target(op));
  }

  lemma StampsStay(seller: SellerId, calls: seq<(OrderOp, Time)>, last: (OrderOp, Time), o: Order)
    requires StampsAreTrue(seller, calls, o)
    ensures StampsAreTrue(seller, calls + [last], o)
  {
    if o.bookedAt.Some? {
      WentByStays(
        seller, calls, last, Booked, OrderOp.MarkBooked(o.awb.value, o.carrier.value), o.bookedAt.value);
    }
    if o.shippedAt.Some? {
      WentByStays(seller, calls, last, InTransit, OrderOp.MarkInTransit, o.shippedAt.value);
    }
    if o.deliveredAt.Some? {
      WentByStays(seller, calls, last, Delivered, OrderOp.MarkDelivered, o.deliveredAt.value);
    }
    if o.cancelledAt.Some? {
      WentByStays(seller, calls, last, Cancelled, OrderOp.Cancel, o.cancelledAt.value);
    }
  }

  /**
   Main result: after every run of calls the stamps are the times of the calls that took the order
   into booked, in transit, delivered and cancelled, and AWB and carrier are what the booking said.
   */
  lemma {:induction false} StampsTellTheCalls(seller: SellerId, calls: seq<(OrderOp, Time)>)
    ensures StampsAreTrue(seller, calls, Run(NewOrder(seller), calls))
  {
    if calls != [] {
      var init, last := calls[..|calls| - 1], calls[|calls| - 1];
      assert init + [last] == calls && last == (last.0, last.1);
      StampsTellTheCalls(seller, init);
      var o := Run(NewOrder(seller), init);
      StampsStay(seller, init, last, o);
      if Enabled(o, last.0) {
        RunsAreCoherent(seller, init);
        FirstStamp(o, last.0);
        WentByLast(seller, init, last.0, last.1);
        StampOfStep(seller, calls, o, last.0, last.1);
      }
    }
  }

  /** Nobody has been in the state before, so its stamp is still unset. */
  lemma FirstStamp(o: Order, op: OrderOp)
    requires Coherent(o) && Enabled(o, op)
    ensures o.state != Target(op)
    ensures op == OrderOp.MarkInTransit ==> o.shippedAt.None?
    ensures op == OrderOp.MarkDelivered ==> o.deliveredAt.None?
  {
    LoggedIsBehind(o);
  }

  lemma StampOfStep(seller: SellerId, calls: seq<(OrderOp, Time)>, o: Order, op: OrderOp, now: Time)
    requires StampsAreTrue(seller, calls, o) && WentBy(seller, calls, Target(op), op, now)
    requires op == OrderOp.MarkInTransit ==> o.shippedAt.None?
    requires op == OrderOp.MarkDelivered ==> o.deliveredAt.None?
    ensures StampsAreTrue(seller, calls, After(o, op, now))
  {
  }

  /** The documented "ready or allocating" booking works from allocating alone. */
  lemma BookingNeedsAllocating(o: Order, awb: string, carrier: string, now: Time)
    ensures Step(o, OrderOp.MarkBooked(awb, carrier), now) != o <==> o.state == Allocating
  {
    if o.state == Allocating {
      assert Step(o, OrderOp.MarkBooked(awb, carrier), now).state == Booked;
    }
  }

  /** A booked order got there through draft, ready and allocating, in that order, exactly once. */
  lemma BookedPath(seller: SellerId, calls: seq<(OrderOp, Time)>)
    requires Run(NewOrder(seller), calls).state == Booked
    ensures Run(NewOrder(seller), calls).events ==
      [StateEvent(Draft, Ready), StateEvent(Ready, Allocating), StateEvent(Allocating, Booked)]
  {
    RunsAreCoherent(seller, calls);
    OneWayToBooked(Run(NewOrder(seller), calls).events);
  }

  lemma OneWayToBooked(events: seq<StateEvent>)
    requires Walk(events, Booked)
    ensures events == [StateEvent(Draft, Ready), StateEvent(Ready, Allocating), StateEvent(Allocating, Booked)]
  {
    var toAllocating := LastStep(events, Allocating, Booked);
    var toReady := LastStep(toAllocating, Ready, Allocating);
    var none := LastStep(toReady, Draft, Ready);
  }

  lemma LastStep(events: seq<StateEvent>, before: OrderState, end: OrderState) returns (init: seq<StateEvent>)
    requires Walk(events, end)
    requires (before, end) in {(Draft, Ready), (Ready, Allocating), (Allocating, Booked)}
    ensures Walk(init, before) && events == init + [StateEvent(before, end)]
    ensures before == Draft ==> init == []
  {
    init := events[..|events| - 1];
    var last := events[|events| - 1];
    assert end in AllowedTargets(last.from) && Rank(last.from) < Rank(end);
    assert last.from == before;
  }
}
