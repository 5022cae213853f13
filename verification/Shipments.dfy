/**
 The shipment row, its guarded transitions and the two-phase Book (backend/internal/shipments).

 A `World` is the pair of tables a shipment call can touch. Each service transaction has a
 specification on worlds; the class carries out the Go steps and is proved against it. Database
 failures and the carrier's answer are inputs.
 */
module Shipments {
  import opened Core
  import Orders

  datatype ShipmentState =
    PendingCarrier | Booked | InTransit | Delivered | RTOInProgress | RTOCompleted | Cancelled | Failed

  datatype ShipmentEvent = ShipmentEvent(from: ShipmentState, to: ShipmentState)

  /** A shipment row with its shipment_state_event rows, oldest first. */
  datatype Shipment = Shipment(
    seller: SellerId,
    order: OrderId,
    carrier: string,
    state: ShipmentState,
    awb: Option<string>,
    bookedAt: Option<Time>,
    shippedAt: Option<Time>,
    deliveredAt: Option<Time>,
    cancelledAt: Option<Time>,
    attempts: nat,
    events: seq<ShipmentEvent>)

  type ShipmentTable = map<ShipmentId, Shipment>

  datatype World = World(orders: Orders.OrderTable, shipments: ShipmentTable)

  predicate Owns(t: ShipmentTable, seller: SellerId, id: ShipmentId) {
    id in t && t[id].seller == seller
  }

  // ---------------------------------------------------------------- tracking marks

  datatype Mark = ToInTransit | ToDelivered | ToRTO | ToRTOCompleted

  function Sources(m: Mark): set<ShipmentState> {
    match m
    case ToInTransit => {Booked}
    case ToDelivered => {InTransit}
    case ToRTO => {Booked, InTransit}
    case ToRTOCompleted => {RTOInProgress}
  }

  function Target(m: Mark): ShipmentState {
    match m
    case ToInTransit => InTransit
    case ToDelivered => Delivered
    case ToRTO => RTOInProgress
    case ToRTOCompleted => RTOCompleted
  }

  /** The row after a move: state, first-time stamp, one more event. */
  function Moved(s: Shipment, to: ShipmentState, now: Time): Shipment {
    s.(state := to,
       shippedAt := if to == InTransit then Orders.Coalesce(s.shippedAt, now) else s.shippedAt,
       deliveredAt := if to == Delivered then Orders.Coalesce(s.deliveredAt, now) else s.deliveredAt,
       events := s.events + [ShipmentEvent(s.state, to)])
  }

  predicate MarkEnabled(w: World, seller: SellerId, id: ShipmentId, m: Mark) {
    Owns(w.shipments, seller, id) && w.shipments[id].state in Sources(m)
  }

  /** The order operation a mark is mirrored to. Neither return mark is mirrored. */
  function Mirror(m: Mark): Option<Orders.OrderOp> {
    match m
    case ToInTransit => Some(Orders.MarkInTransit)
    case ToDelivered => Some(Orders.MarkDelivered)
    case _ => None
  }

  /** The shipment's own transaction: a mark moves the row, a refused one changes nothing. */
  function MarkRow(w: World, seller: SellerId, id: ShipmentId, m: Mark, now: Time): World {
    if MarkEnabled(w, seller, id, m) then
      w.(shipments := w.shipments[id := Moved(w.shipments[id], Target(m), now)])
    else
      w
  }

  /** The order's transaction that follows it, best effort. */
  function MirrorRow(w: World, seller: SellerId, id: ShipmentId, op: Orders.OrderOp, now: Time): World {
    if Owns(w.shipments, seller, id) then
      w.(orders := Orders.StepTable(w.orders, seller, w.shipments[id].order, op, now))
    else
      w
  }

  /** A whole mark, left alone: the row moves and then the order is asked to follow. */
  function ApplyMark(w: World, seller: SellerId, id: ShipmentId, m: Mark, now: Time): World {
    if !MarkEnabled(w, seller, id, m) || Mirror(m).None? then MarkRow(w, seller, id, m, now)
    else MirrorRow(MarkRow(w, seller, id, m, now), seller, id, Mirror(m).value, now)
  }

  /** A return, begun or completed, never reaches the order: no mark of it changes any order. */
  lemma ReturnsLeaveOrders(w: World, seller: SellerId, id: ShipmentId, m: Mark, now: Time)
    requires m == ToRTO || m == ToRTOCompleted
    ensures ApplyMark(w, seller, id, m, now).orders == w.orders
  {
  }

  /** All rows but this one are as they were. */
  predicate OnlyShipment(t: ShipmentTable, t': ShipmentTable, id: ShipmentId) {
    t'.Keys == t.Keys && forall i :: i in t && i != id ==> t'[i] == t[i]
  }

  predicate OnlyOrder(t: Orders.OrderTable, t': Orders.OrderTable, o: OrderId) {
    t'.Keys == t.Keys && forall x :: x in t && x != o ==> t'[x] == t[x]
  }

  /**
   Main result: a booked shipment that goes in transit takes its order along, if that is booked and the
   seller's own; an order in any other state, and every other row, stays as it was.
   */
  lemma InTransitReachesTheOrder(w: World, seller: SellerId, id: ShipmentId, now: Time)
    requires Owns(w.shipments, seller, id) && w.shipments[id].state == Booked
    ensures var w', o := ApplyMark(w, seller, id, ToInTransit, now), w.shipments[id].order;
      && OnlyShipment(w.shipments, w'.shipments, id) && OnlyOrder(w.orders, w'.orders, o)
      && w'.shipments[id].state == InTransit && w'.shipments[id].shippedAt.Some?
      && (w.shipments[id].shippedAt.None? ==> w'.shipments[id].shippedAt == Some(now))
      && (o in w.orders ==>
            if w.orders[o].seller == seller && w.orders[o].state == Orders.OrderState.Booked then
              && w'.orders[o].state == Orders.OrderState.InTransit && w'.orders[o].shippedAt.Some?
              && (w.orders[o].shippedAt.None? ==> w'.orders[o].shippedAt == Some(now))
            else w'.orders[o] == w.orders[o])
  {
  }

  /** Main result: likewise a delivered shipment takes its order from in transit to delivered, and no further. */
  lemma DeliveryReachesTheOrder(w: World, seller: SellerId, id: ShipmentId, now: Time)
    requires Owns(w.shipments, seller, id) && w.shipments[id].state == InTransit
    ensures var w', o := ApplyMark(w, seller, id, ToDelivered, now), w.shipments[id].order;
      && OnlyShipment(w.shipments, w'.shipments, id) && OnlyOrder(w.orders, w'.orders, o)
      && w'.shipments[id].state == Delivered && w'.shipments[id].deliveredAt.Some?
      && (w.shipments[id].deliveredAt.None? ==> w'.shipments[id].deliveredAt == Some(now))
      && (o in w.orders ==>
            if w.orders[o].seller == seller && w.orders[o].state == Orders.OrderState.InTransit then
              && w'.orders[o].state == Orders.OrderState.Delivered && w'.orders[o].deliveredAt.Some?
              && (w.orders[o].deliveredAt.None? ==> w'.orders[o].deliveredAt == Some(now))
            else w'.orders[o] == w.orders[o])
  {
  }

  /** A return mark moves the shipment alone: from booked or in transit into it, and from there to its end. */
  lemma ReturnMarksMove(w: World, seller: SellerId, id: ShipmentId, now: Time)
    requires Owns(w.shipments, seller, id)
    ensures var w', was := ApplyMark(w, seller, id, ToRTO, now), w.shipments[id].state;
      && OnlyShipment(w.shipments, w'.shipments, id) && w'.orders == w.orders
      && w'.shipments[id].state == (if was == Booked || was == InTransit then RTOInProgress else was)
    ensures var w', was := ApplyMark(w, seller, id, ToRTOCompleted, now), w.shipments[id].state;
      && OnlyShipment(w.shipments, w'.shipments, id) && w'.orders == w.orders
      && w'.shipments[id].state == (if was == RTOInProgress then RTOCompleted else was)
  {
  }

  /** What the mirroring call asks of the order for the state it is told; other states ask nothing. */
  function FanoutOp(to: string): Option<Orders.OrderOp> {
    if to == "in_transit" then Some(Orders.MarkInTransit)
    else if to == "delivered" then Some(Orders.MarkDelivered)
    else if to == "rto" then Some(Orders.MarkRTO)
    else None
  }

  function MarkOutcome(w: World, seller: SellerId, id: ShipmentId, m: Mark): Outcome {
    if !Owns(w.shipments, seller, id) then Refused(NotFound)
    else if MarkEnabled(w, seller, id, m) then Done
    else Refused(InvalidArgument)
  }

  /** Cancel has no state guard at all. */
  function ApplyCancel(w: World, seller: SellerId, id: ShipmentId, now: Time): World {
    if !Owns(w.shipments, seller, id) then w
    else
      var s := w.shipments[id];
      w.(shipments := w.shipments[id := s.(
        state := Cancelled, cancelledAt := Some(now), events := s.events + [ShipmentEvent(s.state, Cancelled)])])
  }

  /** A cancelled shipment keeps everything but its state, its stamp and one more event, whatever it was before. */
  lemma CancelWrites(w: World, seller: SellerId, id: ShipmentId, now: Time)
    requires Owns(w.shipments, seller, id)
    ensures var w', s := ApplyCancel(w, seller, id, now), w.shipments[id];
      && OnlyShipment(w.shipments, w'.shipments, id) && w'.orders == w.orders
      && w'.shipments[id] == Shipment(s.seller, s.order, s.carrier, Cancelled, s.awb, s.bookedAt, s.shippedAt,
                                      s.deliveredAt, Some(now), s.attempts,
                                      s.events + [ShipmentEvent(s.state, Cancelled)])
  {
  }

  // ---------------------------------------------------------------- booking transactions

  /** One shipment and one allocation decision per order (both unique on order_id, inserted together). */
  predicate HasShipment(t: ShipmentTable, order: OrderId) {
    exists id :: id in t && t[id].order == order
  }

  /** The partial unique index on awb: no other row carries it. */
  predicate AwbTaken(t: ShipmentTable, id: ShipmentId, awb: string) {
    exists other :: other in t && other != id && t[other].awb == Some(awb)
  }

  function NewShipment(seller: SellerId, order: OrderId, carrier: string): Shipment {
    Shipment(seller, order, carrier, PendingCarrier, None, None, None, None, None, 0, [])
  }

  predicate PhaseAOk(w: World, order: OrderId, up: bool) {
    up && order in w.orders && !HasShipment(w.shipments, order)
  }

  function AfterPhaseA(w: World, seller: SellerId, order: OrderId, carrier: string, id: ShipmentId): World {
    w.(shipments := w.shipments[id := NewShipment(seller, order, carrier)])
  }

  /** The state event refers to the row, and the index on awb must let the update through. */
  predicate ConfirmOk(w: World, id: ShipmentId, awb: string, up: bool) {
    up && id in w.shipments && !AwbTaken(w.shipments, id, awb)
  }

  /** confirmPhaseB has no state guard: it writes booked over whatever the row says. */
  function AfterConfirm(w: World, seller: SellerId, id: ShipmentId, awb: string, now: Time): World {
    if !Owns(w.shipments, seller, id) then w
    else
      var s := w.shipments[id];
      w.(shipments := w.shipments[id := s.(
        state := Booked, awb := Some(awb), bookedAt := Some(now), attempts := s.attempts + 1,
        events := s.events + [ShipmentEvent(PendingCarrier, Booked)])])
  }

  function AfterFailure(w: World, seller: SellerId, id: ShipmentId): World {
    if !Owns(w.shipments, seller, id) then w
    else
      var s := w.shipments[id];
      w.(shipments := w.shipments[id := s.(
        state := Failed, attempts := s.attempts + 1,
        events := s.events + [ShipmentEvent(PendingCarrier, Failed)])])
  }

  datatype CarrierAnswer = Issued(awb: string) | CarrierError

  /** What the world outside the process does to one Book: database up or down at each write, and the carrier. */
  datatype Environment = Environment(
    allocatingUp: bool, phaseAUp: bool, answer: CarrierAnswer, phaseBUp: bool, markBookedUp: bool)

  datatype BookResult = BookedAs(id: ShipmentId) | BookFailed(carrierCalled: bool)

  /** MarkAllocating tolerates a state refusal but not a missing order or a database failure. */
  predicate AllocatingTolerated(w: World, seller: SellerId, order: OrderId, up: bool) {
    up && Orders.Owns(w.orders, seller, order)
  }

  /** The tables after the carrier has answered: phase B, then the order. */
  function AfterCarrier(
    w: World, seller: SellerId, order: OrderId, carrier: string, id: ShipmentId, env: Environment, now: Time): World
  {
    match env.answer
    case CarrierError => if env.phaseBUp then AfterFailure(w, seller, id) else w
    case Issued(awb) =>
      if !ConfirmOk(w, id, awb, env.phaseBUp) then w
      else
        var confirmed := AfterConfirm(w, seller, id, awb, now);
        if env.markBookedUp then
          confirmed.(orders := Orders.StepTable(confirmed.orders, seller, order, Orders.MarkBooked(awb, carrier), now))
        else confirmed
  }

  /** The whole Book without interference: allocating, phase A, carrier, phase B, order booked. */
  function BookSpec(
      w: World, seller: SellerId, order: OrderId, carrier: string, id: ShipmentId, env: Environment, now: Time)
    : (BookResult, World)
  {
    if !AllocatingTolerated(w, seller, order, env.allocatingUp) then (BookFailed(false), w)
    else
      var w1 := w.(orders := Orders.StepTable(w.orders, seller, order, Orders.MarkAllocating, now));
      if !PhaseAOk(w1, order, env.phaseAUp) then (BookFailed(false), w1)
      else
        var w2 := AfterPhaseA(w1, seller, order, carrier, id);
        (if env.answer.Issued? && ConfirmOk(w2, id, env.answer.awb, env.phaseBUp) then BookedAs(id)
         else BookFailed(true),
         AfterCarrier(w2, seller, order, carrier, id, env, now))
  }

  /** The order of a Book that got as far as its shipment row: ready goes to allocating, the rest stays. */
  function Allocated(o: Orders.Order): Orders.Order {
    if o.state == Orders.OrderState.Ready then
      o.(state := Orders.OrderState.Allocating,
         events := o.events + [Orders.StateEvent(Orders.OrderState.Ready, Orders.OrderState.Allocating)])
    else
      o
  }

  /** The shipment row of a Book, column by column. */
  function RowLeft(seller: SellerId, order: OrderId, carrier: string, env: Environment, confirmed: bool, now: Time)
    : Shipment
  {
    match env.answer
    case Issued(awb) =>
      if confirmed then
        Shipment(seller, order, carrier, Booked, Some(awb), Some(now), None, None, None, 1,
                 [ShipmentEvent(PendingCarrier, Booked)])
      else Shipment(seller, order, carrier, PendingCarrier, None, None, None, None, None, 0, [])
    case CarrierError =>
      if env.phaseBUp then
        Shipment(seller, order, carrier, Failed, None, None, None, None, None, 1,
                 [ShipmentEvent(PendingCarrier, Failed)])
      else Shipment(seller, order, carrier, PendingCarrier, None, None, None, None, None, 0, [])
  }

  /** Its order row, from what MarkAllocating left. */
  function OrderLeft(o: Orders.Order, carrier: string, env: Environment, confirmed: bool, now: Time): Orders.Order {
    match env.answer
    case Issued(awb) =>
      if confirmed && env.markBookedUp && o.state == Orders.OrderState.Allocating then
        o.(state := Orders.OrderState.Booked, awb := Some(awb), carrier := Some(carrier), bookedAt := Some(now),
           events := o.events + [Orders.StateEvent(Orders.OrderState.Allocating, Orders.OrderState.Booked)])
      else o
    case CarrierError => o
  }

  /**
   Main result: the very rows a Book leaves, for every answer of the carrier and every failure after
   phase A; it is confirmed when phase B goes through and no older row bears the AWB.
   */
  lemma BookLeaves(
      w: World, seller: SellerId, order: OrderId, carrier: string, id: ShipmentId, env: Environment, now: Time)
    requires id !in w.shipments && env.allocatingUp && env.phaseAUp
    requires Orders.Owns(w.orders, seller, order) && !HasShipment(w.shipments, order)
    ensures var w', o := BookSpec(w, seller, order, carrier, id, env, now).1, Allocated(w.orders[order]);
      var confirmed := env.answer.Issued? && env.phaseBUp
                       && forall i :: i in w.shipments ==> w.shipments[i].awb != Some(env.answer.awb);
      && w'.shipments == w.shipments[id := RowLeft(seller, order, carrier, env, confirmed, now)]
      && w'.orders == w.orders[order := OrderLeft(o, carrier, env, confirmed, now)]
  {
    var w1 := w.(orders := Orders.StepTable(w.orders, seller, order, Orders.MarkAllocating, now));
    var w2 := AfterPhaseA(w1, seller, order, carrier, id);
    assert w1.orders == w.orders[order := Allocated(w.orders[order])];
    if env.answer.Issued? {
      FreeAwb(w1, w2, id, env.answer.awb);
    }
    CarrierLeaves(w2, seller, order, carrier, id, env, now);
  }

  lemma CarrierLeaves(
      w: World, seller: SellerId, order: OrderId, carrier: string, id: ShipmentId, env: Environment, now: Time)
    requires id in w.shipments && w.shipments[id] == NewShipment(seller, order, carrier)
    requires Orders.Owns(w.orders, seller, order)
    ensures var w' := AfterCarrier(w, seller, order, carrier, id, env, now);
      var confirmed := env.answer.Issued? && ConfirmOk(w, id, env.answer.awb, env.phaseBUp);
      && w'.shipments == w.shipments[id := RowLeft(seller, order, carrier, env, confirmed, now)]
      && w'.orders == w.orders[order := OrderLeft(w.orders[order], carrier, env, confirmed, now)]
  {
    assert w.shipments[id := w.shipments[id]] == w.shipments;
    assert w.orders[order := w.orders[order]] == w.orders;
    match env.answer
    case Issued(awb) =>
      assert AfterConfirm(w, seller, id, awb, now).shipments[id] == RowLeft(seller, order, carrier, env, true, now);
    case CarrierError =>
      assert env.phaseBUp ==>
        AfterFailure(w, seller, id).shipments[id] == RowLeft(seller, order, carrier, env, false, now);
  }

  /** The new row bears no AWB, so only the older rows can have taken one. */
  lemma FreeAwb(w1: World, w2: World, id: ShipmentId, awb: string)
    requires id !in w1.shipments && id in w2.shipments && w2.shipments == w1.shipments[id := w2.shipments[id]]
    ensures AwbTaken(w2.shipments, id, awb) <==> exists i :: i in w1.shipments && w1.shipments[i].awb == Some(awb)
  {
    if i :| i in w1.shipments && w1.shipments[i].awb == Some(awb) {
      assert i in w2.shipments && i != id && w2.shipments[i].awb == Some(awb);
    }
  }

  // ---------------------------------------------------------------- the service

  class ShipmentService {
    const orders: Orders.OrderService
    const registry: set<string>
    var table: ShipmentTable

    constructor (orders: Orders.OrderService, registry: set<string>)
      ensures this.orders == orders && this.registry == registry && table == map[]
    {
      this.orders := orders;
      this.registry := registry;
      table := map[];
    }

    function W(): World
      reads this, orders
    {
      World(orders.table, table)
    }

    /** transition: state check under the row lock, stamped update, state event. */
    method Transition(seller: SellerId, id: ShipmentId, from: ShipmentState, m: Mark, now: Time) returns (r: Outcome)
      requires Sources(m) == {from}
      modifies this
      ensures r == MarkOutcome(old(W()), seller, id, m)
      ensures orders.table == old(orders.table)
      ensures table == if MarkEnabled(old(W()), seller, id, m)
                       then old(table)[id := Moved(old(table)[id], Target(m), now)] else old(table)
    {
      assert from in Sources(m);
      if !(id in table && table[id].seller == seller) {
        return Refused(NotFound);
      }
      var row := table[id];
      if row.state != from {
        return Refused(InvalidArgument);
      }
      var to := Target(m);
      if to == InTransit {
        row := row.(state := to, shippedAt := Orders.Coalesce(row.shippedAt, now));
      } else if to == Delivered {
        row := row.(state := to, deliveredAt := Orders.Coalesce(row.deliveredAt, now));
      } else {
        row := row.(state := to);
      }
      table := table[id := row.(events := row.events + [ShipmentEvent(from, to)])];
      r := Done;
    }

    /** fanoutOrderTransition: the order's refusal is logged and dropped. */
    method FanoutOrderTransition(seller: SellerId, id: ShipmentId, to: string, now: Time)
      modifies orders
      ensures W() == if FanoutOp(to).Some? then MirrorRow(old(W()), seller, id, FanoutOp(to).value, now) else old(W())
    {
      if !(id in table && table[id].seller == seller) {
        return;
      }
      var sh := table[id];
      var ignored: Outcome;
      if to == "in_transit" {
        ignored := orders.MarkInTransit(seller, sh.order, now);
      } else if to == "delivered" {
        ignored := orders.MarkDelivered(seller, sh.order, now);
      } else if to == "rto" {
        ignored := orders.MarkRTO(seller, sh.order, now);
      }
    }

    method MarkInTransit(seller: SellerId, id: ShipmentId, now: Time) returns (r: Outcome)
      modifies this, orders
      ensures r == MarkOutcome(old(W()), seller, id, ToInTransit)
      ensures W() == ApplyMark(old(W()), seller, id, ToInTransit, now)
      ensures r == Done ==>
        && id in table && table[id].state == InTransit
        && var o := table[id].order;
        Orders.Owns(old(orders.table), seller, o) && old(orders.table)[o].state == Orders.OrderState.Booked ==>
          o in orders.table && orders.table[o].state == Orders.OrderState.InTransit
    {
      r := Transition(seller, id, Booked, ToInTransit, now);
      if r != Done {
        return;
      }
      FanoutOrderTransition(seller, id, "in_transit", now);
    }

    method MarkDelivered(seller: SellerId, id: ShipmentId, now: Time) returns (r: Outcome)
      modifies this, orders
      ensures r == MarkOutcome(old(W()), seller, id, ToDelivered)
      ensures W() == ApplyMark(old(W()), seller, id, ToDelivered, now)
      ensures r == Done ==>
        && id in table && table[id].state == Delivered
        && var o := table[id].order;
        Orders.Owns(old(orders.table), seller, o) && old(orders.table)[o].state == Orders.OrderState.InTransit ==>
          o in orders.table && orders.table[o].state == Orders.OrderState.Delivered
    {
      r := Transition(seller, id, InTransit, ToDelivered, now);
      if r != Done {
        return;
      }
      FanoutOrderTransition(seller, id, "delivered", now);
    }

    method MarkRTO(seller: SellerId, id: ShipmentId, now: Time) returns (r: Outcome)
      modifies this
      ensures r == MarkOutcome(old(W()), seller, id, ToRTO)
      ensures W() == ApplyMark(old(W()), seller, id, ToRTO, now)
    {
      if !(id in table && table[id].seller == seller) {
        return Refused(NotFound);
      }
      var state := table[id].state;
      if state != InTransit && state != Booked {
        return Refused(InvalidArgument);
      }
      table := table[id := table[id].(state := RTOInProgress)];
      table := table[id := table[id].(events := table[id].events + [ShipmentEvent(state, RTOInProgress)])];
      r := Done;
    }

    method CompleteRTO(seller: SellerId, id: ShipmentId, now: Time) returns (r: Outcome)
      modifies this
      ensures r == MarkOutcome(old(W()), seller, id, ToRTOCompleted)
      ensures W() == ApplyMark(old(W()), seller, id, ToRTOCompleted, now)
    {
      r := Transition(seller, id, RTOInProgress, ToRTOCompleted, now);
    }

    /** The carrier is asked first, best effort; the row is cancelled whatever it answers. */
    method Cancel(seller: SellerId, id: ShipmentId, now: Time) returns (r: Outcome)
      modifies this
      ensures r == if Owns(old(table), seller, id) then Done else Refused(NotFound)
      ensures W() == ApplyCancel(old(W()), seller, id, now)
    {
      if !(id in table && table[id].seller == seller) {
        return Refused(NotFound);
      }
      var state := table[id].state;
      table := table[id := table[id].(state := Cancelled, cancelledAt := Some(now))];
      table := table[id := table[id].(events := table[id].events + [ShipmentEvent(state, Cancelled)])];
      r := Done;
    }

    method PersistPhaseA(
        seller: SellerId, order: OrderId, carrier: string, id: ShipmentId, up: bool) returns (r: Outcome)
      requires id !in table
      modifies this
      ensures r == if PhaseAOk(old(W()), order, up) then Done else Refused(Database)
      ensures W()
              == if PhaseAOk(old(W()), order, up) then AfterPhaseA(old(W()), seller, order, carrier, id) else old(W())
    {
      if !up || order !in orders.table || exists i :: i in table && table[i].order == order {
        return Refused(Database);
      }
      table := table[id := NewShipment(seller, order, carrier)];
      r := Done;
    }

    method ConfirmPhaseB(id: ShipmentId, seller: SellerId, awb: string, up: bool, now: Time) returns (r: Outcome)
      modifies this
      ensures r == if ConfirmOk(old(W()), id, awb, up) then Done else Refused(Database)
      ensures W() == if ConfirmOk(old(W()), id, awb, up) then AfterConfirm(old(W()), seller, id, awb, now) else old(W())
    {
      if !up || id !in table || exists i :: i in table && i != id && table[i].awb == Some(awb) {
        return Refused(Database);
      }
      if id in table && table[id].seller == seller {
        var row := table[id];
        row := row.(state := Booked, awb := Some(awb), bookedAt := Some(now), attempts := row.attempts + 1);
        table := table[id := row.(events := row.events + [ShipmentEvent(PendingCarrier, Booked)])];
      }
      r := Done;
    }

    method MarkFailed(id: ShipmentId, seller: SellerId, up: bool)
      modifies this
      ensures W() == if up then AfterFailure(old(W()), seller, id) else old(W())
    {
      if up && id in table && table[id].seller == seller {
        var row := table[id].(state := Failed, attempts := table[id].attempts + 1);
        table := table[id := row.(events := row.events + [ShipmentEvent(PendingCarrier, Failed)])];
      }
    }

    /** Book. An empty decision or an unknown carrier stops it before any write. */
    method Book(seller: SellerId, order: OrderId, candidates: seq<string>, recommended: nat,
                id: ShipmentId, env: Environment, now: Time) returns (r: BookResult)
      requires candidates != [] ==> recommended < |candidates|
      requires id !in table
      modifies this, orders
      ensures candidates == [] || candidates[recommended] !in registry ==> r == BookFailed(false) && W() == old(W())
      ensures candidates != [] && candidates[recommended] in registry ==>
        (r, W()) == BookSpec(old(W()), seller, order, candidates[recommended], id, env, now)
    {
      if candidates == [] {
        return BookFailed(false);
      }
      var carrier := candidates[recommended];
      if carrier !in registry {
        return BookFailed(false);
      }
      if !env.allocatingUp {
        return BookFailed(false);
      }
      var outcome := orders.MarkAllocating(seller, order, now);
      if outcome != Done && outcome != Refused(InvalidArgument) {
        return BookFailed(false);
      }
      outcome := PersistPhaseA(seller, order, carrier, id, env.phaseAUp);
      if outcome != Done {
        return BookFailed(false);
      }
      match env.answer {
        case CarrierError =>
          MarkFailed(id, seller, env.phaseBUp);
          return BookFailed(true);
        case Issued(awb) =>
          outcome := ConfirmPhaseB(id, seller, awb, env.phaseBUp, now);
          if outcome != Done {
            return BookFailed(true);
          }
          if env.markBookedUp {
            outcome := orders.MarkBooked(seller, order, awb, carrier, now);
          }
          return BookedAs(id);
      }
    }
  }
}
