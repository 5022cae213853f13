/**
 Book as a protocol: any number of Books, on any orders, interleaved transaction by transaction
 with each other, with cancellations and with tracking marks, each one free to crash between any
 two of its steps (backend/internal/shipments/service_impl.go:92-228).

 A Book holds no lock between its transactions, so what keeps bookings straight is the unique
 order_id of the shipment table and the order's own state machine.
 */
module Booking {
  import opened Core
  import opened Shipments
  import Orders

  type BookId = nat

  /** Where a Book stands: the transaction or call it will try next. */
  datatype Pc =
    | Submitted
    | Allocated
    | Persisted(id: ShipmentId)
    | CarrierRefused(id: ShipmentId)
    | AwbIssued(id: ShipmentId, awb: string)
    | Confirmed(id: ShipmentId, awb: string)
    | Ended

  datatype Book = Book(seller: SellerId, order: OrderId, carrier: string, pc: Pc)

  /**
   The tables, the Books, and three records of what happened outside the tables: the carrier calls
   made, the AWBs the carrier issued per shipment, and the Books whose MarkBooked succeeded.
   */
  datatype System = System(
    world: World,
    books: map<BookId, Book>,
    calls: seq<ShipmentId>,
    issued: set<(ShipmentId, string)>,
    successes: seq<(BookId, OrderId)>)

  /** What the environment decides in one step: database up, the next uuid, the carrier's answer. */
  datatype Choice = Choice(up: bool, uuid: ShipmentId, answer: CarrierAnswer, lost: Option<string>, now: Time)

  datatype Action =
    | CreateOrder(seller: SellerId, order: OrderId)
    | CallOrder(seller: SellerId, order: OrderId, op: Orders.OrderOp, now: Time)
    | MarkShipment(seller: SellerId, id: ShipmentId, mark: Mark, now: Time)
    | CancelShipment(seller: SellerId, id: ShipmentId, now: Time)
    | Submit(b: BookId, seller: SellerId, order: OrderId, carrier: string)
    | Advance(b: BookId, choice: Choice)
    | Crash(b: BookId)

  function AtPc(s: System, b: BookId, pc: Pc): System
    requires b in s.books
  {
    s.(books := s.books[b := s.books[b].(pc := pc)])
  }

  /** The next transaction, or the carrier call, of one Book. */
  function AdvanceBook(s: System, b: BookId, c: Choice): System
    requires b in s.books
  {
    var book := s.books[b];
    match book.pc
    case Submitted =>
      if AllocatingTolerated(s.world, book.seller, book.order, c.up) then
        AtPc(s, b, Allocated).(world := s.world.(orders :=
          Orders.StepTable(s.world.orders, book.seller, book.order, Orders.MarkAllocating, c.now)))
      else AtPc(s, b, Ended)
    case Allocated =>
      if c.uuid in s.world.shipments then s  // a uuid is never drawn twice
      else if PhaseAOk(s.world, book.order, c.up) then
        AtPc(s, b, Persisted(c.uuid)).(world := AfterPhaseA(s.world, book.seller, book.order, book.carrier, c.uuid))
      else AtPc(s, b, Ended)
    case Persisted(id) =>
      var called := s.(calls := s.calls + [id]);
      (match c.answer
       case Issued(awb) => AtPc(called, b, AwbIssued(id, awb)).(issued := s.issued + {(id, awb)})
       case CarrierError =>
         // a timed-out call may have issued an AWB nobody hears of
         AtPc(called, b, CarrierRefused(id)).(
           issued := if c.lost.Some? then s.issued + {(id, c.lost.value)} else s.issued))
    case CarrierRefused(id) =>
      AtPc(s, b, Ended).(world := if c.up then AfterFailure(s.world, book.seller, id) else s.world)
    case AwbIssued(id, awb) =>
      if ConfirmOk(s.world, id, awb, c.up) then
        AtPc(s, b, Confirmed(id, awb)).(world := AfterConfirm(s.world, book.seller, id, awb, c.now))
      else AtPc(s, b, Ended)
    case Confirmed(id, awb) =>
      var op := Orders.MarkBooked(awb, book.carrier);
      if c.up && Orders.OutcomeOf(s.world.orders, book.seller, book.order, op) == Done then
        AtPc(s, b, Ended).(
          world := s.world.(orders := Orders.StepTable(s.world.orders, book.seller, book.order, op, c.now)),
          successes := s.successes + [(b, book.order)])
      else AtPc(s, b, Ended)
    case Ended => s
  }

  /**
   One step of the whole system. Only Book calls MarkBooked; ids are fresh. A tracking mark is the
   shipment's transaction alone: the order call that mirrors it is a CallOrder of its own, which may
   come later, after other steps, or never.
   */
  function Next(s: System, a: Action): System {
    match a
    case CreateOrder(seller, order) =>
      if order in s.world.orders then s
      else s.(world := s.world.(orders := s.world.orders[order := Orders.NewOrder(seller)]))
    case CallOrder(seller, order, op, now) =>
      if op.MarkBooked? then s
      else s.(world := s.world.(orders := Orders.StepTable(s.world.orders, seller, order, op, now)))
    case MarkShipment(seller, id, mark, now) => s.(world := MarkRow(s.world, seller, id, mark, now))
    case CancelShipment(seller, id, now) => s.(world := ApplyCancel(s.world, seller, id, now))
    case Submit(b, seller, order, carrier) =>
      if b in s.books then s else s.(books := s.books[b := Book(seller, order, carrier, Submitted)])
    case Advance(b, c) => if b in s.books then AdvanceBook(s, b, c) else s
    case Crash(b) => if b in s.books then AtPc(s, b, Ended) else s
  }

  function Init(): System {
    System(World(map[], map[]), map[], [], {}, [])
  }

  function Run(s: System, actions: seq<Action>): System
    decreases |actions|
  {
    if actions == [] then s else Next(Run(s, actions[..|actions| - 1]), actions[|actions| - 1])
  }

  // ---------------------------------------------------------------- the invariant

  ghost predicate Holds(pc: Pc, id: ShipmentId) {
    match pc
    case Persisted(i) => i == id
    case CarrierRefused(i) => i == id
    case AwbIssued(i, _) => i == id
    case Confirmed(i, _) => i == id
    case _ => false
  }

  ghost predicate OrdersCoherent(s: System) {
    forall o :: o in s.world.orders ==> Orders.Coherent(s.world.orders[o])
  }

  ghost predicate SameOrder(t: ShipmentTable, i: ShipmentId, j: ShipmentId) {
    i in t && j in t && t[i].order == t[j].order
  }

  ghost predicate OneShipmentPerOrder(t: ShipmentTable) {
    forall i, j :: SameOrder(t, i, j) ==> i == j
  }

  /** Row `i` is a shipment of order `o`, of the same seller, with the same AWB. */
  ghost predicate Bears(t: ShipmentTable, i: ShipmentId, o: OrderId, order: Orders.Order) {
    && i in t && t[i].order == o && t[i].seller == order.seller
    && t[i].awb == order.awb && Some(t[i].carrier) == order.carrier
  }

  ghost predicate OrderAwbsAreShipmentAwbs(w: World) {
    forall o :: o in w.orders && w.orders[o].awb.Some? ==> exists i :: Bears(w.shipments, i, o, w.orders[o])
  }

  ghost predicate ShipmentAwbsWereIssued(s: System) {
    forall i :: i in s.world.shipments && s.world.shipments[i].awb.Some?
      ==> (i, s.world.shipments[i].awb.value) in s.issued
  }

  ghost predicate SameAwb(t: ShipmentTable, i: ShipmentId, j: ShipmentId) {
    i in t && j in t && t[i].awb.Some? && t[i].awb == t[j].awb
  }

  ghost predicate AwbsAreUnique(t: ShipmentTable) {
    forall i, j :: SameAwb(t, i, j) ==> i == j
  }

  function PcId(pc: Pc): Option<ShipmentId> {
    match pc
    case Persisted(i) => Some(i)
    case CarrierRefused(i) => Some(i)
    case AwbIssued(i, _) => Some(i)
    case Confirmed(i, _) => Some(i)
    case _ => None
  }

  /** A Book past phase A works on its own row; before confirmation that row has no AWB, after it the Book's. */
  ghost predicate HoldsItsRow(s: System, b: BookId)
    requires b in s.books
  {
    var book := s.books[b];
    PcId(book.pc).Some? ==>
      var i := PcId(book.pc).value;
      && i in s.world.shipments
      && s.world.shipments[i].order == book.order
      && s.world.shipments[i].seller == book.seller
      && s.world.shipments[i].carrier == book.carrier
      && (book.pc.Persisted? ==> i !in s.calls)
      && (!book.pc.Persisted? ==> i in s.calls)
      && (book.pc.AwbIssued? ==> (i, book.pc.awb) in s.issued)
      && s.world.shipments[i].awb == if book.pc.Confirmed? then Some(book.pc.awb) else None
  }

  ghost predicate SameRow(s: System, b: BookId, b': BookId) {
    b in s.books && b' in s.books && PcId(s.books[b].pc).Some? && PcId(s.books[b].pc) == PcId(s.books[b'].pc)
  }

  ghost predicate BooksHoldTheirRows(s: System) {
    && (forall b :: b in s.books ==> HoldsItsRow(s, b))
    && (forall b, b' :: SameRow(s, b, b') ==> b == b')
  }

  /** The carrier was called only for persisted shipments and never twice for one; it issues only when called. */
  ghost predicate CallsAreSingle(s: System) {
    && (forall k :: 0 <= k < |s.calls| ==> s.calls[k] in s.world.shipments)
    && (forall j, k :: 0 <= j < k < |s.calls| ==> s.calls[j] != s.calls[k])
    && (forall p :: p in s.issued ==> p.0 in s.calls)
  }

  ghost predicate EverBooked(t: Orders.OrderTable, o: OrderId) {
    o in t && Orders.Logged(t[o], Orders.Booked)
  }

  ghost predicate Succeeded(s: System, o: OrderId) {
    exists k :: 0 <= k < |s.successes| && s.successes[k].1 == o
  }

  /** The successes are exactly the orders that reached booked, each once. */
  ghost predicate SuccessesAreSingle(s: System) {
    && (forall o :: Succeeded(s, o) <==> EverBooked(s.world.orders, o))
    && (forall j, k :: 0 <= j < k < |s.successes| ==> s.successes[j].1 != s.successes[k].1)
  }

  ghost predicate Inv(s: System) {
    && OrdersCoherent(s)
    && OneShipmentPerOrder(s.world.shipments)
    && OrderAwbsAreShipmentAwbs(s.world)
    && ShipmentAwbsWereIssued(s)
    && AwbsAreUnique(s.world.shipments)
    && BooksHoldTheirRows(s)
    && CallsAreSingle(s)
    && SuccessesAreSingle(s)
  }

  // ---------------------------------------------------------------- preservation

  /** Order calls other than MarkBooked: same orders, same AWBs, same booked history. */
  ghost predicate OrdersKeepBookings(t: Orders.OrderTable, t': Orders.OrderTable) {
    && t.Keys == t'.Keys
    && forall o :: o in t ==>
      && Orders.Coherent(t'[o]) && t'[o].seller == t[o].seller
      && t'[o].awb == t[o].awb && t'[o].carrier == t[o].carrier
      && (Orders.Logged(t'[o], Orders.Booked) <==> Orders.Logged(t[o], Orders.Booked))
  }

  lemma OneOrderKeepsBooking(o: Orders.Order, op: Orders.OrderOp, now: Time)
    requires Orders.Coherent(o) && !op.MarkBooked?
    ensures var o' := Orders.Step(o, op, now);
      && Orders.Coherent(o') && o'.seller == o.seller && o'.awb == o.awb && o'.carrier == o.carrier
      && (Orders.Logged(o', Orders.Booked) <==> Orders.Logged(o, Orders.Booked))
  {
    Orders.StepKeepsCoherent(o, op, now);
    if Orders.Enabled(o, op) {
      Orders.AppendLogged(o, Orders.After(o, op, now), Orders.StateEvent(o.state, Orders.Target(op)), Orders.Booked);
    }
  }

  lemma OrderCallKeepsBookings(t: Orders.OrderTable, seller: SellerId, id: OrderId, op: Orders.OrderOp, now: Time)
    requires forall o :: o in t ==> Orders.Coherent(t[o])
    requires !op.MarkBooked?
    ensures OrdersKeepBookings(t, Orders.StepTable(t, seller, id, op, now))
  {
    if Orders.Owns(t, seller, id) {
      OneOrderKeepsBooking(t[id], op, now);
    }
  }

  /** Shipment rows keep their identity and AWB. */
  ghost predicate ShipmentsKeepAwbs(t: ShipmentTable, t': ShipmentTable) {
    && t.Keys == t'.Keys
    && forall i :: i in t ==>
      && t'[i].order == t[i].order && t'[i].seller == t[i].seller
      && t'[i].awb == t[i].awb && t'[i].carrier == t[i].carrier
  }

  lemma SameShipmentsSameAwbs(t: ShipmentTable, t': ShipmentTable)
    requires ShipmentsKeepAwbs(t, t')
    ensures OneShipmentPerOrder(t) ==> OneShipmentPerOrder(t')
    ensures AwbsAreUnique(t) ==> AwbsAreUnique(t')
    ensures forall i, o, order :: Bears(t, i, o, order) ==> Bears(t', i, o, order)
  {
    assert forall i, j :: SameOrder(t', i, j) ==> SameOrder(t, i, j);
    assert forall i, j :: SameAwb(t', i, j) ==> SameAwb(t, i, j);
  }

  /** Whatever moves orders and shipments without touching bookings keeps the invariant. */
  lemma QuietWorldKeepsInv(s: System, w: World)
    requires Inv(s)
    requires OrdersKeepBookings(s.world.orders, w.orders) && ShipmentsKeepAwbs(s.world.shipments, w.shipments)
    ensures Inv(s.(world := w))
  {
    var s' := s.(world := w);
    SameShipmentsSameAwbs(s.world.shipments, w.shipments);
    forall o | o in w.orders && w.orders[o].awb.Some? ensures exists i :: Bears(w.shipments, i, o, w.orders[o]) {
      var i :| Bears(s.world.shipments, i, o, s.world.orders[o]);
      assert Bears(w.shipments, i, o, w.orders[o]);
    }
    assert forall b :: b in s.books ==> HoldsItsRow(s, b);
    assert forall b, b' :: SameRow(s', b, b') ==> SameRow(s, b, b');
    assert forall o :: Succeeded(s', o) <==> Succeeded(s, o);
    assert forall o :: EverBooked(w.orders, o) <==> EverBooked(s.world.orders, o);
  }

  /** A Book that lets go of its row, or has none yet. */
  lemma PcKeepsInv(s: System, b: BookId, pc: Pc)
    requires Inv(s) && b in s.books && PcId(pc).None?
    ensures Inv(AtPc(s, b, pc))
  {
    var s' := AtPc(s, b, pc);
    assert forall x :: x in s.books ==> HoldsItsRow(s, x);
    assert forall x, y :: SameRow(s', x, y) ==> SameRow(s, x, y);
    assert forall o :: Succeeded(s', o) <==> Succeeded(s, o);
  }

  lemma SubmitKeepsInv(s: System, b: BookId, seller: SellerId, order: OrderId, carrier: string)
    requires Inv(s) && b !in s.books
    ensures Inv(s.(books := s.books[b := Book(seller, order, carrier, Submitted)]))
  {
    var s' := s.(books := s.books[b := Book(seller, order, carrier, Submitted)]);
    assert forall x :: x in s.books ==> HoldsItsRow(s, x);
    assert forall x, y :: SameRow(s', x, y) ==> SameRow(s, x, y);
    assert forall o :: Succeeded(s', o) <==> Succeeded(s, o);
  }

  lemma CreateKeepsInv(s: System, seller: SellerId, order: OrderId)
    requires Inv(s) && order !in s.world.orders
    ensures Inv(s.(world := s.world.(orders := s.world.orders[order := Orders.NewOrder(seller)])))
  {
    var s' := s.(world := s.world.(orders := s.world.orders[order := Orders.NewOrder(seller)]));
    CreateIsQuiet(s.world.orders, seller, order);
    forall o | o in s'.world.orders && s'.world.orders[o].awb.Some?
      ensures exists i :: Bears(s'.world.shipments, i, o, s'.world.orders[o])
    {
      assert o in s.world.orders;
    }
    assert forall x :: x in s.books ==> HoldsItsRow(s, x);
    assert forall x, y :: SameRow(s', x, y) ==> SameRow(s, x, y);
    assert forall o :: Succeeded(s', o) <==> Succeeded(s, o);
  }

  /** A new order is coherent, bears no AWB and was never booked. */
  lemma CreateIsQuiet(t: Orders.OrderTable, seller: SellerId, order: OrderId)
    requires order !in t
    ensures var t' := t[order := Orders.NewOrder(seller)];
      && Orders.Coherent(t'[order]) && t'[order].awb.None?
      && forall o :: EverBooked(t', o) <==> EverBooked(t, o)
  {
    assert !Orders.Logged(Orders.NewOrder(seller), Orders.Booked);
  }

  lemma NewRowKeepsTables(w: World, seller: SellerId, order: OrderId, carrier: string, id: ShipmentId)
    requires OneShipmentPerOrder(w.shipments) && AwbsAreUnique(w.shipments) && OrderAwbsAreShipmentAwbs(w)
    requires id !in w.shipments && !HasShipment(w.shipments, order)
    ensures var w' := AfterPhaseA(w, seller, order, carrier, id);
      OneShipmentPerOrder(w'.shipments) && AwbsAreUnique(w'.shipments) && OrderAwbsAreShipmentAwbs(w')
  {
    var w' := AfterPhaseA(w, seller, order, carrier, id);
    var t, t' := w.shipments, w'.shipments;
    assert forall i, j :: SameOrder(t', i, j) ==> i == j || SameOrder(t, i, j);
    assert forall i, j :: SameAwb(t', i, j) ==> SameAwb(t, i, j);
    forall o | o in w'.orders && w'.orders[o].awb.Some? ensures exists i :: Bears(t', i, o, w'.orders[o]) {
      var i :| Bears(t, i, o, w.orders[o]);
      assert Bears(t', i, o, w'.orders[o]);
    }
  }

  /** Phase A inserts the order's only row; the unique key refuses a second. */
  lemma PhaseAKeepsInv(s: System, b: BookId, c: Choice)
    requires Inv(s) && b in s.books && s.books[b].pc == Allocated
    requires c.uuid !in s.world.shipments && PhaseAOk(s.world, s.books[b].order, c.up)
    ensures Inv(AdvanceBook(s, b, c))
  {
    var s' := AdvanceBook(s, b, c);
    NewRowKeepsTables(s.world, s.books[b].seller, s.books[b].order, s.books[b].carrier, c.uuid);
    assert forall x :: x in s.books ==> HoldsItsRow(s, x);
    forall x, y | SameRow(s', x, y) ensures x == y {
      if x != b && y != b {
        assert SameRow(s, x, y);
      }
    }
    assert forall o :: Succeeded(s', o) <==> Succeeded(s, o);
  }

  lemma CarrierCallKeepsInv(s: System, b: BookId, c: Choice)
    requires Inv(s) && b in s.books && s.books[b].pc.Persisted?
    ensures Inv(AdvanceBook(s, b, c))
  {
    var s' := AdvanceBook(s, b, c);
    CalledBookHolds(s, b, c);
    assert HoldsItsRow(s, b);
    assert forall o :: Succeeded(s', o) <==> Succeeded(s, o);
  }

  lemma CalledBookHolds(s: System, b: BookId, c: Choice)
    requires BooksHoldTheirRows(s) && b in s.books && s.books[b].pc.Persisted?
    ensures BooksHoldTheirRows(AdvanceBook(s, b, c))
  {
    var s' := AdvanceBook(s, b, c);
    assert HoldsItsRow(s, b);
    forall x | x in s'.books ensures HoldsItsRow(s', x) {
      assert HoldsItsRow(s, x);
      if x != b {
        assert !SameRow(s, x, b);
      }
    }
    assert forall x, y :: SameRow(s', x, y) ==> SameRow(s, x, y);
  }

  /** Phase B writes the AWB on the Book's own row, which had none; the unique index keeps AWBs apart. */
  lemma ConfirmKeepsInv(s: System, b: BookId, c: Choice)
    requires Inv(s) && b in s.books && s.books[b].pc.AwbIssued?
    requires ConfirmOk(s.world, s.books[b].pc.id, s.books[b].pc.awb, c.up)
    ensures Inv(AdvanceBook(s, b, c))
  {
    var id, awb := s.books[b].pc.id, s.books[b].pc.awb;
    var s' := AdvanceBook(s, b, c);
    var t, t' := s.world.shipments, s'.world.shipments;
    assert HoldsItsRow(s, b);
    ConfirmKeepsTables(s.world, s.books[b].seller, id, awb, c.now);
    forall x | x in s'.books ensures HoldsItsRow(s', x) {
      assert HoldsItsRow(s, x);
      if x != b {
        assert !SameRow(s, x, b);
      }
    }
    assert forall x, y :: SameRow(s', x, y) ==> SameRow(s, x, y);
    assert forall o :: Succeeded(s', o) <==> Succeeded(s, o);
  }

  lemma ConfirmKeepsTables(w: World, seller: SellerId, id: ShipmentId, awb: string, now: Time)
    requires OneShipmentPerOrder(w.shipments) && AwbsAreUnique(w.shipments) && OrderAwbsAreShipmentAwbs(w)
    requires Owns(w.shipments, seller, id) && w.shipments[id].awb.None? && !AwbTaken(w.shipments, id, awb)
    ensures var w' := AfterConfirm(w, seller, id, awb, now);
      OneShipmentPerOrder(w'.shipments) && AwbsAreUnique(w'.shipments) && OrderAwbsAreShipmentAwbs(w')
  {
    var w' := AfterConfirm(w, seller, id, awb, now);
    var t, t' := w.shipments, w'.shipments;
    assert forall i, j :: SameOrder(t', i, j) ==> SameOrder(t, i, j);
    forall i, j | SameAwb(t', i, j) ensures i == j {
      if i != id && j != id {
        assert SameAwb(t, i, j);
      }
    }
    forall o | o in w'.orders && w'.orders[o].awb.Some? ensures exists i :: Bears(t', i, o, w'.orders[o]) {
      var i :| Bears(t, i, o, w.orders[o]);
      assert Bears(t', i, o, w'.orders[o]);
    }
  }

  lemma FailureKeepsInv(s: System, b: BookId, c: Choice)
    requires Inv(s) && b in s.books && s.books[b].pc.CarrierRefused?
    ensures Inv(AdvanceBook(s, b, c))
  {
    var w := if c.up then AfterFailure(s.world, s.books[b].seller, s.books[b].pc.id) else s.world;
    QuietWorldKeepsInv(s, w);
    PcKeepsInv(s.(world := w), b, Ended);
    assert AdvanceBook(s, b, c) == AtPc(s.(world := w), b, Ended);
  }

  /** MarkBooked succeeds only from allocating, hence on an order never booked before. */
  lemma MarkBookedKeepsInv(s: System, b: BookId, c: Choice)
    requires Inv(s) && b in s.books && s.books[b].pc.Confirmed?
    requires AdvanceBook(s, b, c).successes != s.successes
    ensures Inv(AdvanceBook(s, b, c))
    ensures !Succeeded(s, s.books[b].order)
  {
    var book := s.books[b];
    var s' := AdvanceBook(s, b, c);
    var o := book.order;
    assert HoldsItsRow(s, b);
    BookedForTheFirstTime(s, b, c);
    BookedOrderBearsItsRow(s, b, c);
    BookedBookLetsGo(s, b, c);
    SuccessAppended(s, s', b, o);
  }

  lemma BookedBookLetsGo(s: System, b: BookId, c: Choice)
    requires BooksHoldTheirRows(s) && b in s.books && s.books[b].pc.Confirmed?
    requires AdvanceBook(s, b, c).successes != s.successes
    ensures BooksHoldTheirRows(AdvanceBook(s, b, c))
    ensures var s' := AdvanceBook(s, b, c);
      && s'.world.shipments == s.world.shipments && s'.calls == s.calls && s'.issued == s.issued
      && s'.successes == s.successes + [(b, s.books[b].order)]
  {
    var s' := AdvanceBook(s, b, c);
    forall x | x in s'.books ensures HoldsItsRow(s', x) {
      assert HoldsItsRow(s, x);
    }
    assert forall x, y :: SameRow(s', x, y) ==> SameRow(s, x, y);
  }

  lemma BookedForTheFirstTime(s: System, b: BookId, c: Choice)
    requires OrdersCoherent(s) && b in s.books && s.books[b].pc.Confirmed?
    requires AdvanceBook(s, b, c).successes != s.successes
    ensures var o, t, t' := s.books[b].order, s.world.orders, AdvanceBook(s, b, c).world.orders;
      && OrdersCoherent(AdvanceBook(s, b, c))
      && !EverBooked(t, o) && EverBooked(t', o)
      && forall x :: x != o ==> (EverBooked(t', x) <==> EverBooked(t, x))
  {
    var book := s.books[b];
    var row := s.world.orders[book.order];
    Orders.StepKeepsCoherent(row, Orders.MarkBooked(book.pc.awb, book.carrier), c.now);
    Orders.LoggedIsBehind(row);
    assert AdvanceBook(s, b, c).world.orders[book.order].events[|row.events|].to == Orders.Booked;
  }

  lemma BookedOrderBearsItsRow(s: System, b: BookId, c: Choice)
    requires OrderAwbsAreShipmentAwbs(s.world)
    requires b in s.books && s.books[b].pc.Confirmed? && HoldsItsRow(s, b)
    requires AdvanceBook(s, b, c).successes != s.successes
    ensures OrderAwbsAreShipmentAwbs(AdvanceBook(s, b, c).world)
  {
    var s' := AdvanceBook(s, b, c);
    var o := s.books[b].order;
    assert Bears(s'.world.shipments, s.books[b].pc.id, o, s'.world.orders[o]);
    forall x | x in s'.world.orders && s'.world.orders[x].awb.Some?
      ensures exists i :: Bears(s'.world.shipments, i, x, s'.world.orders[x])
    {
      if x != o {
        assert x in s.world.orders && s'.world.orders[x] == s.world.orders[x];
      }
    }
  }

  lemma SuccessAppended(s: System, s': System, b: BookId, o: OrderId)
    requires SuccessesAreSingle(s) && s'.successes == s.successes + [(b, o)]
    requires !EverBooked(s.world.orders, o) && EverBooked(s'.world.orders, o)
    requires forall x :: x != o ==> (EverBooked(s'.world.orders, x) <==> EverBooked(s.world.orders, x))
    ensures SuccessesAreSingle(s')
  {
    forall x ensures Succeeded(s', x) <==> Succeeded(s, x) || x == o {
      if Succeeded(s, x) {
        var k :| 0 <= k < |s.successes| && s.successes[k].1 == x;
        assert s'.successes[k].1 == x;
      }
      assert s'.successes[|s.successes|].1 == o;
    }
    forall j, k | 0 <= j < k < |s'.successes| ensures s'.successes[j].1 != s'.successes[k].1 {
      if k == |s.successes| {
        assert !Succeeded(s, o);
      }
    }
  }

  lemma AdvanceKeepsInv(s: System, b: BookId, c: Choice)
    requires Inv(s) && b in s.books
    ensures Inv(AdvanceBook(s, b, c))
  {
    var book := s.books[b];
    match book.pc
    case Submitted =>
      if AllocatingTolerated(s.world, book.seller, book.order, c.up) {
        OrderCallKeepsBookings(s.world.orders, book.seller, book.order, Orders.MarkAllocating, c.now);
        var w := s.world.(
          orders := Orders.StepTable(s.world.orders, book.seller, book.order, Orders.MarkAllocating, c.now));
        QuietWorldKeepsInv(s, w);
        PcKeepsInv(s.(world := w), b, Allocated);
        assert AdvanceBook(s, b, c) == AtPc(s.(world := w), b, Allocated);
      } else {
        PcKeepsInv(s, b, Ended);
      }
    case Allocated =>
      if c.uuid !in s.world.shipments {
        if PhaseAOk(s.world, book.order, c.up) {
          PhaseAKeepsInv(s, b, c);
        } else {
          PcKeepsInv(s, b, Ended);
        }
      }
    case Persisted(_) => CarrierCallKeepsInv(s, b, c);
    case CarrierRefused(_) => FailureKeepsInv(s, b, c);
    case AwbIssued(id, awb) =>
      if ConfirmOk(s.world, id, awb, c.up) {
        ConfirmKeepsInv(s, b, c);
      } else {
        PcKeepsInv(s, b, Ended);
      }
    case Confirmed(_, _) =>
      if AdvanceBook(s, b, c).successes != s.successes {
        MarkBookedKeepsInv(s, b, c);
      } else {
        PcKeepsInv(s, b, Ended);
      }
    case Ended =>
  }

  lemma MarkIsQuiet(w: World, seller: SellerId, id: ShipmentId, m: Mark, now: Time)
    requires forall o :: o in w.orders ==> Orders.Coherent(w.orders[o])
    ensures OrdersKeepBookings(w.orders, MarkRow(w, seller, id, m, now).orders)
    ensures ShipmentsKeepAwbs(w.shipments, MarkRow(w, seller, id, m, now).shipments)
  {
  }

  /** A whole mark, as the shipment service makes it, is its row step followed by the mirroring order call, if any. */
  lemma MarkIsTwoSteps(s: System, seller: SellerId, id: ShipmentId, m: Mark, now: Time)
    requires MarkEnabled(s.world, seller, id, m) && Mirror(m).Some?
    ensures Run(s,
                [MarkShipment(seller, id, m, now),
                 CallOrder(seller, s.world.shipments[id].order, Mirror(m).value, now)])
      == s.(world := ApplyMark(s.world, seller, id, m, now))
  {
    var mark := MarkShipment(seller, id, m, now);
    var call := CallOrder(seller, s.world.shipments[id].order, Mirror(m).value, now);
    assert [mark, call][..1] == [mark] && [mark][..0] == [];
    assert Run(s, []) == s && Run(s, [mark]) == Next(s, mark);
    assert Run(s, [mark, call]) == Next(Next(s, mark), call);
  }

  lemma NextKeepsInv(s: System, a: Action)
    requires Inv(s)
    ensures Inv(Next(s, a))
  {
    match a
    case CreateOrder(seller, order) =>
      if order !in s.world.orders {
        CreateKeepsInv(s, seller, order);
      }
    case CallOrder(seller, order, op, now) =>
      if !op.MarkBooked? {
        OrderCallKeepsBookings(s.world.orders, seller, order, op, now);
        QuietWorldKeepsInv(s, s.world.(orders := Orders.StepTable(s.world.orders, seller, order, op, now)));
      }
    case MarkShipment(seller, id, mark, now) =>
      MarkIsQuiet(s.world, seller, id, mark, now);
      QuietWorldKeepsInv(s, MarkRow(s.world, seller, id, mark, now));
    case CancelShipment(seller, id, now) =>
      QuietWorldKeepsInv(s, ApplyCancel(s.world, seller, id, now));
    case Submit(b, seller, order, carrier) =>
      if b !in s.books {
        SubmitKeepsInv(s, b, seller, order, carrier);
      }
    case Advance(b, c) =>
      if b in s.books {
        AdvanceKeepsInv(s, b, c);
      }
    case Crash(b) =>
      if b in s.books {
        PcKeepsInv(s, b, Ended);
      }
  }

  lemma {:induction false} RunKeepsInv(s: System, actions: seq<Action>)
    requires Inv(s)
    ensures Inv(Run(s, actions))
    decreases |actions|
  {
    if actions != [] {
      RunKeepsInv(s, actions[..|actions| - 1]);
      NextKeepsInv(Run(s, actions[..|actions| - 1]), actions[|actions| - 1]);
    }
  }

  lemma InitHoldsInv()
    ensures Inv(Init())
  {
    assert forall o :: !Succeeded(Init(), o);
  }

  // ---------------------------------------------------------------- what every run guarantees

  /**
   Main result: every AWB on an order stands on that order's own shipment row, and the carrier issued
   it for that row.
   */
  lemma AwbProvenance(actions: seq<Action>, o: OrderId)
    ensures var s := Run(Init(), actions);
      o in s.world.orders && s.world.orders[o].awb.Some? ==>
        exists i: ShipmentId :: Bears(s.world.shipments, i, o, s.world.orders[o])
          && (i, s.world.orders[o].awb.value) in s.issued
  {
    InitHoldsInv();
    RunKeepsInv(Init(), actions);
    var s := Run(Init(), actions);
    if o in s.world.orders && s.world.orders[o].awb.Some? {
      var i :| Bears(s.world.shipments, i, o, s.world.orders[o]);
      assert (i, s.world.shipments[i].awb.value) in s.issued;
    }
  }

  /** Main result: the carrier is asked at most once for any one order, however many Books run. */
  lemma CarrierCalledOncePerOrder(actions: seq<Action>, j: nat, k: nat)
    requires j < k < |Run(Init(), actions).calls|
    ensures var s := Run(Init(), actions);
      && s.calls[j] in s.world.shipments && s.calls[k] in s.world.shipments
      && s.world.shipments[s.calls[j]].order != s.world.shipments[s.calls[k]].order
  {
    InitHoldsInv();
    RunKeepsInv(Init(), actions);
    var s := Run(Init(), actions);
    assert !SameOrder(s.world.shipments, s.calls[j], s.calls[k]);
  }

  /**
   Main result: at most one Book of an order ever succeeds, one does iff the order reached booked, and
   then it has an AWB.
   */
  lemma BookedMeansOneSuccess(actions: seq<Action>, o: OrderId)
    ensures var s := Run(Init(), actions);
      && (EverBooked(s.world.orders, o) <==> Succeeded(s, o))
      && (EverBooked(s.world.orders, o) ==> s.world.orders[o].awb.Some? && s.world.orders[o].carrier.Some?)
      && (forall j, k :: 0 <= j < k < |s.successes| && s.successes[j].1 == o ==> s.successes[k].1 != o)
  {
    InitHoldsInv();
    RunKeepsInv(Init(), actions);
    var s := Run(Init(), actions);
    if o in s.world.orders {
      assert Orders.Coherent(s.world.orders[o]);
    }
  }

  /** An order whose shipment row no running Book holds and which never reached booked. */
  ghost predicate Orphaned(s: System, o: OrderId) {
    && (exists i :: i in s.world.shipments && s.world.shipments[i].order == o)
    && (forall b :: b in s.books && s.books[b].order == o ==> PcId(s.books[b].pc).None?)
    && !EverBooked(s.world.orders, o)
  }

  /** A world step that keeps bookings and rows, with no Book gaining a row, keeps the order orphaned. */
  lemma QuietKeepsOrphaned(s: System, s': System, o: OrderId)
    requires Orphaned(s, o)
    requires s.world.shipments.Keys <= s'.world.shipments.Keys
    requires forall i :: i in s.world.shipments ==> s'.world.shipments[i].order == s.world.shipments[i].order
    requires forall b :: b in s'.books && s'.books[b].order == o && PcId(s'.books[b].pc).Some? ==>
      b in s.books && s.books[b].order == o && PcId(s.books[b].pc).Some?
    requires EverBooked(s'.world.orders, o) ==> EverBooked(s.world.orders, o)
    ensures Orphaned(s', o)
  {
    var i :| i in s.world.shipments && s.world.shipments[i].order == o;
    assert i in s'.world.shipments && s'.world.shipments[i].order == o;
  }

  ghost predicate RowsStay(t: ShipmentTable, t': ShipmentTable) {
    t.Keys <= t'.Keys && forall i :: i in t ==> t'[i].order == t[i].order
  }

  /** What one step of a Book can do to the rows, whatever its pc. */
  lemma AdvanceKeepsRows(s: System, b: BookId, c: Choice)
    requires b in s.books
    ensures RowsStay(s.world.shipments, AdvanceBook(s, b, c).world.shipments)
  {
    if s.books[b].pc.AwbIssued? {
      ConfirmKeepsRows(s.world, s.books[b].seller, s.books[b].pc.id, s.books[b].pc.awb, c.now);
    }
    if s.books[b].pc.CarrierRefused? {
      FailureKeepsRows(s.world, s.books[b].seller, s.books[b].pc.id);
    }
  }

  lemma ConfirmKeepsRows(w: World, seller: SellerId, id: ShipmentId, awb: string, now: Time)
    ensures RowsStay(w.shipments, AfterConfirm(w, seller, id, awb, now).shipments)
  {
  }

  lemma FailureKeepsRows(w: World, seller: SellerId, id: ShipmentId)
    ensures RowsStay(w.shipments, AfterFailure(w, seller, id).shipments)
  {
  }

  /** And to the Books. */
  lemma AdvanceKeepsBooks(s: System, b: BookId, c: Choice)
    requires b in s.books
    ensures var s' := AdvanceBook(s, b, c);
      && s'.books.Keys == s.books.Keys
      && s'.books[b].order == s.books[b].order
      && (forall x :: x in s.books && x != b ==> s'.books[x] == s.books[x])
  {
  }

  lemma AdvanceKeepsOrphaned(s: System, b: BookId, c: Choice, o: OrderId)
    requires Inv(s) && Orphaned(s, o) && b in s.books
    ensures Orphaned(AdvanceBook(s, b, c), o)
  {
    var s' := AdvanceBook(s, b, c);
    var book := s.books[b];
    AdvanceKeepsRows(s, b, c);
    AdvanceKeepsBooks(s, b, c);
    OrphanStaysUnbooked(s, b, c, o);
    OrphanStaysUnheld(s, b, c, o);
    QuietKeepsOrphaned(s, s', o);
  }

  lemma OrphanStaysUnbooked(s: System, b: BookId, c: Choice, o: OrderId)
    requires OrdersCoherent(s) && Orphaned(s, o) && b in s.books
    ensures !EverBooked(AdvanceBook(s, b, c).world.orders, o)
  {
    var book := s.books[b];
    if book.pc.Submitted? {
      OrderCallKeepsBookings(s.world.orders, book.seller, book.order, Orders.MarkAllocating, c.now);
    } else {
      LaterStepsTouchTheirOrder(s, b, c, o);
    }
  }

  /** Past its first step a Book touches no order but its own, and that only to book it. */
  lemma LaterStepsTouchTheirOrder(s: System, b: BookId, c: Choice, o: OrderId)
    requires b in s.books && !s.books[b].pc.Submitted? && (s.books[b].order == o ==> !s.books[b].pc.Confirmed?)
    ensures var t, t' := s.world.orders, AdvanceBook(s, b, c).world.orders;
      t'.Keys == t.Keys && (o in t ==> t'[o] == t[o])
  {
  }

  lemma OrphanStaysUnheld(s: System, b: BookId, c: Choice, o: OrderId)
    requires Orphaned(s, o) && b in s.books
    ensures s.books[b].order == o ==> PcId(AdvanceBook(s, b, c).books[b].pc).None?
  {
    assert HasShipment(s.world.shipments, o);
  }

  lemma CallKeepsOrphaned(s: System, seller: SellerId, order: OrderId, op: Orders.OrderOp, now: Time, o: OrderId)
    requires Inv(s) && Orphaned(s, o) && !op.MarkBooked?
    ensures Orphaned(Next(s, CallOrder(seller, order, op, now)), o)
  {
    OrderCallKeepsBookings(s.world.orders, seller, order, op, now);
    QuietKeepsOrphaned(s, Next(s, CallOrder(seller, order, op, now)), o);
  }

  lemma MarkKeepsOrphaned(s: System, seller: SellerId, id: ShipmentId, mark: Mark, now: Time, o: OrderId)
    requires Inv(s) && Orphaned(s, o)
    ensures Orphaned(Next(s, MarkShipment(seller, id, mark, now)), o)
  {
    MarkIsQuiet(s.world, seller, id, mark, now);
    QuietKeepsOrphaned(s, Next(s, MarkShipment(seller, id, mark, now)), o);
  }

  lemma NextKeepsOrphaned(s: System, a: Action, o: OrderId)
    requires Inv(s) && Orphaned(s, o)
    ensures Orphaned(Next(s, a), o)
  {
    match a
    case CallOrder(seller, order, op, now) =>
      if !op.MarkBooked? {
        CallKeepsOrphaned(s, seller, order, op, now, o);
      }
    case MarkShipment(seller, id, mark, now) => MarkKeepsOrphaned(s, seller, id, mark, now, o);
    case Advance(b, c) =>
      if b in s.books {
        AdvanceKeepsOrphaned(s, b, c, o);
      }
    case _ => RestKeepsOrphaned(s, a, o);
  }

  lemma RestKeepsOrphaned(s: System, a: Action, o: OrderId)
    requires Orphaned(s, o) && (a.CreateOrder? || a.CancelShipment? || a.Submit? || a.Crash?)
    ensures Orphaned(Next(s, a), o)
  {
    QuietKeepsOrphaned(s, Next(s, a), o);
  }

  /** From call number n on, every carrier call is for a shipment of another order. */
  ghost predicate CallsAreForOthers(s: System, n: nat, o: OrderId) {
    forall k :: n <= k < |s.calls| ==> s.calls[k] in s.world.shipments && s.world.shipments[s.calls[k]].order != o
  }

  lemma NextKeepsRows(s: System, a: Action)
    ensures s.world.shipments.Keys <= Next(s, a).world.shipments.Keys
    ensures forall i :: i in s.world.shipments ==> Next(s, a).world.shipments[i].order == s.world.shipments[i].order
  {
    if a.Advance? && a.b in s.books {
      AdvanceKeepsRows(s, a.b, a.choice);
    }
  }

  lemma NextCallsForOthers(s: System, a: Action, n: nat, o: OrderId)
    requires Inv(s) && Orphaned(s, o) && n <= |s.calls| && CallsAreForOthers(s, n, o)
    ensures n <= |Next(s, a).calls| && CallsAreForOthers(Next(s, a), n, o)
  {
    var s' := Next(s, a);
    NextKeepsRows(s, a);
    NextCalls(s, a);
    if s'.calls != s.calls {
      assert HoldsItsRow(s, a.b);
    }
  }

  /** Only a Book that holds a persisted row calls the carrier, once, for that row. */
  lemma NextCalls(s: System, a: Action)
    ensures Next(s, a).calls == s.calls
      || (a.Advance? && a.b in s.books && s.books[a.b].pc.Persisted?
          && Next(s, a).calls == s.calls + [s.books[a.b].pc.id])
  {
  }

  /**
   Main result: there is no second chance. Once an order's Book has ended (crashed, refused by the
   carrier, or failed to confirm) with its shipment row in place and the order not booked, no later
   run, whatever is retried, ever books the order or calls the carrier for it again.
   */
  lemma {:induction false} NoSecondChance(before: seq<Action>, after: seq<Action>, o: OrderId)
    requires Orphaned(Run(Init(), before), o)
    ensures Orphaned(Run(Run(Init(), before), after), o)
    ensures |Run(Init(), before).calls| <= |Run(Run(Init(), before), after).calls|
    ensures CallsAreForOthers(Run(Run(Init(), before), after), |Run(Init(), before).calls|, o)
    decreases |after|
  {
    if after != [] {
      var s := Run(Init(), before);
      var init, last := after[..|after| - 1], after[|after| - 1];
      NoSecondChance(before, init, o);
      InitHoldsInv();
      RunKeepsInv(Init(), before);
      RunKeepsInv(s, init);
      NextKeepsOrphaned(Run(s, init), last, o);
      NextCallsForOthers(Run(s, init), last, |s.calls|, o);
    }
  }

  /**
   Exactly when a Book asks the carrier, and exactly when shipment and order come out in step: the
   order's state does not stop the carrier call, so an order that is neither ready nor allocating
   gets a booked shipment and stays where it was.
   */
  lemma BookExactly(
    w: World, seller: SellerId, order: OrderId, carrier: string, id: ShipmentId, env: Environment, now: Time)
    requires id !in w.shipments
    ensures var (r, w') := BookSpec(w, seller, order, carrier, id, env, now);
      && (r == BookFailed(false) <==>
            !(env.allocatingUp && env.phaseAUp && Orders.Owns(w.orders, seller, order)
              && !HasShipment(w.shipments, order)))
      && (r == BookedAs(id) <==>
            r != BookFailed(false) && env.answer.Issued? && env.phaseBUp
            && forall i :: i in w.shipments ==> w.shipments[i].awb != Some(env.answer.awb))
      && (r == BookedAs(id) ==>
            && w'.shipments[id].state == Booked && w'.shipments[id].awb == Some(env.answer.awb)
            && (env.markBookedUp && w.orders[order].state in {Orders.Ready, Orders.Allocating} ==>
                  w'.orders[order].state == Orders.Booked && w'.orders[order].awb == Some(env.answer.awb))
            && (w.orders[order].state !in {Orders.Ready, Orders.Allocating} ==> w'.orders == w.orders))
  {
    if AllocatingTolerated(w, seller, order, env.allocatingUp) {
      var w1 := w.(orders := Orders.StepTable(w.orders, seller, order, Orders.MarkAllocating, now));
      if PhaseAOk(w1, order, env.phaseAUp) && env.answer.Issued? {
        var w2 := AfterPhaseA(w1, seller, order, carrier, id);
        assert AwbTaken(w2.shipments, id, env.answer.awb) <==>
          exists i :: i in w.shipments && w.shipments[i].awb == Some(env.answer.awb) by {
          if i :| i in w.shipments && w.shipments[i].awb == Some(env.answer.awb) {
            assert i in w2.shipments && i != id && w2.shipments[i].awb == Some(env.answer.awb);
          }
        }
      }
    }
  }

  // ---------------------------------------------------------------- the sequential method is one of these runs

  function Solo(
      b: BookId, seller: SellerId, order: OrderId, carrier: string, id: ShipmentId, env: Environment, now: Time)
    : seq<Action>
  {
    [Submit(b, seller, order, carrier),
     Advance(b, Choice(env.allocatingUp, id, env.answer, None, now)),
     Advance(b, Choice(env.phaseAUp, id, env.answer, None, now)),
     Advance(b, Choice(true, id, env.answer, None, now)),
     Advance(b, Choice(env.phaseBUp, id, env.answer, None, now)),
     Advance(b, Choice(env.markBookedUp, id, env.answer, None, now))]
  }

  lemma RunSix(s: System, a: seq<Action>)
    requires |a| == 6
    ensures Run(s, a) == Next(Next(Next(Next(Next(Next(s, a[0]), a[1]), a[2]), a[3]), a[4]), a[5])
  {
    assert a[..5][..4] == a[..4] && a[..4][..3] == a[..3] && a[..3][..2] == a[..2] && a[..2][..1] == a[..1]
           && a[..1][..0] == [];
    assert Run(s, []) == s;
    assert Run(s, a[..1]) == Next(s, a[0]);
    assert Run(s, a[..2]) == Next(Run(s, a[..1]), a[1]);
    assert Run(s, a[..3]) == Next(Run(s, a[..2]), a[2]);
    assert Run(s, a[..4]) == Next(Run(s, a[..3]), a[3]);
    assert Run(s, a[..5]) == Next(Run(s, a[..4]), a[4]);
  }

  /** The protocol from the carrier call on, for a Book left alone. */
  lemma SoloFromCarrier(s: System, b: BookId, id: ShipmentId, env: Environment, now: Time)
    requires b in s.books && s.books[b].pc == Persisted(id)
    ensures var book := s.books[b];
      var a := Solo(b, book.seller, book.order, book.carrier, id, env, now);
      var s' := Next(Next(Next(s, a[3]), a[4]), a[5]);
      && s'.books == s.books[b := book.(pc := Ended)] && s'.calls == s.calls + [id]
      && s'.world == AfterCarrier(s.world, book.seller, book.order, book.carrier, id, env, now)
  {
    var book := s.books[b];
    var a := Solo(b, book.seller, book.order, book.carrier, id, env, now);
    var called := Next(s, a[3]);
    match env.answer
    case CarrierError =>
      assert called.books == s.books[b := book.(pc := CarrierRefused(id))];
      EndedStays(Next(called, a[4]), b, a);
    case Issued(awb) =>
      assert called.books == s.books[b := book.(pc := AwbIssued(id, awb))];
      SoloFromAwb(called, b, id, awb, env, now);
  }

  /** From the issued AWB on: phase B, then the order. */
  lemma SoloFromAwb(s: System, b: BookId, id: ShipmentId, awb: string, env: Environment, now: Time)
    requires b in s.books && s.books[b].pc == AwbIssued(id, awb) && env.answer == Issued(awb)
    ensures var book := s.books[b];
      var a := Solo(b, book.seller, book.order, book.carrier, id, env, now);
      var s' := Next(Next(s, a[4]), a[5]);
      && s'.books == s.books[b := book.(pc := Ended)] && s'.calls == s.calls
      && s'.world == AfterCarrier(s.world, book.seller, book.order, book.carrier, id, env, now)
  {
    var book := s.books[b];
    var a := Solo(b, book.seller, book.order, book.carrier, id, env, now);
    if !ConfirmOk(s.world, id, awb, env.phaseBUp) {
      EndedStays(Next(s, a[4]), b, a);
    }
  }

  lemma EndedStays(s: System, b: BookId, a: seq<Action>)
    requires b in s.books && s.books[b].pc == Ended && |a| == 6
    requires forall k :: 1 <= k < 6 ==> a[k].Advance? && a[k].b == b
    ensures forall k :: 1 <= k < 6 ==> Next(s, a[k]) == s
  {
  }

  /** The protocol from phase A on, for a Book left alone on world `w1`. */
  lemma SoloFromPhaseA(s: System, b: BookId, id: ShipmentId, env: Environment, now: Time)
    requires b in s.books && s.books[b].pc == Allocated && id !in s.world.shipments
    ensures var book := s.books[b];
      var a := Solo(b, book.seller, book.order, book.carrier, id, env, now);
      var s' := Next(Next(Next(Next(s, a[2]), a[3]), a[4]), a[5]);
      var reached := PhaseAOk(s.world, book.order, env.phaseAUp);
      && s'.books == s.books[b := book.(pc := Ended)]
      && s'.calls == (if reached then s.calls + [id] else s.calls)
      && s'.world == if reached
           then AfterCarrier(AfterPhaseA(s.world, book.seller, book.order, book.carrier, id),
                             book.seller, book.order, book.carrier, id, env, now)
           else s.world
  {
    var book := s.books[b];
    var a := Solo(b, book.seller, book.order, book.carrier, id, env, now);
    var s3 := Next(s, a[2]);
    if PhaseAOk(s.world, book.order, env.phaseAUp) {
      SoloFromCarrier(s3, b, id, env, now);
    } else {
      EndedStays(s3, b, a);
    }
  }

  /** The whole protocol for a Book just submitted and left alone. */
  lemma SoloFromSubmitted(s: System, b: BookId, id: ShipmentId, env: Environment, now: Time)
    requires b in s.books && s.books[b].pc == Submitted && id !in s.world.shipments
    ensures var book := s.books[b];
      var a := Solo(b, book.seller, book.order, book.carrier, id, env, now);
      var s' := Next(Next(Next(Next(Next(s, a[1]), a[2]), a[3]), a[4]), a[5]);
      var (r, w) := BookSpec(s.world, book.seller, book.order, book.carrier, id, env, now);
      && s'.world == w && s'.books == s.books[b := book.(pc := Ended)]
      && s'.calls == (if r == BookFailed(false) then s.calls else s.calls + [id])
  {
    var book := s.books[b];
    var a := Solo(b, book.seller, book.order, book.carrier, id, env, now);
    var s2 := Next(s, a[1]);
    if AllocatingTolerated(s.world, book.seller, book.order, env.allocatingUp) {
      assert s2.books == s.books[b := book.(pc := Allocated)];
      SoloFromPhaseA(s2, b, id, env, now);
    } else {
      EndedStays(s2, b, a);
    }
  }

  /** Main result: the Book method, left alone, is the protocol's run of one Book, tables and outcome. */
  lemma BookAloneIsARun(
      s: System, b: BookId, seller: SellerId, order: OrderId, carrier: string, id: ShipmentId, env: Environment,
      now: Time)
    requires b !in s.books && id !in s.world.shipments
    ensures var s' := Run(s, Solo(b, seller, order, carrier, id, env, now));
      var (r, w) := BookSpec(s.world, seller, order, carrier, id, env, now);
      && s'.world == w
      && s'.books == s.books[b := Book(seller, order, carrier, Ended)]
      && s'.calls == (if r == BookFailed(false) then s.calls else s.calls + [id])
  {
    var a := Solo(b, seller, order, carrier, id, env, now);
    RunSix(s, a);
    SoloFromSubmitted(Next(s, a[0]), b, id, env, now);
  }
}
