/**
 Carrier event ingestion (backend/internal/tracking).

 PollNow reads the shipment state once and then walks a sorted batch of carrier events with a
 *predicted* state; ingestOne re-reads the state before each event. The lemmas say when the two
 agree, that a poll never issues a mark that is refused while the prediction is live, and that
 polling the same events converges.
 */
module Tracking {
  import opened Core
  import opened Shipments
  import Orders
  import Sorting

  datatype Canonical =
    PickedUp | CInTransit | OutForDelivery | CDelivered | RTOInitiated | RTODelivered | Exception | Pending | Manifested

  datatype CarrierEvent = CarrierEvent(
    carrier: string, awb: string, code: string, status: string, location: string, remarks: string, at: Time)

  /** A tracking_event row. */
  datatype EventRow = EventRow(shipment: ShipmentId, seller: SellerId, event: CarrierEvent, canonical: Canonical,
                               source: string)

  type EventTable = map<string, EventRow>

  predicate Moving(c: Canonical) {
    c == PickedUp || c == CInTransit || c == OutForDelivery
  }

  // ---------------------------------------------------------------- one event

  /** The mark, if any, that an event asks for when the shipment is believed to be in `believed`. */
  function MarkFor(c: Canonical, believed: ShipmentState): Option<Mark> {
    match c
    case PickedUp | CInTransit | OutForDelivery => if believed == Booked then Some(ToInTransit) else None
    case CDelivered => if believed == InTransit then Some(ToDelivered) else None
    case RTOInitiated => Some(ToRTO)
    case RTODelivered => Some(ToRTOCompleted)
    case _ => None
  }

  function NextProbableState(current: ShipmentState, c: Canonical): ShipmentState {
    match c
    case PickedUp | CInTransit | OutForDelivery => if current == Booked then InTransit else current
    case CDelivered => if current == InTransit then Delivered else current
    case RTOInitiated => RTOInProgress
    case RTODelivered => RTOCompleted
    case _ => current
  }

  /** applyTransition on the tables. */
  function ApplyEvent(
      w: World, seller: SellerId, id: ShipmentId, c: Canonical, believed: ShipmentState, now: Time): World
  {
    if MarkFor(c, believed).Some? then ApplyMark(w, seller, id, MarkFor(c, believed).value, now) else w
  }

  // ---------------------------------------------------------------- the two walks

  function Predicted(start: ShipmentState, cs: seq<Canonical>): ShipmentState
    decreases |cs|
  {
    if cs == [] then start
    else NextProbableState(Predicted(start, cs[..|cs| - 1]), cs[|cs| - 1])
  }

  /** PollNow: the state is read once, then predicted. */
  function PollWalk(
      w: World, seller: SellerId, id: ShipmentId, start: ShipmentState, cs: seq<Canonical>, now: Time): World
    decreases |cs|
  {
    if cs == [] then w
    else
      var init := cs[..|cs| - 1];
      ApplyEvent(PollWalk(w, seller, id, start, init, now), seller, id, cs[|cs| - 1], Predicted(start, init), now)
  }

  /** ingestOne per event: the state is read again before each event. */
  function IngestWalk(w: World, seller: SellerId, id: ShipmentId, cs: seq<Canonical>, now: Time): World
    requires id in w.shipments
    ensures id in IngestWalk(w, seller, id, cs, now).shipments
    decreases |cs|
  {
    if cs == [] then w
    else
      var before := IngestWalk(w, seller, id, cs[..|cs| - 1], now);
      ApplyEvent(before, seller, id, cs[|cs| - 1], before.shipments[id].state, now)
  }

  function InsertRow(t: EventTable, key: string, row: EventRow): EventTable {
    if key in t then t else t[key := row]
  }

  function InsertAll(t: EventTable, rows: seq<(string, EventRow)>): EventTable
    decreases |rows|
  {
    if rows == [] then t
    else InsertRow(InsertAll(t, rows[..|rows| - 1]), rows[|rows| - 1].0, rows[|rows| - 1].1)
  }

  lemma WalkOneMore(w: World, seller: SellerId, id: ShipmentId, cs: seq<Canonical>, c: Canonical, now: Time)
    requires id in w.shipments
    ensures var before := IngestWalk(w, seller, id, cs, now);
      IngestWalk(w, seller, id, cs + [c], now)
      == ApplyEvent(before, seller, id, c, before.shipments[id].state, now)
  {
    assert (cs + [c])[..|cs|] == cs;
  }

  lemma InsertOneMore(t: EventTable, rows: seq<(string, EventRow)>, key: string, row: EventRow)
    ensures InsertAll(t, rows + [(key, row)]) == InsertRow(InsertAll(t, rows), key, row)
  {
    assert (rows + [(key, row)])[..|rows|] == rows;
  }

  // ---------------------------------------------------------------- the service

  datatype Fetch = Fetched(events: seq<CarrierEvent>) | FetchFailed

  datatype PollOutcome = Polled | ShipmentNotFound | NoAwb | NoAdapter | CarrierFailed | DbFailed

  predicate OldestFirst(es: seq<CarrierEvent>) {
    forall i, j :: 0 <= i < j < |es| ==> es[i].at <= es[j].at
  }

  /** The partial unique index on shipment.awb. */
  predicate UniqueAwbs(t: ShipmentTable) {
    forall i, j :: i in t && j in t && t[i].awb.Some? && t[i].awb == t[j].awb ==> i == j
  }

  /** SELECT … WHERE awb = $1. */
  ghost function Bearer(t: ShipmentTable, awb: string): Option<ShipmentId> {
    if id :| id in t && t[id].awb == Some(awb) then Some(id) else None
  }

  class TrackingService {
    const shipments: ShipmentService
    const adapters: set<string>
    const normalise: (string, string, string) -> Canonical
    const dedupeHash: CarrierEvent -> string
    var events: EventTable

    constructor (shipments: ShipmentService, adapters: set<string>,
                 normalise: (string, string, string) -> Canonical, dedupeHash: CarrierEvent -> string)
      ensures this.shipments == shipments && this.adapters == adapters && events == map[]
      ensures this.normalise == normalise && this.dedupeHash == dedupeHash
    {
      this.shipments := shipments;
      this.adapters := adapters;
      this.normalise := normalise;
      this.dedupeHash := dedupeHash;
      events := map[];
    }

    function Classify(e: CarrierEvent): Canonical {
      normalise(e.carrier, e.code, e.status)
    }

    function Statuses(es: seq<CarrierEvent>): (cs: seq<Canonical>)
      ensures |cs| == |es| && forall i :: 0 <= i < |es| ==> cs[i] == Classify(es[i])
    {
      seq(|es|, i requires 0 <= i < |es| => Classify(es[i]))
    }

    function Rows(
        id: ShipmentId, seller: SellerId, es: seq<CarrierEvent>, source: string): (rows: seq<(string, EventRow)>)
      ensures |rows| == |es|
      ensures forall i :: 0 <= i < |es| ==>
        rows[i] == (dedupeHash(es[i]), EventRow(id, seller, es[i], Classify(es[i]), source))
    {
      seq(|es|, i requires 0 <= i < |es| => (dedupeHash(es[i]), EventRow(id, seller, es[i], Classify(es[i]), source)))
    }

    method ApplyTransition(seller: SellerId, id: ShipmentId, c: Canonical, believed: ShipmentState, now: Time)
      modifies shipments, shipments.orders
      ensures shipments.W() == ApplyEvent(old(shipments.W()), seller, id, c, believed, now)
    {
      var ignored: Outcome;
      match c {
        case PickedUp | CInTransit | OutForDelivery =>
          if believed == Booked {
            ignored := shipments.MarkInTransit(seller, id, now);
          }
        case CDelivered =>
          if believed == InTransit {
            ignored := shipments.MarkDelivered(seller, id, now);
          }
        case RTOInitiated => ignored := shipments.MarkRTO(seller, id, now);
        case RTODelivered => ignored := shipments.CompleteRTO(seller, id, now);
        case _ =>
      }
    }

    /** sort.Slice on the copied slice, oldest first. */
    method SortOldestFirst(a: array<CarrierEvent>)
      modifies a
      ensures OldestFirst(a[..])
      ensures multiset(a[..]) == multiset(old(a[..]))
    {
      Sorting.SortSlice(a, (x: CarrierEvent, y: CarrierEvent) => x.at < y.at);
    }

    /** The two tables after one event of a feed; an unknown AWB is ignored. */
    ghost function FeedStep(w: World, t: EventTable, e: CarrierEvent, source: string, now: Time): (World, EventTable) {
      match Bearer(w.shipments, e.awb)
      case None => (w, t)
      case Some(id) =>
        var s := w.shipments[id];
        (ApplyEvent(w, s.seller, id, Classify(e), s.state, now),
         InsertRow(t, dedupeHash(e), EventRow(id, s.seller, e, Classify(e), source)))
    }

    ghost function Feed(w: World, t: EventTable, es: seq<CarrierEvent>, source: string, now: Time): (World, EventTable)
      decreases |es|
    {
      if es == [] then (w, t)
      else
        var before := Feed(w, t, es[..|es| - 1], source, now);
        FeedStep(before.0, before.1, es[|es| - 1], source, now)
    }

    /** ingestOne: one event through the webhook path; `up` is false when its lookup or its insert fails. */
    method IngestOne(e: CarrierEvent, source: string, up: bool, now: Time)
      requires UniqueAwbs(shipments.table)
      modifies this, shipments, shipments.orders
      ensures (shipments.W(), events)
              == if up then FeedStep(old(shipments.W()), old(events), e, source, now)
                 else (old(shipments.W()), old(events))
      ensures UniqueAwbs(shipments.table)
    {
      if !up || !exists j :: j in shipments.table && shipments.table[j].awb == Some(e.awb) {
        return;
      }
      var id :| id in shipments.table && shipments.table[id].awb == Some(e.awb);
      var seller, state := shipments.table[id].seller, shipments.table[id].state;
      var canonical := normalise(e.carrier, e.code, e.status);
      var key := dedupeHash(e);
      ghost var w, t := shipments.W(), events;
      FeedStepAbout(w, t, e, id, source, now);
      if key !in events {
        events := events[key := EventRow(id, seller, e, canonical, source)];
      }
      ApplyTransition(seller, id, canonical, state, now);
    }

    /** The events whose lookup and insert went through; `down` holds the positions of the others. */
    ghost function Reached(es: seq<CarrierEvent>, down: set<nat>): seq<CarrierEvent>
      decreases |es|
    {
      if es == [] then []
      else Reached(es[..|es| - 1], down) + if |es| - 1 in down then [] else [es[|es| - 1]]
    }

    /** A failed event is logged and skipped. */
    method IngestEvents(es: seq<CarrierEvent>, source: string, down: set<nat>, now: Time)
      requires UniqueAwbs(shipments.table)
      modifies this, shipments, shipments.orders
      ensures (shipments.W(), events) == Feed(old(shipments.W()), old(events), Reached(es, down), source, now)
      ensures UniqueAwbs(shipments.table)
    {
      for i := 0 to |es|
        invariant UniqueAwbs(shipments.table)
        invariant (shipments.W(), events)
                  == Feed(old(shipments.W()), old(events), Reached(es[..i], down), source, now)
      {
        assert es[..i + 1][..i] == es[..i];
        ghost var before := Reached(es[..i], down);
        assert (before + [es[i]])[..|before|] == before;
        assert before + [] == before;
        IngestOne(es[i], source, i !in down, now);
      }
      assert es[..|es|] == es;
    }

    /** A feed about one shipment is the per-event walk of that shipment. */
    lemma {:induction false} FeedAboutOneShipment(
      w: World, t: EventTable, es: seq<CarrierEvent>, id: ShipmentId, source: string, now: Time)
      requires UniqueAwbs(w.shipments) && id in w.shipments
      requires forall e :: e in es ==> w.shipments[id].awb == Some(e.awb)
      ensures var s := w.shipments[id];
        Feed(w, t, es, source, now) ==
          (IngestWalk(w, s.seller, id, Statuses(es), now), InsertAll(t, Rows(id, s.seller, es, source)))
      ensures var w' := Feed(w, t, es, source, now).0;
        id in w'.shipments && UniqueAwbs(w'.shipments)
        && w'.shipments[id].awb == w.shipments[id].awb && w'.shipments[id].seller == w.shipments[id].seller
      decreases |es|
    {
      if es != [] {
        var init, e, seller := es[..|es| - 1], es[|es| - 1], w.shipments[id].seller;
        FeedAboutOneShipment(w, t, init, id, source, now);
        var (w1, t1) := Feed(w, t, init, source, now);
        assert e in es;
        FeedStepAbout(w1, t1, e, id, source, now);
        assert Feed(w, t, es, source, now) == FeedStep(w1, t1, e, source, now);
        StatusesAndRowsGrow(init, e, id, seller, source);
        assert init + [e] == es;
        WalkOneMore(w, seller, id, Statuses(init), Classify(e), now);
        InsertOneMore(t, Rows(id, seller, init, source), dedupeHash(e), EventRow(id, seller, e, Classify(e), source));
      }
    }

    lemma StatusesAndRowsGrow(
        es: seq<CarrierEvent>, e: CarrierEvent, id: ShipmentId, seller: SellerId, source: string)
      ensures Statuses(es + [e]) == Statuses(es) + [Classify(e)]
      ensures Rows(id, seller, es + [e], source)
              == Rows(id, seller, es, source) + [(dedupeHash(e), EventRow(id, seller, e, Classify(e), source))]
    {
    }

    /** One event of a shipment's own AWB moves that shipment. */
    lemma FeedStepAbout(w: World, t: EventTable, e: CarrierEvent, id: ShipmentId, source: string, now: Time)
      requires UniqueAwbs(w.shipments) && id in w.shipments && w.shipments[id].awb == Some(e.awb)
      ensures var s := w.shipments[id];
        FeedStep(w, t, e, source, now) ==
          (ApplyEvent(w, s.seller, id, Classify(e), s.state, now),
           InsertRow(t, dedupeHash(e), EventRow(id, s.seller, e, Classify(e), source)))
      ensures var w' := FeedStep(w, t, e, source, now).0;
        id in w'.shipments && UniqueAwbs(w'.shipments)
        && w'.shipments[id].awb == w.shipments[id].awb && w'.shipments[id].seller == w.shipments[id].seller
    {
      assert Bearer(w.shipments, e.awb) == Some(id);
    }

    /**
     Main result: three PollNow calls that fetch the same events, in whatever order each sort leaves
     them: unless a return delivery ties as above, the third changes neither shipments nor orders. From
     the second on no tracking_event row is added or rewritten, ties or not.
     */
    lemma ThirdPollNowIsIdle(
      w: World, t: EventTable, seller: SellerId, id: ShipmentId, fetched: seq<CarrierEvent>,
      one: seq<CarrierEvent>, two: seq<CarrierEvent>, three: seq<CarrierEvent>, t1: Time, t2: Time, t3: Time)
      requires Owns(w.shipments, seller, id)
      requires Lists(one, fetched) && Lists(two, fetched) && Lists(three, fetched)
      ensures var w1 := Poll(w, seller, id, Statuses(one), t1);
        id in w1.shipments &&
        var w2 := Poll(w1, seller, id, Statuses(two), t2);
        id in w2.shipments && (!TiesMatter(this, fetched) ==> Poll(w2, seller, id, Statuses(three), t3) == w2)
      ensures var table := InsertAll(t, Rows(id, seller, one, "poll"));
        InsertAll(table, Rows(id, seller, two, "poll")) == table
    {
      PollWalkState(w, seller, id, Statuses(one), t1);
      var w1 := Poll(w, seller, id, Statuses(one), t1);
      PollWalkState(w1, seller, id, Statuses(two), t2);
      var w2 := Poll(w1, seller, id, Statuses(two), t2);
      PollWalkState(w2, seller, id, Statuses(three), t3);
      if !TiesMatter(this, fetched) {
        ThirdStaysPut(this, fetched, w.shipments[id].state, one, two, three);
      }
      PollOnlyClimbs(w2, seller, id, w2.shipments[id].state, Statuses(three), t3);
      SameKeys(one, two, id, seller, "poll");
      EventTableConverges(t, Rows(id, seller, one, "poll"), Rows(id, seller, two, "poll"));
    }

    lemma SameKeys(one: seq<CarrierEvent>, two: seq<CarrierEvent>, id: ShipmentId, seller: SellerId, source: string)
      requires multiset(one) == multiset(two)
      ensures KeysAmong(Rows(id, seller, two, source), Rows(id, seller, one, source))
    {
      var first, again := Rows(id, seller, one, source), Rows(id, seller, two, source);
      SameEvents(one, two);
      forall i | 0 <= i < |again| ensures HasKey(first, again[i].0) {
        assert two[i] in one;
        var j :| 0 <= j < |one| && one[j] == two[i];
        assert first[j].0 == dedupeHash(one[j]) && again[i].0 == dedupeHash(two[i]);
      }
    }

    /**
     PollNow. `order` reports the order the sort left the fetched events in; `lookupUp` and `insertUp`
     say whether the read of the shipment and the transaction that inserts the events go through.
     */
    method PollNow(seller: SellerId, id: ShipmentId, fetch: Fetch, lookupUp: bool, insertUp: bool, now: Time)
      returns (r: PollOutcome, order: seq<CarrierEvent>)
      modifies this, shipments, shipments.orders
      ensures r == if !lookupUp then DbFailed
                   else if !Owns(old(shipments.table), seller, id) then ShipmentNotFound
                   else if old(shipments.table)[id].awb.None? || old(shipments.table)[id].awb == Some("") then NoAwb
                   else if old(shipments.table)[id].carrier !in adapters then NoAdapter
                   else if fetch.FetchFailed? then CarrierFailed
                   else if !insertUp then DbFailed
                   else Polled
      ensures r != Polled ==> events == old(events) && shipments.W() == old(shipments.W())
      ensures r == Polled ==>
        && OldestFirst(order) && multiset(order) == multiset(fetch.events)
        && events == InsertAll(old(events), Rows(id, seller, order, "poll"))
        && shipments.W()
             == PollWalk(old(shipments.W()), seller, id, old(shipments.table)[id].state, Statuses(order), now)
    {
      order := [];
      if !lookupUp {
        return DbFailed, order;
      }
      if !(id in shipments.table && shipments.table[id].seller == seller) {
        return ShipmentNotFound, order;
      }
      var sh := shipments.table[id];
      if sh.awb.None? || sh.awb == Some("") {
        return NoAwb, order;
      }
      if sh.carrier !in adapters {
        return NoAdapter, order;
      }
      if fetch.FetchFailed? {
        return CarrierFailed, order;
      }
      var copied := new CarrierEvent[|fetch.events|](i requires 0 <= i < |fetch.events| => fetch.events[i]);
      assert copied[..] == fetch.events;
      SortOldestFirst(copied);
      order := copied[..];
      if !insertUp {
        return DbFailed, order;
      }
      InsertEvents(seller, id, order);
      WalkEvents(seller, id, order, sh.state, now);
      r := Polled;
    }

    /** The seller-scoped insert transaction: duplicates by dedupe key are dropped. */
    method InsertEvents(seller: SellerId, id: ShipmentId, order: seq<CarrierEvent>)
      modifies this
      ensures events == InsertAll(old(events), Rows(id, seller, order, "poll"))
    {
      ghost var rows := Rows(id, seller, order, "poll");
      for i := 0 to |order|
        invariant events == InsertAll(old(events), rows[..i])
      {
        var canonical := normalise(order[i].carrier, order[i].code, order[i].status);
        var key := dedupeHash(order[i]);
        assert rows[..i + 1][..i] == rows[..i];
        if key !in events {
          events := events[key := EventRow(id, seller, order[i], canonical, "poll")];
        }
      }
      assert rows[..|order|] == rows;
    }

    /** The transition loop, outside that transaction, with the predicted state carried along. */
    method WalkEvents(seller: SellerId, id: ShipmentId, order: seq<CarrierEvent>, start: ShipmentState, now: Time)
      modifies shipments, shipments.orders
      ensures shipments.W() == PollWalk(old(shipments.W()), seller, id, start, Statuses(order), now)
    {
      ghost var cs := Statuses(order);
      var currentState := start;
      for i := 0 to |order|
        invariant currentState == Predicted(start, cs[..i])
        invariant shipments.W() == PollWalk(old(shipments.W()), seller, id, start, cs[..i], now)
      {
        var canonical := normalise(order[i].carrier, order[i].code, order[i].status);
        assert cs[..i + 1][..i] == cs[..i];
        ApplyTransition(seller, id, canonical, currentState, now);
        currentState := NextProbableState(currentState, canonical);
      }
      assert cs[..|order|] == cs;
    }
  }

  // ---------------------------------------------------------------- what the walks do to the state

  /** The shipment state after one event, given the real and the believed state. */
  function Drive(actual: ShipmentState, c: Canonical, believed: ShipmentState): ShipmentState {
    if MarkFor(c, believed).Some? && actual in Sources(MarkFor(c, believed).value)
    then Target(MarkFor(c, believed).value) else actual
  }

  function PollState(s: ShipmentState, cs: seq<Canonical>): ShipmentState
    decreases |cs|
  {
    if cs == [] then s
    else Drive(PollState(s, cs[..|cs| - 1]), cs[|cs| - 1], Predicted(s, cs[..|cs| - 1]))
  }

  function IngestState(s: ShipmentState, cs: seq<Canonical>): ShipmentState
    decreases |cs|
  {
    if cs == [] then s
    else
      var before := IngestState(s, cs[..|cs| - 1]);
      Drive(before, cs[|cs| - 1], before)
  }

  lemma {:induction false} PollWalkState(w: World, seller: SellerId, id: ShipmentId, cs: seq<Canonical>, now: Time)
    requires Owns(w.shipments, seller, id)
    ensures var w' := PollWalk(w, seller, id, w.shipments[id].state, cs, now);
      Owns(w'.shipments, seller, id) && w'.shipments[id].state == PollState(w.shipments[id].state, cs)
    decreases |cs|
  {
    if cs != [] {
      PollWalkState(w, seller, id, cs[..|cs| - 1], now);
    }
  }

  lemma {:induction false} IngestWalkState(w: World, seller: SellerId, id: ShipmentId, cs: seq<Canonical>, now: Time)
    requires Owns(w.shipments, seller, id)
    ensures var w' := IngestWalk(w, seller, id, cs, now);
      Owns(w'.shipments, seller, id) && w'.shipments[id].state == IngestState(w.shipments[id].state, cs)
    decreases |cs|
  {
    if cs != [] {
      IngestWalkState(w, seller, id, cs[..|cs| - 1], now);
    }
  }

  // ---------------------------------------------------------------- the prediction is sound while it is live

  predicate Live(s: ShipmentState) {
    s == Booked || s == InTransit
  }

  lemma {:induction false} LivePredictionIsReal(s: ShipmentState, cs: seq<Canonical>)
    ensures Live(Predicted(s, cs)) ==> PollState(s, cs) == Predicted(s, cs)
    decreases |cs|
  {
    if cs != [] {
      LivePredictionIsReal(s, cs[..|cs| - 1]);
    }
  }

  /** Main result: every in-transit or delivered mark a poll issues is accepted by the real row. */
  lemma PollNeverIssuesARefusedMark(
    w: World, seller: SellerId, id: ShipmentId, cs: seq<Canonical>, k: nat, now: Time)
    requires Owns(w.shipments, seller, id) && k < |cs|
    ensures var believed := Predicted(w.shipments[id].state, cs[..k]);
      var before := PollWalk(w, seller, id, w.shipments[id].state, cs[..k], now);
      MarkFor(cs[k], believed) in {Some(ToInTransit), Some(ToDelivered)} ==>
        MarkOutcome(before, seller, id, MarkFor(cs[k], believed).value) == Done
  {
    PollWalkState(w, seller, id, cs[..k], now);
    LivePredictionIsReal(w.shipments[id].state, cs[..k]);
  }

  // ---------------------------------------------------------------- batch against per-event

  /** A "return delivered" event that arrives while the shipment is still going out. */
  predicate EarlyReturnAt(s: ShipmentState, cs: seq<Canonical>, k: nat) {
    k < |cs| && cs[k] == RTODelivered && Live(IngestState(s, cs[..k]))
  }

  predicate NoEarlyReturn(s: ShipmentState, cs: seq<Canonical>) {
    forall k :: 0 <= k < |cs| ==> !EarlyReturnAt(s, cs, k)
  }

  lemma NoEarlyReturnPrefix(s: ShipmentState, cs: seq<Canonical>, n: nat)
    requires NoEarlyReturn(s, cs) && n <= |cs|
    ensures NoEarlyReturn(s, cs[..n])
  {
    forall k | 0 <= k < n ensures !EarlyReturnAt(s, cs[..n], k) {
      assert cs[..n][..k] == cs[..k];
      assert !EarlyReturnAt(s, cs, k);
    }
  }

  /** While no early return arrives, prediction and truth agree or neither is live. */
  lemma {:induction false} WalksAgree(
    w: World, seller: SellerId, id: ShipmentId, cs: seq<Canonical>, now: Time)
    requires Owns(w.shipments, seller, id)
    requires NoEarlyReturn(w.shipments[id].state, cs)
    ensures var s := w.shipments[id].state;
      && PollWalk(w, seller, id, s, cs, now) == IngestWalk(w, seller, id, cs, now)
      && (Live(IngestState(s, cs)) || Live(Predicted(s, cs)) ==> Predicted(s, cs) == IngestState(s, cs))
    decreases |cs|
  {
    if cs != [] {
      var s, init := w.shipments[id].state, cs[..|cs| - 1];
      NoEarlyReturnPrefix(s, cs, |cs| - 1);
      WalksAgree(w, seller, id, init, now);
      IngestWalkState(w, seller, id, init, now);
      assert !EarlyReturnAt(s, cs, |cs| - 1);
      StepAgrees(IngestWalk(w, seller, id, init, now), seller, id, cs[|cs| - 1], Predicted(s, init), now);
    }
  }

  /** One event does the same for two beliefs that are equal, or both dead, one of them the truth. */
  lemma StepAgrees(w: World, seller: SellerId, id: ShipmentId, c: Canonical, believed: ShipmentState, now: Time)
    requires Owns(w.shipments, seller, id)
    requires Live(w.shipments[id].state) || Live(believed) ==> believed == w.shipments[id].state
    ensures ApplyEvent(w, seller, id, c, believed, now) == ApplyEvent(w, seller, id, c, w.shipments[id].state, now)
  {
  }

  /** Main result: with no early return, one batch poll leaves every table exactly as per-event ingestion does. */
  lemma PollRefinesIngest(w: World, seller: SellerId, id: ShipmentId, cs: seq<Canonical>, now: Time)
    requires Owns(w.shipments, seller, id)
    requires NoEarlyReturn(w.shipments[id].state, cs)
    ensures PollWalk(w, seller, id, w.shipments[id].state, cs, now) == IngestWalk(w, seller, id, cs, now)
  {
    WalksAgree(w, seller, id, cs, now);
  }

  /** A first early return sets the prediction to rto_completed; nothing brings it back to life. */
  function FirstRTO(cs: seq<Canonical>): (n: nat)
    ensures n <= |cs|
    ensures n < |cs| ==> cs[n] == RTOInitiated
    ensures forall i :: 0 <= i < n ==> cs[i] != RTOInitiated
  {
    if cs == [] then 0 else if cs[0] == RTOInitiated then 0 else 1 + FirstRTO(cs[1..])
  }

  /**
   What must follow an early return for the batch to end in the same state all the same. Before the
   first return-initiated event (if any) nothing may move the shipment on; from booked, one pickup
   without a delivery is forgiven when a return-initiated event follows.
   */
  predicate Forgiven(s: ShipmentState, rest: seq<Canonical>) {
    var n := FirstRTO(rest);
    if s == InTransit then
      forall i :: 0 <= i < n ==> rest[i] != CDelivered
    else
      || (forall i :: 0 <= i < n ==> !Moving(rest[i]))
      || (n < |rest| && forall i, j :: 0 <= i < j < n && Moving(rest[i]) ==> rest[j] != CDelivered)
  }

  lemma {:induction false} IngestSplits(s: ShipmentState, a: seq<Canonical>, b: seq<Canonical>)
    ensures IngestState(s, a + b) == IngestState(IngestState(s, a), b)
    decreases |b|
  {
    if b == [] {
      assert a + b == a;
    } else {
      assert (a + b)[..|a + b| - 1] == a + b[..|b| - 1];
      IngestSplits(s, a, b[..|b| - 1]);
    }
  }

  /** The batch after its prediction has died: only return marks still get through. */
  function DeadState(s: ShipmentState, cs: seq<Canonical>): ShipmentState
    decreases |cs|
  {
    if cs == [] then s else Drive(DeadState(s, cs[..|cs| - 1]), cs[|cs| - 1], RTOCompleted)
  }

  lemma {:induction false} PollAfterDeath(s: ShipmentState, a: seq<Canonical>, b: seq<Canonical>)
    requires !Live(Predicted(s, a))
    ensures !Live(Predicted(s, a + b)) && PollState(s, a + b) == DeadState(PollState(s, a), b)
    decreases |b|
  {
    if b == [] {
      assert a + b == a;
    } else {
      assert (a + b)[..|a + b| - 1] == a + b[..|b| - 1];
      PollAfterDeath(s, a, b[..|b| - 1]);
    }
  }

  /** Up to the first return-initiated event a dead batch stands still. */
  lemma {:induction false} DeadStandsStill(s: ShipmentState, cs: seq<Canonical>)
    requires Live(s) || s == Delivered
    requires forall i :: 0 <= i < |cs| ==> cs[i] != RTOInitiated
    ensures DeadState(s, cs) == s
    decreases |cs|
  {
    if cs != [] {
      DeadStandsStill(s, cs[..|cs| - 1]);
    }
  }

  /** Up to the first return-initiated event a live ingest moves only forward, and exactly as listed. */
  lemma {:induction false} IngestBeforeRTO(s: ShipmentState, cs: seq<Canonical>)
    requires Live(s)
    requires forall i :: 0 <= i < |cs| ==> cs[i] != RTOInitiated
    ensures IngestState(s, cs) in {Booked, InTransit, Delivered}
    ensures IngestState(s, cs) == Booked <==> s == Booked && forall i :: 0 <= i < |cs| ==> !Moving(cs[i])
    ensures IngestState(s, cs) == Delivered <==>
      if s == InTransit then exists j :: 0 <= j < |cs| && cs[j] == CDelivered
      else exists i, j :: 0 <= i < j < |cs| && Moving(cs[i]) && cs[j] == CDelivered
    decreases |cs|
  {
    if cs != [] {
      var init, last := cs[..|cs| - 1], cs[|cs| - 1];
      IngestBeforeRTO(s, init);
      if s == Booked {
        if IngestState(s, cs) == Delivered {
          if IngestState(s, init) == Delivered {
            var i, j :| 0 <= i < j < |init| && Moving(init[i]) && init[j] == CDelivered;
            assert Moving(cs[i]) && cs[j] == CDelivered;
          } else {
            assert IngestState(s, init) == InTransit;
            var i :| 0 <= i < |init| && Moving(init[i]);
            assert Moving(cs[i]) && cs[|cs| - 1] == CDelivered;
          }
        } else {
          forall i, j | 0 <= i < j < |cs| && Moving(cs[i]) ensures cs[j] != CDelivered {
            assert Moving(init[i]);
            if j < |init| {
              assert init[j] == cs[j];
            }
          }
        }
      }
    }
  }

  /** After the return-initiated event the two walks, if at the same state, stay together. */
  lemma {:induction false} SettledTogether(s: ShipmentState, cs: seq<Canonical>)
    requires !Live(s)
    ensures DeadState(s, cs) == IngestState(s, cs) && !Live(DeadState(s, cs))
    ensures s == Delivered ==> DeadState(s, cs) == Delivered
    ensures s == RTOInProgress ==> DeadState(s, cs) in {RTOInProgress, RTOCompleted}
    decreases |cs|
  {
    if cs != [] {
      SettledTogether(s, cs[..|cs| - 1]);
    }
  }

  lemma {:induction false} DeadSplits(s: ShipmentState, a: seq<Canonical>, b: seq<Canonical>)
    ensures DeadState(s, a + b) == DeadState(DeadState(s, a), b)
    decreases |b|
  {
    if b == [] {
      assert a + b == a;
    } else {
      assert (a + b)[..|a + b| - 1] == a + b[..|b| - 1];
      DeadSplits(s, a, b[..|b| - 1]);
    }
  }

  /** Where the two stand after the first return-initiated event and whatever follows it. */
  lemma AfterFirstRTO(s: ShipmentState, mid: ShipmentState, post: seq<Canonical>)
    requires Live(s) && mid in {Booked, InTransit, Delivered}
    ensures DeadState(s, [RTOInitiated] + post) == IngestState(mid, [RTOInitiated] + post) <==> mid != Delivered
  {
    DeadSplits(s, [RTOInitiated], post);
    IngestSplits(mid, [RTOInitiated], post);
    OneEvent(s, RTOInitiated);
    OneEvent(mid, RTOInitiated);
    SettledTogether(RTOInProgress, post);
    SettledTogether(Delivered, post);
  }

  /** From a live state, a dead batch over `rest` ends where ingestion ends exactly when `rest` is forgiving. */
  lemma DeadMatchesIngest(s: ShipmentState, rest: seq<Canonical>)
    requires Live(s)
    ensures DeadState(s, rest) == IngestState(s, rest) <==> Forgiven(s, rest)
  {
    var n := FirstRTO(rest);
    var pre := rest[..n];
    DeadStandsStill(s, pre);
    IngestBeforeRTO(s, pre);
    ForgivenMeans(s, rest);
    if n == |rest| {
      assert pre == rest;
    } else {
      var post := rest[n + 1..];
      assert rest == pre + ([RTOInitiated] + post);
      DeadSplits(s, pre, [RTOInitiated] + post);
      IngestSplits(s, pre, [RTOInitiated] + post);
      AfterFirstRTO(s, IngestState(s, pre), post);
    }
  }

  lemma OneEvent(s: ShipmentState, c: Canonical)
    ensures DeadState(s, [c]) == Drive(s, c, RTOCompleted) && IngestState(s, [c]) == Drive(s, c, s)
  {
    assert [c][..0] == [];
    assert DeadState(s, []) == s && IngestState(s, []) == s;
  }

  /** Forgiven, said through where ingestion stands at the first return-initiated event. */
  lemma ForgivenMeans(s: ShipmentState, rest: seq<Canonical>)
    requires Live(s)
    ensures var n := FirstRTO(rest);
      var mid := IngestState(s, rest[..n]);
      Forgiven(s, rest) <==> mid == s || (n < |rest| && mid != Delivered)
  {
    var n := FirstRTO(rest);
    var pre := rest[..n];
    IngestBeforeRTO(s, pre);
    assert forall i :: 0 <= i < n ==> pre[i] == rest[i];
  }

  /** The first early return, if there is one. */
  predicate FirstEarlyReturn(s: ShipmentState, cs: seq<Canonical>, k: nat) {
    EarlyReturnAt(s, cs, k) && forall j :: 0 <= j < k ==> !EarlyReturnAt(s, cs, j)
  }

  /**
   Main result, exact: a batch poll ends in the state per-event ingestion reaches if and only if no
   return is delivered early, or the events after the first early one are forgiving.
   */
  lemma PollEndsLikeIngestExactly(w: World, seller: SellerId, id: ShipmentId, cs: seq<Canonical>, now: Time)
    requires Owns(w.shipments, seller, id)
    ensures var s := w.shipments[id].state;
      var polled := PollWalk(w, seller, id, s, cs, now);
      var ingested := IngestWalk(w, seller, id, cs, now);
      && id in polled.shipments
      && (polled.shipments[id].state == ingested.shipments[id].state
          <==> (forall k | 0 <= k < |cs|
                  && FirstEarlyReturn(s, cs, k) :: Forgiven(IngestState(s, cs[..k]), cs[k + 1..])))
  {
    var s := w.shipments[id].state;
    PollWalkState(w, seller, id, cs, now);
    IngestWalkState(w, seller, id, cs, now);
    if NoEarlyReturn(s, cs) {
      WalksAgree(w, seller, id, cs, now);
    } else {
      var k := LeastEarlyReturn(s, cs, |cs|);
      StatesAgreeBefore(w, seller, id, cs, now, k);
      StatesAfterEarlyReturn(s, cs, k);
      forall j | 0 <= j < |cs| && FirstEarlyReturn(s, cs, j) ensures j == k {
      }
    }
  }

  lemma StatesAgreeBefore(w: World, seller: SellerId, id: ShipmentId, cs: seq<Canonical>, now: Time, k: nat)
    requires Owns(w.shipments, seller, id) && FirstEarlyReturn(w.shipments[id].state, cs, k)
    ensures PollState(w.shipments[id].state, cs[..k]) == IngestState(w.shipments[id].state, cs[..k])
  {
    NoEarlyReturnBefore(w.shipments[id].state, cs, k);
    WalksAgree(w, seller, id, cs[..k], now);
    PollWalkState(w, seller, id, cs[..k], now);
    IngestWalkState(w, seller, id, cs[..k], now);
  }

  /** From the first early return on, the poll works with a dead prediction. */
  lemma StatesAfterEarlyReturn(s: ShipmentState, cs: seq<Canonical>, k: nat)
    requires FirstEarlyReturn(s, cs, k) && PollState(s, cs[..k]) == IngestState(s, cs[..k])
    ensures PollState(s, cs) == IngestState(s, cs) <==> Forgiven(IngestState(s, cs[..k]), cs[k + 1..])
  {
    var s', rest, upTo := IngestState(s, cs[..k]), cs[k + 1..], cs[..k + 1];
    assert upTo[..k] == cs[..k] && cs == upTo + rest;
    PollAfterDeath(s, upTo, rest);
    IngestSplits(s, upTo, rest);
    assert PollState(s, upTo) == s' && IngestState(s, upTo) == s';
    DeadMatchesIngest(s', rest);
  }

  lemma NoEarlyReturnBefore(s: ShipmentState, cs: seq<Canonical>, k: nat)
    requires FirstEarlyReturn(s, cs, k)
    ensures NoEarlyReturn(s, cs[..k])
  {
    forall j | 0 <= j < k ensures !EarlyReturnAt(s, cs[..k], j) {
      assert cs[..k][..j] == cs[..j];
      assert !EarlyReturnAt(s, cs, j);
    }
  }

  lemma {:induction false} LeastEarlyReturn(s: ShipmentState, cs: seq<Canonical>, n: nat) returns (k: nat)
    requires exists j :: 0 <= j < n <= |cs| && EarlyReturnAt(s, cs, j)
    ensures k < |cs| && FirstEarlyReturn(s, cs, k)
    decreases n
  {
    if j :| 0 <= j < n - 1 && EarlyReturnAt(s, cs, j) {
      k := LeastEarlyReturn(s, cs, n - 1);
    } else {
      k := n - 1;
    }
  }

  /** The failing family is not empty: an early return followed by a pickup leaves the batch behind. */
  lemma EarlyReturnCanStrandAPoll()
    ensures PollState(Booked, [RTODelivered, PickedUp]) == Booked
    ensures IngestState(Booked, [RTODelivered, PickedUp]) == InTransit
  {
    var cs := [RTODelivered, PickedUp];
    assert cs[..1] == [RTODelivered] && cs[..1][..0] == [];
    assert Predicted(Booked, []) == Booked && PollState(Booked, []) == Booked && IngestState(Booked, []) == Booked;
    assert Predicted(Booked, cs[..1]) == RTOCompleted;
    assert PollState(Booked, cs[..1]) == Booked && IngestState(Booked, cs[..1]) == Booked;
  }

  // ---------------------------------------------------------------- convergence

  function Rank(s: ShipmentState): nat {
    match s
    case Booked => 0
    case InTransit => 1
    case Delivered => 2
    case RTOInProgress => 2
    case RTOCompleted => 3
    case _ => 4
  }

  /** A poll never moves a shipment back, and leaves every table alone unless it moves the shipment on. */
  lemma {:induction false} PollOnlyClimbs(
      w: World, seller: SellerId, id: ShipmentId, start: ShipmentState, cs: seq<Canonical>, now: Time)
    requires Owns(w.shipments, seller, id)
    ensures var w' := PollWalk(w, seller, id, start, cs, now);
      && Owns(w'.shipments, seller, id)
      && Rank(w.shipments[id].state) <= Rank(w'.shipments[id].state)
      && (w' == w || Rank(w.shipments[id].state) < Rank(w'.shipments[id].state))
    decreases |cs|
  {
    if cs != [] {
      PollOnlyClimbs(w, seller, id, start, cs[..|cs| - 1], now);
    }
  }

  // ---------------------------------------------------------------- where one poll ends

  predicate Delivery(c: Canonical) {
    c == CDelivered
  }

  predicate ReturnDelivery(c: Canonical) {
    c == RTODelivered
  }

  predicate NoReturn(cs: seq<Canonical>) {
    RTOInitiated !in cs && RTODelivered !in cs
  }

  /** An event of this kind is listed before any return event. */
  predicate Ahead(cs: seq<Canonical>, kind: Canonical -> bool) {
    exists k :: 0 <= k < |cs| && kind(cs[k]) && NoReturn(cs[..k])
  }

  /** A delivery is listed before any return event, and behind a pickup if one is needed. */
  predicate DeliversFirst(s: ShipmentState, cs: seq<Canonical>) {
    exists k :: 0 <= k < |cs| && Delivery(cs[k]) && NoReturn(cs[..k]) && (s == InTransit || Ahead(cs[..k], Moving))
  }

  predicate ReturnCompletes(cs: seq<Canonical>) {
    exists i, j :: 0 <= i < j < |cs| && cs[i] == RTOInitiated && cs[j] == RTODelivered
  }

  function LiveEnd(s: ShipmentState, delivers: bool, completes: bool, starts: bool, moves: bool): ShipmentState {
    if delivers then Delivered
    else if completes then RTOCompleted
    else if starts then RTOInProgress
    else if moves then InTransit
    else s
  }

  /** Where a poll ends, read off the state and the batch without walking it. */
  function TripEnd(s: ShipmentState, cs: seq<Canonical>): ShipmentState {
    match s
    case Booked | InTransit =>
      LiveEnd(s, DeliversFirst(s, cs), ReturnCompletes(cs), RTOInitiated in cs, Ahead(cs, Moving))
    case RTOInProgress => if RTODelivered in cs then RTOCompleted else RTOInProgress
    case _ => s
  }

  lemma AheadGrows(cs: seq<Canonical>, last: Canonical, kind: Canonical -> bool)
    ensures Ahead(cs + [last], kind) <==> Ahead(cs, kind) || (kind(last) && NoReturn(cs))
  {
    var all := cs + [last];
    if k :| 0 <= k < |all| && kind(all[k]) && NoReturn(all[..k]) {
      assert all[..k] == cs[..k];
      assert cs[..|cs|] == cs;
    }
    if k :| 0 <= k < |cs| && kind(cs[k]) && NoReturn(cs[..k]) {
      assert all[..k] == cs[..k] && all[k] == cs[k];
    }
    if kind(last) && NoReturn(cs) {
      assert all[..|cs|] == cs && all[|cs|] == last;
    }
  }

  lemma DeliversFirstGrows(s: ShipmentState, cs: seq<Canonical>, last: Canonical)
    ensures DeliversFirst(s, cs + [last])
      <==> DeliversFirst(s, cs) || (Delivery(last) && NoReturn(cs) && (s == InTransit || Ahead(cs, Moving)))
  {
    var all := cs + [last];
    if k :| 0 <= k < |all| && Delivery(all[k]) && NoReturn(all[..k]) && (s == InTransit || Ahead(all[..k], Moving)) {
      assert all[..k] == cs[..k];
      assert cs[..|cs|] == cs;
    }
    if k :| 0 <= k < |cs| && Delivery(cs[k]) && NoReturn(cs[..k]) && (s == InTransit || Ahead(cs[..k], Moving)) {
      assert all[..k] == cs[..k] && all[k] == cs[k];
    }
    if Delivery(last) && NoReturn(cs) && (s == InTransit || Ahead(cs, Moving)) {
      assert all[..|cs|] == cs && all[|cs|] == last;
    }
  }

  lemma ReturnCompletesGrows(cs: seq<Canonical>, last: Canonical)
    ensures ReturnCompletes(cs + [last]) <==> ReturnCompletes(cs) || (last == RTODelivered && RTOInitiated in cs)
  {
    var all := cs + [last];
    if ReturnCompletes(cs) {
      var i, j :| 0 <= i < j < |cs| && cs[i] == RTOInitiated && cs[j] == RTODelivered;
      assert all[i] == RTOInitiated && all[j] == RTODelivered;
    }
    if last == RTODelivered && RTOInitiated in cs {
      var i :| 0 <= i < |cs| && cs[i] == RTOInitiated;
      assert all[i] == RTOInitiated && all[|cs|] == RTODelivered;
    }
  }

  /**
   Main result: a poll, which walks the batch with a prediction, ends exactly where the state read and
   the batch alone say.
   */
  lemma {:induction false} PollEndsAtTripEnd(s: ShipmentState, cs: seq<Canonical>)
    ensures PollState(s, cs) == TripEnd(s, cs)
    ensures Live(s) ==> if NoReturn(cs) then Predicted(s, cs) == TripEnd(s, cs) else !Live(Predicted(s, cs))
    decreases |cs|
  {
    if cs != [] {
      var init, last := cs[..|cs| - 1], cs[|cs| - 1];
      assert cs == init + [last];
      PollEndsAtTripEnd(s, init);
      if Live(s) {
        LiveStep(s, init, last, Predicted(s, init));
      }
    }
  }

  lemma LiveStep(s: ShipmentState, cs: seq<Canonical>, last: Canonical, predicted: ShipmentState)
    requires Live(s) && if NoReturn(cs) then predicted == TripEnd(s, cs) else !Live(predicted)
    ensures Drive(TripEnd(s, cs), last, predicted) == TripEnd(s, cs + [last])
    ensures var next := NextProbableState(predicted, last);
      if NoReturn(cs + [last]) then next == TripEnd(s, cs + [last]) else !Live(next)
  {
    AheadGrows(cs, last, Moving);
    DeliversFirstGrows(s, cs, last);
    ReturnCompletesGrows(cs, last);
    ReturnsInOrder(cs);
    EventGrows(s, DeliversFirst(s, cs), ReturnCompletes(cs), RTOInitiated in cs, RTODelivered in cs, Ahead(cs, Moving),
               last, predicted);
  }

  /** One more event, by what is known of the events before it. */
  lemma EventGrows(s: ShipmentState, delivers: bool, completes: bool, starts: bool, arrives: bool, moves: bool,
                   last: Canonical, predicted: ShipmentState)
    requires Live(s) && (completes ==> starts && arrives)
    requires if starts || arrives then !Live(predicted) else predicted == LiveEnd(s, delivers, completes, starts, moves)
    ensures var out := !starts && !arrives;
      var delivers' := delivers || (Delivery(last) && out && (s == InTransit || moves));
      var completes' := completes || (last == RTODelivered && starts);
      var end := LiveEnd(s, delivers', completes', starts || last == RTOInitiated, moves || (Moving(last) && out));
      var next := NextProbableState(predicted, last);
      && Drive(LiveEnd(s, delivers, completes, starts, moves), last, predicted) == end
      && if out && last != RTOInitiated && last != RTODelivered then next == end else !Live(next)
  {
  }

  lemma ReturnsInOrder(cs: seq<Canonical>)
    ensures ReturnCompletes(cs) ==> RTOInitiated in cs && RTODelivered in cs
  {
  }

  // ---------------------------------------------------------------- how far the order follows

  /** How far on its way out the batch takes a shipment from this state, returns aside. */
  function WayOut(s: ShipmentState, cs: seq<Canonical>): Orders.OrderState {
    if DeliversFirst(s, cs) then Orders.OrderState.Delivered
    else if s == InTransit || Ahead(cs, Moving) then Orders.OrderState.InTransit
    else Orders.OrderState.Booked
  }

  /** The shipment and its order, of one seller, are both booked or both in transit. */
  predicate Paired(w: World, seller: SellerId, id: ShipmentId) {
    && Owns(w.shipments, seller, id) && Orders.Owns(w.orders, seller, w.shipments[id].order)
    && var s, o := w.shipments[id].state, w.orders[w.shipments[id].order].state;
    (s == Booked && o == Orders.OrderState.Booked) || (s == InTransit && o == Orders.OrderState.InTransit)
  }

  /**
   Main result: a poll of a booked or in-transit pair leaves the order exactly as far as the shipment
   climbed on its way out: booked, in transit or delivered, whatever return the batch holds. No other
   order and no other shipment changes.
   */
  lemma {:induction false} PollCarriesTheOrder(
      w: World, seller: SellerId, id: ShipmentId, cs: seq<Canonical>, now: Time)
    requires Paired(w, seller, id)
    ensures var s := w.shipments[id].state;
      Followed(w, PollWalk(w, seller, id, s, cs, now), seller, id, WayOut(s, cs))
    decreases |cs|
  {
    if cs != [] {
      var init, last := cs[..|cs| - 1], cs[|cs| - 1];
      assert cs == init + [last];
      var s := w.shipments[id].state;
      PollCarriesTheOrder(w, seller, id, init, now);
      PollWalkState(w, seller, id, init, now);
      PollEndsAtTripEnd(s, init);
      WayOutGrows(s, init, last, Predicted(s, init));
      EventMovesThePair(PollWalk(w, seller, id, s, init, now), seller, id, last, Predicted(s, init), now);
    }
  }

  /** The way out goes one step on exactly when the prediction lets a mark go out. */
  lemma WayOutGrows(s: ShipmentState, cs: seq<Canonical>, last: Canonical, predicted: ShipmentState)
    requires Live(s) && if NoReturn(cs) then predicted == TripEnd(s, cs) else !Live(predicted)
    ensures predicted == Booked ==> WayOut(s, cs) == Orders.OrderState.Booked
    ensures predicted == InTransit ==> WayOut(s, cs) == Orders.OrderState.InTransit
    ensures WayOut(s, cs + [last]) == NextOrder(WayOut(s, cs), last, predicted)
  {
    AheadGrows(cs, last, Moving);
    DeliversFirstGrows(s, cs, last);
    ReturnsInOrder(cs);
  }

  /** The order after an event that a shipment, believed to be in `predicted`, met. */
  function NextOrder(o: Orders.OrderState, last: Canonical, predicted: ShipmentState): Orders.OrderState {
    if predicted == Booked && Moving(last) then Orders.OrderState.InTransit
    else if predicted == InTransit && Delivery(last) then Orders.OrderState.Delivered
    else o
  }

  /** Only this shipment and its order may differ; the order is now in state `to`. */
  predicate Followed(w: World, w': World, seller: SellerId, id: ShipmentId, to: Orders.OrderState)
    requires id in w.shipments
  {
    var o := w.shipments[id].order;
    && Owns(w'.shipments, seller, id) && w'.shipments[id].order == o
    && OnlyShipment(w.shipments, w'.shipments, id) && OnlyOrder(w.orders, w'.orders, o)
    && o in w'.orders && w'.orders[o].seller == seller && w'.orders[o].state == to
  }

  lemma EventMovesThePair(
      w: World, seller: SellerId, id: ShipmentId, last: Canonical, predicted: ShipmentState, now: Time)
    requires Owns(w.shipments, seller, id) && Orders.Owns(w.orders, seller, w.shipments[id].order)
    requires Live(predicted) ==> w.shipments[id].state == predicted && Paired(w, seller, id)
    ensures Followed(w, ApplyEvent(w, seller, id, last, predicted, now), seller, id,
                     NextOrder(w.orders[w.shipments[id].order].state, last, predicted))
  {
    var m := MarkFor(last, predicted);
    if m == Some(ToInTransit) {
      InTransitFollowed(w, seller, id, now);
    } else if m == Some(ToDelivered) {
      DeliveryFollowed(w, seller, id, now);
    } else if m.Some? {
      ReturnFollowed(w, seller, id, m.value, now);
    }
  }

  lemma InTransitFollowed(w: World, seller: SellerId, id: ShipmentId, now: Time)
    requires Paired(w, seller, id) && w.shipments[id].state == Booked
    ensures Followed(w, ApplyMark(w, seller, id, ToInTransit, now), seller, id, Orders.OrderState.InTransit)
  {
    InTransitReachesTheOrder(w, seller, id, now);
  }

  lemma DeliveryFollowed(w: World, seller: SellerId, id: ShipmentId, now: Time)
    requires Paired(w, seller, id) && w.shipments[id].state == InTransit
    ensures Followed(w, ApplyMark(w, seller, id, ToDelivered, now), seller, id, Orders.OrderState.Delivered)
  {
    DeliveryReachesTheOrder(w, seller, id, now);
  }

  lemma ReturnFollowed(w: World, seller: SellerId, id: ShipmentId, m: Mark, now: Time)
    requires Owns(w.shipments, seller, id) && Orders.Owns(w.orders, seller, w.shipments[id].order)
    requires m == ToRTO || m == ToRTOCompleted
    ensures Followed(w, ApplyMark(w, seller, id, m, now), seller, id, w.orders[w.shipments[id].order].state)
  {
    ReturnMarksMove(w, seller, id, now);
  }

  /** From this state this batch asks for nothing the row accepts. */
  predicate NothingToDo(s: ShipmentState, cs: seq<Canonical>) {
    match s
    case Booked => RTOInitiated !in cs && !Ahead(cs, Moving)
    case InTransit => RTOInitiated !in cs && !Ahead(cs, Delivery)
    case RTOInProgress => RTODelivered !in cs
    case _ => true
  }

  lemma AheadOfDelivery(s: ShipmentState, cs: seq<Canonical>)
    ensures DeliversFirst(InTransit, cs) <==> Ahead(cs, Delivery)
    ensures DeliversFirst(s, cs) ==> Ahead(cs, Delivery) && (s == InTransit || Ahead(cs, Moving))
  {
    if k :| 0 <= k < |cs| && Delivery(cs[k]) && NoReturn(cs[..k]) && (s == InTransit || Ahead(cs[..k], Moving)) {
      if s != InTransit {
        var j :| 0 <= j < k && Moving(cs[..k][j]) && NoReturn(cs[..k][..j]);
        assert cs[..k][..j] == cs[..j];
      }
    }
  }

  /** Main result, exact: a poll leaves the row alone if and only if the state read and the batch say so. */
  lemma PollIsIdleExactly(s: ShipmentState, cs: seq<Canonical>)
    ensures PollState(s, cs) == s <==> NothingToDo(s, cs)
  {
    PollEndsAtTripEnd(s, cs);
    AheadOfDelivery(s, cs);
  }

  /**
   Main result, exact: a second poll of the same listing moves the row if and only if the first poll
   read a live state, no delivery came first, and either the batch lists the return's delivery only
   before its start, or no return starts and pickup and delivery stand in the wrong order.
   */
  lemma SecondPollIsIdleExactly(s: ShipmentState, cs: seq<Canonical>)
    ensures PollState(PollState(s, cs), cs) != PollState(s, cs) <==>
      && Live(s) && !DeliversFirst(s, cs)
      && (if RTOInitiated in cs then RTODelivered in cs && !ReturnCompletes(cs)
          else s == Booked && Ahead(cs, Moving) && Ahead(cs, Delivery))
  {
    PollEndsAtTripEnd(s, cs);
    PollIsIdleExactly(PollState(s, cs), cs);
    AheadOfDelivery(s, cs);
  }

  /** If the batch holds a return-initiated event, the shipment is no longer going out afterwards. */
  lemma ReturnEndsTheTrip(s: ShipmentState, cs: seq<Canonical>)
    ensures RTOInitiated in cs ==> !Live(PollState(s, cs))
  {
    PollEndsAtTripEnd(s, cs);
  }

  lemma ThirdStateIsSecond(s: ShipmentState, cs: seq<Canonical>)
    ensures var s2 := PollState(PollState(s, cs), cs); PollState(s2, cs) == s2
  {
    PollEndsAtTripEnd(s, cs);
    PollEndsAtTripEnd(PollState(s, cs), cs);
    SecondPollIsIdleExactly(PollState(s, cs), cs);
    AheadOfDelivery(s, cs);
  }

  function Poll(w: World, seller: SellerId, id: ShipmentId, cs: seq<Canonical>, now: Time): World
    requires id in w.shipments
  {
    PollWalk(w, seller, id, w.shipments[id].state, cs, now)
  }

  /** Main result: from any state and for any batch, a third identical poll changes no table at all. */
  lemma ThirdPollIsIdle(w: World, seller: SellerId, id: ShipmentId, cs: seq<Canonical>, t1: Time, t2: Time, t3: Time)
    requires Owns(w.shipments, seller, id)
    ensures id in Poll(w, seller, id, cs, t1).shipments
    ensures var w1 := Poll(w, seller, id, cs, t1);
      id in Poll(w1, seller, id, cs, t2).shipments &&
      var w2 := Poll(w1, seller, id, cs, t2);
      Poll(w2, seller, id, cs, t3) == w2
  {
    PollWalkState(w, seller, id, cs, t1);
    var w1 := Poll(w, seller, id, cs, t1);
    PollWalkState(w1, seller, id, cs, t2);
    var w2 := Poll(w1, seller, id, cs, t2);
    PollWalkState(w2, seller, id, cs, t3);
    ThirdStateIsSecond(w.shipments[id].state, cs);
    PollOnlyClimbs(w2, seller, id, w2.shipments[id].state, cs, t3);
  }

  /** Two polls can be needed: a delivery listed before the pickup lands only on the second. */
  lemma SecondPollCanMatter()
    ensures PollState(Booked, [CDelivered, PickedUp]) == InTransit
    ensures PollState(InTransit, [CDelivered, PickedUp]) == Delivered
  {
    var cs := [CDelivered, PickedUp];
    assert cs[..1] == [CDelivered] && cs[..1][..0] == [];
    assert Predicted(Booked, []) == Booked && PollState(Booked, []) == Booked;
    assert Predicted(InTransit, []) == InTransit && PollState(InTransit, []) == InTransit;
    assert Predicted(Booked, cs[..1]) == Booked && PollState(Booked, cs[..1]) == Booked;
    assert Predicted(InTransit, cs[..1]) == Delivered && PollState(InTransit, cs[..1]) == Delivered;
  }

  // ---------------------------------------------------------------- events at one time

  /** An order the sort may leave the fetched events in. */
  ghost predicate Lists(order: seq<CarrierEvent>, fetched: seq<CarrierEvent>) {
    OldestFirst(order) && multiset(order) == multiset(fetched)
  }

  predicate Earliest(svc: TrackingService, es: seq<CarrierEvent>, e: CarrierEvent, kind: Canonical -> bool) {
    && e in es && kind(svc.Classify(e))
    && forall x :: x in es && kind(svc.Classify(x)) ==> e.at <= x.at
  }

  /** The earliest return delivery and the earliest event of this kind have one time. */
  predicate TiedWithReturn(svc: TrackingService, es: seq<CarrierEvent>, kind: Canonical -> bool) {
    exists r, e :: r in es && e in es
      && Earliest(svc, es, r, ReturnDelivery) && Earliest(svc, es, e, kind) && r.at == e.at
  }

  predicate NoReturnStarts(svc: TrackingService, es: seq<CarrierEvent>) {
    forall x :: x in es ==> svc.Classify(x) != RTOInitiated
  }

  /** What can be read off a fetch before any poll. */
  predicate TiesMatter(svc: TrackingService, fetched: seq<CarrierEvent>) {
    NoReturnStarts(svc, fetched) && (TiedWithReturn(svc, fetched, Moving) || TiedWithReturn(svc, fetched, Delivery))
  }

  lemma SameEvents(a: seq<CarrierEvent>, b: seq<CarrierEvent>)
    requires multiset(a) == multiset(b)
    ensures |a| == |b| && forall e :: e in a <==> e in b
  {
    assert |a| == |multiset(a)| && |b| == |multiset(b)|;
    forall e ensures e in a <==> e in b {
      assert e in a <==> e in multiset(a);
      assert e in b <==> e in multiset(b);
    }
  }

  /** The listing has the event ahead of its returns, in terms of the events. */
  predicate AheadAt(svc: TrackingService, order: seq<CarrierEvent>, kind: Canonical -> bool, k: int) {
    && 0 <= k < |order| && kind(svc.Classify(order[k]))
    && forall i :: 0 <= i < k ==> !ReturnDelivery(svc.Classify(order[i]))
  }

  lemma AheadInEvents(svc: TrackingService, order: seq<CarrierEvent>, kind: Canonical -> bool)
    requires NoReturnStarts(svc, order)
    ensures Ahead(svc.Statuses(order), kind) <==> exists k :: AheadAt(svc, order, kind, k)
  {
    var cs := svc.Statuses(order);
    if k :| 0 <= k < |cs| && kind(cs[k]) && NoReturn(cs[..k]) {
      assert forall i :: 0 <= i < k ==> cs[..k][i] == svc.Classify(order[i]) && cs[..k][i] in cs[..k];
      assert AheadAt(svc, order, kind, k);
    }
    if k :| AheadAt(svc, order, kind, k) {
      assert order[k] in order && cs[k] == svc.Classify(order[k]);
      forall c | c in cs[..k] ensures c != RTOInitiated && c != RTODelivered {
        var i :| 0 <= i < k && cs[..k][i] == c;
        assert order[i] in order && c == svc.Classify(order[i]);
      }
      assert NoReturn(cs[..k]);
    }
  }

  /** One listing has the event ahead of the returns and another has not: then it shares its time with one. */
  lemma AheadInOneOnly(
      svc: TrackingService, fetched: seq<CarrierEvent>, kind: Canonical -> bool, with: seq<CarrierEvent>,
      without: seq<CarrierEvent>)
    requires NoReturnStarts(svc, fetched) && Lists(with, fetched) && Lists(without, fetched)
    requires Ahead(svc.Statuses(with), kind) && !Ahead(svc.Statuses(without), kind)
    ensures TiedWithReturn(svc, fetched, kind)
  {
    SameEvents(with, fetched);
    SameEvents(without, fetched);
    AheadInEvents(svc, with, kind);
    AheadInEvents(svc, without, kind);
    var k :| AheadAt(svc, with, kind, k);
    var e := with[k];
    assert e in with;
    var r := ReturnBefore(svc, without, kind, e);
    assert r in without;
    ReturnsAreLater(svc, with, kind, k);
    forall x | x in fetched && kind(svc.Classify(x)) ensures e.at <= x.at {
      assert x in without;
      var r' := ReturnBefore(svc, without, kind, x);
      assert r' in without;
    }
    assert Earliest(svc, fetched, r, ReturnDelivery) && Earliest(svc, fetched, e, kind);
  }

  lemma ReturnsAreLater(svc: TrackingService, order: seq<CarrierEvent>, kind: Canonical -> bool, k: nat)
    requires OldestFirst(order) && AheadAt(svc, order, kind, k)
    ensures forall x :: x in order && ReturnDelivery(svc.Classify(x)) ==> order[k].at <= x.at
  {
    forall x | x in order && ReturnDelivery(svc.Classify(x)) ensures order[k].at <= x.at {
      var i :| 0 <= i < |order| && order[i] == x;
      assert i >= k;
    }
  }

  lemma ReturnBefore(svc: TrackingService, order: seq<CarrierEvent>, kind: Canonical -> bool, e: CarrierEvent)
    returns (r: CarrierEvent)
    requires OldestFirst(order) && e in order && kind(svc.Classify(e)) && !exists k :: AheadAt(svc, order, kind, k)
    ensures r in order && ReturnDelivery(svc.Classify(r)) && r.at <= e.at
  {
    var k :| 0 <= k < |order| && order[k] == e;
    assert !AheadAt(svc, order, kind, k);
    var i :| 0 <= i < k && ReturnDelivery(svc.Classify(order[i]));
    r := order[i];
  }

  /** Main result, one half: a third poll that moves the row, from any state and in any listings, met such a tie. */
  lemma ThirdPollNeedsATie(
      svc: TrackingService, fetched: seq<CarrierEvent>, s: ShipmentState, one: seq<CarrierEvent>,
      two: seq<CarrierEvent>, three: seq<CarrierEvent>)
    requires Lists(one, fetched) && Lists(two, fetched) && Lists(three, fetched)
    requires ThirdMoves(s, svc.Statuses(one), svc.Statuses(two), svc.Statuses(three))
    ensures TiesMatter(svc, fetched)
  {
    var a, b, c := svc.Statuses(one), svc.Statuses(two), svc.Statuses(three);
    SameStatuses(svc, one, two);
    SameStatuses(svc, one, three);
    ThirdMoveShape(s, a, b, c);
    SameEvents(one, fetched);
    forall x | x in fetched ensures svc.Classify(x) != RTOInitiated {
      assert x in one;
      var i :| 0 <= i < |one| && one[i] == x;
      assert a[i] == svc.Classify(x) && a[i] in a;
    }
    if !Ahead(a, Moving) && Ahead(b, Moving) {
      AheadInOneOnly(svc, fetched, Moving, two, one);
    } else if !Ahead(a, Moving) && Ahead(c, Moving) {
      AheadInOneOnly(svc, fetched, Moving, three, one);
    } else {
      AheadInOneOnly(svc, fetched, Delivery, three, two);
    }
  }

  predicate ThirdMoves(s: ShipmentState, a: seq<Canonical>, b: seq<Canonical>, c: seq<Canonical>) {
    var s2 := PollState(PollState(s, a), b);
    PollState(s2, c) != s2
  }

  lemma SameStatuses(svc: TrackingService, a: seq<CarrierEvent>, b: seq<CarrierEvent>)
    requires multiset(a) == multiset(b)
    ensures forall c :: c in svc.Statuses(a) <==> c in svc.Statuses(b)
  {
    SameEvents(a, b);
    StatusesOf(svc, a);
    StatusesOf(svc, b);
  }

  lemma StatusesOf(svc: TrackingService, es: seq<CarrierEvent>)
    ensures forall c :: c in svc.Statuses(es) <==> exists e :: e in es && svc.Classify(e) == c
  {
    var cs := svc.Statuses(es);
    forall c ensures c in cs <==> exists e :: e in es && svc.Classify(e) == c {
      if c in cs {
        var i :| 0 <= i < |cs| && cs[i] == c;
        assert es[i] in es;
      }
      if e :| e in es && svc.Classify(e) == c {
        var i :| 0 <= i < |es| && es[i] == e;
        assert cs[i] == c;
      }
    }
  }

  /** Three batches of the same statuses: what the third poll needs to move the row. */
  lemma ThirdMoveShape(s: ShipmentState, a: seq<Canonical>, b: seq<Canonical>, c: seq<Canonical>)
    requires forall x :: (x in a <==> x in b) && (x in a <==> x in c)
    requires ThirdMoves(s, a, b, c)
    ensures RTOInitiated !in a
    ensures (!Ahead(a, Moving) && (Ahead(b, Moving) || Ahead(c, Moving)))
      || (Ahead(c, Delivery) && !Ahead(b, Delivery))
  {
    var s1 := PollState(s, a);
    PollEndsAtTripEnd(s, a);
    PollEndsAtTripEnd(s1, b);
    PollIsIdleExactly(PollState(s1, b), c);
    AheadOfDelivery(s, a);
    AheadOfDelivery(s1, b);
  }

  /** Some state and some listings of this fetch let a third poll move the row. */
  ghost predicate ThirdPollCanMove(svc: TrackingService, fetched: seq<CarrierEvent>) {
    exists s, one, two, three :: Lists(one, fetched) && Lists(two, fetched) && Lists(three, fetched)
      && ThirdMoves(s, svc.Statuses(one), svc.Statuses(two), svc.Statuses(three))
  }

  /**
   Main result, exact: a third poll of one fetch can still move a shipment if and only if no return is
   initiated and the earliest return delivery has the time of the earliest delivery or of the earliest
   pickup or movement.
   */
  lemma ThirdPollMovesExactly(svc: TrackingService, fetched: seq<CarrierEvent>)
    ensures ThirdPollCanMove(svc, fetched) <==> TiesMatter(svc, fetched)
  {
    if s, one, two, three :|
      Lists(one, fetched) && Lists(two, fetched) && Lists(three, fetched)
      && ThirdMoves(s, svc.Statuses(one), svc.Statuses(two), svc.Statuses(three)) {
      ThirdPollNeedsATie(svc, fetched, s, one, two, three);
    }
    if NoReturnStarts(svc, fetched) && TiedWithReturn(svc, fetched, Moving) {
      TieMovesTheThird(svc, fetched, Booked, Moving);
    } else if TiesMatter(svc, fetched) {
      TieMovesTheThird(svc, fetched, InTransit, Delivery);
    }
  }

  /** Two polls of a listing with the return delivery first are idle, a third of the other listing is not. */
  lemma TieMovesTheThird(svc: TrackingService, fetched: seq<CarrierEvent>, s: ShipmentState, kind: Canonical -> bool)
    requires NoReturnStarts(svc, fetched) && TiedWithReturn(svc, fetched, kind)
    requires (s == Booked && kind == Moving) || (s == InTransit && kind == Delivery)
    ensures ThirdPollCanMove(svc, fetched)
  {
    var with, without := TieListsBothWays(svc, fetched, kind);
    SameStatuses(svc, without, fetched);
    StatusesOf(svc, fetched);
    PollIsIdleExactly(s, svc.Statuses(without));
    PollIsIdleExactly(s, svc.Statuses(with));
    assert ThirdMoves(s, svc.Statuses(without), svc.Statuses(without), svc.Statuses(with));
  }

  lemma ThirdStaysPut(
      svc: TrackingService, fetched: seq<CarrierEvent>, s: ShipmentState, one: seq<CarrierEvent>,
      two: seq<CarrierEvent>, three: seq<CarrierEvent>)
    requires Lists(one, fetched) && Lists(two, fetched) && Lists(three, fetched) && !TiesMatter(svc, fetched)
    ensures !ThirdMoves(s, svc.Statuses(one), svc.Statuses(two), svc.Statuses(three))
  {
    ThirdPollMovesExactly(svc, fetched);
  }

  lemma TieListsBothWays(svc: TrackingService, fetched: seq<CarrierEvent>, kind: Canonical -> bool)
    returns (with: seq<CarrierEvent>, without: seq<CarrierEvent>)
    requires NoReturnStarts(svc, fetched) && TiedWithReturn(svc, fetched, kind) && !kind(RTODelivered)
    ensures Lists(with, fetched) && Lists(without, fetched)
    ensures Ahead(svc.Statuses(with), kind) && !Ahead(svc.Statuses(without), kind)
  {
    var r, e :| r in fetched && e in fetched
      && Earliest(svc, fetched, r, ReturnDelivery) && Earliest(svc, fetched, e, kind) && r.at == e.at;
    var i, j;
    with, i := FirstOfItsTime(fetched, e);
    without, j := FirstOfItsTime(fetched, r);
    SameEvents(with, fetched);
    SameEvents(without, fetched);
    AheadInEvents(svc, with, kind);
    AheadInEvents(svc, without, kind);
    EarliestIsAhead(svc, fetched, with, e, i, r, kind);
    EarliestReturnIsAhead(svc, fetched, without, r, j, e, kind);
  }

  lemma EarliestIsAhead(svc: TrackingService, fetched: seq<CarrierEvent>, order: seq<CarrierEvent>, e: CarrierEvent,
                        k: nat, r: CarrierEvent, kind: Canonical -> bool)
    requires forall x :: x in order ==> x in fetched
    requires Earliest(svc, fetched, r, ReturnDelivery) && kind(svc.Classify(e)) && r.at == e.at
    requires k < |order| && order[k] == e && forall i :: 0 <= i < k ==> order[i].at < e.at
    ensures AheadAt(svc, order, kind, k)
  {
    forall i | 0 <= i < k ensures !ReturnDelivery(svc.Classify(order[i])) {
      assert order[i] in order;
    }
  }

  lemma EarliestReturnIsAhead(svc: TrackingService, fetched: seq<CarrierEvent>, order: seq<CarrierEvent>,
                              r: CarrierEvent, j: nat, e: CarrierEvent, kind: Canonical -> bool)
    requires forall x :: x in order ==> x in fetched
    requires ReturnDelivery(svc.Classify(r)) && Earliest(svc, fetched, e, kind) && r.at == e.at && !kind(RTODelivered)
    requires j < |order| && order[j] == r && forall i :: 0 <= i < j ==> order[i].at < r.at
    ensures !exists k :: AheadAt(svc, order, kind, k)
  {
    forall k ensures !AheadAt(svc, order, kind, k) {
      if 0 <= k < |order| && kind(svc.Classify(order[k])) {
        assert order[k] in order;
        assert j < k;
      }
    }
  }

  /** An oldest-first listing in which only earlier events stand before e. */
  lemma FirstOfItsTime(es: seq<CarrierEvent>, e: CarrierEvent) returns (order: seq<CarrierEvent>, k: nat)
    requires e in es
    ensures Lists(order, es) && k < |order| && order[k] == e && forall i :: 0 <= i < k ==> order[i].at < e.at
  {
    var i :| 0 <= i < |es| && es[i] == e;
    var rest := es[..i] + es[i + 1..];
    assert es == es[..i] + [e] + es[i + 1..];
    assert multiset(es) == multiset(rest) + multiset{e};
    var sorted := SomeListing(rest);
    order, k := PutIn(sorted, e);
  }

  lemma {:induction false} SomeListing(es: seq<CarrierEvent>) returns (order: seq<CarrierEvent>)
    ensures Lists(order, es)
    decreases |es|
  {
    if es == [] {
      order := [];
    } else {
      var rest := SomeListing(es[1..]);
      var k;
      order, k := PutIn(rest, es[0]);
      assert es == [es[0]] + es[1..];
    }
  }

  lemma PutIn(sorted: seq<CarrierEvent>, e: CarrierEvent) returns (order: seq<CarrierEvent>, k: nat)
    requires OldestFirst(sorted)
    ensures OldestFirst(order) && multiset(order) == multiset(sorted) + multiset{e}
    ensures k < |order| && order[k] == e && forall i :: 0 <= i < k ==> order[i].at < e.at
  {
    k := Place(sorted, e, 0);
    order := sorted[..k] + [e] + sorted[k..];
    assert sorted == sorted[..k] + sorted[k..];
    PutInSorts(sorted, e, k);
  }

  lemma PutInSorts(sorted: seq<CarrierEvent>, e: CarrierEvent, k: nat)
    requires OldestFirst(sorted) && k <= |sorted|
    requires forall i :: 0 <= i < k ==> sorted[i].at < e.at
    requires forall i :: k <= i < |sorted| ==> e.at <= sorted[i].at
    ensures OldestFirst(sorted[..k] + [e] + sorted[k..])
  {
  }

  lemma {:induction false} Place(sorted: seq<CarrierEvent>, e: CarrierEvent, n: nat) returns (k: nat)
    requires OldestFirst(sorted) && n <= |sorted| && forall i :: 0 <= i < n ==> sorted[i].at < e.at
    ensures k <= |sorted| && forall i :: 0 <= i < k ==> sorted[i].at < e.at
    ensures forall i :: k <= i < |sorted| ==> e.at <= sorted[i].at
    decreases |sorted| - n
  {
    k := n;
    if n < |sorted| && sorted[n].at < e.at {
      k := Place(sorted, e, n + 1);
    }
  }

  /** Distinct times never matter, so that then three polls are always enough. */
  lemma DistinctTimesDoNotMatter(svc: TrackingService, fetched: seq<CarrierEvent>)
    requires forall i, j :: 0 <= i < j < |fetched| ==> fetched[i].at != fetched[j].at
    ensures !TiesMatter(svc, fetched) && !ThirdPollCanMove(svc, fetched)
  {
    ThirdPollMovesExactly(svc, fetched);
  }

  lemma {:induction false} InsertAllKeys(t: EventTable, rows: seq<(string, EventRow)>)
    ensures forall k :: k in t ==> k in InsertAll(t, rows) && InsertAll(t, rows)[k] == t[k]
    ensures forall k :: k in InsertAll(t, rows) <==> k in t || exists i :: 0 <= i < |rows| && rows[i].0 == k
    decreases |rows|
  {
    if rows != [] {
      var init := rows[..|rows| - 1];
      InsertAllKeys(t, init);
      forall k ensures k in InsertAll(t, rows) <==> k in t || exists i :: 0 <= i < |rows| && rows[i].0 == k {
        if k in InsertAll(t, init) && k !in t {
          var i :| 0 <= i < |init| && init[i].0 == k;
          assert rows[i].0 == k;
        }
        if k == rows[|rows| - 1].0 {
          assert rows[|rows| - 1].0 == k;
        }
        if i :| 0 <= i < |rows| && rows[i].0 == k && k !in t {
          if i < |init| {
            assert init[i].0 == k;
          }
        }
      }
    }
  }

  /** Of several events with one dedupe key that is new, the first listed is the one recorded. */
  lemma {:induction false} FirstEventIsRecorded(t: EventTable, rows: seq<(string, EventRow)>, i: nat)
    requires i < |rows| && rows[i].0 !in t && forall j :: 0 <= j < i ==> rows[j].0 != rows[i].0
    ensures rows[i].0 in InsertAll(t, rows) && InsertAll(t, rows)[rows[i].0] == rows[i].1
    decreases |rows|
  {
    var init := rows[..|rows| - 1];
    if i < |init| {
      FirstEventIsRecorded(t, init, i);
    } else {
      InsertAllKeys(t, init);
    }
  }

  lemma {:induction false} NothingNewToInsert(t: EventTable, rows: seq<(string, EventRow)>)
    requires forall i :: 0 <= i < |rows| ==> rows[i].0 in t
    ensures InsertAll(t, rows) == t
    decreases |rows|
  {
    if rows != [] {
      NothingNewToInsert(t, rows[..|rows| - 1]);
    }
  }

  predicate KeysAmong(again: seq<(string, EventRow)>, first: seq<(string, EventRow)>) {
    forall i :: 0 <= i < |again| ==> HasKey(first, again[i].0)
  }

  predicate HasKey(rows: seq<(string, EventRow)>, key: string) {
    exists j :: 0 <= j < |rows| && rows[j].0 == key
  }

  /** Main result: polling the same events again adds no tracking_event row and rewrites none, in any order. */
  lemma EventTableConverges(t: EventTable, first: seq<(string, EventRow)>, again: seq<(string, EventRow)>)
    requires KeysAmong(again, first)
    ensures InsertAll(InsertAll(t, first), again) == InsertAll(t, first)
  {
    InsertAllKeys(t, first);
    NothingNewToInsert(InsertAll(t, first), again);
  }
}
