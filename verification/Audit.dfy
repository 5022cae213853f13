/**
 The hash-chained audit log (backend/internal/audit): one chain per seller and one for the platform.

 Emit reads the last hash of the chain, hashes the event behind it, and inserts a row whose seq the
 INSERT computes itself. VerifyChain later recomputes the hashes from what the table gives back,
 which is not always what was hashed: a nil payload comes back as an empty object, and a timestamp
 comes back in whole microseconds.

 SHA-256, base64url, RFC 3339 formatting, json.Marshal and the JSONB column are functions handed
 in. No injectivity is assumed of the hash: results say "unless these two inputs collide".
 */
module Audit {
  import opened Core
  import opened CanonicalJson

  datatype Actor = Actor(kind: string, name: string, impersonatedBy: Option<string>, ip: string, agent: string)

  /** What a caller hands to Emit; the zero values of Go are None here. */
  datatype Draft = Draft(id: Option<string>, seller: Option<SellerId>, actor: Actor, action: string,
                         targetKind: string, targetRef: string, payload: Option<Json>, occurredAt: Option<Time>)

  /** An event ready for hashing. Times are nanoseconds. */
  datatype Event = Event(id: string, seller: Option<SellerId>, actor: Actor, action: string,
                         targetKind: string, targetRef: string, payload: Option<Json>, occurredAt: Time)

  /** An audit_event row. */
  datatype Row = Row(id: string, seller: Option<SellerId>, actor: Actor, action: string, targetKind: string,
                     targetRef: string, payload: Json, occurredAt: Time, prevHash: string, eventHash: string,
                     seqNo: nat)

  /** The libraries: hash, seller id text, time text, json.Marshal, and the JSONB column, which may reorder keys. */
  datatype Library = Library(hash: string -> string, sellerText: SellerId -> string, timeText: Time -> string,
                             jsonText: Json -> string, jsonb: Json -> Json)

  const HASH_LENGTH: nat := 43
  const TIME_LENGTH: nat := 30

  /** Nanoseconds of the years 1 to 9999, the ones the time layout writes with four digits. */
  const MIN_TIME: Time := -62_135_596_800_000_000_000
  const MAX_TIME: Time := 253_402_300_800_000_000_000

  predicate InRange(t: Time) {
    MIN_TIME <= t < MAX_TIME
  }

  /** What the libraries promise. */
  ghost predicate Sound(lib: Library) {
    && (forall x :: |lib.hash(x)| == HASH_LENGTH)
    && (forall t :: InRange(t) ==> |lib.timeText(t)| == TIME_LENGTH)
    && (forall t, u :: InRange(t) && InRange(u) && lib.timeText(t) == lib.timeText(u) ==> t == u)
    && lib.jsonText(Null) == "null" && lib.jsonText(Obj([])) == "{}"
    && (forall v :: WellFormed(v) ==> WellFormed(lib.jsonb(v)) && Same(v, lib.jsonb(v)))
  }

  // ---------------------------------------------------------------- hashing

  function PayloadJson(payload: Option<Json>): Json {
    match payload
    case None => Null
    case Some(v) => v
  }

  function ActorJson(a: Actor): Json {
    Obj([("kind", Str(a.kind)), ("ref", Str(a.name))])
  }

  function CanonicalText(lib: Library, v: Json): string {
    lib.jsonText(SortDeep(v))
  }

  /** Everything written before the timestamp, prevHash aside. */
  function Head(lib: Library, e: Event): string {
    e.id + (if e.seller.Some? then lib.sellerText(e.seller.value) else "") + e.action + e.targetKind + e.targetRef
  }

  function Tail(lib: Library, e: Event): string {
    CanonicalText(lib, PayloadJson(e.payload)) + CanonicalText(lib, ActorJson(e.actor))
  }

  /** The bytes computeEventHash writes, in order and without separators. */
  function HashedBytes(lib: Library, e: Event, prev: string): string {
    prev + (Head(lib, e) + (lib.timeText(e.occurredAt) + Tail(lib, e)))
  }

  function EventHash(lib: Library, e: Event, prev: string): string {
    lib.hash(HashedBytes(lib, e, prev))
  }

  /** These two inputs are not a collision. */
  predicate Apart(lib: Library, x: string, y: string) {
    lib.hash(x) == lib.hash(y) ==> x == y
  }

  lemma EqualHeads(a: string, b: string, x: string, y: string)
    requires a + x == b + y && |a| == |b|
    ensures a == b && x == y
  {
    assert (a + x)[..|a|] == a && (b + y)[..|b|] == b;
    assert (a + x)[|a|..] == x && (b + y)[|b|..] == y;
  }

  /** What the hash covers of the actor: kind and reference. */
  function ActorText(lib: Library, kind: string, name: string): string {
    lib.jsonText(SortDeep(Obj([("kind", Str(kind)), ("ref", Str(name))])))
  }

  /** Field by field as long; there are no separators to tell one field from the next. */
  predicate SameLengths(lib: Library, e: Event, f: Event) {
    && |e.id| == |f.id| && e.seller.Some? == f.seller.Some?
    && (e.seller.Some? ==> |lib.sellerText(e.seller.value)| == |lib.sellerText(f.seller.value)|)
    && |e.action| == |f.action| && |e.targetKind| == |f.targetKind| && |e.targetRef| == |f.targetRef|
    && |lib.jsonText(SortDeep(if e.payload.Some? then e.payload.value else Null))|
       == |lib.jsonText(SortDeep(if f.payload.Some? then f.payload.value else Null))|
  }

  /**
   Main result: the bytes fix every hashed field. Two events with fields of equal lengths, behind
   hashes of equal length, that are hashed from the same bytes agree in previous hash, id, seller,
   action, target, time, canonical payload, and kind and reference of the actor.
   */
  lemma SameBytesSameFields(lib: Library, e: Event, p: string, f: Event, q: string)
    requires Sound(lib) && InRange(e.occurredAt) && InRange(f.occurredAt)
    requires SameLengths(lib, e, f) && |p| == |q|
    requires HashedBytes(lib, e, p) == HashedBytes(lib, f, q)
    ensures p == q && e.id == f.id && e.occurredAt == f.occurredAt
    ensures e.seller.Some? ==> lib.sellerText(e.seller.value) == lib.sellerText(f.seller.value)
    ensures e.action == f.action && e.targetKind == f.targetKind && e.targetRef == f.targetRef
    ensures lib.jsonText(SortDeep(if e.payload.Some? then e.payload.value else Null))
            == lib.jsonText(SortDeep(if f.payload.Some? then f.payload.value else Null))
    ensures ActorText(lib, e.actor.kind, e.actor.name) == ActorText(lib, f.actor.kind, f.actor.name)
  {
    var t, u := lib.timeText(e.occurredAt), lib.timeText(f.occurredAt);
    EqualHeads(p, q, Head(lib, e) + (t + Tail(lib, e)), Head(lib, f) + (u + Tail(lib, f)));
    EqualHeads(Head(lib, e), Head(lib, f), t + Tail(lib, e), u + Tail(lib, f));
    EqualHeads(t, u, Tail(lib, e), Tail(lib, f));
    SameHeadSameFields(lib, e, f);
    EqualHeads(CanonicalText(lib, PayloadJson(e.payload)), CanonicalText(lib, PayloadJson(f.payload)),
               CanonicalText(lib, ActorJson(e.actor)), CanonicalText(lib, ActorJson(f.actor)));
  }

  lemma SameHeadSameFields(lib: Library, e: Event, f: Event)
    requires SameLengths(lib, e, f) && Head(lib, e) == Head(lib, f)
    ensures e.id == f.id
    ensures e.seller.Some? ==> lib.sellerText(e.seller.value) == lib.sellerText(f.seller.value)
    ensures e.action == f.action && e.targetKind == f.targetKind && e.targetRef == f.targetRef
  {
    var s := if e.seller.Some? then lib.sellerText(e.seller.value) else "";
    var t := if f.seller.Some? then lib.sellerText(f.seller.value) else "";
    EqualHeads(e.id + s + e.action + e.targetKind, f.id + t + f.action + f.targetKind, e.targetRef, f.targetRef);
    EqualHeads(e.id + s + e.action, f.id + t + f.action, e.targetKind, f.targetKind);
    EqualHeads(e.id + s, f.id + t, e.action, f.action);
    EqualHeads(e.id, f.id, s, t);
  }

  /** Impersonation, address and agent are not hashed: filling them in later breaks no chain. */
  lemma ProvenanceIsNotHashed(lib: Library, e: Event, prev: string, who: Option<string>, ip: string, agent: string)
    ensures EventHash(lib, e.(actor := Actor(e.actor.kind, e.actor.name, who, ip, agent)), prev)
            == EventHash(lib, e, prev)
  {
  }

  // ---------------------------------------------------------------- VerifyChain

  datatype Verdict = Intact | LengthMismatch | BrokenAt(index: nat)

  function PrevOf(hashes: seq<string>, i: nat): string
    requires i <= |hashes|
  {
    if i == 0 then "" else hashes[i - 1]
  }

  predicate LinkHolds(lib: Library, events: seq<Event>, hashes: seq<string>, i: nat)
    requires i < |events| == |hashes|
  {
    EventHash(lib, events[i], PrevOf(hashes, i)) == hashes[i]
  }

  predicate Accepted(lib: Library, events: seq<Event>, hashes: seq<string>) {
    |events| == |hashes| && forall i :: 0 <= i < |events| ==> LinkHolds(lib, events, hashes, i)
  }

  /** Reports the first position whose recomputed hash differs from the stored one. */
  method VerifyChain(lib: Library, events: seq<Event>, hashes: seq<string>) returns (v: Verdict)
    ensures v == Intact <==> Accepted(lib, events, hashes)
    ensures v == LengthMismatch <==> |events| != |hashes|
    ensures v.BrokenAt? ==> v.index < |events| == |hashes| && !LinkHolds(lib, events, hashes, v.index)
    ensures v.BrokenAt? ==> Accepted(lib, events[..v.index], hashes[..v.index])
  {
    if |events| != |hashes| {
      return LengthMismatch;
    }
    var prev := "";
    for i := 0 to |events|
      invariant prev == PrevOf(hashes, i)
      invariant forall k :: 0 <= k < i ==> LinkHolds(lib, events, hashes, k)
    {
      var expected := EventHash(lib, events[i], prev);
      if expected != hashes[i] {
        forall k | 0 <= k < i ensures LinkHolds(lib, events[..i], hashes[..i], k) {
          assert LinkHolds(lib, events, hashes, k);
        }
        assert !LinkHolds(lib, events, hashes, i);
        return BrokenAt(i);
      }
      prev := hashes[i];
    }
    v := Intact;
  }

  /** The bytes hashed at each position of a chain. */
  function BytesAt(lib: Library, events: seq<Event>, hashes: seq<string>, i: nat): string
    requires i < |events| == |hashes|
  {
    HashedBytes(lib, events[i], PrevOf(hashes, i))
  }

  /**
   Main result: the last hash fixes the whole chain. Two accepted chains of the same length that
   end in the same hash were computed from the same bytes at every position, or some position
   holds a hash collision.
   */
  lemma {:induction false} LastHashFixesEveryByte(
      lib: Library, a: seq<Event>, x: seq<string>, b: seq<Event>, y: seq<string>, i: nat)
    requires Sound(lib) && Accepted(lib, a, x) && Accepted(lib, b, y)
    requires |a| == |b| > 0 && x[|x| - 1] == y[|y| - 1]
    requires forall k :: 0 <= k < |a| ==> Apart(lib, BytesAt(lib, a, x, k), BytesAt(lib, b, y, k))
    requires i < |a|
    ensures BytesAt(lib, a, x, i) == BytesAt(lib, b, y, i) && x[i] == y[i]
    decreases |a| - i
  {
    if i < |a| - 1 {
      LastHashFixesEveryByte(lib, a, x, b, y, i + 1);
      PrevIsHashed(lib, a, x, i);
      PrevIsHashed(lib, b, y, i);
    }
    SameHashSameBytes(lib, a, x, b, y, i);
  }

  lemma SameHashSameBytes(lib: Library, a: seq<Event>, x: seq<string>, b: seq<Event>, y: seq<string>, i: nat)
    requires Accepted(lib, a, x) && Accepted(lib, b, y) && i < |a| == |b| && x[i] == y[i]
    requires Apart(lib, BytesAt(lib, a, x, i), BytesAt(lib, b, y, i))
    ensures BytesAt(lib, a, x, i) == BytesAt(lib, b, y, i)
  {
    assert LinkHolds(lib, a, x, i) && LinkHolds(lib, b, y, i);
  }

  /** The bytes hashed for an event start with the hash before it. */
  lemma PrevIsHashed(lib: Library, a: seq<Event>, x: seq<string>, i: nat)
    requires Sound(lib) && Accepted(lib, a, x) && i + 1 < |a|
    ensures |BytesAt(lib, a, x, i + 1)| >= HASH_LENGTH && BytesAt(lib, a, x, i + 1)[..HASH_LENGTH] == x[i]
  {
    assert LinkHolds(lib, a, x, i) && LinkHolds(lib, a, x, i + 1);
  }

  // ---------------------------------------------------------------- the table

  predicate InChain(r: Row, seller: Option<SellerId>) {
    r.seller == seller
  }

  /** The rows of one chain, in insertion order. */
  function Chain(table: seq<Row>, seller: Option<SellerId>): seq<Row> {
    if table == [] then []
    else
      var before := Chain(table[..|table| - 1], seller);
      var r := table[|table| - 1];
      if InChain(r, seller) then before + [r] else before
  }

  /** The row ORDER BY seq DESC LIMIT 1 returns. */
  function TopRow(chain: seq<Row>): (r: Option<Row>)
    ensures r.None? <==> chain == []
    ensures r.Some? ==> r.value in chain && forall k :: 0 <= k < |chain| ==> chain[k].seqNo <= r.value.seqNo
  {
    if chain == [] then None
    else
      var before := TopRow(chain[..|chain| - 1]);
      var last := chain[|chain| - 1];
      if before.Some? && before.value.seqNo > last.seqNo then before else Some(last)
  }

  function LastHash(table: seq<Row>, seller: Option<SellerId>): string {
    match TopRow(Chain(table, seller))
    case None => ""
    case Some(r) => r.eventHash
  }

  function NextSeq(table: seq<Row>, seller: Option<SellerId>): nat {
    match TopRow(Chain(table, seller))
    case None => 1
    case Some(r) => r.seqNo + 1
  }

  /** timestamptz keeps microseconds. */
  function StoredTime(t: Time): Time {
    t - t % 1000
  }

  /** A nil payload is written as {}. */
  function StoredPayload(payload: Option<Json>): Json {
    match payload
    case None => Obj([])
    case Some(v) => v
  }

  function NewRow(lib: Library, e: Event, prev: string, seqNo: nat): Row {
    Row(e.id, e.seller, e.actor, e.action, e.targetKind, e.targetRef, StoredPayload(e.payload),
        StoredTime(e.occurredAt), prev, EventHash(lib, e, prev), seqNo)
  }

  /** A row as the verification query returns it; impersonated_by is not read back. */
  function Loaded(lib: Library, r: Row): Event {
    Event(r.id, r.seller, r.actor.(impersonatedBy := None), r.action, r.targetKind, r.targetRef,
          Some(lib.jsonb(r.payload)), r.occurredAt)
  }

  /** Nothing the hash covers is lost in storage. */
  predicate Survives(e: Event) {
    e.payload.Some? && e.occurredAt % 1000 == 0
  }

  /** Go values: payloads are trees of maps, times are writable with four-digit years. */
  predicate Representable(e: Event) {
    InRange(e.occurredAt) && (e.payload.Some? ==> WellFormed(e.payload.value))
  }

  lemma StoredTimeFacts(t: Time)
    requires InRange(t)
    ensures InRange(StoredTime(t)) && (StoredTime(t) == t <==> t % 1000 == 0)
  {
    assert MIN_TIME % 1000 == 0;
  }

  /** The tail of what is hashed after reading a row back: two bytes shorter if the payload was nil. */
  lemma TailSurvives(lib: Library, e: Event, prev: string)
    requires Sound(lib) && Representable(e)
    ensures e.payload.Some? ==> Tail(lib, Loaded(lib, NewRow(lib, e, prev, 1))) == Tail(lib, e)
    ensures e.payload.None? ==> |Tail(lib, Loaded(lib, NewRow(lib, e, prev, 1)))| == |Tail(lib, e)| - 2
  {
    var kept := StoredPayload(e.payload);
    assert WellFormed(kept);
    CanonicalIgnoresKeyOrder(kept, lib.jsonb(kept));
    assert SortDeep(lib.jsonb(kept)) == SortDeep(kept);
    SortDeepUnfolds(Obj([]));
    assert SortFields([]) == [];
    assert SortDeep(Obj([])) == Obj([]);
  }

  /** Concatenations with equal-length parts in the same places are equal part by part. */
  lemma EqualPartByPart(p: string, q: string, head: string, t: string, u: string, a: string, b: string)
    requires |p| in {0, HASH_LENGTH} && |q| in {0, HASH_LENGTH} && |t| == |u|
    requires a == b || |a| == |b| - 2
    ensures p + (head + (t + a)) == q + (head + (u + b)) <==> p == q && t == u && a == b
  {
    var x, y := p + (head + (t + a)), q + (head + (u + b));
    if x == y {
      assert |x| == |y|;
      assert x[..|p|] == p && y[..|q|] == q;
      assert x[|p| + |head|..][..|t|] == t && y[|q| + |head|..][..|u|] == u;
    }
  }

  /**
   What VerifyChain hashes for a row, behind `actual`, is what Emit hashed behind `prev` exactly when
   nothing was lost.
   */
  lemma BytesSurviveExactly(lib: Library, e: Event, prev: string, actual: string, seqNo: nat)
    requires Sound(lib) && Representable(e)
    requires |prev| in {0, HASH_LENGTH} && |actual| in {0, HASH_LENGTH}
    ensures HashedBytes(lib, Loaded(lib, NewRow(lib, e, prev, seqNo)), actual) == HashedBytes(lib, e, prev)
       <==> prev == actual && Survives(e)
  {
    var l := Loaded(lib, NewRow(lib, e, prev, seqNo));
    assert l == Loaded(lib, NewRow(lib, e, prev, 1));
    TailSurvives(lib, e, prev);
    StoredTimeFacts(e.occurredAt);
    assert Head(lib, l) == Head(lib, e);
    EqualPartByPart(actual, prev, Head(lib, e), lib.timeText(l.occurredAt), lib.timeText(e.occurredAt), Tail(lib, l),
                    Tail(lib, e));
  }

  // ---------------------------------------------------------------- what a listing verifies to

  /** The row was written for this event, whatever prev and seq it got. */
  ghost predicate WrittenFor(lib: Library, r: Row, e: Event) {
    && Representable(e)
    && |r.prevHash| in {0, HASH_LENGTH}
    && r == NewRow(lib, e, r.prevHash, r.seqNo)
  }

  ghost predicate Aligned(lib: Library, rows: seq<Row>, events: seq<Event>) {
    |rows| == |events| && forall k :: 0 <= k < |rows| ==> WrittenFor(lib, rows[k], events[k])
  }

  function LoadAll(lib: Library, rows: seq<Row>): (r: seq<Event>)
    ensures |r| == |rows| && forall k :: 0 <= k < |rows| ==> r[k] == Loaded(lib, rows[k])
  {
    seq(|rows|, k requires 0 <= k < |rows| => Loaded(lib, rows[k]))
  }

  function HashesOf(rows: seq<Row>): (r: seq<string>)
    ensures |r| == |rows| && forall k :: 0 <= k < |rows| ==> r[k] == rows[k].eventHash
  {
    seq(|rows|, k requires 0 <= k < |rows| => rows[k].eventHash)
  }

  function HashBefore(rows: seq<Row>, k: nat): string
    requires k <= |rows|
  {
    if k == 0 then "" else rows[k - 1].eventHash
  }

  /** What is hashed on verification, and what was hashed by Emit, do not collide at position k. */
  ghost predicate NoCollisionAt(lib: Library, rows: seq<Row>, events: seq<Event>, k: nat)
    requires k < |rows| == |events|
  {
    Apart(lib, HashedBytes(lib, Loaded(lib, rows[k]), HashBefore(rows, k)),
          HashedBytes(lib, events[k], rows[k].prevHash))
  }

  ghost predicate NoCollisions(lib: Library, rows: seq<Row>, events: seq<Event>)
    requires |rows| == |events|
  {
    forall k :: 0 <= k < |rows| ==> NoCollisionAt(lib, rows, events, k)
  }

  /** Row k was chained to the row listed before it, and its event came through storage unchanged. */
  predicate Linked(rows: seq<Row>, events: seq<Event>, k: nat)
    requires k < |rows| == |events|
  {
    rows[k].prevHash == HashBefore(rows, k) && Survives(events[k])
  }

  predicate AllLinked(rows: seq<Row>, events: seq<Event>)
    requires |rows| == |events|
  {
    forall k :: 0 <= k < |rows| ==> Linked(rows, events, k)
  }

  /**
   Main result, exact: listed rows pass verification if and only if each is linked to the one before
   and lost nothing.
   */
  lemma RowsVerifyExactly(lib: Library, rows: seq<Row>, events: seq<Event>)
    requires Sound(lib) && Aligned(lib, rows, events) && NoCollisions(lib, rows, events)
    ensures Accepted(lib, LoadAll(lib, rows), HashesOf(rows)) <==> AllLinked(rows, events)
  {
    var loaded, hashes := LoadAll(lib, rows), HashesOf(rows);
    forall k | 0 <= k < |rows|
      ensures LinkHolds(lib, loaded, hashes, k) <==> Linked(rows, events, k)
    {
      assert WrittenFor(lib, rows[k], events[k]) && NoCollisionAt(lib, rows, events, k);
      assert k > 0 ==> WrittenFor(lib, rows[k - 1], events[k - 1]);
      assert PrevOf(hashes, k) == HashBefore(rows, k);
      BytesSurviveExactly(lib, events[k], rows[k].prevHash, HashBefore(rows, k), rows[k].seqNo);
    }
  }

  // ---------------------------------------------------------------- Emit, one transaction at a time

  /** Table after the events were emitted one after the other, for any mixture of sellers. */
  function Emitted(lib: Library, events: seq<Event>): (table: seq<Row>)
    ensures |table| == |events|
  {
    if events == [] then []
    else
      var before := Emitted(lib, events[..|events| - 1]);
      var e := events[|events| - 1];
      before + [NewRow(lib, e, LastHash(before, e.seller), NextSeq(before, e.seller))]
  }

  /** The events of one chain, in order. */
  function EventsOf(events: seq<Event>, seller: Option<SellerId>): seq<Event> {
    if events == [] then []
    else
      var before := EventsOf(events[..|events| - 1], seller);
      var e := events[|events| - 1];
      if e.seller == seller then before + [e] else before
  }

  /** seq is 1, 2, 3, …, and every prev_hash is the event_hash one seq before. */
  predicate Contiguous(chain: seq<Row>) {
    forall k :: 0 <= k < |chain| ==> chain[k].seqNo == k + 1 && chain[k].prevHash == HashBefore(chain, k)
  }

  lemma TopOfContiguous(chain: seq<Row>)
    requires Contiguous(chain) && chain != []
    ensures TopRow(chain) == Some(chain[|chain| - 1])
  {
    var r := TopRow(chain).value;
    var k :| 0 <= k < |chain| && chain[k] == r;
    assert chain[|chain| - 1].seqNo <= r.seqNo;
  }

  /** Main result: serialised Emits, over any mixture of sellers, number and link every chain without a gap. */
  lemma {:induction false} SerialEmitsChain(lib: Library, events: seq<Event>, seller: Option<SellerId>)
    requires Sound(lib) && forall e :: e in events ==> Representable(e)
    ensures Contiguous(Chain(Emitted(lib, events), seller))
    ensures Aligned(lib, Chain(Emitted(lib, events), seller), EventsOf(events, seller))
  {
    if events != [] {
      var init, e := events[..|events| - 1], events[|events| - 1];
      SerialEmitsChain(lib, init, seller);
      var before, table := Emitted(lib, init), Emitted(lib, events);
      assert table[..|table| - 1] == before;
      if e.seller == seller {
        OneMoreRow(lib, before, Chain(before, seller), EventsOf(init, seller), e);
        assert Chain(table, seller) == Chain(before, seller) + [table[|table| - 1]];
        assert EventsOf(events, seller) == EventsOf(init, seller) + [e];
      }
    }
  }

  lemma OneMoreRow(lib: Library, before: seq<Row>, chain: seq<Row>, own: seq<Event>, e: Event)
    requires Sound(lib) && Representable(e)
    requires chain == Chain(before, e.seller) && Contiguous(chain) && Aligned(lib, chain, own)
    ensures var r := NewRow(lib, e, LastHash(before, e.seller), NextSeq(before, e.seller));
      Contiguous(chain + [r]) && Aligned(lib, chain + [r], own + [e])
  {
    var r := NewRow(lib, e, LastHash(before, e.seller), NextSeq(before, e.seller));
    NextOfContiguous(before, chain, e.seller);
    AppendStaysContiguous(chain, r);
    if chain != [] {
      assert WrittenFor(lib, chain[|chain| - 1], own[|chain| - 1]);
      assert |chain[|chain| - 1].eventHash| == HASH_LENGTH;
    }
    assert WrittenFor(lib, r, e);
  }

  lemma NextOfContiguous(before: seq<Row>, chain: seq<Row>, seller: Option<SellerId>)
    requires chain == Chain(before, seller) && Contiguous(chain)
    ensures LastHash(before, seller) == HashBefore(chain, |chain|) && NextSeq(before, seller) == |chain| + 1
  {
    if chain != [] {
      TopOfContiguous(chain);
    }
  }

  lemma AppendStaysContiguous(chain: seq<Row>, r: Row)
    requires Contiguous(chain) && r.seqNo == |chain| + 1 && r.prevHash == HashBefore(chain, |chain|)
    ensures Contiguous(chain + [r])
  {
    var all := chain + [r];
    forall k | 0 <= k < |all| ensures all[k].seqNo == k + 1 && all[k].prevHash == HashBefore(all, k) {
      assert k > 0 ==> all[k - 1] == chain[k - 1];
      assert k < |chain| ==> all[k] == chain[k];
    }
  }

  /** ORDER BY seq ASC over one chain; ties in any order. */
  ghost predicate IsListing(rows: seq<Row>, table: seq<Row>, seller: Option<SellerId>) {
    && multiset(rows) == multiset(Chain(table, seller))
    && forall i, j :: 0 <= i < j < |rows| ==> rows[i].seqNo <= rows[j].seqNo
  }

  lemma SameMembers(a: seq<Row>, b: seq<Row>)
    requires multiset(a) == multiset(b)
    ensures |a| == |b| && forall r :: r in a <==> r in b
  {
    assert |a| == |multiset(a)| && |b| == |multiset(b)|;
    forall r ensures r in a <==> r in b {
      assert r in a <==> r in multiset(a);
      assert r in b <==> r in multiset(b);
    }
  }

  lemma {:induction false} CountedOnce(s: seq<Row>, r: Row)
    requires forall i, j :: 0 <= i < j < |s| ==> s[i] != s[j]
    ensures multiset(s)[r] <= 1
    decreases |s|
  {
    if s != [] {
      CountedOnce(s[1..], r);
      assert s == [s[0]] + s[1..];
      assert s[0] in multiset(s[1..]) <==> s[0] in s[1..];
    }
  }

  predicate Numbered(chain: seq<Row>) {
    forall k :: 0 <= k < |chain| ==> chain[k].seqNo == k + 1
  }

  /** Contiguous rows can be listed in one order only. */
  lemma ListingIsTheChain(rows: seq<Row>, table: seq<Row>, seller: Option<SellerId>)
    requires Numbered(Chain(table, seller)) && IsListing(rows, table, seller)
    ensures rows == Chain(table, seller)
  {
    NumberedOrder(rows, Chain(table, seller));
  }

  lemma NumberedOrder(rows: seq<Row>, chain: seq<Row>)
    requires Numbered(chain) && multiset(rows) == multiset(chain)
    requires forall i, j :: 0 <= i < j < |rows| ==> rows[i].seqNo <= rows[j].seqNo
    ensures rows == chain
  {
    SameMembers(rows, chain);
    forall i, j | 0 <= i < j < |rows| ensures rows[i].seqNo < rows[j].seqNo {
      NoTwoAlike(rows, chain, i, j);
    }
    forall i | 0 <= i < |rows| ensures rows[i] == chain[i] {
      AtLeastItsPlace(rows, chain, i);
      AtMostItsPlace(rows, chain, i);
      assert rows[i] in chain;
    }
  }

  lemma NoTwoAlike(rows: seq<Row>, chain: seq<Row>, i: nat, j: nat)
    requires Numbered(chain) && multiset(rows) == multiset(chain)
    requires i < j < |rows|
    ensures rows[i].seqNo != rows[j].seqNo
  {
    SameMembers(rows, chain);
    if rows[i].seqNo == rows[j].seqNo {
      assert rows[i] in chain && rows[j] in chain;
      assert rows[i] == rows[j];
      CountedOnce(chain, rows[i]);
      CountedTwice(rows, i, j);
    }
  }

  lemma {:induction false} AtLeastItsPlace(rows: seq<Row>, chain: seq<Row>, i: nat)
    requires forall i, j :: 0 <= i < j < |rows| ==> rows[i].seqNo < rows[j].seqNo
    requires Numbered(chain) && i < |rows| && forall r :: r in rows ==> r in chain
    ensures i + 1 <= rows[i].seqNo
  {
    if i == 0 {
      assert rows[0] in chain;
    } else {
      AtLeastItsPlace(rows, chain, i - 1);
    }
  }

  lemma {:induction false} AtMostItsPlace(rows: seq<Row>, chain: seq<Row>, i: nat)
    requires forall i, j :: 0 <= i < j < |rows| ==> rows[i].seqNo < rows[j].seqNo
    requires Numbered(chain) && i < |rows| == |chain| && forall r :: r in rows ==> r in chain
    ensures rows[i].seqNo <= i + 1
    decreases |rows| - i
  {
    if i == |rows| - 1 {
      assert rows[i] in chain;
    } else {
      AtMostItsPlace(rows, chain, i + 1);
    }
  }

  /**
   Main result, exact: after serialised Emits a seller's listing verifies if and only if every event of
   that seller survives storage.
   */
  lemma SerialChainsVerifyExactly(lib: Library, events: seq<Event>, seller: Option<SellerId>, rows: seq<Row>)
    requires Sound(lib) && forall e :: e in events ==> Representable(e)
    requires IsListing(rows, Emitted(lib, events), seller)
    ensures |rows| == |EventsOf(events, seller)|
    ensures NoCollisions(lib, rows, EventsOf(events, seller)) ==>
      (Accepted(lib, LoadAll(lib, rows), HashesOf(rows))
       <==> forall e :: e in events && e.seller == seller ==> Survives(e))
  {
    var own := EventsOf(events, seller);
    SerialEmitsChain(lib, events, seller);
    ListingIsTheChain(rows, Emitted(lib, events), seller);
    if NoCollisions(lib, rows, own) {
      RowsVerifyExactly(lib, rows, own);
      EventsOfMembers(events, seller);
      LinkedMeansSurvive(rows, own);
    }
  }

  lemma LinkedMeansSurvive(rows: seq<Row>, own: seq<Event>)
    requires Contiguous(rows) && |rows| == |own|
    ensures AllLinked(rows, own) <==> forall e :: e in own ==> Survives(e)
  {
    if AllLinked(rows, own) {
      forall e | e in own ensures Survives(e) {
        var k :| 0 <= k < |own| && own[k] == e;
        assert Linked(rows, own, k);
      }
    }
  }

  lemma {:induction false} EventsOfMembers(events: seq<Event>, seller: Option<SellerId>)
    ensures forall e :: e in EventsOf(events, seller) <==> e in events && e.seller == seller
  {
    if events != [] {
      var init := events[..|events| - 1];
      EventsOfMembers(init, seller);
      assert events == init + [events[|events| - 1]];
    }
  }

  // ---------------------------------------------------------------- the service

  datatype EmitResult = Recorded | NotHighValue

  const HIGH_VALUE_ACTIONS: seq<string> := [
    "wallet.", "cod.remitted", "weight_dispute.",
    "seller.kyc_", "seller.suspended", "seller.reactivated", "seller.wound_down",
    "user.role_granted", "user.role_revoked", "user.locked",
    "ops.manual_adjustment", "ops.kyc_override", "ops.cross_seller_view",
    "policy.lock_set", "policy.lock_removed", "policy.seller_type_default_changed",
    "contract.signed", "contract.terminated", "contract.amended",
    "carrier.credential_rotated"]

  /** An entry that ends in '.' or '_' covers its prefix, any other entry only itself. */
  predicate Covers(entry: string, action: string) {
    if entry != "" && entry[|entry| - 1] in {'.', '_'} then entry <= action else action == entry
  }

  /** A family entry covers what starts with it, a single action only itself. */
  lemma FamiliesAndSingles(action: string)
    ensures Covers("wallet.", action) <==> "wallet." <= action
    ensures Covers("seller.kyc_", action) <==> "seller.kyc_" <= action
    ensures Covers("user.locked", action) <==> action == "user.locked"
  {
  }

  function FillDefaults(d: Draft, newId: string, now: Time, contextActor: Actor): Event {
    Event(if d.id.Some? then d.id.value else newId, d.seller,
          if d.actor.kind == "" then contextActor else d.actor, d.action, d.targetKind, d.targetRef, d.payload,
          if d.occurredAt.Some? then d.occurredAt.value else now)
  }

  /** Emit fills in what the caller left out and keeps the rest. */
  lemma DefaultsFillGaps(d: Draft, newId: string, now: Time, contextActor: Actor)
    ensures var e := FillDefaults(d, newId, now, contextActor);
      && (d.id.Some? ==> e.id == d.id.value) && (d.id.None? ==> e.id == newId)
      && (d.occurredAt.Some? ==> e.occurredAt == d.occurredAt.value) && (d.occurredAt.None? ==> e.occurredAt == now)
      && (d.actor.kind != "" ==> e.actor == d.actor) && (d.actor.kind == "" ==> e.actor == contextActor)
      && e.seller == d.seller && e.action == d.action && e.targetKind == d.targetKind
      && e.targetRef == d.targetRef && e.payload == d.payload
  {
  }

  /** One more Emit: whatever was emitted before, `after` is what emitting e next leaves. */
  ghost predicate IsNextAfter(lib: Library, before: seq<Row>, e: Event, after: seq<Row>) {
    && |after| == |before| + 1
    && (forall events :: before == Emitted(lib, events) ==> after == Emitted(lib, events + [e]))
    && after == before + [NewRow(lib, e, LastHash(before, e.seller), NextSeq(before, e.seller))]
  }

  class AuditService {
    const lib: Library
    const highValue: seq<string>
    var table: seq<Row>

    constructor (lib: Library)
      ensures this.lib == lib && table == [] && highValue == HIGH_VALUE_ACTIONS
    {
      this.lib := lib;
      highValue := HIGH_VALUE_ACTIONS;
      table := [];
    }

    method IsHighValue(action: string) returns (r: bool)
      ensures r <==> exists k :: 0 <= k < |highValue| && Covers(highValue[k], action)
    {
      for i := 0 to |highValue|
        invariant forall k :: 0 <= k < i ==> !Covers(highValue[k], action)
      {
        if Covers(highValue[i], action) {
          return true;
        }
      }
      r := false;
    }

    /** Emit in a transaction of its own: one row appended behind the chain's last, or nothing. */
    method Emit(d: Draft, newId: string, now: Time, contextActor: Actor) returns (r: EmitResult)
      modifies this`table
      ensures r == Recorded <==> exists k :: 0 <= k < |highValue| && Covers(highValue[k], d.action)
      ensures r == NotHighValue ==> table == old(table)
      ensures r == Recorded ==> IsNextAfter(lib, old(table), FillDefaults(d, newId, now, contextActor), table)
    {
      var sync := IsHighValue(d.action);
      if !sync {
        return NotHighValue;
      }
      var event := FillDefaults(d, newId, now, contextActor);
      var prevHash := LastHash(table, event.seller);
      var seqNo := NextSeq(table, event.seller);
      table := table + [NewRow(lib, event, prevHash, seqNo)];
      forall events | old(table) == Emitted(lib, events) ensures table == Emitted(lib, events + [event]) {
        assert (events + [event])[..|events + [event]| - 1] == events;
      }
      r := Recorded;
    }
  }
}
