/**
 Audit Emits in overlapping transactions (backend/internal/audit): any number of workers, each of
 which reads the last hash, inserts behind it and commits. Reading takes no lock, so two of them can
 insert behind the same hash. The lemmas say what every schedule keeps and what such a pair breaks.
 */
module AuditOverlap {
  import opened Core
  import opened Audit

  type WorkerId = nat

  datatype Txn = Reading(event: Event, prev: string) | Written(event: Event, row: Row)

  /** Committed rows with the event each was written for, and the transactions still open. */
  datatype State = State(table: seq<Row>, source: seq<Event>, open: map<WorkerId, Txn>)

  datatype Step =
    | ReadLast(w: WorkerId, event: Event)
    | InsertRow(w: WorkerId)
    | Commit(w: WorkerId)
    | Rollback(w: WorkerId)

  /** READ COMMITTED: every statement sees the rows committed before it. */
  function Next(lib: Library, s: State, step: Step): State {
    match step
    case ReadLast(w, e) =>
      if w in s.open then s else s.(open := s.open[w := Reading(e, LastHash(s.table, e.seller))])
    case InsertRow(w) =>
      if w in s.open && s.open[w].Reading? then
        var t := s.open[w];
        s.(open := s.open[w := Written(t.event, NewRow(lib, t.event, t.prev, NextSeq(s.table, t.event.seller)))])
      else s
    case Commit(w) =>
      if w in s.open && s.open[w].Written? then
        State(s.table + [s.open[w].row], s.source + [s.open[w].event], s.open - {w})
      else s
    case Rollback(w) => s.(open := s.open - {w})
  }

  function After(lib: Library, steps: seq<Step>): State {
    if steps == [] then State([], [], map[]) else Next(lib, After(lib, steps[..|steps| - 1]), steps[|steps| - 1])
  }

  ghost predicate GoodSteps(steps: seq<Step>) {
    forall k :: 0 <= k < |steps| && steps[k].ReadLast? ==> Representable(steps[k].event)
  }

  ghost predicate GoodTxn(lib: Library, t: Txn) {
    match t
    case Reading(e, prev) => Representable(e) && |prev| in {0, HASH_LENGTH}
    case Written(e, r) => WrittenFor(lib, r, e)
  }

  ghost predicate Inv(lib: Library, s: State) {
    Aligned(lib, s.table, s.source) && GoodTxns(lib, s.open)
  }

  ghost predicate GoodTxns(lib: Library, open: map<WorkerId, Txn>) {
    forall w :: w in open ==> GoodTxn(lib, open[w])
  }

  lemma {:induction false} ChainMembers(table: seq<Row>, seller: Option<SellerId>)
    ensures forall r :: r in Chain(table, seller) <==> r in table && r.seller == seller
  {
    if table != [] {
      var init := table[..|table| - 1];
      ChainMembers(init, seller);
      assert table == init + [table[|table| - 1]];
    }
  }

  lemma LastHashLength(lib: Library, table: seq<Row>, source: seq<Event>, seller: Option<SellerId>)
    requires Sound(lib) && Aligned(lib, table, source)
    ensures |LastHash(table, seller)| in {0, HASH_LENGTH}
  {
    ChainMembers(table, seller);
    var top := TopRow(Chain(table, seller));
    if top.Some? {
      assert top.value in table;
      var k :| 0 <= k < |table| && table[k] == top.value;
      assert WrittenFor(lib, table[k], source[k]);
    }
  }

  lemma {:induction false} EveryRunIsAligned(lib: Library, steps: seq<Step>)
    requires Sound(lib) && GoodSteps(steps)
    ensures Inv(lib, After(lib, steps))
  {
    if steps != [] {
      var init, step := steps[..|steps| - 1], steps[|steps| - 1];
      assert GoodSteps(init);
      EveryRunIsAligned(lib, init);
      StepKeepsAligned(lib, After(lib, init), step);
    }
  }

  lemma StepKeepsAligned(lib: Library, s: State, step: Step)
    requires Sound(lib) && Inv(lib, s) && (step.ReadLast? ==> Representable(step.event))
    ensures Inv(lib, Next(lib, s, step))
  {
    match step
    case ReadLast(w, e) =>
      LastHashLength(lib, s.table, s.source, e.seller);
      OpensStayGood(lib, s.open, w, Reading(e, LastHash(s.table, e.seller)));
    case InsertRow(w) =>
      if w in s.open && s.open[w].Reading? {
        var t := s.open[w];
        assert GoodTxn(lib, t);
        OpensStayGood(lib, s.open, w, Written(t.event, NewRow(lib, t.event, t.prev, NextSeq(s.table, t.event.seller))));
      }
    case Commit(w) =>
      if w in s.open && s.open[w].Written? {
        assert GoodTxn(lib, s.open[w]);
        OneMoreAligned(lib, s.table, s.source, s.open[w].row, s.open[w].event);
      }
    case Rollback(w) =>
  }

  lemma OpensStayGood(lib: Library, open: map<WorkerId, Txn>, w: WorkerId, t: Txn)
    requires GoodTxns(lib, open) && GoodTxn(lib, t)
    ensures GoodTxns(lib, open[w := t])
  {
  }

  lemma OneMoreAligned(lib: Library, rows: seq<Row>, events: seq<Event>, r: Row, e: Event)
    requires Aligned(lib, rows, events) && WrittenFor(lib, r, e)
    ensures Aligned(lib, rows + [r], events + [e])
  {
  }

  lemma {:induction false} RowsStay(lib: Library, steps: seq<Step>, more: seq<Step>)
    ensures After(lib, steps).table <= After(lib, steps + more).table
  {
    if more == [] {
      assert steps + more == steps;
    } else {
      var init, last := more[..|more| - 1], more[|more| - 1];
      RowsStay(lib, steps, init);
      OneMoreStep(lib, steps + init, last);
      NextKeepsRows(lib, After(lib, steps + init), last);
      assert steps + more == (steps + init) + [last];
    }
  }

  lemma NextKeepsRows(lib: Library, s: State, step: Step)
    ensures s.table <= Next(lib, s, step).table
  {
  }

  /** The rows of any listing were each written for some event that was read by a worker. */
  lemma ListingHasSources(
      lib: Library, steps: seq<Step>, seller: Option<SellerId>, rows: seq<Row>) returns (events: seq<Event>)
    requires Sound(lib) && GoodSteps(steps) && IsListing(rows, After(lib, steps).table, seller)
    ensures Aligned(lib, rows, events)
    ensures forall e :: e in events ==> e in After(lib, steps).source
  {
    var s := After(lib, steps);
    EveryRunIsAligned(lib, steps);
    SameMembers(rows, Chain(s.table, seller));
    ChainMembers(s.table, seller);
    events := SourcesOf(lib, s.table, s.source, rows);
  }

  lemma {:induction false} SourcesOf(
      lib: Library, table: seq<Row>, source: seq<Event>, rows: seq<Row>) returns (events: seq<Event>)
    requires Aligned(lib, table, source) && forall r :: r in rows ==> r in table
    ensures Aligned(lib, rows, events) && forall e :: e in events ==> e in source
  {
    if rows == [] {
      events := [];
    } else {
      assert rows[0] in table;
      var k :| 0 <= k < |table| && table[k] == rows[0];
      assert WrittenFor(lib, table[k], source[k]);
      var rest := SourcesOf(lib, table, source, rows[1..]);
      events := [source[k]] + rest;
      OneMoreSource(lib, rows[0], source[k], rows[1..], rest);
      assert [rows[0]] + rows[1..] == rows;
    }
  }

  lemma OneMoreSource(lib: Library, r: Row, e: Event, rows: seq<Row>, events: seq<Event>)
    requires WrittenFor(lib, r, e) && Aligned(lib, rows, events)
    ensures Aligned(lib, [r] + rows, [e] + events)
  {
    forall i | 0 < i <= |rows| ensures WrittenFor(lib, ([r] + rows)[i], ([e] + events)[i]) {
      assert WrittenFor(lib, rows[i - 1], events[i - 1]);
    }
  }

  predicate DistinctHashes(rows: seq<Row>) {
    forall i, j :: 0 <= i < j < |rows| ==> rows[i].eventHash != rows[j].eventHash
  }

  /** Primary keys, all of one length. */
  predicate KeysDiffer(rows: seq<Row>) {
    forall i, j :: 0 <= i < j < |rows| ==> rows[i].id != rows[j].id && |rows[i].id| == |rows[j].id|
  }

  /** No two of the inputs that Emit hashed for these rows are a collision. */
  ghost predicate InputsApart(lib: Library, rows: seq<Row>, events: seq<Event>)
    requires |rows| == |events|
  {
    forall i, j :: 0 <= i < j < |rows| ==> PairApart(lib, rows, events, i, j)
  }

  ghost predicate PairApart(lib: Library, rows: seq<Row>, events: seq<Event>, i: nat, j: nat)
    requires i < |rows| == |events| && j < |rows|
  {
    Apart(lib, HashedBytes(lib, events[i], rows[i].prevHash), HashedBytes(lib, events[j], rows[j].prevHash))
  }

  /** The first row, whose input starts with no hash, has its hash to itself. */
  predicate FirstHashIsItsOwn(rows: seq<Row>) {
    forall k :: 0 < k < |rows| ==> rows[k].eventHash != rows[0].eventHash
  }

  /** Keys differ, no hashed inputs collide, and no later row shares the hash of the first. */
  ghost predicate RowsApart(lib: Library, rows: seq<Row>, events: seq<Event>)
    requires |rows| == |events|
  {
    KeysDiffer(rows) && InputsApart(lib, rows, events) && FirstHashIsItsOwn(rows)
  }

  /**
   Rows with ids of one length, both first or both not, have different hashes when their ids differ,
   collisions aside.
   */
  lemma HashesTellRowsApart(lib: Library, p: Row, q: Row, e: Event, f: Event)
    requires WrittenFor(lib, p, e) && WrittenFor(lib, q, f)
    requires |p.prevHash| == |q.prevHash| && |p.id| == |q.id| && p.id != q.id
    requires Apart(lib, HashedBytes(lib, e, p.prevHash), HashedBytes(lib, f, q.prevHash))
    ensures p.eventHash != q.eventHash
  {
    var x, y := HashedBytes(lib, e, p.prevHash), HashedBytes(lib, f, q.prevHash);
    HashedAfterPrev(lib, e, p.prevHash);
    HashedAfterPrev(lib, f, q.prevHash);
    StartsAfter(p.prevHash, e.id, x);
    StartsAfter(q.prevHash, f.id, y);
  }

  /** The id comes right behind the previous hash. */
  lemma HashedAfterPrev(lib: Library, e: Event, prev: string)
    ensures prev + e.id <= HashedBytes(lib, e, prev)
  {
    assert e.id <= Head(lib, e);
  }

  lemma StartsAfter(prev: string, id: string, x: string)
    requires prev + id <= x
    ensures |x| >= |prev| + |id| && x[|prev|..|prev| + |id|] == id
  {
    assert x[..|prev| + |id|] == prev + id;
    assert x[|prev|..|prev| + |id|] == x[..|prev| + |id|][|prev|..];
  }

  /** The events the rows were written for, without collisions; behind a hash the rows must be apart too. */
  ghost predicate TellsBehind(lib: Library, rows: seq<Row>, events: seq<Event>, prev: string) {
    && Aligned(lib, rows, events) && NoCollisions(lib, rows, events)
    && (prev == "" || RowsApart(lib, rows, events))
  }

  /** A listing in which two rows follow the same hash never verifies. */
  lemma SharedPrevNeverVerifies(lib: Library, rows: seq<Row>, events: seq<Event>, i: nat, j: nat)
    requires Sound(lib) && i < j < |rows| && rows[i].prevHash == rows[j].prevHash
    requires TellsBehind(lib, rows, events, rows[i].prevHash)
    ensures !Accepted(lib, LoadAll(lib, rows), HashesOf(rows))
  {
    RowsVerifyExactly(lib, rows, events);
    assert WrittenFor(lib, rows[j - 1], events[j - 1]);
    HashHasLength(lib, rows[j - 1], events[j - 1]);
    if rows[i].prevHash != "" && AllLinked(rows, events) {
      LinkedHashesDiffer(lib, rows, events);
    }
    NotAllLinked(rows, events, i, j);
  }

  lemma HashHasLength(lib: Library, r: Row, e: Event)
    requires Sound(lib) && WrittenFor(lib, r, e)
    ensures |r.eventHash| == HASH_LENGTH
  {
  }

  lemma NotAllLinked(rows: seq<Row>, events: seq<Event>, i: nat, j: nat)
    requires i < j < |rows| == |events| && rows[i].prevHash == rows[j].prevHash && rows[j - 1].eventHash != ""
    requires rows[i].prevHash == "" || !AllLinked(rows, events) || DistinctHashes(rows)
    ensures !AllLinked(rows, events)
  {
    assert !(Linked(rows, events, i) && Linked(rows, events, j)) || !DistinctHashes(rows);
  }

  /** Rows that are all linked have different hashes. */
  lemma LinkedHashesDiffer(lib: Library, rows: seq<Row>, events: seq<Event>)
    requires Sound(lib) && Aligned(lib, rows, events) && RowsApart(lib, rows, events) && AllLinked(rows, events)
    ensures DistinctHashes(rows)
  {
    forall i, j | 0 <= i < j < |rows| ensures rows[i].eventHash != rows[j].eventHash {
      if i > 0 {
        assert Linked(rows, events, i) && Linked(rows, events, j) && PairApart(lib, rows, events, i, j);
        assert WrittenFor(lib, rows[i], events[i]) && WrittenFor(lib, rows[j], events[j]);
        assert WrittenFor(lib, rows[i - 1], events[i - 1]) && WrittenFor(lib, rows[j - 1], events[j - 1]);
        HashesTellRowsApart(lib, rows[i], rows[j], events[i], events[j]);
      }
    }
  }

  /**
   Main result: once two rows of a chain follow the same hash, in whatever schedule they got there and
   among whatever other chains, no listing of that chain verifies in any later state: if they follow
   no hash at all, always, and otherwise as long as RowsApart holds of the listing.
   */
  lemma TwoRowsBehindOneHashBreakTheChain(
    lib: Library, steps: seq<Step>, more: seq<Step>, p: Row, q: Row, rows: seq<Row>, events: seq<Event>)
    requires Sound(lib)
    requires p in After(lib, steps).table && q in After(lib, steps).table
    requires p != q && p.seller == q.seller && p.prevHash == q.prevHash
    requires IsListing(rows, After(lib, steps + more).table, p.seller)
    ensures TellsBehind(lib, rows, events, p.prevHash) ==> !Accepted(lib, LoadAll(lib, rows), HashesOf(rows))
  {
    var i := PlaceInListing(lib, steps, more, p, rows);
    var j := PlaceInListing(lib, steps, more, q, rows);
    if TellsBehind(lib, rows, events, p.prevHash) {
      SharedPrevNeverVerifies(lib, rows, events, if i < j then i else j, if i < j then j else i);
    }
  }

  /** A committed row is in every later listing of its chain. */
  lemma PlaceInListing(lib: Library, steps: seq<Step>, more: seq<Step>, r: Row, rows: seq<Row>) returns (i: nat)
    requires r in After(lib, steps).table && IsListing(rows, After(lib, steps + more).table, r.seller)
    ensures i < |rows| && rows[i] == r
  {
    var table := After(lib, steps + more).table;
    RowsStay(lib, steps, more);
    SameMembers(rows, Chain(table, r.seller));
    ChainMembers(table, r.seller);
    StillThere(After(lib, steps).table, table, r);
    assert r in rows;
    i :| 0 <= i < |rows| && rows[i] == r;
  }

  lemma StillThere(before: seq<Row>, after: seq<Row>, r: Row)
    requires before <= after && r in before
    ensures r in after
  {
    var k :| 0 <= k < |before| && before[k] == r;
    assert after[k] == r;
  }

  function EventIn(t: Txn): Event {
    t.event
  }

  /** The last hash the transaction read. */
  function PrevIn(t: Txn): string {
    match t
    case Reading(_, prev) => prev
    case Written(_, r) => r.prevHash
  }

  /** A committed row of the event, behind the hash it read. */
  predicate Committed(table: seq<Row>, e: Event, prev: string) {
    exists k :: 0 <= k < |table| && table[k].id == e.id && table[k].seller == e.seller && table[k].prevHash == prev
  }

  predicate NeverRollsBack(steps: seq<Step>, w: WorkerId) {
    forall k :: 0 <= k < |steps| ==> steps[k] != Rollback(w)
  }

  predicate StillRunning(s: State, w: WorkerId, e: Event, prev: string) {
    w in s.open && EventIn(s.open[w]) == e && PrevIn(s.open[w]) == prev
  }

  predicate Carried(s: State, w: WorkerId, e: Event, prev: string) {
    StillRunning(s, w, e, prev) || Committed(s.table, e, prev)
  }

  lemma StepKeepsReadHash(lib: Library, s: State, step: Step, w: WorkerId, e: Event, prev: string)
    requires Inv(lib, s) && step != Rollback(w) && Carried(s, w, e, prev)
    ensures Carried(Next(lib, s, step), w, e, prev)
  {
    var s' := Next(lib, s, step);
    if Committed(s.table, e, prev) {
      StaysCommitted(s.table, s'.table, e, prev);
    } else if step == Commit(w) && s.open[w].Written? {
      assert GoodTxn(lib, s.open[w]);
      RowCarries(lib, s.open[w].row, e);
      assert s'.table[|s.table|] == s.open[w].row;
    } else {
      StepKeepsRunning(lib, s, step, w, e, prev);
    }
  }

  lemma RowCarries(lib: Library, r: Row, e: Event)
    requires WrittenFor(lib, r, e)
    ensures r.id == e.id && r.seller == e.seller
  {
  }

  lemma StepKeepsRunning(lib: Library, s: State, step: Step, w: WorkerId, e: Event, prev: string)
    requires StillRunning(s, w, e, prev) && step != Rollback(w) && !(step == Commit(w) && s.open[w].Written?)
    ensures StillRunning(Next(lib, s, step), w, e, prev)
  {
  }

  lemma StaysCommitted(before: seq<Row>, after: seq<Row>, e: Event, prev: string)
    requires before <= after && Committed(before, e, prev)
    ensures Committed(after, e, prev)
  {
    var k :| 0 <= k < |before| && before[k].id == e.id && before[k].seller == e.seller && before[k].prevHash == prev;
    assert after[k] == before[k];
  }

  /** What a worker read is what its row carries, however long it stays open and whoever commits in between. */
  lemma {:induction false} CommitCarriesTheReadHash(
    lib: Library, steps: seq<Step>, more: seq<Step>, w: WorkerId, e: Event, prev: string)
    requires Sound(lib) && GoodSteps(steps + more) && NeverRollsBack(more, w)
    requires StillRunning(After(lib, steps), w, e, prev)
    ensures Carried(After(lib, steps + more), w, e, prev)
    decreases |more|
  {
    if more == [] {
      assert steps + more == steps;
    } else {
      var init, last, all := more[..|more| - 1], more[|more| - 1], steps + more;
      assert all == (steps + init) + [last];
      GoodPrefix(steps + init, [last]);
      CommitCarriesTheReadHash(lib, steps, init, w, e, prev);
      EveryRunIsAligned(lib, steps + init);
      StepKeepsReadHash(lib, After(lib, steps + init), last, w, e, prev);
      OneMoreStep(lib, steps + init, last);
    }
  }

  lemma GoodPrefix(steps: seq<Step>, more: seq<Step>)
    requires GoodSteps(steps + more)
    ensures GoodSteps(steps)
  {
    assert forall k :: 0 <= k < |steps| ==> (steps + more)[k] == steps[k];
  }

  lemma OneMoreStep(lib: Library, steps: seq<Step>, step: Step)
    ensures After(lib, steps + [step]) == Next(lib, After(lib, steps), step)
  {
    assert (steps + [step])[..|steps + [step]| - 1] == steps;
  }

  /** Two Emits of a chain can always come to share a hash: the second reads before the first commits. */
  lemma TwoReadsShareTheHash(lib: Library, steps: seq<Step>, v: WorkerId, w: WorkerId, a: Event, b: Event)
    requires v != w && a.seller == b.seller
    requires v !in After(lib, steps).open && w !in After(lib, steps).open
    ensures var prev, s := LastHash(After(lib, steps).table, a.seller),
              After(lib, steps + [ReadLast(v, a)] + [ReadLast(w, b)]);
      StillRunning(s, v, a, prev) && StillRunning(s, w, b, prev)
  {
    OneMoreStep(lib, steps, ReadLast(v, a));
    OneMoreStep(lib, steps + [ReadLast(v, a)], ReadLast(w, b));
  }

  /**
   Main result, the race: whenever two Emits of one chain are open at once having read the same last
   hash, at any point of any run, and both commit, no listing of that chain ever verifies again, under
   the same condition.
   */
  lemma OverlappingEmitsBreakTheChain(
    lib: Library, steps: seq<Step>, more: seq<Step>, later: seq<Step>, v: WorkerId, w: WorkerId, a: Event, b: Event,
    prev: string, rows: seq<Row>, events: seq<Event>)
    requires Sound(lib) && GoodSteps(steps + more)
    requires StillRunning(After(lib, steps), v, a, prev) && StillRunning(After(lib, steps), w, b, prev)
    requires a.seller == b.seller && a.id != b.id
    requires NeverRollsBack(more, v) && NeverRollsBack(more, w)
    requires v !in After(lib, steps + more).open && w !in After(lib, steps + more).open
    requires IsListing(rows, After(lib, (steps + more) + later).table, a.seller)
    ensures TellsBehind(lib, rows, events, prev) ==> !Accepted(lib, LoadAll(lib, rows), HashesOf(rows))
  {
    CommitCarriesTheReadHash(lib, steps, more, v, a, prev);
    CommitCarriesTheReadHash(lib, steps, more, w, b, prev);
    var table := After(lib, steps + more).table;
    var i :| 0 <= i < |table| && table[i].id == a.id && table[i].seller == a.seller && table[i].prevHash == prev;
    var j :| 0 <= j < |table| && table[j].id == b.id && table[j].seller == b.seller && table[j].prevHash == prev;
    TwoRowsBehindOneHashBreakTheChain(lib, steps + more, later, table[i], table[j], rows, events);
  }
}
