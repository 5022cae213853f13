/**
 The outbox forwarder (backend/internal/outbox): claim the oldest pending rows with FOR UPDATE SKIP
 LOCKED, mark them, commit, and only then enqueue the jobs.

 The class is one forwarder's code. The state machine below it runs any number of forwarders, each
 step a database operation, with aborted transactions, failed inserts and crashes anywhere.
 */
module Outbox {
  import opened Core

  type EventId = nat
  type WorkerId = nat

  // ---------------------------------------------------------------- the claim query

  /** The pending, unlocked rows in created_at order. */
  function Claimable(rows: seq<EventId>, marked: set<EventId>, locked: set<EventId>): seq<EventId> {
    if rows == [] then []
    else
      var rest := Claimable(rows[1..], marked, locked);
      if rows[0] in marked || rows[0] in locked then rest else [rows[0]] + rest
  }

  function Take(s: seq<EventId>, n: nat): seq<EventId> {
    if |s| <= n then s else s[..n]
  }

  function Elements(s: seq<EventId>): set<EventId> {
    set x | x in s
  }

  predicate NoDuplicates(s: seq<EventId>) {
    forall i, j :: 0 <= i < j < |s| ==> s[i] != s[j]
  }

  lemma {:induction false} ClaimableFacts(rows: seq<EventId>, marked: set<EventId>, locked: set<EventId>)
    ensures forall x :: x in Claimable(rows, marked, locked) <==> x in rows && x !in marked && x !in locked
    ensures NoDuplicates(rows) ==> NoDuplicates(Claimable(rows, marked, locked))
  {
    if rows != [] {
      ClaimableFacts(rows[1..], marked, locked);
      assert forall x :: x in rows <==> x == rows[0] || x in rows[1..];
    }
  }

  // ---------------------------------------------------------------- one forwarder

  datatype ForwardResult = Forwarded(count: nat) | ClaimFailed | InsertFailed

  class Forwarder {
    /** outbox_event ids in created_at order; those with enqueued_at set; the River job queue. */
    var rows: seq<EventId>
    var marked: set<EventId>
    var river: seq<EventId>
    const batchSize: nat

    constructor (rows: seq<EventId>, batchSize: nat)
      requires NoDuplicates(rows)
      ensures this.rows == rows && marked == {} && river == [] && this.batchSize == batchSize
    {
      this.rows := rows;
      marked := {};
      river := [];
      this.batchSize := batchSize;
    }

    /** listAndMarkPending: scan, collect at most n rows, mark, commit. A failed commit leaves nothing behind. */
    method ListAndMarkPending(n: nat, locked: set<EventId>, commitOk: bool) returns (events: Option<seq<EventId>>)
      modifies this`marked
      ensures var claim := Take(Claimable(rows, old(marked), locked), n);
        && events == (if claim == [] || commitOk then Some(claim) else None)
        && marked == (if commitOk then old(marked) + Elements(claim) else old(marked))
    {
      var collected: seq<EventId> := [];
      var i := 0;
      while i < |rows| && |collected| < n
        invariant 0 <= i <= |rows| && |collected| <= n
        invariant Claimable(rows, marked, locked) == collected + Claimable(rows[i..], marked, locked)
      {
        assert rows[i..][1..] == rows[i + 1..];
        if rows[i] !in marked && rows[i] !in locked {
          collected := collected + [rows[i]];
        }
        i := i + 1;
      }
      assert i == |rows| ==> rows[i..] == [];
      assert collected == Take(Claimable(rows, marked, locked), n);
      if collected == [] {
        assert marked + Elements(collected) == marked;
        return Some([]);
      }
      if !commitOk {
        return None;
      }
      marked := marked + Elements(collected);
      events := Some(collected);
    }

    /** forward: one claim, then one all-or-nothing InsertMany. */
    method Forward(locked: set<EventId>, commitOk: bool, insertOk: bool) returns (r: ForwardResult)
      modifies this`marked, this`river
      ensures var claim := Take(Claimable(rows, old(marked), locked), batchSize);
        && marked == (if commitOk then old(marked) + Elements(claim) else old(marked))
        && river == (if commitOk && insertOk then old(river) + claim else old(river))
        && r == (if claim == [] then Forwarded(0) else if !commitOk then ClaimFailed
                 else if insertOk then Forwarded(|claim|) else InsertFailed)
    {
      var events := ListAndMarkPending(batchSize, locked, commitOk);
      if events.None? {
        return ClaimFailed;
      }
      if |events.value| == 0 {
        return Forwarded(0);
      }
      var params := new EventId[|events.value|];
      for i := 0 to |events.value|
        invariant forall k :: 0 <= k < i ==> params[k] == events.value[k]
        modifies params
      {
        params[i] := events.value[i];
      }
      assert params[..] == events.value;
      if !insertOk {
        return InsertFailed;
      }
      river := river + params[..];
      r := Forwarded(|events.value|);
    }

    /** One undisturbed round: the oldest pending events go out, in order, and are pending no more. */
    method ForwardUndisturbed()
      requires NoDuplicates(rows)
      modifies this`marked, this`river
      ensures var before := Claimable(rows, old(marked), {});
        && river == old(river) + Take(before, batchSize)
        && Claimable(rows, marked, {}) == before[|Take(before, batchSize)|..]
    {
      ghost var before := Claimable(rows, marked, {});
      MarkingRemovesTheClaim(rows, marked, before, |Take(before, batchSize)|);
      assert before[..|Take(before, batchSize)|] == Take(before, batchSize);
      var r := Forward({}, true, true);
    }

    /** The polling loop while nothing fails and no other forwarder runs. */
    method ForwardRounds(rounds: nat)
      requires NoDuplicates(rows)
      modifies this`marked, this`river
      ensures var pending := Claimable(rows, old(marked), {});
        && river == old(river) + Take(pending, rounds * batchSize)
        && Claimable(rows, marked, {}) == pending[|Take(pending, rounds * batchSize)|..]
    {
      ghost var pending := Claimable(rows, marked, {});
      ghost var due := 0;
      assert Take(pending, 0) == [] && 0 * batchSize == 0;
      for k := 0 to rounds
        invariant due == k * batchSize
        invariant river == old(river) + Take(pending, due)
        invariant Claimable(rows, marked, {}) == pending[|Take(pending, due)|..]
      {
        TakeMore(pending, due, batchSize);
        ForwardUndisturbed();
        Regroup(old(river), Take(pending, due), Take(pending[|Take(pending, due)|..], batchSize));
        OneMoreRound(k, batchSize);
        due := due + batchSize;
      }
    }
  }

  lemma OneMoreRound(k: nat, batch: nat)
    ensures (k + 1) * batch == k * batch + batch
  {
  }

  lemma TakeMore(s: seq<EventId>, n: nat, m: nat)
    ensures var rest := s[|Take(s, n)|..];
      && Take(s, n + m) == Take(s, n) + Take(rest, m)
      && s[|Take(s, n + m)|..] == rest[|Take(rest, m)|..]
  {
  }

  /** Marking the first n claimable rows leaves the others claimable, in order. */
  lemma {:induction false} MarkingRemovesTheClaim(rows: seq<EventId>, marked: set<EventId>, claim: seq<EventId>, n: nat)
    requires NoDuplicates(rows) && claim == Claimable(rows, marked, {}) && n <= |claim|
    ensures Claimable(rows, marked + Elements(claim[..n]), {}) == claim[n..]
    decreases |rows|
  {
    if rows != [] {
      var rest := Claimable(rows[1..], marked, {});
      ClaimableFacts(rows[1..], marked, {});
      if rows[0] in marked || n == 0 {
        MarkingRemovesTheClaim(rows[1..], marked, rest, n);
        if n == 0 {
          assert marked + Elements(claim[..0]) == marked;
        }
      } else {
        MarkingRemovesTheClaim(rows[1..], marked, rest, n - 1);
        assert claim[..n] == [rows[0]] + rest[..n - 1];
        SameClaimWithout(rows[1..], marked + Elements(rest[..n - 1]), rows[0]);
        assert marked + Elements(claim[..n]) == marked + Elements(rest[..n - 1]) + {rows[0]};
        assert claim[n..] == rest[n - 1..];
      }
    }
  }

  lemma {:induction false} SameClaimWithout(rows: seq<EventId>, marked: set<EventId>, x: EventId)
    requires x !in rows
    ensures Claimable(rows, marked + {x}, {}) == Claimable(rows, marked, {})
    decreases |rows|
  {
    if rows != [] {
      SameClaimWithout(rows[1..], marked, x);
    }
  }

  /** Main result: fault free, n pending events take ⌈n / batch⌉ rounds and not one fewer. */
  lemma RoundsToDrain(pending: seq<EventId>, rounds: nat, batch: nat)
    requires batch > 0
    ensures Take(pending, rounds * batch) == pending <==> rounds >= (|pending| + batch - 1) / batch
  {
    var q := (|pending| + batch - 1) / batch;
    DivMod(|pending| + batch - 1, batch);
    if rounds >= q {
      MulMonotone(q, rounds, batch);
    } else {
      MulMonotone(rounds + 1, q, batch);
      assert (rounds + 1) * batch == rounds * batch + batch;
    }
  }

  lemma DivMod(x: nat, d: nat)
    requires d > 0
    ensures (x / d) * d <= x < (x / d) * d + d
  {
  }

  lemma MulMonotone(a: nat, b: nat, d: nat)
    requires a <= b
    ensures a * d <= b * d
  {
  }

  // ---------------------------------------------------------------- many forwarders

  datatype Phase =
    | Idle
    | Claimed(batch: seq<EventId>)  // transaction open: the rows are locked, not yet marked
    | InHand(batch: seq<EventId>)   // mark committed, jobs not yet inserted

  datatype System = System(
    rows: seq<EventId>,
    marked: set<EventId>,
    workers: map<WorkerId, Phase>,
    river: seq<EventId>,
    dropped: seq<EventId>)

  datatype Action =
    | Emit(id: EventId, position: nat)  // commits need not follow created_at order
    | Start(w: WorkerId)
    | Claim(w: WorkerId, limit: nat)
    | Commit(w: WorkerId)
    | Abort(w: WorkerId)
    | Insert(w: WorkerId, ok: bool)
    | Crash(w: WorkerId)

  function Locked(s: System): set<EventId> {
    set w, x | w in s.workers && s.workers[w].Claimed? && x in s.workers[w].batch :: x
  }

  function Next(s: System, a: Action): System {
    match a
    case Emit(id, position) =>
      if id in s.rows || position > |s.rows| then s
      else s.(rows := s.rows[..position] + [id] + s.rows[position..])
    case Start(w) => if w in s.workers then s else s.(workers := s.workers[w := Idle])
    case Claim(w, limit) =>
      if w !in s.workers || s.workers[w] != Idle then s
      else s.(workers := s.workers[w := Claimed(Take(Claimable(s.rows, s.marked, Locked(s)), limit))])
    case Commit(w) =>
      if w !in s.workers || !s.workers[w].Claimed? then s
      else
        var batch := s.workers[w].batch;
        s.(marked := s.marked + Elements(batch), workers := s.workers[w := InHand(batch)])
    case Abort(w) =>
      if w !in s.workers || !s.workers[w].Claimed? then s else s.(workers := s.workers[w := Idle])
    case Insert(w, ok) =>
      if w !in s.workers || !s.workers[w].InHand? then s
      else
        var batch := s.workers[w].batch;
        s.(workers := s.workers[w := Idle],
           river := if ok then s.river + batch else s.river,
           dropped := if ok then s.dropped else s.dropped + batch)
    case Crash(w) =>
      if w !in s.workers then s
      else s.(workers := s.workers - {w},
              dropped := if s.workers[w].InHand? then s.dropped + s.workers[w].batch else s.dropped)
  }

  function Init(): System {
    System([], {}, map[], [], [])
  }

  function Run(s: System, actions: seq<Action>): System
    decreases |actions|
  {
    if actions == [] then s else Next(Run(s, actions[..|actions| - 1]), actions[|actions| - 1])
  }

  function Batch(phase: Phase): seq<EventId> {
    if phase.Idle? then [] else phase.batch
  }

  ghost predicate Holds(s: System, w: WorkerId, x: EventId) {
    w in s.workers && s.workers[w].InHand? && x in s.workers[w].batch
  }

  ghost predicate BatchesDisjoint(s: System) {
    forall v, w, x :: v in s.workers && w in s.workers && x in Batch(s.workers[v]) && x in Batch(s.workers[w])
      ==> v == w
  }

  /** Claimed events are unmarked rows; every marked event is in hand, enqueued or dropped, in one place, once. */
  ghost predicate Inv(s: System) {
    && NoDuplicates(s.rows)
    && (forall x :: x in s.marked ==> x in s.rows)
    && BatchesDisjoint(s)
    && (forall w :: w in s.workers ==> NoDuplicates(Batch(s.workers[w])))
    && (forall w, x :: w in s.workers && s.workers[w].Claimed? && x in s.workers[w].batch
          ==> x in s.rows && x !in s.marked)
    && NoDuplicates(s.river) && NoDuplicates(s.dropped)
    && (forall x :: x in s.marked <==> x in s.river || x in s.dropped || exists w :: Holds(s, w, x))
    && (forall x :: x in s.river ==> x !in s.dropped && forall w :: !Holds(s, w, x))
    && (forall x :: x in s.dropped ==> forall w :: !Holds(s, w, x))
  }

  lemma EmitKeepsInv(s: System, id: EventId, position: nat)
    requires Inv(s) && id !in s.rows && position <= |s.rows|
    ensures Inv(Next(s, Emit(id, position)))
  {
    var s' := Next(s, Emit(id, position));
    forall x ensures x in s'.rows <==> x == id || x in s.rows {
      if x in s.rows {
        var i :| 0 <= i < |s.rows| && s.rows[i] == x;
        assert s'.rows[if i < position then i else i + 1] == x;
      }
      assert s'.rows[position] == id;
    }
    assert forall w, x :: Holds(s', w, x) <==> Holds(s, w, x);
  }

  lemma ClaimKeepsInv(s: System, w: WorkerId, limit: nat)
    requires Inv(s) && w in s.workers && s.workers[w] == Idle
    ensures Inv(Next(s, Claim(w, limit)))
  {
    var s' := Next(s, Claim(w, limit));
    var claimable := Claimable(s.rows, s.marked, Locked(s));
    ClaimableFacts(s.rows, s.marked, Locked(s));
    var batch := s'.workers[w].batch;
    assert forall x :: x in batch ==> x in claimable;
    assert forall v, x :: Holds(s', v, x) <==> Holds(s, v, x);
    forall v, x | v in s.workers && v != w && x in Batch(s.workers[v]) ensures x !in batch {
      if s.workers[v].InHand? {
        assert Holds(s, v, x);
      } else {
        assert x in Locked(s);
      }
    }
  }

  lemma CommitKeepsInv(s: System, w: WorkerId)
    requires Inv(s) && w in s.workers && s.workers[w].Claimed?
    ensures Inv(Next(s, Commit(w)))
  {
    var s' := Next(s, Commit(w));
    var batch := s.workers[w].batch;
    assert forall v, x :: Holds(s', v, x) <==> Holds(s, v, x) || (v == w && x in batch);
    forall x | x in batch ensures x !in s.river && x !in s.dropped && Holds(s', w, x) {
      assert x !in s.marked;
    }
    forall x ensures x in s'.marked <==> x in s'.river || x in s'.dropped || exists v :: Holds(s', v, x) {
      if v :| Holds(s, v, x) {
        assert Holds(s', v, x);
      }
    }
    forall v, x | v in s.workers && v != w && s.workers[v].Claimed? && x in s.workers[v].batch ensures x !in s'.marked {
      assert x in Batch(s.workers[v]);
    }
  }

  /** A worker lets go of a batch that moves, whole, to `to`: the river or the dropped list. */
  lemma HandOverKeepsInv(s: System, w: WorkerId, ok: bool, gone: bool)
    requires Inv(s) && w in s.workers && s.workers[w].InHand?
    ensures var batch := s.workers[w].batch;
      Inv(s.(workers := if gone then s.workers - {w} else s.workers[w := Idle],
             river := if ok then s.river + batch else s.river,
             dropped := if ok then s.dropped else s.dropped + batch))
  {
    var batch := s.workers[w].batch;
    var s' := s.(workers := if gone then s.workers - {w} else s.workers[w := Idle],
                 river := if ok then s.river + batch else s.river,
                 dropped := if ok then s.dropped else s.dropped + batch);
    forall v, x ensures Holds(s', v, x) <==> Holds(s, v, x) && v != w {
    }
    forall x | x in batch ensures x in s.marked && x !in s.river && x !in s.dropped && forall v :: !Holds(s', v, x) {
      assert Holds(s, w, x);
      forall v | Holds(s, v, x) ensures v == w {
        assert x in Batch(s.workers[v]) && x in Batch(s.workers[w]);
      }
    }
    AppendDistinct(s.river, batch);
    AppendDistinct(s.dropped, batch);
    forall x ensures x in s'.marked <==> x in s'.river || x in s'.dropped || exists v :: Holds(s', v, x) {
      if v :| Holds(s, v, x) {
        assert if v == w then x in batch else Holds(s', v, x);
      }
    }
    assert BatchesDisjoint(s');
  }

  lemma AppendDistinct(s: seq<EventId>, t: seq<EventId>)
    requires NoDuplicates(s) && NoDuplicates(t) && forall x :: x in t ==> x !in s
    ensures NoDuplicates(s + t)
    ensures forall x :: x in s + t <==> x in s || x in t
  {
    forall i, j | 0 <= i < j < |s + t| ensures (s + t)[i] != (s + t)[j] {
      if i < |s| <= j {
        assert t[j - |s|] in t && s[i] in s;
      }
    }
  }

  lemma ReleaseKeepsInv(s: System, w: WorkerId, workers: map<WorkerId, Phase>)
    requires Inv(s) && (w in s.workers ==> !s.workers[w].InHand?)
    requires workers == s.workers[w := Idle] || workers == s.workers - {w}
    ensures Inv(s.(workers := workers))
  {
    var s' := s.(workers := workers);
    assert forall v, x :: Holds(s', v, x) <==> Holds(s, v, x);
  }

  lemma NextKeepsInv(s: System, a: Action)
    requires Inv(s)
    ensures Inv(Next(s, a))
  {
    match a
    case Emit(id, position) =>
      if id !in s.rows && position <= |s.rows| {
        EmitKeepsInv(s, id, position);
      }
    case Start(w) =>
      if w !in s.workers {
        ReleaseKeepsInv(s, w, s.workers[w := Idle]);
      }
    case Claim(w, limit) =>
      if w in s.workers && s.workers[w] == Idle {
        ClaimKeepsInv(s, w, limit);
      }
    case Commit(w) =>
      if w in s.workers && s.workers[w].Claimed? {
        CommitKeepsInv(s, w);
      }
    case Abort(w) =>
      if w in s.workers && s.workers[w].Claimed? {
        ReleaseKeepsInv(s, w, s.workers[w := Idle]);
      }
    case Insert(w, ok) =>
      if w in s.workers && s.workers[w].InHand? {
        HandOverKeepsInv(s, w, ok, false);
      }
    case Crash(w) =>
      if w in s.workers {
        if s.workers[w].InHand? {
          HandOverKeepsInv(s, w, false, true);
        } else {
          ReleaseKeepsInv(s, w, s.workers - {w});
        }
      }
  }

  /**
   Main result: after any steps of any forwarders, no event is enqueued twice and every marked event is
   in exactly one place.
   */
  lemma {:induction false} EveryRunKeepsInv(actions: seq<Action>)
    ensures Inv(Run(Init(), actions))
    decreases |actions|
  {
    if actions == [] {
      assert forall w, x :: !Holds(Init(), w, x);
    } else {
      EveryRunKeepsInv(actions[..|actions| - 1]);
      NextKeepsInv(Run(Init(), actions[..|actions| - 1]), actions[|actions| - 1]);
    }
  }

  /** The steps that lose events: a crash, or a failed insert, after the mark has been committed. */
  predicate Loses(s: System, a: Action) {
    match a
    case Insert(w, ok) => !ok && w in s.workers && s.workers[w].InHand? && s.workers[w].batch != []
    case Crash(w) => w in s.workers && s.workers[w].InHand? && s.workers[w].batch != []
    case _ => false
  }

  predicate NeverLoses(actions: seq<Action>)
    decreases |actions|
  {
    actions == [] ||
    (NeverLoses(actions[..|actions| - 1]) && !Loses(Run(Init(), actions[..|actions| - 1]), actions[|actions| - 1]))
  }

  lemma {:induction false} RecordedAsDropped(actions: seq<Action>)
    ensures Run(Init(), actions).dropped == [] <==> NeverLoses(actions)
    decreases |actions|
  {
    if actions != [] {
      RecordedAsDropped(actions[..|actions| - 1]);
    }
  }

  /** Marked in the table, so never claimed again, yet neither in the job queue nor in any forwarder's hands. */
  ghost predicate Lost(s: System, x: EventId) {
    x in s.marked && x !in s.river && forall w :: !Holds(s, w, x)
  }

  /**
   Main result, exact: some event is lost, by the tables and the forwarders alone, if and only if some
   step crashed or failed to insert after its mark was committed. The promised at-least-once does not hold.
   */
  lemma DropsExactly(actions: seq<Action>)
    ensures (exists x :: Lost(Run(Init(), actions), x)) <==> !NeverLoses(actions)
  {
    var s := Run(Init(), actions);
    EveryRunKeepsInv(actions);
    RecordedAsDropped(actions);
    if s.dropped != [] {
      assert s.dropped[0] in s.dropped;
      assert Lost(s, s.dropped[0]);
    }
    if x :| Lost(s, x) {
      assert x in s.dropped;
    }
  }

  /** Main result: a lost event stays lost; no later run of any forwarders enqueues it or picks it up. */
  lemma LostForGood(before: seq<Action>, after: seq<Action>, x: EventId)
    requires Lost(Run(Init(), before), x)
    ensures Lost(Run(Init(), before + after), x)
  {
    EveryRunKeepsInv(before);
    assert x in Run(Init(), before).dropped;
    DroppedStaysDropped(before, after, x);
    EveryRunKeepsInv(before + after);
  }

  /** A dropped event stays marked and is never enqueued by any later run. */
  lemma {:induction false} DroppedStaysDropped(before: seq<Action>, after: seq<Action>, x: EventId)
    requires x in Run(Init(), before).dropped
    ensures x in Run(Init(), before + after).dropped && x !in Run(Init(), before + after).river
    decreases |after|
  {
    var all := before + after;
    if after == [] {
      assert all == before;
    } else {
      assert all[..|all| - 1] == before + after[..|after| - 1];
      DroppedStaysDropped(before, after[..|after| - 1], x);
    }
    EveryRunKeepsInv(all);
  }

  /** When all workers are idle or gone and nothing was lost, the marked events are exactly the enqueued ones. */
  lemma QuietMeansDelivered(actions: seq<Action>)
    requires NeverLoses(actions)
    requires forall w :: w in Run(Init(), actions).workers ==> !Run(Init(), actions).workers[w].InHand?
    ensures Elements(Run(Init(), actions).river) == Run(Init(), actions).marked
  {
    EveryRunKeepsInv(actions);
    RecordedAsDropped(actions);
    var s := Run(Init(), actions);
    assert forall w, x :: !Holds(s, w, x);
  }
}
