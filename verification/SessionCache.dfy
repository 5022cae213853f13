/**
 The session cache (backend/internal/auth/cache.go): a map from token hash to list element, and a
 list kept in order of use, bounded in length and in age.

 The class keeps both structures, as the source does, and is proved against a plain sequence of
 items, least recently used first. The lemmas then speak about whole histories of calls.
 */
module SessionCache {
  import opened Core

  type Principal = nat

  datatype Item = Item(hash: string, principal: Principal, at: Time)

  // ---------------------------------------------------------------- the sequence specification

  function Find(c: seq<Item>, hash: string): (r: Option<nat>)
    ensures r.Some? ==> r.value < |c| && c[r.value].hash == hash
    ensures r.None? ==> forall k :: 0 <= k < |c| ==> c[k].hash != hash
    decreases |c|
  {
    if c == [] then None
    else if c[|c| - 1].hash == hash then Some(|c| - 1)
    else Find(c[..|c| - 1], hash)
  }

  function Without<T>(c: seq<T>, k: nat): seq<T>
    requires k < |c|
  {
    c[..k] + c[k + 1..]
  }

  lemma WithoutElements<T>(c: seq<T>, k: nat)
    requires k < |c|
    ensures |Without(c, k)| == |c| - 1
    ensures forall i :: 0 <= i < |c| - 1 ==> Without(c, k)[i] == c[if i < k then i else i + 1]
    ensures forall i :: 0 <= i < |c| && i != k ==> c[i] in Without(c, k)
    ensures forall x :: x in Without(c, k) ==> x in c
  {
    forall i | 0 <= i < |c| && i != k ensures c[i] in Without(c, k) {
      assert c[i] == Without(c, k)[if i < k then i else i - 1];
    }
  }

  lemma WithoutFirst<T>(c: seq<T>)
    requires c != []
    ensures Without(c, 0) == c[1..]
    ensures forall x :: x in c[1..] ==> x in c
  {
  }

  function GetSpec(c: seq<Item>, ttl: int, hash: string, now: Time): (seq<Item>, Option<Principal>) {
    match Find(c, hash)
    case None => (c, None)
    case Some(k) =>
      if now - c[k].at > ttl then (Without(c, k), None)
      else (Without(c, k) + [c[k]], Some(c[k].principal))
  }

  function SetSpec(c: seq<Item>, cap: int, hash: string, p: Principal, now: Time): seq<Item> {
    match Find(c, hash)
    case Some(k) => Without(c, k) + [Item(hash, p, now)]
    case None => (if |c| >= cap && c != [] then c[1..] else c) + [Item(hash, p, now)]
  }

  function DeleteSpec(c: seq<Item>, hash: string): seq<Item> {
    match Find(c, hash)
    case None => c
    case Some(k) => Without(c, k)
  }

  predicate Distinct(c: seq<Item>) {
    forall j, k :: 0 <= j < k < |c| ==> c[j].hash != c[k].hash
  }

  // ---------------------------------------------------------------- the cache

  class CacheEntry {
    const hash: string
    var principal: Principal
    var insertedAt: Time

    constructor (hash: string, principal: Principal, insertedAt: Time)
      ensures this.hash == hash && this.principal == principal && this.insertedAt == insertedAt
    {
      this.hash := hash;
      this.principal := principal;
      this.insertedAt := insertedAt;
    }

    function AsItem(): Item
      reads this
    {
      Item(hash, principal, insertedAt)
    }
  }

  class SessionCache {
    var entries: map<string, CacheEntry>
    var order: seq<CacheEntry>
    const cap: int
    const ttl: int

    constructor (cap: int, ttl: int)
      ensures Valid() && Items() == [] && this.cap == cap && this.ttl == ttl
    {
      entries := map[];
      order := [];
      this.cap := cap;
      this.ttl := ttl;
    }

    /** Map and list hold the same elements, one list node per key. */
    ghost predicate Valid()
      reads this
    {
      Paired(entries, order) && |order| <= if cap >= 1 then cap else 1
    }

    ghost function Items(): seq<Item>
      reads this, order
    {
      ItemsOf(order)
    }

    /** The map finds the same element as a search of the list by hash. */
    lemma FindByHash(hash: string)
      requires Valid()
      ensures hash in entries <==> Find(Items(), hash).Some?
      ensures hash in entries ==> Find(Items(), hash) == Some(Position(order, entries[hash]))
    {
      var r := Find(Items(), hash);
      if r.Some? {
        assert order[r.value].hash == hash;
      }
      if hash in entries {
        var k := Position(order, entries[hash]);
        assert Items()[k].hash == hash;
      }
    }

    /** list.MoveToBack. */
    method MoveToBack(k: nat)
      requires Valid() && k < |order|
      modifies this`order
      ensures Valid()
      ensures order == Without(old(order), k) + [old(order)[k]]
    {
      MovedStaysPaired(entries, order, k);
      order := order[..k] + order[k + 1..] + [order[k]];
    }

    /** list.Remove together with the map deletion. */
    method Remove(k: nat)
      requires Valid() && k < |order|
      modifies this`order, this`entries
      ensures Valid()
      ensures order == Without(old(order), k) && entries == old(entries) - {old(order)[k].hash}
    {
      RemovedStaysPaired(entries, order, k);
      entries := entries - {order[k].hash};
      order := order[..k] + order[k + 1..];
    }

    method Get(hash: string, now: Time) returns (r: Option<Principal>)
      requires Valid()
      modifies this
      ensures Valid()
      ensures forall e :: e in order ==> e in old(order)
      ensures (Items(), r) == GetSpec(old(Items()), ttl, hash, now)
    {
      FindByHash(hash);
      if hash !in entries {
        return None;
      }
      ghost var was, items := order, Items();
      var el := entries[hash];
      var k := Position(order, el);
      ItemsOfWithout(order, k);
      WithoutElements(order, k);
      if now - el.insertedAt > ttl {
        Remove(k);
        assert ItemsOf(Without(was, k)) == Without(items, k);
        return None;
      }
      ItemsOfAppend(Without(order, k), el);
      MoveToBack(k);
      assert ItemsOf(Without(was, k) + [el]) == Without(items, k) + [items[k]];
      r := Some(el.principal);
    }

    method Set(hash: string, p: Principal, now: Time)
      requires Valid()
      modifies this, order
      ensures Valid()
      ensures forall e :: e in order ==> e in old(order) || fresh(e)
      ensures Items() == SetSpec(old(Items()), cap, hash, p, now)
    {
      FindByHash(hash);
      if hash in entries {
        Refresh(hash, p, now);
      } else {
        EvictIfFull();
        Push(hash, p, now);
      }
    }

    /** Room for a new entry: at capacity, the front of the list goes. */
    method EvictIfFull()
      requires Valid()
      modifies this`order, this`entries
      ensures Valid() && (|order| < cap || order == [])
      ensures entries.Keys <= old(entries.Keys)
      ensures forall e :: e in order ==> e in old(order)
      ensures Items() == if |old(order)| >= cap && old(order) != [] then old(Items())[1..] else old(Items())
    {
      if |order| >= cap {
        if order != [] {
          EvictFront();
        }
      }
    }

    method EvictFront()
      requires Valid() && order != []
      modifies this`order, this`entries
      ensures Valid() && order == old(order)[1..]
      ensures entries.Keys <= old(entries.Keys)
      ensures Items() == old(Items())[1..]
    {
      WithoutFirst(order);
      ItemsOfRest(order);
      Remove(0);
    }

    /** The branch of set for a hash already cached: moved to the back, value and age renewed. */
    method Refresh(hash: string, p: Principal, now: Time)
      requires Valid() && hash in entries
      modifies this, entries[hash]
      ensures Valid()
      ensures forall e :: e in order ==> e in old(order)
      ensures var k := Position(old(order), old(entries[hash]));
        Items() == Without(old(Items()), k) + [Item(hash, p, now)]
    {
      var el := entries[hash];
      var k := Position(order, el);
      ghost var rest, items := Without(order, k), Items();
      WithoutElements(order, k);
      ItemsOfWithout(order, k);
      assert el !in rest;
      MoveToBack(k);
      assert ItemsOf(rest) == Without(items, k);
      el.principal := p;
      el.insertedAt := now;
      assert ItemsOf(rest) == Without(items, k);
      ItemsOfAppend(rest, el);
    }

    /** list.PushBack of a new entry and its map key. */
    method Push(hash: string, p: Principal, now: Time)
      requires Valid() && hash !in entries && (|order| < cap || order == [])
      modifies this
      ensures Valid()
      ensures forall e :: e in order ==> e in old(order) || fresh(e)
      ensures Items() == old(Items()) + [Item(hash, p, now)]
    {
      ghost var was, items := order, Items();
      var entry := new CacheEntry(hash, p, now);
      assert ItemsOf(was) == items;
      ItemsOfAppend(was, entry);
      order := order + [entry];
      entries := entries[hash := entry];
      assert ItemsOf(was + [entry]) == items + [Item(hash, p, now)];
    }

    method Delete(hash: string)
      requires Valid()
      modifies this
      ensures Valid()
      ensures forall e :: e in order ==> e in old(order)
      ensures Items() == DeleteSpec(old(Items()), hash)
    {
      FindByHash(hash);
      if hash in entries {
        ghost var was, items := order, Items();
        var k := Position(order, entries[hash]);
        ItemsOfWithout(order, k);
        WithoutElements(order, k);
        Remove(k);
        assert ItemsOf(Without(was, k)) == Without(items, k);
      }
    }
  }

  ghost function ItemsOf(order: seq<CacheEntry>): (c: seq<Item>)
    reads order
    ensures |c| == |order| && forall k :: 0 <= k < |c| ==> c[k] == order[k].AsItem()
  {
    seq(|order|, k reads order requires 0 <= k < |order| => order[k].AsItem())
  }

  lemma ItemsOfWithout(order: seq<CacheEntry>, k: nat)
    requires k < |order|
    ensures ItemsOf(Without(order, k)) == Without(ItemsOf(order), k)
  {
    WithoutElements(order, k);
    WithoutElements(ItemsOf(order), k);
  }

  lemma ItemsOfRest(order: seq<CacheEntry>)
    requires order != []
    ensures ItemsOf(order[1..]) == ItemsOf(order)[1..]
  {
  }

  /** One list node per key, and each the element its key maps to. An element's hash never changes. */
  ghost predicate Paired(entries: map<string, CacheEntry>, order: seq<CacheEntry>) {
    && (forall k :: 0 <= k < |order| ==> order[k].hash in entries && entries[order[k].hash] == order[k])
    && (forall h :: h in entries ==> entries[h].hash == h && entries[h] in order)
    && (forall j, k :: 0 <= j < k < |order| ==> order[j] != order[k])
  }

  lemma MovedStaysPaired(entries: map<string, CacheEntry>, order: seq<CacheEntry>, k: nat)
    requires Paired(entries, order) && k < |order|
    ensures Paired(entries, Without(order, k) + [order[k]]) && |Without(order, k)| == |order| - 1
  {
    WithoutElements(order, k);
    var rest := Without(order, k);
    forall h | h in entries ensures entries[h] in rest + [order[k]] {
      var i :| 0 <= i < |order| && order[i] == entries[h];
    }
    assert order[k] !in rest;
  }

  lemma RemovedStaysPaired(entries: map<string, CacheEntry>, order: seq<CacheEntry>, k: nat)
    requires Paired(entries, order) && k < |order|
    ensures Paired(entries - {order[k].hash}, Without(order, k)) && |Without(order, k)| == |order| - 1
  {
    WithoutElements(order, k);
    forall i | 0 <= i < |order| && i != k ensures order[i].hash != order[k].hash {
      assert entries[order[i].hash] == order[i];
    }
    forall h | h in entries && h != order[k].hash ensures entries[h] in Without(order, k) {
      var i :| 0 <= i < |order| && order[i] == entries[h];
    }
  }

  lemma ItemsOfAppend(order: seq<CacheEntry>, e: CacheEntry)
    ensures ItemsOf(order + [e]) == ItemsOf(order) + [e.AsItem()]
  {
  }

  /** Where the list holds an element (a list.Element knows its own place). */
  function Position(order: seq<CacheEntry>, el: CacheEntry): (k: nat)
    requires el in order
    ensures k < |order| && order[k] == el
    decreases |order|
  {
    if order[|order| - 1] == el then |order| - 1 else Position(order[..|order| - 1], el)
  }

  // ---------------------------------------------------------------- histories

  datatype Op = Get(hash: string) | Set(hash: string, principal: Principal) | Delete(hash: string)

  type History = seq<(Op, Time)>

  function Step(c: seq<Item>, cap: int, ttl: int, op: Op, now: Time): seq<Item> {
    match op
    case Get(hash) => GetSpec(c, ttl, hash, now).0
    case Set(hash, p) => SetSpec(c, cap, hash, p, now)
    case Delete(hash) => DeleteSpec(c, hash)
  }

  function Run(cap: int, ttl: int, ops: History): seq<Item>
    decreases |ops|
  {
    if ops == [] then []
    else Step(Run(cap, ttl, ops[..|ops| - 1]), cap, ttl, ops[|ops| - 1].0, ops[|ops| - 1].1)
  }

  predicate Monotone(ops: History) {
    forall j, k :: 0 <= j < k < |ops| ==> ops[j].1 <= ops[k].1
  }

  /** What the history last stored under a hash: the latest Set with no later Delete. Never forgets, never expires. */
  function Stored(ops: History, hash: string): Option<(Principal, Time)>
    decreases |ops|
  {
    if ops == [] then None
    else match ops[|ops| - 1].0
      case Set(h, p) => if h == hash then Some((p, ops[|ops| - 1].1)) else Stored(ops[..|ops| - 1], hash)
      case Delete(h) => if h == hash then None else Stored(ops[..|ops| - 1], hash)
      case Get(_) => Stored(ops[..|ops| - 1], hash)
  }

  predicate Hit(cap: int, ttl: int, ops: History, hash: string, now: Time) {
    GetSpec(Run(cap, ttl, ops), ttl, hash, now).1.Some?
  }

  /** The hash an operation uses, after the given history: a Set always, a Get when it hits. */
  function Uses(cap: int, ttl: int, before: History, op: Op, now: Time): Option<string> {
    match op
    case Set(h, _) => Some(h)
    case Get(h) => if Hit(cap, ttl, before, h, now) then Some(h) else None
    case Delete(_) => None
  }

  /** The other hashes used since `hash` was last used. */
  function OthersSince(cap: int, ttl: int, ops: History, hash: string): set<string>
    decreases |ops|
  {
    if ops == [] then {}
    else
      var init := ops[..|ops| - 1];
      match Uses(cap, ttl, init, ops[|ops| - 1].0, ops[|ops| - 1].1)
      case None => OthersSince(cap, ttl, init, hash)
      case Some(h) => if h == hash then {} else OthersSince(cap, ttl, init, hash) + {h}
  }

  lemma WithoutStaysDistinct(c: seq<Item>, k: nat, at: Time, p: Principal)
    requires Distinct(c) && k < |c|
    ensures Distinct(Without(c, k)) && Distinct(Without(c, k) + [Item(c[k].hash, p, at)])
  {
    WithoutElements(c, k);
  }

  lemma StepStaysDistinct(c: seq<Item>, cap: int, ttl: int, op: Op, now: Time)
    requires Distinct(c)
    ensures Distinct(Step(c, cap, ttl, op, now))
  {
    var r := Find(c, op.hash);
    if r.Some? {
      var k := r.value;
      WithoutStaysDistinct(c, k, c[k].at, c[k].principal);
      if op.Set? {
        WithoutStaysDistinct(c, k, now, op.principal);
      }
    }
  }

  lemma StepStaysBounded(c: seq<Item>, cap: int, ttl: int, op: Op, now: Time)
    requires |c| <= if cap >= 1 then cap else 1
    ensures |Step(c, cap, ttl, op, now)| <= if cap >= 1 then cap else 1
  {
  }

  /** Keys are distinct and the length never exceeds the capacity (one, for a capacity below one). */
  lemma {:induction false} RunIsDistinctAndBounded(cap: int, ttl: int, ops: History)
    ensures Distinct(Run(cap, ttl, ops))
    ensures |Run(cap, ttl, ops)| <= if cap >= 1 then cap else 1
    decreases |ops|
  {
    if ops != [] {
      var c, op, now := Run(cap, ttl, ops[..|ops| - 1]), ops[|ops| - 1].0, ops[|ops| - 1].1;
      RunIsDistinctAndBounded(cap, ttl, ops[..|ops| - 1]);
      StepStaysDistinct(c, cap, ttl, op, now);
      StepStaysBounded(c, cap, ttl, op, now);
    }
  }

  /** Every cached item is what the history last stored under its hash. */
  lemma {:induction false} CachedIsStored(cap: int, ttl: int, ops: History)
    ensures forall k :: 0 <= k < |Run(cap, ttl, ops)| ==>
      var i := Run(cap, ttl, ops)[k]; Stored(ops, i.hash) == Some((i.principal, i.at))
    decreases |ops|
  {
    if ops != [] {
      var init, c := ops[..|ops| - 1], Run(cap, ttl, ops[..|ops| - 1]);
      CachedIsStored(cap, ttl, init);
      RunIsDistinctAndBounded(cap, ttl, init);
      var c' := Run(cap, ttl, ops);
      forall k | 0 <= k < |c'| ensures Stored(ops, c'[k].hash) == Some((c'[k].principal, c'[k].at)) {
        StepItems(c, cap, ttl, ops[|ops| - 1].0, ops[|ops| - 1].1, c'[k]);
      }
    }
  }

  /** An item after an operation is an older one the operation left alone, or the one it wrote. */
  lemma StepItems(c: seq<Item>, cap: int, ttl: int, op: Op, now: Time, i: Item)
    requires Distinct(c) && i in Step(c, cap, ttl, op, now)
    ensures (i in c && (op.Get? || i.hash != op.hash)) || (op.Set? && i == Item(op.hash, op.principal, now))
  {
    var r := Find(c, op.hash);
    if r.Some? {
      WithoutElements(c, r.value);
    }
  }

  /** Main result: a hit returns the principal of the latest Set with no later Delete, at most ttl old. */
  lemma HitReturnsLatest(cap: int, ttl: int, ops: History, hash: string, now: Time)
    requires Hit(cap, ttl, ops, hash, now)
    ensures Stored(ops, hash).Some?
    ensures GetSpec(Run(cap, ttl, ops), ttl, hash, now).1 == Some(Stored(ops, hash).value.0)
    ensures now - Stored(ops, hash).value.1 <= ttl
  {
    CachedIsStored(cap, ttl, ops);
  }

  /** `Stored`, read off the history itself. */
  lemma {:induction false} StoredIsLatestSet(ops: History, hash: string, p: Principal, t: Time)
    ensures Stored(ops, hash) == Some((p, t)) <==>
      exists i: nat :: LatestSet(ops, hash, i, p, t)
    decreases |ops|
  {
    if ops != [] {
      var n := |ops| - 1;
      var init := ops[..n];
      StoredIsLatestSet(init, hash, p, t);
      if i: nat :| LatestSet(init, hash, i, p, t) && !Changes(ops[n].0, hash) {
        assert LatestSet(ops, hash, i, p, t);
      }
      if ops[n] == (Set(hash, p), t) {
        assert LatestSet(ops, hash, n, p, t);
      }
      if i: nat :| LatestSet(ops, hash, i, p, t) && i < n {
        assert LatestSet(init, hash, i, p, t);
      }
    }
  }

  predicate Changes(op: Op, hash: string) {
    op.hash == hash && !op.Get?
  }

  predicate LatestSet(ops: History, hash: string, i: nat, p: Principal, t: Time) {
    i < |ops| && ops[i] == (Set(hash, p), t) && forall j :: i < j < |ops| ==> !Changes(ops[j].0, hash)
  }

  /**
   Two items after an operation were two items before it, in the same order and with the front one
   unused, or the hinder one is the item the operation just used.
   */
  lemma StepOrder(c: seq<Item>, cap: int, ttl: int, op: Op, now: Time, j: nat, k: nat) returns (j': nat, k': nat)
    requires Distinct(c) && j < k < |Step(c, cap, ttl, op, now)|
    ensures var c' := Step(c, cap, ttl, op, now);
      || (j' < k' < |c| && c'[j].hash == c[j'].hash && c'[k].hash == c[k'].hash && (c'[j].hash != op.hash || c' == c))
      || (k == |c'| - 1 && c'[k].hash == op.hash && c'[j].hash != op.hash
          && (op.Set? || GetSpec(c, ttl, op.hash, now).1.Some?))
  {
    var r := Find(c, op.hash);
    if r.Some? {
      StepWhenPresent(c, cap, ttl, op, now);
      j', k' := OrderWithout(c, Step(c, cap, ttl, op, now), r.value, j, k);
    } else {
      var evicted := StepWhenAbsent(c, cap, ttl, op, now);
      j', k' := OrderBehind(c, Step(c, cap, ttl, op, now), op.hash, evicted, j, k);
    }
  }

  /** The front ones gone and at most one new item behind the rest. */
  lemma OrderBehind(c: seq<Item>, c': seq<Item>, hash: string, evicted: nat, j: nat, k: nat)
    returns (j': nat, k': nat)
    requires j < k < |c'| && evicted <= |c| && c[evicted..] <= c' && forall i :: 0 <= i < |c| ==> c[i].hash != hash
    requires (c' == c && evicted == 0) || (|c'| == |c| - evicted + 1 && c'[|c'| - 1].hash == hash)
    ensures c'[j].hash != hash
    ensures (j' < k' < |c| && c'[j].hash == c[j'].hash && c'[k].hash == c[k'].hash)
            || (c' != c && k == |c'| - 1 && c'[k].hash == hash)
  {
    j', k' := j + evicted, k + evicted;
    assert c'[j] == c[evicted..][j] == c[j'];
    assert k' < |c| ==> c'[k] == c[evicted..][k] == c[k'];
  }

  /** Nothing moves; an insertion may push out the front and comes last. */
  lemma StepWhenAbsent(c: seq<Item>, cap: int, ttl: int, op: Op, now: Time) returns (evicted: nat)
    requires Find(c, op.hash).None?
    ensures var c' := Step(c, cap, ttl, op, now);
      && evicted <= |c| && c[evicted..] <= c' && (forall i :: 0 <= i < |c| ==> c[i].hash != op.hash)
      && ((c' == c && evicted == 0)
          || (op.Set? && |c'| == |c| - evicted + 1 && c'[|c'| - 1].hash == op.hash))
  {
    evicted := if op.Set? && |c| >= cap && c != [] then 1 else 0;
  }

  /** The item is taken out, and put back last if it is used. */
  lemma StepWhenPresent(c: seq<Item>, cap: int, ttl: int, op: Op, now: Time)
    ensures Find(c, op.hash).Some? ==>
      var c', rest := Step(c, cap, ttl, op, now), Without(c, Find(c, op.hash).value);
      rest <= c' && (c' == rest
      || (|c'| == |rest| + 1 && c'[|rest|].hash == op.hash && (op.Set? || GetSpec(c, ttl, op.hash, now).1.Some?)))
  {
  }

  lemma OrderWithout(c: seq<Item>, c': seq<Item>, r: nat, j: nat, k: nat) returns (j': nat, k': nat)
    requires Distinct(c) && r < |c| && j < k < |c'| && Without(c, r) <= c'
    requires c' == Without(c, r) || (|c'| == |c| && c'[|c| - 1].hash == c[r].hash)
    ensures c'[j].hash != c[r].hash
    ensures (j' < k' < |c| && c'[j].hash == c[j'].hash && c'[k].hash == c[k'].hash)
            || (k == |c'| - 1 && c'[k].hash == c[r].hash)
    ensures c' == Without(c, r) ==> j' < k' < |c| && c'[j].hash == c[j'].hash && c'[k].hash == c[k'].hash
  {
    WithoutElements(c, r);
    j' := if j < r then j else j + 1;
    k' := if k < r then k else k + 1;
    assert c'[j] == Without(c, r)[j] == c[j'];
  }

  /** The list is in order of use: everything behind an item was used after it. */
  lemma {:induction false} BehindMeansUsedSince(cap: int, ttl: int, ops: History)
    ensures var c := Run(cap, ttl, ops);
      forall j, k :: 0 <= j < k < |c| ==> c[k].hash in OthersSince(cap, ttl, ops, c[j].hash)
    decreases |ops|
  {
    if ops != [] {
      var init, op, now := ops[..|ops| - 1], ops[|ops| - 1].0, ops[|ops| - 1].1;
      var c, c' := Run(cap, ttl, init), Run(cap, ttl, ops);
      BehindMeansUsedSince(cap, ttl, init);
      RunIsDistinctAndBounded(cap, ttl, init);
      forall j, k | 0 <= j < k < |c'| ensures c'[k].hash in OthersSince(cap, ttl, ops, c'[j].hash) {
        var j', k' := StepOrder(c, cap, ttl, op, now, j, k);
        UseAddsOthers(cap, ttl, ops, c'[j].hash);
        RunIsDistinctAndBounded(cap, ttl, ops);
      }
    }
  }

  lemma UseAddsOthers(cap: int, ttl: int, ops: History, hash: string)
    requires ops != []
    ensures var init := ops[..|ops| - 1];
      var used := Uses(cap, ttl, init, ops[|ops| - 1].0, ops[|ops| - 1].1);
      && (used != Some(hash) ==> OthersSince(cap, ttl, init, hash) <= OthersSince(cap, ttl, ops, hash))
      && (used.Some? && used != Some(hash) ==> used.value in OthersSince(cap, ttl, ops, hash))
  {
  }

  function Hashes(c: seq<Item>): set<string> {
    set k | 0 <= k < |c| :: c[k].hash
  }

  lemma {:induction false} DistinctHashesCount(c: seq<Item>)
    requires Distinct(c)
    ensures |Hashes(c)| == |c|
    decreases |c|
  {
    if c != [] {
      var init, last := c[..|c| - 1], c[|c| - 1];
      DistinctHashesCount(init);
      assert Hashes(c) == Hashes(init) + {last.hash};
    }
  }

  lemma SubsetCount(a: set<string>, b: set<string>)
    requires a <= b
    ensures |a| <= |b|
  {
    assert b == a + (b - a);
  }

  /** Eviction strikes the least recently used: if `hash` is evicted, cap others were used since. */
  lemma EvictionNeedsCapOthers(cap: int, ttl: int, init: History, hash: string, x: string)
    requires cap >= 1
    requires var c := Run(cap, ttl, init);
      |c| >= cap && c[0].hash == hash && Find(c, x).None?
    ensures |OthersSince(cap, ttl, init, hash) + {x}| >= cap
  {
    var c := Run(cap, ttl, init);
    RunIsDistinctAndBounded(cap, ttl, init);
    BehindMeansUsedSince(cap, ttl, init);
    DistinctHashesCount(c[1..]);
    assert x !in Hashes(c[1..]);
    SubsetCount(Hashes(c[1..]) + {x}, OthersSince(cap, ttl, init, hash) + {x});
  }

  /**
   Main result: a stored, undeleted, unexpired hash is still cached if fewer than cap other hashes
   were set or hit since its own last use.
   */
  lemma {:induction false} RecentlyUsedIsPresent(cap: int, ttl: int, ops: History, hash: string)
    requires cap >= 1 && Monotone(ops) && ops != []
    requires Stored(ops, hash).Some? && ops[|ops| - 1].1 - Stored(ops, hash).value.1 <= ttl
    requires |OthersSince(cap, ttl, ops, hash)| < cap
    ensures Find(Run(cap, ttl, ops), hash).Some?
    decreases |ops|
  {
    var init, op, now := ops[..|ops| - 1], ops[|ops| - 1].0, ops[|ops| - 1].1;
    var c, c' := Run(cap, ttl, init), Run(cap, ttl, ops);
    if op.Set? && op.hash == hash {
      assert c'[|c'| - 1].hash == hash;
    } else if op.Get? && op.hash == hash && Hit(cap, ttl, init, hash, now) {
      assert c'[|c'| - 1].hash == hash;
    } else {
      assert init != [];
      SubsetCount(OthersSince(cap, ttl, init, hash), OthersSince(cap, ttl, ops, hash));
      RecentlyUsedIsPresent(cap, ttl, init, hash);
      RunIsDistinctAndBounded(cap, ttl, init);
      CachedIsStored(cap, ttl, init);
      assert op.hash != hash;
      if op.Set? && Find(c, op.hash).None? && |c| >= cap && c[0].hash == hash {
        EvictionNeedsCapOthers(cap, ttl, init, hash, op.hash);
      }
      StepKeepsOthers(c, cap, ttl, op, now, Find(c, hash).value);
    }
  }

  /** An operation on another hash keeps an item, except when it evicts the front. */
  lemma StepKeepsOthers(c: seq<Item>, cap: int, ttl: int, op: Op, now: Time, k: nat)
    requires Distinct(c) && k < |c| && op.hash != c[k].hash
    requires op.Set? && Find(c, op.hash).None? && |c| >= cap ==> k != 0
    ensures Find(Step(c, cap, ttl, op, now), c[k].hash).Some?
  {
    var c' := Step(c, cap, ttl, op, now);
    var r := Find(c, op.hash);
    assert c[k] in c' by {
      if r.Some? {
        WithoutElements(c, r.value);
      } else if op.Set? && |c| >= cap {
        assert c'[k - 1] == c[k];
      } else {
        assert c'[k] == c[k];
      }
    }
  }
}
