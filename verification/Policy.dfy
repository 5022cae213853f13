/**
 The policy engine (backend/internal/policy): a setting is a global lock, else a seller-type lock,
 else the seller's override, else the type's default, else the global default. Locks and overrides
 are looked up through a cache whose entries live for five seconds.

 Part one runs one engine serially and says exactly what Resolve returns. Part two interleaves the
 database and cache steps of any number of callers and bounds how stale a served override can be.
 */
module Policy {
  import opened Core

  type Key = string
  type SellerType = string

  datatype Value = Int(n: int) | Text(s: string) | Flag(b: bool) | Texts(items: seq<string>)
  datatype ValueType = TInt64 | TPaise | TString | TBool | TDuration | TStringList | TStringSet
  datatype Definition = Definition(valueType: ValueType, defaultGlobal: Value, defaultsByType: map<SellerType, Value>,
                                   lockCapable: bool, overrideAllowed: bool)

  /** The Go registry; a key outside it is unknown. */
  type Registry = map<Key, Definition>

  datatype Scope = Global | OfType(sellerType: SellerType)
  datatype Timed = Timed(value: Value, expiresAt: Time)

  /** Tables seller, policy_seller_override and policy_lock. */
  datatype Db = Db(sellerTypes: map<SellerId, SellerType>, overrides: map<(SellerId, Key), Value>,
                   locks: map<(Scope, Key), Value>)

  datatype Cache = Cache(globalLocks: map<Key, Timed>, typeLocks: map<SellerType, map<Key, Timed>>,
                         overrides: map<SellerId, map<Key, Timed>>)

  datatype State = State(db: Db, cache: Cache)

  /** cacheTTL, in nanoseconds. */
  const TTL: Time := 5_000_000_000

  const SMALL_MEDIUM: SellerType := "small_medium"

  // ---------------------------------------------------------------- the cache, as values

  function Look<A>(m: map<A, map<Key, Timed>>, a: A, k: Key): Option<Timed> {
    if a in m && k in m[a] then Some(m[a][k]) else None
  }

  function Put<A>(m: map<A, map<Key, Timed>>, a: A, k: Key, t: Timed): map<A, map<Key, Timed>> {
    m[a := (if a in m then m[a] else map[])[k := t]]
  }

  function Drop<A>(m: map<A, map<Key, Timed>>, a: A, k: Key): map<A, map<Key, Timed>> {
    if a in m then m[a := m[a] - {k}] else m
  }

  function LookLock(c: Cache, scope: Scope, k: Key): Option<Timed> {
    match scope
    case Global => if k in c.globalLocks then Some(c.globalLocks[k]) else None
    case OfType(t) => Look(c.typeLocks, t, k)
  }

  function PutLock(c: Cache, scope: Scope, k: Key, t: Timed): Cache {
    match scope
    case Global => c.(globalLocks := c.globalLocks[k := t])
    case OfType(st) => c.(typeLocks := Put(c.typeLocks, st, k, t))
  }

  function DropLock(c: Cache, scope: Scope, k: Key): Cache {
    match scope
    case Global => c.(globalLocks := c.globalLocks - {k})
    case OfType(st) => c.(typeLocks := Drop(c.typeLocks, st, k))
  }

  /** Writing one lock entry changes that entry alone. */
  lemma LookAfterPut(c: Cache, scope: Scope, k: Key, t: Timed)
    ensures forall s, key :: LookLock(PutLock(c, scope, k, t), s, key)
              == (if s == scope && key == k then Some(t) else LookLock(c, s, key))
  {
  }

  /** clock.Now().Before(expiresAt). */
  function Fresh(t: Option<Timed>, now: Time): Option<Value> {
    if t.Some? && now < t.value.expiresAt then Some(t.value.value) else None
  }

  /** A missing seller row reads as small_medium. */
  function TypeOf(db: Db, seller: SellerId): SellerType {
    if seller in db.sellerTypes then db.sellerTypes[seller] else SMALL_MEDIUM
  }

  function Row(db: Db, seller: SellerId, k: Key): Option<Value> {
    if (seller, k) in db.overrides then Some(db.overrides[(seller, k)]) else None
  }

  // ---------------------------------------------------------------- one call

  datatype Reason = UnknownKey | NotAllowed | NotCapable | Locked | DbFailed
  datatype Reply = Answer(value: Value) | Ok | Fail(reason: Reason)

  /** A call with the clock it reads and the database failures it meets. */
  datatype Call =
    | Resolve(seller: SellerId, key: Key, now: Time, typeReadOk: bool, rowReadOk: bool)
    | SetOverride(seller: SellerId, key: Key, value: Value, now: Time, typeReadOk: bool, writeOk: bool)
    | RemoveOverride(seller: SellerId, key: Key, writeOk: bool)
    | SetLock(scope: Scope, key: Key, value: Value, now: Time, writeOk: bool)
    | RemoveLock(scope: Scope, key: Key, writeOk: bool)

  /** Lock, else override, else type default, else global default. */
  function Layered(lock: Option<Value>, override: Option<Value>, def: Definition, sellerType: SellerType): Value {
    if lock.Some? then lock.value
    else if override.Some? then override.value
    else if sellerType in def.defaultsByType then def.defaultsByType[sellerType]
    else def.defaultGlobal
  }

  function ApplyResolve(
      reg: Registry, s: State, seller: SellerId, key: Key, now: Time, typeReadOk: bool, rowReadOk: bool)
    : (State, Reply)
  {
    if key !in reg then (s, Fail(UnknownKey))
    else
      var global := Fresh(LookLock(s.cache, Global, key), now);
      if global.Some? then (s, Answer(global.value))
      else if !typeReadOk then (s, Fail(DbFailed))
      else
        var st := TypeOf(s.db, seller);
        var lock := Fresh(LookLock(s.cache, OfType(st), key), now);
        var cached := Fresh(Look(s.cache.overrides, seller, key), now);
        if lock.Some? || cached.Some? then (s, Answer(Layered(lock, cached, reg[key], st)))
        else
          var row := if rowReadOk then Row(s.db, seller, key) else None;
          (if row.Some?
           then s.(cache := s.cache.(overrides := Put(s.cache.overrides, seller, key, Timed(row.value, now + TTL))))
           else s,
           Answer(Layered(None, row, reg[key], st)))
  }

  function ApplySetOverride(
      reg: Registry, s: State, seller: SellerId, key: Key, value: Value, now: Time, typeReadOk: bool, writeOk: bool)
    : (State, Reply)
  {
    if key !in reg then (s, Fail(UnknownKey))
    else if !reg[key].overrideAllowed then (s, Fail(NotAllowed))
    else if Fresh(LookLock(s.cache, Global, key), now).Some? then (s, Fail(Locked))
    else if Fresh(LookLock(s.cache, OfType(if typeReadOk then TypeOf(s.db, seller) else ""), key), now).Some? then
      (s, Fail(Locked))
    else if !writeOk then (s, Fail(DbFailed))
    else
      (State(s.db.(overrides := s.db.overrides[(seller, key) := value]),
             s.cache.(overrides := Put(s.cache.overrides, seller, key, Timed(value, now + TTL)))), Ok)
  }

  function Apply(reg: Registry, s: State, c: Call): (State, Reply) {
    match c
    case Resolve(seller, key, now, typeReadOk, rowReadOk) =>
      ApplyResolve(reg, s, seller, key, now, typeReadOk, rowReadOk)
    case SetOverride(seller, key, value, now, typeReadOk, writeOk) =>
      ApplySetOverride(reg, s, seller, key, value, now, typeReadOk, writeOk)
    case RemoveOverride(seller, key, writeOk) =>
      if key !in reg then (s, Fail(UnknownKey))
      else if !writeOk then (s, Fail(DbFailed))
      else (State(s.db.(overrides := s.db.overrides - {(seller, key)}),
                  s.cache.(overrides := Drop(s.cache.overrides, seller, key))), Ok)
    case SetLock(scope, key, value, now, writeOk) =>
      if key !in reg then (s, Fail(UnknownKey))
      else if !reg[key].lockCapable then (s, Fail(NotCapable))
      else if !writeOk then (s, Fail(DbFailed))
      else (State(s.db.(locks := s.db.locks[(scope, key) := value]),
                  PutLock(s.cache, scope, key, Timed(value, now + TTL))), Ok)
    case RemoveLock(scope, key, writeOk) =>
      if !writeOk then (s, Fail(DbFailed))
      else (State(s.db.(locks := s.db.locks - {(scope, key)}), DropLock(s.cache, scope, key)), Ok)
  }

  // ---------------------------------------------------------------- warming

  /** The lock rows in the order the query returns them. */
  ghost predicate ListsLocks(rows: seq<(Scope, Key, Value)>, db: Db) {
    && (forall i :: 0 <= i < |rows|
          ==> (rows[i].0, rows[i].1) in db.locks && db.locks[(rows[i].0, rows[i].1)] == rows[i].2)
    && (forall scope, key :: (scope, key) in db.locks
          ==> exists i :: 0 <= i < |rows| && rows[i].0 == scope && rows[i].1 == key)
  }

  /** What a cold cache holds after warming: every lock row, stamped at t0. */
  ghost predicate Warmed(c: Cache, db: Db, t0: Time) {
    && c.overrides == map[]
    && forall scope, key :: LookLock(c, scope, key)
         == (if (scope, key) in db.locks then Some(Timed(db.locks[(scope, key)], t0 + TTL)) else None)
  }

  // ---------------------------------------------------------------- the code

  class PolicyCache {
    var globalLocks: map<Key, Timed>
    var typeLocks: map<SellerType, map<Key, Timed>>
    var overrides: map<SellerId, map<Key, Timed>>
    const ttl: Time

    ghost function Contents(): Cache
      reads this
    {
      Cache(globalLocks, typeLocks, overrides)
    }

    constructor (ttl: Time)
      ensures this.ttl == ttl && Contents() == Cache(map[], map[], map[])
    {
      this.ttl := ttl;
      globalLocks := map[];
      typeLocks := map[];
      overrides := map[];
    }

    method GlobalLock(key: Key, now: Time) returns (r: Option<Value>)
      ensures r == Fresh(LookLock(Contents(), Global, key), now)
    {
      if key in globalLocks && now < globalLocks[key].expiresAt {
        return Some(globalLocks[key].value);
      }
      r := None;
    }

    method SellerTypeLock(sellerType: SellerType, key: Key, now: Time) returns (r: Option<Value>)
      ensures r == Fresh(LookLock(Contents(), OfType(sellerType), key), now)
    {
      if sellerType in typeLocks {
        var m := typeLocks[sellerType];
        if key in m && now < m[key].expiresAt {
          return Some(m[key].value);
        }
      }
      r := None;
    }

    method SellerOverride(seller: SellerId, key: Key, now: Time) returns (r: Option<Value>)
      ensures r == Fresh(Look(overrides, seller, key), now)
    {
      if seller in overrides {
        var m := overrides[seller];
        if key in m && now < m[key].expiresAt {
          return Some(m[key].value);
        }
      }
      r := None;
    }

    method SetGlobalLock(key: Key, value: Value, now: Time)
      modifies this
      ensures Contents() == PutLock(old(Contents()), Global, key, Timed(value, now + ttl))
    {
      globalLocks := globalLocks[key := Timed(value, now + ttl)];
    }

    method SetSellerTypeLock(sellerType: SellerType, key: Key, value: Value, now: Time)
      modifies this
      ensures Contents() == PutLock(old(Contents()), OfType(sellerType), key, Timed(value, now + ttl))
    {
      if sellerType !in typeLocks {
        typeLocks := typeLocks[sellerType := map[]];
      }
      typeLocks := typeLocks[sellerType := typeLocks[sellerType][key := Timed(value, now + ttl)]];
    }

    method SetSellerOverride(seller: SellerId, key: Key, value: Value, now: Time)
      modifies this
      ensures Contents() == old(Contents()).(overrides := Put(old(overrides), seller, key, Timed(value, now + ttl)))
    {
      if seller !in overrides {
        overrides := overrides[seller := map[]];
      }
      overrides := overrides[seller := overrides[seller][key := Timed(value, now + ttl)]];
    }

    method InvalidateSeller(seller: SellerId, key: Key)
      modifies this
      ensures Contents() == old(Contents()).(overrides := Drop(old(overrides), seller, key))
    {
      if seller in overrides {
        overrides := overrides[seller := overrides[seller] - {key}];
      }
    }

    method InvalidateLock(scope: Scope, key: Key)
      modifies this
      ensures Contents() == DropLock(old(Contents()), scope, key)
    {
      match scope
      case Global => globalLocks := globalLocks - {key};
      case OfType(t) =>
        if t in typeLocks {
          typeLocks := typeLocks[t := typeLocks[t] - {key}];
        }
    }
  }

  class Engine {
    const reg: Registry
    const cache: PolicyCache
    var db: Db

    ghost function Abstract(): State
      reads this, cache
    {
      State(db, cache.Contents())
    }

    ghost predicate Valid() {
      cache.ttl == TTL
    }

    /** New: a cold cache, warmed once with the lock rows. */
    constructor (reg: Registry, db: Db, rows: seq<(Scope, Key, Value)>, now: Time)
      requires ListsLocks(rows, db)
      ensures Valid() && fresh(cache) && this.reg == reg && Abstract().db == db
      ensures Warmed(Abstract().cache, db, now)
    {
      this.reg := reg;
      this.db := db;
      cache := new PolicyCache(TTL);
      new;
      for i := 0 to |rows|
        invariant this.db == db && cache.overrides == map[]
        invariant forall scope, key :: LookLock(cache.Contents(), scope, key)
                    == LastListed(rows[..i], scope, key, now + TTL)
        modifies cache
      {
        ghost var before := cache.Contents();
        match rows[i].0 {
          case Global => cache.SetGlobalLock(rows[i].1, rows[i].2, now);
          case OfType(t) => cache.SetSellerTypeLock(t, rows[i].1, rows[i].2, now);
        }
        assert cache.Contents() == PutLock(before, rows[i].0, rows[i].1, Timed(rows[i].2, now + TTL));
        LookAfterPut(before, rows[i].0, rows[i].1, Timed(rows[i].2, now + TTL));
        assert rows[..i + 1][..i] == rows[..i];
      }
      assert rows[..|rows|] == rows;
      forall scope, key
        ensures LastListed(rows, scope, key, now + TTL)
                  == (if (scope, key) in db.locks then Some(Timed(db.locks[(scope, key)], now + TTL)) else None)
      {
        ListedIsStored(rows, db, scope, key, now + TTL);
      }
    }

    method ResolveSetting(seller: SellerId, key: Key, now: Time, typeReadOk: bool, rowReadOk: bool) returns (r: Reply)
      requires Valid()
      modifies cache
      ensures (Abstract(), r) == Apply(reg, old(Abstract()), Resolve(seller, key, now, typeReadOk, rowReadOk))
      ensures var global := Fresh(LookLock(old(cache.Contents()), Global, key), now);
        var typed := Fresh(LookLock(old(cache.Contents()), OfType(TypeOf(db, seller)), key), now);
        var cached := Fresh(Look(old(cache.overrides), seller, key), now);
        key in reg && (global.Some? || typeReadOk) ==>
          r == Answer(if global.Some? then global.value
                      else if typed.Some? then typed.value
                      else if cached.Some? then cached.value
                      else if rowReadOk && (seller, key) in db.overrides then db.overrides[(seller, key)]
                      else if TypeOf(db, seller) in reg[key].defaultsByType then
                        reg[key].defaultsByType[TypeOf(db, seller)]
                      else reg[key].defaultGlobal)
    {
      if key !in reg {
        return Fail(UnknownKey);
      }
      var def := reg[key];
      var v := cache.GlobalLock(key, now);
      if v.Some? {
        return Answer(v.value);
      }
      if !typeReadOk {
        return Fail(DbFailed);
      }
      var sellerType := TypeOf(db, seller);
      v := cache.SellerTypeLock(sellerType, key, now);
      if v.Some? {
        return Answer(v.value);
      }
      v := cache.SellerOverride(seller, key, now);
      if v.Some? {
        return Answer(v.value);
      }
      if rowReadOk && (seller, key) in db.overrides {
        v := Some(db.overrides[(seller, key)]);
        cache.SetSellerOverride(seller, key, v.value, now);
        return Answer(v.value);
      }
      if sellerType in def.defaultsByType {
        return Answer(def.defaultsByType[sellerType]);
      }
      r := Answer(def.defaultGlobal);
    }

    method SetSellerOverride(
        seller: SellerId, key: Key, value: Value, now: Time, typeReadOk: bool, writeOk: bool) returns (r: Reply)
      requires Valid()
      modifies this`db, cache
      ensures (Abstract(), r) == Apply(reg, old(Abstract()), SetOverride(seller, key, value, now, typeReadOk, writeOk))
    {
      if key !in reg {
        return Fail(UnknownKey);
      }
      if !reg[key].overrideAllowed {
        return Fail(NotAllowed);
      }
      var v := cache.GlobalLock(key, now);
      if v.Some? {
        return Fail(Locked);
      }
      var sellerType := if typeReadOk then TypeOf(db, seller) else "";
      v := cache.SellerTypeLock(sellerType, key, now);
      if v.Some? {
        return Fail(Locked);
      }
      if !writeOk {
        return Fail(DbFailed);
      }
      db := db.(overrides := db.overrides[(seller, key) := value]);
      cache.SetSellerOverride(seller, key, value, now);
      r := Ok;
    }

    method RemoveSellerOverride(seller: SellerId, key: Key, writeOk: bool) returns (r: Reply)
      requires Valid()
      modifies this`db, cache
      ensures (Abstract(), r) == Apply(reg, old(Abstract()), RemoveOverride(seller, key, writeOk))
    {
      if key !in reg {
        return Fail(UnknownKey);
      }
      if !writeOk {
        return Fail(DbFailed);
      }
      db := db.(overrides := db.overrides - {(seller, key)});
      cache.InvalidateSeller(seller, key);
      r := Ok;
    }

    method InstallLock(scope: Scope, key: Key, value: Value, now: Time, writeOk: bool) returns (r: Reply)
      requires Valid()
      modifies this`db, cache
      ensures (Abstract(), r) == Apply(reg, old(Abstract()), SetLock(scope, key, value, now, writeOk))
    {
      if key !in reg {
        return Fail(UnknownKey);
      }
      if !reg[key].lockCapable {
        return Fail(NotCapable);
      }
      if !writeOk {
        return Fail(DbFailed);
      }
      db := db.(locks := db.locks[(scope, key) := value]);
      match scope {
        case Global => cache.SetGlobalLock(key, value, now);
        case OfType(t) => cache.SetSellerTypeLock(t, key, value, now);
      }
      r := Ok;
    }

    method LiftLock(scope: Scope, key: Key, writeOk: bool) returns (r: Reply)
      requires Valid()
      modifies this`db, cache
      ensures (Abstract(), r) == Apply(reg, old(Abstract()), RemoveLock(scope, key, writeOk))
    {
      if !writeOk {
        return Fail(DbFailed);
      }
      db := db.(locks := db.locks - {(scope, key)});
      cache.InvalidateLock(scope, key);
      r := Ok;
    }
  }

  /** The last row listed for the scope and key. */
  function LastListed(rows: seq<(Scope, Key, Value)>, scope: Scope, key: Key, expiresAt: Time): Option<Timed> {
    if rows == [] then None
    else
      var last := rows[|rows| - 1];
      if last.0 == scope && last.1 == key then Some(Timed(last.2, expiresAt))
      else LastListed(rows[..|rows| - 1], scope, key, expiresAt)
  }

  lemma {:induction false} ListedIsStored(
      rows: seq<(Scope, Key, Value)>, db: Db, scope: Scope, key: Key, expiresAt: Time)
    requires forall i :: 0 <= i < |rows|
               ==> (rows[i].0, rows[i].1) in db.locks && db.locks[(rows[i].0, rows[i].1)] == rows[i].2
    ensures LastListed(rows, scope, key, expiresAt).Some?
            <==> exists i :: 0 <= i < |rows| && rows[i].0 == scope && rows[i].1 == key
    ensures LastListed(rows, scope, key, expiresAt).Some?
      ==> (scope, key) in db.locks
          && LastListed(rows, scope, key, expiresAt) == Some(Timed(db.locks[(scope, key)], expiresAt))
  {
    if rows != [] {
      var init, last := rows[..|rows| - 1], rows[|rows| - 1];
      ListedIsStored(init, db, scope, key, expiresAt);
      if !(last.0 == scope && last.1 == key) && LastListed(init, scope, key, expiresAt).Some? {
        var i :| 0 <= i < |init| && init[i].0 == scope && init[i].1 == key;
        assert rows[i].0 == scope && rows[i].1 == key;
      }
    }
  }

  // ---------------------------------------------------------------- serial runs

  function After(reg: Registry, s0: State, calls: seq<Call>): State {
    if calls == [] then s0 else Apply(reg, After(reg, s0, calls[..|calls| - 1]), calls[|calls| - 1]).0
  }

  /** The call that installs this lock, when it succeeds. */
  predicate Installs(reg: Registry, c: Call, scope: Scope, key: Key) {
    c.SetLock? && c.scope == scope && c.key == key && key in reg && reg[key].lockCapable && c.writeOk
  }

  /** When the lock was last installed, or warmed at start-up. */
  function LockStamp(reg: Registry, t0: Time, calls: seq<Call>, scope: Scope, key: Key): Time {
    if calls == [] then t0
    else if Installs(reg, calls[|calls| - 1], scope, key) then calls[|calls| - 1].now
    else LockStamp(reg, t0, calls[..|calls| - 1], scope, key)
  }

  /** Cached locks are the lock rows, each with its stamp. */
  ghost predicate LocksMirror(reg: Registry, t0: Time, calls: seq<Call>, s: State) {
    forall scope, key :: LookLock(s.cache, scope, key) ==
      (if (scope, key) in s.db.locks
       then Some(Timed(s.db.locks[(scope, key)], LockStamp(reg, t0, calls, scope, key) + TTL)) else None)
  }

  /** Every cached override, expired or not, is its row. */
  ghost predicate OverridesMirror(s: State) {
    forall seller, key :: Look(s.cache.overrides, seller, key).Some?
      ==> Row(s.db, seller, key) == Some(Look(s.cache.overrides, seller, key).value.value)
  }

  lemma StepKeepsLocks(reg: Registry, t0: Time, calls: seq<Call>, s: State, c: Call)
    requires LocksMirror(reg, t0, calls, s)
    ensures LocksMirror(reg, t0, calls + [c], Apply(reg, s, c).0)
  {
    assert (calls + [c])[..|calls + [c]| - 1] == calls;
    var s' := Apply(reg, s, c).0;
    forall scope, key
      ensures LookLock(s'.cache, scope, key) ==
        (if (scope, key) in s'.db.locks
         then Some(Timed(s'.db.locks[(scope, key)], LockStamp(reg, t0, calls + [c], scope, key) + TTL)) else None)
    {
      assert LookLock(s.cache, scope, key) ==
        (if (scope, key) in s.db.locks
         then Some(Timed(s.db.locks[(scope, key)], LockStamp(reg, t0, calls, scope, key) + TTL)) else None);
    }
  }

  lemma StepKeepsOverrides(reg: Registry, s: State, c: Call)
    requires OverridesMirror(s)
    ensures OverridesMirror(Apply(reg, s, c).0)
  {
    var s' := Apply(reg, s, c).0;
    forall seller, key | Look(s'.cache.overrides, seller, key).Some?
      ensures Row(s'.db, seller, key) == Some(Look(s'.cache.overrides, seller, key).value.value)
    {
      assert Look(s.cache.overrides, seller, key).Some?
             ==> Row(s.db, seller, key) == Some(Look(s.cache.overrides, seller, key).value.value);
    }
  }

  /** Main result: in a serial run the cache never disagrees with the tables; its locks merely age. */
  lemma {:induction false} CacheMirrorsTables(reg: Registry, s0: State, t0: Time, calls: seq<Call>)
    requires Warmed(s0.cache, s0.db, t0)
    ensures LocksMirror(reg, t0, calls, After(reg, s0, calls)) && OverridesMirror(After(reg, s0, calls))
  {
    if calls != [] {
      var init, c := calls[..|calls| - 1], calls[|calls| - 1];
      CacheMirrorsTables(reg, s0, t0, init);
      StepKeepsLocks(reg, t0, init, After(reg, s0, init), c);
      StepKeepsOverrides(reg, After(reg, s0, init), c);
      assert init + [c] == calls;
    }
  }

  /** A lock is honoured while its row exists and it was installed or warmed less than five seconds ago. */
  function InForce(
      reg: Registry, t0: Time, calls: seq<Call>, db: Db, scope: Scope, key: Key, now: Time): Option<Value>
  {
    if (scope, key) in db.locks && now < LockStamp(reg, t0, calls, scope, key) + TTL then
      Some(db.locks[(scope, key)])
    else
      None
  }

  /** The specification of Resolve over tables and history alone. */
  function ResolvedValue(
      reg: Registry, t0: Time, calls: seq<Call>, db: Db, seller: SellerId, key: Key, now: Time): Value
    requires key in reg
  {
    var st := TypeOf(db, seller);
    var global := InForce(reg, t0, calls, db, Global, key, now);
    Layered(if global.Some?
            then global else InForce(reg, t0, calls, db, OfType(st), key, now), Row(db, seller, key), reg[key], st)
  }

  /**
   Main result: after any serial run, failures included, a Resolve whose reads succeed returns lock,
   else override row, else type default, else global default, whatever the cache holds.
   */
  lemma ResolveIsLayered(reg: Registry, s0: State, t0: Time, calls: seq<Call>, seller: SellerId, key: Key, now: Time)
    requires Warmed(s0.cache, s0.db, t0)
    ensures var s := After(reg, s0, calls);
      Apply(reg, s, Resolve(seller, key, now, true, true)).1 ==
      (if key in reg then Answer(ResolvedValue(reg, t0, calls, s.db, seller, key, now)) else Fail(UnknownKey))
  {
    CacheMirrorsTables(reg, s0, t0, calls);
    var s := After(reg, s0, calls);
    LockSeen(reg, t0, calls, s, Global, key, now);
    LockSeen(reg, t0, calls, s, OfType(TypeOf(s.db, seller)), key, now);
    assert Look(s.cache.overrides, seller, key).Some?
           ==> Row(s.db, seller, key) == Some(Look(s.cache.overrides, seller, key).value.value);
  }

  /**
   Main result, layer by layer: after any serial run a Resolve whose reads succeed answers the global
   lock, if one less than five seconds old covers the key; else likewise the lock of the seller's type;
   else the override row; else the default of the type; else the global default.
   */
  lemma ResolveByLayers(reg: Registry, s0: State, t0: Time, calls: seq<Call>, seller: SellerId, key: Key, now: Time)
    requires Warmed(s0.cache, s0.db, t0) && key in reg
    ensures var s := After(reg, s0, calls);
      var reply := Apply(reg, s, Resolve(seller, key, now, true, true)).1;
      var st := if seller in s.db.sellerTypes then s.db.sellerTypes[seller] else "small_medium";
      var global := (Global, key) in s.db.locks && now < LockStamp(reg, t0, calls, Global, key) + 5_000_000_000;
      var typed := (OfType(st), key) in s.db.locks
                   && now < LockStamp(reg, t0, calls, OfType(st), key) + 5_000_000_000;
      && (global ==> reply == Answer(s.db.locks[(Global, key)]))
      && (!global && typed ==> reply == Answer(s.db.locks[(OfType(st), key)]))
      && (!global && !typed && (seller, key) in s.db.overrides ==> reply == Answer(s.db.overrides[(seller, key)]))
      && (!global && !typed && (seller, key) !in s.db.overrides && st in reg[key].defaultsByType ==>
            reply == Answer(reg[key].defaultsByType[st]))
      && (!global && !typed && (seller, key) !in s.db.overrides && st !in reg[key].defaultsByType ==>
            reply == Answer(reg[key].defaultGlobal))
      && forall rowReadOk :: Apply(reg, s, Resolve(seller, key, now, false, rowReadOk)).1
                             == (if global then Answer(s.db.locks[(Global, key)]) else Fail(DbFailed))
  {
    CacheMirrorsTables(reg, s0, t0, calls);
    LockSeen(reg, t0, calls, After(reg, s0, calls), Global, key, now);
    ResolveIsLayered(reg, s0, t0, calls, seller, key, now);
  }

  /**
   A Resolve writes no table. It caches exactly the override row it had to read, for five seconds, and
   leaves every other cache entry alone.
   */
  lemma ResolveCachesTheRow(
      reg: Registry, s: State, seller: SellerId, key: Key, now: Time, typeReadOk: bool, rowReadOk: bool)
    ensures var s' := Apply(reg, s, Resolve(seller, key, now, typeReadOk, rowReadOk)).0;
      var fetched := key in reg && typeReadOk && rowReadOk && (seller, key) in s.db.overrides
                     && Fresh(LookLock(s.cache, Global, key), now).None?
                     && Fresh(LookLock(s.cache, OfType(TypeOf(s.db, seller)), key), now).None?
                     && Fresh(Look(s.cache.overrides, seller, key), now).None?;
      && s'.db == s.db
      && (forall scope, k :: LookLock(s'.cache, scope, k) == LookLock(s.cache, scope, k))
      && (forall x: SellerId, k: Key :: x != seller || k != key ==>
            Look(s'.cache.overrides, x, k) == Look(s.cache.overrides, x, k))
      && Look(s'.cache.overrides, seller, key) ==
           (if fetched then Some(Timed(s.db.overrides[(seller, key)], now + 5_000_000_000))
            else Look(s.cache.overrides, seller, key))
  {
  }

  /** The tables agree everywhere but on this override. */
  predicate OnlyOverride(d: Db, d': Db, seller: SellerId, key: Key) {
    && d'.sellerTypes == d.sellerTypes && d'.locks == d.locks
    && forall p :: p in d.overrides.Keys + d'.overrides.Keys && p != (seller, key) ==>
         p in d.overrides && p in d'.overrides && d.overrides[p] == d'.overrides[p]
  }

  /** The tables agree everywhere but on this lock. */
  predicate OnlyLock(d: Db, d': Db, scope: Scope, key: Key) {
    && d'.sellerTypes == d.sellerTypes && d'.overrides == d.overrides
    && forall p :: p in d.locks.Keys + d'.locks.Keys && p != (scope, key) ==>
         p in d.locks && p in d'.locks && d.locks[p] == d'.locks[p]
  }

  /** Overrides are set and removed as asked, or refused for the first reason that applies and nothing is written. */
  lemma OverrideWritesTakeEffect(
      reg: Registry, s: State, seller: SellerId, key: Key, value: Value, now: Time, typeReadOk: bool, writeOk: bool)
    ensures var (s', r) := Apply(reg, s, SetOverride(seller, key, value, now, typeReadOk, writeOk));
      && (r == Ok ==> key in reg && reg[key].overrideAllowed && writeOk && OnlyOverride(s.db, s'.db, seller, key)
                      && (seller, key) in s'.db.overrides && s'.db.overrides[(seller, key)] == value
                      && Look(s'.cache.overrides, seller, key) == Some(Timed(value, now + 5_000_000_000)))
      && (r != Ok ==> s' == s)
      && (r == Fail(UnknownKey) <==> key !in reg)
      && (r == Fail(NotAllowed) <==> key in reg && !reg[key].overrideAllowed)
      && (r == Fail(DbFailed) ==> !writeOk)
    ensures var (s', r) := Apply(reg, s, RemoveOverride(seller, key, writeOk));
      && r == (if key !in reg then Fail(UnknownKey) else if !writeOk then Fail(DbFailed) else Ok)
      && (r == Ok ==> OnlyOverride(s.db, s'.db, seller, key) && (seller, key) !in s'.db.overrides
                      && Look(s'.cache.overrides, seller, key).None?)
      && (r != Ok ==> s' == s)
  {
  }

  /** Locks are installed and lifted as asked, in table and cache, or refused and nothing is written. */
  lemma LockWritesTakeEffect(
      reg: Registry, s: State, scope: Scope, key: Key, value: Value, now: Time, writeOk: bool)
    ensures var (s', r) := Apply(reg, s, SetLock(scope, key, value, now, writeOk));
      && r == (if key !in reg then Fail(UnknownKey) else if !reg[key].lockCapable then Fail(NotCapable)
               else if !writeOk then Fail(DbFailed) else Ok)
      && (r == Ok ==> OnlyLock(s.db, s'.db, scope, key) && (scope, key) in s'.db.locks
                      && s'.db.locks[(scope, key)] == value
                      && LookLock(s'.cache, scope, key) == Some(Timed(value, now + 5_000_000_000)))
      && (r != Ok ==> s' == s)
    ensures var (s', r) := Apply(reg, s, RemoveLock(scope, key, writeOk));
      && r == (if !writeOk then Fail(DbFailed) else Ok)
      && (r == Ok ==> OnlyLock(s.db, s'.db, scope, key) && (scope, key) !in s'.db.locks
                      && LookLock(s'.cache, scope, key).None?)
      && (r != Ok ==> s' == s)
  {
  }

  lemma LockSeen(reg: Registry, t0: Time, calls: seq<Call>, s: State, scope: Scope, key: Key, now: Time)
    requires LocksMirror(reg, t0, calls, s)
    ensures Fresh(LookLock(s.cache, scope, key), now) == InForce(reg, t0, calls, s.db, scope, key, now)
  {
  }

  /** A swallowed row-read failure can only drop the override layer, never invent a value. */
  lemma FailedRowReadDropsTheOverride(
      reg: Registry, s0: State, t0: Time, calls: seq<Call>, seller: SellerId, key: Key, now: Time)
    requires Warmed(s0.cache, s0.db, t0) && key in reg
    ensures var s := After(reg, s0, calls);
      var reply := Apply(reg, s, Resolve(seller, key, now, true, false)).1;
      var bare := s.db.(overrides := s.db.overrides - {(seller, key)});
      || reply == Answer(ResolvedValue(reg, t0, calls, s.db, seller, key, now))
      || reply == Answer(ResolvedValue(reg, t0, calls, bare, seller, key, now))
  {
    CacheMirrorsTables(reg, s0, t0, calls);
    var s := After(reg, s0, calls);
    LockSeen(reg, t0, calls, s, Global, key, now);
    LockSeen(reg, t0, calls, s, OfType(TypeOf(s.db, seller)), key, now);
    assert Look(s.cache.overrides, seller, key).Some?
           ==> Row(s.db, seller, key) == Some(Look(s.cache.overrides, seller, key).value.value);
  }

  /**
   Main result, exact: an override is refused as locked if and only if a lock row covers it that is
   less than five seconds old.
   */
  lemma OverrideIsLockedExactly(
      reg: Registry, s0: State, t0: Time, calls: seq<Call>, seller: SellerId, key: Key, value: Value, now: Time,
      writeOk: bool)
    requires Warmed(s0.cache, s0.db, t0) && key in reg && reg[key].overrideAllowed
    ensures var s := After(reg, s0, calls);
      Apply(reg, s, SetOverride(seller, key, value, now, true, writeOk)).1 == Fail(Locked)
      <==> InForce(reg, t0, calls, s.db, Global, key, now).Some?
           || InForce(reg, t0, calls, s.db, OfType(TypeOf(s.db, seller)), key, now).Some?
  {
    CacheMirrorsTables(reg, s0, t0, calls);
    var s := After(reg, s0, calls);
    LockSeen(reg, t0, calls, s, Global, key, now);
    LockSeen(reg, t0, calls, s, OfType(TypeOf(s.db, seller)), key, now);
  }

  /**
   Main result, exact: the comment calls the TTL a fallback for missed notifications, but nothing
   listens for them and nothing re-reads the lock table. A global lock installed at `t` and not
   touched since is what Resolve answers for exactly five seconds; afterwards its row is still there
   and Resolve answers as if it were not.
   */
  lemma GlobalLockLastsFiveSeconds(
      reg: Registry, s0: State, t0: Time, before: seq<Call>, key: Key, value: Value, t: Time, later: seq<Call>,
      seller: SellerId, now: Time)
    requires Warmed(s0.cache, s0.db, t0) && key in reg && reg[key].lockCapable
    requires forall i :: 0 <= i < |later| ==> !TouchesLock(later[i], Global, key)
    ensures var calls := before + [SetLock(Global, key, value, t, true)] + later;
      var s := After(reg, s0, calls);
      var reply := Apply(reg, s, Resolve(seller, key, now, true, true)).1;
      && s.db.locks.Items >= {((Global, key), value)}
      && (now < t + TTL ==> reply == Answer(value))
      && (now >= t + TTL
          ==> var unlocked := s.db.(locks := s.db.locks - {(Global, key)});
              reply == Answer(ResolvedValue(reg, t0, calls, unlocked, seller, key, now)))
  {
    var calls := before + [SetLock(Global, key, value, t, true)] + later;
    UntouchedLockStays(reg, s0, t0, before, Global, key, value, t, later);
    ResolveIsLayered(reg, s0, t0, calls, seller, key, now);
    var s := After(reg, s0, calls);
    var bare := s.db.(locks := s.db.locks - {(Global, key)});
    var own := OfType(TypeOf(s.db, seller));
    assert InForce(reg, t0, calls, bare, own, key, now) == InForce(reg, t0, calls, s.db, own, key, now);
    assert ((Global, key), value) in s.db.locks.Items;
  }

  predicate TouchesLock(c: Call, scope: Scope, key: Key) {
    (c.SetLock? || c.RemoveLock?) && c.scope == scope && c.key == key
  }

  lemma {:induction false} UntouchedLockStays(
      reg: Registry, s0: State, t0: Time, before: seq<Call>, scope: Scope, key: Key, value: Value, t: Time,
      later: seq<Call>)
    requires key in reg && reg[key].lockCapable
    requires forall i :: 0 <= i < |later| ==> !TouchesLock(later[i], scope, key)
    ensures var calls := before + [SetLock(scope, key, value, t, true)] + later;
      var s := After(reg, s0, calls);
      (scope, key) in s.db.locks && s.db.locks[(scope, key)] == value && LockStamp(reg, t0, calls, scope, key) == t
    decreases |later|
  {
    var calls := before + [SetLock(scope, key, value, t, true)] + later;
    var init := calls[..|calls| - 1];
    if later == [] {
      assert init == before;
    } else {
      UntouchedLockStays(reg, s0, t0, before, scope, key, value, t, later[..|later| - 1]);
      assert init == before + [SetLock(scope, key, value, t, true)] + later[..|later| - 1];
      assert calls[|calls| - 1] == later[|later| - 1];
    }
  }

  // ---------------------------------------------------------------- interleaved callers

  type WorkerId = nat

  /** A value on its way to the cache, with the moment it was read or written; or an invalidation on its way. */
  datatype Job = Carry(seller: SellerId, key: Key, value: Value, at: Time) | Forget(seller: SellerId, key: Key)

  datatype Shared = Shared(rows: map<(SellerId, Key), Value>, cache: map<SellerId, map<Key, Timed>>,
                           jobs: map<WorkerId, Job>, now: Time)

  datatype Step =
    | Tick(d: nat)
    | Load(w: WorkerId, seller: SellerId, key: Key)
    | Upsert(w: WorkerId, seller: SellerId, key: Key, value: Value)
    | Delete(w: WorkerId, seller: SellerId, key: Key)
    | ToCache(w: WorkerId)
    | Abandon(w: WorkerId)

  function Next(s: Shared, step: Step): Shared {
    match step
    case Tick(d) => s.(now := s.now + d)
    case Load(w, seller, key) =>
      if (seller, key) in s.rows then s.(jobs := s.jobs[w := Carry(seller, key, s.rows[(seller, key)], s.now)]) else s
    case Upsert(w, seller, key, value) =>
      s.(rows := s.rows[(seller, key) := value], jobs := s.jobs[w := Carry(seller, key, value, s.now)])
    case Delete(w, seller, key) =>
      s.(rows := s.rows - {(seller, key)}, jobs := s.jobs[w := Forget(seller, key)])
    case ToCache(w) =>
      if w !in s.jobs then s
      else
        var j := s.jobs[w];
        s.(cache := if j.Carry? then Put(s.cache, j.seller, j.key, Timed(j.value, s.now + TTL))
                    else Drop(s.cache, j.seller, j.key),
           jobs := s.jobs - {w})
    case Abandon(w) => s.(jobs := s.jobs - {w})
  }

  /** A cold cache at time zero. */
  function Run(steps: seq<Step>): Shared {
    if steps == [] then Shared(map[], map[], map[], 0) else Next(Run(steps[..|steps| - 1]), steps[|steps| - 1])
  }

  /** No value takes longer than `delay` from the table to the cache. */
  ghost predicate Prompt(steps: seq<Step>, delay: nat) {
    forall i :: 0 <= i < |steps| ==> PromptAt(Run(steps[..i]), steps[i], delay)
  }

  predicate PromptAt(s: Shared, step: Step, delay: nat) {
    step.ToCache? && step.w in s.jobs && s.jobs[step.w].Carry? ==> s.now - s.jobs[step.w].at <= delay
  }

  /** At some moment of the run, no earlier than `since`, the row held the value. */
  ghost predicate HeldSince(steps: seq<Step>, seller: SellerId, key: Key, value: Value, since: Time) {
    exists i :: 0 <= i <= |steps| && HoldsAt(Run(steps[..i]), seller, key, value) && Run(steps[..i]).now >= since
  }

  predicate HoldsAt(s: Shared, seller: SellerId, key: Key, value: Value) {
    (seller, key) in s.rows && s.rows[(seller, key)] == value
  }

  lemma HeldLonger(steps: seq<Step>, step: Step, seller: SellerId, key: Key, value: Value, since: Time, earlier: Time)
    requires HeldSince(steps, seller, key, value, since) && earlier <= since
    ensures HeldSince(steps + [step], seller, key, value, earlier)
  {
    var i :| 0 <= i <= |steps| && HoldsAt(Run(steps[..i]), seller, key, value) && Run(steps[..i]).now >= since;
    assert (steps + [step])[..i] == steps[..i];
  }

  ghost predicate Dated(steps: seq<Step>, delay: nat, s: Shared) {
    && (forall w :: w in s.jobs && s.jobs[w].Carry?
          ==> HeldSince(steps, s.jobs[w].seller, s.jobs[w].key, s.jobs[w].value, s.jobs[w].at))
    && (forall seller, key :: Look(s.cache, seller, key).Some?
          ==> DatedEntry(steps, delay, seller, key, Look(s.cache, seller, key).value))
  }

  ghost predicate DatedEntry(steps: seq<Step>, delay: nat, seller: SellerId, key: Key, t: Timed) {
    HeldSince(steps, seller, key, t.value, t.expiresAt - TTL - delay)
  }

  lemma StepKeepsDated(steps: seq<Step>, delay: nat, step: Step)
    requires Dated(steps, delay, Run(steps)) && PromptAt(Run(steps), step, delay)
    ensures Dated(steps + [step], delay, Run(steps + [step]))
  {
    var all := steps + [step];
    assert all[..|all| - 1] == steps && all[..|all|] == all && all[..|steps|] == steps;
    var s, s' := Run(steps), Run(all);
    forall w | w in s'.jobs && s'.jobs[w].Carry?
      ensures HeldSince(all, s'.jobs[w].seller, s'.jobs[w].key, s'.jobs[w].value, s'.jobs[w].at)
    {
      var j := s'.jobs[w];
      if w in s.jobs && s.jobs[w] == j {
        HeldLonger(steps, step, j.seller, j.key, j.value, j.at, j.at);
      } else {
        assert HoldsAt(Run(all[..|all|]), j.seller, j.key, j.value);
      }
    }
    forall seller, key | Look(s'.cache, seller, key).Some?
      ensures DatedEntry(all, delay, seller, key, Look(s'.cache, seller, key).value)
    {
      var t := Look(s'.cache, seller, key).value;
      if Look(s.cache, seller, key) == Some(t) {
        assert DatedEntry(steps, delay, seller, key, t);
        HeldLonger(steps, step, seller, key, t.value, t.expiresAt - TTL - delay, t.expiresAt - TTL - delay);
      } else {
        var j := s.jobs[step.w];
        HeldLonger(steps, step, j.seller, j.key, j.value, j.at, t.expiresAt - TTL - delay);
      }
    }
  }

  /**
   Main result: however the callers interleave, an override served from the cache was the row's
   value less than five seconds plus the table-to-cache delay ago.
   */
  lemma {:induction false} ServedOverrideIsRecent(steps: seq<Step>, delay: nat, seller: SellerId, key: Key)
    requires Prompt(steps, delay)
    ensures Dated(steps, delay, Run(steps))
    ensures var s := Run(steps);
      var served := Fresh(Look(s.cache, seller, key), s.now);
      served.Some? ==> HeldSince(steps, seller, key, served.value, s.now - TTL - delay + 1)
  {
    if steps != [] {
      var init := steps[..|steps| - 1];
      forall i | 0 <= i < |init| ensures PromptAt(Run(init[..i]), init[i], delay) {
        assert init[..i] == steps[..i];
        assert PromptAt(Run(steps[..i]), steps[i], delay);
      }
      ServedOverrideIsRecent(init, delay, seller, key);
      assert PromptAt(Run(steps[..|steps| - 1]), steps[|steps| - 1], delay);
      StepKeepsDated(init, delay, steps[|steps| - 1]);
      assert init + [steps[|steps| - 1]] == steps;
    }
    var s := Run(steps);
    if Fresh(Look(s.cache, seller, key), s.now).Some? {
      var t := Look(s.cache, seller, key).value;
      assert DatedEntry(steps, delay, seller, key, t);
      var i :| 0 <= i <= |steps| && HoldsAt(Run(steps[..i]), seller, key, t.value)
      && Run(steps[..i]).now >= t.expiresAt - TTL - delay;
      assert Run(steps[..i]).now >= s.now - TTL - delay + 1;
    }
  }

  /** A reader that loaded the row before it was removed puts it back after the invalidation. */
  function LateReader(seller: SellerId, key: Key, value: Value, delay: nat): seq<Step> {
    [Upsert(0, seller, key, value), Load(1, seller, key), Delete(2, seller, key), ToCache(2), Tick(delay), ToCache(1),
     Tick(TTL - 1)]
  }

  lemma RunStep(steps: seq<Step>, k: nat)
    requires k < |steps|
    ensures Run(steps[..k + 1]) == Next(Run(steps[..k]), steps[k])
  {
    assert steps[..k + 1][..k] == steps[..k];
  }

  lemma LateReaderLoads(seller: SellerId, key: Key, value: Value, delay: nat)
    ensures var steps, job := LateReader(seller, key, value, delay), Carry(seller, key, value, 0);
      Run(steps[..2]) == Shared(map[(seller, key) := value], map[], map[0 := job, 1 := job], 0)
  {
    var steps := LateReader(seller, key, value, delay);
    RunStep(steps, 0);
    assert steps[0] == Upsert(0, seller, key, value) && steps[..0] == [];
    assert Run(steps[..1]) == Shared(map[(seller, key) := value], map[], map[0 := Carry(seller, key, value, 0)], 0);
    RunStep(steps, 1);
    assert steps[1] == Load(1, seller, key);
  }

  lemma LateReaderStarts(seller: SellerId, key: Key, value: Value, delay: nat)
    ensures var steps, job := LateReader(seller, key, value, delay), Carry(seller, key, value, 0);
      Run(steps[..3]) == Shared(map[], map[], map[0 := job, 1 := job, 2 := Forget(seller, key)], 0)
  {
    var steps := LateReader(seller, key, value, delay);
    LateReaderLoads(seller, key, value, delay);
    RunStep(steps, 2);
    assert steps[2] == Delete(2, seller, key);
    assert Run(steps[..3]).rows == map[];
  }

  lemma LateReaderEnds(seller: SellerId, key: Key, value: Value, delay: nat)
    ensures var steps, job := LateReader(seller, key, value, delay), Carry(seller, key, value, 0);
      && Run(steps[..5]) == Shared(map[], map[], map[0 := job, 1 := job], delay)
      && Run(steps[..4]).rows == Run(steps[..6]).rows == Run(steps[..7]).rows == map[]
      && Run(steps[..7]).now == delay + TTL - 1
      && Look(Run(steps[..7]).cache, seller, key) == Some(Timed(value, delay + TTL))
  {
    var steps := LateReader(seller, key, value, delay);
    LateReaderForgets(seller, key, value, delay);
    RunStep(steps, 4);
    RunStep(steps, 5);
    RunStep(steps, 6);
  }

  lemma LateReaderForgets(seller: SellerId, key: Key, value: Value, delay: nat)
    ensures var steps, job := LateReader(seller, key, value, delay), Carry(seller, key, value, 0);
      Run(steps[..4]) == Shared(map[], map[], map[0 := job, 1 := job], 0)
  {
    var steps := LateReader(seller, key, value, delay);
    LateReaderStarts(seller, key, value, delay);
    RunStep(steps, 3);
    assert steps[3] == ToCache(2);
    assert Run(steps[..4]).jobs == map[0 := Carry(seller, key, value, 0), 1 := Carry(seller, key, value, 0)];
    assert Run(steps[..4]).cache == map[];
  }

  /** The bound is tight: for every delay, a removed override is served at the last nanosecond the bound allows. */
  lemma StalenessBoundIsTight(seller: SellerId, key: Key, value: Value, delay: nat)
    ensures var steps := LateReader(seller, key, value, delay);
      var s := Run(steps);
      && Prompt(steps, delay)
      && Fresh(Look(s.cache, seller, key), s.now) == Some(value)
      && (seller, key) !in s.rows
      && !HeldSince(steps, seller, key, value, s.now - TTL - delay + 2)
  {
    var steps := LateReader(seller, key, value, delay);
    LateReaderStarts(seller, key, value, delay);
    LateReaderEnds(seller, key, value, delay);
    LateReaderLoads(seller, key, value, delay);
    assert steps[..7] == steps;
    NeverHeldLate(seller, key, value, delay);
    assert PromptAt(Run(steps[..3]), steps[3], delay) && PromptAt(Run(steps[..5]), steps[5], delay);
  }

  lemma NeverHeldLate(seller: SellerId, key: Key, value: Value, delay: nat)
    ensures !HeldSince(LateReader(seller, key, value, delay), seller, key, value, 1)
  {
    var steps := LateReader(seller, key, value, delay);
    LateReaderStarts(seller, key, value, delay);
    LateReaderEnds(seller, key, value, delay);
    RunStep(steps, 0);
    LateReaderLoads(seller, key, value, delay);
    forall i | 0 <= i <= 7 && HoldsAt(Run(steps[..i]), seller, key, value) ensures Run(steps[..i]).now < 1 {
      assert i !in {3, 4, 5, 6, 7};
    }
  }
}
