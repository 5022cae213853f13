/**
 Contracts (backend/internal/contracts): activating one writes its terms as policy overrides through
 the policy engine and stamps an active-id marker; terminating one removes them.

 Terms are a Go map, so the order in which they are written is an input here, and so are the database
 failures an activation meets; the first of them, of the superseding update, the code ignores.
 */
module Contracts {
  import opened Core
  import opened Policy

  type ContractId = string

  /** A decoded JSON value; numbers arrive as float64. */
  datatype Raw = Number(x: real) | Truth(b: bool) | Chars(s: string) | Items(items: seq<Raw>) | Other

  type Terms = map<Key, Raw>

  datatype Phase = Draft | Active | Superseded | Terminated

  /** `terms` is None when the terms hold no policy_overrides object. */
  datatype Contract = Contract(seller: SellerId, phase: Phase, terms: Option<Terms>)

  type Table = map<ContractId, Contract>

  /**
   The database failures an activation can meet: the two updates, the refetch, the seller's type, and
   the writes of some keys.
   */
  datatype Faults = Faults(supersedeOk: bool, markOk: bool, readOk: bool, typeReadOk: bool, failing: set<Key>)

  const ACTIVE_ID: Key := "contract.active_id"

  // ---------------------------------------------------------------- coercion

  /** int64(n) of a float64 in range: truncation toward zero. */
  function Truncate(x: real): int {
    if x >= 0.0 then x.Floor else -((-x).Floor)
  }

  /** The strings among the items, in order. */
  function Strings(items: seq<Raw>): seq<string> {
    if items == [] then []
    else
      var before := Strings(items[..|items| - 1]);
      if items[|items| - 1].Chars? then before + [items[|items| - 1].s] else before
  }

  function ValueFor(t: ValueType, raw: Raw): Option<Value> {
    match t
    case TInt64 | TPaise => if raw.Number? then Some(Int(Truncate(raw.x))) else None
    case TBool => if raw.Truth? then Some(Flag(raw.b)) else None
    case TString | TDuration => if raw.Chars? then Some(Text(raw.s)) else None
    case TStringList | TStringSet => if raw.Items? then Some(Texts(Strings(raw.items))) else None
  }

  // ---------------------------------------------------------------- one call, over values

  /** Engine state after the first terms in `order`, up to the first that is refused. */
  function ApplyTerms(
    reg: Registry, s: State, seller: SellerId, order: seq<Key>, terms: Terms, now: Time, faults: Faults): (State, bool)
    requires forall k :: k in order ==> k in terms
  {
    if order == [] then (s, true)
    else
      var (before, ok) := ApplyTerms(reg, s, seller, order[..|order| - 1], terms, now, faults);
      var k := order[|order| - 1];
      if !ok then (before, false)
      else if k !in reg then (before, true)
      else
        var value := ValueFor(reg[k].valueType, terms[k]);
        if value.None? then (before, false)
        else
          var (after, reply) := ApplySetOverride(reg, before, seller, k, value.value, now, faults.typeReadOk,
                                                 k !in faults.failing);
          (after, reply == Ok)
  }

  function Supersede(table: Table, seller: SellerId): Table {
    map id | id in table ::
      if table[id].seller == seller && table[id].phase == Active then table[id].(phase := Superseded) else table[id]
  }

  /** UPDATE … WHERE id = $1 AND seller_id = $3. */
  function MarkActive(table: Table, seller: SellerId, id: ContractId): Table {
    if id in table && table[id].seller == seller then table[id := table[id].(phase := Active)] else table
  }

  function MarkTerminated(table: Table, seller: SellerId, id: ContractId): Table {
    if id in table && table[id].seller == seller && table[id].phase == Active then
      table[id := table[id].(phase := Terminated)]
    else
      table
  }

  /** The keys a contract names; the registry knows some of them. */
  function TermsOf(table: Table, id: ContractId): Terms {
    if id in table then Entries(table[id].terms) else map[]
  }

  ghost predicate IsOrder(order: seq<Key>, terms: Terms) {
    forall k :: k in order <==> k in terms
  }

  function Entries(terms: Option<Terms>): Terms {
    if terms.Some? then terms.value else map[]
  }

  /** The keys a range over the overrides visits: none when there is no such object. */
  function Walk(terms: Option<Terms>, order: seq<Key>): seq<Key> {
    if terms.Some? then order else []
  }

  /** Terms first, then the marker. */
  function ApplyContract(
    reg: Registry, s: State, seller: SellerId, id: ContractId, order: seq<Key>, terms: Option<Terms>, now: Time,
    faults: Faults): (State, bool)
    requires IsOrder(order, Entries(terms))
  {
    var (written, ok) := ApplyTerms(reg, s, seller, Walk(terms, order), Entries(terms), now, faults);
    if !ok then (written, false)
    else
      var (stamped, reply) := ApplySetOverride(
        reg, written, seller, ACTIVE_ID, Text(id), now, faults.typeReadOk, ACTIVE_ID !in faults.failing);
      (stamped, reply == Ok)
  }

  datatype World = World(table: Table, engine: State)

  /** The unique index: marking this contract would leave the seller with two active ones. */
  predicate IndexRefuses(table: Table, seller: SellerId, id: ContractId) {
    && id in table && table[id].seller == seller
    && exists other :: other in table && other != id && table[other].seller == seller && table[other].phase == Active
  }

  /** The first update, whose failure the code ignores. */
  function AfterSupersede(table: Table, seller: SellerId, ok: bool): Table {
    if ok then Supersede(table, seller) else table
  }

  /** Both updates; the second is refused by the index when the first was lost. */
  function ActivatedTable(table: Table, seller: SellerId, id: ContractId, faults: Faults): Table {
    var t := AfterSupersede(table, seller, faults.supersedeOk);
    if !faults.markOk || IndexRefuses(t, seller, id) then t else MarkActive(t, seller, id)
  }

  function ApplyActivate(
      reg: Registry, w: World, seller: SellerId, id: ContractId, order: seq<Key>, now: Time, faults: Faults)
    : (World, bool)
    requires IsOrder(order, TermsOf(w.table, id))
  {
    var table := ActivatedTable(w.table, seller, id, faults);
    if !faults.markOk || IndexRefuses(AfterSupersede(w.table, seller, faults.supersedeOk), seller, id) then
      (World(table, w.engine), false)
    // the refetch looks at the id alone
    else if !faults.readOk || id !in table then (World(table, w.engine), false)
    else
      var (engine, ok) := ApplyContract(reg, w.engine, seller, id, order, table[id].terms, now, faults);
      (World(table, engine), ok)
  }

  /** The engine after removing the override of each key in turn; keys the registry lacks are refused and ignored. */
  function RemoveAll(reg: Registry, s: State, seller: SellerId, keys: seq<Key>): State {
    if keys == [] then s
    else Apply(reg, RemoveAll(reg, s, seller, keys[..|keys| - 1]), RemoveOverride(seller, keys[|keys| - 1], true)).0
  }

  function ApplyTerminate(reg: Registry, w: World, seller: SellerId, id: ContractId, order: seq<Key>): (World, bool) {
    if id !in w.table then (w, false)
    else (World(MarkTerminated(w.table, seller, id),
                RemoveAll(reg, w.engine, seller, Walk(w.table[id].terms, order) + [ACTIVE_ID])), true)
  }

  // ---------------------------------------------------------------- the service

  class ContractService {
    var table: Table
    const engine: Engine

    ghost function Abstract(): World
      reads this, engine, engine.cache
    {
      World(table, engine.Abstract())
    }

    constructor (engine: Engine)
      ensures this.engine == engine && table == map[]
    {
      this.engine := engine;
      table := map[];
    }

    /** A draft for the seller, under a fresh id. */
    method Create(seller: SellerId, id: ContractId, terms: Option<Terms>)
      requires id !in table
      modifies this`table
      ensures table == old(table)[id := Contract(seller, Draft, terms)]
    {
      table := table[id := Contract(seller, Draft, terms)];
    }

    method ValueForType(t: ValueType, raw: Raw) returns (r: Option<Value>)
      ensures r == ValueFor(t, raw)
    {
      match t {
        case TInt64 | TPaise =>
          if raw.Number? {
            return Some(Int(Truncate(raw.x)));
          }
        case TBool =>
          if raw.Truth? {
            return Some(Flag(raw.b));
          }
        case TString | TDuration =>
          if raw.Chars? {
            return Some(Text(raw.s));
          }
        case TStringList | TStringSet =>
          if raw.Items? {
            var texts: seq<string> := [];
            for i := 0 to |raw.items|
              invariant texts == Strings(raw.items[..i])
            {
              assert raw.items[..i + 1][..i] == raw.items[..i];
              if raw.items[i].Chars? {
                texts := texts + [raw.items[i].s];
              }
            }
            assert raw.items[..|raw.items|] == raw.items;
            return Some(Texts(texts));
          }
      }
      r := None;
    }

    method WriteTerms(
        seller: SellerId, id: ContractId, order: seq<Key>, terms: Option<Terms>, now: Time, faults: Faults)
      returns (ok: bool)
      requires engine.Valid() && IsOrder(order, Entries(terms))
      modifies engine`db, engine.cache
      ensures (engine.Abstract(), ok)
                == ApplyContract(engine.reg, old(engine.Abstract()), seller, id, order, terms, now, faults)
    {
      if terms.None? {
        var r := engine.SetSellerOverride(seller, ACTIVE_ID, Text(id), now, faults.typeReadOk,
                                          ACTIVE_ID !in faults.failing);
        return r == Ok;
      }
      for i := 0 to |order|
        invariant (engine.Abstract(), true)
                    == ApplyTerms(engine.reg, old(engine.Abstract()), seller, order[..i], terms.value, now, faults)
      {
        var k := order[i];
        assert order[..i + 1][..i] == order[..i] && order[..i + 1][i] == k;
        if k !in engine.reg {
          continue;
        }
        var value := ValueForType(engine.reg[k].valueType, terms.value[k]);
        if value.None? {
          StopsEarly(engine.reg, old(engine.Abstract()), seller, order, i + 1, terms.value, now, faults);
          return false;
        }
        var reply := engine.SetSellerOverride(seller, k, value.value, now, faults.typeReadOk, k !in faults.failing);
        if reply != Ok {
          StopsEarly(engine.reg, old(engine.Abstract()), seller, order, i + 1, terms.value, now, faults);
          return false;
        }
      }
      assert order[..|order|] == order;
      var r := engine.SetSellerOverride(seller, ACTIVE_ID, Text(id), now, faults.typeReadOk,
                                        ACTIVE_ID !in faults.failing);
      ok := r == Ok;
    }

    method Activate(seller: SellerId, id: ContractId, order: seq<Key>, now: Time, faults: Faults) returns (ok: bool)
      requires engine.Valid() && IsOrder(order, TermsOf(table, id))
      modifies this`table, engine`db, engine.cache
      ensures (Abstract(), ok) == ApplyActivate(engine.reg, old(Abstract()), seller, id, order, now, faults)
      ensures id in old(table) && old(table)[id].seller == seller && faults.supersedeOk && faults.markOk ==>
        id in table && table[id].phase == Active
    {
      if faults.supersedeOk {
        table := Supersede(table, seller);
      }
      if !faults.markOk {
        return false;
      }
      if id in table && table[id].seller == seller {
        if exists other ::
             other in table && other != id && table[other].seller == seller && table[other].phase == Active {
          return false;
        }
        table := table[id := table[id].(phase := Active)];
      }
      if !faults.readOk || id !in table {
        return false;
      }
      var c := table[id];
      ok := WriteTerms(seller, id, order, c.terms, now, faults);
    }

    method Terminate(seller: SellerId, id: ContractId, order: seq<Key>) returns (ok: bool)
      requires engine.Valid() && IsOrder(order, TermsOf(table, id))
      modifies this`table, engine`db, engine.cache
      ensures (Abstract(), ok) == ApplyTerminate(engine.reg, old(Abstract()), seller, id, order)
      ensures id in old(table) && old(table)[id].seller == seller && old(table)[id].phase == Active ==>
        id in table && table[id].phase == Terminated
    {
      if id !in table {
        return false;
      }
      var c := table[id];
      table := MarkTerminated(table, seller, id);
      var keys := Walk(c.terms, order);
      for i := 0 to |keys|
        invariant engine.Abstract() == RemoveAll(engine.reg, old(engine.Abstract()), seller, keys[..i])
        invariant table == MarkTerminated(old(table), seller, id)
      {
        assert keys[..i + 1][..i] == keys[..i];
        var _ := engine.RemoveSellerOverride(seller, keys[i], true);
      }
      assert keys[..|keys|] == keys;
      assert (keys + [ACTIVE_ID])[..|keys|] == keys;
      var _ := engine.RemoveSellerOverride(seller, ACTIVE_ID, true);
      ok := true;
    }
  }

  /** A refusal among the first terms is the outcome of them all. */
  lemma {:induction false} StopsEarly(
    reg: Registry, s: State, seller: SellerId, order: seq<Key>, n: nat, terms: Terms, now: Time, faults: Faults)
    requires n <= |order| && forall k :: k in order ==> k in terms
    requires !ApplyTerms(reg, s, seller, order[..n], terms, now, faults).1
    ensures ApplyTerms(reg, s, seller, order, terms, now, faults)
              == ApplyTerms(reg, s, seller, order[..n], terms, now, faults)
    decreases |order|
  {
    if n < |order| {
      assert order[..|order| - 1][..n] == order[..n];
      StopsEarly(reg, s, seller, order[..|order| - 1], n, terms, now, faults);
    } else {
      assert order[..n] == order;
    }
  }

  // ---------------------------------------------------------------- phases

  predicate SameBut(t: Table, t': Table, id: ContractId) {
    t'.Keys == t.Keys && forall i :: i in t && i != id ==> t'[i] == t[i]
  }

  /** Main result: terminating ends the seller's active contract, and changes no other row and no other phase. */
  lemma TerminateEndsTheContract(reg: Registry, w: World, seller: SellerId, id: ContractId, order: seq<Key>)
    ensures var (w', ok) := ApplyTerminate(reg, w, seller, id, order);
      && ok == (id in w.table) && SameBut(w.table, w'.table, id)
      && (id in w.table ==>
            && w'.table[id].seller == w.table[id].seller && w'.table[id].terms == w.table[id].terms
            && w'.table[id].phase == if w.table[id].seller == seller && w.table[id].phase == Active then Terminated
                                     else w.table[id].phase)
  {
  }

  /** Whether the second update of an activation goes through. */
  predicate Marks(t: Table, seller: SellerId, id: ContractId, faults: Faults) {
    && id in t && t[id].seller == seller && faults.markOk
    && (faults.supersedeOk
        || forall i :: i in t && i != id && t[i].seller == seller ==> t[i].phase != Active)
  }

  /**
   Main result: an activation leaves the seller's contract active, whatever its phase was, and the one
   active before superseded; with failures, exactly what did not fail. Sellers and terms never change.
   */
  lemma ActivateMovesThePhases(
      reg: Registry, w: World, seller: SellerId, id: ContractId, order: seq<Key>, now: Time, faults: Faults)
    requires IsOrder(order, TermsOf(w.table, id))
    ensures var t, t' := w.table, ApplyActivate(reg, w, seller, id, order, now, faults).0.table;
      && t'.Keys == t.Keys
      && forall i :: i in t ==>
        && t'[i].seller == t[i].seller && t'[i].terms == t[i].terms
        && t'[i].phase == if i == id && Marks(t, seller, id, faults) then Active
                          else if t[i].seller == seller && t[i].phase == Active && faults.supersedeOk then Superseded
                          else t[i].phase
  {
    if faults.supersedeOk {
      SupersedeMakesRoom(w.table, seller, id);
    }
  }

  // ---------------------------------------------------------------- values

  lemma {:induction false} StringsOfText(items: seq<Raw>, texts: seq<string>)
    requires |items| == |texts| && forall i :: 0 <= i < |items| ==> items[i] == Chars(texts[i])
    ensures Strings(items) == texts
  {
    if items != [] {
      StringsOfText(items[..|items| - 1], texts[..|texts| - 1]);
    }
  }

  lemma {:induction false} StringsOfParts(a: seq<Raw>, b: seq<Raw>)
    ensures Strings(a + b) == Strings(a) + Strings(b)
    decreases |b|
  {
    if b == [] {
      assert a + b == a;
    } else {
      assert (a + b)[..|a + b| - 1] == a + b[..|b| - 1];
      StringsOfParts(a, b[..|b| - 1]);
    }
  }

  /**
   Main result: a term keeps its value. Truths, texts and lists of texts arrive unchanged, numbers cut
   toward zero; items of a list that are not text are dropped wherever they stand; any other kind of
   value is refused.
   */
  lemma TermsKeepTheirValue(b: bool, s: string, n: int, x: real, texts: seq<string>, items: seq<Raw>, raw: Raw)
    requires |items| == |texts| && forall i :: 0 <= i < |items| ==> items[i] == Chars(texts[i])
    ensures ValueFor(TBool, Truth(b)) == Some(Flag(b))
    ensures ValueFor(TString, Chars(s)) == ValueFor(TDuration, Chars(s)) == Some(Text(s))
    ensures ValueFor(TInt64, Number(n as real)) == ValueFor(TPaise, Number(n as real)) == Some(Int(n))
    ensures ValueFor(TInt64, Number(x)).Some? && ValueFor(TPaise, Number(x)) == ValueFor(TInt64, Number(x))
    ensures var v := ValueFor(TInt64, Number(x)).value;
      v.Int? && if x >= 0.0 then v.n as real <= x < (v.n + 1) as real else (v.n - 1) as real < x <= v.n as real
    ensures ValueFor(TStringList, Items(items)) == ValueFor(TStringSet, Items(items)) == Some(Texts(texts))
    ensures forall more :: !raw.Chars? ==>
      ValueFor(TStringList, Items(items + [raw] + more)) == ValueFor(TStringList, Items(items + more))
    ensures ValueFor(TBool, raw).None? <==> !raw.Truth?
    ensures ValueFor(TString, raw).None? <==> !raw.Chars?
    ensures ValueFor(TDuration, raw).None? <==> !raw.Chars?
    ensures ValueFor(TInt64, raw).None? <==> !raw.Number?
    ensures ValueFor(TPaise, raw).None? <==> !raw.Number?
    ensures ValueFor(TStringList, raw).None? <==> !raw.Items?
    ensures ValueFor(TStringSet, raw).None? <==> !raw.Items?
  {
    StringsOfText(items, texts);
    forall more | !raw.Chars? ensures Strings(items + [raw] + more) == Strings(items + more) {
      StringsOfParts(items + [raw], more);
      StringsOfParts(items, [raw]);
      StringsOfParts(items, more);
      assert Strings([raw]) == [] by { assert [raw][..0] == []; }
    }
  }

  // ---------------------------------------------------------------- what terms do

  /** The term can be written now: it coerces, may be overridden, and no fresh lock covers it. */
  predicate Writable(
      reg: Registry, s: State, seller: SellerId, k: Key, value: Option<Value>, now: Time, faults: Faults)
  {
    && value.Some? && k !in faults.failing
    && k in reg && reg[k].overrideAllowed
    && Fresh(LookLock(s.cache, Global, k), now).None?
    && Fresh(LookLock(s.cache, OfType(if faults.typeReadOk then TypeOf(s.db, seller) else ""), k), now).None?
  }

  predicate TermWritable(reg: Registry, s: State, seller: SellerId, terms: Terms, k: Key, now: Time, faults: Faults)
    requires k in terms
  {
    k in reg ==> Writable(reg, s, seller, k, ValueFor(reg[k].valueType, terms[k]), now, faults)
  }

  predicate MarkerWritable(reg: Registry, s: State, seller: SellerId, id: ContractId, now: Time, faults: Faults) {
    Writable(reg, s, seller, ACTIVE_ID, Some(Text(id)), now, faults)
  }

  predicate Known(reg: Registry, terms: Terms, k: Key) {
    k in terms && k in reg
  }

  /** Writing terms touches neither locks nor seller types. */
  predicate OnlyOverridesDiffer(s: State, t: State) {
    && t.db == s.db.(overrides := t.db.overrides)
    && t.cache == s.cache.(overrides := t.cache.overrides)
  }

  /**
   Writing terms in order, refused or not: nothing but these keys of this seller is written, and if all
   went well each holds its term.
   */
  lemma {:induction false} TermsWriteTheirKeys(
    reg: Registry, s: State, seller: SellerId, order: seq<Key>, terms: Terms, now: Time, faults: Faults)
    requires forall k :: k in order ==> k in terms
    ensures var (t, ok) := ApplyTerms(reg, s, seller, order, terms, now, faults);
      && OnlyOverridesDiffer(s, t)
      && (ok <==> forall k :: k in order ==> TermWritable(reg, s, seller, terms, k, now, faults))
      && (forall x, k :: !(x == seller && k in order && k in reg) ==> Row(t.db, x, k) == Row(s.db, x, k))
      && (ok ==> forall k :: k in order && k in reg ==> Row(t.db, seller, k) == ValueFor(reg[k].valueType, terms[k]))
  {
    if order != [] {
      var init, k := order[..|order| - 1], order[|order| - 1];
      assert forall x :: x in order <==> x in init || x == k;
      TermsWriteTheirKeys(reg, s, seller, init, terms, now, faults);
      var before := ApplyTerms(reg, s, seller, init, terms, now, faults).0;
      assert TermWritable(reg, s, seller, terms, k, now, faults)
               == TermWritable(reg, before, seller, terms, k, now, faults);
    }
  }

  /**
   Main result, exact: an activation succeeds if and only if the contract exists, is marked and read
   back, no lost supersede leaves another active one in its way, and every known term, and the marker,
   can be written; then the seller's rows are the old ones overlaid with both, whatever order the map
   was walked in.
   */
  lemma ActivateExactly(
    reg: Registry, w: World, seller: SellerId, id: ContractId, order: seq<Key>, now: Time, faults: Faults)
    requires IsOrder(order, TermsOf(w.table, id))
    ensures var terms := TermsOf(w.table, id);
      var (w', ok) := ApplyActivate(reg, w, seller, id, order, now, faults);
      && (ok
          <==> && id in w.table && faults.markOk && faults.readOk
               && (faults.supersedeOk || !IndexRefuses(w.table, seller, id))
               && MarkerWritable(reg, w.engine, seller, id, now, faults)
               && forall k :: k in terms ==> TermWritable(reg, w.engine, seller, terms, k, now, faults))
      && (ok ==> forall x, k :: Row(w'.engine.db, x, k) == Overlaid(reg, w.engine.db, seller, id, terms, x, k))
      && OnlyOverridesDiffer(w.engine, w'.engine)
  {
    if faults.supersedeOk {
      SupersedeMakesRoom(w.table, seller, id);
    }
    if id in w.table {
      ContractExactly(reg, w.engine, seller, id, order, w.table[id].terms, now, faults);
    }
  }

  /** Main result: after an activation that succeeds each known key but the marker's holds the value of its term. */
  lemma TermsArrive(
      reg: Registry, w: World, seller: SellerId, id: ContractId, order: seq<Key>, now: Time, faults: Faults, k: Key)
    requires IsOrder(order, TermsOf(w.table, id)) && k in TermsOf(w.table, id) && k in reg
    ensures var (w', ok) := ApplyActivate(reg, w, seller, id, order, now, faults);
      var t, raw := reg[k].valueType, TermsOf(w.table, id)[k];
      ok ==>
        && Row(w'.engine.db, seller, ACTIVE_ID) == Some(Text(id))
        && (k != ACTIVE_ID && t == TBool ==> raw.Truth? && Row(w'.engine.db, seller, k) == Some(Flag(raw.b)))
        && (k != ACTIVE_ID && (t == TString || t == TDuration) ==>
              raw.Chars? && Row(w'.engine.db, seller, k) == Some(Text(raw.s)))
        && (k != ACTIVE_ID && (t == TInt64 || t == TPaise) ==>
              raw.Number? && forall n: int :: raw.x == n as real ==> Row(w'.engine.db, seller, k) == Some(Int(n)))
        && (k != ACTIVE_ID && (t == TStringList || t == TStringSet) ==>
              raw.Items? && Row(w'.engine.db, seller, k) == Some(Texts(Strings(raw.items))))
  {
    ActivateExactly(reg, w, seller, id, order, now, faults);
    TermsKeepTheirValue(true, "", 0, 0.0, [], [], TermsOf(w.table, id)[k]);
  }

  lemma SupersedeMakesRoom(table: Table, seller: SellerId, id: ContractId)
    ensures !IndexRefuses(Supersede(table, seller), seller, id)
  {
  }

  lemma ContractExactly(
    reg: Registry, s: State, seller: SellerId, id: ContractId, order: seq<Key>, terms: Option<Terms>, now: Time,
    faults: Faults)
    requires IsOrder(order, Entries(terms))
    ensures var (t, ok) := ApplyContract(reg, s, seller, id, order, terms, now, faults);
      && (ok
          <==> MarkerWritable(reg, s, seller, id, now, faults)
               && forall k :: k in Entries(terms) ==> TermWritable(reg, s, seller, Entries(terms), k, now, faults))
      && (ok ==> forall x, k :: Row(t.db, x, k) == Overlaid(reg, s.db, seller, id, Entries(terms), x, k))
      && OnlyOverridesDiffer(s, t)
  {
    WalkIsTerms(terms, order);
    TermsWriteTheirKeys(reg, s, seller, Walk(terms, order), Entries(terms), now, faults);
    var (written, ok) := ApplyTerms(reg, s, seller, Walk(terms, order), Entries(terms), now, faults);
    if ok {
      MarkerExactly(reg, s, written, seller, id, now, faults);
    }
  }

  /** The marker is written last, over an engine that differs in overrides alone. */
  lemma MarkerExactly(reg: Registry, s: State, t: State, seller: SellerId, id: ContractId, now: Time, faults: Faults)
    requires OnlyOverridesDiffer(s, t)
    ensures var (u, reply) := ApplySetOverride(reg, t, seller, ACTIVE_ID, Text(id), now, faults.typeReadOk,
                                               ACTIVE_ID !in faults.failing);
      && (reply == Ok <==> MarkerWritable(reg, s, seller, id, now, faults))
      && OnlyOverridesDiffer(s, u)
      && (reply == Ok
          ==> forall x, k :: Row(u.db, x, k)
                == (if x == seller && k == ACTIVE_ID then Some(Text(id)) else Row(t.db, x, k)))
  {
    var (u, reply) := ApplySetOverride(reg, t, seller, ACTIVE_ID, Text(id), now, faults.typeReadOk,
                                       ACTIVE_ID !in faults.failing);
    if reply == Ok {
      assert u.db.overrides == t.db.overrides[(seller, ACTIVE_ID) := Text(id)];
      forall x, k
        ensures Row(u.db, x, k) == (if x == seller && k == ACTIVE_ID then Some(Text(id)) else Row(t.db, x, k)) {
      }
    }
  }

  lemma WalkIsTerms(terms: Option<Terms>, order: seq<Key>)
    requires IsOrder(order, Entries(terms))
    ensures forall k :: k in Walk(terms, order) <==> k in Entries(terms)
  {
  }

  function Overlaid(
      reg: Registry, db: Db, seller: SellerId, id: ContractId, terms: Terms, x: SellerId, k: Key): Option<Value>
  {
    if x != seller then Row(db, x, k)
    else if k == ACTIVE_ID then Some(Text(id))
    else if Known(reg, terms, k) then ValueFor(reg[k].valueType, terms[k])
    else Row(db, x, k)
  }

  // ---------------------------------------------------------------- successive activations

  datatype Activation = Activation(id: ContractId, order: seq<Key>, now: Time, faults: Faults)

  ghost predicate SameTerms(a: Table, b: Table) {
    a.Keys == b.Keys && forall id :: TermsOf(a, id) == TermsOf(b, id)
  }

  lemma TermsNeverChange(table: Table, seller: SellerId, id: ContractId, faults: Faults)
    ensures SameTerms(ActivatedTable(table, seller, id, faults), table)
  {
    var t := AfterSupersede(table, seller, faults.supersedeOk);
    assert t.Keys == table.Keys;
    assert MarkActive(t, seller, id).Keys == t.Keys;
  }

  ghost predicate Orders(table: Table, acts: seq<Activation>) {
    forall i :: 0 <= i < |acts| ==> IsOrder(acts[i].order, TermsOf(table, acts[i].id))
  }

  /** The world after the activations, and whether each succeeded. */
  function Activations(reg: Registry, w: World, seller: SellerId, acts: seq<Activation>): (r: (World, bool))
    requires Orders(w.table, acts)
    ensures SameTerms(r.0.table, w.table)
  {
    if acts == [] then (w, true)
    else
      var init, a := acts[..|acts| - 1], acts[|acts| - 1];
      assert forall i :: 0 <= i < |init| ==> init[i] == acts[i];
      var (before, ok) := Activations(reg, w, seller, init);
      TermsNeverChange(before.table, seller, a.id, a.faults);
      var (after, last) := ApplyActivate(reg, before, seller, a.id, a.order, a.now, a.faults);
      (after, ok && last)
  }

  /** The term of the last activated contract that names the key. */
  function LastTerm(reg: Registry, table: Table, acts: seq<Activation>, k: Key): Option<Value> {
    if acts == [] || k !in reg then None
    else
      var terms := TermsOf(table, acts[|acts| - 1].id);
      if k in terms then ValueFor(reg[k].valueType, terms[k]) else LastTerm(reg, table, acts[..|acts| - 1], k)
  }

  /**
   Main result: after activations that all succeed, every setting of the seller is the last term
   that names it, the marker is the last contract, and what no contract names is as it was.
   */
  lemma {:induction false} LaterTermsWin(reg: Registry, w: World, seller: SellerId, acts: seq<Activation>, k: Key)
    requires Orders(w.table, acts) && acts != [] && Activations(reg, w, seller, acts).1
    ensures var row := Row(Activations(reg, w, seller, acts).0.engine.db, seller, k);
      if k == ACTIVE_ID then row == Some(Text(acts[|acts| - 1].id))
      else if LastTerm(reg, w.table, acts, k).Some? then row == LastTerm(reg, w.table, acts, k)
      else row == Row(w.engine.db, seller, k)
    decreases |acts|
  {
    var init, a := acts[..|acts| - 1], acts[|acts| - 1];
    assert forall i :: 0 <= i < |init| ==> init[i] == acts[i];
    var before := Activations(reg, w, seller, init).0;
    ActivateExactly(reg, before, seller, a.id, a.order, a.now, a.faults);
    var terms := TermsOf(w.table, a.id);
    assert terms == TermsOf(before.table, a.id);
    if Known(reg, terms, k) {
      assert TermWritable(reg, before.engine, seller, terms, k, a.now, a.faults);
    }
    if init != [] {
      LaterTermsWin(reg, w, seller, init, k);
    }
  }

  // ---------------------------------------------------------------- at most one active

  predicate OneActive(table: Table) {
    forall i, j :: i in table && j in table && i != j ==> !Rivals(table[i], table[j])
  }

  predicate Rivals(a: Contract, b: Contract) {
    a.seller == b.seller && a.phase == b.phase == Active
  }

  datatype Op =
    | Created(seller: SellerId, id: ContractId, terms: Option<Terms>)
    | Activated(seller: SellerId, id: ContractId, faults: Faults)
    | Ended(seller: SellerId, id: ContractId)

  function TableAfter(ops: seq<Op>): Table {
    if ops == [] then map[]
    else
      var t := TableAfter(ops[..|ops| - 1]);
      match ops[|ops| - 1]
      case Created(seller, id, terms) => if id in t then t else t[id := Contract(seller, Draft, terms)]
      case Activated(seller, id, faults) => ActivatedTable(t, seller, id, faults)
      case Ended(seller, id) => MarkTerminated(t, seller, id)
  }

  /** Main result: no serial run leaves a seller two active contracts, lost supersedes included. */
  lemma {:induction false} AtMostOneActive(ops: seq<Op>)
    ensures OneActive(TableAfter(ops))
  {
    if ops != [] {
      AtMostOneActive(ops[..|ops| - 1]);
      var t := TableAfter(ops[..|ops| - 1]);
      match ops[|ops| - 1]
      case Created(seller, id, terms) =>
      case Activated(seller, id, faults) => ActivationKeepsOneActive(t, seller, id, faults);
      case Ended(seller, id) =>
    }
  }

  lemma ActivationKeepsOneActive(t: Table, seller: SellerId, id: ContractId, faults: Faults)
    requires OneActive(t)
    ensures OneActive(ActivatedTable(t, seller, id, faults))
  {
    var u := AfterSupersede(t, seller, faults.supersedeOk);
    forall i, j | i in u && j in u && i != j ensures !Rivals(u[i], u[j]) {
      assert !Rivals(t[i], t[j]);
    }
    if !IndexRefuses(u, seller, id) {
      MarkingKeepsOneActive(u, seller, id);
    }
  }

  lemma MarkingKeepsOneActive(u: Table, seller: SellerId, id: ContractId)
    requires OneActive(u) && !IndexRefuses(u, seller, id)
    ensures OneActive(MarkActive(u, seller, id))
  {
    var v := MarkActive(u, seller, id);
    forall i, j | i in v && j in v && i != j ensures !Rivals(v[i], v[j]) {
      assert !Rivals(u[i], u[j]);
    }
  }

  // ---------------------------------------------------------------- termination

  /** Removing keys one by one leaves the rows without them. */
  lemma {:induction false} RemoveAllRows(reg: Registry, s: State, seller: SellerId, keys: seq<Key>)
    ensures forall x, k :: Row(RemoveAll(reg, s, seller, keys).db, x, k) == RowWithout(reg, s.db, seller, keys, x, k)
  {
    if keys != [] {
      var init, last := keys[..|keys| - 1], keys[|keys| - 1];
      RemoveAllRows(reg, s, seller, init);
      var before, after := RemoveAll(reg, s, seller, init), RemoveAll(reg, s, seller, keys);
      forall x, k ensures Row(after.db, x, k) == RowWithout(reg, s.db, seller, keys, x, k) {
        assert Row(before.db, x, k) == RowWithout(reg, s.db, seller, init, x, k);
        assert k in keys <==> k in init || k == last;
      }
    }
  }

  function RowWithout(reg: Registry, db: Db, seller: SellerId, keys: seq<Key>, x: SellerId, k: Key): Option<Value> {
    if x == seller && k in keys && k in reg then None else Row(db, x, k)
  }

  /** A contract's own keys, the marker included. */
  predicate Owned(reg: Registry, terms: Terms, k: Key) {
    Known(reg, terms, k) || k == ACTIVE_ID
  }

  lemma ActivateWritesItsKeys(
    reg: Registry, w: World, seller: SellerId, id: ContractId, order: seq<Key>, now: Time, faults: Faults)
    requires id in w.table && IsOrder(order, TermsOf(w.table, id))
    ensures var activated := ApplyActivate(reg, w, seller, id, order, now, faults).0;
      && id in activated.table && activated.table[id].terms == w.table[id].terms
      && forall x, k :: !(x == seller && Owned(reg, TermsOf(w.table, id), k))
           ==> Row(activated.engine.db, x, k) == Row(w.engine.db, x, k)
  {
    TermsWriteTheirKeys(reg, w.engine, seller, Walk(w.table[id].terms, order), TermsOf(w.table, id), now, faults);
  }

  /**
   Main result: activating a contract and then terminating it, even when the activation stopped
   half-way, leaves every other setting alone and removes exactly the contract's keys.
   */
  lemma ActivateThenTerminateRemovesItsKeys(
      reg: Registry, w: World, seller: SellerId, id: ContractId, order: seq<Key>, now: Time, faults: Faults,
      order': seq<Key>)
    requires ACTIVE_ID in reg && id in w.table
    requires IsOrder(order, TermsOf(w.table, id)) && IsOrder(order', TermsOf(w.table, id))
    ensures var activated := ApplyActivate(reg, w, seller, id, order, now, faults).0;
      var ended := ApplyTerminate(reg, activated, seller, id, order').0;
      forall x, k :: Row(ended.engine.db, x, k)
        == (if x == seller && Owned(reg, TermsOf(w.table, id), k) then None else Row(w.engine.db, x, k))
  {
    var terms := TermsOf(w.table, id);
    var activated := ApplyActivate(reg, w, seller, id, order, now, faults).0;
    ActivateWritesItsKeys(reg, w, seller, id, order, now, faults);
    var keys := Walk(w.table[id].terms, order') + [ACTIVE_ID];
    RemoveAllRows(reg, activated.engine, seller, keys);
    forall x, k
      ensures RowWithout(reg, activated.engine.db, seller, keys, x, k)
                == (if x == seller && Owned(reg, terms, k) then None else Row(w.engine.db, x, k))
    {
      assert k in keys <==> k in terms || k == ACTIVE_ID;
    }
  }

  /**
   Main result, exact: the pair is the identity on overrides if and only if the seller had overridden
   none of the contract's keys before.
   */
  lemma ActivateThenTerminateIsIdentityExactly(
      reg: Registry, w: World, seller: SellerId, id: ContractId, order: seq<Key>, now: Time, faults: Faults,
      order': seq<Key>)
    requires ACTIVE_ID in reg && id in w.table
    requires IsOrder(order, TermsOf(w.table, id)) && IsOrder(order', TermsOf(w.table, id))
    ensures var activated := ApplyActivate(reg, w, seller, id, order, now, faults).0;
      var ended := ApplyTerminate(reg, activated, seller, id, order').0;
      ended.engine.db.overrides == w.engine.db.overrides
      <==> forall k :: Owned(reg, TermsOf(w.table, id), k) ==> (seller, k) !in w.engine.db.overrides
  {
    var terms := TermsOf(w.table, id);
    ActivateThenTerminateRemovesItsKeys(reg, w, seller, id, order, now, faults, order');
    var before := w.engine.db;
    var after := ApplyTerminate(reg, ApplyActivate(reg, w, seller, id, order, now, faults).0, seller, id,
                                order').0.engine.db;
    if after.overrides == before.overrides {
      forall k | Owned(reg, terms, k) ensures (seller, k) !in before.overrides {
        assert Row(after, seller, k) == None;
      }
    }
    if forall k :: Owned(reg, terms, k) ==> (seller, k) !in before.overrides {
      forall x, k ensures Row(after, x, k) == Row(before, x, k) {
      }
      SameRows(before, after);
    }
  }

  lemma SameRows(a: Db, b: Db)
    requires forall x, k :: Row(a, x, k) == Row(b, x, k)
    ensures a.overrides == b.overrides
  {
    forall p: (SellerId, Key)
      ensures p in a.overrides <==> p in b.overrides
      ensures p in a.overrides ==> a.overrides[p] == b.overrides[p]
    {
      assert p == (p.0, p.1);
      assert Row(a, p.0, p.1) == Row(b, p.0, p.1);
    }
  }

  /**
   Main result: termination does not ask whether the contract is the active one. Terminating a
   contract that a later one superseded leaves the later contract active in the table while its
   marker, and every term the two share, are gone.
   */
  lemma TerminatingTheOldStripsTheNew(
      reg: Registry, w: World, seller: SellerId, one: Activation, two: Activation, order: seq<Key>)
    requires ACTIVE_ID in reg && one.id != two.id && Orders(w.table, [one, two]) && one.faults.supersedeOk
             && one.faults.markOk && two.faults.supersedeOk && two.faults.markOk
    requires two.id in w.table && w.table[two.id].seller == seller && one.id in w.table
    requires IsOrder(order, TermsOf(w.table, one.id))
    ensures var both := Activations(reg, w, seller, [one, two]).0;
      var ended := ApplyTerminate(reg, both, seller, one.id, order).0;
      && two.id in ended.table && ended.table[two.id].phase == Active
      && Row(ended.engine.db, seller, ACTIVE_ID) == None
      && forall k :: Known(reg, TermsOf(w.table, one.id), k) && Known(reg, TermsOf(w.table, two.id), k)
           ==> Row(ended.engine.db, seller, k) == None
  {
    var both := Activations(reg, w, seller, [one, two]).0;
    BothActivated(reg, w, seller, one, two);
    var keys := Walk(both.table[one.id].terms, order) + [ACTIVE_ID];
    assert TermsOf(both.table, one.id) == TermsOf(w.table, one.id);
    RemoveAllRows(reg, both.engine, seller, keys);
    assert ACTIVE_ID in keys && forall k :: k in TermsOf(w.table, one.id) ==> k in keys;
  }

  lemma BothActivated(reg: Registry, w: World, seller: SellerId, one: Activation, two: Activation)
    requires one.id != two.id && Orders(w.table, [one, two]) && one.faults.supersedeOk && one.faults.markOk
             && two.faults.supersedeOk && two.faults.markOk
    requires two.id in w.table && w.table[two.id].seller == seller && one.id in w.table
    ensures var table := Activations(reg, w, seller, [one, two]).0.table;
      && one.id in table && two.id in table
      && table[two.id].phase == Active && (table[one.id].seller == seller ==> table[one.id].phase != Active)
  {
    var acts := [one, two];
    assert acts[..1] == [one];
    var before := Activations(reg, w, seller, [one]).0;
    TermsNeverChange(before.table, seller, two.id, two.faults);
    SupersedeMakesRoom(w.table, seller, one.id);
    SupersedeMakesRoom(before.table, seller, two.id);
    var none: seq<Activation> := [];
    assert [one][..0] == none && Activations(reg, w, seller, none).0 == w;
    assert before.table == MarkActive(Supersede(w.table, seller), seller, one.id);
    assert Activations(reg, w, seller, acts).0.table == MarkActive(Supersede(before.table, seller), seller, two.id);
  }
}
