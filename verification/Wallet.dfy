/**
 The two-phase wallet (backend/internal/wallet): an account row, a hold table and an append-only
 ledger per seller, with the conflict rules of the SQL and the constraints of migration 0009.

 A service call is one transaction: it commits all of its writes or none. `Apply` is the
 specification of a call; the class performs the Go steps and is proved against it.
 */
module Wallet {
  import opened Core

  type HoldId = nat

  datatype Ref = Ref(kind: string, id: string)
  datatype Direction = Credited | Debited
  datatype Entry = Entry(seller: SellerId, direction: Direction, amount: int, ref: Ref)
  datatype HoldStatus = Active | Confirmed | Released | Expired
  datatype Hold = Hold(id: HoldId, seller: SellerId, amount: int, status: HoldStatus, ref: Ref)
  datatype AccountStatus = Open | Frozen | WoundDown
  datatype Account = Account(balance: int, holdTotal: int, credit: int, grace: int, status: AccountStatus)

  /** The three tables. wallet_account is unique on seller_id, so the seller names the wallet. */
  datatype Bank = Bank(accounts: map<SellerId, Account>, ledger: seq<Entry>, holds: seq<Hold>)

  datatype Call =
    | EnsureAccount(seller: SellerId)
    | Credit(seller: SellerId, amount: int, ref: Ref)
    | Reserve(seller: SellerId, amount: int, ref: Ref, uuid: HoldId)
    | Confirm(seller: SellerId, hold: HoldId, ref: Ref)
    | Release(seller: SellerId, hold: HoldId)
    | Debit(seller: SellerId, amount: int, ref: Ref)

  datatype Reply = Ok | Held(id: HoldId) | Err(error: Error)

  // ---------------------------------------------------------------- the SQL

  /** UNIQUE (ref_type, ref_id, direction): across all sellers. */
  predicate LedgerHas(ledger: seq<Entry>, ref: Ref, direction: Direction) {
    exists k :: 0 <= k < |ledger| && ledger[k].ref == ref && ledger[k].direction == direction
  }

  /** ON CONFLICT (ref_type, ref_id, direction) DO NOTHING. */
  function InsertEntry(ledger: seq<Entry>, e: Entry): seq<Entry> {
    if LedgerHas(ledger, e.ref, e.direction) then ledger else ledger + [e]
  }

  /** The row with this ref, if any. */
  function ByRef(holds: seq<Hold>, ref: Ref): (r: Option<nat>)
    ensures r.Some? ==> r.value < |holds| && holds[r.value].ref == ref
    ensures r.None? ==> forall k :: 0 <= k < |holds| ==> holds[k].ref != ref
    decreases |holds|
  {
    if holds == [] then None
    else if holds[|holds| - 1].ref == ref then Some(|holds| - 1)
    else ByRef(holds[..|holds| - 1], ref)
  }

  /** The row with this id that row-level security shows to the seller, if any. */
  function ById(holds: seq<Hold>, seller: SellerId, id: HoldId): (r: Option<nat>)
    ensures r.Some? ==> r.value < |holds| && holds[r.value].id == id && holds[r.value].seller == seller
    ensures r.None? ==> forall k :: 0 <= k < |holds| ==> holds[k].id != id || holds[k].seller != seller
    decreases |holds|
  {
    if holds == [] then None
    else if holds[|holds| - 1].id == id && holds[|holds| - 1].seller == seller then Some(|holds| - 1)
    else ById(holds[..|holds| - 1], seller, id)
  }

  function AddBalance(accounts: map<SellerId, Account>, seller: SellerId, delta: int): map<SellerId, Account> {
    if seller in accounts then
      accounts[seller := accounts[seller].(balance := accounts[seller].balance + delta)]
    else
      accounts
  }

  function AddHoldTotal(accounts: map<SellerId, Account>, seller: SellerId, delta: int): map<SellerId, Account> {
    if seller in accounts then
      accounts[seller := accounts[seller].(holdTotal := accounts[seller].holdTotal + delta)]
    else
      accounts
  }

  function Available(a: Account): int {
    a.balance + a.credit - a.holdTotal
  }

  // ---------------------------------------------------------------- specification of a call

  const DEFAULT_GRACE := 50_000

  function ApplyReserve(b: Bank, seller: SellerId, amount: int, ref: Ref, uuid: HoldId): (Bank, Reply) {
    if seller !in b.accounts then (b, Err(NotFound))
    else
      var a := b.accounts[seller];
      if a.status != Open then (b, Err(PermissionDenied))
      else if Available(a) < amount then (b, Err(InvalidArgument))
      else if amount <= 0 then (b, Err(Database))
      else match ByRef(b.holds, ref)
        case None =>
          (b.(holds := b.holds + [Hold(uuid, seller, amount, Active, ref)],
              accounts := AddHoldTotal(b.accounts, seller, amount)), Held(uuid))
        case Some(k) =>
          var h := b.holds[k];
          if h.seller != seller then (b, Err(Database))
          else if h.status == Active then (b, Held(h.id))
          // a resolved row is handed the new id and keeps its status, yet hold_total grows
          else (b.(holds := b.holds[k := h.(id := uuid)], accounts := AddHoldTotal(b.accounts, seller, amount)),
                Held(uuid))
  }

  function ApplyConfirm(b: Bank, seller: SellerId, hold: HoldId, ref: Ref): (Bank, Reply) {
    match ById(b.holds, seller, hold)
    case None => (b, Err(NotFound))
    case Some(k) =>
      var h := b.holds[k];
      if h.status == Confirmed then (b, Ok)
      else if h.status != Active then (b, Err(Other))
      // a skipped ledger insert leaves resolved_to_ledger_entry_id dangling: the foreign key refuses
      else if LedgerHas(b.ledger, ref, Debited) then (b, Err(Database))
      else
        (Bank(AddHoldTotal(AddBalance(b.accounts, seller, -h.amount), seller, -h.amount),
              b.ledger + [Entry(seller, Debited, h.amount, ref)],
              b.holds[k := h.(status := Confirmed)]), Ok)
  }

  function ApplyRelease(b: Bank, seller: SellerId, hold: HoldId): (Bank, Reply) {
    match ById(b.holds, seller, hold)
    case None => (b, Err(NotFound))
    case Some(k) =>
      var h := b.holds[k];
      if h.status == Released || h.status == Expired then (b, Ok)
      else if h.status != Active then (b, Err(Other))
      else (b.(holds := b.holds[k := h.(status := Released)],
               accounts := AddHoldTotal(b.accounts, seller, -h.amount)), Ok)
  }

  function ApplyDebit(b: Bank, seller: SellerId, amount: int, ref: Ref): (Bank, Reply) {
    if seller !in b.accounts then (b, Err(NotFound))
    else
      var a := b.accounts[seller];
      if a.balance - amount < -(a.grace + a.credit) then (b, Err(InvalidArgument))
      else if amount <= 0 then (b, Err(Database))
      else (b.(ledger := InsertEntry(b.ledger, Entry(seller, Debited, amount, ref)),
               accounts := AddBalance(b.accounts, seller, -amount)), Ok)
  }

  function ApplyCredit(b: Bank, seller: SellerId, amount: int, ref: Ref): (Bank, Reply) {
    if seller !in b.accounts then (b, Err(NotFound))
    else if amount <= 0 then (b, Err(Database))
    else (b.(ledger := InsertEntry(b.ledger, Entry(seller, Credited, amount, ref)),
             accounts := AddBalance(b.accounts, seller, amount)), Ok)
  }

  function Apply(b: Bank, c: Call): (Bank, Reply) {
    match c
    case EnsureAccount(seller) =>
      (if seller in b.accounts then b
       else b.(accounts := b.accounts[seller := Account(0, 0, 0, DEFAULT_GRACE, Open)]), Ok)
    case Credit(seller, amount, ref) => ApplyCredit(b, seller, amount, ref)
    case Reserve(seller, amount, ref, uuid) => ApplyReserve(b, seller, amount, ref, uuid)
    case Confirm(seller, hold, ref) => ApplyConfirm(b, seller, hold, ref)
    case Release(seller, hold) => ApplyRelease(b, seller, hold)
    case Debit(seller, amount, ref) => ApplyDebit(b, seller, amount, ref)
  }

  // ---------------------------------------------------------------- what a call does to the tables

  /** At most this seller's account differs, and only in balance and hold total. */
  predicate OnlySums(a: map<SellerId, Account>, a': map<SellerId, Account>, seller: SellerId, balance: int, held: int) {
    && a'.Keys == a.Keys
    && (forall s :: s in a && s != seller ==> a'[s] == a[s])
    && (seller in a ==>
          && a'[seller].balance == a[seller].balance + balance && a'[seller].holdTotal == a[seller].holdTotal + held
          && a'[seller].credit == a[seller].credit && a'[seller].grace == a[seller].grace
          && a'[seller].status == a[seller].status)
  }

  /** Row k alone differs, and only in its status. */
  predicate OnlyStatus(h: seq<Hold>, h': seq<Hold>, k: nat, to: HoldStatus) {
    && k < |h| == |h'| && (forall j :: 0 <= j < |h| && j != k ==> h'[j] == h[j])
    && h'[k] == Hold(h[k].id, h[k].seller, h[k].amount, to, h[k].ref)
  }

  /**
   Main result: a Release frees exactly the funds of an active hold, once; a released or expired hold
   answers Ok and a confirmed one an error, and then nothing changes.
   */
  lemma ReleaseFreesTheFunds(b: Bank, seller: SellerId, hold: HoldId)
    ensures var (b', r) := ApplyRelease(b, seller, hold);
      match ById(b.holds, seller, hold)
      case None => r == Err(NotFound) && b' == b
      case Some(k) =>
        var h := b.holds[k];
        match h.status
        case Active =>
          && r == Ok && b'.ledger == b.ledger && OnlyStatus(b.holds, b'.holds, k, Released)
          && OnlySums(b.accounts, b'.accounts, seller, 0, -h.amount)
          && (seller in b.accounts ==> Available(b'.accounts[seller]) == Available(b.accounts[seller]) + h.amount)
        case Released => r == Ok && b' == b
        case Expired => r == Ok && b' == b
        case Confirmed => r == Err(Other) && b' == b
  {
  }

  /**
   Main result: a Confirm of an active hold under a fresh debit ref moves its amount from hold to
   ledger and leaves the available funds alone; a used ref is refused, a confirmed hold answers Ok, a
   released or expired one an error, and then nothing changes.
   */
  lemma ConfirmSpendsTheHold(b: Bank, seller: SellerId, hold: HoldId, ref: Ref)
    ensures var (b', r) := ApplyConfirm(b, seller, hold, ref);
      match ById(b.holds, seller, hold)
      case None => r == Err(NotFound) && b' == b
      case Some(k) =>
        var h := b.holds[k];
        match h.status
        case Active =>
          if LedgerHas(b.ledger, ref, Debited) then r == Err(Database) && b' == b
          else
            && r == Ok && b'.ledger == b.ledger + [Entry(seller, Debited, h.amount, ref)]
            && OnlyStatus(b.holds, b'.holds, k, Confirmed)
            && OnlySums(b.accounts, b'.accounts, seller, -h.amount, -h.amount)
            && (seller in b.accounts ==> Available(b'.accounts[seller]) == Available(b.accounts[seller]))
        case Confirmed => r == Ok && b' == b
        case Released => r == Err(Other) && b' == b
        case Expired => r == Err(Other) && b' == b
  {
  }

  /** What a Reserve writes, and when it is refused; a row under the ref decides which. */
  lemma ReserveHoldsTheFunds(b: Bank, seller: SellerId, amount: int, ref: Ref, uuid: HoldId)
    ensures var (b', r) := ApplyReserve(b, seller, amount, ref, uuid);
      if seller !in b.accounts then r == Err(NotFound) && b' == b
      else if b.accounts[seller].status != Open then r == Err(PermissionDenied) && b' == b
      else if b.accounts[seller].balance + b.accounts[seller].credit - b.accounts[seller].holdTotal < amount then
        r == Err(InvalidArgument) && b' == b
      else if amount <= 0 then r == Err(Database) && b' == b
      else match ByRef(b.holds, ref)
        case None =>
          && r == Held(uuid) && b'.ledger == b.ledger && OnlySums(b.accounts, b'.accounts, seller, 0, amount)
          && b'.holds == b.holds + [Hold(uuid, seller, amount, Active, ref)]
        case Some(k) =>
          var h := b.holds[k];
          if h.seller != seller then r == Err(Database) && b' == b
          else if h.status == Active then r == Held(h.id) && b' == b
          else
            && r == Held(uuid) && b'.ledger == b.ledger && OnlySums(b.accounts, b'.accounts, seller, 0, amount)
            && |b'.holds| == |b.holds| && (forall j :: 0 <= j < |b.holds| && j != k ==> b'.holds[j] == b.holds[j])
            && b'.holds[k] == Hold(uuid, seller, h.amount, h.status, ref)
  {
  }

  /** Credit and Debit write at most one ledger row and move the balance by the amount; a new account is empty. */
  lemma CreditAndDebitMoveTheBalance(b: Bank, seller: SellerId, amount: int, ref: Ref)
    ensures var (b', r) := Apply(b, Credit(seller, amount, ref));
      if seller !in b.accounts then r == Err(NotFound) && b' == b
      else if amount <= 0 then r == Err(Database) && b' == b
      else
        && r == Ok && b'.holds == b.holds && OnlySums(b.accounts, b'.accounts, seller, amount, 0)
        && b'.ledger == b.ledger + (if exists k :: 0 <= k < |b.ledger| && b.ledger[k].ref == ref
                                        && b.ledger[k].direction == Credited
                                    then [] else [Entry(seller, Credited, amount, ref)])
    ensures var (b', r) := Apply(b, Debit(seller, amount, ref));
      if seller !in b.accounts then r == Err(NotFound) && b' == b
      else if b.accounts[seller].balance - amount < -(b.accounts[seller].grace + b.accounts[seller].credit) then
        r == Err(InvalidArgument) && b' == b
      else if amount <= 0 then r == Err(Database) && b' == b
      else
        && r == Ok && b'.holds == b.holds && OnlySums(b.accounts, b'.accounts, seller, -amount, 0)
        && b'.ledger == b.ledger + (if exists k :: 0 <= k < |b.ledger| && b.ledger[k].ref == ref
                                        && b.ledger[k].direction == Debited
                                    then [] else [Entry(seller, Debited, amount, ref)])
    ensures var (b', r) := Apply(b, EnsureAccount(seller));
      && r == Ok && b'.ledger == b.ledger && b'.holds == b.holds && b'.accounts.Keys == b.accounts.Keys + {seller}
      && (forall s :: s in b.accounts ==> b'.accounts[s] == b.accounts[s])
      && (seller !in b.accounts ==> b'.accounts[seller] == Account(0, 0, 0, 50_000, Open))
  {
    assert b.ledger + [] == b.ledger;
  }

  // ---------------------------------------------------------------- the service

  class WalletService {
    var accounts: map<SellerId, Account>
    var ledger: seq<Entry>
    var holds: seq<Hold>

    constructor ()
      ensures B() == Bank(map[], [], [])
    {
      accounts := map[];
      ledger := [];
      holds := [];
    }

    function B(): Bank
      reads this
    {
      Bank(accounts, ledger, holds)
    }

    /** insertLedgerEntry: CHECK (amount_minor > 0), then the conflict rule. */
    method InsertLedgerEntry(e: Entry) returns (ok: bool)
      modifies this`ledger
      ensures ok <==> e.amount > 0
      ensures ledger == if ok then InsertEntry(old(ledger), e) else old(ledger)
    {
      ok := e.amount > 0;
      if ok && !LedgerHas(ledger, e.ref, e.direction) {
        ledger := ledger + [e];
      }
    }

    method UpdateBalance(seller: SellerId, delta: int)
      modifies this`accounts
      ensures accounts == AddBalance(old(accounts), seller, delta)
    {
      if seller in accounts {
        accounts := accounts[seller := accounts[seller].(balance := accounts[seller].balance + delta)];
      }
    }

    method UpdateHoldTotal(seller: SellerId, delta: int)
      modifies this`accounts
      ensures accounts == AddHoldTotal(old(accounts), seller, delta)
    {
      if seller in accounts {
        accounts := accounts[seller := accounts[seller].(holdTotal := accounts[seller].holdTotal + delta)];
      }
    }

    /** insertOrGetHold: the id the statement returns, or nothing when the database refuses it. */
    method InsertOrGetHold(uuid: HoldId, seller: SellerId, amount: int, ref: Ref) returns (actual: Option<HoldId>)
      modifies this`holds
      ensures amount <= 0 ==> actual == None
      ensures amount > 0 ==>
        match ByRef(old(holds), ref)
        case None => actual == Some(uuid) && holds == old(holds) + [Hold(uuid, seller, amount, Active, ref)]
        case Some(k) =>
          var h := old(holds)[k];
          if h.seller != seller then actual == None
          else
            && actual == Some(if h.status == Active then h.id else uuid)
            && holds == old(holds)[k := h.(id := actual.value)]
      ensures actual == None ==> holds == old(holds)
    {
      if amount <= 0 {
        return None;
      }
      var row := ByRef(holds, ref);
      if row.None? {
        holds := holds + [Hold(uuid, seller, amount, Active, ref)];
        return Some(uuid);
      }
      var h := holds[row.value];
      if h.seller != seller {
        return None;
      }
      var id := if h.status == Active then h.id else uuid;
      holds := holds[row.value := h.(id := id)];
      return Some(id);
    }

    method Credit(seller: SellerId, amount: int, ref: Ref) returns (r: Reply)
      modifies this
      ensures (B(), r) == ApplyCredit(old(B()), seller, amount, ref)
    {
      if seller !in accounts {
        return Err(NotFound);
      }
      var ok := InsertLedgerEntry(Entry(seller, Credited, amount, ref));
      if !ok {
        return Err(Database);
      }
      UpdateBalance(seller, amount);
      r := Ok;
    }

    method Debit(seller: SellerId, amount: int, ref: Ref) returns (r: Reply)
      modifies this
      ensures (B(), r) == ApplyDebit(old(B()), seller, amount, ref)
    {
      if seller !in accounts {
        return Err(NotFound);
      }
      var a := accounts[seller];
      var floor := -(a.grace + a.credit);
      if a.balance - amount < floor {
        return Err(InvalidArgument);
      }
      var ok := InsertLedgerEntry(Entry(seller, Debited, amount, ref));
      if !ok {
        return Err(Database);
      }
      UpdateBalance(seller, -amount);
      r := Ok;
    }

    /** The uuid is freshly drawn: no row carries it, so equality of ids tells a new hold from a replay. */
    method Reserve(seller: SellerId, amount: int, ref: Ref, uuid: HoldId) returns (r: Reply)
      requires forall k :: 0 <= k < |holds| ==> holds[k].id != uuid
      modifies this
      ensures (B(), r) == ApplyReserve(old(B()), seller, amount, ref, uuid)
    {
      if seller !in accounts {
        return Err(NotFound);
      }
      var a := accounts[seller];
      if a.status != Open {
        return Err(PermissionDenied);
      }
      var available := a.balance + a.credit - a.holdTotal;
      if available < amount {
        return Err(InvalidArgument);
      }
      ghost var was, row := holds, ByRef(holds, ref);
      var actual := InsertOrGetHold(uuid, seller, amount, ref);
      if actual.None? {
        return Err(Database);
      }
      if actual.value == uuid {
        UpdateHoldTotal(seller, amount);
      } else {
        // an active row was handed back as it was
        assert row.Some? && was[row.value := was[row.value]] == was;
        assert holds == was;
      }
      r := Held(actual.value);
    }

    method Confirm(seller: SellerId, hold: HoldId, ref: Ref) returns (r: Reply)
      requires forall k :: 0 <= k < |holds| ==> holds[k].amount > 0
      modifies this
      ensures (B(), r) == ApplyConfirm(old(B()), seller, hold, ref)
    {
      var row := ById(holds, seller, hold);
      if row.None? {
        return Err(NotFound);
      }
      var h := holds[row.value];
      if h.status == Confirmed {
        return Ok;
      }
      if h.status != Active {
        return Err(Other);
      }
      var rows := |ledger|;
      var ok := InsertLedgerEntry(Entry(h.seller, Debited, h.amount, ref));
      if !ok || |ledger| == rows {
        // resolveHold would point at a ledger row that was not inserted
        return Err(Database);
      }
      holds := holds[row.value := h.(status := Confirmed)];
      UpdateBalance(h.seller, -h.amount);
      UpdateHoldTotal(h.seller, -h.amount);
      r := Ok;
    }

    method Release(seller: SellerId, hold: HoldId) returns (r: Reply)
      modifies this
      ensures (B(), r) == ApplyRelease(old(B()), seller, hold)
      ensures forall k :: ById(old(holds), seller, hold) == Some(k) && old(holds)[k].status == Active ==>
        && r == Ok && k < |holds| && holds[k].status == Released
        && (seller in old(accounts) ==>
              && seller in accounts
              && accounts[seller].holdTotal == old(accounts)[seller].holdTotal - old(holds)[k].amount)
    {
      var row := ById(holds, seller, hold);
      if row.None? {
        return Err(NotFound);
      }
      var h := holds[row.value];
      if h.status == Released || h.status == Expired {
        return Ok;
      }
      if h.status != Active {
        return Err(Other);
      }
      holds := holds[row.value := h.(status := Released)];
      UpdateHoldTotal(h.seller, -h.amount);
      r := Ok;
    }

    method EnsureAccount(seller: SellerId)
      modifies this
      ensures B() == Apply(old(B()), Call.EnsureAccount(seller)).0
    {
      if seller !in accounts {
        accounts := accounts[seller := Account(0, 0, 0, DEFAULT_GRACE, Open)];
      }
    }
  }

  // ---------------------------------------------------------------- runs

  /** Before any call: accounts at zero, each with its own credit limit and grace amount. */
  predicate Opening(b: Bank) {
    && b.ledger == [] && b.holds == []
    && forall s :: s in b.accounts
         ==> b.accounts[s].balance == 0 && b.accounts[s].holdTotal == 0 && b.accounts[s].credit >= 0
  }

  function Run(b: Bank, calls: seq<Call>): Bank
    decreases |calls|
  {
    if calls == [] then b else Apply(Run(b, calls[..|calls| - 1]), calls[|calls| - 1]).0
  }

  predicate SoundHolds(b: Bank) {
    && (forall k :: 0 <= k < |b.holds| ==> b.holds[k].amount > 0 && b.holds[k].seller in b.accounts)
    && (forall j, k :: 0 <= j < k < |b.holds| ==> b.holds[j].ref != b.holds[k].ref)
  }

  predicate SameKey(e: Entry, f: Entry) {
    e.ref == f.ref && e.direction == f.direction
  }

  predicate SoundLedger(ledger: seq<Entry>) {
    && (forall k :: 0 <= k < |ledger| ==> ledger[k].amount > 0)
    && (forall j, k :: 0 <= j < k < |ledger| ==> !SameKey(ledger[j], ledger[k]))
  }

  /** Table constraints every call keeps. */
  predicate Sound(b: Bank) {
    SoundHolds(b) && SoundLedger(b.ledger)
  }

  lemma InsertKeepsSoundLedger(ledger: seq<Entry>, e: Entry)
    requires SoundLedger(ledger) && e.amount > 0
    ensures SoundLedger(InsertEntry(ledger, e))
  {
  }

  /** Status or id of one row changes; its ref, amount and seller do not. */
  lemma UpdateKeepsSoundHolds(b: Bank, accounts: map<SellerId, Account>, k: nat, h: Hold)
    requires SoundHolds(b) && k < |b.holds| && b.accounts.Keys <= accounts.Keys
    requires h.ref == b.holds[k].ref && h.amount == b.holds[k].amount && h.seller == b.holds[k].seller
    ensures SoundHolds(b.(holds := b.holds[k := h], accounts := accounts))
  {
  }

  lemma ApplyKeepsSound(b: Bank, c: Call)
    requires Sound(b)
    ensures Sound(Apply(b, c).0)
  {
    var b' := Apply(b, c).0;
    match c
    case EnsureAccount(seller) =>
    case Credit(seller, amount, ref) =>
      if b' != b {
        InsertKeepsSoundLedger(b.ledger, Entry(seller, Credited, amount, ref));
      }
    case Debit(seller, amount, ref) =>
      if b' != b {
        InsertKeepsSoundLedger(b.ledger, Entry(seller, Debited, amount, ref));
      }
    case Reserve(seller, amount, ref, uuid) =>
      var row := ByRef(b.holds, ref);
      if b' != b && row.Some? {
        UpdateKeepsSoundHolds(b, b'.accounts, row.value, b.holds[row.value].(id := uuid));
      }
    case Confirm(seller, hold, ref) =>
      var row := ById(b.holds, seller, hold);
      if b' != b {
        var h := b.holds[row.value];
        InsertKeepsSoundLedger(b.ledger, Entry(seller, Debited, h.amount, ref));
        UpdateKeepsSoundHolds(b, b'.accounts, row.value, h.(status := Confirmed));
      }
    case Release(seller, hold) =>
      var row := ById(b.holds, seller, hold);
      if b' != b {
        UpdateKeepsSoundHolds(b, b'.accounts, row.value, b.holds[row.value].(status := Released));
      }
  }

  lemma {:induction false} RunIsSound(b: Bank, calls: seq<Call>)
    requires Opening(b)
    ensures Sound(Run(b, calls))
    decreases |calls|
  {
    if calls != [] {
      RunIsSound(b, calls[..|calls| - 1]);
      ApplyKeepsSound(Run(b, calls[..|calls| - 1]), calls[|calls| - 1]);
    }
  }

  // ---------------------------------------------------------------- conservation

  function Signed(e: Entry, seller: SellerId): int {
    if e.seller != seller then 0 else if e.direction == Credited then e.amount else -e.amount
  }

  /** Credits minus debits in a seller's ledger. */
  function Net(ledger: seq<Entry>, seller: SellerId): int
    decreases |ledger|
  {
    if ledger == [] then 0 else Net(ledger[..|ledger| - 1], seller) + Signed(ledger[|ledger| - 1], seller)
  }

  function ActiveAmount(h: Hold, seller: SellerId): int {
    if h.seller == seller && h.status == Active then h.amount else 0
  }

  function ActiveSum(holds: seq<Hold>, seller: SellerId): int
    decreases |holds|
  {
    if holds == [] then 0 else ActiveSum(holds[..|holds| - 1], seller) + ActiveAmount(holds[|holds| - 1], seller)
  }

  lemma NetAppend(ledger: seq<Entry>, e: Entry, seller: SellerId)
    ensures Net(ledger + [e], seller) == Net(ledger, seller) + Signed(e, seller)
  {
    assert (ledger + [e])[..|ledger|] == ledger;
  }

  lemma ActiveAppend(holds: seq<Hold>, h: Hold, seller: SellerId)
    ensures ActiveSum(holds + [h], seller) == ActiveSum(holds, seller) + ActiveAmount(h, seller)
  {
    assert (holds + [h])[..|holds|] == holds;
  }

  lemma {:induction false} ActiveUpdate(holds: seq<Hold>, k: nat, h: Hold, seller: SellerId)
    requires k < |holds|
    ensures ActiveSum(holds[k := h], seller)
              == ActiveSum(holds, seller) - ActiveAmount(holds[k], seller) + ActiveAmount(h, seller)
    decreases |holds|
  {
    var init := holds[..|holds| - 1];
    if k < |holds| - 1 {
      assert holds[k := h][..|holds| - 1] == init[k := h];
      ActiveUpdate(init, k, h, seller);
    } else {
      assert holds[k := h][..|holds| - 1] == init;
    }
  }

  function BalanceOf(b: Bank, s: SellerId): int {
    if s in b.accounts then b.accounts[s].balance else 0
  }

  function HoldTotalOf(b: Bank, s: SellerId): int {
    if s in b.accounts then b.accounts[s].holdTotal else 0
  }

  /** A Credit or Debit that succeeds although its ledger insert is dropped: the signed amount that leaves no trace. */
  function Untraced(b: Bank, c: Call, s: SellerId): int {
    match c
    case Credit(seller, amount, ref) =>
      if seller == s && Apply(b, c).1 == Ok && LedgerHas(b.ledger, ref, Credited) then amount else 0
    case Debit(seller, amount, ref) =>
      if seller == s && Apply(b, c).1 == Ok && LedgerHas(b.ledger, ref, Debited) then -amount else 0
    case _ => 0
  }

  /** A Reserve that succeeds on a ref whose hold is already resolved: held, but by no active hold. */
  function Leaked(b: Bank, c: Call, s: SellerId): int {
    match c
    case Reserve(seller, amount, ref, _) =>
      if seller == s && Apply(b, c).1.Held? && ByRef(b.holds, ref).Some?
         && b.holds[ByRef(b.holds, ref).value].status != Active
      then amount else 0
    case _ => 0
  }

  function UntracedSum(b: Bank, calls: seq<Call>, s: SellerId): int
    decreases |calls|
  {
    if calls == [] then 0
    else
      var init := calls[..|calls| - 1];
      UntracedSum(b, init, s) + Untraced(Run(b, init), calls[|calls| - 1], s)
  }

  function LeakedSum(b: Bank, calls: seq<Call>, s: SellerId): int
    decreases |calls|
  {
    if calls == [] then 0
    else
      var init := calls[..|calls| - 1];
      LeakedSum(b, init, s) + Leaked(Run(b, init), calls[|calls| - 1], s)
  }

  /** How far one call moves the balance away from the ledger, and the hold total away from the active holds. */
  predicate Conserves(b: Bank, c: Call, s: SellerId) {
    MovesApart(b, Apply(b, c).0, s, Untraced(b, c, s), Leaked(b, c, s))
  }

  predicate MovesApart(b: Bank, b': Bank, s: SellerId, untraced: int, leaked: int) {
    && BalanceOf(b', s) - Net(b'.ledger, s) == BalanceOf(b, s) - Net(b.ledger, s) + untraced
    && HoldTotalOf(b', s) - ActiveSum(b'.holds, s) == HoldTotalOf(b, s) - ActiveSum(b.holds, s) + leaked
  }

  lemma CreditConserves(b: Bank, seller: SellerId, amount: int, ref: Ref, s: SellerId)
    ensures Conserves(b, Credit(seller, amount, ref), s)
  {
    if ApplyCredit(b, seller, amount, ref).1 == Ok {
      var e := Entry(seller, Credited, amount, ref);
      var logged := if LedgerHas(b.ledger, ref, Credited) then 0 else Signed(e, s);
      NetInsert(b.ledger, e, s);
      MoveApart(b, ApplyCredit(b, seller, amount, ref).0, seller, amount, logged, s);
    }
  }

  /** A balance and a ledger that move, by amounts that may differ. */
  lemma MoveApart(b: Bank, b': Bank, seller: SellerId, delta: int, logged: int, s: SellerId)
    requires seller in b.accounts && b'.accounts == AddBalance(b.accounts, seller, delta) && b'.holds == b.holds
    requires Net(b'.ledger, s) == Net(b.ledger, s) + logged
    ensures MovesApart(b, b', s, (if seller == s then delta else 0) - logged, 0)
  {
    AccountsAfterMove(b.accounts, seller, delta, s);
  }

  lemma NetInsert(ledger: seq<Entry>, e: Entry, s: SellerId)
    ensures Net(InsertEntry(ledger, e), s)
              == Net(ledger, s) + (if LedgerHas(ledger, e.ref, e.direction) then 0 else Signed(e, s))
  {
    NetAppend(ledger, e, s);
  }

  lemma AccountsAfterMove(accounts: map<SellerId, Account>, seller: SellerId, delta: int, s: SellerId)
    requires seller in accounts
    ensures var after := AddBalance(accounts, seller, delta);
      && after.Keys == accounts.Keys
      && (s in accounts ==>
            && after[s].balance == accounts[s].balance + (if s == seller then delta else 0)
            && after[s].holdTotal == accounts[s].holdTotal)
  {
  }

  lemma DebitConserves(b: Bank, seller: SellerId, amount: int, ref: Ref, s: SellerId)
    ensures Conserves(b, Debit(seller, amount, ref), s)
  {
    if ApplyDebit(b, seller, amount, ref).1 == Ok {
      var e := Entry(seller, Debited, amount, ref);
      var after := b.(ledger := InsertEntry(b.ledger, e), accounts := AddBalance(b.accounts, seller, -amount));
      var logged := if LedgerHas(b.ledger, ref, Debited) then 0 else Signed(e, s);
      assert Apply(b, Debit(seller, amount, ref)) == (after, Ok);
      NetInsert(b.ledger, e, s);
      MoveApart(b, after, seller, -amount, logged, s);
    }
  }

  lemma ReserveConserves(b: Bank, seller: SellerId, amount: int, ref: Ref, uuid: HoldId, s: SellerId)
    ensures Conserves(b, Reserve(seller, amount, ref, uuid), s)
  {
    var row := ByRef(b.holds, ref);
    if ApplyReserve(b, seller, amount, ref, uuid).0 == b {
    } else if row.None? {
      ActiveAppend(b.holds, Hold(uuid, seller, amount, Active, ref), s);
    } else {
      ActiveUpdate(b.holds, row.value, b.holds[row.value].(id := uuid), s);
    }
  }

  lemma AccountsAfterConfirm(accounts: map<SellerId, Account>, seller: SellerId, amount: int, s: SellerId)
    requires seller in accounts
    ensures var after := AddHoldTotal(AddBalance(accounts, seller, -amount), seller, -amount);
      && after.Keys == accounts.Keys
      && (s in accounts ==>
            && after[s].balance == accounts[s].balance - (if s == seller then amount else 0)
            && after[s].holdTotal == accounts[s].holdTotal - (if s == seller then amount else 0))
  {
  }

  lemma ConfirmConserves(b: Bank, seller: SellerId, hold: HoldId, ref: Ref, s: SellerId)
    requires SoundHolds(b)
    ensures Conserves(b, Confirm(seller, hold, ref), s)
  {
    var row := ById(b.holds, seller, hold);
    if ApplyConfirm(b, seller, hold, ref).0 != b {
      var h := b.holds[row.value];
      var e := Entry(seller, Debited, h.amount, ref);
      var after := Bank(AddHoldTotal(AddBalance(b.accounts, seller, -h.amount), seller, -h.amount),
                        b.ledger + [e], b.holds[row.value := h.(status := Confirmed)]);
      assert Apply(b, Confirm(seller, hold, ref)) == (after, Ok);
      NetAppend(b.ledger, e, s);
      ActiveUpdate(b.holds, row.value, h.(status := Confirmed), s);
      ConfirmMoves(b, after, seller, h.amount, s);
    }
  }

  lemma ConfirmMoves(b: Bank, b': Bank, seller: SellerId, amount: int, s: SellerId)
    requires seller in b.accounts
    requires b'.accounts == AddHoldTotal(AddBalance(b.accounts, seller, -amount), seller, -amount)
    requires Net(b'.ledger, s) == Net(b.ledger, s) - (if s == seller then amount else 0)
    requires ActiveSum(b'.holds, s) == ActiveSum(b.holds, s) - (if s == seller then amount else 0)
    ensures MovesApart(b, b', s, 0, 0)
  {
    AccountsAfterConfirm(b.accounts, seller, amount, s);
  }

  lemma ReleaseConserves(b: Bank, seller: SellerId, hold: HoldId, s: SellerId)
    requires SoundHolds(b)
    ensures Conserves(b, Release(seller, hold), s)
  {
    var row := ById(b.holds, seller, hold);
    if row.Some? {
      assert seller in b.accounts;
      ActiveUpdate(b.holds, row.value, b.holds[row.value].(status := Released), s);
    }
  }

  lemma ApplyConserves(b: Bank, c: Call, s: SellerId)
    requires Sound(b)
    ensures Conserves(b, c, s)
  {
    match c
    case EnsureAccount(seller) =>
    case Credit(seller, amount, ref) => CreditConserves(b, seller, amount, ref, s);
    case Debit(seller, amount, ref) => DebitConserves(b, seller, amount, ref, s);
    case Reserve(seller, amount, ref, uuid) => ReserveConserves(b, seller, amount, ref, uuid, s);
    case Confirm(seller, hold, ref) => ConfirmConserves(b, seller, hold, ref, s);
    case Release(seller, hold) => ReleaseConserves(b, seller, hold, s);
  }

  /**
   Main result, the drift law: after any calls, replays included, a balance differs from its ledger by
   exactly the untraced amounts, and a hold total from its active holds by exactly the leaked ones.
   */
  lemma {:induction false} DriftLaw(b: Bank, calls: seq<Call>, s: SellerId)
    requires Opening(b)
    ensures var b' := Run(b, calls);
      && BalanceOf(b', s) - Net(b'.ledger, s) == UntracedSum(b, calls, s)
      && HoldTotalOf(b', s) - ActiveSum(b'.holds, s) == LeakedSum(b, calls, s)
    decreases |calls|
  {
    if calls != [] {
      var init := calls[..|calls| - 1];
      DriftLaw(b, init, s);
      RunIsSound(b, init);
      ApplyConserves(Run(b, init), calls[|calls| - 1], s);
    }
  }

  predicate CausesDrift(b: Bank, c: Call, s: SellerId) {
    Untraced(b, c, s) != 0 || Leaked(b, c, s) != 0
  }

  /**
   What a caller can look up before the call: a Credit or Debit that passes its checks on a (ref,
   direction) the ledger has, or a Reserve that passes its checks on the seller's own resolved ref.
   */
  predicate IsDriftingReplay(b: Bank, c: Call, s: SellerId) {
    match c
    case Credit(seller, amount, ref) =>
      seller == s && s in b.accounts && amount > 0 && LedgerHas(b.ledger, ref, Credited)
    case Debit(seller, amount, ref) =>
      && seller == s && s in b.accounts && amount > 0 && LedgerHas(b.ledger, ref, Debited)
      && b.accounts[s].balance - amount >= -(b.accounts[s].grace + b.accounts[s].credit)
    case Reserve(seller, amount, ref, _) =>
      && seller == s && s in b.accounts && amount > 0
      && b.accounts[s].status == Open && Available(b.accounts[s]) >= amount
      && ByRef(b.holds, ref).Some?
      && var h := b.holds[ByRef(b.holds, ref).value]; h.seller == s && h.status != Active
    case _ => false
  }

  /** Exactly the replays that pass their checks drift; a Reserve on an active ref, or any Confirm, never does. */
  lemma DriftIsAReplay(b: Bank, c: Call, s: SellerId)
    ensures CausesDrift(b, c, s) <==> IsDriftingReplay(b, c, s)
  {
  }

  predicate InStep(b: Bank, s: SellerId) {
    BalanceOf(b, s) == Net(b.ledger, s) && HoldTotalOf(b, s) == ActiveSum(b.holds, s)
  }

  /** The books agree at the start and after every call of the run. */
  predicate AlwaysInStep(b: Bank, calls: seq<Call>, s: SellerId)
    decreases |calls|
  {
    InStep(Run(b, calls), s) && (calls == [] || AlwaysInStep(b, calls[..|calls| - 1], s))
  }

  predicate NeverDrifts(b: Bank, calls: seq<Call>, s: SellerId)
    decreases |calls|
  {
    calls == [] ||
    (NeverDrifts(b, calls[..|calls| - 1], s) && !IsDriftingReplay(Run(b, calls[..|calls| - 1]), calls[|calls| - 1], s))
  }

  /**
   Main result, exact: a seller's books agree all through a run if and only if no call of the run is a
   replay that passes its checks on a ref the ledger has or on a resolved hold.
   */
  lemma {:induction false} BooksBalanceExactly(b: Bank, calls: seq<Call>, s: SellerId)
    requires Opening(b)
    ensures AlwaysInStep(b, calls, s) <==> NeverDrifts(b, calls, s)
    decreases |calls|
  {
    if calls != [] {
      var init, c := calls[..|calls| - 1], calls[|calls| - 1];
      BooksBalanceExactly(b, init, s);
      RunIsSound(b, init);
      ApplyConserves(Run(b, init), c, s);
      DriftIsAReplay(Run(b, init), c, s);
    }
  }

  // ---------------------------------------------------------------- the life of a hold

  /** The same hold, resolved at most once more. */
  predicate MovedOn(h: Hold, h': Hold) {
    && h'.seller == h.seller && h'.amount == h.amount && h'.ref == h.ref
    && (if h.status == Active then h'.status != Expired else h'.status == h.status)
  }

  lemma CallMovesHoldsOn(b: Bank, c: Call, k: nat)
    requires k < |b.holds|
    ensures var b' := Apply(b, c).0; k < |b'.holds| && MovedOn(b.holds[k], b'.holds[k])
  {
    match c
    case Confirm(seller, hold, ref) => ConfirmSpendsTheHold(b, seller, hold, ref);
    case Release(seller, hold) => ReleaseFreesTheFunds(b, seller, hold);
    case Reserve(seller, amount, ref, uuid) => ReserveHoldsTheFunds(b, seller, amount, ref, uuid);
    case _ =>
  }

  /**
   Main result: over every later run a hold keeps its seller, amount and ref, leaves "active" at most
   once, for confirmed or released, and never leaves either of those.
   */
  lemma {:induction false} HoldsResolveOnce(b: Bank, calls: seq<Call>, k: nat)
    requires k < |b.holds|
    ensures k < |Run(b, calls).holds| && MovedOn(b.holds[k], Run(b, calls).holds[k])
    decreases |calls|
  {
    if calls != [] {
      var init, c := calls[..|calls| - 1], calls[|calls| - 1];
      HoldsResolveOnce(b, init, k);
      CallMovesHoldsOn(Run(b, init), c, k);
    }
  }

  // ---------------------------------------------------------------- the floor

  /** The seller's hold total when the last successful Debit of the run was made, if there was one. */
  function HeldAtLastDebit(b: Bank, calls: seq<Call>, s: SellerId): Option<int>
    decreases |calls|
  {
    if calls == [] then None
    else
      var init, c := calls[..|calls| - 1], calls[|calls| - 1];
      var before := Run(b, init);
      if c.Debit? && c.seller == s && Apply(before, c).1 == Ok then Some(HoldTotalOf(before, s))
      else HeldAtLastDebit(b, init, s)
  }

  function FloorOf(a: Account, held: Option<int>): int {
    if held.None? then 0 else if -a.grace - held.value < 0 then -a.grace - held.value else 0
  }

  lemma LimitsAreFixed(b: Bank, c: Call, s: SellerId)
    requires s in b.accounts
    ensures var b' := Apply(b, c).0;
      s in b'.accounts && b'.accounts[s].credit == b.accounts[s].credit && b'.accounts[s].grace == b.accounts[s].grace
  {
  }

  predicate AboveFloor(b: Bank, s: SellerId, held: Option<int>) {
    s in b.accounts ==> b.accounts[s].credit >= 0 && Available(b.accounts[s]) >= FloorOf(b.accounts[s], held)
  }

  lemma ApplyKeepsFloor(b: Bank, c: Call, s: SellerId, held: Option<int>)
    requires Sound(b) && AboveFloor(b, s, held)
    requires s !in b.accounts ==> held == None
    ensures var (b', reply) := Apply(b, c);
      AboveFloor(b', s, if c.Debit? && c.seller == s && reply == Ok then Some(HoldTotalOf(b, s)) else held)
  {
  }

  /**
   Main result, the floor: balance + credit − hold_total never falls below zero before the first Debit,
   and never below −(grace + what was on hold at the last Debit) after it. Amounts need no assumption:
   the tables refuse non-positive ones.
   */
  lemma {:induction false} WalletFloor(b: Bank, calls: seq<Call>, s: SellerId)
    requires Opening(b)
    ensures AboveFloor(Run(b, calls), s, HeldAtLastDebit(b, calls, s))
    decreases |calls|
  {
    if calls != [] {
      var init, c := calls[..|calls| - 1], calls[|calls| - 1];
      RunIsSound(b, init);
      WalletFloor(b, init, s);
      if s !in Run(b, init).accounts {
        NoAccountNoDebit(b, init, s);
      }
      ApplyKeepsFloor(Run(b, init), c, s, HeldAtLastDebit(b, init, s));
    }
  }

  lemma {:induction false} NoAccountNoDebit(b: Bank, calls: seq<Call>, s: SellerId)
    requires s !in Run(b, calls).accounts
    ensures HeldAtLastDebit(b, calls, s) == None
    decreases |calls|
  {
    if calls != [] {
      var init, c := calls[..|calls| - 1], calls[|calls| - 1];
      if s in Run(b, init).accounts {
        LimitsAreFixed(Run(b, init), c, s);
      }
      NoAccountNoDebit(b, init, s);
    }
  }

  lemma {:induction false} ActiveSumCovers(holds: seq<Hold>, k: nat, s: SellerId)
    requires k < |holds| && forall i :: 0 <= i < |holds| ==> holds[i].amount > 0
    ensures ActiveSum(holds, s) >= ActiveAmount(holds[k], s) >= 0
    decreases |holds|
  {
    if k < |holds| - 1 {
      ActiveSumCovers(holds[..|holds| - 1], k, s);
    } else if k > 0 {
      ActiveSumCovers(holds[..|holds| - 1], k - 1, s);
    }
  }

  lemma {:induction false} LeakedIsNonNegative(b: Bank, calls: seq<Call>, s: SellerId)
    ensures LeakedSum(b, calls, s) >= 0
    decreases |calls|
  {
    if calls != [] {
      LeakedIsNonNegative(b, calls[..|calls| - 1], s);
    }
  }

  /** Main result: in a run without Debits, confirming a hold never takes the balance below the credit limit. */
  lemma ConfirmStaysWithinCredit(b: Bank, calls: seq<Call>, s: SellerId, hold: HoldId, ref: Ref)
    requires Opening(b) && HeldAtLastDebit(b, calls, s).None?
    requires s in Run(b, calls).accounts
    ensures var b' := ApplyConfirm(Run(b, calls), s, hold, ref).0;
      s in b'.accounts && b'.accounts[s].balance >= -b'.accounts[s].credit
  {
    var before := Run(b, calls);
    RunIsSound(b, calls);
    WalletFloor(b, calls, s);
    DriftLaw(b, calls, s);
    LeakedIsNonNegative(b, calls, s);
    ActiveSumIsNonNegative(before.holds, s);
    var row := ById(before.holds, s, hold);
    if row.Some? {
      ActiveSumCovers(before.holds, row.value, s);
    }
  }

  lemma ActiveSumIsNonNegative(holds: seq<Hold>, s: SellerId)
    requires forall i :: 0 <= i < |holds| ==> holds[i].amount > 0
    ensures ActiveSum(holds, s) >= 0
  {
    if holds != [] {
      ActiveSumCovers(holds, 0, s);
    }
  }

  // ---------------------------------------------------------------- when the grace floor can be breached

  predicate DistinctIds(holds: seq<Hold>) {
    forall j, k :: 0 <= j < k < |holds| ==> holds[j].id != holds[k].id
  }

  predicate ConfirmsOnly(calls: seq<Call>) {
    forall i :: 0 <= i < |calls| ==> calls[i].Confirm?
  }

  predicate BelowFloor(b: Bank, s: SellerId) {
    s in b.accounts && b.accounts[s].balance < -(b.accounts[s].grace + b.accounts[s].credit)
  }

  /** Some Confirms, of any holds under any refs, take the balance below the floor Debit checks. */
  ghost predicate CanFallBelow(b: Bank, s: SellerId) {
    exists calls :: ConfirmsOnly(calls) && BelowFloor(Run(b, calls), s)
  }

  /** Balance less active holds: what no Confirm changes. */
  function Uncovered(b: Bank, s: SellerId): int {
    BalanceOf(b, s) - ActiveSum(b.holds, s)
  }

  lemma ConfirmKeepsUncovered(b: Bank, seller: SellerId, hold: HoldId, ref: Ref, s: SellerId)
    requires Sound(b)
    ensures Uncovered(ApplyConfirm(b, seller, hold, ref).0, s) == Uncovered(b, s)
  {
    if ApplyConfirm(b, seller, hold, ref).0 != b {
      var row := ById(b.holds, seller, hold);
      assert seller in b.accounts;
      ActiveUpdate(b.holds, row.value, b.holds[row.value].(status := Confirmed), s);
    }
  }

  lemma {:induction false} ConfirmsKeepUncovered(b: Bank, calls: seq<Call>, s: SellerId)
    requires Sound(b) && s in b.accounts && ConfirmsOnly(calls)
    ensures var b' := Run(b, calls);
      && Sound(b') && Uncovered(b', s) == Uncovered(b, s)
      && s in b'.accounts && b'.accounts[s].grace == b.accounts[s].grace
         && b'.accounts[s].credit == b.accounts[s].credit
    decreases |calls|
  {
    if calls != [] {
      var init, c := calls[..|calls| - 1], calls[|calls| - 1];
      ConfirmsKeepUncovered(b, init, s);
      ApplyKeepsSound(Run(b, init), c);
      ConfirmKeepsUncovered(Run(b, init), c.seller, c.hold, c.ref, s);
      LimitsAreFixed(Run(b, init), c, s);
    }
  }

  function LongestId(ledger: seq<Entry>): nat
    decreases |ledger|
  {
    if ledger == [] then 0
    else
      var before, n := LongestId(ledger[..|ledger| - 1]), |ledger[|ledger| - 1].ref.id|;
      if n > before then n else before
  }

  lemma {:induction false} LongestIdBounds(ledger: seq<Entry>, k: nat)
    requires k < |ledger|
    ensures |ledger[k].ref.id| <= LongestId(ledger)
    decreases |ledger|
  {
    if k < |ledger| - 1 {
      LongestIdBounds(ledger[..|ledger| - 1], k);
    }
  }

  /** A ref no ledger row carries. */
  lemma FreshRef(ledger: seq<Entry>) returns (ref: Ref)
    ensures !LedgerHas(ledger, ref, Debited)
  {
    ref := Ref("order", seq(LongestId(ledger) + 1, _ => 'x'));
    forall k | 0 <= k < |ledger| ensures ledger[k].ref != ref {
      LongestIdBounds(ledger, k);
    }
  }

  lemma {:induction false} SomeActiveHold(holds: seq<Hold>, s: SellerId) returns (k: nat)
    requires ActiveSum(holds, s) != 0
    ensures k < |holds| && holds[k].seller == s && holds[k].status == Active
    decreases |holds|
  {
    k := |holds| - 1;
    if ActiveAmount(holds[k], s) == 0 {
      k := SomeActiveHold(holds[..k], s);
    }
  }

  lemma {:induction false} ByIdFinds(holds: seq<Hold>, k: nat)
    requires k < |holds| && DistinctIds(holds)
    ensures ById(holds, holds[k].seller, holds[k].id) == Some(k)
    decreases |holds|
  {
    if k < |holds| - 1 {
      ByIdFinds(holds[..|holds| - 1], k);
    }
  }

  lemma {:induction false} RunFirst(b: Bank, c: Call, rest: seq<Call>)
    ensures Run(b, [c] + rest) == Run(Apply(b, c).0, rest)
    decreases |rest|
  {
    var all := [c] + rest;
    if rest == [] {
      assert all[..0] == [] && all == [c];
      assert Run(b, all[..0]) == b;
    } else {
      assert all[..|all| - 1] == [c] + rest[..|rest| - 1];
      RunFirst(b, c, rest[..|rest| - 1]);
    }
  }

  /** Confirming one active hold of the seller under a fresh ref. */
  lemma ConfirmOne(b: Bank, s: SellerId) returns (c: Call)
    requires Sound(b) && DistinctIds(b.holds) && ActiveSum(b.holds, s) != 0
    ensures c.Confirm? && Sound(Apply(b, c).0) && DistinctIds(Apply(b, c).0.holds)
    ensures 0 <= ActiveSum(Apply(b, c).0.holds, s) < ActiveSum(b.holds, s)
  {
    var k := SomeActiveHold(b.holds, s);
    var ref := FreshRef(b.ledger);
    var h := b.holds[k];
    c := Confirm(s, h.id, ref);
    ByIdFinds(b.holds, k);
    ApplyKeepsSound(b, c);
    assert Apply(b, c).0.holds == b.holds[k := h.(status := Confirmed)];
    ActiveUpdate(b.holds, k, h.(status := Confirmed), s);
    ActiveSumIsNonNegative(Apply(b, c).0.holds, s);
  }

  /** Confirming all of them. */
  lemma {:induction false} ConfirmAll(b: Bank, s: SellerId) returns (calls: seq<Call>)
    requires Sound(b) && DistinctIds(b.holds)
    ensures ConfirmsOnly(calls) && ActiveSum(Run(b, calls).holds, s) == 0
    decreases ActiveSum(b.holds, s)
  {
    if ActiveSum(b.holds, s) == 0 {
      calls := [];
    } else {
      ActiveSumIsNonNegative(b.holds, s);
      var c := ConfirmOne(b, s);
      var rest := ConfirmAll(Apply(b, c).0, s);
      calls := [c] + rest;
      RunFirst(b, c, rest);
    }
  }

  /**
   Main result, exact: Confirms can take a balance below the grace floor if and only if the balance,
   less what the seller has on active hold, is below it already.
   */
  lemma FloorCanBeBreachedExactly(b: Bank, s: SellerId)
    requires Sound(b) && DistinctIds(b.holds) && s in b.accounts
    ensures CanFallBelow(b, s) <==> Uncovered(b, s) < -(b.accounts[s].grace + b.accounts[s].credit)
  {
    if calls :| ConfirmsOnly(calls) && BelowFloor(Run(b, calls), s) {
      ConfirmsKeepUncovered(b, calls, s);
      ActiveSumIsNonNegative(Run(b, calls).holds, s);
    }
    var calls := ConfirmAll(b, s);
    ConfirmsKeepUncovered(b, calls, s);
  }

  /**
   Main result, exact, read off the tables before a Debit: the floor the Debit checks stays out of
   reach of later Confirms if and only if the amount and the active holds together leave it alone.
   */
  lemma DebitGuardsTheFloorExactly(b: Bank, s: SellerId, amount: int, ref: Ref)
    requires Sound(b) && DistinctIds(b.holds) && ApplyDebit(b, s, amount, ref).1 == Ok
    ensures CanFallBelow(ApplyDebit(b, s, amount, ref).0, s)
      <==> b.accounts[s].balance - amount - ActiveSum(b.holds, s) < -(b.accounts[s].grace + b.accounts[s].credit)
  {
    ApplyKeepsSound(b, Debit(s, amount, ref));
    FloorCanBeBreachedExactly(ApplyDebit(b, s, amount, ref).0, s);
  }

  /** The failing family is reached: reserve, debit to the floor, confirm. */
  lemma GraceFloorCanBeBreached()
    ensures var b := Bank(map[1 := Account(0, 0, 0, 50, Open)], [], []);
      var r := Ref("order", "a");
      var calls := [Credit(1, 100, r), Reserve(1, 100, r, 7), Debit(1, 150, Ref("fee", "x")), Confirm(1, 7, r)];
      Opening(b) && 1 in Run(b, calls).accounts && Run(b, calls).accounts[1].balance == -150
  {
    var b := Bank(map[1 := Account(0, 0, 0, 50, Open)], [], []);
    var r, fee := Ref("order", "a"), Ref("fee", "x");
    assert "order" != "fee" by { assert |"order"| != |"fee"|; }
    var calls := [Credit(1, 100, r), Reserve(1, 100, r, 7), Debit(1, 150, fee), Confirm(1, 7, r)];
    RunStep(b, calls, 0);
    RunStep(b, calls, 1);
    RunStep(b, calls, 2);
    RunStep(b, calls, 3);
    assert calls[..0] == [] && calls[..4] == calls;
    FundAndReserve(b, r);
    DebitThenConfirm(Run(b, calls[..2]), r, fee);
  }

  lemma DebitThenConfirm(b: Bank, r: Ref, fee: Ref)
    requires r != fee
    requires b == Bank(map[1 := Account(100, 100, 0, 50, Open)], [Entry(1, Credited, 100, r)],
                       [Hold(7, 1, 100, Active, r)])
    ensures var accounts := Apply(Apply(b, Debit(1, 150, fee)).0, Confirm(1, 7, r)).0.accounts;
      1 in accounts && accounts[1].balance == -150
  {
    var b' := Apply(b, Debit(1, 150, fee)).0;
    assert b'.accounts == map[1 := Account(-50, 100, 0, 50, Open)];
    assert b'.ledger == [Entry(1, Credited, 100, r), Entry(1, Debited, 150, fee)] && b'.holds == b.holds;
    assert ById(b'.holds, 1, 7) == Some(0);
  }

  lemma RunStep(b: Bank, calls: seq<Call>, k: nat)
    requires k < |calls|
    ensures Run(b, calls[..k + 1]) == Apply(Run(b, calls[..k]), calls[k]).0
  {
    assert calls[..k + 1][..k] == calls[..k];
  }

  lemma FundAndReserve(b: Bank, r: Ref)
    requires b == Bank(map[1 := Account(0, 0, 0, 50, Open)], [], [])
    ensures var b1 := Apply(b, Credit(1, 100, r)).0;
      Apply(b1, Reserve(1, 100, r, 7)).0
      == Bank(map[1 := Account(100, 100, 0, 50, Open)], [Entry(1, Credited, 100, r)], [Hold(7, 1, 100, Active, r)])
  {
    var b1 := Apply(b, Credit(1, 100, r)).0;
    assert b1 == Bank(map[1 := Account(100, 0, 0, 50, Open)], [Entry(1, Credited, 100, r)], []);
  }

  // ---------------------------------------------------------------- idempotence, as documented and as coded

  /** Confirm and Release are idempotent whatever ref the repeat carries; the second call changes nothing. */
  lemma ResolvingTwiceIsOnce(b: Bank, seller: SellerId, hold: HoldId, ref: Ref, ref2: Ref)
    requires forall j, k :: 0 <= j < k < |b.holds| ==> b.holds[j].id != b.holds[k].id
    ensures ApplyConfirm(b, seller, hold, ref).1 == Ok ==>
      var b' := ApplyConfirm(b, seller, hold, ref).0; ApplyConfirm(b', seller, hold, ref2) == (b', Ok)
    ensures ApplyRelease(b, seller, hold).1 == Ok ==>
      var b' := ApplyRelease(b, seller, hold).0; ApplyRelease(b', seller, hold) == (b', Ok)
  {
    var row := ById(b.holds, seller, hold);
    if row.Some? {
      UpdateKeepsIds(b.holds, row.value, b.holds[row.value].(status := Confirmed), seller, hold);
      UpdateKeepsIds(b.holds, row.value, b.holds[row.value].(status := Released), seller, hold);
    }
  }

  lemma UpdateKeepsIds(holds: seq<Hold>, k: nat, h: Hold, seller: SellerId, id: HoldId)
    requires k < |holds| && ById(holds, seller, id) == Some(k)
    requires h.id == holds[k].id && h.seller == holds[k].seller
    requires forall i, j :: 0 <= i < j < |holds| ==> holds[i].id != holds[j].id
    ensures ById(holds[k := h], seller, id) == Some(k)
  {
    assert holds[k := h][k].id == id;
  }

  /** Credit is documented as idempotent on its ref. It is so for the ledger, and never for the balance. */
  lemma CreditTwice(b: Bank, seller: SellerId, amount: int, ref: Ref)
    requires ApplyCredit(b, seller, amount, ref).1 == Ok
    ensures var b1 := ApplyCredit(b, seller, amount, ref).0;
      var b2 := ApplyCredit(b1, seller, amount, ref).0;
      && b2.ledger == b1.ledger
      && BalanceOf(b2, seller) == BalanceOf(b1, seller) + amount != BalanceOf(b1, seller)
  {
    var b1 := ApplyCredit(b, seller, amount, ref).0;
    var e := Entry(seller, Credited, amount, ref);
    if !LedgerHas(b.ledger, ref, Credited) {
      assert b1.ledger[|b.ledger|] == e;
    }
  }

  /**
   Reserve is documented as idempotent on its ref. Repeating a first-time Reserve hands back the same
   hold and changes nothing exactly when the funds would have covered the amount twice.
   */
  lemma ReserveTwiceExactly(b: Bank, seller: SellerId, amount: int, ref: Ref, uuid: HoldId, uuid2: HoldId)
    requires ApplyReserve(b, seller, amount, ref, uuid).1 == Held(uuid) && ByRef(b.holds, ref).None?
    ensures var b1 := ApplyReserve(b, seller, amount, ref, uuid).0;
      ApplyReserve(b1, seller, amount, ref, uuid2) == (b1, Held(uuid)) <==> Available(b.accounts[seller]) >= 2 * amount
  {
    var b1 := ApplyReserve(b, seller, amount, ref, uuid).0;
    assert b1.holds[|b.holds|] == Hold(uuid, seller, amount, Active, ref);
    assert ByRef(b1.holds, ref) == Some(|b.holds|);
  }

  lemma {:induction false} LeakNeverShrinks(b: Bank, calls: seq<Call>, s: SellerId)
    requires Sound(b)
    ensures var b' := Run(b, calls);
      Sound(b') && HoldTotalOf(b', s) - ActiveSum(b'.holds, s) >= HoldTotalOf(b, s) - ActiveSum(b.holds, s)
    decreases |calls|
  {
    if calls != [] {
      var init, c := calls[..|calls| - 1], calls[|calls| - 1];
      LeakNeverShrinks(b, init, s);
      ApplyKeepsSound(Run(b, init), c);
      ApplyConserves(Run(b, init), c, s);
    }
  }

  /**
   Main result: a leaked hold is never given back. Confirming or releasing it does nothing, and after
   whatever later run hold_total still exceeds the active holds by the leaked amount more than before.
   */
  lemma LeakIsPermanent(b: Bank, seller: SellerId, amount: int, ref: Ref, uuid: HoldId, debitRef: Ref, later: seq<Call>)
    requires Leaked(b, Reserve(seller, amount, ref, uuid), seller) != 0
    requires forall k :: 0 <= k < |b.holds| ==> b.holds[k].id != uuid
    ensures var b1 := ApplyReserve(b, seller, amount, ref, uuid).0;
      && b1.accounts[seller].holdTotal == b.accounts[seller].holdTotal + amount
      && ApplyConfirm(b1, seller, uuid, debitRef).0 == b1
      && ApplyRelease(b1, seller, uuid).0 == b1
      && var b2 := Run(b1, later);
      Sound(b) ==>
        HoldTotalOf(b2, seller) - ActiveSum(b2.holds, seller)
        >= HoldTotalOf(b, seller) - ActiveSum(b.holds, seller) + amount
  {
    var c := Reserve(seller, amount, ref, uuid);
    var b1 := Apply(b, c).0;
    var k := ByRef(b.holds, ref).value;
    assert b1.holds[k].id == uuid && b1.holds[k].status != Active;
    if Sound(b) {
      ApplyKeepsSound(b, c);
      ApplyConserves(b, c, seller);
      LeakNeverShrinks(b1, later, seller);
    }
  }
}
