/**
 Pricing (backend/internal/pricing and the quote handler): the zone of a pincode, the chargeable
 weight, the slab charge, and the sums over the packages of a request. Weights and money are
 unbounded integers; regular-expression matching is a function handed in.
 */
module Pricing {
  import opened Core

  type CarrierId = nat
  type Pincode = string
  datatype Service = Standard | Express

  datatype Zone = Zone(code: string, patterns: seq<string>, days: int)
  datatype Slab = Slab(zone: string, mode: string, minG: int, maxG: int, base: int, additional: int, size: int)
  datatype Card = Card(zones: seq<Zone>, slabs: seq<Slab>)
  datatype Package = Package(weightG: int, length: int, width: int, height: int)
  datatype Part = Base | Additional
  datatype Quote = Quote(carrier: CarrierId, service: Service, days: int, total: int, breakdown: map<Part, int>,
                         zone: string)

  type Matcher = (string, Pincode) -> bool

  // ---------------------------------------------------------------- arithmetic

  function VolumetricG(p: Package): int {
    TruncDiv(p.length * p.width * p.height, 5_000_000) * 1000
  }

  function ChargeableG(p: Package): int {
    if VolumetricG(p) > p.weightG then VolumetricG(p) else p.weightG
  }

  function ExtraSlabs(chargeable: int, size: int): int {
    var extra := chargeable - size;
    if extra > 0 && size > 0 then extra / size + (if extra % size > 0 then 1 else 0) else 0
  }

  function SlabTotal(s: Slab, chargeable: int): int {
    s.base + s.additional * ExtraSlabs(chargeable, s.size)
  }

  function SlabBreakdown(s: Slab, chargeable: int): map<Part, int> {
    map[Base := s.base, Additional := s.additional * ExtraSlabs(chargeable, s.size)]
  }

  // ---------------------------------------------------------------- lookups

  predicate Covers(matches: Matcher, z: Zone, pin: Pincode) {
    z.code != "" && exists i :: 0 <= i < |z.patterns| && matches(z.patterns[i], pin)
  }

  /** The first zone in query order with a code and a matching pattern. */
  function ZoneOf(matches: Matcher, zones: seq<Zone>, pin: Pincode): Option<Zone> {
    if zones == [] then None
    else if Covers(matches, zones[0], pin) then Some(zones[0])
    else ZoneOf(matches, zones[1..], pin)
  }

  predicate Applies(s: Slab, zone: string, mode: string, chargeable: int) {
    s.zone == zone && s.mode == mode && s.minG <= chargeable < s.maxG
  }

  function SlabOf(slabs: seq<Slab>, zone: string, mode: string, chargeable: int): Option<Slab> {
    if slabs == [] then None
    else if Applies(slabs[0], zone, mode, chargeable) then Some(slabs[0])
    else SlabOf(slabs[1..], zone, mode, chargeable)
  }

  /** The specification of a quote: None when no card, zone or slab applies. */
  function QuoteFor(
      matches: Matcher, cards: map<(CarrierId, Service), Card>, c: (CarrierId, Service), pin: Pincode, mode: string,
      p: Package): Option<Quote>
  {
    if c !in cards then None
    else match ZoneOf(matches, cards[c].zones, pin)
      case None => None
      case Some(z) =>
        match SlabOf(cards[c].slabs, z.code, mode, ChargeableG(p))
        case None => None
        case Some(s) => Some(Quote(c.0, c.1, z.days, SlabTotal(s, ChargeableG(p)), SlabBreakdown(s, ChargeableG(p)),
                                   z.code))
  }

  function Quotes(
      matches: Matcher, cards: map<(CarrierId, Service), Card>, cs: seq<(CarrierId, Service)>, pin: Pincode,
      mode: string, p: Package): seq<Quote>
  {
    if cs == [] then []
    else
      var before := Quotes(matches, cards, cs[..|cs| - 1], pin, mode, p);
      var q := QuoteFor(matches, cards, cs[|cs| - 1], pin, mode, p);
      if q.Some? then before + [q.value] else before
  }

  /** A row of the response: the running sums of one carrier and service. */
  datatype CarrierQuote = CarrierQuote(days: int, total: int, zone: string, packages: nat, breakdown: map<Part, int>)

  datatype Response = Invalid | Priced(sums: map<(CarrierId, Service), CarrierQuote>)

  // ---------------------------------------------------------------- the code

  class PricingEngine {
    const matches: Matcher
    const cards: map<(CarrierId, Service), Card>

    constructor (matches: Matcher, cards: map<(CarrierId, Service), Card>)
      ensures this.matches == matches && this.cards == cards
    {
      this.matches := matches;
      this.cards := cards;
    }

    /** The zone scan: a match in a zone without a code is overwritten by the next one. */
    method FindZone(zones: seq<Zone>, pin: Pincode) returns (r: Option<Zone>)
      ensures r == ZoneOf(matches, zones, pin)
    {
      var zone: Option<Zone> := None;
      var i := 0;
      while i < |zones|
        invariant 0 <= i <= |zones|
        invariant zone.Some? ==> zone.value.code == ""
        invariant ZoneOf(matches, zones, pin) == ZoneOf(matches, zones[i..], pin)
      {
        var zr := zones[i];
        assert zones[i..][0] == zr && zones[i..][1..] == zones[i + 1..];
        var hit := false;
        for j := 0 to |zr.patterns|
          invariant hit <==> exists k :: 0 <= k < j && matches(zr.patterns[k], pin)
        {
          if matches(zr.patterns[j], pin) {
            hit := true;
            break;
          }
        }
        if hit {
          zone := Some(zr);
        }
        if zone.Some? && zone.value.code != "" {
          return zone;
        }
        i := i + 1;
      }
      assert zones[i..] == [];
      r := None;
    }

    method ComputeQuote(c: (CarrierId, Service), pin: Pincode, mode: string, p: Package) returns (r: Option<Quote>)
      ensures r == QuoteFor(matches, cards, c, pin, mode, p)
      ensures r.Some? ==> c in cards && exists g, z: nat, k: nat, n: nat ::
        ChargedBy(matches, cards[c], pin, mode, p, g, z, k, n)
        && r.value.total == cards[c].slabs[k].base + cards[c].slabs[k].additional * n
    {
      if c !in cards {
        return None;
      }
      var zone := FindZone(cards[c].zones, pin);
      if zone.None? {
        return None;
      }
      var chargeable := p.weightG;
      var volumetric := TruncDiv(p.length * p.width * p.height, 5_000_000) * 1000;
      if volumetric > chargeable {
        chargeable := volumetric;
      }
      var slab := SlabOf(cards[c].slabs, zone.value.code, mode, chargeable);
      if slab.None? {
        return None;
      }
      var s := slab.value;
      var extraG := chargeable - s.size;
      var extraSlabs := 0;
      if extraG > 0 && s.size > 0 {
        extraSlabs := extraG / s.size;
        if extraG % s.size > 0 {
          extraSlabs := extraSlabs + 1;
        }
      }
      var total := s.base + s.additional * extraSlabs;
      r := Some(Quote(c.0, c.1, zone.value.days, total, map[Base := s.base, Additional := s.additional * extraSlabs],
                      zone.value.code));
      ghost var g, z, k, n := QuoteIsCharged(matches, cards, c, pin, mode, p);
    }

    /** Carriers that cannot be priced are skipped. */
    method QuoteAll(cs: seq<(CarrierId, Service)>, pin: Pincode, mode: string, p: Package) returns (quotes: seq<Quote>)
      ensures quotes == Quotes(matches, cards, cs, pin, mode, p)
      ensures forall q :: q in quotes ==> (q.carrier, q.service) in cs
    {
      quotes := [];
      for i := 0 to |cs|
        invariant quotes == Quotes(matches, cards, cs[..i], pin, mode, p)
        invariant forall q :: q in quotes ==> (q.carrier, q.service) in cs
      {
        assert cs[..i + 1][..i] == cs[..i];
        var q := ComputeQuote(cs[i], pin, mode, p);
        if q.None? {
          continue;
        }
        assert cs[i] == (q.value.carrier, q.value.service);
        quotes := quotes + [q.value];
      }
      assert cs[..|cs|] == cs;
    }

    /** QuoteHandler's package loop: price each package, add each quote to its row. */
    method HandleQuote(
        candidates: seq<(CarrierId, Service)>, packages: seq<Package>, pickup: Pincode, pin: Pincode, asked: string)
      returns (r: Response)
      ensures r == Invalid <==>
        || !IsPincode(pickup) || !IsPincode(pin) || !IsMode(ModeOf(asked))
        || packages == [] || exists p :: p in packages && !Positive(p)
      ensures r.Priced? ==> SumsUp(r.sums, AllQuotes(matches, cards, candidates, packages, pin, ModeOf(asked)))
    {
      if !IsPincode(pickup) || !IsPincode(pin) {
        return Invalid;
      }
      if |packages| == 0 {
        return Invalid;
      }
      var mode := asked;
      if mode == "" {
        mode := PREPAID;
      }
      if !IsMode(mode) {
        return Invalid;
      }
      var sums: map<(CarrierId, Service), CarrierQuote> := map[];
      for i := 0 to |packages|
        invariant forall k :: 0 <= k < i ==> Positive(packages[k])
        invariant SumsUp(sums, AllQuotes(matches, cards, candidates, packages[..i], pin, mode))
      {
        if packages[i].weightG < 1 || packages[i].length < 1 || packages[i].width < 1 || packages[i].height < 1 {
          assert packages[i] in packages && !Positive(packages[i]);
          return Invalid;
        }
        ghost var before := AllQuotes(matches, cards, candidates, packages[..i], pin, mode);
        assert packages[..i + 1][..i] == packages[..i];
        var quotes := QuoteAll(candidates, pin, mode, packages[i]);
        assert before + quotes[..0] == before;
        for j := 0 to |quotes|
          invariant SumsUp(sums, before + quotes[..j])
        {
          assert before + quotes[..j + 1] == before + quotes[..j] + [quotes[j]];
          sums := AddQuote(sums, quotes[j], before + quotes[..j]);
        }
        assert quotes[..|quotes|] == quotes;
      }
      assert packages[..|packages|] == packages;
      r := Priced(sums);
    }

    method AddQuote(sums: map<(CarrierId, Service), CarrierQuote>, q: Quote, ghost before: seq<Quote>)
      returns (r: map<(CarrierId, Service), CarrierQuote>)
      requires SumsUp(sums, before)
      ensures SumsUp(r, before + [q])
    {
      var k := (q.carrier, q.service);
      ghost var all := before + [q];
      assert all[..|all| - 1] == before;
      if k in sums {
        var cur := sums[k];
        var breakdown := AddParts(cur.breakdown, q.breakdown);
        var days := if q.days > cur.days then q.days else cur.days;
        assert RowSums(cur, before, k);
        r := sums[k := CarrierQuote(days, cur.total + q.total, cur.zone, cur.packages + 1, breakdown)];
      } else {
        NothingFor(before, k);
        r := sums[k := CarrierQuote(q.days, q.total, q.zone, 1, q.breakdown)];
      }
      forall key ensures key in r <==> Count(all, key) > 0
      {
        assert key in sums <==> Count(before, key) > 0;
      }
      forall key | key in r ensures RowSums(r[key], all, key)
      {
        if key != k {
          assert RowSums(sums[key], before, key);
        }
      }
    }

    /** Adds every part of b to the part of a with its name, in any order. */
    method AddParts(a: map<Part, int>, b: map<Part, int>) returns (r: map<Part, int>)
      ensures r == Merged(a, b, b.Keys)
    {
      r := a;
      var done: set<Part> := {};
      assert a == Merged(a, b, {});
      while done != b.Keys
        invariant done <= b.Keys && r == Merged(a, b, done)
        decreases b.Keys - done
      {
        assert b.Keys == done + (b.Keys - done);
        var x :| x in b.Keys - done;
        MergeOne(a, b, done, x);
        r := r[x := PartOf(r, x) + b[x]];
        done := done + {x};
      }
    }
  }

  lemma MergeOne(a: map<Part, int>, b: map<Part, int>, done: set<Part>, x: Part)
    requires x in b && x !in done
    ensures Merged(a, b, done + {x}) == Merged(a, b, done)[x := PartOf(Merged(a, b, done), x) + b[x]]
  {
  }

  /** a with the parts of b named in `done` added. */
  function Merged(a: map<Part, int>, b: map<Part, int>, done: set<Part>): map<Part, int> {
    map x | x in a.Keys + done :: PartOf(a, x) + (if x in done then PartOf(b, x) else 0)
  }

  const PREPAID := "prepaid"
  const COD := "cod"

  /** Six ASCII digits. */
  predicate IsPincode(p: Pincode) {
    |p| == 6 && forall i :: 0 <= i < 6 ==> '0' <= p[i] <= '9'
  }

  predicate IsMode(mode: string) {
    mode == PREPAID || mode == COD
  }

  /** A request that names no payment mode is prepaid. */
  function ModeOf(asked: string): string {
    if asked == "" then PREPAID else asked
  }

  // ---------------------------------------------------------------- what the sums are

  predicate Positive(p: Package) {
    p.weightG >= 1 && p.length >= 1 && p.width >= 1 && p.height >= 1
  }

  /** A missing part counts as zero. */
  function PartOf(m: map<Part, int>, x: Part): int {
    if x in m then m[x] else 0
  }

  /** Every quote made for the request, package by package. */
  function AllQuotes(
      matches: Matcher, cards: map<(CarrierId, Service), Card>, cs: seq<(CarrierId, Service)>, packages: seq<Package>,
      pin: Pincode, mode: string): seq<Quote>
  {
    if packages == [] then []
    else AllQuotes(matches, cards, cs, packages[..|packages| - 1], pin, mode)
           + Quotes(matches, cards, cs, pin, mode, packages[|packages| - 1])
  }

  predicate Names(q: Quote, k: (CarrierId, Service)) {
    (q.carrier, q.service) == k
  }

  function Count(qs: seq<Quote>, k: (CarrierId, Service)): nat {
    if qs == [] then 0 else Count(qs[..|qs| - 1], k) + (if Names(qs[|qs| - 1], k) then 1 else 0)
  }

  function TotalOf(qs: seq<Quote>, k: (CarrierId, Service)): int {
    if qs == [] then 0 else TotalOf(qs[..|qs| - 1], k) + (if Names(qs[|qs| - 1], k) then qs[|qs| - 1].total else 0)
  }

  function PartTotal(qs: seq<Quote>, k: (CarrierId, Service), x: Part): int {
    if qs == [] then 0
    else
      PartTotal(qs[..|qs| - 1], k, x) + (if Names(qs[|qs| - 1], k) then PartOf(qs[|qs| - 1].breakdown, x) else 0)
  }

  /** days is the largest among the row's quotes. */
  ghost predicate IsMaxDays(days: int, qs: seq<Quote>, k: (CarrierId, Service)) {
    && (forall q :: q in qs && Names(q, k) ==> q.days <= days)
    && (exists q :: q in qs && Names(q, k) && q.days == days)
  }

  /** The zone of the first quote of the row. */
  function FirstZone(qs: seq<Quote>, k: (CarrierId, Service)): string {
    if qs == [] then ""
    else if Count(qs[..|qs| - 1], k) == 0 && Names(qs[|qs| - 1], k) then qs[|qs| - 1].zone
    else FirstZone(qs[..|qs| - 1], k)
  }

  ghost predicate RowSums(row: CarrierQuote, qs: seq<Quote>, k: (CarrierId, Service)) {
    && row.zone == FirstZone(qs, k)
    && row.packages == Count(qs, k)
    && row.total == TotalOf(qs, k)
    && (forall x :: PartOf(row.breakdown, x) == PartTotal(qs, k, x))
    && IsMaxDays(row.days, qs, k)
  }

  /** One row for each carrier and service quoted, with its sums. */
  ghost predicate SumsUp(sums: map<(CarrierId, Service), CarrierQuote>, qs: seq<Quote>) {
    && (forall k :: k in sums <==> Count(qs, k) > 0)
    && (forall k :: k in sums ==> RowSums(sums[k], qs, k))
  }

  lemma {:induction false} NothingFor(qs: seq<Quote>, k: (CarrierId, Service))
    requires Count(qs, k) == 0
    ensures TotalOf(qs, k) == 0 && (forall x :: PartTotal(qs, k, x) == 0)
    ensures forall q :: q in qs ==> !Names(q, k)
  {
    if qs != [] {
      NothingFor(qs[..|qs| - 1], k);
    }
  }

  // ---------------------------------------------------------------- results

  /** Main result: the extra slabs are the fewest that, with the first, hold the chargeable weight. */
  lemma ExtraSlabsAreLeast(chargeable: int, size: int, n: nat)
    requires size > 0
    ensures ExtraSlabs(chargeable, size) >= 0
    ensures n >= ExtraSlabs(chargeable, size) <==> size * (n + 1) >= chargeable
  {
    var extra, e := chargeable - size, ExtraSlabs(chargeable, size);
    if extra > 0 {
      assert extra == size * (extra / size) + extra % size;
      if n >= e {
        Scale(size, e, n);
        assert size * e >= extra;
      } else {
        Scale(size, n, e - 1);
        assert size * (e - 1) < extra;
      }
    } else {
      Scale(size, 0, n);
    }
    assert size * (n + 1) == size * n + size;
  }

  lemma Scale(size: int, a: int, b: int)
    requires size > 0 && a <= b
    ensures size * a <= size * b
  {
    assert size * (b - a) >= 0;
  }

  /**
   Main result: the integer volumetric weight is below the exact length * width * height / 5000 grams
   by less than a kilogram.
   */
  lemma VolumetricIsCloseBelow(p: Package)
    requires p.length >= 0 && p.width >= 0 && p.height >= 0
    ensures VolumetricG(p) % 1000 == 0
    ensures 0 <= p.length * p.width * p.height - 5000 * VolumetricG(p) < 5000 * 1000
  {
    assert p.length * p.width >= 0;
    assert p.length * p.width * p.height >= 0;
  }

  predicate NoLarger(a: Package, b: Package) {
    && 0 <= a.length <= b.length && 0 <= a.width <= b.width && 0 <= a.height <= b.height
    && a.weightG <= b.weightG
  }

  lemma ChargeableGrows(a: Package, b: Package)
    requires NoLarger(a, b)
    ensures ChargeableG(a) <= ChargeableG(b)
  {
    Products(a.length, a.width, b.length, b.width);
    Products(a.length * a.width, a.height, b.length * b.width, b.height);
  }

  lemma Products(x: int, y: int, x': int, y': int)
    requires 0 <= x <= x' && 0 <= y <= y'
    ensures 0 <= x * y <= x' * y'
  {
    assert (x' - x) * y' >= 0;
    assert x * (y' - y) >= 0;
    assert x' * y' - x * y == (x' - x) * y' + x * (y' - y);
  }

  lemma ExtraSlabsGrow(c: int, d: int, size: int)
    requires c <= d
    ensures 0 <= ExtraSlabs(c, size) <= ExtraSlabs(d, size)
  {
    if size > 0 {
      ExtraSlabsAreLeast(d, size, 0);
      ExtraSlabsAreLeast(d, size, ExtraSlabs(d, size));
      ExtraSlabsAreLeast(c, size, ExtraSlabs(d, size));
    }
  }

  /**
   Main result: between two packages, one no larger than the other in any respect, that fall into
   the same slab row with non-negative rates, the larger never costs less.
   */
  lemma QuoteIsMonotone(
      matches: Matcher, cards: map<(CarrierId, Service), Card>, c: (CarrierId, Service), pin: Pincode, mode: string,
      a: Package, b: Package)
    requires NoLarger(a, b) && c in cards
    ensures var sa, sb := RowFor(matches, cards[c], pin, mode, a), RowFor(matches, cards[c], pin, mode, b);
      var qa, qb := QuoteFor(matches, cards, c, pin, mode, a), QuoteFor(matches, cards, c, pin, mode, b);
      sa.Some? && sa == sb && sa.value.base >= 0 && sa.value.additional >= 0
      ==> qa.Some? && qb.Some? && 0 <= qa.value.total <= qb.value.total
  {
    var row := RowFor(matches, cards[c], pin, mode, a);
    if row.Some? && row == RowFor(matches, cards[c], pin, mode, b) && row.value.base >= 0 && row.value.additional >= 0 {
      var s := row.value;
      ChargeableGrows(a, b);
      ExtraSlabsGrow(ChargeableG(a), ChargeableG(b), s.size);
      Products(s.additional, ExtraSlabs(ChargeableG(a), s.size), s.additional, ExtraSlabs(ChargeableG(b), s.size));
    }
  }

  /** The slab row a package falls into, if its pincode has a zone. */
  function RowFor(matches: Matcher, card: Card, pin: Pincode, mode: string, p: Package): Option<Slab> {
    var z := ZoneOf(matches, card.zones, pin);
    if z.None? then None else SlabOf(card.slabs, z.value.code, mode, ChargeableG(p))
  }

  // ---------------------------------------------------------------- what a quote charges

  /** z is the first zone, in query order, that has a code and a pattern matching the pincode. */
  predicate FirstMatch(matches: Matcher, zones: seq<Zone>, pin: Pincode, z: nat) {
    && z < |zones| && zones[z].code != ""
    && (exists i :: 0 <= i < |zones[z].patterns| && matches(zones[z].patterns[i], pin))
    && forall j, i :: 0 <= j < z && zones[j].code != "" && 0 <= i < |zones[j].patterns| ==>
         !matches(zones[j].patterns[i], pin)
  }

  /** k is the first listed row of this zone and mode that covers the weight. */
  predicate FirstRow(slabs: seq<Slab>, zone: string, mode: string, g: int, k: nat) {
    && k < |slabs| && slabs[k].zone == zone && slabs[k].mode == mode && slabs[k].minG <= g < slabs[k].maxG
    && forall j :: 0 <= j < k ==>
         !(slabs[j].zone == zone && slabs[j].mode == mode && slabs[j].minG <= g < slabs[j].maxG)
  }

  /** The larger of the declared weight and the volume in litres over five, in whole kilograms, as grams. */
  predicate IsCharged(p: Package, g: int) {
    var volume := p.length * p.width * p.height;
    var volumetric := if volume >= 0 then volume / 5_000_000 * 1000 else -(-volume / 5_000_000 * 1000);
    g >= p.weightG && g >= volumetric && (g == p.weightG || g == volumetric)
  }

  /** n is the least number of further slabs that, with the first, hold the weight; none for a slab size of zero. */
  predicate LeastSlabs(size: int, g: int, n: nat) {
    if size > 0 then size * (n + 1) >= g && (n > 0 ==> size * n < g) else n == 0
  }

  lemma {:induction false} ZoneHasAPlace(matches: Matcher, zones: seq<Zone>, pin: Pincode) returns (z: nat)
    requires ZoneOf(matches, zones, pin).Some?
    ensures FirstMatch(matches, zones, pin, z) && ZoneOf(matches, zones, pin) == Some(zones[z])
    decreases |zones|
  {
    z := 0;
    if !Covers(matches, zones[0], pin) {
      var k := ZoneHasAPlace(matches, zones[1..], pin);
      z := k + 1;
      forall j, i | 0 <= j < z && zones[j].code != "" && 0 <= i < |zones[j].patterns|
        ensures !matches(zones[j].patterns[i], pin)
      {
        assert j > 0 ==> zones[1..][j - 1] == zones[j];
      }
    }
  }

  lemma {:induction false} FirstZoneIsTaken(matches: Matcher, zones: seq<Zone>, pin: Pincode, z: nat)
    requires FirstMatch(matches, zones, pin, z)
    ensures ZoneOf(matches, zones, pin) == Some(zones[z])
    decreases |zones|
  {
    if z > 0 {
      assert forall j :: 0 <= j < |zones[1..]| ==> zones[1..][j] == zones[j + 1];
      FirstZoneIsTaken(matches, zones[1..], pin, z - 1);
    }
  }

  lemma {:induction false} RowHasAPlace(slabs: seq<Slab>, zone: string, mode: string, g: int) returns (k: nat)
    requires SlabOf(slabs, zone, mode, g).Some?
    ensures FirstRow(slabs, zone, mode, g, k) && SlabOf(slabs, zone, mode, g) == Some(slabs[k])
    decreases |slabs|
  {
    k := 0;
    if !Applies(slabs[0], zone, mode, g) {
      var j := RowHasAPlace(slabs[1..], zone, mode, g);
      k := j + 1;
      assert forall i :: 0 < i < k ==> slabs[i] == slabs[1..][i - 1];
    }
  }

  lemma {:induction false} FirstRowIsTaken(slabs: seq<Slab>, zone: string, mode: string, g: int, k: nat)
    requires FirstRow(slabs, zone, mode, g, k)
    ensures SlabOf(slabs, zone, mode, g) == Some(slabs[k])
    decreases |slabs|
  {
    if k > 0 {
      assert forall j :: 0 <= j < |slabs[1..]| ==> slabs[1..][j] == slabs[j + 1];
      FirstRowIsTaken(slabs[1..], zone, mode, g, k - 1);
    }
  }

  lemma SlabsAreLeast(g: int, size: int)
    ensures ExtraSlabs(g, size) >= 0 && LeastSlabs(size, g, ExtraSlabs(g, size))
  {
    if size > 0 {
      var n := ExtraSlabs(g, size);
      ExtraSlabsAreLeast(g, size, 0);
      ExtraSlabsAreLeast(g, size, n);
      if n > 0 {
        ExtraSlabsAreLeast(g, size, n - 1);
      }
    }
  }

  lemma OneLeast(size: int, g: int, n: nat, m: nat)
    requires LeastSlabs(size, g, n) && LeastSlabs(size, g, m)
    ensures n == m
  {
    if n < m {
      Scale(size, n + 1, m);
    } else if m < n {
      Scale(size, m + 1, n);
    }
  }

  lemma LargerIsCharged(p: Package)
    ensures IsCharged(p, ChargeableG(p)) && forall g :: IsCharged(p, g) ==> g == ChargeableG(p)
  {
  }

  /** Weight, zone, row and slabs of a quote, by the rate card alone. */
  predicate ChargedBy(matches: Matcher, card: Card, pin: Pincode, mode: string, p: Package,
                      g: int, z: nat, k: nat, n: nat) {
    && IsCharged(p, g) && FirstMatch(matches, card.zones, pin, z)
    && FirstRow(card.slabs, card.zones[z].code, mode, g, k) && LeastSlabs(card.slabs[k].size, g, n)
  }

  /**
   Main result: a quote charges the larger of declared and volumetric weight, on the first row of the
   first matching zone that covers it: the base and the rate for each of the fewest further slabs.
   */
  lemma QuoteIsCharged(
      matches: Matcher, cards: map<(CarrierId, Service), Card>, c: (CarrierId, Service), pin: Pincode, mode: string,
      p: Package) returns (g: int, z: nat, k: nat, n: nat)
    requires QuoteFor(matches, cards, c, pin, mode, p).Some?
    ensures c in cards && ChargedBy(matches, cards[c], pin, mode, p, g, z, k, n)
    ensures var q, zone, row := QuoteFor(matches, cards, c, pin, mode, p).value, cards[c].zones[z], cards[c].slabs[k];
      && (q.carrier, q.service) == c && q.zone == zone.code && q.days == zone.days
      && BaseAndRate(row, n, q.total, q.breakdown)
  {
    g, z, k := QuoteHasAPlace(matches, cards, c, pin, mode, p);
    n := SlabsAreCharged(cards[c].slabs[k], g);
  }

  predicate BaseAndRate(row: Slab, n: nat, total: int, breakdown: map<Part, int>) {
    total == row.base + row.additional * n && breakdown == map[Base := row.base, Additional := row.additional * n]
  }

  lemma SlabsAreCharged(row: Slab, g: int) returns (n: nat)
    ensures LeastSlabs(row.size, g, n) && BaseAndRate(row, n, SlabTotal(row, g), SlabBreakdown(row, g))
  {
    SlabsAreLeast(g, row.size);
    n := ExtraSlabs(g, row.size);
  }

  lemma QuoteHasAPlace(
      matches: Matcher, cards: map<(CarrierId, Service), Card>, c: (CarrierId, Service), pin: Pincode, mode: string,
      p: Package) returns (g: int, z: nat, k: nat)
    requires QuoteFor(matches, cards, c, pin, mode, p).Some?
    ensures c in cards && IsCharged(p, g) && FirstMatch(matches, cards[c].zones, pin, z)
    ensures FirstRow(cards[c].slabs, cards[c].zones[z].code, mode, g, k)
    ensures var zone, row := cards[c].zones[z], cards[c].slabs[k];
      QuoteFor(matches, cards, c, pin, mode, p)
      == Some(Quote(c.0, c.1, zone.days, SlabTotal(row, g), SlabBreakdown(row, g), zone.code))
  {
    g := ChargeableG(p);
    LargerIsCharged(p);
    z := ZoneHasAPlace(matches, cards[c].zones, pin);
    k := RowHasAPlace(cards[c].slabs, cards[c].zones[z].code, mode, g);
  }

  /** Main result: whatever the card charges so is quoted; with QuoteIsCharged, a quote exists exactly then. */
  lemma ChargedIsQuoted(
      matches: Matcher, cards: map<(CarrierId, Service), Card>, c: (CarrierId, Service), pin: Pincode, mode: string,
      p: Package, g: int, z: nat, k: nat, n: nat)
    requires c in cards && ChargedBy(matches, cards[c], pin, mode, p, g, z, k, n)
    ensures var q, row := QuoteFor(matches, cards, c, pin, mode, p), cards[c].slabs[k];
      q.Some? && q.value.total == row.base + row.additional * n
  {
    LargerIsCharged(p);
    FirstZoneIsTaken(matches, cards[c].zones, pin, z);
    FirstRowIsTaken(cards[c].slabs, cards[c].zones[z].code, mode, g, k);
    SlabsAreLeast(g, cards[c].slabs[k].size);
    OneLeast(cards[c].slabs[k].size, g, n, ExtraSlabs(g, cards[c].slabs[k].size));
  }

  /** Main result: the quotes of a request are those of its priceable candidates, each as often as it was asked for. */
  lemma {:induction false} QuotesAreTheCandidates(
      matches: Matcher, cards: map<(CarrierId, Service), Card>, cs: seq<(CarrierId, Service)>, pin: Pincode,
      mode: string, p: Package, c: (CarrierId, Service))
    ensures var q, qs := QuoteFor(matches, cards, c, pin, mode, p), Quotes(matches, cards, cs, pin, mode, p);
      && (q.Some? ==> multiset(qs)[q.value] == multiset(cs)[c])
      && (forall x :: x in qs ==> (x.carrier, x.service) in cs)
    decreases |cs|
  {
    if cs != [] {
      QuotesAreTheCandidates(matches, cards, cs[..|cs| - 1], pin, mode, p, c);
      assert cs == cs[..|cs| - 1] + [cs[|cs| - 1]];
    }
  }

  // ---------------------------------------------------------------- prices across slab rows

  /** The charge for a chargeable weight, if some row covers it. */
  function Price(slabs: seq<Slab>, zone: string, mode: string, g: int): Option<int> {
    var row := SlabOf(slabs, zone, mode, g);
    if row.None? then None else Some(SlabTotal(row.value, g))
  }

  predicate Concerns(r: Slab, zone: string, mode: string) {
    r.zone == zone && r.mode == mode
  }

  /** The table's own check: a row covers at least one gram. */
  predicate NonEmptyRows(slabs: seq<Slab>) {
    forall i :: 0 <= i < |slabs| ==> slabs[i].minG < slabs[i].maxG
  }

  predicate Apart(r: Slab, t: Slab) {
    r.maxG <= t.minG || t.maxG <= r.minG
  }

  /** No weight is covered by two rows of the zone and mode. */
  predicate DisjointRows(slabs: seq<Slab>, zone: string, mode: string) {
    forall i, j :: 0 <= i < j < |slabs| && Concerns(slabs[i], zone, mode) && Concerns(slabs[j], zone, mode)
      ==> Apart(slabs[i], slabs[j])
  }

  ghost predicate PricesNeverFall(slabs: seq<Slab>, zone: string, mode: string) {
    forall g, h :: g <= h && Price(slabs, zone, mode, g).Some? && Price(slabs, zone, mode, h).Some?
      ==> Price(slabs, zone, mode, g).value <= Price(slabs, zone, mode, h).value
  }

  /** The rate does not fall, or the row is too short for it to be charged more often. */
  predicate RowNeverFalls(r: Slab) {
    r.additional >= 0 || ExtraSlabs(r.minG, r.size) == ExtraSlabs(r.maxG - 1, r.size)
  }

  /** The last gram of the lower row costs no more than the first gram of the upper one. */
  predicate StepsUp(r: Slab, t: Slab) {
    r.maxG <= t.minG ==> SlabTotal(r, r.maxG - 1) <= SlabTotal(t, t.minG)
  }

  /** What can be read off the rate card. */
  predicate RatesNeverFall(slabs: seq<Slab>, zone: string, mode: string) {
    && (forall i :: 0 <= i < |slabs| && Concerns(slabs[i], zone, mode) ==> RowNeverFalls(slabs[i]))
    && (forall i, j :: 0 <= i < |slabs| && 0 <= j < |slabs| && Concerns(slabs[i], zone, mode)
          && Concerns(slabs[j], zone, mode)
          ==> StepsUp(slabs[i], slabs[j]))
  }

  lemma {:induction false} RowFound(slabs: seq<Slab>, zone: string, mode: string, g: int) returns (i: nat)
    requires SlabOf(slabs, zone, mode, g).Some?
    ensures i < |slabs| && SlabOf(slabs, zone, mode, g) == Some(slabs[i]) && Applies(slabs[i], zone, mode, g)
    decreases |slabs|
  {
    if Applies(slabs[0], zone, mode, g) {
      i := 0;
    } else {
      var k := RowFound(slabs[1..], zone, mode, g);
      i := k + 1;
    }
  }

  lemma {:induction false} OnlyRow(slabs: seq<Slab>, zone: string, mode: string, g: int, i: nat)
    requires DisjointRows(slabs, zone, mode) && i < |slabs| && Applies(slabs[i], zone, mode, g)
    ensures SlabOf(slabs, zone, mode, g) == Some(slabs[i])
    decreases |slabs|
  {
    if i > 0 {
      assert Concerns(slabs[0], zone, mode) ==> Apart(slabs[0], slabs[i]);
      assert forall j, k :: 0 <= j < k < |slabs[1..]|
               ==> slabs[1..][j] == slabs[j + 1] && slabs[1..][k] == slabs[k + 1];
      OnlyRow(slabs[1..], zone, mode, g, i - 1);
    }
  }

  /** Within one row the charge grows from g to h when the row never falls. */
  lemma RowGrows(r: Slab, g: int, h: int)
    requires RowNeverFalls(r) && r.minG <= g <= h < r.maxG
    ensures SlabTotal(r, g) <= SlabTotal(r, h)
  {
    ExtraSlabsGrow(r.minG, g, r.size);
    ExtraSlabsGrow(g, h, r.size);
    ExtraSlabsGrow(h, r.maxG - 1, r.size);
    if r.additional >= 0 {
      Products(r.additional, ExtraSlabs(g, r.size), r.additional, ExtraSlabs(h, r.size));
    }
  }

  lemma RatesGivePrices(slabs: seq<Slab>, zone: string, mode: string, g: int, h: int)
    requires RatesNeverFall(slabs, zone, mode) && DisjointRows(slabs, zone, mode) && NonEmptyRows(slabs)
    requires g <= h && Price(slabs, zone, mode, g).Some? && Price(slabs, zone, mode, h).Some?
    ensures Price(slabs, zone, mode, g).value <= Price(slabs, zone, mode, h).value
  {
    var i := RowFound(slabs, zone, mode, g);
    var j := RowFound(slabs, zone, mode, h);
    var r, t := slabs[i], slabs[j];
    if i == j {
      RowGrows(r, g, h);
    } else {
      assert Apart(r, t) || Apart(t, r);
      assert StepsUp(r, t);
      AcrossRows(r, t, g, h);
    }
  }

  /** From a weight of one row to a weight of a higher one. */
  lemma AcrossRows(r: Slab, t: Slab, g: int, h: int)
    requires RowNeverFalls(r) && RowNeverFalls(t) && StepsUp(r, t)
    requires r.minG <= g < r.maxG <= t.minG <= h < t.maxG
    ensures SlabTotal(r, g) <= SlabTotal(t, h)
  {
    RowGrows(r, g, r.maxG - 1);
    RowGrows(t, t.minG, h);
  }

  /** A falling rate charged more often at the end than at the start lowers the charge. */
  lemma PricesGiveRow(r: Slab)
    requires r.minG < r.maxG && SlabTotal(r, r.minG) <= SlabTotal(r, r.maxG - 1)
    ensures RowNeverFalls(r)
  {
    ExtraSlabsGrow(r.minG, r.maxG - 1, r.size);
    var low, high := ExtraSlabs(r.minG, r.size), ExtraSlabs(r.maxG - 1, r.size);
    assert r.additional * high - r.additional * low == r.additional * (high - low);
    if r.additional < 0 && low < high {
      NegativeProduct(r.additional, high - low);
    }
  }

  lemma NegativeProduct(m: int, d: int)
    requires m < 0 < d
    ensures m * d < 0
  {
    assert -m * d > 0;
    assert m * d == -(-m * d);
  }

  /**
   Main result, exact: on a card whose rows do not overlap, a heavier weight never costs less if and
   only if no row falls within itself and every row ends no dearer than any higher row begins.
   */
  lemma PricesNeverFallExactly(slabs: seq<Slab>, zone: string, mode: string)
    requires NonEmptyRows(slabs) && DisjointRows(slabs, zone, mode)
    ensures PricesNeverFall(slabs, zone, mode) <==> RatesNeverFall(slabs, zone, mode)
  {
    if RatesNeverFall(slabs, zone, mode) {
      forall g, h | g <= h && Price(slabs, zone, mode, g).Some? && Price(slabs, zone, mode, h).Some?
        ensures Price(slabs, zone, mode, g).value <= Price(slabs, zone, mode, h).value
      {
        RatesGivePrices(slabs, zone, mode, g, h);
      }
    }
    if PricesNeverFall(slabs, zone, mode) {
      forall i | 0 <= i < |slabs| && Concerns(slabs[i], zone, mode) ensures RowNeverFalls(slabs[i]) {
        OnlyRow(slabs, zone, mode, slabs[i].minG, i);
        OnlyRow(slabs, zone, mode, slabs[i].maxG - 1, i);
        assert Price(slabs, zone, mode, slabs[i].minG).Some? && Price(slabs, zone, mode, slabs[i].maxG - 1).Some?;
        PricesGiveRow(slabs[i]);
      }
      forall i, j | 0 <= i < |slabs| && 0 <= j < |slabs| && Concerns(slabs[i], zone, mode)
                    && Concerns(slabs[j], zone, mode)
        ensures StepsUp(slabs[i], slabs[j])
      {
        OnlyRow(slabs, zone, mode, slabs[i].maxG - 1, i);
        OnlyRow(slabs, zone, mode, slabs[j].minG, j);
        assert Price(slabs, zone, mode, slabs[i].maxG - 1).Some? && Price(slabs, zone, mode, slabs[j].minG).Some?;
      }
    }
  }

  /** Main result: on such a card a package no smaller in any respect never costs less, across rows too. */
  lemma LargerNeverCostsLess(
      matches: Matcher, cards: map<(CarrierId, Service), Card>, c: (CarrierId, Service), pin: Pincode, mode: string,
      a: Package, b: Package)
    requires NoLarger(a, b) && c in cards
    ensures var z := ZoneOf(matches, cards[c].zones, pin);
      var qa, qb := QuoteFor(matches, cards, c, pin, mode, a), QuoteFor(matches, cards, c, pin, mode, b);
      z.Some? && NonEmptyRows(cards[c].slabs) && DisjointRows(cards[c].slabs, z.value.code, mode)
      && RatesNeverFall(cards[c].slabs, z.value.code, mode) && qa.Some? && qb.Some?
      ==> qa.value.total <= qb.value.total
  {
    ChargeableGrows(a, b);
    var z := ZoneOf(matches, cards[c].zones, pin);
    if z.Some? && NonEmptyRows(cards[c].slabs) && DisjointRows(cards[c].slabs, z.value.code, mode) {
      PricesNeverFallExactly(cards[c].slabs, z.value.code, mode);
      var ga, gb := ChargeableG(a), ChargeableG(b);
      assert Price(cards[c].slabs, z.value.code, mode, ga).Some? <==> QuoteFor(matches, cards, c, pin, mode, a).Some?;
      assert Price(cards[c].slabs, z.value.code, mode, gb).Some? <==> QuoteFor(matches, cards, c, pin, mode, b).Some?;
    }
  }

  /** The failing family is not empty: nothing in the tables ties the rates of neighbouring rows. */
  lemma HeavierCanCostLess(matches: Matcher, pin: Pincode)
    requires matches(".*", pin)
    ensures var card := Card([Zone("A", [".*"], 2)],
                             [Slab("A", "prepaid", 0, 500, 9000, 0, 500),
                              Slab("A", "prepaid", 500, 1000, 4000, 0, 500)]);
      var cards := map[(1, Standard) := card];
      var a := QuoteFor(matches, cards, (1, Standard), pin, "prepaid", Package(400, 1, 1, 1));
      var b := QuoteFor(matches, cards, (1, Standard), pin, "prepaid", Package(600, 1, 1, 1));
      a.Some? && b.Some? && a.value.total > b.value.total
  {
    var z := Zone("A", [".*"], 2);
    assert z.patterns[0] == ".*" && Covers(matches, z, pin);
    var slabs := [Slab("A", "prepaid", 0, 500, 9000, 0, 500), Slab("A", "prepaid", 500, 1000, 4000, 0, 500)];
    assert slabs[1..][0] == slabs[1];
  }

  /** Main result: in every response each row's total is the sum of its own breakdown. */
  lemma RowTotalIsItsBreakdown(
      matches: Matcher, cards: map<(CarrierId, Service), Card>, cs: seq<(CarrierId, Service)>, packages: seq<Package>,
      pin: Pincode, mode: string, sums: map<(CarrierId, Service), CarrierQuote>, k: (CarrierId, Service))
    requires SumsUp(sums, AllQuotes(matches, cards, cs, packages, pin, mode)) && k in sums
    ensures sums[k].total == PartOf(sums[k].breakdown, Base) + PartOf(sums[k].breakdown, Additional)
  {
    AllBalanced(matches, cards, cs, packages, pin, mode);
    BalancedTotals(AllQuotes(matches, cards, cs, packages, pin, mode), k);
    assert RowSums(sums[k], AllQuotes(matches, cards, cs, packages, pin, mode), k);
  }

  predicate Balanced(q: Quote) {
    q.total == PartOf(q.breakdown, Base) + PartOf(q.breakdown, Additional)
  }

  lemma {:induction false} QuotesBalanced(
      matches: Matcher, cards: map<(CarrierId, Service), Card>, cs: seq<(CarrierId, Service)>, pin: Pincode,
      mode: string, p: Package)
    ensures forall q :: q in Quotes(matches, cards, cs, pin, mode, p) ==> Balanced(q)
  {
    if cs != [] {
      QuotesBalanced(matches, cards, cs[..|cs| - 1], pin, mode, p);
    }
  }

  lemma {:induction false} AllBalanced(
      matches: Matcher, cards: map<(CarrierId, Service), Card>, cs: seq<(CarrierId, Service)>, packages: seq<Package>,
      pin: Pincode, mode: string)
    ensures forall q :: q in AllQuotes(matches, cards, cs, packages, pin, mode) ==> Balanced(q)
  {
    if packages != [] {
      AllBalanced(matches, cards, cs, packages[..|packages| - 1], pin, mode);
      QuotesBalanced(matches, cards, cs, pin, mode, packages[|packages| - 1]);
    }
  }

  lemma {:induction false} BalancedTotals(qs: seq<Quote>, k: (CarrierId, Service))
    requires forall q :: q in qs ==> Balanced(q)
    ensures TotalOf(qs, k) == PartTotal(qs, k, Base) + PartTotal(qs, k, Additional)
  {
    if qs != [] {
      BalancedTotals(qs[..|qs| - 1], k);
      assert Balanced(qs[|qs| - 1]);
    }
  }
}
