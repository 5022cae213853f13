/**
 Carrier allocation (backend/internal/allocation): score every quote by cost and speed, rank them,
 recommend the first. Scores are exact rationals here; rounding is not modelled.
 */
module Allocation {
  import opened Core
  import Sorting

  type CarrierId = nat
  datatype Service = Standard | Express

  datatype Quote = Quote(carrier: CarrierId, service: Service, total: int, days: int)
  datatype Weights = Weights(cost: int, speed: int)
  datatype Candidate = Candidate(quote: Quote, costScore: real, speedScore: real, score: real)

  /** The extremes the scores are normalised by. */
  datatype Extent = Extent(minCost: int, maxCost: int, maxDays: int)

  // ---------------------------------------------------------------- scoring

  function CostScore(q: Quote, x: Extent): real {
    if x.maxCost - x.minCost > 0 then 1.0 - (q.total - x.minCost) as real / (x.maxCost - x.minCost) as real else 1.0
  }

  function SpeedScore(q: Quote, x: Extent): real {
    if x.maxDays > 0 then 1.0 - (q.days - 1) as real / x.maxDays as real else 1.0
  }

  function Blend(cost: real, speed: real, w: Weights): real
    requires w.cost + w.speed != 0
  {
    (cost * w.cost as real + speed * w.speed as real) / (w.cost + w.speed) as real
  }

  function Scored(q: Quote, x: Extent, w: Weights): Candidate
    requires w.cost + w.speed != 0
  {
    Candidate(q, CostScore(q, x), SpeedScore(q, x), Blend(CostScore(q, x), SpeedScore(q, x), w))
  }

  /** x is the extent of the quotes: attained bounds. */
  ghost predicate IsExtent(x: Extent, quotes: seq<Quote>) {
    && (forall q :: q in quotes ==> x.minCost <= q.total <= x.maxCost && q.days <= x.maxDays)
    && (exists q :: q in quotes && q.total == x.minCost)
    && (exists q :: q in quotes && q.total == x.maxCost)
    && (exists q :: q in quotes && q.days == x.maxDays)
  }

  ghost predicate Ranked(cs: seq<Candidate>) {
    forall i, j :: 0 <= i < j < |cs| ==> cs[i].score >= cs[j].score
  }

  // ---------------------------------------------------------------- the code

  class AllocationEngine {
    /** Candidates to price: every allowed, not excluded, well-formed carrier, in both services. */
    method BuildCandidates(order: seq<string>, excluded: set<string>, parse: map<string, CarrierId>)
      returns (r: seq<(CarrierId, Service)>)
      ensures forall c, s :: (c, s) in r
                <==> exists name :: name in order && name !in excluded && name in parse && parse[name] == c
    {
      r := [];
      for i := 0 to |order|
        invariant forall c, s :: (c, s) in r
                    <==> exists name :: name in order[..i] && name !in excluded && name in parse && parse[name] == c
      {
        var name := order[i];
        assert order[..i + 1] == order[..i] + [name];
        if name in excluded {
          continue;
        }
        if name !in parse {
          continue;
        }
        ghost var before := r;
        r := r + [(parse[name], Standard)];
        r := r + [(parse[name], Express)];
        assert r == before + [(parse[name], Standard), (parse[name], Express)];
        forall c, s: Service
          ensures (c, s) in r <==> exists n :: n in order[..i + 1] && n !in excluded && n in parse && parse[n] == c
        {
          assert s == Standard || s == Express;
          if c == parse[name] {
            assert (c, s) == (parse[name], Standard) || (c, s) == (parse[name], Express);
          }
        }
      }
      assert order[..|order|] == order;
    }

    method Measure(quotes: seq<Quote>) returns (x: Extent)
      requires quotes != []
      ensures IsExtent(x, quotes)
    {
      var minCost, maxCost, maxDays := quotes[0].total, quotes[0].total, quotes[0].days;
      ghost var lo, hi, slow := quotes[0], quotes[0], quotes[0];
      for i := 1 to |quotes|
        invariant forall k :: 0 <= k < i ==> minCost <= quotes[k].total <= maxCost && quotes[k].days <= maxDays
        invariant lo in quotes && hi in quotes && slow in quotes
        invariant lo.total == minCost && hi.total == maxCost && slow.days == maxDays
      {
        var q := quotes[i];
        if q.total < minCost {
          minCost, lo := q.total, q;
        }
        if q.total > maxCost {
          maxCost, hi := q.total, q;
        }
        if q.days > maxDays {
          maxDays, slow := q.days, q;
        }
      }
      x := Extent(minCost, maxCost, maxDays);
    }

    /** sort.Slice by descending score. */
    method SortByScore(a: array<Candidate>)
      modifies a
      ensures Ranked(a[..]) && multiset(a[..]) == multiset(old(a[..]))
    {
      Sorting.SortSlice(a, (x: Candidate, y: Candidate) => x.score > y.score);
    }

    /** Score, sort, recommend index 0; None when no carrier quoted. */
    method Rank(quotes: seq<Quote>, w: Weights) returns (r: Option<seq<Candidate>>)
      requires w.cost + w.speed != 0
      ensures r.None? <==> quotes == []
      ensures r.Some? ==> IsRanking(r.value, quotes, w)
    {
      if |quotes| == 0 {
        return None;
      }
      var x := Measure(quotes);
      var candidates := new Candidate[|quotes|];
      for i := 0 to |quotes|
        invariant forall k :: 0 <= k < i ==> candidates[k] == Scored(quotes[k], x, w)
        modifies candidates
      {
        candidates[i] := Scored(quotes[i], x, w);
      }
      assert candidates[..] == AllScored(quotes, x, w);
      SortByScore(candidates);
      r := Some(candidates[..]);
    }
  }

  function AllScored(quotes: seq<Quote>, x: Extent, w: Weights): (r: seq<Candidate>)
    requires w.cost + w.speed != 0
    ensures |r| == |quotes| && forall i :: 0 <= i < |quotes| ==> r[i] == Scored(quotes[i], x, w)
  {
    seq(|quotes|, i requires 0 <= i < |quotes| => Scored(quotes[i], x, w))
  }

  /** A permutation of the scored quotes in descending order of score. */
  ghost predicate IsRanking(cs: seq<Candidate>, quotes: seq<Quote>, w: Weights) {
    && w.cost + w.speed != 0
    && Ranked(cs)
    && exists x :: IsExtent(x, quotes) && multiset(cs) == multiset(AllScored(quotes, x, w))
  }

  // ---------------------------------------------------------------- results

  lemma Fraction(n: int, d: int)
    requires 0 <= n <= d && d > 0
    ensures 0.0 <= n as real / d as real <= 1.0
  {
  }

  lemma FractionGrows(n: int, m: int, d: int)
    requires n < m && d > 0
    ensures n as real / d as real < m as real / d as real
  {
  }

  /**
   Main result, exact: every score of every quote lies in [0, 1] if and only if no quote promises less
   than one day while some quote needs a positive number.
   */
  lemma ScoresAreFractionsExactly(quotes: seq<Quote>, x: Extent)
    requires IsExtent(x, quotes)
    ensures forall q :: q in quotes ==> 0.0 <= CostScore(q, x) <= 1.0 && 0.0 <= SpeedScore(q, x)
    ensures (forall q :: q in quotes ==> SpeedScore(q, x) <= 1.0)
            <==> (x.maxDays > 0 ==> forall q :: q in quotes ==> q.days >= 1)
  {
    forall q | q in quotes
      ensures 0.0 <= CostScore(q, x) <= 1.0 && 0.0 <= SpeedScore(q, x)
      ensures SpeedScore(q, x) <= 1.0 <==> x.maxDays <= 0 || q.days >= 1
    {
      if x.maxCost > x.minCost {
        Fraction(q.total - x.minCost, x.maxCost - x.minCost);
      }
      if x.maxDays > 0 {
        if q.days >= 1 {
          Fraction(q.days - 1, x.maxDays);
        } else {
          FractionGrows(q.days - 1, 0, x.maxDays);
        }
      }
    }
  }

  /** Each score, cleared of its denominator: one less for every paisa above the cheapest or day beyond the first. */
  lemma ScoresAreNormalised(q: Quote, x: Extent, w: Weights)
    requires w.cost + w.speed != 0
    ensures var c := Scored(q, x, w);
      && c.quote == q
      && (x.maxCost > x.minCost ==>
            c.costScore * (x.maxCost - x.minCost) as real == (x.maxCost - q.total) as real)
      && (x.maxCost <= x.minCost ==> c.costScore == 1.0)
      && (x.maxDays > 0 ==> c.speedScore * x.maxDays as real == (x.maxDays - q.days + 1) as real)
      && (x.maxDays <= 0 ==> c.speedScore == 1.0)
  {
    if x.maxCost > x.minCost {
      TimesBack((q.total - x.minCost) as real, (x.maxCost - x.minCost) as real);
    }
    if x.maxDays > 0 {
      TimesBack((q.days - 1) as real, x.maxDays as real);
    }
  }

  lemma BlendIsAFraction(c: real, s: real, w: Weights)
    requires 0.0 <= c <= 1.0 && 0.0 <= s <= 1.0 && w.cost >= 0 && w.speed >= 0 && w.cost + w.speed > 0
    ensures 0.0 <= Blend(c, s, w) <= 1.0
  {
    var p, q := w.cost as real, w.speed as real;
    var a := PartOf(c, p);
    var b := PartOf(s, q);
    QuotientOfSum(a, b, p, q, (w.cost + w.speed) as real);
  }

  lemma PartOf(c: real, m: real) returns (part: real)
    requires 0.0 <= c <= 1.0 && m >= 0.0
    ensures part == c * m && 0.0 <= part <= m
  {
    part := c * m;
    var rest := (1.0 - c) * m;
    NonNegative(c, m);
    NonNegative(1.0 - c, m);
    assert rest == m - part;
  }

  lemma NonNegative(a: real, b: real)
    requires a >= 0.0 && b >= 0.0
    ensures a * b >= 0.0
  {
  }

  lemma QuotientOfSum(a: real, b: real, p: real, q: real, d: real)
    requires 0.0 <= a <= p && 0.0 <= b <= q && d == p + q && d > 0.0
    ensures 0.0 <= (a + b) / d <= 1.0
  {
  }

  /** Cheaper-or-equal and faster-or-equal, and better in one of the two. */
  predicate Dominates(a: Quote, b: Quote) {
    a.total <= b.total && a.days <= b.days && (a.total < b.total || a.days < b.days)
  }

  lemma DominatingScoresHigher(a: Quote, b: Quote, quotes: seq<Quote>, x: Extent, w: Weights)
    requires IsExtent(x, quotes) && a in quotes && b in quotes
    requires w.cost > 0 && w.speed > 0 && a.days >= 1 && Dominates(a, b)
    ensures Scored(a, x, w).score > Scored(b, x, w).score
  {
    if a.total < b.total {
      FractionGrows(a.total - x.minCost, b.total - x.minCost, x.maxCost - x.minCost);
    }
    if a.days < b.days {
      FractionGrows(a.days - 1, b.days - 1, x.maxDays);
    }
    BlendGrows(CostScore(a, x), SpeedScore(a, x), CostScore(b, x), SpeedScore(b, x), w);
  }

  lemma BlendGrows(c: real, s: real, c': real, s': real, w: Weights)
    requires w.cost > 0 && w.speed > 0 && c >= c' && s >= s' && (c > c' || s > s')
    ensures Blend(c, s, w) > Blend(c', s', w)
  {
    var p, q, d := w.cost as real, w.speed as real, (w.cost + w.speed) as real;
    assert (c - c') * p >= 0.0 && (s - s') * q >= 0.0;
    assert (c - c') * p > 0.0 || (s - s') * q > 0.0;
    assert (c * p + s * q) - (c' * p + s' * q) == (c - c') * p + (s - s') * q;
    SmallerQuotient(c' * p + s' * q, c * p + s * q, d);
  }

  lemma SmallerQuotient(a: real, b: real, d: real)
    requires a < b && d > 0.0
    ensures a / d < b / d
  {
  }

  /**
   Main result: with positive weights and deliveries of at least a day, nothing quoted is better than
   the recommendation in one respect and no worse in the other.
   */
  lemma RecommendationIsParetoOptimal(cs: seq<Candidate>, quotes: seq<Quote>, w: Weights, rival: Quote)
    requires w.cost > 0 && w.speed > 0 && rival in quotes
    ensures IsRanking(cs, quotes, w) ==> |cs| == |quotes| && cs[0].quote in quotes
    ensures IsRanking(cs, quotes, w) && (forall q :: q in quotes ==> q.days >= 1) ==> !Dominates(rival, cs[0].quote)
  {
    if IsRanking(cs, quotes, w) {
      BestOfRanking(cs, quotes, w, rival);
    }
  }

  lemma BestOfRanking(cs: seq<Candidate>, quotes: seq<Quote>, w: Weights, rival: Quote)
    requires IsRanking(cs, quotes, w) && w.cost > 0 && w.speed > 0 && rival in quotes
    ensures |cs| == |quotes| && cs[0].quote in quotes
    ensures (forall q :: q in quotes ==> q.days >= 1) ==> !Dominates(rival, cs[0].quote)
  {
    var x :| IsExtent(x, quotes) && multiset(cs) == multiset(AllScored(quotes, x, w));
    var all := AllScored(quotes, x, w);
    assert |cs| == |multiset(cs)| == |all|;
    assert cs[0] in multiset(all);
    var i :| 0 <= i < |all| && all[i] == cs[0];
    assert cs[0] == Scored(quotes[i], x, w);
    var j :| 0 <= j < |quotes| && quotes[j] == rival;
    assert all[j] in multiset(cs);
    var k :| 0 <= k < |cs| && cs[k] == all[j];
    assert cs[0].score >= cs[k].score;
    if rival.days >= 1 && Dominates(rival, cs[0].quote) {
      DominatingScoresHigher(rival, quotes[i], quotes, x, w);
    }
  }

  // ---------------------------------------------------------------- the order of two quotes

  /** How much cheaper, in paise. */
  function Saved(a: Quote, b: Quote): int {
    b.total - a.total
  }

  /** How many days faster. */
  function Sooner(a: Quote, b: Quote): int {
    b.days - a.days
  }

  /** Cost range, or one when all cost the same (the cost scores are then equal). */
  function Range(x: Extent): int {
    if x.maxCost > x.minCost then x.maxCost - x.minCost else 1
  }

  /** Largest days, or one when none is positive. */
  function Span(x: Extent): int {
    if x.maxDays > 0 then x.maxDays else 1
  }

  /** Money saved and days saved, weighed against each other by the extent: an integer whose sign is the order. */
  function Balance(a: Quote, b: Quote, x: Extent, w: Weights): int {
    w.cost * Saved(a, b) * Span(x) + w.speed * (if x.maxDays > 0 then Sooner(a, b) else 0) * Range(x)
  }

  lemma CostGap(a: Quote, b: Quote, quotes: seq<Quote>, x: Extent)
    requires IsExtent(x, quotes) && a in quotes && b in quotes
    ensures (CostScore(a, x) - CostScore(b, x)) * Range(x) as real == Saved(a, b) as real
  {
    if x.maxCost > x.minCost {
      var r, p, q := Range(x) as real, (a.total - x.minCost) as real, (b.total - x.minCost) as real;
      TimesBack(p, r);
      TimesBack(q, r);
      assert ((1.0 - p / r) - (1.0 - q / r)) * r == q / r * r - p / r * r;
    }
  }

  lemma SpeedGap(a: Quote, b: Quote, x: Extent)
    ensures (SpeedScore(a, x) - SpeedScore(b, x)) * Span(x) as real
              == (if x.maxDays > 0 then Sooner(a, b) else 0) as real
  {
    if x.maxDays > 0 {
      var r, p, q := Span(x) as real, (a.days - 1) as real, (b.days - 1) as real;
      TimesBack(p, r);
      TimesBack(q, r);
      assert ((1.0 - p / r) - (1.0 - q / r)) * r == q / r * r - p / r * r;
    }
  }

  lemma TimesBack(p: real, r: real)
    requires r != 0.0
    ensures p / r * r == p
  {
  }

  /** Main result, exact: of two quotes the higher scored is the one the integer balance favours. */
  lemma OrderIsTheBalance(a: Quote, b: Quote, quotes: seq<Quote>, x: Extent, w: Weights)
    requires IsExtent(x, quotes) && a in quotes && b in quotes && w.cost + w.speed > 0
    ensures Scored(a, x, w).score > Scored(b, x, w).score <==> Balance(a, b, x, w) > 0
    ensures Scored(a, x, w).score < Scored(b, x, w).score <==> Balance(a, b, x, w) < 0
  {
    CostGap(a, b, quotes, x);
    SpeedGap(a, b, x);
    var sooner := if x.maxDays > 0 then Sooner(a, b) else 0;
    SignOfBlend(CostScore(a, x), SpeedScore(a, x), CostScore(b, x), SpeedScore(b, x), w, Saved(a, b), sooner,
                Range(x), Span(x));
  }

  lemma SignOfBlend(c: real, s: real, c': real, s': real, w: Weights, saved: int, sooner: int, range: int, span: int)
    requires w.cost + w.speed > 0 && range > 0 && span > 0
    requires (c - c') * range as real == saved as real && (s - s') * span as real == sooner as real
    ensures var balance := w.cost * saved * span + w.speed * sooner * range;
      && (Blend(c, s, w) > Blend(c', s', w) <==> balance > 0)
      && (Blend(c, s, w) < Blend(c', s', w) <==> balance < 0)
  {
    var m, n := w.cost * saved * span, w.speed * sooner * range;
    BlendGap(c, s, c', s', w);
    ThreeFactors(w.cost, saved, span);
    ThreeFactors(w.speed, sooner, range);
    GapSign(c - c', s - s', w.cost as real, w.speed as real, range as real, span as real,
            saved as real, sooner as real, m as real + n as real);
    assert (m + n) as real == m as real + n as real;
  }

  lemma GapSign(c: real, s: real, p: real, q: real, r: real, d: real, saved: real, sooner: real, balance: real)
    requires r > 0.0 && d > 0.0 && c * r == saved && s * d == sooner
    requires balance == p * saved * d + q * sooner * r
    ensures var gap := c * p + s * q; (gap > 0.0 <==> balance > 0.0) && (gap < 0.0 <==> balance < 0.0)
  {
    Scaled(c, s, p, q, r, d);
    Positive(r, d);
    SignOfProduct(c * p + s * q, r * d);
  }

  lemma Positive(r: real, d: real)
    requires r > 0.0 && d > 0.0
    ensures r * d > 0.0
  {
  }

  lemma BlendGap(c: real, s: real, c': real, s': real, w: Weights)
    requires w.cost + w.speed > 0
    ensures var gap := (c - c') * w.cost as real + (s - s') * w.speed as real;
      && (Blend(c, s, w) > Blend(c', s', w) <==> gap > 0.0)
      && (Blend(c, s, w) < Blend(c', s', w) <==> gap < 0.0)
  {
    var p, q, d := w.cost as real, w.speed as real, (w.cost + w.speed) as real;
    var m, n := c * p + s * q, c' * p + s' * q;
    assert m - n == (c - c') * p + (s - s') * q;
    QuotientOrder(m, n, d);
  }

  lemma QuotientOrder(m: real, n: real, d: real)
    requires d > 0.0
    ensures (m / d > n / d <==> m > n) && (m / d < n / d <==> m < n)
  {
    if m > n {
      SmallerQuotient(n, m, d);
    } else if m < n {
      SmallerQuotient(m, n, d);
    }
  }

  lemma Scaled(c: real, s: real, p: real, q: real, r: real, d: real)
    ensures (c * p + s * q) * (r * d) == p * (c * r) * d + q * (s * d) * r
  {
    assert (c * p) * (r * d) == p * (c * r) * d;
    assert (s * q) * (r * d) == q * (s * d) * r;
  }

  lemma ThreeFactors(i: int, j: int, k: int)
    ensures (i * j * k) as real == i as real * j as real * k as real
  {
    assert (i * j) as real == i as real * j as real;
    assert (i * j * k) as real == (i * j) as real * k as real;
  }

  lemma SignOfProduct(g: real, m: real)
    requires m > 0.0
    ensures (g * m > 0.0 <==> g > 0.0) && (g * m < 0.0 <==> g < 0.0)
  {
  }

  /** The longest times stand to each other as the cost ranges do. */
  predicate InProportion(x: Extent, x': Extent) {
    x.maxDays > 0 && x'.maxDays > 0 && Span(x') * Range(x) == Span(x) * Range(x')
  }

  /**
   Main result: as long as added or dropped quotes leave cost range and longest time in proportion, no
   two quotes change order.
   */
  lemma ProportionKeepsEveryOrder(
      a: Quote, b: Quote, quotes: seq<Quote>, x: Extent, quotes': seq<Quote>, x': Extent, w: Weights)
    requires IsExtent(x, quotes) && a in quotes && b in quotes && IsExtent(x', quotes') && a in quotes' && b in quotes'
    requires w.cost + w.speed > 0
    ensures InProportion(x, x')
      ==> (Scored(a, x, w).score > Scored(b, x, w).score <==> Scored(a, x', w).score > Scored(b, x', w).score)
  {
    if InProportion(x, x') {
      OrderIsTheBalance(a, b, quotes, x, w);
      OrderIsTheBalance(a, b, quotes', x', w);
      var m, n := w.cost * Saved(a, b), w.speed * Sooner(a, b);
      SameSign(m, n, Span(x), Range(x), Span(x'), Range(x'));
    }
  }

  lemma SameSign(m: int, n: int, d: int, r: int, d': int, r': int)
    requires d > 0 && d' > 0 && d' * r == d * r'
    ensures m * d + n * r > 0 <==> m * d' + n * r' > 0
  {
    var y, y' := m * d + n * r, m * d' + n * r';
    assert y' * d == m * d' * d + n * (d * r');
    assert y * d' == m * d * d' + n * (d' * r);
    assert y' * d == y * d';
    PositiveProduct(y', d);
    PositiveProduct(y, d');
  }

  lemma PositiveProduct(y: int, d: int)
    requires d > 0
    ensures y * d > 0 <==> y > 0
  {
    if y <= 0 {
      assert -y * d >= 0;
      assert y * d == -(-y * d);
    }
  }

  /** One is cheaper, the other faster. */
  predicate Conflict(a: Quote, b: Quote) {
    (Saved(a, b) > 0 && Sooner(a, b) < 0) || (Saved(a, b) < 0 && Sooner(a, b) > 0)
  }

  /** a outscores b among some quotes, and b outscores a among others. */
  ghost predicate OrderFlips(a: Quote, b: Quote, w: Weights)
    requires w.cost + w.speed > 0
  {
    exists quotes, x, quotes', x' :: Outscores(a, b, quotes, x, w) && Outscores(b, a, quotes', x', w)
  }

  ghost predicate Outscores(a: Quote, b: Quote, quotes: seq<Quote>, x: Extent, w: Weights)
    requires w.cost + w.speed > 0
  {
    IsExtent(x, quotes) && a in quotes && b in quotes && Scored(a, x, w).score > Scored(b, x, w).score
  }

  /** With enough spread in days the cheaper wins. */
  lemma CheaperCanWin(a: Quote, b: Quote, w: Weights) returns (quotes: seq<Quote>, x: Extent)
    requires w.cost > 0 && w.speed > 0 && a.days >= 1 && b.days >= 1 && Saved(a, b) > 0 && Sooner(a, b) < 0
    ensures Outscores(a, b, quotes, x, w)
  {
    var n := w.speed * -Sooner(a, b) * Saved(a, b);
    Grows(w.speed, -Sooner(a, b), Saved(a, b));
    var third := Quote(a.carrier, a.service, a.total, n + a.days + b.days);
    quotes, x := [a, b, third], Extent(a.total, b.total, third.days);
    assert a in quotes && b in quotes && third in quotes;
    assert Range(x) == Saved(a, b) && Span(x) == third.days;
    Grows(w.cost, Saved(a, b), third.days);
    assert w.speed * Sooner(a, b) * Range(x) == -n;
    OrderIsTheBalance(a, b, quotes, x, w);
  }

  /** With enough spread in cost the faster wins. */
  lemma FasterCanWin(a: Quote, b: Quote, w: Weights) returns (quotes: seq<Quote>, x: Extent)
    requires w.cost > 0 && w.speed > 0 && a.days >= 1 && b.days >= 1 && Saved(a, b) > 0 && Sooner(a, b) < 0
    ensures Outscores(b, a, quotes, x, w)
  {
    var n := w.cost * Saved(a, b) * a.days;
    Grows(w.cost, Saved(a, b), a.days);
    var third := Quote(a.carrier, a.service, b.total + n, a.days);
    quotes, x := [a, b, third], Extent(a.total, third.total, a.days);
    assert a in quotes && b in quotes && third in quotes;
    assert Range(x) == Saved(a, b) + n && Span(x) == a.days;
    Grows(w.speed, -Sooner(a, b), Range(x));
    assert w.speed * Sooner(a, b) * Range(x) == -(w.speed * -Sooner(a, b) * Range(x));
    OrderIsTheBalance(a, b, quotes, x, w);
  }

  lemma Grows(i: int, j: int, k: int)
    requires i >= 1 && j >= 1 && k >= 1
    ensures i * j * k >= k
  {
    assert i * j >= 1;
    assert (i * j - 1) * k >= 0;
  }

  /**
   Main result, exact: which of two quotes ranks higher depends on what else is quoted if and only if
   one of them is cheaper and the other faster.
   */
  lemma OrderFlipsExactly(a: Quote, b: Quote, w: Weights)
    requires w.cost > 0 && w.speed > 0 && a.days >= 1 && b.days >= 1
    ensures OrderFlips(a, b, w) <==> Conflict(a, b)
  {
    if quotes, x, quotes', x' :| Outscores(a, b, quotes, x, w) && Outscores(b, a, quotes', x', w) {
      OrderIsTheBalance(a, b, quotes, x, w);
      OrderIsTheBalance(a, b, quotes', x', w);
      if !Conflict(a, b) {
        AgreeingSigns(a, b, x, w);
        AgreeingSigns(a, b, x', w);
      }
    }
    if Saved(a, b) > 0 && Sooner(a, b) < 0 {
      var quotes, x := CheaperCanWin(a, b, w);
      var quotes', x' := FasterCanWin(a, b, w);
    } else if Conflict(a, b) {
      var quotes, x := FasterCanWin(b, a, w);
      var quotes', x' := CheaperCanWin(b, a, w);
    }
  }

  lemma AgreeingSigns(a: Quote, b: Quote, x: Extent, w: Weights)
    requires w.cost > 0 && w.speed > 0
    ensures Saved(a, b) >= 0 && Sooner(a, b) >= 0 ==> Balance(a, b, x, w) >= 0
    ensures Saved(a, b) <= 0 && Sooner(a, b) <= 0 ==> Balance(a, b, x, w) <= 0
  {
    var sooner := if x.maxDays > 0 then Sooner(a, b) else 0;
    SignOfThree(w.cost, Saved(a, b), Span(x));
    SignOfThree(w.speed, sooner, Range(x));
  }

  lemma SignOfThree(i: int, j: int, k: int)
    requires i > 0 && k > 0
    ensures (j >= 0 ==> i * j * k >= 0) && (j <= 0 ==> i * j * k <= 0)
  {
    if j >= 0 {
      assert i * j >= 0;
    } else {
      assert i * -j >= 0;
      assert i * -j * k >= 0;
      assert i * -j * k == -(i * j * k);
    }
  }

  /** For example: an extra quote that is itself recommended to nobody turns the order of two others. */
  lemma ALoserCanFlipTheWinner()
    ensures var a, b, c := Quote(1, Standard, 100, 5), Quote(2, Express, 200, 1), Quote(3, Standard, 1100, 5);
      var w := Weights(100, 50);
      var two, three := Extent(100, 200, 5), Extent(100, 1100, 5);
      && IsExtent(two, [a, b]) && IsExtent(three, [a, b, c])
      && Scored(a, two, w).score > Scored(b, two, w).score
      && Scored(a, three, w).score < Scored(b, three, w).score
      && Scored(c, three, w).score < Scored(a, three, w).score
  {
    var a, b, c := Quote(1, Standard, 100, 5), Quote(2, Express, 200, 1), Quote(3, Standard, 1100, 5);
    assert a in [a, b] && b in [a, b] && a in [a, b, c] && c in [a, b, c];
  }
}
