/** Percentiles, bids and the moving average of core/src/fee_analytics.rs, in real arithmetic. */
module FeeAnalytics {
  import opened Numbers
  import opened Sorting

  const I64_MAX: int := 0x7fff_ffff_ffff_ffff

  function Max(x: real, y: real): real {
    if x > y then x else y
  }

  function Ceil(x: real): int {
    -((-x).Floor)
  }

  /** To the nearest integer; halves go up, which for the non-negative values rounded here is away from zero. */
  function Round(x: real): int {
    (x + 0.5).Floor
  }

  /** The saturating cast to u64. */
  function AsU64(x: int): nat {
    if x < 0 then 0 else if x >= U64 then U64 - 1 else x
  }

  /** The saturating cast of a position to an index. */
  function AsIndex(x: int): nat {
    if x < 0 then 0 else x
  }

  // ---- Percentiles ----------------------------------------------------------------

  function Sorted(data: seq<int>): (s: seq<int>)
    ensures |s| == |data|
  {
    SortByContents(data, (x: int) => x);
    SortBy(data, (x: int) => x)
  }

  function Position(percentile: real, n: nat): real
    requires n > 0
  {
    percentile / 100.0 * (n - 1) as real
  }

  function Blend(a: real, b: real, weight: real): real {
    a * (1.0 - weight) + b * weight
  }

  /** The value at a fractional position, by linear interpolation; past the end, the last value. */
  function ValueAt(s: seq<int>, position: real): real
    requires AsIndex(position.Floor) < |s|
  {
    var lower, upper := AsIndex(position.Floor), AsIndex(Ceil(position));
    var weight := position - lower as real;
    if upper >= |s| then s[lower] as real
    else Blend(s[lower] as real, s[upper] as real, weight)
  }

  /** The source indexes out of bounds when the position is past the end by a whole sample or more. */
  predicate InRange(data: seq<int>, percentile: real) {
    data != [] ==> AsIndex(Position(percentile, |data|).Floor) < |data|
  }

  function CalculatePercentile(data: seq<int>, percentile: real): nat
    requires InRange(data, percentile)
  {
    if data == [] then 0 else AsU64(Round(Max(ValueAt(Sorted(data), Position(percentile, |data|)), 0.0)))
  }

  ghost predicate Ascending(s: seq<int>) {
    forall i, j :: 0 <= i <= j < |s| ==> s[i] <= s[j]
  }

  lemma SortedIs(data: seq<int>)
    ensures Ascending(Sorted(data)) && multiset(Sorted(data)) == multiset(data)
  {
    var key := (x: int) => x;
    SortBySorts(data, key);
    SortByContents(data, key);
    var s := SortBy(data, key);
    forall i, j | 0 <= i <= j < |s| ensures s[i] <= s[j] {
      assert i < j ==> key(s[i]) <= key(s[j]);
    }
  }

  lemma SameLeast(a: seq<int>, b: seq<int>)
    requires Ascending(a) && Ascending(b) && multiset(a) == multiset(b) && a != []
    ensures |a| == |b| && a[0] == b[0]
  {
    assert |multiset(a)| == |a| && |multiset(b)| == |b|;
    assert a[0] in multiset(b) && b[0] in multiset(a);
  }

  lemma Tail(a: seq<int>)
    requires a != []
    ensures multiset(a[1..]) == multiset(a) - multiset{a[0]}
  {
    assert a == [a[0]] + a[1..];
  }

  lemma {:induction false} SortedUnique(a: seq<int>, b: seq<int>)
    requires Ascending(a) && Ascending(b) && multiset(a) == multiset(b)
    ensures a == b
    decreases |a|
  {
    if a == [] {
      assert |multiset(b)| == |b|;
    } else {
      SameLeast(a, b);
      Tail(a);
      Tail(b);
      SortedUnique(a[1..], b[1..]);
      assert a == [a[0]] + a[1..] && b == [b[0]] + b[1..];
    }
  }

  /** The order of the samples does not matter. */
  lemma PercentileIgnoresOrder(a: seq<int>, b: seq<int>, percentile: real)
    requires multiset(a) == multiset(b) && InRange(a, percentile)
    ensures InRange(b, percentile) && CalculatePercentile(a, percentile) == CalculatePercentile(b, percentile)
  {
    assert |multiset(a)| == |a| && |multiset(b)| == |b|;
    SortedIs(a);
    SortedIs(b);
    SortedUnique(Sorted(a), Sorted(b));
  }

  lemma Nonnegative(x: real, y: real)
    requires x >= 0.0 && y >= 0.0
    ensures x * y >= 0.0
  {
  }

  /** Interpolation is convex. */
  lemma Between(a: real, b: real, w: real)
    requires a <= b && 0.0 <= w <= 1.0
    ensures a <= Blend(a, b, w) <= b
  {
    Nonnegative(b - a, w);
    Nonnegative(b - a, 1.0 - w);
    assert a * (1.0 - w) + b * w == a + (b - a) * w == b - (b - a) * (1.0 - w);
  }

  lemma BetweenMonotone(a: real, b: real, w: real, v: real)
    requires a <= b && w <= v
    ensures Blend(a, b, w) <= Blend(a, b, v)
  {
    Nonnegative(b - a, v - w);
    assert a * (1.0 - w) + b * w == a + (b - a) * w;
    assert a * (1.0 - v) + b * v == a + (b - a) * v;
  }

  function Least(x: nat, y: nat): nat {
    if x < y then x else y
  }

  /** The value lies between the samples on either side of the position. */
  lemma ValueBetween(s: seq<int>, x: real)
    requires Ascending(s) && AsIndex(x.Floor) < |s|
    ensures var l, u := AsIndex(x.Floor), Least(AsIndex(Ceil(x)), |s| - 1);
            l <= u && s[l] as real <= ValueAt(s, x) <= s[u] as real
  {
    var l, u := AsIndex(x.Floor), AsIndex(Ceil(x));
    if u < |s| {
      var w := x - l as real;
      if x < 0.0 {
        assert l == 0 && u == 0;
        assert Blend(s[0] as real, s[0] as real, w) == s[0] as real;
      } else {
        assert 0.0 <= w <= 1.0 && l <= u;
        Between(s[l] as real, s[u] as real, w);
      }
    }
  }

  lemma ValueMonotone(s: seq<int>, x: real, y: real)
    requires Ascending(s) && x <= y && AsIndex(y.Floor) < |s|
    ensures AsIndex(x.Floor) < |s| && ValueAt(s, x) <= ValueAt(s, y)
  {
    hide ValueAt;
    ValueBetween(s, x);
    ValueBetween(s, y);
    var l, u := AsIndex(x.Floor), AsIndex(Ceil(x));
    if Least(u, |s| - 1) > AsIndex(y.Floor) {
      assert x.Floor == y.Floor && Ceil(x) == Ceil(y);
      SameGap(s, x, y);
    }
  }

  lemma SameGap(s: seq<int>, x: real, y: real)
    requires Ascending(s) && x <= y && AsIndex(y.Floor) < |s| && x.Floor == y.Floor && Ceil(x) == Ceil(y)
    ensures ValueAt(s, x) <= ValueAt(s, y)
  {
    var l, u := AsIndex(x.Floor), AsIndex(Ceil(x));
    if u < |s| {
      BetweenMonotone(s[l] as real, s[u] as real, x - l as real, y - l as real);
    }
  }

  lemma PositionMonotone(p: real, q: real, n: nat)
    requires n > 0 && p <= q
    ensures Position(p, n) <= Position(q, n)
  {
    Nonnegative(q / 100.0 - p / 100.0, (n - 1) as real);
  }

  lemma RoundMonotone(x: real, y: real)
    requires x <= y
    ensures AsU64(Round(Max(x, 0.0))) <= AsU64(Round(Max(y, 0.0)))
  {
  }

  /** A higher percentile is never smaller. */
  lemma PercentileMonotone(data: seq<int>, p: real, q: real)
    requires p <= q && InRange(data, q)
    ensures InRange(data, p) && CalculatePercentile(data, p) <= CalculatePercentile(data, q)
  {
    hide ValueAt, Position, Sorted;
    if data != [] {
      SortedIs(data);
      PositionMonotone(p, q, |data|);
      ValueMonotone(Sorted(data), Position(p, |data|), Position(q, |data|));
      RoundMonotone(ValueAt(Sorted(data), Position(p, |data|)), ValueAt(Sorted(data), Position(q, |data|)));
    }
  }

  lemma RoundWithin(v: real, lo: int, hi: int)
    requires lo as real <= v <= hi as real && hi <= I64_MAX
    ensures (if lo < 0 then 0 else lo) <= AsU64(Round(Max(v, 0.0))) <= (if hi < 0 then 0 else hi)
  {
  }

  /** A percentile lies between the least and the greatest sample, negative ones counting as 0. */
  lemma PercentileWithin(data: seq<int>, percentile: real, lo: int, hi: int)
    requires data != [] && InRange(data, percentile) && hi <= I64_MAX
    requires forall k :: 0 <= k < |data| ==> lo <= data[k] <= hi
    ensures (if lo < 0 then 0 else lo) <= CalculatePercentile(data, percentile) <= (if hi < 0 then 0 else hi)
  {
    hide Position;
    var s, x := Sorted(data), Position(percentile, |data|);
    SortedIs(data);
    ValueBetween(s, x);
    forall k | 0 <= k < |s| ensures lo <= s[k] <= hi {
      assert s[k] in multiset(data);
    }
    RoundWithin(ValueAt(s, x), lo, hi);
  }

  /** At a whole position the percentile is that sample in ascending order; between two, it moves linearly. */
  lemma PercentileAt(data: seq<int>, percentile: real, k: nat, part: real)
    requires k + 1 < |data| && 0.0 <= part < 1.0 && Position(percentile, |data|) == k as real + part
    ensures InRange(data, percentile)
    ensures CalculatePercentile(data, percentile) ==
              AsU64(Round(Max(Sorted(data)[k] as real + part * (Sorted(data)[k + 1] - Sorted(data)[k]) as real, 0.0)))
  {
    hide Position, Sorted;
    ValueAtIs(Sorted(data), k, part);
  }

  lemma ValueAtIs(s: seq<int>, k: nat, part: real)
    requires k + 1 < |s| && 0.0 <= part < 1.0
    ensures AsIndex((k as real + part).Floor) == k
    ensures ValueAt(s, k as real + part) == s[k] as real + part * (s[k + 1] - s[k]) as real
  {
    if part == 0.0 {
      assert AsIndex(Ceil(k as real + part)) == k;
      BlendIs(s[k], s[k], part);
    } else {
      assert AsIndex(Ceil(k as real + part)) == k + 1;
      BlendIs(s[k], s[k + 1], part);
    }
  }

  lemma BlendIs(a: int, b: int, part: real)
    ensures Blend(a as real, b as real, part) == a as real + part * (b - a) as real
  {
    assert (b - a) as real == b as real - a as real;
    assert part * (b as real - a as real) == part * b as real - part * a as real;
  }

  // ---- Bids ---------------------------------------------------------------------------

  datatype Bids = Bids(economy: nat, standard: nat, priority: nat, urgent: nat) {
    predicate Ordered() { economy <= standard <= priority <= urgent }
  }

  function Bid(percentile: nat, factor: real): nat {
    AsU64(Ceil(percentile as real * factor))
  }

  lemma UsualPercentilesInRange(fees: seq<int>, percentile: real)
    requires 0.0 <= percentile <= 100.0
    ensures InRange(fees, percentile)
  {
    if fees != [] {
      var n := (|fees| - 1) as real;
      Nonnegative(1.0 - percentile / 100.0, n);
      assert percentile / 100.0 * n <= n;
    }
  }

  function PredictBids(fees: seq<int>, safetyMargin: real): Bids {
    if fees == [] then Bids(100, 100, 150, 200)
    else
      UsualPercentilesInRange(fees, 50.0);
      UsualPercentilesInRange(fees, 75.0);
      UsualPercentilesInRange(fees, 95.0);
      var p50 := CalculatePercentile(fees, 50.0);
      var p75 := CalculatePercentile(fees, 75.0);
      var p95 := CalculatePercentile(fees, 95.0);
      Bids(Bid(p50, 0.9), Bid(p50, safetyMargin), Bid(p75, safetyMargin), Bid(p95, safetyMargin))
  }

  predicate AreI64(fees: seq<int>) {
    forall k :: 0 <= k < |fees| ==> -I64_MAX - 1 <= fees[k] <= I64_MAX
  }

  /** The greatest i64 that ends in 9: nine tenths of such a number is rounded up the most. */
  const WORST: nat := 9223372036854775799

  lemma CeilMonotone(x: real, y: real)
    requires x <= y
    ensures AsU64(Ceil(x)) <= AsU64(Ceil(y))
  {
  }

  lemma BidMonotone(p: nat, q: nat, factor: real)
    requires p <= q && factor >= 0.0
    ensures Bid(p, factor) <= Bid(q, factor)
  {
    Nonnegative(q as real - p as real, factor);
    assert q as real * factor - p as real * factor == (q as real - p as real) * factor;
    CeilMonotone(p as real * factor, q as real * factor);
  }

  /** Nine tenths of an integer, rounded up, by its last digit. */
  lemma NineTenths(p: nat)
    ensures Ceil(p as real * 0.9) as real * 10.0 <= 9.0 * p as real + (if p % 10 == 9 then 9.0 else 8.0)
  {
    var c := Ceil(p as real * 0.9);
    assert (c - 1) as real < p as real * 0.9;
    assert 10 * (c - 1) < 9 * p;
    assert p == 10 * (p / 10) + p % 10;
  }

  lemma StandardCoversEconomy(p: nat, margin: real)
    requires p <= I64_MAX && margin * WORST as real > 0.9 * WORST as real - 0.1
    ensures Bid(p, 0.9) <= Bid(p, margin)
  {
    if margin < 0.9 {
      JustBelow(p, margin);
    } else {
      Nonnegative(p as real, margin - 0.9);
      Distribute(p as real, margin);
      CeilMonotone(p as real * 0.9, p as real * margin);
    }
  }

  lemma JustBelow(p: nat, margin: real)
    requires p <= I64_MAX && margin < 0.9 && margin * WORST as real > 0.9 * WORST as real - 0.1
    ensures Bid(p, 0.9) <= Bid(p, margin)
  {
    var c, y := Ceil(p as real * 0.9), p as real * margin;
    NineTenths(p);
    Shortfall(p as real, margin, p % 10 == 9) by {
      assert p % 10 == 9 ==> p <= WORST;
    }
    OneBelow(c, p as real, y, p % 10 == 9);
    CeilAbove(c, y);
  }

  lemma Shortfall(p: real, margin: real, ninth: bool)
    requires margin < 0.9 && margin * WORST as real > 0.9 * WORST as real - 0.1
    requires p <= I64_MAX as real && (ninth ==> p <= WORST as real)
    ensures p * margin > p * 0.9 - (if ninth then 0.1 else 0.2)
  {
    JustShort(p, 0.9 - margin, ninth);
    Distribute(p, margin);
  }

  lemma OneBelow(c: int, p: real, y: real, ninth: bool)
    requires c as real * 10.0 <= 9.0 * p + (if ninth then 9.0 else 8.0)
    requires y > p * 0.9 - (if ninth then 0.1 else 0.2)
    ensures y > (c - 1) as real
  {
    assert (c - 1) as real == c as real - 1.0;
  }

  lemma Distribute(p: real, margin: real)
    ensures p * margin == p * 0.9 - (0.9 - margin) * p == p * 0.9 + p * (margin - 0.9)
  {
  }

  lemma JustShort(p: real, gap: real, ninth: bool)
    requires gap > 0.0 && gap * WORST as real < 0.1 && p <= I64_MAX as real && (ninth ==> p <= WORST as real)
    ensures gap * p < (if ninth then 0.1 else 0.2)
  {
    var most := if ninth then WORST as real else 2.0 * WORST as real;
    Nonnegative(gap, most - p);
    assert gap * (most - p) == gap * most - gap * p;
  }

  lemma CeilAbove(c: int, y: real)
    requires y > (c - 1) as real
    ensures AsU64(c) <= AsU64(Ceil(y))
  {
  }

  /** The bids are ordered for every list of i64 fees exactly when the margin is, up to rounding, at least nine
      tenths. */
  lemma BidsOrderedIff(margin: real)
    ensures (forall fees :: AreI64(fees) ==> PredictBids(fees, margin).Ordered()) <==>
              margin * WORST as real > 0.9 * WORST as real - 0.1
  {
    if margin * WORST as real > 0.9 * WORST as real - 0.1 {
      forall fees | AreI64(fees) ensures PredictBids(fees, margin).Ordered() {
        BidsOrdered(fees, margin);
      }
    } else {
      WorstFees(margin);
    }
  }

  lemma BidsOrdered(fees: seq<int>, margin: real)
    requires AreI64(fees) && margin * WORST as real > 0.9 * WORST as real - 0.1
    ensures PredictBids(fees, margin).Ordered()
  {
    hide Bid, CalculatePercentile;
    if fees != [] {
      UsualPercentilesInRange(fees, 50.0);
      UsualPercentilesInRange(fees, 75.0);
      UsualPercentilesInRange(fees, 95.0);
      PercentileWithin(fees, 50.0, -I64_MAX - 1, I64_MAX);
      PercentileMonotone(fees, 50.0, 75.0);
      PercentileMonotone(fees, 75.0, 95.0);
      StandardCoversEconomy(CalculatePercentile(fees, 50.0), margin);
      assert margin >= 0.0;
      BidMonotone(CalculatePercentile(fees, 50.0), CalculatePercentile(fees, 75.0), margin);
      BidMonotone(CalculatePercentile(fees, 75.0), CalculatePercentile(fees, 95.0), margin);
    }
  }

  lemma WorstFees(margin: real)
    requires margin * WORST as real <= 0.9 * WORST as real - 0.1
    ensures AreI64([WORST]) && !PredictBids([WORST], margin).Ordered()
  {
    UsualPercentilesInRange([WORST], 50.0);
    PercentileWithin([WORST], 50.0, WORST, WORST);
    assert CalculatePercentile([WORST], 50.0) == WORST;
    assert Ceil(WORST as real * 0.9) == 8301034833169298220;
    assert WORST as real * margin <= 8301034833169298219.0;
  }

  // ---- Percentiles and bids in numbers ------------------------------------------------

  /** The percentile is taken at 100 times its position over one less than the number of samples. */
  lemma PercentileInNumbers(data: seq<int>, percentile: real, k: nat, part: real)
    requires k + 1 < |data| && 0.0 <= part < 1.0 && percentile * (|data| - 1) as real == 100.0 * (k as real + part)
    ensures InRange(data, percentile)
    ensures CalculatePercentile(data, percentile) ==
              AsU64(Round(Max(Sorted(data)[k] as real + part * (Sorted(data)[k + 1] - Sorted(data)[k]) as real, 0.0)))
  {
    PositionIs(percentile, |data|, k as real + part);
    PercentileAt(data, percentile, k, part);
  }

  lemma PositionIs(percentile: real, n: nat, x: real)
    requires n > 0 && percentile * (n - 1) as real == 100.0 * x
    ensures Position(percentile, n) == x
  {
    assert percentile / 100.0 * (n - 1) as real == percentile * (n - 1) as real / 100.0;
  }

  /** Rounding: to the nearest integer, halves up; negative values count as 0. */
  lemma RoundIs(x: real)
    ensures Round(x) as real - 0.5 <= x < Round(x) as real + 0.5
    ensures (Ceil(x) - 1) as real < x <= Ceil(x) as real
    ensures forall n: int :: AsU64(n) ==
              if n <= 0 then 0 else if n > 0xffff_ffff_ffff_ffff then 0xffff_ffff_ffff_ffff else n
  {
  }

  /**
   * Of 20 k + 1 samples the median, the upper quartile and the 95th percentile are the samples at 10 k, 15 k and 19 k
   * in ascending order; the bids are nine tenths of the first, and all three times the margin, rounded up.
   */
  lemma BidsInNumbers(fees: seq<int>, k: nat, margin: real)
    requires k > 0 && |fees| == 20 * k + 1 && forall i :: 0 <= i < |fees| ==> 0 <= fees[i] <= I64_MAX
    ensures var s := Sorted(fees);
            && PredictBids(fees, margin).economy == AsU64(Ceil(s[10 * k] as real * 0.9))
            && PredictBids(fees, margin).standard == AsU64(Ceil(s[10 * k] as real * margin))
            && PredictBids(fees, margin).priority == AsU64(Ceil(s[15 * k] as real * margin))
            && PredictBids(fees, margin).urgent == AsU64(Ceil(s[19 * k] as real * margin))
  {
    SampleAt(fees, 50.0, 10 * k);
    SampleAt(fees, 75.0, 15 * k);
    SampleAt(fees, 95.0, 19 * k);
  }

  /** Where the position is whole, the percentile is a sample. */
  lemma SampleAt(fees: seq<int>, percentile: real, i: nat)
    requires i + 1 < |fees| && percentile * (|fees| - 1) as real == 100.0 * i as real
    requires forall j :: 0 <= j < |fees| ==> 0 <= fees[j] <= I64_MAX
    ensures InRange(fees, percentile) && CalculatePercentile(fees, percentile) == Sorted(fees)[i]
  {
    var s := Sorted(fees);
    SortedIs(fees);
    assert 0 <= s[i] <= I64_MAX by {
      assert s[i] in multiset(fees);
    }
    PercentileInNumbers(fees, percentile, i, 0.0);
    assert 0.0 * (s[i + 1] - s[i]) as real == 0.0;
  }

  /** One sample is all its percentiles; without samples the percentile is 0 and the bids are the defaults. */
  lemma FewSamples(fee: nat, percentile: real, margin: real)
    requires fee <= I64_MAX
    ensures InRange([], percentile) && CalculatePercentile([], percentile) == 0
    ensures InRange([fee], percentile) && CalculatePercentile([fee], percentile) == fee
    ensures PredictBids([], margin) == Bids(100, 100, 150, 200)
  {
    assert Position(percentile, 1) == 0.0;
    PercentileWithin([fee], percentile, fee, fee);
  }

  /** The moving average starts at the first value; each further one moves it by 2 / (period + 1) of the difference. */
  lemma SmoothedInNumbers(data: seq<int>, n: nat, period: nat)
    requires n + 1 < |data|
    ensures Smoothed(data, 0, Multiplier(period)) == data[0] as real
    ensures Smoothed(data, n + 1, Multiplier(period)) * (period as real + 1.0) ==
              2.0 * data[n + 1] as real + (period as real - 1.0) * Smoothed(data, n, Multiplier(period))
  {
    var m, before := Multiplier(period), Smoothed(data, n, Multiplier(period));
    var x, d := data[n + 1] as real, period as real + 1.0;
    assert m * d == 2.0;
    assert ((x - before) * m + before) * d == (x - before) * (m * d) + before * d;
  }

  // ---- The moving average -----------------------------------------------------------

  /** The average over the first `n + 1` values. */
  function Smoothed(data: seq<int>, n: nat, multiplier: real): real
    requires n < |data|
  {
    if n == 0 then data[0] as real
    else
      var before := Smoothed(data, n - 1, multiplier);
      (data[n] as real - before) * multiplier + before
  }

  function Multiplier(period: nat): real {
    2.0 / (period as real + 1.0)
  }

  method CalculateEma(data: seq<int>, period: nat) returns (r: nat)
    ensures data == [] || period == 0 ==> r == 0
    ensures data != [] && period > 0 ==>
              r == AsU64(Round(Max(Smoothed(data, Least(period, |data| - 1), Multiplier(period)), 0.0)))
  {
    if data == [] || period == 0 {
      return 0;
    }
    var multiplier := Multiplier(period);
    var ema := data[0] as real;
    var used := Least(period, |data| - 1);
    for k := 1 to used + 1
      invariant ema == Smoothed(data, k - 1, multiplier)
    {
      ema := (data[k] as real - ema) * multiplier + ema;
    }
    return AsU64(Round(Max(ema, 0.0)));
  }

  lemma MultiplierIs(period: nat)
    requires period > 0
    ensures 0.0 < Multiplier(period) <= 1.0
  {
  }

  lemma BlendWithin(before: real, x: real, m: real, lo: real, hi: real)
    requires lo <= before <= hi && lo <= x <= hi && 0.0 <= m <= 1.0
    ensures lo <= (x - before) * m + before <= hi
  {
    if before <= x {
      Nonnegative(x - before, m);
      Nonnegative(x - before, 1.0 - m);
      assert (x - before) * (1.0 - m) == (x - before) - (x - before) * m;
    } else {
      Nonnegative(before - x, m);
      Nonnegative(before - x, 1.0 - m);
      assert (before - x) * (1.0 - m) == (before - x) - (before - x) * m;
      assert (x - before) * m == -((before - x) * m);
    }
  }

  /** The average stays between the least and the greatest value. */
  lemma {:induction false} SmoothedWithin(data: seq<int>, n: nat, period: nat, lo: real, hi: real)
    requires n < |data| && period > 0
    requires forall k :: 0 <= k <= n ==> lo <= data[k] as real <= hi
    ensures lo <= Smoothed(data, n, Multiplier(period)) <= hi
    decreases n
  {
    if n > 0 {
      SmoothedWithin(data, n - 1, period, lo, hi);
      MultiplierIs(period);
      BlendWithin(Smoothed(data, n - 1, Multiplier(period)), data[n] as real, Multiplier(period), lo, hi);
    }
  }

  /** Higher fees never lower the average. */
  lemma {:induction false} SmoothedMonotone(a: seq<int>, b: seq<int>, n: nat, period: nat)
    requires n < |a| && n < |b| && period > 0
    requires forall k :: 0 <= k <= n ==> a[k] <= b[k]
    ensures Smoothed(a, n, Multiplier(period)) <= Smoothed(b, n, Multiplier(period))
    decreases n
  {
    if n > 0 {
      SmoothedMonotone(a, b, n - 1, period);
      MultiplierIs(period);
      var m := Multiplier(period);
      hide Multiplier;
      BlendMonotone(Smoothed(a, n - 1, m), Smoothed(b, n - 1, m), a[n] as real, b[n] as real, m);
    }
  }

  lemma BlendMonotone(p: real, q: real, x: real, y: real, m: real)
    requires p <= q && x <= y && 0.0 <= m <= 1.0
    ensures (x - p) * m + p <= (y - q) * m + q
  {
    assert (y - q) * m + q - ((x - p) * m + p) == (q - p) * (1.0 - m) + (y - x) * m;
    Nonnegative(q - p, 1.0 - m);
    Nonnegative(y - x, m);
  }
}
