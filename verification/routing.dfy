/** Provider selection of core/src/routing.rs and the order of `providers_by_latency` over the same views. */
module Routing {
  import opened Wrappers
  import opened Sorting
  import opened Numbers
  import opened ProviderStats

  datatype ProviderView = ProviderView(name: string, isHealthy: bool, emaRttUs: nat, sampleCount: nat)

  /** Ascending indices into the views. */
  ghost predicate Listed(views: seq<ProviderView>, h: seq<nat>) {
    && (forall k :: 0 <= k < |h| ==> h[k] < |views|)
    && (forall a, b :: 0 <= a < b < |h| ==> h[a] < h[b])
  }

  function HealthyFrom(views: seq<ProviderView>, first: nat): (h: seq<nat>)
    requires first <= |views|
    ensures Listed(views, h)
    ensures forall k :: 0 <= k < |h| ==> first <= h[k] && views[h[k]].isHealthy
    ensures forall i :: first <= i < |views| && views[i].isHealthy ==> i in h
    decreases |views| - first
  {
    if first == |views| then []
    else if views[first].isHealthy then [first] + HealthyFrom(views, first + 1)
    else HealthyFrom(views, first + 1)
  }

  /** The indices of the healthy views, ascending. */
  function Healthy(views: seq<ProviderView>): (h: seq<nat>)
    ensures Listed(views, h)
    ensures forall k :: 0 <= k < |h| ==> views[h[k]].isHealthy
    ensures forall i :: 0 <= i < |views| && views[i].isHealthy ==> i in h
  {
    HealthyFrom(views, 0)
  }

  predicate AllWarmed(views: seq<ProviderView>) {
    forall i :: 0 <= i < |views| && views[i].isHealthy ==> views[i].sampleCount >= MIN_SAMPLES_FOR_EMA
  }

  /** (ema, index) in lexicographic order. */
  predicate Precedes(views: seq<ProviderView>, i: nat, j: nat)
    requires i < |views| && j < |views|
  {
    views[i].emaRttUs < views[j].emaRttUs || (views[i].emaRttUs == views[j].emaRttUs && i <= j)
  }

  /** The pick precedes every healthy provider when all are warmed; otherwise it is the cursor's turn. */
  method SelectProviderIndex(views: seq<ProviderView>, cursor: nat) returns (pick: Option<nat>)
    ensures pick == Select(views, cursor)
    ensures pick == None <==> forall i :: 0 <= i < |views| ==> !views[i].isHealthy
    ensures pick.Some? ==> pick.value < |views| && views[pick.value].isHealthy
    ensures pick.Some? && AllWarmed(views) ==>
              forall i :: 0 <= i < |views| && views[i].isHealthy ==> Precedes(views, pick.value, i)
  {
    var healthy := Healthy(views);
    if healthy == [] {
      return None;
    }
    if !AllWarmed(views) {
      return Some(healthy[cursor % |healthy|]);
    }
    var best := healthy[0];
    for k := 1 to |healthy|
      invariant best in healthy && best < |views| && views[best].isHealthy
      invariant forall j :: 0 <= j < k ==> Precedes(views, best, healthy[j])
    {
      if !Precedes(views, best, healthy[k]) {
        best := healthy[k];
      }
    }
    FastestIs(views, healthy, best);
    return Some(best);
  }

  /** The fastest of the listed views; the first one on equal latency. */
  function Fastest(views: seq<ProviderView>, h: seq<nat>): (best: nat)
    requires h != [] && Listed(views, h)
    ensures best in h && best < |views|
    decreases |h|
  {
    if |h| == 1 then h[0]
    else
      var rest := Fastest(views, h[1..]);
      if views[h[0]].emaRttUs <= views[rest].emaRttUs then h[0] else rest
  }

  function Select(views: seq<ProviderView>, cursor: nat): Option<nat> {
    var healthy := Healthy(views);
    if healthy == [] then None
    else if !AllWarmed(views) then Some(healthy[cursor % |healthy|])
    else Some(Fastest(views, healthy))
  }

  lemma {:induction false} FastestPrecedes(views: seq<ProviderView>, h: seq<nat>)
    requires h != [] && Listed(views, h)
    ensures forall k :: 0 <= k < |h| ==> Precedes(views, Fastest(views, h), h[k])
    decreases |h|
  {
    if |h| > 1 {
      var t := h[1..];
      FastestPrecedes(views, t);
      forall k | 0 <= k < |h| ensures Precedes(views, Fastest(views, h), h[k]) {
        if k > 0 {
          assert h[k] == t[k - 1];
        } else {
          var m :| 0 <= m < |t| && t[m] == Fastest(views, t);
          assert h[0] < t[m];
        }
      }
    }
  }

  /** Whoever precedes all others is the fastest view. */
  lemma FastestIs(views: seq<ProviderView>, h: seq<nat>, best: nat)
    requires Listed(views, h) && best in h && best < |views|
    requires forall k :: 0 <= k < |h| ==> Precedes(views, best, h[k])
    ensures best == Fastest(views, h)
  {
    FastestPrecedes(views, h);
  }

  // ---- The order of requests ------------------------------------------------

  function RotateLeft<T>(s: seq<T>, k: nat): seq<T>
    requires k <= |s|
  {
    s[k..] + s[..k]
  }

  function Latency(views: seq<ProviderView>): nat -> int {
    (i: nat) => if i < |views| then views[i].emaRttUs else 0
  }

  /** The order in which `providers_by_latency` lists the available providers. */
  function LatencyOrder(views: seq<ProviderView>, cursor: nat): (order: seq<nat>)
    ensures multiset(order) == multiset(Healthy(views)) && |order| == |Healthy(views)|
    ensures forall k :: 0 <= k < |order| ==> order[k] < |views|
  {
    Arranged(views, cursor, Healthy(views))
  }

  /** The available providers by latency when all are warmed, and rotated by the cursor otherwise. */
  function Arranged(views: seq<ProviderView>, cursor: nat, h: seq<nat>): (order: seq<nat>)
    requires Listed(views, h)
    ensures multiset(order) == multiset(h) && |order| == |h|
    ensures forall k :: 0 <= k < |order| ==> order[k] < |views|
  {
    if h == [] then []
    else if AllWarmed(views) then
      SortByContents(h, Latency(views));
      Rearranged(views, h, SortBy(h, Latency(views)));
      SortBy(h, Latency(views))
    else
      assert h == h[..cursor % |h|] + h[cursor % |h|..];
      Rearranged(views, h, RotateLeft(h, cursor % |h|));
      RotateLeft(h, cursor % |h|)
  }

  lemma Rearranged(views: seq<ProviderView>, h: seq<nat>, order: seq<nat>)
    requires Listed(views, h) && multiset(order) == multiset(h)
    ensures forall k :: 0 <= k < |order| ==> order[k] < |views|
  {
    forall k | 0 <= k < |order| ensures order[k] < |views| {
      assert order[k] in multiset(h);
    }
  }

  /** The list is led by the pure selector's choice, warmed or cold. */
  lemma LatencyOrderAgrees(views: seq<ProviderView>, cursor: nat)
    ensures var order := LatencyOrder(views, cursor);
            Select(views, cursor) == if order == [] then None else Some(order[0])
  {
    var h := Healthy(views);
    if h != [] && AllWarmed(views) {
      var order := LatencyOrder(views, cursor);
      SortedInPlace(views, h, order);
      FastestIs(views, h, order[0]) by {
        assert order[0] in multiset(order);
        forall k | 0 <= k < |h| ensures Precedes(views, order[0], h[k]) {
          assert h[k] in multiset(order);
          var m :| 0 <= m < |order| && order[m] == h[k];
        }
      }
    }
  }

  /** When all are warmed the list runs by (latency, index). */
  lemma WarmedOrderIsByLatency(views: seq<ProviderView>, cursor: nat, a: nat, b: nat)
    requires AllWarmed(views) && a <= b < |LatencyOrder(views, cursor)|
    ensures var order := LatencyOrder(views, cursor);
            order[a] < |views| && order[b] < |views| && Precedes(views, order[a], order[b])
  {
    SortedInPlace(views, Healthy(views), LatencyOrder(views, cursor));
  }

  /** A stable sort of ascending indices by latency orders them by (latency, index). */
  lemma SortedInPlace(views: seq<ProviderView>, h: seq<nat>, order: seq<nat>)
    requires Listed(views, h) && order == SortBy(h, Latency(views))
    ensures multiset(order) == multiset(h)
    ensures forall k :: 0 <= k < |order| ==> order[k] < |views|
    ensures forall a, b :: 0 <= a <= b < |order| ==> Precedes(views, order[a], order[b])
  {
    var key := Latency(views);
    SortBySorts(h, key);
    SortByContents(h, key);
    forall k | 0 <= k < |order| ensures order[k] < |views| {
      assert order[k] in multiset(h);
    }
    forall a, b | 0 <= a <= b < |order| ensures Precedes(views, order[a], order[b]) {
      if a < b && key(order[a]) == key(order[b]) {
        SortByIsStable(h, key, key(order[a]));
        WithKeyAscending(h, key, key(order[a]));
        SameKeyInOrder(order, key, a, b);
      }
    }
  }

  ghost predicate Ascending(s: seq<nat>) {
    forall a, b :: 0 <= a < b < |s| ==> s[a] < s[b]
  }

  lemma {:induction false} WithKeyAscending(s: seq<nat>, key: nat -> int, k: int)
    requires Ascending(s)
    ensures Ascending(WithKey(s, key, k))
    ensures forall m :: 0 <= m < |WithKey(s, key, k)| ==> WithKey(s, key, k)[m] in s
    decreases |s|
  {
    if s != [] {
      WithKeyAscending(s[1..], key, k);
    }
  }

  /** Two positions with equal keys: their elements stand in that order among the elements with that key. */
  lemma {:induction false} SameKeyInOrder(s: seq<nat>, key: nat -> int, a: nat, b: nat)
    requires a < b < |s| && key(s[a]) == key(s[b]) && Ascending(WithKey(s, key, key(s[a])))
    ensures s[a] < s[b]
    decreases |s|
  {
    var k := key(s[a]);
    var rest := WithKey(s[1..], key, k);
    var all := WithKey(s, key, k);
    if a > 0 {
      assert rest == all[|all| - |rest|..];
      SameKeyInOrder(s[1..], key, a - 1, b - 1);
    } else {
      KeptByKey(s[1..], key, k, b - 1);
      var m :| 0 <= m < |rest| && rest[m] == s[b];
      assert all[0] == s[0] && all[1 + m] == s[b];
    }
  }

  lemma {:induction false} KeptByKey(s: seq<nat>, key: nat -> int, k: int, b: nat)
    requires b < |s| && key(s[b]) == k
    ensures s[b] in WithKey(s, key, k)
    decreases |s|
  {
    if b > 0 {
      KeptByKey(s[1..], key, k, b - 1);
    }
  }

  // ---- Fairness of the cold rotation ------------------------------------------

  predicate Leads(views: seq<ProviderView>, cursor: nat, i: nat) {
    LatencyOrder(views, cursor) != [] && LatencyOrder(views, cursor)[0] == i
  }

  /** How many of the calls with cursors `from`, ..., `from + n - 1` list provider `i` first. */
  function TimesFirst(views: seq<ProviderView>, from: nat, n: nat, i: nat): nat {
    if n == 0 then 0
    else TimesFirst(views, from, n - 1, i) + (if Leads(views, from + n - 1, i) then 1 else 0)
  }

  lemma ColdLeader(views: seq<ProviderView>, cursor: nat, p: nat)
    requires !AllWarmed(views) && p < |Healthy(views)|
    ensures Leads(views, cursor, Healthy(views)[p]) <==> cursor % |Healthy(views)| == p
  {
    var h := Healthy(views);
    assert h[cursor % |h|] == h[p] <==> cursor % |h| == p;
  }

  /** Of `n <= h` consecutive cold calls, the provider at place `p` leads the one whose cursor hits `p`, if any. */
  lemma {:induction false} OneRound(views: seq<ProviderView>, from: nat, n: nat, p: nat)
    requires !AllWarmed(views) && p < |Healthy(views)| && n <= |Healthy(views)|
    ensures var h := |Healthy(views)|;
            var wait := if p >= from % h then p - from % h else p + h - from % h;
            TimesFirst(views, from, n, Healthy(views)[p]) == if wait < n then 1 else 0
    decreases n
  {
    hide Leads;
    if n > 0 {
      OneRound(views, from, n - 1, p);
      CursorMod(from, n - 1, |Healthy(views)|);
      ColdLeader(views, from + n - 1, p);
    }
  }

  lemma CursorMod(from: nat, step: nat, h: nat)
    requires step < h
    ensures (from + step) % h == if from % h + step < h then from % h + step else from % h + step - h
  {
    var q, r := from / h, from % h;
    assert from == q * h + r;
    if r + step < h {
      ModIs(from + step, h, q, r + step);
    } else {
      assert (q + 1) * h == q * h + h;
      ModIs(from + step, h, q + 1, r + step - h);
    }
  }

  lemma ModIs(x: nat, h: nat, q: nat, r: nat)
    requires h > 0 && x == q * h + r && r < h
    ensures x % h == r
  {
    DivBounds(x, h);
    assert (q + 1) * h == q * h + h;
    Cancel(q, x / h + 1, h);
    Cancel(x / h, q + 1, h);
  }

  lemma {:induction false} TimesFirstAppend(views: seq<ProviderView>, from: nat, n: nat, m: nat, i: nat)
    ensures TimesFirst(views, from, n + m, i) == TimesFirst(views, from, n, i) + TimesFirst(views, from + n, m, i)
    decreases m
  {
    hide Leads;
    if m > 0 {
      TimesFirstAppend(views, from, n, m - 1, i);
      assert n + m - 1 == n + (m - 1) && from + (n + m) - 1 == from + n + m - 1;
    }
  }

  lemma Round(views: seq<ProviderView>, from: nat, p: nat)
    requires !AllWarmed(views) && p < |Healthy(views)|
    ensures TimesFirst(views, from, |Healthy(views)|, Healthy(views)[p]) == 1
  {
    OneRound(views, from, |Healthy(views)|, p);
  }

  /** Over k rounds of consecutive cold calls on the same views, each available provider leads exactly k times. */
  lemma {:induction false} RotationIsFair(views: seq<ProviderView>, from: nat, k: nat, p: nat)
    requires !AllWarmed(views) && p < |Healthy(views)|
    ensures TimesFirst(views, from, k * |Healthy(views)|, Healthy(views)[p]) == k
    decreases k
  {
    hide Healthy, TimesFirst, AllWarmed;
    var h := |Healthy(views)|;
    if k > 0 {
      RotationIsFair(views, from, k - 1, p);
      assert (k - 1) * h + h == k * h;
      TimesFirstAppend(views, from, (k - 1) * h, h, Healthy(views)[p]);
      Round(views, from + (k - 1) * h, p);
    } else {
      assert 0 * h == 0;
      NoCalls(views, from, Healthy(views)[p]);
    }
  }

  lemma NoCalls(views: seq<ProviderView>, from: nat, i: nat)
    ensures TimesFirst(views, from, 0, i) == 0
  {
  }

  // ---- Inverse-latency weights --------------------------------------------------

  function AtLeastOne(x: nat): nat {
    if x < 1 then 1 else x
  }

  function HealthyRtts(views: seq<ProviderView>): (r: seq<nat>)
    ensures |r| == |Healthy(views)| && forall k :: 0 <= k < |r| ==>
              r[k] == AtLeastOne(views[Healthy(views)[k]].emaRttUs)
  {
    var h := Healthy(views);
    seq(|h|, k requires 0 <= k < |h| => AtLeastOne(views[h[k]].emaRttUs))
  }

  predicate Slowest(rtts: seq<nat>, m: nat) {
    m < |rtts| && forall k :: 0 <= k < |rtts| ==> rtts[k] <= rtts[m]
  }

  ghost predicate AreWeights(weights: seq<nat>, rtts: seq<nat>) {
    && |weights| == |rtts|
    && (forall m: nat, k: nat :: Slowest(rtts, m) && k < |rtts| ==>
          weights[k] >= 1 && Divides(weights[k], rtts[k], rtts[m]))
    && (forall a: nat, b: nat :: a < |rtts| && b < |rtts| && rtts[a] <= rtts[b] ==> weights[a] >= weights[b])
  }

  predicate Divides(weight: nat, rtt: nat, slowest: nat) {
    weight * rtt <= slowest < (weight + 1) * rtt
  }

  /** Each weight is the slowest latency over one's own, rounded down: at least 1, and never smaller for a
      faster provider. */
  method ComputeInverseRttWeights(views: seq<ProviderView>) returns (weights: seq<nat>)
    ensures |weights| == |Healthy(views)|
    ensures AreWeights(weights, HealthyRtts(views))
  {
    hide AreWeights;
    var rtts := HealthyRtts(views);
    if rtts == [] {
      NoWeights();
      return [];
    }
    var maxRtt, at := rtts[0], 0;
    for k := 1 to |rtts|
      invariant 0 <= at < |rtts| && maxRtt == rtts[at]
      invariant forall j :: 0 <= j < k ==> rtts[j] <= maxRtt
    {
      if rtts[k] > maxRtt {
        maxRtt, at := rtts[k], k;
      }
    }
    weights := Quotients(maxRtt, rtts);
    QuotientsAreWeights(maxRtt, rtts, at);
  }

  lemma NoWeights()
    ensures AreWeights([], [])
  {
  }

  function Quotient(x: nat, r: nat): nat
    requires r >= 1
  {
    x / r
  }

  function Quotients(x: nat, rtts: seq<nat>): (w: seq<nat>)
    requires forall k :: 0 <= k < |rtts| ==> 1 <= rtts[k]
    ensures |w| == |rtts| && forall k :: 0 <= k < |w| ==> w[k] == Quotient(x, rtts[k])
  {
    seq(|rtts|, k requires 0 <= k < |rtts| => Quotient(x, rtts[k]))
  }

  lemma QuotientDivides(x: nat, r: nat)
    requires 1 <= r <= x
    ensures Quotient(x, r) >= 1 && Divides(Quotient(x, r), r, x)
  {
    DivBounds(x, r);
    Cancel(0, x / r, r);
  }

  lemma QuotientsAreWeights(x: nat, rtts: seq<nat>, at: nat)
    requires forall k :: 0 <= k < |rtts| ==> 1 <= rtts[k] <= x
    requires at < |rtts| && rtts[at] == x
    ensures AreWeights(Quotients(x, rtts), rtts)
  {
    hide Divides, Quotient;
    var w := Quotients(x, rtts);
    forall m: nat, k: nat | Slowest(rtts, m) && k < |rtts| ensures w[k] >= 1 && Divides(w[k], rtts[k], rtts[m]) {
      QuotientDivides(x, rtts[k]);
    }
    forall a: nat, b: nat | a < |rtts| && b < |rtts| && rtts[a] <= rtts[b] ensures w[a] >= w[b] {
      QuotientShrinks(x, rtts[a], rtts[b]);
    }
  }

  lemma QuotientShrinks(x: nat, a: nat, b: nat)
    requires 1 <= a <= b
    ensures Quotient(x, a) >= Quotient(x, b)
  {
    var p, q := x / a, x / b;
    DivBounds(x, a);
    DivBounds(x, b);
    assert q * a <= q * b by {
      MulMonotone(a, b, q);
      assert q * a == a * q && q * b == b * q;
    }
    Cancel(q, p + 1, a);
  }

  // ---- Orders and latencies in numbers ------------------------------------------------

  /** While some provider is cold, the list runs round the available ones in order, from the cursor's place on. */
  lemma ColdOrder(views: seq<ProviderView>, cursor: nat, k: nat)
    requires !AllWarmed(views) && k < |Healthy(views)|
    ensures var h := Healthy(views);
            var c := cursor % |h|;
            LatencyOrder(views, cursor)[k] == if c + k < |h| then h[c + k] else h[c + k - |h|]
  {
    hide LatencyOrder, Healthy;
    Rotated(views, cursor);
  }

  lemma Rotated(views: seq<ProviderView>, cursor: nat)
    requires !AllWarmed(views) && Healthy(views) != []
    ensures var h := Healthy(views);
            LatencyOrder(views, cursor) == h[cursor % |h|..] + h[..cursor % |h|]
  {
  }

  /** Warmed is at least five samples, for each available provider; the others do not matter. */
  lemma WarmedIs(views: seq<ProviderView>)
    ensures AllWarmed(views) <==> forall i :: 0 <= i < |views| && views[i].isHealthy ==> views[i].sampleCount > 4
  {
  }

  /** A latency of 0 counts as 1 among the weights. */
  lemma RttsAre(views: seq<ProviderView>, k: nat)
    requires k < |Healthy(views)|
    ensures var rtt := views[Healthy(views)[k]].emaRttUs;
            HealthyRtts(views)[k] == if rtt == 0 then 1 else rtt
  {
  }
}
