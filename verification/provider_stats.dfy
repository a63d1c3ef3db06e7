/** The integer moving average of round-trip times in core/src/rpc_provider.rs. */
module ProviderStats {
  import opened Numbers

  const MIN_SAMPLES_FOR_EMA: nat := 5

  /** One step of the average, over unbounded integers. */
  function EmaStep(window: nat, previous: nat, rtt: nat): nat
    requires window >= 1
  {
    MulMonotone(0, previous, window - 1);
    DivBounds(2 * rtt + previous * (window - 1), window + 1);
    (2 * rtt + previous * (window - 1)) / (window + 1)
  }

  /** The average after `samples`; the u64 sample counter restarts it when it wraps to 0. */
  function Ema(window: nat, samples: seq<nat>): nat
    requires window >= 1
  {
    var n := |samples|;
    if n == 0 then 0
    else if (n - 1) % U64 == 0 then samples[n - 1]
    else EmaStep(window, Ema(window, samples[..n - 1]), samples[n - 1])
  }

  class Stats {
    const window: nat
    var emaRttUs: nat
    var sampleCount: nat
    ghost var samples: seq<nat>

    constructor (window: nat)
      requires window < U64
      ensures Valid() && Tracks() && samples == [] && this.window == (if window == 0 then 1 else window)
    {
      this.window := if window == 0 then 1 else window;
      emaRttUs, sampleCount, samples := 0, 0, [];
    }

    ghost predicate Valid()
      reads this
    {
      1 <= window < U64 && emaRttUs < U64 && sampleCount < U64
    }

    /** The fields are those of the samples recorded so far. */
    ghost predicate Tracks()
      reads this
      requires Valid()
    {
      sampleCount == |samples| % U64 && emaRttUs == Ema(window, samples)
    }

    /**
     * In u64 and u128 arithmetic.  With the greatest window `window + 1` wraps to 0, and every sample but the first
     * panics; with any other nothing overflows, and the final cast loses nothing.
     */
    method Record(rttUs: nat) returns (ok: bool)
      requires Valid() && rttUs < U64
      modifies this
      ensures ok <==> window + 1 < U64 || old(sampleCount) == 0
      ensures Valid() && samples == old(samples) + [rttUs]
      ensures old(Tracks()) && ok ==> Tracks()
      ensures !ok ==> emaRttUs == old(emaRttUs) && sampleCount == (old(sampleCount) + 1) % U64
    {
      var count := sampleCount;
      ghost var before := samples;
      sampleCount := (sampleCount + 1) % U64;
      samples := samples + [rttUs];
      assert samples[..|samples| - 1] == before;
      CountWraps(|before|);
      if count == 0 {
        emaRttUs := rttUs;
      } else if (window + 1) % U64 == 0 {
        return false;
      } else {
        NoOverflow(window, emaRttUs, rttUs);
        emaRttUs := MachineStep(window, emaRttUs, rttUs);
      }
      return true;
    }
  }

  lemma CountWraps(n: nat)
    ensures (n % U64 + 1) % U64 == (n + 1) % U64
  {
  }

  /** The same step in u64 and u128 arithmetic, with the final cast to u64. */
  function MachineStep(window: nat, previous: nat, rtt: nat): nat
    requires 1 <= window && window + 1 < U64
  {
    MachineQuotient((window + 1) % U64, previous, rtt)
  }

  function MachineQuotient(alphaDen: nat, previous: nat, rtt: nat): nat
    requires alphaDen >= 2
  {
    (rtt * 2 % U128 + previous * (alphaDen - 2) % U128) % U128 / alphaDen % U64
  }

  lemma SmallMod(x: nat, m: nat)
    requires x < m
    ensures x % m == x
  {
  }

  lemma ProductFits(window: nat, previous: nat, rtt: nat)
    requires 1 <= window && window + 1 < U64 && previous < U64 && rtt < U64
    ensures rtt * 2 + previous * (window - 1) < U128
  {
    MulMonotone(previous, U64 - 1, window - 1);
    assert (U64 - 1) * (window - 1) <= (U64 - 1) * (U64 - 3);
  }

  /** Arithmetic that stays below its modulus is exact. */
  lemma NoWrap(x: nat, y: nat, d: nat, m: nat, cast: nat)
    requires x + y < m && d > 0 && (x + y) / d < cast
    ensures (x % m + y % m) % m / d % cast == (x + y) / d
  {
    SmallMod(x, m);
    SmallMod(y, m);
    SmallMod(x + y, m);
    SmallMod((x + y) / d, cast);
  }

  /** The u128 intermediates stay below 2^128 and the result below 2^64, so nothing wraps. */
  lemma NoOverflow(window: nat, previous: nat, rtt: nat)
    requires 1 <= window && window + 1 < U64 && previous < U64 && rtt < U64
    ensures EmaStep(window, previous, rtt) < U64
    ensures MachineStep(window, previous, rtt) == EmaStep(window, previous, rtt)
  {
    ProductFits(window, previous, rtt);
    StepWithin(window, previous, rtt, 0, U64 - 1);
    SmallMod(window + 1, U64);
    assert window + 1 - 2 == window - 1;
    QuotientIsExact(window, previous, rtt);
  }

  lemma QuotientIsExact(window: nat, previous: nat, rtt: nat)
    requires window >= 1 && rtt * 2 + previous * (window - 1) < U128 && EmaStep(window, previous, rtt) < U64
    ensures MachineQuotient(window + 1, previous, rtt) == EmaStep(window, previous, rtt)
  {
    NoWrap(rtt * 2, previous * (window - 1), window + 1, U128, U64);
  }

  // ---- Bounds and monotonicity ------------------------------------------------

  /** The step as a division with remainder. */
  lemma StepBounds(window: nat, previous: nat, rtt: nat)
    requires window >= 1
    ensures var e, d := EmaStep(window, previous, rtt), window + 1;
            e * d <= previous * d + 2 * (rtt - previous) < (e + 1) * d
  {
    var d := window + 1;
    var x := 2 * rtt + previous * (window - 1);
    assert previous * d == previous * (window - 1) + 2 * previous;
    DivBounds(x, d);
  }

  lemma StepWithin(window: nat, previous: nat, rtt: nat, lo: nat, hi: nat)
    requires window >= 1 && lo <= previous <= hi && lo <= rtt <= hi
    ensures lo <= EmaStep(window, previous, rtt) <= hi
  {
    var e, d := EmaStep(window, previous, rtt), window + 1;
    StepBounds(window, previous, rtt);
    MulMonotone(lo, previous, window - 1);
    MulMonotone(previous, hi, window - 1);
    assert previous * d == previous * (window - 1) + 2 * previous;
    assert lo * d == lo * (window - 1) + 2 * lo;
    assert (hi + 1) * d == hi * (window - 1) + 2 * hi + d;
    Cancel(lo, e + 1, d);
    Cancel(e, hi + 1, d);
  }

  /** The average always lies between the least and the greatest sample. */
  lemma {:induction false} EmaWithin(window: nat, samples: seq<nat>, lo: nat, hi: nat)
    requires window >= 1 && samples != []
    requires forall k :: 0 <= k < |samples| ==> lo <= samples[k] <= hi
    ensures lo <= Ema(window, samples) <= hi
    decreases |samples|
  {
    var n := |samples|;
    if (n - 1) % U64 != 0 {
      EmaWithin(window, samples[..n - 1], lo, hi);
      StepWithin(window, Ema(window, samples[..n - 1]), samples[n - 1], lo, hi);
    }
  }

  lemma DivMonotone(x: nat, y: nat, d: nat)
    requires d > 0 && x <= y
    ensures x / d <= y / d
  {
    DivBounds(x, d);
    DivBounds(y, d);
    Cancel(x / d, y / d + 1, d);
  }

  lemma StepMonotone(window: nat, p: nat, q: nat, x: nat, y: nat)
    requires window >= 1 && p <= q && x <= y
    ensures EmaStep(window, p, x) <= EmaStep(window, q, y)
  {
    MulMonotone(p, q, window - 1);
    DivMonotone(2 * x + p * (window - 1), 2 * y + q * (window - 1), window + 1);
  }

  /** Slower samples never make the average smaller. */
  lemma {:induction false} EmaMonotone(window: nat, a: seq<nat>, b: seq<nat>)
    requires window >= 1 && |a| == |b|
    requires forall k :: 0 <= k < |a| ==> a[k] <= b[k]
    ensures Ema(window, a) <= Ema(window, b)
    decreases |a|
  {
    hide EmaStep;
    var n := |a|;
    if n > 0 {
      var p, q := Ema(window, a[..n - 1]), Ema(window, b[..n - 1]);
      EmaMonotone(window, a[..n - 1], b[..n - 1]);
      StepMonotone(window, p, q, a[n - 1], b[n - 1]);
    }
  }

  // ---- Constant samples -------------------------------------------------------

  /** Floor division moves the average at least one down when it is above the sample ... */
  lemma StepFromAbove(window: nat, previous: nat, rtt: nat)
    requires window >= 1 && previous > rtt
    ensures rtt <= EmaStep(window, previous, rtt) < previous
  {
    StepWithin(window, previous, rtt, rtt, previous);
    StepBounds(window, previous, rtt);
    Cancel(EmaStep(window, previous, rtt), previous, window + 1);
  }

  /** ... but leaves it where it is when it is below by no more than half the window. */
  lemma StepFromBelow(window: nat, previous: nat, rtt: nat)
    requires window >= 1 && previous <= rtt
    ensures previous <= EmaStep(window, previous, rtt) <= rtt
    ensures EmaStep(window, previous, rtt) == previous <==> rtt - previous <= window / 2
  {
    StepWithin(window, previous, rtt, previous, rtt);
    StepBounds(window, previous, rtt);
    var e, d := EmaStep(window, previous, rtt), window + 1;
    assert (previous + 1) * d == previous * d + d;
    if 2 * (rtt - previous) < d {
      Cancel(e, previous + 1, d);
    } else {
      Cancel(previous + 1, e + 1, d);
    }
  }

  /** The average is stationary under a constant sample exactly at the sample, or below it by at most half the
      window. */
  lemma StationaryIff(window: nat, previous: nat, rtt: nat)
    requires window >= 1
    ensures EmaStep(window, previous, rtt) == previous <==> previous <= rtt <= previous + window / 2
  {
    if previous > rtt {
      StepFromAbove(window, previous, rtt);
    } else {
      StepFromBelow(window, previous, rtt);
    }
  }

  function Repeat(rtt: nat, k: nat): (s: seq<nat>)
    ensures |s| == k
  {
    if k == 0 then [] else Repeat(rtt, k - 1) + [rtt]
  }

  /** After enough constant samples: exact from above, within half a window from below, and then stationary. */
  lemma {:induction false} ConstantSamples(window: nat, samples: seq<nat>, rtt: nat, k: nat)
    requires window >= 1 && samples != [] && |samples| + k <= U64
    ensures var start := Ema(window, samples);
            var end := Ema(window, samples + Repeat(rtt, k));
            && (start >= rtt ==> rtt <= end && (end == rtt || end + k <= start))
            && (start <= rtt ==> start <= end <= rtt && (rtt <= end + window / 2 || start + k <= end))
    decreases k
  {
    hide EmaStep;
    var start := Ema(window, samples);
    if k == 0 {
      assert samples + Repeat(rtt, 0) == samples;
    } else {
      ConstantSamples(window, samples, rtt, k - 1);
      var before := samples + Repeat(rtt, k - 1);
      var after := samples + Repeat(rtt, k);
      assert after[..|after| - 1] == before && after[|after| - 1] == rtt;
      var p := Ema(window, before);
      assert Ema(window, after) == EmaStep(window, p, rtt);
      if p > rtt {
        StepFromAbove(window, p, rtt);
      } else {
        StepFromBelow(window, p, rtt);
      }
    }
  }

  lemma Settles(window: nat, samples: seq<nat>, rtt: nat, k: nat)
    requires window >= 1 && samples != [] && |samples| + k <= U64
    requires k >= Ema(window, samples) - rtt && k >= rtt - Ema(window, samples)
    ensures var end := Ema(window, samples + Repeat(rtt, k));
            && (Ema(window, samples) >= rtt ==> end == rtt)
            && end <= rtt <= end + window / 2
            && EmaStep(window, end, rtt) == end
  {
    ConstantSamples(window, samples, rtt, k);
    StationaryIff(window, Ema(window, samples + Repeat(rtt, k)), rtt);
  }

  // ---- The average in numbers -----------------------------------------------------

  /** The first sample is the average; each further one moves it by 2 / (window + 1) of the difference, rounded down. */
  lemma EmaNext(window: nat, samples: seq<nat>, r: nat)
    requires window >= 1 && |samples| < U64
    ensures Ema(window, []) == 0 && Ema(window, [r]) == r
    ensures samples != [] ==>
              var before, after := Ema(window, samples), Ema(window, samples + [r]);
              after * (window + 1) <= 2 * r + before * (window - 1) < (after + 1) * (window + 1)
  {
    hide EmaStep;
    if samples != [] {
      assert (samples + [r])[..|samples|] == samples;
      StepInNumbers(window, Ema(window, samples), r);
    }
  }

  lemma StepInNumbers(window: nat, previous: nat, rtt: nat)
    requires window >= 1
    ensures var next := EmaStep(window, previous, rtt);
            next * (window + 1) <= 2 * rtt + previous * (window - 1) < (next + 1) * (window + 1)
  {
    MulMonotone(0, previous, window - 1);
    DivBounds(2 * rtt + previous * (window - 1), window + 1);
  }
}
