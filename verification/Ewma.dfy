/**
 * The latency average (strategy/fastest_server.rs:14-41), in milliseconds over the reals: what the
 * running average is of the samples recorded, sequentially and under lost updates.
 */
module Ewma {
  function Blend(average: real, sample: real, alpha: real): real {
    if average == 0.0 then sample else alpha * sample + (1.0 - alpha) * average
  }

  ghost predicate Within(v: real, low: real, high: real) { v == 0.0 || low <= v <= high }

  lemma ProductNonNegative(a: real, b: real)
    requires a >= 0.0 && b >= 0.0
    ensures a * b >= 0.0
  {
  }

  lemma ProductPositive(a: real, b: real)
    requires a > 0.0 && b > 0.0
    ensures a * b > 0.0
  {
  }

  lemma Between(x: real, y: real, alpha: real, low: real)
    requires 0.0 <= alpha <= 1.0 && low <= x && low <= y
    ensures low <= alpha * x + (1.0 - alpha) * y
  {
    ProductNonNegative(alpha, x - low);
    ProductNonNegative(1.0 - alpha, y - low);
    assert alpha * x + (1.0 - alpha) * y == low + (alpha * (x - low) + (1.0 - alpha) * (y - low));
  }

  lemma ConvexBlend(average: real, x: real, alpha: real, low: real, high: real)
    requires 0.0 <= alpha <= 1.0 && Within(average, low, high) && low <= x <= high
    ensures low <= Blend(average, x, alpha) <= high
  {
    if average != 0.0 {
      Between(x, average, alpha, low);
      Between(high - x, high - average, alpha, 0.0);
      assert alpha * (high - x) + (1.0 - alpha) * (high - average) == high - Blend(average, x, alpha);
    }
  }

  lemma BlendDistance(average: real, x: real, alpha: real)
    ensures average != 0.0 ==> Blend(average, x, alpha) - x == (1.0 - alpha) * (average - x)
  {
    assert alpha * x + (1.0 - alpha) * average - x == (1.0 - alpha) * (average - x);
  }

  class LatencyEWMA {
    var average: real

    constructor (initial: real)
      ensures average == initial
    {
      average := initial;
    }

    /** An average of zero counts as "no sample yet". */
    method RecordLatency(seconds: real, alpha: real)
      modifies this
      ensures average == Blend(old(average), seconds * 1000.0, alpha)
      ensures old(average) == 0.0 ==> average == seconds * 1000.0
      ensures old(average) != 0.0 ==> average - seconds * 1000.0 == (1.0 - alpha) * (old(average) - seconds * 1000.0)
      ensures forall low, high | 0.0 <= alpha <= 1.0 && Within(old(average), low, high) && low <= seconds * 1000.0 <= high ::
                low <= average <= high
    {
      var oldAverage := average;
      var latency := seconds * 1000.0;
      var ewma: real;
      if oldAverage == 0.0 {
        ewma := latency;
      } else {
        ewma := alpha * latency + (1.0 - alpha) * oldAverage;
      }
      average := ewma;
      assert ewma == Blend(oldAverage, latency, alpha);
      BlendDistance(oldAverage, latency, alpha);
      forall low, high | 0.0 <= alpha <= 1.0 && Within(oldAverage, low, high) && low <= latency <= high
        ensures low <= ewma <= high
      {
        ConvexBlend(oldAverage, latency, alpha, low, high);
      }
    }
  }

  /** The average after the first `n` samples, starting from `average`. */
  function Replay(average: real, samples: seq<real>, n: nat, alpha: real): real
    requires n <= |samples|
  {
    if n == 0 then average else Blend(Replay(average, samples, n - 1, alpha), samples[n - 1], alpha)
  }

  function Pow(b: real, n: nat): real {
    if n == 0 then 1.0 else b * Pow(b, n - 1)
  }

  // ---------------------------------------------------------------------------------------------
  // Bounds, under every interleaving of loads and stores.

  /** The average, and what each recorder in progress has loaded. */
  datatype State = State(average: real, loaded: map<nat, real>)

  datatype Step = Load(recorder: nat) | Store(recorder: nat, sample: real)

  ghost predicate Next(s: State, a: Step, s': State, alpha: real) {
    match a
    case Load(r) => s' == s.(loaded := s.loaded[r := s.average])
    case Store(r, x) =>
      r in s.loaded && s' == State(Blend(s.loaded[r], x, alpha), s.loaded - {r})
  }

  ghost predicate Run(states: seq<State>, steps: seq<Step>, alpha: real) {
    && |states| == |steps| + 1 && states[0] == State(0.0, map[])
    && forall i | 0 <= i < |steps| :: Next(states[i], steps[i], states[i + 1], alpha)
  }

  /** Every sample stored in the first `n` steps lies between `low` and `high`. */
  ghost predicate StoredWithin(steps: seq<Step>, n: nat, low: real, high: real)
    requires n <= |steps|
  {
    forall i | 0 <= i < n && steps[i].Store? :: low <= steps[i].sample <= high
  }

  /**
   * However recorders interleave, and whatever updates are lost, once a sample has been stored the
   * average lies between the least and the greatest sample stored so far.
   */
  lemma {:induction false} AverageWithinSamples(
      states: seq<State>, steps: seq<Step>, n: nat, alpha: real, low: real, high: real)
    requires Run(states, steps, alpha) && n <= |steps| && 0.0 <= alpha <= 1.0 && StoredWithin(steps, n, low, high)
    ensures Within(states[n].average, low, high)
    ensures forall r | r in states[n].loaded :: Within(states[n].loaded[r], low, high)
    ensures (exists i | 0 <= i < n :: steps[i].Store?) ==> low <= states[n].average <= high
  {
    if n > 0 {
      AverageWithinSamples(states, steps, n - 1, alpha, low, high);
      var s, a := states[n - 1], steps[n - 1];
      assert Next(s, a, states[n], alpha);
      if a.Store? { ConvexBlend(s.loaded[a.recorder], a.sample, alpha, low, high); }
    }
  }

  // ---------------------------------------------------------------------------------------------
  // The closed form of a sequential recording.

  /** The weight of sample `i` in an average of the samples `first` to `n - 1`. */
  function Weight(first: nat, i: nat, n: nat, alpha: real): real
    requires first <= i < n
  {
    (if i == first then 1.0 else alpha) * Pow(1.0 - alpha, n - 1 - i)
  }

  function Term(samples: seq<real>, first: nat, i: nat, n: nat, alpha: real): real
    requires first <= i < n <= |samples|
  {
    Weight(first, i, n, alpha) * samples[i]
  }

  /** The weighted samples `first` to `n - 1`. */
  function Terms(samples: seq<real>, first: nat, n: nat, alpha: real): seq<real>
    requires first <= n <= |samples|
  {
    seq(n - first, j requires 0 <= j < n - first => Term(samples, first, first + j, n, alpha))
  }

  function Sum(terms: seq<real>): real {
    if terms == [] then 0.0 else Sum(terms[..|terms| - 1]) + terms[|terms| - 1]
  }

  lemma {:induction false} SumScales(a: seq<real>, b: seq<real>, k: real)
    requires |a| == |b| && forall i | 0 <= i < |a| :: b[i] == k * a[i]
    ensures Sum(b) == k * Sum(a)
    decreases |a|
  {
    if a != [] { SumScales(a[..|a| - 1], b[..|b| - 1], k); }
  }

  lemma Rearrange(b: real, c: real, p: real, x: real)
    ensures (c * (b * p)) * x == b * ((c * p) * x)
  {
  }

  lemma TermShrinks(samples: seq<real>, first: nat, i: nat, n: nat, alpha: real)
    requires first <= i < n < |samples|
    ensures Term(samples, first, i, n + 1, alpha) == (1.0 - alpha) * Term(samples, first, i, n, alpha)
  {
    var b, c, p := 1.0 - alpha, if i == first then 1.0 else alpha, Pow(1.0 - alpha, n - 1 - i);
    assert Pow(b, n - i) == b * p;
    Rearrange(b, c, p, samples[i]);
  }

  lemma TermsShrink(samples: seq<real>, first: nat, n: nat, alpha: real)
    requires first < n < |samples|
    ensures var before, after := Terms(samples, first, n, alpha), Terms(samples, first, n + 1, alpha);
            forall j | 0 <= j < |before| :: after[j] == (1.0 - alpha) * before[j]
  {
    var before, after := Terms(samples, first, n, alpha), Terms(samples, first, n + 1, alpha);
    forall j | 0 <= j < |before| ensures after[j] == (1.0 - alpha) * before[j] {
      TermShrinks(samples, first, first + j, n, alpha);
    }
  }

  lemma SumAppend(terms: seq<real>, x: real)
    ensures Sum(terms + [x]) == Sum(terms) + x
  {
    assert (terms + [x])[..|terms|] == terms;
  }

  lemma LastTerm(samples: seq<real>, first: nat, i: nat, alpha: real)
    requires first <= i < |samples|
    ensures Term(samples, first, i, i + 1, alpha) == if i == first then samples[i] else alpha * samples[i]
  {
    assert Pow(1.0 - alpha, i + 1 - 1 - i) == 1.0;
  }

  /** One more sample shrinks every earlier term and adds its own. */
  lemma OneMoreSample(samples: seq<real>, first: nat, n: nat, alpha: real)
    requires first < n < |samples|
    ensures Sum(Terms(samples, first, n + 1, alpha)) == (1.0 - alpha) * Sum(Terms(samples, first, n, alpha)) + alpha * samples[n]
  {
    var before, after := Terms(samples, first, n, alpha), Terms(samples, first, n + 1, alpha);
    var front := after[..|before|];
    TermsShrink(samples, first, n, alpha);
    assert |front| == |before| && forall j | 0 <= j < |before| :: front[j] == after[j];
    SumScales(before, front, 1.0 - alpha);
    assert after == front + [after[|before|]];
    SumAppend(front, after[|before|]);
    LastTerm(samples, first, n, alpha);
  }

  lemma FirstSample(samples: seq<real>, first: nat, alpha: real)
    requires first < |samples|
    ensures Sum(Terms(samples, first, first + 1, alpha)) == samples[first]
  {
    var terms := Terms(samples, first, first + 1, alpha);
    LastTerm(samples, first, first, alpha);
    assert terms == [samples[first]];
    assert Sum(terms[..0]) == 0.0;
  }

  /** The weights of an average add up to one. */
  lemma {:induction false} WeightsSumToOne(ones: seq<real>, first: nat, n: nat, alpha: real)
    requires first < n <= |ones| && forall i | 0 <= i < |ones| :: ones[i] == 1.0
    ensures Sum(Terms(ones, first, n, alpha)) == 1.0
    decreases n
  {
    if n == first + 1 {
      FirstSample(ones, first, alpha);
    } else {
      WeightsSumToOne(ones, first, n - 1, alpha);
      OneMoreSample(ones, first, n - 1, alpha);
    }
  }

  lemma BlendPositive(average: real, x: real, alpha: real)
    requires average > 0.0 && x >= 0.0 && 0.0 <= alpha < 1.0
    ensures Blend(average, x, alpha) == (1.0 - alpha) * average + alpha * x > 0.0
  {
    ProductPositive(1.0 - alpha, average);
    ProductNonNegative(alpha, x);
  }

  lemma {:induction false} LeadingZeros(samples: seq<real>, n: nat, alpha: real)
    requires n <= |samples| && forall i | 0 <= i < n :: samples[i] == 0.0
    ensures Replay(0.0, samples, n, alpha) == 0.0
  {
    if n > 0 { LeadingZeros(samples, n - 1, alpha); }
  }

  /**
   * For every non-negative sequence of samples and alpha below one, the average is the weighted sum
   * from the first positive sample on; samples of zero before that one leave no trace.
   */
  lemma {:induction false} AverageIsWeightedSum(samples: seq<real>, first: nat, n: nat, alpha: real)
    requires first < n <= |samples| && 0.0 <= alpha < 1.0
    requires forall i | 0 <= i < first :: samples[i] == 0.0
    requires samples[first] > 0.0 && forall i | 0 <= i < |samples| :: samples[i] >= 0.0
    ensures Replay(0.0, samples, n, alpha) == Sum(Terms(samples, first, n, alpha)) > 0.0
    decreases n
  {
    if n == first + 1 {
      LeadingZeros(samples, first, alpha);
      FirstSample(samples, first, alpha);
    } else {
      AverageIsWeightedSum(samples, first, n - 1, alpha);
      OneMoreSample(samples, first, n - 1, alpha);
      BlendPositive(Replay(0.0, samples, n - 1, alpha), samples[n - 1], alpha);
    }
  }

  lemma {:induction false} PowWithin(b: real, n: nat)
    requires 0.0 <= b <= 1.0
    ensures 0.0 <= Pow(b, n) <= 1.0
  {
    if n > 0 {
      PowWithin(b, n - 1);
      ProductNonNegative(b, Pow(b, n - 1));
      ProductNonNegative(b, 1.0 - Pow(b, n - 1));
      assert b * (1.0 - Pow(b, n - 1)) == b - b * Pow(b, n - 1);
    }
  }

  /** A positive average reaches zero only by forgetting everything but samples of zero. */
  lemma OnlyZeroReachesZero(average: real, x: real, p: real)
    requires average > 0.0 && x >= 0.0 && 0.0 <= p <= 1.0 && 0.0 - x == p * (average - x)
    ensures p == 0.0 && x == 0.0
  {
    ProductNonNegative(1.0 - p, x);
    assert p * average + (1.0 - p) * x == 0.0 by {
      assert p * (average - x) == p * average - p * x;
      assert (1.0 - p) * x == x - p * x;
    }
    if p > 0.0 { ProductPositive(p, average); }
    assert p == 0.0;
  }

  lemma Associate(a: real, p: real, d: real)
    ensures (a * p) * d == a * (p * d)
  {
  }

  lemma Shrink(before: real, average: real, x: real, alpha: real, p: real, p': real)
    requires p' == (1.0 - alpha) * p && before - x == p * (average - x) && before >= 0.0 && average > 0.0
    requires x >= 0.0 && 0.0 <= alpha <= 1.0 && 0.0 <= p <= 1.0
    ensures Blend(before, x, alpha) - x == p' * (average - x)
    ensures Blend(before, x, alpha) >= 0.0
  {
    if before == 0.0 {
      OnlyZeroReachesZero(average, x, p);
      assert p' == 0.0;
    } else {
      BlendDistance(before, x, alpha);
      Associate(1.0 - alpha, p, average - x);
      Between(x, before, alpha, 0.0);
    }
  }

  /** Each repetition of a sample shrinks the distance to it by exactly the factor 1 - alpha. */
  lemma {:induction false} RepeatsConverge(average: real, samples: seq<real>, x: real, k: nat, alpha: real)
    requires k <= |samples| && (forall i | 0 <= i < |samples| :: samples[i] == x)
    requires average > 0.0 && x >= 0.0 && 0.0 <= alpha <= 1.0
    ensures Replay(average, samples, k, alpha) - x == Pow(1.0 - alpha, k) * (average - x)
    ensures Replay(average, samples, k, alpha) >= 0.0
  {
    if k > 0 {
      RepeatsConverge(average, samples, x, k - 1, alpha);
      PowWithin(1.0 - alpha, k - 1);
      Shrink(Replay(average, samples, k - 1, alpha), average, x, alpha, Pow(1.0 - alpha, k - 1), Pow(1.0 - alpha, k));
    }
  }
}
