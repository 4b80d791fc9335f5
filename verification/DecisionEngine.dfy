/**
 * The decision engine (adaptive_loadbalancer/decision_engine.rs): the divergence loops against the
 * extremal ratios they stand for, and the hysteresis of `evaluate_strategy` over whole runs.
 * Floats are reals; the loops start from the same extreme values as the program.
 */
module DecisionEngine {
  import opened Core
  import opened Strategies
  import Selection

  const F32_MAX: real := 340282346638528859811704183484516925440.0

  type F32 = x: real | -F32_MAX <= x <= F32_MAX witness 0.0

  /** What a backend's metrics report: None when a metric is not tracked. */
  datatype Metrics = Metrics(latency: Option<F32>, connections: Option<Selection.U64>) {
    function Latency(): F32 { if latency.Some? then latency.value else 0.0 }
  }

  /** Backends without a latency sample yet report zero. */
  predicate Usable(m: Metrics) { m.latency.Some? && m.latency.value > 0.0 }

  /** How many of the first `n` backends have a usable latency. */
  ghost function Measured(backends: seq<Metrics>, n: nat): nat
    requires n <= |backends|
  {
    if n == 0 then 0 else Measured(backends, n - 1) + if Usable(backends[n - 1]) then 1 else 0
  }

  /** How many of the first `n` backends report a connection count. */
  ghost function Tracked(backends: seq<Metrics>, n: nat): nat
    requires n <= |backends|
  {
    if n == 0 then 0 else Tracked(backends, n - 1) + if backends[n - 1].connections.Some? then 1 else 0
  }

  function Quotient(m: Metrics, m': Metrics): real
    requires Usable(m) && Usable(m')
  {
    m.latency.value / m'.latency.value
  }

  /** `q` is the greatest quotient of two usable latencies. */
  ghost predicate GreatestQuotient(backends: seq<Metrics>, q: real) {
    && (exists m, m' | m in backends && m' in backends && Usable(m) && Usable(m') :: q == Quotient(m, m'))
    && (forall m, m' | m in backends && m' in backends && Usable(m) && Usable(m') :: Quotient(m, m') <= q)
  }

  /** A latency signal exists from two measured backends on: the greatest quotient of their latencies. */
  ghost predicate LatencySignal(backends: seq<Metrics>, r: Option<real>) {
    && (r.Some? <==> Measured(backends, |backends|) >= 2)
    && (r.Some? ==> GreatestQuotient(backends, r.value))
  }

  /** `m` reports the least (greatest) connection count. */
  ghost predicate Idlest(backends: seq<Metrics>, m: Metrics) {
    && m in backends && m.connections.Some?
    && (forall x | x in backends && x.connections.Some? :: m.connections.value <= x.connections.value)
  }

  ghost predicate Busiest(backends: seq<Metrics>, m: Metrics) {
    && m in backends && m.connections.Some?
    && (forall x | x in backends && x.connections.Some? :: x.connections.value <= m.connections.value)
  }

  /** `max` per `min`, or per one when `min` is zero. */
  function Ratio(max: nat, min: nat): (r: real)
    ensures r * (if min == 0 then 1 else min) as real == max as real
  {
    max as real / (if min == 0 then 1 else min) as real
  }

  /** A connection signal exists from two reporting backends on: the greatest count, and its ratio to the least, or to one. */
  ghost predicate ConnectionSignal(backends: seq<Metrics>, r: Option<(real, nat)>) {
    && (r.Some? <==> Tracked(backends, |backends|) >= 2)
    && (r.Some? ==> exists idle, busy | Idlest(backends, idle) && Busiest(backends, busy) ::
          r.value == (Ratio(busy.connections.value, idle.connections.value), busy.connections.value))
  }

  lemma QuotientMonotone(x: real, y: real, max: real, min: real)
    requires 0.0 < min <= y && 0.0 < x <= max
    ensures x / y <= max / min
  {
    assert x * min <= max * y;
    assert (x / y) * (y * min) == x * min && (max / min) * (y * min) == max * y;
  }

  lemma ExtremesGiveGreatestQuotient(backends: seq<Metrics>, slow: nat, fast: nat)
    requires slow < |backends| && fast < |backends| && Usable(backends[slow]) && Usable(backends[fast])
    requires forall k | 0 <= k < |backends| && Usable(backends[k]) ::
               backends[fast].Latency() <= backends[k].Latency() <= backends[slow].Latency()
    ensures GreatestQuotient(backends, Quotient(backends[slow], backends[fast]))
  {
    forall m, m' | m in backends && m' in backends && Usable(m) && Usable(m')
      ensures Quotient(m, m') <= Quotient(backends[slow], backends[fast])
    {
      QuotientMonotone(m.Latency(), m'.Latency(), backends[slow].Latency(), backends[fast].Latency());
    }
  }

  method LatencyDivergence(backends: seq<Metrics>) returns (r: Option<real>)
    ensures LatencySignal(backends, r)
  {
    var min, max: F32, measured := F32_MAX, -F32_MAX, 0;
    ghost var slow, fast := 0, 0;
    for i := 0 to |backends|
      invariant measured == Measured(backends, i)
      invariant forall k | 0 <= k < i && Usable(backends[k]) :: min <= backends[k].Latency() <= max
      invariant if measured == 0 then min == F32_MAX && max == -F32_MAX
                else slow < i && fast < i && 0.0 < min == backends[fast].Latency() && 0.0 < max == backends[slow].Latency()
    {
      var latency := backends[i].Latency();
      if latency > 0.0 {
        measured := measured + 1;
        if latency <= min { fast := i; }
        if latency >= max { slow := i; }
        min := if latency < min then latency else min;
        max := if latency > max then latency else max;
      }
    }
    if measured < 2 || min <= 0.0 { return None; }
    ExtremesGiveGreatestQuotient(backends, slow, fast);
    r := Some(max / min);
  }

  lemma ExtremesGiveConnectionSignal(backends: seq<Metrics>, busy: nat, idle: nat)
    requires Tracked(backends, |backends|) >= 2 && busy < |backends| && idle < |backends|
    requires backends[busy].connections.Some? && backends[idle].connections.Some?
    requires forall k | 0 <= k < |backends| && backends[k].connections.Some? ::
               backends[idle].connections.value <= backends[k].connections.value <= backends[busy].connections.value
    ensures var max, min := backends[busy].connections.value, backends[idle].connections.value;
            && Ratio(max, min) == (if min == 0 then max as real else max as real / min as real)
            && ConnectionSignal(backends, Some((Ratio(max, min), max)))
  {
    assert Idlest(backends, backends[idle]) && Busiest(backends, backends[busy]);
  }

  method ConnectionDivergence(backends: seq<Metrics>) returns (r: Option<(real, nat)>)
    ensures ConnectionSignal(backends, r)
  {
    var min: Selection.U64, max: Selection.U64, tracked := Selection.WORD - 1, 0, 0;
    ghost var idle, busy := 0, 0;
    for i := 0 to |backends|
      invariant tracked == Tracked(backends, i)
      invariant forall k | 0 <= k < i && backends[k].connections.Some? :: min <= backends[k].connections.value <= max
      invariant if tracked == 0 then min == Selection.WORD - 1 && max == 0
                else && idle < i && busy < i
                     && backends[idle].connections == Some(min) && backends[busy].connections == Some(max)
    {
      if backends[i].connections.Some? {
        var connections := backends[i].connections.value;
        tracked := tracked + 1;
        if connections <= min { idle := i; }
        if connections >= max { busy := i; }
        min := if connections < min then connections else min;
        max := if connections > max then connections else max;
      }
    }
    if tracked < 2 { return None; }
    ExtremesGiveConnectionSignal(backends, busy, idle);
    var ratio := if min == 0 then max as real else max as real / min as real;
    r := Some((ratio, max));
  }

  datatype Signals = Signals(latency: Option<real>, connections: Option<(real, nat)>)

  ghost predicate IsSignals(backends: seq<Metrics>, s: Signals) {
    LatencySignal(backends, s.latency) && ConnectionSignal(backends, s.connections)
  }

  /** No more signals than backends: the early return for fewer than two changes nothing. */
  lemma {:induction false} FewSignals(backends: seq<Metrics>, n: nat)
    requires n <= |backends|
    ensures Measured(backends, n) <= n && Tracked(backends, n) <= n
  {
    if n > 0 { FewSignals(backends, n - 1); }
  }

  lemma QuotientUnique(backends: seq<Metrics>, q: real, r: real)
    requires GreatestQuotient(backends, q) && GreatestQuotient(backends, r)
    ensures q == r
  {
  }

  lemma ConnectionsUnique(backends: seq<Metrics>, q: (real, nat), r: (real, nat))
    requires ConnectionSignal(backends, Some(q)) && ConnectionSignal(backends, Some(r))
    ensures q == r
  {
    var idle, busy :| Idlest(backends, idle) && Busiest(backends, busy)
      && q == (Ratio(busy.connections.value, idle.connections.value), busy.connections.value);
    var idle', busy' :| Idlest(backends, idle') && Busiest(backends, busy')
      && r == (Ratio(busy'.connections.value, idle'.connections.value), busy'.connections.value);
    assert idle.connections.value == idle'.connections.value && busy.connections.value == busy'.connections.value;
  }

  lemma SignalsUnique(backends: seq<Metrics>, s: Signals)
    requires IsSignals(backends, s)
    ensures forall s' | IsSignals(backends, s') :: s' == s
  {
    forall s' | IsSignals(backends, s') ensures s' == s {
      if s.latency.Some? { QuotientUnique(backends, s.latency.value, s'.latency.value); }
      if s.connections.Some? { ConnectionsUnique(backends, s.connections.value, s'.connections.value); }
    }
  }

  datatype Engine = Engine(connectionRatio: real, latencyRatio: real, minConnections: nat, exit: real) {

    function LatencyExit(): real { latencyRatio * exit }

    function ConnectionExit(): real { connectionRatio * exit }

    /** The connection signal demands `FewestConnections`, seen from `current`. */
    predicate Overloaded(current: Strategy, s: Signals) {
      && s.connections.Some? && s.connections.value.1 >= minConnections
      && s.connections.value.0 > if current.FewestConnections? then ConnectionExit() else connectionRatio
    }

    predicate Diverged(current: Strategy, s: Signals) {
      s.latency.Some? && s.latency.value > if current.FastestServer? then LatencyExit() else latencyRatio
    }

    function Decide(current: Strategy, s: Signals): Strategy {
      if Overloaded(current, s) then FewestConnections
      else if Diverged(current, s) then FastestServer
      else RoundRobin
    }

    /**
     * `FewestConnections` exactly on a fleet busy enough with a ratio above the threshold, which is
     * the enter threshold times the exit factor while that strategy is active; else `FastestServer`
     * exactly on a latency ratio above its threshold, likewise; `RoundRobin` otherwise.
     */
    lemma DecideIff(current: Strategy, s: Signals)
      ensures var d := Decide(current, s);
              && (d == FewestConnections <==>
                    && s.connections.Some? && s.connections.value.1 >= minConnections
                    && s.connections.value.0 > if current == FewestConnections then connectionRatio * exit else connectionRatio)
              && (d == FastestServer <==>
                    && d != FewestConnections && s.latency.Some?
                    && s.latency.value > if current == FastestServer then latencyRatio * exit else latencyRatio)
              && (d == Strategy.RoundRobin <==> d != FewestConnections && d != FastestServer)
    {
    }

    /** The decision is the one the signals of the fleet call for, whichever way they are told apart. */
    method EvaluateStrategy(current: Strategy, backends: seq<Metrics>) returns (strategy: Strategy)
      ensures exists s :: IsSignals(backends, s) && strategy == Decide(current, s)
      ensures forall s | IsSignals(backends, s) :: strategy == Decide(current, s)
    {
      var latency: Option<real>, connections: Option<(real, nat)> := None, None;
      if |backends| < 2 {
        FewSignals(backends, |backends|);
        ghost var none := Signals(None, None);
        SignalsUnique(backends, none);
        assert IsSignals(backends, none) && Decide(current, none) == RoundRobin;
        return RoundRobin;
      }
      connections := ConnectionDivergence(backends);
      latency := LatencyDivergence(backends);
      ghost var signals := Signals(latency, connections);
      SignalsUnique(backends, signals);
      assert IsSignals(backends, signals);
      if connections.Some? {
        var (ratio, max) := connections.value;
        if max >= minConnections {
          var threshold := if current == FewestConnections then ConnectionExit() else connectionRatio;
          if ratio > threshold { return FewestConnections; }
        }
      }
      if latency.Some? {
        var threshold := if current == FastestServer then LatencyExit() else latencyRatio;
        if latency.value > threshold { return FastestServer; }
      }
      strategy := RoundRobin;
    }
  }

  // ---------------------------------------------------------------------------------------------
  // What the signals do not depend on.

  lemma {:induction false} SamePrefix(a: seq<Metrics>, b: seq<Metrics>, n: nat)
    requires n <= |a| && n <= |b| && forall k | 0 <= k < n :: a[k] == b[k]
    ensures Measured(a, n) == Measured(b, n) && Tracked(a, n) == Tracked(b, n)
  {
    if n > 0 { SamePrefix(a, b, n - 1); }
  }

  /** Taking one backend out takes out its contribution and nothing else. */
  lemma {:induction false} Without(b: seq<Metrics>, c: seq<Metrics>, i: nat, n: nat)
    requires i < n <= |b| && c == b[..i] + b[i + 1..]
    ensures Measured(b, n) == Measured(c, n - 1) + if Usable(b[i]) then 1 else 0
    ensures Tracked(b, n) == Tracked(c, n - 1) + if b[i].connections.Some? then 1 else 0
  {
    if i == n - 1 {
      SamePrefix(b, c, n - 1);
    } else {
      Without(b, c, i, n - 1);
      assert c[n - 2] == b[n - 1];
    }
  }

  lemma RemoveLast<T>(a: seq<T>, b: seq<T>, i: nat)
    requires multiset(a) == multiset(b) && |a| > 0 && i < |b| && b[i] == a[|a| - 1]
    ensures multiset(a[..|a| - 1]) == multiset(b[..i] + b[i + 1..])
  {
    assert a == a[..|a| - 1] + [a[|a| - 1]];
    assert b == b[..i] + [b[i]] + b[i + 1..];
    var c := b[..i] + b[i + 1..];
    assert multiset(a) == multiset(a[..|a| - 1]) + multiset{b[i]};
    assert multiset(b) == multiset(c) + multiset{b[i]};
    assert multiset(c) == multiset(b) - multiset{b[i]};
  }

  lemma {:induction false} CountsOfPermutation(a: seq<Metrics>, b: seq<Metrics>)
    requires multiset(a) == multiset(b)
    ensures Measured(a, |a|) == Measured(b, |b|) && Tracked(a, |a|) == Tracked(b, |b|)
    decreases |a|
  {
    if a == [] {
      assert |multiset(b)| == 0;
    } else {
      var front, x := a[..|a| - 1], a[|a| - 1];
      assert x in multiset(b);
      var i :| 0 <= i < |b| && b[i] == x;
      var c := b[..i] + b[i + 1..];
      RemoveLast(a, b, i);
      CountsOfPermutation(front, c);
      Without(b, c, i, |b|);
      SamePrefix(a, front, |a| - 1);
    }
  }

  /** The order of the backends does not matter. */
  lemma OrderIrrelevant(a: seq<Metrics>, b: seq<Metrics>, s: Signals)
    requires multiset(a) == multiset(b) && IsSignals(a, s)
    ensures IsSignals(b, s)
  {
    CountsOfPermutation(a, b);
    assert forall m :: m in a <==> m in multiset(a);
    assert forall m :: m in b <==> m in multiset(b);
    assert forall m :: m in a <==> m in b;
  }

  /** A backend with no usable latency does not affect the latency signal. */
  lemma UnmeasuredIgnored(b: seq<Metrics>, c: seq<Metrics>, i: nat, r: Option<real>)
    requires i < |b| && !Usable(b[i]) && c == b[..i] + b[i + 1..]
    ensures LatencySignal(b, r) <==> LatencySignal(c, r)
  {
    Without(b, c, i, |b|);
    assert b == b[..i] + [b[i]] + b[i + 1..];
    assert forall m :: m in b <==> m in c || m == b[i];
  }

  lemma {:induction false} ScaledCount(a: seq<Metrics>, b: seq<Metrics>, n: nat)
    requires |a| == |b| && n <= |a| && forall i | 0 <= i < |a| :: Usable(b[i]) <==> Usable(a[i])
    ensures Measured(a, n) == Measured(b, n)
  {
    if n > 0 { ScaledCount(a, b, n - 1); }
  }

  ghost predicate Scaled(a: seq<Metrics>, b: seq<Metrics>, k: real) {
    |a| == |b| && k > 0.0 && forall i | 0 <= i < |a| :: b[i].Latency() == k * a[i].Latency()
  }

  lemma ScaledSign(k: real, x: real, y: real)
    requires k > 0.0 && y == k * x
    ensures y > 0.0 <==> x > 0.0
  {
  }

  lemma SameQuotient(x: real, y: real, x': real, y': real, k: real)
    requires k > 0.0 && y > 0.0 && y' > 0.0 && x' == k * x && y' == k * y
    ensures x' / y' == x / y
  {
    var q := x / y;
    assert q * y == x;
    assert q * y' == k * (q * y);
  }

  lemma ScaledQuotient(m: Metrics, m': Metrics, n: Metrics, n': Metrics, k: real)
    requires k > 0.0 && n.Latency() == k * m.Latency() && n'.Latency() == k * m'.Latency()
    ensures Usable(n) == Usable(m) && Usable(n') == Usable(m')
    ensures Usable(m) && Usable(m') ==> Quotient(n, n') == Quotient(m, m')
  {
    ScaledSign(k, m.Latency(), n.Latency());
    ScaledSign(k, m'.Latency(), n'.Latency());
    if Usable(m) && Usable(m') { SameQuotient(m.Latency(), m'.Latency(), n.Latency(), n'.Latency(), k); }
  }

  /** Two backends of `a` have counterparts in `b` with the same quotient. */
  /** The counterpart of one backend. */
  lemma ScaledOne(a: seq<Metrics>, b: seq<Metrics>, k: real, m: Metrics) returns (n: Metrics)
    requires Scaled(a, b, k) && m in a
    ensures n in b && n.Latency() == k * m.Latency()
  {
    var i :| 0 <= i < |a| && a[i] == m;
    n := b[i];
  }

  lemma ScaledPair(a: seq<Metrics>, b: seq<Metrics>, k: real, m: Metrics, m': Metrics) returns (n: Metrics, n': Metrics)
    requires Scaled(a, b, k) && m in a && m' in a && Usable(m) && Usable(m')
    ensures n in b && n' in b && Usable(n) && Usable(n') && Quotient(n, n') == Quotient(m, m')
  {
    n := ScaledOne(a, b, k, m);
    n' := ScaledOne(a, b, k, m');
    ScaledQuotient(m, m', n, n', k);
  }

  lemma DivideBack(x: real, y: real, k: real)
    requires k > 0.0 && y == k * x
    ensures x == (1.0 / k) * y
  {
    var r := 1.0 / k;
    assert r * k == 1.0;
    assert r * (k * x) == (r * k) * x;
  }

  lemma ScaleBack(a: seq<Metrics>, b: seq<Metrics>, k: real)
    requires Scaled(a, b, k)
    ensures Scaled(b, a, 1.0 / k)
  {
    forall i | 0 <= i < |a| ensures a[i].Latency() == (1.0 / k) * b[i].Latency() {
      DivideBack(a[i].Latency(), b[i].Latency(), k);
    }
  }

  lemma ScaledGreatest(a: seq<Metrics>, b: seq<Metrics>, k: real, q: real)
    requires Scaled(a, b, k) && GreatestQuotient(a, q)
    ensures GreatestQuotient(b, q)
  {
    var m, m' :| m in a && m' in a && Usable(m) && Usable(m') && q == Quotient(m, m');
    var n, n' := ScaledPair(a, b, k, m, m');
    forall n, n' | n in b && n' in b && Usable(n) && Usable(n') ensures Quotient(n, n') <= q {
      ScaleBack(a, b, k);
      var m, m' := ScaledPair(b, a, 1.0 / k, n, n');
    }
  }

  /** The latency signal is unchanged when all latencies are scaled by a positive factor. */
  lemma ScaleIrrelevant(a: seq<Metrics>, b: seq<Metrics>, k: real, r: Option<real>)
    requires Scaled(a, b, k) && LatencySignal(a, r)
    ensures LatencySignal(b, r)
  {
    forall i | 0 <= i < |a| ensures Usable(b[i]) == Usable(a[i]) { ScaledSign(k, a[i].Latency(), b[i].Latency()); }
    ScaledCount(a, b, |a|);
    if r.Some? { ScaledGreatest(a, b, k, r.value); }
  }

  // ---------------------------------------------------------------------------------------------
  // No flapping.

  /** Evaluating again on the same metrics changes nothing. */
  ghost predicate Settles(e: Engine, current: Strategy, s: Signals) {
    e.Decide(e.Decide(current, s), s) == e.Decide(current, s)
  }

  /** Exit thresholds do not exceed enter thresholds. */
  predicate Banded(e: Engine) {
    e.LatencyExit() <= e.latencyRatio && e.ConnectionExit() <= e.connectionRatio
  }

  /** An exit factor of at most one is enough, for non-negative thresholds. */
  lemma ExitFactorBands(e: Engine)
    requires e.exit <= 1.0 && e.latencyRatio >= 0.0 && e.connectionRatio >= 0.0
    ensures Banded(e)
  {
  }

  lemma Settled(e: Engine, current: Strategy, s: Signals)
    requires Banded(e)
    ensures Settles(e, current, s)
  {
  }

  /** On every reading, from every strategy, one evaluation settles exactly when no exit threshold exceeds its enter threshold. */
  lemma SettlesIffExitBelowEnter(e: Engine)
    ensures (forall current, s :: Settles(e, current, s)) <==> Banded(e)
  {
    if e.LatencyExit() > e.latencyRatio {
      assert !Settles(e, FastestServer, Signals(Some(e.LatencyExit()), None));
    }
    if e.ConnectionExit() > e.connectionRatio {
      assert !Settles(e, FewestConnections, Signals(None, Some((e.ConnectionExit(), e.minConnections))));
    }
    if Banded(e) {
      forall current, s ensures Settles(e, current, s) { Settled(e, current, s); }
    }
  }

  lemma QuotientOf(q: real, x: real, y: real)
    requires x > 0.0 && q * x == y
    ensures y / x == q
  {
  }

  lemma TwoLatencies(x: F32, y: F32, ratio: real)
    requires 0.0 < x <= y && ratio * x == y
    ensures IsSignals([Metrics(Some(x), None), Metrics(Some(y), None)], Signals(Some(ratio), None))
  {
    var backends := [Metrics(Some(x), None), Metrics(Some(y), None)];
    assert Measured(backends, 0) == Tracked(backends, 0) == 0;
    assert Measured(backends, 1) == 1 && Tracked(backends, 1) == 0;
    assert Measured(backends, 2) == 2 && Tracked(backends, 2) == 0;
    ExtremesGiveGreatestQuotient(backends, 1, 0);
    QuotientOf(ratio, x, y);
  }

  lemma TwoCounts(max: Selection.U64, min: Selection.U64)
    requires min <= max
    ensures IsSignals([Metrics(None, Some(min)), Metrics(None, Some(max))], Signals(None, Some((Ratio(max, min), max))))
  {
    var backends := [Metrics(None, Some(min)), Metrics(None, Some(max))];
    assert Measured(backends, 0) == Tracked(backends, 0) == 0;
    assert Measured(backends, 1) == 0 && Tracked(backends, 1) == 1;
    assert Measured(backends, 2) == 0 && Tracked(backends, 2) == 2;
    ExtremesGiveConnectionSignal(backends, 1, 0);
  }

  /** No latency ratio, which is at least one, lies above the enter and at or below the exit threshold. */
  predicate LatencySettles(e: Engine) {
    e.LatencyExit() <= e.latencyRatio || e.LatencyExit() < 1.0
  }

  /** Counts `min` and `max` make a ratio above the enter and at or below the exit threshold. */
  predicate InConnectionGap(e: Engine, max: Selection.U64, min: Selection.U64) {
    min <= max && max >= e.minConnections && e.connectionRatio < Ratio(max, min) <= e.ConnectionExit()
  }

  ghost predicate ConnectionsSettle(e: Engine) {
    forall max: Selection.U64, min: Selection.U64 :: !InConnectionGap(e, max, min)
  }

  lemma BandedSettles(e: Engine)
    requires Banded(e)
    ensures LatencySettles(e) && ConnectionsSettle(e)
  {
  }

  lemma LargerProduct(a: real, b: real)
    requires a > 0.0 && b > 1.0
    ensures a * b > a
  {
  }

  lemma HigherExit(e: Engine)
    requires e.exit > 1.0 && e.latencyRatio > 0.0
    ensures e.LatencyExit() > e.latencyRatio
  {
    LargerProduct(e.latencyRatio, e.exit);
    assert e.LatencyExit() == e.latencyRatio * e.exit;
  }

  lemma SettlesOutsideGaps(e: Engine, current: Strategy, s: Signals)
    requires s.latency.Some? ==> !(e.latencyRatio < s.latency.value <= e.LatencyExit())
    requires s.connections.Some? && s.connections.value.1 >= e.minConnections ==>
               !(e.connectionRatio < s.connections.value.0 <= e.ConnectionExit())
    ensures Settles(e, current, s)
  {
  }

  lemma LatencySignalAtLeastOne(backends: seq<Metrics>, q: real)
    requires GreatestQuotient(backends, q)
    ensures q >= 1.0
  {
    var m, m' :| m in backends && m' in backends && Usable(m) && Usable(m') && q == Quotient(m, m');
    assert Quotient(m', m') == 1.0;
  }

  lemma ReportableSettles(e: Engine, backends: seq<Metrics>, current: Strategy, s: Signals)
    requires IsSignals(backends, s) && LatencySettles(e)
    requires ConnectionsSettle(e)
    ensures Settles(e, current, s)
  {
    if s.latency.Some? { LatencySignalAtLeastOne(backends, s.latency.value); }
    if s.connections.Some? {
      var idle, busy :| Idlest(backends, idle) && Busiest(backends, busy)
        && s.connections.value == (Ratio(busy.connections.value, idle.connections.value), busy.connections.value);
      assert !InConnectionGap(e, busy.connections.value, idle.connections.value);
    }
    SettlesOutsideGaps(e, current, s);
  }

  lemma LatencyFlaps(e: Engine)
    requires !LatencySettles(e)
    ensures exists backends, s :: IsSignals(backends, s) && !Settles(e, FastestServer, s)
  {
    var high := e.LatencyExit();
    assert 0.0 < 1.0 / high <= 1.0 by { assert (1.0 / high) * high == 1.0; }
    var s := Signals(Some(high), None);
    TwoLatencies(1.0 / high, 1.0, high);
    assert IsSignals([Metrics(Some(1.0 / high), None), Metrics(Some(1.0), None)], s);
    assert !Settles(e, FastestServer, s);
  }

  lemma ConnectionsFlap(e: Engine, max: Selection.U64, min: Selection.U64)
    requires InConnectionGap(e, max, min)
    ensures exists backends, s :: IsSignals(backends, s) && !Settles(e, FewestConnections, s)
  {
    var s := Signals(None, Some((Ratio(max, min), max)));
    TwoCounts(max, min);
    assert IsSignals([Metrics(None, Some(min)), Metrics(None, Some(max))], s);
    assert !Settles(e, FewestConnections, s);
  }

  /**
   * Over the metrics a fleet can really report, and for every engine: evaluation settles on all of
   * them exactly when no latency ratio and no ratio of connection counts falls between an enter
   * threshold and a higher exit threshold.
   */
  lemma SettlesIff(e: Engine)
    ensures (forall backends, current, s | IsSignals(backends, s) :: Settles(e, current, s)) <==>
              LatencySettles(e) && ConnectionsSettle(e)
  {
    if !LatencySettles(e) {
      LatencyFlaps(e);
    } else if max: Selection.U64, min: Selection.U64 :| InConnectionGap(e, max, min) {
      ConnectionsFlap(e, max, min);
    } else {
      forall backends, current, s | IsSignals(backends, s) ensures Settles(e, current, s) {
        ReportableSettles(e, backends, current, s);
      }
    }
  }

  /** In particular, with a latency threshold of at least one and a non-negative connection threshold: up to an exit factor of one. */
  lemma SettlesIffExitFactorAtMostOne(e: Engine)
    requires e.latencyRatio >= 1.0 && e.connectionRatio >= 0.0
    ensures (forall backends, current, s | IsSignals(backends, s) :: Settles(e, current, s)) <==> e.exit <= 1.0
  {
    SettlesIff(e);
    if e.exit <= 1.0 {
      ExitFactorBands(e);
      BandedSettles(e);
    } else {
      HigherExit(e);
    }
  }

  // ---------------------------------------------------------------------------------------------
  // Runs over changing metrics.

  /** `strategies[i + 1]` is the decision on `signals[i]` while `strategies[i]` is active. */
  ghost predicate Run(e: Engine, strategies: seq<Strategy>, signals: seq<Signals>) {
    && |strategies| == |signals| + 1
    && forall i | 0 <= i < |signals| :: strategies[i + 1] == e.Decide(strategies[i], signals[i])
  }

  /** The connections are skewed beyond the enter threshold, on a loaded enough fleet. */
  predicate ConnectionsHigh(e: Engine, s: Signals) {
    s.connections.Some? && s.connections.value.1 >= e.minConnections && s.connections.value.0 > e.connectionRatio
  }

  /** The connections are balanced down to the exit threshold, too few, or not known. */
  predicate ConnectionsLow(e: Engine, s: Signals) {
    s.connections.None? || s.connections.value.1 < e.minConnections || s.connections.value.0 <= e.connectionRatio * e.exit
  }

  predicate LatencyHigh(e: Engine, s: Signals) {
    s.latency.Some? && s.latency.value > e.latencyRatio
  }

  predicate LatencyLow(e: Engine, s: Signals) {
    s.latency.None? || s.latency.value <= e.latencyRatio * e.exit
  }

  /** `FewestConnections` was entered (or active at the start) at `k` and nothing ended it before `n`. */
  ghost predicate OverloadHeld(e: Engine, strategies: seq<Strategy>, signals: seq<Signals>, k: nat, n: nat)
    requires k <= n <= |signals| < |strategies|
  {
    && (if k == 0 then strategies[0].FewestConnections? else ConnectionsHigh(e, signals[k - 1]))
    && (forall j | k <= j < n :: !ConnectionsLow(e, signals[j]))
  }

  /** `FastestServer` was entered (or active at the start) at `k`; neither latency nor overload ended it before `n`. */
  ghost predicate DivergenceHeld(e: Engine, strategies: seq<Strategy>, signals: seq<Signals>, k: nat, n: nat)
    requires k <= n <= |signals| < |strategies|
  {
    && (if k == 0 then strategies[0].FastestServer? else LatencyHigh(e, signals[k - 1]))
    && (forall j | k <= j < n :: !LatencyLow(e, signals[j]))
    && (forall j | k <= j <= n && j > 0 :: !strategies[j].FewestConnections?)
  }

  ghost predicate Overload(e: Engine, strategies: seq<Strategy>, signals: seq<Signals>, n: nat)
    requires n <= |signals| < |strategies|
  {
    exists k | 0 <= k <= n :: OverloadHeld(e, strategies, signals, k, n)
  }

  ghost predicate Divergence(e: Engine, strategies: seq<Strategy>, signals: seq<Signals>, n: nat)
    requires n <= |signals| < |strategies|
  {
    exists k | 0 <= k <= n :: DivergenceHeld(e, strategies, signals, k, n)
  }

  lemma OverloadStep(e: Engine, strategies: seq<Strategy>, signals: seq<Signals>, n: nat)
    requires Banded(e) && Run(e, strategies, signals) && 0 < n <= |signals|
    requires strategies[n - 1].FewestConnections? <==> Overload(e, strategies, signals, n - 1)
    ensures strategies[n].FewestConnections? <==> Overload(e, strategies, signals, n)
  {
    assert strategies[n] == e.Decide(strategies[n - 1], signals[n - 1]);
    forall k | 0 <= k < n
      ensures OverloadHeld(e, strategies, signals, k, n) <==>
                OverloadHeld(e, strategies, signals, k, n - 1) && !ConnectionsLow(e, signals[n - 1])
    {
    }
    if strategies[n].FewestConnections? {
      if ConnectionsHigh(e, signals[n - 1]) {
        assert OverloadHeld(e, strategies, signals, n, n);
      } else {
        var k :| 0 <= k <= n - 1 && OverloadHeld(e, strategies, signals, k, n - 1);
        assert OverloadHeld(e, strategies, signals, k, n);
      }
    }
  }

  lemma DivergenceStep(e: Engine, strategies: seq<Strategy>, signals: seq<Signals>, n: nat)
    requires Banded(e) && Run(e, strategies, signals) && 0 < n <= |signals|
    requires strategies[n - 1].FastestServer? <==> Divergence(e, strategies, signals, n - 1)
    ensures strategies[n].FastestServer? <==> Divergence(e, strategies, signals, n)
  {
    assert strategies[n] == e.Decide(strategies[n - 1], signals[n - 1]);
    forall k | 0 <= k < n
      ensures DivergenceHeld(e, strategies, signals, k, n) <==>
                && DivergenceHeld(e, strategies, signals, k, n - 1)
                && !LatencyLow(e, signals[n - 1]) && !strategies[n].FewestConnections?
    {
    }
    if strategies[n].FastestServer? {
      if LatencyHigh(e, signals[n - 1]) {
        assert DivergenceHeld(e, strategies, signals, n, n);
      } else {
        var k :| 0 <= k <= n - 1 && DivergenceHeld(e, strategies, signals, k, n - 1);
        assert DivergenceHeld(e, strategies, signals, k, n);
      }
    }
  }

  /**
   * The engine is two latches: the connection latch is set above its enter threshold and cleared at
   * or below its exit threshold, whatever the latencies do; the latency latch likewise, and it is
   * cleared whenever the connection latch is set. Nothing else decides the strategy.
   */
  lemma {:induction false} TwoLatches(e: Engine, strategies: seq<Strategy>, signals: seq<Signals>, n: nat)
    requires Banded(e) && Run(e, strategies, signals) && n <= |signals|
    ensures strategies[n].FewestConnections? <==> Overload(e, strategies, signals, n)
    ensures strategies[n].FastestServer? <==> Divergence(e, strategies, signals, n)
    ensures n > 0 ==> strategies[n] in {RoundRobin, FastestServer, FewestConnections}
  {
    if n == 0 {
      assert strategies[0].FewestConnections? ==> OverloadHeld(e, strategies, signals, 0, 0);
      assert strategies[0].FastestServer? ==> DivergenceHeld(e, strategies, signals, 0, 0);
    } else {
      TwoLatches(e, strategies, signals, n - 1);
      OverloadStep(e, strategies, signals, n);
      DivergenceStep(e, strategies, signals, n);
    }
  }

  ghost predicate Enters(strategies: seq<Strategy>, i: nat, s: Strategy) {
    i + 1 < |strategies| && strategies[i] != s && strategies[i + 1] == s
  }

  /**
   * No flapping: every entry into `FastestServer` reads a latency ratio above the enter threshold,
   * and between two entries the ratio came down to the exit threshold or overload took over.
   */
  lemma FastestServerEntriesSeparated(e: Engine, strategies: seq<Strategy>, signals: seq<Signals>, i: nat, j: nat)
    requires Banded(e) && Run(e, strategies, signals) && i < j < |signals|
    requires Enters(strategies, i, FastestServer) && Enters(strategies, j, FastestServer)
    ensures LatencyHigh(e, signals[i]) && LatencyHigh(e, signals[j])
    ensures exists m | i < m < j :: LatencyLow(e, signals[m]) || strategies[m + 1].FewestConnections?
  {
    assert strategies[i + 1] == e.Decide(strategies[i], signals[i]);
    assert strategies[j + 1] == e.Decide(strategies[j], signals[j]);
    TwoLatches(e, strategies, signals, j);
    assert !DivergenceHeld(e, strategies, signals, i + 1, j);
    if m :| i + 1 <= m <= j && strategies[m].FewestConnections? {
      assert i < m - 1;
      assert strategies[(m - 1) + 1].FewestConnections?;
      assert LatencyLow(e, signals[m - 1]) || strategies[(m - 1) + 1].FewestConnections?;
    }
  }

  /** Two entries into `FewestConnections` are above its enter threshold, with a reading at or below its exit between them. */
  lemma FewestConnectionsEntriesSeparated(e: Engine, strategies: seq<Strategy>, signals: seq<Signals>, i: nat, j: nat)
    requires Banded(e) && Run(e, strategies, signals) && i < j < |signals|
    requires Enters(strategies, i, FewestConnections) && Enters(strategies, j, FewestConnections)
    ensures ConnectionsHigh(e, signals[i]) && ConnectionsHigh(e, signals[j])
    ensures exists m | i < m < j :: ConnectionsLow(e, signals[m])
  {
    assert strategies[i + 1] == e.Decide(strategies[i], signals[i]);
    assert strategies[j + 1] == e.Decide(strategies[j], signals[j]);
    TwoLatches(e, strategies, signals, j);
    assert !OverloadHeld(e, strategies, signals, i + 1, j);
  }

  /** Whether the last of the first `n` readings outside the latency band lay above it. */
  function LastAbove(e: Engine, signals: seq<Signals>, n: nat, initially: bool): bool
    requires n <= |signals|
  {
    if n == 0 then initially
    else if LatencyHigh(e, signals[n - 1]) then true
    else if LatencyLow(e, signals[n - 1]) then false
    else LastAbove(e, signals, n - 1, initially)
  }

  /** How often the first `n` readings cross the whole latency band, upward or downward. */
  function Crossings(e: Engine, signals: seq<Signals>, n: nat, initially: bool): nat
    requires n <= |signals|
  {
    if n == 0 then 0
    else
      var crossed := LastAbove(e, signals, n, initially) != LastAbove(e, signals, n - 1, initially);
      Crossings(e, signals, n - 1, initially) + if crossed then 1 else 0
  }

  /** How often the strategy changed. */
  function Switches(strategies: seq<Strategy>, n: nat): nat
    requires n < |strategies|
  {
    if n == 0 then 0 else Switches(strategies, n - 1) + (if strategies[n] != strategies[n - 1] then 1 else 0)
  }

  /**
   * While connections do not call for `FewestConnections`, the engine switches exactly as often as
   * the latency ratio crosses its whole band.
   */
  lemma {:induction false} SwitchesAreCrossings(e: Engine, strategies: seq<Strategy>, signals: seq<Signals>, n: nat)
    requires Banded(e) && Run(e, strategies, signals) && n <= |signals|
    requires strategies[0] in {RoundRobin, FastestServer} && forall i | 0 <= i < |signals| :: !ConnectionsHigh(e, signals[i])
    ensures strategies[n] == if LastAbove(e, signals, n, strategies[0].FastestServer?) then FastestServer else RoundRobin
    ensures Switches(strategies, n) == Crossings(e, signals, n, strategies[0].FastestServer?)
  {
    if n > 0 {
      SwitchesAreCrossings(e, strategies, signals, n - 1);
      assert strategies[n] == e.Decide(strategies[n - 1], signals[n - 1]);
      assert !ConnectionsHigh(e, signals[n - 1]);
    }
  }

  /** Whether the last of the first `n` readings outside the connection band called for `FewestConnections`. */
  function LastOverloaded(e: Engine, signals: seq<Signals>, n: nat, initially: bool): bool
    requires n <= |signals|
  {
    if n == 0 then initially
    else if ConnectionsHigh(e, signals[n - 1]) then true
    else if ConnectionsLow(e, signals[n - 1]) then false
    else LastOverloaded(e, signals, n - 1, initially)
  }

  /** How often the first `n` readings enter overload, an overload at the start included. */
  function Overloads(e: Engine, signals: seq<Signals>, n: nat, initially: bool): nat
    requires n <= |signals|
  {
    if n == 0 then if initially then 1 else 0
    else
      var entered := LastOverloaded(e, signals, n, initially) && !LastOverloaded(e, signals, n - 1, initially);
      Overloads(e, signals, n - 1, initially) + if entered then 1 else 0
  }

  /** Switches that can still come without a crossing: out of overload, and back into a divergence it hid. */
  function Reserve(s: Strategy, above: bool): nat {
    if s.FewestConnections? then 2 else if above && !s.FastestServer? then 1 else 0
  }

  /** The decision, in terms of the bands. */
  lemma DecideByReadings(e: Engine, current: Strategy, s: Signals)
    requires Banded(e)
    ensures !(ConnectionsHigh(e, s) && ConnectionsLow(e, s)) && !(LatencyHigh(e, s) && LatencyLow(e, s))
    ensures e.Decide(current, s) ==
            if ConnectionsHigh(e, s) || (current.FewestConnections? && !ConnectionsLow(e, s)) then FewestConnections
            else if LatencyHigh(e, s) || (current.FastestServer? && !LatencyLow(e, s)) then FastestServer
            else RoundRobin
  {
    e.DecideIff(current, s);
    assert e.LatencyExit() == e.latencyRatio * e.exit && e.ConnectionExit() == e.connectionRatio * e.exit;
  }

  /** One decision uses up at most what it adds to crossings and overloads. */
  lemma ReserveStep(s: Strategy, s': Strategy, connectionsHigh: bool, connectionsLow: bool, latencyHigh: bool, latencyLow: bool,
                    above: bool, above': bool, over: bool, over': bool)
    requires s in {RoundRobin, FastestServer, FewestConnections} && over == s.FewestConnections? && (s.FastestServer? ==> above)
    requires !(connectionsHigh && connectionsLow) && !(latencyHigh && latencyLow)
    requires s' == if connectionsHigh || (s.FewestConnections? && !connectionsLow) then FewestConnections
                   else if latencyHigh || (s.FastestServer? && !latencyLow) then FastestServer
                   else RoundRobin
    requires above' == if latencyHigh then true else if latencyLow then false else above
    requires over' == if connectionsHigh then true else if connectionsLow then false else over
    ensures over' == s'.FewestConnections? && (s'.FastestServer? ==> above')
    ensures (if s' != s then 1 else 0) + Reserve(s', above') <=
              Reserve(s, above) + (if above' != above then 1 else 0) + (if over' && !over then 3 else 0)
  {
  }

  /**
   * On every run the engine switches at most as often as the latency ratio crosses its whole band,
   * plus three times for every time the connections cross theirs upward.
   */
  lemma {:induction false} SwitchesBounded(e: Engine, strategies: seq<Strategy>, signals: seq<Signals>, n: nat)
    requires Banded(e) && Run(e, strategies, signals) && n <= |signals|
    requires strategies[0] in {RoundRobin, FastestServer, FewestConnections}
    ensures var above, over := strategies[0].FastestServer?, strategies[0].FewestConnections?;
            && (strategies[n].FewestConnections? <==> LastOverloaded(e, signals, n, over))
            && (strategies[n].FastestServer? ==> LastAbove(e, signals, n, above))
            && strategies[n] in {RoundRobin, FastestServer, FewestConnections}
            && Switches(strategies, n) + Reserve(strategies[n], LastAbove(e, signals, n, above))
                 <= Crossings(e, signals, n, above) + 3 * Overloads(e, signals, n, over)
  {
    if n > 0 {
      SwitchesBounded(e, strategies, signals, n - 1);
      var above, over, sig := strategies[0].FastestServer?, strategies[0].FewestConnections?, signals[n - 1];
      assert strategies[n] == e.Decide(strategies[n - 1], sig);
      DecideByReadings(e, strategies[n - 1], sig);
      ReserveStep(strategies[n - 1], strategies[n],
        ConnectionsHigh(e, sig), ConnectionsLow(e, sig), LatencyHigh(e, sig), LatencyLow(e, sig),
        LastAbove(e, signals, n - 1, above), LastAbove(e, signals, n, above),
        LastOverloaded(e, signals, n - 1, over), LastOverloaded(e, signals, n, over));
    }
  }

  /** A return from `FastestServer` to `RoundRobin` reads a ratio at or below the exit threshold, or none. */
  lemma ExitsAreLow(e: Engine, strategies: seq<Strategy>, signals: seq<Signals>, i: nat)
    requires Run(e, strategies, signals) && i < |signals|
    requires strategies[i].FastestServer? && strategies[i + 1].RoundRobin?
    ensures LatencyLow(e, signals[i])
  {
    assert strategies[i + 1] == e.Decide(strategies[i], signals[i]);
  }
}
