/** The health machine of one backend (routini/src/load_balancing/health_check.rs). */
module HealthCheck {
  datatype HealthInner = HealthInner(healthy: bool, enabled: bool, counter: nat) {
    predicate Ready() { healthy && enabled }
  }

  /** `Health::default()`. */
  const DEFAULT := HealthInner(true, true, 0)

  /** How many consecutive probes flip the health, per probe result (`health_threshold`). */
  datatype Thresholds = Thresholds(success: nat, failure: nat) {
    function For(ok: bool): nat { if ok then success else failure }

    /** A threshold of zero acts like one: the first opposite probe already flips. */
    function Effective(ok: bool): nat {
      var n := if ok then success else failure;
      if n == 0 then 1 else n
    }
  }

  function Observed(h: HealthInner, ok: bool, threshold: nat): HealthInner {
    if h.healthy == ok then h.(counter := 0)
    else if h.counter + 1 >= threshold then HealthInner(ok, h.enabled, 0)
    else h.(counter := h.counter + 1)
  }

  function Enabled(h: HealthInner, enabled: bool): HealthInner {
    h.(enabled := enabled)
  }

  class Health {
    var inner: HealthInner

    constructor ()
      ensures inner == DEFAULT
    {
      inner := DEFAULT;
    }

    method Ready() returns (ready: bool)
      ensures ready <==> inner.healthy && inner.enabled
    {
      var h := inner;
      ready := h.healthy && h.enabled;
    }

    method Enable(enabled: bool)
      modifies this
      ensures inner == Enabled(old(inner), enabled)
    {
      var h := inner;
      if h.enabled != enabled {
        var newHealth := h;
        newHealth := newHealth.(enabled := enabled);
        inner := newHealth;
      }
    }

    /** Returns true when the health is flipped. */
    method ObserveHealth(health: bool, flipThreshold: nat) returns (flipped: bool)
      modifies this
      ensures inner == Observed(old(inner), health, flipThreshold)
      ensures flipped <==> inner.healthy != old(inner).healthy
    {
      var h := inner;
      flipped := false;
      if h.healthy != health {
        var newHealth := h;
        newHealth := newHealth.(counter := newHealth.counter + 1);
        if newHealth.counter >= flipThreshold {
          newHealth := newHealth.(healthy := health, counter := 0);
          flipped := true;
        }
        inner := newHealth;
      } else if h.counter > 0 {
        var newHealth := h;
        newHealth := newHealth.(counter := 0);
        inner := newHealth;
      }
    }
  }

  // ---------------------------------------------------------------------------------------------
  // The machine against its history.

  datatype Event = Observe(ok: bool) | Enable(on: bool)

  function Apply(h: HealthInner, e: Event, t: Thresholds): HealthInner {
    match e
    case Observe(ok) => Observed(h, ok, t.For(ok))
    case Enable(on) => Enabled(h, on)
  }

  function Replay(h: HealthInner, trace: seq<Event>, t: Thresholds): HealthInner {
    if trace == [] then h
    else Apply(Replay(h, trace[..|trace| - 1], t), trace[|trace| - 1], t)
  }

  /** The probe results of a trace, in order. */
  function Observations(trace: seq<Event>): seq<bool> {
    if trace == [] then []
    else
      var front := Observations(trace[..|trace| - 1]);
      if trace[|trace| - 1].Observe? then front + [trace[|trace| - 1].ok] else front
  }

  /** What the last enable call of a trace asked for; enabled when there was none. */
  function LastEnabled(trace: seq<Event>): bool {
    if trace == [] then true
    else if trace[|trace| - 1].Enable? then trace[|trace| - 1].on
    else LastEnabled(trace[..|trace| - 1])
  }

  /** Length of the run of `v` at the end of `obs`. */
  function Trailing(obs: seq<bool>, v: bool): nat {
    if obs == [] || obs[|obs| - 1] != v then 0 else 1 + Trailing(obs[..|obs| - 1], v)
  }

  /** `n` consecutive observations of `v` end at position `i`. */
  ghost predicate Window(obs: seq<bool>, i: nat, v: bool, n: nat) {
    n <= i <= |obs| && forall j | i - n <= j < i :: obs[j] == v
  }

  /** No long enough run of `v` ends after position `i`. */
  ghost predicate NoWindowAfter(obs: seq<bool>, i: nat, v: bool, n: nat) {
    forall j | i < j <= |obs| :: !Window(obs, j, v, n)
  }

  /** The last run of probes that was long enough to decide the health was one of `v`. */
  ghost predicate DecidedBy(obs: seq<bool>, v: bool, t: Thresholds) {
    exists i | 0 <= i <= |obs| ::
      Window(obs, i, v, t.Effective(v)) && NoWindowAfter(obs, i, !v, t.Effective(!v))
  }

  lemma {:induction false} TrailingIsWindow(obs: seq<bool>, v: bool, n: nat)
    ensures Window(obs, |obs|, v, n) <==> n <= Trailing(obs, v)
    decreases |obs|
  {
    if obs != [] && obs[|obs| - 1] == v && n > 0 {
      var front := obs[..|obs| - 1];
      TrailingIsWindow(front, v, n - 1);
      if Window(obs, |obs|, v, n) {
        assert forall j | |front| - (n - 1) <= j < |front| :: front[j] == obs[j];
        assert Window(front, |front|, v, n - 1);
      }
      if n - 1 <= Trailing(front, v) {
        assert Window(front, |front|, v, n - 1);
        assert forall j | |front| - (n - 1) <= j < |front| :: front[j] == obs[j];
      }
    } else if n > 0 && obs != [] {
      assert obs[|obs| - 1] != v;
    }
  }

  /** Windows that end inside the prefix are the prefix's own. */
  lemma WindowOfPrefix(front: seq<bool>, x: bool, i: nat, v: bool, n: nat)
    requires i <= |front|
    ensures Window(front + [x], i, v, n) <==> Window(front, i, v, n)
  {
    assert forall j | 0 <= j < |front| :: (front + [x])[j] == front[j];
  }

  /** One more probe: a full run of it decides, any other keeps the earlier decision. */
  lemma DecidedStep(front: seq<bool>, x: bool, v: bool, t: Thresholds)
    ensures DecidedBy(front + [x], v, t) <==>
              (x == v && Trailing(front + [x], v) >= t.Effective(v))
              || (DecidedBy(front, v, t) && !(x != v && Trailing(front + [x], !v) >= t.Effective(!v)))
  {
    var obs, w, m := front + [x], !v, t.Effective(!v);
    TrailingIsWindow(obs, v, t.Effective(v));
    TrailingIsWindow(obs, !v, t.Effective(!v));
    forall j | 0 <= j <= |front|
      ensures Window(obs, j, v, t.Effective(v)) <==> Window(front, j, v, t.Effective(v))
      ensures Window(obs, j, !v, t.Effective(!v)) <==> Window(front, j, !v, t.Effective(!v))
    {
      WindowOfPrefix(front, x, j, v, t.Effective(v));
      WindowOfPrefix(front, x, j, !v, t.Effective(!v));
    }
    if Window(obs, |obs|, v, t.Effective(v)) {
      assert obs[|obs| - 1] == x == v;
      assert NoWindowAfter(obs, |obs|, !v, t.Effective(!v));
    }
    if Window(obs, |obs|, !v, t.Effective(!v)) {
      assert obs[|obs| - 1] == x == !v;
    } else if DecidedBy(front, v, t) {
      var i :| 0 <= i <= |front| && Window(front, i, v, t.Effective(v)) && NoWindowAfter(front, i, !v, t.Effective(!v));
      assert Window(obs, i, v, t.Effective(v));
      forall j | i < j <= |obs| ensures !Window(obs, j, w, m) {
        if j <= |front| { assert !Window(front, j, w, m); }
      }
      assert NoWindowAfter(obs, i, !v, t.Effective(!v));
    }
    if DecidedBy(obs, v, t) {
      var i :| 0 <= i <= |obs| && Window(obs, i, v, t.Effective(v)) && NoWindowAfter(obs, i, !v, t.Effective(!v));
      if i <= |front| {
        assert Window(front, i, v, t.Effective(v));
        forall j | i < j <= |front| ensures !Window(front, j, w, m) {
          assert !Window(obs, j, w, m);
        }
        assert NoWindowAfter(front, i, !v, t.Effective(!v));
        assert !Window(obs, |obs|, !v, t.Effective(!v));
      }
    }
  }

  /**
   * After any trace from the default state the counter is the run of opposite probes at the end of
   * the history and stays below the threshold, the health is the value of the last run of probes
   * long enough to decide it (healthy before the first such run), and enablement is the last one
   * asked for.
   */
  lemma {:induction false} HealthRefinesHistory(trace: seq<Event>, t: Thresholds)
    ensures var h := Replay(DEFAULT, trace, t);
            var obs := Observations(trace);
            && h.counter == Trailing(obs, !h.healthy) < t.Effective(!h.healthy)
            && (h.healthy <==> DecidedBy(obs, true, t) || !DecidedBy(obs, false, t))
            && (!h.healthy <==> DecidedBy(obs, false, t))
            && !(DecidedBy(obs, true, t) && DecidedBy(obs, false, t))
            && h.enabled == LastEnabled(trace)
            && (h.Ready() <==> !DecidedBy(obs, false, t) && LastEnabled(trace))
    decreases |trace|
  {
    if trace != [] {
      var front := trace[..|trace| - 1];
      var e := trace[|trace| - 1];
      HealthRefinesHistory(front, t);
      if e.Observe? {
        var obs := Observations(front);
        assert Observations(trace) == obs + [e.ok];
        assert (obs + [e.ok])[..|obs + [e.ok]| - 1] == obs;
        DecidedStep(obs, e.ok, true, t);
        DecidedStep(obs, e.ok, false, t);
      }
    } else {
      assert !DecidedBy([], true, t) && !DecidedBy([], false, t);
    }
  }

  /** A probe flips the health exactly when it completes a threshold of opposite probes. */
  lemma FlipsExactlyOnFullRun(trace: seq<Event>, ok: bool, t: Thresholds)
    ensures var before := Replay(DEFAULT, trace, t);
            var after := Replay(DEFAULT, trace + [Observe(ok)], t);
            after.healthy != before.healthy <==>
              ok != before.healthy && Trailing(Observations(trace) + [ok], ok) == t.Effective(ok)
  {
    HealthRefinesHistory(trace, t);
    var obs := Observations(trace);
    assert (trace + [Observe(ok)])[..|trace|] == trace;
    assert (obs + [ok])[..|obs + [ok]| - 1] == obs;
  }

  /** Enable calls commute with probes: only the probes and the last enable call matter. */
  lemma EnableCommutes(a: seq<Event>, b: seq<Event>, t: Thresholds)
    requires Observations(a) == Observations(b) && LastEnabled(a) == LastEnabled(b)
    ensures Replay(DEFAULT, a, t) == Replay(DEFAULT, b, t)
  {
    HealthRefinesHistory(a, t);
    HealthRefinesHistory(b, t);
  }

  /** `n` probes with the same result. */
  function Same(ok: bool, n: nat): seq<Event> { seq(n, _ => Observe(ok)) }

  /** A fresh backend turns unhealthy with failure number `t.failure` in a row, or with the first if that is zero. */
  lemma {:induction false} FailuresInARow(t: Thresholds, n: nat)
    ensures Replay(DEFAULT, Same(false, n), t) ==
            if n == 0 || n < t.failure then HealthInner(true, true, n)
            else HealthInner(false, true, 0)
  {
    if n > 0 {
      FailuresInARow(t, n - 1);
      assert Same(false, n)[..n - 1] == Same(false, n - 1);
    }
  }

  /** And an unhealthy one turns healthy with success number `t.success` in a row. */
  lemma {:induction false} SuccessesInARow(t: Thresholds, enabled: bool, n: nat)
    ensures Replay(HealthInner(false, enabled, 0), Same(true, n), t) ==
            if n == 0 || n < t.success then HealthInner(false, enabled, n)
            else HealthInner(true, enabled, 0)
  {
    if n > 0 {
      SuccessesInARow(t, enabled, n - 1);
      assert Same(true, n)[..n - 1] == Same(true, n - 1);
    }
  }
}
