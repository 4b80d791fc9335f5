/**
 * Whole runs from the start of the system, in which a backend is stranded, one way and the other,
 * and in which an older ejection ends a newer one.
 */
module RestorationRuns {
  import opened Core
  import opened PassiveHealth
  import opened Restoration
  import HealthCheck
  import Registry
  import P = Protocol
  import R = ProtocolRuns

  ghost predicate OrderlyBut(s: State, a: Step, key: Key, disables: bool, enables: bool) {
    (a.Disable? && disables) || (a.Enable? && enables) || Orderly(s, a, key)
  }

  /** A run whose steps are orderly, but for disablings or enablings where these are excepted. */
  ghost predicate OrderlyRun(cfg: Config, states: seq<State>, steps: seq<Step>, key: Key, disables: bool, enables: bool) {
    && Run(cfg, states, steps)
    && forall i | 0 <= i < |steps| :: OrderlyBut(states[i], steps[i], key, disables, enables)
  }

  /** Step `i` of two runs in a row is a step of the one or of the other. */
  lemma StepOfConcat(cfg: Config, states: seq<State>, steps: seq<Step>, states': seq<State>, steps': seq<Step>,
                     key: Key, disables: bool, enables: bool, i: nat)
    requires OrderlyRun(cfg, states, steps, key, disables, enables)
    requires OrderlyRun(cfg, states', steps', key, disables, enables) && states[|steps|] == states'[0]
    requires i < |steps| + |steps'|
    ensures var all, together := states + states'[1..], steps + steps';
            && Next(cfg, all[i], together[i], all[i + 1])
            && OrderlyBut(all[i], together[i], key, disables, enables)
  {
    if i < |steps| {
      assert Next(cfg, states[i], steps[i], states[i + 1]);
      assert OrderlyBut(states[i], steps[i], key, disables, enables);
    } else {
      var j := i - |steps|;
      assert (states + states'[1..])[i] == states'[j];
      assert Next(cfg, states'[j], steps'[j], states'[j + 1]);
      assert OrderlyBut(states'[j], steps'[j], key, disables, enables);
    }
  }

  lemma Concat(cfg: Config, states: seq<State>, steps: seq<Step>, states': seq<State>, steps': seq<Step>,
               key: Key, disables: bool, enables: bool)
    requires OrderlyRun(cfg, states, steps, key, disables, enables)
    requires OrderlyRun(cfg, states', steps', key, disables, enables) && states[|steps|] == states'[0]
    ensures OrderlyRun(cfg, states + states'[1..], steps + steps', key, disables, enables)
    ensures (states + states'[1..])[|steps + steps'|] == states'[|steps'|]
  {
    var all, together := states + states'[1..], steps + steps';
    forall i | 0 <= i < |together|
      ensures Next(cfg, all[i], together[i], all[i + 1]) && OrderlyBut(all[i], together[i], key, disables, enables)
    {
      StepOfConcat(cfg, states, steps, states', steps', key, disables, enables, i);
    }
  }

  /** Updates without overrides, while the requests rest. */
  lemma Lift(cfg: Config, s: State, registry: seq<P.State>, actions: seq<P.Action>, key: Key, disables: bool, enables: bool)
    returns (states: seq<State>, steps: seq<Step>)
    requires R.Chain(registry, actions) && R.Plain(actions) && registry[0] == s.lb
    requires R.Bare(s.lb)
    ensures OrderlyRun(cfg, states, steps, key, disables, enables) && |steps| == |actions|
    ensures states[0] == s && states[|steps|] == s.(lb := registry[|actions|])
  {
    states := seq(|registry|, i requires 0 <= i < |registry| => s.(lb := registry[i]));
    steps := seq(|actions|, i requires 0 <= i < |actions| => Other(actions[i]));
    forall i | 0 <= i < |steps|
      ensures Next(cfg, states[i], steps[i], states[i + 1]) && OrderlyBut(states[i], steps[i], key, disables, enables)
    {
      R.PlainStaysBare(registry, actions, i);
      assert R.IsPlain(actions[i]) && P.Next(registry[i], actions[i], registry[i + 1]);
    }
  }

  /** `set_enable` for an ejection, as two steps with nothing between them. */
  lemma DisableAtOnce(cfg: Config, s: State, r: nat, key: Key, disables: bool, enables: bool)
    returns (states: seq<State>, steps: seq<Step>)
    requires r in s.disabling && s.disabling[r].backend.key == key && s.lb.tables != [] && r !in s.lb.requests
    requires disables || Restorable(s, key)
    ensures OrderlyRun(cfg, states, steps, key, disables, enables) && steps == [Load(r, key, false), Disable(r)]
    ensures states[0] == s && states[2] == s.(disabling := s.disabling - {r}, lb := s.lb.(
              tables := s.lb.tables[s.lb.Current() := Registry.WithEnabled(s.lb.tables[s.lb.Current()], key, false)]))
  {
    var registry, actions := R.SetEnableAtOnce(s.lb, r, key, false);
    var s1 := s.(lb := registry[1]);
    var s2 := s.(disabling := s.disabling - {r}, lb := registry[2]);
    assert P.Next(registry[0], actions[0], registry[1]) && P.Next(registry[1], actions[1], registry[2]);
    assert Next(cfg, s, Load(r, key, false), s1) && Next(cfg, s1, Disable(r), s2);
    if q :| Taken(s, q, key) { assert Taken(s1, q, key); }
    states, steps := [s, s1, s2], [Load(r, key, false), Disable(r)];
    assert OrderlyBut(s, steps[0], key, disables, enables) && OrderlyBut(s1, steps[1], key, disables, enables);
  }

  /** `set_enable` for a restoration, as two steps with nothing between them. */
  lemma EnableAtOnce(cfg: Config, s: State, r: nat, key: Key, disables: bool, enables: bool)
    returns (states: seq<State>, steps: seq<Step>)
    requires r in s.enabling && s.enabling[r] == {key} && s.lb.tables != [] && r !in s.lb.requests
    requires enables || !OffClone(s, key)
    ensures OrderlyRun(cfg, states, steps, key, disables, enables) && steps == [Load(r, key, true), Enable(r, key)]
    ensures states[0] == s && states[2] == s.(enabling := s.enabling[r := {}], lb := s.lb.(
              tables := s.lb.tables[s.lb.Current() := Registry.WithEnabled(s.lb.tables[s.lb.Current()], key, true)]))
  {
    var registry, actions := R.SetEnableAtOnce(s.lb, r, key, true);
    var s1 := s.(lb := registry[1]);
    var s2 := s.(enabling := s.enabling[r := {}], lb := registry[2]);
    assert P.Next(registry[0], actions[0], registry[1]) && P.Next(registry[1], actions[1], registry[2]);
    assert {key} - {key} == {};
    assert Next(cfg, s, Load(r, key, true), s1) && Next(cfg, s1, Enable(r, key), s2);
    states, steps := [s, s1, s2], [Load(r, key, true), Enable(r, key)];
    assert OrderlyBut(s, steps[0], key, disables, enables) && OrderlyBut(s1, steps[1], key, disables, enables);
  }

  /** A peer choice that restores just `key`, with nothing between its steps. */
  lemma RestoreAtOnce(cfg: Config, s: State, r: nat, now: nat, key: Key, disables: bool, enables: bool)
    returns (states: seq<State>, steps: seq<Step>)
    requires cfg.enabled && r !in s.enabling && s.lb.tables != [] && r !in s.lb.requests
    requires KeysOf(Expired(s.tracker.ejections, now, |s.tracker.ejections|)) == {key}
    requires enables || !OffClone(s, key)
    ensures OrderlyRun(cfg, states, steps, key, disables, enables)
    ensures steps == [TakeOut(r, now), Load(r, key, true), Enable(r, key)]
    ensures states[0] == s && states[3] == s.(
              tracker := s.tracker.(ejections := Running(s.tracker.ejections, now, |s.tracker.ejections|)),
              enabling := s.enabling[r := {}],
              lb := s.lb.(tables :=
                s.lb.tables[s.lb.Current() := Registry.WithEnabled(s.lb.tables[s.lb.Current()], key, true)]))
  {
    var all := s.tracker.ejections;
    var s1 := s.(tracker := s.tracker.(ejections := Running(all, now, |all|)), enabling := s.enabling[r := {key}]);
    assert Next(cfg, s, TakeOut(r, now), s1) && OrderlyBut(s, TakeOut(r, now), key, disables, enables);
    states, steps := EnableAtOnce(cfg, s1, r, key, disables, enables);
    assert s1.enabling[r := {}] == s.enabling[r := {}];
    Concat(cfg, [s, s1], [TakeOut(r, now)], states, steps, key, disables, enables);
    states, steps := [s, s1] + states[1..], [TakeOut(r, now)] + steps;
  }

  /** A failure that ejects `b`, by request `r`. */
  function Recorded(cfg: Config, s: State, r: nat, b: Backend, now: nat): State {
    s.(tracker := Failed(cfg, s.tracker, b, now), disabling := s.disabling[r := Ejection(b, now + cfg.failTimeout)])
  }

  lemma RecordOnce(cfg: Config, s: State, r: nat, b: Backend, now: nat, disables: bool, enables: bool)
    requires cfg.enabled && cfg.Limit() == 1 && r !in s.disabling
    ensures OrderlyRun(cfg, [s, Recorded(cfg, s, r, b, now)], [Record(r, b, now)], b.key, disables, enables)
    ensures Recorded(cfg, s, r, b, now).tracker.ejections == s.tracker.ejections + [Ejection(b, now + cfg.failTimeout)]
    ensures Recorded(cfg, s, r, b, now).tracker.windows == s.tracker.windows - {b.id.addr}
  {
    assert Next(cfg, s, Record(r, b, now), Recorded(cfg, s, r, b, now));
    assert OrderlyBut(s, Record(r, b, now), b.key, disables, enables);
  }

  /** The start: an update has found `b`. */
  lemma Start(cfg: Config, s: State, b: Backend, disables: bool, enables: bool)
    returns (states: seq<State>, steps: seq<Step>)
    requires Init(s)
    ensures OrderlyRun(cfg, states, steps, b.key, disables, enables)
    ensures states[0] == s && states[|steps|] == s.(lb := R.WithOne(s.lb, b))
  {
    var registry, actions := R.FirstUpdate(s.lb, b);
    states, steps := Lift(cfg, s, registry, actions, b.key, disables, enables);
  }

  /** An update has found `b`, and a failure at 0 has ejected it. */
  function Ejected(cfg: Config, s: State, b: Backend, r: nat): State {
    Recorded(cfg, s.(lb := R.WithOne(s.lb, b)), r, b, 0)
  }

  lemma EjectOnce(cfg: Config, s: State, b: Backend, r: nat, disables: bool, enables: bool)
    returns (states: seq<State>, steps: seq<Step>)
    requires Init(s) && cfg.enabled && cfg.Limit() == 1
    ensures OrderlyRun(cfg, states, steps, b.key, disables, enables)
    ensures states[0] == s && states[|steps|] == Ejected(cfg, s, b, r)
    ensures Ejected(cfg, s, b, r).tracker.ejections == [Ejection(b, cfg.failTimeout)]
  {
    var s1, s2 := s.(lb := R.WithOne(s.lb, b)), Ejected(cfg, s, b, r);
    states, steps := Start(cfg, s, b, disables, enables);
    RecordOnce(cfg, s1, r, b, 0, disables, enables);
    Concat(cfg, states, steps, [s1, s2], [Record(r, b, 0)], b.key, disables, enables);
    states, steps := states + [s1, s2][1..], steps + [Record(r, b, 0)];
  }

  /** Nothing is in progress, and nothing is pending. */
  ghost predicate AtRest(s: State, key: Key) {
    s.lb.lock == P.Free && s.lb.bg == P.Idle && s.lb.requests == map[] && s.disabling == map[] && !Restorable(s, key)
  }

  lemma OneExpired(e: Ejection, now: nat)
    ensures e.until <= now ==> Expired([e], now, 1) == [e] && Running([e], now, 1) == []
    ensures KeysOf([e]) == {e.backend.key} && KeysOf([]) == {}
  {
    assert Expired([e], now, 0) == [] && Running([e], now, 0) == [];
  }

  /**
   * A request that ejects a backend and is then overtaken: a peer choice fail_timeout later takes the
   * entry out and enables the backend, and only then the request disables it. Every enabling is
   * effective; the backend stays off with nothing pending.
   */
  lemma DisabledTooLate(cfg: Config, s: State, b: Backend, r: nat, q: nat) returns (states: seq<State>, steps: seq<Step>)
    requires Init(s) && cfg.enabled && cfg.Limit() == 1
    ensures OrderlyRun(cfg, states, steps, b.key, true, false) && states[0] == s
    ensures AtRest(states[|steps|], b.key) && Stranded(states[|steps|], b.key)
  {
    var s2 := Ejected(cfg, s, b, r);
    var e := Ejection(b, cfg.failTimeout);
    states, steps := EjectOnce(cfg, s, b, r, true, false);
    OneExpired(e, cfg.failTimeout);
    var restoring, a := RestoreAtOnce(cfg, s2, q, cfg.failTimeout, b.key, true, false);
    Concat(cfg, states, steps, restoring, a, b.key, true, false);
    states, steps := states + restoring[1..], steps + a;
    var disabling, d := DisableAtOnce(cfg, restoring[3], r, b.key, true, false);
    Concat(cfg, states, steps, disabling, d, b.key, true, false);
    states, steps := states + disabling[1..], steps + d;
  }

  const OFF := HealthCheck.HealthInner(true, false, 0)

  /** An update has found `b`, and request `r` has ejected and disabled it. */
  ghost predicate EjectedAndOff(cfg: Config, s: State, b: Backend, s': State) {
    && s'.tracker.ejections == [Ejection(b, cfg.failTimeout)] && s'.disabling == map[] && s'.enabling == map[]
    && s'.lb == P.State(s.lb.healthCheck, P.Free, P.Idle, s.lb.strategy, R.WithOne(s.lb, b).selector,
                        R.WithOne(s.lb, b).backends, R.WithOne(s.lb, b).sets, [map[], map[b.key := OFF]], s.lb.next + 1, map[],
                        s.lb.readings + 1)
  }

  /** Switching the one cell of the current table. */
  lemma Switched(lb: P.State, key: Key, h: HealthCheck.HealthInner, on: bool)
    requires lb.tables == [map[], map[key := h]]
    ensures lb.tables[lb.Current() := Registry.WithEnabled(lb.tables[lb.Current()], key, on)]
              == [map[], map[key := h.(enabled := on)]]
  {
    assert map[key := h][key := h.(enabled := on)] == map[key := h.(enabled := on)];
  }

  lemma EjectAndSwitchOff(cfg: Config, s: State, b: Backend, r: nat) returns (states: seq<State>, steps: seq<Step>)
    requires Init(s) && cfg.enabled && cfg.Limit() == 1
    ensures OrderlyRun(cfg, states, steps, b.key, false, true)
    ensures states[0] == s && EjectedAndOff(cfg, s, b, states[|steps|])
  {
    var s1 := s.(lb := R.WithOne(s.lb, b));
    var s2 := Ejected(cfg, s, b, r);
    states, steps := EjectOnce(cfg, s, b, r, false, true);
    OneExpired(Ejection(b, cfg.failTimeout), cfg.failTimeout);
    var disabling, d := DisableAtOnce(cfg, s2, r, b.key, false, true);
    Concat(cfg, states, steps, disabling, d, b.key, false, true);
    states, steps := states + disabling[1..], steps + d;
    Switched(s1.lb, b.key, HealthCheck.DEFAULT, false);
  }

  lemma LoseEnable(cfg: Config, s: State, b: Backend, c: Backend, q: nat) returns (states: seq<State>, steps: seq<Step>)
    requires cfg.enabled && s.tracker.ejections == [Ejection(b, cfg.failTimeout)] && s.disabling == map[] && s.enabling == map[]
    requires s.lb.lock == P.Free && s.lb.bg == P.Idle && s.lb.requests == map[] && |s.lb.backends| == 1
    requires s.lb.tables == [map[], map[b.key := OFF]] && s.lb.backends[0] == b.(metrics := s.lb.backends[0].metrics)
    requires b.ext == map[] && Less(b.id, c.id) && b.key != c.key
    ensures OrderlyRun(cfg, states, steps, b.key, false, true) && states[0] == s
    ensures AtRest(states[|steps|], b.key) && Stranded(states[|steps|], b.key)
  {
    var first, f := R.CloneFirst(s.lb, b, c);
    states, steps := Lift(cfg, s, first, f, b.key, false, true);
    var s1 := s.(lb := R.Cloning(s.lb, b, c));
    OneExpired(Ejection(b, cfg.failTimeout), cfg.failTimeout);
    var restoring, e := RestoreAtOnce(cfg, s1, q, cfg.failTimeout, b.key, false, true);
    Concat(cfg, states, steps, restoring, e, b.key, false, true);
    states, steps := states + restoring[1..], steps + e;
    var s2 := restoring[3];
    Switched(s1.lb, b.key, OFF, true);
    var second, g := R.CloneSecond(s2.lb, b, c, OFF);
    var storing, h := Lift(cfg, s2, second, g, b.key, false, true);
    Concat(cfg, states, steps, storing, h, b.key, false, true);
    states, steps := states + storing[1..], steps + h;
  }

  /**
   * A request ejects and disables a backend in good time. Then an update clones the switched-off cell;
   * a peer choice fail_timeout after the ejection takes the entry out and enables the backend; and the
   * update stores its table. Every disabling is timely; the backend is off with nothing pending.
   */
  lemma EnabledInVain(cfg: Config, s: State, b: Backend, c: Backend, r: nat, q: nat)
    returns (states: seq<State>, steps: seq<Step>)
    requires Init(s) && cfg.enabled && cfg.Limit() == 1
    requires b.ext == map[] && Less(b.id, c.id) && b.key != c.key
    ensures OrderlyRun(cfg, states, steps, b.key, false, true) && states[0] == s
    ensures AtRest(states[|steps|], b.key) && Stranded(states[|steps|], b.key)
  {
    states, steps := EjectAndSwitchOff(cfg, s, b, r);
    var rest, a := LoseEnable(cfg, states[|steps|], b, c, q);
    Concat(cfg, states, steps, rest, a, b.key, false, true);
    states, steps := states + rest[1..], steps + a;
  }

  lemma TwoEntries(e: Ejection, x: Ejection, now: nat)
    requires e.until <= now < x.until
    ensures Expired([e, x], now, 2) == [e] && Running([e, x], now, 2) == [x] && KeysOf([e]) == {e.backend.key}
  {
    assert Expired([e, x], now, 0) == [] && Running([e, x], now, 0) == [];
    assert Expired([e, x], now, 1) == [e] && Running([e, x], now, 1) == [];
  }

  /** Two failures in flight have ejected `b`, at 0 and at 1. */
  lemma EjectTwice(cfg: Config, s: State, b: Backend, r: nat, r': nat) returns (states: seq<State>, steps: seq<Step>)
    requires Init(s) && cfg.enabled && cfg.Limit() == 1 && r != r'
    ensures OrderlyRun(cfg, states, steps, b.key, false, false) && states[0] == s
    ensures var s' := states[|steps|];
            && s'.tracker.ejections == [Ejection(b, cfg.failTimeout), Ejection(b, cfg.failTimeout + 1)]
            && s'.disabling == map[r := Ejection(b, cfg.failTimeout), r' := Ejection(b, cfg.failTimeout + 1)]
            && s'.enabling == map[] && s'.lb == R.WithOne(s.lb, b)
  {
    var s2 := Ejected(cfg, s, b, r);
    var s3 := Recorded(cfg, s2, r', b, 1);
    states, steps := EjectOnce(cfg, s, b, r, false, false);
    RecordOnce(cfg, s2, r', b, 1, false, false);
    Concat(cfg, states, steps, [s2, s3], [Record(r', b, 1)], b.key, false, false);
    states, steps := states + [s2, s3][1..], steps + [Record(r', b, 1)];
  }

  /**
   * Both of the requests disable the backend. A peer choice at fail_timeout finds only the first entry
   * expired, and enables the backend although the second ejection is still running.
   */
  lemma OlderEntryRestores(cfg: Config, s: State, b: Backend, r: nat, r': nat, q: nat)
    returns (states: seq<State>, steps: seq<Step>)
    requires Init(s) && cfg.enabled && cfg.Limit() == 1 && r != r'
    ensures OrderlyRun(cfg, states, steps, b.key, false, false) && states[0] == s
    ensures P.CellIs(states[|steps|].lb, b.key, true)
    ensures Ejection(b, cfg.failTimeout + 1) in states[|steps|].tracker.ejections
    ensures steps[|steps| - 1] == Enable(q, b.key) && steps[|steps| - 3] == TakeOut(q, cfg.failTimeout)
  {
    states, steps := EjectTwice(cfg, s, b, r, r');
    var older, newer := Ejection(b, cfg.failTimeout), Ejection(b, cfg.failTimeout + 1);
    assert older in states[|steps|].tracker.ejections;
    var one, d := DisableAtOnce(cfg, states[|steps|], r, b.key, false, false);
    Concat(cfg, states, steps, one, d, b.key, false, false);
    states, steps := states + one[1..], steps + d;
    var two, d' := DisableAtOnce(cfg, one[2], r', b.key, false, false);
    Concat(cfg, states, steps, two, d', b.key, false, false);
    states, steps := states + two[1..], steps + d';

    TwoEntries(older, newer, cfg.failTimeout);
    var restoring, e := RestoreAtOnce(cfg, two[2], q, cfg.failTimeout, b.key, false, false);
    Concat(cfg, states, steps, restoring, e, b.key, false, false);
    states, steps := states + restoring[1..], steps + e;
  }
}
