/**
 * Ejecting and restoring a backend, step by step (proxy.rs:653-658, 784-790, mod.rs:275-280). A
 * failed connect first records the failure and only then disables the backend; a peer choice first
 * takes the expired entries and only then enables their backends. Both go through `set_enable`, which
 * loads a health table and then switches a cell of it, while updates replace the table and other
 * requests run in between.
 */
module Restoration {
  import opened Core
  import opened PassiveHealth
  import Registry
  import Failover
  import P = Protocol

  /**
   * `disabling`: ejections recorded by requests that have not disabled the backend yet.
   * `enabling`: keys that requests have taken out and have not enabled yet.
   */
  datatype State = State(
    tracker: Tracker,
    disabling: map<nat, Ejection>,
    enabling: map<nat, set<Key>>,
    lb: P.State)

  /** `Load` is the table load of a `set_enable`, `Disable` and `Enable` are its second step. */
  datatype Step =
    | Record(request: nat, backend: Backend, now: nat)
    | Success(backend: Backend)
    | TakeOut(request: nat, now: nat)
    | Load(request: nat, key: Key, on: bool)
    | Disable(request: nat)
    | Enable(request: nat, key: Key)
    | Other(action: P.Action)

  function KeysOf(ejections: seq<Ejection>): set<Key> {
    set e | e in ejections :: e.backend.key
  }

  /** Request `r` has loaded the table for a `set_enable` of `key` and now switches the cell. */
  ghost predicate Toggled(lb: P.State, r: nat, key: Key, on: bool, lb': P.State) {
    && lb.tables != [] && r in lb.requests && lb.requests[r].Toggling?
    && lb.requests[r].key == key && lb.requests[r].on == on
    && P.RequestStep(lb, P.Toggle(r), lb')
  }

  ghost predicate Next(cfg: Config, s: State, a: Step, s': State) {
    match a
    case Record(r, b, now) =>
      && r !in s.disabling
      && s' == s.(tracker := Failed(cfg, s.tracker, b, now),
                  disabling := if Ejects(cfg, s.tracker, b, now)
                               then s.disabling[r := Ejection(b, now + cfg.failTimeout)] else s.disabling)
    case Success(b) =>
      s' == s.(tracker := Succeeded(cfg, s.tracker, b))
    case TakeOut(r, now) =>
      && cfg.enabled && (r in s.enabling ==> s.enabling[r] == {})
      && var all := s.tracker.ejections;
         s' == s.(tracker := s.tracker.(ejections := Running(all, now, |all|)),
                  enabling := s.enabling[r := KeysOf(Expired(all, now, |all|))])
    case Load(r, key, on) =>
      && (if on then r in s.enabling && key in s.enabling[r]
          else r in s.disabling && s.disabling[r].backend.key == key)
      && s.lb.tables != [] && P.RequestStep(s.lb, P.LoadTable(r, key, on), s'.lb)
      && s' == s.(lb := s'.lb)
    case Disable(r) =>
      && r in s.disabling && Toggled(s.lb, r, s.disabling[r].backend.key, false, s'.lb)
      && s' == s.(disabling := s.disabling - {r}, lb := s'.lb)
    case Enable(r, key) =>
      && r in s.enabling && key in s.enabling[r] && Toggled(s.lb, r, key, true, s'.lb)
      && s' == s.(enabling := s.enabling[r := s.enabling[r] - {key}], lb := s'.lb)
    case Other(action) =>
      && !action.LoadTable? && !action.Toggle?
      && (action.Forget? && action.request in s.lb.requests ==> !s.lb.requests[action.request].Toggling?)
      && P.Next(s.lb, action, s'.lb)
      && s' == s.(lb := s'.lb)
  }

  ghost predicate Init(s: State) {
    s.tracker == Tracker(map[], []) && s.disabling == map[] && s.enabling == map[] && P.Init(s.lb)
  }

  ghost predicate Run(cfg: Config, states: seq<State>, steps: seq<Step>) {
    && |states| == |steps| + 1
    && forall i | 0 <= i < |steps| :: Next(cfg, states[i], steps[i], states[i + 1])
  }

  // ---------------------------------------------------------------------------------------------
  // Disabled implies pending.

  /** The backend is switched off in the health table of the moment. */
  ghost predicate Disabled(s: State, key: Key) { P.CellIs(s.lb, key, false) }

  /** A running update is about to store a switched-off copy of the cell. */
  ghost predicate OffClone(s: State, key: Key) { P.Cloned(s.lb, key) && !P.Clone(s.lb, key).enabled }

  ghost predicate Taken(s: State, r: nat, key: Key) { r in s.enabling && key in s.enabling[r] }

  /** Something is still going to enable `key`: a pending entry, or a request that took one. */
  ghost predicate Restorable(s: State, key: Key) {
    key in KeysOf(s.tracker.ejections) || exists r :: Taken(s, r, key)
  }

  ghost predicate Stranded(s: State, key: Key) { Disabled(s, key) && !Restorable(s, key) }

  ghost predicate Safe(s: State, key: Key) { Disabled(s, key) || OffClone(s, key) ==> Restorable(s, key) }

  /** The `set_enable` in progress by request `r` has loaded the table that is still the current one. */
  ghost predicate HoldsCurrent(s: State, r: nat) {
    && s.lb.tables != [] && r in s.lb.requests && s.lb.requests[r].Toggling?
    && s.lb.requests[r].table == s.lb.Current()
  }

  /** `key` has a pending entry, or was taken by another request than `r`. */
  ghost predicate OtherwiseRestorable(s: State, r: nat, key: Key) {
    key in KeysOf(s.tracker.ejections) || exists q :: q != r && Taken(s, q, key)
  }

  /** Switching off: there is still something to restore the backend, or the switch hits an old table. */
  ghost predicate TimelyDisable(s: State, r: nat, key: Key) {
    Restorable(s, key) || !HoldsCurrent(s, r) || key !in s.lb.tables[s.lb.Current()]
  }

  /** Switching on hits the current table, and no update is about to store a switched-off copy; or there is a second chance. */
  ghost predicate EffectiveEnable(s: State, r: nat, key: Key) {
    OtherwiseRestorable(s, r, key) || ((Disabled(s, key) ==> HoldsCurrent(s, r)) && !OffClone(s, key))
  }

  /** Timely disablings and effective enablings; and discovery does not switch a backend off. */
  ghost predicate Orderly(s: State, a: Step, key: Key) {
    match a
    case Disable(r) => r in s.disabling && s.disabling[r].backend.key == key ==> TimelyDisable(s, r, key)
    case Enable(r, k) => k == key ==> EffectiveEnable(s, r, key)
    case Other(OverrideOne(k)) => k == key && s.lb.bg.Overriding? && key in s.lb.bg.rest ==> s.lb.bg.rest[key]
    case Other(AdoptOne(b, _)) =>
      b.key == key && s.lb.bg.Adopting? && key in s.lb.bg.enablement ==> s.lb.bg.enablement[key]
    case _ => true
  }

  /** An entry of `key` has expired or is still running. */
  lemma SplitKeys(all: seq<Ejection>, now: nat, key: Key)
    ensures key in KeysOf(all) <==> key in KeysOf(Expired(all, now, |all|)) || key in KeysOf(Running(all, now, |all|))
    ensures key in KeysOf(Expired(all, now, |all|)) <==> exists e :: e in all && e.backend.key == key && e.until <= now
    ensures key in KeysOf(Running(all, now, |all|)) <==> exists e :: e in all && e.backend.key == key && e.until > now
  {
    forall e
      ensures e in Expired(all, now, |all|) <==> e.until <= now && e in all
      ensures e in Running(all, now, |all|) <==> e.until > now && e in all
    {
      ExpiredHas(all, now, |all|, e);
      assert all[..|all|] == all;
    }
  }

  lemma TakeOutKeepsRestorable(cfg: Config, s: State, r: nat, now: nat, s': State, key: Key)
    requires Next(cfg, s, TakeOut(r, now), s')
    ensures Restorable(s, key) <==> Restorable(s', key)
  {
    SplitKeys(s.tracker.ejections, now, key);
    if q :| Taken(s, q, key) { assert Taken(s', q, key); }
    if q :| Taken(s', q, key) { assert q != r ==> Taken(s, q, key); }
    if key in KeysOf(Expired(s.tracker.ejections, now, |s.tracker.ejections|)) { assert Taken(s', r, key); }
  }

  /** Only enabling a key ends its being restorable. */
  lemma StepKeepsRestorable(cfg: Config, s: State, a: Step, s': State, key: Key)
    requires Next(cfg, s, a, s') && Restorable(s, key) && !(a.Enable? && a.key == key)
    ensures Restorable(s', key)
  {
    match a
    case TakeOut(r, now) => TakeOutKeepsRestorable(cfg, s, r, now, s', key);
    case Record(r, b, now) =>
      assert forall e | e in s.tracker.ejections :: e in s'.tracker.ejections;
      if q :| Taken(s, q, key) { assert Taken(s', q, key); }
    case _ =>
      if q :| Taken(s, q, key) { assert Taken(s', q, key); }
  }

  /** Only a failure that ejects the key makes it restorable. */
  lemma StepKeepsUnrestorable(cfg: Config, s: State, a: Step, s': State, key: Key)
    requires Next(cfg, s, a, s') && !Restorable(s, key)
    requires !(a.Record? && a.backend.key == key && Ejects(cfg, s.tracker, a.backend, a.now))
    ensures !Restorable(s', key)
  {
    match a
    case TakeOut(r, now) => TakeOutKeepsRestorable(cfg, s, r, now, s', key);
    case Record(r, b, now) =>
      assert forall e | e in s'.tracker.ejections :: e in s.tracker.ejections || e == Ejection(b, now + cfg.failTimeout);
      if q :| Taken(s', q, key) { assert Taken(s, q, key); }
    case _ =>
      if q :| Taken(s', q, key) { assert Taken(s, q, key); }
  }

  /** Steps of the balancer switch a backend off, or prepare to, only where it was off already or discovery says so. */
  lemma OtherSwitchesNoneOff(cfg: Config, s: State, action: P.Action, s': State, key: Key)
    requires Next(cfg, s, Other(action), s') && Orderly(s, Other(action), key)
    ensures Disabled(s', key) || OffClone(s', key) ==> Disabled(s, key) || OffClone(s, key)
  {
    if !P.BackgroundStep(s.lb, action, s'.lb) {
      assert s'.lb.tables == s.lb.tables && s'.lb.bg == s.lb.bg;
    }
  }

  lemma DisableStep(cfg: Config, s: State, r: nat, s': State, key: Key)
    requires Next(cfg, s, Disable(r), s')
    ensures Disabled(s', key) <==>
              || Disabled(s, key)
              || (s.disabling[r].backend.key == key && HoldsCurrent(s, r) && key in s.lb.tables[s.lb.Current()])
    ensures OffClone(s', key) <==> OffClone(s, key)
    ensures Restorable(s', key) <==> Restorable(s, key)
  {
    if q :| Taken(s, q, key) { assert Taken(s', q, key); }
    if q :| Taken(s', q, key) { assert Taken(s, q, key); }
  }

  lemma EnableStep(cfg: Config, s: State, r: nat, k: Key, s': State, key: Key)
    requires Next(cfg, s, Enable(r, k), s')
    ensures Disabled(s', key) <==> Disabled(s, key) && !(k == key && HoldsCurrent(s, r))
    ensures OffClone(s', key) <==> OffClone(s, key)
    ensures Restorable(s', key) <==> if k == key then OtherwiseRestorable(s, r, key) else Restorable(s, key)
  {
    if q :| Taken(s, q, key) && (q != r || k != key) { assert Taken(s', q, key); }
    if q :| Taken(s', q, key) { assert Taken(s, q, key) && (q != r || k != key); }
  }

  /** Exactly the timely disablings and the effective enablings of a backend keep it safe. */
  lemma SwitchesKeepSafeIff(cfg: Config, s: State, a: Step, s': State, key: Key)
    requires Next(cfg, s, a, s') && Safe(s, key)
    requires (a.Enable? && a.key == key) || (a.Disable? && s.disabling[a.request].backend.key == key)
    ensures Safe(s', key) <==> Orderly(s, a, key)
  {
    if a.Enable? { EnableStep(cfg, s, a.request, a.key, s', key); } else { DisableStep(cfg, s, a.request, s', key); }
  }

  lemma OrderlyStepKeepsSafe(cfg: Config, s: State, a: Step, s': State, key: Key)
    requires Next(cfg, s, a, s') && Safe(s, key) && Orderly(s, a, key)
    ensures Safe(s', key)
  {
    match a
    case Disable(r) => DisableStep(cfg, s, r, s', key);
    case Enable(r, k) => EnableStep(cfg, s, r, k, s', key);
    case Other(action) =>
      OtherSwitchesNoneOff(cfg, s, action, s', key);
      if Restorable(s, key) { StepKeepsRestorable(cfg, s, a, s', key); }
    case _ =>
      if Restorable(s, key) {
        StepKeepsRestorable(cfg, s, a, s', key);
      }
  }

  /** Orderly runs keep a switched-off backend restorable. */
  lemma {:induction false} OrderlyImpliesPending(cfg: Config, states: seq<State>, steps: seq<Step>, key: Key, n: nat)
    requires Run(cfg, states, steps) && n <= |steps| && Init(states[0])
    requires forall i | 0 <= i < n :: Orderly(states[i], steps[i], key)
    ensures Safe(states[n], key)
  {
    if n > 0 {
      OrderlyImpliesPending(cfg, states, steps, key, n - 1);
      OrderlyStepKeepsSafe(cfg, states[n - 1], steps[n - 1], states[n], key);
    }
  }

  // ---------------------------------------------------------------------------------------------
  // What there is to restore a backend, read off the history of a run.

  /** Step `m` records a failure that ejects `key`. */
  ghost predicate EjectsAtStep(cfg: Config, states: seq<State>, steps: seq<Step>, key: Key, m: int) {
    && 0 <= m < |steps| && |states| == |steps| + 1
    && steps[m].Record? && steps[m].backend.key == key
    && Ejects(cfg, states[m].tracker, steps[m].backend, steps[m].now)
  }

  /** When the ejection recorded by step `m` ends. */
  function EndOf(cfg: Config, steps: seq<Step>, m: nat): nat
    requires m < |steps| && steps[m].Record?
  {
    steps[m].now + cfg.failTimeout
  }

  /** Step `i` is a peer choice that reads a clock at or past `until`. */
  predicate TakesOut(steps: seq<Step>, until: nat, i: int) {
    0 <= i < |steps| && steps[i].TakeOut? && steps[i].now >= until
  }

  ghost predicate NoneTakesOut(steps: seq<Step>, until: nat, m: int, n: int) {
    forall i | m < i < n :: !TakesOut(steps, until, i)
  }

  /** Step `i` is the first such peer choice after step `m`. */
  ghost predicate FirstTakesOut(steps: seq<Step>, until: nat, m: int, i: int) {
    m < i && TakesOut(steps, until, i) && NoneTakesOut(steps, until, m, i)
  }

  ghost predicate NotYetEnabled(steps: seq<Step>, r: nat, key: Key, i: int, n: int)
    requires n <= |steps|
  {
    forall j | 0 <= i < j < n :: steps[j] != Enable(r, key)
  }

  /**
   * The ejection recorded by step `m` is still to be ended before step `n`: no peer choice has read a
   * clock at or past its end yet, or the first that did has not enabled the backend since.
   */
  ghost predicate Outstanding(cfg: Config, states: seq<State>, steps: seq<Step>, key: Key, m: int, n: int)
    requires n <= |steps|
  {
    && m < n && EjectsAtStep(cfg, states, steps, key, m)
    && (|| NoneTakesOut(steps, EndOf(cfg, steps, m), m, n)
        || exists i | i < n :: FirstTakesOut(steps, EndOf(cfg, steps, m), m, i) && NotYetEnabled(steps, steps[i].request, key, i, n))
  }

  /** A pending entry stems from an ejection whose end no peer choice has seen. */
  lemma {:induction false} EntryOrigin(cfg: Config, states: seq<State>, steps: seq<Step>, key: Key, n: nat, e: Ejection)
    returns (m: nat)
    requires Run(cfg, states, steps) && n <= |steps| && key !in KeysOf(states[0].tracker.ejections)
    requires e in states[n].tracker.ejections && e.backend.key == key
    ensures m < n && EjectsAtStep(cfg, states, steps, key, m) && EndOf(cfg, steps, m) == e.until
    ensures NoneTakesOut(steps, e.until, m, n)
  {
    assert key in KeysOf(states[n].tracker.ejections);
    if n > 0 {
      var s, a := states[n - 1], steps[n - 1];
      assert Next(cfg, s, a, states[n]);
      if a.TakeOut? {
        ExpiredHas(s.tracker.ejections, a.now, |s.tracker.ejections|, e);
        assert s.tracker.ejections[..|s.tracker.ejections|] == s.tracker.ejections;
      }
      if e in s.tracker.ejections {
        m := EntryOrigin(cfg, states, steps, key, n - 1, e);
      } else {
        m := n - 1;
      }
    }
  }

  /** A request about to enable the key took out an ejection whose end no earlier peer choice had seen. */
  lemma {:induction false} TakenOrigin(cfg: Config, states: seq<State>, steps: seq<Step>, key: Key, n: nat, r: nat)
    returns (m: nat, i: nat)
    requires Run(cfg, states, steps) && n <= |steps| && !Restorable(states[0], key) && Taken(states[n], r, key)
    ensures m < i < n && EjectsAtStep(cfg, states, steps, key, m)
    ensures FirstTakesOut(steps, EndOf(cfg, steps, m), m, i) && steps[i].request == r
    ensures NotYetEnabled(steps, r, key, i, n)
  {
    if n > 0 {
      var s, a := states[n - 1], steps[n - 1];
      assert Next(cfg, s, a, states[n]);
      if Taken(s, r, key) {
        m, i := TakenOrigin(cfg, states, steps, key, n - 1, r);
      } else {
        var all := s.tracker.ejections;
        SplitKeys(all, a.now, key);
        var e :| e in all && e.backend.key == key && e.until <= a.now;
        m := EntryOrigin(cfg, states, steps, key, n - 1, e);
        i := n - 1;
      }
    }
  }

  /** A recorded ejection stays pending while no peer choice reads a clock at or past its end. */
  lemma {:induction false} EntryStays(cfg: Config, states: seq<State>, steps: seq<Step>, key: Key, m: nat, n: nat)
    requires Run(cfg, states, steps) && m < n <= |steps| && EjectsAtStep(cfg, states, steps, key, m)
    requires NoneTakesOut(steps, EndOf(cfg, steps, m), m, n)
    ensures Ejection(steps[m].backend, EndOf(cfg, steps, m)) in states[n].tracker.ejections
    decreases n
  {
    var e, s, a := Ejection(steps[m].backend, EndOf(cfg, steps, m)), states[n - 1], steps[n - 1];
    assert Next(cfg, s, a, states[n]);
    if m < n - 1 {
      EntryStays(cfg, states, steps, key, m, n - 1);
      assert !TakesOut(steps, e.until, n - 1);
      if a.TakeOut? {
        ExpiredHas(s.tracker.ejections, a.now, |s.tracker.ejections|, e);
        assert s.tracker.ejections[..|s.tracker.ejections|] == s.tracker.ejections;
      }
    }
  }

  /** A request that took the key out is about to enable it until it does. */
  lemma {:induction false} TakenStays(cfg: Config, states: seq<State>, steps: seq<Step>, key: Key, m: nat, i: nat, n: nat)
    requires Run(cfg, states, steps) && m < i < n <= |steps| && EjectsAtStep(cfg, states, steps, key, m)
    requires FirstTakesOut(steps, EndOf(cfg, steps, m), m, i) && NotYetEnabled(steps, steps[i].request, key, i, n)
    ensures Taken(states[n], steps[i].request, key)
    decreases n
  {
    var s, a := states[n - 1], steps[n - 1];
    assert Next(cfg, s, a, states[n]);
    if i == n - 1 {
      EntryStays(cfg, states, steps, key, m, i);
      SplitKeys(s.tracker.ejections, a.now, key);
    } else {
      TakenStays(cfg, states, steps, key, m, i, n - 1);
      assert a != Enable(steps[i].request, key);
    }
  }

  lemma OutstandingIsRestorable(cfg: Config, states: seq<State>, steps: seq<Step>, key: Key, m: int, n: nat)
    requires Run(cfg, states, steps) && n <= |steps| && Outstanding(cfg, states, steps, key, m, n)
    ensures Restorable(states[n], key)
  {
    if NoneTakesOut(steps, EndOf(cfg, steps, m), m, n) {
      EntryStays(cfg, states, steps, key, m, n);
    } else {
      var i :| i < n && FirstTakesOut(steps, EndOf(cfg, steps, m), m, i) && NotYetEnabled(steps, steps[i].request, key, i, n);
      TakenStays(cfg, states, steps, key, m, i, n);
    }
  }

  /**
   * At any point of any run there is something to restore a backend exactly when one of its ejections
   * is outstanding.
   */
  lemma RestorableIff(cfg: Config, states: seq<State>, steps: seq<Step>, key: Key, n: nat)
    requires Run(cfg, states, steps) && n <= |steps| && !Restorable(states[0], key)
    ensures Restorable(states[n], key) <==> exists m :: Outstanding(cfg, states, steps, key, m, n)
  {
    if key in KeysOf(states[n].tracker.ejections) {
      var e :| e in states[n].tracker.ejections && e.backend.key == key;
      var m := EntryOrigin(cfg, states, steps, key, n, e);
      assert Outstanding(cfg, states, steps, key, m, n);
    } else if r :| Taken(states[n], r, key) {
      var m, i := TakenOrigin(cfg, states, steps, key, n, r);
      assert Outstanding(cfg, states, steps, key, m, n);
    }
    if m :| Outstanding(cfg, states, steps, key, m, n) {
      OutstandingIsRestorable(cfg, states, steps, key, m, n);
    }
  }

  // ---------------------------------------------------------------------------------------------
  // The first way to strand a backend: disabling it too late.

  /**
   * A request that disables a backend in the current table strands it exactly when none of the
   * backend's ejections is outstanding: of each of them, some peer choice has read a clock at or past
   * the end, and the first that did has enabled the backend already.
   */
  lemma LateDisableStrandsIff(cfg: Config, states: seq<State>, steps: seq<Step>, key: Key, n: nat, r: nat)
    requires Run(cfg, states, steps) && n < |steps| && !Restorable(states[0], key)
    requires steps[n] == Disable(r) && r in states[n].disabling && states[n].disabling[r].backend.key == key
    requires HoldsCurrent(states[n], r) && key in states[n].lb.tables[states[n].lb.Current()]
    ensures Stranded(states[n + 1], key) <==> !exists m :: Outstanding(cfg, states, steps, key, m, n)
  {
    assert Next(cfg, states[n], steps[n], states[n + 1]);
    RestorableIff(cfg, states, steps, key, n);
    DisableStep(cfg, states[n], r, states[n + 1], key);
  }

  /**
   * A disabling of the backend by step `n` is prompt: its ejection was recorded by some step, and no
   * peer choice between has read a clock fail_timeout past the recorded failure.
   */
  ghost predicate PromptDisable(cfg: Config, states: seq<State>, steps: seq<Step>, key: Key, n: int) {
    exists m | 0 <= m < n < |steps| :: EjectsAtStep(cfg, states, steps, key, m) && NoneTakesOut(steps, EndOf(cfg, steps, m), m, n)
  }

  /** Prompt disablings are timely, whatever else happens to the backend. */
  lemma PromptDisableIsTimely(cfg: Config, states: seq<State>, steps: seq<Step>, key: Key, n: nat)
    requires Run(cfg, states, steps) && n < |steps| && PromptDisable(cfg, states, steps, key, n)
    ensures Restorable(states[n], key)
  {
    var m :| 0 <= m < n && EjectsAtStep(cfg, states, steps, key, m) && NoneTakesOut(steps, EndOf(cfg, steps, m), m, n);
    EntryStays(cfg, states, steps, key, m, n);
  }

  /**
   * Step `n` treats the backend properly: a disabling is prompt, an enabling effective, and discovery
   * does not switch the backend off.
   */
  ghost predicate Proper(cfg: Config, states: seq<State>, steps: seq<Step>, key: Key, n: nat)
    requires n < |steps| < |states|
  {
    var s, a := states[n], steps[n];
    if a.Disable? then
      a.request in s.disabling && s.disabling[a.request].backend.key == key ==> PromptDisable(cfg, states, steps, key, n)
    else Orderly(s, a, key)
  }

  /**
   * Over any run of requests, updates, switches and probes that treats a backend properly: while it
   * is switched off it has a pending entry or is just being enabled.
   */
  lemma DisabledImpliesPending(cfg: Config, states: seq<State>, steps: seq<Step>, key: Key, n: nat)
    requires Run(cfg, states, steps) && n <= |steps| && Init(states[0])
    requires forall i | 0 <= i < n :: Proper(cfg, states, steps, key, i)
    ensures Safe(states[n], key)
  {
    forall i | 0 <= i < n ensures Orderly(states[i], steps[i], key) {
      assert Proper(cfg, states, steps, key, i);
      if PromptDisable(cfg, states, steps, key, i) { PromptDisableIsTimely(cfg, states, steps, key, i); }
    }
    OrderlyImpliesPending(cfg, states, steps, key, n);
  }

  // ---------------------------------------------------------------------------------------------
  // The second way: an enabling that is lost.

  /** What a step means for the registry, if it is not a step of the tracker alone. */
  function Action(a: Step): Option<P.Action> {
    match a
    case Load(r, key, on) => Some(P.LoadTable(r, key, on))
    case Disable(r) => Some(P.Toggle(r))
    case Enable(r, _) => Some(P.Toggle(r))
    case Other(action) => Some(action)
    case _ => None
  }

  /**
   * The step neither ejects the backend nor switches it, and discovery neither overrides it nor drops
   * it; an update adopts it at most once.
   */
  ghost predicate LeavesAlone(cfg: Config, s: State, a: Step, key: Key) {
    && s.lb.tables != [] && !P.Dropped(s.lb, key)
    && (Action(a).Some? ==> P.Quiet(s.lb, Action(a).value, key))
    && (a.Record? && a.backend.key == key ==> !Ejects(cfg, s.tracker, a.backend, a.now))
  }

  lemma NextOfRegistry(cfg: Config, s: State, a: Step, s': State)
    requires Next(cfg, s, a, s')
    ensures if Action(a).Some? then P.Next(s.lb, Action(a).value, s'.lb) else s'.lb == s.lb
  {
  }

  lemma {:induction false} StaysUnrestorable(cfg: Config, states: seq<State>, steps: seq<Step>, key: Key, n: nat)
    requires Run(cfg, states, steps) && n <= |steps| && !Restorable(states[0], key)
    requires forall i | 0 <= i < |steps| :: LeavesAlone(cfg, states[i], steps[i], key)
    ensures !Restorable(states[n], key)
  {
    if n > 0 {
      StaysUnrestorable(cfg, states, steps, key, n - 1);
      assert LeavesAlone(cfg, states[n - 1], steps[n - 1], key);
      StepKeepsUnrestorable(cfg, states[n - 1], steps[n - 1], states[n], key);
    }
  }

  /** The registry's part of a run. */
  lemma QuietRegistry(cfg: Config, states: seq<State>, steps: seq<Step>, key: Key)
    returns (registry: seq<P.State>, actions: seq<P.Action>)
    requires Run(cfg, states, steps) && !P.Dropped(states[|steps|].lb, key)
    requires forall i | 0 <= i < |steps| :: LeavesAlone(cfg, states[i], steps[i], key)
    ensures P.QuietRun(registry, actions, key) && |actions| == |steps|
    ensures registry[0] == states[0].lb && registry[|steps|] == states[|steps|].lb
  {
    registry := seq(|states|, i requires 0 <= i < |states| => states[i].lb);
    actions := seq(|steps|, i requires 0 <= i < |steps| =>
      if Action(steps[i]).Some? then Action(steps[i]).value else P.Compare);
    forall i | 0 <= i < |registry| ensures !P.Dropped(registry[i], key) {
      assert i < |steps| ==> LeavesAlone(cfg, states[i], steps[i], key);
    }
    forall i | 0 <= i < |actions| ensures P.QuietStep(registry[i], actions[i], registry[i + 1], key) {
      assert LeavesAlone(cfg, states[i], steps[i], key);
      NextOfRegistry(cfg, states[i], steps[i], states[i + 1]);
    }
  }

  /**
   * A request enables a backend and with that uses up what was to restore it. In any later run that
   * leaves the backend alone, up to a point where the background task is idle, the backend ends up
   * stranded exactly when the table that the request loaded is no longer the current one or a running
   * update has already cloned the switched-off cell.
   */
  lemma LostEnableStrandsIff(cfg: Config, s: State, r: nat, key: Key, states: seq<State>, steps: seq<Step>)
    requires Run(cfg, states, steps) && Next(cfg, s, Enable(r, key), states[0]) && !OtherwiseRestorable(s, r, key)
    requires Disabled(s, key) && (P.Cloned(s.lb, key) ==> OffClone(s, key))
    requires forall i | 0 <= i < |steps| :: LeavesAlone(cfg, states[i], steps[i], key)
    requires states[|steps|].lb.bg == P.Idle && !P.Dropped(states[|steps|].lb, key)
    ensures Stranded(states[|steps|], key) <==> !HoldsCurrent(s, r) || P.Cloned(s.lb, key)
  {
    EnableStep(cfg, s, r, key, states[0], key);
    StaysUnrestorable(cfg, states, steps, key, |steps|);
    var registry, actions := QuietRegistry(cfg, states, steps, key);
    P.SetEnableLastsIff(s.lb, r, registry, actions, key, true);
  }

  /** Either way, a stranded backend stays so in any run that leaves it alone. */
  lemma StrandedStays(cfg: Config, states: seq<State>, steps: seq<Step>, key: Key)
    requires Run(cfg, states, steps) && Stranded(states[0], key) && (P.Cloned(states[0].lb, key) ==> OffClone(states[0], key))
    requires forall i | 0 <= i < |steps| :: LeavesAlone(cfg, states[i], steps[i], key)
    requires !P.Dropped(states[|steps|].lb, key)
    ensures Stranded(states[|steps|], key)
  {
    StaysUnrestorable(cfg, states, steps, key, |steps|);
    var registry, actions := QuietRegistry(cfg, states, steps, key);
    P.QuietRunKeepsSettled(registry, actions, key, false, |steps|);
  }

  // ---------------------------------------------------------------------------------------------
  // A third way: nobody looks any more.

  /** A peer choice that finds an entry of `key` expired. */
  ghost predicate TakesEntry(s: State, a: Step, key: Key) {
    a.TakeOut? && exists e :: e in s.tracker.ejections && e.backend.key == key && e.until <= a.now
  }

  /** The step leaves the backend alone, or enables it in the current table with no switched-off copy under way. */
  ghost predicate LeavesAloneOrEnables(cfg: Config, s: State, a: Step, key: Key) {
    LeavesAlone(cfg, s, a, key) || (a.Enable? && a.key == key && HoldsCurrent(s, a.request) && !OffClone(s, key))
  }

  lemma {:induction false} StaysOffUntaken(cfg: Config, states: seq<State>, steps: seq<Step>, key: Key, k: nat)
    requires Run(cfg, states, steps) && k <= |steps| && Disabled(states[0], key)
    requires (P.Cloned(states[0].lb, key) ==> OffClone(states[0], key)) && forall q :: !Taken(states[0], q, key)
    requires forall i | 0 <= i < |steps| :: LeavesAloneOrEnables(cfg, states[i], steps[i], key)
    requires forall i | 0 <= i < k :: !TakesEntry(states[i], steps[i], key)
    requires forall i | 0 <= i < |states| :: !P.Dropped(states[i].lb, key)
    ensures P.Settled(states[k].lb, key, false) && forall q :: !Taken(states[k], q, key)
  {
    if k > 0 {
      StaysOffUntaken(cfg, states, steps, key, k - 1);
      var s, a, s' := states[k - 1], steps[k - 1], states[k];
      assert Next(cfg, s, a, s') && LeavesAloneOrEnables(cfg, s, a, key) && !TakesEntry(s, a, key);
      assert !P.Dropped(s'.lb, key);
      assert a.Enable? ==> Taken(s, a.request, a.key);
      NextOfRegistry(cfg, s, a, s');
      if Action(a).Some? { P.QuietKeepsSettled(s.lb, Action(a).value, s'.lb, key, false); }
      if a.TakeOut? { SplitKeys(s.tracker.ejections, a.now, key); }
      forall q ensures !Taken(s', q, key) {
        assert !Taken(s, q, key);
      }
    }
  }

  ghost predicate On(s: State, key: Key) { !Disabled(s, key) && !OffClone(s, key) }

  lemma StepKeepsOn(cfg: Config, s: State, a: Step, s': State, key: Key)
    requires Next(cfg, s, a, s') && LeavesAloneOrEnables(cfg, s, a, key) && On(s, key)
    ensures On(s', key)
  {
    match a
    case Disable(r) => DisableStep(cfg, s, r, s', key);
    case Enable(r, k) => EnableStep(cfg, s, r, k, s', key);
    case Other(action) => OtherSwitchesNoneOff(cfg, s, action, s', key);
    case _ =>
  }

  /** A request that took the key out still has it, or has enabled the backend. */
  lemma TakenOrOn(cfg: Config, s: State, a: Step, s': State, key: Key)
    requires Next(cfg, s, a, s') && LeavesAloneOrEnables(cfg, s, a, key) && exists q :: Taken(s, q, key)
    ensures On(s', key) || exists q :: Taken(s', q, key)
  {
    var q :| Taken(s, q, key);
    if a.Enable? && a.key == key {
      EnableStep(cfg, s, a.request, key, s', key);
    } else {
      assert Taken(s', q, key);
    }
  }

  ghost predicate OnOrTaken(s: State, key: Key) { On(s, key) || exists q :: Taken(s, q, key) }

  lemma OnOrTakenStays(cfg: Config, s: State, a: Step, s': State, key: Key)
    requires Next(cfg, s, a, s') && LeavesAloneOrEnables(cfg, s, a, key) && OnOrTaken(s, key)
    ensures OnOrTaken(s', key)
  {
    if On(s, key) { StepKeepsOn(cfg, s, a, s', key); } else { TakenOrOn(cfg, s, a, s', key); }
  }

  lemma TakesEntryTakes(cfg: Config, s: State, a: Step, s': State, key: Key)
    requires Next(cfg, s, a, s') && TakesEntry(s, a, key)
    ensures OnOrTaken(s', key)
  {
    SplitKeys(s.tracker.ejections, a.now, key);
    assert Taken(s', a.request, key);
  }

  ghost predicate Keeps(s: State, s': State, key: Key) { OnOrTaken(s, key) ==> OnOrTaken(s', key) }

  lemma {:induction false} KeptOn(states: seq<State>, key: Key, j: nat, k: nat)
    requires j <= k < |states| && forall i | 0 <= i < |states| - 1 :: Keeps(states[i], states[i + 1], key)
    ensures Keeps(states[j], states[k], key)
    decreases k
  {
    if j < k { KeptOn(states, key, j, k - 1); }
  }

  lemma OnOnceTaken(cfg: Config, states: seq<State>, steps: seq<Step>, key: Key, j: nat, k: nat)
    requires Run(cfg, states, steps) && j <= k <= |steps| && OnOrTaken(states[j], key)
    requires forall i | 0 <= i < |steps| :: LeavesAloneOrEnables(cfg, states[i], steps[i], key)
    ensures OnOrTaken(states[k], key)
  {
    forall i | 0 <= i < |steps| ensures Keeps(states[i], states[i + 1], key) {
      if OnOrTaken(states[i], key) { OnOrTakenStays(cfg, states[i], steps[i], states[i + 1], key); }
    }
    KeptOn(states, key, j, k);
  }

  /**
   * A switched-off backend that nothing else touches is on again, once no request is about to enable
   * it, exactly when some peer choice of this tracker has found one of its entries expired. After a
   * reload, which installs a fresh tracker, the steps on the old one are those of requests that still
   * hold the old state: without such a peer choice among them the backend stays off.
   */
  lemma RestoredIffTakenOut(cfg: Config, states: seq<State>, steps: seq<Step>, key: Key)
    requires Run(cfg, states, steps) && Disabled(states[0], key)
    requires (P.Cloned(states[0].lb, key) ==> OffClone(states[0], key)) && forall q :: !Taken(states[0], q, key)
    requires forall i | 0 <= i < |steps| :: LeavesAloneOrEnables(cfg, states[i], steps[i], key)
    requires forall i | 0 <= i < |states| :: !P.Dropped(states[i].lb, key)
    requires forall q :: !Taken(states[|steps|], q, key)
    ensures Disabled(states[|steps|], key) <==> forall i | 0 <= i < |steps| :: !TakesEntry(states[i], steps[i], key)
  {
    if forall i | 0 <= i < |steps| :: !TakesEntry(states[i], steps[i], key) {
      StaysOffUntaken(cfg, states, steps, key, |steps|);
    } else {
      var j :| 0 <= j < |steps| && TakesEntry(states[j], steps[j], key);
      TakesEntryTakes(cfg, states[j], steps[j], states[j + 1], key);
      OnOnceTaken(cfg, states, steps, key, j + 1, |steps|);
    }
  }

  // ---------------------------------------------------------------------------------------------
  // When is a backend restored?

  /** The latest clock reading of a failure that ejected `key`, among the first `n` steps. */
  ghost function LatestEjection(cfg: Config, states: seq<State>, steps: seq<Step>, key: Key, n: nat): nat
    requires n <= |steps| < |states|
  {
    if n == 0 then 0
    else
      var before, a := LatestEjection(cfg, states, steps, key, n - 1), steps[n - 1];
      if a.Record? && a.backend.key == key && Ejects(cfg, states[n - 1].tracker, a.backend, a.now) && a.now > before
      then a.now else before
  }

  /** No entry of a key runs longer than fail_timeout from its latest ejection. */
  lemma {:induction false} EntriesEnd(cfg: Config, states: seq<State>, steps: seq<Step>, key: Key, n: nat, e: Ejection)
    requires Run(cfg, states, steps) && n <= |steps| && states[0].tracker.ejections == []
    requires e in states[n].tracker.ejections && e.backend.key == key
    ensures e.until <= LatestEjection(cfg, states, steps, key, n) + cfg.failTimeout
  {
    var s, a := states[n - 1], steps[n - 1];
    assert Next(cfg, s, a, states[n]);
    if a.TakeOut? {
      ExpiredHas(s.tracker.ejections, a.now, |s.tracker.ejections|, e);
    }
    if e in s.tracker.ejections { EntriesEnd(cfg, states, steps, key, n - 1, e); }
  }

  /** The restore loop switches on the known keys of its entries, and nothing else. */
  lemma {:induction false} EnabledAllAt(table: Registry.Table, entries: seq<Ejection>, n: nat, key: Key)
    requires n <= |entries|
    ensures Failover.EnabledAll(table, entries, n).Keys == table.Keys
    ensures key in table ==>
              var after := Failover.EnabledAll(table, entries, n)[key];
              after == table[key].(enabled := table[key].enabled || key in KeysOf(entries[..n]))
  {
    if n > 0 {
      EnabledAllAt(table, entries, n - 1, key);
      assert entries[..n] == entries[..n - 1] + [entries[n - 1]];
    }
  }

  /**
   * A peer choice that nothing interrupts leaves a backend enabled exactly when it was, or one of its
   * entries has expired: an older entry restores it although a newer one is still running.
   */
  lemma RestoresIffSomeEntryExpired(table: Registry.Table, all: seq<Ejection>, now: nat, key: Key)
    requires key in table
    ensures var expired := Expired(all, now, |all|);
            var after := Failover.EnabledAll(table, expired, |expired|);
            key in after &&
            (after[key].enabled <==> table[key].enabled || exists e :: e in all && e.backend.key == key && e.until <= now)
  {
    var expired := Expired(all, now, |all|);
    EnabledAllAt(table, expired, |expired|, key);
    assert expired[..|expired|] == expired;
    SplitKeys(all, now, key);
  }

  /**
   * A peer choice at or past fail_timeout from the latest ejection of a backend takes out whatever
   * entry the backend still has. If it is switched off and no other request is about to enable it, the
   * restore loop has enabled it when it is through, unless something else happens in between.
   */
  lemma ChoiceAfterTimeoutTakesAll(
      cfg: Config, states: seq<State>, steps: seq<Step>, key: Key, n: nat, r: nat, now: nat)
    requires Run(cfg, states, steps) && n < |steps| && Init(states[0])
    requires forall i | 0 <= i < n :: Proper(cfg, states, steps, key, i)
    requires steps[n] == TakeOut(r, now) && now >= LatestEjection(cfg, states, steps, key, n) + cfg.failTimeout
    ensures key !in KeysOf(states[n + 1].tracker.ejections)
    ensures Disabled(states[n], key) && (forall q :: !Taken(states[n], q, key)) ==>
              var table, all := states[n].lb.tables[states[n].lb.Current()], states[n].tracker.ejections;
              var expired := Expired(all, now, |all|);
              var after := Failover.EnabledAll(table, expired, |expired|);
              Taken(states[n + 1], r, key) && key in after && after[key].enabled
  {
    var s, all := states[n], states[n].tracker.ejections;
    assert Next(cfg, s, steps[n], states[n + 1]);
    DisabledImpliesPending(cfg, states, steps, key, n);
    SplitKeys(all, now, key);
    forall e | e in all && e.backend.key == key ensures e.until <= now {
      EntriesEnd(cfg, states, steps, key, n, e);
    }
    if Disabled(s, key) && forall q :: !Taken(s, q, key) {
      assert key in KeysOf(all);
      var e :| e in all && e.backend.key == key;
      RestoresIffSomeEntryExpired(s.lb.tables[s.lb.Current()], all, now, key);
    }
  }

  lemma {:induction false} NoNewEntries(cfg: Config, states: seq<State>, steps: seq<Step>, key: Key, n: nat, k: nat)
    requires Run(cfg, states, steps) && n <= k <= |steps| && key !in KeysOf(states[n].tracker.ejections)
    requires forall i | n <= i < k :: !EjectsAtStep(cfg, states, steps, key, i)
    ensures key !in KeysOf(states[k].tracker.ejections)
    decreases k
  {
    if n < k {
      NoNewEntries(cfg, states, steps, key, n, k - 1);
      var s, a := states[k - 1], steps[k - 1];
      assert Next(cfg, s, a, states[k]) && !EjectsAtStep(cfg, states, steps, key, k - 1);
      if a.TakeOut? { SplitKeys(s.tracker.ejections, a.now, key); }
    }
  }

  /**
   * The first peer choice fail_timeout or more after the latest ejection of a backend restores it:
   * whatever other requests, updates and probes do meanwhile, from then on the backend is enabled
   * whenever no request is still about to enable it, until it is ejected again.
   */
  lemma FirstChoiceAfterTimeoutRestores(
      cfg: Config, states: seq<State>, steps: seq<Step>, key: Key, n: nat, r: nat, now: nat, k: nat)
    requires Run(cfg, states, steps) && n < k <= |steps| && Init(states[0])
    requires forall i | 0 <= i < k :: Proper(cfg, states, steps, key, i)
    requires steps[n] == TakeOut(r, now) && now >= LatestEjection(cfg, states, steps, key, n) + cfg.failTimeout
    requires forall i | n < i < k :: !EjectsAtStep(cfg, states, steps, key, i)
    ensures Disabled(states[k], key) ==> exists q :: Taken(states[k], q, key)
  {
    ChoiceAfterTimeoutTakesAll(cfg, states, steps, key, n, r, now);
    NoNewEntries(cfg, states, steps, key, n + 1, k);
    DisabledImpliesPending(cfg, states, steps, key, k);
  }
}
