/** The backend registry: discovered backends and their health (`Backends`, mod.rs:164-354). */
module Registry {
  import opened Core
  import opened HealthCheck

  type Table = map<Key, HealthInner>

  ghost function KeySet(backends: seq<Backend>): set<Key> {
    set b | b in backends :: b.key
  }

  /** `BTreeSet` equality, which looks at identities only. */
  predicate SameIds(a: seq<Backend>, b: seq<Backend>) {
    |a| == |b| && forall i | 0 <= i < |a| :: a[i].id == b[i].id
  }

  /** No two backends share a metrics cell, and all cells were handed out before `next`. */
  ghost predicate OwnMetrics(backends: seq<Backend>, next: Handle) {
    && (forall i | 0 <= i < |backends| :: backends[i].metrics < next)
    && (forall i, j | 0 <= i < j < |backends| :: backends[i].metrics != backends[j].metrics)
  }

  lemma FindsIt(s: seq<Backend>, j: nat)
    requires Ordered(s) && j < |s|
    ensures Find(s, s[j].id) == Some(s[j])
  {
    var b := Find(s, s[j].id).value;
    var k :| 0 <= k < |s| && s[k] == b;
    OrderedIdsUnique(s);
  }

  /** What an update makes of one discovered backend: a survivor keeps its metrics and extensions. */
  ghost predicate Adopted(before: seq<Backend>, next: Handle, found: Backend, after: Backend, next': Handle) {
    && after.id == found.id
    && after.key == found.key
    && match Find(before, found.id)
       case Some(survivor) => after.metrics == survivor.metrics && after.ext == found.ext + survivor.ext
       case None => next <= after.metrics < next' && after.ext == found.ext
  }

  /** What an update makes of the discovered set; `next'` bounds the metrics cells handed out. */
  ghost predicate Merged(before: seq<Backend>, next: Handle, found: seq<Backend>, after: seq<Backend>, next': Handle) {
    && |after| == |found|
    && next <= next'
    && (forall i | 0 <= i < |after| :: Adopted(before, next, found[i], after[i], next'))
    && OwnMetrics(after, next')
  }

  /** The health an update gives a key: what it was, or the default, under the override if any. */
  function CarriedHealth(table: Table, enablement: map<Key, bool>, key: Key): HealthInner {
    var health := if key in table then table[key] else DEFAULT;
    if key in enablement then Enabled(health, enablement[key]) else health
  }

  datatype State = State(backends: seq<Backend>, health: Table, next: Handle) {
    ghost predicate Valid() {
      && Ordered(backends)
      && health.Keys == KeySet(backends)
      && OwnMetrics(backends, next)
    }
  }

  function Overridden(table: Table, enablement: map<Key, bool>): Table {
    map key | key in table :: CarriedHealth(table, enablement, key)
  }

  /** One update: an unchanged set only takes the overrides, a changed one is merged and replaces the table. */
  ghost predicate UpdateStep(s: State, found: seq<Backend>, enablement: map<Key, bool>, s': State) {
    if SameIds(s.backends, found) then
      s' == s.(health := Overridden(s.health, enablement))
    else
      && Merged(s.backends, s.next, found, s'.backends, s'.next)
      && s'.health.Keys == KeySet(s'.backends)
      && forall key | key in s'.health :: s'.health[key] == CarriedHealth(s.health, enablement, key)
  }

  predicate IsReady(healthCheck: bool, table: Table, key: Key) {
    if key in table then table[key].Ready() else !healthCheck
  }

  function WithEnabled(table: Table, key: Key, enabled: bool): Table {
    if key in table then table[key := Enabled(table[key], enabled)] else table
  }

  function WithProbe(table: Table, key: Key, ok: bool, t: Thresholds): Table {
    if key in table then table[key := Observed(table[key], ok, t.For(ok))] else table
  }

  /** The table after the first `n` backends were probed. */
  ghost function Probed(table: Table, backends: seq<Backend>, probes: seq<bool>, n: nat, t: Thresholds): Table
    requires n <= |probes| == |backends|
  {
    if n == 0 then table
    else WithProbe(Probed(table, backends, probes, n - 1, t), backends[n - 1].key, probes[n - 1], t)
  }

  ghost predicate OwnKeys(backends: seq<Backend>) {
    forall i, j | 0 <= i < j < |backends| :: backends[i].key != backends[j].key
  }

  /** `order` lists the numbers below `n`, each once. */
  ghost predicate EachOnce(order: seq<nat>, n: nat) {
    && |order| == n
    && (forall j | 0 <= j < n :: order[j] < n)
    && (forall i, j | 0 <= i < j < n :: order[i] != order[j])
    && (forall i | 0 <= i < n :: i in order)
  }

  function Picked<T>(s: seq<T>, order: seq<nat>): seq<T>
    requires forall j | 0 <= j < |order| :: order[j] < |s|
  {
    seq(|order|, j requires 0 <= j < |order| => s[order[j]])
  }

  lemma PickedOwnKeys(backends: seq<Backend>, order: seq<nat>)
    requires EachOnce(order, |backends|) && OwnKeys(backends)
    ensures OwnKeys(Picked(backends, order))
  {
    var checked := Picked(backends, order);
    forall i, j | 0 <= i < j < |checked| ensures checked[i].key != checked[j].key {
      assert order[i] < order[j] || order[j] < order[i];
    }
  }

  /** Probing all backends in turn observes each of them exactly once, when no two share a key. */
  lemma {:induction false} ProbedOnce(table: Table, backends: seq<Backend>, probes: seq<bool>, n: nat, t: Thresholds)
    requires n <= |probes| == |backends|
    requires OwnKeys(backends)
    requires forall i | 0 <= i < |backends| :: backends[i].key in table
    ensures Probed(table, backends, probes, n, t).Keys == table.Keys
    ensures forall i | 0 <= i < |backends| ::
              Probed(table, backends, probes, n, t)[backends[i].key] ==
              if i < n then Observed(table[backends[i].key], probes[i], t.For(probes[i]))
              else table[backends[i].key]
  {
    if n > 0 {
      ProbedOnce(table, backends, probes, n - 1, t);
    }
  }

  /** What one backend is shown does not depend on when its check finishes. */
  lemma SameProbe(table: Table, backends: seq<Backend>, probes: seq<bool>, order: seq<nat>, t: Thresholds, j: nat)
    requires |probes| == |backends| && EachOnce(order, |backends|) && j < |order|
    requires OwnKeys(backends) && OwnKeys(Picked(backends, order))
    requires forall b | b in backends :: b.key in table
    ensures var one := Probed(table, Picked(backends, order), Picked(probes, order), |order|, t);
            var other := Probed(table, backends, probes, |probes|, t);
            var key := backends[order[j]].key;
            key in one && key in other && one[key] == other[key]
  {
    var checked, results := Picked(backends, order), Picked(probes, order);
    ProbedOnce(table, backends, probes, |backends|, t);
    ProbedOnce(table, checked, results, |order|, t);
    assert checked[j] == backends[order[j]] && results[j] == probes[order[j]];
  }

  lemma CheckOf(backends: seq<Backend>, order: seq<nat>, key: Key) returns (j: nat)
    requires EachOnce(order, |backends|) && key in KeySet(backends)
    ensures j < |order| && backends[order[j]].key == key
  {
    var b :| b in backends && b.key == key;
    var i :| 0 <= i < |backends| && backends[i] == b;
    assert i in order;
    j :| 0 <= j < |order| && order[j] == i;
  }

  lemma SameTable(a: Table, b: Table)
    requires a.Keys == b.Keys && forall key | key in a.Keys :: a[key] == b[key]
    ensures a == b
  {
  }

  lemma {:induction false} ProbedKeys(table: Table, backends: seq<Backend>, probes: seq<bool>, n: nat, t: Thresholds)
    requires n <= |probes| == |backends|
    ensures Probed(table, backends, probes, n, t).Keys == table.Keys
  {
    if n > 0 { ProbedKeys(table, backends, probes, n - 1, t); }
  }

  /** In whatever order the checks finish, the table is the same. */
  lemma ProbeOrderIrrelevant(table: Table, backends: seq<Backend>, probes: seq<bool>, order: seq<nat>, t: Thresholds)
    requires |probes| == |backends| && EachOnce(order, |backends|) && OwnKeys(backends) && table.Keys == KeySet(backends)
    ensures Probed(table, Picked(backends, order), Picked(probes, order), |order|, t)
              == Probed(table, backends, probes, |probes|, t)
  {
    PickedOwnKeys(backends, order);
    var one := Probed(table, Picked(backends, order), Picked(probes, order), |order|, t);
    var other := Probed(table, backends, probes, |probes|, t);
    ProbedKeys(table, Picked(backends, order), Picked(probes, order), |order|, t);
    ProbedKeys(table, backends, probes, |probes|, t);
    forall key | key in table ensures one[key] == other[key] {
      var j := CheckOf(backends, order, key);
      SameProbe(table, backends, probes, order, t, j);
    }
    SameTable(one, other);
  }

  lemma MergedKeepsOrder(before: seq<Backend>, next: Handle, found: seq<Backend>, after: seq<Backend>, next': Handle)
    requires Ordered(found) && Merged(before, next, found, after, next')
    ensures Ordered(after) && |after| == |found| && forall i | 0 <= i < |found| :: after[i].id == found[i].id
  {
    forall i | 0 <= i < |after|
      ensures after[i].id == found[i].id
    {
      assert Adopted(before, next, found[i], after[i], next');
    }
  }

  /** One more backend is merged: survivors' metrics cells are distinct, new ones are fresh. */
  lemma MergeOneMore(before: seq<Backend>, next: Handle, found: seq<Backend>, i: nat,
                     merged: seq<Backend>, next': Handle, backend: Backend, next'': Handle)
    requires Ordered(before) && Ordered(found) && OwnMetrics(before, next) && i < |found|
    requires Merged(before, next, found[..i], merged, next') && next' <= next''
    requires Adopted(before, next, found[i], backend, next'')
    requires Find(before, found[i].id).None? ==> next' <= backend.metrics
    ensures Merged(before, next, found[..i + 1], merged + [backend], next'')
    ensures KeySet(merged + [backend]) == KeySet(merged) + {backend.key}
  {
    OrderedIdsUnique(found);
    forall k | 0 <= k < i
      ensures merged[k].metrics != backend.metrics
    {
      assert Adopted(before, next, found[..i][k], merged[k], next');
      var a, b := Find(before, found[k].id), Find(before, found[i].id);
      if a.Some? && b.Some? {
        var x :| 0 <= x < |before| && before[x] == a.value;
        var y :| 0 <= y < |before| && before[y] == b.value;
        assert found[k].id != found[i].id;
        assert x != y;
      }
    }
    forall k | 0 <= k < i
      ensures Adopted(before, next, found[k], merged[k], next'')
    {
      assert Adopted(before, next, found[..i][k], merged[k], next');
    }
  }

  class Backends {
    const healthCheck: bool
    var backends: seq<Backend>
    var health: Table
    var nextHandle: Handle

    ghost function Now(): State
      reads this
    {
      State(backends, health, nextHandle)
    }

    ghost predicate Valid()
      reads this
    {
      Now().Valid()
    }

    constructor (healthCheck: bool)
      ensures Valid() && backends == [] && health == map[] && nextHandle == 0
      ensures this.healthCheck == healthCheck
    {
      this.healthCheck := healthCheck;
      backends := [];
      health := map[];
      nextHandle := 0;
    }

    /** `M::default()`: a new metrics cell. */
    method DefaultMetrics() returns (metrics: Handle)
      modifies this`nextHandle
      ensures metrics == old(nextHandle) && nextHandle == old(nextHandle) + 1
    {
      metrics := nextHandle;
      nextHandle := nextHandle + 1;
    }

    /** The result is the set the selector callback is invoked with, None if it is not invoked. */
    method DoUpdate(newBackends: seq<Backend>, enablement: map<Key, bool>) returns (callback: Option<seq<Backend>>)
      requires Valid() && Ordered(newBackends)
      modifies this
      ensures Valid()
      ensures UpdateStep(old(Now()), newBackends, enablement, Now())
      ensures |backends| == |newBackends| && forall i | 0 <= i < |backends| :: backends[i].id == newBackends[i].id
      ensures callback.None? <==>
                |old(backends)| == |newBackends|
                && forall i | 0 <= i < |newBackends| :: old(backends)[i].id == newBackends[i].id
      ensures if callback.None? then backends == old(backends) else callback.value == backends
    {
      if !SameIds(backends, newBackends) {
        var merged, newHealth := Rebuild(newBackends, enablement);
        MergedKeepsOrder(backends, old(nextHandle), newBackends, merged, nextHandle);
        callback := Some(merged);
        backends := merged;
        health := newHealth;
      } else {
        callback := None;
        Override(enablement);
      }
    }

    /** The branch for a changed set: builds the new set and the new table, stores neither. */
    method Rebuild(newBackends: seq<Backend>, enablement: map<Key, bool>)
      returns (merged: seq<Backend>, newHealth: Table)
      requires Valid() && Ordered(newBackends)
      modifies this`nextHandle
      ensures Merged(backends, old(nextHandle), newBackends, merged, nextHandle)
      ensures newHealth.Keys == KeySet(merged)
      ensures forall key | key in newHealth :: newHealth[key] == CarriedHealth(health, enablement, key)
    {
      merged, newHealth := [], map[];
      var i := 0;
      while i < |newBackends|
        invariant 0 <= i <= |newBackends|
        invariant nextHandle >= old(nextHandle)
        invariant Merged(backends, old(nextHandle), newBackends[..i], merged, nextHandle)
        invariant newHealth.Keys == KeySet(merged)
        invariant forall key | key in newHealth :: newHealth[key] == CarriedHealth(health, enablement, key)
      {
        var backend := newBackends[i];
        ghost var next := nextHandle;
        var survivor := Find(backends, backend.id);
        if survivor.Some? {
          backend := backend.(ext := backend.ext + survivor.value.ext, metrics := survivor.value.metrics);
        } else {
          var metrics := DefaultMetrics();
          backend := backend.(metrics := metrics);
        }
        MergeOneMore(backends, old(nextHandle), newBackends, i, merged, next, backend, nextHandle);

        var backendHealth := if backend.key in health then health[backend.key] else DEFAULT;
        if backend.key in enablement {
          backendHealth := Enabled(backendHealth, enablement[backend.key]);
        }
        newHealth := newHealth[backend.key := backendHealth];
        merged := merged + [backend];
        i := i + 1;
      }
      assert newBackends[..i] == newBackends;
    }

    /** The branch for an unchanged set: only enablement is applied, in any order. */
    method Override(enablement: map<Key, bool>)
      modifies this`health
      ensures health == Overridden(old(health), enablement)
    {
      var remaining := enablement.Keys;
      while remaining != {}
        invariant remaining <= enablement.Keys
        invariant health.Keys == old(health).Keys
        invariant forall key | key in health ::
                    health[key] == if key in remaining then old(health)[key]
                                   else CarriedHealth(old(health), enablement, key)
        decreases remaining
      {
        var key :| key in remaining;
        if key in health {
          health := health[key := Enabled(health[key], enablement[key])];
        }
        remaining := remaining - {key};
      }
    }

    /** Unknown backends are ready only if no health check is installed. */
    method Ready(backend: Backend) returns (ready: bool)
      ensures ready == IsReady(healthCheck, health, backend.key)
      ensures backend.key in health ==> (ready <==> health[backend.key].healthy && health[backend.key].enabled)
      ensures backend.key !in health ==> (ready <==> !healthCheck)
    {
      ready := if backend.key in health then health[backend.key].Ready() else !healthCheck;
    }

    method SetEnable(backend: Backend, enabled: bool)
      requires Valid()
      modifies this`health
      ensures Valid()
      ensures health == WithEnabled(old(health), backend.key, enabled)
    {
      if backend.key in health {
        health := health[backend.key := Enabled(health[backend.key], enabled)];
      }
    }

    /** `check_and_report`, given the result of the check. */
    method CheckAndReport(backend: Backend, ok: bool, t: Thresholds)
      modifies this`health
      ensures health == WithProbe(old(health), backend.key, ok, t)
    {
      if backend.key in health {
        health := health[backend.key := Observed(health[backend.key], ok, t.For(ok))];
      }
    }

    /**
     * `probes[i]` is the result of the check of backend `i`, and `order` the order in which the checks
     * finish: that of the set when they run one by one, any when they run in parallel. The order does
     * not matter as long as no two backends share a hash key.
     */
    method RunHealthCheck(probes: seq<bool>, order: seq<nat>, t: Thresholds)
      requires Valid() && |probes| == |backends| && EachOnce(order, |backends|)
      modifies this`health
      ensures Valid()
      ensures !healthCheck ==> health == old(health)
      ensures healthCheck ==>
                health == Probed(old(health), Picked(backends, order), Picked(probes, order), |order|, t)
      ensures healthCheck && OwnKeys(backends) ==> health == Probed(old(health), backends, probes, |probes|, t)
    {
      if !healthCheck {
        return;
      }
      ghost var table := health;
      ghost var checked, results := Picked(backends, order), Picked(probes, order);
      for i := 0 to |order|
        invariant health == Probed(table, checked, results, i, t)
      {
        assert checked[i] == backends[order[i]] && results[i] == probes[order[i]];
        CheckAndReport(backends[order[i]], probes[order[i]], t);
      }
      ProbedKeys(table, checked, results, |order|, t);
      if OwnKeys(backends) { ProbeOrderIrrelevant(table, backends, probes, order, t); }
    }
  }

  // ---------------------------------------------------------------------------------------------
  // Runs of the registry.

  datatype Event =
    | Update(found: seq<Backend>, enablement: map<Key, bool>)
    | Probe(key: Key, ok: bool)
    | SetEnable(key: Key, on: bool)

  ghost predicate Step(s: State, e: Event, s': State, t: Thresholds) {
    match e
    case Update(found, enablement) => Ordered(found) && UpdateStep(s, found, enablement, s')
    case Probe(key, ok) => s' == s.(health := WithProbe(s.health, key, ok, t))
    case SetEnable(key, on) => s' == s.(health := WithEnabled(s.health, key, on))
  }

  ghost predicate Run(states: seq<State>, events: seq<Event>, t: Thresholds) {
    && |states| == |events| + 1
    && forall i | 0 <= i < |events| :: Step(states[i], events[i], states[i + 1], t)
  }

  lemma StepKeepsValid(s: State, e: Event, s': State, t: Thresholds)
    requires s.Valid() && Step(s, e, s', t)
    ensures s'.Valid() && s.next <= s'.next
  {
    if e.Update? && !SameIds(s.backends, e.found) {
      MergedKeepsOrder(s.backends, s.next, e.found, s'.backends, s'.next);
    }
  }

  /** In every run the health table lists exactly the keys of the backend set. */
  lemma {:induction false} RunKeepsValid(states: seq<State>, events: seq<Event>, t: Thresholds, i: nat)
    requires Run(states, events, t) && states[0].Valid() && i < |states|
    ensures states[i].Valid() && states[0].next <= states[i].next
  {
    if i > 0 {
      RunKeepsValid(states, events, t, i - 1);
      StepKeepsValid(states[i - 1], events[i - 1], states[i], t);
    }
  }

  /** What an event means for the health of one key. */
  function Projected(e: Event, key: Key): Option<HealthCheck.Event> {
    match e
    case Update(_, enablement) => if key in enablement then Some(Enable(enablement[key])) else None
    case Probe(k, ok) => if k == key then Some(Observe(ok)) else None
    case SetEnable(k, on) => if k == key then Some(Enable(on)) else None
  }

  /** What the first `n` events mean for the health of one key. */
  function Projection(events: seq<Event>, key: Key, n: nat): seq<HealthCheck.Event>
    requires n <= |events|
  {
    if n == 0 then []
    else
      var front := Projection(events, key, n - 1);
      if Projected(events[n - 1], key).Some? then front + [Projected(events[n - 1], key).value] else front
  }

  /** The health of one key after the first `n` events. */
  function Followed(h: HealthInner, events: seq<Event>, key: Key, n: nat, t: Thresholds): HealthInner
    requires n <= |events|
  {
    if n == 0 then h
    else
      var before := Followed(h, events, key, n - 1, t);
      if Projected(events[n - 1], key).Some? then Apply(before, Projected(events[n - 1], key).value, t) else before
  }

  lemma {:induction false} FollowedIsReplay(h: HealthInner, events: seq<Event>, key: Key, n: nat, t: Thresholds)
    requires n <= |events|
    ensures Followed(h, events, key, n, t) == Replay(h, Projection(events, key, n), t)
  {
    if n > 0 {
      FollowedIsReplay(h, events, key, n - 1, t);
      var trace := Projection(events, key, n);
      if Projected(events[n - 1], key).Some? {
        assert trace[..|trace| - 1] == Projection(events, key, n - 1);
      }
    }
  }

  /** Backend `id`, with hash key `key`, is in the set. */
  predicate Has(s: State, id: Id, key: Key) {
    var b := Find(s.backends, id);
    b.Some? && b.value.key == key
  }

  /** The metrics cell of backend `id`. */
  function CellOf(s: State, id: Id): Option<Handle> {
    var b := Find(s.backends, id);
    if b.Some? then Some(b.value.metrics) else None
  }

  /** One step carries a backend's metrics cell over. */
  lemma CellSurvivesStep(s: State, e: Event, s': State, t: Thresholds, id: Id, key: Key)
    requires s.Valid() && Step(s, e, s', t) && Has(s, id, key) && Has(s', id, key)
    ensures CellOf(s', id) == CellOf(s, id)
  {
    if e.Update? && !SameIds(s.backends, e.found) {
      var b := Find(s'.backends, id).value;
      var i :| 0 <= i < |s'.backends| && s'.backends[i] == b;
      assert Adopted(s.backends, s.next, e.found[i], s'.backends[i], s'.next);
    }
  }

  /** One step applies to the health of a key what the event says about it, and nothing else. */
  lemma HealthSurvivesStep(s: State, e: Event, s': State, t: Thresholds, key: Key)
    requires Step(s, e, s', t) && key in s.health && key in s'.health
    ensures s'.health[key] ==
            var p := Projected(e, key);
            if p.Some? then Apply(s.health[key], p.value, t) else s.health[key]
  {
  }

  /** A backend that every update of a run keeps also keeps its metrics cell. */
  lemma {:induction false} SurvivorsKeepMetrics(
      states: seq<State>, events: seq<Event>, t: Thresholds, id: Id, key: Key, n: nat)
    requires Run(states, events, t) && states[0].Valid() && n <= |events|
    requires forall i | 0 <= i < |states| :: Has(states[i], id, key)
    ensures CellOf(states[n], id) == CellOf(states[0], id)
  {
    if n > 0 {
      SurvivorsKeepMetrics(states, events, t, id, key, n - 1);
      RunKeepsValid(states, events, t, n - 1);
      CellSurvivesStep(states[n - 1], events[n - 1], states[n], t, id, key);
    }
  }

  lemma {:induction false} HealthFollows(states: seq<State>, events: seq<Event>, t: Thresholds, key: Key, n: nat)
    requires Run(states, events, t) && n <= |events|
    requires forall i | 0 <= i < |states| :: key in states[i].health
    ensures states[n].health[key] == Followed(states[0].health[key], events, key, n, t)
  {
    if n > 0 {
      HealthFollows(states, events, t, key, n - 1);
      HealthSurvivesStep(states[n - 1], events[n - 1], states[n], t, key);
    }
  }

  /**
   * While its key stays in the table, a backend's health is that of a lone health machine fed the
   * probes, enable calls and overrides meant for that key: updates neither lose nor invent any.
   */
  lemma SurvivorsKeepHealth(
      states: seq<State>, events: seq<Event>, t: Thresholds, key: Key, n: nat)
    requires Run(states, events, t) && n <= |events|
    requires forall i | 0 <= i < |states| :: key in states[i].health
    ensures states[n].health[key] == Replay(states[0].health[key], Projection(events, key, n), t)
  {
    HealthFollows(states, events, t, key, n);
    FollowedIsReplay(states[0].health[key], events, key, n, t);
  }

  /**
   * Readiness over a run. A backend that was fresh at its start and stayed is ready exactly when the
   * last run of probes long enough to decide was not one of failures, and the last enablement asked
   * for is on. With a health check, no backend outside the set is ready.
   */
  lemma ReadyFollowsHistory(
      states: seq<State>, events: seq<Event>, t: Thresholds, healthCheck: bool, key: Key, n: nat)
    requires Run(states, events, t) && states[0].Valid() && n <= |events|
    ensures (forall i | 0 <= i < |states| :: key in states[i].health) && states[0].health[key] == DEFAULT ==>
              var trace := Projection(events, key, n);
              IsReady(healthCheck, states[n].health, key) <==>
                !DecidedBy(Observations(trace), false, t) && LastEnabled(trace)
    ensures healthCheck && IsReady(healthCheck, states[n].health, key) ==> key in KeySet(states[n].backends)
  {
    RunKeepsValid(states, events, t, n);
    HealthRefinesHistory(Projection(events, key, n), t);
    if forall i | 0 <= i < |states| :: key in states[i].health {
      SurvivorsKeepHealth(states, events, t, key, n);
    }
  }

  /**
   * After an update the registry holds the identities found, in order. Survivors keep their metrics
   * cell and their extensions, to which only extensions not yet present are added.
   */
  lemma UpdateAdoptsFound(s: State, found: seq<Backend>, enablement: map<Key, bool>, s': State)
    requires s.Valid() && Ordered(found) && UpdateStep(s, found, enablement, s')
    ensures |s'.backends| == |found| && forall i | 0 <= i < |found| :: s'.backends[i].id == found[i].id
    ensures forall i, j | 0 <= i < |found| && 0 <= j < |s.backends| && s.backends[j].id == found[i].id ::
              && s'.backends[i].metrics == s.backends[j].metrics
              && forall x | x in s.backends[j].ext :: x in s'.backends[i].ext && s'.backends[i].ext[x] == s.backends[j].ext[x]
  {
    OrderedIdsUnique(s.backends);
    if !SameIds(s.backends, found) {
      forall i | 0 <= i < |found| ensures s'.backends[i].id == found[i].id {
        assert Adopted(s.backends, s.next, found[i], s'.backends[i], s'.next);
      }
      forall i, j | 0 <= i < |found| && 0 <= j < |s.backends| && s.backends[j].id == found[i].id
        ensures s'.backends[i].metrics == s.backends[j].metrics
        ensures s'.backends[i].ext == found[i].ext + s.backends[j].ext
      {
        assert Adopted(s.backends, s.next, found[i], s'.backends[i], s'.next);
        FindsIt(s.backends, j);
      }
    }
  }

  /** The extensions of a survivor of a changed set that were not there before are those found. */
  lemma NewExtensions(s: State, found: seq<Backend>, enablement: map<Key, bool>, s': State, i: nat)
    requires s.Valid() && Ordered(found) && UpdateStep(s, found, enablement, s') && i < |found|
    requires |s.backends| != |found| || exists j | 0 <= j < |found| :: s.backends[j].id != found[j].id
    ensures forall x | x in s'.backends[i].ext :: x in found[i].ext || exists b :: b in s.backends && b.id == found[i].id && x in b.ext
    ensures forall x | x in found[i].ext ::
              && x in s'.backends[i].ext
              && (s'.backends[i].ext[x] == found[i].ext[x] || exists b :: b in s.backends && b.id == found[i].id && x in b.ext)
  {
    assert Adopted(s.backends, s.next, found[i], s'.backends[i], s'.next);
  }

  /** A backend that was not there gets a metrics cell no backend had before and default health. */
  lemma NewcomersStartFresh(s: State, found: seq<Backend>, enablement: map<Key, bool>, s': State, i: nat)
    requires s.Valid() && Ordered(found) && UpdateStep(s, found, enablement, s') && i < |found|
    requires !SameIds(s.backends, found) && Find(s.backends, found[i].id).None?
    ensures s'.backends[i].id == found[i].id && s'.backends[i].metrics >= s.next
    ensures forall b | b in s.backends :: b.metrics != s'.backends[i].metrics
    ensures found[i].key !in s.health ==>
              && found[i].key in s'.health
              && s'.health[found[i].key] ==
                 if found[i].key in enablement then DEFAULT.(enabled := enablement[found[i].key]) else DEFAULT
  {
    assert Adopted(s.backends, s.next, found[i], s'.backends[i], s'.next);
    assert s'.backends[i] in s'.backends;
  }
}
