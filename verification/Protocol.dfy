/**
 * The registry, the selector and the strategy under concurrency (mod.rs:195-281, 440-528). One
 * background task updates backends, rebuilds the selector, probes and switches strategy; any number
 * of endpoint calls switch strategy; any number of requests select without locks and toggle
 * enablement. A step is one lock operation, one load, one store or one health-cell operation.
 */
module Protocol {
  import opened Core
  import opened HealthCheck
  import opened Registry
  import opened Strategies

  /** What `strategy.build_backend_selector(&backends)` builds; every build takes a new `reading` of the metrics. */
  datatype Selector = Selector(strategy: Strategy, backends: seq<Backend>, reading: nat)

  datatype Task = Background | Endpoint(id: nat)

  /** Where a holder of the write guard is inside `update_strategy`. */
  datatype Writer =
    | Comparing(wanted: Strategy)
    | Assigned
    | Prepared(selector: Selector)
    | Finished

  /** The lock on `strategy`. Only the background task ever reads under it. */
  datatype Lock = Free | Reading | Writing(task: Task, at: Writer)

  /** Where the background task is inside `update` or `rebuild_selector`. */
  datatype Bg =
    | Idle
    /** `update`, waiting for discovery. */
    | Discovering
    /** `do_update` on an unchanged set: overrides still to apply. */
    | Overriding(rest: map<Key, bool>)
    /** `do_update` on a changed set: adopts the found backends and clones their health one by one. */
    | Adopting(found: seq<Backend>, enablement: map<Key, bool>, base: Handle, merged: seq<Backend>, table: Table)
    /** The selector for `merged` is stored, the set is not. */
    | SelectorStored(merged: seq<Backend>, table: Table)
    /** The set is stored too, its health table is not. */
    | BackendsStored(table: Table)
    /** `rebuild_selector`, before the store. */
    | Rebuilding
    | Rebuilt(selector: Selector)
    /** About to drop the read guard. */
    | Releasing

  /** A request: a select in progress or done, or a `set_enable` that has loaded its table. */
  datatype Request =
    | Selecting(selector: Selector)
    | Consulting(selector: Selector, backend: Backend, table: nat)
    | Returned(selector: Selector, backend: Backend, table: nat, health: Option<HealthInner>)
    | Toggling(key: Key, on: bool, table: nat)

  /**
   * `tables` holds every health table ever stored, the last one being the one `load` returns, and
   * `sets` the backend set each was built for: readers may still hold an older one.
   */
  datatype State = State(
    healthCheck: bool,
    lock: Lock,
    bg: Bg,
    strategy: Strategy,
    selector: Selector,
    backends: seq<Backend>,
    sets: seq<seq<Backend>>,
    tables: seq<Table>,
    next: Handle,
    requests: map<nat, Request>,
    readings: nat)
  {
    function Current(): nat
      requires tables != []
    {
      |tables| - 1
    }
  }

  datatype Action =
    | AcquireWrite(task: Task, wanted: Strategy)
    | Compare
    | Prepare
    | StoreBySwitch
    | ReleaseWrite
    | AcquireRead(rebuild: bool)
    | Discover(found: seq<Backend>, enablement: map<Key, bool>)
    | OverrideOne(key: Key)
    | AdoptOne(backend: Backend, next: Handle)
    | StoreSelector
    | StoreBackends
    | StoreHealth
    | BuildAgain
    | StoreAgain
    | ReleaseRead
    | ProbeOne(key: Key, ok: bool, t: Thresholds)
    | LoadSelector(request: nat)
    | Consult(request: nat, backend: Backend)
    | Judge(request: nat)
    | LoadTable(request: nat, key: Key, on: bool)
    | Toggle(request: nat)
    | Forget(request: nat)

  ghost predicate Init(s: State) {
    && s.lock == Free && s.bg == Idle
    && s.backends == [] && s.sets == [[]] && s.tables == [map[]]
    && s.selector == Selector(s.strategy, [], 0) && s.readings == 1
    && s.requests == map[]
  }

  /** Steps of `update_strategy`, by whichever task holds the write guard. */
  ghost predicate SwitchStep(s: State, a: Action, s': State) {
    match a
    case AcquireWrite(task, wanted) =>
      s.lock == Free && (task == Background ==> s.bg == Idle) && s' == s.(lock := Writing(task, Comparing(wanted)))
    case Compare =>
      && s.lock.Writing? && s.lock.at.Comparing?
      && s' == if s.lock.at.wanted == s.strategy then s.(lock := Writing(s.lock.task, Finished))
               else s.(strategy := s.lock.at.wanted, lock := Writing(s.lock.task, Assigned))
    case Prepare =>
      && s.lock.Writing? && s.lock.at == Assigned
      && s' == s.(lock := Writing(s.lock.task, Prepared(Selector(s.strategy, s.backends, s.readings))),
                  readings := s.readings + 1)
    case StoreBySwitch =>
      && s.lock.Writing? && s.lock.at.Prepared?
      && s' == s.(selector := s.lock.at.selector, lock := Writing(s.lock.task, Finished))
    case ReleaseWrite =>
      s.lock.Writing? && s.lock.at == Finished && s' == s.(lock := Free)
    case _ => false
  }

  /** Steps of `update`, `rebuild_selector` and `run_health_check`, all by the background task. */
  ghost predicate BackgroundStep(s: State, a: Action, s': State)
    requires s.tables != []
  {
    match a
    case AcquireRead(rebuild) =>
      && s.lock == Free && s.bg == Idle
      && s' == s.(lock := Reading, bg := if rebuild then Rebuilding else Discovering)
    case Discover(found, enablement) =>
      && s.bg == Discovering && Ordered(found)
      && s' == if SameIds(s.backends, found) then s.(bg := Overriding(enablement))
               else s.(bg := Adopting(found, enablement, s.next, [], map[]))
    case OverrideOne(key) =>
      && s.bg.Overriding? && key in s.bg.rest
      && s' == s.(bg := Overriding(s.bg.rest - {key}),
                  tables := s.tables[s.Current() := WithEnabled(s.tables[s.Current()], key, s.bg.rest[key])])
    case AdoptOne(backend, next) =>
      && s.bg.Adopting? && |s.bg.merged| < |s.bg.found| && s.next <= next
      && Adopted(s.backends, s.bg.base, s.bg.found[|s.bg.merged|], backend, next)
      && (Find(s.backends, s.bg.found[|s.bg.merged|].id).None? ==> s.next <= backend.metrics)
      && s' == s.(next := next,
                  bg := s.bg.(merged := s.bg.merged + [backend],
                              table := s.bg.table[backend.key :=
                                CarriedHealth(s.tables[s.Current()], s.bg.enablement, backend.key)]))
    case StoreSelector =>
      && s.bg.Adopting? && |s.bg.merged| == |s.bg.found|
      && s' == s.(selector := Selector(s.strategy, s.bg.merged, s.readings), readings := s.readings + 1,
                  bg := SelectorStored(s.bg.merged, s.bg.table))
    case StoreBackends =>
      && s.bg.SelectorStored?
      && s' == s.(backends := s.bg.merged, bg := BackendsStored(s.bg.table))
    case StoreHealth =>
      && s.bg.BackendsStored?
      && s' == s.(tables := s.tables + [s.bg.table], sets := s.sets + [s.backends], bg := Releasing)
    case BuildAgain =>
      && s.bg.Rebuilding?
      && s' == s.(bg := Rebuilt(Selector(s.strategy, s.backends, s.readings)), readings := s.readings + 1)
    case StoreAgain =>
      && s.bg.Rebuilt?
      && s' == s.(selector := s.bg.selector, bg := Releasing)
    case ReleaseRead =>
      && (s.bg == Releasing || (s.bg.Overriding? && s.bg.rest == map[]))
      && s' == s.(lock := Free, bg := Idle)
    case ProbeOne(key, ok, t) =>
      && s.healthCheck && s.bg == Idle
      && s' == s.(tables := s.tables[s.Current() := WithProbe(s.tables[s.Current()], key, ok, t)])
    case _ => false
  }

  /** Steps of requests, which take no lock. `ready` loads the table anew for every backend it judges. */
  ghost predicate RequestStep(s: State, a: Action, s': State)
    requires s.tables != []
  {
    match a
    case LoadSelector(r) =>
      r !in s.requests && s' == s.(requests := s.requests[r := Selecting(s.selector)])
    case Consult(r, b) =>
      && r in s.requests && s.requests[r].Selecting? && b in s.requests[r].selector.backends
      && s' == s.(requests := s.requests[r := Consulting(s.requests[r].selector, b, s.Current())])
    case Judge(r) =>
      && r in s.requests && s.requests[r].Consulting? && s.requests[r].table < |s.tables|
      && var q := s.requests[r];
         var table := s.tables[q.table];
         s' == s.(requests := s.requests[r :=
                    if IsReady(s.healthCheck, table, q.backend.key)
                    then Returned(q.selector, q.backend, q.table,
                                  if q.backend.key in table then Some(table[q.backend.key]) else None)
                    else Selecting(q.selector)])
    case LoadTable(r, key, on) =>
      r !in s.requests && s' == s.(requests := s.requests[r := Toggling(key, on, s.Current())])
    case Toggle(r) =>
      && r in s.requests && s.requests[r].Toggling? && s.requests[r].table < |s.tables|
      && var q := s.requests[r];
         s' == s.(requests := s.requests - {r},
                  tables := s.tables[q.table := WithEnabled(s.tables[q.table], q.key, q.on)])
    case Forget(r) =>
      r in s.requests && s' == s.(requests := s.requests - {r})
    case _ => false
  }

  ghost predicate Next(s: State, a: Action, s': State) {
    && s.tables != []
    && (SwitchStep(s, a, s') || BackgroundStep(s, a, s') || RequestStep(s, a, s'))
  }

  // ---------------------------------------------------------------------------------------------
  // The selector follows strategy and backends.

  ghost predicate BuiltFor(selector: Selector, strategy: Strategy, backends: seq<Backend>) {
    selector.strategy == strategy && selector.backends == backends
  }

  /** The selector is what the current strategy builds from exactly the current set, metrics cells included. */
  ghost predicate InStep(s: State) { BuiltFor(s.selector, s.strategy, s.backends) }

  ghost predicate LockInv(s: State) {
    && (s.lock != Reading ==> s.bg == Idle)
    && (s.lock == Reading ==> s.bg != Idle)
  }

  ghost predicate SelectorInv(s: State) {
    match s.lock
    case Free => InStep(s)
    case Writing(_, at) =>
      (match at
       case Comparing(_) => InStep(s)
       case Assigned => s.selector.backends == s.backends
       case Prepared(selector) => s.selector.backends == s.backends && BuiltFor(selector, s.strategy, s.backends)
       case Finished => InStep(s))
    case Reading =>
      (match s.bg
       case SelectorStored(merged, _) => BuiltFor(s.selector, s.strategy, merged)
       case Rebuilt(selector) => InStep(s) && BuiltFor(selector, s.strategy, s.backends)
       case _ => InStep(s))
  }

  lemma InitInStep(s: State)
    requires Init(s)
    ensures LockInv(s) && SelectorInv(s)
  {
  }

  lemma SwitchKeepsInStep(s: State, a: Action, s': State)
    requires SwitchStep(s, a, s') && LockInv(s) && SelectorInv(s)
    ensures LockInv(s') && SelectorInv(s')
  {
  }

  lemma BackgroundKeepsInStep(s: State, a: Action, s': State)
    requires s.tables != [] && BackgroundStep(s, a, s') && LockInv(s) && SelectorInv(s)
    ensures LockInv(s') && SelectorInv(s')
  {
  }

  lemma NextKeepsInStep(s: State, a: Action, s': State)
    requires Next(s, a, s') && LockInv(s) && SelectorInv(s)
    ensures LockInv(s') && SelectorInv(s')
  {
    if SwitchStep(s, a, s') {
      SwitchKeepsInStep(s, a, s');
    } else if BackgroundStep(s, a, s') {
      BackgroundKeepsInStep(s, a, s');
    } else {
      assert s'.(requests := s.requests, tables := s.tables) == s;
    }
  }

  ghost predicate Behavior(states: seq<State>, actions: seq<Action>) {
    && |states| == |actions| + 1
    && Init(states[0])
    && forall i | 0 <= i < |actions| :: Next(states[i], actions[i], states[i + 1])
  }

  lemma {:induction false} BehaviorInStep(states: seq<State>, actions: seq<Action>, i: nat)
    requires Behavior(states, actions) && i < |states|
    ensures LockInv(states[i]) && SelectorInv(states[i])
  {
    if i == 0 {
      InitInStep(states[0]);
    } else {
      BehaviorInStep(states, actions, i - 1);
      NextKeepsInStep(states[i - 1], actions[i - 1], states[i]);
    }
  }

  /**
   * In every interleaving, whenever no task holds the strategy lock the selector is the one the
   * current strategy builds from exactly the current backend set, sharing its metrics cells.
   */
  lemma UnlockedSelectorIsCurrent(states: seq<State>, actions: seq<Action>, i: nat)
    requires Behavior(states, actions) && i < |states| && states[i].lock == Free
    ensures states[i].selector.strategy == states[i].strategy && states[i].selector.backends == states[i].backends
  {
    BehaviorInStep(states, actions, i);
  }

  // ---------------------------------------------------------------------------------------------
  // What a switch achieves.

  /** A switch has stored its selector between actions `i` and `n`. */
  ghost predicate StoredBetween(actions: seq<Action>, i: nat, n: nat)
    requires n <= |actions|
  {
    exists k | i < k < n :: actions[k] == StoreBySwitch
  }

  /** Where the switch to `wanted` that began in `s` is in `s'`; `stored` says whether it has stored a selector. */
  ghost predicate Switching(s: State, task: Task, wanted: Strategy, s': State, stored: bool) {
    && s'.lock.Writing? && s'.lock.task == task && s'.backends == s.backends && s.readings <= s'.readings
    && (s'.lock.at.Prepared? ==> s.readings <= s'.lock.at.selector.reading)
    && (stored ==> s.readings <= s'.selector.reading)
    && match s'.lock.at
       case Comparing(w) => w == wanted && s'.strategy == s.strategy && !stored
       case Finished => s'.strategy == wanted && (stored <==> s.strategy != wanted)
       case _ => s'.strategy == wanted != s.strategy && !stored
  }

  /** While a task holds the write guard, nobody else touches strategy, set or guard. */
  lemma OthersWait(s1: State, a: Action, s2: State)
    requires s1.lock.Writing? && LockInv(s1) && Next(s1, a, s2) && !SwitchStep(s1, a, s2)
    ensures s2.lock == s1.lock && s2.strategy == s1.strategy && s2.backends == s1.backends && a != StoreBySwitch
    ensures s2.selector == s1.selector && s2.readings == s1.readings
  {
  }

  lemma SwitchStepContinues(s: State, task: Task, wanted: Strategy, s1: State, stored: bool, a: Action, s2: State)
    requires Switching(s, task, wanted, s1, stored) && SwitchStep(s1, a, s2) && a != ReleaseWrite
    ensures Switching(s, task, wanted, s2, stored || a == StoreBySwitch)
  {
  }

  lemma SwitchContinues(s: State, task: Task, wanted: Strategy, s1: State, stored: bool, a: Action, s2: State)
    requires Switching(s, task, wanted, s1, stored) && LockInv(s1) && Next(s1, a, s2) && a != ReleaseWrite
    ensures Switching(s, task, wanted, s2, stored || a == StoreBySwitch)
  {
    if SwitchStep(s1, a, s2) {
      SwitchStepContinues(s, task, wanted, s1, stored, a, s2);
    } else {
      OthersWait(s1, a, s2);
    }
  }

  lemma SwitchBegins(s: State, task: Task, wanted: Strategy, s': State)
    requires Next(s, AcquireWrite(task, wanted), s')
    ensures Switching(s, task, wanted, s', false)
  {
  }

  lemma StoredStep(actions: seq<Action>, i: nat, n: nat)
    requires i < n < |actions|
    ensures StoredBetween(actions, i, n + 1) <==> StoredBetween(actions, i, n) || actions[n] == StoreBySwitch
  {
  }

  ghost predicate SwitchingAt(
      states: seq<State>, actions: seq<Action>, i: nat, task: Task, wanted: Strategy, n: nat)
    requires i < |states| && n < |states| && n <= |actions|
  {
    Switching(states[i], task, wanted, states[n], StoredBetween(actions, i, n))
  }

  ghost predicate KeepsSwitching(
      states: seq<State>, actions: seq<Action>, i: nat, task: Task, wanted: Strategy, n: nat)
    requires i < |states| && n + 1 < |states| && n < |actions|
  {
    SwitchingAt(states, actions, i, task, wanted, n) ==> SwitchingAt(states, actions, i, task, wanted, n + 1)
  }

  lemma SwitchStepKeeps(states: seq<State>, actions: seq<Action>, i: nat, task: Task, wanted: Strategy, n: nat)
    requires Behavior(states, actions) && i < n < |actions| && actions[n] != ReleaseWrite
    ensures KeepsSwitching(states, actions, i, task, wanted, n)
  {
    if SwitchingAt(states, actions, i, task, wanted, n) {
      BehaviorInStep(states, actions, n);
      SwitchContinues(states[i], task, wanted, states[n], StoredBetween(actions, i, n), actions[n], states[n + 1]);
      StoredStep(actions, i, n);
    }
  }

  lemma {:induction false} KeptSwitching(
      states: seq<State>, actions: seq<Action>, i: nat, task: Task, wanted: Strategy, n: nat)
    requires |states| == |actions| + 1 && i < n <= |actions| && SwitchingAt(states, actions, i, task, wanted, i + 1)
    requires forall k | i < k < n :: KeepsSwitching(states, actions, i, task, wanted, k)
    ensures SwitchingAt(states, actions, i, task, wanted, n)
  {
    if i + 1 < n {
      KeptSwitching(states, actions, i, task, wanted, n - 1);
      assert KeepsSwitching(states, actions, i, task, wanted, n - 1);
    }
  }

  lemma SwitchUnderway(
      states: seq<State>, actions: seq<Action>, i: nat, task: Task, wanted: Strategy, n: nat)
    requires Behavior(states, actions) && i < n <= |actions| && actions[i] == AcquireWrite(task, wanted)
    requires forall k | i < k < n :: actions[k] != ReleaseWrite
    ensures SwitchingAt(states, actions, i, task, wanted, n)
  {
    assert Next(states[i], actions[i], states[i + 1]);
    SwitchBegins(states[i], task, wanted, states[i + 1]);
    assert !StoredBetween(actions, i, i + 1);
    forall k | i < k < n ensures KeepsSwitching(states, actions, i, task, wanted, k) {
      SwitchStepKeeps(states, actions, i, task, wanted, k);
    }
    KeptSwitching(states, actions, i, task, wanted, n);
  }

  /**
   * `update_strategy` takes effect in every interleaving: when it releases the lock, the strategy is
   * the wanted one and the selector is built by it from the unchanged set. It has stored a selector,
   * and reports a change, exactly when the strategy was another one before.
   */
  lemma SwitchTakesEffect(
      states: seq<State>, actions: seq<Action>, i: nat, j: nat, task: Task, wanted: Strategy)
    requires Behavior(states, actions) && i < j < |actions| && actions[i] == AcquireWrite(task, wanted)
    requires actions[j] == ReleaseWrite && forall k | i < k < j :: actions[k] != ReleaseWrite
    ensures states[j + 1].strategy == wanted && states[j + 1].backends == states[i].backends
    ensures states[j + 1].selector.strategy == wanted && states[j + 1].selector.backends == states[i].backends
    ensures states[i].strategy != wanted ==> states[j + 1].selector.reading >= states[i].readings
    ensures (exists k | i < k < j :: actions[k] == StoreBySwitch) <==> states[i].strategy != wanted
  {
    SwitchUnderway(states, actions, i, task, wanted, j);
    assert Next(states[j], actions[j], states[j + 1]);
    UnlockedSelectorIsCurrent(states, actions, j + 1);
  }

  // ---------------------------------------------------------------------------------------------
  // What a rebuild achieves.

  /** The rebuild that began in `s` has got as far as `s'`. */
  ghost predicate RebuildUnderway(s: State, s': State) {
    && s'.lock == Reading && s'.strategy == s.strategy && s'.backends == s.backends && s.readings <= s'.readings
    && match s'.bg
       case Rebuilding => true
       case Rebuilt(selector) => s.readings <= selector.reading
       case Releasing => s.readings <= s'.selector.reading
       case _ => false
  }

  lemma RebuildContinues(s: State, s1: State, a: Action, s2: State)
    requires RebuildUnderway(s, s1) && Next(s1, a, s2) && a != ReleaseRead
    ensures RebuildUnderway(s, s2)
  {
  }

  ghost predicate KeepsRebuilding(s: State, s1: State, s2: State) {
    RebuildUnderway(s, s1) ==> RebuildUnderway(s, s2)
  }

  lemma {:induction false} KeptRebuilding(states: seq<State>, s: State, i: nat, n: nat)
    requires i <= n < |states| && RebuildUnderway(s, states[i])
    requires forall k | i <= k < n :: KeepsRebuilding(s, states[k], states[k + 1])
    ensures RebuildUnderway(s, states[n])
  {
    if i < n {
      KeptRebuilding(states, s, i, n - 1);
      assert KeepsRebuilding(s, states[n - 1], states[n]);
    }
  }

  /**
   * `rebuild_selector` takes effect in every interleaving: when it releases the lock, the selector is
   * one built after it took the lock, by the unchanged strategy from the unchanged set.
   */
  lemma RebuildTakesEffect(states: seq<State>, actions: seq<Action>, i: nat, j: nat)
    requires Behavior(states, actions) && i < j < |actions| && actions[i] == AcquireRead(true)
    requires actions[j] == ReleaseRead && forall k | i < k < j :: actions[k] != ReleaseRead
    ensures states[j + 1].selector.reading >= states[i].readings
    ensures states[j + 1].strategy == states[i].strategy && states[j + 1].backends == states[i].backends
    ensures states[j + 1].selector.strategy == states[i].strategy && states[j + 1].selector.backends == states[i].backends
  {
    assert Next(states[i], actions[i], states[i + 1]);
    forall k | i + 1 <= k < j ensures KeepsRebuilding(states[i], states[k], states[k + 1]) {
      if RebuildUnderway(states[i], states[k]) { RebuildContinues(states[i], states[k], actions[k], states[k + 1]); }
    }
    KeptRebuilding(states, states[i], i + 1, j);
    assert Next(states[j], actions[j], states[j + 1]);
    UnlockedSelectorIsCurrent(states, actions, j + 1);
  }

  // ---------------------------------------------------------------------------------------------
  // What lock-free requests get to see.

  /** A set the registry has published, or is about to: the selector comes first, the table last. */
  ghost predicate Published(s: State, backends: seq<Backend>) {
    || backends in s.sets
    || (s.bg.SelectorStored? && backends == s.bg.merged)
    || (s.bg.BackendsStored? && backends == s.backends)
  }

  ghost predicate TableInv(s: State) {
    && |s.sets| == |s.tables| > 0
    && (forall i | 0 <= i < |s.tables| :: s.tables[i].Keys == KeySet(s.sets[i]))
    && (match s.bg
        case Adopting(_, _, _, merged, table) => table.Keys == KeySet(merged) && s.backends in s.sets
        case SelectorStored(merged, table) => table.Keys == KeySet(merged) && s.backends in s.sets
        case BackendsStored(table) => table.Keys == KeySet(s.backends)
        case _ => s.backends in s.sets)
  }

  ghost predicate RequestInv(s: State, q: Request)
    requires |s.sets| == |s.tables|
  {
    match q
    case Selecting(selector) => Published(s, selector.backends)
    case Consulting(selector, b, table) =>
      Published(s, selector.backends) && b in selector.backends && table < |s.tables|
    case Returned(selector, b, table, health) =>
      && Published(s, selector.backends) && b in selector.backends && table < |s.tables|
      && (if health.Some? then b.key in KeySet(s.sets[table]) && health.value.Ready() else !s.healthCheck)
    case Toggling(_, _, table) => table < |s.tables|
  }

  ghost predicate VisibleInv(s: State) {
    && TableInv(s)
    && (forall r | r in s.requests :: RequestInv(s, s.requests[r]))
  }

  lemma KeySetAppend(backends: seq<Backend>, b: Backend)
    ensures KeySet(backends + [b]) == KeySet(backends) + {b.key}
  {
    var all := backends + [b];
    assert b in all && forall x | x in backends :: x in all;
  }

  /** A step that only changes cells of tables keeps what is published. */
  ghost predicate KeepsTables(s: State, s': State) {
    && TableInv(s') && s.sets <= s'.sets
    && forall x | Published(s, x) :: Published(s', x)
  }

  lemma SameKeysKeepTables(s: State, s': State)
    requires TableInv(s) && s'.sets == s.sets && s'.backends == s.backends && |s'.tables| == |s.tables|
    requires forall i | 0 <= i < |s.tables| :: s'.tables[i].Keys == s.tables[i].Keys
    requires s'.bg == s.bg || !(s.bg.Adopting? || s.bg.SelectorStored? || s.bg.BackendsStored?)
    requires s'.bg == s.bg || !(s'.bg.Adopting? || s'.bg.SelectorStored? || s'.bg.BackendsStored?)
    ensures KeepsTables(s, s')
  {
  }

  lemma AdoptingKeepsTables(s: State, a: Action, s': State)
    requires TableInv(s) && BackgroundStep(s, a, s')
    requires a.Discover? || a.AdoptOne? || a.StoreSelector? || a.StoreBackends?
    ensures KeepsTables(s, s')
  {
    if a.AdoptOne? {
      KeySetAppend(s.bg.merged, a.backend);
    }
  }

  lemma StoringHealthKeepsTables(s: State, s': State)
    requires TableInv(s) && BackgroundStep(s, StoreHealth, s')
    ensures KeepsTables(s, s')
  {
    assert s'.backends == s'.sets[|s.sets|];
    assert forall i | 0 <= i < |s.sets| :: s'.sets[i] == s.sets[i];
    assert forall x | x in s.sets :: x in s'.sets;
  }

  lemma NextKeepsTables(s: State, a: Action, s': State)
    requires Next(s, a, s') && TableInv(s)
    ensures KeepsTables(s, s')
  {
    if !BackgroundStep(s, a, s') {
      SameKeysKeepTables(s, s');
    } else if a.Discover? || a.AdoptOne? || a.StoreSelector? || a.StoreBackends? {
      AdoptingKeepsTables(s, a, s');
    } else if a.StoreHealth? {
      StoringHealthKeepsTables(s, s');
    } else {
      SameKeysKeepTables(s, s');
    }
  }

  /** What holds of a request goes on to hold: older tables and sets stay in place. */
  lemma RequestInvKept(s: State, s': State, q: Request)
    requires TableInv(s) && KeepsTables(s, s') && s'.healthCheck == s.healthCheck && RequestInv(s, q)
    ensures RequestInv(s', q)
  {
    if !q.Toggling? {
      assert Published(s', q.selector.backends);
    }
    if q.Returned? {
      assert s'.sets[q.table] == s.sets[q.table];
    }
  }

  predicate Touches(a: Action, r: nat) {
    match a
    case LoadSelector(q) => q == r
    case Consult(q, _) => q == r
    case Judge(q) => q == r
    case LoadTable(q, _, _) => q == r
    case _ => false
  }

  /** A request's step publishes nothing. */
  lemma RequestStepPublishesNothing(s: State, a: Action, s': State)
    requires s.tables != [] && RequestStep(s, a, s')
    ensures s'.sets == s.sets && s'.bg == s.bg && s'.backends == s.backends && |s'.tables| == |s.tables|
    ensures s'.healthCheck == s.healthCheck
    ensures forall r | r in s'.requests && !Touches(a, r) :: r in s.requests && s'.requests[r] == s.requests[r]
  {
  }

  lemma TouchedRequestInv(s: State, a: Action, s': State, r: nat)
    requires TableInv(s) && TableInv(s') && RequestStep(s, a, s') && Published(s, s.selector.backends)
    requires Touches(a, r) && (r in s.requests ==> RequestInv(s, s.requests[r]))
    ensures r in s'.requests && RequestInv(s', s'.requests[r])
  {
  }

  lemma RequestStepInv(s: State, a: Action, s': State)
    requires TableInv(s) && TableInv(s') && RequestStep(s, a, s') && Published(s, s.selector.backends)
    requires forall r | r in s.requests :: RequestInv(s, s.requests[r])
    ensures forall r | r in s'.requests :: RequestInv(s', s'.requests[r])
  {
    RequestStepPublishesNothing(s, a, s');
    forall r | r in s'.requests
      ensures RequestInv(s', s'.requests[r])
    {
      if Touches(a, r) {
        TouchedRequestInv(s, a, s', r);
      } else {
        assert RequestInv(s, s.requests[r]);
      }
    }
  }

  /** In every reachable state the selector was built from a published set. */
  lemma SelectorPublished(s: State)
    requires LockInv(s) && SelectorInv(s) && TableInv(s)
    ensures Published(s, s.selector.backends)
  {
    assert Published(s, s.backends);
    assert s.bg.SelectorStored? ==> Published(s, s.bg.merged);
  }

  lemma NextKeepsVisible(s: State, a: Action, s': State)
    requires Next(s, a, s') && LockInv(s) && SelectorInv(s) && VisibleInv(s)
    ensures VisibleInv(s')
  {
    NextKeepsTables(s, a, s');
    if RequestStep(s, a, s') {
      SelectorPublished(s);
      RequestStepInv(s, a, s');
    } else {
      assert s'.requests == s.requests;
      forall r | r in s'.requests
        ensures RequestInv(s', s'.requests[r])
      {
        RequestInvKept(s, s', s.requests[r]);
      }
    }
  }

  lemma {:induction false} BehaviorVisible(states: seq<State>, actions: seq<Action>, i: nat)
    requires Behavior(states, actions) && i < |states|
    ensures VisibleInv(states[i]) && states[i].healthCheck == states[0].healthCheck
  {
    if i > 0 {
      BehaviorVisible(states, actions, i - 1);
      BehaviorInStep(states, actions, i - 1);
      NextKeepsVisible(states[i - 1], actions[i - 1], states[i]);
    }
  }

  /**
   * A select returns the backend it judges exactly when that is healthy and enabled in the table it
   * consults, or unknown to it while there is no health check.
   */
  lemma JudgedIff(s: State, r: nat, s': State)
    requires Next(s, Judge(r), s')
    ensures var q := s.requests[r];
            s'.requests[r].Returned? <==>
              if q.backend.key in s.tables[q.table]
              then s.tables[q.table][q.backend.key].healthy && s.tables[q.table][q.backend.key].enabled
              else !s.healthCheck
  {
  }

  /** Across all published sets, equal hash keys mean equal identities. */
  ghost predicate KeysIdentify(s: State) {
    forall x, y, b: Backend, c: Backend |
      Published(s, x) && Published(s, y) && b in x && c in y && b.key == c.key :: b.id == c.id
  }

  /**
   * With a health check installed, whichever sides of whichever updates a select loads its selector
   * and a health table from, it returns a backend of both versions' sets, healthy and enabled in
   * the table it consulted.
   */
  lemma SelectsReadyBackendsOfBothVersions(states: seq<State>, actions: seq<Action>, i: nat, r: nat)
    requires Behavior(states, actions) && i < |states| && KeysIdentify(states[i])
    requires states[i].healthCheck && r in states[i].requests && states[i].requests[r].Returned?
    ensures var s, q := states[i], states[i].requests[r];
            && Published(s, q.selector.backends) && q.backend in q.selector.backends
            && q.table < |s.sets| && (exists b :: b in s.sets[q.table] && b.id == q.backend.id)
            && q.health.Some? && q.health.value.Ready()
  {
    BehaviorVisible(states, actions, i);
    var s, q := states[i], states[i].requests[r];
    assert RequestInv(s, q);
    assert s.sets[q.table] in s.sets;
    var b :| b in s.sets[q.table] && b.key == q.backend.key;
    assert Published(s, s.sets[q.table]);
  }

  // ---------------------------------------------------------------------------------------------
  // When does a `set_enable` last?

  /** The running update has cloned the health cell of `key` but not yet stored its table. */
  ghost predicate Cloned(s: State, key: Key) {
    match s.bg
    case Adopting(_, _, _, _, table) => key in table
    case SelectorStored(_, table) => key in table
    case BackendsStored(table) => key in table
    case _ => false
  }

  ghost function Clone(s: State, key: Key): HealthInner
    requires Cloned(s, key)
  {
    s.bg.table[key]
  }

  /** The cell of `key` in the current table has enablement `v`. */
  ghost predicate CellIs(s: State, key: Key, v: bool) {
    s.tables != [] && key in s.tables[s.Current()] && s.tables[s.Current()][key].enabled == v
  }

  /** Enablement `v` of `key` is settled: no running update is going to bring another one back. */
  ghost predicate Settled(s: State, key: Key, v: bool) {
    CellIs(s, key, v) && (Cloned(s, key) ==> Clone(s, key).enabled == v)
  }

  /** A stale clone with enablement `v` is on its way into the current table. */
  ghost predicate Overtaken(s: State, key: Key, v: bool) {
    s.tables != [] && key in s.tables[s.Current()] && Cloned(s, key) && Clone(s, key).enabled == v
  }

  /**
   * The step does not itself decide the enablement of `key`: no executed toggle, no override, and
   * an update adopts the backend at most once and while it is still in the table.
   */
  ghost predicate Quiet(s: State, a: Action, key: Key)
    requires s.tables != []
  {
    match a
    case Toggle(r) => !(r in s.requests && s.requests[r].Toggling? && s.requests[r].key == key)
    case OverrideOne(k) => k != key
    case AdoptOne(b, _) =>
      b.key == key && s.bg.Adopting? ==>
        key in s.tables[s.Current()] && key !in s.bg.table && key !in s.bg.enablement
    case _ => true
  }

  /** The table of an update that drops the backend ends the story. */
  ghost predicate Dropped(s: State, key: Key) {
    s.tables == [] || key !in s.tables[s.Current()]
  }

  lemma BackgroundKeepsSettled(s: State, a: Action, s': State, key: Key, v: bool)
    requires s.tables != [] && BackgroundStep(s, a, s') && Quiet(s, a, key) && Settled(s, key, v) && !Dropped(s', key)
    ensures Settled(s', key, v)
  {
  }

  /** Only the background task's steps, and toggles of that very backend, touch a cell's enablement. */
  lemma OthersKeepCells(s: State, a: Action, s': State, key: Key)
    requires s.tables != [] && (SwitchStep(s, a, s') || RequestStep(s, a, s')) && Quiet(s, a, key)
    ensures s'.bg == s.bg && |s'.tables| == |s.tables|
    ensures key in s'.tables[s'.Current()] <==> key in s.tables[s.Current()]
    ensures key in s.tables[s.Current()] ==> s'.tables[s'.Current()][key] == s.tables[s.Current()][key]
  {
  }

  lemma QuietKeepsSettled(s: State, a: Action, s': State, key: Key, v: bool)
    requires Next(s, a, s') && Quiet(s, a, key) && Settled(s, key, v) && !Dropped(s', key)
    ensures Settled(s', key, v)
  {
    if BackgroundStep(s, a, s') {
      BackgroundKeepsSettled(s, a, s', key, v);
    } else {
      OthersKeepCells(s, a, s', key);
    }
  }

  lemma BackgroundKeepsOvertaken(s: State, a: Action, s': State, key: Key, v: bool)
    requires s.tables != [] && BackgroundStep(s, a, s') && Quiet(s, a, key) && Overtaken(s, key, v) && !Dropped(s', key)
    ensures Overtaken(s', key, v) || Settled(s', key, v)
  {
  }

  lemma QuietKeepsOvertaken(s: State, a: Action, s': State, key: Key, v: bool)
    requires Next(s, a, s') && Quiet(s, a, key) && Overtaken(s, key, v) && !Dropped(s', key)
    ensures Overtaken(s', key, v) || Settled(s', key, v)
  {
    if BackgroundStep(s, a, s') {
      BackgroundKeepsOvertaken(s, a, s', key, v);
    } else {
      OthersKeepCells(s, a, s', key);
    }
  }

  /** Nothing happens to the registry, or a quiet step. */
  ghost predicate QuietStep(s: State, a: Action, s': State, key: Key) {
    s' == s || (Next(s, a, s') && Quiet(s, a, key))
  }

  ghost predicate QuietRun(states: seq<State>, actions: seq<Action>, key: Key) {
    && |states| == |actions| + 1
    && (forall i | 0 <= i < |states| :: !Dropped(states[i], key))
    && forall i | 0 <= i < |actions| :: QuietStep(states[i], actions[i], states[i + 1], key)
  }

  lemma {:induction false} QuietRunKeepsSettled(states: seq<State>, actions: seq<Action>, key: Key, v: bool, n: nat)
    requires QuietRun(states, actions, key) && Settled(states[0], key, v) && n <= |actions|
    ensures Settled(states[n], key, v)
  {
    if n > 0 {
      QuietRunKeepsSettled(states, actions, key, v, n - 1);
      assert QuietStep(states[n - 1], actions[n - 1], states[n], key);
      if states[n] != states[n - 1] { QuietKeepsSettled(states[n - 1], actions[n - 1], states[n], key, v); }
    }
  }

  lemma {:induction false} QuietRunKeepsOvertaken(states: seq<State>, actions: seq<Action>, key: Key, v: bool, n: nat)
    requires QuietRun(states, actions, key) && Overtaken(states[0], key, v) && n <= |actions|
    ensures Overtaken(states[n], key, v) || Settled(states[n], key, v)
  {
    if n > 0 {
      QuietRunKeepsOvertaken(states, actions, key, v, n - 1);
      assert QuietStep(states[n - 1], actions[n - 1], states[n], key);
      if states[n] != states[n - 1] {
        if Overtaken(states[n - 1], key, v) {
          QuietKeepsOvertaken(states[n - 1], actions[n - 1], states[n], key, v);
        } else {
          QuietKeepsSettled(states[n - 1], actions[n - 1], states[n], key, v);
        }
      }
    }
  }

  /**
   * A `set_enable` that asks for a change is lasting exactly when the table it loaded is still the
   * current one and no running update has cloned the cell yet; otherwise the update stores the old
   * enablement over it. `states` is any later run, up to a point where the background task is idle,
   * in which nothing else decides the enablement of that backend and no update drops it.
   */
  lemma SetEnableLastsIff(s: State, r: nat, states: seq<State>, actions: seq<Action>, key: Key, on: bool)
    requires s.tables != [] && r in s.requests && s.requests[r].Toggling?
    requires s.requests[r].key == key && s.requests[r].on == on && s.requests[r].table < |s.tables|
    requires CellIs(s, key, !on) && (Cloned(s, key) ==> Clone(s, key).enabled == !on)
    requires QuietRun(states, actions, key) && RequestStep(s, Toggle(r), states[0])
    requires states[|actions|].bg == Idle
    ensures CellIs(states[|actions|], key, on) <==> s.requests[r].table == s.Current() && !Cloned(s, key)
  {
    var n := |actions|;
    if s.requests[r].table == s.Current() && !Cloned(s, key) {
      QuietRunKeepsSettled(states, actions, key, on, n);
    } else if s.requests[r].table == s.Current() {
      QuietRunKeepsOvertaken(states, actions, key, !on, n);
    } else {
      QuietRunKeepsSettled(states, actions, key, !on, n);
    }
  }
}
