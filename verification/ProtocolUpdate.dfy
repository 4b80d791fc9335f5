/**
 * The two models of `do_update` agree: an update that runs step by step with nothing in between makes
 * exactly the update of the registry.
 */
module ProtocolUpdate {
  import opened Core
  import opened HealthCheck
  import opened Protocol
  import Registry

  /** What the registry holds in a state of the protocol. */
  function Held(s: State): Registry.State
    requires s.tables != []
  {
    Registry.State(s.backends, s.tables[s.Current()], s.next)
  }

  predicate OfUpdate(a: Action) {
    a.OverrideOne? || a.AdoptOne? || a.StoreSelector? || a.StoreBackends? || a.StoreHealth?
  }

  /** The steps of one update, from its discovery to the release of the read guard, and no others. */
  ghost predicate UpdateStretch(states: seq<State>, actions: seq<Action>, found: seq<Backend>, enablement: map<Key, bool>) {
    && |states| == |actions| + 1 && |actions| > 1
    && (forall i | 0 <= i < |actions| :: states[i].tables != [] && BackgroundStep(states[i], actions[i], states[i + 1]))
    && states[0].bg == Discovering && actions[0] == Discover(found, enablement)
    && (forall i | 0 < i < |actions| - 1 :: OfUpdate(actions[i]))
    && actions[|actions| - 1] == ReleaseRead
  }

  /** The overrides still to come have not been applied, the others have. */
  ghost predicate PartlyOverridden(before: Registry.Table, enablement: map<Key, bool>, rest: map<Key, bool>, table: Registry.Table) {
    && (forall key | key in rest :: key in enablement && rest[key] == enablement[key])
    && table.Keys == before.Keys
    && (forall key | key in before ::
          table[key] == if key in rest then before[key] else Registry.CarriedHealth(before, enablement, key))
  }

  /** `table` gives just `keys` the health an update of `before` carries over. */
  ghost predicate Carries(before: Registry.Table, enablement: map<Key, bool>, table: Registry.Table, keys: set<Key>) {
    table.Keys == keys && forall key | key in table :: table[key] == Registry.CarriedHealth(before, enablement, key)
  }

  lemma CarriesOneMore(before: Registry.Table, enablement: map<Key, bool>, table: Registry.Table, keys: set<Key>, key: Key)
    requires Carries(before, enablement, table, keys)
    ensures Carries(before, enablement, table[key := Registry.CarriedHealth(before, enablement, key)], keys + {key})
  {
  }

  /** `merged` and `table` are what the update has made of the first `n` backends found. */
  ghost predicate PartlyMerged(s: State, found: seq<Backend>, enablement: map<Key, bool>, n: nat,
                               merged: seq<Backend>, table: Registry.Table, next: Handle)
    requires s.tables != [] && n <= |found|
  {
    && Registry.Merged(s.backends, s.next, found[..n], merged, next)
    && Carries(s.tables[s.Current()], enablement, table, Registry.KeySet(merged))
  }

  /** Where the update that started in `s` is in `s'`. */
  ghost predicate Underway(s: State, found: seq<Backend>, enablement: map<Key, bool>, s': State)
    requires s.tables != []
  {
    && s'.tables != []
    && match s'.bg
       case Overriding(rest) =>
         && Registry.SameIds(s.backends, found) && s'.backends == s.backends && s'.next == s.next
         && PartlyOverridden(s.tables[s.Current()], enablement, rest, s'.tables[s'.Current()])
       case Adopting(f, e, base, merged, table) =>
         && !Registry.SameIds(s.backends, found) && Held(s').(next := s.next) == Held(s)
         && f == found && e == enablement && base == s.next && |merged| <= |found|
         && PartlyMerged(s, found, enablement, |merged|, merged, table, s'.next)
       case SelectorStored(merged, table) =>
         && !Registry.SameIds(s.backends, found)
         && PartlyMerged(s, found, enablement, |found|, merged, table, s'.next)
       case BackendsStored(table) =>
         && !Registry.SameIds(s.backends, found)
         && PartlyMerged(s, found, enablement, |found|, s'.backends, table, s'.next)
       case Releasing => Registry.UpdateStep(Held(s), found, enablement, Held(s'))
       case _ => false
  }

  lemma DiscoverStarts(s: State, found: seq<Backend>, enablement: map<Key, bool>, s': State)
    requires s.tables != [] && BackgroundStep(s, Discover(found, enablement), s')
    ensures Underway(s, found, enablement, s')
  {
  }

  lemma OverrideContinues(s: State, found: seq<Backend>, enablement: map<Key, bool>, s1: State, key: Key, s2: State)
    requires s.tables != [] && Underway(s, found, enablement, s1) && BackgroundStep(s1, OverrideOne(key), s2)
    ensures Underway(s, found, enablement, s2)
  {
  }

  /** One more backend is adopted. */
  lemma MergeContinues(s: State, found: seq<Backend>, enablement: map<Key, bool>, n: nat,
                       merged: seq<Backend>, table: Registry.Table, next: Handle, b: Backend, next': Handle)
    requires s.tables != [] && Held(s).Valid() && Ordered(found) && n < |found|
    requires PartlyMerged(s, found, enablement, n, merged, table, next) && next <= next'
    requires Registry.Adopted(s.backends, s.next, found[n], b, next')
    requires Find(s.backends, found[n].id).None? ==> next <= b.metrics
    ensures var health := Registry.CarriedHealth(s.tables[s.Current()], enablement, b.key);
            PartlyMerged(s, found, enablement, n + 1, merged + [b], table[b.key := health], next')
  {
    Registry.MergeOneMore(s.backends, s.next, found, n, merged, next, b, next');
    CarriesOneMore(s.tables[s.Current()], enablement, table, Registry.KeySet(merged), b.key);
  }

  /** What one adoption does. */
  ghost predicate Adopts(s1: State, b: Backend, next: Handle, s2: State)
    requires s1.tables != []
  {
    && s1.bg.Adopting? && |s1.bg.merged| < |s1.bg.found| && s1.next <= next
    && Registry.Adopted(s1.backends, s1.bg.base, s1.bg.found[|s1.bg.merged|], b, next)
    && (Find(s1.backends, s1.bg.found[|s1.bg.merged|].id).None? ==> s1.next <= b.metrics)
    && s2.backends == s1.backends && s2.tables == s1.tables && s2.next == next
    && s2.bg == s1.bg.(merged := s1.bg.merged + [b],
                       table := s1.bg.table[b.key :=
                         Registry.CarriedHealth(s1.tables[s1.Current()], s1.bg.enablement, b.key)])
  }

  lemma AdoptOneAdopts(s1: State, b: Backend, next: Handle, s2: State)
    requires s1.tables != [] && BackgroundStep(s1, AdoptOne(b, next), s2)
    ensures Adopts(s1, b, next, s2)
  {
  }

  lemma AdoptContinues(s: State, found: seq<Backend>, enablement: map<Key, bool>, s1: State, b: Backend, next: Handle, s2: State)
    requires s.tables != [] && Held(s).Valid() && Ordered(found)
    requires Underway(s, found, enablement, s1) && Adopts(s1, b, next, s2)
    ensures Underway(s, found, enablement, s2)
  {
    MergeContinues(s, found, enablement, |s1.bg.merged|, s1.bg.merged, s1.bg.table, s1.next, b, next);
  }

  lemma StoreContinues(s: State, found: seq<Backend>, enablement: map<Key, bool>, s1: State, a: Action, s2: State)
    requires s.tables != [] && Underway(s, found, enablement, s1) && BackgroundStep(s1, a, s2)
    requires a.StoreSelector? || a.StoreBackends? || a.StoreHealth?
    ensures Underway(s, found, enablement, s2)
  {
    assert found[..|found|] == found;
  }

  lemma AllOverridden(before: Registry.Table, enablement: map<Key, bool>, table: Registry.Table)
    requires PartlyOverridden(before, enablement, map[], table)
    ensures table == Registry.Overridden(before, enablement)
  {
  }

  lemma ReleaseEnds(s: State, found: seq<Backend>, enablement: map<Key, bool>, s1: State, s2: State)
    requires s.tables != [] && Underway(s, found, enablement, s1) && BackgroundStep(s1, ReleaseRead, s2)
    ensures s2.tables != [] && Registry.UpdateStep(Held(s), found, enablement, Held(s2))
  {
    if s1.bg.Overriding? {
      AllOverridden(s.tables[s.Current()], enablement, s1.tables[s1.Current()]);
    }
  }

  lemma {:induction false} StaysUnderway(
      states: seq<State>, actions: seq<Action>, found: seq<Backend>, enablement: map<Key, bool>, n: nat)
    requires UpdateStretch(states, actions, found, enablement) && 0 < n < |actions| && Held(states[0]).Valid()
    ensures Underway(states[0], found, enablement, states[n])
  {
    assert BackgroundStep(states[n - 1], actions[n - 1], states[n]);
    if n == 1 {
      DiscoverStarts(states[0], found, enablement, states[1]);
    } else {
      StaysUnderway(states, actions, found, enablement, n - 1);
      assert OfUpdate(actions[n - 1]);
      assert Ordered(found) by { assert BackgroundStep(states[0], actions[0], states[1]); }
      var s, a, s' := states[n - 1], actions[n - 1], states[n];
      if a.OverrideOne? {
        OverrideContinues(states[0], found, enablement, s, a.key, s');
      } else if a.AdoptOne? {
        AdoptOneAdopts(s, a.backend, a.next, s');
        AdoptContinues(states[0], found, enablement, s, a.backend, a.next, s');
      } else {
        StoreContinues(states[0], found, enablement, s, a, s');
      }
    }
  }

  /** Undisturbed, the steps from the discovery to the release of the guard make one update of the registry. */
  lemma UndisturbedUpdate(states: seq<State>, actions: seq<Action>, found: seq<Backend>, enablement: map<Key, bool>)
    requires UpdateStretch(states, actions, found, enablement) && Held(states[0]).Valid()
    ensures states[|actions|].tables != [] && Ordered(found)
    ensures Registry.UpdateStep(Held(states[0]), found, enablement, Held(states[|actions|]))
  {
    var n := |actions| - 1;
    StaysUnderway(states, actions, found, enablement, n);
    assert BackgroundStep(states[0], actions[0], states[1]);
    ReleaseEnds(states[0], found, enablement, states[n], states[n + 1]);
  }

  /** A probe is the registry's probe event. */
  lemma ProbeIsEvent(s: State, key: Key, ok: bool, t: Thresholds, s': State)
    requires Next(s, ProbeOne(key, ok, t), s')
    ensures s'.tables != [] && Registry.Step(Held(s), Registry.Probe(key, ok), Held(s'), t)
  {
  }

  /** A `set_enable` with nothing between its steps is the registry's event. */
  lemma UndisturbedSetEnable(s: State, r: nat, key: Key, on: bool, s1: State, s2: State, t: Thresholds)
    requires Next(s, LoadTable(r, key, on), s1) && Next(s1, Toggle(r), s2)
    ensures s2.tables != [] && Registry.Step(Held(s), Registry.SetEnable(key, on), Held(s2), t)
  {
  }

  /**
   * A select with nothing between its steps judges a backend of the current selector by the current
   * health table; outside of updates and switches that is a backend of the current set.
   */
  lemma UndisturbedSelect(states: seq<State>, actions: seq<Action>, i: nat, r: nat, b: Backend)
    requires Behavior(states, actions) && i + 3 <= |actions|
    requires actions[i] == LoadSelector(r) && actions[i + 1] == Consult(r, b) && actions[i + 2] == Judge(r)
    ensures states[i].tables != [] && r in states[i + 3].requests && b in states[i].selector.backends
    ensures states[i].lock == Free ==> b in states[i].backends
    ensures var table := states[i].tables[|states[i].tables| - 1];
            states[i + 3].requests[r].Returned? <==>
              if b.key in table then table[b.key].healthy && table[b.key].enabled else !states[i].healthCheck
  {
    assert Next(states[i], actions[i], states[i + 1]);
    assert Next(states[i + 1], actions[i + 1], states[i + 2]);
    assert Next(states[i + 2], actions[i + 2], states[i + 3]);
    JudgedIff(states[i + 2], r, states[i + 3]);
    if states[i].lock == Free { UnlockedSelectorIsCurrent(states, actions, i); }
  }
}
