/** Stretches of update and of `set_enable`, and a whole behaviour in which a `set_enable` is lost. */
module ProtocolRuns {
  import opened Core
  import opened HealthCheck
  import Registry
  import opened Protocol

  ghost predicate Chain(states: seq<State>, actions: seq<Action>) {
    && |states| == |actions| + 1
    && forall i | 0 <= i < |actions| :: Next(states[i], actions[i], states[i + 1])
  }

  predicate IsPlain(a: Action) {
    !a.LoadTable? && !a.Toggle? && !a.Forget? && (a.Discover? ==> a.enablement == map[])
  }

  /** Updates without overrides, and no step of a `set_enable`. */
  predicate Plain(actions: seq<Action>) {
    forall i | 0 <= i < |actions| :: IsPlain(actions[i])
  }

  /** No override is under way. */
  ghost predicate Bare(s: State) {
    && (s.bg.Overriding? ==> s.bg.rest == map[])
    && (s.bg.Adopting? ==> s.bg.enablement == map[])
  }

  lemma {:induction false} PlainStaysBare(states: seq<State>, actions: seq<Action>, n: nat)
    requires Chain(states, actions) && Plain(actions) && n <= |actions| && Bare(states[0])
    ensures Bare(states[n])
  {
    if n > 0 {
      PlainStaysBare(states, actions, n - 1);
      assert IsPlain(actions[n - 1]) && Next(states[n - 1], actions[n - 1], states[n]);
    }
  }

  lemma OneStep(s: State, a: Action, s': State)
    requires Next(s, a, s')
    ensures Chain([s, s'], [a])
  {
  }

  lemma Concat(states: seq<State>, actions: seq<Action>, states': seq<State>, actions': seq<Action>)
    requires Chain(states, actions) && Chain(states', actions') && states[|actions|] == states'[0]
    ensures Chain(states + states'[1..], actions + actions')
  {
    var all, steps := states + states'[1..], actions + actions';
    forall i | 0 <= i < |steps| ensures Next(all[i], steps[i], all[i + 1]) {
      if i < |actions| {
        assert Next(states[i], actions[i], states[i + 1]);
      } else {
        assert Next(states'[i - |actions|], actions'[i - |actions|], states'[i - |actions| + 1]);
        assert all[i] == states'[i - |actions|];
      }
    }
  }

  /** What the stores at the end of a merge leave. */
  function Stored(s: State): State
    requires s.bg.Adopting?
  {
    s.(lock := Free, bg := Idle, backends := s.bg.merged, selector := Selector(s.strategy, s.bg.merged, s.readings),
       readings := s.readings + 1, sets := s.sets + [s.bg.merged], tables := s.tables + [s.bg.table])
  }

  lemma StoreAll(s: State) returns (states: seq<State>, actions: seq<Action>)
    requires s.lock == Reading && s.tables != [] && s.bg.Adopting? && |s.bg.merged| == |s.bg.found|
    ensures Chain(states, actions) && Plain(actions)
    ensures states[0] == s && states[|actions|] == Stored(s)
  {
    var s1 := s.(selector := Selector(s.strategy, s.bg.merged, s.readings), readings := s.readings + 1,
                 bg := SelectorStored(s.bg.merged, s.bg.table));
    var s2 := s1.(backends := s.bg.merged, bg := BackendsStored(s.bg.table));
    var s3 := s2.(tables := s.tables + [s.bg.table], sets := s.sets + [s.bg.merged], bg := Releasing);
    var s4 := Stored(s);
    assert BackgroundStep(s, StoreSelector, s1) && BackgroundStep(s1, StoreBackends, s2);
    assert BackgroundStep(s2, StoreHealth, s3) && BackgroundStep(s3, ReleaseRead, s4);
    states, actions := [s, s1, s2, s3, s4], [StoreSelector, StoreBackends, StoreHealth, ReleaseRead];
  }

  /** An update that found `found` and no overrides has adopted the first backend as `first`. */
  function FirstAdopted(s: State, found: seq<Backend>, first: Backend, next: Handle): State
    requires s.tables != []
  {
    s.(lock := Reading, next := next,
       bg := Adopting(found, map[], s.next, [first], map[first.key := Registry.CarriedHealth(s.tables[s.Current()], map[], first.key)]))
  }

  lemma AdoptFirst(s: State, found: seq<Backend>, first: Backend, next: Handle)
    returns (states: seq<State>, actions: seq<Action>)
    requires s.lock == Free && s.bg == Idle && s.tables != []
    requires Ordered(found) && found != [] && !Registry.SameIds(s.backends, found)
    requires Registry.Adopted(s.backends, s.next, found[0], first, next) && s.next <= next
    ensures Chain(states, actions) && Plain(actions)
    ensures states[0] == s && states[|actions|] == FirstAdopted(s, found, first, next)
  {
    var s1 := s.(lock := Reading, bg := Discovering);
    var s2 := s1.(bg := Adopting(found, map[], s.next, [], map[]));
    var s3 := FirstAdopted(s, found, first, next);
    assert BackgroundStep(s, AcquireRead(false), s1) && BackgroundStep(s1, Discover(found, map[]), s2);
    assert BackgroundStep(s2, AdoptOne(first, next), s3) by {
      assert [] + [first] == [first];
    }
    states, actions := [s, s1, s2, s3], [AcquireRead(false), Discover(found, map[]), AdoptOne(first, next)];
  }

  /** The state after the first update found just `b`. */
  function WithOne(s: State, b: Backend): State {
    var first := b.(metrics := s.next);
    s.(backends := [first], selector := Selector(s.strategy, [first], s.readings), readings := s.readings + 1,
       sets := s.sets + [[first]],
       tables := s.tables + [map[b.key := DEFAULT]], next := s.next + 1)
  }

  /** From the start: an update finds `b`. */
  lemma FirstUpdate(s: State, b: Backend) returns (states: seq<State>, actions: seq<Action>)
    requires Init(s)
    ensures Chain(states, actions) && Plain(actions)
    ensures states[0] == s && states[|actions|] == WithOne(s, b)
  {
    var first := b.(metrics := s.next);
    states, actions := AdoptFirst(s, [b], first, s.next + 1);
    var rest, a := StoreAll(FirstAdopted(s, [b], first, s.next + 1));
    Concat(states, actions, rest, a);
    states, actions := states + rest[1..], actions + a;
  }

  /** A second update, which finds `b` and `c`, has cloned the health of `b`. */
  function Cloning(s: State, b: Backend, c: Backend): State
    requires s.tables != [] && s.backends != []
  {
    FirstAdopted(s, [b, c], s.backends[0], s.next)
  }

  lemma CloneFirst(s: State, b: Backend, c: Backend) returns (states: seq<State>, actions: seq<Action>)
    requires s.lock == Free && s.bg == Idle && s.tables != [] && |s.backends| == 1
    requires s.backends[0] == b.(metrics := s.backends[0].metrics) && b.ext == map[] && Less(b.id, c.id)
    ensures Chain(states, actions) && Plain(actions)
    ensures states[0] == s && states[|actions|] == Cloning(s, b, c)
  {
    var first := s.backends[0];
    assert FindFrom(s.backends, b.id, 0) == Some(first);
    assert b.ext + first.ext == b.ext;
    states, actions := AdoptFirst(s, [b, c], first, s.next);
  }

  /** The state after the second update, which stores the clone whatever became of the cell meanwhile. */
  function WithTwo(s: State, b: Backend, c: Backend, clone: HealthInner): State
    requires s.backends != []
  {
    var both := [s.backends[0], c.(metrics := s.next)];
    s.(lock := Free, bg := Idle, backends := both, selector := Selector(s.strategy, both, s.readings),
       readings := s.readings + 1, sets := s.sets + [both],
       tables := s.tables + [map[b.key := clone, c.key := DEFAULT]], next := s.next + 1)
  }

  lemma CloneSecond(s: State, b: Backend, c: Backend, clone: HealthInner) returns (states: seq<State>, actions: seq<Action>)
    requires s.lock == Reading && s.tables != [] && |s.backends| == 1 && b.key != c.key && c.key !in s.tables[s.Current()]
    requires s.backends[0].id == b.id != c.id
    requires s.bg == Adopting([b, c], map[], s.next, s.backends, map[b.key := clone])
    ensures Chain(states, actions) && Plain(actions)
    ensures states[0] == s && states[|actions|] == WithTwo(s, b, c, clone)
  {
    var second := c.(metrics := s.next);
    var both := [s.backends[0], second];
    var table := map[b.key := clone, c.key := DEFAULT];
    var s1 := s.(next := s.next + 1, bg := Adopting([b, c], map[], s.next, both, table));
    assert BackgroundStep(s, AdoptOne(second, s.next + 1), s1) by {
      assert Find(s.backends, c.id).None?;
      assert s.backends + [second] == both;
      assert map[b.key := clone][c.key := DEFAULT] == table;
    }
    OneStep(s, AdoptOne(second, s.next + 1), s1);
    var rest, a := StoreAll(s1);
    Concat([s, s1], [AdoptOne(second, s.next + 1)], rest, a);
    states, actions := [s, s1] + rest[1..], [AdoptOne(second, s.next + 1)] + a;
  }

  /** `set_enable` on the current table, as two steps with nothing between them. */
  lemma SetEnableAtOnce(s: State, r: nat, key: Key, on: bool) returns (states: seq<State>, actions: seq<Action>)
    requires s.tables != [] && r !in s.requests
    ensures Chain(states, actions) && actions == [LoadTable(r, key, on), Toggle(r)] && states[0] == s
    ensures states[1].requests == s.requests[r := Toggling(key, on, s.Current())]
    ensures states[2] == s.(tables := s.tables[s.Current() := Registry.WithEnabled(s.tables[s.Current()], key, on)])
  {
    var s1 := s.(requests := s.requests[r := Toggling(key, on, s.Current())]);
    var s2 := s.(tables := s.tables[s.Current() := Registry.WithEnabled(s.tables[s.Current()], key, on)]);
    assert s1.requests - {r} == s.requests;
    assert RequestStep(s, LoadTable(r, key, on), s1) && RequestStep(s1, Toggle(r), s2);
    states, actions := [s, s1, s2], [LoadTable(r, key, on), Toggle(r)];
  }

  /** The one `set_enable` in a behaviour, if it has one, is request `r`'s for `key` and `on`. */
  ghost predicate OnlyToggle(states: seq<State>, actions: seq<Action>, r: nat, key: Key, on: bool)
    requires |states| == |actions| + 1
  {
    forall i | 0 <= i < |actions| && actions[i].Toggle? ::
      actions[i] == Toggle(r) && r in states[i].requests && states[i].requests[r].Toggling?
      && states[i].requests[r].key == key && states[i].requests[r].on == on
  }

  /**
   * A whole behaviour that loses a `set_enable`: the backend is switched off after a second update
   * has cloned its health and before that update stores its table. At the end nothing is in progress
   * and the backend is enabled, although nobody asked for that.
   */
  lemma SetEnableLost(s: State, b: Backend, c: Backend, r: nat) returns (states: seq<State>, actions: seq<Action>)
    requires Init(s) && b.ext == map[] && Less(b.id, c.id) && b.key != c.key
    ensures Behavior(states, actions) && states[0] == s
    ensures Toggle(r) in actions && OnlyToggle(states, actions, r, b.key, false)
    ensures forall i | 0 <= i < |actions| && actions[i].Discover? :: actions[i].enablement == map[]
    ensures states[|actions|].lock == Free && states[|actions|].bg == Idle && states[|actions|].requests == map[]
    ensures CellIs(states[|actions|], b.key, true)
  {
    var one, a1 := FirstUpdate(s, b);
    var two, a2 := CloneFirst(WithOne(s, b), b, c);
    var load, a3 := SetEnableAtOnce(Cloning(WithOne(s, b), b, c), r, b.key, false);
    var rest, a4 := CloneSecond(load[2], b, c, DEFAULT);
    Concat(one, a1, two, a2);
    var upto, a12 := one + two[1..], a1 + a2;
    Concat(load, a3, rest, a4);
    var after, a34 := load + rest[1..], a3 + a4;
    Concat(upto, a12, after, a34);
    states, actions := upto + after[1..], a12 + a34;
    assert actions[|a12| + 1] == Toggle(r);
    assert Plain(a12) && actions == a12 + a3 + a4;
    assert forall i | 0 <= i < |actions| && actions[i].Toggle? :: i == |a12| + 1;
    assert states[|a12| + 1] == load[1];
  }
}
