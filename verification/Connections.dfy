/**
 * Active-connection counting (strategy/fewest_connections.rs:15-36, proxy.rs:704, 837-839, 866-868):
 * the counters against the streams that are actually open.
 */
module Connections {
  import opened Core
  import opened Selection
  import Registry

  function Up(c: U64): (r: U64)
    ensures r == Wrap(c + 1)
  {
    if c + 1 == WORD then 0 else c + 1
  }

  /** The inverse of `Up`. */
  function Down(c: U64): (r: U64)
    ensures Wrap(r + 1) == c
  {
    if c == 0 then WORD - 1 else c - 1
  }

  /** `ActiveConnections`: a shared 64-bit counter whose additions and subtractions wrap. */
  class ActiveConnections {
    var count: U64

    constructor (initial: U64)
      ensures count == initial
    {
      count := initial;
    }

    method Increment()
      modifies this
      ensures count == Wrap(old(count) + 1) == Up(old(count))
    {
      count := if count + 1 == WORD then 0 else count + 1;
    }

    method Decrement()
      modifies this
      ensures Wrap(count + 1) == old(count) && count == Down(old(count))
    {
      count := if count == 0 then WORD - 1 else count - 1;
    }
  }

  /**
   * `counters` are the metrics cells handed out so far; `backend` is the cell of each request's
   * `ctx.backend`; `open` is the cell of the stream each request really has open.
   */
  datatype State = State(
    registry: Registry.State,
    counters: map<Handle, U64>,
    backend: map<nat, Handle>,
    open: map<nat, Handle>)

  datatype Step =
    | Choose(request: nat, cell: Handle)
    | Connected(request: nat)
    | StreamEnded(request: nat)
    | Discover(found: seq<Backend>, enablement: map<Key, bool>)

  /** Known cells keep their count, new ones start at zero, and every backend of `r` has one. */
  ghost predicate WithNewCells(before: map<Handle, U64>, after: map<Handle, U64>, r: Registry.State) {
    && before.Keys <= after.Keys
    && (forall cell | cell in after :: after[cell] == if cell in before then before[cell] else 0)
    && (forall b | b in r.backends :: b.metrics in after)
  }

  /**
   * The hook order: a stream is opened by the connect hook for the chosen backend, and a request
   * chooses again, or connects again, only after the end hook of the stream it opened before.
   */
  ghost predicate HookOrder(s: State, a: Step) {
    match a
    case Choose(r, _) => r !in s.open
    case Connected(r) => r !in s.open
    case StreamEnded(r) => r in s.open
    case _ => true
  }

  /** What the hooks do; both count on the cell of `ctx.backend`, whatever stream is open. */
  ghost predicate Next(s: State, a: Step, s': State) {
    match a
    case Choose(r, cell) =>
      cell in s.counters && s' == s.(backend := s.backend[r := cell])
    case Connected(r) =>
      && r in s.backend && s.backend[r] in s.counters
      && s' == s.(counters := s.counters[s.backend[r] := Up(s.counters[s.backend[r]])],
                  open := s.open[r := s.backend[r]])
    case StreamEnded(r) =>
      && r in s.backend && s.backend[r] in s.counters
      && s' == s.(counters := s.counters[s.backend[r] := Down(s.counters[s.backend[r]])],
                  open := s.open - {r})
    case Discover(found, enablement) =>
      && Ordered(found) && Registry.UpdateStep(s.registry, found, enablement, s'.registry)
      && WithNewCells(s.counters, s'.counters, s'.registry)
      && s'.backend == s.backend && s'.open == s.open
  }

  ghost function On(open: map<nat, Handle>, cell: Handle): set<nat> {
    set r | r in open && open[r] == cell
  }

  ghost function OpenOn(s: State, cell: Handle): set<nat> { On(s.open, cell) }

  /** Every counter is the number of streams open on its cell (modulo 2^64, the counter's width). */
  ghost predicate Exact(s: State) {
    && (forall r | r in s.open :: s.open[r] in s.counters && r in s.backend && s.backend[r] == s.open[r])
    && (forall cell | cell in s.counters :: s.counters[cell] == Wrap(|OpenOn(s, cell)|))
  }

  /** Opening a stream on a cell adds one to the streams open there, and changes no other cell's. */
  lemma StreamOpened(open: map<nat, Handle>, r: nat, c: Handle, cell: Handle)
    requires r !in open
    ensures |On(open[r := c], cell)| == |On(open, cell)| + if c == cell then 1 else 0
  {
    if c == cell {
      assert On(open[r := c], cell) == On(open, cell) + {r};
    } else {
      assert On(open[r := c], cell) == On(open, cell);
    }
  }

  lemma StreamClosed(open: map<nat, Handle>, r: nat, cell: Handle)
    requires r in open
    ensures |On(open, cell)| == |On(open - {r}, cell)| + if open[r] == cell then 1 else 0
  {
    assert (open - {r})[r := open[r]] == open;
    StreamOpened(open - {r}, r, open[r], cell);
  }

  lemma ConnectKeepsExact(s: State, r: nat, s': State)
    requires Next(s, Connected(r), s') && HookOrder(s, Connected(r)) && Exact(s)
    ensures Exact(s')
  {
    forall cell | cell in s'.counters
      ensures s'.counters[cell] == Wrap(|OpenOn(s', cell)|)
    {
      StreamOpened(s.open, r, s.backend[r], cell);
      WrapSuccessor(|OpenOn(s, cell)|);
    }
  }

  lemma EndKeepsExact(s: State, r: nat, s': State)
    requires Next(s, StreamEnded(r), s') && HookOrder(s, StreamEnded(r)) && Exact(s)
    ensures Exact(s')
  {
    forall cell | cell in s'.counters
      ensures s'.counters[cell] == Wrap(|OpenOn(s', cell)|)
    {
      StreamClosed(s.open, r, cell);
      WrapSuccessor(|OpenOn(s', cell)|);
    }
  }

  lemma SameStreamsKeepExact(s: State, s': State)
    requires Exact(s) && s'.open == s.open && s.counters.Keys <= s'.counters.Keys
    requires forall r | r in s.open :: r in s'.backend && s'.backend[r] == s.backend[r]
    requires forall cell | cell in s'.counters ::
               s'.counters[cell] == if cell in s.counters then s.counters[cell] else 0
    ensures Exact(s')
  {
    forall cell | cell in s'.counters
      ensures s'.counters[cell] == Wrap(|OpenOn(s', cell)|)
    {
      assert OpenOn(s', cell) == OpenOn(s, cell);
      if cell !in s.counters {
        assert OpenOn(s, cell) == {};
      }
    }
  }

  lemma StepKeepsExact(s: State, a: Step, s': State)
    requires Next(s, a, s') && HookOrder(s, a) && Exact(s)
    ensures Exact(s')
  {
    match a
    case Connected(r) => ConnectKeepsExact(s, r, s');
    case StreamEnded(r) => EndKeepsExact(s, r, s');
    case _ => SameStreamsKeepExact(s, s');
  }

  ghost predicate Run(states: seq<State>, steps: seq<Step>) {
    && |states| == |steps| + 1
    && forall i | 0 <= i < |steps| :: Next(states[i], steps[i], states[i + 1])
  }

  /** Conservation: over any run that keeps the hook order the counters stay exact. */
  lemma {:induction false} CountersStayExact(states: seq<State>, steps: seq<Step>, n: nat)
    requires Run(states, steps) && n <= |steps| && Exact(states[0])
    requires forall i | 0 <= i < |steps| :: HookOrder(states[i], steps[i])
    ensures Exact(states[n])
  {
    if n > 0 {
      CountersStayExact(states, steps, n - 1);
      StepKeepsExact(states[n - 1], steps[n - 1], states[n]);
    }
  }

  /** With fewer than 2^64 streams a decrement never meets a zero counter. */
  lemma NeverBelowZero(s: State, r: nat, s': State)
    requires Exact(s) && Next(s, StreamEnded(r), s') && HookOrder(s, StreamEnded(r)) && |OpenOn(s, s.backend[r])| < WORD
    ensures s.counters[s.backend[r]] > 0
    ensures s'.counters[s.backend[r]] == s.counters[s.backend[r]] - 1
  {
    assert r in OpenOn(s, s.backend[r]);
  }

  /** A backend that survives an update keeps its cell and with it an exact count. */
  lemma SurvivorKeepsCount(s: State, found: seq<Backend>, enablement: map<Key, bool>, s': State, id: Id)
    requires Exact(s) && s.registry.Valid() && Next(s, Discover(found, enablement), s')
    requires Find(s.registry.backends, id).Some? && Find(s'.registry.backends, id).Some?
    requires Registry.CellOf(s.registry, id).value in s.counters
    ensures var cell := Registry.CellOf(s.registry, id).value;
            && Registry.CellOf(s'.registry, id) == Some(cell)
            && cell in s'.counters && s'.counters[cell] == s.counters[cell] == Wrap(|OpenOn(s', cell)|)
  {
    StepKeepsExact(s, Discover(found, enablement), s');
    if !Registry.SameIds(s.registry.backends, found) {
      var b := Find(s'.registry.backends, id).value;
      var i :| 0 <= i < |s'.registry.backends| && s'.registry.backends[i] == b;
      assert Registry.Adopted(s.registry.backends, s.registry.next, found[i], b, s'.registry.next);
    }
  }

  /**
   * The hook order is needed: a request that chooses another backend before its stream has ended
   * counts the end on the wrong cell, which wraps below zero while the old one never comes down.
   */
  lemma LateEndHookMiscounts(s0: State, s1: State, s2: State, s3: State, s4: State, r: nat, c: Handle, d: Handle)
    requires c != d && c in s0.counters && d in s0.counters && s0.open == map[]
    requires s0.counters[c] == s0.counters[d] == 0
    requires Next(s0, Choose(r, c), s1) && Next(s1, Connected(r), s2)
    requires Next(s2, Choose(r, d), s3) && Next(s3, StreamEnded(r), s4)
    ensures s4.open == map[] && s4.counters[c] == 1 && s4.counters[d] == WORD - 1
  {
  }
}
