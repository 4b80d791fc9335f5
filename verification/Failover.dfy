/**
 * Per-request failover (routini/src/proxy.rs:639-798, adaptive_loadbalancer.rs:57-75): choosing a
 * peer that was not tried, and deciding whether a failed connect is retried.
 */
module Failover {
  import opened Core
  import Registry
  import PassiveHealth
  import opened Selection
  import opened RoundRobin
  import SortedSelectors

  datatype RetryConfig = RetryConfig(maxRetries: nat, retryOnConnectError: bool)

  /** The per-request context: addresses attempted, and the backend of the attempt in progress. */
  class ConnectionCtx {
    var tried: seq<Addr>
    var backend: Option<Backend>

    constructor ()
      ensures tried == [] && backend == None
    {
      tried := [];
      backend := None;
    }
  }

  /** The acceptance test of `select_excluding`. */
  function Untried(healthCheck: bool, table: Registry.Table, tried: seq<Addr>): Backend -> bool {
    (b: Backend) => Registry.IsReady(healthCheck, table, b.key) && b.id.addr !in tried
  }

  /** The health table after the backends of the first `n` entries were enabled. */
  function EnabledAll(table: Registry.Table, entries: seq<PassiveHealth.Ejection>, n: nat): Registry.Table
    requires n <= |entries|
  {
    if n == 0 then table
    else Registry.WithEnabled(EnabledAll(table, entries, n - 1), entries[n - 1].backend.key, true)
  }

  // ---------------------------------------------------------------------------------------------
  // What "No healthy backends" means.

  /** If the select's budget covers the backends, it fails only when every ready address was tried. */
  lemma NoneMeansAllTried(s: Stream, max: nat, healthCheck: bool, table: Registry.Table, tried: seq<Addr>,
                          k: nat, backends: seq<Backend>)
    requires Ordered(backends) && KeysDiffer(backends) && Covers(s, max, backends)
    requires Selected(s, max, Untried(healthCheck, table, tried), None, k)
    ensures forall b | b in backends && Registry.IsReady(healthCheck, table, b.key) :: b.id.addr in tried
  {
    var accept := Untried(healthCheck, table, tried);
    CoveringSelectDecides(s, max, accept, None, k, backends);
    forall b | b in backends && Registry.IsReady(healthCheck, table, b.key)
      ensures b.id.addr in tried
    {
      assert accept(b) <==> b.id.addr !in tried;
    }
  }

  /** With round robin: a budget of n + 1 without a counter wrap, or of 2 n, is large enough. */
  lemma RoundRobinNoneMeansAllTried(w: WeightedSelector, start: nat, max: nat, healthCheck: bool,
                                    table: Registry.Table, tried: seq<Addr>, k: nat)
    requires w.Selectable() && 0 < |w.backends| <= 0xFFFF
    requires Ordered(w.backends) && KeysDiffer(w.backends)
    requires (max > |w.backends| && NoWrap(start, |w.backends|)) || max >= 2 * |w.backends|
    requires Selected(Tickets(w, start), max, Untried(healthCheck, table, tried), None, k)
    ensures forall b | b in w.backends && Registry.IsReady(healthCheck, table, b.key) :: b.id.addr in tried
  {
    RoundRobinCovers(w, start, max);
    NoneMeansAllTried(Tickets(w, start), max, healthCheck, table, tried, k, w.backends);
  }

  /** With a sorted selector a budget of n is. */
  lemma SortedNoneMeansAllTried(sorted: seq<Backend>, backends: seq<Backend>, snapshot: SortedSelectors.Snapshot,
                                max: nat, healthCheck: bool, table: Registry.Table, tried: seq<Addr>, k: nat)
    requires SortedSelectors.IsSortedSelector(sorted, backends, snapshot)
    requires Ordered(backends) && KeysDiffer(backends) && max >= |backends|
    requires Selected(Listed(sorted), max, Untried(healthCheck, table, tried), None, k)
    ensures forall b | b in backends && Registry.IsReady(healthCheck, table, b.key) :: b.id.addr in tried
  {
    var accept := Untried(healthCheck, table, tried);
    SortedSelectors.SortedSelectIsArgmin(sorted, backends, snapshot, max, accept, None, k);
    assert |sorted| == |multiset(sorted)| == |backends|;
    assert sorted[..|sorted|] == sorted || max < |sorted|;
    forall b | b in backends && Registry.IsReady(healthCheck, table, b.key)
      ensures b.id.addr in tried
    {
      assert b in multiset(sorted);
      assert accept(b) <==> b.id.addr !in tried;
    }
  }

  function BackendsOf(selector: AdaptiveSelector): seq<Backend> {
    match selector
    case RoundRobin(w) => w.backends
    case Sorted(b) => b
    case Other(_) => []
  }

  /** A budget that sees every backend in any case: 2 n with round robin, n with a sorted selector. */
  ghost predicate AmpleBudget(selector: AdaptiveSelector, max: nat) {
    match selector
    case RoundRobin(w) =>
      0 < |w.backends| <= 0xFFFF && Ordered(w.backends) && KeysDiffer(w.backends) && max >= 2 * |w.backends|
    case Sorted(b) =>
      exists backends, snapshot :: SortedSelectors.IsSortedSelector(b, backends, snapshot)
        && Ordered(backends) && KeysDiffer(backends) && max >= |backends|
    case Other(_) => false
  }

  lemma AmpleBudgetTriesAll(selector: AdaptiveSelector, issued: nat, max: nat, healthCheck: bool,
                            table: Registry.Table, tried: seq<Addr>, k: nat)
    requires selector.Valid()
    requires Selected(selector.Items(issued), max, Untried(healthCheck, table, tried), None, k)
    ensures AmpleBudget(selector, max) ==>
              forall b | b in BackendsOf(selector) && Registry.IsReady(healthCheck, table, b.key) :: b.id.addr in tried
  {
    if AmpleBudget(selector, max) {
      match selector
      case RoundRobin(w) => RoundRobinNoneMeansAllTried(w, issued, max, healthCheck, table, tried, k);
      case Sorted(b) =>
        var backends, snapshot :| SortedSelectors.IsSortedSelector(b, backends, snapshot)
          && Ordered(backends) && KeysDiffer(backends) && max >= |backends|;
        SortedNoneMeansAllTried(b, backends, snapshot, max, healthCheck, table, tried, k);
        assert forall x :: x in b <==> x in multiset(b);
        assert forall x :: x in backends <==> x in multiset(backends);
    }
  }

  // ---------------------------------------------------------------------------------------------
  // The hooks of a request.

  /** The registry's table and the tracker after the expired ejections were worked off at `now`. */
  ghost predicate Restored(cfg: PassiveHealth.Config, table: Registry.Table, tracker: PassiveHealth.Tracker, now: nat,
                           table': Registry.Table, tracker': PassiveHealth.Tracker) {
    var entries := tracker.ejections;
    var expired := PassiveHealth.Expired(entries, now, |entries|);
    if cfg.enabled then
      && table' == EnabledAll(table, expired, |expired|)
      && tracker' == tracker.(ejections := PassiveHealth.Running(entries, now, |entries|))
    else
      table' == table && tracker' == tracker
  }

  function Addrs(s: seq<Backend>): seq<Addr> {
    seq(|s|, i requires 0 <= i < |s| => s[i].id.addr)
  }

  ghost predicate DistinctAddrs(s: seq<Backend>) {
    forall i, j | 0 <= i < j < |s| :: s[i].id.addr != s[j].id.addr
  }

  lemma AddrsAppend(s: seq<Backend>, b: Backend)
    requires DistinctAddrs(s) && b.id.addr !in Addrs(s)
    ensures Addrs(s + [b]) == Addrs(s) + [b.id.addr] && DistinctAddrs(s + [b])
  {
    assert forall i | 0 <= i < |s| :: Addrs(s)[i] == s[i].id.addr;
  }

  /** A route: its balancer's registry and selector, and its passive-health tracker. */
  class Route {
    const registry: Registry.Backends
    const passive: PassiveHealth.PassiveHealth
    const retry: RetryConfig
    const maxIterations: nat
    var selector: AdaptiveSelector

    ghost predicate Valid()
      reads this, registry, selector.Footprint()
    {
      registry.Valid() && selector.Valid()
    }

    constructor (registry: Registry.Backends, passive: PassiveHealth.PassiveHealth, retry: RetryConfig,
                 maxIterations: nat, selector: AdaptiveSelector)
      requires registry.Valid() && selector.Valid()
      ensures Valid()
      ensures this.registry == registry && this.passive == passive && this.retry == retry
      ensures this.maxIterations == maxIterations && this.selector == selector
    {
      this.registry := registry;
      this.passive := passive;
      this.retry := retry;
      this.maxIterations := maxIterations;
      this.selector := selector;
    }

    /** Enables every backend whose ejection is over. */
    method RestoreExpired(now: nat)
      requires registry.Valid()
      modifies registry`health, passive
      ensures registry.Valid()
      ensures Restored(passive.config, old(registry.health), old(passive.Now()), now, registry.health, passive.Now())
    {
      var expired := passive.TakeExpired(now);
      ghost var taken := passive.Now();
      var i := 0;
      while i < |expired|
        invariant 0 <= i <= |expired| && passive.Now() == taken
        invariant registry.Valid()
        invariant registry.health == EnabledAll(old(registry.health), expired, i)
      {
        registry.SetEnable(expired[i].backend, true);
        i := i + 1;
      }
    }

    /** `select_excluding`, while no other request draws tickets. */
    method SelectExcluding(tried: seq<Addr>) returns (r: Option<Backend>, ghost k: nat)
      requires Valid()
      modifies selector.Footprint()
      ensures Valid()
      ensures Selected(selector.Items(old(selector.Issued())), maxIterations,
                       Untried(registry.healthCheck, registry.health, tried), r, k)
    {
      r, k := SelectWith(selector, maxIterations, Untried(registry.healthCheck, registry.health, tried));
    }

    /** Chooses the peer of the next attempt; None is the error "No healthy backends available". */
    method UpstreamPeer(ctx: ConnectionCtx, now: nat) returns (r: Option<Backend>, ghost k: nat)
      requires Valid()
      modifies ctx, registry`health, passive, selector.Footprint()
      ensures Valid()
      ensures Restored(passive.config, old(registry.health), old(passive.Now()), now, registry.health, passive.Now())
      ensures Selected(selector.Items(old(selector.Issued())), maxIterations,
                       Untried(registry.healthCheck, registry.health, old(ctx.tried)), r, k)
      ensures r.Some? ==>
                && r.value.id.addr !in old(ctx.tried)
                && Registry.IsReady(registry.healthCheck, registry.health, r.value.key)
                && ctx.tried == old(ctx.tried) + [r.value.id.addr] && ctx.backend == r
      ensures r.None? ==> ctx.tried == old(ctx.tried) && ctx.backend == old(ctx.backend)
    {
      RestoreExpired(now);
      r, k := SelectExcluding(ctx.tried);
      if r.None? {
        return;
      }
      ctx.tried := ctx.tried + [r.value.id.addr];
      ctx.backend := r;
    }

    /** Records a failed connect; returns whether the error is marked retryable. */
    method FailToConnect(ctx: ConnectionCtx, now: nat) returns (retryable: bool)
      requires Valid()
      modifies registry`health, passive
      ensures Valid()
      ensures retryable <==> retry.retryOnConnectError && |ctx.tried| <= retry.maxRetries
      ensures ctx.backend.Some? ==>
                var b := ctx.backend.value;
                && passive.Now() == PassiveHealth.Failed(passive.config, old(passive.Now()), b, now)
                && registry.health == if PassiveHealth.Ejects(passive.config, old(passive.Now()), b, now)
                                      then Registry.WithEnabled(old(registry.health), b.key, false)
                                      else old(registry.health)
      ensures ctx.backend.None? ==> passive.Now() == old(passive.Now()) && registry.health == old(registry.health)
    {
      if ctx.backend.Some? {
        var eject := passive.RecordFailure(ctx.backend.value, now);
        if eject {
          registry.SetEnable(ctx.backend.value, false);
        }
      }
      retryable := retry.retryOnConnectError && |ctx.tried| <= retry.maxRetries;
    }

    /** A select over the current selector and health table finds no ready, untried backend within its budget. */
    ghost predicate SelectFails(tried: seq<Addr>)
      reads this, registry
    {
      exists issued, k :: Selected(selector.Items(issued), maxIterations,
                                   Untried(registry.healthCheck, registry.health, tried), None, k)
    }

    lemma FailedSelectMeansAllTried(tried: seq<Addr>)
      requires Valid() && SelectFails(tried)
      ensures AmpleBudget(selector, maxIterations) ==>
                forall b | b in BackendsOf(selector) && Registry.IsReady(registry.healthCheck, registry.health, b.key) ::
                  b.id.addr in tried
    {
      var issued, k :| Selected(selector.Items(issued), maxIterations,
                                Untried(registry.healthCheck, registry.health, tried), None, k);
      AmpleBudgetTriesAll(selector, issued, maxIterations, registry.healthCheck, registry.health, tried, k);
    }

    /** Other requests and the background task, between two hooks of this request: anything may change. */
    method Interference()
      requires Valid()
      modifies this`selector, registry, passive, selector.Footprint()
      ensures Valid() && fresh(selector.Footprint() - old(selector.Footprint()))
    {
    }

    /** The failure is in the tracker, and the backend switched off if that ejected it. */
    ghost predicate FailureRecorded(before: PassiveHealth.Tracker, table: Registry.Table, b: Backend, at: nat)
      reads this, registry, passive
    {
      && passive.Now() == PassiveHealth.Failed(passive.config, before, b, at)
      && registry.health == if PassiveHealth.Ejects(passive.config, before, b, at)
                            then Registry.WithEnabled(table, b.key, false) else table
    }

    /** What an attempt leaves in the tracker: no failure window after a connect, the failure after a failed one. */
    ghost predicate Recorded(b: Backend, connects: bool, at: nat)
      reads this, registry, passive
    {
      if connects then passive.config.enabled ==> b.id.addr !in passive.windows
      else exists before, table :: FailureRecorded(before, table, b, at)
    }

    /** One attempt, with interference before each of its hooks. */
    method Attempt(ctx: ConnectionCtx, choosing: nat, failing: nat, connects: bool)
      returns (peer: Option<Backend>, retryable: bool, ghost table: Registry.Table)
      requires Valid()
      modifies ctx, this`selector, registry, passive, selector.Footprint()
      ensures Valid() && fresh(selector.Footprint() - old(selector.Footprint()))
      ensures peer.None? ==> ctx.tried == old(ctx.tried) && !retryable && SelectFails(ctx.tried)
      ensures peer.Some? ==>
                && peer.value.id.addr !in old(ctx.tried)
                && ctx.tried == old(ctx.tried) + [peer.value.id.addr]
                && Registry.IsReady(registry.healthCheck, table, peer.value.key)
                && (retryable <==> !connects && retry.retryOnConnectError && |ctx.tried| <= retry.maxRetries)
                && Recorded(peer.value, connects, failing)
    {
      Interference();
      ghost var k;
      peer, k := UpstreamPeer(ctx, choosing);
      table := registry.health;
      if peer.None? {
        return peer, false, table;
      }
      Interference();
      if connects {
        ghost var before := passive.Now();
        passive.RecordSuccess(peer.value);
        retryable := false;
        assert passive.Now() == PassiveHealth.Succeeded(passive.config, before, peer.value);
      } else {
        ghost var before, table := passive.Now(), registry.health;
        retryable := FailToConnect(ctx, failing);
        assert FailureRecorded(before, table, peer.value, failing);
      }
    }

    /**
     * One request, driven as the proxy framework does: choose a peer, connect, and on a failed
     * connect either give up or start over. `connects[i]` says whether attempt `i` connects, `clock`
     * gives the times of its hooks, and `tables` records the health tables consulted.
     */
    method HandleRequest(connects: seq<bool>, clock: seq<(nat, nat)>)
      returns (attempts: seq<Backend>, outcome: Outcome, ghost tables: seq<Registry.Table>)
      requires Valid() && |connects| == |clock| == retry.maxRetries + 1
      modifies this`selector, registry, passive, selector.Footprint()
      ensures DistinctAddrs(attempts) && |attempts| <= retry.maxRetries + 1
      ensures !retry.retryOnConnectError ==> |attempts| <= 1
      ensures |tables| == |attempts|
      ensures forall i | 0 <= i < |attempts| :: Registry.IsReady(registry.healthCheck, tables[i], attempts[i].key)
      ensures forall i | 0 <= i < |attempts| - 1 :: !connects[i]
      ensures outcome == Connected ==> attempts != [] && connects[|attempts| - 1]
      ensures outcome == GaveUp ==> attempts != [] && !connects[|attempts| - 1]
      ensures outcome != NoHealthyBackends ==>
                var n := |attempts| - 1; Recorded(attempts[n], connects[n], clock[n].1)
      ensures outcome == GaveUp ==> !retry.retryOnConnectError || |attempts| == retry.maxRetries + 1
      ensures outcome == NoHealthyBackends ==> forall i | 0 <= i < |attempts| :: !connects[i]
      ensures outcome == NoHealthyBackends ==> SelectFails(Addrs(attempts))
      ensures outcome == NoHealthyBackends && AmpleBudget(selector, maxIterations) ==>
                && (selector.RoundRobin? ==>
                      forall b | b in selector.weighted.backends
                                 && Registry.IsReady(registry.healthCheck, registry.health, b.key) ::
                        b.id.addr in Addrs(attempts))
                && (selector.Sorted? ==>
                      forall b | b in selector.backends && Registry.IsReady(registry.healthCheck, registry.health, b.key) ::
                        b.id.addr in Addrs(attempts))
    {
      var ctx := new ConnectionCtx();
      attempts, tables := [], [];
      while true
        invariant Valid() && fresh(ctx) && fresh(selector.Footprint() - old(selector.Footprint()))
        invariant ctx.tried == Addrs(attempts) && DistinctAddrs(attempts)
        invariant |attempts| <= retry.maxRetries && (attempts != [] ==> retry.retryOnConnectError)
        invariant |tables| == |attempts|
        invariant forall i | 0 <= i < |attempts| :: Registry.IsReady(registry.healthCheck, tables[i], attempts[i].key)
        invariant forall i | 0 <= i < |attempts| :: !connects[i]
        decreases retry.maxRetries - |attempts|
      {
        var n := |attempts|;
        var peer, retryable, table := Attempt(ctx, clock[n].0, clock[n].1, connects[n]);
        if peer.None? {
          FailedSelectMeansAllTried(Addrs(attempts));
          return attempts, NoHealthyBackends, tables;
        }
        AddrsAppend(attempts, peer.value);
        attempts, tables := attempts + [peer.value], tables + [table];
        if !retryable {
          return attempts, if connects[n] then Connected else GaveUp, tables;
        }
      }
    }
  }

  datatype Outcome = Connected | GaveUp | NoHealthyBackends
}
