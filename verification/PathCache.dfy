/**
 * Request routing with the path cache (proxy.rs:244-332, route.rs:464-493): what a cached answer has
 * to do with the uncached lookup. Path routers and regular expressions are fixed, arbitrary tables.
 */
module PathCache {
  import opened Core

  /** A route; `stripPathPrefix` is the part of its reloadable configuration that routing reads. */
  class RouteRuntime {
    var stripPathPrefix: bool

    constructor (strip: bool)
      ensures stripPathPrefix == strip
    {
      stripPathPrefix := strip;
    }

    method Reload(strip: bool)
      modifies this
      ensures stripPathPrefix == strip
    {
      stripPathPrefix := strip;
    }
  }

  /** A path router's answer: the route and what the wildcard matched, if the route has one. */
  datatype Match = Match(runtime: RouteRuntime, rest: Option<string>)

  type Router = imap<string, Match>

  /** A regex location. */
  datatype Location = Location(matches: iset<string>, runtime: RouteRuntime)

  datatype CachedRoute = CachedRoute(runtime: RouteRuntime, strippedPath: Option<string>)

  type Cache = map<string, CachedRoute>

  /** The routing tables of one server: the default one, or a virtual host (which has no regex locations). */
  datatype Table = Table(router: Router, regex: seq<Location>)

  predicate StartsWithSlash(p: string) { p != [] && p[0] == '/' }

  function WithSlash(p: string): (r: string)
    ensures StartsWithSlash(r) && (r == p || r == "/" + p)
    ensures StartsWithSlash(p) ==> r == p
  {
    if StartsWithSlash(p) then p else "/" + p
  }

  /** The path to forward for a route that does or does not strip its prefix. */
  function Stripped(m: Match, strip: bool): Option<string> {
    if strip && m.rest.Some? then Some(WithSlash(m.rest.value)) else None
  }

  /** The first regex location from the `i`-th on that matches. */
  function FirstLocation(regex: seq<Location>, path: string, i: nat): (r: Option<RouteRuntime>)
    requires i <= |regex|
    ensures r.Some? ==> exists k | i <= k < |regex| ::
              r.value == regex[k].runtime && path in regex[k].matches && forall j | i <= j < k :: path !in regex[j].matches
    ensures r.None? ==> forall k | i <= k < |regex| :: path !in regex[k].matches
    decreases |regex| - i
  {
    if i == |regex| then None
    else if path in regex[i].matches then Some(regex[i].runtime)
    else FirstLocation(regex, path, i + 1)
  }

  /** Location `k` is the first that matches. */
  ghost predicate IsFirstMatch(regex: seq<Location>, path: string, k: int) {
    0 <= k < |regex| && path in regex[k].matches && forall j | 0 <= j < k :: path !in regex[j].matches
  }

  lemma FirstLocationIsFirst(regex: seq<Location>, path: string)
    ensures var first := FirstLocation(regex, path, 0);
            if exists k :: IsFirstMatch(regex, path, k)
            then first.Some? && exists k :: IsFirstMatch(regex, path, k) && first.value == regex[k].runtime
            else first == None
  {
    var first := FirstLocation(regex, path, 0);
    if first.Some? {
      var k :| 0 <= k < |regex| && first.value == regex[k].runtime && path in regex[k].matches
        && forall j | 0 <= j < k :: path !in regex[j].matches;
      assert IsFirstMatch(regex, path, k);
    }
  }

  /** The uncached lookup, when the route that `path` leads to strips its prefix, or does not. */
  function Lookup(t: Table, path: string, strip: bool): Option<CachedRoute> {
    if path in t.router then
      var m := t.router[path];
      Some(CachedRoute(m.runtime, Stripped(m, strip)))
    else
      match FirstLocation(t.regex, path, 0)
      case Some(runtime) => Some(CachedRoute(runtime, None))
      case None => None
  }

  // ---------------------------------------------------------------------------------------------
  // Hosts.

  function Lower(s: string): string {
    if s == [] then [] else [if 'A' <= s[0] <= 'Z' then s[0] - 'A' + 'a' else s[0]] + Lower(s[1..])
  }

  /** The part of `s` before its first colon. */
  function BeforeColon(s: string): string {
    if s == [] || s[0] == ':' then [] else [s[0]] + BeforeColon(s[1..])
  }

  function HostKey(host: string): string { Lower(BeforeColon(host)) }

  lemma {:induction false} LowerPointwise(s: string)
    ensures |Lower(s)| == |s|
    ensures forall i | 0 <= i < |s| :: Lower(s)[i] == if 'A' <= s[i] <= 'Z' then s[i] - 'A' + 'a' else s[i]
  {
    if s != [] { LowerPointwise(s[1..]); }
  }

  lemma {:induction false} BeforeColonOfConcat(s: string, t: string)
    ensures BeforeColon(s + ":" + t) == BeforeColon(s)
    ensures BeforeColon(s) == s <==> ':' !in s
    ensures |BeforeColon(s)| <= |s|
  {
    if s != [] && s[0] != ':' {
      assert (s + ":" + t)[1..] == s[1..] + ":" + t;
      BeforeColonOfConcat(s[1..], t);
      assert s == [s[0]] + s[1..];
    }
  }

  lemma {:induction false} ShorterBeforeColon(s: string)
    requires ':' in s
    ensures |BeforeColon(s)| < |s|
  {
    if s[0] != ':' {
      assert s == [s[0]] + s[1..];
      ShorterBeforeColon(s[1..]);
    }
  }

  /** A port is ignored exactly for host names without a colon; an IPv6 literal is cut at its first one. */
  lemma PortIgnoredIff(host: string, port: string)
    ensures HostKey(host + ":" + port) == Lower(host) <==> ':' !in host
  {
    BeforeColonOfConcat(host, port);
    LowerPointwise(BeforeColon(host));
    LowerPointwise(host);
    if ':' in host { ShorterBeforeColon(host); }
  }

  /** Host names that differ in the case of letters only have the same key. */
  lemma {:induction false} CaseIgnored(a: string, b: string)
    requires Lower(a) == Lower(b)
    ensures HostKey(a) == HostKey(b)
  {
    LowerPointwise(a);
    LowerPointwise(b);
    if a != [] {
      assert Lower(a)[0] == Lower(b)[0];
      assert Lower(a[1..]) == Lower(a)[1..] == Lower(b)[1..] == Lower(b[1..]);
      CaseIgnored(a[1..], b[1..]);
    }
  }

  /** Which server a request goes to: None is the default one. */
  type Server = Option<string>

  function ServerFor(vhosts: set<string>, host: Option<string>): Server {
    if vhosts != {} && host.Some? && HostKey(host.value) in vhosts then Some(HostKey(host.value)) else None
  }

  /**
   * A host name without a colon reaches the virtual host of that name, with or without a port and in
   * any case of letters; all other requests go to the default server.
   */
  lemma HostReachesItsServer(vhosts: set<string>, host: string, port: string)
    requires ':' !in host
    ensures ServerFor(vhosts, Some(host)) == ServerFor(vhosts, Some(host + ":" + port))
    ensures ServerFor(vhosts, Some(host)) == if Lower(host) in vhosts then Some(Lower(host)) else None
    ensures ServerFor(vhosts, None) == None
  {
    BeforeColonOfConcat(host, port);
  }

  // ---------------------------------------------------------------------------------------------
  // The proxy's routing state.

  /** The flag of the route that `path` leads to, as it is now. */
  predicate StripsNow(t: Table, path: string)
    reads if path in t.router then {t.router[path].runtime} else {}
  {
    path in t.router && t.router[path].runtime.stripPathPrefix
  }

  /** What is left of a cache that drops all but the entries in `kept`. */
  function Kept(cache: Cache, kept: set<string>): (r: Cache)
    ensures forall p :: p in r <==> p in cache && p in kept
    ensures forall p | p in r :: r[p] == cache[p]
  {
    map p | p in cache && p in kept :: cache[p]
  }

  ghost predicate EntryOk(t: Table, path: string, entry: CachedRoute) {
    exists strip :: Lookup(t, path, strip) == Some(entry)
  }

  /** Every entry was once the answer of the uncached lookup in the server's own table. */
  ghost predicate CacheOk(t: Table, cache: Cache) {
    forall p | p in cache :: EntryOk(t, p, cache[p])
  }

  /**
   * What resolving `path` answers and leaves in the server's cache. The route, or that there is none,
   * is that of the uncached lookup in any case; a miss follows the flag `strip` of the moment, and is
   * cached unless it found nothing.
   */
  ghost predicate Resolved(t: Table, cache: Cache, path: string, strip: bool, r: Option<CachedRoute>, newCache: Cache) {
    && (r.Some? <==> Lookup(t, path, strip).Some?)
    && (r.Some? ==> r.value.runtime == Lookup(t, path, strip).value.runtime)
    && (if path in cache then r == Some(cache[path]) else r == Lookup(t, path, strip))
    && newCache == (if r.Some? then cache[path := r.value] else cache)
  }

  class Proxy {
    const defaultRouter: Router
    const defaultRegex: seq<Location>
    const vhosts: map<string, Router>
    var defaultCache: Cache
    var vhostCaches: map<string, Cache>

    ghost predicate Valid()
      reads this
    {
      && vhostCaches.Keys == vhosts.Keys
      && CacheOk(TableOf(None), defaultCache)
      && forall h | h in vhosts :: CacheOk(TableOf(Some(h)), vhostCaches[h])
    }

    constructor (router: Router, regex: seq<Location>, hosts: map<string, Router>)
      ensures Valid() && defaultRouter == router && defaultRegex == regex && vhosts == hosts
    {
      defaultRouter := router;
      defaultRegex := regex;
      vhosts := hosts;
      defaultCache := map[];
      vhostCaches := map h | h in hosts :: map[];
    }

    function TableOf(server: Server): Table
      requires server.Some? ==> server.value in vhosts
    {
      if server.Some? then Table(vhosts[server.value], []) else Table(defaultRouter, defaultRegex)
    }

    function CacheOf(server: Server): Cache
      reads this
      requires server.Some? ==> server.value in vhostCaches
    {
      if server.Some? then vhostCaches[server.value] else defaultCache
    }

    /** Compared with the given caches, only that of `server` differs. */
    ghost predicate OnlyCacheOf(server: Server, oldDefault: Cache, oldVhosts: map<string, Cache>)
      reads this
      requires server.Some? ==> server.value in vhostCaches
    {
      if server.Some? then defaultCache == oldDefault && vhostCaches == oldVhosts[server.value := vhostCaches[server.value]]
      else vhostCaches == oldVhosts
    }

    /** The cache may drop any entries at any time. */
    method Evict(server: Server, kept: set<string>)
      requires Valid() && (server.Some? ==> server.value in vhosts)
      modifies this
      ensures Valid() && CacheOf(server) == Kept(old(CacheOf(server)), kept)
      ensures OnlyCacheOf(server, old(defaultCache), old(vhostCaches))
    {
      if server.Some? {
        vhostCaches := vhostCaches[server.value := Kept(vhostCaches[server.value], kept)];
      } else {
        defaultCache := Kept(defaultCache, kept);
      }
    }

    /** Only the cache of the host's own server is consulted and touched. */
    method Resolve(host: Option<string>, path: string) returns (r: Option<CachedRoute>)
      requires Valid()
      modifies this
      ensures Valid()
      ensures var server := ServerFor(vhosts.Keys, host);
              && Resolved(TableOf(server), old(CacheOf(server)), path, old(StripsNow(TableOf(server), path)), r, CacheOf(server))
              && OnlyCacheOf(server, old(defaultCache), old(vhostCaches))
      ensures host.Some? && HostKey(host.value) in vhosts ==>
                var router := vhosts[HostKey(host.value)];
                (r.Some? <==> path in router) && (r.Some? ==> r.value.runtime == router[path].runtime)
      ensures !(host.Some? && HostKey(host.value) in vhosts) && path in defaultRouter ==>
                r.Some? && r.value.runtime == defaultRouter[path].runtime
      ensures !(host.Some? && HostKey(host.value) in vhosts) && path !in defaultRouter ==>
                if exists k :: IsFirstMatch(defaultRegex, path, k)
                then r.Some? && exists k :: IsFirstMatch(defaultRegex, path, k) && r.value.runtime == defaultRegex[k].runtime
                else r == None
    {
      if |vhosts| > 0 && host.Some? {
        var key := HostKey(host.value);
        if key in vhosts {
          assert ServerFor(vhosts.Keys, host) == Some(key);
          var cache;
          r, cache := ResolveIn(vhosts[key], [], vhostCaches[key], path);
          vhostCaches := vhostCaches[key := cache];
          return;
        }
      }
      assert ServerFor(vhosts.Keys, host) == None;
      FirstLocationIsFirst(defaultRegex, path);
      r, defaultCache := ResolveIn(defaultRouter, defaultRegex, defaultCache, path);
    }
  }

  method RouteIn(router: Router, path: string) returns (r: Option<CachedRoute>)
    ensures r.Some? <==> path in router
    ensures r.Some? ==> r.value == CachedRoute(router[path].runtime, Stripped(router[path], router[path].runtime.stripPathPrefix))
  {
    if path !in router { return None; }
    var m := router[path];
    var strip := m.runtime.stripPathPrefix;
    r := Some(CachedRoute(m.runtime, Stripped(m, strip)));
  }

  method ResolveIn(router: Router, regex: seq<Location>, cache: Cache, path: string)
    returns (r: Option<CachedRoute>, newCache: Cache)
    requires CacheOk(Table(router, regex), cache)
    ensures CacheOk(Table(router, regex), newCache)
    ensures Resolved(Table(router, regex), cache, path, StripsNow(Table(router, regex), path), r, newCache)
    ensures path !in cache && path in router ==>
              var m, stripped := router[path], r.value.strippedPath;
              && (stripped.Some? <==> m.runtime.stripPathPrefix && m.rest.Some?)
              && (stripped.Some? ==> stripped.value == m.rest.value || stripped.value == "/" + m.rest.value)
              && (stripped.Some? ==> stripped.value != [] && stripped.value[0] == '/')
    ensures path !in cache && path !in router && r.Some? ==> r.value.strippedPath == None
  {
    ghost var t := Table(router, regex);
    if path in cache {
      assert EntryOk(t, path, cache[path]);
      r, newCache := Some(cache[path]), cache;
      assert newCache == cache[path := r.value];
      return;
    }
    r := RouteIn(router, path);
    if r.None? {
      var location := FirstLocation(regex, path, 0);
      if location.None? { return None, cache; }
      r := Some(CachedRoute(location.value, None));
    }
    newCache := cache[path := r.value];
    assert Lookup(t, path, StripsNow(t, path)) == r;
    assert EntryOk(t, path, r.value);
  }

  // ---------------------------------------------------------------------------------------------
  // Concurrent requests, evictions and reloads.

  /** What a request was told, or is about to be. */
  datatype Answer = Answer(server: Server, path: string, route: Option<CachedRoute>)

  datatype State = State(
    caches: map<Server, Cache>,
    stripping: set<RouteRuntime>,
    pending: map<nat, Answer>,
    answers: map<nat, Answer>)

  /**
   * A request hits the cache, or looks its path up (after a miss, whatever the cache holds by then)
   * and later inserts and answers what it found.
   */
  datatype Step =
    | Hit(request: nat, server: Server, path: string)
    | LookUp(request: nat, server: Server, path: string)
    | Finish(request: nat)
    | Evict(server: Server, kept: set<string>)
    | Reload(runtime: RouteRuntime, strip: bool)

  /** The uncached lookup in state `s`. */
  ghost function Uncached(tables: map<Server, Table>, s: State, server: Server, path: string): Option<CachedRoute>
    requires server in tables
  {
    var t := tables[server];
    Lookup(t, path, path in t.router && t.router[path].runtime in s.stripping)
  }

  ghost predicate Next(tables: map<Server, Table>, s: State, a: Step, s': State) {
    match a
    case Hit(r, server, path) =>
      && server in s.caches && path in s.caches[server]
      && s' == s.(answers := s.answers[r := Answer(server, path, Some(s.caches[server][path]))])
    case LookUp(r, server, path) =>
      && server in tables
      && s' == s.(pending := s.pending[r := Answer(server, path, Uncached(tables, s, server, path))])
    case Finish(r) =>
      && r in s.pending && s.pending[r].server in s.caches
      && var a := s.pending[r];
         s' == s.(
           pending := s.pending - {r},
           answers := s.answers[r := a],
           caches := if a.route.Some? then s.caches[a.server := s.caches[a.server][a.path := a.route.value]] else s.caches)
    case Evict(server, kept) =>
      && server in s.caches
      && s' == s.(caches := s.caches[server := Kept(s.caches[server], kept)])
    case Reload(runtime, strip) =>
      s' == s.(stripping := if strip then s.stripping + {runtime} else s.stripping - {runtime})
  }

  ghost predicate Run(tables: map<Server, Table>, states: seq<State>, steps: seq<Step>) {
    && |states| == |steps| + 1
    && states[0].pending == map[] && states[0].answers == map[]
    && (forall server | server in states[0].caches :: states[0].caches[server] == map[])
    && forall i | 0 <= i < |steps| :: Next(tables, states[i], steps[i], states[i + 1])
  }

  /** `a` is what the uncached lookup said at some point of the first `n` steps. */
  ghost predicate WasTrue(tables: map<Server, Table>, states: seq<State>, n: nat, a: Answer)
    requires n < |states|
  {
    a.server in tables && exists m | 0 <= m <= n :: a.route == Uncached(tables, states[m], a.server, a.path)
  }

  ghost predicate AllWereTrue(tables: map<Server, Table>, states: seq<State>, n: nat)
    requires n < |states|
  {
    && (forall r | r in states[n].answers :: WasTrue(tables, states, n, states[n].answers[r]))
    && (forall r | r in states[n].pending :: WasTrue(tables, states, n, states[n].pending[r]))
    && (forall server, p | server in states[n].caches && p in states[n].caches[server] ::
          WasTrue(tables, states, n, Answer(server, p, Some(states[n].caches[server][p]))))
  }

  lemma StillTrue(tables: map<Server, Table>, states: seq<State>, n: nat, a: Answer)
    requires n + 1 < |states| && WasTrue(tables, states, n, a)
    ensures WasTrue(tables, states, n + 1, a)
  {
    var m :| 0 <= m <= n && a.route == Uncached(tables, states[m], a.server, a.path);
  }

  lemma StepKeepsTrue(tables: map<Server, Table>, states: seq<State>, steps: seq<Step>, n: nat)
    requires Run(tables, states, steps) && n < |steps| && AllWereTrue(tables, states, n)
    ensures AllWereTrue(tables, states, n + 1)
  {
    var s, s' := states[n], states[n + 1];
    assert Next(tables, s, steps[n], s');
    forall r | r in s'.answers ensures WasTrue(tables, states, n + 1, s'.answers[r]) {
      StillTrue(tables, states, n, s'.answers[r]);
    }
    forall r | r in s'.pending ensures WasTrue(tables, states, n + 1, s'.pending[r]) {
      if r in s.pending && s.pending[r] == s'.pending[r] {
        StillTrue(tables, states, n, s'.pending[r]);
      } else {
        assert s'.pending[r].route == Uncached(tables, states[n], s'.pending[r].server, s'.pending[r].path);
      }
    }
    forall server, p | server in s'.caches && p in s'.caches[server]
      ensures WasTrue(tables, states, n + 1, Answer(server, p, Some(s'.caches[server][p])))
    {
      StillTrue(tables, states, n, Answer(server, p, Some(s'.caches[server][p])));
    }
  }

  /** Every answer ever given or cached, for its server and path, is one the uncached lookup gave. */
  lemma {:induction false} AnswersWereTrue(tables: map<Server, Table>, states: seq<State>, steps: seq<Step>, n: nat)
    requires Run(tables, states, steps) && n <= |steps|
    ensures AllWereTrue(tables, states, n)
  {
    if n > 0 {
      AnswersWereTrue(tables, states, steps, n - 1);
      StepKeepsTrue(tables, states, steps, n - 1);
    }
  }

  ghost predicate NoRemainder(t: Table, path: string) { path in t.router ==> t.router[path].rest.None? }

  /** The route that `path` leads to stripped its prefix, or did not, in all states up to `n`. */
  ghost predicate Unchanged(t: Table, path: string, states: seq<State>, n: nat)
    requires n < |states|
  {
    path in t.router ==>
      forall m | 0 <= m <= n :: t.router[path].runtime in states[m].stripping <==> t.router[path].runtime in states[n].stripping
  }

  /**
   * Transparency: whatever is cached, evicted and reloaded meanwhile, an answer names the route the
   * uncached lookup names, or no route exactly when it finds none; and if the route's flag was the
   * same throughout, or the path has no remainder, the stripped path is that of the lookup as well.
   */
  lemma CacheIsTransparent(tables: map<Server, Table>, states: seq<State>, steps: seq<Step>, n: nat, r: nat)
    requires Run(tables, states, steps) && n <= |steps| && r in states[n].answers
    ensures var a := states[n].answers[r];
            a.server in tables &&
            var uncached := Uncached(tables, states[n], a.server, a.path);
            && (a.route.Some? <==> uncached.Some?)
            && (a.route.Some? ==> a.route.value.runtime == uncached.value.runtime)
            && (a.route.Some? && a.route.value.strippedPath.Some? ==>
                  a.route.value.strippedPath.value != [] && a.route.value.strippedPath.value[0] == '/')
            && (Unchanged(tables[a.server], a.path, states, n) || NoRemainder(tables[a.server], a.path) ==> a.route == uncached)
  {
    AnswersWereTrue(tables, states, steps, n);
    var a := states[n].answers[r];
    assert WasTrue(tables, states, n, a);
  }

  /** An answer computed under one flag is right under another exactly if they agree, or there is nothing to strip. */
  lemma StaleUnless(t: Table, path: string, before: bool, now: bool)
    ensures Lookup(t, path, before) == Lookup(t, path, now) <==> before == now || NoRemainder(t, path)
  {
  }

  /** Entries do go stale: one computed while the route strips its prefix outlives the reload that stops it. */
  lemma ReloadMakesStale(
      tables: map<Server, Table>, s0: State, s1: State, s2: State, s3: State, s4: State, r: nat, r': nat, server: Server, path: string)
    requires server in tables && server in s0.caches && path in tables[server].router
    requires tables[server].router[path].rest.Some? && tables[server].router[path].runtime in s0.stripping
    requires Next(tables, s0, LookUp(r, server, path), s1) && Next(tables, s1, Finish(r), s2)
    requires Next(tables, s2, Reload(tables[server].router[path].runtime, false), s3)
    requires Next(tables, s3, Hit(r', server, path), s4)
    ensures r' in s4.answers && s4.answers[r'].route != Uncached(tables, s4, server, path)
  {
    assert path in s2.caches[server];
    assert s2.caches[server][path].strippedPath.Some?;
  }
}
