/** Passive health: failure windows and ejections (routini/src/route.rs:190-269). */
module PassiveHealth {
  import opened Core

  datatype Config = Config(enabled: bool, maxFails: nat, failTimeout: nat) {
    /** A limit of zero acts like one: the first failure already ejects. */
    function Limit(): nat { if maxFails == 0 then 1 else maxFails }
  }

  datatype FailWindow = FailWindow(count: nat, start: nat)

  datatype Ejection = Ejection(backend: Backend, until: nat)

  /** The two mutex-protected fields. */
  datatype Tracker = Tracker(windows: map<Addr, FailWindow>, ejections: seq<Ejection>)

  /** The window a failure at `now` counts in: a new one if there is none or the old one is over. */
  function OpenWindow(cfg: Config, windows: map<Addr, FailWindow>, addr: Addr, now: nat): FailWindow {
    if addr in windows && now <= windows[addr].start + cfg.failTimeout then windows[addr]
    else FailWindow(0, now)
  }

  function Failed(cfg: Config, s: Tracker, b: Backend, now: nat): Tracker {
    if !cfg.enabled then s
    else
      var w := OpenWindow(cfg, s.windows, b.id.addr, now);
      if w.count + 1 >= cfg.maxFails
      then Tracker(s.windows - {b.id.addr}, s.ejections + [Ejection(b, now + cfg.failTimeout)])
      else s.(windows := s.windows[b.id.addr := FailWindow(w.count + 1, w.start)])
  }

  predicate Ejects(cfg: Config, s: Tracker, b: Backend, now: nat) {
    cfg.enabled && OpenWindow(cfg, s.windows, b.id.addr, now).count + 1 >= cfg.maxFails
  }

  function Succeeded(cfg: Config, s: Tracker, b: Backend): Tracker {
    if cfg.enabled then s.(windows := s.windows - {b.id.addr}) else s
  }

  /** The entries up to index `n` that are over at `now`, respectively still running. */
  function Expired(ejections: seq<Ejection>, now: nat, n: nat): seq<Ejection>
    requires n <= |ejections|
  {
    if n == 0 then []
    else Expired(ejections, now, n - 1) + if ejections[n - 1].until <= now then [ejections[n - 1]] else []
  }

  function Running(ejections: seq<Ejection>, now: nat, n: nat): seq<Ejection>
    requires n <= |ejections|
  {
    if n == 0 then []
    else Running(ejections, now, n - 1) + if ejections[n - 1].until <= now then [] else [ejections[n - 1]]
  }

  lemma {:induction false} ExpiredHas(ejections: seq<Ejection>, now: nat, n: nat, e: Ejection)
    requires n <= |ejections|
    ensures e in Expired(ejections, now, n) <==> e.until <= now && e in ejections[..n]
    ensures e in Running(ejections, now, n) <==> e.until > now && e in ejections[..n]
  {
    if n > 0 {
      ExpiredHas(ejections, now, n - 1, e);
      assert ejections[..n] == ejections[..n - 1] + [ejections[n - 1]];
    }
  }

  /**
   * Expired and running entries keep the order in which they were recorded: those among the first `m`
   * come before all later ones.
   */
  lemma {:induction false} OrderIsKept(ejections: seq<Ejection>, now: nat, m: nat, n: nat)
    requires m <= n <= |ejections|
    ensures Expired(ejections, now, m) <= Expired(ejections, now, n)
    ensures Running(ejections, now, m) <= Running(ejections, now, n)
    decreases n
  {
    if m < n { OrderIsKept(ejections, now, m, n - 1); }
  }

  class PassiveHealth {
    const config: Config
    var windows: map<Addr, FailWindow>
    var ejections: seq<Ejection>

    ghost function Now(): Tracker
      reads this
    {
      Tracker(windows, ejections)
    }

    constructor (config: Config)
      ensures Now() == Tracker(map[], []) && this.config == config
    {
      this.config := config;
      windows := map[];
      ejections := [];
    }

    /** Returns true when the backend should be ejected by the caller. */
    method RecordFailure(backend: Backend, now: nat) returns (eject: bool)
      modifies this
      ensures Now() == Failed(config, old(Now()), backend, now)
      ensures eject <==> Ejects(config, old(Now()), backend, now)
      ensures !config.enabled ==> !eject && windows == old(windows) && ejections == old(ejections)
    {
      if !config.enabled {
        return false;
      }
      var addr := backend.id.addr;
      if addr !in windows {
        windows := windows[addr := FailWindow(0, now)];
      }
      var window := windows[addr];
      // A clock reading before the window's start counts as no time passed.
      var elapsed := if now >= window.start then now - window.start else 0;
      if elapsed > config.failTimeout {
        window := FailWindow(0, now);
      }
      window := window.(count := window.count + 1);
      windows := windows[addr := window];
      if window.count >= config.maxFails {
        windows := windows - {addr};
        ejections := ejections + [Ejection(backend, now + config.failTimeout)];
        assert windows == old(windows) - {addr};
        return true;
      }
      return false;
    }

    method RecordSuccess(backend: Backend)
      modifies this
      ensures config.enabled ==> backend.id.addr !in windows
      ensures !config.enabled ==> windows == old(windows)
      ensures ejections == old(ejections)
      ensures forall addr | addr != backend.id.addr :: (addr in windows <==> addr in old(windows)) && (addr in windows ==> windows[addr] == old(windows[addr]))
      ensures Now() == Succeeded(config, old(Now()), backend)
    {
      if !config.enabled {
        return;
      }
      windows := windows - {backend.id.addr};
    }

    /** `retain` keeps the running entries; the expired ones are handed out in order. */
    method TakeExpired(now: nat) returns (expired: seq<Ejection>)
      modifies this
      ensures !config.enabled ==> expired == [] && Now() == old(Now())
      ensures config.enabled ==>
                && expired == Expired(old(ejections), now, |old(ejections)|)
                && Now() == Tracker(old(windows), Running(old(ejections), now, |old(ejections)|))
    {
      expired := [];
      if !config.enabled {
        return;
      }
      var kept := [];
      var i := 0;
      while i < |ejections|
        invariant 0 <= i <= |ejections|
        invariant expired == Expired(ejections, now, i) && kept == Running(ejections, now, i)
      {
        if ejections[i].until <= now {
          expired := expired + [ejections[i]];
        } else {
          kept := kept + [ejections[i]];
        }
        i := i + 1;
      }
      ejections := kept;
    }
  }

  // ---------------------------------------------------------------------------------------------
  // Every ejection is backed by its history.

  datatype Event = Fail(backend: Backend, at: nat) | Succeed(backend: Backend) | Take(now: nat)

  function Apply(cfg: Config, s: Tracker, e: Event): Tracker {
    match e
    case Fail(b, at) => Failed(cfg, s, b, at)
    case Succeed(b) => Succeeded(cfg, s, b)
    case Take(now) => if cfg.enabled then s.(ejections := Running(s.ejections, now, |s.ejections|)) else s
  }

  /** The tracker after the first `n` events since `RouteState::new`. */
  function Replay(cfg: Config, trace: seq<Event>, n: nat): Tracker
    requires n <= |trace|
  {
    if n == 0 then Tracker(map[], []) else Apply(cfg, Replay(cfg, trace, n - 1), trace[n - 1])
  }

  predicate FailsAt(trace: seq<Event>, i: nat, addr: Addr)
    requires i < |trace|
  {
    trace[i].Fail? && trace[i].backend.id.addr == addr
  }

  /** Event `i` is a failure that ejects its backend. */
  predicate EjectsAt(cfg: Config, trace: seq<Event>, i: nat)
    requires i < |trace|
  {
    trace[i].Fail? && Ejects(cfg, Replay(cfg, trace, i), trace[i].backend, trace[i].at)
  }

  /** Failures of `addr` among the events from `i` up to `n`. */
  function Failures(trace: seq<Event>, addr: Addr, i: nat, n: nat): nat
    requires n <= |trace|
  {
    if n <= i then 0 else Failures(trace, addr, i, n - 1) + if FailsAt(trace, n - 1, addr) then 1 else 0
  }

  ghost predicate Unbroken(cfg: Config, trace: seq<Event>, addr: Addr, j: nat, m: nat)
    requires j < |trace| && m < |trace| && trace[j].Fail?
  {
    && !(trace[m].Succeed? && trace[m].backend.id.addr == addr)
    && (FailsAt(trace, m, addr) ==> trace[m].at <= trace[j].at + cfg.failTimeout && !EjectsAt(cfg, trace, m))
  }

  /**
   * From its first failure, event `j`, up to event `n` address `addr` had no success and no
   * ejection, and only failures within the timeout of the first.
   */
  ghost predicate Streak(cfg: Config, trace: seq<Event>, addr: Addr, j: nat, n: nat)
    requires n <= |trace|
  {
    && j < n && FailsAt(trace, j, addr)
    && forall m | j <= m < n :: Unbroken(cfg, trace, addr, j, m)
  }

  /** A stored window is a streak: its start is the first failure's time, its count that of the failures. */
  lemma {:induction false} WindowIsStreak(cfg: Config, trace: seq<Event>, n: nat, addr: Addr) returns (j: nat)
    requires cfg.enabled && n <= |trace| && addr in Replay(cfg, trace, n).windows
    ensures j < n && Streak(cfg, trace, addr, j, n)
    ensures Replay(cfg, trace, n).windows[addr] == FailWindow(Failures(trace, addr, j, n), trace[j].at)
    ensures 1 <= Failures(trace, addr, j, n) < cfg.Limit()
  {
    var before, e := Replay(cfg, trace, n - 1), trace[n - 1];
    if FailsAt(trace, n - 1, addr) {
      if addr in before.windows && e.at <= before.windows[addr].start + cfg.failTimeout {
        j := WindowIsStreak(cfg, trace, n - 1, addr);
      } else {
        j := n - 1;
        assert Failures(trace, addr, j, n - 1) == 0;
      }
      assert Unbroken(cfg, trace, addr, j, n - 1);
    } else {
      j := WindowIsStreak(cfg, trace, n - 1, addr);
      assert Unbroken(cfg, trace, addr, j, n - 1);
    }
  }

  /**
   * Every ejection is backed by max(1, max_fails) failures of that address, the first of which
   * opened the window: all of them within fail_timeout of it, and no success and no other ejection
   * of the address between them.
   */
  lemma EjectionIsBacked(cfg: Config, trace: seq<Event>, i: nat) returns (j: nat)
    requires i < |trace| && EjectsAt(cfg, trace, i)
    ensures var addr := trace[i].backend.id.addr;
            && j <= i && FailsAt(trace, j, addr)
            && Failures(trace, addr, j, i + 1) == cfg.Limit()
            && trace[i].at <= trace[j].at + cfg.failTimeout
            && (forall m | j <= m < i :: Unbroken(cfg, trace, addr, j, m))
  {
    var addr, before := trace[i].backend.id.addr, Replay(cfg, trace, i);
    if addr in before.windows && trace[i].at <= before.windows[addr].start + cfg.failTimeout {
      j := WindowIsStreak(cfg, trace, i, addr);
    } else {
      j := i;
      assert Failures(trace, addr, i, i) == 0;
    }
  }

  /** Stored windows satisfy 1 <= count < max_fails. */
  lemma StoredWindowsAreShort(cfg: Config, trace: seq<Event>, n: nat, addr: Addr)
    requires cfg.enabled && n <= |trace| && addr in Replay(cfg, trace, n).windows
    ensures 1 <= Replay(cfg, trace, n).windows[addr].count < cfg.maxFails
  {
    var j := WindowIsStreak(cfg, trace, n, addr);
  }

  // ---------------------------------------------------------------------------------------------
  // How many failures are sure to eject? The window is anchored at its first failure, it does not slide.

  ghost predicate InBurst(cfg: Config, e: Event, addr: Addr, t: nat) {
    && !(e.Succeed? && e.backend.id.addr == addr)
    && (e.Fail? && e.backend.id.addr == addr ==> t <= e.at <= t + cfg.failTimeout)
  }

  /** Between `lo` and `hi` address `addr` only fails, and only at times from `t` to `t + fail_timeout`. */
  ghost predicate Burst(cfg: Config, trace: seq<Event>, addr: Addr, lo: nat, hi: nat, t: nat) {
    && lo <= hi <= |trace|
    && forall m | lo <= m < hi :: InBurst(cfg, trace[m], addr, t)
  }

  /** As many failures within one fail_timeout always eject, however the window was anchored before. */
  function Enough(cfg: Config): nat {
    if cfg.Limit() <= 2 then cfg.Limit() else 2 * cfg.Limit() - 2
  }

  /**
   * Without an ejection in the burst, the window either is older than the burst and counts more than
   * its failures, or it was opened during the burst, when fewer than Limit - 1 of them had passed.
   */
  lemma {:induction false} BurstWithoutEjection(cfg: Config, trace: seq<Event>, addr: Addr, lo: nat, hi: nat, t: nat)
    requires cfg.enabled && Burst(cfg, trace, addr, lo, hi, t)
    requires forall m | lo <= m < hi && FailsAt(trace, m, addr) :: !EjectsAt(cfg, trace, m)
    ensures var c, windows := Failures(trace, addr, lo, hi), Replay(cfg, trace, hi).windows;
            c > 0 ==>
              && addr in windows && windows[addr].count < cfg.Limit()
              && (windows[addr].start < t ==> windows[addr].count > c)
              && (windows[addr].start >= t ==> windows[addr].count + cfg.Limit() - 2 >= c)
    decreases hi
  {
    if lo < hi {
      BurstWithoutEjection(cfg, trace, addr, lo, hi - 1, t);
      assert InBurst(cfg, trace[hi - 1], addr, t);
      if FailsAt(trace, hi - 1, addr) {
        assert !EjectsAt(cfg, trace, hi - 1);
        if addr in Replay(cfg, trace, hi - 1).windows {
          var j := WindowIsStreak(cfg, trace, hi - 1, addr);
        }
      }
    }
  }

  /**
   * Any max(Limit, 2 Limit - 2) failures of an address within one fail_timeout, without a success
   * between them, eject it at one of them.
   */
  lemma EnoughFailuresEject(cfg: Config, trace: seq<Event>, addr: Addr, lo: nat, hi: nat, t: nat)
    requires cfg.enabled && Burst(cfg, trace, addr, lo, hi, t)
    requires Failures(trace, addr, lo, hi) >= Enough(cfg)
    ensures exists m :: lo <= m < hi && FailsAt(trace, m, addr) && EjectsAt(cfg, trace, m)
  {
    if forall m | lo <= m < hi && FailsAt(trace, m, addr) :: !EjectsAt(cfg, trace, m) {
      BurstWithoutEjection(cfg, trace, addr, lo, hi, t);
    }
  }

  /**
   * One failure fewer is not enough, so max_fails failures within fail_timeout need not eject: with a
   * limit of 3 and a timeout of 10, the failures at 9, 12 and 13 do not, because an earlier one at 0
   * anchored the window.
   */
  lemma SlidingWindowWouldDiffer(b: Backend)
    ensures var cfg := Config(true, 3, 10);
            var trace := [Fail(b, 0), Fail(b, 9), Fail(b, 12), Fail(b, 13)];
            && Burst(cfg, trace, b.id.addr, 1, 4, 9)
            && Failures(trace, b.id.addr, 1, 4) == cfg.maxFails == Enough(cfg) - 1
            && forall m | 0 <= m < 4 :: !EjectsAt(cfg, trace, m)
  {
    var cfg := Config(true, 3, 10);
    var trace := [Fail(b, 0), Fail(b, 9), Fail(b, 12), Fail(b, 13)];
    var addr := b.id.addr;
    assert Replay(cfg, trace, 1) == Tracker(map[addr := FailWindow(1, 0)], []);
    assert Replay(cfg, trace, 2) == Tracker(map[addr := FailWindow(2, 0)], []);
    assert Replay(cfg, trace, 3) == Tracker(map[addr := FailWindow(1, 12)], []);
    assert Failures(trace, addr, 1, 2) == 1 && Failures(trace, addr, 1, 3) == 2;
    assert !EjectsAt(cfg, trace, 0) && !EjectsAt(cfg, trace, 1) && !EjectsAt(cfg, trace, 2) && !EjectsAt(cfg, trace, 3);
  }

  // ---------------------------------------------------------------------------------------------
  // When do exactly max_fails failures eject?

  ghost predicate NotPast(e: Event, addr: Addr, limit: nat) {
    && !(e.Succeed? && e.backend.id.addr == addr)
    && (e.Fail? && e.backend.id.addr == addr ==> e.at <= limit)
  }

  /** Between `lo` and `hi` address `addr` has no success, and no failure after `limit`. */
  ghost predicate FailsBy(trace: seq<Event>, addr: Addr, lo: nat, hi: nat, limit: nat) {
    && lo <= hi <= |trace|
    && forall m | lo <= m < hi :: NotPast(trace[m], addr, limit)
  }

  ghost predicate EjectsBetween(cfg: Config, trace: seq<Event>, addr: Addr, lo: nat, hi: nat)
    requires hi <= |trace|
  {
    exists m | lo <= m < hi :: FailsAt(trace, m, addr) && EjectsAt(cfg, trace, m)
  }

  /** The window of `addr` before event `n`. */
  function WindowAt(cfg: Config, trace: seq<Event>, addr: Addr, n: nat): Option<FailWindow>
    requires n <= |trace|
  {
    var windows := Replay(cfg, trace, n).windows;
    if addr in windows then Some(windows[addr]) else None
  }

  /** A window that no failure has outlived goes on counting, and nothing ejects below the limit. */
  lemma {:induction false} WindowCountsOn(cfg: Config, trace: seq<Event>, addr: Addr, lo: nat, hi: nat, w: FailWindow)
    requires cfg.enabled && FailsBy(trace, addr, lo, hi, w.start + cfg.failTimeout)
    requires WindowAt(cfg, trace, addr, lo) == Some(w) && w.count + Failures(trace, addr, lo, hi) < cfg.Limit()
    ensures WindowAt(cfg, trace, addr, hi) == Some(FailWindow(w.count + Failures(trace, addr, lo, hi), w.start))
    ensures !EjectsBetween(cfg, trace, addr, lo, hi)
    decreases hi
  {
    if lo < hi {
      WindowCountsOn(cfg, trace, addr, lo, hi - 1, w);
      assert NotPast(trace[hi - 1], addr, w.start + cfg.failTimeout);
    }
  }

  /** A failure `x` that finds no window, or one that is over, opens a new one, which counts on from there. */
  lemma {:induction false} NewWindowCountsOn(cfg: Config, trace: seq<Event>, addr: Addr, x: nat, hi: nat)
    requires cfg.enabled && x < hi <= |trace| && FailsAt(trace, x, addr)
    requires OpenWindow(cfg, Replay(cfg, trace, x).windows, addr, trace[x].at) == FailWindow(0, trace[x].at)
    requires FailsBy(trace, addr, x, hi, trace[x].at + cfg.failTimeout) && Failures(trace, addr, x, hi) < cfg.Limit()
    ensures WindowAt(cfg, trace, addr, hi) == Some(FailWindow(Failures(trace, addr, x, hi), trace[x].at))
    ensures !EjectsBetween(cfg, trace, addr, x, hi)
    decreases hi
  {
    if x + 1 < hi {
      NewWindowCountsOn(cfg, trace, addr, x, hi - 1);
      assert NotPast(trace[hi - 1], addr, trace[x].at + cfg.failTimeout);
    } else {
      assert Failures(trace, addr, x, x) == 0;
    }
  }

  /** The `k`-th failure of `addr` from event `lo` on. */
  ghost predicate IsFailure(trace: seq<Event>, addr: Addr, lo: nat, k: int, m: int) {
    lo <= m < |trace| && FailsAt(trace, m, addr) && Failures(trace, addr, lo, m + 1) == k
  }

  lemma {:induction false} FindFailure(trace: seq<Event>, addr: Addr, lo: nat, hi: nat, k: nat) returns (m: nat)
    requires lo <= hi <= |trace| && 0 < k <= Failures(trace, addr, lo, hi)
    ensures m < hi && IsFailure(trace, addr, lo, k, m)
    decreases hi
  {
    if FailsAt(trace, hi - 1, addr) && Failures(trace, addr, lo, hi) == k {
      m := hi - 1;
    } else {
      m := FindFailure(trace, addr, lo, hi - 1, k);
    }
  }

  lemma {:induction false} FailuresSplit(trace: seq<Event>, addr: Addr, lo: nat, mid: nat, hi: nat)
    requires lo <= mid <= hi <= |trace|
    ensures Failures(trace, addr, lo, hi) == Failures(trace, addr, lo, mid) + Failures(trace, addr, mid, hi)
    decreases hi
  {
    if mid < hi { FailuresSplit(trace, addr, lo, mid, hi - 1); }
  }

  /** The failures of `addr` between `lo` and `hi` come in the order of their clock readings. */
  ghost predicate InOrder(trace: seq<Event>, addr: Addr, lo: nat, hi: nat)
    requires hi <= |trace|
  {
    forall i, j | lo <= i < j < hi && FailsAt(trace, i, addr) && FailsAt(trace, j, addr) :: trace[i].at <= trace[j].at
  }

  /** `w` is a window of `addr` before event `lo` that is not over at the address's first failure from `lo` on. */
  ghost predicate Live(cfg: Config, trace: seq<Event>, addr: Addr, lo: nat, w: FailWindow)
    requires lo <= |trace|
  {
    && WindowAt(cfg, trace, addr, lo) == Some(w)
    && exists m :: IsFailure(trace, addr, lo, 1, m) && trace[m].at <= w.start + cfg.failTimeout
  }

  /** The failure that would fill `w` comes before `w` is over. */
  ghost predicate FilledInTime(cfg: Config, trace: seq<Event>, addr: Addr, lo: nat, w: FailWindow) {
    exists m :: IsFailure(trace, addr, lo, cfg.Limit() - w.count, m) && trace[m].at <= w.start + cfg.failTimeout
  }

  lemma {:induction false} FailuresGrow(trace: seq<Event>, addr: Addr, lo: nat, m: nat, n: nat)
    requires m <= n <= |trace|
    ensures Failures(trace, addr, lo, m) <= Failures(trace, addr, lo, n)
    decreases n
  {
    if m < n { FailuresGrow(trace, addr, lo, m, n - 1); }
  }

  lemma FailureUnique(trace: seq<Event>, addr: Addr, lo: nat, k: int, m: int, m': int)
    requires IsFailure(trace, addr, lo, k, m) && IsFailure(trace, addr, lo, k, m')
    ensures m == m'
  {
    if m < m' { FailuresGrow(trace, addr, lo, m + 1, m'); }
    if m' < m { FailuresGrow(trace, addr, lo, m' + 1, m); }
  }

  /** Until its first failure in a burst the window of an address stays as it is. */
  lemma {:induction false} WindowWaits(cfg: Config, trace: seq<Event>, addr: Addr, lo: nat, n: nat, limit: nat)
    requires FailsBy(trace, addr, lo, n, limit) && Failures(trace, addr, lo, n) == 0
    ensures WindowAt(cfg, trace, addr, n) == WindowAt(cfg, trace, addr, lo)
    decreases n
  {
    if lo < n {
      WindowWaits(cfg, trace, addr, lo, n - 1, limit);
      assert NotPast(trace[n - 1], addr, limit);
    }
  }

  lemma BurstFailsBy(cfg: Config, trace: seq<Event>, addr: Addr, lo: nat, hi: nat, t: nat, first: nat, until: nat, limit: nat)
    requires Burst(cfg, trace, addr, lo, hi, t) && lo <= first <= until <= hi && t + cfg.failTimeout <= limit
    ensures FailsBy(trace, addr, first, until, limit)
  {
    forall m | first <= m < until ensures NotPast(trace[m], addr, limit) {
      assert InBurst(cfg, trace[m], addr, t);
    }
  }

  /** A burst whose first failure `x` finds no live window fills its own. */
  lemma NewBurstEjects(cfg: Config, trace: seq<Event>, addr: Addr, lo: nat, hi: nat, t: nat, x: nat)
    requires cfg.enabled && Burst(cfg, trace, addr, lo, hi, t) && Failures(trace, addr, lo, hi) == cfg.Limit()
    requires x < hi && IsFailure(trace, addr, lo, 1, x)
    requires OpenWindow(cfg, Replay(cfg, trace, x).windows, addr, trace[x].at) == FailWindow(0, trace[x].at)
    ensures EjectsBetween(cfg, trace, addr, lo, hi)
  {
    var y := FindFailure(trace, addr, lo, hi, cfg.Limit());
    assert InBurst(cfg, trace[x], addr, t) && InBurst(cfg, trace[y], addr, t);
    if cfg.Limit() == 1 {
      FailureUnique(trace, addr, lo, 1, x, y);
    } else {
      if y <= x { FailuresGrow(trace, addr, lo, y + 1, x + 1); }
      FailuresSplit(trace, addr, lo, x, y);
      BurstFailsBy(cfg, trace, addr, lo, hi, t, x, y, trace[x].at + cfg.failTimeout);
      NewWindowCountsOn(cfg, trace, addr, x, y);
    }
    assert EjectsAt(cfg, trace, y);
  }

  /** A live window that is filled in time ejects. */
  lemma OldWindowEjects(cfg: Config, trace: seq<Event>, addr: Addr, lo: nat, hi: nat, t: nat, w: FailWindow, m: nat)
    requires cfg.enabled && Burst(cfg, trace, addr, lo, hi, t) && InOrder(trace, addr, lo, hi)
    requires WindowAt(cfg, trace, addr, lo) == Some(w) && w.count < cfg.Limit()
    requires m < hi && IsFailure(trace, addr, lo, cfg.Limit() - w.count, m) && trace[m].at <= w.start + cfg.failTimeout
    ensures EjectsBetween(cfg, trace, addr, lo, hi)
  {
    forall i | lo <= i < m ensures NotPast(trace[i], addr, w.start + cfg.failTimeout) {
      assert InBurst(cfg, trace[i], addr, t);
      assert FailsAt(trace, i, addr) ==> trace[i].at <= trace[m].at;
    }
    WindowCountsOn(cfg, trace, addr, lo, m, w);
    assert EjectsAt(cfg, trace, m);
  }

  /** The first failure after `limit`, where there is one. */
  lemma {:induction false} FirstLate(cfg: Config, trace: seq<Event>, addr: Addr, lo: nat, hi: nat, t: nat, limit: nat, m: nat)
    returns (z: nat)
    requires Burst(cfg, trace, addr, lo, hi, t) && lo <= m < hi && FailsAt(trace, m, addr) && trace[m].at > limit
    ensures lo <= z <= m && FailsAt(trace, z, addr) && trace[z].at > limit && FailsBy(trace, addr, lo, z, limit)
    decreases m
  {
    if forall i | lo <= i < m :: NotPast(trace[i], addr, limit) {
      z := m;
    } else {
      var i :| lo <= i < m && !NotPast(trace[i], addr, limit);
      assert InBurst(cfg, trace[i], addr, t);
      z := FirstLate(cfg, trace, addr, lo, hi, t, limit, i);
    }
  }

  lemma EjectsEither(cfg: Config, trace: seq<Event>, addr: Addr, lo: nat, mid: nat, hi: nat)
    requires lo <= mid <= hi <= |trace|
    ensures EjectsBetween(cfg, trace, addr, lo, hi) <==>
              EjectsBetween(cfg, trace, addr, lo, mid) || EjectsBetween(cfg, trace, addr, mid, hi)
  {
  }

  /** A live window that the burst outlives takes at least its first failure with it, and the rest do not fill a new one. */
  lemma OutlivedWindowEjectsNot(
      cfg: Config, trace: seq<Event>, addr: Addr, lo: nat, hi: nat, t: nat, w: FailWindow, x: nat, m: nat)
    requires cfg.enabled && Burst(cfg, trace, addr, lo, hi, t) && Failures(trace, addr, lo, hi) == cfg.Limit()
    requires WindowAt(cfg, trace, addr, lo) == Some(w) && w.count < cfg.Limit()
    requires IsFailure(trace, addr, lo, 1, x) && trace[x].at <= w.start + cfg.failTimeout
    requires m < hi && IsFailure(trace, addr, lo, cfg.Limit() - w.count, m) && trace[m].at > w.start + cfg.failTimeout
    ensures !EjectsBetween(cfg, trace, addr, lo, hi)
  {
    var z := FirstLate(cfg, trace, addr, lo, hi, t, w.start + cfg.failTimeout, m);
    FailuresGrow(trace, addr, lo, z, m);
    WindowCountsOn(cfg, trace, addr, lo, z, w);
    assert InBurst(cfg, trace[z], addr, t);
    if z <= x {
      FailuresGrow(trace, addr, lo, z + 1, x + 1);
      FailureUnique(trace, addr, lo, 1, x, z);
    }
    FailuresGrow(trace, addr, lo, x + 1, z);
    FailuresSplit(trace, addr, lo, z, hi);
    BurstFailsBy(cfg, trace, addr, lo, hi, t, z, hi, trace[z].at + cfg.failTimeout);
    NewWindowCountsOn(cfg, trace, addr, z, hi);
    EjectsEither(cfg, trace, addr, lo, z, hi);
  }

  /** With a live window everything depends on whether it is filled in time. */
  lemma LiveBurstEjectsIff(cfg: Config, trace: seq<Event>, addr: Addr, lo: nat, hi: nat, t: nat, w: FailWindow)
    requires cfg.enabled && Burst(cfg, trace, addr, lo, hi, t) && InOrder(trace, addr, lo, hi)
    requires Failures(trace, addr, lo, hi) == cfg.Limit() && Live(cfg, trace, addr, lo, w)
    ensures EjectsBetween(cfg, trace, addr, lo, hi) <==> FilledInTime(cfg, trace, addr, lo, w)
  {
    var j := WindowIsStreak(cfg, trace, lo, addr);
    var k := cfg.Limit() - w.count;
    var m := FindFailure(trace, addr, lo, hi, k);
    if trace[m].at <= w.start + cfg.failTimeout {
      OldWindowEjects(cfg, trace, addr, lo, hi, t, w, m);
    } else {
      var x :| IsFailure(trace, addr, lo, 1, x) && trace[x].at <= w.start + cfg.failTimeout;
      OutlivedWindowEjectsNot(cfg, trace, addr, lo, hi, t, w, x, m);
      forall m' | IsFailure(trace, addr, lo, k, m') ensures m' == m {
        FailureUnique(trace, addr, lo, k, m, m');
      }
    }
  }

  lemma DeadBurstEjects(cfg: Config, trace: seq<Event>, addr: Addr, lo: nat, hi: nat, t: nat)
    requires cfg.enabled && Burst(cfg, trace, addr, lo, hi, t)
    requires Failures(trace, addr, lo, hi) == cfg.Limit() && forall w :: !Live(cfg, trace, addr, lo, w)
    ensures EjectsBetween(cfg, trace, addr, lo, hi)
  {
    var x := FindFailure(trace, addr, lo, hi, 1);
    BurstFailsBy(cfg, trace, addr, lo, hi, t, lo, x, t + cfg.failTimeout);
    WindowWaits(cfg, trace, addr, lo, x, t + cfg.failTimeout);
    var window := WindowAt(cfg, trace, addr, lo);
    assert window.Some? ==> !Live(cfg, trace, addr, lo, window.value);
    NewBurstEjects(cfg, trace, addr, lo, hi, t, x);
  }

  /**
   * Exactly max(1, max_fails) failures within fail_timeout, in the order of their clock readings and
   * with no success between, eject if and only if no earlier window is live at the first of them, or
   * the failure that fills that window, number Limit - count of the burst, comes before it is over.
   */
  lemma ExactBurstEjectsIff(cfg: Config, trace: seq<Event>, addr: Addr, lo: nat, hi: nat, t: nat)
    requires cfg.enabled && Burst(cfg, trace, addr, lo, hi, t) && InOrder(trace, addr, lo, hi)
    requires Failures(trace, addr, lo, hi) == cfg.Limit()
    ensures EjectsBetween(cfg, trace, addr, lo, hi) <==>
              forall w | Live(cfg, trace, addr, lo, w) :: FilledInTime(cfg, trace, addr, lo, w)
  {
    if w :| Live(cfg, trace, addr, lo, w) {
      LiveBurstEjectsIff(cfg, trace, addr, lo, hi, t, w);
    } else {
      DeadBurstEjects(cfg, trace, addr, lo, hi, t);
    }
  }

  // ---------------------------------------------------------------------------------------------
  // The bound of EnoughFailuresEject is the least one.

  /** One failure at 0, Limit - 2 at the end of its window, and Limit - 1 right after it. */
  function Straddling(cfg: Config, b: Backend): seq<Event>
    requires cfg.maxFails >= 3
  {
    seq(2 * cfg.maxFails - 2, i => Fail(b, if i == 0 then 0 else if i < cfg.maxFails - 1 then cfg.failTimeout else cfg.failTimeout + 1))
  }

  lemma {:induction false} AllFail(trace: seq<Event>, addr: Addr, lo: nat, hi: nat)
    requires lo <= hi <= |trace| && forall i | lo <= i < hi :: FailsAt(trace, i, addr)
    ensures Failures(trace, addr, lo, hi) == hi - lo
    decreases hi
  {
    if lo < hi { AllFail(trace, addr, lo, hi - 1); }
  }

  /** For every limit of 3 or more and positive timeout, one failure fewer than Enough need not eject. */
  lemma EnoughIsLeast(cfg: Config, b: Backend)
    requires cfg.enabled && cfg.maxFails >= 3 && cfg.failTimeout > 0
    ensures var trace, addr := Straddling(cfg, b), b.id.addr;
            && Burst(cfg, trace, addr, 1, |trace|, cfg.failTimeout)
            && Failures(trace, addr, 1, |trace|) == Enough(cfg) - 1
            && !EjectsBetween(cfg, trace, addr, 0, |trace|)
  {
    var trace, addr, k := Straddling(cfg, b), b.id.addr, cfg.maxFails - 1;
    AllFail(trace, addr, 0, k);
    AllFail(trace, addr, k, |trace|);
    AllFail(trace, addr, 1, |trace|);
    assert FailsBy(trace, addr, 0, k, trace[0].at + cfg.failTimeout);
    NewWindowCountsOn(cfg, trace, addr, 0, k);
    assert FailsBy(trace, addr, k, |trace|, trace[k].at + cfg.failTimeout);
    NewWindowCountsOn(cfg, trace, addr, k, |trace|);
    EjectsEither(cfg, trace, addr, 0, k, |trace|);
  }
}
