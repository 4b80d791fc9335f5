/**
 * The timers of the background task (adaptive_loadbalancer/background_service.rs:25-80). Instants
 * and durations are milliseconds; the clock only decides how late the loop wakes.
 */
module BackgroundLoop {
  import opened Core
  import opened Strategies

  /** 2^32 - 1 seconds. */
  const NEVER: nat := 4294967295000

  function Or(frequency: Option<nat>): nat {
    if frequency.Some? then frequency.value else NEVER
  }

  datatype Config = Config(update: Option<nat>, healthCheck: Option<nat>, evaluate: nat)

  datatype Job = Update | HealthCheck | Evaluate | Rebuild

  /**
   * What the world does in one turn of the loop: whether the evaluation switched the strategy, the
   * strategy in force when the rebuild frequency is read after a switch and after a rebuild (it can
   * be changed from outside at any time), and how late the loop wakes next.
   */
  datatype Turn = Turn(switched: bool, afterSwitch: Strategy, afterRebuild: Strategy, late: nat)

  function RebuildPeriod(s: Strategy): nat { Or(s.RebuildFrequency()) }

  function Least(a: nat, b: nat, c: nat, d: nat): nat {
    var x := if b < a then b else a;
    var y := if d < c then d else c;
    if y < x then y else x
  }

  /** One turn: its time, the jobs it ran and when each job is next due; it then sleeps until the earliest. */
  datatype Wake = Wake(now: nat, ran: set<Job>, update: nat, healthCheck: nat, evaluate: nat, rebuild: nat) {
    function Next(job: Job): nat {
      match job
      case Update => update
      case HealthCheck => healthCheck
      case Evaluate => evaluate
      case Rebuild => rebuild
    }

    function Target(): nat { Least(update, healthCheck, evaluate, rebuild) }
  }

  function Max(x: nat, y: nat): nat { if x < y then y else x }

  /** `job` ran in turn `i`, before turn `n`. */
  ghost predicate RanAt(log: seq<Wake>, job: Job, i: int, n: nat) {
    0 <= i < n <= |log| && job in log[i].ran
  }

  /** Before turn `n`, `next` is when a job of frequency `f` is due: `f` after its latest run, or at once. */
  ghost predicate DueAt(log: seq<Wake>, job: Job, f: nat, start: nat, n: nat, next: nat)
    requires n <= |log|
  {
    && (n == 0 ==> next == start)
    && (n > 0 ==> exists i :: RanAt(log, job, i, n) && next == log[i].now + f)
    && (forall i | RanAt(log, job, i, n) :: log[i].now + f <= next)
  }

  /** A job runs in turn `j` exactly when every earlier run of it is at least `f` back. */
  ghost predicate RunsWhenDue(log: seq<Wake>, job: Job, f: nat, j: nat)
    requires j < |log|
  {
    job in log[j].ran <==> forall i | RanAt(log, job, i, j) :: log[i].now + f <= log[j].now
  }

  /** The rebuild frequency that turn `i` reads last, if it reads one. */
  function ReadBy(log: seq<Wake>, turns: seq<Turn>, i: nat): Option<nat>
    requires i < |log| <= |turns|
  {
    if Rebuild in log[i].ran then Some(RebuildPeriod(turns[i].afterRebuild))
    else if Evaluate in log[i].ran && turns[i].switched then Some(RebuildPeriod(turns[i].afterSwitch))
    else None
  }

  /** Before turn `n` the selector is due a full period after the last rebuild or switch, `first` if there was none. */
  function RebuildDue(log: seq<Wake>, turns: seq<Turn>, first: nat, n: nat): nat
    requires n <= |log| <= |turns|
  {
    if n == 0 then first
    else if ReadBy(log, turns, n - 1).Some? then log[n - 1].now + ReadBy(log, turns, n - 1).value
    else RebuildDue(log, turns, first, n - 1)
  }

  /** The selector is rebuilt when due, unless the same turn has just switched, and so built, it. */
  ghost predicate RebuildsWhenDue(log: seq<Wake>, turns: seq<Turn>, first: nat, j: nat)
    requires j < |log| <= |turns|
  {
    Rebuild in log[j].ran <==>
      !(Evaluate in log[j].ran && turns[j].switched) && RebuildDue(log, turns, first, j) <= log[j].now
  }

  ghost predicate PeriodicTurn(log: seq<Wake>, job: Job, f: nat, start: nat, i: nat)
    requires i < |log|
  {
    RunsWhenDue(log, job, f, i) && DueAt(log, job, f, start, i + 1, log[i].Next(job))
  }

  /** The job of frequency `f` runs exactly when due, in every turn, and its timer says when it is due next. */
  ghost predicate Periodic(log: seq<Wake>, job: Job, f: nat, start: nat) {
    forall i | 0 <= i < |log| :: PeriodicTurn(log, job, f, start, i)
  }

  ghost predicate RebuildTurn(log: seq<Wake>, turns: seq<Turn>, first: nat, i: nat)
    requires i < |log| <= |turns|
  {
    RebuildsWhenDue(log, turns, first, i) && log[i].rebuild == RebuildDue(log, turns, first, i + 1)
  }

  ghost predicate Rebuilds(log: seq<Wake>, turns: seq<Turn>, first: nat)
    requires |log| <= |turns|
  {
    forall i | 0 <= i < |log| :: RebuildTurn(log, turns, first, i)
  }

  /** When turn `i` takes place: at the start, or late after the sleep of the turn before it. */
  function TimeOf(log: seq<Wake>, turns: seq<Turn>, start: nat, i: nat): nat
    requires i <= |log| <= |turns|
  {
    if i == 0 then start else Max(log[i - 1].now, log[i - 1].Target()) + turns[i - 1].late
  }

  ghost predicate SleepTurn(log: seq<Wake>, turns: seq<Turn>, start: nat, i: nat)
    requires i < |log| <= |turns|
  {
    log[i].now == TimeOf(log, turns, start, i)
  }

  /** The loop sleeps until the earliest of the four due times. */
  ghost predicate Sleeps(log: seq<Wake>, turns: seq<Turn>, start: nat)
    requires |log| <= |turns|
  {
    forall i | 0 <= i < |log| :: SleepTurn(log, turns, start, i)
  }

  ghost predicate Timetable(c: Config, log: seq<Wake>, turns: seq<Turn>, start: nat, first: nat) {
    && |log| <= |turns|
    && Periodic(log, Update, Or(c.update), start)
    && Periodic(log, HealthCheck, Or(c.healthCheck), start)
    && Periodic(log, Evaluate, c.evaluate, start)
    && Rebuilds(log, turns, first)
    && Sleeps(log, turns, start)
  }

  /** The timers before the next turn. */
  ghost predicate TimersSet(
      c: Config, log: seq<Wake>, turns: seq<Turn>, start: nat, first: nat, update: nat, check: nat, evaluate: nat, rebuild: nat)
  {
    && |log| <= |turns|
    && DueAt(log, Update, Or(c.update), start, |log|, update)
    && DueAt(log, HealthCheck, Or(c.healthCheck), start, |log|, check)
    && DueAt(log, Evaluate, c.evaluate, start, |log|, evaluate)
    && rebuild == RebuildDue(log, turns, first, |log|)
  }

  function Reset(due: nat, now: nat, f: nat): nat { if due <= now then now + f else due }

  lemma DueFrame(before: seq<Wake>, log: seq<Wake>, job: Job, f: nat, start: nat, n: nat, next: nat)
    requires |log| == |before| + 1 && log[..|before|] == before && n <= |before|
    ensures DueAt(before, job, f, start, n, next) <==> DueAt(log, job, f, start, n, next)
  {
    forall i ensures RanAt(before, job, i, n) <==> RanAt(log, job, i, n) {
    }
  }

  lemma PeriodicFrame(before: seq<Wake>, log: seq<Wake>, job: Job, f: nat, start: nat, i: nat)
    requires |log| == |before| + 1 && log[..|before|] == before && i < |before| && PeriodicTurn(before, job, f, start, i)
    ensures PeriodicTurn(log, job, f, start, i)
  {
    forall k ensures RanAt(before, job, k, i) <==> RanAt(log, job, k, i) {
    }
    DueFrame(before, log, job, f, start, i + 1, before[i].Next(job));
  }

  lemma DueStep(before: seq<Wake>, log: seq<Wake>, job: Job, f: nat, start: nat, next: nat, next': nat)
    requires |log| == |before| + 1 && log[..|before|] == before
    requires DueAt(before, job, f, start, |before|, next)
    requires var w := log[|before|];
             && (|before| == 0 ==> w.now == start)
             && (job in w.ran <==> next <= w.now)
             && next' == if next <= w.now then w.now + f else next
    ensures DueAt(log, job, f, start, |log|, next') && RunsWhenDue(log, job, f, |before|)
  {
    var n, w := |before|, log[|before|];
    forall i | 0 <= i < n ensures RanAt(log, job, i, n + 1) == RanAt(log, job, i, n) == RanAt(before, job, i, n) && log[i] == before[i] {
    }
    assert RanAt(log, job, n, n + 1) <==> job in w.ran;
    if n > 0 {
      var i :| RanAt(before, job, i, n) && next == before[i].now + f;
      assert RanAt(log, job, i, n) && RanAt(log, job, i, n + 1);
    }
  }

  /** One more turn: a job that runs exactly when its timer has passed, and then sets it anew, stays periodic. */
  lemma PeriodicStep(before: seq<Wake>, w: Wake, job: Job, f: nat, start: nat, due: nat)
    requires Periodic(before, job, f, start) && DueAt(before, job, f, start, |before|, due)
    requires before == [] ==> w.now == start
    requires job in w.ran <==> due <= w.now
    requires w.Next(job) == if due <= w.now then w.now + f else due
    ensures Periodic(before + [w], job, f, start)
    ensures DueAt(before + [w], job, f, start, |before| + 1, w.Next(job))
  {
    var log := before + [w];
    DueStep(before, log, job, f, start, due, w.Next(job));
    forall i | 0 <= i < |log| ensures PeriodicTurn(log, job, f, start, i) {
      if i < |before| { PeriodicFrame(before, log, job, f, start, i); }
    }
  }

  lemma SleepStep(before: seq<Wake>, w: Wake, turns: seq<Turn>, start: nat)
    requires |before| < |turns| && Sleeps(before, turns, start) && w.now == TimeOf(before, turns, start, |before|)
    ensures Sleeps(before + [w], turns, start)
  {
    var log := before + [w];
    forall i | 0 <= i < |log| ensures SleepTurn(log, turns, start, i) {
      assert i < |before| ==> SleepTurn(before, turns, start, i);
    }
  }

  lemma {:induction false} RebuildDueFrame(before: seq<Wake>, log: seq<Wake>, turns: seq<Turn>, first: nat, n: nat)
    requires |log| == |before| + 1 && log[..|before|] == before && n <= |before| && |log| <= |turns|
    ensures RebuildDue(before, turns, first, n) == RebuildDue(log, turns, first, n)
  {
    if n > 0 { RebuildDueFrame(before, log, turns, first, n - 1); }
  }

  lemma RebuildStep(before: seq<Wake>, w: Wake, turns: seq<Turn>, first: nat)
    requires |before| < |turns| && Rebuilds(before, turns, first)
    requires var turn, due := turns[|before|], RebuildDue(before, turns, first, |before|);
             var due' := if Evaluate in w.ran && turn.switched then w.now + RebuildPeriod(turn.afterSwitch) else due;
             && (Rebuild in w.ran <==> due' <= w.now)
             && w.rebuild == if due' <= w.now then w.now + RebuildPeriod(turn.afterRebuild) else due'
    ensures Rebuilds(before + [w], turns, first)
    ensures w.rebuild == RebuildDue(before + [w], turns, first, |before| + 1)
  {
    var log := before + [w];
    RebuildDueFrame(before, log, turns, first, |before|);
    forall i | 0 <= i < |log| ensures RebuildTurn(log, turns, first, i) {
      if i < |before| {
        assert RebuildTurn(before, turns, first, i);
        RebuildDueFrame(before, log, turns, first, i);
        RebuildDueFrame(before, log, turns, first, i + 1);
      }
    }
  }

  /** A turn that treats its timers as the loop body does keeps to the timetable. */
  lemma TurnStep(
      c: Config, before: seq<Wake>, w: Wake, turns: seq<Turn>, start: nat, first: nat,
      update: nat, check: nat, evaluate: nat, rebuild: nat)
    requires |before| < |turns| && Timetable(c, before, turns, start, first)
    requires TimersSet(c, before, turns, start, first, update, check, evaluate, rebuild)
    requires w.now == TimeOf(before, turns, start, |before|)
    requires (Update in w.ran <==> update <= w.now) && w.update == Reset(update, w.now, Or(c.update))
    requires (HealthCheck in w.ran <==> check <= w.now) && w.healthCheck == Reset(check, w.now, Or(c.healthCheck))
    requires (Evaluate in w.ran <==> evaluate <= w.now) && w.evaluate == Reset(evaluate, w.now, c.evaluate)
    requires var turn := turns[|before|];
             var due := if Evaluate in w.ran && turn.switched then w.now + RebuildPeriod(turn.afterSwitch) else rebuild;
             (Rebuild in w.ran <==> due <= w.now) && w.rebuild == Reset(due, w.now, RebuildPeriod(turn.afterRebuild))
    ensures Timetable(c, before + [w], turns, start, first)
    ensures TimersSet(c, before + [w], turns, start, first, w.update, w.healthCheck, w.evaluate, w.rebuild)
  {
    PeriodicStep(before, w, Update, Or(c.update), start, update);
    PeriodicStep(before, w, HealthCheck, Or(c.healthCheck), start, check);
    PeriodicStep(before, w, Evaluate, c.evaluate, start, evaluate);
    RebuildStep(before, w, turns, first);
    SleepStep(before, w, turns, start);
  }

  /** The loop, until the shutdown that follows the last of `turns`; `initial` is the strategy in force at first. */
  method Start(c: Config, start: nat, initial: Strategy, turns: seq<Turn>) returns (log: seq<Wake>)
    ensures |log| == |turns| && Timetable(c, log, turns, start, start + RebuildPeriod(initial))
  {
    var now := start;
    var nextUpdate: nat, nextHealthCheck: nat, nextStrategyEval: nat := now, now, now;
    var selectorRebuild: nat := now + RebuildPeriod(initial);
    log := [];
    for i := 0 to |turns|
      invariant |log| == i && Timetable(c, log, turns, start, start + RebuildPeriod(initial))
      invariant TimersSet(c, log, turns, start, start + RebuildPeriod(initial), nextUpdate, nextHealthCheck, nextStrategyEval, selectorRebuild)
      invariant now == TimeOf(log, turns, start, i)
    {
      var ran: set<Job> := {};
      ghost var update, check, evaluate, rebuild := nextUpdate, nextHealthCheck, nextStrategyEval, selectorRebuild;

      if nextUpdate <= now {
        ran := ran + {Update};
        nextUpdate := now + Or(c.update);
      }
      if nextHealthCheck <= now {
        ran := ran + {HealthCheck};
        nextHealthCheck := now + Or(c.healthCheck);
      }
      if nextStrategyEval <= now {
        ran := ran + {Evaluate};
        nextStrategyEval := now + c.evaluate;
        if turns[i].switched {
          selectorRebuild := now + RebuildPeriod(turns[i].afterSwitch);
        }
      }
      if selectorRebuild <= now {
        ran := ran + {Rebuild};
        selectorRebuild := now + RebuildPeriod(turns[i].afterRebuild);
      }

      ghost var before, w := log, Wake(now, ran, nextUpdate, nextHealthCheck, nextStrategyEval, selectorRebuild);
      var toWake := Least(nextUpdate, nextHealthCheck, nextStrategyEval, selectorRebuild);
      log := log + [Wake(now, ran, nextUpdate, nextHealthCheck, nextStrategyEval, selectorRebuild)];
      TurnStep(c, before, w, turns, start, start + RebuildPeriod(initial), update, check, evaluate, rebuild);
      now := Max(now, toWake) + turns[i].late;
    }
  }

  // ---------------------------------------------------------------------------------------------
  // Spacing and punctuality, for any log the loop can produce.

  lemma {:induction false} TimeAdvances(log: seq<Wake>, turns: seq<Turn>, start: nat, i: nat, j: nat)
    requires |log| <= |turns| && Sleeps(log, turns, start) && i <= j < |log|
    ensures log[i].now <= log[j].now
    decreases j
  {
    if i < j {
      TimeAdvances(log, turns, start, i, j - 1);
      assert SleepTurn(log, turns, start, j);
    }
  }

  /** How often a job ran in turns `low` to `high - 1`. */
  function Runs(log: seq<Wake>, job: Job, low: nat, high: nat): nat
    requires low <= high <= |log|
    decreases high
  {
    if low == high then 0 else Runs(log, job, low, high - 1) + (if job in log[high - 1].ran then 1 else 0)
  }

  /** `job` is one of the three jobs with a fixed frequency, which is `f` milliseconds: 2^32 - 1 seconds if none is set. */
  predicate Fixed(c: Config, job: Job, f: nat) {
    match job
    case Update => f == if c.update.Some? then c.update.value else 4294967295000
    case HealthCheck => f == if c.healthCheck.Some? then c.healthCheck.value else 4294967295000
    case Evaluate => f == c.evaluate
    case Rebuild => false
  }

  lemma RunsApart(log: seq<Wake>, job: Job, f: nat, start: nat, i: nat, j: nat)
    requires Periodic(log, job, f, start) && i < j < |log| && job in log[i].ran && job in log[j].ran
    ensures log[j].now - log[i].now >= f
  {
    assert PeriodicTurn(log, job, f, start, j);
    assert RanAt(log, job, i, j);
  }

  /** Two runs of a job are at least its frequency apart. */
  lemma RunsSpaced(
      c: Config, log: seq<Wake>, turns: seq<Turn>, start: nat, first: nat, job: Job, f: nat, i: nat, j: nat)
    requires Timetable(c, log, turns, start, first) && Fixed(c, job, f)
    requires i < j < |log| && job in log[i].ran && job in log[j].ran
    ensures log[j].now - log[i].now >= f
  {
    RunsApart(log, job, f, start, i, j);
  }

  lemma BelowNextMultiple(t: nat, f: nat)
    requires f > 0
    ensures t < (t / f + 1) * f
  {
  }

  lemma Multiply(a: nat, b: nat, f: nat)
    requires a <= b
    ensures a * f <= b * f
  {
  }

  lemma AtMostQuotient(n: nat, f: nat, t: nat)
    requires f > 0 && (n <= 1 || (n - 1) * f <= t)
    ensures n <= t / f + 1
  {
    var q := t / f;
    BelowNextMultiple(t, f);
    if n > q + 1 { Multiply(q + 1, n - 1, f); }
  }

  lemma OneMorePeriod(n: nat, f: nat, t: nat, more: nat)
    requires (n <= 1 || (n - 1) * f <= t) && f <= more && n >= 1
    ensures n * f <= t + more
  {
    assert n * f == (n - 1) * f + f;
  }

  lemma {:induction false} LatestRun(log: seq<Wake>, job: Job, low: nat, high: nat) returns (k: nat)
    requires low <= high <= |log| && Runs(log, job, low, high) >= 1
    ensures low <= k < high && job in log[k].ran && Runs(log, job, low, k + 1) == Runs(log, job, low, high)
    decreases high
  {
    if job in log[high - 1].ran {
      k := high - 1;
    } else {
      k := LatestRun(log, job, low, high - 1);
    }
  }

  lemma {:induction false} FullPeriodsBetweenRuns(
      log: seq<Wake>, turns: seq<Turn>, job: Job, f: nat, start: nat, low: nat, high: nat)
    requires |log| <= |turns| && Periodic(log, job, f, start) && Sleeps(log, turns, start) && low < high <= |log|
    ensures Runs(log, job, low, high) <= 1 || (Runs(log, job, low, high) - 1) * f <= log[high - 1].now - log[low].now
    decreases high
  {
    TimeAdvances(log, turns, start, low, high - 1);
    if low + 1 < high {
      FullPeriodsBetweenRuns(log, turns, job, f, start, low, high - 1);
      TimeAdvances(log, turns, start, high - 2, high - 1);
      if job in log[high - 1].ran && Runs(log, job, low, high - 1) >= 1 {
        var k := LatestRun(log, job, low, high - 1);
        FullPeriodsBetweenRuns(log, turns, job, f, start, low, k + 1);
        TimeAdvances(log, turns, start, low, k);
        RunsApart(log, job, f, start, k, high - 1);
        OneMorePeriod(Runs(log, job, low, k + 1), f, log[k].now - log[low].now, log[high - 1].now - log[k].now);
      }
    }
  }

  /**
   * In any stretch of turns that spans a time T a job of positive frequency f runs at most
   * floor(T / f) + 1 times.
   */
  lemma RunsBounded(
      c: Config, log: seq<Wake>, turns: seq<Turn>, start: nat, first: nat, job: Job, f: nat, low: nat, high: nat)
    requires Timetable(c, log, turns, start, first) && Fixed(c, job, f)
    requires low < high <= |log| && f > 0
    ensures Runs(log, job, low, high) <= (log[high - 1].now - log[low].now) / f + 1
  {
    TimeAdvances(log, turns, start, low, high - 1);
    FullPeriodsBetweenRuns(log, turns, job, f, start, low, high);
    AtMostQuotient(Runs(log, job, low, high), f, log[high - 1].now - log[low].now);
  }

  lemma NotYetDue(log: seq<Wake>, turns: seq<Turn>, job: Job, f: nat, start: nat, i: nat, j: nat)
    requires |log| <= |turns| && Periodic(log, job, f, start) && Sleeps(log, turns, start)
    requires i <= j < |log| && forall k | i < k <= j :: job !in log[k].ran
    ensures log[j].now <= log[i].now + f
  {
    if i < j {
      assert PeriodicTurn(log, job, f, start, j);
      var k :| RanAt(log, job, k, j) && log[k].now + f > log[j].now;
      TimeAdvances(log, turns, start, k, i);
    }
  }

  /** Of two consecutive runs the second is late by no more than the lateness of its own wake-up. */
  lemma RunsPunctual(
      c: Config, log: seq<Wake>, turns: seq<Turn>, start: nat, first: nat, job: Job, f: nat, i: nat, j: nat)
    requires Timetable(c, log, turns, start, first) && Fixed(c, job, f)
    requires i < j < |log| && job in log[i].ran && job in log[j].ran && forall k | i < k < j :: job !in log[k].ran
    ensures f <= log[j].now - log[i].now <= f + turns[j - 1].late
  {
    RunsApart(log, job, f, start, i, j);
    assert PeriodicTurn(log, job, f, start, j - 1);
    var k :| RanAt(log, job, k, j) && log[j - 1].Next(job) == log[k].now + f;
    TimeAdvances(log, turns, start, k, i);
    assert log[j - 1].Target() <= log[i].now + f;
    NotYetDue(log, turns, job, f, start, i, j - 1);
    assert SleepTurn(log, turns, start, j);
  }

  lemma DueRuns(log: seq<Wake>, job: Job, f: nat, start: nat, i: nat)
    requires Periodic(log, job, f, start) && 0 < i < |log|
    ensures log[i - 1].Next(job) <= log[i].now ==> job in log[i].ran
  {
    assert PeriodicTurn(log, job, f, start, i) && PeriodicTurn(log, job, f, start, i - 1);
  }

  /** Every turn runs a job: the loop never wakes for nothing. */
  lemma EveryTurnWorks(c: Config, log: seq<Wake>, turns: seq<Turn>, start: nat, first: nat, i: nat)
    requires Timetable(c, log, turns, start, first) && i < |log|
    ensures log[i].ran != {}
  {
    assert PeriodicTurn(log, Update, Or(c.update), start, i);
    assert PeriodicTurn(log, HealthCheck, Or(c.healthCheck), start, i);
    assert PeriodicTurn(log, Evaluate, c.evaluate, start, i);
    if i == 0 {
      assert Update in log[0].ran;
    } else {
      assert SleepTurn(log, turns, start, i);
      assert log[i].now >= log[i - 1].Target();
      assert RebuildTurn(log, turns, first, i) && RebuildTurn(log, turns, first, i - 1);
      DueRuns(log, Update, Or(c.update), start, i);
      DueRuns(log, HealthCheck, Or(c.healthCheck), start, i);
      DueRuns(log, Evaluate, c.evaluate, start, i);
      assert Rebuild in log[i].ran || Evaluate in log[i].ran || log[i - 1].rebuild > log[i].now;
    }
  }

  ghost predicate PositiveFrequencies(c: Config) {
    Or(c.update) > 0 && Or(c.healthCheck) > 0 && c.evaluate > 0
  }

  lemma TimerAhead(log: seq<Wake>, job: Job, f: nat, start: nat, i: nat)
    requires Periodic(log, job, f, start) && i < |log| && f > 0
    ensures log[i].Next(job) > log[i].now
  {
    assert PeriodicTurn(log, job, f, start, i);
    if job in log[i].ran {
      assert RanAt(log, job, i, i + 1);
    } else {
      var k :| RanAt(log, job, k, i) && log[k].now + f > log[i].now;
      assert RanAt(log, job, k, i + 1);
    }
  }

  /** With positive frequencies every sleep ends strictly later than it starts: the loop never spins. */
  lemma SleepsAhead(c: Config, log: seq<Wake>, turns: seq<Turn>, start: nat, first: nat, i: nat)
    requires Timetable(c, log, turns, start, first) && i < |log| && PositiveFrequencies(c)
    ensures log[i].Target() > log[i].now
    ensures i + 1 < |log| ==> log[i + 1].now > log[i].now
  {
    TimerAhead(log, Update, Or(c.update), start, i);
    TimerAhead(log, HealthCheck, Or(c.healthCheck), start, i);
    TimerAhead(log, Evaluate, c.evaluate, start, i);
    assert RebuildTurn(log, turns, first, i);
    assert log[i].rebuild > log[i].now;
    assert i + 1 < |log| ==> SleepTurn(log, turns, start, i + 1);
  }

  // ---------------------------------------------------------------------------------------------
  // Rebuilds of the selector.

  /** Turn `i` builds the selector anew, by a rebuild or by a switch. */
  ghost predicate Builds(log: seq<Wake>, turns: seq<Turn>, i: int) {
    0 <= i < |log| <= |turns| && (Rebuild in log[i].ran || (Evaluate in log[i].ran && turns[i].switched))
  }

  lemma {:induction false} DueSinceBuild(log: seq<Wake>, turns: seq<Turn>, first: nat, i: nat, j: nat)
    requires i < j <= |log| <= |turns| && Builds(log, turns, i) && forall k | i < k < j :: !Builds(log, turns, k)
    ensures RebuildDue(log, turns, first, j) ==
            log[i].now + RebuildPeriod(if Rebuild in log[i].ran then turns[i].afterRebuild else turns[i].afterSwitch)
    decreases j
  {
    if i < j - 1 {
      assert !Builds(log, turns, j - 1);
      DueSinceBuild(log, turns, first, i, j - 1);
    }
  }

  /**
   * A metric-sorted selector is built anew every 200 ms, late by no more than one wake-up; a selector
   * of another kind is left alone for 2^32 - 1 seconds. `i` and `j` are consecutive builds, `s` the
   * strategy in force when the rebuild frequency was read after the first.
   */
  lemma RebuildsFollowStrategy(
      c: Config, log: seq<Wake>, turns: seq<Turn>, start: nat, first: nat, i: nat, j: nat, s: Strategy)
    requires Timetable(c, log, turns, start, first) && i < j < |log|
    requires Builds(log, turns, i) && (forall k | i < k < j :: !Builds(log, turns, k))
    requires s == (if Rebuild in log[i].ran then turns[i].afterRebuild else turns[i].afterSwitch)
    requires Rebuild in log[j].ran
    ensures s.FewestConnections? || s.FastestServer? ==> 200 <= log[j].now - log[i].now <= 200 + turns[j - 1].late
    ensures !(s.FewestConnections? || s.FastestServer?) ==> log[j].now - log[i].now >= 4294967295000
  {
    DueSinceBuild(log, turns, first, i, j);
    assert RebuildTurn(log, turns, first, j) && RebuildTurn(log, turns, first, j - 1);
    assert SleepTurn(log, turns, start, j);
    assert log[j - 1].Target() <= log[j - 1].rebuild;
    if i < j - 1 {
      assert !Builds(log, turns, j - 1);
      DueSinceBuild(log, turns, first, i, j - 1);
    }
  }

  lemma {:induction false} DueFromStart(log: seq<Wake>, turns: seq<Turn>, first: nat, j: nat)
    requires j <= |log| <= |turns| && forall k | 0 <= k < j :: !Builds(log, turns, k)
    ensures RebuildDue(log, turns, first, j) == first
  {
    if j > 0 {
      assert !Builds(log, turns, j - 1);
      DueFromStart(log, turns, first, j - 1);
    }
  }

  /** The first rebuild, likewise, counted from the start and the strategy in force then. */
  lemma FirstRebuildFollowsStrategy(
      c: Config, log: seq<Wake>, turns: seq<Turn>, start: nat, initial: Strategy, j: nat)
    requires Timetable(c, log, turns, start, start + RebuildPeriod(initial)) && j < |log|
    requires (forall k | 0 <= k < j :: !Builds(log, turns, k)) && Rebuild in log[j].ran
    ensures initial.FewestConnections? || initial.FastestServer? ==> log[j].now - start >= 200
    ensures !(initial.FewestConnections? || initial.FastestServer?) ==> log[j].now - start >= 4294967295000
  {
    DueFromStart(log, turns, start + RebuildPeriod(initial), j);
    assert RebuildTurn(log, turns, start + RebuildPeriod(initial), j);
  }
}
