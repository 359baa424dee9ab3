/** Tenant worker supervision: start, reap, restart within a crash budget, stop. */
module Supervisor {
  import opened Reals
  import opened Wrappers

  datatype State = Running | Stopped | Failed

  datatype Worker = Worker(state: State, process: Option<int>, pid: Option<int>, configPath: string,
                           restarts: nat, everStarted: bool, lastExit: real, crashTimes: seq<real>)

  // What one step finds outside: whether the process has exited, the time, whether the worker
  // config can be built and where it is written, the process spawned (None when spawning fails),
  // and whether the tenant may run.
  datatype Env = Env(exited: bool, now: real, built: bool, path: string, spawned: Option<int>, active: bool)

  // The worker's history, for stating what the budget means.
  datatype Event = Crashed(at: real) | Launched | Cleared

  datatype Traced = Traced(worker: Worker, log: seq<Event>)

  datatype Budget = Budget(maxRestarts: int, window: real)

  const FRESH := Worker(Stopped, None, None, "", 0, false, 0.0, [])

  // ---------------------------------------------------------------- one worker's transitions

  function After(times: seq<real>, cutoff: real): seq<real> {
    if times == [] then []
    else
      var n := |times| - 1;
      var front := After(times[..n], cutoff);
      if cutoff < times[n] then front + [times[n]] else front
  }

  function Poll(b: Budget, t: Traced, env: Env): Traced {
    var w := t.worker;
    if w.process == None || w.state != Running || !env.exited then t
    else
      var crashes := After(w.crashTimes + [env.now], env.now - b.window);
      var next := if |crashes| > b.maxRestarts then Failed else Stopped;
      Traced(w.(state := next, process := None, pid := None, lastExit := env.now, crashTimes := crashes),
             t.log + [Crashed(env.now)])
  }

  function Spawn(t: Traced, env: Env): Traced {
    match env.spawned
    case None => t.(worker := t.worker.(state := Failed))
    case Some(p) =>
      Traced(t.worker.(state := Running, process := Some(p), pid := Some(p), everStarted := true),
             t.log + [Launched])
  }

  function Start(t: Traced, env: Env): Traced {
    if !env.built then t.(worker := t.worker.(state := Failed))
    else
      var w := t.worker.(configPath := env.path,
                         restarts := if t.worker.everStarted then t.worker.restarts + 1 else t.worker.restarts);
      Spawn(t.(worker := w), env)
  }

  // An ensure of a known worker: a failed verdict is cleared first.
  function Ensure(b: Budget, t: Traced, env: Env): Traced {
    var polled := Poll(b, t, env);
    if polled.worker.state == Running then polled
    else if polled.worker.state == Failed then
      Start(Traced(polled.worker.(state := Stopped, restarts := 0, crashTimes := []), polled.log + [Cleared]), env)
    else Start(polled, env)
  }

  function Sweep(b: Budget, t: Traced, env: Env): Traced {
    var polled := Poll(b, t, env);
    if polled.worker.state == Stopped && polled.worker.configPath != "" && env.active then
      Ensure(b, polled, env)
    else polled
  }

  function Stop(b: Budget, t: Traced, env: Env): Traced {
    var w := Poll(b, t, env).worker;
    Traced(w.(process := None, pid := None, state := if w.state == Running then Stopped else w.state,
              configPath := ""),
           Poll(b, t, env).log)
  }

  // An explicit ensure sweeps first, at an earlier moment than it starts the worker.
  datatype Op = SweepOp(env: Env) | EnsureOp(sweep: Env, env: Env) | StopOp(env: Env) | StatusOp(env: Env)

  function Step(b: Budget, t: Traced, op: Op): Traced {
    match op
    case SweepOp(env) => Sweep(b, t, env)
    case EnsureOp(sweep, env) => Ensure(b, Sweep(b, t, sweep), env)
    case StopOp(env) => Stop(b, t, env)
    case StatusOp(env) => Poll(b, t, env)
  }

  function Run(b: Budget, t: Traced, ops: seq<Op>): Traced {
    if ops == [] then t else Step(b, Run(b, t, ops[..|ops| - 1]), ops[|ops| - 1])
  }

  // A tenant never seen before is simply started.
  lemma EnsureFresh(b: Budget, env: Env)
    ensures Ensure(b, Traced(FRESH, []), env) == Start(Traced(FRESH, []), env)
  {
  }

  // ---------------------------------------------------------------- the supervisor's objects

  class WorkerInfo {
    var state: State
    var process: Option<int>
    var pid: Option<int>
    var configPath: string
    var restarts: nat
    var everStarted: bool
    var lastExit: real
    var crashTimes: seq<real>
    ghost var log: seq<Event>

    ghost function View(): Traced
      reads this
    {
      Traced(Worker(state, process, pid, configPath, restarts, everStarted, lastExit, crashTimes), log)
    }

    constructor ()
      ensures View() == Traced(FRESH, [])
    {
      state, process, pid, configPath := Stopped, None, None, "";
      restarts, everStarted, lastExit, crashTimes, log := 0, false, 0.0, [], [];
    }
  }

  class Supervisor {
    const budget: Budget
    var workers: map<string, WorkerInfo>

    // No two tenants share a worker record.
    ghost predicate Valid()
      reads this
    {
      forall a, b :: a in workers && b in workers && a != b ==> workers[a] != workers[b]
    }

    constructor (maxRestarts: int, window: real)
      ensures Valid() && workers == map[] && budget == Budget(maxRestarts, window)
    {
      budget, workers := Budget(maxRestarts, window), map[];
    }

    method PollInfo(info: WorkerInfo, env: Env)
      modifies info
      ensures info.View() == Poll(budget, old(info.View()), env)
    {
      if info.process == None || info.state != Running {
        return;
      }
      if !env.exited {
        return;
      }
      info.lastExit := env.now;
      info.crashTimes := info.crashTimes + [info.lastExit];
      info.crashTimes := After(info.crashTimes, info.lastExit - budget.window);
      info.process, info.pid := None, None;
      if |info.crashTimes| > budget.maxRestarts {
        info.state := Failed;
      } else {
        info.state := Stopped;
      }
      info.log := info.log + [Crashed(env.now)];
    }

    method SpawnInfo(info: WorkerInfo, env: Env)
      modifies info
      ensures info.View() == Spawn(old(info.View()), env)
    {
      if env.spawned == None {
        info.state := Failed;
        return;
      }
      info.process := env.spawned;
      info.pid := env.spawned;
      info.state := Running;
      info.everStarted := true;
      info.log := info.log + [Launched];
    }

    // The part of ensure that a sweep also runs.
    method EnsureInfo(info: WorkerInfo, env: Env)
      modifies info
      ensures info.View() == Ensure(budget, old(info.View()), env)
    {
      hide Poll;
      PollInfo(info, env);
      if info.state == Running {
        return;
      }
      if info.state == Failed {
        info.state := Stopped;
        info.restarts := 0;
        info.crashTimes := [];
        info.log := info.log + [Cleared];
      }
      if !env.built {
        info.state := Failed;
        return;
      }
      info.configPath := env.path;
      if info.everStarted {
        info.restarts := info.restarts + 1;
      }
      SpawnInfo(info, env);
    }

    method SweepInfo(info: WorkerInfo, env: Env)
      modifies info
      ensures info.View() == Sweep(budget, old(info.View()), env)
    {
      hide Poll, Ensure;
      PollInfo(info, env);
      if info.state == Stopped && info.configPath != "" {
        if !env.active {
          info.state := Stopped;
        } else {
          EnsureInfo(info, env);
        }
      }
    }

    // Every worker takes one sweep step, each on what is found for its own tenant.
    method SweepAll(envs: string -> Env)
      requires Valid()
      modifies set t | t in workers :: workers[t]
      ensures forall t :: t in workers ==> workers[t].View() == Sweep(budget, old(workers[t].View()), envs(t))
    {
      hide Sweep;
      var todo := workers.Keys;
      while todo != {}
        invariant todo <= workers.Keys
        invariant forall t :: t in todo ==> workers[t].View() == old(workers[t].View())
        invariant forall t :: t in workers && t !in todo ==>
          (workers[t].View() == Sweep(budget, old(workers[t].View()), envs(t)))
        decreases |todo|
      {
        var tenant :| tenant in todo;
        SweepInfo(workers[tenant], envs(tenant));
        todo := todo - {tenant};
      }
    }

    // Explicit ensure: sweeps everyone, then starts the tenant unless it runs.
    method EnsureTenant(tenant: string, envs: string -> Env, env: Env)
      requires Valid()
      modifies this, set t | t in workers :: workers[t]
      ensures Valid() && workers.Keys == old(workers.Keys) + {tenant}
      ensures forall t :: t in old(workers) ==> workers[t] == old(workers[t])
      ensures forall t :: t in old(workers) && t != tenant ==>
        workers[t].View() == Step(budget, old(workers[t].View()), SweepOp(envs(t)))
      ensures tenant in old(workers) ==>
        workers[tenant].View() == Step(budget, old(workers[tenant].View()), EnsureOp(envs(tenant), env))
      ensures tenant !in old(workers) ==>
        fresh(workers[tenant]) && workers[tenant].View() == Start(Traced(FRESH, []), env)
    {
      hide Poll, Sweep, Start, Ensure;
      SweepAll(envs);
      if tenant in workers {
        EnsureInfo(workers[tenant], env);
      } else {
        var info := new WorkerInfo();
        workers := workers[tenant := info];
        EnsureFresh(budget, env);
        EnsureInfo(info, env);
      }
    }

    method StopTenant(tenant: string, env: Env)
      requires Valid()
      modifies this, set t | t in workers :: workers[t]
      ensures Valid() && workers.Keys == old(workers.Keys) + {tenant}
      ensures forall t :: t in old(workers) ==> workers[t] == old(workers[t])
      ensures forall t :: t in old(workers) && t != tenant ==> workers[t].View() == old(workers[t].View())
      ensures tenant in old(workers) ==>
        workers[tenant].View() == Step(budget, old(workers[tenant].View()), StopOp(env))
      ensures tenant !in old(workers) ==> workers[tenant].View() == Traced(FRESH, [])
    {
      if tenant !in workers {
        var info := new WorkerInfo();
        workers := workers[tenant := info];
        return;
      }
      var info := workers[tenant];
      PollInfo(info, env);
      info.process, info.pid := None, None;
      if info.state == Running {
        info.state := Stopped;
      }
      info.configPath := "";
    }
  }

  // ---------------------------------------------------------------- invariants of every run

  function FirstTime(op: Op): real {
    match op
    case EnsureOp(sweep, _) => sweep.now
    case _ => op.env.now
  }

  function ClockAfter(clock: real, ops: seq<Op>): real {
    if ops == [] then clock else ops[|ops| - 1].env.now
  }

  // The clock never runs backwards.
  predicate Forward(clock: real, ops: seq<Op>) {
    ops == [] ||
    var n := |ops| - 1;
    Forward(clock, ops[..n]) && ClockAfter(clock, ops[..n]) <= FirstTime(ops[n]) <= ops[n].env.now
  }

  // Running exactly when there is a process and a pid.
  predicate Consistent(w: Worker) {
    (w.state == Running <==> w.process.Some?) && (w.state == Running <==> w.pid.Some?)
  }

  // Crash times since the last cleared verdict.
  function Crashes(log: seq<Event>): seq<real> {
    if log == [] then []
    else
      var n := |log| - 1;
      match log[n]
      case Crashed(t) => Crashes(log[..n]) + [t]
      case Launched => Crashes(log[..n])
      case Cleared => []
  }

  // Those of them that were followed by a restart.
  function Answered(log: seq<Event>): seq<real> {
    if log == [] then []
    else
      var n := |log| - 1;
      match log[n]
      case Crashed(_) => Answered(log[..n])
      case Launched => Crashes(log[..n])
      case Cleared => []
  }

  ghost predicate Ordered(times: seq<real>, clock: real) {
    && (forall i, j :: 0 <= i <= j < |times| ==> times[i] <= times[j])
    && (forall i :: 0 <= i < |times| ==> times[i] <= clock)
  }

  ghost predicate WindowsBounded(b: Budget, times: seq<real>) {
    forall lo, hi :: hi <= lo + b.window ==> CountIn(times, lo, hi) <= b.maxRestarts
  }

  ghost predicate Inv(b: Budget, t: Traced, clock: real) {
    var w, crashes := t.worker, Crashes(t.log);
    && Consistent(w)
    && Ordered(crashes, clock)
    && (crashes == [] ==> w.crashTimes == [])
    && (crashes != [] ==> w.crashTimes == After(crashes, crashes[|crashes| - 1] - b.window))
    && (w.state != Failed && crashes != [] ==> |w.crashTimes| <= b.maxRestarts)
    && (Answered(t.log) == crashes || (crashes != [] && Answered(t.log) == crashes[..|crashes| - 1]))
    && (w.state == Running ==> Answered(t.log) == crashes)
    && WindowsBounded(b, Answered(t.log))
  }

  lemma {:induction false} AfterTwice(times: seq<real>, c: real, d: real)
    requires c <= d
    ensures After(After(times, c), d) == After(times, d)
  {
    if times != [] {
      var n := |times| - 1;
      AfterTwice(times[..n], c, d);
      if c < times[n] {
        var front := After(times[..n], c);
        assert (front + [times[n]])[..|front|] == front;
      }
    }
  }

  lemma AfterSnoc(times: seq<real>, x: real, c: real)
    ensures After(times + [x], c) == After(times, c) + (if c < x then [x] else [])
  {
    assert (times + [x])[..|times|] == times;
  }

  lemma {:induction false} CountWithinAfter(times: seq<real>, lo: real, hi: real, c: real)
    requires c < lo
    ensures CountIn(times, lo, hi) <= |After(times, c)|
  {
    if times != [] {
      CountWithinAfter(times[..|times| - 1], lo, hi, c);
    }
  }

  // With one more crash, the pruned list is still the recent part of all crashes since the last
  // clearing.
  lemma PrunedIsRecent(b: Budget, t: Traced, now: real, clock: real)
    requires 0.0 <= b.window && Inv(b, t, clock) && clock <= now
    ensures After(t.worker.crashTimes + [now], now - b.window) == After(Crashes(t.log) + [now], now - b.window)
  {
    hide WindowsBounded, Answered, Crashes, After;
    var crashes := Crashes(t.log);
    AfterSnoc(crashes, now, now - b.window);
    AfterSnoc(t.worker.crashTimes, now, now - b.window);
    if crashes != [] {
      AfterTwice(crashes, crashes[|crashes| - 1] - b.window, now - b.window);
    }
  }

  lemma LogSnoc(log: seq<Event>, e: Event)
    ensures Crashes(log + [e]) ==
      match e { case Crashed(t) => Crashes(log) + [t] case Launched => Crashes(log) case Cleared => [] }
    ensures Answered(log + [e]) ==
      match e { case Crashed(_) => Answered(log) case Launched => Crashes(log) case Cleared => [] }
  {
    assert (log + [e])[..|log|] == log;
  }

  lemma PollKeeps(b: Budget, t: Traced, env: Env, clock: real)
    requires 0.0 <= b.window && Inv(b, t, clock) && clock <= env.now
    ensures Inv(b, Poll(b, t, env), env.now)
  {
    hide WindowsBounded, Answered, Crashes, After;
    var w := t.worker;
    if w.process != None && w.state == Running && env.exited {
      LogSnoc(t.log, Crashed(env.now));
      PrunedIsRecent(b, t, env.now, clock);
    }
  }

  // The verdict is the one the full history since the last clearing calls for: failed exactly when
  // more than `maxRestarts` crashes, this one included, fall within the window.
  lemma VerdictByFullHistory(b: Budget, t: Traced, env: Env, clock: real)
    requires 0.0 <= b.window && Inv(b, t, clock) && clock <= env.now
    requires t.worker.state == Running && env.exited
    ensures Poll(b, t, env).worker.state == Failed
      <==> |After(Crashes(Poll(b, t, env).log), env.now - b.window)| > b.maxRestarts
  {
    LogSnoc(t.log, Crashed(env.now));
    PrunedIsRecent(b, t, env.now, clock);
  }

  lemma LaunchBound(b: Budget, crashes: seq<real>, clock: real)
    requires crashes != [] && Ordered(crashes, clock)
    requires |After(crashes, crashes[|crashes| - 1] - b.window)| <= b.maxRestarts
    requires WindowsBounded(b, crashes[..|crashes| - 1])
    ensures WindowsBounded(b, crashes)
  {
    var n := |crashes| - 1;
    forall lo, hi | hi <= lo + b.window ensures CountIn(crashes, lo, hi) <= b.maxRestarts {
      assert CountIn(crashes[..n], lo, hi) <= b.maxRestarts;
      if crashes[n] < hi {
        CountWithinAfter(crashes, lo, hi, crashes[n] - b.window);
      }
    }
  }

  lemma SpawnKeeps(b: Budget, t: Traced, env: Env, clock: real)
    requires Inv(b, t, clock) && t.worker.state == Stopped
    ensures Inv(b, Spawn(t, env), clock)
  {
    hide WindowsBounded, Answered, Crashes, After;
    if env.spawned.Some? {
      LogSnoc(t.log, Launched);
      var crashes := Crashes(t.log);
      if Answered(t.log) != crashes {
        LaunchBound(b, crashes, clock);
      }
    }
  }

  lemma StartKeeps(b: Budget, t: Traced, env: Env, clock: real)
    requires Inv(b, t, clock) && t.worker.state == Stopped
    ensures Inv(b, Start(t, env), clock)
  {
    if env.built {
      var w := t.worker.(configPath := env.path,
                         restarts := if t.worker.everStarted then t.worker.restarts + 1 else t.worker.restarts);
      SpawnKeeps(b, t.(worker := w), env, clock);
    }
  }

  lemma NoWindow(b: Budget)
    requires 0 <= b.maxRestarts
    ensures WindowsBounded(b, [])
  {
  }

  lemma EnsureKeeps(b: Budget, t: Traced, env: Env, clock: real)
    requires 0.0 <= b.window && 0 <= b.maxRestarts && Inv(b, t, clock) && clock <= env.now
    ensures Inv(b, Ensure(b, t, env), env.now)
  {
    hide WindowsBounded, After;
    PollKeeps(b, t, env, clock);
    var polled := Poll(b, t, env);
    if polled.worker.state == Failed {
      var cleared := Traced(polled.worker.(state := Stopped, restarts := 0, crashTimes := []), polled.log + [Cleared]);
      LogSnoc(polled.log, Cleared);
      NoWindow(b);
      StartKeeps(b, cleared, env, env.now);
    } else if polled.worker.state == Stopped {
      StartKeeps(b, polled, env, env.now);
    }
  }

  lemma SweepKeeps(b: Budget, t: Traced, env: Env, clock: real)
    requires 0.0 <= b.window && 0 <= b.maxRestarts && Inv(b, t, clock) && clock <= env.now
    ensures Inv(b, Sweep(b, t, env), env.now)
  {
    PollKeeps(b, t, env, clock);
    EnsureKeeps(b, Poll(b, t, env), env, env.now);
  }

  lemma StopKeeps(b: Budget, t: Traced, env: Env, clock: real)
    requires 0.0 <= b.window && Inv(b, t, clock) && clock <= env.now
    ensures Inv(b, Stop(b, t, env), env.now)
  {
    hide Poll, WindowsBounded, Answered, Crashes, After;
    PollKeeps(b, t, env, clock);
  }

  lemma StepKeeps(b: Budget, t: Traced, op: Op, clock: real)
    requires 0.0 <= b.window && 0 <= b.maxRestarts && Inv(b, t, clock)
    requires clock <= FirstTime(op) <= op.env.now
    ensures Inv(b, Step(b, t, op), op.env.now)
  {
    hide Inv, Sweep, Ensure, Poll, Stop;
    match op
    case SweepOp(env) => SweepKeeps(b, t, env, clock);
    case EnsureOp(sweep, env) =>
      SweepKeeps(b, t, sweep, clock);
      EnsureKeeps(b, Sweep(b, t, sweep), env, sweep.now);
    case StopOp(env) => StopKeeps(b, t, env, clock);
    case StatusOp(env) => PollKeeps(b, t, env, clock);
  }

  lemma {:induction false} RunKeeps(b: Budget, ops: seq<Op>, clock: real)
    requires 0.0 <= b.window && 0 <= b.maxRestarts && Forward(clock, ops)
    ensures Inv(b, Run(b, Traced(FRESH, []), ops), ClockAfter(clock, ops))
  {
    if ops != [] {
      var n := |ops| - 1;
      RunKeeps(b, ops[..n], clock);
      StepKeeps(b, Run(b, Traced(FRESH, []), ops[..n]), ops[n], ClockAfter(clock, ops[..n]));
    }
  }

  // Over every run: no half-open window of the configured length holds more than `maxRestarts`
  // crashes that were followed by a restart, counting from the last verdict an explicit ensure
  // cleared; and a worker is running exactly when it has a process and a pid.
  lemma CrashLoopBound(b: Budget, ops: seq<Op>, clock: real, lo: real, hi: real)
    requires 0.0 <= b.window && 0 <= b.maxRestarts && Forward(clock, ops)
    requires hi <= lo + b.window
    ensures CountIn(Answered(Run(b, Traced(FRESH, []), ops).log), lo, hi) <= b.maxRestarts
    ensures Consistent(Run(b, Traced(FRESH, []), ops).worker)
  {
    RunKeeps(b, ops, clock);
  }

  // ---------------------------------------------------------------- what a step does

  lemma {:induction false} LaterIsAfter(times: seq<real>, cutoff: real)
    ensures |After(times, cutoff)| == Later(times, cutoff)
  {
    hide Later;
    if times == [] {
      NoneLater(cutoff);
    } else {
      var n := |times| - 1;
      LaterIsAfter(times[..n], cutoff);
      LaterSnoc(times[..n], times[n], cutoff);
      assert times == times[..n] + [times[n]];
    }
  }

  // The worker exits with no more crashes of its full history in the window than the budget has, or is
  // stopped already.
  ghost predicate Restartable(b: Budget, t: Traced, env: Env) {
    || t.worker.state == Stopped
    || (t.worker.state == Running && env.exited
        && Later(Crashes(t.log) + [env.now], env.now - b.window) <= b.maxRestarts)
  }

  function CrashIf(t: Traced, env: Env): seq<Event> {
    if t.worker.state == Running && env.exited then [Crashed(env.now)] else []
  }

  // A sweep, case by case: what runs on or has failed is left alone; a crash beyond the budget fails the
  // worker; a stopped one, or a crash within the budget, is started with the new process if the worker has a
  // config path, the tenant is active, the config builds and the spawn succeeds.
  lemma SweepOutcome(b: Budget, t: Traced, env: Env, clock: real)
    requires 0.0 <= b.window && Inv(b, t, clock) && clock <= env.now
    ensures var r, w := Step(b, t, SweepOp(env)), t.worker;
      var crash := CrashIf(t, env);
      if w.state == Failed || (w.state == Running && !env.exited) then r == t
      else
        && (crash != [] ==> r.worker.lastExit == env.now)
        && if !Restartable(b, t, env) then
             r.worker.state == Failed && r.worker.process == None && r.log == t.log + crash
           else if w.configPath == "" || !env.active then
             r.worker.state == Stopped && r.worker.process == None && r.log == t.log + crash
           else if !env.built || env.spawned.None? then
             r.worker.state == Failed && r.worker.process == None && r.log == t.log + crash
           else
             && r.worker.state == Running && r.worker.process == r.worker.pid == env.spawned
             && r.worker.configPath == env.path && r.log == t.log + crash + [Launched]
             && r.worker.restarts == w.restarts + (if w.everStarted then 1 else 0) && r.worker.everStarted
  {
    hide Crashes, Answered, WindowsBounded, After;
    if t.worker.state == Running && env.exited {
      PrunedIsRecent(b, t, env.now, clock);
      LaterIsAfter(Crashes(t.log) + [env.now], env.now - b.window);
    } else {
      assert t.log + CrashIf(t, env) == t.log;
    }
  }

  // A running worker that exits, with all that a restart needs, runs again with the spawned process exactly
  // when at most `maxRestarts` crashes of its full history, this one included, lie in the window.
  lemma RestartedIffWithinBudget(b: Budget, t: Traced, env: Env, clock: real)
    requires 0.0 <= b.window && Inv(b, t, clock) && clock <= env.now
    requires t.worker.state == Running && t.worker.configPath != "" && env.exited
    requires env.active && env.built && env.spawned.Some?
    ensures var r := Step(b, t, SweepOp(env));
      Later(Crashes(t.log) + [env.now], env.now - b.window) <= b.maxRestarts <==>
        && r.worker.state == Running && r.worker.process == env.spawned
        && r.log == t.log + [Crashed(env.now), Launched]
  {
    hide Step, Inv, Later, Crashes;
    SweepOutcome(b, t, env, clock);
    assert t.log + [Crashed(env.now)] + [Launched] == t.log + [Crashed(env.now), Launched];
  }

  // An explicit ensure leaves a worker running unless its config cannot be built or the spawn fails: the one
  // it finds running, or a new one, counted as a restart; a failed verdict starts a new count.
  lemma EnsureOutcome(b: Budget, t: Traced, env: Env)
    requires Consistent(t.worker)
    ensures var r, w := Ensure(b, t, env), t.worker;
      if w.state == Running && !env.exited then r == t
      else if !env.built || env.spawned.None? then
        r.worker.state == Failed && r.worker.process == None && Launched !in r.log[|t.log + CrashIf(t, env)|..]
      else
        && r.worker.state == Running && r.worker.process == r.worker.pid == env.spawned
        && r.worker.configPath == env.path && r.worker.everStarted
        && (r.log == t.log + CrashIf(t, env) + [Launched]
            || (r.log == t.log + CrashIf(t, env) + [Cleared, Launched] && r.worker.crashTimes == []))
        && (r.log[|t.log + CrashIf(t, env)|] == Cleared ==> r.worker.restarts == if w.everStarted then 1 else 0)
        && (r.log[|t.log + CrashIf(t, env)|] != Cleared ==>
              r.worker.restarts == w.restarts + if w.everStarted then 1 else 0)
        && (w.state == Failed ==> Cleared in r.log[|t.log|..])
  {
    var c := CrashIf(t, env);
    assert t.log + [] == t.log;
    assert t.log + c + [Cleared] + [Launched] == t.log + c + [Cleared, Launched];
  }

  // Stopping ends the process, keeps a failed verdict and forgets the config path.
  lemma StopOutcome(b: Budget, t: Traced, env: Env)
    requires Consistent(t.worker)
    ensures var r := Step(b, t, StopOp(env));
      && r.worker.process == None && r.worker.pid == None && r.worker.configPath == ""
      && (t.worker.state == Failed ==> r.worker.state == Failed)
      && (t.worker.state == Stopped || (t.worker.state == Running && !env.exited) ==> r.worker.state == Stopped)
      && r.log == t.log + CrashIf(t, env)
  {
    assert t.log + [] == t.log;
  }

  // The sweep launches nothing for a tenant that is not active.
  lemma InactiveIsNotLaunched(b: Budget, t: Traced, env: Env)
    requires !env.active
    ensures var r := Step(b, t, SweepOp(env)); t.log <= r.log && Launched !in r.log[|t.log|..]
  {
  }

  // A verdict is only ever cleared by an explicit ensure.
  lemma ClearedOnlyByEnsure(b: Budget, t: Traced, op: Op)
    requires !op.EnsureOp?
    ensures t.log <= Step(b, t, op).log && Cleared !in Step(b, t, op).log[|t.log|..]
  {
  }

  // No automatic step starts a stopped worker again.
  lemma {:induction false} StoppedStaysStopped(b: Budget, t: Traced, env: Env, ops: seq<Op>)
    requires Consistent(t.worker)
    requires forall op :: op in ops ==> !op.EnsureOp?
    ensures var now := Run(b, Stop(b, t, env), ops);
      now.worker.state != Running && now.worker.configPath == "" && Consistent(now.worker)
      && now.log == Stop(b, t, env).log
  {
    if ops != [] {
      var n := |ops| - 1;
      assert ops == ops[..n] + [ops[n]];
      StoppedStaysStopped(b, t, env, ops[..n]);
    }
  }
}
