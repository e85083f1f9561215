// runner/runner.go: the multi-threaded measurement as a step system over goroutines and a monotone clock, and the
// measurement loop itself. Times are in nanoseconds.
module Runner {
  import opened Options
  import opened Results
  import opened Sequences

  const DEFAULT_DURATION := 10_000_000_000
  const DEFAULT_WARMUP := 2_000_000_000

  // What a benchmark's Run returned; only whether there is one matters here.
  type Outcome = int

  datatype Config = Config(duration: int, warmup: int, threads: int)

  function Normalize(cfg: Config, cpus: int): Config {
    Config(if cfg.duration <= 0 then DEFAULT_DURATION else cfg.duration,
           if cfg.warmup <= 0 then DEFAULT_WARMUP else cfg.warmup,
           if cfg.threads <= 0 then cpus else cfg.threads)
  }

  lemma NormalizeIsUsable(cfg: Config, cpus: int)
    requires cpus >= 1
    ensures var c := Normalize(cfg, cpus);
            && c.duration > 0 && c.warmup > 0 && c.threads > 0 && Normalize(c, cpus) == c
            && (c == cfg <==> cfg.duration > 0 && cfg.warmup > 0 && cfg.threads > 0)
    ensures var c := Normalize(cfg, cpus);
            && c.duration == (if cfg.duration > 0 then cfg.duration else 10 * 1_000_000_000)
            && c.warmup == (if cfg.warmup > 0 then cfg.warmup else 2 * 1_000_000_000)
            && c.threads == (if cfg.threads > 0 then cfg.threads else cpus)
  {
  }

  // A sample together with the clock readings it is the difference of.
  datatype Interval = Interval(start: int, stop: int)

  /** Where a worker's goroutine stands. */
  datatype Phase =
    | Resting            // not started
    | WarmCheck          // about to compare the clock with the warmup deadline
    | WarmRun            // inside a warmup Run
    | WarmDone           // has called Done on the warmup group
    | Check              // about to compare the clock with the measurement deadline
    | Begin              // about to read the start time of a sample
    | Bench(t0: int)     // inside a measured Run started at t0
    | Finished           // has written its slots and called Done

  datatype Worker = Worker(phase: Phase, warmedAt: int, local: seq<Interval>, last: Option<Outcome>)

  /** Where the goroutine that called Run stands. */
  datatype Pc =
    | Setup
    | WarmSpawn(next: nat)
    | WarmWait
    | Prepare
    | MeasureSpawn(next: nat)
    | Join
    | Report
    | Returned

  datatype State = State(
    pc: Pc,
    clock: int,
    procs: int,
    prevProcs: int,
    warmupDeadline: int,
    measureStart: int,
    deadline: int,
    totalDuration: int,
    workers: seq<Worker>,
    perG: seq<seq<Interval>>,
    firsts: seq<Option<Outcome>>,
    taken: seq<(nat, Interval)>)   // every sample in the order it was taken, with its worker

  function Start(cfg: Config, prevProcs: int, now: int): State
    requires cfg.threads > 0
  {
    State(Setup, now, prevProcs, prevProcs, 0, 0, 0, 0,
          seq(cfg.threads, i => Worker(Resting, 0, [], None)),
          seq(cfg.threads, i => []),
          seq(cfg.threads, i => None),
          [])
  }

  datatype Step =
    | Tick(elapsed: nat)
    | BeginWarmup
    | SpawnWarm
    | CheckWarm(i: nat)
    | EndWarmRun(i: nat)
    | JoinWarm
    | BeginMeasure
    | SpawnMeasure
    | CheckDeadline(i: nat)
    | ReadStart(i: nat)
    | EndRun(i: nat, result: Outcome)
    | JoinMeasure
    | Return

  predicate Enabled(s: State, step: Step) {
    match step
    case Tick(_) => true
    case BeginWarmup => s.pc == Setup
    case SpawnWarm => s.pc.WarmSpawn? && s.pc.next < |s.workers|
    case CheckWarm(i) => i < |s.workers| && s.workers[i].phase == WarmCheck
    case EndWarmRun(i) => i < |s.workers| && s.workers[i].phase == WarmRun
    case JoinWarm => s.pc == WarmWait && forall i :: 0 <= i < |s.workers| ==> s.workers[i].phase == WarmDone
    case BeginMeasure => s.pc == Prepare
    case SpawnMeasure => s.pc.MeasureSpawn? && s.pc.next < |s.workers|
    case CheckDeadline(i) => i < |s.workers| && s.workers[i].phase == Check
    case ReadStart(i) => i < |s.workers| && s.workers[i].phase == Begin
    case EndRun(i, _) => i < |s.workers| && s.workers[i].phase.Bench?
    case JoinMeasure => s.pc == Join && forall i :: 0 <= i < |s.workers| ==> s.workers[i].phase == Finished
    case Return => s.pc == Report
  }

  predicate Shaped(s: State) {
    |s.workers| == |s.perG| == |s.firsts| > 0
  }

  function MoveTo(s: State, i: nat, phase: Phase): State
    requires i < |s.workers|
  {
    s.(workers := s.workers[i := s.workers[i].(phase := phase)])
  }

  function Apply(cfg: Config, s: State, step: Step): State
    requires Shaped(s) && Enabled(s, step)
  {
    match step
    case Tick(elapsed) => s.(clock := s.clock + elapsed)
    case BeginWarmup =>
      s.(procs := |s.workers|, warmupDeadline := s.clock + cfg.warmup, pc := WarmSpawn(0))
    case SpawnWarm =>
      var k := s.pc.next;
      MoveTo(s, k, WarmCheck).(pc := if k + 1 == |s.workers| then WarmWait else WarmSpawn(k + 1))
    case CheckWarm(i) =>
      if s.clock < s.warmupDeadline then MoveTo(s, i, WarmRun)
      else s.(workers := s.workers[i := s.workers[i].(phase := WarmDone, warmedAt := s.clock)])
    case EndWarmRun(i) => MoveTo(s, i, WarmCheck)
    case JoinWarm => s.(pc := Prepare)
    case BeginMeasure =>
      s.(measureStart := s.clock, deadline := s.clock + cfg.duration, pc := MeasureSpawn(0))
    case SpawnMeasure =>
      var k := s.pc.next;
      MoveTo(s, k, Check).(pc := if k + 1 == |s.workers| then Join else MeasureSpawn(k + 1))
    case CheckDeadline(i) =>
      if s.clock < s.deadline then MoveTo(s, i, Begin)
      else MoveTo(s, i, Finished).(perG := s.perG[i := s.workers[i].local],
                                   firsts := s.firsts[i := s.workers[i].last])
    case ReadStart(i) => MoveTo(s, i, Bench(s.clock))
    case EndRun(i, result) =>
      var w := s.workers[i];
      var sample := Interval(w.phase.t0, s.clock);
      s.(workers := s.workers[i := w.(phase := Check, local := w.local + [sample], last := Some(result))],
         taken := s.taken + [(i, sample)])
    case JoinMeasure => s.(totalDuration := s.clock - s.measureStart, pc := Report)
    case Return => s.(procs := s.prevProcs, pc := Returned)
  }

  /** The state after a list of steps, if each is enabled in turn. */
  function Exec(cfg: Config, s: State, steps: seq<Step>): (r: Option<State>)
    requires Shaped(s)
    ensures r.Some? ==> Shaped(r.value) && |r.value.workers| == |s.workers|
  {
    if steps == [] then Some(s)
    else
      var t := Exec(cfg, s, steps[..|steps| - 1]);
      var step := steps[|steps| - 1];
      if t.Some? && Enabled(t.value, step) then Some(Apply(cfg, t.value, step)) else None
  }

  /** Some interleaving leads from the call of Run to s. */
  ghost predicate Reachable(cfg: Config, prevProcs: int, now: int, s: State)
    requires cfg.threads > 0
  {
    exists steps :: Exec(cfg, Start(cfg, prevProcs, now), steps) == Some(s)
  }

  // The invariant.

  predicate Warming(p: Phase) {
    p.WarmCheck? || p.WarmRun? || p.WarmDone?
  }

  predicate Measuring(p: Phase) {
    p.Check? || p.Begin? || p.Bench? || p.Finished?
  }

  /** Intervals that follow one another between lo and hi. */
  ghost predicate Chain(ivs: seq<Interval>, lo: int, hi: int) {
    && (forall k :: 0 <= k < |ivs| ==> lo <= ivs[k].start <= ivs[k].stop <= hi)
    && (forall k, m :: 0 <= k < m < |ivs| ==> ivs[k].stop <= ivs[m].start)
  }

  ghost predicate StopBefore(ivs: seq<Interval>, deadline: int) {
    forall k :: 0 <= k < |ivs| ==> ivs[k].stop < deadline
  }

  function OfWorker(taken: seq<(nat, Interval)>, i: nat): seq<Interval> {
    if taken == [] then []
    else
      var rest := OfWorker(AllButLast(taken), i);
      if taken[|taken| - 1].0 == i then rest + [taken[|taken| - 1].1] else rest
  }

  predicate Over(pc: Pc) {
    pc == Report || pc == Returned
  }

  predicate Measured(pc: Pc) {
    pc.MeasureSpawn? || pc.Join? || Over(pc)
  }

  /** The latest time a sample can have ended. */
  function Horizon(s: State): int {
    if Over(s.pc) then s.measureStart + s.totalDuration else s.clock
  }

  ghost predicate WorkerOk(s: State, i: nat)
    requires Shaped(s) && i < |s.workers|
  {
    var w := s.workers[i];
    && OfWorker(s.taken, i) == w.local
    && (w.last.None? <==> w.local == [])
    && (if w.phase.Finished? then s.perG[i] == w.local && s.firsts[i] == w.last
        else s.perG[i] == [] && s.firsts[i] == None)
    && (!Measuring(w.phase) ==> w.local == [])
    && (w.phase.WarmDone? || Measuring(w.phase) ==> s.warmupDeadline <= w.warmedAt <= s.clock)
    && (w.phase.Finished? ==> s.deadline <= s.clock)
    && (Measured(s.pc) ==> w.warmedAt <= s.measureStart)
    && Chain(w.local, s.measureStart, if w.phase.Bench? then w.phase.t0 else Horizon(s))
    && (w.phase.Bench? ==> s.measureStart <= w.phase.t0 <= s.clock)
    && StopBefore(if w.phase.Begin? || w.phase.Bench? then w.local else AllButLast(w.local), s.deadline)
  }

  ghost predicate AllIn(s: State, lo: int, hi: int, phase: Phase -> bool) {
    forall i :: lo <= i < hi && 0 <= i < |s.workers| ==> phase(s.workers[i].phase)
  }

  ghost predicate PcOk(s: State) {
    var n := |s.workers|;
    match s.pc
    case Setup => AllIn(s, 0, n, p => p == Resting)
    case WarmSpawn(k) => k < n && AllIn(s, 0, k, Warming) && AllIn(s, k, n, p => p == Resting)
    case WarmWait => AllIn(s, 0, n, Warming)
    case Prepare => AllIn(s, 0, n, p => p == WarmDone)
    case MeasureSpawn(k) => k < n && AllIn(s, 0, k, Measuring) && AllIn(s, k, n, p => p == WarmDone)
    case Join => AllIn(s, 0, n, Measuring)
    case Report => AllIn(s, 0, n, p => p == Finished)
    case Returned => AllIn(s, 0, n, p => p == Finished)
  }

  ghost predicate Inv(s: State) {
    && Shaped(s)
    && PcOk(s)
    && s.procs == (if s.pc == Setup || s.pc == Returned then s.prevProcs else |s.workers|)
    && (Measured(s.pc) ==> s.measureStart <= s.clock)
    && (Over(s.pc) ==> s.totalDuration >= 0 && s.deadline <= s.measureStart + s.totalDuration)
    && (forall k :: 0 <= k < |s.taken| ==> s.taken[k].0 < |s.workers|)
    && (forall i: nat :: i < |s.workers| ==> WorkerOk(s, i))
  }

  lemma StartIsOk(cfg: Config, prevProcs: int, now: int)
    requires cfg.threads > 0
    ensures Inv(Start(cfg, prevProcs, now))
  {
  }

  lemma TickKeepsInv(cfg: Config, s: State, elapsed: nat)
    requires Inv(s)
    ensures Inv(Apply(cfg, s, Tick(elapsed)))
  {
    hide OfWorker, StopBefore;
    var t := Apply(cfg, s, Tick(elapsed));
    forall j: nat | j < |t.workers|
      ensures WorkerOk(t, j)
    {
      assert WorkerOk(s, j);
    }
  }

  lemma WarmupKeepsInv(cfg: Config, s: State, step: Step)
    requires Inv(s) && Enabled(s, step)
    requires step.BeginWarmup? || step.SpawnWarm? || step.JoinWarm?
    ensures Inv(Apply(cfg, s, step))
  {
    hide OfWorker;
    var t := Apply(cfg, s, step);
    forall j: nat | j < |t.workers|
      ensures WorkerOk(t, j)
    {
      assert WorkerOk(s, j);
    }
  }

  /** t differs from s in worker i and its slots alone. */
  ghost predicate OnlyWorker(s: State, t: State, i: nat)
    requires Shaped(s) && i < |s.workers|
  {
    && t.(workers := s.workers, perG := s.perG, firsts := s.firsts, taken := s.taken) == s
    && |t.workers| == |s.workers| && |t.perG| == |s.perG| && |t.firsts| == |s.firsts|
    && forall j: nat :: j < |s.workers| && j != i ==>
         && t.workers[j] == s.workers[j]
         && t.perG[j] == s.perG[j] && t.firsts[j] == s.firsts[j]
         && OfWorker(t.taken, j) == OfWorker(s.taken, j)
  }

  lemma PcKept(s: State, t: State, i: nat)
    requires Shaped(s) && i < |s.workers| && PcOk(s) && OnlyWorker(s, t, i)
    requires var p := s.workers[i].phase; p.WarmCheck? || p.WarmRun? || p.Check? || p.Begin? || p.Bench?
    requires Warming(s.workers[i].phase) ==> Warming(t.workers[i].phase)
    requires Measuring(s.workers[i].phase) ==> Measuring(t.workers[i].phase)
    ensures PcOk(t)
  {
    hide OfWorker;
  }

  lemma OneWorkerMoved(s: State, t: State, i: nat)
    requires Inv(s) && i < |s.workers| && OnlyWorker(s, t, i)
    requires var p := s.workers[i].phase; p.WarmCheck? || p.WarmRun? || p.Check? || p.Begin? || p.Bench?
    requires Warming(s.workers[i].phase) ==> Warming(t.workers[i].phase)
    requires Measuring(s.workers[i].phase) ==> Measuring(t.workers[i].phase)
    requires forall k :: 0 <= k < |t.taken| ==> t.taken[k].0 < |t.workers|
    requires WorkerOk(t, i)
    ensures Inv(t)
  {
    hide PcOk, OfWorker;
    PcKept(s, t, i);
    forall j: nat | j < |t.workers|
      ensures WorkerOk(t, j)
    {
      assert WorkerOk(s, j);
    }
  }

  lemma WarmCheckKeepsInv(cfg: Config, s: State, i: nat)
    requires Inv(s) && Enabled(s, CheckWarm(i))
    ensures Inv(Apply(cfg, s, CheckWarm(i)))
  {
    assert WorkerOk(s, i);
    OneWorkerMoved(s, Apply(cfg, s, CheckWarm(i)), i);
  }

  lemma WarmRunKeepsInv(cfg: Config, s: State, i: nat)
    requires Inv(s) && Enabled(s, EndWarmRun(i))
    ensures Inv(Apply(cfg, s, EndWarmRun(i)))
  {
    assert WorkerOk(s, i);
    OneWorkerMoved(s, Apply(cfg, s, EndWarmRun(i)), i);
  }

  lemma MeasureKeepsInv(cfg: Config, s: State, step: Step)
    requires Inv(s) && Enabled(s, step)
    requires step.BeginMeasure? || step.SpawnMeasure?
    ensures Inv(Apply(cfg, s, step))
  {
    hide OfWorker;
    var t := Apply(cfg, s, step);
    forall j: nat | j < |t.workers|
      ensures WorkerOk(t, j)
    {
      assert WorkerOk(s, j);
    }
  }

  lemma ReportKeepsInv(cfg: Config, s: State, step: Step)
    requires Inv(s) && Enabled(s, step)
    requires step.JoinMeasure? || step.Return?
    ensures Inv(Apply(cfg, s, step))
  {
    hide OfWorker, StopBefore;
    assert WorkerOk(s, 0) && s.workers[0].phase == Finished;
    var t := Apply(cfg, s, step);
    forall j: nat | j < |t.workers|
      ensures WorkerOk(t, j)
    {
      assert WorkerOk(s, j);
    }
  }

  lemma DeadlineKeepsInv(cfg: Config, s: State, i: nat)
    requires Inv(s) && Enabled(s, CheckDeadline(i))
    ensures Inv(Apply(cfg, s, CheckDeadline(i)))
  {
    assert WorkerOk(s, i);
    OneWorkerMoved(s, Apply(cfg, s, CheckDeadline(i)), i);
  }

  lemma SampleStartKeepsInv(cfg: Config, s: State, i: nat)
    requires Inv(s) && Enabled(s, ReadStart(i))
    ensures Inv(Apply(cfg, s, ReadStart(i)))
  {
    assert WorkerOk(s, i);
    OneWorkerMoved(s, Apply(cfg, s, ReadStart(i)), i);
  }

  lemma SampleEndsAlone(cfg: Config, s: State, i: nat, result: Outcome)
    requires Inv(s) && Enabled(s, EndRun(i, result))
    ensures OnlyWorker(s, Apply(cfg, s, EndRun(i, result)), i)
  {
    hide PcOk, WorkerOk;
    assert AllButLast(Apply(cfg, s, EndRun(i, result)).taken) == s.taken;
  }

  lemma SampleEndIsOk(cfg: Config, s: State, i: nat, result: Outcome)
    requires Inv(s) && Enabled(s, EndRun(i, result))
    ensures WorkerOk(Apply(cfg, s, EndRun(i, result)), i)
  {
    var t := Apply(cfg, s, EndRun(i, result));
    assert WorkerOk(s, i) && !Over(s.pc);
    hide PcOk;
    assert AllButLast(t.taken) == s.taken;
    assert AllButLast(t.workers[i].local) == s.workers[i].local;
  }

  lemma SampleEndKeepsInv(cfg: Config, s: State, i: nat, result: Outcome)
    requires Inv(s) && Enabled(s, EndRun(i, result))
    ensures Inv(Apply(cfg, s, EndRun(i, result)))
  {
    hide OnlyWorker, WorkerOk;
    var t := Apply(cfg, s, EndRun(i, result));
    SampleEndsAlone(cfg, s, i, result);
    SampleEndIsOk(cfg, s, i, result);
    assert forall k :: 0 <= k < |t.taken| ==> t.taken[k].0 < |t.workers|;
    OneWorkerMoved(s, t, i);
  }

  lemma StepKeepsInv(cfg: Config, s: State, step: Step)
    requires Inv(s) && Enabled(s, step)
    ensures Inv(Apply(cfg, s, step))
  {
    hide Inv, Apply;
    match step
    case Tick(elapsed) => TickKeepsInv(cfg, s, elapsed);
    case BeginWarmup | SpawnWarm | JoinWarm => WarmupKeepsInv(cfg, s, step);
    case CheckWarm(i) => WarmCheckKeepsInv(cfg, s, i);
    case EndWarmRun(i) => WarmRunKeepsInv(cfg, s, i);
    case BeginMeasure | SpawnMeasure => MeasureKeepsInv(cfg, s, step);
    case JoinMeasure | Return => ReportKeepsInv(cfg, s, step);
    case CheckDeadline(i) => DeadlineKeepsInv(cfg, s, i);
    case ReadStart(i) => SampleStartKeepsInv(cfg, s, i);
    case EndRun(i, result) => SampleEndKeepsInv(cfg, s, i, result);
  }

  /** The invariant holds in every state of every interleaving. */
  lemma {:induction false} ExecKeepsInv(cfg: Config, s: State, steps: seq<Step>)
    requires Inv(s)
    ensures Exec(cfg, s, steps).Some? ==> Inv(Exec(cfg, s, steps).value)
    decreases |steps|
  {
    if steps != [] {
      ExecKeepsInv(cfg, s, steps[..|steps| - 1]);
      var t := Exec(cfg, s, steps[..|steps| - 1]);
      var step := steps[|steps| - 1];
      if t.Some? && Enabled(t.value, step) { StepKeepsInv(cfg, t.value, step); }
    }
  }

  lemma ReachableIsOk(cfg: Config, prevProcs: int, now: int, s: State)
    requires cfg.threads > 0 && Reachable(cfg, prevProcs, now, s)
    ensures Inv(s) && Shaped(s) && |s.workers| == cfg.threads
  {
    var steps :| Exec(cfg, Start(cfg, prevProcs, now), steps) == Some(s);
    StartIsOk(cfg, prevProcs, now);
    ExecKeepsInv(cfg, Start(cfg, prevProcs, now), steps);
  }

  // What every interleaving guarantees.

  function Lengths(ivs: seq<Interval>): (ns: seq<int>)
    ensures |ns| == |ivs| && forall k :: 0 <= k < |ns| ==> ns[k] == ivs[k].stop - ivs[k].start
  {
    seq(|ivs|, k requires 0 <= k < |ivs| => ivs[k].stop - ivs[k].start)
  }

  function Merged<T>(perG: seq<seq<T>>): seq<T> {
    if perG == [] then [] else Merged(AllButLast(perG)) + perG[|perG| - 1]
  }

  lemma {:induction false} ChainLength(ivs: seq<Interval>, lo: int, hi: int)
    requires lo <= hi && Chain(ivs, lo, hi)
    ensures Sum(Lengths(ivs)) <= hi - lo
  {
    if ivs != [] {
      var k := |ivs| - 1;
      ChainLength(ivs[..k], lo, ivs[k].start);
      assert Lengths(ivs)[..k] == Lengths(ivs[..k]);
    }
  }

  lemma {:induction false} SumConcat(a: seq<int>, b: seq<int>)
    ensures Sum(a + b) == Sum(a) + Sum(b)
  {
    if b == [] {
      assert a + b == a;
    } else {
      SumConcat(a, b[..|b| - 1]);
      assert (a + b)[..|a + b| - 1] == a + b[..|b| - 1];
    }
  }

  lemma LengthsConcat(a: seq<Interval>, b: seq<Interval>)
    ensures Lengths(a + b) == Lengths(a) + Lengths(b)
    ensures Sum(Lengths(a + b)) == Sum(Lengths(a)) + Sum(Lengths(b))
  {
    SumConcat(Lengths(a), Lengths(b));
  }

  ghost predicate Spent(ivs: seq<Interval>, most: int) {
    && Sum(Lengths(ivs)) <= most
    && forall k :: 0 <= k < |ivs| ==> Lengths(ivs)[k] >= 0
  }

  lemma SpentTogether(a: seq<Interval>, b: seq<Interval>, m: int, n: int)
    requires Spent(a, m) && Spent(b, n)
    ensures Spent(a + b, m + n)
  {
    LengthsConcat(a, b);
  }

  lemma NothingSpent()
    ensures Spent([], 0)
  {
  }

  lemma {:induction false} SpentMerged(perG: seq<seq<Interval>>, most: int)
    requires forall i :: 0 <= i < |perG| ==> Spent(perG[i], most)
    ensures Spent(Merged(perG), |perG| * most)
  {
    hide Spent;
    if perG == [] {
      NothingSpent();
    } else {
      var rest, last := AllButLast(perG), perG[|perG| - 1];
      SpentMerged(rest, most);
      SpentTogether(Merged(rest), last, |rest| * most, most);
      assert |rest| * most + most == |perG| * most;
    }
  }

  lemma WorkerSpent(s: State, i: nat)
    requires Inv(s) && Over(s.pc) && i < |s.perG|
    ensures Spent(s.perG[i], s.totalDuration)
  {
    assert WorkerOk(s, i);
    ChainLength(s.perG[i], s.measureStart, s.measureStart + s.totalDuration);
  }

  /** The workers together cannot have measured more than threads times the wall time. */
  lemma TimeBudget(cfg: Config, prevProcs: int, now: int, s: State)
    requires cfg.threads > 0 && Reachable(cfg, prevProcs, now, s) && Over(s.pc)
    ensures Sum(Lengths(Merged(s.perG))) <= cfg.threads * s.totalDuration
    ensures forall k :: 0 <= k < |Merged(s.perG)| ==> Lengths(Merged(s.perG))[k] >= 0
  {
    ReachableIsOk(cfg, prevProcs, now, s);
    forall i: nat | i < |s.perG|
      ensures Spent(s.perG[i], s.totalDuration)
    {
      WorkerSpent(s, i);
    }
    SpentMerged(s.perG, s.totalDuration);
  }

  lemma SharesWrittenOut(n: nat, v: int)
    ensures Share(n, 50) * v == 50 * ((n + 1) * v)
    ensures Share(n, 95) * v == 5 * ((n + 19) * v)
    ensures Share(n, 99) * v == (n + 99) * v
  {
    assert (50 * (n + 1)) * v == 50 * ((n + 1) * v);
    assert (5 * (n + 19)) * v == 5 * ((n + 19) * v);
  }

  lemma PercentilesWithin(ns: seq<int>, budget: int)
    requires Sum(ns) <= budget && forall k :: 0 <= k < |ns| ==> ns[k] >= 0
    ensures (|ns| + 1) * Percentile(ns, 50) <= 2 * budget
    ensures (|ns| + 19) * Percentile(ns, 95) <= 20 * budget
    ensures (|ns| + 99) * Percentile(ns, 99) <= 100 * budget
  {
    hide Percentile;
    PercentileWithinShare(ns, 50);
    PercentileWithinShare(ns, 95);
    PercentileWithinShare(ns, 99);
    SharesWrittenOut(|ns|, Percentile(ns, 50));
    SharesWrittenOut(|ns|, Percentile(ns, 95));
    SharesWrittenOut(|ns|, Percentile(ns, 99));
    hide Share;
  }

  /** Throughput limits latency: a percentile can only be high if few iterations were made. */
  lemma LatencyBudget(cfg: Config, prevProcs: int, now: int, s: State)
    requires cfg.threads > 0 && Reachable(cfg, prevProcs, now, s) && Over(s.pc)
    ensures var ns := Lengths(Merged(s.perG));
            && (|ns| + 1) * Percentile(ns, 50) <= 2 * (cfg.threads * s.totalDuration)
            && (|ns| + 19) * Percentile(ns, 95) <= 20 * (cfg.threads * s.totalDuration)
            && (|ns| + 99) * Percentile(ns, 99) <= 100 * (cfg.threads * s.totalDuration)
  {
    hide Percentile, Reachable, Merged, Sum;
    var ns := Lengths(Merged(s.perG));
    TimeBudget(cfg, prevProcs, now, s);
    PercentilesWithin(ns, cfg.threads * s.totalDuration);
  }

  function Samples(taken: seq<(nat, Interval)>): seq<Interval> {
    if taken == [] then [] else Samples(AllButLast(taken)) + [taken[|taken| - 1].1]
  }

  /** The samples in taken, sorted by worker. */
  function ByWorker(taken: seq<(nat, Interval)>, threads: nat): (perG: seq<seq<Interval>>)
    ensures |perG| == threads
  {
    seq(threads, i requires 0 <= i < threads => OfWorker(taken, i))
  }

  lemma GrownParts<T>(perG: seq<seq<T>>, i: nat, x: T)
    requires i < |perG|
    ensures var grown := perG[i := perG[i] + [x]];
            if i == |perG| - 1 then AllButLast(grown) == AllButLast(perG)
            else AllButLast(grown) == AllButLast(perG)[i := AllButLast(perG)[i] + [x]]
  {
  }

  lemma {:induction false} MergedGrows<T>(perG: seq<seq<T>>, i: nat, x: T)
    requires i < |perG|
    ensures multiset(Merged(perG[i := perG[i] + [x]])) == multiset(Merged(perG)) + multiset{x}
  {
    GrownParts(perG, i, x);
    hide AllButLast;
    if i == |perG| - 1 {
      assert AllButLast(perG) == AllButLast(perG[i := perG[i] + [x]]);
    } else {
      MergedGrows(AllButLast(perG), i, x);
    }
  }

  lemma {:induction false} MergedEmpty(threads: nat)
    ensures Merged(ByWorker([], threads)) == []
  {
    if threads > 0 {
      MergedEmpty(threads - 1);
      assert AllButLast(ByWorker([], threads)) == ByWorker([], threads - 1);
    }
  }

  lemma ByWorkerGrows(taken: seq<(nat, Interval)>, threads: nat)
    requires taken != [] && taken[|taken| - 1].0 < threads
    ensures var blocks, (i, x) := ByWorker(AllButLast(taken), threads), taken[|taken| - 1];
            ByWorker(taken, threads) == blocks[i := blocks[i] + [x]]
  {
  }

  lemma {:induction false} NothingLost(taken: seq<(nat, Interval)>, threads: nat)
    requires forall k :: 0 <= k < |taken| ==> taken[k].0 < threads
    ensures multiset(Merged(ByWorker(taken, threads))) == multiset(Samples(taken))
    ensures |Merged(ByWorker(taken, threads))| == |Samples(taken)| == |taken|
    decreases |taken|
  {
    if taken == [] {
      MergedEmpty(threads);
    } else {
      var rest := AllButLast(taken);
      var (i, x) := taken[|taken| - 1];
      NothingLost(rest, threads);
      MergedGrows(ByWorker(rest, threads), i, x);
      ByWorkerGrows(taken, threads);
      hide ByWorker, Merged;
      assert |multiset(Merged(ByWorker(taken, threads)))| == |multiset(Samples(taken))|;
    }
  }

  function AllLengths(perG: seq<seq<Interval>>): (ns: seq<seq<int>>)
    ensures |ns| == |perG|
  {
    seq(|perG|, i requires 0 <= i < |perG| => Lengths(perG[i]))
  }

  lemma LengthAppended(ivs: seq<Interval>, x: Interval)
    ensures Lengths(ivs + [x]) == Lengths(ivs) + [x.stop - x.start]
  {
  }

  lemma AllLengthsGrow(perG: seq<seq<Interval>>, i: nat, x: Interval)
    requires i < |perG|
    ensures AllLengths(perG[i := perG[i] + [x]]) == AllLengths(perG)[i := AllLengths(perG)[i] + [x.stop - x.start]]
  {
    hide Lengths;
    LengthAppended(perG[i], x);
  }

  lemma AllLengthsButLast(perG: seq<seq<Interval>>)
    requires perG != []
    ensures AllButLast(AllLengths(perG)) == AllLengths(AllButLast(perG))
  {
  }

  lemma {:induction false} LengthsMerged(perG: seq<seq<Interval>>)
    ensures Lengths(Merged(perG)) == Merged(AllLengths(perG))
  {
    if perG != [] {
      AllLengthsButLast(perG);
      LengthsMerged(AllButLast(perG));
      LengthsConcat(Merged(AllButLast(perG)), perG[|perG| - 1]);
    }
  }

  /** Merging worker by worker reorders the durations in which the samples were taken. */
  lemma {:induction false} LengthsConserved(taken: seq<(nat, Interval)>, threads: nat)
    requires forall k :: 0 <= k < |taken| ==> taken[k].0 < threads
    ensures multiset(Lengths(Merged(ByWorker(taken, threads)))) == multiset(Lengths(Samples(taken)))
    decreases |taken|
  {
    hide Lengths, AllLengths, ByWorker, Merged;
    if taken == [] {
      MergedEmpty(threads);
    } else {
      var rest := AllButLast(taken);
      var (i, x) := taken[|taken| - 1];
      var blocks := ByWorker(rest, threads);
      LengthsConserved(rest, threads);
      ByWorkerGrows(taken, threads);
      AllLengthsGrow(blocks, i, x);
      MergedGrows(AllLengths(blocks), i, x.stop - x.start);
      LengthsMerged(blocks);
      LengthsMerged(ByWorker(taken, threads));
      LengthAppended(Samples(rest), x);
    }
  }

  /** Every sample taken, and nothing else, is merged; each slot holds its own worker's samples in order. */
  lemma SamplesConserved(cfg: Config, prevProcs: int, now: int, s: State)
    requires cfg.threads > 0 && Reachable(cfg, prevProcs, now, s) && Over(s.pc)
    ensures forall i: nat :: i < cfg.threads ==> s.perG[i] == OfWorker(s.taken, i)
    ensures multiset(Merged(s.perG)) == multiset(Samples(s.taken))
    ensures |Merged(s.perG)| == |s.taken|
    ensures multiset(Lengths(Merged(s.perG))) == multiset(Lengths(Samples(s.taken)))
  {
    ReachableIsOk(cfg, prevProcs, now, s);
    forall i: nat | i < |s.perG|
      ensures s.perG[i] == OfWorker(s.taken, i)
    {
      assert WorkerOk(s, i);
    }
    assert s.perG == ByWorker(s.taken, cfg.threads);
    NothingLost(s.taken, cfg.threads);
    LengthsConserved(s.taken, cfg.threads);
  }

  lemma {:induction false} TakenIsOfWorker(taken: seq<(nat, Interval)>, k: nat)
    requires k < |taken|
    ensures taken[k].1 in OfWorker(taken, taken[k].0)
    decreases |taken|
  {
    if k < |taken| - 1 { TakenIsOfWorker(AllButLast(taken), k); }
  }

  lemma StepKeepsWarmupDeadline(cfg: Config, s: State, step: Step, now: int)
    requires Shaped(s) && Enabled(s, step)
    requires now <= s.clock && (s.pc != Setup ==> now + cfg.warmup <= s.warmupDeadline)
    ensures var t := Apply(cfg, s, step); now <= t.clock && (t.pc != Setup ==> now + cfg.warmup <= t.warmupDeadline)
  {
  }

  lemma {:induction false} WarmupDeadlineIsFixed(cfg: Config, s: State, steps: seq<Step>)
    requires Shaped(s) && s.pc == Setup
    ensures var r := Exec(cfg, s, steps);
            r.Some? ==> s.clock <= r.value.clock
                        && (r.value.pc != Setup ==> s.clock + cfg.warmup <= r.value.warmupDeadline)
    decreases |steps|
  {
    hide Apply, Enabled;
    if steps != [] {
      var rest := steps[..|steps| - 1];
      WarmupDeadlineIsFixed(cfg, s, rest);
      var t, step := Exec(cfg, s, rest), steps[|steps| - 1];
      if t.Some? && Enabled(t.value, step) { StepKeepsWarmupDeadline(cfg, t.value, step, s.clock); }
    }
  }

  lemma SampledLate(s: State, k: nat, j: nat)
    requires Inv(s) && k < |s.taken| && j < |s.workers|
    ensures Measured(s.pc) && (Measuring(s.workers[j].phase) || s.workers[j].phase == WarmDone)
    ensures s.warmupDeadline <= s.workers[j].warmedAt <= s.measureStart <= s.taken[k].1.start
  {
    TakenIsOfWorker(s.taken, k);
    assert WorkerOk(s, s.taken[k].0) && WorkerOk(s, j);
    assert Measuring(s.workers[s.taken[k].0].phase);
  }

  /** No sample starts before every worker has warmed up for the whole warmup period. */
  lemma WarmupBarrier(cfg: Config, prevProcs: int, now: int, s: State, k: nat, j: nat)
    requires cfg.threads > 0 && Reachable(cfg, prevProcs, now, s)
    requires k < |s.taken| && j < cfg.threads
    ensures Measuring(s.workers[j].phase) || s.workers[j].phase == WarmDone
    ensures now + cfg.warmup <= s.warmupDeadline
    ensures s.warmupDeadline <= s.workers[j].warmedAt <= s.measureStart <= s.taken[k].1.start
  {
    hide Inv, Exec;
    var steps :| Exec(cfg, Start(cfg, prevProcs, now), steps) == Some(s);
    WarmupDeadlineIsFixed(cfg, Start(cfg, prevProcs, now), steps);
    ReachableIsOk(cfg, prevProcs, now, s);
    SampledLate(s, k, j);
  }

  lemma StepKeepsDeadline(cfg: Config, s: State, step: Step)
    requires Shaped(s) && Enabled(s, step)
    requires Measured(s.pc) ==> s.deadline == s.measureStart + cfg.duration
    ensures var t := Apply(cfg, s, step); Measured(t.pc) ==> t.deadline == t.measureStart + cfg.duration
  {
  }

  lemma {:induction false} DeadlineIsFixed(cfg: Config, s: State, steps: seq<Step>)
    requires Shaped(s) && s.pc == Setup
    ensures var r := Exec(cfg, s, steps);
            r.Some? && Measured(r.value.pc) ==> r.value.deadline == r.value.measureStart + cfg.duration
    decreases |steps|
  {
    hide Apply, Enabled;
    if steps != [] {
      var rest := steps[..|steps| - 1];
      DeadlineIsFixed(cfg, s, rest);
      var t, step := Exec(cfg, s, rest), steps[|steps| - 1];
      if t.Some? && Enabled(t.value, step) { StepKeepsDeadline(cfg, t.value, step); }
    }
  }

  /** The deadline is overrun by at most one sample per worker, and no run is reported before it. */
  lemma OneLateSampleEach(cfg: Config, prevProcs: int, now: int, s: State, i: nat)
    requires cfg.threads > 0 && Reachable(cfg, prevProcs, now, s) && Over(s.pc) && i < cfg.threads
    ensures StopBefore(AllButLast(s.perG[i]), s.deadline)
    ensures Chain(s.perG[i], s.measureStart, s.measureStart + s.totalDuration)
    ensures s.deadline == s.measureStart + cfg.duration && s.totalDuration >= cfg.duration
  {
    ReachableIsOk(cfg, prevProcs, now, s);
    assert WorkerOk(s, i);
    var steps :| Exec(cfg, Start(cfg, prevProcs, now), steps) == Some(s);
    DeadlineIsFixed(cfg, Start(cfg, prevProcs, now), steps);
  }

  lemma {:induction false} PrevProcsKept(cfg: Config, s: State, steps: seq<Step>)
    requires Shaped(s)
    ensures var r := Exec(cfg, s, steps); r.Some? ==> r.value.prevProcs == s.prevProcs
    decreases |steps|
  {
    if steps != [] { PrevProcsKept(cfg, s, steps[..|steps| - 1]); }
  }

  /** GOMAXPROCS is the thread count throughout and is put back at the end. */
  lemma ProcsRestored(cfg: Config, prevProcs: int, now: int, s: State)
    requires cfg.threads > 0 && Reachable(cfg, prevProcs, now, s)
    ensures s.pc == Returned ==> s.procs == prevProcs
    ensures s.pc != Setup && s.pc != Returned ==> s.procs == cfg.threads
  {
    ReachableIsOk(cfg, prevProcs, now, s);
    var steps :| Exec(cfg, Start(cfg, prevProcs, now), steps) == Some(s);
    PrevProcsKept(cfg, Start(cfg, prevProcs, now), steps);
  }

  lemma WorkerCanMove(s: State, i: nat)
    requires i < |s.workers|
    requires var p := s.workers[i].phase; !p.Resting? && !p.WarmDone? && !p.Finished?
    ensures exists step: Step :: !step.Tick? && Enabled(s, step)
  {
    match s.workers[i].phase
    case WarmCheck => assert Enabled(s, CheckWarm(i));
    case WarmRun => assert Enabled(s, EndWarmRun(i));
    case Check => assert Enabled(s, CheckDeadline(i));
    case Begin => assert Enabled(s, ReadStart(i));
    case Bench(_) => assert Enabled(s, EndRun(i, 0));
    case _ =>
  }

  /** Until Run returns, some goroutine can move: no interleaving blocks. */
  lemma NoDeadlock(cfg: Config, prevProcs: int, now: int, s: State)
    requires cfg.threads > 0 && Reachable(cfg, prevProcs, now, s) && s.pc != Returned
    ensures exists step: Step :: !step.Tick? && Enabled(s, step)
  {
    ReachableIsOk(cfg, prevProcs, now, s);
    if s.pc == Setup {
      assert Enabled(s, BeginWarmup);
    } else if s.pc.WarmSpawn? {
      assert Enabled(s, SpawnWarm);
    } else if s.pc == Prepare {
      assert Enabled(s, BeginMeasure);
    } else if s.pc.MeasureSpawn? {
      assert Enabled(s, SpawnMeasure);
    } else if s.pc == Report {
      assert Enabled(s, Return);
    } else if s.pc == WarmWait && (exists i: nat :: i < |s.workers| && s.workers[i].phase != WarmDone) {
      var i: nat :| i < |s.workers| && s.workers[i].phase != WarmDone;
      WorkerCanMove(s, i);
    } else if s.pc == WarmWait {
      assert Enabled(s, JoinWarm);
    } else if exists i: nat :: i < |s.workers| && s.workers[i].phase != Finished {
      var i: nat :| i < |s.workers| && s.workers[i].phase != Finished;
      WorkerCanMove(s, i);
    } else {
      assert Enabled(s, JoinMeasure);
    }
  }

  // How many steps, clock ticks aside, are left once the measurement deadline has passed.

  predicate PastDeadline(s: State) {
    Measured(s.pc) && s.deadline <= s.clock
  }

  function WorkerSteps(w: Worker): nat {
    match w.phase
    case Begin => 3
    case Check => 1
    case Finished => 0
    case _ => 2
  }

  function WorkersSteps(ws: seq<Worker>): nat {
    if ws == [] then 0 else WorkersSteps(AllButLast(ws)) + WorkerSteps(ws[|ws| - 1])
  }

  function StepsLeft(s: State): nat {
    WorkersSteps(s.workers) + if s.pc == Returned then 0 else if s.pc == Report then 1 else 2
  }

  lemma {:induction false} WorkersStepsUpdated(ws: seq<Worker>, i: nat, w: Worker)
    requires i < |ws|
    ensures WorkersSteps(ws[i := w]) == WorkersSteps(ws) - WorkerSteps(ws[i]) + WorkerSteps(w)
  {
    if i < |ws| - 1 {
      WorkersStepsUpdated(AllButLast(ws), i, w);
      assert AllButLast(ws[i := w]) == AllButLast(ws)[i := w];
    } else {
      assert AllButLast(ws[i := w]) == AllButLast(ws);
    }
  }

  lemma {:induction false} WorkersStepsBounded(ws: seq<Worker>)
    ensures WorkersSteps(ws) <= 3 * |ws|
  {
    if ws != [] { WorkersStepsBounded(AllButLast(ws)); }
  }

  lemma StepUsesUp(cfg: Config, s: State, step: Step)
    requires Inv(s) && PastDeadline(s) && Enabled(s, step)
    ensures PastDeadline(Apply(cfg, s, step))
    ensures StepsLeft(Apply(cfg, s, step)) + (if step.Tick? then 0 else 1) <= StepsLeft(s)
  {
    hide WorkersSteps, WorkerOk;
    match step
    case SpawnMeasure =>
      WorkersStepsUpdated(s.workers, s.pc.next, s.workers[s.pc.next].(phase := Check));
    case CheckDeadline(i) =>
      WorkersStepsUpdated(s.workers, i, s.workers[i].(phase := Finished));
    case ReadStart(i) =>
      WorkersStepsUpdated(s.workers, i, s.workers[i].(phase := Bench(s.clock)));
    case EndRun(i, result) =>
      WorkersStepsUpdated(s.workers, i, Apply(cfg, s, step).workers[i]);
    case _ =>
  }

  function Progress(steps: seq<Step>): nat {
    if steps == [] then 0 else Progress(AllButLast(steps)) + if steps[|steps| - 1].Tick? then 0 else 1
  }

  lemma {:induction false} StepsUseUp(cfg: Config, s: State, steps: seq<Step>, t: State)
    requires Inv(s) && PastDeadline(s) && Exec(cfg, s, steps) == Some(t)
    ensures Inv(t) && PastDeadline(t) && StepsLeft(t) + Progress(steps) <= StepsLeft(s)
    decreases |steps|
  {
    hide StepsLeft, PastDeadline, Apply, PcOk, WorkerOk;
    if steps != [] {
      var rest := AllButLast(steps);
      var u := Exec(cfg, s, rest).value;
      StepsUseUp(cfg, s, rest, u);
      StepUsesUp(cfg, u, steps[|steps| - 1]);
      StepKeepsInv(cfg, u, steps[|steps| - 1]);
    }
  }

  /**
   * The measurement ends: from any reachable state past its deadline, however the goroutines interleave, at most three
   * steps for each worker and two joins follow, clock ticks aside.
   */
  lemma MeasurementEnds(cfg: Config, prevProcs: int, now: int, s: State, steps: seq<Step>)
    requires cfg.threads > 0 && Reachable(cfg, prevProcs, now, s) && PastDeadline(s)
    requires Shaped(s) && Exec(cfg, s, steps).Some?
    ensures Progress(steps) <= 3 * cfg.threads + 2
  {
    hide Inv, PastDeadline;
    ReachableIsOk(cfg, prevProcs, now, s);
    StepsUseUp(cfg, s, steps, Exec(cfg, s, steps).value);
    WorkersStepsBounded(s.workers);
  }

  // What a run records, read off its list of steps alone.

  function Elapsed(steps: seq<Step>): nat {
    if steps == [] then 0
    else Elapsed(AllButLast(steps)) + if steps[|steps| - 1].Tick? then steps[|steps| - 1].elapsed else 0
  }

  /** The clock after the last ReadStart of worker i. */
  function LastStart(now: int, steps: seq<Step>, i: nat): int {
    if steps == [] then now
    else if steps[|steps| - 1] == ReadStart(i) then now + Elapsed(AllButLast(steps))
    else LastStart(now, AllButLast(steps), i)
  }

  /** One sample for each EndRun: its worker, the time of the worker's last ReadStart, and its own time. */
  function TakenIn(now: int, steps: seq<Step>): seq<(nat, Interval)> {
    if steps == [] then []
    else
      var rest, step := AllButLast(steps), steps[|steps| - 1];
      if step.EndRun? then TakenIn(now, rest) + [(step.i, Interval(LastStart(now, rest, step.i), now + Elapsed(rest)))]
      else TakenIn(now, rest)
  }

  function RunsEnded(steps: seq<Step>): nat {
    if steps == [] then 0 else RunsEnded(AllButLast(steps)) + if steps[|steps| - 1].EndRun? then 1 else 0
  }

  /** The result of worker i's last EndRun. */
  function LastResult(steps: seq<Step>, i: nat): Option<Outcome> {
    if steps == [] then None
    else
      var step := steps[|steps| - 1];
      if step.EndRun? && step.i == i then Some(step.result) else LastResult(AllButLast(steps), i)
  }

  /** When a step of the calling goroutine was made, if it was. */
  function TimeOf(now: int, steps: seq<Step>, step: Step): Option<int> {
    if steps == [] then None
    else if steps[|steps| - 1] == step then Some(now + Elapsed(AllButLast(steps)))
    else TimeOf(now, AllButLast(steps), step)
  }

  /** When worker i first compared the clock with the warmup deadline at or past it, if it has. */
  function WarmedIn(cfg: Config, now: int, steps: seq<Step>, i: nat): Option<int> {
    if steps == [] then None
    else
      var rest := AllButLast(steps);
      var before, start, time := WarmedIn(cfg, now, rest, i), TimeOf(now, rest, BeginWarmup), now + Elapsed(rest);
      if before.None? && start.Some? && steps[|steps| - 1] == CheckWarm(i) && start.value + cfg.warmup <= time
      then Some(time) else before
  }

  lemma {:induction false} TakenPerRun(now: int, steps: seq<Step>)
    ensures |TakenIn(now, steps)| == RunsEnded(steps)
    decreases |steps|
  {
    if steps != [] { TakenPerRun(now, AllButLast(steps)); }
  }

  /** The k-th sample belongs to the k-th EndRun. */
  lemma {:induction false} TakenAt(now: int, steps: seq<Step>, p: nat)
    requires p < |steps| && steps[p].EndRun?
    ensures |TakenIn(now, steps)| == RunsEnded(steps) > RunsEnded(steps[..p])
    ensures TakenIn(now, steps)[RunsEnded(steps[..p])]
         == (steps[p].i, Interval(LastStart(now, steps[..p], steps[p].i), now + Elapsed(steps[..p])))
    decreases |steps|
  {
    TakenPerRun(now, AllButLast(steps));
    if p < |steps| - 1 {
      assert AllButLast(steps)[..p] == steps[..p];
      TakenAt(now, AllButLast(steps), p);
    }
  }

  ghost predicate WorkerTraced(cfg: Config, now: int, steps: seq<Step>, w: Worker, i: nat) {
    && w.last == LastResult(steps, i)
    && (w.phase.Bench? ==> w.phase.t0 == LastStart(now, steps, i))
    && (w.phase.WarmDone? || Measuring(w.phase) <==> WarmedIn(cfg, now, steps, i).Some?)
    && (w.phase.WarmDone? || Measuring(w.phase) ==> WarmedIn(cfg, now, steps, i) == Some(w.warmedAt))
  }

  ghost predicate CallerTraced(cfg: Config, now: int, steps: seq<Step>, s: State) {
    && s.clock == now + Elapsed(steps)
    && (s.pc == Setup <==> TimeOf(now, steps, BeginWarmup) == None)
    && (s.pc != Setup ==> TimeOf(now, steps, BeginWarmup) == Some(s.warmupDeadline - cfg.warmup))
    && (Measured(s.pc) <==> TimeOf(now, steps, BeginMeasure).Some?)
    && (Measured(s.pc) ==> TimeOf(now, steps, BeginMeasure) == Some(s.measureStart))
    && (Measured(s.pc) ==> s.deadline == s.measureStart + cfg.duration)
    && (Over(s.pc) <==> TimeOf(now, steps, JoinMeasure).Some?)
    && (Over(s.pc) ==> TimeOf(now, steps, JoinMeasure) == Some(s.measureStart + s.totalDuration))
  }

  ghost predicate Traced(cfg: Config, now: int, steps: seq<Step>, s: State) {
    && CallerTraced(cfg, now, steps, s)
    && s.taken == TakenIn(now, steps)
    && forall i: nat :: i < |s.workers| ==> WorkerTraced(cfg, now, steps, s.workers[i], i)
  }

  lemma CallerKeepsTrace(cfg: Config, now: int, steps: seq<Step>, s: State)
    requires steps != [] && Shaped(s) && Enabled(s, steps[|steps| - 1])
    requires CallerTraced(cfg, now, AllButLast(steps), s)
    ensures CallerTraced(cfg, now, steps, Apply(cfg, s, steps[|steps| - 1]))
  {
  }

  lemma SpawnKeepsTrace(cfg: Config, now: int, steps: seq<Step>, s: State, i: nat)
    requires steps != [] && Inv(s) && Enabled(s, steps[|steps| - 1]) && i < |s.workers|
    requires steps[|steps| - 1].SpawnWarm? || steps[|steps| - 1].SpawnMeasure?
    requires WorkerTraced(cfg, now, AllButLast(steps), s.workers[i], i)
    ensures WorkerTraced(cfg, now, steps, Apply(cfg, s, steps[|steps| - 1]).workers[i], i)
  {
    hide WorkerOk, TimeOf, Elapsed;
  }

  lemma WarmCheckKeepsTrace(cfg: Config, now: int, steps: seq<Step>, s: State, i: nat)
    requires steps != [] && Inv(s) && Enabled(s, steps[|steps| - 1]) && i < |s.workers|
    requires steps[|steps| - 1].CheckWarm?
    requires CallerTraced(cfg, now, AllButLast(steps), s)
    requires WorkerTraced(cfg, now, AllButLast(steps), s.workers[i], i)
    ensures WorkerTraced(cfg, now, steps, Apply(cfg, s, steps[|steps| - 1]).workers[i], i)
  {
    hide WorkerOk, TimeOf, Elapsed;
  }

  lemma WorkerKeepsTrace(cfg: Config, now: int, steps: seq<Step>, s: State, i: nat)
    requires steps != [] && Inv(s) && Enabled(s, steps[|steps| - 1]) && i < |s.workers|
    requires CallerTraced(cfg, now, AllButLast(steps), s)
    requires WorkerTraced(cfg, now, AllButLast(steps), s.workers[i], i)
    ensures WorkerTraced(cfg, now, steps, Apply(cfg, s, steps[|steps| - 1]).workers[i], i)
  {
    hide Inv, TimeOf, Elapsed;
    match steps[|steps| - 1]
    case SpawnWarm | SpawnMeasure => SpawnKeepsTrace(cfg, now, steps, s, i);
    case CheckWarm(_) => WarmCheckKeepsTrace(cfg, now, steps, s, i);
    case _ =>
  }

  lemma SampleTraced(cfg: Config, now: int, steps: seq<Step>, s: State)
    requires steps != [] && Shaped(s) && Enabled(s, steps[|steps| - 1]) && Traced(cfg, now, AllButLast(steps), s)
    ensures Apply(cfg, s, steps[|steps| - 1]).taken == TakenIn(now, steps)
  {
  }

  lemma StepKeepsTrace(cfg: Config, now: int, steps: seq<Step>, s: State)
    requires steps != [] && Inv(s) && Enabled(s, steps[|steps| - 1]) && Traced(cfg, now, AllButLast(steps), s)
    ensures Traced(cfg, now, steps, Apply(cfg, s, steps[|steps| - 1]))
  {
    hide CallerTraced, WorkerTraced, PcOk, WorkerOk;
    CallerKeepsTrace(cfg, now, steps, s);
    var t := Apply(cfg, s, steps[|steps| - 1]);
    forall i: nat | i < |t.workers|
      ensures WorkerTraced(cfg, now, steps, t.workers[i], i)
    {
      WorkerKeepsTrace(cfg, now, steps, s, i);
    }
    SampleTraced(cfg, now, steps, s);
  }

  lemma {:induction false} ExecIsTraced(cfg: Config, prevProcs: int, now: int, steps: seq<Step>)
    requires cfg.threads > 0
    ensures var r := Exec(cfg, Start(cfg, prevProcs, now), steps); r.Some? ==> Traced(cfg, now, steps, r.value)
    decreases |steps|
  {
    if steps == [] {
      assert Traced(cfg, now, [], Start(cfg, prevProcs, now));
    } else {
      hide Inv, Traced, Apply, Enabled;
      var rest := AllButLast(steps);
      assert rest == steps[..|steps| - 1];
      ExecIsTraced(cfg, prevProcs, now, rest);
      StartIsOk(cfg, prevProcs, now);
      ExecKeepsInv(cfg, Start(cfg, prevProcs, now), rest);
      var t := Exec(cfg, Start(cfg, prevProcs, now), rest);
      if t.Some? && Enabled(t.value, steps[|steps| - 1]) { StepKeepsTrace(cfg, now, steps, t.value); }
    }
  }

  lemma SlotsTraced(cfg: Config, now: int, steps: seq<Step>, s: State, i: nat)
    requires Inv(s) && Over(s.pc) && Traced(cfg, now, steps, s) && i < |s.workers|
    ensures s.firsts[i] == LastResult(steps, i) && s.perG[i] == OfWorker(TakenIn(now, steps), i)
  {
    assert s.workers[i].phase == Finished;
    assert WorkerOk(s, i) && WorkerTraced(cfg, now, steps, s.workers[i], i);
  }

  /**
   * Whatever the interleaving, the samples taken are one for each EndRun, from the worker's last ReadStart to it; when
   * the run is over each worker's slots hold its own samples and the result of its last EndRun, and the total duration
   * is the time from BeginMeasure to JoinMeasure.
   */
  lemma SamplesAreTimed(cfg: Config, prevProcs: int, now: int, steps: seq<Step>, s: State)
    requires cfg.threads > 0 && Exec(cfg, Start(cfg, prevProcs, now), steps) == Some(s)
    ensures s.taken == TakenIn(now, steps) && |s.taken| == RunsEnded(steps)
    ensures Over(s.pc) ==>
              && |s.firsts| == |s.perG| == cfg.threads
              && (forall i: nat :: i < cfg.threads ==> s.firsts[i] == LastResult(steps, i))
              && (forall i: nat :: i < cfg.threads ==> s.perG[i] == OfWorker(TakenIn(now, steps), i))
              && TimeOf(now, steps, BeginMeasure) == Some(s.deadline - cfg.duration)
              && TimeOf(now, steps, JoinMeasure) == Some(s.deadline - cfg.duration + s.totalDuration)
  {
    hide Inv, Exec;
    assert Reachable(cfg, prevProcs, now, s);
    ReachableIsOk(cfg, prevProcs, now, s);
    ExecIsTraced(cfg, prevProcs, now, steps);
    TakenPerRun(now, steps);
    if Over(s.pc) {
      forall i: nat | i < cfg.threads
        ensures s.firsts[i] == LastResult(steps, i) && s.perG[i] == OfWorker(TakenIn(now, steps), i)
      {
        SlotsTraced(cfg, now, steps, s, i);
      }
    }
  }

  // The result.

  /** Verify on a fresh instance: a nil result is of no known type and is refused. */
  predicate Accepted(accepts: Outcome -> bool, last: Option<Outcome>) {
    last.Some? && accepts(last.value)
  }

  lemma FirstResult(s: State, i: nat)
    requires Inv(s) && Over(s.pc) && i < |s.workers|
    ensures s.firsts[i].None? <==> s.perG[i] == []
    ensures s.workers[i].phase == Finished && s.perG[i] == s.workers[i].local
  {
    assert s.workers[i].phase == Finished;
    assert WorkerOk(s, i);
  }

  /**
   * The run is reported as verified exactly if worker 0 took a sample and its last result is accepted, whatever the
   * other workers did.
   */
  lemma VerifiedIffFirstWorkerSampled(cfg: Config, prevProcs: int, now: int, s: State, accepts: Outcome -> bool)
    requires cfg.threads > 0 && Reachable(cfg, prevProcs, now, s) && Over(s.pc)
    ensures Shaped(s) && (s.firsts[0].Some? <==> s.perG[0] != [])
    ensures Accepted(accepts, s.firsts[0]) <==> s.perG[0] != [] && accepts(s.firsts[0].value)
  {
    hide Reachable, Inv;
    ReachableIsOk(cfg, prevProcs, now, s);
    FirstResult(s, 0);
  }

  /**
   * Whether worker i's first comparison of the clock with the measurement deadline came before it; None if there has
   * been none.
   */
  function FirstCheck(cfg: Config, s: State, steps: seq<Step>, i: nat): Option<bool>
    requires Shaped(s)
  {
    if steps == [] then None
    else
      var first := FirstCheck(cfg, s, steps[..|steps| - 1], i);
      var t := Exec(cfg, s, steps[..|steps| - 1]);
      if first.None? && t.Some? && steps[|steps| - 1] == CheckDeadline(i) then Some(t.value.clock < t.value.deadline)
      else first
  }

  /** What the first comparison means for the worker from then on. */
  predicate Decided(w: Worker, first: Option<bool>) {
    match first
    case None => w.local == [] && !w.phase.Begin? && !w.phase.Bench? && !w.phase.Finished?
    case Some(inTime) =>
      if inTime then Measuring(w.phase) && (w.local != [] || w.phase.Begin? || w.phase.Bench?)
      else w.phase.Finished? && w.local == []
  }

  lemma StepKeepsDecided(cfg: Config, s: State, step: Step, i: nat, first: Option<bool>)
    requires Inv(s) && Enabled(s, step) && i < |s.workers| && Decided(s.workers[i], first)
    ensures Decided(Apply(cfg, s, step).workers[i],
                    if first.None? && step == CheckDeadline(i) then Some(s.clock < s.deadline) else first)
  {
    hide WorkerOk;
  }

  lemma RestingIsUndecided(w: Worker)
    requires w == Worker(Resting, 0, [], None)
    ensures Decided(w, None)
  {
  }

  lemma {:induction false} FirstCheckDecides(cfg: Config, s: State, steps: seq<Step>, i: nat)
    requires Inv(s) && s.pc == Setup && i < |s.workers|
    requires s.workers[i] == Worker(Resting, 0, [], None)
    ensures var r := Exec(cfg, s, steps); r.Some? ==> Decided(r.value.workers[i], FirstCheck(cfg, s, steps, i))
    decreases |steps|
  {
    hide PcOk, WorkerOk, Apply, Decided;
    if steps == [] {
      assert Decided(s.workers[i], None) by { RestingIsUndecided(s.workers[i]); }
    } else {
      var rest := steps[..|steps| - 1];
      FirstCheckDecides(cfg, s, rest, i);
      ExecKeepsInv(cfg, s, rest);
      var t, step := Exec(cfg, s, rest), steps[|steps| - 1];
      if t.Some? && Enabled(t.value, step) {
        StepKeepsDecided(cfg, t.value, step, i, FirstCheck(cfg, s, rest, i));
      }
    }
  }

  /**
   * In every interleaving worker 0 compares the clock with the deadline before the run is over, and the run is reported
   * as verified exactly if its first comparison came in time and its last result is accepted.
   */
  lemma VerifiedIffFirstCheckInTime(cfg: Config, prevProcs: int, now: int, steps: seq<Step>, s: State,
                                    accepts: Outcome -> bool)
    requires cfg.threads > 0 && Exec(cfg, Start(cfg, prevProcs, now), steps) == Some(s) && Over(s.pc)
    ensures var first := FirstCheck(cfg, Start(cfg, prevProcs, now), steps, 0);
            && |s.firsts| > 0 && first.Some? && (s.firsts[0].Some? <==> first.value)
            && (Accepted(accepts, s.firsts[0]) <==> first.value && accepts(s.firsts[0].value))
  {
    hide Inv, FirstCheck, Exec;
    assert Reachable(cfg, prevProcs, now, s);
    ReachableIsOk(cfg, prevProcs, now, s);
    StartIsOk(cfg, prevProcs, now);
    FirstCheckDecides(cfg, Start(cfg, prevProcs, now), steps, 0);
    FirstResult(s, 0);
  }

  lemma OneMore(cfg: Config, s0: State, steps: seq<Step>, s: State, step: Step) returns (more: seq<Step>, t: State)
    requires Shaped(s0) && Exec(cfg, s0, steps) == Some(s) && Enabled(s, step)
    ensures Exec(cfg, s0, more) == Some(t) && t == Apply(cfg, s, step)
  {
    more, t := steps + [step], Apply(cfg, s, step);
    assert more[..|more| - 1] == steps;
  }

  /** Both workers of a two-thread run warmed up at time 1. */
  lemma WarmedUp(cfg: Config) returns (steps: seq<Step>, s: State)
    requires cfg == Config(1, 1, 2)
    ensures Exec(cfg, Start(cfg, 8, 0), steps) == Some(s)
    ensures s == State(Prepare, 1, 2, 8, 1, 0, 0, 0,
                       [Worker(WarmDone, 1, [], None), Worker(WarmDone, 1, [], None)], [[], []], [None, None], [])
  {
    var s0 := Start(cfg, 8, 0);
    assert s0.workers == [Worker(Resting, 0, [], None), Worker(Resting, 0, [], None)];
    assert s0.perG == [[], []] && s0.firsts == [None, None];
    steps, s := OneMore(cfg, s0, [], s0, BeginWarmup);
    steps, s := OneMore(cfg, s0, steps, s, SpawnWarm);
    steps, s := OneMore(cfg, s0, steps, s, SpawnWarm);
    assert s.workers == [Worker(WarmCheck, 0, [], None), Worker(WarmCheck, 0, [], None)];
    steps, s := OneMore(cfg, s0, steps, s, Tick(1));
    steps, s := OneMore(cfg, s0, steps, s, CheckWarm(0));
    steps, s := OneMore(cfg, s0, steps, s, CheckWarm(1));
    assert s.workers == [Worker(WarmDone, 1, [], None), Worker(WarmDone, 1, [], None)];
    steps, s := OneMore(cfg, s0, steps, s, JoinWarm);
  }

  /** From there both workers start measuring. */
  lemma BothMeasuring(cfg: Config) returns (steps: seq<Step>, s: State)
    requires cfg == Config(1, 1, 2)
    ensures Exec(cfg, Start(cfg, 8, 0), steps) == Some(s)
    ensures s == State(Join, 1, 2, 8, 1, 1, 2, 0,
                       [Worker(Check, 1, [], None), Worker(Check, 1, [], None)], [[], []], [None, None], [])
  {
    var s0 := Start(cfg, 8, 0);
    steps, s := WarmedUp(cfg);
    steps, s := OneMore(cfg, s0, steps, s, BeginMeasure);
    steps, s := OneMore(cfg, s0, steps, s, SpawnMeasure);
    assert s.workers == [Worker(Check, 1, [], None), Worker(WarmDone, 1, [], None)];
    steps, s := OneMore(cfg, s0, steps, s, SpawnMeasure);
    assert s.workers == [Worker(Check, 1, [], None), Worker(Check, 1, [], None)];
  }

  /** Worker 1 takes a sample before worker 0 looks at the clock. */
  lemma SecondWorkerSampled(cfg: Config) returns (steps: seq<Step>, s: State)
    requires cfg == Config(1, 1, 2)
    ensures Exec(cfg, Start(cfg, 8, 0), steps) == Some(s)
    ensures s == State(Join, 2, 2, 8, 1, 1, 2, 0,
                       [Worker(Check, 1, [], None), Worker(Check, 1, [Interval(1, 2)], Some(7))],
                       [[], []], [None, None], [(1, Interval(1, 2))])
  {
    var s0 := Start(cfg, 8, 0);
    steps, s := BothMeasuring(cfg);
    steps, s := OneMore(cfg, s0, steps, s, CheckDeadline(1));
    assert s.workers == [Worker(Check, 1, [], None), Worker(Begin, 1, [], None)];
    steps, s := OneMore(cfg, s0, steps, s, ReadStart(1));
    assert s.workers == [Worker(Check, 1, [], None), Worker(Bench(1), 1, [], None)];
    steps, s := OneMore(cfg, s0, steps, s, Tick(1));
    steps, s := OneMore(cfg, s0, steps, s, EndRun(1, 7));
    assert s.workers[1].local == [Interval(1, 2)];
    assert s.workers == [Worker(Check, 1, [], None), Worker(Check, 1, [Interval(1, 2)], Some(7))];
  }

  /** Samples can be taken and the run still be reported as unverified: worker 0 comes too late. */
  lemma UnverifiedRun() returns (cfg: Config, s: State)
    ensures cfg.threads == 2 && Reachable(cfg, 8, 0, s) && s.pc == Returned
    ensures |Merged(s.perG)| == 1 && s.firsts[0] == None
  {
    cfg := Config(1, 1, 2);
    var s0 := Start(cfg, 8, 0);
    var steps;
    steps, s := SecondWorkerSampled(cfg);
    steps, s := OneMore(cfg, s0, steps, s, CheckDeadline(0));
    steps, s := OneMore(cfg, s0, steps, s, CheckDeadline(1));
    assert s.workers == [Worker(Finished, 1, [], None), Worker(Finished, 1, [Interval(1, 2)], Some(7))];
    assert s.perG == [[], [Interval(1, 2)]] && s.firsts == [None, Some(7)];
    steps, s := OneMore(cfg, s0, steps, s, JoinMeasure);
    steps, s := OneMore(cfg, s0, steps, s, Return);
    var firstOnly := AllButLast(s.perG);
    assert firstOnly == [[]] && AllButLast(firstOnly) == [];
    assert Merged(firstOnly) == [];
  }

  method MergeSamples<T>(perG: seq<seq<T>>) returns (samples: seq<T>)
    ensures samples == Merged(perG)
  {
    samples := [];
    for i := 0 to |perG|
      invariant samples == Merged(perG[..i])
    {
      assert AllButLast(perG[..i + 1]) == perG[..i];
      samples := samples + perG[i];
    }
    assert perG[..|perG|] == perG;
  }

  function ToSamples(ivs: seq<Interval>): (samples: seq<Sample>)
    ensures Durations(samples) == Lengths(ivs)
  {
    var samples := seq(|ivs|, k requires 0 <= k < |ivs| => Sample(ivs[k].stop - ivs[k].start));
    assert Durations(samples) == Lengths(ivs);
    samples
  }

  lemma RateTimesLatency(n: real, v: real, threads: real, total: real)
    requires total > 0.0 && n * v <= 2.0 * (threads * total)
    ensures n / (total / 1_000_000_000.0) * v <= 2_000_000_000.0 * threads
  {
  }

  lemma BudgetAsReal(n: nat, v: nat, threads: nat, total: nat)
    requires (n + 1) * v <= 2 * (threads * total)
    ensures n as real * v as real <= 2.0 * (threads as real * total as real)
  {
  }

  function OpsPerSec(iterations: nat, total: int): real {
    if total > 0 then iterations as real / (total as real / 1_000_000_000.0) else 0.0
  }

  /** The reported rate times the reported median latency, in seconds, is at most twice the number of threads. */
  lemma ThroughputTimesLatency(cfg: Config, prevProcs: int, now: int, s: State)
    requires cfg.threads > 0 && Reachable(cfg, prevProcs, now, s) && Over(s.pc) && s.totalDuration > 0
    ensures var ns := Lengths(Merged(s.perG));
            OpsPerSec(|ns|, s.totalDuration) * Percentile(ns, 50) as real <= 2_000_000_000.0 * cfg.threads as real
  {
    hide Percentile, Reachable, Merged;
    var ns := Lengths(Merged(s.perG));
    var v := Percentile(ns, 50);
    LatencyBudget(cfg, prevProcs, now, s);
    TimeBudget(cfg, prevProcs, now, s);
    PercentileWithinShare(ns, 50);
    BudgetAsReal(|ns|, v, cfg.threads, s.totalDuration);
    RateTimesLatency(|ns| as real, v as real, cfg.threads as real, s.totalDuration as real);
  }

  /** r is the report on durations ns measured in total nanoseconds, the verdict aside. */
  ghost predicate Describes(r: RawResult, ns: seq<int>, total: int) {
    && r.iterations == |ns| && r.totalDuration == total
    && AtRank(ns, r.medianNs, 50) && AtRank(ns, r.p95Ns, 95) && AtRank(ns, r.p99Ns, 99)
    && (if total > 0 then r.opsPerSec * total as real == |ns| as real * 1_000_000_000.0 else r.opsPerSec == 0.0)
  }

  lemma RateTimesTime(n: real, total: real)
    requires total > 0.0
    ensures n / (total / 1_000_000_000.0) * total == n * 1_000_000_000.0
  {
    var seconds := total / 1_000_000_000.0;
    assert total == seconds * 1_000_000_000.0;
    assert n / seconds * seconds == n;
  }

  /** Iterations, rate and percentiles of one run. */
  method Finalize(ivs: seq<Interval>, last: Option<Outcome>, total: int, accepts: Outcome -> bool)
    returns (r: RawResult)
    ensures r.iterations == |ivs| && r.totalDuration == total
    ensures r.medianNs == Percentile(Lengths(ivs), 50)
    ensures r.p95Ns == Percentile(Lengths(ivs), 95)
    ensures r.p99Ns == Percentile(Lengths(ivs), 99)
    ensures r.opsPerSec == OpsPerSec(|ivs|, total)
    ensures Describes(r, Lengths(ivs), total)
    ensures r.verified <==> Accepted(accepts, last)
  {
    hide Percentile, AtRank;
    var median, p95, p99 := Compute(ToSamples(ivs));
    var opsPerSec := 0.0;
    if total > 0 {
      RateTimesTime(|ivs| as real, total as real);
      opsPerSec := |ivs| as real / (total as real / 1_000_000_000.0);
    }
    r := RawResult(|ivs|, total, opsPerSec, median, p95, p99, Accepted(accepts, last));
  }

  lemma DescribesPermuted(r: RawResult, ns: seq<int>, ms: seq<int>, total: int)
    requires Describes(r, ns, total) && multiset(ns) == multiset(ms)
    ensures Describes(r, ms, total)
  {
    hide AtRank, Percentile;
    assert |ns| == |multiset(ns)| == |multiset(ms)| == |ms|;
    AtRankPermuted(ns, ms, r.medianNs, 50);
    AtRankPermuted(ns, ms, r.p95Ns, 95);
    AtRankPermuted(ns, ms, r.p99Ns, 99);
  }

  /**
   * What the multi-threaded Run returns from the state in which all workers have been joined: the report on exactly the
   * samples taken, with no more latency than threads times the wall time allows.
   */
  method ReportRun(ghost cfg: Config, ghost prevProcs: int, ghost now: int, s: State, accepts: Outcome -> bool)
    returns (r: RawResult)
    requires cfg.threads > 0 && Reachable(cfg, prevProcs, now, s) && Over(s.pc)
    ensures r.iterations == |s.taken| && r.totalDuration == s.totalDuration >= cfg.duration
    ensures Describes(r, Lengths(Samples(s.taken)), s.totalDuration)
    ensures (r.iterations + 1) * r.medianNs <= 2 * (cfg.threads * r.totalDuration)
    ensures (r.iterations + 19) * r.p95Ns <= 20 * (cfg.threads * r.totalDuration)
    ensures (r.iterations + 99) * r.p99Ns <= 100 * (cfg.threads * r.totalDuration)
    ensures |s.firsts| > 0 && (r.verified <==> Accepted(accepts, s.firsts[0]))
  {
    hide Reachable, Percentile, Merged, Inv, Chain, StopBefore, Describes, Samples;
    ReachableIsOk(cfg, prevProcs, now, s);
    SamplesConserved(cfg, prevProcs, now, s);
    LatencyBudget(cfg, prevProcs, now, s);
    OneLateSampleEach(cfg, prevProcs, now, s, 0);
    var samples := MergeSamples(s.perG);
    r := Finalize(samples, s.firsts[0], s.totalDuration, accepts);
    DescribesPermuted(r, Lengths(samples), Lengths(Samples(s.taken)), s.totalDuration);
  }

  ghost predicate Monotone(clock: nat -> int) {
    forall m, n :: m <= n ==> clock(m) <= clock(n)
  }

  lemma ReadingsChain(clock: nat -> int, first: nat, deadline: int, out: seq<Interval>)
    requires Monotone(clock)
    requires forall k :: 0 <= k < |out| ==> clock(first + 3 * k) < deadline
    requires forall k :: 0 <= k < |out| ==> out[k] == Interval(clock(first + 3 * k + 1), clock(first + 3 * k + 2))
    ensures Chain(out, clock(first), clock(first + 3 * |out|)) && StopBefore(AllButLast(out), deadline)
  {
    forall k | 0 <= k < |out|
      ensures clock(first) <= out[k].start <= out[k].stop <= clock(first + 3 * |out|)
      ensures k < |out| - 1 ==> out[k].stop < deadline
    {
      assert clock(first + 3 * k + 2) <= clock(first + 3 * (k + 1));
    }
    forall k, m | 0 <= k < m < |out|
      ensures out[k].stop <= out[m].start
    {
    }
  }

  /**
   * The measurement loop against a clock whose m-th reading is clock(m), starting at reading first: each iteration
   * takes three readings, and the last reading, the first at a loop head not before the deadline, ends it. Some
   * reading, expired, is at or past the deadline.
   */
  method MeasureLoop(clock: nat -> int, first: nat, deadline: int, run: nat -> Outcome, ghost expired: nat)
    returns (out: seq<Interval>, last: Option<Outcome>, next: nat)
    requires Monotone(clock) && clock(expired) >= deadline
    ensures next == first + 3 * |out| + 1 && clock(next - 1) >= deadline
    ensures forall k :: 0 <= k < |out| ==> clock(first + 3 * k) < deadline
    ensures forall k :: 0 <= k < |out| ==> out[k] == Interval(clock(first + 3 * k + 1), clock(first + 3 * k + 2))
    ensures last == if out == [] then None else Some(run(|out| - 1))
    ensures Chain(out, clock(first), clock(next - 1)) && StopBefore(AllButLast(out), deadline)
  {
    hide Chain, StopBefore;
    out, last, next := [], None, first;
    while clock(next) < deadline
      invariant next == first + 3 * |out|
      invariant forall k :: 0 <= k < |out| ==> clock(first + 3 * k) < deadline
      invariant forall k :: 0 <= k < |out| ==> out[k] == Interval(clock(first + 3 * k + 1), clock(first + 3 * k + 2))
      invariant last == if out == [] then None else Some(run(|out| - 1))
      decreases expired - next
    {
      last := Some(run(|out|));
      out := out + [Interval(clock(next + 1), clock(next + 2))];
      next := next + 3;
    }
    ReadingsChain(clock, first, deadline, out);
    next := next + 1;
  }

  lemma SingleBudget(clock: nat -> int, start: nat, end: nat, ivs: seq<Interval>)
    requires Monotone(clock) && end == start + 3 * |ivs| + 2
    requires Chain(ivs, clock(start + 1), clock(end - 1))
    ensures clock(end) >= clock(end - 1)
    ensures (|ivs| + 1) * Percentile(Lengths(ivs), 50) <= 2 * (clock(end) - clock(start))
    ensures (|ivs| + 19) * Percentile(Lengths(ivs), 95) <= 20 * (clock(end) - clock(start))
    ensures (|ivs| + 99) * Percentile(Lengths(ivs), 99) <= 100 * (clock(end) - clock(start))
  {
    hide Percentile;
    assert clock(start) <= clock(start + 1) <= clock(end - 1) <= clock(end);
    ChainLength(ivs, clock(start + 1), clock(end - 1));
    PercentilesWithin(Lengths(ivs), clock(end) - clock(start));
  }

  /** The warmup loop: next is the first reading from 1 on that is not before the deadline. */
  method WarmUp(clock: nat -> int, deadline: int, ghost warm: nat) returns (next: nat)
    requires warm >= 1 && clock(warm) >= deadline
    ensures 1 <= next <= warm && clock(next) >= deadline
    ensures forall m :: 1 <= m < next ==> clock(m) < deadline
  {
    next := 1;
    while clock(next) < deadline
      invariant 1 <= next <= warm
      invariant forall m :: 1 <= m < next ==> clock(m) < deadline
      decreases warm - next
    {
      next := next + 1;
    }
  }

  /**
   * The single-threaded path. start is the reading that begins the measurement, right after the first that finds the
   * warmup over; the report is on the intervals measured from there, with the same budget for one thread.
   */
  method RunSingle(cfg: Config, clock: nat -> int, run: nat -> Outcome, accepts: Outcome -> bool,
                   ghost warm: nat, ghost expired: nat)
    returns (r: RawResult, ghost start: nat, ghost ivs: seq<Interval>)
    requires cfg.duration > 0 && cfg.warmup > 0
    requires Monotone(clock) && warm >= 1
    requires clock(warm) >= clock(0) + cfg.warmup && clock(expired) >= clock(warm + 1) + cfg.duration
    ensures start >= 2 && clock(start - 1) >= clock(0) + cfg.warmup
    ensures forall m :: 1 <= m < start - 1 ==> clock(m) < clock(0) + cfg.warmup
    ensures forall k :: 0 <= k < |ivs| ==> clock(start + 1 + 3 * k) < clock(start) + cfg.duration
    ensures forall k :: 0 <= k < |ivs| ==> ivs[k] == Interval(clock(start + 3 * k + 2), clock(start + 3 * k + 3))
    ensures clock(start + 3 * |ivs| + 1) >= clock(start) + cfg.duration
    ensures Describes(r, Lengths(ivs), clock(start + 3 * |ivs| + 2) - clock(start))
    ensures (r.iterations + 1) * r.medianNs <= 2 * r.totalDuration
    ensures (r.iterations + 19) * r.p95Ns <= 20 * r.totalDuration
    ensures (r.iterations + 99) * r.p99Ns <= 100 * r.totalDuration
    ensures r.totalDuration >= cfg.duration
    ensures r.verified <==> r.iterations > 0 && accepts(run(r.iterations - 1))
  {
    hide Percentile, Share, Chain, StopBefore, Describes, Lengths;
    var next := WarmUp(clock, clock(0) + cfg.warmup, warm);
    var measureStart := clock(next + 1);
    var deadline := measureStart + cfg.duration;
    assert clock(next + 1) <= clock(warm + 1);
    var samples, last, after := MeasureLoop(clock, next + 2, deadline, run, expired);
    var total := clock(after) - measureStart;
    start, ivs := next + 1, samples;
    SingleBudget(clock, start, after, ivs);
    r := Finalize(samples, last, total, accepts);
  }
}
