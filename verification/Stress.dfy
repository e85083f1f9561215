// stress/stress.go: the stress run as a step system. A context ends, a watcher flips the stop flag, workers poll it and
// publish batches to shared counters, a reporter takes snapshots, and the caller joins them.
module Stress {
  import opened Options
  import opened Sequences

  const WORD := 0x1_0000_0000_0000_0000  // counters are 64-bit and wrap
  const INNER_ITERS := 16384
  const SECOND := 1_000_000_000
  const DEFAULT_MEM_BYTES := 268_435_456

  datatype Config = Config(
    duration: int,
    cpuWorkers: int,
    memWorkers: int,
    memBytesPerW: int,
    disableMem: bool,
    statusInterval: int)

  function Normalize(cfg: Config, cpus: int): Config {
    cfg.(cpuWorkers := if cfg.cpuWorkers <= 0 then cpus else cfg.cpuWorkers,
         memWorkers := if cfg.disableMem then 0
                       else if cfg.memWorkers > 0 then cfg.memWorkers
                       else if cpus / 2 < 1 then 1 else cpus / 2,
         memBytesPerW := if cfg.memBytesPerW <= 0 then DEFAULT_MEM_BYTES else cfg.memBytesPerW,
         statusInterval := if cfg.statusInterval == 0 then SECOND else cfg.statusInterval)
  }

  predicate Usable(cfg: Config) {
    && cfg.cpuWorkers >= 1
    && cfg.memWorkers >= (if cfg.disableMem then 0 else 1)
    && (cfg.disableMem ==> cfg.memWorkers == 0)
    && cfg.memBytesPerW > 0
    && cfg.statusInterval != 0
  }

  /** On a machine with a CPU every configuration becomes a usable one, and exactly the usable ones are kept as is. */
  lemma NormalizeIsClosure(cfg: Config, cpus: int)
    requires cpus >= 1
    ensures Usable(Normalize(cfg, cpus))
    ensures Normalize(cfg, cpus) == cfg <==> Usable(cfg)
    ensures var c := Normalize(cfg, cpus);
            && c.cpuWorkers == (if cfg.cpuWorkers > 0 then cfg.cpuWorkers else cpus)
            && (cfg.disableMem ==> c.memWorkers == 0)
            && (!cfg.disableMem && cfg.memWorkers > 0 ==> c.memWorkers == cfg.memWorkers)
            && (!cfg.disableMem && cfg.memWorkers <= 0 ==>
                  c.memWorkers == (if cpus == 1 then 1 else cpus / 2))
            && c.memBytesPerW == (if cfg.memBytesPerW > 0 then cfg.memBytesPerW else 256 * 1024 * 1024)
            && c.statusInterval == (if cfg.statusInterval == 0 then 1_000_000_000 else cfg.statusInterval)
            && c.duration == cfg.duration && c.disableMem == cfg.disableMem
  {
  }

  /** Bytes of the buffer of whole 64-bit words a memory worker streams over. */
  function BufBytes(cfg: Config): nat
    requires cfg.memBytesPerW > 0
  {
    cfg.memBytesPerW / 8 * 8
  }

  datatype Phase = Resting | Polling | InBatch | Exited

  // late counts the batches completed after the stop flag was set.
  datatype Worker = Worker(phase: Phase, batches: nat, late: nat)

  datatype Reporter =
    | Off
    | Selecting                // waiting for the context or the ticker
    | LoadedOps(ops: nat)      // between the two counter loads of a status line
    | Gone

  datatype Stats = Stats(cpuOps: nat, memBytes: nat)

  datatype Pc =
    | SpawnCpu(next: nat)
    | SpawnMem(next: nat)
    | StartReporter
    | Join
    | JoinStatus
    | Collect
    | Returned(stats: Stats)

  datatype State = State(
    pc: Pc,
    ctxDone: bool,
    stop: bool,
    cpu: seq<Worker>,
    mem: seq<Worker>,
    cpuOps: nat,
    memBytes: nat,
    reporter: Reporter,
    snapshots: seq<Stats>,
    procs: int,
    prevProcs: int)

  function Start(cfg: Config, prevProcs: int): State
    requires Usable(cfg)
  {
    State(SpawnCpu(0), false, false,
          seq(cfg.cpuWorkers, i => Worker(Resting, 0, 0)), seq(cfg.memWorkers, i => Worker(Resting, 0, 0)),
          0, 0, Off, [], cfg.cpuWorkers + cfg.memWorkers, prevProcs)
  }

  datatype Step =
    | CtxDone
    | SetStop
    | LaunchCpu
    | LaunchMem
    | LaunchReporter
    | PollCpu(i: nat)
    | EndCpuBatch(i: nat)
    | PollMem(i: nat)
    | EndMemPass(i: nat)
    | StatusTick
    | StatusLine
    | ReporterExit
    | JoinWorkers
    | JoinReporter
    | Return

  predicate AllExited(ws: seq<Worker>) {
    forall i :: 0 <= i < |ws| ==> ws[i].phase == Exited
  }

  predicate Enabled(s: State, step: Step) {
    match step
    case CtxDone => !s.ctxDone
    case SetStop => s.ctxDone && !s.stop
    case LaunchCpu => s.pc.SpawnCpu? && s.pc.next < |s.cpu|
    case LaunchMem => s.pc.SpawnMem? && s.pc.next < |s.mem|
    case LaunchReporter => s.pc == StartReporter
    case PollCpu(i) => i < |s.cpu| && s.cpu[i].phase == Polling
    case EndCpuBatch(i) => i < |s.cpu| && s.cpu[i].phase == InBatch
    case PollMem(i) => i < |s.mem| && s.mem[i].phase == Polling
    case EndMemPass(i) => i < |s.mem| && s.mem[i].phase == InBatch
    case StatusTick => s.reporter == Selecting
    case StatusLine => s.reporter.LoadedOps?
    case ReporterExit => s.reporter == Selecting && s.ctxDone
    case JoinWorkers => s.pc == Join && AllExited(s.cpu) && AllExited(s.mem)
    case JoinReporter => s.pc == JoinStatus && (s.reporter == Off || s.reporter == Gone)
    case Return => s.pc == Collect
  }

  function Poll(w: Worker, stop: bool): Worker {
    w.(phase := if stop then Exited else InBatch)
  }

  function EndBatch(w: Worker, stop: bool): Worker {
    Worker(Polling, w.batches + 1, if stop then w.late + 1 else w.late)
  }

  function Apply(cfg: Config, status: bool, s: State, step: Step): State
    requires Usable(cfg) && Enabled(s, step)
  {
    match step
    case CtxDone => s.(ctxDone := true)
    case SetStop => s.(stop := true)
    case LaunchCpu =>
      var k := s.pc.next;
      s.(cpu := s.cpu[k := s.cpu[k].(phase := Polling)],
         pc := if k + 1 < |s.cpu| then SpawnCpu(k + 1) else if |s.mem| > 0 then SpawnMem(0) else StartReporter)
    case LaunchMem =>
      var k := s.pc.next;
      s.(mem := s.mem[k := s.mem[k].(phase := Polling)],
         pc := if k + 1 < |s.mem| then SpawnMem(k + 1) else StartReporter)
    case LaunchReporter =>
      s.(pc := Join, reporter := if status && cfg.statusInterval > 0 then Selecting else Off)
    case PollCpu(i) => s.(cpu := s.cpu[i := Poll(s.cpu[i], s.stop)])
    case EndCpuBatch(i) =>
      s.(cpu := s.cpu[i := EndBatch(s.cpu[i], s.stop)], cpuOps := (s.cpuOps + INNER_ITERS) % WORD)
    case PollMem(i) => s.(mem := s.mem[i := Poll(s.mem[i], s.stop)])
    case EndMemPass(i) =>
      s.(mem := s.mem[i := EndBatch(s.mem[i], s.stop)], memBytes := (s.memBytes + 2 * BufBytes(cfg)) % WORD)
    case StatusTick => s.(reporter := LoadedOps(s.cpuOps))
    case StatusLine => s.(reporter := Selecting, snapshots := s.snapshots + [Stats(s.reporter.ops, s.memBytes)])
    case ReporterExit => s.(reporter := Gone)
    case JoinWorkers => s.(pc := JoinStatus)
    case JoinReporter => s.(pc := Collect)
    case Return => s.(pc := Returned(Stats(s.cpuOps, s.memBytes)), procs := s.prevProcs)
  }

  function Exec(cfg: Config, status: bool, s: State, steps: seq<Step>): Option<State>
    requires Usable(cfg)
  {
    if steps == [] then Some(s)
    else
      var t := Exec(cfg, status, s, steps[..|steps| - 1]);
      var step := steps[|steps| - 1];
      if t.Some? && Enabled(t.value, step) then Some(Apply(cfg, status, t.value, step)) else None
  }

  /** Some interleaving leads from the call of Run to s; status says whether there is a status writer. */
  ghost predicate Reachable(cfg: Config, status: bool, prevProcs: int, s: State)
    requires Usable(cfg)
  {
    exists steps :: Exec(cfg, status, Start(cfg, prevProcs), steps) == Some(s)
  }

  // The invariant.

  function Batches(ws: seq<Worker>): nat {
    if ws == [] then 0 else Batches(ws[..|ws| - 1]) + ws[|ws| - 1].batches
  }

  predicate WorkerOk(w: Worker, stop: bool) {
    && (w.phase == Exited ==> stop)
    && w.late <= (if stop && w.phase != InBatch then 1 else 0)
    && (w.phase == Resting ==> w.batches == 0)
  }

  ghost predicate WorkersOk(ws: seq<Worker>, stop: bool) {
    forall i :: 0 <= i < |ws| ==> WorkerOk(ws[i], stop)
  }

  /** The workers before next have been launched, the others not. */
  ghost predicate Launched(ws: seq<Worker>, next: int) {
    forall i :: 0 <= i < |ws| ==> (ws[i].phase == Resting <==> next <= i)
  }

  predicate Joined(pc: Pc) {
    pc.JoinStatus? || pc.Collect? || pc.Returned?
  }

  ghost predicate PcOk(s: State) {
    && Launched(s.cpu, if s.pc.SpawnCpu? then s.pc.next else |s.cpu|)
    && Launched(s.mem, if s.pc.SpawnCpu? then 0 else if s.pc.SpawnMem? then s.pc.next else |s.mem|)
    && (s.pc.SpawnCpu? ==> s.pc.next < |s.cpu|)
    && (s.pc.SpawnMem? ==> s.pc.next < |s.mem|)
    && (s.pc.SpawnCpu? || s.pc.SpawnMem? || s.pc.StartReporter? ==> s.reporter == Off)
    && (Joined(s.pc) ==> AllExited(s.cpu) && AllExited(s.mem))
    && (s.pc.Collect? || s.pc.Returned? ==> s.reporter == Off || s.reporter == Gone)
    && (s.pc.Returned? ==> s.pc.stats == Stats(s.cpuOps, s.memBytes))
    && s.procs == (if s.pc.Returned? then s.prevProcs else |s.cpu| + |s.mem|)
  }

  predicate CpuCounterOk(cpu: seq<Worker>, cpuOps: nat) {
    cpuOps == INNER_ITERS * Batches(cpu) % WORD
  }

  predicate MemCounterOk(cfg: Config, mem: seq<Worker>, memBytes: nat)
    requires Usable(cfg)
  {
    memBytes == 2 * BufBytes(cfg) * Batches(mem) % WORD
  }

  /** As long as the counter of operations has not wrapped, the status lines show it growing. */
  ghost predicate SnapshotsOk(cpu: seq<Worker>, cpuOps: nat, reporter: Reporter, snapshots: seq<Stats>) {
    INNER_ITERS * Batches(cpu) < WORD ==>
      && (forall k, m :: 0 <= k < m < |snapshots| ==> snapshots[k].cpuOps <= snapshots[m].cpuOps)
      && (forall k :: 0 <= k < |snapshots| ==>
            snapshots[k].cpuOps <= if reporter.LoadedOps? then reporter.ops else cpuOps)
      && (reporter.LoadedOps? ==> reporter.ops <= cpuOps)
  }

  /** The same for the counter of bytes. */
  ghost predicate MemSnapshotsOk(cfg: Config, mem: seq<Worker>, memBytes: nat, snapshots: seq<Stats>)
    requires Usable(cfg)
  {
    2 * BufBytes(cfg) * Batches(mem) < WORD ==>
      && (forall k, m :: 0 <= k < m < |snapshots| ==> snapshots[k].memBytes <= snapshots[m].memBytes)
      && (forall k :: 0 <= k < |snapshots| ==> snapshots[k].memBytes <= memBytes)
  }

  ghost predicate Inv(cfg: Config, s: State)
    requires Usable(cfg)
  {
    && |s.cpu| == cfg.cpuWorkers && |s.mem| == cfg.memWorkers
    && (s.stop ==> s.ctxDone)
    && WorkersOk(s.cpu, s.stop) && WorkersOk(s.mem, s.stop)
    && PcOk(s) && CpuCounterOk(s.cpu, s.cpuOps) && MemCounterOk(cfg, s.mem, s.memBytes)
    && SnapshotsOk(s.cpu, s.cpuOps, s.reporter, s.snapshots)
    && MemSnapshotsOk(cfg, s.mem, s.memBytes, s.snapshots)
  }

  lemma {:induction false} BatchesUpdated(ws: seq<Worker>, i: nat, w: Worker)
    requires i < |ws|
    ensures Batches(ws[i := w]) == Batches(ws) - ws[i].batches + w.batches
  {
    if i < |ws| - 1 {
      BatchesUpdated(ws[..|ws| - 1], i, w);
      assert ws[i := w][..|ws| - 1] == ws[..|ws| - 1][i := w];
    } else {
      assert ws[i := w][..|ws| - 1] == ws[..|ws| - 1];
    }
  }

  lemma {:induction false} NoBatches(ws: seq<Worker>)
    requires forall i :: 0 <= i < |ws| ==> ws[i].batches == 0
    ensures Batches(ws) == 0
  {
    if ws != [] { NoBatches(ws[..|ws| - 1]); }
  }

  lemma WrapAdd(c: nat, d: nat)
    ensures (c % WORD + d) % WORD == (c + d) % WORD
  {
  }

  lemma OneMoreUnit(unit: nat, n: nat)
    ensures unit * (n + 1) == unit * n + unit
  {
  }

  lemma StartIsOk(cfg: Config, prevProcs: int)
    requires Usable(cfg)
    ensures Inv(cfg, Start(cfg, prevProcs))
  {
    var s := Start(cfg, prevProcs);
    NoBatches(s.cpu);
    NoBatches(s.mem);
  }

  lemma MainKeepsInv(cfg: Config, status: bool, s: State, step: Step)
    requires Usable(cfg) && Inv(cfg, s) && Enabled(s, step)
    requires !step.LaunchCpu? && !step.LaunchMem? && !step.PollCpu? && !step.EndCpuBatch?
    requires !step.PollMem? && !step.EndMemPass? && !step.StatusTick? && !step.StatusLine?
    ensures Inv(cfg, Apply(cfg, status, s, step))
  {
    hide CpuCounterOk, MemCounterOk, MemSnapshotsOk, Batches;
  }

  lemma StatusKeepsInv(cfg: Config, status: bool, s: State, step: Step)
    requires Usable(cfg) && Inv(cfg, s) && Enabled(s, step)
    requires step.StatusTick? || step.StatusLine?
    ensures Inv(cfg, Apply(cfg, status, s, step))
  {
    hide CpuCounterOk, MemCounterOk, WorkersOk, Batches, BufBytes;
  }

  lemma LaunchCpuKeepsInv(cfg: Config, status: bool, s: State)
    requires Usable(cfg) && Inv(cfg, s) && Enabled(s, LaunchCpu)
    ensures Inv(cfg, Apply(cfg, status, s, LaunchCpu))
  {
    hide MemCounterOk, MemSnapshotsOk;
    BatchesUpdated(s.cpu, s.pc.next, s.cpu[s.pc.next].(phase := Polling));
  }

  lemma LaunchMemKeepsInv(cfg: Config, status: bool, s: State)
    requires Usable(cfg) && Inv(cfg, s) && Enabled(s, LaunchMem)
    ensures Inv(cfg, Apply(cfg, status, s, LaunchMem))
  {
    hide SnapshotsOk, CpuCounterOk;
    BatchesUpdated(s.mem, s.pc.next, s.mem[s.pc.next].(phase := Polling));
  }

  lemma PollCpuKeepsInv(cfg: Config, status: bool, s: State, i: nat)
    requires Usable(cfg) && Inv(cfg, s) && Enabled(s, PollCpu(i))
    ensures Inv(cfg, Apply(cfg, status, s, PollCpu(i)))
  {
    hide MemCounterOk, MemSnapshotsOk, Batches;
    BatchesUpdated(s.cpu, i, Poll(s.cpu[i], s.stop));
  }

  lemma PollMemKeepsInv(cfg: Config, status: bool, s: State, i: nat)
    requires Usable(cfg) && Inv(cfg, s) && Enabled(s, PollMem(i))
    ensures Inv(cfg, Apply(cfg, status, s, PollMem(i)))
  {
    hide SnapshotsOk, CpuCounterOk, Batches;
    BatchesUpdated(s.mem, i, Poll(s.mem[i], s.stop));
  }

  lemma CpuCounterGrows(s: State, i: nat)
    requires Enabled(s, EndCpuBatch(i)) && CpuCounterOk(s.cpu, s.cpuOps)
    requires SnapshotsOk(s.cpu, s.cpuOps, s.reporter, s.snapshots)
    ensures var cpu, cpuOps := s.cpu[i := EndBatch(s.cpu[i], s.stop)], (s.cpuOps + INNER_ITERS) % WORD;
            CpuCounterOk(cpu, cpuOps) && SnapshotsOk(cpu, cpuOps, s.reporter, s.snapshots)
  {
    hide Batches;
    BatchesUpdated(s.cpu, i, EndBatch(s.cpu[i], s.stop));
    WrapAdd(INNER_ITERS * Batches(s.cpu), INNER_ITERS);
  }

  lemma CpuBatchKeepsInv(cfg: Config, status: bool, s: State, i: nat)
    requires Usable(cfg) && Inv(cfg, s) && Enabled(s, EndCpuBatch(i))
    ensures Inv(cfg, Apply(cfg, status, s, EndCpuBatch(i)))
  {
    hide MemCounterOk, MemSnapshotsOk, CpuCounterOk, SnapshotsOk;
    CpuCounterGrows(s, i);
  }

  lemma MemCounterGrows(cfg: Config, s: State, i: nat)
    requires Usable(cfg) && Enabled(s, EndMemPass(i)) && MemCounterOk(cfg, s.mem, s.memBytes)
    ensures MemCounterOk(cfg, s.mem[i := EndBatch(s.mem[i], s.stop)], (s.memBytes + 2 * BufBytes(cfg)) % WORD)
  {
    hide BufBytes, Batches;
    var unit := 2 * BufBytes(cfg);
    BatchesUpdated(s.mem, i, EndBatch(s.mem[i], s.stop));
    WrapAdd(unit * Batches(s.mem), unit);
    OneMoreUnit(unit, Batches(s.mem));
  }

  lemma CounterRises(unit: nat, n: nat, value: nat)
    requires value == unit * n % WORD
    ensures unit * (n + 1) < WORD ==> unit * n < WORD && value <= (value + unit) % WORD
  {
    OneMoreUnit(unit, n);
  }

  lemma MemSnapshotsKept(cfg: Config, s: State, i: nat)
    requires Usable(cfg) && Enabled(s, EndMemPass(i)) && MemCounterOk(cfg, s.mem, s.memBytes)
    requires MemSnapshotsOk(cfg, s.mem, s.memBytes, s.snapshots)
    ensures MemSnapshotsOk(cfg, s.mem[i := EndBatch(s.mem[i], s.stop)], (s.memBytes + 2 * BufBytes(cfg)) % WORD,
                           s.snapshots)
  {
    hide BufBytes, Batches;
    BatchesUpdated(s.mem, i, EndBatch(s.mem[i], s.stop));
    CounterRises(2 * BufBytes(cfg), Batches(s.mem), s.memBytes);
  }

  lemma MemPassKeepsInv(cfg: Config, status: bool, s: State, i: nat)
    requires Usable(cfg) && Inv(cfg, s) && Enabled(s, EndMemPass(i))
    ensures Inv(cfg, Apply(cfg, status, s, EndMemPass(i)))
  {
    hide SnapshotsOk, MemSnapshotsOk, CpuCounterOk, MemCounterOk, BufBytes;
    MemCounterGrows(cfg, s, i);
    MemSnapshotsKept(cfg, s, i);
  }

  lemma StepKeepsInv(cfg: Config, status: bool, s: State, step: Step)
    requires Usable(cfg) && Inv(cfg, s) && Enabled(s, step)
    ensures Inv(cfg, Apply(cfg, status, s, step))
  {
    hide Inv, Apply;
    match step
    case LaunchCpu => LaunchCpuKeepsInv(cfg, status, s);
    case LaunchMem => LaunchMemKeepsInv(cfg, status, s);
    case PollCpu(i) => PollCpuKeepsInv(cfg, status, s, i);
    case PollMem(i) => PollMemKeepsInv(cfg, status, s, i);
    case EndCpuBatch(i) => CpuBatchKeepsInv(cfg, status, s, i);
    case EndMemPass(i) => MemPassKeepsInv(cfg, status, s, i);
    case StatusTick | StatusLine => StatusKeepsInv(cfg, status, s, step);
    case _ => MainKeepsInv(cfg, status, s, step);
  }

  /** The invariant holds in every state of every interleaving. */
  lemma {:induction false} ExecKeepsInv(cfg: Config, status: bool, s: State, steps: seq<Step>)
    requires Usable(cfg) && Inv(cfg, s)
    ensures var r := Exec(cfg, status, s, steps); r.Some? ==> Inv(cfg, r.value)
    decreases |steps|
  {
    hide Inv, Apply;
    if steps != [] {
      ExecKeepsInv(cfg, status, s, steps[..|steps| - 1]);
      var t := Exec(cfg, status, s, steps[..|steps| - 1]);
      var step := steps[|steps| - 1];
      if t.Some? && Enabled(t.value, step) { StepKeepsInv(cfg, status, t.value, step); }
    }
  }

  lemma ReachableIsOk(cfg: Config, status: bool, prevProcs: int, s: State)
    requires Usable(cfg) && Reachable(cfg, status, prevProcs, s)
    ensures Inv(cfg, s)
  {
    hide Inv;
    var steps :| Exec(cfg, status, Start(cfg, prevProcs), steps) == Some(s);
    StartIsOk(cfg, prevProcs);
    ExecKeepsInv(cfg, status, Start(cfg, prevProcs), steps);
  }

  // What every interleaving guarantees.

  lemma {:induction false} PrevProcsKept(cfg: Config, status: bool, s: State, steps: seq<Step>)
    requires Usable(cfg)
    ensures var r := Exec(cfg, status, s, steps); r.Some? ==> r.value.prevProcs == s.prevProcs
    decreases |steps|
  {
    if steps != [] { PrevProcsKept(cfg, status, s, steps[..|steps| - 1]); }
  }

  // What a run counts, read off its list of steps alone.

  function CpuBatchesIn(steps: seq<Step>): nat {
    if steps == [] then 0 else CpuBatchesIn(AllButLast(steps)) + if steps[|steps| - 1].EndCpuBatch? then 1 else 0
  }

  function MemPassesIn(steps: seq<Step>): nat {
    if steps == [] then 0 else MemPassesIn(AllButLast(steps)) + if steps[|steps| - 1].EndMemPass? then 1 else 0
  }

  /** Operations published: 2^14 for each batch that has ended, modulo 2^64. */
  function OpsAfter(steps: seq<Step>): nat {
    16384 * CpuBatchesIn(steps) % 0x1_0000_0000_0000_0000
  }

  /** Bytes published: the whole words of a buffer, twice for each pass that has ended, modulo 2^64. */
  function BytesAfter(cfg: Config, steps: seq<Step>): nat
    requires cfg.memBytesPerW > 0
  {
    2 * (cfg.memBytesPerW / 8 * 8) * MemPassesIn(steps) % 0x1_0000_0000_0000_0000
  }

  predicate StopIn(steps: seq<Step>) {
    SetStop in steps
  }

  /** How often a step was made after the stop flag was set. */
  function LateIn(steps: seq<Step>, step: Step): nat {
    if steps == [] then 0
    else
      var rest := AllButLast(steps);
      LateIn(rest, step) + if steps[|steps| - 1] == step && StopIn(rest) then 1 else 0
  }

  /** The operations the reporter loaded last. */
  function LoadedIn(steps: seq<Step>): nat {
    if steps == [] then 0
    else if steps[|steps| - 1].StatusTick? then OpsAfter(AllButLast(steps))
    else LoadedIn(AllButLast(steps))
  }

  function SnapshotsIn(cfg: Config, steps: seq<Step>): seq<Stats>
    requires cfg.memBytesPerW > 0
  {
    if steps == [] then []
    else
      var rest := AllButLast(steps);
      if steps[|steps| - 1].StatusLine? then SnapshotsIn(cfg, rest) + [Stats(LoadedIn(rest), BytesAfter(cfg, rest))]
      else SnapshotsIn(cfg, rest)
  }

  /** A worker's late count and exit, by its own steps: end ends a batch, poll polls the flag. */
  ghost predicate WorkerTraced(steps: seq<Step>, w: Worker, end: Step, poll: Step) {
    w.late == LateIn(steps, end) && (w.phase == Exited <==> LateIn(steps, poll) > 0)
  }

  ghost predicate CountersTraced(cfg: Config, steps: seq<Step>, s: State)
    requires Usable(cfg)
  {
    s.cpuOps == OpsAfter(steps) && s.memBytes == BytesAfter(cfg, steps)
  }

  ghost predicate StatusTraced(cfg: Config, status: bool, steps: seq<Step>, s: State)
    requires Usable(cfg)
  {
    && (s.stop <==> StopIn(steps))
    && (s.reporter.LoadedOps? ==> s.reporter.ops == LoadedIn(steps))
    && s.snapshots == SnapshotsIn(cfg, steps)
    && (s.reporter == Gone ==> s.ctxDone)
    && (if s.pc.SpawnCpu? || s.pc.SpawnMem? || s.pc.StartReporter? then s.reporter == Off
        else s.reporter == Off <==> !(status && cfg.statusInterval > 0))
  }

  ghost predicate WorkersTraced(steps: seq<Step>, s: State) {
    && (forall i: nat :: i < |s.cpu| ==> WorkerTraced(steps, s.cpu[i], EndCpuBatch(i), PollCpu(i)))
    && (forall i: nat :: i < |s.mem| ==> WorkerTraced(steps, s.mem[i], EndMemPass(i), PollMem(i)))
  }

  ghost predicate Traced(cfg: Config, status: bool, steps: seq<Step>, s: State)
    requires Usable(cfg)
  {
    CountersTraced(cfg, steps, s) && StatusTraced(cfg, status, steps, s) && WorkersTraced(steps, s)
  }

  lemma CountersKeepTrace(cfg: Config, status: bool, steps: seq<Step>, s: State)
    requires Usable(cfg) && steps != [] && Enabled(s, steps[|steps| - 1])
    requires CountersTraced(cfg, AllButLast(steps), s)
    ensures CountersTraced(cfg, steps, Apply(cfg, status, s, steps[|steps| - 1]))
  {
    var rest, unit := AllButLast(steps), 2 * (cfg.memBytesPerW / 8 * 8);
    WrapAdd(16384 * CpuBatchesIn(rest), 16384);
    WrapAdd(unit * MemPassesIn(rest), unit);
    OneMoreUnit(unit, MemPassesIn(rest));
  }

  lemma StatusKeepsTrace(cfg: Config, status: bool, steps: seq<Step>, s: State)
    requires Usable(cfg) && steps != [] && Enabled(s, steps[|steps| - 1])
    requires CountersTraced(cfg, AllButLast(steps), s) && StatusTraced(cfg, status, AllButLast(steps), s)
    ensures StatusTraced(cfg, status, steps, Apply(cfg, status, s, steps[|steps| - 1]))
  {
    hide OpsAfter, BytesAfter;
    assert steps == AllButLast(steps) + [steps[|steps| - 1]];
  }

  lemma CpuWorkerKeepsTrace(cfg: Config, status: bool, steps: seq<Step>, s: State, i: nat)
    requires Usable(cfg) && steps != [] && Enabled(s, steps[|steps| - 1]) && i < |s.cpu|
    requires s.stop <==> StopIn(AllButLast(steps))
    requires s.pc.SpawnCpu? && s.pc.next < |s.cpu| ==> s.cpu[s.pc.next].phase == Resting
    requires WorkerTraced(AllButLast(steps), s.cpu[i], EndCpuBatch(i), PollCpu(i))
    ensures WorkerTraced(steps, Apply(cfg, status, s, steps[|steps| - 1]).cpu[i], EndCpuBatch(i), PollCpu(i))
  {
    hide StopIn, BufBytes;
  }

  lemma MemWorkerKeepsTrace(cfg: Config, status: bool, steps: seq<Step>, s: State, i: nat)
    requires Usable(cfg) && steps != [] && Enabled(s, steps[|steps| - 1]) && i < |s.mem|
    requires s.stop <==> StopIn(AllButLast(steps))
    requires s.pc.SpawnMem? && s.pc.next < |s.mem| ==> s.mem[s.pc.next].phase == Resting
    requires WorkerTraced(AllButLast(steps), s.mem[i], EndMemPass(i), PollMem(i))
    ensures WorkerTraced(steps, Apply(cfg, status, s, steps[|steps| - 1]).mem[i], EndMemPass(i), PollMem(i))
  {
    hide StopIn, BufBytes;
  }

  lemma WorkersKeepTrace(cfg: Config, status: bool, steps: seq<Step>, s: State)
    requires Usable(cfg) && Inv(cfg, s) && steps != [] && Enabled(s, steps[|steps| - 1])
    requires StatusTraced(cfg, status, AllButLast(steps), s) && WorkersTraced(AllButLast(steps), s)
    ensures WorkersTraced(steps, Apply(cfg, status, s, steps[|steps| - 1]))
  {
    hide StopIn, SnapshotsIn, LoadedIn, CpuCounterOk, MemCounterOk, SnapshotsOk, MemSnapshotsOk;
    hide WorkersOk, WorkerTraced;
    var t := Apply(cfg, status, s, steps[|steps| - 1]);
    forall i: nat | i < |t.cpu|
      ensures WorkerTraced(steps, t.cpu[i], EndCpuBatch(i), PollCpu(i))
    {
      CpuWorkerKeepsTrace(cfg, status, steps, s, i);
    }
    forall i: nat | i < |t.mem|
      ensures WorkerTraced(steps, t.mem[i], EndMemPass(i), PollMem(i))
    {
      MemWorkerKeepsTrace(cfg, status, steps, s, i);
    }
  }

  lemma {:induction false} ExecIsTraced(cfg: Config, status: bool, prevProcs: int, steps: seq<Step>)
    requires Usable(cfg)
    ensures var r := Exec(cfg, status, Start(cfg, prevProcs), steps); r.Some? ==> Traced(cfg, status, steps, r.value)
    decreases |steps|
  {
    if steps != [] {
      hide Inv, CountersTraced, StatusTraced, WorkersTraced, Apply, Enabled;
      var rest := AllButLast(steps);
      ExecIsTraced(cfg, status, prevProcs, rest);
      StartIsOk(cfg, prevProcs);
      ExecKeepsInv(cfg, status, Start(cfg, prevProcs), rest);
      var t := Exec(cfg, status, Start(cfg, prevProcs), rest);
      if t.Some? && Enabled(t.value, steps[|steps| - 1]) {
        CountersKeepTrace(cfg, status, steps, t.value);
        StatusKeepsTrace(cfg, status, steps, t.value);
        WorkersKeepTrace(cfg, status, steps, t.value);
      }
    }
  }

  /**
   * The statistics returned count exactly the batches and passes that ended, in 64-bit arithmetic: by the steps of the
   * run, and by the workers' own counts.
   */
  lemma ExactAccounting(cfg: Config, status: bool, prevProcs: int, steps: seq<Step>, s: State)
    requires Usable(cfg) && Exec(cfg, status, Start(cfg, prevProcs), steps) == Some(s) && s.pc.Returned?
    ensures s.pc.stats.cpuOps == 16384 * CpuBatchesIn(steps) % 0x1_0000_0000_0000_0000
    ensures s.pc.stats.memBytes
         == 2 * (cfg.memBytesPerW / 8 * 8) * MemPassesIn(steps) % 0x1_0000_0000_0000_0000
    ensures s.pc.stats.cpuOps == INNER_ITERS * Batches(s.cpu) % WORD
    ensures s.pc.stats.memBytes == 2 * BufBytes(cfg) * Batches(s.mem) % WORD
    ensures AllExited(s.cpu) && AllExited(s.mem) && (s.reporter == Off || s.reporter == Gone)
    ensures s.procs == prevProcs
  {
    assert Reachable(cfg, status, prevProcs, s);
    ReachableIsOk(cfg, status, prevProcs, s);
    PrevProcsKept(cfg, status, Start(cfg, prevProcs), steps);
    ExecIsTraced(cfg, status, prevProcs, steps);
  }

  function Late(ws: seq<Worker>): nat {
    if ws == [] then 0 else Late(ws[..|ws| - 1]) + ws[|ws| - 1].late
  }

  lemma {:induction false} LateBounded(ws: seq<Worker>, stop: bool)
    requires WorkersOk(ws, stop)
    ensures Late(ws) <= |ws|
  {
    if ws != [] {
      assert WorkerOk(ws[|ws| - 1], stop);
      LateBounded(ws[..|ws| - 1], stop);
    }
  }

  /** After the step that sets the stop flag a worker ends at most one more batch. */
  lemma OneLateBatchEach(cfg: Config, status: bool, prevProcs: int, steps: seq<Step>, s: State)
    requires Usable(cfg) && Exec(cfg, status, Start(cfg, prevProcs), steps) == Some(s)
    ensures |s.cpu| == cfg.cpuWorkers && |s.mem| == cfg.memWorkers
    ensures forall i: nat :: i < cfg.cpuWorkers ==> LateIn(steps, EndCpuBatch(i)) == s.cpu[i].late <= 1
    ensures forall i: nat :: i < cfg.memWorkers ==> LateIn(steps, EndMemPass(i)) == s.mem[i].late <= 1
    ensures Late(s.cpu) <= cfg.cpuWorkers && Late(s.mem) <= cfg.memWorkers
  {
    hide LateIn;
    assert Reachable(cfg, status, prevProcs, s);
    ReachableIsOk(cfg, status, prevProcs, s);
    ExecIsTraced(cfg, status, prevProcs, steps);
    LateBounded(s.cpu, s.stop);
    LateBounded(s.mem, s.stop);
    assert WorkersTraced(steps, s);
  }

  /**
   * Each status line shows the operations published before its tick and the bytes published before the line itself.
   * There is a reporter exactly if there is a status writer and a positive interval, and it stays while the context
   * lasts.
   */
  lemma StatusLinesAreExact(cfg: Config, status: bool, prevProcs: int, steps: seq<Step>, s: State)
    requires Usable(cfg) && Exec(cfg, status, Start(cfg, prevProcs), steps) == Some(s)
    ensures s.snapshots == SnapshotsIn(cfg, steps)
    ensures s.pc.Join? || Joined(s.pc) ==> (s.reporter != Off <==> status && cfg.statusInterval > 0)
    ensures s.reporter == Gone ==> s.ctxDone
  {
    ExecIsTraced(cfg, status, prevProcs, steps);
  }

  /** A worker leaves exactly when it polls the flag after it was set. */
  lemma ExitsOnPoll(cfg: Config, status: bool, prevProcs: int, steps: seq<Step>, s: State)
    requires Usable(cfg) && Exec(cfg, status, Start(cfg, prevProcs), steps) == Some(s)
    ensures forall i: nat :: i < |s.cpu| ==> (s.cpu[i].phase == Exited <==> LateIn(steps, PollCpu(i)) > 0)
    ensures forall i: nat :: i < |s.mem| ==> (s.mem[i].phase == Exited <==> LateIn(steps, PollMem(i)) > 0)
  {
    hide LateIn;
    ExecIsTraced(cfg, status, prevProcs, steps);
    assert WorkersTraced(steps, s);
  }

  /** Unless a counter has wrapped, the status lines never show it falling, nor more than it holds. */
  lemma SnapshotsRise(cfg: Config, status: bool, prevProcs: int, s: State)
    requires Usable(cfg) && Reachable(cfg, status, prevProcs, s)
    ensures INNER_ITERS * Batches(s.cpu) < WORD ==>
              && (forall k, m :: 0 <= k < m < |s.snapshots| ==> s.snapshots[k].cpuOps <= s.snapshots[m].cpuOps)
              && (forall k :: 0 <= k < |s.snapshots| ==> s.snapshots[k].cpuOps <= s.cpuOps)
    ensures 2 * BufBytes(cfg) * Batches(s.mem) < WORD ==>
              && (forall k, m :: 0 <= k < m < |s.snapshots| ==> s.snapshots[k].memBytes <= s.snapshots[m].memBytes)
              && (forall k :: 0 <= k < |s.snapshots| ==> s.snapshots[k].memBytes <= s.memBytes)
  {
    ReachableIsOk(cfg, status, prevProcs, s);
  }

  /** When the workers have been joined the context is over, so the reporter leaves or is on its way to. */
  lemma ReporterCanLeave(cfg: Config, status: bool, prevProcs: int, s: State)
    requires Usable(cfg) && Reachable(cfg, status, prevProcs, s) && s.pc == JoinStatus
    ensures s.ctxDone && s.stop
    ensures Enabled(s, ReporterExit) || Enabled(s, StatusLine) || Enabled(s, JoinReporter)
  {
    ReachableIsOk(cfg, status, prevProcs, s);
    assert WorkerOk(s.cpu[0], s.stop);
  }

  predicate IsStatus(step: Step) {
    step == StatusTick || step == StatusLine
  }

  lemma NotExited(ws: seq<Worker>) returns (i: nat)
    requires !AllExited(ws)
    ensures i < |ws| && ws[i].phase != Exited
  {
    i :| i < |ws| && ws[i].phase != Exited;
  }

  /**
   * Once the context is over the run never blocks: until it returns, something other than a new status line can happen.
   */
  lemma NoDeadlock(cfg: Config, status: bool, prevProcs: int, s: State)
    requires Usable(cfg) && Reachable(cfg, status, prevProcs, s) && s.ctxDone && !s.pc.Returned?
    ensures exists step: Step :: step != StatusTick && Enabled(s, step)
  {
    ReachableIsOk(cfg, status, prevProcs, s);
    match s.pc
    case SpawnCpu(_) => assert Enabled(s, LaunchCpu);
    case SpawnMem(_) => assert Enabled(s, LaunchMem);
    case StartReporter => assert Enabled(s, LaunchReporter);
    case Join =>
      if !AllExited(s.cpu) {
        var i := NotExited(s.cpu);
        assert Enabled(s, PollCpu(i)) || Enabled(s, EndCpuBatch(i));
      } else if !AllExited(s.mem) {
        var i := NotExited(s.mem);
        assert Enabled(s, PollMem(i)) || Enabled(s, EndMemPass(i));
      } else {
        assert Enabled(s, JoinWorkers);
      }
    case JoinStatus => ReporterCanLeave(cfg, status, prevProcs, s);
    case Collect => assert Enabled(s, Return);
  }

  // How many steps, status lines aside, are left once the stop flag is set.

  function WorkerSteps(w: Worker): nat {
    match w.phase
    case Resting => 2
    case InBatch => 2
    case Polling => 1
    case Exited => 0
  }

  function WorkersSteps(ws: seq<Worker>): nat {
    if ws == [] then 0 else WorkersSteps(ws[..|ws| - 1]) + WorkerSteps(ws[|ws| - 1])
  }

  function StepsLeft(s: State): nat {
    WorkersSteps(s.cpu) + WorkersSteps(s.mem)
    + (if s.reporter == Off || s.reporter == Gone then 0 else 1)
    + match s.pc
      case SpawnCpu(_) => 5
      case SpawnMem(_) => 5
      case StartReporter => 5
      case Join => 3
      case JoinStatus => 2
      case Collect => 1
      case Returned(_) => 0
  }

  lemma {:induction false} WorkersStepsUpdated(ws: seq<Worker>, i: nat, w: Worker)
    requires i < |ws|
    ensures WorkersSteps(ws[i := w]) == WorkersSteps(ws) - WorkerSteps(ws[i]) + WorkerSteps(w)
  {
    if i < |ws| - 1 {
      WorkersStepsUpdated(ws[..|ws| - 1], i, w);
      assert ws[i := w][..|ws| - 1] == ws[..|ws| - 1][i := w];
    } else {
      assert ws[i := w][..|ws| - 1] == ws[..|ws| - 1];
    }
  }

  lemma {:induction false} WorkersStepsBounded(ws: seq<Worker>)
    ensures WorkersSteps(ws) <= 2 * |ws|
  {
    if ws != [] { WorkersStepsBounded(ws[..|ws| - 1]); }
  }

  lemma StepUsesUp(cfg: Config, status: bool, s: State, step: Step)
    requires Usable(cfg) && Inv(cfg, s) && s.stop && Enabled(s, step)
    ensures StepsLeft(Apply(cfg, status, s, step)) + (if IsStatus(step) then 0 else 1) <= StepsLeft(s)
  {
    hide WorkersSteps, MemCounterOk, CpuCounterOk, SnapshotsOk;
    match step
    case LaunchCpu => WorkersStepsUpdated(s.cpu, s.pc.next, s.cpu[s.pc.next].(phase := Polling));
    case LaunchMem => WorkersStepsUpdated(s.mem, s.pc.next, s.mem[s.pc.next].(phase := Polling));
    case PollCpu(i) => WorkersStepsUpdated(s.cpu, i, Poll(s.cpu[i], s.stop));
    case EndCpuBatch(i) => WorkersStepsUpdated(s.cpu, i, EndBatch(s.cpu[i], s.stop));
    case PollMem(i) => WorkersStepsUpdated(s.mem, i, Poll(s.mem[i], s.stop));
    case EndMemPass(i) => WorkersStepsUpdated(s.mem, i, EndBatch(s.mem[i], s.stop));
    case _ =>
  }

  function Progress(steps: seq<Step>): nat {
    if steps == [] then 0
    else Progress(steps[..|steps| - 1]) + if IsStatus(steps[|steps| - 1]) then 0 else 1
  }

  lemma {:induction false} StepsUseUp(cfg: Config, status: bool, s: State, steps: seq<Step>, t: State)
    requires Usable(cfg) && Inv(cfg, s) && s.stop && Exec(cfg, status, s, steps) == Some(t)
    ensures Inv(cfg, t) && t.stop
    ensures StepsLeft(t) + Progress(steps) <= StepsLeft(s)
    decreases |steps|
  {
    hide Inv, StepsLeft;
    if steps != [] {
      var rest := steps[..|steps| - 1];
      var u := Exec(cfg, status, s, rest).value;
      StepsUseUp(cfg, status, s, rest, u);
      StepUsesUp(cfg, status, u, steps[|steps| - 1]);
      StepKeepsInv(cfg, status, u, steps[|steps| - 1]);
    }
  }

  /**
   * Shutdown: from any reachable state in which the stop flag is set, however the goroutines interleave, at most
   * 2 (CPU + memory workers) + 6 steps that are not status lines follow.
   */
  lemma ShutdownIsBounded(cfg: Config, status: bool, prevProcs: int, s: State, steps: seq<Step>)
    requires Usable(cfg) && Reachable(cfg, status, prevProcs, s) && s.stop
    requires Exec(cfg, status, s, steps).Some?
    ensures Progress(steps) <= 2 * (cfg.cpuWorkers + cfg.memWorkers) + 6
  {
    ReachableIsOk(cfg, status, prevProcs, s);
    StepsUseUp(cfg, status, s, steps, Exec(cfg, status, s, steps).value);
    WorkersStepsBounded(s.cpu);
    WorkersStepsBounded(s.mem);
  }

  // The loop of one memory worker, over its own buffer.

  // The 64-bit operations of the pass: word * 1664525 + x, addition and exclusive or. Their values play no part.
  datatype WordOps<!W> = WordOps(mix: (W, W) -> W, add: (W, W) -> W, xor: (W, W) -> W)

  /** The buffer and the accumulator after the forward pass: each word is rewritten from its old value. */
  ghost function Forward<W>(ops: WordOps<W>, words: seq<W>, x: W): (r: (seq<W>, W))
    ensures |r.0| == |words|
  {
    if words == [] then ([], x)
    else
      var (rest, y) := Forward(ops, words[..|words| - 1], x);
      var w := ops.mix(words[|words| - 1], y);
      (rest + [w], ops.add(y, w))
  }

  /** The accumulator after the reverse pass. */
  ghost function Backward<W>(ops: WordOps<W>, words: seq<W>, x: W): W {
    if words == [] then x else Backward(ops, words[..|words| - 1], ops.xor(x, words[|words| - 1]))
  }

  method ForwardPass<W>(ops: WordOps<W>, buf: array<W>, x: W) returns (x': W, ghost touched: nat)
    modifies buf
    ensures (buf[..], x') == Forward(ops, old(buf[..]), x)
    ensures touched == 8 * buf.Length
  {
    ghost var words := buf[..];
    x', touched := x, 0;
    for i := 0 to buf.Length
      invariant buf[i..] == words[i..]
      invariant (buf[..i], x') == Forward(ops, words[..i], x)
      invariant touched == 8 * i
    {
      assert buf[i] == buf[i..][0] == words[i];
      assert words[..i + 1][..i] == words[..i];
      ghost var done := buf[..i];
      buf[i] := ops.mix(buf[i], x');
      assert buf[..i + 1] == done + [buf[i]];
      x' := ops.add(x', buf[i]);
      touched := touched + 8;
    }
    assert words[..buf.Length] == words && buf[..buf.Length] == buf[..];
  }

  method BackwardPass<W>(ops: WordOps<W>, buf: array<W>, x: W) returns (x': W, ghost touched: nat)
    ensures x' == Backward(ops, buf[..], x)
    ensures touched == 8 * buf.Length
  {
    x', touched := x, 0;
    assert buf[..buf.Length] == buf[..];
    for i := buf.Length downto 0
      invariant Backward(ops, buf[..i], x') == Backward(ops, buf[..], x)
      invariant touched == 8 * (buf.Length - i)
    {
      assert buf[..i + 1][..i] == buf[..i];
      x' := ops.xor(x', buf[i]);
      touched := touched + 8;
    }
  }

  /** The bytes read forwards and backwards are what the worker then adds to the counter. */
  method MemPass<W>(ops: WordOps<W>, buf: array<W>, x: W) returns (x': W, ghost touched: nat)
    modifies buf
    ensures buf[..] == Forward(ops, old(buf[..]), x).0
    ensures x' == Backward(ops, buf[..], Forward(ops, old(buf[..]), x).1)
    ensures touched == 2 * (8 * buf.Length)
  {
    hide Forward, Backward;
    ghost var back;
    x', touched := ForwardPass(ops, buf, x);
    x', back := BackwardPass(ops, buf, x');
    touched := touched + back;
  }

  /**
   * The worker's loop when the n-th poll of the flag reads stop(n), and some poll, seen, reads true: it makes as many
   * passes as there are polls before the first that does, and adds all their bytes.
   */
  method MemWorker<W>(ops: WordOps<W>, buf: array<W>, seed: W, stop: nat -> bool, ghost seen: nat)
    returns (passes: nat, added: nat)
    requires stop(seen)
    modifies buf
    ensures stop(passes) && forall n :: 0 <= n < passes ==> !stop(n)
    ensures added == 2 * (8 * buf.Length) * passes % WORD
  {
    passes, added := 0, 0;
    var unit := 2 * (8 * buf.Length);
    var x := seed;
    while !stop(passes)
      invariant passes <= seen
      invariant forall n :: 0 <= n < passes ==> !stop(n)
      invariant added == unit * passes % WORD
      decreases seen - passes
    {
      ghost var touched;
      x, touched := MemPass(ops, buf, x);
      WrapAdd(unit * passes, unit);
      OneMoreUnit(unit, passes);
      added := (added + unit) % WORD;
      passes := passes + 1;
    }
  }
}
