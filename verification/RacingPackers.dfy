/** The worker's packing ticks side by side. cmd/cluster_node/main.go starts every PackNextJob in its own goroutine, and
    PackNextJob (internal/cluster/scheduler/packer.go) reads the usage in one call and takes a job in another. */
module RacingPackers {
  import opened ArbiterQueue
  import opened WorkerJobs

  datatype Limits = Limits(cpu: int, mem: int)

  /** The worker, and the ticks that have read what is free and not yet taken a job, each with what it has read. */
  datatype Machine = Machine(worker: Worker, readings: map<nat, Limits>)

  /** Whatever else happens to the worker's jobs is a WorkerOp other than a take. */
  datatype RaceOp =
    | ReadUsage(tick: nat)
    | TakeJob(tick: nat, free: set<string>)
    | Meanwhile(op: WorkerOp)

  const IDLE := Machine(NO_JOBS, map[])

  ghost function Free(w: Worker, max: Limits): Limits {
    Limits(max.cpu - Usage(w.active, CPU_OF), max.mem - Usage(w.active, MEM_OF))
  }

  /** No more than `overlap` ticks are between their read and their take; another one has to wait. */
  ghost function StepRace(m: Machine, max: Limits, overlap: nat, op: RaceOp): Machine {
    match op
    case ReadUsage(tick) =>
      if tick in m.readings || |m.readings| >= overlap then m
      else m.(readings := m.readings[tick := Free(m.worker, max)])
    case TakeJob(tick, free) =>
      if tick !in m.readings then m
      else Machine(StepWorker(m.worker, TakeOf(m, op)), m.readings - {tick})
    case Meanwhile(op) => if op.TakeNext? then m else m.(worker := StepWorker(m.worker, op))
  }

  function TakeOf(m: Machine, op: RaceOp): WorkerOp
    requires op.TakeJob? && op.tick in m.readings
  {
    TakeNext(op.free, m.readings[op.tick].cpu, m.readings[op.tick].mem)
  }

  ghost function RunRace(max: Limits, overlap: nat, ops: seq<RaceOp>): Machine {
    if ops == [] then IDLE
    else StepRace(RunRace(max, overlap, ops[..|ops| - 1]), max, overlap, ops[|ops| - 1])
  }

  /** The jobs that come in need no negative resources, and push no id of which the queue still holds a copy. */
  ghost predicate TameRace(m: Machine, op: RaceOp) {
    op.Meanwhile? ==> TameOp(m.worker, op.op) && (op.op.AddJob? ==> NonNegative(op.op.job))
  }

  ghost predicate TameRaces(max: Limits, overlap: nat, ops: seq<RaceOp>) {
    forall i :: 0 <= i < |ops| ==> TameRace(RunRace(max, overlap, ops[..i]), ops[i])
  }

  lemma TameRacePrefix(max: Limits, overlap: nat, ops: seq<RaceOp>)
    requires TameRaces(max, overlap, ops) && ops != []
    ensures TameRaces(max, overlap, ops[..|ops| - 1])
    ensures TameRace(RunRace(max, overlap, ops[..|ops| - 1]), ops[|ops| - 1])
  {
    var init := ops[..|ops| - 1];
    forall i | 0 <= i < |init| ensures TameRace(RunRace(max, overlap, init[..i]), init[i]) {
      assert init[..i] == ops[..i];
    }
  }

  // ---------------------------------------------------------------- a take in a run

  ghost predicate RaceInv(m: Machine, log: seq<Job>) {
    WorkerInv(m.worker, log) && AllNonNegative(m.worker, log)
  }

  lemma StepKeepsRaceInv(m: Machine, log: seq<Job>, max: Limits, overlap: nat, op: RaceOp) returns (rest: seq<Job>)
    requires RaceInv(m, log) && TameRace(m, op)
    ensures RaceInv(StepRace(m, max, overlap, op), rest)
  {
    rest := log;
    if op.TakeJob? && op.tick in m.readings {
      rest := WorkerStep(m.worker, log, TakeOf(m, op));
    } else if op.Meanwhile? && !op.op.TakeNext? {
      rest := WorkerStep(m.worker, log, op.op);
    }
  }

  lemma WorkerStep(w: Worker, log: seq<Job>, op: WorkerOp) returns (rest: seq<Job>)
    requires WorkerInv(w, log) && AllNonNegative(w, log) && TameOp(w, op) && (op.AddJob? ==> NonNegative(op.job))
    ensures WorkerInv(StepWorker(w, op), rest) && AllNonNegative(StepWorker(w, op), rest)
  {
    StepKeepsWorkerInv(w, log, op);
    StepKeepsNonNegative(w, log, op);
    rest := StepPending(w, log, op);
  }

  lemma {:induction false} RunKeepsRaceInv(max: Limits, overlap: nat, ops: seq<RaceOp>) returns (log: seq<Job>)
    requires TameRaces(max, overlap, ops)
    ensures RaceInv(RunRace(max, overlap, ops), log)
  {
    if ops == [] {
      assert Represents(WorkerJobs.JOB_KEYS, NO_JOBS.pending, []);
      log := [];
    } else {
      TameRacePrefix(max, overlap, ops);
      var before := RunKeepsRaceInv(max, overlap, ops[..|ops| - 1]);
      log := StepKeepsRaceInv(RunRace(max, overlap, ops[..|ops| - 1]), before, max, overlap, ops[|ops| - 1]);
    }
  }

  /** What a tick has read is still no more than what is free: the usage has not grown since. */
  ghost predicate Fresh(m: Machine, max: Limits, tick: nat)
    requires tick in m.readings
  {
    m.readings[tick].cpu <= Free(m.worker, max).cpu && m.readings[tick].mem <= Free(m.worker, max).mem
  }

  ghost predicate InLimits(m: Machine, max: Limits) {
    WithinLimits(m.worker, max.cpu, max.mem)
  }

  /** In any run, at any take from within the limits: they are kept whatever is pending, exactly when the tick has read
      that nothing is left, or the usage is no more than when it read it. `probe` is any job of the size that it found
      free. */
  lemma RacingTakeIsSafeExactly(max: Limits, overlap: nat, ops: seq<RaceOp>, tick: nat, free: set<string>, probe: Job)
    requires TameRaces(max, overlap, ops)
    requires var m := RunRace(max, overlap, ops);
             && InLimits(m, max) && tick in m.readings && probe.id !in m.worker.active
             && (m.readings[tick].cpu >= 0 && m.readings[tick].mem >= 0 ==>
                   probe.image.cpu == m.readings[tick].cpu && probe.image.mem == m.readings[tick].mem)
    ensures var m := RunRace(max, overlap, ops);
            var read := m.readings[tick];
            (forall v: Worker, log: seq<Job> ::
               TakesSafely(v, log, m.worker.active, free, read.cpu, read.mem, max.cpu, max.mem))
            <==> read.cpu < 0 || read.mem < 0 || Fresh(m, max, tick)
  {
    var m := RunRace(max, overlap, ops);
    var log := RunKeepsRaceInv(max, overlap, ops);
    TakingIsSafeExactly(m.worker, free, m.readings[tick].cpu, m.readings[tick].mem, max.cpu, max.mem, probe);
  }

  // ---------------------------------------------------------------- how many ticks may overlap

  ghost predicate Restrained(m: Machine, max: Limits, overlap: nat) {
    InLimits(m, max) && |m.readings| <= overlap && forall tick :: tick in m.readings ==> Fresh(m, max, tick)
  }

  /** Between a read and its take, the usage of a worker without other takes only falls. */
  lemma UsageFallsWithoutTakes(w: Worker, log: seq<Job>, op: WorkerOp)
    requires WorkerInv(w, log) && AllNonNegative(w, log) && !op.TakeNext?
    ensures Usage(StepWorker(w, op).active, CPU_OF) <= Usage(w.active, CPU_OF)
    ensures Usage(StepWorker(w, op).active, MEM_OF) <= Usage(w.active, MEM_OF)
  {
    match op {
      case MarkCompleted(id) =>
        UsageFalls(w.active, CPU_OF, id);
        UsageFalls(w.active, MEM_OF, id);
      case RollbackJob(id) =>
        UsageFalls(w.active, CPU_OF, id);
        UsageFalls(w.active, MEM_OF, id);
      case ClearAllJobs(_) =>
        UsageNonNegative(w.active, CPU_OF);
        UsageNonNegative(w.active, MEM_OF);
      case _ =>
    }
  }

  lemma {:induction false} UsageNonNegative(active: map<string, Job>, weight: Job -> int)
    requires forall id :: id in active ==> weight(active[id]) >= 0
    ensures Usage(active, weight) >= 0
    decreases |active|
  {
    if active != map[] {
      var id :| id in active;
      UsageWithout(active, weight, id);
      UsageNonNegative(active - {id}, weight);
    }
  }

  /** One tick at a time never takes too much. */
  lemma StepKeepsRestraint(m: Machine, log: seq<Job>, max: Limits, overlap: nat, op: RaceOp)
    requires RaceInv(m, log) && TameRace(m, op) && Restrained(m, max, overlap)
    requires overlap <= 1 || max == Limits(0, 0)
    ensures Restrained(StepRace(m, max, overlap, op), max, overlap)
  {
    match op {
      case ReadUsage(tick) =>
        UsageNonNegative(m.worker.active, CPU_OF);
        UsageNonNegative(m.worker.active, MEM_OF);
      case TakeJob(tick, free) =>
        if tick in m.readings {
          TakeKeepsRestraint(m, log, max, overlap, op);
        }
      case Meanwhile(other) =>
        if !other.TakeNext? {
          UsageFallsWithoutTakes(m.worker, log, other);
        }
    }
  }

  lemma TakeKeepsRestraint(m: Machine, log: seq<Job>, max: Limits, overlap: nat, op: RaceOp)
    requires RaceInv(m, log) && Restrained(m, max, overlap) && op.TakeJob? && op.tick in m.readings
    requires overlap <= 1 || max == Limits(0, 0)
    ensures Restrained(StepRace(m, max, overlap, op), max, overlap)
  {
    var read := m.readings[op.tick];
    NextBestWithinLimits(m.worker, log, op.free, read.cpu, read.mem, max.cpu, max.mem);
    StepKeepsNonNegative(m.worker, log, TakeOf(m, op));
    StillRestrained(m, StepRace(m, max, overlap, op), max, overlap, op.tick);
  }

  /** Either no reading is left, or nothing is used before and after. */
  lemma StillRestrained(m: Machine, after: Machine, max: Limits, overlap: nat, tick: nat)
    requires Restrained(m, max, overlap) && InLimits(after, max) && AllActiveNonNegative(after.worker)
    requires tick in m.readings && after.readings == m.readings - {tick} && (overlap <= 1 || max == Limits(0, 0))
    requires AllActiveNonNegative(m.worker)
    ensures Restrained(after, max, overlap)
  {
    UsageNonNegative(m.worker.active, CPU_OF);
    UsageNonNegative(m.worker.active, MEM_OF);
    UsageNonNegative(after.worker.active, CPU_OF);
    UsageNonNegative(after.worker.active, MEM_OF);
    FewerReadings(m.readings, tick);
  }

  ghost predicate AllActiveNonNegative(w: Worker) {
    forall id :: id in w.active ==> NonNegative(w.active[id])
  }

  lemma FewerReadings(readings: map<nat, Limits>, tick: nat)
    requires tick in readings
    ensures |readings - {tick}| == |readings| - 1 && (|readings| <= 1 ==> readings - {tick} == map[])
  {
    var rest := readings - {tick};
    assert rest.Keys == readings.Keys - {tick};
    assert |rest.Keys| == |rest| && |readings.Keys| == |readings|;
  }

  lemma {:induction false} RunIsRestrained(max: Limits, overlap: nat, ops: seq<RaceOp>)
    requires TameRaces(max, overlap, ops) && (overlap <= 1 || max == Limits(0, 0)) && max.cpu >= 0 && max.mem >= 0
    ensures Restrained(RunRace(max, overlap, ops), max, overlap)
  {
    if ops != [] {
      TameRacePrefix(max, overlap, ops);
      RunIsRestrained(max, overlap, ops[..|ops| - 1]);
      var log := RunKeepsRaceInv(max, overlap, ops[..|ops| - 1]);
      StepKeepsRestraint(RunRace(max, overlap, ops[..|ops| - 1]), log, max, overlap, ops[|ops| - 1]);
    }
  }

  // ---------------------------------------------------------------- two at a time

  function Overcommit(a: Job, b: Job): seq<RaceOp> {
    [Meanwhile(AddJob(a)), Meanwhile(AddJob(b)), ReadUsage(0), ReadUsage(1), TakeJob(0, {}), TakeJob(1, {})]
  }

  lemma RunOneMore(max: Limits, overlap: nat, ops: seq<RaceOp>, n: nat)
    requires n < |ops|
    ensures RunRace(max, overlap, ops[..n + 1]) == StepRace(RunRace(max, overlap, ops[..n]), max, overlap, ops[n])
  {
    assert ops[..n + 1][..n] == ops[..n];
  }

  /** Two jobs have come in. */
  lemma BothHaveComeIn(max: Limits, overlap: nat, a: Job, b: Job)
    ensures RunRace(max, overlap, Overcommit(a, b)[..0]) == IDLE
    ensures RunRace(max, overlap, Overcommit(a, b)[..1]) == Machine(Add(NO_JOBS, a).0, map[])
    ensures RunRace(max, overlap, Overcommit(a, b)[..2]) == Machine(Add(Add(NO_JOBS, a).0, b).0, map[])
  {
    RunOneMore(max, overlap, Overcommit(a, b), 0);
    RunOneMore(max, overlap, Overcommit(a, b), 1);
  }

  /** Then two ticks find the whole machine free. */
  lemma BothHaveRead(max: Limits, overlap: nat, a: Job, b: Job)
    requires overlap >= 2
    ensures var w := Add(Add(NO_JOBS, a).0, b).0;
            RunRace(max, overlap, Overcommit(a, b)[..4]) == Machine(w, map[0 := max, 1 := max])
  {
    var w, one := Add(Add(NO_JOBS, a).0, b).0, map[0 as nat := max];
    OneHasRead(max, overlap, a, b);
    RunOneMore(max, overlap, Overcommit(a, b), 3);
    assert one.Keys == {0} && |one| == |one.Keys|;
    ReadsAll(Machine(w, one), max, overlap, 1);
  }

  lemma OneHasRead(max: Limits, overlap: nat, a: Job, b: Job)
    requires overlap >= 1
    ensures RunRace(max, overlap, Overcommit(a, b)[..3]) == Machine(Add(Add(NO_JOBS, a).0, b).0, map[0 := max])
  {
    BothHaveComeIn(max, overlap, a, b);
    RunOneMore(max, overlap, Overcommit(a, b), 2);
    ReadsAll(Machine(Add(Add(NO_JOBS, a).0, b).0, map[]), max, overlap, 0);
  }

  lemma ReadsAll(m: Machine, max: Limits, overlap: nat, tick: nat)
    requires m.worker.active == map[] && tick !in m.readings && |m.readings| < overlap
    ensures StepRace(m, max, overlap, ReadUsage(tick)) == m.(readings := m.readings[tick := max])
  {
  }

  lemma OvercommitIsTame(max: Limits, overlap: nat, a: Job, b: Job)
    requires overlap >= 2 && a.id != b.id && NonNegative(a) && NonNegative(b)
    ensures TameRaces(max, overlap, Overcommit(a, b))
  {
    var ops := Overcommit(a, b);
    BothHaveComeIn(max, overlap, a, b);
    forall i | 0 <= i < |ops| ensures TameRace(RunRace(max, overlap, ops[..i]), ops[i]) {
    }
  }

  lemma OvercommitReached(max: Limits, overlap: nat, a: Job, b: Job)
    requires overlap >= 2
    ensures var w := Add(Add(NO_JOBS, a).0, b).0;
            RunRace(max, overlap, Overcommit(a, b)).worker == TakeAll(TakeAll(w, max), max)
  {
    var ops, w := Overcommit(a, b), Add(Add(NO_JOBS, a).0, b).0;
    BothHaveRead(max, overlap, a, b);
    RunOneMore(max, overlap, ops, 4);
    TakesAll(Machine(w, map[0 := max, 1 := max]), max, overlap, 0);
    RunOneMore(max, overlap, ops, 5);
    TakesAll(RunRace(max, overlap, ops[..5]), max, overlap, 1);
    assert ops[..6] == ops;
  }

  function TakeAll(w: Worker, max: Limits): Worker {
    NextBest(w, {}, max.cpu, max.mem).0
  }

  lemma TakesAll(m: Machine, max: Limits, overlap: nat, tick: nat)
    requires tick in m.readings && m.readings[tick] == max
    ensures StepRace(m, max, overlap, TakeJob(tick, {})) == Machine(TakeAll(m.worker, max), m.readings - {tick})
  {
  }

  /** In every run the active jobs stay within what the machine has, exactly when no two ticks overlap between reading
      and taking, or the machine has nothing. `a` and `b` are any two jobs that need the whole machine. */
  lemma CapacityExactly(max: Limits, overlap: nat, a: Job, b: Job)
    requires max.cpu >= 0 && max.mem >= 0
    requires a.id != b.id && a.image.cpu == b.image.cpu == max.cpu && a.image.mem == b.image.mem == max.mem
    ensures (forall ops: seq<RaceOp> :: TameRaces(max, overlap, ops) ==> InLimits(RunRace(max, overlap, ops), max))
            <==> overlap <= 1 || max == Limits(0, 0)
  {
    if overlap <= 1 || max == Limits(0, 0) {
      forall ops: seq<RaceOp> | TameRaces(max, overlap, ops) ensures InLimits(RunRace(max, overlap, ops), max) {
        RunIsRestrained(max, overlap, ops);
      }
    } else {
      TwoTicksOvercommit(max, overlap, a, b);
      OvercommitIsTame(max, overlap, a, b);
    }
  }

  lemma TwoTicksOvercommit(max: Limits, overlap: nat, a: Job, b: Job)
    requires max.cpu >= 0 && max.mem >= 0 && overlap >= 2 && max != Limits(0, 0)
    requires a.id != b.id && a.image.cpu == b.image.cpu == max.cpu && a.image.mem == b.image.mem == max.mem
    ensures !InLimits(RunRace(max, overlap, Overcommit(a, b)), max)
  {
    OvercommitReached(max, overlap, a, b);
    BothPending(a, b);
    TakesTwo(Add(Add(NO_JOBS, a).0, b).0, [a, b], {}, max.cpu, max.mem);
  }
}
