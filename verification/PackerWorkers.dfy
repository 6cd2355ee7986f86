/** The workers of a batch side by side. In internal/scheduler/packer/operations.go up to twenty executions run at a
    time, while the batch goes on popping jobs and the rest of the scheduler goes on as well. Each locked region of an
    execution is one step here, and the steps of different workers may fall in any order. */
module PackerWorkers {
  import opened ArbiterQueue
  import opened BatchPacker
  import opened SchedulerState
  import opened Wrappers

  // ---------------------------------------------------------------- an execution, region by region

  function Plan(id: string, target: Option<string>, mayShed: bool, a: Answers): seq<LedgerOp> {
    match target
    case Some(cluster) =>
      [AssignJob(id, cluster), if a.committed && a.dispatched then AssignJob(id, cluster) else UnassignJob(id)]
    case None =>
      match if mayShed then FirstWilling(a.peers, 0) else None
      case None => [UnassignJob(id)]
      case Some(answer) => if answer == Accepted then [PurgeJob(id)] else []
  }

  predicate Matched(s: Ledger) {
    s.marks.Keys == s.jobs.Keys
  }

  function RunPlan(s: Ledger, ops: seq<LedgerOp>): (t: Ledger)
    requires Matched(s)
    ensures Matched(t)
  {
    if ops == [] then s else StepLedger(RunPlan(s, ops[..|ops| - 1]), ops[|ops| - 1])
  }

  /** Undisturbed, the regions make up the execution. */
  lemma PlanIsExecute(s: Ledger, id: string, target: Option<string>, mayShed: bool, a: Answers)
    requires Matched(s) && id in s.jobs
    ensures RunPlan(s, Plan(id, target, mayShed, a)) == Execute(s, id, target, mayShed, a)
  {
    var ops := Plan(id, target, mayShed, a);
    if |ops| == 2 {
      RunPlanOfTwo(s, ops[0], ops[1]);
    } else if |ops| == 1 {
      RunPlanOfOne(s, ops[0]);
    }
  }

  lemma RunPlanOfOne(s: Ledger, op: LedgerOp)
    requires Matched(s)
    ensures RunPlan(s, [op]) == StepLedger(s, op)
  {
    assert [op][..0] == [];
  }

  lemma RunPlanOfTwo(s: Ledger, op: LedgerOp, next: LedgerOp)
    requires Matched(s)
    ensures Matched(StepLedger(s, op)) && RunPlan(s, [op, next]) == StepLedger(StepLedger(s, op), next)
  {
    assert [op, next][..1] == [op];
    RunPlanOfOne(s, op);
  }

  // ---------------------------------------------------------------- many at a time

  /** A worker with its job: the ledger that it was handed out from, how its regions come out, and how many are done. */
  datatype Worker = Worker(at: Ledger, target: Option<string>, mayShed: bool, answers: Answers, done: nat)

  datatype Pool = Pool(ledger: Ledger, workers: map<string, Worker>)

  /** A pop with the worker that is started on the job, the next region of a worker, or something else that the
      scheduler does. */
  datatype PoolStep =
    | Hand(cpu: int, mem: int, target: Option<string>, mayShed: bool, answers: Answers)
    | Advance(id: string)
    | Meanwhile(op: LedgerOp)

  function PlanOf(id: string, w: Worker): seq<LedgerOp> {
    Plan(id, w.target, w.mayShed, w.answers)
  }

  predicate Busy(p: Pool, id: string) {
    id in p.workers && p.workers[id].done < |PlanOf(id, p.workers[id])|
  }

  function Subject(op: LedgerOp): Option<string> {
    match op
    case AppendJob(job, _) => Some(job.id)
    case NextPendingJob(_, _) => None
    case AssignJob(id, _) => Some(id)
    case CompleteJob(id, _) => Some(id)
    case UnassignJob(id) => Some(id)
    case PurgeJob(id) => Some(id)
  }

  /** What else happens keeps to the discipline, and its hands off the jobs that workers have in theirs. */
  predicate Apart(p: Pool, op: LedgerOp) {
    Disciplined(p.ledger, op) && (Subject(op).Some? ==> !Busy(p, Subject(op).value))
  }

  function StepPool(p: Pool, step: PoolStep): (q: Pool)
    requires Matched(p.ledger)
    ensures Matched(q.ledger)
  {
    match step
    case Hand(cpu, mem, target, mayShed, a) =>
      var (t, job) := NextPending(p.ledger, cpu, mem);
      Pool(t, if job.None? then p.workers else p.workers[job.value.id := Worker(t, target, mayShed, a, 0)])
    case Advance(id) =>
      if !Busy(p, id) then p
      else
        var w := p.workers[id];
        Pool(StepLedger(p.ledger, PlanOf(id, w)[w.done]), p.workers[id := w.(done := w.done + 1)])
    case Meanwhile(op) => if Apart(p, op) then p.(ledger := StepLedger(p.ledger, op)) else p
  }

  /** The ledger as this worker alone would have left it by now. */
  function Alone(id: string, w: Worker): Ledger
    requires Matched(w.at) && w.done <= |PlanOf(id, w)|
  {
    RunPlan(w.at, PlanOf(id, w)[..w.done])
  }

  /** A busy worker's job is as if nobody else were there. */
  ghost predicate WorkerOk(p: Pool, id: string)
    requires id in p.workers
  {
    var w := p.workers[id];
    Busy(p, id) ==>
      && Matched(w.at) && Partition(w.at) && InHand(w.at, id) && id in p.ledger.placed
      && SameStanding(Alone(id, w), p.ledger, id)
  }

  ghost predicate PoolInv(p: Pool, log: seq<Job>) {
    Orderly(p.ledger, log) && NoCopies(p.ledger) && forall id :: id in p.workers ==> WorkerOk(p, id)
  }

  /** A step about one id leaves the others as they stand. */
  lemma StepTouchesOne(s: Ledger, op: LedgerOp, other: string)
    requires Partition(s) && !op.NextPendingJob? && Subject(op) != Some(other)
    ensures SameStanding(s, StepLedger(s, op), other)
  {
  }

  lemma PopTouchesOne(s: Ledger, log: seq<Job>, cpu: int, mem: int, other: string)
    requires Orderly(s, log) && other in s.placed
    ensures var (t, job) := NextPending(s, cpu, mem);
            SameStanding(s, t, other) && (job.Some? ==> job.value.id != other)
  {
    assert other in s.jobs && InOneSet(s, other);
    var fits := Fits(SchedulerState.JOB_KEYS, cpu, mem);
    PopRefines(SchedulerState.JOB_KEYS, s.pending, log, fits);
    PopShrinks(SchedulerState.JOB_KEYS, s.pending, fits);
    TakenIsIndexed(SchedulerState.JOB_KEYS, s.pending.items, log, fits);
  }

  /** The same step about an id, in two ledgers where it stands the same. */
  lemma SameStepSameStanding(s: Ledger, t: Ledger, op: LedgerOp, id: string)
    requires Matched(s) && Matched(t) && SameStanding(s, t, id) && Subject(op) == Some(id) && !op.AppendJob?
    requires id in s.jobs ==> s.jobs[id].id == id
    ensures SameStanding(StepLedger(s, op), StepLedger(t, op), id)
  {
  }

  lemma StandingIsTransitive(s: Ledger, t: Ledger, u: Ledger, id: string)
    requires SameStanding(s, t, id) && SameStanding(t, u, id)
    ensures SameStanding(s, u, id)
  {
  }

  /** A worker's next region is a disciplined step, since its job is still in its hands. */
  lemma NextRegionIsDisciplined(p: Pool, log: seq<Job>, id: string)
    requires PoolInv(p, log) && Busy(p, id)
    ensures Disciplined(p.ledger, PlanOf(id, p.workers[id])[p.workers[id].done])
  {
    assert WorkerOk(p, id);
    assert id in p.ledger.jobs && InOneSet(p.ledger, id);
  }

  lemma OtherWorkersStay(p: Pool, q: Pool, other: string)
    requires other in p.workers && other in q.workers && q.workers[other] == p.workers[other] && WorkerOk(p, other)
    requires Busy(p, other) ==> SameStanding(p.ledger, q.ledger, other)
    ensures WorkerOk(q, other)
  {
    if Busy(p, other) {
      StandingIsTransitive(Alone(other, p.workers[other]), p.ledger, q.ledger, other);
    }
  }

  lemma HandKeepsPool(p: Pool, log: seq<Job>, step: PoolStep) returns (rest: seq<Job>)
    requires PoolInv(p, log) && step.Hand?
    ensures PoolInv(StepPool(p, step), rest)
  {
    var q := StepPool(p, step);
    var job := NextPending(p.ledger, step.cpu, step.mem).1;
    NextPendingHandsOut(p.ledger, log, step.cpu, step.mem);
    rest := Take(SchedulerState.JOB_KEYS, log, Fits(SchedulerState.JOB_KEYS, step.cpu, step.mem)).0;
    forall other | other in q.workers ensures WorkerOk(q, other) {
      if job.Some? && other == job.value.id {
        HandedIsOk(p, log, step);
      } else {
        OthersStayOk(p, log, step, other);
      }
    }
  }

  lemma HandedIsOk(p: Pool, log: seq<Job>, step: PoolStep)
    requires Orderly(p.ledger, log) && NoCopies(p.ledger) && step.Hand?
    requires NextPending(p.ledger, step.cpu, step.mem).1.Some?
    ensures WorkerOk(StepPool(p, step), NextPending(p.ledger, step.cpu, step.mem).1.value.id)
  {
    NextPendingHandsOut(p.ledger, log, step.cpu, step.mem);
    var q, id := StepPool(p, step), NextPending(p.ledger, step.cpu, step.mem).1.value.id;
    assert PlanOf(id, q.workers[id])[..0] == [];
  }

  lemma OthersStayOk(p: Pool, log: seq<Job>, step: PoolStep, other: string)
    requires PoolInv(p, log) && step.Hand? && other in p.workers
    requires NextPending(p.ledger, step.cpu, step.mem).1.Some? ==>
               NextPending(p.ledger, step.cpu, step.mem).1.value.id != other
    ensures WorkerOk(StepPool(p, step), other)
  {
    assert WorkerOk(p, other);
    if Busy(p, other) {
      PopTouchesOne(p.ledger, log, step.cpu, step.mem, other);
    }
    OtherWorkersStay(p, StepPool(p, step), other);
  }

  lemma AdvanceKeepsStanding(p: Pool, log: seq<Job>, id: string)
    requires PoolInv(p, log) && Busy(p, id)
    ensures var q := StepPool(p, Advance(id)); SameStanding(Alone(id, q.workers[id]), q.ledger, id)
    ensures var q := StepPool(p, Advance(id)); Busy(q, id) ==> id in q.ledger.placed
  {
    var w := p.workers[id];
    var ops := PlanOf(id, w);
    assert WorkerOk(p, id);
    assert ops[..w.done + 1][..w.done] == ops[..w.done];
    assert id in p.ledger.jobs && p.ledger.jobs[id].id == id;
    SameStepSameStanding(Alone(id, w), p.ledger, ops[w.done], id);
  }

  lemma AdvanceKeepsPool(p: Pool, log: seq<Job>, id: string) returns (rest: seq<Job>)
    requires PoolInv(p, log) && Busy(p, id)
    ensures PoolInv(StepPool(p, Advance(id)), rest)
  {
    var q, op := StepPool(p, Advance(id)), PlanOf(id, p.workers[id])[p.workers[id].done];
    NextRegionIsDisciplined(p, log, id);
    rest := LedgerStep(p.ledger, log, op);
    AdvanceKeepsStanding(p, log, id);
    forall other | other in q.workers ensures WorkerOk(q, other) {
      if other == id {
        assert WorkerOk(p, id);
      } else {
        AdvanceLeavesOther(p, log, id, other);
      }
    }
  }

  lemma AdvanceLeavesOther(p: Pool, log: seq<Job>, id: string, other: string)
    requires PoolInv(p, log) && Busy(p, id) && other in p.workers && other != id
    ensures WorkerOk(StepPool(p, Advance(id)), other)
  {
    assert WorkerOk(p, other);
    StepTouchesOne(p.ledger, PlanOf(id, p.workers[id])[p.workers[id].done], other);
    OtherWorkersStay(p, StepPool(p, Advance(id)), other);
  }

  lemma MeanwhileKeepsPool(p: Pool, log: seq<Job>, op: LedgerOp) returns (rest: seq<Job>)
    requires PoolInv(p, log) && Apart(p, op)
    ensures PoolInv(StepPool(p, Meanwhile(op)), rest)
  {
    var q := StepPool(p, Meanwhile(op));
    rest := LedgerStep(p.ledger, log, op);
    forall other | other in q.workers ensures WorkerOk(q, other) {
      assert WorkerOk(p, other);
      if Busy(p, other) {
        if op.NextPendingJob? {
          PopTouchesOne(p.ledger, log, op.cpu, op.mem, other);
        } else {
          StepTouchesOne(p.ledger, op, other);
        }
      }
      OtherWorkersStay(p, q, other);
    }
  }

  lemma StepKeepsPool(p: Pool, log: seq<Job>, step: PoolStep) returns (rest: seq<Job>)
    requires PoolInv(p, log)
    ensures PoolInv(StepPool(p, step), rest)
  {
    rest := log;
    match step {
      case Hand(_, _, _, _, _) => rest := HandKeepsPool(p, log, step);
      case Advance(id) =>
        if Busy(p, id) {
          rest := AdvanceKeepsPool(p, log, id);
        }
      case Meanwhile(op) =>
        if Apart(p, op) {
          rest := MeanwhileKeepsPool(p, log, op);
        }
    }
  }

  function RunPool(p: Pool, steps: seq<PoolStep>): (q: Pool)
    requires Matched(p.ledger)
    ensures Matched(q.ledger)
  {
    if steps == [] then p else StepPool(RunPool(p, steps[..|steps| - 1]), steps[|steps| - 1])
  }

  /** However the regions of any number of executions fall among each other, among the pops and among what else the
      scheduler does to other jobs: the ledger stays in order at every step. */
  lemma {:induction false} InterleavedStaysOrderly(s: Ledger, log: seq<Job>, steps: seq<PoolStep>)
    returns (rest: seq<Job>)
    requires Orderly(s, log) && NoCopies(s)
    ensures PoolInv(RunPool(Pool(s, map[]), steps), rest)
  {
    if steps == [] {
      rest := log;
    } else {
      var before := InterleavedStaysOrderly(s, log, steps[..|steps| - 1]);
      rest := StepKeepsPool(RunPool(Pool(s, map[]), steps[..|steps| - 1]), before, steps[|steps| - 1]);
    }
  }

  /** And each popped job ends, with the last region of its execution, as if that had run by itself from the moment the
      job was handed out: FateExactly holds of it. */
  lemma InterleavedFate(s: Ledger, log: seq<Job>, steps: seq<PoolStep>, id: string)
    requires Orderly(s, log) && NoCopies(s)
    requires var p := RunPool(Pool(s, map[]), steps);
             Busy(p, id) && p.workers[id].done + 1 == |PlanOf(id, p.workers[id])|
    ensures var p := RunPool(Pool(s, map[]), steps);
            var w := p.workers[id];
            Partition(w.at) && InHand(w.at, id)
            && SameStanding(Execute(w.at, id, w.target, w.mayShed, w.answers), StepPool(p, Advance(id)).ledger, id)
  {
    var p := RunPool(Pool(s, map[]), steps);
    var rest := InterleavedStaysOrderly(s, log, steps);
    assert WorkerOk(p, id);
    AdvanceKeepsStanding(p, rest, id);
    var w, ops := p.workers[id], PlanOf(id, p.workers[id]);
    assert ops[..|ops|] == ops;
    PlanIsExecute(w.at, id, w.target, w.mayShed, w.answers);
  }

  // ---------------------------------------------------------------- the workers' counter

  const MAX_WORKERS := 20

  /** The jobs without a target, as the workers of one batch deal with them: a worker that has started looks at the
      counter of jobs offered to peers, and if that is below the quota adds one to it, in two separate steps. */
  datatype Workers = Workers(started: nat, looking: nat, passed: nat, leaving: nat, count: nat)

  datatype WorkStep = StartWorker | LoadCount | AddOne | FreeSlot

  const IDLE := Workers(0, 0, 0, 0, 0)

  function Work(w: Workers, limit: nat, quota: nat, step: WorkStep): Workers {
    match step
    case StartWorker =>
      if w.started < limit && w.looking + w.passed + w.leaving < MAX_WORKERS
      then w.(started := w.started + 1, looking := w.looking + 1) else w
    case LoadCount =>
      if w.looking == 0 then w
      else if w.count < quota then w.(looking := w.looking - 1, passed := w.passed + 1)
      else w.(looking := w.looking - 1, leaving := w.leaving + 1)
    case AddOne =>
      if w.passed == 0 then w else w.(passed := w.passed - 1, leaving := w.leaving + 1, count := w.count + 1)
    case FreeSlot => if w.leaving == 0 then w else w.(leaving := w.leaving - 1)
  }

  function WorkAll(w: Workers, limit: nat, quota: nat, steps: seq<WorkStep>): Workers {
    if steps == [] then w else Work(WorkAll(w, limit, quota, steps[..|steps| - 1]), limit, quota, steps[|steps| - 1])
  }

  /** Nobody is turned away after having passed: those who have are still to be counted. */
  ghost predicate WithinOvershoot(w: Workers, limit: nat, quota: nat) {
    && w.looking + w.passed + w.leaving <= MAX_WORKERS && w.count + w.passed + w.looking <= w.started <= limit
    && (w.count + w.passed > 0 ==> w.count + w.passed < quota + MAX_WORKERS)
  }

  lemma {:induction false} WorkStaysWithinOvershoot(limit: nat, quota: nat, steps: seq<WorkStep>)
    ensures WithinOvershoot(WorkAll(IDLE, limit, quota, steps), limit, quota)
  {
    if steps != [] {
      WorkStaysWithinOvershoot(limit, quota, steps[..|steps| - 1]);
    }
  }

  ghost predicate Reached(w: Workers, limit: nat, quota: nat) {
    exists steps :: WorkAll(IDLE, limit, quota, steps) == w
  }

  lemma ReachedStep(w: Workers, limit: nat, quota: nat, step: WorkStep)
    requires Reached(w, limit, quota)
    ensures Reached(Work(w, limit, quota, step), limit, quota)
  {
    var steps :| WorkAll(IDLE, limit, quota, steps) == w;
    assert (steps + [step])[..|steps|] == steps;
    assert WorkAll(IDLE, limit, quota, steps + [step]) == Work(w, limit, quota, step);
  }

  /** One worker after the other. */
  lemma {:induction false} OneByOne(n: nat, limit: nat, quota: nat)
    requires n <= limit && n <= quota
    ensures Reached(Workers(n, 0, 0, 0, n), limit, quota)
  {
    if n == 0 {
      assert WorkAll(IDLE, limit, quota, []) == IDLE;
    } else {
      OneByOne(n - 1, limit, quota);
      var w := Workers(n - 1, 0, 0, 0, n - 1);
      ReachedStep(w, limit, quota, StartWorker);
      ReachedStep(w.(started := n, looking := 1), limit, quota, LoadCount);
      ReachedStep(w.(started := n, passed := 1), limit, quota, AddOne);
      ReachedStep(w.(started := n, leaving := 1, count := n), limit, quota, FreeSlot);
    }
  }

  /** Then all workers look before any of them adds. */
  lemma {:induction false} AllLook(n: nat, m: nat, limit: nat, quota: nat)
    requires n + m <= limit && n < quota && m <= MAX_WORKERS
    ensures Reached(Workers(n + m, 0, m, 0, n), limit, quota)
  {
    if m == 0 {
      OneByOne(n, limit, quota);
    } else {
      AllLook(n, m - 1, limit, quota);
      ReachedStep(Workers(n + m - 1, 0, m - 1, 0, n), limit, quota, StartWorker);
      ReachedStep(Workers(n + m, 1, m - 1, 0, n), limit, quota, LoadCount);
    }
  }

  lemma {:induction false} AllAdd(n: nat, m: nat, k: nat, limit: nat, quota: nat)
    requires n + m <= limit && n < quota && m <= MAX_WORKERS && k <= m
    ensures Reached(Workers(n + m, 0, m - k, k, n + k), limit, quota)
  {
    if k == 0 {
      AllLook(n, m, limit, quota);
    } else {
      AllAdd(n, m, k - 1, limit, quota);
      ReachedStep(Workers(n + m, 0, m - k + 1, k - 1, n + k - 1), limit, quota, AddOne);
    }
  }

  lemma OfferedReachable(limit: nat, quota: nat, n: nat) returns (steps: seq<WorkStep>)
    requires quota > 0 && n <= limit && n < quota + MAX_WORKERS
    ensures WorkAll(IDLE, limit, quota, steps).count == n
  {
    if n <= quota {
      OneByOne(n, limit, quota);
      steps :| WorkAll(IDLE, limit, quota, steps) == Workers(n, 0, 0, 0, n);
    } else {
      var m := n - quota + 1;
      AllAdd(quota - 1, m, m, limit, quota);
      assert Reached(Workers(n, 0, 0, m, n), limit, quota);
      steps :| WorkAll(IDLE, limit, quota, steps) == Workers(n, 0, 0, m, n);
    }
  }

  /** The numbers of jobs that a batch can come to offer to its peers: up to the limit of the batch, and beyond the
      quota by as many as there are workers, less one. */
  lemma QuotaOvershotExactly(limit: nat, quota: nat, n: nat)
    requires quota > 0
    ensures (exists steps :: WorkAll(IDLE, limit, quota, steps).count == n) <==> n <= limit && n < quota + MAX_WORKERS
  {
    forall steps ensures WorkAll(IDLE, limit, quota, steps).count <= limit
                         && WorkAll(IDLE, limit, quota, steps).count < quota + MAX_WORKERS {
      WorkStaysWithinOvershoot(limit, quota, steps);
    }
    if n <= limit && n < quota + MAX_WORKERS {
      var steps := OfferedReachable(limit, quota, n);
    }
  }
}
