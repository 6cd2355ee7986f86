/** The scheduler's job life cycle: internal/scheduler/states/state.go keeps every known job in a map, and its id in the
    packing queue, among the assigned ids or among the completed ones. */
module SchedulerState {
  import opened ArbiterQueue
  import opened Codec
  import opened Wrappers

  datatype Status = Pending | Running | Completed | Failed

  class Job {
    const id: string
    const priority: int
    const cpu: int
    const mem: int
    var status: Status
    var assignedClusterId: string
    var response: seq<byte>

    constructor (id: string, priority: int, cpu: int, mem: int)
      ensures this.id == id && this.priority == priority && this.cpu == cpu && this.mem == mem
      ensures assignedClusterId == ""
    {
      this.id, this.priority, this.cpu, this.mem := id, priority, cpu, mem;
      status, assignedClusterId, response := Pending, "", [];
    }
  }

  const PACKING := "packing-in-progress"

  const JOB_KEYS := Keys((j: Job) => j.id, (j: Job) => j.priority, (j: Job) => j.cpu, (j: Job) => j.mem)

  /** What a job says of itself. */
  datatype Mark = Mark(status: Status, cluster: string)

  datatype Ledger = Ledger(jobs: map<string, Job>, marks: map<string, Mark>, pending: Lazy<Job>, placed: set<string>,
                           completed: set<string>)

  const NO_JOBS := Ledger(map[], map[], Empty(), {}, {})

  // ---------------------------------------------------------------- the operations, on values

  /** `cluster` is what the job object carries; AppendJob does not reset it. */
  function Append(s: Ledger, job: Job, cluster: string): Ledger {
    s.(jobs := s.jobs[job.id := job], marks := s.marks[job.id := Mark(Pending, cluster)],
       pending := PushOn(JOB_KEYS, s.pending, job))
  }

  function NextPending(s: Ledger, cpu: int, mem: int): (Ledger, Option<Job>) {
    var (q, job) := Pop(JOB_KEYS, s.pending, Fits(JOB_KEYS, cpu, mem));
    if job.None? then (s.(pending := q), None) else (TakenBy(s, q, job.value), job)
  }

  /** The popped object is marked, which is the one in the map unless that has been replaced meanwhile. */
  function TakenBy(s: Ledger, q: Lazy<Job>, job: Job): Ledger {
    s.(pending := q, placed := s.placed + {job.id},
       marks := if job.id in s.jobs && s.jobs[job.id] == job then s.marks[job.id := Mark(Running, PACKING)]
                else s.marks)
  }

  function Assign(s: Ledger, id: string, cluster: string): (Ledger, bool) {
    if id !in s.jobs then (s, false)
    else (s.(pending := RemoveFrom(s.pending, id), placed := s.placed + {id},
             marks := s.marks[id := Mark(Running, cluster)]), true)
  }

  function Complete(s: Ledger, id: string, success: bool): (Ledger, bool)
    requires s.marks.Keys == s.jobs.Keys
  {
    if id !in s.jobs then (s, false)
    else (s.(pending := RemoveFrom(s.pending, id), placed := s.placed - {id}, completed := s.completed + {id},
             marks := s.marks[id := s.marks[id].(status := if success then Completed else Failed)]), true)
  }

  function Unassign(s: Ledger, id: string): Ledger {
    if id !in s.jobs || id in s.completed then s
    else s.(pending := PushOn(JOB_KEYS, s.pending, s.jobs[id]), placed := s.placed - {id},
            marks := s.marks[id := Mark(Pending, "")])
  }

  function Purge(s: Ledger, id: string): Ledger {
    if id !in s.jobs then s
    else Ledger(s.jobs - {id}, s.marks - {id}, RemoveFrom(s.pending, id), s.placed - {id}, s.completed - {id})
  }

  // ---------------------------------------------------------------- the partition

  /** The set that a known id is in, and what the job says of itself, agree. */
  ghost predicate InOneSet(s: Ledger, id: string)
    requires id in s.marks
  {
    match s.marks[id].status
    case Pending => id in s.pending.items && id !in s.placed && id !in s.completed
    case Running => id !in s.pending.items && id in s.placed && id !in s.completed
    case _ => id !in s.pending.items && id !in s.placed && id in s.completed
  }

  /** Every known id is pending, assigned or completed, and only one of these, as its status says; nothing else is. */
  ghost predicate Partition(s: Ledger) {
    && s.marks.Keys == s.jobs.Keys
    && s.pending.items.Keys <= s.jobs.Keys && s.placed <= s.jobs.Keys && s.completed <= s.jobs.Keys
    && (forall id :: id in s.jobs ==> s.jobs[id].id == id && InOneSet(s, id))
    && (forall id :: id in s.pending.items ==> s.pending.items[id] == s.jobs[id])
  }

  /** The partition, over a queue that stands for these items. */
  ghost predicate Orderly(s: Ledger, log: seq<Job>) {
    Partition(s) && Represents(JOB_KEYS, s.pending, log)
  }

  datatype LedgerOp =
    | AppendJob(job: Job, cluster: string)
    | NextPendingJob(cpu: int, mem: int)
    | AssignJob(id: string, cluster: string)
    | CompleteJob(id: string, success: bool)
    | UnassignJob(id: string)
    | PurgeJob(id: string)

  function StepLedger(s: Ledger, op: LedgerOp): Ledger
    requires s.marks.Keys == s.jobs.Keys
  {
    match op
    case AppendJob(job, cluster) => Append(s, job, cluster)
    case NextPendingJob(cpu, mem) => NextPending(s, cpu, mem).0
    case AssignJob(id, cluster) => Assign(s, id, cluster).0
    case CompleteJob(id, success) => Complete(s, id, success).0
    case UnassignJob(id) => Unassign(s, id)
    case PurgeJob(id) => Purge(s, id)
  }

  /** What the callers have to see to: an appended id is not already further on, nor a forgotten copy of a removed one;
      an assigned one is not completed; an unassigned one has left no copy in the queue when it was assigned. */
  predicate Proper(s: Ledger, op: LedgerOp) {
    match op
    case AppendJob(job, _) => job.id !in s.placed && job.id !in s.completed && Tame(JOB_KEYS, s.pending, job)
    case AssignJob(id, _) => id in s.jobs ==> id !in s.completed
    case UnassignJob(id) => id in s.jobs && id in s.placed ==> !HasCopy(JOB_KEYS, s.pending, id)
    case _ => true
  }

  /** What is pending after a step, in the order in which it was pushed. */
  function StepLog(s: Ledger, log: seq<Job>, op: LedgerOp): seq<Job> {
    match op
    case AppendJob(job, _) => if job.id in s.pending.items then log else log + [job]
    case NextPendingJob(cpu, mem) => Take(JOB_KEYS, log, Fits(JOB_KEYS, cpu, mem)).0
    case AssignJob(id, _) => if id in s.jobs then Without(JOB_KEYS, log, id) else log
    case CompleteJob(id, _) => if id in s.jobs then Without(JOB_KEYS, log, id) else log
    case UnassignJob(id) =>
      if id !in s.jobs || id in s.completed || id in s.pending.items then log else log + [s.jobs[id]]
    case PurgeJob(id) => if id in s.jobs then Without(JOB_KEYS, log, id) else log
  }

  /** The queue part of every step. */
  lemma StepKeepsQueue(s: Ledger, log: seq<Job>, op: LedgerOp)
    requires Partition(s) && Represents(JOB_KEYS, s.pending, log) && Proper(s, op)
    ensures Represents(JOB_KEYS, StepLedger(s, op).pending, StepLog(s, log, op))
  {
    match op {
      case AppendJob(job, _) => TamePush(JOB_KEYS, s.pending, log, job);
      case NextPendingJob(cpu, mem) => PopRefines(JOB_KEYS, s.pending, log, Fits(JOB_KEYS, cpu, mem));
      case AssignJob(id, _) => RemoveRepresents(JOB_KEYS, s.pending, log, id);
      case CompleteJob(id, _) => RemoveRepresents(JOB_KEYS, s.pending, log, id);
      case UnassignJob(id) =>
        if id in s.jobs && id !in s.completed {
          TamePush(JOB_KEYS, s.pending, log, s.jobs[id]);
        }
      case PurgeJob(id) => RemoveRepresents(JOB_KEYS, s.pending, log, id);
    }
  }

  lemma NextPendingKeepsPartition(s: Ledger, log: seq<Job>, cpu: int, mem: int)
    requires Partition(s) && Represents(JOB_KEYS, s.pending, log)
    ensures Partition(NextPending(s, cpu, mem).0)
  {
    var fits := Fits(JOB_KEYS, cpu, mem);
    PopRefines(JOB_KEYS, s.pending, log, fits);
    PopShrinks(JOB_KEYS, s.pending, fits);
    TakenIsIndexed(JOB_KEYS, s.pending.items, log, fits);
    var (q, job) := Pop(JOB_KEYS, s.pending, fits);
    if job.Some? {
      TakingKeepsPartition(s, q, job.value);
    } else {
      OtherQueueKeepsPartition(s, q);
    }
  }

  lemma TakingKeepsPartition(s: Ledger, q: Lazy<Job>, job: Job)
    requires Partition(s) && job.id in s.pending.items && s.pending.items[job.id] == job
    requires q.items == s.pending.items - {job.id}
    ensures Partition(TakenBy(s, q, job))
  {
    var t := TakenBy(s, q, job);
    forall id | id in t.jobs ensures InOneSet(t, id) {
      assert InOneSet(s, id);
    }
  }

  lemma OtherQueueKeepsPartition(s: Ledger, q: Lazy<Job>)
    requires Partition(s) && q.items == s.pending.items
    ensures Partition(s.(pending := q))
  {
    forall id | id in s.jobs ensures InOneSet(s.(pending := q), id) {
      assert InOneSet(s, id);
    }
  }

  lemma OtherStepsKeepPartition(s: Ledger, op: LedgerOp)
    requires Partition(s) && !op.NextPendingJob? && Proper(s, op)
    ensures Partition(StepLedger(s, op))
  {
    var t := StepLedger(s, op);
    forall id | id in t.jobs ensures InOneSet(t, id) {
      assert id in s.jobs ==> InOneSet(s, id);
    }
  }

  /** A step keeps the partition over a faithful queue exactly when it is proper. */
  lemma StepStaysOrderlyExactly(s: Ledger, log: seq<Job>, op: LedgerOp)
    requires Orderly(s, log)
    ensures Proper(s, op) <==> Partition(StepLedger(s, op)) && Faithful(JOB_KEYS, StepLedger(s, op).pending)
    ensures Proper(s, op) ==> Orderly(StepLedger(s, op), StepLog(s, log, op))
  {
    var t := StepLedger(s, op);
    if Proper(s, op) {
      StepKeepsQueue(s, log, op);
      if op.NextPendingJob? {
        NextPendingKeepsPartition(s, log, op.cpu, op.mem);
      } else {
        OtherStepsKeepPartition(s, op);
      }
      RepresentedIsFaithful(JOB_KEYS, t.pending, StepLog(s, log, op));
    } else if op.AppendJob? && op.job.id !in s.placed && op.job.id !in s.completed {
      PushStaysFaithfulExactly(JOB_KEYS, s.pending, log, op.job);
    } else if op.UnassignJob? {
      PushStaysFaithfulExactly(JOB_KEYS, s.pending, log, s.jobs[op.id]);
    } else {
      assert !InOneSet(t, if op.AppendJob? then op.job.id else op.id);
    }
  }

  // ---------------------------------------------------------------- runs

  /** The rule that keeps every later step proper: only fresh ids are appended, and only ids that have already left the
      queue, and not come to an end, are assigned. */
  predicate Disciplined(s: Ledger, op: LedgerOp) {
    match op
    case AppendJob(job, _) => job.id !in s.jobs && !HasCopy(JOB_KEYS, s.pending, job.id)
    case AssignJob(id, _) => id in s.jobs ==> id !in s.pending.items && id !in s.completed
    case _ => true
  }

  ghost predicate NoCopies(s: Ledger) {
    forall id :: id in s.placed ==> !HasCopy(JOB_KEYS, s.pending, id)
  }

  lemma DisciplinedIsProper(s: Ledger, op: LedgerOp)
    requires Partition(s) && NoCopies(s) && Disciplined(s, op)
    ensures Proper(s, op)
  {
  }

  lemma StepKeepsNoCopies(s: Ledger, log: seq<Job>, op: LedgerOp)
    requires Orderly(s, log) && NoCopies(s) && Disciplined(s, op)
    ensures NoCopies(StepLedger(s, op))
  {
    if op.NextPendingJob? {
      NextPendingLeavesNoCopies(s, log, op.cpu, op.mem);
    } else {
      OtherStepsLeaveNoCopies(s, op);
    }
  }

  lemma NextPendingLeavesNoCopies(s: Ledger, log: seq<Job>, cpu: int, mem: int)
    requires Orderly(s, log) && NoCopies(s)
    ensures NoCopies(NextPending(s, cpu, mem).0)
  {
    var fits := Fits(JOB_KEYS, cpu, mem);
    PopCleans(JOB_KEYS, s.pending, fits);
    PopShrinks(JOB_KEYS, s.pending, fits);
    PopRefines(JOB_KEYS, s.pending, log, fits);
    var (q, job) := Pop(JOB_KEYS, s.pending, fits);
    if !q.dirty {
      CleanMeansNoCopies(NextPending(s, cpu, mem).0, Take(JOB_KEYS, log, fits).0);
    }
  }

  lemma CleanMeansNoCopies(s: Ledger, log: seq<Job>)
    requires Represents(JOB_KEYS, s.pending, log) && !s.pending.dirty
    requires forall id :: id in s.placed ==> id !in s.pending.items
    ensures NoCopies(s)
  {
    forall id | id in s.placed ensures !HasCopy(JOB_KEYS, s.pending, id) {
      CleanHasNoCopies(JOB_KEYS, s.pending, log, id);
    }
  }

  lemma OtherStepsLeaveNoCopies(s: Ledger, op: LedgerOp)
    requires Partition(s) && NoCopies(s) && !op.NextPendingJob? && Disciplined(s, op)
    ensures NoCopies(StepLedger(s, op))
  {
    if op.AssignJob? && op.id in s.jobs {
      assert InOneSet(s, op.id);
    }
  }

  function RunLedger(ops: seq<LedgerOp>): (s: Ledger)
    ensures s.marks.Keys == s.jobs.Keys
  {
    if ops == [] then NO_JOBS else StepLedger(RunLedger(ops[..|ops| - 1]), ops[|ops| - 1])
  }

  function RunLog(ops: seq<LedgerOp>): seq<Job> {
    if ops == [] then [] else StepLog(RunLedger(ops[..|ops| - 1]), RunLog(ops[..|ops| - 1]), ops[|ops| - 1])
  }

  ghost predicate DisciplinedRun(ops: seq<LedgerOp>) {
    forall i :: 0 <= i < |ops| ==> Disciplined(RunLedger(ops[..i]), ops[i])
  }

  /** In every disciplined run, at every step, each known job is pending, assigned or completed, in only one of these
      and with the status that goes with it; and the queue stands for exactly the pending ones. */
  lemma {:induction false} RunStaysOrderly(ops: seq<LedgerOp>)
    requires DisciplinedRun(ops)
    ensures Orderly(RunLedger(ops), RunLog(ops)) && NoCopies(RunLedger(ops))
  {
    if ops == [] {
      assert Represents(JOB_KEYS, NO_JOBS.pending, []);
    } else {
      var init, last := ops[..|ops| - 1], ops[|ops| - 1];
      forall i | 0 <= i < |init| ensures Disciplined(RunLedger(init[..i]), init[i]) {
        assert init[..i] == ops[..i];
      }
      RunStaysOrderly(init);
      DisciplinedIsProper(RunLedger(init), last);
      StepStaysOrderlyExactly(RunLedger(init), RunLog(init), last);
      StepKeepsNoCopies(RunLedger(init), RunLog(init), last);
    }
  }

  // ---------------------------------------------------------------- what a job's status says

  /** The outcome that was last reported of a job since it was last appended or purged. */
  function LastReport(ops: seq<LedgerOp>, id: string): Option<bool> {
    if ops == [] then None
    else
      match ops[|ops| - 1]
      case CompleteJob(other, success) => if other == id then Some(success) else LastReport(ops[..|ops| - 1], id)
      case AppendJob(job, _) => if job.id == id then None else LastReport(ops[..|ops| - 1], id)
      case PurgeJob(other) => if other == id then None else LastReport(ops[..|ops| - 1], id)
      case _ => LastReport(ops[..|ops| - 1], id)
  }

  /** A known job is completed exactly when a report of it has come in, and its status is what that said. */
  ghost predicate SaysLastReport(s: Ledger, id: string, report: Option<bool>)
    requires s.marks.Keys == s.jobs.Keys
  {
    id in s.jobs ==>
      && (id in s.completed <==> report.Some?)
      && (s.marks[id].status == Completed <==> report == Some(true))
      && (s.marks[id].status == Failed <==> report == Some(false))
  }

  lemma StepSaysLastReport(s: Ledger, log: seq<Job>, op: LedgerOp, id: string, ops: seq<LedgerOp>)
    requires Orderly(s, log) && NoCopies(s) && Disciplined(s, op) && SaysLastReport(s, id, LastReport(ops, id))
    ensures SaysLastReport(StepLedger(s, op), id, LastReport(ops + [op], id))
  {
    assert (ops + [op])[..|ops|] == ops;
    if op.NextPendingJob? {
      PopSaysLastReport(s, log, op.cpu, op.mem, id, LastReport(ops, id));
    } else if id in s.jobs {
      assert InOneSet(s, id);
    }
  }

  lemma PopSaysLastReport(s: Ledger, log: seq<Job>, cpu: int, mem: int, id: string, report: Option<bool>)
    requires Orderly(s, log) && SaysLastReport(s, id, report)
    ensures SaysLastReport(NextPending(s, cpu, mem).0, id, report)
  {
    var (q, job) := Pop(JOB_KEYS, s.pending, Fits(JOB_KEYS, cpu, mem));
    PopRefines(JOB_KEYS, s.pending, log, Fits(JOB_KEYS, cpu, mem));
    TakenIsIndexed(JOB_KEYS, s.pending.items, log, Fits(JOB_KEYS, cpu, mem));
    if job.Some? {
      TakingSaysLastReport(s, q, job.value, id, report);
    }
  }

  lemma TakingSaysLastReport(s: Ledger, q: Lazy<Job>, job: Job, id: string, report: Option<bool>)
    requires Partition(s) && SaysLastReport(s, id, report) && job.id in s.pending.items
    ensures SaysLastReport(TakenBy(s, q, job), id, report)
  {
    assert InOneSet(s, job.id);
  }

  /** In every disciplined run: a known job has status Completed exactly when the last report of it, since it was
      appended, said success, Failed exactly when that said failure, and is among the completed exactly when there has
      been one. */
  lemma {:induction false} StatusIsLastReport(ops: seq<LedgerOp>, id: string)
    requires DisciplinedRun(ops)
    ensures SaysLastReport(RunLedger(ops), id, LastReport(ops, id))
  {
    if ops != [] {
      var init, last := ops[..|ops| - 1], ops[|ops| - 1];
      forall i | 0 <= i < |init| ensures Disciplined(RunLedger(init[..i]), init[i]) {
        assert init[..i] == ops[..i];
      }
      StatusIsLastReport(init, id);
      RunStaysOrderly(init);
      StepSaysLastReport(RunLedger(init), RunLog(init), last, id, init);
      assert init + [last] == ops;
    }
  }

  /** A report changes nothing else: neither the job, nor the cluster it was assigned to, nor any other job. */
  lemma ReportTouchesStatusOnly(s: Ledger, id: string, success: bool)
    requires s.marks.Keys == s.jobs.Keys && id in s.jobs
    ensures var t := Complete(s, id, success).0;
            && t.jobs == s.jobs && t.marks.Keys == s.marks.Keys && t.marks[id].cluster == s.marks[id].cluster
            && (forall other :: other in s.marks && other != id ==> t.marks[other] == s.marks[other])
            && t.placed == s.placed - {id} && t.completed == s.completed + {id}
            && t.pending.items == s.pending.items - {id}
  {
  }

  /** An id that is not known is neither assigned nor completed, and nothing changes; a known one always is. */
  lemma UnknownIsRefusedExactly(s: Ledger, id: string, cluster: string, success: bool)
    requires s.marks.Keys == s.jobs.Keys
    ensures (Assign(s, id, cluster).1 <==> id in s.jobs) && (Complete(s, id, success).1 <==> id in s.jobs)
    ensures id !in s.jobs ==>
              && Assign(s, id, cluster).0 == s && Complete(s, id, success).0 == s
              && Unassign(s, id) == s && Purge(s, id) == s
  {
  }

  /** A job that comes in is pending; what it says of a cluster is left as it was. */
  lemma AppendedIsPending(s: Ledger, job: Job, cluster: string)
    ensures var t := Append(s, job, cluster);
            && t.jobs == s.jobs[job.id := job] && t.marks == s.marks[job.id := Mark(Pending, cluster)]
            && t.pending.items == s.pending.items[job.id := job] && t.placed == s.placed && t.completed == s.completed
  {
  }

  // ---------------------------------------------------------------- discipline, seen from outside

  function AppendedIds(ops: seq<LedgerOp>): set<string> {
    if ops == [] then {}
    else
      AppendedIds(ops[..|ops| - 1]) + match ops[|ops| - 1] case AppendJob(job, _) => {job.id} case _ => {}
  }

  ghost predicate AppendedOnce(ops: seq<LedgerOp>) {
    forall i, j :: 0 <= i < j < |ops| && ops[i].AppendJob? && ops[j].AppendJob? ==> ops[i].job.id != ops[j].job.id
  }

  /** Only what is neither pending nor completed is assigned, or what nobody knows. */
  ghost predicate AssignedInTime(ops: seq<LedgerOp>) {
    forall i :: 0 <= i < |ops| && ops[i].AssignJob? ==> Disciplined(RunLedger(ops[..i]), ops[i])
  }

  /** The state knows no other ids, and the queue holds no copies of others. */
  ghost predicate KnowsOnly(s: Ledger, ids: set<string>) {
    && (forall id :: id in s.jobs ==> id in ids && s.jobs[id].id == id)
    && forall j :: j in s.pending.order ==> j.id in ids
  }

  lemma StepKnowsOnly(s: Ledger, op: LedgerOp, ids: set<string>)
    requires s.marks.Keys == s.jobs.Keys && KnowsOnly(s, ids) && (op.AppendJob? ==> op.job.id in ids)
    ensures KnowsOnly(StepLedger(s, op), ids)
  {
    if op.NextPendingJob? {
      forall j | j in StepLedger(s, op).pending.order ensures j.id in ids {
        PoppedFromOrder(JOB_KEYS, s.pending, Fits(JOB_KEYS, op.cpu, op.mem), j);
      }
    }
  }

  lemma {:induction false} RunKnowsOnlyAppended(ops: seq<LedgerOp>)
    ensures KnowsOnly(RunLedger(ops), AppendedIds(ops))
    ensures forall id :: id in AppendedIds(ops) ==>
              exists k :: 0 <= k < |ops| && ops[k].AppendJob? && ops[k].job.id == id
  {
    if ops != [] {
      RunKnowsOnlyAppended(ops[..|ops| - 1]);
      StepKnowsOnly(RunLedger(ops[..|ops| - 1]), ops[|ops| - 1], AppendedIds(ops));
      assert forall k :: 0 <= k < |ops| - 1 ==> ops[..|ops| - 1][k] == ops[k];
    }
  }

  /** When no id is appended twice, and assignments come in time, the run is disciplined, whatever the queue holds. */
  lemma AppendedOnceIsDisciplined(ops: seq<LedgerOp>)
    requires AppendedOnce(ops) && AssignedInTime(ops)
    ensures DisciplinedRun(ops)
  {
    forall i | 0 <= i < |ops| ensures Disciplined(RunLedger(ops[..i]), ops[i]) {
      if ops[i].AppendJob? {
        RunKnowsOnlyAppended(ops[..i]);
        assert ops[i].job.id !in AppendedIds(ops[..i]);
      }
    }
  }

  /** A completed job is never revived: nothing but a purge takes it out of the completed ones, and an UnassignJob that
      comes late changes nothing at all. */
  lemma CompletedForGood(s: Ledger, log: seq<Job>, id: string, op: LedgerOp)
    requires Orderly(s, log) && NoCopies(s) && id in s.completed && Disciplined(s, op) && op != PurgeJob(id)
    ensures Unassign(s, id) == s
    ensures var t := StepLedger(s, op);
            id in t.completed && id !in t.placed && id !in t.pending.items && id in t.jobs
  {
    assert InOneSet(s, id);
    DisciplinedIsProper(s, op);
    StepStaysOrderlyExactly(s, log, op);
    assert InOneSet(StepLedger(s, op), id);
  }

  /** Without the discipline, assigning a job that has completed makes it assigned and completed at once. */
  lemma AssigningCompletedBreaksPartition(s: Ledger, log: seq<Job>, id: string, cluster: string)
    requires Orderly(s, log) && id in s.completed
    ensures var t := Assign(s, id, cluster).0;
            id in t.placed && id in t.completed && t.marks[id].status == Running && !Partition(t)
  {
    assert !InOneSet(Assign(s, id, cluster).0, id);
  }

  // ---------------------------------------------------------------- the state object

  class State {
    var jobs: map<string, Job>
    const unassignedJobs: Queue<Job>
    var assignedJobs: set<string>
    var completedJobs: set<string>

    function Marks(): map<string, Mark>
      reads this, jobs.Values
    {
      map id | id in jobs :: Mark(jobs[id].status, jobs[id].assignedClusterId)
    }

    function Now(): (s: Ledger)
      reads this, jobs.Values, unassignedJobs
      ensures s.marks.Keys == s.jobs.Keys
    {
      Ledger(jobs, Marks(), unassignedJobs.State(), assignedJobs, completedJobs)
    }

    ghost predicate Valid()
      reads this
    {
      unassignedJobs.keys == JOB_KEYS && forall id :: id in jobs ==> jobs[id].id == id
    }

    constructor ()
      ensures Valid() && Now() == NO_JOBS && fresh(unassignedJobs)
    {
      unassignedJobs := new Queue(JOB_KEYS);
      jobs, assignedJobs, completedJobs := map[], {}, {};
    }

    method AppendJob(job: Job)
      requires Valid()
      modifies this, unassignedJobs, job`status
      ensures Valid() && Now() == Append(old(Now()), job, old(job.assignedClusterId))
    {
      job.status := Pending;
      jobs := jobs[job.id := job];
      unassignedJobs.Push(job);
      assert Marks() == old(Marks())[job.id := Mark(Pending, old(job.assignedClusterId))];
    }

    /** A popped object is marked even if it is no longer the one in the map. */
    method NextPendingJob(availCpu: int, availMem: int) returns (job: Option<Job>)
      requires Valid()
      modifies this, unassignedJobs, unassignedJobs.order
      ensures Valid() && (Now(), job) == NextPending(old(Now()), availCpu, availMem)
      ensures job.Some? ==> job.value.status == Running && job.value.assignedClusterId == PACKING
    {
      ghost var s, q := Now(), unassignedJobs.State();
      job := unassignedJobs.PopBestFit(availCpu, availMem);
      assert Now() == s.(pending := unassignedJobs.State());
      if job.Some? {
        PoppedFromOrder(JOB_KEYS, q, Fits(JOB_KEYS, availCpu, availMem), job.value);
        TakePopped(job.value);
      }
    }

    method TakePopped(job: Job)
      requires Valid()
      modifies this, job
      ensures Valid() && Now() == TakenBy(old(Now()), old(unassignedJobs.State()), job)
      ensures job.status == Running && job.assignedClusterId == PACKING
    {
      assignedJobs := assignedJobs + {job.id};
      job.assignedClusterId := PACKING;
      job.status := Running;
      ghost var known := job.id in jobs && jobs[job.id] == job;
      assert Marks() == if known then old(Marks())[job.id := Mark(Running, PACKING)] else old(Marks());
    }

    method AssignJob(jobId: string, clusterId: string) returns (ok: bool)
      requires Valid()
      modifies this, unassignedJobs, jobs.Values
      ensures Valid() && (Now(), ok) == Assign(old(Now()), jobId, clusterId)
    {
      ghost var marks := Marks();
      if jobId !in jobs {
        return false;
      }
      var job := jobs[jobId];
      unassignedJobs.RemoveByID(jobId);
      assignedJobs := assignedJobs + {jobId};
      job.assignedClusterId := clusterId;
      job.status := Running;
      ok := true;
      assert Marks() == marks[jobId := Mark(Running, clusterId)];
    }

    method CompleteJob(jobId: string, result: seq<byte>, success: bool) returns (ok: bool)
      requires Valid()
      modifies this, unassignedJobs, jobs.Values
      ensures Valid() && (Now(), ok) == Complete(old(Now()), jobId, success)
      ensures ok ==> jobs[jobId].response == result
    {
      ghost var marks := Marks();
      if jobId !in jobs {
        return false;
      }
      var job := jobs[jobId];
      assignedJobs := assignedJobs - {jobId};
      unassignedJobs.RemoveByID(jobId);
      completedJobs := completedJobs + {jobId};
      job.status := if success then Completed else Failed;
      job.response := result;
      ok := true;
      assert Marks() == marks[jobId := marks[jobId].(status := if success then Completed else Failed)];
    }

    method UnassignJob(jobId: string)
      requires Valid()
      modifies this, unassignedJobs, jobs.Values
      ensures Valid() && Now() == Unassign(old(Now()), jobId)
      ensures jobId in jobs && jobId !in completedJobs ==> jobs[jobId].response == []
    {
      if jobId !in jobs {
        return;
      }
      if jobId in completedJobs {
        return;
      }
      var job := jobs[jobId];
      assignedJobs := assignedJobs - {jobId};
      completedJobs := completedJobs - {jobId};
      job.status := Pending;
      job.response := [];
      job.assignedClusterId := "";
      assert completedJobs == old(completedJobs);
      unassignedJobs.Push(job);
    }

    method PurgeJob(jobId: string)
      requires Valid()
      modifies this, unassignedJobs
      ensures Valid() && Now() == Purge(old(Now()), jobId)
    {
      if jobId !in jobs {
        return;
      }
      jobs := jobs - {jobId};
      unassignedJobs.RemoveByID(jobId);
      assignedJobs := assignedJobs - {jobId};
      completedJobs := completedJobs - {jobId};
    }
  }
}
