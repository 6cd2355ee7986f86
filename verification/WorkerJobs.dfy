/** The worker's jobs: internal/cluster/scheduler/queue.go keeps them in a packing queue and a map of active jobs, and
    internal/cluster/scheduler/packer.go moves one at a time from the one to the other. */
module WorkerJobs {
  import opened ArbiterQueue
  import opened Codec
  import opened Wrappers

  datatype Image = Image(alias: string, cpu: int, mem: int, persistent: bool)

  class Job {
    const id: string
    const priority: int
    const image: Image
    var payload: seq<byte>
    var assignedContainerId: string
    var succeeded: bool

    constructor (id: string, priority: int, image: Image, payload: seq<byte>)
      ensures this.id == id && this.priority == priority && this.image == image
    {
      this.id, this.priority, this.image, this.payload := id, priority, image, payload;
      assignedContainerId, succeeded := "", false;
    }
  }

  const PACKING := "packing-in-progress"

  const JOB_KEYS := Keys((j: Job) => j.id, (j: Job) => j.priority, (j: Job) => j.image.cpu, (j: Job) => j.image.mem)

  /** `completed` is what has been sent to the Completed channel. */
  datatype Worker = Worker(pending: Lazy<Job>, active: map<string, Job>, completed: seq<Job>)

  // ---------------------------------------------------------------- the operations, on values

  function HasImageIn(free: set<string>): Job -> bool {
    (j: Job) => j.image.alias in free
  }

  function Activate(w: Worker, pending: Lazy<Job>, job: Job): Worker {
    w.(pending := pending, active := w.active[job.id := job])
  }

  /** Both pops have been made: the higher priority wins, the free image on ties, and the loser goes back. */
  function Settle(w: Worker, pending: Lazy<Job>, homogenous: Option<Job>, highest: Option<Job>): (Worker, Option<Job>) {
    if highest.Some? && (homogenous.None? || highest.value.priority > homogenous.value.priority) then
      (Activate(w, if homogenous.Some? then PushOn(JOB_KEYS, pending, homogenous.value) else pending, highest.value),
       highest)
    else if homogenous.Some? then
      (Activate(w, if highest.Some? then PushOn(JOB_KEYS, pending, highest.value) else pending, homogenous.value),
       homogenous)
    else (w.(pending := pending), None)
  }

  function NextBest(w: Worker, free: set<string>, cpu: int, mem: int): (Worker, Option<Job>) {
    var (q1, homogenous) := Pop(JOB_KEYS, w.pending, FitsAnd(JOB_KEYS, cpu, mem, HasImageIn(free)));
    var (q2, highest) := Pop(JOB_KEYS, q1, Fits(JOB_KEYS, cpu, mem));
    Settle(w, q2, homogenous, highest)
  }

  function Add(w: Worker, job: Job): (Worker, bool) {
    if job.id in w.active then (w, false) else (w.(pending := PushOn(JOB_KEYS, w.pending, job)), true)
  }

  function Drop(w: Worker, id: string): (Worker, bool) {
    if id in w.active then (w, false) else (w.(pending := RemoveFrom(w.pending, id)), true)
  }

  function Complete(w: Worker, id: string): (Worker, bool) {
    if id in w.active then (w.(active := w.active - {id}, completed := w.completed + [w.active[id]]), true)
    else (w, false)
  }

  function Rollback(w: Worker, id: string): (Worker, bool) {
    if id in w.active
    then (w.(active := w.active - {id}, pending := PushOn(JOB_KEYS, w.pending, w.active[id])), true)
    else (w, false)
  }

  // ---------------------------------------------------------------- the invariant

  /** Active jobs are filed under their ids, none of them is pending, and the queue holds no forgotten copy of one. */
  ghost predicate ActiveOk(pending: Lazy<Job>, active: map<string, Job>) {
    forall id :: id in active ==> active[id].id == id && id !in pending.items && !HasCopy(JOB_KEYS, pending, id)
  }

  ghost predicate WorkerInv(w: Worker, log: seq<Job>) {
    Represents(JOB_KEYS, w.pending, log) && ActiveOk(w.pending, w.active)
  }

  /** What a job gives up or gains in the comparison: priority, then an image that is already free, then memory. */
  predicate Preferred(free: set<string>, x: Job, y: Job) {
    || x.priority > y.priority
    || (x.priority == y.priority && x.image.alias in free && y.image.alias !in free)
    || (x.priority == y.priority && (x.image.alias in free <==> y.image.alias in free) && x.image.mem > y.image.mem)
  }

  predicate JobFits(j: Job, cpu: int, mem: int) {
    j.image.cpu <= cpu && j.image.mem <= mem
  }

  function Bag(job: Option<Job>): multiset<Job> {
    if job.Some? then multiset{job.value} else multiset{}
  }

  /** One pop: a job that it finds was there, and is the only one that has gone. */
  ghost predicate Popped(q: Lazy<Job>, log: seq<Job>, job: Option<Job>, r: Lazy<Job>, rest: seq<Job>) {
    && multiset(rest) + Bag(job) == multiset(log)
    && r.items.Keys <= q.items.Keys && (job.Some? ==> job.value.id in q.items && job.value.id !in r.items)
    && (!r.dirty || (r == q && log == []))
  }

  lemma PopTidies(q: Lazy<Job>, log: seq<Job>, fits: Job -> bool)
    requires Represents(JOB_KEYS, q, log)
    ensures var (r, job) := Pop(JOB_KEYS, q, fits);
            && Represents(JOB_KEYS, r, Take(JOB_KEYS, log, fits).0) && job == Take(JOB_KEYS, log, fits).1
            && Popped(q, log, job, r, Take(JOB_KEYS, log, fits).0)
  {
    PopRefines(JOB_KEYS, q, log, fits);
    PopIsCounted(q, log, fits);
  }

  lemma PopIsCounted(q: Lazy<Job>, log: seq<Job>, fits: Job -> bool)
    requires Represents(JOB_KEYS, q, log) && Pop(JOB_KEYS, q, fits).1 == Take(JOB_KEYS, log, fits).1
    ensures Popped(q, log, Pop(JOB_KEYS, q, fits).1, Pop(JOB_KEYS, q, fits).0, Take(JOB_KEYS, log, fits).0)
  {
    PopCleans(JOB_KEYS, q, fits);
    NothingLeft(JOB_KEYS, q, log);
    TakesTheBest(JOB_KEYS, log, fits);
    PopRefines(JOB_KEYS, q, log, fits);
  }

  /** A queue without forgotten copies. */
  ghost predicate Tidy(q: Lazy<Job>, log: seq<Job>) {
    Represents(JOB_KEYS, q, log) && forall id :: id !in q.items ==> !HasCopy(JOB_KEYS, q, id)
  }

  lemma CleanIsTidy(q: Lazy<Job>, log: seq<Job>)
    requires Represents(JOB_KEYS, q, log) && !q.dirty
    ensures Tidy(q, log)
  {
    forall id | id !in q.items ensures !HasCopy(JOB_KEYS, q, id) {
      CleanHasNoCopies(JOB_KEYS, q, log, id);
    }
  }

  lemma PushBack(q: Lazy<Job>, log: seq<Job>, back: Option<Job>)
    requires Tidy(q, log) && (back.Some? ==> back.value.id !in q.items)
    ensures var r := if back.Some? then PushOn(JOB_KEYS, q, back.value) else q;
            Tidy(r, if back.Some? then log + [back.value] else log)
  {
    if back.Some? {
      PushNew(JOB_KEYS, q, log, back.value);
    }
  }

  /** The loser of the comparison, if there are two. */
  function Loser(first: Option<Job>, second: Option<Job>): Option<Job> {
    if first.Some? && second.Some? then
      (if second.value.priority > first.value.priority then first else second)
    else None
  }

  /** What is still pending after NextBest: the loser is now the most recently pushed. */
  function StillPending(log: seq<Job>, free: set<string>, cpu: int, mem: int): seq<Job> {
    var (log1, homogenous) := Take(JOB_KEYS, log, FitsAnd(JOB_KEYS, cpu, mem, HasImageIn(free)));
    var (log2, highest) := Take(JOB_KEYS, log1, Fits(JOB_KEYS, cpu, mem));
    Returned(log2, Loser(homogenous, highest))
  }

  function Returned(log: seq<Job>, loser: Option<Job>): seq<Job> {
    if loser.Some? then log + [loser.value] else log
  }

  lemma SettledQueue(w: Worker, q: Lazy<Job>, x: Option<Job>, y: Option<Job>)
    ensures Settle(w, q, x, y).0.pending == if Loser(x, y).Some? then PushOn(JOB_KEYS, q, Loser(x, y).value) else q
  {
  }

  lemma SettleTidies(w: Worker, q: Lazy<Job>, log: seq<Job>, x: Option<Job>, y: Option<Job>)
    requires Tidy(q, log) && (Loser(x, y).Some? ==> Loser(x, y).value.id !in q.items)
    ensures Tidy(Settle(w, q, x, y).0.pending, Returned(log, Loser(x, y)))
  {
    PushBack(q, log, Loser(x, y));
    SettledQueue(w, q, x, y);
  }

  /** What Settle does to a worker whose queue has been popped twice. */
  lemma SettleKeepsInv(w: Worker, log: seq<Job>, x: Option<Job>, q1: Lazy<Job>, log1: seq<Job>, y: Option<Job>,
                       q2: Lazy<Job>, log2: seq<Job>)
    requires ActiveOk(w.pending, w.active) && Popped(w.pending, log, x, q1, log1) && Popped(q1, log1, y, q2, log2)
    requires Represents(JOB_KEYS, q2, log2) && log != []
    ensures WorkerInv(Settle(w, q2, x, y).0, Returned(log2, Loser(x, y)))
  {
    SettledIds(w, x, q1, y, q2);
    CleanIsTidy(q2, log2);
    SettleTidies(w, q2, log2, x, y);
    TidyActive(Settle(w, q2, x, y).0, Returned(log2, Loser(x, y)));
  }

  lemma SettleKeepsBag(w: Worker, log: seq<Job>, x: Option<Job>, q1: Lazy<Job>, log1: seq<Job>, y: Option<Job>,
                       q2: Lazy<Job>, log2: seq<Job>)
    requires Popped(w.pending, log, x, q1, log1) && Popped(q1, log1, y, q2, log2)
    ensures multiset(Returned(log2, Loser(x, y))) + Bag(Settle(w, q2, x, y).1) == multiset(log)
  {
  }

  /** As far as ids go. */
  lemma SettledIds(w: Worker, x: Option<Job>, q1: Lazy<Job>, y: Option<Job>, q2: Lazy<Job>)
    requires ActiveOk(w.pending, w.active) && q2.items.Keys <= q1.items.Keys <= w.pending.items.Keys
    requires x.Some? ==> x.value.id in w.pending.items && x.value.id !in q1.items
    requires y.Some? ==> y.value.id in q1.items && y.value.id !in q2.items
    ensures var after := Settle(w, q2, x, y).0;
            forall id :: id in after.active ==> after.active[id].id == id && id !in after.pending.items
  {
  }

  lemma TidyActive(w: Worker, log: seq<Job>)
    requires Tidy(w.pending, log) && forall id :: id in w.active ==> w.active[id].id == id && id !in w.pending.items
    ensures WorkerInv(w, log)
  {
  }

  /** NextBestJob takes exactly one job from the pending ones, if it takes any, and makes it active; all others stay
      pending, in spite of the second pop. */
  lemma NextBestKeepsInv(w: Worker, log: seq<Job>, free: set<string>, cpu: int, mem: int)
    requires WorkerInv(w, log)
    ensures var (after, job) := NextBest(w, free, cpu, mem);
            var rest := StillPending(log, free, cpu, mem);
            WorkerInv(after, rest) && multiset(rest) + Bag(job) == multiset(log)
  {
    var first, second := FitsAnd(JOB_KEYS, cpu, mem, HasImageIn(free)), Fits(JOB_KEYS, cpu, mem);
    NothingLeft(JOB_KEYS, w.pending, log);
    if log == [] {
      assert Pop(JOB_KEYS, w.pending, first) == (w.pending, None)
             && Pop(JOB_KEYS, w.pending, second) == (w.pending, None);
    } else {
      var (q1, x) := Pop(JOB_KEYS, w.pending, first);
      var (q2, y) := Pop(JOB_KEYS, q1, second);
      var log1 := Take(JOB_KEYS, log, first).0;
      PopTidies(w.pending, log, first);
      PopTidies(q1, log1, second);
      SettleKeepsInv(w, log, x, q1, log1, y, q2, Take(JOB_KEYS, log1, second).0);
      SettleKeepsBag(w, log, x, q1, log1, y, q2, Take(JOB_KEYS, log1, second).0);
    }
  }

  /** Only the job that is taken becomes active, and nothing is completed. */
  lemma NextBestActivates(w: Worker, log: seq<Job>, free: set<string>, cpu: int, mem: int)
    requires WorkerInv(w, log)
    ensures var (after, job) := NextBest(w, free, cpu, mem);
            && after.completed == w.completed && (job.Some? ==> job.value.id !in w.active)
            && after.active == (if job.Some? then w.active[job.value.id := job.value] else w.active)
  {
    NextBestIsBest(w, log, free, cpu, mem);
  }

  /** And the one it takes is the best of all that fit: no pending job that fits has a higher priority, or the same one
      and a free image that it has not, or the same one and the same luck with images and more memory. It takes none
      exactly when none fits. */
  lemma NextBestIsBest(w: Worker, log: seq<Job>, free: set<string>, cpu: int, mem: int)
    requires WorkerInv(w, log)
    ensures var job := NextBest(w, free, cpu, mem).1;
            && (job.None? <==> forall j :: j in log ==> !JobFits(j, cpu, mem))
            && (job.Some? ==> job.value in log && JobFits(job.value, cpu, mem)
                              && forall j :: j in log && JobFits(j, cpu, mem) ==> !Preferred(free, j, job.value))
  {
    NextBestIsWinner(w, log, free, cpu, mem);
    FirstTake(log, free, cpu, mem);
    var (log1, homogenous) := Take(JOB_KEYS, log, FitsAnd(JOB_KEYS, cpu, mem, HasImageIn(free)));
    SecondTake(log1, cpu, mem);
    var highest := Take(JOB_KEYS, log1, Fits(JOB_KEYS, cpu, mem)).1;
    if highest.Some? {
      assert highest.value in multiset(log1) && highest.value in multiset(log);
    }
    BestOfTwo(log, log1, free, cpu, mem, homogenous, highest);
  }

  function Winner(homogenous: Option<Job>, highest: Option<Job>): Option<Job> {
    if highest.Some? && (homogenous.None? || highest.value.priority > homogenous.value.priority) then highest
    else homogenous
  }

  lemma NextBestIsWinner(w: Worker, log: seq<Job>, free: set<string>, cpu: int, mem: int)
    requires Represents(JOB_KEYS, w.pending, log)
    ensures var (log1, x) := Take(JOB_KEYS, log, FitsAnd(JOB_KEYS, cpu, mem, HasImageIn(free)));
            NextBest(w, free, cpu, mem).1 == Winner(x, Take(JOB_KEYS, log1, Fits(JOB_KEYS, cpu, mem)).1)
  {
    var first, second := FitsAnd(JOB_KEYS, cpu, mem, HasImageIn(free)), Fits(JOB_KEYS, cpu, mem);
    PopRefines(JOB_KEYS, w.pending, log, first);
    PopRefines(JOB_KEYS, Pop(JOB_KEYS, w.pending, first).0, Take(JOB_KEYS, log, first).0, second);
  }

  lemma FirstTake(log: seq<Job>, free: set<string>, cpu: int, mem: int)
    ensures var (log1, x) := Take(JOB_KEYS, log, FitsAnd(JOB_KEYS, cpu, mem, HasImageIn(free)));
            && multiset(log1) + Bag(x) == multiset(log)
            && (forall j :: j in log ==> j in log1 || Some(j) == x)
            && if x.None? then forall j :: j in log ==> !(JobFits(j, cpu, mem) && j.image.alias in free)
               else x.value in log && JobFits(x.value, cpu, mem) && x.value.image.alias in free
                    && forall j :: j in log && JobFits(j, cpu, mem) && j.image.alias in free ==>
                         !Outranks(JOB_KEYS, j, x.value)
  {
    var fits := FitsAnd(JOB_KEYS, cpu, mem, HasImageIn(free));
    TakesTheBest(JOB_KEYS, log, fits);
    var (log1, x) := Take(JOB_KEYS, log, fits);
    forall j | j in log ensures j in log1 || Some(j) == x {
      assert j in multiset(log);
      assert j in multiset(log1) ==> j in log1;
    }
    forall j | j in log ensures fits(j) <==> JobFits(j, cpu, mem) && j.image.alias in free {
    }
  }

  lemma SecondTake(log1: seq<Job>, cpu: int, mem: int)
    ensures var x := Take(JOB_KEYS, log1, Fits(JOB_KEYS, cpu, mem)).1;
            if x.None? then forall j :: j in log1 ==> !JobFits(j, cpu, mem)
            else x.value in log1 && JobFits(x.value, cpu, mem)
                 && forall j :: j in log1 && JobFits(j, cpu, mem) ==> !Outranks(JOB_KEYS, j, x.value)
  {
    var fits := Fits(JOB_KEYS, cpu, mem);
    TakesTheBest(JOB_KEYS, log1, fits);
    forall j | j in log1 ensures fits(j) <==> JobFits(j, cpu, mem) {
    }
  }

  lemma BestOfTwo(log: seq<Job>, log1: seq<Job>, free: set<string>, cpu: int, mem: int,
                  homogenous: Option<Job>, highest: Option<Job>)
    requires forall j :: j in log && JobFits(j, cpu, mem) ==> j in log1 || Some(j) == homogenous
    requires if homogenous.None? then forall j :: j in log ==> !(JobFits(j, cpu, mem) && j.image.alias in free)
             else homogenous.value in log && JobFits(homogenous.value, cpu, mem) && homogenous.value.image.alias in free
                  && forall j :: j in log && JobFits(j, cpu, mem) && j.image.alias in free ==>
                       !Outranks(JOB_KEYS, j, homogenous.value)
    requires if highest.None? then forall j :: j in log1 ==> !JobFits(j, cpu, mem)
             else highest.value in log && JobFits(highest.value, cpu, mem)
                  && forall j :: j in log1 && JobFits(j, cpu, mem) ==> !Outranks(JOB_KEYS, j, highest.value)
    ensures var job := Winner(homogenous, highest);
            && (job.None? <==> forall j :: j in log ==> !JobFits(j, cpu, mem))
            && (job.Some? ==> job.value in log && JobFits(job.value, cpu, mem)
                              && forall j :: j in log && JobFits(j, cpu, mem) ==> !Preferred(free, j, job.value))
  {
  }

  // ---------------------------------------------------------------- conservation

  datatype WorkerOp =
    | AddJob(job: Job)
    | RemoveJob(id: string)
    | TakeNext(free: set<string>, cpu: int, mem: int)
    | MarkCompleted(id: string)
    | RollbackJob(id: string)
    | ClearAllJobs(listing: seq<Job>)

  const NO_JOBS := Worker(Empty(), map[], [])

  ghost function ActiveBag(w: Worker): multiset<Job> {
    multiset(w.active.Values)
  }

  ghost predicate Lists(listing: seq<Job>, w: Worker) {
    multiset(listing) == multiset(w.pending.items.Values) + ActiveBag(w)
  }

  /** ClearAllJobs sends all jobs in some order; a listing that is not one of them is no step. */
  ghost function StepWorker(w: Worker, op: WorkerOp): Worker {
    match op
    case AddJob(job) => Add(w, job).0
    case RemoveJob(id) => Drop(w, id).0
    case TakeNext(free, cpu, mem) => NextBest(w, free, cpu, mem).0
    case MarkCompleted(id) => Complete(w, id).0
    case RollbackJob(id) => Rollback(w, id).0
    case ClearAllJobs(listing) => if Lists(listing, w) then Worker(Empty(), map[], w.completed + listing) else w
  }

  /** What is pending after a step, in the order in which it was pushed. */
  ghost function StepPending(w: Worker, log: seq<Job>, op: WorkerOp): seq<Job> {
    match op
    case AddJob(job) => if job.id in w.active || job.id in w.pending.items then log else log + [job]
    case RemoveJob(id) => if id in w.active then log else Without(JOB_KEYS, log, id)
    case TakeNext(free, cpu, mem) => StillPending(log, free, cpu, mem)
    case MarkCompleted(_) => log
    case RollbackJob(id) => if id in w.active then log + [w.active[id]] else log
    case ClearAllJobs(listing) => if Lists(listing, w) then [] else log
  }

  ghost function Accepted(w: Worker, op: WorkerOp): multiset<Job> {
    if op.AddJob? && op.job.id !in w.active && op.job.id !in w.pending.items then multiset{op.job} else multiset{}
  }

  ghost function Removed(w: Worker, op: WorkerOp): multiset<Job> {
    if op.RemoveJob? && op.id !in w.active && op.id in w.pending.items then multiset{w.pending.items[op.id]}
    else multiset{}
  }

  /** Everything the worker has been given and not been told to remove: pending, active, and sent to Completed. */
  ghost function Everything(w: Worker, log: seq<Job>): multiset<Job> {
    multiset(log) + ActiveBag(w) + multiset(w.completed)
  }

  predicate TameOp(w: Worker, op: WorkerOp) {
    op.AddJob? ==> op.job.id in w.active || Tame(JOB_KEYS, w.pending, op.job)
  }

  lemma ActiveWith(active: map<string, Job>, job: Job)
    requires job.id !in active && forall id :: id in active ==> active[id].id == id
    ensures multiset(active[job.id := job].Values) == multiset(active.Values) + multiset{job}
  {
    var m := active[job.id := job];
    assert m[job.id] == job;
    forall j | j in active.Values ensures j in m.Values && j != job {
      var id :| id in active && active[id] == j;
      assert m[id] == j;
    }
    assert m.Values == active.Values + {job};
  }

  lemma ActiveWithout(active: map<string, Job>, id: string)
    requires id in active && forall k :: k in active ==> active[k].id == k
    ensures multiset((active - {id}).Values) + multiset{active[id]} == multiset(active.Values)
  {
    var m := active - {id};
    assert m[id := active[id]] == active;
    ActiveWith(m, active[id]);
  }

  lemma IndexedBag(items: map<string, Job>, log: seq<Job>)
    requires Indexes(JOB_KEYS, items, log)
    ensures multiset(items.Values) == multiset(log)
  {
    forall j: Job ensures multiset(items.Values)[j] == multiset(log)[j] {
      DistinctMultiset(JOB_KEYS, log, j);
      if j in log {
        assert items[j.id] == j;
      }
      assert j in log <==> j in items.Values;
    }
  }

  lemma WithoutBag(items: map<string, Job>, log: seq<Job>, id: string)
    requires Indexes(JOB_KEYS, items, log)
    ensures multiset(Without(JOB_KEYS, log, id)) + (if id in items then multiset{items[id]} else multiset{})
            == multiset(log)
  {
    if id in items {
      var i :| 0 <= i < |log| && log[i] == items[id];
      CutIsWithout(JOB_KEYS, log, i);
      CutMultiset(log, i);
    } else {
      KeepAll(log, NotId(JOB_KEYS, id));
    }
  }

  lemma PushKeepsActive(q: Lazy<Job>, active: map<string, Job>, job: Job)
    requires ActiveOk(q, active) && job.id !in active
    ensures ActiveOk(PushOn(JOB_KEYS, q, job), active)
  {
  }

  lemma AddKeepsInv(w: Worker, log: seq<Job>, job: Job)
    requires WorkerInv(w, log) && job.id !in w.active && Tame(JOB_KEYS, w.pending, job)
    ensures WorkerInv(Add(w, job).0, if job.id in w.pending.items then log else log + [job])
  {
    PushKeepsActive(w.pending, w.active, job);
    TamePush(JOB_KEYS, w.pending, log, job);
  }

  lemma RollbackKeepsInv(w: Worker, log: seq<Job>, id: string)
    requires WorkerInv(w, log) && id in w.active
    ensures WorkerInv(Rollback(w, id).0, log + [w.active[id]])
  {
    PushKeepsActive(w.pending, w.active - {id}, w.active[id]);
    PushNew(JOB_KEYS, w.pending, log, w.active[id]);
  }

  lemma RemoveKeepsInv(w: Worker, log: seq<Job>, id: string)
    requires WorkerInv(w, log) && id !in w.active
    ensures WorkerInv(Drop(w, id).0, Without(JOB_KEYS, log, id))
  {
    RemoveRepresents(JOB_KEYS, w.pending, log, id);
  }

  lemma StepKeepsWorkerInv(w: Worker, log: seq<Job>, op: WorkerOp)
    requires WorkerInv(w, log) && TameOp(w, op)
    ensures WorkerInv(StepWorker(w, op), StepPending(w, log, op))
  {
    match op {
      case AddJob(job) =>
        if job.id !in w.active {
          AddKeepsInv(w, log, job);
        }
      case RemoveJob(id) =>
        if id !in w.active {
          RemoveKeepsInv(w, log, id);
        }
      case TakeNext(free, cpu, mem) => NextBestKeepsInv(w, log, free, cpu, mem);
      case MarkCompleted(id) =>
      case RollbackJob(id) =>
        if id in w.active {
          RollbackKeepsInv(w, log, id);
        }
      case ClearAllJobs(listing) =>
    }
  }

  /** An accepted job that is not tame breaks the queue: this is all that can. */
  lemma AddKeepsQueueFaithfulExactly(w: Worker, log: seq<Job>, job: Job)
    requires WorkerInv(w, log)
    ensures Faithful(JOB_KEYS, Add(w, job).0.pending) <==> TameOp(w, AddJob(job))
  {
    if job.id in w.active {
      RepresentedIsFaithful(JOB_KEYS, w.pending, log);
    } else {
      PushStaysFaithfulExactly(JOB_KEYS, w.pending, log, job);
    }
  }

  lemma NextBestConserves(w: Worker, log: seq<Job>, free: set<string>, cpu: int, mem: int)
    requires WorkerInv(w, log)
    ensures Everything(NextBest(w, free, cpu, mem).0, StillPending(log, free, cpu, mem)) == Everything(w, log)
  {
    NextBestKeepsInv(w, log, free, cpu, mem);
    NextBestActivates(w, log, free, cpu, mem);
    var (after, job) := NextBest(w, free, cpu, mem);
    if job.Some? {
      ActiveWith(w.active, job.value);
    }
    SameEverything(w, log, after, StillPending(log, free, cpu, mem), job);
  }

  lemma SameEverything(w: Worker, log: seq<Job>, after: Worker, rest: seq<Job>, job: Option<Job>)
    requires multiset(rest) + Bag(job) == multiset(log) && after.completed == w.completed
    requires ActiveBag(after) == ActiveBag(w) + Bag(job)
    ensures Everything(after, rest) == Everything(w, log)
  {
  }

  lemma LeavingActive(w: Worker, log: seq<Job>, id: string)
    requires ActiveOk(w.pending, w.active)
    ensures Everything(Complete(w, id).0, log) == Everything(w, log)
    ensures id in w.active ==> Everything(Rollback(w, id).0, log + [w.active[id]]) == Everything(w, log)
  {
    if id in w.active {
      ActiveWithout(w.active, id);
    }
  }

  lemma AddConserves(w: Worker, log: seq<Job>, job: Job)
    ensures var op := AddJob(job);
            Everything(StepWorker(w, op), StepPending(w, log, op)) == Everything(w, log) + Accepted(w, op)
  {
  }

  lemma RemoveConserves(w: Worker, log: seq<Job>, id: string)
    requires Indexes(JOB_KEYS, w.pending.items, log)
    ensures var op := RemoveJob(id);
            Everything(StepWorker(w, op), StepPending(w, log, op)) + Removed(w, op) == Everything(w, log)
  {
    WithoutBag(w.pending.items, log, id);
  }

  lemma ClearConserves(w: Worker, log: seq<Job>, listing: seq<Job>)
    requires Indexes(JOB_KEYS, w.pending.items, log)
    ensures var op := ClearAllJobs(listing);
            Everything(StepWorker(w, op), StepPending(w, log, op)) == Everything(w, log)
  {
    IndexedBag(w.pending.items, log);
    var cleared: map<string, Job> := map[];
    assert cleared.Values == {};
  }

  /** A step neither loses nor duplicates a job: what is pending, active or completed afterwards is what was before, and
      what the step accepted, without what it was told to remove. */
  lemma StepConserves(w: Worker, log: seq<Job>, op: WorkerOp)
    requires WorkerInv(w, log)
    ensures Everything(StepWorker(w, op), StepPending(w, log, op)) + Removed(w, op) ==
            Everything(w, log) + Accepted(w, op)
  {
    match op {
      case AddJob(job) => AddConserves(w, log, job);
      case RemoveJob(id) => RemoveConserves(w, log, id);
      case TakeNext(free, cpu, mem) => NextBestConserves(w, log, free, cpu, mem);
      case MarkCompleted(id) => LeavingActive(w, log, id);
      case RollbackJob(id) => LeavingActive(w, log, id);
      case ClearAllJobs(listing) => ClearConserves(w, log, listing);
    }
  }

  ghost function RunWorker(ops: seq<WorkerOp>): Worker {
    if ops == [] then NO_JOBS else StepWorker(RunWorker(ops[..|ops| - 1]), ops[|ops| - 1])
  }

  ghost function RunPending(ops: seq<WorkerOp>): seq<Job> {
    if ops == [] then []
    else StepPending(RunWorker(ops[..|ops| - 1]), RunPending(ops[..|ops| - 1]), ops[|ops| - 1])
  }

  ghost function AllAccepted(ops: seq<WorkerOp>): multiset<Job> {
    if ops == [] then multiset{}
    else AllAccepted(ops[..|ops| - 1]) + Accepted(RunWorker(ops[..|ops| - 1]), ops[|ops| - 1])
  }

  ghost function AllRemoved(ops: seq<WorkerOp>): multiset<Job> {
    if ops == [] then multiset{}
    else AllRemoved(ops[..|ops| - 1]) + Removed(RunWorker(ops[..|ops| - 1]), ops[|ops| - 1])
  }

  ghost predicate TameOps(ops: seq<WorkerOp>) {
    forall i :: 0 <= i < |ops| ==> TameOp(RunWorker(ops[..i]), ops[i])
  }

  lemma TamePrefix(ops: seq<WorkerOp>)
    requires TameOps(ops) && ops != []
    ensures TameOps(ops[..|ops| - 1]) && TameOp(RunWorker(ops[..|ops| - 1]), ops[|ops| - 1])
  {
    var init := ops[..|ops| - 1];
    forall i | 0 <= i < |init| ensures TameOp(RunWorker(init[..i]), init[i]) {
      assert init[..i] == ops[..i];
    }
  }

  lemma {:induction false} RunKeepsWorkerInv(ops: seq<WorkerOp>)
    requires TameOps(ops)
    ensures WorkerInv(RunWorker(ops), RunPending(ops))
  {
    if ops == [] {
      assert Represents(JOB_KEYS, NO_JOBS.pending, []);
    } else {
      TamePrefix(ops);
      RunKeepsWorkerInv(ops[..|ops| - 1]);
      StepKeepsWorkerInv(RunWorker(ops[..|ops| - 1]), RunPending(ops[..|ops| - 1]), ops[|ops| - 1]);
    }
  }

  ghost predicate AddedOnce(ops: seq<WorkerOp>) {
    forall i, j :: 0 <= i < j < |ops| && ops[i].AddJob? && ops[j].AddJob? ==> ops[i].job.id != ops[j].job.id
  }

  function AddedIds(ops: seq<WorkerOp>): set<string> {
    if ops == [] then {}
    else AddedIds(ops[..|ops| - 1]) + if ops[|ops| - 1].AddJob? then {ops[|ops| - 1].job.id} else {}
  }

  /** The worker knows no other ids, and the queue holds no copies of others. */
  ghost predicate KnowsOnly(w: Worker, ids: set<string>) {
    QueueKnowsOnly(w.pending, ids) && forall id :: id in w.active ==> id in ids && w.active[id].id == id
  }

  ghost predicate QueueKnowsOnly(q: Lazy<Job>, ids: set<string>) {
    q.items.Keys <= ids && forall j :: j in q.order ==> j.id in ids
  }

  lemma PopKnowsOnly(q: Lazy<Job>, fits: Job -> bool, ids: set<string>)
    requires QueueKnowsOnly(q, ids)
    ensures var (r, x) := Pop(JOB_KEYS, q, fits); QueueKnowsOnly(r, ids) && (x.Some? ==> x.value.id in ids)
  {
    var (r, x) := Pop(JOB_KEYS, q, fits);
    PopShrinks(JOB_KEYS, q, fits);
    forall j | j in r.order ensures j.id in ids {
      PoppedFromOrder(JOB_KEYS, q, fits, j);
    }
    if x.Some? {
      PoppedFromOrder(JOB_KEYS, q, fits, x.value);
    }
  }

  lemma SettleKnowsOnly(w: Worker, q: Lazy<Job>, x: Option<Job>, y: Option<Job>, ids: set<string>)
    requires KnowsOnly(w, ids) && QueueKnowsOnly(q, ids)
    requires (x.Some? ==> x.value.id in ids) && (y.Some? ==> y.value.id in ids)
    ensures KnowsOnly(Settle(w, q, x, y).0, ids)
  {
  }

  lemma StepKnowsOnly(w: Worker, op: WorkerOp, ids: set<string>)
    requires KnowsOnly(w, ids) && (op.AddJob? ==> op.job.id in ids)
    ensures KnowsOnly(StepWorker(w, op), ids)
  {
    if op.TakeNext? {
      var (q1, x) := Pop(JOB_KEYS, w.pending, FitsAnd(JOB_KEYS, op.cpu, op.mem, HasImageIn(op.free)));
      var (q2, y) := Pop(JOB_KEYS, q1, Fits(JOB_KEYS, op.cpu, op.mem));
      PopKnowsOnly(w.pending, FitsAnd(JOB_KEYS, op.cpu, op.mem, HasImageIn(op.free)), ids);
      PopKnowsOnly(q1, Fits(JOB_KEYS, op.cpu, op.mem), ids);
      SettleKnowsOnly(w, q2, x, y, ids);
    }
  }

  lemma {:induction false} RunKnowsOnlyAdded(ops: seq<WorkerOp>)
    ensures KnowsOnly(RunWorker(ops), AddedIds(ops))
    ensures forall id :: id in AddedIds(ops) ==> exists k :: 0 <= k < |ops| && ops[k].AddJob? && ops[k].job.id == id
  {
    if ops != [] {
      RunKnowsOnlyAdded(ops[..|ops| - 1]);
      StepKnowsOnly(RunWorker(ops[..|ops| - 1]), ops[|ops| - 1], AddedIds(ops));
      assert forall k :: 0 <= k < |ops| - 1 ==> ops[..|ops| - 1][k] == ops[k];
    }
  }

  /** When no id comes in twice, the run is tame, whatever the queue holds. */
  lemma AddedOnceIsTame(ops: seq<WorkerOp>)
    requires AddedOnce(ops)
    ensures TameOps(ops)
  {
    forall i | 0 <= i < |ops| ensures TameOp(RunWorker(ops[..i]), ops[i]) {
      if ops[i].AddJob? {
        RunKnowsOnlyAdded(ops[..i]);
        assert ops[i].job.id !in AddedIds(ops[..i]);
      }
    }
  }

  /** Over any run of tame operations, every accepted job is pending, active, sent to Completed, or removed on request,
      exactly once. */
  lemma {:induction false} RunConserves(ops: seq<WorkerOp>)
    requires TameOps(ops)
    ensures Everything(RunWorker(ops), RunPending(ops)) + AllRemoved(ops) == AllAccepted(ops)
  {
    if ops == [] {
      assert NO_JOBS.active.Values == {};
    } else {
      var init, last := ops[..|ops| - 1], ops[|ops| - 1];
      TamePrefix(ops);
      RunConserves(init);
      RunKeepsWorkerInv(init);
      StepConserves(RunWorker(init), RunPending(init), last);
      BagsAddUp(Everything(RunWorker(init), RunPending(init)), Everything(RunWorker(ops), RunPending(ops)),
                AllRemoved(init), Removed(RunWorker(init), last), AllAccepted(init), Accepted(RunWorker(init), last));
    }
  }

  lemma BagsAddUp(before: multiset<Job>, after: multiset<Job>, gone: multiset<Job>, goes: multiset<Job>,
                  came: multiset<Job>, comes: multiset<Job>)
    requires before + gone == came && after + goes == before + comes
    ensures after + (gone + goes) == came + comes
  {
    calc {
      after + (gone + goes);
      (after + goes) + gone;
      (before + comes) + gone;
      came + comes;
    }
  }

  /** And no job is both waiting and running. */
  lemma PendingAndActiveDisjoint(ops: seq<WorkerOp>, id: string)
    requires TameOps(ops)
    ensures !(id in RunWorker(ops).active && id in RunWorker(ops).pending.items)
  {
    RunKeepsWorkerInv(ops);
  }

  /** What is refused, and only that, changes nothing: an active job is neither added again nor removed, and only an
      active one completes or goes back. */
  lemma RefusedExactly(w: Worker, job: Job, id: string)
    ensures Add(w, job).1 <==> job.id !in w.active
    ensures Drop(w, id).1 <==> id !in w.active
    ensures Complete(w, id).1 <==> id in w.active
    ensures Rollback(w, id).1 <==> id in w.active
    ensures (!Add(w, job).1 ==> Add(w, job).0 == w) && (!Drop(w, id).1 ==> Drop(w, id).0 == w)
    ensures (!Complete(w, id).1 ==> Complete(w, id).0 == w) && (!Rollback(w, id).1 ==> Rollback(w, id).0 == w)
  {
  }

  // ---------------------------------------------------------------- capacity

  const CPU_OF := (j: Job) => j.image.cpu

  const MEM_OF := (j: Job) => j.image.mem

  /** What the active jobs use together. */
  ghost function Usage(active: map<string, Job>, weight: Job -> int): int
    decreases |active|
  {
    if active == map[] then 0
    else
      var id :| id in active;
      weight(active[id]) + Usage(active - {id}, weight)
  }

  lemma {:induction false} UsageWithout(active: map<string, Job>, weight: Job -> int, id: string)
    requires id in active
    ensures Usage(active, weight) == weight(active[id]) + Usage(active - {id}, weight)
    decreases |active|
  {
    var first: string :|
      first in active && Usage(active, weight) == weight(active[first]) + Usage(active - {first}, weight);
    if first != id {
      UsageWithout(active - {first}, weight, id);
      UsageWithout(active - {id}, weight, first);
      assert active - {first} - {id} == active - {id} - {first};
    }
  }

  lemma UsageWith(active: map<string, Job>, weight: Job -> int, job: Job)
    requires job.id !in active
    ensures Usage(active[job.id := job], weight) == Usage(active, weight) + weight(job)
  {
    UsageWithout(active[job.id := job], weight, job.id);
    assert active[job.id := job] - {job.id} == active;
  }

  lemma UsageFalls(active: map<string, Job>, weight: Job -> int, id: string)
    requires id in active ==> weight(active[id]) >= 0
    ensures Usage(active - {id}, weight) <= Usage(active, weight)
  {
    if id in active {
      UsageWithout(active, weight, id);
    } else {
      assert active - {id} == active;
    }
  }

  ghost predicate WithinLimits(w: Worker, cpu: int, mem: int) {
    Usage(w.active, CPU_OF) <= cpu && Usage(w.active, MEM_OF) <= mem
  }

  /** The search is for what is free now, or less: the usage has not grown since it was read. */
  ghost predicate Affordable(w: Worker, op: WorkerOp, cpu: int, mem: int) {
    op.TakeNext? ==> op.cpu <= cpu - Usage(w.active, CPU_OF) && op.mem <= mem - Usage(w.active, MEM_OF)
  }

  predicate NonNegative(j: Job) {
    j.image.cpu >= 0 && j.image.mem >= 0
  }

  ghost predicate AllNonNegative(w: Worker, log: seq<Job>) {
    (forall j :: j in log ==> NonNegative(j)) && (forall id :: id in w.active ==> NonNegative(w.active[id]))
  }

  lemma StepKeepsNonNegative(w: Worker, log: seq<Job>, op: WorkerOp)
    requires WorkerInv(w, log) && AllNonNegative(w, log) && (op.AddJob? ==> NonNegative(op.job))
    ensures AllNonNegative(StepWorker(w, op), StepPending(w, log, op))
  {
    match op {
      case TakeNext(free, cpu, mem) =>
        NextBestActivates(w, log, free, cpu, mem);
        NextBestIsBest(w, log, free, cpu, mem);
        NextBestKeepsInv(w, log, free, cpu, mem);
        var rest := StillPending(log, free, cpu, mem);
        forall j | j in rest ensures NonNegative(j) {
          assert j in multiset(rest) && j in multiset(log);
        }
      case RemoveJob(id) =>
        forall j | j in Without(JOB_KEYS, log, id) ensures j in log {
          KeepMember(log, NotId(JOB_KEYS, id), j);
        }
      case _ =>
    }
  }

  lemma ActivationWithinLimits(w: Worker, after: Worker, job: Option<Job>, maxCpu: int, maxMem: int)
    requires WithinLimits(w, maxCpu, maxMem) && (job.Some? ==> job.value.id !in w.active)
    requires after.active == if job.Some? then w.active[job.value.id := job.value] else w.active
    ensures WithinLimits(after, maxCpu, maxMem)
            <==> job.None? || JobFits(job.value, maxCpu - Usage(w.active, CPU_OF), maxMem - Usage(w.active, MEM_OF))
  {
    if job.Some? {
      UsageWith(w.active, CPU_OF, job.value);
      UsageWith(w.active, MEM_OF, job.value);
    }
  }

  /** Taking a job keeps the limits exactly when the one that is taken fits what is free now. */
  lemma TakingStaysWithinLimitsExactly(w: Worker, log: seq<Job>, free: set<string>, cpu: int, mem: int, maxCpu: int,
                                      maxMem: int)
    requires WorkerInv(w, log) && WithinLimits(w, maxCpu, maxMem)
    ensures var (after, job) := NextBest(w, free, cpu, mem);
            WithinLimits(after, maxCpu, maxMem)
            <==> job.None? || JobFits(job.value, maxCpu - Usage(w.active, CPU_OF), maxMem - Usage(w.active, MEM_OF))
  {
    var (after, job) := NextBest(w, free, cpu, mem);
    NextBestActivates(w, log, free, cpu, mem);
    ActivationWithinLimits(w, after, job, maxCpu, maxMem);
  }

  lemma NextBestWithinLimits(w: Worker, log: seq<Job>, free: set<string>, cpu: int, mem: int, maxCpu: int, maxMem: int)
    requires WorkerInv(w, log) && WithinLimits(w, maxCpu, maxMem)
    requires Affordable(w, TakeNext(free, cpu, mem), maxCpu, maxMem)
    ensures WithinLimits(NextBest(w, free, cpu, mem).0, maxCpu, maxMem)
  {
    NextBestActivates(w, log, free, cpu, mem);
    NextBestIsBest(w, log, free, cpu, mem);
    var job := NextBest(w, free, cpu, mem).1;
    if job.Some? {
      UsageWith(w.active, CPU_OF, job.value);
      UsageWith(w.active, MEM_OF, job.value);
    }
  }

  lemma StepWithinLimits(w: Worker, log: seq<Job>, op: WorkerOp, cpu: int, mem: int)
    requires WorkerInv(w, log) && AllNonNegative(w, log) && cpu >= 0 && mem >= 0
    requires WithinLimits(w, cpu, mem) && Affordable(w, op, cpu, mem)
    ensures WithinLimits(StepWorker(w, op), cpu, mem)
  {
    match op {
      case TakeNext(free, c, m) => NextBestWithinLimits(w, log, free, c, m, cpu, mem);
      case MarkCompleted(id) =>
        UsageFalls(w.active, CPU_OF, id);
        UsageFalls(w.active, MEM_OF, id);
      case RollbackJob(id) =>
        UsageFalls(w.active, CPU_OF, id);
        UsageFalls(w.active, MEM_OF, id);
      case _ =>
    }
  }

  ghost predicate FrugalOps(ops: seq<WorkerOp>, cpu: int, mem: int) {
    forall i :: 0 <= i < |ops| ==>
      Affordable(RunWorker(ops[..i]), ops[i], cpu, mem) && (ops[i].AddJob? ==> NonNegative(ops[i].job))
  }

  /** As long as nothing becomes active between reading the usage and taking a job, the active jobs never use more than
      the machine has. */
  lemma {:induction false} RunWithinLimits(ops: seq<WorkerOp>, cpu: int, mem: int)
    requires TameOps(ops) && FrugalOps(ops, cpu, mem) && cpu >= 0 && mem >= 0
    ensures WithinLimits(RunWorker(ops), cpu, mem) && AllNonNegative(RunWorker(ops), RunPending(ops))
  {
    if ops != [] {
      var init, last := ops[..|ops| - 1], ops[|ops| - 1];
      TamePrefix(ops);
      forall i | 0 <= i < |init|
        ensures Affordable(RunWorker(init[..i]), init[i], cpu, mem) && (init[i].AddJob? ==> NonNegative(init[i].job))
      {
        assert init[..i] == ops[..i];
      }
      RunWithinLimits(init, cpu, mem);
      RunKeepsWorkerInv(init);
      StepWithinLimits(RunWorker(init), RunPending(init), last, cpu, mem);
      StepKeepsNonNegative(RunWorker(init), RunPending(init), last);
    }
  }

  lemma TakesTheOnlyOne(w: Worker, job: Job, free: set<string>, cpu: int, mem: int)
    requires WorkerInv(w, [job]) && JobFits(job, cpu, mem)
    ensures job.id !in w.active && NextBest(w, free, cpu, mem).0.active == w.active[job.id := job]
  {
    NextBestIsBest(w, [job], free, cpu, mem);
    assert job in [job];
    NextBestActivates(w, [job], free, cpu, mem);
  }

  lemma ActivationAffordableExactly(w: Worker, after: Worker, job: Job, free: set<string>, maxCpu: int, maxMem: int)
    requires WithinLimits(w, maxCpu, maxMem) && job.id !in w.active && after.active == w.active[job.id := job]
    ensures WithinLimits(after, maxCpu, maxMem)
            <==> Affordable(w, TakeNext(free, job.image.cpu, job.image.mem), maxCpu, maxMem)
  {
    ActivationWithinLimits(w, after, Some(job), maxCpu, maxMem);
  }

  /** A pending job of just the size that is searched for shows whether the search is for more than is free. */
  lemma SizedJobDecides(w: Worker, job: Job, free: set<string>, cpu: int, mem: int, maxCpu: int, maxMem: int)
    requires WorkerInv(w, [job]) && WithinLimits(w, maxCpu, maxMem) && job.image.cpu == cpu && job.image.mem == mem
    ensures WithinLimits(NextBest(w, free, cpu, mem).0, maxCpu, maxMem)
            <==> Affordable(w, TakeNext(free, cpu, mem), maxCpu, maxMem)
  {
    TakesTheOnlyOne(w, job, free, cpu, mem);
    ActivationAffordableExactly(w, NextBest(w, free, cpu, mem).0, job, free, maxCpu, maxMem);
  }

  /** A worker with these active jobs and nothing else pending than one job that is not among them. */
  lemma OnlyPending(active: map<string, Job>, job: Job) returns (w: Worker)
    requires job.id !in active && forall id :: id in active ==> active[id].id == id
    ensures WorkerInv(w, [job]) && w.active == active
  {
    var idle := Worker(Empty(), active, []);
    assert WorkerInv(idle, []) by {
      assert Live(JOB_KEYS, idle.pending) == [];
    }
    assert Tame(JOB_KEYS, idle.pending, job);
    AddKeepsInv(idle, [], job);
    w := Add(idle, job).0;
    assert [] + [job] == [job];
  }

  /** With these jobs pending, should the worker have just these active, a search with these bounds keeps the limits. */
  ghost predicate TakesSafely(w: Worker, log: seq<Job>, active: map<string, Job>, free: set<string>, cpu: int, mem: int,
                              maxCpu: int, maxMem: int) {
    w.active == active && WorkerInv(w, log) && AllNonNegative(w, log) ==>
      WithinLimits(NextBest(w, free, cpu, mem).0, maxCpu, maxMem)
  }

  /** Taking keeps the limits, whatever is pending, exactly when the bounds that are passed in are no more than what is
      free now. Negative bounds find nothing. `probe` is any job of just that size. */
  lemma TakingIsSafeExactly(w: Worker, free: set<string>, cpu: int, mem: int, maxCpu: int, maxMem: int, probe: Job)
    requires WithinLimits(w, maxCpu, maxMem) && forall id :: id in w.active ==> w.active[id].id == id
    requires forall id :: id in w.active ==> NonNegative(w.active[id])
    requires probe.id !in w.active && (cpu >= 0 && mem >= 0 ==> probe.image.cpu == cpu && probe.image.mem == mem)
    ensures (forall v: Worker, log: seq<Job> :: TakesSafely(v, log, w.active, free, cpu, mem, maxCpu, maxMem))
            <==> cpu < 0 || mem < 0 || Affordable(w, TakeNext(free, cpu, mem), maxCpu, maxMem)
  {
    if cpu < 0 || mem < 0 || Affordable(w, TakeNext(free, cpu, mem), maxCpu, maxMem) {
      forall v: Worker, log: seq<Job> ensures TakesSafely(v, log, w.active, free, cpu, mem, maxCpu, maxMem) {
        AffordableTakesSafely(w, v, log, free, cpu, mem, maxCpu, maxMem);
      }
    } else {
      var v := UnsafePending(w, free, cpu, mem, maxCpu, maxMem, probe);
    }
  }

  lemma UnsafePending(w: Worker, free: set<string>, cpu: int, mem: int, maxCpu: int, maxMem: int, probe: Job)
    returns (v: Worker)
    requires WithinLimits(w, maxCpu, maxMem) && forall id :: id in w.active ==> w.active[id].id == id
    requires forall id :: id in w.active ==> NonNegative(w.active[id])
    requires probe.id !in w.active && probe.image.cpu == cpu >= 0 && probe.image.mem == mem >= 0
    requires !Affordable(w, TakeNext(free, cpu, mem), maxCpu, maxMem)
    ensures !TakesSafely(v, [probe], w.active, free, cpu, mem, maxCpu, maxMem)
  {
    v := OnlyPending(w.active, probe);
    SizedIsUnsafe(v, probe, free, cpu, mem, maxCpu, maxMem);
  }

  lemma SizedIsUnsafe(w: Worker, job: Job, free: set<string>, cpu: int, mem: int, maxCpu: int, maxMem: int)
    requires WorkerInv(w, [job]) && WithinLimits(w, maxCpu, maxMem) && job.image.cpu == cpu && job.image.mem == mem
    requires AllNonNegative(w, [job]) && !Affordable(w, TakeNext(free, cpu, mem), maxCpu, maxMem)
    ensures !TakesSafely(w, [job], w.active, free, cpu, mem, maxCpu, maxMem)
  {
    SizedJobDecides(w, job, free, cpu, mem, maxCpu, maxMem);
  }

  lemma AffordableTakesSafely(w: Worker, v: Worker, log: seq<Job>, free: set<string>, cpu: int, mem: int, maxCpu: int,
                              maxMem: int)
    requires WithinLimits(w, maxCpu, maxMem)
    requires cpu < 0 || mem < 0 || Affordable(w, TakeNext(free, cpu, mem), maxCpu, maxMem)
    ensures TakesSafely(v, log, w.active, free, cpu, mem, maxCpu, maxMem)
  {
    if v.active == w.active && WorkerInv(v, log) && AllNonNegative(v, log) {
      AffordableTakingIsSafe(v, log, free, cpu, mem, maxCpu, maxMem);
    }
  }

  lemma AffordableTakingIsSafe(w: Worker, log: seq<Job>, free: set<string>, cpu: int, mem: int, maxCpu: int,
                               maxMem: int)
    requires WorkerInv(w, log) && AllNonNegative(w, log) && WithinLimits(w, maxCpu, maxMem)
    requires cpu < 0 || mem < 0 || Affordable(w, TakeNext(free, cpu, mem), maxCpu, maxMem)
    ensures WithinLimits(NextBest(w, free, cpu, mem).0, maxCpu, maxMem)
  {
    if cpu < 0 || mem < 0 {
      NextBestIsBest(w, log, free, cpu, mem);
      TakingStaysWithinLimitsExactly(w, log, free, cpu, mem, maxCpu, maxMem);
    } else {
      NextBestWithinLimits(w, log, free, cpu, mem, maxCpu, maxMem);
    }
  }

  /** Any two jobs can be what is pending at an idle worker. */
  lemma BothPending(a: Job, b: Job)
    requires a.id != b.id
    ensures WorkerInv(Add(Add(NO_JOBS, a).0, b).0, [a, b]) && Add(Add(NO_JOBS, a).0, b).0.active == map[]
  {
    assert Represents(JOB_KEYS, NO_JOBS.pending, []);
    AddKeepsInv(NO_JOBS, [], a);
    assert [] + [a] == [a] && [a] + [b] == [a, b];
    AddKeepsInv(Add(NO_JOBS, a).0, [a], b);
  }

  lemma TakesOne(w: Worker, log: seq<Job>, free: set<string>, cpu: int, mem: int)
    requires WorkerInv(w, log) && log != [] && forall j :: j in log ==> j.image.cpu == cpu && j.image.mem == mem
    ensures Usage(NextBest(w, free, cpu, mem).0.active, CPU_OF) == Usage(w.active, CPU_OF) + cpu
    ensures Usage(NextBest(w, free, cpu, mem).0.active, MEM_OF) == Usage(w.active, MEM_OF) + mem
    ensures var (after, rest) := (NextBest(w, free, cpu, mem).0, StillPending(log, free, cpu, mem));
            && WorkerInv(after, rest) && |rest| == |log| - 1
            && forall j :: j in rest ==> j.image.cpu == cpu && j.image.mem == mem
  {
    NextBestActivates(w, log, free, cpu, mem);
    NextBestIsBest(w, log, free, cpu, mem);
    NextBestKeepsInv(w, log, free, cpu, mem);
    assert JobFits(log[0], cpu, mem);
    var job, rest := NextBest(w, free, cpu, mem).1, StillPending(log, free, cpu, mem);
    UsageWith(w.active, CPU_OF, job.value);
    UsageWith(w.active, MEM_OF, job.value);
    assert |multiset(rest)| + 1 == |multiset(log)|;
    forall j | j in rest ensures j in log {
      assert j in multiset(rest) && j in multiset(log);
    }
  }

  /** That is not how the worker's main loop calls it: every tick starts its own PackNextJob. When two of them read the
      usage of an idle worker before either takes a job, two jobs that need the whole machine each are both started.
      Module RacingPackers has the runs. */
  lemma TwoReadersOvercommit(w: Worker, log: seq<Job>, cpu: int, mem: int, free: set<string>, freeCpu: int,
                             freeMem: int)
    requires WorkerInv(w, log) && w.active == map[] && |log| == 2 && cpu > 0
    requires forall j :: j in log ==> j.image.cpu == cpu && j.image.mem == mem
    requires freeCpu == cpu - Usage(w.active, CPU_OF) && freeMem == mem - Usage(w.active, MEM_OF)
    ensures var both := NextBest(NextBest(w, free, freeCpu, freeMem).0, free, freeCpu, freeMem).0;
            Usage(both.active, CPU_OF) == 2 * cpu && !WithinLimits(both, cpu, mem)
  {
    TakesTwo(w, log, free, freeCpu, freeMem);
  }

  lemma TakesTwo(w: Worker, log: seq<Job>, free: set<string>, cpu: int, mem: int)
    requires WorkerInv(w, log) && |log| == 2 && forall j :: j in log ==> j.image.cpu == cpu && j.image.mem == mem
    ensures var both := NextBest(NextBest(w, free, cpu, mem).0, free, cpu, mem).0;
            && Usage(both.active, CPU_OF) == Usage(w.active, CPU_OF) + 2 * cpu
            && Usage(both.active, MEM_OF) == Usage(w.active, MEM_OF) + 2 * mem
  {
    TakesOne(w, log, free, cpu, mem);
    TakesOne(NextBest(w, free, cpu, mem).0, StillPending(log, free, cpu, mem), free, cpu, mem);
  }

  // ---------------------------------------------------------------- the queue object

  datatype FindResult = Found(container: string) | NoneFree | FindError

  datatype LaunchResult = Launched(container: string) | LaunchError

  datatype PackOutcome = Idle | Assigned(job: Job, container: string) | NotEnoughRoom | Failed(stuck: Job)

  class Jobs {
    const pending: Queue<Job>
    var active: map<string, Job>
    var completed: seq<Job>

    function State(): Worker
      reads this, pending
    {
      Worker(pending.State(), active, completed)
    }

    ghost predicate Valid()
      reads this, pending
    {
      && pending.keys == JOB_KEYS
      && (forall id :: id in active ==> active[id].id == id)
      && (forall id :: id in pending.items ==> pending.items[id].id == id)
    }

    constructor ()
      ensures Valid() && State() == NO_JOBS && fresh(pending)
    {
      pending := new Queue(JOB_KEYS);
      active, completed := map[], [];
    }

    method AddJob(job: Job) returns (ok: bool)
      requires Valid()
      modifies this, pending
      ensures Valid() && (State(), ok) == Add(old(State()), job)
    {
      if job.id in active {
        return false;
      }
      pending.Push(job);
      ok := true;
    }

    method RemoveJob(id: string) returns (ok: bool)
      requires Valid()
      modifies this, pending
      ensures Valid() && (State(), ok) == Drop(old(State()), id)
    {
      if id in active {
        return false;
      }
      pending.RemoveByID(id);
      ok := true;
    }

    method MarkRunning(id: string, containerId: string) returns (ok: bool)
      requires Valid()
      modifies active.Values`assignedContainerId
      ensures ok <==> id in active
      ensures ok ==> active[id].assignedContainerId == containerId
      ensures forall j :: j in active.Values && j.id != id ==> j.assignedContainerId == old(j.assignedContainerId)
    {
      if id !in active {
        return false;
      }
      active[id].assignedContainerId := containerId;
      ok := true;
    }

    method MarkCompleted(id: string, payload: seq<byte>, success: bool) returns (ok: bool)
      requires Valid()
      modifies this, active.Values
      ensures Valid() && (State(), ok) == Complete(old(State()), id)
      ensures ok ==> old(active[id]).payload == payload && old(active[id]).succeeded == success
      ensures forall j :: j in old(active.Values) && j.id != id ==>
                j.payload == old(j.payload) && j.succeeded == old(j.succeeded)
    {
      if id !in active {
        return false;
      }
      var job := active[id];
      active := active - {id};
      job.payload, job.succeeded := payload, success;
      completed := completed + [job];
      ok := true;
    }

    method RollbackJob(id: string) returns (ok: bool)
      requires Valid()
      modifies this, pending, active.Values`assignedContainerId
      ensures Valid() && (State(), ok) == Rollback(old(State()), id)
      ensures ok ==> old(active[id]).assignedContainerId == ""
    {
      if id !in active {
        return false;
      }
      var job := active[id];
      active := active - {id};
      job.assignedContainerId := "";
      pending.Push(job);
      ok := true;
    }

    /** Everything goes to Completed, in whatever order the maps yield it. */
    method ClearAllJobs() returns (ghost listing: seq<Job>)
      requires Valid()
      modifies this, pending
      ensures Valid() && Lists(listing, old(State()))
      ensures State() == StepWorker(old(State()), WorkerOp.ClearAllJobs(listing))
    {
      var all := ListAllJobs();
      listing := all;
      active := map[];
      pending.Clear();
      completed := completed + all;
    }

    method ListAllJobs() returns (all: seq<Job>)
      requires Valid()
      ensures Lists(all, State())
    {
      var running := ListJobs(active);
      var waiting := pending.Items();
      IndexedBag(active, running);
      IndexedBag(pending.items, waiting);
      all := running + waiting;
      assert multiset(all) == multiset(running) + multiset(waiting);
    }

    method ActiveUtilization() returns (cpu: int, mem: int)
      ensures cpu == Usage(active, CPU_OF) && mem == Usage(active, MEM_OF)
    {
      cpu, mem := 0, 0;
      var left := active;
      while left != map[]
        invariant cpu + Usage(left, CPU_OF) == Usage(active, CPU_OF)
                  && mem + Usage(left, MEM_OF) == Usage(active, MEM_OF)
        decreases |left|
      {
        var id :| id in left;
        UsageWithout(left, CPU_OF, id);
        UsageWithout(left, MEM_OF, id);
        cpu, mem := cpu + left[id].image.cpu, mem + left[id].image.mem;
        left := left - {id};
      }
    }

    method NextBestJob(freeImages: seq<string>, freeCpu: int, freeMem: int) returns (job: Option<Job>)
      requires Valid()
      modifies this, pending, pending.order`assignedContainerId
      ensures Valid() && (State(), job) == NextBest(old(State()), Names(freeImages), freeCpu, freeMem)
      ensures job.Some? ==> job.value.assignedContainerId == PACKING && JobFits(job.value, freeCpu, freeMem)
                            && job.value in old(pending.order)
      ensures forall j :: j in old(pending.order) && Some(j) != job ==>
                j.assignedContainerId == old(j.assignedContainerId)
    {
      var free := Collect(freeImages);
      var homogenous, highest := PopBoth(free, freeCpu, freeMem);
      job := SettleJobs(homogenous, highest);
    }

    /** Its two pops: the best job that fits and has a free image, and then the best of the others that fits. */
    method PopBoth(free: set<string>, freeCpu: int, freeMem: int)
      returns (homogenous: Option<Job>, highest: Option<Job>)
      requires Valid()
      modifies pending
      ensures Valid()
      ensures var (q, x) := Pop(JOB_KEYS, old(pending.State()), FitsAnd(JOB_KEYS, freeCpu, freeMem, HasImageIn(free)));
              (pending.State(), highest) == Pop(JOB_KEYS, q, Fits(JOB_KEYS, freeCpu, freeMem)) && homogenous == x
      ensures forall j :: j in Either(homogenous, highest) ==> j in old(pending.order) && JobFits(j, freeCpu, freeMem)
    {
      ghost var before := pending.State();
      BothWereInOrder(before, FitsAnd(JOB_KEYS, freeCpu, freeMem, HasImageIn(free)), Fits(JOB_KEYS, freeCpu, freeMem));
      homogenous := pending.PopBestFitHeuristic(freeCpu, freeMem, HasImageIn(free));
      highest := pending.PopBestFit(freeCpu, freeMem);
    }

    /** The rest of NextBestJob, after its two pops. */
    method SettleJobs(homogenous: Option<Job>, highest: Option<Job>) returns (job: Option<Job>)
      requires Valid()
      modifies this, pending, Either(homogenous, highest)`assignedContainerId
      ensures Valid() && (State(), job) == Settle(old(State()), old(pending.State()), homogenous, highest)
      ensures job == homogenous || job == highest
      ensures job.Some? ==> job.value.assignedContainerId == PACKING
      ensures forall j :: j in Either(homogenous, highest) && Some(j) != job ==>
                j.assignedContainerId == old(j.assignedContainerId)
    {
      if highest.Some? {
        if homogenous.None? || highest.value.priority > homogenous.value.priority {
          if homogenous.Some? {
            pending.Push(homogenous.value);
          }
          highest.value.assignedContainerId := PACKING;
          active := active[highest.value.id := highest.value];
          return highest;
        }
        pending.Push(highest.value);
      }
      if homogenous.Some? {
        homogenous.value.assignedContainerId := PACKING;
        active := active[homogenous.value.id := homogenous.value];
        return homogenous;
      }
      job := None;
    }
  }

  function Either(x: Option<Job>, y: Option<Job>): set<Job> {
    (if x.Some? then {x.value} else {}) + (if y.Some? then {y.value} else {})
  }

  function Names(names: seq<string>): set<string> {
    set n | n in names
  }

  method Collect(names: seq<string>) returns (free: set<string>)
    ensures free == Names(names)
  {
    free := {};
    for i := 0 to |names|
      invariant free == Names(names[..i])
    {
      free := free + {names[i]};
      assert names[..i + 1] == names[..i] + [names[i]];
    }
    assert names[..|names|] == names;
  }

  lemma BothWereInOrder(q: Lazy<Job>, first: Job -> bool, second: Job -> bool)
    ensures var (q1, x) := Pop(JOB_KEYS, q, first);
            var (q2, y) := Pop(JOB_KEYS, q1, second);
            && (x.Some? ==> x.value in q.order && first(x.value))
            && (y.Some? ==> y.value in q.order && second(y.value))
            && forall id :: id in q2.items ==> id in q.items && q2.items[id] == q.items[id]
  {
    var (q1, x) := Pop(JOB_KEYS, q, first);
    var (q2, y) := Pop(JOB_KEYS, q1, second);
    if x.Some? {
      PoppedFromOrder(JOB_KEYS, q, first, x.value);
    }
    if y.Some? {
      PoppedFromOrder(JOB_KEYS, q1, second, y.value);
      PoppedFromOrder(JOB_KEYS, q, first, y.value);
    }
  }

  method ListJobs(jobs: map<string, Job>) returns (r: seq<Job>)
    requires forall id :: id in jobs ==> jobs[id].id == id
    ensures Indexes(JOB_KEYS, jobs, r)
  {
    r := [];
    var left := jobs.Keys;
    ghost var seen: map<string, Job> := map[];
    while left != {}
      invariant Indexes(JOB_KEYS, seen, r)
      invariant left <= jobs.Keys && seen.Keys == jobs.Keys - left
      invariant forall id :: id in seen ==> seen[id] == jobs[id]
      decreases |left|
    {
      var id :| id in left;
      IndexesOneMore(JOB_KEYS, seen, r, jobs[id]);
      seen := seen[id := jobs[id]];
      r := r + [jobs[id]];
      left := left - {id};
    }
    assert seen == jobs;
  }

  function Placed(job: Option<Job>, find: FindResult, launch: LaunchResult): PackOutcome {
    if job.None? then Idle
    else
      match find
      case Found(c) => Assigned(job.value, c)
      case NoneFree => if launch.Launched? then Assigned(job.value, launch.container) else Failed(job.value)
      case FindError => Failed(job.value)
  }

  /** PackNextJob, up to the hand-over to the container. `find` and `launch` are what the container pool answers. A job
      is never taken that does not fit, so the way out for lack of room is not taken either; but a job whose container
      cannot be found or launched is left among the active ones, with nobody to roll it back. */
  method PackNextJob(jobs: Jobs, maxCpu: int, maxMem: int, freeImages: seq<string>, find: FindResult,
                     launch: LaunchResult)
    returns (outcome: PackOutcome, ghost freeCpu: int, ghost freeMem: int)
    requires jobs.Valid()
    modifies jobs, jobs.pending, jobs.pending.order`assignedContainerId, jobs.active.Values`assignedContainerId
    ensures jobs.Valid() && outcome != NotEnoughRoom
    ensures freeCpu == maxCpu - Usage(old(jobs.active), CPU_OF) && freeMem == maxMem - Usage(old(jobs.active), MEM_OF)
    ensures jobs.State() == NextBest(old(jobs.State()), Names(freeImages), freeCpu, freeMem).0
    ensures outcome == Placed(NextBest(old(jobs.State()), Names(freeImages), freeCpu, freeMem).1, find, launch)
    ensures outcome.Idle? <==> NextBest(old(jobs.State()), Names(freeImages), freeCpu, freeMem).1.None?
    ensures outcome.Assigned? <==> !outcome.Idle? && (find.Found? || (find.NoneFree? && launch.Launched?))
    ensures outcome.Assigned? ==> outcome.container == if find.Found? then find.container else launch.container
    ensures outcome.Assigned? ==> outcome.job.assignedContainerId == outcome.container && outcome.job.id in jobs.active
    ensures outcome.Failed? ==> outcome.stuck.assignedContainerId == PACKING && outcome.stuck.id in jobs.active
  {
    var usedCpu, usedMem := jobs.ActiveUtilization();
    var roomCpu, roomMem := maxCpu - usedCpu, maxMem - usedMem;
    freeCpu, freeMem := roomCpu, roomMem;
    var next := jobs.NextBestJob(freeImages, roomCpu, roomMem);
    if next.None? {
      outcome := Idle;
      return;
    }
    outcome := PlaceTaken(jobs, next.value, roomCpu, roomMem, find, launch);
  }

  /** The rest of it, for the job that has been taken. */
  method PlaceTaken(jobs: Jobs, job: Job, roomCpu: int, roomMem: int, find: FindResult, launch: LaunchResult)
    returns (outcome: PackOutcome)
    requires jobs.Valid() && job.id in jobs.active && jobs.active[job.id] == job
    requires JobFits(job, roomCpu, roomMem) && job.assignedContainerId == PACKING
    modifies jobs.active.Values`assignedContainerId
    ensures jobs.Valid() && jobs.State() == old(jobs.State()) && outcome == Placed(Some(job), find, launch)
    ensures outcome.Assigned? ==> outcome.job == job && job.assignedContainerId == outcome.container
    ensures outcome.Failed? ==> outcome.stuck == job && job.assignedContainerId == PACKING
  {
    outcome := ChooseContainer(job, roomCpu, roomMem, find, launch);
    if outcome.Assigned? {
      var running := jobs.MarkRunning(job.id, outcome.container);
    }
  }

  method ChooseContainer(job: Job, roomCpu: int, roomMem: int, find: FindResult, launch: LaunchResult)
    returns (outcome: PackOutcome)
    ensures outcome == if find == NoneFree && !JobFits(job, roomCpu, roomMem) then NotEnoughRoom
                       else Placed(Some(job), find, launch)
  {
    match find {
      case Found(c) => outcome := Assigned(job, c);
      case NoneFree =>
        if job.image.mem > roomMem || job.image.cpu > roomCpu {
          return NotEnoughRoom;
        }
        if launch == LaunchError {
          return Failed(job);
        }
        outcome := Assigned(job, launch.container);
      case FindError => outcome := Failed(job);
    }
  }
}
