/** One batch of the scheduler's packer: internal/scheduler/packer/operations.go pops pending jobs, places each on the
    first cluster that has room for it, and then commits and dispatches it, sheds it to a peer, or rolls it back. */
module BatchPacker {
  import opened ArbiterQueue
  import opened SchedulerState
  import opened Wrappers

  // ---------------------------------------------------------------- placement, on values

  /** What the packer reads of a cluster: a ClusterState of internal/scheduler/states/externs.go. */
  datatype Slot = Slot(id: string, usedCpu: int, usedMem: int, maxCpu: int, maxMem: int)

  predicate HasRoom(s: Slot, job: Job) {
    s.maxCpu - s.usedCpu >= job.cpu && s.maxMem - s.usedMem >= job.mem
  }

  /** The usage is charged through the map and through the local reference, so twice while both are the same object. */
  function Charge(s: Slot, job: Job, twice: bool): Slot {
    s.(usedCpu := s.usedCpu + job.cpu + (if twice then job.cpu else 0),
       usedMem := s.usedMem + job.mem + (if twice then job.mem else 0))
  }

  /** The clusters are tried in turn, starting a place further in every iteration of the batch. */
  function Turn(n: nat, i: nat, j: nat): (k: nat)
    requires n > 0
    ensures k < n
  {
    (i + j) % n
  }

  function TargetFrom(slots: seq<Slot>, i: nat, job: Job, j: nat): (k: Option<nat>)
    requires j <= |slots|
    ensures k.Some? ==> k.value < |slots| && HasRoom(slots[k.value], job)
    decreases |slots| - j
  {
    if j == |slots| then None
    else if HasRoom(slots[Turn(|slots|, i, j)], job) then Some(Turn(|slots|, i, j))
    else TargetFrom(slots, i, job, j + 1)
  }

  function Target(slots: seq<Slot>, i: nat, job: Job): (k: Option<nat>)
    ensures k.Some? ==> k.value < |slots| && HasRoom(slots[k.value], job)
  {
    TargetFrom(slots, i, job, 0)
  }

  /** One iteration: the job popped, and the clusters whose map entry is still the object the batch looks at. */
  datatype Iteration = Iteration(job: Job, live: set<nat>)

  function Placed(slots: seq<Slot>, i: nat, it: Iteration): seq<Slot> {
    match Target(slots, i, it.job)
    case Some(k) => slots[k := Charge(slots[k], it.job, k in it.live)]
    case None => slots
  }

  /** The local accounting after the first `n` iterations. */
  function After(slots: seq<Slot>, its: seq<Iteration>, n: nat): (r: seq<Slot>)
    requires n <= |its|
    ensures |r| == |slots|
  {
    if n == 0 then slots else Placed(After(slots, its, n - 1), n - 1, its[n - 1])
  }

  /** What the jobs that were placed on cluster `k` need together, of one resource. */
  function Sum(slots: seq<Slot>, its: seq<Iteration>, n: nat, k: nat, weight: Job -> int): int
    requires n <= |its|
  {
    if n == 0 then 0
    else Sum(slots, its, n - 1, k, weight)
         + if Target(After(slots, its, n - 1), n - 1, its[n - 1].job) == Some(k) then weight(its[n - 1].job) else 0
  }

  const CPU_OF := (j: Job) => j.cpu

  const MEM_OF := (j: Job) => j.mem

  predicate NonNegative(job: Job) {
    job.cpu >= 0 && job.mem >= 0
  }

  ghost predicate Demands(its: seq<Iteration>) {
    forall i :: 0 <= i < |its| ==> NonNegative(its[i].job)
  }

  /** The local accounting never falls behind what has been placed. */
  lemma {:induction false} AccountingCovers(slots: seq<Slot>, its: seq<Iteration>, n: nat, k: nat)
    requires n <= |its| && k < |slots| && Demands(its)
    ensures var s, t := slots[k], After(slots, its, n)[k];
            && t.maxCpu == s.maxCpu && t.maxMem == s.maxMem && t.id == s.id
            && 0 <= Sum(slots, its, n, k, CPU_OF) <= t.usedCpu - s.usedCpu
            && 0 <= Sum(slots, its, n, k, MEM_OF) <= t.usedMem - s.usedMem
  {
    if n > 0 {
      AccountingCovers(slots, its, n - 1, k);
    }
  }

  /** Whatever jobs are popped, however often the usage is charged twice, and whichever map entries are replaced
      meanwhile, the jobs that a batch places on a cluster need no more than what was free there at its start. */
  lemma {:induction false} NeverOverplaced(slots: seq<Slot>, its: seq<Iteration>, n: nat, k: nat)
    requires n <= |its| && k < |slots| && Demands(its)
    ensures var cpu, mem := Sum(slots, its, n, k, CPU_OF), Sum(slots, its, n, k, MEM_OF);
            && (cpu == 0 || cpu <= slots[k].maxCpu - slots[k].usedCpu)
            && (mem == 0 || mem <= slots[k].maxMem - slots[k].usedMem)
  {
    if n > 0 {
      NeverOverplaced(slots, its, n - 1, k);
      AccountingCovers(slots, its, n - 1, k);
    }
  }

  /** Charging twice is not needed for that, and costs room: a cluster that both of two jobs would fit on takes only the
      first. */
  lemma DoubleChargeTurnsAway(s: Slot, a: Job, b: Job)
    requires NonNegative(a) && a.cpu > 0 && b.cpu > 0 && b.mem >= 0
    requires s.maxCpu - s.usedCpu == a.cpu + b.cpu && s.maxMem - s.usedMem >= 2 * a.mem + b.mem
    ensures Target([s], 0, a) == Some(0)
    ensures HasRoom(Charge(s, a, false), b) && Target([Charge(s, a, true)], 1, b) == None
  {
    TurnedAwayExactly([s], 0, a);
    TurnedAwayExactly([Charge(s, a, true)], 1, b);
    assert HasRoom([s][0], a);
  }

  lemma {:induction false} TargetMissesNobody(slots: seq<Slot>, i: nat, job: Job, j: nat)
    requires j <= |slots|
    ensures TargetFrom(slots, i, job, j) == None
            <==> forall m :: j <= m < |slots| ==> !HasRoom(slots[Turn(|slots|, i, m)], job)
    decreases |slots| - j
  {
    if j < |slots| {
      TargetMissesNobody(slots, i, job, j + 1);
    }
  }

  lemma TurnReaches(n: nat, i: nat, k: nat) returns (j: nat)
    requires k < n
    ensures j < n && Turn(n, i, j) == k
  {
    var start := i % n;
    j := if k >= start then k - start else k + n - start;
    assert i == (i / n) * n + start;
    if k >= start {
      ModOf(i / n, n, i + j, k);
    } else {
      ModOf(i / n + 1, n, i + j, k);
    }
  }

  lemma ModOf(q: int, n: int, x: int, r: int)
    requires n > 0 && 0 <= r < n && x == q * n + r
    ensures x % n == r
  {
    UniqueQuotient(q, x / n, n, r, x % n);
  }

  lemma UniqueQuotient(q: int, p: int, n: int, r: int, s: int)
    requires 0 <= r < n && 0 <= s < n && q * n + r == p * n + s
    ensures r == s
  {
    if q > p {
      assert (q - p) * n == q * n - p * n;
      AtLeastOnce(q - p, n);
    } else if p > q {
      assert (p - q) * n == p * n - q * n;
      AtLeastOnce(p - q, n);
    }
  }

  lemma AtLeastOnce(d: int, n: int)
    requires d >= 1 && n > 0
    ensures d * n >= n
  {
  }

  /** A job is turned away by the round exactly when no cluster has room for it. */
  lemma TurnedAwayExactly(slots: seq<Slot>, i: nat, job: Job)
    ensures Target(slots, i, job) == None <==> forall k :: 0 <= k < |slots| ==> !HasRoom(slots[k], job)
  {
    TargetMissesNobody(slots, i, job, 0);
    forall k | 0 <= k < |slots| && HasRoom(slots[k], job) ensures Target(slots, i, job).Some? {
      var j := TurnReaches(|slots|, i, k);
      assert HasRoom(slots[Turn(|slots|, i, j)], job);
    }
  }

  // ---------------------------------------------------------------- when a batch stops

  function CpuCeiling(slots: seq<Slot>, n: nat): (c: int)
    requires n <= |slots|
    ensures c >= 0 && forall k :: 0 <= k < n ==> slots[k].maxCpu - slots[k].usedCpu <= c
  {
    if n == 0 then 0
    else
      var c := CpuCeiling(slots, n - 1);
      if slots[n - 1].maxCpu - slots[n - 1].usedCpu > c then slots[n - 1].maxCpu - slots[n - 1].usedCpu else c
  }

  function MemCeiling(slots: seq<Slot>, n: nat): (c: int)
    requires n <= |slots|
    ensures c >= 0 && forall k :: 0 <= k < n ==> slots[k].maxMem - slots[k].usedMem <= c
  {
    if n == 0 then 0
    else
      var c := MemCeiling(slots, n - 1);
      if slots[n - 1].maxMem - slots[n - 1].usedMem > c then slots[n - 1].maxMem - slots[n - 1].usedMem else c
  }

  const UNBOUNDED := 0x4000_0000_0000_0000

  /** The search bounds of one pop: none at all while jobs may still be shed to peers. */
  function Search(slots: seq<Slot>, mayShed: bool): (int, int) {
    if mayShed then (UNBOUNDED, UNBOUNDED) else (CpuCeiling(slots, |slots|), MemCeiling(slots, |slots|))
  }

  /** A batch that stops early stops because it must: no pending job fits any cluster by the local accounting, and if
      jobs may still be shed, none is pending that is not beyond all bounds. */
  lemma StopsOnlyWhenItMust(s: Ledger, log: seq<Job>, slots: seq<Slot>, mayShed: bool, job: Job, k: nat)
    requires Orderly(s, log) && job in log && k < |slots| && job.cpu <= UNBOUNDED && job.mem <= UNBOUNDED
    requires NextPending(s, Search(slots, mayShed).0, Search(slots, mayShed).1).1 == None
    ensures !mayShed && !HasRoom(slots[k], job)
  {
    var fits := Fits(SchedulerState.JOB_KEYS, Search(slots, mayShed).0, Search(slots, mayShed).1);
    PopRefines(SchedulerState.JOB_KEYS, s.pending, log, fits);
    TakesTheBest(SchedulerState.JOB_KEYS, log, fits);
    assert !fits(job);
  }

  /** A quarter of the batch may be shed, and never fewer than five. */
  function Quota(jobCount: int): int {
    if jobCount / 4 < 5 then 5 else jobCount / 4
  }

  // ---------------------------------------------------------------- what becomes of a popped job

  /** What a peer on the list makes of a job: OpConn finds no connection to it and reports no error, the call fails or
      is turned down, or the peer takes the job. */
  datatype PeerAnswer = NoConnection | Refused | Accepted

  /** How the world answers for one job: whether the claim is committed, whether the cluster takes the job, and the
      peers that have room for it. */
  datatype Answers = Answers(committed: bool, dispatched: bool, peers: seq<PeerAnswer>)

  /** The first peer that does not turn the job down; what later peers would say does not matter. */
  function FirstWilling(peers: seq<PeerAnswer>, from: nat): Option<PeerAnswer>
    requires from <= |peers|
    decreases |peers| - from
  {
    if from == |peers| then None
    else if peers[from] == Refused then FirstWilling(peers, from + 1)
    else Some(peers[from])
  }

  function Attempt(s: Ledger, id: string, cluster: string, a: Answers): Ledger {
    var (s1, known) := Assign(s, id, cluster);
    if !known then s
    else if !a.committed || !a.dispatched then Unassign(s1, id)
    else Assign(s1, id, cluster).0
  }

  function Shed(s: Ledger, id: string, a: Answers): (Ledger, bool) {
    match FirstWilling(a.peers, 0)
    case None => (s, false)
    case Some(answer) => (if answer == Accepted then Purge(s, id) else s, true)
  }

  function Execute(s: Ledger, id: string, target: Option<string>, mayShed: bool, a: Answers): Ledger {
    match target
    case Some(cluster) => Attempt(s, id, cluster, a)
    case None =>
      var (s1, handedOver) := if mayShed then Shed(s, id, a) else (s, false);
      if handedOver then s1 else Unassign(s, id)
  }

  /** A job as NextPendingJob hands it out. */
  ghost predicate InHand(s: Ledger, id: string) {
    id in s.jobs && id in s.placed && id in s.marks && s.marks[id] == Mark(Running, PACKING)
  }

  ghost predicate IsAssigned(s: Ledger, id: string, cluster: string) {
    id in s.placed && id !in s.pending.items && id in s.marks && s.marks[id] == Mark(Running, cluster)
  }

  ghost predicate IsPending(s: Ledger, id: string) {
    id in s.pending.items && id !in s.placed && id in s.marks && s.marks[id] == Mark(Pending, "")
  }

  ghost predicate IsGone(s: Ledger, id: string) {
    id !in s.jobs && id !in s.placed && id !in s.completed && id !in s.pending.items
  }

  lemma NextPendingHandsOut(s: Ledger, log: seq<Job>, cpu: int, mem: int)
    requires Orderly(s, log) && NoCopies(s)
    ensures var (t, job) := NextPending(s, cpu, mem);
            && Orderly(t, Take(SchedulerState.JOB_KEYS, log, Fits(SchedulerState.JOB_KEYS, cpu, mem)).0) && NoCopies(t)
            && (job.Some? ==> InHand(t, job.value.id) && t.jobs[job.value.id] == job.value)
  {
    StepStaysOrderlyExactly(s, log, NextPendingJob(cpu, mem));
    NextPendingLeavesNoCopies(s, log, cpu, mem);
    var fits := Fits(SchedulerState.JOB_KEYS, cpu, mem);
    PopRefines(SchedulerState.JOB_KEYS, s.pending, log, fits);
    TakenIsIndexed(SchedulerState.JOB_KEYS, s.pending.items, log, fits);
  }

  /** Whether the job was shed or rolled back. */
  function Fate(target: Option<string>, mayShed: bool, a: Answers): Option<PeerAnswer> {
    if target.Some? || !mayShed then None else FirstWilling(a.peers, 0)
  }

  /** For every combination of answers, a popped job ends up assigned to its target after an accepted dispatch, back in
      the queue, or gone after a peer took it; except that it stays in hand, assigned to nobody and not pending, exactly
      when it was to be shed and the first peer on the list that did not turn it down has no connection. Assigned to a
      cluster of that name it looks as if it were in hand. */
  lemma FateExactly(s: Ledger, id: string, target: Option<string>, mayShed: bool, a: Answers)
    requires Partition(s) && InHand(s, id)
    ensures var t := Execute(s, id, target, mayShed, a);
            && (target.Some? && a.committed && a.dispatched <==> target.Some? && IsAssigned(t, id, target.value))
            && (IsGone(t, id) <==> Fate(target, mayShed, a) == Some(Accepted))
            && (InHand(t, id) <==> Fate(target, mayShed, a) == Some(NoConnection)
                                   || (target == Some(PACKING) && a.committed && a.dispatched))
            && (IsPending(t, id)
                <==> Fate(target, mayShed, a) == None && !(target.Some? && a.committed && a.dispatched))
  {
    assert InOneSet(s, id);
    WillingIsNotRefused(a.peers, 0);
  }

  lemma {:induction false} WillingIsNotRefused(peers: seq<PeerAnswer>, from: nat)
    requires from <= |peers|
    ensures FirstWilling(peers, from) != Some(Refused)
    ensures FirstWilling(peers, from) == None <==> forall i :: from <= i < |peers| ==> peers[i] == Refused
    decreases |peers| - from
  {
    if from < |peers| && peers[from] == Refused {
      WillingIsNotRefused(peers, from + 1);
    }
  }

  /** With a connection to every listed peer, no job is ever left in hand. */
  lemma ConnectedPeersLoseNoJob(s: Ledger, id: string, target: Option<string>, mayShed: bool, a: Answers)
    requires Partition(s) && InHand(s, id) && NoConnection !in a.peers
    ensures var t := Execute(s, id, target, mayShed, a);
            (target.Some? && IsAssigned(t, id, target.value)) || IsPending(t, id) || IsGone(t, id)
  {
    FateExactly(s, id, target, mayShed, a);
    WillingIsListed(a.peers, 0);
  }

  lemma {:induction false} WillingIsListed(peers: seq<PeerAnswer>, from: nat)
    requires from <= |peers|
    ensures FirstWilling(peers, from).Some? ==> FirstWilling(peers, from).value in peers
    decreases |peers| - from
  {
    if from < |peers| && peers[from] == Refused {
      WillingIsListed(peers, from + 1);
    }
  }

  ghost predicate SameStanding(s: Ledger, t: Ledger, id: string) {
    && (id in s.jobs <==> id in t.jobs) && (id in s.jobs ==> s.jobs[id] == t.jobs[id])
    && (id in s.marks <==> id in t.marks) && (id in s.marks ==> s.marks[id] == t.marks[id])
    && (id in s.pending.items <==> id in t.pending.items) && (id in s.placed <==> id in t.placed)
    && (id in s.completed <==> id in t.completed)
  }

  // ---------------------------------------------------------------- completions in between

  /** Completions that the job stream of a cluster reports for the job: before the first AssignJob, between that and the
      roll-back or the AssignJob that follows an accepted dispatch, and after. */
  datatype Reports = Reports(early: Option<bool>, middle: Option<bool>, late: Option<bool>)

  const NO_REPORTS := Reports(None, None, None)

  function Reported(s: Ledger, id: string, report: Option<bool>): (t: Ledger)
    requires s.marks.Keys == s.jobs.Keys
    ensures t.marks.Keys == t.jobs.Keys
  {
    if report.Some? then Complete(s, id, report.value).0 else s
  }

  /** The attempt with its locked regions apart. */
  function AttemptAmid(s: Ledger, id: string, cluster: string, a: Answers, r: Reports): Ledger
    requires s.marks.Keys == s.jobs.Keys
  {
    var s1, known := Reported(s, id, r.early), id in s.jobs;
    var s2 := Reported(Assign(s1, id, cluster).0, id, r.middle);
    var s3 := if !known then s2
              else if a.committed && a.dispatched then Assign(s2, id, cluster).0
              else Unassign(s2, id);
    Reported(s3, id, r.late)
  }

  /** Assigned and completed at once. */
  predicate Torn(s: Ledger, id: string) {
    id in s.placed && id in s.completed
  }

  ghost predicate IsCompleted(s: Ledger, id: string) {
    && id in s.completed && id !in s.placed && id !in s.pending.items
    && id in s.marks && s.marks[id].status in {Completed, Failed}
  }

  /** The assignment after a report that nothing puts right: after an accepted dispatch, the second one, and otherwise
      the first, since the roll-back leaves a completed job as it is. */
  predicate Tears(a: Answers, r: Reports) {
    r.late.None?
    && if a.committed && a.dispatched then r.early.Some? || r.middle.Some? else r.early.Some? && r.middle.None?
  }

  /** The last of them. */
  function Final(r: Reports): Option<bool> {
    if r.late.Some? then r.late else if r.middle.Some? then r.middle else r.early
  }

  /** However the reports fall between the regions: the job is left both assigned and completed exactly when the last
      assignment comes after a report and no report after it. Otherwise a job reported at all is completed, with the
      outcome that the last report said, and one that is not ends as it does without interruption. */
  lemma FateAmidReportsExactly(s: Ledger, id: string, cluster: string, a: Answers, r: Reports)
    requires Partition(s) && InHand(s, id)
    ensures var t := AttemptAmid(s, id, cluster, a, r);
            && (Torn(t, id) <==> Tears(a, r))
            && (IsCompleted(t, id) <==> r != NO_REPORTS && !Tears(a, r))
            && (r != NO_REPORTS && !Tears(a, r) ==>
                  t.marks[id].status == if Final(r) == Some(true) then Completed else Failed)
            && (r == NO_REPORTS ==> t == Attempt(s, id, cluster, a))
  {
    assert InOneSet(s, id);
  }

  /** That is all that reports can do to the partition. */
  lemma PartitionAmidReportsExactly(s: Ledger, id: string, cluster: string, a: Answers, r: Reports)
    requires Partition(s) && InHand(s, id)
    ensures Partition(AttemptAmid(s, id, cluster, a, r)) <==> !Tears(a, r)
  {
    var t := AttemptAmid(s, id, cluster, a, r);
    if Tears(a, r) {
      FateAmidReportsExactly(s, id, cluster, a, r);
      assert id in t.marks ==> !InOneSet(t, id);
    } else {
      AmidTouchesOne(s, id, cluster, a, r);
      AmidKeepsId(s, id, cluster, a, r);
      TouchKeepsPartition(s, t, id);
    }
  }

  /** Same jobs, and the same standing and queue entry for all ids but one. */
  ghost predicate OnlyTouches(s: Ledger, t: Ledger, id: string) {
    && t.jobs == s.jobs && t.marks.Keys == s.marks.Keys
    && t.placed - {id} == s.placed - {id} && t.completed - {id} == s.completed - {id}
    && t.pending.items - {id} == s.pending.items - {id} && t.marks - {id} == s.marks - {id}
  }

  lemma TouchKeepsPartition(s: Ledger, t: Ledger, id: string)
    requires Partition(s) && id in s.jobs && OnlyTouches(s, t, id)
    requires InOneSet(t, id) && (id in t.pending.items ==> t.pending.items[id] == t.jobs[id])
    ensures Partition(t)
  {
    forall other | other in t.jobs && other != id ensures InOneSet(t, other) {
      assert InOneSet(s, other);
      SameElsewhere(s, t, id, other);
    }
    forall other | other in t.pending.items ensures other in t.jobs && t.pending.items[other] == t.jobs[other] {
      SameElsewhere(s, t, id, other);
    }
    forall other | other in t.placed + t.completed ensures other in t.jobs {
      SameElsewhere(s, t, id, other);
    }
  }

  lemma SameElsewhere(s: Ledger, t: Ledger, id: string, other: string)
    requires OnlyTouches(s, t, id)
    ensures other != id ==>
              && (other in t.placed <==> other in s.placed) && (other in t.completed <==> other in s.completed)
              && (other in t.pending.items <==> other in s.pending.items)
              && (other in t.pending.items ==> t.pending.items[other] == s.pending.items[other])
              && (other in t.marks ==> t.marks[other] == s.marks[other])
  {
    if other != id {
      assert other in t.placed - {id} <==> other in s.placed - {id};
      assert other in t.completed - {id} <==> other in s.completed - {id};
      assert other in t.pending.items - {id} <==> other in s.pending.items - {id};
      assert other in t.marks ==> (t.marks - {id})[other] == (s.marks - {id})[other];
      assert other in t.pending.items ==> (t.pending.items - {id})[other] == (s.pending.items - {id})[other];
    }
  }

  lemma ReportedTouchesOne(s: Ledger, id: string, report: Option<bool>)
    requires s.marks.Keys == s.jobs.Keys
    ensures OnlyTouches(s, Reported(s, id, report), id)
  {
  }

  lemma AssignTouchesOne(s: Ledger, id: string, cluster: string)
    requires s.marks.Keys == s.jobs.Keys
    ensures OnlyTouches(s, Assign(s, id, cluster).0, id)
  {
  }

  lemma UnassignTouchesOne(s: Ledger, id: string)
    requires s.marks.Keys == s.jobs.Keys && (id in s.jobs ==> s.jobs[id].id == id)
    ensures OnlyTouches(s, Unassign(s, id), id)
  {
  }

  /** One region after the other. */
  lemma AmidTouchesOne(s: Ledger, id: string, cluster: string, a: Answers, r: Reports)
    requires Partition(s) && id in s.jobs
    ensures OnlyTouches(s, AttemptAmid(s, id, cluster, a, r), id)
  {
    var s1 := Reported(s, id, r.early);
    var s2 := Assign(s1, id, cluster).0;
    var s3 := Reported(s2, id, r.middle);
    ReportedTouchesOne(s, id, r.early);
    AssignTouchesOne(s1, id, cluster);
    ReportedTouchesOne(s2, id, r.middle);
    AssignTouchesOne(s3, id, cluster);
    UnassignTouchesOne(s3, id);
    ReportedTouchesOne(if a.committed && a.dispatched then Assign(s3, id, cluster).0 else Unassign(s3, id), id, r.late);
  }

  lemma AmidKeepsId(s: Ledger, id: string, cluster: string, a: Answers, r: Reports)
    requires Partition(s) && InHand(s, id) && !Tears(a, r)
    ensures var t := AttemptAmid(s, id, cluster, a, r);
            && id in t.marks && InOneSet(t, id) && (id in t.pending.items ==> t.pending.items[id] == t.jobs[id])
  {
    FateAmidReportsExactly(s, id, cluster, a, r);
    if r == NO_REPORTS {
      AttemptKeepsId(s, id, cluster, a);
    }
  }

  lemma AttemptKeepsId(s: Ledger, id: string, cluster: string, a: Answers)
    requires Partition(s) && InHand(s, id)
    ensures var t := Attempt(s, id, cluster, a);
            && id in t.marks && InOneSet(t, id) && (id in t.pending.items ==> t.pending.items[id] == t.jobs[id])
  {
    assert InOneSet(s, id);
  }

  /** No other job changes set. */
  lemma OthersStayPut(s: Ledger, id: string, target: Option<string>, mayShed: bool, a: Answers, other: string)
    requires other != id && (id in s.jobs ==> s.jobs[id].id == id)
    ensures SameStanding(s, Execute(s, id, target, mayShed, a), other)
  {
  }

  /** And the ledger stays in order. */
  lemma ExecuteStaysOrderly(s: Ledger, log: seq<Job>, id: string, target: Option<string>, mayShed: bool, a: Answers)
    returns (after: seq<Job>)
    requires Orderly(s, log) && NoCopies(s) && InHand(s, id)
    ensures Orderly(Execute(s, id, target, mayShed, a), after) && NoCopies(Execute(s, id, target, mayShed, a))
  {
    assert InOneSet(s, id);
    if target.Some? {
      var s1 := Assign(s, id, target.value).0;
      var log1 := LedgerStep(s, log, AssignJob(id, target.value));
      assert InOneSet(s1, id);
      var last := if a.committed && a.dispatched then AssignJob(id, target.value) else UnassignJob(id);
      after := LedgerStep(s1, log1, last);
    } else if mayShed && FirstWilling(a.peers, 0).Some? {
      after := log;
      if FirstWilling(a.peers, 0) == Some(Accepted) {
        after := LedgerStep(s, log, PurgeJob(id));
      }
    } else {
      after := LedgerStep(s, log, UnassignJob(id));
    }
  }

  lemma LedgerStep(s: Ledger, log: seq<Job>, op: LedgerOp) returns (after: seq<Job>)
    requires Orderly(s, log) && NoCopies(s) && Disciplined(s, op)
    ensures Orderly(StepLedger(s, op), after) && NoCopies(StepLedger(s, op))
  {
    DisciplinedIsProper(s, op);
    StepStaysOrderlyExactly(s, log, op);
    StepKeepsNoCopies(s, log, op);
    after := StepLog(s, log, op);
  }

  // ---------------------------------------------------------------- the packer

  class ClusterState {
    const id: string
    var usedCpu: int
    var usedMem: int
    const maxCpu: int
    const maxMem: int

    constructor (s: Slot)
      ensures AsSlot() == s
    {
      id, usedCpu, usedMem, maxCpu, maxMem := s.id, s.usedCpu, s.usedMem, s.maxCpu, s.maxMem;
    }

    function AsSlot(): Slot
      reads this
    {
      Slot(id, usedCpu, usedMem, maxCpu, maxMem)
    }
  }

  /** The clusters of a State. */
  class ClusterBoard {
    var clusters: map<string, ClusterState>

    ghost predicate Valid()
      reads this
    {
      forall id :: id in clusters ==> clusters[id].id == id
    }

    method LocalClusters() returns (list: seq<ClusterState>)
      requires Valid()
      ensures DistinctClusters(list) && forall k :: 0 <= k < |list| ==> list[k] in clusters.Values
      ensures forall id :: id in clusters ==> clusters[id] in list
    {
      list := [];
      var left := clusters.Keys;
      while left != {}
        invariant left <= clusters.Keys && DistinctClusters(list)
        invariant forall k :: 0 <= k < |list| ==> list[k].id in clusters.Keys - left && clusters[list[k].id] == list[k]
        invariant forall id :: id in clusters.Keys - left ==> clusters[id] in list
        decreases |left|
      {
        var id :| id in left;
        list := list + [clusters[id]];
        left := left - {id};
      }
    }

    method SoftUpdateCluster(clusterId: string, addCpu: int, addMem: int)
      requires Valid()
      modifies clusters.Values
      ensures Valid()
      ensures forall c :: c in clusters.Values ==>
                c.usedCpu == old(c.usedCpu) + (if c.id == clusterId then addCpu else 0)
                && c.usedMem == old(c.usedMem) + (if c.id == clusterId then addMem else 0)
    {
      if clusterId in clusters {
        var cluster := clusters[clusterId];
        cluster.usedCpu := cluster.usedCpu + addCpu;
        cluster.usedMem := cluster.usedMem + addMem;
      }
    }

    /** A health poll replaces the object. */
    method UpdateCluster(polled: Slot)
      requires Valid()
      modifies this
      ensures Valid() && clusters.Keys == old(clusters.Keys) + {polled.id}
      ensures fresh(clusters[polled.id]) && clusters[polled.id].AsSlot() == polled
      ensures forall id :: id in old(clusters) && id != polled.id ==> clusters[id] == old(clusters[id])
    {
      var cluster := new ClusterState(polled);
      clusters := clusters[polled.id := cluster];
    }
  }

  ghost predicate DistinctClusters(list: seq<ClusterState>) {
    forall i, j :: 0 <= i < j < |list| ==> list[i].id != list[j].id
  }

  function SlotsOf(list: seq<ClusterState>): (r: seq<Slot>)
    reads list
    ensures |r| == |list| && forall k :: 0 <= k < |list| ==> r[k] == list[k].AsSlot()
  {
    if list == [] then [] else SlotsOf(list[..|list| - 1]) + [list[|list| - 1].AsSlot()]
  }

  /** The clusters that the map still holds as the same objects. */
  function LiveIn(board: ClusterBoard, list: seq<ClusterState>): set<nat>
    reads board
  {
    set k: nat | k < |list| && list[k].id in board.clusters && board.clusters[list[k].id] == list[k]
  }

  method Ceilings(list: seq<ClusterState>) returns (maxCpu: int, maxMem: int)
    ensures maxCpu == CpuCeiling(SlotsOf(list), |list|) && maxMem == MemCeiling(SlotsOf(list), |list|)
  {
    maxCpu, maxMem := 0, 0;
    for k := 0 to |list|
      invariant maxCpu == CpuCeiling(SlotsOf(list), k) && maxMem == MemCeiling(SlotsOf(list), k)
    {
      if list[k].maxCpu - list[k].usedCpu > maxCpu {
        maxCpu := list[k].maxCpu - list[k].usedCpu;
      }
      if list[k].maxMem - list[k].usedMem > maxMem {
        maxMem := list[k].maxMem - list[k].usedMem;
      }
    }
  }

  method FindTarget(list: seq<ClusterState>, i: nat, job: Job) returns (target: Option<nat>)
    ensures target == Target(SlotsOf(list), i, job)
  {
    var n := |list|;
    for j := 0 to n
      invariant TargetFrom(SlotsOf(list), i, job, j) == Target(SlotsOf(list), i, job)
    {
      var k := Turn(n, i, j);
      if list[k].maxCpu - list[k].usedCpu >= job.cpu && list[k].maxMem - list[k].usedMem >= job.mem {
        return Some(k);
      }
    }
    target := None;
  }

  /** Once through the map, which may by now hold another object, and once through the local reference. */
  method ChargeCluster(board: ClusterBoard, list: seq<ClusterState>, k: nat, job: Job)
    requires board.Valid() && DistinctClusters(list) && k < |list|
    modifies board.clusters.Values, list[k]
    ensures board.Valid()
    ensures SlotsOf(list) == old(SlotsOf(list))[k := Charge(old(SlotsOf(list))[k], job, k in LiveIn(board, list))]
  {
    var cluster := list[k];
    board.SoftUpdateCluster(cluster.id, job.cpu, job.mem);
    cluster.usedCpu := cluster.usedCpu + job.cpu;
    cluster.usedMem := cluster.usedMem + job.mem;
    forall m | 0 <= m < |list|
      ensures SlotsOf(list)[m]
              == if m == k then Charge(old(SlotsOf(list))[k], job, k in LiveIn(board, list)) else old(SlotsOf(list))[m]
    {
      assert m != k ==> list[m].id != cluster.id;
    }
  }

  /** The inner loop of the batch, and what it does on a hit. */
  method PlaceJob(board: ClusterBoard, list: seq<ClusterState>, i: nat, job: Job) returns (target: Option<nat>)
    requires board.Valid() && DistinctClusters(list)
    modifies board.clusters.Values, list
    ensures board.Valid()
    ensures target == Target(old(SlotsOf(list)), i, job)
    ensures SlotsOf(list) == Placed(old(SlotsOf(list)), i, Iteration(job, LiveIn(board, list)))
  {
    target := FindTarget(list, i, job);
    if target.Some? {
      ChargeCluster(board, list, target.value, job);
    }
  }

  method AttemptJobAssignment(state: State, clusterId: string, jobId: string, a: Answers) returns (ok: bool)
    requires state.Valid()
    modifies state, state.unassignedJobs, state.jobs.Values
    ensures state.Valid() && state.Now() == Attempt(old(state.Now()), jobId, clusterId, a)
    ensures ok <==> jobId in old(state.jobs) && a.committed && a.dispatched
  {
    var known := state.AssignJob(jobId, clusterId);
    if !known {
      return false;
    }
    if !a.committed {
      state.UnassignJob(jobId);
      return false;
    }
    if !a.dispatched {
      state.UnassignJob(jobId);
      return false;
    }
    var again := state.AssignJob(jobId, clusterId);
    ok := true;
  }

  method Redistribute(state: State, jobId: string, a: Answers) returns (handedOver: bool)
    requires state.Valid()
    modifies state, state.unassignedJobs
    ensures state.Valid() && (state.Now(), handedOver) == Shed(old(state.Now()), jobId, a)
  {
    for i := 0 to |a.peers|
      invariant state.Valid() && state.Now() == old(state.Now())
      invariant FirstWilling(a.peers, i) == FirstWilling(a.peers, 0)
    {
      match a.peers[i] {
        case Refused =>
        case Accepted =>
          state.PurgeJob(jobId);
          return true;
        case NoConnection => return true;
      }
    }
    handedOver := false;
  }

  method ExecuteJobAssignment(state: State, jobId: string, target: Option<string>, redistributed: nat, quota: int,
                              a: Answers)
    returns (count: nat)
    requires state.Valid()
    modifies state, state.unassignedJobs, state.jobs.Values
    ensures state.Valid() && state.Now() == Execute(old(state.Now()), jobId, target, redistributed < quota, a)
    ensures count == if target == None && redistributed < quota then redistributed + 1 else redistributed
  {
    count := redistributed;
    if target.Some? {
      var ok := AttemptJobAssignment(state, target.value, jobId, a);
      return;
    }
    if redistributed < quota {
      count := count + 1;
      var handedOver := Redistribute(state, jobId, a);
      if handedOver {
        return;
      }
    }
    state.UnassignJob(jobId);
  }

  /** An execution brings no new objects into the state. */
  lemma ExecuteKeepsObjects(s: Ledger, id: string, target: Option<string>, mayShed: bool, a: Answers, j: Job)
    ensures var t := Execute(s, id, target, mayShed, a);
            && (j in t.jobs.Values ==> j in s.jobs.Values)
            && (j in t.pending.order ==> j in s.pending.order || j in s.jobs.Values)
  {
    if id in s.jobs {
      assert s.jobs[id] in s.jobs.Values;
    }
  }

  lemma NextPendingKeepsObjects(s: Ledger, cpu: int, mem: int, j: Job)
    ensures j in NextPending(s, cpu, mem).0.pending.order ==> j in s.pending.order
  {
    PoppedFromOrder(SchedulerState.JOB_KEYS, s.pending, Fits(SchedulerState.JOB_KEYS, cpu, mem), j);
  }

  lemma NextPendingKeepsJobs(s: Ledger, cpu: int, mem: int)
    ensures NextPending(s, cpu, mem).0.jobs == s.jobs
  {
  }

  function Objects(state: State): set<Job>
    reads state, state.unassignedJobs
  {
    state.jobs.Values + set j | j in state.unassignedJobs.order
  }

  /** The state has gained no job object since the batch began. */
  twostate predicate NoNewJobs(state: State)
    reads state, state.unassignedJobs
  {
    Objects(state) <= old(Objects(state))
  }

  method PopOnly(state: State, cpu: int, mem: int) returns (job: Option<Job>)
    requires state.Valid()
    modifies state, state.unassignedJobs, state.unassignedJobs.order
    ensures state.Valid() && NoNewJobs(state) && (state.Now(), job) == NextPending(old(state.Now()), cpu, mem)
  {
    ghost var s, order := state.Now(), state.unassignedJobs.order;
    ghost var t := NextPending(s, cpu, mem).0;
    NextPendingKeepsJobs(s, cpu, mem);
    job := state.NextPendingJob(cpu, mem);
    assert state.jobs == t.jobs && state.unassignedJobs.order == t.pending.order;
    forall j | j in t.pending.order ensures j in order {
      NextPendingKeepsObjects(s, cpu, mem, j);
    }
  }

  method ExecuteOnly(state: State, jobId: string, target: Option<string>, redistributed: nat, quota: int, a: Answers)
    returns (count: nat)
    requires state.Valid()
    modifies state, state.unassignedJobs, state.jobs.Values
    ensures state.Valid() && NoNewJobs(state)
    ensures state.Now() == Execute(old(state.Now()), jobId, target, redistributed < quota, a)
    ensures count == if target == None && redistributed < quota then redistributed + 1 else redistributed
  {
    ghost var s, order, jobs := state.Now(), state.unassignedJobs.order, state.jobs;
    ghost var t := Execute(s, jobId, target, redistributed < quota, a);
    count := ExecuteJobAssignment(state, jobId, target, redistributed, quota, a);
    assert state.jobs == t.jobs && state.unassignedJobs.order == t.pending.order;
    forall j | j in t.jobs.Values ensures j in jobs.Values {
      ExecuteKeepsObjects(s, jobId, target, redistributed < quota, a, j);
    }
    forall j | j in t.pending.order ensures j in order || j in jobs.Values {
      ExecuteKeepsObjects(s, jobId, target, redistributed < quota, a, j);
    }
  }

  /** The clusters take no notice of it. */
  method ExecuteBeside(state: State, board: ClusterBoard, list: seq<ClusterState>, jobId: string,
                       target: Option<string>, redistributed: nat, quota: int, a: Answers) returns (count: nat)
    requires state.Valid() && board.Valid()
    modifies state, state.unassignedJobs, state.jobs.Values
    ensures state.Valid() && board.Valid() && NoNewJobs(state)
    ensures state.Now() == Execute(old(state.Now()), jobId, target, redistributed < quota, a)
    ensures SlotsOf(list) == old(SlotsOf(list)) && LiveIn(board, list) == old(LiveIn(board, list))
    ensures count == if target == None && redistributed < quota then redistributed + 1 else redistributed
  {
    ghost var slots, live := SlotsOf(list), LiveIn(board, list);
    count := ExecuteOnly(state, jobId, target, redistributed, quota, a);
    assert forall k :: 0 <= k < |list| ==> SlotsOf(list)[k] == slots[k];
  }

  method PlaceBeside(state: State, board: ClusterBoard, list: seq<ClusterState>, i: nat, job: Job)
    returns (target: Option<nat>)
    requires state.Valid() && board.Valid() && DistinctClusters(list)
    modifies board.clusters.Values, list
    ensures state.Valid() && board.Valid() && state.Now() == old(state.Now()) && Objects(state) == old(Objects(state))
    ensures target == Target(old(SlotsOf(list)), i, job)
    ensures SlotsOf(list) == Placed(old(SlotsOf(list)), i, Iteration(job, LiveIn(board, list)))
  {
    target := PlaceJob(board, list, i, job);
  }

  function TargetName(slots: seq<Slot>, i: nat, job: Job): Option<string> {
    match Target(slots, i, job) case Some(k) => Some(slots[k].id) case None => None
  }

  /** One pass of the loop, with the schedule in which the execution of a job ends before the next job is popped. */
  method RunIteration(state: State, board: ClusterBoard, list: seq<ClusterState>, i: nat, cpu: int, mem: int,
                      redistributed: nat, quota: int, a: Answers)
    returns (job: Option<Job>, target: Option<nat>, count: nat)
    requires state.Valid() && board.Valid() && DistinctClusters(list)
    modifies state, state.unassignedJobs, Objects(state), board.clusters.Values, list
    ensures state.Valid() && board.Valid() && NoNewJobs(state)
    ensures job == NextPending(old(state.Now()), cpu, mem).1
    ensures count == if job.Some? && target == None && redistributed < quota then redistributed + 1 else redistributed
    ensures job.None? ==> state.Now() == NextPending(old(state.Now()), cpu, mem).0
    ensures job.None? ==> SlotsOf(list) == old(SlotsOf(list))
    ensures job.Some? ==> target == Target(old(SlotsOf(list)), i, job.value)
    ensures job.Some? ==> SlotsOf(list) == Placed(old(SlotsOf(list)), i, Iteration(job.value, LiveIn(board, list)))
    ensures job.Some? ==> state.Now() == Execute(NextPending(old(state.Now()), cpu, mem).0, job.value.id,
                                                 TargetName(old(SlotsOf(list)), i, job.value), redistributed < quota, a)
  {
    count, target := redistributed, None;
    ghost var slots := SlotsOf(list);
    job := PopOnly(state, cpu, mem);
    if job.None? {
      return;
    }
    assert SlotsOf(list) == slots;
    target := PlaceBeside(state, board, list, i, job.value);
    var name := if target.Some? then Some(list[target.value].id) else None;
    assert name == TargetName(slots, i, job.value);
    count := ExecuteBeside(state, board, list, job.value.id, name, redistributed, quota, a);
  }

  /** Nothing more to do in this batch. */
  ghost predicate Drained(log: seq<Job>, slots: seq<Slot>, mayShed: bool) {
    forall j, k :: j in log && 0 <= k < |slots| && j.cpu <= UNBOUNDED && j.mem <= UNBOUNDED ==>
      !mayShed && !HasRoom(slots[k], j)
  }

  lemma DrainedIfNone(s: Ledger, log: seq<Job>, slots: seq<Slot>, mayShed: bool, cpu: int, mem: int)
    requires Orderly(s, log) && (cpu, mem) == Search(slots, mayShed) && NextPending(s, cpu, mem).1 == None
    ensures Drained(Take(SchedulerState.JOB_KEYS, log, Fits(SchedulerState.JOB_KEYS, cpu, mem)).0, slots, mayShed)
  {
    var fits := Fits(SchedulerState.JOB_KEYS, cpu, mem);
    PopRefines(SchedulerState.JOB_KEYS, s.pending, log, fits);
    TakesTheBest(SchedulerState.JOB_KEYS, log, fits);
    forall j, k | j in log && 0 <= k < |slots| && j.cpu <= UNBOUNDED && j.mem <= UNBOUNDED
      ensures !mayShed && !HasRoom(slots[k], j)
    {
      StopsOnlyWhenItMust(s, log, slots, mayShed, j, k);
    }
  }

  // ---------------------------------------------------------------- a batch

  /** A batch under way: the iterations that have popped a job, and whether it has stopped early. */
  datatype Batch = Batch(ledger: Ledger, slots: seq<Slot>, redistributed: nat, its: seq<Iteration>, stopped: bool)

  /** One iteration, in which `live` are the clusters that the map still holds as the same objects, and in the schedule
      in which the execution of a job ends before the next job is popped. */
  function BatchStep(b: Batch, quota: int, live: set<nat>, a: Answers): Batch {
    if b.stopped then b
    else
      var mayShed := b.redistributed < quota;
      var (cpu, mem) := Search(b.slots, mayShed);
      var (t, job) := NextPending(b.ledger, cpu, mem);
      if job.None? then b.(ledger := t, stopped := true)
      else
        var name := TargetName(b.slots, |b.its|, job.value);
        var it := Iteration(job.value, live);
        Batch(Execute(t, job.value.id, name, mayShed, a), Placed(b.slots, |b.its|, it),
              if name == None && mayShed then b.redistributed + 1 else b.redistributed, b.its + [it], false)
  }

  datatype Input = Input(live: set<nat>, answers: Answers)

  function RunBatch(b: Batch, quota: int, inputs: seq<Input>): Batch {
    if inputs == [] then b
    else
      var last := inputs[|inputs| - 1];
      BatchStep(RunBatch(b, quota, inputs[..|inputs| - 1]), quota, last.live, last.answers)
  }

  function BatchOf(ledger: Ledger, slots: seq<Slot>): Batch {
    Batch(ledger, slots, 0, [], false)
  }

  lemma IterationStaysOrderly(s: Ledger, log: seq<Job>, slots: seq<Slot>, i: nat, cpu: int, mem: int,
                                mayShed: bool, a: Answers)
    returns (rest: seq<Job>)
    requires Orderly(s, log) && NoCopies(s)
    ensures var (t, job) := NextPending(s, cpu, mem);
            var u := if job.None? then t else Execute(t, job.value.id, TargetName(slots, i, job.value), mayShed, a);
            Orderly(u, rest) && NoCopies(u)
    ensures NextPending(s, cpu, mem).1 == None ==>
              rest == Take(SchedulerState.JOB_KEYS, log, Fits(SchedulerState.JOB_KEYS, cpu, mem)).0
  {
    NextPendingHandsOut(s, log, cpu, mem);
    var (t, job) := NextPending(s, cpu, mem);
    rest := Take(SchedulerState.JOB_KEYS, log, Fits(SchedulerState.JOB_KEYS, cpu, mem)).0;
    if job.Some? {
      rest := ExecuteStaysOrderly(t, rest, job.value.id, TargetName(slots, i, job.value), mayShed, a);
    }
  }

  lemma BatchStepStaysOrderly(b: Batch, quota: int, live: set<nat>, a: Answers, log: seq<Job>) returns (rest: seq<Job>)
    requires Orderly(b.ledger, log) && NoCopies(b.ledger) && !b.stopped
    ensures var c := BatchStep(b, quota, live, a);
            Orderly(c.ledger, rest) && NoCopies(c.ledger) && (c.stopped ==> Drained(rest, c.slots, false))
  {
    var mayShed := b.redistributed < quota;
    var (cpu, mem) := Search(b.slots, mayShed);
    rest := IterationStaysOrderly(b.ledger, log, b.slots, |b.its|, cpu, mem, mayShed, a);
    if NextPending(b.ledger, cpu, mem).1 == None {
      DrainedIfNone(b.ledger, log, b.slots, mayShed, cpu, mem);
    }
  }

  /** Whatever the world answers, a batch keeps the ledger in order, and if it stops before its limit, no job that is
      still pending fits any cluster by the local accounting. */
  lemma {:induction false} BatchStaysOrderly(ledger: Ledger, slots: seq<Slot>, log: seq<Job>, quota: int,
                                                inputs: seq<Input>)
    returns (rest: seq<Job>)
    requires Orderly(ledger, log) && NoCopies(ledger)
    ensures var b := RunBatch(BatchOf(ledger, slots), quota, inputs);
            Orderly(b.ledger, rest) && NoCopies(b.ledger) && (b.stopped ==> Drained(rest, b.slots, false))
  {
    if inputs == [] {
      rest := log;
    } else {
      var init, last := inputs[..|inputs| - 1], inputs[|inputs| - 1];
      rest := BatchStaysOrderly(ledger, slots, log, quota, init);
      var b := RunBatch(BatchOf(ledger, slots), quota, init);
      if !b.stopped {
        rest := BatchStepStaysOrderly(b, quota, last.live, last.answers, rest);
      }
    }
  }

  lemma {:induction false} AfterPrefix(slots: seq<Slot>, its: seq<Iteration>, it: Iteration, n: nat)
    requires n <= |its|
    ensures After(slots, its + [it], n) == After(slots, its, n)
  {
    if n > 0 {
      AfterPrefix(slots, its, it, n - 1);
    }
  }

  lemma BatchStepAccounting(b: Batch, quota: int, live: set<nat>, a: Answers)
    requires b.redistributed <= quota
    ensures var c := BatchStep(b, quota, live, a);
            if c.stopped then c.slots == b.slots && c.its == b.its && c.redistributed == b.redistributed
            else !b.stopped && |c.its| == |b.its| + 1 && c.its == b.its + [c.its[|b.its|]] && c.redistributed <= quota
                 && c.slots == Placed(b.slots, |b.its|, c.its[|b.its|])
  {
  }

  /** The local accounting of a batch is that of its iterations, to which NeverOverplaced applies; and in this schedule
      no more jobs than the quota are offered to peers. Module PackerWorkers has the workers side by side. */
  lemma {:induction false} BatchAccounting(ledger: Ledger, slots: seq<Slot>, quota: nat, inputs: seq<Input>)
    ensures var b := RunBatch(BatchOf(ledger, slots), quota, inputs);
            && b.slots == After(slots, b.its, |b.its|) && b.redistributed <= quota
            && (if b.stopped then |b.its| < |inputs| else |b.its| == |inputs|)
  {
    if inputs != [] {
      var init, last := inputs[..|inputs| - 1], inputs[|inputs| - 1];
      BatchAccounting(ledger, slots, quota, init);
      var b := RunBatch(BatchOf(ledger, slots), quota, init);
      BatchStepAccounting(b, quota, last.live, last.answers);
      var c := BatchStep(b, quota, last.live, last.answers);
      if !c.stopped {
        AfterPrefix(slots, b.its, c.its[|b.its|], |b.its|);
      }
    }
  }

  /** What the board says of its clusters when the batch begins. */
  twostate predicate Snapshot(board: ClusterBoard, start: seq<Slot>) {
    && (forall k :: 0 <= k < |start| ==>
          start[k].id in old(board.clusters) && start[k] == old(board.clusters[start[k].id].AsSlot()))
    && forall id :: id in old(board.clusters) ==> exists k :: 0 <= k < |start| && start[k].id == id
  }

  twostate predicate ClustersOldOrNew(board: ClusterBoard)
    reads board
  {
    forall c :: c in board.clusters.Values ==> c in old(board.clusters.Values) || fresh(c)
  }

  /** The objects and the counter are what the batch on values says. */
  ghost predicate Follows(state: State, list: seq<ClusterState>, redistributed: nat, b: Batch)
    reads state, state.jobs.Values, state.unassignedJobs, list
  {
    state.Now() == b.ledger && SlotsOf(list) == b.slots && redistributed == b.redistributed
  }

  /** The loop of the batch, on the clusters that it has listed. */
  method PackWhileRoom(state: State, board: ClusterBoard, list: seq<ClusterState>, limit: nat, polls: seq<Option<Slot>>,
                       answers: seq<Answers>, ghost first: Batch)
    returns (ghost inputs: seq<Input>, ghost b: Batch)
    requires state.Valid() && board.Valid() && DistinctClusters(list) && |polls| == limit && |answers| == limit
    requires first == BatchOf(state.Now(), SlotsOf(list)) && forall c :: c in list ==> c in board.clusters.Values
    modifies state, state.unassignedJobs, Objects(state), board, board.clusters.Values
    ensures state.Valid() && board.Valid()
    ensures |inputs| <= limit && b == RunBatch(first, Quota(limit), inputs) && (|inputs| < limit ==> b.stopped)
    ensures state.Now() == b.ledger && SlotsOf(list) == b.slots
  {
    var quota, redistributed := Quota(limit), 0;
    var maxCpu, maxMem := Ceilings(list);
    inputs, b := [], first;
    for i := 0 to limit
      invariant state.Valid() && board.Valid() && NoNewJobs(state)
      invariant |inputs| == i && b == RunBatch(first, quota, inputs) && !b.stopped && |b.its| == i
      invariant Follows(state, list, redistributed, b)
      invariant (maxCpu, maxMem) == Search(b.slots, false)
      invariant ClustersOldOrNew(board)
    {
      var found;
      found, maxCpu, maxMem, redistributed, b, inputs :=
        PackNext(state, board, list, i, polls[i], maxCpu, maxMem, redistributed, quota, answers[i], b, first, inputs);
      if !found {
        return;
      }
    }
  }

  /** The body of the loop: the ceilings are lowered whenever room has been taken. */
  method PackNext(state: State, board: ClusterBoard, list: seq<ClusterState>, i: nat, poll: Option<Slot>,
                  maxCpu: int, maxMem: int, redistributed: nat, quota: int, a: Answers,
                  ghost b: Batch, ghost first: Batch, ghost inputs: seq<Input>)
    returns (found: bool, newCpu: int, newMem: int, count: nat, ghost c: Batch, ghost more: seq<Input>)
    requires state.Valid() && board.Valid() && DistinctClusters(list)
    requires Follows(state, list, redistributed, b)
    requires b == RunBatch(first, quota, inputs) && !b.stopped && |b.its| == i
    requires (maxCpu, maxMem) == Search(b.slots, false)
    modifies state, state.unassignedJobs, Objects(state), board, board.clusters.Values, list
    ensures state.Valid() && board.Valid() && NoNewJobs(state)
    ensures ClustersOldOrNew(board)
    ensures c == RunBatch(first, quota, more) && |more| == |inputs| + 1 && (found <==> !c.stopped)
    ensures Follows(state, list, count, c)
    ensures found ==> |c.its| == i + 1 && (newCpu, newMem) == Search(c.slots, false)
  {
    PollBeside(state, board, list, poll);
    var placed;
    found, placed, count, c, more :=
      PackOne(state, board, list, i, maxCpu, maxMem, redistributed, quota, a, b, first, inputs);
    newCpu, newMem := maxCpu, maxMem;
    if placed {
      newCpu, newMem := Ceilings(list);
    }
  }

  /** A batch that finds something pending. */
  method PackPending(state: State, board: ClusterBoard, limit: nat, polls: seq<Option<Slot>>, answers: seq<Answers>)
    returns (ghost start: seq<Slot>, ghost inputs: seq<Input>, list: seq<ClusterState>)
    requires state.Valid() && board.Valid() && |polls| == limit && |answers| == limit
    modifies state, state.unassignedJobs, Objects(state), board, board.clusters.Values
    ensures state.Valid() && board.Valid() && Snapshot(board, start)
    ensures var b := RunBatch(BatchOf(old(state.Now()), start), Quota(limit), inputs);
            |inputs| <= limit && (|inputs| < limit ==> b.stopped) && state.Now() == b.ledger && SlotsOf(list) == b.slots
  {
    list := board.LocalClusters();
    start := SlotsOf(list);
    ghost var b;
    inputs, b := PackWhileRoom(state, board, list, limit, polls, answers, BatchOf(state.Now(), start));
  }

  /** processPendingJobs. `polls` are the health polls that come in meanwhile, `answers` what the world says of each
      job; `inputs` are the answers that were needed. */
  method ProcessPendingJobs(state: State, board: ClusterBoard, limit: nat, polls: seq<Option<Slot>>,
                            answers: seq<Answers>)
    returns (ghost start: seq<Slot>, ghost inputs: seq<Input>, list: seq<ClusterState>)
    requires state.Valid() && board.Valid() && |polls| == limit && |answers| == limit
    modifies state, state.unassignedJobs, Objects(state), board, board.clusters.Values
    ensures state.Valid() && board.Valid()
    ensures var b := RunBatch(BatchOf(old(state.Now()), start), Quota(limit), inputs);
            |inputs| <= limit && (|inputs| < limit ==> b.stopped) && state.Now() == b.ledger && SlotsOf(list) == b.slots
    ensures old(state.unassignedJobs.items) != map[] ==> Snapshot(board, start)
  {
    start, inputs, list := [], [], [];
    if |state.unassignedJobs.items| == 0 {
      if limit > 0 {
        inputs := [Input({}, answers[0])];
        NothingToPop(state.Now(), Quota(limit), inputs[0]);
      }
      return;
    }
    start, inputs, list := PackPending(state, board, limit, polls, answers);
  }

  /** The body of the loop, as a step of the batch that the values describe. */
  method PackOne(state: State, board: ClusterBoard, list: seq<ClusterState>, i: nat, maxCpu: int, maxMem: int,
                 redistributed: nat, quota: int, a: Answers, ghost b: Batch, ghost first: Batch,
                 ghost inputs: seq<Input>)
    returns (found: bool, placed: bool, count: nat, ghost c: Batch, ghost more: seq<Input>)
    requires state.Valid() && board.Valid() && DistinctClusters(list)
    requires Follows(state, list, redistributed, b)
    requires b == RunBatch(first, quota, inputs) && !b.stopped && |b.its| == i
    requires (maxCpu, maxMem) == Search(b.slots, false)
    modifies state, state.unassignedJobs, Objects(state), board.clusters.Values, list
    ensures state.Valid() && board.Valid() && NoNewJobs(state)
    ensures c == RunBatch(first, quota, more) && more == inputs + [Input(LiveIn(board, list), a)]
    ensures Follows(state, list, count, c)
    ensures found <==> !c.stopped
    ensures found ==> |c.its| == i + 1
    ensures !placed ==> c.slots == b.slots
    ensures board.clusters == old(board.clusters)
  {
    var searchCpu, searchMem := maxCpu, maxMem;
    if redistributed < quota {
      searchCpu, searchMem := UNBOUNDED, UNBOUNDED;
    }
    var job, target;
    job, target, count := RunIteration(state, board, list, i, searchCpu, searchMem, redistributed, quota, a);
    found, placed := job.Some?, target.Some?;
    ghost var live := LiveIn(board, list);
    c := BatchStep(b, quota, live, a);
    more := inputs + [Input(live, a)];
    assert more[..|inputs|] == inputs;
  }

  lemma NothingToPop(s: Ledger, quota: int, input: Input)
    requires s.pending.items == map[]
    ensures RunBatch(BatchOf(s, []), quota, [input]) == BatchOf(s, []).(stopped := true)
  {
    assert [input][..0] == [];
    assert RunBatch(BatchOf(s, []), quota, []) == BatchOf(s, []);
  }

  /** A poll concerns neither the state nor the objects that the batch looks at. */
  method PollBeside(state: State, board: ClusterBoard, list: seq<ClusterState>, poll: Option<Slot>)
    requires state.Valid() && board.Valid()
    modifies board
    ensures state.Valid() && board.Valid() && state.Now() == old(state.Now()) && NoNewJobs(state)
    ensures SlotsOf(list) == old(SlotsOf(list))
    ensures ClustersOldOrNew(board)
  {
    ghost var slots := SlotsOf(list);
    if poll.Some? {
      board.UpdateCluster(poll.value);
    }
    assert forall k :: 0 <= k < |list| ==> SlotsOf(list)[k] == slots[k];
  }
}
