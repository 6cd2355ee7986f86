/** What the packer chooses, said without its loops: which cluster a job goes to, which peer decides about it, which
    jobs are popped at all, and how many are offered to peers (internal/scheduler/packer/operations.go). */
module PackerChoices {
  import opened ArbiterQueue
  import opened BatchPacker
  import opened SchedulerState
  import opened Wrappers

  // ---------------------------------------------------------------- the cluster

  /** The cluster at the `j`-th place of the round that begins at `i`, modulo the number of clusters, has room. */
  predicate RoomAt(slots: seq<Slot>, i: nat, job: Job, j: nat) {
    |slots| > 0 && HasRoom(slots[(i + j) % |slots|], job)
  }

  /** And none before it in the round. */
  ghost predicate FirstWithRoom(slots: seq<Slot>, i: nat, job: Job, j: nat) {
    j < |slots| && RoomAt(slots, i, job, j) && forall m: nat :: m < j ==> !RoomAt(slots, i, job, m)
  }

  lemma {:induction false} RoundFindsFirst(slots: seq<Slot>, i: nat, job: Job, from: nat) returns (j: nat)
    requires from <= |slots| && TargetFrom(slots, i, job, from).Some?
    requires forall m: nat :: m < from ==> !RoomAt(slots, i, job, m)
    ensures FirstWithRoom(slots, i, job, j) && TargetFrom(slots, i, job, from) == Some((i + j) % |slots|)
    decreases |slots| - from
  {
    if RoomAt(slots, i, job, from) {
      j := from;
    } else {
      j := RoundFindsFirst(slots, i, job, from + 1);
    }
  }

  lemma {:induction false} RoundMisses(slots: seq<Slot>, i: nat, job: Job, from: nat, j: nat)
    requires from <= j < |slots| && RoomAt(slots, i, job, j)
    ensures TargetFrom(slots, i, job, from).Some?
    decreases j - from
  {
    if from < j && !RoomAt(slots, i, job, from) {
      RoundMisses(slots, i, job, from + 1, j);
    }
  }

  /** The `i`-th job of a batch goes to the first cluster with room for it, counted from the `i`-th one round and
      round. */
  lemma TargetIsFirstExactly(slots: seq<Slot>, i: nat, job: Job, k: nat)
    ensures Target(slots, i, job) == Some(k)
            <==> exists j: nat :: FirstWithRoom(slots, i, job, j) && k == (i + j) % |slots|
  {
    if Target(slots, i, job).Some? {
      var j := RoundFindsFirst(slots, i, job, 0);
      forall other: nat | FirstWithRoom(slots, i, job, other) ensures other == j {
      }
    } else if j: nat :| FirstWithRoom(slots, i, job, j) {
      RoundMisses(slots, i, job, 0, j);
    }
  }

  // ---------------------------------------------------------------- the peer

  /** Peer `i` answers so, and all before it on the list turn the job down. */
  ghost predicate Decides(peers: seq<PeerAnswer>, i: nat, answer: PeerAnswer) {
    && i < |peers| && peers[i] == answer && answer != Refused
    && forall j :: 0 <= j < i ==> peers[j] == Refused
  }

  lemma {:induction false} WillingDecides(peers: seq<PeerAnswer>, from: nat, answer: PeerAnswer)
    requires from <= |peers| && forall j :: 0 <= j < from ==> peers[j] == Refused
    ensures FirstWilling(peers, from) == Some(answer) <==> exists i: nat :: Decides(peers, i, answer)
    decreases |peers| - from
  {
    if from < |peers| && peers[from] == Refused {
      WillingDecides(peers, from + 1, answer);
    } else if from < |peers| {
      if answer == peers[from] {
        assert Decides(peers, from, answer);
      }
      if i: nat :| Decides(peers, i, answer) {
        assert i == from;
      }
    }
  }

  /** What becomes of a popped job without a target, while jobs may be shed: it is gone if a peer takes it before which
      all refuse, it stays in hand if instead the first that does not refuse has no connection, and it is pending again
      if all refuse. */
  lemma SheddingFateByPosition(s: Ledger, id: string, a: Answers)
    requires Partition(s) && InHand(s, id)
    ensures var t := Execute(s, id, None, true, a);
            && (IsGone(t, id) <==> exists i: nat :: Decides(a.peers, i, Accepted))
            && (InHand(t, id) <==> exists i: nat :: Decides(a.peers, i, NoConnection))
            && (IsPending(t, id) <==> forall i :: 0 <= i < |a.peers| ==> a.peers[i] == Refused)
  {
    FateExactly(s, id, None, true, a);
    WillingDecides(a.peers, 0, Accepted);
    WillingDecides(a.peers, 0, NoConnection);
    WillingIsNotRefused(a.peers, 0);
  }

  /** And while they may not, it is pending again whatever peers would say. */
  lemma NoSheddingNoChange(s: Ledger, id: string, a: Answers)
    requires Partition(s) && InHand(s, id)
    ensures IsPending(Execute(s, id, None, false, a), id)
  {
    FateExactly(s, id, None, false, a);
  }

  // ---------------------------------------------------------------- the job

  lemma {:induction false} CpuCeilingIsMet(slots: seq<Slot>, n: nat)
    requires n <= |slots|
    ensures CpuCeiling(slots, n) == 0
            || exists k :: 0 <= k < n && slots[k].maxCpu - slots[k].usedCpu == CpuCeiling(slots, n)
  {
    if n > 0 {
      CpuCeilingIsMet(slots, n - 1);
      assert CpuCeiling(slots, n) == CpuCeiling(slots, n - 1)
             || slots[n - 1].maxCpu - slots[n - 1].usedCpu == CpuCeiling(slots, n);
    }
  }

  lemma {:induction false} MemCeilingIsMet(slots: seq<Slot>, n: nat)
    requires n <= |slots|
    ensures MemCeiling(slots, n) == 0
            || exists k :: 0 <= k < n && slots[k].maxMem - slots[k].usedMem == MemCeiling(slots, n)
  {
    if n > 0 {
      MemCeilingIsMet(slots, n - 1);
      assert MemCeiling(slots, n) == MemCeiling(slots, n - 1)
             || slots[n - 1].maxMem - slots[n - 1].usedMem == MemCeiling(slots, n);
    }
  }

  predicate CpuSomewhere(slots: seq<Slot>, job: Job) {
    job.cpu <= 0 || exists k :: 0 <= k < |slots| && job.cpu <= slots[k].maxCpu - slots[k].usedCpu
  }

  predicate MemSomewhere(slots: seq<Slot>, job: Job) {
    job.mem <= 0 || exists k :: 0 <= k < |slots| && job.mem <= slots[k].maxMem - slots[k].usedMem
  }

  /** Once jobs may no longer be shed, those that are popped are the ones that some cluster has the processors for and
      some cluster the memory, though perhaps not the same; as long as they may, all are, up to 2^62. */
  lemma SearchedForExactly(slots: seq<Slot>, job: Job)
    ensures var (cpu, mem) := Search(slots, false);
            job.cpu <= cpu && job.mem <= mem <==> CpuSomewhere(slots, job) && MemSomewhere(slots, job)
    ensures Search(slots, true) == (0x4000_0000_0000_0000, 0x4000_0000_0000_0000)
  {
    CpuCeilingIsMet(slots, |slots|);
    MemCeilingIsMet(slots, |slots|);
  }

  /** So a pop finds nothing exactly when no pending job is like that, and what it finds is the one that none of them
      outranks. */
  lemma PoppedExactly(s: Ledger, log: seq<Job>, slots: seq<Slot>)
    requires Orderly(s, log)
    ensures var (cpu, mem) := Search(slots, false);
            var job := NextPending(s, cpu, mem).1;
            && (job.None? <==> forall j :: j in log ==> !(CpuSomewhere(slots, j) && MemSomewhere(slots, j)))
            && (job.Some? ==>
                  && job.value in log && CpuSomewhere(slots, job.value) && MemSomewhere(slots, job.value)
                  && forall j :: j in log && CpuSomewhere(slots, j) && MemSomewhere(slots, j) ==>
                       j.priority <= job.value.priority)
  {
    var (cpu, mem) := Search(slots, false);
    var fits := Fits(SchedulerState.JOB_KEYS, cpu, mem);
    PopRefines(SchedulerState.JOB_KEYS, s.pending, log, fits);
    TakesTheBest(SchedulerState.JOB_KEYS, log, fits);
    forall j: Job ensures fits(j) <==> CpuSomewhere(slots, j) && MemSomewhere(slots, j) {
      SearchedForExactly(slots, j);
    }
  }

  // ---------------------------------------------------------------- how many are offered to peers

  /** A quarter of the batch, rounded down, and never fewer than five. */
  lemma QuotaExactly(limit: nat)
    ensures Quota(limit) >= 5 && (Quota(limit) > 5 ==> 4 * Quota(limit) <= limit)
    ensures 4 * (Quota(limit) + 1) > limit
  {
  }

  /** The jobs among the first `n` of a batch that no cluster had room for. */
  function TurnedAway(slots: seq<Slot>, its: seq<Iteration>, n: nat): nat
    requires n <= |its|
  {
    if n == 0 then 0
    else TurnedAway(slots, its, n - 1)
         + if Target(After(slots, its, n - 1), n - 1, its[n - 1].job) == None then 1 else 0
  }

  lemma {:induction false} TurnedAwayPrefix(slots: seq<Slot>, its: seq<Iteration>, it: Iteration, n: nat)
    requires n <= |its|
    ensures TurnedAway(slots, its + [it], n) == TurnedAway(slots, its, n)
  {
    if n > 0 {
      TurnedAwayPrefix(slots, its, it, n - 1);
      AfterPrefix(slots, its, it, n - 1);
    }
  }

  lemma StepOffers(b: Batch, quota: int, live: set<nat>, a: Answers)
    ensures var c := BatchStep(b, quota, live, a);
            if c.stopped then c.its == b.its && c.redistributed == b.redistributed
            else
              && |c.its| == |b.its| + 1 && c.its == b.its + [c.its[|b.its|]]
              && c.redistributed == b.redistributed
                                    + if Target(b.slots, |b.its|, c.its[|b.its|].job) == None && b.redistributed < quota
                                      then 1 else 0
  {
  }

  ghost predicate OffersTurnedAway(b: Batch, slots: seq<Slot>, quota: nat) {
    var turnedAway := TurnedAway(slots, b.its, |b.its|);
    b.redistributed == if turnedAway < quota then turnedAway else quota
  }

  lemma StepOffersTurnedAway(b: Batch, slots: seq<Slot>, quota: nat, live: set<nat>, a: Answers)
    requires OffersTurnedAway(b, slots, quota) && b.slots == After(slots, b.its, |b.its|)
    ensures OffersTurnedAway(BatchStep(b, quota, live, a), slots, quota)
  {
    StepOffers(b, quota, live, a);
    var c := BatchStep(b, quota, live, a);
    if !c.stopped {
      AfterPrefix(slots, b.its, c.its[|b.its|], |b.its|);
      TurnedAwayPrefix(slots, b.its, c.its[|b.its|], |b.its|);
    }
  }

  /** When executions run one after the other, the jobs offered to peers are those that no cluster had room for, as many
      of them as the quota allows. */
  lemma {:induction false} OfferedExactly(ledger: Ledger, slots: seq<Slot>, quota: nat, inputs: seq<Input>)
    ensures OffersTurnedAway(RunBatch(BatchOf(ledger, slots), quota, inputs), slots, quota)
  {
    if inputs != [] {
      var init, last := inputs[..|inputs| - 1], inputs[|inputs| - 1];
      OfferedExactly(ledger, slots, quota, init);
      BatchAccounting(ledger, slots, quota, init);
      StepOffersTurnedAway(RunBatch(BatchOf(ledger, slots), quota, init), slots, quota, last.live, last.answers);
    }
  }

  // ---------------------------------------------------------------- what is charged

  /** What the jobs placed on cluster `k` need together while its map entry was still the object the batch looks at. */
  function SumLive(slots: seq<Slot>, its: seq<Iteration>, n: nat, k: nat, weight: Job -> int): int
    requires n <= |its|
  {
    if n == 0 then 0
    else SumLive(slots, its, n - 1, k, weight)
         + if Target(After(slots, its, n - 1), n - 1, its[n - 1].job) == Some(k) && k in its[n - 1].live
           then weight(its[n - 1].job) else 0
  }

  /** The local accounting is ahead of what has been placed by exactly what was charged twice. */
  lemma {:induction false} AccountingExactly(slots: seq<Slot>, its: seq<Iteration>, n: nat, k: nat)
    requires n <= |its| && k < |slots|
    ensures var s, t := slots[k], After(slots, its, n)[k];
            && t.id == s.id && t.maxCpu == s.maxCpu && t.maxMem == s.maxMem
            && t.usedCpu == s.usedCpu + Sum(slots, its, n, k, CPU_OF) + SumLive(slots, its, n, k, CPU_OF)
            && t.usedMem == s.usedMem + Sum(slots, its, n, k, MEM_OF) + SumLive(slots, its, n, k, MEM_OF)
  {
    if n > 0 {
      AccountingExactly(slots, its, n - 1, k);
    }
  }
}
