/** The log store under the cluster: in every run, what a node does to its log is a run of the log store's operations,
    and the terms that recovery asks for are those that the protocol delivers. */
module ClusterRecovery {
  import opened Codec
  import opened Election
  import opened LogStore
  import opened RaftNode
  import opened Terms
  import opened Wrappers

  /** What recovery asks of an operation apart from terms. */
  ghost predicate Storable(m: Machine, op: Op) {
    match op
    case DoAppend(e) => WellTyped(e) && Encodable(e)
    case _ => Allowed(m, op)
  }

  ghost predicate StorableRun(m: Machine, ops: seq<Op>) {
    forall i :: 0 <= i < |ops| ==> Storable(RunOps(m, ops[..i]), ops[i])
  }

  /** What AppendEntries does to the log: nothing, an append, or a truncation and an append. */
  function AppendOps(n: NodeState, req: AppendRequest): seq<Op> {
    var s, e := n.store, EntryOf(req);
    if req.term < n.currentTerm || req.payload == []
       || req.prevLogIndex > s.prevIndex || (req.prevLogIndex == s.prevIndex && req.prevLogTerm != s.prevTerm)
    then []
    else match CheckAppend(s, e)
         case Appended => [DoAppend(e)]
         case IndexAhead => []
         case IndexBehind =>
           if e.term < s.discTerm || e.index <= s.discIndex then [] else [DoTruncate(e.index), DoAppend(e)]
  }

  /** What a step of the cluster does to the log of `id`. The lists written by its compactions and the files that it
      installs are not part of the cluster: they are given. */
  function StepOps(c: Cluster, step: Step, id: NodeId, compacted: seq<LogEntry>, snapshot: seq<byte>): seq<Op> {
    if id !in c.nodes then [] else
    var n := c.nodes[id];
    match step
    case DeliverAppend(req, to) =>
      if to == id && Append(req) in c.net && to != req.origin then AppendOps(n, req) else []
    case DeliverChunk(req, to, begun) =>
      if to == id && Chunk(req) in c.net && to != req.leaderId && req.term >= n.currentTerm && req.done && begun
      then [DoInstall(req.lastIndex, req.lastTerm, snapshot)] else []
    case AppendLocal(node, schedulerId, payload) =>
      if node == id && n.role == Leader then [DoAppend(LocalEntry(n, schedulerId, payload))] else []
    case BeginCompaction(node) => if node == id then [DoCapture] else []
    case FinishCompaction(node) => if node == id then [DoRotate(compacted)] else []
    case _ => []
  }

  function NodeOps(p: Policy, ids: set<NodeId>, steps: seq<Step>, id: NodeId, compacted: nat -> seq<LogEntry>,
                   snapshots: nat -> seq<byte>): seq<Op> {
    if steps == [] then []
    else
      var init := |steps| - 1;
      NodeOps(p, ids, steps[..init], id, compacted, snapshots)
      + StepOps(Run(p, Init(ids), steps[..init]), steps[init], id, compacted(init), snapshots(init))
  }

  /** The machine holds the log and the pending compaction of the node. */
  ghost predicate Mirrors(m: Machine, c: Cluster, id: NodeId) {
    && id in c.nodes && m.disk.store == c.nodes[id].store
    && m.pending == if id in c.captures then Some(c.captures[id]) else None
  }

  /** In each handler the log changes as the operations say. */
  lemma OpsMirrorAppend(p: Policy, m: Machine, n: NodeState, req: AppendRequest)
    requires m.disk.store == n.store
    ensures var m' := RunOps(m, AppendOps(n, req));
            m'.disk.store == OnAppendEntries(p, n, req).0.store && m'.pending == m.pending
  {
    RunOne(m, DoAppend(EntryOf(req)));
    RunTwo(m, DoTruncate(req.index), DoAppend(EntryOf(req)));
  }

  lemma RunOne(m: Machine, op: Op)
    ensures RunOps(m, [op]) == StepOp(m, op)
  {
    assert [op][..0] == [];
  }

  lemma RunTwo(m: Machine, op: Op, next: Op)
    ensures RunOps(m, [op, next]) == StepOp(StepOp(m, op), next)
  {
    assert [op, next][..1] == [op];
    RunOne(m, op);
  }

  lemma OpsMirrorStep(p: Policy, m: Machine, c: Cluster, step: Step, id: NodeId, compacted: seq<LogEntry>,
                      snapshot: seq<byte>)
    requires Mirrors(m, c, id)
    ensures Mirrors(RunOps(m, StepOps(c, step, id, compacted, snapshot)), Apply(p, c, step), id)
  {
    if step.DeliverAppend? {
      OpsMirrorAppend(p, m, c.nodes[id], step.append);
    } else if OutsideElections(step) {
      OpsMirrorOther(p, m, c, step, id, compacted, snapshot);
    }
  }

  lemma OpsMirrorOther(p: Policy, m: Machine, c: Cluster, step: Step, id: NodeId, compacted: seq<LogEntry>,
                       snapshot: seq<byte>)
    requires Mirrors(m, c, id) && OutsideElections(step) && !step.DeliverAppend?
    ensures Mirrors(RunOps(m, StepOps(c, step, id, compacted, snapshot)), Apply(p, c, step), id)
  {
    var ops := StepOps(c, step, id, compacted, snapshot);
    if |ops| == 1 {
      RunOne(m, ops[0]);
    }
  }

  lemma {:induction false} RunOpsConcat(m: Machine, s: seq<Op>, t: seq<Op>)
    ensures RunOps(m, s + t) == RunOps(RunOps(m, s), t)
    decreases |t|
  {
    if t == [] {
      assert s + t == s;
    } else {
      assert (s + t)[..|s + t| - 1] == s + t[..|t| - 1];
      RunOpsConcat(m, s, t[..|t| - 1]);
    }
  }

  lemma StorableSplits(m: Machine, s: seq<Op>, t: seq<Op>)
    requires StorableRun(m, s + t)
    ensures StorableRun(m, s) && StorableRun(RunOps(m, s), t)
  {
    forall i | 0 <= i < |s| ensures Storable(RunOps(m, s[..i]), s[i]) {
      assert (s + t)[..i] == s[..i] && (s + t)[i] == s[i];
    }
    forall i | 0 <= i < |t| ensures Storable(RunOps(RunOps(m, s), t[..i]), t[i]) {
      assert (s + t)[..|s| + i] == s + t[..i] && (s + t)[|s| + i] == t[i];
      RunOpsConcat(m, s, t[..i]);
    }
  }

  lemma AllowedJoins(m: Machine, s: seq<Op>, t: seq<Op>)
    requires AllowedRun(m, s) && AllowedRun(RunOps(m, s), t)
    ensures AllowedRun(m, s + t)
  {
    forall i | 0 <= i < |s + t| ensures Allowed(RunOps(m, (s + t)[..i]), (s + t)[i]) {
      if i < |s| {
        assert (s + t)[..i] == s[..i];
      } else {
        assert (s + t)[..i] == s + t[..i - |s|];
        RunOpsConcat(m, s, t[..i - |s|]);
      }
    }
  }

  /** The protocol's part: no entry that a step appends is of an older term than the log's tip. */
  lemma StepOpsAllowed(p: Policy, ids: set<NodeId>, steps: seq<Step>, m: Machine, step: Step, id: NodeId,
                       compacted: seq<LogEntry>, snapshot: seq<byte>)
    requires var c := Run(p, Init(ids), steps);
             Mirrors(m, c, id) && StorableRun(m, StepOps(c, step, id, compacted, snapshot))
    ensures AllowedRun(m, StepOps(Run(p, Init(ids), steps), step, id, compacted, snapshot))
  {
    var c := Run(p, Init(ids), steps);
    var n, ops := c.nodes[id], StepOps(c, step, id, compacted, snapshot);
    var req := if step.DeliverAppend? then step.append else AppendRequest(id, 0, 0, 0, 0, [], []);
    LogTermsOrdered(p, ids, steps, id, req);
    forall i | 0 <= i < |ops| ensures Allowed(RunOps(m, ops[..i]), ops[i]) {
      assert Storable(RunOps(m, ops[..i]), ops[i]);
      if i == 0 {
        assert ops[..0] == [];
      } else {
        assert ops[..1][..0] == [] && ops[..1] == [DoTruncate(req.index)];
      }
    }
  }

  lemma {:induction false} NodeOpsAllowed(p: Policy, ids: set<NodeId>, steps: seq<Step>, id: NodeId,
                                          compacted: nat -> seq<LogEntry>, snapshots: nat -> seq<byte>)
    requires id in ids && StorableRun(START, NodeOps(p, ids, steps, id, compacted, snapshots))
    ensures var ops := NodeOps(p, ids, steps, id, compacted, snapshots);
            AllowedRun(START, ops) && Mirrors(RunOps(START, ops), Run(p, Init(ids), steps), id)
  {
    if steps != [] {
      var n := |steps| - 1;
      var c := Run(p, Init(ids), steps[..n]);
      var before := NodeOps(p, ids, steps[..n], id, compacted, snapshots);
      var more := StepOps(c, steps[n], id, compacted(n), snapshots(n));
      StorableSplits(START, before, more);
      NodeOpsAllowed(p, ids, steps[..n], id, compacted, snapshots);
      StepOpsAllowed(p, ids, steps[..n], RunOps(START, before), steps[n], id, compacted(n), snapshots(n));
      AllowedJoins(START, before, more);
      RunOpsConcat(START, before, more);
      OpsMirrorStep(p, RunOps(START, before), c, steps[n], id, compacted(n), snapshots(n));
    }
  }

  /** In every run of the cluster, under either policy: a node whose entries the codec carries, whose compactions are
      not cut into, and which installs snapshots between compactions and not below its file's boundary, gets its log
      back from its data directory, with the boundary that the file is named after; and exactly as it was when it has
      neither been emptied since it last grew nor taken a snapshot since its last compaction. */
  lemma ClusterRecovery(p: Policy, ids: set<NodeId>, steps: seq<Step>, id: NodeId, compacted: nat -> seq<LogEntry>,
                        snapshots: nat -> seq<byte>, r: LoadResult)
    requires id in ids && StorableRun(START, NodeOps(p, ids, steps, id, compacted, snapshots))
    requires LoadsAs(RunOps(START, NodeOps(p, ids, steps, id, compacted, snapshots)).disk, r)
    ensures r.Loaded? && id in Run(p, Init(ids), steps).nodes
    ensures var ops := NodeOps(p, ids, steps, id, compacted, snapshots);
            var store := Run(p, Init(ids), steps).nodes[id].store;
            && r.disk.store == Reopened(store, r.disk.active)
            && (r.disk.store == store
                <==> forall i: nat :: !Stands(ops, Empties, Refills, i) && !Stands(ops, Misnames, Renames, i))
  {
    var ops := NodeOps(p, ids, steps, id, compacted, snapshots);
    NodeOpsAllowed(p, ids, steps, id, compacted, snapshots);
    RecoveryRefinement(ops, r);
    var d := RunOps(START, ops).disk;
    assert r.disk == d.(store := r.disk.store);
  }
}
