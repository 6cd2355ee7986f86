/** A consequence of pre-votes being counted only for a follower (internal/consensus/service/election.go): a node that
    has lost a formal vote stays a candidate, and no later election of its own can succeed. A cluster can so come to a
    state from which nothing that it can still do gives it a leader. */
module ElectionDeadlock {
  import opened Election
  import opened RaftNode
  import opened Wrappers

  /** A candidate's pre-vote collects nothing, whatever the peers answer. */
  lemma CandidateCollectsNoPreVotes(p: Policy, c: Cluster, call: nat, voter: NodeId)
    requires call < |c.rounds| && !c.rounds[call].formal
    requires c.rounds[call].node in c.nodes && c.nodes[c.rounds[call].node].role == Candidate
    ensures Apply(p, c, CountYes(call, voter)) == c
  {
  }

  // ---------------------------------------------------------------- deadlock

  /** The node's answer once its election timer has run out, when it is at its most willing. */
  predicate WouldGrant(n: NodeState, req: VoteRequest) {
    OnRequestVote(n, req, true).1
  }

  function Willing(c: Cluster, req: VoteRequest): set<NodeId> {
    set w | w in c.nodes && w != req.origin && WouldGrant(c.nodes[w], req)
  }

  predicate MayStillGrant(c: Cluster, call: nat, w: NodeId) {
    exists m :: m in c.net && m.Ballot? && m.call == call && w in Willing(c, m.req)
  }

  /** Who has said yes in a round, counted or not, or would if its ballot were delivered now. */
  function Reach(c: Cluster, call: nat): set<NodeId>
    requires call < |c.rounds|
  {
    c.rounds[call].granted + (set m | m in c.net && m.Yes? && m.call == call :: m.voter)
    + set w | w in c.nodes && MayStillGrant(c, call, w)
  }

  /** A round whose replies still count is out of reach of a majority, and so is a campaign after a pre-vote. */
  ghost predicate RoundFails(c: Cluster, call: nat)
    requires call < |c.rounds|
  {
    var r := c.rounds[call];
    && (StillAsking(c, r) ==> 1 + |Reach(c, call)| < Majority(c))
    && (!r.formal && r.node in c.nodes && c.nodes[r.node].currentTerm == r.term ==> !HasMajority(c, r))
  }

  /** A pre-vote that this node would begin now finds no majority. */
  ghost predicate CannotAsk(c: Cluster, id: NodeId)
    requires id in c.nodes
  {
    var n := c.nodes[id];
    n.role == Follower ==> 1 + |Willing(c, BallotOf(n, n.currentTerm + 1, true))| < Majority(c)
  }

  ghost predicate MessageHarmless(c: Cluster, term: int, m: Message) {
    match m
    case Ballot(call, req) => call < |c.rounds| && (!req.gossip ==> req.term <= term)
    case Yes(call, _) => call < |c.rounds|
    case Append(req) => req.term < term
    case Chunk(req) => req.term < term
    case TermReply(t) => t <= term
  }

  /** All nodes are in one term without a leader and without a snapshot transfer that is still open, which could depose
      a candidate; no follower can win a pre-vote, no round under way can get a majority, and no message is from a
      leader of this term or from a later term. Nodes are candidates, or followers whose logs are behind. */
  ghost predicate Deadlocked(c: Cluster, term: int) {
    && |c.nodes| >= 2 && c.transfers == []
    && (forall id :: id in c.nodes ==>
          c.nodes[id].role != Leader && c.nodes[id].currentTerm == term && CannotAsk(c, id))
    && (forall k :: 0 <= k < |c.rounds| ==> RoundFails(c, k))
    && (forall m :: m in c.net ==> MessageHarmless(c, term, m))
  }

  /** The node is where it was, its log reports the same tip, and it is not more willing to vote. */
  predicate NotMoreWilling(n: NodeState, n': NodeState) {
    && n'.id == n.id && n'.role == n.role && n'.currentTerm == n.currentTerm
    && n'.store.prevIndex == n.store.prevIndex && n'.store.prevTerm == n.store.prevTerm
    && (n'.votedFor == n.votedFor || n.votedFor.None?)
  }

  /** A step that makes no node more willing, and adds no message but harmless ones and answers within reach. */
  ghost predicate Idle(c: Cluster, d: Cluster, term: int) {
    && d.nodes.Keys == c.nodes.Keys && d.rounds == c.rounds && d.wins == c.wins && d.transfers == c.transfers
    && (forall id :: id in d.nodes ==> NotMoreWilling(c.nodes[id], d.nodes[id]))
    && c.net <= d.net
    && (forall m :: m in d.net && m !in c.net ==> MessageHarmless(c, term, m) && !m.Ballot?)
    && (forall m :: m in d.net && m !in c.net && m.Yes? ==> m.voter in Reach(c, m.call))
  }

  lemma NotMoreWillingGrants(n: NodeState, n': NodeState, req: VoteRequest)
    requires NotMoreWilling(n, n') && n.role != Leader && WouldGrant(n', req)
    ensures WouldGrant(n, req)
  {
  }

  lemma WillingShrinks(c: Cluster, d: Cluster, req: VoteRequest)
    requires d.nodes.Keys == c.nodes.Keys
    requires forall id :: id in d.nodes ==> c.nodes[id].role != Leader && NotMoreWilling(c.nodes[id], d.nodes[id])
    ensures Willing(d, req) <= Willing(c, req) && |Willing(d, req)| <= |Willing(c, req)|
  {
    forall w | w in Willing(d, req) ensures w in Willing(c, req) {
      NotMoreWillingGrants(c.nodes[w], d.nodes[w], req);
    }
    SubsetSize(Willing(d, req), Willing(c, req));
  }

  lemma CannotAskStays(c: Cluster, d: Cluster, id: NodeId)
    requires d.nodes.Keys == c.nodes.Keys && id in c.nodes && CannotAsk(c, id)
    requires forall id :: id in d.nodes ==> c.nodes[id].role != Leader && NotMoreWilling(c.nodes[id], d.nodes[id])
    ensures CannotAsk(d, id)
  {
    assert |d.nodes.Keys| == |d.nodes| && |c.nodes.Keys| == |c.nodes|;
    var n, n' := c.nodes[id], d.nodes[id];
    assert BallotOf(n', n'.currentTerm + 1, true) == BallotOf(n, n.currentTerm + 1, true);
    WillingShrinks(c, d, BallotOf(n, n.currentTerm + 1, true));
  }

  /** Messages of earlier calls only: an older round gains nobody within reach. */
  lemma ReachShrinks(c: Cluster, d: Cluster, call: nat)
    requires call < |c.rounds| && call < |d.rounds| && d.rounds[call].granted == c.rounds[call].granted
    requires d.nodes.Keys == c.nodes.Keys
    requires forall id :: id in d.nodes ==> c.nodes[id].role != Leader && NotMoreWilling(c.nodes[id], d.nodes[id])
    requires forall m :: m in d.net && m !in c.net && m.Ballot? ==> m.call != call
    requires forall m :: m in d.net && m !in c.net && m.Yes? && m.call == call ==> m.voter in Reach(c, call)
    ensures Reach(d, call) <= Reach(c, call) && |Reach(d, call)| <= |Reach(c, call)|
  {
    forall w | w in d.nodes && MayStillGrant(d, call, w) ensures w in Reach(c, call) {
      var m :| m in d.net && m.Ballot? && m.call == call && w in Willing(d, m.req);
      WillingShrinks(c, d, m.req);
      assert m in c.net;
    }
    forall m | m in d.net && m.Yes? && m.call == call ensures m.voter in Reach(c, call) {
    }
    SubsetSize(Reach(d, call), Reach(c, call));
  }

  lemma RoundStillFails(c: Cluster, d: Cluster, call: nat)
    requires call < |c.rounds| && call < |d.rounds| && d.rounds[call] == c.rounds[call] && RoundFails(c, call)
    requires d.nodes.Keys == c.nodes.Keys
    requires forall id :: id in d.nodes ==> c.nodes[id].role != Leader && NotMoreWilling(c.nodes[id], d.nodes[id])
    requires forall m :: m in d.net && m !in c.net && m.Ballot? ==> m.call != call
    requires forall m :: m in d.net && m !in c.net && m.Yes? && m.call == call ==> m.voter in Reach(c, call)
    ensures RoundFails(d, call)
  {
    assert |d.nodes.Keys| == |d.nodes| && |c.nodes.Keys| == |c.nodes|;
    ReachShrinks(c, d, call);
  }

  lemma IdleKeepsDeadlock(c: Cluster, d: Cluster, term: int)
    requires Deadlocked(c, term) && Idle(c, d, term)
    ensures Deadlocked(d, term)
  {
    assert |d.nodes.Keys| == |d.nodes| && |c.nodes.Keys| == |c.nodes|;
    forall id | id in d.nodes ensures CannotAsk(d, id) {
      CannotAskStays(c, d, id);
    }
    forall k | 0 <= k < |d.rounds| ensures RoundFails(d, k) {
      RoundStillFails(c, d, k);
    }
    forall m | m in d.net ensures MessageHarmless(d, term, m) {
      assert MessageHarmless(c, term, m);
    }
  }

  /** A pre-vote that begins reaches only those that its node could not do with before. */
  lemma StartKeepsDeadlock(c: Cluster, id: NodeId, term: int)
    requires Deadlocked(c, term) && id in c.nodes
    ensures Deadlocked(OnStartElection(c, id), term) && OnStartElection(c, id).wins == c.wins
  {
    AskedIs(c, id, term);
    AskingKeepsDeadlock(c, OnStartElection(c, id), id, term);
  }

  lemma AskingKeepsDeadlock(c: Cluster, d: Cluster, id: NodeId, term: int)
    requires Deadlocked(c, term) && id in c.nodes && d.nodes == c.nodes[id := c.nodes[id].(leaderId := None)]
    requires d.rounds == c.rounds + [Round(id, false, term, {}, |c.rounds|)] && d.transfers == c.transfers
    requires d.net == c.net + {Ballot(|c.rounds|, BallotOf(c.nodes[id], term + 1, true))}
    ensures Deadlocked(d, term)
  {
    assert |d.nodes.Keys| == |d.nodes| && |c.nodes.Keys| == |c.nodes|;
    forall v | v in d.nodes ensures CannotAsk(d, v) {
      CannotAskStays(c, d, v);
    }
    OldRoundsStillFail(c, d, id, term);
    NewRoundFails(c, d, id, term);
    forall m | m in d.net ensures MessageHarmless(d, term, m) {
      assert m in c.net ==> MessageHarmless(c, term, m);
    }
  }

  lemma OldRoundsStillFail(c: Cluster, d: Cluster, id: NodeId, term: int)
    requires Deadlocked(c, term) && id in c.nodes && d.nodes == c.nodes[id := c.nodes[id].(leaderId := None)]
    requires |c.rounds| <= |d.rounds| && forall k :: 0 <= k < |c.rounds| ==> d.rounds[k] == c.rounds[k]
    requires forall m :: m in d.net && m !in c.net ==> m.Ballot? && m.call == |c.rounds|
    ensures forall k :: 0 <= k < |c.rounds| ==> RoundFails(d, k)
  {
    forall k | 0 <= k < |c.rounds| ensures RoundFails(d, k) {
      RoundStillFails(c, d, k);
    }
  }

  lemma AskedIs(c: Cluster, id: NodeId, term: int)
    requires id in c.nodes && |c.nodes| >= 2 && c.nodes[id].role != Leader && c.nodes[id].currentTerm == term
    ensures OnStartElection(c, id) == c.(nodes := c.nodes[id := c.nodes[id].(leaderId := None)],
                                         rounds := c.rounds + [Round(id, false, term, {}, |c.rounds|)],
                                         net := c.net + {Ballot(|c.rounds|, BallotOf(c.nodes[id], term + 1, true))})
  {
  }

  lemma NewRoundFails(c: Cluster, d: Cluster, id: NodeId, term: int)
    requires Deadlocked(c, term) && id in c.nodes && d.nodes == c.nodes[id := c.nodes[id].(leaderId := None)]
    requires d.rounds == c.rounds + [Round(id, false, term, {}, |c.rounds|)]
    requires d.net == c.net + {Ballot(|c.rounds|, BallotOf(c.nodes[id], term + 1, true))}
    ensures RoundFails(d, |c.rounds|)
  {
    var ballot := BallotOf(c.nodes[id], term + 1, true);
    WillingShrinks(c, d, ballot);
    NewRoundReach(c, d, ballot, term);
    AskedInVain(c, d, id, ballot, |Reach(d, |c.rounds|)|);
  }

  lemma AskedInVain(c: Cluster, d: Cluster, id: NodeId, ballot: VoteRequest, reach: nat)
    requires id in c.nodes && |c.nodes| >= 2 && CannotAsk(c, id) && d.nodes.Keys == c.nodes.Keys
    requires ballot == BallotOf(c.nodes[id], c.nodes[id].currentTerm + 1, true) && reach <= |Willing(c, ballot)|
    ensures Majority(d) > 1 && (c.nodes[id].role == Follower ==> 1 + reach < Majority(d))
  {
    assert |d.nodes.Keys| == |d.nodes| && |c.nodes.Keys| == |c.nodes|;
  }

  lemma NewRoundReach(c: Cluster, d: Cluster, ballot: VoteRequest, term: int)
    requires |d.rounds| == |c.rounds| + 1 && d.rounds[|c.rounds|].granted == {}
    requires d.net == c.net + {Ballot(|c.rounds|, ballot)}
    requires forall m :: m in c.net ==> MessageHarmless(c, term, m)
    ensures Reach(d, |c.rounds|) <= Willing(d, ballot) && |Reach(d, |c.rounds|)| <= |Willing(d, ballot)|
  {
    forall m | m in c.net ensures !(m.Ballot? && m.call == |c.rounds|) && !(m.Yes? && m.call == |c.rounds|) {
      assert MessageHarmless(c, term, m);
    }
    forall w | w in Reach(d, |c.rounds|) ensures w in Willing(d, ballot) {
      assert MayStillGrant(d, |c.rounds|, w);
    }
    SubsetSize(Reach(d, |c.rounds|), Willing(d, ballot));
  }

  lemma CountingKeepsDeadlock(c: Cluster, call: nat, voter: NodeId, term: int)
    requires Deadlocked(c, term) && Yes(call, voter) in c.net && call < |c.rounds| && StillAsking(c, c.rounds[call])
    ensures var r := c.rounds[call].(granted := c.rounds[call].granted + {voter});
            Deadlocked(c.(rounds := c.rounds[call := r]), term)
  {
    var d := c.(rounds := c.rounds[call := c.rounds[call].(granted := c.rounds[call].granted + {voter})]);
    forall id | id in d.nodes ensures CannotAsk(d, id) {
      CannotAskStays(c, d, id);
    }
    assert Yes(call, voter).voter in Reach(c, call);
    forall k | 0 <= k < |d.rounds| ensures RoundFails(d, k) {
      assert RoundFails(c, k);
      if k == call {
        CountedWasInReach(c, d, k);
      } else {
        RoundStillFails(c, d, k);
      }
    }
    forall m | m in d.net ensures MessageHarmless(d, term, m) {
      assert MessageHarmless(c, term, m);
    }
  }

  lemma CountedWasInReach(c: Cluster, d: Cluster, call: nat)
    requires call < |c.rounds| && call < |d.rounds|
             && d.rounds[call] == c.rounds[call].(granted := d.rounds[call].granted)
    requires d.nodes == c.nodes && d.net == c.net && d.rounds[call].granted <= Reach(c, call)
    requires RoundFails(c, call) && StillAsking(c, c.rounds[call])
    ensures RoundFails(d, call)
  {
    forall w | w in d.nodes && MayStillGrant(d, call, w) ensures MayStillGrant(c, call, w) {
      var m :| m in d.net && m.Ballot? && m.call == call && w in Willing(d, m.req);
      assert w in Willing(c, m.req);
    }
    assert Reach(d, call) <= Reach(c, call);
    SubsetSize(Reach(d, call), Reach(c, call));
    SubsetSize(d.rounds[call].granted, Reach(c, call));
  }

  lemma RoundsFail(c: Cluster, call: nat, term: int)
    requires Deadlocked(c, term) && call < |c.rounds|
    requires c.rounds[call].node in c.nodes && c.nodes[c.rounds[call].node].currentTerm == c.rounds[call].term
    requires c.rounds[call].formal ==> c.nodes[c.rounds[call].node].role == Candidate
    ensures !HasMajority(c, c.rounds[call])
  {
    assert RoundFails(c, call);
    if c.rounds[call].formal {
      SubsetSize(c.rounds[call].granted, Reach(c, call));
    }
  }

  /** A voter of the current term stays where it is, and says yes only to what it would have granted. */
  lemma VotingStaysPut(n: NodeState, req: VoteRequest, timedOut: bool)
    requires n.role != Leader && (!req.gossip ==> req.term <= n.currentTerm)
    ensures NotMoreWilling(n, OnRequestVote(n, req, timedOut).0)
    ensures OnRequestVote(n, req, timedOut).1 ==> WouldGrant(n, req)
  {
  }

  lemma BallotIsIdle(c: Cluster, call: nat, req: VoteRequest, to: NodeId, timedOut: bool, term: int)
    requires Deadlocked(c, term) && Ballot(call, req) in c.net && to in c.nodes && to != req.origin
    ensures Idle(c, OnDeliverBallot(c, call, req, to, timedOut), term)
  {
    assert MessageHarmless(c, term, Ballot(call, req));
    VotingStaysPut(c.nodes[to], req, timedOut);
    var n := OnRequestVote(c.nodes[to], req, timedOut).0;
    if OnRequestVote(c.nodes[to], req, timedOut).1 {
      assert to in Willing(c, Ballot(call, req).req);
      assert MayStillGrant(c, call, to);
      AnswerIsIdle(c, OnDeliverBallot(c, call, req, to, timedOut), to, n, {Yes(call, to)}, term);
    } else {
      AnswerIsIdle(c, OnDeliverBallot(c, call, req, to, timedOut), to, n, {}, term);
    }
  }

  lemma AnswerIsIdle(c: Cluster, d: Cluster, to: NodeId, n: NodeState, sent: set<Message>, term: int)
    requires to in c.nodes && NotMoreWilling(c.nodes[to], n) && d.nodes == c.nodes[to := n] && d.net == c.net + sent
    requires d.rounds == c.rounds && d.wins == c.wins && d.transfers == c.transfers
    requires forall m :: m in sent ==> m.Yes? && m.call < |c.rounds| && m.voter in Reach(c, m.call)
    ensures Idle(c, d, term)
  {
  }

  /** Messages of older terms are turned down, with an answer that deposes nobody. */
  lemma DeliveryIsIdle(p: Policy, c: Cluster, step: Step, term: int)
    requires Deadlocked(c, term) && (step.DeliverAppend? || step.DeliverChunk?) && Apply(p, c, step) != c
    ensures Idle(c, Apply(p, c, step), term)
  {
    if step.DeliverAppend? {
      AppendTurnedDown(p, c, step, term);
    } else {
      ChunkTurnedDown(p, c, step, term);
    }
    ReplyIsIdle(c, term);
  }

  lemma AppendTurnedDown(p: Policy, c: Cluster, step: Step, term: int)
    requires Deadlocked(c, term) && step.DeliverAppend? && Apply(p, c, step) != c
    ensures Apply(p, c, step) == c.(net := c.net + {TermReply(term)})
  {
    assert MessageHarmless(c, term, Append(step.append));
    assert c.nodes[step.to := c.nodes[step.to]] == c.nodes;
  }

  lemma ChunkTurnedDown(p: Policy, c: Cluster, step: Step, term: int)
    requires Deadlocked(c, term) && step.DeliverChunk? && Apply(p, c, step) != c
    ensures Apply(p, c, step) == c.(net := c.net + {TermReply(term)})
  {
    assert MessageHarmless(c, term, Chunk(step.chunk));
    assert c.nodes[step.to := c.nodes[step.to]] == c.nodes;
  }

  lemma ReplyIsIdle(c: Cluster, term: int)
    requires Deadlocked(c, term)
    ensures Idle(c, c.(net := c.net + {TermReply(term)}), term)
  {
  }

  /** Without a leader, an open transfer or a higher term there is nothing to do but to compact. */
  lemma OtherStepsAreIdle(p: Policy, c: Cluster, step: Step, term: int)
    requires Deadlocked(c, term) && OutsideElections(step)
    requires !step.DeliverAppend? && !step.DeliverChunk?
    ensures Idle(c, Apply(p, c, step), term)
  {
    if step.BeginCompaction? || step.FinishCompaction? {
      CompactionIsIdle(p, c, step, term);
    } else {
      NothingToDo(p, c, step, term);
    }
  }

  lemma NothingToDo(p: Policy, c: Cluster, step: Step, term: int)
    requires Deadlocked(c, term)
    requires step.SendAppend? || step.BeginTransfer? || step.SendChunk? || step.EndTransfer? || step.ReadTermReply?
             || step.AppendLocal?
    ensures Apply(p, c, step) == c
  {
    if step.ReadTermReply? && step.node in c.nodes && TermReply(step.term) in c.net {
      assert MessageHarmless(c, term, TermReply(step.term));
      assert c.nodes[step.node := c.nodes[step.node]] == c.nodes;
    }
  }

  lemma CompactionIsIdle(p: Policy, c: Cluster, step: Step, term: int)
    requires Deadlocked(c, term) && (step.BeginCompaction? || step.FinishCompaction?)
    ensures Idle(c, Apply(p, c, step), term)
  {
    var d := Apply(p, c, step);
    if step.node in c.nodes {
      CompactionKeepsTip(p, c, step);
      assert c.net + {} == c.net;
      AnswerIsIdle(c, d, step.node, d.nodes[step.node], {}, term);
    }
  }

  lemma CompactionKeepsTip(p: Policy, c: Cluster, step: Step)
    requires (step.BeginCompaction? || step.FinishCompaction?) && step.node in c.nodes
    ensures var d := Apply(p, c, step);
            && step.node in d.nodes && NotMoreWilling(c.nodes[step.node], d.nodes[step.node])
            && d.nodes == c.nodes[step.node := d.nodes[step.node]] && d.net == c.net
            && d.rounds == c.rounds && d.wins == c.wins && d.transfers == c.transfers
  {
    assert c.nodes[step.node := c.nodes[step.node]] == c.nodes;
  }

  lemma StepIsIdle(p: Policy, c: Cluster, step: Step, term: int)
    requires Deadlocked(c, term) && Apply(p, c, step) != c && (OutsideElections(step) || step.DeliverBallot?)
    ensures Idle(c, Apply(p, c, step), term)
  {
    match step {
      case DeliverBallot(call, req, to, timedOut) => BallotIsIdle(c, call, req, to, timedOut, term);
      case DeliverAppend(_, _) => DeliveryIsIdle(p, c, step, term);
      case DeliverChunk(_, _, _) => DeliveryIsIdle(p, c, step, term);
      case _ => OtherStepsAreIdle(p, c, step, term);
    }
  }

  /** No round can be finished. */
  lemma NoFinish(p: Policy, c: Cluster, step: Step, term: int)
    requires Deadlocked(c, term) && (step.FinishPreVote? || step.FinishVote?)
    ensures Apply(p, c, step) == c
  {
    if Apply(p, c, step) != c {
      RoundsFail(c, step.call, term);
    }
  }

  lemma StepKeepsDeadlock(p: Policy, c: Cluster, step: Step, term: int)
    requires Deadlocked(c, term)
    ensures Deadlocked(Apply(p, c, step), term) && Apply(p, c, step).wins == c.wins
  {
    if step.FinishPreVote? || step.FinishVote? {
      NoFinish(p, c, step, term);
    } else if Apply(p, c, step) != c {
      match step {
        case StartElection(id) => StartKeepsDeadlock(c, id, term);
        case CountYes(call, voter) => CountingKeepsDeadlock(c, call, voter, term);
        case _ =>
          StepIsIdle(p, c, step, term);
          IdleKeepsDeadlock(c, Apply(p, c, step), term);
      }
    }
  }

  /** Whatever happens next, in whatever order and under either policy: no node ever becomes leader again, and all stay
      in the same term. */
  lemma {:induction false} DeadlockIsForever(p: Policy, c: Cluster, term: int, steps: seq<Step>)
    requires Deadlocked(c, term)
    ensures Deadlocked(Run(p, c, steps), term) && Run(p, c, steps).wins == c.wins
  {
    if steps != [] {
      DeadlockIsForever(p, c, term, steps[..|steps| - 1]);
      StepKeepsDeadlock(p, Run(p, c, steps[..|steps| - 1]), steps[|steps| - 1], term);
    }
  }

  // ---------------------------------------------------------------- two candidates

  /** Both nodes of a cluster of two have the other one's pre-vote for term 1. */
  function BothPreElected(a: NodeId, b: NodeId): Cluster {
    Cluster(Init({a, b}).nodes, [Round(a, false, 0, {b}, 0), Round(b, false, 0, {a}, 1)],
            {Ballot(0, BallotOf(NewNode(a), 1, true)), Ballot(1, BallotOf(NewNode(b), 1, true)), Yes(0, b), Yes(1, a)},
            [], map[], {}, {})
  }

  function BothAsking(a: NodeId, b: NodeId): Cluster {
    Cluster(Init({a, b}).nodes, [Round(a, false, 0, {}, 0), Round(b, false, 0, {}, 1)],
            {Ballot(0, BallotOf(NewNode(a), 1, true)), Ballot(1, BallotOf(NewNode(b), 1, true))}, [], map[], {}, {})
  }

  lemma TwoInTotal(a: NodeId, b: NodeId, c: Cluster)
    requires a != b && c.nodes.Keys == {a, b}
    ensures |c.nodes| == 2
  {
    assert |c.nodes.Keys| == |c.nodes|;
  }

  lemma TwoAsk(p: Policy, a: NodeId, b: NodeId)
    requires a != b
    ensures Reaches(p, Init({a, b}), BothAsking(a, b))
  {
    var s := Init({a, b});
    TwoInTotal(a, b, s);
    ReachesSelf(p, s);
    ReachesStep(p, s, s, StartElection(a));
    var c1 := Apply(p, s, StartElection(a));
    assert c1.nodes == s.nodes;
    ReachesStep(p, s, c1, StartElection(b));
    var c2 := Apply(p, c1, StartElection(b));
    assert c2.nodes == s.nodes;
    assert c2 == BothAsking(a, b);
  }

  lemma TwoAnswer(p: Policy, a: NodeId, b: NodeId)
    requires a != b
    ensures Reaches(p, Init({a, b}), BothPreElected(a, b))
  {
    var s, c := Init({a, b}), BothAsking(a, b);
    TwoAsk(p, a, b);
    var ra, rb := BallotOf(NewNode(a), 1, true), BallotOf(NewNode(b), 1, true);
    var c1 := c.(net := c.net + {Yes(0, b)});
    assert c1.nodes[b := NewNode(b)] == c1.nodes;
    assert Apply(p, c, DeliverBallot(0, ra, b, true)) == c1;
    ReachesStep(p, s, c, DeliverBallot(0, ra, b, true));
    var c2 := c1.(net := c1.net + {Yes(1, a)});
    assert c2.nodes[a := NewNode(a)] == c2.nodes;
    assert Apply(p, c1, DeliverBallot(1, rb, a, true)) == c2;
    ReachesStep(p, s, c1, DeliverBallot(1, rb, a, true));
    TwoCount(p, a, b, c2);
  }

  lemma TwoCount(p: Policy, a: NodeId, b: NodeId, c: Cluster)
    requires a != b && Reaches(p, Init({a, b}), c)
    requires c == BothAsking(a, b).(net := BothPreElected(a, b).net)
    ensures Reaches(p, Init({a, b}), BothPreElected(a, b))
  {
    var s := Init({a, b});
    assert {} + {b} == {b} && {} + {a} == {a};
    ReachesStep(p, s, c, CountYes(0, b));
    var c1 := Apply(p, c, CountYes(0, b));
    assert c1.rounds == [Round(a, false, 0, {b}, 0), Round(b, false, 0, {}, 1)];
    ReachesStep(p, s, c1, CountYes(1, a));
    var c2 := Apply(p, c1, CountYes(1, a));
    assert c2.rounds == BothPreElected(a, b).rounds;
    assert c2 == BothPreElected(a, b);
  }

  /** And a cluster of two gets there from its initial state, when both nodes campaign at the same time. */
  lemma TwoNodesDeadlock(p: Policy, a: NodeId, b: NodeId) returns (c: Cluster)
    requires a != b
    ensures Reaches(p, Init({a, b}), c) && Deadlocked(c, 1) && c.wins == {}
  {
    var s, c0 := Init({a, b}), BothPreElected(a, b);
    TwoAnswer(p, a, b);
    TwoInTotal(a, b, c0);
    ReachesStep(p, s, c0, FinishPreVote(0));
    var c1 := Apply(p, c0, FinishPreVote(0));
    NodesStay(p, c0, FinishPreVote(0));
    assert c1 == Campaigned(c0, 0);
    ReachesStep(p, s, c1, FinishPreVote(1));
    c := Apply(p, c1, FinishPreVote(1));
    NodesStay(p, c1, FinishPreVote(1));
    assert c == Campaigned(c1, 1);
    TwoCandidatesDeadlock(a, b, c);
  }

  lemma TwoCandidatesDeadlock(a: NodeId, b: NodeId, c: Cluster)
    requires a != b && |c.nodes| == 2 && c == Campaigned(Campaigned(BothPreElected(a, b), 0), 1)
    ensures Deadlocked(c, 1) && c.wins == {}
  {
    TwoCandidatesShape(a, b, c);
    TwoCandidatesMessages(a, b, c);
    AllCandidatesDeadlocked(c, 1);
  }

  lemma TwoCandidatesShape(a: NodeId, b: NodeId, c: Cluster)
    requires a != b && c == Campaigned(Campaigned(BothPreElected(a, b), 0), 1)
    ensures c.rounds == BothPreElected(a, b).rounds + [Round(a, true, 1, {}, 0), Round(b, true, 1, {}, 1)]
    ensures c.net == BothPreElected(a, b).net + {Ballot(2, BallotOf(Candidacy(a), 1, false)),
                                                 Ballot(3, BallotOf(Candidacy(b), 1, false))}
    ensures c.nodes == map[a := Candidacy(a), b := Candidacy(b)] && c.transfers == [] && c.wins == {}
  {
  }

  lemma TwoCandidatesMessages(a: NodeId, b: NodeId, c: Cluster)
    requires c.rounds == BothPreElected(a, b).rounds + [Round(a, true, 1, {}, 0), Round(b, true, 1, {}, 1)]
    requires c.net == BothPreElected(a, b).net + {Ballot(2, BallotOf(Candidacy(a), 1, false)),
                                                  Ballot(3, BallotOf(Candidacy(b), 1, false))}
    ensures forall m :: m in c.net ==>
              && MessageHarmless(c, 1, m) && !m.Append? && (m.Yes? ==> c.rounds[m.call].term != 1)
              && (m.Ballot? && c.rounds[m.call].formal ==> !m.req.gossip)
  {
  }

  /** The simplest deadlock: all nodes are candidates of one term, and none has a supporter. */
  lemma AllCandidatesDeadlocked(c: Cluster, term: int)
    requires |c.nodes| >= 2 && c.transfers == []
    requires forall id :: id in c.nodes ==> c.nodes[id].role == Candidate && c.nodes[id].currentTerm == term
    requires forall k :: 0 <= k < |c.rounds| && c.rounds[k].term == term ==>
               c.rounds[k].formal && c.rounds[k].granted == {}
    requires forall m :: m in c.net && m.Yes? ==> m.call < |c.rounds| && c.rounds[m.call].term != term
    requires forall m :: m in c.net ==> MessageHarmless(c, term, m)
    requires forall m :: m in c.net && m.Ballot? ==> m.call < |c.rounds| && (c.rounds[m.call].formal ==> !m.req.gossip)
    ensures Deadlocked(c, term)
  {
    forall k | 0 <= k < |c.rounds| ensures RoundFails(c, k) {
      if c.rounds[k].term == term {
        forall w | w in c.nodes ensures !MayStillGrant(c, k, w) {
          forall m | m in c.net && m.Ballot? && m.call == k ensures w !in Willing(c, m.req) {
            assert MessageHarmless(c, term, m);
          }
        }
        assert Reach(c, k) == {};
      }
    }
  }
}
