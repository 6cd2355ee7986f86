/** What a known leader is worth: a node that knows one, and whose election timer has not run out, refuses every
    pre-vote (internal/consensus/service/election.go), so that nobody enters a new term behind the back of a leader
    that enough nodes follow. */
module LeaderLease {
  import opened Election
  import opened RaftNode
  import opened Terms
  import opened Wrappers

  // ---------------------------------------------------------------- who asks whom

  ghost predicate RoundShaped(c: Cluster, r: Round) {
    r.node in c.nodes && r.granted <= c.nodes.Keys - {r.node}
  }

  ghost predicate MessageShaped(c: Cluster, m: Message) {
    match m
    case Ballot(call, req) =>
      call < |c.rounds| && req.origin == c.rounds[call].node && (req.gossip <==> !c.rounds[call].formal)
    case Yes(call, voter) => call < |c.rounds| && voter in c.nodes && voter != c.rounds[call].node
    case _ => true
  }

  /** Ballots come from those who ask, and answers from others. */
  ghost predicate Shaped(c: Cluster) {
    && (forall id :: id in c.nodes ==> c.nodes[id].id == id)
    && (forall k :: 0 <= k < |c.rounds| ==> RoundShaped(c, c.rounds[k]))
    && (forall m :: m in c.net ==> MessageShaped(c, m))
  }

  /** A step that starts no round. */
  ghost predicate Reshapes(c: Cluster, d: Cluster) {
    && d.nodes.Keys == c.nodes.Keys && (forall id :: id in d.nodes ==> d.nodes[id].id == c.nodes[id].id)
    && |c.rounds| <= |d.rounds|
    && (forall k :: 0 <= k < |c.rounds| ==> d.rounds[k] == c.rounds[k].(granted := d.rounds[k].granted))
    && (forall k :: 0 <= k < |d.rounds| ==>
          (k < |c.rounds| && d.rounds[k].granted == c.rounds[k].granted) || RoundShaped(d, d.rounds[k]))
    && (forall m :: m in d.net && m !in c.net ==> MessageShaped(d, m))
  }

  lemma ReshapedIsShaped(c: Cluster, d: Cluster)
    requires Shaped(c) && Reshapes(c, d)
    ensures Shaped(d)
  {
    forall k | 0 <= k < |d.rounds| ensures RoundShaped(d, d.rounds[k]) {
      assert k < |c.rounds| ==> RoundShaped(c, c.rounds[k]);
    }
    forall m | m in d.net ensures MessageShaped(d, m) {
      assert m in c.net ==> MessageShaped(c, m);
    }
  }

  lemma CampaignReshapes(c: Cluster, preVote: nat)
    requires Shaped(c) && preVote < |c.rounds| && c.rounds[preVote].node in c.nodes
    ensures Reshapes(c, Campaigned(c, preVote))
  {
  }

  lemma StartReshapes(c: Cluster, id: NodeId)
    requires Shaped(c) && id in c.nodes
    ensures Shaped(OnStartElection(c, id))
  {
    if c.nodes[id].role == Leader {
      assert OnStartElection(c, id) == c;
    } else if Majority(c) == 1 {
      LoneNodeIsShaped(c, id);
    } else {
      var sent := {Ballot(|c.rounds|, BallotOf(c.nodes[id], c.nodes[id].currentTerm + 1, true))};
      AskingIsShaped(c, id, sent);
    }
  }

  lemma AskingIsShaped(c: Cluster, id: NodeId, sent: set<Message>)
    requires Shaped(c) && id in c.nodes
    requires forall m :: m in sent ==> m.Ballot? && m.call == |c.rounds| && m.req.origin == id && m.req.gossip
    ensures Shaped(Asked(c, id, sent))
  {
    assert Reshapes(c, Asked(c, id, sent));
    ReshapedIsShaped(c, Asked(c, id, sent));
  }

  lemma LoneNodeIsShaped(c: Cluster, id: NodeId)
    requires Shaped(c) && id in c.nodes
    ensures Shaped(Elected(Campaigned(Asked(c, id, {}), |c.rounds|), id))
  {
    var asked := Asked(c, id, {});
    AskingIsShaped(c, id, {});
    CampaignReshapes(asked, |c.rounds|);
    var d := Campaigned(asked, |c.rounds|);
    ReshapedIsShaped(asked, d);
    ElectedIsShaped(d, id);
  }

  lemma ElectedIsShaped(c: Cluster, id: NodeId)
    requires Shaped(c) && id in c.nodes
    ensures Shaped(Elected(c, id))
  {
    assert Reshapes(c, Elected(c, id));
    ReshapedIsShaped(c, Elected(c, id));
  }

  lemma BallotReshapes(p: Policy, c: Cluster, step: Step)
    requires Shaped(c) && step.DeliverBallot?
    ensures Reshapes(c, Apply(p, c, step))
  {
    if Apply(p, c, step) != c {
      assert MessageShaped(c, Ballot(step.call, step.req));
    }
  }

  lemma CountReshapes(p: Policy, c: Cluster, step: Step)
    requires Shaped(c) && step.CountYes?
    ensures Reshapes(c, Apply(p, c, step))
  {
    if Apply(p, c, step) != c {
      assert MessageShaped(c, Yes(step.call, step.voter));
      assert RoundShaped(c, c.rounds[step.call]);
    }
  }

  lemma OthersReshape(p: Policy, c: Cluster, step: Step)
    requires Shaped(c) && (OutsideElections(step) || step.FinishVote?)
    ensures Reshapes(c, Apply(p, c, step))
  {
    if OutsideElections(step) && Apply(p, c, step) != c {
      QuietShape(p, c, step);
    }
  }

  lemma QuietShape(p: Policy, c: Cluster, step: Step)
    requires OutsideElections(step)
    ensures var d := Apply(p, c, step);
            && d.rounds == c.rounds && d.nodes.Keys == c.nodes.Keys
            && (forall id :: id in d.nodes ==> d.nodes[id].id == c.nodes[id].id)
            && forall m :: m in d.net && m !in c.net ==> !m.Ballot? && !m.Yes?
  {
  }

  lemma StepKeepsShape(p: Policy, c: Cluster, step: Step)
    requires Shaped(c)
    ensures Shaped(Apply(p, c, step))
  {
    match step {
      case StartElection(id) =>
        if id in c.nodes {
          StartReshapes(c, id);
        }
        return;
      case DeliverBallot(_, _, _, _) => BallotReshapes(p, c, step);
      case CountYes(_, _) => CountReshapes(p, c, step);
      case FinishPreVote(call) =>
        if Apply(p, c, step) == c {
          return;
        }
        CampaignReshapes(c, call);
      case _ => OthersReshape(p, c, step);
    }
    ReshapedIsShaped(c, Apply(p, c, step));
  }

  /** In every run, under either policy and for any number of nodes. */
  lemma {:induction false} RunIsShaped(p: Policy, ids: set<NodeId>, steps: seq<Step>)
    ensures Shaped(Run(p, Init(ids), steps)) && Run(p, Init(ids), steps).nodes.Keys == ids
  {
    if steps != [] {
      RunIsShaped(p, ids, steps[..|steps| - 1]);
      StepKeepsShape(p, Run(p, Init(ids), steps[..|steps| - 1]), steps[|steps| - 1]);
      NodesStay(p, Run(p, Init(ids), steps[..|steps| - 1]), steps[|steps| - 1]);
    }
  }

  // ---------------------------------------------------------------- one round

  /** Whoever of `loyal` this step asks for its pre-vote in the round knows a leader and has not timed out. */
  predicate RefusesRound(c: Cluster, step: Step, call: nat, loyal: set<NodeId>) {
    step.DeliverBallot? && step.call == call && step.to in loyal && step.to in c.nodes ==>
      step.req.gossip && c.nodes[step.to].leaderId.Some? && !step.timedOut
  }

  /** No support for the round from `loyal`, counted or under way. */
  ghost predicate Unsupported(c: Cluster, call: nat, loyal: set<NodeId>) {
    && call < |c.rounds| && (forall v :: v in c.rounds[call].granted ==> v !in loyal)
    && (forall m :: m in c.net && m.Yes? && m.call == call ==> m.voter !in loyal)
  }

  lemma StepKeepsUnsupported(p: Policy, c: Cluster, step: Step, call: nat, loyal: set<NodeId>)
    requires Unsupported(c, call, loyal) && RefusesRound(c, step, call, loyal)
    ensures Unsupported(Apply(p, c, step), call, loyal)
    ensures Apply(p, c, step).rounds[call].node == c.rounds[call].node
  {
    if step.DeliverBallot? {
      BallotKeepsUnsupported(p, c, step, call, loyal);
    } else if step.CountYes? && step.call == call && Apply(p, c, step) != c {
      assert Yes(call, step.voter).voter !in loyal;
    } else {
      NoNewYes(p, c, step);
    }
  }

  lemma BallotKeepsUnsupported(p: Policy, c: Cluster, step: Step, call: nat, loyal: set<NodeId>)
    requires Unsupported(c, call, loyal) && RefusesRound(c, step, call, loyal) && step.DeliverBallot?
    ensures Unsupported(Apply(p, c, step), call, loyal) && Apply(p, c, step).rounds == c.rounds
  {
    if step.to in c.nodes && step.to in loyal && step.call == call {
      PreVoteExactly(c.nodes[step.to], step.req, step.timedOut);
    }
  }

  lemma NoNewYes(p: Policy, c: Cluster, step: Step)
    requires !step.DeliverBallot?
    ensures forall m :: m in Apply(p, c, step).net && m !in c.net ==> !m.Yes?
    ensures |c.rounds| <= |Apply(p, c, step).rounds|
    ensures !step.CountYes? ==> Apply(p, c, step).rounds[..|c.rounds|] == c.rounds
  {
  }

  lemma {:induction false} RunKeepsUnsupported(p: Policy, c: Cluster, steps: seq<Step>, call: nat, loyal: set<NodeId>)
    requires Unsupported(c, call, loyal)
    requires forall i :: 0 <= i < |steps| ==> RefusesRound(Run(p, c, steps[..i]), steps[i], call, loyal)
    ensures Unsupported(Run(p, c, steps), call, loyal)
    ensures Run(p, c, steps).rounds[call].node == c.rounds[call].node
  {
    if steps != [] {
      var last := |steps| - 1;
      assert forall i :: 0 <= i < last ==> steps[..last][..i] == steps[..i];
      RunKeepsUnsupported(p, c, steps[..last], call, loyal);
      StepKeepsUnsupported(p, Run(p, c, steps[..last]), steps[last], call, loyal);
    }
  }

  /** In any run from a reachable state, a pre-vote round that nobody of `loyal` supports yet, and to which they all
      know a leader whenever they are asked and have not timed out, never gets a majority, if those that are left are
      too few for one. */
  lemma LeaseStarvesPreVote(p: Policy, ids: set<NodeId>, before: seq<Step>, steps: seq<Step>, call: nat,
                            loyal: set<NodeId>)
    requires loyal <= ids && 2 * (|ids| - |loyal|) <= |ids|
    requires var c := Run(p, Init(ids), before);
             && Unsupported(c, call, loyal) && c.rounds[call].node !in loyal
             && forall i :: 0 <= i < |steps| ==> RefusesRound(Run(p, c, steps[..i]), steps[i], call, loyal)
    ensures var d := Run(p, Run(p, Init(ids), before), steps); call < |d.rounds| && !HasMajority(d, d.rounds[call])
  {
    var c := Run(p, Init(ids), before);
    var d := Run(p, c, steps);
    RunKeepsUnsupported(p, c, steps, call, loyal);
    RunConcat(p, Init(ids), before, steps);
    RunIsShaped(p, ids, before + steps);
    assert RoundShaped(d, d.rounds[call]) && |d.nodes| == |d.nodes.Keys|;
    TooFew(d, d.rounds[call], loyal);
  }

  lemma TooFew(c: Cluster, r: Round, loyal: set<NodeId>)
    requires loyal <= c.nodes.Keys && r.granted <= c.nodes.Keys - loyal - {r.node} && r.node in c.nodes
    requires r.node !in loyal && 2 * (|c.nodes| - |loyal|) <= |c.nodes|
    ensures !HasMajority(c, r)
  {
    var others := c.nodes.Keys - loyal - {r.node};
    assert |c.nodes.Keys| == |c.nodes|;
    SubsetSize(r.granted, others);
    assert c.nodes.Keys - loyal == others + {r.node};
    assert |c.nodes.Keys - loyal| == |c.nodes| - |loyal|;
    QuorumIsMoreThanHalf(c, r);
  }

  // ---------------------------------------------------------------- a leader that is followed

  /** All nodes are in one term with one leader; those of `loyal`, the leader among them, know a leader, and nobody of
      them has begun or supported a round of this term but the one that made the leader. */
  ghost predicate NodeSteady(n: NodeState, id: NodeId, loyal: set<NodeId>, leader: NodeId, term: int) {
    && n.id == id && n.currentTerm == term && (n.role == Leader <==> id == leader)
    && (id in loyal ==> n.leaderId.Some? && n.role != Candidate)
  }

  ghost predicate RoundSteady(c: Cluster, loyal: set<NodeId>, term: int, k: nat)
    requires k < |c.rounds|
  {
    var r := c.rounds[k];
    r.term == term && !(r.formal && r.node in loyal) ==> r.node !in loyal && Unsupported(c, k, loyal)
  }

  ghost predicate MessageSteady(leader: NodeId, term: int, m: Message) {
    match m
    case Ballot(_, req) => !req.gossip ==> req.term <= term
    case Yes(_, _) => true
    case Append(req) => req.term < term || (req.term == term && req.origin == leader)
    case Chunk(req) => req.term < term || (req.term == term && req.leaderId == leader)
    case TermReply(t) => t <= term
  }

  ghost predicate Steady(c: Cluster, loyal: set<NodeId>, leader: NodeId, term: int) {
    && leader in loyal && loyal <= c.nodes.Keys && 2 * (|c.nodes| - |loyal|) <= |c.nodes| && |c.nodes| >= 2
    && (forall id :: id in c.nodes ==> NodeSteady(c.nodes[id], id, loyal, leader, term))
    && (forall k :: 0 <= k < |c.rounds| ==> RoundSteady(c, loyal, term, k))
    && (forall m :: m in c.net ==> MessageSteady(leader, term, m))
    && (forall t :: t in c.transfers ==> t.node == leader)
  }

  /** No follower of `loyal` runs out of patience, nor is a ballot of the term's own election still delivered to it. */
  predicate Undisturbed(step: Step, loyal: set<NodeId>, leader: NodeId, term: int) {
    match step
    case StartElection(id) => id in loyal ==> id == leader
    case DeliverBallot(_, req, to, timedOut) =>
      to in loyal && to != leader ==> !timedOut && (req.gossip || req.term < term)
    case _ => true
  }

  /** A step that changes one node, to what Steady asks of it, begins no round, and adds no support from `loyal` but for
      rounds of its own. */
  ghost predicate Calm(c: Cluster, d: Cluster, id: NodeId, loyal: set<NodeId>, leader: NodeId, term: int) {
    && id in c.nodes && id in d.nodes && d.nodes == c.nodes[id := d.nodes[id]]
    && NodeSteady(d.nodes[id], id, loyal, leader, term) && d.rounds == c.rounds
    && (forall m :: m in d.net && m !in c.net ==> MessageSteady(leader, term, m) && (m.Yes? ==> m.voter !in loyal))
    && (forall t :: t in d.transfers ==> t.node == leader)
  }

  lemma UnsupportedStays(c: Cluster, d: Cluster, k: nat, loyal: set<NodeId>)
    requires Unsupported(c, k, loyal) && k < |d.rounds| && d.rounds[k] == c.rounds[k]
    requires forall m :: m in d.net && m !in c.net && m.Yes? ==> m.voter !in loyal
    ensures Unsupported(d, k, loyal)
  {
  }

  lemma CalmKeepsSteady(c: Cluster, d: Cluster, id: NodeId, loyal: set<NodeId>, leader: NodeId, term: int)
    requires Steady(c, loyal, leader, term) && Calm(c, d, id, loyal, leader, term)
    ensures Steady(d, loyal, leader, term)
  {
    assert |d.nodes.Keys| == |d.nodes| && |c.nodes.Keys| == |c.nodes|;
    forall k | 0 <= k < |d.rounds| ensures RoundSteady(d, loyal, term, k) {
      assert RoundSteady(c, loyal, term, k);
      if Unsupported(c, k, loyal) {
        UnsupportedStays(c, d, k, loyal);
      }
    }
    forall m | m in d.net ensures MessageSteady(leader, term, m) {
      assert m in c.net ==> MessageSteady(leader, term, m);
    }
  }

  // ---------------------------------------------------------------- the handlers of a steady node

  /** A voter of the term keeps knowing its leader, and grants nothing to anybody: this is where the lease is. */
  lemma VotingStaysSteady(n: NodeState, id: NodeId, req: VoteRequest, timedOut: bool, loyal: set<NodeId>,
                          leader: NodeId, term: int)
    requires NodeSteady(n, id, loyal, leader, term) && (!req.gossip ==> req.term <= term)
    requires id in loyal && id != leader ==> !timedOut && (req.gossip || req.term < term)
    ensures NodeSteady(OnRequestVote(n, req, timedOut).0, id, loyal, leader, term)
    ensures leader in loyal && id in loyal ==> !OnRequestVote(n, req, timedOut).1
  {
    if req.gossip {
      PreVoteExactly(n, req, timedOut);
    } else {
      FormalVoteExactly(n, req, timedOut);
    }
  }

  lemma AppendStaysSteady(p: Policy, n: NodeState, id: NodeId, req: AppendRequest, loyal: set<NodeId>, leader: NodeId,
                          term: int)
    requires NodeSteady(n, id, loyal, leader, term) && MessageSteady(leader, term, Append(req)) && id != req.origin
    requires n.store.prevTerm <= term
    ensures NodeSteady(OnAppendEntries(p, n, req).0, id, loyal, leader, term)
    ensures OnAppendEntries(p, n, req).1.prevLogTerm <= term
  {
    if req.term == term {
      LeaderLearntExactly(p, n, req);
    }
  }

  lemma InstallStaysSteady(n: NodeState, id: NodeId, req: SnapshotRequest, loyal: set<NodeId>, leader: NodeId,
      term: int)
    requires NodeSteady(n, id, loyal, leader, term) && MessageSteady(leader, term, Chunk(req)) && id != req.leaderId
    ensures NodeSteady(OnInstallSnapshot(n, req).0, id, loyal, leader, term)
    ensures OnInstallSnapshot(n, req).1 <= term
  {
  }

  // ---------------------------------------------------------------- the steps

  lemma StartStaysSteady(c: Cluster, id: NodeId, loyal: set<NodeId>, leader: NodeId, term: int)
    requires Steady(c, loyal, leader, term) && Shaped(c) && id in c.nodes && (id in loyal ==> id == leader)
    ensures Steady(OnStartElection(c, id), loyal, leader, term)
  {
    var n, next := c.nodes[id], |c.rounds|;
    assert NodeSteady(n, id, loyal, leader, term);
    if n.role != Leader {
      var ballot := Ballot(next, BallotOf(n, n.currentTerm + 1, true));
      var asked := c.(rounds := c.rounds + [Round(id, false, term, {}, next)], net := c.net + {ballot});
      assert OnStartElection(c, id) == Put(asked, id, n.(leaderId := None));
      AskedIsSteady(c, asked, loyal, leader, term);
      CalmKeepsSteady(asked, Put(asked, id, n.(leaderId := None)), id, loyal, leader, term);
    }
  }

  lemma AskedIsSteady(c: Cluster, d: Cluster, loyal: set<NodeId>, leader: NodeId, term: int)
    requires Steady(c, loyal, leader, term) && Shaped(c) && d == c.(rounds := d.rounds, net := d.net)
    requires |d.rounds| == |c.rounds| + 1 && d.rounds[..|c.rounds|] == c.rounds
    requires var r := d.rounds[|c.rounds|]; !r.formal && r.granted == {} && r.node !in loyal
    requires forall m :: m in d.net && m !in c.net ==> m.Ballot? && m.req.gossip
    ensures Steady(d, loyal, leader, term)
  {
    forall m | m in d.net && m.Yes? ensures m.call < |c.rounds| {
      assert MessageShaped(c, m);
    }
    forall k | 0 <= k < |d.rounds| ensures RoundSteady(d, loyal, term, k) {
      if k < |c.rounds| {
        assert d.rounds[..|c.rounds|][k] == d.rounds[k] && RoundSteady(c, loyal, term, k);
      }
    }
    forall m | m in d.net ensures MessageSteady(leader, term, m) {
      assert m in c.net ==> MessageSteady(leader, term, m);
    }
  }

  lemma BallotStaysSteady(p: Policy, c: Cluster, step: Step, loyal: set<NodeId>, leader: NodeId, term: int)
    requires Steady(c, loyal, leader, term) && step.DeliverBallot? && Undisturbed(step, loyal, leader, term)
    requires Apply(p, c, step) != c
    ensures Steady(Apply(p, c, step), loyal, leader, term)
  {
    var d := Apply(p, c, step);
    assert MessageSteady(leader, term, Ballot(step.call, step.req));
    VotingStaysSteady(c.nodes[step.to], step.to, step.req, step.timedOut, loyal, leader, term);
    assert d.nodes[step.to] == OnRequestVote(c.nodes[step.to], step.req, step.timedOut).0;
    CalmKeepsSteady(c, d, step.to, loyal, leader, term);
  }

  lemma CountStaysSteady(p: Policy, c: Cluster, step: Step, loyal: set<NodeId>, leader: NodeId, term: int)
    requires Steady(c, loyal, leader, term) && step.CountYes? && Apply(p, c, step) != c
    ensures Steady(Apply(p, c, step), loyal, leader, term)
  {
    var d := Apply(p, c, step);
    forall k | 0 <= k < |d.rounds| ensures RoundSteady(d, loyal, term, k) {
      assert RoundSteady(c, loyal, term, k);
      if Unsupported(c, k, loyal) {
        assert k == step.call ==> Yes(step.call, step.voter).voter !in loyal;
      }
    }
  }

  /** No round of the term ends: neither a pre-vote nor a vote has found a majority. */
  lemma NothingIsWon(p: Policy, c: Cluster, step: Step, loyal: set<NodeId>, leader: NodeId, term: int)
    requires Steady(c, loyal, leader, term) && Shaped(c) && (step.FinishPreVote? || step.FinishVote?)
    ensures Apply(p, c, step) == c
  {
    if step.call < |c.rounds| {
      var r := c.rounds[step.call];
      assert RoundSteady(c, loyal, term, step.call) && RoundShaped(c, r);
      assert NodeSteady(c.nodes[r.node], r.node, loyal, leader, term);
      if r.term == term && !(r.formal && r.node in loyal) {
        TooFew(c, r, loyal);
      }
    }
  }

  lemma DeliveryStaysSteady(p: Policy, c: Cluster, step: Step, loyal: set<NodeId>, leader: NodeId, term: int)
    requires Steady(c, loyal, leader, term) && (step.DeliverAppend? || step.DeliverChunk?) && Apply(p, c, step) != c
    requires forall id :: id in c.nodes ==> c.nodes[id].store.prevTerm <= c.nodes[id].currentTerm
    ensures Steady(Apply(p, c, step), loyal, leader, term)
  {
    var d := Apply(p, c, step);
    if step.DeliverAppend? {
      assert MessageSteady(leader, term, Append(step.append));
      AppendStaysSteady(p, c.nodes[step.to], step.to, step.append, loyal, leader, term);
    } else {
      assert MessageSteady(leader, term, Chunk(step.chunk));
      InstallStaysSteady(c.nodes[step.to], step.to, step.chunk.(done := step.chunk.done && step.begun), loyal, leader,
                         term);
    }
    CalmKeepsSteady(c, d, step.to, loyal, leader, term);
  }

  lemma OthersStaySteady(p: Policy, c: Cluster, step: Step, loyal: set<NodeId>, leader: NodeId, term: int)
    requires Steady(c, loyal, leader, term) && OutsideElections(step) && Apply(p, c, step) != c
    requires !step.DeliverAppend? && !step.DeliverChunk?
    ensures Steady(Apply(p, c, step), loyal, leader, term)
  {
    var d, id := Apply(p, c, step), ActingNode(c, step);
    assert NodeSteady(c.nodes[id], id, loyal, leader, term);
    if step.ReadTermReply? {
      assert MessageSteady(leader, term, TermReply(step.term));
    }
    CalmKeepsSteady(c, d, id, loyal, leader, term);
  }

  lemma StepStaysSteady(p: Policy, c: Cluster, step: Step, loyal: set<NodeId>, leader: NodeId, term: int)
    requires Steady(c, loyal, leader, term) && Shaped(c) && Undisturbed(step, loyal, leader, term)
    requires forall id :: id in c.nodes ==> c.nodes[id].store.prevTerm <= c.nodes[id].currentTerm
    ensures Steady(Apply(p, c, step), loyal, leader, term) && Apply(p, c, step).wins == c.wins
  {
    if step.FinishPreVote? || step.FinishVote? {
      NothingIsWon(p, c, step, loyal, leader, term);
    } else if Apply(p, c, step) != c {
      OnlyFinishesWin(p, c, step);
      match step {
        case StartElection(id) => StartStaysSteady(c, id, loyal, leader, term);
        case DeliverBallot(_, _, _, _) => BallotStaysSteady(p, c, step, loyal, leader, term);
        case CountYes(_, _) => CountStaysSteady(p, c, step, loyal, leader, term);
        case DeliverAppend(_, _) => DeliveryStaysSteady(p, c, step, loyal, leader, term);
        case DeliverChunk(_, _, _) => DeliveryStaysSteady(p, c, step, loyal, leader, term);
        case _ => OthersStaySteady(p, c, step, loyal, leader, term);
      }
    }
  }

  lemma OnlyFinishesWin(p: Policy, c: Cluster, step: Step)
    requires !step.FinishPreVote? && !step.FinishVote? && |c.nodes| >= 2
    ensures Apply(p, c, step).wins == c.wins
  {
  }

  lemma {:induction false} RunStaysSteady(p: Policy, ids: set<NodeId>, before: seq<Step>, steps: seq<Step>,
                                          loyal: set<NodeId>, leader: NodeId, term: int)
    requires Steady(Run(p, Init(ids), before), loyal, leader, term)
    requires forall i :: 0 <= i < |steps| ==> Undisturbed(steps[i], loyal, leader, term)
    ensures var c := Run(p, Init(ids), before);
            Steady(Run(p, c, steps), loyal, leader, term) && Run(p, c, steps).wins == c.wins
  {
    if steps != [] {
      var init, last := steps[..|steps| - 1], steps[|steps| - 1];
      RunStaysSteady(p, ids, before, init, loyal, leader, term);
      RunConcat(p, Init(ids), before, init);
      RunIsShaped(p, ids, before + init);
      var c := Run(p, Init(ids), before + init);
      forall id | id in c.nodes ensures c.nodes[id].store.prevTerm <= c.nodes[id].currentTerm {
        LogTermsOrdered(p, ids, before + init, id, AppendRequest(id, 0, 0, 0, 0, [], []));
      }
      StepStaysSteady(p, c, last, loyal, leader, term);
    }
  }

  /** A leader that at least half of the nodes follow stays the leader, in every run, under either policy: whatever the
      others try, nobody enters a new term or wins anything, as long as none of those that follow it runs out of
      patience and no ballot of its own election is delivered to them again. */
  lemma FollowedLeaderStays(p: Policy, ids: set<NodeId>, before: seq<Step>, steps: seq<Step>, loyal: set<NodeId>,
                            leader: NodeId, term: int)
    requires Steady(Run(p, Init(ids), before), loyal, leader, term)
    requires forall i :: 0 <= i < |steps| ==> Undisturbed(steps[i], loyal, leader, term)
    ensures var c := Run(p, Init(ids), before);
            var d := Run(p, c, steps);
            && d.wins == c.wins && leader in d.nodes
            && (forall id :: id in d.nodes ==>
                  d.nodes[id].currentTerm == term && (d.nodes[id].role == Leader <==> id == leader))
            && forall id :: id in loyal ==> id in d.nodes && d.nodes[id].leaderId.Some?
  {
    RunStaysSteady(p, ids, before, steps, loyal, leader, term);
    var d := Run(p, Run(p, Init(ids), before), steps);
    forall id | id in d.nodes ensures NodeSteady(d.nodes[id], id, loyal, leader, term) {
    }
  }

  // ---------------------------------------------------------------- how a cluster gets there

  ghost predicate OnlyAsking(c: Cluster) {
    c.transfers == [] && forall m :: m in c.net ==> IsQuestionOrYes(m)
  }

  predicate IsQuestionOrYes(m: Message) {
    m.Yes? || (m.Ballot? && (m.req.gossip || m.req.term == 1))
  }

  /** `a` has asked and been granted everybody's pre-vote. */
  lemma PreElected(p: Policy, a: NodeId, rest: set<NodeId>) returns (c: Cluster)
    requires a !in rest && rest != {}
    ensures Reaches(p, Init(rest + {a}), c) && c.nodes == Init(rest + {a}).nodes && OnlyAsking(c)
    ensures c.rounds == [Round(a, false, 0, rest, 0)] && |c.nodes| == |rest| + 1
  {
    var s := Init(rest + {a});
    assert s.nodes.Keys == rest + {a} && |s.nodes.Keys| == |s.nodes|;
    ReachesSelf(p, s);
    ReachesStep(p, s, s, StartElection(a));
    var c1 := Apply(p, s, StartElection(a));
    assert c1.nodes == s.nodes && c1.rounds == [Round(a, false, 0, {}, 0)];
    c := GatherPreVotes(p, s, c1, 0, a, rest);
    assert {} + rest == rest;
  }

  /** It is a candidate of term 1, and nobody else has moved. */
  ghost predicate OneCandidate(c: Cluster, a: NodeId, rest: set<NodeId>) {
    && OnlyAsking(c) && |c.nodes| == |rest| + 1 && c.nodes == Init(rest + {a}).nodes[a := Candidacy(a)]
    && |c.rounds| == 2 && c.rounds[0].term == 0 && c.rounds[1] == Round(a, true, 1, {}, 0)
    && Ballot(1, BallotOf(Candidacy(a), 1, false)) in c.net
  }

  lemma CampaignMakesCandidate(c: Cluster, a: NodeId, rest: set<NodeId>)
    requires a !in rest && c.nodes == Init(rest + {a}).nodes && OnlyAsking(c) && |c.nodes| == |rest| + 1
    requires c.rounds == [Round(a, false, 0, rest, 0)]
    ensures OneCandidate(Campaigned(c, 0), a, rest)
  {
    var d := Campaigned(c, 0);
    assert |d.nodes.Keys| == |d.nodes| && d.nodes.Keys == c.nodes.Keys && |c.nodes.Keys| == |c.nodes|;
    assert c.nodes[a] == NewNode(a);
  }

  lemma OneCandidateReachable(p: Policy, a: NodeId, rest: set<NodeId>) returns (c: Cluster)
    requires a !in rest && rest != {}
    ensures Reaches(p, Init(rest + {a}), c) && OneCandidate(c, a, rest)
  {
    var c1 := PreElected(p, a, rest);
    ReachesStep(p, Init(rest + {a}), c1, FinishPreVote(0));
    c := Apply(p, c1, FinishPreVote(0));
    assert c1.nodes[a] == NewNode(a) && HasMajority(c1, c1.rounds[0]);
    assert c == Campaigned(c1, 0);
    CampaignMakesCandidate(c1, a, rest);
  }

  /** It has everybody's vote and leads. */
  ghost predicate OneLeader(c: Cluster, a: NodeId, rest: set<NodeId>) {
    && OnlyAsking(c) && |c.nodes| == |rest| + 1 && c.nodes.Keys == rest + {a}
    && c.nodes[a] == TakeOffice(Candidacy(a))
    && (forall v :: v in rest ==> c.nodes[v] == NewNode(v).(currentTerm := 1, votedFor := Some(a)))
    && |c.rounds| == 2 && c.rounds[0].term == 0 && c.rounds[1].formal && c.rounds[1].node == a
  }

  lemma OneLeaderReachable(p: Policy, a: NodeId, rest: set<NodeId>) returns (c: Cluster)
    requires a !in rest && rest != {}
    ensures Reaches(p, Init(rest + {a}), c) && OneLeader(c, a, rest)
  {
    var c1 := OneCandidateReachable(p, a, rest);
    assert forall v :: v in rest ==> c1.nodes[v] == NewNode(v);
    c := CollectAndWin(p, Init(rest + {a}), c1, 1, BallotOf(Candidacy(a), 1, false), rest);
  }

  /** Any cluster of two or more gets to a leader that everybody follows: one of them asks, is elected by all, and sends
      one heartbeat. */
  lemma FollowedLeaderReachable(p: Policy, a: NodeId, rest: set<NodeId>) returns (c: Cluster)
    requires a !in rest && rest != {}
    ensures Reaches(p, Init(rest + {a}), c) && Steady(c, rest + {a}, a, 1)
  {
    var s, heartbeat := Init(rest + {a}), AppendRequest(a, 1, 0, 0, 0, [], []);
    var c1 := OneLeaderReachable(p, a, rest);
    ReachesStep(p, s, c1, SendAppend(heartbeat));
    var c2 := Apply(p, c1, SendAppend(heartbeat));
    assert c2 == c1.(net := c1.net + {Append(heartbeat)});
    c := Spread(p, s, c2, heartbeat, rest);
    TaughtMessages(p, c1, c, a, rest, heartbeat);
    TaughtNodes(p, c1, c, a, rest, heartbeat);
    AllFollow(c, a, rest);
  }

  lemma AllFollow(c: Cluster, a: NodeId, rest: set<NodeId>)
    requires a !in rest && rest != {} && c.nodes.Keys == rest + {a} && c.transfers == []
    requires |c.rounds| == 2 && c.rounds[0].term == 0 && c.rounds[1].formal && c.rounds[1].node == a
    requires forall id :: id in c.nodes ==> NodeSteady(c.nodes[id], id, rest + {a}, a, 1)
    requires forall m :: m in c.net ==> MessageSteady(a, 1, m)
    ensures Steady(c, rest + {a}, a, 1)
  {
    assert |c.nodes.Keys| == |c.nodes|;
    assert |rest + {a}| == |rest| + 1;
  }

  lemma TaughtNodes(p: Policy, c: Cluster, d: Cluster, a: NodeId, rest: set<NodeId>, heartbeat: AppendRequest)
    requires a !in rest && OneLeader(c, a, rest) && heartbeat == AppendRequest(a, 1, 0, 0, 0, [], [])
    requires d.nodes == (map id | id in c.nodes ::
                           if id in rest then OnAppendEntries(p, c.nodes[id], heartbeat).0 else c.nodes[id])
    ensures forall id :: id in d.nodes ==> NodeSteady(d.nodes[id], id, rest + {a}, a, 1)
  {
    forall id | id in d.nodes ensures NodeSteady(d.nodes[id], id, rest + {a}, a, 1) {
      if id in rest {
        LeaderLearntExactly(p, c.nodes[id], heartbeat);
      }
    }
  }

  lemma TaughtMessages(p: Policy, c: Cluster, d: Cluster, a: NodeId, rest: set<NodeId>, heartbeat: AppendRequest)
    requires OneLeader(c, a, rest) && heartbeat == AppendRequest(a, 1, 0, 0, 0, [], [])
    requires forall m :: m in d.net && m !in c.net + {Append(heartbeat)} ==>
               && m.TermReply?
               && exists v :: v in rest && m.term == OnAppendEntries(p, c.nodes[v], heartbeat).1.prevLogTerm
    ensures forall m :: m in d.net ==> MessageSteady(a, 1, m)
  {
    forall m | m in d.net ensures MessageSteady(a, 1, m) {
      if m in c.net {
        assert IsQuestionOrYes(m);
      } else if m != Append(heartbeat) {
        var v :| v in rest && m.term == OnAppendEntries(p, c.nodes[v], heartbeat).1.prevLogTerm;
      }
    }
  }
}
