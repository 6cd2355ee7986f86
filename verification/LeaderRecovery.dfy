/** When a cluster of two that has no leader can still get one: exactly when it is not deadlocked. */
module LeaderRecovery {
  import opened Election
  import opened ElectionDeadlock
  import opened LogStore
  import opened RaftNode
  import opened Terms
  import opened Wrappers

  // ---------------------------------------------------------------- how a leader comes about

  ghost predicate HasLeader(c: Cluster) {
    exists id :: id in c.nodes && c.nodes[id].role == Leader
  }

  ghost predicate CanLead(p: Policy, c: Cluster) {
    exists d :: Reaches(p, c, d) && HasLeader(d)
  }

  ghost predicate Pair(c: Cluster, x: NodeId, y: NodeId) {
    && x != y && c.nodes.Keys == {x, y} && |c.nodes| == 2
    && c.nodes[x].id == x && c.nodes[y].id == y
  }

  /** Round `k` is the campaign that the candidate `x` is in, and its ballot has been sent. */
  ghost predicate Campaigning(c: Cluster, x: NodeId, k: nat) {
    && k < |c.rounds| && x in c.nodes && c.nodes[x].role == Candidate
    && c.rounds[k].formal && c.rounds[k].node == x && c.rounds[k].term == c.nodes[x].currentTerm
    && Ballot(k, BallotOf(c.nodes[x], c.nodes[x].currentTerm, false)) in c.net
  }

  ghost predicate NoChunks(c: Cluster) {
    forall m :: m in c.net ==> !m.Chunk?
  }

  /** No snapshot is being sent, or has been. */
  ghost predicate NoSnapshots(c: Cluster) {
    c.transfers == [] && NoChunks(c)
  }

  lemma FinishWins(p: Policy, s: Cluster, c: Cluster, k: nat)
    requires Reaches(p, s, c) && k < |c.rounds| && c.rounds[k].formal
    requires StillAsking(c, c.rounds[k]) && HasMajority(c, c.rounds[k])
    ensures CanLead(p, s)
  {
    ReachesStep(p, s, c, FinishVote(k));
    var d := Apply(p, c, FinishVote(k));
    assert d.nodes[c.rounds[k].node].role == Leader;
  }

  lemma OneMore(r: Round, v: NodeId)
    ensures |r.granted + {v}| >= 1
  {
    assert v in r.granted + {v};
  }

  /** A candidate whose ballot the other node would grant. */
  lemma VoteWins(p: Policy, s: Cluster, c: Cluster, x: NodeId, y: NodeId, k: nat)
    requires Reaches(p, s, c) && Pair(c, x, y) && Campaigning(c, x, k)
    requires WouldGrant(c.nodes[y], BallotOf(c.nodes[x], c.nodes[x].currentTerm, false))
    ensures CanLead(p, s)
  {
    var req := BallotOf(c.nodes[x], c.nodes[x].currentTerm, false);
    var d := GatherOne(p, s, c, k, req, y);
    OneMore(c.rounds[k], y);
    FinishWins(p, s, d, k);
  }

  /** The pre-vote that a follower begins, once the other node has granted it. */
  lemma AskOther(p: Policy, s: Cluster, c: Cluster, x: NodeId, y: NodeId) returns (d: Cluster)
    requires Reaches(p, s, c) && Pair(c, x, y) && c.nodes[x].role == Follower
    requires WouldGrant(c.nodes[y], BallotOf(c.nodes[x], c.nodes[x].currentTerm + 1, true))
    ensures Reaches(p, s, d) && d.nodes == c.nodes[x := c.nodes[x].(leaderId := None)] && |d.nodes| == 2
    ensures |d.rounds| == |c.rounds| + 1 && HasMajority(d, d.rounds[|c.rounds|])
    ensures d.rounds == c.rounds + [Round(x, false, c.nodes[x].currentTerm, {y}, |c.rounds|)]
    ensures c.net <= d.net && (NoSnapshots(c) ==> NoSnapshots(d))
  {
    var k, req := |c.rounds|, BallotOf(c.nodes[x], c.nodes[x].currentTerm + 1, true);
    ReachesStep(p, s, c, StartElection(x));
    var c1 := Apply(p, c, StartElection(x));
    NodesStay(p, c, StartElection(x));
    assert c1 == Asked(c, x, {Ballot(k, req)});
    d := GatherOne(p, s, c1, k, req, y);
    assert d.nodes == c1.nodes;
    assert {} + {y} == {y};
  }

  lemma Campaigns(p: Policy, s: Cluster, c: Cluster, x: NodeId, y: NodeId, k: nat) returns (d: Cluster)
    requires Reaches(p, s, c) && Pair(c, x, y) && k < |c.rounds| && !c.rounds[k].formal && HasMajority(c, c.rounds[k])
    requires c.rounds[k].node == x && c.rounds[k].term == c.nodes[x].currentTerm && c.nodes[x].role != Leader
    ensures Reaches(p, s, d) && Pair(d, x, y) && Campaigning(d, x, |c.rounds|)
    ensures d.nodes[x] == Campaign(c.nodes[x]) && d.nodes[y] == c.nodes[y]
    ensures d.rounds == c.rounds + [Round(x, true, c.nodes[x].currentTerm + 1, {}, k)]
    ensures c.net <= d.net && (NoSnapshots(c) ==> NoSnapshots(d))
  {
    ReachesStep(p, s, c, FinishPreVote(k));
    d := Apply(p, c, FinishPreVote(k));
    NodesStay(p, c, FinishPreVote(k));
    assert d == Campaigned(c, k);
  }

  /** A follower whose log is not behind that of the other node, which is not ahead of it in terms. */
  lemma FollowerWins(p: Policy, s: Cluster, c: Cluster, x: NodeId, y: NodeId)
    requires Reaches(p, s, c) && Pair(c, x, y) && c.nodes[x].role == Follower && c.nodes[y].role != Leader
    requires c.nodes[y].currentTerm <= c.nodes[x].currentTerm
    requires IsUpToDate(BallotOf(c.nodes[x], 0, true), c.nodes[y].store)
    ensures CanLead(p, s)
  {
    var c1 := AskOther(p, s, c, x, y);
    assert c1.nodes.Keys == {x, y};
    var c2 := Campaigns(p, s, c1, x, y, |c.rounds|);
    VoteWins(p, s, c2, x, y, |c1.rounds|);
  }

  /** A candidate that is ahead in terms makes the other node its supporter, or else a follower of its term whose log is
      ahead of its own. */
  lemma AheadWins(p: Policy, s: Cluster, c: Cluster, x: NodeId, y: NodeId, k: nat)
    requires Reaches(p, s, c) && Pair(c, x, y) && Campaigning(c, x, k)
    requires c.nodes[y].currentTerm < c.nodes[x].currentTerm
    ensures CanLead(p, s)
  {
    var req := BallotOf(c.nodes[x], c.nodes[x].currentTerm, false);
    if WouldGrant(c.nodes[y], req) {
      VoteWins(p, s, c, x, y, k);
    } else {
      ReachesStep(p, s, c, DeliverBallot(k, req, y, true));
      var d := Apply(p, c, DeliverBallot(k, req, y, true));
      NodesStay(p, c, DeliverBallot(k, req, y, true));
      FollowerWins(p, s, d, y, x);
    }
  }

  // ---------------------------------------------------------------- a round within reach of a majority

  ghost predicate BallotsMatch(c: Cluster, k: nat)
    requires k < |c.rounds|
  {
    forall m :: m in c.net && m.Ballot? && m.call == k ==>
      m.req.origin == c.rounds[k].node && (m.req.gossip <==> !c.rounds[k].formal)
  }

  /** The other node's yes to a round, however it is still to be had. */
  lemma CollectFromReach(p: Policy, s: Cluster, c: Cluster, x: NodeId, y: NodeId, k: nat) returns (d: Cluster)
    requires Reaches(p, s, c) && Pair(c, x, y) && k < |c.rounds| && StillAsking(c, c.rounds[k]) && BallotsMatch(c, k)
    requires c.rounds[k].node == x && Reach(c, k) != {}
    ensures Reaches(p, s, d) && Pair(d, x, y) && |d.rounds| == |c.rounds| && HasMajority(d, d.rounds[k])
    ensures d.rounds[k] == c.rounds[k].(granted := d.rounds[k].granted) && d.nodes[x] == c.nodes[x]
    ensures !c.rounds[k].formal ==> d.nodes == c.nodes
  {
    var v :| v in Reach(c, k);
    OneMore(c.rounds[k], v);
    if v in c.rounds[k].granted {
      d := c;
      assert c.rounds[k].granted + {v} == c.rounds[k].granted;
    } else if Yes(k, v) in c.net {
      ReachesStep(p, s, c, CountYes(k, v));
      d := Apply(p, c, CountYes(k, v));
    } else {
      var m :| m in c.net && m.Ballot? && m.call == k && v in Willing(c, m.req);
      assert m == Ballot(k, m.req);
      d := CollectFromWilling(p, s, c, x, y, k, m.req, v);
    }
  }

  lemma CollectFromWilling(p: Policy, s: Cluster, c: Cluster, x: NodeId, y: NodeId, k: nat, req: VoteRequest, v: NodeId)
    returns (d: Cluster)
    requires Reaches(p, s, c) && Pair(c, x, y) && k < |c.rounds| && StillAsking(c, c.rounds[k])
    requires c.rounds[k].node == x && Ballot(k, req) in c.net && req.origin == x && v in Willing(c, req)
    requires !c.rounds[k].formal ==> req.gossip
    ensures Reaches(p, s, d) && Pair(d, x, y) && |d.rounds| == |c.rounds| && HasMajority(d, d.rounds[k])
    ensures d.rounds[k] == c.rounds[k].(granted := d.rounds[k].granted) && d.nodes[x] == c.nodes[x]
    ensures !c.rounds[k].formal ==> d.nodes == c.nodes
  {
    OneMore(c.rounds[k], v);
    d := GatherOne(p, s, c, k, req, v);
    if !c.rounds[k].formal {
      GossipChangesNothing(c.nodes[v], req, true);
      assert d.nodes == c.nodes;
    }
  }

  lemma RoundInReachWins(p: Policy, s: Cluster, c: Cluster, x: NodeId, y: NodeId, k: nat)
    requires Reaches(p, s, c) && Pair(c, x, y) && k < |c.rounds| && StillAsking(c, c.rounds[k]) && BallotsMatch(c, k)
    requires c.rounds[k].node == x && Reach(c, k) != {}
    requires c.nodes[y].currentTerm <= c.nodes[x].currentTerm
    ensures CanLead(p, s)
  {
    var d := CollectFromReach(p, s, c, x, y, k);
    if c.rounds[k].formal {
      FinishWins(p, s, d, k);
    } else {
      var e := Campaigns(p, s, d, x, y, k);
      AheadWins(p, s, e, x, y, |d.rounds|);
    }
  }

  ghost predicate RoundsMatch(c: Cluster) {
    forall k :: 0 <= k < |c.rounds| ==> c.rounds[k].node in c.nodes && BallotsMatch(c, k)
  }

  lemma VotingRoundsMatch(p: Policy, c: Cluster)
    requires VoteInv(p, c)
    ensures RoundsMatch(c)
  {
    forall k | 0 <= k < |c.rounds| ensures c.rounds[k].node in c.nodes && BallotsMatch(c, k) {
      assert RoundOk(c, c.rounds[k]);
      forall m | m in c.net ensures m.Ballot? && m.call == k ==>
                                      m.req.origin == c.rounds[k].node && (m.req.gossip <==> !c.rounds[k].formal) {
        assert MessageOk(c, m);
      }
    }
  }

  // ---------------------------------------------------------------- what two nodes keep

  /** A follower has heard of its term from another node; a candidate has asked for votes in its term; and who has won
      the term that it is in is its leader. */
  ghost predicate NodeLively(c: Cluster, id: NodeId)
    requires id in c.nodes
  {
    var n := c.nodes[id];
    && (n.role == Follower ==> exists w :: w in c.nodes && w != id && n.currentTerm <= c.nodes[w].currentTerm)
    && (n.role == Candidate ==> exists k: nat :: Campaigning(c, id, k))
  }

  ghost predicate WinLively(c: Cluster, w: Win) {
    && w.node in c.nodes && w.term <= c.nodes[w.node].currentTerm
    && (w.term == c.nodes[w.node].currentTerm ==> c.nodes[w.node].role == Leader)
  }

  /** No message is ahead of the nodes that sent it. */
  ghost predicate MessageLively(c: Cluster, m: Message) {
    match m
    case Ballot(_, req) => !req.gossip ==> req.origin in c.nodes && req.term <= c.nodes[req.origin].currentTerm
    case TermReply(t) => exists id :: id in c.nodes && t <= c.nodes[id].currentTerm
    case Chunk(_) => false
    case _ => true
  }

  ghost predicate Lively(c: Cluster) {
    && (forall id :: id in c.nodes ==> NodeLively(c, id))
    && (forall w :: w in c.wins ==> WinLively(c, w))
    && (forall m :: m in c.net ==> MessageLively(c, m))
  }

  /** A step that changes one node, to what Lively asks of it. */
  ghost predicate Moved(c: Cluster, d: Cluster, id: NodeId) {
    && id in c.nodes && id in d.nodes && d.nodes == c.nodes[id := d.nodes[id]]
    && |c.rounds| <= |d.rounds| && c.net <= d.net
    && (forall k :: 0 <= k < |c.rounds| ==> d.rounds[k] == c.rounds[k].(granted := d.rounds[k].granted))
    && NodeLively(d, id)
    && c.nodes[id].currentTerm <= d.nodes[id].currentTerm
    && (c.nodes[id].role == Leader && c.nodes[id].currentTerm == d.nodes[id].currentTerm ==> d.nodes[id].role == Leader)
    && (forall w :: w in d.wins && w !in c.wins ==> WinLively(d, w))
    && (forall m :: m in d.net && m !in c.net ==> MessageLively(d, m))
  }

  lemma CampaigningStays(c: Cluster, d: Cluster, id: NodeId, k: nat)
    requires Campaigning(c, id, k) && id in d.nodes && c.net <= d.net
    requires |c.rounds| <= |d.rounds| && d.rounds[k] == c.rounds[k].(granted := d.rounds[k].granted)
    requires d.nodes[id].id == c.nodes[id].id && d.nodes[id].role == Candidate
    requires d.nodes[id].currentTerm == c.nodes[id].currentTerm
    requires d.nodes[id].store.prevIndex == c.nodes[id].store.prevIndex
    requires d.nodes[id].store.prevTerm == c.nodes[id].store.prevTerm
    ensures Campaigning(d, id, k)
  {
  }

  lemma MovedKeepsOther(c: Cluster, d: Cluster, id: NodeId, other: NodeId)
    requires Moved(c, d, id) && other in c.nodes && other != id && NodeLively(c, other)
    ensures NodeLively(d, other)
  {
    var n := c.nodes[other];
    assert d.nodes[other] == n;
    if n.role == Follower {
      var w :| w in c.nodes && w != other && n.currentTerm <= c.nodes[w].currentTerm;
      assert w in d.nodes && n.currentTerm <= d.nodes[w].currentTerm;
    }
    if n.role == Candidate {
      var k: nat :| Campaigning(c, other, k);
      CampaigningStays(c, d, other, k);
    }
  }

  lemma MovedKeepsMessage(c: Cluster, d: Cluster, id: NodeId, m: Message)
    requires Moved(c, d, id) && MessageLively(c, m)
    ensures MessageLively(d, m)
  {
    if m.TermReply? {
      var w :| w in c.nodes && m.term <= c.nodes[w].currentTerm;
      assert w in d.nodes && m.term <= d.nodes[w].currentTerm;
    }
  }

  lemma MovedKeepsLively(c: Cluster, d: Cluster, id: NodeId)
    requires Lively(c) && Moved(c, d, id)
    ensures Lively(d)
  {
    forall other | other in d.nodes ensures NodeLively(d, other) {
      if other != id {
        MovedKeepsOther(c, d, id, other);
      }
    }
    forall w | w in d.wins ensures WinLively(d, w) {
      assert w in c.wins ==> WinLively(c, w);
    }
    forall m | m in d.net ensures MessageLively(d, m) {
      if m in c.net {
        MovedKeepsMessage(c, d, id, m);
      }
    }
  }

  lemma CountKeepsLively(c: Cluster, call: nat, voter: NodeId)
    requires Lively(c) && call < |c.rounds|
    ensures Lively(c.(rounds := c.rounds[call := c.rounds[call].(granted := c.rounds[call].granted + {voter})]))
  {
    var d := c.(rounds := c.rounds[call := c.rounds[call].(granted := c.rounds[call].granted + {voter})]);
    forall id | id in d.nodes ensures NodeLively(d, id) {
      assert NodeLively(c, id);
      if c.nodes[id].role == Candidate {
        var k: nat :| Campaigning(c, id, k);
        CampaigningStays(c, d, id, k);
      }
    }
    forall w | w in d.wins ensures WinLively(d, w) {
      assert WinLively(c, w);
    }
    forall m | m in d.net ensures MessageLively(d, m) {
      assert MessageLively(c, m);
    }
  }

  /** Neither its role, its term nor the tip of its log has changed. */
  predicate StaysPut(n: NodeState, n': NodeState) {
    && n'.id == n.id && n'.role == n.role && n'.currentTerm == n.currentTerm
    && n'.store.prevIndex == n.store.prevIndex && n'.store.prevTerm == n.store.prevTerm
  }

  lemma PutKeepsNodeLively(c: Cluster, d: Cluster, id: NodeId)
    requires id in c.nodes && id in d.nodes && d.nodes == c.nodes[id := d.nodes[id]] && c.net <= d.net
    requires |c.rounds| <= |d.rounds| && d.rounds[..|c.rounds|] == c.rounds
    requires NodeLively(c, id) && StaysPut(c.nodes[id], d.nodes[id])
    ensures NodeLively(d, id)
  {
    var n := c.nodes[id];
    if n.role == Follower {
      var w :| w in c.nodes && w != id && n.currentTerm <= c.nodes[w].currentTerm;
      assert w in d.nodes && n.currentTerm <= d.nodes[w].currentTerm;
    }
    if n.role == Candidate {
      var k: nat :| Campaigning(c, id, k);
      assert d.rounds[..|c.rounds|][k] == d.rounds[k];
      CampaigningStays(c, d, id, k);
    }
  }

  lemma StartMoves(c: Cluster, id: NodeId)
    requires Lively(c) && NodesOk(c) && |c.nodes| >= 2 && id in c.nodes && c.nodes[id].role != Leader
    ensures Moved(c, OnStartElection(c, id), id)
  {
    var d := OnStartElection(c, id);
    assert d.rounds[..|c.rounds|] == c.rounds;
    PutKeepsNodeLively(c, d, id);
  }

  lemma BallotMoves(c: Cluster, call: nat, req: VoteRequest, to: NodeId, timedOut: bool)
    requires Lively(c) && NodesOk(c) && Ballot(call, req) in c.net && to in c.nodes && to != req.origin
    ensures Moved(c, OnDeliverBallot(c, call, req, to, timedOut), to)
  {
    var d := OnDeliverBallot(c, call, req, to, timedOut);
    assert MessageLively(c, Ballot(call, req));
    if d.nodes[to].currentTerm > c.nodes[to].currentTerm {
      assert req.origin in d.nodes && d.nodes[to].currentTerm <= d.nodes[req.origin].currentTerm;
    } else {
      assert d.rounds[..|c.rounds|] == c.rounds;
      PutKeepsNodeLively(c, d, to);
    }
  }

  lemma CampaignMoves(c: Cluster, call: nat)
    requires Lively(c) && NodesOk(c) && call < |c.rounds| && c.rounds[call].node in c.nodes
    ensures Moved(c, Campaigned(c, call), c.rounds[call].node)
  {
    var d, id := Campaigned(c, call), c.rounds[call].node;
    assert Campaigning(d, id, |c.rounds|);
  }

  lemma ElectMoves(c: Cluster, id: NodeId)
    requires Lively(c) && NodesOk(c) && id in c.nodes
    ensures Moved(c, Elected(c, id), id)
  {
  }

  /** An append that is not turned down comes from another node in at least its own term, and whoever has won a term
      takes no append of that term. */
  lemma AppendMoves(p: Policy, c: Cluster, req: AppendRequest, to: NodeId)
    requires Lively(c) && NodesOk(c) && OneLeaderPerTerm(c) && MessageOk(c, Append(req))
    requires Append(req) in c.net && to in c.nodes && to != req.origin
    requires c.nodes[to].store.prevTerm <= c.nodes[to].currentTerm
    ensures Moved(c, Apply(p, c, DeliverAppend(req, to)), to)
  {
    var n := c.nodes[to];
    var (n', resp) := OnAppendEntries(p, n, req);
    assert WinLively(c, Win(req.origin, req.term));
    assert n.id == to && (n.role == Leader ==> Win(to, n.currentTerm) in c.wins);
    AppendKeepsTips(p, n, req);
    ReplyMoves(c, to, n', resp.prevLogTerm, req.origin);
  }

  /** A node that stays put or follows another one, and answers with no more than its own term. */
  lemma ReplyMoves(c: Cluster, to: NodeId, n': NodeState, reply: int, from: NodeId)
    requires Lively(c) && to in c.nodes && reply <= n'.currentTerm && c.nodes[to].currentTerm <= n'.currentTerm
    requires StaysPut(c.nodes[to], n')
             || (n'.role == Follower && from in c.nodes && from != to && n'.currentTerm <= c.nodes[from].currentTerm
                 && (c.nodes[to].role == Leader ==> c.nodes[to].currentTerm < n'.currentTerm))
    ensures Moved(c, Put(c, to, n').(net := c.net + {TermReply(reply)}), to)
  {
    var d := Put(c, to, n').(net := c.net + {TermReply(reply)});
    assert to in d.nodes && reply <= d.nodes[to].currentTerm;
    if StaysPut(c.nodes[to], n') {
      assert d.rounds[..|c.rounds|] == c.rounds;
      PutKeepsNodeLively(c, d, to);
    } else {
      assert from in d.nodes && n'.currentTerm <= d.nodes[from].currentTerm;
    }
  }

  lemma AppendKeepsTips(p: Policy, n: NodeState, req: AppendRequest)
    requires n.store.prevTerm <= n.currentTerm
    ensures var (n', resp) := OnAppendEntries(p, n, req);
            && resp.prevLogTerm <= n.currentTerm <= n'.currentTerm
            && (req.term < n.currentTerm ==> n' == n)
            && (req.term >= n.currentTerm ==> n'.role == Follower && n'.currentTerm == req.term)
  {
  }

  lemma ReadingMoves(p: Policy, c: Cluster, id: NodeId, term: int)
    requires Lively(c) && id in c.nodes && TermReply(term) in c.net
    ensures Moved(c, Apply(p, c, ReadTermReply(id, term)), id)
  {
    var d := Apply(p, c, ReadTermReply(id, term));
    assert MessageLively(c, TermReply(term));
    if term > c.nodes[id].currentTerm {
      var w :| w in c.nodes && term <= c.nodes[w].currentTerm;
      assert w in d.nodes && d.nodes[id].currentTerm <= d.nodes[w].currentTerm;
    } else {
      assert d.rounds[..|c.rounds|] == c.rounds;
      PutKeepsNodeLively(c, d, id);
    }
  }

  lemma LocalMoves(p: Policy, c: Cluster, step: Step)
    requires Lively(c) && Apply(p, c, step) != c
    requires step.SendAppend? || step.BeginTransfer? || step.EndTransfer? || step.AppendLocal?
             || step.BeginCompaction? || step.FinishCompaction?
    ensures Moved(c, Apply(p, c, step), ActingNode(c, step))
  {
    var d, id := Apply(p, c, step), ActingNode(c, step);
    assert d.rounds[..|c.rounds|] == c.rounds;
    if step.AppendLocal? {
      assert d.nodes[id].role == Leader;
    } else {
      PutKeepsNodeLively(c, d, id);
    }
  }

  lemma ChunkStepsLeaveChunks(p: Policy, c: Cluster, step: Step)
    requires (step.SendChunk? || step.DeliverChunk?) && Apply(p, c, step) != c
    ensures !NoChunks(Apply(p, c, step))
  {
    if step.SendChunk? {
      var t := c.transfers[step.transfer];
      assert Chunk(SnapshotRequest(t.node, c.nodes[t.node].currentTerm, t.lastIndex, t.lastTerm, step.offset, step.data,
                                   step.done)) in Apply(p, c, step).net;
    }
  }

  lemma StepKeepsLively(p: Policy, c: Cluster, step: Step)
    requires Lively(c) && VoteInv(p, c) && OneLeaderPerTerm(c) && |c.nodes| >= 2
    requires forall id :: id in c.nodes ==> c.nodes[id].store.prevTerm <= c.nodes[id].currentTerm
    requires Apply(p, c, step) != c && NoChunks(Apply(p, c, step))
    ensures Lively(Apply(p, c, step))
  {
    var d := Apply(p, c, step);
    if step.SendChunk? || step.DeliverChunk? {
      ChunkStepsLeaveChunks(p, c, step);
      return;
    }
    match step {
      case StartElection(id) =>
        StartMoves(c, id);
        MovedKeepsLively(c, d, id);
      case DeliverBallot(call, req, to, timedOut) =>
        BallotMoves(c, call, req, to, timedOut);
        MovedKeepsLively(c, d, to);
      case CountYes(call, voter) => CountKeepsLively(c, call, voter);
      case FinishPreVote(call) =>
        CampaignMoves(c, call);
        MovedKeepsLively(c, d, c.rounds[call].node);
      case FinishVote(call) =>
        ElectMoves(c, c.rounds[call].node);
        MovedKeepsLively(c, d, c.rounds[call].node);
      case DeliverAppend(req, to) =>
        AppendMoves(p, c, req, to);
        MovedKeepsLively(c, d, to);
      case ReadTermReply(id, term) =>
        ReadingMoves(p, c, id, term);
        MovedKeepsLively(c, d, id);
      case _ =>
        LocalMoves(p, c, step);
        MovedKeepsLively(c, d, ActingNode(c, step));
    }
  }

  /** In a run of two nodes in which no snapshot is sent. */
  lemma {:induction false} RunIsLively(p: Policy, a: NodeId, b: NodeId, steps: seq<Step>)
    requires a != b && NoChunks(Run(p, Init({a, b}), steps))
    ensures Lively(Run(p, Init({a, b}), steps))
  {
    if steps == [] {
      var c := Init({a, b});
      assert a in c.nodes && b in c.nodes;
    } else {
      var init, step := steps[..|steps| - 1], steps[|steps| - 1];
      var c := Run(p, Init({a, b}), init);
      MessagesStay(p, c, step);
      RunIsLively(p, a, b, init);
      TwoNodeRun(p, a, b, init);
      if Apply(p, c, step) != c {
        StepKeepsLively(p, c, step);
      }
    }
  }

  lemma MessagesStay(p: Policy, c: Cluster, step: Step)
    ensures c.net <= Apply(p, c, step).net
  {
  }

  lemma TwoNodeRun(p: Policy, a: NodeId, b: NodeId, steps: seq<Step>)
    requires a != b
    ensures var c := Run(p, Init({a, b}), steps);
            && VoteInv(p, c) && OneLeaderPerTerm(c) && Pair(c, a, b)
            && forall id :: id in c.nodes ==> c.nodes[id].store.prevTerm <= c.nodes[id].currentTerm
  {
    var c := Run(p, Init({a, b}), steps);
    RunKeepsVoteInv(p, {a, b}, steps);
    InvMeansOneLeader(p, c);
    assert |c.nodes.Keys| == |c.nodes|;
    forall id | id in c.nodes ensures c.nodes[id].store.prevTerm <= c.nodes[id].currentTerm {
      LogTermsOrdered(p, {a, b}, steps, id, AppendRequest(a, 0, 0, 0, 0, [], []));
    }
  }

  // ---------------------------------------------------------------- exactly when there can be a leader

  /** Without a leader in a lively cluster, what the messages say is harmless. */
  lemma MessagesAreHarmless(p: Policy, c: Cluster, term: int)
    requires Lively(c) && VoteInv(p, c) && !HasLeader(c)
    requires forall id :: id in c.nodes ==> c.nodes[id].currentTerm == term
    ensures forall m :: m in c.net ==> MessageHarmless(c, term, m)
  {
    forall m | m in c.net ensures MessageHarmless(c, term, m) {
      assert MessageLively(c, m) && MessageOk(c, m);
      if m.Append? {
        assert WinLively(c, Win(m.append.origin, m.append.term));
      }
    }
  }

  /** A node of a pair that is in the same term as the other, leaderless. */
  lemma LevelFollowerWins(p: Policy, c: Cluster, x: NodeId, y: NodeId)
    requires Pair(c, x, y) && !HasLeader(c) && c.nodes[x].currentTerm == c.nodes[y].currentTerm && !CannotAsk(c, x)
    ensures CanLead(p, c)
  {
    var req := BallotOf(c.nodes[x], c.nodes[x].currentTerm + 1, true);
    assert Willing(c, req) != {};
    var w :| w in Willing(c, req);
    assert w == y;
    ReachesSelf(p, c);
    FollowerWins(p, c, c, x, y);
  }

  lemma LevelRoundWins(p: Policy, c: Cluster, x: NodeId, y: NodeId, k: nat)
    requires Pair(c, x, y) && !HasLeader(c) && c.nodes[x].currentTerm == c.nodes[y].currentTerm
    requires k < |c.rounds| && c.rounds[k].node == x && BallotsMatch(c, k) && !RoundFails(c, k)
    ensures CanLead(p, c)
  {
    ReachesSelf(p, c);
    if StillAsking(c, c.rounds[k]) && 1 + |Reach(c, k)| >= Majority(c) {
      RoundInReachWins(p, c, c, x, y, k);
    } else {
      var d := Campaigns(p, c, c, x, y, k);
      AheadWins(p, c, d, x, y, |c.rounds|);
    }
  }

  /** What is not deadlocked, although nothing else stands against it, has a round or a follower that succeeds. */
  lemma WhyNotDeadlocked(c: Cluster, x: NodeId, y: NodeId)
    requires Pair(c, x, y) && !HasLeader(c) && c.transfers == [] && c.nodes[x].currentTerm == c.nodes[y].currentTerm
    requires forall m :: m in c.net ==> MessageHarmless(c, c.nodes[x].currentTerm, m)
    requires !Deadlocked(c, c.nodes[x].currentTerm)
    ensures (exists k: nat :: k < |c.rounds| && !RoundFails(c, k)) || !CannotAsk(c, x) || !CannotAsk(c, y)
  {
  }

  lemma LevelPairWins(p: Policy, c: Cluster, x: NodeId, y: NodeId)
    requires Pair(c, x, y) && !HasLeader(c) && c.transfers == [] && RoundsMatch(c)
    requires forall m :: m in c.net ==> MessageHarmless(c, c.nodes[x].currentTerm, m)
    requires c.nodes[x].currentTerm == c.nodes[y].currentTerm && !Deadlocked(c, c.nodes[x].currentTerm)
    ensures CanLead(p, c)
  {
    WhyNotDeadlocked(c, x, y);
    if k: nat :| k < |c.rounds| && !RoundFails(c, k) {
      if c.rounds[k].node == x {
        LevelRoundWins(p, c, x, y, k);
      } else {
        LevelRoundWins(p, c, y, x, k);
      }
    } else if !CannotAsk(c, x) {
      LevelFollowerWins(p, c, x, y);
    } else {
      LevelFollowerWins(p, c, y, x);
    }
  }

  lemma AheadPairWins(p: Policy, c: Cluster, x: NodeId, y: NodeId)
    requires Lively(c) && Pair(c, x, y) && !HasLeader(c) && c.nodes[y].currentTerm < c.nodes[x].currentTerm
    ensures CanLead(p, c)
  {
    assert NodeLively(c, x) && c.nodes[x].role != Leader;
    var k: nat :| Campaigning(c, x, k);
    ReachesSelf(p, c);
    AheadWins(p, c, c, x, y, k);
  }

  lemma LivelyPairLeads(p: Policy, c: Cluster, a: NodeId, b: NodeId)
    requires Lively(c) && VoteInv(p, c) && Pair(c, a, b) && c.transfers == [] && !Deadlocked(c, c.nodes[a].currentTerm)
    ensures CanLead(p, c)
  {
    if HasLeader(c) {
      ReachesSelf(p, c);
    } else if c.nodes[a].currentTerm > c.nodes[b].currentTerm {
      AheadPairWins(p, c, a, b);
    } else if c.nodes[a].currentTerm < c.nodes[b].currentTerm {
      AheadPairWins(p, c, b, a);
    } else {
      VotingRoundsMatch(p, c);
      MessagesAreHarmless(p, c, c.nodes[a].currentTerm);
      LevelPairWins(p, c, a, b);
    }
  }

  /** In every run of a cluster of two, as long as no snapshot is being sent or has been: there is a leader, or can
      still be one, exactly when the cluster is not deadlocked. */
  lemma LeaderPossibleExactly(p: Policy, a: NodeId, b: NodeId, steps: seq<Step>)
    requires a != b && NoSnapshots(Run(p, Init({a, b}), steps))
    ensures var c := Run(p, Init({a, b}), steps); CanLead(p, c) <==> !exists term :: Deadlocked(c, term)
  {
    var c := Run(p, Init({a, b}), steps);
    if term :| Deadlocked(c, term) {
      DeadlockedCannotLead(p, c, term);
    } else {
      RunIsLively(p, a, b, steps);
      TwoNodeRun(p, a, b, steps);
      LivelyPairLeads(p, c, a, b);
    }
  }

  lemma DeadlockedCannotLead(p: Policy, c: Cluster, term: int)
    requires Deadlocked(c, term)
    ensures !CanLead(p, c)
  {
    if CanLead(p, c) {
      var d :| Reaches(p, c, d) && HasLeader(d);
      var steps :| Run(p, c, steps) == d;
      DeadlockIsForever(p, c, term, steps);
    }
  }

  // ---------------------------------------------------------------- a deadlock with a follower

  /** A candidate, and a follower of the same term that still holds the vote it once gave itself and whose log is
      behind: neither can vote for the other. */
  lemma StaleVoteDeadlocks(p: Policy, c: Cluster, x: NodeId, y: NodeId)
    requires Lively(c) && VoteInv(p, c) && c.transfers == [] && StaleVote(c, x, y)
    ensures Deadlocked(c, c.nodes[x].currentTerm)
  {
    NoLeaderInPair(c, x, y);
    MessagesAreHarmless(p, c, c.nodes[x].currentTerm);
    StaleVoteOutOfReach(p, c, x, y);
    NothingInReachDeadlocks(c, x, y);
  }

  ghost predicate StaleVote(c: Cluster, x: NodeId, y: NodeId) {
    && Pair(c, x, y) && c.nodes[x].role == Candidate && c.nodes[y].role == Follower
    && c.nodes[x].currentTerm == c.nodes[y].currentTerm
    && c.nodes[y].votedFor == Some(y) && !IsUpToDate(BallotOf(c.nodes[y], 0, true), c.nodes[x].store)
    && forall k :: 0 <= k < |c.rounds| && c.rounds[k].term == c.nodes[x].currentTerm ==> c.rounds[k].formal
  }

  lemma NoLeaderInPair(c: Cluster, x: NodeId, y: NodeId)
    requires StaleVote(c, x, y)
    ensures !HasLeader(c) && forall id :: id in c.nodes ==> c.nodes[id].currentTerm == c.nodes[x].currentTerm
  {
  }

  lemma StaleVoteOutOfReach(p: Policy, c: Cluster, x: NodeId, y: NodeId)
    requires Lively(c) && VoteInv(p, c) && StaleVote(c, x, y)
    ensures forall k :: 0 <= k < |c.rounds| && StillAsking(c, c.rounds[k]) ==> Reach(c, k) == {}
  {
    forall k | 0 <= k < |c.rounds| && StillAsking(c, c.rounds[k]) ensures Reach(c, k) == {} {
      NobodyInReach(p, c, x, y, k);
    }
  }

  lemma NothingInReachDeadlocks(c: Cluster, x: NodeId, y: NodeId)
    requires StaleVote(c, x, y) && c.transfers == []
    requires forall k :: 0 <= k < |c.rounds| && StillAsking(c, c.rounds[k]) ==> Reach(c, k) == {}
    requires forall m :: m in c.net ==> MessageHarmless(c, c.nodes[x].currentTerm, m)
    ensures Deadlocked(c, c.nodes[x].currentTerm)
  {
    assert Willing(c, BallotOf(c.nodes[y], c.nodes[y].currentTerm + 1, true)) == {};
    forall k | 0 <= k < |c.rounds| ensures RoundFails(c, k) {
    }
  }

  lemma NobodyInReach(p: Policy, c: Cluster, x: NodeId, y: NodeId, k: nat)
    requires Lively(c) && VoteInv(p, c) && StaleVote(c, x, y)
    requires k < |c.rounds| && StillAsking(c, c.rounds[k])
    ensures Reach(c, k) == {}
  {
    assert RoundOk(c, c.rounds[k]);
    KeptVote(p, c, x, y);
    forall m | m in c.net ensures SaysNothingFor(c, m, x, y, k) {
      assert MessageOk(c, m);
    }
    NobodyWilling(c, x, y, k);
    assert c.rounds[k].granted == {};
  }

  /** No yes to the round, and only ballots of the candidate's for the term. */
  ghost predicate SaysNothingFor(c: Cluster, m: Message, x: NodeId, y: NodeId, k: nat)
    requires y in c.nodes
  {
    && (m.Yes? ==> m.call != k)
    && (m.Ballot? && m.call == k ==> m.req.origin == x && m.req.term == c.nodes[y].currentTerm && !m.req.gossip)
  }

  lemma KeptVote(p: Policy, c: Cluster, x: NodeId, y: NodeId)
    requires Lively(c) && VoteInv(p, c) && StaleVote(c, x, y)
    ensures Vote(y, c.nodes[x].currentTerm, x) !in c.votes
  {
    var vote := Vote(y, c.nodes[x].currentTerm, x);
    NothingForgotten(p, c, vote.term);
    assert vote in c.votes ==> VoteOk(p, c, vote);
  }

  lemma NobodyWilling(c: Cluster, x: NodeId, y: NodeId, k: nat)
    requires Pair(c, x, y) && c.nodes[y].votedFor == Some(y)
    requires forall m :: m in c.net ==> SaysNothingFor(c, m, x, y, k)
    ensures forall w :: w in c.nodes ==> !MayStillGrant(c, k, w)
  {
    forall w | w in c.nodes ensures !MayStillGrant(c, k, w) {
      forall m | m in c.net && m.Ballot? && m.call == k ensures w !in Willing(c, m.req) {
        assert SaysNothingFor(c, m, x, y, k);
      }
    }
  }

  /** While nobody has won the term, no vote of it is forgotten. */
  lemma NothingForgotten(p: Policy, c: Cluster, term: int)
    requires Lively(c) && VoteInv(p, c)
    requires forall id :: id in c.nodes ==> c.nodes[id].role != Leader && c.nodes[id].currentTerm == term
    ensures Remembered(p, c, term)
  {
    forall m | m in c.net && m.Append? ensures m.append.term != term {
      assert MessageOk(c, m);
      assert WinLively(c, Win(m.append.origin, m.append.term));
    }
  }

  /** The ballot of a candidate in a higher term, delivered to a node whose log is ahead. */
  lemma RefusesButFollows(p: Policy, s: Cluster, c: Cluster, x: NodeId, y: NodeId, k: nat) returns (d: Cluster)
    requires Reaches(p, s, c) && Pair(c, x, y) && Campaigning(c, x, k)
    requires c.nodes[y].currentTerm < c.nodes[x].currentTerm
    requires !IsUpToDate(BallotOf(c.nodes[x], 0, true), c.nodes[y].store)
    ensures Reaches(p, s, d) && Pair(d, x, y) && d.rounds == c.rounds
    ensures c.net <= d.net && (NoSnapshots(c) ==> NoSnapshots(d))
    ensures d.nodes[x] == c.nodes[x]
    ensures d.nodes[y] == NodeState(y, Follower, c.nodes[x].currentTerm, None, None, c.nodes[y].store)
  {
    var deliver := DeliverBallot(k, BallotOf(c.nodes[x], c.nodes[x].currentTerm, false), y, true);
    ReachesStep(p, s, c, deliver);
    d := Apply(p, c, deliver);
    NodesStay(p, c, deliver);
  }

  /** And to one whose log is not. */
  lemma VotesAndFollows(p: Policy, s: Cluster, c: Cluster, x: NodeId, y: NodeId, k: nat) returns (d: Cluster)
    requires Reaches(p, s, c) && Pair(c, x, y) && Campaigning(c, x, k) && c.rounds[k].granted == {}
    requires c.nodes[y].currentTerm < c.nodes[x].currentTerm
    requires IsUpToDate(BallotOf(c.nodes[x], 0, true), c.nodes[y].store)
    ensures Reaches(p, s, d) && Pair(d, x, y) && d.rounds == c.rounds[k := c.rounds[k].(granted := {y})]
    ensures c.net <= d.net && (NoSnapshots(c) ==> NoSnapshots(d))
    ensures d.nodes[x] == c.nodes[x]
    ensures d.nodes[y] == NodeState(y, Follower, c.nodes[x].currentTerm, Some(x), None, c.nodes[y].store)
  {
    d := GatherOne(p, s, c, k, BallotOf(c.nodes[x], c.nodes[x].currentTerm, false), y);
    assert {} + {y} == {y};
  }

  lemma TakesOffice(p: Policy, s: Cluster, c: Cluster, x: NodeId, y: NodeId, k: nat) returns (d: Cluster)
    requires Reaches(p, s, c) && Pair(c, x, y) && Campaigning(c, x, k) && c.rounds[k].granted == {y}
    ensures Reaches(p, s, d) && Pair(d, x, y) && d.rounds == c.rounds && c.net <= d.net
    ensures NoSnapshots(c) ==> NoSnapshots(d)
    ensures d.nodes[x] == TakeOffice(c.nodes[x]) && d.nodes[y] == c.nodes[y]
  {
    ReachesStep(p, s, c, FinishVote(k));
    d := Apply(p, c, FinishVote(k));
    NodesStay(p, c, FinishVote(k));
  }

  /** `x`, with a pre-vote in hand, campaigns and gets the vote of `y`. */
  lemma GetsVote(p: Policy, s: Cluster, c: Cluster, x: NodeId, y: NodeId, k: nat) returns (d: Cluster)
    requires Reaches(p, s, c) && Pair(c, x, y) && k < |c.rounds| && !c.rounds[k].formal && HasMajority(c, c.rounds[k])
    requires c.rounds[k].node == x && c.rounds[k].term == c.nodes[x].currentTerm && c.nodes[x].role != Leader
    requires c.nodes[y].currentTerm == c.nodes[x].currentTerm
    requires c.nodes[x].store == EMPTY_STORE && c.nodes[y].store == EMPTY_STORE
    ensures Reaches(p, s, d) && Pair(d, x, y) && c.net <= d.net && (NoSnapshots(c) ==> NoSnapshots(d))
    ensures d.nodes[x] == Campaign(c.nodes[x]) && Campaigning(d, x, |c.rounds|)
    ensures d.nodes[y] == NodeState(y, Follower, c.nodes[x].currentTerm + 1, Some(x), None, EMPTY_STORE)
    ensures d.rounds == c.rounds + [Round(x, true, c.nodes[x].currentTerm + 1, {y}, k)]
  {
    var c1 := Campaigns(p, s, c, x, y, k);
    d := VotesAndFollows(p, s, c1, x, y, |c.rounds|);
  }

  /** It is elected, while `y` collects the pre-vote with which it can overtake `x` later. */
  lemma Overtakes(p: Policy, s: Cluster, c: Cluster, x: NodeId, y: NodeId, k: nat) returns (d: Cluster)
    requires Reaches(p, s, c) && Pair(c, x, y) && k < |c.rounds| && !c.rounds[k].formal && HasMajority(c, c.rounds[k])
    requires c.rounds[k].node == x && c.rounds[k].term == c.nodes[x].currentTerm && c.nodes[x].role != Leader
    requires c.nodes[y].currentTerm == c.nodes[x].currentTerm
    requires c.nodes[x].store == EMPTY_STORE && c.nodes[y].store == EMPTY_STORE
    ensures Reaches(p, s, d) && Pair(d, x, y) && c.net <= d.net && (NoSnapshots(c) ==> NoSnapshots(d))
    ensures d.nodes[x] == TakeOffice(Campaign(c.nodes[x]))
    ensures d.nodes[y] == NodeState(y, Follower, c.nodes[x].currentTerm + 1, Some(x), None, EMPTY_STORE)
    ensures d.rounds == c.rounds + [Round(x, true, c.nodes[x].currentTerm + 1, {y}, k)]
                        + [Round(y, false, c.nodes[x].currentTerm + 1, {x}, |c.rounds| + 1)]
  {
    var c1 := GetsVote(p, s, c, x, y, k);
    var c2 := AskOther(p, s, c1, y, x);
    assert Campaigning(c2, x, |c.rounds|);
    d := TakesOffice(p, s, c2, x, y, |c.rounds|);
  }

  /** `y` leads in term 1 and has sent a heartbeat, and `x` has a pre-vote for term 2. */
  ghost predicate FirstLeader(c: Cluster, x: NodeId, y: NodeId, heartbeat: AppendRequest) {
    && Pair(c, x, y) && NoSnapshots(c) && Append(heartbeat) in c.net && heartbeat.origin == y && heartbeat.term == 1
    && c.nodes[x] == NodeState(x, Follower, 1, Some(y), None, EMPTY_STORE)
    && c.nodes[y].currentTerm == 1 && c.nodes[y].store == EMPTY_STORE
    && c.rounds == [Round(y, false, 0, {x}, 0), Round(y, true, 1, {x}, 0), Round(x, false, 1, {y}, 2)]
  }

  lemma FreshPreVote(p: Policy, x: NodeId, y: NodeId) returns (c: Cluster)
    requires x != y
    ensures Reaches(p, Init({x, y}), c) && Pair(c, x, y) && NoSnapshots(c)
    ensures c.nodes[x] == NewNode(x) && c.nodes[y] == NewNode(y) && c.rounds == [Round(y, false, 0, {x}, 0)]
  {
    var s := Init({x, y});
    ReachesSelf(p, s);
    assert |s.nodes.Keys| == |s.nodes|;
    c := AskOther(p, s, s, y, x);
    assert c.nodes == s.nodes;
  }

  lemma FirstLeaderReachable(p: Policy, x: NodeId, y: NodeId) returns (c: Cluster, heartbeat: AppendRequest)
    requires x != y
    ensures Reaches(p, Init({x, y}), c) && FirstLeader(c, x, y, heartbeat)
  {
    var s := Init({x, y});
    var c1 := FreshPreVote(p, x, y);
    var c2 := Overtakes(p, s, c1, y, x, 0);
    heartbeat := AppendRequest(y, 1, 0, 0, 0, [], []);
    c := SendsHeartbeat(p, s, c2, heartbeat);
  }

  lemma SendsHeartbeat(p: Policy, s: Cluster, c: Cluster, req: AppendRequest) returns (d: Cluster)
    requires Reaches(p, s, c) && MaySend(c, req)
    ensures Reaches(p, s, d) && d == c.(net := c.net + {Append(req)}) && (NoSnapshots(c) ==> NoSnapshots(d))
  {
    ReachesStep(p, s, c, SendAppend(req));
    d := Apply(p, c, SendAppend(req));
  }

  /** `x` leads in term 2 and has appended an entry, and `y` has a pre-vote for term 3. */
  ghost predicate SecondLeader(c: Cluster, x: NodeId, y: NodeId, heartbeat: AppendRequest) {
    && Pair(c, x, y) && NoSnapshots(c) && Append(heartbeat) in c.net && heartbeat.origin == y && heartbeat.term == 1
    && c.nodes[x].currentTerm == 2 && c.nodes[x].store.prevTerm == 2
    && c.nodes[y] == NodeState(y, Follower, 2, Some(x), None, EMPTY_STORE)
    && |c.rounds| == 5 && c.rounds[4] == Round(y, false, 2, {x}, 4) && forall k :: 0 <= k < 5 ==> c.rounds[k].term <= 2
  }

  lemma SecondLeaderReachable(p: Policy, x: NodeId, y: NodeId) returns (c: Cluster, heartbeat: AppendRequest)
    requires x != y
    ensures Reaches(p, Init({x, y}), c) && SecondLeader(c, x, y, heartbeat)
  {
    var s := Init({x, y});
    var c1: Cluster;
    c1, heartbeat := FirstLeaderReachable(p, x, y);
    var c2 := Overtakes(p, s, c1, x, y, 2);
    ReachesStep(p, s, c2, AppendLocal(x, [], [0]));
    c := Apply(p, c2, AppendLocal(x, [], [0]));
    NodesStay(p, c2, AppendLocal(x, [], [0]));
  }

  /** `y` becomes a candidate of term 3 and keeps its vote; `x`, whose log is ahead of it, campaigns in term 4. */
  lemma StaleVoteReachable(p: Policy, x: NodeId, y: NodeId) returns (c: Cluster)
    requires x != y
    ensures Reaches(p, Init({x, y}), c) && StaleVote(c, x, y) && NoSnapshots(c)
  {
    var s := Init({x, y});
    var c1, heartbeat := SecondLeaderReachable(p, x, y);
    var c2 := Campaigns(p, s, c1, y, x, 4);
    var c3 := RefusesButFollows(p, s, c2, y, x, 5);
    var c4 := AskOther(p, s, c3, x, y);
    var c5 := Campaigns(p, s, c4, x, y, 6);
    c := HearsOfTerm(p, s, c5, x, y, heartbeat);
  }

  /** An old append that reaches a node in a later term is turned down, and the answer deposes the candidate it came
      from, which keeps its vote. */
  lemma HearsOfTerm(p: Policy, s: Cluster, c: Cluster, x: NodeId, y: NodeId, early: AppendRequest) returns (d: Cluster)
    requires Reaches(p, s, c) && Pair(c, x, y) && Append(early) in c.net && early.origin == y
    requires early.term < c.nodes[x].currentTerm && c.nodes[y].currentTerm < c.nodes[x].currentTerm
    ensures Reaches(p, s, d) && Pair(d, x, y) && d.rounds == c.rounds && (NoSnapshots(c) ==> NoSnapshots(d))
    ensures d.nodes[x] == c.nodes[x]
    ensures d.nodes[y] == BecomeFollower(c.nodes[y]).(currentTerm := c.nodes[x].currentTerm)
  {
    ReachesStep(p, s, c, DeliverAppend(early, x));
    var c1 := Apply(p, c, DeliverAppend(early, x));
    NodesStay(p, c, DeliverAppend(early, x));
    ReachesStep(p, s, c1, ReadTermReply(y, c.nodes[x].currentTerm));
    d := Apply(p, c1, ReadTermReply(y, c.nodes[x].currentTerm));
    NodesStay(p, c1, ReadTermReply(y, c.nodes[x].currentTerm));
  }

  /** A cluster of two can get there from its initial state: one of the two is no candidate, and yet there will never
      be a leader again. */
  lemma FollowerDeadlockReachable(p: Policy, x: NodeId, y: NodeId) returns (steps: seq<Step>, term: int)
    requires x != y
    ensures var c := Run(p, Init({x, y}), steps);
            && Deadlocked(c, term)
            && x in c.nodes && c.nodes[x].role == Candidate && y in c.nodes && c.nodes[y].role == Follower
  {
    var c := StaleVoteReachable(p, x, y);
    steps :| Run(p, Init({x, y}), steps) == c;
    term := c.nodes[x].currentTerm;
    TwoNodeRun(p, x, y, steps);
    RunIsLively(p, x, y, steps);
    StaleVoteDeadlocks(p, c, x, y);
  }
}
