/** The cluster as a step system: any number of nodes running the handlers of RaftNode, and a network in which every
    message ever sent can be delivered at any time, any number of times, or never. Membership is fixed, no node
    restarts, and every log starts empty. Elections follow section 5.2 of the extended Raft paper, preceded by the
    pre-vote of section 9.6 of Ongaro's thesis. */
module Election {
  import opened Codec
  import opened LogStore
  import opened RaftNode
  import opened Wrappers

  /** One round of sendVoteRequests: who asks, in which phase, and who has said yes. Replies count only while the node
      is still in `term` and in the phase's role; a formal round remembers the pre-vote round that led to it. */
  datatype Round = Round(node: NodeId, formal: bool, term: int, granted: set<NodeId>, preVote: nat)

  /** Requests and replies of one call share its number. A TermReply is what an answer to AppendEntries or
      InstallSnapshot tells its caller about terms. */
  datatype Message =
    | Ballot(call: nat, req: VoteRequest)
    | Yes(call: nat, voter: NodeId)
    | Append(append: AppendRequest)
    | Chunk(chunk: SnapshotRequest)
    | TermReply(term: int)

  /** A snapshot being streamed: its boundary was read while the node was leader. */
  datatype Transfer = Transfer(node: NodeId, lastIndex: int, lastTerm: int)

  datatype Vote = Vote(voter: NodeId, term: int, candidate: NodeId)

  datatype Win = Win(node: NodeId, term: int)

  /** `votes` and `wins` record what has happened; no step reads them. */
  datatype Cluster = Cluster(nodes: map<NodeId, NodeState>, rounds: seq<Round>, net: set<Message>,
                             transfers: seq<Transfer>, captures: map<NodeId, Capture>,
                             votes: set<Vote>, wins: set<Win>)

  datatype Step =
    | StartElection(node: NodeId)
    | DeliverBallot(call: nat, req: VoteRequest, to: NodeId, timedOut: bool)
    | CountYes(call: nat, voter: NodeId)
    | FinishPreVote(call: nat)
    | FinishVote(call: nat)
    | SendAppend(append: AppendRequest)
    | DeliverAppend(append: AppendRequest, to: NodeId)
    | BeginTransfer(node: NodeId)
    | SendChunk(transfer: nat, offset: nat, data: seq<byte>, done: bool)
    | DeliverChunk(chunk: SnapshotRequest, to: NodeId, begun: bool)
    | EndTransfer(transfer: nat)
    | ReadTermReply(node: NodeId, term: int)
    | AppendLocal(node: NodeId, schedulerId: seq<byte>, payload: seq<byte>)
    | BeginCompaction(node: NodeId)
    | FinishCompaction(node: NodeId)

  function NewNode(id: NodeId): NodeState {
    NodeState(id, Follower, 0, None, None, EMPTY_STORE)
  }

  function Init(ids: set<NodeId>): Cluster {
    Cluster(map id | id in ids :: NewNode(id), [], {}, [], map[], {}, {})
  }

  function Majority(c: Cluster): nat {
    |c.nodes| / 2 + 1
  }

  predicate HasMajority(c: Cluster, r: Round) {
    1 + |r.granted| >= Majority(c)
  }

  function Put(c: Cluster, id: NodeId, n: NodeState): Cluster {
    c.(nodes := c.nodes[id := n])
  }

  function Campaigned(c: Cluster, preVote: nat): Cluster
    requires preVote < |c.rounds| && c.rounds[preVote].node in c.nodes
  {
    var id := c.rounds[preVote].node;
    var n := Campaign(c.nodes[id]);
    Put(c, id, n).(rounds := c.rounds + [Round(id, true, n.currentTerm, {}, preVote)],
                   net := c.net + {Ballot(|c.rounds|, BallotOf(n, n.currentTerm, false))},
                   votes := c.votes + {Vote(id, n.currentTerm, id)})
  }

  function Elected(c: Cluster, id: NodeId): Cluster
    requires id in c.nodes
  {
    Put(c, id, TakeOffice(c.nodes[id])).(wins := c.wins + {Win(id, c.nodes[id].currentTerm)})
  }

  function Asked(c: Cluster, id: NodeId, sent: set<Message>): Cluster
    requires id in c.nodes
  {
    var n := c.nodes[id].(leaderId := None);
    Put(c, id, n).(rounds := c.rounds + [Round(id, false, n.currentTerm, {}, |c.rounds|)], net := c.net + sent)
  }

  /** A node without peers has its majority already, and is elected at once. */
  function OnStartElection(c: Cluster, id: NodeId): Cluster
    requires id in c.nodes
  {
    var n := c.nodes[id];
    if n.role == Leader then c
    else if Majority(c) == 1 then Elected(Campaigned(Asked(c, id, {}), |c.rounds|), id)
    else Asked(c, id, {Ballot(|c.rounds|, BallotOf(n, n.currentTerm + 1, true))})
  }

  function OnDeliverBallot(c: Cluster, call: nat, req: VoteRequest, to: NodeId, timedOut: bool): Cluster
    requires to in c.nodes
  {
    var (n, yes) := OnRequestVote(c.nodes[to], req, timedOut);
    if !yes then Put(c, to, n)
    else Put(c, to, n).(net := c.net + {Yes(call, to)},
                        votes := if req.gossip then c.votes else c.votes + {Vote(to, req.term, req.origin)})
  }

  predicate StillAsking(c: Cluster, r: Round) {
    && r.node in c.nodes && c.nodes[r.node].currentTerm == r.term
    && c.nodes[r.node].role == if r.formal then Candidate else Follower
  }

  predicate Held(s: Store, term: int) {
    term == 0 || term == s.discTerm || exists k :: 0 <= k < |s.entries| && s.entries[k].term == term
  }

  /** What a leader may send: its own term, and a previous-entry term that its log holds. */
  predicate MaySend(c: Cluster, req: AppendRequest) {
    && req.origin in c.nodes && c.nodes[req.origin].role == Leader && req.term == c.nodes[req.origin].currentTerm
    && Held(c.nodes[req.origin].store, req.prevLogTerm)
  }

  /** A step that is not enabled changes nothing. */
  function Apply(p: Policy, c: Cluster, step: Step): Cluster {
    match step
    case StartElection(id) => if id in c.nodes then OnStartElection(c, id) else c
    case DeliverBallot(call, req, to, timedOut) =>
      if Ballot(call, req) in c.net && to in c.nodes && to != req.origin
      then OnDeliverBallot(c, call, req, to, timedOut) else c
    case CountYes(call, voter) =>
      if Yes(call, voter) in c.net && call < |c.rounds| && StillAsking(c, c.rounds[call])
      then c.(rounds := c.rounds[call := c.rounds[call].(granted := c.rounds[call].granted + {voter})]) else c
    case FinishPreVote(call) =>
      if call < |c.rounds| && !c.rounds[call].formal && HasMajority(c, c.rounds[call])
         && c.rounds[call].node in c.nodes && c.nodes[c.rounds[call].node].role != Leader
         && c.nodes[c.rounds[call].node].currentTerm == c.rounds[call].term
      then Campaigned(c, call) else c
    case FinishVote(call) =>
      if call < |c.rounds| && c.rounds[call].formal && HasMajority(c, c.rounds[call]) && StillAsking(c, c.rounds[call])
      then Elected(c, c.rounds[call].node) else c
    case SendAppend(req) => if MaySend(c, req) then c.(net := c.net + {Append(req)}) else c
    case DeliverAppend(req, to) =>
      if Append(req) in c.net && to in c.nodes && to != req.origin then
        var (n, resp) := OnAppendEntries(p, c.nodes[to], req);
        Put(c, to, n).(net := c.net + {TermReply(resp.prevLogTerm)})
      else c
    case BeginTransfer(id) =>
      if id in c.nodes && c.nodes[id].role == Leader
      then c.(transfers := c.transfers + [Transfer(id, c.nodes[id].store.discIndex, c.nodes[id].store.discTerm)]) else c
    case SendChunk(k, offset, data, done) =>
      if k < |c.transfers| && c.transfers[k].node in c.nodes then
        var t := c.transfers[k];
        c.(net := c.net + {Chunk(SnapshotRequest(t.node, c.nodes[t.node].currentTerm, t.lastIndex, t.lastTerm,
                                                 offset, data, done))})
      else c
    case DeliverChunk(req, to, begun) =>
      if Chunk(req) in c.net && to in c.nodes && to != req.leaderId then
        var (n, term) := OnInstallSnapshot(c.nodes[to], req.(done := req.done && begun));
        Put(c, to, n).(net := c.net + {TermReply(term)})
      else c
    case EndTransfer(k) =>
      if k < |c.transfers| && c.transfers[k].node in c.nodes
      then c.(transfers := c.transfers[..k] + c.transfers[k + 1..]) else c
    case ReadTermReply(id, term) =>
      if id in c.nodes && TermReply(term) in c.net then Put(c, id, CheckStepDown(c.nodes[id], term).0) else c
    case AppendLocal(id, schedulerId, payload) =>
      if id in c.nodes && c.nodes[id].role == Leader then
        var n := c.nodes[id];
        Put(c, id, n.(store := AppendEntry(n.store, LocalEntry(n, schedulerId, payload))))
      else c
    case BeginCompaction(id) =>
      if id in c.nodes && id !in c.captures && CaptureOf(c.nodes[id].store).Some?
      then c.(captures := c.captures[id := CaptureOf(c.nodes[id].store).value]) else c
    case FinishCompaction(id) =>
      if id in c.nodes && id in c.captures then
        var n, cut := c.nodes[id], c.captures[id];
        Put(c, id, n.(store := Rotate(n.store, cut.cutoff, cut.term))).(captures := c.captures - {id})
      else c
  }

  function Run(p: Policy, c: Cluster, steps: seq<Step>): Cluster {
    if steps == [] then c else Apply(p, Run(p, c, steps[..|steps| - 1]), steps[|steps| - 1])
  }

  /** A quorum is more than half of the nodes, the one that asks included. */
  lemma QuorumIsMoreThanHalf(c: Cluster, r: Round)
    ensures HasMajority(c, r) <==> 2 * (1 + |r.granted|) > |c.nodes|
  {
  }

  /** A node on its own is its leader, in the next term, as soon as its timer runs out. */
  lemma LoneNodeElectsItself(p: Policy, c: Cluster, id: NodeId)
    requires id in c.nodes && |c.nodes| == 1 && c.nodes[id].role != Leader && c.nodes[id].id == id
    ensures var d := Apply(p, c, StartElection(id));
            && d.nodes[id].role == Leader && d.nodes[id].currentTerm == c.nodes[id].currentTerm + 1
            && d.nodes[id].leaderId == Some(id) && Win(id, c.nodes[id].currentTerm + 1) in d.wins
  {
  }

  /** A chunk says the boundary that was read when its transfer began, and the term that its sender is in by then. */
  lemma ChunkSaysExactly(p: Policy, c: Cluster, id: NodeId, d: Cluster, offset: nat, data: seq<byte>, done: bool)
    requires id in c.nodes && c.nodes[id].role == Leader && id in d.nodes
    requires d.transfers == Apply(p, c, BeginTransfer(id)).transfers
    ensures var s := c.nodes[id].store;
            Apply(p, d, SendChunk(|c.transfers|, offset, data, done)).net
            == d.net + {Chunk(SnapshotRequest(id, d.nodes[id].currentTerm, s.discIndex, s.discTerm, offset,
                                              data, done))}
  {
  }

  // ---------------------------------------------------------------- election safety

  ghost predicate OneLeaderPerTerm(c: Cluster) {
    forall a, b :: a in c.wins && b in c.wins && a.term == b.term ==> a.node == b.node
  }

  /** The terms whose votes nobody forgets: all of them, or those in which no leader has spoken yet. */
  ghost predicate Remembered(p: Policy, c: Cluster, term: int) {
    p.AsCommented? || forall m :: m in c.net && m.Append? ==> m.append.term != term
  }

  ghost predicate RoundOk(c: Cluster, r: Round) {
    && r.node in c.nodes && r.granted <= c.nodes.Keys && r.node !in r.granted
    && (r.formal ==> Vote(r.node, r.term, r.node) in c.votes)
    && (r.formal ==> forall v :: v in r.granted ==> Vote(v, r.term, r.node) in c.votes)
  }

  ghost predicate MessageOk(c: Cluster, m: Message) {
    match m
    case Ballot(call, req) =>
      && call < |c.rounds| && req.origin == c.rounds[call].node && (req.gossip <==> !c.rounds[call].formal)
      && (c.rounds[call].formal ==> req.term == c.rounds[call].term)
    case Yes(call, voter) =>
      && call < |c.rounds| && voter in c.nodes && voter != c.rounds[call].node
      && (c.rounds[call].formal ==> Vote(voter, c.rounds[call].term, c.rounds[call].node) in c.votes)
    case Append(req) => Win(req.origin, req.term) in c.wins
    case _ => true
  }

  ghost predicate VoteOk(p: Policy, c: Cluster, v: Vote) {
    && v.voter in c.nodes && v.term <= c.nodes[v.voter].currentTerm
    && (v.term == c.nodes[v.voter].currentTerm && Remembered(p, c, v.term) ==>
          c.nodes[v.voter].votedFor == Some(v.candidate))
  }

  ghost predicate WonBy(c: Cluster, w: Win, k: nat) {
    && k < |c.rounds| && c.rounds[k].formal && c.rounds[k].node == w.node && c.rounds[k].term == w.term
    && HasMajority(c, c.rounds[k])
  }

  ghost predicate NodesOk(c: Cluster) {
    forall id :: id in c.nodes ==>
      c.nodes[id].id == id && (c.nodes[id].role == Leader ==> Win(id, c.nodes[id].currentTerm) in c.wins)
  }

  ghost predicate VotesUnique(c: Cluster) {
    forall v, w :: v in c.votes && w in c.votes && v.voter == w.voter && v.term == w.term ==> v == w
  }

  ghost predicate VoteInv(p: Policy, c: Cluster) {
    && NodesOk(c) && VotesUnique(c)
    && (forall k :: 0 <= k < |c.rounds| ==> RoundOk(c, c.rounds[k]))
    && (forall m :: m in c.net ==> MessageOk(c, m))
    && (forall v :: v in c.votes ==> VoteOk(p, c, v))
    && (forall w :: w in c.wins ==> exists k: nat :: WonBy(c, w, k))
  }

  lemma MajoritiesMeet(a: set<NodeId>, b: set<NodeId>, all: set<NodeId>) returns (v: NodeId)
    requires a <= all && b <= all && |a| + |b| > |all|
    ensures v in a && v in b
  {
    if a * b == {} {
      assert |a + b| == |a| + |b|;
      SubsetSize(a + b, all);
    }
    v :| v in a * b;
  }

  lemma SubsetSize(a: set<NodeId>, b: set<NodeId>)
    requires a <= b
    ensures |a| <= |b|
  {
    assert b == a + (b - a);
  }

  /** Two majorities of one term share a voter, and no voter has voted for two candidates in one term. */
  lemma InvMeansOneLeader(p: Policy, c: Cluster)
    requires VoteInv(p, c)
    ensures OneLeaderPerTerm(c)
  {
    forall a, b | a in c.wins && b in c.wins && a.term == b.term ensures a.node == b.node {
      var i: nat :| WonBy(c, a, i);
      var j: nat :| WonBy(c, b, j);
      var v := WinnersShareAVoter(c, c.rounds[i], c.rounds[j]);
      assert Vote(v, a.term, a.node) in c.votes && Vote(v, b.term, b.node) in c.votes;
    }
  }

  lemma WinnersShareAVoter(c: Cluster, r: Round, s: Round) returns (v: NodeId)
    requires RoundOk(c, r) && RoundOk(c, s) && r.formal && s.formal && HasMajority(c, r) && HasMajority(c, s)
    ensures Vote(v, r.term, r.node) in c.votes && Vote(v, s.term, s.node) in c.votes
  {
    assert |c.nodes.Keys| == |c.nodes|;
    v := MajoritiesMeet(r.granted + {r.node}, s.granted + {s.node}, c.nodes.Keys);
  }

  /** A step that only changes one node and sends neither ballots nor votes. */
  ghost predicate Quiet(p: Policy, c: Cluster, d: Cluster, id: NodeId) {
    && id in c.nodes && d.nodes.Keys == c.nodes.Keys && d.nodes == c.nodes[id := d.nodes[id]]
    && d.rounds == c.rounds && d.votes == c.votes && d.wins == c.wins && c.net <= d.net
    && (forall m :: m in d.net && m !in c.net ==> !m.Ballot? && !m.Yes? && MessageOk(c, m))
    && var n, n' := c.nodes[id], d.nodes[id];
       && n'.id == n.id && n.currentTerm <= n'.currentTerm
       && (n'.role == Leader ==> n.role == Leader && n'.currentTerm == n.currentTerm)
       && (n'.currentTerm == n.currentTerm ==> n'.votedFor == n.votedFor || !Remembered(p, c, n.currentTerm))
  }

  lemma QuietKeepsVoteInv(p: Policy, c: Cluster, d: Cluster, id: NodeId)
    requires VoteInv(p, c) && Quiet(p, c, d, id)
    ensures VoteInv(p, d)
  {
    forall w | w in d.wins ensures exists k: nat :: WonBy(d, w, k) {
      var k: nat :| WonBy(c, w, k);
      assert WonBy(d, w, k);
    }
    forall t | Remembered(p, d, t) ensures Remembered(p, c, t) {
    }
  }

  lemma CampaignKeepsVoteInv(p: Policy, c: Cluster, preVote: nat)
    requires VoteInv(p, c) && preVote < |c.rounds| && c.rounds[preVote].node in c.nodes
    ensures VoteInv(p, Campaigned(c, preVote))
  {
    var d := Campaigned(c, preVote);
    assert forall k :: 0 <= k < |c.rounds| ==> d.rounds[k] == c.rounds[k];
    forall w | w in d.wins ensures exists k: nat :: WonBy(d, w, k) {
      var k: nat :| WonBy(c, w, k);
      assert WonBy(d, w, k);
    }
    forall t | Remembered(p, d, t) ensures Remembered(p, c, t) {
    }
    forall v | v in c.votes ensures VoteOk(p, d, v) {
      assert VoteOk(p, c, v);
    }
    forall m | m in d.net ensures MessageOk(d, m) {
      if m in c.net {
        assert MessageOk(c, m);
      }
    }
    forall v, w | v in d.votes && w in d.votes && v.voter == w.voter && v.term == w.term ensures v == w {
      assert v in c.votes ==> VoteOk(p, c, v);
      assert w in c.votes ==> VoteOk(p, c, w);
    }
  }

  lemma ElectKeepsVoteInv(p: Policy, c: Cluster, id: NodeId, k: nat)
    requires VoteInv(p, c) && id in c.nodes && WonBy(c, Win(id, c.nodes[id].currentTerm), k)
    ensures VoteInv(p, Elected(c, id))
  {
    var d := Elected(c, id);
    forall w | w in d.wins ensures exists k: nat :: WonBy(d, w, k) {
      if w in c.wins {
        var j: nat :| WonBy(c, w, j);
        assert WonBy(d, w, j);
      } else {
        assert WonBy(d, w, k);
      }
    }
    forall t | Remembered(p, d, t) ensures Remembered(p, c, t) {
    }
    forall m | m in d.net ensures MessageOk(d, m) {
      assert MessageOk(c, m);
    }
    forall v | v in d.votes ensures VoteOk(p, d, v) {
      assert VoteOk(p, c, v);
    }
  }

  /** A voter of a two-node cluster that has forgotten its vote of a term cannot have voted for anyone but the asker:
      the other candidate would be itself, and then one of the two has already been elected by the other. */
  lemma ForgottenVoteWasTheSame(p: Policy, c: Cluster, call: nat, to: NodeId, v: Vote)
    requires VoteInv(p, c) && |c.nodes| <= 2 && to in c.nodes
    requires call < |c.rounds| && c.rounds[call].formal && c.rounds[call].node != to
    requires v in c.votes && v.voter == to && v.term == c.rounds[call].term && !Remembered(p, c, v.term)
    ensures v.candidate == c.rounds[call].node
  {
    var asker := c.rounds[call].node;
    assert RoundOk(c, c.rounds[call]);
    assert |c.nodes.Keys| == |c.nodes|;
    var m :| m in c.net && m.Append? && m.append.term == v.term;
    assert MessageOk(c, m);
    TwoNodes(c.nodes.Keys, to, asker);
    var other := SupporterOf(p, c, Win(m.append.origin, v.term));
    assert Vote(asker, v.term, asker) in c.votes;
  }

  /** Whoever wins a term against someone has a vote besides its own. */
  lemma SupporterOf(p: Policy, c: Cluster, w: Win) returns (other: NodeId)
    requires VoteInv(p, c) && w in c.wins && |c.nodes| >= 2
    ensures other != w.node && other in c.nodes && w.node in c.nodes
    ensures Vote(other, w.term, w.node) in c.votes && Vote(w.node, w.term, w.node) in c.votes
  {
    var k: nat :| WonBy(c, w, k);
    assert RoundOk(c, c.rounds[k]);
    other :| other in c.rounds[k].granted;
  }

  lemma TwoNodes(ids: set<NodeId>, a: NodeId, b: NodeId)
    requires |ids| <= 2 && a in ids && b in ids && a != b
    ensures |ids| == 2 && forall id :: id in ids ==> id == a || id == b
  {
    assert {a, b} <= ids;
    SubsetSize({a, b}, ids);
    assert ids - {a, b} == {} by {
      assert |ids - {a, b}| == |ids| - |{a, b}|;
    }
  }

  predicate Safe(p: Policy, nodeCount: nat) {
    p.AsCommented? || nodeCount <= 2
  }

  /** What the voter of a formal ballot has voted in its term before can only have been for the same candidate. */
  lemma OlderVoteWasTheSame(p: Policy, c: Cluster, call: nat, req: VoteRequest, to: NodeId, timedOut: bool, v: Vote)
    requires VoteInv(p, c) && Safe(p, |c.nodes|)
    requires Ballot(call, req) in c.net && to in c.nodes && to != req.origin
    requires OnRequestVote(c.nodes[to], req, timedOut).1 && !req.gossip
    requires v in c.votes && v.voter == to && v.term == req.term
    ensures v == Vote(to, req.term, req.origin)
  {
    assert MessageOk(c, Ballot(call, req));
    assert VoteOk(p, c, v);
    if !Remembered(p, c, v.term) {
      ForgottenVoteWasTheSame(p, c, call, to, v);
    }
  }

  lemma BallotKeepsVoteInv(p: Policy, c: Cluster, call: nat, req: VoteRequest, to: NodeId, timedOut: bool)
    requires VoteInv(p, c) && Safe(p, |c.nodes|)
    requires Ballot(call, req) in c.net && to in c.nodes && to != req.origin
    ensures VoteInv(p, OnDeliverBallot(c, call, req, to, timedOut))
  {
    var d := OnDeliverBallot(c, call, req, to, timedOut);
    assert MessageOk(c, Ballot(call, req));
    forall w | w in d.wins ensures exists k: nat :: WonBy(d, w, k) {
      var k: nat :| WonBy(c, w, k);
      assert WonBy(d, w, k);
    }
    forall t | Remembered(p, d, t) ensures Remembered(p, c, t) {
    }
    if OnRequestVote(c.nodes[to], req, timedOut).1 && !req.gossip {
      forall v | v in c.votes && v.voter == to && v.term == req.term ensures v == Vote(to, req.term, req.origin) {
        OlderVoteWasTheSame(p, c, call, req, to, timedOut, v);
      }
    }
    forall v | v in c.votes ensures VoteOk(p, d, v) {
      assert VoteOk(p, c, v);
    }
    forall m | m in c.net ensures MessageOk(d, m) {
      assert MessageOk(c, m);
    }
  }

  lemma CountKeepsVoteInv(p: Policy, c: Cluster, call: nat, voter: NodeId)
    requires VoteInv(p, c) && Yes(call, voter) in c.net && call < |c.rounds|
    ensures VoteInv(p, c.(rounds := c.rounds[call := c.rounds[call].(granted := c.rounds[call].granted + {voter})]))
  {
    var r := c.rounds[call].(granted := c.rounds[call].granted + {voter});
    var d := c.(rounds := c.rounds[call := r]);
    assert RoundOk(c, c.rounds[call]) && MessageOk(c, Yes(call, voter));
    SubsetSize(c.rounds[call].granted, r.granted);
    forall w | w in d.wins ensures exists k: nat :: WonBy(d, w, k) {
      var k: nat :| WonBy(c, w, k);
      assert WonBy(d, w, k);
    }
    forall m | m in d.net ensures MessageOk(d, m) {
      assert MessageOk(c, m);
    }
    forall k | 0 <= k < |d.rounds| ensures RoundOk(d, d.rounds[k]) {
      assert RoundOk(c, c.rounds[k]);
    }
    forall v | v in d.votes ensures VoteOk(p, d, v) {
      assert VoteOk(p, c, v);
    }
  }

  /** Asking for pre-votes commits to nothing. */
  lemma AskingKeepsVoteInv(p: Policy, c: Cluster, id: NodeId, sent: set<Message>)
    requires VoteInv(p, c) && id in c.nodes && c.nodes[id].role != Leader
    requires forall m :: m in sent ==> m.Ballot? && m.call == |c.rounds| && m.req.origin == id && m.req.gossip
    ensures VoteInv(p, Asked(c, id, sent))
  {
    var d := Asked(c, id, sent);
    assert forall k :: 0 <= k < |c.rounds| ==> d.rounds[k] == c.rounds[k];
    forall w | w in d.wins ensures exists k: nat :: WonBy(d, w, k) {
      var k: nat :| WonBy(c, w, k);
      assert WonBy(d, w, k);
    }
    forall t | Remembered(p, d, t) ensures Remembered(p, c, t) {
    }
    forall m | m in d.net ensures MessageOk(d, m) {
      if m in c.net {
        assert MessageOk(c, m);
      }
    }
    forall v | v in d.votes ensures VoteOk(p, d, v) {
      assert VoteOk(p, c, v);
    }
  }

  lemma LoneNodeKeepsVoteInv(p: Policy, c: Cluster, id: NodeId)
    requires VoteInv(p, c) && id in c.nodes && c.nodes[id].role != Leader && Majority(c) == 1
    ensures VoteInv(p, OnStartElection(c, id))
  {
    var k := |c.rounds|;
    var c1 := Asked(c, id, {});
    AskingKeepsVoteInv(p, c, id, {});
    CampaignKeepsVoteInv(p, c1, k);
    var c2 := Campaigned(c1, k);
    assert |c2.nodes.Keys| == |c.nodes.Keys|;
    assert WonBy(c2, Win(id, c2.nodes[id].currentTerm), k + 1);
    ElectKeepsVoteInv(p, c2, id, k + 1);
  }

  lemma StartKeepsVoteInv(p: Policy, c: Cluster, id: NodeId)
    requires VoteInv(p, c) && id in c.nodes
    ensures VoteInv(p, OnStartElection(c, id))
  {
    if c.nodes[id].role == Leader {
      assert OnStartElection(c, id) == c;
    } else if Majority(c) == 1 {
      LoneNodeKeepsVoteInv(p, c, id);
    } else {
      var sent := {Ballot(|c.rounds|, BallotOf(c.nodes[id], c.nodes[id].currentTerm + 1, true))};
      assert OnStartElection(c, id) == Asked(c, id, sent);
      assert c.nodes[id].id == id;
      AskingKeepsVoteInv(p, c, id, sent);
    }
  }

  lemma NodesStay(p: Policy, c: Cluster, step: Step)
    ensures Apply(p, c, step).nodes.Keys == c.nodes.Keys && |Apply(p, c, step).nodes| == |c.nodes|
  {
    var d := Apply(p, c, step);
    if OutsideElections(step) {
      assert d.nodes.Keys == c.nodes.Keys;
    } else {
      assert d.nodes.Keys == c.nodes.Keys;
    }
    assert |d.nodes.Keys| == |d.nodes| && |c.nodes.Keys| == |c.nodes|;
  }

  lemma StepKeepsVoteInv(p: Policy, c: Cluster, step: Step)
    requires VoteInv(p, c) && Safe(p, |c.nodes|) && Apply(p, c, step) != c
    ensures VoteInv(p, Apply(p, c, step))
  {
    if OutsideElections(step) {
      QuietStep(p, c, step);
      QuietKeepsVoteInv(p, c, Apply(p, c, step), ActingNode(c, step));
    } else {
      ElectionStepKeepsVoteInv(p, c, step);
    }
  }

  lemma ElectionStepKeepsVoteInv(p: Policy, c: Cluster, step: Step)
    requires VoteInv(p, c) && Safe(p, |c.nodes|) && Apply(p, c, step) != c && !OutsideElections(step)
    ensures VoteInv(p, Apply(p, c, step))
  {
    match step {
      case StartElection(id) => StartKeepsVoteInv(p, c, id);
      case DeliverBallot(call, req, to, timedOut) => BallotKeepsVoteInv(p, c, call, req, to, timedOut);
      case CountYes(call, voter) => CountKeepsVoteInv(p, c, call, voter);
      case FinishPreVote(call) => CampaignKeepsVoteInv(p, c, call);
      case FinishVote(call) =>
        assert WonBy(c, Win(c.rounds[call].node, c.rounds[call].term), call);
        ElectKeepsVoteInv(p, c, c.rounds[call].node, call);
    }
  }

  function ActingNode(c: Cluster, step: Step): NodeId {
    match step
    case SendAppend(req) => req.origin
    case DeliverAppend(_, to) => to
    case SendChunk(k, _, _, _) => if k < |c.transfers| then c.transfers[k].node else ""
    case DeliverChunk(_, to, _) => to
    case EndTransfer(k) => if k < |c.transfers| then c.transfers[k].node else ""
    case ReadTermReply(id, _) => id
    case BeginTransfer(id) => id
    case AppendLocal(id, _, _) => id
    case BeginCompaction(id) => id
    case FinishCompaction(id) => id
    case _ => ""
  }

  predicate OutsideElections(step: Step) {
    !step.StartElection? && !step.DeliverBallot? && !step.CountYes? && !step.FinishPreVote? && !step.FinishVote?
  }

  lemma QuietStep(p: Policy, c: Cluster, step: Step)
    requires NodesOk(c) && OutsideElections(step) && Apply(p, c, step) != c
    ensures Quiet(p, c, Apply(p, c, step), ActingNode(c, step))
  {
    match step {
      case DeliverAppend(_, _) => QuietAppend(p, c, step);
      case DeliverChunk(_, _, _) => QuietChunk(p, c, step);
      case SendAppend(_) => QuietSend(p, c, step);
      case SendChunk(_, _, _, _) => QuietSend(p, c, step);
      case _ => QuietLocal(p, c, step);
    }
  }

  lemma QuietAppend(p: Policy, c: Cluster, step: Step)
    requires NodesOk(c) && step.DeliverAppend? && Apply(p, c, step) != c
    ensures Quiet(p, c, Apply(p, c, step), step.to)
  {
    assert step.append.term == c.nodes[step.to].currentTerm && p.AsCoded? ==>
             !Remembered(p, c, c.nodes[step.to].currentTerm);
  }

  lemma QuietChunk(p: Policy, c: Cluster, step: Step)
    requires NodesOk(c) && step.DeliverChunk? && Apply(p, c, step) != c
    ensures Quiet(p, c, Apply(p, c, step), step.to)
  {
  }

  lemma QuietSend(p: Policy, c: Cluster, step: Step)
    requires NodesOk(c) && (step.SendAppend? || step.SendChunk?) && Apply(p, c, step) != c
    ensures Quiet(p, c, Apply(p, c, step), ActingNode(c, step))
  {
  }

  lemma QuietLocal(p: Policy, c: Cluster, step: Step)
    requires NodesOk(c) && Apply(p, c, step) != c
    requires step.BeginTransfer? || step.EndTransfer? || step.ReadTermReply? || step.AppendLocal?
             || step.BeginCompaction? || step.FinishCompaction?
    ensures Quiet(p, c, Apply(p, c, step), ActingNode(c, step))
  {
  }

  lemma {:induction false} RunKeepsVoteInv(p: Policy, ids: set<NodeId>, steps: seq<Step>)
    requires Safe(p, |ids|)
    ensures VoteInv(p, Run(p, Init(ids), steps)) && Run(p, Init(ids), steps).nodes.Keys == ids
  {
    if steps != [] {
      RunKeepsVoteInv(p, ids, steps[..|steps| - 1]);
      var c := Run(p, Init(ids), steps[..|steps| - 1]);
      assert |c.nodes| == |c.nodes.Keys|;
      NodesStay(p, c, steps[|steps| - 1]);
      if Apply(p, c, steps[|steps| - 1]) != c {
        StepKeepsVoteInv(p, c, steps[|steps| - 1]);
      }
    }
  }

  // ---------------------------------------------------------------- two leaders

  lemma {:induction false} RunConcat(p: Policy, c: Cluster, s: seq<Step>, t: seq<Step>)
    ensures Run(p, c, s + t) == Run(p, Run(p, c, s), t)
    decreases |t|
  {
    if t == [] {
      assert s + t == s;
    } else {
      RunConcat(p, c, s, t[..|t| - 1]);
      assert (s + t)[..|s + t| - 1] == s + t[..|t| - 1];
    }
  }

  ghost predicate Reaches(p: Policy, c: Cluster, d: Cluster) {
    exists steps :: Run(p, c, steps) == d
  }

  lemma ReachesStep(p: Policy, c: Cluster, d: Cluster, step: Step)
    requires Reaches(p, c, d)
    ensures Reaches(p, c, Apply(p, d, step))
  {
    var s :| Run(p, c, s) == d;
    assert (s + [step])[..|s|] == s;
    assert Run(p, c, s + [step]) == Apply(p, d, step);
  }

  lemma ReachesSelf(p: Policy, c: Cluster)
    ensures Reaches(p, c, c)
  {
    assert Run(p, c, []) == c;
  }

  /** `d` differs from `c` in the votes collected for one round, and in what its voters became. */
  ghost predicate Gathered(c: Cluster, d: Cluster, call: nat, req: VoteRequest, voters: set<NodeId>) {
    && call < |c.rounds| && |d.rounds| == |c.rounds| && c.net <= d.net && d.wins == c.wins && voters <= c.nodes.Keys
    && d.nodes.Keys == c.nodes.Keys && |d.nodes| == |c.nodes|
    && d.nodes == (map id | id in c.nodes ::
                     if id in voters then OnRequestVote(c.nodes[id], req, true).0 else c.nodes[id])
    && d.rounds == c.rounds[call := c.rounds[call].(granted := c.rounds[call].granted + voters)]
    && d.transfers == c.transfers && (forall m :: m in d.net && m !in c.net ==> m.Yes?)
  }

  lemma GatherOne(p: Policy, s: Cluster, c: Cluster, call: nat, req: VoteRequest, v: NodeId) returns (d: Cluster)
    requires Reaches(p, s, c) && call < |c.rounds| && StillAsking(c, c.rounds[call])
    requires Ballot(call, req) in c.net && req.origin == c.rounds[call].node && req.origin != v
    requires v in c.nodes && OnRequestVote(c.nodes[v], req, true).1
    ensures Reaches(p, s, d) && Gathered(c, d, call, req, {v})
  {
    var c1 := Apply(p, c, DeliverBallot(call, req, v, true));
    ReachesStep(p, s, c, DeliverBallot(call, req, v, true));
    d := Apply(p, c1, CountYes(call, v));
    ReachesStep(p, s, c1, CountYes(call, v));
    assert |d.nodes.Keys| == |c.nodes.Keys|;
  }

  lemma GatheredTwice(c: Cluster, d: Cluster, e: Cluster, call: nat, req: VoteRequest, v: NodeId, voters: set<NodeId>)
    requires v in voters && Gathered(c, d, call, req, {v}) && Gathered(d, e, call, req, voters - {v})
    ensures Gathered(c, e, call, req, voters)
  {
    assert (c.rounds[call].granted + {v}) + (voters - {v}) == c.rounds[call].granted + voters;
  }

  lemma {:induction false} Gather(p: Policy, s: Cluster, c: Cluster, call: nat, req: VoteRequest, voters: set<NodeId>)
    returns (d: Cluster)
    requires Reaches(p, s, c) && call < |c.rounds| && StillAsking(c, c.rounds[call])
    requires Ballot(call, req) in c.net && req.origin == c.rounds[call].node && req.origin !in voters
    requires voters <= c.nodes.Keys && forall v :: v in voters ==> OnRequestVote(c.nodes[v], req, true).1
    ensures Reaches(p, s, d) && Gathered(c, d, call, req, voters)
    decreases voters
  {
    if voters == {} {
      d := c;
      assert c.rounds[call].granted + {} == c.rounds[call].granted;
    } else {
      var v :| v in voters;
      var c1 := GatherOne(p, s, c, call, req, v);
      d := Gather(p, s, c1, call, req, voters - {v});
      GatheredTwice(c, c1, d, call, req, v, voters);
    }
  }

  lemma {:induction false} Spread(p: Policy, s: Cluster, c: Cluster, req: AppendRequest, followers: set<NodeId>)
    returns (d: Cluster)
    requires Reaches(p, s, c) && Append(req) in c.net && followers <= c.nodes.Keys && req.origin !in followers
    ensures Reaches(p, s, d) && d.rounds == c.rounds && c.net <= d.net && d.wins == c.wins
    ensures d.transfers == c.transfers
    ensures forall m :: m in d.net && m !in c.net ==>
              m.TermReply? && exists v :: v in followers && m.term == OnAppendEntries(p, c.nodes[v], req).1.prevLogTerm
    ensures d.nodes == (map id | id in c.nodes ::
                          if id in followers then OnAppendEntries(p, c.nodes[id], req).0 else c.nodes[id])
    decreases followers
  {
    if followers == {} {
      d := c;
    } else {
      var v :| v in followers;
      var c1 := Apply(p, c, DeliverAppend(req, v));
      ReachesStep(p, s, c, DeliverAppend(req, v));
      d := Spread(p, s, c1, req, followers - {v});
    }
  }

  function Candidacy(id: NodeId): NodeState {
    Campaign(NewNode(id))
  }

  /** Two rivals in term 1, both past their pre-votes, and everybody else still fresh. */
  ghost predicate TwoCandidates(c: Cluster, a: NodeId, b: NodeId, rest: set<NodeId>) {
    && a != b && a !in rest && b !in rest && |rest| >= 1 && c.nodes.Keys == rest + {a, b} && |c.nodes| == |rest| + 2
    && c.nodes[a] == Candidacy(a) && c.nodes[b] == Candidacy(b)
    && (forall v :: v in rest ==> c.nodes[v] == NewNode(v))
    && |c.rounds| == 4 && c.rounds[2] == Round(a, true, 1, {}, 0) && c.rounds[3] == Round(b, true, 1, {}, 1)
    && Ballot(2, BallotOf(Candidacy(a), 1, false)) in c.net && Ballot(3, BallotOf(Candidacy(b), 1, false)) in c.net
  }

  /** Both rivals have collected everybody else's pre-vote for term 1; no node has changed. */
  ghost predicate PreVotesWon(c: Cluster, a: NodeId, b: NodeId, rest: set<NodeId>) {
    && c.nodes == Init(rest + {a, b}).nodes && |c.nodes| == |rest| + 2
    && c.rounds == [Round(a, false, 0, rest, 0), Round(b, false, 0, rest, 1)]
  }

  lemma BothAsk(p: Policy, s: Cluster, a: NodeId, b: NodeId) returns (c: Cluster)
    requires a in s.nodes && b in s.nodes && s.nodes[a] == NewNode(a) && s.nodes[b] == NewNode(b)
    requires s.rounds == [] && Majority(s) > 1
    ensures Reaches(p, s, c) && c.nodes == s.nodes
    ensures c.rounds == [Round(a, false, 0, {}, 0), Round(b, false, 0, {}, 1)]
    ensures Ballot(0, BallotOf(NewNode(a), 1, true)) in c.net && Ballot(1, BallotOf(NewNode(b), 1, true)) in c.net
  {
    ReachesSelf(p, s);
    ReachesStep(p, s, s, StartElection(a));
    var c1 := Apply(p, s, StartElection(a));
    assert c1.nodes == s.nodes;
    ReachesStep(p, s, c1, StartElection(b));
    c := Apply(p, c1, StartElection(b));
    assert c.nodes == s.nodes;
  }

  lemma PreVotesReachable(p: Policy, a: NodeId, b: NodeId, rest: set<NodeId>) returns (c: Cluster)
    requires a != b && a !in rest && b !in rest && |rest| >= 1
    ensures Reaches(p, Init(rest + {a, b}), c) && PreVotesWon(c, a, b, rest)
  {
    var s := Init(rest + {a, b});
    assert s.nodes.Keys == rest + {a, b} && |s.nodes.Keys| == |s.nodes|;
    var c2 := BothAsk(p, s, a, b);
    var c3 := GatherPreVotes(p, s, c2, 0, a, rest);
    c := GatherPreVotes(p, s, c3, 1, b, rest);
    assert {} + rest == rest;
  }

  /** Fresh nodes grant a fresh node's pre-vote, which changes none of them. */
  lemma GatherPreVotes(p: Policy, s: Cluster, c: Cluster, call: nat, id: NodeId, rest: set<NodeId>) returns (d: Cluster)
    requires Reaches(p, s, c) && call < |c.rounds| && c.rounds[call] == Round(id, false, 0, {}, call)
    requires id in c.nodes && id !in rest && rest <= c.nodes.Keys
    requires forall v :: v in c.nodes ==> c.nodes[v] == NewNode(v)
    requires Ballot(call, BallotOf(NewNode(id), 1, true)) in c.net
    ensures Reaches(p, s, d) && d.nodes == c.nodes && c.net <= d.net && d.transfers == c.transfers
    ensures d.rounds == c.rounds[call := Round(id, false, 0, {} + rest, call)]
    ensures forall m :: m in d.net && m !in c.net ==> m.Yes?
  {
    d := Gather(p, s, c, call, BallotOf(NewNode(id), 1, true), rest);
    assert d.nodes == c.nodes;
  }

  lemma RivalsReachable(p: Policy, a: NodeId, b: NodeId, rest: set<NodeId>) returns (c: Cluster)
    requires a != b && a !in rest && b !in rest && |rest| >= 1
    ensures Reaches(p, Init(rest + {a, b}), c) && TwoCandidates(c, a, b, rest)
  {
    var s := Init(rest + {a, b});
    var c1 := PreVotesReachable(p, a, b, rest);
    ReachesStep(p, s, c1, FinishPreVote(0));
    var c2 := Apply(p, c1, FinishPreVote(0));
    assert c2 == Campaigned(c1, 0);
    NodesStay(p, c1, FinishPreVote(0));
    assert c2.rounds == c1.rounds + [Round(a, true, 1, {}, 0)] && c2.nodes == c1.nodes[a := Candidacy(a)];
    ReachesStep(p, s, c2, FinishPreVote(1));
    c := Apply(p, c2, FinishPreVote(1));
    assert c == Campaigned(c2, 1);
    NodesStay(p, c2, FinishPreVote(1));
  }

  /** The first rival has won term 1 with everybody's vote, and the second is still asking. */
  ghost predicate FirstElected(c: Cluster, a: NodeId, b: NodeId, rest: set<NodeId>) {
    && a != b && a !in rest && b !in rest && |rest| >= 1 && c.nodes.Keys == rest + {a, b} && |c.nodes| == |rest| + 2
    && c.nodes[a] == TakeOffice(Candidacy(a)) && c.nodes[b] == Candidacy(b) && Win(a, 1) in c.wins
    && (forall v :: v in rest ==> c.nodes[v] == NewNode(v).(currentTerm := 1, votedFor := Some(a)))
    && |c.rounds| == 4 && c.rounds[3] == Round(b, true, 1, {}, 1)
    && Ballot(3, BallotOf(Candidacy(b), 1, false)) in c.net
  }

  /** A candidate that can collect a majority of votes is elected. */
  lemma CollectAndWin(p: Policy, s: Cluster, c: Cluster, call: nat, req: VoteRequest, voters: set<NodeId>)
    returns (d: Cluster)
    requires Reaches(p, s, c) && call < |c.rounds| && c.rounds[call].formal && StillAsking(c, c.rounds[call])
    requires Ballot(call, req) in c.net && req.origin == c.rounds[call].node && req.origin !in voters
    requires voters <= c.nodes.Keys && forall v :: v in voters ==> OnRequestVote(c.nodes[v], req, true).1
    requires c.rounds[call].granted == {} && 1 + |voters| >= Majority(c)
    ensures Reaches(p, s, d) && c.net <= d.net && d.wins == c.wins + {Win(req.origin, c.rounds[call].term)}
    ensures d.nodes.Keys == c.nodes.Keys && |d.nodes| == |c.nodes| && d.transfers == c.transfers
    ensures forall m :: m in d.net && m !in c.net ==> m.Yes?
    ensures d.nodes[req.origin] == TakeOffice(c.nodes[req.origin])
    ensures forall id :: id in c.nodes && id != req.origin ==>
              d.nodes[id] == if id in voters then OnRequestVote(c.nodes[id], req, true).0 else c.nodes[id]
    ensures |d.rounds| == |c.rounds| && forall k :: 0 <= k < |c.rounds| && k != call ==> d.rounds[k] == c.rounds[k]
    ensures d.rounds[call] == c.rounds[call].(granted := voters)
  {
    assert {} + voters == voters;
    var c1 := Gather(p, s, c, call, req, voters);
    ReachesStep(p, s, c1, FinishVote(call));
    d := Apply(p, c1, FinishVote(call));
    assert d == Elected(c1, req.origin);
    NodesStay(p, c1, FinishVote(call));
  }

  lemma FirstRivalWins(p: Policy, s: Cluster, c: Cluster, a: NodeId, b: NodeId, rest: set<NodeId>) returns (d: Cluster)
    requires Reaches(p, s, c) && TwoCandidates(c, a, b, rest)
    ensures Reaches(p, s, d) && FirstElected(d, a, b, rest)
  {
    d := CollectAndWin(p, s, c, 2, BallotOf(Candidacy(a), 1, false), rest);
  }

  /** As coded, the first leader's heartbeat wipes the votes of its supporters. */
  lemma HeartbeatWipesVotes(s: Cluster, c: Cluster, a: NodeId, b: NodeId, rest: set<NodeId>) returns (d: Cluster)
    requires Reaches(AsCoded, s, c) && FirstElected(c, a, b, rest)
    ensures Reaches(AsCoded, s, d) && d.nodes.Keys == c.nodes.Keys && d.nodes[b] == c.nodes[b]
    ensures d.rounds == c.rounds && c.net <= d.net && c.wins == d.wins
    ensures forall v :: v in rest ==> d.nodes[v] == c.nodes[v].(leaderId := Some(a), votedFor := None)
  {
    var heartbeat := AppendRequest(a, 1, 0, 0, 0, [], []);
    ReachesStep(AsCoded, s, c, SendAppend(heartbeat));
    d := Spread(AsCoded, s, Apply(AsCoded, c, SendAppend(heartbeat)), heartbeat, rest);
  }

  lemma RivalAlsoWins(s: Cluster, c: Cluster, a: NodeId, b: NodeId, rest: set<NodeId>) returns (d: Cluster)
    requires Reaches(AsCoded, s, c) && FirstElected(c, a, b, rest)
    ensures Reaches(AsCoded, s, d) && Win(a, 1) in d.wins && Win(b, 1) in d.wins
  {
    var c1 := HeartbeatWipesVotes(s, c, a, b, rest);
    assert |c1.nodes.Keys| == |c1.nodes| && |c.nodes.Keys| == |c.nodes|;
    d := CollectAndWin(AsCoded, s, c1, 3, BallotOf(Candidacy(b), 1, false), rest);
  }

  ghost predicate SafeInEveryRun(p: Policy, ids: set<NodeId>) {
    forall steps :: OneLeaderPerTerm(Run(p, Init(ids), steps))
  }

  /** In every run, at most one node ever becomes leader in a term, if the vote is cleared on higher terms only. As
      coded, that holds for clusters of one or two nodes, and fails for every larger one. */
  lemma ElectionSafetyExact(p: Policy, ids: set<NodeId>)
    ensures SafeInEveryRun(p, ids) <==> p.AsCommented? || |ids| <= 2
  {
    if Safe(p, |ids|) {
      forall steps ensures OneLeaderPerTerm(Run(p, Init(ids), steps)) {
        RunKeepsVoteInv(p, ids, steps);
        InvMeansOneLeader(p, Run(p, Init(ids), steps));
      }
    } else {
      var a :| a in ids;
      assert |ids - {a}| >= 2;
      var b :| b in ids - {a};
      var rest := ids - {a, b};
      assert rest + {a, b} == ids;
      assert |ids| == |rest| + |{a, b}|;
      var c := RivalsReachable(p, a, b, rest);
      c := FirstRivalWins(p, Init(ids), c, a, b, rest);
      var d := RivalAlsoWins(Init(ids), c, a, b, rest);
      var steps :| Run(p, Init(ids), steps) == d;
      assert !OneLeaderPerTerm(Run(p, Init(ids), steps));
    }
  }
}
