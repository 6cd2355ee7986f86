/** Where terms come from, and how they order the logs, over every run of the cluster. */
module Terms {
  import opened Codec
  import opened LogStore
  import opened Election
  import opened RaftNode
  import opened Wrappers

  // ---------------------------------------------------------------- provenance

  /** Round `k` is a campaign for `term` by a node that had a pre-vote majority while it was in the term before. */
  ghost predicate EnteredBy(c: Cluster, term: int, k: nat) {
    && k < |c.rounds| && c.rounds[k].formal && c.rounds[k].term == term && c.rounds[k].preVote < k
    && var pre := c.rounds[c.rounds[k].preVote];
       !pre.formal && pre.node == c.rounds[k].node && pre.term == term - 1 && HasMajority(c, pre)
  }

  /** The initial term, or one that somebody entered after winning a pre-vote. */
  ghost predicate Entered(c: Cluster, term: int) {
    term == 0 || exists k: nat :: EnteredBy(c, term, k)
  }

  ghost function EnteredTerms(c: Cluster): iset<int> {
    iset t | Entered(c, t)
  }

  /** All terms of the log are in `terms`, none exceeds `bound`, and they never fall from one entry to the next. */
  ghost predicate LogOk(s: Store, terms: iset<int>, bound: int) {
    && (forall k :: 0 <= k < |s.entries| ==> s.entries[k].term in terms && s.entries[k].term <= bound)
    && (forall j, k :: 0 <= j < k < |s.entries| ==> s.entries[j].term <= s.entries[k].term)
    && s.prevTerm in terms && s.prevTerm <= bound && s.discTerm in terms && s.discTerm <= bound
  }

  ghost predicate MessageTermsOk(terms: iset<int>, m: Message) {
    match m
    case Ballot(_, req) => req.logTerm in terms && (!req.gossip ==> req.term in terms)
    case Yes(_, _) => true
    case Append(req) => req.term in terms && req.prevLogTerm in terms
    case Chunk(req) => req.term in terms && req.lastTerm in terms && req.lastTerm <= req.term
    case TermReply(term) => term in terms
  }

  ghost predicate NodeTermsOk(n: NodeState, terms: iset<int>) {
    n.currentTerm in terms && LogOk(n.store, terms, n.currentTerm)
  }

  ghost predicate CaptureTermsOk(c: Cluster, terms: iset<int>, id: NodeId)
    requires id in c.captures
  {
    id in c.nodes && c.captures[id].term in terms && c.captures[id].term <= c.nodes[id].currentTerm
  }

  ghost predicate TransferTermsOk(c: Cluster, terms: iset<int>, t: Transfer) {
    t.node in c.nodes && t.lastTerm in terms && t.lastTerm <= c.nodes[t.node].currentTerm
  }

  /** Everything in the cluster that carries a term carries one of these, and every log is ordered by them. */
  ghost predicate TermsWithin(c: Cluster, terms: iset<int>) {
    && (forall id :: id in c.nodes ==> NodeTermsOk(c.nodes[id], terms))
    && (forall m :: m in c.net ==> MessageTermsOk(terms, m))
    && (forall id :: id in c.captures ==> CaptureTermsOk(c, terms, id))
    && (forall t :: t in c.transfers ==> TransferTermsOk(c, terms, t))
  }

  ghost predicate TermInv(c: Cluster) {
    TermsWithin(c, EnteredTerms(c))
  }

  // ---------------------------------------------------------------- the log operations

  lemma LogOkWeakens(s: Store, terms: iset<int>, more: iset<int>, bound: int, higher: int)
    requires LogOk(s, terms, bound) && terms <= more && bound <= higher
    ensures LogOk(s, more, higher)
  {
  }

  lemma AppendKeepsLogOk(s: Store, e: LogEntry, terms: iset<int>, bound: int)
    requires LogOk(s, terms, bound) && e.term == bound && bound in terms
    ensures LogOk(AppendEntry(s, e), terms, bound)
  {
  }

  lemma TruncateKeepsLogOk(s: Store, from: int, terms: iset<int>, bound: int)
    requires LogOk(s, terms, bound)
    ensures LogOk(Truncate(s, from), terms, bound)
  {
  }

  lemma {:induction false} AfterKeepsOrder(es: seq<LogEntry>, n: nat, index: int)
    requires n <= |es|
    requires forall j, k :: 0 <= j < k < n ==> es[j].term <= es[k].term
    ensures forall k :: 0 <= k < |AfterFirst(es, n, index)| ==>
              AfterFirst(es, n, index)[k] in es && AfterFirst(es, n, index)[k].term <= es[n - 1].term
    ensures forall j, k :: 0 <= j < k < |AfterFirst(es, n, index)| ==>
              AfterFirst(es, n, index)[j].term <= AfterFirst(es, n, index)[k].term
  {
    if n > 0 {
      AfterKeepsOrder(es, n - 1, index);
      assert n > 1 ==> es[n - 2].term <= es[n - 1].term;
    }
  }

  lemma RotateKeepsLogOk(s: Store, cut: Capture, terms: iset<int>, bound: int)
    requires LogOk(s, terms, bound) && cut.term in terms && cut.term <= bound
    ensures LogOk(Rotate(s, cut.cutoff, cut.term), terms, bound)
  {
    AfterKeepsOrder(s.entries, |s.entries|, cut.cutoff);
  }

  lemma AcceptKeepsLogOk(s: Store, e: LogEntry, terms: iset<int>, bound: int)
    requires LogOk(s, terms, bound) && e.term == bound && bound in terms
    ensures LogOk(AcceptEntry(s, e).0, terms, bound)
    ensures s.prevTerm <= e.term && Truncate(s, e.index).prevTerm <= e.term
  {
    TruncateKeepsLogOk(s, e.index, terms, bound);
    AppendKeepsLogOk(s, e, terms, bound);
    AppendKeepsLogOk(Truncate(s, e.index), e, terms, bound);
  }

  // ---------------------------------------------------------------- one handler

  lemma AppendEntriesKeepsTerms(p: Policy, n: NodeState, req: AppendRequest, terms: iset<int>)
    requires NodeTermsOk(n, terms) && req.term in terms
    ensures NodeTermsOk(OnAppendEntries(p, n, req).0, terms) && OnAppendEntries(p, n, req).1.prevLogTerm in terms
    ensures n.currentTerm <= OnAppendEntries(p, n, req).0.currentTerm
  {
    if req.term >= n.currentTerm {
      LogOkWeakens(n.store, terms, terms, n.currentTerm, req.term);
      AcceptKeepsLogOk(n.store, EntryOf(req), terms, req.term);
      StoreAfterAppend(p, n, req);
    }
  }

  lemma StoreAfterAppend(p: Policy, n: NodeState, req: AppendRequest)
    requires req.term >= n.currentTerm
    ensures OnAppendEntries(p, n, req).0.store in {n.store, AcceptEntry(n.store, EntryOf(req)).0}
    ensures OnAppendEntries(p, n, req).0.currentTerm == req.term
    ensures OnAppendEntries(p, n, req).1.prevLogTerm in {n.currentTerm, n.store.prevTerm}
  {
  }

  lemma InstallSnapshotKeepsTerms(n: NodeState, req: SnapshotRequest, terms: iset<int>)
    requires NodeTermsOk(n, terms) && req.term in terms && req.lastTerm in terms && req.lastTerm <= req.term
    ensures NodeTermsOk(OnInstallSnapshot(n, req).0, terms) && OnInstallSnapshot(n, req).1 in terms
    ensures n.currentTerm <= OnInstallSnapshot(n, req).0.currentTerm
  {
  }

  // ---------------------------------------------------------------- one step, whatever terms count as entered

  lemma TermsWithinWeakens(c: Cluster, terms: iset<int>, more: iset<int>)
    requires TermsWithin(c, terms) && terms <= more
    ensures TermsWithin(c, more)
  {
    forall id | id in c.nodes ensures NodeTermsOk(c.nodes[id], more) {
      LogOkWeakens(c.nodes[id].store, terms, more, c.nodes[id].currentTerm, c.nodes[id].currentTerm);
    }
    forall m | m in c.net ensures MessageTermsOk(more, m) {
      assert MessageTermsOk(terms, m);
    }
    forall id | id in c.captures ensures CaptureTermsOk(c, more, id) {
      assert CaptureTermsOk(c, terms, id);
    }
    forall t | t in c.transfers ensures TransferTermsOk(c, more, t) {
      assert TransferTermsOk(c, terms, t);
    }
  }

  /** A step that leaves all nodes but one alone, and that one, with all that is new, within `terms`. */
  ghost predicate Orderly(c: Cluster, d: Cluster, id: NodeId, terms: iset<int>) {
    && id in c.nodes && id in d.nodes && d.nodes == c.nodes[id := d.nodes[id]]
    && NodeTermsOk(d.nodes[id], terms) && c.nodes[id].currentTerm <= d.nodes[id].currentTerm
    && (forall m :: m in d.net && m !in c.net ==> MessageTermsOk(terms, m))
    && (forall n :: n in d.captures ==>
          (n in c.captures && d.captures[n] == c.captures[n]) || CaptureTermsOk(d, terms, n))
    && (forall t :: t in d.transfers && t !in c.transfers ==> TransferTermsOk(d, terms, t))
  }

  lemma OrderlyKeepsTerms(c: Cluster, d: Cluster, id: NodeId, terms: iset<int>)
    requires TermsWithin(c, terms) && Orderly(c, d, id, terms)
    ensures TermsWithin(d, terms)
  {
    forall m | m in d.net ensures MessageTermsOk(terms, m) {
      assert m in c.net ==> MessageTermsOk(terms, m);
    }
    forall n | n in d.captures ensures CaptureTermsOk(d, terms, n) {
      assert n in c.captures ==> CaptureTermsOk(c, terms, n);
    }
    forall t | t in d.transfers ensures TransferTermsOk(d, terms, t) {
      assert t in c.transfers ==> TransferTermsOk(c, terms, t);
    }
  }

  lemma CampaignKeepsTerms(c: Cluster, preVote: nat, terms: iset<int>)
    requires TermsWithin(c, terms) && preVote < |c.rounds| && c.rounds[preVote].node in c.nodes
    requires c.nodes[c.rounds[preVote].node].currentTerm + 1 in terms
    ensures TermsWithin(Campaigned(c, preVote), terms)
  {
    var id := c.rounds[preVote].node;
    LogOkWeakens(c.nodes[id].store, terms, terms, c.nodes[id].currentTerm, c.nodes[id].currentTerm + 1);
    OrderlyKeepsTerms(c, Campaigned(c, preVote), id, terms);
  }

  lemma AskingKeepsTerms(c: Cluster, id: NodeId, sent: set<Message>, terms: iset<int>)
    requires TermsWithin(c, terms) && id in c.nodes
    requires forall m :: m in sent ==> m.Ballot? && m.req.gossip && m.req.logTerm == c.nodes[id].store.prevTerm
    ensures TermsWithin(Asked(c, id, sent), terms)
  {
    OrderlyKeepsTerms(c, Asked(c, id, sent), id, terms);
  }

  lemma ElectKeepsTerms(c: Cluster, id: NodeId, terms: iset<int>)
    requires TermsWithin(c, terms) && id in c.nodes
    ensures TermsWithin(Elected(c, id), terms)
  {
    OrderlyKeepsTerms(c, Elected(c, id), id, terms);
  }

  lemma StartKeepsTerms(c: Cluster, id: NodeId, terms: iset<int>)
    requires TermsWithin(c, terms) && id in c.nodes
    requires c.nodes[id].role != Leader && Majority(c) == 1 ==> c.nodes[id].currentTerm + 1 in terms
    ensures TermsWithin(OnStartElection(c, id), terms)
  {
    if c.nodes[id].role == Leader {
      assert OnStartElection(c, id) == c;
    } else if Majority(c) == 1 {
      AskingKeepsTerms(c, id, {}, terms);
      CampaignKeepsTerms(Asked(c, id, {}), |c.rounds|, terms);
      ElectKeepsTerms(Campaigned(Asked(c, id, {}), |c.rounds|), id, terms);
    } else {
      AskingKeepsTerms(c, id, {Ballot(|c.rounds|, BallotOf(c.nodes[id], c.nodes[id].currentTerm + 1, true))}, terms);
    }
  }

  lemma VotingKeepsTerms(n: NodeState, req: VoteRequest, timedOut: bool, terms: iset<int>)
    requires NodeTermsOk(n, terms) && (!req.gossip ==> req.term in terms)
    ensures NodeTermsOk(OnRequestVote(n, req, timedOut).0, terms)
    ensures n.currentTerm <= OnRequestVote(n, req, timedOut).0.currentTerm
  {
    LogOkWeakens(n.store, terms, terms, n.currentTerm, OnRequestVote(n, req, timedOut).0.currentTerm);
  }

  lemma BallotKeepsTerms(c: Cluster, call: nat, req: VoteRequest, to: NodeId, timedOut: bool, terms: iset<int>)
    requires TermsWithin(c, terms) && Ballot(call, req) in c.net && to in c.nodes
    ensures TermsWithin(OnDeliverBallot(c, call, req, to, timedOut), terms)
  {
    assert MessageTermsOk(terms, Ballot(call, req));
    VotingKeepsTerms(c.nodes[to], req, timedOut, terms);
    OrderlyKeepsTerms(c, OnDeliverBallot(c, call, req, to, timedOut), to, terms);
  }

  lemma PutKeepsTerms(c: Cluster, id: NodeId, n: NodeState, sent: set<Message>, terms: iset<int>)
    requires TermsWithin(c, terms) && id in c.nodes && NodeTermsOk(n, terms) && c.nodes[id].currentTerm <= n.currentTerm
    requires forall m :: m in sent ==> MessageTermsOk(terms, m)
    ensures TermsWithin(Put(c, id, n).(net := c.net + sent), terms)
  {
    OrderlyKeepsTerms(c, Put(c, id, n).(net := c.net + sent), id, terms);
  }

  lemma DeliveryKeepsTerms(p: Policy, c: Cluster, step: Step, terms: iset<int>)
    requires TermsWithin(c, terms) && (step.DeliverAppend? || step.DeliverChunk?) && Apply(p, c, step) != c
    ensures TermsWithin(Apply(p, c, step), terms)
  {
    match step {
      case DeliverAppend(req, to) =>
        assert MessageTermsOk(terms, Append(req)) && NodeTermsOk(c.nodes[to], terms);
        AppendEntriesKeepsTerms(p, c.nodes[to], req, terms);
        var (n, resp) := OnAppendEntries(p, c.nodes[to], req);
        PutKeepsTerms(c, to, n, {TermReply(resp.prevLogTerm)}, terms);
      case DeliverChunk(req, to, begun) =>
        assert MessageTermsOk(terms, Chunk(req)) && NodeTermsOk(c.nodes[to], terms);
        InstallSnapshotKeepsTerms(c.nodes[to], req.(done := req.done && begun), terms);
        var (n, term) := OnInstallSnapshot(c.nodes[to], req.(done := req.done && begun));
        PutKeepsTerms(c, to, n, {TermReply(term)}, terms);
    }
  }

  lemma SendingKeepsTerms(p: Policy, c: Cluster, step: Step, terms: iset<int>)
    requires TermsWithin(c, terms) && 0 in terms && (step.SendAppend? || step.SendChunk?) && Apply(p, c, step) != c
    ensures TermsWithin(Apply(p, c, step), terms)
  {
    var d, id := Apply(p, c, step), ActingNode(c, step);
    assert NodeTermsOk(c.nodes[id], terms) && d.nodes == c.nodes[id := c.nodes[id]];
    if step.SendChunk? {
      assert TransferTermsOk(c, terms, c.transfers[step.transfer]);
    }
    OrderlyKeepsTerms(c, d, id, terms);
  }

  lemma LocalKeepsTerms(p: Policy, c: Cluster, step: Step, terms: iset<int>)
    requires TermsWithin(c, terms) && (step.ReadTermReply? || step.AppendLocal?) && Apply(p, c, step) != c
    ensures TermsWithin(Apply(p, c, step), terms)
  {
    var d, id := Apply(p, c, step), ActingNode(c, step);
    var n := c.nodes[id];
    assert NodeTermsOk(n, terms);
    match step {
      case ReadTermReply(_, term) =>
        assert MessageTermsOk(terms, TermReply(term));
        LogOkWeakens(n.store, terms, terms, n.currentTerm, d.nodes[id].currentTerm);
      case AppendLocal(_, schedulerId, payload) =>
        AppendKeepsLogOk(n.store, LocalEntry(n, schedulerId, payload), terms, n.currentTerm);
    }
    OrderlyKeepsTerms(c, d, id, terms);
  }

  lemma CompactionKeepsTerms(p: Policy, c: Cluster, step: Step, terms: iset<int>)
    requires TermsWithin(c, terms) && Apply(p, c, step) != c
    requires step.BeginTransfer? || step.EndTransfer? || step.BeginCompaction? || step.FinishCompaction?
    ensures TermsWithin(Apply(p, c, step), terms)
  {
    var n := c.nodes[ActingNode(c, step)];
    assert NodeTermsOk(n, terms);
    if step.FinishCompaction? {
      assert CaptureTermsOk(c, terms, step.node);
      RotateKeepsLogOk(n.store, c.captures[step.node], terms, n.currentTerm);
    }
    OrderlyKeepsTerms(c, Apply(p, c, step), ActingNode(c, step), terms);
  }

  lemma CountKeepsTerms(p: Policy, c: Cluster, step: Step, terms: iset<int>)
    requires TermsWithin(c, terms) && step.CountYes?
    ensures TermsWithin(Apply(p, c, step), terms)
  {
    var d := Apply(p, c, step);
    forall id | id in d.captures ensures CaptureTermsOk(d, terms, id) {
      assert CaptureTermsOk(c, terms, id);
    }
    forall t | t in d.transfers ensures TransferTermsOk(d, terms, t) {
      assert TransferTermsOk(c, terms, t);
    }
  }

  /** The new term that a step brings into the cluster: only a campaign does. */
  function NewTerm(c: Cluster, step: Step): Option<int> {
    match step
    case StartElection(id) =>
      if id in c.nodes && c.nodes[id].role != Leader && Majority(c) == 1 then Some(c.nodes[id].currentTerm + 1)
      else None
    case FinishPreVote(call) => if call < |c.rounds| then Some(c.rounds[call].term + 1) else None
    case _ => None
  }

  lemma StepKeepsTerms(p: Policy, c: Cluster, step: Step, terms: iset<int>)
    requires TermsWithin(c, terms) && 0 in terms && Apply(p, c, step) != c
    requires NewTerm(c, step).Some? ==> NewTerm(c, step).value in terms
    ensures TermsWithin(Apply(p, c, step), terms)
  {
    if OutsideElections(step) {
      QuietStepKeepsTerms(p, c, step, terms);
    } else {
      ElectionStepKeepsTerms(p, c, step, terms);
    }
  }

  lemma ElectionStepKeepsTerms(p: Policy, c: Cluster, step: Step, terms: iset<int>)
    requires TermsWithin(c, terms) && Apply(p, c, step) != c && !OutsideElections(step)
    requires NewTerm(c, step).Some? ==> NewTerm(c, step).value in terms
    ensures TermsWithin(Apply(p, c, step), terms)
  {
    match step {
      case StartElection(id) => StartKeepsTerms(c, id, terms);
      case DeliverBallot(call, req, to, timedOut) => BallotKeepsTerms(c, call, req, to, timedOut, terms);
      case CountYes(_, _) => CountKeepsTerms(p, c, step, terms);
      case _ => FinishKeepsTerms(p, c, step, terms);
    }
  }

  lemma FinishKeepsTerms(p: Policy, c: Cluster, step: Step, terms: iset<int>)
    requires TermsWithin(c, terms) && Apply(p, c, step) != c && (step.FinishPreVote? || step.FinishVote?)
    requires step.FinishPreVote? ==> c.rounds[step.call].term + 1 in terms
    ensures TermsWithin(Apply(p, c, step), terms)
  {
    if step.FinishPreVote? {
      CampaignKeepsTerms(c, step.call, terms);
    } else {
      ElectKeepsTerms(c, c.rounds[step.call].node, terms);
    }
  }

  lemma QuietStepKeepsTerms(p: Policy, c: Cluster, step: Step, terms: iset<int>)
    requires TermsWithin(c, terms) && 0 in terms && Apply(p, c, step) != c && OutsideElections(step)
    ensures TermsWithin(Apply(p, c, step), terms)
  {
    match step {
      case DeliverAppend(_, _) => DeliveryKeepsTerms(p, c, step, terms);
      case DeliverChunk(_, _, _) => DeliveryKeepsTerms(p, c, step, terms);
      case SendAppend(_) => SendingKeepsTerms(p, c, step, terms);
      case SendChunk(_, _, _, _) => SendingKeepsTerms(p, c, step, terms);
      case ReadTermReply(_, _) => LocalKeepsTerms(p, c, step, terms);
      case AppendLocal(_, _, _) => LocalKeepsTerms(p, c, step, terms);
      case _ => CompactionKeepsTerms(p, c, step, terms);
    }
  }

  // ---------------------------------------------------------------- which terms do count as entered

  /** Rounds are never taken back: they keep who asked for what, and gain supporters. */
  ghost predicate RoundsGrow(c: Cluster, d: Cluster) {
    && |c.rounds| <= |d.rounds|
    && forall k :: 0 <= k < |c.rounds| ==>
         && d.rounds[k] == c.rounds[k].(granted := d.rounds[k].granted)
         && (HasMajority(c, c.rounds[k]) ==> HasMajority(d, d.rounds[k]))
  }

  lemma StepsGrowRounds(p: Policy, c: Cluster, step: Step)
    ensures RoundsGrow(c, Apply(p, c, step))
  {
    var d := Apply(p, c, step);
    NodesStay(p, c, step);
    forall k | 0 <= k < |c.rounds| ensures HasMajority(c, c.rounds[k]) ==> HasMajority(d, d.rounds[k]) {
      if step.CountYes? {
        SubsetSize(c.rounds[k].granted, d.rounds[k].granted);
      }
    }
  }

  lemma EnteredTermsGrow(c: Cluster, d: Cluster)
    requires RoundsGrow(c, d)
    ensures EnteredTerms(c) <= EnteredTerms(d)
  {
    forall t | Entered(c, t) ensures Entered(d, t) {
      if t != 0 {
        var k: nat :| EnteredBy(c, t, k);
        assert EnteredBy(d, t, k);
      }
    }
  }

  /** Only a node with a pre-vote majority for the term before brings a new term into the cluster. */
  lemma NewTermIsEntered(p: Policy, c: Cluster, step: Step)
    requires Apply(p, c, step) != c && NewTerm(c, step).Some?
    ensures Entered(Apply(p, c, step), NewTerm(c, step).value)
  {
    var d := Apply(p, c, step);
    NodesStay(p, c, step);
    var k := |d.rounds| - 1;
    assert EnteredBy(d, NewTerm(c, step).value, k) by {
      if step.StartElection? {
        var asked := Asked(c, step.node, {});
        assert d.rounds == asked.rounds + [d.rounds[k]] && asked.rounds == c.rounds + [d.rounds[k - 1]];
      }
    }
  }

  lemma StepKeepsTermInv(p: Policy, c: Cluster, step: Step)
    requires TermInv(c) && Apply(p, c, step) != c
    ensures TermInv(Apply(p, c, step))
  {
    var d := Apply(p, c, step);
    StepsGrowRounds(p, c, step);
    EnteredTermsGrow(c, d);
    TermsWithinWeakens(c, EnteredTerms(c), EnteredTerms(d));
    if NewTerm(c, step).Some? {
      NewTermIsEntered(p, c, step);
    }
    assert Entered(d, 0);
    StepKeepsTerms(p, c, step, EnteredTerms(d));
  }

  lemma {:induction false} RunKeepsTermInv(p: Policy, ids: set<NodeId>, steps: seq<Step>)
    ensures TermInv(Run(p, Init(ids), steps))
  {
    if steps != [] {
      var c := Run(p, Init(ids), steps[..|steps| - 1]);
      RunKeepsTermInv(p, ids, steps[..|steps| - 1]);
      if Apply(p, c, steps[|steps| - 1]) != c {
        StepKeepsTermInv(p, c, steps[|steps| - 1]);
      }
    }
  }

  // ---------------------------------------------------------------- what it means

  /** In every run, under either policy, each term that a node, a log entry, a boundary or a message carries, other than
      the hypothetical term of a pre-vote request, is the initial one or was entered by a node that had collected a
      pre-vote majority in the term before it. */
  lemma TermProvenance(p: Policy, ids: set<NodeId>, steps: seq<Step>)
    ensures var c := Run(p, Init(ids), steps);
            && (forall id :: id in c.nodes ==>
                  && Entered(c, c.nodes[id].currentTerm) && Entered(c, c.nodes[id].store.discTerm)
                  && forall k :: 0 <= k < |c.nodes[id].store.entries| ==> Entered(c, c.nodes[id].store.entries[k].term))
            && (forall m :: m in c.net && m.Ballot? && !m.req.gossip ==> Entered(c, m.req.term))
            && (forall m :: m in c.net && m.Append? ==> Entered(c, m.append.term) && Entered(c, m.append.prevLogTerm))
            && (forall m :: m in c.net && m.Chunk? ==> Entered(c, m.chunk.term) && Entered(c, m.chunk.lastTerm))
            && (forall m :: m in c.net && m.TermReply? ==> Entered(c, m.term))
  {
    RunKeepsTermInv(p, ids, steps);
    var c := Run(p, Init(ids), steps);
    forall id | id in c.nodes ensures NodeTermsOk(c.nodes[id], EnteredTerms(c)) {
    }
    forall m | m in c.net ensures MessageTermsOk(EnteredTerms(c), m) {
    }
  }

  /** In every run, each node's log terms never fall from one entry to the next, never exceed its current term, and
      bound what it may still append, although the log store checks no term. */
  lemma LogTermsOrdered(p: Policy, ids: set<NodeId>, steps: seq<Step>, id: NodeId, req: AppendRequest)
    requires id in Run(p, Init(ids), steps).nodes
    ensures var n := Run(p, Init(ids), steps).nodes[id];
            && (forall j, k :: 0 <= j < k < |n.store.entries| ==> n.store.entries[j].term <= n.store.entries[k].term)
            && (forall k :: 0 <= k < |n.store.entries| ==> n.store.entries[k].term <= n.currentTerm)
            && n.store.discTerm <= n.currentTerm && n.store.prevTerm <= n.currentTerm
            && (req.term >= n.currentTerm ==>
                  n.store.prevTerm <= EntryOf(req).term && Truncate(n.store, req.index).prevTerm <= EntryOf(req).term)
  {
    RunKeepsTermInv(p, ids, steps);
    var c := Run(p, Init(ids), steps);
    assert NodeTermsOk(c.nodes[id], EnteredTerms(c));
    TruncateKeepsLogOk(c.nodes[id].store, req.index, EnteredTerms(c), c.nodes[id].currentTerm);
  }
}
