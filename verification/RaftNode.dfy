/** One consensus node: what internal/consensus/service does to its role, term, vote, known leader and log when a
    message arrives or an election starts. Each handler runs under the node's mutex, so each is one atomic step. */
module RaftNode {
  import opened Codec
  import opened LogStore
  import opened Wrappers

  type NodeId = string

  datatype Role = Follower | Candidate | Leader

  /** An empty votedFor or leaderID is None. */
  datatype NodeState = NodeState(id: NodeId, role: Role, currentTerm: int, votedFor: Option<NodeId>,
                                 leaderId: Option<NodeId>, store: Store)

  /** AppendEntries clears the vote on every message that it does not reject; the comment beside that line says that it
      does so on a higher term only. */
  datatype Policy = AsCoded | AsCommented

  datatype VoteRequest = VoteRequest(term: int, origin: NodeId, logIndex: int, logTerm: int, gossip: bool)

  datatype AppendRequest = AppendRequest(origin: NodeId, term: int, index: int, prevLogIndex: int, prevLogTerm: int,
                                         schedulerId: seq<byte>, payload: seq<byte>)

  datatype ResponseStatus = Success | BadPayload | NeedsSnapshot

  datatype AppendResponse = AppendResponse(status: ResponseStatus, prevLogTerm: int, prevLogIndex: int)

  datatype SnapshotRequest = SnapshotRequest(leaderId: NodeId, term: int, lastIndex: int, lastTerm: int,
                                             offset: nat, data: seq<byte>, done: bool)

  function BecomeFollower(n: NodeState): NodeState {
    n.(role := Follower, leaderId := None)
  }

  // ---------------------------------------------------------------- the handlers, on values

  predicate IsUpToDate(req: VoteRequest, s: Store) {
    req.logTerm > s.prevTerm || (req.logTerm == s.prevTerm && req.logIndex >= s.prevIndex)
  }

  /** `timedOut` is the state of the election timer, which a leader does not have. */
  function OnRequestVote(n: NodeState, req: VoteRequest, timedOut: bool): (NodeState, bool) {
    var n := if req.term > n.currentTerm && !req.gossip
             then BecomeFollower(n).(votedFor := None, currentTerm := req.term) else n;
    if req.term < n.currentTerm then (n, false)
    else if !req.gossip && n.role != Follower && req.term == n.currentTerm then (n, false)
    else if req.gossip && n.leaderId.Some? && !(timedOut && n.role != Leader) then (n, false)
    else if req.gossip then (n, IsUpToDate(req, n.store))
    else if (n.votedFor.None? || n.votedFor == Some(req.origin)) && IsUpToDate(req, n.store)
    then (n.(votedFor := Some(req.origin), leaderId := None), true)
    else (n, false)
  }

  /** What AppendEntries does before it looks at the log: the leader becomes known, unless the node was campaigning or
      leading itself, in which case stepping down forgets it again. */
  function Acknowledge(policy: Policy, n: NodeState, req: AppendRequest): NodeState {
    var clears := policy.AsCoded? || req.term > n.currentTerm;
    var n := n.(currentTerm := if req.term > n.currentTerm then req.term else n.currentTerm,
                leaderId := Some(req.origin),
                votedFor := if clears then None else n.votedFor);
    if n.role != Follower then BecomeFollower(n) else n
  }

  function EntryOf(req: AppendRequest): LogEntry {
    LogEntry(req.index, req.term, req.schedulerId, req.payload)
  }

  /** The append itself, and what it answers to the leader. */
  function AcceptEntry(s: Store, e: LogEntry): (Store, ResponseStatus) {
    match CheckAppend(s, e)
    case Appended => (AppendEntry(s, e), Success)
    case IndexAhead => (s, BadPayload)
    case IndexBehind =>
      if e.term < s.discTerm || e.index <= s.discIndex then (s, NeedsSnapshot)
      else
        var cut := Truncate(s, e.index);
        if CheckAppend(cut, e) == Appended then (AppendEntry(cut, e), Success) else (cut, BadPayload)
  }

  function OnAppendEntries(policy: Policy, n: NodeState, req: AppendRequest): (NodeState, AppendResponse) {
    if req.term < n.currentTerm then (n, AppendResponse(BadPayload, n.currentTerm, n.store.prevIndex)) else
    var n1, s := Acknowledge(policy, n, req), n.store;
    if req.prevLogIndex > s.prevIndex || (req.prevLogIndex == s.prevIndex && req.prevLogTerm != s.prevTerm)
    then (n1, AppendResponse(BadPayload, s.prevTerm, s.prevIndex))
    else if req.payload == [] then (n1, AppendResponse(Success, n.currentTerm, s.prevIndex))
    else
      var (store, status) := AcceptEntry(s, EntryOf(req));
      (n1.(store := store), AppendResponse(status, n.currentTerm, s.prevIndex))
  }

  /** The answer is the term from before the request. */
  function OnInstallSnapshot(n: NodeState, req: SnapshotRequest): (NodeState, int) {
    if req.term < n.currentTerm then (n, n.currentTerm) else
    var n1 := if req.term > n.currentTerm then n.(currentTerm := req.term, votedFor := None) else n;
    var n2 := n1.(leaderId := Some(req.leaderId));
    var n3 := if n2.role != Follower then BecomeFollower(n2) else n2;
    (n3.(store := if req.done then Install(req.lastIndex, req.lastTerm) else n.store), n.currentTerm)
  }

  /** The vote is kept, although the term is a new one. */
  function CheckStepDown(n: NodeState, peerTerm: int): (NodeState, bool) {
    if peerTerm > n.currentTerm then (BecomeFollower(n).(currentTerm := peerTerm), true) else (n, false)
  }

  function BallotOf(n: NodeState, term: int, gossip: bool): VoteRequest {
    VoteRequest(term, n.id, n.store.prevIndex, n.store.prevTerm, gossip)
  }

  function Campaign(n: NodeState): NodeState {
    n.(role := Candidate, leaderId := None, currentTerm := n.currentTerm + 1, votedFor := Some(n.id))
  }

  function TakeOffice(n: NodeState): NodeState {
    n.(role := Leader, leaderId := Some(n.id))
  }

  /** The term of the entry before the one being sent, as far as the log still knows it. */
  function PrevLogTerm(s: Store, prevLogIndex: int): int {
    if prevLogIndex == s.discIndex then s.discTerm
    else if prevLogIndex > 0 && Between(s, prevLogIndex, prevLogIndex + 1) != []
    then Between(s, prevLogIndex, prevLogIndex + 1)[0].term
    else 0
  }

  function LocalEntry(n: NodeState, schedulerId: seq<byte>, payload: seq<byte>): LogEntry {
    LogEntry(n.store.prevIndex + 1, n.currentTerm, schedulerId, payload)
  }

  // ---------------------------------------------------------------- what single handlers keep

  /** A pre-vote request changes nothing at the voter: not its term, its vote, its role, nor its log. */
  lemma GossipChangesNothing(n: NodeState, req: VoteRequest, timedOut: bool)
    requires req.gossip
    ensures OnRequestVote(n, req, timedOut).0 == n
  {
  }

  /** When a pre-vote is granted: to a log that is not behind, for a term that is not, by a node that knows no leader or
      by one that is none itself and whose election timer has run out. While a leader is known, only the timer can
      make a node give it up, and a leader never does. */
  lemma PreVoteExactly(n: NodeState, req: VoteRequest, timedOut: bool)
    requires req.gossip
    ensures OnRequestVote(n, req, timedOut).1
            <==> && req.term >= n.currentTerm
                 && !(n.store.prevTerm > req.logTerm
                      || (n.store.prevTerm == req.logTerm && n.store.prevIndex > req.logIndex))
                 && (n.leaderId.None? || (timedOut && n.role != Leader))
  {
  }

  /** When a formal vote is granted: to a log that is not behind, in a higher term, or in the node's own by a follower
      that has voted for nobody else. The timer and a known leader play no part. */
  lemma FormalVoteExactly(n: NodeState, req: VoteRequest, timedOut: bool)
    requires !req.gossip
    ensures OnRequestVote(n, req, timedOut).1
            <==> && (req.term > n.currentTerm
                     || (req.term == n.currentTerm && n.role == Follower && n.votedFor in {None, Some(req.origin)}))
                 && !(n.store.prevTerm > req.logTerm
                      || (n.store.prevTerm == req.logTerm && n.store.prevIndex > req.logIndex))
    ensures var after := OnRequestVote(n, req, timedOut).0;
            && after.store == n.store && after.id == n.id
            && after.currentTerm == (if req.term > n.currentTerm then req.term else n.currentTerm)
            && (req.term > n.currentTerm ==> after.role == Follower && after.leaderId.None?)
            && (req.term <= n.currentTerm ==> after.role == n.role)
  {
  }

  /** An AppendEntries that is not turned down teaches a follower who leads, and no other node: a candidate that it
      makes step down learns it from the next one only. */
  lemma LeaderLearntExactly(policy: Policy, n: NodeState, req: AppendRequest)
    requires req.term >= n.currentTerm
    ensures var after := OnAppendEntries(policy, n, req).0;
            && after.role == Follower && after.currentTerm == req.term
            && after.leaderId == (if n.role == Follower then Some(req.origin) else None)
  {
  }

  /** A formal vote goes only to a candidate whose log is not behind the voter's (section 5.4.1 of the Raft paper), and
      the voter remembers it, as a follower of the candidate's term. */
  lemma VoteIsSound(n: NodeState, req: VoteRequest, timedOut: bool)
    requires !req.gossip && OnRequestVote(n, req, timedOut).1
    ensures !(n.store.prevTerm > req.logTerm || (n.store.prevTerm == req.logTerm && n.store.prevIndex > req.logIndex))
    ensures var v := OnRequestVote(n, req, timedOut).0;
            v.votedFor == Some(req.origin) && v.currentTerm == req.term && v.role == Follower && v.store == n.store
  {
  }

  /** With nothing in between, a second vote of the same term can only be for the same candidate. */
  lemma SecondVoteIsTheSame(n: NodeState, a: VoteRequest, b: VoteRequest, timedOutA: bool, timedOutB: bool)
    requires !a.gossip && !b.gossip && a.term == b.term && OnRequestVote(n, a, timedOutA).1
    requires OnRequestVote(OnRequestVote(n, a, timedOutA).0, b, timedOutB).1
    ensures a.origin == b.origin
  {
  }

  /** AppendEntries makes a node forget a vote of its current term exactly when, as coded, an equal-term message reaches
      a node that has voted. */
  lemma VoteForgottenExactly(policy: Policy, n: NodeState, req: AppendRequest)
    ensures var after := OnAppendEntries(policy, n, req).0;
            after.currentTerm == n.currentTerm && after.votedFor != n.votedFor
            <==> policy.AsCoded? && req.term == n.currentTerm && n.votedFor.Some?
  {
  }

  /** What becomes of an entry that reaches a contiguous log. One that follows on is appended; one beyond that is
      refused; one at or below the boundary, or of an older term than it, asks for a snapshot; and any other replaces
      everything from its index on, except that at the very first retained index everything goes and the entry is
      refused as well. */
  lemma EntryAcceptedExactly(s: Store, e: LogEntry)
    requires Contiguous(s)
    ensures var (after, status) := AcceptEntry(s, e);
            if e.index == s.prevIndex + 1 then
              status == Success && after == s.(entries := s.entries + [e], prevIndex := e.index, prevTerm := e.term)
            else if e.index > s.prevIndex + 1 then status == BadPayload && after == s
            else if e.index <= s.discIndex || e.term < s.discTerm then status == NeedsSnapshot && after == s
            else if e.index == s.discIndex + 1 then status == BadPayload && after == s.(entries := [])
            else
              && status == Success && after.prevIndex == e.index && after.prevTerm == e.term
              && after.entries == s.entries[..e.index - s.discIndex - 1] + [e]
              && after.discIndex == s.discIndex && after.discTerm == s.discTerm
  {
    FirstAtContiguous(s, e.index);
  }

  /** When AppendEntries refuses a request without looking at its entry: when it is of an older term, or goes on from an
      entry beyond the tip, or from one at the tip of another term. Below the tip nothing is compared. */
  predicate Mismatch(n: NodeState, req: AppendRequest) {
    req.prevLogIndex > n.store.prevIndex
    || (req.prevLogIndex == n.store.prevIndex && req.prevLogTerm != n.store.prevTerm)
  }

  /** Every answer of AppendEntries: status, the term that it reports, and the tip from before the request. */
  lemma AppendAnswersExactly(policy: Policy, n: NodeState, req: AppendRequest)
    ensures var (after, resp) := OnAppendEntries(policy, n, req);
            && resp.prevLogIndex == n.store.prevIndex
            && resp.prevLogTerm == (if req.term >= n.currentTerm && Mismatch(n, req) then n.store.prevTerm
                                    else n.currentTerm)
            && (resp.status == BadPayload
                <==> || req.term < n.currentTerm || Mismatch(n, req)
                     || (req.payload != [] && AcceptEntry(n.store, EntryOf(req)).1 == BadPayload))
            && (resp.status == NeedsSnapshot
                <==> && req.term >= n.currentTerm && !Mismatch(n, req) && req.payload != []
                     && AcceptEntry(n.store, EntryOf(req)).1 == NeedsSnapshot)
            && after.store == (if req.term < n.currentTerm || Mismatch(n, req) || req.payload == [] then n.store
                               else AcceptEntry(n.store, LogEntry(req.index, req.term, req.schedulerId, req.payload)).0)
            && (req.term < n.currentTerm ==> after == n)
  {
  }

  /** A chunk of a leader that is not behind makes a follower know it, and any other node a follower that knows nobody;
      only the last chunk of a transfer moves the log; and the answer is the node's term from before. */
  lemma ChunkAnswersExactly(n: NodeState, req: SnapshotRequest)
    ensures var (after, term) := OnInstallSnapshot(n, req);
            && term == n.currentTerm
            && (if req.term < n.currentTerm then after == n
                else
                  && after.role == Follower && after.currentTerm == req.term && after.id == n.id
                  && after.leaderId == (if n.role == Follower then Some(req.leaderId) else None)
                  && after.votedFor == (if req.term > n.currentTerm then None else n.votedFor)
                  && after.store == if !req.done then n.store
                                    else Store([], req.lastIndex, req.lastTerm, req.lastIndex, req.lastTerm))
  {
  }

  /** What a client submits is what the leader appends, behind everything else and in its own term. */
  lemma SubmissionIsAppended(n: NodeState, schedulerId: seq<byte>, payload: seq<byte>)
    ensures var after := AppendEntry(n.store, LocalEntry(n, schedulerId, payload));
            && |after.entries| == |n.store.entries| + 1 && after.entries[..|n.store.entries|] == n.store.entries
            && after.entries[|n.store.entries|] == LogEntry(n.store.prevIndex + 1, n.currentTerm, schedulerId, payload)
            && after.prevIndex == n.store.prevIndex + 1 && after.prevTerm == n.currentTerm
  {
  }

  // ---------------------------------------------------------------- the node

  class Node {
    const id: NodeId
    const storage: Handler
    var role: Role
    var currentTerm: int
    var votedFor: Option<NodeId>
    var leaderId: Option<NodeId>

    function State(): NodeState
      reads this, storage
    {
      NodeState(id, role, currentTerm, votedFor, leaderId, storage.Log())
    }

    ghost predicate Valid()
      reads this, storage
    {
      storage.Valid()
    }

    constructor (id: NodeId, storage: Handler)
      requires storage.Valid()
      ensures Valid() && this.storage == storage && State() == NodeState(id, Follower, 0, None, None, storage.Log())
    {
      this.id, this.storage := id, storage;
      role, currentTerm, votedFor, leaderId := Follower, 0, None, None;
    }

    method RequestVote(req: VoteRequest, timedOut: bool) returns (vote: bool)
      modifies this
      ensures (State(), vote) == OnRequestVote(old(State()), req, timedOut)
    {
      if req.term > currentTerm && !req.gossip {
        votedFor, role, leaderId, currentTerm := None, Follower, None, req.term;
      }
      if req.term < currentTerm {
        return false;
      }
      if !req.gossip && (role == Leader || role == Candidate) && req.term == currentTerm {
        return false;
      }
      if req.gossip && leaderId.Some? && !(timedOut && role != Leader) {
        return false;
      }
      var upToDate := IsUpToDate(req, storage.Log());
      if req.gossip {
        return upToDate;
      }
      if (votedFor.None? || votedFor == Some(req.origin)) && upToDate {
        votedFor, leaderId := Some(req.origin), None;
        return true;
      }
      vote := false;
    }

    method AppendEntries(req: AppendRequest) returns (resp: AppendResponse)
      requires Valid()
      modifies this, storage
      ensures Valid() && (State(), resp) == OnAppendEntries(AsCoded, old(State()), req)
    {
      resp := AppendResponse(BadPayload, currentTerm, storage.prevIndex);
      if req.term < currentTerm {
        return;
      }
      if req.term > currentTerm {
        currentTerm := req.term;
      }
      leaderId, votedFor := Some(req.origin), None;
      if role == Candidate || role == Leader {
        role, leaderId := Follower, None;
      }
      if req.prevLogIndex > storage.prevIndex {
        return AppendResponse(BadPayload, storage.prevTerm, storage.prevIndex);
      }
      if req.prevLogIndex == storage.prevIndex && req.prevLogTerm != storage.prevTerm {
        return AppendResponse(BadPayload, storage.prevTerm, storage.prevIndex);
      }
      if |req.payload| == 0 {
        resp := resp.(status := Success);
        return;
      }
      var status := Accept(LogEntry(req.index, req.term, req.schedulerId, req.payload));
      resp := resp.(status := status);
    }

    /** The append of AppendEntries, with the truncation that makes room for an entry that is already there. */
    method Accept(data: LogEntry) returns (status: ResponseStatus)
      requires Valid()
      modifies storage
      ensures Valid() && (storage.Log(), status) == AcceptEntry(old(storage.Log()), data)
    {
      var appended := storage.Append(data);
      match appended {
        case Appended => return Success;
        case IndexAhead => return BadPayload;
        case IndexBehind =>
          if data.term < storage.discTerm || data.index <= storage.discIndex {
            return NeedsSnapshot;
          }
          storage.TruncateLog(data.index);
          appended := storage.Append(data);
          status := if appended == Appended then Success else BadPayload;
      }
    }

    /** A chunk of a transfer that was never begun is an error after the term has been adopted. */
    method InstallSnapshot(req: SnapshotRequest) returns (term: int, ok: bool)
      requires Valid()
      modifies this, storage
      ensures Valid()
      ensures ok ==> (State(), term) == OnInstallSnapshot(old(State()), req)
      ensures !ok ==> (State(), term) == OnInstallSnapshot(old(State()), req.(done := false))
      ensures req.term < old(currentTerm) || req.offset == 0 || old(storage.tempFile).Some? ==> ok
      ensures req.term >= old(currentTerm) && ok && !req.done ==> storage.tempFile.Some?
    {
      term, ok := currentTerm, true;
      if req.term < currentTerm {
        return;
      }
      if req.term > currentTerm {
        currentTerm, votedFor := req.term, None;
      }
      leaderId := Some(req.leaderId);
      if role == Candidate || role == Leader {
        role, leaderId := Follower, None;
      }
      ok := storage.InstallSnapshot(req.offset, req.data, req.done, req.lastIndex, req.lastTerm);
    }

    method StepDownIfBehind(peerTerm: int) returns (stepped: bool)
      modifies this
      ensures (State(), stepped) == CheckStepDown(old(State()), peerTerm)
    {
      if peerTerm > currentTerm {
        role, leaderId, currentTerm := Follower, None, peerTerm;
        return true;
      }
      stepped := false;
    }

    /** The first locked part of StartElection: nothing for a leader, else the pre-vote request. */
    method BeginPreVote() returns (ballot: Option<VoteRequest>)
      modifies this
      ensures old(role) == Leader ==> ballot == None && State() == old(State())
      ensures old(role) != Leader ==> State() == old(State()).(leaderId := None)
                                      && ballot == Some(BallotOf(old(State()), old(currentTerm) + 1, true))
    {
      if role == Leader {
        return None;
      }
      leaderId := None;
      ballot := Some(VoteRequest(currentTerm + 1, id, storage.prevIndex, storage.prevTerm, true));
    }

    /** The second locked part, after a won pre-vote of `oldTerm`. */
    method BeginCampaign(oldTerm: int) returns (ballot: Option<VoteRequest>)
      modifies this
      ensures ballot.Some? <==> old(role) != Leader && old(currentTerm) == oldTerm
      ensures ballot.Some? ==> State() == Campaign(old(State()))
      ensures ballot.Some? ==> ballot.value == BallotOf(State(), oldTerm + 1, false)
      ensures ballot.None? ==> State() == old(State())
    {
      if role == Leader || currentTerm != oldTerm {
        return None;
      }
      role, leaderId, currentTerm, votedFor := Candidate, None, oldTerm + 1, Some(id);
      ballot := Some(VoteRequest(currentTerm, id, storage.prevIndex, storage.prevTerm, false));
    }

    /** The last locked part, after a won vote for `term`. */
    method BecomeLeader(term: int) returns (elected: bool)
      modifies this
      ensures elected <==> old(role) == Candidate && old(currentTerm) == term
      ensures State() == if elected then TakeOffice(old(State())) else old(State())
    {
      elected := role == Candidate && currentTerm == term;
      if elected {
        role, leaderId := Leader, Some(id);
      }
    }

    /** The local half of AddLog, for one request. */
    method AppendLocally(schedulerId: seq<byte>, payload: seq<byte>) returns (ok: bool)
      requires Valid()
      modifies storage
      ensures Valid()
      ensures ok <==> role == Leader
      ensures State() == if !ok then old(State())
                         else old(State()).(store := AppendEntry(old(State()).store,
                                                                 LocalEntry(old(State()), schedulerId, payload)))
    {
      if role != Leader {
        return false;
      }
      var status := storage.Append(LogEntry(storage.prevIndex + 1, currentTerm, schedulerId, payload));
      ok := status == Appended;
    }
  }
}
