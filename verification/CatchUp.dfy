/** Catching up a lagging peer: the loop of resolvePeerLag in internal/consensus/service/add.go, which probes the
    peer's log, jumps back to where it ends, streams a snapshot when it is behind the boundary, and feeds it one entry
    at a time.

    A run is bounded by the number of iterations before the context ends or a call fails, since that can happen in any
    iteration; whether catch-up converges is whether some number of iterations is enough. */
module CatchUp {
  import opened Codec
  import opened LogStore
  import opened RaftNode
  import opened SnapshotTransfer
  import opened Wrappers

  datatype Phase = Running | CaughtUp | GaveUp

  /** `jumps` counts how often the target went back; no step reads it. */
  datatype Lag = Lag(leader: NodeState, peer: NodeState, target: int, status: ResponseStatus, phase: Phase, jumps: nat)

  function Begin(leader: NodeState, peer: NodeState, failedIndex: int, status: ResponseStatus): Lag {
    Lag(leader, peer, if failedIndex - 1 < 1 then 1 else failedIndex - 1, status, Running, 0)
  }

  /** The last of the first `n` entries that has this index. */
  function LastWith(es: seq<LogEntry>, n: nat, index: int): Option<LogEntry>
    requires n <= |es|
  {
    if n == 0 then None else if es[n - 1].index == index then Some(es[n - 1]) else LastWith(es, n - 1, index)
  }

  function Window(s: Store, target: int): seq<LogEntry> {
    Between(s, target - 1, if target + 1 > s.prevIndex + 1 then s.prevIndex + 1 else target + 1)
  }

  /** The request for one target index; without an entry there it is a heartbeat. */
  function RequestAt(leader: NodeState, target: int): AppendRequest {
    var window := Window(leader.store, target);
    RequestFrom(leader, window, |window|, target)
  }

  /** The request as the first `n` entries of the window make it. */
  function RequestFrom(leader: NodeState, window: seq<LogEntry>, n: nat, target: int): AppendRequest
    requires n <= |window|
  {
    var prevTerm := match LastWith(window, n, target - 1)
                    case Some(e) => e.term
                    case None => PrevLogTerm(leader.store, target - 1);
    match LastWith(window, n, target)
    case Some(e) =>
      AppendRequest(leader.id, leader.currentTerm, e.index, target - 1, prevTerm, e.schedulerId, e.payload)
    case None => AppendRequest(leader.id, leader.currentTerm, 0, target - 1, prevTerm, [], [])
  }

  function Retreat(lag: Lag, target: int): Lag {
    lag.(target := target, status := BadPayload, jumps := lag.jumps + 1,
         phase := if target < 1 then GaveUp else Running)
  }

  function Probe(lag: Lag): Lag {
    var (peer, resp) := OnAppendEntries(AsCoded, lag.peer, RequestAt(lag.leader, lag.target));
    var heard := lag.(peer := peer);
    if resp.status == Success then heard.(target := lag.target + 1, status := Success)
    else
      var (leader, stepped) := CheckStepDown(lag.leader, resp.prevLogTerm);
      if stepped then heard.(leader := leader, phase := GaveUp)
      else if resp.status == NeedsSnapshot then heard.(status := NeedsSnapshot)
      else Retreat(heard, if 0 <= resp.prevLogIndex < lag.target - 1 then resp.prevLogIndex + 1 else lag.target - 1)
  }

  /** What a chunk of a transfer amounts to for a node, which does not look at its bytes. */
  function ChunkOf(leader: NodeState, src: seq<byte>, done: bool): SnapshotRequest {
    SnapshotRequest(leader.id, leader.currentTerm, leader.store.discIndex, leader.store.discTerm, 0, src, done)
  }

  /** The peer after `offset` bytes of the file, which arrive in reads of CHUNK_SIZE. Chunks after the second change
      nothing more, but the second one matters: a candidate that the first one makes step down forgets the leader again,
      and learns it from the next. */
  function Heard(leader: NodeState, peer: NodeState, src: seq<byte>, offset: nat): NodeState {
    if offset <= CHUNK_SIZE then OnInstallSnapshot(peer, ChunkOf(leader, src, offset == |src|)).0
    else OnInstallSnapshot(OnInstallSnapshot(peer, ChunkOf(leader, src, false)).0,
                           ChunkOf(leader, src, offset == |src|)).0
  }

  /** What a transfer does to the peer, who may also know a higher term. Of an empty file no chunk is ever sent, and the
      loop goes on as if the peer had the snapshot. */
  function Stream(lag: Lag, src: seq<byte>): Lag {
    var sent := lag.(target := lag.leader.store.discIndex + 1, status := Success);
    if src == [] then sent
    else
      var (leader, stepped) := CheckStepDown(lag.leader, lag.peer.currentTerm);
      if stepped then lag.(leader := leader, phase := GaveUp)
      else sent.(peer := Heard(lag.leader, lag.peer, src, |src|))
  }

  function LagStep(lag: Lag, src: seq<byte>): Lag {
    if lag.phase != Running then lag
    else if lag.leader.role != Leader then lag.(phase := GaveUp)
    else if lag.target > lag.leader.store.prevIndex then lag.(phase := CaughtUp)
    else if lag.status == NeedsSnapshot || lag.target <= lag.leader.store.discIndex then Stream(lag, src)
    else Probe(lag)
  }

  function Iterate(lag: Lag, src: seq<byte>, n: nat): Lag
    decreases n
  {
    if n == 0 then lag else Iterate(LagStep(lag, src), src, n - 1)
  }

  // ---------------------------------------------------------------- what catch-up assumes and achieves

  function TermAt(s: Store, index: int): int
    requires s.discIndex <= index <= s.discIndex + |s.entries|
  {
    if index == s.discIndex then s.discTerm else s.entries[index - s.discIndex - 1].term
  }

  /** A log whose tip is what its entries say. */
  ghost predicate Sound(s: Store) {
    Contiguous(s) && 0 <= s.discIndex && s.prevTerm == TermAt(s, s.prevIndex)
  }

  /** A leader whose retained entries are all of its current term, none of them a heartbeat. */
  ghost predicate Leading(n: NodeState) {
    && n.role == Leader && Sound(n.store) && n.store.discTerm <= n.currentTerm
    && forall k :: 0 <= k < |n.store.entries| ==>
         n.store.entries[k].term == n.currentTerm && n.store.entries[k].payload != []
  }

  /** `f` is a prefix of `l`, as far as `l` still knows it: the boundary is no later, and from the boundary of `l` on
      there is nothing in `f` that is not in `l`. */
  ghost predicate PrefixOf(f: Store, l: Store) {
    && Contiguous(f) && Contiguous(l) && f.discIndex <= l.discIndex && f.prevIndex <= l.prevIndex
    && (l.discIndex <= f.prevIndex ==> TermAt(f, l.discIndex) == l.discTerm)
    && (forall k :: 0 <= k < f.prevIndex - l.discIndex ==> l.entries[k] == f.entries[l.discIndex - f.discIndex + k])
  }

  /** A follower that nothing but the log separates from the leader. */
  ghost predicate Lagging(leader: NodeState, peer: NodeState) {
    && Leading(leader) && Sound(peer.store) && PrefixOf(peer.store, leader.store)
    && peer.currentTerm <= leader.currentTerm && peer.store.prevTerm <= leader.currentTerm
    && peer.store.discTerm <= leader.currentTerm
  }

  /** The peer holds every entry that the leader retains, and both logs end alike. */
  ghost predicate SameLog(f: Store, l: Store) {
    && f.prevIndex == l.prevIndex && f.prevTerm == l.prevTerm && f.discIndex <= l.discIndex
    && l.discIndex - f.discIndex <= |f.entries| && f.entries[l.discIndex - f.discIndex..] == l.entries
  }

  ghost predicate Converged(lag: Lag) {
    lag.phase == CaughtUp && SameLog(lag.peer.store, lag.leader.store)
  }

  ghost predicate Converges(lag: Lag, src: seq<byte>) {
    exists n: nat :: Converged(Iterate(lag, src, n))
  }

  // ---------------------------------------------------------------- one probe

  lemma LastWithWindow(es: seq<LogEntry>, n: nat, index: int, k: nat)
    requires k < n <= |es| && es[k].index == index && forall i :: k < i < n ==> es[i].index != index
    ensures LastWith(es, n, index) == Some(es[k])
  {
    if n - 1 > k {
      LastWithWindow(es, n - 1, index, k);
    }
  }

  lemma RequestCarriesTheEntry(leader: NodeState, target: int)
    requires Leading(leader) && leader.store.discIndex < target <= leader.store.prevIndex
    ensures RequestAt(leader, target) ==
              (var e := leader.store.entries[target - leader.store.discIndex - 1];
               AppendRequest(leader.id, leader.currentTerm, target, target - 1, TermAt(leader.store, target - 1),
                             e.schedulerId, e.payload))
  {
    var s := leader.store;
    var w, k := Window(s, target), target - s.discIndex - 1;
    if k == 0 {
      assert w == s.entries[0..1];
      LastWithWindow(w, |w|, target, 0);
      assert LastWith(w, |w|, target - 1) == None;
    } else {
      assert w == s.entries[k - 1..k + 1];
      assert w[0] == s.entries[k - 1] && w[1] == s.entries[k];
      LastWithWindow(w, |w|, target - 1, 0);
      LastWithWindow(w, |w|, target, 1);
    }
  }

  /** The target is the entry after the peer's last. */
  ghost predicate Aligned(lag: Lag) {
    && lag.phase == Running && lag.status != NeedsSnapshot && Lagging(lag.leader, lag.peer)
    && lag.leader.store.discIndex <= lag.peer.store.prevIndex && lag.target == lag.peer.store.prevIndex + 1
  }

  lemma TipTermsAgree(f: Store, l: Store, index: int)
    requires Sound(f) && Sound(l) && PrefixOf(f, l) && l.discIndex <= index <= f.prevIndex
    ensures TermAt(f, index) == TermAt(l, index)
  {
    if index > l.discIndex {
      var k := index - l.discIndex - 1;
      assert l.entries[k] == f.entries[l.discIndex - f.discIndex + k];
    }
  }

  lemma AppendGrowsPrefix(f: Store, l: Store, e: LogEntry)
    requires Sound(f) && Sound(l) && PrefixOf(f, l) && l.discIndex <= f.prevIndex < l.prevIndex
    requires e == l.entries[f.prevIndex - l.discIndex]
    ensures Sound(AppendEntry(f, e)) && PrefixOf(AppendEntry(f, e), l) && AppendEntry(f, e).prevIndex == f.prevIndex + 1
  {
  }

  lemma AlignedStep(lag: Lag, src: seq<byte>)
    requires Aligned(lag) && lag.target <= lag.leader.store.prevIndex
    ensures var next := LagStep(lag, src);
            Aligned(next) && next.leader == lag.leader && next.jumps == lag.jumps && next.target == lag.target + 1
  {
    var f, l := lag.peer.store, lag.leader.store;
    RequestCarriesTheEntry(lag.leader, lag.target);
    TipTermsAgree(f, l, f.prevIndex);
    AppendGrowsPrefix(f, l, l.entries[f.prevIndex - l.discIndex]);
  }

  lemma WholeLogsAreTheSame(f: Store, l: Store)
    requires Sound(f) && Sound(l) && PrefixOf(f, l)
    ensures SameLog(f, l) <==> f.prevIndex == l.prevIndex
  {
    if f.prevIndex == l.prevIndex {
      TipTermsAgree(f, l, f.prevIndex);
    }
  }

  lemma AlignedAtTheEnd(lag: Lag, src: seq<byte>)
    requires Aligned(lag) && lag.target > lag.leader.store.prevIndex
    ensures Converged(LagStep(lag, src))
  {
    WholeLogsAreTheSame(lag.peer.store, lag.leader.store);
  }

  /** From there on every iteration but the last adds one entry. */
  lemma {:induction false} AlignedConverges(lag: Lag, src: seq<byte>, n: nat)
    requires Aligned(lag) && n == lag.leader.store.prevIndex - lag.peer.store.prevIndex + 1
    ensures Converged(Iterate(lag, src, n))
    decreases n
  {
    if n > 1 {
      AlignedStep(lag, src);
      AlignedConverges(LagStep(lag, src), src, n - 1);
    } else {
      AlignedAtTheEnd(lag, src);
      assert Iterate(LagStep(lag, src), src, 0) == LagStep(lag, src);
    }
  }

  lemma {:induction false} AlignedNeverJumps(lag: Lag, src: seq<byte>, n: nat)
    requires Aligned(lag)
    ensures Iterate(lag, src, n).jumps == lag.jumps
    decreases n
  {
    if lag.target > lag.leader.store.prevIndex {
      Finishes(lag, src, n);
    } else if n > 0 {
      AlignedStep(lag, src);
      AlignedNeverJumps(LagStep(lag, src), src, n - 1);
    }
  }

  lemma {:induction false} Finishes(lag: Lag, src: seq<byte>, n: nat)
    requires lag.phase != Running
             || (lag.phase == Running && lag.leader.role == Leader && lag.target > lag.leader.store.prevIndex)
    ensures Iterate(lag, src, n) == lag || Iterate(lag, src, n) == lag.(phase := CaughtUp)
    ensures lag.phase == Running && n > 0 ==> Iterate(lag, src, n) == lag.(phase := CaughtUp)
    decreases n
  {
    if n > 0 {
      Finishes(LagStep(lag, src), src, n - 1);
    }
  }

  // ---------------------------------------------------------------- the three ways a probe can miss

  ghost predicate Probing(lag: Lag) {
    && lag.phase == Running && lag.status != NeedsSnapshot && Lagging(lag.leader, lag.peer)
    && lag.leader.store.discIndex < lag.target <= lag.leader.store.prevIndex
  }

  /** Past the end of the peer's log: the peer says where it ends, and the loop jumps there. */
  lemma ProbePastTheEnd(lag: Lag, src: seq<byte>)
    requires Probing(lag) && lag.target - 1 > lag.peer.store.prevIndex
    ensures var next := LagStep(lag, src);
            && next == Retreat(lag.(peer := next.peer), lag.peer.store.prevIndex + 1) && next.phase == Running
            && next.peer.store == lag.peer.store && next.peer.currentTerm == lag.leader.currentTerm
  {
    RequestCarriesTheEntry(lag.leader, lag.target);
  }

  lemma CutKeepsPrefix(f: Store, l: Store, index: int)
    requires Sound(f) && Sound(l) && PrefixOf(f, l) && l.discIndex < index && f.discIndex + 1 < index <= f.prevIndex
    ensures var cut := Truncate(f, index);
            Sound(cut) && PrefixOf(cut, l) && cut.prevIndex == index - 1 && cut.discIndex == f.discIndex
            && cut.discTerm == f.discTerm
  {
    TruncateKeepsContiguousExactly(f, index);
    FirstAtContiguous(f, index);
  }

  lemma CutAndAppend(f: Store, l: Store, e: LogEntry)
    requires Sound(f) && Sound(l) && PrefixOf(f, l) && l.discIndex < e.index <= f.prevIndex
             && e.index != f.discIndex + 1
    requires e == l.entries[e.index - l.discIndex - 1] && e.term >= f.discTerm
    ensures var (s, status) := AcceptEntry(f, e);
            status == Success && Sound(s) && PrefixOf(s, l) && s.prevIndex == e.index && s.discTerm == f.discTerm
  {
    CutKeepsPrefix(f, l, e.index);
    AppendGrowsPrefix(Truncate(f, e.index), l, e);
  }

  /** Inside the peer's log: the peer cuts its log there and takes the entry again. */
  lemma ProbeInside(lag: Lag, src: seq<byte>)
    requires Probing(lag) && lag.target <= lag.peer.store.prevIndex && lag.target != lag.peer.store.discIndex + 1
    ensures Aligned(LagStep(lag, src)) && LagStep(lag, src).jumps == lag.jumps
  {
    var l := lag.leader.store;
    RequestCarriesTheEntry(lag.leader, lag.target);
    CutAndAppend(lag.peer.store, l, l.entries[lag.target - l.discIndex - 1]);
  }

  /** At the very first entry that the peer retains: the cut leaves it with nothing, and with a tip that refuses the
      entry it has just made room for. */
  lemma ProbeEmpties(lag: Lag, src: seq<byte>)
    requires Probing(lag) && lag.target <= lag.peer.store.prevIndex && lag.target == lag.peer.store.discIndex + 1
    ensures var next := LagStep(lag, src);
            && next == Retreat(lag.(peer := next.peer), lag.target - 1)
            && next.peer.store == lag.peer.store.(entries := []) && next.peer.currentTerm == lag.leader.currentTerm
  {
    RequestCarriesTheEntry(lag.leader, lag.target);
    FirstAtContiguous(lag.peer.store, lag.target);
  }

  /** A snapshot puts the peer at the leader's boundary, whatever it held before. */
  lemma StreamAligns(lag: Lag, src: seq<byte>)
    requires src != [] && lag.phase == Running && Leading(lag.leader) && lag.peer.currentTerm <= lag.leader.currentTerm
    requires lag.target <= lag.leader.store.prevIndex
    requires lag.status == NeedsSnapshot || lag.target <= lag.leader.store.discIndex
    ensures Aligned(LagStep(lag, src)) && LagStep(lag, src).jumps == lag.jumps
  {
  }

  // ---------------------------------------------------------------- the two ways to loop forever

  /** The peer ends below the boundary, and there is no snapshot to lift it: the loop jumps back to where the peer ends,
      streams nothing, assumes that the peer has the snapshot, and finds out that it has not. */
  ghost predicate Behind(lag: Lag) {
    Lagging(lag.leader, lag.peer) && lag.peer.store.prevIndex < lag.leader.store.discIndex
  }

  lemma {:induction false} BehindForever(lag: Lag, n: nat)
    requires Behind(lag)
    ensures !Converged(Iterate(lag, [], n))
    decreases n
  {
    if n > 0 {
      if Probing(lag) {
        ProbePastTheEnd(lag, []);
      }
      BehindForever(LagStep(lag, []), n - 1);
    }
  }

  /** The peer has been emptied and still claims its old tip; it will refuse the entry after its boundary for good. */
  ghost predicate Stranded(lag: Lag) {
    && Leading(lag.leader) && lag.peer.currentTerm <= lag.leader.currentTerm
    && var f, l := lag.peer.store, lag.leader.store;
       && f.entries == [] && f.discIndex == l.discIndex < f.prevIndex <= l.prevIndex
       && f.prevTerm <= lag.leader.currentTerm && f.discTerm <= lag.leader.currentTerm
       && (lag.phase == Running ==>
             lag.target == l.discIndex || (lag.target == l.discIndex + 1 && lag.status != NeedsSnapshot))
  }

  lemma StrandedStep(lag: Lag)
    requires Stranded(lag)
    ensures Stranded(LagStep(lag, []))
  {
    if lag.phase == Running && lag.target == lag.leader.store.discIndex + 1 {
      RequestCarriesTheEntry(lag.leader, lag.target);
    }
  }

  lemma {:induction false} StrandedForever(lag: Lag, src: seq<byte>, n: nat)
    requires Stranded(lag) && (lag.phase == Running ==> src == [])
    ensures !Converged(Iterate(lag, src, n))
    decreases n
  {
    if n > 0 {
      if lag.phase == Running {
        StrandedStep(lag);
      }
      StrandedForever(LagStep(lag, src), src, n - 1);
    }
  }

  // ---------------------------------------------------------------- exactly when catch-up converges

  predicate Streams(lag: Lag) {
    lag.status == NeedsSnapshot || lag.target <= lag.leader.store.discIndex
  }

  /** The first index that the loop probes, if it gets that far. */
  function FirstProbe(lag: Lag): int {
    if lag.target <= lag.leader.store.prevIndex && Streams(lag) then lag.leader.store.discIndex + 1 else lag.target
  }

  /** With a snapshot to send, the only thing in the way is a probe that empties the log of a peer whose boundary is 0,
      or a target that is already past the leader's log; without one, the peer must not need it either. */
  predicate WillConverge(lag: Lag, src: seq<byte>) {
    var f, l, t := lag.peer.store, lag.leader.store, FirstProbe(lag);
    if lag.target <= l.prevIndex && Streams(lag) && src != [] then true
    else if t > l.prevIndex then f.prevIndex == l.prevIndex
    else if t - 1 > f.prevIndex then f.prevIndex >= l.discIndex || src != []
    else t - 1 == f.prevIndex || t != f.discIndex + 1 || (src != [] && l.discIndex >= 1)
  }

  lemma ConvergesFromNext(lag: Lag, src: seq<byte>)
    requires lag.phase == Running
    ensures Converges(lag, src) <==> Converges(LagStep(lag, src), src)
  {
    forall n: nat | Converged(Iterate(lag, src, n)) ensures Converges(LagStep(lag, src), src) {
      assert Converged(Iterate(LagStep(lag, src), src, n - 1));
    }
    forall n: nat | Converged(Iterate(LagStep(lag, src), src, n)) ensures Converges(lag, src) {
      assert Converged(Iterate(lag, src, n + 1));
    }
  }

  lemma AlignedMeansConverges(lag: Lag, src: seq<byte>)
    requires Aligned(lag)
    ensures Converges(lag, src)
  {
    AlignedConverges(lag, src, lag.leader.store.prevIndex - lag.peer.store.prevIndex + 1);
  }

  lemma PastTheLogExact(lag: Lag, src: seq<byte>)
    requires lag.phase == Running && Lagging(lag.leader, lag.peer) && lag.target > lag.leader.store.prevIndex
    ensures Converges(lag, src) <==> lag.peer.store.prevIndex == lag.leader.store.prevIndex
  {
    WholeLogsAreTheSame(lag.peer.store, lag.leader.store);
    forall n: nat ensures Converged(Iterate(lag, src, n)) ==> SameLog(lag.peer.store, lag.leader.store) {
      Finishes(lag, src, n);
    }
    Finishes(lag, src, 1);
  }

  lemma ProbingExact(lag: Lag, src: seq<byte>)
    requires Probing(lag)
    ensures Converges(lag, src) <==> WillConverge(lag, src)
  {
    var f, l, next := lag.peer.store, lag.leader.store, LagStep(lag, src);
    ConvergesFromNext(lag, src);
    if lag.target - 1 > f.prevIndex {
      ProbePastTheEnd(lag, src);
      if f.prevIndex >= l.discIndex {
        AlignedMeansConverges(next, src);
      } else if src != [] {
        StreamAligns(next, src);
        ConvergesFromNext(next, src);
        AlignedMeansConverges(LagStep(next, src), src);
      } else {
        forall n: nat ensures !Converged(Iterate(next, src, n)) {
          BehindForever(next, n);
        }
      }
    } else if lag.target - 1 == f.prevIndex {
      AlignedStep(lag, src);
      AlignedMeansConverges(next, src);
    } else if lag.target != f.discIndex + 1 {
      ProbeInside(lag, src);
      AlignedMeansConverges(next, src);
    } else {
      EmptiedExact(lag, src);
    }
  }

  lemma EmptiedExact(lag: Lag, src: seq<byte>)
    requires Probing(lag) && lag.target <= lag.peer.store.prevIndex && lag.target == lag.peer.store.discIndex + 1
    ensures Converges(lag, src) <==> src != [] && lag.leader.store.discIndex >= 1
  {
    var next := LagStep(lag, src);
    ConvergesFromNext(lag, src);
    ProbeEmpties(lag, src);
    if src != [] && lag.leader.store.discIndex >= 1 {
      StreamAligns(next, src);
      ConvergesFromNext(next, src);
      AlignedMeansConverges(LagStep(next, src), src);
    } else {
      forall n: nat ensures !Converged(Iterate(next, src, n)) {
        StrandedForever(next, src, n);
      }
    }
  }

  /** With the leader's log fixed and in its current term, and a follower whose log is a prefix of it, some number of
      iterations makes the follower's log the leader's exactly when WillConverge holds, which can be read off the two
      logs and the snapshot file before the loop starts. */
  lemma CatchUpConvergesExactly(lag: Lag, src: seq<byte>)
    requires lag.phase == Running && Lagging(lag.leader, lag.peer)
    ensures Converges(lag, src) <==> WillConverge(lag, src)
  {
    if lag.target > lag.leader.store.prevIndex {
      PastTheLogExact(lag, src);
    } else if Streams(lag) {
      ConvergesFromNext(lag, src);
      var next := LagStep(lag, src);
      if src != [] {
        StreamAligns(lag, src);
        AlignedMeansConverges(next, src);
      } else if next.target > lag.leader.store.prevIndex {
        PastTheLogExact(next, src);
      } else {
        ProbingExact(next, src);
      }
    } else {
      ProbingExact(lag, src);
    }
  }

  /** In particular, a leader that has compacted and whose snapshot file is not empty always catches its follower up. */
  lemma SnapshotAlwaysConverges(leader: NodeState, peer: NodeState, failedIndex: int, status: ResponseStatus,
                                 src: seq<byte>)
    requires Lagging(leader, peer) && leader.store.discIndex >= 1 && src != [] && failedIndex <= leader.store.prevIndex
    ensures Converges(Begin(leader, peer, failedIndex, status), src)
  {
    CatchUpConvergesExactly(Begin(leader, peer, failedIndex, status), src);
  }

  /** But a compaction that finds only finished jobs leaves the file empty. Then no follower that ends below the
      boundary is ever caught up, however often the loop runs. */
  lemma EmptySnapshotNeverConverges(leader: NodeState, peer: NodeState, failedIndex: int, status: ResponseStatus)
    requires Lagging(leader, peer) && peer.store.prevIndex < leader.store.discIndex
    ensures !Converges(Begin(leader, peer, failedIndex, status), [])
  {
    CatchUpConvergesExactly(Begin(leader, peer, failedIndex, status), []);
  }

  ghost predicate JumpsAtMost(lag: Lag, src: seq<byte>, bound: nat) {
    forall n: nat :: Iterate(lag, src, n).jumps <= bound
  }

  lemma JumpsFromNext(lag: Lag, src: seq<byte>, bound: nat)
    requires lag.jumps <= bound && JumpsAtMost(LagStep(lag, src), src, bound)
    ensures JumpsAtMost(lag, src, bound)
  {
    forall n: nat ensures Iterate(lag, src, n).jumps <= bound {
      if n > 0 {
        assert Iterate(lag, src, n) == Iterate(LagStep(lag, src), src, n - 1);
      }
    }
  }

  lemma AlignedJumps(lag: Lag, src: seq<byte>)
    requires Aligned(lag)
    ensures JumpsAtMost(lag, src, lag.jumps)
  {
    forall n: nat ensures Iterate(lag, src, n).jumps <= lag.jumps {
      AlignedNeverJumps(lag, src, n);
    }
  }

  lemma ProbingJumpsOnce(lag: Lag, src: seq<byte>)
    requires Probing(lag) && WillConverge(lag, src)
    ensures JumpsAtMost(lag, src, lag.jumps + 1)
  {
    var f, l, next := lag.peer.store, lag.leader.store, LagStep(lag, src);
    var bound := lag.jumps + 1;
    if lag.target - 1 == f.prevIndex {
      AlignedJumps(lag, src);
    } else if lag.target - 1 < f.prevIndex && lag.target != f.discIndex + 1 {
      ProbeInside(lag, src);
      AlignedJumps(next, src);
      JumpsFromNext(lag, src, bound);
    } else {
      if lag.target - 1 > f.prevIndex {
        ProbePastTheEnd(lag, src);
      } else {
        ProbeEmpties(lag, src);
      }
      if next.target > l.discIndex {
        AlignedJumps(next, src);
      } else {
        StreamAligns(next, src);
        AlignedJumps(LagStep(next, src), src);
        JumpsFromNext(next, src, bound);
      }
      JumpsFromNext(lag, src, bound);
    }
  }

  lemma FinishedJumps(lag: Lag, src: seq<byte>)
    requires lag.phase == Running && lag.leader.role == Leader && lag.target > lag.leader.store.prevIndex
    ensures JumpsAtMost(lag, src, lag.jumps)
  {
    forall n: nat ensures Iterate(lag, src, n).jumps <= lag.jumps {
      Finishes(lag, src, n);
    }
  }

  /** Whenever it converges, it has gone backwards at most once, so that one that jumps again never will. */
  lemma ConvergesWithOneJump(lag: Lag, src: seq<byte>)
    requires lag.phase == Running && Lagging(lag.leader, lag.peer) && WillConverge(lag, src)
    ensures JumpsAtMost(lag, src, lag.jumps + 1)
  {
    var next := LagStep(lag, src);
    if lag.target > lag.leader.store.prevIndex {
      FinishedJumps(lag, src);
    } else if Streams(lag) {
      if src != [] {
        StreamAligns(lag, src);
        AlignedJumps(next, src);
      } else if next.target > lag.leader.store.prevIndex {
        FinishedJumps(next, src);
      } else {
        ProbingJumpsOnce(next, src);
      }
      JumpsFromNext(lag, src, lag.jumps + 1);
    } else {
      ProbingJumpsOnce(lag, src);
    }
  }

  // ---------------------------------------------------------------- any peer, any leader

  /** The loop begins one before the index that failed, and never asks for an index below 1, whatever the logs are. */
  lemma {:induction false} TargetStaysPositive(leader: NodeState, peer: NodeState, failedIndex: int,
                                               status: ResponseStatus, src: seq<byte>, n: nat)
    requires leader.store.discIndex >= 0
    ensures var first := Begin(leader, peer, failedIndex, status).target;
            first >= 1 && first >= failedIndex - 1 && (first == 1 || first == failedIndex - 1)
    ensures var lag := Iterate(Begin(leader, peer, failedIndex, status), src, n);
            lag.phase == Running ==> lag.target >= 1
  {
    var lag := Begin(leader, peer, failedIndex, status);
    IteratePositive(lag, src, n);
  }

  lemma {:induction false} IteratePositive(lag: Lag, src: seq<byte>, n: nat)
    requires (lag.phase == Running ==> lag.target >= 1) && lag.leader.store.discIndex >= 0
    ensures Iterate(lag, src, n).phase == Running ==> Iterate(lag, src, n).target >= 1
    decreases n
  {
    if n > 0 {
      StepPositive(lag, src);
      IteratePositive(LagStep(lag, src), src, n - 1);
    }
  }

  lemma StepPositive(lag: Lag, src: seq<byte>)
    requires (lag.phase == Running ==> lag.target >= 1) && lag.leader.store.discIndex >= 0
    ensures var next := LagStep(lag, src);
            (next.phase == Running ==> next.target >= 1) && next.leader.store == lag.leader.store
  {
  }

  /** A peer in a higher term deposes the leader with the first answer that it gives, to a request or to a chunk, and is
      left as it was; a node that leads no more gives up without asking. */
  lemma HigherTermEndsCatchUp(lag: Lag, src: seq<byte>)
    requires lag.phase == Running && lag.target <= lag.leader.store.prevIndex
    ensures lag.leader.role != Leader ==> LagStep(lag, src) == lag.(phase := GaveUp)
    ensures lag.leader.role == Leader && lag.peer.currentTerm > lag.leader.currentTerm
            && (src != [] || !(lag.status == NeedsSnapshot || lag.target <= lag.leader.store.discIndex)) ==>
              var next := LagStep(lag, src);
              && next.phase == GaveUp && next.peer == lag.peer && next.leader.role == Follower
              && next.leader.currentTerm == lag.peer.currentTerm && next.leader.leaderId == None
              && next.leader.votedFor == lag.leader.votedFor && next.leader.store == lag.leader.store
  {
    if lag.leader.role == Leader && lag.status != NeedsSnapshot && lag.target > lag.leader.store.discIndex {
      AppendAnswersExactly(AsCoded, lag.peer, RequestAt(lag.leader, lag.target));
    }
  }

  // ---------------------------------------------------------------- the loop

  /** Finds the entry for the request, and the term of the entry before it, in the window read from the log. */
  method BuildRequest(leader: Node, target: int) returns (req: AppendRequest)
    ensures req == RequestAt(leader.State(), target)
  {
    var end := target + 1;
    if end > leader.storage.prevIndex + 1 {
      end := leader.storage.prevIndex + 1;
    }
    var window := leader.storage.Entries(target - 1, end);
    req := AppendRequest(leader.id, leader.currentTerm, 0, target - 1,
                         PrevLogTerm(leader.storage.Log(), target - 1), [], []);
    ghost var n := leader.State();
    for i := 0 to |window|
      invariant req == RequestFrom(n, window, i, target)
    {
      if window[i].index == target - 1 {
        req := req.(prevLogTerm := window[i].term);
      }
      if window[i].index == target {
        req := req.(index := window[i].index, schedulerId := window[i].schedulerId, payload := window[i].payload);
      }
    }
  }

  /** One more chunk: the first one may find a higher term at the peer. */
  lemma HearsNext(leader: NodeState, peer: NodeState, src: seq<byte>, offset: nat, req: SnapshotRequest)
    requires (offset == 0 || offset >= CHUNK_SIZE) && 0 < |req.data| <= CHUNK_SIZE && offset + |req.data| <= |src|
    requires req == ChunkOf(leader, src, offset + |req.data| == |src|).(offset := offset, data := req.data)
    requires peer.currentTerm <= leader.currentTerm
    ensures var before := if offset == 0 then peer else Heard(leader, peer, src, offset);
            && OnInstallSnapshot(before, req).0 == Heard(leader, peer, src, offset + |req.data|)
            && OnInstallSnapshot(before, req).1 <= leader.currentTerm
  {
  }

  /** One InstallSnapshot call. */
  method DeliverChunk(leader: Node, peer: Node, req: SnapshotRequest) returns (stepped: bool)
    requires peer.Valid() && leader != peer && leader.storage != peer.storage
    requires req.term < peer.currentTerm || req.offset == 0 || peer.storage.tempFile.Some?
    modifies leader, peer, peer.storage
    ensures peer.Valid() && peer.State() == OnInstallSnapshot(old(peer.State()), req).0
    ensures (leader.State(), stepped) == CheckStepDown(old(leader.State()), OnInstallSnapshot(old(peer.State()), req).1)
    ensures req.term >= old(peer.currentTerm) && !req.done ==> peer.storage.tempFile.Some?
  {
    var term, installed := peer.InstallSnapshot(req);
    stepped := leader.StepDownIfBehind(term);
  }

  /** What has become of the peer after `offset` bytes of a transfer that has not been given up. */
  ghost predicate Streaming(leader: Node, peer: Node, src: seq<byte>, offset: nat, lag: Lag)
    reads leader, leader.storage, peer, peer.storage
  {
    && offset <= |src| && leader.State() == lag.leader && (0 < offset < |src| ==> offset >= CHUNK_SIZE)
    && if offset == 0 then peer.State() == lag.peer
       else lag.peer.currentTerm <= leader.currentTerm && (offset < |src| ==> peer.storage.tempFile.Some?)
            && peer.State() == Heard(lag.leader, lag.peer, src, offset)
  }

  /** One round of its loop. */
  method SendNext(leader: Node, peer: Node, src: seq<byte>, offset: nat, lastIndex: int, lastTerm: int, ghost lag: Lag)
    returns (stepped: bool, next: nat)
    requires peer.Valid() && leader != peer && leader.storage != peer.storage
    requires Streaming(leader, peer, src, offset, lag) && offset < |src|
    requires lastIndex == leader.storage.discIndex && lastTerm == leader.storage.discTerm
    modifies leader, peer, peer.storage
    ensures peer.Valid() && offset < next <= |src|
    ensures !stepped ==> Streaming(leader, peer, src, next, lag) && lag.peer.currentTerm <= lag.leader.currentTerm
    ensures stepped ==> lag.peer.currentTerm > lag.leader.currentTerm && peer.State() == lag.peer
    ensures stepped ==> leader.State() == CheckStepDown(lag.leader, lag.peer.currentTerm).0
  {
    var bytesRead := if |src| - offset < CHUNK_SIZE then |src| - offset else CHUNK_SIZE;
    var done := offset + bytesRead >= |src|;
    var req := SnapshotRequest(leader.id, leader.currentTerm, lastIndex, lastTerm, offset,
                               src[offset..offset + bytesRead], done);
    next := offset + bytesRead;
    if lag.peer.currentTerm <= leader.currentTerm {
      HearsNext(lag.leader, lag.peer, src, offset, req);
    }
    stepped := DeliverChunk(leader, peer, req);
  }

  /** sendSnapshotToPeer, on nodes: every read fills the buffer or reaches the end of the file, every chunk is
      delivered, and its answer may depose the leader. */
  method StreamSnapshot(leader: Node, peer: Node, src: seq<byte>, ghost lag: Lag) returns (ok: bool)
    requires peer.Valid() && leader != peer && leader.storage != peer.storage
    requires lag.phase == Running && lag.leader == leader.State() && lag.peer == peer.State()
    modifies leader, peer, peer.storage
    ensures peer.Valid()
    ensures leader.State() == Stream(lag, src).leader && peer.State() == Stream(lag, src).peer
    ensures ok <==> Stream(lag, src).phase == Running
  {
    var lastIndex, lastTerm := leader.storage.discIndex, leader.storage.discTerm;
    var offset := 0;
    while offset < |src|
      invariant peer.Valid() && Streaming(leader, peer, src, offset, lag)
      invariant lastIndex == leader.storage.discIndex && lastTerm == leader.storage.discTerm
    {
      var stepped;
      stepped, offset := SendNext(leader, peer, src, offset, lastIndex, lastTerm, lag);
      if stepped {
        return false;
      }
    }
    ok := true;
  }

  /** One AppendEntries call of the loop, and what its answer does to the target. */
  method ProbePeer(leader: Node, peer: Node, from: int, before: ResponseStatus, ghost lag: Lag)
    returns (target: int, status: ResponseStatus, phase: Phase, ghost jumps: nat)
    requires peer.Valid() && leader != peer && leader.storage != peer.storage
    requires lag.phase == Running && lag.leader == leader.State() && lag.peer == peer.State()
    requires lag.target == from && lag.status == before
    modifies leader, peer, peer.storage
    ensures peer.Valid() && Lag(leader.State(), peer.State(), target, status, phase, jumps) == Probe(lag)
  {
    target, status, phase, jumps := from, before, Running, lag.jumps;
    var req := BuildRequest(leader, target);
    var resp := peer.AppendEntries(req);
    if resp.status == Success {
      target, status := target + 1, Success;
      return;
    }
    var stepped := leader.StepDownIfBehind(resp.prevLogTerm);
    if stepped {
      phase := GaveUp;
      return;
    }
    status := resp.status;
    if status == BadPayload {
      if resp.prevLogIndex >= 0 && resp.prevLogIndex < target - 1 {
        target := resp.prevLogIndex + 1;
      } else {
        target := target - 1;
      }
      jumps := jumps + 1;
      if target < 1 {
        phase := GaveUp;
      }
    }
  }

  method ResolvePeerLag(leader: Node, peer: Node, src: seq<byte>, failedIndex: int, initial: ResponseStatus,
                        budget: nat)
    returns (phase: Phase)
    requires leader.Valid() && peer.Valid() && leader != peer && leader.storage != peer.storage
    modifies leader, peer, peer.storage
    ensures peer.Valid()
    ensures var end := Iterate(Begin(old(leader.State()), old(peer.State()), failedIndex, initial), src, budget);
            leader.State() == end.leader && peer.State() == end.peer && phase == end.phase
  {
    var target, status := failedIndex - 1, initial;
    if target < 1 {
      target := 1;
    }
    phase := Running;
    ghost var jumps := 0;
    ghost var first := Begin(leader.State(), peer.State(), failedIndex, initial);
    for i := 0 to budget
      invariant leader.Valid() && peer.Valid()
      invariant Iterate(Lag(leader.State(), peer.State(), target, status, phase, jumps), src, budget - i)
                == Iterate(first, src, budget)
    {
      ghost var lag := Lag(leader.State(), peer.State(), target, status, phase, jumps);
      ghost var next := LagStep(lag, src);
      assert Iterate(lag, src, budget - i) == Iterate(next, src, budget - i - 1);
      if phase != Running {
        continue;
      }
      if leader.role != Leader {
        phase := GaveUp;
      } else if target > leader.storage.prevIndex {
        phase := CaughtUp;
      } else if status == NeedsSnapshot || target <= leader.storage.discIndex {
        var ok := StreamSnapshot(leader, peer, src, lag);
        if ok {
          target, status := leader.storage.discIndex + 1, Success;
        } else {
          phase := GaveUp;
        }
      } else {
        target, status, phase, jumps := ProbePeer(leader, peer, target, status, lag);
      }
      assert Lag(leader.State(), peer.State(), target, status, phase, jumps) == next;
    }
  }
}
