/** The leader's compare-and-swap guard (checkCASConflict of internal/consensus/service/serve.go) over the backward
    search of the log (QueryEntries of internal/consensus/filesystem/reader.go).

    A check and the append that follows it are one step here. Module ClaimQueue takes them apart, as the source does. */
module ClaimGuard {
  import opened Codec
  import opened Payloads
  import opened Wrappers

  // ---------------------------------------------------------------- searching the log

  function IdOf(parse: Parser, e: LogEntry): string {
    if parse(e.payload).Object? then TextOf(parse(e.payload).id) else ""
  }

  predicate MatchesScheduler(e: LogEntry, schedulerId: Option<seq<byte>>) {
    schedulerId.Some? ==> e.schedulerId == schedulerId.value
  }

  /** An entry the search looks at: readable for the file system layer, from the right scheduler, of the right id. */
  predicate Matches(parse: Parser, e: LogEntry, schedulerId: Option<seq<byte>>, payloadId: Option<string>) {
    && MatchesScheduler(e, schedulerId)
    && IsGeneric(parse(e.payload))
    && (payloadId.Some? ==> IdOf(parse, e) == payloadId.value)
  }

  /** The entry at `i` is the latest one of its id, among those that match. */
  ghost predicate IsLatestOfId(parse: Parser, es: seq<LogEntry>, schedulerId: Option<seq<byte>>,
                               payloadId: Option<string>, i: nat) {
    && i < |es| && Matches(parse, es[i], schedulerId, payloadId)
    && forall j :: i < j < |es| && Matches(parse, es[j], schedulerId, payloadId) ==>
         IdOf(parse, es[j]) != IdOf(parse, es[i])
  }

  /** QueryEntries: the latest matching entry of every id, latest first; nothing when no filter is given. */
  method QueryEntries(parse: Parser, es: seq<LogEntry>, schedulerId: Option<seq<byte>>, payloadId: Option<string>)
    returns (results: seq<LogEntry>, at: seq<nat>)
    ensures |at| == |results| && forall k :: 0 <= k < |at| ==> at[k] < |es| && results[k] == es[at[k]]
    ensures forall k, l :: 0 <= k < l < |at| ==> at[k] > at[l]
    ensures schedulerId.None? && payloadId.None? ==> results == []
    ensures schedulerId.Some? || payloadId.Some? ==>
              forall i: nat :: i in at <==> IsLatestOfId(parse, es, schedulerId, payloadId, i)
    ensures forall k :: 0 <= k < |results| ==> IsGeneric(parse(results[k].payload))
    ensures schedulerId.Some? ==> forall k :: 0 <= k < |results| ==> results[k].schedulerId == schedulerId.value
    ensures payloadId.Some? ==> forall k :: 0 <= k < |results| ==> IdOf(parse, results[k]) == payloadId.value
    ensures forall k, l :: 0 <= k < l < |results| ==> IdOf(parse, results[k]) != IdOf(parse, results[l])
    ensures schedulerId.Some? || payloadId.Some? ==>
              forall j :: 0 <= j < |es| && IsGeneric(parse(es[j].payload))
                          && (schedulerId.Some? ==> es[j].schedulerId == schedulerId.value)
                          && (payloadId.Some? ==> IdOf(parse, es[j]) == payloadId.value) ==>
                exists k :: 0 <= k < |at| && at[k] >= j && IdOf(parse, results[k]) == IdOf(parse, es[j])
  {
    if schedulerId.None? && payloadId.None? {
      return [], [];
    }
    results, at := ScanBackwards(parse, es, schedulerId, payloadId);
    FoundIsSearched(parse, es, schedulerId, payloadId, results, at);
  }

  /** Its loop. */
  method ScanBackwards(parse: Parser, es: seq<LogEntry>, schedulerId: Option<seq<byte>>, payloadId: Option<string>)
    returns (results: seq<LogEntry>, at: seq<nat>)
    ensures |at| == |results| && forall k :: 0 <= k < |at| ==> at[k] < |es| && results[k] == es[at[k]]
    ensures forall k, l :: 0 <= k < l < |at| ==> at[k] > at[l]
    ensures forall i: nat :: i in at <==> IsLatestOfId(parse, es, schedulerId, payloadId, i)
  {
    results, at := [], [];
    var found: set<string> := {};
    for i := |es| downto 0
      invariant |at| == |results| && forall k :: 0 <= k < |at| ==> i <= at[k] < |es| && results[k] == es[at[k]]
      invariant forall k, l :: 0 <= k < l < |at| ==> at[k] > at[l]
      invariant forall id :: id in found <==>
                  exists j :: i <= j < |es| && Matches(parse, es[j], schedulerId, payloadId) && IdOf(parse, es[j]) == id
      invariant forall j: nat :: j in at <==> i <= j && IsLatestOfId(parse, es, schedulerId, payloadId, j)
      invariant payloadId.Some? ==> found == {}
    {
      if !Matches(parse, es[i], schedulerId, payloadId) {
        continue;
      }
      var id := IdOf(parse, es[i]);
      if id !in found {
        found, results, at := found + {id}, results + [es[i]], at + [i];
        if payloadId.Some? {
          break;
        }
      }
    }
  }

  /** Every result is what was asked for, no identifier comes twice, and each that was asked for has a result that is at
      least as late. */
  lemma FoundIsSearched(parse: Parser, es: seq<LogEntry>, schedulerId: Option<seq<byte>>, payloadId: Option<string>,
                        results: seq<LogEntry>, at: seq<nat>)
    requires |at| == |results| && forall k :: 0 <= k < |at| ==> at[k] < |es| && results[k] == es[at[k]]
    requires forall k, l :: 0 <= k < l < |at| ==> at[k] > at[l]
    requires forall i: nat :: i in at <==> IsLatestOfId(parse, es, schedulerId, payloadId, i)
    ensures forall k :: 0 <= k < |results| ==> Matches(parse, results[k], schedulerId, payloadId)
    ensures forall k, l :: 0 <= k < l < |results| ==> IdOf(parse, results[k]) != IdOf(parse, results[l])
    ensures forall j :: 0 <= j < |es| && Matches(parse, es[j], schedulerId, payloadId) ==>
              exists k :: 0 <= k < |at| && at[k] >= j && IdOf(parse, results[k]) == IdOf(parse, es[j])
  {
    forall k | 0 <= k < |at| ensures IsLatestOfId(parse, es, schedulerId, payloadId, at[k]) {
      assert at[k] in at;
    }
    forall j | 0 <= j < |es| && Matches(parse, es[j], schedulerId, payloadId)
      ensures exists k :: 0 <= k < |at| && at[k] >= j && IdOf(parse, results[k]) == IdOf(parse, es[j])
    {
      var i := LatestAfterwards(parse, es, schedulerId, payloadId, j);
      assert i in at;
      var k :| 0 <= k < |at| && at[k] == i;
    }
  }

  lemma LatestAfterwards(parse: Parser, es: seq<LogEntry>, schedulerId: Option<seq<byte>>, payloadId: Option<string>,
                         j: nat) returns (i: nat)
    requires j < |es| && Matches(parse, es[j], schedulerId, payloadId)
    ensures i >= j && IsLatestOfId(parse, es, schedulerId, payloadId, i) && IdOf(parse, es[i]) == IdOf(parse, es[j])
    decreases |es| - j
  {
    if k :| j < k < |es| && Matches(parse, es[k], schedulerId, payloadId) && IdOf(parse, es[k]) == IdOf(parse, es[j]) {
      i := LatestAfterwards(parse, es, schedulerId, payloadId, k);
    } else {
      i := j;
    }
  }

  // ---------------------------------------------------------------- the guard

  datatype Conflict = NoConflict | ConcurrentClaim | DuplicateSchedulerEvent

  const HEARTBEAT_FAILED := "HeartbeatFailed"
  const REDISTRIBUTED_JOBS := "RedistributedJobs"
  const RATE_LIMIT_MILLIS := 5000

  predicate IsJobClaim(d: Document) {
    d.Object? && d.state.Number? && d.state.n >= 0
  }

  predicate IsSchedulerEvent(d: Document) {
    d.Object? && !d.entry.Absent? && !d.entry.Null?
  }

  predicate IsHerdEvent(d: Document) {
    IsSchedulerEvent(d) && Shown(d.entry) in {HEARTBEAT_FAILED, REDISTRIBUTED_JOBS, "2", "3"}
  }

  function Timestamp(d: Document): int
    requires d.Object?
  {
    if d.timestamp.Number? then d.timestamp.n else 0
  }

  /** The difference of two int64 timestamps, as int64. */
  function Elapsed(later: int, earlier: int): int {
    (later - earlier + TWO_63) % TWO_64 - TWO_63
  }

  predicate SameClaim(current: Document, incoming: Document) {
    IsJobClaim(current) && IsJobClaim(incoming) && current.state == incoming.state
  }

  predicate SameEvent(current: Document, incoming: Document) {
    && IsHerdEvent(incoming) && IsSchedulerEvent(current) && Shown(incoming.entry) == Shown(current.entry)
    && -RATE_LIMIT_MILLIS < Elapsed(Timestamp(incoming), Timestamp(current)) < RATE_LIMIT_MILLIS
  }

  /** The latest readable entry of `id` among the first `n`. */
  function LatestOf(parse: Parser, es: seq<LogEntry>, n: nat, id: string): (r: Option<nat>)
    requires n <= |es|
    ensures r.None? ==> forall j :: 0 <= j < n ==> !Matches(parse, es[j], None, Some(id))
    ensures r.Some? ==> r.value < n && Matches(parse, es[r.value], None, Some(id))
                        && forall j :: r.value < j < n ==> !Matches(parse, es[j], None, Some(id))
  {
    if n == 0 then None
    else if Matches(parse, es[n - 1], None, Some(id)) then Some(n - 1)
    else LatestOf(parse, es, n - 1, id)
  }

  function CheckConflict(parse: Parser, es: seq<LogEntry>, payload: seq<byte>): Conflict {
    var incoming := parse(payload);
    if !IsClaim(incoming) || TextOf(incoming.id) == "" then NoConflict else
    if !IsJobClaim(incoming) && !IsSchedulerEvent(incoming) then NoConflict else
    match LatestOf(parse, es, |es|, TextOf(incoming.id))
    case None => NoConflict
    case Some(i) =>
      var current := parse(es[i].payload);
      if !IsClaim(current) then NoConflict
      else if SameClaim(current, incoming) then ConcurrentClaim
      else if SameEvent(current, incoming) then DuplicateSchedulerEvent
      else NoConflict
  }

  method CheckCASConflict(parse: Parser, es: seq<LogEntry>, payload: seq<byte>) returns (r: Conflict)
    ensures r == CheckConflict(parse, es, payload)
  {
    var incoming := parse(payload);
    if !IsClaim(incoming) || TextOf(incoming.id) == "" {
      return NoConflict;
    }
    if !IsJobClaim(incoming) && !IsSchedulerEvent(incoming) {
      return NoConflict;
    }
    ghost var latest := LatestOf(parse, es, |es|, TextOf(incoming.id));
    var existing, at := QueryEntries(parse, es, None, Some(TextOf(incoming.id)));
    if latest.Some? {
      assert IsLatestOfId(parse, es, None, Some(TextOf(incoming.id)), latest.value);
      assert latest.value in at;
    }
    if |existing| == 0 {
      return NoConflict;
    }
    assert IsLatestOfId(parse, es, None, Some(TextOf(incoming.id)), at[0]);
    var current := parse(existing[0].payload);
    if !IsClaim(current) {
      return NoConflict;
    }
    if SameClaim(current, incoming) {
      return ConcurrentClaim;
    }
    if SameEvent(current, incoming) {
      return DuplicateSchedulerEvent;
    }
    r := NoConflict;
  }

  // ---------------------------------------------------------------- the decision, field by field

  /** The latest entry about `id` that the log search can read. */
  ghost predicate LatestReadable(parse: Parser, es: seq<LogEntry>, id: string, i: nat) {
    && i < |es| && IsGeneric(parse(es[i].payload)) && parse(es[i].payload).id == Text(id)
    && forall j :: i < j < |es| && IsGeneric(parse(es[j].payload)) ==> parse(es[j].payload).id != Text(id)
  }

  /** An `entry` as text, or as the number of the event. */
  predicate Names(entry: Field, name: string) {
    entry == Text(name) || (entry == Number(2) && name == "2") || (entry == Number(3) && name == "3")
  }

  ghost predicate NamesSameCascade(d: Document, e: Document)
    requires d.Object? && e.Object?
  {
    exists name :: && name in {"HeartbeatFailed", "RedistributedJobs", "2", "3"}
                   && Names(d.entry, name) && Names(e.entry, name)
  }

  function MillisOf(d: Document): int
    requires d.Object?
  {
    if d.timestamp.Number? then d.timestamp.n else 0
  }

  /** Less than five seconds apart, in the arithmetic of int64. */
  ghost predicate CloseTogether(s: int, t: int) {
    exists wraps: int :: -5000 < s - t - wraps * TWO_64 < 5000
  }

  lemma CloseIsElapsed(s: int, t: int)
    ensures CloseTogether(s, t) <==> -5000 < Elapsed(s, t) < 5000
  {
    var wraps := (s - t + TWO_63) / TWO_64;
    assert s - t - wraps * TWO_64 == Elapsed(s, t);
    if CloseTogether(s, t) {
      var other: int :| -5000 < s - t - other * TWO_64 < 5000;
      assert s - t + TWO_63 == (s - t - other * TWO_64 + TWO_63) + other * TWO_64;
      assert (s - t + TWO_63) % TWO_64 == s - t - other * TWO_64 + TWO_63;
    }
  }

  /** The guard's decision about a submission with an identifier, on any log: a concurrent claim, if both it and the
      latest readable entry about the identifier carry the same state, zero or more; otherwise a duplicate event, if
      both name the same one of the four cascading events less than five seconds apart; otherwise no conflict. An entry
      that the guard cannot read is none either. */
  lemma ConflictExactly(parse: Parser, es: seq<LogEntry>, payload: seq<byte>, id: string, i: nat)
    requires IsClaim(parse(payload)) && parse(payload).id == Text(id) && id != "" && LatestReadable(parse, es, id, i)
    ensures var d, c := parse(payload), parse(es[i].payload);
            CheckConflict(parse, es, payload)
            == if !IsClaim(c) then NoConflict
               else if d.state.Number? && c.state.Number? && d.state.n == c.state.n >= 0 then ConcurrentClaim
               else if NamesSameCascade(d, c) && CloseTogether(MillisOf(d), MillisOf(c)) then DuplicateSchedulerEvent
               else NoConflict
  {
    var d, c := parse(payload), parse(es[i].payload);
    ReadableIsLatest(parse, es, id, i);
    CloseIsElapsed(MillisOf(d), MillisOf(c));
    CascadeIsHerd(d, c);
  }

  lemma ReadableIsLatest(parse: Parser, es: seq<LogEntry>, id: string, i: nat)
    requires id != "" && LatestReadable(parse, es, id, i)
    ensures LatestOf(parse, es, |es|, id) == Some(i)
  {
    assert Matches(parse, es[i], None, Some(id));
    var found := LatestOf(parse, es, |es|, id);
    assert found.value >= i;
    assert parse(es[found.value].payload).id == Text(id);
  }

  lemma CascadeIsHerd(d: Document, e: Document)
    requires d.Object? && e.Object?
    ensures NamesSameCascade(d, e) <==> IsHerdEvent(d) && IsSchedulerEvent(e) && Shown(d.entry) == Shown(e.entry)
  {
    if IsHerdEvent(d) && IsSchedulerEvent(e) && Shown(d.entry) == Shown(e.entry) {
      assert Names(d.entry, Shown(d.entry)) && Names(e.entry, Shown(d.entry));
    }
  }

  /** And about all others: no conflict, if the guard cannot read them, they have no identifier, or the search can read
      nothing about it. */
  lemma NoConflictOtherwise(parse: Parser, es: seq<LogEntry>, payload: seq<byte>)
    requires IsClaim(parse(payload)) && parse(payload).id.Text? && parse(payload).id.s != "" ==>
               forall i: nat :: !LatestReadable(parse, es, parse(payload).id.s, i)
    ensures CheckConflict(parse, es, payload) == NoConflict
  {
    if IsClaim(parse(payload)) && TextOf(parse(payload).id) != "" {
      var id := parse(payload).id.s;
      var found := LatestOf(parse, es, |es|, id);
      if found.Some? {
        assert LatestReadable(parse, es, id, found.value) by {
          forall j | found.value < j < |es| && IsGeneric(parse(es[j].payload))
            ensures parse(es[j].payload).id != Text(id)
          {
            assert !Matches(parse, es[j], None, Some(id));
          }
        }
      }
    }
  }

  // ---------------------------------------------------------------- repeats

  /** An entry that says something of the job `id` to whoever peeks at it as the guard does. */
  predicate ClaimsFor(parse: Parser, e: LogEntry, id: string) {
    IsClaim(parse(e.payload)) && IdOf(parse, e) == id != ""
  }

  /** Neighbours in the subsequence of the entries about one id. */
  ghost predicate Neighbours(parse: Parser, es: seq<LogEntry>, i: nat, j: nat) {
    && i < j < |es|
    && ClaimsFor(parse, es[i], IdOf(parse, es[j])) && ClaimsFor(parse, es[j], IdOf(parse, es[j]))
    && forall k :: i < k < j ==> !ClaimsFor(parse, es[k], IdOf(parse, es[j]))
  }

  /** The same non-negative job state again, or the same cascading event again within five seconds. */
  predicate Repeats(parse: Parser, a: LogEntry, b: LogEntry) {
    var current, incoming := parse(a.payload), parse(b.payload);
    IsClaim(current) && IsClaim(incoming) && (SameClaim(current, incoming) || SameEvent(current, incoming))
  }

  ghost predicate NoRepeats(parse: Parser, es: seq<LogEntry>) {
    forall i: nat, j: nat :: Neighbours(parse, es, i, j) ==> !Repeats(parse, es[i], es[j])
  }

  /** The latest entry about `id` among the first `n`, which need not be one that the log search can read. */
  function LatestClaim(parse: Parser, es: seq<LogEntry>, n: nat, id: string): (r: Option<nat>)
    requires n <= |es|
    ensures r.None? ==> forall j :: 0 <= j < n ==> !ClaimsFor(parse, es[j], id)
    ensures r.Some? ==> r.value < n && ClaimsFor(parse, es[r.value], id)
                        && forall j :: r.value < j < n ==> !ClaimsFor(parse, es[j], id)
  {
    if n == 0 then None
    else if ClaimsFor(parse, es[n - 1], id) then Some(n - 1)
    else LatestClaim(parse, es, n - 1, id)
  }

  /** `e` repeats the latest entry about its id. */
  predicate Redundant(parse: Parser, es: seq<LogEntry>, e: LogEntry) {
    var latest := LatestClaim(parse, es, |es|, IdOf(parse, e));
    ClaimsFor(parse, e, IdOf(parse, e)) && latest.Some? && Repeats(parse, es[latest.value], e)
  }

  /** What the search finds for the id of `e` is not the latest entry about that id: there is nothing it can read, or
      it finds a later entry that the guard cannot read, or an earlier one that `e` does not repeat. */
  predicate Overlooked(parse: Parser, es: seq<LogEntry>, e: LogEntry) {
    var id := IdOf(parse, e);
    match (LatestOf(parse, es, |es|, id), LatestClaim(parse, es, |es|, id))
    case (Some(found), Some(latest)) => found > latest || (found < latest && !Repeats(parse, es[found], e))
    case (None, Some(_)) => true
    case _ => false
  }

  /** On any log, a submission that repeats the latest entry about its id gets through exactly when that entry is
      overlooked. */
  lemma RedundantPassesExactly(parse: Parser, es: seq<LogEntry>, e: LogEntry)
    requires Redundant(parse, es, e)
    ensures CheckConflict(parse, es, e.payload) == NoConflict <==> Overlooked(parse, es, e)
  {
    var id := IdOf(parse, e);
    var found, latest := LatestOf(parse, es, |es|, id), LatestClaim(parse, es, |es|, id).value;
    if found.Some? && found.value > latest {
      assert !ClaimsFor(parse, es[found.value], id);
    }
  }

  lemma NeighboursOfPrefix(parse: Parser, es: seq<LogEntry>, e: LogEntry, i: nat, j: nat)
    requires j < |es|
    ensures Neighbours(parse, es + [e], i, j) <==> Neighbours(parse, es, i, j)
  {
    assert forall k :: 0 <= k < |es| ==> (es + [e])[k] == es[k];
  }

  lemma RedundantExactly(parse: Parser, es: seq<LogEntry>, e: LogEntry)
    requires NoRepeats(parse, es)
    ensures NoRepeats(parse, es + [e]) <==> !Redundant(parse, es, e)
  {
    var all, n := es + [e], |es|;
    var latest := LatestClaim(parse, es, n, IdOf(parse, e));
    assert forall k :: 0 <= k < n ==> all[k] == es[k];
    forall i: nat, j: nat | Neighbours(parse, all, i, j)
      ensures j < n ==> !Repeats(parse, all[i], all[j])
      ensures j == n ==> latest == Some(i)
    {
      if j < n {
        NeighboursOfPrefix(parse, es, e, i, j);
      } else {
        assert i <= latest.value;
      }
    }
    if ClaimsFor(parse, e, IdOf(parse, e)) && latest.Some? {
      assert Neighbours(parse, all, latest.value, n);
    }
  }

  /** What the guard lets through makes a repeat exactly when it is redundant and what it repeats is overlooked; where
      the search finds the latest entry about the id, the guard turns away repeats and nothing else. */
  lemma GuardIsExact(parse: Parser, es: seq<LogEntry>, e: LogEntry)
    requires NoRepeats(parse, es)
    ensures CheckConflict(parse, es, e.payload) == NoConflict ==>
              (NoRepeats(parse, es + [e]) <==> !(Redundant(parse, es, e) && Overlooked(parse, es, e)))
    ensures LatestOf(parse, es, |es|, IdOf(parse, e)) == LatestClaim(parse, es, |es|, IdOf(parse, e)) ==>
              (CheckConflict(parse, es, e.payload) == NoConflict <==> NoRepeats(parse, es + [e]))
  {
    RedundantExactly(parse, es, e);
    if Redundant(parse, es, e) {
      RedundantPassesExactly(parse, es, e);
    }
  }

  // ---------------------------------------------------------------- whole runs

  /** The leader's retained log: a submission is checked and appended, a rotation drops a prefix, a truncation keeps
      one. */
  datatype Act = Submit(e: LogEntry) | Rotate(dropped: nat) | Truncate(kept: nat)

  function Perform(parse: Parser, es: seq<LogEntry>, act: Act): seq<LogEntry> {
    match act
    case Submit(e) => if CheckConflict(parse, es, e.payload) == NoConflict then es + [e] else es
    case Rotate(n) => if n <= |es| then es[n..] else es
    case Truncate(n) => if n <= |es| then es[..n] else es
  }

  lemma SliceKeepsNoRepeats(parse: Parser, es: seq<LogEntry>, lo: nat, hi: nat)
    requires NoRepeats(parse, es) && lo <= hi <= |es|
    ensures NoRepeats(parse, es[lo..hi])
  {
    var part := es[lo..hi];
    forall i: nat, j: nat | Neighbours(parse, part, i, j) ensures !Repeats(parse, part[i], part[j]) {
      assert forall k :: lo + i < k < lo + j ==> es[k] == part[k - lo];
      assert Neighbours(parse, es, lo + i, lo + j);
    }
  }

  function PerformAll(parse: Parser, es: seq<LogEntry>, acts: seq<Act>): seq<LogEntry> {
    if acts == [] then es else Perform(parse, PerformAll(parse, es, acts[..|acts| - 1]), acts[|acts| - 1])
  }

  /** The act after the first `n` is a redundant submission whose model is overlooked. */
  predicate Slips(parse: Parser, acts: seq<Act>, n: nat) {
    && n < |acts| && acts[n].Submit?
    && var es := PerformAll(parse, [], acts[..n]);
       Redundant(parse, es, acts[n].e) && Overlooked(parse, es, acts[n].e)
  }

  lemma PerformMore(parse: Parser, acts: seq<Act>, n: nat)
    requires n < |acts|
    ensures PerformAll(parse, [], acts[..n + 1]) == Perform(parse, PerformAll(parse, [], acts[..n]), acts[n])
  {
    assert acts[..n + 1][..n] == acts[..n];
  }

  lemma PerformKeepsNoRepeats(parse: Parser, es: seq<LogEntry>, act: Act)
    requires NoRepeats(parse, es)
    requires act.Submit? ==> !(Redundant(parse, es, act.e) && Overlooked(parse, es, act.e))
    ensures NoRepeats(parse, Perform(parse, es, act))
  {
    match act {
      case Submit(e) => GuardIsExact(parse, es, e);
      case Rotate(n) =>
        if n <= |es| {
          SliceKeepsNoRepeats(parse, es, n, |es|);
          assert es[n..|es|] == es[n..];
        }
      case Truncate(n) =>
        if n <= |es| {
          SliceKeepsNoRepeats(parse, es, 0, n);
          assert es[0..n] == es[..n];
        }
    }
  }

  lemma {:induction false} NoSlipNoRepeats(parse: Parser, acts: seq<Act>, n: nat)
    requires n <= |acts| && forall k: nat :: k < n ==> !Slips(parse, acts, k)
    ensures NoRepeats(parse, PerformAll(parse, [], acts[..n]))
  {
    if n > 0 {
      NoSlipNoRepeats(parse, acts, n - 1);
      PerformMore(parse, acts, n - 1);
      assert !Slips(parse, acts, n - 1);
      PerformKeepsNoRepeats(parse, PerformAll(parse, [], acts[..n - 1]), acts[n - 1]);
    }
  }

  /** The leader's retained log stays free of repeats all through a run exactly when no submission slips past. */
  lemma NoRunRepeatsExactly(parse: Parser, acts: seq<Act>)
    ensures (forall n: nat :: n <= |acts| ==> NoRepeats(parse, PerformAll(parse, [], acts[..n])))
            <==> forall n: nat :: !Slips(parse, acts, n)
  {
    if forall n: nat :: !Slips(parse, acts, n) {
      forall n: nat | n <= |acts| ensures NoRepeats(parse, PerformAll(parse, [], acts[..n])) {
        NoSlipNoRepeats(parse, acts, n);
      }
    }
    if forall n: nat :: n <= |acts| ==> NoRepeats(parse, PerformAll(parse, [], acts[..n])) {
      forall n: nat ensures !Slips(parse, acts, n) {
        if Slips(parse, acts, n) {
          var es, e := PerformAll(parse, [], acts[..n]), acts[n].e;
          RedundantPassesExactly(parse, es, e);
          RedundantExactly(parse, es, e);
          PerformMore(parse, acts, n);
        }
      }
    }
  }

  // ---------------------------------------------------------------- runs of plain documents

  /** Readable for the guard exactly when readable for the log search. */
  predicate IsPlain(parse: Parser, e: LogEntry) {
    IsGeneric(parse(e.payload)) <==> IsClaim(parse(e.payload))
  }

  ghost predicate AllPlain(parse: Parser, es: seq<LogEntry>) {
    forall k :: 0 <= k < |es| ==> IsPlain(parse, es[k])
  }

  lemma {:induction false} PlainLogIsSearchedRight(parse: Parser, es: seq<LogEntry>, n: nat, id: string)
    requires n <= |es| && AllPlain(parse, es) && id != ""
    ensures LatestOf(parse, es, n, id) == LatestClaim(parse, es, n, id)
  {
    if n > 0 {
      PlainLogIsSearchedRight(parse, es, n - 1, id);
    }
  }

  lemma {:induction false} RunOfPlainIsPlain(parse: Parser, acts: seq<Act>)
    requires forall k :: 0 <= k < |acts| && acts[k].Submit? ==> IsPlain(parse, acts[k].e)
    ensures AllPlain(parse, PerformAll(parse, [], acts))
  {
    if acts != [] {
      RunOfPlainIsPlain(parse, acts[..|acts| - 1]);
    }
  }

  /** When every document submitted is plain, the retained log never comes to hold a repeat, and the guard turns a
      submission away exactly when it would make one. */
  lemma PlainRunsNeverRepeat(parse: Parser, acts: seq<Act>, e: LogEntry)
    requires forall k :: 0 <= k < |acts| && acts[k].Submit? ==> IsPlain(parse, acts[k].e)
    ensures NoRepeats(parse, PerformAll(parse, [], acts))
    ensures CheckConflict(parse, PerformAll(parse, [], acts), e.payload) == NoConflict
            <==> NoRepeats(parse, PerformAll(parse, [], acts) + [e])
  {
    forall n: nat ensures !Slips(parse, acts, n) {
      if Slips(parse, acts, n) {
        RunOfPlainIsPlain(parse, acts[..n]);
        var es := PerformAll(parse, [], acts[..n]);
        PlainLogIsSearchedRight(parse, es, |es|, IdOf(parse, acts[n].e));
      }
    }
    NoRunRepeatsExactly(parse, acts);
    assert acts[..|acts|] == acts;
    var log := PerformAll(parse, [], acts);
    if IdOf(parse, e) != "" {
      RunOfPlainIsPlain(parse, acts);
      PlainLogIsSearchedRight(parse, log, |log|, IdOf(parse, e));
      GuardIsExact(parse, log, e);
    } else {
      RedundantExactly(parse, log, e);
    }
  }

  // ---------------------------------------------------------------- the documents that keep runs free of repeats

  ghost predicate SubmitsOnly(acts: seq<Act>, allowed: LogEntry -> bool) {
    forall k :: 0 <= k < |acts| && acts[k].Submit? ==> allowed(acts[k].e)
  }

  /** Every document that could be repeated can be read by the log search, and the search reads no document of its id
      that the guard cannot read. */
  ghost predicate RepeatableAreSeen(parse: Parser, allowed: LogEntry -> bool) {
    forall e: LogEntry :: allowed(e) && ClaimsFor(parse, e, IdOf(parse, e)) && Repeats(parse, e, e) ==>
      && IsGeneric(parse(e.payload))
      && forall h: LogEntry :: allowed(h) && IdOf(parse, h) == IdOf(parse, e) && IsGeneric(parse(h.payload)) ==>
           IsClaim(parse(h.payload))
  }

  lemma {:induction false} RunHoldsOnlyAllowed(parse: Parser, acts: seq<Act>, allowed: LogEntry -> bool)
    requires SubmitsOnly(acts, allowed)
    ensures forall k :: 0 <= k < |PerformAll(parse, [], acts)| ==> allowed(PerformAll(parse, [], acts)[k])
  {
    if acts != [] {
      RunHoldsOnlyAllowed(parse, acts[..|acts| - 1], allowed);
    }
  }

  lemma SeenIsNotOverlooked(parse: Parser, es: seq<LogEntry>, e: LogEntry, allowed: LogEntry -> bool)
    requires RepeatableAreSeen(parse, allowed) && allowed(e)
    requires forall k :: 0 <= k < |es| ==> allowed(es[k])
    requires Redundant(parse, es, e)
    ensures !Overlooked(parse, es, e)
  {
    var id := IdOf(parse, e);
    var found, latest := LatestOf(parse, es, |es|, id), LatestClaim(parse, es, |es|, id).value;
    assert Repeats(parse, e, e) && Repeats(parse, es[latest], es[latest]);
    assert Matches(parse, es[latest], None, Some(id));
    assert IsClaim(parse(es[found.value].payload));
    assert ClaimsFor(parse, es[found.value], id);
  }

  lemma SeenNeverRepeats(parse: Parser, acts: seq<Act>, allowed: LogEntry -> bool)
    requires RepeatableAreSeen(parse, allowed) && SubmitsOnly(acts, allowed)
    ensures NoRepeats(parse, PerformAll(parse, [], acts))
  {
    forall n: nat ensures !Slips(parse, acts, n) {
      if Slips(parse, acts, n) {
        RunHoldsOnlyAllowed(parse, acts[..n], allowed);
        SeenIsNotOverlooked(parse, PerformAll(parse, [], acts[..n]), acts[n].e, allowed);
      }
    }
    NoRunRepeatsExactly(parse, acts);
    assert acts[..|acts|] == acts;
  }

  lemma UnseenRepeat(parse: Parser, allowed: LogEntry -> bool) returns (acts: seq<Act>)
    requires !RepeatableAreSeen(parse, allowed)
    ensures SubmitsOnly(acts, allowed) && !NoRepeats(parse, PerformAll(parse, [], acts))
    ensures forall k :: 0 <= k < |acts| ==> acts[k].Submit?
  {
    var e: LogEntry :|
      && allowed(e) && ClaimsFor(parse, e, IdOf(parse, e)) && Repeats(parse, e, e)
      && !(IsGeneric(parse(e.payload))
           && forall h: LogEntry :: allowed(h) && IdOf(parse, h) == IdOf(parse, e) && IsGeneric(parse(h.payload)) ==>
                IsClaim(parse(h.payload)));
    if !IsGeneric(parse(e.payload)) {
      UnseenClaimRepeats(parse, e);
      return [Submit(e), Submit(e)];
    }
    var h: LogEntry :|
      allowed(h) && IdOf(parse, h) == IdOf(parse, e) && IsGeneric(parse(h.payload)) && !IsClaim(parse(h.payload));
    HiddenClaimRepeats(parse, e, h);
    return [Submit(e), Submit(h), Submit(e)];
  }

  /** No run of submissions from a class of documents, with any rotations and truncations between them, ever puts a
      repeat into the retained log, exactly when the search sees what can be repeated and nothing that hides it. */
  lemma DocumentsNeverRepeatExactly(parse: Parser, allowed: LogEntry -> bool)
    ensures (forall acts: seq<Act> :: SubmitsOnly(acts, allowed) ==> NoRepeats(parse, PerformAll(parse, [], acts)))
            <==> RepeatableAreSeen(parse, allowed)
  {
    if RepeatableAreSeen(parse, allowed) {
      forall acts: seq<Act> | SubmitsOnly(acts, allowed) ensures NoRepeats(parse, PerformAll(parse, [], acts)) {
        SeenNeverRepeats(parse, acts, allowed);
      }
    } else {
      var acts := UnseenRepeat(parse, allowed);
    }
  }

  /** A claim that the log search cannot read, as an event whose `entry` is a number, is accepted twice in a row. */
  lemma UnseenClaimRepeats(parse: Parser, e: LogEntry)
    requires ClaimsFor(parse, e, IdOf(parse, e)) && Repeats(parse, e, e) && !IsGeneric(parse(e.payload))
    ensures PerformAll(parse, [], [Submit(e), Submit(e)]) == [e, e] && !NoRepeats(parse, [e, e])
  {
    var acts := [Submit(e), Submit(e)];
    assert acts[..0] == [] && acts[..2] == acts;
    PerformMore(parse, acts, 0);
    PerformMore(parse, acts, 1);
    ResubmissionCaughtExactly(parse, [], e);
    assert [] + [e] == [e] && [e] + [e] == [e, e];
    assert Neighbours(parse, [e, e], 0, 1);
  }

  // ---------------------------------------------------------------- what the guard does not see

  /** On any log: what has just been accepted, submitted again at once, is turned away exactly when the log search can
      read it. The guard lists "2" and "3" among the events to hold back, but an `entry` that is a number is not
      readable, so of the events only those are caught whose `entry` is a string. */
  lemma ResubmissionCaughtExactly(parse: Parser, es: seq<LogEntry>, e: LogEntry)
    requires CheckConflict(parse, es, e.payload) == NoConflict
    requires IdOf(parse, e) != "" && Repeats(parse, e, e)
    ensures Redundant(parse, es + [e], e)
    ensures CheckConflict(parse, es + [e], e.payload) != NoConflict <==> IsGeneric(parse(e.payload))
    ensures IsHerdEvent(parse(e.payload)) ==>
              (CheckConflict(parse, es + [e], e.payload) != NoConflict <==> parse(e.payload).entry.Text?)
  {
    var id, all, n := IdOf(parse, e), es + [e], |es|;
    assert all[n] == e;
    if !IsGeneric(parse(e.payload)) {
      SearchOfPrefix(parse, es, e, n, id);
      assert LatestOf(parse, all, n + 1, id) == LatestOf(parse, all, n, id);
    } else {
      assert Matches(parse, all[n], None, Some(id));
    }
  }

  lemma {:induction false} SearchOfPrefix(parse: Parser, es: seq<LogEntry>, e: LogEntry, n: nat, id: string)
    requires n <= |es|
    ensures LatestOf(parse, es + [e], n, id) == LatestOf(parse, es, n, id)
  {
    if n > 0 {
      SearchOfPrefix(parse, es, e, n - 1, id);
    }
  }

  /** A document that only the log search can read, as one whose timestamp is a string, hides a claim: between two
      submissions of any claim of its id it makes the second one slip. */
  lemma HiddenClaimRepeats(parse: Parser, e: LogEntry, hider: LogEntry)
    requires ClaimsFor(parse, e, IdOf(parse, hider)) && Repeats(parse, e, e)
    requires IsGeneric(parse(hider.payload)) && !IsClaim(parse(hider.payload))
    ensures PerformAll(parse, [], [Submit(e), Submit(hider), Submit(e)]) == [e, hider, e]
    ensures Slips(parse, [Submit(e), Submit(hider), Submit(e)], 2) && !NoRepeats(parse, [e, hider, e])
  {
    var acts := [Submit(e), Submit(hider), Submit(e)];
    assert acts[..0] == [] && acts[..3] == acts;
    PerformMore(parse, acts, 0);
    PerformMore(parse, acts, 1);
    PerformMore(parse, acts, 2);
    var es := [e, hider];
    assert PerformAll(parse, [], acts[..1]) == [e] && PerformAll(parse, [], acts[..2]) == es;
    var id := IdOf(parse, e);
    assert Matches(parse, es[1], None, Some(id)) && ClaimsFor(parse, es[0], id);
    assert Redundant(parse, es, e) && Overlooked(parse, es, e);
    RedundantPassesExactly(parse, es, e);
    assert es + [e] == [e, hider, e];
    assert Neighbours(parse, [e, hider, e], 0, 2);
  }

  /** Compaction makes the guard forget: once a claim has left the retained log, the same claim is accepted again. */
  lemma ClaimForgottenAfterRotation(parse: Parser, e: LogEntry)
    requires IsClaim(parse(e.payload)) && IsGeneric(parse(e.payload)) && IsJobClaim(parse(e.payload))
    requires IdOf(parse, e) != ""
    ensures CheckConflict(parse, [e], e.payload) == ConcurrentClaim
    ensures CheckConflict(parse, Perform(parse, [e], Rotate(1)), e.payload) == NoConflict
  {
    assert Matches(parse, [e][0], None, Some(IdOf(parse, e)));
  }

  /** And it does not hold against itself: of two submissions of one claim that are both checked before either is
      appended, as the queue between ClientAppend and AddLog allows, neither is turned away. When that happens is in
      module ClaimQueue. */
  lemma ConcurrentChecksRepeat(parse: Parser, e: LogEntry)
    requires IsClaim(parse(e.payload)) && IsJobClaim(parse(e.payload)) && IdOf(parse, e) != ""
    ensures CheckConflict(parse, [], e.payload) == NoConflict && !NoRepeats(parse, [e, e])
  {
    var es := [e, e];
    assert Neighbours(parse, es, 0, 1) && Repeats(parse, es[0], es[1]);
  }
}
