/** What a compaction does to the log, whatever is appended while it runs, and what a directory is loaded as: the two
    phases of internal/consensus/filesystem/snapshot.go and LoadStorage of internal/consensus/filesystem/entry.go, seen
    from outside. */
module CompactionRuns {
  import opened Codec
  import opened LogStore
  import opened Wrappers

  // ---------------------------------------------------------------- from capture to rotation

  function AppendAll(m: Machine, es: seq<LogEntry>): Machine {
    if es == [] then m else StepOp(AppendAll(m, es[..|es| - 1]), DoAppend(es[|es| - 1]))
  }

  /** The entries follow on from the tip, in index and in term, and the codec carries them. */
  ghost predicate FollowOn(s: Store, es: seq<LogEntry>) {
    forall k :: 0 <= k < |es| ==> FollowsOn(s, es, k)
  }

  ghost predicate FollowsOn(s: Store, es: seq<LogEntry>, k: nat)
    requires k < |es|
  {
    WellTyped(es[k]) && Encodable(es[k]) && es[k].index == s.prevIndex + 1 + k && es[k].term >= LastTerm(s, es, k)
  }

  function LastTerm(s: Store, es: seq<LogEntry>, n: nat): int
    requires n <= |es|
  {
    if n == 0 then s.prevTerm else es[n - 1].term
  }

  lemma FollowOnPrefix(s: Store, es: seq<LogEntry>, n: nat)
    requires FollowOn(s, es) && n <= |es|
    ensures FollowOn(s, es[..n])
  {
    forall k | 0 <= k < n ensures FollowsOn(s, es[..n], k) {
      assert FollowsOn(s, es, k);
    }
  }

  lemma {:induction false} AppendAllAppends(m: Machine, es: seq<LogEntry>)
    requires FollowOn(m.disk.store, es)
    ensures Appended(m, AppendAll(m, es), es)
  {
    if es == [] {
      assert m.disk.store.entries + es == m.disk.store.entries;
    } else {
      var init, e := es[..|es| - 1], es[|es| - 1];
      FollowOnPrefix(m.disk.store, es, |init|);
      AppendAllAppends(m, init);
      assert FollowsOn(m.disk.store, es, |init|);
      OneMoreAppended(m, AppendAll(m, init), init, e);
      assert init + [e] == es;
    }
  }

  lemma {:induction false} AppendAllKeepsInv(m: Machine, es: seq<LogEntry>)
    requires Inv(m) && FollowOn(m.disk.store, es)
    ensures Inv(AppendAll(m, es))
  {
    if es != [] {
      var init, e := es[..|es| - 1], es[|es| - 1];
      FollowOnPrefix(m.disk.store, es, |init|);
      AppendAllKeepsInv(m, init);
      AppendAllAppends(m, init);
      assert FollowsOn(m.disk.store, es, |init|);
      AppendIsAllowed(m, AppendAll(m, init), init, e);
    }
  }

  ghost predicate Appended(m: Machine, end: Machine, es: seq<LogEntry>) {
    && end.pending == m.pending && end.disk.store.entries == m.disk.store.entries + es
    && end.disk.store.prevIndex == m.disk.store.prevIndex + |es|
    && end.disk.store.prevTerm == LastTerm(m.disk.store, es, |es|)
  }

  lemma AppendIsAllowed(m: Machine, mid: Machine, es: seq<LogEntry>, e: LogEntry)
    requires Inv(mid) && Appended(m, mid, es) && WellTyped(e) && Encodable(e)
             && e.term >= LastTerm(m.disk.store, es, |es|)
    ensures Inv(StepOp(mid, DoAppend(e)))
  {
    StepKeepsInv(mid, DoAppend(e));
  }

  lemma OneMoreAppended(m: Machine, mid: Machine, es: seq<LogEntry>, e: LogEntry)
    requires Appended(m, mid, es) && e.index == m.disk.store.prevIndex + 1 + |es|
    ensures Appended(m, StepOp(mid, DoAppend(e)), es + [e])
  {
    assert m.disk.store.entries + (es + [e]) == m.disk.store.entries + es + [e];
  }

  /** Capture, appends, rotation. */
  function Compaction(m: Machine, es: seq<LogEntry>, compacted: seq<LogEntry>): Machine {
    StepOp(AppendAll(StepOp(m, DoCapture), es), DoRotate(compacted))
  }

  /** In memory and in the log file is exactly what was appended since the capture. The boundary, and the name of the
      file, is the tip as it was then; active.log holds what the compaction kept. */
  ghost predicate LeavesWhatCameSince(before: Store, end: Machine, es: seq<LogEntry>, compacted: seq<LogEntry>) {
    && end.pending.None? && end.disk.store.entries == es
    && end.disk.store.discIndex == before.prevIndex && end.disk.store.discTerm == before.prevTerm
    && end.disk.store.prevIndex == before.prevIndex + |es| && end.disk.store.prevTerm == LastTerm(before, es, |es|)
    && end.disk.active == FileName(before.prevTerm, before.prevIndex)
    && end.disk.active in end.disk.files && end.disk.files[end.disk.active] == EncodeAll(es)
    && end.disk.snapshot == EncodeAll(compacted)
  }

  /** From any state of any allowed run in which entries are retained and no compaction is under way: a capture, then
      any appends, then a rotation leave what was appended since the capture, behind the tip as it was then; and a
      reload gives all of it back, with the snapshot that was written. */
  lemma CompactionLeavesWhatCameSince(ops: seq<Op>, es: seq<LogEntry>, compacted: seq<LogEntry>, r: LoadResult)
    requires AllowedRun(START, ops) && AllEncodable(compacted)
    requires var m := RunOps(START, ops);
             m.pending.None? && m.disk.store.entries != [] && FollowOn(m.disk.store, es)
    requires LoadsAs(Compaction(RunOps(START, ops), es, compacted).disk, r)
    ensures var end := Compaction(RunOps(START, ops), es, compacted);
            && LeavesWhatCameSince(RunOps(START, ops).disk.store, end, es, compacted)
            && ReadAll(end.disk.snapshot) == ReadOk(compacted, |EncodeAll(compacted)|)
            && r == Loaded(end.disk)
  {
    var m := RunOps(START, ops);
    StartInv();
    RunKeepsInv(START, ops);
    CompactionKeepsInv(m, es, compacted);
    CompactionLeaves(m, es, compacted);
    StreamRoundTrip(compacted);
    NothingChangesOnReload(m.disk.store, Compaction(m, es, compacted), es, compacted, r);
  }

  lemma CompactionKeepsInv(m: Machine, es: seq<LogEntry>, compacted: seq<LogEntry>)
    requires Inv(m) && m.pending.None? && m.disk.store.entries != [] && FollowOn(m.disk.store, es)
    requires AllEncodable(compacted)
    ensures Inv(Compaction(m, es, compacted)) && Inv(AppendAll(StepOp(m, DoCapture), es))
  {
    CaptureIsTheTip(m);
    StepKeepsInv(m, DoCapture);
    AppendAllKeepsInv(StepOp(m, DoCapture), es);
    StepKeepsInv(AppendAll(StepOp(m, DoCapture), es), DoRotate(compacted));
  }

  lemma CompactionLeaves(m: Machine, es: seq<LogEntry>, compacted: seq<LogEntry>)
    requires Inv(m) && m.pending.None? && m.disk.store.entries != [] && FollowOn(m.disk.store, es)
    requires AllEncodable(compacted)
    ensures LeavesWhatCameSince(m.disk.store, Compaction(m, es, compacted), es, compacted)
  {
    var captured := StepOp(m, DoCapture);
    CaptureIsTheTip(m);
    CompactionKeepsInv(m, es, compacted);
    AppendAllAppends(captured, es);
    var full := AppendAll(captured, es);
    RotatesToTheRest(m.disk.store, full, es);
    NameIsNew(m.disk.store, full);
    RotatedIs(m.disk.store, full, es, compacted);
  }

  lemma RotatedIs(before: Store, m: Machine, es: seq<LogEntry>, compacted: seq<LogEntry>)
    requires m.pending == Some(Capture(before.prevIndex, before.prevTerm))
    requires After(m.disk.store.entries, before.prevIndex) == es
    requires FileName(before.prevTerm, before.prevIndex) !in m.disk.files
    requires m.disk.store.prevIndex == before.prevIndex + |es| && m.disk.store.prevTerm == LastTerm(before, es, |es|)
    ensures LeavesWhatCameSince(before, StepOp(m, DoRotate(compacted)), es, compacted)
  {
    assert [] + EncodeAll(es) == EncodeAll(es);
  }

  lemma NothingChangesOnReload(before: Store, end: Machine, es: seq<LogEntry>, compacted: seq<LogEntry>, r: LoadResult)
    requires Inv(end) && LeavesWhatCameSince(before, end, es, compacted) && LoadsAs(end.disk, r)
    ensures r == Loaded(end.disk)
  {
    ReloadGivesEntries(end, r);
  }

  lemma CaptureIsTheTip(m: Machine)
    requires Inv(m) && m.pending.None? && m.disk.store.entries != []
    ensures var after := StepOp(m, DoCapture);
            after.disk == m.disk && after.pending == Some(Capture(m.disk.store.prevIndex, m.disk.store.prevTerm))
  {
  }

  lemma RotatesToTheRest(before: Store, m: Machine, es: seq<LogEntry>)
    requires StoreInv(m.disk.store, m.pending) && before.entries != []
    requires m.disk.store.entries == before.entries + es && FollowOn(before, es)
    requires before.entries[|before.entries| - 1].index == before.prevIndex
    ensures After(m.disk.store.entries, before.prevIndex) == es
  {
    forall k | 0 <= k < |es| ensures es[k].index > before.prevIndex {
      assert FollowsOn(before, es, k);
    }
    RestIsBehind(before.entries, es, before.prevIndex);
  }

  lemma RestIsBehind(earlier: seq<LogEntry>, es: seq<LogEntry>, cutoff: int)
    requires earlier != [] && Sorted(earlier + es) && earlier[|earlier| - 1].index == cutoff
    requires forall k :: 0 <= k < |es| ==> es[k].index > cutoff
    ensures After(earlier + es, cutoff) == es
  {
    var all, n := earlier + es, |earlier|;
    forall i | 0 <= i < |all| ensures all[i].index > cutoff <==> i >= n {
      assert all[n - 1] == earlier[n - 1];
      assert i >= n ==> all[i] == es[i - n];
    }
    AfterSuffix(all, cutoff, n);
    assert all[n..] == es;
  }

  lemma NameIsNew(before: Store, m: Machine)
    requires Inv(m) && m.pending == Some(Capture(before.prevIndex, before.prevTerm))
    ensures FileName(before.prevTerm, before.prevIndex) !in m.disk.files
  {
    RotateKeepsInv(m.disk.store, m.pending.value);
  }

  // ---------------------------------------------------------------- what a directory is loaded as

  /** A directory with a snapshot and no log file: a new, empty log file is opened, named after the last entry of the
      snapshot, and the log begins behind that entry. A snapshot that cannot be read counts as an empty one. */
  lemma NoLogFileIsLoadedAs(d: Disk, r: LoadResult)
    requires d.files == map[] && LoadsAs(d, r) && !ReadAll(d.snapshot).ReadPanic?
    ensures var es := if ReadAll(d.snapshot).ReadOk? then ReadAll(d.snapshot).entries else [];
            var (index, term) := if es == [] then (0, 0) else (es[|es| - 1].index, es[|es| - 1].term);
            r == Loaded(d.(store := Store([], index, term, index, term), files := map[FileName(term, index) := []],
                           active := FileName(term, index), size := 0))
  {
  }

  /** The same, for the snapshot that a compaction has written. */
  lemma SnapshotAloneIsLoadedAs(d: Disk, compacted: seq<LogEntry>, r: LoadResult)
    requires d.files == map[] && LoadsAs(d, r) && AllEncodable(compacted) && d.snapshot == EncodeAll(compacted)
    ensures r.Loaded? && r.disk.store.entries == []
    ensures compacted != [] ==>
              && r.disk.store.prevIndex == r.disk.store.discIndex == compacted[|compacted| - 1].index
              && r.disk.store.prevTerm == r.disk.store.discTerm == compacted[|compacted| - 1].term
    ensures compacted == [] ==>
              r.disk == d.(store := EMPTY_STORE, files := map[FRESH := []], active := FRESH, size := 0)
  {
    StreamRoundTrip(compacted);
    NoLogFileIsLoadedAs(d, r);
  }

  /** A directory with log files: the one of the greatest (term, index) alone decides, as long as the snapshot does not
      make the decoder panic. It is loaded whole, with its name as the boundary; a file that was cut within a frame is
      not loaded at all. */
  lemma LogFileIsLoadedAs(d: Disk, name: FileName, es: seq<LogEntry>, n: nat, r: LoadResult)
    requires IsLatest(d.files.Keys, name) && AllEncodable(es) && n <= |EncodeAll(es)|
    requires d.files[name] == EncodeAll(es)[..n] && LoadsAs(d, r)
    ensures ReadAll(d.snapshot).ReadPanic? ==> r == LoadFailed
    ensures !ReadAll(d.snapshot).ReadPanic? && (forall k: nat :: !IsBoundary(es, n, k)) ==> r == LoadFailed
    ensures !ReadAll(d.snapshot).ReadPanic? ==>
              forall k: nat :: IsBoundary(es, n, k) ==>
                && r.Loaded? && r.disk.files == d.files && r.disk.active == name && r.disk.size == n
                && r.disk.store.entries == es[..k]
                && r.disk.store.discTerm == name.term && r.disk.store.discIndex == name.index
                && r.disk.store.prevIndex == (if k == 0 then name.index else es[k - 1].index)
                && r.disk.store.prevTerm == (if k == 0 then name.term else es[k - 1].term)
  {
    LatestDecides(d, name, r);
    CutDetection(es, n);
  }

  lemma LatestDecides(d: Disk, name: FileName, r: LoadResult)
    requires IsLatest(d.files.Keys, name) && LoadsAs(d, r)
    ensures name in d.files && r == LoadFrom(d, Some(name))
  {
    assert name in d.files.Keys;
    var other :| IsLatest(d.files.Keys, other) && r == LoadFrom(d, Some(other));
  }

  // ---------------------------------------------------------------- single chunks

  /** A chunk fails exactly when it is not the first and there is no temporary file to write it to; the last chunk, and
      no other, replaces snapshot and log. */
  lemma ChunkIsInstalledExactly(d: Disk, offset: nat, data: seq<byte>, done: bool, index: int, term: int)
    ensures DiskInstall(d, offset, data, done, index, term).None? <==> offset != 0 && d.temp.None?
    ensures match DiskInstall(d, offset, data, done, index, term)
            case None => true
            case Some(after) =>
              var file := WriteAt(if offset == 0 then [] else d.temp.value, offset, data);
              if done then
                && after.snapshot == file && after.temp.None? && after.store.entries == []
                && after.store.prevIndex == after.store.discIndex == index
                && after.store.prevTerm == after.store.discTerm == term
                && after.files == d.files[d.active := []] && after.size == 0 && after.active == d.active
              else after == d.(temp := Some(file))
  {
    assert EncodeAll([]) == [];
  }

  // ---------------------------------------------------------------- WriteAt

  /** Writing at an offset: the data where it belongs, zeros in a gap, and everything else as it was. */
  lemma WriteAtExactly(file: seq<byte>, offset: nat, data: seq<byte>)
    ensures var r := WriteAt(file, offset, data);
            && |r| == (if offset + |data| >= |file| then offset + |data| else |file|)
            && forall k :: 0 <= k < |r| ==>
                 r[k] == if offset <= k < offset + |data| then data[k - offset]
                         else if k < |file| then file[k]
                         else 0
  {
  }
}
