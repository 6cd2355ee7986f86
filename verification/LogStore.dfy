/** The log store of internal/consensus/filesystem: an in-memory slice of entries, an index/term boundary and a
    write-ahead file, kept in step by append, truncation, two-phase compaction, snapshot installation and reload.

    `Store` is the in-memory half, which is all that the Raft layer sees; `Disk` adds the data directory. The class
    `Handler` has the source's fields and updates them in place; each of its methods is tied to a function on `Disk`.
    File writes succeed. */
module LogStore {
  import opened Codec
  import opened Wrappers

  datatype Store = Store(entries: seq<LogEntry>, prevIndex: int, prevTerm: int, discIndex: int, discTerm: int)

  const EMPTY_STORE := Store([], 0, 0, 0, 0)

  datatype AppendStatus = Appended | IndexBehind | IndexAhead

  function CheckAppend(s: Store, e: LogEntry): AppendStatus {
    if e.index <= s.prevIndex then IndexBehind
    else if e.index > s.prevIndex + 1 then IndexAhead
    else Appended
  }

  function AppendEntry(s: Store, e: LogEntry): Store {
    if CheckAppend(s, e) != Appended then s
    else s.(entries := s.entries + [e], prevIndex := e.index, prevTerm := e.term)
  }

  /** The position of the first entry with this index, or |es|. */
  function FirstAt(es: seq<LogEntry>, index: int): (k: nat)
    ensures k <= |es|
    ensures k < |es| ==> es[k].index == index
    ensures forall i :: 0 <= i < k ==> es[i].index != index
  {
    FirstFrom(es, 0, index)
  }

  function FirstFrom(es: seq<LogEntry>, from: nat, index: int): (k: nat)
    requires from <= |es|
    ensures from <= k <= |es|
    ensures k < |es| ==> es[k].index == index
    ensures forall i :: from <= i < k ==> es[i].index != index
    decreases |es| - from
  {
    if from == |es| || es[from].index == index then from else FirstFrom(es, from + 1, index)
  }

  /** TruncateLog as coded: when the cut leaves nothing, prevIndex and prevTerm keep their old values. */
  function Truncate(s: Store, from: int): Store {
    var cut := FirstAt(s.entries, from);
    if cut == |s.entries| then s
    else if cut == 0 then s.(entries := [])
    else s.(entries := s.entries[..cut], prevIndex := s.entries[cut - 1].index, prevTerm := s.entries[cut - 1].term)
  }

  function After(es: seq<LogEntry>, index: int): seq<LogEntry> {
    AfterFirst(es, |es|, index)
  }

  function AfterFirst(es: seq<LogEntry>, n: nat, index: int): seq<LogEntry>
    requires n <= |es|
  {
    if n == 0 then []
    else AfterFirst(es, n - 1, index) + if es[n - 1].index > index then [es[n - 1]] else []
  }

  function Rotate(s: Store, cutoff: int, term: int): Store {
    s.(entries := After(s.entries, cutoff), discIndex := cutoff, discTerm := term)
  }

  function Install(index: int, term: int): Store {
    Store([], index, term, index, term)
  }

  /** Entries(a, b): the index-to-slice arithmetic with its clamping. */
  function Between(s: Store, a: int, b: int): seq<LogEntry> {
    var lo := if a - s.discIndex - 1 < 0 then 0 else a - s.discIndex - 1;
    var hi0 := if b - s.discIndex - 1 < 0 then 0 else b - s.discIndex - 1;
    var hi := if hi0 > |s.entries| then |s.entries| else hi0;
    if lo >= hi then [] else s.entries[lo..hi]
  }

  // ---------------------------------------------------------------- index contiguity

  /** The retained entries are the indices discIndex+1 .. prevIndex, in order. */
  ghost predicate Contiguous(s: Store) {
    && s.prevIndex == s.discIndex + |s.entries|
    && forall k :: 0 <= k < |s.entries| ==> s.entries[k].index == s.discIndex + 1 + k
  }

  lemma AppendKeepsContiguous(s: Store, e: LogEntry)
    requires Contiguous(s)
    ensures Contiguous(AppendEntry(s, e))
    ensures CheckAppend(s, e) == Appended <==> AppendEntry(s, e).prevIndex == s.prevIndex + 1
  {
  }

  lemma FirstAtContiguous(s: Store, from: int)
    requires Contiguous(s)
    ensures FirstAt(s.entries, from)
            == if s.discIndex < from <= s.prevIndex then from - s.discIndex - 1 else |s.entries|
  {
    var k := FirstAt(s.entries, from);
    assert k < |s.entries| ==> s.entries[k].index == s.discIndex + 1 + k;
    if s.discIndex < from <= s.prevIndex {
      assert s.entries[from - s.discIndex - 1].index == from;
    }
  }

  /** Truncation cuts a contiguous log back to from-1, except that a cut at the very first retained index leaves the
      log claiming entries it no longer has. */
  lemma TruncateKeepsContiguousExactly(s: Store, from: int)
    requires Contiguous(s)
    ensures Contiguous(Truncate(s, from)) <==> !(s.entries != [] && from == s.discIndex + 1)
    ensures s.discIndex + 1 < from <= s.prevIndex ==>
              Truncate(s, from).prevIndex == from - 1
              && Truncate(s, from).entries == s.entries[..from - s.discIndex - 1]
    ensures !(s.discIndex < from <= s.prevIndex) ==> Truncate(s, from) == s
  {
    FirstAtContiguous(s, from);
  }

  /** A follower holding entries 1..3 that is told to replace entry 1 ends up with no entries, still reporting index
      3, and then refuses entry 1. */
  lemma EmptyingTruncationStrandsTheLog(a: LogEntry, b: LogEntry, c: LogEntry)
    requires a.index == 1 && b.index == 2 && c.index == 3
    ensures var s := AppendEntry(AppendEntry(AppendEntry(EMPTY_STORE, a), b), c);
            && Contiguous(s)
            && Truncate(s, 1).entries == [] && Truncate(s, 1).prevIndex == 3
            && CheckAppend(Truncate(s, 1), a) == IndexBehind
  {
  }

  lemma {:induction false} AfterFirstSuffix(es: seq<LogEntry>, n: nat, index: int, k: nat)
    requires n <= |es| && k <= |es|
    requires forall i :: 0 <= i < n ==> (es[i].index > index <==> i >= k)
    ensures AfterFirst(es, n, index) == if n <= k then [] else es[k..n]
  {
    if n > 0 {
      AfterFirstSuffix(es, n - 1, index, k);
    }
  }

  lemma AfterSuffix(es: seq<LogEntry>, index: int, k: nat)
    requires k <= |es|
    requires forall i :: 0 <= i < |es| ==> (es[i].index > index <==> i >= k)
    ensures After(es, index) == es[k..]
  {
    AfterFirstSuffix(es, |es|, index, k);
  }

  lemma AfterContiguous(s: Store, cutoff: int)
    requires Contiguous(s)
    ensures s.discIndex <= cutoff <= s.prevIndex ==> After(s.entries, cutoff) == s.entries[cutoff - s.discIndex..]
    ensures cutoff > s.prevIndex ==> After(s.entries, cutoff) == []
    ensures cutoff < s.discIndex ==> After(s.entries, cutoff) == s.entries
  {
    AfterSuffix(s.entries, cutoff,
                if cutoff < s.discIndex then 0 else if cutoff > s.prevIndex then |s.entries| else cutoff - s.discIndex);
  }

  /** The second phase of a compaction keeps the log contiguous exactly when its cut still lies inside the log. Any
      number of appends may have happened since the capture; a truncation below the cut or a snapshot installed
      beyond it may not. */
  lemma RotateKeepsContiguousExactly(s: Store, cutoff: int, term: int)
    requires Contiguous(s)
    ensures Contiguous(Rotate(s, cutoff, term)) <==> s.discIndex <= cutoff <= s.prevIndex
    ensures Rotate(s, cutoff, term).prevIndex == s.prevIndex
  {
    AfterContiguous(s, cutoff);
    if cutoff < s.discIndex && s.entries != [] {
      assert Rotate(s, cutoff, term).entries[0].index == s.discIndex + 1;
    }
  }

  ghost predicate InRange(e: LogEntry, a: int, b: int) {
    a <= e.index < b
  }

  /** On a contiguous log, Entries(a, b) is exactly the retained entries with a <= index < b, in order. */
  lemma EntriesExact(s: Store, a: int, b: int)
    requires Contiguous(s)
    ensures forall k :: 0 <= k < |Between(s, a, b)| ==>
              InRange(Between(s, a, b)[k], a, b) && Between(s, a, b)[k] in s.entries
    ensures forall k :: 0 <= k < |s.entries| && InRange(s.entries[k], a, b) ==> s.entries[k] in Between(s, a, b)
    ensures forall k :: 0 <= k < |Between(s, a, b)| ==> Between(s, a, b)[k].index == Between(s, a, b)[0].index + k
  {
    var r := Between(s, a, b);
    forall k | 0 <= k < |s.entries| && InRange(s.entries[k], a, b) ensures s.entries[k] in r {
      var lo := if a - s.discIndex - 1 < 0 then 0 else a - s.discIndex - 1;
      assert s.entries[k].index == s.discIndex + 1 + k;
      assert lo <= k < lo + |r|;
      assert r[k - lo] == s.entries[k];
    }
  }

  // ---------------------------------------------------------------- the data directory

  /** A log file is named after the boundary it starts from: "<term>-<index>.log". */
  datatype FileName = FileName(term: int, index: int)

  /** `size` is currentSize; `snapshot` is active.log; `temp` is snapshot.tmp. */
  datatype Disk = Disk(store: Store, files: map<FileName, seq<byte>>, active: FileName, size: nat,
                       snapshot: seq<byte>, temp: Option<seq<byte>>)

  const FRESH := FileName(0, 0)

  /** The directory that LoadStorage makes of an empty one. */
  const FRESH_DISK := Disk(EMPTY_STORE, map[FRESH := []], FRESH, 0, [], None)

  /** The active file holds the retained entries and nothing else. */
  ghost predicate InStep(d: Disk) {
    && d.active in d.files
    && d.files[d.active] == EncodeAll(d.store.entries)
    && d.size == |d.files[d.active]|
  }

  function Rewrite(d: Disk, store: Store): Disk {
    d.(store := store, files := d.files[d.active := EncodeAll(store.entries)], size := |EncodeAll(store.entries)|)
  }

  function DiskAppend(d: Disk, e: LogEntry): Disk {
    if CheckAppend(d.store, e) != Appended then d else Rewrite(d, AppendEntry(d.store, e))
  }

  function DiskTruncate(d: Disk, from: int): Disk {
    if FirstAt(d.store.entries, from) == |d.store.entries| then d else Rewrite(d, Truncate(d.store, from))
  }

  /** The second phase: the compacted entries have become the snapshot, and a log file named after the cut takes over.
      It is opened for appending, so a file that is already there keeps its bytes. */
  function DiskRotate(d: Disk, cutoff: int, term: int, compacted: seq<LogEntry>): Disk {
    var name := FileName(term, cutoff);
    var rest := After(d.store.entries, cutoff);
    d.(store := Rotate(d.store, cutoff, term),
       files := d.files[name := (if name in d.files then d.files[name] else []) + EncodeAll(rest)],
       active := name,
       size := |EncodeAll(rest)|,
       snapshot := EncodeAll(compacted))
  }

  /** os.File.WriteAt: a gap is filled with zeros. */
  function WriteAt(file: seq<byte>, offset: nat, data: seq<byte>): seq<byte> {
    if offset > |file| then file + Zeros(offset - |file|) + data
    else if offset + |data| >= |file| then file[..offset] + data
    else file[..offset] + data + file[offset + |data|..]
  }

  function Zeros(n: nat): seq<byte> {
    seq(n, _ => 0 as byte)
  }

  /** One InstallSnapshot chunk. A chunk at offset 0 starts the temporary file anew; a later one needs it to exist. */
  function DiskInstall(d: Disk, offset: nat, data: seq<byte>, done: bool, index: int, term: int): Option<Disk> {
    if offset != 0 && d.temp.None? then None else
    var temp := WriteAt(if offset == 0 then [] else d.temp.value, offset, data);
    if !done then Some(d.(temp := Some(temp)))
    else Some(Rewrite(d, Install(index, term)).(snapshot := temp, temp := None))
  }

  // ---------------------------------------------------------------- reload

  /** The order in which findLatestLog prefers file names. */
  predicate Newer(f: FileName, g: FileName) {
    f.term > g.term || (f.term == g.term && f.index > g.index)
  }

  ghost predicate IsLatest(names: set<FileName>, f: FileName) {
    f in names && forall g :: g in names && g != f ==> Newer(f, g)
  }

  datatype LoadResult = Loaded(disk: Disk) | LoadFailed

  function LastOr(es: seq<LogEntry>, name: FileName): FileName {
    if es == [] then name else FileName(es[|es| - 1].term, es[|es| - 1].index)
  }

  function OpenedAt(d: Disk, name: FileName, es: seq<LogEntry>, size: nat): Disk {
    var tip := LastOr(es, name);
    d.(store := Store(es, tip.index, tip.term, name.index, name.term), active := name, size := size)
  }

  /** LoadStorage on a directory whose latest log file, if any, is `latest`. A decoder panic is a failed load. */
  function LoadFrom(d: Disk, latest: Option<FileName>): LoadResult
    requires latest.Some? ==> latest.value in d.files
  {
    var snap := ReadAll(d.snapshot);
    if snap.ReadPanic? then LoadFailed else
    match latest
    case Some(name) => (
      match ReadAll(d.files[name])
      case ReadOk(es, size) => Loaded(OpenedAt(d, name, es, size))
      case _ => LoadFailed)
    case None =>
      var name := LastOr(if snap.ReadOk? then snap.entries else [], FRESH);
      Loaded(OpenedAt(d.(files := d.files[name := []]), name, [], 0))
  }

  ghost predicate LoadsAs(d: Disk, r: LoadResult) {
    if d.files == map[] then r == LoadFrom(d, None)
    else exists name :: IsLatest(d.files.Keys, name) && r == LoadFrom(d, Some(name))
  }

  // ---------------------------------------------------------------- runs

  /** A compaction between its two phases. */
  datatype Capture = Capture(cutoff: int, term: int)

  datatype Machine = Machine(disk: Disk, pending: Option<Capture>)

  const START := Machine(FRESH_DISK, None)

  datatype Op =
    | DoAppend(e: LogEntry)
    | DoTruncate(from: int)
    | DoCapture
    | DoRotate(compacted: seq<LogEntry>)
    | DoInstall(index: int, term: int, snapshot: seq<byte>)

  function CaptureOf(s: Store): Option<Capture> {
    if s.entries == [] then None
    else Some(Capture(s.entries[|s.entries| - 1].index, s.entries[|s.entries| - 1].term))
  }

  function StepOp(m: Machine, op: Op): Machine {
    match op
    case DoAppend(e) => m.(disk := DiskAppend(m.disk, e))
    case DoTruncate(from) => m.(disk := DiskTruncate(m.disk, from))
    case DoCapture => if m.pending.Some? then m else m.(pending := CaptureOf(m.disk.store))
    case DoRotate(compacted) =>
      if m.pending.None? then m
      else Machine(DiskRotate(m.disk, m.pending.value.cutoff, m.pending.value.term, compacted), None)
    case DoInstall(index, term, snapshot) => m.(disk := Rewrite(m.disk, Install(index, term)).(snapshot := snapshot))
  }

  /** A contiguous log, and a pending compaction whose cut lies inside it. */
  ghost predicate Whole(m: Machine) {
    && Contiguous(m.disk.store)
    && (m.pending.Some? ==> m.disk.store.discIndex <= m.pending.value.cutoff <= m.disk.store.prevIndex)
  }

  /** Only two operations can harm a whole log: a truncation that reaches the first retained index or a pending cut,
      and a snapshot installed elsewhere than at a pending cut. */
  predicate Harmless(m: Machine, op: Op) {
    var s := m.disk.store;
    match op
    case DoTruncate(from) =>
      s.discIndex < from <= s.prevIndex ==>
        s.discIndex + 1 < from && (m.pending.Some? ==> m.pending.value.cutoff < from)
    case DoInstall(index, _, _) => m.pending.Some? ==> index == m.pending.value.cutoff
    case _ => true
  }

  lemma StepStaysWholeExactly(m: Machine, op: Op)
    requires Whole(m)
    ensures Whole(StepOp(m, op)) <==> Harmless(m, op)
  {
    var s := m.disk.store;
    match op {
      case DoAppend(e) => AppendKeepsContiguous(s, e);
      case DoTruncate(from) => TruncateKeepsContiguousExactly(s, from);
      case DoRotate(compacted) =>
        if m.pending.Some? {
          RotateKeepsContiguousExactly(s, m.pending.value.cutoff, m.pending.value.term);
        }
      case _ =>
    }
  }

  /** Every run of harmless operations, with any number of appends between the two phases of a compaction, keeps the
      retained entries at the indices discIndex+1 .. prevIndex. */
  lemma {:induction false} RunStaysWhole(m: Machine, ops: seq<Op>)
    requires Whole(m)
    requires forall i :: 0 <= i < |ops| ==> Harmless(RunOps(m, ops[..i]), ops[i])
    ensures Whole(RunOps(m, ops))
  {
    if ops != [] {
      var init := ops[..|ops| - 1];
      forall i | 0 <= i < |init| ensures Harmless(RunOps(m, init[..i]), init[i]) {
        assert init[..i] == ops[..i];
      }
      RunStaysWhole(m, init);
      StepStaysWholeExactly(RunOps(m, init), ops[|ops| - 1]);
    }
  }

  /** When recovery is promised, call by call. The terms appended do not fall, which module Terms proves of the cluster,
      and the codec carries the entries. A truncation between the two phases of a compaction spares the captured entry,
      and a snapshot is installed between compactions, at or beyond the boundary that the log file is named after:
      neither is enforced in the source. */
  ghost predicate Allowed(m: Machine, op: Op) {
    match op
    case DoAppend(e) => WellTyped(e) && Encodable(e) && m.disk.store.prevTerm <= e.term
    case DoTruncate(from) => m.pending.Some? ==> m.pending.value.cutoff < from
    case DoCapture => true
    case DoRotate(compacted) => AllEncodable(compacted)
    case DoInstall(index, term, snapshot) =>
      m.pending.None? && m.disk.active.index <= index && m.disk.active.term <= term && IsStream(snapshot)
  }

  ghost predicate Sorted(es: seq<LogEntry>) {
    forall i, j :: 0 <= i < j < |es| ==> es[i].index < es[j].index && es[i].term <= es[j].term
  }

  ghost predicate Holds(es: seq<LogEntry>, c: Capture, k: nat) {
    k < |es| && es[k].index == c.cutoff && es[k].term == c.term
  }

  /** What every run keeps of the log and a pending compaction. Contiguity is not needed for it. */
  ghost predicate StoreInv(s: Store, pending: Option<Capture>) {
    && AllEncodable(s.entries) && Sorted(s.entries)
    && s.discIndex <= s.prevIndex && s.discTerm <= s.prevTerm
    && (forall k :: 0 <= k < |s.entries| ==> s.discIndex < s.entries[k].index && s.discTerm <= s.entries[k].term)
    && (s.entries != [] ==> LastOr(s.entries, FRESH) == FileName(s.prevTerm, s.prevIndex))
    && (pending.Some? ==> exists k: nat :: Holds(s.entries, pending.value, k))
  }

  ghost predicate IsStream(bytes: seq<byte>) {
    exists es :: AllEncodable(es) && bytes == EncodeAll(es)
  }

  /** What every run keeps of the directory: no name is newer than the active one, which is not beyond the boundary. */
  ghost predicate FilesInv(d: Disk) {
    && InStep(d)
    && d.active.term <= d.store.discTerm && d.active.index <= d.store.discIndex
    && (forall f :: f in d.files ==> f.term <= d.active.term && f.index <= d.active.index)
    && IsStream(d.snapshot)
  }

  ghost predicate Inv(m: Machine) {
    StoreInv(m.disk.store, m.pending) && FilesInv(m.disk)
  }

  lemma AppendKeepsInv(s: Store, pending: Option<Capture>, e: LogEntry)
    requires StoreInv(s, pending) && WellTyped(e) && Encodable(e) && s.prevTerm <= e.term
    ensures StoreInv(AppendEntry(s, e), pending)
  {
    if pending.Some? {
      var k: nat :| Holds(s.entries, pending.value, k);
      assert Holds(s.entries + [e], pending.value, k);
    }
  }

  lemma TruncateKeepsInv(s: Store, pending: Option<Capture>, from: int)
    requires StoreInv(s, pending) && (pending.Some? ==> pending.value.cutoff < from)
    ensures StoreInv(Truncate(s, from), pending)
  {
    if pending.Some? {
      var cut := FirstAt(s.entries, from);
      var k: nat :| Holds(s.entries, pending.value, k);
      assert cut < |s.entries| ==> k < cut && Holds(s.entries[..cut], pending.value, k);
    }
  }

  lemma SuffixKeepsOrder(es: seq<LogEntry>, k: nat)
    requires AllEncodable(es) && Sorted(es) && k <= |es|
    ensures AllEncodable(es[k..]) && Sorted(es[k..])
    ensures forall i :: 0 <= i < |es| - k ==> es[k..][i] == es[k + i]
  {
  }

  lemma RestAfterCapture(s: Store, c: Capture, k: nat)
    requires StoreInv(s, Some(c)) && Holds(s.entries, c, k)
    ensures After(s.entries, c.cutoff) == s.entries[k + 1..]
    ensures forall i :: k < i < |s.entries| ==> c.cutoff < s.entries[i].index && c.term <= s.entries[i].term
    ensures c.cutoff <= s.prevIndex && c.term <= s.prevTerm
  {
    AfterSuffix(s.entries, c.cutoff, k + 1);
    var last := s.entries[|s.entries| - 1];
    assert last.index == s.prevIndex && last.term == s.prevTerm;
  }

  /** Rotation drops exactly the entries up to the captured one. */
  lemma RotateKeepsInv(s: Store, c: Capture)
    requires StoreInv(s, Some(c))
    ensures StoreInv(Rotate(s, c.cutoff, c.term), None)
    ensures s.discIndex < c.cutoff && s.discTerm <= c.term
  {
    var k: nat :| Holds(s.entries, c, k);
    RestAfterCapture(s, c, k);
    SuffixKeepsOrder(s.entries, k + 1);
  }

  lemma RotateKeepsFilesInv(d: Disk, c: Capture, compacted: seq<LogEntry>)
    requires FilesInv(d) && AllEncodable(compacted)
    requires d.store.discIndex < c.cutoff && d.store.discTerm <= c.term
    ensures FilesInv(DiskRotate(d, c.cutoff, c.term, compacted))
  {
    assert FileName(c.term, c.cutoff) !in d.files;
  }

  lemma StepKeepsInv(m: Machine, op: Op)
    requires Inv(m) && Allowed(m, op)
    ensures Inv(StepOp(m, op))
  {
    var s := m.disk.store;
    match op {
      case DoAppend(e) => AppendKeepsInv(s, m.pending, e);
      case DoTruncate(from) => TruncateKeepsInv(s, m.pending, from);
      case DoCapture => CaptureKeepsInv(m);
      case DoRotate(compacted) =>
        if m.pending.Some? {
          RotateKeepsInv(s, m.pending.value);
          RotateKeepsFilesInv(m.disk, m.pending.value, compacted);
        }
      case DoInstall(index, term, snapshot) => InstallKeepsInv(m, index, term, snapshot);
    }
  }

  lemma CaptureKeepsInv(m: Machine)
    requires Inv(m)
    ensures Inv(StepOp(m, DoCapture))
  {
    var s := m.disk.store;
    if s.entries != [] && m.pending.None? {
      assert Holds(s.entries, CaptureOf(s).value, |s.entries| - 1);
    }
  }

  lemma InstallKeepsInv(m: Machine, index: int, term: int, snapshot: seq<byte>)
    requires Inv(m) && Allowed(m, DoInstall(index, term, snapshot))
    ensures Inv(StepOp(m, DoInstall(index, term, snapshot)))
  {
    assert EncodeAll(Install(index, term).entries) == [];
  }

  function RunOps(m: Machine, ops: seq<Op>): Machine {
    if ops == [] then m else StepOp(RunOps(m, ops[..|ops| - 1]), ops[|ops| - 1])
  }

  ghost predicate AllowedRun(m: Machine, ops: seq<Op>) {
    forall i :: 0 <= i < |ops| ==> Allowed(RunOps(m, ops[..i]), ops[i])
  }

  lemma {:induction false} RunKeepsInv(m: Machine, ops: seq<Op>)
    requires Inv(m) && AllowedRun(m, ops)
    ensures Inv(RunOps(m, ops))
  {
    if ops != [] {
      var init := ops[..|ops| - 1];
      forall i | 0 <= i < |init| ensures Allowed(RunOps(m, init[..i]), init[i]) {
        assert init[..i] == ops[..i];
      }
      RunKeepsInv(m, init);
      assert Allowed(RunOps(m, ops[..|ops| - 1]), ops[|ops| - 1]);
      StepKeepsInv(RunOps(m, init), ops[|ops| - 1]);
    }
  }

  /** An emptied log whose tip was not reset. */
  predicate Stale(m: Machine) {
    var s := m.disk.store;
    s.entries == [] && (s.prevIndex, s.prevTerm) != (s.discIndex, s.discTerm)
  }

  /** A log whose boundary is not the one that its file is named after. */
  predicate Misnamed(m: Machine) {
    m.disk.active != FileName(m.disk.store.discTerm, m.disk.store.discIndex)
  }

  /** A truncation from the first retained index. */
  predicate Empties(m: Machine, op: Op) {
    op.DoTruncate? && m.disk.store.entries != [] && m.disk.store.entries[0].index == op.from
  }

  /** An append that is accepted, or an installation. */
  predicate Refills(m: Machine, op: Op) {
    (op.DoAppend? && CheckAppend(m.disk.store, op.e) == Appended) || op.DoInstall?
  }

  predicate Misnames(m: Machine, op: Op) {
    op.DoInstall? && m.disk.active != FileName(op.term, op.index)
  }

  /** The end of a compaction, or an installation. */
  predicate Renames(m: Machine, op: Op) {
    (op.DoRotate? && m.pending.Some?) || op.DoInstall?
  }

  lemma StepStaleExactly(m: Machine, op: Op)
    requires StoreInv(m.disk.store, m.pending) && Allowed(m, op)
    ensures Stale(StepOp(m, op)) <==> Empties(m, op) || (Stale(m) && !Refills(m, op))
  {
    var s := m.disk.store;
    match op {
      case DoRotate(_) =>
        if m.pending.Some? {
          var k: nat :| Holds(s.entries, m.pending.value, k);
          RestAfterCapture(s, m.pending.value, k);
        }
      case DoTruncate(from) =>
        var cut := FirstAt(s.entries, from);
        assert cut < |s.entries| && cut > 0 ==> s.entries[..cut] != [];
      case _ =>
    }
  }

  lemma StepMisnamedExactly(m: Machine, op: Op)
    ensures Misnamed(StepOp(m, op)) <==> Misnames(m, op) || (Misnamed(m) && !Renames(m, op))
  {
  }

  /** Operation `i` of the run is a cause, and none after it is a cure. */
  ghost predicate Stands(ops: seq<Op>, cause: (Machine, Op) -> bool, cure: (Machine, Op) -> bool, i: nat) {
    && i < |ops| && cause(RunOps(START, ops[..i]), ops[i])
    && forall j :: i < j < |ops| ==> !cure(RunOps(START, ops[..j]), ops[j])
  }

  lemma StandsInPrefix(ops: seq<Op>, cause: (Machine, Op) -> bool, cure: (Machine, Op) -> bool, i: nat)
    requires ops != [] && i < |ops| - 1
    ensures var last := |ops| - 1;
            Stands(ops, cause, cure, i)
            <==> Stands(ops[..last], cause, cure, i) && !cure(RunOps(START, ops[..last]), ops[last])
  {
    assert forall j :: 0 <= j < |ops| ==> ops[..|ops| - 1][..j] == ops[..j];
  }

  /** A harm that each step brings about by a cause and ends by a cure holds after a run exactly when one stands. */
  lemma {:induction false} HarmExactly(ops: seq<Op>, harm: Machine -> bool, cause: (Machine, Op) -> bool,
                                       cure: (Machine, Op) -> bool)
    requires !harm(START)
    requires forall i :: 0 <= i < |ops| ==>
               var m := RunOps(START, ops[..i]);
               harm(StepOp(m, ops[i])) <==> cause(m, ops[i]) || (harm(m) && !cure(m, ops[i]))
    ensures harm(RunOps(START, ops)) <==> exists i: nat :: Stands(ops, cause, cure, i)
  {
    if ops != [] {
      var last := |ops| - 1;
      assert forall i :: 0 <= i < last ==> ops[..last][..i] == ops[..i];
      HarmExactly(ops[..last], harm, cause, cure);
      forall i: nat | i < last
        ensures Stands(ops, cause, cure, i)
                <==> Stands(ops[..last], cause, cure, i) && !cure(RunOps(START, ops[..last]), ops[last])
      {
        StandsInPrefix(ops, cause, cure, i);
      }
      assert Stands(ops, cause, cure, last) <==> cause(RunOps(START, ops[..last]), ops[last]);
    }
  }

  /** The log as a file of this name brings it back. */
  function Reopened(s: Store, name: FileName): Store {
    var tip := LastOr(s.entries, name);
    Store(s.entries, tip.index, tip.term, name.index, name.term)
  }

  /** After any run, the active file is the encoding of the retained entries, and reloading the directory gives back
      the same entries from the same file, with the boundary that the file is named after. Nothing at all is changed by
      a reload exactly when no truncation from the first retained index stands, without an append accepted or a
      snapshot installed since, and no installation off the file's own boundary, without a compaction completed or a
      snapshot installed since. */
  lemma RecoveryRefinement(ops: seq<Op>, r: LoadResult)
    requires AllowedRun(START, ops) && LoadsAs(RunOps(START, ops).disk, r)
    ensures var d := RunOps(START, ops).disk;
            && InStep(d)
            && r == Loaded(d.(store := Reopened(d.store, d.active)))
            && (r == Loaded(d)
                <==> forall i: nat :: !Stands(ops, Empties, Refills, i) && !Stands(ops, Misnames, Renames, i))
  {
    StartInv();
    RunKeepsInv(START, ops);
    ReloadGivesEntries(RunOps(START, ops), r);
    forall i | 0 <= i < |ops| ensures Inv(RunOps(START, ops[..i])) && Allowed(RunOps(START, ops[..i]), ops[i]) {
      PrefixKeepsInv(ops, i);
    }
    forall i | 0 <= i < |ops|
      ensures var m := RunOps(START, ops[..i]);
              && (Stale(StepOp(m, ops[i])) <==> Empties(m, ops[i]) || (Stale(m) && !Refills(m, ops[i])))
              && (Misnamed(StepOp(m, ops[i])) <==> Misnames(m, ops[i]) || (Misnamed(m) && !Renames(m, ops[i])))
    {
      StepStaleExactly(RunOps(START, ops[..i]), ops[i]);
      StepMisnamedExactly(RunOps(START, ops[..i]), ops[i]);
    }
    HarmExactly(ops, Stale, Empties, Refills);
    HarmExactly(ops, Misnamed, Misnames, Renames);
  }

  lemma StartInv()
    ensures Inv(START)
  {
    assert AllEncodable([]) && START.disk.snapshot == EncodeAll([]);
  }

  lemma PrefixKeepsInv(ops: seq<Op>, n: nat)
    requires AllowedRun(START, ops) && n <= |ops|
    ensures Inv(RunOps(START, ops[..n]))
  {
    StartInv();
    forall i | 0 <= i < n ensures Allowed(RunOps(START, ops[..n][..i]), ops[..n][i]) {
      assert ops[..n][..i] == ops[..i];
    }
    RunKeepsInv(START, ops[..n]);
  }

  lemma ReloadGivesEntries(m: Machine, r: LoadResult)
    requires Inv(m) && LoadsAs(m.disk, r)
    ensures r == Loaded(m.disk.(store := Reopened(m.disk.store, m.disk.active)))
    ensures r == Loaded(m.disk) <==> !Stale(m) && !Misnamed(m)
  {
    var d := m.disk;
    var name :| IsLatest(d.files.Keys, name) && r == LoadFrom(d, Some(name));
    assert d.active in d.files.Keys;
    assert name == d.active;
    var compacted :| AllEncodable(compacted) && d.snapshot == EncodeAll(compacted);
    StreamRoundTrip(compacted);
    StreamRoundTrip(d.store.entries);
  }

  /** An installed snapshot does not survive a reload as the log's boundary: a node that has installed one at `index`
      and then restarts reports an empty log again. */
  lemma ReloadForgetsInstallation(index: int, term: int, snapshot: seq<byte>, r: LoadResult)
    requires 0 < index && 0 <= term && IsStream(snapshot)
    requires LoadsAs(StepOp(START, DoInstall(index, term, snapshot)).disk, r)
    ensures var d := StepOp(START, DoInstall(index, term, snapshot)).disk;
            d.store.prevIndex == index && r == Loaded(d.(store := EMPTY_STORE))
  {
    StartInv();
    StepKeepsInv(START, DoInstall(index, term, snapshot));
    ReloadGivesEntries(StepOp(START, DoInstall(index, term, snapshot)), r);
  }

  /** A reload opens the active file exactly when no file name in the directory is newer. */
  lemma ReloadsActiveExactly(d: Disk, name: FileName)
    requires d.active in d.files && IsLatest(d.files.Keys, name)
    ensures name == d.active <==> forall f :: f in d.files ==> !Newer(f, d.active)
  {
  }

  /** That needs terms that never fall. After compactions that cut at (term 5, index 1) and then at (term 3, index 2),
      the older file has the greater name: the reload picks it, and has lost the acknowledged entry 3. */
  lemma FallingTermLosesEntries(a: LogEntry, b: LogEntry, c: LogEntry, name: FileName)
    requires AllEncodable([b]) && a.index == 1 && b.index == 2 && b.term == 3 && c.index == 3
    requires IsLatest(FallingTermDisk(a, b, c).files.Keys, name)
    ensures FallingTermDisk(a, b, c).store.prevIndex == 3
    ensures LoadFrom(FallingTermDisk(a, b, c), Some(name)).Loaded?
    ensures LoadFrom(FallingTermDisk(a, b, c), Some(name)).disk.store.prevIndex == 2
  {
    var d := FallingTermDisk(a, b, c);
    FallingTermFiles(a, b, c);
    assert FileName(5, 1) in d.files.Keys && name in {FRESH, FileName(5, 1), FileName(3, 2)};
    assert name == FileName(5, 1);
    LoadOneEntry(d, name, b);
  }

  lemma LoadOneEntry(d: Disk, name: FileName, b: LogEntry)
    requires AllEncodable([b]) && d.snapshot == EncodeAll([])
    requires name in d.files && d.files[name] == EncodeAll([b])
    ensures LoadFrom(d, Some(name)).Loaded? && LoadFrom(d, Some(name)).disk.store.prevIndex == b.index
  {
    StreamRoundTrip([]);
    StreamRoundTrip([b]);
  }

  function FallingTermDisk(a: LogEntry, b: LogEntry, c: LogEntry): Disk {
    DiskAppend(DiskRotate(DiskAppend(DiskRotate(DiskAppend(FRESH_DISK, a), 1, 5, []), b), 2, 3, []), c)
  }

  lemma FallingTermFiles(a: LogEntry, b: LogEntry, c: LogEntry)
    requires a.index == 1 && b.index == 2 && c.index == 3
    ensures var d := FallingTermDisk(a, b, c);
            && d.files.Keys == {FRESH, FileName(5, 1), FileName(3, 2)}
            && d.files[FileName(5, 1)] == EncodeAll([b])
            && d.snapshot == EncodeAll([]) && d.store.prevIndex == 3
  {
    AfterSuffix([a], 1, 1);
    AfterSuffix([b], 2, 1);
    var d1 := DiskAppend(FRESH_DISK, a);
    assert d1.store.entries == [a];
    var d2 := DiskRotate(d1, 1, 5, []);
    assert d2.store == Store([], 1, a.term, 1, 5);
    var d3 := DiskAppend(d2, b);
    assert d3.store == Store([b], 2, b.term, 1, 5);
    var d4 := DiskRotate(d3, 2, 3, []);
    assert d4.store == Store([], 2, b.term, 2, 3);
  }

  // ---------------------------------------------------------------- the handler

  /** Handler, with the source's fields; the data directory it writes to is a field as well. */
  class Handler {
    var files: map<FileName, seq<byte>>
    var activeFile: FileName
    var snapshotFile: seq<byte>
    var tempFile: Option<seq<byte>>
    var currentSize: nat
    var maxLogSizeKB: nat
    var prevIndex: int
    var prevTerm: int
    var discIndex: int
    var discTerm: int
    var entries: seq<LogEntry>
    var snapshotRequired: bool

    function Log(): Store
      reads this
    {
      Store(entries, prevIndex, prevTerm, discIndex, discTerm)
    }

    function OnDisk(): Disk
      reads this
    {
      Disk(Log(), files, activeFile, currentSize, snapshotFile, tempFile)
    }

    ghost predicate Valid()
      reads this
    {
      FileHolds(activeFile, [], entries) && currentSize == |files[activeFile]|
    }

    /** The file holds the frames of `es`, after the bytes it was opened with. */
    ghost predicate FileHolds(name: FileName, prior: seq<byte>, es: seq<LogEntry>)
      reads this`files
    {
      name in files && files[name] == prior + EncodeAll(es)
    }

    constructor (d: Disk, maxLogSizeKB: nat)
      ensures OnDisk() == d && this.maxLogSizeKB == maxLogSizeKB
    {
      files, activeFile, snapshotFile, tempFile, currentSize := d.files, d.active, d.snapshot, d.temp, d.size;
      prevIndex, prevTerm := d.store.prevIndex, d.store.prevTerm;
      discIndex, discTerm := d.store.discIndex, d.store.discTerm;
      entries := d.store.entries;
      this.maxLogSizeKB := maxLogSizeKB;
      snapshotRequired := false;
    }

    /** The compaction signal is raised once the file has reached its limit, and otherwise left alone. */
    method Append(entry: LogEntry) returns (status: AppendStatus)
      requires Valid()
      modifies this
      ensures Valid() && OnDisk() == DiskAppend(old(OnDisk()), entry)
      ensures status == CheckAppend(old(Log()), entry)
      ensures maxLogSizeKB == old(maxLogSizeKB)
      ensures snapshotRequired == (old(snapshotRequired) || (status == Appended && currentSize >= maxLogSizeKB * 1024))
    {
      if entry.index <= prevIndex {
        return IndexBehind;
      }
      if entry.index > prevIndex + 1 {
        return IndexAhead;
      }
      NoPrior(entries);
      WriteEntry([], entries, entry);
      NoPrior(entries + [entry]);
      entries := entries + [entry];
      prevIndex, prevTerm := entry.index, entry.term;
      if currentSize >= maxLogSizeKB * 1024 {
        snapshotRequired := true;
      }
      status := Appended;
    }

    /** Writes one frame to the end of the active file. */
    method WriteEntry(ghost prior: seq<byte>, ghost before: seq<LogEntry>, entry: LogEntry)
      requires FileHolds(activeFile, prior, before)
      modifies this`files, this`currentSize
      ensures FileHolds(activeFile, prior, before + [entry])
      ensures files == old(files)[activeFile := prior + EncodeAll(before + [entry])]
      ensures currentSize - |EncodeAll(before + [entry])| == old(currentSize) - |EncodeAll(before)|
    {
      var data := EncodeLogEntry(entry);
      EncodeAllSnoc(before, entry);
      assert (prior + EncodeAll(before)) + data[..] == prior + EncodeAll(before + [entry]);
      files := files[activeFile := files[activeFile] + data[..]];
      currentSize := currentSize + data.Length;
    }

    lemma NoPrior(es: seq<LogEntry>)
      ensures [] + EncodeAll(es) == EncodeAll(es)
    {
    }

    method WriteOut(ghost prior: seq<byte>, es: seq<LogEntry>)
      requires FileHolds(activeFile, prior, []) && currentSize == 0
      modifies this`files, this`currentSize
      ensures FileHolds(activeFile, prior, es) && currentSize == |EncodeAll(es)|
      ensures files == old(files)[activeFile := prior + EncodeAll(es)]
    {
      for i := 0 to |es|
        invariant FileHolds(activeFile, prior, es[..i]) && currentSize == |EncodeAll(es[..i])|
        invariant files == old(files)[activeFile := prior + EncodeAll(es[..i])]
      {
        WriteEntry(prior, es[..i], es[i]);
        assert es[..i + 1] == es[..i] + [es[i]];
      }
      assert es[..|es|] == es;
    }

    method PositionOf(index: int) returns (k: nat)
      ensures k == FirstAt(entries, index)
    {
      k := 0;
      while k < |entries| && entries[k].index != index
        invariant k <= |entries| && FirstAt(entries, index) == FirstFrom(entries, k, index)
      {
        k := k + 1;
      }
    }

    method RewriteFile()
      modifies this`files, this`currentSize
      ensures Valid() && files == old(files)[activeFile := EncodeAll(entries)] && currentSize == |EncodeAll(entries)|
    {
      files := files[activeFile := []];
      currentSize := 0;
      NoPrior([]);
      WriteOut([], entries);
      NoPrior(entries);
    }

    method TruncateLog(fromIndex: int)
      requires Valid()
      modifies this
      ensures Valid() && OnDisk() == DiskTruncate(old(OnDisk()), fromIndex)
      ensures maxLogSizeKB == old(maxLogSizeKB)
    {
      var cut := PositionOf(fromIndex);
      if cut == |entries| {
        return;
      }
      entries := entries[..cut];
      RewriteFile();
      if |entries| > 0 {
        prevIndex, prevTerm := entries[|entries| - 1].index, entries[|entries| - 1].term;
      }
    }

    /** The first phase of StoreSnapshot, under the lock. */
    method CaptureSnapshot() returns (c: Option<Capture>)
      ensures c == CaptureOf(Log())
    {
      if |entries| == 0 {
        return None;
      }
      c := Some(Capture(entries[|entries| - 1].index, entries[|entries| - 1].term));
    }

    /** The rest of StoreSnapshot: active.log is rewritten, the new log file is opened, and rotateFile swaps it in.
        In every run of Op the file is a new one, so that Valid() holds again: see RotateKeepsFilesInv. */
    method FinishSnapshot(c: Capture, compacted: seq<LogEntry>)
      requires Valid()
      modifies this
      ensures OnDisk() == DiskRotate(old(OnDisk()), c.cutoff, c.term, compacted)
      ensures old(FileName(c.term, c.cutoff) !in files) ==> Valid()
      ensures maxLogSizeKB == old(maxLogSizeKB)
    {
      snapshotFile := [];
      for i := 0 to |compacted|
        modifies this`snapshotFile
        invariant snapshotFile == EncodeFirst(compacted, i)
      {
        var buf := EncodeLogEntry(compacted[i]);
        snapshotFile := snapshotFile + buf[..];
      }
      var name := FileName(c.term, c.cutoff);
      if name !in files {
        files := files[name := []];
      }
      RotateFile(name, c.cutoff, c.term);
      NoPrior(entries);
    }

    method RotateFile(newFile: FileName, cutoff: int, lastTerm: int)
      requires newFile in files
      modifies this
      ensures Log() == Rotate(old(Log()), cutoff, lastTerm)
      ensures FileHolds(newFile, old(files[newFile]), entries) && currentSize == |EncodeAll(entries)|
      ensures files == old(files)[newFile := old(files[newFile]) + EncodeAll(entries)] && activeFile == newFile
      ensures snapshotFile == old(snapshotFile) && tempFile == old(tempFile) && maxLogSizeKB == old(maxLogSizeKB)
    {
      activeFile := newFile;
      currentSize := 0;
      var remaining := [];
      for i := 0 to |entries|
        modifies {}
        invariant remaining == AfterFirst(entries, i, cutoff)
      {
        if entries[i].index > cutoff {
          remaining := remaining + [entries[i]];
        }
      }
      WriteOut(files[newFile], remaining);
      entries := remaining;
      discIndex, discTerm := cutoff, lastTerm;
    }

    /** Fails when a later chunk arrives for a transfer that was never begun. */
    method InstallSnapshot(offset: nat, data: seq<byte>, done: bool, lastIndex: int, lastTerm: int) returns (ok: bool)
      requires Valid()
      modifies this
      ensures Valid()
      ensures match DiskInstall(old(OnDisk()), offset, data, done, lastIndex, lastTerm)
              case Some(d) => ok && OnDisk() == d
              case None => !ok && OnDisk() == old(OnDisk())
      ensures maxLogSizeKB == old(maxLogSizeKB)
    {
      if offset == 0 {
        tempFile := Some([]);
      } else if tempFile.None? {
        return false;
      }
      tempFile := Some(WriteAt(tempFile.value, offset, data));
      if done {
        MountSnapshot(lastIndex, lastTerm);
      }
      ok := true;
    }

    /** The finished transfer becomes active.log, and the log that it replaces is emptied. */
    method MountSnapshot(lastIndex: int, lastTerm: int)
      requires activeFile in files && tempFile.Some?
      modifies this
      ensures Valid() && maxLogSizeKB == old(maxLogSizeKB)
      ensures OnDisk() == Rewrite(old(OnDisk()), Install(lastIndex, lastTerm)).(snapshot := old(tempFile).value,
                                                                                 temp := None)
    {
      snapshotFile, tempFile := tempFile.value, None;
      files := files[activeFile := []];
      entries, currentSize := [], 0;
      prevIndex, prevTerm, discIndex, discTerm := lastIndex, lastTerm, lastIndex, lastTerm;
    }

    method Entries(start: int, end: int) returns (r: seq<LogEntry>)
      ensures r == Between(Log(), start, end)
    {
      var lo, hi := start - discIndex - 1, end - discIndex - 1;
      if lo < 0 {
        lo := 0;
      }
      if hi < 0 {
        hi := 0;
      }
      if hi > |entries| {
        hi := |entries|;
      }
      if lo >= hi {
        return [];
      }
      r := entries[lo..hi];
    }
  }

  /** findLatestLog: one pass over the directory, in whatever order it is listed. */
  method FindLatestLog(names: set<FileName>) returns (latest: Option<FileName>)
    ensures latest.None? <==> names == {}
    ensures latest.Some? ==> IsLatest(names, latest.value)
  {
    latest := None;
    var left := names;
    ghost var seen: set<FileName> := {};
    while left != {}
      invariant seen + left == names
      invariant latest.None? <==> seen == {}
      invariant latest.Some? ==> IsLatest(seen, latest.value)
      decreases |left|
    {
      var name :| name in left;
      if latest.None? || Newer(name, latest.value) {
        latest := Some(name);
      }
      left, seen := left - {name}, seen + {name};
    }
    assert seen == names;
  }

  /** LoadStorage on a data directory holding these files. */
  method LoadStorage(files: map<FileName, seq<byte>>, snapshot: seq<byte>, maxLogSizeKB: nat) returns (h: Handler?)
    ensures h != null ==> fresh(h) && h.maxLogSizeKB == maxLogSizeKB
    ensures LoadsAs(Disk(EMPTY_STORE, files, FRESH, 0, snapshot, None),
                    if h == null then LoadFailed else Loaded(h.OnDisk()))
  {
    var directory := Disk(EMPTY_STORE, files, FRESH, 0, snapshot, None);
    var latest := FindLatestLog(files.Keys);
    assert latest.None? ==> files == map[];
    var snap := ReadLogEntries(snapshot);
    if snap.ReadPanic? {
      return null;
    }
    if latest.Some? {
      var log := ReadLogEntries(files[latest.value]);
      if !log.ReadOk? {
        return null;
      }
      h := new Handler(OpenedAt(directory, latest.value, log.entries, log.size), maxLogSizeKB);
    } else {
      var name := LastOr(if snap.ReadOk? then snap.entries else [], FRESH);
      h := new Handler(OpenedAt(directory.(files := files[name := []]), name, [], 0), maxLogSizeKB);
    }
  }
}
