/** The log compactor, createSnapshot of internal/consensus/filesystem/interpreter.go: a backward scan that keeps the
    latest state of every job that is not finished, and every entry it cannot read. */
module Compactor {
  import opened Codec
  import opened Payloads

  // ---------------------------------------------------------------- what an entry is to the compactor

  /** An unreadable entry is filed under "raw-<index>", a job state under its id. */
  datatype Kind = Raw(key: string) | Live(id: string) | Terminal(id: string) | Dropped

  function Digits(n: nat): (s: string)
    ensures s != []
  {
    if n < 10 then [(n as char) + '0'] else Digits(n / 10) + [((n % 10) as char) + '0']
  }

  function Decimal(n: int): string {
    if n < 0 then "-" + Digits(-n) else Digits(n)
  }

  function RawKey(index: int): string {
    "raw-" + Decimal(index)
  }

  function KindOf(parse: Parser, e: LogEntry): Kind {
    var d := parse(e.payload);
    if !IsGeneric(d) then Raw(RawKey(e.index))
    else if TextOf(d.id) == "" then Dropped
    else if d.state.Number? then
      if d.state.n == COMPLETED || d.state.n == FAILED then Terminal(TextOf(d.id)) else Live(TextOf(d.id))
    else Dropped
  }

  function Kinds(parse: Parser, log: seq<LogEntry>): (ks: seq<Kind>)
    ensures |ks| == |log|
  {
    seq(|log|, i requires 0 <= i < |log| => KindOf(parse, log[i]))
  }

  // ---------------------------------------------------------------- what should be kept

  ghost predicate HasTerminal(ks: seq<Kind>, id: string) {
    exists j :: 0 <= j < |ks| && ks[j] == Terminal(id)
  }

  /** The entries that a compaction is for: the unreadable ones, and the latest state of each unfinished id. */
  ghost predicate Keep(ks: seq<Kind>, i: nat) {
    && i < |ks|
    && (ks[i].Raw?
        || (ks[i].Live? && !HasTerminal(ks, ks[i].id) && IsLast(ks, i)))
  }

  ghost predicate IsLast(ks: seq<Kind>, i: nat)
    requires i < |ks|
  {
    forall j :: i < j < |ks| ==> ks[j] != ks[i]
  }

  // ---------------------------------------------------------------- the backward scan

  /** `snapshots` maps a key to the position of the entry kept for it. */
  datatype Scan = Scan(snapshots: map<string, nat>, excluded: set<string>)

  function Visit(s: Scan, k: Kind, at: nat): Scan {
    match k
    case Raw(key) => s.(snapshots := s.snapshots[key := at])
    case Live(id) => if id in s.excluded || id in s.snapshots then s else s.(snapshots := s.snapshots[id := at])
    case Terminal(id) => if id in s.excluded then s else Scan(s.snapshots - {id}, s.excluded + {id})
    case Dropped => s
  }

  /** The scan has come down to position `i`. */
  function ScanFrom(ks: seq<Kind>, i: nat): Scan
    requires i <= |ks|
    decreases |ks| - i
  {
    if i == |ks| then Scan(map[], {}) else Visit(ScanFrom(ks, i + 1), ks[i], i)
  }

  function Kept(ks: seq<Kind>): set<nat> {
    ScanFrom(ks, 0).snapshots.Values
  }

  function KeyOf(k: Kind): string {
    match k
    case Raw(key) => key
    case Live(id) => id
    case Terminal(id) => id
    case Dropped => ""
  }

  ghost predicate TerminalFrom(ks: seq<Kind>, i: nat, key: string) {
    exists j :: i <= j < |ks| && ks[j] == Terminal(key)
  }

  ghost predicate RawFrom(ks: seq<Kind>, i: nat, key: string) {
    exists j :: i <= j < |ks| && ks[j] == Raw(key)
  }

  ghost predicate LiveFrom(ks: seq<Kind>, i: nat, key: string) {
    exists j :: i <= j < |ks| && ks[j] == Live(key)
  }

  /** What stands under `key` once the scan has come down to `i`: an unreadable entry that no finish follows it to
      wipe, the first of them; failing that, the last state of an id with neither finish nor unreadable namesake. */
  ghost predicate Stands(ks: seq<Kind>, i: nat, key: string, at: nat) {
    && i <= at < |ks|
    && match ks[at]
       case Raw(k) => k == key && (TerminalFrom(ks, i, key) ==> TerminalFrom(ks, at + 1, key))
                      && forall j :: i <= j < at ==> ks[j] != ks[at]
       case Live(k) => k == key && !TerminalFrom(ks, i, key) && !RawFrom(ks, i, key)
                       && forall j :: at < j < |ks| ==> ks[j] != ks[at]
       case _ => false
  }

  lemma {:induction false} ScanStands(ks: seq<Kind>, i: nat, key: string, at: nat)
    requires i <= |ks|
    ensures key in ScanFrom(ks, i).excluded <==> TerminalFrom(ks, i, key)
    ensures !TerminalFrom(ks, i, key) ==>
              (key in ScanFrom(ks, i).snapshots <==> RawFrom(ks, i, key) || LiveFrom(ks, i, key))
    ensures key in ScanFrom(ks, i).snapshots && ScanFrom(ks, i).snapshots[key] == at <==> Stands(ks, i, key, at)
    decreases |ks| - i
  {
    if i < |ks| {
      ScanStands(ks, i + 1, key, at);
      Unroll(ks, i, key);
    }
  }

  lemma Unroll(ks: seq<Kind>, i: nat, key: string)
    requires i < |ks|
    ensures TerminalFrom(ks, i, key) <==> ks[i] == Terminal(key) || TerminalFrom(ks, i + 1, key)
    ensures RawFrom(ks, i, key) <==> ks[i] == Raw(key) || RawFrom(ks, i + 1, key)
    ensures LiveFrom(ks, i, key) <==> ks[i] == Live(key) || LiveFrom(ks, i + 1, key)
  {
  }

  lemma KeptStands(ks: seq<Kind>, at: nat)
    ensures at in Kept(ks) <==> at < |ks| && Stands(ks, 0, KeyOf(ks[at]), at)
  {
    var snapshots := ScanFrom(ks, 0).snapshots;
    if at in Kept(ks) {
      var key :| key in snapshots && snapshots[key] == at;
      ScanStands(ks, 0, key, at);
    }
    if at < |ks| && Stands(ks, 0, KeyOf(ks[at]), at) {
      ScanStands(ks, 0, KeyOf(ks[at]), at);
    }
  }

  // ---------------------------------------------------------------- exactness

  /** Two unreadable entries never share a key, and no job is called like an unreadable entry, unless that job was
      finished after the entry. */
  ghost predicate NoClash(ks: seq<Kind>) {
    forall m :: 0 <= m < |ks| && ks[m].Raw? ==>
      && (forall n :: 0 <= n < |ks| && n != m ==> ks[n] != ks[m])
      && (LiveFrom(ks, 0, ks[m].key) || TerminalFrom(ks, 0, ks[m].key) ==> TerminalFrom(ks, m + 1, ks[m].key))
  }

  ghost predicate Exact(ks: seq<Kind>) {
    forall at: nat :: at in Kept(ks) <==> Keep(ks, at)
  }

  /** Whatever the log, nothing is kept that should not be. */
  lemma KeptOnlyIfDue(ks: seq<Kind>, at: nat)
    requires at in Kept(ks)
    ensures Keep(ks, at)
  {
    KeptStands(ks, at);
  }

  lemma {:induction false} LastLive(ks: seq<Kind>, id: string, i: nat) returns (last: nat)
    requires i < |ks| && ks[i] == Live(id)
    ensures i <= last < |ks| && ks[last] == Live(id) && forall j :: last < j < |ks| ==> ks[j] != Live(id)
    decreases |ks| - i
  {
    if j :| i < j < |ks| && ks[j] == Live(id) {
      last := LastLive(ks, id, j);
    } else {
      last := i;
    }
  }

  /** Compaction keeps exactly what it should, exactly when no keys clash. */
  lemma CompactionExact(ks: seq<Kind>)
    ensures Exact(ks) <==> NoClash(ks)
  {
    if NoClash(ks) {
      forall at: nat ensures at in Kept(ks) <==> Keep(ks, at) {
        KeptStands(ks, at);
      }
    }
    if Exact(ks) {
      forall m | 0 <= m < |ks| && ks[m].Raw?
        ensures forall n :: 0 <= n < |ks| && n != m ==> ks[n] != ks[m]
        ensures LiveFrom(ks, 0, ks[m].key) || TerminalFrom(ks, 0, ks[m].key) ==> TerminalFrom(ks, m + 1, ks[m].key)
      {
        KeptStands(ks, m);
        forall n | 0 <= n < |ks| && n != m ensures ks[n] != ks[m] {
          KeptStands(ks, n);
        }
        var key := ks[m].key;
        if LiveFrom(ks, 0, key) && !TerminalFrom(ks, 0, key) {
          var i :| 0 <= i < |ks| && ks[i] == Live(key);
          var last := LastLive(ks, key, i);
          KeptStands(ks, last);
        }
      }
    }
  }

  /** In a log whose indices differ, unreadable entries never share a key. */
  lemma RawKeysDiffer(parse: Parser, log: seq<LogEntry>, m: nat, n: nat)
    requires m < |log| && n < |log| && log[m].index != log[n].index
    requires KindOf(parse, log[m]).Raw?
    ensures Kinds(parse, log)[m] != Kinds(parse, log)[n]
  {
    var a, b := Decimal(log[m].index), Decimal(log[n].index);
    assert RawKey(log[m].index)[4..] == a && RawKey(log[n].index)[4..] == b;
    if a == b {
      DecimalInjective(log[m].index, log[n].index);
    }
  }

  lemma {:induction false} DigitsInjective(m: nat, n: nat)
    requires Digits(m) == Digits(n)
    ensures m == n
    decreases m + n
  {
    var dm, dn := Digits(m), Digits(n);
    assert dm[|dm| - 1] == dn[|dn| - 1];
    assert m % 10 == n % 10;
    if m >= 10 && n >= 10 {
      assert dm[..|dm| - 1] == Digits(m / 10) && dn[..|dn| - 1] == Digits(n / 10);
      DigitsInjective(m / 10, n / 10);
    }
  }

  lemma {:induction false} DigitsAreDigits(n: nat)
    ensures Digits(n)[0] != '-'
  {
    if n >= 10 {
      DigitsAreDigits(n / 10);
    }
  }

  lemma DecimalInjective(m: int, n: int)
    requires Decimal(m) == Decimal(n)
    ensures m == n
  {
    if m >= 0 {
      DigitsAreDigits(m);
    }
    if n >= 0 {
      DigitsAreDigits(n);
    }
    if m < 0 && n < 0 {
      assert Decimal(m)[1..] == Digits(-m) && Decimal(n)[1..] == Digits(-n);
      DigitsInjective(-m, -n);
    } else if m >= 0 && n >= 0 {
      DigitsInjective(m, n);
    }
  }

  /** What a numeral stands for. */
  function ValueOf(s: string): int {
    if s == [] then 0 else 10 * ValueOf(s[..|s| - 1]) + (s[|s| - 1] as int - '0' as int)
  }

  lemma {:induction false} DigitsValue(n: nat)
    ensures ValueOf(Digits(n)) == n && (n > 0 ==> Digits(n)[0] != '0')
    ensures forall k :: 0 <= k < |Digits(n)| ==> '0' <= Digits(n)[k] <= '9'
  {
    if n >= 10 {
      DigitsValue(n / 10);
      assert Digits(n)[..|Digits(n)| - 1] == Digits(n / 10);
    } else {
      assert Digits(n)[..0] == [];
    }
  }

  /** The key of an unreadable entry is "raw-" and its index in decimal, as fmt's %d writes it. */
  lemma RawKeyIsDecimal(index: int)
    ensures RawKey(index)[..4] == "raw-"
    ensures index >= 0 ==> ValueOf(RawKey(index)[4..]) == index && (index > 0 ==> RawKey(index)[4] != '0')
    ensures index < 0 ==> RawKey(index)[4] == '-' && ValueOf(RawKey(index)[5..]) == -index && RawKey(index)[5] != '0'
    ensures forall k :: (if index < 0 then 5 else 4) <= k < |RawKey(index)| ==> '0' <= RawKey(index)[k] <= '9'
  {
    DigitsValue(if index < 0 then -index else index);
    assert RawKey(index)[4..] == Decimal(index);
    if index < 0 {
      assert RawKey(index)[5..] == Digits(-index);
    }
  }

  /** A job that calls itself "raw-1" loses its state to the unreadable entry 1. */
  lemma NamesakeLosesItsState()
    ensures var ks := [Raw(RawKey(1)), Live(RawKey(1))]; Keep(ks, 1) && 1 !in Kept(ks)
  {
    var ks := [Raw(RawKey(1)), Live(RawKey(1))];
    KeptStands(ks, 1);
    assert ks[0] == Raw(RawKey(1));
    assert RawFrom(ks, 0, RawKey(1));
  }

  // ---------------------------------------------------------------- in terms of the documents

  /** The document is about the job `id` and says what has become of it. */
  predicate TellsState(d: Document, id: string) {
    IsGeneric(d) && d.id == Text(id) && id != "" && d.state.Number?
  }

  /** The numbers are those of internal/models/models.go. */
  predicate TellsEnd(d: Document, id: string) {
    TellsState(d, id) && d.state in {Number(2), Number(3)}
  }

  /** No two unreadable entries have the same index, and no job is called "raw-" and the index of one. */
  ghost predicate DistinctlyNamed(parse: Parser, log: seq<LogEntry>) {
    && (forall m, n :: 0 <= m < n < |log| && !IsGeneric(parse(log[m].payload)) && !IsGeneric(parse(log[n].payload)) ==>
          log[m].index != log[n].index)
    && forall m, n :: 0 <= m < |log| && 0 <= n < |log| && !IsGeneric(parse(log[m].payload)) ==>
         !TellsState(parse(log[n].payload), "raw-" + Decimal(log[m].index))
  }

  /** The latest word on a job that has not ended, neither completed nor failed, anywhere in the log. */
  ghost predicate LatestWord(parse: Parser, log: seq<LogEntry>, i: nat, id: string)
    requires i < |log|
  {
    && TellsState(parse(log[i].payload), id)
    && (forall j :: 0 <= j < |log| ==> !TellsEnd(parse(log[j].payload), id))
    && forall j :: i < j < |log| ==> !TellsState(parse(log[j].payload), id)
  }

  ghost predicate WorthKeeping(parse: Parser, log: seq<LogEntry>, i: nat) {
    i < |log| && (!IsGeneric(parse(log[i].payload)) || exists id :: LatestWord(parse, log, i, id))
  }

  lemma KindTells(parse: Parser, e: LogEntry, id: string)
    ensures KindOf(parse, e).Raw? <==> !IsGeneric(parse(e.payload))
    ensures KindOf(parse, e) == Terminal(id) <==> TellsEnd(parse(e.payload), id)
    ensures KindOf(parse, e) == Live(id) <==> TellsState(parse(e.payload), id) && !TellsEnd(parse(e.payload), id)
  {
  }

  lemma DistinctNamesDoNotClash(parse: Parser, log: seq<LogEntry>)
    requires DistinctlyNamed(parse, log)
    ensures NoClash(Kinds(parse, log))
  {
    var ks := Kinds(parse, log);
    forall m | 0 <= m < |ks| && ks[m].Raw?
      ensures forall n :: 0 <= n < |ks| && n != m ==> ks[n] != ks[m]
      ensures !LiveFrom(ks, 0, ks[m].key) && !TerminalFrom(ks, 0, ks[m].key)
    {
      forall n | 0 <= n < |ks|
        ensures ks[n] != Live(ks[m].key) && ks[n] != Terminal(ks[m].key) && (n != m ==> ks[n] != ks[m])
      {
        KindTells(parse, log[n], ks[m].key);
        if n != m && ks[n].Raw? {
          RawKeysDiffer(parse, log, m, n);
        }
      }
    }
  }

  /** What a compaction keeps, read off the documents: every one that cannot be read, and the latest word on each job
      that has not come to an end. */
  lemma DocumentsKeptExactly(parse: Parser, log: seq<LogEntry>, i: nat)
    requires DistinctlyNamed(parse, log)
    ensures i in Kept(Kinds(parse, log)) <==> WorthKeeping(parse, log, i)
  {
    var ks := Kinds(parse, log);
    DistinctNamesDoNotClash(parse, log);
    CompactionExact(ks);
    if i < |log| {
      KeepTells(parse, log, i);
    }
  }

  lemma KeepTells(parse: Parser, log: seq<LogEntry>, i: nat)
    requires i < |log|
    ensures Keep(Kinds(parse, log), i) <==> WorthKeeping(parse, log, i)
  {
    var ks, d := Kinds(parse, log), parse(log[i].payload);
    KindTells(parse, log[i], if d.Object? then TextOf(d.id) else "");
    if ks[i].Live? {
      var id := ks[i].id;
      forall j | 0 <= j < |log| ensures (ks[j] == Terminal(id) <==> TellsEnd(parse(log[j].payload), id))
                                        && (ks[j] == Live(id) || ks[j] == Terminal(id)
                                            <==> TellsState(parse(log[j].payload), id)) {
        KindTells(parse, log[j], id);
      }
      assert Keep(ks, i) <==> LatestWord(parse, log, i, id);
    }
    if id :| LatestWord(parse, log, i, id) {
      KindTells(parse, log[i], id);
    }
  }

  // ---------------------------------------------------------------- any order, again and again

  /** `at` lists the kept positions, each once, in whatever order the map yields them. */
  ghost predicate Lists(at: seq<nat>, kept: set<nat>) {
    && (forall i :: 0 <= i < |at| ==> at[i] in kept)
    && (forall p :: p in kept ==> p in at)
    && (forall i, j :: 0 <= i < j < |at| ==> at[i] != at[j])
  }

  function Pick<T>(s: seq<T>, at: seq<nat>): (r: seq<T>)
    requires forall i :: 0 <= i < |at| ==> at[i] < |s|
    ensures |r| == |at|
    ensures forall i :: 0 <= i < |at| ==> r[i] == s[at[i]]
  {
    seq(|at|, i requires 0 <= i < |at| => s[at[i]])
  }

  ghost predicate ListsKept(ks: seq<Kind>, at: seq<nat>) {
    Lists(at, Kept(ks)) && forall i :: 0 <= i < |at| ==> at[i] < |ks|
  }

  /** Compacting a compacted log, in whatever order it came out, keeps all of it. */
  lemma CompactionIsIdempotent(ks: seq<Kind>, at: seq<nat>)
    requires NoClash(ks) && ListsKept(ks, at)
    ensures NoClash(Pick(ks, at))
    ensures forall i: nat :: i in Kept(Pick(ks, at)) <==> i < |at|
  {
    var out := Pick(ks, at);
    CompactionExact(ks);
    forall i | 0 <= i < |at| ensures Keep(ks, at[i]) {
    }
    forall i | 0 <= i < |at| ensures Keep(out, i) {
      if out[i].Live? {
        LaterTwin(ks, at, i);
      }
    }
    CompactionExact(out);
  }

  /** The kept state of an unfinished id is its only one in the compacted log, which does not mention its finish. */
  lemma LaterTwin(ks: seq<Kind>, at: seq<nat>, i: nat)
    requires ListsKept(ks, at) && i < |at| && ks[at[i]].Live?
    requires forall i :: 0 <= i < |at| ==> Keep(ks, at[i])
    ensures forall j :: 0 <= j < |at| && j != i ==> ks[at[j]] != ks[at[i]]
    ensures forall j :: 0 <= j < |at| ==> !ks[at[j]].Terminal?
  {
    forall j | 0 <= j < |at| && j != i ensures ks[at[j]] != ks[at[i]] {
      assert at[i] != at[j];
      assert Keep(ks, at[i]) && Keep(ks, at[j]);
    }
  }

  // ---------------------------------------------------------------- compacting a compacted prefix

  /** The scan of the whole log keeps the same entries as the scan of the compacted prefix followed by the rest. */
  ghost predicate SameKept(before: seq<Kind>, at: seq<nat>, after: seq<Kind>)
    requires ListsKept(before, at)
  {
    && (forall p: nat :: p < |before| ==> SameInPrefix(before, at, after, p))
    && (forall j: nat :: j < |after| ==> SameInRest(before, at, after, j))
  }

  ghost predicate SameInPrefix(before: seq<Kind>, at: seq<nat>, after: seq<Kind>, p: nat)
    requires ListsKept(before, at)
  {
    p in Kept(before + after) <==> exists i :: 0 <= i < |at| && at[i] == p && i in Kept(Pick(before, at) + after)
  }

  ghost predicate SameInRest(before: seq<Kind>, at: seq<nat>, after: seq<Kind>, j: nat)
    requires ListsKept(before, at)
  {
    |before| + j in Kept(before + after) <==> |at| + j in Kept(Pick(before, at) + after)
  }

  /** Finished, and with no unreadable entry under the same key that the finish would spare: compaction leaves no trace
      of the key, not even of its having been finished. */
  ghost predicate Forgotten(ks: seq<Kind>, key: string) {
    TerminalFrom(ks, 0, key) && forall i :: 0 <= i < |ks| && ks[i] == Raw(key) ==> !TerminalFrom(ks, i + 1, key)
  }

  /** The rest of the log shows that a key was forgotten: something is filed under it again and not finished again; or
      it is finished again, which would have spared an unreadable entry of the prefix. */
  ghost predicate Resurfaces(before: seq<Kind>, after: seq<Kind>, key: string) {
    Forgotten(before, key)
    && if TerminalFrom(after, 0, key) then RawFrom(before, 0, key)
       else RawFrom(after, 0, key) || LiveFrom(after, 0, key)
  }

  lemma FromSplits(a: seq<Kind>, b: seq<Kind>, key: string)
    ensures TerminalFrom(a + b, 0, key) <==> TerminalFrom(a, 0, key) || TerminalFrom(b, 0, key)
    ensures RawFrom(a + b, 0, key) <==> RawFrom(a, 0, key) || RawFrom(b, 0, key)
    ensures LiveFrom(a + b, 0, key) <==> LiveFrom(a, 0, key) || LiveFrom(b, 0, key)
  {
    Placed(a, b, 0, Terminal(key));
    Placed(a, b, 0, Raw(key));
    Placed(a, b, 0, Live(key));
  }

  lemma Placed(a: seq<Kind>, b: seq<Kind>, from: nat, k: Kind)
    requires from <= |a|
    ensures (exists j :: from <= j < |a + b| && (a + b)[j] == k)
            <==> (exists j :: from <= j < |a| && a[j] == k) || (exists j :: 0 <= j < |b| && b[j] == k)
  {
    if j :| from <= j < |a| && a[j] == k {
      assert (a + b)[j] == k;
    }
    if j :| 0 <= j < |b| && b[j] == k {
      assert (a + b)[|a| + j] == k;
    }
    if j :| from <= j < |a + b| && (a + b)[j] == k {
      assert if j < |a| then a[j] == k else b[j - |a|] == k;
    }
  }

  /** When an entry of a prefix is kept. */
  lemma KeptInPrefix(a: seq<Kind>, b: seq<Kind>, p: nat)
    requires p < |a|
    ensures p in Kept(a + b) <==>
              match a[p]
              case Raw(key) => (TerminalFrom(b, 0, key) || (TerminalFrom(a, 0, key) ==> TerminalFrom(a, p + 1, key)))
                               && forall j :: 0 <= j < p ==> a[j] != a[p]
              case Live(key) => Stands(a, 0, key, p) && !TerminalFrom(b, 0, key) && !RawFrom(b, 0, key)
                                && !LiveFrom(b, 0, key)
              case _ => false
  {
    var s, key := a + b, KeyOf(a[p]);
    KeptStands(s, p);
    FromSplits(a, b, key);
    Placed(a, b, p + 1, Terminal(key));
    Placed(a, b, p + 1, Live(key));
    assert forall j :: 0 <= j < |a| ==> s[j] == a[j];
  }

  /** When an entry of the rest is kept. */
  lemma KeptInRest(a: seq<Kind>, b: seq<Kind>, j: nat)
    requires j < |b|
    ensures |a| + j in Kept(a + b) <==>
              match b[j]
              case Raw(key) => !RawFrom(a, 0, key) && (forall i :: 0 <= i < j ==> b[i] != b[j])
                               && (TerminalFrom(a, 0, key) || TerminalFrom(b, 0, key) ==> TerminalFrom(b, j + 1, key))
              case Live(key) => !TerminalFrom(a, 0, key) && !RawFrom(a, 0, key) && Stands(b, 0, key, j)
              case _ => false
  {
    var s, key := a + b, KeyOf(b[j]);
    KeptStands(s, |a| + j);
    FromSplits(a, b, key);
    FirstInRest(a, b, j);
    LastInRest(a, b, j);
    assert TerminalFrom(s, |a| + j + 1, key) <==> TerminalFrom(b, j + 1, key) by {
      if k :| j < k < |b| && b[k] == Terminal(key) {
        assert s[|a| + k] == Terminal(key);
      }
      if k :| |a| + j < k < |s| && s[k] == Terminal(key) {
        assert b[k - |a|] == Terminal(key);
      }
    }
  }

  lemma FirstInRest(a: seq<Kind>, b: seq<Kind>, j: nat)
    requires j < |b|
    ensures b[j].Raw? ==>
              ((forall k :: 0 <= k < |a| + j ==> (a + b)[k] != b[j])
               <==> !RawFrom(a, 0, b[j].key) && forall i :: 0 <= i < j ==> b[i] != b[j])
  {
    var s := a + b;
    if k :| 0 <= k < |a| && a[k] == b[j] {
      assert s[k] == b[j];
    }
    if i :| 0 <= i < j && b[i] == b[j] {
      assert s[|a| + i] == b[j];
    }
    if k :| 0 <= k < |a| + j && s[k] == b[j] {
      assert if k < |a| then a[k] == b[j] else b[k - |a|] == b[j];
    }
  }

  lemma LastInRest(a: seq<Kind>, b: seq<Kind>, j: nat)
    requires j < |b|
    ensures (forall k :: |a| + j < k < |a + b| ==> (a + b)[k] != b[j]) <==> (forall i :: j < i < |b| ==> b[i] != b[j])
  {
    var s := a + b;
    if i :| j < i < |b| && b[i] == b[j] {
      assert s[|a| + i] == b[j];
    }
    if k :| |a| + j < k < |s| && s[k] == b[j] {
      assert b[k - |a|] == b[j];
    }
  }

  /** A compacted log holds no finishes, and each of its keys once. */
  lemma CompactedOnce(before: seq<Kind>, at: seq<nat>, key: string)
    requires ListsKept(before, at)
    ensures !TerminalFrom(Pick(before, at), 0, key)
    ensures forall i, j :: 0 <= i < j < |at| ==> KeyOf(Pick(before, at)[i]) != KeyOf(Pick(before, at)[j])
  {
    var c := Pick(before, at);
    forall i | 0 <= i < |at| ensures c[i].Raw? || c[i].Live? {
      KeptStands(before, at[i]);
    }
    forall i, j | 0 <= i < j < |at| ensures KeyOf(c[i]) != KeyOf(c[j]) {
      KeptStands(before, at[i]);
      KeptStands(before, at[j]);
      if KeyOf(c[i]) == KeyOf(c[j]) {
        StandsAlone(before, KeyOf(c[i]), at[i], at[j]);
      }
    }
  }

  /** Only one entry stands under a key. */
  lemma StandsAlone(ks: seq<Kind>, key: string, p: nat, q: nat)
    requires Stands(ks, 0, key, p) && Stands(ks, 0, key, q)
    ensures p == q
  {
    ScanStands(ks, 0, key, p);
    ScanStands(ks, 0, key, q);
  }

  /** The unreadable entries of a key that survive a compaction: all that there is to see of it, if it was finished. */
  lemma RawSurvives(before: seq<Kind>, at: seq<nat>, key: string)
    requires ListsKept(before, at)
    ensures RawFrom(Pick(before, at), 0, key)
            <==> RawFrom(before, 0, key) && !Forgotten(before, key)
  {
    var c := Pick(before, at);
    if i :| 0 <= i < |at| && c[i] == Raw(key) {
      KeptStands(before, at[i]);
      assert before[at[i]] == Raw(key);
    }
    if RawFrom(before, 0, key) && !Forgotten(before, key) {
      var first := FirstRaw(before, 0, key);
      FirstRawOutlives(before, key, first);
      KeptStands(before, first);
      var i :| 0 <= i < |at| && at[i] == first;
      assert c[i] == Raw(key);
    }
  }

  lemma {:induction false} FirstRaw(ks: seq<Kind>, from: nat, key: string) returns (first: nat)
    requires RawFrom(ks, from, key)
    ensures from <= first < |ks| && ks[first] == Raw(key) && forall j :: from <= j < first ==> ks[j] != Raw(key)
    decreases |ks| - from
  {
    if ks[from] == Raw(key) {
      first := from;
    } else {
      Unroll(ks, from, key);
      first := FirstRaw(ks, from + 1, key);
    }
  }

  /** If any unreadable entry of the key precedes a finish, the first one does. */
  lemma FirstRawOutlives(ks: seq<Kind>, key: string, first: nat)
    requires first < |ks| && ks[first] == Raw(key) && forall j :: 0 <= j < first ==> ks[j] != Raw(key)
    requires !Forgotten(ks, key)
    ensures TerminalFrom(ks, 0, key) ==> TerminalFrom(ks, first + 1, key)
  {
    if TerminalFrom(ks, 0, key) {
      var i :| 0 <= i < |ks| && ks[i] == Raw(key) && TerminalFrom(ks, i + 1, key);
      assert first <= i;
    }
  }

  lemma PrefixFate(before: seq<Kind>, at: seq<nat>, after: seq<Kind>, p: nat)
    requires ListsKept(before, at) && p < |before| && !Resurfaces(before, after, KeyOf(before[p]))
    ensures SameInPrefix(before, at, after, p)
  {
    var c, key := Pick(before, at), KeyOf(before[p]);
    KeptInPrefix(before, after, p);
    KeptStands(before, p);
    CompactedOnce(before, at, key);
    if i :| 0 <= i < |at| && at[i] == p {
      KeptInPrefix(c, after, i);
      assert c[i] == before[p] && forall j :: 0 <= j < |c| && j != i ==> KeyOf(c[j]) != key;
      KeptStands(c, i);
    }
  }

  lemma RestFate(before: seq<Kind>, at: seq<nat>, after: seq<Kind>, j: nat)
    requires ListsKept(before, at) && j < |after| && !Resurfaces(before, after, KeyOf(after[j]))
    ensures SameInRest(before, at, after, j)
  {
    var c, key := Pick(before, at), KeyOf(after[j]);
    KeptInRest(before, after, j);
    KeptInRest(c, after, j);
    CompactedOnce(before, at, key);
    RawSurvives(before, at, key);
  }

  lemma ResurfacedDiffers(before: seq<Kind>, at: seq<nat>, after: seq<Kind>, key: string)
    requires ListsKept(before, at) && Resurfaces(before, after, key)
    ensures !SameKept(before, at, after)
  {
    var c := Pick(before, at);
    CompactedOnce(before, at, key);
    RawSurvives(before, at, key);
    if TerminalFrom(after, 0, key) {
      var p := FirstRaw(before, 0, key);
      KeptInPrefix(before, after, p);
      KeptStands(before, p);
      assert !SameInPrefix(before, at, after, p);
    } else {
      var j: nat;
      if RawFrom(after, 0, key) {
        j := FirstRaw(after, 0, key);
      } else {
        var i :| 0 <= i < |after| && after[i] == Live(key);
        j := LastLive(after, key, i);
      }
      KeptInRest(before, after, j);
      KeptInRest(c, after, j);
      assert !SameInRest(before, at, after, j);
    }
  }

  /** Compacting a compacted prefix followed by the rest of the log keeps the same entries as compacting the whole log,
      whatever order the first compaction came out in, if and only if no key that the first one has forgotten resurfaces
      in the rest. Clashing keys are no exception. */
  lemma CompactionComposes(before: seq<Kind>, at: seq<nat>, after: seq<Kind>)
    requires ListsKept(before, at)
    ensures SameKept(before, at, after) <==> forall key :: !Resurfaces(before, after, key)
  {
    if forall key :: !Resurfaces(before, after, key) {
      forall p: nat | p < |before| ensures SameInPrefix(before, at, after, p) {
        PrefixFate(before, at, after, p);
      }
      forall j: nat | j < |after| ensures SameInRest(before, at, after, j) {
        RestFate(before, at, after, j);
      }
    } else {
      var key :| Resurfaces(before, after, key);
      ResurfacedDiffers(before, at, after, key);
    }
  }

  /** No job is called like an unreadable entry. */
  ghost predicate NoNamesakes(ks: seq<Kind>) {
    forall m, n :: 0 <= m < |ks| && 0 <= n < |ks| && ks[m].Raw? && !ks[n].Dropped? && KeyOf(ks[n]) == ks[m].key ==>
      ks[n].Raw?
  }

  /** A job that was finished in `before` and comes alive again, without another finish, in `after`. */
  ghost predicate Revived(before: seq<Kind>, after: seq<Kind>) {
    exists j :: 0 <= j < |after| && after[j].Live?
                && TerminalFrom(before, 0, after[j].id) && !TerminalFrom(after, 0, after[j].id)
  }

  /** So, in a log where no job is called like an unreadable entry, it takes a job that comes back to life after its
      finish to tell the two compactions apart. */
  lemma OnlyRevivedJobsDiffer(before: seq<Kind>, at: seq<nat>, after: seq<Kind>)
    requires ListsKept(before, at) && NoNamesakes(before + after)
    ensures SameKept(before, at, after) <==> !Revived(before, after)
  {
    CompactionComposes(before, at, after);
    if j :| 0 <= j < |after| && after[j].Live?
            && TerminalFrom(before, 0, after[j].id) && !TerminalFrom(after, 0, after[j].id) {
      NoRawOf(before, after, after[j].id);
      assert Resurfaces(before, after, after[j].id);
    }
    if key :| Resurfaces(before, after, key) {
      NoRawOf(before, after, key);
      var j :| 0 <= j < |after| && after[j] == Live(key);
    }
  }

  lemma NoRawOf(before: seq<Kind>, after: seq<Kind>, id: string)
    requires NoNamesakes(before + after) && TerminalFrom(before, 0, id)
    ensures !RawFrom(before, 0, id) && !RawFrom(after, 0, id)
  {
    var s := before + after;
    var t :| 0 <= t < |before| && before[t] == Terminal(id);
    assert s[t] == Terminal(id);
    forall m | 0 <= m < |s| ensures s[m] != Raw(id) {
    }
    assert forall m :: 0 <= m < |before| ==> s[m] == before[m];
    assert forall m :: 0 <= m < |after| ==> s[|before| + m] == after[m];
  }

  /** What tells them apart otherwise: the finish of "raw-7" is gone after the first compaction, so that the unreadable
      entry 7 of the rest is kept, while the whole log has the finish wipe it. */
  lemma ForgottenNamesakeResurfaces()
    ensures var before, after := [Terminal(RawKey(7))], [Raw(RawKey(7))];
            ListsKept(before, []) && !Revived(before, after) && !SameKept(before, [], after)
  {
    var key := RawKey(7);
    var before, after := [Terminal(key)], [Raw(key)];
    forall p: nat ensures p !in Kept(before) {
      KeptStands(before, p);
    }
    assert before[0] == Terminal(key) && after[0] == Raw(key);
    assert Resurfaces(before, after, key);
    ResurfacedDiffers(before, [], after, key);
  }

  // ---------------------------------------------------------------- the method

  /** createSnapshot: the backward scan over the log, then the values of the map in any order. */
  method CreateSnapshot(parse: Parser, data: seq<LogEntry>) returns (kept: seq<LogEntry>, ghost at: seq<nat>)
    ensures ListsKept(Kinds(parse, data), at) && kept == Pick(data, at)
    ensures DistinctlyNamed(parse, data) ==> forall i: nat :: i in at <==> WorthKeeping(parse, data, i)
  {
    ghost var ks := Kinds(parse, data);
    var snapshots: map<string, nat>, excluded: set<string> := map[], {};
    for i := |data| downto 0
      invariant Scan(snapshots, excluded) == ScanFrom(ks, i)
    {
      match KindOf(parse, data[i]) {
        case Raw(key) => snapshots := snapshots[key := i];
        case Dropped =>
        case Terminal(id) =>
          if id !in excluded {
            excluded, snapshots := excluded + {id}, snapshots - {id};
          }
        case Live(id) =>
          if id !in excluded && id !in snapshots {
            snapshots := snapshots[id := i];
          }
      }
    }
    kept, at := CollectValues(ks, data, snapshots);
    if DistinctlyNamed(parse, data) {
      forall i: nat ensures i in at <==> WorthKeeping(parse, data, i) {
        DocumentsKeptExactly(parse, data, i);
      }
    }
  }

  /** slices.Collect(maps.Values(m)): the order of the keys is arbitrary. */
  method CollectValues(ghost ks: seq<Kind>, data: seq<LogEntry>, snapshots: map<string, nat>)
    returns (kept: seq<LogEntry>, ghost at: seq<nat>)
    requires |ks| == |data| && snapshots == ScanFrom(ks, 0).snapshots
    ensures ListsKept(ks, at) && kept == Pick(data, at)
  {
    forall key | key in snapshots ensures snapshots[key] < |ks| && KeyOf(ks[snapshots[key]]) == key {
      ScanStands(ks, 0, key, snapshots[key]);
    }
    kept, at := [], [];
    var left := snapshots.Keys;
    while left != {}
      invariant left <= snapshots.Keys
      invariant forall i :: 0 <= i < |at| ==> at[i] in Kept(ks) && at[i] < |ks| && KeyOf(ks[at[i]]) !in left
      invariant forall key :: key in snapshots && key !in left ==> snapshots[key] in at
      invariant forall i, j :: 0 <= i < j < |at| ==> at[i] != at[j]
      invariant kept == Pick(data, at)
      decreases |left|
    {
      var key :| key in left;
      var p := snapshots[key];
      kept, at, left := kept + [data[p]], at + [p], left - {key};
    }
    assert ListsKept(ks, at);
  }
}
