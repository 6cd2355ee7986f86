/** The packing queue of internal/arbiter/packer.go: a map from ids to items, shadowed by a slice that is sorted, and
    rid of removed items, only when something is popped.

    The reference is a list of the items in the order in which they were pushed, from which a pop takes the best fit. */
module ArbiterQueue {
  import opened Wrappers

  /** The accessors that a queue is built with. */
  datatype Keys<!T> = Keys(id: T -> string, prio: T -> int, cpu: T -> int, mem: T -> int)

  datatype Lazy<T> = Lazy(items: map<string, T>, order: seq<T>, dirty: bool)

  // ---------------------------------------------------------------- the order

  /** Higher priority first; among equals, more memory first. */
  predicate Outranks<T>(f: Keys<T>, x: T, y: T) {
    f.prio(x) > f.prio(y) || (f.prio(x) == f.prio(y) && f.mem(x) > f.mem(y))
  }

  ghost predicate Ranked<T>(f: Keys<T>, s: seq<T>) {
    forall i, j :: 0 <= i < j < |s| ==> !Outranks(f, s[j], s[i])
  }

  function Insert<T>(f: Keys<T>, s: seq<T>, x: T): seq<T> {
    if s == [] || !Outranks(f, x, s[|s| - 1]) then s + [x] else Insert(f, s[..|s| - 1], x) + [s[|s| - 1]]
  }

  /** What sort.SliceStable makes of the slice; see StableSortIsUnique. */
  function StableSort<T>(f: Keys<T>, s: seq<T>): seq<T> {
    if s == [] then [] else Insert(f, StableSort(f, s[..|s| - 1]), s[|s| - 1])
  }

  function Keep<T>(s: seq<T>, p: T -> bool): seq<T> {
    if s == [] then []
    else if p(s[|s| - 1]) then Keep(s[..|s| - 1], p) + [s[|s| - 1]]
    else Keep(s[..|s| - 1], p)
  }

  lemma {:induction false} InsertMultiset<T>(f: Keys<T>, s: seq<T>, x: T)
    ensures multiset(Insert(f, s, x)) == multiset(s) + multiset{x} && |Insert(f, s, x)| == |s| + 1
  {
    if s != [] && Outranks(f, x, s[|s| - 1]) {
      InsertMultiset(f, s[..|s| - 1], x);
      assert s == s[..|s| - 1] + [s[|s| - 1]];
    }
  }

  lemma {:induction false} SortMultiset<T>(f: Keys<T>, s: seq<T>)
    ensures multiset(StableSort(f, s)) == multiset(s) && |StableSort(f, s)| == |s|
  {
    if s != [] {
      SortMultiset(f, s[..|s| - 1]);
      InsertMultiset(f, StableSort(f, s[..|s| - 1]), s[|s| - 1]);
      assert s == s[..|s| - 1] + [s[|s| - 1]];
    }
  }

  lemma {:induction false} InsertRanked<T>(f: Keys<T>, s: seq<T>, x: T)
    requires Ranked(f, s)
    ensures Ranked(f, Insert(f, s, x))
    ensures s != [] && Outranks(f, x, s[|s| - 1]) ==>
              forall i :: 0 <= i < |Insert(f, s, x)| ==> !Outranks(f, s[|s| - 1], Insert(f, s, x)[i])
  {
    if s != [] && Outranks(f, x, s[|s| - 1]) {
      var init, last := s[..|s| - 1], s[|s| - 1];
      InsertRanked(f, init, x);
      InsertMultiset(f, init, x);
      var t := Insert(f, init, x);
      forall i | 0 <= i < |t| ensures !Outranks(f, last, t[i]) {
        assert t[i] in multiset(t);
        assert t[i] == x || t[i] in init;
      }
    }
  }

  lemma {:induction false} SortRanked<T>(f: Keys<T>, s: seq<T>)
    ensures Ranked(f, StableSort(f, s))
  {
    if s != [] {
      SortRanked(f, s[..|s| - 1]);
      InsertRanked(f, StableSort(f, s[..|s| - 1]), s[|s| - 1]);
    }
  }

  /** Sorting what is already in order changes nothing. */
  lemma {:induction false} SortOfRanked<T>(f: Keys<T>, s: seq<T>)
    requires Ranked(f, s)
    ensures StableSort(f, s) == s
  {
    if s != [] {
      SortOfRanked(f, s[..|s| - 1]);
      assert |s| > 1 ==> !Outranks(f, s[|s| - 1], s[|s| - 2]);
    }
  }

  // ---------------------------------------------------------------- filters

  lemma {:induction false} KeepSnoc<T>(s: seq<T>, x: T, p: T -> bool)
    ensures Keep(s + [x], p) == if p(x) then Keep(s, p) + [x] else Keep(s, p)
  {
    assert (s + [x])[..|s|] == s;
  }

  lemma {:induction false} KeepMember<T>(s: seq<T>, p: T -> bool, x: T)
    ensures x in Keep(s, p) <==> x in s && p(x)
  {
    if s != [] {
      KeepMember(s[..|s| - 1], p, x);
      assert s == s[..|s| - 1] + [s[|s| - 1]];
    }
  }

  lemma {:induction false} KeepMembers<T>(s: seq<T>, p: T -> bool)
    ensures forall x :: x in Keep(s, p) <==> x in s && p(x)
  {
    if s != [] {
      KeepMembers(s[..|s| - 1], p);
      assert s == s[..|s| - 1] + [s[|s| - 1]];
    }
  }

  lemma {:induction false} KeepSame<T>(s: seq<T>, p: T -> bool, q: T -> bool)
    requires forall x :: x in s ==> p(x) == q(x)
    ensures Keep(s, p) == Keep(s, q)
  {
    if s != [] {
      KeepSame(s[..|s| - 1], p, q);
    }
  }

  lemma {:induction false} KeepAll<T>(s: seq<T>, p: T -> bool)
    requires forall x :: x in s ==> p(x)
    ensures Keep(s, p) == s
  {
    if s != [] {
      assert s == s[..|s| - 1] + [s[|s| - 1]];
      KeepAll(s[..|s| - 1], p);
    }
  }

  lemma {:induction false} KeepTwice<T>(s: seq<T>, p: T -> bool, q: T -> bool, both: T -> bool)
    requires forall x :: x in s ==> both(x) == (p(x) && q(x))
    ensures Keep(Keep(s, p), q) == Keep(s, both)
  {
    if s != [] {
      var init, last := s[..|s| - 1], s[|s| - 1];
      assert s == init + [last];
      KeepTwice(init, p, q, both);
      if p(last) {
        KeepSnoc(Keep(init, p), last, q);
      }
    }
  }

  lemma {:induction false} InsertKeep<T>(f: Keys<T>, s: seq<T>, x: T, p: T -> bool)
    requires Ranked(f, s)
    ensures Keep(Insert(f, s, x), p) == if p(x) then Insert(f, Keep(s, p), x) else Keep(s, p)
  {
    if s == [] || !Outranks(f, x, s[|s| - 1]) {
      KeepSnoc(s, x, p);
      if p(x) && Keep(s, p) != [] {
        var y := Keep(s, p)[|Keep(s, p)| - 1];
        KeepMember(s, p, y);
        NotOutranked(f, s, x, y);
      }
    } else {
      var init, last := s[..|s| - 1], s[|s| - 1];
      InsertKeep(f, init, x, p);
      KeepSnoc(Insert(f, init, x), last, p);
    }
  }

  lemma NotOutranked<T>(f: Keys<T>, s: seq<T>, x: T, y: T)
    requires Ranked(f, s) && y in s && !Outranks(f, x, s[|s| - 1])
    ensures !Outranks(f, x, y)
  {
    var i :| 0 <= i < |s| && s[i] == y;
    assert i < |s| - 1 ==> !Outranks(f, s[|s| - 1], s[i]);
  }

  /** Filtering and sorting commute. */
  lemma {:induction false} SortKeep<T>(f: Keys<T>, s: seq<T>, p: T -> bool)
    ensures StableSort(f, Keep(s, p)) == Keep(StableSort(f, s), p)
  {
    if s != [] {
      var init, last := s[..|s| - 1], s[|s| - 1];
      SortKeep(f, init, p);
      SortRanked(f, init);
      InsertKeep(f, StableSort(f, init), last, p);
      if p(last) {
        SortSnoc(f, Keep(init, p), last);
      }
    }
  }

  lemma {:induction false} SortSnoc<T>(f: Keys<T>, s: seq<T>, x: T)
    ensures StableSort(f, s + [x]) == Insert(f, StableSort(f, s), x)
  {
    assert (s + [x])[..|s|] == s;
  }

  function HasRank<T>(f: Keys<T>, prio: int, mem: int): T -> bool {
    x => f.prio(x) == prio && f.mem(x) == mem
  }

  /** The items of one rank, in the order in which they come. */
  function OfRank<T>(f: Keys<T>, s: seq<T>, prio: int, mem: int): seq<T> {
    Keep(s, HasRank(f, prio, mem))
  }

  ghost predicate SameTies<T>(f: Keys<T>, s: seq<T>, t: seq<T>) {
    forall prio, mem :: OfRank(f, s, prio, mem) == OfRank(f, t, prio, mem)
  }

  lemma SortIsStable<T>(f: Keys<T>, s: seq<T>)
    ensures SameTies(f, s, StableSort(f, s))
  {
    forall prio, mem ensures OfRank(f, s, prio, mem) == OfRank(f, StableSort(f, s), prio, mem) {
      var p := HasRank(f, prio, mem);
      SortKeep(f, s, p);
      var ties := Keep(s, p);
      forall i | 0 <= i < |ties| ensures p(ties[i]) {
        KeepMember(s, p, ties[i]);
      }
      SortOfRanked(f, ties);
      assert OfRank(f, StableSort(f, s), prio, mem) == ties;
    }
  }

  lemma RanksMeet<T>(f: Keys<T>, t: seq<T>, u: seq<T>)
    requires Ranked(f, t) && Ranked(f, u) && SameTies(f, t, u) && t != []
    ensures u != [] && !Outranks(f, u[|u| - 1], t[|t| - 1])
  {
    var last := t[|t| - 1];
    var p := HasRank(f, f.prio(last), f.mem(last));
    assert OfRank(f, t, f.prio(last), f.mem(last)) == OfRank(f, u, f.prio(last), f.mem(last));
    KeepMembers(t, p);
    KeepMembers(u, p);
    assert last in Keep(u, p);
    var i :| 0 <= i < |u| && u[i] == last;
    assert i < |u| - 1 ==> !Outranks(f, u[|u| - 1], u[i]);
  }

  /** Any slice that is in order, and keeps the items of each rank in the order they had, is the one StableSort gives:
      it does not matter how the library sorts. */
  lemma StableSortIsUnique<T>(f: Keys<T>, s: seq<T>, t: seq<T>)
    ensures Ranked(f, t) && SameTies(f, s, t) <==> t == StableSort(f, s)
  {
    SortIsStable(f, s);
    SortRanked(f, s);
    if Ranked(f, t) && SameTies(f, s, t) {
      RankedTiesEqual(f, t, StableSort(f, s));
    }
  }

  lemma {:induction false} RankedTiesEqual<T>(f: Keys<T>, t: seq<T>, u: seq<T>)
    requires Ranked(f, t) && Ranked(f, u) && SameTies(f, t, u)
    ensures t == u
    decreases |t|
  {
    if t == [] {
      if u != [] {
        RanksMeet(f, u, t);
      }
    } else {
      RanksMeet(f, t, u);
      RanksMeet(f, u, t);
      var t', u', x, y := t[..|t| - 1], u[..|u| - 1], t[|t| - 1], u[|u| - 1];
      var last := OfRank(f, t, f.prio(x), f.mem(x));
      assert last == OfRank(f, t', f.prio(x), f.mem(x)) + [x];
      assert last == OfRank(f, u', f.prio(x), f.mem(x)) + [y];
      assert x == y by {
        assert last[|last| - 1] == x && last[|last| - 1] == y;
      }
      forall prio, mem ensures OfRank(f, t', prio, mem) == OfRank(f, u', prio, mem) {
        assert OfRank(f, t, prio, mem) == OfRank(f, u, prio, mem);
        var tail := if f.prio(x) == prio && f.mem(x) == mem then [x] else [];
        assert OfRank(f, t, prio, mem) == OfRank(f, t', prio, mem) + tail;
        assert OfRank(f, u, prio, mem) == OfRank(f, u', prio, mem) + tail;
        assert (OfRank(f, t', prio, mem) + tail)[..|OfRank(f, t', prio, mem)|] == OfRank(f, t', prio, mem);
      }
      RankedTiesEqual(f, t', u');
      assert t == t' + [x] && u == u' + [y];
    }
  }

  // ---------------------------------------------------------------- the operations, on values

  function Empty<T>(): Lazy<T> {
    Lazy(map[], [], false)
  }

  /** An id that is already there has its item overwritten in the map, and only there. */
  function PushOn<T>(f: Keys<T>, q: Lazy<T>, x: T): Lazy<T> {
    if f.id(x) in q.items then q.(items := q.items[f.id(x) := x])
    else Lazy(q.items[f.id(x) := x], q.order + [x], true)
  }

  function PushAll<T>(f: Keys<T>, q: Lazy<T>, xs: seq<T>, n: nat): Lazy<T>
    requires n <= |xs|
  {
    if n == 0 then q else PushOn(f, PushAll(f, q, xs, n - 1), xs[n - 1])
  }

  function RemoveFrom<T>(q: Lazy<T>, id: string): Lazy<T> {
    if id in q.items then q.(items := q.items - {id}, dirty := true) else q
  }

  function IsLive<T>(f: Keys<T>, q: Lazy<T>): T -> bool {
    x => f.id(x) in q.items
  }

  function Live<T>(f: Keys<T>, q: Lazy<T>): seq<T> {
    Keep(q.order, IsLive(f, q))
  }

  function Compacted<T>(f: Keys<T>, q: Lazy<T>): Lazy<T> {
    if q.dirty then q.(order := StableSort(f, Live(f, q)), dirty := false) else q
  }

  function FirstFit<T>(s: seq<T>, fits: T -> bool, from: nat): (i: nat)
    requires from <= |s|
    ensures from <= i <= |s|
    ensures i < |s| ==> fits(s[i])
    ensures forall k :: from <= k < i ==> !fits(s[k])
    decreases |s| - from
  {
    if from == |s| || fits(s[from]) then from else FirstFit(s, fits, from + 1)
  }

  function Pop<T>(f: Keys<T>, q: Lazy<T>, fits: T -> bool): (Lazy<T>, Option<T>) {
    if q.items == map[] then (q, None)
    else
      var c := Compacted(f, q);
      var i := FirstFit(c.order, fits, 0);
      if i == |c.order| then (c, None)
      else (c.(items := c.items - {f.id(c.order[i])}, order := c.order[..i] + c.order[i + 1..]), Some(c.order[i]))
  }

  function Fits<T>(f: Keys<T>, cpu: int, mem: int): T -> bool {
    x => f.cpu(x) <= cpu && f.mem(x) <= mem
  }

  function FitsAnd<T>(f: Keys<T>, cpu: int, mem: int, heuristic: T -> bool): T -> bool {
    x => f.cpu(x) <= cpu && f.mem(x) <= mem && heuristic(x)
  }

  // ---------------------------------------------------------------- the reference

  ghost predicate DistinctIds<T>(f: Keys<T>, log: seq<T>) {
    forall i, j :: 0 <= i < j < |log| ==> f.id(log[i]) != f.id(log[j])
  }

  function NotId<T>(f: Keys<T>, id: string): T -> bool {
    x => f.id(x) != id
  }

  function Without<T>(f: Keys<T>, log: seq<T>, id: string): seq<T> {
    Keep(log, NotId(f, id))
  }

  /** The best fit among the first `n`: whoever fits and is outranked by nobody that fits; on ties, the earliest. */
  function Best<T>(f: Keys<T>, log: seq<T>, fits: T -> bool, n: nat): (b: Option<nat>)
    requires n <= |log|
    ensures b.Some? ==> b.value < n && fits(log[b.value])
  {
    if n == 0 then None
    else
      var b := Best(f, log, fits, n - 1);
      if !fits(log[n - 1]) then b
      else if b.Some? && !Outranks(f, log[n - 1], log[b.value]) then b
      else Some(n - 1)
  }

  /** Best is the argmax: nothing fits if it finds nothing, and nobody who fits outranks what it finds, nor comes before
      it with the same rank. */
  lemma {:induction false} BestIsBest<T>(f: Keys<T>, log: seq<T>, fits: T -> bool, n: nat)
    requires n <= |log|
    ensures Best(f, log, fits, n) == None <==> forall k :: 0 <= k < n ==> !fits(log[k])
    ensures Best(f, log, fits, n).Some? ==>
              forall k :: 0 <= k < n && fits(log[k]) ==>
                var b := Best(f, log, fits, n).value;
                !Outranks(f, log[k], log[b]) && (k < b ==> Outranks(f, log[b], log[k]))
  {
    if n > 0 {
      BestIsBest(f, log, fits, n - 1);
    }
  }

  function Take<T>(f: Keys<T>, log: seq<T>, fits: T -> bool): (seq<T>, Option<T>) {
    match Best(f, log, fits, |log|)
    case None => (log, None)
    case Some(b) => (log[..b] + log[b + 1..], Some(log[b]))
  }

  // ---------------------------------------------------------------- representation

  /** The map holds these items, each under its id, and no others. */
  ghost predicate Indexes<T>(f: Keys<T>, items: map<string, T>, log: seq<T>) {
    && DistinctIds(f, log)
    && (forall i :: 0 <= i < |log| ==> f.id(log[i]) in items && items[f.id(log[i])] == log[i])
    && (forall id :: id in items ==> f.id(items[id]) == id && items[id] in log)
  }

  /** The queue stands for these items, pushed in this order. */
  ghost predicate Represents<T>(f: Keys<T>, q: Lazy<T>, log: seq<T>) {
    && Indexes(f, q.items, log)
    && StableSort(f, Live(f, q)) == StableSort(f, log)
    && (!q.dirty ==> q.order == StableSort(f, log))
  }

  /** A copy of an item that is no longer there, or not there any more in this form. */
  predicate HasCopy<T>(f: Keys<T>, q: Lazy<T>, id: string) {
    exists i :: 0 <= i < |q.order| && f.id(q.order[i]) == id
  }

  predicate Tame<T(==)>(f: Keys<T>, q: Lazy<T>, x: T) {
    if f.id(x) in q.items then q.items[f.id(x)] == x else !HasCopy(f, q, f.id(x))
  }

  lemma LiveIsSortedLog<T>(f: Keys<T>, q: Lazy<T>, log: seq<T>, x: T)
    requires Represents(f, q, log)
    ensures x in Live(f, q) <==> x in log
    ensures multiset(Live(f, q)) == multiset(log)
  {
    SortMultiset(f, Live(f, q));
    SortMultiset(f, log);
    assert x in Live(f, q) <==> x in multiset(Live(f, q));
  }

  lemma PushNew<T>(f: Keys<T>, q: Lazy<T>, log: seq<T>, x: T)
    requires Represents(f, q, log) && f.id(x) !in q.items && !HasCopy(f, q, f.id(x))
    ensures Represents(f, PushOn(f, q, x), log + [x])
  {
    NewIsLive(f, q, x);
    IndexesOneMore(f, q.items, log, x);
    SortSnoc(f, Live(f, q), x);
    SortSnoc(f, log, x);
  }

  lemma IndexesOneMore<T>(f: Keys<T>, items: map<string, T>, log: seq<T>, x: T)
    requires Indexes(f, items, log) && f.id(x) !in items
    ensures Indexes(f, items[f.id(x) := x], log + [x])
  {
  }

  lemma NewIsLive<T>(f: Keys<T>, q: Lazy<T>, x: T)
    requires f.id(x) !in q.items && !HasCopy(f, q, f.id(x))
    ensures Live(f, PushOn(f, q, x)) == Live(f, q) + [x]
  {
    var r := PushOn(f, q, x);
    KeepSnoc(q.order, x, IsLive(f, r));
    KeepSame(q.order, IsLive(f, q), IsLive(f, r));
  }

  /** Removing sorts out the same item from the live ones as from the log. */
  lemma RemoveRepresents<T>(f: Keys<T>, q: Lazy<T>, log: seq<T>, id: string)
    requires Represents(f, q, log)
    ensures Represents(f, RemoveFrom(q, id), Without(f, log, id))
  {
    if id in q.items {
      LiveAfterRemove(f, q, id);
      SortKeep(f, Live(f, q), NotId(f, id));
      SortKeep(f, log, NotId(f, id));
      WithoutIndexes(f, q.items, log, id);
    } else {
      KeepAll(log, NotId(f, id));
    }
  }

  lemma LiveAfterRemove<T>(f: Keys<T>, q: Lazy<T>, id: string)
    requires id in q.items
    ensures Live(f, RemoveFrom(q, id)) == Without(f, Live(f, q), id)
  {
    KeepTwice(q.order, IsLive(f, q), NotId(f, id), IsLive(f, RemoveFrom(q, id)));
  }

  lemma {:induction false} WithoutIsDistinct<T>(f: Keys<T>, log: seq<T>, id: string)
    requires DistinctIds(f, log)
    ensures DistinctIds(f, Without(f, log, id))
  {
    if log != [] {
      var init, last := log[..|log| - 1], log[|log| - 1];
      WithoutIsDistinct(f, init, id);
      forall i | 0 <= i < |Without(f, init, id)| ensures f.id(Without(f, init, id)[i]) != f.id(last) {
        KeepMember(init, NotId(f, id), Without(f, init, id)[i]);
      }
    }
  }

  lemma WithoutIndexes<T>(f: Keys<T>, items: map<string, T>, log: seq<T>, id: string)
    requires Indexes(f, items, log) && id in items
    ensures Indexes(f, items - {id}, Without(f, log, id))
  {
    var r, rest := items - {id}, Without(f, log, id);
    WithoutIsDistinct(f, log, id);
    forall i | 0 <= i < |rest| ensures f.id(rest[i]) in r && r[f.id(rest[i])] == rest[i] {
      KeepMember(log, NotId(f, id), rest[i]);
    }
    forall k | k in r ensures r[k] in rest {
      KeepMember(log, NotId(f, id), r[k]);
    }
  }

  lemma CompactRepresents<T>(f: Keys<T>, q: Lazy<T>, log: seq<T>)
    requires Represents(f, q, log)
    ensures Represents(f, Compacted(f, q), log) && Compacted(f, q).order == StableSort(f, log)
  {
    SortedLogIsLive(f, q, log);
    assert q.dirty ==> Live(f, Compacted(f, q)) == StableSort(f, log) by {
      KeepSame(StableSort(f, log), IsLive(f, q), IsLive(f, Compacted(f, q)));
    }
    SortRanked(f, log);
    SortOfRanked(f, StableSort(f, log));
  }

  lemma SortedLogIsLive<T>(f: Keys<T>, q: Lazy<T>, log: seq<T>)
    requires Indexes(f, q.items, log)
    ensures Keep(StableSort(f, log), IsLive(f, q)) == StableSort(f, log)
  {
    SortKeep(f, log, IsLive(f, q));
    KeepAll(log, IsLive(f, q));
  }

  /** The first fit in the sorted slice is the best fit in the log. */
  lemma {:induction false} FirstFitIsBest<T>(f: Keys<T>, log: seq<T>, fits: T -> bool)
    ensures var s := StableSort(f, log);
            var i := FirstFit(s, fits, 0);
            match Best(f, log, fits, |log|)
            case None => i == |s|
            case Some(b) => i < |s| && s[i] == log[b]
  {
    if log != [] {
      var init, x := log[..|log| - 1], log[|log| - 1];
      FirstFitIsBest(f, init, fits);
      BestOfPrefix(f, log, fits, |init|);
      SortRanked(f, init);
      InsertFirstFit(f, StableSort(f, init), x, fits);
    }
  }

  lemma {:induction false} BestOfPrefix<T>(f: Keys<T>, log: seq<T>, fits: T -> bool, n: nat)
    requires n < |log|
    ensures Best(f, log[..|log| - 1], fits, n) == Best(f, log, fits, n)
  {
    if n > 0 {
      BestOfPrefix(f, log, fits, n - 1);
    }
  }

  /** What inserting `x` into `s` does to the first fit. */
  ghost predicate FirstFitWith<T>(f: Keys<T>, s: seq<T>, x: T, t: seq<T>, fits: T -> bool) {
    var i, j := FirstFit(s, fits, 0), FirstFit(t, fits, 0);
    if fits(x) && (i == |s| || Outranks(f, x, s[i])) then j < |t| && t[j] == x
    else if i < |s| then j < |t| && t[j] == s[i]
    else j == |t|
  }

  lemma AppendFirstFit<T>(f: Keys<T>, s: seq<T>, x: T, fits: T -> bool)
    requires Ranked(f, s) && (s == [] || !Outranks(f, x, s[|s| - 1]))
    ensures FirstFitWith(f, s, x, s + [x], fits)
  {
    var i := FirstFit(s, fits, 0);
    if i < |s| {
      NotOutranked(f, s, x, s[i]);
      FirstFitIs(s + [x], fits, i);
    } else {
      FirstFitIs(s + [x], fits, if fits(x) then |s| else |s| + 1);
    }
  }

  lemma {:induction false} InsertFirstFit<T>(f: Keys<T>, s: seq<T>, x: T, fits: T -> bool)
    requires Ranked(f, s)
    ensures FirstFitWith(f, s, x, Insert(f, s, x), fits)
  {
    if s == [] || !Outranks(f, x, s[|s| - 1]) {
      AppendFirstFit(f, s, x, fits);
    } else {
      var init, last := s[..|s| - 1], s[|s| - 1];
      InsertFirstFit(f, init, x, fits);
      SnocFirstFit(init, last, fits);
      SnocFirstFit(Insert(f, init, x), last, fits);
      assert s == init + [last];
    }
  }

  lemma SnocFirstFit<T>(s: seq<T>, x: T, fits: T -> bool)
    ensures FirstFit(s + [x], fits, 0)
            == if FirstFit(s, fits, 0) < |s| then FirstFit(s, fits, 0) else if fits(x) then |s| else |s| + 1
  {
    var i := FirstFit(s, fits, 0);
    FirstFitIs(s + [x], fits, if i < |s| then i else if fits(x) then |s| else |s| + 1);
  }

  lemma FirstFitIs<T>(s: seq<T>, fits: T -> bool, i: nat)
    requires i <= |s| && (i < |s| ==> fits(s[i])) && forall k :: 0 <= k < i ==> !fits(s[k])
    ensures FirstFit(s, fits, 0) == i
  {
  }

  /** Cutting out one item of a list with distinct ids is removing its id. */
  lemma CutIsWithout<T>(f: Keys<T>, s: seq<T>, i: nat)
    requires i < |s| && DistinctIds(f, s)
    ensures s[..i] + s[i + 1..] == Without(f, s, f.id(s[i]))
  {
    CutFirst(f, s, i, |s|);
    assert s[..|s|] == s;
  }

  lemma {:induction false} CutFirst<T>(f: Keys<T>, s: seq<T>, i: nat, n: nat)
    requires i < n <= |s| && DistinctIds(f, s)
    ensures s[..i] + s[i + 1..n] == Without(f, s[..n], f.id(s[i]))
  {
    var p := NotId(f, f.id(s[i]));
    assert s[..n][..n - 1] == s[..n - 1];
    if n == i + 1 {
      forall x | x in s[..i] ensures p(x) {
        var k :| 0 <= k < i && s[k] == x;
      }
      KeepAll(s[..i], p);
    } else {
      CutFirst(f, s, i, n - 1);
    }
  }

  lemma {:induction false} SortDistinct<T>(f: Keys<T>, log: seq<T>)
    requires DistinctIds(f, log)
    ensures DistinctIds(f, StableSort(f, log))
  {
    if log != [] {
      var init, x := log[..|log| - 1], log[|log| - 1];
      SortDistinct(f, init);
      SortMultiset(f, init);
      forall k | 0 <= k < |init| ensures f.id(StableSort(f, init)[k]) != f.id(x) {
        assert StableSort(f, init)[k] in multiset(init);
        assert StableSort(f, init)[k] in init;
      }
      InsertDistinct(f, StableSort(f, init), x);
    }
  }

  lemma {:induction false} InsertDistinct<T>(f: Keys<T>, s: seq<T>, x: T)
    requires DistinctIds(f, s) && forall k :: 0 <= k < |s| ==> f.id(s[k]) != f.id(x)
    ensures DistinctIds(f, Insert(f, s, x))
  {
    if s != [] && Outranks(f, x, s[|s| - 1]) {
      var init, last := s[..|s| - 1], s[|s| - 1];
      InsertDistinct(f, init, x);
      InsertMultiset(f, init, x);
      forall k | 0 <= k < |Insert(f, init, x)| ensures f.id(Insert(f, init, x)[k]) != f.id(last) {
        assert Insert(f, init, x)[k] in multiset(Insert(f, init, x));
        assert Insert(f, init, x)[k] == x || Insert(f, init, x)[k] in init;
      }
    }
  }

  // ---------------------------------------------------------------- the queue refines its reference

  lemma NothingLeft<T>(f: Keys<T>, q: Lazy<T>, log: seq<T>)
    requires Represents(f, q, log)
    ensures q.items == map[] <==> log == []
  {
    if log != [] {
      assert f.id(log[0]) in q.items;
    }
    if q.items != map[] {
      var id :| id in q.items;
      assert q.items[id] in log;
    }
  }

  /** A pop takes from the queue what the reference takes, the argmax of what fits, and leaves what the reference
      leaves; it finds nothing exactly when nothing fits. */
  lemma PopRefines<T>(f: Keys<T>, q: Lazy<T>, log: seq<T>, fits: T -> bool)
    requires Represents(f, q, log)
    ensures Pop(f, q, fits).1 == Take(f, log, fits).1
    ensures Represents(f, Pop(f, q, fits).0, Take(f, log, fits).0)
  {
    NothingLeft(f, q, log);
    if log == [] {
      assert Pop(f, q, fits).0 == q && Take(f, log, fits).0 == log;
    } else {
      CompactRepresents(f, q, log);
      PopCompacted(f, Compacted(f, q), log, fits);
      PopCompactsFirst(f, q, fits);
    }
  }

  lemma PopCompactsFirst<T>(f: Keys<T>, q: Lazy<T>, fits: T -> bool)
    requires q.items != map[]
    ensures Pop(f, q, fits) == Pop(f, Compacted(f, q), fits)
  {
  }

  lemma PopCompacted<T>(f: Keys<T>, c: Lazy<T>, log: seq<T>, fits: T -> bool)
    requires Represents(f, c, log) && !c.dirty && c.items != map[]
    ensures Pop(f, c, fits).1 == Take(f, log, fits).1
    ensures Represents(f, Pop(f, c, fits).0, Take(f, log, fits).0)
  {
    FirstFitIsBest(f, log, fits);
    var i, b := FirstFit(c.order, fits, 0), Best(f, log, fits, |log|);
    assert Compacted(f, c) == c;
    if b.Some? {
      CutRepresents(f, c, log, i, b.value);
      assert Pop(f, c, fits).0 == Lazy(c.items - {f.id(c.order[i])}, c.order[..i] + c.order[i + 1..], false);
      assert Take(f, log, fits).0 == log[..b.value] + log[b.value + 1..];
    } else {
      assert Pop(f, c, fits).0 == c && Take(f, log, fits).0 == log;
    }
  }

  lemma CutRepresents<T>(f: Keys<T>, c: Lazy<T>, log: seq<T>, i: nat, b: nat)
    requires Represents(f, c, log) && !c.dirty && i < |c.order| && b < |log| && c.order[i] == log[b]
    ensures Represents(f, Lazy(c.items - {f.id(c.order[i])}, c.order[..i] + c.order[i + 1..], false),
                       log[..b] + log[b + 1..])
  {
    var id := f.id(log[b]);
    var rest, r := Without(f, log, id), Lazy(c.items - {id}, Without(f, c.order, id), false);
    SortDistinct(f, log);
    CutIsWithout(f, c.order, i);
    CutIsWithout(f, log, b);
    WithoutIndexes(f, c.items, log, id);
    SortKeep(f, log, NotId(f, id));
    SortOfSortIsLive(f, r, rest);
  }

  lemma SortOfSortIsLive<T>(f: Keys<T>, r: Lazy<T>, rest: seq<T>)
    requires Indexes(f, r.items, rest) && r.order == StableSort(f, rest)
    ensures StableSort(f, Live(f, r)) == StableSort(f, rest)
  {
    SortedLogIsLive(f, r, rest);
    SortRanked(f, rest);
    SortOfRanked(f, r.order);
  }

  lemma CutMultiset<T>(s: seq<T>, i: nat)
    requires i < |s|
    ensures multiset(s[..i] + s[i + 1..]) + multiset{s[i]} == multiset(s)
  {
    assert s == s[..i] + [s[i]] + s[i + 1..];
  }

  lemma TakesTheBest<T>(f: Keys<T>, log: seq<T>, fits: T -> bool)
    ensures var (rest, x) := Take(f, log, fits);
            && (x.None? <==> forall y :: y in log ==> !fits(y))
            && (x.None? ==> rest == log)
            && (x.Some? ==> x.value in log && fits(x.value) && multiset(rest) + multiset{x.value} == multiset(log)
                            && forall y :: y in log && fits(y) ==> !Outranks(f, y, x.value))
  {
    BestIsBest(f, log, fits, |log|);
    var b := Best(f, log, fits, |log|);
    if b.Some? {
      CutMultiset(log, b.value);
    }
  }

  lemma PopCleans<T>(f: Keys<T>, q: Lazy<T>, fits: T -> bool)
    ensures !Pop(f, q, fits).0.dirty || (q.items == map[] && Pop(f, q, fits) == (q, None))
  {
  }

  lemma PopShrinks<T>(f: Keys<T>, q: Lazy<T>, fits: T -> bool)
    ensures var (r, x) := Pop(f, q, fits);
            r.items == if x.None? then q.items else q.items - {f.id(x.value)}
  {
  }

  lemma TakenIsIndexed<T>(f: Keys<T>, items: map<string, T>, log: seq<T>, fits: T -> bool)
    requires Indexes(f, items, log)
    ensures var x := Take(f, log, fits).1;
            x.Some? ==> f.id(x.value) in items && items[f.id(x.value)] == x.value
  {
  }

  lemma CleanHasNoCopies<T>(f: Keys<T>, q: Lazy<T>, log: seq<T>, id: string)
    requires Represents(f, q, log) && !q.dirty && id !in q.items
    ensures !HasCopy(f, q, id)
  {
    SortMultiset(f, log);
    forall i | 0 <= i < |q.order| ensures f.id(q.order[i]) != id {
      assert q.order[i] in multiset(q.order);
      assert q.order[i] in log;
    }
  }

  lemma SortMembers<T>(f: Keys<T>, s: seq<T>, y: T)
    ensures y in StableSort(f, s) <==> y in s
  {
    SortMultiset(f, s);
    assert y in StableSort(f, s) <==> y in multiset(StableSort(f, s));
    assert y in s <==> y in multiset(s);
  }

  /** What is popped was in the slice, whatever else is wrong with the queue. */
  lemma PoppedFromOrder<T>(f: Keys<T>, q: Lazy<T>, fits: T -> bool, y: T)
    ensures Pop(f, q, fits).1.Some? ==> Pop(f, q, fits).1.value in q.order && fits(Pop(f, q, fits).1.value)
    ensures y in Pop(f, q, fits).0.order ==> y in q.order
  {
    InOrderBefore(f, q, y);
    if Pop(f, q, fits).1.Some? {
      InOrderBefore(f, q, Pop(f, q, fits).1.value);
    }
  }

  lemma InOrderBefore<T>(f: Keys<T>, q: Lazy<T>, y: T)
    ensures y in Compacted(f, q).order ==> y in q.order
  {
    SortMembers(f, Live(f, q), y);
    KeepMember(q.order, IsLive(f, q), y);
  }

  /** The queue stands for some list of items: if for any, then for its live items in their sorted order. */
  ghost predicate Faithful<T>(f: Keys<T>, q: Lazy<T>) {
    Represents(f, q, StableSort(f, Live(f, q)))
  }

  lemma RepresentedIsFaithful<T>(f: Keys<T>, q: Lazy<T>, log: seq<T>)
    requires Represents(f, q, log)
    ensures Faithful(f, q)
  {
    var sorted := StableSort(f, log);
    SortDistinct(f, log);
    SortRanked(f, log);
    SortOfRanked(f, sorted);
    SortMultiset(f, log);
    forall i | 0 <= i < |sorted| ensures f.id(sorted[i]) in q.items && q.items[f.id(sorted[i])] == sorted[i] {
      assert sorted[i] in multiset(sorted);
      assert sorted[i] in log;
    }
    forall id | id in q.items ensures q.items[id] in sorted {
      assert q.items[id] in multiset(log);
    }
  }

  /** A push keeps the queue faithful exactly when it is tame: a re-push of the same item, or a push of an id of which
      the slice holds no forgotten copy. Then it adds a new item at the end and ignores a re-push. */
  lemma PushStaysFaithfulExactly<T>(f: Keys<T>, q: Lazy<T>, log: seq<T>, x: T)
    requires Represents(f, q, log)
    ensures Faithful(f, PushOn(f, q, x)) <==> Tame(f, q, x)
    ensures Tame(f, q, x) ==> Represents(f, PushOn(f, q, x), if f.id(x) in q.items then log else log + [x])
  {
    if Tame(f, q, x) {
      TamePush(f, q, log, x);
      RepresentedIsFaithful(f, PushOn(f, q, x), if f.id(x) in q.items then log else log + [x]);
    } else {
      UntamePush(f, q, log, x, StableSort(f, Live(f, PushOn(f, q, x))));
    }
  }

  lemma TamePush<T>(f: Keys<T>, q: Lazy<T>, log: seq<T>, x: T)
    requires Represents(f, q, log) && Tame(f, q, x)
    ensures Represents(f, PushOn(f, q, x), if f.id(x) in q.items then log else log + [x])
  {
    if f.id(x) in q.items {
      assert PushOn(f, q, x) == q;
    } else {
      PushNew(f, q, log, x);
    }
  }

  lemma UntamePush<T>(f: Keys<T>, q: Lazy<T>, log: seq<T>, x: T, other: seq<T>)
    requires Represents(f, q, log) && !Tame(f, q, x)
    ensures !Represents(f, PushOn(f, q, x), other)
  {
    if f.id(x) in q.items {
      OverwriteLeavesOldCopy(f, q, log, x, other);
    } else {
      CopyComesBack(f, q, x, other);
    }
  }

  lemma OverwriteLeavesOldCopy<T>(f: Keys<T>, q: Lazy<T>, log: seq<T>, x: T, other: seq<T>)
    requires Represents(f, q, log) && f.id(x) in q.items && q.items[f.id(x)] != x
    ensures !Represents(f, PushOn(f, q, x), other)
  {
    var r, y := PushOn(f, q, x), q.items[f.id(x)];
    LiveIsSortedLog(f, q, log, y);
    KeepSame(q.order, IsLive(f, q), IsLive(f, r));
    if Represents(f, r, other) {
      LiveIsSortedLog(f, r, other, y);
      assert false;
    }
  }

  lemma {:induction false} DistinctMultiset<T>(f: Keys<T>, log: seq<T>, x: T)
    requires DistinctIds(f, log)
    ensures multiset(log)[x] <= 1
  {
    if log != [] {
      var init := log[..|log| - 1];
      DistinctMultiset(f, init, x);
      assert log == init + [log[|log| - 1]];
      if x in init {
        var i :| 0 <= i < |init| && init[i] == x;
        assert f.id(log[i]) != f.id(log[|log| - 1]);
      }
    }
  }

  /** The forgotten copy is live again, next to the item that was pushed. */
  lemma CopyComesBack<T>(f: Keys<T>, q: Lazy<T>, x: T, other: seq<T>)
    requires f.id(x) !in q.items && HasCopy(f, q, f.id(x))
    ensures !Represents(f, PushOn(f, q, x), other)
  {
    var r := PushOn(f, q, x);
    var i :| 0 <= i < |q.order| && f.id(q.order[i]) == f.id(x);
    var y, kept := q.order[i], Keep(q.order, IsLive(f, r));
    KeepSnoc(q.order, x, IsLive(f, r));
    KeepMember(q.order, IsLive(f, r), y);
    assert Live(f, r) == kept + [x] && y in kept;
    if Represents(f, r, other) {
      LiveIsSortedLog(f, r, other, y);
      assert y == x ==> multiset(kept + [x])[y] >= 2;
      DistinctMultiset(f, other, y);
      assert false;
    }
  }

  /** The case the source leaves open: a job that is removed and pushed again before the slice is compacted is popped
      twice, as long as something else is still in the queue. */
  lemma RemovedAndRepushedIsPoppedTwice<T>(f: Keys<T>, a: T, b: T, fits: T -> bool)
    requires f.id(a) != f.id(b) && fits(a) && Outranks(f, a, b)
    ensures var q := PushOn(f, PushOn(f, RemoveFrom(PushOn(f, Empty(), a), f.id(a)), a), b);
            Pop(f, q, fits).1 == Some(a) && Pop(f, Pop(f, q, fits).0, fits).1 == Some(a)
  {
    var q := PushOn(f, PushOn(f, RemoveFrom(PushOn(f, Empty(), a), f.id(a)), a), b);
    assert q.order == [a, a, b] && q.items.Keys == {f.id(a), f.id(b)};
    KeepAll(q.order, IsLive(f, q));
    assert Ranked(f, [a, a, b]);
    SortOfRanked(f, [a, a, b]);
    var c := Compacted(f, q);
    assert c.order[0] == a && FirstFit(c.order, fits, 0) == 0;
    var r := Pop(f, q, fits).0;
    assert f.id(b) in r.items && r.order[0] == a && FirstFit(r.order, fits, 0) == 0;
  }

  /** And a re-push with new data is popped with the old data. */
  lemma OverwrittenItemIsPoppedStale<T>(f: Keys<T>, a: T, b: T, fits: T -> bool)
    requires f.id(a) == f.id(b) && fits(a)
    ensures Pop(f, PushOn(f, PushOn(f, Empty(), a), b), fits).1 == Some(a)
  {
    var q := PushOn(f, PushOn(f, Empty(), a), b);
    assert q.order == [a];
    KeepAll(q.order, IsLive(f, q));
    SortOfRanked(f, [a]);
    assert FirstFit(Compacted(f, q).order, fits, 0) == 0;
  }

  // ---------------------------------------------------------------- runs

  datatype QueueOp<!T> = Push(x: T) | Remove(id: string) | PopFit(fits: T -> bool) | Clear

  function StepQueue<T>(f: Keys<T>, q: Lazy<T>, op: QueueOp<T>): (Lazy<T>, Option<T>) {
    match op
    case Push(x) => (PushOn(f, q, x), None)
    case Remove(id) => (RemoveFrom(q, id), None)
    case PopFit(fits) => Pop(f, q, fits)
    case Clear => (Empty(), None)
  }

  predicate HasId<T>(f: Keys<T>, log: seq<T>, id: string) {
    exists i :: 0 <= i < |log| && f.id(log[i]) == id
  }

  function StepReference<T>(f: Keys<T>, log: seq<T>, op: QueueOp<T>): (seq<T>, Option<T>) {
    match op
    case Push(x) => (if HasId(f, log, f.id(x)) then log else log + [x], None)
    case Remove(id) => (Without(f, log, id), None)
    case PopFit(fits) => Take(f, log, fits)
    case Clear => ([], None)
  }

  function RunQueue<T>(f: Keys<T>, q: Lazy<T>, ops: seq<QueueOp<T>>): (Lazy<T>, seq<Option<T>>) {
    if ops == [] then (q, [])
    else
      var (r, popped) := RunQueue(f, q, ops[..|ops| - 1]);
      var (s, x) := StepQueue(f, r, ops[|ops| - 1]);
      (s, popped + [x])
  }

  function RunReference<T>(f: Keys<T>, log: seq<T>, ops: seq<QueueOp<T>>): (seq<T>, seq<Option<T>>) {
    if ops == [] then (log, [])
    else
      var (r, popped) := RunReference(f, log, ops[..|ops| - 1]);
      var (s, x) := StepReference(f, r, ops[|ops| - 1]);
      (s, popped + [x])
  }

  ghost predicate TameRun<T>(f: Keys<T>, q: Lazy<T>, ops: seq<QueueOp<T>>) {
    forall i :: 0 <= i < |ops| && ops[i].Push? ==> Tame(f, RunQueue(f, q, ops[..i]).0, ops[i].x)
  }

  lemma StepRefines<T>(f: Keys<T>, q: Lazy<T>, log: seq<T>, op: QueueOp<T>)
    requires Represents(f, q, log) && (op.Push? ==> Tame(f, q, op.x))
    ensures StepQueue(f, q, op).1 == StepReference(f, log, op).1
    ensures Represents(f, StepQueue(f, q, op).0, StepReference(f, log, op).0)
  {
    match op {
      case Push(x) =>
        assert HasId(f, log, f.id(x)) <==> f.id(x) in q.items;
        PushStaysFaithfulExactly(f, q, log, x);
      case Remove(id) => RemoveRepresents(f, q, log, id);
      case PopFit(fits) => PopRefines(f, q, log, fits);
      case Clear =>
    }
  }

  /** Over any run of tame pushes, removals, pops and clears, the lazy queue gives out what the reference gives out. */
  lemma {:induction false} RunRefines<T>(f: Keys<T>, q: Lazy<T>, log: seq<T>, ops: seq<QueueOp<T>>)
    requires Represents(f, q, log) && TameRun(f, q, ops)
    ensures RunQueue(f, q, ops).1 == RunReference(f, log, ops).1
    ensures Represents(f, RunQueue(f, q, ops).0, RunReference(f, log, ops).0)
  {
    if ops != [] {
      var init := ops[..|ops| - 1];
      forall i | 0 <= i < |init| && init[i].Push? ensures Tame(f, RunQueue(f, q, init[..i]).0, init[i].x) {
        assert init[..i] == ops[..i];
      }
      RunRefines(f, q, log, init);
      StepRefines(f, RunQueue(f, q, init).0, RunReference(f, log, init).0, ops[|ops| - 1]);
    }
  }

  // ---------------------------------------------------------------- the queue

  class Queue<T(==)> {
    const keys: Keys<T>
    var items: map<string, T>
    var order: seq<T>
    var dirty: bool

    function State(): Lazy<T>
      reads this
    {
      Lazy(items, order, dirty)
    }

    constructor (keys: Keys<T>)
      ensures this.keys == keys && State() == Empty()
    {
      this.keys := keys;
      items, order, dirty := map[], [], false;
    }

    method Push(item: T)
      modifies this
      ensures State() == PushOn(keys, old(State()), item)
    {
      var id := keys.id(item);
      if id !in items {
        order := order + [item];
        dirty := true;
      }
      items := items[id := item];
    }

    method PushBatch(batch: seq<T>)
      modifies this
      ensures State() == PushAll(keys, old(State()), batch, |batch|)
    {
      for i := 0 to |batch|
        invariant State() == PushAll(keys, old(State()), batch, i)
      {
        var id := keys.id(batch[i]);
        if id !in items {
          order := order + [batch[i]];
          dirty := true;
        }
        items := items[id := batch[i]];
      }
    }

    method RemoveByID(id: string)
      modifies this
      ensures State() == RemoveFrom(old(State()), id)
    {
      if id in items {
        items := items - {id};
        dirty := true;
      }
    }

    method Clear()
      modifies this
      ensures State() == Empty()
    {
      items, order, dirty := map[], [], false;
    }

    /** All items, in whatever order the map yields them. */
    method Items() returns (r: seq<T>)
      requires forall id :: id in items ==> keys.id(items[id]) == id
      ensures Indexes(keys, items, r)
    {
      r := [];
      var left := items.Keys;
      ghost var seen: map<string, T> := map[];
      while left != {}
        invariant Indexes(keys, seen, r)
        invariant left <= items.Keys && seen.Keys == items.Keys - left
        invariant forall id :: id in seen ==> seen[id] == items[id]
        decreases |left|
      {
        var id :| id in left;
        IndexesOneMore(keys, seen, r, items[id]);
        seen := seen[id := items[id]];
        r := r + [items[id]];
        left := left - {id};
      }
      assert seen == items;
    }

    method SortAndCompact()
      modifies this
      ensures State() == Compacted(keys, old(State()).(dirty := true))
    {
      var compacted := [];
      for i := 0 to |order|
        modifies {}
        invariant compacted == Keep(order[..i], IsLive(keys, State()))
      {
        KeepSnoc(order[..i], order[i], IsLive(keys, State()));
        assert order[..i + 1] == order[..i] + [order[i]];
        if keys.id(order[i]) in items {
          compacted := compacted + [order[i]];
        }
      }
      assert order[..|order|] == order;
      KeepSame(order, IsLive(keys, State()), IsLive(keys, State().(dirty := true)));
      order := StableSort(keys, compacted);
      dirty := false;
    }

    method PopBestFit(availCpu: int, availMem: int) returns (item: Option<T>)
      modifies this
      ensures (State(), item) == Pop(keys, old(State()), Fits(keys, availCpu, availMem))
    {
      if |items| == 0 {
        return None;
      }
      if dirty {
        SortAndCompact();
      }
      for i := 0 to |order|
        invariant FirstFit(order, Fits(keys, availCpu, availMem), 0) ==
                  FirstFit(order, Fits(keys, availCpu, availMem), i)
        invariant State() == Compacted(keys, old(State()))
      {
        if keys.cpu(order[i]) <= availCpu && keys.mem(order[i]) <= availMem {
          item := Some(order[i]);
          items := items - {keys.id(order[i])};
          order := order[..i] + order[i + 1..];
          return;
        }
      }
      item := None;
    }

    method FindFit(availCpu: int, availMem: int, heuristic: T -> bool) returns (best: nat)
      ensures best == FirstFit(order, FitsAnd(keys, availCpu, availMem, heuristic), 0)
    {
      ghost var fits := FitsAnd(keys, availCpu, availMem, heuristic);
      best := 0;
      while best < |order|
            && !(keys.cpu(order[best]) <= availCpu && keys.mem(order[best]) <= availMem && heuristic(order[best]))
        invariant best <= |order| && FirstFit(order, fits, 0) == FirstFit(order, fits, best)
      {
        best := best + 1;
      }
    }

    method PopBestFitHeuristic(availCpu: int, availMem: int, heuristic: T -> bool) returns (item: Option<T>)
      modifies this
      ensures (State(), item) == Pop(keys, old(State()), FitsAnd(keys, availCpu, availMem, heuristic))
    {
      ghost var q := State();
      if |items| == 0 {
        return None;
      }
      if dirty {
        SortAndCompact();
      }
      assert State() == Compacted(keys, q);
      var best := FindFit(availCpu, availMem, heuristic);
      if best == |order| {
        return None;
      }
      item := Some(order[best]);
      items := items - {keys.id(order[best])};
      order := order[..best] + order[best + 1..];
    }
  }
}
