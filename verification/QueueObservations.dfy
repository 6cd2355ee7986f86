/** What a user of the packing queue can notice: the pops after a push, compared with those of a plain list
    (internal/arbiter/packer.go). */
module QueueObservations {
  import opened ArbiterQueue
  import opened Wrappers

  /** What a sequence of pops gives out, by the queue and by the reference. */
  function Pops<T>(f: Keys<T>, q: Lazy<T>, filters: seq<T -> bool>): seq<Option<T>>
    decreases |filters|
  {
    if filters == [] then []
    else [Pop(f, q, filters[0]).1] + Pops(f, Pop(f, q, filters[0]).0, filters[1..])
  }

  function Takes<T>(f: Keys<T>, log: seq<T>, filters: seq<T -> bool>): seq<Option<T>>
    decreases |filters|
  {
    if filters == [] then []
    else [Take(f, log, filters[0]).1] + Takes(f, Take(f, log, filters[0]).0, filters[1..])
  }

  /** The reference after a push: an item of the same id gives way to the new one. */
  function Pushed<T>(f: Keys<T>, log: seq<T>, x: T): seq<T> {
    if log == [] then [x]
    else if f.id(log[0]) == f.id(x) then [x] + log[1..]
    else [log[0]] + Pushed(f, log[1..], x)
  }

  lemma {:induction false} PushedNew<T>(f: Keys<T>, log: seq<T>, x: T)
    requires forall k :: 0 <= k < |log| ==> f.id(log[k]) != f.id(x)
    ensures Pushed(f, log, x) == log + [x]
  {
    if log != [] {
      PushedNew(f, log[1..], x);
    }
  }

  lemma {:induction false} PushedOver<T>(f: Keys<T>, log: seq<T>, x: T, k: nat)
    requires k < |log| && f.id(log[k]) == f.id(x) && DistinctIds(f, log)
    ensures Pushed(f, log, x) == log[k := x]
  {
    if k == 0 {
      assert [x] + log[1..] == log[0 := x];
    } else {
      PushedOver(f, log[1..], x, k - 1);
      assert [log[0]] + log[1..][k - 1 := x] == log[k := x];
    }
  }

  lemma PushedIs<T>(f: Keys<T>, q: Lazy<T>, log: seq<T>, x: T)
    requires Indexes(f, q.items, log)
    ensures f.id(x) !in q.items ==> Pushed(f, log, x) == log + [x]
    ensures f.id(x) in q.items ==>
              exists k :: 0 <= k < |log| && log[k] == q.items[f.id(x)] && Pushed(f, log, x) == log[k := x]
  {
    if f.id(x) in q.items {
      var k :| 0 <= k < |log| && log[k] == q.items[f.id(x)];
      PushedOver(f, log, x, k);
    } else {
      PushedNew(f, log, x);
    }
  }

  lemma {:induction false} RepresentedPops<T>(f: Keys<T>, q: Lazy<T>, log: seq<T>, filters: seq<T -> bool>)
    requires Represents(f, q, log)
    ensures Pops(f, q, filters) == Takes(f, log, filters)
    decreases |filters|
  {
    if filters != [] {
      PopRefines(f, q, log, filters[0]);
      var (r, rest) := (Pop(f, q, filters[0]).0, Take(f, log, filters[0]).0);
      RepresentedPops(f, r, rest, filters[1..]);
      SameHeadSameRest(f, q, log, filters);
    }
  }

  lemma SameHeadSameRest<T>(f: Keys<T>, q: Lazy<T>, log: seq<T>, filters: seq<T -> bool>)
    requires filters != [] && Pop(f, q, filters[0]).1 == Take(f, log, filters[0]).1
    requires Pops(f, Pop(f, q, filters[0]).0, filters[1..]) == Takes(f, Take(f, log, filters[0]).0, filters[1..])
    ensures Pops(f, q, filters) == Takes(f, log, filters)
  {
  }

  /** Nothing but the item itself, once in the map and any number of times in the slice. */
  ghost predicate OnlyCopiesOf<T>(f: Keys<T>, q: Lazy<T>, x: T) {
    q.items == map[f.id(x) := x] && Compacted(f, q).order != [] && forall y :: y in Compacted(f, q).order ==> y == x
  }

  lemma PopOfCopies<T>(f: Keys<T>, q: Lazy<T>, x: T, fits: T -> bool)
    requires OnlyCopiesOf(f, q, x)
    ensures var (r, y) := Pop(f, q, fits);
            if fits(x) then r.items == map[] && y == Some(x) else OnlyCopiesOf(f, r, x) && y == None
  {
    var c := Compacted(f, q);
    assert f.id(x) in q.items;
    var i := FirstFit(c.order, fits, 0);
    assert c.order[0] in c.order;
    if i < |c.order| {
      assert c.order[i] in c.order;
    }
    assert Compacted(f, c) == c;
  }

  lemma {:induction false} NothingToPop<T>(f: Keys<T>, q: Lazy<T>, filters: seq<T -> bool>)
    requires q.items == map[]
    ensures Pops(f, q, filters) == Takes(f, [], filters)
    decreases |filters|
  {
    if filters != [] {
      TakeOfNone(f, filters[0]);
      NothingToPop(f, q, filters[1..]);
    }
  }

  lemma TakeOfNone<T>(f: Keys<T>, fits: T -> bool)
    ensures Take(f, [], fits) == ([], None)
  {
    var none: seq<T> := [];
    assert Best(f, none, fits, 0) == None;
  }

  /** Alone, an item that is doubled cannot be told from one that is not. */
  lemma {:induction false} CopiesPopAsOne<T>(f: Keys<T>, q: Lazy<T>, x: T, filters: seq<T -> bool>)
    requires OnlyCopiesOf(f, q, x)
    ensures Pops(f, q, filters) == Takes(f, [x], filters)
    decreases |filters|
  {
    if filters != [] {
      PopOfCopies(f, q, x, filters[0]);
      TakeOfOne(f, x, filters[0]);
      if filters[0](x) {
        NothingToPop(f, Pop(f, q, filters[0]).0, filters[1..]);
      } else {
        CopiesPopAsOne(f, Pop(f, q, filters[0]).0, x, filters[1..]);
      }
    }
  }

  lemma TakeOfOne<T>(f: Keys<T>, x: T, fits: T -> bool)
    ensures Take(f, [x], fits) == if fits(x) then ([], Some(x)) else ([x], None)
  {
    BestIsBest(f, [x], fits, 1);
    assert [x][..0] + [x][1..] == [] && [x][0] == x;
  }

  /** All that pushing `x` brings back are copies of `x`, and nothing else is pending. */
  ghost predicate DoubledAlone<T>(f: Keys<T>, q: Lazy<T>, log: seq<T>, x: T) {
    f.id(x) !in q.items && log == [] && forall y :: y in q.order && f.id(y) == f.id(x) ==> y == x
  }

  lemma DoubledAloneIsCopies<T>(f: Keys<T>, q: Lazy<T>, log: seq<T>, x: T)
    requires Represents(f, q, log) && DoubledAlone(f, q, log, x)
    ensures OnlyCopiesOf(f, PushOn(f, q, x), x)
  {
    var r := PushOn(f, q, x);
    NothingLeft(f, q, log);
    assert r.items == map[f.id(x) := x];
    assert x in r.order;
    KeepMember(r.order, IsLive(f, r), x);
    SortMembers(f, Live(f, r), x);
    forall y | y in Compacted(f, r).order ensures y == x {
      SortMembers(f, Live(f, r), y);
      KeepMember(r.order, IsLive(f, r), y);
      assert y in q.order || y == x;
    }
  }

  /** A pop that looks for one item finds it exactly when it is in the compacted slice. */
  lemma PopForOne<T>(f: Keys<T>, q: Lazy<T>, y: T)
    requires q.items != map[]
    ensures Pop(f, q, z => z == y).1 == if y in Compacted(f, q).order then Some(y) else None
  {
    var c := Compacted(f, q);
    var i := FirstFit(c.order, z => z == y, 0);
    if y in c.order {
      var k :| 0 <= k < |c.order| && c.order[k] == y;
      assert i <= k;
    }
  }

  lemma TakeForOne<T>(f: Keys<T>, log: seq<T>, y: T)
    ensures Take(f, log, z => z == y).1 == if y in log then Some(y) else None
  {
    TakesTheBest(f, log, z => z == y);
  }

  /** One pop tells an overwritten item, or an old copy that has come back. */
  lemma OnePopTells<T>(f: Keys<T>, q: Lazy<T>, log: seq<T>, y: T)
    requires q.items != map[] && (y in Compacted(f, q).order <==> y !in log)
    ensures Pops(f, q, [z => z == y]) != Takes(f, log, [z => z == y])
  {
    PopForOne(f, q, y);
    TakeForOne(f, log, y);
    assert Pops(f, q, [z => z == y])[0] != Takes(f, log, [z => z == y])[0];
  }

  lemma OverwriteChangesNoOrder<T>(f: Keys<T>, q: Lazy<T>, log: seq<T>, x: T)
    requires Represents(f, q, log) && f.id(x) in q.items && q.items[f.id(x)] != x
    ensures x !in Compacted(f, PushOn(f, q, x)).order
  {
    KeepSame(q.order, IsLive(f, q), IsLive(f, PushOn(f, q, x)));
    SortMembers(f, log, x);
    assert Compacted(f, PushOn(f, q, x)).order == StableSort(f, log);
  }

  lemma OverwriteIsTold<T>(f: Keys<T>, q: Lazy<T>, log: seq<T>, x: T) returns (filters: seq<T -> bool>)
    requires Represents(f, q, log) && f.id(x) in q.items && q.items[f.id(x)] != x
    ensures Pops(f, PushOn(f, q, x), filters) != Takes(f, Pushed(f, log, x), filters)
  {
    var r := PushOn(f, q, x);
    PushedIs(f, q, log, x);
    OverwriteChangesNoOrder(f, q, log, x);
    var k :| 0 <= k < |log| && log[k] == q.items[f.id(x)] && Pushed(f, log, x) == log[k := x];
    assert log[k := x][k] == x && f.id(x) in r.items;
    OnePopTells(f, r, log[k := x], x);
    filters := [z => z == x];
  }

  lemma OldCopyIsLive<T>(f: Keys<T>, q: Lazy<T>, x: T, y: T)
    requires f.id(x) !in q.items && y in q.order && f.id(y) == f.id(x)
    ensures y in Compacted(f, PushOn(f, q, x)).order
  {
    var r := PushOn(f, q, x);
    assert y in r.order;
    KeepMember(r.order, IsLive(f, r), y);
    SortMembers(f, Live(f, r), y);
  }

  lemma GoneFromLog<T>(f: Keys<T>, q: Lazy<T>, log: seq<T>, y: T)
    requires Represents(f, q, log) && f.id(y) !in q.items
    ensures y !in log
  {
  }

  lemma OldCopyIsTold<T>(f: Keys<T>, q: Lazy<T>, log: seq<T>, x: T, y: T) returns (filters: seq<T -> bool>)
    requires Represents(f, q, log) && f.id(x) !in q.items && y in q.order && f.id(y) == f.id(x) && y != x
    ensures Pops(f, PushOn(f, q, x), filters) != Takes(f, Pushed(f, log, x), filters)
  {
    var r := PushOn(f, q, x);
    PushedIs(f, q, log, x);
    OldCopyIsLive(f, q, x, y);
    GoneFromLog(f, q, log, y);
    assert f.id(x) in r.items && y !in log + [x];
    OnePopTells(f, r, log + [x], y);
    filters := [z => z == y];
  }

  /** Two pops tell a doubled item, as long as something else is pending. */
  lemma DoubleIsTold<T>(f: Keys<T>, q: Lazy<T>, log: seq<T>, x: T) returns (filters: seq<T -> bool>)
    requires Represents(f, q, log) && f.id(x) !in q.items && x in q.order && log != []
    ensures Pops(f, PushOn(f, q, x), filters) != Takes(f, Pushed(f, log, x), filters)
  {
    var r, only := PushOn(f, q, x), (z: T) => z == x;
    filters := [only, only];
    PushedIs(f, q, log, x);
    PopsTwice(f, q, log, x);
    TakesOnce(f, q, log, x);
    assert filters[1..] == [only];
    assert Pops(f, Pop(f, r, only).0, [only])[0] == Some(x);
    assert Takes(f, Take(f, log + [x], only).0, [only])[0] == None;
    assert Pops(f, r, filters)[1] == Some(x) && Takes(f, log + [x], filters)[1] == None;
  }

  lemma PopsTwice<T>(f: Keys<T>, q: Lazy<T>, log: seq<T>, x: T)
    requires Represents(f, q, log) && f.id(x) !in q.items && x in q.order && log != []
    ensures Pop(f, Pop(f, PushOn(f, q, x), z => z == x).0, z => z == x).1 == Some(x)
  {
    var r := PushOn(f, q, x);
    NothingLeft(f, q, log);
    TwiceInSlice(f, q, x);
    assert f.id(x) in r.items;
    PopLeavesOthers(f, r, x);
    var after := Pop(f, r, z => z == x).0;
    assert after.items == q.items;
    PopForOne(f, after, x);
  }

  lemma TakesOnce<T>(f: Keys<T>, q: Lazy<T>, log: seq<T>, x: T)
    requires Represents(f, q, log) && f.id(x) !in q.items
    ensures Take(f, Take(f, log + [x], z => z == x).0, z => z == x).1 == None
  {
    GoneFromLog(f, q, log, x);
    TakeLeavesLog(f, log, x);
    TakeForOne(f, log, x);
  }

  lemma TwiceInSlice<T>(f: Keys<T>, q: Lazy<T>, x: T)
    requires f.id(x) !in q.items && x in q.order
    ensures multiset(Compacted(f, PushOn(f, q, x)).order)[x] >= 2
  {
    var r := PushOn(f, q, x);
    KeepSnoc(q.order, x, IsLive(f, r));
    KeepMember(q.order, IsLive(f, r), x);
    SortMultiset(f, Live(f, r));
  }

  lemma PopLeavesOthers<T>(f: Keys<T>, r: Lazy<T>, x: T)
    requires r.items != map[] && multiset(Compacted(f, r).order)[x] >= 2
    ensures var (after, y) := Pop(f, r, z => z == x);
            y == Some(x) && after.items == r.items - {f.id(x)} && x in Compacted(f, after).order
  {
    PopForOne(f, r, x);
    var c := Compacted(f, r);
    var i := FirstFit(c.order, z => z == x, 0);
    CutMultiset(c.order, i);
    assert x in multiset(c.order[..i] + c.order[i + 1..]);
  }

  lemma TakeLeavesLog<T>(f: Keys<T>, log: seq<T>, x: T)
    requires x !in log
    ensures Take(f, log + [x], z => z == x).0 == log
  {
    var all := log + [x];
    BestIsBest(f, all, z => z == x, |all|);
    assert all[|log|] == x;
    assert all[..|log|] + all[|log| + 1..] == log;
  }

  lemma UntamePushIsTold<T>(f: Keys<T>, q: Lazy<T>, log: seq<T>, x: T) returns (filters: seq<T -> bool>)
    requires Represents(f, q, log) && !Tame(f, q, x) && !DoubledAlone(f, q, log, x)
    ensures Pops(f, PushOn(f, q, x), filters) != Takes(f, Pushed(f, log, x), filters)
  {
    if f.id(x) in q.items {
      filters := OverwriteIsTold(f, q, log, x);
    } else if y :| y in q.order && f.id(y) == f.id(x) && y != x {
      filters := OldCopyIsTold(f, q, log, x, y);
    } else {
      filters := DoubleIsTold(f, q, log, x);
    }
  }

  /** After a push, every sequence of pops gives out what the list gives out exactly when the push was tame, or all that
      it has brought back are copies of the pushed item itself and nothing else is pending. */
  lemma PushIsToldExactly<T>(f: Keys<T>, q: Lazy<T>, log: seq<T>, x: T)
    requires Represents(f, q, log)
    ensures (forall filters: seq<T -> bool> ::
               Pops(f, PushOn(f, q, x), filters) == Takes(f, Pushed(f, log, x), filters))
            <==> Tame(f, q, x) || DoubledAlone(f, q, log, x)
  {
    if Tame(f, q, x) || DoubledAlone(f, q, log, x) {
      forall filters: seq<T -> bool>
        ensures Pops(f, PushOn(f, q, x), filters) == Takes(f, Pushed(f, log, x), filters)
      {
        TellsNothing(f, q, log, x, filters);
      }
    } else {
      var filters := UntamePushIsTold(f, q, log, x);
    }
  }

  lemma TellsNothing<T>(f: Keys<T>, q: Lazy<T>, log: seq<T>, x: T, filters: seq<T -> bool>)
    requires Represents(f, q, log) && (Tame(f, q, x) || DoubledAlone(f, q, log, x))
    ensures Pops(f, PushOn(f, q, x), filters) == Takes(f, Pushed(f, log, x), filters)
  {
    if Tame(f, q, x) {
      TamePushedIs(f, q, log, x);
      RepresentedPops(f, PushOn(f, q, x), Pushed(f, log, x), filters);
    } else {
      PushedIs(f, q, log, x);
      DoubledAloneIsCopies(f, q, log, x);
      CopiesPopAsOne(f, PushOn(f, q, x), x, filters);
      assert log + [x] == [x];
    }
  }

  lemma TamePushedIs<T>(f: Keys<T>, q: Lazy<T>, log: seq<T>, x: T)
    requires Represents(f, q, log) && Tame(f, q, x)
    ensures Represents(f, PushOn(f, q, x), Pushed(f, log, x))
  {
    TamePush(f, q, log, x);
    PushedTame(f, q, log, x);
  }

  lemma PushedTame<T>(f: Keys<T>, q: Lazy<T>, log: seq<T>, x: T)
    requires Indexes(f, q.items, log) && Tame(f, q, x)
    ensures Pushed(f, log, x) == if f.id(x) in q.items then log else log + [x]
  {
    if f.id(x) in q.items {
      var k :| 0 <= k < |log| && log[k] == x;
      PushedOver(f, log, x, k);
      assert log[k := x] == log;
    } else {
      PushedNew(f, log, x);
    }
  }
}
