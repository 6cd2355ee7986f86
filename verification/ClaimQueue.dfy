/** The claim guard with its check and its append apart. ClientAppend (internal/consensus/service/serve.go) checks a
    submission and then queues it; AddLog (internal/consensus/service/add.go) appends what has been queued, when it
    comes to it, without another look. */
module ClaimQueue {
  import opened ClaimGuard
  import opened Codec
  import opened Payloads
  import opened Wrappers

  // ---------------------------------------------------------------- one submission

  function Latest(parse: Parser, es: seq<LogEntry>, id: string): Option<nat> {
    LatestClaim(parse, es, |es|, id)
  }

  lemma OnlyLatest(parse: Parser, es: seq<LogEntry>, k: nat, id: string)
    requires k < |es| && ClaimsFor(parse, es[k], id)
    requires forall j :: k < j < |es| ==> !ClaimsFor(parse, es[j], id)
    ensures Latest(parse, es, id) == Some(k)
  {
  }

  /** The latest entry about an id in a log with something appended. */
  lemma LatestAfter(parse: Parser, es: seq<LogEntry>, mid: seq<LogEntry>, id: string)
    ensures Latest(parse, es + mid, id) == match Latest(parse, mid, id)
                                           case Some(k) => Some(|es| + k)
                                           case None => Latest(parse, es, id)
  {
    assert forall k :: 0 <= k < |es| ==> (es + mid)[k] == es[k];
    assert forall k :: |es| <= k < |es + mid| ==> (es + mid)[k] == mid[k - |es|];
    match Latest(parse, mid, id) {
      case Some(k) => OnlyLatest(parse, es + mid, |es| + k, id);
      case None =>
        if Latest(parse, es, id).Some? {
          OnlyLatest(parse, es + mid, Latest(parse, es, id).value, id);
        }
    }
  }

  /** And in one that has lost its beginning. */
  lemma LatestOfRest(parse: Parser, es: seq<LogEntry>, dropped: nat, id: string)
    requires dropped <= |es|
    ensures Latest(parse, es[dropped..], id) == match Latest(parse, es, id)
                                                case Some(k) => if k >= dropped then Some(k - dropped) else None
                                                case None => None
  {
    var rest := es[dropped..];
    assert forall k :: dropped <= k < |es| ==> rest[k - dropped] == es[k];
    if Latest(parse, es, id).Some? && Latest(parse, es, id).value >= dropped {
      OnlyLatest(parse, rest, Latest(parse, es, id).value - dropped, id);
    }
  }

  /** What a submission that was let through at `es` repeats when it is appended later. */
  predicate RepeatsLate(parse: Parser, es: seq<LogEntry>, dropped: nat, mid: seq<LogEntry>, e: LogEntry) {
    match Latest(parse, mid, IdOf(parse, e))
    case Some(k) => Repeats(parse, mid[k], e)
    case None =>
      Redundant(parse, es, e) && Overlooked(parse, es, e) && Latest(parse, es, IdOf(parse, e)).value >= dropped
  }

  lemma LateRedundantExactly(parse: Parser, es: seq<LogEntry>, dropped: nat, mid: seq<LogEntry>, e: LogEntry)
    requires dropped <= |es| && CheckConflict(parse, es, e.payload) == NoConflict
    ensures Redundant(parse, es[dropped..] + mid, e) <==> RepeatsLate(parse, es, dropped, mid, e)
  {
    LatestAfter(parse, es[dropped..], mid, IdOf(parse, e));
    LatestOfRest(parse, es, dropped, IdOf(parse, e));
    if Redundant(parse, es, e) {
      RedundantPassesExactly(parse, es, e);
    }
  }

  /** A submission let through at `es` and appended later, when the beginning of `es` may have been compacted away and
      `mid` has come in: it makes a repeat exactly when it repeats the latest entry about its id in `mid`; or there is
      none, and it repeats one of `es` that the check overlooked and that is still there. */
  lemma LateAppendRepeatsExactly(parse: Parser, es: seq<LogEntry>, dropped: nat, mid: seq<LogEntry>, e: LogEntry)
    requires dropped <= |es| && NoRepeats(parse, es[dropped..] + mid)
    requires CheckConflict(parse, es, e.payload) == NoConflict
    ensures !NoRepeats(parse, es[dropped..] + mid + [e]) <==> RepeatsLate(parse, es, dropped, mid, e)
  {
    RedundantExactly(parse, es[dropped..] + mid, e);
    LateRedundantExactly(parse, es, dropped, mid, e);
  }

  // ---------------------------------------------------------------- runs

  /** The leader's retained log, and the submissions that have been let through and not been appended yet. */
  datatype Desk = Desk(log: seq<LogEntry>, waiting: seq<LogEntry>)

  /** A submission is checked; any of those waiting is appended, since its senders race for the channel, or dropped,
      since the node is no longer leader or the caller has gone; the log is compacted or cut. */
  datatype DeskAct =
    | Check(e: LogEntry)
    | Append(i: nat)
    | Forget(i: nat)
    | DropPrefix(dropped: nat)
    | KeepPrefix(kept: nat)

  const CLEAR := Desk([], [])

  function Without(s: seq<LogEntry>, i: nat): seq<LogEntry>
    requires i < |s|
  {
    s[..i] + s[i + 1..]
  }

  /** No more than `room` submissions are between their check and their append; others have to wait for their check. */
  function StepDesk(parse: Parser, room: nat, d: Desk, act: DeskAct): Desk {
    match act
    case Check(e) =>
      if |d.waiting| < room && CheckConflict(parse, d.log, e.payload) == NoConflict
      then d.(waiting := d.waiting + [e]) else d
    case Append(i) => if i < |d.waiting| then Desk(d.log + [d.waiting[i]], Without(d.waiting, i)) else d
    case Forget(i) => if i < |d.waiting| then d.(waiting := Without(d.waiting, i)) else d
    case DropPrefix(n) => if n <= |d.log| then d.(log := d.log[n..]) else d
    case KeepPrefix(n) => if n <= |d.log| then d.(log := d.log[..n]) else d
  }

  function RunDesk(parse: Parser, room: nat, acts: seq<DeskAct>): Desk {
    if acts == [] then CLEAR
    else StepDesk(parse, room, RunDesk(parse, room, acts[..|acts| - 1]), acts[|acts| - 1])
  }

  /** The act after the first `n` appends what repeats the latest entry about its id, whether the check had overlooked
      that or could not yet see it. */
  predicate SlipsLate(parse: Parser, room: nat, acts: seq<DeskAct>, n: nat) {
    && n < |acts| && acts[n].Append?
    && var d := RunDesk(parse, room, acts[..n]);
       acts[n].i < |d.waiting| && Redundant(parse, d.log, d.waiting[acts[n].i])
  }

  lemma RunDeskMore(parse: Parser, room: nat, acts: seq<DeskAct>, n: nat)
    requires n < |acts|
    ensures RunDesk(parse, room, acts[..n + 1]) == StepDesk(parse, room, RunDesk(parse, room, acts[..n]), acts[n])
  {
    assert acts[..n + 1][..n] == acts[..n];
  }

  lemma StepKeepsNoRepeats(parse: Parser, room: nat, d: Desk, act: DeskAct)
    requires NoRepeats(parse, d.log)
    requires act.Append? && act.i < |d.waiting| ==> !Redundant(parse, d.log, d.waiting[act.i])
    ensures NoRepeats(parse, StepDesk(parse, room, d, act).log)
  {
    match act {
      case Append(i) =>
        if i < |d.waiting| {
          RedundantExactly(parse, d.log, d.waiting[i]);
        }
      case DropPrefix(n) =>
        if n <= |d.log| {
          SliceKeepsNoRepeats(parse, d.log, n, |d.log|);
          assert d.log[n..|d.log|] == d.log[n..];
        }
      case KeepPrefix(n) =>
        if n <= |d.log| {
          SliceKeepsNoRepeats(parse, d.log, 0, n);
          assert d.log[0..n] == d.log[..n];
        }
      case _ =>
    }
  }

  lemma {:induction false} NoLateSlipNoRepeats(parse: Parser, room: nat, acts: seq<DeskAct>, n: nat)
    requires n <= |acts| && forall k: nat :: k < n ==> !SlipsLate(parse, room, acts, k)
    ensures NoRepeats(parse, RunDesk(parse, room, acts[..n]).log)
  {
    if n > 0 {
      NoLateSlipNoRepeats(parse, room, acts, n - 1);
      RunDeskMore(parse, room, acts, n - 1);
      assert !SlipsLate(parse, room, acts, n - 1);
      StepKeepsNoRepeats(parse, room, RunDesk(parse, room, acts[..n - 1]), acts[n - 1]);
    }
  }

  /** The retained log stays free of repeats all through a run exactly when no append slips. */
  lemma NoLateRepeatsExactly(parse: Parser, room: nat, acts: seq<DeskAct>)
    ensures (forall n: nat :: n <= |acts| ==> NoRepeats(parse, RunDesk(parse, room, acts[..n]).log))
            <==> forall n: nat :: !SlipsLate(parse, room, acts, n)
  {
    if forall n: nat :: !SlipsLate(parse, room, acts, n) {
      forall n: nat | n <= |acts| ensures NoRepeats(parse, RunDesk(parse, room, acts[..n]).log) {
        NoLateSlipNoRepeats(parse, room, acts, n);
      }
    }
    if forall n: nat :: n <= |acts| ==> NoRepeats(parse, RunDesk(parse, room, acts[..n]).log) {
      forall n: nat ensures !SlipsLate(parse, room, acts, n) {
        if SlipsLate(parse, room, acts, n) {
          var d := RunDesk(parse, room, acts[..n]);
          RedundantExactly(parse, d.log, d.waiting[acts[n].i]);
          RunDeskMore(parse, room, acts, n);
        }
      }
    }
  }

  // ---------------------------------------------------------------- which documents, and how many at a time

  ghost predicate ChecksOnly(acts: seq<DeskAct>, allowed: LogEntry -> bool) {
    forall k :: 0 <= k < |acts| && acts[k].Check? ==> allowed(acts[k].e)
  }

  ghost predicate NothingCut(acts: seq<DeskAct>) {
    forall k :: 0 <= k < |acts| ==> !acts[k].KeepPrefix?
  }

  ghost predicate NothingRepeats(parse: Parser, allowed: LogEntry -> bool) {
    forall e: LogEntry :: allowed(e) && ClaimsFor(parse, e, IdOf(parse, e)) ==> !Repeats(parse, e, e)
  }

  /** All that the search can read about the id of a document that could be repeated is the same over again, so that
      there is nothing else for a cut to take away. */
  ghost predicate Steadfast(parse: Parser, allowed: LogEntry -> bool) {
    forall e: LogEntry, f: LogEntry ::
      && allowed(e) && ClaimsFor(parse, e, IdOf(parse, e)) && Repeats(parse, e, e)
      && allowed(f) && ClaimsFor(parse, f, IdOf(parse, e)) && IsGeneric(parse(f.payload)) ==>
        Repeats(parse, f, e)
  }

  ghost predicate AllAllowed(es: seq<LogEntry>, allowed: LogEntry -> bool) {
    forall k :: 0 <= k < |es| ==> allowed(es[k])
  }

  lemma RepeatedRepeatsItself(parse: Parser, a: LogEntry, b: LogEntry)
    requires Repeats(parse, a, b)
    ensures Repeats(parse, a, a) && Repeats(parse, b, b)
  {
  }

  lemma RepeatingIsSymmetric(parse: Parser, a: LogEntry, b: LogEntry)
    requires Repeats(parse, a, b)
    ensures Repeats(parse, b, a)
  {
    var x, y := parse(a.payload), parse(b.payload);
    if SameEvent(x, y) {
      ElapsedBackwards(Timestamp(y), Timestamp(x));
    }
  }

  lemma ElapsedBackwards(s: int, t: int)
    requires -TWO_63 < Elapsed(s, t)
    ensures Elapsed(t, s) == -Elapsed(s, t)
  {
  }

  /** The log at the check of a submission that still waits, of which compaction and cuts have left a stretch. */
  ghost predicate CheckedAt(parse: Parser, d: Desk, e: LogEntry, es: seq<LogEntry>, lo: nat, hi: nat,
                            allowed: LogEntry -> bool, mayCut: bool) {
    && lo <= hi <= |es| && d.log == es[lo..hi] && CheckConflict(parse, es, e.payload) == NoConflict
    && AllAllowed(es, allowed) && (hi == |es| || mayCut)
  }

  /** Without a cut in between, what would be redundant when it is appended was so at its check, and turned away. */
  lemma UncutIsCaught(parse: Parser, es: seq<LogEntry>, lo: nat, e: LogEntry, allowed: LogEntry -> bool)
    requires RepeatableAreSeen(parse, allowed) && AllAllowed(es, allowed) && allowed(e)
    requires lo <= |es| && Redundant(parse, es[lo..], e)
    ensures CheckConflict(parse, es, e.payload) != NoConflict
  {
    LatestOfRest(parse, es, lo, IdOf(parse, e));
    assert Redundant(parse, es, e);
    RedundantPassesExactly(parse, es, e);
    SeenIsNotOverlooked(parse, es, e, allowed);
  }

  /** With one, the search has found something to turn it away for in any case. */
  lemma SteadfastIsCaught(parse: Parser, es: seq<LogEntry>, lo: nat, hi: nat, e: LogEntry, allowed: LogEntry -> bool)
    requires RepeatableAreSeen(parse, allowed) && Steadfast(parse, allowed) && AllAllowed(es, allowed) && allowed(e)
    requires lo <= hi <= |es| && Redundant(parse, es[lo..hi], e)
    ensures CheckConflict(parse, es, e.payload) != NoConflict
  {
    var id := IdOf(parse, e);
    var j := Latest(parse, es[lo..hi], id).value;
    RepeatedRepeatsItself(parse, es[lo..hi][j], e);
    assert es[lo + j] == es[lo..hi][j];
    assert Matches(parse, es[lo + j], None, Some(id));
    var found := es[LatestOf(parse, es, |es|, id).value];
    assert allowed(found) && ClaimsFor(parse, found, id);
    assert Repeats(parse, found, e);
  }

  /** A submission that waits alone is not redundant. */
  ghost predicate Sound(parse: Parser, d: Desk, allowed: LogEntry -> bool, mayCut: bool) {
    && AllAllowed(d.log, allowed) && AllAllowed(d.waiting, allowed) && |d.waiting| <= 1
    && (d.waiting != [] ==> exists es, lo, hi :: CheckedAt(parse, d, d.waiting[0], es, lo, hi, allowed, mayCut))
  }

  ghost predicate SafeAlone(parse: Parser, allowed: LogEntry -> bool, mayCut: bool) {
    RepeatableAreSeen(parse, allowed) && (mayCut ==> Steadfast(parse, allowed))
  }

  lemma AloneIsNotRedundant(parse: Parser, d: Desk, allowed: LogEntry -> bool, mayCut: bool)
    requires SafeAlone(parse, allowed, mayCut) && Sound(parse, d, allowed, mayCut) && d.waiting != []
    ensures !Redundant(parse, d.log, d.waiting[0])
  {
    var e := d.waiting[0];
    var es, lo, hi :| CheckedAt(parse, d, e, es, lo, hi, allowed, mayCut);
    if Redundant(parse, d.log, e) {
      if hi == |es| {
        assert es[lo..hi] == es[lo..];
        UncutIsCaught(parse, es, lo, e, allowed);
      } else {
        SteadfastIsCaught(parse, es, lo, hi, e, allowed);
      }
    }
  }

  lemma StepKeepsSound(parse: Parser, d: Desk, act: DeskAct, allowed: LogEntry -> bool, mayCut: bool)
    requires Sound(parse, d, allowed, mayCut) && (act.Check? ==> allowed(act.e)) && (act.KeepPrefix? ==> mayCut)
    ensures Sound(parse, StepDesk(parse, 1, d, act), allowed, mayCut)
  {
    var after := StepDesk(parse, 1, d, act);
    if act.Check? && after != d {
      assert d.log == d.log[0..|d.log|] && after.waiting[0] == act.e;
      assert CheckedAt(parse, after, act.e, d.log, 0, |d.log|, allowed, mayCut);
    } else if d.waiting != [] && after.waiting != [] {
      var es, lo, hi :| CheckedAt(parse, d, d.waiting[0], es, lo, hi, allowed, mayCut);
      SliceOfSlice(parse, d, after, act, es, lo, hi, allowed, mayCut);
    }
  }

  lemma SliceOfSlice(parse: Parser, d: Desk, after: Desk, act: DeskAct, es: seq<LogEntry>, lo: nat, hi: nat,
                     allowed: LogEntry -> bool, mayCut: bool)
    requires |d.waiting| == 1 && CheckedAt(parse, d, d.waiting[0], es, lo, hi, allowed, mayCut)
    requires after == StepDesk(parse, 1, d, act) && after.waiting != [] && (act.KeepPrefix? ==> mayCut)
    ensures after.waiting == d.waiting
    ensures exists from, until :: CheckedAt(parse, after, d.waiting[0], es, from, until, allowed, mayCut)
  {
    if act.DropPrefix? && act.dropped <= |d.log| {
      assert es[lo..hi][act.dropped..] == es[lo + act.dropped..hi];
      assert CheckedAt(parse, after, d.waiting[0], es, lo + act.dropped, hi, allowed, mayCut);
    } else if act.KeepPrefix? && act.kept <= |d.log| {
      assert es[lo..hi][..act.kept] == es[lo..lo + act.kept];
      assert CheckedAt(parse, after, d.waiting[0], es, lo, lo + act.kept, allowed, mayCut);
    } else {
      assert CheckedAt(parse, after, d.waiting[0], es, lo, hi, allowed, mayCut);
    }
  }

  ghost predicate Follows(acts: seq<DeskAct>, allowed: LogEntry -> bool, mayCut: bool) {
    ChecksOnly(acts, allowed) && (mayCut || NothingCut(acts))
  }

  lemma {:induction false} OneAtATime(parse: Parser, acts: seq<DeskAct>, allowed: LogEntry -> bool, mayCut: bool)
    requires SafeAlone(parse, allowed, mayCut) && Follows(acts, allowed, mayCut)
    ensures var d := RunDesk(parse, 1, acts); Sound(parse, d, allowed, mayCut) && NoRepeats(parse, d.log)
  {
    if acts != [] {
      var d, act := RunDesk(parse, 1, acts[..|acts| - 1]), acts[|acts| - 1];
      OneAtATime(parse, acts[..|acts| - 1], allowed, mayCut);
      StepKeepsSound(parse, d, act, allowed, mayCut);
      if act.Append? && d.waiting != [] {
        AloneIsNotRedundant(parse, d, allowed, mayCut);
      }
      StepKeepsNoRepeats(parse, 1, d, act);
    }
  }

  lemma {:induction false} NothingToRepeat(parse: Parser, room: nat, acts: seq<DeskAct>, allowed: LogEntry -> bool)
    requires ChecksOnly(acts, allowed) && NothingRepeats(parse, allowed)
    ensures var d := RunDesk(parse, room, acts);
            && AllAllowed(d.log, allowed) && AllAllowed(d.waiting, allowed)
            && NoRepeats(parse, d.log)
  {
    if acts != [] {
      var d, act := RunDesk(parse, room, acts[..|acts| - 1]), acts[|acts| - 1];
      NothingToRepeat(parse, room, acts[..|acts| - 1], allowed);
      if act.Append? && act.i < |d.waiting| && Redundant(parse, d.log, d.waiting[act.i]) {
        var e := d.waiting[act.i];
        RepeatedRepeatsItself(parse, d.log[Latest(parse, d.log, IdOf(parse, e)).value], e);
      }
      StepKeepsNoRepeats(parse, room, d, act);
    }
  }

  // ---------------------------------------------------------------- the runs that repeat

  /** Submissions that are checked and appended at once, as in the runs of ClaimGuard. */
  function AtOnce(acts: seq<Act>): seq<DeskAct>
    requires forall k :: 0 <= k < |acts| ==> acts[k].Submit?
  {
    if acts == [] then [] else AtOnce(acts[..|acts| - 1]) + [Check(acts[|acts| - 1].e)] + [Append(0)]
  }

  lemma RunDeskSnoc(parse: Parser, room: nat, acts: seq<DeskAct>, act: DeskAct)
    ensures RunDesk(parse, room, acts + [act]) == StepDesk(parse, room, RunDesk(parse, room, acts), act)
  {
    assert (acts + [act])[..|acts|] == acts;
  }

  lemma SubmittedAtOnce(parse: Parser, room: nat, es: seq<LogEntry>, e: LogEntry)
    requires room >= 1
    ensures var checked := StepDesk(parse, room, Desk(es, []), Check(e));
            StepDesk(parse, room, checked, Append(0)) == Desk(Perform(parse, es, Submit(e)), [])
  {
    assert [] + [e] == [e] && Without([e], 0) == [];
  }

  lemma {:induction false} AtOnceIsFused(parse: Parser, room: nat, acts: seq<Act>)
    requires room >= 1 && forall k :: 0 <= k < |acts| ==> acts[k].Submit?
    ensures RunDesk(parse, room, AtOnce(acts)) == Desk(PerformAll(parse, [], acts), [])
  {
    if acts != [] {
      var init, e := acts[..|acts| - 1], acts[|acts| - 1].e;
      AtOnceIsFused(parse, room, init);
      RunDeskSnoc(parse, room, AtOnce(init), Check(e));
      RunDeskSnoc(parse, room, AtOnce(init) + [Check(e)], Append(0));
      SubmittedAtOnce(parse, room, PerformAll(parse, [], init), e);
    }
  }

  lemma {:induction false} AtOnceFollows(acts: seq<Act>, allowed: LogEntry -> bool, mayCut: bool)
    requires SubmitsOnly(acts, allowed) && forall k :: 0 <= k < |acts| ==> acts[k].Submit?
    ensures Follows(AtOnce(acts), allowed, mayCut)
  {
    if acts != [] {
      AtOnceFollows(acts[..|acts| - 1], allowed, mayCut);
    }
  }

  function Twice(e: LogEntry): seq<DeskAct> {
    [] + [Check(e)] + [Check(e)] + [Append(0)] + [Append(0)]
  }

  /** Two submissions of one document that are both checked before either is appended. */
  lemma BothChecked(parse: Parser, room: nat, e: LogEntry)
    requires room >= 2 && ClaimsFor(parse, e, IdOf(parse, e)) && Repeats(parse, e, e)
    ensures RunDesk(parse, room, Twice(e)) == Desk([e, e], []) && !NoRepeats(parse, [e, e])
  {
    var none: seq<DeskAct> := [];
    RunDeskSnoc(parse, room, none, Check(e));
    RunDeskSnoc(parse, room, none + [Check(e)], Check(e));
    RunDeskSnoc(parse, room, none + [Check(e)] + [Check(e)], Append(0));
    RunDeskSnoc(parse, room, none + [Check(e)] + [Check(e)] + [Append(0)], Append(0));
    assert Without([e, e], 0) == [e] && Without([e], 0) == [] && [] + [e] == [e] && [e] + [e] == [e, e];
    TwiceIsRepeat(parse, e);
  }

  /** A document that is checked behind another one about its id, which a cut takes away before it is appended. */
  lemma CutUncovers(parse: Parser, acts: seq<DeskAct>, e: LogEntry, f: LogEntry)
    requires RunDesk(parse, 1, acts) == Desk([e, f], []) && CheckConflict(parse, [e, f], e.payload) == NoConflict
    ensures RunDesk(parse, 1, acts + [Check(e)] + [KeepPrefix(1)] + [Append(0)]) == Desk([e, e], [])
  {
    RunDeskSnoc(parse, 1, acts, Check(e));
    RunDeskSnoc(parse, 1, acts + [Check(e)], KeepPrefix(1));
    RunDeskSnoc(parse, 1, acts + [Check(e)] + [KeepPrefix(1)], Append(0));
    CutSteps(parse, e, f);
  }

  lemma CutSteps(parse: Parser, e: LogEntry, f: LogEntry)
    requires CheckConflict(parse, [e, f], e.payload) == NoConflict
    ensures StepDesk(parse, 1, Desk([e, f], []), Check(e)) == Desk([e, f], [e])
    ensures StepDesk(parse, 1, Desk([e, f], [e]), KeepPrefix(1)) == Desk([e], [e])
    ensures StepDesk(parse, 1, Desk([e], [e]), Append(0)) == Desk([e, e], [])
  {
    assert [] + [e] == [e] && [e, f][..1] == [e] && Without([e], 0) == [] && [e] + [e] == [e, e];
  }

  lemma BehindEachOther(parse: Parser, e: LogEntry, f: LogEntry)
    requires ClaimsFor(parse, e, IdOf(parse, e)) && IsGeneric(parse(e.payload))
    requires ClaimsFor(parse, f, IdOf(parse, e)) && IsGeneric(parse(f.payload)) && !Repeats(parse, f, e)
    ensures PerformAll(parse, [], [Submit(e), Submit(f)]) == [e, f]
    ensures CheckConflict(parse, [e, f], e.payload) == NoConflict
  {
    if Repeats(parse, e, f) {
      RepeatingIsSymmetric(parse, e, f);
    }
    var acts := [Submit(e), Submit(f)];
    assert acts[..0] == [] && acts[..2] == acts;
    PerformMore(parse, acts, 0);
    PerformMore(parse, acts, 1);
    assert Matches(parse, [e][0], None, Some(IdOf(parse, e)));
    assert Matches(parse, [e, f][1], None, Some(IdOf(parse, e)));
    assert [] + [e] == [e] && [e] + [f] == [e, f];
  }

  lemma CutRepeat(parse: Parser, allowed: LogEntry -> bool) returns (acts: seq<DeskAct>)
    requires RepeatableAreSeen(parse, allowed) && !Steadfast(parse, allowed)
    ensures Follows(acts, allowed, true) && !NoRepeats(parse, RunDesk(parse, 1, acts).log)
  {
    var e: LogEntry, f: LogEntry :|
      && allowed(e) && ClaimsFor(parse, e, IdOf(parse, e)) && Repeats(parse, e, e)
      && allowed(f) && ClaimsFor(parse, f, IdOf(parse, e)) && IsGeneric(parse(f.payload)) && !Repeats(parse, f, e);
    acts := CutAct(e, f);
    CutRepeatsOf(parse, e, f);
    AtOnceFollows([Submit(e), Submit(f)], allowed, true);
  }

  function CutAct(e: LogEntry, f: LogEntry): seq<DeskAct> {
    AtOnce([Submit(e), Submit(f)]) + [Check(e)] + [KeepPrefix(1)] + [Append(0)]
  }

  lemma CutRepeatsOf(parse: Parser, e: LogEntry, f: LogEntry)
    requires ClaimsFor(parse, e, IdOf(parse, e)) && Repeats(parse, e, e) && IsGeneric(parse(e.payload))
    requires ClaimsFor(parse, f, IdOf(parse, e)) && IsGeneric(parse(f.payload)) && !Repeats(parse, f, e)
    ensures !NoRepeats(parse, RunDesk(parse, 1, CutAct(e, f)).log)
  {
    var fused := [Submit(e), Submit(f)];
    BehindEachOther(parse, e, f);
    AtOnceIsFused(parse, 1, fused);
    CutUncovers(parse, AtOnce(fused), e, f);
    TwiceIsRepeat(parse, e);
  }

  lemma TwiceIsRepeat(parse: Parser, e: LogEntry)
    requires ClaimsFor(parse, e, IdOf(parse, e)) && Repeats(parse, e, e)
    ensures !NoRepeats(parse, [e, e])
  {
    assert Neighbours(parse, [e, e], 0, 1);
  }

  lemma QueuedRepeat(parse: Parser, allowed: LogEntry -> bool, room: nat, mayCut: bool) returns (acts: seq<DeskAct>)
    requires room >= 1 && !NothingRepeats(parse, allowed) && !(room == 1 && SafeAlone(parse, allowed, mayCut))
    ensures Follows(acts, allowed, mayCut) && !NoRepeats(parse, RunDesk(parse, room, acts).log)
  {
    if room >= 2 {
      var e: LogEntry :| allowed(e) && ClaimsFor(parse, e, IdOf(parse, e)) && Repeats(parse, e, e);
      BothChecked(parse, room, e);
      acts := Twice(e);
    } else if !RepeatableAreSeen(parse, allowed) {
      var fused := UnseenRepeat(parse, allowed);
      AtOnceIsFused(parse, room, fused);
      AtOnceFollows(fused, allowed, mayCut);
      acts := AtOnce(fused);
    } else {
      acts := CutRepeat(parse, allowed);
    }
  }

  /** No run of submissions from a class of documents, checked in one step and appended in a later one, ever puts a
      repeat into the retained log, exactly when nothing in the class can be repeated at all; or no submission is
      checked while another is waiting, the search sees what can be repeated and nothing that hides it, and, if the log
      may be cut, it sees nothing else about the same id. */
  lemma QueuedNeverRepeatExactly(parse: Parser, allowed: LogEntry -> bool, room: nat, mayCut: bool)
    requires room >= 1
    ensures (forall acts: seq<DeskAct> :: Follows(acts, allowed, mayCut) ==>
               NoRepeats(parse, RunDesk(parse, room, acts).log))
            <==> NothingRepeats(parse, allowed) || (room == 1 && SafeAlone(parse, allowed, mayCut))
  {
    if NothingRepeats(parse, allowed) || (room == 1 && SafeAlone(parse, allowed, mayCut)) {
      forall acts: seq<DeskAct> | Follows(acts, allowed, mayCut)
        ensures NoRepeats(parse, RunDesk(parse, room, acts).log)
      {
        if NothingRepeats(parse, allowed) {
          NothingToRepeat(parse, room, acts, allowed);
        } else {
          OneAtATime(parse, acts, allowed, mayCut);
        }
      }
    } else {
      var acts := QueuedRepeat(parse, allowed, room, mayCut);
    }
  }
}
