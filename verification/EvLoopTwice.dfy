/** Events on both lists, to be deleted twice: exactly when a run of the event loop comes to that. */
module EvLoopTwice {
  import opened Prelude
  import opened EvLoopSpec
  import opened EvLoopTheorems
  import opened EvLoopGrowth
  import opened EvLoopRuns
  import opened EvLoopDangling

  /** On both lists, or deleted and still on one of them. */
  ghost predicate TwiceAt(s: Loop, id: nat) {
    (id in s.del && id in s.waitOut) || ((id in s.del || id in s.waitOut) && id !in s.events)
  }

  /** ... or that second entry has been followed. */
  ghost predicate Twice(s: Loop) {
    s.fate == Freed(InDel) || s.fate == Freed(InWaitOut) || exists id :: TwiceAt(s, id)
  }

  /** A `del` that puts an event on the other list than the one it is on. */
  predicate Crosses(s: Loop, id: nat, pending: bool) {
    var e := Get(s, id);
    e.looped && if Flushing(s, id, pending) then id in s.del else id in s.waitOut
  }

  predicate FailCrosses(s: Loop, id: nat) {
    Get(s, id).looped && id in s.waitOut
  }

  /** A call of `del`, direct or through `close` or an error, that does so. */
  predicate OpCrosses(s: Loop, op: Op) {
    s.fate.Fine? &&
    match op
    case DelEv(id, pending, _) => Crosses(s, id, pending)
    case CloseEv(id, sent, pending, _) =>
      (Get(s, id).hasError || (sent && !Get(s, id).wantClose)) && Crosses(s, id, pending)
    case Fail(id) => FailCrosses(s, id)
    case _ => false
  }

  predicate AllCross(s: Loop, ops: seq<Op>)
    decreases |ops|
  {
    ops != [] && (OpCrosses(s, ops[0]) || AllCross(Do(s, ops[0]), ops[1..]))
  }

  predicate OutCrosses(s: Loop, r: Ready) {
    r.out.Some? &&
    (AllCross(s, r.out.value)
     || var s' := DoAll(s, r.out.value);
        s'.fate.Fine? && Get(s', r.id).wantClose && r.sent && Crosses(s', r.id, r.pending))
  }

  predicate InpCrosses(s: Loop, r: Ready) {
    Wants(s, r) && AllCross(Given(s, r.id), r.inp.value)
  }

  predicate IfCrosses(s: Loop, r: Ready, fails: bool) {
    fails && s.fate.Fine? && FailCrosses(s, r.id)
  }

  predicate EndCrosses(s: Loop, r: Ready) {
    var s1 := FailIf(s, r, r.rdhup);
    IfCrosses(s, r, r.rdhup) || IfCrosses(s1, r, r.hup) || IfCrosses(FailIf(s1, r, r.hup), r, r.err)
  }

  predicate HandleCrosses(s: Loop, r: Ready) {
    s.fate.Fine? && r.id in s.events && r.id !in s.del && s.timer != Some(r.id) &&
    (OutCrosses(s, r) || InpCrosses(HandleOut(s, r), r) || EndCrosses(HandleInp(HandleOut(s, r), r), r))
  }

  predicate BatchCrosses(s: Loop, batch: seq<Ready>)
    decreases |batch|
  {
    batch != [] && (HandleCrosses(s, batch[0]) || BatchCrosses(Handle(s, batch[0]), batch[1..]))
  }

  predicate WorksCross(s: Loop, works: seq<seq<Op>>)
    decreases |works|, |s.work|
  {
    s.fate.Fine? && s.work != [] && s.work[0] in s.events &&
    (AllCross(Popped(s), Head(works)) || WorksCross(DoAll(Popped(s), Head(works)), Tail(works)))
  }

  /** Somewhere in the run, a `del` puts an event on the other list. */
  predicate TurnsCross(s: Loop, turns: seq<Turn>)
    decreases |turns|
  {
    var s1 := Tidied(s, Works(turns));
    || WorksCross(s, Works(turns))
    || (s1.fate.Fine? && s1.nb != 0 && turns != [] && !turns[0].poll.Broken? &&
          ((turns[0].poll.Got? && BatchCrosses(s1, turns[0].poll.batch))
           || (Polled(s1, turns[0].poll).cnt && TurnsCross(Polled(s1, turns[0].poll), turns[1..]))))
  }

  // ----- one operation

  /** Growth does not take an event off a list, and does not bring one back. */
  lemma GrowsTwice(s: Loop, s': Loop)
    requires Grows(s, s') && Lists(s) && s.fate.Fine? && Twice(s)
    ensures Twice(s')
  {
    hide Past, NoDup, AllAlive;
    var id :| TwiceAt(s, id);
    assert TwiceAt(s', id);
  }

  lemma QuietTwice(s: Loop, s': Loop)
    requires s'.del == s.del && s'.waitOut == s.waitOut && s.fate.Fine? && (s'.fate.Fine? || s'.fate == Freed(InWork))
    requires forall id | id in s.del || id in s.waitOut :: id in s'.events <==> id in s.events
    ensures Twice(s') <==> Twice(s)
  {
    if id :| TwiceAt(s, id) {
      assert TwiceAt(s', id);
    }
    if id :| TwiceAt(s', id) {
      assert TwiceAt(s, id);
    }
  }

  lemma DelTwice(s: Loop, id: nat, pending: bool, spare: Spare)
    requires Core(s) && Theirs(s, id) && (SpareOk(s, spare) || !pending)
    ensures Twice(Del(s, id, pending, spare)) <==> Twice(s) || Crosses(s, id, pending)
  {
    hide Past, Counted, Once, Watched, Flags, Grows;
    var r := Del(s, id, pending, spare);
    DelGrows(s, id, pending, spare);
    if Twice(s) {
      GrowsTwice(s, r);
    } else {
      assert forall x | x in s.del || x in s.waitOut :: !TwiceAt(s, x);
      if Crosses(s, id, pending) {
        assert r.fate.Fine? ==> TwiceAt(r, id);
      } else {
        DelNotTwice(s, id, pending, spare);
      }
    }
  }

  lemma DelNotTwice(s: Loop, id: nat, pending: bool, spare: Spare)
    requires Core(s) && Theirs(s, id) && (SpareOk(s, spare) || !pending)
    requires !Twice(s) && !Crosses(s, id, pending)
    ensures !Twice(Del(s, id, pending, spare))
  {
    hide Past, Counted, Once, Watched, Flags, CheckWaitOut, DeadTail, NoDup;
    var r := Del(s, id, pending, spare);
    forall x | x in s.del || x in s.waitOut ensures x in s.events && !(x in s.del && x in s.waitOut) {
      assert !TwiceAt(s, x);
    }
    TailsAlive(s);
    CheckSame(PushOut(s, id), spare);
  }

  lemma TailsAlive(s: Loop)
    requires forall x | x in s.del || x in s.waitOut :: x in s.events
    ensures !DeadTail(s, s.del) && !DeadTail(s, s.waitOut)
  {
  }

  lemma CheckSame(s: Loop, spare: Spare)
    ensures var r := CheckWaitOut(s, spare);
      r.del == s.del && r.waitOut == s.waitOut && r.fate == s.fate && s.events.Keys <= r.events.Keys
  {
  }

  lemma PutTwice(s: Loop, id: nat, e: Ev)
    requires id in s.events
    ensures Twice(Put(s, id, e)) <==> Twice(s)
  {
    var s' := Put(s, id, e);
    if x :| TwiceAt(s, x) {
      assert TwiceAt(s', x);
    }
    if x :| TwiceAt(s', x) {
      assert TwiceAt(s, x);
    }
  }

  lemma CloseTwice(s: Loop, id: nat, sent: bool, pending: bool, spare: Spare)
    requires Core(s) && Theirs(s, id) && (SpareOk(s, spare) || !pending)
    ensures Twice(CloseFd(s, id, sent, pending, spare))
       <==> Twice(s) || ((s.events[id].hasError || (sent && !s.events[id].wantClose)) && Crosses(s, id, pending))
  {
    hide Counted, Once, Flags, Lists, TimerKnown, Watched, Aborting, Del, Twice, Past;
    var e := s.events[id];
    PutTwice(s, id, e.(wantClose := true));
    if e.hasError {
      DelTwice(s, id, pending, spare);
    } else if !e.wantClose && sent {
      PutKeeps(s, id, e.(wantClose := true));
      DelTwice(Put(s, id, e.(wantClose := true)), id, pending, spare);
    }
  }

  lemma FailTwice(s: Loop, id: nat)
    requires Core(s) && Theirs(s, id)
    ensures Twice(FailFd(s, id)) <==> Twice(s) || FailCrosses(s, id)
  {
    hide Counted, Once, Flags, Lists, TimerKnown, Watched, Aborting, Twice, CloseFd, Past;
    var e := s.events[id].(hasError := true);
    PutKeeps(s, id, e);
    PutTwice(s, id, e);
    CloseTwice(Put(s, id, e), id, true, false, Spare(0, 0));
  }

  lemma NewNotListed(s: Loop, id: nat)
    requires Lists(s) && Unused(s, id)
    ensures id !in s.del && id !in s.waitOut
  {
    NotListed(s, id, s.del);
    NotListed(s, id, s.waitOut);
  }

  lemma AddTwice(s: Loop, id: nat, accepted: bool, pending: bool, spare: Spare)
    requires Core(s) && Theirs(s, id) && SpareOk(s, spare) && (accepted ==> s.events[id].fd >= 0)
    ensures Twice(AddObj(s, id, accepted, pending, spare)) <==> Twice(s)
  {
    hide Counted, Once, Flags, TimerKnown, Watched, Aborting, Del, Twice, Past, NoDup;
    if !s.events[id].looped {
      var s' := Install(s, id, accepted);
      assert id !in s.del && id !in s.waitOut;
      InstallKeeps(s, id, accepted);
      QuietTwice(s, s');
      if s'.events[id].delOnInstall {
        DelTwice(s', id, pending, spare);
      }
    }
  }

  lemma DoTwice(s: Loop, op: Op)
    requires Inv(s) && Legal(s, op)
    ensures Twice(Do(s, op)) <==> Twice(s) || OpCrosses(s, op)
  {
    hide Counted, Once, Flags, Lists, TimerKnown, Watched, Aborting, AddObj, CloseFd, Del, FailFd, Twice, Crosses, Past, FailCrosses;
    if s.fate.Fine? {
      match op
      case New(id, fd, needWait, mayHaveOut) =>
        NewNotListed(s, id);
        QuietTwice(s, Do(s, op));
      case Add(id, accepted, pending, spare) => AddTwice(s, id, accepted, pending, spare);
      case CloseEv(id, sent, pending, spare) => CloseTwice(s, id, sent, pending, spare);
      case DelEv(id, pending, spare) => DelTwice(s, id, pending, spare);
      case Fail(id) => FailTwice(s, id);
      case AddTimeout(id) => PutTwice(s, id, s.events[id].(looped := true));
      case RegWork(id) => QuietTwice(s, Do(s, op));
      case _ => QuietTwice(s, Do(s, op));
    }
  }

  lemma {:induction false} DoAllTwice(s: Loop, ops: seq<Op>)
    requires Inv(s) && LegalAll(s, ops)
    ensures Twice(DoAll(s, ops)) <==> Twice(s) || AllCross(s, ops)
    decreases |ops|
  {
    hide Do, Legal, Inv, Twice, OpCrosses;
    if ops != [] {
      DoTwice(s, ops[0]);
      DoKeeps(s, ops[0]);
      DoAllTwice(Do(s, ops[0]), ops[1..]);
    }
  }

  // ----- one entry of epoll

  lemma OutTwice(s: Loop, r: Ready)
    requires Inv(s) && s.fate.Fine? && Theirs(s, r.id) && LegalReady(s, r)
    ensures Twice(HandleOut(s, r)) <==> Twice(s) || OutCrosses(s, r)
  {
    hide Del, LegalAll, Core, SpareOk, HandleInp, Wants, TimerThere, Twice, Crosses, AllCross, DoAll, Grows, Theirs;
    if r.out.Some? {
      var s' := DoAll(s, r.out.value);
      DoAllTwice(s, r.out.value);
      DoAllKeeps(s, r.out.value);
      DoAllGrows(s, r.out.value);
      TheirsGrows(s, s', r.id);
      if s'.fate.Fine? {
        DelTwice(s', r.id, r.pending, r.spare);
      }
    }
  }

  lemma GivenTwice(s: Loop, id: nat)
    ensures Twice(Given(s, id)) <==> Twice(s)
  {
    if x :| TwiceAt(s, x) {
      assert TwiceAt(Given(s, id), x);
    }
    if x :| TwiceAt(Given(s, id), x) {
      assert TwiceAt(s, x);
    }
  }

  lemma InpTwice(s: Loop, r: Ready)
    requires Inv(s) && (Wants(s, r) ==> LegalAll(Given(s, r.id), r.inp.value))
    ensures Twice(HandleInp(s, r)) <==> Twice(s) || InpCrosses(s, r)
  {
    hide Inv, LegalAll, Twice, AllCross, DoAll;
    if Wants(s, r) {
      GivenTwice(s, r.id);
      GivenKeeps(s, r.id);
      DoAllTwice(Given(s, r.id), r.inp.value);
    }
  }

  lemma FailIfTwice(s: Loop, r: Ready, fails: bool)
    requires Inv(s) && Theirs(s, r.id)
    ensures Twice(FailIf(s, r, fails)) <==> Twice(s) || IfCrosses(s, r, fails)
  {
    hide Core, TimerThere, Twice, FailFd, FailCrosses, Theirs;
    if fails && s.fate.Fine? {
      FailTwice(s, r.id);
    }
  }

  lemma EndTwice(s: Loop, r: Ready)
    requires Inv(s) && Theirs(s, r.id)
    ensures Twice(HandleEnd(s, r)) <==> Twice(s) || EndCrosses(s, r)
  {
    hide Inv, FailIf, Twice, IfCrosses, Grows, Theirs;
    var s1 := FailIf(s, r, r.rdhup);
    var s2 := FailIf(s1, r, r.hup);
    FailIfTwice(s, r, r.rdhup);
    FailIfGrows(s, r, r.rdhup);
    TheirsGrows(s, s1, r.id);
    FailIfTwice(s1, r, r.hup);
    FailIfGrows(s1, r, r.hup);
    TheirsGrows(s1, s2, r.id);
    FailIfTwice(s2, r, r.err);
  }

  lemma UserTwice(s: Loop, r: Ready)
    requires Inv(s) && s.fate.Fine? && Theirs(s, r.id) && LegalReady(s, r)
    ensures var s1, s2 := HandleOut(s, r), HandleInp(HandleOut(s, r), r);
      Twice(HandleEnd(s2, r)) <==> Twice(s) || OutCrosses(s, r) || InpCrosses(s1, r) || EndCrosses(s2, r)
  {
    hide Inv, Twice, Grows, HandleOut, HandleInp, HandleEnd, Wants, Theirs, OutCrosses, InpCrosses, EndCrosses, Kind;
    var s1 := HandleOut(s, r);
    var s2 := HandleInp(s1, r);
    OutTwice(s, r);
    OutGrows(s, r);
    TheirsGrows(s, s1, r.id);
    InpTwice(s1, r);
    InpKind(s1, r);
    KindInv(s1, s2);
    TheirsInp(s1, r);
    EndTwice(s2, r);
  }

  lemma PassTwice(s: Loop, unsent: set<nat>)
    requires Core(s) && TimerThere(s) && s.timer.Some? && !WaitPass(s, unsent).fate.Aborted?
    ensures Twice(WaitPass(s, unsent)) <==> Twice(s)
  {
    hide Core, WaitPass, TimerThere, Passed;
    var r := WaitPass(s, unsent);
    CoreFine(s);
    if id :| id in s.waitOut && id !in s.events {
      assert TwiceAt(s, id);
      PassFreed(s, unsent);
    } else {
      PassPassed(s, unsent);
      PassedTwice(s, r, unsent);
    }
  }

  lemma PassedTwice(s: Loop, r: Loop, unsent: set<nat>)
    requires Passed(s, r, unsent) && s.fate.Fine? && forall id | id in s.waitOut :: id in s.events
    ensures Twice(r) <==> Twice(s)
  {
    if id :| TwiceAt(s, id) {
      assert TwiceAt(r, id);
    }
    if Twice(r) {
      var id :| id in s.del && TwiceAt(s, id) by {
        if r.fate.Freed? {
          var id := s.del[|s.del| - 1];
          assert id in s.del && TwiceAt(s, id);
        } else {
          var id :| TwiceAt(r, id);
          assert id in s.del && TwiceAt(s, id);
        }
      }
    }
  }

  lemma HandleTwice(s: Loop, r: Ready)
    requires Inv(s) && s.fate.Fine? && LegalHandle(s, r) && !Handle(s, r).fate.Aborted?
    ensures Twice(Handle(s, r)) <==> Twice(s) || HandleCrosses(s, r)
  {
    hide Core, LegalReady, HandleOut, HandleInp, HandleEnd, WaitPass, TimerThere, OutCrosses, InpCrosses, EndCrosses, TwiceAt;
    if r.id !in s.events {
      FreedInBatch(s);
    } else if r.id !in s.del {
      if s.timer != Some(r.id) {
        UserTwice(s, r);
      } else if Wants(s, r) {
        GivenTwice(s, r.id);
        GivenKeeps(s, r.id);
        PassTwice(Given(s, r.id), r.unsent);
      }
    }
  }

  lemma FreedInBatch(s: Loop)
    requires s.fate.Fine?
    ensures Twice(s.(fate := Freed(InBatch))) <==> Twice(s)
  {
    var s' := s.(fate := Freed(InBatch));
    if x :| TwiceAt(s, x) {
      assert TwiceAt(s', x);
    }
    if x :| TwiceAt(s', x) {
      assert TwiceAt(s, x);
    }
  }

  lemma FrozenCrosses(s: Loop, batch: seq<Ready>)
    requires !s.fate.Fine?
    ensures HandleAll(s, batch) == s && !BatchCrosses(s, batch)
    decreases |batch|
  {
    if batch != [] {
      FrozenCrosses(s, batch[1..]);
    }
  }

  lemma {:induction false} HandleAllTwice(s: Loop, batch: seq<Ready>)
    requires Inv(s) && LegalBatch(s, batch) && !HandleAll(s, batch).fate.Aborted?
    ensures Twice(HandleAll(s, batch)) <==> Twice(s) || BatchCrosses(s, batch)
    decreases |batch|
  {
    hide Inv, Twice, LegalHandle, Handle, HandleCrosses, Kind;
    if !s.fate.Fine? {
      FrozenCrosses(s, batch);
    } else if batch != [] {
      var s' := Handle(s, batch[0]);
      HandleKind(s, batch[0]);
      KindInv(s, s');
      HandleAllTwice(s', batch[1..]);
      if !s'.fate.Fine? {
        FrozenCrosses(s', batch[1..]);
      }
      HandleTwice(s, batch[0]);
    }
  }

  // ----- the phases and the run

  lemma {:induction false} WorkTwice(s: Loop, works: seq<seq<Op>>)
    requires Inv(s) && LegalWorks(s, works)
    ensures Twice(WorkPhase(s, works)) <==> Twice(s) || WorksCross(s, works)
    decreases |works|, |s.work|
  {
    hide Inv, Twice, LegalAll, DoAll, AllCross, Kind;
    if s.fate.Fine? && s.work != [] {
      if s.work[0] !in s.events {
        QuietTwice(s, s.(fate := Freed(InWork)));
      } else {
        var s0, s' := Popped(s), DoAll(Popped(s), Head(works));
        PopWork(s);
        KindInv(s, s0);
        QuietTwice(s, s0);
        DoAllKeeps(s0, Head(works));
        DoAllTwice(s0, Head(works));
        WorkMeasure(s, works);
        WorkTwice(s', Tail(works));
      }
    }
  }

  lemma DelOneTwice(s: Loop)
    requires s.fate.Fine? && s.del != [] && NoDup(s.del) && !DelOne(s).fate.Aborted?
    ensures Twice(DelOne(s)) <==> Twice(s)
  {
    var x, rest, r := s.del[0], s.del[1..], DelOne(s);
    assert s.del == [x] + rest && x !in rest;
    if x in s.events {
      if id :| TwiceAt(s, id) {
        assert TwiceAt(r, id);
      }
      if id :| TwiceAt(r, id) {
        assert TwiceAt(s, id);
      }
    } else {
      assert TwiceAt(s, x);
    }
  }

  lemma {:induction false} DelPhaseTwice(s: Loop)
    requires Inv(s) && !DelPhase(s).fate.Aborted?
    ensures Twice(DelPhase(s)) <==> Twice(s)
    decreases |s.del|
  {
    hide Inv, Twice, DelOne, Kind;
    if s.fate.Fine? && s.del != [] {
      var s' := DelOne(s);
      DelOneKind(s);
      KindInv(s, s');
      CoreNoDup(s);
      DelPhaseTwice(s');
      assert s'.fate.Aborted? ==> DelPhase(s') == s';
      DelOneTwice(s);
    }
  }

  lemma FrozenTurns(s: Loop, turns: seq<Turn>)
    requires !s.fate.Fine?
    ensures !TurnsCross(s, turns)
  {
  }

  lemma {:induction false} TurnsTwice(s: Loop, turns: seq<Turn>)
    requires Inv(s) && LegalTurns(s, turns) && !Turns(s, turns).0.fate.Aborted?
    ensures Twice(Turns(s, turns).0) <==> Twice(s) || TurnsCross(s, turns)
    decreases |turns|
  {
    hide Inv, Twice, Kind, LegalWorks, LegalPoll, WorkPhase, DelPhase, HandleAll, WorksCross, BatchCrosses;
    var s0 := WorkPhase(s, Works(turns));
    var s1 := DelPhase(s0);
    WorkKind(s, Works(turns));
    KindInv(s, s0);
    DelKind(s0);
    KindInv(s0, s1);
    WorkTwice(s, Works(turns));
    assert s1 == Tidied(s, Works(turns));
    DelPhaseTwice(s0);
    if s1.fate.Fine? && turns != [] && s1.nb != 0 && !turns[0].poll.Broken? {
      var p := turns[0].poll;
      var s2 := Polled(s1, p);
      PolledKind(s1, p);
      KindInv(s1, s2);
      if p.Got? {
        PollBatch(s1, p);
        HandleAllTwice(s1, p.batch);
      }
      if s2.fate.Fine? && s2.cnt {
        TurnsTwice(s2, turns[1..]);
      } else if s2.cnt {
        FrozenTurns(s2, turns[1..]);
      }
    }
  }

  lemma FreshOnce()
    ensures Inv(FRESH) && !Twice(FRESH)
  {
  }

  lemma RestartTwice(s: Loop)
    ensures Twice(s.(cnt := true)) <==> Twice(s)
  {
    var s' := s.(cnt := true);
    if x :| TwiceAt(s, x) {
      assert TwiceAt(s', x);
    }
    if x :| TwiceAt(s', x) {
      assert TwiceAt(s, x);
    }
  }

  /**
    Over every run that does not abort: an event comes to be on both lists, or is deleted while it is on one
    of them, exactly when some `del`, direct or through `close` or an error, puts it on the other list.
  */
  lemma TwiceWhen(before: seq<Op>, turns: seq<Turn>)
    requires LegalAll(FRESH, before) && LegalTurns(Started(before), turns)
    ensures var (s, end) := Run(Started(before), turns);
      !s.fate.Aborted? ==> (Twice(s) <==> AllCross(FRESH, before) || TurnsCross(Started(before), turns))
  {
    hide Inv, LegalTurns, Turns, TurnsCross, AllCross, DoAll, LegalAll, Twice, AllAlive;
    var s := Started(before);
    StartedInv(before);
    FreshOnce();
    DoAllTwice(FRESH, before);
    RestartTwice(DoAll(FRESH, before));
    assert s.(cnt := true) == s;
    if !Turns(s, turns).0.fate.Aborted? {
      TurnsTwice(s, turns);
    }
  }

  /** An event on both lists is deleted once, and then followed again: the next deletion phase leaves the other entry behind. */
  lemma TwiceDangles(s: Loop, works: seq<seq<Op>>)
    requires Inv(s) && LegalWorks(s, works) && s.fate.Fine? && Twice(s) && !Tidied(s, works).fate.Aborted?
    ensures Dangles(Tidied(s, works))
  {
    hide Inv, Kind, WorkPhase, DelPhase, LegalWorks, Dangles;
    WorkTwice(s, works);
    WorkKind(s, works);
    var s0 := WorkPhase(s, works);
    KindInv(s, s0);
    DelPhaseDangles(s0);
    if s0.fate.Fine? {
      var id :| TwiceAt(s0, id);
      if !OnBoth(s0) {
        assert Dangles(s0) by { ListedDead(s0, id); }
      }
    } else {
      FreedDangles(s0);
      assert DelPhase(s0) == s0 by { KindFrozenDel(s0); }
    }
  }

  lemma ListedDead(s: Loop, id: nat)
    requires TwiceAt(s, id) && !OnBoth(s)
    ensures Dangles(s)
  {
  }

  lemma KindFrozenDel(s: Loop)
    requires !s.fate.Fine?
    ensures DelPhase(s) == s
  {
  }
}
