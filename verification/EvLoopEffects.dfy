/** What the operations of the callbacks and the entries of epoll bring about. */
module EvLoopEffects {
  import opened Prelude
  import opened EvLoopSpec
  import opened EvLoopTheorems
  import opened EvLoopGrowth
  import opened EvLoopRuns

  /** On one of the two lists whose events are deleted. */
  predicate ToDelete(s: Loop, id: nat) {
    id in s.del || id in s.waitOut
  }

  // ----- del, close and errors

  lemma CheckLists(s: Loop, spare: Spare)
    ensures CheckWaitOut(s, spare).del == s.del && CheckWaitOut(s, spare).waitOut == s.waitOut
  {
  }

  /** An event with a loop is listed by `del`: for its output if the kernel still has some, and else for deletion. */
  lemma DelLists(s: Loop, id: nat, pending: bool, spare: Spare)
    requires Get(s, id).looped
    ensures var r := Del(s, id, pending, spare);
      r.fate.Fine? && s.fate.Fine? ==> if Flushing(s, id, pending) then id in r.waitOut else id in r.del
  {
    hide CheckWaitOut;
    CheckLists(PushOut(s, id), spare);
  }

  /**
    A `close` whose output is out lists the event, and so does every one after an error; one with
    output left, or a further one, puts it on no list. After it the event is closing or has an error.
  */
  lemma CloseLists(s: Loop, id: nat, sent: bool, pending: bool, spare: Spare)
    requires s.fate.Fine? && id in s.events && s.events[id].looped && SpareOk(s, spare)
    ensures var e, r := s.events[id], CloseFd(s, id, sent, pending, spare);
      && id in r.events && (r.events[id].hasError || r.events[id].wantClose)
      && (r.fate.Fine? ==>
            if e.hasError || (!e.wantClose && sent) then ToDelete(r, id) else r.del == s.del && r.waitOut == s.waitOut)
  {
    hide Del;
    var s' := Put(s, id, s.events[id].(wantClose := true));
    DelLists(s, id, pending, spare);
    DelLists(s', id, pending, spare);
    DelSameEvent(s, id, pending, spare);
    assert SpareOk(s', spare);
    DelSameEvent(s', id, pending, spare);
  }

  /** After an error the kernel is not asked for output: the event is on the deletion list. */
  lemma FailLists(s: Loop, id: nat)
    requires Get(s, id).looped
    ensures var r := FailFd(s, id); r.fate.Fine? && s.fate.Fine? ==> id in r.del
  {
    hide Del;
    DelLists(Put(s, id, Get(s, id).(hasError := true)), id, false, Spare(0, 0));
  }

  // ----- before the event is installed

  /** A request to delete the event that was made before it has a loop. */
  predicate AsksDeletion(s: Loop, op: Op, id: nat) {
    match op
    case DelEv(x, _, _) => x == id
    case Fail(x) => x == id
    case CloseEv(x, sent, _, _) => x == id && sent && !Get(s, id).wantClose
    case _ => false
  }

  lemma Noted(s: Loop, op: Op, id: nat)
    requires s.fate.Fine? && Legal(s, op) && id in s.events && !s.events[id].looped && AsksDeletion(s, op, id)
    ensures var r := Do(s, op); id in r.events && r.events[id].delOnInstall && !r.events[id].looped
  {
  }

  /**
    An event that is asked to be deleted before it is installed is on a list to be deleted once it is installed,
    whatever is asked meanwhile, unless it gets a timeout meanwhile: with that it has a loop, is not installed,
    and is on such a list only if something else has put it there.
  */
  lemma EarlyDeletion(s: Loop, op: Op, ops: seq<Op>, add: Op)
    requires Inv(s) && s.fate.Fine? && Legal(s, op) && add.Add? && add.id in s.events && !s.events[add.id].looped
    requires AsksDeletion(s, op, add.id) && LegalAll(Do(s, op), ops)
    ensures var s1 := DoAll(Do(s, op), ops);
      s1.fate.Fine? ==>
        && add.id in s1.events
        && (Do(s1, add).fate.Fine? ==>
              (ToDelete(Do(s1, add), add.id) <==> !s1.events[add.id].looped || ToDelete(s1, add.id)))
  {
    hide Inv, LegalAll, DoAll, Del, Grows;
    Noted(s, op, add.id);
    DoAllGrows(Do(s, op), ops);
    var s1 := DoAll(Do(s, op), ops);
    GrowsEvent(Do(s, op), s1, add.id);
    if s1.fate.Fine? && !s1.events[add.id].looped {
      AddLists(s1, add);
    }
  }

  lemma GrowsEvent(s: Loop, s': Loop, id: nat)
    requires Grows(s, s') && id in s.events
    ensures id in s'.events && Advances(s.events[id], s'.events[id])
  {
  }

  lemma AddLists(s: Loop, add: Op)
    requires s.fate.Fine? && add.Add? && add.id in s.events && !s.events[add.id].looped && s.events[add.id].delOnInstall
    ensures Do(s, add).fate.Fine? ==> ToDelete(Do(s, add), add.id)
  {
    hide Del;
    DelLists(Install(s, add.id, add.accepted), add.id, add.pending, add.spare);
  }

  /** Work that is asked for is on the list of the loop, or noted for the time when the event is installed. */
  lemma WorkListed(s: Loop, id: nat)
    requires s.fate.Fine? && id in s.events
    ensures var r := Do(s, RegWork(id)); r.fate.Fine? ==>
      if s.events[id].looped then id in r.work else id in r.events && r.events[id].workOnInstall
  {
  }

  // ----- one entry of epoll

  /** The loop after `on_out` of the entry. */
  function AfterOut(s: Loop, r: Ready): Loop {
    if r.out.Some? then DoAll(s, r.out.value) else s
  }

  /** `del` does not change an event that has a loop. */
  lemma DelSameEvent(s: Loop, id: nat, pending: bool, spare: Spare)
    requires id in s.events && s.events[id].looped && SpareOk(s, spare)
    ensures var r := Del(s, id, pending, spare); id in r.events && r.events[id] == s.events[id]
  {
  }

  ghost predicate OutDone(s: Loop, r: Ready, a: Loop, s1: Loop) {
    && r.id in a.events && r.id in s1.events && s1.events[r.id].looped
    && s1.events[r.id].wantClose == a.events[r.id].wantClose
    && s1.inputs == s.inputs
    && (a.events[r.id].wantClose || (r.id in s1.del <==> r.id in a.del))
    && (r.out.Some? && a.events[r.id].wantClose && r.sent ==> ToDelete(s1, r.id))
  }

  lemma OutServed(s: Loop, r: Ready)
    requires s.fate.Fine? && Theirs(s, r.id) && s.events[r.id].looped && LegalReady(s, r)
    requires HandleOut(s, r).fate.Fine?
    ensures OutDone(s, r, AfterOut(s, r), HandleOut(s, r))
  {
    hide LegalAll, DoAll, Del, Grows, SpareOk;
    if r.out.Some? {
      var a := DoAll(s, r.out.value);
      DoAllGrows(s, r.out.value);
      GrowsEvent(s, a, r.id);
      GrowsInputs(s, a);
      assert a.fate.Fine?;
      DelSameEvent(a, r.id, r.pending, r.spare);
      DelLists(a, r.id, r.pending, r.spare);
      DelGrows(a, r.id, r.pending, r.spare);
      GrowsInputs(a, Del(a, r.id, r.pending, r.spare));
    }
  }

  lemma GrowsInputs(s: Loop, s': Loop)
    requires Grows(s, s')
    ensures s'.inputs == s.inputs && (s'.fate.Fine? ==> s.fate.Fine?)
    ensures forall id | ToDelete(s, id) :: ToDelete(s', id)
    ensures forall id | id in s.del :: id in s'.del
  {
  }

  lemma InpServed(s: Loop, r: Ready)
    requires Theirs(s, r.id) && (Wants(s, r) ==> LegalAll(Given(s, r.id), r.inp.value))
    requires HandleInp(s, r).fate.Fine?
    ensures var s' := HandleInp(s, r);
      && s.fate.Fine? && Theirs(s', r.id)
      && s'.inputs == s.inputs + (if Wants(s, r) then [r.id] else [])
      && (ToDelete(s, r.id) ==> ToDelete(s', r.id))
      && (s.events[r.id].looped ==> s'.events[r.id].looped)
  {
    hide LegalAll, HandleInp, Grows;
    InpGrows(s, r);
    TheirsInp(s, r);
    var s0 := if Wants(s, r) then Given(s, r.id) else s;
    GrowsInputs(s0, HandleInp(s, r));
    GrowsEvent(s0, HandleInp(s, r), r.id);
  }

  lemma FailIfServed(s: Loop, r: Ready, fails: bool)
    requires Theirs(s, r.id) && s.events[r.id].looped && FailIf(s, r, fails).fate.Fine?
    ensures var s' := FailIf(s, r, fails);
      && s.fate.Fine? && Theirs(s', r.id) && s'.events[r.id].looped && s'.inputs == s.inputs
      && (fails || r.id in s.del ==> r.id in s'.del)
      && (ToDelete(s, r.id) ==> ToDelete(s', r.id))
  {
    hide FailFd, Grows;
    FailLists(s, r.id);
    FailIfGrows(s, r, fails);
    TheirsGrows(s, FailIf(s, r, fails), r.id);
    GrowsInputs(s, FailIf(s, r, fails));
    GrowsEvent(s, FailIf(s, r, fails), r.id);
  }

  lemma EndServed(s: Loop, r: Ready)
    requires Theirs(s, r.id) && s.events[r.id].looped && HandleEnd(s, r).fate.Fine?
    ensures var s' := HandleEnd(s, r);
      && s'.inputs == s.inputs
      && (r.rdhup || r.hup || r.err ==> r.id in s'.del)
      && (ToDelete(s, r.id) ==> ToDelete(s', r.id))
  {
    hide FailIf, Grows;
    var s1 := FailIf(s, r, r.rdhup);
    var s2 := FailIf(s1, r, r.hup);
    FailIfGrows(s, r, r.rdhup);
    TheirsGrows(s, s1, r.id);
    GrowsEvent(s, s1, r.id);
    FailIfGrows(s1, r, r.hup);
    TheirsGrows(s1, s2, r.id);
    GrowsEvent(s1, s2, r.id);
    FailIfServed(s2, r, r.err);
    FailIfServed(s1, r, r.hup);
    FailIfServed(s, r, r.rdhup);
  }

  /**
    One entry of epoll for an event of the user: `on_inp` is called once if there is input and `on_out`
    did not close the event or have it deleted, and else not; an event that closes and has nothing more to
    write is listed; and so is one with an error or a hang-up, for deletion.
  */
  lemma EntryServed(s: Loop, r: Ready)
    requires Inv(s) && s.fate.Fine? && Theirs(s, r.id) && s.events[r.id].looped && r.id !in s.del && LegalReady(s, r)
    requires Handle(s, r).fate.Fine?
    ensures var s', a := Handle(s, r), AfterOut(s, r);
      && r.id in a.events
      && s'.inputs == s.inputs + (if r.inp.Some? && !a.events[r.id].wantClose && r.id !in a.del then [r.id] else [])
      && (r.out.Some? && a.events[r.id].wantClose && r.sent ==> ToDelete(s', r.id))
      && (r.rdhup || r.hup || r.err ==> r.id in s'.del)
  {
    hide Inv, LegalAll, DoAll, Del, Grows, HandleOut, HandleInp, HandleEnd, ToDelete;
    var s1 := HandleOut(s, r);
    var s2 := HandleInp(s1, r);
    OutGrows(s, r);
    TheirsGrows(s, s1, r.id);
    GrowsEvent(s, s1, r.id);
    InpGrows(s1, r);
    TheirsInp(s1, r);
    InpLooped(s1, r);
    EndServed(s2, r);
    EndFine(s2, r);
    InpServed(s1, r);
    OutServed(s, r);
    assert s.timer != Some(r.id);
  }

  lemma InpLooped(s: Loop, r: Ready)
    requires Theirs(s, r.id) && s.events[r.id].looped && (Wants(s, r) ==> LegalAll(Given(s, r.id), r.inp.value))
    ensures Theirs(HandleInp(s, r), r.id) && HandleInp(s, r).events[r.id].looped
  {
    hide LegalAll, HandleInp, Grows;
    InpGrows(s, r);
    TheirsInp(s, r);
    GrowsEvent(if Wants(s, r) then Given(s, r.id) else s, HandleInp(s, r), r.id);
  }

  lemma EndFine(s: Loop, r: Ready)
    requires Theirs(s, r.id) && HandleEnd(s, r).fate.Fine?
    ensures s.fate.Fine?
  {
    hide HandleEnd, Grows;
    EndGrows(s, r);
    GrowsInputs(s, HandleEnd(s, r));
  }

  /** The wait-out timer, if epoll names it, has the events deleted whose output is out. */
  lemma TimerServes(s: Loop, r: Ready)
    requires Inv(s) && s.fate.Fine? && s.timer == Some(r.id) && r.id !in s.del && r.inp.Some?
    ensures var s' := Handle(s, r); s'.fate.Fine? ==>
      && s'.inputs == s.inputs + [r.id]
      && forall id | id in s.waitOut :: if id in r.unsent then id in s'.waitOut && id in s'.events else id !in s'.events
  {
    hide Sweep, Kept, CloseFd, Past, LeftOpen, Aborting, Live, Leaks, Grows;
    var g := Given(s, r.id);
    GivenKeeps(s, r.id);
    assert Wants(s, r) by { assert TimerKnown(s); }
    assert Handle(s, r) == WaitPass(g, r.unsent);
    if g.waitOut != [] && WaitPass(g, r.unsent).fate.Fine? {
      PassServes(g, r.unsent);
    }
  }

  lemma PassServes(s: Loop, unsent: set<nat>)
    requires Inv(s) && s.fate.Fine? && s.timer.Some? && WaitPass(s, unsent).fate.Fine? && s.waitOut != []
    ensures var s' := WaitPass(s, unsent);
      && s'.inputs == s.inputs
      && forall id | id in s.waitOut :: if id in unsent then id in s'.waitOut && id in s'.events else id !in s'.events
  {
    hide Counted, Once, Flags, Lists, Watched, Aborting, Sweep, Kept, Past, CloseFd, TimerKnown;
    var s0 := s.(waitOut := []);
    OutChain(s);
    assert Chain(s0, []);
    assert Core(s0) by { OutKeeps(s, []); }
    var s' := Sweep(s0, s.waitOut, unsent);
    SweepGone(s0, s.waitOut, unsent);
    KeptOnly(s.waitOut, unsent);
    if s'.fate.Fine? {
      SweepDeletes(s0, s.waitOut, unsent);
      var t := s.timer.value;
      assert t in s'.events by { TimerSwept(s, unsent); }
      if Kept(s.waitOut, unsent) == [] {
        CloseEvents(s'.(timer := None), t);
        CloseGrows(s'.(timer := None), t, true, false, Spare(0, 0));
      }
    }
  }
}
