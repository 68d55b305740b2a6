/** What callbacks do to the loop: events and list entries come, and none goes. */
module EvLoopGrowth {
  import opened Prelude
  import opened EvLoopSpec
  import opened EvLoopTheorems

  /** Every listed event exists. */
  ghost predicate AllAlive(s: Loop) {
    && (forall id | id in s.work :: id in s.events)
    && (forall id | id in s.del :: id in s.events)
    && (forall id | id in s.waitOut :: id in s.events)
  }

  /** The longer list has further events that exist. */
  ghost predicate Longer(list: seq<nat>, s': Loop, list': seq<nat>) {
    list <= list' && forall id | id in list' :: id in list || id in s'.events
  }

  ghost predicate Same(s: Loop, s': Loop) {
    s'.gone == s.gone && s'.inputs == s.inputs && s'.worked == s.worked
  }

  /** What is set stays set. */
  predicate Advances(was: Ev, e: Ev) {
    && (was.wantClose ==> e.wantClose)
    && (was.delOnInstall ==> e.delOnInstall)
    && (was.looped ==> e.looped)
    && (was.hasError ==> e.hasError)
  }

  ghost predicate EventsGrow(s: Loop, s': Loop) {
    && (forall id | id in s.events :: id in s'.events && Advances(s.events[id], s'.events[id]))
    && (forall id | id in s'.events && id !in s.events :: Unused(s, id))
  }

  ghost predicate TimerGrows(s: Loop, s': Loop) {
    && (s.timer.Some? ==> s'.timer == s.timer)
    && (s.timer.None? && s'.timer.Some? ==> Unused(s, s'.timer.value))
  }

  ghost predicate Grows(s: Loop, s': Loop) {
    && Same(s, s') && EventsGrow(s, s') && TimerGrows(s, s')
    && Longer(s.work, s', s'.work) && Longer(s.del, s', s'.del) && Longer(s.waitOut, s', s'.waitOut)
    && (s.fate.Fine? ==> s'.fate.Fine? || (s'.fate.Freed? && !AllAlive(s)))
    && (!s.fate.Fine? ==> s' == s)
  }

  lemma GrowsSame(s: Loop)
    ensures Grows(s, s)
  {
  }

  lemma LongerThen(l1: seq<nat>, s2: Loop, l2: seq<nat>, s3: Loop, l3: seq<nat>)
    requires Longer(l1, s2, l2) && Longer(l2, s3, l3) && EventsGrow(s2, s3)
    ensures Longer(l1, s3, l3)
  {
    hide Unused;
  }

  lemma AliveBack(a: Loop, b: Loop)
    requires Grows(a, b) && AllAlive(a)
    ensures AllAlive(b)
  {
    hide Unused;
  }

  lemma GrowsThen(a: Loop, b: Loop, c: Loop)
    requires Grows(a, b) && Grows(b, c)
    ensures Grows(a, c)
  {
    hide Longer, AllAlive;
    LongerThen(a.work, b, b.work, c, c.work);
    LongerThen(a.del, b, b.del, c, c.del);
    LongerThen(a.waitOut, b, b.waitOut, c, c.waitOut);
    if AllAlive(a) {
      AliveBack(a, b);
    }
  }

  lemma PutGrows(s: Loop, id: nat, e: Ev)
    requires s.fate.Fine? && id in s.events ==> Advances(s.events[id], e)
    requires s.fate.Fine? && (id in s.events || Unused(s, id))
    ensures Grows(s, Put(s, id, e))
  {
  }

  lemma PushWorkGrows(s: Loop, id: nat)
    requires s.fate.Fine? && id in s.events
    ensures Grows(s, PushWork(s, id))
  {
    hide Unused;
  }

  lemma PushDelGrows(s: Loop, id: nat)
    requires s.fate.Fine? && id in s.events
    ensures Grows(s, PushDel(s, id))
  {
    hide Unused;
  }

  lemma PushOutGrows(s: Loop, id: nat)
    requires s.fate.Fine? && id in s.events
    ensures Grows(s, PushOut(s, id))
  {
    hide Unused;
  }

  lemma CheckGrows(s: Loop, spare: Spare)
    requires s.fate.Fine? && SpareOk(s, spare)
    ensures Grows(s, CheckWaitOut(s, spare))
  {
    hide Past;
  }

  lemma DelGrows(s: Loop, id: nat, pending: bool, spare: Spare)
    requires s.fate.Fine? && id in s.events && (SpareOk(s, spare) || !pending)
    ensures Grows(s, Del(s, id, pending, spare))
  {
    hide Grows, CheckWaitOut, PushWork, PushDel, Past;
    PutGrows(s, id, Get(s, id).(delOnInstall := true));
    PushDelGrows(s, id);
    PushOutGrows(s, id);
    var s' := PushOut(s, id);
    if Flushing(s, id, pending) && s'.fate.Fine? {
      CheckGrows(s', spare);
      GrowsThen(s, s', CheckWaitOut(s', spare));
    }
  }

  lemma CloseGrows(s: Loop, id: nat, sent: bool, pending: bool, spare: Spare)
    requires s.fate.Fine? && id in s.events && (SpareOk(s, spare) || !pending)
    ensures Grows(s, CloseFd(s, id, sent, pending, spare))
  {
    hide Grows, Del, Past;
    var e := s.events[id];
    var s' := Put(s, id, e.(wantClose := true));
    GrowsSame(s);
    PutGrows(s, id, e.(wantClose := true));
    if e.hasError {
      DelGrows(s, id, pending, spare);
    } else if !e.wantClose && sent {
      DelGrows(s', id, pending, spare);
      GrowsThen(s, s', Del(s', id, pending, spare));
    }
  }

  lemma FailGrows(s: Loop, id: nat)
    requires s.fate.Fine? && id in s.events
    ensures Grows(s, FailFd(s, id))
  {
    hide Grows, CloseFd, Past;
    var s' := Put(s, id, s.events[id].(hasError := true));
    PutGrows(s, id, s.events[id].(hasError := true));
    CloseGrows(s', id, true, false, Spare(0, 0));
    GrowsThen(s, s', CloseFd(s', id, true, false, Spare(0, 0)));
  }

  lemma AddGrows(s: Loop, id: nat, accepted: bool, pending: bool, spare: Spare)
    requires s.fate.Fine? && id in s.events && SpareOk(s, spare)
    ensures Grows(s, AddObj(s, id, accepted, pending, spare))
  {
    hide Del, Past;
    var s' := Install(s, id, accepted);
    assert Grows(s, s');
    GrowsSame(s);
    if !s.events[id].looped && s'.events[id].delOnInstall {
      DelGrows(s', id, pending, spare);
      GrowsThen(s, s', Del(s', id, pending, spare));
    }
  }

  lemma DoGrows(s: Loop, op: Op)
    requires Legal(s, op)
    ensures Grows(s, Do(s, op))
  {
    hide AddObj, CloseFd, Del, FailFd, PushWork, Past, Grows;
    if !s.fate.Fine? {
      GrowsSame(s);
    } else {
      match op
      case New(id, fd, needWait, mayHaveOut) => PutGrows(s, id, NewEv(fd, needWait, mayHaveOut));
      case Add(id, accepted, pending, spare) => AddGrows(s, id, accepted, pending, spare);
      case AddTimeout(id) => PutGrows(s, id, s.events[id].(looped := true));
      case CloseEv(id, sent, pending, spare) => CloseGrows(s, id, sent, pending, spare);
      case DelEv(id, pending, spare) => DelGrows(s, id, pending, spare);
      case Fail(id) => FailGrows(s, id);
      case RegWork(id) =>
        PutGrows(s, id, s.events[id].(workOnInstall := true));
        PushWorkGrows(s, id);
      case _ => CountGrows(s, op);
    }
  }

  lemma CountGrows(s: Loop, op: Op)
    requires s.fate.Fine? && (op.Inc? || op.Dec? || op.Stop?)
    ensures Grows(s, Do(s, op))
  {
  }

  ghost predicate LegalAll(s: Loop, ops: seq<Op>)
    decreases |ops|
  {
    ops == [] || (Legal(s, ops[0]) && LegalAll(Do(s, ops[0]), ops[1..]))
  }

  lemma {:induction false} DoAllGrows(s: Loop, ops: seq<Op>)
    requires LegalAll(s, ops)
    ensures Grows(s, DoAll(s, ops))
    decreases |ops|
  {
    hide Grows, Do, Legal;
    if ops == [] {
      GrowsSame(s);
    } else {
      var s' := Do(s, ops[0]);
      DoGrows(s, ops[0]);
      DoAllGrows(s', ops[1..]);
      GrowsThen(s, s', DoAll(s', ops[1..]));
    }
  }

  lemma {:induction false} DoAllKeeps(s: Loop, ops: seq<Op>)
    requires Inv(s) && LegalAll(s, ops)
    ensures Inv(DoAll(s, ops))
    decreases |ops|
  {
    hide Do, Legal, Inv;
    if ops != [] {
      DoKeeps(s, ops[0]);
      DoAllKeeps(Do(s, ops[0]), ops[1..]);
    }
  }

  // ----- one entry of epoll, as far as it is the user's

  ghost predicate LegalReady(s: Loop, r: Ready) {
    && (r.out.Some? ==>
          LegalAll(s, r.out.value) && (DoAll(s, r.out.value).fate.Fine? ==> SpareOk(DoAll(s, r.out.value), r.spare)))
    && (Wants(HandleOut(s, r), r) ==> LegalAll(Given(HandleOut(s, r), r.id), r.inp.value))
  }

  /** The user's event stays the user's. */
  lemma TheirsGrows(s: Loop, s': Loop, id: nat)
    requires Theirs(s, id) && Grows(s, s')
    ensures Theirs(s', id)
  {
  }

  lemma OutGrows(s: Loop, r: Ready)
    requires s.fate.Fine? && Theirs(s, r.id) && LegalReady(s, r)
    ensures Grows(s, HandleOut(s, r)) && (Inv(s) ==> Inv(HandleOut(s, r)))
  {
    hide Grows, Del, LegalAll, Core, SpareOk, HandleInp, Wants, TimerThere;
    GrowsSame(s);
    if r.out.Some? {
      var s' := DoAll(s, r.out.value);
      DoAllGrows(s, r.out.value);
      TheirsGrows(s, s', r.id);
      if s'.fate.Fine? {
        DelGrows(s', r.id, r.pending, r.spare);
        GrowsThen(s, s', Del(s', r.id, r.pending, r.spare));
      }
      if Inv(s) {
        DoAllKeeps(s, r.out.value);
        if s'.fate.Fine? {
          DelKeeps(s', r.id, r.pending, r.spare);
        }
      }
    }
  }

  lemma FailIfGrows(s: Loop, r: Ready, fails: bool)
    requires Theirs(s, r.id)
    ensures Grows(s, FailIf(s, r, fails)) && (Inv(s) ==> Inv(FailIf(s, r, fails)))
  {
    hide Grows, FailFd, Core, TimerThere;
    GrowsSame(s);
    if s.fate.Fine? {
      FailGrows(s, r.id);
      if Inv(s) {
        FailKeeps(s, r.id);
      }
    }
  }

  lemma EndGrows(s: Loop, r: Ready)
    requires Theirs(s, r.id)
    ensures Grows(s, HandleEnd(s, r)) && (Inv(s) ==> Inv(HandleEnd(s, r)))
  {
    hide Grows, FailIf, Inv, Theirs;
    var s1 := FailIf(s, r, r.rdhup);
    var s2 := FailIf(s1, r, r.hup);
    FailIfGrows(s, r, r.rdhup);
    TheirsGrows(s, s1, r.id);
    FailIfGrows(s1, r, r.hup);
    TheirsGrows(s1, s2, r.id);
    FailIfGrows(s2, r, r.err);
    GrowsThen(s, s1, s2);
    GrowsThen(s, s2, FailIf(s2, r, r.err));
  }

  /** The input itself is noted; the rest is growth again. */
  lemma InpGrows(s: Loop, r: Ready)
    requires Theirs(s, r.id) && (Wants(s, r) ==> LegalAll(Given(s, r.id), r.inp.value))
    ensures Grows(if Wants(s, r) then Given(s, r.id) else s, HandleInp(s, r))
    ensures Inv(s) ==> Inv(HandleInp(s, r))
  {
    hide Grows, LegalAll;
    GrowsSame(s);
    if Wants(s, r) {
      DoAllGrows(Given(s, r.id), r.inp.value);
      if Inv(s) {
        GivenKeeps(s, r.id);
        DoAllKeeps(Given(s, r.id), r.inp.value);
      }
    }
  }

  lemma GivenKeeps(s: Loop, id: nat)
    requires Inv(s)
    ensures Inv(Given(s, id))
  {
    hide Past, LeftOpen, Aborting, Live, Leaks;
  }
}
