/** What was asked of the loop over a run, and how that decides whether the program aborts. */
module EvLoopHistory {
  import opened Prelude
  import opened EvLoopSpec
  import opened EvLoopTheorems
  import opened EvLoopGrowth
  import opened EvLoopRuns

  // ----- the requests of a run, in order

  function Asks(s: Loop, ops: seq<Op>): seq<Op>
    decreases |ops|
  {
    if ops == [] || !s.fate.Fine? then [] else [ops[0]] + Asks(Do(s, ops[0]), ops[1..])
  }

  function ReadyAsks(s: Loop, r: Ready): seq<Op> {
    if !s.fate.Fine? || r.id !in s.events || r.id in s.del || s.timer == Some(r.id) then []
    else
      (if r.out.Some? then Asks(s, r.out.value) else [])
      + if Wants(HandleOut(s, r), r) then Asks(Given(HandleOut(s, r), r.id), r.inp.value) else []
  }

  function BatchAsks(s: Loop, batch: seq<Ready>): seq<Op>
    decreases |batch|
  {
    if batch == [] then [] else ReadyAsks(s, batch[0]) + BatchAsks(Handle(s, batch[0]), batch[1..])
  }

  function WorksAsk(s: Loop, works: seq<seq<Op>>): seq<Op>
    decreases |works|, |s.work|
  {
    if !s.fate.Fine? || s.work == [] || s.work[0] !in s.events then []
    else Asks(Popped(s), Head(works)) + WorksAsk(DoAll(Popped(s), Head(works)), Tail(works))
  }

  function TurnsAsk(s: Loop, turns: seq<Turn>): seq<Op>
    decreases |turns|
  {
    var s1 := Tidied(s, Works(turns));
    WorksAsk(s, Works(turns)) +
    if !s1.fate.Fine? || s1.nb == 0 || turns == [] || turns[0].poll.Broken? then []
    else
      var s2 := Polled(s1, turns[0].poll);
      (if turns[0].poll.Got? then BatchAsks(s1, turns[0].poll.batch) else [])
      + if !s2.fate.Fine? || !s2.cnt then [] else TurnsAsk(s2, turns[1..])
  }

  // ----- what they say of an event

  predicate Starts(op: Op, id: nat) {
    (op.AddTimeout? || op.Add?) && op.id == id
  }

  /** The first request that gives the event a loop. */
  function FirstStart(h: seq<Op>, id: nat): Option<Op> {
    if h == [] then None
    else
      var before := FirstStart(h[..|h| - 1], id);
      if before.Some? then before else if Starts(h[|h| - 1], id) then Some(h[|h| - 1]) else None
  }

  predicate Creates(op: Op, id: nat) {
    op.New? && op.id == id
  }

  function Created(h: seq<Op>, id: nat): bool {
    h != [] && (Creates(h[|h| - 1], id) || Created(h[..|h| - 1], id))
  }

  /** The event was given a timeout before it was installed, or epoll refused it. */
  predicate BadStart(h: seq<Op>, id: nat) {
    Created(h, id) && FirstStart(h, id).Some? && (FirstStart(h, id).value.Add? ==> !FirstStart(h, id).value.accepted)
  }

  lemma OneMore(h: seq<Op>, op: Op, id: nat)
    ensures FirstStart(h + [op], id)
         == if FirstStart(h, id).Some? then FirstStart(h, id) else if Starts(op, id) then Some(op) else None
    ensures Created(h + [op], id) <==> Created(h, id) || Creates(op, id)
  {
    assert (h + [op])[..|h|] == h;
  }

  /** The flags of an event are what the requests say; the timers of the loop, which nobody asked for, are with epoll. */
  ghost predicate Tells(h: seq<Op>, id: nat, e: Ev) {
    if Created(h, id) then
      && (e.looped <==> FirstStart(h, id).Some?)
      && (e.looped ==> (e.registered <==> !BadStart(h, id)))
    else e.looped && e.registered
  }

  ghost predicate Told(h: seq<Op>, s: Loop) {
    && (forall id | id in s.events :: Tells(h, id, s.events[id]))
    && (forall d | d in s.gone :: Tells(h, d.id, d.ev))
    && (forall id | Created(h, id) || FirstStart(h, id).Some? :: id in s.events || Past(s.gone, id))
  }

  // ----- one request

  /** A request about another event says nothing new of this one. */
  lemma TellsOther(h: seq<Op>, op: Op, id: nat, e: Ev)
    requires Tells(h, id, e) && !Starts(op, id) && !Creates(op, id)
    ensures Tells(h + [op], id, e)
  {
    OneMore(h, op, id);
  }

  /** A further start changes nothing: the first one counts. */
  lemma TellsAgain(h: seq<Op>, op: Op, id: nat, e: Ev)
    requires Tells(h, id, e) && e.looped && !Creates(op, id)
    ensures Tells(h + [op], id, e)
  {
    OneMore(h, op, id);
  }

  /** The gone are spoken of no more. */
  lemma GoneTold(h: seq<Op>, s: Loop, op: Op)
    requires Told(h, s) && Legal(s, op) && s.fate.Fine? && Once(s)
    ensures forall d | d in s.gone :: Tells(h + [op], d.id, d.ev)
  {
    forall d | d in s.gone ensures Tells(h + [op], d.id, d.ev) {
      assert Past(s.gone, d.id) && d.id !in s.events;
      TellsOther(h, op, d.id, d.ev);
    }
  }

  /** An event that no request has spoken of. */
  lemma Unspoken(h: seq<Op>, s: Loop, id: nat)
    requires Told(h, s) && Unused(s, id)
    ensures !Created(h, id) && FirstStart(h, id) == None
  {
  }

  /** The requests after which the flags of all events are what they were. */
  lemma QuietTold(h: seq<Op>, s: Loop, op: Op, s': Loop)
    requires Told(h, s) && Legal(s, op) && s.fate.Fine? && Once(s) && AsKnown(s, s') && s'.gone == s.gone
    requires !op.New? && !op.Add? && !op.AddTimeout? && EventsGrow(s, s')
    ensures Told(h + [op], s')
  {
    hide Tells, Past;
    GoneTold(h, s, op);
    forall id | id in s'.events ensures Tells(h + [op], id, s'.events[id]) {
      if id in s.events {
        TellsOther(h, op, id, s.events[id]);
        SameFlags(h + [op], id, s.events[id], s'.events[id]);
      } else {
        Unspoken(h, s, id);
        OneMore(h, op, id);
        MadeTells(h + [op], id, s'.events[id]);
      }
    }
    forall id | Created(h + [op], id) || FirstStart(h + [op], id).Some? ensures id in s'.events || Past(s'.gone, id) {
      OneMore(h, op, id);
    }
  }

  lemma SameFlags(h: seq<Op>, id: nat, e: Ev, e': Ev)
    requires Tells(h, id, e) && e'.looped == e.looped && e'.registered == e.registered
    ensures Tells(h, id, e')
  {
  }

  lemma MadeTells(h: seq<Op>, id: nat, e: Ev)
    requires !Created(h, id) && e.looped && e.registered
    ensures Tells(h, id, e)
  {
  }

  lemma NewTold(h: seq<Op>, s: Loop, op: Op)
    requires Told(h, s) && Core(s) && Legal(s, op) && op.New?
    ensures Told(h + [op], Do(s, op))
  {
    hide Tells, Past, Flags, Lists, Counted, Watched, TimerKnown;
    var s' := Do(s, op);
    GoneTold(h, s, op);
    Unspoken(h, s, op.id);
    forall id | id in s'.events ensures Tells(h + [op], id, s'.events[id]) {
      if id == op.id {
        OneMore(h, op, id);
        FreshTells(h + [op], id, s'.events[id]);
      } else {
        TellsOther(h, op, id, s.events[id]);
      }
    }
    forall id | Created(h + [op], id) || FirstStart(h + [op], id).Some? ensures id in s'.events || Past(s'.gone, id) {
      OneMore(h, op, id);
    }
  }

  lemma FreshTells(h: seq<Op>, id: nat, e: Ev)
    requires Created(h, id) && FirstStart(h, id) == None && !e.looped
    ensures Tells(h, id, e)
  {
  }

  /** A first start sets the flags once and for all. */
  lemma StartTells(h: seq<Op>, op: Op, id: nat, e: Ev, e': Ev)
    requires Tells(h, id, e) && Starts(op, id) && !e.looped && !e.registered
    requires e'.looped && (e'.registered <==> op.Add? && op.accepted)
    ensures Tells(h + [op], id, e')
  {
    OneMore(h, op, id);
  }

  /** Setting the flags of the event that the request is about. */
  lemma StartTold(h: seq<Op>, s: Loop, op: Op, s': Loop)
    requires Told(h, s) && Core(s) && Legal(s, op) && (op.Add? || op.AddTimeout?)
    requires s'.gone == s.gone && s'.events.Keys == s.events.Keys
    requires forall id | id in s.events && id != op.id :: s'.events[id] == s.events[id]
    requires var e, e' := s.events[op.id], s'.events[op.id];
      if e.looped then e' == e else e'.looped && (e'.registered <==> op.Add? && op.accepted)
    ensures Told(h + [op], s')
  {
    hide Tells, Past, Lists, Counted, Watched, TimerKnown;
    GoneTold(h, s, op);
    forall id | id in s'.events ensures Tells(h + [op], id, s'.events[id]) {
      if id != op.id {
        TellsOther(h, op, id, s.events[id]);
      } else if s.events[id].looped {
        TellsAgain(h, op, id, s.events[id]);
      } else {
        StartTells(h, op, id, s.events[id], s'.events[id]);
      }
    }
    forall id | Created(h + [op], id) || FirstStart(h + [op], id).Some? ensures id in s'.events || Past(s'.gone, id) {
      OneMore(h, op, id);
    }
  }

  /** What happens to the events otherwise. */
  lemma KnownTold(h: seq<Op>, s: Loop, s': Loop)
    requires Told(h, s) && AsKnown(s, s') && s'.gone == s.gone && EventsGrow(s, s')
    ensures Told(h, s')
  {
    hide Tells, Past;
    forall id | id in s'.events ensures Tells(h, id, s'.events[id]) {
      if id in s.events {
        SameFlags(h, id, s.events[id], s'.events[id]);
      } else {
        Unspoken(h, s, id);
        MadeTells(h, id, s'.events[id]);
      }
    }
  }

  lemma AddTold(h: seq<Op>, s: Loop, op: Op)
    requires Told(h, s) && Core(s) && Legal(s, op) && op.Add?
    ensures Told(h + [op], Do(s, op))
  {
    hide Told, Lists, Counted, Watched, TimerKnown, Flags, Once, Past, Del, Grows;
    if s.events[op.id].looped {
      StartTold(h, s, op, s);
    } else {
      var s' := Install(s, op.id, op.accepted);
      StartTold(h, s, op, s');
      if s'.events[op.id].delOnInstall {
        DelGrows(s', op.id, op.pending, op.spare);
        DelAsKnown(s', op.id, op.pending, op.spare);
        GrowsEvents(s', Del(s', op.id, op.pending, op.spare));
        KnownTold(h + [op], s', Del(s', op.id, op.pending, op.spare));
      }
    }
  }

  lemma GrowsEvents(s: Loop, s': Loop)
    requires Grows(s, s')
    ensures s'.gone == s.gone && EventsGrow(s, s')
  {
  }

  lemma DoTold(h: seq<Op>, s: Loop, op: Op)
    requires Inv(s) && s.fate.Fine? && Legal(s, op) && Told(h, s)
    ensures Told(h + [op], Do(s, op))
  {
    hide Told, Lists, Counted, Watched, TimerKnown, Flags, AddObj, CloseFd, Del, FailFd, Grows, AsKnown, PushWork, EventsGrow;
    var s' := Do(s, op);
    DoGrows(s, op);
    GrowsEvents(s, s');
    match op
    case New(_, _, _, _) => NewTold(h, s, op);
    case Add(_, _, _, _) => AddTold(h, s, op);
    case AddTimeout(id) =>
      SameEvent(s, id);
      StartTold(h, s, op, s');
    case CloseEv(id, sent, pending, spare) =>
      CloseAsKnown(s, id, sent, pending, spare);
      QuietTold(h, s, op, s');
    case DelEv(id, pending, spare) =>
      DelAsKnown(s, id, pending, spare);
      QuietTold(h, s, op, s');
    case Fail(id) =>
      FailAsKnown(s, id);
      QuietTold(h, s, op, s');
    case RegWork(id) =>
      PutAsKnown(s, id, s.events[id].(workOnInstall := true));
      PushWorkEvents(s, id);
      QuietTold(h, s, op, s');
    case _ =>
      SameAsKnown(s, s');
      QuietTold(h, s, op, s');
  }

  lemma PushWorkEvents(s: Loop, id: nat)
    ensures AsKnown(s, PushWork(s, id))
  {
  }

  lemma SameEvent(s: Loop, id: nat)
    requires Core(s) && id in s.events
    ensures s.events[id].looped ==> s.events[id].(looped := true) == s.events[id]
    ensures !s.events[id].looped ==> !s.events[id].registered
  {
  }

  // ----- sequences of requests, and deletions

  lemma {:induction false} AsksTold(h: seq<Op>, s: Loop, ops: seq<Op>)
    requires Inv(s) && LegalAll(s, ops) && Told(h, s)
    ensures Told(h + Asks(s, ops), DoAll(s, ops))
    decreases |ops|
  {
    hide Inv, Told, Do, Legal;
    if ops == [] {
      assert h + [] == h;
    } else if !s.fate.Fine? {
      FrozenAll(s, ops);
      assert h + [] == h;
    } else {
      DoKeeps(s, ops[0]);
      DoTold(h, s, ops[0]);
      AsksTold(h + [ops[0]], Do(s, ops[0]), ops[1..]);
      assert h + Asks(s, ops) == (h + [ops[0]]) + Asks(Do(s, ops[0]), ops[1..]);
    }
  }

  lemma {:induction false} FrozenAll(s: Loop, ops: seq<Op>)
    requires !s.fate.Fine?
    ensures DoAll(s, ops) == s
    decreases |ops|
  {
    if ops != [] {
      FrozenAll(s, ops[1..]);
    }
  }

  lemma DestroyTold(h: seq<Op>, s: Loop, id: nat)
    requires Told(h, s) && id in s.events
    ensures Told(h, Destroy(s, id))
  {
    hide Tells, Past;
    DestroyFields(s, id);
    PastGrows(s.gone, Dead(id, s.events[id]));
  }

  lemma SameTold(h: seq<Op>, s: Loop, s': Loop)
    requires Told(h, s) && s'.events == s.events && s'.gone == s.gone
    ensures Told(h, s')
  {
  }

  lemma {:induction false} SweepTold(h: seq<Op>, s: Loop, ids: seq<nat>, unsent: set<nat>)
    requires Told(h, s)
    ensures Told(h, Sweep(s, ids, unsent))
    decreases |ids|
  {
    hide Told, Destroy;
    if ids != [] && s.fate.Fine? {
      if ids[0] !in s.events {
        SameTold(h, s, s.(fate := Freed(InWaitOut)));
      } else if ids[0] in unsent {
        SweepTold(h, s, ids[1..], unsent);
      } else {
        DestroyTold(h, s, ids[0]);
        SweepTold(h, Destroy(s, ids[0]), ids[1..], unsent);
      }
    }
  }

  lemma PassTold(h: seq<Op>, s: Loop, unsent: set<nat>)
    requires Inv(s) && s.fate.Fine? && Told(h, s)
    ensures Told(h, WaitPass(s, unsent))
  {
    hide Told, Sweep, Kept, CloseFd, Grows, AsKnown, Past;
    if s.waitOut != [] && s.timer.Some? {
      var s0 := s.(waitOut := []);
      var s' := Sweep(s0, s.waitOut, unsent);
      SameTold(h, s, s0);
      SweepTold(h, s0, s.waitOut, unsent);
      if s'.fate.Fine? {
        TimerSwept(s, unsent);
        var t, s2 := s.timer.value, s'.(timer := None);
        SameTold(h, s', s'.(waitOut := Kept(s.waitOut, unsent)));
        SameTold(h, s', s2);
        var r := CloseFd(s2, t, true, false, Spare(0, 0));
        CloseAsKnown(s2, t, true, false, Spare(0, 0));
        CloseGrows(s2, t, true, false, Spare(0, 0));
        GrowsEvents(s2, r);
        KnownTold(h, s2, r);
      }
    }
  }

  // ----- the phases of a run

  lemma OutTold(h: seq<Op>, s: Loop, r: Ready)
    requires Inv(s) && s.fate.Fine? && Theirs(s, r.id) && LegalReady(s, r) && Told(h, s)
    ensures Told(h + (if r.out.Some? then Asks(s, r.out.value) else []), HandleOut(s, r))
  {
    hide Told, Inv, Del, Asks, Grows, AsKnown, LegalAll, DoAll, Past;
    assert h + [] == h;
    if r.out.Some? {
      var s' := DoAll(s, r.out.value);
      AsksTold(h, s, r.out.value);
      DoAllGrows(s, r.out.value);
      TheirsGrows(s, s', r.id);
      if s'.fate.Fine? {
        DelGrows(s', r.id, r.pending, r.spare);
        DelAsKnown(s', r.id, r.pending, r.spare);
        GrowsEvents(s', Del(s', r.id, r.pending, r.spare));
        KnownTold(h + Asks(s, r.out.value), s', Del(s', r.id, r.pending, r.spare));
      }
    }
  }

  lemma InpTold(h: seq<Op>, s: Loop, r: Ready)
    requires Inv(s) && (Wants(s, r) ==> LegalAll(Given(s, r.id), r.inp.value)) && Told(h, s)
    ensures Told(h + (if Wants(s, r) then Asks(Given(s, r.id), r.inp.value) else []), HandleInp(s, r))
  {
    hide Told, Inv, Asks, LegalAll, DoAll;
    assert h + [] == h;
    if Wants(s, r) {
      GivenKeeps(s, r.id);
      SameTold(h, s, Given(s, r.id));
      AsksTold(h, Given(s, r.id), r.inp.value);
    }
  }

  lemma FailIfTold(h: seq<Op>, s: Loop, r: Ready, fails: bool)
    requires r.id in s.events && Told(h, s)
    ensures Told(h, FailIf(s, r, fails)) && r.id in FailIf(s, r, fails).events
  {
    hide Told, FailFd, AsKnown, Grows;
    if fails && s.fate.Fine? {
      FailGrows(s, r.id);
      FailAsKnown(s, r.id);
      GrowsEvents(s, FailFd(s, r.id));
      KnownTold(h, s, FailFd(s, r.id));
    }
  }

  lemma EndTold(h: seq<Op>, s: Loop, r: Ready)
    requires r.id in s.events && Told(h, s)
    ensures Told(h, HandleEnd(s, r))
  {
    hide Told, FailIf;
    FailIfTold(h, s, r, r.rdhup);
    FailIfTold(h, FailIf(s, r, r.rdhup), r, r.hup);
    FailIfTold(h, FailIf(FailIf(s, r, r.rdhup), r, r.hup), r, r.err);
  }

  lemma HandleTold(h: seq<Op>, s: Loop, r: Ready)
    requires Inv(s) && LegalHandle(s, r) && Told(h, s)
    ensures Told(h + ReadyAsks(s, r), Handle(s, r))
  {
    hide Told, Inv, HandleOut, HandleInp, HandleEnd, WaitPass, LegalReady, Asks, Grows, Wants;
    assert h + [] == h;
    if s.fate.Fine? {
      if r.id !in s.events {
        SameTold(h, s, s.(fate := Freed(InBatch)));
      } else if r.id !in s.del {
        if s.timer == Some(r.id) {
          SameTold(h, s, Given(s, r.id));
          GivenKeeps(s, r.id);
          PassTold(h, Given(s, r.id), r.unsent);
        } else {
          UserTold(h, s, r);
        }
      }
    }
  }

  lemma UserTold(h: seq<Op>, s: Loop, r: Ready)
    requires Inv(s) && s.fate.Fine? && Theirs(s, r.id) && r.id !in s.del && LegalReady(s, r) && Told(h, s)
    ensures Told(h + ReadyAsks(s, r), HandleEnd(HandleInp(HandleOut(s, r), r), r))
  {
    hide Told, Inv, HandleOut, HandleInp, HandleEnd, Asks, Grows;
    var s1 := HandleOut(s, r);
    var out := if r.out.Some? then Asks(s, r.out.value) else [];
    var inp := if Wants(s1, r) then Asks(Given(s1, r.id), r.inp.value) else [];
    OutTold(h, s, r);
    OutGrows(s, r);
    TheirsGrows(s, s1, r.id);
    InpTold(h + out, s1, r);
    TheirsInp(s1, r);
    EndTold((h + out) + inp, HandleInp(s1, r), r);
    assert h + ReadyAsks(s, r) == (h + out) + inp;
  }

  lemma {:induction false} BatchTold(h: seq<Op>, s: Loop, batch: seq<Ready>)
    requires Inv(s) && LegalBatch(s, batch) && Told(h, s)
    ensures Told(h + BatchAsks(s, batch), HandleAll(s, batch))
    decreases |batch|
  {
    hide Told, Inv, LegalHandle, Handle, ReadyAsks, Kind;
    if batch == [] {
      assert h + [] == h;
    } else {
      var s', a := Handle(s, batch[0]), ReadyAsks(s, batch[0]);
      HandleTold(h, s, batch[0]);
      HandleKind(s, batch[0]);
      KindInv(s, s');
      BatchTold(h + a, s', batch[1..]);
      assert h + BatchAsks(s, batch) == (h + a) + BatchAsks(s', batch[1..]);
    }
  }

  lemma {:induction false} WorksTold(h: seq<Op>, s: Loop, works: seq<seq<Op>>)
    requires Inv(s) && LegalWorks(s, works) && Told(h, s)
    ensures Told(h + WorksAsk(s, works), WorkPhase(s, works))
    decreases |works|, |s.work|
  {
    hide Told, Inv, LegalAll, DoAll, Asks, Kind;
    assert h + [] == h;
    if s.fate.Fine? && s.work != [] {
      if s.work[0] !in s.events {
        SameTold(h, s, s.(fate := Freed(InWork)));
      } else {
        var s0, s', a := Popped(s), DoAll(Popped(s), Head(works)), Asks(Popped(s), Head(works));
        PopWork(s);
        KindInv(s, s0);
        SameTold(h, s, s0);
        AsksTold(h, s0, Head(works));
        DoAllKeeps(s0, Head(works));
        WorkMeasure(s, works);
        WorksTold(h + a, s', Tail(works));
        assert h + WorksAsk(s, works) == (h + a) + WorksAsk(s', Tail(works));
      }
    }
  }

  lemma {:induction false} DelPhaseTold(h: seq<Op>, s: Loop)
    requires Told(h, s)
    ensures Told(h, DelPhase(s))
    decreases |s.del|
  {
    hide Told, Destroy;
    if s.fate.Fine? && s.del != [] {
      var s' := s.(del := s.del[1..]);
      SameTold(h, s, s');
      if s.del[0] in s.events {
        DestroyTold(h, s', s.del[0]);
      } else {
        SameTold(h, s', s'.(fate := Freed(InDel)));
      }
      DelPhaseTold(h, DelOne(s));
    }
  }

  lemma PolledTold(h: seq<Op>, s: Loop, p: Poll)
    requires Inv(s) && LegalPoll(s, p) && Told(h, s)
    ensures Told(h + (if p.Got? then BatchAsks(s, p.batch) else []), Polled(s, p))
  {
    hide Told, Inv, LegalBatch, HandleAll, BatchAsks;
    assert h + [] == h;
    if p.Got? {
      BatchTold(h, s, p.batch);
    }
  }

  lemma {:induction false} TurnsTold(h: seq<Op>, s: Loop, turns: seq<Turn>)
    requires Inv(s) && LegalTurns(s, turns) && Told(h, s)
    ensures Told(h + TurnsAsk(s, turns), Turns(s, turns).0)
    decreases |turns|
  {
    hide Told, Inv, Kind, LegalWorks, LegalPoll, WorkPhase, DelPhase, HandleAll, WorksAsk, BatchAsks, Polled;
    var works := Works(turns);
    var s0, a := WorkPhase(s, works), WorksAsk(s, works);
    var s1 := DelPhase(s0);
    WorksTold(h, s, works);
    WorkKind(s, works);
    KindInv(s, s0);
    DelPhaseTold(h + a, s0);
    DelKind(s0);
    KindInv(s0, s1);
    assert s1 == Tidied(s, works) && a + [] == a;
    if s1.fate.Fine? && s1.nb != 0 && turns != [] && !turns[0].poll.Broken? {
      var p := turns[0].poll;
      var s2, b := Polled(s1, p), if p.Got? then BatchAsks(s1, p.batch) else [];
      PolledTold(h + a, s1, p);
      PolledKind(s1, p);
      KindInv(s1, s2);
      assert b + [] == b;
      if s2.fate.Fine? && s2.cnt {
        TurnsTold((h + a) + b, s2, turns[1..]);
        assert h + (a + (b + TurnsAsk(s2, turns[1..]))) == ((h + a) + b) + TurnsAsk(s2, turns[1..]);
      } else {
        assert h + (a + b) == (h + a) + b;
      }
    }
  }

  // ----- when a run aborts

  lemma FreshTold()
    ensures Told([], FRESH) && Inv(FRESH)
  {
  }

  /** All that was asked, before the loop was run and while it ran. */
  function Asked(before: seq<Op>, turns: seq<Turn>): seq<Op> {
    Asks(FRESH, before) + TurnsAsk(Started(before), turns)
  }

  lemma RunTold(before: seq<Op>, turns: seq<Turn>)
    requires LegalAll(FRESH, before) && LegalTurns(Started(before), turns)
    ensures Told(Asked(before, turns), Run(Started(before), turns).0)
  {
    hide Told, Inv, LegalTurns, Turns, LegalAll, DoAll, Asks, TurnsAsk, AllAlive;
    var s, h := Started(before), Asks(FRESH, before);
    FreshTold();
    AsksTold([], FRESH, before);
    assert [] + h == h;
    SameTold(h, DoAll(FRESH, before), s);
    StartedInv(before);
    assert s.(cnt := true) == s;
    TurnsTold(h, s, turns);
  }

  /**
    A run aborts exactly when it deletes an event, of a descriptor above 2, that was given a timeout before it was
    installed, or that epoll refused: as the requests of the run say.
  */
  lemma AbortedWhen(before: seq<Op>, turns: seq<Turn>)
    requires LegalAll(FRESH, before) && LegalTurns(Started(before), turns)
    ensures var s := Run(Started(before), turns).0;
      s.fate.Aborted? <==> exists d | d in s.gone :: d.ev.fd > 2 && BadStart(Asked(before, turns), d.id)
  {
    hide Started, LegalTurns, Turns, EndMeans, Core, TimerThere, Asked, BadStart, FirstStart, Created;
    RunTold(before, turns);
    RunMeans(before, turns);
    var s, h := Run(Started(before), turns).0, Asked(before, turns);
    AbortingFate(s);
    forall d | d in s.gone ensures Unknown(d.ev) <==> d.ev.fd > 2 && BadStart(h, d.id) {
      TellsUnknown(h, d.id, d.ev);
    }
  }

  lemma TellsUnknown(h: seq<Op>, id: nat, e: Ev)
    requires Tells(h, id, e)
    ensures Unknown(e) <==> e.fd > 2 && BadStart(h, id)
  {
  }
}
