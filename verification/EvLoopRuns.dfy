/** Whole runs of the event loop: what it counts, deletes and hands input to, and when it stops. */
module EvLoopRuns {
  import opened Prelude
  import opened EvLoopSpec
  import opened EvLoopTheorems
  import opened EvLoopGrowth

  // ----- the callers' part, over runs, and the kernel's

  ghost predicate LegalHandle(s: Loop, r: Ready) {
    s.fate.Fine? && Theirs(s, r.id) && r.id !in s.del ==> LegalReady(s, r)
  }

  ghost predicate LegalBatch(s: Loop, batch: seq<Ready>)
    decreases |batch|
  {
    batch == [] || (LegalHandle(s, batch[0]) && LegalBatch(Handle(s, batch[0]), batch[1..]))
  }

  ghost predicate LegalWorks(s: Loop, works: seq<seq<Op>>)
    decreases |works|, |s.work|
  {
    !s.fate.Fine? || s.work == [] || s.work[0] !in s.events ||
    (LegalAll(Popped(s), Head(works)) && LegalWorks(DoAll(Popped(s), Head(works)), Tail(works)))
  }

  /** epoll names events that it was given and not told to forget, each once. */
  ghost predicate LegalPoll(s: Loop, p: Poll) {
    p.Got? ==>
      && (forall r | r in p.batch :: r.id in s.epoll)
      && (forall i, j | 0 <= i < j < |p.batch| :: p.batch[i].id != p.batch[j].id)
      && LegalBatch(s, p.batch)
  }

  ghost predicate LegalTurns(s: Loop, turns: seq<Turn>)
    decreases |turns|
  {
    && LegalWorks(s, Works(turns))
    && var s1 := Tidied(s, Works(turns));
       (turns == [] || !s1.fate.Fine? || s1.nb == 0 ||
        (LegalPoll(s1, turns[0].poll) && LegalTurns(Polled(s1, turns[0].poll), turns[1..])))
  }

  // ----- what a stretch of the run keeps

  /** Deleted already, or never to get input again. */
  ghost predicate Closing(s: Loop, id: nat) {
    if id in s.events then s.events[id].wantClose || id in s.del else Past(s.gone, id)
  }

  /** How often an event got input. */
  function Served(s: Loop, id: nat): nat {
    multiset(s.inputs)[id]
  }

  ghost predicate Kind(s: Loop, s': Loop) {
    && Inv(s') && s.gone <= s'.gone
    && (!s.fate.Fine? ==> s' == s)
    && (s'.fate.Fine? ==> forall id | Closing(s, id) :: Closing(s', id) && Served(s', id) == Served(s, id))
  }

  lemma KindThen(a: Loop, b: Loop, c: Loop)
    requires Kind(a, b) && Kind(b, c)
    ensures Kind(a, c)
  {
    hide Inv, Closing, Served;
  }

  lemma KindSame(s: Loop)
    requires Inv(s)
    ensures Kind(s, s)
  {
    hide Inv, Closing, Served;
  }

  lemma GrowsKind(s: Loop, s': Loop)
    requires Grows(s, s') && Inv(s')
    ensures Kind(s, s')
  {
    hide Inv, AllAlive, Past;
  }

  // ----- one entry of epoll

  lemma InputGiven(s: Loop, id: nat)
    requires Inv(s) && s.fate.Fine? && id in s.events && !s.events[id].wantClose && id !in s.del
    ensures Kind(s, Given(s, id))
  {
    hide Past, Core, TimerThere;
    GivenKeeps(s, id);
  }

  lemma InpKind(s: Loop, r: Ready)
    requires Inv(s) && Theirs(s, r.id) && (Wants(s, r) ==> LegalAll(Given(s, r.id), r.inp.value))
    ensures Kind(s, HandleInp(s, r))
  {
    hide Inv, Kind, LegalAll, Grows, HandleInp;
    InpGrows(s, r);
    if Wants(s, r) {
      InputGiven(s, r.id);
      GrowsKind(Given(s, r.id), HandleInp(s, r));
      KindThen(s, Given(s, r.id), HandleInp(s, r));
    } else {
      GrowsKind(s, HandleInp(s, r));
    }
  }

  lemma TheirsInp(s: Loop, r: Ready)
    requires Theirs(s, r.id) && (Wants(s, r) ==> LegalAll(Given(s, r.id), r.inp.value))
    ensures Theirs(HandleInp(s, r), r.id)
  {
    hide LegalAll, Grows, HandleInp;
    InpGrows(s, r);
    TheirsGrows(if Wants(s, r) then Given(s, r.id) else s, HandleInp(s, r), r.id);
  }

  lemma UserKind(s: Loop, r: Ready)
    requires Inv(s) && s.fate.Fine? && Theirs(s, r.id) && LegalReady(s, r)
    ensures Kind(s, HandleEnd(HandleInp(HandleOut(s, r), r), r))
  {
    hide Inv, Kind, Grows, HandleOut, HandleInp, HandleEnd, Wants, Theirs;
    var s1 := HandleOut(s, r);
    var s2 := HandleInp(s1, r);
    OutGrows(s, r);
    GrowsKind(s, s1);
    TheirsGrows(s, s1, r.id);
    InpKind(s1, r);
    assert Inv(s2) by { KindInv(s1, s2); }
    TheirsInp(s1, r);
    EndGrows(s2, r);
    GrowsKind(s2, HandleEnd(s2, r));
    KindThen(s, s1, s2);
    KindThen(s, s2, HandleEnd(s2, r));
  }

  lemma KindInv(s: Loop, s': Loop)
    requires Kind(s, s')
    ensures Inv(s')
  {
  }

  /** What a pass does to the fields that it does not announce. */
  lemma {:induction false} SweepGone(s: Loop, ids: seq<nat>, unsent: set<nat>)
    ensures var r := Sweep(s, ids, unsent);
      && s.gone <= r.gone && r.inputs == s.inputs && r.del == s.del && r.work == s.work
      && r.waitOut == s.waitOut && r.timer == s.timer
      && (forall id | id in s.events :: if id in r.events then r.events[id] == s.events[id] else Past(r.gone, id))
      && (forall id | id in r.events :: id in s.events)
    decreases |ids|
  {
    hide Destroy, Past;
    if ids != [] && s.fate.Fine? && ids[0] in s.events {
      if ids[0] in unsent {
        SweepGone(s, ids[1..], unsent);
      } else {
        var s' := Destroy(s, ids[0]);
        DestroyFields(s, ids[0]);
        SweepGone(s', ids[1..], unsent);
        PastGrows(s.gone, Dead(ids[0], s.events[ids[0]]));
        PastPrefix(s'.gone, Sweep(s', ids[1..], unsent).gone);
      }
    }
  }

  lemma PastPrefix(g: seq<Dead>, g': seq<Dead>)
    requires g <= g'
    ensures forall id | Past(g, id) :: Past(g', id)
  {
    assert forall d | d in g :: d in g';
  }

  lemma PassKind(s: Loop, unsent: set<nat>)
    requires Inv(s) && s.fate.Fine?
    ensures Kind(s, WaitPass(s, unsent))
  {
    hide Sweep, Kept, Past, CloseFd, Core, TimerThere, Grows;
    PassKeeps(s, unsent);
    var r := WaitPass(s, unsent);
    if s.waitOut != [] && s.timer.Some? {
      var s0 := s.(waitOut := []);
      var s' := Sweep(s0, s.waitOut, unsent);
      SweepGone(s0, s.waitOut, unsent);
      PastPrefix(s.gone, s'.gone);
      if s'.fate.Fine? && Kept(s.waitOut, unsent) == [] {
        var t := s.timer.value;
        assert t in s'.events by { TimerSwept(s, unsent); }
        PassEnd(s'.(timer := None), t, r);
      }
    }
  }

  lemma PassEnd(s: Loop, t: nat, r: Loop)
    requires s.fate.Fine? && t in s.events && r == CloseFd(s, t, true, false, Spare(0, 0))
    ensures r.gone == s.gone && r.inputs == s.inputs && s.del <= r.del
    ensures forall id | id in s.events :: id in r.events && (s.events[id].wantClose ==> r.events[id].wantClose)
    ensures forall id | id in r.events :: id in s.events
  {
    hide CloseFd;
    CloseGrows(s, t, true, false, Spare(0, 0));
    CloseEvents(s, t);
  }

  /** Without output to wait for, closing makes no timer. */
  lemma CloseEvents(s: Loop, t: nat)
    requires t in s.events
    ensures CloseFd(s, t, true, false, Spare(0, 0)).events.Keys == s.events.Keys
  {
  }

  lemma TimerSwept(s: Loop, unsent: set<nat>)
    requires Core(s) && s.timer.Some? && Sweep(s.(waitOut := []), s.waitOut, unsent).fate.Fine?
    ensures s.timer.value in Sweep(s.(waitOut := []), s.waitOut, unsent).events
  {
    hide Sweep, Past, Counted, Watched, Once, Flags;
    var s0 := s.(waitOut := []);
    OutChain(s);
    assert Chain(s0, []);
    OutKeeps(s, []);
    SweepDeletes(s0, s.waitOut, unsent);
  }

  lemma HandleKind(s: Loop, r: Ready)
    requires Inv(s) && LegalHandle(s, r)
    ensures Kind(s, Handle(s, r))
  {
    hide Kind, Core, TimerThere, LegalReady, HandleOut, HandleInp, HandleEnd, WaitPass;
    KindSame(s);
    if s.fate.Fine? && r.id !in s.events {
      FreedKind(s, InBatch);
    } else if s.fate.Fine? && r.id !in s.del {
      if s.timer != Some(r.id) {
        UserKind(s, r);
      } else if Wants(s, r) {
        InputGiven(s, r.id);
        KindInv(s, Given(s, r.id));
        PassKind(Given(s, r.id), r.unsent);
        KindThen(s, Given(s, r.id), WaitPass(Given(s, r.id), r.unsent));
      }
    }
  }

  lemma FreedKind(s: Loop, place: Place)
    requires Inv(s) && s.fate.Fine?
    ensures Kind(s, s.(fate := Freed(place)))
  {
  }

  lemma {:induction false} HandleAllKind(s: Loop, batch: seq<Ready>)
    requires Inv(s) && LegalBatch(s, batch)
    ensures Kind(s, HandleAll(s, batch))
    decreases |batch|
  {
    hide Inv, Kind, LegalHandle, Handle;
    if batch == [] {
      KindSame(s);
    } else {
      var s' := Handle(s, batch[0]);
      HandleKind(s, batch[0]);
      KindInv(s, s');
      HandleAllKind(s', batch[1..]);
      KindThen(s, s', HandleAll(s', batch[1..]));
    }
  }

  // ----- the first two phases

  lemma PopWork(s: Loop)
    requires Inv(s) && s.fate.Fine? && s.work != []
    ensures Kind(s, Popped(s))
  {
    hide Past, LeftOpen, Aborting, Live, Leaks;
    assert forall id | id in s.work[1..] :: id in s.work;
  }

  lemma WorkMeasure(s: Loop, works: seq<seq<Op>>)
    requires s.work != []
    ensures |Tail(works)| < |works| || (works == [] && |DoAll(Popped(s), Head(works)).work| < |s.work|)
  {
  }

  lemma {:induction false} WorkKind(s: Loop, works: seq<seq<Op>>)
    requires Inv(s) && LegalWorks(s, works)
    ensures var r := WorkPhase(s, works); Kind(s, r) && (r.fate.Fine? ==> r.work == [])
    ensures !s.fate.Aborted? ==> !WorkPhase(s, works).fate.Aborted?
    decreases |works|, |s.work|
  {
    hide Inv, Kind, LegalAll, DoAll, Grows;
    if !s.fate.Fine? || s.work == [] {
      KindSame(s);
    } else if s.work[0] !in s.events {
      FreedKind(s, InWork);
    } else {
      var s0, s' := Popped(s), DoAll(Popped(s), Head(works));
      PopWork(s);
      KindInv(s, s0);
      DoAllGrows(s0, Head(works));
      DoAllKeeps(s0, Head(works));
      GrowsKind(s0, s');
      assert !s'.fate.Aborted? by { GrowsFate(s0, s'); }
      WorkMeasure(s, works);
      WorkKind(s', Tail(works));
      KindThen(s, s0, s');
      KindThen(s, s', WorkPhase(s', Tail(works)));
    }
  }

  lemma GrowsFate(s: Loop, s': Loop)
    requires Grows(s, s')
    ensures s'.fate.Aborted? <==> s.fate.Aborted?
  {
  }

  lemma FewerDel(s: Loop)
    requires Inv(s) && s.fate.Fine? && s.del != []
    ensures var s' := s.(del := s.del[1..]); Core(s') && TimerThere(s') && s.del[0] !in s'.del
    ensures s.del[0] in s.events ==> Theirs(s, s.del[0])
  {
    hide Past, LeftOpen, Aborting, Live, Leaks;
    assert forall id | id in s.del[1..] :: id in s.del;
  }

  lemma DelOneKind(s: Loop)
    requires Inv(s) && s.fate.Fine? && s.del != []
    ensures var r := DelOne(s);
      && Kind(s, r) && r.work == s.work && r.del == s.del[1..]
      && (!r.fate.Freed? ==> exists e :: r.gone == s.gone + [Dead(s.del[0], e)])
  {
    hide Core, Past, Destroy, TimerThere;
    var s', id := s.(del := s.del[1..]), s.del[0];
    FewerDel(s);
    var r := DelOne(s);
    if id in s.events {
      DestroyKeeps(s', id);
      DestroyFields(s', id);
      TimerStays(s', id);
      PastGrows(s.gone, Dead(id, s.events[id]));
      PastPrefix(s.gone, r.gone);
    } else {
      FreedInv(s', InDel);
    }
  }

  lemma FreedInv(s: Loop, place: Place)
    requires Core(s)
    ensures Inv(s.(fate := Freed(place)))
  {
  }

  lemma TimerStays(s: Loop, id: nat)
    requires id in s.events && TimerThere(s)
    ensures TimerThere(Destroy(s, id))
  {
  }

  function Names(gone: seq<Dead>): seq<nat> {
    seq(|gone|, i requires 0 <= i < |gone| => gone[i].id)
  }

  /** The second phase deletes all that was to be deleted, in order, and nothing else. */
  lemma {:induction false} DelKind(s: Loop)
    requires Inv(s)
    ensures var r := DelPhase(s);
      && Kind(s, r) && r.work == s.work
      && (r.fate.Fine? ==> r.del == [] && Names(r.gone) == Names(s.gone) + s.del)
    decreases |s.del|
  {
    hide Inv, Kind, DelOne;
    if !s.fate.Fine? || s.del == [] {
      KindSame(s);
    } else {
      var s' := DelOne(s);
      DelOneKind(s);
      KindInv(s, s');
      DelKind(s');
      KindThen(s, s', DelPhase(s'));
      assert [s.del[0]] + s.del[1..] == s.del;
    }
  }

  lemma TidiedKind(s: Loop, works: seq<seq<Op>>)
    requires Inv(s) && LegalWorks(s, works)
    ensures var r := Tidied(s, works); Kind(s, r) && (r.fate.Fine? ==> r.work == [] && r.del == [])
  {
    hide Inv, Kind, WorkPhase, DelPhase, LegalWorks;
    WorkKind(s, works);
    var s' := WorkPhase(s, works);
    KindInv(s, s');
    DelKind(s');
    if DelPhase(s').fate.Fine? {
      KindFine(s', DelPhase(s'));
    }
    KindThen(s, s', DelPhase(s'));
  }

  lemma KindFine(s: Loop, s': Loop)
    requires Kind(s, s') && s'.fate.Fine?
    ensures s.fate.Fine?
  {
  }

  lemma PolledKind(s: Loop, p: Poll)
    requires Inv(s) && LegalPoll(s, p)
    ensures Kind(s, Polled(s, p))
  {
    hide Inv, Kind, HandleAll, LegalBatch;
    if p.Got? {
      HandleAllKind(s, p.batch);
    } else {
      KindSame(s);
    }
  }

  // ----- the order of work

  /** The registered work is done first come, first served; what it registers in turn comes behind it. */
  lemma {:induction false} WorkInOrder(s: Loop, works: seq<seq<Op>>)
    requires LegalWorks(s, works)
    ensures var r := WorkPhase(s, works); r.fate.Fine? ==> s.worked + s.work <= r.worked
    decreases |works|, |s.work|
  {
    hide DoAll, LegalAll;
    if s.fate.Fine? && s.work != [] && s.work[0] in s.events {
      var s' := DoAll(Popped(s), Head(works));
      DoAllGrows(Popped(s), Head(works));
      WorkMeasure(s, works);
      WorkInOrder(s', Tail(works));
      assert s.worked + s.work == s.worked + [s.work[0]] + s.work[1..];
      assert s.worked + s.work <= s'.worked + s'.work;
    }
  }

  // ----- whole runs

  lemma {:induction false} TurnsKind(s: Loop, turns: seq<Turn>)
    requires Inv(s) && LegalTurns(s, turns)
    ensures Kind(s, Turns(s, turns).0)
    decreases |turns|
  {
    hide Inv, Kind, Tidied, LegalWorks, LegalPoll, Polled;
    var s1 := Tidied(s, Works(turns));
    TidiedKind(s, Works(turns));
    KindInv(s, s1);
    if turns != [] && s1.fate.Fine? && s1.nb != 0 && !turns[0].poll.Broken? {
      var s2 := Polled(s1, turns[0].poll);
      PolledKind(s1, turns[0].poll);
      KindInv(s1, s2);
      KindThen(s, s1, s2);
      if s2.fate.Fine? && s2.cnt {
        TurnsKind(s2, turns[1..]);
        KindThen(s, s2, Turns(s2, turns[1..]).0);
      }
    }
  }

  /** Nothing to wait for: no event that counts exists, no DNS request is pending, none was deleted uncounted. */
  ghost predicate Nothing(s: Loop) {
    Live(s.events) == {} && s.dns == 0 && Leaks(s.gone) == 0
  }

  lemma NothingWhen(s: Loop)
    requires Inv(s) && s.fate.Fine?
    ensures s.nb == 0 <==> Nothing(s)
    ensures s.nb == 0 ==> s.waitOut == []
  {
    hide Leaks, Past, Lists, Flags, Once, Watched;
    assert s.timer.Some? ==> s.timer.value in Live(s.events);
    assert |Live(s.events)| == 0 <==> Live(s.events) == {};
  }

  /** What the end of a run says about the state it leaves. */
  ghost predicate EndMeans(s: Loop, end: End) {
    match end
    case Idle => s.fate.Fine? && Nothing(s) && s.work == [] && s.del == [] && s.waitOut == []
    case Waiting => s.fate.Fine? && !Nothing(s) && s.work == [] && s.del == []
    case Failed => s.fate.Fine? && !Nothing(s) && s.work == [] && s.del == []
    case Asked => s.fate.Fine? && !s.cnt
    case Crashed => !s.fate.Fine?
  }

  lemma {:induction false} TurnsEnd(s: Loop, turns: seq<Turn>)
    requires Inv(s) && LegalTurns(s, turns)
    ensures EndMeans(Turns(s, turns).0, Turns(s, turns).1)
    decreases |turns|
  {
    hide Inv, Tidied, LegalWorks, LegalPoll, Kind, Nothing, Polled;
    var s1 := Tidied(s, Works(turns));
    TidiedKind(s, Works(turns));
    KindInv(s, s1);
    if s1.fate.Fine? {
      NothingWhen(s1);
      if turns != [] && s1.nb != 0 && !turns[0].poll.Broken? {
        var s2 := Polled(s1, turns[0].poll);
        PolledKind(s1, turns[0].poll);
        KindInv(s1, s2);
        if s2.fate.Fine? && s2.cnt {
          TurnsEnd(s2, turns[1..]);
        }
      }
    }
  }

  // ----- the results

  /** A loop that the program fills before it runs it. */
  function Started(before: seq<Op>): Loop {
    DoAll(FRESH, before).(cnt := true)
  }

  lemma StartedInv(before: seq<Op>)
    requires LegalAll(FRESH, before)
    ensures Inv(Started(before)) && Started(before).fate.Fine? && AllAlive(Started(before)) && Started(before).gone == []
  {
    hide DoAll, LegalAll, Inv, Grows, AllAlive;
    FreshInv();
    DoAllKeeps(FRESH, before);
    DoAllGrows(FRESH, before);
    AliveBack(FRESH, DoAll(FRESH, before));
    StartedFine(DoAll(FRESH, before));
  }

  lemma FreshInv()
    ensures Inv(FRESH) && AllAlive(FRESH)
  {
  }

  lemma StartedFine(s: Loop)
    requires Grows(FRESH, s) && Inv(s) && AllAlive(s)
    ensures s.fate.Fine? && s.gone == [] && Inv(s.(cnt := true)) && AllAlive(s.(cnt := true))
  {
    hide Past, LeftOpen, Aborting, Live, Leaks;
    assert AllAlive(FRESH);
  }

  /**
    Every run: an abort comes only from deleting an event whose descriptor epoll does not know; while the
    program is in order, the count is exact but for events deleted with a descriptor of at most 2, and no event is
    deleted twice. How the run ends says what is left.
  */
  lemma RunMeans(before: seq<Op>, turns: seq<Turn>)
    requires LegalAll(FRESH, before) && LegalTurns(Started(before), turns)
    ensures var (s, end) := Run(Started(before), turns); Inv(s) && EndMeans(s, end)
  {
    hide Inv, EndMeans, Started, LegalTurns, Turns, Kind;
    var s := Started(before);
    StartedInv(before);
    assert s.(cnt := true) == s by { StartedCnt(before); }
    TurnsKind(s, turns);
    KindInv(s, Turns(s, turns).0);
    TurnsEnd(s, turns);
  }

  lemma StartedCnt(before: seq<Op>)
    ensures Started(before).cnt
  {
  }

  /** The count is that of the events and requests to wait for exactly when no counted event leaked. */
  lemma CountExactWhen(s: Loop)
    requires Inv(s) && s.fate.Fine?
    ensures s.nb == |Live(s.events)| + s.dns <==> forall d | d in s.gone :: !Leaky(d.ev)
  {
    hide Leaky;
    LeaksNone(s.gone);
  }

  lemma {:induction false} LeaksNone(gone: seq<Dead>)
    ensures Leaks(gone) == 0 <==> forall d | d in gone :: !Leaky(d.ev)
  {
    hide Leaky;
    if gone != [] {
      var init, last := gone[..|gone| - 1], gone[|gone| - 1];
      LeaksNone(init);
      assert gone == init + [last];
    }
  }

  /** After a leak the loop never stops by itself again. */
  lemma LeakNeverIdle(s: Loop, turns: seq<Turn>)
    requires Inv(s) && LegalTurns(s, turns) && exists d | d in s.gone :: Leaky(d.ev)
    ensures Turns(s, turns).1 != Idle
  {
    hide Inv, LegalTurns, Turns, Leaks, Leaky, Closing;
    TurnsKind(s, turns);
    TurnsEnd(s, turns);
    LeaksNone(Turns(s, turns).0.gone);
    assert forall d | d in s.gone :: d in Turns(s, turns).0.gone;
  }

  /** An event that is to be deleted, or that was closed, never gets input again. */
  lemma NoInputOnceClosing(s: Loop, turns: seq<Turn>, id: nat)
    requires Inv(s) && LegalTurns(s, turns) && Closing(s, id)
    ensures var r := Turns(s, turns).0; r.fate.Fine? ==> Closing(r, id) && Served(r, id) == Served(s, id)
  {
    hide Inv, LegalTurns, Turns, Closing, Served, Leaks;
    TurnsKind(s, turns);
  }

  lemma {:induction false} WorkDel(s: Loop, works: seq<seq<Op>>)
    requires LegalWorks(s, works)
    ensures s.del <= WorkPhase(s, works).del
    decreases |works|, |s.work|
  {
    hide DoAll, LegalAll;
    if s.fate.Fine? && s.work != [] && s.work[0] in s.events {
      DoAllGrows(Popped(s), Head(works));
      WorkMeasure(s, works);
      WorkDel(DoAll(Popped(s), Head(works)), Tail(works));
    }
  }

  ghost predicate GoneOnce(s: Loop, id: nat) {
    exists i | 0 <= i < |s.gone| && s.gone[i].id == id ::
      forall j | 0 <= j < |s.gone| && s.gone[j].id == id :: j == i
  }

  /** What is on the deletion list is deleted, once, before the loop waits again. */
  lemma DeletedBeforeWait(s: Loop, works: seq<seq<Op>>, id: nat)
    requires Inv(s) && LegalWorks(s, works) && id in s.del
    ensures var r := Tidied(s, works); r.fate.Fine? ==> id !in r.events && GoneOnce(r, id)
  {
    hide Inv, WorkPhase, DelPhase, LegalWorks, Closing, Served, Leaks;
    WorkKind(s, works);
    WorkDel(s, works);
    var s' := WorkPhase(s, works);
    DelKind(s');
    var r := DelPhase(s');
    if r.fate.Fine? {
      NamedGone(r, Names(s'.gone), s'.del, id);
    }
  }

  lemma NamedGone(r: Loop, before: seq<nat>, del: seq<nat>, id: nat)
    requires Inv(r) && r.fate.Fine? && Names(r.gone) == before + del && id in del
    ensures id !in r.events && GoneOnce(r, id)
  {
    hide Past, Lists, Counted, Watched, Flags, TimerKnown, Aborting;
    var k :| 0 <= k < |del| && del[k] == id;
    var i := |before| + k;
    assert Names(r.gone)[i] == id && |r.gone| == |before| + |del|;
    assert r.gone[i] in r.gone && r.gone[i].id == id;
    assert Once(r);
  }

  /** An installed event that fails is deleted before the loop waits again, wherever it is listed. */
  lemma FailedIsDeleted(s: Loop, works: seq<seq<Op>>, id: nat)
    requires Inv(s) && s.fate.Fine? && Theirs(s, id) && s.events[id].looped
    requires LegalWorks(Do(s, Fail(id)), works)
    ensures var r := Tidied(Do(s, Fail(id)), works); r.fate.Fine? ==> id !in r.events && GoneOnce(r, id)
  {
    hide Inv, Tidied, LegalWorks, GoneOnce;
    DoKeeps(s, Fail(id));
    var s' := Do(s, Fail(id));
    if s'.fate.Fine? {
      DeletedBeforeWait(s', works, id);
    } else {
      TidiedKind(s', works);
      assert Tidied(s', works) == s' by { KindFrozen(s', Tidied(s', works)); }
    }
  }

  lemma KindFrozen(s: Loop, s': Loop)
    requires Kind(s, s') && !s.fate.Fine?
    ensures s' == s
  {
  }

  // ----- aborting

  lemma AbortingFate(s: Loop)
    requires Inv(s)
    ensures s.fate.Aborted? <==> Aborting(s.gone)
  {
  }

  /** What makes an event unknown to epoll is left as it is; an event that comes is known to it. */
  ghost predicate AsKnown(s: Loop, s': Loop) {
    && (forall id | id in s.events :: id in s'.events
          && s'.events[id].fd == s.events[id].fd && s'.events[id].looped == s.events[id].looped
          && s'.events[id].registered == s.events[id].registered)
    && (forall id | id in s'.events && id !in s.events :: s'.events[id].looped && s'.events[id].registered)
  }

  lemma AsKnownThen(a: Loop, b: Loop, c: Loop)
    requires AsKnown(a, b) && AsKnown(b, c)
    ensures AsKnown(a, c)
  {
  }

  lemma PutAsKnown(s: Loop, id: nat, e: Ev)
    requires id in s.events &&
      e.fd == s.events[id].fd && e.looped == s.events[id].looped && e.registered == s.events[id].registered
    ensures AsKnown(s, Put(s, id, e))
  {
  }

  lemma CheckAsKnown(s: Loop, spare: Spare)
    requires SpareOk(s, spare)
    ensures AsKnown(s, CheckWaitOut(s, spare))
  {
    hide Past;
  }

  lemma DelAsKnown(s: Loop, id: nat, pending: bool, spare: Spare)
    requires id in s.events && (SpareOk(s, spare) || !pending)
    ensures AsKnown(s, Del(s, id, pending, spare))
  {
    hide Past, AsKnown, CheckWaitOut, DeadTail;
    PutAsKnown(s, id, s.events[id].(delOnInstall := true));
    SameAsKnown(s, PushOut(s, id));
    SameAsKnown(s, PushDel(s, id));
    if Flushing(s, id, pending) {
      CheckAsKnown(PushOut(s, id), spare);
      AsKnownThen(s, PushOut(s, id), CheckWaitOut(PushOut(s, id), spare));
    }
  }

  lemma SameAsKnown(s: Loop, s': Loop)
    requires s'.events == s.events
    ensures AsKnown(s, s')
  {
  }

  lemma CloseAsKnown(s: Loop, id: nat, sent: bool, pending: bool, spare: Spare)
    requires id in s.events && (SpareOk(s, spare) || !pending)
    ensures AsKnown(s, CloseFd(s, id, sent, pending, spare))
  {
    hide Past, Del, AsKnown;
    var s' := Put(s, id, s.events[id].(wantClose := true));
    PutAsKnown(s, id, s.events[id].(wantClose := true));
    SameAsKnown(s, s);
    DelAsKnown(s, id, pending, spare);
    DelAsKnown(s', id, pending, spare);
    AsKnownThen(s, s', Del(s', id, pending, spare));
  }

  lemma FailAsKnown(s: Loop, id: nat)
    requires id in s.events
    ensures AsKnown(s, FailFd(s, id))
  {
    hide CloseFd, AsKnown;
    var s' := Put(s, id, s.events[id].(hasError := true));
    PutAsKnown(s, id, s.events[id].(hasError := true));
    CloseAsKnown(s', id, true, false, Spare(0, 0));
    AsKnownThen(s, s', CloseFd(s', id, true, false, Spare(0, 0)));
  }

  /** An event gets into that state in two ways: by a timeout given before it is installed, or if epoll refuses it. */
  lemma UnknownWhen(s: Loop, op: Op, id: nat)
    requires s.fate.Fine? && Legal(s, op) && id in s.events
    ensures var e := s.events[id];
      && id in Do(s, op).events
      && (Unknown(Do(s, op).events[id]) <==>
            || Unknown(e)
            || (!e.looped && !e.registered && e.fd > 2 && op == AddTimeout(id))
            || (!e.looped && e.fd > 2 && op.Add? && op.id == id && !op.accepted))
  {
    hide Past, CloseFd, Del, FailFd;
    match op
    case Add(x, accepted, pending, spare) => DelAsKnown(Install(s, x, accepted), x, pending, spare);
    case CloseEv(x, sent, pending, spare) => CloseAsKnown(s, x, sent, pending, spare);
    case DelEv(x, pending, spare) => DelAsKnown(s, x, pending, spare);
    case Fail(x) => FailAsKnown(s, x);
    case _ =>
  }
}
