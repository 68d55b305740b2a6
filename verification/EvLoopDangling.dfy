/** Pointers to deleted events: exactly when a run of the event loop leaves one behind or follows one. */
module EvLoopDangling {
  import opened Prelude
  import opened EvLoopSpec
  import opened EvLoopTheorems
  import opened EvLoopGrowth
  import opened EvLoopRuns

  /** A deleted event has been followed, or is listed to be. */
  ghost predicate Dangles(s: Loop) {
    s.fate.Freed? || !AllAlive(s)
  }

  function Ids(batch: seq<Ready>): set<nat> {
    set r | r in batch :: r.id
  }

  ghost predicate GoneIn(s: Loop, ids: set<nat>) {
    exists id | id in ids :: id !in s.events
  }

  /** An id that epoll may name was once an event. */
  ghost predicate Known(s: Loop, ids: set<nat>) {
    forall id | id in ids && id !in s.events :: Past(s.gone, id)
  }

  /** Some event waits for its output and is to be deleted as well. */
  ghost predicate OnBoth(s: Loop) {
    exists id | id in s.del :: id in s.waitOut
  }

  /** The event waits for output that is out by now. */
  ghost predicate Flushed(s: Loop, unsent: set<nat>, id: nat) {
    id in s.waitOut && id !in unsent
  }

  /** A pass over `s` deletes an event that is on another list, or named further on in the answer of epoll. */
  ghost predicate PassSlips(s: Loop, unsent: set<nat>, rest: set<nat>) {
    exists id | id in s.waitOut :: id !in unsent && (id in s.work || id in s.del || id in rest)
  }

  /** `r` makes the wait-out timer pass. */
  predicate Passes(s: Loop, r: Ready) {
    s.fate.Fine? && r.id in s.events && r.id !in s.del && s.timer == Some(r.id) && Wants(s, r)
  }

  ghost predicate BatchSlips(s: Loop, batch: seq<Ready>)
    decreases |batch|
  {
    batch != [] &&
    ((Passes(s, batch[0]) && PassSlips(s, batch[0].unsent, Ids(batch[1..])))
     || BatchSlips(Handle(s, batch[0]), batch[1..]))
  }

  /** epoll names an event that was deleted, or a pass slips. */
  ghost predicate PollSlips(s: Loop, p: Poll) {
    p.Got? && (GoneIn(s, Ids(p.batch)) || BatchSlips(s, p.batch))
  }

  /** Somewhere in the run: an event is deleted that is still on a list or named by epoll. */
  ghost predicate Slips(s: Loop, turns: seq<Turn>)
    decreases |turns|
  {
    var s0 := WorkPhase(s, Works(turns));
    var s1 := DelPhase(s0);
    || (s0.fate.Fine? && OnBoth(s0))
    || (s1.fate.Fine? && s1.nb != 0 && turns != [] && !turns[0].poll.Broken? &&
          (PollSlips(s1, turns[0].poll)
           || (Polled(s1, turns[0].poll).cnt && Slips(Polled(s1, turns[0].poll), turns[1..]))))
  }

  // ----- growth neither makes nor mends a dangling pointer

  lemma GrowsDangles(s: Loop, s': Loop)
    requires Grows(s, s') && (s.fate.Fine? ==> Lists(s))
    ensures Dangles(s') <==> Dangles(s)
  {
    hide Past, NoDup;
    if s.fate.Fine? {
      if AllAlive(s) {
        AliveBack(s, s');
      } else {
        GrowsDead(s, s');
      }
    }
  }

  lemma GrowsDead(s: Loop, s': Loop)
    requires Grows(s, s') && Lists(s) && !AllAlive(s)
    ensures !AllAlive(s')
  {
    hide Past, NoDup;
  }

  lemma GrowsGone(s: Loop, s': Loop, ids: set<nat>)
    requires Grows(s, s') && Known(s, ids)
    ensures Known(s', ids) && (GoneIn(s', ids) <==> GoneIn(s, ids))
  {
    hide Past, Longer, AllAlive;
  }

  // ----- one entry of epoll

  lemma GivenSame(s: Loop, id: nat, ids: set<nat>)
    ensures Dangles(Given(s, id)) <==> Dangles(s)
    ensures GoneIn(Given(s, id), ids) <==> GoneIn(s, ids)
    ensures Known(Given(s, id), ids) <==> Known(s, ids)
  {
  }

  lemma InpDangles(s: Loop, r: Ready, rest: set<nat>)
    requires Inv(s) && Theirs(s, r.id) && (Wants(s, r) ==> LegalAll(Given(s, r.id), r.inp.value)) && Known(s, rest)
    ensures var s' := HandleInp(s, r);
      (Dangles(s') <==> Dangles(s)) && (GoneIn(s', rest) <==> GoneIn(s, rest)) && Known(s', rest)
      && (s'.fate.Aborted? <==> s.fate.Aborted?)
  {
    hide Dangles, GoneIn, Known, Grows, LegalAll, HandleInp;
    var s0 := if Wants(s, r) then Given(s, r.id) else s;
    GivenSame(s, r.id, rest);
    InpGrows(s, r);
    GivenKeeps(s, r.id);
    GrowsDangles(s0, HandleInp(s, r));
    GrowsGone(s0, HandleInp(s, r), rest);
    GrowsFate(s0, HandleInp(s, r));
  }

  lemma GrowsAll(s: Loop, s': Loop, rest: set<nat>)
    requires Inv(s) && Grows(s, s') && Known(s, rest)
    ensures (Dangles(s') <==> Dangles(s)) && (GoneIn(s', rest) <==> GoneIn(s, rest)) && Known(s', rest)
      && (s'.fate.Aborted? <==> s.fate.Aborted?)
  {
    hide Dangles, GoneIn, Known, Grows;
    GrowsDangles(s, s');
    GrowsGone(s, s', rest);
    GrowsFate(s, s');
  }

  lemma UserDangles(s: Loop, r: Ready, rest: set<nat>)
    requires Inv(s) && s.fate.Fine? && Theirs(s, r.id) && LegalReady(s, r) && Known(s, rest)
    ensures var s' := HandleEnd(HandleInp(HandleOut(s, r), r), r);
      (Dangles(s') <==> Dangles(s)) && (GoneIn(s', rest) <==> GoneIn(s, rest)) && Known(s', rest) && !s'.fate.Aborted?
  {
    hide Inv, Dangles, GoneIn, Known, Grows, HandleOut, HandleInp, HandleEnd, Wants, Theirs;
    var s1 := HandleOut(s, r);
    var s2 := HandleInp(s1, r);
    OutGrows(s, r);
    GrowsAll(s, s1, rest);
    TheirsGrows(s, s1, r.id);
    InpDangles(s1, r, rest);
    InpKind(s1, r);
    KindInv(s1, s2);
    TheirsInp(s1, r);
    EndGrows(s2, r);
    GrowsAll(s2, HandleEnd(s2, r), rest);
  }

  // ----- a pass

  /** The walk stops at the first deleted event, if it does not abort before. */
  lemma {:induction false} SweepFreed(s: Loop, ids: seq<nat>, unsent: set<nat>)
    requires s.fate.Fine? && NoDup(ids) && !Sweep(s, ids, unsent).fate.Aborted?
    ensures Sweep(s, ids, unsent).fate == if forall id | id in ids :: id in s.events then Fine else Freed(InWaitOut)
    decreases |ids|
  {
    hide Destroy;
    if ids != [] && ids[0] in s.events {
      var x, rest := ids[0], ids[1..];
      assert ids == [x] + rest && forall id | id in rest :: id != x;
      if x in unsent {
        SweepFreed(s, rest, unsent);
      } else {
        DestroyFields(s, x);
        if !Unknown(s.events[x]) {
          SweepFreed(Destroy(s, x), rest, unsent);
        }
      }
    }
  }

  lemma PassFreed(s: Loop, unsent: set<nat>)
    requires Core(s) && TimerThere(s) && !WaitPass(s, unsent).fate.Aborted? && s.waitOut != []
    requires exists id | id in s.waitOut :: id !in s.events
    ensures WaitPass(s, unsent).fate == Freed(InWaitOut)
  {
    hide Sweep, CloseFd, Kept, Past;
    SweepFreed(s.(waitOut := []), s.waitOut, unsent);
  }

  /** What a pass comes to when all waiting events exist. */
  ghost predicate Passed(s: Loop, r: Loop, unsent: set<nat>) {
    && r.work == s.work && (forall id :: id in r.events <==> id in s.events && !Flushed(s, unsent, id))
    && (forall id :: id in r.waitOut <==> id in s.waitOut && id in unsent)
    && (r.fate.Fine? || (r.fate == Freed(InDel) && DeadTail(r, s.del)))
    && s.del <= r.del && (forall id | id in r.del && id !in s.del :: s.timer == Some(id) && id in r.events && id !in s.waitOut)
  }

  lemma ClosePassed(s: Loop, t: nat)
    requires t in s.events && s.events[t].looped && !s.events[t].wantClose && !s.events[t].hasError && s.fate.Fine?
    ensures var r := CloseFd(s, t, true, false, Spare(0, 0));
      && r.work == s.work && r.waitOut == s.waitOut && r.events.Keys == s.events.Keys
      && (r.fate.Fine? || (r.fate == Freed(InDel) && DeadTail(r, s.del)))
      && s.del <= r.del && (forall id | id in r.del && id !in s.del :: id == t)
  {
  }

  lemma PassPassed(s: Loop, unsent: set<nat>)
    requires Core(s) && s.timer.Some? && !WaitPass(s, unsent).fate.Aborted?
    requires forall id | id in s.waitOut :: id in s.events
    ensures Passed(s, WaitPass(s, unsent), unsent)
  {
    hide Sweep, CloseFd, Kept, Past, Counted, Once, Watched, Flags;
    if s.waitOut != [] {
      var s0 := s.(waitOut := []);
      OutChain(s);
      assert Chain(s0, []);
      OutKeeps(s, []);
      SweepFreed(s0, s.waitOut, unsent);
      SweepDeletes(s0, s.waitOut, unsent);
      SweepGone(s0, s.waitOut, unsent);
      var s', t := Sweep(s0, s.waitOut, unsent), s.timer.value;
      KeptOnly(s.waitOut, unsent);
      assert t !in s.waitOut && t in s'.events && s'.events[t] == s.events[t];
      if Kept(s.waitOut, unsent) == [] {
        assert forall id | id in s.waitOut :: id !in unsent;
        ClosePassed(s'.(timer := None), t);
      }
    }
  }

  lemma PassedDangles(s: Loop, r: Loop, unsent: set<nat>, rest: set<nat>)
    requires Passed(s, r, unsent) && s.fate.Fine? && forall id | id in s.waitOut :: id in s.events
    ensures Dangles(r) || GoneIn(r, rest) <==> Dangles(s) || GoneIn(s, rest) || PassSlips(s, unsent, rest)
  {
    if PassSlips(s, unsent, rest) {
      var id :| id in s.waitOut && id !in unsent && (id in s.work || id in s.del || id in rest);
      assert Flushed(s, unsent, id) && id !in r.events;
    }
    if Dangles(s) || GoneIn(s, rest) {
      assert Dangles(r) || GoneIn(r, rest);
    }
    if !(Dangles(s) || GoneIn(s, rest) || PassSlips(s, unsent, rest)) {
      assert forall id | id in s.work || id in s.del || id in rest :: !Flushed(s, unsent, id);
      assert s.del != [] ==> s.del[|s.del| - 1] in s.del;
    }
  }

  lemma PassDangles(s: Loop, unsent: set<nat>, rest: set<nat>)
    requires Core(s) && TimerThere(s) && s.timer.Some? && !WaitPass(s, unsent).fate.Aborted?
    ensures var r := WaitPass(s, unsent);
      Dangles(r) || GoneIn(r, rest) <==> Dangles(s) || GoneIn(s, rest) || PassSlips(s, unsent, rest)
  {
    hide Core, WaitPass, Passed, TimerThere;
    if forall id | id in s.waitOut :: id in s.events {
      PassPassed(s, unsent);
      assert s.fate.Fine? by { CoreFine(s); }
      PassedDangles(s, WaitPass(s, unsent), unsent, rest);
    } else {
      PassFreed(s, unsent);
    }
  }

  lemma CoreFine(s: Loop)
    requires Core(s)
    ensures s.fate.Fine?
  {
  }

  lemma PassKnown(s: Loop, unsent: set<nat>, rest: set<nat>)
    requires Core(s) && TimerThere(s) && s.timer.Some? && WaitPass(s, unsent).fate.Fine? && Known(s, rest)
    ensures Known(WaitPass(s, unsent), rest)
  {
    hide Sweep, CloseFd, Kept, Past, Core, TimerThere;
    if s.waitOut != [] {
      var s0, t := s.(waitOut := []), s.timer.value;
      SweepGone(s0, s.waitOut, unsent);
      var s' := Sweep(s0, s.waitOut, unsent);
      PastPrefix(s.gone, s'.gone);
      if s'.fate.Fine? && Kept(s.waitOut, unsent) == [] {
        TimerSwept(s, unsent);
        PassEnd(s'.(timer := None), t, WaitPass(s, unsent));
      }
    }
  }

  lemma HandleDangles(s: Loop, r: Ready, rest: set<nat>)
    requires Inv(s) && s.fate.Fine? && LegalHandle(s, r) && Known(s, rest) && !Handle(s, r).fate.Aborted?
    ensures var s' := Handle(s, r);
      && (Dangles(s') || GoneIn(s', rest)
          <==> Dangles(s) || r.id !in s.events || GoneIn(s, rest) || (Passes(s, r) && PassSlips(s, r.unsent, rest)))
      && (s'.fate.Fine? ==> Known(s', rest))
  {
    hide Core, AllAlive, Known, GoneIn, PassSlips, LegalReady, HandleOut, HandleInp, HandleEnd, WaitPass, TimerThere;
    if r.id in s.events && r.id !in s.del {
      if s.timer != Some(r.id) {
        UserDangles(s, r, rest);
      } else if Wants(s, r) {
        var g := Given(s, r.id);
        GivenSame(s, r.id, rest);
        GivenKeeps(s, r.id);
        PassDangles(g, r.unsent, rest);
        assert PassSlips(g, r.unsent, rest) <==> PassSlips(s, r.unsent, rest) by { GivenSlips(s, r.id, r.unsent, rest); }
        if WaitPass(g, r.unsent).fate.Fine? {
          PassKnown(g, r.unsent, rest);
        }
      }
    }
  }

  lemma GivenSlips(s: Loop, id: nat, unsent: set<nat>, rest: set<nat>)
    ensures PassSlips(Given(s, id), unsent, rest) <==> PassSlips(s, unsent, rest)
  {
  }

  lemma FrozenBatch(s: Loop, batch: seq<Ready>)
    requires !s.fate.Fine?
    ensures HandleAll(s, batch) == s && !BatchSlips(s, batch)
    decreases |batch|
  {
    if batch != [] {
      FrozenBatch(s, batch[1..]);
    }
  }

  lemma IdsCons(batch: seq<Ready>)
    requires batch != []
    ensures Ids(batch) == {batch[0].id} + Ids(batch[1..])
  {
    assert batch == [batch[0]] + batch[1..];
  }

  lemma IdsNone(s: Loop)
    ensures !GoneIn(s, Ids([]))
  {
  }

  /** A pointer that epoll has handed out is followed in the same turn. */
  lemma {:induction false} HandleAllDangles(s: Loop, batch: seq<Ready>)
    requires Inv(s) && s.fate.Fine? && LegalBatch(s, batch) && Known(s, Ids(batch))
    requires !HandleAll(s, batch).fate.Aborted?
    ensures Dangles(HandleAll(s, batch)) <==> Dangles(s) || GoneIn(s, Ids(batch)) || BatchSlips(s, batch)
    decreases |batch|
  {
    hide Inv, Dangles, Known, GoneIn, PassSlips, LegalHandle, Handle, Ids, Passes;
    if batch == [] {
      IdsNone(s);
    } else {
      var r, rest, s' := batch[0], Ids(batch[1..]), Handle(s, batch[0]);
      IdsCons(batch);
      SplitIds(s, r.id, rest);
      HandleKind(s, r);
      KindInv(s, s');
      if s'.fate.Fine? {
        HandleDangles(s, r, rest);
        HandleAllDangles(s', batch[1..]);
      } else {
        FrozenBatch(s', batch[1..]);
        HandleDangles(s, r, rest);
        assert Dangles(s') by { FreedDangles(s'); }
      }
    }
  }

  lemma FreedDangles(s: Loop)
    requires s.fate.Freed?
    ensures Dangles(s)
  {
  }

  lemma SplitIds(s: Loop, id: nat, rest: set<nat>)
    ensures GoneIn(s, {id} + rest) <==> id !in s.events || GoneIn(s, rest)
    ensures Known(s, {id} + rest) ==> Known(s, rest)
  {
    hide Past;
  }

  // ----- the first two phases

  lemma PoppedDangles(s: Loop)
    requires s.work != [] && s.work[0] in s.events
    ensures Dangles(Popped(s)) <==> Dangles(s)
  {
    assert s.work == [s.work[0]] + s.work[1..];
  }

  lemma {:induction false} WorkDangles(s: Loop, works: seq<seq<Op>>)
    requires Inv(s) && LegalWorks(s, works)
    ensures Dangles(WorkPhase(s, works)) <==> Dangles(s)
    decreases |works|, |s.work|
  {
    hide Core, TimerThere, LegalAll, DoAll, Grows, Kind, AllAlive;
    if s.fate.Fine? && s.work != [] {
      if s.work[0] !in s.events {
        assert !AllAlive(s) by { DeadHead(s); }
      } else {
        var s0, s' := Popped(s), DoAll(Popped(s), Head(works));
        PopWork(s);
        KindInv(s, s0);
        PoppedDangles(s);
        DoAllGrows(s0, Head(works));
        DoAllKeeps(s0, Head(works));
        CoreLists(s0);
        GrowsDangles(s0, s');
        WorkMeasure(s, works);
        WorkDangles(s', Tail(works));
      }
    }
  }

  lemma DeadHead(s: Loop)
    requires s.work != [] && s.work[0] !in s.events
    ensures !AllAlive(s)
  {
    assert s.work[0] in s.work;
  }

  lemma CoreLists(s: Loop)
    requires Inv(s)
    ensures s.fate.Fine? ==> Lists(s)
  {
  }

  lemma DelOneDangles(s: Loop)
    requires s.fate.Fine? && s.work == [] && s.del != [] && NoDup(s.del) && !DelOne(s).fate.Aborted?
    ensures var s' := DelOne(s); Dangles(s') || OnBoth(s') <==> Dangles(s) || OnBoth(s)
  {
    var x, rest := s.del[0], s.del[1..];
    assert s.del == [x] + rest && x !in rest;
  }

  lemma CoreNoDup(s: Loop)
    requires Inv(s) && s.fate.Fine?
    ensures NoDup(s.del)
  {
  }

  lemma {:induction false} DelPhaseDangles(s: Loop)
    requires Inv(s) && (s.fate.Fine? ==> s.work == []) && !DelPhase(s).fate.Aborted?
    ensures Dangles(DelPhase(s)) <==> Dangles(s) || (s.fate.Fine? && OnBoth(s))
    decreases |s.del|
  {
    hide Inv, Dangles, DelOne, Kind;
    if s.fate.Fine? && s.del != [] {
      var s' := DelOne(s);
      DelOneKind(s);
      KindInv(s, s');
      CoreNoDup(s);
      DelPhaseDangles(s');
      assert s'.fate.Aborted? ==> DelPhase(s') == s';
      DelOneDangles(s);
      if s'.fate.Freed? {
        FreedDangles(s');
      }
    }
  }

  // ----- whole runs

  lemma PolledKnown(s: Loop, p: Poll)
    requires Inv(s) && s.fate.Fine? && p.Got? && LegalPoll(s, p)
    ensures Known(s, Ids(p.batch))
  {
    hide LegalBatch, Lists, Counted, Once, Flags;
    forall id | id in Ids(p.batch) && id !in s.events ensures Past(s.gone, id) {
      assert id in s.epoll;
      var d :| d in s.gone && d.id == id;
    }
  }

  lemma {:induction false} TurnsDangle(s: Loop, turns: seq<Turn>)
    requires Inv(s) && LegalTurns(s, turns) && !Turns(s, turns).0.fate.Aborted?
    ensures Dangles(Turns(s, turns).0) <==> Dangles(s) || Slips(s, turns)
    decreases |turns|
  {
    hide Inv, Dangles, Kind, LegalWorks, LegalPoll, WorkPhase, DelPhase, OnBoth, GoneIn, BatchSlips, HandleAll, Known;
    var s0 := WorkPhase(s, Works(turns));
    var s1 := DelPhase(s0);
    WorkKind(s, Works(turns));
    KindInv(s, s0);
    DelKind(s0);
    KindInv(s0, s1);
    WorkDangles(s, Works(turns));
    assert s1 == Tidied(s, Works(turns));
    DelPhaseDangles(s0);
    if s1.fate.Fine? && turns != [] && s1.nb != 0 && !turns[0].poll.Broken? {
      var p := turns[0].poll;
      var s2 := Polled(s1, p);
      PolledKind(s1, p);
      KindInv(s1, s2);
      if p.Got? {
        PolledKnown(s1, p);
        assert LegalBatch(s1, p.batch) by { PollBatch(s1, p); }
        HandleAllDangles(s1, p.batch);
      }
      if s2.fate.Fine? && s2.cnt {
        TurnsDangle(s2, turns[1..]);
      } else if s2.cnt {
        FreedSlips(s2, turns[1..]);
      }
    }
  }

  lemma PollBatch(s: Loop, p: Poll)
    requires LegalPoll(s, p) && p.Got?
    ensures LegalBatch(s, p.batch)
  {
  }

  lemma FreedSlips(s: Loop, turns: seq<Turn>)
    requires !s.fate.Fine?
    ensures !Slips(s, turns)
  {
  }

  /**
    Over every run that does not abort: a deleted event is followed, or is left on a list, exactly when
    somewhere the deletion phase deletes an event that also waits for its output, a pass deletes an event
    that is on another list or named further on in the same answer of epoll, or epoll names a deleted event.
  */
  lemma DanglesWhen(before: seq<Op>, turns: seq<Turn>)
    requires LegalAll(FRESH, before) && LegalTurns(Started(before), turns)
    ensures var (s, end) := Run(Started(before), turns);
      !s.fate.Aborted? ==> (Dangles(s) <==> Slips(Started(before), turns))
  {
    hide Inv, Started, LegalTurns, Turns, Slips, AllAlive;
    var s := Started(before);
    StartedInv(before);
    assert s.(cnt := true) == s by { StartedCnt(before); }
    if !Turns(s, turns).0.fate.Aborted? {
      TurnsDangle(s, turns);
    }
  }

  /** epoll names a deleted event only if it was deleted while registered with a descriptor of at most 2. */
  lemma NamedGoneWhen(s: Loop, id: nat)
    requires Inv(s) && s.fate.Fine? && id !in s.events && id in s.epoll
    ensures exists d | d in s.gone :: d.id == id && d.ev.registered && d.ev.fd <= 2
  {
  }

  /** A pointer left on a list is followed: a run that gets to wait again has none but on the list of waiting events. */
  lemma DanglingFollowed(s: Loop, turns: seq<Turn>)
    requires Inv(s) && LegalTurns(s, turns)
    ensures var (r, end) := Turns(s, turns);
      && (end == Idle ==> !Dangles(r))
      && (end == Waiting || end == Failed ==> (Dangles(r) <==> exists id | id in r.waitOut :: id !in r.events))
  {
    hide Inv, LegalTurns, Turns, Nothing;
    TurnsEnd(s, turns);
  }
}
