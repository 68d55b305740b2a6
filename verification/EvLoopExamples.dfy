/** Short runs of the event loop that end badly, all of them legal. */
module EvLoopExamples {
  import opened Prelude
  import opened EvLoopSpec
  import opened EvLoopTheorems
  import opened EvLoopGrowth
  import opened EvLoopRuns
  import opened EvLoopDangling
  import opened EvLoopTwice

  const SPARE := Spare(1, 6)

  /** A connection that is closed while the kernel still has output of it: it waits, and there is a timer. */
  const CLOSING: seq<Op> := [New(0, 5, true, true), Add(0, true, false, SPARE), CloseEv(0, true, true, SPARE)]

  const CONN := Ev(5, true, true, true, true, true, false, false, true, false)
  const TIMER := Ev(6, true, false, true, true, true, false, false, false, false)
  const WAITS := Loop(map[0 := CONN, 1 := TIMER], 2, 0, [], [], [0], Some(1), {0, 1}, true, [], [], [], Fine)

  lemma ClosingWaits()
    ensures LegalAll(FRESH, CLOSING) && Started(CLOSING) == WAITS && !AllCross(FRESH, CLOSING)
  {
    var s1 := Do(FRESH, CLOSING[0]);
    var s2 := Do(s1, CLOSING[1]);
    var s3 := Do(s2, CLOSING[2]);
    var rest1, rest2, rest3 := CLOSING[1..], CLOSING[1..][1..], CLOSING[1..][1..][1..];
    assert rest1[0] == CLOSING[1] && rest2[0] == CLOSING[2] && rest3 == [];
    assert s1 == FRESH.(events := map[0 := NewEv(5, true, true)]);
    assert s2.events == map[0 := CONN.(wantClose := false)] && s2.epoll == {0} && s2.nb == 1;
    assert s3.events == map[0 := CONN, 1 := TIMER] && s3.epoll == {0, 1};
    assert s3 == WAITS;
    assert LegalAll(s3, rest3) && LegalAll(s2, rest2) && LegalAll(s1, rest1);
    assert DoAll(FRESH, CLOSING) == DoAll(s1, rest1) == DoAll(s2, rest2) == DoAll(s3, rest3) == s3;
    assert !AllCross(s3, rest3) && !AllCross(s2, rest2) && !AllCross(s1, rest1);
  }

  function Hears(id: nat): Ready {
    Ready(id, None, Some([]), false, false, false, false, false, Spare(2, 7), {})
  }

  function HangsUp(id: nat): Ready {
    Hears(id).(inp := None, rdhup := true)
  }

  lemma QuietPhases(s: Loop)
    requires s.fate.Fine? && s.work == []
    ensures WorkPhase(s, []) == s && LegalWorks(s, []) && (s.del == [] ==> Tidied(s, []) == s)
  {
  }

  /** The pass of the timer deletes the connection, which is named next in the same answer of epoll. */
  lemma BatchExample()
    ensures var turns := [Turn([], Got([Hears(1), Hears(0)]))];
      && LegalAll(FRESH, CLOSING) && LegalTurns(Started(CLOSING), turns)
      && Run(Started(CLOSING), turns).0.fate == Freed(InBatch)
  {
    hide Handle, LegalAll, Started, LegalBatch, HandleAll;
    ClosingWaits();
    QuietPhases(WAITS);
    BatchHandled();
    var batch := [Hears(1), Hears(0)];
    var turns := [Turn([], Got(batch))];
    assert WAITS.(cnt := true) == WAITS && Works(turns) == [] && turns[1..] == [];
    FrozenLegal(HandleAll(WAITS, batch));
    assert forall r | r in batch :: r == Hears(1) || r == Hears(0);
  }

  lemma BatchHandled()
    ensures var batch := [Hears(1), Hears(0)];
      HandleAll(WAITS, batch).fate == Freed(InBatch) && LegalBatch(WAITS, batch)
  {
    hide WaitPass, HandleOut, HandleInp, HandleEnd, LegalReady;
    var batch := [Hears(1), Hears(0)];
    var s1 := Handle(WAITS, batch[0]);
    PassEnds();
    var s2 := Handle(s1, batch[1..][0]);
    assert batch[1..][1..] == [];
    assert HandleAll(WAITS, batch) == HandleAll(s1, batch[1..]) == HandleAll(s2, []);
    assert LegalBatch(s2, []) && LegalBatch(s1, batch[1..]);
  }

  lemma FrozenLegal(s: Loop)
    requires !s.fate.Fine?
    ensures LegalTurns(s, [])
  {
  }

  /** The connection has flushed: it goes, and the timer with it. */
  lemma PassEnds()
    ensures Wants(WAITS, Hears(1))
    ensures var s := Handle(WAITS, Hears(1)); s.fate.Fine? && s.events.Keys == {1} && s.del == [1] && s.timer == None
  {
    var g := Given(WAITS, 1);
    var s0 := g.(waitOut := []);
    assert [0][1..] == [];
    var s' := Destroy(s0, 0);
    assert Sweep(s0, [0], {}) == Sweep(s', [], {}) == s';
    assert Kept([0], {}) == [] + Kept([0][1..], {}) == [];
    assert s'.events == map[1 := TIMER];
  }

  /** The peer hangs up while the connection waits: it is put on the other list too. */
  lemma HangUpCrosses()
    ensures var s := Handle(WAITS, HangsUp(0));
      && s.fate.Fine? && s.del == [0] && s.waitOut == [0] && s.work == [] && s.cnt && s.timer == Some(1)
      && s.events == map[0 := CONN.(hasError := true), 1 := TIMER] && s.nb == 2 && s.gone == [] && s.epoll == {0, 1}
      && HandleCrosses(WAITS, HangsUp(0)) && LegalHandle(WAITS, HangsUp(0))
  {
    var r := HangsUp(0);
    assert HandleOut(WAITS, r) == WAITS && HandleInp(WAITS, r) == WAITS;
    assert IfCrosses(WAITS, r, true);
  }

  /** ... it is deleted as failed, and the next pass of the timer walks onto it. */
  lemma HangUpExample()
    ensures var turns := [Turn([], Got([HangsUp(0)])), Turn([], Got([Hears(1)]))];
      && LegalAll(FRESH, CLOSING) && LegalTurns(Started(CLOSING), turns) && TurnsCross(Started(CLOSING), turns)
      && Run(Started(CLOSING), turns).0.fate == Freed(InWaitOut)
  {
    ClosingWaits();
    QuietPhases(WAITS);
    HangUpCrosses();
    var first, rest := [HangsUp(0)], [Turn([], Got([Hears(1)]))];
    var turns := [Turn([], Got(first))] + rest;
    assert turns == [Turn([], Got([HangsUp(0)])), Turn([], Got([Hears(1)]))];
    assert WAITS.(cnt := true) == WAITS && turns[1..] == rest && turns[0] == Turn([], Got(first));
    var s := Handle(WAITS, first[0]);
    assert first[1..] == [];
    assert HandleAll(WAITS, first) == HandleAll(s, []) == s && LegalBatch(s, []) && LegalBatch(WAITS, first);
    assert BatchCrosses(WAITS, first);
    NextPass(s);
    assert Polled(WAITS, turns[0].poll) == s;
  }

  lemma NextPass(s: Loop)
    requires s == Handle(WAITS, HangsUp(0))
    ensures var turns := [Turn([], Got([Hears(1)]))];
      LegalTurns(s, turns) && Turns(s, turns).0.fate == Freed(InWaitOut)
  {
    hide Handle, Destroy;
    HangUpCrosses();
    QuietPhases(s);
    var s1 := Destroy(s.(del := []), 0);
    FailedGone(s, s1);
    assert DelPhase(s) == s1 by { OneDeleted(s); }
    var turns, batch := [Turn([], Got([Hears(1)]))], [Hears(1)];
    assert turns[1..] == [] && batch[1..] == [];
    var s2 := Handle(s1, batch[0]);
    assert HandleAll(s1, batch) == HandleAll(s2, []) == s2;
    assert LegalBatch(s2, []) && LegalBatch(s1, batch);
    FrozenLegal(s2);
    assert Works(turns) == [] && Tidied(s, []) == s1 && Polled(s1, turns[0].poll) == s2;
  }

  lemma OneDeleted(s: Loop)
    requires s.fate.Fine? && s.del == [0] && 0 in s.events && Destroy(s.(del := []), 0).fate.Fine?
    ensures DelPhase(s) == Destroy(s.(del := []), 0)
  {
    hide Destroy;
    assert [0][1..] == [];
    assert DelPhase(s) == DelPhase(DelOne(s));
  }

  lemma FailedGone(s: Loop, s1: Loop)
    requires s == Handle(WAITS, HangsUp(0)) && s1 == Destroy(s.(del := []), 0)
    ensures s1.fate.Fine? && s1.events == map[1 := TIMER] && s1.epoll == {1} && s1.nb == 1 && s1.del == [] && s1.cnt
    ensures s1.timer == Some(1)
    ensures Handle(s1, Hears(1)).fate == Freed(InWaitOut)
  {
    hide Handle, WaitPass;
    HangUpCrosses();
    var g := Given(s1, 1);
    assert s1.events == map[1 := TIMER];
    assert WaitPass(g, {}).fate == Freed(InWaitOut) by { PassFinds(g); }
    HandlesTimer(s1);
  }

  lemma PassFinds(g: Loop)
    requires g.fate.Fine? && g.waitOut == [0] && g.timer.Some? && 0 !in g.events
    ensures WaitPass(g, {}).fate == Freed(InWaitOut)
  {
    assert Sweep(g.(waitOut := []), [0], {}) == g.(waitOut := [], fate := Freed(InWaitOut));
  }

  lemma HandlesTimer(s: Loop)
    requires s.fate.Fine? && s.events == map[1 := TIMER] && s.del == [] && s.timer == Some(1)
    ensures Handle(s, Hears(1)) == WaitPass(Given(s, 1), {})
  {
    hide WaitPass;
  }

  // ----- descriptors

  const UNUSED := Spare(9, 9)

  /** Standard input, waited for and then deleted. */
  const INPUT: seq<Op> := [New(0, 0, true, false), Add(0, true, false, UNUSED), DelEv(0, false, UNUSED)]

  lemma InputAdded()
    ensures LegalAll(FRESH, INPUT)
    ensures var s := Started(INPUT);
      && s.fate.Fine? && s.work == [] && s.del == [0] && s.waitOut == [] && s.nb == 1 && s.dns == 0
      && s.events == map[0 := Ev(0, true, false, true, true, true, false, false, false, false)] && s.epoll == {0}
  {
    var s1 := Do(FRESH, INPUT[0]);
    var s2 := Do(s1, INPUT[1]);
    var s3 := Do(s2, INPUT[2]);
    var rest1, rest2, rest3 := INPUT[1..], INPUT[1..][1..], INPUT[1..][1..][1..];
    assert rest1[0] == INPUT[1] && rest2[0] == INPUT[2] && rest3 == [];
    assert LegalAll(s3, rest3) && LegalAll(s2, rest2) && LegalAll(s1, rest1);
    assert DoAll(FRESH, INPUT) == DoAll(s1, rest1) == DoAll(s2, rest2) == DoAll(s3, rest3) == s3;
  }

  /** Nothing is left, and the loop goes on waiting; if epoll has input after all, it names the deleted event. */
  lemma LeakExample()
    ensures LegalAll(FRESH, INPUT)
    ensures var (s, end) := Run(Started(INPUT), []); end == Waiting && s.events == map[] && s.dns == 0
    ensures var turns := [Turn([], Got([Hears(0)]))];
      LegalTurns(Started(INPUT), turns) && Run(Started(INPUT), turns).0.fate == Freed(InBatch)
  {
    InputAdded();
    var s := Started(INPUT);
    QuietPhases(s);
    assert s.(cnt := true) == s && [0][1..] == [];
    var s1 := Destroy(s.(del := []), 0);
    assert DelPhase(s) == DelPhase(s1) == s1;
    assert s1.events == map[] && s1.epoll == {0} && s1.nb == 1;
    var turns, batch := [Turn([], Got([Hears(0)]))], [Hears(0)];
    assert turns[1..] == [] && batch[1..] == [] && Works(turns) == [];
    var s2 := Handle(s1, batch[0]);
    assert HandleAll(s1, batch) == HandleAll(s2, []) == s2;
    assert LegalBatch(s2, []) && LegalBatch(s1, batch);
    assert Polled(s1, turns[0].poll) == s2;
    FrozenLegal(s2);
  }

  /** An event given a timeout before it is installed is never installed, and aborts the program when deleted. */
  lemma AbortExample()
    ensures var before := [New(0, 5, true, false), AddTimeout(0), Add(0, true, false, UNUSED), DelEv(0, false, UNUSED)];
      LegalAll(FRESH, before) && Run(Started(before), []).0.fate == Aborted
  {
    var before := [New(0, 5, true, false), AddTimeout(0), Add(0, true, false, UNUSED), DelEv(0, false, UNUSED)];
    var s1 := Do(FRESH, before[0]);
    var s2 := Do(s1, before[1]);
    var s3 := Do(s2, before[2]);
    var s4 := Do(s3, before[3]);
    var rest1, rest2, rest3, rest4 := before[1..], before[1..][1..], before[1..][1..][1..], before[1..][1..][1..][1..];
    assert rest1[0] == before[1] && rest2[0] == before[2] && rest3[0] == before[3] && rest4 == [];
    assert LegalAll(s4, rest4) && LegalAll(s3, rest3) && LegalAll(s2, rest2) && LegalAll(s1, rest1);
    assert DoAll(FRESH, before) == DoAll(s1, rest1) == DoAll(s2, rest2) == DoAll(s3, rest3) == DoAll(s4, rest4) == s4;
    var s := Started(before);
    QuietPhases(s);
    assert s == s4 && [0][1..] == [] && s.del == [0];
    assert DelPhase(s) == DelPhase(Destroy(s.(del := []), 0));
  }
}
