/** When the loop stops because it was asked to, and which DNS requests it counts, said from the requests that were made. */
module EvLoopStops {
  import opened Prelude
  import opened EvLoopSpec
  import opened EvLoopHistory

  // ----- what the requests say

  function DnsStep(dns: nat, op: Op): nat {
    match op
    case Inc => dns + 1
    case Dec => if dns > 0 then dns - 1 else 0
    case _ => dns
  }

  /** The pending DNS requests after the requests of a run. */
  function DnsAfter(dns: nat, h: seq<Op>): nat
    decreases |h|
  {
    if h == [] then dns else DnsAfter(DnsStep(dns, h[0]), h[1..])
  }

  lemma {:induction false} DnsConcat(dns: nat, p: seq<Op>, q: seq<Op>)
    ensures DnsAfter(dns, p + q) == DnsAfter(DnsAfter(dns, p), q)
    ensures DnsAfter(dns, []) == dns
    decreases |p|
  {
    if p == [] {
      assert p + q == q;
    } else {
      assert (p + q)[0] == p[0] && (p + q)[1..] == p[1..] + q;
      DnsConcat(DnsStep(dns, p[0]), p[1..], q);
    }
  }

  /** What the requests `h` make of the flag and of the count of DNS requests. */
  ghost predicate Obeys(s: Loop, h: seq<Op>, s': Loop) {
    && (s'.cnt <==> s.cnt && Stop !in h)
    && s'.dns == DnsAfter(s.dns, h)
  }

  lemma ObeysThen(a: Loop, p: seq<Op>, b: Loop, q: seq<Op>, c: Loop)
    requires Obeys(a, p, b) && Obeys(b, q, c)
    ensures Obeys(a, p + q, c)
  {
    DnsConcat(a.dns, p, q);
  }

  lemma ObeysNone(s: Loop, s': Loop)
    requires s'.cnt == s.cnt && s'.dns == s.dns
    ensures Obeys(s, [], s')
  {
  }

  // ----- nothing else touches the flag or that count

  lemma DelCnt(s: Loop, id: nat, pending: bool, spare: Spare)
    ensures Del(s, id, pending, spare).cnt == s.cnt && Del(s, id, pending, spare).dns == s.dns
  {
  }

  lemma CloseCnt(s: Loop, id: nat, sent: bool, pending: bool, spare: Spare)
    ensures CloseFd(s, id, sent, pending, spare).cnt == s.cnt && CloseFd(s, id, sent, pending, spare).dns == s.dns
  {
    hide Del;
    DelCnt(s, id, pending, spare);
    DelCnt(Put(s, id, Get(s, id).(wantClose := true)), id, pending, spare);
  }

  lemma FailCnt(s: Loop, id: nat)
    ensures FailFd(s, id).cnt == s.cnt && FailFd(s, id).dns == s.dns
  {
    hide CloseFd;
    CloseCnt(Put(s, id, Get(s, id).(hasError := true)), id, true, false, Spare(0, 0));
  }

  lemma DoCnt(s: Loop, op: Op)
    requires s.fate.Fine?
    ensures (Do(s, op).cnt <==> s.cnt && op != Stop) && Do(s, op).dns == DnsStep(s.dns, op)
  {
    hide Del, CloseFd, FailFd, Install;
    match op
    case Add(id, accepted, pending, spare) =>
      InstallCnt(s, id, accepted);
      DelCnt(Install(s, id, accepted), id, pending, spare);
    case CloseEv(id, sent, pending, spare) => CloseCnt(s, id, sent, pending, spare);
    case DelEv(id, pending, spare) => DelCnt(s, id, pending, spare);
    case Fail(id) => FailCnt(s, id);
    case _ =>
  }

  lemma InstallCnt(s: Loop, id: nat, accepted: bool)
    ensures Install(s, id, accepted).cnt == s.cnt && Install(s, id, accepted).dns == s.dns
  {
  }

  lemma OneObeyed(s: Loop, op: Op)
    requires s.fate.Fine?
    ensures Obeys(s, [op], Do(s, op))
  {
    hide Do;
    DoCnt(s, op);
    assert [op][1..] == [];
    assert DnsAfter(s.dns, [op]) == DnsAfter(DnsStep(s.dns, op), []);
  }

  lemma {:induction false} DoAllCnt(s: Loop, ops: seq<Op>)
    ensures Obeys(s, Asks(s, ops), DoAll(s, ops))
    decreases |ops|
  {
    hide Do, Obeys;
    if ops == [] {
      ObeysNone(s, s);
    } else if s.fate.Fine? {
      var s' := Do(s, ops[0]);
      OneObeyed(s, ops[0]);
      DoAllCnt(s', ops[1..]);
      ObeysThen(s, [ops[0]], s', Asks(s', ops[1..]), DoAll(s', ops[1..]));
    } else {
      FrozenAll(s, ops);
      ObeysNone(s, s);
    }
  }

  lemma {:induction false} SweepCnt(s: Loop, ids: seq<nat>, unsent: set<nat>)
    ensures Sweep(s, ids, unsent).cnt == s.cnt && Sweep(s, ids, unsent).dns == s.dns
    decreases |ids|
  {
    hide Destroy;
    if ids != [] && s.fate.Fine? && ids[0] in s.events {
      DestroyCnt(s, ids[0]);
      SweepCnt(if ids[0] in unsent then s else Destroy(s, ids[0]), ids[1..], unsent);
    }
  }

  lemma DestroyCnt(s: Loop, id: nat)
    requires id in s.events
    ensures Destroy(s, id).cnt == s.cnt && Destroy(s, id).dns == s.dns
  {
  }

  lemma PassCnt(s: Loop, unsent: set<nat>)
    ensures WaitPass(s, unsent).cnt == s.cnt && WaitPass(s, unsent).dns == s.dns
  {
    hide Sweep, Kept, CloseFd;
    if s.waitOut != [] && s.timer.Some? {
      var s' := Sweep(s.(waitOut := []), s.waitOut, unsent);
      SweepCnt(s.(waitOut := []), s.waitOut, unsent);
      CloseCnt(s'.(timer := None), s.timer.value, true, false, Spare(0, 0));
    }
  }

  lemma OutCnt(s: Loop, r: Ready)
    ensures Obeys(s, if r.out.Some? then Asks(s, r.out.value) else [], HandleOut(s, r))
  {
    hide Del, DoAll, Asks;
    if r.out.Some? {
      DoAllCnt(s, r.out.value);
      DelCnt(DoAll(s, r.out.value), r.id, r.pending, r.spare);
    }
  }

  lemma InpCnt(s: Loop, r: Ready)
    ensures Obeys(s, if Wants(s, r) then Asks(Given(s, r.id), r.inp.value) else [], HandleInp(s, r))
  {
    hide DoAll, Asks;
    if Wants(s, r) {
      DoAllCnt(Given(s, r.id), r.inp.value);
    }
  }

  lemma EndCnt(s: Loop, r: Ready)
    ensures HandleEnd(s, r).cnt == s.cnt && HandleEnd(s, r).dns == s.dns
  {
    hide FailFd;
    FailCnt(s, r.id);
    var s1 := FailIf(s, r, r.rdhup);
    FailCnt(s1, r.id);
    FailCnt(FailIf(s1, r, r.hup), r.id);
  }

  lemma WantsInput(s: Loop, r: Ready)
    ensures Wants(s, r) ==> r.inp.Some?
  {
  }

  lemma HandleCnt(s: Loop, r: Ready)
    ensures Obeys(s, ReadyAsks(s, r), Handle(s, r))
  {
    hide HandleOut, HandleInp, HandleEnd, WaitPass, Asks, Wants, DnsAfter;
    DnsConcat(s.dns, [], []);
    if s.fate.Fine? && r.id in s.events && r.id !in s.del {
      if s.timer == Some(r.id) {
        PassCnt(Given(s, r.id), r.unsent);
      } else {
        var s1 := HandleOut(s, r);
        var s2 := HandleInp(s1, r);
        var out := if r.out.Some? then Asks(s, r.out.value) else [];
        WantsInput(s1, r);
        var inp := if Wants(s1, r) then Asks(Given(s1, r.id), r.inp.value) else [];
        OutCnt(s, r);
        InpCnt(s1, r);
        EndCnt(s2, r);
        ObeysThen(s, out, s1, inp, s2);
      }
    }
  }

  lemma {:induction false} BatchCnt(s: Loop, batch: seq<Ready>)
    ensures Obeys(s, BatchAsks(s, batch), HandleAll(s, batch))
    decreases |batch|
  {
    hide Handle, ReadyAsks, Obeys;
    if batch == [] {
      ObeysNone(s, s);
    } else {
      var s' := Handle(s, batch[0]);
      HandleCnt(s, batch[0]);
      BatchCnt(s', batch[1..]);
      ObeysThen(s, ReadyAsks(s, batch[0]), s', BatchAsks(s', batch[1..]), HandleAll(s', batch[1..]));
    }
  }

  lemma {:induction false} WorksCnt(s: Loop, works: seq<seq<Op>>)
    ensures Obeys(s, WorksAsk(s, works), WorkPhase(s, works))
    decreases |works|, |s.work|
  {
    hide DoAll, Asks, Obeys;
    if s.fate.Fine? && s.work != [] && s.work[0] in s.events {
      var s', asks := DoAll(Popped(s), Head(works)), Asks(Popped(s), Head(works));
      DoAllCnt(Popped(s), Head(works));
      if works == [] {
        assert DoAll(Popped(s), []) == Popped(s) by { NoneDone(Popped(s)); }
      }
      WorksCnt(s', Tail(works));
      ObeysSame(s, Popped(s), asks, s');
      ObeysThen(s, asks, s', WorksAsk(s', Tail(works)), WorkPhase(s', Tail(works)));
    } else {
      ObeysNone(s, WorkPhase(s, works));
    }
  }

  lemma ObeysSame(s: Loop, t: Loop, h: seq<Op>, s': Loop)
    requires t.cnt == s.cnt && t.dns == s.dns && Obeys(t, h, s')
    ensures Obeys(s, h, s')
  {
  }

  lemma NoneDone(s: Loop)
    ensures DoAll(s, []) == s
  {
  }

  lemma {:induction false} DelPhaseCnt(s: Loop)
    ensures DelPhase(s).cnt == s.cnt && DelPhase(s).dns == s.dns
    decreases |s.del|
  {
    hide Destroy;
    if s.fate.Fine? && s.del != [] {
      if s.del[0] in s.events {
        DestroyCnt(s.(del := s.del[1..]), s.del[0]);
      }
      DelPhaseCnt(DelOne(s));
    }
  }

  // ----- one turn

  /** The loop after the pending work, the deletions and one answer of epoll. */
  function Turned(s: Loop, turn: Turn): Loop {
    Polled(Tidied(s, turn.works), turn.poll)
  }

  /** What is asked of the loop meanwhile, by the work and by the callbacks. */
  function TurnAsks(s: Loop, turn: Turn): seq<Op> {
    WorksAsk(s, turn.works) + if turn.poll.Got? then BatchAsks(Tidied(s, turn.works), turn.poll.batch) else []
  }

  /**
    After a turn the loop is to go on exactly when it was before and no `stop` was among the requests of the turn,
    and the DNS requests it waits for are those that were begun and not ended.
  */
  lemma TurnCnt(s: Loop, turn: Turn)
    ensures var h, s' := TurnAsks(s, turn), Turned(s, turn);
      (s'.cnt <==> s.cnt && Stop !in h) && s'.dns == DnsAfter(s.dns, h)
  {
    hide WorkPhase, DelPhase, HandleAll, WorksAsk, BatchAsks, DnsAfter;
    var s0 := WorkPhase(s, turn.works);
    var s1 := DelPhase(s0);
    WorksCnt(s, turn.works);
    DelPhaseCnt(s0);
    DnsConcat(s1.dns, [], []);
    assert Obeys(s, WorksAsk(s, turn.works), s1);
    if turn.poll.Got? {
      BatchCnt(s1, turn.poll.batch);
    }
    ObeysThen(s, WorksAsk(s, turn.works), s1, if turn.poll.Got? then BatchAsks(s1, turn.poll.batch) else [], Turned(s, turn));
  }

  /**
    Over a whole run: the flag is still set exactly when nothing in the run asked for a stop, and the DNS requests
    that the loop waits for are those that were begun and not ended.
  */
  lemma {:induction false} TurnsCnt(s: Loop, turns: seq<Turn>)
    ensures var h, s' := TurnsAsk(s, turns), Turns(s, turns).0;
      (s'.cnt <==> s.cnt && Stop !in h) && s'.dns == DnsAfter(s.dns, h)
    decreases |turns|
  {
    hide WorkPhase, DelPhase, HandleAll, WorksAsk, BatchAsks, DnsAfter;
    var s0, asks := WorkPhase(s, Works(turns)), WorksAsk(s, Works(turns));
    WorksCnt(s, Works(turns));
    DelPhaseCnt(s0);
    var s1 := DelPhase(s0);
    assert Obeys(s, asks, s1);
    DnsConcat(s1.dns, [], []);
    assert asks + [] == asks;
    if turns != [] && s1.fate.Fine? && s1.nb != 0 && !turns[0].poll.Broken? {
      var s2, more := Polled(s1, turns[0].poll), if turns[0].poll.Got? then BatchAsks(s1, turns[0].poll.batch) else [];
      if turns[0].poll.Got? {
        BatchCnt(s1, turns[0].poll.batch);
      }
      ObeysThen(s, asks, s1, more, s2);
      if s2.fate.Fine? && s2.cnt {
        TurnsCnt(s2, turns[1..]);
        ObeysThen(s, asks + more, s2, TurnsAsk(s2, turns[1..]), Turns(s2, turns[1..]).0);
        assert asks + (more + TurnsAsk(s2, turns[1..])) == (asks + more) + TurnsAsk(s2, turns[1..]);
      } else {
        assert asks + (more + []) == asks + more;
      }
    }
  }

  // ----- runs

  /** The loop at the head of turn `k`, if it gets there. */
  function AtTurn(s: Loop, turns: seq<Turn>, k: nat): Loop
    requires k <= |turns|
    decreases k
  {
    if k == 0 then s else AtTurn(Turned(s, turns[0]), turns[1..], k - 1)
  }

  /** The turn neither crashes nor finds the loop idle, and epoll answers. */
  predicate Complete(s: Loop, turn: Turn) {
    var s1 := Tidied(s, turn.works);
    s1.fate.Fine? && s1.nb != 0 && !turn.poll.Broken? && Turned(s, turn).fate.Fine?
  }

  /** All turns up to `k` are complete, and the first `stop` is asked for in turn `k`. */
  ghost predicate StopsIn(s: Loop, turns: seq<Turn>, k: nat)
    requires k < |turns|
  {
    && (forall j | 0 <= j <= k :: Complete(AtTurn(s, turns, j), turns[j]))
    && (forall j | 0 <= j < k :: Stop !in TurnAsks(AtTurn(s, turns, j), turns[j]))
    && Stop in TurnAsks(AtTurn(s, turns, k), turns[k])
  }

  lemma StopsLater(s: Loop, turns: seq<Turn>, k: nat)
    requires k < |turns| - 1
    ensures StopsIn(s, turns, k + 1)
       <==> Complete(s, turns[0]) && Stop !in TurnAsks(s, turns[0]) && StopsIn(Turned(s, turns[0]), turns[1..], k)
  {
    hide Complete, TurnAsks, Turned;
    var s', rest := Turned(s, turns[0]), turns[1..];
    forall j | 0 <= j < |rest|
      ensures AtTurn(s, turns, j + 1) == AtTurn(s', rest, j) && turns[j + 1] == rest[j]
    {
    }
    assert AtTurn(s, turns, 0) == s;
    if StopsIn(s, turns, k + 1) {
      forall j | 0 <= j <= k ensures Complete(AtTurn(s', rest, j), rest[j]) {
        assert Complete(AtTurn(s, turns, j + 1), turns[j + 1]);
      }
      forall j | 0 <= j < k ensures Stop !in TurnAsks(AtTurn(s', rest, j), rest[j]) {
        assert Stop !in TurnAsks(AtTurn(s, turns, j + 1), turns[j + 1]);
      }
    }
    if Complete(s, turns[0]) && Stop !in TurnAsks(s, turns[0]) && StopsIn(s', rest, k) {
      forall j | 0 <= j <= k + 1 ensures Complete(AtTurn(s, turns, j), turns[j]) {
        if j > 0 {
          assert Complete(AtTurn(s', rest, j - 1), rest[j - 1]);
        }
      }
      forall j | 0 <= j < k + 1 ensures Stop !in TurnAsks(AtTurn(s, turns, j), turns[j]) {
        if j > 0 {
          assert Stop !in TurnAsks(AtTurn(s', rest, j - 1), rest[j - 1]);
        }
      }
    }
  }

  lemma TurnsFirst(s: Loop, turns: seq<Turn>)
    requires turns != []
    ensures Complete(s, turns[0]) ==>
      Turns(s, turns) == if Turned(s, turns[0]).cnt then Turns(Turned(s, turns[0]), turns[1..]) else (Turned(s, turns[0]), Asked)
    ensures !Complete(s, turns[0]) ==> Turns(s, turns).1 != Asked
  {
    hide Tidied, Polled;
  }

  /**
    `run` ends because it was asked to exactly when some turn is the first one whose work or batch asks for it, and
    neither that turn nor one before crashes, is idle or is failed by epoll; it ends after that turn.
  */
  lemma {:induction false} StoppedWhen(s: Loop, turns: seq<Turn>)
    requires s.cnt
    ensures Turns(s, turns).1 == Asked <==> exists k | 0 <= k < |turns| :: StopsIn(s, turns, k)
    ensures forall k | 0 <= k < |turns| && StopsIn(s, turns, k) :: Turns(s, turns).0 == AtTurn(s, turns, k + 1)
    decreases |turns|
  {
    hide Complete, TurnAsks, Turned, StopsIn;
    if turns == [] {
      NoTurns(s);
    } else {
      var s', rest := Turned(s, turns[0]), turns[1..];
      TurnsFirst(s, turns);
      TurnCnt(s, turns[0]);
      StopsFirst(s, turns);
      forall k | 0 <= k < |rest|
        ensures StopsIn(s, turns, k + 1)
           <==> Complete(s, turns[0]) && Stop !in TurnAsks(s, turns[0]) && StopsIn(s', rest, k)
        ensures AtTurn(s, turns, k + 2) == AtTurn(s', rest, k + 1)
      {
        StopsLater(s, turns, k);
      }
      assert AtTurn(s, turns, 1) == s';
      if Complete(s, turns[0]) && s'.cnt {
        StoppedWhen(s', rest);
        if k :| 0 <= k < |rest| && StopsIn(s', rest, k) {
          assert StopsIn(s, turns, k + 1);
        }
        forall k | 0 <= k < |turns| && StopsIn(s, turns, k)
          ensures k > 0 && StopsIn(s', rest, k - 1) && Turns(s, turns).0 == AtTurn(s, turns, k + 1)
        {
          StopsLater(s, turns, k - 1);
          assert AtTurn(s, turns, k + 1) == AtTurn(s', rest, k);
        }
      } else {
        forall k | 0 <= k < |turns| && StopsIn(s, turns, k) ensures k == 0 {
          if k > 0 {
            StopsLater(s, turns, k - 1);
          }
        }
      }
    }
  }

  lemma NoTurns(s: Loop)
    ensures Turns(s, []).1 != Asked
  {
    hide Tidied;
  }

  lemma StopsFirst(s: Loop, turns: seq<Turn>)
    requires turns != []
    ensures StopsIn(s, turns, 0) <==> Complete(s, turns[0]) && Stop in TurnAsks(s, turns[0])
  {
    hide Complete, TurnAsks, Turned;
    assert AtTurn(s, turns, 0) == s;
  }

  /** The same for `run`, which forgets what was asked before. */
  lemma RunStoppedWhen(s: Loop, turns: seq<Turn>)
    ensures var s0 := s.(cnt := true);
      && (Run(s, turns).1 == Asked <==> exists k | 0 <= k < |turns| :: StopsIn(s0, turns, k))
      && forall k | 0 <= k < |turns| && StopsIn(s0, turns, k) :: Run(s, turns).0 == AtTurn(s0, turns, k + 1)
  {
    hide Turns, StopsIn, AtTurn;
    StoppedWhen(s.(cnt := true), turns);
  }
}
