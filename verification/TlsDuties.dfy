/** What the TLS connection does for its user and for OpenSSL, over arbitrary runs. */
module TlsDuties {
  import opened TlsSpec
  import opened TlsTheorems
  import opened TlsResults
  import opened TlsProgress

  lemma RunIsSteady(client: bool, script: seq<Answer>, steps: seq<Step>)
    ensures Steady(Run(Fresh(client, script), steps))
  {
    RunSteady(Fresh(client, script), steps);
  }

  // ----- the log, entry by entry

  lemma {:induction false} MemGrows(log: seq<Call>, i: nat)
    requires i <= |log| && Mem(log).ok
    ensures Mem(log[..i]).ok
    decreases |log|
  {
    if i == |log| {
      assert log[..i] == log;
    } else {
      var init := log[..|log| - 1];
      assert init[..i] == log[..i];
      MemGrows(init, i);
    }
  }

  lemma MemAt(log: seq<Call>, i: nat)
    requires i < |log| && Mem(log).ok
    ensures Mem(log[..i + 1]) == Recall(Mem(log[..i]), log[i]) && Mem(log[..i + 1]).ok
  {
    hide Recall;
    assert log[..i + 1] == log[..i] + [log[i]];
    MemOne(log[..i], log[i]);
    MemGrows(log, i + 1);
  }

  /** A log that ends in peace: nothing is to be repeated or reported. */
  ghost predicate Peace(log: seq<Call>) {
    Mem(log).ok && Mem(log).repeat == Nothing && !Mem(log).failed
  }

  lemma RunPeace(client: bool, script: seq<Answer>, steps: seq<Step>)
    ensures Peace(Log(client, script, steps))
  {
    hide Run, Mem, Inv;
    RunIsSteady(client, script, steps);
  }

  lemma MemLast(log: seq<Call>, i: nat)
    requires i + 1 == |log|
    ensures Mem(log[..i + 1]) == Mem(log)
  {
    assert log[..i + 1] == log;
  }

  /** A call that was interrupted is made again at once. */
  lemma InterruptedRepeats(client: bool, script: seq<Answer>, steps: seq<Step>, i: nat)
    requires var log := Log(client, script, steps);
      i < |log| && Kind(log[i]) != Nothing && log[i].verdict == Interrupted
    ensures var log := Log(client, script, steps);
      i + 1 < |log| && Kind(log[i + 1]) == Kind(log[i])
  {
    hide Run, Mem;
    var log := Log(client, script, steps);
    RunPeace(client, script, steps);
    MemAt(log, i);
    if i + 1 < |log| {
      MemAt(log, i + 1);
    } else {
      MemLast(log, i);
    }
  }

  /** What has to be reported to the user as an error. */
  predicate MustReport(call: Call) {
    call == HangUp || (Kind(call) != Nothing && Bad(Kind(call), call.verdict, Direct(call)))
  }

  /**
    An error is reported directly behind what OpenSSL or epoll says, or behind the first data of a client
    whose certificate is refused; and what they say is always reported.
  */
  lemma ErrorWhen(client: bool, script: seq<Answer>, steps: seq<Step>, i: nat)
    requires i < |Log(client, script, steps)|
    ensures var log := Log(client, script, steps);
      i + 1 < |log| && log[i + 1] == Failure <==>
      MustReport(log[i]) || (client && FirstData(log, i) && !log[i].trusted)
  {
    hide Run, Mem, See, Inv;
    var log := Log(client, script, steps);
    RunPeace(client, script, steps);
    MemAt(log, i);
    if i + 1 < |log| {
      MemAt(log, i + 1);
    } else {
      MemLast(log, i);
    }
    LogSeen(client, script, steps);
    RunSides(client, script, steps, i);
    if log[i].SslRead? {
      DemandOf(log, i);
      DemandMet(log, i);
    }
    if i + 1 < |log| && log[i + 1] == Failure && !MustReport(log[i]) {
      assert Untrusted(log[i]);
    }
  }

  // ----- what is waited for

  /** An answer after which OpenSSL wants something, or nothing any more. */
  predicate IsWord(call: Call) {
    Kind(call) != Nothing && (call.verdict == Done || call.verdict == WantRead || call.verdict == WantWrite)
  }

  lemma {:induction false} WordStays(log: seq<Call>, i: nat)
    requires i < |log| && IsWord(log[i]) && forall k | i < k < |log| :: !IsWord(log[k])
    ensures Mem(log).redo == (if log[i].verdict == Done then Nothing else Kind(log[i]))
    ensures log[i].verdict == WantRead ==> Mem(log).dir == Inp
    ensures log[i].verdict == WantWrite ==> Mem(log).dir == Out
    decreases |log|
  {
    var init := log[..|log| - 1];
    if i < |init| {
      assert forall k | i < k < |init| :: init[k] == log[k];
      WordStays(init, i);
    }
  }

  lemma {:induction false} NoWordYet(log: seq<Call>)
    requires forall k | 0 <= k < |log| :: !IsWord(log[k])
    ensures Mem(log).redo == Nothing
    decreases |log|
  {
    if log != [] {
      var init := log[..|log| - 1];
      assert forall k | 0 <= k < |init| :: init[k] == log[k];
      NoWordYet(init);
    }
  }

  /** A connection without an error waits for what OpenSSL said last, and for nothing if that was success. */
  lemma RedoIsLastWord(client: bool, script: seq<Answer>, steps: seq<Step>, i: nat)
    requires var log := Log(client, script, steps);
      i < |log| && IsWord(log[i]) && forall k | i < k < |log| :: !IsWord(log[k])
    requires !Run(Fresh(client, script), steps).hasError
    ensures var c := Run(Fresh(client, script), steps);
      && (c.toRedo == if c.log[i].verdict == Done then Nothing else Kind(c.log[i]))
      && (c.log[i].verdict == WantRead ==> c.redoDir == Inp)
      && (c.log[i].verdict == WantWrite ==> c.redoDir == Out)
  {
    hide Run, Mem, Inv;
    RunIsSteady(client, script, steps);
    WordStays(Log(client, script, steps), i);
  }

  /**
    Between two events a connected connection without an error either waits for OpenSSL or has written all
    it took, and has begun the shutdown if it was asked to; and one that is closed and has nothing to write
    is on a list of the loop.
  */
  lemma NothingForgotten(client: bool, script: seq<Answer>, steps: seq<Step>)
    ensures var c := Run(Fresh(client, script), steps);
      && (!c.hasError && !c.waitingForConnection && c.toRedo == Nothing ==>
           c.queue == [] && (c.wantShutdown ==> c.startedShutdown))
      && (c.wantClose && c.queue == [] ==> c.inDel || c.inWait)
  {
    hide Run, Recalls, Inv;
    RunIsSteady(client, script, steps);
  }

  // ----- the steps, in any reachable state

  /**
    What an event makes the connection call first.  With output, whatever else comes with it, that is
    `FirstOnOutput`; with input alone SSL_read, or what OpenSSL wants to have repeated when there is input.
  */
  lemma EventCalls(client: bool, script: seq<Answer>, steps: seq<Step>, inp: bool, hup: bool, pending: bool)
    requires var c := Run(Fresh(client, script), steps); !c.hasError && !c.inDel
    ensures var c := Run(Fresh(client, script), steps);
      var r := Dispatch(c, true, inp, hup, pending);
      FirstOnOutput(c) != Nothing ==> First(c, r) == FirstOnOutput(c)
    ensures var c := Run(Fresh(client, script), steps);
      var r := Dispatch(c, false, true, hup, pending);
      !c.wantClose ==>
        && (c.toRedo == Nothing ==> First(c, r) == Read)
        && (c.toRedo != Nothing && c.redoDir == Inp ==> First(c, r) == c.toRedo)
  {
    hide Run, Recalls, Inv, Settled, OnOut, OnInp, Fail, FirstOnOutput;
    var c := Run(Fresh(client, script), steps);
    RunIsSteady(client, script, steps);
    OutCalls(c);
    if FirstOnOutput(c) != Nothing {
      DispatchAfter(c, inp, hup, pending);
      FirstKept(c, OnOut(c), Dispatch(c, true, inp, hup, pending));
    }
    if !c.wantClose {
      InpCalls(c);
      if First(c, OnInp(c)) != Nothing {
        FirstKept(c, OnInp(c), Dispatch(c, false, true, hup, pending));
      }
    }
  }

  lemma DispatchAfter(c: Conn, inp: bool, hup: bool, pending: bool)
    requires !c.inDel
    ensures OnOut(c).log <= Dispatch(c, true, inp, hup, pending).log
  {
    hide OnOut, OnInp, Fail, Del;
  }

  /** A hang-up is an error, whatever else comes with it. */
  lemma HangUpEnds(c: Conn, out: bool, inp: bool, pending: bool)
    requires !c.inDel
    ensures var r := Dispatch(c, out, inp, true, pending);
      r.hasError && r.inDel && r.log[|r.log| - 1] == Failure
  {
    hide OnOut, OnInp, Fail, Del;
    var c1 := if out then OnOut(c) else c;
    var c2 := if out && c1.wantClose && c1.queue == [] then Del(c1, pending) else c1;
    var c3 := if inp && !c2.wantClose && !c2.inDel then OnInp(c2) else c2;
    FailEnds(c3.(log := c3.log + [HangUp]));
  }

  /** A timeout closes; with nothing to write, the connection is on a list of the loop then. */
  lemma TimeoutCloses(c: Conn, pending: bool)
    ensures var r := Apply(c, Timeout(pending));
      && (r.hasError || r.wantClose)
      && (c.queue == [] && !c.wantClose ==> if !c.hasError && pending then r.inWait else r.inDel)
  {
  }

  lemma FailEnds(c: Conn)
    ensures Fail(c).hasError && Fail(c).inDel
  {
  }

  /**
    send takes a message exactly when it is not empty and the connection is not ending; it goes straight
    to SSL_write exactly when nothing is to be written before it, and into the queue otherwise.
  */
  lemma SendTakes(c: Conn, m: Message)
    ensures var r := Apply(c, Call(SendMsg(m)));
      if m == [] || c.hasError || !Open(c) then r == c
      else
        && |r.log| > |c.log| && r.log[|c.log|] == Accepted(m)
        && if c.waitingForConnection || c.queue != [] || c.toRedo != Nothing then
             r == c.(queue := c.queue + [m], log := c.log + [Accepted(m)])
           else |r.log| > |c.log| + 1 && r.log[|c.log| + 1] == SslWrite(m, NextAnswer(c).verdict, true)
  {
    hide SendLoop;
    SendNow(c.(log := c.log + [Accepted(m)]), m);
  }

  lemma SendNow(c: Conn, m: Message)
    ensures var r := SendLoop(c, m); |r.log| > |c.log| && r.log[|c.log|] == SslWrite(m, NextAnswer(c).verdict, true)
    ensures c.log <= SendLoop(c, m).log
  {
    hide AfterSend;
    var log := SendLoop(c, m).log;
    assert log[..|c.log| + 1] == c.log + [SslWrite(m, NextAnswer(c).verdict, true)];
    assert log[|c.log|] == log[..|c.log| + 1][|c.log|];
  }

  /**
    close asks for a shutdown, once and not after an error, and begins it at once exactly when the connection is there
    and nothing is to be written; del puts the connection on a list of the loop.
  */
  lemma CloseAsks(c: Conn, pending: bool)
    ensures var r := Apply(c, Call(CloseIt));
      && (c.hasError || c.wantShutdown ==> r == c)
      && (!c.hasError && !c.wantShutdown ==>
            && r.wantShutdown
            && First(c, r) == (if !c.waitingForConnection && c.queue == [] then Shutdown else Nothing))
    ensures var r := Apply(c, Call(DelIt(pending)));
      r == if !c.hasError && pending then c.(inWait := true) else c.(inDel := true)
  {
    hide ShutdownLoop;
    var d := c.(wantShutdown := true, startedShutdown := true);
    ShutdownCalls(d);
    ShutdownWants(d);
  }

  lemma {:induction false} ShutdownWants(c: Conn)
    ensures ShutdownLoop(c).wantShutdown == c.wantShutdown
    decreases |c.script|
  {
    hide AfterShutdown;
    var a := NextAnswer(c);
    var c' := Asked(c, SslShutdown(a.verdict, |c.queue|));
    if a.verdict == Interrupted {
      ShutdownWants(c');
    } else {
      AfterShutdownWants(c', a);
    }
  }

  lemma AfterShutdownWants(c: Conn, a: Answer)
    ensures AfterShutdown(c, a).wantShutdown == c.wantShutdown
  {
    hide AfterShutdown;
    if a.verdict == Done {
      DoneWants(c, a);
    } else if a.verdict == WantRead || a.verdict == WantWrite {
      WaitWants(c, a);
    } else {
      RefusedWants(c, a.verdict);
      assert AfterShutdown(c, a) == ShutdownRefused(c, a.verdict) by { IsRefused(c, a); }
    }
  }

  lemma DoneWants(c: Conn, a: Answer)
    requires a.verdict == Done
    ensures AfterShutdown(c, a).wantShutdown == c.wantShutdown
  {
    hide CloseFd;
    CloseFdWants(c.(toRedo := Nothing), a.pending);
  }

  lemma WaitWants(c: Conn, a: Answer)
    requires a.verdict == WantRead || a.verdict == WantWrite
    ensures AfterShutdown(c, a).wantShutdown == c.wantShutdown
  {
    hide CloseFd, ShutdownRefused;
  }

  lemma IsRefused(c: Conn, a: Answer)
    requires a.verdict != Done && a.verdict != WantRead && a.verdict != WantWrite
    ensures AfterShutdown(c, a) == ShutdownRefused(c, a.verdict)
  {
    hide CloseFd, ShutdownRefused, Wait;
  }

  lemma CloseFdWants(c: Conn, pending: bool)
    ensures CloseFd(c, pending).wantShutdown == c.wantShutdown
  {
  }

  lemma RefusedWants(c: Conn, v: Verdict)
    ensures ShutdownRefused(c, v).wantShutdown == c.wantShutdown
  {
    hide Fail;
    FailSame(c);
    FailSame(c.(wantClose := true));
  }

  /** The read loop goes on until OpenSSL has no more data. */
  lemma {:induction false} ReadsUntilDry(c: Conn)
    ensures var log := ReadLoop(c).log;
      exists j | |c.log| <= j < |log| :: LastRead(log, j)
    decreases |c.script|
  {
    hide Received, LastRead;
    var a := NextAnswer(c);
    var c' := Asked(c, ReadCall(c, a));
    if a.verdict == Done {
      ReadsUntilDry(Received(c', a));
      assert ReadLoop(c) == ReadLoop(Received(c', a));
    } else if a.verdict == Interrupted {
      ReadsUntilDry(c');
      assert ReadLoop(c) == ReadLoop(c');
    } else {
      ReadEnds(c, a);
      assert ReadLoop(c) == AfterRead(c', a.verdict);
    }
  }

  /** The last SSL_read, which has no data. */
  ghost predicate LastRead(log: seq<Call>, j: nat)
    requires j < |log|
  {
    && log[j].SslRead?
    && log[j].verdict != Done && log[j].verdict != Interrupted
    && forall k | j < k < |log| :: !log[k].SslRead?
  }

  lemma ReadEnds(c: Conn, a: Answer)
    requires a.verdict != Done && a.verdict != Interrupted
    ensures var log := AfterRead(Asked(c, ReadCall(c, a)), a.verdict).log;
      |log| > |c.log| && LastRead(log, |c.log|)
  {
    hide Asked;
    AfterReadLog(Asked(c, ReadCall(c, a)), a.verdict);
  }

  lemma AfterReadLog(c: Conn, v: Verdict)
    ensures AfterRead(c, v).log == c.log || AfterRead(c, v).log == c.log + [Failure]
  {
    hide Fail;
    match v
    case WantRead =>
    case WantWrite =>
    case SysNoError =>
    case _ => assert AfterRead(c, v) == Fail(c);
  }

  /** A shutdown that succeeds closes the connection. */
  lemma {:induction false} ShutdownCloses(c: Conn)
    ensures var r := ShutdownLoop(c);
      |r.log| > 0 &&
      (r.log[|r.log| - 1].SslShutdown? && r.log[|r.log| - 1].verdict == Done ==> r.hasError || r.wantClose)
    decreases |c.script|
  {
    hide AfterShutdown, Asked;
    var a := NextAnswer(c);
    var c' := Asked(c, SslShutdown(a.verdict, |c.queue|));
    if a.verdict == Interrupted {
      ShutdownCloses(c');
    } else {
      AfterShutdownCloses(c', a);
    }
  }

  lemma AfterShutdownCloses(c: Conn, a: Answer)
    requires c.log != [] && c.log[|c.log| - 1].SslShutdown? && c.log[|c.log| - 1].verdict == a.verdict
    ensures var r := AfterShutdown(c, a);
      |r.log| > 0 &&
      (r.log[|r.log| - 1].SslShutdown? && r.log[|r.log| - 1].verdict == Done ==> r.hasError || r.wantClose)
  {
    hide AfterShutdown;
    if a.verdict == Done {
      DoneCloses(c, a);
    } else {
      AfterShutdownLog(c, a);
    }
  }

  lemma DoneCloses(c: Conn, a: Answer)
    requires a.verdict == Done
    ensures var r := AfterShutdown(c, a); r.hasError || r.wantClose
  {
    hide CloseFd;
    CloseFdCloses(c.(toRedo := Nothing), a.pending);
  }

  lemma AfterShutdownLog(c: Conn, a: Answer)
    requires a.verdict != Done
    ensures var log := AfterShutdown(c, a).log; log == c.log || log == c.log + [Failure]
  {
    hide ShutdownRefused, CloseFd;
    if a.verdict != WantRead && a.verdict != WantWrite {
      RefusedLog(c, a.verdict);
    }
  }

  lemma CloseFdCloses(c: Conn, pending: bool)
    ensures CloseFd(c, pending).hasError || CloseFd(c, pending).wantClose
  {
  }

  lemma RefusedLog(c: Conn, v: Verdict)
    ensures var log := ShutdownRefused(c, v).log; log == c.log || log == c.log + [Failure]
  {
    hide Fail;
  }

  /**
    A message that the parser sends and that has to wait for output is not written when there is output, if
    SSL_read has asked for input since: it waits until the peer sends something.
  */
  lemma StalledExample(m: Message)
    requires m != []
    ensures var c := Run(Fresh(false, StalledScript(m)), [Events(false, true, false, false)]);
      && c.queue == [m] && !c.hasError && !c.wantClose && !c.wantShutdown && !c.inDel
      && forall pending :: Dispatch(c, true, false, false, pending) == c
  {
    hide ReadLoop, WriteLoop, MayShutdown, Received;
    var c := Fresh(false, StalledScript(m));
    var e := Events(false, true, false, false);
    StalledRead(c, m);
    assert OnInp(c) == ReadLoop(c);
    assert Dispatch(c, false, true, false, false) == OnInp(c);
    assert Run(c, [e]) == Run(Apply(c, e), []) == ReadLoop(c);
  }

  function StalledScript(m: Message): seq<Answer> {
    [Answer(Done, false, true, [SendMsg(m)]), Answer(WantWrite, false, true, []), Answer(WantRead, false, true, [])]
  }

  lemma StalledRead(c: Conn, m: Message)
    requires m != [] && c == Fresh(false, StalledScript(m))
    ensures var r := ReadLoop(c);
      && r.queue == [m] && !r.hasError && !r.wantClose && !r.wantShutdown && !r.inDel && !r.waitingForConnection
      && r.toRedo == Read && r.redoDir == Inp
  {
    hide Received;
    var a := c.script[0];
    var d := Received(Asked(c, ReadCall(c, a)), a);
    StalledParse(Asked(c, ReadCall(c, a)), m);
    assert ReadLoop(c) == ReadLoop(d);
    assert ReadLoop(d) == AfterRead(Asked(d, ReadCall(d, d.script[0])), WantRead);
  }

  lemma StalledParse(c: Conn, m: Message)
    requires m != [] && c.(log := []) == Fresh(false, StalledScript(m)[1..])
    ensures var r := Received(c, StalledScript(m)[0]);
      r == Fresh(false, StalledScript(m)[2..]).(log := r.log, queue := [m], toRedo := Write, redoDir := Out)
  {
    var d := c.(log := c.log + [Parse]);
    assert Acts(d, [SendMsg(m)]) == Acts(Send(d, m), []) == Send(d, m);
    var e := d.(log := d.log + [Accepted(m)]);
    assert Send(d, m) == SendLoop(e, m);
    assert SendLoop(e, m) == AfterSend(Asked(e, SslWrite(m, WantWrite, true)), m, WantWrite);
  }
}
