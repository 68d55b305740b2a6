/**
  What the TLS connection does not forget.  A second observer of the log
  remembers what OpenSSL asked for last; the connection waits for exactly
  that, and between the events of the loop it has nothing else to do.
*/
module TlsProgress {
  import opened TlsSpec
  import opened TlsTheorems
  import opened TlsResults

  /** Which function of OpenSSL a call is of, if any. */
  function Kind(call: Call): ToRedo {
    match call
    case SslWrite(_, _, _) => Write
    case SslShutdown(_, _) => Shutdown
    case SslHandshake(_) => Handshake
    case SslRead(_, _, _, _) => Read
    case _ => Nothing
  }

  /** The call ends the connection; a failure without an error code does so in two places only. */
  predicate Bad(k: ToRedo, v: Verdict, direct: bool) {
    || v == ZeroReturn
    || v == SysError
    || v == Fatal
    || (v == SysNoError && (k == Handshake || (k == Write && !direct)))
  }

  /**
    What OpenSSL asked for: `redo` when there is data in direction `dir`, and `repeat` at once; `failed` if
    its answer is an error that has to be reported at once, and `mayFail` if an error may be reported.
  */
  datatype Memory = Memory(ok: bool, repeat: ToRedo, failed: bool, mayFail: bool, redo: ToRedo, dir: Direction)

  predicate Direct(call: Call) {
    call.SslWrite? && call.direct
  }

  /** A client that has got data may find that the certificate is refused. */
  predicate Untrusted(call: Call) {
    call.SslRead? && call.client && call.verdict == Done && !call.trusted
  }

  function Recall(m: Memory, call: Call): Memory {
    if call == Failure then m.(ok := m.ok && m.repeat == Nothing && m.mayFail, failed := false, mayFail := false)
    else if Kind(call) == Nothing then 
      m.(ok := m.ok && m.repeat == Nothing && !m.failed, failed := call == HangUp, mayFail := call == HangUp)
    else
      var v := call.verdict;
      Memory(
        m.ok && (m.repeat == Nothing || m.repeat == Kind(call)) && !m.failed,
        if v == Interrupted then Kind(call) else Nothing,
        Bad(Kind(call), v, Direct(call)),
        Bad(Kind(call), v, Direct(call)) || Untrusted(call),
        if v == WantRead || v == WantWrite then Kind(call) else if v == Done then Nothing else m.redo,
        if v == WantRead then Inp else if v == WantWrite then Out else m.dir)
  }

  function Mem(log: seq<Call>): Memory
    decreases |log|
  {
    if log == [] then Memory(true, Nothing, false, false, Nothing, Inp) else Recall(Mem(log[..|log| - 1]), log[|log| - 1])
  }

  lemma MemOne(log: seq<Call>, call: Call)
    ensures Mem(log + [call]) == Recall(Mem(log), call)
  {
    assert (log + [call])[..|log|] == log;
  }

  // ----- the invariant

  /** What OpenSSL asked for is `what` in direction `dir`; `k` may still have to be repeated at once. */
  ghost predicate Remembers(log: seq<Call>, error: bool, what: ToRedo, dir: Direction, k: ToRedo) {
    var m := Mem(log);
    && m.ok
    && (m.repeat == Nothing || m.repeat == k)
    && !m.failed
    && (error || (m.redo == what && m.dir == dir))
  }

  ghost predicate Ready(c: Conn, k: ToRedo) {
    Remembers(c.log, c.hasError, c.toRedo, c.redoDir, k)
  }

  ghost predicate Recalls(c: Conn) {
    Ready(c, Nothing) && (c.toRedo == Write && !c.hasError ==> c.queue != [])
  }

  /** A connection that is being closed is on a list of the loop. */
  predicate Gone(c: Conn) {
    c.wantClose ==> c.inDel || c.inWait
  }

  /** Nothing is to be done before the next event, but what OpenSSL or the kernel is waited for. */
  predicate Settled(c: Conn) {
    !c.hasError && c.toRedo == Nothing && !c.waitingForConnection ==>
      c.queue == [] && (c.wantShutdown ==> c.startedShutdown)
  }

  /** What no call of OpenSSL and no request of the user takes back. */
  predicate Goes(c: Conn, r: Conn) {
    && r.hasWaitingInp == c.hasWaitingInp
    && r.waitingForConnection == c.waitingForConnection
    && (Gone(c) ==> Gone(r))
  }

  /** After a call of kind `k` that was not interrupted, the memory is that of its verdict. */
  ghost predicate Told(log: seq<Call>, error: bool, what: ToRedo, dir: Direction, k: ToRedo, v: Verdict, direct: bool) {
    var m := Mem(log);
    && m.ok
    && m.repeat == Nothing
    && m.failed == Bad(k, v, direct)
    && (m.failed ==> m.mayFail)
    && (v == WantRead ==> m.redo == k && m.dir == Inp)
    && (v == WantWrite ==> m.redo == k && m.dir == Out)
    && (v == Done ==> m.redo == Nothing && (error || m.dir == dir))
    && (v != Done && v != WantRead && v != WantWrite ==> error || (m.redo == what && m.dir == dir))
  }

  ghost predicate Answered(c: Conn, k: ToRedo, v: Verdict, direct: bool := false) {
    Told(c.log, c.hasError, c.toRedo, c.redoDir, k, v, direct)
  }

  lemma Answers(c: Conn, call: Call)
    requires Ready(c, Kind(call)) && Kind(call) != Nothing
    ensures call.verdict == Interrupted ==> Ready(Asked(c, call), Kind(call))
    ensures call.verdict != Interrupted ==> Answered(Asked(c, call), Kind(call), call.verdict, Direct(call))
    ensures Untrusted(call) ==> Mem(Asked(c, call).log).mayFail
  {
    hide Mem;
    MemOne(c.log, call);
  }

  /** Noting what the verdict says keeps the memory right. */
  lemma ToldRemembers(log: seq<Call>, error: bool, what: ToRedo, dir: Direction, k: ToRedo, v: Verdict, direct: bool)
    requires Told(log, error, what, dir, k, v, direct)
    ensures v == WantRead ==> Remembers(log, error, k, Inp, Nothing)
    ensures v == WantWrite ==> Remembers(log, error, k, Out, Nothing)
    ensures v == Done ==> Remembers(log, error, Nothing, dir, Nothing)
    ensures v == SysNoError && !Bad(k, v, direct) ==> Remembers(log, error, what, dir, Nothing)
    ensures Bad(k, v, direct) ==> Mem(log).ok && Mem(log).repeat == Nothing && Mem(log).mayFail
  {
    hide Mem;
  }

  lemma WaitRecalls(c: Conn, k: ToRedo, v: Verdict, direct: bool := false)
    requires Answered(c, k, v, direct)
    ensures v == WantRead ==> Remembers(c.log, c.hasError, k, Inp, Nothing)
    ensures v == WantWrite ==> Remembers(c.log, c.hasError, k, Out, Nothing)
    ensures v == Done ==> Remembers(c.log, c.hasError, Nothing, c.redoDir, Nothing)
    ensures v == SysNoError && !Bad(k, v, direct) ==> Ready(c, Nothing)
    ensures Bad(k, v, direct) ==> Mem(c.log).ok && Mem(c.log).repeat == Nothing && Mem(c.log).mayFail
  {
    hide Mem, Bad, Told, Remembers;
    ToldRemembers(c.log, c.hasError, c.toRedo, c.redoDir, k, v, direct);
  }

  lemma FailRecalls(c: Conn)
    requires Mem(c.log).ok && Mem(c.log).repeat == Nothing && Mem(c.log).mayFail
    ensures Recalls(Fail(c)) && Fail(c).hasError && Goes(c, Fail(c))
    ensures Fail(c).inDel || Fail(c).inWait
  {
    hide Mem;
    MemOne(c.log, Failure);
  }

  /** Ready depends on these fields alone. */
  lemma ReadySame(c: Conn, d: Conn, k: ToRedo)
    requires Ready(c, k) && d.log == c.log && (c.hasError ==> d.hasError)
    requires d.toRedo == c.toRedo && d.redoDir == c.redoDir
    ensures Ready(d, k)
  {
  }

  lemma CloseFdGoes(c: Conn, pending: bool)
    requires c.queue == []
    ensures var r := CloseFd(c, pending);
      && Goes(c, r)
      && ShutdownSame(c, r)
      && (Ready(c, Nothing) ==> Ready(r, Nothing))
      && r.toRedo == c.toRedo && r.hasError == c.hasError
  {
    hide Remembers, Mem;
  }

  // ----- the calls of OpenSSL

  /** A message whose SSL_write is to be repeated is put into the queue. */
  lemma QueuedRecalls(c: Conn, m: Message, v: Verdict)
    requires Answered(c, Write, v, true) && (v == WantRead || v == WantWrite)
    ensures var r := Wait(c.(queue := c.queue + [m]), Write, if v == WantRead then Inp else Out);
      Recalls(r) && Goes(c, r) && r.wantShutdown == c.wantShutdown && r.toRedo == Write
  {
    hide Told, Remembers, Mem;
    var d := c.(queue := c.queue + [m]);
    assert d.queue != [];
    WaitRecalls(c, Write, v, true);
  }

  lemma SelfRecalls(c: Conn)
    requires Ready(c, Nothing) && c.toRedo == Nothing
    ensures Recalls(c) && Goes(c, c)
  {
  }

  lemma AfterSendRecalls(c: Conn, m: Message, v: Verdict)
    requires Answered(c, Write, v, true) && v != Interrupted && c.toRedo == Nothing && c.queue == []
    ensures var r := AfterSend(c, m, v); Recalls(r) && Goes(c, r) && r.wantShutdown == c.wantShutdown
    ensures var r := AfterSend(c, m, v); r.toRedo == Nothing && !r.hasError ==> r.queue == []
  {
    hide Mem, Fail, Told, Remembers, Recalls, Goes;
    WaitRecalls(c, Write, v, true);
    if v == WantRead || v == WantWrite {
      QueuedRecalls(c, m, v);
    } else if v == Done {
      SelfRecalls(c);
      assert AfterSend(c, m, v) == c.(toRedo := Nothing) == c;
    } else if v == SysNoError {
      SelfRecalls(c);
    } else {
      FailRecalls(c);
      FailSame(c);
    }
  }

  lemma FailSame(c: Conn)
    ensures Fail(c).wantShutdown == c.wantShutdown && Fail(c).startedShutdown == c.startedShutdown
    ensures Fail(c).queue == c.queue
  {
  }

  lemma {:induction false} SendLoopRecalls(c: Conn, m: Message)
    requires Ready(c, Write) && c.toRedo == Nothing && c.queue == []
    ensures var r := SendLoop(c, m); Recalls(r) && Goes(c, r) && r.wantShutdown == c.wantShutdown
    ensures var r := SendLoop(c, m); r.toRedo == Nothing && !r.hasError ==> r.queue == []
    decreases |c.script|
  {
    hide Mem, AfterSend, Ready, Answered, Recalls;
    var v := NextAnswer(c).verdict;
    var c' := Asked(c, SslWrite(m, v, true));
    Answers(c, SslWrite(m, v, true));
    if v == Interrupted {
      SendLoopRecalls(c', m);
    } else {
      AfterSendRecalls(c', m, v);
    }
  }

  lemma SendRecalls(c: Conn, m: Message)
    requires Recalls(c)
    ensures var r := Send(c, m); Recalls(r) && Goes(c, r) && (Settled(c) ==> Settled(r))
  {
    hide Mem, SendLoop;
    if !(|m| == 0 || c.hasError || c.wantClose || c.wantShutdown || c.inDel) {
      var c' := c.(log := c.log + [Accepted(m)]);
      MemOne(c.log, Accepted(m));
      if !(c'.waitingForConnection || c'.queue != [] || c'.toRedo != Nothing) {
        SendLoopRecalls(c', m);
      }
    }
  }

  lemma DoneShutdownRecalls(c: Conn, a: Answer)
    requires Answered(c, Shutdown, Done) && a.verdict == Done && c.queue == []
    ensures var r := AfterShutdown(c, a); Recalls(r) && Goes(c, r) && ShutdownSame(c, r)
  {
    hide Told, Remembers, Mem, CloseFd;
    WaitRecalls(c, Shutdown, Done);
    CloseFdGoes(c.(toRedo := Nothing), a.pending);
  }

  lemma RefusedShutdownRecalls(c: Conn, v: Verdict)
    requires Answered(c, Shutdown, v) && Bad(Shutdown, v, false)
    ensures var r := ShutdownRefused(c, v); Recalls(r) && Goes(c, r) && ShutdownSame(c, r)
  {
    hide Told, Remembers, Mem, Fail, Recalls;
    WaitRecalls(c, Shutdown, v);
    FailRecalls(c);
    FailSame(c);
    FailRecalls(c.(wantClose := true));
    FailSame(c.(wantClose := true));
  }

  lemma AfterShutdownRecalls(c: Conn, a: Answer)
    requires Answered(c, Shutdown, a.verdict) && a.verdict != Interrupted && c.queue == []
    requires c.toRedo == Write ==> c.hasError
    ensures var r := AfterShutdown(c, a); Recalls(r) && Goes(c, r) && ShutdownSame(c, r)
  {
    hide Told, Remembers, Mem, ShutdownRefused;
    WaitRecalls(c, Shutdown, a.verdict);
    match a.verdict
    case Done => DoneShutdownRecalls(c, a);
    case WantRead =>
    case WantWrite =>
    case SysNoError => assert ShutdownRefused(c, SysNoError) == c by { SilentShutdown(c); }
    case _ => RefusedShutdownRecalls(c, a.verdict);
  }

  lemma SilentShutdown(c: Conn)
    ensures ShutdownRefused(c, SysNoError) == c
  {
  }

  predicate ShutdownSame(c: Conn, r: Conn) {
    r.wantShutdown == c.wantShutdown && r.startedShutdown == c.startedShutdown && r.queue == c.queue
  }

  lemma {:induction false} ShutdownLoopRecalls(c: Conn)
    requires Ready(c, Shutdown) && c.queue == [] && (c.toRedo == Write ==> c.hasError)
    ensures var r := ShutdownLoop(c); Recalls(r) && Goes(c, r) && ShutdownSame(c, r)
    decreases |c.script|
  {
    hide Mem, AfterShutdown, Ready, Answered, Recalls;
    var a := NextAnswer(c);
    var c' := Asked(c, SslShutdown(a.verdict, |c.queue|));
    Answers(c, SslShutdown(a.verdict, |c.queue|));
    if a.verdict == Interrupted {
      ShutdownLoopRecalls(c');
    } else {
      AfterShutdownRecalls(c', a);
    }
  }

  lemma CloseRecalls(c: Conn)
    requires Recalls(c)
    ensures var r := Close(c); Recalls(r) && Goes(c, r) && (Settled(c) ==> Settled(r))
  {
    hide Remembers, Mem, ShutdownLoop;
    if !c.hasError && !c.wantShutdown && !c.waitingForConnection && c.queue == [] {
      ReadyMore(c.(wantShutdown := true, startedShutdown := true), Shutdown);
      ShutdownLoopRecalls(c.(wantShutdown := true, startedShutdown := true));
    }
  }

  lemma AfterHandshakeRecalls(c: Conn, v: Verdict)
    requires Answered(c, Handshake, v) && v != Interrupted
    ensures var r := AfterHandshake(c, v); Recalls(r) && Goes(c, r)
  {
    hide Told, Remembers, Mem, Fail;
    WaitRecalls(c, Handshake, v);
    match v
    case Done =>
    case WantRead =>
    case WantWrite =>
    case _ => FailRecalls(c);
  }

  lemma {:induction false} HandshakeLoopRecalls(c: Conn)
    requires Ready(c, Handshake)
    ensures var r := HandshakeLoop(c); Recalls(r) && Goes(c, r)
    decreases |c.script|
  {
    hide Mem, AfterHandshake, Ready, Answered, Recalls;
    var v := NextAnswer(c).verdict;
    var c' := Asked(c, SslHandshake(v));
    Answers(c, SslHandshake(v));
    if v == Interrupted {
      HandshakeLoopRecalls(c');
    } else {
      AfterHandshakeRecalls(c', v);
    }
  }

  lemma AfterWriteRecalls(c: Conn, v: Verdict)
    requires Answered(c, Write, v) && v != Interrupted && v != Done && c.queue != []
    ensures var r := AfterWrite(c, v); Recalls(r) && Goes(c, r) && Stops(r)
  {
    hide Told, Remembers, Mem, Fail;
    WaitRecalls(c, Write, v);
    match v
    case WantRead =>
    case WantWrite =>
    case _ => FailRecalls(c);
  }

  /** The write loop ends with everything written, or with something to wait for. */
  lemma {:induction false} WriteLoopRecalls(c: Conn)
    requires Ready(c, Write) && (c.toRedo == Write && !c.hasError ==> c.queue != [])
    requires c.queue == [] ==> Ready(c, Nothing)
    ensures var r := WriteLoop(c); Recalls(r) && Goes(c, r) && (Stops(r) || r.queue == [])
    decreases |c.script|
  {
    hide Mem, AfterWrite, Ready, Answered, Asked, Goes;
    GoesTwice(c, c, c);
    if c.queue != [] {
      var v := NextAnswer(c).verdict;
      var c' := Asked(c, SslWrite(c.queue[0], v, false));
      Answers(c, SslWrite(c.queue[0], v, false));
      AskedGoes(c, SslWrite(c.queue[0], v, false));
      if v == Done {
        WaitRecalls(c', Write, v);
        var d := c'.(queue := c'.queue[1..], toRedo := Nothing);
        WrittenGoes(c', d);
        WriteLoopRecalls(d);
        GoesTwice(c, c', d);
        GoesTwice(c, d, WriteLoop(d));
      } else if v == Interrupted {
        WriteLoopRecalls(c');
        GoesTwice(c, c', WriteLoop(c'));
      } else {
        AfterWriteRecalls(c', v);
        GoesTwice(c, c', AfterWrite(c', v));
      }
    }
  }

  lemma AskedGoes(c: Conn, call: Call)
    ensures var r := Asked(c, call); Goes(c, r) && r.toRedo == c.toRedo && r.hasError == c.hasError
  {
  }

  lemma GoesTwice(c: Conn, d: Conn, r: Conn)
    ensures Goes(c, c) && (Goes(c, d) && Goes(d, r) ==> Goes(c, r))
  {
  }

  lemma WrittenGoes(c: Conn, d: Conn)
    requires c.queue != [] && d == c.(queue := c.queue[1..], toRedo := Nothing)
    requires Remembers(c.log, c.hasError, Nothing, c.redoDir, Nothing)
    ensures Goes(c, d) && Ready(d, Nothing) && Ready(d, Write)
  {
    hide Mem;
  }

  lemma ReadyMore(c: Conn, k: ToRedo)
    requires Ready(c, Nothing)
    ensures Ready(c, k)
  {
  }

  // ----- read

  lemma DelRecalls(c: Conn, pending: bool)
    requires Recalls(c)
    ensures var r := Del(c, pending); Recalls(r) && Goes(c, r) && (Settled(c) ==> Settled(r))
  {
    hide Mem;
  }

  lemma ActRecalls(c: Conn, action: Action)
    requires Recalls(c)
    ensures var r := Act(c, action); Recalls(r) && Goes(c, r) && (Settled(c) ==> Settled(r))
  {
    hide Recalls, Goes, Settled, Send, Close, Del;
    match action
    case SendMsg(m) => SendRecalls(c, m);
    case CloseIt => CloseRecalls(c);
    case DelIt(pending) => DelRecalls(c, pending);
  }

  lemma {:induction false} ActsRecalls(c: Conn, actions: seq<Action>)
    requires Recalls(c)
    ensures var r := Acts(c, actions); Recalls(r) && Goes(c, r)
    decreases |actions|
  {
    hide Recalls, Act;
    if actions != [] {
      ActRecalls(c, actions[0]);
      ActsRecalls(Act(c, actions[0]), actions[1..]);
    }
  }

  lemma ParsedRecalls(c: Conn, actions: seq<Action>)
    requires Answered(c, Read, Done)
    ensures var r := Parsed(c, actions); Recalls(r) && Goes(c, r)
  {
    hide Mem, Acts;
    WaitRecalls(c, Read, Done);
    var d := c.(toRedo := Nothing);
    if Open(d) {
      MemOne(d.log, Parse);
      ActsRecalls(d.(log := d.log + [Parse]), actions);
    }
  }

  lemma RefusedRecalls(c: Conn)
    requires Answered(c, Read, Done) && Mem(c.log).mayFail
    ensures var r := Refused(c); Recalls(r) && Goes(c, r)
  {
    hide Remembers, Mem;
    FailRecalls(c);
  }

  lemma ReceivedRecalls(c: Conn, a: Answer)
    requires Answered(c, Read, Done) && (c.client && !a.trusted ==> Mem(c.log).mayFail)
    ensures var r := Received(c, a); Recalls(r) && Goes(c, r)
  {
    hide Mem, Parsed, Refused, Recalls;
    ParsedRecalls(c, a.actions);
    ParsedRecalls(c.(handshakeDone := true), a.actions);
    if c.client && !a.trusted {
      RefusedRecalls(c.(handshakeDone := true));
    }
  }

  lemma AfterReadRecalls(c: Conn, v: Verdict)
    requires Answered(c, Read, v) && v != Interrupted && v != Done
    requires c.toRedo == Write && !c.hasError ==> c.queue != []
    ensures var r := AfterRead(c, v); Recalls(r) && Goes(c, r)
  {
    hide Told, Remembers, Mem, Fail;
    WaitRecalls(c, Read, v);
    match v
    case WantRead =>
    case WantWrite =>
    case SysNoError =>
    case _ => FailRecalls(c);
  }

  lemma {:induction false} ReadLoopRecalls(c: Conn)
    requires Ready(c, Read) && (c.toRedo == Write && !c.hasError ==> c.queue != [])
    ensures var r := ReadLoop(c); Recalls(r) && Goes(c, r)
    decreases |c.script|
  {
    hide Mem, AfterRead, Received, Ready, Answered;
    var a := NextAnswer(c);
    var c' := Asked(c, ReadCall(c, a));
    Answers(c, ReadCall(c, a));
    if a.verdict == Done {
      ReceivedRecalls(c', a);
      ReadyMore(Received(c', a), Read);
      ReadLoopRecalls(Received(c', a));
    } else if a.verdict == Interrupted {
      ReadLoopRecalls(c');
    } else {
      AfterReadRecalls(c', a.verdict);
    }
  }

  // ----- the events

  lemma RedoRecalls(c: Conn)
    requires Recalls(c) && Inv(c)
    ensures var r := Redo(c); Recalls(r) && Goes(c, r)
  {
    hide Mem, See, HandshakeLoop, ReadLoop, WriteLoop, ShutdownLoop;
    match c.toRedo
    case Nothing =>
    case Handshake => HandshakeLoopRecalls(c);
    case Read => ReadLoopRecalls(c);
    case Write => WriteLoopRecalls(c);
    case Shutdown => ShutdownLoopRecalls(c);
  }

  lemma WriteRecalls(c: Conn)
    requires Recalls(c)
    ensures var r := WriteLoop(c); Recalls(r) && Goes(c, r) && (Stops(r) || r.queue == [])
  {
    hide Mem, WriteLoop;
    WriteLoopRecalls(c);
  }

  lemma MayShutdownRecalls(c: Conn)
    requires Recalls(c) && c.queue == []
    ensures var r := MayShutdown(c);
      Recalls(r) && Goes(c, r) && r.queue == [] && (r.wantShutdown ==> r.startedShutdown)
  {
    hide Mem, ShutdownLoop;
    if c.wantShutdown && !c.startedShutdown {
      ShutdownLoopRecalls(c.(startedShutdown := true));
    }
  }

  lemma NoShutdown(c: Conn)
    requires c.queue != []
    ensures MayShutdown(c) == c
  {
  }

  lemma ReadThenWriteRecalls(c: Conn)
    requires Recalls(c)
    ensures var r := ReadThenWrite(c); Recalls(r) && Goes(c, r) && Settled(r)
  {
    hide Recalls, Ready, ReadLoop, WriteLoop, MayShutdown;
    ReadLoopFrom(c);
    var c1 := ReadLoop(c);
    if !Stops(c1) {
      WriteRecalls(c1);
      if !Stops(WriteLoop(c1)) {
        MayShutdownRecalls(WriteLoop(c1));
      }
    }
  }

  lemma ReadLoopFrom(c: Conn)
    requires Recalls(c)
    ensures var r := ReadLoop(c); Recalls(r) && Goes(c, r)
  {
    hide Mem, ReadLoop;
    ReadLoopRecalls(c);
  }

  lemma RedoThenReadRecalls(c: Conn)
    requires Recalls(c) && Inv(c)
    ensures var r := RedoThenRead(c); Recalls(r) && Goes(c, r) && Settled(r)
  {
    hide Recalls, Inv, Redo, WriteLoop, ReadThenWrite;
    RedoRecalls(c);
    var c1 := Redo(c);
    if !Stops(c1) {
      WriteRecalls(c1);
      if !Stops(WriteLoop(c1)) {
        ReadThenWriteRecalls(WriteLoop(c1));
      }
    }
  }

  lemma OnInpRecalls(c: Conn)
    requires Recalls(c) && Inv(c)
    ensures var r := OnInp(c); Recalls(r) && Settled(r) && (Gone(c) ==> Gone(r))
    ensures c.toRedo == Nothing || c.redoDir == Inp ==> Goes(c, OnInp(c))
  {
    hide Mem, See, ReadThenWrite, RedoThenRead;
    if !c.hasError {
      if c.toRedo == Nothing {
        ReadThenWriteRecalls(c);
      } else if c.redoDir == Inp {
        RedoThenReadRecalls(c);
      }
    }
  }

  /** Nothing is left to be done: not even input that came while output was waited for. */
  predicate Finished(c: Conn) {
    Stops(c) || (c.queue == [] && !c.hasWaitingInp && (c.wantShutdown ==> c.startedShutdown))
  }

  /** The invariants do not speak of what only on_out looks at. */
  lemma FlagRecalls(c: Conn)
    requires Recalls(c) && Inv(c)
    ensures var d := c.(hasWaitingInp := false); Recalls(d) && Inv(d)
    ensures var d := c.(waitingForConnection := false); Recalls(d) && Inv(d)
  {
    hide Remembers, Mem, See;
  }

  lemma WriteThenReadRecalls(c: Conn)
    requires Recalls(c) && Inv(c) && !c.hasError && !c.waitingForConnection
    ensures var r := WriteThenRead(c); Recalls(r) && (Gone(c) ==> Gone(r)) && Finished(r)
  {
    hide Recalls, Inv, WriteLoop, OnInp, MayShutdown;
    WriteRecalls(c);
    WriteLoopKeeps(c);
    var c1 := WriteLoop(c);
    if c1.toRedo == Nothing {
      if c1.hasWaitingInp {
        var d := c1.(hasWaitingInp := false);
        FlagRecalls(c1);
        OnInpRecalls(d);
        if !Stops(OnInp(d)) {
          MayShutdownRecalls(OnInp(d));
        }
      } else if c1.queue == [] {
        MayShutdownRecalls(c1);
      } else {
        assert MayShutdown(c1) == c1 by { NoShutdown(c1); }
      }
    }
  }

  lemma ConnectedRecalls(c: Conn)
    requires Recalls(c) && Inv(c) && !c.hasError && !c.waitingForConnection
    ensures var r := Connected(c); Recalls(r) && (Gone(c) ==> Gone(r)) && Finished(r)
  {
    hide Recalls, Inv, Redo, WriteThenRead;
    if c.toRedo == Nothing {
      WriteThenReadRecalls(c);
    } else if c.redoDir == Out {
      RedoRecalls(c);
      RedoKeeps(c);
      if !Stops(Redo(c)) {
        WriteThenReadRecalls(Redo(c));
      }
    }
  }

  /** After on_out there is an error, OpenSSL is waited for, or nothing is left to be done. */
  lemma OnOutRecalls(c: Conn)
    requires Recalls(c) && Inv(c)
    ensures var r := OnOut(c); Recalls(r) && (Gone(c) ==> Gone(r)) && Finished(r)
  {
    hide Recalls, Inv, HandshakeLoop, Connected;
    if !c.hasError {
      var c1 := c.(waitingForConnection := false);
      FlagRecalls(c);
      if c.waitingForConnection && c.client {
        ReadyHandshake(c1);
        HandshakeLoopRecalls(c1);
        HandshakeLoopKeeps(c1);
        if !Stops(HandshakeLoop(c1)) {
          ConnectedRecalls(HandshakeLoop(c1));
        }
      } else {
        ConnectedRecalls(c1);
      }
    }
  }

  lemma ReadyHandshake(c: Conn)
    requires Recalls(c)
    ensures Ready(c, Handshake)
  {
  }

  /** Between two events: what OpenSSL asked for is remembered, and nothing else is left to be done. */
  ghost predicate Steady(c: Conn) {
    && Inv(c)
    && Recalls(c)
    && Settled(c)
    && (c.wantClose && c.queue == [] ==> c.inDel || c.inWait)
  }

  lemma SendSteady(c: Conn, m: Message)
    requires Steady(c)
    ensures Steady(Send(c, m))
  {
    hide Recalls, Inv, Settled, SendLoop;
    SendKeeps(c, m);
    SendRecalls(c, m);
    if !c.wantClose {
      assert Gone(Send(c, m)) by { assert Gone(c); }
    }
  }

  lemma CloseSteady(c: Conn)
    requires Steady(c)
    ensures Steady(Close(c))
  {
    hide Recalls, Inv, Settled, ShutdownLoop;
    CloseKeeps(c);
    CloseRecalls(c);
    if c.wantClose && c.queue != [] {
      assert Close(c).queue == c.queue;
    } else {
      assert Gone(c);
    }
  }

  lemma DispatchSteady(c: Conn, out: bool, inp: bool, hup: bool, pending: bool)
    requires Steady(c)
    ensures Steady(Dispatch(c, out, inp, hup, pending))
  {
    hide Recalls, Inv, Settled, OnOut, OnInp, Fail, Del;
    DispatchKeeps(c, out, inp, hup, pending);
    if !c.inDel {
      OnOutRecalls(c);
      OnOutKeeps(c);
      var c1 := if out then OnOut(c) else c;
      FinishedSettled(OnOut(c));
      DelRecalls(c1, pending);
      DelConnKeeps(c1, pending);
      DelGone(c1, pending);
      var c2 := if out && c1.wantClose && c1.queue == [] then Del(c1, pending) else c1;
      assert Recalls(c2) && Inv(c2) && Settled(c2) && (c2.wantClose && c2.queue == [] ==> c2.inDel || c2.inWait);
      OnInpRecalls(c2);
      var c3 := if inp && !c2.wantClose && !c2.inDel then OnInp(c2) else c2;
      assert Recalls(c3) && Settled(c3) && (c3.wantClose && c3.queue == [] ==> c3.inDel || c3.inWait);
      FailSteady(c3);
    }
  }

  lemma FinishedSettled(c: Conn)
    requires Finished(c)
    ensures Settled(c)
  {
  }

  lemma DelGone(c: Conn, pending: bool)
    ensures var r := Del(c, pending); (r.inDel || r.inWait) && r.wantClose == c.wantClose && r.queue == c.queue
  {
  }

  lemma FailSteady(c: Conn)
    requires Recalls(c)
    ensures var r := Fail(c.(log := c.log + [HangUp])); Recalls(r) && Settled(r) && (r.inDel || r.inWait)
  {
    hide Recalls, Fail, Mem;
    RecallsMem(c);
    MemOne(c.log, HangUp);
    FailRecalls(c.(log := c.log + [HangUp]));
  }

  lemma RecallsMem(c: Conn)
    requires Recalls(c)
    ensures Mem(c.log).ok && Mem(c.log).repeat == Nothing && !Mem(c.log).failed
  {
  }

  lemma CloseFdSteady(c: Conn, pending: bool)
    requires Steady(c)
    ensures Steady(CloseFd(c, pending))
  {
    hide Remembers, Mem, Inv;
    CloseFdKeeps(c, pending);
  }

  lemma StepSteady(c: Conn, step: Step)
    requires Steady(c)
    ensures Steady(Apply(c, step))
  {
    hide Recalls, Inv, Settled, Dispatch, Send, Close, CloseFd, Del;
    match step
    case Call(SendMsg(m)) => SendSteady(c, m);
    case Call(CloseIt) => CloseSteady(c);
    case Call(DelIt(pending)) =>
      DelRecalls(c, pending);
      DelConnKeeps(c, pending);
      DelGone(c, pending);
    case Timeout(pending) => CloseFdSteady(c, pending);
    case Events(out, inp, hup, pending) => DispatchSteady(c, out, inp, hup, pending);
  }

  lemma {:induction false} RunSteady(c: Conn, steps: seq<Step>)
    requires Steady(c)
    ensures Steady(Run(c, steps))
    decreases |steps|
  {
    hide Steady, Apply;
    if steps != [] {
      StepSteady(c, steps[0]);
      RunSteady(Apply(c, steps[0]), steps[1..]);
    }
  }

  // ----- what an event makes the connection do

  /** The first call that follows, if any. */
  function First(c: Conn, r: Conn): ToRedo {
    if |r.log| > |c.log| then Kind(r.log[|c.log|]) else Nothing
  }

  /** What is called first stays so. */
  lemma FirstKept(c: Conn, d: Conn, r: Conn)
    requires c.log <= d.log <= r.log && |d.log| > |c.log|
    ensures First(c, r) == First(c, d) == Kind(d.log[|c.log|])
  {
  }

  lemma ReadCalls(c: Conn)
    ensures First(c, ReadLoop(c)) == Read && First(c, ReadThenWrite(c)) == Read
    ensures |ReadLoop(c).log| > |c.log|
  {
    hide ReadLoop, ReadThenWrite;
    var d := Asked(c, ReadCall(c, NextAnswer(c)));
    ReadBegins(c);
    FirstKept(c, d, ReadLoop(c));
    ReadBefore(c);
    FirstKept(c, ReadLoop(c), ReadThenWrite(c));
  }

  lemma ReadBegins(c: Conn)
    ensures Asked(c, ReadCall(c, NextAnswer(c))).log <= ReadLoop(c).log
  {
    hide Received, AfterRead, Asked;
  }

  lemma ReadBefore(c: Conn)
    ensures ReadLoop(c).log <= ReadThenWrite(c).log
  {
    hide ReadLoop, WriteLoop, MayShutdown;
  }

  /** The write loop begins with the head of the queue. */
  lemma WriteCalls(c: Conn)
    requires c.queue != []
    ensures var r := WriteLoop(c);
      && First(c, r) == Write
      && |r.log| > |c.log| && r.log[|c.log|] == SslWrite(c.queue[0], NextAnswer(c).verdict, false)
  {
    hide AfterWrite;
    FirstKept(c, Asked(c, SslWrite(c.queue[0], NextAnswer(c).verdict, false)), WriteLoop(c));
  }

  lemma HandshakeCalls(c: Conn)
    ensures First(c, HandshakeLoop(c)) == Handshake && |HandshakeLoop(c).log| > |c.log|
  {
    hide AfterHandshake;
    FirstKept(c, Asked(c, SslHandshake(NextAnswer(c).verdict)), HandshakeLoop(c));
  }

  lemma ShutdownCalls(c: Conn)
    ensures First(c, ShutdownLoop(c)) == Shutdown && |ShutdownLoop(c).log| > |c.log|
  {
    hide AfterShutdown;
    FirstKept(c, Asked(c, SslShutdown(NextAnswer(c).verdict, |c.queue|)), ShutdownLoop(c));
  }

  lemma RedoCalls(c: Conn)
    requires c.toRedo != Nothing && (c.toRedo == Write ==> c.queue != [])
    ensures First(c, Redo(c)) == c.toRedo && |Redo(c).log| > |c.log|
  {
    hide ReadLoop, WriteLoop, HandshakeLoop, ShutdownLoop;
    ReadCalls(c);
    HandshakeCalls(c);
    ShutdownCalls(c);
    if c.queue != [] {
      WriteCalls(c);
    }
  }

  lemma RedoFirst(c: Conn)
    requires c.toRedo != Nothing && (c.toRedo == Write ==> c.queue != [])
    ensures First(c, RedoThenRead(c)) == c.toRedo
  {
    hide Redo, WriteLoop, ReadThenWrite;
    RedoCalls(c);
    FirstKept(c, Redo(c), RedoThenRead(c));
  }

  /** Input: what OpenSSL wants to have repeated when there is input, and SSL_read if it wants nothing. */
  lemma InpCalls(c: Conn)
    requires Recalls(c) && !c.hasError
    ensures var r := OnInp(c);
      && First(c, r) == (if c.toRedo == Nothing then Read else if c.redoDir == Inp then c.toRedo else Nothing)
      && (c.toRedo != Nothing && c.redoDir == Out ==> r.log == c.log && r.hasWaitingInp)
  {
    hide Recalls, ReadLoop, Redo, WriteLoop, ReadThenWrite, RedoThenRead;
    if c.toRedo == Nothing {
      ReadCalls(c);
    } else if c.redoDir == Inp {
      if c.toRedo == Write {
        RecallsWrite(c);
      }
      RedoFirst(c);
    }
  }

  lemma RecallsWrite(c: Conn)
    requires Recalls(c) && c.toRedo == Write && !c.hasError
    ensures c.queue != []
  {
  }

  /**
    Output: a client that was waiting for the connection begins the handshake; else what OpenSSL wants to have
    repeated when there is room for output comes first, then the queue, input that was kept, and the shutdown.
  */
  function FirstOnOutput(c: Conn): ToRedo {
    if c.waitingForConnection && c.client then Handshake
    else if c.toRedo != Nothing then if c.redoDir == Out then c.toRedo else Nothing
    else if c.queue != [] then Write
    else if c.hasWaitingInp then Read
    else if c.wantShutdown && !c.startedShutdown then Shutdown
    else Nothing
  }

  lemma OutCalls(c: Conn)
    requires Recalls(c) && !c.hasError
    ensures First(c, OnOut(c)) == FirstOnOutput(c)
    ensures FirstOnOutput(c) == Nothing ==> OnOut(c) == c.(waitingForConnection := false)
  {
    hide Recalls, HandshakeLoop, Connected;
    var c1 := c.(waitingForConnection := false);
    if c.waitingForConnection && c.client {
      HandshakeCalls(c1);
      FirstKept(c1, HandshakeLoop(c1), FirstOutput(c1));
    } else {
      if c.toRedo == Write {
        RecallsWrite(c);
      }
      ConnectedCalls(c1);
    }
  }

  lemma ConnectedCalls(c: Conn)
    requires !c.hasError && !c.waitingForConnection && (c.toRedo == Write ==> c.queue != [])
    ensures First(c, Connected(c)) == FirstOnOutput(c)
    ensures FirstOnOutput(c) == Nothing ==> Connected(c) == c
  {
    hide Redo, WriteThenRead;
    if c.toRedo == Nothing {
      WriteThenReadCalls(c);
    } else if c.redoDir == Out {
      RedoCalls(c);
      FirstKept(c, Redo(c), Connected(c));
    }
  }

  lemma WriteThenReadCalls(c: Conn)
    requires !c.hasError && !c.waitingForConnection && c.toRedo == Nothing
    ensures First(c, WriteThenRead(c)) == FirstOnOutput(c)
    ensures FirstOnOutput(c) == Nothing ==> WriteThenRead(c) == c
  {
    hide WriteLoop, OnInp, MayShutdown;
    if c.queue != [] {
      WriteCalls(c);
      FirstKept(c, WriteLoop(c), WriteThenRead(c));
    } else {
      NothingToWrite(c);
      if c.hasWaitingInp {
        var d := c.(hasWaitingInp := false);
        KeptCalls(d);
        FirstKept(d, OnInp(d), WriteThenRead(c));
      } else {
        MayShutdownCalls(c);
      }
    }
  }

  lemma NothingToWrite(c: Conn)
    requires c.queue == []
    ensures WriteLoop(c) == c
  {
  }

  lemma KeptCalls(c: Conn)
    requires !c.hasError && c.toRedo == Nothing
    ensures First(c, OnInp(c)) == Read && |OnInp(c).log| > |c.log|
  {
    hide ReadThenWrite;
    ReadCalls(c);
  }

  lemma MayShutdownCalls(c: Conn)
    requires c.queue == []
    ensures var call := c.wantShutdown && !c.startedShutdown;
      if call then First(c, MayShutdown(c)) == Shutdown else MayShutdown(c) == c
  {
    hide ShutdownLoop;
    ShutdownCalls(c.(startedShutdown := true));
  }
}
