/**
  What the TLS connection never does, whatever OpenSSL answers.  An observer
  that knows nothing of the connection reads the log of calls; the invariant
  ties what it has seen to the state of the connection.
*/
module TlsTheorems {
  import opened Prelude
  import opened TlsSpec

  /** The observer: are the rules kept, what must be written again, what came in and what went out. */
  datatype Seen = Seen(
    ok: bool,
    again: Option<Message>,     // the message of an SSL_write that has to be repeated
    shut: bool,                 // SSL_shutdown has been called
    failed: bool,               // has_error has been set
    accepted: seq<Message>,     // what send took
    kept: seq<Message>,         // ... without what its own SSL_write refused
    sent: seq<Message>,         // what SSL_write reported as written
    dropped: bool,              // an SSL_write of send itself was refused
    hard: bool,                 // an SSL_write was refused in a way that ends the connection
    read: bool,                 // an SSL_read was successful
    asClient: bool,             // ... or not, on a client
    asServer: bool,
    next: Next)                 // what the last entry demands of the next

  /**
    What has to come at once: the user's parser after data, an error after a refused certificate, and
    the next SSL_read after data that the parser does not get.
  */
  datatype Next = Free | MustParse | MustFail | MustRead

  /** What an SSL_read demands: a client looks at the certificate after its first data. */
  function Demand(readBefore: bool, v: Verdict, client: bool, trusted: bool, open: bool): Next {
    if v != Done then Free
    else if client && !readBefore && !trusted then MustFail
    else if open then MustParse
    else MustRead
  }

  predicate Retries(v: Verdict) {
    v == WantRead || v == WantWrite || v == Interrupted
  }

  /** The message is not written and will not be written again. */
  predicate Refuses(v: Verdict) {
    v == SysNoError || v == ZeroReturn || v == SysError || v == Fatal
  }

  /** `send` takes a failed call without an error code for a success. */
  predicate Ends(v: Verdict, direct: bool) {
    Refuses(v) && (direct ==> v != SysNoError)
  }

  function Watch(s: Seen, call: Call): Seen {
    match call
    case Accepted(m) =>
      s.(ok := Calm(s) && !s.shut, accepted := s.accepted + [m], kept := s.kept + [m])
    case SslWrite(m, v, direct) =>
      s.(ok := Calm(s) && !s.shut && (s.again == None || s.again == Some(m))
               && (direct ==> s.kept != [] && s.kept[|s.kept| - 1] == m),
         again := if Retries(v) then Some(m) else None,
         sent := if v == Done then s.sent + [m] else s.sent,
         kept := if direct && Refuses(v) && s.kept != [] then s.kept[..|s.kept| - 1] else s.kept,
         dropped := s.dropped || (direct && Refuses(v)),
         hard := s.hard || Ends(v, direct))
    case SslShutdown(_, queued) => s.(ok := Calm(s) && queued == 0, shut := true)
    case SslHandshake(_) => s.(ok := Calm(s))
    case SslRead(v, client, trusted, open) =>
      s.(ok := s.ok && (s.next == Free || s.next == MustRead), read := s.read || v == Done,
         asClient := s.asClient || client, asServer := s.asServer || !client,
         next := Demand(s.read, v, client, trusted, open))
    case Parse => s.(ok := s.ok && !s.failed && !s.shut && s.next == MustParse, next := Free)
    case HangUp => s.(ok := s.ok && s.next == Free)
    case Failure => s.(ok := s.ok && (s.next == Free || s.next == MustFail), failed := true, next := Free)
  }

  /** No rule is broken, there is no error, and the last entry demands nothing. */
  predicate Calm(s: Seen) {
    s.ok && !s.failed && s.next == Free
  }

  function See(log: seq<Call>): Seen
    decreases |log|
  {
    if log == [] then Seen(true, None, false, false, [], [], [], false, false, false, false, false, Free)
    else Watch(See(log[..|log| - 1]), log[|log| - 1])
  }

  lemma SeeOne(log: seq<Call>, call: Call)
    ensures See(log + [call]) == Watch(See(log), call)
  {
    assert (log + [call])[..|log|] == log;
  }

  // ----- the invariant

  /** The certificate has been looked at exactly when a client has read something. */
  ghost predicate Roles(c: Conn, s: Seen) {
    && (s.asClient ==> c.client)
    && (s.asServer ==> !c.client)
    && (c.client ==> (s.read <==> c.handshakeDone))
  }

  /** The part that holds even while a message is between the user and OpenSSL. */
  ghost predicate Base(c: Conn, s: Seen) {
    && s.ok
    && s.next == Free
    && Roles(c, s)
    && s.failed == c.hasError
    && (s.shut ==> c.startedShutdown)
    && (c.startedShutdown ==> c.wantShutdown && c.queue == [])
    && (c.toRedo == Shutdown ==> c.startedShutdown)
    && (c.hasError ==> c.inDel)
    && (s.hard ==> s.failed)
    && (if s.dropped then |s.kept| < |s.accepted| else s.kept == s.accepted)
  }

  ghost predicate Tied(c: Conn, s: Seen) {
    && Base(c, s)
    && (s.again.Some? ==> c.queue != [] && c.queue[0] == s.again.value)
    && s.sent + c.queue == s.kept
  }

  ghost predicate Inv(c: Conn) {
    Tied(c, See(c.log))
  }

  lemma FailKeeps(c: Conn)
    requires Base(c.(hasError := true, inDel := true), See(c.log).(failed := true))
    requires var s := See(c.log);
      (s.again.Some? ==> c.queue != [] && c.queue[0] == s.again.value) && s.sent + c.queue == s.kept
    ensures Inv(Fail(c)) && Fail(c).hasError
    ensures Fail(c).queue == c.queue && Fail(c).startedShutdown == c.startedShutdown
  {
    SeeOne(c.log, Failure);
  }

  lemma FailInv(c: Conn)
    requires Inv(c)
    ensures Inv(Fail(c)) && Fail(c).hasError && Fail(c).queue == c.queue
  {
    FailKeeps(c);
  }

  lemma HangUpKeeps(c: Conn)
    requires Inv(c)
    ensures Inv(Fail(c.(log := c.log + [HangUp])))
  {
    hide See, Fail;
    SeeOne(c.log, HangUp);
    FailInv(c.(log := c.log + [HangUp]));
  }

  /** Noting what to do again touches nothing that the observer sees. */
  lemma WaitKeeps(c: Conn, what: ToRedo, dir: Direction)
    requires Inv(c) && (what == Shutdown ==> c.startedShutdown)
    ensures Inv(Wait(c, what, dir))
  {
  }

  lemma DelConnKeeps(c: Conn, pending: bool)
    requires Inv(c)
    ensures Inv(Del(c, pending))
  {
  }

  lemma CloseFdKeeps(c: Conn, pending: bool)
    requires Inv(c)
    ensures Inv(CloseFd(c, pending)) && CloseFd(c, pending).hasError == c.hasError
  {
  }

  // ----- send

  lemma AfterSendKeeps(c: Conn, m: Message, v: Verdict)
    requires v != Interrupted && !c.hasError && c.queue == [] && !c.wantShutdown
    requires var s := See(c.log);
      && (if Ends(v, true) then Base(c.(hasError := true, inDel := true), s.(failed := true)) else Base(c, s))
      && s.again == (if Retries(v) then Some(m) else None)
      && s.kept == (if v == Done || Refuses(v) then s.sent else s.sent + [m])
    ensures Inv(AfterSend(c, m, v))
  {
    hide See, Watch, Fail, Base;
    var s := See(c.log);
    assert s.sent + [] == s.sent && c.queue + [m] == [m];
    NotStarted(c, s);
    if Ends(v, true) {
      FailKeeps(c);
    } else if Retries(v) {
      QueuedKeeps(c, m, if v == WantRead then Inp else Out);
    } else {
      BaseQueue(c, [], Nothing, c.redoDir);
      assert c.(queue := [], toRedo := Nothing, redoDir := c.redoDir) == c.(toRedo := Nothing);
    }
  }

  /** A message that has to be written again is put into the queue. */
  lemma QueuedKeeps(c: Conn, m: Message, dir: Direction)
    requires c.queue == [] && !c.startedShutdown
    requires var s := See(c.log); Base(c, s) && s.again == Some(m) && s.kept == s.sent + [m]
    ensures Inv(Wait(c.(queue := c.queue + [m]), Write, dir))
  {
    hide See, Base;
    assert c.queue + [m] == [m];
    BaseQueue(c, [m], Write, dir);
  }

  lemma NotStarted(c: Conn, s: Seen)
    requires !c.wantShutdown
    ensures Base(c, s) ==> !c.startedShutdown
  {
  }

  lemma BaseQueue(c: Conn, queue: seq<Message>, what: ToRedo, dir: Direction)
    requires Base(c, See(c.log)) && !c.startedShutdown && what != Shutdown
    ensures Base(c.(queue := queue, toRedo := what, redoDir := dir), See(c.log))
    ensures Base(c.(queue := queue), See(c.log))
  {
  }

  /** What the observer makes of an SSL_write of `send` itself. */
  lemma DirectSeen(c: Conn, m: Message, v: Verdict)
    requires !c.hasError && c.queue == [] && !c.wantShutdown
    requires var s := See(c.log);
      Base(c, s) && (s.again == None || s.again == Some(m)) && s.kept == s.sent + [m]
    ensures var c' := Asked(c, SslWrite(m, v, true));
      var s := See(c'.log);
      && (if Ends(v, true) then Base(c'.(hasError := true, inDel := true), s.(failed := true)) else Base(c', s))
      && s.again == (if Retries(v) then Some(m) else None)
      && s.kept == (if v == Done || Refuses(v) then s.sent else s.sent + [m])
  {
    hide See;
    SeeOne(c.log, SslWrite(m, v, true));
  }

  lemma {:induction false} SendLoopKeeps(c: Conn, m: Message)
    requires !c.hasError && c.queue == [] && !c.wantShutdown
    requires var s := See(c.log);
      Base(c, s) && (s.again == None || s.again == Some(m)) && s.kept == s.sent + [m]
    ensures Inv(SendLoop(c, m))
    decreases |c.script|
  {
    hide See, Watch, AfterSend, Base, Inv;
    var v := NextAnswer(c).verdict;
    var c' := Asked(c, SslWrite(m, v, true));
    DirectSeen(c, m, v);
    if v == Interrupted {
      SendLoopKeeps(c', m);
    } else {
      AfterSendKeeps(c', m, v);
    }
  }

  lemma SendKeeps(c: Conn, m: Message)
    requires Inv(c)
    ensures Inv(Send(c, m))
  {
    hide See, SendLoop;
    if !(|m| == 0 || c.hasError || c.wantClose || c.wantShutdown || c.inDel) {
      var c' := c.(log := c.log + [Accepted(m)]);
      SeeOne(c.log, Accepted(m));
      assert See(c.log).sent + (c.queue + [m]) == See(c.log).sent + c.queue + [m];
      if !(c'.waitingForConnection || c'.queue != [] || c'.toRedo != Nothing) {
        SendLoopKeeps(c', m);
      }
    }
  }

  // ----- shutdown, handshake, write

  lemma AfterShutdownKeeps(c: Conn, a: Answer)
    requires Inv(c) && !c.hasError && c.startedShutdown
    ensures Inv(AfterShutdown(c, a))
  {
    hide Inv, Wait, Fail, CloseFd;
    match a.verdict
    case Done =>
      WaitKeeps(c, Nothing, c.redoDir);
      assert Wait(c, Nothing, c.redoDir) == c.(toRedo := Nothing) by { NoWait(c); }
      CloseFdKeeps(c.(toRedo := Nothing), a.pending);
    case WantRead => WaitKeeps(c, Shutdown, Inp);
    case WantWrite => WaitKeeps(c, Shutdown, Out);
    case Fatal =>
      WantCloseKeeps(c);
      FailInv(c.(wantClose := true));
    case _ => FailInv(c);
  }

  lemma NoWait(c: Conn)
    ensures Wait(c, Nothing, c.redoDir) == c.(toRedo := Nothing)
  {
  }

  lemma WantCloseKeeps(c: Conn)
    requires Inv(c)
    ensures Inv(c.(wantClose := true))
  {
  }

  lemma {:induction false} ShutdownLoopKeeps(c: Conn)
    requires Inv(c) && !c.hasError && c.startedShutdown
    ensures Inv(ShutdownLoop(c))
    decreases |c.script|
  {
    hide See, AfterShutdown;
    var a := NextAnswer(c);
    var c' := Asked(c, SslShutdown(a.verdict, |c.queue|));
    SeeOne(c.log, SslShutdown(a.verdict, |c.queue|));
    if a.verdict == Interrupted {
      ShutdownLoopKeeps(c');
    } else {
      AfterShutdownKeeps(c', a);
    }
  }

  lemma CloseKeeps(c: Conn)
    requires Inv(c)
    ensures Inv(Close(c))
  {
    if !(c.hasError || c.wantShutdown) {
      if !c.waitingForConnection && c.queue == [] {
        ShutdownLoopKeeps(c.(wantShutdown := true, startedShutdown := true));
      }
    }
  }

  lemma AfterHandshakeKeeps(c: Conn, v: Verdict)
    requires Inv(c) && !c.hasError
    ensures Inv(AfterHandshake(c, v))
  {
    hide Inv, Fail;
    WaitKeeps(c, Nothing, c.redoDir);
    WaitKeeps(c, Handshake, Inp);
    WaitKeeps(c, Handshake, Out);
    FailInv(c);
  }

  lemma {:induction false} HandshakeLoopKeeps(c: Conn)
    requires Inv(c) && !c.hasError
    ensures Inv(HandshakeLoop(c))
    decreases |c.script|
  {
    hide See, AfterHandshake;
    var v := NextAnswer(c).verdict;
    var c' := Asked(c, SslHandshake(v));
    SeeOne(c.log, SslHandshake(v));
    if v == Interrupted {
      HandshakeLoopKeeps(c');
    } else {
      AfterHandshakeKeeps(c', v);
    }
  }

  /** What the observer makes of an SSL_write of the head of the queue. */
  lemma QueueSeen(c: Conn, v: Verdict)
    requires Inv(c) && !c.hasError && c.queue != []
    ensures var c' := Asked(c, SslWrite(c.queue[0], v, false));
      var s := See(c'.log);
      && (if Refuses(v) then Base(c'.(hasError := true, inDel := true), s.(failed := true)) else Base(c', s))
      && s.again == (if Retries(v) then Some(c.queue[0]) else None)
      && s.kept == See(c.log).kept && s.sent == See(c.log).sent + if v == Done then [c.queue[0]] else []
  {
    hide See;
    SeeOne(c.log, SslWrite(c.queue[0], v, false));
  }

  lemma RefusedWriteKeeps(c: Conn, v: Verdict)
    requires Inv(c) && !c.hasError && c.queue != [] && Refuses(v)
    ensures Inv(Fail(Asked(c, SslWrite(c.queue[0], v, false))))
    ensures Fail(Asked(c, SslWrite(c.queue[0], v, false))).queue != []
  {
    hide See, Fail, Base;
    QueueSeen(c, v);
    FailKeeps(Asked(c, SslWrite(c.queue[0], v, false)));
  }

  lemma DoneWriteKeeps(c: Conn)
    requires Inv(c) && !c.hasError && c.queue != []
    ensures var c' := Asked(c, SslWrite(c.queue[0], Done, false));
      Inv(c'.(queue := c'.queue[1..], toRedo := Nothing))
  {
    hide See, Base, Asked;
    QueueSeen(c, Done);
    AskedSame(c, SslWrite(c.queue[0], Done, false));
    var c', s := Asked(c, SslWrite(c.queue[0], Done, false)), See(c.log);
    assert s.sent + c.queue == (s.sent + [c.queue[0]]) + c.queue[1..];
    NotShutdown(c);
    BaseQueue(c', c'.queue[1..], Nothing, c'.redoDir);
    var d := c'.(queue := c'.queue[1..], toRedo := Nothing);
    assert d == c'.(queue := c'.queue[1..], toRedo := Nothing, redoDir := c'.redoDir);
  }

  lemma AskedSame(c: Conn, call: Call)
    ensures Asked(c, call).queue == c.queue && Asked(c, call).startedShutdown == c.startedShutdown
    ensures Asked(c, call).log == c.log + [call] && Asked(c, call).hasError == c.hasError
  {
  }

  lemma RetriedWriteKeeps(c: Conn, v: Verdict)
    requires Inv(c) && !c.hasError && c.queue != [] && Retries(v)
    ensures Inv(Asked(c, SslWrite(c.queue[0], v, false)))
  {
    hide See, Base;
    QueueSeen(c, v);
    assert See(c.log).sent + [] == See(c.log).sent;
  }

  /** After SSL_write of the head of the queue, and what follows from its verdict, the invariant holds again. */
  lemma WrittenKeeps(c: Conn, v: Verdict)
    requires Inv(c) && !c.hasError && c.queue != []
    ensures var c' := Asked(c, SslWrite(c.queue[0], v, false));
      if v == Done then Inv(c'.(queue := c'.queue[1..], toRedo := Nothing))
      else if v == Interrupted then Inv(c')
      else Inv(AfterWrite(c', v)) && AfterWrite(c', v).queue != []
  {
    hide Inv, Fail;
    if Refuses(v) {
      RefusedWriteKeeps(c, v);
    } else if v == Done {
      DoneWriteKeeps(c);
    } else {
      RetriedWriteKeeps(c, v);
      WaitKeeps(Asked(c, SslWrite(c.queue[0], v, false)), Write, if v == WantRead then Inp else Out);
    }
  }

  lemma NotShutdown(c: Conn)
    requires Inv(c) && c.queue != []
    ensures !c.startedShutdown
  {
  }

  lemma {:induction false} WriteLoopKeeps(c: Conn)
    requires Inv(c) && !c.hasError
    ensures Inv(WriteLoop(c))
    ensures WriteLoop(c).hasError ==> WriteLoop(c).queue != []
    decreases |c.script|
  {
    hide See, Watch, AfterWrite, Inv;
    if c.queue != [] {
      var v := NextAnswer(c).verdict;
      var c' := Asked(c, SslWrite(c.queue[0], v, false));
      WrittenKeeps(c, v);
      if v == Done {
        WriteLoopKeeps(c'.(queue := c'.queue[1..], toRedo := Nothing));
      } else if v == Interrupted {
        WriteLoopKeeps(c');
      }
    }
  }

  // ----- read

  lemma {:induction false} ActsKeeps(c: Conn, actions: seq<Action>)
    requires Inv(c)
    ensures Inv(Acts(c, actions))
    decreases |actions|
  {
    if actions != [] {
      match actions[0] {
        case SendMsg(m) => SendKeeps(c, m);
        case CloseIt => CloseKeeps(c);
        case DelIt(pending) => DelConnKeeps(c, pending);
      }
      ActsKeeps(Act(c, actions[0]), actions[1..]);
    }
  }

  /** The invariant, but for what the last entry demands. */
  ghost predicate Demands(c: Conn, next: Next) {
    Tied(c, See(c.log).(next := Free)) && See(c.log).next == next
  }

  /** SSL_read may be called. */
  ghost predicate Resumes(c: Conn) {
    Demands(c, Free) || Demands(c, MustRead)
  }

  lemma Resumed(c: Conn)
    requires Inv(c)
    ensures Resumes(c)
  {
    assert See(c.log).(next := Free) == See(c.log);
  }

  lemma ParsedKeeps(c: Conn, actions: seq<Action>)
    requires Demands(c, if Open(c) then MustParse else MustRead)
    ensures Resumes(Parsed(c, actions))
  {
    hide See, Acts;
    var d := c.(toRedo := Nothing);
    if Open(d) {
      SeeOne(d.log, Parse);
      ActsKeeps(d.(log := d.log + [Parse]), actions);
      Resumed(Parsed(c, actions));
    }
  }

  lemma RefusedKeeps(c: Conn)
    requires Demands(c, MustFail)
    ensures Resumes(Refused(c))
  {
    hide See;
    SeeOne(c.log, Failure);
    assert Inv(Fail(c)) && Fail(c).(hasError := true) == Fail(c);
    CloseFdKeeps(Fail(c), false);
    Resumed(Refused(c));
  }

  /** What the observer makes of data, once the connection has noted that the certificate is looked at. */
  lemma DataSeen(c: Conn, a: Answer)
    requires Resumes(c) && a.verdict == Done
    ensures var c' := Asked(c, ReadCall(c, a));
      var d := if c.client && !c.handshakeDone then c'.(handshakeDone := true) else c';
      Demands(d, if c.client && !c.handshakeDone && !a.trusted then MustFail
                 else if Open(d) then MustParse else MustRead)
  {
    hide See;
    SeeOne(c.log, ReadCall(c, a));
  }

  lemma ReceivedKeeps(c: Conn, a: Answer)
    requires Resumes(c) && a.verdict == Done
    ensures Resumes(Received(Asked(c, ReadCall(c, a)), a))
  {
    hide Resumes, Demands, Parsed, Refused, Open;
    var c' := Asked(c, ReadCall(c, a));
    DataSeen(c, a);
    if c.client && !c.handshakeDone {
      if a.trusted {
        ParsedKeeps(c'.(handshakeDone := true), a.actions);
      } else {
        RefusedKeeps(c'.(handshakeDone := true));
      }
    } else {
      ParsedKeeps(c', a.actions);
    }
  }

  lemma AfterReadKeeps(c: Conn, v: Verdict)
    requires Inv(c)
    ensures Inv(AfterRead(c, v))
  {
    hide Inv, Fail;
    WaitKeeps(c, Read, Inp);
    WaitKeeps(c, Read, Out);
    FailInv(c);
  }

  lemma NoDataKeeps(c: Conn, a: Answer)
    requires Resumes(c) && a.verdict != Done
    ensures Inv(Asked(c, ReadCall(c, a)))
  {
    hide See;
    SeeOne(c.log, ReadCall(c, a));
  }

  lemma {:induction false} ReadLoopKeeps(c: Conn)
    requires Inv(c) || Resumes(c)
    ensures Inv(ReadLoop(c))
    decreases |c.script|
  {
    hide Inv, Resumes, AfterRead, Received;
    if Inv(c) {
      Resumed(c);
    }
    var a := NextAnswer(c);
    var c' := Asked(c, ReadCall(c, a));
    if a.verdict == Done {
      ReceivedKeeps(c, a);
      ReadLoopKeeps(Received(c', a));
    } else {
      NoDataKeeps(c, a);
      if a.verdict == Interrupted {
        ReadLoopKeeps(c');
      } else {
        AfterReadKeeps(c', a.verdict);
      }
    }
  }

  // ----- the events

  lemma RedoKeeps(c: Conn)
    requires Inv(c) && !c.hasError
    ensures Inv(Redo(c))
  {
    match c.toRedo
    case Nothing =>
    case Handshake => HandshakeLoopKeeps(c);
    case Read => ReadLoopKeeps(c);
    case Write => WriteLoopKeeps(c);
    case Shutdown => ShutdownLoopKeeps(c);
  }

  lemma MayShutdownKeeps(c: Conn)
    requires Inv(c) && (c.hasError ==> c.queue != [])
    ensures Inv(MayShutdown(c))
  {
    if c.wantShutdown && !c.startedShutdown && c.queue == [] {
      ShutdownLoopKeeps(c.(startedShutdown := true));
    }
  }

  lemma ReadThenWriteKeeps(c: Conn)
    requires Inv(c)
    ensures Inv(ReadThenWrite(c))
  {
    ReadLoopKeeps(c);
    var c1 := ReadLoop(c);
    if !Stops(c1) {
      WriteLoopKeeps(c1);
      if !Stops(WriteLoop(c1)) {
        MayShutdownKeeps(WriteLoop(c1));
      }
    }
  }

  lemma OnInpKeeps(c: Conn)
    requires Inv(c)
    ensures Inv(OnInp(c)) && (c.hasError ==> OnInp(c) == c)
  {
    if !c.hasError {
      if c.toRedo == Nothing {
        ReadThenWriteKeeps(c);
      } else if c.redoDir == Inp {
        RedoKeeps(c);
        var c1 := Redo(c);
        if !Stops(c1) {
          WriteLoopKeeps(c1);
          if !Stops(WriteLoop(c1)) {
            ReadThenWriteKeeps(WriteLoop(c1));
          }
        }
      }
    }
  }

  lemma WriteThenReadKeeps(c: Conn)
    requires Inv(c) && !c.hasError
    ensures Inv(WriteThenRead(c))
  {
    WriteLoopKeeps(c);
    var c1 := WriteLoop(c);
    if c1.toRedo == Nothing {
      if c1.hasWaitingInp {
        OnInpKeeps(c1.(hasWaitingInp := false));
        var c2 := OnInp(c1.(hasWaitingInp := false));
        if !Stops(c2) {
          MayShutdownKeeps(c2);
        }
      } else {
        MayShutdownKeeps(c1);
      }
    }
  }

  lemma ConnectedKeeps(c: Conn)
    requires Inv(c) && !c.hasError
    ensures Inv(Connected(c))
  {
    hide See, Redo, WriteThenRead;
    if c.toRedo == Nothing {
      WriteThenReadKeeps(c);
    } else if c.redoDir == Out {
      RedoKeeps(c);
      if !Stops(Redo(c)) {
        WriteThenReadKeeps(Redo(c));
      }
    }
  }

  lemma OnOutKeeps(c: Conn)
    requires Inv(c)
    ensures Inv(OnOut(c))
  {
    hide See, HandshakeLoop, Connected;
    if !c.hasError {
      var c1 := c.(waitingForConnection := false);
      if c.waitingForConnection && c.client {
        HandshakeLoopKeeps(c1);
        if !Stops(HandshakeLoop(c1)) {
          ConnectedKeeps(HandshakeLoop(c1));
        }
      } else {
        ConnectedKeeps(c1);
      }
    }
  }

  lemma DispatchKeeps(c: Conn, out: bool, inp: bool, hup: bool, pending: bool)
    requires Inv(c)
    ensures Inv(Dispatch(c, out, inp, hup, pending))
  {
    hide Inv, OnOut, OnInp, Fail, Del;
    if !c.inDel {
      OnOutKeeps(c);
      var c1 := if out then OnOut(c) else c;
      DelConnKeeps(c1, pending);
      var c2 := if out && c1.wantClose && c1.queue == [] then Del(c1, pending) else c1;
      OnInpKeeps(c2);
      var c3 := if inp && !c2.wantClose && !c2.inDel then OnInp(c2) else c2;
      HangUpKeeps(c3);
    }
  }

  lemma StepKeeps(c: Conn, step: Step)
    requires Inv(c)
    ensures Inv(Apply(c, step))
  {
    hide Inv, Dispatch, Send, Close, CloseFd;
    match step
    case Call(SendMsg(m)) => SendKeeps(c, m);
    case Call(CloseIt) => CloseKeeps(c);
    case Call(DelIt(pending)) => DelConnKeeps(c, pending);
    case Timeout(pending) => CloseFdKeeps(c, pending);
    case Events(out, inp, hup, pending) => DispatchKeeps(c, out, inp, hup, pending);
  }

  lemma {:induction false} RunKeeps(c: Conn, steps: seq<Step>)
    requires Inv(c)
    ensures Inv(Run(c, steps))
    decreases |steps|
  {
    if steps != [] {
      StepKeeps(c, steps[0]);
      RunKeeps(Apply(c, steps[0]), steps[1..]);
    }
  }
}
