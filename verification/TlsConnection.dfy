/** The TLS connection with its fields updated in place, proved against module TlsSpec. */
module TlsConnection {
  import opened TlsSpec
  import opened TlsTheorems

  class TlsConnection {
    const client: bool
    var waitingForConnection: bool
    var waitingSends: seq<Message>
    var toRedo: ToRedo
    var redoDir: Direction
    var handshakeDone: bool
    var wantAShutdown: bool
    var startedAShutdown: bool
    var hasWaitingInpData: bool
    var wantCloseFd: bool
    var hasError: bool
    var nextDel: bool
    var nextWaitOut: bool
    var ssl: seq<Answer>
    ghost var log: seq<Call>

    ghost function St(): Conn
      reads this
    {
      Conn(client, waitingForConnection, waitingSends, toRedo, redoDir, handshakeDone, wantAShutdown,
           startedAShutdown, hasWaitingInpData, wantCloseFd, hasError, nextDel, nextWaitOut, ssl, log)
    }

    constructor (client: bool, ssl: seq<Answer>)
      ensures St() == Fresh(client, ssl) && Inv(St())
    {
      this.client := client;
      waitingForConnection, waitingSends := client, [];
      toRedo, redoDir, handshakeDone := Nothing, Inp, false;
      wantAShutdown, startedAShutdown, hasWaitingInpData := false, false, false;
      wantCloseFd, hasError, nextDel, nextWaitOut := false, false, false, false;
      this.ssl, log := ssl, [];
    }

    /** One call of OpenSSL that the observer sees as `call` of the answer it gets. */
    method Ask(ghost call: Answer -> Call) returns (a: Answer)
      modifies `ssl, `log
      ensures a == old(NextAnswer(St())) && St() == old(Asked(St(), call(a)))
    {
      if ssl == [] {
        a := DEFAULT;
      } else {
        a := ssl[0];
        ssl := ssl[1..];
      }
      log := log + [call(a)];
    }

    // ----- Event

    method EventDel(pending: bool)
      modifies this
      ensures St() == old(Del(St(), pending))
    {
      if !hasError && pending {
        nextWaitOut := true;
      } else {
        nextDel := true;
      }
    }

    method CloseDescriptor(pending: bool)
      modifies this
      ensures St() == old(CloseFd(St(), pending))
    {
      if hasError {
        EventDel(pending);
        return;
      }
      if wantCloseFd {
        return;
      }
      wantCloseFd := true;
      if hasError || waitingSends == [] {
        EventDel(pending);
      }
    }

    method Error()
      modifies this
      ensures St() == old(Fail(St()))
    {
      hasError := true;
      log := log + [Failure];
      CloseDescriptor(false);
    }

    // ----- the calls of OpenSSL

    method SendMessage(m: Message)
      modifies this
      ensures St() == old(Send(St(), m))
    {
      if |m| == 0 || hasError || wantCloseFd || wantAShutdown || nextDel {
        return;
      }
      log := log + [Accepted(m)];
      if waitingForConnection || waitingSends != [] || toRedo != Nothing {
        waitingSends := waitingSends + [m];
        return;
      }
      SendNow(m);
    }

    method SendNow(m: Message)
      modifies this
      ensures St() == old(SendLoop(St(), m))
    {
      hide AfterSend, Asked;
      while true
        invariant SendLoop(St(), m) == old(SendLoop(St(), m))
        decreases |ssl|
      {
        ghost var before := St();
        var a := Ask((a: Answer) => SslWrite(m, a.verdict, true));
        Popped(before, SslWrite(m, a.verdict, true));
        if a.verdict != Interrupted {
          FinishSend(m, a.verdict);
          return;
        }
      }
    }

    method FinishSend(m: Message, v: Verdict)
      modifies this
      ensures St() == old(AfterSend(St(), m, v))
    {
      hide Fail;
      match v {
        case Done =>
          toRedo := Nothing;
        case WantRead =>
          waitingSends := waitingSends + [m];
          redoDir, toRedo := Inp, Write;
        case WantWrite =>
          waitingSends := waitingSends + [m];
          redoDir, toRedo := Out, Write;
        case SysNoError =>
        case _ =>
          Error();
      }
    }

    /** A call uses up the script, as long as there is one. */
    lemma Popped(c: Conn, call: Call)
      ensures c.script != [] ==> |Asked(c, call).script| < |c.script|
      ensures c.script == [] ==> NextAnswer(c).verdict == WantRead
    {
    }

    method CloseConnection()
      modifies this
      ensures St() == old(Close(St()))
    {
      if hasError || wantAShutdown {
        return;
      }
      wantAShutdown := true;
      if !waitingForConnection && waitingSends == [] {
        startedAShutdown := true;
        DoShutdown();
      }
    }

    method DoShutdown()
      modifies this
      ensures St() == old(ShutdownLoop(St()))
    {
      hide AfterShutdown, Asked;
      while true
        invariant ShutdownLoop(St()) == old(ShutdownLoop(St()))
        decreases |ssl|
      {
        ghost var before := St();
        ghost var n := |waitingSends|;
        var a := Ask((a: Answer) => SslShutdown(a.verdict, n));
        Popped(before, SslShutdown(a.verdict, n));
        if a.verdict != Interrupted {
          FinishShutdown(a);
          return;
        }
      }
    }

    method FinishShutdown(a: Answer)
      modifies this
      ensures St() == old(AfterShutdown(St(), a))
    {
      hide Fail, CloseFd;
      match a.verdict {
        case Done =>
          toRedo := Nothing;
          CloseDescriptor(a.pending);
        case WantRead =>
          redoDir, toRedo := Inp, Shutdown;
        case WantWrite =>
          redoDir, toRedo := Out, Shutdown;
        case _ =>
          RefuseShutdown(a.verdict);
      }
    }

    method RefuseShutdown(v: Verdict)
      modifies this
      ensures St() == old(ShutdownRefused(St(), v))
    {
      hide Fail;
      if v == Fatal {
        wantCloseFd := true;
      }
      if v != SysNoError {
        Error();
      }
    }

    method DoHandshake()
      modifies this
      ensures St() == old(HandshakeLoop(St()))
    {
      hide AfterHandshake, Asked;
      while true
        invariant HandshakeLoop(St()) == old(HandshakeLoop(St()))
        decreases |ssl|
      {
        ghost var before := St();
        var a := Ask((a: Answer) => SslHandshake(a.verdict));
        Popped(before, SslHandshake(a.verdict));
        if a.verdict != Interrupted {
          FinishHandshake(a.verdict);
          return;
        }
      }
    }

    method FinishHandshake(v: Verdict)
      modifies this
      ensures St() == old(AfterHandshake(St(), v))
    {
      hide Fail;
      match v {
        case Done =>
          toRedo := Nothing;
        case WantRead =>
          redoDir, toRedo := Inp, Handshake;
        case WantWrite =>
          redoDir, toRedo := Out, Handshake;
        case _ =>
          Error();
      }
    }

    method DoWrite()
      modifies this
      ensures St() == old(WriteLoop(St()))
    {
      hide AfterWrite, Asked;
      while waitingSends != []
        invariant WriteLoop(St()) == old(WriteLoop(St()))
        decreases |ssl|
      {
        ghost var before := St();
        ghost var m := waitingSends[0];
        var a := Ask((a: Answer) => SslWrite(m, a.verdict, false));
        Popped(before, SslWrite(m, a.verdict, false));
        SameQueue(before, SslWrite(m, a.verdict, false));
        if a.verdict == Done {
          waitingSends := waitingSends[1..];
          toRedo := Nothing;
        } else if a.verdict != Interrupted {
          FinishWrite(a.verdict);
          return;
        }
      }
    }

    lemma SameQueue(c: Conn, call: Call)
      ensures Asked(c, call).queue == c.queue
    {
    }

    method FinishWrite(v: Verdict)
      modifies this
      ensures St() == old(AfterWrite(St(), v))
    {
      hide Fail;
      match v {
        case WantRead =>
          redoDir, toRedo := Inp, Write;
        case WantWrite =>
          redoDir, toRedo := Out, Write;
        case _ =>
          Error();
      }
    }

    /** One request of the user. */
    method Perform(action: Action)
      modifies this
      ensures St() == old(Act(St(), action))
    {
      hide Send, Close, Del;
      match action {
        case SendMsg(m) => SendMessage(m);
        case CloseIt => CloseConnection();
        case DelIt(pending) => EventDel(pending);
      }
    }

    /** The user's parser, which may send, close and delete this connection. */
    method UserParse(actions: seq<Action>)
      modifies this
      ensures St() == old(Acts(St().(log := log + [Parse]), actions))
    {
      hide Act;
      log := log + [Parse];
      ghost var c := St();
      var i := 0;
      assert actions[0..] == actions;
      while i < |actions|
        invariant 0 <= i <= |actions|
        invariant Acts(St(), actions[i..]) == Acts(c, actions)
      {
        ActsNext(St(), actions[i..]);
        assert actions[i..][0] == actions[i] && actions[i..][1..] == actions[i + 1..];
        Perform(actions[i]);
        i := i + 1;
      }
    }

    lemma ActsNext(c: Conn, actions: seq<Action>)
      requires actions != []
      ensures Acts(c, actions) == Acts(Act(c, actions[0]), actions[1..])
    {
    }

    method RefuseCertificate()
      modifies this
      ensures St() == old(Refused(St()))
    {
      hide Fail, CloseFd;
      Error();
      hasError := true;
      CloseDescriptor(false);
    }

    method HandData(actions: seq<Action>)
      modifies this
      ensures St() == old(Parsed(St(), actions))
    {
      hide Acts;
      toRedo := Nothing;
      if !wantCloseFd && !nextDel && !wantAShutdown {
        UserParse(actions);
      }
    }

    method AfterData(a: Answer)
      modifies this
      ensures St() == old(Received(St(), a))
    {
      hide Parsed, Refused;
      if client && !handshakeDone {
        handshakeDone := true;
        if !a.trusted {
          RefuseCertificate();
          return;
        }
      }
      HandData(a.actions);
    }

    method DoRead()
      modifies this
      ensures St() == old(ReadLoop(St()))
    {
      hide AfterRead, Asked, Received;
      while true
        invariant ReadLoop(St()) == old(ReadLoop(St()))
        decreases |ssl|
      {
        ghost var before := St();
        var a := Ask((a: Answer) => ReadCall(before, a));
        Popped(before, ReadCall(before, a));
        if a.verdict == Done {
          AfterData(a);
        } else if a.verdict != Interrupted {
          FinishRead(a.verdict);
          return;
        }
      }
    }

    method FinishRead(v: Verdict)
      modifies this
      ensures St() == old(AfterRead(St(), v))
    {
      hide Fail;
      match v {
        case WantRead =>
          redoDir, toRedo := Inp, Read;
        case WantWrite =>
          redoDir, toRedo := Out, Read;
        case SysNoError =>
        case _ =>
          Error();
      }
    }

    method DoRedo()
      modifies this
      ensures St() == old(Redo(St()))
    {
      match toRedo {
        case Nothing =>
        case Handshake => DoHandshake();
        case Read => DoRead();
        case Write => DoWrite();
        case Shutdown => DoShutdown();
      }
    }

    // ----- the events

    method TryShutdown()
      modifies this
      ensures St() == old(MayShutdown(St()))
    {
      if wantAShutdown && !startedAShutdown && waitingSends == [] {
        startedAShutdown := true;
        DoShutdown();
      }
    }

    method ReadAndWrite()
      modifies this
      ensures St() == old(ReadThenWrite(St()))
    {
      hide ReadLoop, WriteLoop, MayShutdown;
      DoRead();
      if toRedo != Nothing || hasError {
        return;
      }
      DoWrite();
      if toRedo != Nothing || hasError {
        return;
      }
      TryShutdown();
    }

    method Input()
      modifies this
      ensures St() == old(OnInp(St()))
    {
      hide WriteLoop, Redo, ReadThenWrite;
      if hasError {
        return;
      }
      if toRedo != Nothing {
        if redoDir != Inp {
          hasWaitingInpData := true;
          return;
        }
        DoRedo();
        if toRedo != Nothing || hasError {
          return;
        }
        DoWrite();
        if toRedo != Nothing || hasError {
          return;
        }
      }
      ReadAndWrite();
    }

    method WriteAndRead()
      modifies this
      ensures St() == old(WriteThenRead(St()))
    {
      hide WriteLoop, OnInp, MayShutdown;
      DoWrite();
      if toRedo != Nothing {
        return;
      }
      if hasWaitingInpData {
        ReadKept();
        if toRedo != Nothing || hasError {
          return;
        }
      }
      TryShutdown();
    }

    /** Input that came while the connection was waiting for output. */
    method ReadKept()
      modifies this
      ensures St() == old(OnInp(St().(hasWaitingInp := false)))
    {
      hide OnInp;
      hasWaitingInpData := false;
      Input();
    }

    method OutputConnected()
      modifies this
      ensures St() == old(Connected(St()))
    {
      hide Redo, WriteThenRead;
      if toRedo != Nothing {
        if redoDir != Out {
          return;
        }
        DoRedo();
        if toRedo != Nothing || hasError {
          return;
        }
      }
      WriteAndRead();
    }

    method Output()
      modifies this
      ensures St() == old(OnOut(St()))
    {
      hide FirstOutput, Connected;
      if hasError {
        return;
      }
      var first := waitingForConnection;
      waitingForConnection := false;
      if first && client {
        OutputFirst();
      } else {
        OutputConnected();
      }
    }

    /** The first output of a client starts the handshake. */
    method OutputFirst()
      modifies this
      ensures St() == old(FirstOutput(St()))
    {
      hide HandshakeLoop, Connected;
      DoHandshake();
      if toRedo != Nothing || hasError {
        return;
      }
      OutputConnected();
    }

    /** One entry of epoll, as the loop hands it to the connection. */
    method Handle(out: bool, inp: bool, hup: bool, pending: bool)
      modifies this
      ensures St() == old(Dispatch(St(), out, inp, hup, pending))
    {
      hide OnOut, OnInp, Fail;
      if nextDel {
        return;
      }
      if out {
        Output();
        if wantCloseFd && waitingSends == [] {
          EventDel(pending);
        }
      }
      if inp && !wantCloseFd && !nextDel {
        Input();
      }
      if hup {
        log := log + [HangUp];
        Error();
      }
    }

    /** Any sequence of events and requests keeps the invariant, and is the run of the specification. */
    method Serve(steps: seq<Step>)
      requires Inv(St())
      modifies this
      ensures St() == old(Run(St(), steps)) && Inv(St())
    {
      hide Inv, Dispatch, Act, CloseFd;
      var i := 0;
      assert steps[0..] == steps;
      while i < |steps|
        invariant 0 <= i <= |steps| && Inv(St())
        invariant Run(St(), steps[i..]) == old(Run(St(), steps))
      {
        assert steps[i..][0] == steps[i] && steps[i..][1..] == steps[i + 1..];
        StepKeeps(St(), steps[i]);
        match steps[i] {
          case Call(action) => Perform(action);
          case Timeout(pending) => CloseDescriptor(pending);
          case Events(out, inp, hup, pending) => Handle(out, inp, hup, pending);
        }
        i := i + 1;
      }
    }
  }
}
