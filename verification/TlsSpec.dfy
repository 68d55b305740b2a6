/**
  The TLS connection as a state machine over an OpenSSL that may answer
  anything.  Its answers come from a script; when the script is used up,
  OpenSSL asks for more input, so every finite script stands for a run.
*/
module TlsSpec {

  type Message = seq<int>

  /** What SSL_get_error, and errno, say after a call. */
  datatype Verdict =
    | Done | WantRead | WantWrite | ZeroReturn | Interrupted | SysNoError | SysError | Fatal

  /** What the user may ask: send, close, or del, for which `pending` is what SIOCOUTQ says. */
  datatype Action = SendMsg(m: Message) | CloseIt | DelIt(pending: bool)

  /**
    One answer.  `pending` is what SIOCOUTQ says if the call ends the connection, `trusted` the verdict on
    the certificate, and `actions` what the user's `parse` asks of this connection.
  */
  datatype Answer = Answer(verdict: Verdict, pending: bool, trusted: bool, actions: seq<Action>)

  datatype ToRedo = Nothing | Handshake | Read | Write | Shutdown

  datatype Direction = Inp | Out

  /** What an observer of OpenSSL and of the user sees. */
  datatype Call =
    | Accepted(m: Message)                    // send took the message
    | SslWrite(m: Message, verdict: Verdict, direct: bool)    // direct: from send itself, not from the queue
    | SslShutdown(verdict: Verdict, queued: nat)
    | SslHandshake(verdict: Verdict)
    | SslRead(verdict: Verdict, client: bool, trusted: bool, open: bool)   // open: nothing has ended it yet
    | Parse
    | HangUp                                  // epoll reports an error or a hang-up
    | Failure                                 // has_error is set

  datatype Conn = Conn(
    client: bool,
    waitingForConnection: bool,
    queue: seq<Message>,        // waiting_sends
    toRedo: ToRedo,
    redoDir: Direction,
    handshakeDone: bool,
    wantShutdown: bool,
    startedShutdown: bool,
    hasWaitingInp: bool,
    wantClose: bool,            // want_close_fd
    hasError: bool,
    inDel: bool,                // next_del is set
    inWait: bool,               // next_wait_out is set
    script: seq<Answer>,
    log: seq<Call>)

  const DEFAULT := Answer(WantRead, false, true, [])

  function NextAnswer(c: Conn): Answer {
    if c.script == [] then DEFAULT else c.script[0]
  }

  /** The connection after one call of OpenSSL, seen as `call`. */
  function Asked(c: Conn, call: Call): (r: Conn)
    ensures |r.script| <= |c.script| && (c.script != [] ==> |r.script| < |c.script|)
    ensures r.client == c.client && r.queue == c.queue && r.log == c.log + [call]
  {
    c.(script := if c.script == [] then [] else c.script[1..], log := c.log + [call])
  }

  // ----- ending the connection (Event::del, Event::close_fd and the error paths)

  function Del(c: Conn, pending: bool): (r: Conn)
    ensures r.client == c.client && r.log == c.log
  {
    if !c.hasError && pending then c.(inWait := true) else c.(inDel := true)
  }

  function CloseFd(c: Conn, pending: bool): Conn {
    if c.hasError then Del(c, pending)
    else if c.wantClose then c
    else
      var c' := c.(wantClose := true);
      if c'.queue == [] then Del(c', pending) else c'
  }

  /** sys_error, ssl_error, on_rd_hup, on_hup and error. */
  function Fail(c: Conn): (r: Conn)
    ensures r.client == c.client && r.log == c.log + [Failure]
  {
    CloseFd(c.(hasError := true, log := c.log + [Failure]), false)
  }

  function Wait(c: Conn, what: ToRedo, dir: Direction): Conn {
    c.(toRedo := what, redoDir := dir)
  }

  // ----- the calls of OpenSSL

  /** The end of a `send` that went straight to SSL_write. */
  function AfterSend(c: Conn, m: Message, v: Verdict): (r: Conn)
    ensures r.script == c.script && r.client == c.client && c.log <= r.log
  {
    match v
    case Done => c.(toRedo := Nothing)
    case WantRead => Wait(c.(queue := c.queue + [m]), Write, Inp)
    case WantWrite => Wait(c.(queue := c.queue + [m]), Write, Out)
    case SysNoError => c
    case _ => Fail(c)
  }

  function SendLoop(c: Conn, m: Message): (r: Conn)
    ensures |r.script| <= |c.script| && r.client == c.client && c.log <= r.log
    decreases |c.script|
  {
    var v := NextAnswer(c).verdict;
    var c' := Asked(c, SslWrite(m, v, true));
    if v == Interrupted then SendLoop(c', m) else AfterSend(c', m, v)
  }

  function Send(c: Conn, m: Message): (r: Conn)
    ensures |r.script| <= |c.script| && r.client == c.client && c.log <= r.log
  {
    if |m| == 0 || c.hasError || c.wantClose || c.wantShutdown || c.inDel then c
    else
      var c' := c.(log := c.log + [Accepted(m)]);
      if c'.waitingForConnection || c'.queue != [] || c'.toRedo != Nothing then c'.(queue := c'.queue + [m])
      else SendLoop(c', m)
  }

  function ShutdownRefused(c: Conn, v: Verdict): (r: Conn)
    ensures r.script == c.script && r.client == c.client && c.log <= r.log
  {
    match v
    case SysNoError => c
    case Fatal => Fail(c.(wantClose := true))
    case _ => Fail(c)
  }

  function AfterShutdown(c: Conn, a: Answer): (r: Conn)
    ensures r.script == c.script && r.client == c.client && c.log <= r.log
  {
    match a.verdict
    case Done => CloseFd(c.(toRedo := Nothing), a.pending)
    case WantRead => Wait(c, Shutdown, Inp)
    case WantWrite => Wait(c, Shutdown, Out)
    case _ => ShutdownRefused(c, a.verdict)
  }

  function ShutdownLoop(c: Conn): (r: Conn)
    ensures |r.script| <= |c.script| && r.client == c.client && c.log <= r.log
    decreases |c.script|
  {
    var a := NextAnswer(c);
    var c' := Asked(c, SslShutdown(a.verdict, |c.queue|));
    if a.verdict == Interrupted then ShutdownLoop(c') else AfterShutdown(c', a)
  }

  function Close(c: Conn): (r: Conn)
    ensures |r.script| <= |c.script| && r.client == c.client && c.log <= r.log
  {
    if c.hasError || c.wantShutdown then c
    else
      var c' := c.(wantShutdown := true);
      if !c'.waitingForConnection && c'.queue == [] then ShutdownLoop(c'.(startedShutdown := true)) else c'
  }

  function AfterHandshake(c: Conn, v: Verdict): (r: Conn)
    ensures r.script == c.script && r.client == c.client && c.log <= r.log
  {
    match v
    case Done => c.(toRedo := Nothing)
    case WantRead => Wait(c, Handshake, Inp)
    case WantWrite => Wait(c, Handshake, Out)
    case _ => Fail(c)
  }

  function HandshakeLoop(c: Conn): (r: Conn)
    ensures |r.script| <= |c.script| && r.client == c.client && c.log <= r.log
    decreases |c.script|
  {
    var v := NextAnswer(c).verdict;
    var c' := Asked(c, SslHandshake(v));
    if v == Interrupted then HandshakeLoop(c') else AfterHandshake(c', v)
  }

  /** The end of a write loop that OpenSSL stopped. */
  function AfterWrite(c: Conn, v: Verdict): (r: Conn)
    ensures r.script == c.script && r.client == c.client && c.log <= r.log
  {
    match v
    case WantRead => Wait(c, Write, Inp)
    case WantWrite => Wait(c, Write, Out)
    case _ => Fail(c)
  }

  function WriteLoop(c: Conn): (r: Conn)
    ensures |r.script| <= |c.script| && r.client == c.client && c.log <= r.log
    decreases |c.script|
  {
    hide AfterWrite, Asked;
    if c.queue == [] then c
    else
      var v := NextAnswer(c).verdict;
      var c' := Asked(c, SslWrite(c.queue[0], v, false));
      if v == Done then WriteLoop(c'.(queue := c'.queue[1..], toRedo := Nothing))
      else if v == Interrupted then WriteLoop(c')
      else AfterWrite(c', v)
  }

  function Act(c: Conn, action: Action): (r: Conn)
    ensures |r.script| <= |c.script| && r.client == c.client && c.log <= r.log
  {
    match action
    case SendMsg(m) => Send(c, m)
    case CloseIt => Close(c)
    case DelIt(pending) => Del(c, pending)
  }

  /** What the user's `parse` does with the connection. */
  function Acts(c: Conn, actions: seq<Action>): (r: Conn)
    ensures |r.script| <= |c.script| && r.client == c.client && c.log <= r.log
    decreases |actions|
  {
    if actions == [] then c else Acts(Act(c, actions[0]), actions[1..])
  }

  /** The certificate is refused: ssl_error inside the check, then again by its caller. */
  function Refused(c: Conn): (r: Conn)
    ensures r.script == c.script && r.client == c.client && c.log <= r.log
  {
    CloseFd(Fail(c).(hasError := true), false)
  }

  /** The user has not ended the connection, and no error has. */
  predicate Open(c: Conn) {
    !c.wantClose && !c.inDel && !c.wantShutdown
  }

  /** Data for the user's parser, unless the connection is ending. */
  function Parsed(c: Conn, actions: seq<Action>): (r: Conn)
    ensures |r.script| <= |c.script| && r.client == c.client && c.log <= r.log
  {
    var d := c.(toRedo := Nothing);
    if Open(d) then Acts(d.(log := d.log + [Parse]), actions) else d
  }

  /** What follows a successful SSL_read: the certificate check of a client, then the user's parser. */
  function Received(c: Conn, a: Answer): (r: Conn)
    ensures |r.script| <= |c.script| && r.client == c.client && c.log <= r.log
  {
    if c.client && !c.handshakeDone then
      var c' := c.(handshakeDone := true);
      if a.trusted then Parsed(c', a.actions) else Refused(c')
    else Parsed(c, a.actions)
  }

  /** The end of a read loop. */
  function AfterRead(c: Conn, v: Verdict): (r: Conn)
    ensures r.script == c.script && r.client == c.client && c.log <= r.log
  {
    match v
    case WantRead => Wait(c, Read, Inp)
    case WantWrite => Wait(c, Read, Out)
    case SysNoError => c
    case _ => Fail(c)
  }

  function ReadCall(c: Conn, a: Answer): Call {
    SslRead(a.verdict, c.client, a.trusted, Open(c))
  }

  function ReadLoop(c: Conn): (r: Conn)
    ensures |r.script| <= |c.script| && r.client == c.client && c.log <= r.log
    decreases |c.script|
  {
    var a := NextAnswer(c);
    var c' := Asked(c, ReadCall(c, a));
    if a.verdict == Done then ReadLoop(Received(c', a))
    else if a.verdict == Interrupted then ReadLoop(c')
    else AfterRead(c', a.verdict)
  }

  function Redo(c: Conn): (r: Conn)
    ensures |r.script| <= |c.script| && r.client == c.client && c.log <= r.log
  {
    match c.toRedo
    case Nothing => c
    case Handshake => HandshakeLoop(c)
    case Read => ReadLoop(c)
    case Write => WriteLoop(c)
    case Shutdown => ShutdownLoop(c)
  }

  // ----- the events of the loop

  predicate Stops(c: Conn) {
    c.toRedo != Nothing || c.hasError
  }

  function MayShutdown(c: Conn): (r: Conn)
    ensures |r.script| <= |c.script| && r.client == c.client && c.log <= r.log
  {
    if c.wantShutdown && !c.startedShutdown && c.queue == [] then ShutdownLoop(c.(startedShutdown := true)) else c
  }

  function ReadThenWrite(c: Conn): (r: Conn)
    ensures |r.script| <= |c.script| && r.client == c.client && c.log <= r.log
  {
    var c1 := ReadLoop(c);
    if Stops(c1) then c1
    else
      var c2 := WriteLoop(c1);
      if Stops(c2) then c2 else MayShutdown(c2)
  }

  function RedoThenRead(c: Conn): (r: Conn)
    ensures |r.script| <= |c.script| && r.client == c.client && c.log <= r.log
  {
    hide Redo, WriteLoop, ReadThenWrite;
    var c1 := Redo(c);
    if Stops(c1) then c1
    else
      var c2 := WriteLoop(c1);
      if Stops(c2) then c2 else ReadThenWrite(c2)
  }

  function OnInp(c: Conn): (r: Conn)
    ensures |r.script| <= |c.script| && r.client == c.client && c.log <= r.log
  {
    if c.hasError then c
    else if c.toRedo == Nothing then ReadThenWrite(c)
    else if c.redoDir == Inp then RedoThenRead(c)
    else c.(hasWaitingInp := true)
  }

  function WriteThenRead(c: Conn): (r: Conn)
    ensures |r.script| <= |c.script| && r.client == c.client && c.log <= r.log
  {
    var c1 := WriteLoop(c);
    if c1.toRedo != Nothing then c1
    else if c1.hasWaitingInp then
      var c2 := OnInp(c1.(hasWaitingInp := false));
      if Stops(c2) then c2 else MayShutdown(c2)
    else MayShutdown(c1)
  }

  /** on_out, once the handshake is not in the way. */
  function Connected(c: Conn): (r: Conn)
    ensures |r.script| <= |c.script| && r.client == c.client && c.log <= r.log
  {
    if c.toRedo == Nothing then WriteThenRead(c)
    else if c.redoDir != Out then c
    else
      var c' := Redo(c);
      if Stops(c') then c' else WriteThenRead(c')
  }

  function FirstOutput(c: Conn): (r: Conn)
    ensures |r.script| <= |c.script| && r.client == c.client && c.log <= r.log
  {
    var c' := HandshakeLoop(c);
    if Stops(c') then c' else Connected(c')
  }

  function OnOut(c: Conn): (r: Conn)
    ensures |r.script| <= |c.script| && r.client == c.client && c.log <= r.log
  {
    if c.hasError then c
    else
      var c1 := c.(waitingForConnection := false);
      if c.waitingForConnection && c.client then FirstOutput(c1) else Connected(c1)
  }

  /** What the loop does with one epoll entry; `pending` answers the SIOCOUTQ of the closing check. */
  function Dispatch(c: Conn, out: bool, inp: bool, hup: bool, pending: bool): (r: Conn)
    ensures r.client == c.client && c.log <= r.log
  {
    hide OnOut, OnInp, Del, Fail;
    if c.inDel then c
    else
      var c1 := if out then OnOut(c) else c;
      var c2 := if out && c1.wantClose && c1.queue == [] then Del(c1, pending) else c1;
      var c3 := if inp && !c2.wantClose && !c2.inDel then OnInp(c2) else c2;
      if hup then Fail(c3.(log := c3.log + [HangUp])) else c3
  }

  datatype Step =
    | Call(action: Action)
    | Events(out: bool, inp: bool, hup: bool, pending: bool)
    | Timeout(pending: bool)

  function Apply(c: Conn, step: Step): (r: Conn)
    ensures r.client == c.client && c.log <= r.log
  {
    match step
    case Call(action) => Act(c, action)
    case Events(out, inp, hup, pending) => Dispatch(c, out, inp, hup, pending)
    case Timeout(pending) => CloseFd(c, pending)
  }

  function Run(c: Conn, steps: seq<Step>): (r: Conn)
    ensures r.client == c.client && c.log <= r.log
    decreases |steps|
  {
    if steps == [] then c else Run(Apply(c, steps[0]), steps[1..])
  }

  function Fresh(client: bool, script: seq<Answer>): Conn {
    Conn(client, client, [], Nothing, Inp, false, false, false, false, false, false, false, false, script, [])
  }
}
