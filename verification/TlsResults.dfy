/** The rules of the TLS connection read off the log of an arbitrary run. */
module TlsResults {
  import opened Prelude
  import opened TlsSpec
  import opened TlsTheorems

  /** The log of a run of a new connection, whatever the events, the user and OpenSSL do. */
  function Log(client: bool, script: seq<Answer>, steps: seq<Step>): seq<Call> {
    Run(Fresh(client, script), steps).log
  }

  lemma LogSeen(client: bool, script: seq<Answer>, steps: seq<Step>)
    ensures Inv(Run(Fresh(client, script), steps))
    ensures See(Log(client, script, steps)).ok
  {
    RunKeeps(Fresh(client, script), steps);
  }

  // ----- what an observed log looks like when no rule was broken

  lemma WatchGrows(s: Seen, call: Call)
    ensures Watch(s, call).ok ==> s.ok
    ensures s.shut ==> Watch(s, call).shut
    ensures s.failed ==> Watch(s, call).failed
  {
  }

  /** What the observer knows only grows, and a broken rule is never forgiven. */
  lemma {:induction false} SeeGrows(log: seq<Call>, i: nat)
    requires i <= |log|
    ensures See(log).ok ==> See(log[..i]).ok
    ensures See(log[..i]).shut ==> See(log).shut
    ensures See(log[..i]).failed ==> See(log).failed
    decreases |log|
  {
    hide Watch;
    if i == |log| {
      assert log[..i] == log;
    } else {
      var init := log[..|log| - 1];
      assert init[..i] == log[..i];
      WatchGrows(See(init), log[|log| - 1]);
      SeeGrows(init, i);
    }
  }

  lemma SeeAt(log: seq<Call>, i: nat)
    requires i < |log| && See(log).ok
    ensures See(log[..i + 1]) == Watch(See(log[..i]), log[i]) && See(log[..i + 1]).ok && See(log[..i]).ok
  {
    hide Watch;
    assert log[..i + 1] == log[..i] + [log[i]];
    SeeOne(log[..i], log[i]);
    SeeGrows(log, i + 1);
    SeeGrows(log, i);
  }

  /** What was known after entry `i` is known before entry `j`. */
  lemma SeeBetween(log: seq<Call>, i: nat, j: nat)
    requires i < j < |log| && See(log).ok
    ensures See(log[..i + 1]).shut ==> See(log[..j]).shut
    ensures See(log[..i + 1]).failed ==> See(log[..j]).failed
  {
    hide See;
    assert log[..j][..i + 1] == log[..i + 1];
    SeeGrows(log[..j], i + 1);
  }

  lemma {:induction false} AgainStays(log: seq<Call>, i: nat, j: nat)
    requires i < j <= |log| && See(log).ok && log[i].SslWrite? && Retries(log[i].verdict)
    requires forall k | i < k < j :: !log[k].SslWrite?
    ensures See(log[..j]).again == Some(log[i].m)
    decreases j
  {
    hide See, Watch, Retries;
    SeeAt(log, j - 1);
    WatchAgain(See(log[..j - 1]), log[j - 1]);
    if j > i + 1 {
      AgainStays(log, i, j - 1);
    }
  }

  lemma WatchAgain(s: Seen, call: Call)
    ensures !call.SslWrite? ==> Watch(s, call).again == s.again
    ensures call.SslWrite? && Retries(call.verdict) ==> Watch(s, call).again == Some(call.m)
  {
    hide Refuses, Ends, Retries, Demand, Calm;
    match call
    case Accepted(_) =>
    case SslWrite(_, _, _) =>
    case SslShutdown(_, _) =>
    case SslHandshake(_) =>
    case SslRead(_, _, _, _) =>
    case Parse =>
    case HangUp =>
    case Failure =>
  }

  lemma LastInLog(log: seq<Call>, i: nat, j: nat)
    requires i < j < |log| && See(log).ok && log[i].SslShutdown?
    ensures log[i].queued == 0 && !log[j].SslWrite? && !log[j].Accepted? && !log[j].Parse?
  {
    hide See;
    SeeAt(log, i);
    SeeAt(log, j);
    SeeBetween(log, i, j);
  }

  lemma FinalInLog(log: seq<Call>, i: nat, j: nat)
    requires i < j < |log| && See(log).ok && log[i] == Failure
    ensures !log[j].SslWrite? && !log[j].Accepted? && !log[j].Parse? && !log[j].SslShutdown? && !log[j].SslHandshake?
  {
    hide See;
    SeeAt(log, i);
    SeeAt(log, j);
    SeeBetween(log, i, j);
  }

  /** The observer knows of a successful SSL_read exactly when there was one. */
  lemma {:induction false} ReadsSeen(log: seq<Call>)
    ensures See(log).read <==> exists i | 0 <= i < |log| :: IsData(log[i])
    decreases |log|
  {
    hide Watch, IsData;
    if log != [] {
      var init, last := log[..|log| - 1], log[|log| - 1];
      ReadsSeen(init);
      assert forall i | 0 <= i < |init| :: init[i] == log[i];
      WatchReads(See(init), last);
    }
  }

  lemma WatchReads(s: Seen, call: Call)
    ensures Watch(s, call).read <==> s.read || IsData(call)
    ensures Watch(s, call).asClient <==> s.asClient || (call.SslRead? && call.client)
    ensures Watch(s, call).asServer <==> s.asServer || (call.SslRead? && !call.client)
    ensures Watch(s, call).next == (
      if call.SslRead? then Demand(s.read, call.verdict, call.client, call.trusted, call.open)
      else if call == Parse || call == Failure then Free else s.next)
    ensures Watch(s, call).ok ==>
      && (s.next == MustParse ==> call == Parse)
      && (s.next == MustFail ==> call == Failure)
      && (s.next == MustRead ==> call.SslRead?)
      && (call == Parse ==> s.next == MustParse)
  {
    hide Refuses, Ends, Retries, Demand;
    match call
    case Accepted(_) =>
    case SslWrite(_, _, _) =>
    case SslShutdown(_, _) =>
    case SslHandshake(_) =>
    case SslRead(_, _, _, _) =>
    case Parse =>
    case HangUp =>
    case Failure =>
  }

  predicate IsData(call: Call) {
    call.SslRead? && call.verdict == Done
  }

  /** What an entry demands is what comes next, if the log ends in peace. */
  lemma DemandMet(log: seq<Call>, i: nat)
    requires i < |log| && See(log).ok && See(log).next == Free
    ensures See(log[..i + 1]).next == MustParse ==> i + 1 < |log| && log[i + 1] == Parse
    ensures See(log[..i + 1]).next == MustFail ==> i + 1 < |log| && log[i + 1] == Failure
    ensures See(log[..i + 1]).next == MustRead ==> i + 1 < |log| && log[i + 1].SslRead?
  {
    hide See, Watch;
    if i + 1 < |log| {
      SeeAt(log, i + 1);
      WatchReads(See(log[..i + 1]), log[i + 1]);
    } else {
      assert log[..i + 1] == log;
    }
  }

  /** The side that an SSL_read notes is the side of the connection. */
  lemma {:induction false} SidesSeen(log: seq<Call>, i: nat)
    requires i < |log| && log[i].SslRead?
    ensures if log[i].client then See(log).asClient else See(log).asServer
    decreases |log|
  {
    hide Watch;
    WatchReads(See(log[..|log| - 1]), log[|log| - 1]);
    if i < |log| - 1 {
      SidesSeen(log[..|log| - 1], i);
    }
  }

  /** What a successful SSL_read demands. */
  lemma DemandOf(log: seq<Call>, i: nat)
    requires i < |log| && See(log).ok && log[i].SslRead?
    ensures See(log[..i + 1]).next
         == Demand(exists k | 0 <= k < i :: IsData(log[k]), log[i].verdict, log[i].client, log[i].trusted, log[i].open)
  {
    hide See, Watch, Demand;
    SeeAt(log, i);
    WatchReads(See(log[..i]), log[i]);
    ReadsSeen(log[..i]);
    assert forall k | 0 <= k < i :: log[..i][k] == log[k];
  }

  lemma SeeEmpty()
    ensures See([]).next == Free
  {
  }

  /** The certificate is looked at at the first successful SSL_read of a client. */
  ghost predicate FirstData(log: seq<Call>, i: nat)
    requires i < |log|
  {
    IsData(log[i]) && forall k | 0 <= k < i :: !IsData(log[k])
  }

  /** There is no data for the parser before the first successful SSL_read. */
  lemma ParseNeedsData(log: seq<Call>, j: nat)
    requires j < |log| && See(log).ok && log[j] == Parse
    ensures j > 0 && IsData(log[j - 1]) && log[j - 1].open
  {
    hide See, Watch;
    SeeAt(log, j);
    WatchReads(See(log[..j]), log[j]);
    if j > 0 {
      SeeAt(log, j - 1);
      WatchReads(See(log[..j - 1]), log[j - 1]);
      assert log[..j - 1 + 1] == log[..j];
    } else {
      assert log[..0] == [];
      SeeEmpty();
    }
  }

  // ----- the runs

  /** An SSL_write that has to be repeated is repeated with the same message before any other is tried. */
  lemma RetrySameMessage(client: bool, script: seq<Answer>, steps: seq<Step>, i: nat, j: nat)
    requires var log := Log(client, script, steps);
      && i < j < |log| && log[i].SslWrite? && Retries(log[i].verdict) && log[j].SslWrite?
      && forall k | i < k < j :: !log[k].SslWrite?
    ensures Log(client, script, steps)[j].m == Log(client, script, steps)[i].m
  {
    hide Run, See, Inv;
    var log := Log(client, script, steps);
    LogSeen(client, script, steps);
    AgainStays(log, i, j);
    SeeAt(log, j);
  }

  /** Such a message is the head of the queue until it is. */
  lemma RetryIsQueued(client: bool, script: seq<Answer>, steps: seq<Step>, i: nat)
    requires var log := Log(client, script, steps);
      && i < |log| && log[i].SslWrite? && Retries(log[i].verdict)
      && forall k | i < k < |log| :: !log[k].SslWrite?
    ensures var c := Run(Fresh(client, script), steps);
      c.queue != [] && c.queue[0] == c.log[i].m
  {
    hide Run, See;
    var log := Log(client, script, steps);
    LogSeen(client, script, steps);
    AgainStays(log, i, |log|);
    assert log[..|log|] == log;
  }

  /** SSL_shutdown comes with nothing left to write, and nothing is accepted, written or parsed after it. */
  lemma ShutdownIsLast(client: bool, script: seq<Answer>, steps: seq<Step>, i: nat, j: nat)
    requires var log := Log(client, script, steps); i < j < |log| && log[i].SslShutdown?
    ensures var log := Log(client, script, steps);
      log[i].queued == 0 && !log[j].SslWrite? && !log[j].Accepted? && !log[j].Parse?
  {
    hide Run, See, Inv;
    LogSeen(client, script, steps);
    LastInLog(Log(client, script, steps), i, j);
  }

  /** After an error nothing but SSL_read is called any more, and nothing is parsed. */
  lemma FailureIsFinal(client: bool, script: seq<Answer>, steps: seq<Step>, i: nat, j: nat)
    requires var log := Log(client, script, steps); i < j < |log| && log[i] == Failure
    ensures var log := Log(client, script, steps);
      log[j].SslRead? || log[j] == HangUp || log[j] == Failure
  {
    hide Run, See, Inv;
    var log := Log(client, script, steps);
    LogSeen(client, script, steps);
    FinalInLog(log, i, j);
  }

  /** The reads of a run are on its own side of the connection, and nothing is demanded at its end. */
  lemma RunSides(client: bool, script: seq<Answer>, steps: seq<Step>, i: nat)
    requires i < |Log(client, script, steps)|
    ensures var log := Log(client, script, steps);
      See(log).next == Free && (log[i].SslRead? ==> log[i].client == client)
  {
    hide Run, See;
    var c := Run(Fresh(client, script), steps);
    LogSeen(client, script, steps);
    if c.log[i].SslRead? {
      SidesSeen(c.log, i);
    }
  }

  /** A client whose first data comes with a certificate that is refused has an error at once, and parses nothing. */
  lemma RefusedPeer(script: seq<Answer>, steps: seq<Step>, i: nat, j: nat)
    requires var log := Log(true, script, steps);
      i < |log| && FirstData(log, i) && !log[i].trusted && j < |log|
    ensures var log := Log(true, script, steps);
      i + 1 < |log| && log[i + 1] == Failure && log[j] != Parse
  {
    hide Run, See, Inv;
    var log := Log(true, script, steps);
    LogSeen(true, script, steps);
    RunSides(true, script, steps, i);
    DemandOf(log, i);
    DemandMet(log, i);
    if log[j] == Parse {
      ParseNeedsData(log, j);
      FinalInLog(log, i + 1, j);
    }
  }

  /**
    What is read on a connection that is not ending goes to the parser at once, unless it is the first
    data of a client and comes with a certificate that is refused; and nothing else goes there.
  */
  lemma ParseFollows(client: bool, script: seq<Answer>, steps: seq<Step>, i: nat)
    requires i < |Log(client, script, steps)|
    ensures var log := Log(client, script, steps);
      i + 1 < |log| && log[i + 1] == Parse <==>
      IsData(log[i]) && log[i].open && !(client && FirstData(log, i) && !log[i].trusted)
  {
    hide Run, See, Inv;
    var log := Log(client, script, steps);
    LogSeen(client, script, steps);
    RunSides(client, script, steps, i);
    if log[i].SslRead? {
      DemandOf(log, i);
      DemandMet(log, i);
    }
    if i + 1 < |log| && log[i + 1] == Parse {
      ParseNeedsData(log, i + 1);
      SeeAt(log, i + 1);
    }
  }

  /** An error on an installed connection has put it on the list of events to delete. */
  lemma ErrorMeansDeleted(client: bool, script: seq<Answer>, steps: seq<Step>)
    ensures var c := Run(Fresh(client, script), steps); c.hasError ==> c.inDel
  {
    LogSeen(client, script, steps);
  }

  /** An SSL_write that `send` itself made was refused. */
  ghost predicate RefusedDirectly(log: seq<Call>) {
    exists m, v | Refuses(v) :: SslWrite(m, v, true) in log
  }

  /** An SSL_write failed without an error code. */
  ghost predicate FailedSilently(log: seq<Call>) {
    exists m, direct :: SslWrite(m, SysNoError, direct) in log
  }

  lemma {:induction false} WritesSeen(log: seq<Call>)
    ensures See(log).dropped <==> exists i | 0 <= i < |log| :: IsDrop(log[i])
    ensures See(log).hard <==> exists i | 0 <= i < |log| :: IsEnd(log[i])
    decreases |log|
  {
    hide Refuses, Ends;
    if log != [] {
      var init, last := log[..|log| - 1], log[|log| - 1];
      WritesSeen(init);
      assert forall i | 0 <= i < |init| :: init[i] == log[i];
      WatchWrites(See(init), last);
    }
  }

  predicate IsDrop(call: Call) {
    call.SslWrite? && call.direct && Refuses(call.verdict)
  }

  predicate IsEnd(call: Call) {
    call.SslWrite? && Ends(call.verdict, call.direct)
  }

  lemma WatchWrites(s: Seen, call: Call)
    ensures Watch(s, call).dropped <==> s.dropped || IsDrop(call)
    ensures Watch(s, call).hard <==> s.hard || IsEnd(call)
  {
    hide Refuses, Ends, Retries, Demand, Calm;
    match call
    case Accepted(_) =>
    case SslWrite(_, _, _) =>
    case SslShutdown(_, _) =>
    case SslHandshake(_) =>
    case SslRead(_, _, _, _) =>
    case Parse =>
    case HangUp =>
    case Failure =>
  }

  lemma DropsInLog(log: seq<Call>)
    ensures See(log).dropped <==> RefusedDirectly(log)
    ensures !See(log).hard ==> (See(log).dropped <==> FailedSilently(log))
  {
    hide See;
    WritesSeen(log);
    if i :| 0 <= i < |log| && IsDrop(log[i]) {
      assert log[i] == SslWrite(log[i].m, log[i].verdict, true);
      assert SslWrite(log[i].m, log[i].verdict, true) in log;
    }
    if m, v :| Refuses(v) && SslWrite(m, v, true) in log {
      var i :| 0 <= i < |log| && log[i] == SslWrite(m, v, true);
      assert IsDrop(log[i]);
    }
    if !See(log).hard {
      if m, direct :| SslWrite(m, SysNoError, direct) in log {
        var i :| 0 <= i < |log| && log[i] == SslWrite(m, SysNoError, direct);
        assert !IsEnd(log[i]);
        assert IsDrop(log[i]);
      }
      if i :| 0 <= i < |log| && IsDrop(log[i]) {
        assert !IsEnd(log[i]);
        assert SslWrite(log[i].m, SysNoError, true) in log;
      }
    }
  }

  /**
    What was written followed by what is queued is all that send took, in order, exactly when no SSL_write
    that send itself made was refused; if one was, its message is missing and the order of the others is kept.
  */
  lemma OrderKept(client: bool, script: seq<Answer>, steps: seq<Step>)
    ensures var c := Run(Fresh(client, script), steps);
      var s := See(c.log);
      && s.sent + c.queue == s.kept
      && (s.sent + c.queue == s.accepted <==> !RefusedDirectly(c.log))
  {
    hide RefusedDirectly, FailedSilently;
    LogSeen(client, script, steps);
    DropsInLog(Log(client, script, steps));
  }

  /** On a connection without an error: nothing was dropped exactly when no SSL_write failed without an error code. */
  lemma NothingDropped(client: bool, script: seq<Answer>, steps: seq<Step>)
    requires !Run(Fresh(client, script), steps).hasError
    ensures var c := Run(Fresh(client, script), steps);
      See(c.log).sent + c.queue == See(c.log).accepted <==> !FailedSilently(c.log)
  {
    hide RefusedDirectly, FailedSilently;
    LogSeen(client, script, steps);
    DropsInLog(Log(client, script, steps));
  }

  /** ... and with one, send drops a message although the connection goes on: the law does not hold then. */
  lemma DroppedExample(m: Message)
    requires |m| > 0
    ensures var c := Run(Fresh(false, [Answer(SysNoError, false, true, [])]), [Call(SendMsg(m))]);
      !c.hasError && c.queue == [] && See(c.log).sent == [] && See(c.log).accepted == [m]
  {
    var c := Fresh(false, [Answer(SysNoError, false, true, [])]);
    var log := [Accepted(m), SslWrite(m, SysNoError, true)];
    assert Run(c, [Call(SendMsg(m))]) == Run(Send(c, m), []);
    assert Send(c, m).log == log;
    SeeOne([], Accepted(m));
    SeeOne([Accepted(m)], SslWrite(m, SysNoError, true));
    assert [] + [Accepted(m)] == [Accepted(m)];
    assert [Accepted(m)] + [SslWrite(m, SysNoError, true)] == log;
  }
}
