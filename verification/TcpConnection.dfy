/**
  The scatter write of the TCP connection: the queue of messages and the iovec
  array handed to sendmsg are kept in step over partial writes.
*/
module TcpConnection {

  type Bytes = seq<int>

  /** What one sendmsg does: it is interrupted, refuses for now, fails, or takes up to `n` bytes of what it is offered. */
  datatype Sys = Eintr | Again | Error | Took(n: nat)

  /** How on_out ends; `Overrun` is a read past the end of the iovec array. */
  datatype Outcome = Idle | AllSent | Blocked | HungUp | Overrun

  datatype Report = Report(sent: Bytes, queue: seq<Bytes>, outcome: Outcome)

  /** The stream that a queue of messages stands for. */
  function Flat(q: seq<Bytes>): Bytes {
    if q == [] then [] else q[0] + Flat(q[1..])
  }

  function Least(a: nat, b: nat): nat {
    if a <= b then a else b
  }

  /** The queue once the first `n` bytes are gone. */
  function Drop(q: seq<Bytes>, n: nat): (r: seq<Bytes>)
    requires n < |Flat(q)|
    ensures r != []
  {
    if n >= |q[0]| then Drop(q[1..], n - |q[0]|) else [q[0][n..]] + q[1..]
  }

  function Writes(q: seq<Bytes>, tot: nat, results: seq<Sys>): Report
    decreases |results|
  {
    if results == [] then Report([], q, Blocked)
    else
      match results[0]
      case Eintr => Writes(q, tot, results[1..])
      case Again => Report([], q, Blocked)
      case Error => Report([], q, HungUp)
      case Took(n) =>
        var took := Least(n, |Flat(q)|);
        if took == 0 then Report([], q, HungUp)
        else if took == tot then Report(Flat(q), [], AllSent)
        else if took == |Flat(q)| then Report(Flat(q), [], Overrun)
        else
          var r := Writes(Drop(q, took), tot, results[1..]);
          r.(sent := Flat(q)[..took] + r.sent)
  }

  function OnOutReport(q: seq<Bytes>, results: seq<Sys>): Report {
    if |Flat(q)| == 0 then Report([], q, Idle) else Writes(q, |Flat(q)|, results)
  }

  // ----- the stream is conserved

  lemma {:induction false} DropFlat(q: seq<Bytes>, n: nat)
    requires n < |Flat(q)|
    ensures Flat(Drop(q, n)) == Flat(q)[n..]
    decreases |q|
  {
    if n >= |q[0]| {
      DropFlat(q[1..], n - |q[0]|);
    } else {
      var r := [q[0][n..]] + q[1..];
      assert r[0] == q[0][n..] && r[1..] == q[1..];
    }
  }

  lemma {:induction false} WritesConserve(q: seq<Bytes>, tot: nat, results: seq<Sys>)
    ensures var r := Writes(q, tot, results); r.sent + Flat(r.queue) == Flat(q)
    decreases |results|
  {
    if results != [] {
      match results[0]
      case Eintr => WritesConserve(q, tot, results[1..]);
      case Took(n) =>
        var took := Least(n, |Flat(q)|);
        if 0 < took < |Flat(q)| && took != tot {
          DropFlat(q, took);
          WritesConserve(Drop(q, took), tot, results[1..]);
          assert Flat(q) == Flat(q)[..took] + Flat(q)[took..];
        }
      case _ =>
    }
  }

  /** Whatever sendmsg does, the bytes sent followed by the bytes still queued are the bytes that were queued. */
  lemma StreamConserved(q: seq<Bytes>, results: seq<Sys>)
    ensures var r := OnOutReport(q, results); r.sent + Flat(r.queue) == Flat(q)
    ensures OnOutReport(q, results).outcome == AllSent ==> OnOutReport(q, results).queue == []
  {
    if |Flat(q)| != 0 {
      WritesConserve(q, |Flat(q)|, results);
      DoneIsEmpty(q, |Flat(q)|, results);
    }
  }

  lemma {:induction false} DoneIsEmpty(q: seq<Bytes>, tot: nat, results: seq<Sys>)
    ensures Writes(q, tot, results).outcome == AllSent ==> Writes(q, tot, results).queue == []
    decreases |results|
  {
    if results != [] {
      match results[0]
      case Eintr => DoneIsEmpty(q, tot, results[1..]);
      case Took(n) =>
        var took := Least(n, |Flat(q)|);
        if 0 < took < |Flat(q)| && took != tot {
          DoneIsEmpty(Drop(q, took), tot, results[1..]);
        }
      case _ =>
    }
  }

  // ----- how on_out ends, said of the calls alone

  /** The bytes taken by the first `i` calls, if each of them was interrupted or took some but not all of what was left. */
  function Taken(left: nat, results: seq<Sys>, i: nat): (t: int)
    requires i <= |results|
    ensures -1 <= t && (left > 0 ==> t < left)
  {
    if i == 0 then 0
    else
      match results[0]
      case Eintr => Taken(left, results[1..], i - 1)
      case Took(n) =>
        if 0 < n < left then
          var t := Taken(left - n, results[1..], i - 1);
          if t < 0 then t else n + t
        else -1
      case _ => -1
  }

  /** A call that ends on_out when `left` bytes are to be taken. */
  predicate Ends(left: nat, call: Sys) {
    call == Again || call == Error || (call.Took? && (call.n == 0 || call.n >= left))
  }

  /** Call `i` is made, and is the last one; or there is no such call and all of them are made. */
  predicate LastCall(tot: nat, results: seq<Sys>, i: nat)
    requires tot > 0 && i <= |results|
  {
    var t := Taken(tot, results, i);
    t >= 0 && (i < |results| ==> Ends(tot - t, results[i]))
  }

  /** What call `i` takes of the `left` bytes. */
  function TakenLast(left: nat, results: seq<Sys>, i: nat): nat
    requires i <= |results|
  {
    if i < |results| && results[i].Took? then Least(results[i].n, left) else 0
  }

  /** Every script has a last call. */
  lemma {:induction false} SomeLast(left: nat, results: seq<Sys>) returns (i: nat)
    requires left > 0
    ensures i <= |results| && LastCall(left, results, i)
    decreases |results|
  {
    if results == [] || Ends(left, results[0]) {
      i := 0;
    } else {
      var k := SomeLast(if results[0] == Eintr then left else left - results[0].n, results[1..]);
      i := k + 1;
    }
  }

  /** What the report says of a last call, `done` bytes having been taken before on_out got to `left`. */
  ghost predicate Reports(r: Report, left: nat, done: nat, results: seq<Sys>, i: nat)
    requires left > 0 && i <= |results| && LastCall(left, results, i)
  {
    var t := Taken(left, results, i);
    && |r.sent| == t + TakenLast(left - t, results, i)
    && r.outcome == (
         if i == |results| || results[i] == Again then Blocked
         else if results[i] == Error || results[i].n == 0 then HungUp
         else if done + t == 0 then AllSent else Overrun)
  }

  lemma {:induction false} WritesEnd(q: seq<Bytes>, done: nat, results: seq<Sys>, i: nat)
    requires |Flat(q)| > 0 && i <= |results| && LastCall(|Flat(q)|, results, i)
    ensures Reports(Writes(q, done + |Flat(q)|, results), |Flat(q)|, done, results, i)
    decreases |results|
  {
    hide Flat, Drop, Writes, Reports, LastCall, Taken;
    var left := |Flat(q)|;
    if i == 0 {
      LastIsFirst(q, done, results);
    } else {
      LastLater(left, results, i);
      if results[0] == Eintr {
        WritesEnd(q, done, results[1..], i - 1);
        ReportsInterrupted(q, done, results, i);
      } else {
        var n := results[0].n;
        DropFlat(q, n);
        WritesEnd(Drop(q, n), done + n, results[1..], i - 1);
        ReportsShort(q, done, results, i);
      }
    }
  }

  lemma LastIsFirst(q: seq<Bytes>, done: nat, results: seq<Sys>)
    requires |Flat(q)| > 0 && LastCall(|Flat(q)|, results, 0)
    ensures Reports(Writes(q, done + |Flat(q)|, results), |Flat(q)|, done, results, 0)
  {
    hide Flat;
  }

  lemma LastLater(left: nat, results: seq<Sys>, i: nat)
    requires left > 0 && 0 < i <= |results| && LastCall(left, results, i)
    ensures results[0] == Eintr || (results[0].Took? && 0 < results[0].n < left)
    ensures var left' := if results[0] == Eintr then left else left - results[0].n;
      && LastCall(left', results[1..], i - 1)
      && Taken(left, results, i) == left - left' + Taken(left', results[1..], i - 1)
  {
  }

  lemma ReportsInterrupted(q: seq<Bytes>, done: nat, results: seq<Sys>, i: nat)
    requires |Flat(q)| > 0 && 0 < i <= |results| && LastCall(|Flat(q)|, results, i) && results[0] == Eintr
    requires LastCall(|Flat(q)|, results[1..], i - 1)
    requires Reports(Writes(q, done + |Flat(q)|, results[1..]), |Flat(q)|, done, results[1..], i - 1)
    ensures Reports(Writes(q, done + |Flat(q)|, results), |Flat(q)|, done, results, i)
  {
    hide Flat, LastCall;
  }

  lemma ReportsShort(q: seq<Bytes>, done: nat, results: seq<Sys>, i: nat)
    requires |Flat(q)| > 0 && 0 < i <= |results| && LastCall(|Flat(q)|, results, i)
    requires results[0].Took? && 0 < results[0].n < |Flat(q)|
    requires var n := results[0].n;
      && |Flat(Drop(q, n))| == |Flat(q)| - n
      && LastCall(|Flat(q)| - n, results[1..], i - 1)
      && Reports(Writes(Drop(q, n), done + |Flat(q)|, results[1..]), |Flat(q)| - n, done + n, results[1..], i - 1)
    ensures Reports(Writes(q, done + |Flat(q)|, results), |Flat(q)|, done, results, i)
  {
    hide Flat, Drop, Ends;
    assert |Flat(q)[..results[0].n]| == results[0].n;
  }

  /**
    The bytes sent are the first ones of the stream, as many as the calls took until on_out stopped: behind a
    call that is refused, fails or takes nothing, or one that takes all that is left.
  */
  lemma SentAre(q: seq<Bytes>, results: seq<Sys>, i: nat)
    requires |Flat(q)| > 0 && i <= |results| && LastCall(|Flat(q)|, results, i)
    ensures var tot, r := |Flat(q)|, OnOutReport(q, results);
      var t := Taken(tot, results, i);
      |r.sent| == t + TakenLast(tot - t, results, i) <= tot && r.sent == Flat(q)[..|r.sent|]
  {
    WritesEnd(q, 0, results, i);
    StreamConserved(q, results);
  }

  /** The first call that is not interrupted takes everything. */
  predicate TakesAll(tot: nat, results: seq<Sys>, i: nat)
    requires i < |results|
  {
    Taken(tot, results, i) == 0 && results[i].Took? && results[i].n >= tot
  }

  /** Call `i` comes after a short write and takes all that is left. */
  predicate TakesRest(tot: nat, results: seq<Sys>, i: nat)
    requires i < |results|
  {
    var t := Taken(tot, results, i);
    t > 0 && results[i].Took? && results[i].n >= tot - t
  }

  /** Call `i` is made, and fails or takes nothing. */
  predicate Breaks(tot: nat, results: seq<Sys>, i: nat)
    requires i < |results|
  {
    Taken(tot, results, i) >= 0 && (results[i] == Error || results[i] == Took(0))
  }

  /** Call `i` is made and refused for now. */
  predicate Refused(tot: nat, results: seq<Sys>, i: nat)
    requires i < |results|
  {
    Taken(tot, results, i) >= 0 && results[i] == Again
  }

  /** Nothing is taken before call `i` exactly when the calls before it are interrupted. */
  lemma {:induction false} TakenNothing(left: nat, results: seq<Sys>, i: nat)
    requires left > 0 && i <= |results|
    ensures Taken(left, results, i) == 0 <==> forall k | 0 <= k < i :: results[k] == Eintr
    decreases i
  {
    if i > 0 {
      assert forall k | 0 < k < i :: results[k] == results[1..][k - 1];
      assert forall k | 0 <= k < i - 1 :: results[1..][k] == results[k + 1];
      match results[0]
      case Eintr => TakenNothing(left, results[1..], i - 1);
      case _ => assert results[0] != Eintr;
    }
  }

  /** on_out has sent everything exactly when the first call that is not interrupted took everything. */
  lemma AllSentWhen(q: seq<Bytes>, results: seq<Sys>)
    requires |Flat(q)| > 0
    ensures OnOutReport(q, results).outcome == AllSent
       <==> exists i | 0 <= i < |results| :: TakesAll(|Flat(q)|, results, i)
  {
    hide Writes, Flat, Taken;
    var last := SomeLast(|Flat(q)|, results);
    WritesEnd(q, 0, results, last);
    if i :| 0 <= i < |results| && TakesAll(|Flat(q)|, results, i) {
      WritesEnd(q, 0, results, i);
    }
    assert OnOutReport(q, results).outcome == AllSent ==> TakesAll(|Flat(q)|, results, last);
  }

  /** on_out reads past its iovec array exactly when a call that follows a short write takes all that is left. */
  lemma OverrunWhen(q: seq<Bytes>, results: seq<Sys>)
    requires |Flat(q)| > 0
    ensures OnOutReport(q, results).outcome == Overrun
       <==> exists i | 0 <= i < |results| :: TakesRest(|Flat(q)|, results, i)
  {
    hide Writes, Flat, Taken;
    var last := SomeLast(|Flat(q)|, results);
    WritesEnd(q, 0, results, last);
    if i :| 0 <= i < |results| && TakesRest(|Flat(q)|, results, i) {
      WritesEnd(q, 0, results, i);
    }
    assert OnOutReport(q, results).outcome == Overrun ==> TakesRest(|Flat(q)|, results, last);
  }

  /** on_out hangs up exactly when a call that it makes fails or takes nothing. */
  lemma HungUpWhen(q: seq<Bytes>, results: seq<Sys>)
    requires |Flat(q)| > 0
    ensures OnOutReport(q, results).outcome == HungUp
       <==> exists i | 0 <= i < |results| :: Breaks(|Flat(q)|, results, i)
  {
    hide Writes, Flat, Taken;
    var last := SomeLast(|Flat(q)|, results);
    WritesEnd(q, 0, results, last);
    if i :| 0 <= i < |results| && Breaks(|Flat(q)|, results, i) {
      WritesEnd(q, 0, results, i);
    }
    assert OnOutReport(q, results).outcome == HungUp ==> Breaks(|Flat(q)|, results, last);
  }

  /** on_out is blocked exactly when a call that it makes is refused for now, or all calls are made and some bytes left. */
  lemma BlockedWhen(q: seq<Bytes>, results: seq<Sys>)
    requires |Flat(q)| > 0
    ensures OnOutReport(q, results).outcome == Blocked
       <==> (Taken(|Flat(q)|, results, |results|) >= 0
             || exists i | 0 <= i < |results| :: Refused(|Flat(q)|, results, i))
  {
    hide Writes, Flat, Taken;
    var last := SomeLast(|Flat(q)|, results);
    WritesEnd(q, 0, results, last);
    if i :| 0 <= i < |results| && Refused(|Flat(q)|, results, i) {
      WritesEnd(q, 0, results, i);
    }
    if Taken(|Flat(q)|, results, |results|) >= 0 {
      WritesEnd(q, 0, results, |results|);
    }
    assert OnOutReport(q, results).outcome == Blocked && last < |results| ==> Refused(|Flat(q)|, results, last);
  }

  // ----- the messages left

  /** `r` is what is left of `q`: some messages are gone and the one at their end may have lost its beginning. */
  ghost predicate LeftOf(q: seq<Bytes>, r: seq<Bytes>) {
    r == [] || (
      && |r| <= |q|
      && r[1..] == q[|q| - |r| + 1..]
      && |r[0]| <= |q[|q| - |r|]|
      && r[0] == q[|q| - |r|][|q[|q| - |r|]| - |r[0]|..])
  }

  lemma {:induction false} DropLeaves(q: seq<Bytes>, n: nat)
    requires n < |Flat(q)|
    ensures LeftOf(q, Drop(q, n)) && Drop(q, n)[0] != []
    decreases |q|
  {
    if n >= |q[0]| {
      DropLeaves(q[1..], n - |q[0]|);
      LeftOfTail(q, Drop(q, n));
    } else {
      assert Drop(q, n)[1..] == q[1..];
    }
  }

  lemma LeftOfTail(q: seq<Bytes>, r: seq<Bytes>)
    requires q != [] && LeftOf(q[1..], r)
    ensures LeftOf(q, r)
  {
  }

  lemma LeftOfLeft(q: seq<Bytes>, r: seq<Bytes>, s: seq<Bytes>)
    requires LeftOf(q, r) && LeftOf(r, s)
    ensures LeftOf(q, s)
  {
    if s != [] && r != [] && |s| < |r| {
      assert s[1..] == r[1..][|r| - |s|..];
    }
  }

  lemma {:induction false} WritesLeave(q: seq<Bytes>, tot: nat, results: seq<Sys>)
    ensures LeftOf(q, Writes(q, tot, results).queue)
    decreases |results|
  {
    if results != [] {
      match results[0]
      case Eintr => WritesLeave(q, tot, results[1..]);
      case Took(n) =>
        var took := Least(n, |Flat(q)|);
        if 0 < took < |Flat(q)| && took != tot {
          DropLeaves(q, took);
          WritesLeave(Drop(q, took), tot, results[1..]);
          LeftOfLeft(q, Drop(q, took), Writes(Drop(q, took), tot, results[1..]).queue);
        }
      case _ =>
    }
  }

  /** The messages keep their bounds: those left are the last ones, and the first of them may have lost its beginning. */
  lemma MessagesKept(q: seq<Bytes>, results: seq<Sys>)
    ensures LeftOf(q, OnOutReport(q, results).queue)
  {
    WritesLeave(q, |Flat(q)|, results);
  }

  // ----- the method

  class TcpConnection {
    var waitingSends: seq<Bytes>
    var viovec: seq<Bytes>       // may be longer than the queue, with stale entries behind

    constructor ()
      ensures waitingSends == [] && viovec == []
    {
      waitingSends, viovec := [], [];
    }

    method AddSendItem(data: Bytes)
      modifies `waitingSends
      ensures Flat(waitingSends) == old(Flat(waitingSends)) + data
    {
      if |data| > 0 {
        FlatAppend(waitingSends, data);
        waitingSends := waitingSends + [data];
      }
    }

    /** Fills the iovec array from the queue. */
    method Gather() returns (tot: nat)
      modifies `viovec
      ensures |waitingSends| <= |viovec| && viovec[..|waitingSends|] == waitingSends
      ensures tot == |Flat(waitingSends)|
    {
      var nmsg := |waitingSends|;
      if |viovec| < nmsg {
        viovec := viovec + seq(nmsg - |viovec|, _ => []);
      }
      tot := 0;
      var i := 0;
      while i < nmsg
        invariant i <= nmsg <= |viovec| && viovec[..i] == waitingSends[..i]
        invariant tot == |Flat(waitingSends[..i])|
      {
        assert waitingSends[..i + 1] == waitingSends[..i] + [waitingSends[i]];
        FlatAppend(waitingSends[..i], waitingSends[i]);
        viovec := viovec[i := waitingSends[i]];
        tot := tot + |waitingSends[i]|;
        i := i + 1;
      }
      assert waitingSends[..i] == waitingSends;
    }

    /** Drops the entries that a short write took entirely; `tail` is what it took of the next one. */
    method PopSent(ptr: nat, nmsg: nat, took: nat) returns (ptr': nat, nmsg': nat, tail: nat)
      requires nmsg == |waitingSends| && ptr + nmsg <= |viovec| && viovec[ptr..ptr + nmsg] == waitingSends
      requires took <= |Flat(waitingSends)|
      modifies `waitingSends
      ensures nmsg' == |waitingSends| && ptr' + nmsg' == ptr + nmsg && viovec[ptr'..ptr' + nmsg'] == waitingSends
      ensures took == |Flat(old(waitingSends))| ==> nmsg' == 0
      ensures took < |Flat(old(waitingSends))| ==>
                nmsg' > 0 && tail < |waitingSends[0]|
                && Drop(old(waitingSends), took) == [waitingSends[0][tail..]] + waitingSends[1..]
    {
      ptr', nmsg', tail := ptr, nmsg, took;
      while nmsg' > 0 && tail >= |viovec[ptr']|
        invariant nmsg' == |waitingSends| && ptr <= ptr' && ptr' + nmsg' == ptr + nmsg
        invariant viovec[ptr'..ptr' + nmsg'] == waitingSends
        invariant tail <= |Flat(waitingSends)| && (tail == |Flat(waitingSends)| <==> took == |Flat(old(waitingSends))|)
        invariant tail < |Flat(waitingSends)| ==> Drop(waitingSends, tail) == Drop(old(waitingSends), took)
        decreases nmsg'
      {
        assert viovec[ptr'] == viovec[ptr'..ptr' + nmsg'][0];
        assert viovec[ptr' + 1..ptr' + nmsg'] == viovec[ptr'..ptr' + nmsg'][1..];
        tail := tail - |viovec[ptr']|;
        waitingSends := waitingSends[1..];
        ptr' := ptr' + 1;
        nmsg' := nmsg' - 1;
      }
      if nmsg' > 0 {
        assert viovec[ptr'] == viovec[ptr'..ptr' + nmsg'][0];
      }
    }

    /** The bookkeeping of a short write, in the queue and in the iovec array alike. */
    method ShortWrite(ptr: nat, nmsg: nat, took: nat) returns (ptr': nat, nmsg': nat)
      requires nmsg == |waitingSends| && ptr + nmsg <= |viovec| && viovec[ptr..ptr + nmsg] == waitingSends
      requires took <= |Flat(waitingSends)|
      modifies this
      ensures |viovec| == old(|viovec|) && nmsg' == |waitingSends| && ptr' + nmsg' == ptr + nmsg
      ensures viovec[ptr'..ptr' + nmsg'] == waitingSends
      ensures waitingSends == if took == |Flat(old(waitingSends))| then [] else Drop(old(waitingSends), took)
    {
      var tail: nat;
      ptr', nmsg', tail := PopSent(ptr, nmsg, took);
      if nmsg' > 0 {
        var rest := viovec[ptr'][tail..];
        assert viovec[ptr'] == viovec[ptr'..ptr' + nmsg'][0];
        assert viovec[ptr' + 1..ptr' + nmsg'] == viovec[ptr'..ptr' + nmsg'][1..];
        viovec := viovec[ptr' := rest];
        waitingSends := [rest] + waitingSends[1..];
      }
    }

    /** on_out, over a sendmsg that behaves as `results` says; it reports what was sent and how it ended. */
    method OnOut(results: seq<Sys>) returns (sent: Bytes, outcome: Outcome)
      modifies this
      ensures Report(sent, waitingSends, outcome) == old(OnOutReport(waitingSends, results))
      ensures sent + Flat(waitingSends) == old(Flat(waitingSends))
    {
      hide Drop, Flat, OnOutReport;
      StreamConserved(waitingSends, results);
      OnOutUnfold(waitingSends, results);
      ghost var expected := OnOutReport(waitingSends, results);
      var tot := Gather();
      sent := [];
      if tot == 0 {
        outcome := Idle;
        return;
      }
      var ptr: nat, nmsg: nat := 0, |waitingSends|;
      var i := 0;
      assert results[0..] == results && viovec[0..nmsg] == waitingSends;
      while i < |results|
        invariant 0 <= i <= |results|
        invariant nmsg == |waitingSends| && ptr + nmsg <= |viovec| && viovec[ptr..ptr + nmsg] == waitingSends
        invariant var r := Writes(waitingSends, tot, results[i..]); expected == r.(sent := sent + r.sent)
      {
        ghost var rest := results[i..];
        assert rest[0] == results[i] && rest[1..] == results[i + 1..];
        match results[i] {
          case Eintr =>
            assert Writes(waitingSends, tot, rest) == Writes(waitingSends, tot, rest[1..]);
          case Again =>
            outcome := Blocked;
            return;
          case Error =>
            outcome := HungUp;
            return;
          case Took(n) =>
            var offered := Flat(viovec[ptr..ptr + nmsg]);
            var took := Least(n, |offered|);
            if took == 0 {
              outcome := HungUp;
              return;
            }
            if took == tot {
              sent := sent + offered;
              waitingSends := [];
              outcome := AllSent;
              return;
            }
            ghost var q, before := waitingSends, sent;
            sent := sent + offered[..took];
            ptr, nmsg := ShortWrite(ptr, nmsg, took);
            if nmsg == 0 {
              assert offered[..took] == offered;
              outcome := Overrun;
              return;
            }
            ghost var r := Writes(waitingSends, tot, rest[1..]);
            assert Writes(q, tot, rest) == r.(sent := offered[..took] + r.sent);
            assert before + (offered[..took] + r.sent) == sent + r.sent;
        }
        i := i + 1;
      }
      outcome := Blocked;
    }
  }

  lemma OnOutUnfold(q: seq<Bytes>, results: seq<Sys>)
    ensures OnOutReport(q, results) == if |Flat(q)| == 0 then Report([], q, Idle) else Writes(q, |Flat(q)|, results)
    ensures Flat([]) == []
  {
  }

  lemma {:induction false} FlatAppend(q: seq<Bytes>, m: Bytes)
    ensures Flat(q + [m]) == Flat(q) + m
    decreases |q|
  {
    if q == [] {
      assert [] + [m] == [m] && [m][1..] == [];
    } else {
      assert (q + [m])[1..] == q[1..] + [m];
      FlatAppend(q[1..], m);
    }
  }
}
