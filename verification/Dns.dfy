/** The DNS client as it changes its own fields; each method does what the table's operation says. */
module Dns {
  import opened Prelude
  import opened DnsName
  import opened DnsMessage
  import DnsTable

  class Dns {
    var waitingReqs: Waiting
    var cachedEntries: Cache
    var serverKnown: bool
    var usedResolv: bool
    var nbWaiting: int
    var calls: seq<Call>
    var sent: seq<Bytes>

    ghost function T(): Table
      reads this
    {
      Table(waitingReqs, cachedEntries, serverKnown, usedResolv, nbWaiting, calls, sent)
    }

    constructor ()
      ensures T() == FRESH
    {
      waitingReqs, cachedEntries := map[], map[];
      serverKnown, usedResolv := false, false;
      nbWaiting, calls, sent := 0, [], [];
    }

    /** `found`: whether the configuration file, if it is read now, names a server. */
    method Query(addr: Bytes, cb: nat, num: nat, found: bool)
      modifies this
      ensures T() == DnsMessage.Query(old(T()), addr, cb, num, found)
    {
      hide QName, Labels;
      if addr in cachedEntries {
        calls := calls + [Call(addr, cb, 0, cachedEntries[addr].ips)];
        return;
      }
      if addr in waitingReqs {
        var wcb := waitingReqs[addr];
        waitingReqs := waitingReqs[addr := wcb.(cbs := wcb.cbs + [cb])];
        return;
      }
      waitingReqs := waitingReqs[addr := Wcb([cb], num)];
      nbWaiting := nbWaiting + 1;
      var req := Be16(num) + [1, 0] + Be16(1) + Be16(0) + Be16(0) + Be16(0);
      var name := WriteQName(addr);
      req := req + name + Be16(255) + Be16(1);
      assert req == Request(num, addr) by { RequestParts(num, addr); }
      if !serverKnown {
        if !usedResolv {
          usedResolv := true;
          serverKnown := found;
        }
        if !serverKnown {
          calls := calls + [Call(addr, cb, NO_RESOLV_ENTRY, [])];
          return;
        }
      }
      sent := sent + [req];
    }

    /** Calls every callback of a request. */
    method CallBack(addr: Bytes, cbs: seq<nat>, err: nat, ips: seq<Bytes>)
      modifies this`calls
      ensures calls == old(calls) + CallAll(addr, cbs, err, ips)
    {
      var i := 0;
      while i < |cbs|
        invariant i <= |cbs|
        invariant calls + CallAll(addr, cbs[i..], err, ips) == old(calls) + CallAll(addr, cbs, err, ips)
      {
        assert cbs[i..][1..] == cbs[i + 1..];
        CallStep(calls, addr, cbs[i..], err, ips);
        calls := calls + [Call(addr, cbs[i], err, ips)];
        i := i + 1;
      }
    }

    /** Takes a request out of the table; its destructor gives back its count. */
    method Erase(addr: Bytes)
      requires addr in waitingReqs
      modifies this`waitingReqs, this`nbWaiting
      ensures waitingReqs == old(waitingReqs) - {addr} && nbWaiting == old(nbWaiting) - 1
    {
      waitingReqs := waitingReqs - {addr};
      nbWaiting := nbWaiting - 1;
    }

    method OnTimeout(addr: Bytes)
      requires addr in waitingReqs
      modifies this
      ensures T() == Expire(old(T()), addr)
    {
      CallBack(addr, waitingReqs[addr].cbs, TIMEOUT, []);
      Erase(addr);
    }

    /** Whether `name` may be stored for the request `who`; the first time, the entry is made. */
    method CheckName(who: Option<Bytes>, num: nat, name: Bytes, ghost pos: nat) returns (ok: bool, who': Option<Bytes>)
      requires Tied(waitingReqs, num, Scan(pos, who, cachedEntries))
      modifies this`cachedEntries
      ensures var r := Checked(waitingReqs, num, Scan(pos, who, old(cachedEntries)), name);
        if ok then r == Scan(pos, who', cachedEntries) else r == Rejected(cachedEntries)
    {
      who' := who;
      if who.Some? {
        ok := who.value == name;
      } else {
        ok := name in waitingReqs && waitingReqs[name].num == num;
        if ok {
          who' := Some(name);
          if name !in cachedEntries {
            cachedEntries := cachedEntries[name := Entry([], 0)];
          }
        }
      }
    }

    /** The question section; stops at a name that is refused. */
    method ReadQuestions(data: Bytes, num: nat, n: nat, start: nat) returns (ok: bool, pos: nat, who: Option<Bytes>)
      modifies this`cachedEntries
      ensures var r := Questions(waitingReqs, num, data, n, Scan(start, None, old(cachedEntries)));
        if ok then r == Scan(pos, who, cachedEntries) else r == Rejected(cachedEntries)
    {
      hide ReadName, Word, At, Skip, Checked;
      ok, pos, who := true, start, None;
      var left: nat := n;
      ghost var r := Questions(waitingReqs, num, data, n, Scan(start, None, cachedEntries));
      while left > 0
        invariant ok && left <= n && Tied(waitingReqs, num, Scan(pos, who, cachedEntries))
        invariant Questions(waitingReqs, num, data, left, Scan(pos, who, cachedEntries)) == r
      {
        left := left - 1;
        ghost var s := Scan(pos, who, cachedEntries);
        var name := ReadCName(data, pos);
        var qtype, qclass := Word(data, name.pos), Word(data, name.pos + 2);
        pos := Skip(data, name.pos, 4);
        if qtype == 255 && qclass == 1 {
          ok, who := CheckName(who, num, name.name, pos);
          assert OneQuestion(waitingReqs, num, data, s) == if ok then Scan(pos, who, cachedEntries) else Rejected(cachedEntries);
          if !ok {
            return;
          }
        }
      }
    }

    method ReadAnswerName(data: Bytes, pos: nat) returns (r: Read)
      ensures r == AnswerName(data, pos)
    {
      hide ReadName;
      var c: nat := At(data, pos);
      var next := Skip(data, pos, 1);
      if c >= 192 {
        c := (c - 192) * 256 + At(data, next);
        next := Skip(data, next, 1);
        r := ReadCName(data, if c <= |data| then c else |data|);
        r := r.(pos := next);
      } else {
        r := ReadCName(data, next);
      }
    }

    /** One record. `dead`: the program has followed a null pointer. */
    method ReadAnswer(data: Bytes, num: nat, start: nat, was: Option<Bytes>)
      returns (dead: bool, ok: bool, pos: nat, who: Option<Bytes>)
      requires Tied(waitingReqs, num, Scan(start, was, cachedEntries))
      modifies this`cachedEntries
      ensures var r := OneAnswer(waitingReqs, num, data, Scan(start, was, old(cachedEntries)));
        if dead then r == Undefined
        else if ok then r == Scan(pos, who, cachedEntries) else r == Rejected(cachedEntries)
    {
      hide ReadName, Word, At, Skip, Checked, AnswerName, Slice;
      dead, ok, who := false, true, was;
      var name := ReadAnswerName(data, start);
      var kind, cls := Word(data, name.pos), Word(data, name.pos + 2);
      var ttl := Word(data, name.pos + 4) * 65536 + Word(data, name.pos + 6);
      var rlen := Word(data, name.pos + 8);
      pos := Skip(data, name.pos, 10);
      if (kind == 1 && rlen == 4) || (kind == 28 && rlen == 16) {
        if cls == 1 {
          ok, who := CheckName(who, num, name.name, start);
          if !ok {
            return;
          }
        }
        if who == None {
          dead := true;
          return;
        }
        var entry := cachedEntries[who.value];
        cachedEntries := cachedEntries[who.value := Entry(entry.ips + [Slice(data, pos, rlen)], ttl)];
      }
      pos := Skip(data, pos, rlen);
    }

    method ReadAnswers(data: Bytes, num: nat, n: nat, start: nat, was: Option<Bytes>)
      returns (dead: bool, ok: bool, who: Option<Bytes>)
      requires Tied(waitingReqs, num, Scan(start, was, cachedEntries))
      modifies this`cachedEntries
      ensures var r := Answers(waitingReqs, num, data, n, Scan(start, was, old(cachedEntries)));
        if dead then r == Undefined
        else if ok then r.Scan? && r.who == who && r.cached == cachedEntries else r == Rejected(cachedEntries)
    {
      hide OneAnswer;
      dead, ok, who := false, true, was;
      var pos: nat, left: nat := start, n;
      ghost var r := Answers(waitingReqs, num, data, n, Scan(start, was, cachedEntries));
      while left > 0
        invariant ok && !dead && Tied(waitingReqs, num, Scan(pos, who, cachedEntries))
        invariant Answers(waitingReqs, num, data, left, Scan(pos, who, cachedEntries)) == r
      {
        left := left - 1;
        dead, ok, pos, who := ReadAnswer(data, num, pos, who);
        if dead || !ok {
          return;
        }
      }
    }

    /** An incoming message. The new state is only told when no null pointer is followed. */
    method Ans(data: Bytes) returns (dead: bool)
      modifies this
      ensures dead <==> DnsMessage.Ans(old(T()), data) == None
      ensures !dead ==> DnsMessage.Ans(old(T()), data) == Some(T())
    {
      hide Questions, Answers, Word, Skip, CallAll;
      var num := Word(data, 0);
      var ok, pos, who := ReadQuestions(data, num, Word(data, 4), Skip(data, 0, 12));
      if !ok {
        assert Scanned(old(waitingReqs), old(cachedEntries), data) == Rejected(cachedEntries)
          by { RejectedScan(old(waitingReqs), old(cachedEntries), data); }
        return false;
      }
      dead, ok, who := ReadAnswers(data, num, Word(data, 6) + Word(data, 8), pos, who);
      if dead || !ok || who == None {
        return;
      }
      CallBack(who.value, waitingReqs[who.value].cbs, 0, cachedEntries[who.value].ips);
      Erase(who.value);
    }

    /** Any sequence of queries, messages and timeouts; the count stays the number of pending requests. */
    method Serve(ops: seq<DnsTable.Op>) returns (dead: bool)
      requires DnsTable.Counted(T())
      modifies this
      ensures dead <==> DnsTable.Run(old(T()), ops) == None
      ensures !dead ==> DnsTable.Run(old(T()), ops) == Some(T()) && DnsTable.Counted(T())
    {
      hide DnsMessage.Query, DnsMessage.Ans, Expire, DnsTable.Counted;
      dead := false;
      var i := 0;
      assert ops[0..] == ops;
      while i < |ops|
        invariant i <= |ops| && DnsTable.Counted(T())
        invariant DnsTable.Run(T(), ops[i..]) == old(DnsTable.Run(T(), ops))
      {
        assert ops[i..][0] == ops[i] && ops[i..][1..] == ops[i + 1..];
        ghost var t := T();
        if DnsTable.Step(t, ops[i]).Some? {
          DnsTable.StepCounted(t, ops[i]);
        }
        match ops[i] {
          case Ask(addr, cb, num, found) => Query(addr, cb, num, found);
          case Receive(buf) => dead := Ans(buf);
          case Elapse(addr) =>
            if addr in waitingReqs {
              OnTimeout(addr);
            } else {
              assert Expire(t, addr) == t by { NotPending(t, addr); }
            }
        }
        if dead {
          return;
        }
        i := i + 1;
      }
    }
  }

  lemma NotPending(t: Table, addr: Bytes)
    requires addr !in t.waiting
    ensures Expire(t, addr) == t
  {
  }

  lemma RequestParts(num: nat, addr: Bytes)
    ensures Request(num, addr)
      == (Be16(num) + [1, 0] + Be16(1) + Be16(0) + Be16(0) + Be16(0)) + QName(Labels(addr)) + Be16(255) + Be16(1)
  {
  }

  lemma CallStep(calls: seq<Call>, addr: Bytes, cbs: seq<nat>, err: nat, ips: seq<Bytes>)
    requires cbs != []
    ensures calls + CallAll(addr, cbs, err, ips)
      == (calls + [Call(addr, cbs[0], err, ips)]) + CallAll(addr, cbs[1..], err, ips)
  {
  }

  lemma RejectedScan(w: Waiting, c: Cache, data: Bytes)
    ensures var s := Questions(w, Word(data, 0), data, Word(data, 4), Scan(Skip(data, 0, 12), None, c));
      s.Rejected? ==> Scanned(w, c, data) == s
  {
  }
}
