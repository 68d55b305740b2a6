/** What the callbacks get and what the server is sent, said without the operations of the table. */
module DnsCalls {
  import opened Prelude
  import opened DnsName
  import opened DnsMessage
  import opened DnsDecode
  import opened DnsTable

  // ----- the callbacks

  /** From `t` to `t'`, each of `cbs` is called once, in order, with the given error and addresses, and nothing else is. */
  ghost predicate CallsEach(t: Table, t': Table, addr: Bytes, cbs: seq<nat>, err: nat, ips: seq<Bytes>) {
    && |t'.calls| == |t.calls| + |cbs|
    && t'.calls[..|t.calls|] == t.calls
    && forall i | 0 <= i < |cbs| :: t'.calls[|t.calls| + i] == Call(addr, cbs[i], err, ips)
  }

  /** The request for `addr` is gone, with its share of the count, and the other requests are untouched. */
  ghost predicate Erases(t: Table, t': Table, addr: Bytes) {
    && t'.nb == t.nb - 1
    && addr in t.waiting && addr !in t'.waiting
    && forall b | b != addr :: (b in t'.waiting <==> b in t.waiting) && (b in t.waiting ==> t'.waiting[b] == t.waiting[b])
  }

  ghost predicate SameServers(t: Table, t': Table) {
    t'.sent == t.sent && t'.servers == t.servers && t'.usedResolv == t.usedResolv
  }

  lemma {:induction false} CallAllEach(addr: Bytes, cbs: seq<nat>, err: nat, ips: seq<Bytes>)
    ensures |CallAll(addr, cbs, err, ips)| == |cbs|
    ensures forall i | 0 <= i < |cbs| :: CallAll(addr, cbs, err, ips)[i] == Call(addr, cbs[i], err, ips)
  {
    if cbs != [] {
      CallAllEach(addr, cbs[1..], err, ips);
      assert forall i | 0 < i < |cbs| :: cbs[i] == cbs[1..][i - 1];
    }
  }

  lemma ClosedCalls(t: Table, addr: Bytes, err: nat, ips: seq<Bytes>)
    requires addr in t.waiting
    ensures var t' := Closed(t, addr, err, ips);
      && CallsEach(t, t', addr, t.waiting[addr].cbs, err, ips)
      && Erases(t, t', addr)
      && SameServers(t, t') && t'.cached == t.cached
  {
    CallAllEach(addr, t.waiting[addr].cbs, err, ips);
  }

  /** The addresses of the A and AAAA records among `n` records, in order. */
  function Collected(buf: Bytes, pos: nat, n: nat): seq<Bytes>
    decreases n
  {
    if n == 0 then []
    else
      var name := AnswerName(buf, pos);
      var here: seq<Bytes> :=
        if AddressAt(buf, pos) then [Slice(buf, Skip(buf, name.pos, 10), Word(buf, name.pos + 8))] else [];
      here + Collected(buf, NextRecord(buf, pos), n - 1)
  }

  /** The records of a message that stays with a request are all stored for it. */
  lemma {:induction false} NamedCollects(w: Waiting, num: nat, buf: Bytes, n: nat, s: Scan, a: Bytes)
    requires s.Scan? && s.who == Some(a) && Tied(w, num, s)
    ensures var r := Answers(w, num, buf, n, s);
      r.Scan? ==> r.who == Some(a) && a in r.cached && r.cached[a].ips == s.cached[a].ips + Collected(buf, s.pos, n)
    decreases n
  {
    hide AnswerName, Word, Skip, Slice, IsAddress;
    if n == 0 {
      assert s.cached[a].ips + [] == s.cached[a].ips;
    } else {
      var s' := OneAnswer(w, num, buf, s);
      if s'.Scan? {
        NamedCollects(w, num, buf, n - 1, s', a);
        OneCollected(w, num, buf, n, s, a);
      } else {
        RejectedRest(w, num, buf, n - 1, s');
      }
    }
  }

  lemma OneCollected(w: Waiting, num: nat, buf: Bytes, n: nat, s: Scan, a: Bytes)
    requires s.Scan? && s.who == Some(a) && Tied(w, num, s) && n > 0
    ensures var s' := OneAnswer(w, num, buf, s);
      s'.Scan? ==>
        && a in s'.cached && s'.pos == NextRecord(buf, s.pos)
        && s'.cached[a].ips + Collected(buf, s'.pos, n - 1) == s.cached[a].ips + Collected(buf, s.pos, n)
  {
    hide AnswerName, Word, Slice, IsAddress;
  }

  lemma {:induction false} NamelessCollects(w: Waiting, num: nat, buf: Bytes, n: nat, s: Scan)
    requires s.Scan? && s.who == None
    ensures var r := Answers(w, num, buf, n, s);
      r.Scan? && r.who.Some? ==>
        var a := r.who.value;
        a in r.cached && r.cached[a].ips == EntryOf(s.cached, a).ips + Collected(buf, s.pos, n)
    decreases n
  {
    hide AnswerName, Word, Skip, Slice, IsAddress;
    if n > 0 {
      var s' := OneAnswer(w, num, buf, s);
      if s'.Scan? && s'.who.Some? {
        NamedCollects(w, num, buf, n - 1, s', s'.who.value);
      } else if s'.Scan? {
        NamelessCollects(w, num, buf, n - 1, s');
      } else {
        RejectedRest(w, num, buf, n - 1, s');
      }
    }
  }

  /** What the cache has for an address, which is nothing to begin with. */
  function EntryOf(c: Cache, a: Bytes): Entry {
    if a in c then c[a] else Entry([], 0)
  }

  /** The questions leave the entry of the request they name as it was. */
  lemma {:induction false} QuestionsCollect(w: Waiting, num: nat, c: Cache, buf: Bytes, n: nat, s: Scan)
    requires s.Scan? && Tied(w, num, s)
    requires if s.who == None then s.cached == c else s.cached[s.who.value] == EntryOf(c, s.who.value)
    ensures var r := Questions(w, num, buf, n, s);
      r.Scan? ==>
        && Tied(w, num, r) && r.pos == AfterQuestions(buf, s.pos, n)
        && if r.who == None then r.cached == c else r.cached[r.who.value] == EntryOf(c, r.who.value)
    decreases n
  {
    hide ReadName, Word, Skip;
    if n > 0 {
      var s' := OneQuestion(w, num, buf, s);
      if s'.Scan? {
        QuestionsCollect(w, num, c, buf, n - 1, s');
      } else {
        assert Questions(w, num, buf, n - 1, s') == s';
      }
    }
  }

  function AddressesIn(buf: Bytes): seq<Bytes> {
    Collected(buf, AfterQuestions(buf, Skip(buf, 0, 12), Word(buf, 4)), Word(buf, 6) + Word(buf, 8))
  }

  lemma ScannedCollects(w: Waiting, c: Cache, buf: Bytes)
    ensures var r := Scanned(w, c, buf);
      r.Scan? && r.who.Some? ==>
        var a := r.who.value;
        a in w && a in r.cached && r.cached[a].ips == EntryOf(c, a).ips + AddressesIn(buf)
  {
    hide Word, Skip, Questions, Answers, Collected, AfterQuestions;
    var num, na, s := Word(buf, 0), Word(buf, 6) + Word(buf, 8), Scan(Skip(buf, 0, 12), None, c);
    var q := Questions(w, num, buf, Word(buf, 4), s);
    QuestionsCollect(w, num, c, buf, Word(buf, 4), s);
    if q.Scan? && q.who.Some? {
      NamedCollects(w, num, buf, na, q, q.who.value);
    } else if q.Scan? {
      NamelessCollects(w, num, buf, na, q);
    } else {
      RejectedRest(w, num, buf, na, q);
    }
  }

  /**
    A message of any bytes. If it closes a request, which `ClosesWhen` tells from its bytes, every callback of that
    request, and no other, is called once, in the order given, without an error and with the addresses that the
    cache had followed by all A and AAAA data of the message, in order; the cache then has them too. If it
    closes none, no callback is called.
  */
  lemma MessageCalls(t: Table, buf: Bytes, a: Bytes)
    requires Ans(t, buf).Some?
    ensures var t' := Ans(t, buf).value;
      && SameServers(t, t')
      && (a in t.waiting && a !in t'.waiting ==>
            var ips := EntryOf(t.cached, a).ips + AddressesIn(buf);
            && Erases(t, t', a)
            && CallsEach(t, t', a, t.waiting[a].cbs, 0, ips)
            && a in t'.cached && t'.cached[a].ips == ips)
      && ((forall b | b in t.waiting :: b in t'.waiting) ==>
            t'.calls == t.calls && t'.waiting == t.waiting && t'.nb == t.nb)
  {
    hide Scanned, CallAll, AddressesIn, CallsEach;
    ScannedCollects(t.waiting, t.cached, buf);
    var s := Scanned(t.waiting, t.cached, buf);
    if s.Scan? && s.who.Some? {
      var b, u := s.who.value, t.(cached := s.cached);
      ClosedCalls(u, b, 0, s.cached[b].ips);
      CallsSame(t, u, Ans(t, buf).value, b, t.waiting[b].cbs, 0, s.cached[b].ips);
    }
  }

  lemma CallsSame(t: Table, u: Table, t': Table, addr: Bytes, cbs: seq<nat>, err: nat, ips: seq<Bytes>)
    requires t.calls == u.calls
    ensures CallsEach(t, t', addr, cbs, err, ips) <==> CallsEach(u, t', addr, cbs, err, ips)
  {
  }

  /**
    An answer to the request for `addr`, as in `ReplyDecodes`, said without the operations of the table: each
    callback gets the cached addresses followed by those of the answer.
  */
  lemma ReplyCalls(t: Table, num: nat, flags: Bytes, addr: Bytes, rs: seq<Record>, nd: nat, nx: nat, post: Bytes)
    requires addr in t.waiting && t.waiting[addr].num == num
    requires Wire(num, flags, rs, nd, nx) && ShortLabels(addr) && Normal(addr)
    ensures var r := Ans(t, Reply(num, flags, addr, rs, nd, nx, post));
      r.Some? &&
      var t', was := r.value, EntryOf(t.cached, addr);
      && CallsEach(t, t', addr, t.waiting[addr].cbs, 0, was.ips + Addresses(rs))
      && Erases(t, t', addr) && SameServers(t, t')
      && t'.cached == t.cached[addr := Entry(was.ips + Addresses(rs), LastTtl(rs, was.ttl))]
  {
    hide Ans, Reply, CallsEach, Erases, Closed;
    ReplyDecodes(t, num, flags, addr, rs, nd, nx, post);
    var c := Answered(t.cached, addr, rs);
    var u := t.(cached := c);
    ClosedCalls(u, addr, 0, c[addr].ips);
    CallsSame(t, u, Served(t, addr, rs), addr, t.waiting[addr].cbs, 0, c[addr].ips);
    ErasesSame(t, u, Served(t, addr, rs), addr);
  }

  lemma ErasesSame(t: Table, u: Table, t': Table, addr: Bytes)
    requires t.waiting == u.waiting && t.nb == u.nb
    ensures Erases(t, t', addr) <==> Erases(u, t', addr)
  {
  }

  /** A timeout calls every callback of the request with the error TIMEOUT and no addresses. */
  lemma TimeoutCalls(t: Table, addr: Bytes)
    requires addr in t.waiting
    ensures var t' := Expire(t, addr);
      && CallsEach(t, t', addr, t.waiting[addr].cbs, TIMEOUT, [])
      && Erases(t, t', addr) && SameServers(t, t') && t'.cached == t.cached
  {
    hide Closed, CallsEach, Erases;
    ClosedCalls(t, addr, TIMEOUT, []);
  }

  /** `addr` has the pending request `wcb`, and the other requests are untouched. */
  ghost predicate Waits(t: Table, t': Table, addr: Bytes, wcb: Wcb) {
    && addr in t'.waiting && t'.waiting[addr] == wcb
    && forall b | b != addr :: (b in t'.waiting <==> b in t.waiting) && (b in t.waiting ==> t'.waiting[b] == t.waiting[b])
  }

  /** The query finds no answer and no request, and a server is known or now read from the configuration file. */
  predicate Sends(t: Table, op: Op) {
    op.Ask? && op.addr !in t.cached && op.addr !in t.waiting && (t.servers || (!t.usedResolv && op.found))
  }

  /**
    A query for a cached address calls its callback at once with the addresses of the cache; one for a pending
    address waits with the others; any other makes a request, and without a server its callback is called
    with NO_RESOLV_ENTRY as well.
  */
  lemma QueryCalls(t: Table, addr: Bytes, cb: nat, num: nat, found: bool)
    ensures var t' := Query(t, addr, cb, num, found);
      && t'.cached == t.cached
      && (addr in t.cached ==>
            CallsEach(t, t', addr, [cb], 0, t.cached[addr].ips) && SameServers(t, t')
            && t'.waiting == t.waiting && t'.nb == t.nb)
      && (addr !in t.cached && addr in t.waiting ==>
            t'.calls == t.calls && SameServers(t, t') && t'.nb == t.nb
            && Waits(t, t', addr, Wcb(t.waiting[addr].cbs + [cb], t.waiting[addr].num)))
      && (addr !in t.cached && addr !in t.waiting ==>
            t'.nb == t.nb + 1 && Waits(t, t', addr, Wcb([cb], num))
            && if Sends(t, Ask(addr, cb, num, found)) then t'.calls == t.calls
               else CallsEach(t, t', addr, [cb], NO_RESOLV_ENTRY, []))
  {
    hide Request;
  }

  // ----- what is sent

  /** `m` is a request for all records of class IN of `addr`, with the number `num`, read back as a server would. */
  ghost predicate IsRequest(m: Bytes, num: nat, addr: Bytes) {
    && Word(m, 0) == num % 65536 && At(m, 2) == 1 && At(m, 3) == 0
    && Word(m, 4) == 1 && Word(m, 6) == 0 && Word(m, 8) == 0 && Word(m, 10) == 0
    && (ShortLabels(addr) ==>
          var n := ReadName(m, 12, []);
          && n.name == Join(Labels(addr)) && Labels(n.name) == Labels(addr)
          && Word(m, n.pos) == 255 && Word(m, n.pos + 2) == 1 && |m| == n.pos + 4)
  }

  lemma RequestHeader(num: nat, addr: Bytes)
    ensures var m := Request(num, addr);
      && Word(m, 0) == num % 65536 && At(m, 2) == 1 && At(m, 3) == 0
      && Word(m, 4) == 1 && Word(m, 6) == 0 && Word(m, 8) == 0 && Word(m, 10) == 0
  {
    hide Question;
    var h, m := Header(num, [1, 0], 1, 0, 0, 0), Request(num, addr);
    assert h == [num / 256 % 256, num % 256, 1, 0, 0, 1, 0, 0, 0, 0, 0, 0];
    assert m[..12] == h;
    assert forall i | 0 <= i < 12 :: At(m, i) == m[..12][i];
  }

  lemma RequestReads(num: nat, addr: Bytes)
    ensures IsRequest(Request(num, addr), num, addr)
  {
    hide ReadName, QName, Labels, Join, Word, At;
    RequestHeader(num, addr);
    var m, q := Request(num, addr), QName(Labels(addr));
    if ShortLabels(addr) {
      var h, tail := Header(num, [1, 0], 1, 0, 0, 0), Be16(255) + Be16(1);
      assert m == h + q + tail;
      NameRoundTrip(h, addr, tail);
      RequestTail(m, h + q);
    }
  }

  lemma RequestTail(m: Bytes, pre: Bytes)
    requires m == pre + (Be16(255) + Be16(1))
    ensures Word(m, |pre|) == 255 && Word(m, |pre| + 2) == 1
  {
    assert Be16(255) + Be16(1) == [0, 255, 0, 1];
    assert m[|pre|..] == [0, 255, 0, 1];
    assert forall i | 0 <= i < 4 :: At(m, |pre| + i) == m[|pre|..][i];
  }

  /** The queries of a run that find no answer, no request and a server, in order. */
  function Senders(t: Table, ops: seq<Op>): seq<Op>
    decreases |ops|
  {
    if ops == [] then []
    else
      var r := Step(t, ops[0]);
      (if Sends(t, ops[0]) then [ops[0]] else []) + if r.None? then [] else Senders(r.value, ops[1..])
  }

  /** `sent` has grown by one request for each of `ops`, in order. */
  ghost predicate SentFor(was: seq<Bytes>, sent: seq<Bytes>, ops: seq<Op>) {
    && |sent| == |was| + |ops|
    && sent[..|was|] == was
    && forall i | 0 <= i < |ops| :: ops[i].Ask? && IsRequest(sent[|was| + i], ops[i].num, ops[i].addr)
  }

  lemma StepSends(t: Table, op: Op)
    requires Step(t, op).Some?
    ensures SentFor(t.sent, Step(t, op).value.sent, if Sends(t, op) then [op] else [])
  {
    hide Request, IsRequest, Scanned, CallAll;
    if op.Ask? {
      RequestReads(op.num, op.addr);
    }
  }

  lemma SentTwice(a: seq<Bytes>, b: seq<Bytes>, c: seq<Bytes>, p: seq<Op>, q: seq<Op>)
    requires SentFor(a, b, p) && SentFor(b, c, q)
    ensures SentFor(a, c, p + q)
  {
    hide IsRequest;
    assert c[..|a|] == c[..|b|][..|a|];
    forall i | 0 <= i < |p + q|
      ensures (p + q)[i].Ask? && IsRequest(c[|a| + i], (p + q)[i].num, (p + q)[i].addr)
    {
      if i < |p| {
        assert c[|a| + i] == c[..|b|][|a| + i];
      } else {
        assert (p + q)[i] == q[i - |p|];
      }
    }
  }

  /**
    Over every run, one message is sent for each query whose address is neither cached nor pending while a server is
    known, in order, and nothing else is sent; it is a request for that address with the number of the query.
  */
  lemma {:induction false} RequestsSent(t: Table, ops: seq<Op>)
    requires Run(t, ops).Some?
    ensures SentFor(t.sent, Run(t, ops).value.sent, Senders(t, ops))
    decreases |ops|
  {
    hide SentFor, Sends, Step;
    if ops == [] {
      NothingSent(t.sent);
    } else {
      var t' := Step(t, ops[0]).value;
      StepSends(t, ops[0]);
      RequestsSent(t', ops[1..]);
      SentTwice(t.sent, t'.sent, Run(t, ops).value.sent, if Sends(t, ops[0]) then [ops[0]] else [], Senders(t', ops[1..]));
    }
  }

  lemma NothingSent(sent: seq<Bytes>)
    ensures SentFor(sent, sent, [])
  {
  }

  /** A new client knows a server exactly when it was queried and the configuration file named one at the first query. */
  lemma {:induction false} ServersWhen(t: Table, ops: seq<Op>)
    requires Untouched(t) && Run(t, ops).Some?
    ensures Run(t, ops).value.servers <==> ServerFound(ops) && exists op | op in ops :: op.Ask?
    decreases |ops|
  {
    hide Scanned, Request, Closed, CallAll;
    if ops != [] {
      var t' := Step(t, ops[0]).value;
      if ops[0].Ask? {
        ServersStay(t', ops[1..]);
      } else {
        UntouchedStays(t, ops[0]);
        ServersWhen(t, ops[1..]);
      }
    }
  }

  /** Once the configuration file has been read, it is not read again. */
  lemma {:induction false} ServersStay(t: Table, ops: seq<Op>)
    requires t.usedResolv && Run(t, ops).Some?
    ensures Run(t, ops).value.servers == t.servers
    decreases |ops|
  {
    hide Scanned, Request, CallAll;
    if ops != [] {
      ServersStay(Step(t, ops[0]).value, ops[1..]);
    }
  }
}
