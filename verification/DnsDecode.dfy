/** What a server answers is what the callbacks get (sections 4.1.1 to 4.1.4 of RFC 1035). */
module DnsDecode {
  import opened Prelude
  import opened DnsName
  import opened DnsMessage

  /** A resource record whose name points to the name of the question, 12 bytes into the message. */
  datatype Record = Record(kind: nat, cls: nat, ttl: nat, data: Bytes)

  predicate Fits(r: Record) {
    r.kind < 65536 && r.cls < 65536 && r.ttl < 0x1_0000_0000 && |r.data| < 65536
  }

  function Be32(n: nat): Bytes {
    Be16(n / 65536 % 65536) + Be16(n % 65536)
  }

  function Written(r: Record): Bytes {
    [192, 12] + Be16(r.kind) + Be16(r.cls) + Be32(r.ttl) + Be16(|r.data|) + r.data
  }

  function AllWritten(rs: seq<Record>): Bytes {
    if rs == [] then [] else Written(rs[0]) + AllWritten(rs[1..])
  }

  /** An answer to the request for `addr`, of which the last `nd` records are in the authority section. */
  function Reply(num: nat, flags: Bytes, addr: Bytes, rs: seq<Record>, nd: nat, nx: nat, post: Bytes): Bytes
    requires nd <= |rs|
  {
    Header(num, flags, 1, |rs| - nd, nd, nx) + Question(addr) + AllWritten(rs) + post
  }

  predicate Carries(r: Record) {
    IsAddress(r.kind, |r.data|)
  }

  /** The addresses of the A and AAAA records, in order. */
  function Addresses(rs: seq<Record>): seq<Bytes> {
    if rs == [] then [] else (if Carries(rs[0]) then [rs[0].data] else []) + Addresses(rs[1..])
  }

  function LastTtl(rs: seq<Record>, ttl: nat): nat {
    if rs == [] then ttl else LastTtl(rs[1..], if Carries(rs[0]) then rs[0].ttl else ttl)
  }

  predicate Holds(buf: Bytes, p: nat, part: Bytes) {
    p + |part| <= |buf| && buf[p..p + |part|] == part
  }

  lemma HoldsAt(buf: Bytes, p: nat, part: Bytes, i: nat)
    requires Holds(buf, p, part) && i < |part|
    ensures At(buf, p + i) == part[i]
  {
    assert buf[p..p + |part|][i] == part[i];
  }

  lemma HoldsPart(buf: Bytes, p: nat, a: Bytes, b: Bytes)
    requires Holds(buf, p, a + b)
    ensures Holds(buf, p, a) && Holds(buf, p + |a|, b)
  {
    assert (a + b)[..|a|] == a && (a + b)[|a|..] == b;
    assert buf[p..p + |a|] == buf[p..p + |a + b|][..|a|];
    assert buf[p + |a|..p + |a| + |b|] == buf[p..p + |a + b|][|a|..];
  }

  lemma WordAt(buf: Bytes, p: nat, n: nat)
    requires n < 65536 && Holds(buf, p, Be16(n))
    ensures Word(buf, p) == n
  {
    HoldsAt(buf, p, Be16(n), 0);
    HoldsAt(buf, p, Be16(n), 1);
  }

  lemma WrittenParts(buf: Bytes, p: nat, r: Record)
    requires Holds(buf, p, Written(r))
    ensures Holds(buf, p, [192, 12]) && Holds(buf, p + 2, Be16(r.kind)) && Holds(buf, p + 4, Be16(r.cls))
    ensures Holds(buf, p + 6, Be16(r.ttl / 65536 % 65536)) && Holds(buf, p + 8, Be16(r.ttl % 65536))
    ensures Holds(buf, p + 10, Be16(|r.data|)) && Holds(buf, p + 12, r.data)
  {
    hide Holds;
    var a, b, c: Bytes := [192, 12], Be16(r.kind), Be16(r.cls);
    var d, e, f := Be16(r.ttl / 65536 % 65536), Be16(r.ttl % 65536), Be16(|r.data|);
    assert Written(r) == a + (b + (c + (d + (e + (f + r.data)))));
    HoldsPart(buf, p, a, b + (c + (d + (e + (f + r.data)))));
    HoldsPart(buf, p + 2, b, c + (d + (e + (f + r.data))));
    HoldsPart(buf, p + 4, c, d + (e + (f + r.data)));
    HoldsPart(buf, p + 6, d, e + (f + r.data));
    HoldsPart(buf, p + 8, e, f + r.data);
    HoldsPart(buf, p + 10, f, r.data);
  }

  lemma SliceHeld(buf: Bytes, p: nat, part: Bytes)
    requires Holds(buf, p, part)
    ensures Slice(buf, p, |part|) == part
  {
    forall i | 0 <= i < |part| ensures Slice(buf, p, |part|)[i] == part[i] {
      HoldsAt(buf, p, part, i);
    }
  }

  /** The fields of a record are read back. */
  ghost predicate ReadBack(buf: Bytes, p: nat, r: Record) {
    && At(buf, p) == 192 && At(buf, p + 1) == 12
    && Word(buf, p + 2) == r.kind && Word(buf, p + 4) == r.cls
    && Word(buf, p + 6) * 65536 + Word(buf, p + 8) == r.ttl && Word(buf, p + 10) == |r.data|
    && p + 12 + |r.data| <= |buf| && Slice(buf, p + 12, |r.data|) == r.data
  }

  lemma Fields(buf: Bytes, p: nat, r: Record)
    requires Fits(r) && Holds(buf, p, Written(r))
    ensures ReadBack(buf, p, r)
  {
    hide Be16, Word, Slice, Written;
    WrittenParts(buf, p, r);
    HoldsAt(buf, p, [192, 12], 0);
    HoldsAt(buf, p, [192, 12], 1);
    WordAt(buf, p + 2, r.kind);
    WordAt(buf, p + 4, r.cls);
    WordAt(buf, p + 6, r.ttl / 65536 % 65536);
    WordAt(buf, p + 8, r.ttl % 65536);
    WordAt(buf, p + 10, |r.data|);
    SliceHeld(buf, p + 12, r.data);
  }

  function Got(s: Scan, a: Bytes, rs: seq<Record>, pos: nat): Scan
    requires s.Scan? && a in s.cached
  {
    Scan(pos, Some(a), s.cached[a := Entry(s.cached[a].ips + Addresses(rs), LastTtl(rs, s.cached[a].ttl))])
  }

  lemma GotNone(s: Scan, a: Bytes, pos: nat)
    requires s.Scan? && a in s.cached
    ensures Got(s, a, [], pos) == Scan(pos, Some(a), s.cached)
  {
    assert s.cached[a].ips + [] == s.cached[a].ips;
    assert s.cached[a := s.cached[a]] == s.cached;
  }

  lemma GotOne(s: Scan, a: Bytes, r: Record, pos: nat)
    requires s.Scan? && a in s.cached
    ensures Carries(r) ==> Got(s, a, [r], pos) == Scan(pos, Some(a), s.cached[a := Entry(s.cached[a].ips + [r.data], r.ttl)])
    ensures !Carries(r) ==> Got(s, a, [r], pos) == Scan(pos, Some(a), s.cached)
  {
    assert [r][1..] == [];
    GotNone(s, a, pos);
    assert [r.data] + Addresses([]) == [r.data];
    assert Addresses([r]) == (if Carries(r) then [r.data] else []) + Addresses([r][1..]);
    assert LastTtl([r], s.cached[a].ttl) == LastTtl([r][1..], if Carries(r) then r.ttl else s.cached[a].ttl);
  }

  lemma CheckedAgain(w: Waiting, num: nat, s: Scan, a: Bytes)
    requires s.Scan? && s.who == Some(a) && Tied(w, num, s)
    ensures Checked(w, num, s, a) == s
  {
  }

  /** One record: an address is stored, anything else is skipped by its length. */
  lemma ReadsRecord(w: Waiting, num: nat, buf: Bytes, s: Scan, a: Bytes, r: Record)
    requires s.Scan? && s.who == Some(a) && Tied(w, num, s)
    requires |buf| >= 12 && ReadName(buf, 12, []).name == a
    requires ReadBack(buf, s.pos, r)
    ensures OneAnswer(w, num, buf, s) == Got(s, a, [r], s.pos + 12 + |r.data|)
  {
    hide ReadName, Word, At, Slice, Got, Addresses, LastTtl, Checked, IsAddress, AnswerName, Skip;
    CheckedAgain(w, num, s, a);
    GotOne(s, a, r, s.pos + 12 + |r.data|);
    RecordParts(buf, s.pos, a, r);
  }

  lemma RecordParts(buf: Bytes, p: nat, a: Bytes, r: Record)
    requires |buf| >= 12 && ReadName(buf, 12, []).name == a && ReadBack(buf, p, r)
    ensures AnswerName(buf, p) == Read(a, p + 2)
    ensures Skip(buf, p + 2, 10) == p + 12 && Skip(buf, p + 12, |r.data|) == p + 12 + |r.data|
    ensures Word(buf, p + 2) == r.kind && Word(buf, p + 4) == r.cls && Word(buf, p + 10) == |r.data|
    ensures Word(buf, p + 6) * 65536 + Word(buf, p + 8) == r.ttl && Slice(buf, p + 12, |r.data|) == r.data
  {
    hide ReadName, Word, At, Slice;
  }

  lemma GotTwice(s: Scan, a: Bytes, rs: seq<Record>, p: nat, q: nat)
    requires s.Scan? && a in s.cached && rs != []
    ensures Got(Got(s, a, [rs[0]], p), a, rs[1..], q) == Got(s, a, rs, q)
  {
    hide Addresses, LastTtl;
    var r, e := rs[0], s.cached[a];
    GotOne(s, a, r, p);
    FirstAddress(rs, e.ips, e.ttl);
  }

  lemma FirstAddress(rs: seq<Record>, ips: seq<Bytes>, ttl: nat)
    requires rs != []
    ensures ips + Addresses(rs) == (if Carries(rs[0]) then ips + [rs[0].data] else ips) + Addresses(rs[1..])
    ensures LastTtl(rs, ttl) == LastTtl(rs[1..], if Carries(rs[0]) then rs[0].ttl else ttl)
  {
    var head: seq<Bytes>, tail := if Carries(rs[0]) then [rs[0].data] else [], Addresses(rs[1..]);
    assert Addresses(rs) == head + tail;
    Associates(ips, head, tail);
    assert ips + [] == ips;
  }

  lemma WrittenLength(r: Record)
    ensures |Written(r)| == 12 + |r.data|
  {
  }

  lemma GotKeeps(s: Scan, a: Bytes, rs: seq<Record>)
    requires s.Scan? && a in s.cached
    ensures forall p :: var g := Got(s, a, rs, p); g.Scan? && g.pos == p && g.who == Some(a) && a in g.cached
  {
  }

  lemma {:induction false} ReadsRecords(w: Waiting, num: nat, buf: Bytes, s: Scan, a: Bytes, rs: seq<Record>)
    requires s.Scan? && s.who == Some(a) && Tied(w, num, s)
    requires |buf| >= 12 && ReadName(buf, 12, []).name == a
    requires (forall r | r in rs :: Fits(r)) && Holds(buf, s.pos, AllWritten(rs))
    ensures Answers(w, num, buf, |rs|, s) == Got(s, a, rs, s.pos + |AllWritten(rs)|)
    decreases rs
  {
    hide OneAnswer, ReadName, Holds, ReadBack, Fits, Got, Written;
    GotKeeps(s, a, rs);
    if rs == [] {
      GotNone(s, a, s.pos);
    } else {
      assert rs[0] in rs && forall r | r in rs[1..] :: r in rs;
      HoldsPart(buf, s.pos, Written(rs[0]), AllWritten(rs[1..]));
      Fields(buf, s.pos, rs[0]);
      ReadsRecord(w, num, buf, s, a, rs[0]);
      GotKeeps(s, a, [rs[0]]);
      var s' := OneAnswer(w, num, buf, s);
      assert |Written(rs[0])| == 12 + |rs[0].data| by { WrittenLength(rs[0]); }
      ReadsRecords(w, num, buf, s', a, rs[1..]);
      GotTwice(s, a, rs, s'.pos, s.pos + |AllWritten(rs)|);
    }
  }

  predicate Wire(num: nat, flags: Bytes, rs: seq<Record>, nd: nat, nx: nat) {
    num < 65536 && |flags| == 2 && nd <= |rs| && |rs| - nd < 65536 && nd < 65536 && nx < 65536
    && forall r | r in rs :: Fits(r)
  }

  lemma HeaderFields(buf: Bytes, num: nat, flags: Bytes, na: nat, nd: nat, nx: nat)
    requires num < 65536 && |flags| == 2 && na < 65536 && nd < 65536 && nx < 65536
    requires Holds(buf, 0, Header(num, flags, 1, na, nd, nx))
    ensures |buf| >= 12 && Word(buf, 0) == num && Word(buf, 4) == 1 && Word(buf, 6) == na && Word(buf, 8) == nd
  {
    var a, b, c, d, e := Be16(num), Be16(1), Be16(na), Be16(nd), Be16(nx);
    assert Header(num, flags, 1, na, nd, nx) == a + (flags + (b + (c + (d + e))));
    HoldsPart(buf, 0, a, flags + (b + (c + (d + e))));
    HoldsPart(buf, 2, flags, b + (c + (d + e)));
    HoldsPart(buf, 4, b, c + (d + e));
    HoldsPart(buf, 6, c, d + e);
    HoldsPart(buf, 8, d, e);
    WordAt(buf, 0, num);
    WordAt(buf, 4, 1);
    WordAt(buf, 6, na);
    WordAt(buf, 8, nd);
  }

  /** Where the parts of an answer stand. */
  lemma ReplyParts(num: nat, flags: Bytes, addr: Bytes, rs: seq<Record>, nd: nat, nx: nat, post: Bytes)
    requires Wire(num, flags, rs, nd, nx)
    ensures var buf, q := Reply(num, flags, addr, rs, nd, nx, post), 12 + |QName(Labels(addr))|;
      && |buf| >= 12 && Word(buf, 0) == num && Word(buf, 4) == 1 && Word(buf, 6) + Word(buf, 8) == |rs|
      && Word(buf, q) == 255 && Word(buf, q + 2) == 1
      && q + 4 <= |buf| && Holds(buf, q + 4, AllWritten(rs))
  {
    hide QName, Labels, AllWritten;
    var buf := Reply(num, flags, addr, rs, nd, nx, post);
    var h, n, t, c, a := Header(num, flags, 1, |rs| - nd, nd, nx), QName(Labels(addr)), Be16(255), Be16(1), AllWritten(rs);
    assert |h| == 12 && buf == h + (n + (t + (c + (a + post))));
    assert Holds(buf, 0, buf);
    HoldsPart(buf, 0, h, n + (t + (c + (a + post))));
    HoldsPart(buf, 12, n, t + (c + (a + post)));
    HoldsPart(buf, 12 + |n|, t, c + (a + post));
    HoldsPart(buf, 14 + |n|, c, a + post);
    HoldsPart(buf, 16 + |n|, a, post);
    HeaderFields(buf, num, flags, |rs| - nd, nd, nx);
    WordAt(buf, 12 + |n|, 255);
    WordAt(buf, 14 + |n|, 1);
  }

  lemma ReplyName(num: nat, flags: Bytes, addr: Bytes, rs: seq<Record>, nd: nat, nx: nat, post: Bytes)
    returns (header: Bytes, tail: Bytes)
    requires Wire(num, flags, rs, nd, nx)
    ensures |header| == 12
    ensures Reply(num, flags, addr, rs, nd, nx, post) == header + QName(Labels(addr)) + tail
  {
    header := Header(num, flags, 1, |rs| - nd, nd, nx);
    tail := Be16(255) + Be16(1) + AllWritten(rs) + post;
    assert Reply(num, flags, addr, rs, nd, nx, post) == header + QName(Labels(addr)) + tail;
  }

  // ----- an answer to the request

  /** The entry that `records` make of what the cache already has for `addr`. */
  function Answered(c: Cache, addr: Bytes, rs: seq<Record>): Cache {
    var was := if addr in c then c[addr] else Entry([], 0);
    c[addr := Entry(was.ips + Addresses(rs), LastTtl(rs, was.ttl))]
  }

  lemma WhoStays(w: Waiting, num: nat, buf: Bytes, n: nat, s: Scan)
    requires Tied(w, num, s) && s.Scan? && s.who.Some?
    ensures var r := Answers(w, num, buf, n, s); r.Rejected? || (r.Scan? && r.who == s.who)
    decreases n
  {
    hide ReadName, Word, Slice, AnswerName, Skip;
    if n > 0 {
      var s' := OneAnswer(w, num, buf, s);
      if s'.Scan? {
        WhoStays(w, num, buf, n - 1, s');
      }
    }
  }

  /** The question names the request: the labels of the address, joined. */
  lemma QuestionRead(w: Waiting, c: Cache, num: nat, flags: Bytes, addr: Bytes, rs: seq<Record>, nd: nat, nx: nat,
                     post: Bytes)
    requires Wire(num, flags, rs, nd, nx) && ShortLabels(addr)
    ensures var buf, name := Reply(num, flags, addr, rs, nd, nx, post), Join(Labels(addr));
      && ReadName(buf, 12, []).name == name
      && Questions(w, num, buf, 1, Scan(12, None, c))
         == Checked(w, num, Scan(16 + |QName(Labels(addr))|, None, c), name)
  {
    hide QName, Labels, ReadName, Join, Normal, Reply, Word, AllWritten, Holds, Checked, Header;
    var buf, s := Reply(num, flags, addr, rs, nd, nx, post), Scan(12, None, c);
    var header, tail := ReplyName(num, flags, addr, rs, nd, nx, post);
    NameRoundTrip(header, addr, tail);
    ReplyParts(num, flags, addr, rs, nd, nx, post);
    var named := ReadName(buf, 12, []);
    assert named == Read(Join(Labels(addr)), 12 + |QName(Labels(addr))|);
    assert Skip(buf, named.pos, 4) == named.pos + 4;
    assert Questions(w, num, buf, 1, s) == Questions(w, num, buf, 0, OneQuestion(w, num, buf, s));
  }

  lemma ScannedParts(w: Waiting, c: Cache, num: nat, flags: Bytes, addr: Bytes, rs: seq<Record>, nd: nat, nx: nat,
                     post: Bytes)
    requires Wire(num, flags, rs, nd, nx) && ShortLabels(addr)
    ensures var buf, name := Reply(num, flags, addr, rs, nd, nx, post), Join(Labels(addr));
      var s := Checked(w, num, Scan(16 + |QName(Labels(addr))|, None, c), name);
      && Word(buf, 0) == num && |buf| >= 12 && Scanned(w, c, buf) == Answers(w, num, buf, |rs|, s)
      && ReadName(buf, 12, []).name == name && Holds(buf, 16 + |QName(Labels(addr))|, AllWritten(rs))
  {
    hide QName, Labels, ReadName, Join, Reply, Word, AllWritten, Holds, Checked, Questions, Answers;
    QuestionRead(w, c, num, flags, addr, rs, nd, nx, post);
    ReplyParts(num, flags, addr, rs, nd, nx, post);
  }

  /** The table after the request for `addr` got `rs`: every callback is called with what the cache then has. */
  function Served(t: Table, addr: Bytes, rs: seq<Record>): Table
    requires addr in t.waiting
  {
    var c := Answered(t.cached, addr, rs);
    Closed(t.(cached := c), addr, 0, c[addr].ips)
  }

  lemma ScannedReply(w: Waiting, c: Cache, num: nat, flags: Bytes, addr: Bytes, rs: seq<Record>, nd: nat, nx: nat,
                     post: Bytes)
    requires addr in w && w[addr].num == num && Wire(num, flags, rs, nd, nx) && ShortLabels(addr)
    ensures var r := Scanned(w, c, Reply(num, flags, addr, rs, nd, nx, post));
      if Normal(addr) then r.Scan? && r.who == Some(addr) && r.cached == Answered(c, addr, rs)
      else r.Rejected? || (r.Scan? && r.who.Some? && r.who.value != addr)
  {
    hide QName, Labels, ReadName, Join, Reply, Word, AllWritten, Holds, Header, Scanned, Answers;
    ScannedParts(w, c, num, flags, addr, rs, nd, nx, post);
    var buf, name := Reply(num, flags, addr, rs, nd, nx, post), Join(Labels(addr));
    var s := Checked(w, num, Scan(16 + |QName(Labels(addr))|, None, c), name);
    if Normal(addr) {
      ReadsRecords(w, num, buf, s, addr, rs);
      if addr !in c {
        assert c[addr := Entry([], 0)][addr := Answered(c, addr, rs)[addr]] == Answered(c, addr, rs);
      }
    } else if s.Scan? {
      WhoStays(w, num, buf, |rs|, s);
    } else {
      assert Answers(w, num, buf, |rs|, s) == s by { RejectedStays(w, num, buf, |rs|, s); }
    }
  }

  lemma RejectedStays(w: Waiting, num: nat, buf: Bytes, n: nat, s: Scan)
    requires !s.Scan?
    ensures Answers(w, num, buf, n, s) == s
  {
  }

  /**
    An answer to the request for `addr`, with its number, any records and anything behind them: when the
    address is the join of its own labels, each callback of the request is called once, with the
    addresses of the A and AAAA records in order behind those already cached, and the request is gone.
    Otherwise the answer leaves the request where it is.
  */
  lemma ReplyDecodes(t: Table, num: nat, flags: Bytes, addr: Bytes, rs: seq<Record>, nd: nat, nx: nat, post: Bytes)
    requires addr in t.waiting && t.waiting[addr].num == num
    requires Wire(num, flags, rs, nd, nx) && ShortLabels(addr)
    ensures var r := Ans(t, Reply(num, flags, addr, rs, nd, nx, post));
      && r.Some?
      && (Normal(addr) <==> r.value == Served(t, addr, rs))
      && (Normal(addr) <==> addr !in r.value.waiting)
      && (!Normal(addr) ==> r.value.waiting[addr] == t.waiting[addr])
  {
    hide Scanned, Reply, Normal, Labels, Answered, ShortLabels;
    ScannedReply(t.waiting, t.cached, num, flags, addr, rs, nd, nx, post);
  }

  /**
    The request that a query writes names its own address, number, type and class: read by the client
    itself, which does not look at the flags, it is an answer without records.
  */
  lemma RequestNamesItself(t: Table, num: nat, addr: Bytes)
    requires addr in t.waiting && t.waiting[addr].num == num && num < 65536
    requires ShortLabels(addr) && Normal(addr)
    ensures Ans(t, Request(num, addr)) == Some(Served(t, addr, []))
  {
    hide Ans, Served, Normal, ShortLabels, Question;
    assert AllWritten([]) == [];
    assert Reply(num, [1, 0], addr, [], 0, 0, []) == Request(num, addr);
    ReplyDecodes(t, num, [1, 0], addr, [], 0, 0, []);
  }
}
