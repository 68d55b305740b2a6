/** DNS messages and the table of requests: Dns::query, Dns::ans, Dns::Wcb (sections 4.1.1 to 4.1.4 of RFC 1035). */
module DnsMessage {
  import opened Prelude
  import opened DnsName

  const NO_RESOLV_ENTRY: nat := 1
  const TIMEOUT: nat := 2

  /** A cached answer. */
  datatype Entry = Entry(ips: seq<Bytes>, ttl: nat)

  /** A request that waits for its answer: the callbacks, oldest first, and the number of the request. */
  datatype Wcb = Wcb(cbs: seq<nat>, num: nat)

  /** One call of a callback. */
  datatype Call = Call(addr: Bytes, cb: nat, err: nat, ips: seq<Bytes>)

  type Waiting = map<Bytes, Wcb>
  type Cache = map<Bytes, Entry>

  datatype Table = Table(
    waiting: Waiting, cached: Cache,
    servers: bool,        // a server address is known
    usedResolv: bool,     // the configuration file has been read
    nb: int,              // share of the table in EvLoop::nb_waiting_events
    calls: seq<Call>, sent: seq<Bytes>)

  // ----- fields of a message

  function Be16(n: nat): Bytes {
    [n / 256 % 256, n % 256]
  }

  function Word(buf: Bytes, i: nat): nat {
    At(buf, i) * 256 + At(buf, i + 1)
  }

  function Skip(buf: Bytes, pos: nat, n: nat): nat {
    if pos + n <= |buf| then pos + n else if pos <= |buf| then |buf| else pos
  }

  function Slice(buf: Bytes, pos: nat, n: nat): Bytes {
    seq<Byte>(n, i requires 0 <= i < n => At(buf, pos + i))
  }

  function Header(num: nat, flags: Bytes, nq: nat, na: nat, nd: nat, nx: nat): Bytes {
    Be16(num) + flags + Be16(nq) + Be16(na) + Be16(nd) + Be16(nx)
  }

  function Question(addr: Bytes): Bytes {
    QName(Labels(addr)) + Be16(255) + Be16(1)
  }

  function Request(num: nat, addr: Bytes): Bytes {
    Header(num, [1, 0], 1, 0, 0, 0) + Question(addr)
  }

  // ----- reading an answer

  /** What has been read so far. `who` is the request that the message answers, once that is known. */
  datatype Scan =
    | Scan(pos: nat, who: Option<Bytes>, cached: Cache)
    | Rejected(cached: Cache)
    | Undefined

  /** The request found is pending under the number of the message and has a cache entry. */
  ghost predicate Tied(w: Waiting, num: nat, s: Scan) {
    s.Scan? && s.who.Some? ==> s.who.value in w && w[s.who.value].num == num && s.who.value in s.cached
  }

  predicate Accepts(w: Waiting, num: nat, who: Option<Bytes>, name: Bytes) {
    match who
    case Some(n) => n == name
    case None => name in w && w[name].num == num
  }

  /** Dns::check_name, and the return that follows when it fails. */
  function Checked(w: Waiting, num: nat, s: Scan, name: Bytes): (r: Scan)
    requires s.Scan? && Tied(w, num, s)
    ensures Tied(w, num, r) && !r.Undefined?
  {
    if !Accepts(w, num, s.who, name) then Rejected(s.cached)
    else if name in s.cached then s.(who := Some(name))
    else s.(who := Some(name), cached := s.cached[name := Entry([], 0)])
  }

  function OneQuestion(w: Waiting, num: nat, buf: Bytes, s: Scan): (r: Scan)
    requires s.Scan? && Tied(w, num, s)
    ensures Tied(w, num, r) && !r.Undefined?
  {
    var n := ReadName(buf, s.pos, []);
    var s' := s.(pos := Skip(buf, n.pos, 4));
    if Word(buf, n.pos) == 255 && Word(buf, n.pos + 2) == 1 then Checked(w, num, s', n.name) else s'
  }

  function Questions(w: Waiting, num: nat, buf: Bytes, n: nat, s: Scan): (r: Scan)
    requires Tied(w, num, s)
    ensures Tied(w, num, r)
    decreases n
  {
    if !s.Scan? || n == 0 then s else Questions(w, num, buf, n - 1, OneQuestion(w, num, buf, s))
  }

  /** The name of a record: a pointer, or else labels, which are read from the byte after the first one. */
  function AnswerName(buf: Bytes, pos: nat): Read {
    var c: nat := At(buf, pos);
    var next := Skip(buf, pos, 1);
    if c >= 192 then
      var target := (c - 192) * 256 + At(buf, next);
      Read(ReadName(buf, if target <= |buf| then target else |buf|, []).name, Skip(buf, next, 1))
    else ReadName(buf, next, [])
  }

  predicate IsAddress(kind: nat, rlen: nat) {
    (kind == 1 && rlen == 4) || (kind == 28 && rlen == 16)
  }

  /** The entry gets one more address. Without an entry the program follows a null pointer. */
  function Stored(w: Waiting, num: nat, s: Scan, pos: nat, ttl: nat, ip: Bytes): (r: Scan)
    requires Tied(w, num, s)
    ensures Tied(w, num, r)
  {
    if !s.Scan? then s
    else if s.who.None? then Undefined
    else
      var a := s.who.value;
      Scan(pos, s.who, s.cached[a := Entry(s.cached[a].ips + [ip], ttl)])
  }

  function OneAnswer(w: Waiting, num: nat, buf: Bytes, s: Scan): (r: Scan)
    requires s.Scan? && Tied(w, num, s)
    ensures Tied(w, num, r)
  {
    var n := AnswerName(buf, s.pos);
    var p := Skip(buf, n.pos, 10);
    var rlen := Word(buf, n.pos + 8);
    if IsAddress(Word(buf, n.pos), rlen) then
      var s' := if Word(buf, n.pos + 2) == 1 then Checked(w, num, s, n.name) else s;
      var ttl := Word(buf, n.pos + 4) * 65536 + Word(buf, n.pos + 6);
      Stored(w, num, s', Skip(buf, p, rlen), ttl, Slice(buf, p, rlen))
    else s.(pos := Skip(buf, p, rlen))
  }

  function Answers(w: Waiting, num: nat, buf: Bytes, n: nat, s: Scan): (r: Scan)
    requires Tied(w, num, s)
    ensures Tied(w, num, r)
    decreases n
  {
    if !s.Scan? || n == 0 then s else Answers(w, num, buf, n - 1, OneAnswer(w, num, buf, s))
  }

  function Scanned(w: Waiting, cached: Cache, buf: Bytes): (r: Scan)
    ensures Tied(w, Word(buf, 0), r)
  {
    var num := Word(buf, 0);
    var s := Questions(w, num, buf, Word(buf, 4), Scan(Skip(buf, 0, 12), None, cached));
    Answers(w, num, buf, Word(buf, 6) + Word(buf, 8), s)
  }

  // ----- the operations on the table

  function CallAll(addr: Bytes, cbs: seq<nat>, err: nat, ips: seq<Bytes>): seq<Call> {
    if cbs == [] then [] else [Call(addr, cbs[0], err, ips)] + CallAll(addr, cbs[1..], err, ips)
  }

  /** Every callback of a request is called and the request is erased, which gives back its count. */
  function Closed(t: Table, addr: Bytes, err: nat, ips: seq<Bytes>): Table
    requires addr in t.waiting
  {
    t.(waiting := t.waiting - {addr}, nb := t.nb - 1,
       calls := t.calls + CallAll(addr, t.waiting[addr].cbs, err, ips))
  }

  /** Dns::ans. There is no value when the program follows a null pointer. */
  function Ans(t: Table, buf: Bytes): Option<Table> {
    match Scanned(t.waiting, t.cached, buf)
    case Undefined => None
    case Rejected(c) => Some(t.(cached := c))
    case Scan(_, None, c) => Some(t.(cached := c))
    case Scan(_, Some(a), c) => Some(Closed(t.(cached := c), a, 0, c[a].ips))
  }

  /** Wcb::on_timeout. Only pending requests have a timeout. */
  function Expire(t: Table, addr: Bytes): Table {
    if addr in t.waiting then Closed(t, addr, TIMEOUT, []) else t
  }

  /** Dns::query, with the random number drawn and whether the configuration file names a server. */
  function Query(t: Table, addr: Bytes, cb: nat, num: nat, found: bool): Table {
    if addr in t.cached then t.(calls := t.calls + [Call(addr, cb, 0, t.cached[addr].ips)])
    else if addr in t.waiting then
      t.(waiting := t.waiting[addr := Wcb(t.waiting[addr].cbs + [cb], t.waiting[addr].num)])
    else
      var known := t.servers || (!t.usedResolv && found);
      var t' := t.(waiting := t.waiting[addr := Wcb([cb], num)], nb := t.nb + 1,
                   servers := known, usedResolv := t.usedResolv || !t.servers);
      if known then t'.(sent := t.sent + [Request(num, addr)])
      else t'.(calls := t.calls + [Call(addr, cb, NO_RESOLV_ENTRY, [])])
  }

  const FRESH := Table(map[], map[], false, false, 0, [], [])
}
