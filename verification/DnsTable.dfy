/** What holds of the table of requests over every run of queries, answers and timeouts. */
module DnsTable {
  import opened Prelude
  import opened DnsName
  import opened DnsMessage

  // ----- one message, whatever its bytes

  /** `d` is `c` but for the entry of `a`, which is there and kept the addresses it had. */
  ghost predicate GrowsAt(c: Cache, d: Cache, a: Bytes) {
    && a in d && (a in c ==> c[a].ips <= d[a].ips)
    && forall b | b != a :: (b in c <==> b in d) && (b in c ==> d[b] == c[b])
  }

  ghost predicate Matches(w: Waiting, num: nat, a: Bytes) {
    a in w && w[a].num == num
  }

  /** Only the entry of one request that is pending under the number has changed. */
  ghost predicate OneEntry(w: Waiting, num: nat, c: Cache, d: Cache) {
    d == c || exists a :: Matches(w, num, a) && GrowsAt(c, d, a)
  }

  ghost predicate Local(w: Waiting, num: nat, c: Cache, s: Scan) {
    match s
    case Scan(_, None, d) => d == c
    case Scan(_, Some(a), d) => Matches(w, num, a) && GrowsAt(c, d, a)
    case Rejected(d) => OneEntry(w, num, c, d)
    case Undefined => true
  }

  lemma CheckedLocal(w: Waiting, num: nat, c: Cache, s: Scan, name: Bytes)
    requires s.Scan? && Tied(w, num, s) && Local(w, num, c, s)
    ensures Local(w, num, c, Checked(w, num, s, name))
  {
  }

  lemma StoredLocal(w: Waiting, num: nat, c: Cache, s: Scan, pos: nat, ttl: nat, ip: Bytes)
    requires Tied(w, num, s) && Local(w, num, c, s)
    ensures Local(w, num, c, Stored(w, num, s, pos, ttl, ip))
  {
  }

  lemma {:induction false} QuestionsLocal(w: Waiting, num: nat, c: Cache, buf: Bytes, n: nat, s: Scan)
    requires Tied(w, num, s) && Local(w, num, c, s)
    ensures Local(w, num, c, Questions(w, num, buf, n, s))
    decreases n
  {
    hide ReadName, Word, Skip, Checked, GrowsAt, Tied;
    if s.Scan? && n > 0 {
      var r := ReadName(buf, s.pos, []);
      var s' := s.(pos := Skip(buf, r.pos, 4));
      assert Tied(w, num, s') by { TiedPos(w, num, s, s'.pos); }
      CheckedLocal(w, num, c, s', r.name);
      QuestionsLocal(w, num, c, buf, n - 1, OneQuestion(w, num, buf, s));
    }
  }

  lemma TiedPos(w: Waiting, num: nat, s: Scan, pos: nat)
    requires s.Scan? && Tied(w, num, s)
    ensures Tied(w, num, s.(pos := pos))
  {
  }

  lemma OneAnswerLocal(w: Waiting, num: nat, c: Cache, buf: Bytes, s: Scan)
    requires s.Scan? && Tied(w, num, s) && Local(w, num, c, s)
    ensures Local(w, num, c, OneAnswer(w, num, buf, s))
  {
    hide Word, Skip, Checked, GrowsAt, Slice, AnswerName, Stored, IsAddress, Tied;
    var n := AnswerName(buf, s.pos);
    var p, rlen := Skip(buf, n.pos, 10), Word(buf, n.pos + 8);
    CheckedLocal(w, num, c, s, n.name);
    var s' := if Word(buf, n.pos + 2) == 1 then Checked(w, num, s, n.name) else s;
    var ttl := Word(buf, n.pos + 4) * 65536 + Word(buf, n.pos + 6);
    StoredLocal(w, num, c, s', Skip(buf, p, rlen), ttl, Slice(buf, p, rlen));
  }

  lemma {:induction false} AnswersLocal(w: Waiting, num: nat, c: Cache, buf: Bytes, n: nat, s: Scan)
    requires Tied(w, num, s) && Local(w, num, c, s)
    ensures Local(w, num, c, Answers(w, num, buf, n, s))
    decreases n
  {
    hide OneAnswer, Local, Tied;
    if s.Scan? && n > 0 {
      OneAnswerLocal(w, num, c, buf, s);
      AnswersLocal(w, num, c, buf, n - 1, OneAnswer(w, num, buf, s));
    }
  }

  lemma ScannedLocal(w: Waiting, c: Cache, buf: Bytes)
    ensures Local(w, Word(buf, 0), c, Scanned(w, c, buf))
  {
    hide Questions, Answers, Word, Skip, Matches, GrowsAt;
    var num := Word(buf, 0);
    var s := Scan(Skip(buf, 0, 12), None, c);
    QuestionsLocal(w, num, c, buf, Word(buf, 4), s);
    AnswersLocal(w, num, c, buf, Word(buf, 6) + Word(buf, 8), Questions(w, num, buf, Word(buf, 4), s));
  }

  /** What a message can do: nothing but a change in one cache entry, or the end of one request of its number. */
  ghost predicate TouchesOne(t: Table, num: nat, t': Table) {
    || (t' == t.(cached := t'.cached) && OneEntry(t.waiting, num, t.cached, t'.cached))
    || exists a :: Matches(t.waiting, num, a) && GrowsAt(t.cached, t'.cached, a)
         && t' == Closed(t.(cached := t'.cached), a, 0, t'.cached[a].ips)
  }

  /**
    A message of any bytes: it closes at most one request, one that is pending under the number in the
    message; it touches no cache entry but that request's, whose addresses stay; with a number that
    no pending request has, it changes nothing at all.
  */
  lemma MessageTouchesOne(t: Table, buf: Bytes)
    ensures var r := Ans(t, buf); r.Some? ==>
      && TouchesOne(t, Word(buf, 0), r.value)
      && ((forall a | a in t.waiting :: t.waiting[a].num != Word(buf, 0)) ==> r.value == t)
  {
    hide Scanned, Word, Closed, CallAll;
    ScannedLocal(t.waiting, t.cached, buf);
    assert t == t.(cached := t.cached);
    var s, num := Scanned(t.waiting, t.cached, buf), Word(buf, 0);
    if s.Scan? && s.who.Some? {
      var a, t' := s.who.value, Ans(t, buf).value;
      assert t'.cached == s.cached by { ClosedCache(t.(cached := s.cached), a, 0, s.cached[a].ips); }
      assert Matches(t.waiting, num, a) && GrowsAt(t.cached, t'.cached, a);
    }
  }

  lemma ClosedCache(t: Table, a: Bytes, err: nat, ips: seq<Bytes>)
    requires a in t.waiting
    ensures Closed(t, a, err, ips).cached == t.cached
  {
  }

  /** Once the question section has named a request, no record is stored through a null pointer. */
  lemma {:induction false} NamedIsDefined(w: Waiting, num: nat, buf: Bytes, n: nat, s: Scan)
    requires Tied(w, num, s) && (s.Rejected? || (s.Scan? && s.who.Some?))
    ensures !Answers(w, num, buf, n, s).Undefined?
    decreases n
  {
    hide AnswerName, Word, Skip, Slice, IsAddress;
    if s.Scan? && n > 0 {
      NamedIsDefined(w, num, buf, n - 1, OneAnswer(w, num, buf, s));
    }
  }

  // ----- what a message says, read without regard to any table

  predicate AsksAny(buf: Bytes, pos: nat) {
    var n := ReadName(buf, pos, []);
    Word(buf, n.pos) == 255 && Word(buf, n.pos + 2) == 1
  }

  function NextQuestion(buf: Bytes, pos: nat): nat {
    Skip(buf, ReadName(buf, pos, []).pos, 4)
  }

  function AfterQuestions(buf: Bytes, pos: nat, n: nat): nat
    decreases n
  {
    if n == 0 then pos else AfterQuestions(buf, NextQuestion(buf, pos), n - 1)
  }

  /** None of the questions is for all records of class IN. */
  predicate NoneAsked(buf: Bytes, pos: nat, n: nat)
    decreases n
  {
    n == 0 || (!AsksAny(buf, pos) && NoneAsked(buf, NextQuestion(buf, pos), n - 1))
  }

  predicate AddressAt(buf: Bytes, pos: nat) {
    var n := AnswerName(buf, pos);
    IsAddress(Word(buf, n.pos), Word(buf, n.pos + 8))
  }

  function ClassAt(buf: Bytes, pos: nat): nat {
    Word(buf, AnswerName(buf, pos).pos + 2)
  }

  function NextRecord(buf: Bytes, pos: nat): nat {
    var n := AnswerName(buf, pos);
    Skip(buf, Skip(buf, n.pos, 10), Word(buf, n.pos + 8))
  }

  /** The first address among `n` records is not of class IN. */
  predicate ForeignFirst(buf: Bytes, pos: nat, n: nat)
    decreases n
  {
    n > 0 && if AddressAt(buf, pos) then ClassAt(buf, pos) != 1 else ForeignFirst(buf, NextRecord(buf, pos), n - 1)
  }

  /** Some address of class IN among `n` records is for another name. */
  predicate Strays(buf: Bytes, pos: nat, n: nat, a: Bytes)
    decreases n
  {
    n > 0 &&
    ((AddressAt(buf, pos) && ClassAt(buf, pos) == 1 && AnswerName(buf, pos).name != a)
     || Strays(buf, NextRecord(buf, pos), n - 1, a))
  }

  // ----- when the null entry is followed

  lemma {:induction false} NamelessWhen(w: Waiting, num: nat, buf: Bytes, n: nat, s: Scan)
    requires s.Scan? && s.who.None?
    ensures Answers(w, num, buf, n, s).Undefined? <==> ForeignFirst(buf, s.pos, n)
    decreases n
  {
    hide AnswerName, Word, Skip, Slice, IsAddress, Accepts;
    if n > 0 {
      var s' := OneAnswer(w, num, buf, s);
      if AddressAt(buf, s.pos) && ClassAt(buf, s.pos) == 1 {
        NamedIsDefined(w, num, buf, n - 1, s');
      } else if !AddressAt(buf, s.pos) {
        NamelessWhen(w, num, buf, n - 1, s');
      }
    }
  }

  lemma {:induction false} NamedStays(w: Waiting, num: nat, buf: Bytes, n: nat, s: Scan)
    requires Tied(w, num, s) && (s.Rejected? || (s.Scan? && s.who.Some?))
    ensures var r := Questions(w, num, buf, n, s); r.Rejected? || (r.Scan? && r.who.Some?)
    decreases n
  {
    hide ReadName, Word, Skip, Accepts;
    if s.Scan? && n > 0 {
      NamedStays(w, num, buf, n - 1, OneQuestion(w, num, buf, s));
    }
  }

  /** The question section names no request exactly when it asks for nothing of class IN. */
  lemma {:induction false} AskedWhen(w: Waiting, num: nat, buf: Bytes, n: nat, s: Scan)
    requires s.Scan? && s.who.None?
    ensures var r := Questions(w, num, buf, n, s);
      if NoneAsked(buf, s.pos, n) then r == s.(pos := AfterQuestions(buf, s.pos, n))
      else r.Rejected? || (r.Scan? && r.who.Some?)
    decreases n
  {
    hide ReadName, Word, Skip, Accepts;
    if n > 0 {
      var s' := OneQuestion(w, num, buf, s);
      if AsksAny(buf, s.pos) {
        NamedStays(w, num, buf, n - 1, s');
      } else {
        AskedWhen(w, num, buf, n - 1, s');
      }
    }
  }

  /**
    A message makes the program follow the null entry exactly when none of its questions is for all records
    of class IN and the first address among its records is of another class; the table does not matter.
  */
  lemma UndefinedWhen(t: Table, buf: Bytes)
    ensures var start := Skip(buf, 0, 12);
      var nq, na := Word(buf, 4), Word(buf, 6) + Word(buf, 8);
      Ans(t, buf) == None
      <==> NoneAsked(buf, start, nq) && ForeignFirst(buf, AfterQuestions(buf, start, nq), na)
  {
    hide Questions, Answers, Word, Skip, NoneAsked, ForeignFirst, AfterQuestions, Closed;
    var num, nq, na, s := Word(buf, 0), Word(buf, 4), Word(buf, 6) + Word(buf, 8), Scan(Skip(buf, 0, 12), None, t.cached);
    AskedWhen(t.waiting, num, buf, nq, s);
    var r := Questions(t.waiting, num, buf, nq, s);
    if NoneAsked(buf, s.pos, nq) {
      NamelessWhen(t.waiting, num, buf, na, r);
    } else {
      NamedIsDefined(t.waiting, num, buf, na, r);
    }
  }

  // ----- when an answer closes its request

  lemma RejectedRest(w: Waiting, num: nat, buf: Bytes, n: nat, s: Scan)
    requires !s.Scan?
    ensures Answers(w, num, buf, n, s) == s
  {
  }

  lemma {:induction false} StraysWhen(w: Waiting, num: nat, buf: Bytes, n: nat, s: Scan, a: Bytes)
    requires s.Scan? && s.who == Some(a) && Tied(w, num, s)
    ensures var r := Answers(w, num, buf, n, s);
      if Strays(buf, s.pos, n, a) then r.Rejected? && a in r.cached
      else r.Scan? && r.who == Some(a)
    decreases n
  {
    hide AnswerName, Word, Skip, Slice, IsAddress;
    if n > 0 {
      var s' := OneAnswer(w, num, buf, s);
      if AddressAt(buf, s.pos) && ClassAt(buf, s.pos) == 1 && AnswerName(buf, s.pos).name != a {
        RejectedRest(w, num, buf, n - 1, s');
      } else {
        StraysWhen(w, num, buf, n - 1, s', a);
      }
    }
  }

  /** Every question for all records of class IN is about `a`. */
  predicate AllAsk(buf: Bytes, pos: nat, n: nat, a: Bytes)
    decreases n
  {
    n == 0 || ((AsksAny(buf, pos) ==> ReadName(buf, pos, []).name == a) && AllAsk(buf, NextQuestion(buf, pos), n - 1, a))
  }

  /** The first such question is. */
  predicate AsksFirst(buf: Bytes, pos: nat, n: nat, a: Bytes)
    decreases n
  {
    n > 0 && if AsksAny(buf, pos) then ReadName(buf, pos, []).name == a else AsksFirst(buf, NextQuestion(buf, pos), n - 1, a)
  }

  /** The first address among `n` records is of class IN and for `a`. */
  predicate NamesFirst(buf: Bytes, pos: nat, n: nat, a: Bytes)
    decreases n
  {
    n > 0 && if AddressAt(buf, pos) then ClassAt(buf, pos) == 1 && AnswerName(buf, pos).name == a
             else NamesFirst(buf, NextRecord(buf, pos), n - 1, a)
  }

  /** The message is about `a` to begin with. */
  predicate FirstNames(buf: Bytes, a: Bytes) {
    var start, nq, na := Skip(buf, 0, 12), Word(buf, 4), Word(buf, 6) + Word(buf, 8);
    if NoneAsked(buf, start, nq) then NamesFirst(buf, AfterQuestions(buf, start, nq), na, a)
    else AsksFirst(buf, start, nq, a)
  }

  /** ... and to the end. */
  predicate StaysWith(buf: Bytes, a: Bytes) {
    var start, nq, na := Skip(buf, 0, 12), Word(buf, 4), Word(buf, 6) + Word(buf, 8);
    AllAsk(buf, start, nq, a) && !Strays(buf, AfterQuestions(buf, start, nq), na, a)
  }

  /** What has been read is not about `a`, and has left its cache entry alone. */
  ghost predicate Elsewhere(c: Cache, r: Scan, a: Bytes) {
    match r
    case Scan(_, who, d) => who != Some(a) && (a in d <==> a in c)
    case Rejected(d) => a in d <==> a in c
    case Undefined => true
  }

  lemma {:induction false} QuestionsOf(w: Waiting, num: nat, buf: Bytes, n: nat, s: Scan, a: Bytes)
    requires s.Scan? && s.who == Some(a) && Tied(w, num, s)
    ensures Questions(w, num, buf, n, s)
         == if AllAsk(buf, s.pos, n, a) then s.(pos := AfterQuestions(buf, s.pos, n)) else Rejected(s.cached)
    decreases n
  {
    hide ReadName, Word, Skip;
    if n > 0 {
      var s' := OneQuestion(w, num, buf, s);
      if AsksAny(buf, s.pos) && ReadName(buf, s.pos, []).name != a {
        assert Questions(w, num, buf, n - 1, s') == s';
      } else {
        QuestionsOf(w, num, buf, n - 1, s', a);
      }
    }
  }

  /** What the question section makes of `a`. */
  lemma {:induction false} QuestionsAbout(w: Waiting, num: nat, buf: Bytes, n: nat, s: Scan, a: Bytes)
    requires s.Scan? && s.who == None && !NoneAsked(buf, s.pos, n)
    ensures var r := Questions(w, num, buf, n, s);
      if AsksFirst(buf, s.pos, n, a) && a in w && w[a].num == num then
        if AllAsk(buf, s.pos, n, a) then r.Scan? && r.who == Some(a) && r.pos == AfterQuestions(buf, s.pos, n)
        else r.Rejected? && a in r.cached
      else Elsewhere(s.cached, r, a) && (r.Rejected? || (r.Scan? && r.who.Some?))
    decreases n
  {
    hide ReadName, Word, Skip;
    var s' := OneQuestion(w, num, buf, s);
    if AsksAny(buf, s.pos) {
      var b := ReadName(buf, s.pos, []).name;
      if s'.Scan? {
        QuestionsOf(w, num, buf, n - 1, s', b);
      } else {
        assert Questions(w, num, buf, n - 1, s') == s';
      }
    } else {
      QuestionsAbout(w, num, buf, n - 1, s', a);
    }
  }

  lemma {:induction false} AnswersOther(w: Waiting, num: nat, buf: Bytes, n: nat, s: Scan, b: Bytes, a: Bytes)
    requires s.Scan? && s.who == Some(b) && Tied(w, num, s) && a != b
    ensures Elsewhere(s.cached, Answers(w, num, buf, n, s), a)
    decreases n
  {
    hide AnswerName, Word, Skip, Slice, IsAddress;
    if n > 0 {
      var s' := OneAnswer(w, num, buf, s);
      if s'.Scan? {
        AnswersOther(w, num, buf, n - 1, s', b, a);
      } else {
        RejectedRest(w, num, buf, n - 1, s');
      }
    }
  }

  /** What the records make of `a` when no question has named a request. */
  lemma {:induction false} AnswersAbout(w: Waiting, num: nat, buf: Bytes, n: nat, s: Scan, a: Bytes)
    requires s.Scan? && s.who == None
    ensures var r := Answers(w, num, buf, n, s);
      if NamesFirst(buf, s.pos, n, a) && a in w && w[a].num == num then
        if Strays(buf, s.pos, n, a) then r.Rejected? && a in r.cached else r.Scan? && r.who == Some(a)
      else Elsewhere(s.cached, r, a)
    decreases n
  {
    hide AnswerName, Word, Skip, Slice, IsAddress;
    if n > 0 {
      var s' := OneAnswer(w, num, buf, s);
      if !AddressAt(buf, s.pos) {
        AnswersAbout(w, num, buf, n - 1, s', a);
      } else if s'.Scan? {
        var b := AnswerName(buf, s.pos).name;
        if b == a {
          StraysWhen(w, num, buf, n - 1, s', a);
        } else {
          AnswersOther(w, num, buf, n - 1, s', b, a);
        }
      } else {
        RejectedRest(w, num, buf, n - 1, s');
      }
    }
  }

  /** What a message makes of a request, read off its bytes and the number of the request. */
  lemma ScannedAbout(w: Waiting, c: Cache, buf: Bytes, a: Bytes)
    ensures var r := Scanned(w, c, buf);
      if FirstNames(buf, a) && a in w && w[a].num == Word(buf, 0) then
        if StaysWith(buf, a) then r.Scan? && r.who == Some(a) else r.Rejected? && a in r.cached
      else Elsewhere(c, r, a)
  {
    hide Word, Skip, AsksFirst, NamesFirst, AllAsk, Strays, NoneAsked, Questions, Answers, AfterQuestions;
    var num, nq, na := Word(buf, 0), Word(buf, 4), Word(buf, 6) + Word(buf, 8);
    var s := Scan(Skip(buf, 0, 12), None, c);
    var r := Questions(w, num, buf, nq, s);
    if NoneAsked(buf, s.pos, nq) {
      AskedWhen(w, num, buf, nq, s);
      NoneAllAsk(buf, s.pos, nq, a);
      AnswersAbout(w, num, buf, na, r, a);
    } else {
      QuestionsAbout(w, num, buf, nq, s, a);
      if r.Scan? && r.who == Some(a) {
        StraysWhen(w, num, buf, na, r, a);
      } else if r.Scan? {
        AnswersOther(w, num, buf, na, r, r.who.value, a);
      } else {
        RejectedRest(w, num, buf, na, r);
      }
    }
  }

  lemma {:induction false} NoneAllAsk(buf: Bytes, pos: nat, n: nat, a: Bytes)
    requires NoneAsked(buf, pos, n)
    ensures AllAsk(buf, pos, n, a)
    decreases n
  {
    if n > 0 {
      NoneAllAsk(buf, NextQuestion(buf, pos), n - 1, a);
    }
  }

  /**
    A message closes a pending request exactly when it has the number of the request, is about its address to begin
    with, by its first question for all records of class IN or, without one, by its first address, and stays with it:
    no such question and no address of class IN is for another name.
  */
  lemma ClosesWhen(t: Table, buf: Bytes, a: Bytes)
    requires a in t.waiting
    ensures var r := Ans(t, buf);
      r.Some? && a !in r.value.waiting
      <==> t.waiting[a].num == Word(buf, 0) && FirstNames(buf, a) && StaysWith(buf, a)
  {
    hide Scanned, Word, FirstNames, StaysWith, CallAll;
    ScannedAbout(t.waiting, t.cached, buf, a);
  }

  /**
    A message makes a cache entry for an address exactly when a request for it is pending under the number of the
    message and the message is about it to begin with. If it does not stay with it, the entry is there beside the
    pending request, and later queries are answered from it.
  */
  lemma EntryFrom(t: Table, buf: Bytes, a: Bytes)
    requires a !in t.cached && Ans(t, buf).Some?
    ensures var r := Ans(t, buf).value;
      && (a in r.cached <==> a in t.waiting && t.waiting[a].num == Word(buf, 0) && FirstNames(buf, a))
      && (a in r.cached && a in r.waiting <==>
            a in t.waiting && t.waiting[a].num == Word(buf, 0) && FirstNames(buf, a) && !StaysWith(buf, a))
  {
    hide Scanned, Word, FirstNames, StaysWith, CallAll;
    ScannedAbout(t.waiting, t.cached, buf, a);
    ScannedLocal(t.waiting, t.cached, buf);
  }

  /** A message whose question section is empty and whose first record is an A record of another class. */
  lemma NamelessIsUndefined()
    ensures Ans(FRESH, [0, 0, 0, 0, 0, 0, 0, 1, 0, 0, 0, 0, 192, 12, 0, 1, 0, 2, 0, 0, 0, 0, 0, 4]) == None
  {
    var buf: Bytes := [0, 0, 0, 0, 0, 0, 0, 1, 0, 0, 0, 0, 192, 12, 0, 1, 0, 2, 0, 0, 0, 0, 0, 4];
    hide Ans, ReadName, Answers, Questions, Scanned;
    assert Skip(buf, 0, 12) == 12 && Word(buf, 4) == 0 && Word(buf, 6) == 1 && Word(buf, 8) == 0;
    assert Word(buf, 14) == 1 && Word(buf, 16) == 2 && Word(buf, 22) == 4;
    assert At(buf, 12) == 192 && AnswerName(buf, 12).pos == 14;
    assert AddressAt(buf, 12) && ClassAt(buf, 12) == 2;
    assert ForeignFirst(buf, 12, 1) && NoneAsked(buf, 12, 0) && AfterQuestions(buf, 12, 0) == 12;
    UndefinedWhen(FRESH, buf);
  }

  // ----- runs

  datatype Op =
    | Ask(addr: Bytes, cb: nat, num: nat, found: bool)
    | Receive(buf: Bytes)
    | Elapse(addr: Bytes)

  function Step(t: Table, op: Op): Option<Table> {
    match op
    case Ask(addr, cb, num, found) => Some(Query(t, addr, cb, num, found))
    case Receive(buf) => Ans(t, buf)
    case Elapse(addr) => Some(Expire(t, addr))
  }

  function Run(t: Table, ops: seq<Op>): Option<Table>
    decreases |ops|
  {
    if ops == [] then Some(t)
    else
      var r := Step(t, ops[0]);
      if r.None? then None else Run(r.value, ops[1..])
  }

  /** The callbacks given for an address, those called for it, and those still pending. */
  function Asked(ops: seq<Op>, a: Bytes): seq<nat> {
    if ops == [] then [] else AskedBy(ops[0], a) + Asked(ops[1..], a)
  }

  function AskedBy(op: Op, a: Bytes): seq<nat> {
    if op.Ask? && op.addr == a then [op.cb] else []
  }

  function Called(calls: seq<Call>, a: Bytes): seq<nat> {
    if calls == [] then [] else (if calls[0].addr == a then [calls[0].cb] else []) + Called(calls[1..], a)
  }

  function Pending(t: Table, a: Bytes): seq<nat> {
    if a in t.waiting then t.waiting[a].cbs else []
  }

  /** The callback that a query without a server calls although it leaves it pending. */
  function Extra(t: Table, op: Op, a: Bytes): seq<nat> {
    if op.Ask? && op.addr == a && a !in t.cached && a !in t.waiting && !t.servers && (t.usedResolv || !op.found)
    then [op.cb] else []
  }

  function Extras(t: Table, ops: seq<Op>, a: Bytes): seq<nat>
    decreases |ops|
  {
    if ops == [] then []
    else
      var r := Step(t, ops[0]);
      Extra(t, ops[0], a) + if r.None? then [] else Extras(r.value, ops[1..], a)
  }

  /** The calls made and to be made for an address. */
  function Due(t: Table, a: Bytes): multiset<nat> {
    multiset(Called(t.calls, a)) + multiset(Pending(t, a))
  }

  lemma CalledNone(a: Bytes)
    ensures Called([], a) == []
  {
  }

  lemma CalledFirst(p: seq<Call>, a: Bytes)
    requires p != []
    ensures Called(p, a) == (if p[0].addr == a then [p[0].cb] else []) + Called(p[1..], a)
  {
  }

  lemma {:induction false} CalledConcat(p: seq<Call>, q: seq<Call>, a: Bytes)
    ensures Called(p + q, a) == Called(p, a) + Called(q, a)
  {
    hide Called;
    if p == [] {
      assert p + q == q;
      CalledNone(a);
    } else {
      CalledConcat(p[1..], q, a);
      assert (p + q)[0] == p[0] && (p + q)[1..] == p[1..] + q;
      CalledFirst(p, a);
      CalledFirst(p + q, a);
    }
  }

  lemma {:induction false} CalledAll(addr: Bytes, cbs: seq<nat>, err: nat, ips: seq<Bytes>, a: Bytes)
    ensures Called(CallAll(addr, cbs, err, ips), a) == if a == addr then cbs else []
  {
    if cbs != [] {
      CalledAll(addr, cbs[1..], err, ips, a);
      var all := CallAll(addr, cbs, err, ips);
      assert all[0] == Call(addr, cbs[0], err, ips) && all[1..] == CallAll(addr, cbs[1..], err, ips);
      assert [cbs[0]] + cbs[1..] == cbs;
    }
  }

  lemma CalledOne(calls: seq<Call>, c: Call, a: Bytes)
    ensures Called(calls + [c], a) == Called(calls, a) + if c.addr == a then [c.cb] else []
  {
    CalledConcat(calls, [c], a);
    assert [c][1..] == [];
    assert Called([c], a) == (if c.addr == a then [c.cb] else []) + Called([c][1..], a);
  }

  lemma ClosedDue(t: Table, addr: Bytes, err: nat, ips: seq<Bytes>, a: Bytes)
    requires addr in t.waiting
    ensures Due(Closed(t, addr, err, ips), a) == Due(t, a)
  {
    hide Called, CallAll;
    var cbs := t.waiting[addr].cbs;
    CalledConcat(t.calls, CallAll(addr, cbs, err, ips), a);
    CalledAll(addr, cbs, err, ips, a);
    if a == addr {
      assert multiset(Called(t.calls, a) + cbs) == multiset(Called(t.calls, a)) + multiset(cbs);
    } else {
      assert Called(t.calls, a) + [] == Called(t.calls, a);
    }
  }

  /** Whether a query calls its callback at once, and whether it leaves it pending. */
  lemma QueryParts(t: Table, op: Op, a: Bytes)
    requires op.Ask?
    ensures var t', mine := Query(t, op.addr, op.cb, op.num, op.found), AskedBy(op, a);
      && Called(t'.calls, a) == Called(t.calls, a) + (if op.addr in t.cached then mine else Extra(t, op, a))
      && Pending(t', a) == Pending(t, a) + if op.addr in t.cached then [] else mine
  {
    hide Called, Request;
    if op.addr in t.cached {
      CalledOne(t.calls, Call(op.addr, op.cb, 0, t.cached[op.addr].ips), a);
    } else {
      CalledOne(t.calls, Call(op.addr, op.cb, NO_RESOLV_ENTRY, []), a);
    }
  }

  lemma QueryDue(t: Table, op: Op, a: Bytes)
    requires op.Ask?
    ensures Due(Query(t, op.addr, op.cb, op.num, op.found), a)
         == Due(t, a) + multiset(AskedBy(op, a)) + multiset(Extra(t, op, a))
  {
    hide Called, Pending, Query, AskedBy;
    QueryParts(t, op, a);
    var p, q, x, y := Called(t.calls, a), Pending(t, a), AskedBy(op, a), Extra(t, op, a);
    assert multiset(p + x) == multiset(p) + multiset(x) && multiset(p + y) == multiset(p) + multiset(y);
    assert multiset(q + x) == multiset(q) + multiset(x) && q + [] == q;
    assert op.addr in t.cached ==> y == [];
  }

  lemma StepDue(t: Table, op: Op, a: Bytes)
    ensures var r := Step(t, op);
      r.Some? ==> Due(r.value, a) == Due(t, a) + multiset(AskedBy(op, a)) + multiset(Extra(t, op, a))
  {
    hide Query, Closed, Due, Scanned, Called, Pending;
    match op
    case Ask(addr, cb, num, found) => QueryDue(t, op, a);
    case Elapse(addr) =>
      if addr in t.waiting {
        ClosedDue(t, addr, TIMEOUT, [], a);
      }
    case Receive(buf) =>
      var s := Scanned(t.waiting, t.cached, buf);
      if s.Scan? || s.Rejected? {
        var t' := t.(cached := s.cached);
        assert Due(t', a) == Due(t, a) by { CacheDue(t, s.cached, a); }
        if s.Scan? && s.who.Some? {
          ClosedDue(t', s.who.value, 0, s.cached[s.who.value].ips, a);
        }
      }
  }

  lemma CacheDue(t: Table, c: Cache, a: Bytes)
    ensures Due(t.(cached := c), a) == Due(t, a)
  {
  }

  /** Conservation over every run: calls made and pending are the callbacks given and the extra calls. */
  lemma {:induction false} CallsConserved(t: Table, ops: seq<Op>, a: Bytes)
    ensures var r := Run(t, ops); r.Some? ==>
      Due(r.value, a) == Due(t, a) + multiset(Asked(ops, a)) + multiset(Extras(t, ops, a))
    decreases |ops|
  {
    hide Due, AskedBy, Extra, Step;
    if ops != [] {
      StepDue(t, ops[0], a);
      var r := Step(t, ops[0]);
      if r.Some? {
        CallsConserved(r.value, ops[1..], a);
        var x, y := AskedBy(ops[0], a), Asked(ops[1..], a);
        assert multiset(x + y) == multiset(x) + multiset(y);
        var p, q := Extra(t, ops[0], a), Extras(r.value, ops[1..], a);
        assert multiset(p + q) == multiset(p) + multiset(q);
      }
    }
  }

  // ----- the query without a server

  /** The first query of a run, which is the one that may read the configuration file. */
  predicate ServerFound(ops: seq<Op>) {
    ops == [] || (if ops[0].Ask? then ops[0].found else ServerFound(ops[1..]))
  }

  lemma {:induction false} NoExtraOnceKnown(t: Table, ops: seq<Op>, a: Bytes)
    requires t.servers
    ensures Extras(t, ops, a) == []
    decreases |ops|
  {
    hide Scanned, Request, CallAll;
    if ops != [] {
      var r := Step(t, ops[0]);
      if r.Some? {
        NoExtraOnceKnown(r.value, ops[1..], a);
      }
    }
  }

  /** Nothing is pending or cached before the first query. */
  predicate Untouched(t: Table) {
    t.waiting == map[] && t.cached == map[] && !t.servers && !t.usedResolv
  }

  lemma UntouchedStays(t: Table, op: Op)
    requires Untouched(t) && !op.Ask? && Step(t, op).Some?
    ensures Step(t, op).value == t
  {
    hide Scanned, Word;
    if op.Receive? {
      MessageTouchesOne(t, op.buf);
    }
  }

  ghost predicate AnyExtra(t: Table, ops: seq<Op>) {
    exists a :: Extras(t, ops, a) != []
  }

  lemma {:induction false} ExtrasWhen(t: Table, ops: seq<Op>)
    requires Untouched(t) && Run(t, ops).Some?
    ensures AnyExtra(t, ops) <==> !ServerFound(ops)
    decreases |ops|
  {
    hide Scanned, Request, Closed;
    if ops != [] {
      var op := ops[0];
      var t' := Step(t, op).value;
      if op.Ask? {
        if op.found {
          forall a ensures Extras(t, ops, a) == [] {
            NoExtraOnceKnown(t', ops[1..], a);
          }
        } else {
          assert Extra(t, op, op.addr) == [op.cb];
          assert Extras(t, ops, op.addr)[0] == op.cb;
        }
      } else {
        UntouchedStays(t, op);
        ExtrasWhen(t, ops[1..]);
        assert forall a :: Extras(t, ops, a) == Extras(t, ops[1..], a);
      }
    }
  }

  ghost predicate EachCallOnce(t: Table, ops: seq<Op>) {
    forall a :: Due(t, a) == multiset(Asked(ops, a))
  }

  /**
    Over every run of a new client that stays defined: each callback given is called once or still
    pending, and not both, exactly when the configuration file, read at the first query, names a server.
    Without one the first callback is called and stays pending all the same.
  */
  lemma CalledOnceWhen(ops: seq<Op>)
    requires Run(FRESH, ops).Some?
    ensures EachCallOnce(Run(FRESH, ops).value, ops) <==> ServerFound(ops)
  {
    hide Run, Asked, Extras, ServerFound;
    var t := Run(FRESH, ops).value;
    forall a ensures Due(t, a) == multiset(Asked(ops, a)) + multiset(Extras(FRESH, ops, a)) {
      CallsConserved(FRESH, ops, a);
      assert Due(FRESH, a) == multiset{};
    }
    ExtrasWhen(FRESH, ops);
    if AnyExtra(FRESH, ops) {
      var a :| Extras(FRESH, ops, a) != [];
      assert |Due(t, a)| == |Asked(ops, a)| + |Extras(FRESH, ops, a)|;
      assert |multiset(Asked(ops, a))| == |Asked(ops, a)|;
    }
  }

  // ----- the share in the count of the event loop

  /** The count held by the table is the number of its requests. */
  predicate Counted(t: Table) {
    t.nb == |t.waiting|
  }

  lemma ErasedSize(w: Waiting, a: Bytes)
    requires a in w
    ensures |w - {a}| == |w| - 1
  {
    assert w == (w - {a})[a := w[a]];
    assert (w - {a}).Keys == w.Keys - {a};
  }

  lemma InsertedSize(w: Waiting, a: Bytes, x: Wcb)
    ensures |w[a := x]| == |w| + if a in w then 0 else 1
  {
    assert w[a := x].Keys == w.Keys + {a};
    if a in w {
      assert w.Keys + {a} == w.Keys;
    }
  }

  lemma QueryCounted(t: Table, addr: Bytes, cb: nat, num: nat, found: bool)
    requires Counted(t)
    ensures Counted(Query(t, addr, cb, num, found))
  {
    hide Request;
    if addr in t.waiting {
      InsertedSize(t.waiting, addr, Wcb(t.waiting[addr].cbs + [cb], t.waiting[addr].num));
    } else {
      InsertedSize(t.waiting, addr, Wcb([cb], num));
    }
  }

  lemma StepCounted(t: Table, op: Op)
    requires Counted(t) && Step(t, op).Some?
    ensures Counted(Step(t, op).value)
  {
    hide Scanned, CallAll, Query;
    match op
    case Ask(addr, cb, num, found) => QueryCounted(t, addr, cb, num, found);
    case Elapse(addr) =>
      if addr in t.waiting {
        ErasedSize(t.waiting, addr);
      }
    case Receive(buf) =>
      var s := Scanned(t.waiting, t.cached, buf);
      if s.Scan? && s.who.Some? {
        ErasedSize(t.waiting, s.who.value);
      }
  }

  lemma {:induction false} RunCounted(t: Table, ops: seq<Op>)
    requires Counted(t) && Run(t, ops).Some?
    ensures Counted(Run(t, ops).value)
    decreases |ops|
  {
    hide Step, Counted;
    if ops != [] {
      StepCounted(t, ops[0]);
      RunCounted(Step(t, ops[0]).value, ops[1..]);
    }
  }
}
