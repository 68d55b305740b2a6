/** Domain names: the QNAME that a query writes and the reader of names in answers (section 3.1 of RFC 1035). */
module DnsName {

  type Byte = b: int | 0 <= b < 256
  type Bytes = seq<Byte>

  const DOT: Byte := 46
  const AT: Byte := 64

  predicate Separates(c: Byte) {
    c == DOT || c == AT
  }

  /** A C string: what comes before the first zero byte. */
  function Text(addr: Bytes): Bytes {
    if addr == [] || addr[0] == 0 then [] else [addr[0]] + Text(addr[1..])
  }

  /** All the pieces between separators, empty ones included. */
  function Pieces(text: Bytes): (r: seq<Bytes>)
    ensures r != []
  {
    if text == [] then [[]]
    else
      var rest := Pieces(text[1..]);
      if Separates(text[0]) then [[]] + rest else [[text[0]] + rest[0]] + rest[1..]
  }

  function NonEmpty(pieces: seq<Bytes>): seq<Bytes> {
    if pieces == [] then []
    else (if pieces[0] == [] then [] else [pieces[0]]) + NonEmpty(pieces[1..])
  }

  function Labels(addr: Bytes): seq<Bytes> {
    NonEmpty(Pieces(Text(addr)))
  }

  /** Each label with its length in one byte in front. */
  function Prefixed(labels: seq<Bytes>): Bytes {
    if labels == [] then [] else [|labels[0]| % 256] + labels[0] + Prefixed(labels[1..])
  }

  function QName(labels: seq<Bytes>): Bytes {
    Prefixed(labels) + [0]
  }

  /** The name as users write it. */
  function Join(labels: seq<Bytes>): Bytes {
    if labels == [] then []
    else if |labels| == 1 then labels[0]
    else labels[0] + [DOT] + Join(labels[1..])
  }

  // ----- the reader

  /** A read past the end of the message yields 0. */
  function At(buf: Bytes, i: nat): Byte {
    if i < |buf| then buf[i] else 0
  }

  datatype Read = Read(name: Bytes, pos: nat)

  /** Labels are appended to `name`, with a dot in between, up to the empty label. */
  function ReadName(buf: Bytes, pos: nat, name: Bytes): Read
    decreases |buf| - pos
  {
    var c: nat := At(buf, pos);
    if c == 0 then Read(name, if pos < |buf| then pos + 1 else pos)
    else if pos + 1 + c > |buf| then Read([], pos + 1)
    else ReadName(buf, pos + 1 + c, (if name == [] then [] else name + [DOT]) + buf[pos + 1..pos + 1 + c])
  }

  // ----- facts about the pieces

  predicate Clean(part: Bytes) {
    part != [] && forall c | c in part :: c != 0 && !Separates(c)
  }

  lemma {:induction false} TextClean(addr: Bytes)
    ensures 0 !in Text(addr)
  {
    if addr != [] && addr[0] != 0 {
      TextClean(addr[1..]);
    }
  }

  lemma {:induction false} PiecesClean(text: Bytes)
    requires 0 !in text
    ensures forall p, c | p in Pieces(text) && c in p :: c != 0 && !Separates(c)
  {
    if text != [] {
      PiecesClean(text[1..]);
      var rest := Pieces(text[1..]);
      forall p, c | p in Pieces(text) && c in p ensures c != 0 && !Separates(c) {
        if Separates(text[0]) {
          assert p in rest;
        } else if p !in rest {
          assert p == [text[0]] + rest[0] && rest[0] in rest;
        }
      }
    }
  }

  lemma {:induction false} NonEmptyKeeps(pieces: seq<Bytes>)
    ensures forall p :: p in NonEmpty(pieces) <==> p in pieces && p != []
  {
    if pieces != [] {
      NonEmptyKeeps(pieces[1..]);
      assert pieces == [pieces[0]] + pieces[1..];
    }
  }

  lemma LabelsClean(addr: Bytes)
    ensures forall l | l in Labels(addr) :: Clean(l)
  {
    TextClean(addr);
    PiecesClean(Text(addr));
    NonEmptyKeeps(Pieces(Text(addr)));
  }

  // ----- the round trip

  function Continued(name: Bytes, part: Bytes): Bytes {
    (if name == [] then [] else name + [DOT]) + part
  }

  /** Reading the labels on top of `name`. */
  function Grown(name: Bytes, labels: seq<Bytes>): Bytes
    decreases |labels|
  {
    if labels == [] then name else Grown(Continued(name, labels[0]), labels[1..])
  }

  lemma ContinuedTwice(name: Bytes, l: Bytes, rest: Bytes)
    requires l != []
    ensures Continued(Continued(name, l), rest) == Continued(name, l + [DOT] + rest)
  {
  }

  lemma {:induction false} GrownIsJoin(name: Bytes, labels: seq<Bytes>)
    requires forall l | l in labels :: l != []
    ensures Grown(name, labels) == if labels == [] then name else Continued(name, Join(labels))
    decreases |labels|
  {
    hide Continued;
    if labels != [] {
      assert labels[0] in labels && forall l | l in labels[1..] :: l in labels;
      GrownIsJoin(Continued(name, labels[0]), labels[1..]);
      if |labels| > 1 {
        ContinuedTwice(name, labels[0], Join(labels[1..]));
      }
    }
  }

  lemma QNameCons(pre: Bytes, labels: seq<Bytes>, post: Bytes)
    requires labels != []
    ensures var l, buf := labels[0], pre + QName(labels) + post;
      && buf == (pre + [|l| % 256] + l) + QName(labels[1..]) + post
      && |buf| >= |pre| + 1 + |l| && buf[|pre|] == |l| % 256 && buf[|pre| + 1..|pre| + 1 + |l|] == l
      && |QName(labels)| == 1 + |l| + |QName(labels[1..])|
  {
    var l := labels[0];
    assert QName(labels) == [|l| % 256] + l + QName(labels[1..]);
  }

  /** The reader takes the first label and goes on behind it. */
  lemma ReadsOne(pre: Bytes, labels: seq<Bytes>, post: Bytes, name: Bytes)
    requires labels != [] && 0 < |labels[0]| < 256
    ensures var l := labels[0];
      ReadName(pre + QName(labels) + post, |pre|, name)
      == ReadName((pre + [|l|] + l) + QName(labels[1..]) + post, |pre + [|l|] + l|, Continued(name, l))
  {
    hide QName;
    QNameCons(pre, labels, post);
  }

  lemma NoLabels(pre: Bytes, post: Bytes)
    ensures ReadName(pre + QName([]) + post, |pre|, []) == Read([], |pre| + |QName([])|)
    ensures forall name :: ReadName(pre + QName([]) + post, |pre|, name) == Read(name, |pre| + |QName([])|)
  {
    assert (pre + QName([]) + post)[|pre|] == 0;
  }

  /** The reader, on the labels written at `pos`, gets them all and stops behind the terminator. */
  lemma {:induction false} ReadsLabels(pre: Bytes, labels: seq<Bytes>, post: Bytes, name: Bytes)
    requires forall l | l in labels :: 0 < |l| < 256
    ensures ReadName(pre + QName(labels) + post, |pre|, name) == Read(Grown(name, labels), |pre| + |QName(labels)|)
    decreases |labels|
  {
    hide QName, Prefixed;
    if labels == [] {
      NoLabels(pre, post);
    } else {
      var l := labels[0];
      assert l in labels && forall p | p in labels[1..] :: p in labels;
      QNameCons(pre, labels, post);
      ReadsOne(pre, labels, post, name);
      ReadsLabels(pre + [|l|] + l, labels[1..], post, Continued(name, l));
    }
  }

  /** A name read on top of `name` either is lost, or is `name`, or goes on with a dot. */
  lemma {:induction false} ReadExtends(buf: Bytes, pos: nat, name: Bytes)
    requires name != []
    ensures var r := ReadName(buf, pos, name).name;
      r == [] || (name <= r && (|r| > |name| ==> r[|name|] == DOT))
    decreases |buf| - pos
  {
    var c: nat := At(buf, pos);
    if c != 0 && pos + 1 + c <= |buf| {
      ReadExtends(buf, pos + 1 + c, name + [DOT] + buf[pos + 1..pos + 1 + c]);
    }
  }

  // ----- labels of a name

  lemma PiecesFirst(text: Bytes)
    requires text != []
    ensures Pieces(text) == PieceOn(text[0], Pieces(text[1..]))
  {
  }

  /** One more byte in front of some pieces. */
  function PieceOn(c: Byte, rest: seq<Bytes>): seq<Bytes>
    requires rest != []
  {
    if Separates(c) then [[]] + rest else [[c] + rest[0]] + rest[1..]
  }

  lemma PieceOnConcat(c: Byte, p: seq<Bytes>, q: seq<Bytes>)
    requires p != []
    ensures PieceOn(c, p + q) == PieceOn(c, p) + q
  {
    assert (p + q)[0] == p[0] && (p + q)[1..] == p[1..] + q;
  }

  lemma {:induction false} PiecesAtDot(a: Bytes, b: Bytes)
    ensures Pieces(a + [DOT] + b) == Pieces(a) + Pieces(b)
  {
    hide Pieces, PieceOn;
    var ab := a + [DOT] + b;
    PiecesFirst(ab);
    if a == [] {
      assert ab[0] == DOT && ab[1..] == b;
      DotPieces(Pieces(b));
    } else {
      PiecesAtDot(a[1..], b);
      assert ab[0] == a[0] && ab[1..] == a[1..] + [DOT] + b;
      PiecesFirst(a);
      PieceOnConcat(a[0], Pieces(a[1..]), Pieces(b));
    }
  }

  lemma DotPieces(rest: seq<Bytes>)
    requires rest != []
    ensures PieceOn(DOT, rest) == Pieces([]) + rest
  {
  }

  lemma NonEmptyFirst(p: seq<Bytes>)
    requires p != []
    ensures NonEmpty(p) == if p[0] == [] then NonEmpty(p[1..]) else [p[0]] + NonEmpty(p[1..])
  {
    assert [] + NonEmpty(p[1..]) == NonEmpty(p[1..]);
  }

  lemma ConcatFirst(p: seq<Bytes>, q: seq<Bytes>)
    ensures p != [] ==> (p + q)[0] == p[0] && (p + q)[1..] == p[1..] + q
    ensures [] + q == q
  {
  }

  lemma Associates(p: seq<Bytes>, q: seq<Bytes>, r: seq<Bytes>)
    ensures p + (q + r) == (p + q) + r
  {
  }

  lemma {:induction false} NonEmptyConcat(p: seq<Bytes>, q: seq<Bytes>)
    ensures NonEmpty(p + q) == NonEmpty(p) + NonEmpty(q)
  {
    hide NonEmpty;
    ConcatFirst(p, q);
    if p == [] {
      assert NonEmpty(p) == [] by { NoneNonEmpty(); }
      ConcatFirst([], NonEmpty(q));
    } else {
      NonEmptyConcat(p[1..], q);
      NonEmptyFirst(p);
      NonEmptyFirst(p + q);
      Associates([p[0]], NonEmpty(p[1..]), NonEmpty(q));
    }
  }

  lemma NoneNonEmpty()
    ensures NonEmpty([]) == []
  {
  }

  lemma {:induction false} TextConcat(a: Bytes, b: Bytes)
    requires 0 !in a
    ensures Text(a + b) == a + Text(b)
  {
    if a == [] {
      assert a + b == b;
    } else {
      assert 0 !in a[1..] && (a + b)[0] == a[0] && (a + b)[1..] == a[1..] + b;
      assert a[0] in a;
      TextConcat(a[1..], b);
    }
  }

  lemma LabelsAtDot(a: Bytes, b: Bytes)
    requires 0 !in a
    ensures Labels(a + [DOT] + b) == Labels(a) + Labels(b)
  {
    TextConcat(a + [DOT], b);
    TextConcat(a, []);
    assert a + [] == a && a + [DOT] + Text(b) == (a + [DOT]) + Text(b);
    PiecesAtDot(a, Text(b));
    NonEmptyConcat(Pieces(a), Pieces(Text(b)));
  }

  lemma {:induction false} OnePiece(part: Bytes)
    requires forall c | c in part :: !Separates(c)
    ensures Pieces(part) == [part]
  {
    if part != [] {
      assert part[0] in part && forall c | c in part[1..] :: c in part;
      OnePiece(part[1..]);
      assert [part[0]] + part[1..] == part;
    }
  }

  lemma CleanIsLabel(part: Bytes)
    requires Clean(part)
    ensures Labels(part) == [part]
  {
    OnePiece(part);
    TextConcat(part, []);
    assert part + [] == part && NonEmpty([part]) == [part] + NonEmpty([]);
  }

  /** Clean labels are the pieces, and the labels, of the name that joins them. */
  lemma {:induction false} LabelsOfJoin(labels: seq<Bytes>)
    requires forall l | l in labels :: Clean(l)
    ensures Labels(Join(labels)) == labels && 0 !in Join(labels) && AT !in Join(labels)
    ensures labels != [] ==> Pieces(Join(labels)) == labels
    decreases |labels|
  {
    if |labels| == 1 {
      assert labels[0] in labels;
      CleanIsLabel(labels[0]);
      OnePiece(labels[0]);
    } else if labels != [] {
      var l, rest := labels[0], labels[1..];
      assert l in labels && forall p | p in rest :: p in labels;
      LabelsOfJoin(rest);
      CleanIsLabel(l);
      OnePiece(l);
      LabelsAtDot(l, Join(rest));
      PiecesAtDot(l, Join(rest));
      assert [l] + rest == labels;
    }
  }

  lemma {:induction false} JoinSnoc(labels: seq<Bytes>, l: Bytes)
    requires forall p | p in labels :: p != []
    ensures Join(labels + [l]) == Continued(Join(labels), l)
    ensures labels != [] ==> Join(labels) != []
    decreases |labels|
  {
    if labels == [] {
      assert labels + [l] == [l];
    } else {
      assert labels[0] in labels && forall p | p in labels[1..] :: p in labels;
      JoinSnoc(labels[1..], l);
      assert (labels + [l])[1..] == labels[1..] + [l];
      if |labels| > 1 {
        assert labels[0] + [DOT] + (Join(labels[1..]) + [DOT] + l) == labels[0] + [DOT] + Join(labels[1..]) + [DOT] + l;
      }
    }
  }

  /** A label of 256 bytes or more is cut by its length byte: the name that is read has other labels. */
  lemma CutReadsWrong(buf: Bytes, at: nat, done: seq<Bytes>, l: Bytes)
    requires |l| >= 256 && Clean(l) && forall p | p in done :: Clean(p)
    requires at + 1 + |l| <= |buf| && buf[at] == |l| % 256 && buf[at + 1..at + 1 + |l|] == l
    ensures var r := ReadName(buf, at, Join(done)).name; !(done + [l] <= Labels(r))
  {
    hide Labels, Join, ReadName, Separates;
    var c, name := |l| % 256, Join(done);
    var r := ReadName(buf, at, name).name;
    LabelsOfJoin(done);
    if c == 0 {
      assert r == name by { ReadAtZero(buf, at, name); }
    } else {
      var cut := l[..c];
      CleanPart(l, c);
      assert buf[at + 1..at + 1 + c] == buf[at + 1..at + 1 + |l|][..c];
      JoinSnoc(done, cut);
      LabelsOfJoin(done + [cut]);
      ReadOnce(buf, at, name);
      var longer := Join(done + [cut]);
      ReadExtends(buf, at + 1 + c, longer);
      OtherLabels(done, cut, l, r);
    }
  }

  lemma OtherLabels(done: seq<Bytes>, cut: Bytes, l: Bytes, r: Bytes)
    requires cut != l && Clean(cut) && forall p | p in done :: Clean(p)
    requires var longer := Join(done + [cut]);
      r == [] || (longer <= r && (|r| > |longer| ==> r[|longer|] == DOT))
    ensures !(done + [l] <= Labels(r))
  {
    hide Labels, Join, Separates;
    var longer := Join(done + [cut]);
    LabelsOfJoin(done + [cut]);
    if r == [] {
      LabelsOfJoin([]);
      assert Labels(r) == [] by { JoinNone(); }
    } else if |r| > |longer| {
      assert r == longer + [DOT] + r[|longer| + 1..];
      LabelsAtDot(longer, r[|longer| + 1..]);
      assert Labels(r)[|done|] == cut;
    } else {
      assert r == longer && Labels(r)[|done|] == cut;
    }
  }

  lemma JoinNone()
    ensures Join([]) == []
  {
  }

  lemma CleanPart(l: Bytes, c: nat)
    requires Clean(l) && 0 < c <= |l|
    ensures Clean(l[..c])
  {
    assert forall x | x in l[..c] :: x in l;
  }

  lemma ReadAtZero(buf: Bytes, at: nat, name: Bytes)
    requires at < |buf| && buf[at] == 0
    ensures ReadName(buf, at, name).name == name
  {
  }

  lemma ReadOnce(buf: Bytes, at: nat, name: Bytes)
    requires at < |buf| && buf[at] != 0 && at + 1 + buf[at] <= |buf|
    ensures ReadName(buf, at, name) == ReadName(buf, at + 1 + buf[at], Continued(name, buf[at + 1..at + 1 + buf[at]]))
  {
  }

  lemma {:induction false} ReadsWrong(pre: Bytes, labels: seq<Bytes>, post: Bytes, done: seq<Bytes>, k: nat)
    requires k < |labels| && |labels[k]| >= 256 && forall i | 0 <= i < k :: |labels[i]| < 256
    requires forall l | l in done + labels :: Clean(l)
    ensures Labels(ReadName(pre + QName(labels) + post, |pre|, Join(done)).name) != done + labels
    decreases k
  {
    hide QName, Join, ReadName, Labels, Separates;
    var l := labels[0];
    assert done + labels == (done + [l]) + labels[1..] && l in done + labels;
    assert forall p | p in done :: p in done + labels;
    QNameCons(pre, labels, post);
    if k > 0 {
      ReadsOne(pre, labels, post, Join(done));
      JoinSnoc(done, l);
      assert forall i | 0 <= i < k - 1 :: labels[1..][i] == labels[i + 1];
      ReadsWrong(pre + [|l|] + l, labels[1..], post, done + [l], k - 1);
    } else {
      CutReadsWrong(pre + QName(labels) + post, |pre|, done, l);
      assert done + [l] <= done + labels;
    }
  }

  /**
    The QNAME that a query writes for an address, wherever it stands in a message, is read back as the
    address with its empty labels left out, the cursor just behind it, exactly when no label has more
    than 255 bytes; a longer label gives a name with other labels.
  */
  lemma NameRoundTrip(pre: Bytes, addr: Bytes, post: Bytes)
    ensures var labels := Labels(addr);
      var read := ReadName(pre + QName(labels) + post, |pre|, []);
      && (read == Read(Join(labels), |pre| + |QName(labels)|) <==> forall l | l in labels :: |l| <= 255)
      && (Labels(read.name) == labels <==> forall l | l in labels :: |l| <= 255)
  {
    hide QName, ReadName, Labels;
    var labels := Labels(addr);
    LabelsClean(addr);
    LabelsOfJoin(labels);
    if forall l | l in labels :: |l| <= 255 {
      GrownIsJoin([], labels);
      ReadsLabels(pre, labels, post, []);
    } else {
      var k := FirstLong(labels);
      assert [] + labels == labels;
      ReadsWrong(pre, labels, post, [], k);
    }
  }

  // ----- the addresses whose name comes back as it was given

  /** The address is its own labels joined by dots. */
  predicate Normal(addr: Bytes) {
    addr == Join(Labels(addr))
  }

  predicate ShortLabels(addr: Bytes) {
    forall l | l in Labels(addr) :: |l| <= 255
  }

  /** The name in the question is the address itself: only then does an answer find the request. */
  lemma NameComesBack(pre: Bytes, addr: Bytes, post: Bytes)
    ensures ReadName(pre + QName(Labels(addr)) + post, |pre|, []).name == addr <==> Normal(addr) && ShortLabels(addr)
  {
    hide QName, ReadName, Labels, Join;
    NameRoundTrip(pre, addr, post);
  }

  lemma {:induction false} JoinPieces(text: Bytes)
    requires AT !in text
    ensures Join(Pieces(text)) == text
  {
    if text != [] {
      JoinPieces(text[1..]);
      var all, rest := Pieces(text), Pieces(text[1..]);
      if text[0] == DOT {
        assert all[0] == [] && all[1..] == rest && [] + [DOT] + text[1..] == text;
      } else {
        assert text[0] in text && all[0] == [text[0]] + rest[0] && all[1..] == rest[1..];
        assert Join(all) == [text[0]] + Join(rest);
      }
    }
  }

  lemma {:induction false} NonEmptyAll(pieces: seq<Bytes>)
    requires [] !in pieces
    ensures NonEmpty(pieces) == pieces
  {
    if pieces != [] {
      assert pieces[0] in pieces && [] !in pieces[1..];
      NonEmptyAll(pieces[1..]);
    }
  }

  /** An address comes back when it has no zero byte, no '@', and no dot at an end or beside a dot. */
  lemma NormalWhen(addr: Bytes)
    ensures Normal(addr) <==> 0 !in addr && AT !in addr && (addr == [] || [] !in Pieces(addr))
  {
    var labels := Labels(addr);
    LabelsClean(addr);
    LabelsOfJoin(labels);
    if Normal(addr) && addr != [] {
      assert labels != [];
      assert [] !in labels;
    }
    if 0 !in addr && AT !in addr && (addr == [] || [] !in Pieces(addr)) {
      TextConcat(addr, []);
      assert addr + [] == addr;
      JoinPieces(addr);
      if addr != [] {
        NonEmptyAll(Pieces(addr));
      }
    }
  }

  lemma FirstLong(labels: seq<Bytes>) returns (k: nat)
    requires exists l | l in labels :: |l| > 255
    ensures k < |labels| && |labels[k]| >= 256 && forall i | 0 <= i < k :: |labels[i]| < 256
  {
    k := 0;
    while |labels[k]| <= 255
      invariant k < |labels| && forall i | 0 <= i < k :: |labels[i]| < 256
      decreases |labels| - k
    {
      if k + 1 == |labels| {
        assert forall i | 0 <= i < |labels| :: |labels[i]| <= 255;
        assert false;
      }
      k := k + 1;
    }
  }

  // ----- the writer and the reader as loops

  /** The pieces of `addr[b..]` when the text up to `e` has no separator. */
  lemma {:induction false} PiecesSkip(text: Bytes, n: nat)
    requires n <= |text| && forall i | 0 <= i < n :: !Separates(text[i])
    ensures Pieces(text) == [text[..n] + Pieces(text[n..])[0]] + Pieces(text[n..])[1..]
  {
    if n == 0 {
      var all := Pieces(text);
      assert text[0..] == text && text[..0] + all[0] == all[0] && all == [all[0]] + all[1..];
    } else {
      PiecesSkip(text[1..], n - 1);
      assert text[1..][n - 1..] == text[n..];
      var init, rest := text[1..][..n - 1], Pieces(text[n..]);
      assert text[..n] == [text[0]] + init;
      assert text[..n] + rest[0] == [text[0]] + (init + rest[0]);
    }
  }

  lemma {:induction false} TextIsPrefix(addr: Bytes)
    ensures Text(addr) <= addr && (|Text(addr)| < |addr| ==> addr[|Text(addr)|] == 0)
    ensures 0 !in Text(addr)
  {
    if addr != [] && addr[0] != 0 {
      TextIsPrefix(addr[1..]);
    }
  }

  method PutLabel(out: Bytes, part: Bytes) returns (out': Bytes)
    ensures out' == out + LabelBytes(part)
  {
    out' := out;
    if part != [] {
      out' := out' + [|part| % 256] + part;
    }
  }

  function LabelBytes(part: Bytes): Bytes {
    if part == [] then [] else [|part| % 256] + part
  }

  /** Writes the labels of an address, walking over it once. */
  method WriteQName(addr: Bytes) returns (out: Bytes)
    ensures out == QName(Labels(addr))
  {
    hide Text, Pieces, NonEmpty, Prefixed, Separates, LabelBytes;
    ghost var text, goal := Text(addr), Prefixed(Labels(addr));
    TextIsPrefix(addr);
    assert text[0..] == text;
    out := [];
    var b, e: nat := 0, 0;
    var more := true;
    while more
      invariant b <= e && (more ==> e <= |text|)
      invariant more ==> forall i | b <= i < e :: !Separates(text[i])
      invariant more ==> out + Prefixed(NonEmpty(Pieces(text[b..]))) == goal
      invariant !more ==> out == goal
      decreases if more then 1 + |text| - e else 0
    {
      var c: Byte := if e < |addr| then addr[e] else 0;
      assert c == 0 <==> e == |text|;
      if Separates(c) || c == 0 {
        PieceEnds(text, b, e);
        assert addr[b..e] == text[b..e];
        out := PutLabel(out, addr[b..e]);
        if c == 0 {
          more := false;
        } else {
          b := e + 1;
        }
      }
      e := e + 1;
    }
    out := out + [0];
  }

  lemma FirstPiece(p: Bytes, rest: seq<Bytes>)
    ensures Prefixed(NonEmpty([p] + rest)) == LabelBytes(p) + Prefixed(NonEmpty(rest))
  {
    assert ([p] + rest)[0] == p && ([p] + rest)[1..] == rest;
    if p == [] {
      assert [] + NonEmpty(rest) == NonEmpty(rest);
      assert [] + Prefixed(NonEmpty(rest)) == Prefixed(NonEmpty(rest));
    } else {
      var all := [p] + NonEmpty(rest);
      assert all[0] == p && all[1..] == NonEmpty(rest);
    }
  }

  /** The first piece behind `b` ends at the separator, or at the end, at `e`. */
  lemma PieceEnds(text: Bytes, b: nat, e: nat)
    requires b <= e <= |text| && (forall i | b <= i < e :: !Separates(text[i])) && (e < |text| ==> Separates(text[e]))
    ensures var p := text[b..e];
      Prefixed(NonEmpty(Pieces(text[b..])))
      == LabelBytes(p) + if e < |text| then Prefixed(NonEmpty(Pieces(text[e + 1..]))) else []
  {
    hide Pieces, Prefixed, NonEmpty, LabelBytes, Separates;
    var tail, p := text[b..], text[b..e];
    assert tail[..e - b] == p && tail[e - b..] == text[e..] && p + [] == p;
    assert forall i | 0 <= i < e - b :: tail[i] == text[b + i];
    PiecesSkip(tail, e - b);
    PiecesAt(text, e);
    if e < |text| {
      FirstPiece(p, Pieces(text[e + 1..]));
    } else {
      FirstPiece(p, []);
      assert Prefixed(NonEmpty([])) == [] by { NothingPrefixed(); }
      assert LabelBytes(p) + [] == LabelBytes(p) && [p] + [] == [p];
    }
  }

  lemma NothingPrefixed()
    ensures Prefixed(NonEmpty([])) == []
  {
  }

  /** The pieces from a separator, or from the end, on. */
  lemma PiecesAt(text: Bytes, e: nat)
    requires e <= |text| && (e < |text| ==> Separates(text[e]))
    ensures var all := Pieces(text[e..]);
      all[0] == [] && all[1..] == if e < |text| then Pieces(text[e + 1..]) else []
  {
    if e < |text| {
      assert text[e..][1..] == text[e + 1..];
    }
  }

  method ReadCName(buf: Bytes, start: nat) returns (r: Read)
    ensures r == ReadName(buf, start, [])
  {
    var pos, name := start, [];
    while true
      invariant ReadName(buf, pos, name) == ReadName(buf, start, [])
      decreases |buf| - pos
    {
      var c: nat := At(buf, pos);
      if c == 0 {
        return Read(name, if pos < |buf| then pos + 1 else pos);
      }
      if pos + 1 + c > |buf| {
        return Read([], pos + 1);
      }
      if name != [] {
        name := name + [DOT];
      }
      name := name + buf[pos + 1..pos + 1 + c];
      pos := pos + 1 + c;
    }
  }
}
