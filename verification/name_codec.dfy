/** The domain-name codec of dnsbl.py: `dnsname` writes a name as
    length-prefixed labels closed by a zero byte (section 3.1 of RFC 1035),
    and `parse_name` reads a question back: labels up to the zero byte, then
    QTYPE and QCLASS (section 4.1.2 of RFC 1035). */
module NameCodec {
  import opened Wrappers
  import opened Bytes
  import opened Text

  /** Every label is short enough for its length to fit one byte. */
  predicate ByteLengths(labels: seq<seq<byte>>) {
    forall i | 0 <= i < |labels| :: |labels[i]| < 0x100
  }

  /** No label is empty; an empty label would read back as the terminator. */
  predicate NonEmpty(labels: seq<seq<byte>>) {
    forall i | 0 <= i < |labels| :: |labels[i]| > 0
  }

  /** Each label preceded by its length byte, without the terminator. */
  function Wire(labels: seq<seq<byte>>): seq<byte>
    requires ByteLengths(labels)
  {
    if |labels| == 0 then [] else [|labels[0]|] + labels[0] + Wire(labels[1..])
  }

  lemma {:induction false} WireAppend(a: seq<seq<byte>>, b: seq<seq<byte>>)
    requires ByteLengths(a) && ByteLengths(b)
    ensures ByteLengths(a + b)
    ensures Wire(a + b) == Wire(a) + Wire(b)
    decreases |a|
  {
    if |a| > 0 {
      assert (a + b)[1..] == a[1..] + b;
      WireAppend(a[1..], b);
    } else {
      assert a + b == b;
    }
  }

  /** The wire form of a dotted name is one byte longer than the name: each
      dot becomes a length byte, plus the length byte of the first label. */
  lemma {:induction false} WireLength(labels: seq<seq<byte>>)
    requires |labels| >= 1 && ByteLengths(labels)
    ensures |Wire(labels)| == |Join(labels)| + 1
    decreases |labels|
  {
    if |labels| > 1 {
      WireLength(labels[1..]);
    }
  }

  /** Splitting the dotted join of labels under 256 bytes gives parts under
      256 bytes again: each part is a label or a piece of one. */
  lemma {:induction false} SplitJoinBytes(labels: seq<seq<byte>>)
    requires ByteLengths(labels)
    ensures ByteLengths(Split(Join(labels)))
    decreases |labels|
  {
    if |labels| == 1 {
      SplitParts(labels[0]);
    } else if |labels| > 1 {
      var first, rest := Split(labels[0]), Split(Join(labels[1..]));
      SplitParts(labels[0]);
      SplitJoinBytes(labels[1..]);
      SplitDot(labels[0], Join(labels[1..]));
      forall i | 0 <= i < |first + rest|
        ensures |(first + rest)[i]| < 0x100
      {
        if i >= |first| {
          assert (first + rest)[i] == rest[i - |first|];
        }
      }
    }
  }

  /** `dnsname(host_name)`: the labels of `host_name.split('.')` plus an empty
      one, each written as its length byte then its bytes. `bytes([n])`
      raises `ValueError` when a label is 256 bytes or longer. */
  function Dnsname(name: seq<byte>): (r: Result<seq<byte>, Error>)
    ensures r.Success? <==> ByteLengths(Split(name))
    ensures r.Failure? ==> r.error == ValueError
    ensures r.Success? ==> |r.value| == |name| + 2 && r.value[|name| + 1] == 0
  {
    var parts := Split(name) + [[]];
    assert ByteLengths(parts) <==> ByteLengths(Split(name)) by {
      assert forall i | 0 <= i < |Split(name)| :: parts[i] == Split(name)[i];
      assert parts[|parts| - 1] == [];
    }
    if !ByteLengths(parts) then
      Failure(ValueError)
    else
      WireAppend(Split(name), [[]]);
      WireLength(Split(name));
      Success(Wire(parts))
  }

  /** The layout of `dnsname`: the length-prefixed labels of the name, then
      the zero byte. The doctest `dnsname('abcdef.com')` is an instance. */
  lemma DnsnameLayout(name: seq<byte>)
    requires ByteLengths(Split(name))
    ensures Dnsname(name) == Success(Wire(Split(name)) + [0])
  {
    WireAppend(Split(name), [[]]);
    assert Wire([[]]) == [0];
  }

  /** The empty name splits into one empty part, so `dnsname` writes two
      zero bytes, not the single zero byte of the root name. */
  lemma DnsnameEmpty()
    ensures Dnsname([]) == Success([0, 0])
  {
    assert Split([]) == [[]];
    DnsnameLayout([]);
    assert Wire([[]]) == [0];
    assert Wire(Split([])) + [0] == [0, 0];
  }

  /** A two-label name encodes as two length-prefixed labels and the zero
      byte; the doctest `dnsname('abcdef.com')` is the instance below. */
  lemma DnsnameTwoLabels(a: seq<byte>, b: seq<byte>)
    requires DOT !in a && DOT !in b
    requires |a| < 0x100 && |b| < 0x100
    ensures Dnsname(a + [DOT] + b) == Success([|a|] + a + [|b|] + b + [0])
  {
    SplitConcat(a, b);
    SplitConcat(b, []);
    assert Wire([a, b]) == [|a|] + a + [|b|] + b by {
      assert [a, b][1..] == [b];
      assert Wire([b]) == [|b|] + b + Wire([]);
    }
    DnsnameLayout(a + [DOT] + b);
  }

  /** The doctest `dnsname('abcdef.com')`. */
  lemma DnsnameExample()
    ensures Dnsname(Ascii("abcdef.com"))
         == Success([6] + Ascii("abcdef") + [3] + Ascii("com") + [0])
  {
    assert Ascii("abcdef.com") == Ascii("abcdef") + [DOT] + Ascii("com");
    DnsnameTwoLabels(Ascii("abcdef"), Ascii("com"));
  }

  /** The `while query[offset] != 0` loop of `parse_name`, from `offset`:
      the labels read and the offset of the zero byte that ended them.
      Indexing at or past the end raises `IndexError`; a label whose length
      byte runs past the buffer is cut short by the slice, and the next read
      then raises. */
  function ReadLabels(buf: seq<byte>, offset: nat): (r: Result<(seq<seq<byte>>, nat), Error>)
    ensures r.Failure? ==> r.error == IndexError
    ensures r.Success? ==> offset <= r.value.1 < |buf| && buf[r.value.1] == 0
    decreases |buf| - offset
  {
    if offset >= |buf| then Failure(IndexError)
    else if buf[offset] == 0 then Success(([], offset))
    else
      var count := buf[offset];
      var rest :- ReadLabels(buf, offset + 1 + count);
      Success(([Slice(buf, offset + 1, offset + 1 + count)] + rest.0, rest.1))
  }

  /** A slice split after its first byte and again at `mid`. */
  lemma SliceThree(buf: seq<byte>, lo: nat, mid: nat, hi: nat)
    requires lo < mid <= hi <= |buf|
    ensures buf[lo..hi] == [buf[lo]] + buf[lo + 1..mid] + buf[mid..hi]
  {
  }

  /** Putting one more label in front of a name. */
  lemma WireCons(part: seq<byte>, labels: seq<seq<byte>>)
    requires 0 < |part| < 0x100
    requires NonEmpty(labels) && ByteLengths(labels)
    ensures NonEmpty([part] + labels) && ByteLengths([part] + labels)
    ensures Wire([part] + labels) == [|part|] + part + Wire(labels)
  {
    assert ([part] + labels)[1..] == labels;
  }

  /** A successful read has consumed exactly the wire form of the labels it
      returns, none of them empty: no label was cut short. */
  lemma {:induction false} ReadLabelsConsumed(buf: seq<byte>, offset: nat)
    requires ReadLabels(buf, offset).Success?
    ensures var (labels, end) := ReadLabels(buf, offset).value;
      && NonEmpty(labels) && ByteLengths(labels)
      && buf[offset..end] == Wire(labels)
    decreases |buf| - offset
  {
    if buf[offset] != 0 {
      var count := buf[offset];
      var next := offset + 1 + count;
      ReadLabelsConsumed(buf, next);
      var (labels, end) := ReadLabels(buf, next).value;
      var part := buf[offset + 1..next];
      var all := [part] + labels;
      assert ReadLabels(buf, offset).value == (all, end);
      SliceThree(buf, offset, next, end);
      WireCons(part, labels);
    }
  }

  /** A length byte that reaches the end of the buffer makes the read raise
      `IndexError` rather than return a short label. */
  lemma LabelPastEnd(buf: seq<byte>, offset: nat)
    requires offset < |buf| && buf[offset] != 0
    requires offset + 1 + buf[offset] >= |buf|
    ensures ReadLabels(buf, offset) == Failure(IndexError)
  {
  }

  /** Where a length byte, a label and a tail sit in a buffer, each can be
      found at its own offset. */
  lemma PiecesAt(buf: seq<byte>, offset: nat, hi: nat, n: byte, l: seq<byte>, tail: seq<byte>)
    requires offset <= hi <= |buf|
    requires buf[offset..hi] == [n] + l + tail
    ensures buf[offset] == n
    ensures buf[offset + 1..offset + 1 + |l|] == l
    ensures buf[offset + 1 + |l|..hi] == tail
  {
    var read := buf[offset..hi];
    assert buf[offset] == read[0];
    forall i | 0 <= i < |l|
      ensures buf[offset + 1 + i] == l[i]
    {
      assert buf[offset + 1 + i] == read[1 + i];
    }
    forall i | 0 <= i < |tail|
      ensures buf[offset + 1 + |l| + i] == tail[i]
    {
      assert buf[offset + 1 + |l| + i] == read[1 + |l| + i];
    }
  }

  /** Where the wire form of labels sits in a buffer, followed by `more`,
      the first label's length byte, its bytes and the wire form of the
      rest followed by `more` follow each other. */
  lemma WireAt(buf: seq<byte>, offset: nat, labels: seq<seq<byte>>, more: seq<byte>)
    requires |labels| > 0 && ByteLengths(labels)
    requires offset + |Wire(labels)| + |more| <= |buf|
    requires buf[offset..offset + |Wire(labels)| + |more|] == Wire(labels) + more
    ensures var next := offset + 1 + |labels[0]|;
      && buf[offset] == |labels[0]|
      && buf[offset + 1..next] == labels[0]
      && next + |Wire(labels[1..])| + |more| <= |buf|
      && buf[next..next + |Wire(labels[1..])| + |more|] == Wire(labels[1..]) + more
  {
    var l, tail := labels[0], Wire(labels[1..]) + more;
    assert Wire(labels) + more == [|l|] + l + tail;
    PiecesAt(buf, offset, offset + |Wire(labels)| + |more|, |l|, l, tail);
  }

  /** One label read: the length byte, that many bytes, and the rest. */
  lemma ReadStep(buf: seq<byte>, offset: nat)
    requires offset < |buf| && buf[offset] != 0
    requires offset + 1 + buf[offset] <= |buf|
    requires ReadLabels(buf, offset + 1 + buf[offset]).Success?
    ensures var next := offset + 1 + buf[offset];
      var rest := ReadLabels(buf, next).value;
      ReadLabels(buf, offset) == Success(([buf[offset + 1..next]] + rest.0, rest.1))
  {
  }

  /** A failure after a label is the failure of the whole read. */
  lemma ReadFails(buf: seq<byte>, offset: nat)
    requires offset < |buf| && buf[offset] != 0
    requires ReadLabels(buf, offset + 1 + buf[offset]).Failure?
    ensures ReadLabels(buf, offset) == Failure(IndexError)
  {
  }

  /** The step of `ReadWire`: reading the first label in front of the rest. */
  lemma ReadWireCons(buf: seq<byte>, offset: nat, labels: seq<seq<byte>>)
    requires |labels| > 0 && NonEmpty(labels) && ByteLengths(labels)
    requires offset + |Wire(labels)| < |buf|
    requires buf[offset..offset + |Wire(labels)| + 1] == Wire(labels) + [0]
    requires var next := offset + 1 + |labels[0]|;
      ReadLabels(buf, next) == Success((labels[1..], next + |Wire(labels[1..])|))
    ensures ReadLabels(buf, offset) == Success((labels, offset + |Wire(labels)|))
  {
    var next := offset + 1 + |labels[0]|;
    WireAt(buf, offset, labels, [0]);
    ReadStep(buf, offset);
    assert ReadLabels(buf, offset) == Success(([labels[0]] + labels[1..], next + |Wire(labels[1..])|));
    assert [labels[0]] + labels[1..] == labels;
  }

  /** Reading the wire form of non-empty labels, wherever it sits in the
      buffer, gives the labels back and stops at their zero byte. */
  lemma {:induction false} ReadWire(buf: seq<byte>, offset: nat, labels: seq<seq<byte>>)
    requires NonEmpty(labels) && ByteLengths(labels)
    requires offset + |Wire(labels)| < |buf|
    requires buf[offset..offset + |Wire(labels)| + 1] == Wire(labels) + [0]
    ensures ReadLabels(buf, offset) == Success((labels, offset + |Wire(labels)|))
    decreases |labels|
  {
    if |labels| > 0 {
      var next, rest := offset + 1 + |labels[0]|, labels[1..];
      assert next + |Wire(rest)| < |buf| && buf[next..next + |Wire(rest)| + 1] == Wire(rest) + [0] by {
        WireAt(buf, offset, labels, [0]);
      }
      ReadWire(buf, next, rest);
      ReadWireCons(buf, offset, labels);
    } else {
      assert buf[offset] == buf[offset..offset + 1][0];
    }
  }

  /** A question: its labels, QTYPE and QCLASS. */
  datatype Question = Question(labels: seq<seq<byte>>, qtype: uint16, qclass: uint16)

  /** The wire form of a question: name, zero byte, QTYPE, QCLASS. */
  function QuestionWire(q: Question): seq<byte>
    requires ByteLengths(q.labels)
  {
    Wire(q.labels) + [0] + Pack16(q.qtype) + Pack16(q.qclass)
  }

  /** The body of `parse_name` up to its return: the labels, then QTYPE and
      QCLASS read by `short` from the four bytes after the zero byte, which
      raises `struct.error` when fewer than two bytes are left for either.
      What it parsed is exactly a prefix of the buffer. */
  function ParseQuestion(buf: seq<byte>): (r: Result<Question, Error>)
    ensures r.Failure? ==> r.error == IndexError || r.error == StructError
    ensures r.Success? ==>
      && NonEmpty(r.value.labels) && ByteLengths(r.value.labels)
      && |QuestionWire(r.value)| <= |buf|
      && buf[..|QuestionWire(r.value)|] == QuestionWire(r.value)
  {
    var read :- ReadLabels(buf, 0);
    ReadLabelsConsumed(buf, 0);
    var (labels, end) := read;
    var qtype :- Unpack16(Slice(buf, end + 1, end + 3));
    var qclass :- Unpack16(Slice(buf, end + 3, end + 5));
    assert buf[..end + 5] == buf[0..end] + [buf[end]] + buf[end + 1..end + 3] + buf[end + 3..end + 5];
    Success(Question(labels, qtype, qclass))
  }

  /** Parsing the wire form of a question gives the question back, whatever
      follows it. */
  lemma QuestionRoundTrip(q: Question, tail: seq<byte>)
    requires NonEmpty(q.labels) && ByteLengths(q.labels)
    ensures ParseQuestion(QuestionWire(q) + tail) == Success(q)
  {
    var buf := QuestionWire(q) + tail;
    var end := |Wire(q.labels)|;
    assert buf[0..end + 1] == Wire(q.labels) + [0];
    ReadWire(buf, 0, q.labels);
    assert Slice(buf, end + 1, end + 3) == Pack16(q.qtype);
    assert Slice(buf, end + 3, end + 5) == Pack16(q.qclass);
    ShortRoundTrip(q.qtype);
    ShortRoundTrip(q.qclass);
  }

  /** A question cut off inside QTYPE or QCLASS raises `struct.error`. */
  lemma QuestionTruncated(labels: seq<seq<byte>>, tail: seq<byte>)
    requires NonEmpty(labels) && ByteLengths(labels)
    requires |tail| < 4
    ensures ParseQuestion(Wire(labels) + [0] + tail) == Failure(StructError)
  {
    var buf := Wire(labels) + [0] + tail;
    assert buf[0..|Wire(labels)| + 1] == Wire(labels) + [0];
    ReadWire(buf, 0, labels);
  }

  /** The wire form of an A/IN question: the name and its zero byte, then
      00 01 00 01. */
  lemma AQuestionWire(labels: seq<seq<byte>>)
    requires ByteLengths(labels)
    ensures QuestionWire(Question(labels, 1, 1)) == Wire(labels) + [0] + [0, 1, 0, 1]
  {
    assert Pack16(1) == [0, 1];
  }

  /** `parse_name(query)`: the dot-joined labels when QTYPE and QCLASS are
      both 1 (A, IN), `None` for any other question, and whatever the
      question parse raised. A name it returns can always be written back
      by `dnsname`: its dot-separated parts are under 256 bytes. */
  function ParseName(buf: seq<byte>): (r: Result<Option<seq<byte>>, Error>)
    ensures r.Success? <==> ParseQuestion(buf).Success?
    ensures r.Failure? ==> r.error == ParseQuestion(buf).error
    ensures r.Success? ==>
      (r.value.Some? <==> ParseQuestion(buf).value.qtype == 1 && ParseQuestion(buf).value.qclass == 1)
    ensures r.Success? && r.value.Some? ==> ByteLengths(Split(r.value.value))
  {
    var q :- ParseQuestion(buf);
    SplitJoinBytes(q.labels);
    Success(if q.qtype == 1 && q.qclass == 1 then Some(Join(q.labels)) else None)
  }

  /** The round trip of the codec: the name `dnsname` writes, followed by
      QTYPE 1 and QCLASS 1, is parsed back to the same name, for every name
      whose labels are non-empty and shorter than 256 bytes. The doctest on
      `example.net` is an instance. */
  lemma NameRoundTrip(name: seq<byte>, tail: seq<byte>)
    requires NonEmpty(Split(name)) && ByteLengths(Split(name))
    ensures Dnsname(name).Success?
    ensures ParseName(Dnsname(name).value + [0, 1, 0, 1] + tail) == Success(Some(name))
  {
    DnsnameLayout(name);
    var q := Question(Split(name), 1, 1);
    AQuestionWire(Split(name));
    QuestionRoundTrip(q, tail);
    assert ParseQuestion(Dnsname(name).value + [0, 1, 0, 1] + tail) == Success(q);
  }

  /** The other direction: a name `parse_name` returns is written back by
      `dnsname` as exactly the bytes it was read from, provided no label held
      a dot (a dot inside a label is re-read as a separator) and the name is
      not empty (see `DnsnameEmpty`). */
  lemma NameReencodes(buf: seq<byte>)
    requires ParseName(buf).Success? && ParseName(buf).value.Some?
    requires DotFree(ParseQuestion(buf).value.labels)
    requires ParseName(buf).value.value != []
    ensures var name := ParseName(buf).value.value;
      && |name| + 6 <= |buf|
      && Dnsname(name) == Success(buf[..|name| + 2])
      && buf[|name| + 2..|name| + 6] == [0, 1, 0, 1]
  {
    var q := ParseQuestion(buf).value;
    var name := Join(q.labels);
    var w := QuestionWire(q);
    assert buf[..|w|] == w;
    SplitJoin(q.labels);
    WireLength(q.labels);
    DnsnameLayout(name);
    var n := |name| + 2;
    assert w == (Wire(q.labels) + [0]) + (Pack16(q.qtype) + Pack16(q.qclass));
    assert buf[..n] == w[..n] == Wire(q.labels) + [0];
    assert buf[n..n + 4] == w[n..n + 4] == Pack16(q.qtype) + Pack16(q.qclass);
  }

  /** A two-label A/IN question is read back as the dotted name. */
  lemma ParseNameTwoLabels(a: seq<byte>, b: seq<byte>, tail: seq<byte>)
    requires DOT !in a && DOT !in b
    requires 0 < |a| < 0x100 && 0 < |b| < 0x100
    ensures ParseName([|a|] + a + [|b|] + b + [0, 0, 1, 0, 1] + tail) == Success(Some(a + [DOT] + b))
  {
    DnsnameTwoLabels(a, b);
    SplitConcat(a, b);
    SplitConcat(b, []);
    var name := a + [DOT] + b;
    assert [|a|] + a + [|b|] + b + [0, 0, 1, 0, 1] + tail
        == Dnsname(name).value + [0, 1, 0, 1] + tail;
    NameRoundTrip(name, tail);
  }

  /** The doctest of `parse_name`: `example.net`, QTYPE 1, QCLASS 1 and two
      trailing bytes, the query bytes grouped as the question and the tail. */
  lemma ParseNameExample()
    ensures ParseName([7] + Ascii("example") + [3] + Ascii("net") + [0, 0, 1, 0, 1] + [0, 0])
         == Success(Some(Ascii("example.net")))
  {
    var example, net := Ascii("example"), Ascii("net");
    assert |example| == 7 && DOT !in example;
    assert |net| == 3 && DOT !in net;
    ParseNameTwoLabels(example, net, [0, 0]);
    ExampleNet();
  }

  /** `example.net` spelled as its two labels and the dot. */
  lemma ExampleNet()
    ensures Ascii("example.net") == Ascii("example") + [DOT] + Ascii("net")
  {
  }

  /** The parts of `a..b` for a dot-free `a`: `a`, an empty part, then the
      parts of `b`. */
  lemma SplitDoubleDot(a: seq<byte>, b: seq<byte>)
    requires DOT !in a
    ensures Split(a + [DOT, DOT] + b) == [a, []] + Split(b)
  {
    assert a + [DOT, DOT] + b == a + [DOT] + ([] + [DOT] + b);
    SplitConcat(a, [DOT] + b);
    SplitConcat([], b);
  }

  /** `dnsname` of `a..b`: the empty part between the dots is written as
      a zero byte. */
  lemma DnsnameDoubleDot(a: seq<byte>, b: seq<byte>)
    requires 0 < |a| < 0x100 && DOT !in a
    requires ByteLengths(Split(b))
    ensures Dnsname(a + [DOT, DOT] + b) == Success([|a|] + a + [0] + Wire(Split(b)) + [0])
  {
    var name := a + [DOT, DOT] + b;
    SplitDoubleDot(a, b);
    assert ByteLengths([a, []]);
    WireAppend([a, []], Split(b));
    assert Wire([a, []]) == [|a|] + a + [0] by {
      assert [a, []][1..] == [[]];
      assert Wire([[]]) == [0] + Wire([]);
    }
    DnsnameLayout(name);
  }

  /** Why the round trip needs non-empty labels: in `a..b` the empty label
      is written as a zero byte, which the reader takes for the end of the
      name, so only `a` is read back. */
  lemma EmptyLabelEndsName(a: seq<byte>, b: seq<byte>, tail: seq<byte>)
    requires 0 < |a| < 0x100 && DOT !in a
    requires ByteLengths(Split(b))
    ensures Dnsname(a + [DOT, DOT] + b).Success?
    ensures ReadLabels(Dnsname(a + [DOT, DOT] + b).value + tail, 0) == Success(([a], |a| + 1))
  {
    DnsnameDoubleDot(a, b);
    var buf := Dnsname(a + [DOT, DOT] + b).value + tail;
    assert Wire([a]) == [|a|] + a + Wire([]);
    assert buf[0..|a| + 2] == [|a|] + a + [0];
    ReadWire(buf, 0, [a]);
  }
}
