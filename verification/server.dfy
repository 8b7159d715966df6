/** One turn of the serving loop of dnsbl.py (`dnsbl`): the datagram
    received is parsed and the reply built from what the parse returned.
    The socket is left out: the datagram is an argument and the reply the
    result. The store is keyed by the full queried name, exactly as
    `parse` returns it; `ipaddress` is not on this path. */
module Server {
  import opened Wrappers
  import opened Bytes
  import opened Text
  import opened NameCodec
  import opened Flags
  import opened Message
  import opened Response

  /** `reply(*parse(query))`, the two calls the loop makes per datagram.
      A datagram too short for its header and a question cut short raise.
      The `ValueError` of `dnsname` is never raised here: a name read from
      a question has parts under 256 bytes. Every reply starts with the
      query's txid, and a query with other flags than the two standard ones
      gets NXDOMAIN whatever its question. */
  function Handle(datagram: seq<byte>, stored: seq<byte> -> bool): (r: Result<seq<byte>, Error>)
    ensures |datagram| < 12 ==> r == Failure(StructError)
    ensures r.Failure? ==> r.error == StructError || r.error == IndexError
    ensures r.Success? ==> |r.value| >= 4 && r.value[..2] == datagram[..2]
    ensures |datagram| >= 12 && !Standard(ParseHeader(datagram).value.flags)
      ==> r == Success(datagram[..2] + [0x81, 0x83])
  {
    var parsed :- Parse(datagram);
    Reply(parsed.txid, parsed.name, stored)
  }

  /** The bytes of a query: a header, the name's wire form and its zero
      byte, type A and class IN, and whatever follows. */
  lemma QueryBytes(header: seq<byte>, labels: seq<seq<byte>>, tail: seq<byte>)
    requires ByteLengths(labels)
    ensures header + (Wire(labels) + [0]) + [0, 1, 0, 1] + tail
         == header + QuestionWire(Question(labels, 1, 1)) + tail
  {
    AQuestionWire(labels);
  }

  /** A standard A/IN query is answered by `reply` on the full name it
      asks about, whatever follows the question. */
  lemma HandleQuery(h: Header, name: seq<byte>, tail: seq<byte>, stored: seq<byte> -> bool)
    requires Standard(h.flags)
    requires NonEmpty(Split(name)) && ByteLengths(Split(name))
    ensures Handle(HeaderWire(h) + Dnsname(name).value + [0, 1, 0, 1] + tail, stored)
         == Reply(h.txid, Some(name), stored)
  {
    DnsnameLayout(name);
    QueryBytes(HeaderWire(h), Split(name), tail);
    ParseQuery(h, Question(Split(name), 1, 1), tail);
  }

  /** A standard A/IN query for a stored name gets the answer for that same
      name: the store is asked about the full queried name. */
  lemma HandleAnswers(h: Header, name: seq<byte>, tail: seq<byte>, stored: seq<byte> -> bool)
    requires Standard(h.flags)
    requires name != [] && stored(name)
    requires NonEmpty(Split(name)) && ByteLengths(Split(name))
    ensures Handle(HeaderWire(h) + Dnsname(name).value + [0, 1, 0, 1] + tail, stored)
         == Success(Pack16(h.txid) + [0x81, 0x80, 0, 1, 0, 1, 0, 0, 0, 0]
                    + Dnsname(name).value + [0, 1, 0, 1, 0xC0, 0x0C])
  {
    HandleQuery(h, name, tail, stored);
    ReplyLayout(h.txid, name, stored);
    DnsnameLayout(name);
  }

  /** The same query for a name the store does not hold gets the four-byte
      NXDOMAIN. */
  lemma HandleMisses(h: Header, name: seq<byte>, tail: seq<byte>, stored: seq<byte> -> bool)
    requires Standard(h.flags)
    requires !stored(name)
    requires NonEmpty(Split(name)) && ByteLengths(Split(name))
    ensures Handle(HeaderWire(h) + Dnsname(name).value + [0, 1, 0, 1] + tail, stored)
         == Success(Pack16(h.txid) + [0x81, 0x83])
  {
    HandleQuery(h, name, tail, stored);
  }

  /** A standard question of another type or class than A/IN gets NXDOMAIN
      without the store being consulted. */
  lemma HandleOtherQuestion(h: Header, q: Question, tail: seq<byte>, stored: seq<byte> -> bool)
    requires Standard(h.flags)
    requires NonEmpty(q.labels) && ByteLengths(q.labels)
    requires q.qtype != 1 || q.qclass != 1
    ensures Handle(HeaderWire(h) + QuestionWire(q) + tail, stored)
         == Success(Pack16(h.txid) + [0x81, 0x83])
  {
    ParseQuery(h, q, tail);
  }

  /** A query whose one label is `a.`, a dot inside a label, is parsed to
      the name `a.`; when that name is stored, the answer's question reads
      back as `a` with QTYPE 0 and QCLASS 256, not as the question asked. */
  lemma HandleDotInLabel(h: Header, a: seq<byte>, stored: seq<byte> -> bool)
    requires Standard(h.flags)
    requires 0 < |a| < 0xFF && DOT !in a
    requires stored(a + [DOT])
    ensures var query := HeaderWire(h) + ([|a| + 1] + (a + [DOT]) + [0]) + [0, 1, 0, 1];
      && Handle(query, stored) == Reply(h.txid, Some(a + [DOT]), stored)
      && Handle(query, stored).Success?
      && ParseQuestion(Handle(query, stored).value[12..]) == Success(Question([a], 0, 0x100))
  {
    var part := a + [DOT];
    var query := HeaderWire(h) + ([|a| + 1] + part + [0]) + [0, 1, 0, 1];
    assert Handle(query, stored) == Reply(h.txid, Some(part), stored) by {
      OneLabelQuery(HeaderWire(h), part);
      ParseQuery(h, Question([part], 1, 1), []);
      assert Join([part]) == part;
    }
    TrailingDotAnswer(h.txid, a, stored);
  }

  /** The bytes of an A/IN query for one label. */
  lemma OneLabelQuery(header: seq<byte>, part: seq<byte>)
    requires |part| < 0x100
    ensures header + ([|part|] + part + [0]) + [0, 1, 0, 1]
         == header + QuestionWire(Question([part], 1, 1)) + []
  {
    assert Wire([part]) == [|part|] + part + Wire([]);
    AQuestionWire([part]);
  }

  /** A question whose last label runs past the end of the datagram raises
      `IndexError`, and no reply is built. */
  lemma HandleTruncatedLabel(h: Header, labels: seq<seq<byte>>, last: seq<byte>, cut: nat,
                             stored: seq<byte> -> bool)
    requires Standard(h.flags)
    requires NonEmpty(labels) && ByteLengths(labels)
    requires 0 < |last| < 0x100 && cut <= |last|
    ensures Handle(HeaderWire(h) + (Wire(labels) + [|last|] + last[..cut]), stored)
         == Failure(IndexError)
  {
    ParseTruncatedLabel(h, labels, last, cut);
  }

  /** The header reads back, and the question after it stops at the label
      cut short. */
  lemma ParseTruncatedLabel(h: Header, labels: seq<seq<byte>>, last: seq<byte>, cut: nat)
    requires Standard(h.flags)
    requires NonEmpty(labels) && ByteLengths(labels)
    requires 0 < |last| < 0x100 && cut <= |last|
    ensures Parse(HeaderWire(h) + (Wire(labels) + [|last|] + last[..cut])) == Failure(IndexError)
  {
    var body := Wire(labels) + [|last|] + last[..cut];
    HeaderRoundTrip(h, body);
    assert (HeaderWire(h) + body)[12..] == body;
    assert body[0..] == Wire(labels) + ([|last|] + last[..cut]);
    TruncatedRead(body, 0, labels, last, cut);
  }

  /** Reading labels whose last length byte promises more than is left. */
  lemma {:induction false} TruncatedRead(buf: seq<byte>, offset: nat, labels: seq<seq<byte>>,
                                         last: seq<byte>, cut: nat)
    requires NonEmpty(labels) && ByteLengths(labels)
    requires 0 < |last| < 0x100 && cut <= |last|
    requires offset + |Wire(labels)| + 1 + cut == |buf|
    requires buf[offset..] == Wire(labels) + ([|last|] + last[..cut])
    ensures ReadLabels(buf, offset) == Failure(IndexError)
    decreases |labels|
  {
    var more := [|last|] + last[..cut];
    if |labels| == 0 {
      assert buf[offset] == buf[offset..][0];
      LabelPastEnd(buf, offset);
    } else {
      WireAt(buf, offset, labels, more);
      var next := offset + 1 + |labels[0]|;
      assert buf[next..] == buf[next..next + |Wire(labels[1..])| + |more|];
      TruncatedRead(buf, next, labels[1..], last, cut);
      ReadFails(buf, offset);
    }
  }
}
