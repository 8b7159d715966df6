/** The query parser of dnsbl.py (`parse`): the 12-byte header of section
    4.1.1 of RFC 1035, then the question when the flags pass `standard`. */
module Message {
  import opened Wrappers
  import opened Bytes
  import opened Flags
  import opened NameCodec

  /** The six big-endian 16-bit header fields, in wire order. */
  datatype Header = Header(
    txid: uint16,
    flags: uint16,
    questions: uint16,
    answers: uint16,
    authority: uint16,
    additional: uint16)

  /** The 12 bytes of a header. */
  function HeaderWire(h: Header): seq<byte> {
    Pack16(h.txid) + Pack16(h.flags) + Pack16(h.questions)
      + Pack16(h.answers) + Pack16(h.authority) + Pack16(h.additional)
  }

  /** The six `short(query[a:b])` reads at the head of `parse`. Each raises
      `struct.error` when its slice is short, so a datagram of fewer than 12
      bytes raises; otherwise the header is exactly its first 12 bytes. The
      counts are read and never checked. */
  function ParseHeader(datagram: seq<byte>): (r: Result<Header, Error>)
    ensures r.Success? <==> |datagram| >= 12
    ensures r.Failure? ==> r.error == StructError
    ensures r.Success? ==> HeaderWire(r.value) == datagram[..12]
  {
    var txid :- Unpack16(Slice(datagram, 0, 2));
    var flags :- Unpack16(Slice(datagram, 2, 4));
    var questions :- Unpack16(Slice(datagram, 4, 6));
    var answers :- Unpack16(Slice(datagram, 6, 8));
    var authority :- Unpack16(Slice(datagram, 8, 10));
    var additional :- Unpack16(Slice(datagram, 10, 12));
    assert datagram[..12] == datagram[0..2] + datagram[2..4] + datagram[4..6]
      + datagram[6..8] + datagram[8..10] + datagram[10..12];
    Success(Header(txid, flags, questions, answers, authority, additional))
  }

  /** Reading a written header gives it back, whatever follows it. */
  lemma HeaderRoundTrip(h: Header, rest: seq<byte>)
    ensures ParseHeader(HeaderWire(h) + rest) == Success(h)
  {
    var d := HeaderWire(h) + rest;
    assert Slice(d, 0, 2) == Pack16(h.txid);
    assert Slice(d, 2, 4) == Pack16(h.flags);
    assert Slice(d, 4, 6) == Pack16(h.questions);
    assert Slice(d, 6, 8) == Pack16(h.answers);
    assert Slice(d, 8, 10) == Pack16(h.authority);
    assert Slice(d, 10, 12) == Pack16(h.additional);
    ShortRoundTrip(h.txid);
    ShortRoundTrip(h.flags);
    ShortRoundTrip(h.questions);
    ShortRoundTrip(h.answers);
    ShortRoundTrip(h.authority);
    ShortRoundTrip(h.additional);
  }

  /** What `parse` returns: the queried name or `None`, and the txid. */
  datatype Parsed = Parsed(name: Option<seq<byte>>, txid: uint16)

  /** `parse(query)`: the header, then `parse_name` of the bytes after it
      when the flags are standard, and `None` without touching those bytes
      when they are not. The txid is the first two bytes, big-endian. */
  function Parse(datagram: seq<byte>): (r: Result<Parsed, Error>)
    ensures |datagram| < 12 ==> r == Failure(StructError)
    ensures r.Failure? ==> r.error == StructError || r.error == IndexError
    ensures r.Success? ==> Pack16(r.value.txid) == datagram[..2]
    ensures |datagram| >= 12 && !Standard(ParseHeader(datagram).value.flags)
      ==> r.Success? && r.value.name == None
    ensures |datagram| >= 12 && Standard(ParseHeader(datagram).value.flags)
      ==> && (r.Success? <==> ParseName(datagram[12..]).Success?)
          && (r.Success? ==> r.value.name == ParseName(datagram[12..]).value)
  {
    var header :- ParseHeader(datagram);
    var name :- if Standard(header.flags) then ParseName(datagram[12..]) else Success(None);
    assert datagram[..2] == HeaderWire(header)[..2];
    Success(Parsed(name, header.txid))
  }

  /** With non-standard flags the question is never read: two datagrams
      that share their header parse alike, whatever follows it. */
  lemma NonstandardIgnoresQuestion(d1: seq<byte>, d2: seq<byte>)
    requires |d1| >= 12 && |d2| >= 12 && d1[..12] == d2[..12]
    requires !Standard(ParseHeader(d1).value.flags)
    ensures Parse(d1) == Parse(d2)
  {
    HeaderRoundTrip(ParseHeader(d1).value, d1[12..]);
    HeaderRoundTrip(ParseHeader(d2).value, d2[12..]);
    assert d1 == d1[..12] + d1[12..];
    assert d2 == d2[..12] + d2[12..];
  }

  /** A written query with standard flags parses to the txid and the name
      its question carries (the queried name for an A/IN question, `None`
      for any other type or class). */
  lemma ParseQuery(h: Header, q: Question, tail: seq<byte>)
    requires Standard(h.flags)
    requires NonEmpty(q.labels) && ByteLengths(q.labels)
    ensures Parse(HeaderWire(h) + QuestionWire(q) + tail)
         == Success(Parsed(if q.qtype == 1 && q.qclass == 1 then Some(Text.Join(q.labels)) else None, h.txid))
  {
    var d := HeaderWire(h) + QuestionWire(q) + tail;
    assert d == HeaderWire(h) + (QuestionWire(q) + tail);
    HeaderRoundTrip(h, QuestionWire(q) + tail);
    assert d[12..] == QuestionWire(q) + tail;
    QuestionRoundTrip(q, tail);
  }
}
