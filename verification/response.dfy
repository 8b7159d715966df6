/** The reply builder of dnsbl.py (`reply`): a truncated A answer when the
    store holds the queried name, NXDOMAIN otherwise. */
module Response {
  import opened Wrappers
  import opened Bytes
  import opened Text
  import opened NameCodec
  import opened Message

  /** QR, RD and RA set, RCODE 0: a good answer. */
  const ANSWER: uint16 := 0x8180
  /** QR, RD and RA set, RCODE 3 (NXDOMAIN, section 4.1.1 of RFC 1035). */
  const NXDOMAIN: uint16 := 0x8183
  /** A compression pointer (section 4.1.4 of RFC 1035) to offset 12. */
  const POINTER_TO_QUESTION: uint16 := 0xC00C

  /** Whether `reply` answers: the lookup is a name and not empty (Python
      truthiness), and the store holds it. `stored` stands for
      `os.path.exists(os.path.join(DNSBL_DIRECTORY, lookup))`. */
  predicate Found(lookup: Option<seq<byte>>, stored: seq<byte> -> bool) {
    lookup.Some? && lookup.value != [] && stored(lookup.value)
  }

  /** The offset a two-byte compression pointer refers to: the top two bits
      are set and the other fourteen are the offset into the message. */
  function PointerTarget(hi: byte, lo: byte): Option<nat> {
    if hi >= 0xC0 then Some((hi - 0xC0) * 0x100 + lo) else None
  }

  /** `reply(txid, lookup)`. The txid always comes first. On a miss the
      reply ends there with the NXDOMAIN flags: four bytes. On a hit it is
      the answer flags, counts 1/1/0/0, the name as `dnsname` writes it,
      type A, class IN and a pointer back to the name; `dnsname` raises
      `ValueError` for a label of 256 bytes or more, and so does the reply. */
  function Reply(txid: uint16, lookup: Option<seq<byte>>, stored: seq<byte> -> bool): (r: Result<seq<byte>, Error>)
    ensures r.Success? ==> |r.value| >= 4 && r.value[..2] == Pack16(txid)
    ensures !Found(lookup, stored) ==> r == Success(Pack16(txid) + [0x81, 0x83])
    ensures Found(lookup, stored) ==> (r.Success? <==> ByteLengths(Split(lookup.value)))
    ensures Found(lookup, stored) && r.Success? ==> |r.value| == |lookup.value| + 20
    ensures r.Failure? ==> r.error == ValueError
  {
    var response := Pack16(txid);
    if Found(lookup, stored) then
      var name :- Dnsname(lookup.value);
      Success(response + Pack16(ANSWER)
        + Pack16(1) + Pack16(1) + Pack16(0) + Pack16(0)
        + name
        + Pack16(1) + Pack16(1) + Pack16(POINTER_TO_QUESTION))
    else
      Success(response + Pack16(NXDOMAIN))
  }

  /** Sequence concatenation regrouped: the reply's ten pieces are the
      header's six, the question's three and the pointer. */
  lemma Regroup(a: seq<byte>, b: seq<byte>, c: seq<byte>, d: seq<byte>, e: seq<byte>,
                f: seq<byte>, w: seq<byte>, g: seq<byte>, h: seq<byte>, p: seq<byte>)
    ensures a + b + c + d + e + f + w + g + h + p == (a + b + c + d + e + f) + (w + g + h) + p
    ensures (a + b + c + d + e + f) + (w + g + h) + p == a + (b + c + d + e + f) + w + (g + h + p)
  {
  }

  /** An answer is a header (the txid, the answer flags, counts 1/1/0/0),
      the question exactly as `parse_name` reads one (the name, type A,
      class IN) and a compression pointer to offset 12. */
  lemma ReplyStructure(txid: uint16, name: seq<byte>, stored: seq<byte> -> bool)
    requires name != [] && stored(name)
    requires ByteLengths(Split(name))
    ensures Reply(txid, Some(name), stored)
         == Success(HeaderWire(Header(txid, ANSWER, 1, 1, 0, 0))
                    + QuestionWire(Question(Split(name), 1, 1))
                    + Pack16(POINTER_TO_QUESTION))
  {
    DnsnameLayout(name);
    Regroup(Pack16(txid), Pack16(ANSWER), Pack16(1), Pack16(1), Pack16(0), Pack16(0),
            Wire(Split(name)) + [0], Pack16(1), Pack16(1), Pack16(POINTER_TO_QUESTION));
  }

  /** The bytes of an answer: txid, 81 80, counts 00 01 00 01 00 00 00 00,
      the length-prefixed labels of the name and a zero byte starting at
      offset 12, then 00 01 00 01 C0 0C. */
  lemma ReplyLayout(txid: uint16, name: seq<byte>, stored: seq<byte> -> bool)
    requires name != [] && stored(name)
    requires ByteLengths(Split(name))
    ensures Reply(txid, Some(name), stored)
         == Success(Pack16(txid) + [0x81, 0x80, 0, 1, 0, 1, 0, 0, 0, 0]
                    + (Wire(Split(name)) + [0]) + [0, 1, 0, 1, 0xC0, 0x0C])
  {
    ReplyStructure(txid, name, stored);
    var wire := Wire(Split(name)) + [0];
    var head := Pack16(ANSWER) + Pack16(1) + Pack16(1) + Pack16(0) + Pack16(0);
    assert head == [0x81, 0x80, 0, 1, 0, 1, 0, 0, 0, 0];
    assert Pack16(1) + Pack16(1) + Pack16(POINTER_TO_QUESTION) == [0, 1, 0, 1, 0xC0, 0x0C];
    Regroup(Pack16(txid), Pack16(ANSWER), Pack16(1), Pack16(1), Pack16(0), Pack16(0),
            wire, Pack16(1), Pack16(1), Pack16(POINTER_TO_QUESTION));
  }

  /** A header, a question and any trailer: the header and the question
      read back from where they were written. */
  lemma MessageReadsBack(h: Header, q: Question, trailer: seq<byte>)
    requires NonEmpty(q.labels) && ByteLengths(q.labels)
    ensures ParseHeader(HeaderWire(h) + QuestionWire(q) + trailer) == Success(h)
    ensures (HeaderWire(h) + QuestionWire(q) + trailer)[12..] == QuestionWire(q) + trailer
    ensures ParseQuestion(QuestionWire(q) + trailer) == Success(q)
  {
    var r := HeaderWire(h) + QuestionWire(q) + trailer;
    assert r == HeaderWire(h) + (QuestionWire(q) + trailer);
    HeaderRoundTrip(h, QuestionWire(q) + trailer);
    QuestionRoundTrip(q, trailer);
  }

  /** The message `ReplyStructure` describes, for any labels: it reads back
      as the answer header, the A/IN question for those labels, and a
      closing pointer to offset 12. */
  lemma AnswerReadsBack(txid: uint16, labels: seq<seq<byte>>, r: seq<byte>)
    requires NonEmpty(labels) && ByteLengths(labels)
    requires r == HeaderWire(Header(txid, ANSWER, 1, 1, 0, 0))
                  + QuestionWire(Question(labels, 1, 1))
                  + Pack16(POINTER_TO_QUESTION)
    ensures |r| >= 14
    ensures ParseHeader(r) == Success(Header(txid, ANSWER, 1, 1, 0, 0))
    ensures ParseQuestion(r[12..]) == Success(Question(labels, 1, 1))
    ensures ParseName(r[12..]) == Success(Some(Join(labels)))
    ensures PointerTarget(r[|r| - 2], r[|r| - 1]) == Some(12)
  {
    var pointer := Pack16(POINTER_TO_QUESTION);
    assert pointer == [0xC0, 0x0C];
    MessageReadsBack(Header(txid, ANSWER, 1, 1, 0, 0), Question(labels, 1, 1), pointer);
  }

  /** An answer reads back as a DNS message: its header carries the txid,
      the answer flags and counts 1/1/0/0; at offset 12 the question names
      the queried name with type A and class IN; and the answer's closing
      pointer targets offset 12, that same name. */
  lemma ReplyReadsBack(txid: uint16, name: seq<byte>, stored: seq<byte> -> bool)
    requires name != [] && stored(name)
    requires NonEmpty(Split(name)) && ByteLengths(Split(name))
    ensures Reply(txid, Some(name), stored).Success?
    ensures var r := Reply(txid, Some(name), stored).value;
      && ParseHeader(r) == Success(Header(txid, ANSWER, 1, 1, 0, 0))
      && ParseQuestion(r[12..]) == Success(Question(Split(name), 1, 1))
      && ParseName(r[12..]) == Success(Some(name))
      && PointerTarget(r[|r| - 2], r[|r| - 1]) == Some(12)
  {
    ReplyStructure(txid, name, stored);
    AnswerReadsBack(txid, Split(name), Reply(txid, Some(name), stored).value);
  }

  /** A name whose last part is empty, `a.` for a dot-free label `a`: the
      empty part is written as a zero byte, so the answer's question reads
      back as the single label `a`, with the zero byte `dnsname` closes the
      name with and the first byte of type A taken for QTYPE 0, and class
      256. The answer does not carry the question that was asked. */
  lemma TrailingDotAnswer(txid: uint16, a: seq<byte>, stored: seq<byte> -> bool)
    requires 0 < |a| < 0x100 && DOT !in a
    requires stored(a + [DOT])
    ensures Reply(txid, Some(a + [DOT]), stored).Success?
    ensures var r := Reply(txid, Some(a + [DOT]), stored).value;
      ParseQuestion(r[12..]) == Success(Question([a], 0, 0x100))
  {
    var name := a + [DOT];
    TrailingDotName(a);
    DnsnameLayout(name);
    ReplyLayout(txid, name, stored);
    var r := Reply(txid, Some(name), stored).value;
    var header := Pack16(txid) + [0x81, 0x80, 0, 1, 0, 1, 0, 0, 0, 0];
    var body := ([|a|] + a + [0] + [0]) + [0, 1, 0, 1, 0xC0, 0x0C];
    assert r == header + body;
    assert r[12..] == body;
    TrailingDotQuestion(a);
  }

  /** `dnsname` on `a.`: the label `a`, the zero byte of the empty part and
      the closing zero byte. */
  lemma TrailingDotName(a: seq<byte>)
    requires 0 < |a| < 0x100 && DOT !in a
    ensures ByteLengths(Split(a + [DOT]))
    ensures Dnsname(a + [DOT]) == Success([|a|] + a + [0] + [0])
  {
    TrailingDotParts(a);
    TrailingDotWire(a);
    DnsnameLayout(a + [DOT]);
  }

  /** The label `a` and an empty part are written as `a` and a zero byte. */
  lemma TrailingDotWire(a: seq<byte>)
    requires |a| < 0x100
    ensures ByteLengths([a, []]) && Wire([a, []]) == [|a|] + a + [0]
  {
    assert [a, []][1..] == [[]];
    assert Wire([[]]) == [0] + Wire([]);
  }

  /** `a.` splits into `a` and an empty part. */
  lemma TrailingDotParts(a: seq<byte>)
    requires DOT !in a
    ensures Split(a + [DOT]) == [a, []]
  {
    SplitConcat(a, []);
    assert a + [DOT] + [] == a + [DOT];
    assert Split([]) == [[]];
  }

  /** The bytes after the header of the answer for `a.`, read as a
      question. */
  lemma TrailingDotQuestion(a: seq<byte>)
    requires 0 < |a| < 0x100
    ensures ParseQuestion(([|a|] + a + [0] + [0]) + [0, 1, 0, 1, 0xC0, 0x0C])
         == Success(Question([a], 0, 0x100))
  {
    QuestionRoundTrip(Question([a], 0, 0x100), [1, 0xC0, 0x0C]);
    assert Wire([a]) == [|a|] + a + Wire([]);
    assert Pack16(0) == [0, 0] && Pack16(0x100) == [1, 0];
    assert QuestionWire(Question([a], 0, 0x100)) + [1, 0xC0, 0x0C]
        == ([|a|] + a + [0] + [0]) + [0, 1, 0, 1, 0xC0, 0x0C];
  }

  /** A miss is not a complete DNS message: at four bytes it is too short
      for a header, let alone the counts. */
  lemma NxdomainIsShort(txid: uint16, lookup: Option<seq<byte>>, stored: seq<byte> -> bool)
    requires !Found(lookup, stored)
    ensures ParseHeader(Reply(txid, lookup, stored).value) == Failure(StructError)
  {
  }
}
