# dnsbl.py — a Dafny model of the DNSBL responder's codec

`dnsbl.py` is a small DNS block-list server. For each UDP query it reads the
12-byte DNS header and, when the header flags are the standard query flags,
the question. It looks the queried name up in a directory of files and
answers with a truncated A answer when the file exists, or NXDOMAIN when it
does not. Next to the server the program has naming helpers. They turn an
IPv4 address `a.b.c.d` into its block-list name `d.c.b.a.<domain>`, and back.

This project models that core as pure Dafny functions over byte sequences:

- the `short` helper;
- the name codec (`dnsname`, `parse_name`);
- the flag whitelist (`standard`);
- the query parser (`parse`);
- the reply builder (`reply`);
- the naming helpers (`reverse`, `hostname`, `ipaddress`);
- one turn of the serving loop (`reply(*parse(query))`).

It then proves the codec's round trips and layouts about that model.

Modules, one per file:

| file | module | models |
|---|---|---|
| wrappers.dfy | `Wrappers` | `Option` and `Result` |
| bytes.dfy | `Bytes` | bytes, 16-bit integers, Python slicing, `short` |
| text.dfy | `Text` | `split('.')`, `'.'.join`, `reversed`, digit runs |
| name_codec.dfy | `NameCodec` | `dnsname`, the label loop and the question reader of `parse_name` |
| flags.dfy | `Flags` | `STANDARD`, `DNSSEC`, `EXPECTED`, `standard` |
| message.dfy | `Message` | the header and `parse` |
| response.dfy | `Response` | `reply` |
| naming.dfy | `Naming` | `reverse`, `hostname`, `ipaddress` and the address regex |
| server.dfy | `Server` | `reply(*parse(query))`, one turn of `dnsbl` |

How Python is rendered:

- **Exceptions.** An exception the program does not catch becomes a
  `Failure` of a `Result`:
  - `StructError`: `struct.unpack` given other than two bytes;
  - `IndexError`: `query[offset]` at or past the end;
  - `ValueError`: `bytes([n])` with `n > 255`.
- **`None`.** Python's `None` becomes `Option.None`.
- **Text.** Names are byte sequences, the UTF-8 bytes of the text. The dot
  and the ASCII digits are single bytes that never occur inside a
  multi-byte character, so splitting and matching the bytes agrees with
  splitting and matching the text.
- **Parameters.**
  - The configured domain (`DNSBL_DOMAIN`) is a parameter of
    `Naming.Hostname` and `Naming.Ipaddress`.
  - The store check `os.path.exists(os.path.join(DNSBL_DIRECTORY, lookup))`
    is a function parameter `stored` of `Response.Reply` and `Server.Handle`.

Behaviour of the code worth knowing:

- **Empty name.** `dnsname('')` is two zero bytes, not the single zero
  byte of the root name:
  `''.split('.')` is `['']`, and an empty part is appended
  (`NameCodec.DnsnameEmpty`).
- **Truncated datagrams** raise, so no reply is built and the exception
  ends the serving loop:
  - a datagram shorter than 12 bytes raises `struct.error`;
  - a label running past the end raises `IndexError`
    (`Server.HandleTruncatedLabel`);
  - a question cut inside QTYPE or QCLASS raises `struct.error`
    (`NameCodec.QuestionTruncated`).
- **Store key.** The serving loop asks the store about the full queried
  name as `parse` returns it, and echoes that name in the answer.
  `ipaddress` is never called on this path. `Server.Handle` models that
  path, and `Naming.Ipaddress` is modelled on its own.
- **Label bound.** Labels of 64 to 255 bytes are written and read like any
  other label; only 256 bytes or more makes `dnsname` raise. A name read
  from a question never has such a part, so the serving loop only ever
  raises `struct.error` or `IndexError` (`Server.Handle`).
- **Empty parts.** A name with an empty dot-separated part is written with
  a zero byte for that part. A query label holding a dot, `a.`, is parsed
  to the name `a.`, and the answer for it carries `01 61 00 00`: read
  back, its question is the label `a` with QTYPE 0 and QCLASS 256, not the
  question asked (`Response.TrailingDotAnswer`, `Server.HandleDotInLabel`).

## Model

| member | source | states |
|---|---|---|
| Bytes.Slice | dnsbl.py:115-118 | Python slicing never raises: within bounds it is the plain subsequence, and a slice reaching past the end is shorter than asked for. |
| Bytes.Pack16 | dnsbl.py:89-99 | `short` on a number gives two bytes whose big-endian value is that number. |
| Bytes.Unpack16 | dnsbl.py:98-101 | `short` on bytes succeeds exactly when given two bytes, raises `struct.error` otherwise, and the number it returns packs back to those bytes. |
| Bytes.ShortRoundTrip | dnsbl.py:89-101 | Unpacking a packed number gives it back. |
| Bytes.ShortExamples | dnsbl.py:93-96 | The doctests: 1 packs to 00 01, and 00 01 unpacks to 1. |
| Text.Split | dnsbl.py:78 | `split('.')` gives at least one part, no part holds a dot, and joining the parts with dots gives the string back. |
| Text.Reversed | dnsbl.py:78 | `reversed` keeps the length and puts the element at position `i` at position `n - 1 - i`. |
| Text.SplitJoin | dnsbl.py:78 | Joining dot-free parts with dots and splitting again gives the same parts. |
| Text.SplitDot | dnsbl.py:87 | Splitting `a.b` gives the parts of `a` followed by the parts of `b`, whatever `a` and `b` hold. |
| NameCodec.Dnsname | dnsbl.py:122-132 | `dnsname` succeeds exactly when every dot-separated label is under 256 bytes and raises `ValueError` otherwise; its result is two bytes longer than the name and ends in a zero byte. |
| NameCodec.DnsnameLayout | dnsbl.py:129-132 | `dnsname` writes each label as its length byte and its bytes, then a zero byte. |
| NameCodec.DnsnameEmpty | dnsbl.py:130-132 | The empty name is written as two zero bytes. |
| NameCodec.DnsnameTwoLabels | dnsbl.py:126-132 | A two-label name is written as both length-prefixed labels and a zero byte. |
| NameCodec.DnsnameExample | dnsbl.py:126-127 | The doctest `dnsname('abcdef.com')` is `\x06abcdef\x03com\x00`. |
| NameCodec.ReadLabels | dnsbl.py:111-116 | The label loop either raises `IndexError` or stops at a zero byte inside the buffer, at or after where it started. |
| NameCodec.ReadLabelsConsumed | dnsbl.py:111-116 | The bytes a successful label loop consumed are exactly the wire form of the labels it returned, and none of those labels is empty or cut short. |
| NameCodec.LabelPastEnd | dnsbl.py:113-116 | A length byte that reaches the end of the buffer makes the loop raise `IndexError`, not return a short label. |
| NameCodec.ReadWire | dnsbl.py:111-116 | Reading non-empty labels written in wire form, anywhere in a buffer, gives the labels back and stops at their zero byte. |
| NameCodec.ParseQuestion | dnsbl.py:111-118 | Reading a question either raises `IndexError` or `struct.error`, or returns non-empty labels and the QTYPE and QCLASS whose wire form is exactly a prefix of the buffer. |
| NameCodec.QuestionRoundTrip | dnsbl.py:111-118 | A written question with non-empty labels is read back unchanged, whatever follows it. |
| NameCodec.QuestionTruncated | dnsbl.py:117-118 | A question cut off inside QTYPE or QCLASS raises `struct.error`. |
| NameCodec.ParseName | dnsbl.py:103-120 | `parse_name` fails exactly when the question read fails, with the same error, and returns a name exactly when QTYPE and QCLASS are both 1. Every dot-separated part of a name it returns is under 256 bytes, so `dnsname` can write it. |
| NameCodec.SplitJoinBytes | dnsbl.py:120 | Splitting the dot-joined labels that the loop read, each under 256 bytes, gives parts under 256 bytes again. |
| NameCodec.NameRoundTrip | dnsbl.py:103-132 | The name `dnsname` writes, followed by type 1 and class 1 and any tail, is parsed back to the same name, for every name whose labels are non-empty and under 256 bytes. |
| NameCodec.NameReencodes | dnsbl.py:103-132 | Conversely, a non-empty name `parse_name` returns from dot-free labels is written by `dnsname` as exactly the bytes it was read from, followed by 00 01 00 01. |
| NameCodec.ParseNameTwoLabels | dnsbl.py:103-120 | A two-label A/IN question is read back as the dotted name. |
| NameCodec.ParseNameExample | dnsbl.py:107-109 | The doctest: `\x07example\x03net\x00\x00\x01\x00\x01\x00\x00` parses to `example.net`. |
| NameCodec.EmptyLabelEndsName | dnsbl.py:113-132 | Why the round trip needs non-empty labels: `dnsname` writes the empty label of `a..b` as a zero byte, and the reader stops there with `[a]` only. |
| Flags.Standard | dnsbl.py:134-147 | `standard` accepts exactly the flag words 0x0100 and 0x0120. |
| Flags.StandardExamples | dnsbl.py:138-145 | The doctests: 0x101 and 0x80 are rejected, 0x120 and 0x100 accepted. |
| Message.ParseHeader | dnsbl.py:153-158 | The header read succeeds exactly when the datagram has 12 bytes or more, raises `struct.error` otherwise, and the header read is exactly its first 12 bytes. |
| Message.HeaderRoundTrip | dnsbl.py:153-158 | A written header is read back unchanged, whatever follows it. |
| Message.Parse | dnsbl.py:149-164 | `parse` raises `struct.error` below 12 bytes. The txid is the first two bytes. Non-standard flags give no name. Standard flags give exactly what `parse_name` gives on the bytes after the header, failure included. It only ever raises `struct.error` or `IndexError`. |
| Message.NonstandardIgnoresQuestion | dnsbl.py:164 | With non-standard flags the bytes after the header are never read: two datagrams sharing their header parse alike. |
| Message.ParseQuery | dnsbl.py:149-164 | A written standard query parses to its txid, and to its name when the question is A/IN, or `None` otherwise. |
| Response.Reply | dnsbl.py:41-57 | Every reply starts with the txid. Without a stored, non-empty name it is exactly the txid and 81 83. With one it succeeds exactly when the name's labels are under 256 bytes, and is 20 bytes longer than the name. It only ever raises `ValueError`. |
| Response.ReplyStructure | dnsbl.py:45-54 | An answer is a header (txid, flags 0x8180, counts 1/1/0/0), the A/IN question for the name, and the pointer 0xC00C. |
| Response.ReplyLayout | dnsbl.py:47-54 | An answer's bytes are the txid, 81 80 00 01 00 01 00 00 00 00, the name as `dnsname` writes it, and 00 01 00 01 C0 0C. |
| Response.ReplyReadsBack | dnsbl.py:48-54 | For a name with no empty dot-separated part, an answer reads back as a DNS message. Its header is the txid, flags 0x8180 and counts 1/1/0/0. At offset 12 it holds the A/IN question for the queried name. Its closing pointer targets offset 12, where that name starts. |
| Response.TrailingDotAnswer | dnsbl.py:47-54 | For a name `a.` whose last part is empty, the answer is built, but its question reads back as the single label `a` with QTYPE 0 and QCLASS 256, not as an A/IN question for `a.`. |
| Response.NxdomainIsShort | dnsbl.py:55-56 | The NXDOMAIN reply is too short to hold a header, so its counts are missing. |
| Naming.Reverse | dnsbl.py:71-78 | The dot-separated parts of `reverse(s)` are the parts of `s` in reverse order. |
| Naming.ReverseInvolution | dnsbl.py:71-78 | Reversing twice gives back any string. |
| Naming.ReverseQuad | dnsbl.py:71-78 | `reverse` of four dot-free parts `a.b.c.d` is `d.c.b.a`. |
| Naming.ReverseExample | dnsbl.py:75-76 | The doctest: `reverse('1.2.3.4')` is `4.3.2.1`. |
| Naming.Hostname | dnsbl.py:80-87 | The parts of `hostname(ip)` are the parts of `ip` reversed, then the parts of the domain. |
| Naming.Ipaddress | dnsbl.py:60-69 | What `ipaddress` returns is always a dotted quad, four dot-separated digit runs. |
| Naming.IpaddressIsPattern | dnsbl.py:11-14 | `ipaddress`, read label by label, matches exactly when the anchored regex `^(\d+\.\d+\.\d+\.\d+)\.<domain>$` matches the text, and then returns the captured group reversed. |
| Naming.HostnameRoundTrip | dnsbl.py:60-87 | `ipaddress(hostname(ip)) == ip` for every dotted quad `ip` and every domain. |
| Naming.IpaddressRoundTrip | dnsbl.py:60-87 | Conversely, an address `ipaddress` finds in a host is a dotted quad whose `hostname` is that host. |
| Naming.QuadRoundTrip | dnsbl.py:60-87 | The round trip through `hostname` and `ipaddress` for an address spelled as four digit runs. |
| Naming.NoAddressPrefix | dnsbl.py:60-69 | A host with fewer parts than four plus the domain's has no address; the domain itself is one. |
| Naming.HostnameExample | dnsbl.py:84-85 | The doctest: `hostname('1.2.3.4')` is `4.3.2.1.<domain>`, for any domain, `dnsbl.gnixl.com` among them. |
| Naming.IpaddressExample | dnsbl.py:64-65 | The doctest: `ipaddress('4.3.2.1.<domain>')` is `1.2.3.4`, for any domain. |
| Naming.NoAddressExample | dnsbl.py:66-67 | The doctest: `ipaddress('gnixl.com')` is `None` under the domain `dnsbl.gnixl.com`. |
| Server.Handle | dnsbl.py:33-37 | One loop turn raises `struct.error` below 12 bytes, and only ever raises `struct.error` or `IndexError`, never the `ValueError` of `dnsname`. Any reply echoes the query's txid in its first two bytes. Non-standard flags get the four-byte NXDOMAIN whatever follows the header. |
| Server.HandleQuery | dnsbl.py:34-37 | A standard A/IN query is answered by `reply` on the full name it asks about, whatever follows the question. |
| Server.HandleAnswers | dnsbl.py:34-37 | A standard A/IN query for a stored name gets the answer that carries the same name. |
| Server.HandleMisses | dnsbl.py:34-37 | The same query for a name not stored gets exactly the txid and 81 83. |
| Server.HandleOtherQuestion | dnsbl.py:34-37 | A standard query whose type or class is not A/IN gets NXDOMAIN whatever the store holds. |
| Server.HandleDotInLabel | dnsbl.py:34-37 | A standard A/IN query whose one label is `a.` is answered by `reply` on the name `a.`; when that name is stored, the answer's question reads back as `a` with QTYPE 0 and QCLASS 256. |
| Server.HandleTruncatedLabel | dnsbl.py:113-116 | A query whose last label runs past the end of the datagram raises `IndexError`, and no reply is built. |

## Left out

- The serving loop's socket work is not modelled, and neither are its logging, its loop counter or the `__main__` argument handling: the datagram is an argument of `Server.Handle` and the reply its result.
- Configuration from the environment (`DNSBL_DIRECTORY`, `DNSBL_HOST`, `DNSBL_PORT`, `DNSBL_DOMAIN`) is not read. The domain is a parameter.
- `os.path.join` and `os.path.exists` are one abstract predicate `stored`. How a name containing `/` or `..` would be resolved against the directory is not modelled.
- UTF-8 is not modelled: `.encode()` in `dnsname` and `.decode()` in `parse_name` are left out, and so is the `UnicodeDecodeError` that `.decode()` raises on invalid bytes. Names are their bytes throughout.
- Bytes.Pack16: takes a 16-bit number. For a number outside 0..65535, `short` raises `struct.error` and then `TypeError`. Every call in the program passes a constant or a txid that was read as 16 bits, so this path is unreachable.
- Naming.IpaddressIsPattern: `\d` is read as the ASCII digits only. The regex also matches before a trailing newline (`$`), and dots are the only metacharacter escaped in the domain. These three details of Python's `re` are not modelled.
- Compression pointers inside a query's question are not followed by `parse_name`, nor by the model: their length byte (0xC0 or more) is read as an ordinary label length.
- The header counts are read and never checked by `parse`. The model reads them into `Message.Header` and checks nothing either.
