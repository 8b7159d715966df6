/** Bytes, 16-bit integers, Python slicing and the `short` helper of dnsbl.py. */
module Bytes {
  import opened Wrappers

  type byte = x: int | 0 <= x < 0x100
  type uint16 = x: int | 0 <= x < 0x1_0000

  /** The Python exceptions the codec raises on input it does not guard against. */
  datatype Error =
    | StructError  // struct.unpack('>H', b) with len(b) != 2
    | IndexError   // a buffer indexed at or past its end
    | ValueError   // bytes([n]) with n > 255

  /** Python's `s[lo:hi]` for non-negative bounds: clamped to `s`, never raises. */
  function Slice(s: seq<byte>, lo: nat, hi: nat): (r: seq<byte>)
    ensures lo <= hi <= |s| ==> r == s[lo..hi]
    ensures lo < hi && |s| < hi ==> |r| < hi - lo
  {
    var l := if lo < |s| then lo else |s|;
    var h := if hi < l then l else if hi < |s| then hi else |s|;
    s[l..h]
  }

  /** `short(number)` on an int: `struct.pack('>H', number)`, two bytes, big-endian. */
  function Pack16(n: uint16): (r: seq<byte>)
    ensures |r| == 2
    ensures r[0] as int * 0x100 + r[1] == n
  {
    [n / 0x100, n % 0x100]
  }

  /** `short(number)` on bytes: `struct.unpack('>H', number)[0]`, which raises
      `struct.error` unless it is given exactly two bytes. */
  function Unpack16(b: seq<byte>): (r: Result<uint16, Error>)
    ensures r.Success? <==> |b| == 2
    ensures r.Failure? ==> r.error == StructError
    ensures r.Success? ==> Pack16(r.value) == b
  {
    if |b| != 2 then Failure(StructError) else Success(b[0] as int * 0x100 + b[1])
  }

  /** Packing then unpacking gives the number back. */
  lemma ShortRoundTrip(n: uint16)
    ensures Unpack16(Pack16(n)) == Success(n)
  {
  }

  /** The doctests of `short`: 1 packs to 00 01 and 00 01 unpacks to 1. */
  lemma ShortExamples()
    ensures Pack16(1) == [0x00, 0x01]
    ensures Unpack16([0x00, 0x01]) == Success(1)
  {
  }
}
