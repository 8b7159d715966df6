/** The header-flags whitelist of dnsbl.py (`standard`). The flags word is
    laid out as in section 4.1.1 of RFC 1035: 0x0100 is RD (recursion
    desired), and the code names 0x0020 `DNSSEC`. */
module Flags {
  import opened Bytes

  const STANDARD: bv16 := 0x100
  const DNSSEC: bv16 := 0x20
  const EXPECTED: bv16 := STANDARD | DNSSEC

  /** `standard(flags)`: no bit outside `EXPECTED` is set, and of the two
      expected bits RD is set, with or without 0x0020. Python's `~EXPECTED`
      is an unbounded complement, but on a 16-bit flags word only its low
      16 bits matter. Exactly two flag words pass. */
  function Standard(flags: uint16): (r: bool)
    ensures r <==> flags == 0x0100 || flags == 0x0120
  {
    var f := flags as bv16;
    StandardBits(f);
    assert f == 0x0100 ==> flags == 0x0100;
    assert f == 0x0120 ==> flags == 0x0120;
    assert flags == 0x0100 ==> f == 0x0100;
    assert flags == 0x0120 ==> f == 0x0120;
    f & !EXPECTED == 0 && (f & EXPECTED == STANDARD || f & EXPECTED == EXPECTED)
  }

  /** The whitelist on the bits of the flags word. */
  lemma StandardBits(f: bv16)
    ensures (f & !EXPECTED == 0 && (f & EXPECTED == STANDARD || f & EXPECTED == EXPECTED))
        <==> f == 0x0100 || f == 0x0120
  {
  }

  /** The doctests of `standard`. */
  lemma StandardExamples()
    ensures !Standard(0x101)
    ensures Standard(0x120)
    ensures Standard(0x100)
    ensures !Standard(0x80)
  {
  }
}
