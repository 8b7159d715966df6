/** Python's `bytes.split(b'.')` and `b'.'.join(...)` over byte strings, the
    two builtins every name helper of dnsbl.py is made of. Text is handled as
    its UTF-8 bytes: the dot and the ASCII digits are single bytes that never
    occur inside a multi-byte character, so splitting and matching the bytes
    agrees with splitting and matching the text. */
module Text {
  import opened Bytes

  const DOT: byte := 0x2E

  /** True when no label holds a dot: what `split('.')` always produces. */
  predicate DotFree(labels: seq<seq<byte>>) {
    forall i | 0 <= i < |labels| :: DOT !in labels[i]
  }

  /** `'.'.join(labels)`. */
  function Join(labels: seq<seq<byte>>): seq<byte> {
    if |labels| == 0 then []
    else if |labels| == 1 then labels[0]
    else labels[0] + [DOT] + Join(labels[1..])
  }

  /** `s.split('.')`: the maximal dot-free runs of `s`, in order, including
      the empty ones; never an empty list. */
  function Split(s: seq<byte>): (r: seq<seq<byte>>)
    ensures |r| >= 1
    ensures DotFree(r)
    ensures Join(r) == s
    decreases |s|
  {
    if |s| == 0 then [[]]
    else
      var rest := Split(s[1..]);
      if s[0] == DOT then [[]] + rest
      else [[s[0]] + rest[0]] + rest[1..]
  }

  /** Splitting a dot-free string gives it back as the only part. */
  lemma {:induction false} SplitDotFree(a: seq<byte>)
    requires DOT !in a
    ensures Split(a) == [a]
    decreases |a|
  {
    if |a| > 0 {
      SplitDotFree(a[1..]);
      assert [a[0]] + a[1..] == a;
    }
  }

  /** Splitting a dot-free string gives it back as the only part, and a dot
      splits a string into the parts on either side. */
  lemma {:induction false} SplitConcat(a: seq<byte>, b: seq<byte>)
    requires DOT !in a
    ensures Split(a) == [a]
    ensures Split(a + [DOT] + b) == [a] + Split(b)
    decreases |a|
  {
    SplitDotFree(a);
    var s := a + [DOT] + b;
    if |a| == 0 {
      assert s[1..] == b;
    } else {
      var t := s[1..];
      assert t == a[1..] + [DOT] + b;
      SplitConcat(a[1..], b);
      var rest := Split(t);
      assert rest[0] == a[1..] && rest[1..] == Split(b);
      assert Split(s) == [[a[0]] + rest[0]] + rest[1..];
      assert [a[0]] + a[1..] == a;
    }
  }

  /** `'.'.join` is undone by `split('.')` when no part holds a dot. */
  lemma {:induction false} SplitJoin(labels: seq<seq<byte>>)
    requires |labels| >= 1
    requires DotFree(labels)
    ensures Split(Join(labels)) == labels
    decreases |labels|
  {
    SplitConcat(labels[0], []);
    if |labels| > 1 {
      SplitJoin(labels[1..]);
      SplitConcat(labels[0], Join(labels[1..]));
      assert [labels[0]] + labels[1..] == labels;
    }
  }

  /** Joining two non-empty lists puts a dot between their joins. */
  lemma {:induction false} JoinConcat(a: seq<seq<byte>>, b: seq<seq<byte>>)
    requires |a| >= 1 && |b| >= 1
    ensures Join(a + b) == Join(a) + [DOT] + Join(b)
    decreases |a|
  {
    if |a| > 1 {
      JoinConcat(a[1..], b);
      assert (a + b)[1..] == a[1..] + b;
    } else {
      assert (a + b)[1..] == b;
    }
  }

  /** A dot splits a string into the parts on either side of it, whatever
      those parts hold. */
  lemma SplitDot(a: seq<byte>, b: seq<byte>)
    ensures Split(a + [DOT] + b) == Split(a) + Split(b)
  {
    JoinConcat(Split(a), Split(b));
    SplitJoin(Split(a) + Split(b));
  }

  /** Each part of a dotted join is no longer than the join. */
  lemma {:induction false} JoinPart(labels: seq<seq<byte>>, i: nat)
    requires i < |labels|
    ensures |labels[i]| <= |Join(labels)|
    decreases |labels|
  {
    if i > 0 {
      JoinPart(labels[1..], i - 1);
    }
  }

  /** No part `split('.')` makes of a string is longer than the string. */
  lemma SplitParts(s: seq<byte>)
    ensures forall i | 0 <= i < |Split(s)| :: |Split(s)[i]| <= |s|
  {
    forall i | 0 <= i < |Split(s)|
      ensures |Split(s)[i]| <= |s|
    {
      JoinPart(Split(s), i);
    }
  }

  /** Python's `reversed(...)` on a list. */
  function Reversed<T>(xs: seq<T>): (r: seq<T>)
    ensures |r| == |xs|
    ensures forall i | 0 <= i < |xs| :: r[i] == xs[|xs| - 1 - i]
  {
    if |xs| == 0 then [] else Reversed(xs[1..]) + [xs[0]]
  }

  /** An ASCII decimal digit, the only kind `\d` is taken to match. */
  predicate IsDigit(b: byte) {
    0x30 <= b <= 0x39
  }

  /** A match of `\d+`: a non-empty run of digits. */
  predicate DigitRun(s: seq<byte>) {
    |s| > 0 && forall i | 0 <= i < |s| :: IsDigit(s[i])
  }

  /** The ASCII bytes of a string literal, for writing examples. */
  function Ascii(s: string): seq<byte>
    requires forall i | 0 <= i < |s| :: s[i] < 128 as char
  {
    seq(|s|, i requires 0 <= i < |s| => s[i] as int)
  }
}
