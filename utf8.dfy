/**
 * UTF-8 as Go's unicode/utf8 and strings packages see it: byte strings,
 * the well-formedness table of section 4 of RFC 3629, the encoding of
 * section 3 of RFC 3629 as an independent reference, and the sanitiser
 * strings.ToValidUTF8(s, "") that the BigQuery converter applies.
 */
module Utf8 {

  /** One octet of a Go string or byte slice. */
  type byte = x: int | 0 <= x < 0x100

  predicate InRange(b: byte, lo: int, hi: int) {
    lo <= b <= hi
  }

  /** A trailing octet 10xxxxxx. */
  predicate IsContinuation(b: byte) {
    InRange(b, 0x80, 0xBF)
  }

  /**
   * The length of the well-formed UTF-8 sequence that starts `s`, following
   * the UTF8-1 .. UTF8-4 rules of section 4 of RFC 3629, or 0 when `s` does
   * not start with one (Go's DecodeRune then reports an error of width 1).
   */
  function SequenceLength(s: seq<byte>): (w: nat)
    ensures w <= 4 && w <= |s|
    ensures w == 1 <==> |s| > 0 && s[0] < 0x80
  {
    if |s| == 0 then 0
    else if s[0] < 0x80 then 1
    else if InRange(s[0], 0xC2, 0xDF) then
      if |s| >= 2 && IsContinuation(s[1]) then 2 else 0
    else if s[0] == 0xE0 then
      if |s| >= 3 && InRange(s[1], 0xA0, 0xBF) && IsContinuation(s[2]) then 3 else 0
    else if InRange(s[0], 0xE1, 0xEC) || InRange(s[0], 0xEE, 0xEF) then
      if |s| >= 3 && IsContinuation(s[1]) && IsContinuation(s[2]) then 3 else 0
    else if s[0] == 0xED then
      if |s| >= 3 && InRange(s[1], 0x80, 0x9F) && IsContinuation(s[2]) then 3 else 0
    else if s[0] == 0xF0 then
      if |s| >= 4 && InRange(s[1], 0x90, 0xBF) && IsContinuation(s[2]) && IsContinuation(s[3]) then 4 else 0
    else if InRange(s[0], 0xF1, 0xF3) then
      if |s| >= 4 && IsContinuation(s[1]) && IsContinuation(s[2]) && IsContinuation(s[3]) then 4 else 0
    else if s[0] == 0xF4 then
      if |s| >= 4 && InRange(s[1], 0x80, 0x8F) && IsContinuation(s[2]) && IsContinuation(s[3]) then 4 else 0
    else 0
  }

  /** utf8.Valid / utf8.ValidString: `s` is a sequence of well-formed UTF-8 sequences. */
  predicate Valid(s: seq<byte>)
    decreases |s|
  {
    s == [] || (SequenceLength(s) > 0 && Valid(s[SequenceLength(s)..]))
  }

  /** The first `w` octets alone decide SequenceLength. */
  lemma SequenceLengthOfPrefix(s: seq<byte>, t: seq<byte>)
    requires SequenceLength(s) > 0
    ensures SequenceLength(s[..SequenceLength(s)] + t) == SequenceLength(s)
  {
    var w := SequenceLength(s);
    var u := s[..w] + t;
    assert forall i :: 0 <= i < w ==> u[i] == s[i];
  }

  /** A well-formed sequence followed by valid text is valid text. */
  lemma ValidCons(s: seq<byte>, rest: seq<byte>)
    requires SequenceLength(s) > 0 && Valid(rest)
    ensures Valid(s[..SequenceLength(s)] + rest)
  {
    var w := SequenceLength(s);
    SequenceLengthOfPrefix(s, rest);
    assert (s[..w] + rest)[w..] == rest;
  }

  /**
   * strings.ToValidUTF8(s, ""): every octet that does not begin a
   * well-formed sequence is deleted, every well-formed sequence is kept.
   */
  function Sanitize(s: seq<byte>): (r: seq<byte>)
    ensures Valid(r)
    ensures |r| <= |s|
    ensures Valid(s) ==> r == s
    decreases |s|
  {
    if s == [] then []
    else if SequenceLength(s) == 0 then Sanitize(s[1..])
    else
      var w := SequenceLength(s);
      var tail := Sanitize(s[w..]);
      ValidCons(s, tail);
      assert Valid(s) ==> s[..w] + s[w..] == s;
      s[..w] + tail
  }

  /** Sanitising leaves text unchanged exactly when it is already valid. */
  lemma SanitizeFixedIffValid(s: seq<byte>)
    ensures Sanitize(s) == s <==> Valid(s)
  {
  }

  /** Sanitising twice is the same as sanitising once. */
  lemma SanitizeIdempotent(s: seq<byte>)
    ensures Sanitize(Sanitize(s)) == Sanitize(s)
  {
  }

  /** A valid prefix survives sanitising untouched, whatever follows it. */
  lemma {:induction false} SanitizeValidPrefix(a: seq<byte>, s: seq<byte>)
    requires Valid(a)
    ensures Sanitize(a + s) == a + Sanitize(s)
    decreases |a|
  {
    if a == [] {
      assert a + s == s;
    } else {
      var w := SequenceLength(a);
      SanitizeFirstOfPrefixed(a, s);
      SanitizeValidPrefix(a[w..], s);
      Regroup(Sanitize(a + s), a, a[..w], a[w..], Sanitize(a[w..] + s), Sanitize(s));
    }
  }

  /** Splitting `a` into `p + q` and reassociating. */
  lemma Regroup(x: seq<byte>, a: seq<byte>, p: seq<byte>, q: seq<byte>, y: seq<byte>, z: seq<byte>)
    requires x == p + y && y == q + z && a == p + q
    ensures x == a + z
  {
  }

  /** The first well-formed sequence of `a` stays first in `a + s` and is kept. */
  lemma SanitizeFirstOfPrefixed(a: seq<byte>, s: seq<byte>)
    requires SequenceLength(a) > 0
    ensures Sanitize(a + s) == a[..SequenceLength(a)] + Sanitize(a[SequenceLength(a)..] + s)
    ensures a[..SequenceLength(a)] + a[SequenceLength(a)..] == a
  {
    var w := SequenceLength(a);
    var u := a[..w] + (a[w..] + s);
    assert u == a + s by {
      assert a[..w] + a[w..] == a;
    }
    SequenceLengthOfPrefix(a, a[w..] + s);
    assert u[..w] == a[..w] && u[w..] == a[w..] + s;
  }

  /** An octet that can never begin a well-formed sequence. */
  predicate IsStray(x: byte) {
    InRange(x, 0x80, 0xC1) || x >= 0xF5
  }

  /**
   * A stray octet after valid text is deleted and nothing else is: the text
   * before it is kept and the text after it is sanitised on its own.
   */
  lemma SanitizeDropsStrayByte(a: seq<byte>, x: byte, s: seq<byte>)
    requires Valid(a) && IsStray(x)
    ensures Sanitize(a + [x] + s) == a + Sanitize(s)
  {
    var t := [x] + s;
    assert SequenceLength(t) == 0;
    assert t[1..] == s;
    assert a + [x] + s == a + t;
    SanitizeValidPrefix(a, t);
  }

  /** `r` is `s` with some octets deleted, the others kept in order. */
  predicate IsDeletionOf(r: seq<byte>, s: seq<byte>)
    decreases |s|
  {
    if s == [] then r == []
    else (r != [] && r[0] == s[0] && IsDeletionOf(r[1..], s[1..])) || IsDeletionOf(r, s[1..])
  }

  lemma {:induction false} DeletionOfPrefixed(p: seq<byte>, r: seq<byte>, s: seq<byte>)
    requires IsDeletionOf(r, s)
    ensures IsDeletionOf(p + r, p + s)
    decreases |p|
  {
    if p == [] {
      assert p + r == r && p + s == s;
    } else {
      DeletionOfPrefixed(p[1..], r, s);
      assert (p + r)[1..] == p[1..] + r;
      assert (p + s)[1..] == p[1..] + s;
    }
  }

  /** Sanitising only deletes octets; it never inserts, changes or reorders any. */
  lemma {:induction false} SanitizeDeletes(s: seq<byte>)
    ensures IsDeletionOf(Sanitize(s), s)
    decreases |s|
  {
    if s == [] {
    } else if SequenceLength(s) == 0 {
      SanitizeDeletes(s[1..]);
      assert Sanitize(s) == Sanitize(s[1..]);
    } else {
      var w := SequenceLength(s);
      var tail := Sanitize(s[w..]);
      assert Sanitize(s) == s[..w] + tail;
      SanitizeDeletes(s[w..]);
      DeletionOfPrefixed(s[..w], tail, s[w..]);
      assert s[..w] + s[w..] == s;
    }
  }

  /** Plain ASCII text (every octet below 0x80) is valid UTF-8. */
  lemma {:induction false} AsciiIsValid(s: seq<byte>)
    requires forall i :: 0 <= i < |s| ==> s[i] < 0x80
    ensures Valid(s)
    decreases |s|
  {
    if s != [] {
      AsciiIsValid(s[1..]);
    }
  }

  // ---- Reference: the encoding of section 3 of RFC 3629 ----

  /** A Unicode scalar value: a code point up to U+10FFFF that is not a surrogate. */
  predicate IsScalar(cp: int) {
    0 <= cp <= 0x10FFFF && !(0xD800 <= cp <= 0xDFFF)
  }

  type Scalar = cp: int | IsScalar(cp)

  /** The UTF-8 octets of one scalar value, in the shortest form. */
  function Encode(cp: int): (s: seq<byte>)
    requires IsScalar(cp)
    ensures 1 <= |s| <= 4
  {
    if cp < 0x80 then [cp as byte]
    else if cp < 0x800 then [0xC0 + cp / 64, 0x80 + cp % 64]
    else if cp < 0x10000 then [0xE0 + cp / 4096, 0x80 + cp / 64 % 64, 0x80 + cp % 64]
    else
      assert cp / 262144 <= 4;
      [0xF0 + cp / 262144, 0x80 + cp / 4096 % 64, 0x80 + cp / 64 % 64, 0x80 + cp % 64]
  }

  /** The code point carried by the well-formed sequence that starts `s`. */
  function DecodeFirst(s: seq<byte>): int
    requires SequenceLength(s) > 0
  {
    var w := SequenceLength(s);
    var b := s[..w];
    if w == 1 then b[0] as int
    else if w == 2 then Bits(b[0], 0xC0) * 64 + Bits(b[1], 0x80)
    else if w == 3 then Bits(b[0], 0xE0) * 4096 + Bits(b[1], 0x80) * 64 + Bits(b[2], 0x80)
    else Bits(b[0], 0xF0) * 262144 + Bits(b[1], 0x80) * 4096 + Bits(b[2], 0x80) * 64 + Bits(b[3], 0x80)
  }

  /** The payload bits of an octet once its marker bits `marker` are removed. */
  function Bits(b: byte, marker: int): int {
    b as int - marker
  }

  lemma SixBits(x: int, hi: int, lo: int)
    requires 0 <= lo < 64 && x == hi * 64 + lo
    ensures x / 64 == hi && x % 64 == lo
  {
  }

  /** Every encoded scalar value is recognised as one well-formed sequence, whatever follows it. */
  lemma EncodeRecognised(cp: int, rest: seq<byte>)
    requires IsScalar(cp)
    ensures SequenceLength(Encode(cp) + rest) == |Encode(cp)|
    ensures DecodeFirst(Encode(cp) + rest) == cp
  {
    var e := Encode(cp);
    var u := e + rest;
    assert forall i :: 0 <= i < |e| ==> u[i] == e[i];
    assert u[..|e|] == e;
    var q1 := cp / 64;
    SixBits(cp, q1, cp % 64);
    var q2 := q1 / 64;
    SixBits(q1, q2, q1 % 64);
    var q3 := q2 / 64;
    SixBits(q2, q3, q2 % 64);
    assert cp == q2 * 4096 + (q1 % 64) * 64 + cp % 64;
    assert cp / 4096 == q2 by { DivDiv(cp, q1, q2); }
    assert cp / 262144 == q3 by { DivDiv(cp, q1, q2); DivDiv(q1, q2, q3); DivDivDiv(cp, q3); }
    if cp < 0x80 {
    } else if cp < 0x800 {
      assert 2 <= q1 < 32;
    } else if cp < 0x10000 {
      assert q2 < 16;
      if q2 == 0 { assert q1 % 64 >= 32; }
      if q2 == 13 { assert q1 % 64 < 32; }
    } else {
      assert q3 <= 4;
      if q3 == 0 { assert q2 % 64 >= 16; }
      if q3 == 4 { assert q2 % 64 < 16; }
    }
  }

  lemma DivDiv(x: int, q1: int, q2: int)
    requires q1 == x / 64 && q2 == q1 / 64
    ensures x / 4096 == q2
  {
  }

  lemma DivDivDiv(x: int, q3: int)
    requires q3 == x / 4096 / 64
    ensures x / 262144 == q3
  {
  }

  /** Every well-formed sequence is the encoding of the scalar value it carries. */
  lemma DecodeFirstCorrect(s: seq<byte>)
    requires SequenceLength(s) > 0
    ensures IsScalar(DecodeFirst(s))
    ensures Encode(DecodeFirst(s)) == s[..SequenceLength(s)]
  {
    var w := SequenceLength(s);
    if w == 2 {
      DecodeTwo(s);
    } else if w == 3 {
      DecodeThree(s);
    } else if w == 4 {
      DecodeFour(s);
    }
  }

  lemma DecodeTwo(s: seq<byte>)
    requires SequenceLength(s) == 2
    ensures IsScalar(DecodeFirst(s)) && Encode(DecodeFirst(s)) == s[..2]
  {
    var cp := DecodeFirst(s);
    SixBits(cp, Bits(s[0], 0xC0), Bits(s[1], 0x80));
    assert 0x80 <= cp < 0x800;
    assert Encode(cp) == [s[0], s[1]];
  }

  lemma DecodeThree(s: seq<byte>)
    requires SequenceLength(s) == 3
    ensures IsScalar(DecodeFirst(s)) && Encode(DecodeFirst(s)) == s[..3]
  {
    var b0, b1, b2 := Bits(s[0], 0xE0), Bits(s[1], 0x80), Bits(s[2], 0x80);
    var cp := DecodeFirst(s);
    assert cp == b0 * 4096 + b1 * 64 + b2;
    var q1 := b0 * 64 + b1;
    SixBits(cp, q1, b2);
    SixBits(q1, b0, b1);
    DivDiv(cp, q1, b0);
    assert 0x800 <= cp < 0x10000;
    assert IsScalar(cp);
    assert Encode(cp) == [s[0], s[1], s[2]];
  }

  lemma DecodeFour(s: seq<byte>)
    requires SequenceLength(s) == 4
    ensures IsScalar(DecodeFirst(s)) && Encode(DecodeFirst(s)) == s[..4]
  {
    var b0, b1, b2, b3 := Bits(s[0], 0xF0), Bits(s[1], 0x80), Bits(s[2], 0x80), Bits(s[3], 0x80);
    var cp := DecodeFirst(s);
    assert cp == b0 * 262144 + b1 * 4096 + b2 * 64 + b3;
    var q2 := b0 * 64 + b1;
    var q1 := q2 * 64 + b2;
    SixBits(cp, q1, b3);
    SixBits(q1, q2, b2);
    SixBits(q2, b0, b1);
    DivDiv(cp, q1, q2);
    DivDivDiv(cp, b0);
    assert 0x10000 <= cp <= 0x10FFFF;
    assert Encode(cp) == [s[0], s[1], s[2], s[3]];
  }

  /** The octets of a sequence of scalar values, one after the other. */
  function EncodeAll(cps: seq<Scalar>): seq<byte>
  {
    if cps == [] then [] else Encode(cps[0]) + EncodeAll(cps[1..])
  }

  /** The scalar values carried by valid text, in order. */
  function DecodeAll(s: seq<byte>): seq<Scalar>
    requires Valid(s)
    decreases |s|
  {
    if s == [] then []
    else
      DecodeFirstCorrect(s);
      [DecodeFirst(s)] + DecodeAll(s[SequenceLength(s)..])
  }

  /** Encoding any scalar values gives valid text. */
  lemma {:induction false} EncodeAllValid(cps: seq<Scalar>)
    ensures Valid(EncodeAll(cps))
  {
    if cps != [] {
      var e := Encode(cps[0]);
      EncodeAllValid(cps[1..]);
      EncodeRecognised(cps[0], EncodeAll(cps[1..]));
      assert (e + EncodeAll(cps[1..]))[|e|..] == EncodeAll(cps[1..]);
    }
  }

  /** Valid text is exactly the encoding of the scalar values it carries. */
  lemma {:induction false} DecodeAllRoundTrip(s: seq<byte>)
    requires Valid(s)
    ensures EncodeAll(DecodeAll(s)) == s
    decreases |s|
  {
    if s != [] {
      var w := SequenceLength(s);
      DecodeFirstCorrect(s);
      DecodeAllRoundTrip(s[w..]);
      EncodeAllCons(s, w, DecodeFirst(s), DecodeAll(s[w..]));
    }
  }

  lemma EncodeAllCons(s: seq<byte>, w: nat, cp: Scalar, rest: seq<Scalar>)
    requires w <= |s| && Encode(cp) == s[..w] && EncodeAll(rest) == s[w..]
    ensures EncodeAll([cp] + rest) == s
  {
    assert ([cp] + rest)[0] == cp && ([cp] + rest)[1..] == rest;
    assert s[..w] + s[w..] == s;
  }

  /** Decoding the encoding of scalar values gives them back. */
  lemma {:induction false} EncodeAllRoundTrip(cps: seq<Scalar>)
    ensures Valid(EncodeAll(cps)) && DecodeAll(EncodeAll(cps)) == cps
  {
    EncodeAllValid(cps);
    if cps != [] {
      var e := Encode(cps[0]);
      var u := EncodeAll(cps);
      EncodeRecognised(cps[0], EncodeAll(cps[1..]));
      assert u[|e|..] == EncodeAll(cps[1..]);
      EncodeAllRoundTrip(cps[1..]);
    }
  }

  /** The well-formedness table and the encoding define the same set of texts. */
  lemma ValidIffEncoding(s: seq<byte>)
    ensures Valid(s) <==> exists cps: seq<Scalar> :: EncodeAll(cps) == s
  {
    if Valid(s) {
      DecodeAllRoundTrip(s);
    }
    forall cps: seq<Scalar> | EncodeAll(cps) == s
      ensures Valid(s)
    {
      EncodeAllValid(cps);
    }
  }

  /** Text that starts with a well-formed sequence starts with the encoding of a scalar value. */
  lemma WellFormedStartIsEncoding(t: seq<byte>)
    requires SequenceLength(t) > 0
    ensures IsScalar(DecodeFirst(t))
    ensures t == Encode(DecodeFirst(t)) + t[SequenceLength(t)..]
  {
    DecodeFirstCorrect(t);
    assert t[..SequenceLength(t)] + t[SequenceLength(t)..] == t;
  }

  /**
   * A byte that begins the encoding of no scalar value, whatever follows it
   * (a stray continuation byte, a lead byte of a truncated or overlong form,
   * a surrogate, a byte above F4), is deleted alone: the valid text before it
   * is kept and the text after it is sanitised on its own. With
   * SanitizeValidPrefix and Sanitize([]) == [] this determines Sanitize.
   */
  lemma SanitizeDropsIllFormedByte(a: seq<byte>, x: byte, s: seq<byte>)
    requires Valid(a)
    requires forall cp: Scalar, rest: seq<byte> :: [x] + s != Encode(cp) + rest
    ensures Sanitize(a + [x] + s) == a + Sanitize(s)
  {
    var t := [x] + s;
    if SequenceLength(t) > 0 {
      WellFormedStartIsEncoding(t);
      assert false;
    }
    assert t[1..] == s;
    assert a + [x] + s == a + t;
    SanitizeValidPrefix(a, t);
  }

  /** A lead byte E2 with no continuation after it goes, the ASCII after it stays. */
  lemma TruncatedLeadDropped()
    ensures Sanitize([0xE2, 0x41]) == [0x41]
  {
    var t: seq<byte> := [0xE2, 0x41];
    assert SequenceLength(t) == 0;
    assert t[1..] == [0x41];
    AsciiIsValid([0x41]);
  }
}
