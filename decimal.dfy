/**
 * Unsigned decimal text, as written by fmt.Sprintf("%d", v) for an unsigned
 * Go integer, and a reader for it that serves as its partner.
 */
module Decimal {
  import opened Utf8
  import opened Wrappers

  /** Octets '0' .. '9'. */
  predicate IsDigit(b: byte) {
    0x30 <= b <= 0x39
  }

  predicate AllDigits(s: seq<byte>) {
    forall i :: 0 <= i < |s| ==> IsDigit(s[i])
  }

  /** `%d` of a non-negative integer: its digits, most significant first, without leading zeros. */
  function Format(n: nat): (s: seq<byte>)
    ensures |s| >= 1 && AllDigits(s)
    ensures |s| > 1 ==> s[0] != 0x30
    decreases n
  {
    if n < 10 then [0x30 + n] else Format(n / 10) + [0x30 + n % 10]
  }

  /** The number that a string of decimal digits denotes. */
  function Value(s: seq<byte>): nat
    requires AllDigits(s)
    decreases |s|
  {
    if s == [] then 0 else Value(s[..|s| - 1]) * 10 + (s[|s| - 1] as int - 0x30)
  }

  /** Reads unsigned decimal text back; empty text or a non-digit is an error. */
  function Parse(s: seq<byte>): Option<nat> {
    if s != [] && AllDigits(s) then Some(Value(s)) else None
  }

  /** The text `%d` writes reads back as the original number. */
  lemma {:induction false} ParseFormat(n: nat)
    ensures Parse(Format(n)) == Some(n)
    decreases n
  {
    var s := Format(n);
    if n < 10 {
      assert s == [0x30 + n];
      assert s[..|s| - 1] == [];
      assert Value(s) == Value(s[..|s| - 1]) * 10 + (s[|s| - 1] as int - 0x30);
    } else {
      ParseFormat(n / 10);
      assert s[..|s| - 1] == Format(n / 10);
      assert Value(s) == (n / 10) * 10 + n % 10;
    }
  }

  /** Different numbers are written differently. */
  lemma FormatInjective(m: nat, n: nat)
    requires Format(m) == Format(n)
    ensures m == n
  {
    ParseFormat(m);
    ParseFormat(n);
  }

  /** Decimal text is plain ASCII and so valid UTF-8. */
  lemma FormatValid(n: nat)
    ensures Valid(Format(n))
  {
    AsciiIsValid(Format(n));
  }

  function Pow10(k: nat): (p: nat)
    ensures p >= 1
  {
    if k == 0 then 1 else 10 * Pow10(k - 1)
  }

  /** A number in [10^(k-1), 10^k) is written with exactly k digits. */
  lemma {:induction false} FormatLength(n: nat, k: nat)
    requires k >= 1 && (k == 1 || Pow10(k - 1) <= n) && n < Pow10(k)
    ensures |Format(n)| == k
    decreases k
  {
    if k > 1 && n >= 10 {
      FormatLength(n / 10, k - 1);
    }
  }

  /** The powers of ten around the 64-bit range. */
  lemma Pow10Wide()
    ensures Pow10(18) == 1_000_000_000_000_000_000
    ensures Pow10(19) == 10_000_000_000_000_000_000
    ensures Pow10(20) == 100_000_000_000_000_000_000
  {
    assert Pow10(1) == 10;
    assert Pow10(2) == 100;
    assert Pow10(3) == 1000;
    assert Pow10(4) == 10000;
    assert Pow10(5) == 100000;
    assert Pow10(6) == 1000000;
    assert Pow10(7) == 10000000;
    assert Pow10(8) == 100000000;
    assert Pow10(9) == 1000000000;
    assert Pow10(10) == 10000000000;
    assert Pow10(11) == 100000000000;
    assert Pow10(12) == 1000000000000;
    assert Pow10(13) == 10000000000000;
    assert Pow10(14) == 100000000000000;
    assert Pow10(15) == 1000000000000000;
    assert Pow10(16) == 10000000000000000;
    assert Pow10(17) == 100000000000000000;
    assert Pow10(18) == 1000000000000000000;
    assert Pow10(19) == 10000000000000000000;
    assert Pow10(20) == 100000000000000000000;
  }
}
