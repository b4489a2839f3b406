/**
 * The formatter of the GUI's byte fields (HexFormatter.java): text is read
 * as a hexadecimal Java int, as `Integer.valueOf(text, 16)` does, and its
 * low byte kept; a value is printed as at least two upper-case hex digits,
 * as `String.format("%02X", value)` does.
 */
module Hex {
  import opened Wrappers
  import opened Bits

  const INT_MIN: int := -0x8000_0000
  const INT_MAX: int := 0x7fff_ffff

  // ------------------------------------------------------------ digits

  predicate IsHexDigit(c: char)
  {
    '0' <= c <= '9' || 'a' <= c <= 'f' || 'A' <= c <= 'F'
  }

  /** The digits `%X` prints. */
  predicate IsUpperHexDigit(c: char)
  {
    '0' <= c <= '9' || 'A' <= c <= 'F'
  }

  function DigitValue(c: char): (d: int)
    requires IsHexDigit(c)
    ensures 0 <= d < 16
  {
    if '0' <= c <= '9' then c as int - '0' as int
    else if 'a' <= c <= 'f' then c as int - 'a' as int + 10
    else c as int - 'A' as int + 10
  }

  predicate AllHexDigits(s: string)
  {
    forall i :: 0 <= i < |s| ==> IsHexDigit(s[i])
  }

  /** The value of a string of hex digits, most significant first. */
  function HexValue(s: string): (n: nat)
    requires AllHexDigits(s)
  {
    if |s| == 0 then 0 else 16 * HexValue(s[..|s| - 1]) + DigitValue(s[|s| - 1])
  }

  function HexChar(d: int): (c: char)
    requires 0 <= d < 16
    ensures IsUpperHexDigit(c) && IsHexDigit(c) && DigitValue(c) == d
  {
    "0123456789ABCDEF"[d]
  }

  /** The upper-case hex digits of n, without leading zeros. */
  function HexDigits(n: nat): (s: string)
    ensures |s| >= 1 && forall i :: 0 <= i < |s| ==> IsUpperHexDigit(s[i]) && IsHexDigit(s[i])
    decreases n
  {
    if n < 16 then [HexChar(n)] else HexDigits(n / 16) + [HexChar(n % 16)]
  }

  lemma {:induction false} HexRoundTrip(n: nat)
    ensures HexValue(HexDigits(n)) == n
    decreases n
  {
    var s := HexDigits(n);
    if n >= 16 {
      HexRoundTrip(n / 16);
      assert s[..|s| - 1] == HexDigits(n / 16);
    } else {
      assert s[..0] == [];
    }
  }

  // ------------------------------------------------------------ parsing

  /**
   * Java's `Integer.valueOf(s, 16)`: an optional sign, then at least one
   * hex digit, with a value that fits a Java int; None where Java throws
   * NumberFormatException.
   */
  function ParseHexInt(s: string): (r: Option<int>)
    ensures r.Some? ==> INT_MIN <= r.value <= INT_MAX
  {
    if |s| == 0 then None
    else
      var digits := if s[0] == '-' || s[0] == '+' then s[1..] else s;
      if |digits| == 0 || !AllHexDigits(digits) then None
      else
        var v: int := if s[0] == '-' then -(HexValue(digits) as int) else HexValue(digits);
        if INT_MIN <= v <= INT_MAX then Some(v) else None
  }

  /** `& 0xff` keeps the low byte: the remainder modulo 256, also for negative ints. */
  lemma LowByte(v: int)
    ensures And(v, 0xff) == v % 256
  {
    AndLowMask(v, 8);
    assert Pow2(8) == 256 by {
      assert Pow2(1) == 2;
      assert Pow2(2) == 4;
      assert Pow2(4) == 2 * 2 * Pow2(2);
      assert Pow2(8) == 2 * 2 * 2 * 2 * Pow2(4);
    }
  }

  /**
   * The field's text to its value: the low byte of the hex int, `& 0xff`
   * written as the remainder it is (LowByte), or the error carrying the
   * text where Java raises ParseException.
   */
  function StringToValue(text: string): (r: Result<int, string>)
    ensures r.Ok? <==> ParseHexInt(text).Some?
    ensures r.Ok? ==> 0 <= r.value < 256 && r.value == And(ParseHexInt(text).value, 0xff)
    ensures r.Err? ==> r.error == text
  {
    match ParseHexInt(text)
    case None => Err(text)
    case Some(v) => LowByte(v); Ok(v % 256)
  }

  // ------------------------------------------------------------ printing

  /** `%02X`: the hex digits of the int read as unsigned, padded with zeros to two. */
  function ValueToString(v: int): (text: string)
    requires INT_MIN <= v <= INT_MAX
  {
    var digits := HexDigits(if v < 0 then v + 0x1_0000_0000 else v);
    if |digits| < 2 then "0" + digits else digits
  }

  /** A byte prints as exactly two upper-case hex digits, which read back as the byte. */
  lemma ByteAsTwoDigits(v: int)
    requires 0 <= v <= 255
    ensures var s := ValueToString(v);
      |s| == 2 && IsUpperHexDigit(s[0]) && IsUpperHexDigit(s[1]) && AllHexDigits(s) && HexValue(s) == v
  {
    var s := ValueToString(v);
    HexRoundTrip(v);
    if v < 16 {
      assert s == ['0', HexChar(v)];
      assert s[..1] == "0";
    } else {
      assert HexDigits(v) == [HexChar(v / 16), HexChar(v % 16)];
    }
  }

  /** What the field prints for a byte, it reads back as the same byte. */
  lemma ByteRoundTrip(v: int)
    requires 0 <= v <= 255
    ensures StringToValue(ValueToString(v)) == Ok(v)
  {
    var s := ValueToString(v);
    ByteAsTwoDigits(v);
    UnsignedParse(s);
    assert ParseHexInt(s) == Some(v) && v % 256 == v;
  }

  /** Digits without a sign read as their value, for a value that fits a Java int. */
  lemma UnsignedParse(s: string)
    requires |s| > 0 && AllHexDigits(s) && HexValue(s) <= INT_MAX
    ensures ParseHexInt(s) == Some(HexValue(s))
  {
    assert IsHexDigit(s[0]);
  }

  /** Larger values wrap to their low byte. */
  lemma Wraps()
    ensures StringToValue("100") == Ok(0)
    ensures StringToValue("1FF") == Ok(255)
  {
    var a, b := "100", "1FF";
    assert AllHexDigits(a) && AllHexDigits(b);
    assert a[..2] == "10" && a[..2][..1] == "1" && a[..2][..1][..0] == "";
    assert HexValue(a[..2][..1]) == 1 && HexValue(a[..2]) == 16;
    assert HexValue(a) == 256;
    assert ParseHexInt(a) == Some(256);
    assert b[..2] == "1F" && b[..2][..1] == "1" && b[..2][..1][..0] == "";
    assert HexValue(b[..2][..1]) == 1 && HexValue(b[..2]) == 31;
    assert HexValue(b) == 511;
    assert ParseHexInt(b) == Some(511);
  }

  /** A negative value wraps to its low byte too. */
  lemma WrapsNegative()
    ensures StringToValue("-1") == Ok(255)
  {
    var a := "-1";
    assert a[1..] == "1" && AllHexDigits(a[1..]);
    assert "1"[..0] == "" && HexValue("1") == 1;
    assert ParseHexInt(a) == Some(-1);
  }

  /** Text that is not a signed string of hex digits is refused. */
  lemma Refused()
    ensures StringToValue("") == Err("") && StringToValue("-") == Err("-")
    ensures StringToValue("0x1F") == Err("0x1F")
  {
    assert !IsHexDigit("0x1F"[1]);
  }

  function Power16(k: nat): (p: nat)
  {
    if k == 0 then 1 else 16 * Power16(k - 1)
  }

  lemma {:induction false} AllF(k: nat)
    ensures AllHexDigits(seq(k, _ => 'F')) && HexValue(seq(k, _ => 'F')) == Power16(k) - 1
  {
    if k > 0 {
      AllF(k - 1);
      assert seq(k, _ => 'F')[..k - 1] == seq(k - 1, _ => 'F');
    }
  }

  /** Eight F's exceed a Java int, so the text is refused rather than wrapped. */
  lemma Overflow()
    ensures StringToValue("FFFFFFFF") == Err("FFFFFFFF")
  {
    AllF(8);
    assert seq(8, _ => 'F') == "FFFFFFFF";
    assert Power16(8) == 0x1_0000_0000;
  }
}
