/** Hexadecimal and little-endian forms of byte strings, and the numbers they denote. */
module Hex {
  import opened Base

  const DIGITS: string := "0123456789abcdef"

  function Digit(n: int): char
    requires 0 <= n < 16
  {
    DIGITS[n]
  }

  /** The value of a digit; both cases of the letters are accepted. */
  function DigitValue(c: char): (v: Option<int>)
    ensures v.Some? ==> 0 <= v.value < 16
  {
    if '0' <= c <= '9' then Some(c as int - '0' as int)
    else if 'a' <= c <= 'f' then Some(c as int - 'a' as int + 10)
    else if 'A' <= c <= 'F' then Some(c as int - 'A' as int + 10)
    else None
  }

  predicate IsHex(s: string) {
    forall i :: 0 <= i < |s| ==> DigitValue(s[i]).Some?
  }

  function Lower(s: string): string
    requires IsHex(s)
  {
    seq(|s|, i requires 0 <= i < |s| => Digit(DigitValue(s[i]).value))
  }

  function Encode(bs: seq<Byte>): (s: string)
    ensures |s| == 2 * |bs|
  {
    if bs == [] then "" else [Digit(bs[0] / 16), Digit(bs[0] % 16)] + Encode(bs[1..])
  }

  /** Fails on an odd length and on anything but hexadecimal digits. */
  function Decode(s: string): Option<seq<Byte>> {
    if s == "" then Some([])
    else if |s| == 1 then None
    else
      var high :- DigitValue(s[0]);
      var low :- DigitValue(s[1]);
      var tail :- Decode(s[2..]);
      Some([16 * high + low] + tail)
  }

  /** Decoding into an array of `n` bytes. */
  function DecodeFixed(s: string, n: nat): (r: Option<seq<Byte>>)
    ensures r.Some? ==> |r.value| == n
  {
    if |s| % 2 != 0 || |s| / 2 != n then None
    else
      DecodeInverse(s);
      Decode(s)
  }

  lemma HexCons(c: char, s: string)
    ensures IsHex([c] + s) <==> DigitValue(c).Some? && IsHex(s)
    ensures IsHex([c] + s) ==> Lower([c] + s) == [Digit(DigitValue(c).value)] + Lower(s)
  {
    hide DigitValue, Digit;
    var t := [c] + s;
    assert t[0] == c && forall i :: 0 <= i < |s| ==> t[i + 1] == s[i];
    if IsHex(s) && DigitValue(c).Some? {
      assert forall i :: 1 <= i < |t| ==> t[i] == s[i - 1];
    }
  }

  /** Decoding succeeds exactly on pairs of digits, and encoding the result gives the digits back. */
  lemma {:induction false} DecodeInverse(s: string)
    ensures Decode(s).Some? <==> |s| % 2 == 0 && IsHex(s)
    ensures Decode(s).Some? ==> |Decode(s).value| == |s| / 2 && Encode(Decode(s).value) == Lower(s)
  {
    hide DigitValue, Digit;
    if |s| >= 2 {
      DecodeInverse(s[2..]);
      assert s == [s[0]] + ([s[1]] + s[2..]);
      HexCons(s[1], s[2..]);
      HexCons(s[0], [s[1]] + s[2..]);
      if Decode(s).Some? {
        var (high, low, tail) := (DigitValue(s[0]).value, DigitValue(s[1]).value, Decode(s[2..]).value);
        assert ([16 * high + low] + tail)[1..] == tail;
        assert (16 * high + low) / 16 == high && (16 * high + low) % 16 == low;
      }
    }
  }

  lemma DigitRoundTrip(n: int)
    requires 0 <= n < 16
    ensures DigitValue(Digit(n)) == Some(n)
  {
  }

  lemma {:induction false} EncodeRoundTrip(bs: seq<Byte>)
    ensures Decode(Encode(bs)) == Some(bs)
    ensures IsHex(Encode(bs)) && Lower(Encode(bs)) == Encode(bs)
  {
    hide DigitValue, Digit;
    if bs != [] {
      var (b, tail) := (bs[0], Encode(bs[1..]));
      EncodeRoundTrip(bs[1..]);
      DigitRoundTrip(b / 16);
      DigitRoundTrip(b % 16);
      var s := Encode(bs);
      assert s[0] == Digit(b / 16) && s[1] == Digit(b % 16) && s[2..] == tail;
      assert s == [s[0]] + ([s[1]] + tail);
      HexCons(s[1], tail);
      HexCons(s[0], [s[1]] + tail);
      assert [16 * (b / 16) + b % 16] + bs[1..] == bs;
    }
  }

  // Denoted numbers -------------------------------------------------------------------------------

  function HexNumber(s: string): nat
    requires IsHex(s)
  {
    HexNumberFrom(0, s)
  }

  function HexNumberFrom(acc: nat, s: string): nat
    requires IsHex(s)
    decreases |s|
  {
    if s == "" then acc
    else
      assert forall i :: 0 <= i < |s| - 1 ==> s[1..][i] == s[i + 1];
      HexNumberFrom(16 * acc + DigitValue(s[0]).value, s[1..])
  }

  /** The big-endian number of a byte string. */
  function BigEndian(bs: seq<Byte>): nat {
    BigEndianFrom(0, bs)
  }

  function BigEndianFrom(acc: nat, bs: seq<Byte>): nat
    decreases |bs|
  {
    if bs == [] then acc else BigEndianFrom(256 * acc + bs[0], bs[1..])
  }

  lemma TwoDigits(acc: nat, s: string)
    requires |s| >= 2 && IsHex(s)
    ensures IsHex(s[2..])
    ensures HexNumberFrom(acc, s)
         == HexNumberFrom(256 * acc + (16 * DigitValue(s[0]).value + DigitValue(s[1]).value), s[2..])
  {
    hide DigitValue;
    var (high, low) := (DigitValue(s[0]).value, DigitValue(s[1]).value);
    assert s[1..][0] == s[1] && s[1..][1..] == s[2..];
    assert forall i :: 0 <= i < |s| - 2 ==> s[2..][i] == s[i + 2];
    assert 16 * (16 * acc + high) + low == 256 * acc + (16 * high + low);
  }

  lemma {:induction false} DecodeKeepsNumberFrom(acc: nat, s: string)
    requires Decode(s).Some? && IsHex(s)
    ensures BigEndianFrom(acc, Decode(s).value) == HexNumberFrom(acc, s)
    decreases |s|
  {
    if s != "" {
      hide DigitValue, IsHex, HexNumberFrom;
      var b := 16 * DigitValue(s[0]).value + DigitValue(s[1]).value;
      var tail := Decode(s[2..]).value;
      TwoDigits(acc, s);
      DecodeKeepsNumberFrom(256 * acc + b, s[2..]);
      assert Decode(s).value == [b] + tail && ([b] + tail)[1..] == tail;
    }
  }

  lemma DecodeKeepsNumber(s: string)
    requires Decode(s).Some?
    ensures IsHex(s) && BigEndian(Decode(s).value) == HexNumber(s)
  {
    DecodeInverse(s);
    DecodeKeepsNumberFrom(0, s);
  }

  lemma {:induction false} BigEndianInjective(accA: nat, a: seq<Byte>, accB: nat, b: seq<Byte>)
    requires |a| == |b| && BigEndianFrom(accA, a) == BigEndianFrom(accB, b)
    ensures accA == accB && a == b
    decreases |a|
  {
    if a != [] {
      BigEndianInjective(256 * accA + a[0], a[1..], 256 * accB + b[0], b[1..]);
      assert a == [a[0]] + a[1..] && b == [b[0]] + b[1..];
    }
  }

  function Zeros(n: nat): string {
    seq(n, _ => '0')
  }

  lemma {:induction false} LeadingZeros(n: nat, s: string)
    requires IsHex(s)
    ensures IsHex(Zeros(n) + s) && HexNumber(Zeros(n) + s) == HexNumber(s)
  {
    if n == 0 {
      assert Zeros(0) + s == s;
    } else {
      LeadingZeros(n - 1, s);
      var t := Zeros(n) + s;
      assert t == ['0'] + (Zeros(n - 1) + s);
      HexCons('0', Zeros(n - 1) + s);
      assert t[1..] == Zeros(n - 1) + s;
    }
  }

  // Little-endian integers ---------------------------------------------------------------------------

  function LittleEndian(n: nat, width: nat): (bs: seq<Byte>)
    ensures |bs| == width
  {
    if width == 0 then [] else [n % 256] + LittleEndian(n / 256, width - 1)
  }

  lemma {:induction false} LittleEndianZero(width: nat)
    ensures forall i :: 0 <= i < width ==> LittleEndian(0, width)[i] == 0
  {
    if width > 0 {
      LittleEndianZero(width - 1);
      assert LittleEndian(0, width) == [0] + LittleEndian(0, width - 1);
    }
  }

  function FromLittleEndian(bs: seq<Byte>): nat {
    if bs == [] then 0 else bs[0] + 256 * FromLittleEndian(bs[1..])
  }

  ghost function Capacity(width: nat): nat {
    if width == 0 then 1 else 256 * Capacity(width - 1)
  }

  lemma {:induction false} LittleEndianRoundTrip(n: nat, width: nat)
    requires n < Capacity(width)
    ensures FromLittleEndian(LittleEndian(n, width)) == n
  {
    if width > 0 {
      LittleEndianRoundTrip(n / 256, width - 1);
      assert LittleEndian(n, width)[1..] == LittleEndian(n / 256, width - 1);
    }
  }

  lemma {:induction false} FromLittleEndianRoundTrip(bs: seq<Byte>)
    ensures FromLittleEndian(bs) < Capacity(|bs|)
    ensures LittleEndian(FromLittleEndian(bs), |bs|) == bs
  {
    if bs != [] {
      FromLittleEndianRoundTrip(bs[1..]);
      var high := FromLittleEndian(bs[1..]);
      assert (bs[0] + 256 * high) / 256 == high && (bs[0] + 256 * high) % 256 == bs[0];
      assert bs == [bs[0]] + bs[1..];
    }
  }

  lemma U64Capacity()
    ensures Capacity(8) == U64_MAX + 1
  {
    assert Capacity(4) == 0x1_0000_0000;
    assert Capacity(8) == 256 * (256 * (256 * (256 * Capacity(4))));
  }

  // The digits themselves ----------------------------------------------------------------------------

  /** Sixteen digits, the letters in lower case when printed and in either case when read. */
  lemma DigitChars(n: int)
    requires 0 <= n < 16
    ensures n < 10 ==> Digit(n) == ('0' as int + n) as char
    ensures n >= 10 ==> Digit(n) == ('a' as int + (n - 10)) as char && DigitValue(('A' as int + (n - 10)) as char) == Some(n)
  {
  }

  lemma NumberExamples()
    ensures HexNumber("10a") == 266 && BigEndian([1, 10]) == 266
    ensures Encode([1, 10]) == "010a" && LittleEndian(266, 3) == [10, 1, 0]
  {
    assert "10a"[1..] == "0a" && "0a"[1..] == "a" && "a"[1..] == "";
    assert HexNumberFrom(266, "") == 266 && HexNumberFrom(16, "a") == 266 && HexNumberFrom(1, "0a") == 266;
    assert [1, 10][1..] == [10] && [10][1..] == [];
    assert BigEndianFrom(266, []) == 266 && BigEndianFrom(1, [10]) == 266;
    assert Encode([10]) == "0a" + Encode([]);
    assert LittleEndian(0, 1) == [0] && LittleEndian(1, 2) == [1] + [0];
  }
}
