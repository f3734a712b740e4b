/** The text forms of 16-byte account addresses. */
module LegacyAddress {
  import opened Base
  import opened Hex
  import opened LanguageStorage

  function TrimZeros(s: string): string {
    if s != "" && s[0] == '0' then TrimZeros(s[1..]) else s
  }

  function ShortStr(a: Address): string {
    var trimmed := TrimZeros(Encode(a));
    if trimmed == "" then "0" else trimmed
  }

  function ToHexLiteral(a: Address): string {
    "0x" + ShortStr(a)
  }

  function FromHex(s: string): (r: Option<Address>) {
    DecodeFixed(s, ADDRESS_LENGTH)
  }

  predicate IsLiteral(s: string) {
    |s| >= 2 && s[0] == '0' && s[1] == 'x'
  }

  function Padded(digits: string): string {
    if |digits| < 2 * ADDRESS_LENGTH then Zeros(2 * ADDRESS_LENGTH - |digits|) + digits else digits
  }

  function FromLiteral(s: string): Option<Address> {
    if IsLiteral(s) then FromHex(Padded(s[2..])) else None
  }

  /** `from_hex_literal`: pads a short literal one digit at a time. */
  method FromHexLiteral(literal: string) returns (r: Option<Address>)
    ensures r == FromLiteral(literal)
  {
    if !IsLiteral(literal) {
      return None;
    }
    var hexLen := |literal| - 2;
    if hexLen < 2 * ADDRESS_LENGTH {
      var hexStr := "";
      for i := 0 to 2 * ADDRESS_LENGTH - hexLen
        invariant hexStr == Zeros(i)
      {
        hexStr := hexStr + ['0'];
      }
      hexStr := hexStr + literal[2..];
      r := FromHex(hexStr);
    } else {
      r := FromHex(literal[2..]);
    }
  }

  lemma PaddedDigits(digits: string)
    ensures IsHex(Padded(digits)) <==> IsHex(digits)
    ensures IsHex(digits) ==> HexNumber(Padded(digits)) == HexNumber(digits)
  {
    hide DigitValue, HexNumber;
    var zeros := 32 - |digits|;
    if zeros > 0 {
      assert forall i :: 0 <= i < |digits| ==> Padded(digits)[zeros + i] == digits[i];
      if IsHex(digits) {
        LeadingZeros(zeros, digits);
      }
    }
  }

  /**
   * A literal is accepted exactly when it is `0x` and at most 32 hexadecimal digits of either case
   * (none at all is the zero address), and the address is then the number the digits denote.
   */
  lemma LiteralMeaning(s: string)
    ensures FromLiteral(s).Some? <==> IsLiteral(s) && |s| <= 34 && IsHex(s[2..])
    ensures FromLiteral(s).Some? ==> BigEndian(FromLiteral(s).value) == HexNumber(s[2..])
  {
    hide Decode, Encode, Lower, IsHex, HexNumber, BigEndian;
    if IsLiteral(s) {
      PaddedDigits(s[2..]);
      DecodeInverse(Padded(s[2..]));
      if FromLiteral(s).Some? {
        DecodeKeepsNumber(Padded(s[2..]));
      }
    }
  }

  lemma {:induction false} TrimZerosSplit(s: string)
    ensures |TrimZeros(s)| <= |s| && s == Zeros(|s| - |TrimZeros(s)|) + TrimZeros(s)
    ensures TrimZeros(s) == "" || TrimZeros(s)[0] != '0'
  {
    if s != "" && s[0] == '0' {
      TrimZerosSplit(s[1..]);
      assert s == ['0'] + s[1..];
      var n := |s| - |TrimZeros(s)|;
      assert Zeros(n) == ['0'] + Zeros(n - 1);
    } else {
      assert Zeros(0) + s == s;
    }
  }

  lemma ShortStrPadded(a: Address)
    ensures Padded(ShortStr(a)) == Encode(a)
  {
    TrimZerosSplit(Encode(a));
    if TrimZeros(Encode(a)) == "" {
      assert Padded("0") == Zeros(32);
    } else if |ShortStr(a)| == 32 {
      assert Zeros(0) + ShortStr(a) == ShortStr(a);
    }
  }

  /** Printing as a literal and parsing back is the identity. */
  lemma LiteralRoundTrip(a: Address)
    ensures FromLiteral(ToHexLiteral(a)) == Some(a)
  {
    assert ToHexLiteral(a)[2..] == ShortStr(a);
    ShortStrPadded(a);
    EncodeRoundTrip(a);
  }

  /** Lower-case digits without a superfluous leading zero. */
  predicate IsShort(digits: string) {
    IsHex(digits) && Lower(digits) == digits && digits != "" && (digits == "0" || digits[0] != '0')
  }

  /** The short form is the only shortest lower-case form: it is printed exactly for these literals. */
  lemma ShortFormUnique(s: string)
    requires FromLiteral(s).Some?
    ensures ToHexLiteral(FromLiteral(s).value) == s <==> IsShort(s[2..])
  {
    LiteralMeaning(s);
    var a := FromLiteral(s).value;
    var digits := s[2..];
    assert s == "0x" + digits && ToHexLiteral(a)[2..] == ShortStr(a);
    ShortStrIsShort(a);
    if IsShort(digits) {
      DecodeInverse(Padded(digits));
      assert Lower(Padded(digits)) == Padded(Lower(digits));
      assert Encode(a) == Padded(digits);
      ShortStrPadded(a);
      if |digits| <= |ShortStr(a)| {
        SamePadding(digits, ShortStr(a));
      } else {
        SamePadding(ShortStr(a), digits);
      }
    }
  }

  lemma SuffixIsLower(s: string, n: nat)
    requires n <= |s| && IsHex(s) && Lower(s) == s
    ensures IsHex(s[n..]) && Lower(s[n..]) == s[n..]
  {
    hide DigitValue, Digit;
    assert forall i :: 0 <= i < |s| - n ==> s[n..][i] == s[n + i] && Lower(s)[n + i] == s[n + i];
  }

  lemma ShortStrIsShort(a: Address)
    ensures IsShort(ShortStr(a)) && |ShortStr(a)| <= 32
    ensures HexNumber(ShortStr(a)) == BigEndian(a)
  {
    hide DigitValue, Digit;
    var (s, t) := (Encode(a), ShortStr(a));
    TrimZerosSplit(s);
    EncodeRoundTrip(a);
    assert IsShort(t) by {
      if TrimZeros(s) != "" {
        SuffixIsLower(s, |s| - |t|);
        assert s[|s| - |t|..] == t;
      } else {
        DigitRoundTrip(0);
        assert Digit(0) == '0' by { ZeroDigit(); }
        assert Lower("0") == [Digit(0)];
      }
    }
    ShortStrPadded(a);
    DecodeKeepsNumber(s);
    LeadingZeros(32 - |t|, t);
    assert Zeros(0) + t == t;
  }

  lemma ZeroDigit()
    ensures Digit(0) == '0'
  {
  }

  lemma SamePadding(a: string, b: string)
    requires IsShort(a) && IsShort(b) && |a| <= |b| <= 32 && Padded(a) == Padded(b)
    ensures a == b
  {
    var (p, n) := (Padded(a), 32 - |b|);
    assert p[n..] == b;
    if |a| == |b| {
      assert p[n..] == a;
    }
  }

  lemma TrimPair(s: string)
    ensures TrimZeros(['0', '0'] + s) == TrimZeros(s)
  {
    var t := ['0', '0'] + s;
    assert t[1..] == ['0'] + s && t[1..][1..] == s;
  }

  lemma {:induction false} TrimmedLast(bs: seq<Byte>)
    requires bs != [] && (forall i :: 0 <= i < |bs| - 1 ==> bs[i] == 0) && bs[|bs| - 1] < 16
    ensures TrimZeros(Encode(bs)) == TrimZeros([Digit(bs[|bs| - 1])])
  {
    var rest := bs[1..];
    var last := Digit(bs[|bs| - 1]);
    assert Digit(0) == '0';
    if rest == [] {
      assert Encode(bs) == ['0', last] + "" == ['0', last];
      assert ['0', last][1..] == [last];
    } else {
      TrimmedLast(rest);
      TrimPair(Encode(rest));
    }
  }

  /** The literals of the zero address and of the core code address. */
  lemma LiteralExamples(zero: Address, one: Address)
    requires zero == [0, 0, 0, 0, 0, 0, 0, 0, 0, 0, 0, 0, 0, 0, 0, 0]
    requires one == [0, 0, 0, 0, 0, 0, 0, 0, 0, 0, 0, 0, 0, 0, 0, 1]
    ensures ToHexLiteral(zero) == "0x0" && ToHexLiteral(one) == "0x1"
  {
    hide Encode;
    TrimmedLast(zero);
    TrimmedLast(one);
    assert [Digit(0)] == "0" && [Digit(1)] == "1";
    assert "0x" + "0" == "0x0" && "0x" + "1" == "0x1";
  }
}
