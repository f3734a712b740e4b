/**
 * The part of Binary Canonical Serialization (BCS) that the legacy storage format uses: ULEB128
 * integers, length-prefixed byte strings, UTF-8 strings, little-endian integers and maps.
 * Every reader takes the remaining input and returns the value with the input that follows it.
 */
module Bcs {
  import opened Base

  /** BCS specification, "Fixed and Variable Length Sequences": at most 2^31 - 1 elements. */
  const MAX_SEQUENCE_LENGTH: int := 0x7FFF_FFFF

  datatype Error =
    | UnexpectedEof
    | NonCanonicalUleb128
    | Uleb128Overflow
    | ExceededMaxLen
    | InvalidUtf8
    | InvalidBool
    | UnknownVariant
    | NestingExceeded
    | NonCanonicalMap
    | RemainingInput

  type Parse<+T> = Result<(T, seq<Byte>), Error>

  predicate FitsLen(n: int) {
    0 <= n <= MAX_SEQUENCE_LENGTH
  }

  // ULEB128 -----------------------------------------------------------------------------------

  function Uleb(n: nat): seq<Byte> {
    if n < 128 then [n] else [n % 128 + 128] + Uleb(n / 128)
  }

  lemma UlebCons(digit: Byte, high: nat)
    requires digit >= 128 && high > 0
    ensures Uleb(digit - 128 + 128 * high) == [digit] + Uleb(high)
  {
    hide Uleb;
    var n := digit - 128 + 128 * high;
    assert n >= 128 && n % 128 == digit - 128 && n / 128 == high;
    UlebUnfold(n);
  }

  lemma UlebUnfold(n: nat)
    requires n >= 128
    ensures Uleb(n) == [n % 128 + 128] + Uleb(n / 128)
  {
  }

  /** What remains to be filled after `i` of the five digits of a 35-bit ULEB128 number. */
  ghost function UlebCap(i: nat): (cap: nat)
    requires i <= 5
    ensures cap >= 1
    decreases 5 - i
  {
    if i == 5 then 1 else 128 * UlebCap(i + 1)
  }

  /** Reads the digits from digit `i` on; only the first digit may be a final zero. */
  function ReadDigits(bs: seq<Byte>, i: nat): (r: Parse<nat>)
    requires i <= 5
    ensures r.Ok? ==> r.value.0 < UlebCap(i) && (i > 0 ==> r.value.0 > 0)
    ensures r.Ok? ==> bs == Uleb(r.value.0) + r.value.1
    decreases 5 - i
  {
    if i == 5 then Err(Uleb128Overflow)
    else if bs == [] then Err(UnexpectedEof)
    else if bs[0] < 128 then
      if i > 0 && bs[0] == 0 then Err(NonCanonicalUleb128) else Ok((bs[0], bs[1..]))
    else
      var (high, rest) :- ReadDigits(bs[1..], i + 1);
      UlebCons(bs[0], high);
      Assoc([bs[0]], Uleb(high), rest);
      Ok((bs[0] - 128 + 128 * high, rest))
  }

  /** A variant index or a length before its range check: the value must fit 32 bits. */
  function ReadU32(bs: seq<Byte>): Parse<nat> {
    var (n, rest) :- ReadDigits(bs, 0);
    if n < 0x1_0000_0000 then Ok((n, rest)) else Err(Uleb128Overflow)
  }

  lemma {:induction false} UlebRoundTripFrom(n: nat, i: nat, rest: seq<Byte>)
    requires i < 5 && n < UlebCap(i) && (i > 0 ==> n > 0)
    ensures ReadDigits(Uleb(n) + rest, i) == Ok((n, rest))
    decreases n
  {
    if n >= 128 {
      assert UlebCap(i) == 128 * UlebCap(i + 1);
      UlebRoundTripFrom(n / 128, i + 1, rest);
      assert (Uleb(n) + rest)[1..] == Uleb(n / 128) + rest;
    } else {
      assert (Uleb(n) + rest)[1..] == rest;
    }
  }

  lemma {:induction false} UlebRoundTrip(n: nat, rest: seq<Byte>)
    requires n < 0x1_0000_0000
    ensures ReadU32(Uleb(n) + rest) == Ok((n, rest))
  {
    assert UlebCap(0) == 128 * (128 * (128 * UlebCap(3)));
    assert UlebCap(3) == 128 * (128 * UlebCap(5));
    UlebRoundTripFrom(n, 0, rest);
  }

  // Lengths and byte strings ------------------------------------------------------------------

  function ReadLen(bs: seq<Byte>): Parse<nat> {
    var (n, rest) :- ReadU32(bs);
    if FitsLen(n) then Ok((n, rest)) else Err(ExceededMaxLen)
  }

  function ReadFixed(bs: seq<Byte>, n: nat): (r: Parse<seq<Byte>>)
    ensures r.Ok? ==> |r.value.0| == n && bs == r.value.0 + r.value.1
  {
    if |bs| < n then Err(UnexpectedEof) else Ok((bs[..n], bs[n..]))
  }

  function BytesEnc(data: seq<Byte>): seq<Byte> {
    Uleb(|data|) + data
  }

  function ReadBytes(bs: seq<Byte>): (r: Parse<seq<Byte>>)
    ensures r.Ok? ==> FitsLen(|r.value.0|) && bs == BytesEnc(r.value.0) + r.value.1
  {
    var (n, r1) :- ReadLen(bs);
    var (data, r2) :- ReadFixed(r1, n);
    Assoc(Uleb(n), data, r2);
    Ok((data, r2))
  }

  lemma FixedRoundTrip(data: seq<Byte>, rest: seq<Byte>)
    ensures ReadFixed(data + rest, |data|) == Ok((data, rest))
  {
    assert (data + rest)[..|data|] == data && (data + rest)[|data|..] == rest;
  }

  lemma BytesRoundTrip(data: seq<Byte>, rest: seq<Byte>)
    requires FitsLen(|data|)
    ensures ReadBytes(BytesEnc(data) + rest) == Ok((data, rest))
  {
    Assoc(Uleb(|data|), data, rest);
    UlebRoundTrip(|data|, data + rest);
    FixedRoundTrip(data, rest);
  }

  // UTF-8 strings -----------------------------------------------------------------------------

  predicate Continuation(b: Byte) {
    0x80 <= b < 0xC0
  }

  /** Well-formed UTF-8 (Unicode Standard, Table 3-7), which a Rust `str` always is. */
  predicate IsUtf8(s: seq<Byte>) {
    if s == [] then true
    else if s[0] < 0x80 then IsUtf8(s[1..])
    else if 0xC2 <= s[0] <= 0xDF then |s| >= 2 && Continuation(s[1]) && IsUtf8(s[2..])
    else if 0xE0 <= s[0] <= 0xEF then
      && |s| >= 3 && Continuation(s[1]) && Continuation(s[2])
      && (s[0] == 0xE0 ==> s[1] >= 0xA0) && (s[0] == 0xED ==> s[1] < 0xA0)
      && IsUtf8(s[3..])
    else if 0xF0 <= s[0] <= 0xF4 then
      && |s| >= 4 && Continuation(s[1]) && Continuation(s[2]) && Continuation(s[3])
      && (s[0] == 0xF0 ==> s[1] >= 0x90) && (s[0] == 0xF4 ==> s[1] < 0x90)
      && IsUtf8(s[4..])
    else false
  }

  type Utf8 = s: seq<Byte> | IsUtf8(s)

  lemma {:induction false} AsciiIsUtf8(s: seq<Byte>)
    requires forall i :: 0 <= i < |s| ==> s[i] < 0x80
    ensures IsUtf8(s)
  {
    if s != [] { AsciiIsUtf8(s[1..]); }
  }

  function ReadString(bs: seq<Byte>): (r: Parse<Utf8>)
    ensures r.Ok? ==> FitsLen(|r.value.0|) && bs == BytesEnc(r.value.0) + r.value.1
  {
    var (s, rest) :- ReadBytes(bs);
    if IsUtf8(s) then Ok((s, rest)) else Err(InvalidUtf8)
  }

  lemma StringRoundTrip(s: Utf8, rest: seq<Byte>)
    requires FitsLen(|s|)
    ensures ReadString(BytesEnc(s) + rest) == Ok((s, rest))
  {
    BytesRoundTrip(s, rest);
  }

  /** `bcs::from_bytes`: the value must take up the whole input. */
  function Whole<T>(r: Parse<T>): Result<T, Error> {
    var (v, rest) :- r;
    if rest == [] then Ok(v) else Err(RemainingInput)
  }

  // What the format is, in numbers ----------------------------------------------------------------

  /** The number seven-bit digits denote, the least significant one first. */
  function DigitsValue(bs: seq<Byte>): nat {
    if bs == [] then 0 else bs[0] % 128 + 128 * DigitsValue(bs[1..])
  }

  /** The digits denote the number, all but the last are marked, and the last is zero only if it is the only one. */
  lemma {:induction false} UlebMeaning(n: nat)
    ensures var ds := Uleb(n);
            && DigitsValue(ds) == n && ds != []
            && (forall i :: 0 <= i < |ds| - 1 ==> ds[i] >= 128) && ds[|ds| - 1] < 128
            && (|ds| > 1 ==> ds[|ds| - 1] != 0)
  {
    if n >= 128 {
      UlebMeaning(n / 128);
      assert Uleb(n)[1..] == Uleb(n / 128);
    }
  }

  /** The example of the BCS specification, "ULEB128-Encoded Integers". */
  lemma UlebExample()
    ensures Uleb(9487) == [0x8f, 0x4a]
  {
  }

  lemma {:induction false} ReadU32Exactly(bs: seq<Byte>, n: nat, rest: seq<Byte>)
    ensures ReadU32(bs) == Ok((n, rest)) <==> n <= 4294967295 && bs == Uleb(n) + rest
  {
    if n <= 4294967295 && bs == Uleb(n) + rest {
      UlebRoundTrip(n, rest);
    }
  }

  /** A length is any number below 2^31 in canonical digits. */
  lemma {:induction false} ReadLenExactly(bs: seq<Byte>, n: nat, rest: seq<Byte>)
    ensures ReadLen(bs) == Ok((n, rest)) <==> n <= 2147483647 && bs == Uleb(n) + rest
  {
    ReadU32Exactly(bs, n, rest);
    if ReadLen(bs) == Ok((n, rest)) {
      assert ReadU32(bs) == Ok((n, rest)) && FitsLen(n);
    }
    if n <= 2147483647 && bs == Uleb(n) + rest {
      UlebRoundTrip(n, rest);
    }
  }

  lemma ReadErrors()
    ensures ReadU32([]) == Err(UnexpectedEof) && ReadU32([0x80]) == Err(UnexpectedEof)
    ensures ReadU32([0x80, 0x00]) == Err(NonCanonicalUleb128)
    ensures ReadU32([0x80, 0x80, 0x80, 0x80, 0x80]) == Err(Uleb128Overflow)
  {
    assert ReadDigits([0x80, 0x80, 0x80, 0x80], 1) == Err(Uleb128Overflow) by {
      assert ReadDigits([0x80], 4) == Err(Uleb128Overflow);
      assert ReadDigits([0x80, 0x80], 3) == Err(Uleb128Overflow);
      assert ReadDigits([0x80, 0x80, 0x80], 2) == Err(Uleb128Overflow);
    }
  }
}
