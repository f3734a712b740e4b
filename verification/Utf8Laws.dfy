/** Well-formed UTF-8 is what encoding Unicode scalar values gives. */
module Utf8Laws {
  import opened Base
  import opened Bcs

  predicate IsScalar(c: int) {
    0 <= c < 0xD800 || 0xE000 <= c < 0x110000
  }

  type Scalar = c: int | IsScalar(c)

  /** The Unicode Standard, Table 3-6: the bits of a scalar value spread over one to four bytes. */
  function EncodeScalar(c: Scalar): seq<Byte> {
    assert IsScalar(c);
    if c < 0x80 then [c]
    else if c < 0x800 then [0xC0 + c / 64, 0x80 + c % 64]
    else if c < 0x10000 then [0xE0 + c / 4096, 0x80 + c / 64 % 64, 0x80 + c % 64]
    else [0xF0 + c / 262144, 0x80 + c / 4096 % 64, 0x80 + c / 64 % 64, 0x80 + c % 64]
  }

  function EncodeText(cs: seq<Scalar>): seq<Byte> {
    if cs == [] then [] else EncodeScalar(cs[0]) + EncodeText(cs[1..])
  }

  /** One encoded scalar value in front of well-formed text. */
  lemma {:induction false} ScalarInFront(c: Scalar, s: seq<Byte>)
    requires IsUtf8(s)
    ensures IsUtf8(EncodeScalar(c) + s)
  {
    var e := EncodeScalar(c);
    var t := e + s;
    assert t[|e|..] == s;
    assert forall i :: 0 <= i < |e| ==> t[i] == e[i];
    if c >= 0x10000 {
      LargeScalar(c);
    } else if c >= 0x800 {
      MiddleScalar(c);
    } else if c >= 0x80 {
      assert 2 <= c / 64 < 32;
    }
  }

  lemma MiddleScalar(c: Scalar)
    requires 0x800 <= c < 0x10000
    ensures 0 <= c / 4096 <= 15 && (c / 4096 == 0 ==> c / 64 % 64 >= 0x20) && (c / 4096 == 13 ==> c / 64 % 64 < 0x20)
  {
    assert IsScalar(c);
    assert c / 64 == 64 * (c / 4096) + c / 64 % 64;
    if c / 4096 == 13 {
      assert c < 0xD800 && c / 64 < 864;
    }
  }

  lemma LargeScalar(c: Scalar)
    requires c >= 0x10000
    ensures 0 <= c / 262144 <= 4
    ensures (c / 262144 == 0 ==> c / 4096 % 64 >= 0x10) && (c / 262144 == 4 ==> c / 4096 % 64 < 0x10)
  {
    assert IsScalar(c);
    assert c / 4096 == 64 * (c / 262144) + c / 4096 % 64;
    assert c / 4096 < 272;
  }

  lemma {:induction false} EncodedIsUtf8(cs: seq<Scalar>)
    ensures IsUtf8(EncodeText(cs))
  {
    if cs != [] {
      EncodedIsUtf8(cs[1..]);
      ScalarInFront(cs[0], EncodeText(cs[1..]));
    }
  }

  /** The scalar value in front of well-formed text. */
  lemma {:induction false} FirstScalar(s: seq<Byte>) returns (c: Scalar, n: nat)
    requires s != [] && IsUtf8(s)
    ensures 0 < n <= |s| && EncodeScalar(c) == s[..n] && IsUtf8(s[n..])
  {
    var first: int := s[0];
    if s[0] < 0x80 {
      c, n := s[0], 1;
    } else if s[0] <= 0xDF {
      var second: int := s[1];
      c, n := 64 * (first - 0xC0) + (second - 0x80), 2;
    } else if s[0] <= 0xEF {
      var second: int, third: int := s[1], s[2];
      ThreeDigits(first - 0xE0, second - 0x80, third - 0x80);
      c, n := 4096 * (first - 0xE0) + 64 * (second - 0x80) + (third - 0x80), 3;
    } else {
      var second: int, third: int, fourth: int := s[1], s[2], s[3];
      FourDigits(first - 0xF0, second - 0x80, third - 0x80, fourth - 0x80);
      c, n := 262144 * (first - 0xF0) + 4096 * (second - 0x80) + 64 * (third - 0x80) + (fourth - 0x80), 4;
    }
  }

  lemma ThreeDigits(x: int, y: int, z: int)
    requires 0 <= y < 64 && 0 <= z < 64
    ensures var c := 4096 * x + 64 * y + z; c / 4096 == x && c / 64 % 64 == y && c % 64 == z
  {
    var c := 4096 * x + 64 * y + z;
    assert c / 64 == 64 * x + y;
    assert c == 4096 * x + (64 * y + z) && 0 <= 64 * y + z < 4096;
  }

  lemma FourDigits(w: int, x: int, y: int, z: int)
    requires 0 <= x < 64 && 0 <= y < 64 && 0 <= z < 64
    ensures var c := 262144 * w + 4096 * x + 64 * y + z;
            c / 262144 == w && c / 4096 % 64 == x && c / 64 % 64 == y && c % 64 == z
  {
    var c := 262144 * w + 4096 * x + 64 * y + z;
    assert c == 4096 * (64 * w + x) + 64 * y + z;
    ThreeDigits(64 * w + x, y, z);
    assert 0 <= 4096 * x + 64 * y + z < 262144;
  }

  /** A byte string is well-formed exactly when it encodes some text. */
  lemma {:induction false} Utf8Exactly(s: seq<Byte>)
    ensures IsUtf8(s) <==> exists cs: seq<Scalar> :: EncodeText(cs) == s
  {
    if IsUtf8(s) {
      var cs := TextOf(s);
    }
    if cs: seq<Scalar> :| EncodeText(cs) == s {
      EncodedIsUtf8(cs);
    }
  }

  lemma {:induction false} TextOf(s: seq<Byte>) returns (cs: seq<Scalar>)
    requires IsUtf8(s)
    ensures EncodeText(cs) == s
    decreases |s|
  {
    if s == [] {
      cs := [];
    } else {
      var c, n := FirstScalar(s);
      var more := TextOf(s[n..]);
      cs := [c] + more;
      assert cs[1..] == more && s == s[..n] + s[n..];
    }
  }
}
