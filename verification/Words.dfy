/** Reading words and fixed strings off the front of a text. */
module Words {
  import opened Base

  predicate WordChar(c: char) {
    'a' <= c <= 'z' || 'A' <= c <= 'Z' || '0' <= c <= '9' || c == '_'
  }

  predicate IsWord(s: string) {
    s != "" && forall i :: 0 <= i < |s| ==> WordChar(s[i])
  }

  function WordLen(s: string): (n: nat)
    ensures n <= |s|
  {
    if s != "" && WordChar(s[0]) then 1 + WordLen(s[1..]) else 0
  }

  lemma {:induction false} WordLenIsWord(s: string)
    ensures forall i :: 0 <= i < WordLen(s) ==> WordChar(s[i])
  {
    if s != "" && WordChar(s[0]) {
      WordLenIsWord(s[1..]);
      assert forall i :: 1 <= i < WordLen(s) ==> s[i] == s[1..][i - 1];
    }
  }

  function Expect(s: string, lit: string): (r: Option<string>)
    ensures r.Some? ==> s == lit + r.value && |r.value| + |lit| == |s|
  {
    if lit <= s then Some(s[|lit|..]) else None
  }

  lemma {:induction false} WordLenExact(word: string, rest: string)
    requires forall i :: 0 <= i < |word| ==> WordChar(word[i])
    requires rest == "" || !WordChar(rest[0])
    ensures WordLen(word + rest) == |word|
    ensures (word + rest)[..|word|] == word && (word + rest)[|word|..] == rest
  {
    if word == "" {
      assert word + rest == rest;
    } else {
      WordLenExact(word[1..], rest);
      assert (word + rest)[1..] == word[1..] + rest;
    }
  }

  lemma ExpectRoundTrip(lit: string, rest: string)
    ensures Expect(lit + rest, lit) == Some(rest)
  {
    assert (lit + rest)[|lit|..] == rest;
  }

  // Decimal numbers --------------------------------------------------------------------------------

  predicate IsDigit(c: char) {
    '0' <= c <= '9'
  }

  function Dec(n: nat): (s: string)
    ensures s != "" && forall i :: 0 <= i < |s| ==> IsDigit(s[i])
  {
    var d := (n % 10 + '0' as int) as char;
    if n < 10 then [d] else Dec(n / 10) + [d]
  }

  function DecValue(acc: nat, s: string): nat
    requires forall i :: 0 <= i < |s| ==> IsDigit(s[i])
    decreases |s|
  {
    if s == "" then acc
    else
      assert IsDigit(s[0]);
      DecValue(10 * acc + (s[0] as int - '0' as int), s[1..])
  }

  lemma {:induction false} DecValueAppend(acc: nat, s: string, c: char)
    requires (forall i :: 0 <= i < |s| ==> IsDigit(s[i])) && IsDigit(c)
    ensures DecValue(acc, s + [c]) == 10 * DecValue(acc, s) + (c as int - '0' as int)
    decreases |s|
  {
    if s == "" {
      assert s + [c] == [c];
    } else {
      assert (s + [c])[1..] == s[1..] + [c];
      DecValueAppend(10 * acc + (s[0] as int - '0' as int), s[1..], c);
    }
  }

  /** The printed number denotes the number. */
  lemma {:induction false} DecRoundTrip(n: nat)
    ensures DecValue(0, Dec(n)) == n
  {
    var d := (n % 10 + '0' as int) as char;
    if n < 10 {
      assert [d][1..] == "";
    } else {
      DecRoundTrip(n / 10);
      DecValueAppend(0, Dec(n / 10), d);
    }
  }

  function DigitLen(s: string): (n: nat)
    ensures n <= |s| && forall i :: 0 <= i < n ==> IsDigit(s[i])
  {
    if s != "" && IsDigit(s[0]) then
      assert forall i :: 0 <= i < DigitLen(s[1..]) ==> s[i + 1] == s[1..][i];
      1 + DigitLen(s[1..])
    else 0
  }

  lemma {:induction false} DigitLenExact(digits: string, rest: string)
    requires forall i :: 0 <= i < |digits| ==> IsDigit(digits[i])
    requires rest == "" || !IsDigit(rest[0])
    ensures DigitLen(digits + rest) == |digits|
    ensures (digits + rest)[..|digits|] == digits && (digits + rest)[|digits|..] == rest
  {
    if digits == "" {
      assert digits + rest == rest;
    } else {
      DigitLenExact(digits[1..], rest);
      assert (digits + rest)[1..] == digits[1..] + rest;
    }
  }

  lemma DecExample()
    ensures Dec(907) == "907" && Dec(0) == "0"
  {
    assert Dec(90) == Dec(9) + "0" && Dec(9) == "9";
    assert Dec(907) == Dec(90) + "7";
  }

  /** Letters, digits and the underscore, up to the characters next to them. */
  lemma WordCharBounds()
    ensures WordChar('a') && WordChar('z') && !WordChar('`') && !WordChar('{')
    ensures WordChar('A') && WordChar('Z') && !WordChar('@') && !WordChar('[')
    ensures WordChar('0') && WordChar('9') && !WordChar('/') && !WordChar(':')
    ensures WordChar('_') && !WordChar('^') && !WordChar('-')
  {
  }
}
