/**
 * The printed form of type tags. Text is the UTF-8 byte stream that is written, one `char` a byte.
 */
module TagDisplay {
  import opened Base
  import opened Bcs
  import opened Hex
  import opened LanguageStorage
  import opened LegacyAddress
  import opened Words

  function Text(bytes: seq<Byte>): string {
    seq(|bytes|, i requires 0 <= i < |bytes| => bytes[i] as char)
  }

  function TagText(t: TypeTag): string
    decreases t, 0
  {
    match t
    case Struct(s) => StructText(s)
    case Vector(e) => "vector<" + (TagText(e) + ">")
    case U8 => "u8"
    case U64 => "u64"
    case U128 => "u128"
    case Address => "address"
    case Signer => "signer"
    case Bool => "bool"
  }

  function StructText(s: StructTag): string
    decreases s, 0
  {
    "0x" + (ShortStr(s.address) + ("::" + (Text(s.moduleName) + ("::" + (Text(s.name) + ParamsText(s.typeParams))))))
  }

  function ParamsText(ts: seq<TypeTag>): string
    decreases ts, 1
  {
    if ts == [] then "" else "<" + (TagText(ts[0]) + (MoreText(ts[1..]) + ">"))
  }

  function MoreText(ts: seq<TypeTag>): string
    decreases ts, 0
  {
    if ts == [] then "" else ", " + (TagText(ts[0]) + MoreText(ts[1..]))
  }

  // Printing ---------------------------------------------------------------------------------------

  class Formatter {
    var text: string

    constructor ()
      ensures text == ""
    {
      text := "";
    }
  }

  method FmtTag(f: Formatter, t: TypeTag)
    modifies f
    ensures f.text == old(f.text) + TagText(t)
    decreases t, 1
  {
    match t
    case Struct(s) => FmtStruct(f, s);
    case Vector(e) =>
      f.text := f.text + "vector<";
      FmtTag(f, e);
      f.text := f.text + ">";
    case U8 => f.text := f.text + "u8";
    case U64 => f.text := f.text + "u64";
    case U128 => f.text := f.text + "u128";
    case Address => f.text := f.text + "address";
    case Signer => f.text := f.text + "signer";
    case Bool => f.text := f.text + "bool";
  }

  lemma AppendStruct(before: string, head: string, s: StructTag, params: string)
    requires head == "0x" + ShortStr(s.address) + "::" + Text(s.moduleName) + "::" + Text(s.name)
    requires params == ParamsText(s.typeParams)
    ensures (before + head) + params == before + StructText(s)
  {
    hide ParamsText;
    var tail := "::" + (Text(s.name) + params);
    assert StructText(s) == "0x" + (ShortStr(s.address) + ("::" + (Text(s.moduleName) + tail)));
    assert head + params == StructText(s);
    Assoc(before, head, params);
  }

  /** The first parameter opens the bracket; a loop writes the others behind commas. */
  method FmtStruct(f: Formatter, s: StructTag)
    modifies f
    ensures f.text == old(f.text) + StructText(s)
    decreases s, 1
  {
    hide TagText, StructText, ShortStr;
    var head := "0x" + ShortStr(s.address) + "::" + Text(s.moduleName) + "::" + Text(s.name);
    ghost var before := f.text;
    f.text := f.text + head;
    var ts := s.typeParams;
    if |ts| > 0 {
      f.text := f.text + "<";
      FmtTag(f, ts[0]);
      FmtMore(f, ts);
      f.text := f.text + ">";
      assert f.text == (before + head) + ("<" + (TagText(ts[0]) + (MoreText(ts[1..]) + ">")));
    }
    assert f.text == (before + head) + ParamsText(ts);
    AppendStruct(before, head, s, ParamsText(ts));
  }

  lemma AppendMore(before: string, first: string, more: string)
    ensures before + ", " + first + more == before + (", " + (first + more))
  {
  }

  method FmtMore(f: Formatter, ts: seq<TypeTag>)
    requires |ts| > 0
    modifies f
    ensures f.text == old(f.text) + MoreText(ts[1..])
    decreases ts, 0
  {
    hide TagText;
    var i := 1;
    while i < |ts|
      invariant 1 <= i <= |ts|
      invariant f.text + MoreText(ts[i..]) == old(f.text) + MoreText(ts[1..])
    {
      assert ts[i..][0] == ts[i] && ts[i..][1..] == ts[i + 1..];
      AppendMore(f.text, TagText(ts[i]), MoreText(ts[i + 1..]));
      f.text := f.text + ", ";
      FmtTag(f, ts[i]);
      i := i + 1;
    }
    assert ts[i..] == [];
  }

  // Parsing ------------------------------------------------------------------------------------------

  /** The bytes that delimit the parts of a printed tag. */
  predicate Delimiter(c: char) {
    c == ':' || c == '<' || c == '>' || c == ','
  }

  function NameLen(s: string): (n: nat)
    ensures n <= |s|
  {
    if s != "" && !Delimiter(s[0]) then 1 + NameLen(s[1..]) else 0
  }

  /** The text is a byte stream, and the stream is well-formed UTF-8. */
  predicate IsUtf8Text(s: string) {
    (forall i :: 0 <= i < |s| ==> s[i] < 256 as char) && IsUtf8(StreamOf(s))
  }

  function StreamOf(s: string): (bytes: seq<Byte>)
    requires forall i :: 0 <= i < |s| ==> s[i] < 256 as char
    ensures |bytes| == |s| && forall i :: 0 <= i < |s| ==> bytes[i] == s[i] as int
  {
    seq(|s|, i requires 0 <= i < |s| => s[i] as int)
  }

  /** Everything up to the next delimiter, if it is an identifier. */
  function ReadIdentifier(s: string): (r: Option<(Utf8, string)>)
    ensures r.Some? ==> |r.value.1| <= |s|
  {
    var n := NameLen(s);
    if IsUtf8Text(s[..n]) then Some((StreamOf(s[..n]), s[n..])) else None
  }

  function Keyword(word: string): Option<TypeTag> {
    if word == "bool" then Some(Bool)
    else if word == "u8" then Some(U8)
    else if word == "u64" then Some(U64)
    else if word == "u128" then Some(U128)
    else if word == "address" then Some(TypeTag.Address)
    else if word == "signer" then Some(Signer)
    else None
  }

  function ParseTag(s: string): (r: Option<(TypeTag, string)>)
    ensures r.Some? ==> |r.value.1| < |s|
    decreases |s|, 2
  {
    if "0x" <= s then
      var (tag, rest) :- ParseStruct(s);
      Some((Struct(tag), rest))
    else
      var n := WordLen(s);
      var (word, rest) := (s[..n], s[n..]);
      if Keyword(word).Some? then Some((Keyword(word).value, rest))
      else if word == "vector" then ParseElem(rest)
      else None
  }

  function ParseElem(s: string): (r: Option<(TypeTag, string)>)
    ensures r.Some? ==> |r.value.1| < |s|
    decreases |s|, 3
  {
    var inner :- Expect(s, "<");
    var (e, afterElem) :- ParseTag(inner);
    var end :- Expect(afterElem, ">");
    Some((Vector(e), end))
  }

  function ParseStruct(s: string): (r: Option<(StructTag, string)>)
    ensures r.Some? ==> |r.value.1| < |s|
    decreases |s|, 1
  {
    var r0 :- Expect(s, "0x");
    var n := WordLen(r0);
    var address :- FromLiteral("0x" + r0[..n]);
    var r1 :- Expect(r0[n..], "::");
    var (moduleName, r2) :- ReadIdentifier(r1);
    var r3 :- Expect(r2, "::");
    var (name, r4) :- ReadIdentifier(r3);
    var (typeParams, r5) :- ParseParams(r4);
    Some((StructTag(address, moduleName, name, typeParams), r5))
  }

  function ParseParams(s: string): (r: Option<(seq<TypeTag>, string)>)
    ensures r.Some? ==> |r.value.1| <= |s|
    decreases |s|, 0
  {
    if "<" <= s then
      var (first, r1) :- ParseTag(s[1..]);
      var (more, r2) :- ParseMore(r1);
      var r3 :- Expect(r2, ">");
      Some(([first] + more, r3))
    else Some(([], s))
  }

  function ParseMore(s: string): (r: Option<(seq<TypeTag>, string)>)
    ensures r.Some? ==> |r.value.1| <= |s|
    decreases |s|, 0
  {
    if ", " <= s then
      var (first, r1) :- ParseTag(s[2..]);
      var (more, r2) :- ParseMore(r1);
      Some(([first] + more, r2))
    else Some(([], s))
  }

  // Parsing inverts printing ---------------------------------------------------------------------------

  predicate Plain(name: seq<Byte>) {
    forall i :: 0 <= i < |name| ==> !Delimiter(name[i] as char)
  }

  /** No identifier in the tag holds a byte that delimits the parts of a printed tag. */
  predicate PlainTag(t: TypeTag)
    decreases t, 0
  {
    match t
    case Struct(s) => PlainStruct(s)
    case Vector(e) => PlainTag(e)
    case _ => true
  }

  predicate PlainStruct(s: StructTag)
    decreases s, 0
  {
    Plain(s.moduleName) && Plain(s.name) && PlainList(s.typeParams)
  }

  predicate PlainList(ts: seq<TypeTag>)
    decreases ts, 0
  {
    ts == [] || (PlainTag(ts[0]) && PlainList(ts[1..]))
  }

  /** What may follow a printed tag: the end, or a delimiter that does not open a list. */
  predicate Stops(rest: string) {
    rest == "" || (Delimiter(rest[0]) && rest[0] != '<')
  }

  lemma {:induction false} NameLenExact(name: string, rest: string)
    requires forall i :: 0 <= i < |name| ==> !Delimiter(name[i])
    requires rest == "" || Delimiter(rest[0])
    ensures NameLen(name + rest) == |name|
    ensures (name + rest)[..|name|] == name && (name + rest)[|name|..] == rest
  {
    if name == "" {
      assert name + rest == rest;
    } else {
      NameLenExact(name[1..], rest);
      assert (name + rest)[1..] == name[1..] + rest;
    }
  }

  lemma TextIsStream(bytes: seq<Byte>)
    ensures forall i :: 0 <= i < |bytes| ==> Text(bytes)[i] < 256 as char
    ensures StreamOf(Text(bytes)) == bytes
  {
  }

  lemma IdentifierRoundTrip(name: Utf8, rest: string)
    requires Plain(name)
    requires rest == "" || Delimiter(rest[0])
    ensures ReadIdentifier(Text(name) + rest) == Some((name, rest))
  {
    hide IsUtf8, StreamOf;
    NameLenExact(Text(name), rest);
    TextIsStream(name);
  }

  lemma HexIsWord(s: string)
    requires IsHex(s)
    ensures forall i :: 0 <= i < |s| ==> WordChar(s[i])
  {
  }

  lemma KeywordRoundTrip(t: TypeTag, rest: string)
    requires !t.Struct? && !t.Vector? && Stops(rest)
    ensures ParseTag(TagText(t) + rest) == Some((t, rest))
  {
    var word := TagText(t);
    assert Keyword(word) == Some(t);
    hide Keyword, TagText;
    assert |word| >= 2 && word[0] != '0' && (forall i :: 0 <= i < |word| ==> WordChar(word[i])) by { KeywordShape(t); }
    assert (word + rest)[0] == word[0];
    WordLenExact(word, rest);
  }

  lemma KeywordShape(t: TypeTag)
    requires !t.Struct? && !t.Vector?
    ensures |TagText(t)| >= 2 && TagText(t)[0] != '0'
    ensures forall i :: 0 <= i < |TagText(t)| ==> WordChar(TagText(t)[i])
  {
  }

  lemma {:induction false} TagTextRoundTrip(t: TypeTag, rest: string)
    requires PlainTag(t) && Stops(rest)
    ensures ParseTag(TagText(t) + rest) == Some((t, rest))
    decreases t, 0
  {
    match t
    case Struct(s) =>
      StructTextRoundTrip(s, rest);
      assert (StructText(s) + rest)[..2] == "0x";
    case Vector(e) =>
      TagTextRoundTrip(e, ">" + rest);
      ElemRoundTrip(e, TagText(e), rest);
      VectorTextSplit(TagText(e), rest);
      VectorWord("vector", "<" + (TagText(e) + (">" + rest)));
    case _ =>
      KeywordRoundTrip(t, rest);
  }

  lemma VectorTextSplit(text: string, rest: string)
    ensures ("vector<" + (text + ">")) + rest == "vector" + ("<" + (text + (">" + rest)))
  {
  }

  lemma ElemRoundTrip(e: TypeTag, text: string, rest: string)
    requires ParseTag(text + (">" + rest)) == Some((e, ">" + rest))
    ensures ParseElem("<" + (text + (">" + rest))) == Some((Vector(e), rest))
  {
    hide ParseTag;
    ExpectRoundTrip("<", text + (">" + rest));
    ExpectRoundTrip(">", rest);
  }

  lemma VectorWord(vector: string, rest: string)
    requires vector == "vector" && rest != "" && !WordChar(rest[0])
    ensures ParseTag(vector + rest) == ParseElem(rest)
  {
    assert Keyword(vector) == None && vector[0] == 'v';
    hide ParseStruct, ParseElem, Keyword;
    WordLenExact(vector, rest);
    assert (vector + rest)[0] == 'v';
  }

  lemma StructTextSplit(digits: string, moduleText: string, nameText: string, params: string, rest: string)
    ensures ("0x" + (digits + ("::" + (moduleText + ("::" + (nameText + params)))))) + rest
         == "0x" + (digits + ("::" + (moduleText + ("::" + (nameText + (params + rest))))))
  {
  }

  lemma {:induction false} StructTextRoundTrip(s: StructTag, rest: string)
    requires PlainStruct(s) && Stops(rest)
    ensures ParseStruct(StructText(s) + rest) == Some((s, rest))
    decreases s, 0
  {
    hide ParseParams, ParamsText, FromLiteral, ShortStr, ReadIdentifier, Text;
    var digits := ShortStr(s.address);
    var r4 := ParamsText(s.typeParams) + rest;
    var r3 := Text(s.name) + r4;
    var r2 := "::" + r3;
    var r1 := Text(s.moduleName) + r2;
    var r0 := digits + ("::" + r1);
    StructTextSplit(digits, Text(s.moduleName), Text(s.name), ParamsText(s.typeParams), rest);
    assert StructText(s) + rest == "0x" + r0;
    ExpectRoundTrip("0x", r0);
    AddressDigits(s.address, "::" + r1);
    ExpectRoundTrip("::", r1);
    IdentifierRoundTrip(s.moduleName, r2);
    ExpectRoundTrip("::", r3);
    ParamsStart(s.typeParams, rest);
    IdentifierRoundTrip(s.name, r4);
    ParamsRoundTrip(s.typeParams, rest);
  }

  /** The digits of a short address are one word, and they denote the address. */
  lemma AddressDigits(a: Address, rest: string)
    requires rest != "" && !WordChar(rest[0])
    ensures var (digits, s) := (ShortStr(a), ShortStr(a) + rest);
            && WordLen(s) == |digits| && s[..|digits|] == digits && s[|digits|..] == rest
            && FromLiteral("0x" + digits) == Some(a)
  {
    ShortStrIsShort(a);
    HexIsWord(ShortStr(a));
    WordLenExact(ShortStr(a), rest);
    LiteralRoundTrip(a);
  }

  lemma ParamsStart(ts: seq<TypeTag>, rest: string)
    requires Stops(rest)
    ensures var s := ParamsText(ts) + rest; s == "" || Delimiter(s[0])
  {
    if ts == [] {
      assert ParamsText(ts) + rest == rest;
    }
  }

  lemma ParamsTextSplit(first: string, more: string, rest: string)
    ensures ("<" + (first + (more + ">"))) + rest == "<" + (first + (more + (">" + rest)))
  {
  }

  lemma MoreTextSplit(first: string, more: string, rest: string)
    ensures (", " + (first + more)) + rest == ", " + (first + (more + rest))
  {
  }

  lemma ParamsStep(t: TypeTag, ts: seq<TypeTag>, head: string, tail: string, rest: string)
    requires ParseTag(head + tail) == Some((t, tail)) && ParseMore(tail) == Some((ts, ">" + rest))
    ensures ParseParams("<" + (head + tail)) == Some(([t] + ts, rest))
  {
    hide ParseTag, ParseMore;
    assert ("<" + (head + tail))[1..] == head + tail;
    ExpectRoundTrip(">", rest);
  }

  lemma MoreStep(t: TypeTag, ts: seq<TypeTag>, head: string, tail: string, rest: string)
    requires ParseTag(head + tail) == Some((t, tail)) && ParseMore(tail) == Some((ts, rest))
    ensures ParseMore(", " + (head + tail)) == Some(([t] + ts, rest))
  {
    hide ParseTag;
    assert (", " + (head + tail))[2..] == head + tail;
  }

  lemma {:induction false} ParamsRoundTrip(ts: seq<TypeTag>, rest: string)
    requires PlainList(ts) && Stops(rest)
    ensures ParseParams(ParamsText(ts) + rest) == Some((ts, rest))
    decreases ts, 1
  {
    if ts == [] {
      assert ParamsText(ts) + rest == rest;
    } else {
      hide TagText, MoreText, ParseTag, ParseMore, ParseParams;
      var tail := MoreText(ts[1..]) + (">" + rest);
      ParamsTextSplit(TagText(ts[0]), MoreText(ts[1..]), rest);
      MoreStops(ts[1..], rest);
      TagTextRoundTrip(ts[0], tail);
      MoreRoundTrip(ts[1..], rest);
      ParamsStep(ts[0], ts[1..], TagText(ts[0]), tail, rest);
      assert [ts[0]] + ts[1..] == ts;
    }
  }

  lemma MoreStops(ts: seq<TypeTag>, rest: string)
    ensures Stops(MoreText(ts) + (">" + rest))
  {
    if ts == [] {
      assert MoreText(ts) + (">" + rest) == ">" + rest;
    }
  }

  lemma {:induction false} MoreRoundTrip(ts: seq<TypeTag>, rest: string)
    requires PlainList(ts)
    ensures ParseMore(MoreText(ts) + (">" + rest)) == Some((ts, ">" + rest))
    decreases ts, 0
  {
    if ts == [] {
      assert MoreText(ts) + (">" + rest) == ">" + rest;
      assert (">" + rest)[0] == '>';
    } else {
      hide TagText, ParseTag, ParseMore;
      var tail := MoreText(ts[1..]) + (">" + rest);
      MoreTextSplit(TagText(ts[0]), MoreText(ts[1..]), ">" + rest);
      MoreStops(ts[1..], rest);
      TagTextRoundTrip(ts[0], tail);
      MoreRoundTrip(ts[1..], rest);
      MoreStep(ts[0], ts[1..], TagText(ts[0]), tail, ">" + rest);
      assert [ts[0]] + ts[1..] == ts;
    }
  }

  /** Among tags whose identifiers are free of delimiters the printed form is unambiguous. */
  lemma TagTextInjective(a: TypeTag, b: TypeTag)
    requires PlainTag(a) && PlainTag(b) && TagText(a) == TagText(b)
    ensures a == b
  {
    TagTextRoundTrip(a, "");
    TagTextRoundTrip(b, "");
    assert TagText(a) + "" == TagText(b) + "";
  }

  // Among all tags -----------------------------------------------------------------------------------------

  /** Some struct in the tag has type parameters: the one that the vectors around it lead to. */
  predicate HasParams(t: TypeTag) {
    match t
    case Vector(e) => HasParams(e)
    case Struct(s) => s.typeParams != []
    case _ => false
  }

  /** How many bytes the first character of well-formed UTF-8 takes. */
  function CharLen(b: Byte): nat {
    if b < 0x80 then 1 else if b <= 0xDF then 2 else if b <= 0xEF then 3 else 4
  }

  /** The character at the front is complete and well-formed. */
  predicate GoodChar(s: seq<Byte>) {
    && s != [] && CharLen(s[0]) <= |s|
    && (s[0] < 0x80 || 0xC2 <= s[0] <= 0xF4)
    && (forall k :: 1 <= k < CharLen(s[0]) ==> Continuation(s[k]))
    && (s[0] == 0xE0 ==> s[1] >= 0xA0) && (s[0] == 0xED ==> s[1] < 0xA0)
    && (s[0] == 0xF0 ==> s[1] >= 0x90) && (s[0] == 0xF4 ==> s[1] < 0x90)
  }

  lemma {:induction false} Utf8Unfold(s: seq<Byte>)
    requires s != []
    ensures IsUtf8(s) <==> GoodChar(s) && IsUtf8(s[CharLen(s[0])..])
  {
  }

  lemma Utf8Step(a: seq<Byte>, b: seq<Byte>)
    requires a != [] && IsUtf8(a)
    ensures CharLen(a[0]) <= |a| && IsUtf8(a[CharLen(a[0])..])
    ensures IsUtf8(a[CharLen(a[0])..] + b) ==> IsUtf8(a + b)
  {
    hide IsUtf8;
    var n := CharLen(a[0]);
    Utf8Unfold(a);
    Utf8Unfold(a + b);
    assert (a + b)[n..] == a[n..] + b;
    assert forall k :: 0 <= k < n ==> (a + b)[k] == a[k];
  }

  lemma {:induction false} Utf8Concat(a: seq<Byte>, b: seq<Byte>)
    requires IsUtf8(a) && IsUtf8(b)
    ensures IsUtf8(a + b)
    decreases |a|
  {
    if a == [] {
      assert a + b == b;
    } else {
      hide IsUtf8;
      Utf8Step(a, b);
      Utf8Concat(a[CharLen(a[0])..], b);
    }
  }

  lemma TextConcat(a: string, b: string)
    requires IsUtf8Text(a) && IsUtf8Text(b)
    ensures IsUtf8Text(a + b)
  {
    hide IsUtf8;
    Utf8Concat(StreamOf(a), StreamOf(b));
    assert StreamOf(a + b) == StreamOf(a) + StreamOf(b);
  }

  lemma AsciiText(s: string)
    requires forall i :: 0 <= i < |s| ==> s[i] < 128 as char
    ensures IsUtf8Text(s)
  {
    hide IsUtf8;
    AsciiIsUtf8(StreamOf(s));
  }

  lemma NameText(name: Utf8)
    ensures IsUtf8Text(Text(name))
  {
    hide IsUtf8;
    TextIsStream(name);
  }

  /** What is printed could be read as an identifier. */
  lemma {:induction false} TagIsUtf8(t: TypeTag)
    ensures IsUtf8Text(TagText(t))
    decreases t, 0
  {
    hide IsUtf8Text, StructText;
    match t
    case Struct(s) => StructIsUtf8(s);
    case Vector(e) =>
      TagIsUtf8(e);
      AsciiText("vector<");
      AsciiText(">");
      TextConcat(TagText(e), ">");
      TextConcat("vector<", TagText(e) + ">");
    case _ =>
      KeywordShape(t);
      AsciiText(TagText(t));
  }

  lemma {:induction false} StructIsUtf8(s: StructTag)
    ensures IsUtf8Text(StructText(s))
    decreases s, 0
  {
    hide IsUtf8Text, ParamsText, ShortStr, Text;
    ParamsIsUtf8(s.typeParams);
    NameText(s.name);
    NameText(s.moduleName);
    ShortStrIsShort(s.address);
    HexIsWord(ShortStr(s.address));
    AsciiText(ShortStr(s.address));
    AsciiText("::");
    AsciiText("0x");
    var r3 := Text(s.name) + ParamsText(s.typeParams);
    var r2 := Text(s.moduleName) + ("::" + r3);
    TextConcat(Text(s.name), ParamsText(s.typeParams));
    TextConcat("::", r3);
    TextConcat(Text(s.moduleName), "::" + r3);
    TextConcat("::", r2);
    TextConcat(ShortStr(s.address), "::" + r2);
    TextConcat("0x", ShortStr(s.address) + ("::" + r2));
  }

  lemma {:induction false} ParamsIsUtf8(ts: seq<TypeTag>)
    ensures IsUtf8Text(ParamsText(ts))
    decreases ts, 1
  {
    hide IsUtf8Text, TagText, MoreText;
    if ts == [] {
      AsciiText("");
    } else {
      AsciiText("<");
      AsciiText(">");
      TagIsUtf8(ts[0]);
      MoreIsUtf8(ts[1..]);
      TextConcat(MoreText(ts[1..]), ">");
      TextConcat(TagText(ts[0]), MoreText(ts[1..]) + ">");
      TextConcat("<", TagText(ts[0]) + (MoreText(ts[1..]) + ">"));
    }
  }

  lemma {:induction false} MoreIsUtf8(ts: seq<TypeTag>)
    ensures IsUtf8Text(MoreText(ts))
    decreases ts, 0
  {
    hide IsUtf8Text, TagText;
    if ts == [] {
      AsciiText("");
    } else {
      AsciiText(", ");
      TagIsUtf8(ts[0]);
      MoreIsUtf8(ts[1..]);
      TextConcat(TagText(ts[0]), MoreText(ts[1..]));
      TextConcat(", ", TagText(ts[0]) + MoreText(ts[1..]));
    }
  }

  /** Every struct with type parameters prints like one without whose name ends with the printed parameters. */
  lemma ParamsPrintLikeName(s: StructTag) returns (b: StructTag)
    requires s.typeParams != []
    ensures StructText(b) == StructText(s) && b.typeParams == [] && b != s
  {
    hide IsUtf8, ParamsText;
    var params := ParamsText(s.typeParams);
    ParamsIsUtf8(s.typeParams);
    Utf8Concat(s.name, StreamOf(params));
    b := StructTag(s.address, s.moduleName, s.name + StreamOf(params), []);
    assert Text(b.name) == Text(s.name) + params;
    NoParams();
    assert Text(b.name) + "" == Text(b.name);
  }

  lemma NoParams()
    ensures ParamsText([]) == ""
  {
  }

  /** So does every tag around such a struct. */
  lemma {:induction false} ParamsAreAmbiguous(a: TypeTag) returns (b: TypeTag)
    requires HasParams(a)
    ensures TagText(b) == TagText(a) && b != a
  {
    match a
    case Vector(e) =>
      var e' := ParamsAreAmbiguous(e);
      b := Vector(e');
    case Struct(s) =>
      var s' := ParamsPrintLikeName(s);
      b := Struct(s');
  }

  lemma ShapesDiffer(a: TypeTag, b: TypeTag)
    requires TagText(a) == TagText(b)
    ensures (a.Struct? <==> b.Struct?) && (a.Vector? <==> b.Vector?)
    ensures !a.Struct? && !a.Vector? ==> a == b
  {
    hide ShortStr, ParamsText, Text;
    FirstLetters(a);
    FirstLetters(b);
  }

  /** The text tells the kind of tag: `0` for structs, the seventh character of the others, if any. */
  lemma FirstLetters(t: TypeTag)
    ensures TagText(t) != "" && (t.Struct? <==> TagText(t)[0] == '0')
    ensures t.Vector? <==> |TagText(t)| > 6 && TagText(t)[6] == '<' && TagText(t)[0] != '0'
    decreases t, 0
  {
    hide ShortStr, ParamsText, Text;
    if !t.Struct? && !t.Vector? {
      KeywordShape(t);
    }
  }

  lemma {:induction false} FirstDelimiter(a: string, restA: string, b: string, restB: string)
    requires forall i :: 0 <= i < |a| ==> a[i] != ':'
    requires forall i :: 0 <= i < |b| ==> b[i] != ':'
    requires a + ("::" + restA) == b + ("::" + restB)
    ensures a == b && restA == restB
  {
    var (s, t) := (a + ("::" + restA), b + ("::" + restB));
    assert s[|a|] == ':' && t[|b|] == ':';
    assert forall i :: 0 <= i < |a| ==> s[i] == a[i];
    assert forall i :: 0 <= i < |b| ==> t[i] == b[i];
    assert |a| == |b|;
    assert s[..|a|] == a && t[..|b|] == b && s[|a| + 2..] == restA && t[|b| + 2..] == restB;
  }

  /** Free of the bytes that could be taken for the end of an identifier. */
  predicate Unbroken(name: string) {
    forall i :: 0 <= i < |name| ==> name[i] != ':' && name[i] != '<'
  }

  lemma SameSplit(a: string, restA: string, b: string, restB: string)
    requires Unbroken(a) && Unbroken(restA)
    requires a + ("::" + restA) == b + ("::" + restB)
    ensures a == b && restA == restB
  {
    var (s, t) := (a + ("::" + restA), b + ("::" + restB));
    assert t[|b|] == ':' && t[|b| + 1] == ':';
    assert forall i :: 0 <= i < |a| ==> s[i] == a[i];
    assert forall i :: |a| + 2 <= i < |s| ==> s[i] == restA[i - |a| - 2];
    assert |a| == |b|;
    assert s[..|a|] == a && t[..|b|] == b && s[|a| + 2..] == restA && t[|b| + 2..] == restB;
  }

  lemma AddressIsWord(a: Address)
    ensures forall i :: 0 <= i < |ShortStr(a)| ==> ShortStr(a)[i] != ':'
  {
    ShortStrIsShort(a);
    HexIsWord(ShortStr(a));
  }

  lemma ShortStrInjective(a: Address, b: Address)
    requires ShortStr(a) == ShortStr(b)
    ensures a == b
  {
    LiteralRoundTrip(a);
    LiteralRoundTrip(b);
  }

  lemma TextInjective(a: seq<Byte>, b: seq<Byte>)
    requires Text(a) == Text(b)
    ensures a == b
  {
    TextIsStream(a);
    TextIsStream(b);
  }

  lemma UnbrokenHasNoParams(name: string, first: string, ts: seq<TypeTag>)
    requires Unbroken(name) && name == first + ParamsText(ts)
    ensures ts == [] && name == first
  {
    hide TagText, MoreText, Unbroken;
    if ts != [] {
      ParamsBreak(first, ts);
    }
    assert first + "" == first;
  }

  lemma ParamsBreak(first: string, ts: seq<TypeTag>)
    requires ts != []
    ensures !Unbroken(first + ParamsText(ts))
  {
    hide TagText, MoreText;
    assert (first + ParamsText(ts))[|first|] == '<';
  }

  lemma SplitHead(digits: string, rest: string)
    ensures ("0x" + (digits + rest))[2..] == digits + rest
  {
  }

  /** A struct without type parameters and without `:` and `<` in its identifiers has its text to itself. */
  lemma {:induction false} StructIsUnique(a: StructTag, b: StructTag)
    requires a.typeParams == [] && Unbroken(Text(a.moduleName)) && Unbroken(Text(a.name))
    requires StructText(a) == StructText(b)
    ensures a == b
  {
    hide ShortStr, ParamsText, Text, Unbroken;
    var (digitsA, digitsB) := (ShortStr(a.address), ShortStr(b.address));
    var (moduleA, moduleB) := (Text(a.moduleName), Text(b.moduleName));
    var (nameA, nameB) := (Text(a.name), Text(b.name) + ParamsText(b.typeParams));
    NoParams();
    assert nameA + "" == nameA;
    AddressIsWord(a.address);
    AddressIsWord(b.address);
    SplitHead(digitsA, "::" + (moduleA + ("::" + nameA)));
    SplitHead(digitsB, "::" + (moduleB + ("::" + nameB)));
    FirstDelimiter(digitsA, moduleA + ("::" + nameA), digitsB, moduleB + ("::" + nameB));
    SameSplit(moduleA, nameA, moduleB, nameB);
    UnbrokenHasNoParams(nameA, Text(b.name), b.typeParams);
    ShortStrInjective(a.address, b.address);
    TextInjective(a.moduleName, b.moduleName);
    TextInjective(a.name, b.name);
  }

  /** The struct the vectors lead to, when it has no type parameters, has unbroken identifiers. */
  predicate UnbrokenTag(t: TypeTag) {
    match t
    case Vector(e) => UnbrokenTag(e)
    case Struct(s) => s.typeParams == [] ==> Unbroken(Text(s.moduleName)) && Unbroken(Text(s.name))
    case _ => true
  }

  lemma VectorTextInjective(a: string, b: string)
    requires "vector<" + (a + ">") == "vector<" + (b + ">")
    ensures a == b
  {
    var (s, t) := ("vector<" + (a + ">"), "vector<" + (b + ">"));
    assert s[7..|s| - 1] == a && t[7..|t| - 1] == b;
  }

  lemma {:induction false} TagIsUnique(a: TypeTag, b: TypeTag)
    requires UnbrokenTag(a) && !HasParams(a) && TagText(a) == TagText(b)
    ensures a == b
  {
    hide Unbroken, StructText;
    ShapesDiffer(a, b);
    if a.Vector? {
      VectorTextInjective(TagText(a.elem), TagText(b.elem));
      TagIsUnique(a.elem, b.elem);
    } else if a.Struct? {
      StructIsUnique(a.tag, b.tag);
    }
  }

  /**
   * Among all tags, a tag with unbroken identifiers has its text to itself exactly when no struct in it has
   * type parameters: otherwise the parameters might as well be the end of a name.
   */
  lemma {:induction false} PrintsUniquely(a: TypeTag)
    requires UnbrokenTag(a)
    ensures (forall b :: TagText(b) == TagText(a) ==> b == a) <==> !HasParams(a)
  {
    hide TagText, UnbrokenTag;
    if HasParams(a) {
      var b := ParamsAreAmbiguous(a);
      assert TagText(b) == TagText(a) && b != a;
    } else {
      forall b | TagText(b) == TagText(a)
        ensures b == a
      {
        TagIsUnique(a, b);
      }
    }
  }

  /** Tags with identifiers free of delimiters are among those. */
  lemma {:induction false} PlainIsUnbroken(t: TypeTag)
    requires PlainTag(t)
    ensures UnbrokenTag(t)
  {
    if t.Vector? {
      PlainIsUnbroken(t.elem);
    }
  }

  /** The smallest case: a name that ends with a printed parameter list. */
  lemma OddIdentifierIsAmbiguous(a: StructTag, b: StructTag)
    requires a.address == b.address && a.moduleName == b.moduleName
    requires a.name == [0x62] && a.typeParams == [U8]
    requires b.name == [0x62, 0x3c, 0x75, 0x38, 0x3e] && b.typeParams == []
    ensures StructText(a) == StructText(b) && a != b
  {
    assert Text(a.name) == "b" && Text(b.name) == "b<u8>";
    assert ParamsText(a.typeParams) == "<" + (TagText(U8) + (MoreText([]) + ">")) == "<u8>";
    assert Text(a.name) + ParamsText(a.typeParams) == "b<u8>" == Text(b.name) + ParamsText(b.typeParams);
  }

  // The texts themselves ---------------------------------------------------------------------------------

  lemma Keywords()
    ensures TagText(Bool) == "bool" && TagText(U8) == "u8" && TagText(U64) == "u64" && TagText(U128) == "u128"
    ensures TagText(TypeTag.Address) == "address" && TagText(Signer) == "signer" && TagText(Vector(U8)) == "vector<u8>"
  {
    assert TagText(Vector(U8)) == "vector<" + ("u8" + ">");
  }

  lemma ParamsExample(ts: seq<TypeTag>)
    requires ts == [Vector(U8), Bool]
    ensures ParamsText(ts) == "<vector<u8>, bool>"
  {
    hide TagText;
    Keywords();
    assert ts[1..] == [Bool] && [Bool][1..] == [];
    assert MoreText([]) == "" && MoreText([Bool]) == ", " + ("bool" + "") == ", bool";
    assert ParamsText(ts) == "<" + ("vector<u8>" + (", bool" + ">"));
  }

  lemma CoreCodePrefix(a: Address)
    requires a == [0, 0, 0, 0, 0, 0, 0, 0, 0, 0, 0, 0, 0, 0, 0, 1]
    ensures ShortStr(a) == "1"
  {
    hide ShortStr;
    LiteralExamples([0, 0, 0, 0, 0, 0, 0, 0, 0, 0, 0, 0, 0, 0, 0, 0], a);
    assert ToHexLiteral(a)[2..] == ShortStr(a);
  }

  lemma Joined(params: string)
    ensures "0x" + ("1" + ("::" + ("M" + ("::" + ("N" + params))))) == "0x1::M::N" + params
  {
    assert "M" + ("::" + ("N" + params)) == "M::N" + params;
    assert "0x" + ("1" + ("::" + ("M::N" + params))) == "0x1::M::N" + params;
  }

  /** `0x1::M::N<vector<u8>, bool>`. */
  lemma PrintedExample(s: StructTag)
    requires s.address == [0, 0, 0, 0, 0, 0, 0, 0, 0, 0, 0, 0, 0, 0, 0, 1]
    requires s.moduleName == [0x4d] && s.name == [0x4e] && s.typeParams == [Vector(U8), Bool]
    ensures StructText(s) == "0x1::M::N<vector<u8>, bool>"
  {
    hide TagText, ParamsText, ShortStr;
    CoreCodePrefix(s.address);
    assert Text(s.moduleName) == "M" && Text(s.name) == "N";
    ParamsExample(s.typeParams);
    Joined("<vector<u8>, bool>");
  }
}
