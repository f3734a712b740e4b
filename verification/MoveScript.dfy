/**
 * The part of the Move language that governance scripts use: a parser for the statements they are
 * made of, and an interpreter that records the framework calls a script makes.
 */
module MoveScript {
  import opened Base
  import opened Words
  import Hex

  datatype Expr =
    | VecLit(bytes: seq<Byte>)
    | EmptyVec
    | Resolve(proposal: string, addr: string, hash: Expr)

  datatype Stmt =
    | Let(name: string, value: Expr)
    | PushBack(dst: string, src: string)
    | Append(dst: string, src: string)
    | Publish(signer: string, metadata: string, code: string)

  // Tokens ------------------------------------------------------------------------------------------

  predicate IsSpace(c: char) {
    c == ' ' || c == '\n'
  }

  /** The length of the first line, without its line break. */
  function LineLen(s: string): (n: nat)
    ensures n <= |s|
  {
    if s == "" || s[0] == '\n' then 0 else 1 + LineLen(s[1..])
  }

  /** Skips spaces, line breaks and line comments. */
  function Skip(s: string): (r: string)
    ensures |r| <= |s|
    decreases |s|
  {
    if s != "" && IsSpace(s[0]) then Skip(s[1..])
    else if "//" <= s then
      assert LineLen(s) == 1 + LineLen(s[1..]);
      Skip(s[LineLen(s)..])
    else s
  }

  /** Reads a fixed text, after skipping. */
  function Eat(s: string, lit: string): (r: Option<string>)
    ensures r.Some? ==> |r.value| + |lit| <= |s|
  {
    Expect(Skip(s), lit)
  }

  function ReadWord(s: string): (r: Option<(string, string)>)
    ensures r.Some? ==> |r.value.1| < |s| && IsWord(r.value.0)
  {
    var n := WordLen(s);
    WordLenIsWord(s);
    if n == 0 then None else Some((s[..n], s[n..]))
  }

  // Parsing -----------------------------------------------------------------------------------------

  /** The elements of a byte vector, up to its closing bracket. */
  function ParseElems(s: string): (r: Option<(seq<Byte>, string)>)
    ensures r.Some? ==> |r.value.1| <= |s|
    decreases |s|
  {
    var t := Skip(s);
    if "]" <= t then Some(([], t[1..]))
    else
      var n := DigitLen(t);
      if n == 0 then None
      else
        var v := DecValue(0, t[..n]);
        if v >= 256 then None
        else
          var r1 :- Expect(t[n..], "u8,");
          var (more, r2) :- ParseElems(r1);
          Some(([v] + more, r2))
  }

  function ParseHash(s: string): (r: Option<(Expr, string)>)
    ensures r.Some? ==> |r.value.1| <= |s|
  {
    var lit := Eat(s, "vector[");
    if lit.Some? then
      var (bytes, rest) :- ParseElems(lit.value);
      Some((VecLit(bytes), rest))
    else
      var rest :- Eat(s, "vector::empty<u8>()");
      Some((EmptyVec, rest))
  }

  function ParseResolve(s: string): (r: Option<(Expr, string)>)
    ensures r.Some? ==> |r.value.1| <= |s|
  {
    var path :- Eat(s, "diem_governance::");
    var r0 :- Expect(path, "resolve_multi_step_proposal(");
    var (proposal, r1) :- ReadWord(Skip(r0));
    var r2 :- Eat(r1, ",");
    var r3 :- Eat(r2, "@");
    var (addr, r4) :- ReadWord(r3);
    var r5 :- Eat(r4, ",");
    var (hash, r6) :- ParseHash(r5);
    var comma := Eat(r6, ",");
    var r7 :- Eat(if comma.Some? then comma.value else r6, ")");
    Some((Resolve(proposal, addr, hash), r7))
  }

  function ParseExpr(s: string): (r: Option<(Expr, string)>)
    ensures r.Some? ==> |r.value.1| <= |s|
  {
    var lit := Eat(s, "vector[");
    if lit.Some? then
      var (bytes, rest) :- ParseElems(lit.value);
      Some((VecLit(bytes), rest))
    else
      var empty := Eat(s, "vector::empty()");
      if empty.Some? then Some((EmptyVec, empty.value)) else ParseResolve(s)
  }

  function ParseLet(s: string): (r: Option<(Stmt, string)>)
    ensures r.Some? ==> |r.value.1| < |s|
  {
    var (name, r1) :- ReadWord(s);
    var r2 :- Eat(r1, "=");
    var (value, r3) :- ParseExpr(r2);
    var r4 :- Eat(r3, ";");
    Some((Let(name, value), r4))
  }

  /** Two words in the argument list of a call, and the end of the statement. */
  function ParsePair(s: string): (r: Option<((string, string), string)>)
    ensures r.Some? ==> |r.value.1| < |s|
  {
    var (a, r1) :- ReadWord(s);
    var r2 :- Expect(r1, ", ");
    var (b, r3) :- ReadWord(r2);
    var r4 :- Expect(r3, ");");
    Some(((a, b), r4))
  }

  function ParsePublish(s: string): (r: Option<(Stmt, string)>)
    ensures r.Some? ==> |r.value.1| < |s|
  {
    var (signer, r1) :- ReadWord(s);
    var r2 :- Expect(r1, ", ");
    var (pair, r3) :- ParsePair(r2);
    Some((Publish(signer, pair.0, pair.1), r3))
  }

  function ParseStmt(s: string): (r: Option<(Stmt, string)>)
    ensures r.Some? ==> |r.value.1| < |s|
  {
    var letRest := Eat(s, "let ");
    if letRest.Some? then ParseLet(letRest.value)
    else
      var push := Eat(s, "vector::push_back(&mut ");
      if push.Some? then
        var (pair, rest) :- ParsePair(push.value);
        Some((PushBack(pair.0, pair.1), rest))
      else
        var append := Eat(s, "vector::append(&mut ");
        if append.Some? then
          var (pair, rest) :- ParsePair(append.value);
          Some((Append(pair.0, pair.1), rest))
        else
          var publish :- Eat(s, "code::publish_package_txn(&");
          ParsePublish(publish)
  }

  /** The rest of an import: an address and a module's name. */
  function ParseUse(s: string): (r: Option<((string, string), string)>)
    ensures r.Some? ==> |r.value.1| < |s|
  {
    var (addr, r1) :- ReadWord(s);
    var r2 :- Expect(r1, "::");
    var (name, r3) :- ReadWord(r2);
    var r4 :- Eat(r3, ";");
    Some(((addr, name), r4))
  }

  /** Reads imports as long as there are any, into a map from the names of modules to their addresses. */
  function ReadUses(s: string, uses: map<string, string>): (r: (map<string, string>, string))
    decreases |s|
  {
    var use := Eat(s, "use ");
    if use.None? then (uses, s)
    else
      var parsed := ParseUse(use.value);
      if parsed.None? then (uses, s)
      else
        var ((addr, name), rest) := parsed.value;
        ReadUses(rest, uses[name := addr])
  }

  // Execution ----------------------------------------------------------------------------------------

  datatype Value =
    | Bytes(bytes: seq<Byte>)
    | List(items: seq<seq<Byte>>)
    | Signer
    | Proposal

  datatype Event =
    | Resolved(addr: string, next: seq<Byte>)
    | Published(metadata: seq<Byte>, code: seq<seq<Byte>>)
    | GitSet(hash: seq<Byte>)

  datatype State = State(uses: map<string, string>, env: map<string, Value>, events: seq<Event>)

  /** Calls into a module need its import. */
  predicate Imported(uses: map<string, string>, addr: string, name: string) {
    name in uses && uses[name] == addr
  }

  function Lookup(env: map<string, Value>, name: string): Option<Value> {
    if name in env then Some(env[name]) else None
  }

  function Exec(stmt: Stmt, st: State): Option<State> {
    match stmt
    case Let(name, VecLit(bytes)) => Some(st.(env := st.env[name := Bytes(bytes)]))
    case Let(name, EmptyVec) =>
      if Imported(st.uses, "std", "vector") then Some(st.(env := st.env[name := List([])])) else None
    case Let(name, Resolve(proposal, addr, hash)) =>
      if !Imported(st.uses, "diem_framework", "diem_governance") || Lookup(st.env, proposal) != Some(Proposal) then None
      else
        var next :- EvalHash(hash, st.uses);
        Some(st.(env := st.env[name := Signer], events := st.events + [Resolved(addr, next)]))
    case PushBack(dst, src) =>
      var d :- Lookup(st.env, dst);
      var v :- Lookup(st.env, src);
      if Imported(st.uses, "std", "vector") && d.List? && v.Bytes?
      then Some(st.(env := st.env[dst := List(d.items + [v.bytes])])) else None
    case Append(dst, src) =>
      var d :- Lookup(st.env, dst);
      var v :- Lookup(st.env, src);
      if Imported(st.uses, "std", "vector") && d.Bytes? && v.Bytes?
      then Some(st.(env := st.env[dst := Bytes(d.bytes + v.bytes)])) else None
    case Publish(signer, metadata, code) =>
      var s :- Lookup(st.env, signer);
      var m :- Lookup(st.env, metadata);
      var c :- Lookup(st.env, code);
      if Imported(st.uses, "diem_framework", "code") && s.Signer? && m.Bytes? && c.List?
      then Some(st.(events := st.events + [Published(m.bytes, c.items)])) else None
  }

  function EvalHash(hash: Expr, uses: map<string, string>): Option<seq<Byte>> {
    match hash
    case VecLit(bytes) => Some(bytes)
    case EmptyVec => if Imported(uses, "std", "vector") then Some([]) else None
    case Resolve(_, _, _) => None
  }

  /** Runs statements as long as there are any; `None` when one cannot be executed. */
  function Run(s: string, st: State): (r: Option<(State, string)>)
    decreases |s|
  {
    var parsed := ParseStmt(s);
    if parsed.None? then Some((st, s))
    else
      var st' :- Exec(parsed.value.0, st);
      Run(parsed.value.1, st')
  }

  /** The last expression of the script, and its closing braces. */
  function Finish(s: string, st: State): Option<seq<Event>> {
    var r0 :- Eat(s, "version::upgrade_set_git(&");
    var (signer, r1) :- ReadWord(r0);
    var r2 :- Expect(r1, ", x\"");
    var n := WordLen(r2);
    var hash :- Hex.Decode(r2[..n]);
    var r3 :- Expect(r2[n..], "\")");
    var r4 :- Eat(r3, "}");
    var r5 :- Eat(r4, "}");
    if Imported(st.uses, "diem_framework", "version") && Lookup(st.env, signer) == Some(Signer) && Skip(r5) == ""
    then Some(st.events + [GitSet(hash)]) else None
  }

  /** Parses and executes a whole script: the framework calls it makes, or `None` if it is no valid script. */
  function Execute(text: string): Option<seq<Event>> {
    var r0 :- Eat(text, "script {");
    var (uses, afterUses) := ReadUses(r0, map[]);
    var r1 :- Eat(afterUses, "fun main(");
    var (param, r2) :- ReadWord(r1);
    var r3 :- Expect(r2, ": u64){");
    var (st, r4) :- Run(r3, State(uses, map[param := Proposal], []));
    Finish(r4, st)
  }

  // Reading back what was written ----------------------------------------------------------------------

  predicate Blank(s: string) {
    forall i :: 0 <= i < |s| ==> IsSpace(s[i])
  }

  predicate OneLine(s: string) {
    forall i :: 0 <= i < |s| ==> s[i] != '\n'
  }

  lemma {:induction false} SkipBlank(ws: string, s: string)
    requires Blank(ws)
    ensures Skip(ws + s) == Skip(s)
  {
    if ws == "" {
      assert ws + s == s;
    } else {
      SkipBlank(ws[1..], s);
      assert (ws + s)[1..] == ws[1..] + s;
    }
  }

  lemma {:induction false} LineLenExact(line: string, rest: string)
    requires OneLine(line)
    ensures LineLen(line + ("\n" + rest)) == |line|
  {
    if line == "" {
      assert line + ("\n" + rest) == "\n" + rest;
    } else {
      LineLenExact(line[1..], rest);
      assert (line + ("\n" + rest))[1..] == line[1..] + ("\n" + rest);
    }
  }

  /** A comment line is skipped. */
  lemma SkipComment(line: string, rest: string)
    requires OneLine(line) && "//" <= line
    ensures Skip(line + ("\n" + rest)) == Skip(rest)
  {
    var s := line + ("\n" + rest);
    LineLenExact(line, rest);
    assert s[0] == '/' && "//" <= s;
    assert s[|line|..] == "\n" + rest;
    SkipBlank("\n", rest);
  }

  predicate Solid(lit: string) {
    lit != "" && !IsSpace(lit[0]) && lit[0] != '/'
  }

  lemma SkipSolid(lit: string, rest: string)
    requires Solid(lit)
    ensures Skip(lit + rest) == lit + rest
  {
    assert (lit + rest)[0] == lit[0];
  }

  lemma EatExact(ws: string, lit: string, rest: string)
    requires Blank(ws) && Solid(lit)
    ensures Eat(ws + (lit + rest), lit) == Some(rest)
  {
    SkipBlank(ws, lit + rest);
    SkipSolid(lit, rest);
    ExpectRoundTrip(lit, rest);
  }

  lemma EatDiffers(ws: string, lit: string, rest: string, other: string, k: nat)
    requires Blank(ws) && Solid(lit) && k < |lit| && k < |other| && lit[k] != other[k]
    ensures Eat(ws + (lit + rest), other) == None
  {
    SkipBlank(ws, lit + rest);
    SkipSolid(lit, rest);
    assert (lit + rest)[k] == lit[k];
  }

  lemma ReadWordExact(word: string, rest: string)
    requires IsWord(word) && (rest == "" || !WordChar(rest[0]))
    ensures ReadWord(word + rest) == Some((word, rest))
  {
    WordLenExact(word, rest);
  }

  lemma PairExact(a: string, b: string, rest: string)
    requires IsWord(a) && IsWord(b)
    ensures ParsePair(a + (", " + (b + (");" + rest)))) == Some(((a, b), rest))
  {
    var r3 := ");" + rest;
    var r2 := b + r3;
    ReadWordExact(a, ", " + r2);
    ExpectRoundTrip(", ", r2);
    ReadWordExact(b, r3);
    ExpectRoundTrip(");", rest);
  }

  lemma PushBackExact(ws: string, a: string, b: string, rest: string)
    requires Blank(ws) && IsWord(a) && IsWord(b)
    ensures ParseStmt(ws + ("vector::push_back(&mut " + (a + (", " + (b + (");" + rest))))))
         == Some((PushBack(a, b), rest))
  {
    hide ParseLet, ParsePair, ParsePublish, Eat;
    var lit := "vector::push_back(&mut ";
    var more := a + (", " + (b + (");" + rest)));
    EatDiffers(ws, lit, more, "let ", 0);
    EatExact(ws, lit, more);
    PairExact(a, b, rest);
  }

  lemma AppendExact(ws: string, a: string, b: string, rest: string)
    requires Blank(ws) && IsWord(a) && IsWord(b)
    ensures ParseStmt(ws + ("vector::append(&mut " + (a + (", " + (b + (");" + rest))))))
         == Some((Append(a, b), rest))
  {
    hide ParseLet, ParsePair, ParsePublish, Eat;
    var lit := "vector::append(&mut ";
    var more := a + (", " + (b + (");" + rest)));
    EatDiffers(ws, lit, more, "let ", 0);
    EatDiffers(ws, lit, more, "vector::push_back(&mut ", 8);
    EatExact(ws, lit, more);
    PairExact(a, b, rest);
  }

  lemma {:induction false} PublishExact(ws: string, signer: string, a: string, b: string, rest: string)
    requires Blank(ws) && IsWord(signer) && IsWord(a) && IsWord(b)
    ensures ParseStmt(ws + ("code::publish_package_txn(&" + (signer + (", " + (a + (", " + (b + (");" + rest))))))))
         == Some((Publish(signer, a, b), rest))
  {
    hide ParseLet, ParsePair, Eat;
    var lit := "code::publish_package_txn(&";
    var pair := a + (", " + (b + (");" + rest)));
    var more := signer + (", " + pair);
    EatDiffers(ws, lit, more, "let ", 0);
    EatDiffers(ws, lit, more, "vector::push_back(&mut ", 0);
    EatDiffers(ws, lit, more, "vector::append(&mut ", 0);
    EatExact(ws, lit, more);
    ReadWordExact(signer, ", " + pair);
    ExpectRoundTrip(", ", pair);
    PairExact(a, b, rest);
  }

  /** A binding, given that its right-hand side reads back. */
  lemma {:induction false} LetExact(ws: string, name: string, gap: string, value: string, e: Expr, rest: string)
    requires Blank(ws) && IsWord(name) && Blank(gap)
    requires ParseExpr(gap + (value + (";" + rest))) == Some((e, ";" + rest))
    ensures ParseStmt(ws + ("let " + (name + (" =" + (gap + (value + (";" + rest)))))))
         == Some((Let(name, e), rest))
  {
    hide ParseExpr, Eat;
    var r2 := gap + (value + (";" + rest));
    var r1 := " =" + r2;
    EatExact(ws, "let ", name + r1);
    ReadWordExact(name, r1);
    assert r1 == " " + ("=" + r2);
    EatExact(" ", "=", r2);
    assert ";" + rest == "" + (";" + rest);
    EatExact("", ";", rest);
  }

  lemma {:induction false} RunStep(s: string, st: State, stmt: Stmt, rest: string, st': State)
    requires ParseStmt(s) == Some((stmt, rest)) && Exec(stmt, st) == Some(st')
    ensures Run(s, st) == Run(rest, st')
  {
  }
}
