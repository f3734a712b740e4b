/** What a generated governance script does when it is executed: it publishes the package it was made from. */
module ScriptMeaning {
  import opened Base
  import opened Words
  import opened MoveScript
  import opened ReleaseBundle
  import opened ScriptAhead
  import opened ScriptParse
  import Hex

  // Names --------------------------------------------------------------------------------------------

  lemma DecIsWord(prefix: string, n: nat)
    requires IsWord(prefix)
    ensures IsWord(prefix + Dec(n))
  {
    hide Dec;
    forall i | 0 <= i < |prefix + Dec(n)| ensures WordChar((prefix + Dec(n))[i]) {
      if i >= |prefix| {
        assert IsDigit(Dec(n)[i - |prefix|]);
      }
    }
  }

  lemma NamesAreWords(i: nat)
    ensures IsWord(CodeName(i)) && IsWord(ChunkName(i))
  {
    hide Dec;
    DecIsWord("code_chunk", i);
    DecIsWord("metadata_chunk", i);
  }

  lemma CodeNameApart(i: nat)
    ensures CodeName(i) != "code" && CodeName(i) != "framework_signer"
  {
    hide Dec;
    assert |CodeName(i)| > |"code"|;
    assert CodeName(i)[0] == 'c' && "framework_signer"[0] == 'f';
  }

  lemma ChunkNameApart(i: nat)
    ensures ChunkName(i) != "code" && ChunkName(i) != "framework_signer"
  {
    hide Dec;
    assert ChunkName(i)[0] == 'm' && "framework_signer"[0] == 'f' && "code"[0] == 'c';
  }

  lemma ChunkNameInjective(i: nat, j: nat)
    requires ChunkName(i) == ChunkName(j)
    ensures i == j
  {
    hide Dec, DecValue;
    assert ChunkName(i)[|"metadata_chunk"|..] == Dec(i) && ChunkName(j)[|"metadata_chunk"|..] == Dec(j);
    DecRoundTrip(i);
    DecRoundTrip(j);
  }

  lemma FirstChunkName()
    ensures ChunkName(1) == "metadata_chunk1"
  {
    assert Dec(1) == "1";
  }

  // Single statements --------------------------------------------------------------------------------

  lemma SplitLet(margin: string, name: string, gap: string, value: string, rest: string)
    ensures "\n" + ((margin + ("let " + (name + (" =" + (gap + (value + (";" + "\n"))))))) + rest)
         == ("\n" + margin) + ("let " + (name + (" =" + (gap + (value + (";" + ("\n" + rest)))))))
  {
  }

  /** A binding reads back when its value does. */
  lemma LetLineExact(level: nat, name: string, gap: string, value: string, e: Expr, rest: string)
    requires IsWord(name) && Blank(gap)
    requires ParseExpr(gap + (value + (";" + ("\n" + rest)))) == Some((e, ";" + ("\n" + rest)))
    ensures ParseStmt("\n" + (LetLine(level, name, gap, value) + rest)) == Some((Let(name, e), "\n" + rest))
  {
    hide ParseExpr, ParseStmt, Spaces;
    BlankSpaces(level);
    SplitLet(Spaces(level), name, gap, value, rest);
    LetExact("\n" + Spaces(level), name, gap, value, e, "\n" + rest);
  }

  lemma SplitCallLine(margin: string, callee: string, a: string, b: string, rest: string)
    ensures "\n" + ((margin + (callee + (a + (", " + (b + (");" + "\n")))))) + rest)
         == ("\n" + margin) + (callee + (a + (", " + (b + (");" + ("\n" + rest))))))
  {
  }

  lemma PushLineExact(level: nat, a: string, b: string, rest: string)
    requires IsWord(a) && IsWord(b)
    ensures ParseStmt("\n" + (CallLine(level, "vector::push_back(&mut ", a, b) + rest)) == Some((PushBack(a, b), "\n" + rest))
  {
    hide ParseStmt, Spaces;
    BlankSpaces(level);
    SplitCallLine(Spaces(level), "vector::push_back(&mut ", a, b, rest);
    PushBackExact("\n" + Spaces(level), a, b, "\n" + rest);
  }

  lemma AppendLineExact(level: nat, a: string, b: string, rest: string)
    requires IsWord(a) && IsWord(b)
    ensures ParseStmt("\n" + (CallLine(level, "vector::append(&mut ", a, b) + rest)) == Some((Append(a, b), "\n" + rest))
  {
    hide ParseStmt, Spaces;
    BlankSpaces(level);
    SplitCallLine(Spaces(level), "vector::append(&mut ", a, b, rest);
    AppendExact("\n" + Spaces(level), a, b, "\n" + rest);
  }

  lemma SplitPublish(ws: string, callee: string, signer: string, more: string)
    ensures ws + ((callee + (signer + ", ")) + more) == ws + (callee + (signer + (", " + more)))
  {
  }

  lemma {:induction false} PublishLineExact(level: nat, a: string, b: string, rest: string)
    requires IsWord(a) && IsWord(b)
    ensures ParseStmt("\n" + (CallLine(level, PUBLISH, a, b) + rest)) == Some((Publish("framework_signer", a, b), "\n" + rest))
  {
    hide ParseStmt, Spaces;
    BlankSpaces(level);
    SplitCallLine(Spaces(level), PUBLISH, a, b, rest);
    SplitPublish("\n" + Spaces(level), "code::publish_package_txn(&", "framework_signer",
                 a + (", " + (b + (");" + ("\n" + rest)))));
    PublishExact("\n" + Spaces(level), "framework_signer", a, b, "\n" + rest);
  }

  // The modules --------------------------------------------------------------------------------------

  /** The imports the calls of a script need. */
  predicate AllImported(uses: map<string, string>) {
    && Imported(uses, "std", "vector") && Imported(uses, "diem_framework", "diem_governance")
    && Imported(uses, "diem_framework", "code") && Imported(uses, "diem_framework", "version")
  }

  /** A script that has its imports and its signer. */
  predicate Ready(st: State) {
    AllImported(st.uses) && Lookup(st.env, "framework_signer") == Some(Signer)
  }

  /** One that has also collected these modules. */
  predicate Collected(st: State, code: seq<seq<Byte>>) {
    Ready(st) && Lookup(st.env, "code") == Some(List(code))
  }

  lemma {:induction false} BlobLineExact(level: nat, name: string, gap: string, data: seq<Byte>, rest: string)
    requires IsWord(name) && Blank(gap)
    ensures ParseStmt("\n" + (LetLine(level, name, gap, BlobText(level, data)) + rest))
         == Some((Let(name, VecLit(data)), "\n" + rest))
  {
    hide ParseStmt, ParseExpr, BlobText, LetLine;
    BlobExact(level, data, gap, ";" + ("\n" + rest));
    LetLineExact(level, name, gap, BlobText(level, data), VecLit(data), rest);
  }

  lemma {:induction false} RunOneModule(level: nat, i: nat, data: seq<Byte>, code: seq<seq<Byte>>, rest: string, st: State)
      returns (st': State)
    requires Collected(st, code)
    ensures Collected(st', code + [data]) && st'.events == st.events
    ensures Run("\n" + (LetLine(level, CodeName(i), " \n" + Spaces(level), BlobText(level, data))
              + (CallLine(level, "vector::push_back(&mut ", "code", CodeName(i)) + rest)), st)
         == Run("\n" + rest, st')
  {
    hide Run, ParseStmt, BlobText, LetLine, CallLine, Spaces, CodeName;
    NamesAreWords(i);
    CodeNameApart(i);
    BlankSpaces(level);
    assert Blank(" \n" + Spaces(level));
    var call := CallLine(level, "vector::push_back(&mut ", "code", CodeName(i)) + rest;
    BlobLineExact(level, CodeName(i), " \n" + Spaces(level), data, call);
    PushLineExact(level, "code", CodeName(i), rest);
    var st1 := st.(env := st.env[CodeName(i) := Bytes(data)]);
    st' := st1.(env := st1.env["code" := List(code + [data])]);
    RunStep("\n" + (LetLine(level, CodeName(i), " \n" + Spaces(level), BlobText(level, data)) + call), st,
            Let(CodeName(i), VecLit(data)), "\n" + call, st1);
    RunStep("\n" + call, st1, PushBack("code", CodeName(i)), "\n" + rest, st');
  }

  /** All modules are collected, in order. */
  lemma {:induction false} RunCode(level: nat, code: seq<seq<Byte>>, i: nat, rest: string, st: State) returns (st': State)
    requires i <= |code| && Collected(st, code[..i])
    ensures Collected(st', code) && st'.events == st.events
    ensures Run("\n" + (CodeText(level, code, i) + rest), st) == Run("\n" + rest, st')
    decreases |code| - i
  {
    hide Run, BlobText, LetLine, CallLine, Spaces, CodeName, Collected;
    if i == |code| {
      assert code[..i] == code && "" + rest == rest;
      st' := st;
    } else {
      var more := CodeText(level, code, i + 1);
      var st1 := RunOneModule(level, i, code[i], code[..i], more + rest, st);
      assert code[..i] + [code[i]] == code[..i + 1];
      st' := RunCode(level, code, i + 1, rest, st1);
      SplitTwo(LetLine(level, CodeName(i), " \n" + Spaces(level), BlobText(level, code[i])),
               CallLine(level, "vector::push_back(&mut ", "code", CodeName(i)), more, rest);
    }
  }

  lemma SplitTwo(a: string, b: string, c: string, rest: string)
    ensures (a + (b + c)) + rest == a + (b + (c + rest))
  {
  }

  // The metadata -------------------------------------------------------------------------------------

  /** The first `n` chunks are bound to their names, counted from one. */
  ghost predicate Bound(env: map<string, Value>, chunks: seq<seq<Byte>>, n: nat)
    requires n <= |chunks|
  {
    forall k: nat :: 1 <= k <= n ==> Lookup(env, ChunkName(k)) == Some(Bytes(chunks[k - 1]))
  }

  lemma BindChunk(st: State, code: seq<seq<Byte>>, chunks: seq<seq<Byte>>, i: nat) returns (st': State)
    requires 1 <= i <= |chunks| && Collected(st, code) && Bound(st.env, chunks, i - 1)
    ensures st' == st.(env := st.env[ChunkName(i) := Bytes(chunks[i - 1])])
    ensures Collected(st', code) && Bound(st'.env, chunks, i)
  {
    hide ChunkName;
    ChunkNameApart(i);
    st' := st.(env := st.env[ChunkName(i) := Bytes(chunks[i - 1])]);
    forall k: nat | 1 <= k <= i ensures Lookup(st'.env, ChunkName(k)) == Some(Bytes(chunks[k - 1])) {
      if ChunkName(k) == ChunkName(i) {
        ChunkNameInjective(k, i);
      }
    }
  }

  lemma {:induction false} RunChunks(level: nat, code: seq<seq<Byte>>, chunks: seq<seq<Byte>>, i: nat, rest: string, st: State)
      returns (st': State)
    requires 1 <= i <= |chunks| + 1 && Collected(st, code) && Bound(st.env, chunks, i - 1)
    ensures Collected(st', code) && Bound(st'.env, chunks, |chunks|) && st'.events == st.events
    ensures Run("\n" + (ChunksText(level, chunks[i - 1..], i) + rest), st) == Run("\n" + rest, st')
    decreases |chunks| + 1 - i
  {
    hide Run, ParseStmt, BlobText, LetLine, ChunkName, Collected, Bound;
    if i == |chunks| + 1 {
      assert chunks[i - 1..] == [] && "" + rest == rest;
      st' := st;
    } else {
      var line := LetLine(level, ChunkName(i), " ", BlobText(level, chunks[i - 1]));
      var more := ChunksText(level, chunks[i..], i + 1);
      NamesAreWords(i);
      BlobLineExact(level, ChunkName(i), " ", chunks[i - 1], more + rest);
      var st1 := BindChunk(st, code, chunks, i);
      RunStep("\n" + (line + (more + rest)), st, Let(ChunkName(i), VecLit(chunks[i - 1])), "\n" + (more + rest), st1);
      st' := RunChunks(level, code, chunks, i + 1, rest, st1);
      assert chunks[i - 1..][0] == chunks[i - 1] && chunks[i - 1..][1..] == chunks[i..];
      Assoc(line, more, rest);
    }
  }

  /** Chunks below `i` have been appended to the first, the others are still bound. */
  ghost predicate Joined(env: map<string, Value>, chunks: seq<seq<Byte>>, i: nat)
    requires 1 < i <= |chunks| + 1
  {
    && Lookup(env, ChunkName(1)) == Some(Bytes(Join(chunks[..i - 1])))
    && forall k: nat :: i <= k <= |chunks| ==> Lookup(env, ChunkName(k)) == Some(Bytes(chunks[k - 1]))
  }

  lemma JoinChunk(st: State, code: seq<seq<Byte>>, chunks: seq<seq<Byte>>, i: nat) returns (st': State)
    requires 1 < i <= |chunks| && Collected(st, code) && Joined(st.env, chunks, i)
    ensures Exec(Append(ChunkName(1), ChunkName(i)), st) == Some(st')
    ensures Collected(st', code) && Joined(st'.env, chunks, i + 1) && st'.events == st.events
  {
    hide ChunkName;
    ChunkNameApart(1);
    assert chunks[..i][..i - 1] == chunks[..i - 1];
    var joined := Join(chunks[..i - 1]) + chunks[i - 1];
    st' := st.(env := st.env[ChunkName(1) := Bytes(joined)]);
    forall k: nat | i + 1 <= k <= |chunks| ensures Lookup(st'.env, ChunkName(k)) == Some(Bytes(chunks[k - 1])) {
      if ChunkName(k) == ChunkName(1) {
        ChunkNameInjective(k, 1);
      }
    }
  }

  lemma {:induction false} RunAppends(level: nat, code: seq<seq<Byte>>, chunks: seq<seq<Byte>>, i: nat, rest: string, st: State)
      returns (st': State)
    requires 1 < i <= |chunks| + 1 && Collected(st, code) && Joined(st.env, chunks, i)
    ensures Collected(st', code) && Lookup(st'.env, ChunkName(1)) == Some(Bytes(Join(chunks))) && st'.events == st.events
    ensures Run("\n" + (AppendsText(level, i, |chunks|) + rest), st) == Run("\n" + rest, st')
    decreases |chunks| + 1 - i
  {
    hide Run, ParseStmt, Exec, CallLine, ChunkName, Collected;
    if i == |chunks| + 1 {
      assert chunks[..i - 1] == chunks && "" + rest == rest;
      st' := st;
    } else {
      FirstChunkName();
      NamesAreWords(1);
      NamesAreWords(i);
      var line := CallLine(level, "vector::append(&mut ", "metadata_chunk1", ChunkName(i));
      var more := AppendsText(level, i + 1, |chunks|);
      AppendLineExact(level, ChunkName(1), ChunkName(i), more + rest);
      var st1 := JoinChunk(st, code, chunks, i);
      RunStep("\n" + (line + (more + rest)), st, Append(ChunkName(1), ChunkName(i)), "\n" + (more + rest), st1);
      st' := RunAppends(level, code, chunks, i + 1, rest, st1);
      Assoc(line, more, rest);
    }
  }

  lemma AllBoundNoneJoined(env: map<string, Value>, chunks: seq<seq<Byte>>)
    requires chunks != [] && Bound(env, chunks, |chunks|)
    ensures Joined(env, chunks, 2)
  {
    hide ChunkName;
    assert chunks[..1] == [] + [chunks[0]] && chunks[..1][..0] == [];
    assert Join(chunks[..1]) == [] + chunks[0] == chunks[0];
    var one: nat := 1;
    assert Lookup(env, ChunkName(one)) == Some(Bytes(chunks[one - 1]));
  }

  lemma SplitBody(b: string, c: string, d: string, e: string, f: string, rest: string)
    ensures "\n" + ((b + (c + (d + (e + f)))) + rest) == "\n" + (b + (c + (d + (e + (f + rest)))))
  {
  }

  lemma {:induction false} RunModules(code: seq<seq<Byte>>, rest: string, st: State) returns (st': State)
    requires Ready(st)
    ensures Collected(st', code) && st'.events == st.events
    ensures Run("\n" + (LetLine(2, "code", " ", "vector::empty()") + (CodeText(2, code, 0) + rest)), st) == Run("\n" + rest, st')
  {
    hide Run, ParseStmt, ParseExpr, LetLine, CodeText;
    var text := CodeText(2, code, 0) + rest;
    EmptyExact(" ", ";" + ("\n" + text));
    LetLineExact(2, "code", " ", "vector::empty()", EmptyVec, text);
    var st1 := st.(env := st.env["code" := List([])]);
    RunStep("\n" + (LetLine(2, "code", " ", "vector::empty()") + text), st, Let("code", EmptyVec), "\n" + text, st1);
    assert code[..0] == [];
    st' := RunCode(2, code, 0, rest, st1);
  }

  lemma {:induction false} RunMetadata(code: seq<seq<Byte>>, metadata: seq<Byte>, rest: string, st: State) returns (st': State)
    requires Collected(st, code)
    ensures Collected(st', code) && Lookup(st'.env, "metadata_chunk1") == Some(Bytes(metadata)) && st'.events == st.events
    ensures Run("\n" + (ChunksText(2, Chunks(metadata), 1) + (AppendsText(2, 2, |Chunks(metadata)|) + rest)), st)
         == Run("\n" + rest, st')
  {
    hide Run, Collected, ChunksText, AppendsText, Bound, Joined, Join, Lookup, ChunkName;
    var chunks := Chunks(metadata);
    NoneBound(st.env, chunks);
    assert chunks[0..] == chunks;
    var st1 := RunChunks(2, code, chunks, 1, AppendsText(2, 2, |chunks|) + rest, st);
    AllBoundNoneJoined(st1.env, chunks);
    st' := RunAppends(2, code, chunks, 2, rest, st1);
    ChunksMeaning(metadata);
    FirstChunkName();
  }

  lemma {:induction false} RunPublish(code: seq<seq<Byte>>, metadata: seq<Byte>, rest: string, st: State) returns (st': State)
    requires Collected(st, code) && Lookup(st.env, "metadata_chunk1") == Some(Bytes(metadata))
    ensures st' == st.(events := st.events + [Published(metadata, code)])
    ensures Run("\n" + (CallLine(2, PUBLISH, "metadata_chunk1", "code") + rest), st) == Run("\n" + rest, st')
  {
    hide Run, ParseStmt, CallLine;
    st' := st.(events := st.events + [Published(metadata, code)]);
    PublishLineExact(2, "metadata_chunk1", "code", rest);
    RunStep("\n" + (CallLine(2, PUBLISH, "metadata_chunk1", "code") + rest), st,
            Publish("framework_signer", "metadata_chunk1", "code"), "\n" + rest, st');
  }

  /** The statements after the proposal was resolved publish the package. */
  lemma {:induction false} RunPackage(package: Package, rest: string, st: State) returns (st': State)
    requires Ready(st)
    ensures Ready(st')
    ensures st'.events == st.events + [Published(package.metadata, package.code)]
    ensures var chunks := Chunks(package.metadata);
      Run("\n" + ((LetLine(2, "code", " ", "vector::empty()") + (CodeText(2, package.code, 0) + (ChunksText(2, chunks, 1)
        + (AppendsText(2, 2, |chunks|) + CallLine(2, PUBLISH, "metadata_chunk1", "code"))))) + rest), st)
      == Run("\n" + rest, st')
  {
    hide Run, LetLine, CallLine, CodeText, ChunksText, AppendsText, Chunks;
    var (chunks, code) := (Chunks(package.metadata), package.code);
    var publish := CallLine(2, PUBLISH, "metadata_chunk1", "code");
    var appends := AppendsText(2, 2, |chunks|);
    SplitBody(LetLine(2, "code", " ", "vector::empty()"), CodeText(2, code, 0), ChunksText(2, chunks, 1), appends, publish, rest);
    var st1 := RunModules(code, ChunksText(2, chunks, 1) + (appends + (publish + rest)), st);
    var st2 := RunMetadata(code, package.metadata, publish + rest, st1);
    st' := RunPublish(code, package.metadata, rest, st2);
  }

  lemma NoneBound(env: map<string, Value>, chunks: seq<seq<Byte>>)
    ensures Bound(env, chunks, 0)
  {
  }

  // The end of the script ------------------------------------------------------------------------------

  /** The text after the last statement. */
  function EndText(git: string): string {
    "framework_signer" + (", x\"" + (git + ("\")" + ("\n" + (Spaces(1) + ("}" + ("\n" + ("}" + "\n"))))))))
  }

  lemma SplitEnd(m2: string, m1: string, lit: string, git: string)
    ensures "\n" + ((m2 + (lit + ("framework_signer" + (", x\"" + (git + "\")")))))
              + ("\n" + ((m1 + "}") + ("\n" + (("" + "}") + ("\n" + ""))))))
         == ("\n" + m2) + (lit + ("framework_signer" + (", x\"" + (git + ("\")" + ("\n" + (m1 + ("}" + ("\n" + ("}" + "\n"))))))))))
  {
  }

  lemma LinesUnfold(line: Line, more: seq<Line>)
    requires line.text != ""
    ensures LinesText([line] + more) == (Spaces(line.level) + line.text) + ("\n" + LinesText(more))
  {
    hide Spaces;
    assert ([line] + more)[1..] == more;
  }

  lemma MarginZero()
    ensures Spaces(0) == ""
  {
  }

  lemma ClosingSplit(git: string)
    ensures "\n" + LinesText(ClosingLines(git)) == ("\n" + Spaces(2)) + ("version::upgrade_set_git(&" + EndText(git))
  {
    hide Spaces, LinesText;
    var last := [Line(0, "}")];
    var lit := "version::upgrade_set_git(&";
    LinesNil();
    assert last == last + [];
    LinesUnfold(Line(0, "}"), []);
    LinesUnfold(Line(1, "}"), last);
    LinesUnfold(ClosingLines(git)[0], [Line(1, "}")] + last);
    assert ClosingLines(git) == [ClosingLines(git)[0]] + ([Line(1, "}")] + last);
    MarginZero();
    SplitEnd(Spaces(2), Spaces(1), lit, git);
  }

  /** The last call is no statement the interpreter would run. */
  lemma {:induction false} RunStops(ws: string, more: string, st: State)
    requires Blank(ws)
    ensures var s := ws + ("version::upgrade_set_git(&" + more);
      Run(s, st) == Some((st, s))
  {
    hide Eat, ParseLet, ParsePair, ParsePublish;
    var lit := "version::upgrade_set_git(&";
    EatDiffers(ws, lit, more, "let ", 0);
    EatDiffers(ws, lit, more, "vector::push_back(&mut ", 2);
    EatDiffers(ws, lit, more, "vector::append(&mut ", 2);
    EatDiffers(ws, lit, more, "code::publish_package_txn(&", 0);
  }

  lemma BracesExact(margin: string)
    requires Blank(margin)
    ensures var s := "\n" + (margin + ("}" + ("\n" + ("}" + "\n"))));
      Eat(s, "}") == Some("\n" + ("}" + "\n")) && Eat("\n" + ("}" + "\n"), "}") == Some("\n") && Skip("\n") == ""
  {
    hide Eat;
    Assoc("\n", margin, "}" + ("\n" + ("}" + "\n")));
    EatExact("\n" + margin, "}", "\n" + ("}" + "\n"));
    EatExact("\n", "}", "\n");
    SkipBlank("\n", "");
    assert "\n" + "" == "\n";
  }

  /** The end of the script records the commit, if it reads as hexadecimal. */
  lemma FinishExact(ws: string, git: string, st: State)
    requires Blank(ws) && IsWord(git) && Ready(st)
    ensures var hash := Hex.Decode(git);
      Finish(ws + ("version::upgrade_set_git(&" + EndText(git)), st)
      == if hash.Some? then Some(st.events + [GitSet(hash.value)]) else None
  {
    hide Eat, Skip, ReadWord, Hex.Decode, Expect, Spaces;
    var braces := "\n" + (Spaces(1) + ("}" + ("\n" + ("}" + "\n"))));
    var r3 := "\")" + braces;
    EatExact(ws, "version::upgrade_set_git(&", EndText(git));
    ReadWordExact("framework_signer", ", x\"" + (git + r3));
    ExpectRoundTrip(", x\"", git + r3);
    WordLenExact(git, r3);
    ExpectRoundTrip("\")", braces);
    BlankSpaces(1);
    BracesExact(Spaces(1));
  }

  // The beginning of the script ------------------------------------------------------------------------

  predicate IsComment(line: Line) {
    OneLine(line.text) && (line.text == "" || "//" <= line.text)
  }

  lemma SplitLine(margin: string, text: string, more: string, rest: string)
    ensures ((margin + text) + ("\n" + more)) + rest == margin + (text + ("\n" + (more + rest)))
  {
  }

  /** Comment lines and empty lines are skipped. */
  lemma {:induction false} CommentsSkipped(lines: seq<Line>, rest: string)
    requires AllComments(lines)
    ensures Skip(LinesText(lines) + rest) == Skip(rest)
  {
    hide Spaces, Skip;
    if lines == [] {
      assert "" + rest == rest;
    } else {
      CommentsSkipped(lines[1..], rest);
      var (text, more) := (lines[0].text, LinesText(lines[1..]));
      assert IsComment(lines[0]);
      BlankSpaces(lines[0].level);
      if text == "" {
        SplitLine("", "", more, rest);
        assert "" + ("" + ("\n" + (more + rest))) == "\n" + (more + rest);
        SkipBlank("\n", more + rest);
      } else {
        SplitLine(Spaces(lines[0].level), text, more, rest);
        SkipBlank(Spaces(lines[0].level), text + ("\n" + (more + rest)));
        SkipComment(text, more + rest);
      }
    }
  }

  lemma {:induction false} EncodeOneLine(bs: seq<Byte>)
    ensures OneLine(Hex.Encode(bs))
  {
    if bs != [] {
      EncodeOneLine(bs[1..]);
    }
  }

  lemma WordOneLine(s: string)
    requires IsWord(s)
    ensures OneLine(s)
  {
  }

  lemma CommentLine(level: nat, prefix: string, s: string)
    requires OneLine(prefix) && OneLine(s) && "//" <= prefix
    ensures IsComment(Line(level, prefix + s))
  {
  }

  function HeaderText(package: Package, next: seq<Byte>, git: string, builder: string): string {
    LinesText(HeaderLines(package, next, git, builder))
  }

  /** The header of a script means nothing: everything in it is blank or a comment. */
  predicate HeaderIsComment(package: Package, next: seq<Byte>, git: string, builder: string) {
    Skip(HeaderText(package, next, git, builder)) == ""
  }

  /** So it is when the texts in it are on one line, as the builder's and the package's are meant to be. */
  lemma OneLineHeader(package: Package, next: seq<Byte>, git: string, builder: string)
    requires OneLine(package.name) && OneLine(package.digest) && OneLine(builder) && IsWord(git)
    ensures HeaderIsComment(package, next, git, builder)
  {
    hide Skip, LinesText, IsComment, Hex.Encode;
    CommentLine(0, "// Upgrade proposal for package `" + package.name, "`");
    RestOfHeader(package, next, git, builder);
    var lines := HeaderLines(package, next, git, builder);
    CommentsCons(lines[0], lines[1..]);
    assert lines == [lines[0]] + lines[1..];
    CommentsSkipped(lines, "");
    assert LinesText(lines) + "" == LinesText(lines);
    assert Skip("") == "" by { SkipNothing(); }
  }

  lemma SkipNothing()
    ensures Skip("") == ""
  {
  }

  lemma RestOfHeader(package: Package, next: seq<Byte>, git: string, builder: string)
    requires OneLine(package.digest) && OneLine(builder) && IsWord(git)
    ensures AllComments(HeaderLines(package, next, git, builder)[1..])
  {
    hide IsComment, AllComments, Hex.Encode;
    EncodeOneLine(next);
    WordOneLine(git);
    EmptyIsComment();
    var lines := HeaderLines(package, next, git, builder);
    CommentLine(0, "// Framework commit hash: ", git);
    CommentLine(0, "// Builder commit hash: ", builder);
    CommentLine(0, "// Next step script hash: ", Hex.Encode(next));
    CommentLine(0, "// source digest: ", package.digest);
    SevenComments(lines[1], lines[2], lines[3], lines[4], lines[5], lines[6], lines[7]);
    assert lines[1..] == [lines[1], lines[2], lines[3], lines[4], lines[5], lines[6], lines[7]];
  }

  lemma SevenComments(a: Line, b: Line, c: Line, d: Line, e: Line, f: Line, g: Line)
    requires IsComment(a) && IsComment(b) && IsComment(c) && IsComment(d) && IsComment(e) && IsComment(f) && IsComment(g)
    ensures AllComments([a, b, c, d, e, f, g])
  {
    hide IsComment;
  }

  predicate AllComments(lines: seq<Line>) {
    forall i :: 0 <= i < |lines| ==> IsComment(lines[i])
  }

  lemma CommentsCons(line: Line, lines: seq<Line>)
    requires IsComment(line) && AllComments(lines)
    ensures AllComments([line] + lines)
  {
  }

  lemma {:induction false} LineEndsOutside(s: string, rest: string)
    ensures LineLen(s + ("\n" + rest)) == LineLen(s)
  {
    if s == "" {
      assert s + ("\n" + rest) == "\n" + rest;
    } else {
      LineEndsOutside(s[1..], rest);
      assert (s + ("\n" + rest))[1..] == s[1..] + ("\n" + rest);
    }
  }

  /** What is left of whole lines does not depend on the lines behind them. */
  lemma {:induction false} SkipLines(s: string, rest: string)
    ensures Skip(s + ("\n" + rest)) == if Skip(s) == "" then Skip(rest) else Skip(s) + ("\n" + rest)
    decreases |s|
  {
    var all := s + ("\n" + rest);
    if s == "" {
      assert all == "\n" + rest;
      SkipBlank("\n", rest);
    } else if IsSpace(s[0]) {
      assert all[1..] == s[1..] + ("\n" + rest);
      SkipLines(s[1..], rest);
    } else if "//" <= s {
      assert LineLen(s) == 1 + LineLen(s[1..]);
      LineEndsOutside(s, rest);
      assert "//" <= all && all[LineLen(s)..] == s[LineLen(s)..] + ("\n" + rest);
      SkipLines(s[LineLen(s)..], rest);
    } else {
      assert all[0] == s[0] && all[1] == (if |s| > 1 then s[1] else '\n');
      assert !("//" <= all);
    }
  }

  lemma {:induction false} LinesEnd(lines: seq<Line>)
    requires lines != []
    ensures LinesText(lines) != "" && LinesText(lines)[|LinesText(lines)| - 1] == '\n'
  {
    hide Spaces;
    if |lines| > 1 {
      LinesEnd(lines[1..]);
    }
  }

  /** The header is passed over, or the script is still ahead of what is left of it. */
  lemma HeaderDecides(header: string, script: string)
    requires header != "" && header[|header| - 1] == '\n' && Solid(script)
    ensures Ahead(header + script, script)
    ensures Skip(header + script) == script <==> Skip(header) == ""
  {
    hide Skip, Ahead, Solid;
    var s := header[..|header| - 1];
    HeaderSplit(header, s, script);
    SkipLines(s, "");
    SkipLines(s, script);
    SkipNothing();
    SkipSolid(script, "");
    assert script + "" == script;
    if Skip(s) != "" {
      assert |Skip(s) + ("\n" + script)| > |script|;
    }
  }

  lemma HeaderSplit(header: string, s: string, script: string)
    requires header != "" && header[|header| - 1] == '\n' && s == header[..|header| - 1]
    ensures header == s + ("\n" + "") && header + script == s + ("\n" + script)
    ensures Ahead(header + script, script)
  {
  }

  lemma EmptyIsComment()
    ensures IsComment(Line(0, ""))
  {
  }

  lemma SplitUse(margin: string, addr: string, name: string, more: string, rest: string)
    ensures "\n" + (((margin + ("use " + (addr + ("::" + (name + ";"))))) + ("\n" + more)) + rest)
         == ("\n" + margin) + ("use " + (addr + ("::" + (name + (";" + ("\n" + (more + rest)))))))
  {
  }

  lemma ParseUseExact(addr: string, name: string, tail: string)
    requires IsWord(addr) && IsWord(name)
    ensures ParseUse(addr + ("::" + (name + (";" + tail)))) == Some(((addr, name), tail))
  {
    hide Eat;
    ReadWordExact(addr, "::" + (name + (";" + tail)));
    ExpectRoundTrip("::", name + (";" + tail));
    ReadWordExact(name, ";" + tail);
    assert "" + (";" + tail) == ";" + tail;
    EatExact("", ";", tail);
  }

  lemma UseRead(addr: string, name: string, more: seq<Line>, rest: string, uses: map<string, string>)
    requires IsWord(addr) && IsWord(name)
    ensures ReadUses("\n" + (LinesText([UseLine(addr, name)] + more) + rest), uses)
         == ReadUses("\n" + (LinesText(more) + rest), uses[name := addr])
  {
    hide LinesText, Spaces, Eat, ParseUse;
    var tail := "\n" + (LinesText(more) + rest);
    LinesUnfold(UseLine(addr, name), more);
    SplitUse(Spaces(1), addr, name, LinesText(more), rest);
    BlankSpaces(1);
    EatExact("\n" + Spaces(1), "use ", addr + ("::" + (name + (";" + tail))));
    ParseUseExact(addr, name, tail);
  }

  /** The imports of a text, and what follows the head of its function. */
  function Head(s: string, uses: map<string, string>): (map<string, string>, Option<string>) {
    var (all, rest) := ReadUses(s, uses);
    (all, Eat(rest, "fun main("))
  }

  lemma HeadAfterBlank(ws: string, s: string, uses: map<string, string>)
    requires Blank(ws)
    ensures Head(ws + s, uses) == Head(s, uses)
  {
    hide ParseUse;
    SkipBlank(ws, s);
  }

  lemma EmptyLineSkipped(more: seq<Line>, rest: string, uses: map<string, string>)
    ensures Head("\n" + (LinesText([Line(1, "")] + more) + rest), uses) == Head("\n" + (LinesText(more) + rest), uses)
  {
    hide Spaces, Head;
    var lines := [Line(1, "")] + more;
    assert lines[1..] == more;
    assert "\n" + (LinesText(lines) + rest) == "\n" + ("\n" + (LinesText(more) + rest));
    HeadAfterBlank("\n", "\n" + (LinesText(more) + rest), uses);
  }

  lemma SplitMain(margin: string, rest: string)
    ensures "\n" + (((margin + ("fun main(" + ("proposal_id" + ": u64){"))) + ("\n" + "")) + rest)
         == ("\n" + margin) + ("fun main(" + ("proposal_id" + (": u64){" + ("\n" + rest))))
  {
  }

  lemma MainReached(rest: string, uses: map<string, string>)
    ensures Head("\n" + (LinesText([Line(1, "fun main(" + ("proposal_id" + ": u64){"))]) + rest), uses)
         == (uses, Some("proposal_id" + (": u64){" + ("\n" + rest))))
  {
    hide Spaces, LinesText, Eat;
    var line := Line(1, "fun main(" + ("proposal_id" + ": u64){"));
    var more := "proposal_id" + (": u64){" + ("\n" + rest));
    assert [line] == [line] + [];
    LinesUnfold(line, []);
    LinesNil();
    SplitMain(Spaces(1), rest);
    BlankSpaces(1);
    EatDiffers("\n" + Spaces(1), "fun main(", more, "use ", 0);
    EatExact("\n" + Spaces(1), "fun main(", more);
  }

  /** The imports a generated script has. */
  function Imports(): (uses: map<string, string>) {
    map["vector" := "std"]["diem_governance" := "diem_framework"]["code" := "diem_framework"]["version" := "diem_framework"]
  }

  lemma ImportsSuffice()
    ensures AllImported(Imports())
  {
  }

  lemma UsesRead(rest: string)
    ensures var main := [Line(1, "fun main(" + ("proposal_id" + ": u64){"))];
      Head("\n" + (LinesText(OpeningLines()[1..]) + rest), map[]) == Head("\n" + (LinesText(main) + rest), Imports())
  {
    hide LinesText, Spaces, Eat, ReadUses, UseLine;
    var l7 := [Line(1, "fun main(" + ("proposal_id" + ": u64){"))];
    var l6 := [Line(1, "")] + l7;
    var l5 := [UseLine("diem_framework", "version")] + l6;
    var l4 := [Line(1, "")] + l5;
    var l3 := [UseLine("diem_framework", "code")] + l4;
    var l2 := [UseLine("diem_framework", "diem_governance")] + l3;
    var l1 := [UseLine("std", "vector")] + l2;
    assert OpeningLines()[1..] == l1;
    var u1 := map["vector" := "std"];
    var u2 := u1["diem_governance" := "diem_framework"];
    var u3 := u2["code" := "diem_framework"];
    assert map[]["vector" := "std"] == u1;
    UseRead("std", "vector", l2, rest, map[]);
    UseRead("diem_framework", "diem_governance", l3, rest, u1);
    UseRead("diem_framework", "code", l4, rest, u2);
    EmptyLineSkipped(l5, rest, u3);
    UseRead("diem_framework", "version", l6, rest, u3);
    EmptyLineSkipped(l7, rest, Imports());
  }

  /** The imports are read, and the parameter of the script's function is next. */
  lemma {:induction false} OpeningExact(rest: string)
    ensures var r0 := Eat(LinesText(OpeningLines()) + rest, "script {");
      r0.Some? && Head(r0.value, map[]) == (Imports(), Some("proposal_id" + (": u64){" + ("\n" + rest))))
  {
    hide LinesText, Spaces, Eat, ReadUses, UseLine, Head, Imports;
    var script := Line(0, "script {");
    var l1 := OpeningLines()[1..];
    assert OpeningLines() == [script] + l1;
    LinesUnfold(script, l1);
    SplitLine(Spaces(0), "script {", LinesText(l1), rest);
    BlankSpaces(0);
    EatExact(Spaces(0), "script {", "\n" + (LinesText(l1) + rest));
    UsesRead(rest);
    MainReached(rest, Imports());
  }

  // The whole script -------------------------------------------------------------------------------------

  lemma ResolveExprExact(addr: string, next: seq<Byte>, gap: string, rest: string)
    requires IsWord(addr) && Blank(gap)
    ensures ParseExpr(gap + (ResolveValue(2, addr, next) + rest)) == Some((Resolve("proposal_id", addr, HashExpr(next)), rest))
  {
    hide ParseResolve, Eat, ParseElems, ResolveValue, HashExpr;
    ResolveExact(2, addr, next, gap, rest);
    var more := ResolveTail(addr, next);
    ResolveHead(addr, next);
    SplitHead(gap, "diem_governance::", more, rest);
    EatDiffers(gap, "diem_governance::", more + rest, "vector[", 0);
    EatDiffers(gap, "diem_governance::", more + rest, "vector::empty()", 0);
  }

  lemma SplitHead(gap: string, head: string, more: string, rest: string)
    ensures gap + ((head + more) + rest) == gap + (head + (more + rest))
  {
  }

  function ResolveTail(addr: string, next: seq<Byte>): string {
    ResolveValue(2, addr, next)[|"diem_governance::"|..]
  }

  lemma ResolveHead(addr: string, next: seq<Byte>)
    ensures ResolveValue(2, addr, next) == "diem_governance::" + ResolveTail(addr, next)
  {
  }

  lemma {:induction false} RunBlank(ws: string, s: string, st: State)
    requires Blank(ws) && ParseStmt(s).Some?
    ensures Run(ws + s, st) == Run(s, st)
  {
    hide ParseLet, ParsePair, ParsePublish, Eat, Exec;
    EatBlank(ws, s, "let ");
    EatBlank(ws, s, "vector::push_back(&mut ");
    EatBlank(ws, s, "vector::append(&mut ");
    EatBlank(ws, s, "code::publish_package_txn(&");
  }

  lemma EatBlank(ws: string, s: string, lit: string)
    requires Blank(ws)
    ensures Eat(ws + s, lit) == Eat(s, lit)
  {
    SkipBlank(ws, s);
  }

  lemma HashEvaluates(next: seq<Byte>, uses: map<string, string>)
    requires AllImported(uses)
    ensures EvalHash(HashExpr(next), uses) == Some(Embedded(next))
  {
  }

  /** The state in which the statements start. */
  function Start(): State {
    State(Imports(), map["proposal_id" := Proposal], [])
  }

  lemma {:induction false} RunResolve(addr: string, next: seq<Byte>, rest: string) returns (st: State)
    requires IsWord(addr) && ParseStmt("\n" + rest).Some?
    ensures Ready(st) && st.events == [Resolved(addr, Embedded(next))]
    ensures Run("\n" + (ResolveText(2, addr, next) + rest), Start()) == Run("\n" + rest, st)
  {
    hide Run, ParseStmt, ParseExpr, LetLine, ResolveValue, HashExpr, Embedded, SENTINEL, Imports, EvalHash;
    var (start, value) := (Start(), ResolveValue(2, addr, next));
    var line := LetLine(2, "framework_signer", " ", value);
    var more := (if next == SENTINEL then "\n" else "") + rest;
    var resolve := Resolve("proposal_id", addr, HashExpr(next));
    ResolveExprExact(addr, next, " ", ";" + ("\n" + more));
    LetLineExact(2, "framework_signer", " ", value, resolve, more);
    ImportsSuffice();
    HashEvaluates(next, Imports());
    st := State(Imports(), start.env["framework_signer" := Signer], [Resolved(addr, Embedded(next))]);
    assert [] + [Resolved(addr, Embedded(next))] == st.events;
    RunStep("\n" + (line + more), start, Let("framework_signer", resolve), "\n" + more, st);
    Assoc(line, if next == SENTINEL then "\n" else "", rest);
    if next == SENTINEL {
      RunBlank("\n", "\n" + rest, st);
    } else {
      assert more == rest;
    }
  }

  lemma PackageStarts(others: string, rest: string)
    ensures ParseStmt("\n" + ((LetLine(2, "code", " ", "vector::empty()") + others) + rest)).Some?
  {
    hide ParseStmt, ParseExpr, LetLine;
    var bind := LetLine(2, "code", " ", "vector::empty()");
    assert (bind + others) + rest == bind + (others + rest);
    EmptyExact(" ", ";" + ("\n" + (others + rest)));
    LetLineExact(2, "code", " ", "vector::empty()", EmptyVec, others + rest);
  }

  /** The statements of the script: the proposal is resolved, then the package is published, and nothing else happens. */
  lemma {:induction false} RunBody(package: Package, addr: string, next: seq<Byte>, rest: string) returns (st: State)
    requires IsWord(addr)
    ensures Ready(st)
    ensures st.events == [Resolved(addr, Embedded(next)), Published(package.metadata, package.code)]
    ensures Run("\n" + (BodyText(package, addr, next) + rest), Start()) == Run("\n" + rest, st)
  {
    hide Run, ParseStmt, LetLine, CallLine, CodeText, ChunksText, AppendsText, ResolveText, Chunks, Embedded;
    var chunks := Chunks(package.metadata);
    var others := CodeText(2, package.code, 0) + (ChunksText(2, chunks, 1) + (AppendsText(2, 2, |chunks|)
      + CallLine(2, PUBLISH, "metadata_chunk1", "code")));
    var statements := LetLine(2, "code", " ", "vector::empty()") + others;
    PackageStarts(others, rest);
    assert (ResolveText(2, addr, next) + statements) + rest == ResolveText(2, addr, next) + (statements + rest);
    var st1 := RunResolve(addr, next, statements + rest);
    st := RunPackage(package, rest, st1);
  }

  /** What a script with a header that means nothing does. */
  lemma {:induction false} BodyPublishesPackage(package: Package, addr: string, next: seq<Byte>, git: string, builder: string)
    requires IsWord(addr) && IsWord(git) && HeaderIsComment(package, next, git, builder)
    ensures var hash := Hex.Decode(git);
      Execute(ScriptText(package, addr, next, git, builder))
      == if hash.None? then None
         else Some([Resolved(addr, Embedded(next)), Published(package.metadata, package.code), GitSet(hash.value)])
  {
    hide LinesText, BodyText, Run, Finish, Eat, Skip, ReadUses, Imports, HeaderLines, OpeningLines, ClosingLines;
    hide Embedded, Hex.Decode, EndText, Spaces;
    var (body, end) := (BodyText(package, addr, next), LinesText(ClosingLines(git)));
    var rest := body + end;
    HeaderEaten(package, next, git, builder, LinesText(OpeningLines()) + rest);
    OpeningExact(rest);
    ReadWordExact("proposal_id", ": u64){" + ("\n" + rest));
    ExpectRoundTrip(": u64){", "\n" + rest);
    var st := RunBody(package, addr, next, end);
    ClosingSplit(git);
    BlankSpaces(2);
    RunStops("\n" + Spaces(2), EndText(git), st);
    FinishExact("\n" + Spaces(2), git, st);
    JoinEvents(st.events, Resolved(addr, Embedded(next)), Published(package.metadata, package.code));
  }

  /**
   * Executing a generated script resolves the proposal, publishes exactly the package it was generated from,
   * and records the commit. The script is valid exactly when its header holds nothing but comments and the
   * commit is a hexadecimal string; nothing a name or a digest smuggles into the header is ever executed.
   */
  lemma {:induction false} ScriptPublishesPackage(package: Package, addr: string, next: seq<Byte>, git: string, builder: string)
    requires IsWord(addr) && IsWord(git)
    ensures var hash := Hex.Decode(git);
      Execute(ScriptText(package, addr, next, git, builder))
      == if hash.None? || !HeaderIsComment(package, next, git, builder) then None
         else Some([Resolved(addr, Embedded(next)), Published(package.metadata, package.code), GitSet(hash.value)])
  {
    hide Execute, ScriptText, HeaderIsComment, Embedded, Hex.Decode;
    if HeaderIsComment(package, next, git, builder) {
      BodyPublishesPackage(package, addr, next, git, builder);
    } else {
      HeaderSpoils(package, addr, next, git, builder);
    }
  }

  lemma HeaderSpoils(package: Package, addr: string, next: seq<Byte>, git: string, builder: string)
    requires !HeaderIsComment(package, next, git, builder)
    ensures Execute(ScriptText(package, addr, next, git, builder)) == None
  {
    hide Execute, Skip, Ahead, LinesText, HeaderLines, BodyText, ClosingLines;
    var header := HeaderText(package, next, git, builder);
    var rest := BodyText(package, addr, next) + LinesText(ClosingLines(git));
    var script := LinesText(OpeningLines()) + rest;
    HeaderNotEmpty(package, next, git, builder);
    LinesEnd(HeaderLines(package, next, git, builder));
    OpeningStarts(rest);
    HeaderDecides(header, script);
    ExecuteAhead(header + script, script);
  }

  lemma HeaderNotEmpty(package: Package, next: seq<Byte>, git: string, builder: string)
    ensures HeaderLines(package, next, git, builder) != []
  {
  }

  lemma OpeningStarts(rest: string)
    ensures "script {" <= LinesText(OpeningLines()) + rest && Solid(LinesText(OpeningLines()) + rest)
  {
    hide LinesText, Spaces, UseLine;
    assert OpeningLines() == [Line(0, "script {")] + OpeningLines()[1..];
    LinesUnfold(Line(0, "script {"), OpeningLines()[1..]);
    MarginZero();
    SplitLine("", "script {", LinesText(OpeningLines()[1..]), rest);
    assert LinesText(OpeningLines()) + rest == "script {" + ("\n" + (LinesText(OpeningLines()[1..]) + rest));
  }

  lemma JoinEvents(events: seq<Event>, a: Event, b: Event)
    requires events == [a, b]
    ensures forall c :: events + [c] == [a, b, c]
  {
  }

  lemma HeaderEaten(package: Package, next: seq<Byte>, git: string, builder: string, script: string)
    requires HeaderIsComment(package, next, git, builder)
    ensures Eat(LinesText(HeaderLines(package, next, git, builder)) + script, "script {") == Eat(script, "script {")
  {
    hide Skip, LinesText, HeaderLines;
    var header := HeaderText(package, next, git, builder);
    HeaderNotEmpty(package, next, git, builder);
    LinesEnd(HeaderLines(package, next, git, builder));
    var s := header[..|header| - 1];
    assert header == s + ("\n" + "") && header + script == s + ("\n" + script);
    SkipLines(s, "");
    SkipLines(s, script);
  }

  /** What is written for a repository whose head has no commit makes the script invalid. */
  lemma {:induction false} WithoutCommit(package: Package, addr: string, next: seq<Byte>, builder: string)
    requires IsWord(addr)
    ensures Execute(ScriptText(package, addr, next, "none", builder)) == None
  {
    hide Execute, ScriptText;
    assert Hex.Decode("none") == None by {
      assert Hex.DigitValue("none"[0]) == None;
    }
    ScriptPublishesPackage(package, addr, next, "none", builder);
  }

  /** In every valid script the hash reaches the framework unless it spells the text the generator compares it with. */
  lemma {:induction false} HashArrives(package: Package, addr: string, next: seq<Byte>, git: string, builder: string)
    requires IsWord(addr) && IsWord(git)
    ensures var es := Execute(ScriptText(package, addr, next, git, builder));
      es.Some? ==> es.value != [] && (es.value[0] == Resolved(addr, next) <==> next != SENTINEL)
  {
    hide Execute, ScriptText;
    ScriptPublishesPackage(package, addr, next, git, builder);
  }

  /** No SHA3 hash, and not the empty one of the last script, is taken for that text. */
  lemma HashIsEmbedded(next: seq<Byte>)
    requires |next| == 32 || next == []
    ensures Embedded(next) == next
  {
  }

  lemma SplitName(prefix: string, a: string, b: string, more: string)
    ensures ("" + (prefix + (a + ("\n" + b)) + "`")) + ("\n" + more) == (prefix + a) + ("\n" + ((b + "`") + ("\n" + more)))
  {
  }

  /**
   * A package name with a line break: its later lines are read as part of the script, so the script is valid
   * exactly when nothing but comments is left of them.
   */
  lemma {:induction false} NameWithLineBreak(package: Package, a: string, b: string, next: seq<Byte>, git: string, builder: string)
    requires package.name == a + ("\n" + b) && OneLine(a)
    requires OneLine(package.digest) && OneLine(builder) && IsWord(git)
    ensures HeaderIsComment(package, next, git, builder) <==> Skip(b + "`") == ""
  {
    hide Spaces, Skip, LinesText, IsComment;
    var prefix := "// Upgrade proposal for package `";
    var lines := HeaderLines(package, next, git, builder);
    var more := LinesText(lines[1..]);
    MarginZero();
    assert lines == [lines[0]] + lines[1..];
    LinesUnfold(lines[0], lines[1..]);
    SplitName(prefix, a, b, more);
    CommentLine(0, prefix, a);
    NamedComment(prefix + a, (b + "`") + ("\n" + more));
    SkipLines(b + "`", more);
    RestOfHeader(package, next, git, builder);
    CommentsSkipped(lines[1..], "");
    assert more + "" == more;
    assert Skip("") == "" by { SkipNothing(); }
  }

  lemma NamedComment(line: string, rest: string)
    requires IsComment(Line(0, line)) && line != ""
    ensures Skip(line + ("\n" + rest)) == Skip(rest)
  {
    SkipComment(line, rest);
  }
}
