/** The generator of governance scripts: a package as Move source text. */
module ReleaseBundle {
  import opened Base
  import opened Words
  import Hex

  function Spaces(level: nat): string {
    seq(4 * level, _ => ' ')
  }

  predicate AtLineStart(s: string) {
    s == "" || s[|s| - 1] == '\n'
  }

  /** Four spaces a level in front of what is written at the start of a line. */
  class CodeWriter {
    var output: string
    var level: nat

    constructor ()
      ensures output == "" && level == 0
    {
      output, level := "", 0;
    }

    /** Writes a non-empty text; a line break may only end it. */
    method Emit(s: string)
      requires s != ""
      modifies this`output
      ensures output == old(output) + Margin(old(output), level) + s
    {
      if AtLineStart(output) {
        output := output + Spaces(level);
      }
      output := output + s;
    }

    method EmitLn(s: string)
      requires s != ""
      modifies this`output
      ensures output == old(output) + Margin(old(output), level) + s + "\n"
    {
      Emit(s);
      output := output + "\n";
    }

    method NewLine()
      modifies this`output
      ensures output == old(output) + "\n"
    {
      output := output + "\n";
    }
  }

  function Margin(output: string, level: nat): string {
    if AtLineStart(output) then Spaces(level) else ""
  }

  // Texts ------------------------------------------------------------------------------------------

  /** What separates element `i` from the one before, in a block at a level or on one line. */
  function Separator(block: Option<nat>, i: nat): string {
    if block.None? then ""
    else if (i + 1) % 20 == 0 then "\n" + Spaces(block.value)
    else if i == 0 then Spaces(block.value)
    else ""
  }

  function ElemsText(block: Option<nat>, data: seq<Byte>, i: nat): string
    requires i <= |data|
    decreases |data| - i
  {
    if i == |data| then ""
    else Separator(block, i) + (Dec(data[i]) + ("u8," + ElemsText(block, data, i + 1)))
  }

  function BlobText(level: nat, data: seq<Byte>): string {
    "vector[" + ("\n" + (ElemsText(Some(level + 1), data, 0) + (("\n" + Spaces(level)) + "]")))
  }

  function LetLine(level: nat, name: string, gap: string, value: string): string {
    Spaces(level) + ("let " + (name + (" =" + (gap + (value + (";" + "\n"))))))
  }

  function CallLine(level: nat, callee: string, a: string, b: string): string {
    Spaces(level) + (callee + (a + (", " + (b + (");" + "\n")))))
  }

  function CodeName(i: nat): string {
    "code_chunk" + Dec(i)
  }

  function ChunkName(i: nat): string {
    "metadata_chunk" + Dec(i)
  }

  function CodeText(level: nat, code: seq<seq<Byte>>, i: nat): string
    requires i <= |code|
    decreases |code| - i
  {
    if i == |code| then ""
    else
      LetLine(level, CodeName(i), " \n" + Spaces(level), BlobText(level, code[i]))
      + (CallLine(level, "vector::push_back(&mut ", "code", CodeName(i)) + CodeText(level, code, i + 1))
  }

  /** The bindings of the chunks, counted from `i`. */
  function ChunksText(level: nat, chunks: seq<seq<Byte>>, i: nat): string {
    if chunks == [] then ""
    else LetLine(level, ChunkName(i), " ", BlobText(level, chunks[0])) + ChunksText(level, chunks[1..], i + 1)
  }

  /** The appends of the chunks `i` to `n` to the first one. */
  function AppendsText(level: nat, i: nat, n: nat): string
    decreases n + 1 - i
  {
    if i > n then ""
    else CallLine(level, "vector::append(&mut ", "metadata_chunk1", ChunkName(i)) + AppendsText(level, i + 1, n)
  }

  /** The 19 bytes of "vector::empty<u8>()", which the generator takes for an empty hash. */
  const SENTINEL: seq<Byte> := [118, 101, 99, 116, 111, 114, 58, 58, 101, 109, 112, 116, 121, 60, 117, 56, 62, 40, 41]

  const RESOLVE: string := "diem_governance::" + "resolve_multi_step_proposal("

  /** The arguments of the call that carries a hash, each on a line of its own. */
  function HashArguments(level: nat, addr: string, next: seq<Byte>): string {
    var ws := "\n" + Spaces(level);
    Spaces(level) + ("proposal_id" + ("," + (ws + ("@" + (addr + ("," + (ws + ("vector[" + (ElemsText(None, next, 0)
      + ("]" + ("," + "\n")))))))))))
  }

  function ResolveValue(level: nat, addr: string, next: seq<Byte>): string {
    if next == SENTINEL then
      RESOLVE + ("proposal_id" + (", " + ("@" + (addr + (", " + ("vector::empty<u8>()" + ")"))))))
    else
      RESOLVE + ("\n" + (HashArguments(level + 1, addr, next) + (Spaces(level) + ")")))
  }

  function ResolveText(level: nat, addr: string, next: seq<Byte>): string {
    LetLine(level, "framework_signer", " ", ResolveValue(level, addr, next)) + (if next == SENTINEL then "\n" else "")
  }

  // Metadata chunks ----------------------------------------------------------------------------------

  const CHUNK_SIZE: nat := 32767

  /** Full chunks as long as there are any, and the rest, which may be empty. */
  function Chunks(m: seq<Byte>): (r: seq<seq<Byte>>)
    ensures |r| == |m| / CHUNK_SIZE + 1
  {
    if |m| < CHUNK_SIZE then [m] else [m[..CHUNK_SIZE]] + Chunks(m[CHUNK_SIZE..])
  }

  function Join(chunks: seq<seq<Byte>>): seq<Byte> {
    if chunks == [] then [] else Join(chunks[..|chunks| - 1]) + chunks[|chunks| - 1]
  }

  lemma {:induction false} JoinCons(first: seq<Byte>, chunks: seq<seq<Byte>>)
    ensures Join([first] + chunks) == first + Join(chunks)
  {
    var all := [first] + chunks;
    if chunks == [] {
      assert all[..|all| - 1] == [];
    } else {
      JoinCons(first, chunks[..|chunks| - 1]);
      assert all[..|all| - 1] == [first] + chunks[..|chunks| - 1];
    }
  }

  /** The chunks make up the metadata, and each fits a Move constant. */
  lemma {:induction false} ChunksMeaning(m: seq<Byte>)
    ensures Join(Chunks(m)) == m
    ensures forall c :: c in Chunks(m) ==> |c| <= CHUNK_SIZE
    decreases |m|
  {
    if |m| < CHUNK_SIZE {
      JoinCons(m, []);
      assert [m] + [] == [m];
    } else {
      ChunksMeaning(m[CHUNK_SIZE..]);
      JoinCons(m[..CHUNK_SIZE], Chunks(m[CHUNK_SIZE..]));
      assert m == m[..CHUNK_SIZE] + m[CHUNK_SIZE..];
    }
  }

  // Generation ---------------------------------------------------------------------------------------

  lemma ElemsStep(output: string, block: Option<nat>, data: seq<Byte>, i: nat)
    requires i < |data|
    ensures output + Separator(block, i) + (Dec(data[i]) + "u8,") + ElemsText(block, data, i + 1)
         == output + ElemsText(block, data, i)
  {
    hide Separator;
  }

  lemma NotAtLineStart(output: string, s: string)
    requires s != "" && s[|s| - 1] != '\n'
    ensures !AtLineStart(output + s)
  {
  }

  lemma LineBreakStarts(output: string)
    ensures AtLineStart(output + "\n")
  {
  }

  /** One element, on a new line if it is due one. */
  method EmitElem(writer: CodeWriter, b: Byte, i: nat)
    requires AtLineStart(writer.output) <==> i == 0
    modifies writer`output
    ensures writer.output == old(writer.output) + Separator(Some(writer.level), i) + (Dec(b) + "u8,")
    ensures !AtLineStart(writer.output)
  {
    hide Spaces, Dec;
    if (i + 1) % 20 == 0 {
      writer.NewLine();
      LineBreakStarts(old(writer.output));
      Assoc(old(writer.output), "\n", Spaces(writer.level));
    } else if i > 0 {
      assert old(writer.output) + "" == old(writer.output);
    }
    writer.Emit(Dec(b) + "u8,");
    NotAtLineStart(old(writer.output) + Separator(Some(writer.level), i), Dec(b) + "u8,");
  }

  /** `generate_blob`: twenty numbers a line, the first line one short. */
  method GenerateBlob(writer: CodeWriter, data: seq<Byte>)
    modifies writer
    ensures writer.level == old(writer.level)
    ensures writer.output == old(writer.output) + Margin(old(writer.output), writer.level) + BlobText(writer.level, data)
    ensures !AtLineStart(writer.output)
  {
    hide Dec, Spaces, Separator, ElemsText;
    ghost var before := writer.output + Margin(writer.output, writer.level);
    writer.EmitLn("vector[");
    ghost var start := writer.output;
    writer.level := writer.level + 1;
    ghost var block := Some(writer.level);
    ghost var elems := ElemsText(block, data, 0);
    LineBreakStarts(before + "vector[");
    for i := 0 to |data|
      invariant writer.level == old(writer.level) + 1
      invariant writer.output + ElemsText(block, data, i) == start + elems
      invariant AtLineStart(writer.output) <==> i == 0
    {
      ElemsStep(writer.output, block, data, i);
      EmitElem(writer, data[i], i);
    }
    NoElemsLeft(writer.output, block, data);
    writer.NewLine();
    writer.level := writer.level - 1;
    LineBreakStarts(start + elems);
    writer.Emit("]");
    JoinBlob(before, elems, Spaces(writer.level));
    NotAtLineStart(start + elems + "\n" + Spaces(writer.level), "]");
  }

  lemma NoElemsLeft(output: string, block: Option<nat>, data: seq<Byte>)
    ensures output + ElemsText(block, data, |data|) == output
  {
  }

  lemma JoinBlob(before: string, elems: string, margin: string)
    ensures before + "vector[" + "\n" + elems + "\n" + margin + "]"
         == before + ("vector[" + ("\n" + (elems + (("\n" + margin) + "]"))))
  {
  }

  lemma JoinLet(o: string, margin: string, name: string, gap: string, value: string)
    ensures o + margin + ("let " + name + " =" + gap) + value + ";" + "\n"
         == o + (margin + ("let " + (name + (" =" + (gap + (value + (";" + "\n")))))))
  {
  }

  lemma JoinCall(o: string, margin: string, callee: string, a: string, b: string)
    ensures o + margin + (callee + a + ", " + b + ");") + "\n"
         == o + (margin + (callee + (a + (", " + (b + (");" + "\n"))))))
  {
  }

  /** A call statement with two arguments, on a line of its own. */
  method EmitCall(writer: CodeWriter, callee: string, a: string, b: string)
    requires AtLineStart(writer.output) && callee != ""
    modifies writer`output
    ensures AtLineStart(writer.output)
    ensures writer.output == old(writer.output) + CallLine(writer.level, callee, a, b)
  {
    hide Spaces;
    ghost var o := writer.output;
    writer.EmitLn(callee + a + ", " + b + ");");
    LineBreakStarts(o + Spaces(writer.level) + (callee + a + ", " + b + ");"));
    JoinCall(o, Spaces(writer.level), callee, a, b);
  }

  /** The bytes of one module in a binding. */
  method EmitCodeBinding(writer: CodeWriter, i: nat, data: seq<Byte>)
    requires AtLineStart(writer.output)
    modifies writer
    ensures writer.level == old(writer.level) && AtLineStart(writer.output)
    ensures writer.output == old(writer.output)
              + LetLine(writer.level, CodeName(i), " \n" + Spaces(writer.level), BlobText(writer.level, data))
  {
    hide Spaces, BlobText, CodeName;
    ghost var (o, l) := (writer.output, writer.level);
    writer.EmitLn("let " + CodeName(i) + " = ");
    ghost var margin := Spaces(l);
    assert writer.output == o + margin + ("let " + CodeName(i) + " = ") + "\n";
    LineBreakStarts(o + margin + ("let " + CodeName(i) + " = "));
    GenerateBlob(writer, data);
    ghost var binding := writer.output;
    assert binding == o + margin + ("let " + CodeName(i) + " =" + (" \n" + margin)) + BlobText(l, data);
    writer.EmitLn(";");
    assert binding + "" == binding;
    JoinLet(o, margin, CodeName(i), " \n" + margin, BlobText(l, data));
    LineBreakStarts(binding + ";");
  }

  /** One module of the package: its binding, and the binding pushed onto the list. */
  method GenerateCode(writer: CodeWriter, i: nat, data: seq<Byte>)
    requires AtLineStart(writer.output)
    modifies writer
    ensures writer.level == old(writer.level) && AtLineStart(writer.output)
    ensures writer.output == old(writer.output)
              + LetLine(writer.level, CodeName(i), " \n" + Spaces(writer.level), BlobText(writer.level, data))
              + CallLine(writer.level, "vector::push_back(&mut ", "code", CodeName(i))
  {
    EmitCodeBinding(writer, i, data);
    EmitCall(writer, "vector::push_back(&mut ", "code", CodeName(i));
  }

  method GenerateAllCode(writer: CodeWriter, code: seq<seq<Byte>>)
    requires AtLineStart(writer.output)
    modifies writer
    ensures writer.level == old(writer.level) && AtLineStart(writer.output)
    ensures writer.output == old(writer.output) + CodeText(writer.level, code, 0)
  {
    hide LetLine, CallLine, BlobText, Spaces;
    ghost var l := writer.level;
    for i := 0 to |code|
      invariant writer.level == l && AtLineStart(writer.output)
      invariant writer.output + CodeText(l, code, i) == old(writer.output) + CodeText(l, code, 0)
    {
      CodeStep(writer.output, l, code, i);
      GenerateCode(writer, i, code[i]);
    }
  }

  lemma CodeStep(o: string, l: nat, code: seq<seq<Byte>>, i: nat)
    requires i < |code|
    ensures o + LetLine(l, CodeName(i), " \n" + Spaces(l), BlobText(l, code[i]))
              + CallLine(l, "vector::push_back(&mut ", "code", CodeName(i)) + CodeText(l, code, i + 1)
         == o + CodeText(l, code, i)
  {
    hide LetLine, CallLine, BlobText, Spaces, CodeName;
  }

  /** One metadata chunk in a binding of its own. */
  method GenerateChunk(writer: CodeWriter, i: nat, chunk: seq<Byte>)
    requires AtLineStart(writer.output)
    modifies writer
    ensures writer.level == old(writer.level) && AtLineStart(writer.output)
    ensures writer.output == old(writer.output) + LetLine(writer.level, ChunkName(i), " ", BlobText(writer.level, chunk))
  {
    hide Spaces, BlobText, ChunkName;
    ghost var (o, l) := (writer.output, writer.level);
    writer.Emit("let " + ChunkName(i) + " = ");
    NotAtLineStart(o + Spaces(l), "let " + ChunkName(i) + " = ");
    assert writer.output + "" == writer.output;
    assert "let " + ChunkName(i) + " = " == "let " + ChunkName(i) + " =" + " ";
    GenerateBlob(writer, chunk);
    ghost var binding := writer.output;
    writer.EmitLn(";");
    assert binding + "" == binding;
    JoinLet(o, Spaces(l), ChunkName(i), " ", BlobText(l, chunk));
    LineBreakStarts(binding + ";");
  }

  /** The chunk loop: drains the metadata from the front, the last chunk being whatever is left. */
  method GenerateChunks(writer: CodeWriter, serialized: seq<Byte>) returns (count: nat)
    requires AtLineStart(writer.output)
    modifies writer
    ensures writer.level == old(writer.level) && AtLineStart(writer.output)
    ensures count == |Chunks(serialized)|
    ensures writer.output == old(writer.output) + ChunksText(writer.level, Chunks(serialized), 1)
  {
    hide LetLine, BlobText;
    var metadata := serialized;
    count := |metadata| / CHUNK_SIZE + 1;
    ghost var l := writer.level;
    var i := 1;
    while i < count + 1
      invariant 1 <= i <= count + 1
      invariant writer.level == l && AtLineStart(writer.output)
      invariant i <= count ==> |metadata| / CHUNK_SIZE == count - i
      invariant writer.output + (if i <= count then ChunksText(l, Chunks(metadata), i) else "")
             == old(writer.output) + ChunksText(l, Chunks(serialized), 1)
    {
      var toDrain := if i == count then |metadata| else CHUNK_SIZE;
      assert toDrain <= |metadata|;
      var chunk := metadata[0..toDrain];
      ChunkStep(writer.output, l, metadata, i, chunk);
      metadata := metadata[toDrain..];
      GenerateChunk(writer, i, chunk);
      i := i + 1;
    }
  }

  lemma ChunkStep(o: string, l: nat, metadata: seq<Byte>, i: nat, chunk: seq<Byte>)
    requires chunk == if |metadata| < CHUNK_SIZE then metadata else metadata[..CHUNK_SIZE]
    ensures o + ChunksText(l, Chunks(metadata), i)
         == o + LetLine(l, ChunkName(i), " ", BlobText(l, chunk))
              + (if |metadata| < CHUNK_SIZE then "" else ChunksText(l, Chunks(metadata[CHUNK_SIZE..]), i + 1))
  {
    hide LetLine, BlobText;
    if |metadata| < CHUNK_SIZE {
      assert Chunks(metadata) == [chunk] && Chunks(metadata)[1..] == [];
    } else {
      assert Chunks(metadata)[0] == chunk && Chunks(metadata)[1..] == Chunks(metadata[CHUNK_SIZE..]);
    }
  }

  method GenerateAppends(writer: CodeWriter, count: nat)
    requires AtLineStart(writer.output)
    modifies writer
    ensures writer.level == old(writer.level) && AtLineStart(writer.output)
    ensures writer.output == old(writer.output) + AppendsText(writer.level, 2, count)
  {
    hide Dec, Spaces, CallLine, ChunkName;
    ghost var l := writer.level;
    var i := 2;
    while i < count + 1
      invariant i >= 2
      invariant writer.level == l && AtLineStart(writer.output)
      invariant writer.output + AppendsText(l, i, count) == old(writer.output) + AppendsText(l, 2, count)
    {
      ghost var o := writer.output;
      EmitCall(writer, "vector::append(&mut ", "metadata_chunk1", ChunkName(i));
      Assoc(o, CallLine(l, "vector::append(&mut ", "metadata_chunk1", ChunkName(i)), AppendsText(l, i + 1, count));
      i := i + 1;
    }
    assert AppendsText(l, i, count) == "" && writer.output + "" == writer.output;
  }

  // The whole script -----------------------------------------------------------------------------------

  /** What the generator reads of a package; the metadata as serialized. */
  datatype Package = Package(name: string, digest: string, metadata: seq<Byte>, code: seq<seq<Byte>>)

  datatype Line = Line(level: nat, text: string)

  function LinesText(lines: seq<Line>): string {
    if lines == [] then ""
    else
      ((if lines[0].text == "" then "" else Spaces(lines[0].level)) + lines[0].text) + ("\n" + LinesText(lines[1..]))
  }

  function HeaderLines(package: Package, next: seq<Byte>, git: string, builder: string): seq<Line> {
    [Line(0, "// Upgrade proposal for package `" + package.name + "`"),
     Line(0, ""),
     Line(0, "// Framework commit hash: " + git),
     Line(0, "// Builder commit hash: " + builder),
     Line(0, ""),
     Line(0, "// Next step script hash: " + Hex.Encode(next)),
     Line(0, ""),
     Line(0, "// source digest: " + package.digest)]
  }

  function UseLine(addr: string, name: string): Line {
    Line(1, "use " + (addr + ("::" + (name + ";"))))
  }

  function OpeningLines(): seq<Line> {
    [Line(0, "script {"),
     UseLine("std", "vector"),
     UseLine("diem_framework", "diem_governance"),
     UseLine("diem_framework", "code"),
     Line(1, ""),
     UseLine("diem_framework", "version"),
     Line(1, ""),
     Line(1, "fun main(" + ("proposal_id" + ": u64){"))]
  }

  function ClosingLines(git: string): seq<Line> {
    [Line(2, "version::upgrade_set_git(&" + ("framework_signer" + (", x\"" + (git + "\")")))),
     Line(1, "}"),
     Line(0, "}")]
  }

  const PUBLISH: string := "code::publish_package_txn(&" + ("framework_signer" + ", ")

  function BodyText(package: Package, addr: string, next: seq<Byte>): string {
    var chunks := Chunks(package.metadata);
    ResolveText(2, addr, next)
    + (LetLine(2, "code", " ", "vector::empty()")
    + (CodeText(2, package.code, 0)
    + (ChunksText(2, chunks, 1)
    + (AppendsText(2, 2, |chunks|)
    + CallLine(2, PUBLISH, "metadata_chunk1", "code")))))
  }

  function ScriptText(package: Package, addr: string, next: seq<Byte>, git: string, builder: string): string {
    LinesText(HeaderLines(package, next, git, builder))
    + (LinesText(OpeningLines())
    + (BodyText(package, addr, next)
    + LinesText(ClosingLines(git))))
  }

  lemma {:induction false} LinesSnoc(lines: seq<Line>, line: Line)
    ensures LinesText(lines + [line])
         == LinesText(lines) + (if line.text == "" then "" else Spaces(line.level)) + line.text + "\n"
  {
    hide Spaces;
    if lines == [] {
      assert [line][1..] == [];
    } else {
      assert (lines + [line])[1..] == lines[1..] + [line];
      LinesSnoc(lines[1..], line);
    }
  }

  /** One more whole line, which may be empty; `lines` is what was written since `start`. */
  method EmitLine(writer: CodeWriter, text: string, ghost start: string, ghost lines: seq<Line>)
      returns (ghost more: seq<Line>)
    requires AtLineStart(writer.output) && writer.output == start + LinesText(lines)
    modifies writer`output
    ensures AtLineStart(writer.output) && writer.output == start + LinesText(more)
    ensures more == lines + [Line(writer.level, text)]
  {
    hide Spaces, LinesText;
    ghost var (before, margin) := (LinesText(lines), Spaces(writer.level));
    more := lines + [Line(writer.level, text)];
    LinesSnoc(lines, Line(writer.level, text));
    if text == "" {
      writer.NewLine();
      assert before + "" + "" + "\n" == before + "\n";
    } else {
      writer.EmitLn(text);
    }
    assert LinesText(more) == before + (if text == "" then "" else margin) + text + "\n";
  }

  method EmitHeader(writer: CodeWriter, package: Package, next: seq<Byte>, git: string, builder: string)
    requires writer.output == "" && writer.level == 0
    modifies writer`output
    ensures AtLineStart(writer.output) && writer.output == LinesText(HeaderLines(package, next, git, builder))
  {
    hide LinesText, Spaces, Hex.Encode;
    ghost var lines := [];
    assert LinesText([]) == "" by { LinesNil(); }
    lines := EmitLine(writer, "// Upgrade proposal for package `" + package.name + "`", "", lines);
    lines := EmitLine(writer, "", "", lines);
    lines := EmitLine(writer, "// Framework commit hash: " + git, "", lines);
    lines := EmitLine(writer, "// Builder commit hash: " + builder, "", lines);
    lines := EmitLine(writer, "", "", lines);
    lines := EmitLine(writer, "// Next step script hash: " + Hex.Encode(next), "", lines);
    lines := EmitLine(writer, "", "", lines);
    lines := EmitLine(writer, "// source digest: " + package.digest, "", lines);
    assert lines == HeaderLines(package, next, git, builder);
  }

  lemma LinesNil()
    ensures LinesText([]) == ""
  {
  }

  /** Up to the opening brace of the script's function, which is left open at level 2. */
  method EmitOpening(writer: CodeWriter)
    requires AtLineStart(writer.output) && writer.level == 0
    modifies writer
    ensures AtLineStart(writer.output) && writer.level == 2
    ensures writer.output == old(writer.output) + LinesText(OpeningLines())
  {
    hide LinesText, Spaces;
    ghost var o := writer.output;
    ghost var lines := [];
    assert LinesText([]) == "" by { LinesNil(); }
    assert o + "" == o;
    lines := EmitLine(writer, "script {", o, lines);
    writer.level := writer.level + 1;
    lines := EmitLine(writer, UseLine("std", "vector").text, o, lines);
    lines := EmitLine(writer, UseLine("diem_framework", "diem_governance").text, o, lines);
    lines := EmitLine(writer, UseLine("diem_framework", "code").text, o, lines);
    lines := EmitLine(writer, "", o, lines);
    lines := EmitLine(writer, UseLine("diem_framework", "version").text, o, lines);
    lines := EmitLine(writer, "", o, lines);
    lines := EmitLine(writer, "fun main(" + ("proposal_id" + ": u64){"), o, lines);
    writer.level := writer.level + 1;
    assert lines == OpeningLines();
  }

  method EmitClosing(writer: CodeWriter, git: string)
    requires AtLineStart(writer.output) && writer.level == 2
    modifies writer
    ensures writer.output == old(writer.output) + LinesText(ClosingLines(git))
  {
    hide LinesText, Spaces;
    ghost var o := writer.output;
    ghost var lines := [];
    assert LinesText([]) == "" by { LinesNil(); }
    assert o + "" == o;
    lines := EmitLine(writer, "version::upgrade_set_git(&" + ("framework_signer" + (", x\"" + (git + "\")"))), o, lines);
    writer.level := writer.level - 1;
    lines := EmitLine(writer, "}", o, lines);
    writer.level := writer.level - 1;
    lines := EmitLine(writer, "}", o, lines);
    assert lines == ClosingLines(git);
  }

  lemma JoinEmptyHash(p: string, binding: string, resolve: string, addr: string, empty: string)
    ensures p + (binding + resolve + "proposal_id, @" + addr + ", " + empty + ");")
         == p + binding + (resolve + ("proposal_id" + (", " + ("@" + (addr + (", " + (empty + ")"))))))) + ";"
  {
    var args := addr + (", " + (empty + ")"));
    assert "proposal_id, @" + args == "proposal_id" + (", " + ("@" + args));
    assert "proposal_id, @" + addr + ", " + empty + ");" == "proposal_id, @" + args + ";";
  }

  lemma JoinHash(p: string, binding: string, resolve: string, arguments: string, margin: string)
    ensures p + (binding + resolve) + "\n" + arguments + margin + ");"
         == p + binding + (resolve + ("\n" + (arguments + (margin + ")")))) + ";"
  {
    assert ");" == ")" + ";";
  }

  lemma JoinArguments(o: string, inner: string, addr: string, elems: string)
    ensures o + inner + "proposal_id," + "\n" + inner + ("@" + addr + ",") + "\n" + inner + "vector[" + elems + "" + "]," + "\n"
         == o + (inner + ("proposal_id" + ("," + (("\n" + inner) + ("@" + (addr + ("," + (("\n" + inner) + ("vector[" + (elems
              + ("]" + ("," + "\n"))))))))))))
  {
  }

  /** The call on one line, with an empty hash. */
  method EmitEmptyHash(writer: CodeWriter, binding: string, resolve: string, addr: string, empty: string)
    requires AtLineStart(writer.output)
    modifies writer`output
    ensures AtLineStart(writer.output)
    ensures writer.output == old(writer.output) + Spaces(writer.level) + binding
              + (resolve + ("proposal_id" + (", " + ("@" + (addr + (", " + (empty + ")"))))))) + ";" + "\n" + "\n"
  {
    hide Spaces;
    ghost var p := writer.output + Spaces(writer.level);
    writer.EmitLn(binding + resolve + "proposal_id, @" + addr + ", " + empty + ");");
    writer.NewLine();
    JoinEmptyHash(p, binding, resolve, addr, empty);
  }

  /** The call over several lines, with the hash as a byte vector. */
  method EmitHash(writer: CodeWriter, binding: string, resolve: string, addr: string, next: seq<Byte>)
    requires AtLineStart(writer.output) && binding != ""
    modifies writer
    ensures writer.level == old(writer.level) && AtLineStart(writer.output)
    ensures writer.output == old(writer.output) + Spaces(writer.level) + binding
              + (resolve + ("\n" + (HashArguments(writer.level + 1, addr, next) + (Spaces(writer.level) + ")")))) + ";" + "\n"
  {
    hide Spaces, HashArguments;
    ghost var (p, margin) := (writer.output + Spaces(writer.level), Spaces(writer.level));
    writer.EmitLn(binding + resolve);
    LineBreakStarts(p + (binding + resolve));
    writer.level := writer.level + 1;
    EmitHashArguments(writer, addr, next);
    writer.level := writer.level - 1;
    writer.EmitLn(");");
    JoinHash(p, binding, resolve, HashArguments(writer.level + 1, addr, next), margin);
  }

  /** `generate_next_execution_hash_blob`. */
  method GenerateNextExecutionHashBlob(writer: CodeWriter, addr: string, next: seq<Byte>)
    requires AtLineStart(writer.output)
    modifies writer
    ensures writer.level == old(writer.level) && AtLineStart(writer.output)
    ensures writer.output == old(writer.output) + ResolveText(writer.level, addr, next)
  {
    hide Spaces, HashArguments, ResolveText;
    if next == SENTINEL {
      EmitEmptyHash(writer, "let framework_signer = ", RESOLVE, addr, "vector::empty<u8>()");
    } else {
      EmitHash(writer, "let framework_signer = ", RESOLVE, addr, next);
      assert writer.output + "" == writer.output;
    }
    ResolveJoined(old(writer.output), writer.level, addr, next);
  }

  lemma {:induction false} ResolveJoined(o: string, level: nat, addr: string, next: seq<Byte>)
    ensures o + Spaces(level) + "let framework_signer = " + ResolveValue(level, addr, next) + ";" + "\n"
              + (if next == SENTINEL then "\n" else "")
         == o + ResolveText(level, addr, next)
  {
    hide Spaces, ResolveValue;
    assert "let framework_signer = " == "let " + "framework_signer" + " =" + " ";
    JoinLet(o, Spaces(level), "framework_signer", " ", ResolveValue(level, addr, next));
  }

  /** The arguments of the call, each on a line of its own, the hash on one line. */
  method EmitHashArguments(writer: CodeWriter, addr: string, next: seq<Byte>)
    requires AtLineStart(writer.output)
    modifies writer`output
    ensures AtLineStart(writer.output)
    ensures writer.output == old(writer.output) + HashArguments(writer.level, addr, next)
  {
    hide Spaces, Dec, ElemsText;
    ghost var margin := Spaces(writer.level);
    writer.EmitLn("proposal_id,");
    LineBreakStarts(old(writer.output) + margin + "proposal_id,");
    ghost var o1 := writer.output;
    writer.EmitLn("@" + addr + ",");
    LineBreakStarts(o1 + margin + ("@" + addr + ","));
    ghost var o2 := writer.output;
    writer.Emit("vector[");
    NotAtLineStart(o2 + margin, "vector[");
    ghost var start := writer.output;
    ghost var elems := ElemsText(None, next, 0);
    for i := 0 to |next|
      invariant writer.output + ElemsText(None, next, i) == start + elems
      invariant !AtLineStart(writer.output)
    {
      ghost var before := writer.output;
      ElemsStep(before, None, next, i);
      assert Separator(None, i) == "" && before + "" == before;
      writer.Emit(Dec(next[i]) + "u8,");
      NotAtLineStart(before, Dec(next[i]) + "u8,");
    }
    NoElemsLeft(writer.output, None, next);
    writer.EmitLn("],");
    LineBreakStarts(start + elems + "" + "],");
    JoinArguments(old(writer.output), margin, addr, elems);
  }

  /** The statements of the script's function. */
  method EmitBody(writer: CodeWriter, package: Package, addr: string, next: seq<Byte>)
    requires AtLineStart(writer.output) && writer.level == 2
    modifies writer
    ensures AtLineStart(writer.output) && writer.level == 2
    ensures writer.output == old(writer.output) + BodyText(package, addr, next)
  {
    hide ResolveText, CodeText, ChunksText, AppendsText, CallLine, Spaces, Chunks;
    ghost var o := writer.output;
    ghost var chunks := Chunks(package.metadata);
    GenerateNextExecutionHashBlob(writer, addr, next);
    ghost var o1 := writer.output;
    writer.EmitLn("let code = vector::empty();");
    JoinEmptyCode(o1, Spaces(2));
    LineBreakStarts(o1 + Spaces(2) + "let code = vector::empty();");
    GenerateAllCode(writer, package.code);
    var count := GenerateChunks(writer, package.metadata);
    GenerateAppends(writer, count);
    EmitCall(writer, PUBLISH, "metadata_chunk1", "code");
    JoinSix(o, ResolveText(2, addr, next), LetLine(2, "code", " ", "vector::empty()"), CodeText(2, package.code, 0),
      ChunksText(2, chunks, 1), AppendsText(2, 2, |chunks|), CallLine(2, PUBLISH, "metadata_chunk1", "code"));
  }

  lemma JoinEmptyCode(o: string, margin: string)
    ensures o + margin + "let code = vector::empty();" + "\n"
         == o + (margin + ("let " + ("code" + (" =" + (" " + ("vector::empty()" + (";" + "\n")))))))
  {
  }

  lemma JoinSix(o: string, a: string, b: string, c: string, d: string, e: string, f: string)
    ensures o + a + b + c + d + e + f == o + (a + (b + (c + (d + (e + f)))))
  {
  }

  /** `libra_author_script_file`, up to writing the text to a file. */
  method LibraAuthorScriptFile(package: Package, addr: string, next: seq<Byte>, git: string, builder: string)
      returns (text: string)
    ensures text == ScriptText(package, addr, next, git, builder)
  {
    hide LinesText, BodyText, HeaderLines, OpeningLines, ClosingLines;
    var writer := new CodeWriter();
    EmitHeader(writer, package, next, git, builder);
    EmitOpening(writer);
    EmitBody(writer, package, addr, next);
    EmitClosing(writer, git);
    text := writer.output;
    ghost var (h, p) := (LinesText(HeaderLines(package, next, git, builder)), LinesText(OpeningLines()));
    Assoc(h, p, BodyText(package, addr, next) + LinesText(ClosingLines(git)));
    Assoc(h + p, BodyText(package, addr, next), LinesText(ClosingLines(git)));
  }
}
