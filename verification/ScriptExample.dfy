/** The text of a generated script, line by line. */
module ScriptExample {
  import opened Base
  import opened Words
  import opened ReleaseBundle
  import Hex

  function Lines(ls: seq<string>): string {
    if ls == [] then "" else ls[0] + ("\n" + Lines(ls[1..]))
  }

  lemma LinesCons(l: string, ls: seq<string>)
    ensures Lines([l] + ls) == l + ("\n" + Lines(ls))
  {
    assert ([l] + ls)[1..] == ls;
  }

  /** The text a line is written as: four blanks a level, none for an empty line. */
  function Written(line: Line): string {
    if line.text == "" then "" else Spaces(line.level) + line.text
  }

  function AllWritten(lines: seq<Line>): (r: seq<string>)
    ensures |r| == |lines| && forall i :: 0 <= i < |r| ==> r[i] == Written(lines[i])
  {
    seq(|lines|, i requires 0 <= i < |lines| => Written(lines[i]))
  }

  lemma {:induction false} LinesAreWritten(lines: seq<Line>)
    ensures LinesText(lines) == Lines(AllWritten(lines))
  {
    hide Spaces;
    if lines != [] {
      LinesAreWritten(lines[1..]);
      assert AllWritten(lines)[1..] == AllWritten(lines[1..]);
      assert "" + lines[0].text == lines[0].text;
    }
  }

  lemma Margins()
    ensures Spaces(0) == "" && Spaces(1) == "    " && Spaces(2) == "        " && Spaces(3) == "            "
  {
  }

  /** The header. */
  lemma HeaderIs(p: Package, next: seq<Byte>, git: string, builder: string)
    ensures LinesText(HeaderLines(p, next, git, builder))
         == Lines(["// Upgrade proposal for package `" + p.name + "`", "",
                   "// Framework commit hash: " + git, "// Builder commit hash: " + builder, "",
                   "// Next step script hash: " + Hex.Encode(next), "", "// source digest: " + p.digest])
  {
    hide LinesText, Lines, Spaces, Hex.Encode;
    Margins();
    LinesAreWritten(HeaderLines(p, next, git, builder));
    NoMargin("// Upgrade proposal for package `" + p.name + "`");
    NoMargin("// Framework commit hash: " + git);
    NoMargin("// Builder commit hash: " + builder);
    NoMargin("// Next step script hash: " + Hex.Encode(next));
    NoMargin("// source digest: " + p.digest);
    assert AllWritten(HeaderLines(p, next, git, builder))
        == ["// Upgrade proposal for package `" + p.name + "`", "",
            "// Framework commit hash: " + git, "// Builder commit hash: " + builder, "",
            "// Next step script hash: " + Hex.Encode(next), "", "// source digest: " + p.digest];
  }

  lemma NoMargin(text: string)
    ensures Written(Line(0, text)) == text
  {
    Margins();
    assert "" + text == text;
  }

  /** The imports and the function's head. */
  lemma OpeningIs()
    ensures OpeningLines()
         == [Line(0, "script {"), Line(1, "use std::vector;"), Line(1, "use diem_framework::" + "diem_governance;"),
             Line(1, "use diem_framework::" + "code;"), Line(1, ""), Line(1, "use diem_framework::" + "version;"), Line(1, ""),
             Line(1, "fun main(proposal_id: u64){")]
  {
    assert "use " + ("std" + ("::" + ("vector" + ";"))) == "use std::vector;";
    FrameworkUse("diem_governance");
    FrameworkUse("code");
    FrameworkUse("version");
    assert "diem_governance" + ";" == "diem_governance;" && "code" + ";" == "code;" && "version" + ";" == "version;";
    assert "fun main(" + ("proposal_id" + ": u64){") == "fun main(proposal_id: u64){";
  }

  lemma FrameworkUse(name: string)
    ensures UseLine("diem_framework", name) == Line(1, "use diem_framework::" + (name + ";"))
  {
  }

  /** The end: the commit is recorded, and two braces close. */
  lemma ClosingIs(git: string)
    ensures ClosingLines(git)
         == [Line(2, "version::upgrade_set_git(&" + ("framework_signer" + (", x\"" + (git + "\")")))), Line(1, "}"), Line(0, "}")]
  {
  }

  /** A byte vector breaks the line before its nineteenth element and every twentieth after. */
  lemma LineBreaks(level: nat, i: nat)
    ensures var s := Separator(Some(level), i);
      && (s != "" && s[0] == '\n' <==> i % 20 == 19)
      && (i % 20 == 19 ==> s == "\n" + Spaces(level))
      && (i == 0 ==> s == Spaces(level)) && (i % 20 != 19 && i > 0 ==> s == "")
  {
    Margins();
    if level > 0 {
      assert Spaces(level)[0] == ' ';
    }
  }

  lemma BlobIs()
    ensures BlobText(2, [7, 200]) == "vector[\n" + ("            7u8,200u8,\n" + "        ]")
  {
    Margins();
    hide Spaces;
    assert Dec(7) == "7" && Dec(20) == Dec(2) + "0" && Dec(2) == "2" && Dec(200) == Dec(20) + "0";
    hide Dec;
    var d: seq<Byte> := [7, 200];
    assert ElemsText(Some(3), d, 2) == "";
    assert ElemsText(Some(3), d, 1) == "" + ("200" + ("u8," + ""));
    assert ElemsText(Some(3), d, 0) == "            " + ("7" + ("u8," + ("" + ("200" + ("u8," + "")))));
  }

  /** The first module and its push; the first chunk, and the append of the second. */
  lemma StatementsAre(data: seq<Byte>)
    ensures CodeText(2, [data], 0)
         == ("        " + ("let " + ("code_chunk0" + (" =" + (" \n        " + (BlobText(2, data) + (";" + "\n")))))))
            + (("        " + ("vector::push_back(&mut " + ("code" + (", " + ("code_chunk0" + (");" + "\n")))))) + "")
    ensures ChunksText(2, [data], 1)
         == ("        " + ("let " + ("metadata_chunk1" + (" =" + (" " + (BlobText(2, data) + (";" + "\n"))))))) + ""
    ensures AppendsText(2, 2, 2)
         == ("        " + ("vector::append(&mut " + ("metadata_chunk1" + (", " + ("metadata_chunk2" + (");" + "\n")))))) + ""
  {
    Margins();
    hide Spaces, BlobText;
    assert CodeName(0) == "code_chunk0" && ChunkName(1) == "metadata_chunk1" && ChunkName(2) == "metadata_chunk2" by {
      assert Dec(0) == "0" && Dec(1) == "1" && Dec(2) == "2";
    }
    hide CodeName, ChunkName;
    assert " \n" + "        " == " \n        ";
    assert [data][1..] == [] && ChunksText(2, [], 2) == "" && CodeText(2, [data], 1) == "" && AppendsText(2, 3, 2) == "";
  }

  /** The list the modules are collected in, and the publication of the package. */
  lemma PublicationIs(p: Package, addr: string, next: seq<Byte>)
    ensures var chunks := Chunks(p.metadata);
      BodyText(p, addr, next)
      == ResolveText(2, addr, next)
         + (("        " + ("let " + ("code" + (" =" + (" " + ("vector::empty()" + (";" + "\n")))))))
         + (CodeText(2, p.code, 0) + (ChunksText(2, chunks, 1) + (AppendsText(2, 2, |chunks|)
         + ("        " + (("code::publish_package_txn(&" + ("framework_signer" + ", "))
             + ("metadata_chunk1" + (", " + ("code" + (");" + "\n"))))))))))
  {
    Margins();
    hide Spaces, ResolveText, CodeText, ChunksText, AppendsText, Chunks;
  }

  /** The call that resolves the proposal: over several lines with a hash, on one line for the sentinel. */
  lemma ResolutionIs(addr: string)
    ensures ResolveText(2, addr, [3])
         == ("        " + ("let " + ("framework_signer" + (" =" + (" " + (ResolutionOf(addr) + (";" + "\n"))))))) + ""
    ensures ResolveText(2, addr, SENTINEL)
         == ("        " + ("let " + ("framework_signer" + (" =" + (" " + ((("diem_governance::" + "resolve_multi_step_proposal(")
              + ("proposal_id" + (", " + ("@" + (addr + (", " + ("vector::empty<u8>()" + ")"))))))) + (";" + "\n")))))))
            + "\n"
  {
    Margins();
    hide Spaces, HashArguments;
    SentinelIs(0);
    ArgumentsAre(addr);
  }

  function ResolutionOf(addr: string): string {
    ("diem_governance::" + "resolve_multi_step_proposal(")
    + ("\n" + (("            " + ("proposal_id" + ("," + ("\n            " + ("@" + (addr + ("," + ("\n            "
    + ("vector[" + ("3u8," + ("]" + ("," + "\n")))))))))))) + ("        " + ")")))
  }

  lemma ArgumentsAre(addr: string)
    ensures HashArguments(3, addr, [3])
         == "            " + ("proposal_id" + ("," + ("\n            " + ("@" + (addr + ("," + ("\n            "
            + ("vector[" + ("3u8," + ("]" + ("," + "\n")))))))))))
  {
    Margins();
    hide Spaces;
    assert Dec(3) == "3";
    hide Dec;
    var n: seq<Byte> := [3];
    assert ElemsText(None, n, 1) == "" && ElemsText(None, n, 0) == "" + ("3" + ("u8," + "")) == "3u8,";
    assert "\n" + "            " == "\n            ";
  }

  /** The bytes taken for an empty hash are the characters of the expression for one. */
  lemma SentinelIs(i: nat)
    requires i < 19
    ensures |SENTINEL| == 19 == |"vector::empty<u8>()"| && SENTINEL[i] == "vector::empty<u8>()"[i] as int
  {
  }

  /** All chunks but the last are as long as a chunk can be. */
  lemma {:induction false} ChunkLengths(m: seq<Byte>, i: nat)
    requires i < |Chunks(m)|
    ensures if i + 1 < |Chunks(m)| then |Chunks(m)[i]| == 32767 else |Chunks(m)[i]| < 32767
    decreases i
  {
    if |m| >= 32767 && i > 0 {
      ChunkLengths(m[32767..], i - 1);
    }
  }
}
