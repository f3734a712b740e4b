/** The generated text of each statement, read back by the parser of Move scripts. */
module ScriptParse {
  import opened Base
  import opened Words
  import opened MoveScript
  import opened ReleaseBundle

  lemma BlankSpaces(level: nat)
    ensures Blank("\n" + Spaces(level)) && Blank(Spaces(level))
  {
  }

  lemma SeparatorBlank(block: Option<nat>, i: nat)
    ensures Blank(Separator(block, i))
  {
  }

  // Byte vectors -------------------------------------------------------------------------------------

  lemma ElemsSkip(ws: string, s: string)
    requires Blank(ws)
    ensures ParseElems(ws + s) == ParseElems(s)
  {
    SkipBlank(ws, s);
  }

  lemma ElemsEnd(ws: string, rest: string)
    requires Blank(ws)
    ensures ParseElems(ws + ("]" + rest)) == Some(([], rest))
  {
    ElemsSkip(ws, "]" + rest);
    SkipSolid("]", rest);
    assert ("]" + rest)[1..] == rest;
  }

  lemma ElemsCons(ws: string, b: Byte, s: string, more: seq<Byte>, rest: string)
    requires Blank(ws) && ParseElems(s) == Some((more, rest))
    ensures ParseElems(ws + (Dec(b) + ("u8," + s))) == Some(([b] + more, rest))
  {
    hide Dec, Skip;
    var t := Dec(b) + ("u8," + s);
    assert IsDigit(Dec(b)[0]);
    ElemsSkip(ws, t);
    SkipSolid(Dec(b), "u8," + s);
    DigitLenExact(Dec(b), "u8," + s);
    DecRoundTrip(b);
    ExpectRoundTrip("u8,", s);
    assert t[0] == Dec(b)[0];
  }

  lemma SplitElem(sep: string, d: string, u: string, more: string, tail: string)
    ensures sep + (d + (u + more)) + tail == sep + (d + (u + (more + tail)))
  {
  }

  /** The elements of a vector are the bytes they were written for, in order. */
  lemma {:induction false} ElemsExact(block: Option<nat>, data: seq<Byte>, i: nat, ws: string, rest: string)
    requires i <= |data| && Blank(ws)
    ensures ParseElems(ElemsText(block, data, i) + (ws + ("]" + rest))) == Some((data[i..], rest))
    decreases |data| - i
  {
    hide Separator, ParseElems, Dec;
    var tail := ws + ("]" + rest);
    if i == |data| {
      assert "" + tail == tail;
      ElemsEnd(ws, rest);
    } else {
      ElemsExact(block, data, i + 1, ws, rest);
      SeparatorBlank(block, i);
      ElemsCons(Separator(block, i), data[i], ElemsText(block, data, i + 1) + tail, data[i + 1..], rest);
      SplitElem(Separator(block, i), Dec(data[i]), "u8,", ElemsText(block, data, i + 1), tail);
      assert data[i..] == [data[i]] + data[i + 1..];
    }
  }

  lemma SplitBlob(gap: string, elems: string, ws: string, rest: string)
    ensures gap + (("vector[" + ("\n" + (elems + (ws + "]")))) + rest)
         == gap + ("vector[" + ("\n" + (elems + (ws + ("]" + rest)))))
  {
  }

  lemma BlobExact(level: nat, data: seq<Byte>, gap: string, rest: string)
    requires Blank(gap)
    ensures ParseExpr(gap + (BlobText(level, data) + rest)) == Some((VecLit(data), rest))
  {
    hide ElemsText, Spaces, ParseElems, Eat;
    var elems := ElemsText(Some(level + 1), data, 0);
    var ws := "\n" + Spaces(level);
    BlankSpaces(level);
    SplitBlob(gap, elems, ws, rest);
    EatExact(gap, "vector[", "\n" + (elems + (ws + ("]" + rest))));
    ElemsSkip("\n", elems + (ws + ("]" + rest)));
    ElemsExact(Some(level + 1), data, 0, ws, rest);
    assert data[0..] == data;
  }

  lemma EmptyExact(gap: string, rest: string)
    requires Blank(gap)
    ensures ParseExpr(gap + ("vector::empty()" + rest)) == Some((EmptyVec, rest))
  {
    hide ParseElems, ParseResolve, Eat;
    EatDiffers(gap, "vector::empty()", rest, "vector[", 6);
    EatExact(gap, "vector::empty()", rest);
  }

  // The call that resolves the proposal ----------------------------------------------------------------

  /** The expression the script has for the hash, and its value. */
  function HashExpr(next: seq<Byte>): Expr {
    if next == SENTINEL then EmptyVec else VecLit(next)
  }

  function Embedded(next: seq<Byte>): seq<Byte> {
    if next == SENTINEL then [] else next
  }

  /** The first part of the call, up to the hash. */
  lemma ResolveStart(g0: string, g1: string, g2: string, g3: string, addr: string, s: string,
                     hash: Expr, r6: string, rest: string)
    requires Blank(g0) && Blank(g1) && Blank(g2) && Blank(g3) && IsWord(addr)
    requires ParseHash(g3 + s) == Some((hash, r6))
    requires var comma := Eat(r6, ","); Eat(if comma.Some? then comma.value else r6, ")") == Some(rest)
    ensures ParseResolve(g0 + (RESOLVE + (g1 + ("proposal_id" + ("," + (g2 + ("@" + (addr + ("," + (g3 + s))))))))))
         == Some((Resolve("proposal_id", addr, hash), rest))
  {
    hide Eat, ParseHash, Skip, ReadWord;
    var s4 := "," + (g3 + s);
    var s3 := g2 + ("@" + (addr + s4));
    var s2 := "proposal_id" + ("," + s3);
    EatExact(g0, "diem_governance::", "resolve_multi_step_proposal(" + (g1 + s2));
    ExpectRoundTrip("resolve_multi_step_proposal(", g1 + s2);
    Assoc("diem_governance::", "resolve_multi_step_proposal(", g1 + s2);
    SkipBlank(g1, s2);
    SkipSolid("proposal_id", "," + s3);
    ReadWordExact("proposal_id", "," + s3);
    assert "" + ("," + s3) == "," + s3;
    EatExact("", ",", s3);
    EatExact(g2, "@", addr + s4);
    ReadWordExact(addr, s4);
    assert "" + s4 == s4;
    EatExact("", ",", g3 + s);
  }

  lemma HashExact(gap: string, next: seq<Byte>, rest: string)
    requires Blank(gap)
    ensures ParseHash(gap + ("vector[" + (ElemsText(None, next, 0) + ("]" + rest)))) == Some((VecLit(next), rest))
  {
    hide ElemsText, ParseElems, Eat;
    var elems := ElemsText(None, next, 0);
    EatExact(gap, "vector[", elems + ("]" + rest));
    ElemsExact(None, next, 0, "", rest);
    assert "" + ("]" + rest) == "]" + rest;
    assert next[0..] == next;
  }

  lemma EmptyHashExact(gap: string, rest: string)
    requires Blank(gap)
    ensures ParseHash(gap + ("vector::empty<u8>()" + rest)) == Some((EmptyVec, rest))
  {
    hide ParseElems, Eat;
    EatDiffers(gap, "vector::empty<u8>()", rest, "vector[", 6);
    EatExact(gap, "vector::empty<u8>()", rest);
  }

  lemma CloseWithComma(ws: string, rest: string)
    requires Blank(ws)
    ensures Eat("," + (ws + (")" + rest)), ",") == Some(ws + (")" + rest))
    ensures Eat(ws + (")" + rest), ")") == Some(rest)
  {
    var s := ws + (")" + rest);
    assert "" + ("," + s) == "," + s;
    EatExact("", ",", s);
    EatExact(ws, ")", rest);
  }

  lemma CloseWithoutComma(rest: string)
    ensures Eat(")" + rest, ",") == None && Eat(")" + rest, ")") == Some(rest)
  {
    assert "" + (")" + rest) == ")" + rest;
    EatDiffers("", ")", rest, ",", 0);
    EatExact("", ")", rest);
  }

  lemma SplitEmptyCall(g0: string, resolve: string, addr: string, empty: string, rest: string)
    ensures g0 + ((resolve + ("proposal_id" + (", " + ("@" + (addr + (", " + (empty + ")"))))))) + rest)
         == g0 + (resolve + ("" + ("proposal_id" + ("," + (" " + ("@" + (addr + ("," + (" " + (empty + (")" + rest)))))))))))
  {
    assert ", " == "," + " ";
  }

  lemma SplitCall(g0: string, resolve: string, addr: string, m1: string, m0: string, elems: string, rest: string)
    ensures g0 + ((resolve + ("\n" + ((m1 + ("proposal_id" + ("," + (("\n" + m1) + ("@" + (addr + ("," + (("\n" + m1)
              + ("vector[" + (elems + ("]" + ("," + "\n")))))))))))) + (m0 + ")")))) + rest)
         == g0 + (resolve + (("\n" + m1) + ("proposal_id" + ("," + (("\n" + m1) + ("@" + (addr + ("," + (("\n" + m1)
              + ("vector[" + (elems + ("]" + ("," + (("\n" + m0) + (")" + rest)))))))))))))))
  {
  }

  /** The call carries the proposal, the address and the hash it was written for. */
  lemma ResolveExact(level: nat, addr: string, next: seq<Byte>, gap: string, rest: string)
    requires IsWord(addr) && Blank(gap)
    ensures ParseResolve(gap + (ResolveValue(level, addr, next) + rest))
         == Some((Resolve("proposal_id", addr, HashExpr(next)), rest))
  {
    hide ParseResolve, ParseHash, Spaces, ElemsText, Eat;
    if next == SENTINEL {
      SplitEmptyCall(gap, RESOLVE, addr, "vector::empty<u8>()", rest);
      EmptyHashExact(" ", ")" + rest);
      CloseWithoutComma(rest);
      ResolveStart(gap, "", " ", " ", addr, "vector::empty<u8>()" + (")" + rest), EmptyVec, ")" + rest, rest);
    } else {
      var (m1, m0, elems) := (Spaces(level + 1), Spaces(level), ElemsText(None, next, 0));
      var r6 := "," + (("\n" + m0) + (")" + rest));
      SplitCall(gap, RESOLVE, addr, m1, m0, elems, rest);
      BlankSpaces(level + 1);
      BlankSpaces(level);
      HashExact("\n" + m1, next, r6);
      CloseWithComma("\n" + m0, rest);
      ResolveStart(gap, "\n" + m1, "\n" + m1, "\n" + m1, addr, "vector[" + (elems + ("]" + r6)), VecLit(next), r6, rest);
    }
  }
}
