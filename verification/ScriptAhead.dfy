/**
 * Reading a text that has a second script further down: whatever is read before, the reader never gets past
 * the line on which that script starts, so no such text is a valid script.
 */
module ScriptAhead {
  import opened Base
  import opened Words
  import opened MoveScript
  import Hex

  /** A text that begins a script. */
  predicate IsStart(t: string) {
    t != "" && t[0] == 's'
  }

  /** The text `t` is still ahead: it is the end of `s`, and starts on a line of its own. */
  predicate Ahead(s: string, t: string) {
    |s| > |t| && s[|s| - |t| - 1] == '\n' && s[|s| - |t|..] == t
  }

  lemma AheadDrop(s: string, t: string, n: nat)
    requires Ahead(s, t) && n + |t| < |s|
    ensures Ahead(s[n..], t)
  {
    assert s[n..][|s| - n - |t|..] == s[|s| - |t|..];
  }

  lemma AheadIs(s: string, t: string)
    requires Ahead(s, t) && |s| == |t| + 1
    ensures s[1..] == t
  {
  }

  // Tokens -------------------------------------------------------------------------------------------

  lemma {:induction false} LineEndsBefore(s: string, p: nat)
    requires p < |s| && s[p] == '\n'
    ensures LineLen(s) <= p
  {
    if s[0] != '\n' {
      LineEndsBefore(s[1..], p - 1);
    }
  }

  lemma {:induction false} SkipAhead(s: string, t: string)
    requires Ahead(s, t) && IsStart(t)
    ensures Skip(s) == t || Ahead(Skip(s), t)
    decreases |s|
  {
    if IsSpace(s[0]) {
      if |s| == |t| + 1 {
        AheadIs(s, t);
        assert t == t + "";
        SkipSolid(t, "");
      } else {
        AheadDrop(s, t, 1);
        SkipAhead(s[1..], t);
      }
    } else if "//" <= s {
      LineEndsBefore(s, |s| - |t| - 1);
      assert LineLen(s) == 1 + LineLen(s[1..]);
      AheadDrop(s, t, LineLen(s));
      SkipAhead(s[LineLen(s)..], t);
    }
  }

  lemma ExpectAhead(s: string, t: string, lit: string)
    requires Ahead(s, t) && OneLine(lit) && Expect(s, lit).Some?
    ensures Ahead(Expect(s, lit).value, t)
  {
    var p := |s| - |t| - 1;
    assert forall i :: 0 <= i < |lit| ==> s[i] == lit[i];
    assert |lit| <= p;
    AheadDrop(s, t, |lit|);
  }

  lemma EatAhead(s: string, t: string, lit: string)
    requires Ahead(s, t) && IsStart(t) && OneLine(lit) && lit != "" && lit[0] != 's' && Eat(s, lit).Some?
    ensures Ahead(Eat(s, lit).value, t)
  {
    SkipAhead(s, t);
    ExpectAhead(Skip(s), t, lit);
  }

  lemma WordAhead(s: string, t: string)
    requires Ahead(s, t)
    ensures Ahead(s[WordLen(s)..], t)
  {
    var p := |s| - |t| - 1;
    WordLenIsWord(s);
    assert WordLen(s) <= p;
    AheadDrop(s, t, WordLen(s));
  }

  lemma ReadWordAhead(s: string, t: string)
    requires Ahead(s, t) && ReadWord(s).Some?
    ensures Ahead(ReadWord(s).value.1, t)
  {
    WordAhead(s, t);
  }

  // Expressions and statements -----------------------------------------------------------------------

  lemma DigitsAhead(s: string, t: string)
    requires Ahead(s, t)
    ensures Ahead(s[DigitLen(s)..], t)
  {
    assert DigitLen(s) <= |s| - |t| - 1;
    AheadDrop(s, t, DigitLen(s));
  }

  lemma {:induction false} ElemsAhead(s: string, t: string)
    requires Ahead(s, t) && IsStart(t) && ParseElems(s).Some?
    ensures Ahead(ParseElems(s).value.1, t)
    decreases |s|
  {
    hide Skip, DecValue;
    SkipAhead(s, t);
    var u := Skip(s);
    if "]" <= u {
      AheadDrop(u, t, 1);
    } else {
      DigitsAhead(u, t);
      ExpectAhead(u[DigitLen(u)..], t, "u8,");
      ElemsAhead(Expect(u[DigitLen(u)..], "u8,").value, t);
    }
  }

  lemma HashAhead(s: string, t: string)
    requires Ahead(s, t) && IsStart(t) && ParseHash(s).Some?
    ensures Ahead(ParseHash(s).value.1, t)
  {
    hide Eat, ParseElems, Ahead;
    if Eat(s, "vector[").Some? {
      EatAhead(s, t, "vector[");
      ElemsAhead(Eat(s, "vector[").value, t);
    } else {
      EatAhead(s, t, "vector::empty<u8>()");
    }
  }

  /** The name of the proposal cannot be the start of the script ahead: no comma follows there. */
  lemma ProposalAhead(s: string, t: string)
    requires Ahead(s, t) && "script {" <= t && ReadWord(Skip(s)).Some?
    requires Eat(ReadWord(Skip(s)).value.1, ",").Some?
    ensures Ahead(ReadWord(Skip(s)).value.1, t)
  {
    SkipAhead(s, t);
    if Skip(s) == t {
      ScriptIsNoArgument(t);
    } else {
      ReadWordAhead(Skip(s), t);
    }
  }

  lemma ScriptIsNoArgument(t: string)
    requires "script {" <= t
    ensures ReadWord(t).Some? && Eat(ReadWord(t).value.1, ",") == None
  {
    var more := t[8..];
    assert t == "script" + (" " + ("{" + more));
    ReadWordExact("script", " " + ("{" + more));
    EatDiffers(" ", "{", more, ",", 0);
  }

  lemma ResolveAhead(s: string, t: string)
    requires Ahead(s, t) && "script {" <= t && ParseResolve(s).Some?
    ensures Ahead(ParseResolve(s).value.1, t)
  {
    hide Eat, Expect, Skip, ReadWord, ParseHash, Ahead;
    EatAhead(s, t, "diem_governance::");
    var path := Eat(s, "diem_governance::").value;
    ExpectAhead(path, t, "resolve_multi_step_proposal(");
    var r0 := Expect(path, "resolve_multi_step_proposal(").value;
    ProposalAhead(r0, t);
    var r1 := ReadWord(Skip(r0)).value.1;
    EatAhead(r1, t, ",");
    var r2 := Eat(r1, ",").value;
    EatAhead(r2, t, "@");
    var r3 := Eat(r2, "@").value;
    ReadWordAhead(r3, t);
    var r4 := ReadWord(r3).value.1;
    EatAhead(r4, t, ",");
    var r5 := Eat(r4, ",").value;
    HashAhead(r5, t);
    CloseAhead(ParseHash(r5).value.1, t);
  }

  lemma CloseAhead(s: string, t: string)
    requires Ahead(s, t) && IsStart(t)
    ensures var comma := Eat(s, ",");
      var close := Eat(if comma.Some? then comma.value else s, ")");
      close.Some? ==> Ahead(close.value, t)
  {
    hide Eat, Ahead;
    var comma := Eat(s, ",");
    if comma.Some? {
      EatAhead(s, t, ",");
    }
    var r := if comma.Some? then comma.value else s;
    if Eat(r, ")").Some? {
      EatAhead(r, t, ")");
    }
  }

  lemma ExprAhead(s: string, t: string)
    requires Ahead(s, t) && "script {" <= t && ParseExpr(s).Some?
    ensures Ahead(ParseExpr(s).value.1, t)
  {
    hide Eat, ParseElems, ParseResolve, Ahead;
    if Eat(s, "vector[").Some? {
      EatAhead(s, t, "vector[");
      ElemsAhead(Eat(s, "vector[").value, t);
    } else if Eat(s, "vector::empty()").Some? {
      EatAhead(s, t, "vector::empty()");
    } else {
      ResolveAhead(s, t);
    }
  }

  lemma LetAhead(s: string, t: string)
    requires Ahead(s, t) && "script {" <= t && ParseLet(s).Some?
    ensures Ahead(ParseLet(s).value.1, t)
  {
    hide Eat, ReadWord, ParseExpr, Ahead;
    ReadWordAhead(s, t);
    var r1 := ReadWord(s).value.1;
    EatAhead(r1, t, "=");
    var r2 := Eat(r1, "=").value;
    ExprAhead(r2, t);
    EatAhead(ParseExpr(r2).value.1, t, ";");
  }

  lemma PairAhead(s: string, t: string)
    requires Ahead(s, t) && ParsePair(s).Some?
    ensures Ahead(ParsePair(s).value.1, t)
  {
    hide Expect, ReadWord, Ahead;
    ReadWordAhead(s, t);
    var r1 := ReadWord(s).value.1;
    ExpectAhead(r1, t, ", ");
    var r2 := Expect(r1, ", ").value;
    ReadWordAhead(r2, t);
    ExpectAhead(ReadWord(r2).value.1, t, ");");
  }

  lemma PublishAhead(s: string, t: string)
    requires Ahead(s, t) && ParsePublish(s).Some?
    ensures Ahead(ParsePublish(s).value.1, t)
  {
    hide Expect, ReadWord, ParsePair, Ahead;
    ReadWordAhead(s, t);
    var r1 := ReadWord(s).value.1;
    ExpectAhead(r1, t, ", ");
    PairAhead(Expect(r1, ", ").value, t);
  }

  lemma StmtAhead(s: string, t: string)
    requires Ahead(s, t) && "script {" <= t && ParseStmt(s).Some?
    ensures Ahead(ParseStmt(s).value.1, t)
  {
    hide Eat, ParseLet, ParsePair, ParsePublish, Ahead;
    if Eat(s, "let ").Some? {
      EatAhead(s, t, "let ");
      LetAhead(Eat(s, "let ").value, t);
    } else if Eat(s, "vector::push_back(&mut ").Some? {
      EatAhead(s, t, "vector::push_back(&mut ");
      PairAhead(Eat(s, "vector::push_back(&mut ").value, t);
    } else if Eat(s, "vector::append(&mut ").Some? {
      EatAhead(s, t, "vector::append(&mut ");
      PairAhead(Eat(s, "vector::append(&mut ").value, t);
    } else {
      EatAhead(s, t, "code::publish_package_txn(&");
      PublishAhead(Eat(s, "code::publish_package_txn(&").value, t);
    }
  }

  // Scripts ------------------------------------------------------------------------------------------

  lemma {:induction false} RunAhead(s: string, t: string, st: State)
    requires Ahead(s, t) && "script {" <= t && Run(s, st).Some?
    ensures Ahead(Run(s, st).value.1, t)
    decreases |s|
  {
    hide ParseStmt, Exec, Ahead;
    if ParseStmt(s).Some? {
      StmtAhead(s, t);
      RunAhead(ParseStmt(s).value.1, t, Exec(ParseStmt(s).value.0, st).value);
    }
  }

  lemma UseAhead(s: string, t: string)
    requires Ahead(s, t) && IsStart(t) && ParseUse(s).Some?
    ensures Ahead(ParseUse(s).value.1, t)
  {
    hide Eat, Expect, ReadWord, Ahead;
    ReadWordAhead(s, t);
    var r1 := ReadWord(s).value.1;
    ExpectAhead(r1, t, "::");
    var r2 := Expect(r1, "::").value;
    ReadWordAhead(r2, t);
    EatAhead(ReadWord(r2).value.1, t, ";");
  }

  lemma {:induction false} UsesAhead(s: string, t: string, uses: map<string, string>)
    requires Ahead(s, t) && IsStart(t)
    ensures Ahead(ReadUses(s, uses).1, t)
    decreases |s|
  {
    hide Eat, ParseUse, Ahead;
    var use := Eat(s, "use ");
    if use.Some? && ParseUse(use.value).Some? {
      EatAhead(s, t, "use ");
      UseAhead(use.value, t);
      var ((addr, name), rest) := ParseUse(use.value).value;
      UsesAhead(rest, t, uses[name := addr]);
    }
  }

  /** The end of a script does not come before the script ahead. */
  lemma FinishAhead(s: string, t: string, st: State)
    requires Ahead(s, t) && IsStart(t)
    ensures Finish(s, st) == None
  {
    hide Eat, Expect, ReadWord, Skip, Ahead, Hex.Decode;
    if Finish(s, st).Some? {
      EatAhead(s, t, "version::upgrade_set_git(&");
      var r0 := Eat(s, "version::upgrade_set_git(&").value;
      ReadWordAhead(r0, t);
      var r1 := ReadWord(r0).value.1;
      ExpectAhead(r1, t, ", x\"");
      var r2 := Expect(r1, ", x\"").value;
      WordAhead(r2, t);
      ExpectAhead(r2[WordLen(r2)..], t, "\")");
      var r3 := Expect(r2[WordLen(r2)..], "\")").value;
      EatAhead(r3, t, "}");
      var r4 := Eat(r3, "}").value;
      EatAhead(r4, t, "}");
      NotAtEnd(Eat(r4, "}").value, t);
    }
  }

  lemma NotAtEnd(s: string, t: string)
    requires Ahead(s, t) && IsStart(t)
    ensures Skip(s) != ""
  {
    SkipAhead(s, t);
  }

  /** After the opening of one script, a text with another one ahead is no valid script. */
  lemma BodyAhead(r0: string, t: string)
    requires Ahead(r0, t) && "script {" <= t
    ensures var (uses, afterUses) := ReadUses(r0, map[]);
      var r1 := Eat(afterUses, "fun main(");
      r1.None? || ReadWord(r1.value).None?
      || var (param, r2) := ReadWord(r1.value).value;
         var r3 := Expect(r2, ": u64){");
         r3.None? || Run(r3.value, State(uses, map[param := Proposal], [])).None?
         || var (st, r4) := Run(r3.value, State(uses, map[param := Proposal], [])).value;
            Finish(r4, st) == None
  {
    hide Eat, Expect, ReadWord, ReadUses, Run, Finish, Ahead;
    UsesAhead(r0, t, map[]);
    var (uses, afterUses) := ReadUses(r0, map[]);
    var r1 := Eat(afterUses, "fun main(");
    if r1.Some? && ReadWord(r1.value).Some? {
      EatAhead(afterUses, t, "fun main(");
      ReadWordAhead(r1.value, t);
      var (param, r2) := ReadWord(r1.value).value;
      var r3 := Expect(r2, ": u64){");
      if r3.Some? && Run(r3.value, State(uses, map[param := Proposal], [])).Some? {
        ExpectAhead(r2, t, ": u64){");
        RunAhead(r3.value, t, State(uses, map[param := Proposal], []));
        var (st, r4) := Run(r3.value, State(uses, map[param := Proposal], [])).value;
        FinishAhead(r4, t, st);
      }
    }
  }

  /** Unless everything before it is skipped, the script ahead makes the whole text invalid. */
  lemma ExecuteAhead(s: string, t: string)
    requires Ahead(s, t) && "script {" <= t && Skip(s) != t
    ensures Execute(s) == None
  {
    SkipAhead(s, t);
    hide Eat, Expect, ReadWord, ReadUses, Run, Finish, Ahead, Skip;
    if Eat(s, "script {").Some? {
      StartAhead(s, t);
      BodyAhead(Eat(s, "script {").value, t);
    }
  }

  lemma StartAhead(s: string, t: string)
    requires Ahead(Skip(s), t) && Eat(s, "script {").Some?
    ensures Ahead(Eat(s, "script {").value, t)
  {
    ExpectAhead(Skip(s), t, "script {");
  }
}
