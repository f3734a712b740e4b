/** What holds in the run of every text, generated or not: nothing happens before a proposal is resolved. */
module ScriptSafety {
  import opened Base
  import opened MoveScript
  import Hex
  import Words

  /** Every call that has happened had its import, and nothing was signed for before the first resolution. */
  predicate Lawful(st: State) {
    && (forall name :: name in st.env && st.env[name].Signer? ==> st.events != [])
    && (st.events != [] ==> st.events[0].Resolved?)
    && (forall i :: 0 <= i < |st.events| ==> Permitted(st.events[i], st.uses))
  }

  /** What a statement may have done under these imports; the commit is recorded by the last expression only. */
  predicate Permitted(e: Event, uses: map<string, string>) {
    match e
    case Resolved(_, _) => Imported(uses, "diem_framework", "diem_governance")
    case Published(_, _) => Imported(uses, "diem_framework", "code")
    case GitSet(_) => false
  }

  predicate HoldsProposal(st: State) {
    exists name :: name in st.env && st.env[name].Proposal?
  }

  lemma ExecLawful(stmt: Stmt, st: State)
    requires Lawful(st) && Exec(stmt, st).Some?
    ensures var st' := Exec(stmt, st).value;
      Lawful(st') && st'.uses == st.uses && st.events <= st'.events
    ensures !HoldsProposal(st) ==> !HoldsProposal(Exec(stmt, st).value) && Resolutions(Exec(stmt, st).value.events) == Resolutions(st.events)
  {
    if !HoldsProposal(st) {
      var st' := Exec(stmt, st).value;
      assert stmt.Let? ==> !stmt.value.Resolve?;
      forall name | name in st'.env
        ensures !st'.env[name].Proposal?
      {
        if name in st.env {
          assert !st.env[name].Proposal?;
        }
      }
    }
  }

  /** How many times a proposal has been resolved. */
  function Resolutions(events: seq<Event>): nat {
    if events == [] then 0 else Resolutions(events[..|events| - 1]) + (if events[|events| - 1].Resolved? then 1 else 0)
  }

  lemma {:induction false} RunLawful(s: string, st: State)
    requires Lawful(st) && Run(s, st).Some?
    ensures var st' := Run(s, st).value.0;
      Lawful(st') && st'.uses == st.uses && st.events <= st'.events
    ensures !HoldsProposal(st) ==> Resolutions(Run(s, st).value.0.events) == Resolutions(st.events)
    decreases |s|
  {
    var parsed := ParseStmt(s);
    if parsed.Some? {
      ExecLawful(parsed.value.0, st);
      RunLawful(parsed.value.1, Exec(parsed.value.0, st).value);
    }
  }

  /** The imports of a script. */
  function Uses(text: string): map<string, string> {
    var head := Eat(text, "script {");
    if head.None? then map[] else ReadUses(head.value, map[]).0
  }

  lemma Stages(text: string) returns (param: string, s: string)
    requires Execute(text).Some?
    ensures var start := State(Uses(text), map[param := Proposal], []);
      Run(s, start).Some? && Finish(Run(s, start).value.1, Run(s, start).value.0) == Execute(text)
  {
    hide Eat, ReadUses, ReadWord, Words.Expect, Run, Finish;
    var (uses, afterUses) := ReadUses(Eat(text, "script {").value, map[]);
    var (word, rest) := ReadWord(Eat(afterUses, "fun main(").value).value;
    param, s := word, Words.Expect(rest, ": u64){").value;
  }

  lemma FinishSigned(s: string, st: State)
    requires Finish(s, st).Some?
    ensures Imported(st.uses, "diem_framework", "version")
    ensures exists name :: name in st.env && st.env[name].Signer?
    ensures exists hash :: Finish(s, st) == Some(st.events + [GitSet(hash)])
  {
    hide Eat, ReadWord, Words.Expect, Hex.Decode, Skip;
    var (signer, rest) := ReadWord(Eat(s, "version::upgrade_set_git(&").value).value;
    assert st.env[signer].Signer?;
    var r2 := Words.Expect(rest, ", x\"").value;
    assert Finish(s, st) == Some(st.events + [GitSet(Hex.Decode(r2[..Words.WordLen(r2)]).value)]);
  }

  predicate Publishes(events: seq<Event>) {
    exists i :: 0 <= i < |events| && events[i].Published?
  }

  /** In the run of any valid script the first call resolves the proposal, and the last, and no other, records the commit. */
  lemma NothingBeforeResolution(text: string)
    requires Execute(text).Some?
    ensures var events := Execute(text).value;
      |events| >= 2 && events[0].Resolved?
      && forall i :: 0 <= i < |events| ==> (events[i].GitSet? <==> i == |events| - 1)
    ensures Imported(Uses(text), "diem_framework", "diem_governance") && Imported(Uses(text), "diem_framework", "version")
    ensures Publishes(Execute(text).value) ==> Imported(Uses(text), "diem_framework", "code")
  {
    hide Execute, Run, Finish, Uses, Imported;
    var param, s := Stages(text);
    var start := State(Uses(text), map[param := Proposal], []);
    RunLawful(s, start);
    var (st, rest) := Run(s, start).value;
    FinishSigned(rest, st);
    assert Permitted(st.events[0], st.uses);
    var hash :| Execute(text) == Some(st.events + [GitSet(hash)]);
  }
}
