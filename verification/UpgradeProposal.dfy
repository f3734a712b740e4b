/** The driver that compiles one governance script per framework module, last module first. */
module UpgradeProposal {
  import opened Base
  import opened Words
  import opened MoveScript
  import opened ReleaseBundle
  import opened ScriptMeaning
  import ScriptParse
  import Hex

  /** What `git2` finds: no repository at all, a repository whose head leads to no commit, or a commit. */
  datatype Head = NoRepository | NoCommit | Commit(id: string)

  /** What the driver takes from the outside: the Move compiler, the hash function, and the repositories. */
  datatype World = World(
    build: string -> Option<Package>,
    compile: string -> Option<seq<Byte>>,
    sha3: seq<Byte> -> seq<Byte>,
    head: Head,
    builder: string,
    account: string)

  /** `RepositoryMissing` is the panic of the `unwrap` in `get_framework_git_head`. */
  datatype Error = RepositoryMissing | BuildFailed(name: string) | CompileFailed(name: string)

  /** One script: the directory it is compiled in, its text, its bytecode and the hash of the bytecode. */
  datatype Step = Step(dir: string, name: string, text: string, code: seq<Byte>, hash: seq<Byte>)

  const DEFAULT_MODULES: seq<string> := ["move-stdlib", "vendor-stdlib", "libra-framework"]

  function Git(w: World): string {
    if w.head.Commit? then w.head.id else "none"
  }

  function Label(order: nat, name: string): string {
    Dec(order) + ("-" + name)
  }

  /** The text starts with the decimal digits of a number, and a dash and the name follow. */
  predicate Numbered(text: string, number: nat, name: string) {
    var n := DigitLen(text);
    n > 0 && DecValue(0, text[..n]) == number && text[n..] == "-" + name
  }

  lemma LabelIsNumbered(order: nat, name: string)
    ensures Numbered(Label(order, name), order, name)
  {
    hide Dec, DecValue;
    DigitLenExact(Dec(order), "-" + name);
    DecRoundTrip(order);
  }

  /** The modules that are upgraded unless others are given, in the order they are deployed. */
  lemma DefaultModules()
    ensures DEFAULT_MODULES == ["move-stdlib", "vendor-stdlib", "libra-framework"]
  {
  }

  function MakeStep(w: World, order: nat, name: string, next: seq<Byte>): Result<Step, Error> {
    var package := w.build(name);
    if package.None? then Err(BuildFailed(name))
    else
      var text := ScriptText(package.value, w.account, next, Git(w), w.builder);
      var code := w.compile(text);
      if code.None? then Err(CompileFailed(name))
      else Ok(Step(Label(order, name), name, text, code.value, w.sha3(code.value)))
  }

  function FirstHash(steps: seq<Step>): seq<Byte> {
    if steps == [] then [] else steps[0].hash
  }

  /** The scripts of the modules from number `i` on, in the order they are deployed. */
  function Plan(w: World, names: seq<string>, i: nat): (r: Result<seq<Step>, Error>)
    requires i <= |names|
    ensures r.Ok? ==> |r.value| == |names| - i
    decreases |names| - i
  {
    if i == |names| then Ok([])
    else
      var rest :- Plan(w, names, i + 1);
      var step :- MakeStep(w, i + 1, names[i], FirstHash(rest));
      Ok([step] + rest)
  }

  lemma NoPlan(w: World, names: seq<string>)
    ensures Plan(w, names, |names|) == Ok([])
  {
  }

  lemma PlanCons(w: World, names: seq<string>, i: nat, step: Step, rest: seq<Step>)
    requires i < |names| && Plan(w, names, i + 1) == Ok(rest) && MakeStep(w, i + 1, names[i], FirstHash(rest)) == Ok(step)
    ensures Plan(w, names, i) == Ok([step] + rest)
  {
    hide MakeStep;
  }

  /** A failure of a module is a failure of the whole plan. */
  lemma {:induction false} PlanFails(w: World, names: seq<string>, i: nat)
    requires i <= |names| && Plan(w, names, i).Err?
    ensures Plan(w, names, 0) == Err(Plan(w, names, i).error)
    decreases i
  {
    if i > 0 {
      PlanFails(w, names, i - 1);
    }
  }

  lemma PlanStops(w: World, names: seq<string>, i: nat, e: Error, rest: seq<Step>)
    requires i < |names| && Plan(w, names, i + 1) == Ok(rest) && MakeStep(w, i + 1, names[i], FirstHash(rest)) == Err(e)
    ensures Plan(w, names, 0) == Err(e)
  {
    hide MakeStep;
    PlanFails(w, names, i);
  }

  function Reversed<T>(s: seq<T>): (r: seq<T>)
    ensures |r| == |s| && forall i :: 0 <= i < |s| ==> r[i] == s[|s| - 1 - i]
  {
    seq(|s|, i requires 0 <= i < |s| => s[|s| - 1 - i])
  }

  lemma ReversedSnoc<T>(s: seq<T>, x: T)
    ensures Reversed(s + [x]) == [x] + Reversed(s)
  {
  }

  lemma ReversedTwice<T>(s: seq<T>)
    ensures Reversed(Reversed(s)) == s
  {
  }

  function HashComment(hash: seq<Byte>): string {
    "// This script source hash " + ("(used for tx authorization): " + ("0x" + Hex.Encode(hash)))
  }

  /** The script as it is handed on, with its own hash in front. */
  function Format(step: Step): (string, string) {
    (step.name, HashComment(step.hash) + ("\n" + step.text))
  }

  function FormatAll(steps: seq<Step>): (r: seq<(string, string)>)
    ensures |r| == |steps| && forall i :: 0 <= i < |r| ==> r[i] == Format(steps[i])
  {
    seq(|steps|, i requires 0 <= i < |steps| => Format(steps[i]))
  }

  /** The loop over the reversed module list; the steps come out in the order they were compiled. */
  method MakeFrameworkUpgradeArtifacts(w: World, coreModules: Option<seq<string>>)
      returns (formatted: Result<seq<(string, string)>, Error>, steps: seq<Step>)
    ensures var plan := Plan(w, if coreModules.Some? then coreModules.value else DEFAULT_MODULES, 0);
      if w.head.NoRepository? then formatted == Err(RepositoryMissing) && steps == []
      else if plan.Ok? then steps == Reversed(plan.value) && formatted == Ok(FormatAll(Reversed(plan.value)))
      else formatted == Err(plan.error)
  {
    hide MakeStep, Format, Plan;
    if w.head.NoRepository? {
      return Err(RepositoryMissing), [];
    }
    var names := if coreModules.Some? then coreModules.value else DEFAULT_MODULES;
    var modules := Reversed(names);
    var nextExecutionHash: seq<Byte> := [];
    var scripts: seq<(string, string)> := [];
    steps := [];
    var len := |modules|;
    NoPlan(w, names);
    for idx := 0 to len
      invariant |steps| == idx && Plan(w, names, len - idx) == Ok(Reversed(steps))
      invariant nextExecutionHash == FirstHash(Reversed(steps))
      invariant scripts == FormatAll(steps)
    {
      var deployOrder := len - idx;
      var step := MakeStep(w, deployOrder, modules[idx], nextExecutionHash);
      assert modules[idx] == names[deployOrder - 1];
      if step.Err? {
        PlanStops(w, names, deployOrder - 1, step.error, Reversed(steps));
        return Err(step.error), steps;
      }
      PlanCons(w, names, deployOrder - 1, step.value, Reversed(steps));
      ReversedSnoc(steps, step.value);
      nextExecutionHash := step.value.hash;
      scripts := scripts + [Format(step.value)];
      steps := steps + [step.value];
    }
    ReversedTwice(steps);
    formatted := Ok(scripts);
  }

  // What a plan means ----------------------------------------------------------------------------------

  /** The texts that end up in a script are of the kind the generator is written for. */
  ghost predicate Printable(w: World) {
    && IsWord(w.account) && IsWord(Git(w)) && OneLine(w.builder)
    && forall name :: w.build(name).Some? ==> OneLine(w.build(name).value.name) && OneLine(w.build(name).value.digest)
  }

  ghost predicate HashLength(w: World) {
    forall code :: |w.sha3(code)| == 32
  }

  lemma {:induction false} PlanShape(w: World, names: seq<string>, i: nat, k: nat)
    requires i <= k < |names| && Plan(w, names, i).Ok?
    ensures Plan(w, names, k + 1).Ok?
    ensures Ok(Plan(w, names, i).value[k - i]) == MakeStep(w, k + 1, names[k], FirstHash(Plan(w, names, k + 1).value))
    ensures k + 1 < |names| ==> FirstHash(Plan(w, names, k + 1).value) == Plan(w, names, i).value[k + 1 - i].hash
    decreases k - i
  {
    hide MakeStep;
    if k > i {
      PlanShape(w, names, i + 1, k);
    }
  }

  lemma {:induction false} StepMade(w: World, order: nat, name: string, next: seq<Byte>, step: Step)
    requires MakeStep(w, order, name, next) == Ok(step)
    ensures step.name == name && step.dir == Label(order, name)
    ensures w.build(name).Some? && step.text == ScriptText(w.build(name).value, w.account, next, Git(w), w.builder)
    ensures w.compile(step.text) == Some(step.code) && step.hash == w.sha3(step.code)
  {
    hide Label, ScriptText, Git;
  }

  lemma {:induction false} StepHash(w: World, names: seq<string>, k: nat)
    requires HashLength(w) && Plan(w, names, 0).Ok? && k < |names|
    ensures |Plan(w, names, 0).value[k].hash| == 32
  {
    hide Plan, MakeStep;
    PlanShape(w, names, 0, k);
    StepMade(w, k + 1, names[k], FirstHash(Plan(w, names, k + 1).value), Plan(w, names, 0).value[k]);
  }

  /** The hash that script number `k` has to authorize: that of the next script, or none after the last. */
  function NextHash(plan: seq<Step>, k: nat): seq<Byte>
    requires k < |plan|
  {
    if k + 1 < |plan| then plan[k + 1].hash else []
  }

  /**
   * The scripts in deploy order form a chain: executing each one authorizes exactly the hash of the next
   * one, the last authorizes none, and each publishes the package of its own module in the caller's order.
   */
  lemma {:induction false} DeployChain(w: World, names: seq<string>, k: nat)
    requires Printable(w) && HashLength(w) && k < |names| && Plan(w, names, 0).Ok?
    ensures var plan := Plan(w, names, 0).value;
      && plan[k].name == names[k] && Numbered(plan[k].dir, k + 1, names[k])
      && w.compile(plan[k].text) == Some(plan[k].code) && plan[k].hash == w.sha3(plan[k].code)
    ensures var plan := Plan(w, names, 0).value;
      var (package, hash) := (w.build(names[k]), Hex.Decode(Git(w)));
      package.Some? && Execute(plan[k].text)
        == if hash.None? then None
           else Some([Resolved(w.account, NextHash(plan, k)),
                      Published(package.value.metadata, package.value.code),
                      GitSet(hash.value)])
  {
    hide Execute, ScriptText, Hex.Decode, ScriptParse.Embedded, HeaderIsComment, Plan, MakeStep, Label, Git, Numbered;
    PlanShape(w, names, 0, k);
    LabelIsNumbered(k + 1, names[k]);
    var plan := Plan(w, names, 0).value;
    StepMade(w, k + 1, names[k], FirstHash(Plan(w, names, k + 1).value), plan[k]);
    var package := w.build(names[k]).value;
    var next := NextHash(plan, k);
    if k + 1 < |names| {
      StepHash(w, names, k + 1);
    } else {
      NoPlan(w, names);
    }
    assert next == FirstHash(Plan(w, names, k + 1).value);
    HashIsEmbedded(next);
    OneLineHeader(package, next, Git(w), w.builder);
    ScriptPublishesPackage(package, w.account, next, Git(w), w.builder);
  }

  /** In a repository whose head leads to no commit every script of a plan is invalid; otherwise it records that commit. */
  lemma {:induction false} CommitOfPlan(w: World, names: seq<string>, k: nat)
    requires Printable(w) && HashLength(w) && k < |names| && Plan(w, names, 0).Ok?
    ensures w.head.NoCommit? ==> Execute(Plan(w, names, 0).value[k].text) == None
    ensures w.head.Commit? && Hex.Decode(w.head.id).Some? ==>
      var events := Execute(Plan(w, names, 0).value[k].text);
      events.Some? && |events.value| == 3 && events.value[2] == GitSet(Hex.Decode(w.head.id).value)
  {
    hide Execute, Plan, Hex.Decode, Printable, HashLength, NextHash, Numbered;
    DeployChain(w, names, k);
    NoneIsNoHex();
  }

  lemma NoneIsNoHex()
    ensures Hex.Decode("none") == None
  {
    assert Hex.DigitValue("none"[0]) == None;
  }

  /** The text handed on does what the script does: in front of it is a comment, which ends with the script's hash. */
  lemma {:induction false} FormattedScript(step: Step)
    ensures Execute(Format(step).1) == Execute(step.text)
    ensures var comment := HashComment(step.hash);
      Format(step) == (step.name, comment + ("\n" + step.text)) && EndsWithHash(comment, step.hash)
  {
    hide Skip, Run, Finish, ReadUses, ReadWord, HashComment, EndsWithHash;
    HashCommentOneLine(step.hash);
    SkipComment(HashComment(step.hash), step.text);
    CommentEndsWithHash(step.hash);
  }

  /** The last characters, behind `0x`, read as the hash. */
  predicate EndsWithHash(comment: string, hash: seq<Byte>) {
    var n := |comment| - 2 * |hash|;
    n >= 2 && comment[n - 2..n] == "0x" && Hex.Decode(comment[n..]) == Some(hash)
  }

  lemma CommentEndsWithHash(hash: seq<Byte>)
    ensures EndsWithHash(HashComment(hash), hash)
  {
    hide Hex.Encode, Hex.Decode;
    Hex.EncodeRoundTrip(hash);
    TailOf("// This script source hash ", "(used for tx authorization): ", "0x", Hex.Encode(hash));
  }

  lemma TailOf(a: string, b: string, prefix: string, digits: string)
    requires |prefix| == 2
    ensures var text := a + (b + (prefix + digits));
      var n := |text| - |digits|;
      n >= 2 && text[n - 2..n] == prefix && text[n..] == digits
  {
  }

  lemma HashCommentOneLine(hash: seq<Byte>)
    ensures OneLine(HashComment(hash)) && "//" <= HashComment(hash)
  {
    hide Hex.Encode;
    EncodeOneLine(hash);
  }

  // The first hash fixes everything ------------------------------------------------------------------------

  /** No script of one plan collides with one of the other. */
  ghost predicate CollisionFree(p: seq<Step>, q: seq<Step>) {
    forall i, j :: 0 <= i < |p| && 0 <= j < |q| && p[i].hash == q[j].hash ==> p[i].code == q[j].code
  }

  /** The bytecode of each script does what its text does. */
  ghost predicate Faithful(steps: seq<Step>, run: seq<Byte> -> Option<seq<Event>>) {
    forall i :: 0 <= i < |steps| ==> run(steps[i].code) == Execute(steps[i].text)
  }

  /** From script number `i` on, two plans have the same bytecode and do the same. */
  ghost predicate SameFrom(p: seq<Step>, q: seq<Step>, i: nat) {
    |p| == |q| && forall k :: i <= k < |p| ==> p[k].code == q[k].code && Execute(p[k].text) == Execute(q[k].text)
  }

  /** What executing a script says about its successor. */
  lemma {:induction false} Authorizes(w: World, names: seq<string>, k: nat)
    requires Printable(w) && HashLength(w) && k < |names| && Plan(w, names, 0).Ok?
    ensures var (plan, events) := (Plan(w, names, 0).value, Execute(Plan(w, names, 0).value[k].text));
      && w.compile(plan[k].text) == Some(plan[k].code) && plan[k].hash == w.sha3(plan[k].code)
      && (events.Some? <==> Hex.Decode(Git(w)).Some?)
      && (events.Some? ==> events.value != [] && events.value[0] == Resolved(w.account, NextHash(plan, k)))
  {
    hide Execute, Plan, Hex.Decode, Git, NextHash, Printable, Label;
    DeployChain(w, names, k);
  }

  lemma {:induction false} SameStep(v: World, w: World, ms: seq<string>, ns: seq<string>,
      run: seq<Byte> -> Option<seq<Event>>, k: nat)
    requires Printable(v) && Printable(w) && HashLength(v) && HashLength(w) && Hex.Decode(Git(v)).Some?
    requires Plan(v, ms, 0).Ok? && Plan(w, ns, 0).Ok? && k < |ms| && k < |ns|
    requires Faithful(Plan(v, ms, 0).value, run) && Faithful(Plan(w, ns, 0).value, run)
    requires CollisionFree(Plan(v, ms, 0).value, Plan(w, ns, 0).value)
    requires Plan(v, ms, 0).value[k].hash == Plan(w, ns, 0).value[k].hash
    ensures var (p, q) := (Plan(v, ms, 0).value, Plan(w, ns, 0).value);
      p[k].code == q[k].code && Execute(p[k].text) == Execute(q[k].text) && NextHash(p, k) == NextHash(q, k)
  {
    hide Execute, Plan, Hex.Decode, Git, NextHash, Printable, HashLength, CollisionFree, Faithful;
    Authorizes(v, ms, k);
    Authorizes(w, ns, k);
    NoCollision(Plan(v, ms, 0).value, Plan(w, ns, 0).value, k);
    SameCode(Plan(v, ms, 0).value, Plan(w, ns, 0).value, run, k);
  }

  lemma NoCollision(p: seq<Step>, q: seq<Step>, k: nat)
    requires CollisionFree(p, q) && k < |p| && k < |q| && p[k].hash == q[k].hash
    ensures p[k].code == q[k].code
  {
  }

  lemma SameCode(p: seq<Step>, q: seq<Step>, run: seq<Byte> -> Option<seq<Event>>, k: nat)
    requires Faithful(p, run) && Faithful(q, run) && k < |p| && k < |q| && p[k].code == q[k].code
    ensures Execute(p[k].text) == Execute(q[k].text)
  {
    hide Execute;
    assert run(p[k].code) == Execute(p[k].text);
  }

  lemma {:induction false} SameChain(v: World, w: World, ms: seq<string>, ns: seq<string>,
      run: seq<Byte> -> Option<seq<Event>>, k: nat)
    requires Printable(v) && Printable(w) && HashLength(v) && HashLength(w) && Hex.Decode(Git(v)).Some?
    requires Plan(v, ms, 0).Ok? && Plan(w, ns, 0).Ok? && k < |ms| && k < |ns|
    requires Faithful(Plan(v, ms, 0).value, run) && Faithful(Plan(w, ns, 0).value, run)
    requires CollisionFree(Plan(v, ms, 0).value, Plan(w, ns, 0).value)
    requires Plan(v, ms, 0).value[k].hash == Plan(w, ns, 0).value[k].hash
    ensures SameFrom(Plan(v, ms, 0).value, Plan(w, ns, 0).value, k)
    decreases |ms| - k
  {
    hide Execute, Plan, Hex.Decode, Git, Faithful, CollisionFree, Printable;
    SameStep(v, w, ms, ns, run, k);
    var (p, q) := (Plan(v, ms, 0).value, Plan(w, ns, 0).value);
    if k + 1 < |p| {
      StepHash(v, ms, k + 1);
    }
    if k + 1 < |q| {
      StepHash(w, ns, k + 1);
    }
    if k + 1 < |p| && k + 1 < |q| {
      SameChain(v, w, ms, ns, run, k + 1);
    }
  }

  /**
   * Unless two scripts collide, the hash of the first script fixes the whole sequence: two proposals that
   * agree on it, compiled faithfully from whatever packages, have as many scripts, the same bytecode in every
   * position, and every script of one does exactly what its counterpart does.
   */
  lemma {:induction false} FirstHashFixesAll(v: World, w: World, ms: seq<string>, ns: seq<string>,
      run: seq<Byte> -> Option<seq<Event>>)
    requires Printable(v) && Printable(w) && HashLength(v) && HashLength(w) && Hex.Decode(Git(v)).Some?
    requires Plan(v, ms, 0).Ok? && Plan(w, ns, 0).Ok? && ms != [] && ns != []
    requires Faithful(Plan(v, ms, 0).value, run) && Faithful(Plan(w, ns, 0).value, run)
    requires CollisionFree(Plan(v, ms, 0).value, Plan(w, ns, 0).value)
    requires FirstHash(Plan(v, ms, 0).value) == FirstHash(Plan(w, ns, 0).value)
    ensures SameFrom(Plan(v, ms, 0).value, Plan(w, ns, 0).value, 0)
  {
    hide Plan, Printable, HashLength, CollisionFree, Faithful, SameFrom, Hex.Decode, Git;
    SameChain(v, w, ms, ns, run, 0);
  }

  // Two proposals that meet the hypotheses: their texts name different packages, the comment that does so is lost.

  function SampleText(name: string, next: seq<Byte>): string {
    ScriptText(Package(name, "d", [1], [[2]]), "1", next, "00", "b")
  }

  function SampleHash(code: seq<Byte>): seq<Byte> {
    seq(32, _ => if code == [1] then 1 else 0)
  }

  function SampleCompile(text: string): Option<seq<Byte>> {
    if text == SampleText("p", []) || text == SampleText("q", []) then Some([2])
    else if text == SampleText("p", SampleHash([2])) || text == SampleText("q", SampleHash([2])) then Some([1])
    else None
  }

  function SampleRun(code: seq<Byte>): Option<seq<Event>> {
    Execute(SampleText("p", if code == [1] then SampleHash([2]) else []))
  }

  function SampleBuild(name: string): string -> Option<Package> {
    _ => Some(Package(name, "d", [1], [[2]]))
  }

  function SampleWorld(name: string): World {
    World(SampleBuild(name), SampleCompile, SampleHash, Commit("00"), "b", "1")
  }

  predicate IsSample(name: string) {
    name == "p" || name == "q"
  }

  lemma ZeroCommit()
    ensures Hex.Decode("00") == Some([0])
  {
    assert "00"[2..] == "" && "00"[0] == '0' && "00"[1] == '0';
    assert Hex.Decode("") == Some([]) && Hex.DigitValue('0') == Some(0);
    assert [16 * 0 + 0] + [] == [0];
  }

  lemma SampleRuns(name: string, next: seq<Byte>)
    requires IsSample(name) && (|next| == 32 || next == [])
    ensures Execute(SampleText(name, next)) == Some([Resolved("1", next), Published([1], [[2]]), GitSet([0])])
  {
    hide Execute, ScriptText, ScriptParse.Embedded, Hex.Decode, HeaderIsComment;
    HashIsEmbedded(next);
    ZeroCommit();
    OneLineHeader(Package(name, "d", [1], [[2]]), next, "00", "b");
    ScriptPublishesPackage(Package(name, "d", [1], [[2]]), "1", next, "00", "b");
  }

  lemma SampleCompiles(name: string)
    requires IsSample(name)
    ensures SampleCompile(SampleText(name, [])) == Some([2]) && SampleCompile(SampleText(name, SampleHash([2]))) == Some([1])
  {
    hide Execute, SampleText, SampleHash;
    SampleHashLength();
    SampleRuns(name, SampleHash([2]));
    SampleRuns("p", []);
    SampleRuns("q", []);
  }

  lemma SampleHashLength()
    ensures |SampleHash([2])| == 32
    ensures SampleHash([1]) != SampleHash([2])
  {
    assert SampleHash([1])[0] == 1 && SampleHash([2])[0] == 0;
  }

  /** The plan of a sample: two scripts, the first of which authorizes the second. */
  function SamplePlan(name: string): seq<Step> {
    [Step(Label(1, "a"), "a", SampleText(name, SampleHash([2])), [1], SampleHash([1])),
     Step(Label(2, "b"), "b", SampleText(name, []), [2], SampleHash([2]))]
  }

  lemma SamplePlanned(name: string)
    requires IsSample(name)
    ensures Plan(SampleWorld(name), ["a", "b"], 0) == Ok(SamplePlan(name))
  {
    hide SampleText, SampleHash, SampleCompile, Label, Plan, MakeStep, SampleWorld;
    var (w, names, plan) := (SampleWorld(name), ["a", "b"], SamplePlan(name));
    SampleCompiles(name);
    SampleStep(name, 2, "b", []);
    SampleStep(name, 1, "a", SampleHash([2]));
    NoPlan(w, names);
    PlanCons(w, names, 1, plan[1], []);
    assert [plan[1]] + [] == [plan[1]];
    PlanCons(w, names, 0, plan[0], [plan[1]]);
    assert [plan[0]] + [plan[1]] == plan;
  }

  lemma SampleStep(name: string, order: nat, moduleName: string, next: seq<Byte>)
    requires SampleCompile(SampleText(name, next)).Some?
    ensures var code := SampleCompile(SampleText(name, next)).value;
      MakeStep(SampleWorld(name), order, moduleName, next)
      == Ok(Step(Label(order, moduleName), moduleName, SampleText(name, next), code, SampleHash(code)))
  {
    hide ScriptText, SampleHash, SampleCompile, Label;
  }

  lemma SampleFaithful(name: string)
    requires IsSample(name)
    ensures Faithful(SamplePlan(name), SampleRun)
  {
    hide Execute, SampleText, SampleHash, Label;
    SampleHashLength();
    SampleRuns(name, SampleHash([2]));
    SampleRuns("p", SampleHash([2]));
    SampleRuns(name, []);
    SampleRuns("p", []);
  }

  /** The text differs in the name of the package. */
  lemma NameInText(package: Package, addr: string, next: seq<Byte>, git: string, builder: string)
    requires package.name != ""
    ensures var (text, prefix) := (ScriptText(package, addr, next, git, builder), "// Upgrade proposal for package `");
      |text| > |prefix| && text[|prefix|] == package.name[0]
  {
    hide Spaces, BodyText, ClosingLines, OpeningLines, LinesText;
    var lines := HeaderLines(package, next, git, builder);
    MarginZero();
    assert lines == [lines[0]] + lines[1..];
    LinesUnfold(lines[0], lines[1..]);
  }

  lemma SampleTextsDiffer(next: seq<Byte>)
    ensures SampleText("p", next) != SampleText("q", next)
  {
    hide ScriptText;
    NameInText(Package("p", "d", [1], [[2]]), "1", next, "00", "b");
    NameInText(Package("q", "d", [1], [[2]]), "1", next, "00", "b");
  }

  lemma SampleWorldFits(name: string)
    requires IsSample(name)
    ensures Printable(SampleWorld(name)) && HashLength(SampleWorld(name)) && Hex.Decode(Git(SampleWorld(name))).Some?
  {
    hide SampleCompile, SampleText, Hex.Decode;
    ZeroCommit();
  }

  /** The hypotheses of `FirstHashFixesAll` can be met by two different plans of several scripts. */
  lemma HypothesesHold() returns (v: World, w: World, names: seq<string>, run: seq<Byte> -> Option<seq<Event>>)
    ensures Printable(v) && Printable(w) && HashLength(v) && HashLength(w) && Hex.Decode(Git(v)).Some?
    ensures v.compile == w.compile && v.sha3 == w.sha3
    ensures |names| == 2 && Plan(v, names, 0).Ok? && Plan(w, names, 0).Ok?
    ensures var (p, q) := (Plan(v, names, 0).value, Plan(w, names, 0).value);
      && Faithful(p, run) && Faithful(q, run) && CollisionFree(p, q)
      && FirstHash(p) == FirstHash(q) && p[0].text != q[0].text && p[1].text != q[1].text
  {
    hide Execute, ScriptText, SampleText, SampleHash, Plan, Faithful, Label;
    v, w, names, run := SampleWorld("p"), SampleWorld("q"), ["a", "b"], SampleRun;
    SampleWorldFits("p");
    SampleWorldFits("q");
    SamplePlanned("p");
    SamplePlanned("q");
    SampleFaithful("p");
    SampleFaithful("q");
    SampleHashLength();
    SampleTextsDiffer(SampleHash([2]));
    SampleTextsDiffer([]);
  }

  // Writing the scripts to files ------------------------------------------------------------------------------

  /** The file names `write_to_file` gives to the scripts it is handed. */
  function FileNames(scripts: seq<(string, string)>): (r: seq<string>)
    ensures |r| == |scripts| && forall i :: 0 <= i < |r| ==> r[i] == Label(i, scripts[i].0)
  {
    seq(|scripts|, i requires 0 <= i < |scripts| => Label(i, scripts[i].0))
  }

  /**
   * The files are numbered from zero in the order of compilation, not in the deploy order of the directories:
   * the two numbers of a script add up to the number of scripts.
   */
  lemma {:induction false} FileNumbering(w: World, names: seq<string>, k: nat)
    requires Plan(w, names, 0).Ok? && k < |names|
    ensures Numbered(Plan(w, names, 0).value[k].dir, k + 1, names[k])
    ensures var files := FileNames(FormatAll(Reversed(Plan(w, names, 0).value)));
      |files| == |names| && Numbered(files[|names| - (k + 1)], |names| - (k + 1), names[k])
  {
    hide *;
    LabelIsNumbered(k + 1, names[k]);
    LabelIsNumbered(|names| - (k + 1), names[k]);
    PlanShape(w, names, 0, k);
    StepMade(w, k + 1, names[k], FirstHash(Plan(w, names, k + 1).value), Plan(w, names, 0).value[k]);
    FileName(Plan(w, names, 0).value, k);
  }

  lemma FileName(plan: seq<Step>, k: nat)
    requires k < |plan|
    ensures var files := FileNames(FormatAll(Reversed(plan)));
      |files| == |plan| && files[|plan| - (k + 1)] == Label(|plan| - (k + 1), plan[k].name)
  {
    hide Label, HashComment;
    var i := |plan| - (k + 1);
    assert FormatAll(Reversed(plan))[i].0 == Reversed(plan)[i].name == plan[k].name;
  }
}
