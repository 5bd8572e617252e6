/** Whole programs: the emitted code halts exactly when the program ends, and in the same state. */
module Programs {
  import opened Basics
  import opened Machine
  import opened Expressions
  import opened Statements
  import opened Growth
  import opened Lowering
  import opened Source

  // ---------- which source programs are covered ----------

  /** The programs that the generator handles: `break` and `continue` stand in loops, a switch on a constant finds a
      body, and the interval of a jump table does not wrap. */
  ghost predicate SourceOk(s: Source, env: Env, inLoop: bool)
    requires Parses(s)
    decreases s
  {
    match s
    case Eff(e) => WellTyped(e, env)
    case Block(list) => SourceListOk(list, env, inLoop)
    case Cond(c, thn, els) =>
      WellTyped(c, env) && SourceOk(thn, env, inLoop) && (els.Some? ==> SourceOk(els.value, env, inLoop))
    case Choose(c, gs, dflt) =>
      && WellTyped(c, env) && SourceGroupsOk(gs, env, inLoop)
      && (if dflt.Some? then SourceOk(dflt.value, env, inLoop)
          else Hits(DesugarGroups(gs), GenExpr(c, env, EMPTY).res.val))
      && (UseTable(DesugarGroups(gs)) ==> TableFits(DesugarGroups(gs)))
    case Forever(body) => SourceOk(body, env, true)
    case While(c, body) => WellTyped(c, env) && SourceOk(body, env, true)
    case Do(body, c) => WellTyped(c, env) && SourceOk(body, env, true)
    case For(init, test, step, body) =>
      && SourceOk(init, env, inLoop) && SourceOk(body, env, true)
      && (test.Some? ==> WellTyped(test.value, env)) && (step.Some? ==> WellTyped(step.value, env))
    case Leave => inLoop
    case Next => inLoop
  }

  ghost predicate SourceListOk(l: SourceList, env: Env, inLoop: bool)
    requires ListParses(l)
    decreases l
  {
    l.Stmts? ==> SourceOk(l.head, env, inLoop) && SourceListOk(l.tail, env, inLoop)
  }

  ghost predicate SourceGroupsOk(gs: SourceGroups, env: Env, inLoop: bool)
    requires GroupsParse(gs)
    decreases gs
  {
    gs.Case? ==> RangesFit(gs.ranges) && SourceOk(gs.body, env, inLoop) && SourceGroupsOk(gs.next, env, inLoop)
  }

  // ---------- their trees are covered ----------

  lemma {:induction false} JoinOk(l: StmtList, tail: StmtList, env: Env)
    requires ListOk(l, env, true, false) && ListOk(tail, env, true, true)
    ensures ListOk(Join(l, tail), env, true, true)
  {
    if l.Node? {
      JoinOk(l.next, tail, env);
    }
  }

  lemma AsListOk(s: Stmt, env: Env, inLoop: bool)
    requires StmtOk(s, env, inLoop)
    ensures ListOk(AsList(s), env, inLoop, false)
  {
    if !s.Body? {
      assert ListOk(End, env, inLoop, false);
    }
  }

  lemma {:induction false} LabelledOk(l: StmtList, env: Env)
    requires ListOk(l, env, true, false)
    ensures ListOk(l, env, true, true)
  {
    if l.Node? {
      LabelledOk(l.next, env);
    }
  }

  lemma BreakUnlessOk(c: Expr, l: StmtList, env: Env)
    requires WellTyped(c, env) && ListOk(l, env, true, true)
    ensures ListOk(Node(BreakUnless(c), l), env, true, true)
  {
    assert StmtOk(BreakUnless(c), env, true);
  }

  lemma {:induction false} DesugarOk(s: Source, env: Env, inLoop: bool)
    requires Parses(s) && SourceOk(s, env, inLoop)
    ensures StmtOk(Desugar(s), env, inLoop)
    decreases s
  {
    match s
    case Block(list) => DesugarListOk(list, env, inLoop);
    case Cond(_, thn, els) =>
      DesugarOk(thn, env, inLoop);
      if els.Some? { DesugarOk(els.value, env, inLoop); }
    case Choose(_, gs, dflt) =>
      DesugarGroupsOk(gs, env, inLoop);
      if dflt.Some? { DesugarOk(dflt.value, env, inLoop); }
    case Forever(body) =>
      DesugarOk(body, env, true);
      AsListOk(Desugar(body), env, true);
      LabelledOk(AsList(Desugar(body)), env);
    case While(c, body) =>
      DesugarOk(body, env, true);
      AsListOk(Desugar(body), env, true);
      LabelledOk(AsList(Desugar(body)), env);
      BreakUnlessOk(c, AsList(Desugar(body)), env);
    case Do(body, c) =>
      DesugarOk(body, env, true);
      AsListOk(Desugar(body), env, true);
      BreakUnlessOk(c, End, env);
      JoinOk(AsList(Desugar(body)), Node(BreakUnless(c), End), env);
    case For(_, _, _, _) => ForOk(s, env, inLoop);
    case _ =>
  }

  lemma ForOk(s: Source, env: Env, inLoop: bool)
    requires s.For? && Parses(s) && SourceOk(s, env, inLoop)
    ensures StmtOk(Desugar(s), env, inLoop)
    decreases s, 0
  {
    var l := AsList(Desugar(s.body));
    DesugarOk(s.init, env, inLoop);
    DesugarOk(s.body, env, true);
    AsListOk(Desugar(s.body), env, true);
    if s.step.Some? {
      var e := ExprStmt(s.step.value);
      assert Plain(Node(e, End), env);
      JoinTwice(l, ContinueLabel, e);
      JoinOk(l, Node(ContinueLabel, Node(e, End)), env);
    } else {
      JoinOk(l, Node(ContinueLabel, End), env);
    }
    assert ListOk(ForTail(s), env, true, true);
    if s.test.Some? {
      BreakUnlessOk(s.test.value, ForTail(s), env);
    }
    assert StmtOk(LoopOf(s), env, inLoop);
    assert Desugar(s) == Body(Node(Desugar(s.init), Node(LoopOf(s), End)));
    assert ListOk(Node(LoopOf(s), End), env, inLoop, false);
  }

  lemma {:induction false} DesugarListOk(l: SourceList, env: Env, inLoop: bool)
    requires ListParses(l) && SourceListOk(l, env, inLoop)
    ensures ListOk(DesugarList(l), env, inLoop, false)
    decreases l
  {
    if l.Stmts? {
      DesugarOk(l.head, env, inLoop);
      DesugarListOk(l.tail, env, inLoop);
    }
  }

  lemma {:induction false} DesugarGroupsOk(gs: SourceGroups, env: Env, inLoop: bool)
    requires GroupsParse(gs) && SourceGroupsOk(gs, env, inLoop)
    ensures GroupsOk(DesugarGroups(gs), env, inLoop)
    decreases gs
  {
    if gs.Case? {
      DesugarOk(gs.body, env, inLoop);
      DesugarGroupsOk(gs.next, env, inLoop);
    }
  }

  // ---------- break and continue stay inside their loops ----------

  lemma {:induction false} NoEscape(s: Source, env: Env, st: State, w: World, fuel: nat, tested: bool)
    requires Parses(s) && SourceOk(s, env, false)
    ensures var r := Mean(s, st, w, fuel, tested); r.Done? ==> r.kind == Normal
    decreases s
  {
    match s
    case Block(list) => ListNoEscape(list, env, st, w, fuel, tested);
    case Cond(c, thn, els) =>
      var x := Eval(c, st, w);
      NoEscape(thn, env, x.st, w, fuel, tested);
      if els.Some? { NoEscape(els.value, env, x.st, w, fuel, tested); }
    case Choose(c, gs, dflt) =>
      var x := Eval(c, st, w);
      var v := IntOf(x.v);
      PickSmaller(gs, v);
      if Pick(gs, v).Some? {
        PickOk(gs, env, false, v);
        NoEscape(Pick(gs, v).value, env, x.st, w, fuel, tested);
      }
      if dflt.Some? { NoEscape(dflt.value, env, x.st, w, fuel, tested); }
      if gs.Case? { NoEscape(gs.body, env, x.st, w, fuel, tested); }
    case For(init, _, _, _) =>
      NoEscape(init, env, st, w, fuel, tested);
      var r := Mean(init, st, w, fuel, tested);
      if r.Done? { TurnsNormal(s, r.st, w, fuel, tested); }
    case Forever(_) => TurnsNormal(s, st, w, fuel, tested);
    case While(_, _) => TurnsNormal(s, st, w, fuel, tested);
    case Do(_, _) => TurnsNormal(s, st, w, fuel, tested);
    case _ =>
  }

  lemma {:induction false} ListNoEscape(l: SourceList, env: Env, st: State, w: World, fuel: nat, tested: bool)
    requires ListParses(l) && SourceListOk(l, env, false)
    ensures var r := MeanList(l, st, w, fuel, tested); r.Done? ==> r.kind == Normal
    decreases l
  {
    if l.Stmts? {
      NoEscape(l.head, env, st, w, fuel, tested);
      var r := Mean(l.head, st, w, fuel, tested);
      ListNoEscape(l.tail, env, if r.Done? then r.st else st, w, fuel, tested);
    }
  }

  lemma {:induction false} PickOk(gs: SourceGroups, env: Env, inLoop: bool, v: int)
    requires GroupsParse(gs) && SourceGroupsOk(gs, env, inLoop) && Pick(gs, v).Some?
    ensures Parses(Pick(gs, v).value) && SourceOk(Pick(gs, v).value, env, inLoop)
  {
    if !InSome(v, gs.ranges) {
      PickOk(gs.next, env, inLoop, v);
    }
  }

  // ---------- the theorem ----------

  /** The code of a whole program; no loop is open around it. */
  function Compile(s: Source, env: Env): Builder
    requires Parses(s)
  {
    GenStmt(Desugar(s), env, Ctl(0, 0), EMPTY)
  }

  function Start(st: State): Config {
    Config(0, st, map[])
  }

  /** How expressions are read: by their meaning, or as the code does. */
  function Reading(w: World, env: Env, meant: bool): World {
    w.(code := if meant then None else Some(env))
  }

  /** The program ends in state `end` (after an error, if that state says so), by its meaning if `meant`.  Otherwise
      it is read as the code does it, which also means that a `continue` in a do-statement starts the body again at
      once. */
  ghost predicate Ends(s: Source, env: Env, st: State, w: World, end: State, meant: bool) {
    exists fuel: nat :: Mean(s, st, Reading(w, env, meant), fuel, meant) == Done(Normal, end)
  }

  /** The code stops in state `end`. */
  ghost predicate Halts(p: Builder, st: State, w: World, end: State) {
    exists n: nat :: HaltsAt(p, st, w, end, n)
  }

  ghost predicate HaltsAt(p: Builder, st: State, w: World, end: State, n: nat) {
    Run(p, w, Start(st), n).pc >= |p.code| && Run(p, w, Start(st), n).st == end
  }

  /** A run in which the code's way of reading the program makes no difference. */
  ghost predicate HarmlessRun(s: Source, env: Env, st: State, w: World) {
    forall fuel: nat :: Harmless(s, st, Reading(w, env, true), env, fuel)
  }

  /** Every run of an orderly program is so. */
  lemma OrderlyHarmlessRun(s: Source, env: Env, st: State, w: World)
    requires Orderly(s, env)
    ensures HarmlessRun(s, env, st, w)
  {
    forall fuel: nat ensures Harmless(s, st, Reading(w, env, true), env, fuel) {
      OrderlyHarmless(s, st, Reading(w, env, true), env, fuel);
    }
  }

  lemma RunFollowsMeaning(s: Source, env: Env, st: State, w: World, fuel: nat, meant: bool) returns (d: Config)
    requires Parses(s) && SourceOk(s, env, false) && Good(st, env) && FitWorld(w, env)
    requires meant ==> Harmless(s, st, Reading(w, env, true), env, fuel)
    ensures var p := Compile(s, env);
      var r := Mean(s, st, Reading(w, env, meant), fuel, meant);
      if r.Timeout? then Survives(p, w, Start(st), fuel)
      else r.kind == Normal && Leads(p, w, Start(st), d, 0) && d.st == r.st && d.pc >= |p.code|
  {
    var p := Compile(s, env);
    DesugarOk(s, env, false);
    DesugarKeepsMeaning(s, st, w, fuel);
    if meant { DesugarCorrect(s, st, Reading(w, env, true), env, fuel); }
    NoEscape(s, env, st, Reading(w, env, meant), fuel, meant);
    d := RunStmt(Desugar(s), env, false, Ctl(0, 0), EMPTY, p, w, Start(st), fuel);
  }

  lemma HaltsOnce(p: Builder, w: World, c: Config, m: nat, n: nat)
    requires Run(p, w, c, m).pc >= |p.code| && m <= n
    ensures Run(p, w, c, n) == Run(p, w, c, m)
  {
    RunAdd(p, w, c, m, n - m);
    HaltedStays(p, w, Run(p, w, c, m), n - m);
  }

  /** The emitted code computes the program: it stops in a state exactly when the program ends in that
      state.  For every program this is so with the code's own reading, and with the intended one in every run in
      which the difference is harmless. */
  lemma CompileCorrect(s: Source, env: Env, st: State, w: World, end: State, meant: bool)
    requires Parses(s) && SourceOk(s, env, false) && Good(st, env) && FitWorld(w, env)
    requires meant ==> HarmlessRun(s, env, st, w)
    ensures Halts(Compile(s, env), st, w, end) <==> Ends(s, env, st, w, end, meant)
  {
    hide Mean, Compile, SourceOk, Parses, Good, FitWorld, Harmless, Run;
    var p, c := Compile(s, env), Start(st);
    if Ends(s, env, st, w, end, meant) {
      var fuel: nat :| Mean(s, st, Reading(w, env, meant), fuel, meant) == Done(Normal, end);
      var d := RunFollowsMeaning(s, env, st, w, fuel, meant);
      var n: nat :| Run(p, w, c, n) == d;
      assert HaltsAt(p, st, w, end, n);
    }
    if Halts(p, st, w, end) {
      var n: nat :| HaltsAt(p, st, w, end, n);
      var d := RunFollowsMeaning(s, env, st, w, n, meant);
      var r := Mean(s, st, Reading(w, env, meant), n, meant);
      if r.Timeout? {
        var m: nat :| m >= n && Run(p, w, c, m).pc < |p.code|;
        HaltsOnce(p, w, c, n, m);
        assert false;
      } else {
        var m: nat :| Run(p, w, c, m) == d;
        if m <= n { HaltsOnce(p, w, c, m, n); } else { HaltsOnce(p, w, c, n, m); }
      }
    }
  }

  ghost predicate Running(p: Builder, st: State, w: World, n: nat) {
    Run(p, w, Start(st), n).pc < |p.code|
  }

  ghost predicate Unfinished(s: Source, env: Env, st: State, w: World, fuel: nat, meant: bool) {
    Mean(s, st, Reading(w, env, meant), fuel, meant) == Timeout
  }

  lemma NeverEnds(s: Source, env: Env, st: State, w: World, end: State, meant: bool)
    requires forall fuel: nat :: Unfinished(s, env, st, w, fuel, meant)
    ensures !Ends(s, env, st, w, end, meant)
  {
    forall fuel: nat ensures Mean(s, st, Reading(w, env, meant), fuel, meant) != Done(Normal, end) {
      assert Unfinished(s, env, st, w, fuel, meant);
    }
  }

  /** A program whose iterations never come to an end is compiled to code that never stops. */
  lemma DivergesCorrect(s: Source, env: Env, st: State, w: World, meant: bool)
    requires Parses(s) && SourceOk(s, env, false) && Good(st, env) && FitWorld(w, env)
    requires meant ==> HarmlessRun(s, env, st, w)
    ensures (forall n: nat :: Running(Compile(s, env), st, w, n)) <==> (forall fuel: nat :: Unfinished(s, env, st, w, fuel, meant))
  {
    var p, c := Compile(s, env), Start(st);
    if forall fuel: nat :: Unfinished(s, env, st, w, fuel, meant) {
      forall n: nat ensures Running(p, st, w, n) {
        if !Running(p, st, w, n) {
          var end := Run(p, w, c, n).st;
          assert HaltsAt(p, st, w, end, n);
          NeverEnds(s, env, st, w, end, meant);
          CompileCorrect(s, env, st, w, end, meant);
          assert false;
        }
      }
    } else {
      var fuel: nat :| !Unfinished(s, env, st, w, fuel, meant);
      var d := RunFollowsMeaning(s, env, st, w, fuel, meant);
      var n: nat :| Run(p, w, c, n) == d;
      assert !Running(p, st, w, n);
    }
  }
}
