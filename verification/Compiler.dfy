/** The handlers, run on what the parser built from a script: the function they leave behind computes the script. */
module Compiler {
  import opened Basics
  import opened Machine
  import opened Expressions
  import opened Statements
  import opened Lowering
  import opened Source
  import opened Programs
  import E = Emitter

  // ---------- accepted programs are generated without an error ----------

  lemma {:induction false} OkCompiles(s: Stmt, env: Env, inLoop: bool)
    requires StmtOk(s, env, inLoop)
    ensures E.Shaped(s) && E.Compiles(s, env, inLoop)
    decreases s
  {
    match s
    case Body(list) => ListOkCompiles(list, env, inLoop, false);
    case If(_, thn, els) =>
      if thn.Some? { OkCompiles(thn.value, env, inLoop); }
      if els.Some? { OkCompiles(els.value, env, inLoop); }
    case Switch(_, gs, dflt) =>
      GroupsOkCompile(gs, env, inLoop);
      if dflt.Some? { OkCompiles(dflt.value, env, inLoop); }
    case Loop(body) =>
      if body.Body? { ListOkCompiles(body.list, env, true, true); } else { OkCompiles(body, env, true); }
    case _ =>
  }

  lemma {:induction false} ListOkCompiles(l: StmtList, env: Env, inLoop: bool, labelled: bool)
    requires ListOk(l, env, inLoop, labelled) && (labelled ==> inLoop)
    ensures E.ShapedList(l, labelled) && E.ListCompiles(l, env, inLoop)
    decreases l
  {
    if l.Node? {
      if labelled && l.entry == ContinueLabel {
        PlainCompiles(l.next, env, inLoop);
      } else {
        OkCompiles(l.entry, env, inLoop);
        ListOkCompiles(l.next, env, inLoop, labelled);
      }
    }
  }

  lemma {:induction false} PlainCompiles(l: StmtList, env: Env, inLoop: bool)
    requires Plain(l, env)
    ensures E.ShapedList(l, true) && E.ListCompiles(l, env, inLoop)
    decreases l
  {
    if l.Node? {
      PlainCompiles(l.next, env, inLoop);
    }
  }

  lemma {:induction false} GroupsOkCompile(gs: GroupList, env: Env, inLoop: bool)
    requires GroupsOk(gs, env, inLoop)
    ensures E.ShapedGroups(gs) && E.GroupsCompile(gs, env, inLoop)
    decreases gs
  {
    if gs.Group? {
      OkCompiles(gs.body, env, inLoop);
      GroupsOkCompile(gs.next, env, inLoop);
    }
  }

  // ---------- the compiler ----------

  /** The function computes the script: from every state and with every behaviour of the called functions it
      stops exactly in the state in which the script ends: by its meaning in every run in which the code's way of
      reading it makes no difference, and in the code's reading in any run. */
  ghost predicate Computes(p: Builder, s: Source, env: Env) {
    forall st: State, w: World, end: State, meant: bool ::
      Good(st, env) && FitWorld(w, env) && (meant ==> HarmlessRun(s, env, st, w)) ==>
        (Halts(p, st, w, end) <==> Ends(s, env, st, w, end, meant))
  }

  /** The whole way: the script is turned into the parser's tree, the handlers generate its code without an
      error, and the code computes the script. */
  method CompileScript(s: Source, env: Env) returns (func: E.Function)
    requires Parses(s) && SourceOk(s, env, false)
    ensures fresh(func) && func.Built() == Compile(s, env) && Computes(func.Built(), s, env)
  {
    func := new E.Function();
    var scope := new E.Scope();
    DesugarOk(s, env, false);
    OkCompiles(Desugar(s), env, false);
    var ok := E.HandleStmt(Desugar(s), env, func, scope);
    assert ok;
    CompileComputes(s, env);
  }

  lemma CompileComputes(s: Source, env: Env)
    requires Parses(s) && SourceOk(s, env, false)
    ensures Computes(Compile(s, env), s, env)
  {
    hide Halts, Ends, Compile, Good, FitWorld, SourceOk, Parses, HarmlessRun;
    forall st: State, w: World, end: State, meant: bool | Good(st, env) && FitWorld(w, env) && (meant ==> HarmlessRun(s, env, st, w))
      ensures Halts(Compile(s, env), st, w, end) <==> Ends(s, env, st, w, end, meant)
    {
      CompileCorrect(s, env, st, w, end, meant);
    }
  }
}
