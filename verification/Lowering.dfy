/** Running the emitted labels and branches gives the meaning of the statement. */
module Lowering {
  import opened Basics
  import opened Machine
  import opened Expressions
  import opened Statements
  import opened Growth
  import opened Dispatch

  // ---------- 64-bit values ----------

  /** Called functions return 64-bit words; and expressions are read as the generated code reads them. */
  ghost predicate FitWorld(w: World, env: Env) {
    w.code == Some(env) && forall f, tr :: Fits(w.calls(f, tr).n)
  }

  ghost predicate FitState(st: State) {
    forall x :: x in st.vars ==> Fits(st.vars[x].n)
  }

  lemma {:induction false} EvalFits(e: Expr, env: Env, st: State, w: World)
    requires FitWorld(w, env) && FitState(st) && WellTyped(e, env)
    ensures FitState(Eval(e, st, w).st) && Fits(Eval(e, st, w).v.n)
  {
    match e
    case Assign(_, value) => EvalFits(value, env, st, w);
    case LogicNot(a) => EvalFits(a, env, st, w);
    case Ternary(c, t, f) =>
      EvalFits(c, env, st, w);
      EvalFits(t, env, Eval(c, st, w).st, w);
      EvalFits(f, env, Eval(c, st, w).st, w);
    case Arith(_, l, r) => EvalFits(l, env, st, w); EvalFits(r, env, Eval(l, st, w).st, w);
    case LogicOr(l, r) => EvalFits(l, env, st, w); EvalFits(r, env, Eval(l, st, w).st, w);
    case LogicAnd(l, r) => EvalFits(l, env, st, w); EvalFits(r, env, Eval(l, st, w).st, w);
    case LogicXor(l, r) => EvalFits(l, env, st, w); EvalFits(r, env, Eval(l, st, w).st, w);
    case _ =>
  }

  ghost predicate Good(st: State, env: Env) {
    TypedState(st, env) && FitState(st)
  }

  lemma GoodRuns(st: State, env: Env)
    requires Good(st, env)
    ensures !st.failed
  {
  }

  // ---------- outcomes ----------

  function Goal(k: Kind, end: nat, ctl: Ctl, p: Builder): nat {
    match k
    case Normal => end
    case Brk => p.Target(ctl.brk)
    case Cont => p.Target(ctl.cont)
  }

  /** The run from `c` behaves as `r` says: it gets to `d`, in the state of the outcome, and at its place or, after an
      error, at the end of everything; or it goes on for at least as many steps as there was fuel. */
  ghost predicate Follows(r: Outcome, end: nat, ctl: Ctl, env: Env, fuel: nat, p: Builder, w: World, c: Config, d: Config) {
    match r
    case Timeout => Survives(p, w, c, fuel)
    case Done(k, st) =>
      && Leads(p, w, c, d, 0) && d.st == st
      && if st.failed then d.pc >= |p.code| else d.pc == Goal(k, end, ctl, p) && Good(st, env)
  }

  lemma FollowsFrom(r: Outcome, end: nat, ctl: Ctl, env: Env, fuel: nat, p: Builder, w: World, c: Config, c1: Config, d: Config)
    requires Reached(p, w, c, c1, 0) && Follows(r, end, ctl, env, fuel, p, w, c1, d)
    ensures Follows(r, end, ctl, env, fuel, p, w, c, d)
  {
    match r
    case Timeout => LeadsSurvives(p, w, c, c1, 0, fuel);
    case Done(_, _) => LeadsTrans(p, w, c, c1, d, 0, 0);
  }

  /** Only a normal end without an error depends on where the code ends. */
  lemma FollowsElsewhere(r: Outcome, end: nat, end1: nat, ctl: Ctl, env: Env, fuel: nat, p: Builder, w: World, c: Config, d: Config)
    requires Follows(r, end, ctl, env, fuel, p, w, c, d) && (r.Timeout? || r.kind != Normal || r.st.failed)
    ensures Follows(r, end1, ctl, env, fuel, p, w, c, d)
  {
  }

  lemma FollowsDone(st: State, end: nat, ctl: Ctl, env: Env, fuel: nat, p: Builder, w: World, c: Config, d: Config)
    requires Reached(p, w, c, d, 0) && d.st == st && d.pc == end && Good(st, env)
    ensures Follows(Done(Normal, st), end, ctl, env, fuel, p, w, c, d)
  {
  }

  lemma FollowsHalted(st: State, end: nat, ctl: Ctl, env: Env, fuel: nat, p: Builder, w: World, c: Config, d: Config)
    requires Halted(st, p, w, c, 0, d)
    ensures Follows(Done(Normal, st), end, ctl, env, fuel, p, w, c, d)
  {
  }

  lemma FollowsReached(st: State, end: nat, ctl: Ctl, env: Env, fuel: nat, p: Builder, w: World, c: Config, d: Config)
    requires Follows(Done(Normal, st), end, ctl, env, fuel, p, w, c, d) && !st.failed
    ensures Reached(p, w, c, d, 0) && d.st == st && d.pc == end && Good(st, env)
  {
  }

  // ---------- expressions and branches, seen from statements ----------

  lemma RunValue(e: Expr, env: Env, b: Builder, p: Builder, w: World, c0: Config, c: Config) returns (d: Config)
    requires WellTyped(e, env) && Good(c.st, env) && FitWorld(w, env) && Sane(b)
    requires Extends(GenExpr(e, env, b).b, p) && c.pc == |b.code| && Reached(p, w, c0, c, 0)
    ensures var g := GenExpr(e, env, b);
      var r := Eval(e, c.st, w);
      if r.st.failed then Halted(r.st, p, w, c0, 0, d)
      else
        && Reached(p, w, c0, d, 0) && d.pc == |g.b.code| && d.st == r.st && Good(d.st, env)
        && Holds(g.res, r.v, d) && Fits(r.v.n) && BoundedVar(g.res, g.b.next) && g.res.ty == TypeOf(e, env)
  {
    hide GenExpr, Eval, Reached, Extends, Grows;
    EvalFits(e, env, c.st, w);
    ExprGrows(e, env, b);
    d := RunExpr(e, env, b, p, w, c0, c, 0);
  }

  /** When ptrs_jit_branch_if jumps. */
  predicate Jumps(v: JitVar, x: Word) {
    if v.ty == TDynamic && !v.val.Const? then x.tag != UNDEFINED || x.n != 0 else Truthy(x)
  }

  lemma RunBranchIf(v: JitVar, l: nat, b: Builder, p: Builder, w: World, c0: Config, c: Config, x: Word)
    returns (d: Config)
    requires Extends(GenBranchIf(v, l, b), p) && c.pc == |b.code| && Reached(p, w, c0, c, 0)
    requires Holds(v, x, c) && BoundedVar(v, b.next)
    ensures Reached(p, w, c0, d, 0) && d.st == c.st
    ensures d.pc == if Jumps(v, x) then p.Target(l) else |GenBranchIf(v, l, b).code|
  {
    d := c;
    if v.ty == TUndefined || (v.val.Const? && v.val.n == 0) {
    } else if v.ty != TDynamic {
      if v.val.Const? {
        d := Execute(b, Branch(l), p, w, c0, c, 0);
      } else {
        d := Execute(b, BranchIf(v.val, l), p, w, c0, c, 0);
      }
    } else {
      d := RunDynamicBranchIf(v, l, b, p, w, c0, c, x);
    }
  }

  lemma RunDynamicBranchIf(v: JitVar, l: nat, b: Builder, p: Builder, w: World, c0: Config, c: Config, x: Word)
    returns (d: Config)
    requires Extends(GenBranchIf(v, l, b), p) && c.pc == |b.code| && Reached(p, w, c0, c, 0)
    requires Holds(v, x, c) && BoundedVar(v, b.next) && v.ty == TDynamic && !(v.val.Const? && v.val.n == 0)
    ensures Reached(p, w, c0, d, 0) && d.st == c.st
    ensures d.pc == if Jumps(v, x) then p.Target(l) else |GenBranchIf(v, l, b).code|
  {
    var i1, i2, i3 := Alu(b.next, Eq, v.meta, Const(UNDEFINED)), BranchIfNot(Temp(b.next), l), BranchIf(v.val, l);
    var b1 := b.Fresh(1).Emit(i1);
    assert GenBranchIf(v, l, b) == if v.val.Const? then b1.Emit(i2) else b1.Emit(i2).Emit(i3);
    hide GenBranchIf, Extends, Reached, Leads, Run;
    if !v.val.Const? {
      ExtendsEmit(b1.Emit(i2), i3, p);
    }
    ExtendsEmit(b1, i2, p);
    d := Execute(b.Fresh(1), i1, p, w, c0, c, 0);
    d := Execute(b1, i2, p, w, c0, d, 0);
    if x.tag == UNDEFINED && !v.val.Const? {
      d := Execute(b1.Emit(i2), i3, p, w, c0, d, 0);
    }
  }

  // ---------- statements ----------

  /** What is known before the code of a statement or a list is run. */
  ghost predicate Set(b: Builder, after: Builder, env: Env, p: Builder, w: World, c: Config) {
    Good(c.st, env) && FitWorld(w, env) && Sane(b) && Extends(after, p) && c.pc == |b.code|
  }

  lemma {:induction false} RunStmt(s: Stmt, env: Env, inLoop: bool, ctl: Ctl, b: Builder, p: Builder, w: World, c: Config,
                                   fuel: nat) returns (d: Config)
    requires StmtOk(s, env, inLoop) && Set(b, GenStmt(s, env, ctl, b), env, p, w, c)
    ensures Follows(Exec(s, c.st, w, fuel), |GenStmt(s, env, ctl, b).code|, ctl, env, fuel, p, w, c, d)
    decreases fuel, s, 5
  {
    ReachedRefl(p, w, c, 0);
    match s
    case ExprStmt(e) => d := RunValue(e, env, b, p, w, c, c);
    case Body(list) => d := RunList(list, env, inLoop, ctl, b, p, w, c, fuel);
    case If(_, _, _) => d := RunIf(s, env, inLoop, ctl, b, p, w, c, fuel);
    case Switch(_, _, _) => d := RunSwitch(s, env, inLoop, ctl, b, p, w, c, fuel);
    case Loop(_) => d := RunLoop(s, env, inLoop, b, p, w, c, fuel, ctl);
    case Break => d := ExecuteBranch(b, ctl.brk, p, w, c, c, 0);
    case Continue => d := ExecuteBranch(b, ctl.cont, p, w, c, c, 0);
  }

  lemma {:induction false} RunList(l: StmtList, env: Env, inLoop: bool, ctl: Ctl, b: Builder, p: Builder, w: World, c: Config,
                                   fuel: nat) returns (d: Config)
    requires ListOk(l, env, inLoop, false) && Set(b, GenList(l, env, ctl, b), env, p, w, c)
    ensures Follows(ExecList(l, c.st, w, fuel), |GenList(l, env, ctl, b).code|, ctl, env, fuel, p, w, c, d)
    decreases fuel, l, 1
  {
    if l.End? {
      d := c;
      LeadsRefl(p, w, c);
    } else {
      NoLabel(l.next, env, inLoop);
      d := RunNode(l, env, inLoop, ctl, b, p, w, c, fuel);
    }
  }

  /** A list without a continue label of its own. */
  lemma {:induction false} NoLabel(l: StmtList, env: Env, inLoop: bool)
    requires ListOk(l, env, inLoop, false)
    ensures AfterLabel(l).None?
  {
    if l.Node? {
      NoLabel(l.next, env, inLoop);
    }
  }

  lemma RunNode(l: StmtList, env: Env, inLoop: bool, ctl: Ctl, b: Builder, p: Builder, w: World, c: Config,
                fuel: nat) returns (d: Config)
    requires l.Node? && ListOk(l, env, inLoop, false) && AfterLabel(l.next).None?
    requires Set(b, GenList(l, env, ctl, b), env, p, w, c)
    ensures Follows(ExecList(l, c.st, w, fuel), |GenList(l, env, ctl, b).code|, ctl, env, fuel, p, w, c, d)
    decreases fuel, l, 0
  {
    hide GenStmt, Exec, Follows, Grows, Leads, Extends, Sane, Reached;
    var b1 := GenStmt(l.entry, env, ctl, b);
    var end := |GenList(l, env, ctl, b).code|;
    StmtGrows(l.entry, env, inLoop, ctl, b);
    ListGrows(l.next, env, inLoop, ctl, b1);
    GrowsSane(b, b1, b.next);
    GrowsExtends(b1, GenList(l.next, env, ctl, b1), p, b1.next);
    var r := Exec(l.entry, c.st, w, fuel);
    d := RunStmt(l.entry, env, inLoop, ctl, b, p, w, c, fuel);
    if r.Done? && r.kind == Normal && !r.st.failed {
      FollowsReached(r.st, |b1.code|, ctl, env, fuel, p, w, c, d);
      var c1 := d;
      d := RunList(l.next, env, inLoop, ctl, b1, p, w, c1, fuel);
      FollowsFrom(ExecList(l.next, r.st, w, fuel), end, ctl, env, fuel, p, w, c, c1, d);
    } else {
      FollowsElsewhere(r, |b1.code|, end, ctl, env, fuel, p, w, c, d);
    }
  }

  lemma IfOk(s: Stmt, env: Env, inLoop: bool)
    requires s.If? && StmtOk(s, env, inLoop)
    ensures s.thn.Some? ==> StmtOk(s.thn.value, env, inLoop)
    ensures s.els.Some? ==> StmtOk(s.els.value, env, inLoop)
  {
  }

  /** The outcome of the condition of an `if`; only loops have conditions without a first branch. */
  predicate IsTrue(s: Stmt, x: Word, w: World)
    requires s.If?
  {
    if s.thn.Some? then Truthy(x) else Passes(s.cond, x, w)
  }

  lemma IfFails(s: Stmt, st: State, w: World, fuel: nat)
    requires s.If? && Eval(s.cond, st, w).st.failed
    ensures Exec(s, st, w, fuel) == Done(Normal, Eval(s.cond, st, w).st)
  {
    hide Eval;
    var r := Eval(s.cond, st, w).st;
    assert s.thn.Some? ==> Exec(s.thn.value, r, w, fuel) == Done(Normal, r);
    assert s.els.Some? ==> Exec(s.els.value, r, w, fuel) == Done(Normal, r);
    if st.failed { FailedStays(s.cond, st, w); }
  }

  lemma FailedStays(e: Expr, st: State, w: World)
    requires st.failed
    ensures Eval(e, st, w).st == st
  {
  }

  /** An operand of unknown type is no constant. */
  lemma {:induction false} DynamicOperand(e: Expr, env: Env, b: Builder)
    ensures var r := GenExpr(e, env, b).res; r.ty == TDynamic ==> !r.val.Const?
  {
    match e
    case Assign(_, value) => DynamicOperand(value, env, b);
    case LogicOr(_, _) => ShortTyped(e, env, b);
    case LogicAnd(_, _) => ShortTyped(e, env, b);
    case Ternary(_, _, _) => assert GenExpr(e, env, b).res == GenArms(e, env, b).res;
    case _ =>
  }

  lemma ShortTyped(e: Expr, env: Env, b: Builder)
    requires e.LogicOr? || e.LogicAnd?
    ensures GenShortCircuit(e, env, b).res.ty == TInt
  {
    hide GenExpr;
  }

  lemma JumpsIfTrue(s: Stmt, env: Env, b: Builder, w: World, x: Word)
    requires s.If? && s.thn.None? && w.code == Some(env) && GenExpr(s.cond, env, b).res.ty == TypeOf(s.cond, env)
    ensures Jumps(GenExpr(s.cond, env, b).res, x) == IsTrue(s, x, w)
  {
    DynamicOperand(s.cond, env, b);
  }

  lemma IfUnfold(s: Stmt, env: Env, ctl: Ctl, b: Builder)
    requires s.If?
    ensures var gc := GenExpr(s.cond, env, b);
      var isFalse, b0, b1 := gc.b.next, gc.b.Fresh(2), GenThen(s, env, ctl, b);
      var b2 := b1.Emit(Label(isFalse));
      var b3 := if s.els.Some? then GenStmt(s.els.value, env, ctl, b2) else b2;
      && GenIf(s, env, ctl, b) == b3.Emit(Label(isFalse + 1))
      && b1 == if s.thn.None? then GenBranchIf(gc.res, isFalse + 1, b0)
               else var t := GenStmt(s.thn.value, env, ctl, GenBranchIfNot(gc.res, isFalse, b0));
                 if s.els.Some? then t.Emit(Branch(isFalse + 1)) else t
  {
    hide GenExpr, GenStmt, GenBranchIf, GenBranchIfNot;
  }

  lemma IfStages(s: Stmt, env: Env, inLoop: bool, ctl: Ctl, b: Builder, p: Builder)
    requires s.If? && StmtOk(s, env, inLoop) && Sane(b) && Extends(GenIf(s, env, ctl, b), p)
    ensures var gc := GenExpr(s.cond, env, b);
      var isFalse, b1 := gc.b.next, GenThen(s, env, ctl, b);
      var b2 := b1.Emit(Label(isFalse));
      var b3 := if s.els.Some? then GenStmt(s.els.value, env, ctl, b2) else b2;
      && Extends(gc.b, p) && Extends(gc.b.Fresh(2), p) && Extends(b1, p) && Extends(b2, p) && Extends(b3, p)
      && Sane(gc.b) && Sane(b2) && BoundedVar(gc.res, gc.b.next)
      && p.Target(isFalse) == |b1.code| && p.Target(isFalse + 1) == |b3.code|
  {
    hide Grows, Extends, Sane, GenExpr, GenStmt, GenThen, Builder.Target;
    var gc := GenExpr(s.cond, env, b);
    var isFalse, b0, b1 := gc.b.next, gc.b.Fresh(2), GenThen(s, env, ctl, b);
    var b2 := b1.Emit(Label(isFalse));
    ExprGrows(s.cond, env, b);
    GrowsSane(b, gc.b, b.next);
    SaneFresh(gc.b, 2);
    ThenGrows(s, env, inLoop, ctl, b);
    GrowsSane(b0, b1, b0.next);
    SaneEmit(b1, Label(isFalse));
    NewUnplaced(gc.b, isFalse);
    NewUnplaced(gc.b, isFalse + 1);
    Unplaced(b0, b1, isFalse);
    Unplaced(b0, b1, isFalse + 1);
    if s.els.Some? {
      StmtGrows(s.els.value, env, inLoop, ctl, b2);
      Unplaced(b2, GenStmt(s.els.value, env, ctl, b2), isFalse + 1);
    }
    var b3 := if s.els.Some? then GenStmt(s.els.value, env, ctl, b2) else b2;
    PlacedAt(b3, isFalse + 1, p);
    ExtendsEmit(b3, Label(isFalse + 1), p);
    if s.els.Some? {
      GrowsExtends(b2, b3, p, b2.next);
    }
    PlacedAt(b1, isFalse, p);
    ExtendsEmit(b1, Label(isFalse), p);
    GrowsExtends(b0, b1, p, b0.next);
    FreshExtends(gc.b, 2, p);
  }

  lemma RunIf(s: Stmt, env: Env, inLoop: bool, ctl: Ctl, b: Builder, p: Builder, w: World, c: Config, fuel: nat)
    returns (d: Config)
    requires s.If? && StmtOk(s, env, inLoop) && Set(b, GenIf(s, env, ctl, b), env, p, w, c)
    ensures Follows(Exec(s, c.st, w, fuel), |GenIf(s, env, ctl, b).code|, ctl, env, fuel, p, w, c, d)
    decreases fuel, s, 3
  {
    hide GenExpr, GenStmt, GenThen, Follows, Grows, Leads, Extends, Sane, Reached, Builder.Target, Good, Eval;
    GoodRuns(c.st, env);
    IfStages(s, env, inLoop, ctl, b, p);
    var gc := GenExpr(s.cond, env, b);
    var isFalse, b1 := gc.b.next, GenThen(s, env, ctl, b);
    var b2 := b1.Emit(Label(isFalse));
    var b3 := if s.els.Some? then GenStmt(s.els.value, env, ctl, b2) else b2;
    var x := Eval(s.cond, c.st, w);
    ReachedRefl(p, w, c, 0);
    var c1 := RunValue(s.cond, env, b, p, w, c, c);
    if x.st.failed {
      IfFails(s, c.st, w, fuel);
      d := c1;
      FollowsHalted(x.st, |GenIf(s, env, ctl, b).code|, ctl, env, fuel, p, w, c, d);
    } else if IsTrue(s, x.v, w) {
      d := RunThen(s, env, inLoop, ctl, b, p, w, c, c1, x.v, fuel);
    } else {
      d := RunElse(s, env, inLoop, ctl, b, p, w, c, c1, x.v, fuel);
    }
  }

  /** A label after the code: a normal end passes it, any other outcome does not get there. */
  lemma PassLabel(r: Outcome, b: Builder, l: nat, ctl: Ctl, env: Env, fuel: nat, p: Builder, w: World, c: Config, d: Config)
    returns (d': Config)
    requires Follows(r, |b.code|, ctl, env, fuel, p, w, c, d) && Extends(b.Emit(Label(l)), p)
    ensures Follows(r, |b.Emit(Label(l)).code|, ctl, env, fuel, p, w, c, d')
  {
    d' := d;
    if r.Done? && r.kind == Normal && !r.st.failed {
      d' := ExecuteLabel(b, l, p, w, c, d, 0);
    }
  }

  /** A branch after the code, to a label that stands at `end`. */
  lemma PassBranch(r: Outcome, b: Builder, l: nat, end: nat, ctl: Ctl, env: Env, fuel: nat, p: Builder, w: World,
                   c: Config, d: Config) returns (d': Config)
    requires Follows(r, |b.code|, ctl, env, fuel, p, w, c, d) && Extends(b.Emit(Branch(l)), p) && p.Target(l) == end
    ensures Follows(r, end, ctl, env, fuel, p, w, c, d')
  {
    d' := d;
    if r.Done? && r.kind == Normal && !r.st.failed {
      d' := ExecuteBranch(b, l, p, w, c, d, 0);
    }
  }

  lemma ThenStages(s: Stmt, env: Env, inLoop: bool, ctl: Ctl, b: Builder, p: Builder)
    requires s.If? && s.thn.Some? && StmtOk(s, env, inLoop) && Extends(GenThen(s, env, ctl, b), p)
    requires Sane(GenExpr(s.cond, env, b).b)
    ensures var gc := GenExpr(s.cond, env, b);
      var b1 := GenBranchIfNot(gc.res, gc.b.next, gc.b.Fresh(2));
      Extends(b1, p) && Extends(GenStmt(s.thn.value, env, ctl, b1), p) && Sane(b1)
  {
    hide Grows, Extends, Sane, GenExpr, GenStmt, GenBranchIfNot;
    var gc := GenExpr(s.cond, env, b);
    var b0 := gc.b.Fresh(2);
    var b1 := GenBranchIfNot(gc.res, gc.b.next, b0);
    var b2 := GenStmt(s.thn.value, env, ctl, b1);
    BranchIfNotGrows(gc.res, gc.b.next, b0);
    SaneFresh(gc.b, 2);
    GrowsSane(b0, b1, b0.next);
    if s.els.Some? {
      ExtendsEmit(b2, Branch(gc.b.next + 1), p);
    }
    StmtGrows(s.thn.value, env, inLoop, ctl, b1);
    GrowsExtends(b1, b2, p, b1.next);
  }

  /** From the condition's operand to the end of the statement, when the condition holds ... */
  lemma RunThen(s: Stmt, env: Env, inLoop: bool, ctl: Ctl, b: Builder, p: Builder, w: World, c0: Config, c: Config, x: Word,
                fuel: nat) returns (d: Config)
    requires s.If? && StmtOk(s, env, inLoop) && Sane(b) && Extends(GenIf(s, env, ctl, b), p)
    requires var gc := GenExpr(s.cond, env, b);
      Reached(p, w, c0, c, 0) && Good(c.st, env) && FitWorld(w, env) && c.pc == |gc.b.code| && Holds(gc.res, x, c)
      && gc.res.ty == TypeOf(s.cond, env)
    requires IsTrue(s, x, w)
    ensures var r := if s.thn.Some? then Exec(s.thn.value, c.st, w, fuel) else Done(Normal, c.st);
      Follows(r, |GenIf(s, env, ctl, b).code|, ctl, env, fuel, p, w, c0, d)
    decreases fuel, s, 2
  {
    hide GenExpr, GenStmt, Follows, Grows, Leads, Sane, Reached, Builder.Target, Good, Eval, GenBranchIf, GenBranchIfNot, Exec,
      StmtOk, Extends, Step, Run, Survives, TypeOf, WellTyped, Truthy, Holds, GenIf, GenThen, Passes, Jumps;
    IfStages(s, env, inLoop, ctl, b, p);
    IfOk(s, env, inLoop);
    IfUnfold(s, env, ctl, b);
    var gc := GenExpr(s.cond, env, b);
    var isFalse, b0 := gc.b.next, gc.b.Fresh(2);
    var b2 := GenThen(s, env, ctl, b).Emit(Label(isFalse));
    var b3 := if s.els.Some? then GenStmt(s.els.value, env, ctl, b2) else b2;
    if s.thn.None? {
      JumpsIfTrue(s, env, b, w, x);
      d := RunBranchIf(gc.res, isFalse + 1, b0, p, w, c0, c, x);
      d := ExecuteLabel(b3, isFalse + 1, p, w, c0, d, 0);
      FollowsDone(c.st, |GenIf(s, env, ctl, b).code|, ctl, env, fuel, p, w, c0, d);
    } else {
      ThenStages(s, env, inLoop, ctl, b, p);
      var b1 := GenBranchIfNot(gc.res, isFalse, b0);
      var r := Exec(s.thn.value, c.st, w, fuel);
      var c1 := RunBranchIfNot(gc.res, isFalse, b0, p, w, c0, c, 0, x);
      d := RunStmt(s.thn.value, env, inLoop, ctl, b1, p, w, c1, fuel);
      var b1' := GenStmt(s.thn.value, env, ctl, b1);
      FollowsFrom(r, |b1'.code|, ctl, env, fuel, p, w, c0, c1, d);
      if s.els.Some? {
        d := PassBranch(r, b1', isFalse + 1, |b3.code|, ctl, env, fuel, p, w, c0, d);
      } else {
        d := PassLabel(r, b1', isFalse, ctl, env, fuel, p, w, c0, d);
      }
      d := PassLabel(r, b3, isFalse + 1, ctl, env, fuel, p, w, c0, d);
    }
  }

  /** ... and when it does not. */
  lemma RunElse(s: Stmt, env: Env, inLoop: bool, ctl: Ctl, b: Builder, p: Builder, w: World, c0: Config, c: Config, x: Word,
                fuel: nat) returns (d: Config)
    requires s.If? && StmtOk(s, env, inLoop) && Sane(b) && Extends(GenIf(s, env, ctl, b), p)
    requires var gc := GenExpr(s.cond, env, b);
      Reached(p, w, c0, c, 0) && Good(c.st, env) && FitWorld(w, env) && c.pc == |gc.b.code| && Holds(gc.res, x, c)
      && gc.res.ty == TypeOf(s.cond, env)
    requires !IsTrue(s, x, w)
    ensures var r := if s.els.Some? then Exec(s.els.value, c.st, w, fuel) else Done(Normal, c.st);
      Follows(r, |GenIf(s, env, ctl, b).code|, ctl, env, fuel, p, w, c0, d)
    decreases fuel, s, 2
  {
    hide GenExpr, GenStmt, Follows, Grows, Leads, Sane, Reached, Builder.Target, Good, Eval, GenBranchIf, GenBranchIfNot, Exec,
      StmtOk, Extends, Step, Run, Survives, TypeOf, WellTyped, Truthy, Holds, GenIf, GenThen, Passes, Jumps;
    IfStages(s, env, inLoop, ctl, b, p);
    IfOk(s, env, inLoop);
    IfUnfold(s, env, ctl, b);
    var gc := GenExpr(s.cond, env, b);
    var isFalse, b0, b1 := gc.b.next, gc.b.Fresh(2), GenThen(s, env, ctl, b);
    var b2 := b1.Emit(Label(isFalse));
    var b3 := if s.els.Some? then GenStmt(s.els.value, env, ctl, b2) else b2;
    if s.thn.None? {
      JumpsIfTrue(s, env, b, w, x);
      d := RunBranchIf(gc.res, isFalse + 1, b0, p, w, c0, c, x);
    } else {
      ThenStages(s, env, inLoop, ctl, b, p);
      d := RunBranchIfNot(gc.res, isFalse, b0, p, w, c0, c, 0, x);
    }
    var c1 := ExecuteLabel(b1, isFalse, p, w, c0, d, 0);
    var r := if s.els.Some? then Exec(s.els.value, c.st, w, fuel) else Done(Normal, c.st);
    if s.els.Some? {
      d := RunStmt(s.els.value, env, inLoop, ctl, b2, p, w, c1, fuel);
      FollowsFrom(r, |b3.code|, ctl, env, fuel, p, w, c0, c1, d);
    } else {
      d := c1;
      FollowsDone(c.st, |b3.code|, ctl, env, fuel, p, w, c0, d);
    }
    d := PassLabel(r, b3, isFalse + 1, ctl, env, fuel, p, w, c0, d);
  }

  // ---------- switch ----------

  /** GenSwitch up to the label behind it. */
  function SwitchCode(s: Stmt, env: Env, ctl: Ctl, b: Builder): Builder
    requires s.Switch?
  {
    var gc := GenExpr(s.cond, env, b);
    var v := GenInt(gc.res, gc.b.Fresh(1));
    if gc.res.val.Const? then GenConstant(s, env, ctl, gc.res.val.n, v.b)
    else if UseTable(s.groups) then GenTable(s, env, ctl, gc.b.next, v)
    else GenChain(s, env, ctl, gc.b.next, v)
  }

  const NOTHING := Body(End)

  /** The statement that a switch runs. */
  function Selected(s: Stmt, v: int, w: World): Stmt
    requires s.Switch?
  {
    var body := Choice(s.cond, s.groups, s.dflt, v, w);
    if body.Some? then body.value else NOTHING
  }

  lemma SelectedOk(s: Stmt, env: Env, inLoop: bool, v: int, w: World)
    requires s.Switch? && StmtOk(s, env, inLoop)
    ensures StmtOk(Selected(s, v, w), env, inLoop) && (Selected(s, v, w) < s || Selected(s, v, w) == NOTHING)
    ensures Select(s.groups, v).Some? ==> Selected(s, v, w) < s
  {
    ChoiceSmaller(s, v, w);
    if Select(s.groups, v).Some? {
      SelectOk(s.groups, env, inLoop, v);
    }
  }

  lemma {:induction false} ConstOperand(e: Expr, env: Env, b: Builder)
    requires WellTyped(e, env)
    ensures var r := GenExpr(e, env, b).res;
      r.val.Const? ==> r.meta.Const? && (r.meta.n == UNDEFINED ==> r.val.n == 0)
  {
    match e
    case Assign(_, value) => ConstOperand(value, env, b);
    case LogicOr(_, _) => LiveShort(e, env, b);
    case LogicAnd(_, _) => LiveShort(e, env, b);
    case Ternary(_, _, _) => assert GenExpr(e, env, b).res == GenArms(e, env, b).res;
    case _ =>
  }

  lemma SwitchStages(s: Stmt, env: Env, inLoop: bool, ctl: Ctl, b: Builder, p: Builder)
    requires s.Switch? && StmtOk(s, env, inLoop) && Sane(b) && Extends(GenSwitch(s, env, ctl, b), p)
    ensures var gc := GenExpr(s.cond, env, b);
      var v := GenInt(gc.res, gc.b.Fresh(1));
      var b1 := SwitchCode(s, env, ctl, b);
      && Extends(gc.b, p) && Extends(v.b, p) && Extends(b1, p) && Extends(b1.Emit(Label(gc.b.next)), p)
      && BoundedVar(gc.res, gc.b.next) && Sane(v.b) && gc.b.next < v.b.next
      && p.Target(gc.b.next) == |b1.code| && Bounded(v.val, v.b.next)
  {
    hide Grows, Extends, Sane, GenExpr, GenInt, GenConstant, GenTable, GenChain, UseTable, Builder.Target;
    var gc := GenExpr(s.cond, env, b);
    var b0 := gc.b.Fresh(1);
    var v := GenInt(gc.res, b0);
    var b1 := SwitchCode(s, env, ctl, b);
    ExprGrows(s.cond, env, b);
    GrowsSane(b, gc.b, b.next);
    SaneFresh(gc.b, 1);
    IntGrows(gc.res, b0);
    GrowsSane(b0, v.b, b0.next);
    NewUnplaced(gc.b, gc.b.next);
    Unplaced(b0, v.b, gc.b.next);
    CasesGrow(s, env, inLoop, ctl, gc.b.next, v, gc.res.val);
    Unplaced(v.b, b1, gc.b.next);
    PlacedAt(b1, gc.b.next, p);
    ExtendsEmit(b1, Label(gc.b.next), p);
    GrowsExtends(v.b, b1, p, v.b.next);
    GrowsExtends(b0, v.b, p, b0.next);
    FreshExtends(gc.b, 1, p);
  }

  lemma RunSwitch(s: Stmt, env: Env, inLoop: bool, ctl: Ctl, b: Builder, p: Builder, w: World, c: Config, fuel: nat)
    returns (d: Config)
    requires s.Switch? && StmtOk(s, env, inLoop) && Set(b, GenSwitch(s, env, ctl, b), env, p, w, c)
    ensures Follows(Exec(s, c.st, w, fuel), |GenSwitch(s, env, ctl, b).code|, ctl, env, fuel, p, w, c, d)
    decreases fuel, s, 4
  {
    hide GenExpr, GenInt, Follows, Grows, Leads, Extends, Sane, Reached, Good, Eval, SwitchCode, Builder.Target;
    GoodRuns(c.st, env);
    SwitchStages(s, env, inLoop, ctl, b, p);
    var gc := GenExpr(s.cond, env, b);
    var x := Eval(s.cond, c.st, w);
    ReachedRefl(p, w, c, 0);
    var c1 := RunValue(s.cond, env, b, p, w, c, c);
    var v := IntOf(x.v);
    var r := Exec(Selected(s, v, w), x.st, w, fuel);
    SwitchUnfold(s, env, ctl, b, c.st, w, fuel);
    if x.st.failed {
      d := c1;
      FollowsHalted(x.st, |GenSwitch(s, env, ctl, b).code|, ctl, env, fuel, p, w, c, d);
    } else {
      var c2 := RunInt(gc.res, gc.b.Fresh(1), p, w, c, c1, x.v);
      ConstOperand(s.cond, env, b);
      d := RunCases(s, env, inLoop, ctl, b, p, w, c, c2, v, fuel);
      d := PassLabel(r, SwitchCode(s, env, ctl, b), gc.b.next, ctl, env, fuel, p, w, c, d);
    }
  }

  lemma SwitchUnfold(s: Stmt, env: Env, ctl: Ctl, b: Builder, st: State, w: World, fuel: nat)
    requires s.Switch? && !st.failed
    ensures GenSwitch(s, env, ctl, b) == SwitchCode(s, env, ctl, b).Emit(Label(GenExpr(s.cond, env, b).b.next))
    ensures var x := Eval(s.cond, st, w); Exec(s, st, w, fuel) == Exec(Selected(s, IntOf(x.v), w), x.st, w, fuel)
    ensures var x := Eval(s.cond, st, w); x.st.failed ==> Exec(s, st, w, fuel) == Done(Normal, x.st)
  {
    hide GenExpr, GenInt, GenConstant, GenTable, GenChain, UseTable, Eval, Choice;
    var x := Eval(s.cond, st, w);
    NothingDone(x.st, w, fuel);
    ChoiceSmaller(s, IntOf(x.v), w);
  }

  lemma NothingDone(st: State, w: World, fuel: nat)
    ensures Exec(NOTHING, st, w, fuel) == Done(Normal, st)
  {
  }

  /** Which body is run without a case and a default. */
  lemma Falls(s: Stmt, env: Env, b: Builder)
    requires s.Switch?
    ensures FallsInto(s.cond, s.groups, env) <==>
      s.groups.Group? && !GenExpr(s.cond, env, b).res.val.Const? && !UseTable(s.groups)
  {
    hide GenExpr, UseTable;
    ConstSame(s.cond, env, b, EMPTY);
  }

  lemma RunCases(s: Stmt, env: Env, inLoop: bool, ctl: Ctl, b: Builder, p: Builder, w: World, c0: Config, c: Config,
                 v: int, fuel: nat) returns (d: Config)
    requires s.Switch? && StmtOk(s, env, inLoop) && Sane(b) && Extends(GenSwitch(s, env, ctl, b), p)
    requires Reached(p, w, c0, c, 0) && Good(c.st, env) && FitWorld(w, env) && Fits(v)
    requires var gc := GenExpr(s.cond, env, b);
      var g := GenInt(gc.res, gc.b.Fresh(1));
      c.pc == |g.b.code| && ValueOf(g.val, c) == v && (gc.res.val.Const? ==> gc.res.val.n == v)
    ensures Follows(Exec(Selected(s, v, w), c.st, w, fuel), |SwitchCode(s, env, ctl, b).code|, ctl, env, fuel, p, w, c0, d)
    decreases fuel, s, 3
  {
    hide GenExpr, GenInt, Follows, Grows, Leads, Extends, Sane, Reached, Good, GenTable, GenChain, GenConstant, UseTable,
      Builder.Target, Select, Exec;
    SwitchStages(s, env, inLoop, ctl, b, p);
    Falls(s, env, b);
    var gc := GenExpr(s.cond, env, b);
    var g := GenInt(gc.res, gc.b.Fresh(1));
    if gc.res.val.Const? {
      d := RunConstant(s, env, inLoop, ctl, g.b, p, w, c0, c, v, fuel);
    } else if UseTable(s.groups) {
      d := RunTable(s, env, inLoop, ctl, gc.b.next, g, p, w, c0, c, fuel);
    } else {
      d := RunChain(s, env, inLoop, ctl, gc.b.next, g, p, w, c0, c, fuel);
    }
  }

  lemma RunConstant(s: Stmt, env: Env, inLoop: bool, ctl: Ctl, b: Builder, p: Builder, w: World, c0: Config, c: Config,
                    v: int, fuel: nat) returns (d: Config)
    requires s.Switch? && StmtOk(s, env, inLoop) && !FallsInto(s.cond, s.groups, env)
    requires Set(b, GenConstant(s, env, ctl, v, b), env, p, w, c) && Reached(p, w, c0, c, 0)
    ensures Follows(Exec(Selected(s, v, w), c.st, w, fuel), |GenConstant(s, env, ctl, v, b).code|, ctl, env, fuel, p, w, c0, d)
    decreases fuel, s, 2
  {
    hide Select, GenStmt, Follows, Exec;
    SelectedOk(s, env, inLoop, v, w);
    NothingEmitted(env, ctl, b);
    d := RunPart(s, Selected(s, v, w), env, inLoop, ctl, b, p, w, c, fuel);
    FollowsFrom(Exec(Selected(s, v, w), c.st, w, fuel), |GenConstant(s, env, ctl, v, b).code|, ctl, env, fuel, p, w, c0, c, d);
  }

  lemma NothingEmitted(env: Env, ctl: Ctl, b: Builder)
    ensures GenStmt(NOTHING, env, ctl, b) == b
  {
  }

  /** A body of the switch, or nothing. */
  lemma RunPart(s: Stmt, body: Stmt, env: Env, inLoop: bool, ctl: Ctl, b: Builder, p: Builder, w: World, c: Config, fuel: nat)
    returns (d: Config)
    requires StmtOk(body, env, inLoop) && (body < s || body == NOTHING) && Set(b, GenStmt(body, env, ctl, b), env, p, w, c)
    ensures Follows(Exec(body, c.st, w, fuel), |GenStmt(body, env, ctl, b).code|, ctl, env, fuel, p, w, c, d)
    decreases fuel, s, 0
  {
    if body == NOTHING {
      d := c;
      LeadsRefl(p, w, c);
    } else {
      d := RunStmt(body, env, inLoop, ctl, b, p, w, c, fuel);
    }
  }

  /** A body that ends with a branch to the end of the switch. */
  lemma RunCase(s: Stmt, body: Stmt, env: Env, inLoop: bool, ctl: Ctl, done: nat, a0: Builder, a: Builder, end: nat, p: Builder,
                w: World, c0: Config, c: Config, fuel: nat) returns (d: Config)
    requires StmtOk(body, env, inLoop) && body < s
    requires LabelRun(a0, a) && Extends(a, p) && |a0.code| <= c.pc <= |a.code| && Sane(a)
    requires Extends(GenStmt(body, env, ctl, a).Emit(Branch(done)), p) && p.Target(done) == end
    requires Reached(p, w, c0, c, 0) && Good(c.st, env) && FitWorld(w, env)
    ensures Follows(Exec(body, c.st, w, fuel), end, ctl, env, fuel, p, w, c0, d)
    decreases fuel, s, 1
  {
    hide GenStmt, Follows, Exec, Extends, Sane, Reached, LabelRun, Builder.Target, Good;
    var r := Exec(body, c.st, w, fuel);
    var b1 := GenStmt(body, env, ctl, a);
    ExtendsEmit(b1, Branch(done), p);
    var c1 := Slide(a0, a, p, w, c0, c, 0);
    d := RunStmt(body, env, inLoop, ctl, a, p, w, c1, fuel);
    FollowsFrom(r, |b1.code|, ctl, env, fuel, p, w, c0, c1, d);
    d := PassBranch(r, b1, done, end, ctl, env, fuel, p, w, c0, d);
  }

  function Default(s: Stmt): Stmt
    requires s.Switch?
  {
    if s.dflt.Some? then s.dflt.value else NOTHING
  }

  lemma DefaultExtends(s: Stmt, env: Env, inLoop: bool, ctl: Ctl, b: Builder, p: Builder)
    requires s.Switch? && StmtOk(s, env, inLoop) && Extends(if s.dflt.Some? then GenStmt(s.dflt.value, env, ctl, b) else b, p)
    ensures Extends(b, p) && GenStmt(Default(s), env, ctl, b) == if s.dflt.Some? then GenStmt(s.dflt.value, env, ctl, b) else b
  {
    hide Extends;
    if s.dflt.Some? {
      StmtGrows(s.dflt.value, env, inLoop, ctl, b);
      GrowsExtends(b, GenStmt(s.dflt.value, env, ctl, b), p, b.next);
    }
  }

  lemma TableStages(s: Stmt, env: Env, inLoop: bool, ctl: Ctl, done: nat, v: EmittedValue, p: Builder)
    requires s.Switch? && StmtOk(s, env, inLoop) && UseTable(s.groups) && Sane(v.b)
    requires Extends(GenTable(s, env, ctl, done, v), p)
    ensures var table, n, base := v.b.next, Interval(s.groups), v.b.next - SwitchMin(s.groups);
      var b0 := GenDispatch(s.groups, v, env.fold).b;
      var b1 := GenGroups(s.groups, env, ctl, done, base, b0);
      var b2 := PlaceMissing(s.groups, table, n, b1).Emit(Label(table + n));
      && GenTable(s, env, ctl, done, v) == GenStmt(Default(s), env, ctl, b2)
      && Sane(b0) && Extends(b0, p) && Extends(b1, p) && Extends(b2, p) && Sane(b2)
      && table + n < b0.next && forall l :: table <= l <= table + n ==> l !in b0.placed
  {
    hide Grows, GenStmt, GenDispatch, GenGroups, Interval, SwitchMin, SwitchMax, UseTable, PlaceMissing, Extends, Sane, StmtOk,
      Within, CaseCount, TableFits, GroupsOk;
    SwitchOk(s, env, inLoop);
    TableBounds(s, env, inLoop);
    var table, n, base := v.b.next, Interval(s.groups), v.b.next - SwitchMin(s.groups);
    var b0 := GenDispatch(s.groups, v, env.fold).b;
    var b1 := GenGroups(s.groups, env, ctl, done, base, b0);
    var m := PlaceMissing(s.groups, table, n, b1);
    var b2 := m.Emit(Label(table + n));
    DispatchGrows(s.groups, v, env.fold);
    GrowsSane(v.b, b0, table);
    GroupsGrow(v.b, s.groups, env, inLoop, ctl, done, base, SwitchMax(s.groups), b0);
    MissingOwn(v.b, s.groups, table, n, b1);
    GrowsSane(v.b, m, table);
    SaneEmit(m, Label(table + n));
    DefaultExtends(s, env, inLoop, ctl, b2, p);
    GroupsExtend(s.groups, env, inLoop, ctl, done, base, b0);
    MissingExtends(s.groups, table, n, b1, p);
    ExtendsTrans(b0, b1, p);
    forall l: nat | table <= l <= table + n ensures l !in b0.placed {
      TableFree(s.groups, v, env.fold, l);
    }
  }

  lemma MissingOwn(a: Builder, gs: GroupList, table: nat, n: nat, b: Builder)
    requires GrowsOwn(a, b) && a.next <= table && table + n <= b.next
    ensures GrowsOwn(a, PlaceMissing(gs, table, n, b)) && PlaceMissing(gs, table, n, b).next == b.next
  {
    MissingGrows(a, gs, table, 0, n, b);
  }

  lemma MissingExtends(gs: GroupList, table: nat, n: nat, b: Builder, p: Builder)
    requires Extends(PlaceMissing(gs, table, n, b).Emit(Label(table + n)), p)
    ensures Extends(b, p)
  {
    LabelRunRefl(b);
    PlaceMissingRun(b, gs, table, 0, n, b, 0);
  }

  /** The dispatch itself places nothing. */
  lemma TableFree(gs: GroupList, v: EmittedValue, fold: bool, l: nat)
    requires Sane(v.b) && v.b.next <= l
    ensures l !in GenDispatch(gs, v, fold).b.placed
  {
    hide Interval, SwitchMin;
  }

  lemma RunTable(s: Stmt, env: Env, inLoop: bool, ctl: Ctl, done: nat, v: EmittedValue, p: Builder, w: World, c0: Config,
                 c: Config, fuel: nat) returns (d: Config)
    requires s.Switch? && StmtOk(s, env, inLoop) && UseTable(s.groups) && !FallsInto(s.cond, s.groups, env)
    requires Set(v.b, GenTable(s, env, ctl, done, v), env, p, w, c) && Reached(p, w, c0, c, 0)
    requires Bounded(v.val, v.b.next) && Fits(ValueOf(v.val, c)) && p.Target(done) == |GenTable(s, env, ctl, done, v).code|
    ensures Follows(Exec(Selected(s, ValueOf(v.val, c), w), c.st, w, fuel), |GenTable(s, env, ctl, done, v).code|, ctl, env,
                    fuel, p, w, c0, d)
    decreases fuel, s, 2
  {
    hide Follows, Grows, Leads, Extends, Sane, Reached, Good, Builder.Target, Exec, GenStmt, GenGroups, Select,
      GenDispatch, UseTable, Interval, SwitchMin, SwitchMax, LabelRun, GenTable, PlaceMissing, Within, TableLabel, StmtOk,
      GroupsOk, TableFits, FitWorld;
    TableStages(s, env, inLoop, ctl, done, v, p);
    SwitchOk(s, env, inLoop);
    TableBounds(s, env, inLoop);
    var x := ValueOf(v.val, c);
    SelectedOk(s, env, inLoop, x, w);
    var table, n, base := v.b.next, Interval(s.groups), v.b.next - SwitchMin(s.groups);
    var b0 := GenDispatch(s.groups, v, env.fold).b;
    var b1 := GenGroups(s.groups, env, ctl, done, base, b0);
    var c1 := RunDispatch(s.groups, v, env, inLoop, p, w, c0, c);
    var l: nat := TableLabel(s.groups, x, table);
    TableLabelFacts(s.groups, x, table);
    var y := l - base;
    var a0, a := TableEntry(s.groups, env, inLoop, ctl, done, base, b0, p, y, l, SwitchMin(s.groups), SwitchMax(s.groups));
    if Select(s.groups, y).Some? {
      d := RunCase(s, Select(s.groups, y).value, env, inLoop, ctl, done, a0, a, |GenTable(s, env, ctl, done, v).code|,
                   p, w, c0, c1, fuel);
    } else {
      DefaultEntry(s.groups, table, n, b1, p, l);
      var b2 := PlaceMissing(s.groups, table, n, b1).Emit(Label(table + n));
      d := RunDefault(s, env, inLoop, ctl, b1, b2, p, w, c0, c1, fuel);
    }
  }

  lemma TableLabelFacts(gs: GroupList, x: int, table: nat)
    requires UseTable(gs) && TableFits(gs)
    ensures var l := TableLabel(gs, x, table);
      var y := l - (table - SwitchMin(gs));
      table <= l <= table + Interval(gs) && Select(gs, y) == Select(gs, x)
  {
    TotalBounds(gs, INT64_MAX, INT64_MIN);
    var l := TableLabel(gs, x, table);
    if !(SwitchMin(gs) <= x <= SwitchMax(gs)) {
      NoneOutside(gs, x, SwitchMin(gs), SwitchMax(gs));
      NoneOutside(gs, l - (table - SwitchMin(gs)), SwitchMin(gs), SwitchMax(gs));
    }
  }

  /** The default of a table stands behind the labels that lead to it. */
  lemma RunDefault(s: Stmt, env: Env, inLoop: bool, ctl: Ctl, a0: Builder, a: Builder, p: Builder,
                   w: World, c0: Config, c: Config, fuel: nat) returns (d: Config)
    requires s.Switch? && StmtOk(s, env, inLoop)
    requires LabelRun(a0, a) && Extends(a, p) && |a0.code| <= c.pc <= |a.code| && Sane(a)
    requires Extends(GenStmt(Default(s), env, ctl, a), p)
    requires Reached(p, w, c0, c, 0) && Good(c.st, env) && FitWorld(w, env)
    ensures Follows(Exec(Default(s), c.st, w, fuel), |GenStmt(Default(s), env, ctl, a).code|, ctl, env, fuel, p, w, c0, d)
    decreases fuel, s, 1
  {
    hide GenStmt, Follows, Exec, Extends, Sane, Reached, LabelRun, Good, StmtOk;
    DefaultOk(s, env, inLoop);
    var c1 := Slide(a0, a, p, w, c0, c, 0);
    d := RunPart(s, Default(s), env, inLoop, ctl, a, p, w, c1, fuel);
    FollowsFrom(Exec(Default(s), c.st, w, fuel), |GenStmt(Default(s), env, ctl, a).code|, ctl, env, fuel, p, w, c0, c1, d);
  }

  lemma DefaultOk(s: Stmt, env: Env, inLoop: bool)
    requires s.Switch? && StmtOk(s, env, inLoop)
    ensures StmtOk(Default(s), env, inLoop) && (Default(s) < s || Default(s) == NOTHING)
  {
  }

  lemma ChainStages(s: Stmt, env: Env, inLoop: bool, ctl: Ctl, done: nat, v: EmittedValue, p: Builder)
    requires s.Switch? && s.dflt.Some? && StmtOk(s, env, inLoop) && Sane(v.b) && Extends(GenChain(s, env, ctl, done, v), p)
    ensures var cases, n := v.b.next, CaseCount(s.groups);
      var b0 := v.b.Fresh(n);
      var b1 := GenTests(s.groups, v.val, cases, b0);
      var b2 := GenStmt(s.dflt.value, env, ctl, b1).Emit(Branch(done));
      && GenChain(s, env, ctl, done, v) == GenBodies(s.groups, env, ctl, done, cases, b2)
      && Sane(b0) && Sane(b1) && Sane(b2) && Extends(b1, p) && Extends(b2, p)
      && cases + n <= b2.next && forall l :: cases <= l < cases + n ==> l !in b2.placed
  {
    hide Grows, GenStmt, GenTests, GenBodies, Extends, Sane;
    var cases, n := v.b.next, CaseCount(s.groups);
    var b0 := v.b.Fresh(n);
    var b1 := GenTests(s.groups, v.val, cases, b0);
    var b2 := GenStmt(s.dflt.value, env, ctl, b1);
    var b3 := b2.Emit(Branch(done));
    SaneFresh(v.b, n);
    TestsGrow(s.groups, v.val, cases, b0);
    GrowsSane(b0, b1, b0.next);
    StmtGrows(s.dflt.value, env, inLoop, ctl, b1);
    GrowsSane(b1, b2, b1.next);
    SaneEmit(b2, Branch(done));
    BodiesExtend(s.groups, env, inLoop, ctl, done, cases, b3);
    ExtendsTrans(b3, GenBodies(s.groups, env, ctl, done, cases, b3), p);
    ExtendsEmit(b2, Branch(done), p);
    GrowsExtends(b1, b2, p, b1.next);
    forall l: nat | cases <= l < cases + n ensures l !in b3.placed {
      NewUnplaced(v.b, l);
      Unplaced(b0, b1, l);
      Unplaced(b1, b2, l);
    }
  }

  lemma RunClosedChain(s: Stmt, env: Env, inLoop: bool, ctl: Ctl, done: nat, v: EmittedValue, p: Builder, w: World,
                       c0: Config, c: Config, fuel: nat) returns (d: Config)
    requires s.Switch? && s.dflt.Some? && StmtOk(s, env, inLoop)
    requires Set(v.b, GenChain(s, env, ctl, done, v), env, p, w, c) && Reached(p, w, c0, c, 0)
    requires Bounded(v.val, v.b.next) && p.Target(done) == |GenChain(s, env, ctl, done, v).code|
    ensures Follows(Exec(Selected(s, ValueOf(v.val, c), w), c.st, w, fuel), |GenChain(s, env, ctl, done, v).code|, ctl, env,
                    fuel, p, w, c0, d)
    decreases fuel, s, 2, 0
  {
    hide Follows, Grows, Leads, Extends, Sane, Reached, Good, Builder.Target, Exec, GenStmt, GenTests, Select, GenBodies,
      LabelRun, GenChain, StmtOk, GroupsOk, FitWorld, UseTable, TableFits;
    ChainStages(s, env, inLoop, ctl, done, v, p);
    var x := ValueOf(v.val, c);
    SelectedOk(s, env, inLoop, x, w);
    SwitchOk(s, env, inLoop);
    var cases, n := v.b.next, CaseCount(s.groups);
    var b0 := v.b.Fresh(n);
    var b1 := GenTests(s.groups, v.val, cases, b0);
    var b2 := GenStmt(s.dflt.value, env, ctl, b1).Emit(Branch(done));
    var end := |GenChain(s, env, ctl, done, v).code|;
    ReachedRefl(p, w, c, b0.next);
    var c1 := RunTests(s.groups, v.val, cases, b0, p, w, c, c, b0.next);
    ReachedTrans(p, w, c0, c, c1, 0, b0.next);
    if CaseIndex(s.groups, x) < n {
      var a0, a := ChainEntry(s.groups, env, inLoop, ctl, done, cases, b2, p, x);
      d := RunCase(s, Select(s.groups, x).value, env, inLoop, ctl, done, a0, a, end, p, w, c0, c1, fuel);
    } else {
      LabelRunRefl(b1);
      d := RunCase(s, s.dflt.value, env, inLoop, ctl, done, b1, b1, end, p, w, c0, c1, fuel);
    }
  }

  lemma OpenChain(s: Stmt, env: Env, inLoop: bool, ctl: Ctl, done: nat, v: EmittedValue, p: Builder)
    requires s.Switch? && s.dflt.None? && GroupsOk(s.groups, env, inLoop) && Sane(v.b)
    requires Extends(GenChain(s, env, ctl, done, v), p)
    ensures var cases, n := v.b.next, CaseCount(s.groups);
      var b0 := v.b.Fresh(n);
      var b1 := GenTests(s.groups, v.val, cases, b0);
      && GenChain(s, env, ctl, done, v) == GenBodies(s.groups, env, ctl, done, cases, b1)
      && Sane(b0) && Sane(b1) && Extends(b1, p)
      && cases + n <= b1.next && forall l :: cases <= l < cases + n ==> l !in b1.placed
  {
    hide Grows, GenStmt, GenTests, GenBodies, Extends, Sane;
    var cases, n := v.b.next, CaseCount(s.groups);
    var b0 := v.b.Fresh(n);
    var b1 := GenTests(s.groups, v.val, cases, b0);
    SaneFresh(v.b, n);
    TestsGrow(s.groups, v.val, cases, b0);
    GrowsSane(b0, b1, b0.next);
    BodiesExtend(s.groups, env, inLoop, ctl, done, cases, b1);
    ExtendsTrans(b1, GenBodies(s.groups, env, ctl, done, cases, b1), p);
    forall l: nat | cases <= l < cases + n ensures l !in b1.placed {
      NewUnplaced(v.b, l);
      Unplaced(b0, b1, l);
    }
  }

  lemma FirstBody(gs: GroupList, env: Env, inLoop: bool, ctl: Ctl, done: nat, first: nat, b: Builder, p: Builder)
    requires gs.Group? && GroupsOk(gs, env, inLoop)
    requires first + CaseCount(gs) <= b.next && forall i :: first <= i < first + CaseCount(gs) ==> i !in b.placed
    requires Sane(b) && Extends(GenBodies(gs, env, ctl, done, first, b), p)
    ensures var a := PlaceLabels(first, |gs.ranges|, b);
      && StmtOk(gs.body, env, inLoop) && LabelRun(b, a) && Extends(a, p) && Sane(a) && |b.code| <= |a.code|
      && Extends(GenStmt(gs.body, env, ctl, a).Emit(Branch(done)), p)
  {
    hide GenStmt, PlaceLabels, Grows, Sane;
    ChainFacts(gs, env, inLoop, ctl, done, first, b, p);
  }

  /** Without a default the code goes on with the first body when no case contains the value. */
  lemma RunOpenChain(s: Stmt, env: Env, inLoop: bool, ctl: Ctl, done: nat, v: EmittedValue, p: Builder, w: World,
                     c0: Config, c: Config, fuel: nat) returns (d: Config)
    requires s.Switch? && s.dflt.None? && s.groups.Group? && FallsInto(s.cond, s.groups, env) && StmtOk(s, env, inLoop)
    requires Set(v.b, GenChain(s, env, ctl, done, v), env, p, w, c) && Reached(p, w, c0, c, 0)
    requires Bounded(v.val, v.b.next) && p.Target(done) == |GenChain(s, env, ctl, done, v).code|
    ensures Follows(Exec(Selected(s, ValueOf(v.val, c), w), c.st, w, fuel), |GenChain(s, env, ctl, done, v).code|, ctl, env,
                    fuel, p, w, c0, d)
    decreases fuel, s, 2, 0
  {
    hide Follows, Grows, Leads, Extends, Sane, Reached, Good, Builder.Target, Exec, GenStmt, GenTests, GenBodies, LabelRun,
      GenChain, StmtOk, PlaceLabels, Select, GroupsOk, UseTable, TableFits;
    SwitchOk(s, env, inLoop);
    var x := ValueOf(v.val, c);
    var cases, n := v.b.next, CaseCount(s.groups);
    var b0 := v.b.Fresh(n);
    var b1 := GenTests(s.groups, v.val, cases, b0);
    var end := |GenChain(s, env, ctl, done, v).code|;
    OpenChain(s, env, inLoop, ctl, done, v, p);
    ReachedRefl(p, w, c, b0.next);
    var c1 := RunTests(s.groups, v.val, cases, b0, p, w, c, c, b0.next);
    ReachedTrans(p, w, c0, c, c1, 0, b0.next);
    if CaseIndex(s.groups, x) < n {
      SelectOk(s.groups, env, inLoop, x);
      var a0, a := ChainEntry(s.groups, env, inLoop, ctl, done, cases, b1, p, x);
      d := RunCase(s, Select(s.groups, x).value, env, inLoop, ctl, done, a0, a, end, p, w, c0, c1, fuel);
    } else {
      FirstBody(s.groups, env, inLoop, ctl, done, cases, b1, p);
      d := RunCase(s, s.groups.body, env, inLoop, ctl, done, b1, PlaceLabels(cases, |s.groups.ranges|, b1), end, p, w, c0, c1,
                   fuel);
    }
  }

  lemma RunChain(s: Stmt, env: Env, inLoop: bool, ctl: Ctl, done: nat, v: EmittedValue, p: Builder, w: World, c0: Config,
                 c: Config, fuel: nat) returns (d: Config)
    requires s.Switch? && StmtOk(s, env, inLoop) && FallsInto(s.cond, s.groups, env) == s.groups.Group?
    requires Set(v.b, GenChain(s, env, ctl, done, v), env, p, w, c) && Reached(p, w, c0, c, 0)
    requires Bounded(v.val, v.b.next) && p.Target(done) == |GenChain(s, env, ctl, done, v).code|
    ensures Follows(Exec(Selected(s, ValueOf(v.val, c), w), c.st, w, fuel), |GenChain(s, env, ctl, done, v).code|, ctl, env,
                    fuel, p, w, c0, d)
    decreases fuel, s, 2, 1
  {
    hide Follows, Set, Reached, StmtOk, GenStmt, Builder.Target, Exec;
    if s.dflt.Some? {
      d := RunClosedChain(s, env, inLoop, ctl, done, v, p, w, c0, c, fuel);
    } else if s.groups.Group? {
      d := RunOpenChain(s, env, inLoop, ctl, done, v, p, w, c0, c, fuel);
    } else {
      d := c;
      NoChain(s, env, ctl, done, v, p, w, c0, c, fuel);
    }
  }

  lemma NoChain(s: Stmt, env: Env, ctl: Ctl, done: nat, v: EmittedValue, p: Builder, w: World, c0: Config, c: Config, fuel: nat)
    requires s.Switch? && s.dflt.None? && s.groups.NoGroup?
    requires Set(v.b, GenChain(s, env, ctl, done, v), env, p, w, c) && Reached(p, w, c0, c, 0)
    ensures Follows(Exec(Selected(s, ValueOf(v.val, c), w), c.st, w, fuel), |GenChain(s, env, ctl, done, v).code|, ctl, env,
                    fuel, p, w, c0, c)
  {
    NothingDone(c.st, w, fuel);
  }

  // ---------- loops ----------

  /** The builder at the list's own continue label. */
  function AtLabel(l: StmtList, env: Env, ctl: Ctl, b: Builder): Builder {
    if l.End? || l.entry == ContinueLabel then b else AtLabel(l.next, env, ctl, GenStmt(l.entry, env, ctl, b))
  }

  lemma {:induction false} AtLabelFacts(l: StmtList, env: Env, ctl: Ctl, b: Builder, p: Builder)
    requires ListOk(l, env, true, true) && AfterLabel(l).Some? && ctl.cont < b.next
    requires Sane(b) && Extends(GenList(l, env, ctl, b), p) && ctl.cont !in b.placed
    ensures var a := AtLabel(l, env, ctl, b);
      && Plain(AfterLabel(l).value, env)
      && Sane(a.Emit(Label(ctl.cont))) && Extends(a.Emit(Label(ctl.cont)), p) && p.Target(ctl.cont) == |a.code|
      && GenList(AfterLabel(l).value, env, ctl, a.Emit(Label(ctl.cont))) == GenList(l, env, ctl, b)
    decreases l, 0
  {
    hide GenStmt, Grows, Sane, Extends, Builder.Target;
    var b1 := GenStmt(l.entry, env, ctl, b);
    if l.entry == ContinueLabel {
      LabelEmitted(env, ctl, b);
      PlainGrows(l.next, env, ctl, b1);
      GrowsExtends(b1, GenList(l.next, env, ctl, b1), p, b1.next);
      PlacedAt(b, ctl.cont, p);
      SaneEmit(b, Label(ctl.cont));
    } else {
      StmtGrows(l.entry, env, true, ctl, b);
      GrowsSane(b, b1, b.next);
      Unplaced(b, b1, ctl.cont);
      AtLabelFacts(l.next, env, ctl, b1, p);
    }
  }

  /** The list of a loop body: a continue before its label goes on after the label. */
  lemma {:induction false} RunBodyList(l: StmtList, env: Env, ctl: Ctl, b: Builder, p: Builder, w: World, c: Config, fuel: nat)
    returns (d: Config)
    requires ListOk(l, env, true, true) && Set(b, GenList(l, env, ctl, b), env, p, w, c)
    requires ctl.cont < b.next && ctl.cont !in b.placed
    ensures Follows(ExecList(l, c.st, w, fuel), |GenList(l, env, ctl, b).code|, ctl, env, fuel, p, w, c, d)
    decreases fuel, l, 1
  {
    if l.End? {
      d := c;
      LeadsRefl(p, w, c);
    } else if l.entry == ContinueLabel {
      LabelEmitted(env, ctl, b);
      var b1 := GenStmt(l.entry, env, ctl, b);
      PlainGrows(l.next, env, ctl, b1);
      GrowsExtends(b1, GenList(l.next, env, ctl, b1), p, b1.next);
      ReachedRefl(p, w, c, 0);
      SaneEmit(b, Label(ctl.cont));
      assert Exec(l.entry, c.st, w, fuel) == Done(Normal, c.st);
      assert ExecList(l, c.st, w, fuel) == ExecList(l.next, c.st, w, fuel);
      var c1 := ExecuteLabel(b, ctl.cont, p, w, c, c, 0);
      d := RunPlain(l.next, env, ctl, b1, p, w, c1, fuel);
      FollowsFrom(ExecList(l.next, c.st, w, fuel), |GenList(l, env, ctl, b).code|, ctl, env, fuel, p, w, c, c1, d);
    } else {
      d := RunBodyNode(l, env, ctl, b, p, w, c, fuel);
    }
  }

  lemma {:induction false} RunPlain(l: StmtList, env: Env, ctl: Ctl, b: Builder, p: Builder, w: World, c: Config, fuel: nat)
    returns (d: Config)
    requires Plain(l, env) && Set(b, GenList(l, env, ctl, b), env, p, w, c)
    ensures Follows(ExecList(l, c.st, w, fuel), |GenList(l, env, ctl, b).code|, ctl, env, fuel, p, w, c, d)
    decreases fuel, l, 2
  {
    PlainOk(l, env);
    d := RunList(l, env, true, ctl, b, p, w, c, fuel);
  }

  lemma {:induction false} PlainOk(l: StmtList, env: Env)
    requires Plain(l, env)
    ensures ListOk(l, env, true, false)
  {
    if l.Node? {
      PlainOk(l.next, env);
    }
  }

  lemma RunBodyNode(l: StmtList, env: Env, ctl: Ctl, b: Builder, p: Builder, w: World, c: Config, fuel: nat)
    returns (d: Config)
    requires l.Node? && l.entry != ContinueLabel && ListOk(l, env, true, true)
    requires Set(b, GenList(l, env, ctl, b), env, p, w, c) && ctl.cont < b.next && ctl.cont !in b.placed
    ensures Follows(ExecList(l, c.st, w, fuel), |GenList(l, env, ctl, b).code|, ctl, env, fuel, p, w, c, d)
    decreases fuel, l, 0
  {
    var b1 := GenStmt(l.entry, env, ctl, b);
    var whole := GenList(l.next, env, ctl, b1);
    var end := |whole.code|;
    var r := Exec(l.entry, c.st, w, fuel);
    StmtGrows(l.entry, env, true, ctl, b);
    LabelledGrows(l.next, env, ctl, b1);
    GrowsSane(b, b1, b.next);
    Unplaced(b, b1, ctl.cont);
    GrowsExtends(b1, whole, p, ctl.cont);
    hide GenStmt, Exec, Follows, Grows, Leads, Extends, Sane, Reached, GenList, Builder.Target, Good;
    d := RunStmt(l.entry, env, true, ctl, b, p, w, c, fuel);
    if r.Done? && r.kind == Normal && !r.st.failed {
      FollowsReached(r.st, |b1.code|, ctl, env, fuel, p, w, c, d);
      var c1 := d;
      d := RunBodyList(l.next, env, ctl, b1, p, w, c1, fuel);
      FollowsFrom(ExecList(l.next, r.st, w, fuel), end, ctl, env, fuel, p, w, c, c1, d);
    } else if r.Done? && r.kind == Cont && AfterLabel(l.next).Some? {
      AtLabelFacts(l.next, env, ctl, b1, p);
      AfterSmaller(l.next);
      var a := AtLabel(l.next, env, ctl, b1);
      FollowsCont(r, |b1.code|, ctl, env, fuel, p, w, c, d);
      var c1 := ExecuteLabel(a, ctl.cont, p, w, c, d, 0);
      d := RunPlain(AfterLabel(l.next).value, env, ctl, a.Emit(Label(ctl.cont)), p, w, c1, fuel);
      FollowsFrom(ExecList(AfterLabel(l.next).value, r.st, w, fuel), end, ctl, env, fuel, p, w, c, c1, d);
    } else {
      FollowsElsewhere(r, |b1.code|, end, ctl, env, fuel, p, w, c, d);
    }
  }

  lemma FollowsCont(r: Outcome, end: nat, ctl: Ctl, env: Env, fuel: nat, p: Builder, w: World, c: Config, d: Config)
    requires Follows(r, end, ctl, env, fuel, p, w, c, d) && r.Done? && r.kind != Normal && !r.st.failed
    ensures Reached(p, w, c, d, 0) && d.st == r.st && Good(r.st, env)
    ensures d.pc == p.Target(if r.kind == Cont then ctl.cont else ctl.brk)
  {
  }

  // The two shapes of a loop body: with a continue label of its own, and without one.

  lemma {:induction false} OkSetsNoLabel(s: Stmt, env: Env, inLoop: bool)
    requires StmtOk(s, env, inLoop)
    ensures !SetsLabel(s)
    decreases s
  {
    match s
    case Body(list) => ListSetsNoLabel(list, env, inLoop);
    case If(_, thn, els) =>
      if thn.Some? { OkSetsNoLabel(thn.value, env, inLoop); }
      if els.Some? { OkSetsNoLabel(els.value, env, inLoop); }
    case Switch(_, gs, dflt) =>
      GroupsSetNoLabel(gs, env, inLoop);
      if dflt.Some? { OkSetsNoLabel(dflt.value, env, inLoop); }
    case _ =>
  }

  lemma {:induction false} ListSetsNoLabel(l: StmtList, env: Env, inLoop: bool)
    requires ListOk(l, env, inLoop, false)
    ensures !ListSetsLabel(l)
    decreases l
  {
    if l.Node? {
      OkSetsNoLabel(l.entry, env, inLoop);
      ListSetsNoLabel(l.next, env, inLoop);
    }
  }

  lemma {:induction false} GroupsSetNoLabel(gs: GroupList, env: Env, inLoop: bool)
    requires GroupsOk(gs, env, inLoop)
    ensures !GroupsSetLabel(gs)
    decreases gs
  {
    if gs.Group? {
      OkSetsNoLabel(gs.body, env, inLoop);
      GroupsSetNoLabel(gs.next, env, inLoop);
    }
  }

  /** hasCustomContinueLabel is set by exactly those bodies whose list has a continue label; no
      `continue` gets past that label. */
  lemma {:induction false} LabelShape(l: StmtList, env: Env, st: State, w: World, fuel: nat)
    requires ListOk(l, env, true, true)
    ensures ListSetsLabel(l) <==> AfterLabel(l).Some?
    ensures AfterLabel(l).None? ==> ListOk(l, env, true, false)
    ensures AfterLabel(l).Some? ==> var r := ExecList(l, st, w, fuel); r.Done? ==> r.kind != Cont
  {
    if l.Node? && l.entry == ContinueLabel {
      PlainNormal(l.next, env, st, w, fuel);
    } else if l.Node? {
      OkSetsNoLabel(l.entry, env, true);
      var r := Exec(l.entry, st, w, fuel);
      LabelShape(l.next, env, if r.Done? then r.st else st, w, fuel);
      if r.Done? && AfterLabel(l.next).Some? {
        AfterPlain(l.next, env);
        AfterSmaller(l.next);
        PlainNormal(AfterLabel(l.next).value, env, r.st, w, fuel);
      }
    }
  }

  lemma {:induction false} AfterPlain(l: StmtList, env: Env)
    requires ListOk(l, env, true, true) && AfterLabel(l).Some?
    ensures Plain(AfterLabel(l).value, env)
  {
    if l.entry != ContinueLabel {
      AfterPlain(l.next, env);
    }
  }

  lemma {:induction false} PlainNormal(l: StmtList, env: Env, st: State, w: World, fuel: nat)
    requires Plain(l, env)
    ensures var r := ExecList(l, st, w, fuel); r.Done? && r.kind == Normal
  {
    if l.Node? {
      PlainNormal(l.next, env, Eval(l.entry.e, st, w).st, w, fuel);
    }
  }

  lemma BodyShape(s: Stmt, env: Env, inLoop: bool, st: State, w: World, fuel: nat)
    requires s.Loop? && StmtOk(s, env, inLoop)
    ensures SetsLabel(s.body) ==>
      var r := Exec(s.body, st, w, fuel); r.Done? ==> r.kind != Cont
    ensures !SetsLabel(s.body) ==> StmtOk(s.body, env, true)
  {
    if s.body.Body? {
      LabelShape(s.body.list, env, st, w, fuel);
    } else {
      OkSetsNoLabel(s.body, env, true);
    }
  }

  lemma LoopStages(s: Stmt, env: Env, inLoop: bool, b: Builder, p: Builder, st: State, w: World)
    requires s.Loop? && StmtOk(s, env, inLoop) && Sane(b) && Extends(GenLoop(s, env, b), p)
    ensures var brk, start, cont := b.next, b.next + 1, b.next + 2;
      var b1, b2 := b.Fresh(3).Emit(Label(start)), GenLoopBody(s, env, b);
      var b3 := if SetsLabel(s.body) then b2 else b2.Emit(Label(cont));
      && Extends(b1, p) && Extends(b2, p) && Extends(b3, p) && Extends(b3.Emit(Branch(start)), p)
      && Sane(b1) && cont !in b1.placed
      && p.Target(start) == |b.code| && p.Target(brk) == |GenLoopEnd(s, env, b).code|
      && (!SetsLabel(s.body) ==> p.Target(cont) == |b2.code|)
  {
    hide Grows, Extends, Sane, GenStmt, GenLoopBody, Builder.Target, SetsLabel, StmtOk;
    var brk, start, cont := b.next, b.next + 1, b.next + 2;
    var b0, b2 := b.Fresh(3), GenLoopBody(s, env, b);
    var b1 := b0.Emit(Label(start));
    var b3 := if SetsLabel(s.body) then b2 else b2.Emit(Label(cont));
    SaneFresh(b, 3);
    SaneEmit(b0, Label(start));
    NewUnplaced(b, brk);
    NewUnplaced(b, start);
    NewUnplaced(b, cont);
    LoopBodyGrows(s, env, inLoop, b);
    StillUnplaced(b1, b2, cont, brk);
    if !SetsLabel(s.body) {
      BodyShape(s, env, inLoop, st, w, 0);
      StmtGrows(s.body, env, true, Ctl(cont, brk), b1);
      BodyUnplaced(s, env, b, cont);
    }
    PlacedAt(b3.Emit(Branch(start)), brk, p);
    ExtendsEmit(b3.Emit(Branch(start)), Label(brk), p);
    ExtendsEmit(b3, Branch(start), p);
    if !SetsLabel(s.body) {
      PlacedAt(b2, cont, p);
      ExtendsEmit(b2, Label(cont), p);
    }
    GrowsExtends(b1, b2, p, cont);
    PlacedAt(b0, start, p);
  }

  lemma BodyUnplaced(s: Stmt, env: Env, b: Builder, l: nat)
    requires s.Loop?
    requires var b1 := b.Fresh(3).Emit(Label(b.next + 1));
      GrowsOwn(b1, GenStmt(s.body, env, Ctl(b.next + 2, b.next), b1)) && l !in b1.placed && l < b1.next
    ensures l !in GenLoopBody(s, env, b).placed
  {
  }

  /** One iteration after the other: the body, the continue label, and back to the start. */
  lemma {:induction false} RunLoop(s: Stmt, env: Env, inLoop: bool, b: Builder, p: Builder, w: World, c: Config, fuel: nat,
                                   ctl: Ctl) returns (d: Config)
    requires s.Loop? && StmtOk(s, env, inLoop) && Set(b, GenLoop(s, env, b), env, p, w, c)
    ensures Follows(Exec(s, c.st, w, fuel), |GenLoop(s, env, b).code|, ctl, env, fuel, p, w, c, d)
    decreases fuel, s, 3
  {
    LoopStages(s, env, inLoop, b, p, c.st, w);
    ReachedRefl(p, w, c, 0);
    var c1 := ExecuteLabel(b.Fresh(3), b.next + 1, p, w, c, c, 0);
    if fuel == 0 {
      d := c;
      assert Run(p, w, c, 0) == c;
    } else {
      d := RunIteration(s, env, inLoop, b, p, w, c, c1, fuel, ctl);
    }
  }

  lemma RunIteration(s: Stmt, env: Env, inLoop: bool, b: Builder, p: Builder, w: World, c0: Config, c: Config, fuel: nat,
                     ctl: Ctl) returns (d: Config)
    requires s.Loop? && StmtOk(s, env, inLoop) && fuel > 0
    requires Set(b.Fresh(3).Emit(Label(b.next + 1)), GenLoop(s, env, b), env, p, w, c) && Sane(b)
    requires Reached(p, w, c0, c, 0) && c0.st == c.st
    ensures Follows(Exec(s, c0.st, w, fuel), |GenLoop(s, env, b).code|, ctl, env, fuel, p, w, c0, d)
    decreases fuel, s, 2
  {
    hide Grows, Extends, Sane, GenStmt, GenLoopBody, Builder.Target, SetsLabel, Follows, Leads, Reached, Survives, GenLoopEnd;
    LoopStages(s, env, inLoop, b, p, c.st, w);
    BodyShape(s, env, inLoop, c.st, w, fuel);
    var brk, start, cont := b.next, b.next + 1, b.next + 2;
    var b2 := GenLoopBody(s, env, b);
    var b3 := if SetsLabel(s.body) then b2 else b2.Emit(Label(cont));
    var inner := Ctl(cont, brk);
    var r := Exec(s.body, c.st, w, fuel);
    var end := |GenLoop(s, env, b).code|;
    var d1 := RunLoopBody(s, env, inLoop, b, p, w, c, fuel);
    FollowsFrom(r, |b2.code|, inner, env, fuel, p, w, c0, c, d1);
    d := d1;
    if r.Timeout? {
      FollowsTimeout(|b2.code|, end, inner, ctl, env, fuel, p, w, c0, d);
    } else if r.kind == Brk {
      FollowsCont(r, |b2.code|, inner, env, fuel, p, w, c0, d1);
      d := ExecuteLabel(GenLoopEnd(s, env, b), brk, p, w, c0, d1, 0);
      FollowsDone(r.st, end, ctl, env, fuel, p, w, c0, d);
    } else if r.st.failed {
      FollowsElsewhere(r, |b2.code|, end, inner, env, fuel, p, w, c0, d);
      FollowsFailed(r.st, end, inner, ctl, env, fuel, p, w, c0, d);
    } else {
      d := RunBack(s, env, inLoop, b, p, w, c0, d1, fuel, ctl, r);
    }
  }

  lemma FollowsFailed(st: State, end: nat, ctl: Ctl, ctl1: Ctl, env: Env, fuel: nat, p: Builder, w: World, c: Config, d: Config)
    requires Follows(Done(Normal, st), end, ctl, env, fuel, p, w, c, d) && st.failed
    ensures Follows(Done(Normal, st), end, ctl1, env, fuel, p, w, c, d)
  {
  }

  lemma FollowsTimeout(end: nat, end1: nat, ctl: Ctl, ctl1: Ctl, env: Env, fuel: nat, p: Builder, w: World, c: Config, d: Config)
    requires Follows(Timeout, end, ctl, env, fuel, p, w, c, d)
    ensures Follows(Timeout, end1, ctl1, env, fuel, p, w, c, d)
  {
  }

  lemma RunLoopBody(s: Stmt, env: Env, inLoop: bool, b: Builder, p: Builder, w: World, c: Config, fuel: nat)
    returns (d: Config)
    requires s.Loop? && StmtOk(s, env, inLoop) && fuel > 0
    requires Set(b.Fresh(3).Emit(Label(b.next + 1)), GenLoop(s, env, b), env, p, w, c) && Sane(b)
    ensures Follows(Exec(s.body, c.st, w, fuel), |GenLoopBody(s, env, b).code|, Ctl(b.next + 2, b.next), env, fuel, p, w, c, d)
    decreases fuel, s, 0
  {
    hide Grows, Extends, Sane, GenList, Builder.Target, SetsLabel, Follows, Leads;
    LoopStages(s, env, inLoop, b, p, c.st, w);
    var inner, b1 := Ctl(b.next + 2, b.next), b.Fresh(3).Emit(Label(b.next + 1));
    if s.body.Body? {
      d := RunBodyList(s.body.list, env, inner, b1, p, w, c, fuel);
    } else {
      d := RunStmt(s.body, env, true, inner, b1, p, w, c, fuel);
    }
  }

  /** After an iteration that did not break: back to the start, with one unit of fuel less. */
  lemma RunBack(s: Stmt, env: Env, inLoop: bool, b: Builder, p: Builder, w: World, c0: Config, c: Config, fuel: nat,
                ctl: Ctl, r: Outcome) returns (d: Config)
    requires s.Loop? && StmtOk(s, env, inLoop) && fuel > 0
    requires Sane(b) && Extends(GenLoop(s, env, b), p) && FitWorld(w, env)
    requires r == Exec(s.body, c0.st, w, fuel) && r.Done? && r.kind != Brk && !r.st.failed && !c0.st.failed
    requires Follows(r, |GenLoopBody(s, env, b).code|, Ctl(b.next + 2, b.next), env, fuel, p, w, c0, c)
    ensures Follows(Exec(s, c0.st, w, fuel), |GenLoop(s, env, b).code|, ctl, env, fuel, p, w, c0, d)
    decreases fuel, s, 0
  {
    hide Grows, Extends, Sane, GenStmt, GenLoopBody, GenLoop, Builder.Target, SetsLabel, Leads, Reached, Survives;
    LoopStages(s, env, inLoop, b, p, c.st, w);
    BodyShape(s, env, inLoop, c0.st, w, fuel);
    var start, cont := b.next + 1, b.next + 2;
    var b2 := GenLoopBody(s, env, b);
    var b3 := if SetsLabel(s.body) then b2 else b2.Emit(Label(cont));
    assert Reached(p, w, c0, c, 0) && c.st == r.st && Good(r.st, env) && c.pc == |b2.code| by {
      FollowsAt(r, |b2.code|, Ctl(cont, b.next), env, fuel, p, w, c0, c);
    }
    var c1 := c;
    if !SetsLabel(s.body) {
      c1 := ExecuteLabel(b2, cont, p, w, c0, c1, 0);
    }
    var c2 := ExecuteBranch(b3, start, p, w, c0, c1, 0);
    d := RunLoop(s, env, inLoop, b, p, w, c2, fuel - 1, ctl);
    var next := Exec(s, r.st, w, fuel - 1);
    assert Exec(s, c0.st, w, fuel) == next;
    if next.Timeout? {
      Longer(p, w, c0, c1, c2, fuel);
    } else {
      Further(next, |GenLoop(s, env, b).code|, ctl, env, fuel, p, w, c0, c2, d);
    }
  }

  lemma FollowsAt(r: Outcome, end: nat, ctl: Ctl, env: Env, fuel: nat, p: Builder, w: World, c: Config, d: Config)
    requires Follows(r, end, ctl, env, fuel, p, w, c, d) && r.Done? && r.kind != Brk && !r.st.failed
    requires r.kind == Cont ==> p.Target(ctl.cont) == end
    ensures Reached(p, w, c, d, 0) && d.st == r.st && Good(r.st, env) && d.pc == end
  {
  }

  lemma Longer(p: Builder, w: World, c0: Config, c1: Config, c2: Config, fuel: nat)
    requires Reached(p, w, c0, c1, 0) && Leads(p, w, c1, c2, 1) && fuel > 0 && Survives(p, w, c2, fuel - 1)
    ensures Survives(p, w, c0, fuel)
  {
    LeadsTrans(p, w, c0, c1, c2, 0, 1);
    LeadsSurvives(p, w, c0, c2, 1, fuel - 1);
  }

  lemma Further(r: Outcome, end: nat, ctl: Ctl, env: Env, fuel: nat, p: Builder, w: World, c0: Config, c2: Config, d: Config)
    requires Reached(p, w, c0, c2, 0) && fuel > 0 && Follows(r, end, ctl, env, fuel - 1, p, w, c2, d) && r.Done?
    ensures Follows(r, end, ctl, env, fuel, p, w, c0, d)
  {
    LeadsTrans(p, w, c0, c2, d, 0, 0);
  }
}
