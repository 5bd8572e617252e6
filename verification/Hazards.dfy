/** Where the generated code does not do what the source says, and exactly when. */
module Hazards {
  import opened Basics
  import opened Machine
  import opened Expressions
  import opened Statements
  import opened Growth
  import opened Dispatch
  import opened Lowering

  // ---------- operands that are read late ----------

  /** A strict operator applied to its operands, or none if that is an error. */
  function Applied(e: Expr, x: Word, y: Word): Option<Word>
    requires e.Arith? || e.LogicXor?
  {
    if e.Arith? then Intrinsic(e.op, x, y) else Some(Truth(Truthy(x) != Truthy(y)))
  }

  /** An identifier on the left of a strict operator, also one handed through assignments, is read after the right
      operand was evaluated.  So, where nothing inside the operands depends on that order, the code applies the
      operator to what the variable holds then (or stops with the error this causes); and it is right exactly when
      that gives the same as what the variable held before. */
  lemma LateRead(e: Expr, env: Env, b: Builder, p: Builder, w: World, c: Config) returns (d: Config)
    requires (e.Arith? || e.LogicXor?) && LiveVar(e.left).Some? && WellTyped(e, env)
    requires w.code.None? && InOrder(e.left, c.st, w) && InOrder(e.right, Eval(e.left, c.st, w).st, w)
    requires TypedState(c.st, env) && Sane(b) && Extends(GenExpr(e, env, b).b, p) && c.pc == |b.code|
    requires !Eval(e.right, Eval(e.left, c.st, w).st, w).st.failed
    ensures var g, before := GenExpr(e, env, b), Eval(e.left, c.st, w);
      var after := Eval(e.right, before.st, w);
      var v := Applied(e, Read(after.st, LiveVar(e.left).value), after.v);
      && Reached(p, InCode(w, env), c, d, 0)
      && (v.None? ==> d.pc >= |p.code| && d.st == Fail(after.st))
      && (v.Some? ==> d.pc == |g.b.code| && d.st == after.st && Holds(g.res, v.value, d))
      && (d.st == Eval(e, c.st, w).st && (v.Some? ==> Holds(g.res, Eval(e, c.st, w).v, d))
          <==> v == Applied(e, before.v, after.v))
  {
    EarlyOrLate(e.left, c.st, w, env);
    EarlyOrLate(e.right, Eval(e.left, c.st, w).st, w, env);
    hide GenExpr, Extends, Sane, Reached;
    ReachedRefl(p, InCode(w, env), c, 0);
    d := RunExpr(e, env, b, p, InCode(w, env), c, c, 0);
  }

  /** `x ^^ (x = v)` is compiled to the constant answer "no". */
  lemma XorOfAssignment(x: nat, v: Expr, env: Env, b: Builder, p: Builder, w: World, c: Config) returns (d: Config)
    requires WellTyped(Assign(x, v), env) && TypedState(c.st, env) && Sane(b) && w.code.None? && InOrder(v, c.st, w)
    requires Extends(GenExpr(LogicXor(Var(x), Assign(x, v)), env, b).b, p) && c.pc == |b.code| && !Eval(v, c.st, w).st.failed
    ensures var e := LogicXor(Var(x), Assign(x, v));
      && Reached(p, InCode(w, env), c, d, 0) && d.pc == |GenExpr(e, env, b).b.code|
      && Holds(GenExpr(e, env, b).res, Truth(false), d)
      && (Eval(e, c.st, w).v == Truth(false) <==> Truthy(Eval(v, c.st, w).v) == Truthy(Read(c.st, x)))
  {
    hide GenExpr, Extends, Sane, Reached;
    d := LateRead(LogicXor(Var(x), Assign(x, v)), env, b, p, w, c);
  }

  /** `x - (x = v)` for an int `v` is compiled to the constant answer 0. */
  lemma SubtractAssignment(x: nat, v: Expr, env: Env, b: Builder, p: Builder, w: World, c: Config) returns (d: Config)
    requires WellTyped(Arith(Sub, Var(x), Assign(x, v)), env) && TypedState(c.st, env) && Sane(b) && w.code.None?
    requires InOrder(v, c.st, w) && !Eval(v, c.st, w).st.failed && Eval(v, c.st, w).v.tag == INT
    requires Fits(Read(c.st, x).n) && Fits(Eval(v, c.st, w).v.n)
    requires Extends(GenExpr(Arith(Sub, Var(x), Assign(x, v)), env, b).b, p) && c.pc == |b.code|
    ensures var e := Arith(Sub, Var(x), Assign(x, v));
      && Reached(p, InCode(w, env), c, d, 0) && d.pc == |GenExpr(e, env, b).b.code|
      && Holds(GenExpr(e, env, b).res, Word(0, INT), d)
      && (Eval(e, c.st, w).v == Word(0, INT) <==> Read(c.st, x) == Eval(v, c.st, w).v)
  {
    hide GenExpr, Extends, Sane, Reached;
    d := LateRead(Arith(Sub, Var(x), Assign(x, v)), env, b, p, w, c);
  }

  // ---------- dynamically typed loop conditions ----------

  /** ptrs_jit_branch_if, which every `while`, `for` and `do` uses, jumps exactly when its operand is true
      if and only if the operand is typed statically, or is a constant, or both its type and its payload say the same. */
  lemma BranchIfExact(v: JitVar, l: nat, b: Builder, p: Builder, w: World, c: Config, x: Word) returns (d: Config)
    requires Extends(GenBranchIf(v, l, b), p) && c.pc == |b.code| && Holds(v, x, c) && BoundedVar(v, b.next)
    requires p.Target(l) != |GenBranchIf(v, l, b).code|
    ensures Reached(p, w, c, d, 0) && d.st == c.st
    ensures d.pc == (if Truthy(x) then p.Target(l) else |GenBranchIf(v, l, b).code|)
      <==> (v.ty != TDynamic || v.val.Const? || ((x.tag == UNDEFINED) == (x.n == 0)))
  {
    hide Extends, Reached, GenBranchIf, Builder.Target;
    ReachedRefl(p, w, c, 0);
    d := RunBranchIf(v, l, b, p, w, c, c, x);
  }

  // ---------- the interval of a jump table ----------

  /** A jump table is smaller than its cases exactly when the cases reach from the least to the greatest
      64-bit number: the interval wraps around to 0. */
  lemma TableWraps(gs: GroupList, env: Env, inLoop: bool)
    requires GroupsOk(gs, env, inLoop) && SwitchMin(gs) <= SwitchMax(gs) && 2 < CaseCount(gs) < 0x100_0000_0000_0000
    ensures UseTable(gs) && !TableFits(gs) <==> SwitchMin(gs) == INT64_MIN && SwitchMax(gs) == INT64_MAX
  {
    TotalFits(gs, env, inLoop, INT64_MAX, INT64_MIN);
    if UseTable(gs) {
      SmallInterval(Interval(gs), CaseCount(gs));
    }
    WrappedInterval(SwitchMin(gs), SwitchMax(gs));
  }

  lemma SmallInterval(n: int, count: int)
    requires Fits(n) && 2 < count < 0x100_0000_0000_0000 && (n % 0x1_0000_0000_0000_0000) / count < 50
    ensures n >= 0
  {
    var m := n % 0x1_0000_0000_0000_0000;
    var q := m / count;
    assert m == q * count + m % count;
    assert q * count <= 49 * count;
    assert m < 0x8000_0000_0000_0000;
  }

  lemma WrappedInterval(min: int, max: int)
    requires Fits(min) && Fits(max) && min <= max
    ensures var n := Wrap(max - min + 1);
      && (n == max - min + 1 || n == max - min + 1 - 0x1_0000_0000_0000_0000)
      && (n != max - min + 1 && n >= 0 <==> min == INT64_MIN && max == INT64_MAX)
      && (min == INT64_MIN && max == INT64_MAX ==> n == 0)
  {
  }

  // ---------- a compare chain without a default ----------

  /** Without a default, a compare chain falls into the body of its first case when no case matches.  So it is
      right for a value exactly when a case contains it or the first body has no effect. */
  lemma ChainWithoutDefault(s: Stmt, env: Env, inLoop: bool, ctl: Ctl, done: nat, v: EmittedValue, p: Builder, w: World,
                            c: Config, fuel: nat) returns (d: Config)
    requires s.Switch? && s.dflt.None? && FallsInto(s.cond, s.groups, env) && StmtOk(s, env, inLoop)
    requires Set(v.b, GenChain(s, env, ctl, done, v), env, p, w, c)
    requires Bounded(v.val, v.b.next) && p.Target(done) == |GenChain(s, env, ctl, done, v).code|
    ensures var hit := Select(s.groups, ValueOf(v.val, c));
      var runs := Exec(if hit.Some? then hit.value else s.groups.body, c.st, w, fuel);
      var means := if hit.Some? then Exec(hit.value, c.st, w, fuel) else Done(Normal, c.st);
      && Follows(runs, |GenChain(s, env, ctl, done, v).code|, ctl, env, fuel, p, w, c, d)
      && (runs == means <==> hit.Some? || Exec(s.groups.body, c.st, w, fuel) == Done(Normal, c.st))
  {
    hide Follows, Leads, Extends, Sane, Good, Builder.Target, Exec, GenChain, StmtOk, Select, FallsInto;
    ReachedRefl(p, w, c, 0);
    FallsGroup(s.cond, s.groups, env);
    d := RunChain(s, env, inLoop, ctl, done, v, p, w, c, c, fuel);
  }

  lemma FallsGroup(c: Expr, gs: GroupList, env: Env)
    requires FallsInto(c, gs, env)
    ensures gs.Group?
  {
  }
}
