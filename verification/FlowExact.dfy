/** Where the analysis goes on with facts that may not hold, exactly when they do hold, and what this says of
    executions that do not stop there. */
module FlowExact {
  import opened Basics
  import opened Flow
  import opened FlowSound

  // ---------- an expression changes what it assigns ----------

  function Assigned(e: Expr): set<nat> {
    match e
    case Assign(x, value) => {x} + Assigned(value)
    case Binary(_, a, b) => Assigned(a) + Assigned(b)
    case Prefix(_, a) => Assigned(a)
    case LogicOr(_, _, _, a, b) => Assigned(a) + Assigned(b)
    case LogicAnd(_, _, _, a, b) => Assigned(a) + Assigned(b)
    case Ternary(_, _, _, _, c, t, n) => Assigned(c) + Assigned(t) + Assigned(n)
    case _ => {}
  }

  /** The two maps agree on `x`. */
  predicate SameAt(a: map<nat, Pred>, b: map<nat, Pred>, x: nat) {
    (x in a <==> x in b) && (x in a ==> a[x] == b[x])
  }

  /** In the analysis ... */
  lemma {:induction false} AnalysisFrame(e: Expr, f: State, o: Oracle, x: nat)
    requires x !in Assigned(e)
    ensures SameAt(AnalyzeExpr(e, f, o).f.preds, f.preds, x)
  {
    match e
    case Assign(_, value) => AnalysisFrame(value, f, o, x);
    case Binary(_, a, b) => AnalysisFrame(a, f, o, x); AnalysisFrame(b, AnalyzeExpr(a, f, o).f, o, x);
    case Prefix(_, a) => AnalysisFrame(a, f, o, x);
    case LogicOr(_, _, _, a, b) => AnalysisFrame(a, f, o, x); AnalysisFrame(b, Tick(AnalyzeExpr(a, f, o).f), o, x);
    case LogicAnd(_, _, _, a, b) => AnalysisFrame(a, f, o, x); AnalysisFrame(b, Tick(AnalyzeExpr(a, f, o).f), o, x);
    case Ternary(_, _, _, _, c, t, n) =>
      AnalysisFrame(c, f, o, x);
      var f1 := Tick(AnalyzeExpr(c, f, o).f);
      AnalysisFrame(t, f1, o, x);
      AnalysisFrame(n, AnalyzeExpr(t, f1, o).f, o, x);
    case _ =>
  }

  /** ... and when it is evaluated. */
  lemma {:induction false} EvalFrame(e: Expr, st: Store, w: World, x: nat)
    requires x !in Assigned(e)
    ensures var r := Eval(e, st, w); r.Value? ==> Read(r.st, x) == Read(st, x)
    decreases e, 1
  {
    match e
    case Assign(_, value) => EvalFrame(value, st, w, x);
    case Prefix(_, a) => EvalFrame(a, st, w, x);
    case Binary(_, a, b) => PairFrame(e, a, b, st, w, x);
    case LogicOr(_, _, _, a, b) => PairFrame(e, a, b, st, w, x);
    case LogicAnd(_, _, _, a, b) => PairFrame(e, a, b, st, w, x);
    case Ternary(_, _, _, _, c, t, n) => PairFrame(e, c, t, st, w, x); PairFrame(e, c, n, st, w, x);
    case _ =>
  }

  /** Two operands of `e`, one after the other. */
  lemma PairFrame(e: Expr, a: Expr, b: Expr, st: Store, w: World, x: nat)
    requires a < e && b < e && x !in Assigned(a) && x !in Assigned(b)
    ensures var r := Eval(a, st, w);
      r.Value? ==> Read(r.st, x) == Read(st, x) && var q := Eval(b, r.st, w); q.Value? ==> Read(q.st, x) == Read(st, x)
    decreases e, 0
  {
    EvalFrame(a, st, w, x);
    if Eval(a, st, w).Value? { EvalFrame(b, Eval(a, st, w).st, w, x); }
  }

  // ---------- after an operand that was skipped ----------

  /** What state `f` predicts for the variables of `xs` is true. */
  ghost predicate Right(f: State, xs: set<nat>, st: Store) {
    forall x :: x in xs && x in f.preds ==> Describes(f.preds[x], Read(st, x).tag)
  }

  /** The state after an operand describes a store from which it was not evaluated exactly if its predictions for
      the variables that the operand assigns happen to be right. */
  lemma OperandExact(e: Expr, f: State, o: Oracle, st: Store)
    requires Holds(f, st)
    ensures var r := AnalyzeExpr(e, f, o); Holds(r.f, st) <==> Right(r.f, Assigned(e), st)
  {
    var r := AnalyzeExpr(e, f, o);
    VarsExpr(e, f, o);
    if Right(r.f, Assigned(e), st) {
      forall x | x in r.f.preds ensures Describes(r.f.preds[x], Read(st, x).tag) {
        if x !in Assigned(e) { AnalysisFrame(e, f, o, x); }
      }
    }
  }

  /** For a single assignment: exactly if the type predicted for the value is unknown or the variable's own type. */
  lemma AssignExact(x: nat, v: Expr, f: State, o: Oracle, st: Store)
    requires !f.dry && Holds(f, st) && Assigned(v) == {}
    ensures Holds(AnalyzeExpr(Assign(x, v), f, o).f, st) <==> Describes(AnalyzeExpr(v, f, o).p, Read(st, x).tag)
  {
    OperandExact(Assign(x, v), f, o, st);
    VarsExpr(v, f, o);
  }

  /** `a || b` and `a && b` where the truth of `a` is not predicted, in the store after an `a` that decides. */
  lemma ShortCircuitExact(e: Expr, f: State, o: Oracle, st: Store)
    requires (e.LogicOr? || e.LogicAnd?) && Holds(AnalyzeExpr(e.left, f, o).f, st)
    requires Guess(o, e.id, AnalyzeExpr(e.left, f, o).f) != Some(e.LogicOr?)
    ensures var r := AnalyzeExpr(e, f, o); Holds(r.f, st) <==> Right(r.f, Assigned(e.right), st)
  {
    OperandExact(e.right, Tick(AnalyzeExpr(e.left, f, o).f), o, st);
  }

  /** `a || (x = v)` and `a && (x = v)`. */
  lemma SkippedAssignExact(e: Expr, f: State, o: Oracle, st: Store)
    requires (e.LogicOr? || e.LogicAnd?) && e.right.Assign? && Assigned(e.right.value) == {}
    requires !f.dry && Holds(AnalyzeExpr(e.left, f, o).f, st)
    requires Guess(o, e.id, AnalyzeExpr(e.left, f, o).f) != Some(e.LogicOr?)
    ensures var f1 := Tick(AnalyzeExpr(e.left, f, o).f);
      Holds(AnalyzeExpr(e, f, o).f, st) <==> Describes(AnalyzeExpr(e.right.value, f1, o).p, Read(st, e.right.x).tag)
  {
    VarsExpr(e.left, f, o);
    AssignExact(e.right.x, e.right.value, Tick(AnalyzeExpr(e.left, f, o).f), o, st);
  }

  /** `c ? t : n`: the state in which `n` is analysed, in the store after a condition that is false; and the state
      after the whole, in the store after `t`. */
  lemma TernaryExact(e: Expr, f: State, o: Oracle, st: Store)
    requires e.Ternary?
    ensures var f1 := Tick(AnalyzeExpr(e.cond, f, o).f);
      var b := AnalyzeExpr(e.whenTrue, f1, o);
      var d := AnalyzeExpr(e.whenFalse, b.f, o);
      && AnalyzeExpr(e, f, o).f == d.f
      && (Holds(f1, st) ==> (Holds(b.f, st) <==> Right(b.f, Assigned(e.whenTrue), st)))
      && (Holds(b.f, st) ==> (Holds(d.f, st) <==> Right(d.f, Assigned(e.whenFalse), st)))
  {
    var f1 := Tick(AnalyzeExpr(e.cond, f, o).f);
    if Holds(f1, st) { OperandExact(e.whenTrue, f1, o, st); }
    var b := AnalyzeExpr(e.whenTrue, f1, o);
    if Holds(b.f, st) { OperandExact(e.whenFalse, b.f, o, st); }
  }

  /** `c ? (x = v) : n` with a condition that is false and an `n` that assigns nothing. */
  lemma TernaryAssignExact(e: Expr, f: State, o: Oracle, st: Store)
    requires e.Ternary? && e.whenTrue.Assign? && Assigned(e.whenTrue.value) == {} && Assigned(e.whenFalse) == {}
    requires !f.dry && Holds(AnalyzeExpr(e.cond, f, o).f, st)
    ensures var f1 := Tick(AnalyzeExpr(e.cond, f, o).f);
      Holds(AnalyzeExpr(e, f, o).f, st) <==> Describes(AnalyzeExpr(e.whenTrue.value, f1, o).p, Read(st, e.whenTrue.x).tag)
  {
    var f1 := Tick(AnalyzeExpr(e.cond, f, o).f);
    var b := AnalyzeExpr(e.whenTrue, f1, o);
    VarsExpr(e.cond, f, o);
    AssignExact(e.whenTrue.x, e.whenTrue.value, f1, o, st);
    PureKeeps(e.whenFalse, b.f, o);
  }

  /** An operand that assigns nothing changes no prediction. */
  lemma PureKeeps(e: Expr, f: State, o: Oracle)
    requires Assigned(e) == {}
    ensures var r := AnalyzeExpr(e, f, o); r.f.preds == f.preds && r.f.dead == f.dead && Entails(f, r.f)
  {
    var r := AnalyzeExpr(e, f, o);
    VarsExpr(e, f, o);
    forall x: nat ensures SameAt(r.f.preds, f.preds, x) {
      AnalysisFrame(e, f, o, x);
    }
    assert r.f.preds == f.preds;
  }

  /** An operand `x = v` is recorded as keeping the facts exactly if the type predicted for `v` was known of `x`
      before: `ok && (n = 1)` is fine for an int `n`. */
  lemma AssignKeeps(x: nat, v: Expr, f: State, o: Oracle)
    requires !f.dry && Assigned(v) == {}
    ensures Entails(f, AnalyzeExpr(Assign(x, v), f, o).f) <==> Implied(AnalyzeExpr(v, f, o).p, Get(f, x))
  {
    PureKeeps(v, f, o);
    VarsExpr(v, f, o);
    var r := AnalyzeExpr(v, f, o);
    var after := Put(r.f, x, r.p);
    assert after.preds[x] == r.p;
    forall y | y in after.preds && y != x ensures Implied(after.preds[y], Get(f, y)) {
    }
  }

  // ---------- on leaving a loop by its first condition ----------

  /** The state after a pass describes the store on leaving the loop by its first condition exactly if its
      predictions for the variables that the condition assigns are right there. */
  lemma HeadExact(s: Stmt, f: State, o: Oracle, st: Store, w: World)
    requires s.Loop? && s.head.Some? && !f.dry && Touched(s, o) <= f.preds.Keys && Holds(f, st)
    requires Eval(AnalyzeExpr(s.head.value.cond, f, o).e, st, w).Value?
    ensures var left := Eval(AnalyzeExpr(s.head.value.cond, f, o).e, st, w).st;
      var r := AnalyzePass(s, f, o);
      Holds(r.f, left) <==> Right(r.f, Assigned(s.head.value.cond), left)
  {
    var c := s.head.value.cond;
    var a := AnalyzeExpr(c, f, o);
    var left := Eval(a.e, st, w).st;
    var body, r := AnalyzeBody(s, f, o), AnalyzePass(s, f, o);
    VarsBody(s, f, o);
    if Right(r.f, Assigned(c), left) {
      forall x | x in r.f.preds ensures Describes(r.f.preds[x], Read(left, x).tag) {
        if x !in Assigned(c) {
          KeepsAssigned(c, f, o);
          EvalFrame(a.e, st, w, x);
          MergedFact(body.f, f, x);
        }
      }
    }
  }

  /** `while(x = v)`: exactly if what is known of `x` after the pass is the type of the value. */
  lemma HeadAssignExact(s: Stmt, f: State, o: Oracle, st: Store, w: World)
    requires s.Loop? && s.head.Some? && !f.dry && Touched(s, o) <= f.preds.Keys && Holds(f, st)
    requires s.head.value.cond.Assign? && Assigned(s.head.value.cond.value) == {}
    requires Eval(AnalyzeExpr(s.head.value.cond, f, o).e, st, w).Value?
    ensures var left := Eval(AnalyzeExpr(s.head.value.cond, f, o).e, st, w);
      var r := AnalyzePass(s, f, o);
      Holds(r.f, left.st) <==> Describes(Get(r.f, s.head.value.cond.x), left.v.tag)
  {
    HeadExact(s, f, o, st, w);
    VarsPass(s, f, o);
  }

  lemma MergedFact(a: State, b: State, x: nat)
    requires !a.dry && !b.dry && !b.dead && a.preds.Keys == b.preds.Keys && x in b.preds
    ensures x in Merge(a, b).preds
    ensures forall tag :: Describes(b.preds[x], tag) ==> Describes(Merge(a, b).preds[x], tag)
  {
  }

  lemma {:induction false} KeepsAssigned(e: Expr, f: State, o: Oracle)
    ensures Assigned(AnalyzeExpr(e, f, o).e) == Assigned(e)
  {
    match e
    case Assign(_, value) => KeepsAssigned(value, f, o);
    case Binary(_, a, b) => KeepsAssigned(a, f, o); KeepsAssigned(b, AnalyzeExpr(a, f, o).f, o);
    case Prefix(_, a) => KeepsAssigned(a, f, o);
    case LogicOr(_, _, _, a, b) => KeepsAssigned(a, f, o); KeepsAssigned(b, Tick(AnalyzeExpr(a, f, o).f), o);
    case LogicAnd(_, _, _, a, b) => KeepsAssigned(a, f, o); KeepsAssigned(b, Tick(AnalyzeExpr(a, f, o).f), o);
    case Ternary(_, _, _, _, c, t, n) =>
      KeepsAssigned(c, f, o);
      var f1 := Tick(AnalyzeExpr(c, f, o).f);
      KeepsAssigned(t, f1, o);
      KeepsAssigned(n, AnalyzeExpr(t, f1, o).f, o);
    case _ =>
  }

  // ---------- what is recorded is what every store needs ----------

  /** Types and metas are tags that do not contradict each other. */
  ghost predicate Coherent(f: State) {
    forall x :: x in f.preds ==>
      var p := f.preds[x];
      && (p.ty.Some? ==> 0 <= p.ty.value < 256) && (p.meta.Some? ==> 0 <= p.meta.value < 256)
      && (p.ty.Some? && p.meta.Some? ==> p.ty == p.meta)
  }

  /** The tag that a prediction tells, or else one that is not `other`. */
  function TagOf(p: Pred, other: int): (tag: int)
    ensures p.ty.None? && p.meta.None? ==> tag != other && 0 <= tag < 256
  {
    if p.ty.Some? then p.ty.value else if p.meta.Some? then p.meta.value else if other == 0 then 1 else 0
  }

  /** A store that `f` describes, in which `x` has the type `other` only if `f` says so. */
  ghost function StoreOf(f: State, x: nat, other: int): (st: Store)
    requires Coherent(f) && !f.dead
    ensures Holds(f, st) && (x !in f.preds ==> Read(st, x).tag != other)
    ensures x in f.preds ==> Read(st, x).tag == TagOf(f.preds[x], other)
  {
    var m := map y | y in f.preds.Keys + {x} :: Val(0, if y in f.preds then TagOf(f.preds[y], other) else TagOf(UNKNOWN, other));
    Store(m, 0)
  }

  /** An operand or a first condition is recorded as keeping the facts exactly if skipping it is right for every
      store that the facts before it allow. */
  lemma EntailsExact(strong: State, weak: State)
    requires !strong.dry && !strong.dead && !weak.dead && Coherent(strong)
    ensures Entails(strong, weak) <==> forall st :: Holds(strong, st) ==> Holds(weak, st)
  {
    if Entails(strong, weak) {
      forall st | Holds(strong, st) ensures Holds(weak, st) {
        EntailsHolds(strong, weak, st);
      }
    } else {
      var x :| x in weak.preds && !Implied(weak.preds[x], Get(strong, x));
      var p, q := weak.preds[x], Get(strong, x);
      var t := if p.ty.Some? && p.ty != q.ty && p.ty != q.meta then p.ty.value else p.meta.value;
      var st := StoreOf(strong, x, t);
      assert !Holds(weak, st);
    }
  }

  // ---------- executions that are not wary ----------

  function Wary(w: World): World {
    w.(wary := true)
  }

  /** A wary execution is the execution, or stops. */
  lemma {:induction false} EvalWary(e: Expr, st: Store, w: World)
    requires !w.wary
    ensures Eval(e, st, Wary(w)) == Eval(e, st, w) || Eval(e, st, Wary(w)) == Ends(Off)
  {
    match e
    case Assign(_, value) => EvalWary(value, st, w);
    case Prefix(_, a) => EvalWary(a, st, w);
    case Binary(_, a, b) => EvalWary(a, st, w); if Eval(a, st, w).Value? { EvalWary(b, Eval(a, st, w).st, w); }
    case LogicOr(_, _, _, a, b) => EvalWary(a, st, w); if Eval(a, st, w).Value? { EvalWary(b, Eval(a, st, w).st, w); }
    case LogicAnd(_, _, _, a, b) => EvalWary(a, st, w); if Eval(a, st, w).Value? { EvalWary(b, Eval(a, st, w).st, w); }
    case Ternary(_, _, _, _, c, t, n) =>
      EvalWary(c, st, w);
      if Eval(c, st, w).Value? {
        EvalWary(t, Eval(c, st, w).st, w);
        EvalWary(n, Eval(c, st, w).st, w);
      }
    case _ =>
  }

  lemma ExitWary(x: Option<Exit>, st: Store, w: World)
    requires !w.wary
    ensures ExecExit(x, st, Wary(w)) == ExecExit(x, st, w) || ExecExit(x, st, Wary(w)) == Stopped(Off)
  {
    if x.Some? { EvalWary(x.value.cond, st, w); }
  }

  lemma {:induction false} ExecWary(s: Stmt, st: Store, w: World, fuel: nat)
    requires !w.wary
    ensures Exec(s, st, Wary(w), fuel) == Exec(s, st, w, fuel) || Exec(s, st, Wary(w), fuel) == Stopped(Off)
    decreases fuel, s, 1
  {
    match s
    case ExprStmt(e) => EvalWary(e, st, w);
    case Define(x, init) => if init.Some? { EvalWary(init.value, st, w); }
    case Block(list) => ListWary(list, st, w, fuel);
    case If(_, g, c, thn, els) =>
      EvalWary(c, st, w);
      var r := Eval(c, st, w);
      if r.Value? {
        ExecWary(thn, r.st, w, fuel);
        ExecWary(els, r.st, w, fuel);
      }
    case Loop(_, _, _, _) =>
      if fuel > 0 {
        TurnWary(s, st, w, fuel);
        var r := ExecTurn(s, st, w, fuel);
        if r.Normal? { ExecWary(s, r.st, w, fuel - 1); }
      }
    case Return(e) => EvalWary(e, st, w);
  }

  lemma TurnWary(s: Stmt, st: Store, w: World, fuel: nat)
    requires s.Loop? && !w.wary
    ensures ExecTurn(s, st, Wary(w), fuel) == ExecTurn(s, st, w, fuel) || ExecTurn(s, st, Wary(w), fuel) == Stopped(Off)
    decreases fuel, s, 0
  {
    ExitWary(s.head, st, w);
    var a := ExecExit(s.head, st, w);
    if a.Normal? {
      ExecWary(s.body, a.st, w, fuel);
      var b := Exec(s.body, a.st, w, fuel);
      if b.Normal? { ExitWary(s.tail, b.st, w); }
    }
  }

  lemma {:induction false} ListWary(l: StmtList, st: Store, w: World, fuel: nat)
    requires !w.wary
    ensures ExecList(l, st, Wary(w), fuel) == ExecList(l, st, w, fuel) || ExecList(l, st, Wary(w), fuel) == Stopped(Off)
    decreases fuel, l, 1
  {
    if l.Then? {
      ExecWary(l.entry, st, w, fuel);
      var r := Exec(l.entry, st, w, fuel);
      if r.Normal? { ListWary(l.next, r.st, w, fuel); }
    }
  }

  /** So an execution meets a wrong type only if the wary one stops: at a skipped operand, a loop's first
      condition, a side of a condition or a loop that is not stable. */
  lemma BadIsSeen(s: Stmt, o: Oracle, st: Store, w: World, fuel: nat)
    requires !w.wary && Exec(Analyze(s, o), st, w, fuel) == Stopped(Bad)
    ensures Exec(Analyze(s, o), st, Wary(w), fuel) == Stopped(Off)
  {
    ExecWary(Analyze(s, o), st, w, fuel);
    TypesSound(s, o, st, Wary(w), fuel);
  }

  // Where the recorded answers are all good, every execution is wary.

  /** Whatever part of the expression may be skipped keeps the facts known before it. */
  predicate SettledExpr(e: Expr) {
    match e
    case Assign(_, value) => SettledExpr(value)
    case Prefix(_, a) => SettledExpr(a)
    case Binary(_, a, b) => SettledExpr(a) && SettledExpr(b)
    case LogicOr(_, g, keeps, a, b) => SettledExpr(a) && (g == Some(false) || keeps) && (g == Some(true) || SettledExpr(b))
    case LogicAnd(_, g, keeps, a, b) => SettledExpr(a) && (g == Some(true) || keeps) && (g == Some(false) || SettledExpr(b))
    case Ternary(_, g, keepsTrue, keepsFalse, c, t, n) =>
      && SettledExpr(c)
      && (g == Some(false) || (keepsFalse && SettledExpr(t)))
      && (g == Some(true) || (keepsTrue && SettledExpr(n)))
    case _ => true
  }

  /** This side of a condition teaches only what its evaluation has shown: nothing is taught by an `&&` that is
      false, and the second operand of one that is true does not assign what the first has tested. */
  predicate SureSide(c: Expr, isElse: bool)
    decreases c
  {
    match c
    case Prefix(LogicNot, arg) => SureSide(arg, !isElse)
    case Binary(op, a, b) => !TestsValue(op, a, b, isElse)
    case LogicAnd(_, _, _, a, b) =>
      if isElse then TestsNoValue(c, true) && Refined(c, true) == {}
      else SureSide(a, false) && SureSide(b, false) && Refined(a, false) !! Assigned(b)
    case _ => true
  }

  predicate SettledCond(c: Expr, g: Option<bool>) {
    SettledExpr(c) && (g == Some(false) || SureSide(c, false)) && (g == Some(true) || SureSide(c, true))
  }

  predicate SettledExit(x: Option<Exit>) {
    x.Some? ==> SettledCond(x.value.cond, x.value.guess)
  }

  predicate Settled(s: Stmt) {
    match s
    case ExprStmt(e) => SettledExpr(e)
    case Define(_, init) => init.Some? ==> SettledExpr(init.value)
    case Block(list) => ListSettled(list)
    case If(_, g, c, thn, els) =>
      SettledCond(c, g) && (g == Some(false) || Settled(thn)) && (g == Some(true) || Settled(els))
    case Loop(head, body, tail, stable) =>
      && stable && SettledExit(head) && SettledExit(tail) && Settled(body)
      && (head.Some? ==> head.value.guess == Some(true) || head.value.keeps)
    case Return(e) => SettledExpr(e)
  }

  predicate ListSettled(l: StmtList) {
    l.Then? ==> Settled(l.entry) && ListSettled(l.next)
  }

  lemma {:induction false} SettledEval(e: Expr, st: Store, w: World)
    requires SettledExpr(e)
    ensures Eval(e, st, Wary(w)) == Eval(e, st, w)
  {
    match e
    case Assign(_, value) => SettledEval(value, st, w);
    case Prefix(_, a) => SettledEval(a, st, w);
    case Binary(_, a, b) => SettledEval(a, st, w); if Eval(a, st, w).Value? { SettledEval(b, Eval(a, st, w).st, w); }
    case LogicOr(_, g, _, a, b) =>
      SettledEval(a, st, w);
      if Eval(a, st, w).Value? && g != Some(true) { SettledEval(b, Eval(a, st, w).st, w); }
    case LogicAnd(_, g, _, a, b) =>
      SettledEval(a, st, w);
      if Eval(a, st, w).Value? && g != Some(false) { SettledEval(b, Eval(a, st, w).st, w); }
    case Ternary(_, g, _, _, c, t, n) =>
      SettledEval(c, st, w);
      if Eval(c, st, w).Value? {
        if g != Some(false) { SettledEval(t, Eval(c, st, w).st, w); }
        if g != Some(true) { SettledEval(n, Eval(c, st, w).st, w); }
      }
    case _ =>
  }

  lemma TestShows(op: Op, a: Expr, b: Expr, isElse: bool, st: Store, w: World)
    requires TestsType(op, isElse) && TypeTest(a, b).Some?
    requires var r := Eval(Binary(op, a, b), st, w); r.Value? && Truthy(r.v, w) == !isElse
    ensures var (x, n) := TypeTest(a, b).value;
      Read(st, x).tag == n == n % 256 && Eval(Binary(op, a, b), st, w).st == st
  {
    var (x, n) := TypeTest(a, b).value;
    var test := if IsTypeOf(a) then a else b;
    assert Eval(test, st, w) == if RightNote(test.arg.note, Read(st, x).tag) then Value(Val(Read(st, x).tag, INT), st) else Ends(Bad);
  }

  /** What a sure side teaches is true of the store after the condition. */
  lemma {:induction false} SureTaught(c: Expr, isElse: bool, st: Store, w: World)
    requires SureSide(c, isElse) && Eval(c, st, w).Value? && Truthy(Eval(c, st, w).v, w) == !isElse
    ensures TestsNoValue(c, isElse) && Taught(c, isElse, Eval(c, st, w).st)
    decreases c
  {
    match c
    case Prefix(LogicNot, arg) => SureTaught(arg, !isElse, st, w);
    case Binary(op, a, b) =>
      if TestsType(op, isElse) && TypeTest(a, b).Some? { TestShows(op, a, b, isElse, st, w); }
    case LogicAnd(_, _, _, a, b) =>
      if !isElse {
        var x := Eval(a, st, w);
        SureTaught(a, false, st, w);
        SureTaught(b, false, x.st, w);
        forall y | y in Teaches(a, false) ensures Read(Eval(b, x.st, w).st, y).tag == Teaches(a, false)[y] {
          assert y in Refined(a, false);
          EvalFrame(b, x.st, w, y);
        }
      }
    case _ =>
  }

  lemma SettledSide(c: Expr, g: Option<bool>, st: Store, w: World)
    requires SettledCond(c, g)
    ensures var r := Eval(c, st, w);
      && Eval(c, st, Wary(w)) == r
      && (r.Value? && !Missed(g, Truthy(r.v, w)) ==> Trusted(c, !Truthy(r.v, w), r.st, Wary(w)))
  {
    SettledEval(c, st, w);
    var r := Eval(c, st, w);
    if r.Value? && !Missed(g, Truthy(r.v, w)) {
      SureTaught(c, !Truthy(r.v, w), st, w);
    }
  }

  lemma SettledExitSame(x: Option<Exit>, st: Store, w: World)
    requires SettledExit(x)
    ensures ExecExit(x, st, Wary(w)) == ExecExit(x, st, w)
  {
    if x.Some? {
      SettledSide(x.value.cond, x.value.guess, st, w);
    }
  }

  lemma {:induction false} SettledSame(s: Stmt, st: Store, w: World, fuel: nat)
    requires Settled(s)
    ensures Exec(s, st, Wary(w), fuel) == Exec(s, st, w, fuel)
    decreases fuel, s, 1
  {
    match s
    case ExprStmt(e) => SettledEval(e, st, w);
    case Define(x, init) => if init.Some? { SettledEval(init.value, st, w); }
    case Block(list) => SettledListSame(list, st, w, fuel);
    case If(_, g, c, thn, els) =>
      SettledSide(c, g, st, w);
      var r := Eval(c, st, w);
      if r.Value? && !Missed(g, Truthy(r.v, w)) {
        SettledSame(if Truthy(r.v, w) then thn else els, r.st, w, fuel);
      }
    case Loop(_, _, _, _) =>
      if fuel > 0 {
        SettledTurnSame(s, st, w, fuel);
        var r := ExecTurn(s, st, w, fuel);
        if r.Normal? { SettledSame(s, r.st, w, fuel - 1); }
      }
    case Return(e) => SettledEval(e, st, w);
  }

  lemma SettledTurnSame(s: Stmt, st: Store, w: World, fuel: nat)
    requires s.Loop? && Settled(s)
    ensures ExecTurn(s, st, Wary(w), fuel) == ExecTurn(s, st, w, fuel)
    decreases fuel, s, 0
  {
    SettledExitSame(s.head, st, w);
    var a := ExecExit(s.head, st, w);
    if a.Normal? {
      SettledSame(s.body, a.st, w, fuel);
      var b := Exec(s.body, a.st, w, fuel);
      if b.Normal? { SettledExitSame(s.tail, b.st, w); }
    }
  }

  lemma {:induction false} SettledListSame(l: StmtList, st: Store, w: World, fuel: nat)
    requires ListSettled(l)
    ensures ExecList(l, st, Wary(w), fuel) == ExecList(l, st, w, fuel)
    decreases fuel, l, 1
  {
    if l.Then? {
      SettledSame(l.entry, st, w, fuel);
      var r := Exec(l.entry, st, w, fuel);
      if r.Normal? { SettledListSame(l.next, r.st, w, fuel); }
    }
  }

  /** So where the analysis has recorded nothing bad, the types it has recorded are right in every execution. */
  lemma TypesSettled(s: Stmt, o: Oracle, st: Store, w: World, fuel: nat)
    requires Settled(Analyze(s, o))
    ensures Exec(Analyze(s, o), st, w, fuel) != Stopped(Bad)
  {
    SettledSame(Analyze(s, o), st, w, fuel);
    TypesSound(s, o, st, Wary(w), fuel);
  }
}
