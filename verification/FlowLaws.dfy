/** Laws of type prediction's parts: what a condition teaches, what a return leaves behind, and the values that
    programs compute (jit/lib/flow.c). */
module FlowLaws {
  import opened Basics
  import opened Flow
  import opened FlowSound

  // ---------- conditions ----------

  /** `typeof x`, compared with an int literal on either side: the side on which they are equal teaches the type. */
  lemma TestTeaches(op: Op, x: nat, note: Note, n: int, isElse: bool)
    ensures var test, literal := Prefix(TypeOf, Ident(x, note)), Const(Val(n, INT));
      var teaches := op in (if isElse then {Unequal, TypeUnequal} else {Equal, TypeEqual});
      && Teaches(Binary(op, test, literal), isElse) == (if teaches then map[x := n % 256] else map[])
      && Teaches(Binary(op, literal, test), isElse) == (if teaches then map[x := n % 256] else map[])
  {
  }

  predicate Asks(e: Expr) {
    e.Prefix? && e.un == TypeOf
  }

  /** `!` swaps the sides, of `&&` each side teaches what that side of both operands does, and of other conditions
      no side teaches anything. */
  lemma OthersTeach(c: Expr, isElse: bool)
    ensures Teaches(Prefix(LogicNot, c), isElse) == Teaches(c, !isElse)
    ensures c.LogicAnd? ==> Teaches(c, isElse) == Teaches(c.left, isElse) + Teaches(c.right, isElse)
    ensures !c.LogicAnd? && !c.Binary? && !(c.Prefix? && c.un == LogicNot) ==> Teaches(c, isElse) == map[]
    ensures c.Binary? && !Asks(c.left) && !Asks(c.right) ==> Teaches(c, isElse) == map[]
  {
  }

  /** What is taught is known afterwards, as the meta too if that was known before. */
  lemma {:induction false} TaughtKnown(f: State, c: Expr, isElse: bool, x: nat)
    requires !f.dry && x in Teaches(c, isElse)
    ensures var t := Teaches(c, isElse)[x];
      Get(Refine(f, c, isElse), x) == Pred(Some(t), if Get(f, x).meta.Some? then Some(t) else None)
    decreases c
  {
    match c
    case Prefix(LogicNot, arg) => TaughtKnown(f, arg, !isElse, x);
    case LogicAnd(_, _, _, a, b) =>
      RefineFacts(f, a, isElse, x);
      if x in Teaches(a, isElse) { TaughtKnown(f, a, isElse, x); }
      if x in Teaches(b, isElse) {
        TaughtKnown(Refine(f, a, isElse), b, isElse, x);
      } else {
        RefineFacts(Refine(f, a, isElse), b, isElse, x);
      }
    case _ =>
  }

  /** A condition is free of tests by value unless `===` on its side (or `!==` on the other) has an identifier and
      no `typeof`. */
  lemma ValueTests(op: Op, a: Expr, b: Expr, isElse: bool)
    ensures TestsNoValue(Binary(op, a, b), isElse) <==>
      op != (if isElse then TypeUnequal else TypeEqual) || (!a.Ident? && !b.Ident?) || Asks(a) || Asks(b)
    ensures TestsNoValue(Prefix(LogicNot, a), isElse) <==> TestsNoValue(a, !isElse)
    ensures a.LogicAnd? ==> (TestsNoValue(a, isElse) <==> TestsNoValue(a.left, isElse) && TestsNoValue(a.right, isElse))
    ensures !a.LogicAnd? && !a.Binary? && !(a.Prefix? && a.un == LogicNot) ==> TestsNoValue(a, isElse)
  {
  }

  // ---------- return ----------

  /** Behind a return nothing can be reached ... */
  lemma ReturnEnds(e: Expr, f: State, o: Oracle)
    ensures AnalyzeStmt(Return(e), f, o).f == AnalyzeExpr(e, f, o).f.(dead := true)
  {
  }

  /** ... so of two branches of which one returns, only what is known after the other is known afterwards. */
  lemma OtherBranch(s: Stmt, f: State, o: Oracle)
    requires s.If? && !f.dry && !f.dead
    ensures var r := AnalyzeExpr(s.cond, f, o);
      var a := AnalyzeStmt(s.thn, Refine(Tick(r.f), r.e, false), o).f;
      var b := AnalyzeStmt(s.els, Refine(Tick(r.f).(ticks := a.ticks), r.e, true), o).f;
      var after := AnalyzeStmt(s, f, o).f;
      Guess(o, s.id, r.f).None? && !a.dry && !b.dry && a.dead != b.dead ==>
        !after.dead && after.preds == (if a.dead then b.preds else a.preds)
  {
  }

  /** A condition that is predicted leaves one branch out, and its prediction is recorded. */
  lemma PredictedBranch(s: Stmt, f: State, o: Oracle)
    requires s.If?
    ensures var r := AnalyzeExpr(s.cond, f, o);
      var g := Guess(o, s.id, r.f);
      var a, b := AnalyzeStmt(s.thn, Refine(Tick(r.f), r.e, false), o), AnalyzeStmt(s.els, Refine(Tick(r.f), r.e, true), o);
      && (g == Some(true) ==> AnalyzeStmt(s, f, o) == AnalyzedStmt(If(s.id, g, r.e, a.s, s.els), a.f))
      && (g == Some(false) ==> AnalyzeStmt(s, f, o) == AnalyzedStmt(If(s.id, g, r.e, s.thn, b.s), b.f))
  {
  }

  /** Conditions without variables are predicted in the dry run too, the others in the real run only. */
  lemma GuessExact(o: Oracle, id: nat, f: State)
    ensures Guess(o, id, f) == if o.constant(id).Some? || f.dry then o.constant(id) else o.predicted(f.ticks)
    ensures Tick(f) == f.(ticks := f.ticks + 1)
  {
  }

  // ---------- values ----------

  lemma StoreLaws(st: Store, x: nat, v: Val, y: nat, k: nat, w: World)
    ensures Eval(Input(k), st, w) == Value(w.input(st.used), st.(used := st.used + 1))
    ensures Read(Write(st, x, v), y) == if y == x then v else Read(st, y)
    ensures y !in st.vars ==> Read(st, y) == Val(0, UNDEFINED)
  {
  }

  lemma TruthLaws(b: bool, w: World, v: Val)
    ensures Truthy(Truth(b), w) == b && Truth(b).tag == INT && Truth(b).n in {0, 1}
    ensures v.tag == UNDEFINED ==> !Truthy(v, w)
    ensures v.tag == INT ==> (Truthy(v, w) <==> v.n != 0)
    ensures v.tag == FLOAT ==> (Truthy(v, w) <==> w.nonzero(v.n))
  {
  }

  /** The logical operators yield truth values of what was evaluated, and evaluate no more than needed. */
  lemma LogicLaws(e: Expr, st: Store, w: World)
    requires (e.LogicOr? || e.LogicAnd?) && Eval(e, st, w).Value?
    ensures var a, r := Eval(e.left, st, w), Eval(e, st, w);
      a.Value? && var decided := Truthy(a.v, w) == e.LogicOr?;
      if decided then r == Value(Truth(e.LogicOr?), a.st)
      else
        var b := Eval(e.right, a.st, w);
        b.Value? && r == Value(Truth(Truthy(b.v, w)), b.st)
  {
  }

  lemma PrefixLaws(arg: Expr, st: Store, w: World)
    requires Eval(arg, st, w).Value?
    ensures var a := Eval(arg, st, w);
      && Eval(Prefix(Plus, arg), st, w) == a
      && Eval(Prefix(LogicNot, arg), st, w) == Value(Truth(!Truthy(a.v, w)), a.st)
      && Eval(Prefix(TypeOf, arg), st, w) == Value(Val(a.v.tag, INT), a.st)
  {
  }
}
