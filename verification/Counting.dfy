/** One script from end to end: the compiled code of a counting loop counts. */
module Counting {
  import opened Machine
  import opened Expressions
  import opened Statements
  import opened Lowering
  import opened Source
  import opened Programs

  function Int(n: int): Expr {
    Lit(Word(n, INT))
  }

  /** `x = x + 1` */
  function Increment(x: nat): Source {
    Eff(Assign(x, Arith(Add, Var(x), Int(1))))
  }

  /** `while(x < b) x = x + 1;` */
  function Count(x: nat, b: int): Source {
    While(Arith(Lt, Var(x), Int(b)), Increment(x))
  }

  /** `x = a; while(x < b) x = x + 1;` */
  function CountFrom(x: nat, a: int, b: int): (s: Source)
    ensures Parses(s)
  {
    assert ListParses(Empty) && ListParses(Stmts(Count(x, b), Empty));
    Block(Stmts(Eff(Assign(x, Int(a))), Stmts(Count(x, b), Empty)))
  }

  lemma CountExprs(x: nat, a: int, b: int, env: Env)
    requires Fits(a) && Fits(b)
    ensures WellTyped(Assign(x, Int(a)), env) && Ordered(Assign(x, Int(a)))
    ensures var test := Arith(Lt, Var(x), Int(b)); WellTyped(test, env) && OrderlyTest(test, env)
    ensures var step := Assign(x, Arith(Add, Var(x), Int(1))); WellTyped(step, env) && Ordered(step)
  {
    var step := Arith(Add, Var(x), Int(1));
    assert WellTyped(Var(x), env) && WellTyped(Int(a), env) && WellTyped(Int(b), env) && WellTyped(Int(1), env);
    assert TypeOf(Int(1), env) == TInt && TypeOf(Var(x), env) == if x in env.ints then TInt else TDynamic;
    assert WellTyped(step, env) && (x in env.ints ==> TypeOf(step, env) == TInt) && Ordered(step);
  }

  lemma CountOk(x: nat, a: int, b: int, env: Env)
    requires Fits(a) && Fits(b)
    ensures SourceOk(CountFrom(x, a, b), env, false) && Orderly(CountFrom(x, a, b), env)
  {
    hide WellTyped, Ordered, OrderlyTest, Int;
    CountExprs(x, a, b, env);
    var rest := Stmts(Count(x, b), Empty);
    assert Parses(Increment(x)) && Parses(Count(x, b)) && ListParses(Empty) && ListParses(rest);
    assert SourceOk(Count(x, b), env, false) && Orderly(Count(x, b), env);
    assert ListOrderly(Empty, env) && SourceListOk(Empty, env, false);
    assert SourceListOk(rest, env, false) && ListOrderly(rest, env);
    assert Parses(Eff(Assign(x, Int(a)))) && SourceOk(Eff(Assign(x, Int(a))), env, false) && Orderly(Eff(Assign(x, Int(a))), env);
  }

  function Holding(st: State, x: nat, n: int): State {
    st.(vars := st.vars[x := Word(n, INT)])
  }

  lemma {:induction false} TurnsCount(x: nat, i: int, b: int, st: State, w: World, fuel: nat)
    requires Fits(i) && Fits(b) && fuel > (if i < b then b - i else 0)
    requires w.code.None? && !st.failed && x in st.vars && st.vars[x] == Word(i, INT)
    ensures Turns(Count(x, b), st, w, fuel, true) == Done(Normal, Holding(st, x, if i < b then b else i))
    decreases fuel
  {
    var test := Arith(Lt, Var(x), Int(b));
    assert Eval(test, st, w) == Result(Word(if i < b then 1 else 0, INT), st);
    if i < b {
      var st1 := Holding(st, x, i + 1);
      assert Wrap(i + 1) == i + 1;
      assert Eval(Arith(Add, Var(x), Int(1)), st, w) == Result(Word(i + 1, INT), st);
      assert Mean(Increment(x), st, w, fuel, true) == Done(Normal, st1);
      TurnsCount(x, i + 1, b, st1, w, fuel - 1);
    } else {
      assert Holding(st, x, i) == st;
    }
  }

  lemma CountEnds(x: nat, a: int, b: int, env: Env, st: State, w: World)
    requires Fits(a) && Fits(b) && !st.failed
    ensures Ends(CountFrom(x, a, b), env, st, w, Holding(st, x, if a < b then b else a), true)
  {
    var end := Holding(st, x, if a < b then b else a);
    var fuel: nat := if a < b then b - a + 1 else 1;
    var w1 := Reading(w, env, true);
    var st1 := Holding(st, x, a);
    TurnsCount(x, a, b, st1, w1, fuel);
    assert Eval(Assign(x, Int(a)), st, w1).st == st1;
    assert Mean(Eff(Assign(x, Int(a))), st, w1, fuel, true) == Done(Normal, st1);
    assert MeanList(Stmts(Count(x, b), Empty), st1, w1, fuel, true) == Done(Normal, end);
    assert Mean(CountFrom(x, a, b), st, w1, fuel, true) == Done(Normal, end);
  }

  /** For all 64-bit bounds the code that is generated for the script stops in exactly one state: the one it started
      in, with the greater of the two bounds in the variable. */
  lemma CodeCounts(x: nat, a: int, b: int, env: Env, st: State, w: World, end: State)
    requires Fits(a) && Fits(b) && Good(st, env) && FitWorld(w, env)
    ensures Halts(Compile(CountFrom(x, a, b), env), st, w, end) <==> end == Holding(st, x, if a < b then b else a)
  {
    hide Halts, Ends, Compile, HarmlessRun, Good, FitWorld, Holding;
    var s := CountFrom(x, a, b);
    var last := Holding(st, x, if a < b then b else a);
    CountOk(x, a, b, env);
    GoodRuns(st, env);
    CountEnds(x, a, b, env, st, w);
    OrderlyHarmlessRun(s, env, st, w);
    CompileCorrect(s, env, st, w, last, true);
    if Halts(Compile(s, env), st, w, end) {
      HaltsIn(Compile(s, env), st, w, end, last);
    }
  }

  lemma HaltsIn(p: Builder, st: State, w: World, a: State, b: State)
    requires Halts(p, st, w, a) && Halts(p, st, w, b)
    ensures a == b
  {
    var m: nat :| HaltsAt(p, st, w, a, m);
    var n: nat :| HaltsAt(p, st, w, b, n);
    if m <= n { HaltsOnce(p, w, Start(st), m, n); } else { HaltsOnce(p, w, Start(st), n, m); }
  }
}
