/** Switches from end to end: the compiled code of a switch assigns what its first fitting case says. */
module Selecting {
  import opened Basics
  import opened Machine
  import opened Expressions
  import opened Statements
  import opened Lowering
  import opened Source
  import opened Programs
  import opened Counting

  /** `case min..max: y = n;` */
  datatype Choice = Choice(range: Range, n: int)

  /** `y = n;` */
  function Store(y: nat, n: int): Source {
    Eff(Assign(y, Int(n)))
  }

  function CasesOf(cases: seq<Choice>, y: nat): (gs: SourceGroups)
    ensures GroupsParse(gs)
  {
    if cases == [] then NoCase else Case([cases[0].range], Store(y, cases[0].n), CasesOf(cases[1..], y))
  }

  /** `switch(x) { case ...: y = ...; case ...: y = ...; default: y = other; }` */
  function Selection(x: nat, cases: seq<Choice>, y: nat, other: int): (s: Source)
    ensures Parses(s)
  {
    assert Parses(Store(y, other));
    Choose(Var(x), CasesOf(cases, y), Some(Store(y, other)))
  }

  /** The number of the first case that contains `v`. */
  function Selected(cases: seq<Choice>, v: int, other: int): int {
    if cases == [] then other
    else if cases[0].range.min <= v <= cases[0].range.max then cases[0].n
    else Selected(cases[1..], v, other)
  }

  predicate AllFit(cases: seq<Choice>) {
    forall i :: 0 <= i < |cases| ==> Fits(cases[i].range.min) && Fits(cases[i].range.max) && Fits(cases[i].n)
  }

  lemma {:induction false} CasesOk(cases: seq<Choice>, y: nat, env: Env)
    requires AllFit(cases)
    ensures SourceGroupsOk(CasesOf(cases, y), env, false) && GroupsOrderly(CasesOf(cases, y), env)
    decreases |cases|
  {
    if cases != [] {
      CasesOk(cases[1..], y, env);
      StoreOk(y, cases[0].n, env);
      assert RangesFit([cases[0].range]);
    }
  }

  lemma StoreOk(y: nat, n: int, env: Env)
    requires Fits(n)
    ensures Parses(Store(y, n)) && SourceOk(Store(y, n), env, false) && Orderly(Store(y, n), env)
  {
    assert WellTyped(Int(n), env) && TypeOf(Int(n), env) == TInt;
    assert WellTyped(Assign(y, Int(n)), env) && Ordered(Assign(y, Int(n)));
  }

  lemma {:induction false} PickSelected(cases: seq<Choice>, y: nat, v: int, other: int)
    ensures var p := Pick(CasesOf(cases, y), v);
      (if p.Some? then p.value else Store(y, other)) == Store(y, Selected(cases, v, other))
    decreases |cases|
  {
    if cases != [] {
      PickSelected(cases[1..], y, v, other);
      assert InSome(v, [cases[0].range]) <==> In(v, cases[0].range) by {
        assert In(v, [cases[0].range][0]) <==> In(v, cases[0].range);
      }
    }
  }

  lemma SelectionEnds(x: nat, cases: seq<Choice>, y: nat, other: int, env: Env, st: State, w: World, v: int)
    requires !st.failed && x in st.vars && st.vars[x] == Word(v, INT)
    ensures Ends(Selection(x, cases, y, other), env, st, w, Holding(st, y, Selected(cases, v, other)), true)
  {
    var w1 := Reading(w, env, true);
    var n := Selected(cases, v, other);
    assert Eval(Var(x), st, w1) == Result(Word(v, INT), st);
    PickSelected(cases, y, v, other);
    assert Eval(Assign(y, Int(n)), st, w1).st == Holding(st, y, n);
    assert Mean(Store(y, n), st, w1, 0, true) == Done(Normal, Holding(st, y, n));
    assert Mean(Selection(x, cases, y, other), st, w1, 0, true) == Done(Normal, Holding(st, y, n));
  }

  /** For every list of cases and every int, by whichever of its forms the switch is compiled: its code stops in
      exactly one state, where `y` has the number of the first case that contains `x`. */
  lemma CodeSelects(x: nat, cases: seq<Choice>, y: nat, other: int, env: Env, st: State, w: World, v: int, end: State)
    requires AllFit(cases) && Fits(other) && Good(st, env) && FitWorld(w, env) && x in st.vars && st.vars[x] == Word(v, INT)
    requires var gs := DesugarGroups(CasesOf(cases, y)); UseTable(gs) ==> TableFits(gs)
    ensures Halts(Compile(Selection(x, cases, y, other), env), st, w, end) <==>
      end == Holding(st, y, Selected(cases, v, other))
  {
    hide Halts, Ends, Compile, HarmlessRun, Good, FitWorld, Holding, UseTable, TableFits;
    var s := Selection(x, cases, y, other);
    var last := Holding(st, y, Selected(cases, v, other));
    CasesOk(cases, y, env);
    StoreOk(y, other, env);
    assert SourceOk(s, env, false) && Orderly(s, env) by { assert WellTyped(Var(x), env) && Ordered(Var(x)); }
    GoodRuns(st, env);
    SelectionEnds(x, cases, y, other, env, st, w, v);
    OrderlyHarmlessRun(s, env, st, w);
    CompileCorrect(s, env, st, w, last, true);
    if Halts(Compile(s, env), st, w, end) {
      HaltsIn(Compile(s, env), st, w, end, last);
    }
  }
}
