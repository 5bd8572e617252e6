/** Whole scripts, analysed from the start and run, whose recorded types go wrong.  The analysis is that of an
    oracle that predicts no condition, as the code does when conditions depend on input. */
module FlowScripts {
  import opened Basics
  import opened Flow
  import opened FlowSound
  import opened FlowExact

  const SILENT := Oracle(_ => None, _ => None, _ => false)
  const NOTE := Note(None, None)
  const A_FLOAT := Pred(Some(FLOAT), Some(FLOAT))

  function NoteOf(p: Pred): Note {
    Note(p.ty, p.meta)
  }

  // ---------- the dry run of a script that is not annotated yet ----------

  predicate UnmarkedExpr(e: Expr) {
    match e
    case Ident(_, note) => note == NOTE
    case Assign(_, value) => UnmarkedExpr(value)
    case Binary(_, a, b) => UnmarkedExpr(a) && UnmarkedExpr(b)
    case Prefix(_, a) => UnmarkedExpr(a)
    case LogicOr(_, g, keeps, a, b) => g.None? && keeps && UnmarkedExpr(a) && UnmarkedExpr(b)
    case LogicAnd(_, g, keeps, a, b) => g.None? && keeps && UnmarkedExpr(a) && UnmarkedExpr(b)
    case Ternary(_, g, kt, kf, c, t, n) => g.None? && kt && kf && UnmarkedExpr(c) && UnmarkedExpr(t) && UnmarkedExpr(n)
    case _ => true
  }

  predicate UnmarkedExit(x: Option<Exit>) {
    x.Some? ==> x.value.guess.None? && x.value.keeps && UnmarkedExpr(x.value.cond)
  }

  predicate Unmarked(s: Stmt) {
    match s
    case ExprStmt(e) => UnmarkedExpr(e)
    case Define(_, init) => init.Some? ==> UnmarkedExpr(init.value)
    case Block(list) => UnmarkedList(list)
    case If(_, g, c, thn, els) => g.None? && UnmarkedExpr(c) && Unmarked(thn) && Unmarked(els)
    case Loop(head, body, tail, _) => UnmarkedExit(head) && Unmarked(body) && UnmarkedExit(tail)
    case Return(e) => UnmarkedExpr(e)
  }

  predicate UnmarkedList(l: StmtList) {
    l.Then? ==> Unmarked(l.entry) && UnmarkedList(l.next)
  }

  lemma {:induction false} DryExpr(e: Expr, f: State)
    requires f.dry && UnmarkedExpr(e)
    ensures AnalyzeExpr(e, f, SILENT).e == e && AnalyzeExpr(e, f, SILENT).f.dry
  {
    match e
    case Assign(_, value) => DryExpr(value, f);
    case Binary(_, a, b) => DryExpr(a, f); DryExpr(b, AnalyzeExpr(a, f, SILENT).f);
    case Prefix(_, a) => DryExpr(a, f);
    case LogicOr(_, _, _, a, b) => DryExpr(a, f); DryExpr(b, Tick(AnalyzeExpr(a, f, SILENT).f));
    case LogicAnd(_, _, _, a, b) => DryExpr(a, f); DryExpr(b, Tick(AnalyzeExpr(a, f, SILENT).f));
    case Ternary(_, _, _, _, c, t, n) =>
      DryExpr(c, f);
      var f1 := Tick(AnalyzeExpr(c, f, SILENT).f);
      DryExpr(t, f1);
      DryExpr(n, AnalyzeExpr(t, f1, SILENT).f);
    case _ =>
  }

  lemma DryExit(x: Option<Exit>, f: State)
    requires f.dry && UnmarkedExit(x)
    ensures AnalyzeExit(x, f, SILENT).x == x && AnalyzeExit(x, f, SILENT).f.dry
  {
    if x.Some? {
      DryExpr(x.value.cond, f);
      VarsExit(x, f, SILENT);
    }
  }

  lemma {:induction false} DryStmt(s: Stmt, f: State)
    requires f.dry && Unmarked(s)
    ensures AnalyzeStmt(s, f, SILENT).s == s && AnalyzeStmt(s, f, SILENT).f.dry
    decreases Size(s), 2
  {
    VarsStmt(s, f, SILENT);
    match s
    case ExprStmt(e) => DryExpr(e, f);
    case Define(_, init) => if init.Some? { DryExpr(init.value, f); }
    case Block(list) => DryList(list, f);
    case If(_, _, c, thn, els) =>
      DryExpr(c, f);
      var f1 := Tick(AnalyzeExpr(c, f, SILENT).f);
      VarsRefine(f1, c, false);
      DryStmt(thn, Refine(f1, c, false));
      var a := AnalyzeStmt(thn, Refine(f1, c, false), SILENT);
      VarsRefine(a.f, c, true);
      DryStmt(els, Refine(a.f, c, true));
    case Loop(head, body, tail, _) =>
      DryExit(head, f);
      var a := AnalyzeExit(head, f, SILENT);
      DryStmt(body, a.f);
      DryExit(tail, AnalyzeStmt(body, a.f, SILENT).f);
    case Return(e) => DryExpr(e, f);
  }

  lemma {:induction false} DryList(l: StmtList, f: State)
    requires f.dry && UnmarkedList(l)
    ensures AnalyzeList(l, f, SILENT).list == l && AnalyzeList(l, f, SILENT).f.dry
    decreases ListSize(l), 3
  {
    if l.Then? {
      DryStmt(l.entry, f);
      DryList(l.next, AnalyzeStmt(l.entry, f, SILENT).f);
    }
  }

  /** The state between the two runs of the analysis: every variable of the script, and nothing known. */
  lemma AfterDryRun(s: Stmt) returns (f: State)
    requires Unmarked(s)
    ensures Analyze(s, SILENT) == AnalyzeStmt(s, f, SILENT).s && !f.dry && !f.dead
    ensures f.preds == map x | x in Touched(s, SILENT) :: UNKNOWN
  {
    var r := AnalyzeStmt(s, START, SILENT);
    f := r.f.(dry := false, dead := false);
    DryStmt(s, START);
    BlankStmt(s, START, SILENT);
    VarsStmt(s, START, SILENT);
  }

  // ---------- the parts of the scripts ----------

  const HALF := Const(Val(5, FLOAT))

  /** `x = toint(input)` or `x = tofloat(input)`. */
  function Taken(x: nat, un: Unary): Expr {
    Assign(x, Prefix(un, Input(x)))
  }

  function Use(x: nat, note: Note): Stmt {
    ExprStmt(Ident(x, note))
  }

  function Three(a: Stmt, b: Stmt, c: Stmt): Stmt {
    Block(Then(a, Then(b, Then(c, Done))))
  }

  lemma TakenFacts(x: nat, un: Unary, f: State, st: Store, w: World, fuel: nat)
    requires !f.dry && (un.ToInt? || un.ToFloat?)
    ensures var p := if un.ToInt? then KNOWN_INT else A_FLOAT;
      && AnalyzeExpr(Taken(x, un), f, SILENT) == Analyzed(Taken(x, un), p, Put(f, x, p))
      && AnalyzeStmt(ExprStmt(Taken(x, un)), f, SILENT) == AnalyzedStmt(ExprStmt(Taken(x, un)), Put(f, x, p))
    ensures var v := UnaryVal(un, w.input(st.used), w);
      var after := Write(st.(used := st.used + 1), x, v);
      Eval(Taken(x, un), st, w) == Value(v, after) && Exec(ExprStmt(Taken(x, un)), st, w, fuel) == Normal(after)
  {
    var e := Prefix(un, Input(x));
    assert AnalyzeExpr(Input(x), f, SILENT) == Analyzed(Input(x), UNKNOWN, f);
    assert AnalyzeExpr(e, f, SILENT).e == e;
    assert Eval(Input(x), st, w) == Value(w.input(st.used), st.(used := st.used + 1));
    assert Eval(e, st, w) == Value(UnaryVal(un, w.input(st.used), w), st.(used := st.used + 1));
  }

  lemma ThreeAnalysis(a: Stmt, b: Stmt, c: Stmt, f: State)
    ensures var x := AnalyzeStmt(a, f, SILENT);
      var y := AnalyzeStmt(b, x.f, SILENT);
      var z := AnalyzeStmt(c, y.f, SILENT);
      AnalyzeStmt(Three(a, b, c), f, SILENT) == AnalyzedStmt(Three(x.s, y.s, z.s), z.f)
  {
    var x := AnalyzeStmt(a, f, SILENT);
    var y := AnalyzeStmt(b, x.f, SILENT);
    var z := AnalyzeStmt(c, y.f, SILENT);
    assert AnalyzeList(Done, z.f, SILENT) == AnalyzedList(Done, z.f);
    assert AnalyzeList(Then(c, Done), y.f, SILENT) == AnalyzedList(Then(z.s, Done), z.f);
    assert AnalyzeList(Then(b, Then(c, Done)), x.f, SILENT) == AnalyzedList(Then(y.s, Then(z.s, Done)), z.f);
  }

  lemma ThreeExec(a: Stmt, b: Stmt, c: Stmt, st: Store, w: World, fuel: nat)
    ensures var x := Exec(a, st, w, fuel);
      Exec(Three(a, b, c), st, w, fuel) ==
      if !x.Normal? then x else
      var y := Exec(b, x.st, w, fuel);
      if y.Normal? then Exec(c, y.st, w, fuel) else y
  {
    var x := Exec(a, st, w, fuel);
    if x.Normal? {
      var y := Exec(b, x.st, w, fuel);
      if y.Normal? {
        assert ExecList(Then(c, Done), y.st, w, fuel) == Exec(c, y.st, w, fuel);
      }
      assert ExecList(Then(b, Then(c, Done)), x.st, w, fuel) == if y.Normal? then Exec(c, y.st, w, fuel) else y;
    }
  }

  lemma UnmarkedThen(s: Stmt, l: StmtList)
    requires Unmarked(s) && UnmarkedList(l)
    ensures UnmarkedList(Then(s, l)) && ListTouched(Then(s, l), SILENT) == Touched(s, SILENT) + ListTouched(l, SILENT)
  {
  }

  lemma ThreeStart(a: Stmt, b: Stmt, c: Stmt) returns (f: State)
    requires Unmarked(a) && Unmarked(b) && Unmarked(c)
    ensures !f.dry && !f.dead
    ensures f.preds == map x | x in Touched(a, SILENT) + Touched(b, SILENT) + Touched(c, SILENT) :: UNKNOWN
    ensures var x := AnalyzeStmt(a, f, SILENT);
      var y := AnalyzeStmt(b, x.f, SILENT);
      Analyze(Three(a, b, c), SILENT) == Three(x.s, y.s, AnalyzeStmt(c, y.f, SILENT).s)
  {
    hide Analyze, AnalyzeStmt, AnalyzeList;
    UnmarkedThen(c, Done);
    UnmarkedThen(b, Then(c, Done));
    UnmarkedThen(a, Then(b, Then(c, Done)));
    f := AfterDryRun(Three(a, b, c));
    ThreeAnalysis(a, b, c, f);
  }

  // ---------- an operand that is skipped ----------

  function Alternative(keeps: bool): Expr {
    LogicOr(0, None, keeps, Input(1), Assign(0, HALF))
  }

  /** `x = toint(input); input || (x = 0.5); x` */
  const SKIPPED := Three(ExprStmt(Taken(0, ToInt)), ExprStmt(Alternative(true)), Use(0, NOTE))

  lemma AlternativeFacts(f: State, st: Store, w: World, keeps: bool)
    requires !f.dry && f.preds == map[0 := KNOWN_INT] && !w.wary
    ensures AnalyzeExpr(Alternative(true), f, SILENT) == Analyzed(Alternative(false), KNOWN_INT, Put(Tick(f), 0, A_FLOAT))
    ensures var st1 := st.(used := st.used + 1);
      var r := Eval(Alternative(keeps), st, w);
      r.Value? && r.st == if Truthy(w.input(st.used), w) then st1 else Write(st1, 0, HALF.v)
  {
    assert AnalyzeExpr(Input(1), f, SILENT) == Analyzed(Input(1), UNKNOWN, f);
    assert AnalyzeExpr(Assign(0, HALF), Tick(f), SILENT) == Analyzed(Assign(0, HALF), A_FLOAT, Put(Tick(f), 0, A_FLOAT));
    assert !Entails(Tick(f), Put(Tick(f), 0, A_FLOAT)) by {
      assert 0 in Put(Tick(f), 0, A_FLOAT).preds;
    }
    var st1 := st.(used := st.used + 1);
    assert Eval(Input(1), st, w) == Value(w.input(st.used), st1);
    assert Eval(Assign(0, HALF), st1, w) == Value(HALF.v, Write(st1, 0, HALF.v));
  }

  lemma SkippedRecorded(st: Store, w: World)
    requires !w.wary
    ensures Analyze(SKIPPED, SILENT) == Three(ExprStmt(Taken(0, ToInt)), ExprStmt(Alternative(false)), Use(0, NoteOf(A_FLOAT)))
  {
    hide AnalyzeExpr, AnalyzeList, Eval, Exec, Analyze, Touched, Unmarked, Alternative, Taken;
    var f := SkippedStart();
    TakenFacts(0, ToInt, f, st, w, 0);
    var f1 := Put(f, 0, KNOWN_INT);
    assert f1.preds == map[0 := KNOWN_INT];
    AlternativeFacts(f1, st, w, true);
    UseFacts(0, Put(Tick(f1), 0, A_FLOAT));
  }

  lemma UseFacts(x: nat, f: State)
    ensures AnalyzeStmt(Use(x, NOTE), f, SILENT) == AnalyzedStmt(Use(x, NoteOf(Get(f, x))), f)
  {
  }

  lemma SkippedStart() returns (f: State)
    ensures !f.dry && !f.dead && f.preds == map[0 := UNKNOWN]
    ensures var a := AnalyzeStmt(ExprStmt(Taken(0, ToInt)), f, SILENT);
      var b := AnalyzeStmt(ExprStmt(Alternative(true)), a.f, SILENT);
      var c := AnalyzeStmt(Use(0, NOTE), b.f, SILENT);
      Analyze(SKIPPED, SILENT) == Three(a.s, b.s, c.s)
  {
    hide Analyze, AnalyzeStmt, AnalyzeExpr, AnalyzeList;
    f := ThreeStart(ExprStmt(Taken(0, ToInt)), ExprStmt(Alternative(true)), Use(0, NOTE));
  }

  /** The script reads `x` with a wrong type exactly if the assignment is skipped. */
  lemma SkippedAssignment(st: Store, w: World, fuel: nat)
    requires !w.wary
    ensures Exec(Analyze(SKIPPED, SILENT), st, w, fuel) == Stopped(Bad) <==> Truthy(w.input(st.used + 1), w)
  {
    hide Analyze, AnalyzeExpr, AnalyzeStmt, Alternative, Taken, Entails;
    SkippedRecorded(st, w);
    var f := State(false, false, map[0 := KNOWN_INT], 0);
    TakenFacts(0, ToInt, f, st, w, fuel);
    var a, b, c := ExprStmt(Taken(0, ToInt)), ExprStmt(Alternative(false)), Use(0, NoteOf(A_FLOAT));
    ThreeExec(a, b, c, st, w, fuel);
    AlternativeFacts(f, Exec(a, st, w, fuel).st, w, false);
  }

  // ---------- the else side of `&&` ----------

  /** `typeof x != int` */
  function IsNotInt(x: nat): Expr {
    Binary(Unequal, Prefix(TypeOf, Ident(x, NOTE)), Const(Val(INT, INT)))
  }

  function NeitherInt(): Expr {
    LogicAnd(0, None, true, IsNotInt(0), IsNotInt(1))
  }

  lemma IsNotIntFacts(x: nat, f: State, st: Store, w: World)
    requires !f.dry && Get(f, x) == UNKNOWN
    ensures AnalyzeExpr(IsNotInt(x), f, SILENT).e == IsNotInt(x) && AnalyzeExpr(IsNotInt(x), f, SILENT).f == Tick(f)
    ensures Eval(IsNotInt(x), st, w) == Value(Truth(Read(st, x).tag != INT), st)
    ensures Refine(f, IsNotInt(x), true) == Put(f, x, Pred(Some(INT), None)) && Refine(f, IsNotInt(x), false) == f
    ensures Teaches(IsNotInt(x), true) == map[x := INT] && Assigned(IsNotInt(x)) == {}
  {
    var t, l := Prefix(TypeOf, Ident(x, NOTE)), Const(Val(INT, INT));
    assert AnalyzeExpr(t, f, SILENT) == Analyzed(t, KNOWN_INT, f);
    assert Eval(t, st, w) == Value(Val(Read(st, x).tag, INT), st);
    assert TypeTest(t, l) == Some((x, INT));
    assert Assigned(t) == Assigned(l) == {};
  }

  lemma NeitherTruth(st: Store, w: World)
    ensures Eval(NeitherInt(), st, w) == Value(Truth(Read(st, 0).tag != INT && Read(st, 1).tag != INT), st)
  {
    hide IsNotInt, Refine, Teaches, AnalyzeExpr;
    var f := START.(dry := false);
    IsNotIntFacts(0, f, st, w);
    IsNotIntFacts(1, f, st, w);
  }

  /** The else side describes a store exactly if both variables are ints, although one of them is enough for the
      condition to be false. */
  lemma ElseExact(f: State, st: Store)
    requires !f.dry && Holds(f, st)
    ensures Holds(Refine(f, NeitherInt(), true), st) <==> Read(st, 0).tag == INT && Read(st, 1).tag == INT
  {
    hide IsNotInt, Refine, Holds;
    TestTouched(0);
    TestTouched(1);
    RefineExact(f, NeitherInt(), true, st);
  }

  const ELSE_OF_AND := Three(ExprStmt(Assign(0, Input(0))), ExprStmt(Assign(1, Input(1))),
                             If(1, None, NeitherInt(), Block(Done), Use(1, NOTE)))

  lemma GivenFacts(x: nat, f: State, st: Store, w: World, fuel: nat)
    ensures AnalyzeStmt(ExprStmt(Assign(x, Input(x))), f, SILENT) == AnalyzedStmt(ExprStmt(Assign(x, Input(x))), Put(f, x, UNKNOWN))
    ensures Exec(ExprStmt(Assign(x, Input(x))), st, w, fuel) ==
      Normal(Write(st.(used := st.used + 1), x, w.input(st.used)))
  {
    assert AnalyzeExpr(Input(x), f, SILENT) == Analyzed(Input(x), UNKNOWN, f);
    assert Eval(Input(x), st, w) == Value(w.input(st.used), st.(used := st.used + 1));
  }

  lemma NeitherFacts(f: State, st: Store, w: World)
    requires !f.dry && !f.dead && f.preds == map[0 := UNKNOWN, 1 := UNKNOWN]
    ensures AnalyzeExpr(NeitherInt(), f, SILENT).e == NeitherInt()
    ensures var r := AnalyzeExpr(NeitherInt(), f, SILENT).f; r.preds == f.preds && !r.dry && !r.dead
    ensures Refine(f, NeitherInt(), false) == f && Get(Refine(f, NeitherInt(), true), 1) == Pred(Some(INT), None)
  {
    hide IsNotInt;
    IsNotIntFacts(0, f, st, w);
    var f1 := Tick(Tick(f));
    IsNotIntFacts(1, f1, st, w);
    IsNotIntFacts(1, f, st, w);
    PureKeeps(IsNotInt(1), f1, SILENT);
    IsNotIntFacts(1, Put(f, 0, Pred(Some(INT), None)), st, w);
  }

  lemma BranchesFacts(f: State, st: Store, w: World)
    requires !f.dry && !f.dead && f.preds == map[0 := UNKNOWN, 1 := UNKNOWN]
    ensures AnalyzeStmt(If(1, None, NeitherInt(), Block(Done), Use(1, NOTE)), f, SILENT).s ==
      If(1, None, NeitherInt(), Block(Done), Use(1, Note(Some(INT), None)))
  {
    hide NeitherInt, AnalyzeExpr, Refine;
    NeitherFacts(f, st, w);
    var f1 := Tick(AnalyzeExpr(NeitherInt(), f, SILENT).f);
    NeitherFacts(f1, st, w);
    assert AnalyzeList(Done, f1, SILENT) == AnalyzedList(Done, f1);
    assert AnalyzeStmt(Block(Done), f1, SILENT) == AnalyzedStmt(Block(Done), f1);
    NeitherFacts(f1.(ticks := f1.ticks), st, w);
    UseFacts(1, Refine(f1, NeitherInt(), true));
  }

  lemma TestTouched(x: nat)
    ensures TouchedExpr(IsNotInt(x), SILENT) == {} && UnmarkedExpr(IsNotInt(x))
    ensures Teaches(IsNotInt(x), true) == map[x := INT] && Teaches(IsNotInt(x), false) == map[]
  {
    var t, l := Prefix(TypeOf, Ident(x, NOTE)), Const(Val(INT, INT));
    assert TypeTest(t, l) == Some((x, INT));
    assert TouchedExpr(t, SILENT) == TouchedExpr(l, SILENT) == {};
  }

  lemma NeitherTouched()
    ensures TouchedExpr(NeitherInt(), SILENT) == {} && UnmarkedExpr(NeitherInt())
    ensures Refined(NeitherInt(), true) == {0, 1} && Refined(NeitherInt(), false) == {}
  {
    hide IsNotInt;
    TestTouched(0);
    TestTouched(1);
  }

  lemma BranchesTouched()
    ensures var c := If(1, None, NeitherInt(), Block(Done), Use(1, NOTE)); Touched(c, SILENT) == {0, 1} && Unmarked(c)
  {
    hide NeitherInt, Teaches, Refined;
    NeitherTouched();
    assert ListTouched(Done, SILENT) == {} && UnmarkedList(Done);
    assert Touched(Block(Done), SILENT) == {} && Unmarked(Block(Done));
    assert Touched(Use(1, NOTE), SILENT) == {} && Unmarked(Use(1, NOTE));
  }

  lemma ElseStart() returns (f: State)
    ensures !f.dry && !f.dead && f.preds == map[0 := UNKNOWN, 1 := UNKNOWN]
    ensures var a := AnalyzeStmt(ExprStmt(Assign(0, Input(0))), f, SILENT);
      var b := AnalyzeStmt(ExprStmt(Assign(1, Input(1))), a.f, SILENT);
      var c := AnalyzeStmt(If(1, None, NeitherInt(), Block(Done), Use(1, NOTE)), b.f, SILENT);
      Analyze(ELSE_OF_AND, SILENT) == Three(a.s, b.s, c.s)
  {
    hide Analyze, AnalyzeStmt, AnalyzeExpr, AnalyzeList, NeitherInt, Teaches, Refined;
    BranchesTouched();
    f := ThreeStart(ExprStmt(Assign(0, Input(0))), ExprStmt(Assign(1, Input(1))),
                    If(1, None, NeitherInt(), Block(Done), Use(1, NOTE)));
  }

  lemma ElseRecorded(st: Store, w: World)
    ensures Analyze(ELSE_OF_AND, SILENT) ==
      Three(ExprStmt(Assign(0, Input(0))), ExprStmt(Assign(1, Input(1))),
            If(1, None, NeitherInt(), Block(Done), Use(1, Note(Some(INT), None))))
  {
    hide Analyze, AnalyzeStmt, AnalyzeExpr, AnalyzeList, NeitherInt, Exec;
    var f := ElseStart();
    GivenFacts(0, f, st, w, 0);
    GivenFacts(1, Put(f, 0, UNKNOWN), st, w, 0);
    var f2 := Put(Put(f, 0, UNKNOWN), 1, UNKNOWN);
    assert f2.preds == map[0 := UNKNOWN, 1 := UNKNOWN];
    BranchesFacts(f2, st, w);
  }

  /** `x = input; y = input; if(typeof x != int && typeof y != int) { } else y` reads `y` with a wrong type exactly if
      `x` is an int and `y` is not. */
  lemma ElseOfAnd(st: Store, w: World, fuel: nat)
    requires !w.wary
    ensures Exec(Analyze(ELSE_OF_AND, SILENT), st, w, fuel) == Stopped(Bad)
      <==> w.input(st.used).tag == INT && w.input(st.used + 1).tag != INT
  {
    hide Analyze, AnalyzeStmt, AnalyzeExpr, NeitherInt, Refine, Holds;
    ElseRecorded(st, w);
    var a, b, c := ExprStmt(Assign(0, Input(0))), ExprStmt(Assign(1, Input(1))),
      If(1, None, NeitherInt(), Block(Done), Use(1, Note(Some(INT), None)));
    var f := State(false, false, map[0 := UNKNOWN, 1 := UNKNOWN], 0);
    ThreeExec(a, b, c, st, w, fuel);
    GivenFacts(0, f, st, w, fuel);
    var st1 := Exec(a, st, w, fuel).st;
    GivenFacts(1, f, st1, w, fuel);
    var st2 := Exec(b, st1, w, fuel).st;
    NeitherTruth(st2, w);
    assert ExecList(Done, st2, w, fuel) == Normal(st2);
  }

  // ---------- a loop's first condition that assigns ----------

  /** `while(x = tofloat(input)) x = toint(input);` */
  function HeadLoop(keeps: bool, stable: bool): Stmt {
    Loop(Some(Exit(0, None, keeps, Taken(0, ToFloat))), ExprStmt(Taken(0, ToInt)), None, stable)
  }

  const HEAD := Three(ExprStmt(Taken(0, ToInt)), HeadLoop(true, false), Use(0, NOTE))

  lemma HeadPass(keeps: bool, stable: bool, f: State, st: Store, w: World)
    requires f.preds == map[0 := KNOWN_INT] && !f.dry && !f.dead
    ensures var r := AnalyzePass(HeadLoop(keeps, stable), f, SILENT);
      r.s == HeadLoop(false, stable) && r.f.preds == f.preds && !r.f.dry && !r.f.dead
  {
    hide AnalyzeExpr, Taken;
    TakenFacts(0, ToFloat, f, st, w, 0);
    var f1 := Put(f, 0, A_FLOAT);
    HeadExit(keeps, f, st, w);
    var f2 := AnalyzeExit(Some(Exit(0, None, keeps, Taken(0, ToFloat))), f, SILENT).f;
    TakenFacts(0, ToInt, f2, st, w, 0);
    var r := AnalyzeBody(HeadLoop(keeps, stable), f, SILENT);
    assert r.f.preds == map[0 := KNOWN_INT];
    assert Merge(r.f, f).preds == f.preds;
  }

  lemma HeadExit(keeps: bool, f: State, st: Store, w: World)
    requires f.preds == map[0 := KNOWN_INT] && !f.dry && !f.dead
    ensures var r := AnalyzeExit(Some(Exit(0, None, keeps, Taken(0, ToFloat))), f, SILENT);
      && r.x == Some(Exit(0, None, false, Taken(0, ToFloat)))
      && r.f.preds == map[0 := A_FLOAT] && !r.f.dry && !r.f.dead
  {
    hide AnalyzeExpr;
    TakenFacts(0, ToFloat, f, st, w, 0);
    var f1 := Put(f, 0, A_FLOAT);
    assert !Entails(f1, f) by { assert 0 in f.preds; }
    assert Refine(Tick(f1), Taken(0, ToFloat), false) == Refine(Tick(f1), Taken(0, ToFloat), true) == Tick(f1);
    assert Merge(Tick(f1), Tick(f1)).preds == f1.preds;
  }

  lemma HeadAnalysis(f: State, st: Store, w: World)
    requires f.preds == map[0 := KNOWN_INT] && !f.dry && !f.dead
    ensures var r := AnalyzeStmt(HeadLoop(true, false), f, SILENT); r.s == HeadLoop(false, true) && r.f.preds == f.preds && !r.f.dry
  {
    hide AnalyzePass;
    HeadPass(true, false, f, st, w);
    var a := AnalyzePass(HeadLoop(true, false), f, SILENT);
    HeadPass(false, false, a.f, st, w);
    var b := AnalyzePass(a.s, a.f, SILENT);
    HeadPass(false, false, b.f, st, w);
  }

  lemma HeadStart() returns (f: State)
    ensures !f.dry && !f.dead && f.preds == map[0 := UNKNOWN]
    ensures var a := AnalyzeStmt(ExprStmt(Taken(0, ToInt)), f, SILENT);
      var b := AnalyzeStmt(HeadLoop(true, false), a.f, SILENT);
      var c := AnalyzeStmt(Use(0, NOTE), b.f, SILENT);
      Analyze(HEAD, SILENT) == Three(a.s, b.s, c.s)
  {
    hide Analyze, AnalyzeStmt, AnalyzeExpr, AnalyzeList;
    f := ThreeStart(ExprStmt(Taken(0, ToInt)), HeadLoop(true, false), Use(0, NOTE));
  }

  lemma HeadRecorded(st: Store, w: World)
    ensures Analyze(HEAD, SILENT) == Three(ExprStmt(Taken(0, ToInt)), HeadLoop(false, true), Use(0, NoteOf(KNOWN_INT)))
  {
    hide Analyze, AnalyzeStmt, AnalyzeExpr, AnalyzeList, Exec, Eval;
    var f := HeadStart();
    TakenFacts(0, ToInt, f, st, w, 0);
    var f1 := Put(f, 0, KNOWN_INT);
    assert f1.preds == map[0 := KNOWN_INT];
    HeadAnalysis(f1, st, w);
    UseFacts(0, AnalyzeStmt(HeadLoop(true, false), f1, SILENT).f);
  }

  /** Leaving the loop always leaves a float. */
  lemma {:induction false} HeadRuns(st: Store, w: World, fuel: nat)
    requires !w.wary
    ensures var r := Exec(HeadLoop(false, true), st, w, fuel); r.Timeout? || (r.Normal? && Read(r.st, 0).tag == FLOAT)
    ensures fuel > 0 && !w.nonzero(w.unary(ToFloat, w.input(st.used))) ==> Exec(HeadLoop(false, true), st, w, fuel).Normal?
    decreases fuel
  {
    if fuel > 0 {
      TakenFacts(0, ToFloat, START.(dry := false), st, w, fuel);
      var st1 := Eval(Taken(0, ToFloat), st, w).st;
      TakenFacts(0, ToInt, START.(dry := false), st1, w, fuel);
      HeadRuns(Exec(ExprStmt(Taken(0, ToInt)), st1, w, fuel).st, w, fuel - 1);
    }
  }

  /** `x = toint(input); while(x = tofloat(input)) x = toint(input); x` reads `x` with a wrong type whenever it gets
      past the loop: every pass finds an int again, but the loop is left with a float. */
  lemma AssigningHead(st: Store, w: World, fuel: nat)
    requires !w.wary
    ensures var r := Exec(Analyze(HEAD, SILENT), st, w, fuel); r == Stopped(Bad) || r.Timeout?
    ensures fuel > 0 && !w.nonzero(w.unary(ToFloat, w.input(st.used + 1))) ==> Exec(Analyze(HEAD, SILENT), st, w, fuel) == Stopped(Bad)
  {
    hide Analyze, AnalyzeStmt, AnalyzeExpr, HeadLoop, Taken;
    HeadRecorded(st, w);
    var a, b, c := ExprStmt(Taken(0, ToInt)), HeadLoop(false, true), Use(0, NoteOf(KNOWN_INT));
    ThreeExec(a, b, c, st, w, fuel);
    TakenFacts(0, ToInt, START.(dry := false), st, w, fuel);
    HeadRuns(Exec(a, st, w, fuel).st, w, fuel);
  }
}
