/** Type prediction finds what there is to find: in programs whose variables have one type each, the analysis records
    the type of every variable it meets (jit/lib/flow.c). */
module FlowKnows {
  import opened Basics
  import opened Flow
  import opened FlowSound

  // ---------- operators ----------

  /** The types of the results of operators, by the types of their operands.  (The other operands stop the program.) */
  lemma ResultTypes(op: Op, a: Tag, b: Tag)
    ensures op in {Equal, Unequal, TypeEqual, TypeUnequal, LessEqual, GreaterEqual, Less, Greater, LogicXor} ==>
      ResultType(op, a, b) == Some(INT)
    ensures op in {Or, Xor, And, UShr, SShr, Shl, Mod} ==>
      ResultType(op, a, b) == if a == 1 && b == 1 then Some(1) else None
    ensures op in {Add, Sub, Mul, Div} ==>
      ResultType(op, a, b) == if a == 1 && b == 1 then Some(1) else if a in {1, 2} && b in {1, 2} then Some(2) else None
  {
  }

  /** From known operand types the tables give exactly the type of the result, but for one gap: of `^^` they know
      it only for two ints, or if the operation is folded. */
  lemma BinaryExact(op: Op, a: Tag, b: Tag, aMeta: Option<int>, bMeta: Option<int>, folded: bool)
    ensures BinaryPred(op, Pred(Some(a), aMeta), Pred(Some(b), bMeta), folded).ty ==
      if op == LogicXor && !(a == 1 && b == 1) && !(folded && aMeta.Some? && bMeta.Some?) then None
      else ResultType(op, a, b)
  {
  }

  /** If the type of an operand is not known, only that of a comparison is. */
  lemma BinaryUnknown(op: Op, a: Pred, b: Pred, folded: bool)
    requires a.ty.None? || b.ty.None?
    ensures BinaryPred(op, a, b, folded).ty ==
      if op in {Equal, Unequal, TypeEqual, TypeUnequal, LessEqual, GreaterEqual, Less, Greater} then Some(INT) else None
  {
  }

  /** A folded operation's meta is known as well, and that of no other. */
  lemma BinaryMeta(op: Op, a: Pred, b: Pred, folded: bool)
    ensures var p := BinaryPred(op, a, b, folded);
      p.meta == if folded && a.ty.Some? && a.meta.Some? && b.ty.Some? && b.meta.Some? then p.ty else None
  {
  }

  lemma UnaryExact(un: Unary, p: Pred)
    ensures un in {LogicNot, TypeOf, ToInt} ==> UnaryPred(un, p) == Pred(Some(1), Some(1))
    ensures un == ToFloat ==> UnaryPred(un, p) == Pred(Some(2), Some(2))
    ensures un == Plus ==> UnaryPred(un, p) == p
    ensures un == Minus ==> UnaryPred(un, p) == if p.ty == Some(1) || p.ty == Some(2) then p else Pred(None, None)
    ensures un == BitNot ==> UnaryPred(un, p) == if p.ty == Some(1) then p else Pred(None, None)
  {
  }

  // ---------- predictions of variables ----------

  /** In a real run a variable has the prediction it was given last, and others keep theirs; what is recorded at an
      identifier is the type and the meta that are predicted for the variable there. */
  lemma GetPut(f: State, x: nat, p: Pred, y: nat, note: Note, o: Oracle)
    ensures AnalyzeExpr(Ident(y, note), f, o) == Analyzed(Ident(y, Note(Get(f, y).ty, Get(f, y).meta)), Get(f, y), f)
    ensures !f.dry ==> Get(Put(f, x, p), y) == if y == x then p else Get(f, y)
    ensures f.dry || y !in f.preds ==> Get(f, y) == Pred(None, None)
  {
  }

  /** After two ways have met, a type is known exactly if both knew it, and so is a meta; a way that ends in a return
      does not count, and neither does one on which the variable has not been met. */
  lemma MergeExact(a: State, b: State, x: nat, t: int)
    requires !a.dry && !b.dry
    ensures var m, p, q := Merge(a, b), Get(a, x), Get(b, x);
      && m.dead == (a.dead && b.dead)
      && (a.dead ==> Get(m, x) == q) && (!a.dead && b.dead ==> Get(m, x) == p)
      && (!a.dead && !b.dead && x !in b.preds ==> Get(m, x) == p)
      && (!a.dead && !b.dead && x !in a.preds ==> Get(m, x) == q)
      && (!a.dead && !b.dead && x in a.preds && x in b.preds ==>
          && (Get(m, x).ty == Some(t) <==> p.ty == Some(t) && q.ty == Some(t))
          && (Get(m, x).meta == Some(t) <==> p.meta == Some(t) && q.meta == Some(t)))
  {
  }

  // ---------- programs with one type for each variable ----------

  /** The type of an expression, if variables have the types `g`.  What depends on input has none, nor has `?:`, of
      which the analysis takes an arm's type only if it predicts the condition. */
  function TypeIn(e: Expr, g: nat -> Tag): Option<Tag> {
    match e
    case Const(v) => Some(v.tag)
    case Input(_) => None
    case Ident(x, _) => Some(g(x))
    case Assign(_, value) => TypeIn(value, g)
    case Binary(op, left, right) =>
      if Compares(op) then Some(INT)
      else
        var a, b := TypeIn(left, g), TypeIn(right, g);
        if a.None? || b.None? || (op.LogicXor? && !(a.value == INT && b.value == INT)) then None
        else ResultType(op, a.value, b.value)
    case Prefix(un, arg) => TypeOfPrefix(un, TypeIn(arg, g))
    case LogicOr(_, _, _, _, _) => Some(INT)
    case LogicAnd(_, _, _, _, _) => Some(INT)
    case Ternary(_, _, _, _, _, _, _) => None
  }

  function TypeOfPrefix(un: Unary, t: Option<Tag>): Option<Tag> {
    match un
    case Minus => if t == Some(INT) || t == Some(FLOAT) then t else None
    case BitNot => if t == Some(INT) then t else None
    case Plus => t
    case ToFloat => Some(FLOAT)
    case _ => Some(INT)
  }

  /** The variables that are surely assigned after `e`, if those in `d` are before it. */
  function After(e: Expr, d: set<nat>): (r: set<nat>)
    ensures d <= r
  {
    match e
    case Assign(x, value) => After(value, d) + {x}
    case Binary(_, left, right) => After(right, After(left, d))
    case Prefix(_, arg) => After(arg, d)
    case LogicOr(_, _, _, left, _) => After(left, d)
    case LogicAnd(_, _, _, left, _) => After(left, d)
    case Ternary(_, _, _, _, c, _, _) => After(c, d)
    case _ => d
  }

  /** Only variables are read that are surely assigned, and each is assigned values of its type only. */
  predicate OkExpr(e: Expr, d: set<nat>, g: nat -> Tag) {
    match e
    case Ident(x, _) => x in d
    case Assign(x, value) => OkExpr(value, d, g) && TypeIn(value, g) == Some(g(x))
    case Binary(_, left, right) => OkExpr(left, d, g) && OkExpr(right, After(left, d), g)
    case Prefix(_, arg) => OkExpr(arg, d, g)
    case LogicOr(_, _, _, left, right) => OkExpr(left, d, g) && OkExpr(right, After(left, d), g)
    case LogicAnd(_, _, _, left, right) => OkExpr(left, d, g) && OkExpr(right, After(left, d), g)
    case Ternary(_, _, _, _, c, t, n) => OkExpr(c, d, g) && OkExpr(t, After(c, d), g) && OkExpr(n, After(c, d), g)
    case _ => true
  }

  /** A side of a condition that tests types finds the variables' own. */
  predicate Agrees(c: Expr, isElse: bool, g: nat -> Tag)
    decreases c
  {
    match c
    case Prefix(LogicNot, arg) => Agrees(arg, !isElse, g)
    case Binary(op, a, b) =>
      TestsType(op, isElse) && TypeTest(a, b).Some? ==> TypeTest(a, b).value.1 % 256 == g(TypeTest(a, b).value.0)
    case LogicAnd(_, _, _, a, b) => Agrees(a, isElse, g) && Agrees(b, isElse, g)
    case _ => true
  }

  predicate OkCond(c: Expr, d: set<nat>, g: nat -> Tag) {
    OkExpr(c, d, g) && Agrees(c, false, g) && Agrees(c, true, g)
  }

  predicate OkExit(x: Option<Exit>, d: set<nat>, g: nat -> Tag) {
    x.Some? ==> OkCond(x.value.cond, d, g)
  }

  function AfterExit(x: Option<Exit>, d: set<nat>): (r: set<nat>)
    ensures d <= r
  {
    if x.Some? then After(x.value.cond, d) else d
  }

  /** What was assigned in a loop for the first time does not count behind it. */
  function Sure(s: Stmt, d: set<nat>): (r: set<nat>)
    ensures d <= r
  {
    match s
    case ExprStmt(e) => After(e, d)
    case Define(x, init) => if init.Some? then After(init.value, d) + {x} else d
    case Block(list) => ListSure(list, d)
    case If(_, _, c, thn, els) => Sure(thn, After(c, d)) * Sure(els, After(c, d))
    case Loop(_, _, _, _) => d
    case Return(e) => After(e, d)
  }

  function ListSure(l: StmtList, d: set<nat>): (r: set<nat>)
    ensures d <= r
  {
    match l
    case Done => d
    case Then(s, next) => ListSure(next, Sure(s, d))
  }

  predicate OkStmt(s: Stmt, d: set<nat>, g: nat -> Tag)
    decreases s
  {
    match s
    case ExprStmt(e) => OkExpr(e, d, g)
    case Define(x, init) => if init.Some? then OkExpr(init.value, d, g) && TypeIn(init.value, g) == Some(g(x)) else x !in d
    case Block(list) => OkList(list, d, g)
    case If(_, _, c, thn, els) => OkCond(c, d, g) && OkStmt(thn, After(c, d), g) && OkStmt(els, After(c, d), g)
    case Loop(head, body, tail, _) =>
      && OkExit(head, d, g) && OkStmt(body, AfterExit(head, d), g)
      && OkExit(tail, Sure(body, AfterExit(head, d)), g)
    case Return(e) => OkExpr(e, d, g)
  }

  predicate OkList(l: StmtList, d: set<nat>, g: nat -> Tag)
    decreases l
  {
    l.Then? ==> OkStmt(l.entry, d, g) && OkList(l.next, Sure(l.entry, d), g)
  }

  // ---------- what is recorded ----------

  /** The type recorded at every identifier is known, and it is the variable's; operands and branches that are
      predicted not to be executed do not count. */
  predicate Noted(e: Expr, g: nat -> Tag) {
    match e
    case Ident(x, note) => note.ty == Some(g(x))
    case Assign(_, value) => Noted(value, g)
    case Binary(_, left, right) => Noted(left, g) && Noted(right, g)
    case Prefix(_, arg) => Noted(arg, g)
    case LogicOr(_, guess, _, left, right) => Noted(left, g) && (guess == Some(true) || Noted(right, g))
    case LogicAnd(_, guess, _, left, right) => Noted(left, g) && (guess == Some(false) || Noted(right, g))
    case Ternary(_, _, _, _, c, t, n) => Noted(c, g) && Noted(t, g) && Noted(n, g)
    case _ => true
  }

  predicate NotedExit(x: Option<Exit>, g: nat -> Tag) {
    x.Some? ==> Noted(x.value.cond, g)
  }

  predicate AllNoted(s: Stmt, g: nat -> Tag)
    decreases s
  {
    match s
    case ExprStmt(e) => Noted(e, g)
    case Define(_, init) => init.Some? ==> Noted(init.value, g)
    case Block(list) => ListNoted(list, g)
    case If(_, guess, c, thn, els) =>
      Noted(c, g) && (guess == Some(false) || AllNoted(thn, g)) && (guess == Some(true) || AllNoted(els, g))
    case Loop(head, body, tail, _) => NotedExit(head, g) && AllNoted(body, g) && NotedExit(tail, g)
    case Return(e) => Noted(e, g)
  }

  predicate ListNoted(l: StmtList, g: nat -> Tag)
    decreases l
  {
    l.Then? ==> AllNoted(l.entry, g) && ListNoted(l.next, g)
  }

  // ---------- annotations do not matter ----------

  lemma {:induction false} ExprStays(e: Expr, f: State, o: Oracle, d: set<nat>, g: nat -> Tag)
    ensures var r := AnalyzeExpr(e, f, o).e;
      TypeIn(r, g) == TypeIn(e, g) && After(r, d) == After(e, d) && OkExpr(r, d, g) == OkExpr(e, d, g)
  {
    match e
    case Assign(_, value) => ExprStays(value, f, o, d, g);
    case Binary(_, a, b) =>
      ExprStays(a, f, o, d, g);
      ExprStays(b, AnalyzeExpr(a, f, o).f, o, After(a, d), g);
    case Prefix(_, a) => ExprStays(a, f, o, d, g);
    case LogicOr(_, _, _, a, b) =>
      ExprStays(a, f, o, d, g);
      ExprStays(b, Tick(AnalyzeExpr(a, f, o).f), o, After(a, d), g);
    case LogicAnd(_, _, _, a, b) =>
      ExprStays(a, f, o, d, g);
      ExprStays(b, Tick(AnalyzeExpr(a, f, o).f), o, After(a, d), g);
    case Ternary(_, _, _, _, c, t, n) =>
      var f1 := Tick(AnalyzeExpr(c, f, o).f);
      ExprStays(c, f, o, d, g);
      ExprStays(t, f1, o, After(c, d), g);
      ExprStays(n, AnalyzeExpr(t, f1, o).f, o, After(c, d), g);
    case _ =>
  }

  lemma {:induction false} AgreesStays(c: Expr, f: State, o: Oracle, isElse: bool, g: nat -> Tag)
    ensures Agrees(AnalyzeExpr(c, f, o).e, isElse, g) == Agrees(c, isElse, g)
    decreases c
  {
    match c
    case Prefix(un, arg) => AgreesStays(arg, f, o, !isElse, g);
    case Binary(op, a, b) =>
      KeepsExpr(a, f, o);
      KeepsExpr(b, AnalyzeExpr(a, f, o).f, o);
    case LogicAnd(_, _, _, a, b) =>
      AgreesStays(a, f, o, isElse, g);
      AgreesStays(b, Tick(AnalyzeExpr(a, f, o).f), o, isElse, g);
    case _ =>
  }

  lemma CondStays(c: Expr, f: State, o: Oracle, d: set<nat>, g: nat -> Tag)
    ensures var r := AnalyzeExpr(c, f, o).e; OkCond(r, d, g) == OkCond(c, d, g) && After(r, d) == After(c, d)
  {
    ExprStays(c, f, o, d, g);
    AgreesStays(c, f, o, false, g);
    AgreesStays(c, f, o, true, g);
  }

  lemma ExitStays(x: Option<Exit>, f: State, o: Oracle, d: set<nat>, g: nat -> Tag)
    ensures var r := AnalyzeExit(x, f, o).x; OkExit(r, d, g) == OkExit(x, d, g) && AfterExit(r, d) == AfterExit(x, d)
  {
    if x.Some? {
      CondStays(x.value.cond, f, o, d, g);
    }
  }

  lemma {:induction false} StmtStays(s: Stmt, f: State, o: Oracle, d: set<nat>, g: nat -> Tag)
    ensures var r := AnalyzeStmt(s, f, o).s; Sure(r, d) == Sure(s, d) && OkStmt(r, d, g) == OkStmt(s, d, g)
    decreases Size(s), 2
  {
    match s
    case ExprStmt(e) => ExprStays(e, f, o, d, g);
    case Define(_, init) => if init.Some? { ExprStays(init.value, f, o, d, g); }
    case Block(list) => ListStays(list, f, o, d, g);
    case If(_, _, _, _, _) => IfStays(s, f, o, d, g);
    case Loop(_, _, _, _) =>
      BodyStays(s, f, o, d, g);
      var a := AnalyzePass(s, f, o);
      BodyStays(a.s, a.f, o, d, g);
      var b := AnalyzePass(a.s, a.f, o);
      BodyStays(b.s, b.f, o, d, g);
    case Return(e) => ExprStays(e, f, o, d, g);
  }

  lemma {:induction false} ListStays(l: StmtList, f: State, o: Oracle, d: set<nat>, g: nat -> Tag)
    ensures var r := AnalyzeList(l, f, o).list; ListSure(r, d) == ListSure(l, d) && OkList(r, d, g) == OkList(l, d, g)
    decreases ListSize(l), 3
  {
    if l.Then? {
      StmtStays(l.entry, f, o, d, g);
      ListStays(l.next, AnalyzeStmt(l.entry, f, o).f, o, Sure(l.entry, d), g);
    }
  }

  lemma IfStays(s: Stmt, f: State, o: Oracle, d: set<nat>, g: nat -> Tag)
    requires s.If?
    ensures var r := AnalyzeIf(s, f, o).s; Sure(r, d) == Sure(s, d) && OkStmt(r, d, g) == OkStmt(s, d, g)
    decreases Size(s), 1
  {
    var r := AnalyzeExpr(s.cond, f, o);
    var f1, d1 := Tick(r.f), After(s.cond, d);
    CondStays(s.cond, f, o, d, g);
    StmtStays(s.thn, Refine(f1, r.e, false), o, d1, g);
    var a := AnalyzeStmt(s.thn, Refine(f1, r.e, false), o);
    var other := if f.dry then a.f else f1.(ticks := a.f.ticks);
    StmtStays(s.els, Refine(other, r.e, true), o, d1, g);
    StmtStays(s.els, Refine(f1, r.e, true), o, d1, g);
  }

  lemma BodyStays(s: Stmt, f: State, o: Oracle, d: set<nat>, g: nat -> Tag)
    requires s.Loop?
    ensures OkStmt(AnalyzeBody(s, f, o).s, d, g) == OkStmt(s, d, g)
    decreases Size(s), 0
  {
    var a := AnalyzeExit(s.head, f, o);
    var d1 := AfterExit(s.head, d);
    ExitStays(s.head, f, o, d, g);
    StmtStays(s.body, a.f, o, d1, g);
    ExitStays(s.tail, AnalyzeStmt(s.body, a.f, o).f, o, Sure(s.body, d1), g);
  }

  // ---------- the analysis finds the types ----------

  /** The state knows the types of the variables in `d`. */
  predicate Knows(f: State, d: set<nat>, g: nat -> Tag) {
    !f.dry && forall x :: x in d ==> x in f.preds && f.preds[x].ty == Some(g(x))
  }

  lemma KnowsLess(f: State, d: set<nat>, less: set<nat>, g: nat -> Tag)
    requires Knows(f, d, g) && less <= d
    ensures Knows(f, less, g)
  {
  }

  lemma {:induction false} ExprKnows(e: Expr, f: State, o: Oracle, d: set<nat>, g: nat -> Tag)
    requires Knows(f, d, g) && OkExpr(e, d, g)
    ensures var r := AnalyzeExpr(e, f, o);
      Knows(r.f, After(e, d), g) && Noted(r.e, g) && (TypeIn(e, g).Some? ==> r.p.ty == TypeIn(e, g))
    decreases e, 1
  {
    match e
    case Assign(x, value) => ExprKnows(value, f, o, d, g);
    case Binary(_, a, b) =>
      ExprKnows(a, f, o, d, g);
      ExprKnows(b, AnalyzeExpr(a, f, o).f, o, After(a, d), g);
    case Prefix(_, a) => ExprKnows(a, f, o, d, g);
    case LogicOr(_, _, _, _, _) => ChoiceKnows(e, f, o, d, g);
    case LogicAnd(_, _, _, _, _) => ChoiceKnows(e, f, o, d, g);
    case Ternary(_, _, _, _, _, _, _) => ChoiceKnows(e, f, o, d, g);
    case _ =>
  }

  /** The operators that do not evaluate all their operands. */
  lemma ChoiceKnows(e: Expr, f: State, o: Oracle, d: set<nat>, g: nat -> Tag)
    requires Knows(f, d, g) && OkExpr(e, d, g) && (e.LogicOr? || e.LogicAnd? || e.Ternary?)
    ensures var r := AnalyzeExpr(e, f, o);
      Knows(r.f, After(e, d), g) && Noted(r.e, g) && (TypeIn(e, g).Some? ==> r.p.ty == TypeIn(e, g))
    decreases e, 0
  {
    hide Entails;
    if e.Ternary? {
      var d1, f1 := After(e.cond, d), Tick(AnalyzeExpr(e.cond, f, o).f);
      ExprKnows(e.cond, f, o, d, g);
      ExprKnows(e.whenTrue, f1, o, d1, g);
      ExprKnows(e.whenFalse, AnalyzeExpr(e.whenTrue, f1, o).f, o, d1, g);
    } else {
      ExprKnows(e.left, f, o, d, g);
      ExprKnows(e.right, Tick(AnalyzeExpr(e.left, f, o).f), o, After(e.left, d), g);
    }
  }

  lemma {:induction false} RefineKnows(f: State, c: Expr, isElse: bool, d: set<nat>, g: nat -> Tag)
    requires Knows(f, d, g) && Agrees(c, isElse, g)
    ensures Knows(Refine(f, c, isElse), d, g)
    decreases c
  {
    match c
    case Prefix(LogicNot, arg) => RefineKnows(f, arg, !isElse, d, g);
    case LogicAnd(_, _, _, a, b) =>
      RefineKnows(f, a, isElse, d, g);
      RefineKnows(Refine(f, a, isElse), b, isElse, d, g);
    case _ =>
  }

  lemma MergeKnows(a: State, b: State, d: set<nat>, g: nat -> Tag)
    requires Knows(a, d, g) && Knows(b, d, g)
    ensures Knows(Merge(a, b), d, g)
  {
  }

  lemma ExitKnows(x: Option<Exit>, f: State, o: Oracle, d: set<nat>, g: nat -> Tag)
    requires Knows(f, d, g) && OkExit(x, d, g)
    ensures var r := AnalyzeExit(x, f, o); Knows(r.f, AfterExit(x, d), g) && NotedExit(r.x, g)
  {
    if x.Some? {
      var c, d1 := x.value.cond, After(x.value.cond, d);
      var r := AnalyzeExpr(c, f, o);
      var f1 := Tick(r.f);
      ExprKnows(c, f, o, d, g);
      CondStays(c, f, o, d, g);
      RefineKnows(f1, r.e, false, d1, g);
      RefineKnows(f1, r.e, true, d1, g);
      MergeKnows(Refine(f1, r.e, false), Refine(f1, r.e, true), d1, g);
    }
  }

  lemma {:induction false} StmtKnows(s: Stmt, f: State, o: Oracle, d: set<nat>, g: nat -> Tag)
    requires Knows(f, d, g) && OkStmt(s, d, g)
    ensures var r := AnalyzeStmt(s, f, o); Knows(r.f, Sure(s, d), g) && AllNoted(r.s, g)
    decreases Size(s), 2
  {
    match s
    case ExprStmt(e) => ExprKnows(e, f, o, d, g);
    case Define(_, init) => if init.Some? { ExprKnows(init.value, f, o, d, g); }
    case Block(list) => ListKnows(list, f, o, d, g);
    case If(_, _, _, _, _) => IfKnows(s, f, o, d, g);
    case Loop(_, _, _, _) =>
      var a := AnalyzePass(s, f, o);
      var b := AnalyzePass(a.s, a.f, o);
      PassKnows(s, f, o, d, g);
      PassKnows(a.s, a.f, o, d, g);
      PassKnows(b.s, b.f, o, d, g);
    case Return(e) => ExprKnows(e, f, o, d, g);
  }

  lemma {:induction false} ListKnows(l: StmtList, f: State, o: Oracle, d: set<nat>, g: nat -> Tag)
    requires Knows(f, d, g) && OkList(l, d, g)
    ensures var r := AnalyzeList(l, f, o); Knows(r.f, ListSure(l, d), g) && ListNoted(r.list, g)
    decreases ListSize(l), 3
  {
    if l.Then? {
      StmtKnows(l.entry, f, o, d, g);
      ListKnows(l.next, AnalyzeStmt(l.entry, f, o).f, o, Sure(l.entry, d), g);
    }
  }

  lemma IfKnows(s: Stmt, f: State, o: Oracle, d: set<nat>, g: nat -> Tag)
    requires s.If? && Knows(f, d, g) && OkStmt(s, d, g)
    ensures var r := AnalyzeIf(s, f, o); Knows(r.f, Sure(s, d), g) && AllNoted(r.s, g)
    decreases Size(s), 1
  {
    hide AnalyzeExpr, AnalyzeStmt, Refine, Merge, Noted, OkExpr, Agrees;
    var r := AnalyzeExpr(s.cond, f, o);
    var f1, d1 := Tick(r.f), After(s.cond, d);
    ExprKnows(s.cond, f, o, d, g);
    CondStays(s.cond, f, o, d, g);
    RefineKnows(f1, r.e, false, d1, g);
    RefineKnows(f1, r.e, true, d1, g);
    var guess := Guess(o, s.id, r.f);
    if guess.None? {
      BranchesKnow(s, f, o, d, g);
    } else if guess.value {
      StmtKnows(s.thn, Refine(f1, r.e, false), o, d1, g);
      KnowsLess(AnalyzeStmt(s.thn, Refine(f1, r.e, false), o).f, Sure(s.thn, d1), Sure(s, d), g);
    } else {
      StmtKnows(s.els, Refine(f1, r.e, true), o, d1, g);
      KnowsLess(AnalyzeStmt(s.els, Refine(f1, r.e, true), o).f, Sure(s.els, d1), Sure(s, d), g);
    }
  }

  /** Both branches of a condition that is not predicted. */
  lemma BranchesKnow(s: Stmt, f: State, o: Oracle, d: set<nat>, g: nat -> Tag)
    requires s.If? && Knows(f, d, g) && OkStmt(s, d, g)
    requires var r := AnalyzeExpr(s.cond, f, o);
      Guess(o, s.id, r.f).None? && Knows(r.f, After(s.cond, d), g) && Noted(r.e, g) && Agrees(r.e, false, g) && Agrees(r.e, true, g)
    ensures var r := AnalyzeIf(s, f, o); Knows(r.f, Sure(s, d), g) && AllNoted(r.s, g)
    decreases Size(s), 0
  {
    hide AnalyzeExpr, AnalyzeStmt, Refine, Merge, Noted, OkExpr, Agrees;
    var r := AnalyzeExpr(s.cond, f, o);
    var f1, d1 := Tick(r.f), After(s.cond, d);
    var ft := Refine(f1, r.e, false);
    RefineKnows(f1, r.e, false, d1, g);
    StmtKnows(s.thn, ft, o, d1, g);
    var a := AnalyzeStmt(s.thn, ft, o);
    var other := f1.(ticks := a.f.ticks);
    var fe := Refine(other, r.e, true);
    RefineKnows(other, r.e, true, d1, g);
    StmtKnows(s.els, fe, o, d1, g);
    var b := AnalyzeStmt(s.els, fe, o);
    KnowsLess(a.f, Sure(s.thn, d1), Sure(s, d), g);
    KnowsLess(b.f, Sure(s.els, d1), Sure(s, d), g);
    MergeKnows(a.f, b.f, Sure(s, d), g);
  }

  lemma PassKnows(s: Stmt, f: State, o: Oracle, d: set<nat>, g: nat -> Tag)
    requires s.Loop? && Knows(f, d, g) && OkStmt(s, d, g)
    ensures var r := AnalyzePass(s, f, o); Knows(r.f, d, g) && AllNoted(r.s, g) && OkStmt(r.s, d, g)
    decreases Size(s), 1
  {
    var d1 := AfterExit(s.head, d);
    var a := AnalyzeExit(s.head, f, o);
    var b := AnalyzeStmt(s.body, a.f, o);
    ExitKnows(s.head, f, o, d, g);
    StmtKnows(s.body, a.f, o, d1, g);
    ExitKnows(s.tail, b.f, o, Sure(s.body, d1), g);
    BodyStays(s, f, o, d, g);
    MergeKnows(AnalyzeBody(s, f, o).f, f, d, g);
  }

  // ---------- and they are the types at run time ----------

  /** Expressions whose type the tables always have. */
  predicate Tabled(e: Expr) {
    match e
    case Const(_) => true
    case Ident(_, _) => true
    case Assign(_, value) => Tabled(value)
    case Binary(op, left, right) => op != LogicXor && Tabled(left) && Tabled(right)
    case Prefix(un, arg) => un in {Plus, LogicNot, TypeOf, ToInt, ToFloat} && Tabled(arg)
    case LogicOr(_, _, _, left, right) => Tabled(left) && Tabled(right)
    case LogicAnd(_, _, _, left, right) => Tabled(left) && Tabled(right)
    case _ => false
  }

  ghost predicate Typed(st: Store, d: set<nat>, g: nat -> Tag) {
    forall x :: x in d ==> Read(st, x).tag == g(x)
  }

  /** Wherever such an expression has a value, that has the type which the rules give, and the variables keep theirs. */
  lemma {:induction false} RunsTyped(e: Expr, st: Store, w: World, d: set<nat>, g: nat -> Tag)
    requires Tabled(e) && OkExpr(e, d, g) && Typed(st, d, g)
    ensures var r := Eval(e, st, w);
      r.Value? ==> TypeIn(e, g) == Some(r.v.tag) && Typed(r.st, After(e, d), g)
    decreases e, 1
  {
    match e
    case Assign(_, value) => RunsTyped(value, st, w, d, g);
    case Prefix(_, arg) => RunsTyped(arg, st, w, d, g);
    case Binary(_, left, right) => BothTyped(e, left, right, st, w, d, g);
    case LogicOr(_, _, _, left, right) => BothTyped(e, left, right, st, w, d, g);
    case LogicAnd(_, _, _, left, right) => BothTyped(e, left, right, st, w, d, g);
    case _ =>
  }

  lemma BothTyped(e: Expr, left: Expr, right: Expr, st: Store, w: World, d: set<nat>, g: nat -> Tag)
    requires left < e && right < e
    requires Tabled(left) && Tabled(right) && OkExpr(left, d, g) && OkExpr(right, After(left, d), g) && Typed(st, d, g)
    ensures var a := Eval(left, st, w);
      a.Value? ==>
        && TypeIn(left, g) == Some(a.v.tag) && Typed(a.st, After(left, d), g)
        && var b := Eval(right, a.st, w);
        b.Value? ==> TypeIn(right, g) == Some(b.v.tag) && Typed(b.st, After(right, After(left, d)), g)
    decreases e, 0
  {
    RunsTyped(left, st, w, d, g);
    var a := Eval(left, st, w);
    if a.Value? {
      RunsTyped(right, a.st, w, After(left, d), g);
    }
  }

  /** In a program whose variables have one type each, are surely assigned before they are read, and are tested
      for no other type, the analysis records the type of every variable, whatever it predicts of conditions. */
  lemma TypesFound(s: Stmt, o: Oracle, g: nat -> Tag)
    requires OkStmt(s, {}, g)
    ensures AllNoted(Analyze(s, o), g)
  {
    var r := AnalyzeStmt(s, START, o);
    StmtStays(s, START, o, {}, g);
    StmtKnows(r.s, r.f.(dry := false, dead := false), o, {}, g);
  }
}
