/** Type prediction is sound: a type recorded at an identifier is its type in every execution. */
module FlowSound {
  import opened Basics
  import opened Flow

  // ---------- the variables that the dry run finds ----------

  function TouchedExpr(e: Expr, o: Oracle): set<nat> {
    match e
    case Assign(x, value) => {x} + TouchedExpr(value, o)
    case Binary(_, a, b) => TouchedExpr(a, o) + TouchedExpr(b, o)
    case Prefix(_, a) => TouchedExpr(a, o)
    case LogicOr(id, _, _, a, b) => TouchedExpr(a, o) + if o.constant(id) == Some(true) then {} else TouchedExpr(b, o)
    case LogicAnd(id, _, _, a, b) => TouchedExpr(a, o) + if o.constant(id) == Some(false) then {} else TouchedExpr(b, o)
    case Ternary(_, _, _, _, c, t, n) => TouchedExpr(c, o) + TouchedExpr(t, o) + TouchedExpr(n, o)
    case _ => {}
  }

  /** The variables a side of a condition refines. */
  function Refined(c: Expr, isElse: bool): set<nat> {
    Teaches(c, isElse).Keys
  }

  function TouchedExit(x: Option<Exit>, o: Oracle): set<nat> {
    if x.None? then {} else TouchedExpr(x.value.cond, o) + SidesTouched(x.value.cond, o.constant(x.value.id))
  }

  function SidesTouched(c: Expr, g: Option<bool>): set<nat> {
    if g.Some? then Refined(c, !g.value) else Refined(c, false) + Refined(c, true)
  }

  function Touched(s: Stmt, o: Oracle): set<nat> {
    match s
    case ExprStmt(e) => TouchedExpr(e, o)
    case Define(x, init) => {x} + if init.Some? then TouchedExpr(init.value, o) else {}
    case Block(list) => ListTouched(list, o)
    case If(id, _, c, thn, els) =>
      TouchedExpr(c, o) + SidesTouched(c, o.constant(id))
      + (if o.constant(id) == Some(false) then {} else Touched(thn, o))
      + (if o.constant(id) == Some(true) then {} else Touched(els, o))
    case Loop(head, body, tail, _) => TouchedExit(head, o) + Touched(body, o) + TouchedExit(tail, o)
    case Return(e) => TouchedExpr(e, o)
  }

  function ListTouched(l: StmtList, o: Oracle): set<nat> {
    match l
    case Done => {}
    case Then(s, next) => Touched(s, o) + ListTouched(next, o)
  }

  // ---------- the analysis changes notes only ----------

  lemma {:induction false} KeepsExpr(e: Expr, f: State, o: Oracle)
    ensures var r := AnalyzeExpr(e, f, o);
      && TouchedExpr(r.e, o) == TouchedExpr(e, o)
      && r.e.Ident? == e.Ident? && (e.Ident? ==> r.e.x == e.x) && IsTypeOf(r.e) == IsTypeOf(e)
      && r.e.Const? == e.Const? && (e.Const? ==> r.e == e)
      && (e.Prefix? ==> r.e.Prefix? && r.e.un == e.un && r.e.arg.Ident? == e.arg.Ident? && (e.arg.Ident? ==> r.e.arg.x == e.arg.x))
  {
    match e
    case Assign(_, value) => KeepsExpr(value, f, o);
    case Binary(_, a, b) => KeepsExpr(a, f, o); KeepsExpr(b, AnalyzeExpr(a, f, o).f, o);
    case Prefix(_, a) => KeepsExpr(a, f, o);
    case LogicOr(_, _, _, a, b) => KeepsExpr(a, f, o); KeepsExpr(b, Tick(AnalyzeExpr(a, f, o).f), o);
    case LogicAnd(_, _, _, a, b) => KeepsExpr(a, f, o); KeepsExpr(b, Tick(AnalyzeExpr(a, f, o).f), o);
    case Ternary(_, _, _, _, c, t, n) =>
      KeepsExpr(c, f, o);
      var f1 := Tick(AnalyzeExpr(c, f, o).f);
      KeepsExpr(t, f1, o);
      KeepsExpr(n, AnalyzeExpr(t, f1, o).f, o);
    case _ =>
  }

  lemma {:induction false} KeepsCond(c: Expr, f: State, o: Oracle, isElse: bool)
    ensures var r := AnalyzeExpr(c, f, o); Teaches(r.e, isElse) == Teaches(c, isElse)
    decreases c
  {
    match c
    case Prefix(un, arg) => KeepsCond(arg, f, o, !isElse);
    case Binary(op, a, b) =>
      KeepsExpr(a, f, o);
      KeepsExpr(b, AnalyzeExpr(a, f, o).f, o);
    case LogicAnd(_, _, _, a, b) =>
      KeepsCond(a, f, o, isElse);
      KeepsCond(b, Tick(AnalyzeExpr(a, f, o).f), o, isElse);
    case _ =>
  }

  lemma KeepsExit(x: Option<Exit>, f: State, o: Oracle)
    ensures var r := AnalyzeExit(x, f, o);
      r.x.Some? == x.Some? && TouchedExit(r.x, o) == TouchedExit(x, o)
  {
    if x.Some? {
      KeepsExpr(x.value.cond, f, o);
      KeepsCond(x.value.cond, f, o, false);
      KeepsCond(x.value.cond, f, o, true);
    }
  }

  lemma {:induction false} KeepsStmt(s: Stmt, f: State, o: Oracle)
    ensures var r := AnalyzeStmt(s, f, o); Touched(r.s, o) == Touched(s, o)
    decreases Size(s), 2
  {
    match s
    case ExprStmt(e) => KeepsExpr(e, f, o);
    case Define(_, init) => if init.Some? { KeepsExpr(init.value, f, o); }
    case Block(list) => KeepsList(list, f, o);
    case If(_, _, _, _, _) => KeepsIf(s, f, o);
    case Loop(_, _, _, _) =>
      if f.dry {
        KeepsBody(s, f, o);
      } else {
        var a := AnalyzePass(s, f, o);
        var b := AnalyzePass(a.s, a.f, o);
        KeepsBody(s, f, o);
        KeepsBody(a.s, a.f, o);
        KeepsBody(b.s, b.f, o);
      }
    case Return(e) => KeepsExpr(e, f, o);
  }

  lemma {:induction false} KeepsList(l: StmtList, f: State, o: Oracle)
    ensures var r := AnalyzeList(l, f, o); ListTouched(r.list, o) == ListTouched(l, o)
    decreases ListSize(l), 3
  {
    if l.Then? {
      KeepsStmt(l.entry, f, o);
      KeepsList(l.next, AnalyzeStmt(l.entry, f, o).f, o);
    }
  }

  lemma KeepsIf(s: Stmt, f: State, o: Oracle)
    requires s.If?
    ensures var r := AnalyzeIf(s, f, o); Touched(r.s, o) == Touched(s, o)
    decreases Size(s), 1
  {
    var r := AnalyzeExpr(s.cond, f, o);
    var f1 := Tick(r.f);
    KeepsExpr(s.cond, f, o);
    KeepsCond(s.cond, f, o, false);
    KeepsCond(s.cond, f, o, true);
    KeepsStmt(s.thn, Refine(f1, r.e, false), o);
    var a := AnalyzeStmt(s.thn, Refine(f1, r.e, false), o);
    var other := if f.dry then a.f else f1.(ticks := a.f.ticks);
    KeepsStmt(s.els, Refine(other, r.e, true), o);
    KeepsStmt(s.els, Refine(f1, r.e, true), o);
  }

  lemma KeepsBody(s: Stmt, f: State, o: Oracle)
    requires s.Loop?
    ensures var r := AnalyzeBody(s, f, o); Touched(r.s, o) == Touched(s, o)
    decreases Size(s), 0
  {
    var a := AnalyzeExit(s.head, f, o);
    KeepsExit(s.head, f, o);
    KeepsStmt(s.body, a.f, o);
    KeepsExit(s.tail, AnalyzeStmt(s.body, a.f, o).f, o);
  }

  // ---------- the known variables stay the same after the dry run ----------

  /** `after` comes from analysing code that touches `t` in state `f`. */
  predicate SameVars(f: State, after: State, t: set<nat>) {
    && after.dry == f.dry
    && (f.dry ==> after.preds.Keys == f.preds.Keys + t)
    && (!f.dry && t <= f.preds.Keys ==> after.preds.Keys == f.preds.Keys)
  }

  lemma {:induction false} VarsExpr(e: Expr, f: State, o: Oracle)
    ensures var r := AnalyzeExpr(e, f, o); SameVars(f, r.f, TouchedExpr(e, o)) && r.f.dead == f.dead
    decreases e, 1
  {
    match e
    case Assign(_, value) => VarsExpr(value, f, o);
    case Binary(_, a, b) => VarsExpr(a, f, o); VarsExpr(b, AnalyzeExpr(a, f, o).f, o);
    case Prefix(_, a) => VarsExpr(a, f, o);
    case LogicOr(_, _, _, _, _) => VarsShort(e, f, o);
    case LogicAnd(_, _, _, _, _) => VarsShort(e, f, o);
    case Ternary(_, _, _, _, c, t, n) =>
      VarsExpr(c, f, o);
      var f1 := Tick(AnalyzeExpr(c, f, o).f);
      VarsExpr(t, f1, o);
      VarsExpr(n, AnalyzeExpr(t, f1, o).f, o);
    case _ =>
  }

  lemma VarsShort(e: Expr, f: State, o: Oracle)
    requires e.LogicOr? || e.LogicAnd?
    ensures var r := AnalyzeExpr(e, f, o); SameVars(f, r.f, TouchedExpr(e, o)) && r.f.dead == f.dead
    decreases e, 0
  {
    hide Entails;
    VarsExpr(e.left, f, o);
    VarsExpr(e.right, Tick(AnalyzeExpr(e.left, f, o).f), o);
  }

  lemma {:induction false} VarsRefine(f: State, c: Expr, isElse: bool)
    ensures var r := Refine(f, c, isElse);
      SameVars(f, r, Refined(c, isElse)) && r.dead == f.dead && r.ticks == f.ticks
    decreases c
  {
    match c
    case Prefix(LogicNot, arg) => VarsRefine(f, arg, !isElse);
    case LogicAnd(_, _, _, a, b) => VarsRefine(f, a, isElse); VarsRefine(Refine(f, a, isElse), b, isElse);
    case _ =>
  }

  lemma MergeVars(a: State, b: State, keys: set<nat>)
    requires a.dry == b.dry && a.preds.Keys == b.preds.Keys == keys
    ensures Merge(a, b).preds.Keys == keys && Merge(a, b).dry == a.dry
  {
  }

  lemma VarsExit(x: Option<Exit>, f: State, o: Oracle)
    ensures var r := AnalyzeExit(x, f, o); SameVars(f, r.f, TouchedExit(x, o)) && (f.dry ==> r.f.dead == f.dead)
  {
    if x.Some? {
      var c := x.value.cond;
      var r := AnalyzeExpr(c, f, o);
      var f1 := Tick(r.f);
      VarsExpr(c, f, o);
      KeepsCond(c, f, o, false);
      KeepsCond(c, f, o, true);
      VarsRefine(f1, r.e, false);
      VarsRefine(f1, r.e, true);
      VarsRefine(Refine(f1, r.e, false), r.e, true);
      if !f.dry && TouchedExit(x, o) <= f.preds.Keys && Guess(o, x.value.id, r.f).None? {
        MergeVars(Refine(f1, r.e, false), Refine(f1, r.e, true), f.preds.Keys);
      }
    }
  }

  lemma {:induction false} VarsStmt(s: Stmt, f: State, o: Oracle)
    ensures SameVars(f, AnalyzeStmt(s, f, o).f, Touched(s, o))
    decreases Size(s), 2
  {
    match s
    case ExprStmt(e) => VarsExpr(e, f, o);
    case Define(_, init) => if init.Some? { VarsExpr(init.value, f, o); }
    case Block(list) => VarsList(list, f, o);
    case If(_, _, _, _, _) => VarsIf(s, f, o);
    case Loop(_, _, _, _) =>
      if f.dry {
        VarsBody(s, f, o);
      } else {
        var a := AnalyzePass(s, f, o);
        var b := AnalyzePass(a.s, a.f, o);
        VarsPass(s, f, o);
        KeepsBody(s, f, o);
        VarsPass(a.s, a.f, o);
        KeepsBody(a.s, a.f, o);
        VarsPass(b.s, b.f, o);
      }
    case Return(e) => VarsExpr(e, f, o);
  }

  lemma {:induction false} VarsList(l: StmtList, f: State, o: Oracle)
    ensures SameVars(f, AnalyzeList(l, f, o).f, ListTouched(l, o))
    decreases ListSize(l), 3
  {
    if l.Then? {
      VarsStmt(l.entry, f, o);
      VarsList(l.next, AnalyzeStmt(l.entry, f, o).f, o);
    }
  }

  lemma VarsIf(s: Stmt, f: State, o: Oracle)
    requires s.If?
    ensures SameVars(f, AnalyzeIf(s, f, o).f, Touched(s, o))
    decreases Size(s), 1
  {
    hide AnalyzeExpr, AnalyzeStmt, Refine, MergeMaps, Teaches;
    var r := AnalyzeExpr(s.cond, f, o);
    var g := Guess(o, s.id, r.f);
    var f1 := Tick(r.f);
    VarsExpr(s.cond, f, o);
    KeepsCond(s.cond, f, o, g == Some(false));
    VarsRefine(f1, r.e, g == Some(false));
    if g.None? {
      VarsBranches(s, f, o);
    } else if g.value {
      VarsStmt(s.thn, Refine(f1, r.e, false), o);
    } else {
      VarsStmt(s.els, Refine(f1, r.e, true), o);
    }
  }

  /** Both branches of a condition that is not predicted. */
  lemma VarsBranches(s: Stmt, f: State, o: Oracle)
    requires s.If? && Guess(o, s.id, AnalyzeExpr(s.cond, f, o).f).None?
    ensures SameVars(f, AnalyzeIf(s, f, o).f, Touched(s, o))
    decreases Size(s), 0
  {
    hide AnalyzeExpr, AnalyzeStmt, Refine, MergeMaps, Teaches;
    var r := AnalyzeExpr(s.cond, f, o);
    var f1 := Tick(r.f);
    var ft := Refine(f1, r.e, false);
    var a := AnalyzeStmt(s.thn, ft, o);
    var other := if f.dry then a.f else f1.(ticks := a.f.ticks);
    var fe := Refine(other, r.e, true);
    var b := AnalyzeStmt(s.els, fe, o);
    VarsExpr(s.cond, f, o);
    KeepsCond(s.cond, f, o, false);
    KeepsCond(s.cond, f, o, true);
    VarsRefine(f1, r.e, false);
    VarsStmt(s.thn, ft, o);
    VarsRefine(other, r.e, true);
    VarsStmt(s.els, fe, o);
    if !f.dry && Touched(s, o) <= f.preds.Keys {
      MergeVars(a.f, b.f, f.preds.Keys);
    }
  }

  lemma VarsBody(s: Stmt, f: State, o: Oracle)
    requires s.Loop?
    ensures SameVars(f, AnalyzeBody(s, f, o).f, Touched(s, o))
    decreases Size(s), 0
  {
    var a := AnalyzeExit(s.head, f, o);
    var b := AnalyzeStmt(s.body, a.f, o);
    VarsExit(s.head, f, o);
    VarsStmt(s.body, a.f, o);
    VarsExit(s.tail, b.f, o);
  }

  lemma VarsPass(s: Stmt, f: State, o: Oracle)
    requires s.Loop? && !f.dry
    ensures SameVars(f, AnalyzePass(s, f, o).f, Touched(s, o))
    decreases Size(s), 1
  {
    VarsBody(s, f, o);
    if Touched(s, o) <= f.preds.Keys {
      MergeVars(AnalyzeBody(s, f, o).f, f, f.preds.Keys);
    }
  }

  /** A dry run learns nothing. */
  predicate Blank(f: State) {
    f.dry && forall x :: x in f.preds ==> f.preds[x] == UNKNOWN
  }

  lemma {:induction false} BlankExpr(e: Expr, f: State, o: Oracle)
    requires Blank(f)
    ensures Blank(AnalyzeExpr(e, f, o).f)
  {
    match e
    case Assign(_, value) => BlankExpr(value, f, o);
    case Binary(_, a, b) => BlankExpr(a, f, o); BlankExpr(b, AnalyzeExpr(a, f, o).f, o);
    case Prefix(_, a) => BlankExpr(a, f, o);
    case LogicOr(_, _, _, a, b) => BlankExpr(a, f, o); BlankExpr(b, Tick(AnalyzeExpr(a, f, o).f), o);
    case LogicAnd(_, _, _, a, b) => BlankExpr(a, f, o); BlankExpr(b, Tick(AnalyzeExpr(a, f, o).f), o);
    case Ternary(_, _, _, _, c, t, n) =>
      BlankExpr(c, f, o);
      var f1 := Tick(AnalyzeExpr(c, f, o).f);
      BlankExpr(t, f1, o);
      BlankExpr(n, AnalyzeExpr(t, f1, o).f, o);
    case _ =>
  }

  lemma {:induction false} BlankRefine(f: State, c: Expr, isElse: bool)
    requires Blank(f)
    ensures Blank(Refine(f, c, isElse))
    decreases c
  {
    match c
    case Prefix(LogicNot, arg) => BlankRefine(f, arg, !isElse);
    case LogicAnd(_, _, _, a, b) => BlankRefine(f, a, isElse); BlankRefine(Refine(f, a, isElse), b, isElse);
    case _ =>
  }

  lemma BlankExit(x: Option<Exit>, f: State, o: Oracle)
    requires Blank(f)
    ensures Blank(AnalyzeExit(x, f, o).f)
  {
    if x.Some? {
      var r := AnalyzeExpr(x.value.cond, f, o);
      var f1 := Tick(r.f);
      BlankExpr(x.value.cond, f, o);
      BlankRefine(f1, r.e, false);
      BlankRefine(f1, r.e, true);
      BlankRefine(Refine(f1, r.e, false), r.e, true);
    }
  }

  lemma {:induction false} BlankStmt(s: Stmt, f: State, o: Oracle)
    requires Blank(f)
    ensures Blank(AnalyzeStmt(s, f, o).f)
    decreases Size(s), 2
  {
    match s
    case ExprStmt(e) => BlankExpr(e, f, o);
    case Define(_, init) => if init.Some? { BlankExpr(init.value, f, o); }
    case Block(list) => BlankList(list, f, o);
    case If(_, _, c, thn, els) =>
      var r := AnalyzeExpr(c, f, o);
      var f1 := Tick(r.f);
      BlankExpr(c, f, o);
      BlankRefine(f1, r.e, false);
      BlankRefine(f1, r.e, true);
      BlankStmt(thn, Refine(f1, r.e, false), o);
      var a := AnalyzeStmt(thn, Refine(f1, r.e, false), o);
      BlankRefine(a.f, r.e, true);
      BlankStmt(els, Refine(a.f, r.e, true), o);
      BlankStmt(els, Refine(f1, r.e, true), o);
    case Loop(head, body, tail, _) =>
      BlankExit(head, f, o);
      BlankStmt(body, AnalyzeExit(head, f, o).f, o);
      BlankExit(tail, AnalyzeStmt(body, AnalyzeExit(head, f, o).f, o).f, o);
    case Return(e) => BlankExpr(e, f, o);
  }

  lemma {:induction false} BlankList(l: StmtList, f: State, o: Oracle)
    requires Blank(f)
    ensures Blank(AnalyzeList(l, f, o).f)
    decreases ListSize(l), 3
  {
    if l.Then? {
      BlankStmt(l.entry, f, o);
      BlankList(l.next, AnalyzeStmt(l.entry, f, o).f, o);
    }
  }

  // ---------- what a state of the analysis says about a store ----------

  predicate Describes(p: Pred, tag: int) {
    (p.ty.Some? ==> p.ty.value == tag) && (p.meta.Some? ==> p.meta.value == tag)
  }

  /** Control can get here with store `st`, and all that is known of the variables is true. */
  ghost predicate Holds(f: State, st: Store) {
    !f.dead && forall x :: x in f.preds ==> Describes(f.preds[x], Read(st, x).tag)
  }

  lemma HoldsMerge(a: State, b: State, st: Store)
    requires !a.dry && !b.dry && a.preds.Keys == b.preds.Keys && (Holds(a, st) || Holds(b, st))
    ensures Holds(Merge(a, b), st)
  {
  }

  lemma HoldsWrite(f: State, x: nat, p: Pred, st: Store, v: Val)
    requires Holds(f, st) && Describes(p, v.tag)
    ensures Holds(Put(f, x, p), Write(st, x, v))
  {
  }

  /** Where a stronger state describes the store, a weaker one does. */
  lemma EntailsHolds(strong: State, weak: State, st: Store)
    requires !strong.dry && Entails(strong, weak) && Holds(strong, st) && !weak.dead
    ensures Holds(weak, st)
  {
  }

  // ---------- soundness ----------

  lemma BinarySound(op: Op, a: Pred, b: Pred, folded: bool, x: Val, y: Val)
    requires Describes(a, x.tag) && Describes(b, y.tag) && ResultType(op, x.tag, y.tag).Some?
    ensures Describes(BinaryPred(op, a, b, folded), ResultType(op, x.tag, y.tag).value)
  {
  }

  lemma {:induction false} ExprSound(e: Expr, f: State, o: Oracle, st: Store, w: World)
    requires !f.dry && w.wary && Holds(f, st)
    ensures var r := AnalyzeExpr(e, f, o);
      var x := Eval(r.e, st, w);
      x != Ends(Bad) && (x.Value? ==> Holds(r.f, x.st) && Describes(r.p, x.v.tag))
    decreases e, 1
  {
    match e
    case Const(_) =>
    case Input(_) =>
    case Ident(_, _) =>
    case Assign(x, value) =>
      ExprSound(value, f, o, st, w);
      var r := AnalyzeExpr(value, f, o);
      VarsExpr(value, f, o);
      var q := Eval(r.e, st, w);
      if q.Value? { HoldsWrite(r.f, x, r.p, q.st, q.v); }
    case Prefix(_, a) => ExprSound(a, f, o, st, w);
    case Binary(op, a, b) =>
      ExprSound(a, f, o, st, w);
      VarsExpr(a, f, o);
      var r := AnalyzeExpr(a, f, o);
      var x := Eval(r.e, st, w);
      if x.Value? {
        ExprSound(b, r.f, o, x.st, w);
        var q := AnalyzeExpr(b, r.f, o);
        var y := Eval(q.e, x.st, w);
        if y.Value? && ResultType(op, x.v.tag, y.v.tag).Some? {
          BinarySound(op, r.p, q.p, o.folded(q.f.ticks), x.v, y.v);
        }
      }
    case LogicOr(_, _, _, a, b) => ShortCircuitSound(e, f, o, st, w);
    case LogicAnd(_, _, _, a, b) => ShortCircuitSound(e, f, o, st, w);
    case Ternary(_, _, _, _, _, _, _) => TernarySound(e, f, o, st, w);
  }

  lemma TernarySound(e: Expr, f: State, o: Oracle, st: Store, w: World)
    requires e.Ternary? && !f.dry && w.wary && Holds(f, st)
    ensures var r := AnalyzeExpr(e, f, o);
      var x := Eval(r.e, st, w);
      x != Ends(Bad) && (x.Value? ==> Holds(r.f, x.st) && Describes(r.p, x.v.tag))
    decreases e, 0
  {
    var c, t, n := e.cond, e.whenTrue, e.whenFalse;
    ExprSound(c, f, o, st, w);
    VarsExpr(c, f, o);
    var a := AnalyzeExpr(c, f, o);
    var f1 := Tick(a.f);
    var b := AnalyzeExpr(t, f1, o);
    var d := AnalyzeExpr(n, b.f, o);
    VarsExpr(t, f1, o);
    VarsExpr(n, b.f, o);
    var x := Eval(a.e, st, w);
    if x.Value? {
      if Truthy(x.v, w) {
        ExprSound(t, f1, o, x.st, w);
        var y := Eval(b.e, x.st, w);
        if y.Value? && Entails(b.f, d.f) { EntailsHolds(b.f, d.f, y.st); }
      } else if Entails(f1, b.f) {
        EntailsHolds(f1, b.f, x.st);
        ExprSound(n, b.f, o, x.st, w);
      }
    }
  }

  lemma ShortCircuitSound(e: Expr, f: State, o: Oracle, st: Store, w: World)
    requires (e.LogicOr? || e.LogicAnd?) && !f.dry && w.wary && Holds(f, st)
    ensures var r := AnalyzeExpr(e, f, o);
      var x := Eval(r.e, st, w);
      x != Ends(Bad) && (x.Value? ==> Holds(r.f, x.st) && Describes(r.p, x.v.tag))
    decreases e, 0
  {
    ExprSound(e.left, f, o, st, w);
    VarsExpr(e.left, f, o);
    var r := AnalyzeExpr(e.left, f, o);
    var f1 := Tick(r.f);
    var b := AnalyzeExpr(e.right, f1, o);
    VarsExpr(e.right, f1, o);
    var x := Eval(r.e, st, w);
    if x.Value? {
      if Truthy(x.v, w) == e.LogicOr? {
        if Entails(f1, b.f) { EntailsHolds(f1, b.f, x.st); }
      } else {
        ExprSound(e.right, f1, o, x.st, w);
      }
    }
  }

  /** Refining by a condition changes what is known of the variables it tests: to the type it teaches. */
  lemma {:induction false} RefineFacts(f: State, c: Expr, isElse: bool, x: nat)
    requires !f.dry
    ensures var r, m := Refine(f, c, isElse), Teaches(c, isElse);
      && !r.dry && r.dead == f.dead && (x in r.preds <==> x in f.preds || x in m)
      && (x in m ==> r.preds[x].ty == Some(m[x]) && (r.preds[x].meta.Some? ==> r.preds[x].meta.value == m[x]))
      && (x in f.preds && x !in m ==> r.preds[x] == f.preds[x])
    decreases c
  {
    match c
    case Prefix(LogicNot, arg) => RefineFacts(f, arg, !isElse, x);
    case LogicAnd(_, _, _, a, b) =>
      RefineFacts(f, a, isElse, x);
      RefineFacts(Refine(f, a, isElse), b, isElse, x);
    case _ =>
  }

  /** The refined state describes a store that the state described exactly if what the side of the condition
      teaches is true of it. */
  lemma RefineExact(f: State, c: Expr, isElse: bool, st: Store)
    requires !f.dry && Holds(f, st)
    ensures Holds(Refine(f, c, isElse), st) <==> Taught(c, isElse, st)
  {
    hide Refine, Teaches;
    var r, m := Refine(f, c, isElse), Teaches(c, isElse);
    RefineFacts(f, c, isElse, 0);
    if Taught(c, isElse, st) {
      forall x | x in r.preds ensures Describes(r.preds[x], Read(st, x).tag) {
        RefineFacts(f, c, isElse, x);
      }
    } else {
      var x :| x in m && Read(st, x).tag != m[x];
      RefineFacts(f, c, isElse, x);
      assert !Describes(r.preds[x], Read(st, x).tag);
    }
  }

  /** Both sides of a condition, at the state after it was evaluated. */
  lemma CondSound(c: Expr, f: State, o: Oracle, st: Store, w: World)
    requires !f.dry && w.wary && Holds(f, st)
    ensures var r := AnalyzeExpr(c, f, o);
      var x := Eval(r.e, st, w);
      && x != Ends(Bad)
      && (x.Value? ==> Holds(r.f, x.st))
      && (x.Value? && Trusted(r.e, !Truthy(x.v, w), x.st, w) ==> Holds(Refine(Tick(r.f), r.e, !Truthy(x.v, w)), x.st))
  {
    ExprSound(c, f, o, st, w);
    VarsExpr(c, f, o);
    var r := AnalyzeExpr(c, f, o);
    var x := Eval(r.e, st, w);
    if x.Value? {
      RefineExact(Tick(r.f), r.e, !Truthy(x.v, w), x.st);
    }
  }

  lemma ExitSound(x: Option<Exit>, f: State, o: Oracle, st: Store, w: World)
    requires !f.dry && w.wary && Holds(f, st) && TouchedExit(x, o) <= f.preds.Keys
    ensures var r := AnalyzeExit(x, f, o);
      var y := ExecExit(r.x, st, w);
      && y != Stopped(Bad) && !y.Returned? && !y.Timeout?
      && (y.Normal? || y.Broke? ==> Holds(r.f, y.st))
  {
    if x.Some? {
      var c := x.value.cond;
      CondSound(c, f, o, st, w);
      var r := AnalyzeExpr(c, f, o);
      var f1 := Tick(r.f);
      VarsExpr(c, f, o);
      KeepsCond(c, f, o, false);
      KeepsCond(c, f, o, true);
      VarsRefine(f1, r.e, false);
      VarsRefine(f1, r.e, true);
      var y := Eval(r.e, st, w);
      if y.Value? && Guess(o, x.value.id, r.f).None? && Trusted(r.e, !Truthy(y.v, w), y.st, w) {
        HoldsMerge(Refine(f1, r.e, false), Refine(f1, r.e, true), y.st);
      }
    }
  }

  /** Main result for statements: from a store that the analysis describes, no recorded type is wrong, and
      the store at the end is described. */
  lemma {:induction false} StmtSound(s: Stmt, f: State, o: Oracle, st: Store, w: World, fuel: nat)
    requires !f.dry && w.wary && Holds(f, st) && Touched(s, o) <= f.preds.Keys
    ensures var r := AnalyzeStmt(s, f, o);
      var x := Exec(r.s, st, w, fuel);
      x != Stopped(Bad) && !x.Broke? && (x.Normal? ==> Holds(r.f, x.st))
    decreases Size(s), 2, fuel
  {
    match s
    case ExprStmt(e) => ExprSound(e, f, o, st, w);
    case Define(x, init) =>
      if init.None? {
        HoldsWrite(f, x, UNKNOWN, st, Val(0, UNDEFINED));
      } else {
        ExprSound(init.value, f, o, st, w);
        VarsExpr(init.value, f, o);
        var r := AnalyzeExpr(init.value, f, o);
        var q := Eval(r.e, st, w);
        if q.Value? { HoldsWrite(r.f, x, r.p, q.st, q.v); }
      }
    case Block(list) => ListSound(list, f, o, st, w, fuel);
    case If(_, _, _, _, _) => IfSound(s, f, o, st, w, fuel);
    case Loop(_, _, _, _) => LoopSound(s, f, o, st, w, fuel);
    case Return(e) => ExprSound(e, f, o, st, w);
  }

  lemma {:induction false} ListSound(l: StmtList, f: State, o: Oracle, st: Store, w: World, fuel: nat)
    requires !f.dry && w.wary && Holds(f, st) && ListTouched(l, o) <= f.preds.Keys
    ensures var r := AnalyzeList(l, f, o);
      var x := ExecList(r.list, st, w, fuel);
      x != Stopped(Bad) && !x.Broke? && (x.Normal? ==> Holds(r.f, x.st))
    decreases ListSize(l), 3, fuel
  {
    if l.Then? {
      var r := AnalyzeStmt(l.entry, f, o);
      StmtSound(l.entry, f, o, st, w, fuel);
      VarsStmt(l.entry, f, o);
      var x := Exec(r.s, st, w, fuel);
      if x.Normal? { ListSound(l.next, r.f, o, x.st, w, fuel); }
    }
  }

  lemma IfSound(s: Stmt, f: State, o: Oracle, st: Store, w: World, fuel: nat)
    requires s.If? && !f.dry && w.wary && Holds(f, st) && Touched(s, o) <= f.preds.Keys
    ensures var r := AnalyzeIf(s, f, o);
      var x := Exec(r.s, st, w, fuel);
      x != Stopped(Bad) && !x.Broke? && (x.Normal? ==> Holds(r.f, x.st))
    decreases Size(s), 1, fuel
  {
    hide AnalyzeExpr, AnalyzeStmt, Refine, Merge, Holds, Trusted, Eval;
    var r := AnalyzeExpr(s.cond, f, o);
    var g, f1 := Guess(o, s.id, r.f), Tick(r.f);
    var x := Eval(r.e, st, w);
    CondSound(s.cond, f, o, st, w);
    IfVars(s, f, o);
    var ft := Refine(f1, r.e, false);
    var a := AnalyzeStmt(s.thn, ft, o);
    var fe := Refine(if g.Some? then f1 else f1.(ticks := a.f.ticks), r.e, true);
    var b := AnalyzeStmt(s.els, fe, o);
    if x.Value? && !Missed(g, Truthy(x.v, w)) && Trusted(r.e, !Truthy(x.v, w), x.st, w) {
      if Truthy(x.v, w) {
        StmtSound(s.thn, ft, o, x.st, w, fuel);
        var y := Exec(a.s, x.st, w, fuel);
        if y.Normal? && g.None? { HoldsJoin(a.f, b.f, y.st); }
      } else {
        HoldsTicks(Refine(f1, r.e, true), a.f.ticks, x.st);
        StmtSound(s.els, fe, o, x.st, w, fuel);
        var y := Exec(b.s, x.st, w, fuel);
        if y.Normal? && g.None? { HoldsJoin(a.f, b.f, y.st); }
      }
    }
  }

  lemma HoldsTicks(f: State, ticks: nat, st: Store)
    requires Holds(f, st)
    ensures Holds(f.(ticks := ticks), st)
  {
  }

  lemma HoldsJoin(a: State, b: State, st: Store)
    requires !a.dry && !b.dry && a.preds.Keys == b.preds.Keys && (Holds(a, st) || Holds(b, st))
    ensures Holds(Merge(a, b).(ticks := b.ticks), st)
  {
    HoldsMerge(a, b, st);
    HoldsTicks(Merge(a, b), b.ticks, st);
  }

  /** Both branches are analysed with the same known variables. */
  lemma IfVars(s: Stmt, f: State, o: Oracle)
    requires s.If? && !f.dry && Touched(s, o) <= f.preds.Keys
    ensures var r := AnalyzeExpr(s.cond, f, o);
      var g, f1 := Guess(o, s.id, r.f), Tick(r.f);
      var ft := Refine(f1, r.e, false);
      var a := AnalyzeStmt(s.thn, ft, o);
      var fe := Refine(if g.Some? then f1 else f1.(ticks := a.f.ticks), r.e, true);
      var b := AnalyzeStmt(s.els, fe, o);
      && (g != Some(false) ==> !ft.dry && ft.preds.Keys == f.preds.Keys && Touched(s.thn, o) <= ft.preds.Keys)
      && (g != Some(true) ==> !fe.dry && fe.preds.Keys == f.preds.Keys && Touched(s.els, o) <= fe.preds.Keys)
      && (g.None? ==> !a.f.dry && !b.f.dry && a.f.preds.Keys == b.f.preds.Keys == f.preds.Keys)
      && (g.None? ==> fe == Refine(f1, r.e, true).(ticks := a.f.ticks))
  {
    hide AnalyzeExpr, AnalyzeStmt, Refine, Merge, Teaches;
    var r := AnalyzeExpr(s.cond, f, o);
    var g, f1 := Guess(o, s.id, r.f), Tick(r.f);
    VarsExpr(s.cond, f, o);
    KeepsCond(s.cond, f, o, false);
    KeepsCond(s.cond, f, o, true);
    var ft := Refine(f1, r.e, false);
    VarsRefine(f1, r.e, false);
    VarsStmt(s.thn, ft, o);
    var a := AnalyzeStmt(s.thn, ft, o);
    var before := if g.Some? then f1 else f1.(ticks := a.f.ticks);
    var fe := Refine(before, r.e, true);
    VarsRefine(before, r.e, true);
    VarsStmt(s.els, fe, o);
    RefineTicks(f1, r.e, true, a.f.ticks);
  }

  lemma {:induction false} RefineTicks(f: State, c: Expr, isElse: bool, ticks: nat)
    ensures Refine(f.(ticks := ticks), c, isElse) == Refine(f, c, isElse).(ticks := ticks)
    decreases c
  {
    match c
    case Prefix(LogicNot, arg) => RefineTicks(f, arg, !isElse, ticks);
    case LogicAnd(_, _, _, a, b) => RefineTicks(f, a, isElse, ticks); RefineTicks(Refine(f, a, isElse), b, isElse, ticks);
    case _ =>
  }

  lemma TurnSound(s: Stmt, f: State, o: Oracle, st: Store, w: World, fuel: nat)
    requires s.Loop? && !f.dry && w.wary && Holds(f, st) && Touched(s, o) <= f.preds.Keys
    ensures var r := AnalyzeBody(s, f, o);
      var x := ExecTurn(r.s, st, w, fuel);
      && x != Stopped(Bad)
      && (x.Normal? ==> Holds(r.f, x.st))
      && (x.Broke? ==> Holds(r.f, x.st) || Holds(f, x.st))
    decreases Size(s), 0, fuel, 0
  {
    var a := AnalyzeExit(s.head, f, o);
    ExitSound(s.head, f, o, st, w);
    VarsExit(s.head, f, o);
    var b := AnalyzeStmt(s.body, a.f, o);
    VarsStmt(s.body, a.f, o);
    var x := ExecExit(a.x, st, w);
    if x.Broke? && a.x.value.keeps {
      HeadKeeps(s.head, f, o, st, w);
    }
    if x.Normal? {
      StmtSound(s.body, a.f, o, x.st, w, fuel);
      var y := Exec(b.s, x.st, w, fuel);
      if y.Normal? { ExitSound(s.tail, b.f, o, y.st, w); }
    }
  }

  /** A loop's first condition that keeps the facts known before it keeps them on leaving the loop. */
  lemma HeadKeeps(x: Option<Exit>, f: State, o: Oracle, st: Store, w: World)
    requires x.Some? && !f.dry && w.wary && Holds(f, st)
    requires var r := AnalyzeExit(x, f, o).x; r.value.keeps && ExecExit(r, st, w).Broke?
    ensures Holds(f, ExecExit(AnalyzeExit(x, f, o).x, st, w).st)
  {
    var c := x.value.cond;
    ExprSound(c, f, o, st, w);
    VarsExpr(c, f, o);
    var r := AnalyzeExpr(c, f, o);
    EntailsHolds(r.f, f, Eval(r.e, st, w).st);
  }

  lemma LoopSound(s: Stmt, f: State, o: Oracle, st: Store, w: World, fuel: nat)
    requires s.Loop? && !f.dry && w.wary && Holds(f, st) && Touched(s, o) <= f.preds.Keys
    ensures var r := AnalyzeStmt(s, f, o);
      var x := Exec(r.s, st, w, fuel);
      x != Stopped(Bad) && !x.Broke? && (x.Normal? ==> Holds(r.f, x.st))
    decreases Size(s), 1, fuel
  {
    var a := AnalyzePass(s, f, o);
    var b := AnalyzePass(a.s, a.f, o);
    var c := AnalyzePass(b.s, b.f, o);
    VarsPass(s, f, o);
    KeepsBody(s, f, o);
    VarsPass(a.s, a.f, o);
    KeepsBody(a.s, a.f, o);
    VarsBody(s, f, o);
    VarsBody(a.s, a.f, o);
    HoldsMerge(AnalyzeBody(s, f, o).f, f, st);
    HoldsMerge(AnalyzeBody(a.s, a.f, o).f, a.f, st);
    var stable := c.f.preds == b.f.preds && c.f.dead == b.f.dead;
    if stable {
      TurnsSound(b.s, b.f, o, st, w, fuel, stable);
    }
  }

  /** A state that a pass leaves unchanged describes the store after any number of turns. */
  lemma {:induction false} TurnsSound(s: Stmt, f: State, o: Oracle, st: Store, w: World, fuel: nat, stable: bool)
    requires s.Loop? && !f.dry && w.wary && Holds(f, st) && Touched(s, o) <= f.preds.Keys && stable
    requires var r := AnalyzePass(s, f, o); r.f.preds == f.preds && r.f.dead == f.dead
    ensures var r := AnalyzePass(s, f, o);
      var x := Exec(r.s.(stable := stable), st, w, fuel);
      x != Stopped(Bad) && !x.Broke? && (x.Normal? ==> Holds(r.f, x.st))
    decreases Size(s), 0, fuel, 1
  {
    if fuel > 0 {
      var body := AnalyzeBody(s, f, o);
      TurnSound(s, f, o, st, w, fuel);
      TurnStable(body.s, stable, st, w, fuel);
      VarsBody(s, f, o);
      var x := ExecTurn(body.s, st, w, fuel);
      if x.Normal? {
        HoldsMerge(body.f, f, x.st);
        TurnsSound(s, f, o, x.st, w, fuel - 1, stable);
      } else if x.Broke? {
        HoldsMerge(body.f, f, x.st);
      }
    }
  }

  lemma TurnStable(s: Stmt, stable: bool, st: Store, w: World, fuel: nat)
    requires s.Loop?
    ensures ExecTurn(s.(stable := stable), st, w, fuel) == ExecTurn(s, st, w, fuel)
  {
  }

  /** Type prediction is sound for whole programs: in no wary execution does an identifier have another type than
      the one recorded for it. */
  lemma TypesSound(s: Stmt, o: Oracle, st: Store, w: World, fuel: nat)
    requires w.wary
    ensures Exec(Analyze(s, o), st, w, fuel) != Stopped(Bad)
  {
    var r := AnalyzeStmt(s, START, o);
    var f := r.f.(dry := false, dead := false);
    BlankStmt(s, START, o);
    VarsStmt(s, START, o);
    KeepsStmt(s, START, o);
    StmtSound(r.s, f, o, st, w, fuel);
  }
}
