/** The loops of the language, and the loop, break and continue label the parser turns them into
    (parser/ast.c, parseStatement). */
module Source {
  import opened Basics
  import opened Machine
  import opened Expressions
  import opened Statements

  datatype Source =
    | Eff(e: Expr)
    | Block(list: SourceList)
    | Cond(c: Expr, thn: Source, els: Option<Source>)
    | Choose(c: Expr, groups: SourceGroups, dflt: Option<Source>)
    | Forever(body: Source)
    | While(c: Expr, body: Source)
    | Do(body: Source, c: Expr)
    | For(init: Source, test: Option<Expr>, step: Option<Expr>, body: Source)
    | Leave
    | Next

  datatype SourceList = Empty | Stmts(head: Source, tail: SourceList)

  datatype SourceGroups = NoCase | Case(ranges: seq<Range>, body: Source, next: SourceGroups)

  // ---------- meaning ----------

  function Pick(gs: SourceGroups, v: int): Option<Source> {
    match gs
    case NoCase => None
    case Case(rs, body, next) => if InSome(v, rs) then Some(body) else Pick(next, v)
  }

  lemma PickSmaller(gs: SourceGroups, v: int)
    ensures Pick(gs, v).Some? ==> Pick(gs, v).value < gs
  {
  }

  /** The cases of a switch, without their bodies. */
  function Skeleton(gs: SourceGroups): GroupList {
    match gs
    case NoCase => NoGroup
    case Case(rs, _, next) => Group(rs, Break, Skeleton(next))
  }

  /** Big-step meaning; `fuel` bounds the iterations of every loop.  After a `continue` in a
      do-statement the condition is tested if `tested`; otherwise the body starts again at once.  After an error
      nothing is done any more. */
  function Mean(s: Source, st: State, w: World, fuel: nat, tested: bool): (r: Outcome)
    ensures r.Done? && r.st.failed ==> r.kind == Normal
    decreases fuel, s, 1
  {
    if st.failed then Done(Normal, st) else
    match s
    case Eff(e) => Done(Normal, Eval(e, st, w).st)
    case Block(list) => MeanList(list, st, w, fuel, tested)
    case Cond(c, thn, els) =>
      var x := Eval(c, st, w);
      if Truthy(x.v) then Mean(thn, x.st, w, fuel, tested)
      else if els.Some? then Mean(els.value, x.st, w, fuel, tested)
      else Done(Normal, x.st)
    case Choose(c, gs, dflt) =>
      var x := Eval(c, st, w);
      PickSmaller(gs, IntOf(x.v));
      var body := Pick(gs, IntOf(x.v));
      if body.Some? then Mean(body.value, x.st, w, fuel, tested)
      else if dflt.Some? then Mean(dflt.value, x.st, w, fuel, tested)
      else if w.code.Some? && FallsInto(c, Skeleton(gs), w.code.value) then Mean(gs.body, x.st, w, fuel, tested)
      else Done(Normal, x.st)
    case For(init, _, _, _) =>
      var r := Mean(init, st, w, fuel, tested);
      if r.Done? && r.kind == Normal then Turns(s, r.st, w, fuel, tested) else r
    case Leave => Done(Brk, st)
    case Next => Done(Cont, st)
    case _ => Turns(s, st, w, fuel, tested)
  }

  function MeanList(l: SourceList, st: State, w: World, fuel: nat, tested: bool): (r: Outcome)
    ensures r.Done? && r.st.failed ==> r.kind == Normal
    decreases fuel, l, 1
  {
    if st.failed then Done(Normal, st) else
    match l
    case Empty => Done(Normal, st)
    case Stmts(s, next) =>
      var r := Mean(s, st, w, fuel, tested);
      if r.Done? && r.kind == Normal then MeanList(next, r.st, w, fuel, tested) else r
  }

  predicate IsLoop(s: Source) {
    s.Forever? || s.While? || s.Do? || s.For?
  }

  /** The condition that is tested before the body. */
  function TestOf(s: Source): Option<Expr> {
    if s.While? then Some(s.c) else if s.For? then s.test else None
  }

  /** The iterations of a loop. */
  function Turns(s: Source, st: State, w: World, fuel: nat, tested: bool): (r: Outcome)
    requires IsLoop(s)
    ensures r.Done? && r.st.failed ==> r.kind == Normal
    decreases fuel, s, 0
  {
    if st.failed then Done(Normal, st) else
    if fuel == 0 then Timeout else
    var test := TestOf(s);
    var st1 := if test.Some? then Eval(test.value, st, w).st else st;
    if test.Some? && !Passes(test.value, Eval(test.value, st, w).v, w) then Done(Normal, st1) else
    var r := Mean(s.body, st1, w, fuel, tested);
    if r.Timeout? then Timeout
    else if r.kind == Brk then Done(Normal, r.st)
    else if s.Do? && (r.kind == Normal || tested) then
      var x := Eval(s.c, r.st, w);
      if Passes(s.c, x.v, w) then Turns(s, x.st, w, fuel - 1, tested) else Done(Normal, x.st)
    else if s.For? && s.step.Some? then Turns(s, Eval(s.step.value, r.st, w).st, w, fuel - 1, tested)
    else Turns(s, r.st, w, fuel - 1, tested)
  }

  // ---------- what the parser builds ----------

  /** astToAstlist, unless the tree is a list already. */
  function AsList(s: Stmt): StmtList {
    if s.Body? then s.list else Node(s, End)
  }

  function Join(l: StmtList, tail: StmtList): StmtList {
    match l
    case End => tail
    case Node(s, next) => Node(s, Join(next, tail))
  }

  function Prepend(s: Stmt, elem: Stmt): Stmt {
    Body(Node(elem, AsList(s)))
  }

  /** appendAstToAst follows the first entry of the list, so the list must have one. */
  function Append(s: Stmt, elem: Stmt): (r: Stmt)
    requires AsList(s).Node?
    ensures r.Body? && r.list.Node?
  {
    Body(Join(AsList(s), Node(elem, End)))
  }

  function BreakUnless(c: Expr): Stmt {
    If(c, None, Some(Break))
  }

  /** The bodies of `for` and `do` have a statement. */
  predicate Parses(s: Source)
    decreases s
  {
    match s
    case Block(list) => ListParses(list)
    case Cond(_, thn, els) => Parses(thn) && (els.Some? ==> Parses(els.value))
    case Choose(_, gs, dflt) => GroupsParse(gs) && (dflt.Some? ==> Parses(dflt.value))
    case Forever(body) => Parses(body)
    case While(_, body) => Parses(body)
    case Do(body, _) => Parses(body) && body != Block(Empty)
    case For(init, _, _, body) => Parses(init) && Parses(body) && body != Block(Empty)
    case _ => true
  }

  predicate ListParses(l: SourceList)
    decreases l
  {
    l.Stmts? ==> Parses(l.head) && ListParses(l.tail)
  }

  predicate GroupsParse(gs: SourceGroups)
    decreases gs
  {
    gs.Case? ==> Parses(gs.body) && GroupsParse(gs.next)
  }

  function Desugar(s: Source): (r: Stmt)
    requires Parses(s)
    ensures r != ContinueLabel && (s != Block(Empty) ==> AsList(r).Node?)
    decreases s
  {
    match s
    case Eff(e) => ExprStmt(e)
    case Block(list) => Body(DesugarList(list))
    case Cond(c, thn, els) =>
      If(c, Some(Desugar(thn)), if els.Some? then Some(Desugar(els.value)) else None)
    case Choose(c, gs, dflt) =>
      Switch(c, DesugarGroups(gs), if dflt.Some? then Some(Desugar(dflt.value)) else None)
    case Forever(body) => Loop(Desugar(body))
    case While(c, body) => Loop(Prepend(Desugar(body), BreakUnless(c)))
    case Do(body, c) => Loop(Append(Desugar(body), BreakUnless(c)))
    case For(init, test, step, body) =>
      var b1 := Append(Desugar(body), ContinueLabel);
      var b2 := if step.Some? then Append(b1, ExprStmt(step.value)) else b1;
      Prepend(Loop(if test.Some? then Prepend(b2, BreakUnless(test.value)) else b2), Desugar(init))
    case Leave => Break
    case Next => Continue
  }

  function DesugarList(l: SourceList): (r: StmtList)
    requires ListParses(l)
    ensures l.Stmts? ==> r.Node?
    decreases l
  {
    match l
    case Empty => End
    case Stmts(s, next) => Node(Desugar(s), DesugarList(next))
  }

  function DesugarGroups(gs: SourceGroups): GroupList
    requires GroupsParse(gs)
    decreases gs
  {
    match gs
    case NoCase => NoGroup
    case Case(rs, body, next) => Group(rs, Desugar(body), DesugarGroups(next))
  }

  // ---------- the parser keeps the meaning ----------

  lemma {:induction false} JoinExec(l: StmtList, tail: StmtList, st: State, w: World, fuel: nat)
    requires AfterLabel(l).None?
    ensures var r := ExecList(l, st, w, fuel);
      ExecList(Join(l, tail), st, w, fuel) ==
      if r.Timeout? then Timeout
      else if r.kind == Normal then ExecList(tail, r.st, w, fuel)
      else if r.kind == Cont && AfterLabel(tail).Some? then ExecList(AfterLabel(tail).value, r.st, w, fuel)
      else r
  {
    if l.Node? {
      JoinAfter(l.next, tail);
      var r := Exec(l.entry, st, w, fuel);
      JoinExec(l.next, tail, if r.Done? then r.st else st, w, fuel);
    }
  }

  lemma {:induction false} JoinAfter(l: StmtList, tail: StmtList)
    requires AfterLabel(l).None?
    ensures AfterLabel(Join(l, tail)) == AfterLabel(tail)
  {
    if l.Node? {
      JoinAfter(l.next, tail);
    }
  }

  lemma {:induction false} JoinTwice(l: StmtList, s: Stmt, t: Stmt)
    ensures Join(Join(l, Node(s, End)), Node(t, End)) == Join(l, Node(s, Node(t, End)))
  {
    if l.Node? {
      JoinTwice(l.next, s, t);
    }
  }

  lemma AsListExec(s: Stmt, st: State, w: World, fuel: nat)
    requires s != ContinueLabel
    ensures ExecList(AsList(s), st, w, fuel) == Exec(s, st, w, fuel)
  {
    if !s.Body? {
      assert AsList(s) == Node(s, End);
    }
  }

  lemma {:induction false} NoLabels(s: Source)
    requires Parses(s)
    ensures AfterLabel(AsList(Desugar(s))).None?
  {
    match s
    case Block(list) => ListNoLabels(list);
    case For(init, _, _, _) =>
      assert AsList(Desugar(s)) == Node(Desugar(init), Node(LoopOf(s), End));
      assert AfterLabel(Node(LoopOf(s), End)).None?;
    case _ =>
  }

  lemma {:induction false} ListNoLabels(l: SourceList)
    requires ListParses(l)
    ensures AfterLabel(DesugarList(l)).None?
  {
    if l.Stmts? {
      ListNoLabels(l.tail);
    }
  }

  lemma {:induction false} PickDesugars(gs: SourceGroups, v: int)
    requires GroupsParse(gs)
    ensures Pick(gs, v).Some? ==> Parses(Pick(gs, v).value)
    ensures Select(DesugarGroups(gs), v) == if Pick(gs, v).Some? then Some(Desugar(Pick(gs, v).value)) else None
  {
    if gs.Case? && !InSome(v, gs.ranges) {
      PickDesugars(gs.next, v);
    }
  }

  lemma {:induction false} SkeletonRanges(gs: SourceGroups, m: int, n: int)
    requires GroupsParse(gs)
    ensures var a, b := Skeleton(gs), DesugarGroups(gs);
      a.Group? == b.Group? && CaseCount(a) == CaseCount(b) && TotalMin(a, m) == TotalMin(b, m) && TotalMax(a, n) == TotalMax(b, n)
  {
    if gs.Case? {
      SkeletonRanges(gs.next, MinOf(gs.ranges, m), MaxOf(gs.ranges, n));
    }
  }

  lemma SkeletonFalls(c: Expr, gs: SourceGroups, env: Env)
    requires GroupsParse(gs)
    ensures FallsInto(c, Skeleton(gs), env) == FallsInto(c, DesugarGroups(gs), env)
  {
    SkeletonRanges(gs, INT64_MAX, INT64_MIN);
  }

  /** The tree the parser builds means what the statement means, except that `continue` in a
      do-statement does not test the condition. */
  lemma {:induction false} DesugarKeepsMeaning(s: Source, st: State, w: World, fuel: nat)
    requires Parses(s)
    ensures Exec(Desugar(s), st, w, fuel) == Mean(s, st, w, fuel, false)
    decreases fuel, s, 1
  {
    match s
    case Eff(_) =>
    case Block(list) => ListKeepsMeaning(list, st, w, fuel);
    case Cond(c, thn, els) =>
      var x := Eval(c, st, w);
      DesugarKeepsMeaning(thn, x.st, w, fuel);
      if els.Some? { DesugarKeepsMeaning(els.value, x.st, w, fuel); }
    case Choose(c, gs, dflt) =>
      var x := Eval(c, st, w);
      var v := IntOf(x.v);
      PickDesugars(gs, v);
      PickSmaller(gs, v);
      if Pick(gs, v).Some? { DesugarKeepsMeaning(Pick(gs, v).value, x.st, w, fuel); }
      if dflt.Some? { DesugarKeepsMeaning(dflt.value, x.st, w, fuel); }
      if w.code.Some? { SkeletonFalls(c, gs, w.code.value); }
      if gs.Case? { DesugarKeepsMeaning(gs.body, x.st, w, fuel); }
    case For(init, _, _, _) =>
      DesugarKeepsMeaning(init, st, w, fuel);
      var r := Mean(init, st, w, fuel, false);
      ForUnfold(s, st, w, fuel);
      if r.Done? && r.kind == Normal { TurnsKeepMeaning(s, r.st, w, fuel); }
    case Leave =>
    case Next =>
    case _ => TurnsKeepMeaning(s, st, w, fuel);
  }

  lemma {:induction false} ListKeepsMeaning(l: SourceList, st: State, w: World, fuel: nat)
    requires ListParses(l)
    ensures ExecList(DesugarList(l), st, w, fuel) == MeanList(l, st, w, fuel, false)
    decreases fuel, l, 1
  {
    if l.Stmts? {
      ListNoLabels(l.tail);
      DesugarKeepsMeaning(l.head, st, w, fuel);
      var r := Mean(l.head, st, w, fuel, false);
      ListKeepsMeaning(l.tail, if r.Done? then r.st else st, w, fuel);
    }
  }

  /** The loop that a loop statement becomes, without the initialiser of a `for`. */
  function LoopOf(s: Source): Stmt
    requires IsLoop(s) && Parses(s)
  {
    if s.For? then
      var b1 := Append(Desugar(s.body), ContinueLabel);
      var b2 := if s.step.Some? then Append(b1, ExprStmt(s.step.value)) else b1;
      Loop(if s.test.Some? then Prepend(b2, BreakUnless(s.test.value)) else b2)
    else Desugar(s)
  }

  lemma ForUnfold(s: Source, st: State, w: World, fuel: nat)
    requires s.For? && Parses(s)
    ensures var r := Exec(Desugar(s.init), st, w, fuel);
      Exec(Desugar(s), st, w, fuel) ==
      if r.Done? && r.kind == Normal then Exec(LoopOf(s), r.st, w, fuel) else r
  {
    var loop := LoopOf(s);
    assert Desugar(s) == Body(Node(Desugar(s.init), Node(loop, End)));
    assert AfterLabel(Node(loop, End)).None?;
    var r := Exec(Desugar(s.init), st, w, fuel);
    if r.Done? && r.kind == Normal {
      AsListExec(loop, r.st, w, fuel);
      assert AsList(loop) == Node(loop, End);
    }
  }

  lemma {:induction false} TurnsKeepMeaning(s: Source, st: State, w: World, fuel: nat)
    requires IsLoop(s) && Parses(s)
    ensures Exec(LoopOf(s), st, w, fuel) == Turns(s, st, w, fuel, false)
    decreases fuel, s, 0
  {
    hide Eval, Passes;
    if fuel > 0 {
      var test := TestOf(s);
      var st1 := if test.Some? then Eval(test.value, st, w).st else st;
      DesugarKeepsMeaning(s.body, st1, w, fuel);
      BodyExec(s, st, w, fuel);
      var r := Exec(LoopOf(s).body, st, w, fuel);
      if r.Done? && r.kind != Brk {
        TurnsKeepMeaning(s, r.st, w, fuel - 1);
      }
    }
  }

  /** A loop is left, unless an error has ended the program. */
  function Over(st: State): Outcome {
    Done(if st.failed then Normal else Brk, st)
  }

  /** One run through the body of the loop: the test, the statement's body, and what follows it. */
  lemma BodyExec(s: Source, st: State, w: World, fuel: nat)
    requires IsLoop(s) && Parses(s) && fuel > 0
    ensures LoopOf(s).Loop?
    ensures var test := TestOf(s);
      var st1 := if test.Some? then Eval(test.value, st, w).st else st;
      var r := Exec(Desugar(s.body), st1, w, fuel);
      Exec(LoopOf(s).body, st, w, fuel) ==
      if test.Some? && !Passes(test.value, Eval(test.value, st, w).v, w) then Over(st1)
      else if r.Timeout? || r.kind == Brk then r
      else if s.Do? && r.kind == Normal then
        (var x := Eval(s.c, r.st, w); if Passes(s.c, x.v, w) then Done(Normal, x.st) else Over(x.st))
      else if s.For? then Done(Normal, if s.step.Some? then Eval(s.step.value, r.st, w).st else r.st)
      else r
  {
    var body := Desugar(s.body);
    NoLabels(s.body);
    match s
    case Forever(_) =>
    case While(c, _) =>
      var st1 := Eval(c, st, w).st;
      AsListExec(body, st1, w, fuel);
      TestExec(c, AsList(body), st, w, fuel);
    case Do(_, c) =>
      AsListExec(body, st, w, fuel);
      JoinExec(AsList(body), Node(BreakUnless(c), End), st, w, fuel);
      var r := Exec(body, st, w, fuel);
      if r.Done? { AsListExec(BreakUnless(c), r.st, w, fuel); }
    case For(_, test, step, _) =>
      if test.Some? {
        var st1 := Eval(test.value, st, w).st;
        TailExec(s, st1, w, fuel);
        TestExec(test.value, ForTail(s), st, w, fuel);
      } else {
        TailExec(s, st, w, fuel);
      }
  }

  lemma TestExec(c: Expr, l: StmtList, st: State, w: World, fuel: nat)
    ensures var x := Eval(c, st, w);
      ExecList(Node(BreakUnless(c), l), st, w, fuel) ==
      if Passes(c, x.v, w) then ExecList(l, x.st, w, fuel) else Over(x.st)
  {
    var x := Eval(c, st, w);
    assert Exec(BreakUnless(c), st, w, fuel) == if Passes(c, x.v, w) then Done(Normal, x.st) else Over(x.st);
  }

  function ForTail(s: Source): StmtList
    requires s.For? && Parses(s)
  {
    var b1 := Append(Desugar(s.body), ContinueLabel);
    (if s.step.Some? then Append(b1, ExprStmt(s.step.value)) else b1).list
  }

  /** The body of a `for` and its step: a `continue` goes on with the step. */
  lemma TailExec(s: Source, st: State, w: World, fuel: nat)
    requires s.For? && Parses(s)
    ensures var r := Exec(Desugar(s.body), st, w, fuel);
      ExecList(ForTail(s), st, w, fuel) ==
      if r.Timeout? || r.kind == Brk then r
      else Done(Normal, if s.step.Some? then Eval(s.step.value, r.st, w).st else r.st)
  {
    var l := AsList(Desugar(s.body));
    NoLabels(s.body);
    AsListExec(Desugar(s.body), st, w, fuel);
    var r := Exec(Desugar(s.body), st, w, fuel);
    if s.step.Some? {
      var e := ExprStmt(s.step.value);
      JoinTwice(l, ContinueLabel, e);
      JoinExec(l, Node(ContinueLabel, Node(e, End)), st, w, fuel);
      if r.Done? {
        AsListExec(e, r.st, w, fuel);
        LabelFirst(Node(e, End), r.st, w, fuel);
      }
    } else {
      JoinExec(l, Node(ContinueLabel, End), st, w, fuel);
      if r.Done? {
        LabelFirst(End, r.st, w, fuel);
      }
    }
  }

  lemma LabelFirst(l: StmtList, st: State, w: World, fuel: nat)
    ensures ExecList(Node(ContinueLabel, l), st, w, fuel) == ExecList(l, st, w, fuel)
    ensures AfterLabel(Node(ContinueLabel, l)) == Some(l)
  {
  }

  // ---------- continue in a do-statement ----------

  /** A `continue` that belongs to a loop around `s`. */
  predicate Continues(s: Source)
    decreases s
  {
    match s
    case Next => true
    case Block(list) => ListContinues(list)
    case Cond(_, thn, els) => Continues(thn) || (els.Some? && Continues(els.value))
    case Choose(_, gs, dflt) => GroupsContinue(gs) || (dflt.Some? && Continues(dflt.value))
    case For(init, _, _, _) => Continues(init)
    case _ => false
  }

  predicate ListContinues(l: SourceList)
    decreases l
  {
    l.Stmts? && (Continues(l.head) || ListContinues(l.tail))
  }

  predicate GroupsContinue(gs: SourceGroups)
    decreases gs
  {
    gs.Case? && (Continues(gs.body) || GroupsContinue(gs.next))
  }

  /** No do-statement in `s` has a `continue` of its own, no right operand of a strict operator assigns the variable
      on its left, the conditions of loops are statically typed, and no switch falls into its first body. */
  predicate Orderly(s: Source, env: Env)
    decreases s
  {
    match s
    case Eff(e) => Ordered(e)
    case Block(list) => ListOrderly(list, env)
    case Cond(c, thn, els) => Ordered(c) && Orderly(thn, env) && (els.Some? ==> Orderly(els.value, env))
    case Choose(c, gs, dflt) =>
      && Ordered(c) && GroupsOrderly(gs, env)
      && (if dflt.Some? then Orderly(dflt.value, env) else !FallsInto(c, Skeleton(gs), env))
    case Forever(body) => Orderly(body, env)
    case While(c, body) => OrderlyTest(c, env) && Orderly(body, env)
    case Do(body, c) => OrderlyTest(c, env) && Orderly(body, env) && !Continues(body)
    case For(init, test, step, body) =>
      && Orderly(init, env) && Orderly(body, env)
      && (test.Some? ==> OrderlyTest(test.value, env)) && (step.Some? ==> Ordered(step.value))
    case _ => true
  }

  predicate OrderlyTest(c: Expr, env: Env) {
    Ordered(c) && TypeOf(c, env) != TDynamic
  }

  predicate ListOrderly(l: SourceList, env: Env)
    decreases l
  {
    l.Stmts? ==> Orderly(l.head, env) && ListOrderly(l.tail, env)
  }

  predicate GroupsOrderly(gs: SourceGroups, env: Env)
    decreases gs
  {
    gs.Case? ==> Orderly(gs.body, env) && GroupsOrderly(gs.next, env)
  }

  lemma {:induction false} PickNoContinue(gs: SourceGroups, v: int, env: Env)
    requires Pick(gs, v).Some?
    ensures !GroupsContinue(gs) ==> !Continues(Pick(gs, v).value)
    ensures GroupsOrderly(gs, env) ==> Orderly(Pick(gs, v).value, env)
  {
    if !InSome(v, gs.ranges) {
      PickNoContinue(gs.next, v, env);
    }
  }

  lemma {:induction false} TurnsNormal(s: Source, st: State, w: World, fuel: nat, tested: bool)
    requires IsLoop(s)
    ensures var r := Turns(s, st, w, fuel, tested); r.Done? ==> r.kind == Normal
    decreases fuel
  {
    if fuel > 0 {
      var test := TestOf(s);
      var st1 := if test.Some? then Eval(test.value, st, w).st else st;
      var r := Mean(s.body, st1, w, fuel, tested);
      if r.Done? {
        TurnsNormal(s, r.st, w, fuel - 1, tested);
        if s.Do? { TurnsNormal(s, Eval(s.c, r.st, w).st, w, fuel - 1, tested); }
        if s.For? && s.step.Some? { TurnsNormal(s, Eval(s.step.value, r.st, w).st, w, fuel - 1, tested); }
      }
    }
  }

  lemma {:induction false} NoContinue(s: Source, st: State, w: World, fuel: nat, tested: bool)
    requires !Continues(s)
    ensures var r := Mean(s, st, w, fuel, tested); r.Done? ==> r.kind != Cont
    decreases s
  {
    match s
    case Block(list) => ListNoContinue(list, st, w, fuel, tested);
    case Cond(c, thn, els) =>
      var x := Eval(c, st, w);
      NoContinue(thn, x.st, w, fuel, tested);
      if els.Some? { NoContinue(els.value, x.st, w, fuel, tested); }
    case Choose(c, gs, dflt) =>
      var x := Eval(c, st, w);
      var v := IntOf(x.v);
      PickSmaller(gs, v);
      if Pick(gs, v).Some? {
        PickNoContinue(gs, v, Env({}, false));
        NoContinue(Pick(gs, v).value, x.st, w, fuel, tested);
      }
      if dflt.Some? { NoContinue(dflt.value, x.st, w, fuel, tested); }
      if gs.Case? { NoContinue(gs.body, x.st, w, fuel, tested); }
    case For(init, _, _, _) =>
      NoContinue(init, st, w, fuel, tested);
      var r := Mean(init, st, w, fuel, tested);
      if r.Done? { TurnsNormal(s, r.st, w, fuel, tested); }
    case Forever(_) => TurnsNormal(s, st, w, fuel, tested);
    case While(_, _) => TurnsNormal(s, st, w, fuel, tested);
    case Do(_, _) => TurnsNormal(s, st, w, fuel, tested);
    case _ =>
  }

  lemma {:induction false} ListNoContinue(l: SourceList, st: State, w: World, fuel: nat, tested: bool)
    requires !ListContinues(l)
    ensures var r := MeanList(l, st, w, fuel, tested); r.Done? ==> r.kind != Cont
    decreases l
  {
    if l.Stmts? {
      NoContinue(l.head, st, w, fuel, tested);
      var r := Mean(l.head, st, w, fuel, tested);
      ListNoContinue(l.tail, if r.Done? then r.st else st, w, fuel, tested);
    }
  }

  // Where a do-statement's own `continue` makes no difference.

  datatype Turn = Again(st: State) | Final(st: State)

  /** What follows a body of a do-statement that ended normally or by `continue`. */
  function AfterBody(c: Expr, r: Outcome, w: World, tested: bool): Turn
    requires r.Done? && r.kind != Brk
  {
    if r.kind == Normal || tested then
      var x := Eval(c, r.st, w);
      if Passes(c, x.v, w) then Again(x.st) else Final(x.st)
    else Again(r.st)
  }

  /** The condition is true, and testing it has no effect. */
  predicate TestHarmless(c: Expr, st: State, w: World) {
    Passes(c, Eval(c, st, w).v, w) && Eval(c, st, w).st == st
  }

  /** One turn of a do-statement, whatever its body is. */
  function DoTurn(body: Source, c: Expr, st: State, w: World, fuel: nat, tested: bool): Option<Turn> {
    var r := Mean(body, st, w, fuel, tested);
    if r.Timeout? then None
    else if r.kind == Brk then Some(Final(r.st))
    else Some(AfterBody(c, r, w, tested))
  }

  /** These are the turns that a do-statement takes. */
  lemma DoUnfold(body: Source, c: Expr, st: State, w: World, fuel: nat, tested: bool)
    requires !st.failed
    ensures Turns(Do(body, c), st, w, fuel, tested) ==
      if fuel == 0 then Timeout
      else match DoTurn(body, c, st, w, fuel, tested)
        case None => Timeout
        case Some(Final(st1)) => Done(Normal, st1)
        case Some(Again(st1)) => Turns(Do(body, c), st1, w, fuel - 1, tested)
  {
  }

  /** A turn whose body means the same in both readings and ends by `continue` goes on in the same way exactly
      when the condition is true there and testing it has no effect; every other turn always does. */
  lemma DoTurnExact(body: Source, c: Expr, st: State, w: World, fuel: nat)
    requires Mean(body, st, w, fuel, true) == Mean(body, st, w, fuel, false)
    ensures var r := Mean(body, st, w, fuel, true);
      DoTurn(body, c, st, w, fuel, true) == DoTurn(body, c, st, w, fuel, false) <==>
      (r.Done? && r.kind == Cont ==> TestHarmless(c, r.st, w))
  {
  }

  // ---------- what the code does in its own way ----------

  /** A loop's condition of unknown type has a value whose type and payload say the same. */
  predicate TypeAgrees(c: Expr, x: Word, env: Env) {
    TypeOf(c, env) == TDynamic ==> (x.tag == UNDEFINED <==> x.n == 0)
  }

  /** Exactly then the code generated for a loop's condition has its outcome. */
  lemma PassesExact(c: Expr, x: Word, w: World, env: Env)
    requires w.code.None?
    ensures Passes(c, x, InCode(w, env)) == Passes(c, x, w) <==> TypeAgrees(c, x, env)
  {
  }

  predicate LoopTestHarmless(c: Expr, st: State, w: World, env: Env) {
    InOrder(c, st, w) && TypeAgrees(c, Eval(c, st, w).v, env)
  }

  lemma LoopTestSame(c: Expr, st: State, w: World, env: Env)
    requires w.code.None? && LoopTestHarmless(c, st, w, env)
    ensures var x := Eval(c, st, w); Eval(c, st, InCode(w, env)) == x && Passes(c, x.v, InCode(w, env)) == Passes(c, x.v, w)
  {
    EarlyOrLate(c, st, w, env);
    PassesExact(c, Eval(c, st, w).v, w, env);
  }

  /** In this execution nothing depends on what the generated code does in its own way: operators may read the
      variables on their left late; loop conditions of unknown type have values whose type and payload agree; when a
      `continue` of a do-statement's own leaves out the test, it is true and has no effect; and when a switch falls
      into its first body, that does nothing. */
  predicate Harmless(s: Source, st: State, w: World, env: Env, fuel: nat)
    decreases fuel, s, 1
  {
    st.failed ||
    match s
    case Eff(e) => InOrder(e, st, w)
    case Block(list) => ListHarmless(list, st, w, env, fuel)
    case Cond(c, thn, els) =>
      var x := Eval(c, st, w);
      && InOrder(c, st, w)
      && if Truthy(x.v) then Harmless(thn, x.st, w, env, fuel)
         else els.Some? ==> Harmless(els.value, x.st, w, env, fuel)
    case Choose(c, gs, dflt) =>
      var x := Eval(c, st, w);
      PickSmaller(gs, IntOf(x.v));
      var body := Pick(gs, IntOf(x.v));
      && InOrder(c, st, w)
      && if body.Some? then Harmless(body.value, x.st, w, env, fuel)
         else if dflt.Some? then Harmless(dflt.value, x.st, w, env, fuel)
         else FallsInto(c, Skeleton(gs), env) ==> Mean(gs.body, x.st, InCode(w, env), fuel, false) == Done(Normal, x.st)
    case For(init, _, _, _) =>
      var r := Mean(init, st, w, fuel, true);
      Harmless(init, st, w, env, fuel) && (r.Done? && r.kind == Normal ==> TurnsHarmless(s, r.st, w, env, fuel))
    case Leave => true
    case Next => true
    case _ => TurnsHarmless(s, st, w, env, fuel)
  }

  predicate ListHarmless(l: SourceList, st: State, w: World, env: Env, fuel: nat)
    decreases fuel, l, 1
  {
    st.failed ||
    (l.Stmts? ==>
      var r := Mean(l.head, st, w, fuel, true);
      Harmless(l.head, st, w, env, fuel) && (r.Done? && r.kind == Normal ==> ListHarmless(l.tail, r.st, w, env, fuel)))
  }

  predicate TurnsHarmless(s: Source, st: State, w: World, env: Env, fuel: nat)
    requires IsLoop(s)
    decreases fuel, s, 0
  {
    st.failed ||
    (fuel > 0 ==>
      var test := TestOf(s);
      var st1 := if test.Some? then Eval(test.value, st, w).st else st;
      && (test.Some? ==> LoopTestHarmless(test.value, st, w, env))
      && ((test.Some? && !Passes(test.value, Eval(test.value, st, w).v, w)) ||
          (var r := Mean(s.body, st1, w, fuel, true);
           Harmless(s.body, st1, w, env, fuel) && (r.Done? && r.kind != Brk ==> NextHarmless(s, r, w, env, fuel)))))
  }

  /** What follows the body of a loop. */
  predicate NextHarmless(s: Source, r: Outcome, w: World, env: Env, fuel: nat)
    requires IsLoop(s) && r.Done? && fuel > 0
    decreases fuel, s, 0, 0
  {
    if s.Do? then
      var x := Eval(s.c, r.st, w);
      && LoopTestHarmless(s.c, r.st, w, env) && (r.kind == Cont ==> TestHarmless(s.c, r.st, w))
      && (Passes(s.c, x.v, w) ==> TurnsHarmless(s, x.st, w, env, fuel - 1))
    else if s.For? && s.step.Some? then
      InOrder(s.step.value, r.st, w) && TurnsHarmless(s, Eval(s.step.value, r.st, w).st, w, env, fuel - 1)
    else TurnsHarmless(s, r.st, w, env, fuel - 1)
  }

  lemma {:induction false} AsCode(s: Source, st: State, w: World, env: Env, fuel: nat)
    requires w.code.None? && Harmless(s, st, w, env, fuel)
    ensures Mean(s, st, InCode(w, env), fuel, false) == Mean(s, st, w, fuel, true)
    decreases fuel, s, 1
  {
    if !st.failed {
      match s
      case Eff(e) => EarlyOrLate(e, st, w, env);
      case Block(list) => ListAsCode(list, st, w, env, fuel);
      case Cond(c, thn, els) =>
        EarlyOrLate(c, st, w, env);
        var x := Eval(c, st, w);
        if Truthy(x.v) {
          AsCode(thn, x.st, w, env, fuel);
        } else if els.Some? {
          AsCode(els.value, x.st, w, env, fuel);
        }
      case Choose(c, gs, dflt) =>
        EarlyOrLate(c, st, w, env);
        var x := Eval(c, st, w);
        var v := IntOf(x.v);
        PickSmaller(gs, v);
        if Pick(gs, v).Some? {
          AsCode(Pick(gs, v).value, x.st, w, env, fuel);
        } else if dflt.Some? {
          AsCode(dflt.value, x.st, w, env, fuel);
        }
      case For(init, _, _, _) =>
        AsCode(init, st, w, env, fuel);
        var r := Mean(init, st, w, fuel, true);
        if r.Done? && r.kind == Normal { TurnsAsCode(s, r.st, w, env, fuel); }
      case Leave =>
      case Next =>
      case _ => TurnsAsCode(s, st, w, env, fuel);
    }
  }

  lemma {:induction false} ListAsCode(l: SourceList, st: State, w: World, env: Env, fuel: nat)
    requires w.code.None? && ListHarmless(l, st, w, env, fuel)
    ensures MeanList(l, st, InCode(w, env), fuel, false) == MeanList(l, st, w, fuel, true)
    decreases fuel, l, 1
  {
    if l.Stmts? && !st.failed {
      AsCode(l.head, st, w, env, fuel);
      var r := Mean(l.head, st, w, fuel, true);
      if r.Done? && r.kind == Normal { ListAsCode(l.tail, r.st, w, env, fuel); }
    }
  }

  lemma {:induction false} TurnsAsCode(s: Source, st: State, w: World, env: Env, fuel: nat)
    requires IsLoop(s) && w.code.None? && TurnsHarmless(s, st, w, env, fuel)
    ensures Turns(s, st, InCode(w, env), fuel, false) == Turns(s, st, w, fuel, true)
    decreases fuel, s, 0
  {
    if fuel > 0 && !st.failed {
      var test := TestOf(s);
      if test.Some? { LoopTestSame(test.value, st, w, env); }
      if test.Some? ==> Passes(test.value, Eval(test.value, st, w).v, w) {
        var st1 := if test.Some? then Eval(test.value, st, w).st else st;
        AsCode(s.body, st1, w, env, fuel);
        var r := Mean(s.body, st1, w, fuel, true);
        if r.Done? && r.kind != Brk { NextAsCode(s, r, w, env, fuel); }
      }
    }
  }

  /** What follows the body of a loop goes on in the same way. */
  lemma NextAsCode(s: Source, r: Outcome, w: World, env: Env, fuel: nat)
    requires IsLoop(s) && r.Done? && fuel > 0 && w.code.None? && NextHarmless(s, r, w, env, fuel)
    ensures var w1 := InCode(w, env);
      if s.Do? then
        var x := Eval(s.c, r.st, w);
        && Eval(s.c, r.st, w1) == x && Passes(s.c, x.v, w1) == Passes(s.c, x.v, w)
        && (r.kind == Cont ==> Passes(s.c, x.v, w) && x.st == r.st)
        && (Passes(s.c, x.v, w) ==> Turns(s, x.st, w1, fuel - 1, false) == Turns(s, x.st, w, fuel - 1, true))
      else if s.For? && s.step.Some? then
        var x := Eval(s.step.value, r.st, w);
        Eval(s.step.value, r.st, w1) == x && Turns(s, x.st, w1, fuel - 1, false) == Turns(s, x.st, w, fuel - 1, true)
      else Turns(s, r.st, w1, fuel - 1, false) == Turns(s, r.st, w, fuel - 1, true)
    decreases fuel, s, 0, 0
  {
    if s.Do? {
      LoopTestSame(s.c, r.st, w, env);
      if Passes(s.c, Eval(s.c, r.st, w).v, w) { TurnsAsCode(s, Eval(s.c, r.st, w).st, w, env, fuel - 1); }
    } else if s.For? && s.step.Some? {
      EarlyOrLate(s.step.value, r.st, w, env);
      TurnsAsCode(s, Eval(s.step.value, r.st, w).st, w, env, fuel - 1);
    } else {
      TurnsAsCode(s, r.st, w, env, fuel - 1);
    }
  }

  // An orderly program is so in every execution.

  lemma OrderlyTestHarmless(c: Expr, st: State, w: World, env: Env)
    requires OrderlyTest(c, env)
    ensures LoopTestHarmless(c, st, w, env)
  {
    OrderedInOrder(c, st, w);
  }

  lemma {:induction false} OrderlyHarmless(s: Source, st: State, w: World, env: Env, fuel: nat)
    requires Orderly(s, env) && w.code.None?
    ensures Harmless(s, st, w, env, fuel)
    decreases fuel, s, 1
  {
    match s
    case Eff(e) => OrderedInOrder(e, st, w);
    case Block(list) => ListOrderlyHarmless(list, st, w, env, fuel);
    case Cond(c, thn, els) =>
      OrderedInOrder(c, st, w);
      var x := Eval(c, st, w);
      OrderlyHarmless(thn, x.st, w, env, fuel);
      if els.Some? { OrderlyHarmless(els.value, x.st, w, env, fuel); }
    case Choose(c, gs, dflt) =>
      OrderedInOrder(c, st, w);
      var x := Eval(c, st, w);
      var v := IntOf(x.v);
      PickSmaller(gs, v);
      if Pick(gs, v).Some? {
        PickNoContinue(gs, v, env);
        OrderlyHarmless(Pick(gs, v).value, x.st, w, env, fuel);
      }
      if dflt.Some? { OrderlyHarmless(dflt.value, x.st, w, env, fuel); }
    case For(init, _, _, _) =>
      OrderlyHarmless(init, st, w, env, fuel);
      var r := Mean(init, st, w, fuel, true);
      if r.Done? { TurnsOrderlyHarmless(s, r.st, w, env, fuel); }
    case Leave =>
    case Next =>
    case _ => TurnsOrderlyHarmless(s, st, w, env, fuel);
  }

  lemma {:induction false} ListOrderlyHarmless(l: SourceList, st: State, w: World, env: Env, fuel: nat)
    requires ListOrderly(l, env) && w.code.None?
    ensures ListHarmless(l, st, w, env, fuel)
    decreases fuel, l, 1
  {
    if l.Stmts? {
      OrderlyHarmless(l.head, st, w, env, fuel);
      var r := Mean(l.head, st, w, fuel, true);
      ListOrderlyHarmless(l.tail, if r.Done? then r.st else st, w, env, fuel);
    }
  }

  lemma {:induction false} TurnsOrderlyHarmless(s: Source, st: State, w: World, env: Env, fuel: nat)
    requires IsLoop(s) && Orderly(s, env) && w.code.None?
    ensures TurnsHarmless(s, st, w, env, fuel)
    decreases fuel, s, 0
  {
    if fuel > 0 {
      var test := TestOf(s);
      if test.Some? { OrderlyTestHarmless(test.value, st, w, env); }
      var st1 := if test.Some? then Eval(test.value, st, w).st else st;
      OrderlyHarmless(s.body, st1, w, env, fuel);
      var r := Mean(s.body, st1, w, fuel, true);
      if s.Do? { NoContinue(s.body, st1, w, fuel, true); }
      if r.Done? { NextOrderlyHarmless(s, r, w, env, fuel); }
    }
  }

  lemma NextOrderlyHarmless(s: Source, r: Outcome, w: World, env: Env, fuel: nat)
    requires IsLoop(s) && Orderly(s, env) && r.Done? && fuel > 0 && (s.Do? ==> r.kind != Cont) && w.code.None?
    ensures NextHarmless(s, r, w, env, fuel)
    decreases fuel, s, 0, 0
  {
    if s.Do? {
      OrderlyTestHarmless(s.c, r.st, w, env);
      TurnsOrderlyHarmless(s, Eval(s.c, r.st, w).st, w, env, fuel - 1);
    } else if s.For? && s.step.Some? {
      OrderedInOrder(s.step.value, r.st, w);
      TurnsOrderlyHarmless(s, Eval(s.step.value, r.st, w).st, w, env, fuel - 1);
    } else {
      TurnsOrderlyHarmless(s, r.st, w, env, fuel - 1);
    }
  }

  /** What a program means is what the parser's tree means when it is read as the generated code reads it, in
      every harmless execution. */
  lemma DesugarCorrect(s: Source, st: State, w: World, env: Env, fuel: nat)
    requires Parses(s) && w.code.None? && Harmless(s, st, w, env, fuel)
    ensures Exec(Desugar(s), st, InCode(w, env), fuel) == Mean(s, st, w, fuel, true)
  {
    DesugarKeepsMeaning(s, st, InCode(w, env), fuel);
    AsCode(s, st, w, env, fuel);
  }

  /** An instance: `do continue; while(c);` with a false condition ends at once, but its tree runs for ever. */
  lemma {:induction false} DoContinueDiverges(c: Expr, st: State, w: World, fuel: nat)
    requires !st.failed && !Passes(c, Eval(c, st, w).v, w)
    ensures fuel > 0 ==> Mean(Do(Next, c), st, w, fuel, true) == Done(Normal, Eval(c, st, w).st)
    ensures Exec(Desugar(Do(Next, c)), st, w, fuel) == Timeout
    decreases fuel
  {
    var s := Do(Next, c);
    DesugarKeepsMeaning(s, st, w, fuel);
    if fuel > 0 {
      assert Mean(Next, st, w, fuel, false) == Done(Cont, st);
      assert Mean(Next, st, w, fuel, true) == Done(Cont, st);
      DoContinueDiverges(c, st, w, fuel - 1);
      DesugarKeepsMeaning(s, st, w, fuel - 1);
    }
  }
}
