/** Statements: what they mean, and the code emitted for them (jit/statements.c). */
module Statements {
  import opened Basics
  import opened Machine
  import opened Expressions

  datatype Range = Range(min: int, max: int)

  /** The statement tree after parsing.  Consecutive cases that share one body form a group. */
  datatype Stmt =
    | ExprStmt(e: Expr)
    | Body(list: StmtList)
    | If(cond: Expr, thn: Option<Stmt>, els: Option<Stmt>)
    | Switch(cond: Expr, groups: GroupList, dflt: Option<Stmt>)
    | Loop(body: Stmt)
    | Break
    | Continue
    | ContinueLabel

  datatype StmtList = End | Node(entry: Stmt, next: StmtList)

  datatype GroupList = NoGroup | Group(ranges: seq<Range>, body: Stmt, next: GroupList)

  // ---------- meaning ----------

  datatype Kind = Normal | Brk | Cont

  datatype Outcome = Done(kind: Kind, st: State) | Timeout

  predicate In(v: int, r: Range) {
    r.min <= v <= r.max
  }

  predicate InSome(v: int, rs: seq<Range>) {
    exists i :: 0 <= i < |rs| && In(v, rs[i])
  }

  /** The body of the first case that contains `v`. */
  function Select(gs: GroupList, v: int): Option<Stmt> {
    match gs
    case NoGroup => None
    case Group(rs, body, next) => if InSome(v, rs) then Some(body) else Select(next, v)
  }

  lemma SelectSmaller(gs: GroupList, v: int)
    ensures Select(gs, v).Some? ==> Select(gs, v).value < gs
  {
  }

  /** ptrs_vartoi. */
  function IntOf(v: Word): int {
    if v.tag == UNDEFINED then 0 else v.n
  }

  /** The list after the continue label at its top level. */
  function AfterLabel(l: StmtList): Option<StmtList> {
    match l
    case End => None
    case Node(s, next) => if s == ContinueLabel then Some(next) else AfterLabel(next)
  }

  /** The outcome of a loop's condition.  The code that is generated for it (ptrs_jit_branch_if) takes a value of
      unknown type for true if it is not undefined or not zero. */
  predicate Passes(c: Expr, x: Word, w: World) {
    if w.code.Some? && TypeOf(c, w.code.value) == TDynamic then x.tag != UNDEFINED || x.n != 0 else Truthy(x)
  }

  /** Without a default the code that compares with one case after the other goes on with the first body. */
  predicate FallsInto(c: Expr, gs: GroupList, env: Env) {
    gs.Group? && !GenExpr(c, env, EMPTY).res.val.Const? && !UseTable(gs)
  }

  /** The body that a switch on `c` runs for the value `v`. */
  function Choice(c: Expr, gs: GroupList, dflt: Option<Stmt>, v: int, w: World): Option<Stmt> {
    if Select(gs, v).Some? then Select(gs, v)
    else if dflt.Some? then dflt
    else if w.code.Some? && FallsInto(c, gs, w.code.value) then Some(gs.body)
    else None
  }

  lemma ChoiceSmaller(s: Stmt, v: int, w: World)
    requires s.Switch?
    ensures var body := Choice(s.cond, s.groups, s.dflt, v, w); body.Some? ==> body.value < s
  {
    SelectSmaller(s.groups, v);
  }

  /** Big-step meaning; `fuel` bounds the iterations of every loop.  After an error nothing is done any more. */
  function Exec(s: Stmt, st: State, w: World, fuel: nat): (r: Outcome)
    ensures r.Done? && r.st.failed ==> r.kind == Normal
    decreases fuel, s
  {
    if st.failed then Done(Normal, st) else
    match s
    case ExprStmt(e) => Done(Normal, Eval(e, st, w).st)
    case Body(list) => ExecList(list, st, w, fuel)
    case If(c, thn, els) =>
      var r := Eval(c, st, w);
      if (if thn.Some? then Truthy(r.v) else Passes(c, r.v, w)) then
        if thn.Some? then Exec(thn.value, r.st, w, fuel) else Done(Normal, r.st)
      else
        if els.Some? then Exec(els.value, r.st, w, fuel) else Done(Normal, r.st)
    case Switch(c, gs, dflt) =>
      var r := Eval(c, st, w);
      ChoiceSmaller(s, IntOf(r.v), w);
      var body := Choice(c, gs, dflt, IntOf(r.v), w);
      if body.Some? then Exec(body.value, r.st, w, fuel) else Done(Normal, r.st)
    case Loop(body) =>
      if fuel == 0 then Timeout else
      var r := Exec(body, st, w, fuel);
      if r.Timeout? then Timeout
      else if r.kind == Brk then Done(Normal, r.st)
      else Exec(s, r.st, w, fuel - 1)
    case Break => Done(Brk, st)
    case Continue => Done(Cont, st)
    case ContinueLabel => Done(Normal, st)
  }

  /** A `continue` goes on after the list's own continue label, if one follows. */
  function ExecList(l: StmtList, st: State, w: World, fuel: nat): (r: Outcome)
    ensures r.Done? && r.st.failed ==> r.kind == Normal
    decreases fuel, l
  {
    if st.failed then Done(Normal, st) else
    match l
    case End => Done(Normal, st)
    case Node(s, next) =>
      var r := Exec(s, st, w, fuel);
      if r.Timeout? then Timeout
      else if r.kind == Normal then ExecList(next, r.st, w, fuel)
      else if r.kind == Cont && AfterLabel(next).Some? then
        AfterSmaller(next);
        ExecList(AfterLabel(next).value, r.st, w, fuel)
      else r
  }

  lemma AfterSmaller(l: StmtList)
    ensures AfterLabel(l).Some? ==> AfterLabel(l).value < l
  {
  }

  // ---------- what the generator handles ----------

  function CaseCount(gs: GroupList): nat {
    match gs
    case NoGroup => 0
    case Group(rs, _, next) => |rs| + CaseCount(next)
  }

  function MinOf(rs: seq<Range>, m: int): int {
    if rs == [] then m else MinOf(rs[1..], if rs[0].min < m then rs[0].min else m)
  }

  function MaxOf(rs: seq<Range>, m: int): int {
    if rs == [] then m else MaxOf(rs[1..], if rs[0].max > m then rs[0].max else m)
  }

  /** stmt->min and stmt->max, as parseSwitchCase accumulates them. */
  function TotalMin(gs: GroupList, m: int): int {
    match gs
    case NoGroup => m
    case Group(rs, _, next) => TotalMin(next, MinOf(rs, m))
  }

  function TotalMax(gs: GroupList, m: int): int {
    match gs
    case NoGroup => m
    case Group(rs, _, next) => TotalMax(next, MaxOf(rs, m))
  }

  const INT64_MAX := 0x7fff_ffff_ffff_ffff
  const INT64_MIN := -0x8000_0000_0000_0000

  function SwitchMin(gs: GroupList): int { TotalMin(gs, INT64_MAX) }
  function SwitchMax(gs: GroupList): int { TotalMax(gs, INT64_MIN) }

  /** The interval, in wrapping 64-bit arithmetic. */
  function Interval(gs: GroupList): int {
    Wrap(SwitchMax(gs) - SwitchMin(gs) + 1)
  }

  /** `interval / caseCount` divides by a size_t, so a negative interval counts as a huge one. */
  predicate UseTable(gs: GroupList) {
    && CaseCount(gs) > 2
    && Interval(gs) < 0x1000
    && (Interval(gs) % 0x1_0000_0000_0000_0000) / CaseCount(gs) < 50
  }

  /** The table's size is the number of values between the extreme cases. */
  predicate TableFits(gs: GroupList) {
    0 <= Interval(gs) == SwitchMax(gs) - SwitchMin(gs) + 1
  }

  ghost predicate RangesFit(rs: seq<Range>) {
    forall i :: 0 <= i < |rs| ==> Fits(rs[i].min) && Fits(rs[i].max)
  }

  /** Lists that hold expression statements only. */
  predicate Plain(l: StmtList, env: Env) {
    l.Node? ==> l.entry.ExprStmt? && WellTyped(l.entry.e, env) && Plain(l.next, env)
  }

  /** A constant on which a switch without a default is made has a case; without one the generator's search ends
      behind the last case. */
  predicate Hits(gs: GroupList, cond: Value) {
    cond.Const? ==> Select(gs, cond.n).Some?
  }

  /** The statements that the generator handles: `break` and `continue` stand in loops; a switch on a constant finds
      a body, and the interval of a jump table does not wrap; a continue label only stands at the top level of a
      loop body, followed by expressions. */
  ghost predicate StmtOk(s: Stmt, env: Env, inLoop: bool)
    decreases s
  {
    match s
    case ExprStmt(e) => WellTyped(e, env)
    case Body(list) => ListOk(list, env, inLoop, false)
    case If(c, thn, els) =>
      && WellTyped(c, env)
      && (thn.Some? ==> StmtOk(thn.value, env, inLoop))
      && (els.Some? ==> StmtOk(els.value, env, inLoop))
    case Switch(c, gs, dflt) =>
      && WellTyped(c, env)
      && GroupsOk(gs, env, inLoop)
      && (if dflt.Some? then StmtOk(dflt.value, env, inLoop) else Hits(gs, GenExpr(c, env, EMPTY).res.val))
      && (UseTable(gs) ==> TableFits(gs))
    case Loop(body) => if body.Body? then ListOk(body.list, env, true, true) else StmtOk(body, env, true)
    case Break => inLoop
    case Continue => inLoop
    case ContinueLabel => false
  }

  ghost predicate ListOk(l: StmtList, env: Env, inLoop: bool, labelled: bool)
    decreases l
  {
    l.Node? ==>
      if labelled && l.entry == ContinueLabel then Plain(l.next, env)
      else StmtOk(l.entry, env, inLoop) && ListOk(l.next, env, inLoop, labelled)
  }

  ghost predicate GroupsOk(gs: GroupList, env: Env, inLoop: bool)
    decreases gs
  {
    gs.Group? ==> RangesFit(gs.ranges) && StmtOk(gs.body, env, inLoop) && GroupsOk(gs.next, env, inLoop)
  }

  // ---------- what the generator emits ----------

  /** The scope's continueLabel and breakLabel. */
  datatype Ctl = Ctl(cont: nat, brk: nat)

  /** ptrs_jit_branch_if. */
  function GenBranchIf(v: JitVar, l: nat, b: Builder): Builder {
    if v.ty == TUndefined || (v.val.Const? && v.val.n == 0) then b
    else if v.ty != TDynamic && v.val.Const? then b.Emit(Branch(l))
    else
      var b1 := if v.ty == TDynamic
                then b.Fresh(1).Emit(Alu(b.next, Eq, v.meta, Const(UNDEFINED))).Emit(BranchIfNot(Temp(b.next), l))
                else b;
      if v.val.Const? then b1 else b1.Emit(BranchIf(v.val, l))
  }

  /** ptrs_jit_vartoi on int, undefined and dynamic operands. */
  function GenInt(v: JitVar, b: Builder): EmittedValue {
    if v.val.Const? && v.meta.Const? then EmittedValue(b, Const(IntOf(Word(v.val.n, v.meta.n))))
    else if v.ty == TUndefined then EmittedValue(b, Const(0))
    else if v.ty == TInt then EmittedValue(b, v.val)
    else EmittedValue(b.Fresh(1).Emit(ToInt(b.next, v.val, v.meta)), Temp(b.next))
  }

  /** Whether handling `s` sets the scope's hasCustomContinueLabel. */
  predicate SetsLabel(s: Stmt) {
    match s
    case ContinueLabel => true
    case Body(list) => ListSetsLabel(list)
    case If(_, thn, els) => (thn.Some? && SetsLabel(thn.value)) || (els.Some? && SetsLabel(els.value))
    case Switch(_, gs, dflt) => GroupsSetLabel(gs) || (dflt.Some? && SetsLabel(dflt.value))
    case _ => false
  }

  predicate ListSetsLabel(l: StmtList) {
    l.Node? && (SetsLabel(l.entry) || ListSetsLabel(l.next))
  }

  predicate GroupsSetLabel(gs: GroupList) {
    gs.Group? && (SetsLabel(gs.body) || GroupsSetLabel(gs.next))
  }

  function GenStmt(s: Stmt, env: Env, ctl: Ctl, b: Builder): Builder
    decreases s, 2
  {
    match s
    case ExprStmt(e) => GenExpr(e, env, b).b
    case Body(list) => GenList(list, env, ctl, b)
    case If(_, _, _) => GenIf(s, env, ctl, b)
    case Switch(_, _, _) => GenSwitch(s, env, ctl, b)
    case Loop(body) => GenLoop(s, env, b)
    case Break => b.Emit(Branch(ctl.brk))
    case Continue => b.Emit(Branch(ctl.cont))
    case ContinueLabel => b.Emit(Label(ctl.cont))
  }

  /** ptrs_handle_body. */
  function GenList(l: StmtList, env: Env, ctl: Ctl, b: Builder): Builder
    decreases l, 0
  {
    match l
    case End => b
    case Node(s, next) => GenList(next, env, ctl, GenStmt(s, env, ctl, b))
  }

  /** ptrs_handle_if: the condition and the first branch ... */
  function GenThen(s: Stmt, env: Env, ctl: Ctl, b: Builder): Builder
    requires s.If?
    decreases s, 0
  {
    var gc := GenExpr(s.cond, env, b);
    var isFalse, end, b0 := gc.b.next, gc.b.next + 1, gc.b.Fresh(2);
    if s.thn.None? then GenBranchIf(gc.res, end, b0)
    else
      var b1 := GenStmt(s.thn.value, env, ctl, GenBranchIfNot(gc.res, isFalse, b0));
      if s.els.Some? then b1.Emit(Branch(end)) else b1
  }

  /** ... and the rest of it. */
  function GenIf(s: Stmt, env: Env, ctl: Ctl, b: Builder): Builder
    requires s.If?
    decreases s, 1
  {
    var isFalse := GenExpr(s.cond, env, b).b.next;
    var b1 := GenThen(s, env, ctl, b).Emit(Label(isFalse));
    var b2 := if s.els.Some? then GenStmt(s.els.value, env, ctl, b1) else b1;
    b2.Emit(Label(isFalse + 1))
  }

  /** ptrs_handle_loop, up to the end of the body. */
  function GenLoopBody(s: Stmt, env: Env, b: Builder): Builder
    requires s.Loop?
    decreases s, 0
  {
    GenStmt(s.body, env, Ctl(b.next + 2, b.next), b.Fresh(3).Emit(Label(b.next + 1)))
  }

  /** ptrs_handle_loop, up to the label the breaks go to. */
  function GenLoopEnd(s: Stmt, env: Env, b: Builder): Builder
    requires s.Loop?
    decreases s, 1, 0
  {
    var b1 := GenLoopBody(s, env, b);
    (if SetsLabel(s.body) then b1 else b1.Emit(Label(b.next + 2))).Emit(Branch(b.next + 1))
  }

  function GenLoop(s: Stmt, env: Env, b: Builder): Builder
    requires s.Loop?
    decreases s, 1, 1
  {
    GenLoopEnd(s, env, b).Emit(Label(b.next))
  }

  // ptrs_handle_switch

  function GenSwitch(s: Stmt, env: Env, ctl: Ctl, b: Builder): Builder
    requires s.Switch?
    decreases s, 1
  {
    var gc := GenExpr(s.cond, env, b);
    var done := gc.b.next;
    var v := GenInt(gc.res, gc.b.Fresh(1));
    var b1 :=
      if gc.res.val.Const? then GenConstant(s, env, ctl, gc.res.val.n, v.b)
      else if UseTable(s.groups) then GenTable(s, env, ctl, done, v)
      else GenChain(s, env, ctl, done, v);
    b1.Emit(Label(done))
  }

  /** A constant condition selects its body while the code is generated. */
  function GenConstant(s: Stmt, env: Env, ctl: Ctl, v: int, b: Builder): Builder
    requires s.Switch?
    decreases s, 0
  {
    SelectSmaller(s.groups, v);
    var body := Select(s.groups, v);
    if body.Some? then GenStmt(body.value, env, ctl, b)
    else if s.dflt.Some? then GenStmt(s.dflt.value, env, ctl, b)
    else b
  }

  function Labels(first: nat, count: nat): (r: seq<nat>)
    ensures |r| == count
    ensures forall i :: 0 <= i < count ==> r[i] == first + i
  {
    seq(count, i => first + i)
  }

  /** The dispatch of a jump table whose labels start at `table`. */
  function GenIndex(gs: GroupList, v: EmittedValue, n: nat, fold: bool): EmittedValue {
    var b := v.b.Fresh(n + 1);
    if SwitchMin(gs) != 0 then GenAlu(Sub, v.val, Const(SwitchMin(gs)), fold, b) else EmittedValue(b, v.val)
  }

  /** ... and the jump through it. */
  function GenDispatch(gs: GroupList, v: EmittedValue, fold: bool): EmittedValue {
    var n := if Interval(gs) < 0 then 0 else Interval(gs);
    var i := GenIndex(gs, v, n, fold);
    EmittedValue(i.b.Emit(JumpTable(i.val, Labels(v.b.next, n))).Emit(Branch(v.b.next + n)), i.val)
  }

  function GenTable(s: Stmt, env: Env, ctl: Ctl, done: nat, v: EmittedValue): Builder
    requires s.Switch?
    decreases s, 0
  {
    var n := if Interval(s.groups) < 0 then 0 else Interval(s.groups);
    var table := v.b.next;
    var b1 := GenGroups(s.groups, env, ctl, done, table - SwitchMin(s.groups), GenDispatch(s.groups, v, env.fold).b);
    var b2 := PlaceMissing(s.groups, table, n, b1).Emit(Label(table + n));
    if s.dflt.Some? then GenStmt(s.dflt.value, env, ctl, b2) else b2
  }

  /** The labels of one case: `base + x` for every x in the range. */
  function PlaceRange(x: int, max: int, base: int, b: Builder): Builder
    decreases max - x
  {
    if x > max then b
    else PlaceRange(x + 1, max, base, if base + x < 0 then b else b.Emit(Label(base + x)))
  }

  function PlaceRanges(rs: seq<Range>, base: int, b: Builder): Builder {
    if rs == [] then b else PlaceRanges(rs[1..], base, PlaceRange(rs[0].min, rs[0].max, base, b))
  }

  /** Each group: its labels, its body, and a branch to the end. */
  function GenGroups(gs: GroupList, env: Env, ctl: Ctl, done: nat, base: int, b: Builder): Builder
    decreases gs, 0
  {
    match gs
    case NoGroup => b
    case Group(rs, body, next) =>
      GenGroups(next, env, ctl, done, base, GenStmt(body, env, ctl, PlaceRanges(rs, base, b)).Emit(Branch(done)))
  }

  /** The entries of the table that have no case. */
  function PlaceMissing(gs: GroupList, table: nat, n: nat, b: Builder): Builder {
    PlaceMissingFrom(gs, table, 0, n, b)
  }

  function PlaceMissingFrom(gs: GroupList, table: nat, i: nat, n: nat, b: Builder): Builder
    decreases n - i
  {
    if i >= n then b
    else PlaceMissingFrom(gs, table, i + 1, n,
                          if Select(gs, SwitchMin(gs) + i).Some? then b else b.Emit(Label(table + i)))
  }

  function GenChain(s: Stmt, env: Env, ctl: Ctl, done: nat, v: EmittedValue): Builder
    requires s.Switch?
    decreases s, 0
  {
    var cases := v.b.next;
    var b1 := GenTests(s.groups, v.val, cases, v.b.Fresh(CaseCount(s.groups)));
    var b2 := if s.dflt.Some? then GenStmt(s.dflt.value, env, ctl, b1).Emit(Branch(done)) else b1;
    GenBodies(s.groups, env, ctl, done, cases, b2)
  }

  function GenTest(v: Value, r: Range, l: nat, b: Builder): Builder {
    if r.min == r.max then
      b.Fresh(1).Emit(Alu(b.next, Eq, v, Const(r.min))).Emit(BranchIf(Temp(b.next), l))
    else
      var noMatch := b.next + 2;
      b.Fresh(3).Emit(Alu(b.next, Ge, v, Const(r.min))).Emit(BranchIfNot(Temp(b.next), noMatch))
       .Emit(Alu(b.next + 1, Le, v, Const(r.max))).Emit(BranchIf(Temp(b.next + 1), l)).Emit(Label(noMatch))
  }

  function GenRangeTests(rs: seq<Range>, v: Value, l: nat, b: Builder): Builder {
    if rs == [] then b else GenRangeTests(rs[1..], v, l + 1, GenTest(v, rs[0], l, b))
  }

  function GenTests(gs: GroupList, v: Value, l: nat, b: Builder): Builder {
    match gs
    case NoGroup => b
    case Group(rs, _, next) => GenTests(next, v, l + |rs|, GenRangeTests(rs, v, l, b))
  }

  function PlaceLabels(l: nat, count: nat, b: Builder): Builder
    decreases count
  {
    if count == 0 then b else PlaceLabels(l + 1, count - 1, b.Emit(Label(l)))
  }

  function GenBodies(gs: GroupList, env: Env, ctl: Ctl, done: nat, l: nat, b: Builder): Builder
    decreases gs, 0
  {
    match gs
    case NoGroup => b
    case Group(rs, body, next) =>
      GenBodies(next, env, ctl, done, l + |rs|, GenStmt(body, env, ctl, PlaceLabels(l, |rs|, b)).Emit(Branch(done)))
  }
}
