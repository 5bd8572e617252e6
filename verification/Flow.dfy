/** Type prediction: an abstract interpretation of int and float programs that records at every
    identifier the type it will have (jit/lib/flow.c).  Predicted values are not modelled: whether a
    branch condition is predicted, and whether an operation on constants is folded, is an arbitrary
    answer of an oracle. */
module Flow {
  import opened Basics

  const UNDEFINED: Tag := 0
  const INT: Tag := 1
  const FLOAT: Tag := 2

  /** The type byte of a meta word. */
  type Tag = t: int | 0 <= t < 256

  datatype Val = Val(n: int, tag: Tag)

  // ---------- programs ----------

  datatype Op =
    | Equal | Unequal | TypeEqual | TypeUnequal | LessEqual | GreaterEqual | Less | Greater
    | Or | Xor | And | UShr | SShr | Shl | Mod
    | Add | Sub | Mul | Div
    | LogicXor

  datatype Unary = Minus | BitNot | Plus | LogicNot | TypeOf | ToInt | ToFloat

  /** What the analysis records at an identifier: its predicted type, and its predicted meta (of which the
      model keeps the type byte). */
  datatype Note = Note(ty: Option<int>, meta: Option<int>)

  /** `id` names a node whose condition may be predicted; `guess` is the recorded prediction.  `keeps` records that
      analysing an operand that may be skipped left only facts that were known before. */
  datatype Expr =
    | Const(v: Val)
    | Input(k: nat)
    | Ident(x: nat, note: Note)
    | Assign(x: nat, value: Expr)
    | Binary(op: Op, left: Expr, right: Expr)
    | Prefix(un: Unary, arg: Expr)
    | LogicOr(id: nat, guess: Option<bool>, keeps: bool, left: Expr, right: Expr)
    | LogicAnd(id: nat, guess: Option<bool>, keeps: bool, left: Expr, right: Expr)
    | Ternary(id: nat, guess: Option<bool>, keepsTrue: bool, keepsFalse: bool, cond: Expr, whenTrue: Expr, whenFalse: Expr)

  /** `if(cond) { } else break;`  At the start of a loop, `keeps` records that the facts known before the condition
      are still known after it. */
  datatype Exit = Exit(id: nat, guess: Option<bool>, keeps: bool, cond: Expr)

  /** A loop breaks only at its first or its last statement, as the parser's `while`, `for` and `do` do.
      `stable` records that the third pass over the body changed nothing. */
  datatype Stmt =
    | ExprStmt(e: Expr)
    | Define(x: nat, init: Option<Expr>)
    | Block(list: StmtList)
    | If(id: nat, guess: Option<bool>, cond: Expr, thn: Stmt, els: Stmt)
    | Loop(head: Option<Exit>, body: Stmt, tail: Option<Exit>, stable: bool)
    | Return(e: Expr)

  datatype StmtList = Done | Then(entry: Stmt, next: StmtList)

  // ---------- the analysis ----------

  datatype Pred = Pred(ty: Option<int>, meta: Option<int>)

  const UNKNOWN := Pred(None, None)

  /** ptrs_flow_t.  `ticks` counts the questions put to the oracle. */
  datatype State = State(dry: bool, dead: bool, preds: map<nat, Pred>, ticks: nat)

  /** `constant` answers for conditions that do not depend on variables, `predicted` for the others. */
  datatype Oracle = Oracle(constant: nat -> Option<bool>, predicted: nat -> Option<bool>, folded: nat -> bool)

  /** prediction2bool.  A dry run knows nothing about variables. */
  function Guess(o: Oracle, id: nat, f: State): Option<bool> {
    if o.constant(id).Some? then o.constant(id)
    else if f.dry then None
    else o.predicted(f.ticks)
  }

  function Tick(f: State): State {
    f.(ticks := f.ticks + 1)
  }

  /** getVariablePrediction. */
  function Get(f: State, x: nat): Pred {
    if f.dry || x !in f.preds then UNKNOWN else f.preds[x]
  }

  /** setVariablePrediction. */
  function Put(f: State, x: nat, p: Pred): State {
    f.(preds := f.preds[x := if f.dry then UNKNOWN else p])
  }

  function Agree(a: Option<int>, b: Option<int>): Option<int> {
    if a == b then a else None
  }

  function MergePred(a: Pred, b: Pred): Pred {
    Pred(Agree(a.ty, b.ty), Agree(a.meta, b.meta))
  }

  /** mergePredictions. */
  function Merge(dest: State, src: State): State {
    if dest.dry || src.dry then dest
    else if dest.dead then dest.(preds := src.preds, dead := src.dead)
    else if src.dead then dest
    else dest.(preds := MergeMaps(dest.preds, src.preds))
  }

  function MergeMaps(a: map<nat, Pred>, b: map<nat, Pred>): map<nat, Pred> {
    map x | x in a.Keys + b.Keys ::
      if x !in b then a[x] else if x !in a then b[x] else MergePred(a[x], b[x])
  }

  /** What `a` says of a variable's type, `b` says as its type or in its meta. */
  predicate Implied(a: Pred, b: Pred) {
    (a.ty.Some? ==> a.ty == b.ty || a.ty == b.meta) && (a.meta.Some? ==> a.meta == b.ty || a.meta == b.meta)
  }

  /** All that `weak` knows of the types of variables, `strong` knows too.  (A dry run knows nothing.) */
  predicate Entails(strong: State, weak: State) {
    strong.dry || forall x :: x in weak.preds ==> Implied(weak.preds[x], Get(strong, x))
  }

  predicate Compares(op: Op) {
    op.Equal? || op.Unequal? || op.TypeEqual? || op.TypeUnequal? || op.LessEqual? || op.GreaterEqual? || op.Less? || op.Greater?
  }

  predicate OnInts(op: Op) {
    op.Or? || op.Xor? || op.And? || op.UShr? || op.SShr? || op.Shl? || op.Mod?
  }

  predicate Number(tag: int) {
    tag == INT || tag == FLOAT
  }

  /** The type tables. */
  function TableType(op: Op, a: int, b: int): Option<int> {
    if OnInts(op) || op.LogicXor? then (if a == INT && b == INT then Some(INT) else None)
    else if Number(a) && Number(b) then (if a == INT && b == INT then Some(INT) else Some(FLOAT))
    else None
  }

  function BinaryPred(op: Op, a: Pred, b: Pred, folded: bool): Pred {
    if a.ty.Some? && a.meta.Some? && b.ty.Some? && b.meta.Some? && folded then
      var t := if Compares(op) || op.LogicXor? then Some(INT) else TableType(op, a.ty.value, b.ty.value);
      Pred(t, t)
    else if Compares(op) then Pred(Some(INT), None)
    else if a.ty.Some? && b.ty.Some? then Pred(TableType(op, a.ty.value, b.ty.value), None)
    else UNKNOWN
  }

  const KNOWN_INT := Pred(Some(INT), Some(INT))

  function UnaryPred(un: Unary, p: Pred): Pred {
    match un
    case Minus => if p.ty == Some(INT) || p.ty == Some(FLOAT) then p else UNKNOWN
    case BitNot => if p.ty == Some(INT) then p else UNKNOWN
    case Plus => p
    case ToFloat => Pred(Some(FLOAT), Some(FLOAT))
    case _ => KNOWN_INT
  }

  datatype Analyzed = Analyzed(e: Expr, p: Pred, f: State)

  /** analyzeExpression. */
  function AnalyzeExpr(e: Expr, f: State, o: Oracle): Analyzed {
    match e
    case Const(v) => Analyzed(e, Pred(Some(v.tag), Some(v.tag)), f)
    case Input(_) => Analyzed(e, UNKNOWN, f)
    case Ident(x, _) =>
      var p := Get(f, x);
      Analyzed(Ident(x, Note(p.ty, p.meta)), p, f)
    case Assign(x, value) =>
      var r := AnalyzeExpr(value, f, o);
      Analyzed(Assign(x, r.e), r.p, Put(r.f, x, r.p))
    case Binary(op, left, right) =>
      var a := AnalyzeExpr(left, f, o);
      var b := AnalyzeExpr(right, a.f, o);
      Analyzed(Binary(op, a.e, b.e), BinaryPred(op, a.p, b.p, o.folded(b.f.ticks)), Tick(b.f))
    case Prefix(un, arg) =>
      var r := AnalyzeExpr(arg, f, o);
      Analyzed(Prefix(un, r.e), UnaryPred(un, r.p), r.f)
    case LogicOr(id, _, _, left, right) =>
      var a := AnalyzeExpr(left, f, o);
      var g, f1 := Guess(o, id, a.f), Tick(a.f);
      if g == Some(true) then Analyzed(LogicOr(id, g, true, a.e, right), KNOWN_INT, f1)
      else
        var b := AnalyzeExpr(right, f1, o);
        Analyzed(LogicOr(id, g, Entails(f1, b.f), a.e, b.e), KNOWN_INT, b.f)
    case LogicAnd(id, _, _, left, right) =>
      var a := AnalyzeExpr(left, f, o);
      var g, f1 := Guess(o, id, a.f), Tick(a.f);
      if g == Some(false) then Analyzed(LogicAnd(id, g, true, a.e, right), KNOWN_INT, f1)
      else
        var b := AnalyzeExpr(right, f1, o);
        Analyzed(LogicAnd(id, g, Entails(f1, b.f), a.e, b.e), KNOWN_INT, b.f)
    case Ternary(id, _, _, _, c, t, n) =>
      var a := AnalyzeExpr(c, f, o);
      var g, f1 := Guess(o, id, a.f), Tick(a.f);
      var b := AnalyzeExpr(t, f1, o);
      var d := AnalyzeExpr(n, b.f, o);
      Analyzed(Ternary(id, g, Entails(f1, b.f), Entails(b.f, d.f), a.e, b.e, d.e),
               if g.None? then UNKNOWN else if g.value then b.p else d.p, d.f)
  }

  /** `typeof x == literal`, the literal on either side: the variable and the literal. */
  function TypeTest(a: Expr, b: Expr): Option<(nat, int)> {
    var (test, literal) := if IsTypeOf(a) then (a, b) else (b, a);
    if IsTypeOf(test) && test.arg.Ident? && literal.Const? && literal.v.tag == INT then Some((test.arg.x, literal.v.n))
    else None
  }

  predicate IsTypeOf(e: Expr) {
    e.Prefix? && e.un.TypeOf?
  }

  predicate TestsType(op: Op, isElse: bool) {
    if isElse then op.Unequal? || op.TypeUnequal? else op.Equal? || op.TypeEqual?
  }

  /** analyzeTypeCheckCondition: the literal becomes the type byte. */
  function RefineTo(f: State, x: nat, literal: int): State {
    var t := literal % 256;
    var p := Get(f, x);
    Put(f, x, Pred(Some(t), if p.meta.Some? then Some(t) else None))
  }

  /** analyzeCondition. */
  function Refine(f: State, c: Expr, isElse: bool): State
    decreases c
  {
    match c
    case Prefix(LogicNot, arg) => Refine(f, arg, !isElse)
    case Binary(op, a, b) =>
      if TestsType(op, isElse) && TypeTest(a, b).Some? then
        RefineTo(f, TypeTest(a, b).value.0, TypeTest(a, b).value.1)
      else f
    case LogicAnd(_, _, _, a, b) => Refine(Refine(f, a, isElse), b, isElse)
    case _ => f
  }

  /** What a side of a condition makes the analysis believe: the type of each variable it tests. */
  function Teaches(c: Expr, isElse: bool): map<nat, int>
    decreases c
  {
    match c
    case Prefix(LogicNot, arg) => Teaches(arg, !isElse)
    case Binary(op, a, b) =>
      if TestsType(op, isElse) && TypeTest(a, b).Some? then
        map[TypeTest(a, b).value.0 := TypeTest(a, b).value.1 % 256]
      else map[]
    case LogicAnd(_, _, _, a, b) => Teaches(a, isElse) + Teaches(b, isElse)
    case _ => map[]
  }

  datatype AnalyzedExit = AnalyzedExit(x: Option<Exit>, f: State)

  /** The analysis of `if(cond) { } else break;`. */
  function AnalyzeExit(x: Option<Exit>, f: State, o: Oracle): AnalyzedExit {
    if x.None? then AnalyzedExit(None, f) else
    var r := AnalyzeExpr(x.value.cond, f, o);
    var g := Guess(o, x.value.id, r.f);
    AnalyzedExit(Some(Exit(x.value.id, g, Entails(r.f, f), r.e)), BothSides(Tick(r.f), r.e, g))
  }

  function BothSides(f: State, c: Expr, g: Option<bool>): State {
    if g.Some? then Refine(f, c, !g.value)
    else if f.dry then Refine(Refine(f, c, false), c, true)
    else Merge(Refine(f, c, false), Refine(f, c, true))
  }

  datatype AnalyzedStmt = AnalyzedStmt(s: Stmt, f: State)

  function Size(s: Stmt): nat {
    match s
    case Block(list) => 1 + ListSize(list)
    case If(_, _, _, thn, els) => 1 + Size(thn) + Size(els)
    case Loop(_, body, _, _) => 1 + Size(body)
    case _ => 0
  }

  function ListSize(l: StmtList): nat {
    match l
    case Done => 0
    case Then(s, next) => 1 + Size(s) + ListSize(next)
  }

  /** analyzeStatement. */
  function AnalyzeStmt(s: Stmt, f: State, o: Oracle): (r: AnalyzedStmt)
    ensures Size(r.s) == Size(s)
    decreases Size(s), 2
  {
    match s
    case ExprStmt(e) =>
      var r := AnalyzeExpr(e, f, o);
      AnalyzedStmt(ExprStmt(r.e), r.f)
    case Define(x, init) =>
      if init.None? then AnalyzedStmt(s, Put(f, x, UNKNOWN)) else
      var r := AnalyzeExpr(init.value, f, o);
      AnalyzedStmt(Define(x, Some(r.e)), Put(r.f, x, r.p))
    case Block(list) =>
      var r := AnalyzeList(list, f, o);
      AnalyzedStmt(Block(r.list), r.f)
    case If(_, _, _, _, _) => AnalyzeIf(s, f, o)
    case Loop(_, _, _, _) =>
      if f.dry then
        var r := AnalyzeBody(s, f, o);
        AnalyzedStmt(r.s, r.f)
      else
        var a := AnalyzePass(s, f, o);
        var b := AnalyzePass(a.s, a.f, o);
        var c := AnalyzePass(b.s, b.f, o);
        AnalyzedStmt(c.s.(stable := c.f.preds == b.f.preds && c.f.dead == b.f.dead), c.f)
    case Return(e) =>
      var r := AnalyzeExpr(e, f, o);
      AnalyzedStmt(Return(r.e), r.f.(dead := true))
  }

  datatype AnalyzedList = AnalyzedList(list: StmtList, f: State)

  function AnalyzeList(l: StmtList, f: State, o: Oracle): (r: AnalyzedList)
    ensures ListSize(r.list) == ListSize(l)
    decreases ListSize(l), 3
  {
    match l
    case Done => AnalyzedList(Done, f)
    case Then(s, next) =>
      var a := AnalyzeStmt(s, f, o);
      var b := AnalyzeList(next, a.f, o);
      AnalyzedList(Then(a.s, b.list), b.f)
  }

  function AnalyzeIf(s: Stmt, f: State, o: Oracle): (r: AnalyzedStmt)
    requires s.If?
    ensures Size(r.s) == Size(s)
    decreases Size(s), 1
  {
    var r := AnalyzeExpr(s.cond, f, o);
    var g := Guess(o, s.id, r.f);
    var f1 := Tick(r.f);
    if g == Some(true) then
      var a := AnalyzeStmt(s.thn, Refine(f1, r.e, false), o);
      AnalyzedStmt(If(s.id, g, r.e, a.s, s.els), a.f)
    else if g == Some(false) then
      var b := AnalyzeStmt(s.els, Refine(f1, r.e, true), o);
      AnalyzedStmt(If(s.id, g, r.e, s.thn, b.s), b.f)
    else
      var a := AnalyzeStmt(s.thn, Refine(f1, r.e, false), o);
      var other := if f.dry then a.f else f1.(ticks := a.f.ticks);
      var b := AnalyzeStmt(s.els, Refine(other, r.e, true), o);
      AnalyzedStmt(If(s.id, g, r.e, a.s, b.s), if f.dry then b.f else Merge(a.f, b.f).(ticks := b.f.ticks))
  }

  /** One run over a loop's body. */
  function AnalyzeBody(s: Stmt, f: State, o: Oracle): (r: AnalyzedStmt)
    requires s.Loop?
    ensures r.s.Loop? && Size(r.s) == Size(s)
    decreases Size(s), 0
  {
    var a := AnalyzeExit(s.head, f, o);
    var b := AnalyzeStmt(s.body, a.f, o);
    var c := AnalyzeExit(s.tail, b.f, o);
    AnalyzedStmt(Loop(a.x, b.s, c.x, s.stable), c.f)
  }

  /** A pass: the state after the body, merged with a copy of the state before it. */
  function AnalyzePass(s: Stmt, f: State, o: Oracle): (r: AnalyzedStmt)
    requires s.Loop?
    ensures r.s.Loop? && Size(r.s) == Size(s)
    decreases Size(s), 1
  {
    var r := AnalyzeBody(s, f, o);
    AnalyzedStmt(r.s, Merge(r.f, f))
  }

  const START := State(true, false, map[], 0)

  /** ptrs_flow_analyze: a dry run, and then the real one. */
  function Analyze(s: Stmt, o: Oracle): Stmt {
    var r := AnalyzeStmt(s, START, o);
    AnalyzeStmt(r.s, r.f.(dry := false, dead := false), o).s
  }

  // ---------- running an annotated program ----------

  datatype Store = Store(vars: map<nat, Val>, used: nat)

  /** Input, the payloads of operations (floating point included), and which floats are not zero.  A wary execution
      is one that stops where the analysis has gone on with facts that may not hold: after skipping an operand
      that does not keep them, on leaving a loop by a condition that does not, on a side of a condition that
      teaches a type which the variable does not have, and at a loop whose third pass was not stable. */
  datatype World = World(input: nat -> Val, alu: (Op, Val, Val) -> int, unary: (Unary, Val) -> int, nonzero: int -> bool,
                         wary: bool)

  function Read(st: Store, x: nat): Val {
    if x in st.vars then st.vars[x] else Val(0, UNDEFINED)
  }

  function Write(st: Store, x: nat, v: Val): Store {
    st.(vars := st.vars[x := v])
  }

  predicate Truthy(v: Val, w: World) {
    if v.tag == FLOAT then w.nonzero(v.n) else v.tag != UNDEFINED && v.n != 0
  }

  function Truth(b: bool): Val {
    Val(if b then 1 else 0, INT)
  }

  /** `Bad`: a recorded type is wrong.  `Off`: a recorded prediction of a condition is wrong, or a wary execution
      stops.  `Err`: the program stops with an error of its own. */
  datatype Fate = Bad | Off | Err

  datatype Value = Value(v: Val, st: Store) | Ends(fate: Fate)

  predicate RightNote(n: Note, tag: int) {
    (n.ty.Some? ==> n.ty.value == tag) && (n.meta.Some? ==> n.meta.value == tag)
  }

  /** The type an operation has, or none if it stops the program (jit/ops/binary.c). */
  function ResultType(op: Op, a: Tag, b: Tag): Option<Tag> {
    if Compares(op) || op.LogicXor? then Some(INT)
    else if OnInts(op) then (if a == INT && b == INT then Some(INT) else None)
    else if a == INT && b == INT then Some(INT)
    else if Number(a) && Number(b) then Some(FLOAT)
    else None
  }

  function Payload(op: Op, a: Val, b: Val, w: World): int {
    if op.LogicXor? then Truth(Truthy(a, w) != Truthy(b, w)).n
    else if a.tag == INT && b.tag == INT && (op.Equal? || op.TypeEqual?) then Truth(a.n == b.n).n
    else if a.tag == INT && b.tag == INT && (op.Unequal? || op.TypeUnequal?) then Truth(a.n != b.n).n
    else w.alu(op, a, b)
  }

  function UnaryVal(un: Unary, v: Val, w: World): Val {
    match un
    case Minus => Val(w.unary(un, v), v.tag)
    case BitNot => Val(w.unary(un, v), v.tag)
    case Plus => v
    case LogicNot => Truth(!Truthy(v, w))
    case TypeOf => Val(v.tag, INT)
    case ToInt => Val(w.unary(un, v), INT)
    case ToFloat => Val(w.unary(un, v), FLOAT)
  }

  predicate Missed(g: Option<bool>, truth: bool) {
    g.Some? && g.value != truth
  }

  function Eval(e: Expr, st: Store, w: World): Value {
    match e
    case Const(v) => Value(v, st)
    case Input(k) => Value(w.input(st.used), st.(used := st.used + 1))
    case Ident(x, note) => if RightNote(note, Read(st, x).tag) then Value(Read(st, x), st) else Ends(Bad)
    case Assign(x, value) =>
      var r := Eval(value, st, w);
      if r.Ends? then r else Value(r.v, Write(r.st, x, r.v))
    case Binary(op, left, right) =>
      var a := Eval(left, st, w);
      if a.Ends? then a else
      var b := Eval(right, a.st, w);
      if b.Ends? then b else
      var t := ResultType(op, a.v.tag, b.v.tag);
      if t.None? then Ends(Err) else Value(Val(Payload(op, a.v, b.v, w), t.value), b.st)
    case Prefix(un, arg) =>
      var r := Eval(arg, st, w);
      if r.Ends? then r else Value(UnaryVal(un, r.v, w), r.st)
    case LogicOr(_, g, keeps, left, right) =>
      var a := Eval(left, st, w);
      if a.Ends? then a
      else if Missed(g, Truthy(a.v, w)) then Ends(Off)
      else if Truthy(a.v, w) then (if MaySkip(keeps, w) then Value(Truth(true), a.st) else Ends(Off)) else
      var b := Eval(right, a.st, w);
      if b.Ends? then b else Value(Truth(Truthy(b.v, w)), b.st)
    case LogicAnd(_, g, keeps, left, right) =>
      var a := Eval(left, st, w);
      if a.Ends? then a
      else if Missed(g, Truthy(a.v, w)) then Ends(Off)
      else if !Truthy(a.v, w) then (if MaySkip(keeps, w) then Value(Truth(false), a.st) else Ends(Off)) else
      var b := Eval(right, a.st, w);
      if b.Ends? then b else Value(Truth(Truthy(b.v, w)), b.st)
    case Ternary(_, g, keepsTrue, keepsFalse, c, t, n) =>
      var a := Eval(c, st, w);
      if a.Ends? then a
      else if Missed(g, Truthy(a.v, w)) then Ends(Off)
      else if !MaySkip(if Truthy(a.v, w) then keepsFalse else keepsTrue, w) then Ends(Off)
      else if Truthy(a.v, w) then Eval(t, a.st, w) else Eval(n, a.st, w)
  }

  /** A wary execution skips no operand that does not keep the facts known before it. */
  predicate MaySkip(keeps: bool, w: World) {
    w.wary ==> keeps
  }

  /** `x === e` and `x !== e` also refine, by the value of `e`; that is not modelled. */
  predicate TestsValue(op: Op, a: Expr, b: Expr, isElse: bool) {
    && TestsType(op, isElse) && (op.TypeEqual? || op.TypeUnequal?)
    && !IsTypeOf(a) && !IsTypeOf(b) && (a.Ident? || b.Ident?)
  }

  predicate TestsNoValue(c: Expr, isElse: bool)
    decreases c
  {
    match c
    case Prefix(LogicNot, arg) => TestsNoValue(arg, !isElse)
    case Binary(op, a, b) => !TestsValue(op, a, b, isElse)
    case LogicAnd(_, _, _, a, b) => TestsNoValue(a, isElse) && TestsNoValue(b, isElse)
    case _ => true
  }

  /** What this side of a condition teaches is true of the store after it. */
  predicate Taught(c: Expr, isElse: bool, st: Store) {
    var m := Teaches(c, isElse);
    forall x :: x in m ==> Read(st, x).tag == m[x]
  }

  predicate Trusted(c: Expr, isElse: bool, st: Store, w: World) {
    w.wary ==> TestsNoValue(c, isElse) && Taught(c, isElse, st)
  }

  datatype Outcome = Normal(st: Store) | Broke(st: Store) | Returned | Stopped(fate: Fate) | Timeout

  function ExecExit(x: Option<Exit>, st: Store, w: World): Outcome {
    if x.None? then Normal(st) else
    var r := Eval(x.value.cond, st, w);
    if r.Ends? then Stopped(r.fate)
    else if Missed(x.value.guess, Truthy(r.v, w)) then Stopped(Off)
    else if !Trusted(x.value.cond, !Truthy(r.v, w), r.st, w) then Stopped(Off)
    else if Truthy(r.v, w) then Normal(r.st) else Broke(r.st)
  }

  function Exec(s: Stmt, st: Store, w: World, fuel: nat): Outcome
    decreases fuel, s, 1
  {
    match s
    case ExprStmt(e) =>
      var r := Eval(e, st, w);
      if r.Ends? then Stopped(r.fate) else Normal(r.st)
    case Define(x, init) =>
      if init.None? then Normal(Write(st, x, Val(0, UNDEFINED))) else
      var r := Eval(init.value, st, w);
      if r.Ends? then Stopped(r.fate) else Normal(Write(r.st, x, r.v))
    case Block(list) => ExecList(list, st, w, fuel)
    case If(_, g, c, thn, els) =>
      var r := Eval(c, st, w);
      if r.Ends? then Stopped(r.fate)
      else if Missed(g, Truthy(r.v, w)) || !Trusted(c, !Truthy(r.v, w), r.st, w) then Stopped(Off)
      else if Truthy(r.v, w) then Exec(thn, r.st, w, fuel) else Exec(els, r.st, w, fuel)
    case Loop(_, _, _, stable) =>
      if w.wary && !stable then Stopped(Off)
      else if fuel == 0 then Timeout
      else
        var r := ExecTurn(s, st, w, fuel);
        if r.Normal? then Exec(s, r.st, w, fuel - 1)
        else if r.Broke? then Normal(r.st)
        else r
    case Return(e) =>
      var r := Eval(e, st, w);
      if r.Ends? then Stopped(r.fate) else Returned
  }

  /** One turn of a loop. */
  function ExecTurn(s: Stmt, st: Store, w: World, fuel: nat): Outcome
    requires s.Loop?
    decreases fuel, s, 0
  {
    var a := ExecExit(s.head, st, w);
    if a.Broke? && !MaySkip(s.head.value.keeps, w) then Stopped(Off)
    else if !a.Normal? then a else
    var b := Exec(s.body, a.st, w, fuel);
    if !b.Normal? then b else ExecExit(s.tail, b.st, w)
  }

  function ExecList(l: StmtList, st: Store, w: World, fuel: nat): Outcome
    decreases fuel, l, 1
  {
    match l
    case Done => Normal(st)
    case Then(s, next) =>
      var r := Exec(s, st, w, fuel);
      if r.Normal? then ExecList(next, r.st, w, fuel) else r
  }
}
