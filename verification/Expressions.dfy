/** Lowering of operand expressions: `&&`, `||`, `^^`, `!`, `?:`, assignment, int arithmetic and
    calls (jit/ops/special.c, jit/ops/binary.c, jit/lib/conversion.c, jit/specialexpr.c). */
module Expressions {
  import opened Basics
  import opened Machine

  /** PTRS_TYPE_UNDEFINED, PTRS_TYPE_INT and PTRS_TYPE_DYNAMIC as static types of an operand. */
  datatype StaticType = TUndefined | TInt | TDynamic

  datatype Expr =
    | Lit(v: Word)
    | Var(x: nat)
    | Call(f: nat, typed: bool)
    | Assign(x: nat, value: Expr)
    | Arith(op: AluOp, left: Expr, right: Expr)
    | LogicOr(left: Expr, right: Expr)
    | LogicAnd(left: Expr, right: Expr)
    | LogicXor(left: Expr, right: Expr)
    | LogicNot(arg: Expr)
    | Ternary(cond: Expr, whenTrue: Expr, whenFalse: Expr)

  // ---------- what an expression means ----------

  datatype Result = Result(v: Word, st: State)

  function Truth(b: bool): Word {
    Word(Bit(b), INT)
  }

  /** The variable whose storage the operand of `e` still refers to after `e` was lowered: an
      identifier is not copied, and an assignment hands its right operand through. */
  function LiveVar(e: Expr): Option<nat> {
    match e
    case Var(x) => Some(x)
    case Assign(_, value) => LiveVar(value)
    case _ => None
  }

  /** The left operand of a strict operator, which had the value `v`, in the state `st` after the right one. */
  function LeftWord(l: Expr, v: Word, st: State, w: World): Word {
    if w.code.Some? && LiveVar(l).Some? then Read(st, LiveVar(l).value) else v
  }

  const NO_VALUE := Word(0, UNDEFINED)

  /** An error ends the evaluation. */
  function Eval(e: Expr, st: State, w: World): (r: Result)
    ensures r.st.failed ==> r.v == NO_VALUE
  {
    if st.failed then Result(NO_VALUE, st) else
    match e
    case Lit(v) => Result(v, st)
    case Var(x) => Result(Read(st, x), st)
    case Call(f, typed) =>
      var r := w.calls(f, st.trace);
      Result(if typed then Word(r.n, INT) else r, st.(trace := st.trace + [f]))
    case Assign(x, value) =>
      var r := Eval(value, st, w);
      if r.st.failed then r else Result(r.v, r.st.(vars := r.st.vars[x := r.v]))
    case Arith(op, l, r) =>
      var a := Eval(l, st, w);
      var b := Eval(r, a.st, w);
      if b.st.failed then b else
      var v := Intrinsic(op, LeftWord(l, a.v, b.st, w), b.v);
      if v.None? then Result(NO_VALUE, Fail(b.st)) else Result(v.value, b.st)
    case LogicOr(l, r) =>
      var a := Eval(l, st, w);
      if a.st.failed then a else
      if Truthy(a.v) then Result(Truth(true), a.st) else
      var b := Eval(r, a.st, w);
      if b.st.failed then b else Result(Truth(Truthy(b.v)), b.st)
    case LogicAnd(l, r) =>
      var a := Eval(l, st, w);
      if a.st.failed then a else
      if !Truthy(a.v) then Result(Truth(false), a.st) else
      var b := Eval(r, a.st, w);
      if b.st.failed then b else Result(Truth(Truthy(b.v)), b.st)
    case LogicXor(l, r) =>
      var a := Eval(l, st, w);
      var b := Eval(r, a.st, w);
      if b.st.failed then b else
      Result(Truth(Truthy(LeftWord(l, a.v, b.st, w)) != Truthy(b.v)), b.st)
    case LogicNot(a) =>
      var r := Eval(a, st, w);
      if r.st.failed then r else Result(Truth(!Truthy(r.v)), r.st)
    case Ternary(c, t, f) =>
      var r := Eval(c, st, w);
      if r.st.failed then r else if Truthy(r.v) then Eval(t, r.st, w) else Eval(f, r.st, w)
  }

  // ---------- what the generator accepts ----------

  function TypeOf(e: Expr, env: Env): StaticType {
    match e
    case Lit(v) => if v.tag == UNDEFINED then TUndefined else TInt
    case Var(x) => if x in env.ints then TInt else TDynamic
    case Call(_, typed) => if typed then TInt else TDynamic
    case Assign(_, value) => TypeOf(value, env)
    case Arith(op, l, r) => if !Compares(op) && OnDynamic(TypeOf(l, env), TypeOf(r, env)) then TDynamic else TInt
    case Ternary(_, t, f) => if TypeOf(t, env) == TypeOf(f, env) then TypeOf(t, env) else TDynamic
    case _ => TInt
  }

  predicate OnDynamic(l: StaticType, r: StaticType) {
    l == TDynamic || r == TDynamic
  }

  function Assigned(e: Expr): set<nat> {
    match e
    case Assign(x, value) => {x} + Assigned(value)
    case Arith(_, l, r) => Assigned(l) + Assigned(r)
    case LogicOr(l, r) => Assigned(l) + Assigned(r)
    case LogicAnd(l, r) => Assigned(l) + Assigned(r)
    case LogicXor(l, r) => Assigned(l) + Assigned(r)
    case LogicNot(a) => Assigned(a)
    case Ternary(c, t, f) => Assigned(c) + Assigned(t) + Assigned(f)
    case _ => {}
  }

  predicate IsArith(op: AluOp) {
    op != AluOp.Xor && op != AluOp.And
  }

  /** The trees the generator compiles without an error. */
  predicate WellTyped(e: Expr, env: Env) {
    match e
    case Lit(v) => Fits(v.n) && (v.tag == INT || v == Word(0, UNDEFINED))
    case Var(_) => true
    case Call(_, _) => true
    case Assign(x, value) => WellTyped(value, env) && (x in env.ints ==> TypeOf(value, env) == TInt)
    case Arith(op, l, r) =>
      IsArith(op) && WellTyped(l, env) && WellTyped(r, env)
      && (Compares(op) || OnDynamic(TypeOf(l, env), TypeOf(r, env)) || (TypeOf(l, env) == TInt && TypeOf(r, env) == TInt))
    case LogicOr(l, r) => WellTyped(l, env) && WellTyped(r, env)
    case LogicAnd(l, r) => WellTyped(l, env) && WellTyped(r, env)
    case LogicXor(l, r) => WellTyped(l, env) && WellTyped(r, env)
    case LogicNot(a) => WellTyped(a, env)
    case Ternary(c, t, f) => WellTyped(c, env) && WellTyped(t, env) && WellTyped(f, env)
  }

  /** The program is still running, and its typed variables are ints. */
  ghost predicate TypedState(st: State, env: Env) {
    !st.failed && forall x :: x in env.ints ==> x in st.vars && st.vars[x].tag == INT
  }

  // ---------- what the generator emits ----------

  /** ptrs_jit_var_t: payload operand, meta operand and static type. */
  datatype JitVar = JitVar(val: Value, meta: Value, ty: StaticType)

  datatype Emitted = Emitted(b: Builder, res: JitVar)

  datatype EmittedValue = EmittedValue(b: Builder, val: Value)

  function IntVar(v: Value): JitVar {
    JitVar(v, Const(INT), TInt)
  }

  /** A libjit operation on two operands. */
  function GenAlu(op: AluOp, x: Value, y: Value, fold: bool, b: Builder): EmittedValue {
    if fold && x.Const? && y.Const? then
      EmittedValue(b, Const(Apply(op, x.n, y.n)))
    else
      EmittedValue(b.Fresh(1).Emit(Alu(b.next, op, x, y)), Temp(b.next))
  }

  /** ptrs_jit_vartob. */
  function GenBool(v: JitVar, b: Builder): EmittedValue {
    if v.ty != TDynamic && v.val.Const? then
      EmittedValue(b, Const(Bit(v.ty != TUndefined && v.val.n != 0)))
    else if v.ty != TDynamic then
      if v.ty == TUndefined then EmittedValue(b, Const(0))
      else EmittedValue(b.Fresh(1).Emit(ToBool(b.next, v.val)), Temp(b.next))
    else if v.val.Const? then
      if v.val.n == 0 then EmittedValue(b, Const(0))
      else EmittedValue(b.Fresh(1).Emit(Alu(b.next, Ne, v.meta, Const(UNDEFINED))), Temp(b.next))
    else
      var t := b.next;
      EmittedValue(
        b.Fresh(3).Emit(Alu(t, Ne, v.meta, Const(UNDEFINED))).Emit(ToBool(t + 1, v.val))
         .Emit(Alu(t + 2, AluOp.And, Temp(t), Temp(t + 1))),
        Temp(t + 2))
  }

  /** ptrs_jit_branch_if_not. */
  function GenBranchIfNot(v: JitVar, l: nat, b: Builder): Builder {
    if v.ty == TUndefined || (v.val.Const? && v.val.n == 0) then b.Emit(Branch(l))
    else
      var b1 := if v.ty == TDynamic
                then b.Fresh(1).Emit(Alu(b.next, Eq, v.meta, Const(UNDEFINED))).Emit(BranchIf(Temp(b.next), l))
                else b;
      if v.val.Const? then b1 else b1.Emit(BranchIfNot(v.val, l))
  }

  function GenExpr(e: Expr, env: Env, b: Builder): Emitted
    decreases e, 1
  {
    match e
    case Lit(v) =>
      Emitted(b, JitVar(Const(v.n), Const(v.tag), TypeOf(e, env)))
    case Var(x) =>
      Emitted(b, JitVar(VarVal(x), if x in env.ints then Const(INT) else VarMeta(x), TypeOf(e, env)))
    case Call(f, typed) =>
      Emitted(b.Fresh(2).Emit(CallOp(f, b.next, b.next + 1)),
              JitVar(Temp(b.next), if typed then Const(INT) else Temp(b.next + 1), TypeOf(e, env)))
    case Assign(x, value) =>
      var g := GenExpr(value, env, b);
      Emitted(GenStore(x, g.res, env, g.b), g.res)
    case LogicOr(_, _) => GenShortCircuit(e, env, b)
    case LogicAnd(_, _) => GenShortCircuit(e, env, b)
    case Ternary(_, _, _) => GenTernary(e, env, b)
    case _ => GenStrict(e, env, b)
  }

  /** ptrs_assign_identifier. */
  function GenStore(x: nat, v: JitVar, env: Env, b: Builder): Builder {
    var b1 := b.Emit(SetVal(x, v.val));
    if x in env.ints then b1 else b1.Emit(SetMeta(x, v.meta))
  }

  /** The operators of jit/ops/binary.c on int, undefined and dynamic operands: code of their own for comparisons and
      for two ints, and otherwise a call of the intrinsic.  (Dynamic comparisons call one too; on these operands it
      compares the payloads.) */
  function GenArith(op: AluOp, l: JitVar, r: JitVar, env: Env, b: Builder): Emitted {
    if !OnDynamic(l.ty, r.ty) then
      var o := GenAlu(op, l.val, r.val, env.fold || op == Add || op == Sub, b);
      Emitted(o.b, IntVar(o.val))
    else if Compares(op) then
      Emitted(b.Fresh(1).Emit(Alu(b.next, op, l.val, r.val)), IntVar(Temp(b.next)))
    else
      Emitted(b.Fresh(2).Emit(CallIntrinsic(op, b.next, b.next + 1, l.val, l.meta, r.val, r.meta)),
              JitVar(Temp(b.next), Temp(b.next + 1), TDynamic))
  }

  /** The operators that evaluate all their operands: ptrs_handle_op_logicxor,
      ptrs_handle_prefix_logicnot and those of jit/ops/binary.c. */
  function GenStrict(e: Expr, env: Env, b: Builder): Emitted
    requires e.Arith? || e.LogicXor? || e.LogicNot?
    decreases e, 0
  {
    if e.LogicNot? then
      var g := GenExpr(e.arg, env, b);
      var v := GenBool(g.res, g.b);
      var o := GenAlu(AluOp.Xor, v.val, Const(1), env.fold, v.b);
      Emitted(o.b, IntVar(o.val))
    else
      var gl := GenExpr(e.left, env, b);
      var gr := GenExpr(e.right, env, gl.b);
      if e.Arith? then GenArith(e.op, gl.res, gr.res, env, gr.b)
      else
        var o := GenXor(gl.res, gr.res, env, gr.b);
        Emitted(o.b, IntVar(o.val))
  }

  /** ptrs_handle_op_ternary, up to the label where both arms meet. */
  function GenArms(e: Expr, env: Env, b: Builder): Emitted
    requires e.Ternary?
    decreases e, 0, 0
  {
    var gc := GenExpr(e.cond, env, b);
    var isFalse := gc.b.next;
    var done, val, meta := isFalse + 1, isFalse + 2, isFalse + 3;
    var gt := GenExpr(e.whenTrue, env, GenBranchIfNot(gc.res, isFalse, gc.b.Fresh(4)));
    var gf := GenExpr(e.whenFalse, env, GenResult(gt, val, meta).Emit(Branch(done)).Emit(Label(isFalse)));
    Emitted(GenResult(gf, val, meta),
            JitVar(Temp(val), Temp(meta), if gt.res.ty == gf.res.ty then gt.res.ty else TDynamic))
  }

  /** ptrs_handle_op_ternary. */
  function GenTernary(e: Expr, env: Env, b: Builder): Emitted
    requires e.Ternary?
    decreases e, 0, 1
  {
    var g := GenArms(e, env, b);
    Emitted(g.b.Emit(Label(GenExpr(e.cond, env, b).b.next + 1)), g.res)
  }

  function GenResult(g: Emitted, val: nat, meta: nat): Builder {
    g.b.Emit(Move(val, g.res.val)).Emit(Move(meta, g.res.meta))
  }

  /** ptrs_handle_op_logicor and ptrs_handle_op_logicand: the same code up to the truth value that ends
      the evaluation. */
  function GenShortCircuit(e: Expr, env: Env, b: Builder): Emitted
    requires e.LogicOr? || e.LogicAnd?
    decreases e, 0, 1
  {
    var gl := GenExpr(e.left, env, b);
    var bl := GenBool(gl.res, gl.b);
    if bl.val.Const? && (bl.val.n != 0) == e.LogicOr? then Emitted(bl.b, IntVar(Const(Bit(e.LogicOr?))))
    else GenSecond(e, env, bl)
  }

  function Jump(e: Expr, bl: EmittedValue): Instr {
    if e.LogicOr? then BranchIf(bl.val, bl.b.next + 1) else BranchIfNot(bl.val, bl.b.next + 1)
  }

  /** Keep the truth of the first operand as the result, and skip the second operand if it decides. */
  function GenSkip(e: Expr, bl: EmittedValue): Builder {
    bl.b.Fresh(2).Emit(Move(bl.b.next, bl.val)).Emit(Jump(e, bl))
  }

  /** The code up to the label that ends the operator. */
  function SecondEnd(e: Expr, bl: EmittedValue, br: EmittedValue): Builder {
    if br.val.Const? && (br.val.n != 0) != e.LogicOr? then br.b else br.b.Emit(Move(bl.b.next, br.val))
  }

  function GenSecond(e: Expr, env: Env, bl: EmittedValue): Emitted
    requires e.LogicOr? || e.LogicAnd?
    decreases e, 0, 0
  {
    var ret, skip := bl.b.next, bl.b.next + 1;
    var gr := GenExpr(e.right, env, if bl.val.Const? then bl.b else GenSkip(e, bl));
    var br := GenBool(gr.res, gr.b);
    if bl.val.Const? then
      Emitted(br.b, IntVar(br.val))
    else
      Emitted(SecondEnd(e, bl, br).Emit(Label(skip)),
              IntVar(if SecondEnd(e, bl, br) == br.b then bl.val else Temp(ret)))
  }

  // ---------- constants ----------

  /** The two operands are the same constant, or neither is one. */
  predicate SameConst(x: Value, y: Value) {
    x.Const? == y.Const? && (x.Const? ==> x == y)
  }

  /** What is constant is decided by the tree, not by the code before it. */
  lemma {:induction false} ConstSame(e: Expr, env: Env, b: Builder, c: Builder)
    ensures var x, y := GenExpr(e, env, b).res, GenExpr(e, env, c).res;
      SameConst(x.val, y.val) && SameConst(x.meta, y.meta) && x.ty == y.ty
    decreases e, 1
  {
    match e
    case Assign(_, value) => ConstSame(value, env, b, c);
    case LogicOr(_, _) => ShortSame(e, env, b, c);
    case LogicAnd(_, _) => ShortSame(e, env, b, c);
    case Ternary(_, t, f) => ArmsSame(e, env, b, c);
    case LogicNot(a) => ConstSame(a, env, b, c);
    case Arith(_, l, r) => StrictSame(e, env, b, c);
    case LogicXor(l, r) => StrictSame(e, env, b, c);
    case _ =>
  }

  lemma BoolSame(x: JitVar, y: JitVar, b: Builder, c: Builder)
    requires SameConst(x.val, y.val) && x.ty == y.ty
    ensures SameConst(GenBool(x, b).val, GenBool(y, c).val)
  {
  }

  lemma StrictSame(e: Expr, env: Env, b: Builder, c: Builder)
    requires e.Arith? || e.LogicXor?
    ensures var x, y := GenStrict(e, env, b).res, GenStrict(e, env, c).res;
      SameConst(x.val, y.val) && SameConst(x.meta, y.meta) && x.ty == y.ty
    decreases e, 0
  {
    hide GenExpr, GenBool;
    var l1, l2 := GenExpr(e.left, env, b), GenExpr(e.left, env, c);
    ConstSame(e.left, env, b, c);
    var r1, r2 := GenExpr(e.right, env, l1.b), GenExpr(e.right, env, l2.b);
    ConstSame(e.right, env, l1.b, l2.b);
    var p1, p2 := GenBool(l1.res, r1.b), GenBool(l2.res, r2.b);
    BoolSame(l1.res, l2.res, r1.b, r2.b);
    BoolSame(r1.res, r2.res, p1.b, p2.b);
  }

  lemma ArmsSame(e: Expr, env: Env, b: Builder, c: Builder)
    requires e.Ternary?
    ensures var x, y := GenArms(e, env, b).res, GenArms(e, env, c).res;
      x.val.Temp? && y.val.Temp? && x.meta.Temp? && y.meta.Temp? && x.ty == y.ty
    decreases e, 0
  {
    hide GenExpr, GenBranchIfNot;
    var g1, g2 := GenExpr(e.cond, env, b), GenExpr(e.cond, env, c);
    var b1, c1 := GenBranchIfNot(g1.res, g1.b.next, g1.b.Fresh(4)), GenBranchIfNot(g2.res, g2.b.next, g2.b.Fresh(4));
    ConstSame(e.whenTrue, env, b1, c1);
    var t1, t2 := GenExpr(e.whenTrue, env, b1), GenExpr(e.whenTrue, env, c1);
    ConstSame(e.whenFalse, env,
              GenResult(t1, g1.b.next + 2, g1.b.next + 3).Emit(Branch(g1.b.next + 1)).Emit(Label(g1.b.next)),
              GenResult(t2, g2.b.next + 2, g2.b.next + 3).Emit(Branch(g2.b.next + 1)).Emit(Label(g2.b.next)));
  }

  lemma ShortSame(e: Expr, env: Env, b: Builder, c: Builder)
    requires e.LogicOr? || e.LogicAnd?
    ensures var x, y := GenShortCircuit(e, env, b).res, GenShortCircuit(e, env, c).res;
      SameConst(x.val, y.val) && SameConst(x.meta, y.meta) && x.ty == y.ty
    decreases e, 0
  {
    hide GenExpr, GenBool;
    var l1, l2 := GenExpr(e.left, env, b), GenExpr(e.left, env, c);
    ConstSame(e.left, env, b, c);
    BoolSame(l1.res, l2.res, l1.b, l2.b);
    var p1, p2 := GenBool(l1.res, l1.b), GenBool(l2.res, l2.b);
    var s1 := if p1.val.Const? then p1.b else GenSkip(e, p1);
    var s2 := if p2.val.Const? then p2.b else GenSkip(e, p2);
    ConstSame(e.right, env, s1, s2);
    var r1, r2 := GenExpr(e.right, env, s1), GenExpr(e.right, env, s2);
    BoolSame(r1.res, r2.res, r1.b, r2.b);
  }

  // ---------- numbering ----------

  ghost predicate Bounded(v: Value, n: nat) {
    v.Temp? ==> v.t < n
  }

  ghost predicate BoundedVar(v: JitVar, n: nat) {
    Bounded(v.val, n) && Bounded(v.meta, n)
  }

  ghost predicate Own(v: Value, n: nat) {
    v.Temp? ==> n <= v.t
  }

  lemma BoolGrows(v: JitVar, b: Builder)
    ensures GenBool(v, b).val.Const? || GenBool(v, b).val.Temp?
    ensures Grows(b, GenBool(v, b).b, b.next) && b.next <= GenBool(v, b).b.next
    ensures Bounded(GenBool(v, b).val, GenBool(v, b).b.next) && Own(GenBool(v, b).val, b.next)
  {
  }

  lemma BranchIfNotGrows(v: JitVar, l: nat, b: Builder)
    ensures Grows(b, GenBranchIfNot(v, l, b), b.next) && b.next <= GenBranchIfNot(v, l, b).next
  {
  }

  lemma AluGrows(op: AluOp, x: Value, y: Value, fold: bool, b: Builder)
    ensures Grows(b, GenAlu(op, x, y, fold, b).b, b.next) && b.next <= GenAlu(op, x, y, fold, b).b.next
    ensures Bounded(GenAlu(op, x, y, fold, b).val, GenAlu(op, x, y, fold, b).b.next)
    ensures Own(GenAlu(op, x, y, fold, b).val, b.next)
  {
  }

  lemma StoreGrows(x: nat, v: JitVar, env: Env, a: Builder, b: Builder)
    requires Grows(a, b, a.next)
    ensures Grows(a, GenStore(x, v, env, b), a.next) && GenStore(x, v, env, b).next == b.next
  {
    GrowsEmit(a, b, a.next, SetVal(x, v.val));
    GrowsEmit(a, b.Emit(SetVal(x, v.val)), a.next, SetMeta(x, v.meta));
  }

  lemma ResultGrows(a: Builder, g: Emitted, val: nat, meta: nat)
    requires Grows(a, g.b, a.next)
    ensures Grows(a, GenResult(g, val, meta), a.next) && GenResult(g, val, meta).next == g.b.next
  {
    GrowsEmit(a, g.b, a.next, Move(val, g.res.val));
    GrowsEmit(a, g.b.Emit(Move(val, g.res.val)), a.next, Move(meta, g.res.meta));
  }

  ghost predicate WellNumbered(b: Builder, g: Emitted) {
    && Grows(b, g.b, b.next) && b.next <= g.b.next
    && BoundedVar(g.res, g.b.next) && Own(g.res.val, b.next) && Own(g.res.meta, b.next)
  }

  lemma ArithGrows(op: AluOp, l: JitVar, r: JitVar, env: Env, b: Builder)
    ensures var g := GenArith(op, l, r, env, b);
      && Grows(b, g.b, b.next) && b.next <= g.b.next && BoundedVar(g.res, g.b.next)
      && Own(g.res.val, b.next) && Own(g.res.meta, b.next)
  {
  }

  /** An expression continues the code, places only labels of its own, and leaves an operand made of
      temporaries of its own, of the type predicted for the tree. */
  lemma {:induction false} ExprGrows(e: Expr, env: Env, b: Builder)
    ensures WellNumbered(b, GenExpr(e, env, b))
    ensures GenExpr(e, env, b).res.ty == TypeOf(e, env)
    decreases e, 1
  {
    match e
    case Lit(_) =>
    case Var(_) =>
    case Call(_, _) =>
    case Assign(x, value) =>
      ExprGrows(value, env, b);
      StoreGrows(x, GenExpr(value, env, b).res, env, b, GenExpr(value, env, b).b);
    case LogicOr(_, _) => ShortCircuitGrows(e, env, b);
    case LogicAnd(_, _) => ShortCircuitGrows(e, env, b);
    case Ternary(_, _, _) => TernaryGrows(e, env, b);
    case _ => StrictGrows(e, env, b);
  }

  lemma StrictGrows(e: Expr, env: Env, b: Builder)
    requires e.Arith? || e.LogicXor? || e.LogicNot?
    ensures WellNumbered(b, GenStrict(e, env, b)) && GenStrict(e, env, b).res.ty == TypeOf(e, env)
    decreases e, 0
  {
    hide Grows, GenExpr, GenBool, Extends;
    if e.LogicNot? {
      ExprGrows(e.arg, env, b);
      var g := GenExpr(e.arg, env, b);
      BoolGrows(g.res, g.b);
      var v := GenBool(g.res, g.b);
      AluGrows(AluOp.Xor, v.val, Const(1), env.fold, v.b);
      GrowsTrans(b, g.b, v.b, b.next, g.b.next);
      GrowsTrans(b, v.b, GenStrict(e, env, b).b, b.next, v.b.next);
    } else {
      ExprGrows(e.left, env, b);
      var gl := GenExpr(e.left, env, b);
      ExprGrows(e.right, env, gl.b);
      var gr := GenExpr(e.right, env, gl.b);
      GrowsTrans(b, gl.b, gr.b, b.next, gl.b.next);
      if e.Arith? {
        ArithGrows(e.op, gl.res, gr.res, env, gr.b);
        GrowsTrans(b, gr.b, GenStrict(e, env, b).b, b.next, gr.b.next);
      } else {
        BoolGrows(gl.res, gr.b);
        var bl := GenBool(gl.res, gr.b);
        BoolGrows(gr.res, bl.b);
        var br := GenBool(gr.res, bl.b);
        AluGrows(AluOp.Xor, bl.val, br.val, env.fold, br.b);
        GrowsTrans(b, gr.b, bl.b, b.next, gr.b.next);
        GrowsTrans(b, bl.b, br.b, b.next, bl.b.next);
        GrowsTrans(b, br.b, GenStrict(e, env, b).b, b.next, br.b.next);
      }
    }
  }

  lemma ShortCircuitGrows(e: Expr, env: Env, b: Builder)
    requires e.LogicOr? || e.LogicAnd?
    ensures WellNumbered(b, GenShortCircuit(e, env, b))
    decreases e, 0, 1
  {
    hide Grows, GenExpr, GenBool, Extends;
    ExprGrows(e.left, env, b);
    var gl := GenExpr(e.left, env, b);
    var bl := GenBool(gl.res, gl.b);
    BoolGrows(gl.res, gl.b);
    GrowsTrans(b, gl.b, bl.b, b.next, gl.b.next);
    if !(bl.val.Const? && (bl.val.n != 0) == e.LogicOr?) {
      SecondGrows(e, env, bl);
      GrowsTrans(b, bl.b, GenSecond(e, env, bl).b, b.next, bl.b.next);
    }
  }

  lemma SecondGrows(e: Expr, env: Env, bl: EmittedValue)
    requires (e.LogicOr? || e.LogicAnd?) && Bounded(bl.val, bl.b.next)
    ensures var g := GenSecond(e, env, bl);
      && Grows(bl.b, g.b, bl.b.next) && bl.b.next <= g.b.next
      && Bounded(g.res.val, g.b.next) && (g.res.val == bl.val || Own(g.res.val, bl.b.next))
    decreases e, 0, 0
  {
    hide Grows, GenExpr, GenBool, Extends;
    var ret, skip := bl.b.next, bl.b.next + 1;
    var b0 := bl.b.Fresh(2);
    GrowsRefl(bl.b, 2);
    GrowsRefl(bl.b, 0);
    GrowsEmit(bl.b, b0, bl.b.next, Move(ret, bl.val));
    GrowsEmit(bl.b, b0.Emit(Move(ret, bl.val)), bl.b.next, Jump(e, bl));
    var b1 := if bl.val.Const? then bl.b else GenSkip(e, bl);
    ExprGrows(e.right, env, b1);
    var gr := GenExpr(e.right, env, b1);
    BoolGrows(gr.res, gr.b);
    var br := GenBool(gr.res, gr.b);
    GrowsTrans(bl.b, b1, gr.b, bl.b.next, b1.next);
    GrowsTrans(bl.b, gr.b, br.b, bl.b.next, gr.b.next);
    GrowsEmit(bl.b, br.b, bl.b.next, Move(ret, br.val));
    if !bl.val.Const? {
      GrowsEmit(bl.b, br.b, bl.b.next, Label(skip));
      GrowsEmit(bl.b, br.b.Emit(Move(ret, br.val)), bl.b.next, Label(skip));
    }
  }

  lemma TernaryGrows(e: Expr, env: Env, b: Builder)
    requires e.Ternary?
    ensures WellNumbered(b, GenTernary(e, env, b))
    ensures GenTernary(e, env, b).res.ty == TypeOf(e, env)
    decreases e, 0
  {
    hide Grows, GenExpr, GenBool, Extends;
    ExprGrows(e.cond, env, b);
    var gc := GenExpr(e.cond, env, b);
    var isFalse := gc.b.next;
    var val, meta := isFalse + 2, isFalse + 3;
    var b0 := GenBranchIfNot(gc.res, isFalse, gc.b.Fresh(4));
    GrowsRefl(gc.b, 4);
    GrowsTrans(b, gc.b, gc.b.Fresh(4), b.next, gc.b.next);
    BranchIfNotGrows(gc.res, isFalse, gc.b.Fresh(4));
    GrowsTrans(b, gc.b.Fresh(4), b0, b.next, gc.b.next + 4);
    ExprGrows(e.whenTrue, env, b0);
    var gt := GenExpr(e.whenTrue, env, b0);
    GrowsTrans(b, b0, gt.b, b.next, b0.next);
    ResultGrows(b, gt, val, meta);
    var a := GenResult(gt, val, meta);
    GrowsEmit(b, a, b.next, Branch(isFalse + 1));
    var b1 := a.Emit(Branch(isFalse + 1)).Emit(Label(isFalse));
    GrowsEmit(b, a.Emit(Branch(isFalse + 1)), b.next, Label(isFalse));
    ExprGrows(e.whenFalse, env, b1);
    var gf := GenExpr(e.whenFalse, env, b1);
    GrowsTrans(b, b1, gf.b, b.next, b1.next);
    ResultGrows(b, gf, val, meta);
    GrowsEmit(b, GenResult(gf, val, meta), b.next, Label(isFalse + 1));
  }

  // ---------- when reading late makes no difference ----------

  /** Evaluated early, no strict operator has another result if the variable on its left is read late. */
  predicate InOrder(e: Expr, st: State, w: World) {
    st.failed ||
    match e
    case Assign(_, value) => InOrder(value, st, w)
    case LogicNot(a) => InOrder(a, st, w)
    case Arith(op, l, r) =>
      var a := Eval(l, st, w);
      var b := Eval(r, a.st, w);
      && InOrder(l, st, w) && InOrder(r, a.st, w)
      && (LiveVar(l).Some? && !b.st.failed ==> Intrinsic(op, Read(b.st, LiveVar(l).value), b.v) == Intrinsic(op, a.v, b.v))
    case LogicXor(l, r) =>
      var a := Eval(l, st, w);
      var b := Eval(r, a.st, w);
      && InOrder(l, st, w) && InOrder(r, a.st, w)
      && (LiveVar(l).Some? && !b.st.failed ==> Truthy(Read(b.st, LiveVar(l).value)) == Truthy(a.v))
    case LogicOr(l, r) =>
      var a := Eval(l, st, w);
      InOrder(l, st, w) && (Truthy(a.v) || InOrder(r, a.st, w))
    case LogicAnd(l, r) =>
      var a := Eval(l, st, w);
      InOrder(l, st, w) && (Truthy(a.v) ==> InOrder(r, a.st, w))
    case Ternary(c, t, f) =>
      var a := Eval(c, st, w);
      InOrder(c, st, w) && if Truthy(a.v) then InOrder(t, a.st, w) else InOrder(f, a.st, w)
    case _ => true
  }

  /** What the code does that is generated with the knowledge `env`. */
  function InCode(w: World, env: Env): World {
    w.(code := Some(env))
  }

  /** Then the generated code's reading is the language's. */
  lemma {:induction false} EarlyOrLate(e: Expr, st: State, w: World, env: Env)
    requires w.code.None? && InOrder(e, st, w)
    ensures Eval(e, st, InCode(w, env)) == Eval(e, st, w)
  {
    if !st.failed {
      match e
      case Assign(_, value) => EarlyOrLate(value, st, w, env);
      case LogicNot(a) => EarlyOrLate(a, st, w, env);
      case Arith(_, l, r) => EarlyOrLate(l, st, w, env); EarlyOrLate(r, Eval(l, st, w).st, w, env);
      case LogicXor(l, r) => EarlyOrLate(l, st, w, env); EarlyOrLate(r, Eval(l, st, w).st, w, env);
      case LogicOr(l, r) =>
        EarlyOrLate(l, st, w, env);
        if !Truthy(Eval(l, st, w).v) { EarlyOrLate(r, Eval(l, st, w).st, w, env); }
      case LogicAnd(l, r) =>
        EarlyOrLate(l, st, w, env);
        if Truthy(Eval(l, st, w).v) { EarlyOrLate(r, Eval(l, st, w).st, w, env); }
      case Ternary(c, t, f) =>
        EarlyOrLate(c, st, w, env);
        EarlyOrLate(if Truthy(Eval(c, st, w).v) then t else f, Eval(c, st, w).st, w, env);
      case _ =>
    }
  }

  /** Exactly then, as far as one operator is concerned. */
  lemma StrictExact(e: Expr, st: State, w: World, env: Env)
    requires w.code.None? && (e.Arith? || e.LogicXor?)
    requires InOrder(e.left, st, w) && InOrder(e.right, Eval(e.left, st, w).st, w)
    ensures InOrder(e, st, w) <==> Eval(e, st, InCode(w, env)) == Eval(e, st, w)
  {
    EarlyOrLate(e.left, st, w, env);
    EarlyOrLate(e.right, Eval(e.left, st, w).st, w, env);
  }

  /** No right operand of a strict operator assigns the variable on its left. */
  predicate Ordered(e: Expr) {
    match e
    case Assign(_, value) => Ordered(value)
    case LogicNot(a) => Ordered(a)
    case Arith(_, l, r) => Ordered(l) && Ordered(r) && (LiveVar(l).Some? ==> LiveVar(l).value !in Assigned(r))
    case LogicXor(l, r) => Ordered(l) && Ordered(r) && (LiveVar(l).Some? ==> LiveVar(l).value !in Assigned(r))
    case LogicOr(l, r) => Ordered(l) && Ordered(r)
    case LogicAnd(l, r) => Ordered(l) && Ordered(r)
    case Ternary(c, t, f) => Ordered(c) && Ordered(t) && Ordered(f)
    case _ => true
  }

  /** The value of an operand that refers to a variable is that variable's. */
  lemma {:induction false} LiveValue(e: Expr, st: State, w: World)
    requires LiveVar(e).Some? && !st.failed
    ensures !Eval(e, st, w).st.failed && Eval(e, st, w).v == Read(Eval(e, st, w).st, LiveVar(e).value)
  {
    if e.Assign? {
      LiveValue(e.value, st, w);
    }
  }

  lemma {:induction false} OrderedInOrder(e: Expr, st: State, w: World)
    requires Ordered(e)
    ensures InOrder(e, st, w)
    decreases e, 1
  {
    match e
    case Assign(_, value) => OrderedInOrder(value, st, w);
    case LogicNot(a) => OrderedInOrder(a, st, w);
    case Ternary(c, t, f) =>
      OrderedInOrder(c, st, w);
      OrderedInOrder(t, Eval(c, st, w).st, w);
      OrderedInOrder(f, Eval(c, st, w).st, w);
    case LogicOr(l, r) => OrderedInOrder(l, st, w); OrderedInOrder(r, Eval(l, st, w).st, w);
    case LogicAnd(l, r) => OrderedInOrder(l, st, w); OrderedInOrder(r, Eval(l, st, w).st, w);
    case Arith(_, _, _) => StrictInOrder(e, st, w);
    case LogicXor(_, _) => StrictInOrder(e, st, w);
    case _ =>
  }

  lemma StrictInOrder(e: Expr, st: State, w: World)
    requires (e.Arith? || e.LogicXor?) && Ordered(e)
    ensures InOrder(e, st, w)
    decreases e, 0
  {
    var a := Eval(e.left, st, w);
    OrderedInOrder(e.left, st, w);
    OrderedInOrder(e.right, a.st, w);
    if LiveVar(e.left).Some? && !st.failed {
      LiveValue(e.left, st, w);
      EvalFrame(e.right, a.st, w, LiveVar(e.left).value);
    }
  }

  // ---------- running the code ----------

  /** In configuration `c` the operand denotes `v`, and its static type is right. */
  ghost predicate Holds(r: JitVar, v: Word, c: Config) {
    && ValueOf(r.val, c) == v.n && ValueOf(r.meta, c) == v.tag
    && (r.ty == TInt ==> v.tag == INT)
    && (r.ty == TUndefined ==> v.tag == UNDEFINED)
  }

  /** The generator's operand only refers to the variable the source tree hands through. */
  lemma {:induction false} LiveOperand(e: Expr, env: Env, b: Builder)
    ensures var r := GenExpr(e, env, b).res;
      && !r.val.VarMeta? && !r.meta.VarVal?
      && (r.val.VarVal? ==> LiveVar(e) == Some(r.val.x))
      && (r.meta.VarMeta? ==> LiveVar(e) == Some(r.meta.x))
  {
    match e
    case Assign(_, value) => LiveOperand(value, env, b);
    case LogicOr(_, _) => LiveShort(e, env, b);
    case LogicAnd(_, _) => LiveShort(e, env, b);
    case Ternary(_, _, _) => assert GenExpr(e, env, b).res == GenArms(e, env, b).res;
    case _ =>
  }

  lemma LiveShort(e: Expr, env: Env, b: Builder)
    requires e.LogicOr? || e.LogicAnd?
    ensures var r := GenShortCircuit(e, env, b).res; !r.val.VarVal? && !r.val.VarMeta? && r.meta == Const(INT)
  {
    hide GenExpr;
  }

  lemma {:induction false} EvalFrame(e: Expr, st: State, w: World, x: nat)
    requires x !in Assigned(e)
    ensures Read(Eval(e, st, w).st, x) == Read(st, x)
  {
    match e
    case Assign(_, value) => EvalFrame(value, st, w, x);
    case LogicNot(a) => EvalFrame(a, st, w, x);
    case Ternary(c, t, f) =>
      EvalFrame(c, st, w, x);
      EvalFrame(t, Eval(c, st, w).st, w, x);
      EvalFrame(f, Eval(c, st, w).st, w, x);
    case Arith(_, l, r) => EvalFrame(l, st, w, x); EvalFrame(r, Eval(l, st, w).st, w, x);
    case LogicOr(l, r) => EvalFrame(l, st, w, x); EvalFrame(r, Eval(l, st, w).st, w, x);
    case LogicAnd(l, r) => EvalFrame(l, st, w, x); EvalFrame(r, Eval(l, st, w).st, w, x);
    case LogicXor(l, r) => EvalFrame(l, st, w, x); EvalFrame(r, Eval(l, st, w).st, w, x);
    case _ =>
  }

  /** ptrs_jit_vartob computes the truth of its operand, and no more. */
  lemma RunBool(v: JitVar, b: Builder, p: Builder, w: World, c0: Config, c: Config, n: nat, x: Word)
    returns (d: Config)
    requires Extends(GenBool(v, b).b, p) && c.pc == |b.code| && Reached(p, w, c0, c, n) && n <= b.next
    requires Holds(v, x, c) && BoundedVar(v, b.next)
    ensures Reached(p, w, c0, d, n) && SameTemps(c, d, b.next)
    ensures d.pc == |GenBool(v, b).b.code| && d.st == c.st
    ensures ValueOf(GenBool(v, b).val, d) == Bit(Truthy(x))
  {
    d := c;
    if v.ty != TDynamic && !v.val.Const? && v.ty != TUndefined {
      d := Execute(b.Fresh(1), ToBool(b.next, v.val), p, w, c0, c, n);
    } else if v.ty == TDynamic && v.val.Const? && v.val.n != 0 {
      d := Execute(b.Fresh(1), Alu(b.next, Ne, v.meta, Const(UNDEFINED)), p, w, c0, c, n);
    } else if v.ty == TDynamic && !v.val.Const? {
      d := RunDynamicBool(v, b, p, w, c0, c, n, x);
    }
  }

  lemma RunDynamicBool(v: JitVar, b: Builder, p: Builder, w: World, c0: Config, c: Config, n: nat, x: Word)
    returns (d: Config)
    requires Extends(GenBool(v, b).b, p) && c.pc == |b.code| && Reached(p, w, c0, c, n) && n <= b.next
    requires Holds(v, x, c) && BoundedVar(v, b.next) && v.ty == TDynamic && !v.val.Const?
    ensures Reached(p, w, c0, d, n) && SameTemps(c, d, b.next)
    ensures d.pc == |GenBool(v, b).b.code| && d.st == c.st
    ensures ValueOf(GenBool(v, b).val, d) == Bit(Truthy(x))
  {
    var b1 := b.Fresh(3);
    var i1, i2 := Alu(b.next, Ne, v.meta, Const(UNDEFINED)), ToBool(b.next + 1, v.val);
    var i3 := Alu(b.next + 2, AluOp.And, Temp(b.next), Temp(b.next + 1));
    assert GenBool(v, b) == EmittedValue(b1.Emit(i1).Emit(i2).Emit(i3), Temp(b.next + 2));
    hide Leads, Run, Extends, Reached, GenBool;
    ExtendsEmit(b1.Emit(i1).Emit(i2), i3, p);
    ExtendsEmit(b1.Emit(i1), i2, p);
    var c1 := Execute(b1, i1, p, w, c0, c, n);
    var c2 := Execute(b1.Emit(i1), i2, p, w, c0, c1, n);
    d := Execute(b1.Emit(i1).Emit(i2), i3, p, w, c0, c2, n);
  }

  lemma RunAlu(op: AluOp, x: Value, y: Value, fold: bool, b: Builder, p: Builder, w: World,
               c0: Config, c: Config, n: nat) returns (d: Config)
    requires Extends(GenAlu(op, x, y, fold, b).b, p) && c.pc == |b.code|
    requires Reached(p, w, c0, c, n) && n <= b.next
    ensures Reached(p, w, c0, d, n)
    ensures d.pc == |GenAlu(op, x, y, fold, b).b.code| && d.st == c.st
    ensures ValueOf(GenAlu(op, x, y, fold, b).val, d) == Apply(op, ValueOf(x, c), ValueOf(y, c))
  {
    d := c;
    if !(fold && x.Const? && y.Const?) {
      d := Execute(b.Fresh(1), Alu(b.next, op, x, y), p, w, c0, c, n);
    }
  }

  /** ptrs_jit_branch_if_not jumps exactly when its operand is not true. */
  lemma RunBranchIfNot(v: JitVar, l: nat, b: Builder, p: Builder, w: World, c0: Config, c: Config, n: nat, x: Word)
    returns (d: Config)
    requires Extends(GenBranchIfNot(v, l, b), p) && c.pc == |b.code|
    requires Reached(p, w, c0, c, n) && n <= b.next
    requires Holds(v, x, c) && BoundedVar(v, b.next)
    ensures Reached(p, w, c0, d, n) && d.st == c.st
    ensures d.pc == if Truthy(x) then |GenBranchIfNot(v, l, b).code| else p.Target(l)
  {
    d := c;
    if v.ty == TUndefined || (v.val.Const? && v.val.n == 0) {
      d := Execute(b, Branch(l), p, w, c0, c, n);
    } else if v.ty != TDynamic {
      if !v.val.Const? {
        d := Execute(b, BranchIfNot(v.val, l), p, w, c0, c, n);
      }
    } else {
      var i1, i2 := Alu(b.next, Eq, v.meta, Const(UNDEFINED)), BranchIf(Temp(b.next), l);
      var b1 := b.Fresh(1).Emit(i1);
      if !v.val.Const? {
        ExtendsEmit(b1.Emit(i2), BranchIfNot(v.val, l), p);
      }
      ExtendsEmit(b1, i2, p);
      d := Execute(b.Fresh(1), i1, p, w, c0, c, n);
      d := Execute(b1, i2, p, w, c0, d, n);
      if x.tag != UNDEFINED && !v.val.Const? {
        d := Execute(b1.Emit(i2), BranchIfNot(v.val, l), p, w, c0, d, n);
      }
    }
  }

  /** An operand that refers to no variable keeps its value while no temporary it may use changes. */
  lemma OperandKept(e: Expr, env: Env, b: Builder, v: Word, c: Config, d: Config)
    requires LiveVar(e).None?
    requires var g := GenExpr(e, env, b);
      Holds(g.res, v, c) && BoundedVar(g.res, g.b.next) && SameTemps(c, d, g.b.next)
    ensures Holds(GenExpr(e, env, b).res, v, d)
  {
    hide GenExpr;
    LiveOperand(e, env, b);
  }

  /** The operand of an identifier, handed through assignments, is the variable's storage: it denotes what the
      variable holds now. */
  lemma {:induction false} LiveRead(e: Expr, env: Env, b: Builder, d: Config)
    requires LiveVar(e).Some? && TypedState(d.st, env)
    ensures Holds(GenExpr(e, env, b).res, Read(d.st, LiveVar(e).value), d)
  {
    if e.Assign? {
      LiveRead(e.value, env, b, d);
    }
  }

  /** What is known before the code of `e`, which starts at the end of `b`, is run in program `p`. */
  ghost predicate Ready(e: Expr, env: Env, b: Builder, p: Builder, w: World, c0: Config, c: Config, n: nat) {
    && w.code == Some(env) && WellTyped(e, env) && TypedState(c.st, env) && Sane(b)
    && Extends(GenExpr(e, env, b).b, p) && c.pc == |b.code|
    && Reached(p, w, c0, c, n) && n <= b.next
  }

  /** An error in the state `st` has ended the run. */
  ghost predicate Halted(st: State, p: Builder, w: World, c0: Config, n: nat, d: Config) {
    Reached(p, w, c0, d, n) && d.st == st && st.failed && d.pc >= |p.code|
  }

  /** What the code of `e` has achieved when it ends in configuration `d`. */
  ghost predicate Achieved(e: Expr, env: Env, b: Builder, p: Builder, w: World, c0: Config, c: Config, n: nat, d: Config) {
    var g := GenExpr(e, env, b);
    var r := Eval(e, c.st, w);
    if r.st.failed then Halted(r.st, p, w, c0, n, d)
    else
      && Reached(p, w, c0, d, n) && d.pc == |g.b.code| && d.st == r.st && TypedState(d.st, env)
      && Holds(g.res, r.v, d)
  }

  /** The code of an expression evaluates it, with variables on the left of strict operators read late: the same
      operands are evaluated in the same order (the trace and the variables agree), and the operand left behind
      denotes the value. */
  lemma {:induction false} RunExpr(e: Expr, env: Env, b: Builder, p: Builder, w: World, c0: Config, c: Config, n: nat)
    returns (d: Config)
    requires Ready(e, env, b, p, w, c0, c, n)
    ensures Achieved(e, env, b, p, w, c0, c, n, d)
    decreases e, 2
  {
    match e
    case Lit(v) => d := c;
    case Var(x) => d := c;
    case Call(f, typed) =>
      d := Execute(b.Fresh(2), CallOp(f, b.next, b.next + 1), p, w, c0, c, n);
    case Assign(x, value) => d := RunAssign(e, env, b, p, w, c0, c, n);
    case Arith(_, _, _) => d := RunArith(e, env, b, p, w, c0, c, n);
    case LogicXor(_, _) => d := RunXor(e, env, b, p, w, c0, c, n);
    case LogicNot(_) => d := RunNot(e, env, b, p, w, c0, c, n);
    case LogicOr(_, _) => d := RunShortCircuit(e, env, b, p, w, c0, c, n);
    case LogicAnd(_, _) => d := RunShortCircuit(e, env, b, p, w, c0, c, n);
    case Ternary(_, _, _) => d := RunTernary(e, env, b, p, w, c0, c, n);
  }

  /** The operand that was stored denotes the same value afterwards, even when it is the variable itself. */
  lemma RunStore(x: nat, v: JitVar, env: Env, b: Builder, p: Builder, w: World, c0: Config, c: Config, n: nat, word: Word)
    returns (d: Config)
    requires Extends(GenStore(x, v, env, b), p) && c.pc == |b.code| && Reached(p, w, c0, c, n) && n <= b.next
    requires Holds(v, word, c) && (x in env.ints ==> word.tag == INT) && TypedState(c.st, env)
    requires !v.val.VarMeta? && !v.meta.VarVal?
    ensures Reached(p, w, c0, d, n) && d.pc == |GenStore(x, v, env, b).code| && Holds(v, word, d)
    ensures d.st == c.st.(vars := c.st.vars[x := word]) && TypedState(d.st, env)
  {
    hide Run, Extends, Leads, Reached;
    var i1, i2 := SetVal(x, v.val), SetMeta(x, v.meta);
    if x !in env.ints {
      ExtendsEmit(b.Emit(i1), i2, p);
    }
    d := Execute(b, i1, p, w, c0, c, n);
    if x !in env.ints {
      d := Execute(b.Emit(i1), i2, p, w, c0, d, n);
    }
    assert d.st.vars == c.st.vars[x := word];
  }

  lemma RunAssign(e: Expr, env: Env, b: Builder, p: Builder, w: World, c0: Config, c: Config, n: nat)
    returns (d: Config)
    requires e.Assign? && Ready(e, env, b, p, w, c0, c, n)
    ensures Achieved(e, env, b, p, w, c0, c, n, d)
    decreases e, 0
  {
    hide Run, Extends, Leads, Reached, TypedState;
    var g := GenExpr(e.value, env, b);
    ExprGrows(e.value, env, b);
    StoreExtends(e.x, g.res, env, g.b, p);
    d := RunExpr(e.value, env, b, p, w, c0, c, n);
    if !Eval(e.value, c.st, w).st.failed {
      LiveOperand(e.value, env, b);
      d := RunStore(e.x, g.res, env, g.b, p, w, c0, d, n, Eval(e.value, c.st, w).v);
    }
  }

  lemma StoreExtends(x: nat, v: JitVar, env: Env, b: Builder, p: Builder)
    requires Extends(GenStore(x, v, env, b), p)
    ensures Extends(b, p)
  {
    hide Extends;
    if x !in env.ints {
      ExtendsEmit(b.Emit(SetVal(x, v.val)), SetMeta(x, v.meta), p);
    }
    ExtendsEmit(b, SetVal(x, v.val), p);
  }

  lemma RunNot(e: Expr, env: Env, b: Builder, p: Builder, w: World, c0: Config, c: Config, n: nat)
    returns (d: Config)
    requires e.LogicNot? && Ready(e, env, b, p, w, c0, c, n)
    ensures Achieved(e, env, b, p, w, c0, c, n, d)
    decreases e, 0
  {
    hide Grows, Leads, Extends, Run, SameTemps, Sane, Reached;
    var g := GenExpr(e.arg, env, b);
    var v := GenBool(g.res, g.b);
    var o := GenAlu(AluOp.Xor, v.val, Const(1), env.fold, v.b);
    assert GenExpr(e, env, b) == Emitted(o.b, IntVar(o.val));
    ExprGrows(e.arg, env, b);
    BoolGrows(g.res, g.b);
    AluGrows(AluOp.Xor, v.val, Const(1), env.fold, v.b);
    GrowsExtends(v.b, o.b, p, v.b.next);
    GrowsExtends(g.b, v.b, p, g.b.next);
    d := RunExpr(e.arg, env, b, p, w, c0, c, n);
    if !Eval(e.arg, c.st, w).st.failed {
      d := RunBool(g.res, g.b, p, w, c0, d, n, Eval(e.arg, c.st, w).v);
      d := RunAlu(AluOp.Xor, v.val, Const(1), env.fold, v.b, p, w, c0, d, n);
    }
  }

  /** Both operands of a strict operator, one after the other: the left one is kept. */
  lemma RunOperands(e: Expr, env: Env, b: Builder, p: Builder, w: World, c0: Config, c: Config, n: nat)
    returns (d: Config)
    requires e.Arith? || e.LogicXor?
    requires w.code == Some(env) && WellTyped(e, env) && TypedState(c.st, env) && Sane(b) && c.pc == |b.code|
    requires Extends(GenExpr(e.right, env, GenExpr(e.left, env, b).b).b, p)
    requires Reached(p, w, c0, c, n) && n <= b.next
    ensures var gl := GenExpr(e.left, env, b);
      var gr := GenExpr(e.right, env, gl.b);
      var a := Eval(e.left, c.st, w);
      var r := Eval(e.right, a.st, w);
      if r.st.failed then Halted(r.st, p, w, c0, n, d)
      else
        && Reached(p, w, c0, d, n) && d.pc == |gr.b.code| && d.st == r.st && TypedState(d.st, env)
        && Holds(gl.res, LeftWord(e.left, a.v, d.st, w), d) && Holds(gr.res, r.v, d)
        && BoundedVar(gl.res, gr.b.next) && BoundedVar(gr.res, gr.b.next) && n <= gr.b.next
    decreases e, 0
  {
    hide Grows, Leads, Extends, Run, SameTemps, Sane, GenExpr;
    var gl := GenExpr(e.left, env, b);
    var gr := GenExpr(e.right, env, gl.b);
    var a := Eval(e.left, c.st, w);
    ExprGrows(e.left, env, b);
    ExprGrows(e.right, env, gl.b);
    GrowsSane(b, gl.b, b.next);
    GrowsExtends(gl.b, gr.b, p, gl.b.next);
    d := RunExpr(e.left, env, b, p, w, c0, c, n);
    if !a.st.failed {
      var c1 := d;
      ReachedRefl(p, w, c1, gl.b.next);
      d := RunExpr(e.right, env, gl.b, p, w, c1, c1, gl.b.next);
      ReachedTrans(p, w, c0, c1, d, n, gl.b.next);
      if Eval(e.right, a.st, w).st.failed {
      } else if LiveVar(e.left).Some? {
        LiveRead(e.left, env, b, d);
      } else {
        OperandKept(e.left, env, b, a.v, c1, d);
      }
    }
  }

  lemma RunArith(e: Expr, env: Env, b: Builder, p: Builder, w: World, c0: Config, c: Config, n: nat)
    returns (d: Config)
    requires e.Arith? && Ready(e, env, b, p, w, c0, c, n)
    ensures Achieved(e, env, b, p, w, c0, c, n, d)
    decreases e, 1
  {
    assert GenExpr(e, env, b) == GenStrict(e, env, b);
    hide Grows, Leads, Extends, Run, SameTemps, Sane, GenExpr, GenArith, Reached;
    var gl := GenExpr(e.left, env, b);
    var gr := GenExpr(e.right, env, gl.b);
    var a := Eval(e.left, c.st, w);
    var r := Eval(e.right, a.st, w);
    ArithGrows(e.op, gl.res, gr.res, env, gr.b);
    GrowsExtends(gr.b, GenExpr(e, env, b).b, p, gr.b.next);
    d := RunOperands(e, env, b, p, w, c0, c, n);
    if !r.st.failed {
      ExprGrows(e.left, env, b);
      ExprGrows(e.right, env, gl.b);
      d := RunIntrinsic(e.op, gl.res, gr.res, env, gr.b, p, w, c0, d, n, LeftWord(e.left, a.v, r.st, w), r.v);
    }
  }

  /** One operator on two operands that are already there. */
  lemma RunIntrinsic(op: AluOp, l: JitVar, r: JitVar, env: Env, b: Builder, p: Builder, w: World, c0: Config, c: Config,
                     n: nat, x: Word, y: Word) returns (d: Config)
    requires Extends(GenArith(op, l, r, env, b).b, p) && c.pc == |b.code| && Reached(p, w, c0, c, n) && n <= b.next
    requires Holds(l, x, c) && Holds(r, y, c) && BoundedVar(l, b.next) && BoundedVar(r, b.next)
    requires Compares(op) || OnDynamic(l.ty, r.ty) || (l.ty == TInt && r.ty == TInt)
    ensures var g, v := GenArith(op, l, r, env, b), Intrinsic(op, x, y);
      if v.None? then Halted(Fail(c.st), p, w, c0, n, d)
      else Reached(p, w, c0, d, n) && d.pc == |g.b.code| && d.st == c.st && Holds(g.res, v.value, d)
  {
    hide Extends, Leads, Run, Reached;
    if !OnDynamic(l.ty, r.ty) {
      d := RunAlu(op, l.val, r.val, env.fold || op == Add || op == Sub, b, p, w, c0, c, n);
    } else if Compares(op) {
      d := Execute(b.Fresh(1), Alu(b.next, op, l.val, r.val), p, w, c0, c, n);
    } else {
      d := Execute(b.Fresh(2), CallIntrinsic(op, b.next, b.next + 1, l.val, l.meta, r.val, r.meta), p, w, c0, c, n);
    }
  }

  lemma RunXor(e: Expr, env: Env, b: Builder, p: Builder, w: World, c0: Config, c: Config, n: nat)
    returns (d: Config)
    requires e.LogicXor? && Ready(e, env, b, p, w, c0, c, n)
    ensures Achieved(e, env, b, p, w, c0, c, n, d)
    decreases e, 1
  {
    assert GenExpr(e, env, b) == GenStrict(e, env, b);
    hide Grows, Leads, Extends, Run, SameTemps, Sane, GenExpr, GenBool, GenAlu;
    var gl := GenExpr(e.left, env, b);
    var gr := GenExpr(e.right, env, gl.b);
    var a := Eval(e.left, c.st, w);
    var r := Eval(e.right, a.st, w);
    XorExtends(gl.res, gr.res, env, gr.b, p);
    d := RunOperands(e, env, b, p, w, c0, c, n);
    if !r.st.failed {
      d := RunTruths(gl.res, gr.res, env, gr.b, p, w, c0, d, n, LeftWord(e.left, a.v, d.st, w), r.v);
    }
  }

  /** `^^` on two operands: the exclusive or of their truths. */
  function GenXor(l: JitVar, r: JitVar, env: Env, b: Builder): EmittedValue {
    var bl := GenBool(l, b);
    var br := GenBool(r, bl.b);
    GenAlu(AluOp.Xor, bl.val, br.val, env.fold, br.b)
  }

  lemma XorExtends(l: JitVar, r: JitVar, env: Env, b: Builder, p: Builder)
    requires Extends(GenXor(l, r, env, b).b, p)
    ensures Extends(b, p)
  {
    hide Grows, Extends, GenBool, GenAlu;
    var bl := GenBool(l, b);
    var br := GenBool(r, bl.b);
    var o := GenAlu(AluOp.Xor, bl.val, br.val, env.fold, br.b);
    BoolGrows(l, b);
    BoolGrows(r, bl.b);
    AluGrows(AluOp.Xor, bl.val, br.val, env.fold, br.b);
    GrowsExtends(br.b, o.b, p, br.b.next);
    GrowsExtends(bl.b, br.b, p, bl.b.next);
    GrowsExtends(b, bl.b, p, b.next);
  }

  lemma RunTruths(l: JitVar, r: JitVar, env: Env, b: Builder, p: Builder, w: World, c0: Config, c: Config, n: nat,
                  x: Word, y: Word) returns (d: Config)
    requires Extends(GenXor(l, r, env, b).b, p) && c.pc == |b.code| && Reached(p, w, c0, c, n) && n <= b.next
    requires Holds(l, x, c) && Holds(r, y, c) && BoundedVar(l, b.next) && BoundedVar(r, b.next)
    ensures var o := GenXor(l, r, env, b);
      && Reached(p, w, c0, d, n) && d.pc == |o.b.code| && d.st == c.st
      && ValueOf(o.val, d) == Bit(Truthy(x) != Truthy(y))
  {
    hide Grows, Leads, Extends, Run, SameTemps, GenBool, GenAlu;
    var bl := GenBool(l, b);
    var br := GenBool(r, bl.b);
    var o := GenAlu(AluOp.Xor, bl.val, br.val, env.fold, br.b);
    BoolGrows(l, b);
    BoolGrows(r, bl.b);
    AluGrows(AluOp.Xor, bl.val, br.val, env.fold, br.b);
    GrowsExtends(br.b, o.b, p, br.b.next);
    GrowsExtends(bl.b, br.b, p, bl.b.next);
    var c1 := RunBool(l, b, p, w, c0, c, n, x);
    HoldsKept(r, y, c, c1, b.next);
    var c2 := RunBool(r, bl.b, p, w, c0, c1, n, y);
    ValueKept(bl.val, c1, c2, bl.b.next);
    d := RunAlu(AluOp.Xor, bl.val, br.val, env.fold, br.b, p, w, c0, c2, n);
  }

  lemma HoldsKept(r: JitVar, v: Word, c: Config, d: Config, n: nat)
    requires Holds(r, v, c) && BoundedVar(r, n) && SameTemps(c, d, n) && d.st == c.st
    ensures Holds(r, v, d)
  {
  }

  lemma ValueKept(v: Value, c: Config, d: Config, n: nat)
    requires Bounded(v, n) && SameTemps(c, d, n) && d.st == c.st
    ensures ValueOf(v, d) == ValueOf(v, c)
  {
  }

  lemma TempKept(v: Value, c: Config, d: Config, n: nat)
    requires Bounded(v, n) && SameTemps(c, d, n) && !v.VarVal? && !v.VarMeta?
    ensures ValueOf(v, d) == ValueOf(v, c)
  {
  }

  lemma RunResult(g: Emitted, val: nat, meta: nat, p: Builder, w: World, c0: Config, c: Config, n: nat, v: Word)
    returns (d: Config)
    requires Extends(GenResult(g, val, meta), p) && c.pc == |g.b.code| && Holds(g.res, v, c)
    requires Reached(p, w, c0, c, n) && n <= val < meta && Own(g.res.val, meta + 1) && Own(g.res.meta, meta + 1)
    ensures Reached(p, w, c0, d, n) && d.pc == |GenResult(g, val, meta).code| && d.st == c.st
    ensures ValueOf(Temp(val), d) == v.n && ValueOf(Temp(meta), d) == v.tag
  {
    var i1, i2 := Move(val, g.res.val), Move(meta, g.res.meta);
    ExtendsEmit(g.b.Emit(i1), i2, p);
    d := Execute(g.b, i1, p, w, c0, c, n);
    d := Execute(g.b.Emit(i1), i2, p, w, c0, d, n);
  }

  /** Where the parts of a ternary's code are: every stage is part of the program, and its two labels
      are placed where the code says. */
  lemma TernaryStages(e: Expr, env: Env, b: Builder, p: Builder)
    requires e.Ternary? && Sane(b) && Extends(GenTernary(e, env, b).b, p)
    ensures var gc := GenExpr(e.cond, env, b);
      var isFalse := gc.b.next;
      var done, val, meta := isFalse + 1, isFalse + 2, isFalse + 3;
      var b1 := GenBranchIfNot(gc.res, isFalse, gc.b.Fresh(4));
      var gt := GenExpr(e.whenTrue, env, b1);
      var rt := GenResult(gt, val, meta);
      var b3 := rt.Emit(Branch(done)).Emit(Label(isFalse));
      var gf := GenExpr(e.whenFalse, env, b3);
      var rf := GenResult(gf, val, meta);
      && Extends(gc.b, p) && Extends(b1, p) && Extends(gt.b, p) && Extends(rt, p)
      && Extends(rt.Emit(Branch(done)), p) && Extends(b3, p) && Extends(gf.b, p) && Extends(rf, p)
      && Sane(b1) && Sane(b3)
      && BoundedVar(gc.res, gc.b.next) && b.next <= gc.b.next <= b1.next <= gt.b.next && gt.b.next <= gf.b.next
      && isFalse + 4 <= b1.next && b3.next == gt.b.next
      && Own(gt.res.val, b1.next) && Own(gt.res.meta, b1.next)
      && Own(gf.res.val, b1.next) && Own(gf.res.meta, b1.next)
      && p.Target(isFalse) == |rt.Emit(Branch(done)).code| && p.Target(done) == |rf.code|
      && GenArms(e, env, b) ==
         Emitted(rf, JitVar(Temp(val), Temp(meta), if gt.res.ty == gf.res.ty then gt.res.ty else TDynamic))
  {
    hide Grows, Extends, Sane, GenExpr, GenBranchIfNot, Builder.Target;
    var gc := GenExpr(e.cond, env, b);
    var isFalse := gc.b.next;
    var done, val, meta := isFalse + 1, isFalse + 2, isFalse + 3;
    var b0 := gc.b.Fresh(4);
    var b1 := GenBranchIfNot(gc.res, isFalse, b0);
    var gt := GenExpr(e.whenTrue, env, b1);
    var rt := GenResult(gt, val, meta);
    var b2 := rt.Emit(Branch(done));
    var b3 := b2.Emit(Label(isFalse));
    var gf := GenExpr(e.whenFalse, env, b3);
    var rf := GenResult(gf, val, meta);
    ExprGrows(e.cond, env, b);
    GrowsSane(b, gc.b, b.next);
    SaneFresh(gc.b, 4);
    BranchIfNotGrows(gc.res, isFalse, b0);
    GrowsSane(b0, b1, b0.next);
    ExprGrows(e.whenTrue, env, b1);
    GrowsTrans(b0, b1, gt.b, b0.next, b1.next);
    ResultGrows(b0, gt, val, meta);
    GrowsEmit(b0, rt, b0.next, Branch(done));
    GrowsSane(b0, b2, b0.next);
    SaneEmit(b2, Label(isFalse));
    ExprGrows(e.whenFalse, env, b3);
    ResultGrows(b3, gf, val, meta);
    NewUnplaced(gc.b, isFalse);
    NewUnplaced(gc.b, done);
    Unplaced(b0, b2, isFalse);
    Unplaced(b0, b2, done);
    Unplaced(b3, rf, done);
    ExtendsEmit(rf, Label(done), p);
    PlacedAt(rf, done, p);
    ExtendsEmit(gf.b.Emit(Move(val, gf.res.val)), Move(meta, gf.res.meta), p);
    ExtendsEmit(gf.b, Move(val, gf.res.val), p);
    GrowsExtends(b3, gf.b, p, b3.next);
    PlacedAt(b2, isFalse, p);
    ExtendsEmit(b2, Label(isFalse), p);
    ExtendsEmit(rt, Branch(done), p);
    ExtendsEmit(gt.b.Emit(Move(val, gt.res.val)), Move(meta, gt.res.meta), p);
    ExtendsEmit(gt.b, Move(val, gt.res.val), p);
    GrowsExtends(b1, gt.b, p, b1.next);
    GrowsExtends(b0, b1, p, b0.next);
    FreshExtends(gc.b, 4, p);
  }

  /** An arm of a ternary: evaluate it and store it in the result's two temporaries. */
  lemma RunArm(e: Expr, env: Env, b: Builder, val: nat, p: Builder, w: World, c0: Config, c: Config, n: nat)
    returns (d: Config)
    requires Ready(e, env, b, p, w, c0, c, n) && n <= val && val + 2 <= b.next
    requires Extends(GenResult(GenExpr(e, env, b), val, val + 1), p)
    ensures var g := GenExpr(e, env, b);
      var r := Eval(e, c.st, w);
      if r.st.failed then Halted(r.st, p, w, c0, n, d)
      else
        && Reached(p, w, c0, d, n) && d.pc == |GenResult(g, val, val + 1).code| && d.st == r.st
        && TypedState(d.st, env) && ValueOf(Temp(val), d) == r.v.n && ValueOf(Temp(val + 1), d) == r.v.tag
        && (g.res.ty == TInt ==> r.v.tag == INT) && (g.res.ty == TUndefined ==> r.v.tag == UNDEFINED)
    decreases e, 3
  {
    hide Grows, Leads, Run, Extends, Sane, Reached, GenExpr, SameTemps, Builder.Target;
    ExprGrows(e, env, b);
    d := RunExpr(e, env, b, p, w, c0, c, n);
    if !Eval(e, c.st, w).st.failed {
      d := RunResult(GenExpr(e, env, b), val, val + 1, p, w, c0, d, n, Eval(e, c.st, w).v);
    }
  }

  lemma TernaryUnfold(e: Expr, env: Env, b: Builder, st: State, w: World)
    requires e.Ternary? && WellTyped(e, env)
    ensures GenExpr(e, env, b) == GenTernary(e, env, b)
    ensures WellTyped(e.cond, env) && WellTyped(e.whenTrue, env) && WellTyped(e.whenFalse, env)
    ensures var x := Eval(e.cond, st, w);
      Eval(e, st, w) ==
        if x.st.failed then x else if Truthy(x.v) then Eval(e.whenTrue, x.st, w) else Eval(e.whenFalse, x.st, w)
  {
  }

  lemma RunTernary(e: Expr, env: Env, b: Builder, p: Builder, w: World, c0: Config, c: Config, n: nat)
    returns (d: Config)
    requires e.Ternary? && Ready(e, env, b, p, w, c0, c, n)
    ensures Achieved(e, env, b, p, w, c0, c, n, d)
    decreases e, 0, 1
  {
    hide GenArms, Eval, WellTyped, TypedState, Grows, Leads, Run, Extends, Sane, Reached, GenExpr, GenBranchIfNot,
      GenResult, SameTemps, Builder.Target, Builder.Emit, Step;
    TernaryUnfold(e, env, b, c.st, w);
    TernaryStages(e, env, b, p);
    var x := Eval(e.cond, c.st, w);
    var gc := GenExpr(e.cond, env, b);
    var isFalse := gc.b.next;
    d := RunExpr(e.cond, env, b, p, w, c0, c, n);
    if !x.st.failed {
      d := RunArms(e, env, b, p, w, c0, d, n, x.v);
      if !d.st.failed {
        d := ExecuteLabel(GenArms(e, env, b).b, isFalse + 1, p, w, c0, d, n);
      }
    }
  }

  /** From the condition's operand to the place where both arms meet. */
  lemma RunArms(e: Expr, env: Env, b: Builder, p: Builder, w: World, c0: Config, c: Config, n: nat, x: Word)
    returns (d: Config)
    requires w.code == Some(env) && e.Ternary? && WellTyped(e, env) && TypedState(c.st, env) && Sane(b)
    requires Extends(GenTernary(e, env, b).b, p) && c.pc == |GenExpr(e.cond, env, b).b.code|
    requires Reached(p, w, c0, c, n) && n <= b.next && Holds(GenExpr(e.cond, env, b).res, x, c)
    ensures var g := GenArms(e, env, b);
      var r := if Truthy(x) then Eval(e.whenTrue, c.st, w) else Eval(e.whenFalse, c.st, w);
      if r.st.failed then Halted(r.st, p, w, c0, n, d)
      else
        && Reached(p, w, c0, d, n) && d.pc == |g.b.code| && d.st == r.st && TypedState(d.st, env)
        && ValueOf(g.res.val, d) == r.v.n && ValueOf(g.res.meta, d) == r.v.tag
        && (g.res.ty == TInt ==> r.v.tag == INT) && (g.res.ty == TUndefined ==> r.v.tag == UNDEFINED)
    decreases e, 0, 0
  {
    hide GenArms, Eval, WellTyped, TypedState, Grows, Leads, Run, Extends, Sane, Reached, GenExpr, GenBranchIfNot,
      GenResult, SameTemps, Builder.Target, Builder.Emit, Step;
    TernaryUnfold(e, env, b, c.st, w);
    TernaryStages(e, env, b, p);
    var gc := GenExpr(e.cond, env, b);
    var isFalse := gc.b.next;
    var done, val, meta := isFalse + 1, isFalse + 2, isFalse + 3;
    var b1 := GenBranchIfNot(gc.res, isFalse, gc.b.Fresh(4));
    var gt := GenExpr(e.whenTrue, env, b1);
    var rt := GenResult(gt, val, meta);
    var b3 := rt.Emit(Branch(done)).Emit(Label(isFalse));
    d := RunBranchIfNot(gc.res, isFalse, gc.b.Fresh(4), p, w, c0, c, n, x);
    if Truthy(x) {
      d := RunArm(e.whenTrue, env, b1, val, p, w, c0, d, n);
      if !d.st.failed {
        d := ExecuteBranch(rt, done, p, w, c0, d, n);
      }
    } else {
      d := ExecuteLabel(rt.Emit(Branch(done)), isFalse, p, w, c0, d, n);
      d := RunArm(e.whenFalse, env, b3, val, p, w, c0, d, n);
    }
  }

  /** Where the parts of a short-circuit operator's code are. */
  lemma ShortCircuitStages(e: Expr, env: Env, b: Builder, p: Builder)
    requires (e.LogicOr? || e.LogicAnd?) && Sane(b) && Extends(GenShortCircuit(e, env, b).b, p)
    ensures var gl := GenExpr(e.left, env, b);
      var bl := GenBool(gl.res, gl.b);
      && Extends(gl.b, p) && Extends(bl.b, p) && Sane(bl.b)
      && (bl.val.Const? || bl.val.Temp?)
      && BoundedVar(gl.res, gl.b.next) && Bounded(bl.val, bl.b.next) && b.next <= gl.b.next <= bl.b.next
  {
    hide Grows, Extends, Sane, GenExpr, GenBool, Builder.Target;
    var gl := GenExpr(e.left, env, b);
    var bl := GenBool(gl.res, gl.b);
    ExprGrows(e.left, env, b);
    BoolGrows(gl.res, gl.b);
    GrowsSane(b, gl.b, b.next);
    GrowsSane(gl.b, bl.b, gl.b.next);
    if !(bl.val.Const? && (bl.val.n != 0) == e.LogicOr?) {
      ShortCircuitRest(e, env, bl, p);
    }
    GrowsExtends(gl.b, bl.b, p, gl.b.next);
  }

  /** ... from the second operand on. */
  lemma ShortCircuitRest(e: Expr, env: Env, bl: EmittedValue, p: Builder)
    requires (e.LogicOr? || e.LogicAnd?) && Sane(bl.b) && Extends(GenSecond(e, env, bl).b, p)
    ensures var ret, skip := bl.b.next, bl.b.next + 1;
      var b1 := if bl.val.Const? then bl.b else GenSkip(e, bl);
      var gr := GenExpr(e.right, env, b1);
      var br := GenBool(gr.res, gr.b);
      && Extends(bl.b, p) && Extends(b1, p) && Extends(gr.b, p) && Extends(br.b, p) && Sane(b1)
      && BoundedVar(gr.res, gr.b.next) && bl.b.next <= b1.next <= gr.b.next <= br.b.next
      && (!bl.val.Const? ==>
            && b1.next == bl.b.next + 2 && Extends(bl.b.Fresh(2).Emit(Move(ret, bl.val)), p)
            && Extends(SecondEnd(e, bl, br), p) && p.Target(skip) == |SecondEnd(e, bl, br).code|)
  {
    hide Grows, Extends, Sane, GenExpr, GenBool, Builder.Target;
    var ret, skip := bl.b.next, bl.b.next + 1;
    var a1, a2 := bl.b.Fresh(2), bl.b.Fresh(2).Emit(Move(ret, bl.val));
    var b1 := if bl.val.Const? then bl.b else GenSkip(e, bl);
    var gr := GenExpr(e.right, env, b1);
    var br := GenBool(gr.res, gr.b);
    ExprGrows(e.right, env, b1);
    BoolGrows(gr.res, gr.b);
    GrowsTrans(b1, gr.b, br.b, b1.next, gr.b.next);
    if !bl.val.Const? {
      SaneFresh(bl.b, 2);
      SaneEmit(a1, Move(ret, bl.val));
      SaneEmit(a2, Jump(e, bl));
      NewUnplaced(bl.b, skip);
      GrowsEmit(b1, br.b, b1.next, Move(ret, br.val));
      Unplaced(b1, br.b, skip);
      var end := SecondEnd(e, bl, br);
      PlacedAt(end, skip, p);
      ExtendsEmit(end, Label(skip), p);
      if end != br.b {
        ExtendsEmit(br.b, Move(ret, br.val), p);
      }
    }
    GrowsExtends(gr.b, br.b, p, gr.b.next);
    GrowsExtends(b1, gr.b, p, b1.next);
    if !bl.val.Const? {
      ExtendsEmit(a2, Jump(e, bl), p);
      ExtendsEmit(a1, Move(ret, bl.val), p);
      FreshExtends(bl.b, 2, p);
    }
  }

  lemma RunShortCircuit(e: Expr, env: Env, b: Builder, p: Builder, w: World, c0: Config, c: Config, n: nat)
    returns (d: Config)
    requires (e.LogicOr? || e.LogicAnd?) && Ready(e, env, b, p, w, c0, c, n)
    ensures Achieved(e, env, b, p, w, c0, c, n, d)
    decreases e, 1
  {
    assert GenExpr(e, env, b) == GenShortCircuit(e, env, b);
    ShortCircuitStages(e, env, b, p);
    hide Grows, Leads, Run, Extends, Sane, Reached, GenExpr, GenBool, GenSecond, SameTemps, Builder.Target;
    var gl := GenExpr(e.left, env, b);
    var bl := GenBool(gl.res, gl.b);
    var a := Eval(e.left, c.st, w);
    d := RunExpr(e.left, env, b, p, w, c0, c, n);
    if !a.st.failed {
      d := RunBool(gl.res, gl.b, p, w, c0, d, n, a.v);
      if !(bl.val.Const? && (bl.val.n != 0) == e.LogicOr?) {
        d := RunSecond(e, env, bl, p, w, c0, d, n, Truthy(a.v));
      }
    }
  }

  lemma SecondEnds(e: Expr, bl: EmittedValue, br: EmittedValue)
    ensures SecondEnd(e, bl, br) == br.b <==> br.val.Const? && (br.val.n != 0) != e.LogicOr?
  {
    assert |SecondEnd(e, bl, br).code| == |br.b.code| <==> br.val.Const? && (br.val.n != 0) != e.LogicOr?;
  }

  /** The first operand decides, and the second one is skipped; or it does not, and the run goes on
      to the second one. */
  lemma RunSkip(e: Expr, env: Env, bl: EmittedValue, p: Builder, w: World, c0: Config, c: Config, n: nat, t: bool)
    returns (d: Config)
    requires (e.LogicOr? || e.LogicAnd?) && Sane(bl.b) && Extends(GenSecond(e, env, bl).b, p) && c.pc == |bl.b.code|
    requires Reached(p, w, c0, c, n) && n <= bl.b.next && (bl.val.Const? || bl.val.Temp?) && Bounded(bl.val, bl.b.next)
    requires ValueOf(bl.val, c) == Bit(t) && !(bl.val.Const? && t == e.LogicOr?)
    ensures var b1 := if bl.val.Const? then bl.b else GenSkip(e, bl);
      && Reached(p, w, c0, d, n) && d.st == c.st && ValueOf(bl.val, d) == Bit(t)
      && (!bl.val.Const? ==> ValueOf(Temp(bl.b.next), d) == Bit(t))
      && d.pc == (if t == e.LogicOr? then p.Target(bl.b.next + 1) else |b1.code|)
  {
    ShortCircuitRest(e, env, bl, p);
    hide Grows, Leads, Run, Extends, Sane, Reached, GenExpr, GenBool, Builder.Target, Step, SameTemps, GenSecond;
    var a1 := bl.b.Fresh(2);
    d := c;
    if !bl.val.Const? {
      d := ExecuteMove(a1, bl.b.next, bl.val, p, w, c0, d, n);
      d := ExecuteTest(a1.Emit(Move(bl.b.next, bl.val)), bl.val, e.LogicOr?, bl.b.next + 1, p, w, c0, d, n);
    }
  }

  /** The second operand, when it is evaluated, up to the label that ends the operator. */
  lemma RunRight(e: Expr, env: Env, bl: EmittedValue, p: Builder, w: World, c0: Config, c: Config, n: nat)
    returns (d: Config)
    requires w.code == Some(env) && (e.LogicOr? || e.LogicAnd?) && WellTyped(e, env) && TypedState(c.st, env)
    requires Sane(bl.b) && Extends(GenSecond(e, env, bl).b, p)
    requires c.pc == |(if bl.val.Const? then bl.b else GenSkip(e, bl)).code|
    requires Reached(p, w, c0, c, n) && n <= bl.b.next && (bl.val.Const? || bl.val.Temp?) && Bounded(bl.val, bl.b.next)
    requires ValueOf(bl.val, c) == Bit(!e.LogicOr?)
    ensures var r := Eval(e.right, c.st, w);
      if r.st.failed then Halted(r.st, p, w, c0, n, d)
      else
        && Reached(p, w, c0, d, n) && TypedState(d.st, env) && d.st == r.st
        && d.pc == |GenSecond(e, env, bl).b.code| - (if bl.val.Const? then 0 else 1)
        && ValueOf(GenSecond(e, env, bl).res.val, d) == Bit(Truthy(r.v))
    decreases e, 0, 0
  {
    ShortCircuitRest(e, env, bl, p);
    hide Grows, Leads, Run, Extends, Sane, Reached, GenExpr, GenBool, Builder.Target, Step, SameTemps;
    var ret := bl.b.next;
    var b1 := if bl.val.Const? then bl.b else GenSkip(e, bl);
    var gr := GenExpr(e.right, env, b1);
    var br := GenBool(gr.res, gr.b);
    SecondEnds(e, bl, br);
    ReachedRefl(p, w, c, b1.next);
    d := RunExpr(e.right, env, b1, p, w, c, c, b1.next);
    if Eval(e.right, c.st, w).st.failed {
      ReachedTrans(p, w, c0, c, d, n, b1.next);
    } else {
      d := RunBool(gr.res, gr.b, p, w, c, d, b1.next, Eval(e.right, c.st, w).v);
      ReachedTrans(p, w, c0, c, d, n, b1.next);
      ReachedTemps(p, w, c, d, b1.next);
      TempKept(bl.val, c, d, b1.next);
      if !bl.val.Const? && SecondEnd(e, bl, br) != br.b {
        d := ExecuteMove(br.b, ret, br.val, p, w, c0, d, n);
      }
    }
  }

  /** From the truth of the first operand to the end of the operator. */
  lemma RunSecond(e: Expr, env: Env, bl: EmittedValue, p: Builder, w: World, c0: Config, c: Config, n: nat, t: bool)
    returns (d: Config)
    requires w.code == Some(env) && (e.LogicOr? || e.LogicAnd?) && WellTyped(e, env) && TypedState(c.st, env)
    requires Sane(bl.b) && Extends(GenSecond(e, env, bl).b, p) && c.pc == |bl.b.code|
    requires Reached(p, w, c0, c, n) && n <= bl.b.next && (bl.val.Const? || bl.val.Temp?) && Bounded(bl.val, bl.b.next)
    requires ValueOf(bl.val, c) == Bit(t) && !(bl.val.Const? && t == e.LogicOr?)
    ensures var g := GenSecond(e, env, bl);
      var r := Eval(e.right, c.st, w);
      if t != e.LogicOr? && r.st.failed then Halted(r.st, p, w, c0, n, d)
      else
        && Reached(p, w, c0, d, n) && d.pc == |g.b.code| && TypedState(d.st, env)
        && d.st == (if t == e.LogicOr? then c.st else r.st)
        && Holds(g.res, Truth(if t == e.LogicOr? then t else Truthy(r.v)), d)
    decreases e, 0, 1
  {
    ShortCircuitRest(e, env, bl, p);
    hide Grows, Leads, Run, Extends, Sane, Reached, GenExpr, GenBool, Builder.Target, Step, SameTemps;
    var skip := bl.b.next + 1;
    var gr := GenExpr(e.right, env, if bl.val.Const? then bl.b else GenSkip(e, bl));
    var br := GenBool(gr.res, gr.b);
    d := RunSkip(e, env, bl, p, w, c0, c, n, t);
    if t != e.LogicOr? {
      d := RunRight(e, env, bl, p, w, c0, d, n);
    }
    if !bl.val.Const? && !d.st.failed {
      d := ExecuteLabel(SecondEnd(e, bl, br), skip, p, w, c0, d, n);
    }
  }
}
