/** The code generator as the program runs it: handlers that append to a function under construction
    and overwrite the fields of a scope (jit/statements.c, jit/ops/special.c, jit/lib/conversion.c). */
module Emitter {
  import opened Basics
  import opened Machine
  import opened Expressions
  import opened Statements
  import opened Growth
  import opened Dispatch

  /** jit_function_t. */
  class Function {
    var code: seq<Instr>
    var placed: map<nat, nat>
    var next: nat

    function Built(): Builder
      reads this
    {
      Builder(code, placed, next)
    }

    constructor ()
      ensures Built() == EMPTY
    {
      code, placed, next := [], map[], 0;
    }

    method Add(i: Instr)
      modifies this
      ensures Built() == old(Built()).Emit(i)
    {
      if i.Label? && i.l !in placed {
        placed := placed[i.l := |code|];
      }
      code := code + [i];
    }

    /** A label or a temporary that was not used before. */
    method New() returns (id: nat)
      modifies this`next
      ensures id == old(next) && Built() == old(Built()).Fresh(1)
    {
      id := next;
      next := next + 1;
    }
  }

  /** ptrs_scope_t, as far as control flow is concerned. */
  class Scope {
    var loopControlAllowed: bool
    var continueLabel: nat
    var breakLabel: nat
    var hasCustomContinueLabel: bool

    constructor ()
      ensures !loopControlAllowed && !hasCustomContinueLabel && Labels() == Ctl(0, 0)
    {
      loopControlAllowed, continueLabel, breakLabel, hasCustomContinueLabel := false, 0, 0, false;
    }

    function Labels(): Ctl
      reads this
    {
      Ctl(continueLabel, breakLabel)
    }
  }

  // ---------- operands ----------

  method EmitAlu(op: AluOp, x: Value, y: Value, fold: bool, func: Function) returns (v: Value)
    modifies func
    ensures EmittedValue(func.Built(), v) == GenAlu(op, x, y, fold, old(func.Built()))
  {
    if fold && x.Const? && y.Const? {
      v := Const(Apply(op, x.n, y.n));
    } else {
      var t := func.New();
      func.Add(Alu(t, op, x, y));
      v := Temp(t);
    }
  }

  /** The operators of jit/ops/binary.c, on operands that are already there. */
  method EmitArith(op: AluOp, left: JitVar, right: JitVar, env: Env, func: Function) returns (r: JitVar)
    modifies func
    ensures Emitted(func.Built(), r) == GenArith(op, left, right, env, old(func.Built()))
  {
    if left.ty == TDynamic || right.ty == TDynamic {
      var val := func.New();
      if Compares(op) {
        func.Add(Alu(val, op, left.val, right.val));
        r := IntVar(Temp(val));
      } else {
        var meta := func.New();
        func.Add(CallIntrinsic(op, val, meta, left.val, left.meta, right.val, right.meta));
        r := JitVar(Temp(val), Temp(meta), TDynamic);
      }
    } else {
      var val := EmitAlu(op, left.val, right.val, env.fold || op == Add || op == Sub, func);
      r := IntVar(val);
    }
  }

  /** ptrs_jit_vartob. */
  method VarToBool(v: JitVar, func: Function) returns (r: Value)
    modifies func
    ensures EmittedValue(func.Built(), r) == GenBool(v, old(func.Built()))
  {
    if v.ty != TDynamic && v.val.Const? {
      if v.ty == TUndefined || v.val.n == 0 { r := Const(0); } else { r := Const(1); }
    } else if v.ty != TDynamic {
      if v.ty == TUndefined {
        r := Const(0);
      } else {
        var t := func.New();
        func.Add(ToBool(t, v.val));
        r := Temp(t);
      }
    } else if v.val.Const? {
      if v.val.n == 0 {
        r := Const(0);
      } else {
        r := EmitAlu(Ne, v.meta, Const(UNDEFINED), false, func);
      }
    } else {
      var definedType := func.New();
      var isTrue := func.New();
      var both := func.New();
      func.Add(Alu(definedType, Ne, v.meta, Const(UNDEFINED)));
      func.Add(ToBool(isTrue, v.val));
      func.Add(Alu(both, AluOp.And, Temp(definedType), Temp(isTrue)));
      r := Temp(both);
    }
  }

  /** ptrs_jit_branch_if_not. */
  method BranchUnless(v: JitVar, l: nat, func: Function)
    modifies func
    ensures func.Built() == GenBranchIfNot(v, l, old(func.Built()))
  {
    var placeIsUndefined, placeIsZero := v.ty == TDynamic, !v.val.Const?;
    if v.ty == TUndefined || (v.val.Const? && v.val.n == 0) {
      func.Add(Branch(l));
      return;
    }
    if placeIsUndefined {
      var isUndefined := EmitAlu(Eq, v.meta, Const(UNDEFINED), false, func);
      func.Add(BranchIf(isUndefined, l));
    }
    if placeIsZero {
      func.Add(BranchIfNot(v.val, l));
    }
  }

  /** ptrs_jit_branch_if. */
  method BranchWhen(v: JitVar, l: nat, func: Function)
    modifies func
    ensures func.Built() == GenBranchIf(v, l, old(func.Built()))
  {
    var placeIsUndefined, placeIsZero := v.ty == TDynamic, !v.val.Const?;
    if v.ty == TUndefined || (v.val.Const? && v.val.n == 0) {
      return;
    }
    if !placeIsUndefined && !placeIsZero {
      func.Add(Branch(l));
      return;
    }
    if placeIsUndefined {
      var isUndefined := EmitAlu(Eq, v.meta, Const(UNDEFINED), false, func);
      func.Add(BranchIfNot(isUndefined, l));
    }
    if placeIsZero {
      func.Add(BranchIf(v.val, l));
    }
  }

  /** ptrs_jit_vartoi. */
  method VarToInt(v: JitVar, func: Function) returns (r: Value)
    modifies func
    ensures EmittedValue(func.Built(), r) == GenInt(v, old(func.Built()))
  {
    if v.val.Const? && v.meta.Const? {
      r := Const(IntOf(Word(v.val.n, v.meta.n)));
    } else if v.ty == TUndefined {
      r := Const(0);
    } else if v.ty == TInt {
      r := v.val;
    } else {
      var t := func.New();
      func.Add(ToInt(t, v.val, v.meta));
      r := Temp(t);
    }
  }

  // ---------- expressions ----------

  method HandleExpr(e: Expr, env: Env, func: Function) returns (r: JitVar)
    modifies func
    ensures Emitted(func.Built(), r) == GenExpr(e, env, old(func.Built()))
    decreases e, 1
  {
    match e
    case Lit(v) => r := JitVar(Const(v.n), Const(v.tag), TypeOf(e, env));
    case Var(x) => r := JitVar(VarVal(x), if x in env.ints then Const(INT) else VarMeta(x), TypeOf(e, env));
    case Call(f, typed) =>
      var val := func.New();
      var meta := func.New();
      func.Add(CallOp(f, val, meta));
      r := JitVar(Temp(val), if typed then Const(INT) else Temp(meta), TypeOf(e, env));
    case Assign(x, value) =>
      r := HandleExpr(value, env, func);
      func.Add(SetVal(x, r.val));
      if x !in env.ints {
        func.Add(SetMeta(x, r.meta));
      }
    case LogicOr(_, _) => r := HandleOr(e, env, func);
    case LogicAnd(_, _) => r := HandleAnd(e, env, func);
    case LogicXor(_, _) => r := HandleXor(e, env, func);
    case LogicNot(a) =>
      var v := HandleExpr(a, env, func);
      var t := VarToBool(v, func);
      var o := EmitAlu(AluOp.Xor, t, Const(1), env.fold, func);
      r := IntVar(o);
    case Arith(op, left, right) =>
      var l := HandleExpr(left, env, func);
      var r0 := HandleExpr(right, env, func);
      r := EmitArith(op, l, r0, env, func);
    case Ternary(_, _, _) => r := HandleTernary(e, env, func);
  }

  /** ptrs_handle_op_logicor. */
  method HandleOr(e: Expr, env: Env, func: Function) returns (r: JitVar)
    requires e.LogicOr?
    modifies func
    ensures Emitted(func.Built(), r) == GenShortCircuit(e, env, old(func.Built()))
    decreases e, 0
  {
    hide GenExpr, GenBool;
    var left := HandleExpr(e.left, env, func);
    var leftBool := VarToBool(left, func);
    var ret, skip := 0, 0;
    if leftBool.Const? && leftBool.n != 0 {
      return IntVar(Const(1));
    } else if !leftBool.Const? {
      ret := func.New();
      skip := func.New();
      func.Add(Move(ret, leftBool));
      func.Add(BranchIf(leftBool, skip));
    }
    var right := HandleExpr(e.right, env, func);
    var rightBool := VarToBool(right, func);
    if leftBool.Const? {
      r := IntVar(rightBool);
    } else if rightBool.Const? && rightBool.n == 0 {
      func.Add(Label(skip));
      r := IntVar(leftBool);
    } else {
      func.Add(Move(ret, rightBool));
      func.Add(Label(skip));
      r := IntVar(Temp(ret));
    }
  }

  /** ptrs_handle_op_logicand. */
  method HandleAnd(e: Expr, env: Env, func: Function) returns (r: JitVar)
    requires e.LogicAnd?
    modifies func
    ensures Emitted(func.Built(), r) == GenShortCircuit(e, env, old(func.Built()))
    decreases e, 0
  {
    hide GenExpr, GenBool;
    var left := HandleExpr(e.left, env, func);
    var leftBool := VarToBool(left, func);
    var ret, skip := 0, 0;
    if leftBool.Const? && leftBool.n == 0 {
      return IntVar(Const(0));
    } else if !leftBool.Const? {
      ret := func.New();
      skip := func.New();
      func.Add(Move(ret, leftBool));
      func.Add(BranchIfNot(leftBool, skip));
    }
    var right := HandleExpr(e.right, env, func);
    var rightBool := VarToBool(right, func);
    if leftBool.Const? {
      r := IntVar(rightBool);
    } else if rightBool.Const? && rightBool.n != 0 {
      func.Add(Label(skip));
      r := IntVar(leftBool);
    } else {
      func.Add(Move(ret, rightBool));
      func.Add(Label(skip));
      r := IntVar(Temp(ret));
    }
  }

  /** ptrs_handle_op_logicxor. */
  method HandleXor(e: Expr, env: Env, func: Function) returns (r: JitVar)
    requires e.LogicXor?
    modifies func
    ensures Emitted(func.Built(), r) == GenStrict(e, env, old(func.Built()))
    decreases e, 0
  {
    hide GenExpr, GenBool;
    var left := HandleExpr(e.left, env, func);
    var right := HandleExpr(e.right, env, func);
    var leftBool := VarToBool(left, func);
    var rightBool := VarToBool(right, func);
    var o := EmitAlu(AluOp.Xor, leftBool, rightBool, env.fold, func);
    r := IntVar(o);
  }

  /** ptrs_handle_op_ternary. */
  method HandleTernary(e: Expr, env: Env, func: Function) returns (r: JitVar)
    requires e.Ternary?
    modifies func
    ensures Emitted(func.Built(), r) == GenTernary(e, env, old(func.Built()))
    decreases e, 0
  {
    hide GenExpr, GenBranchIfNot, GenResult, Builder.Emit;
    ghost var b := func.Built();
    var condition := HandleExpr(e.cond, env, func);
    var isFalse, done, val, meta := NewFour(func);
    BranchUnless(condition, isFalse, func);
    var trueVal := HandleExpr(e.whenTrue, env, func);
    StoreResult(trueVal, val, meta, func);
    func.Add(Branch(done));
    func.Add(Label(isFalse));
    var falseVal := HandleExpr(e.whenFalse, env, func);
    StoreResult(falseVal, val, meta, func);
    func.Add(Label(done));
    r := JitVar(Temp(val), Temp(meta), if trueVal.ty == falseVal.ty then trueVal.ty else TDynamic);
  }

  method NewFour(func: Function) returns (i: nat, j: nat, k: nat, l: nat)
    modifies func
    ensures func.Built() == old(func.Built()).Fresh(4)
    ensures i == old(func.next) && j == i + 1 && k == i + 2 && l == i + 3
  {
    i := func.New();
    j := func.New();
    k := func.New();
    l := func.New();
  }

  method StoreResult(v: JitVar, val: nat, meta: nat, func: Function)
    modifies func
    ensures func.Built() == GenResult(Emitted(old(func.Built()), v), val, meta)
  {
    func.Add(Move(val, v.val));
    func.Add(Move(meta, v.meta));
  }

  // ---------- statements ----------

  /** What the parser guarantees: a continue label stands in the list of a loop's body; and what the
      generator relies on: the interval of a jump table does not wrap. */
  ghost predicate Shaped(s: Stmt)
    decreases s
  {
    match s
    case Body(list) => ShapedList(list, false)
    case If(_, thn, els) => (thn.Some? ==> Shaped(thn.value)) && (els.Some? ==> Shaped(els.value))
    case Switch(_, gs, dflt) =>
      ShapedGroups(gs) && (dflt.Some? ==> Shaped(dflt.value)) && (UseTable(gs) ==> TableFits(gs))
    case Loop(body) => if body.Body? then ShapedList(body.list, true) else Shaped(body)
    case ContinueLabel => false
    case _ => true
  }

  ghost predicate ShapedList(l: StmtList, labelled: bool)
    decreases l
  {
    l.Node? ==> (Shaped(l.entry) || (labelled && l.entry == ContinueLabel)) && ShapedList(l.next, labelled)
  }

  ghost predicate ShapedGroups(gs: GroupList)
    decreases gs
  {
    gs.Group? ==> Shaped(gs.body) && ShapedGroups(gs.next)
  }

  lemma {:induction false} ShapedSetsNoLabel(s: Stmt)
    requires Shaped(s)
    ensures !SetsLabel(s)
    decreases s
  {
    match s
    case Body(list) => ShapedListSetsNoLabel(list);
    case If(_, thn, els) =>
      if thn.Some? { ShapedSetsNoLabel(thn.value); }
      if els.Some? { ShapedSetsNoLabel(els.value); }
    case Switch(_, gs, dflt) =>
      ShapedGroupsSetNoLabel(gs);
      if dflt.Some? { ShapedSetsNoLabel(dflt.value); }
    case _ =>
  }

  lemma {:induction false} ShapedListSetsNoLabel(l: StmtList)
    requires ShapedList(l, false)
    ensures !ListSetsLabel(l)
    decreases l
  {
    if l.Node? {
      ShapedSetsNoLabel(l.entry);
      ShapedListSetsNoLabel(l.next);
    }
  }

  lemma {:induction false} ShapedGroupsSetNoLabel(gs: GroupList)
    requires ShapedGroups(gs)
    ensures !GroupsSetLabel(gs)
    decreases gs
  {
    if gs.Group? {
      ShapedSetsNoLabel(gs.body);
      ShapedGroupsSetNoLabel(gs.next);
    }
  }

  /** Every `break` and `continue` stands in a loop, and every switch on a constant finds a body. */
  predicate Compiles(s: Stmt, env: Env, allowed: bool)
    decreases s
  {
    match s
    case Body(list) => ListCompiles(list, env, allowed)
    case If(_, thn, els) =>
      (thn.Some? ==> Compiles(thn.value, env, allowed)) && (els.Some? ==> Compiles(els.value, env, allowed))
    case Switch(c, gs, dflt) =>
      && GroupsCompile(gs, env, allowed)
      && (if dflt.Some? then Compiles(dflt.value, env, allowed) else Hits(gs, GenExpr(c, env, EMPTY).res.val))
    case Loop(body) => Compiles(body, env, true)
    case ExprStmt(_) => true
    case _ => allowed
  }

  predicate ListCompiles(l: StmtList, env: Env, allowed: bool)
    decreases l
  {
    l.Node? ==> Compiles(l.entry, env, allowed) && ListCompiles(l.next, env, allowed)
  }

  predicate GroupsCompile(gs: GroupList, env: Env, allowed: bool)
    decreases gs
  {
    gs.Group? ==> Compiles(gs.body, env, allowed) && GroupsCompile(gs.next, env, allowed)
  }

  /** What every handler leaves as it was. */
  twostate predicate SameControl(scope: Scope)
    reads scope
  {
    scope.Labels() == old(scope.Labels()) && scope.loopControlAllowed == old(scope.loopControlAllowed)
  }

  /** Generates the code of a statement; `ok` is false when the generator reports an error or (a constant
      switch without a default) follows a null pointer. */
  method HandleStmt(s: Stmt, env: Env, func: Function, scope: Scope) returns (ok: bool)
    requires Shaped(s) || s == ContinueLabel
    modifies func, scope
    ensures Compiles(s, env, old(scope.loopControlAllowed)) ==> ok
    ensures ok ==> func.Built() == GenStmt(s, env, old(scope.Labels()), old(func.Built()))
    ensures ok ==> SameControl(scope)
    ensures ok ==> scope.hasCustomContinueLabel == (old(scope.hasCustomContinueLabel) || SetsLabel(s))
    decreases s, 3
  {
    if s != ContinueLabel {
      ShapedSetsNoLabel(s);
    }
    match s
    case ExprStmt(e) =>
      var _ := HandleExpr(e, env, func);
      ok := true;
    case Body(list) =>
      ok := HandleList(list, false, env, func, scope);
    case If(_, _, _) => ok := HandleIf(s, env, func, scope);
    case Switch(_, _, _) => ok := HandleSwitch(s, env, func, scope);
    case Loop(_) => ok := HandleLoop(s, env, func, scope);
    case Break =>
      ok := scope.loopControlAllowed;
      if ok { func.Add(Branch(scope.breakLabel)); }
    case Continue =>
      ok := scope.loopControlAllowed;
      if ok { func.Add(Branch(scope.continueLabel)); }
    case ContinueLabel =>
      ok := scope.loopControlAllowed;
      if ok {
        func.Add(Label(scope.continueLabel));
        scope.hasCustomContinueLabel := true;
      }
  }

  /** ptrs_handle_body. */
  method HandleList(l: StmtList, labelled: bool, env: Env, func: Function, scope: Scope) returns (ok: bool)
    requires ShapedList(l, labelled)
    modifies func, scope
    ensures ListCompiles(l, env, old(scope.loopControlAllowed)) ==> ok
    ensures ok ==> func.Built() == GenList(l, env, old(scope.Labels()), old(func.Built()))
    ensures ok ==> SameControl(scope)
    ensures ok ==> scope.hasCustomContinueLabel == (old(scope.hasCustomContinueLabel) || ListSetsLabel(l))
    decreases l, 0
  {
    ok := true;
    var curr := l;
    while curr.Node?
      invariant curr == l || curr < l
      invariant ok && ShapedList(curr, labelled) && SameControl(scope)
      invariant ListCompiles(l, env, scope.loopControlAllowed) ==> ListCompiles(curr, env, scope.loopControlAllowed)
      invariant GenList(curr, env, scope.Labels(), func.Built()) == GenList(l, env, scope.Labels(), old(func.Built()))
      invariant scope.hasCustomContinueLabel || ListSetsLabel(curr) <==> old(scope.hasCustomContinueLabel) || ListSetsLabel(l)
      decreases curr
    {
      ok := HandleStmt(curr.entry, env, func, scope);
      if !ok {
        return;
      }
      curr := curr.next;
    }
  }

  /** ptrs_handle_if. */
  method HandleIf(s: Stmt, env: Env, func: Function, scope: Scope) returns (ok: bool)
    requires s.If? && Shaped(s)
    modifies func, scope
    ensures Compiles(s, env, old(scope.loopControlAllowed)) ==> ok
    ensures ok ==> func.Built() == GenIf(s, env, old(scope.Labels()), old(func.Built()))
    ensures ok ==> SameControl(scope) && scope.hasCustomContinueLabel == old(scope.hasCustomContinueLabel)
    decreases s, 2
  {
    hide GenExpr, GenStmt, GenBranchIf, GenBranchIfNot, SetsLabel;
    ghost var ctl, b := scope.Labels(), func.Built();
    if s.thn.Some? { ShapedSetsNoLabel(s.thn.value); }
    if s.els.Some? { ShapedSetsNoLabel(s.els.value); }
    ok := true;
    var condition := HandleExpr(s.cond, env, func);
    var isFalse := func.New();
    var end := func.New();
    if s.thn.Some? {
      BranchUnless(condition, isFalse, func);
      ok := HandleStmt(s.thn.value, env, func, scope);
      if !ok {
        return;
      }
      if s.els.Some? {
        func.Add(Branch(end));
      }
    } else {
      BranchWhen(condition, end, func);
    }
    assert func.Built() == GenThen(s, env, ctl, b);
    func.Add(Label(isFalse));
    if s.els.Some? {
      ok := HandleStmt(s.els.value, env, func, scope);
      if !ok {
        return;
      }
    }
    func.Add(Label(end));
  }

  method HandleLoopBody(s: Stmt, ghost b: Builder, env: Env, func: Function, scope: Scope) returns (ok: bool)
    requires s.Loop? && Shaped(s)
    requires func.Built() == b.Fresh(3).Emit(Label(b.next + 1)) && scope.loopControlAllowed && !scope.hasCustomContinueLabel
    requires scope.breakLabel == b.next && scope.continueLabel == b.next + 2
    modifies func, scope
    ensures Compiles(s.body, env, true) ==> ok
    ensures ok ==> func.Built() == GenLoopBody(s, env, b) && SameControl(scope)
    ensures ok ==> scope.hasCustomContinueLabel == SetsLabel(s.body)
    decreases s, 1
  {
    if s.body.Body? {
      assert Compiles(s.body, env, true) ==> ListCompiles(s.body.list, env, true);
      ok := HandleList(s.body.list, true, env, func, scope);
    } else {
      ok := HandleStmt(s.body, env, func, scope);
    }
  }

  method CloseLoop(s: Stmt, ghost b: Builder, env: Env, start: nat, func: Function, scope: Scope)
    requires s.Loop? && func.Built() == GenLoopBody(s, env, b) && scope.hasCustomContinueLabel == SetsLabel(s.body)
    requires scope.breakLabel == b.next && start == b.next + 1 && scope.continueLabel == b.next + 2
    modifies func
    ensures func.Built() == GenLoop(s, env, b)
  {
    hide GenLoopBody, SetsLabel;
    if !scope.hasCustomContinueLabel {
      func.Add(Label(scope.continueLabel));
    }
    func.Add(Branch(start));
    func.Add(Label(scope.breakLabel));
  }

  /** ptrs_handle_loop: the scope's fields are saved, overwritten for the body, and restored. */
  method HandleLoop(s: Stmt, env: Env, func: Function, scope: Scope) returns (ok: bool)
    requires s.Loop? && Shaped(s)
    modifies func, scope
    ensures Compiles(s, env, old(scope.loopControlAllowed)) ==> ok
    ensures ok ==> func.Built() == GenLoop(s, env, old(func.Built()))
    ensures ok ==> SameControl(scope) && scope.hasCustomContinueLabel == old(scope.hasCustomContinueLabel)
    decreases s, 2
  {
    hide GenExpr, GenStmt, GenList, GenLoopBody, GenLoop, Shaped, SetsLabel;
    ghost var b := func.Built();
    var oldAllowed, oldContinueLabel := scope.loopControlAllowed, scope.hasCustomContinueLabel;
    var oldContinue, oldBreak := scope.continueLabel, scope.breakLabel;
    var brk := func.New();
    var start := func.New();
    var cont := func.New();
    scope.loopControlAllowed, scope.hasCustomContinueLabel := true, false;
    scope.continueLabel, scope.breakLabel := cont, brk;
    func.Add(Label(start));
    ok := HandleLoopBody(s, b, env, func, scope);
    if !ok {
      return;
    }
    CloseLoop(s, b, env, start, func, scope);
    scope.loopControlAllowed, scope.hasCustomContinueLabel := oldAllowed, oldContinueLabel;
    scope.continueLabel, scope.breakLabel := oldContinue, oldBreak;
  }

  // ---------- switch ----------

  /** ptrs_handle_switch. */
  method HandleSwitch(s: Stmt, env: Env, func: Function, scope: Scope) returns (ok: bool)
    requires s.Switch? && Shaped(s)
    modifies func, scope
    ensures Compiles(s, env, old(scope.loopControlAllowed)) ==> ok
    ensures ok ==> func.Built() == GenSwitch(s, env, old(scope.Labels()), old(func.Built()))
    ensures ok ==> SameControl(scope) && scope.hasCustomContinueLabel == old(scope.hasCustomContinueLabel)
    decreases s, 2
  {
    hide GenExpr, GenInt, GenConstant, GenTable, GenChain, UseTable;
    var condition := HandleExpr(s.cond, env, func);
    var done := func.New();
    var val := VarToInt(condition, func);
    ConstSame(s.cond, env, old(func.Built()), EMPTY);
    if condition.val.Const? {
      ok := HandleConstant(s, condition.val.n, env, func, scope);
    } else if UseTable(s.groups) {
      ok := HandleTable(s, val, done, env, func, scope);
    } else {
      ok := HandleChain(s, val, done, env, func, scope);
    }
    if ok {
      func.Add(Label(done));
    }
  }

  lemma {:induction false} SelectShaped(gs: GroupList, v: int, env: Env, allowed: bool)
    requires Select(gs, v).Some?
    ensures Select(gs, v).value < gs
    ensures ShapedGroups(gs) ==> Shaped(Select(gs, v).value)
    ensures GroupsCompile(gs, env, allowed) ==> Compiles(Select(gs, v).value, env, allowed)
  {
    if !InSome(v, gs.ranges) {
      SelectShaped(gs.next, v, env, allowed);
    }
  }

  method HandleConstant(s: Stmt, val: int, env: Env, func: Function, scope: Scope) returns (ok: bool)
    requires s.Switch? && Shaped(s)
    modifies func, scope
    ensures Compiles(s, env, old(scope.loopControlAllowed)) && (s.dflt.None? ==> Hits(s.groups, Const(val))) ==> ok
    ensures ok ==> func.Built() == GenConstant(s, env, old(scope.Labels()), val, old(func.Built()))
    ensures ok ==> SameControl(scope) && scope.hasCustomContinueLabel == old(scope.hasCustomContinueLabel)
    decreases s, 1
  {
    var curr := s.groups;
    while curr.Group? && !(exists i :: 0 <= i < |curr.ranges| && In(val, curr.ranges[i]))
      invariant curr == s.groups || curr < s.groups
      invariant Select(curr, val) == Select(s.groups, val)
      invariant ShapedGroups(curr)
      invariant GroupsCompile(s.groups, env, scope.loopControlAllowed) ==> GroupsCompile(curr, env, scope.loopControlAllowed)
      decreases curr
    {
      assert !InSome(val, curr.ranges);
      curr := curr.next;
    }
    if curr.Group? {
      assert InSome(val, curr.ranges);
      ShapedSetsNoLabel(curr.body);
      ok := HandleStmt(curr.body, env, func, scope);
    } else if s.dflt.Some? {
      ShapedSetsNoLabel(s.dflt.value);
      ok := HandleStmt(s.dflt.value, env, func, scope);
    } else {
      ok := false;
    }
  }

  /** The labels of the values of one group, and the values they cover. */
  method PlaceGroup(rs: seq<Range>, min: int, table: array<nat>, hasCase: array<bool>, ghost base: int, func: Function)
    requires table.Length == hasCase.Length
    requires forall i :: 0 <= i < |rs| ==> min <= rs[i].min && rs[i].max - min < table.Length
    requires forall i :: 0 <= i < table.Length ==> table[i] == base + min + i
    modifies func, hasCase
    ensures func.Built() == PlaceRanges(rs, base, old(func.Built()))
    ensures forall i :: 0 <= i < hasCase.Length ==> hasCase[i] == (old(hasCase[i]) || InSome(min + i, rs))
  {
    var j := 0;
    while j < |rs|
      invariant 0 <= j <= |rs|
      invariant PlaceRanges(rs[j..], base, func.Built()) == PlaceRanges(rs, base, old(func.Built()))
      invariant forall i :: 0 <= i < hasCase.Length ==>
        (hasCase[i] || InSome(min + i, rs[j..]) <==> old(hasCase[i]) || InSome(min + i, rs))
    {
      ghost var b, rest := func.Built(), rs[j..];
      assert rest[1..] == rs[j + 1..] && rest[0] == rs[j];
      ghost var before := hasCase[..];
      PlaceCase(rs[j], min, table, hasCase, base, func);
      forall i | 0 <= i < hasCase.Length
        ensures hasCase[i] || InSome(min + i, rs[j + 1..]) <==> old(hasCase[i]) || InSome(min + i, rs)
      {
        assert hasCase[i] == (before[i] || In(min + i, rs[j]));
        InSomeSplit(min + i, rest);
      }
      j := j + 1;
    }
    assert rs[j..] == [];
  }

  method PlaceCase(r: Range, min: int, table: array<nat>, hasCase: array<bool>, ghost base: int, func: Function)
    requires table.Length == hasCase.Length
    requires min <= r.min && r.max - min < table.Length
    requires forall i :: 0 <= i < table.Length ==> table[i] == base + min + i
    modifies func, hasCase
    ensures func.Built() == PlaceRange(r.min, r.max, base, old(func.Built()))
    ensures forall i :: 0 <= i < hasCase.Length ==> hasCase[i] == (old(hasCase[i]) || In(min + i, r))
  {
    var i := r.min - min;
    while i <= r.max - min
      invariant r.min - min <= i && (i <= r.max - min + 1 || i == r.min - min)
      invariant PlaceRange(min + i, r.max, base, func.Built()) == PlaceRange(r.min, r.max, base, old(func.Built()))
      invariant forall k :: 0 <= k < hasCase.Length ==> hasCase[k] == (old(hasCase[k]) || (r.min <= min + k < min + i && In(min + k, r)))
    {
      func.Add(Label(table[i]));
      hasCase[i] := true;
      i := i + 1;
    }
  }

  method HandleTable(s: Stmt, v: Value, done: nat, env: Env, func: Function, scope: Scope) returns (ok: bool)
    requires s.Switch? && Shaped(s) && UseTable(s.groups)
    modifies func, scope
    ensures Compiles(s, env, old(scope.loopControlAllowed)) ==> ok
    ensures ok ==>
      func.Built() == GenTable(s, env, old(scope.Labels()), done, EmittedValue(old(func.Built()), v))
    ensures ok ==> SameControl(scope) && scope.hasCustomContinueLabel == old(scope.hasCustomContinueLabel)
    decreases s, 1
  {
    ghost var b, ctl := func.Built(), scope.Labels();
    var n, min := Interval(s.groups), SwitchMin(s.groups);
    hide GenStmt, GenAlu, GenGroups, PlaceMissing, SwitchMin, SwitchMax, Interval, UseTable, SetsLabel;
    var table, hasCase, defaultCase := EmitDispatch(s.groups, v, env, func);
    hide GenDispatch;
    ok := HandleGroups(s, table, hasCase, done, b.next, env, func, scope);
    if !ok {
      return;
    }
    PlaceRest(s.groups, table, hasCase, b.next, func);
    func.Add(Label(defaultCase));
    if s.dflt.Some? {
      ShapedSetsNoLabel(s.dflt.value);
      ok := HandleStmt(s.dflt.value, env, func, scope);
    }
  }

  method NewTable(n: nat, func: Function) returns (table: array<nat>, hasCase: array<bool>)
    modifies func
    ensures func.Built() == old(func.Built()).Fresh(n)
    ensures table.Length == hasCase.Length == n && fresh(table) && fresh(hasCase)
    ensures forall k :: 0 <= k < n ==> table[k] == old(func.next) + k && !hasCase[k]
  {
    table := new nat[n];
    hasCase := new bool[n];
    var i := 0;
    while i < n
      modifies func, table, hasCase
      invariant 0 <= i <= n && func.Built() == old(func.Built()).Fresh(i)
      invariant forall k :: 0 <= k < i ==> table[k] == old(func.next) + k && !hasCase[k]
    {
      table[i] := func.New();
      hasCase[i] := false;
      i := i + 1;
    }
  }

  method EmitDispatch(gs: GroupList, v: Value, env: Env, func: Function)
    returns (table: array<nat>, hasCase: array<bool>, defaultCase: nat)
    requires Interval(gs) >= 0
    modifies func
    ensures func.Built() == GenDispatch(gs, EmittedValue(old(func.Built()), v), env.fold).b
    ensures table.Length == hasCase.Length == Interval(gs) && fresh(table) && fresh(hasCase)
    ensures defaultCase == old(func.next) + Interval(gs)
    ensures forall k :: 0 <= k < table.Length ==> table[k] == old(func.next) + k && !hasCase[k]
  {
    hide GenAlu, SwitchMin, Interval;
    ghost var b := func.Built();
    var n, min := Interval(gs), SwitchMin(gs);
    table, hasCase := NewTable(n, func);
    defaultCase := func.New();
    var index := v;
    if min != 0 {
      index := EmitAlu(Sub, v, Const(min), env.fold, func);
    }
    assert table[..] == Labels(b.next, n);
    func.Add(JumpTable(index, table[..]));
    func.Add(Branch(defaultCase));
  }

  /** Whether entry `k` of the table has a case. */
  predicate HasCase(gs: GroupList, min: int, k: int) {
    Select(gs, min + k).Some?
  }

  /** What `hasCase` says while the groups `gs` of `all` are still to come. */
  ghost predicate Marks(hasCase: seq<bool>, gs: GroupList, all: GroupList, min: int) {
    forall k :: 0 <= k < |hasCase| ==> (hasCase[k] || HasCase(gs, min, k) <==> HasCase(all, min, k))
  }

  lemma MarksNone(hasCase: seq<bool>, all: GroupList, min: int)
    requires forall k :: 0 <= k < |hasCase| ==> !hasCase[k]
    ensures Marks(hasCase, all, all, min)
  {
    hide HasCase;
  }

  lemma MarksNext(before: seq<bool>, after: seq<bool>, gs: GroupList, all: GroupList, min: int)
    requires gs.Group? && |before| == |after| && Marks(before, gs, all, min)
    requires forall k :: 0 <= k < |after| ==> after[k] == (before[k] || InSome(min + k, gs.ranges))
    ensures Marks(after, gs.next, all, min)
  {
    forall k | 0 <= k < |after| ensures after[k] || HasCase(gs.next, min, k) <==> HasCase(all, min, k) {
      assert after[k] == (before[k] || InSome(min + k, gs.ranges));
    }
  }

  lemma MarksEnd(hasCase: seq<bool>, all: GroupList, min: int)
    requires Marks(hasCase, NoGroup, all, min)
    ensures forall k :: 0 <= k < |hasCase| ==> hasCase[k] == HasCase(all, min, k)
  {
  }

  lemma TableCovers(s: Stmt)
    requires s.Switch? && Shaped(s) && UseTable(s.groups)
    ensures ShapedGroups(s.groups) && Within(s.groups, SwitchMin(s.groups), SwitchMax(s.groups))
    ensures 0 <= Interval(s.groups) == SwitchMax(s.groups) - SwitchMin(s.groups) + 1
  {
    TotalBounds(s.groups, INT64_MAX, INT64_MIN);
  }

  method HandleGroups(s: Stmt, table: array<nat>, hasCase: array<bool>, done: nat, ghost first: nat, env: Env, func: Function,
                      scope: Scope) returns (ok: bool)
    requires s.Switch? && Shaped(s) && UseTable(s.groups)
    requires table.Length == hasCase.Length == Interval(s.groups)
    requires forall k :: 0 <= k < table.Length ==> table[k] == first + k && !hasCase[k]
    modifies func, scope, hasCase
    ensures GroupsCompile(s.groups, env, old(scope.loopControlAllowed)) ==> ok
    ensures ok ==>
      func.Built() == GenGroups(s.groups, env, old(scope.Labels()), done, first - SwitchMin(s.groups), old(func.Built()))
    ensures ok ==> SameControl(scope) && scope.hasCustomContinueLabel == old(scope.hasCustomContinueLabel)
    ensures ok ==> Marks(hasCase[..], NoGroup, s.groups, SwitchMin(s.groups))
    decreases s, 0
  {
    hide GenStmt, SwitchMin, SwitchMax, Interval, UseTable, SetsLabel, PlaceRanges, Shaped, Compiles, Select, Marks;
    TableCovers(s);
    MarksNone(hasCase[..], s.groups, SwitchMin(s.groups));
    var min := SwitchMin(s.groups);
    ghost var base := first - min;
    ok := true;
    var curr := s.groups;
    while curr.Group?
      invariant curr == s.groups || curr < s.groups
      invariant ok && ShapedGroups(curr) && SameControl(scope) && Within(curr, min, SwitchMax(s.groups))
      invariant scope.hasCustomContinueLabel == old(scope.hasCustomContinueLabel)
      invariant GroupsCompile(s.groups, env, scope.loopControlAllowed) ==> GroupsCompile(curr, env, scope.loopControlAllowed)
      invariant GenGroups(curr, env, scope.Labels(), done, base, func.Built()) ==
        GenGroups(s.groups, env, scope.Labels(), done, base, old(func.Built()))
      invariant Marks(hasCase[..], curr, s.groups, min)
      decreases curr
    {
      ShapedSetsNoLabel(curr.body);
      ghost var before := hasCase[..];
      PlaceGroup(curr.ranges, min, table, hasCase, base, func);
      MarksNext(before, hasCase[..], curr, s.groups, min);
      ok := HandleStmt(curr.body, env, func, scope);
      if !ok {
        return;
      }
      func.Add(Branch(done));
      curr := curr.next;
    }
  }

  method PlaceRest(gs: GroupList, table: array<nat>, hasCase: array<bool>, ghost first: nat, func: Function)
    requires table.Length == hasCase.Length
    requires forall k :: 0 <= k < table.Length ==> table[k] == first + k
    requires Marks(hasCase[..], NoGroup, gs, SwitchMin(gs))
    modifies func
    ensures func.Built() == PlaceMissing(gs, first, table.Length, old(func.Built()))
  {
    hide SwitchMin, Select;
    MarksEnd(hasCase[..], gs, SwitchMin(gs));
    var n: nat := table.Length;
    var i: nat := 0;
    while i < n
      invariant 0 <= i <= n
      invariant PlaceMissingFrom(gs, first, i, n, func.Built()) == PlaceMissingFrom(gs, first, 0, n, old(func.Built()))
    {
      if !hasCase[i] {
        func.Add(Label(table[i]));
      }
      i := i + 1;
    }
  }

  /** One label for every case. */
  method NewLabels(count: nat, func: Function) returns (first: nat)
    modifies func
    ensures first == old(func.next) && func.Built() == old(func.Built()).Fresh(count)
  {
    first := func.next;
    var i: nat := 0;
    while i < count
      invariant i <= count && func.Built() == old(func.Built()).Fresh(i)
    {
      var _ := func.New();
      i := i + 1;
    }
  }

  method HandleChain(s: Stmt, v: Value, done: nat, env: Env, func: Function, scope: Scope) returns (ok: bool)
    requires s.Switch? && Shaped(s)
    modifies func, scope
    ensures Compiles(s, env, old(scope.loopControlAllowed)) ==> ok
    ensures ok ==>
      func.Built() == GenChain(s, env, old(scope.Labels()), done, EmittedValue(old(func.Built()), v))
    ensures ok ==> SameControl(scope) && scope.hasCustomContinueLabel == old(scope.hasCustomContinueLabel)
    decreases s, 1
  {
    ghost var b, ctl := func.Built(), scope.Labels();
    hide GenStmt, GenTests, GenBodies, SetsLabel;
    var cases := NewLabels(CaseCount(s.groups), func);
    EmitTests(s.groups, v, cases, func);
    if s.dflt.Some? {
      ShapedSetsNoLabel(s.dflt.value);
      ok := HandleStmt(s.dflt.value, env, func, scope);
      if !ok {
        return;
      }
      func.Add(Branch(done));
    }
    ok := HandleBodies(s, cases, done, env, func, scope);
  }

  method EmitTests(gs: GroupList, v: Value, cases: nat, func: Function)
    modifies func
    ensures func.Built() == GenTests(gs, v, cases, old(func.Built()))
  {
    hide GenTest;
    var curr := gs;
    var i: nat := cases;
    while curr.Group?
      invariant GenTests(curr, v, i, func.Built()) == GenTests(gs, v, cases, old(func.Built()))
      decreases curr
    {
      var j: nat := 0;
      ghost var b := func.Built();
      while j < |curr.ranges|
        invariant j <= |curr.ranges|
        invariant GenRangeTests(curr.ranges[j..], v, i + j, func.Built()) == GenRangeTests(curr.ranges, v, i, b)
      {
        ghost var rest := curr.ranges[j..];
        assert rest[1..] == curr.ranges[j + 1..] && rest[0] == curr.ranges[j];
        EmitTest(v, curr.ranges[j], i + j, func);
        j := j + 1;
      }
      assert curr.ranges[j..] == [];
      i := i + |curr.ranges|;
      curr := curr.next;
    }
  }

  method EmitTest(v: Value, r: Range, l: nat, func: Function)
    modifies func
    ensures func.Built() == GenTest(v, r, l, old(func.Built()))
  {
    if r.min == r.max {
      var isEqual := func.New();
      func.Add(Alu(isEqual, Eq, v, Const(r.min)));
      func.Add(BranchIf(Temp(isEqual), l));
    } else {
      EmitBounds(v, r, l, func);
    }
  }

  method EmitBounds(v: Value, r: Range, l: nat, func: Function)
    requires r.min != r.max
    modifies func
    ensures func.Built() == GenTest(v, r, l, old(func.Built()))
  {
    var isAbove := func.New();
    var isBelow := func.New();
    var noMatch := func.New();
    func.Add(Alu(isAbove, Ge, v, Const(r.min)));
    func.Add(BranchIfNot(Temp(isAbove), noMatch));
    func.Add(Alu(isBelow, Le, v, Const(r.max)));
    func.Add(BranchIf(Temp(isBelow), l));
    func.Add(Label(noMatch));
  }

  method PlaceCases(first: nat, count: nat, func: Function)
    modifies func
    ensures func.Built() == PlaceLabels(first, count, old(func.Built()))
  {
    var j: nat := 0;
    while j < count
      invariant j <= count
      invariant PlaceLabels(first + j, count - j, func.Built()) == PlaceLabels(first, count, old(func.Built()))
    {
      func.Add(Label(first + j));
      j := j + 1;
    }
  }

  method HandleBodies(s: Stmt, cases: nat, done: nat, env: Env, func: Function, scope: Scope) returns (ok: bool)
    requires s.Switch? && Shaped(s)
    modifies func, scope
    ensures GroupsCompile(s.groups, env, old(scope.loopControlAllowed)) ==> ok
    ensures ok ==> func.Built() == GenBodies(s.groups, env, old(scope.Labels()), done, cases, old(func.Built()))
    ensures ok ==> SameControl(scope) && scope.hasCustomContinueLabel == old(scope.hasCustomContinueLabel)
    decreases s, 0
  {
    hide GenStmt, SetsLabel;
    ok := true;
    var curr := s.groups;
    var i: nat := cases;
    while curr.Group?
      invariant curr == s.groups || curr < s.groups
      invariant ok && ShapedGroups(curr) && SameControl(scope)
      invariant scope.hasCustomContinueLabel == old(scope.hasCustomContinueLabel)
      invariant GroupsCompile(s.groups, env, scope.loopControlAllowed) ==> GroupsCompile(curr, env, scope.loopControlAllowed)
      invariant GenBodies(curr, env, scope.Labels(), done, i, func.Built()) ==
        GenBodies(s.groups, env, scope.Labels(), done, cases, old(func.Built()))
      decreases curr
    {
      ShapedSetsNoLabel(curr.body);
      PlaceCases(i, |curr.ranges|, func);
      ok := HandleStmt(curr.body, env, func, scope);
      if !ok {
        return;
      }
      func.Add(Branch(done));
      i := i + |curr.ranges|;
      curr := curr.next;
    }
  }
}
