/** Statement code only continues what was emitted before, and places only labels of its own. */
module Growth {
  import opened Basics
  import opened Machine
  import opened Expressions
  import opened Statements

  lemma GrowsLower(a: Builder, b: Builder, lo: nat, lo1: nat)
    requires Grows(a, b, lo) && lo1 <= lo
    ensures Grows(a, b, lo1)
  {
  }

  lemma StillUnplaced(a: Builder, b: Builder, lo: nat, l: nat)
    requires Grows(a, b, lo) && l !in a.placed && l < lo
    ensures l !in b.placed
  {
  }

  ghost predicate GrowsOwn(b: Builder, after: Builder) {
    Grows(b, after, b.next) && b.next <= after.next
  }

  lemma OwnTrans(a: Builder, b: Builder, c: Builder)
    requires GrowsOwn(a, b) && GrowsOwn(b, c)
    ensures GrowsOwn(a, c)
  {
    GrowsTrans(a, b, c, a.next, b.next);
  }

  lemma OwnEmit(a: Builder, b: Builder, i: Instr)
    requires GrowsOwn(a, b) && (i.Label? ==> a.next <= i.l < b.next)
    ensures GrowsOwn(a, b.Emit(i)) && b.Emit(i).next == b.next
  {
    GrowsEmit(a, b, a.next, i);
  }

  lemma OwnFresh(a: Builder, b: Builder, k: nat)
    requires GrowsOwn(a, b)
    ensures GrowsOwn(a, b.Fresh(k))
  {
    GrowsRefl(b, k);
    GrowsTrans(a, b, b.Fresh(k), a.next, b.next);
  }

  lemma OwnRefl(b: Builder)
    ensures GrowsOwn(b, b)
  {
  }

  lemma BranchIfGrows(v: JitVar, l: nat, b: Builder)
    ensures GrowsOwn(b, GenBranchIf(v, l, b))
  {
  }

  lemma IntGrows(v: JitVar, b: Builder)
    requires BoundedVar(v, b.next)
    ensures GrowsOwn(b, GenInt(v, b).b) && Bounded(GenInt(v, b).val, GenInt(v, b).b.next)
  {
  }

  lemma {:induction false} StmtGrows(s: Stmt, env: Env, inLoop: bool, ctl: Ctl, b: Builder)
    requires StmtOk(s, env, inLoop)
    ensures GrowsOwn(b, GenStmt(s, env, ctl, b))
    decreases s, 5
  {
    match s
    case ExprStmt(e) => ExprGrows(e, env, b);
    case Body(list) => ListGrows(list, env, inLoop, ctl, b);
    case If(_, _, _) => IfGrows(s, env, inLoop, ctl, b);
    case Switch(_, _, _) => SwitchGrows(s, env, inLoop, ctl, b);
    case Loop(_) => LoopGrows(s, env, inLoop, b);
    case Break => OwnRefl(b); OwnEmit(b, b, Branch(ctl.brk));
    case Continue => OwnRefl(b); OwnEmit(b, b, Branch(ctl.cont));
  }

  lemma {:induction false} ListGrows(l: StmtList, env: Env, inLoop: bool, ctl: Ctl, b: Builder)
    requires ListOk(l, env, inLoop, false)
    ensures GrowsOwn(b, GenList(l, env, ctl, b))
    decreases l, 0
  {
    hide GenStmt, Grows;
    OwnRefl(b);
    if l.Node? {
      StmtGrows(l.entry, env, inLoop, ctl, b);
      var b1 := GenStmt(l.entry, env, ctl, b);
      ListGrows(l.next, env, inLoop, ctl, b1);
      OwnTrans(b, b1, GenList(l.next, env, ctl, b1));
    }
  }

  lemma {:induction false} PlainGrows(l: StmtList, env: Env, ctl: Ctl, b: Builder)
    requires Plain(l, env)
    ensures GrowsOwn(b, GenList(l, env, ctl, b))
  {
    hide Grows;
    OwnRefl(b);
    if l.Node? {
      ExprGrows(l.entry.e, env, b);
      var b1 := GenStmt(l.entry, env, ctl, b);
      PlainGrows(l.next, env, ctl, b1);
      OwnTrans(b, b1, GenList(l.next, env, ctl, b1));
    }
  }

  /** The list of a loop body may also place the loop's continue label, which was handed out before it. */
  lemma {:induction false} LabelledGrows(l: StmtList, env: Env, ctl: Ctl, b: Builder)
    requires ListOk(l, env, true, true) && ctl.cont < b.next
    ensures Grows(b, GenList(l, env, ctl, b), ctl.cont) && b.next <= GenList(l, env, ctl, b).next
    decreases l, 1
  {
    hide GenStmt, Grows;
    OwnRefl(b);
    GrowsLower(b, b, b.next, ctl.cont);
    if l.Node? {
      var b1 := GenStmt(l.entry, env, ctl, b);
      if l.entry == ContinueLabel {
        LabelEmitted(env, ctl, b);
        GrowsEmit(b, b, ctl.cont, Label(ctl.cont));
        PlainGrows(l.next, env, ctl, b1);
      } else {
        StmtGrows(l.entry, env, true, ctl, b);
        GrowsLower(b, b1, b.next, ctl.cont);
        LabelledGrows(l.next, env, ctl, b1);
      }
      var b2 := GenList(l.next, env, ctl, b1);
      if l.entry == ContinueLabel {
        GrowsTrans(b, b1, b2, ctl.cont, b1.next);
      } else {
        GrowsTrans(b, b1, b2, ctl.cont, ctl.cont);
      }
    }
  }

  lemma LabelEmitted(env: Env, ctl: Ctl, b: Builder)
    ensures GenStmt(ContinueLabel, env, ctl, b) == b.Emit(Label(ctl.cont))
  {
  }

  lemma ThenGrows(s: Stmt, env: Env, inLoop: bool, ctl: Ctl, b: Builder)
    requires s.If? && StmtOk(s, env, inLoop)
    ensures GrowsOwn(GenExpr(s.cond, env, b).b.Fresh(2), GenThen(s, env, ctl, b))
    decreases s, 0
  {
    hide GenExpr, Grows, GenStmt, GenBranchIf, GenBranchIfNot;
    var gc := GenExpr(s.cond, env, b);
    var isFalse, end, b0 := gc.b.next, gc.b.next + 1, gc.b.Fresh(2);
    if s.thn.None? {
      BranchIfGrows(gc.res, end, b0);
    } else {
      BranchIfNotGrows(gc.res, isFalse, b0);
      var b1 := GenBranchIfNot(gc.res, isFalse, b0);
      StmtGrows(s.thn.value, env, inLoop, ctl, b1);
      var b2 := GenStmt(s.thn.value, env, ctl, b1);
      OwnTrans(b0, b1, b2);
      OwnEmit(b0, b2, Branch(end));
    }
  }

  lemma IfGrows(s: Stmt, env: Env, inLoop: bool, ctl: Ctl, b: Builder)
    requires s.If? && StmtOk(s, env, inLoop)
    ensures GrowsOwn(b, GenIf(s, env, ctl, b))
    decreases s, 1
  {
    hide GenExpr, Grows, GenStmt, GenThen;
    var gc := GenExpr(s.cond, env, b);
    var isFalse := gc.b.next;
    ThenGrows(s, env, inLoop, ctl, b);
    ExprGrows(s.cond, env, b);
    OwnFresh(b, gc.b, 2);
    var b0 := GenThen(s, env, ctl, b);
    OwnTrans(b, gc.b.Fresh(2), b0);
    OwnEmit(b, b0, Label(isFalse));
    var b1 := b0.Emit(Label(isFalse));
    if s.els.Some? {
      StmtGrows(s.els.value, env, inLoop, ctl, b1);
      OwnTrans(b, b1, GenStmt(s.els.value, env, ctl, b1));
    }
    var b2 := if s.els.Some? then GenStmt(s.els.value, env, ctl, b1) else b1;
    OwnEmit(b, b2, Label(isFalse + 1));
  }

  lemma LoopBodyGrows(s: Stmt, env: Env, inLoop: bool, b: Builder)
    requires s.Loop? && StmtOk(s, env, inLoop)
    ensures var b1 := b.Fresh(3).Emit(Label(b.next + 1));
      Grows(b1, GenLoopBody(s, env, b), b.next + 2) && b1.next <= GenLoopBody(s, env, b).next
    decreases s, 0
  {
    hide GenList, Grows;
    var ctl, b1 := Ctl(b.next + 2, b.next), b.Fresh(3).Emit(Label(b.next + 1));
    if s.body.Body? {
      LabelledGrows(s.body.list, env, ctl, b1);
    } else {
      StmtGrows(s.body, env, true, ctl, b1);
      GrowsLower(b1, GenStmt(s.body, env, ctl, b1), b1.next, b.next + 2);
    }
  }

  lemma LoopGrows(s: Stmt, env: Env, inLoop: bool, b: Builder)
    requires s.Loop? && StmtOk(s, env, inLoop)
    ensures GrowsOwn(b, GenLoop(s, env, b))
    decreases s, 1
  {
    hide Grows, GenLoopBody;
    LoopBodyGrows(s, env, inLoop, b);
    OwnRefl(b);
    OwnFresh(b, b, 3);
    OwnEmit(b, b.Fresh(3), Label(b.next + 1));
    var b1 := b.Fresh(3).Emit(Label(b.next + 1));
    var b2 := GenLoopBody(s, env, b);
    GrowsTrans(b, b1, b2, b.next, b.next + 2);
    OwnEmit(b, b2, Label(b.next + 2));
    var b3 := if SetsLabel(s.body) then b2 else b2.Emit(Label(b.next + 2));
    OwnEmit(b, b3, Branch(b.next + 1));
    OwnEmit(b, b3.Emit(Branch(b.next + 1)), Label(b.next));
  }

  // ---------- switch ----------

  lemma SwitchGrows(s: Stmt, env: Env, inLoop: bool, ctl: Ctl, b: Builder)
    requires s.Switch? && StmtOk(s, env, inLoop)
    ensures GrowsOwn(b, GenSwitch(s, env, ctl, b))
    decreases s, 4
  {
    hide Grows, GenExpr, GenInt, GenConstant, GenTable, GenChain, UseTable;
    var gc := GenExpr(s.cond, env, b);
    var done := gc.b.next;
    var v := GenInt(gc.res, gc.b.Fresh(1));
    ExprGrows(s.cond, env, b);
    OwnFresh(b, gc.b, 1);
    IntGrows(gc.res, gc.b.Fresh(1));
    OwnTrans(b, gc.b.Fresh(1), v.b);
    CasesGrow(s, env, inLoop, ctl, done, v, gc.res.val);
    var b1 :=
      if gc.res.val.Const? then GenConstant(s, env, ctl, gc.res.val.n, v.b)
      else if UseTable(s.groups) then GenTable(s, env, ctl, done, v)
      else GenChain(s, env, ctl, done, v);
    OwnTrans(b, v.b, b1);
    OwnEmit(b, b1, Label(done));
  }

  lemma CasesGrow(s: Stmt, env: Env, inLoop: bool, ctl: Ctl, done: nat, v: EmittedValue, x: Value)
    requires s.Switch? && StmtOk(s, env, inLoop)
    ensures
      if x.Const? then GrowsOwn(v.b, GenConstant(s, env, ctl, x.n, v.b))
      else if UseTable(s.groups) then GrowsOwn(v.b, GenTable(s, env, ctl, done, v))
      else GrowsOwn(v.b, GenChain(s, env, ctl, done, v))
    decreases s, 3
  {
    if x.Const? {
      ConstantGrows(s, env, inLoop, ctl, x.n, v.b);
    } else if UseTable(s.groups) {
      TableGrows(s, env, inLoop, ctl, done, v);
    } else {
      ChainGrows(s, env, inLoop, ctl, done, v);
    }
  }

  lemma {:induction false} SelectOk(gs: GroupList, env: Env, inLoop: bool, v: int)
    requires GroupsOk(gs, env, inLoop) && Select(gs, v).Some?
    ensures StmtOk(Select(gs, v).value, env, inLoop) && Select(gs, v).value < gs
  {
    if !InSome(v, gs.ranges) {
      SelectOk(gs.next, env, inLoop, v);
    }
  }

  lemma ConstantGrows(s: Stmt, env: Env, inLoop: bool, ctl: Ctl, v: int, b: Builder)
    requires s.Switch? && StmtOk(s, env, inLoop)
    ensures GrowsOwn(b, GenConstant(s, env, ctl, v, b))
    decreases s, 0
  {
    hide Grows, GenStmt;
    OwnRefl(b);
    if Select(s.groups, v).Some? {
      SelectOk(s.groups, env, inLoop, v);
      StmtGrows(Select(s.groups, v).value, env, inLoop, ctl, b);
    } else if s.dflt.Some? {
      StmtGrows(s.dflt.value, env, inLoop, ctl, b);
    }
  }

  // The table: all labels lie in the interval handed out by the dispatch.

  lemma {:induction false} MinOfBounds(rs: seq<Range>, m: int)
    ensures MinOf(rs, m) <= m && forall i :: 0 <= i < |rs| ==> MinOf(rs, m) <= rs[i].min
  {
    if rs != [] {
      var m1 := if rs[0].min < m then rs[0].min else m;
      MinOfBounds(rs[1..], m1);
      forall i | 0 <= i < |rs| ensures MinOf(rs, m) <= rs[i].min {
        if i > 0 { assert rs[i] == rs[1..][i - 1]; }
      }
    }
  }

  lemma {:induction false} MaxOfBounds(rs: seq<Range>, m: int)
    ensures MaxOf(rs, m) >= m && forall i :: 0 <= i < |rs| ==> MaxOf(rs, m) >= rs[i].max
  {
    if rs != [] {
      var m1 := if rs[0].max > m then rs[0].max else m;
      MaxOfBounds(rs[1..], m1);
      forall i | 0 <= i < |rs| ensures MaxOf(rs, m) >= rs[i].max {
        if i > 0 { assert rs[i] == rs[1..][i - 1]; }
      }
    }
  }

  /** Every case of `gs` lies between `lo` and `hi`. */
  ghost predicate Within(gs: GroupList, lo: int, hi: int) {
    gs.Group? ==> (forall i :: 0 <= i < |gs.ranges| ==> lo <= gs.ranges[i].min && gs.ranges[i].max <= hi) && Within(gs.next, lo, hi)
  }

  lemma {:induction false} TotalBounds(gs: GroupList, m: int, n: int)
    ensures TotalMin(gs, m) <= m && TotalMax(gs, n) >= n
    ensures Within(gs, TotalMin(gs, m), TotalMax(gs, n))
  {
    if gs.Group? {
      MinOfBounds(gs.ranges, m);
      MaxOfBounds(gs.ranges, n);
      TotalBounds(gs.next, MinOf(gs.ranges, m), MaxOf(gs.ranges, n));
    }
  }

  lemma {:induction false} PlaceRangeGrows(a: Builder, x: int, max: int, base: int, b: Builder)
    requires GrowsOwn(a, b) && (x <= max ==> a.next <= base + x && base + max < b.next)
    ensures GrowsOwn(a, PlaceRange(x, max, base, b)) && PlaceRange(x, max, base, b).next == b.next
    decreases max - x
  {
    hide Grows;
    if x <= max {
      OwnEmit(a, b, Label(base + x));
      PlaceRangeGrows(a, x + 1, max, base, b.Emit(Label(base + x)));
    }
  }

  lemma {:induction false} PlaceRangesGrows(a: Builder, rs: seq<Range>, base: int, b: Builder)
    requires GrowsOwn(a, b)
    requires forall i :: 0 <= i < |rs| ==> a.next <= base + rs[i].min && base + rs[i].max < b.next
    ensures GrowsOwn(a, PlaceRanges(rs, base, b)) && PlaceRanges(rs, base, b).next == b.next
    decreases |rs|
  {
    hide Grows;
    if rs != [] {
      PlaceRangeGrows(a, rs[0].min, rs[0].max, base, b);
      PlaceRangesGrows(a, rs[1..], base, PlaceRange(rs[0].min, rs[0].max, base, b));
    }
  }

  lemma {:induction false} GroupsGrow(a: Builder, gs: GroupList, env: Env, inLoop: bool, ctl: Ctl, done: nat, base: int,
                                      hi: int, b: Builder)
    requires GroupsOk(gs, env, inLoop) && GrowsOwn(a, b)
    requires Within(gs, a.next - base, hi) && base + hi < b.next
    ensures GrowsOwn(a, GenGroups(gs, env, ctl, done, base, b))
    ensures b.next <= GenGroups(gs, env, ctl, done, base, b).next
    decreases gs, 0
  {
    hide Grows, GenStmt, PlaceRanges;
    if gs.Group? {
      PlaceRangesGrows(a, gs.ranges, base, b);
      var b1 := PlaceRanges(gs.ranges, base, b);
      StmtGrows(gs.body, env, inLoop, ctl, b1);
      var b2 := GenStmt(gs.body, env, ctl, b1);
      OwnTrans(a, b1, b2);
      OwnEmit(a, b2, Branch(done));
      GroupsGrow(a, gs.next, env, inLoop, ctl, done, base, hi, b2.Emit(Branch(done)));
    }
  }

  lemma {:induction false} MissingGrows(a: Builder, gs: GroupList, table: nat, i: nat, n: nat, b: Builder)
    requires GrowsOwn(a, b) && a.next <= table && table + n <= b.next
    ensures GrowsOwn(a, PlaceMissingFrom(gs, table, i, n, b)) && PlaceMissingFrom(gs, table, i, n, b).next == b.next
    decreases n - i
  {
    hide Grows;
    if i < n {
      OwnEmit(a, b, Label(table + i));
      MissingGrows(a, gs, table, i + 1, n,
                   if Select(gs, SwitchMin(gs) + i).Some? then b else b.Emit(Label(table + i)));
    }
  }

  lemma DispatchGrows(gs: GroupList, v: EmittedValue, fold: bool)
    requires Interval(gs) >= 0
    ensures GrowsOwn(v.b, GenDispatch(gs, v, fold).b)
    ensures v.b.next + Interval(gs) + 1 <= GenDispatch(gs, v, fold).b.next
  {
    hide Grows, GenAlu, Interval;
    var b := v.b.Fresh(Interval(gs) + 1);
    OwnRefl(v.b);
    OwnFresh(v.b, v.b, Interval(gs) + 1);
    AluGrows(Sub, v.val, Const(SwitchMin(gs)), fold, b);
    var i := if SwitchMin(gs) != 0 then GenAlu(Sub, v.val, Const(SwitchMin(gs)), fold, b) else EmittedValue(b, v.val);
    if SwitchMin(gs) != 0 {
      OwnTrans(v.b, b, i.b);
    }
    var t := JumpTable(i.val, Labels(v.b.next, Interval(gs)));
    OwnEmit(v.b, i.b, t);
    OwnEmit(v.b, i.b.Emit(t), Branch(v.b.next + Interval(gs)));
  }

  lemma SwitchOk(s: Stmt, env: Env, inLoop: bool)
    requires s.Switch? && StmtOk(s, env, inLoop)
    ensures GroupsOk(s.groups, env, inLoop) && (s.dflt.Some? ==> StmtOk(s.dflt.value, env, inLoop))
    ensures UseTable(s.groups) ==> TableFits(s.groups)
  {
  }

  /** All case values lie between the extremes, and the table covers exactly those. */
  lemma TableBounds(s: Stmt, env: Env, inLoop: bool)
    requires s.Switch? && StmtOk(s, env, inLoop) && UseTable(s.groups)
    ensures Within(s.groups, SwitchMin(s.groups), SwitchMax(s.groups))
    ensures 0 <= Interval(s.groups) == SwitchMax(s.groups) - SwitchMin(s.groups) + 1
  {
    TotalBounds(s.groups, INT64_MAX, INT64_MIN);
  }

  lemma TableGrows(s: Stmt, env: Env, inLoop: bool, ctl: Ctl, done: nat, v: EmittedValue)
    requires s.Switch? && StmtOk(s, env, inLoop) && UseTable(s.groups)
    ensures GrowsOwn(v.b, GenTable(s, env, ctl, done, v))
    decreases s, 2
  {
    hide Grows, GenStmt, GenDispatch, GenGroups, Interval, SwitchMin, SwitchMax, UseTable, StmtOk, GroupsOk, Within,
      TableFits, PlaceMissingFrom;
    SwitchOk(s, env, inLoop);
    TableBounds(s, env, inLoop);
    var table, n, base := v.b.next, Interval(s.groups), v.b.next - SwitchMin(s.groups);
    var b0 := GenDispatch(s.groups, v, env.fold).b;
    DispatchGrows(s.groups, v, env.fold);
    GroupsGrow(v.b, s.groups, env, inLoop, ctl, done, base, SwitchMax(s.groups), b0);
    var b1 := GenGroups(s.groups, env, ctl, done, base, b0);
    MissingGrows(v.b, s.groups, table, 0, n, b1);
    var b2 := PlaceMissing(s.groups, table, n, b1);
    OwnEmit(v.b, b2, Label(table + n));
    var b3 := b2.Emit(Label(table + n));
    if s.dflt.Some? {
      StmtGrows(s.dflt.value, env, inLoop, ctl, b3);
      OwnTrans(v.b, b3, GenStmt(s.dflt.value, env, ctl, b3));
    }
  }

  // The chain.

  lemma TestGrows(v: Value, r: Range, l: nat, b: Builder)
    ensures GrowsOwn(b, GenTest(v, r, l, b))
  {
  }

  lemma {:induction false} RangeTestsGrow(rs: seq<Range>, v: Value, l: nat, b: Builder)
    ensures GrowsOwn(b, GenRangeTests(rs, v, l, b))
    decreases |rs|
  {
    hide Grows, GenTest;
    OwnRefl(b);
    if rs != [] {
      TestGrows(v, rs[0], l, b);
      RangeTestsGrow(rs[1..], v, l + 1, GenTest(v, rs[0], l, b));
      OwnTrans(b, GenTest(v, rs[0], l, b), GenRangeTests(rs, v, l, b));
    }
  }

  lemma {:induction false} TestsGrow(gs: GroupList, v: Value, l: nat, b: Builder)
    ensures GrowsOwn(b, GenTests(gs, v, l, b))
  {
    hide Grows, GenRangeTests;
    OwnRefl(b);
    if gs.Group? {
      var b1 := GenRangeTests(gs.ranges, v, l, b);
      RangeTestsGrow(gs.ranges, v, l, b);
      TestsGrow(gs.next, v, l + |gs.ranges|, b1);
      OwnTrans(b, b1, GenTests(gs, v, l, b));
    }
  }

  lemma {:induction false} PlaceLabelsGrows(a: Builder, l: nat, count: nat, b: Builder)
    requires GrowsOwn(a, b) && a.next <= l && l + count <= b.next
    ensures GrowsOwn(a, PlaceLabels(l, count, b)) && PlaceLabels(l, count, b).next == b.next
    decreases count
  {
    hide Grows;
    if count > 0 {
      OwnEmit(a, b, Label(l));
      PlaceLabelsGrows(a, l + 1, count - 1, b.Emit(Label(l)));
    }
  }

  lemma {:induction false} BodiesGrow(a: Builder, gs: GroupList, env: Env, inLoop: bool, ctl: Ctl, done: nat, l: nat, b: Builder)
    requires GroupsOk(gs, env, inLoop) && GrowsOwn(a, b) && a.next <= l && l + CaseCount(gs) <= b.next
    ensures GrowsOwn(a, GenBodies(gs, env, ctl, done, l, b)) && b.next <= GenBodies(gs, env, ctl, done, l, b).next
    decreases gs, 0
  {
    hide Grows, GenStmt, PlaceLabels;
    if gs.Group? {
      PlaceLabelsGrows(a, l, |gs.ranges|, b);
      var b1 := PlaceLabels(l, |gs.ranges|, b);
      StmtGrows(gs.body, env, inLoop, ctl, b1);
      var b2 := GenStmt(gs.body, env, ctl, b1);
      OwnTrans(a, b1, b2);
      OwnEmit(a, b2, Branch(done));
      BodiesGrow(a, gs.next, env, inLoop, ctl, done, l + |gs.ranges|, b2.Emit(Branch(done)));
    }
  }

  lemma ChainGrows(s: Stmt, env: Env, inLoop: bool, ctl: Ctl, done: nat, v: EmittedValue)
    requires s.Switch? && StmtOk(s, env, inLoop)
    ensures GrowsOwn(v.b, GenChain(s, env, ctl, done, v))
    decreases s, 2
  {
    hide Grows, GenStmt, GenTests, GenBodies;
    var cases := v.b.next;
    OwnRefl(v.b);
    OwnFresh(v.b, v.b, CaseCount(s.groups));
    var b0 := v.b.Fresh(CaseCount(s.groups));
    TestsGrow(s.groups, v.val, cases, b0);
    var b1 := GenTests(s.groups, v.val, cases, b0);
    OwnTrans(v.b, b0, b1);
    if s.dflt.Some? {
      StmtGrows(s.dflt.value, env, inLoop, ctl, b1);
      var b2 := GenStmt(s.dflt.value, env, ctl, b1);
      OwnTrans(v.b, b1, b2);
      OwnEmit(v.b, b2, Branch(done));
      BodiesGrow(v.b, s.groups, env, inLoop, ctl, done, cases, b2.Emit(Branch(done)));
    } else {
      BodiesGrow(v.b, s.groups, env, inLoop, ctl, done, cases, b1);
    }
  }
}
