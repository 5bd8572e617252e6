/** How a switch finds the body to run: the jump table, the compare chain and their labels
    (jit/statements.c, ptrs_handle_switch). */
module Dispatch {
  import opened Basics
  import opened Machine
  import opened Expressions
  import opened Statements
  import opened Growth
  import opened Numbers

  // ---------- runs of labels ----------

  /** From `a` to `b` only labels were emitted, and what they place lies among them. */
  ghost predicate LabelRun(a: Builder, b: Builder) {
    && Extends(a, b) && a.next == b.next
    && (forall i :: |a.code| <= i < |b.code| ==> b.code[i].Label?)
    && (forall l :: l in b.placed && l !in a.placed ==> |a.code| <= b.placed[l] < |b.code|)
  }

  lemma LabelRunRefl(a: Builder)
    ensures LabelRun(a, a)
  {
  }

  lemma LabelRunEmit(a: Builder, b: Builder, l: nat)
    requires LabelRun(a, b)
    ensures LabelRun(a, b.Emit(Label(l)))
  {
  }

  /** A run that gets to one of the labels gets to their end. */
  lemma {:induction false} Slide(a: Builder, b: Builder, p: Builder, w: World, c0: Config, c: Config, n: nat)
    returns (d: Config)
    requires LabelRun(a, b) && Extends(b, p) && |a.code| <= c.pc <= |b.code| && Reached(p, w, c0, c, n)
    ensures d == c.(pc := |b.code|) && Reached(p, w, c0, d, n)
    decreases |b.code| - c.pc
  {
    d := c;
    if c.pc < |b.code| {
      assert p.code[c.pc] == b.code[c.pc];
      var c1 := Step(p, w, c);
      LeadsStep(p, w, c);
      LeadsTrans(p, w, c0, c, c1, 0, 1);
      d := Slide(a, b, p, w, c0, c1, n);
    }
  }

  /** Where a branch to a label of the run goes. */
  lemma LandsIn(a: Builder, b: Builder, l: nat, p: Builder)
    requires LabelRun(a, b) && Extends(b, p) && l in b.placed && l !in a.placed
    ensures |a.code| <= p.Target(l) <= |b.code|
  {
  }

  lemma {:induction false} PlaceRangeRun(a: Builder, x: int, max: int, base: int, b: Builder, l: nat)
    requires LabelRun(a, b)
    ensures LabelRun(a, PlaceRange(x, max, base, b))
    ensures l in PlaceRange(x, max, base, b).placed <==> l in b.placed || x <= l - base <= max
    decreases max - x
  {
    hide LabelRun;
    if x <= max {
      if base + x >= 0 {
        LabelRunEmit(a, b, base + x);
      }
      PlaceRangeRun(a, x + 1, max, base, if base + x < 0 then b else b.Emit(Label(base + x)), l);
    }
  }

  lemma {:induction false} PlaceRangesRun(a: Builder, rs: seq<Range>, base: int, b: Builder, l: nat)
    requires LabelRun(a, b)
    ensures LabelRun(a, PlaceRanges(rs, base, b))
    ensures l in PlaceRanges(rs, base, b).placed <==> l in b.placed || InSome(l - base, rs)
    decreases |rs|
  {
    hide LabelRun;
    if rs != [] {
      PlaceRangeRun(a, rs[0].min, rs[0].max, base, b, l);
      PlaceRangesRun(a, rs[1..], base, PlaceRange(rs[0].min, rs[0].max, base, b), l);
      InSomeSplit(l - base, rs);
    }
  }

  lemma InSomeSplit(v: int, rs: seq<Range>)
    requires rs != []
    ensures InSome(v, rs) <==> In(v, rs[0]) || InSome(v, rs[1..])
  {
    if InSome(v, rs) && !In(v, rs[0]) {
      var i :| 0 <= i < |rs| && In(v, rs[i]);
      assert In(v, rs[1..][i - 1]);
    }
    if InSome(v, rs[1..]) {
      var i :| 0 <= i < |rs[1..]| && In(v, rs[1..][i]);
      assert In(v, rs[i + 1]);
    }
  }

  lemma {:induction false} PlaceMissingRun(a: Builder, gs: GroupList, table: nat, i: nat, n: nat, b: Builder, l: nat)
    requires LabelRun(a, b)
    ensures LabelRun(a, PlaceMissingFrom(gs, table, i, n, b))
    ensures l in PlaceMissingFrom(gs, table, i, n, b).placed <==>
      l in b.placed || (i <= l - table < n && Select(gs, SwitchMin(gs) + (l - table)).None?)
    decreases n - i
  {
    hide LabelRun, Select, SwitchMin;
    if i < n {
      LabelRunEmit(a, b, table + i);
      PlaceMissingRun(a, gs, table, i + 1, n,
                      if Select(gs, SwitchMin(gs) + i).Some? then b else b.Emit(Label(table + i)), l);
    }
  }

  lemma {:induction false} PlaceLabelsRun(a: Builder, first: nat, count: nat, b: Builder, l: nat)
    requires LabelRun(a, b)
    ensures LabelRun(a, PlaceLabels(first, count, b))
    ensures l in PlaceLabels(first, count, b).placed <==> l in b.placed || first <= l < first + count
    decreases count
  {
    hide LabelRun;
    if count > 0 {
      LabelRunEmit(a, b, first);
      PlaceLabelsRun(a, first + 1, count - 1, b.Emit(Label(first)), l);
    }
  }

  // ---------- the jump table ----------

  /** ptrs_jit_vartoi. */
  lemma RunInt(v: JitVar, b: Builder, p: Builder, w: World, c0: Config, c: Config, x: Word) returns (d: Config)
    requires Extends(GenInt(v, b).b, p) && c.pc == |b.code| && Reached(p, w, c0, c, 0)
    requires Holds(v, x, c) && BoundedVar(v, b.next)
    ensures var g := GenInt(v, b);
      && Reached(p, w, c0, d, 0) && d.pc == |g.b.code| && d.st == c.st
      && ValueOf(g.val, d) == IntOf(x) && Bounded(g.val, g.b.next)
  {
    d := c;
    if !(v.val.Const? && v.meta.Const?) && v.ty == TDynamic {
      d := Execute(b.Fresh(1), ToInt(b.next, v.val, v.meta), p, w, c0, c, 0);
    }
  }

  /** With wrapping subtraction the table is entered exactly for the values between the extreme cases. */
  lemma TableIndex(v: int, min: int, max: int)
    requires Fits(v) && Fits(min) && Fits(max) && 0 <= max - min + 1 < 0x1000
    ensures 0 <= Wrap(v - min) < max - min + 1 <==> min <= v <= max
    ensures min <= v <= max ==> Wrap(v - min) == v - min
  {
  }

  /** The label the table sends `v` to. */
  function TableLabel(gs: GroupList, v: int, table: nat): int {
    if SwitchMin(gs) <= v <= SwitchMax(gs) then table + (v - SwitchMin(gs)) else table + Interval(gs)
  }

  lemma {:induction false} MinOfFits(rs: seq<Range>, m: int)
    requires RangesFit(rs) && Fits(m)
    ensures Fits(MinOf(rs, m)) && Fits(MaxOf(rs, m))
    decreases |rs|
  {
    if rs != [] {
      MinOfFits(rs[1..], if rs[0].min < m then rs[0].min else m);
      MinOfFits(rs[1..], if rs[0].max > m then rs[0].max else m);
    }
  }

  lemma {:induction false} TotalFits(gs: GroupList, env: Env, inLoop: bool, m: int, n: int)
    requires GroupsOk(gs, env, inLoop) && Fits(m) && Fits(n)
    ensures Fits(TotalMin(gs, m)) && Fits(TotalMax(gs, n))
  {
    if gs.Group? {
      MinOfFits(gs.ranges, m);
      MinOfFits(gs.ranges, n);
      TotalFits(gs.next, env, inLoop, MinOf(gs.ranges, m), MaxOf(gs.ranges, n));
    }
  }

  /** The table has one entry for every value between the extreme cases. */
  lemma TableSize(gs: GroupList, env: Env, inLoop: bool)
    requires GroupsOk(gs, env, inLoop) && UseTable(gs) && TableFits(gs)
    ensures Fits(SwitchMin(gs)) && Fits(SwitchMax(gs))
    ensures 0 <= Interval(gs) == SwitchMax(gs) - SwitchMin(gs) + 1 < 0x1000
  {
    TotalFits(gs, env, inLoop, INT64_MAX, INT64_MIN);
  }

  /** A jump table is built for three cases or more, if it has at most 4095 entries and fewer than 50 for each case. */
  lemma TableChosen(gs: GroupList)
    requires var n := SwitchMax(gs) - SwitchMin(gs) + 1; 0 <= n < 0x8000_0000_0000_0000
    ensures UseTable(gs) <==>
      CaseCount(gs) >= 3 && SwitchMax(gs) - SwitchMin(gs) + 1 <= 4095
      && SwitchMax(gs) - SwitchMin(gs) + 1 < 50 * CaseCount(gs)
  {
    var n, c := SwitchMax(gs) - SwitchMin(gs) + 1, CaseCount(gs);
    assert Interval(gs) == n && n % 0x1_0000_0000_0000_0000 == n;
    if c > 2 {
      Divided(n, c, 50);
    }
  }

  lemma Divided(n: nat, c: nat, k: nat)
    requires c > 0
    ensures n / c < k <==> n < k * c
  {
    Quotient(n, c);
    if n / c < k { Product(k - n / c - 1, c); } else { Product(n / c - k, c); }
    assert (k - n / c) * c == k * c - (n / c) * c;
    assert (n / c - k) * c == (n / c) * c - k * c;
    assert (k - n / c - 1 + 1) * c == (k - n / c) * c;
  }

  lemma RunIndex(gs: GroupList, v: EmittedValue, n: nat, fold: bool, p: Builder, w: World, c0: Config, c: Config)
    returns (d: Config)
    requires Extends(GenIndex(gs, v, n, fold).b, p) && c.pc == |v.b.code| && Reached(p, w, c0, c, 0)
    requires Fits(ValueOf(v.val, c))
    ensures var i := GenIndex(gs, v, n, fold);
      && Reached(p, w, c0, d, 0) && d.pc == |i.b.code| && d.st == c.st
      && ValueOf(i.val, d) == Wrap(ValueOf(v.val, c) - SwitchMin(gs))
  {
    hide Extends, Reached, Leads, GenAlu, SwitchMin, SwitchMax, Interval, Wrap, CaseCount, Run;
    var b := v.b.Fresh(n + 1);
    d := c;
    if SwitchMin(gs) != 0 {
      d := RunAlu(Sub, v.val, Const(SwitchMin(gs)), fold, b, p, w, c0, c, 0);
    } else {
      WrapFits(ValueOf(v.val, c));
    }
  }

  lemma RunDispatch(gs: GroupList, v: EmittedValue, env: Env, inLoop: bool, p: Builder, w: World, c0: Config, c: Config)
    returns (d: Config)
    requires GroupsOk(gs, env, inLoop) && UseTable(gs) && TableFits(gs)
    requires Extends(GenDispatch(gs, v, env.fold).b, p) && c.pc == |v.b.code| && Reached(p, w, c0, c, 0)
    requires Bounded(v.val, v.b.next) && Fits(ValueOf(v.val, c))
    ensures Reached(p, w, c0, d, 0) && d.st == c.st
    ensures TableLabel(gs, ValueOf(v.val, c), v.b.next) >= 0
    ensures d.pc == p.Target(TableLabel(gs, ValueOf(v.val, c), v.b.next))
  {
    hide Extends, Reached, Leads, GenIndex, GenAlu, SwitchMin, SwitchMax, Interval, UseTable, Wrap, GroupsOk, CaseCount, Run;
    TableSize(gs, env, inLoop);
    var x: int, n: nat := ValueOf(v.val, c), Interval(gs);
    TableIndex(x, SwitchMin(gs), SwitchMax(gs));
    var i := GenIndex(gs, v, n, env.fold);
    var t := JumpTable(i.val, Labels(v.b.next, n));
    var b1 := i.b.Emit(t);
    ExtendsEmit(b1, Branch(v.b.next + n), p);
    ExtendsEmit(i.b, t, p);
    d := RunIndex(gs, v, n, env.fold, p, w, c0, c);
    var at := ValueOf(i.val, d);
    d := Execute(i.b, t, p, w, c0, d, 0);
    if !(0 <= at < n) {
      d := ExecuteBranch(b1, v.b.next + n, p, w, c0, d, 0);
    }
  }

  lemma WrapFits(x: int)
    requires Fits(x)
    ensures Wrap(x) == x
  {
  }

  lemma {:induction false} GroupsExtend(gs: GroupList, env: Env, inLoop: bool, ctl: Ctl, done: nat, base: int, b: Builder)
    requires GroupsOk(gs, env, inLoop)
    ensures Extends(b, GenGroups(gs, env, ctl, done, base, b))
  {
    hide GenStmt, PlaceRanges, Grows;
    if gs.Group? {
      var b1 := PlaceRanges(gs.ranges, base, b);
      LabelRunRefl(b);
      PlaceRangesRun(b, gs.ranges, base, b, 0);
      StmtGrows(gs.body, env, inLoop, ctl, b1);
      var b2 := GenStmt(gs.body, env, ctl, b1);
      GrowsExtends(b1, b2, b2, b1.next);
      GroupsExtend(gs.next, env, inLoop, ctl, done, base, b2.Emit(Branch(done)));
    }
  }

  /** The place where the body of the first group that contains `v` starts: the label of `v` stands among
      the labels just before it, and the body is followed by a branch to the end. */
  lemma {:induction false} TableEntry(gs: GroupList, env: Env, inLoop: bool, ctl: Ctl, done: nat, base: int, b: Builder,
                                      p: Builder, v: int, l: nat, lo: int, hi: int) returns (a0: Builder, a: Builder)
    requires GroupsOk(gs, env, inLoop) && l == base + v && l !in b.placed && l < b.next
    requires Sane(b) && Within(gs, lo, hi) && base + hi < b.next && Extends(GenGroups(gs, env, ctl, done, base, b), p)
    ensures Select(gs, v).None? ==> l !in GenGroups(gs, env, ctl, done, base, b).placed
    ensures Select(gs, v).Some? ==>
      && LabelRun(a0, a) && Extends(a, p) && |a0.code| <= p.Target(l) <= |a.code| && Sane(a)
      && Extends(GenStmt(Select(gs, v).value, env, ctl, a).Emit(Branch(done)), p)
  {
    hide GenStmt, PlaceRanges, Grows, Extends, Sane, LabelRun, Builder.Target;
    a0, a := b, b;
    if gs.Group? {
      var b1 := PlaceRanges(gs.ranges, base, b);
      var b2 := GenStmt(gs.body, env, ctl, b1);
      var b3 := b2.Emit(Branch(done));
      EntryFacts(gs, env, inLoop, ctl, done, base, b, p, v, l, lo, hi);
      if InSome(v, gs.ranges) {
        a0, a := b, b1;
      } else {
        a0, a := TableEntry(gs.next, env, inLoop, ctl, done, base, b3, p, v, l, lo, hi);
      }
    }
  }

  lemma EntryFacts(gs: GroupList, env: Env, inLoop: bool, ctl: Ctl, done: nat, base: int, b: Builder,
                   p: Builder, v: int, l: nat, lo: int, hi: int)
    requires gs.Group? && GroupsOk(gs, env, inLoop) && l == base + v && l !in b.placed && l < b.next
    requires Sane(b) && Within(gs, lo, hi) && base + hi < b.next && Extends(GenGroups(gs, env, ctl, done, base, b), p)
    ensures var b1 := PlaceRanges(gs.ranges, base, b);
      var b2 := GenStmt(gs.body, env, ctl, b1);
      var b3 := b2.Emit(Branch(done));
      && LabelRun(b, b1) && Sane(b1) && b.next == b1.next <= b3.next && Extends(b1, p) && Extends(b3, p) && Sane(b3)
      && (InSome(v, gs.ranges) ==> |b.code| <= p.Target(l) <= |b1.code|)
      && (!InSome(v, gs.ranges) ==> l !in b3.placed)
  {
    hide GenStmt, PlaceRanges, Grows, Extends, Sane, LabelRun, Builder.Target;
    var b1 := PlaceRanges(gs.ranges, base, b);
    var b2 := GenStmt(gs.body, env, ctl, b1);
    var b3 := b2.Emit(Branch(done));
    LabelRunRefl(b);
    PlaceRangesRun(b, gs.ranges, base, b, l);
    SaneRanges(gs.ranges, base, b, lo, hi);
    LabelRunNext(b, b1);
    StmtGrows(gs.body, env, inLoop, ctl, b1);
    GrowsSane(b1, b2, b1.next);
    SaneEmit(b2, Branch(done));
    GroupsExtend(gs.next, env, inLoop, ctl, done, base, b3);
    ExtendsTrans(b3, GenGroups(gs.next, env, ctl, done, base, b3), p);
    ExtendsEmit(b2, Branch(done), p);
    GrowsExtends(b1, b2, p, b1.next);
    if InSome(v, gs.ranges) {
      LandsIn(b, b1, l, p);
    } else {
      Unplaced(b1, b2, l);
    }
  }

  lemma ExtendsTrans(a: Builder, b: Builder, c: Builder)
    requires Extends(a, b) && Extends(b, c)
    ensures Extends(a, c)
  {
  }

  lemma LabelRunNext(a: Builder, b: Builder)
    requires LabelRun(a, b)
    ensures a.next == b.next && Extends(a, b)
  {
  }

  lemma SaneRanges(rs: seq<Range>, base: int, b: Builder, lo: int, hi: int)
    requires Sane(b) && base + hi < b.next && forall i :: 0 <= i < |rs| ==> lo <= rs[i].min && rs[i].max <= hi
    ensures Sane(PlaceRanges(rs, base, b))
  {
    LabelRunRefl(b);
    forall l | l in PlaceRanges(rs, base, b).placed ensures l < PlaceRanges(rs, base, b).next {
      PlaceRangesRun(b, rs, base, b, l);
    }
  }

  /** The values between the extreme cases that have no case, and the label of the default. */
  lemma DefaultEntry(gs: GroupList, table: nat, n: nat, b: Builder, p: Builder, l: nat)
    requires l !in b.placed && table <= l <= table + n
    requires Select(gs, SwitchMin(gs) + (l - table)).None?
    requires Extends(PlaceMissing(gs, table, n, b).Emit(Label(table + n)), p)
    ensures var b1 := PlaceMissing(gs, table, n, b).Emit(Label(table + n));
      LabelRun(b, b1) && |b.code| <= p.Target(l) <= |b1.code|
  {
    hide Extends, Select, SwitchMin;
    LabelRunRefl(b);
    PlaceMissingRun(b, gs, table, 0, n, b, l);
    var b1 := PlaceMissing(gs, table, n, b);
    LabelRunEmit(b, b1, table + n);
    LandsIn(b, b1.Emit(Label(table + n)), l, p);
  }

  lemma {:induction false} NoneOutside(gs: GroupList, v: int, lo: int, hi: int)
    requires Within(gs, lo, hi) && !(lo <= v <= hi)
    ensures Select(gs, v).None?
  {
    if gs.Group? {
      NoneOutside(gs.next, v, lo, hi);
    }
  }

  // ---------- the compare chain ----------

  /** The number of the first case that contains `v`. */
  function FirstIn(rs: seq<Range>, v: int): (i: nat)
    ensures i <= |rs| && (i < |rs| <==> InSome(v, rs)) && (i < |rs| ==> In(v, rs[i]))
  {
    if rs == [] || In(v, rs[0]) then 0
    else
      InSomeSplit(v, rs);
      1 + FirstIn(rs[1..], v)
  }

  function CaseIndex(gs: GroupList, v: int): (i: nat)
    ensures i <= CaseCount(gs) && (i < CaseCount(gs) <==> Select(gs, v).Some?)
  {
    match gs
    case NoGroup => 0
    case Group(rs, _, next) => if InSome(v, rs) then FirstIn(rs, v) else |rs| + CaseIndex(next, v)
  }

  lemma RunTest(v: Value, r: Range, l: nat, b: Builder, p: Builder, w: World, c0: Config, c: Config, n: nat)
    returns (d: Config)
    requires Extends(GenTest(v, r, l, b), p) && c.pc == |b.code| && Reached(p, w, c0, c, n) && Sane(b)
    requires n <= b.next && Bounded(v, b.next)
    ensures Reached(p, w, c0, d, n) && d.st == c.st
    ensures d.pc == if In(ValueOf(v, c), r) then p.Target(l) else |GenTest(v, r, l, b).code|
  {
    if r.min == r.max {
      var i := Alu(b.next, Eq, v, Const(r.min));
      d := Execute(b.Fresh(1), i, p, w, c0, c, n);
      d := Execute(b.Fresh(1).Emit(i), BranchIf(Temp(b.next), l), p, w, c0, d, n);
    } else {
      d := RunRangeTest(v, r, l, b, p, w, c0, c, n);
    }
  }

  /** Where the parts of a range test are. */
  lemma RangeStages(v: Value, r: Range, l: nat, b: Builder, p: Builder)
    requires Extends(GenTest(v, r, l, b), p) && Sane(b) && r.min != r.max
    ensures var t := b.next;
      var b0 := b.Fresh(3);
      var b1 := b0.Emit(Alu(t, Ge, v, Const(r.min)));
      var b2 := b1.Emit(BranchIfNot(Temp(t), t + 2));
      var b3 := b2.Emit(Alu(t + 1, Le, v, Const(r.max)));
      var b4 := b3.Emit(BranchIf(Temp(t + 1), l));
      && GenTest(v, r, l, b) == b4.Emit(Label(t + 2)) && p.Target(t + 2) == |b4.code|
      && Extends(b1, p) && Extends(b2, p) && Extends(b3, p) && Extends(b4, p)
  {
    hide Extends, Builder.Target, Sane;
    var t := b.next;
    var ge, le := Alu(t, Ge, v, Const(r.min)), Alu(t + 1, Le, v, Const(r.max));
    var b1 := b.Fresh(3).Emit(ge);
    var b2 := b1.Emit(BranchIfNot(Temp(t), t + 2));
    var b3 := b2.Emit(le);
    var b4 := b3.Emit(BranchIf(Temp(t + 1), l));
    assert GenTest(v, r, l, b) == b4.Emit(Label(t + 2));
    NewUnplaced(b, t + 2);
    PlacedAt(b4, t + 2, p);
    ExtendsEmit(b4, Label(t + 2), p);
    ExtendsEmit(b3, BranchIf(Temp(t + 1), l), p);
    ExtendsEmit(b2, le, p);
    ExtendsEmit(b1, BranchIfNot(Temp(t), t + 2), p);
  }

  lemma RunRangeTest(v: Value, r: Range, l: nat, b: Builder, p: Builder, w: World, c0: Config, c: Config, n: nat)
    returns (d: Config)
    requires Extends(GenTest(v, r, l, b), p) && c.pc == |b.code| && Reached(p, w, c0, c, n) && Sane(b)
    requires n <= b.next && Bounded(v, b.next) && r.min != r.max
    ensures Reached(p, w, c0, d, n) && d.st == c.st
    ensures d.pc == if In(ValueOf(v, c), r) then p.Target(l) else |GenTest(v, r, l, b).code|
  {
    hide Extends, Reached, Leads, Builder.Target, Sane, GenTest, Step, Run;
    RangeStages(v, r, l, b, p);
    var t, b0 := b.next, b.Fresh(3);
    var b1 := b0.Emit(Alu(t, Ge, v, Const(r.min)));
    var b2 := b1.Emit(BranchIfNot(Temp(t), t + 2));
    var b3 := b2.Emit(Alu(t + 1, Le, v, Const(r.max)));
    d := ExecuteAlu(b0, t, Ge, v, Const(r.min), p, w, c0, c, n);
    d := ExecuteTest(b1, Temp(t), false, t + 2, p, w, c0, d, n);
    if ValueOf(v, c) >= r.min {
      d := ExecuteAlu(b2, t + 1, Le, v, Const(r.max), p, w, c0, d, n);
      d := ExecuteTest(b3, Temp(t + 1), true, l, p, w, c0, d, n);
    }
    if !In(ValueOf(v, c), r) {
      d := ExecuteLabel(b3.Emit(BranchIf(Temp(t + 1), l)), t + 2, p, w, c0, d, n);
    }
  }

  lemma ExecuteAlu(b: Builder, t: nat, op: AluOp, x: Value, y: Value, p: Builder, w: World, c0: Config, c: Config, n: nat)
    returns (d: Config)
    requires Extends(b.Emit(Alu(t, op, x, y)), p) && c.pc == |b.code| && Reached(p, w, c0, c, n) && n <= t
    ensures d == c.(pc := |b.Emit(Alu(t, op, x, y)).code|, temps := c.temps[t := Apply(op, ValueOf(x, c), ValueOf(y, c))])
    ensures Reached(p, w, c0, d, n)
  {
    d := Execute(b, Alu(t, op, x, y), p, w, c0, c, n);
  }

  lemma {:induction false} RunRangeTests(rs: seq<Range>, v: Value, l: nat, b: Builder, p: Builder, w: World, c0: Config,
                                         c: Config, n: nat) returns (d: Config)
    requires Extends(GenRangeTests(rs, v, l, b), p) && c.pc == |b.code| && Reached(p, w, c0, c, n) && Sane(b)
    requires n <= b.next && Bounded(v, n)
    ensures Reached(p, w, c0, d, n) && d.st == c.st
    ensures var i := FirstIn(rs, ValueOf(v, c));
      d.pc == if i < |rs| then p.Target(l + i) else |GenRangeTests(rs, v, l, b).code|
    decreases |rs|
  {
    hide GenTest, Extends, Sane, Reached, Grows, Builder.Target;
    d := c;
    if rs != [] {
      var b1 := GenTest(v, rs[0], l, b);
      TestGrows(v, rs[0], l, b);
      GrowsSane(b, b1, b.next);
      RangeTestsGrow(rs[1..], v, l + 1, b1);
      GrowsExtends(b1, GenRangeTests(rs[1..], v, l + 1, b1), p, b1.next);
      d := RunTest(v, rs[0], l, b, p, w, c0, c, n);
      if !In(ValueOf(v, c), rs[0]) {
        SameValue(v, p, w, c0, c, d, n);
        d := RunRangeTests(rs[1..], v, l + 1, b1, p, w, c0, d, n);
      }
    }
  }

  lemma SameValue(v: Value, p: Builder, w: World, c0: Config, c: Config, d: Config, n: nat)
    requires Reached(p, w, c0, c, n) && Reached(p, w, c0, d, n) && Bounded(v, n) && d.st == c.st
    ensures ValueOf(v, d) == ValueOf(v, c)
  {
  }

  lemma {:induction false} RunTests(gs: GroupList, v: Value, l: nat, b: Builder, p: Builder, w: World, c0: Config,
                                    c: Config, n: nat) returns (d: Config)
    requires Extends(GenTests(gs, v, l, b), p) && c.pc == |b.code| && Reached(p, w, c0, c, n) && Sane(b)
    requires n <= b.next && Bounded(v, n)
    ensures Reached(p, w, c0, d, n) && d.st == c.st
    ensures var i := CaseIndex(gs, ValueOf(v, c));
      d.pc == if i < CaseCount(gs) then p.Target(l + i) else |GenTests(gs, v, l, b).code|
  {
    hide GenRangeTests, Extends, Sane, Reached, Grows, Builder.Target, In, Leads, Run, Step;
    d := c;
    if gs.Group? {
      var b1 := GenRangeTests(gs.ranges, v, l, b);
      var x := ValueOf(v, c);
      RangeTestsGrow(gs.ranges, v, l, b);
      GrowsSane(b, b1, b.next);
      TestsGrow(gs.next, v, l + |gs.ranges|, b1);
      GrowsExtends(b1, GenTests(gs.next, v, l + |gs.ranges|, b1), p, b1.next);
      d := RunRangeTests(gs.ranges, v, l, b, p, w, c0, c, n);
      if !InSome(ValueOf(v, c), gs.ranges) {
        SameValue(v, p, w, c0, c, d, n);
        d := RunTests(gs.next, v, l + |gs.ranges|, b1, p, w, c0, d, n);
      }
    }
  }

  lemma {:induction false} BodiesExtend(gs: GroupList, env: Env, inLoop: bool, ctl: Ctl, done: nat, l: nat, b: Builder)
    requires GroupsOk(gs, env, inLoop)
    ensures Extends(b, GenBodies(gs, env, ctl, done, l, b))
  {
    hide GenStmt, PlaceLabels, Grows;
    if gs.Group? {
      var b1 := PlaceLabels(l, |gs.ranges|, b);
      LabelRunRefl(b);
      PlaceLabelsRun(b, l, |gs.ranges|, b, 0);
      StmtGrows(gs.body, env, inLoop, ctl, b1);
      var b2 := GenStmt(gs.body, env, ctl, b1);
      GrowsExtends(b1, b2, b2, b1.next);
      BodiesExtend(gs.next, env, inLoop, ctl, done, l + |gs.ranges|, b2.Emit(Branch(done)));
    }
  }

  /** The same for the compare chain, where the labels are numbered by case. */
  lemma {:induction false} ChainEntry(gs: GroupList, env: Env, inLoop: bool, ctl: Ctl, done: nat, first: nat, b: Builder,
                                      p: Builder, v: int) returns (a0: Builder, a: Builder)
    requires GroupsOk(gs, env, inLoop) && Select(gs, v).Some?
    requires first + CaseCount(gs) <= b.next && forall i :: first <= i < first + CaseCount(gs) ==> i !in b.placed
    requires Sane(b) && Extends(GenBodies(gs, env, ctl, done, first, b), p)
    ensures
      && LabelRun(a0, a) && Extends(a, p) && |a0.code| <= p.Target(first + CaseIndex(gs, v)) <= |a.code| && Sane(a)
      && Extends(GenStmt(Select(gs, v).value, env, ctl, a).Emit(Branch(done)), p)
  {
    hide GenStmt, PlaceLabels, Grows, Extends, Sane, LabelRun, Builder.Target;
    var b1 := PlaceLabels(first, |gs.ranges|, b);
    var b2 := GenStmt(gs.body, env, ctl, b1);
    var b3 := b2.Emit(Branch(done));
    ChainFacts(gs, env, inLoop, ctl, done, first, b, p);
    if InSome(v, gs.ranges) {
      a0, a := b, b1;
      PlaceLabelsRun(b, first, |gs.ranges|, b, first + CaseIndex(gs, v)) by { LabelRunRefl(b); }
      LandsIn(b, b1, first + CaseIndex(gs, v), p);
    } else {
      a0, a := ChainEntry(gs.next, env, inLoop, ctl, done, first + |gs.ranges|, b3, p, v);
    }
  }

  lemma ChainFacts(gs: GroupList, env: Env, inLoop: bool, ctl: Ctl, done: nat, first: nat, b: Builder, p: Builder)
    requires gs.Group? && GroupsOk(gs, env, inLoop)
    requires first + CaseCount(gs) <= b.next && forall i :: first <= i < first + CaseCount(gs) ==> i !in b.placed
    requires Sane(b) && Extends(GenBodies(gs, env, ctl, done, first, b), p)
    ensures var b1 := PlaceLabels(first, |gs.ranges|, b);
      var b2 := GenStmt(gs.body, env, ctl, b1);
      var b3 := b2.Emit(Branch(done));
      && LabelRun(b, b1) && Sane(b1) && b.next == b1.next <= b3.next && Extends(b1, p) && Extends(b3, p) && Sane(b3)
      && forall i :: first + |gs.ranges| <= i < first + CaseCount(gs) ==> i !in b3.placed
  {
    hide GenStmt, PlaceLabels, Grows, Extends, Sane, LabelRun, Builder.Target;
    var b1 := PlaceLabels(first, |gs.ranges|, b);
    var b2 := GenStmt(gs.body, env, ctl, b1);
    var b3 := b2.Emit(Branch(done));
    LabelRunRefl(b);
    PlaceLabelsRun(b, first, |gs.ranges|, b, 0);
    SaneLabels(first, |gs.ranges|, b);
    LabelRunNext(b, b1);
    StmtGrows(gs.body, env, inLoop, ctl, b1);
    GrowsSane(b1, b2, b1.next);
    SaneEmit(b2, Branch(done));
    BodiesExtend(gs.next, env, inLoop, ctl, done, first + |gs.ranges|, b3);
    ExtendsTrans(b3, GenBodies(gs.next, env, ctl, done, first + |gs.ranges|, b3), p);
    ExtendsEmit(b2, Branch(done), p);
    GrowsExtends(b1, b2, p, b1.next);
    forall i: nat | first + |gs.ranges| <= i < first + CaseCount(gs) ensures i !in b3.placed {
      PlaceLabelsRun(b, first, |gs.ranges|, b, i);
      Unplaced(b1, b2, i);
    }
  }

  lemma SaneLabels(first: nat, count: nat, b: Builder)
    requires Sane(b) && first + count <= b.next
    ensures Sane(PlaceLabels(first, count, b))
  {
    LabelRunRefl(b);
    forall l | l in PlaceLabels(first, count, b).placed ensures l < PlaceLabels(first, count, b).next {
      PlaceLabelsRun(b, first, count, b, l);
    }
  }
}
