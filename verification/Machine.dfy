/** The instruction set the code generator emits, and what a run of it does.

    This stands for libjit: instructions append to one function body, a label is an identity that
    may be placed, and a branch goes to the place of its label.  A label keeps its first placement;
    placing it again has no effect.  A call is opaque: it is logged in the trace, and the word it
    returns is any function of the callee and of the calls made before it.  An error stops the program. */
module Machine {
  import opened Basics

  const UNDEFINED: int := 0
  const INT: int := 1

  /** A value of the script language: its 64-bit payload and the type byte of its meta word. */
  datatype Word = Word(n: int, tag: int)

  /** The language's notion of truth (ptrs_vartob) on int and undefined values. */
  predicate Truthy(v: Word) {
    v.tag != UNDEFINED && v.n != 0
  }

  /** `failed`: the program was stopped by an error. */
  datatype State = State(vars: map<nat, Word>, trace: seq<nat>, failed: bool)

  function Fail(st: State): State {
    st.(failed := true)
  }

  function Read(st: State, x: nat): Word {
    if x in st.vars then st.vars[x] else Word(0, UNDEFINED)
  }

  /** What the generator knows besides the tree: the variables whose meta is the constant `int`, and
      whether libjit folds an operation on two constants. */
  datatype Env = Env(ints: set<nat>, fold: bool)

  /** `calls` is what the called functions return.  `code` chooses between two readings of a program: what it is
      meant to do, or what the code does that is generated for it with the given knowledge.  They differ in what
      LeftWord, Passes and FallsInto say. */
  datatype World = World(calls: (nat, seq<nat>) -> Word, code: Option<Env>)

  /** The signed 64-bit number an integer wraps around to. */
  function Wrap(n: int): (r: int)
    ensures -0x8000_0000_0000_0000 <= r < 0x8000_0000_0000_0000
    ensures (r - n) % 0x1_0000_0000_0000_0000 == 0
  {
    (n + 0x8000_0000_0000_0000) % 0x1_0000_0000_0000_0000 - 0x8000_0000_0000_0000
  }

  predicate Fits(n: int) {
    -0x8000_0000_0000_0000 <= n < 0x8000_0000_0000_0000
  }

  datatype AluOp = Add | Sub | Xor | And | Eq | Ne | Lt | Le | Gt | Ge

  function Bit(b: bool): int {
    if b then 1 else 0
  }

  /** Xor and And are only ever emitted on truth bits, where this is the bitwise operation. */
  function Apply(op: AluOp, a: int, b: int): int {
    match op
    case Add => Wrap(a + b)
    case Sub => Wrap(a - b)
    case Xor => Bit((a != 0) != (b != 0))
    case And => Bit(a != 0 && b != 0)
    case Eq => Bit(a == b)
    case Ne => Bit(a != b)
    case Lt => Bit(a < b)
    case Le => Bit(a <= b)
    case Gt => Bit(a > b)
    case Ge => Bit(a >= b)
  }

  predicate Compares(op: AluOp) {
    op == Eq || op == Ne || op == Lt || op == Le || op == Gt || op == Ge
  }

  /** The intrinsics behind the operators (jit/ops/binary.c) on int and undefined operands: comparisons are those of
      the payloads, and the others stop the program unless both operands are ints. */
  function Intrinsic(op: AluOp, a: Word, b: Word): Option<Word> {
    if Compares(op) || (a.tag == INT && b.tag == INT) then Some(Word(Apply(op, a.n, b.n), INT)) else None
  }

  /** An operand: a constant, a variable's own storage (payload or meta), or a temporary. */
  datatype Value = Const(n: int) | VarVal(x: nat) | VarMeta(x: nat) | Temp(t: nat)

  datatype Instr =
    | Label(l: nat)
    | Branch(l: nat)
    | BranchIf(cond: Value, l: nat)
    | BranchIfNot(cond: Value, l: nat)
    | JumpTable(index: Value, table: seq<nat>)
    | Move(t: nat, src: Value)
    | ToBool(t: nat, src: Value)
    | ToInt(t: nat, src: Value, meta: Value)
    | Alu(t: nat, op: AluOp, a: Value, b: Value)
    | CallIntrinsic(op: AluOp, t: nat, m: nat, a: Value, aMeta: Value, b: Value, bMeta: Value)
    | SetVal(x: nat, src: Value)
    | SetMeta(x: nat, src: Value)
    | CallOp(f: nat, t: nat, m: nat)

  datatype Config = Config(pc: nat, st: State, temps: map<nat, int>)

  function TempOf(temps: map<nat, int>, t: nat): int {
    if t in temps then temps[t] else 0
  }

  function ValueOf(v: Value, c: Config): int {
    match v
    case Const(n) => n
    case VarVal(x) => Read(c.st, x).n
    case VarMeta(x) => Read(c.st, x).tag
    case Temp(t) => TempOf(c.temps, t)
  }

  /** The function being built: the code so far, where each label was placed, and the next unused
      label or temporary. */
  datatype Builder = Builder(code: seq<Instr>, placed: map<nat, nat>, next: nat) {

    /** jit_insn_label on a label that is already placed changes nothing. */
    function Emit(i: Instr): Builder {
      Builder(code + [i],
              if i.Label? && i.l !in placed then placed[i.l := |code|] else placed,
              next)
    }

    /** `k` new identities, numbered from `next`. */
    function Fresh(k: nat): Builder {
      this.(next := next + k)
    }

    /** Where a branch to `l` goes; a label that was never placed ends the run. */
    function Target(l: nat): nat {
      if l in placed then placed[l] else |code|
    }
  }

  const EMPTY := Builder([], map[], 0)

  function Step(p: Builder, w: World, c: Config): Config {
    if c.pc >= |p.code| then c else
    var next := c.(pc := c.pc + 1);
    match p.code[c.pc]
    case Label(_) => next
    case Branch(l) => c.(pc := p.Target(l))
    case BranchIf(v, l) => if ValueOf(v, c) != 0 then c.(pc := p.Target(l)) else next
    case BranchIfNot(v, l) => if ValueOf(v, c) == 0 then c.(pc := p.Target(l)) else next
    case JumpTable(v, table) =>
      var i := ValueOf(v, c);
      if 0 <= i < |table| then c.(pc := p.Target(table[i])) else next
    case Move(t, v) => next.(temps := c.temps[t := ValueOf(v, c)])
    case ToBool(t, v) => next.(temps := c.temps[t := Bit(ValueOf(v, c) != 0)])
    case ToInt(t, v, m) => next.(temps := c.temps[t := if ValueOf(m, c) == UNDEFINED then 0 else ValueOf(v, c)])
    case Alu(t, op, a, b) => next.(temps := c.temps[t := Apply(op, ValueOf(a, c), ValueOf(b, c))])
    case CallIntrinsic(op, t, m, a, aMeta, b, bMeta) =>
      var r := Intrinsic(op, Word(ValueOf(a, c), ValueOf(aMeta, c)), Word(ValueOf(b, c), ValueOf(bMeta, c)));
      if r.None? then c.(pc := |p.code|, st := Fail(c.st)) else next.(temps := c.temps[t := r.value.n][m := r.value.tag])
    case SetVal(x, v) =>
      next.(st := c.st.(vars := c.st.vars[x := Word(ValueOf(v, c), Read(c.st, x).tag)]))
    case SetMeta(x, v) =>
      next.(st := c.st.(vars := c.st.vars[x := Word(Read(c.st, x).n, ValueOf(v, c))]))
    case CallOp(f, t, m) =>
      var r := w.calls(f, c.st.trace);
      next.(st := c.st.(trace := c.st.trace + [f]), temps := c.temps[t := r.n][m := r.tag])
  }

  function Run(p: Builder, w: World, c: Config, n: nat): Config
    decreases n
  {
    if n == 0 then c else Run(p, w, Step(p, w, c), n - 1)
  }

  lemma {:induction false} RunAdd(p: Builder, w: World, c: Config, m: nat, n: nat)
    ensures Run(p, w, c, m + n) == Run(p, w, Run(p, w, c, m), n)
    decreases m
  {
    if m > 0 {
      RunAdd(p, w, Step(p, w, c), m - 1, n);
    }
  }

  lemma {:induction false} HaltedStays(p: Builder, w: World, c: Config, n: nat)
    requires c.pc >= |p.code|
    ensures Run(p, w, c, n) == c
    decreases n
  {
    if n > 0 {
      HaltedStays(p, w, c, n - 1);
    }
  }

  /** `c` gets to `d` in at least `k` steps. */
  ghost predicate Leads(p: Builder, w: World, c: Config, d: Config, k: nat) {
    exists n: nat :: n >= k && Run(p, w, c, n) == d
  }

  /** `c` is still running after at least `k` steps. */
  ghost predicate Survives(p: Builder, w: World, c: Config, k: nat) {
    exists n: nat :: n >= k && Run(p, w, c, n).pc < |p.code|
  }

  lemma LeadsRefl(p: Builder, w: World, c: Config)
    ensures Leads(p, w, c, c, 0)
  {
    assert Run(p, w, c, 0) == c;
  }

  lemma LeadsStep(p: Builder, w: World, c: Config)
    ensures Leads(p, w, c, Step(p, w, c), 1)
  {
    assert Run(p, w, Step(p, w, c), 0) == Step(p, w, c);
    assert Run(p, w, c, 1) == Step(p, w, c);
  }

  lemma LeadsTrans(p: Builder, w: World, c: Config, d: Config, e: Config, j: nat, k: nat)
    requires Leads(p, w, c, d, j) && Leads(p, w, d, e, k)
    ensures Leads(p, w, c, e, j + k)
  {
    var m: nat :| m >= j && Run(p, w, c, m) == d;
    var n: nat :| n >= k && Run(p, w, d, n) == e;
    RunAdd(p, w, c, m, n);
  }

  lemma LeadsSurvives(p: Builder, w: World, c: Config, d: Config, j: nat, k: nat)
    requires Leads(p, w, c, d, j) && Survives(p, w, d, k)
    ensures Survives(p, w, c, j + k)
  {
    var m: nat :| m >= j && Run(p, w, c, m) == d;
    var n: nat :| n >= k && Run(p, w, d, n).pc < |p.code|;
    RunAdd(p, w, c, m, n);
  }

  // ---------- how a builder grows ----------

  /** `after` has the code and the label places of `b`, and possibly more. */
  ghost predicate Extends(b: Builder, after: Builder) {
    && b.code <= after.code
    && forall l :: l in b.placed ==> l in after.placed && after.placed[l] == b.placed[l]
  }

  /** Every label placed so far has been handed out. */
  ghost predicate Sane(b: Builder) {
    forall l :: l in b.placed ==> l < b.next
  }

  /** `after` continues `b`, and places only labels numbered `lo` or above. */
  ghost predicate Grows(b: Builder, after: Builder, lo: nat) {
    && Extends(b, after) && b.next <= after.next
    && forall l :: l in after.placed && l !in b.placed ==> lo <= l < after.next
  }

  lemma GrowsTrans(a: Builder, b: Builder, c: Builder, lo: nat, lo1: nat)
    requires Grows(a, b, lo) && Grows(b, c, lo1) && lo <= lo1
    ensures Grows(a, c, lo)
  {
  }

  lemma GrowsRefl(b: Builder, k: nat)
    ensures Grows(b, b.Fresh(k), b.next)
  {
  }

  lemma GrowsEmit(a: Builder, b: Builder, lo: nat, i: Instr)
    requires Grows(a, b, lo) && (i.Label? ==> lo <= i.l < b.next)
    ensures Grows(a, b.Emit(i), lo)
  {
  }

  lemma GrowsExtends(a: Builder, b: Builder, p: Builder, lo: nat)
    requires Grows(a, b, lo) && Extends(b, p)
    ensures Extends(a, p)
  {
  }

  lemma ExtendsEmit(b: Builder, i: Instr, p: Builder)
    requires Extends(b.Emit(i), p)
    ensures Extends(b, p)
  {
  }

  lemma FreshExtends(b: Builder, k: nat, p: Builder)
    ensures Extends(b.Fresh(k), p) <==> Extends(b, p)
  {
  }

  lemma GrowsSane(a: Builder, b: Builder, lo: nat)
    requires Sane(a) && Grows(a, b, lo)
    ensures Sane(b)
  {
  }

  /** A label handed out before `b` and placed neither then nor by the code since is not placed. */
  lemma Unplaced(b: Builder, after: Builder, l: nat)
    requires Grows(b, after, b.next) && l !in b.placed && l < b.next
    ensures l !in after.placed
  {
  }

  lemma NewUnplaced(b: Builder, l: nat)
    requires Sane(b) && b.next <= l
    ensures l !in b.placed
  {
  }

  lemma SaneFresh(b: Builder, k: nat)
    requires Sane(b)
    ensures Sane(b.Fresh(k))
  {
  }

  lemma SaneEmit(b: Builder, i: Instr)
    requires Sane(b) && (i.Label? ==> i.l < b.next)
    ensures Sane(b.Emit(i))
  {
  }

  lemma PlacedAt(b: Builder, l: nat, p: Builder)
    requires l !in b.placed && Extends(b.Emit(Label(l)), p)
    ensures p.Target(l) == |b.code|
  {
  }

  // ---------- runs through the code of a builder ----------

  ghost predicate SameTemps(c: Config, d: Config, n: nat) {
    forall t :: 0 <= t < n ==> TempOf(d.temps, t) == TempOf(c.temps, t)
  }

  /** `c` gets to `d` and keeps the temporaries numbered below `n`. */
  ghost predicate Reached(p: Builder, w: World, c: Config, d: Config, n: nat) {
    Leads(p, w, c, d, 0) && SameTemps(c, d, n)
  }

  lemma ReachedRefl(p: Builder, w: World, c: Config, n: nat)
    ensures Reached(p, w, c, c, n)
  {
    LeadsRefl(p, w, c);
  }

  lemma ReachedTrans(p: Builder, w: World, c: Config, d: Config, e: Config, n: nat, m: nat)
    requires Reached(p, w, c, d, n) && Reached(p, w, d, e, m) && n <= m
    ensures Reached(p, w, c, e, n)
  {
    LeadsTrans(p, w, c, d, e, 0, 0);
  }

  lemma ReachedTemps(p: Builder, w: World, c: Config, d: Config, n: nat)
    requires Reached(p, w, c, d, n)
    ensures SameTemps(c, d, n)
  {
  }

  predicate WritesFrom(i: Instr, n: nat) {
    match i
    case Move(t, _) => n <= t
    case ToBool(t, _) => n <= t
    case ToInt(t, _, _) => n <= t
    case Alu(t, _, _, _) => n <= t
    case CallOp(_, t, m) => n <= t && n <= m
    case CallIntrinsic(_, t, m, _, _, _, _) => n <= t && n <= m
    case _ => true
  }

  /** The next instruction of the code of `b` is executed. */
  lemma Execute(b: Builder, i: Instr, p: Builder, w: World, c0: Config, c: Config, n: nat) returns (d: Config)
    requires Extends(b.Emit(i), p) && c.pc == |b.code|
    requires Reached(p, w, c0, c, n) && WritesFrom(i, n)
    ensures c.pc < |p.code| && p.code[c.pc] == i
    ensures d == Step(p, w, c) && Leads(p, w, c, d, 1)
    ensures Reached(p, w, c0, d, n)
  {
    d := Step(p, w, c);
    LeadsStep(p, w, c);
    assert b.Emit(i).code[c.pc] == i;
    LeadsTrans(p, w, c0, c, d, 0, 1);
  }

  lemma ExecuteLabel(b: Builder, l: nat, p: Builder, w: World, c0: Config, c: Config, n: nat) returns (d: Config)
    requires Extends(b.Emit(Label(l)), p) && c.pc == |b.code| && Reached(p, w, c0, c, n)
    ensures d == c.(pc := |b.Emit(Label(l)).code|)
    ensures Leads(p, w, c, d, 1) && Reached(p, w, c0, d, n) && c.pc < |p.code|
  {
    d := Execute(b, Label(l), p, w, c0, c, n);
  }

  lemma ExecuteBranch(b: Builder, l: nat, p: Builder, w: World, c0: Config, c: Config, n: nat) returns (d: Config)
    requires Extends(b.Emit(Branch(l)), p) && c.pc == |b.code| && Reached(p, w, c0, c, n)
    ensures d == c.(pc := p.Target(l)) && Leads(p, w, c, d, 1) && Reached(p, w, c0, d, n) && c.pc < |p.code|
  {
    d := Execute(b, Branch(l), p, w, c0, c, n);
  }

  /** BranchIf (`on`) or BranchIfNot (`!on`). */
  lemma ExecuteTest(b: Builder, v: Value, on: bool, l: nat, p: Builder, w: World, c0: Config, c: Config, n: nat)
    returns (d: Config)
    requires Extends(b.Emit(if on then BranchIf(v, l) else BranchIfNot(v, l)), p) && c.pc == |b.code|
    requires Reached(p, w, c0, c, n)
    ensures var i := if on then BranchIf(v, l) else BranchIfNot(v, l);
      d == c.(pc := if (ValueOf(v, c) != 0) == on then p.Target(l) else |b.Emit(i).code|)
    ensures Leads(p, w, c, d, 1) && Reached(p, w, c0, d, n)
  {
    d := Execute(b, if on then BranchIf(v, l) else BranchIfNot(v, l), p, w, c0, c, n);
  }

  lemma ExecuteMove(b: Builder, t: nat, v: Value, p: Builder, w: World, c0: Config, c: Config, n: nat)
    returns (d: Config)
    requires Extends(b.Emit(Move(t, v)), p) && c.pc == |b.code| && Reached(p, w, c0, c, n) && n <= t
    ensures d == c.(pc := |b.Emit(Move(t, v)).code|, temps := c.temps[t := ValueOf(v, c)])
    ensures Leads(p, w, c, d, 1) && Reached(p, w, c0, d, n)
  {
    d := Execute(b, Move(t, v), p, w, c0, c, n);
  }
}
