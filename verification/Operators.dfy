/** What the operators mean on ints and undefined values: laws of the results that expressions have, with no mention of
    how the machine computes them (jit/ops/binary.c). */
module Operators {
  import opened Basics
  import opened Machine
  import opened Expressions

  /** Both operands have been evaluated without an error: `x` and `y` are what the operator is applied to. */
  ghost predicate Operands(l: Expr, r: Expr, st: State, w: World, x: Word, y: Word, after: State) {
    var a := Eval(l, st, w);
    var b := Eval(r, a.st, w);
    && !b.st.failed && y == b.v && after == b.st
    && x == if w.code.None? then a.v else LeftWord(l, a.v, b.st, w)
  }

  /** The result of an operator that answers yes or no. */
  ghost predicate Answers(e: Expr, st: State, w: World, after: State, yes: bool) {
    Eval(e, st, w) == Result(Word(if yes then 1 else 0, INT), after)
  }

  /** Comparisons are those of the payloads and never fail. */
  lemma Comparisons(l: Expr, r: Expr, st: State, w: World, x: Word, y: Word, after: State)
    requires Operands(l, r, st, w, x, y, after)
    ensures Answers(Arith(Lt, l, r), st, w, after, x.n < y.n)
    ensures Answers(Arith(Ge, l, r), st, w, after, !(x.n < y.n))
    ensures Answers(Arith(Gt, l, r), st, w, after, y.n < x.n)
    ensures Answers(Arith(Le, l, r), st, w, after, !(y.n < x.n))
    ensures Answers(Arith(Eq, l, r), st, w, after, x.n == y.n)
    ensures Answers(Arith(Ne, l, r), st, w, after, !(x.n == y.n))
  {
    hide Eval, Operands, Intrinsic;
    forall op | Compares(op) ensures Eval(Arith(op, l, r), st, w) == Result(Word(Apply(op, x.n, y.n), INT), after) {
      Compared(op, l, r, st, w, x, y, after);
    }
  }

  lemma Compared(op: AluOp, l: Expr, r: Expr, st: State, w: World, x: Word, y: Word, after: State)
    requires Compares(op) && Operands(l, r, st, w, x, y, after)
    ensures Eval(Arith(op, l, r), st, w) == Result(Word(Apply(op, x.n, y.n), INT), after)
  {
    hide Apply;
  }

  /** What counts as true, and which operators this part of the language has. */
  lemma Truths(e: Expr, st: State, w: World, op: AluOp)
    requires !Eval(e, st, w).st.failed
    ensures var v := Eval(e, st, w);
      Answers(LogicNot(e), st, w, v.st, v.v.tag == UNDEFINED || v.v.n == 0)
    ensures IsArith(op) <==> op in {Add, Sub, Lt, Le, Gt, Ge, Eq, Ne}
  {
  }

  /** The operators that can fail, and when: unless both operands are ints. */
  lemma SumsFail(op: AluOp, l: Expr, r: Expr, st: State, w: World, x: Word, y: Word, after: State)
    requires op == Add || op == Sub
    requires Operands(l, r, st, w, x, y, after)
    ensures var v := Eval(Arith(op, l, r), st, w);
      if x.tag == INT && y.tag == INT then v.st == after && !v.st.failed && v.v.tag == INT
      else v.st == after.(failed := true)
  {
  }

  /** On ints `+` yields the sum and `-` the difference, as 64-bit numbers: the exact one if it is in range, and one
      that differs from it by a multiple of 2^64 otherwise. */
  lemma Sums(l: Expr, r: Expr, st: State, w: World, x: Word, y: Word, after: State)
    requires Operands(l, r, st, w, x, y, after) && x.tag == INT && y.tag == INT
    ensures Is64(Eval(Arith(Add, l, r), st, w).v.n, x.n + y.n)
    ensures Is64(Eval(Arith(Sub, l, r), st, w).v.n, x.n - y.n)
  {
    WrapIs64(x.n + y.n);
    WrapIs64(x.n - y.n);
  }

  /** `r` is the signed 64-bit number that equals `n` modulo 2^64. */
  predicate Is64(r: int, n: int) {
    && -0x8000_0000_0000_0000 <= r < 0x8000_0000_0000_0000
    && (r - n) % 0x1_0000_0000_0000_0000 == 0
    && (-0x8000_0000_0000_0000 <= n < 0x8000_0000_0000_0000 ==> r == n)
  }

  lemma WrapIs64(n: int)
    ensures Is64(Wrap(n), n)
  {
  }

  /** What was added is taken away again by `-`, also when the sum wraps around: `(x + y) - y` is `x`. */
  lemma SubtractUndoes(x: nat, y: nat, st: State, w: World)
    requires !st.failed && Read(st, x).tag == INT && Read(st, y).tag == INT && Fits(Read(st, x).n)
    ensures Eval(Arith(Sub, Arith(Add, Var(x), Var(y)), Var(y)), st, w) == Result(Read(st, x), st)
  {
    var a, b := Read(st, x).n, Read(st, y).n;
    WrapIs64(a + b);
    var s := Wrap(a + b);
    var q := (s - (a + b)) / 0x1_0000_0000_0000_0000;
    assert s - b == a + q * 0x1_0000_0000_0000_0000;
    assert Wrap(s - b) == a;
    assert Eval(Arith(Add, Var(x), Var(y)), st, w) == Result(Word(s, INT), st);
  }

  /** A variable holds what was last assigned to it, and one that never was is undefined; assigning changes no other. */
  lemma ReadAssigned(x: nat, e: Expr, y: nat, st: State, w: World)
    requires var a := Eval(e, st, w); !a.st.failed
    ensures var a, b := Eval(e, st, w), Eval(Assign(x, e), st, w);
      b.v == a.v && !b.st.failed && b.st.trace == a.st.trace
      && Eval(Var(y), b.st, w).v == if y == x then a.v else Eval(Var(y), a.st, w).v
    ensures y !in st.vars ==> Eval(Var(y), st, w).v == Word(0, UNDEFINED)
  {
  }
}
