/** The expression parser: precedence climbing over tokens (parser/ast.c, parseBinaryExpr and
    parseUnaryExpr).  An atom stands for a literal, an identifier or any other operand with its suffixes. */
module ExprParser {
  import opened Basics

  datatype Op =
    | SShr | Shl | TypeEqual | TypeInequal | Equal | Inequal | LessEqual | GreaterEqual | Less | Greater
    | InstanceOf | In | LogicOr | LogicXor | LogicAnd | Or | Xor | And | Add | Sub | Mul | Div | Mod

  datatype Prefix = TypeOf | Inc | Dec | LogicNot | Not | Address | Dereference | Plus | Minus

  datatype Expr =
    | Atom(n: nat)
    | Binary(op: Op, left: Expr, right: Expr)
    | Unary(pre: Prefix, arg: Expr)
    | Ternary(cond: Expr, whenTrue: Expr, whenFalse: Expr)

  /** A symbol that is both a binary and a prefix operator is one token. */
  datatype Token = Operand(n: nat) | Symbol(op: Op) | Mark(pre: Prefix) | Question | Colon | Open | Close

  const TERNARY: nat := 2

  /** The table of operators. */
  function Precedence(op: Op): (p: nat)
    ensures 3 <= p <= 14
  {
    match op
    case SShr => 12
    case Shl => 12
    case TypeEqual => 9
    case TypeInequal => 9
    case Equal => 9
    case Inequal => 9
    case LessEqual => 10
    case GreaterEqual => 10
    case Less => 10
    case Greater => 10
    case InstanceOf => 11
    case In => 11
    case LogicOr => 3
    case LogicXor => 4
    case LogicAnd => 5
    case Or => 6
    case Xor => 7
    case And => 8
    case Add => 13
    case Sub => 13
    case Mul => 14
    case Div => 14
    case Mod => 14
  }

  /** readPrefixOperator. */
  function PrefixOf(t: Token): Option<Prefix> {
    match t
    case Mark(p) => if p.Address? || p.Dereference? || p.Plus? || p.Minus? then None else Some(p)
    case Symbol(And) => Some(Address)
    case Symbol(Mul) => Some(Dereference)
    case Symbol(Add) => Some(Plus)
    case Symbol(Sub) => Some(Minus)
    case _ => None
  }

  /** peekBinaryOp: the precedence of the operator that comes next. */
  function Peek(ts: seq<Token>): Option<nat> {
    if ts == [] then None
    else match ts[0]
      case Symbol(op) => Some(Precedence(op))
      case Question => Some(TERNARY)
      case _ => None
  }

  // ---------- what the parser computes ----------

  datatype Result = Fail | Parsed(e: Expr, rest: seq<Token>)

  /** parseUnaryExpr. */
  function ParseUnary(ts: seq<Token>): (r: Result)
    ensures r.Parsed? ==> |r.rest| < |ts|
    decreases |ts|, 0
  {
    if ts == [] then Fail
    else if ts[0].Operand? then Parsed(Atom(ts[0].n), ts[1..])
    else if PrefixOf(ts[0]).Some? then
      var a := ParseUnary(ts[1..]);
      if a.Fail? then Fail else Parsed(Unary(PrefixOf(ts[0]).value, a.e), a.rest)
    else if ts[0].Open? then
      var a := ParseExpression(ts[1..]);
      if a.Fail? || a.rest == [] || !a.rest[0].Close? then Fail else Parsed(a.e, a.rest[1..])
    else Fail
  }

  /** parseExpression. */
  function ParseExpression(ts: seq<Token>): (r: Result)
    ensures r.Parsed? ==> |r.rest| < |ts|
    decreases |ts|, 1
  {
    var a := ParseUnary(ts);
    if a.Fail? then Fail else Climb(a.e, a.rest, 0)
  }

  /** parseBinaryExpr: the operators of at least precedence `min` that come next. */
  function Climb(left: Expr, ts: seq<Token>, min: nat): (r: Result)
    ensures r.Parsed? ==> |r.rest| <= |ts|
    ensures r.Parsed? && Peek(ts).Some? && Peek(ts).value >= min ==> |r.rest| < |ts|
    decreases |ts|, 0
  {
    if Peek(ts).None? || Peek(ts).value < min then Parsed(left, ts)
    else
      var a := Right(ts[1..], Peek(ts).value);
      if a.Fail? then Fail
      else if ts[0].Question? then
        if a.rest == [] || !a.rest[0].Colon? then Fail else
        var f := ParseExpression(a.rest[1..]);
        if f.Fail? then Fail else Parsed(Ternary(left, a.e, f.e), f.rest)
      else Climb(Binary(ts[0].op, left, a.e), a.rest, min)
  }

  /** The right operand of an operator of precedence `p`. */
  function Right(ts: seq<Token>, p: nat): (r: Result)
    ensures r.Parsed? ==> |r.rest| < |ts|
    decreases |ts|, 2
  {
    var a := ParseUnary(ts);
    if a.Fail? then Fail else Absorb(a.e, a.rest, p)
  }

  /** The operators behind a right operand that bind more tightly than `p`. */
  function Absorb(right: Expr, ts: seq<Token>, p: nat): (r: Result)
    ensures r.Parsed? ==> |r.rest| <= |ts|
    decreases |ts|, 1
  {
    if Peek(ts).None? || Peek(ts).value <= p then Parsed(right, ts)
    else
      var a := Climb(right, ts, Peek(ts).value);
      if a.Fail? then Fail else Absorb(a.e, a.rest, p)
  }

  // ---------- the printer ----------

  function Level(e: Expr): nat {
    match e
    case Atom(_) => 15
    case Unary(_, _) => 15
    case Binary(op, _, _) => Precedence(op)
    case Ternary(_, _, _) => TERNARY
  }

  function PrefixToken(p: Prefix): (t: Token)
    ensures PrefixOf(t) == Some(p) && !t.Operand?
  {
    match p
    case Address => Symbol(And)
    case Dereference => Symbol(Mul)
    case Plus => Symbol(Add)
    case Minus => Symbol(Sub)
    case _ => Mark(p)
  }

  /** `e` where an expression of at least level `min` is wanted, followed by `rest`: parentheses are put
      only around expressions of a lower level. */
  function Print(e: Expr, min: nat, rest: seq<Token>): seq<Token>
    decreases e, 1
  {
    if Level(e) < min then [Open] + PrintBare(e, [Close] + rest) else PrintBare(e, rest)
  }

  function PrintBare(e: Expr, rest: seq<Token>): seq<Token>
    decreases e, 0
  {
    match e
    case Atom(n) => [Operand(n)] + rest
    case Unary(p, a) => [PrefixToken(p)] + Print(a, 15, rest)
    case Binary(op, l, r) => Print(l, Precedence(op), [Symbol(op)] + Print(r, Precedence(op) + 1, rest))
    case Ternary(c, t, f) => Print(c, 3, [Question] + Print(t, 3, [Colon] + Print(f, 0, rest)))
  }

  // ---------- parsing is the inverse of printing ----------

  lemma Tail(t: Token, ts: seq<Token>)
    ensures ([t] + ts)[0] == t && ([t] + ts)[1..] == ts
  {
  }

  /** No operator that binds more tightly than `p` follows. */
  predicate Below(ts: seq<Token>, p: nat) {
    Peek(ts).None? || Peek(ts).value <= p
  }

  lemma {:induction false} UnaryPrinted(e: Expr, rest: seq<Token>)
    ensures ParseUnary(Print(e, 15, rest)) == Parsed(e, rest)
    decreases e, 3
  {
    match e
    case Atom(n) => Tail(Operand(n), rest);
    case Unary(p, a) =>
      UnaryPrinted(a, rest);
      Tail(PrefixToken(p), Print(a, 15, rest));
    case _ => ParenPrinted(e, rest);
  }

  lemma ParenPrinted(e: Expr, rest: seq<Token>)
    ensures ParseUnary([Open] + PrintBare(e, [Close] + rest)) == Parsed(e, rest)
    decreases e, 2
  {
    BarePrinted(e, [Close] + rest);
    Tail(Open, PrintBare(e, [Close] + rest));
    Tail(Close, rest);
  }

  /** A printed expression that is followed by operators of at most its own level `p`: the parser has it as
      the left operand when it comes to them. */
  lemma {:induction false} Resumes(e: Expr, p: nat, min: nat, rest: seq<Token>)
    requires 3 <= p <= 15 && min <= p && Below(rest, p)
    ensures var a := ParseUnary(Print(e, p, rest)); a.Parsed? && Climb(a.e, a.rest, min) == Climb(e, rest, min)
    decreases e, 5
  {
    if Level(e) < p {
      ParenPrinted(e, rest);
    } else if e.Binary? {
      var q := Precedence(e.op);
      var rest1 := [Symbol(e.op)] + Print(e.right, q + 1, rest);
      Tail(Symbol(e.op), Print(e.right, q + 1, rest));
      Resumes(e.left, q, min, rest1);
      RightPrinted(e.right, q, rest);
    } else {
      UnaryPrinted(e, rest);
    }
  }

  /** The same for a right operand. */
  lemma {:induction false} ResumesRight(e: Expr, p: nat, q: nat, rest: seq<Token>)
    requires 3 <= p <= 15 && q < p && Below(rest, p)
    ensures var a := ParseUnary(Print(e, p, rest)); a.Parsed? && Absorb(a.e, a.rest, q) == Absorb(e, rest, q)
    decreases e, 4
  {
    if Level(e) < p {
      ParenPrinted(e, rest);
    } else if e.Binary? {
      var k := Precedence(e.op);
      var rest1 := [Symbol(e.op)] + Print(e.right, k + 1, rest);
      Tail(Symbol(e.op), Print(e.right, k + 1, rest));
      ResumesRight(e.left, k, q, rest1);
      RightPrinted(e.right, k, rest);
      assert Climb(e.left, rest1, k) == Climb(e, rest, k);
    } else {
      UnaryPrinted(e, rest);
    }
  }

  lemma RightPrinted(e: Expr, q: nat, rest: seq<Token>)
    requires 2 <= q <= 14 && Below(rest, q)
    ensures Right(Print(e, q + 1, rest), q) == Parsed(e, rest)
    decreases e, 5
  {
    ResumesRight(e, q + 1, q, rest);
  }

  lemma {:induction false} BarePrinted(e: Expr, rest: seq<Token>)
    requires Peek(rest).None?
    ensures ParseExpression(PrintBare(e, rest)) == Parsed(e, rest)
    decreases e, 1
  {
    match e
    case Atom(n) => Tail(Operand(n), rest);
    case Unary(p, a) =>
      UnaryPrinted(a, rest);
      Tail(PrefixToken(p), Print(a, 15, rest));
    case Binary(op, l, r) =>
      var q := Precedence(op);
      var rest1 := [Symbol(op)] + Print(r, q + 1, rest);
      Tail(Symbol(op), Print(r, q + 1, rest));
      Resumes(l, q, 0, rest1);
      RightPrinted(r, q, rest);
    case Ternary(c, t, f) =>
      var rest2 := [Colon] + Print(f, 0, rest);
      var rest1 := [Question] + Print(t, 3, rest2);
      Tail(Question, Print(t, 3, rest2));
      Tail(Colon, Print(f, 0, rest));
      Resumes(c, 3, 0, rest1);
      RightPrinted(t, TERNARY, rest2);
      BarePrinted(f, rest);
  }

  /** Parsing the printed tokens of any tree returns that tree. */
  lemma ParsePrint(e: Expr)
    ensures ParseExpression(Print(e, 0, [])) == Parsed(e, [])
  {
    BarePrinted(e, []);
  }

  // ---------- which operator binds more tightly ----------

  /** The binary operators of the language, from the loosest row to the tightest. */
  const LADDER: seq<set<Op>> := [
    {LogicOr}, {LogicXor}, {LogicAnd}, {Op.Or}, {Op.Xor}, {Op.And},
    {TypeEqual, TypeInequal, Equal, Inequal}, {LessEqual, GreaterEqual, Less, Greater},
    {InstanceOf, In}, {SShr, Shl}, {Add, Sub}, {Mul, Div, Mod}]

  /** `q` stands in a tighter row than `p`. */
  ghost predicate Tighter(q: Op, p: Op) {
    exists i, j :: 0 <= i < j < |LADDER| && p in LADDER[i] && q in LADDER[j]
  }

  /** The levels of the table are the rows of the ladder. */
  lemma RowOf(op: Op, i: nat)
    requires i < |LADDER|
    ensures op in LADDER[i] <==> Precedence(op) == i + 3
  {
    if i < 6 { LowerRow(op, i); } else { UpperRow(op, i); }
  }

  lemma LowerRow(op: Op, i: nat)
    requires i < 6
    ensures op in LADDER[i] <==> Precedence(op) == i + 3
  {
    match i
    case 0 => assert LADDER[0] == {LogicOr};
    case 1 => assert LADDER[1] == {LogicXor};
    case 2 => assert LADDER[2] == {LogicAnd};
    case 3 => assert LADDER[3] == {Op.Or};
    case 4 => assert LADDER[4] == {Op.Xor};
    case _ => assert LADDER[5] == {Op.And};
  }

  lemma UpperRow(op: Op, i: nat)
    requires 6 <= i < |LADDER|
    ensures op in LADDER[i] <==> Precedence(op) == i + 3
  {
    match i
    case 6 => assert LADDER[6] == {TypeEqual, TypeInequal, Equal, Inequal};
    case 7 => assert LADDER[7] == {LessEqual, GreaterEqual, Less, Greater};
    case 8 => assert LADDER[8] == {InstanceOf, In};
    case 9 => assert LADDER[9] == {SShr, Shl};
    case 10 => assert LADDER[10] == {Add, Sub};
    case _ => assert LADDER[11] == {Mul, Div, Mod};
  }

  lemma TighterLevel(q: Op, p: Op)
    ensures Tighter(q, p) <==> Precedence(q) > Precedence(p)
  {
    hide Precedence;
    assert |LADDER| == 12;
    RowOf(p, Precedence(p) - 3);
    RowOf(q, Precedence(q) - 3);
    forall i, j | 0 <= i < j < |LADDER| && p in LADDER[i] && q in LADDER[j] ensures Precedence(q) > Precedence(p) {
      RowOf(p, i);
      RowOf(q, j);
    }
  }

  lemma AllTighter()
    ensures forall p, q :: Tighter(q, p) <==> Precedence(q) > Precedence(p)
  {
    hide Tighter, Precedence;
    forall p, q ensures Tighter(q, p) <==> Precedence(q) > Precedence(p) {
      TighterLevel(q, p);
    }
  }

  /** An atom behind any number of prefix operators. */
  predicate IsTerm(e: Expr) {
    e.Atom? || (e.Unary? && IsTerm(e.arg))
  }

  function TermTokens(e: Expr): seq<Token>
    requires IsTerm(e)
  {
    if e.Atom? then [Operand(e.n)] else [PrefixToken(e.pre)] + TermTokens(e.arg)
  }

  /** Terms with operators between them. */
  predicate IsChain(xs: seq<Expr>, ops: seq<Op>) {
    |xs| == |ops| + 1 && forall i :: 0 <= i < |xs| ==> IsTerm(xs[i])
  }

  function ChainTokens(xs: seq<Expr>, ops: seq<Op>): seq<Token>
    requires IsChain(xs, ops)
    decreases |ops|
  {
    if ops == [] then TermTokens(xs[0]) else TermTokens(xs[0]) + [Symbol(ops[0])] + ChainTokens(xs[1..], ops[1..])
  }

  /** The operator that is applied last: none before it is looser, and those behind it are tighter. */
  ghost predicate Outermost(ops: seq<Op>, k: nat) {
    && k < |ops|
    && (forall i :: 0 <= i < k ==> !Tighter(ops[k], ops[i]))
    && (forall i :: k < i < |ops| ==> Tighter(ops[i], ops[k]))
  }

  ghost function Outer(ops: seq<Op>): (k: nat)
    requires ops != []
    ensures k < |ops| && Outermost(ops, k)
  {
    if |ops| == 1 then 0
    else
      var k := Outer(ops[1..]);
      OuterStep(ops, k);
      if Tighter(ops[k + 1], ops[0]) then 0 else k + 1
  }

  lemma OuterStep(ops: seq<Op>, k: nat)
    requires |ops| > 1 && Outermost(ops[1..], k)
    ensures Outermost(ops, if Tighter(ops[k + 1], ops[0]) then 0 else k + 1)
  {
    hide Tighter, Precedence;
    AllTighter();
    assert ops[1..][k] == ops[k + 1];
    forall i | 1 <= i < |ops|
      ensures if i - 1 < k then !Tighter(ops[k + 1], ops[i]) else i - 1 == k || Tighter(ops[i], ops[k + 1])
    {
      assert ops[1..][i - 1] == ops[i];
    }
  }

  /** How a chain is to be grouped: the operator applied last stands at the root. */
  ghost function Group(xs: seq<Expr>, ops: seq<Op>): Expr
    requires |xs| == |ops| + 1
    decreases |ops|
  {
    if ops == [] then xs[0]
    else
      var k := Outer(ops);
      Binary(ops[k], Group(xs[..k + 1], ops[..k]), Group(xs[k + 1..], ops[k + 1..]))
  }

  lemma {:induction false} TermPrinted(e: Expr, min: nat, rest: seq<Token>)
    requires IsTerm(e) && min <= 15
    ensures Print(e, min, rest) == TermTokens(e) + rest
  {
    if e.Unary? {
      TermPrinted(e.arg, 15, rest);
      assert Print(e, min, rest) == [PrefixToken(e.pre)] + Print(e.arg, 15, rest);
      assert TermTokens(e) + rest == [PrefixToken(e.pre)] + (TermTokens(e.arg) + rest);
    }
  }

  lemma {:induction false} ChainSplits(xs: seq<Expr>, ops: seq<Op>, k: nat)
    requires IsChain(xs, ops) && k < |ops|
    ensures ChainTokens(xs, ops) ==
      ChainTokens(xs[..k + 1], ops[..k]) + [Symbol(ops[k])] + ChainTokens(xs[k + 1..], ops[k + 1..])
    decreases k
  {
    if k == 0 {
      assert xs[..1] == [xs[0]] && ops[..0] == [];
    } else {
      ChainSplits(xs[1..], ops[1..], k - 1);
      var l, r := ChainTokens(xs[1..k + 1], ops[1..k]), ChainTokens(xs[k + 1..], ops[k + 1..]);
      assert xs[1..][..k] == xs[1..k + 1] && ops[1..][..k - 1] == ops[1..k];
      assert xs[1..][k..] == xs[k + 1..] && ops[1..][k..] == ops[k + 1..];
      assert xs[..k + 1][1..] == xs[1..k + 1] && ops[..k][1..] == ops[1..k];
      var t, s := TermTokens(xs[0]), [Symbol(ops[0])];
      assert ChainTokens(xs, ops) == t + s + (l + [Symbol(ops[k])] + r);
      assert ChainTokens(xs[..k + 1], ops[..k]) == t + s + l;
    }
  }

  lemma OuterLevels(ops: seq<Op>, k: nat)
    requires Outermost(ops, k)
    ensures forall i :: 0 <= i < k ==> Precedence(ops[k]) <= Precedence(ops[i])
    ensures forall i :: k < i < |ops| ==> Precedence(ops[k]) < Precedence(ops[i])
  {
    hide Tighter, Precedence;
    AllTighter();
  }

  lemma OneTerm(xs: seq<Expr>)
    requires IsChain(xs, [])
    ensures ChainTokens(xs, []) == TermTokens(xs[0])
  {
  }

  lemma JoinPrinted(op: Op, l: Expr, r: Expr, lt: seq<Token>, rt: seq<Token>, min: nat, rest: seq<Token>)
    requires min <= Precedence(op) && Print(r, Precedence(op) + 1, rest) == rt + rest
    requires Print(l, Precedence(op), [Symbol(op)] + (rt + rest)) == lt + ([Symbol(op)] + (rt + rest))
    ensures Print(Binary(op, l, r), min, rest) == (lt + [Symbol(op)] + rt) + rest
  {
    hide Precedence;
    assert lt + ([Symbol(op)] + (rt + rest)) == (lt + [Symbol(op)] + rt) + rest;
  }

  /** Printing a grouped chain needs no parentheses. */
  lemma {:induction false} ChainPrinted(xs: seq<Expr>, ops: seq<Op>, min: nat, rest: seq<Token>)
    requires IsChain(xs, ops) && min <= 15 && forall i :: 0 <= i < |ops| ==> min <= Precedence(ops[i])
    ensures Print(Group(xs, ops), min, rest) == ChainTokens(xs, ops) + rest
    decreases |ops|
  {
    hide Precedence, Tighter, Outermost, IsTerm, Print, ChainTokens;
    if ops == [] {
      TermPrinted(xs[0], min, rest);
      assert ChainTokens(xs, []) == TermTokens(xs[0]) by { OneTerm(xs); }
    } else {
      var k := Outer(ops);
      var p := Precedence(ops[k]);
      OuterLevels(ops, k);
      var l, r := ChainTokens(xs[..k + 1], ops[..k]), ChainTokens(xs[k + 1..], ops[k + 1..]);
      ChainPrinted(xs[k + 1..], ops[k + 1..], p + 1, rest);
      ChainPrinted(xs[..k + 1], ops[..k], p, [Symbol(ops[k])] + (r + rest));
      ChainSplits(xs, ops, k);
      JoinPrinted(ops[k], Group(xs[..k + 1], ops[..k]), Group(xs[k + 1..], ops[k + 1..]), l, r, min, rest);
    }
  }

  lemma LevelsFrom3(ops: seq<Op>)
    ensures forall i :: 0 <= i < |ops| ==> 3 <= Precedence(ops[i])
  {
  }

  /** Every chain of operators and terms is parsed to the tree that the ladder prescribes, where operators of one
      row group from left to right. */
  lemma ChainParsed(xs: seq<Expr>, ops: seq<Op>)
    requires IsChain(xs, ops)
    ensures ParseExpression(ChainTokens(xs, ops)) == Parsed(Group(xs, ops), [])
  {
    ChainPrinted(xs, ops, 0, []);
    ParsePrint(Group(xs, ops));
    assert ChainTokens(xs, ops) + [] == ChainTokens(xs, ops);
  }

  /** `? :` is looser than all of them, and its last operand is any expression, also another `? :`. */
  lemma TernaryParsed(cs: seq<Expr>, cops: seq<Op>, ts: seq<Expr>, tops: seq<Op>, rest: seq<Token>)
    requires IsChain(cs, cops) && IsChain(ts, tops)
    ensures var f := ParseExpression(rest);
      ParseExpression(ChainTokens(cs, cops) + [Question] + ChainTokens(ts, tops) + [Colon] + rest) ==
      if f.Fail? then Fail else Parsed(Ternary(Group(cs, cops), Group(ts, tops), f.e), f.rest)
  {
    hide Precedence, ParseUnary, Group, ChainTokens;
    var c, t := Group(cs, cops), Group(ts, tops);
    var rest2 := [Colon] + rest;
    var rest1 := [Question] + (ChainTokens(ts, tops) + rest2);
    LevelsFrom3(cops);
    LevelsFrom3(tops);
    ChainPrinted(cs, cops, 3, rest1);
    ChainPrinted(ts, tops, 3, rest2);
    assert ChainTokens(cs, cops) + [Question] + ChainTokens(ts, tops) + [Colon] + rest == Print(c, 3, rest1);
    Tail(Question, ChainTokens(ts, tops) + rest2);
    Tail(Colon, rest);
    Resumes(c, 3, 0, rest1);
    RightPrinted(t, TERNARY, rest2);
  }

  /** With two operators, the second one takes the operand between them exactly if it stands in a tighter row. */
  lemma TwoOperators(a: nat, p: Op, b: nat, q: Op, c: nat)
    ensures ParseExpression([Operand(a), Symbol(p), Operand(b), Symbol(q), Operand(c)]) ==
      Parsed(if Tighter(q, p) then Binary(p, Atom(a), Binary(q, Atom(b), Atom(c)))
             else Binary(q, Binary(p, Atom(a), Atom(b)), Atom(c)), [])
  {
    hide Precedence, Tighter, ParseExpression;
    var xs, ops := [Atom(a), Atom(b), Atom(c)], [p, q];
    ChainParsed(xs, ops);
    assert ChainTokens(xs, ops) == [Operand(a)] + [Symbol(p)] + ChainTokens(xs[1..], [q]) by { assert ops[1..] == [q]; }
    OneOperator(xs[1..], q);
    assert ChainTokens(xs, ops) == [Operand(a), Symbol(p), Operand(b), Symbol(q), Operand(c)];
    assert Outer(ops) == if Tighter(q, p) then 0 else 1 by { assert ops[0] == p && ops[1] == q; }
    if Tighter(q, p) {
      assert xs[..1] == [Atom(a)] && ops[..0] == [] && ops[1..] == [q];
    } else {
      OneOperator(xs[..2], p);
      assert ops[..1] == [p] && ops[2..] == [] && xs[2..] == [Atom(c)];
    }
  }

  lemma OneOperator(xs: seq<Expr>, p: Op)
    requires |xs| == 2 && xs[0].Atom? && xs[1].Atom?
    ensures Group(xs, [p]) == Binary(p, xs[0], xs[1])
    ensures ChainTokens(xs, [p]) == [Operand(xs[0].n)] + [Symbol(p)] + [Operand(xs[1].n)]
  {
    assert Outer([p]) == 0;
    assert xs[..1] == [xs[0]] && xs[1..] == [xs[1]] && [p][..0] == [] && [p][1..] == [];
  }

  /** The symbols that are prefix operators too. */
  lemma SignsParsed(a: nat)
    ensures ParseExpression([Symbol(Op.And), Operand(a)]) == Parsed(Unary(Address, Atom(a)), [])
    ensures ParseExpression([Symbol(Mul), Operand(a)]) == Parsed(Unary(Dereference, Atom(a)), [])
    ensures ParseExpression([Symbol(Add), Operand(a)]) == Parsed(Unary(Plus, Atom(a)), [])
    ensures ParseExpression([Symbol(Sub), Operand(a)]) == Parsed(Unary(Minus, Atom(a)), [])
  {
    SignParsed(Address, a);
    SignParsed(Dereference, a);
    SignParsed(Plus, a);
    SignParsed(Minus, a);
  }

  lemma SignParsed(p: Prefix, a: nat)
    ensures ParseExpression([PrefixToken(p), Operand(a)]) == Parsed(Unary(p, Atom(a)), [])
  {
    ParsePrint(Unary(p, Atom(a)));
    assert Print(Unary(p, Atom(a)), 0, []) == [PrefixToken(p), Operand(a)] by { TermPrinted(Unary(p, Atom(a)), 0, []); }
  }

  // ---------- the parser as it runs ----------

  /** code_t, reduced to its tokens: every parse function moves the position. */
  class Cursor {
    const tokens: seq<Token>
    var pos: nat

    constructor (tokens: seq<Token>)
      ensures this.tokens == tokens && pos == 0
    {
      this.tokens, pos := tokens, 0;
    }

    ghost predicate Valid()
      reads this
    {
      pos <= |tokens|
    }

    ghost function Rest(): seq<Token>
      requires Valid()
      reads this
    {
      tokens[pos..]
    }

    /** What a method that consumes tokens returns, in terms of the functions above. */
    ghost predicate Agrees(e: Option<Expr>, r: Result)
      requires Valid()
      reads this
    {
      if r.Fail? then e.None? else e == Some(r.e) && Rest() == r.rest
    }

    method Consume(t: Token) returns (ok: bool)
      requires Valid()
      modifies this`pos
      ensures Valid() && ok == (old(Rest()) != [] && old(Rest())[0] == t)
      ensures if ok then Rest() == old(Rest())[1..] else pos == old(pos)
    {
      ok := pos < |tokens| && tokens[pos] == t;
      if ok {
        pos := pos + 1;
      }
    }

    method PeekOp() returns (p: Option<nat>)
      requires Valid()
      ensures p == Peek(Rest())
    {
      if pos == |tokens| {
        return None;
      }
      match tokens[pos]
      case Symbol(op) => p := Some(Precedence(op));
      case Question => p := Some(TERNARY);
      case _ => p := None;
    }

    method Expression() returns (e: Option<Expr>)
      requires Valid()
      modifies this`pos
      ensures Valid() && Agrees(e, old(ParseExpression(Rest())))
      decreases |tokens| - pos, 1
    {
      e := UnaryExpr();
      if e.Some? {
        e := BinaryExpr(e.value, 0);
      }
    }

    method UnaryExpr() returns (e: Option<Expr>)
      requires Valid()
      modifies this`pos
      ensures Valid() && Agrees(e, old(ParseUnary(Rest())))
      decreases |tokens| - pos, 0
    {
      if pos == |tokens| {
        return None;
      }
      var t := tokens[pos];
      if t.Operand? {
        pos := pos + 1;
        return Some(Atom(t.n));
      }
      if PrefixOf(t).Some? {
        pos := pos + 1;
        e := UnaryExpr();
        return if e.Some? then Some(Unary(PrefixOf(t).value, e.value)) else None;
      }
      if t.Open? {
        pos := pos + 1;
        e := Expression();
        if e.Some? {
          var ok := Consume(Close);
          if !ok {
            e := None;
          }
        }
        return;
      }
      e := None;
    }

    method BinaryExpr(left: Expr, minPrec: nat) returns (e: Option<Expr>)
      requires Valid()
      modifies this`pos
      ensures Valid() && Agrees(e, old(Climb(left, Rest(), minPrec)))
      decreases |tokens| - pos, 0
    {
      hide ParseUnary, ParseExpression, Precedence;
      ghost var goal := Climb(left, Rest(), minPrec);
      var l := left;
      var ahead := PeekOp();
      while ahead.Some? && ahead.value >= minPrec
        invariant Valid() && old(pos) <= pos
        invariant (ahead == Peek(Rest()) && Climb(l, Rest(), minPrec) == goal) || (ahead.None? && goal == Parsed(l, Rest()))
        decreases |tokens| - pos, ahead.Some?
      {
        var op := tokens[pos];
        pos := pos + 1;
        var right := RightOperand(ahead.value);
        if right.None? {
          return None;
        }
        ahead := PeekOp();
        if op.Question? {
          var ok := Consume(Colon);
          if !ok {
            return None;
          }
          var f := Expression();
          if f.None? {
            return None;
          }
          l := Ternary(l, right.value, f.value);
        } else {
          l := Binary(op.op, l, right.value);
        }
      }
      e := Some(l);
    }

    method RightOperand(prec: nat) returns (e: Option<Expr>)
      requires Valid()
      modifies this`pos
      ensures Valid() && Agrees(e, old(Right(Rest(), prec)))
      decreases |tokens| - pos, 2
    {
      ghost var goal := Right(Rest(), prec);
      e := UnaryExpr();
      if e.None? {
        return;
      }
      var right := e.value;
      var ahead := PeekOp();
      while ahead.Some? && ahead.value > prec
        invariant Valid() && old(pos) < pos && ahead == Peek(Rest()) && Absorb(right, Rest(), prec) == goal
        decreases |tokens| - pos
      {
        e := BinaryExpr(right, ahead.value);
        if e.None? {
          return;
        }
        right := e.value;
        ahead := PeekOp();
      }
      e := Some(right);
    }
  }

  /** The tokens of any tree, printed with as few parentheses as its operators allow, are parsed to that
      tree, and all of them are consumed. */
  method ParsePrinted(e: Expr) returns (r: Option<Expr>, all: bool)
    ensures r == Some(e) && all
  {
    ParsePrint(e);
    var c := new Cursor(Print(e, 0, []));
    assert c.Rest() == Print(e, 0, []);
    r := c.Expression();
    all := c.pos == |c.tokens|;
  }
}
