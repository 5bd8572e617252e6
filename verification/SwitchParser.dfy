/** How the parser attaches bodies to the cases of a switch (parser/ast.c, parseSwitchCase). */
module SwitchParser {
  import opened Basics
  import opened Statements

  /** What stands between the braces: `case` with its ranges, `default`, or a statement. */
  datatype Token = CaseHead(ranges: seq<Range>) | DefaultHead | Statement(s: Stmt)

  datatype Case = Case(range: Range, body: Option<seq<Stmt>>)

  /** Null stands for a body or a default that is missing. */
  datatype Parsed = Parsed(cases: seq<Case>, dflt: Option<seq<Stmt>>, min: int, max: int)

  // ---------- what the parser computes ----------

  /** The end of the arm that starts before `i`. */
  function ArmEnd(ts: seq<Token>, i: nat): (k: nat)
    requires i <= |ts|
    ensures i <= k <= |ts| && (forall j :: i <= j < k ==> ts[j].Statement?) && (k < |ts| ==> !ts[k].Statement?)
    decreases |ts| - i
  {
    if i == |ts| || !ts[i].Statement? then i else ArmEnd(ts, i + 1)
  }

  /** The statements directly before `k`. */
  function Run(ts: seq<Token>, k: nat): seq<Stmt>
    requires k <= |ts|
  {
    if k == 0 || !ts[k - 1].Statement? then [] else Run(ts, k - 1) + [ts[k - 1].s]
  }

  /** bodyStart when the parser is at `k`: the last statements before, even if heads came after them. */
  function LastRun(ts: seq<Token>, k: nat): Option<seq<Stmt>>
    requires k <= |ts|
  {
    if k == 0 then None
    else if ts[k - 1].Statement? then Some(Run(ts, k))
    else LastRun(ts, k - 1)
  }

  function Attach(ranges: seq<Range>, body: Option<seq<Stmt>>): (r: seq<Case>)
    ensures |r| == |ranges| && forall i :: 0 <= i < |ranges| ==> r[i] == Case(ranges[i], body)
  {
    seq(|ranges|, i requires 0 <= i < |ranges| => Case(ranges[i], body))
  }

  /** The cases from position `i` on. */
  function CasesFrom(ts: seq<Token>, i: nat): seq<Case>
    requires i <= |ts|
    decreases |ts| - i
  {
    if i == |ts| then []
    else (if ts[i].CaseHead? then Attach(ts[i].ranges, LastRun(ts, ArmEnd(ts, i + 1))) else []) + CasesFrom(ts, i + 1)
  }

  function DefaultFrom(ts: seq<Token>, i: nat): Option<seq<Stmt>>
    requires i <= |ts|
    decreases |ts| - i
  {
    if i == |ts| then None
    else if ts[i].DefaultHead? then LastRun(ts, ArmEnd(ts, i + 1))
    else DefaultFrom(ts, i + 1)
  }

  function RangesFrom(ts: seq<Token>, i: nat): seq<Range>
    requires i <= |ts|
    decreases |ts| - i
  {
    if i == |ts| then [] else (if ts[i].CaseHead? then ts[i].ranges else []) + RangesFrom(ts, i + 1)
  }

  /** A second `default` is a syntax error. */
  ghost predicate TwoDefaults(ts: seq<Token>, n: nat)
    requires n <= |ts|
  {
    exists i, j :: 0 <= i < j < n && ts[i].DefaultHead? && ts[j].DefaultHead?
  }

  // ---------- the parser's loop ----------

  /** The cases, with `body` for those from number `filled` on. */
  function Filled(cases: seq<Case>, filled: nat, body: Option<seq<Stmt>>): (r: seq<Case>)
    requires filled <= |cases|
    ensures |r| == |cases|
  {
    cases[..filled] + seq(|cases| - filled, i requires 0 <= i < |cases| - filled => cases[filled + i].(body := body))
  }

  lemma MinOfJoin(a: seq<Range>, b: seq<Range>, m: int)
    ensures MinOf(a + b, m) == MinOf(b, MinOf(a, m)) && MaxOf(a + b, m) == MaxOf(b, MaxOf(a, m))
    decreases |a|
  {
    if a == [] {
      assert a + b == b;
    } else {
      assert (a + b)[1..] == a[1..] + b;
      MinOfJoin(a[1..], b, if a[0].min < m then a[0].min else m);
      MinOfJoin(a[1..], b, if a[0].max > m then a[0].max else m);
    }
  }

  // What holds before the token at `i` is read.

  ghost predicate BodyAt(ts: seq<Token>, i: nat, bodyStart: Option<seq<Stmt>>, inBody: bool)
    requires i <= |ts|
  {
    && bodyStart == LastRun(ts, i) && inBody == (i > 0 && ts[i - 1].Statement?)
    && (inBody ==> bodyStart == Some(Run(ts, i)))
  }

  ghost predicate CasesAt(ts: seq<Token>, i: nat, cases: seq<Case>, filled: nat)
    requires i <= |ts|
  {
    filled <= |cases| && Filled(cases, filled, LastRun(ts, ArmEnd(ts, i))) + CasesFrom(ts, i) == CasesFrom(ts, 0)
  }

  ghost predicate ExtremesAt(ts: seq<Token>, i: nat, min: int, max: int)
    requires i <= |ts|
  {
    && MinOf(RangesFrom(ts, i), min) == MinOf(RangesFrom(ts, 0), INT64_MAX)
    && MaxOf(RangesFrom(ts, i), max) == MaxOf(RangesFrom(ts, 0), INT64_MIN)
  }

  ghost predicate DefaultAt(ts: seq<Token>, i: nat, isDefault: int, dflt: Option<seq<Stmt>>)
    requires i <= |ts|
  {
    && (isDefault == 0 || isDefault == 2 || isDefault == 3) && !TwoDefaults(ts, i)
    && (isDefault == 0 <==> forall k :: 0 <= k < i ==> !ts[k].DefaultHead?)
    && (isDefault == 0 ==> dflt == None && DefaultFrom(ts, 0) == DefaultFrom(ts, i))
    && (isDefault == 2 ==> DefaultFrom(ts, 0) == LastRun(ts, ArmEnd(ts, i)))
    && (isDefault == 3 ==> dflt == DefaultFrom(ts, 0))
  }

  lemma BodyNext(ts: seq<Token>, i: nat, bodyStart: Option<seq<Stmt>>, inBody: bool)
    requires i < |ts| && BodyAt(ts, i, bodyStart, inBody)
    ensures ts[i].Statement? ==> BodyAt(ts, i + 1, Some((if inBody then bodyStart.value else []) + [ts[i].s]), true)
    ensures !ts[i].Statement? ==> BodyAt(ts, i + 1, bodyStart, false)
  {
    assert Run(ts, i) == if inBody then bodyStart.value else [];
  }

  lemma CasesNext(ts: seq<Token>, i: nat, cases: seq<Case>, filled: nat)
    requires i < |ts| && CasesAt(ts, i, cases, filled)
    ensures ts[i].Statement? ==> CasesAt(ts, i + 1, cases, filled)
    ensures !ts[i].Statement? ==>
      var all := Filled(cases, filled, LastRun(ts, i)) + if ts[i].CaseHead? then Attach(ts[i].ranges, None) else [];
      CasesAt(ts, i + 1, all, |cases|)
  {
    CasesStep(ts, i);
    hide LastRun, CasesFrom, ArmEnd, Attach;
    if !ts[i].Statement? {
      var end := LastRun(ts, ArmEnd(ts, i + 1));
      var ranges := if ts[i].CaseHead? then ts[i].ranges else [];
      var done := Filled(cases, filled, LastRun(ts, i));
      FilledAttach(done, ranges, end);
      JoinCases(done, Attach(ranges, end), CasesFrom(ts, i + 1));
    }
  }

  lemma JoinCases(a: seq<Case>, b: seq<Case>, c: seq<Case>)
    ensures (a + b) + c == a + (b + c)
  {
  }

  lemma CasesStep(ts: seq<Token>, i: nat)
    requires i < |ts|
    ensures ts[i].Statement? ==> CasesFrom(ts, i) == CasesFrom(ts, i + 1) && ArmEnd(ts, i) == ArmEnd(ts, i + 1)
    ensures !ts[i].Statement? ==>
      && ArmEnd(ts, i) == i && Attach([], None) == []
      && CasesFrom(ts, i) ==
         Attach(if ts[i].CaseHead? then ts[i].ranges else [], LastRun(ts, ArmEnd(ts, i + 1))) + CasesFrom(ts, i + 1)
  {
    assert Attach([], LastRun(ts, ArmEnd(ts, i + 1))) == [];
  }

  lemma FilledAttach(done: seq<Case>, ranges: seq<Range>, body: Option<seq<Stmt>>)
    ensures Filled(done + Attach(ranges, None), |done|, body) == done + Attach(ranges, body)
  {
  }

  lemma ExtremesNext(ts: seq<Token>, i: nat, min: int, max: int)
    requires i < |ts| && ExtremesAt(ts, i, min, max)
    ensures ExtremesAt(ts, i + 1, if ts[i].CaseHead? then MinOf(ts[i].ranges, min) else min,
                       if ts[i].CaseHead? then MaxOf(ts[i].ranges, max) else max)
  {
    var rest := RangesFrom(ts, i + 1);
    if ts[i].CaseHead? {
      MinOfJoin(ts[i].ranges, rest, min);
      MinOfJoin(ts[i].ranges, rest, max);
    } else {
      assert [] + rest == rest;
    }
  }

  lemma DefaultNext(ts: seq<Token>, i: nat, isDefault: int, dflt: Option<seq<Stmt>>)
    requires i < |ts| && DefaultAt(ts, i, isDefault, dflt)
    ensures ts[i].Statement? ==> DefaultAt(ts, i + 1, isDefault, dflt)
    ensures ts[i].CaseHead? ==>
      if isDefault == 2 then DefaultAt(ts, i + 1, 3, LastRun(ts, i)) else DefaultAt(ts, i + 1, isDefault, dflt)
    ensures ts[i].DefaultHead? && isDefault == 0 ==> DefaultAt(ts, i + 1, 2, dflt)
    ensures ts[i].DefaultHead? && isDefault != 0 ==> TwoDefaults(ts, |ts|)
  {
    if isDefault != 0 && ts[i].DefaultHead? {
      var k :| 0 <= k < i && ts[k].DefaultHead?;
    }
  }

  method Parse(ts: seq<Token>) returns (r: Option<Parsed>)
    ensures r.None? <==> TwoDefaults(ts, |ts|)
    ensures r.Some? ==>
      r.value == Parsed(CasesFrom(ts, 0), DefaultFrom(ts, 0), MinOf(RangesFrom(ts, 0), INT64_MAX), MaxOf(RangesFrom(ts, 0), INT64_MIN))
  {
    var isDefault := 0;
    var bodyStart: Option<seq<Stmt>> := None;
    var inBody := false;
    var cases: seq<Case> := [];
    var filled: nat := 0;
    var dflt: Option<seq<Stmt>> := None;
    var min, max := INT64_MAX, INT64_MIN;
    var i: nat := 0;
    Begins(ts);
    hide BodyAt, CasesAt, ExtremesAt, DefaultAt, LastRun, ArmEnd, Run, Attach, MinOf, MaxOf, Filled, CasesFrom, DefaultFrom, RangesFrom, TwoDefaults;
    while i < |ts|
      invariant i <= |ts| && BodyAt(ts, i, bodyStart, inBody) && CasesAt(ts, i, cases, filled)
      invariant ExtremesAt(ts, i, min, max) && DefaultAt(ts, i, isDefault, dflt)
    {
      BodyNext(ts, i, bodyStart, inBody);
      DefaultNext(ts, i, isDefault, dflt);
      Facts(ts, i, bodyStart, inBody, cases, filled);
      if ts[i].Statement? {
        CasesNext(ts, i, cases, filled);
        ExtremesNext(ts, i, min, max);
        bodyStart := Some((if inBody then bodyStart.value else []) + [ts[i].s]);
        inBody := true;
      } else if ts[i].DefaultHead? && isDefault != 0 {
        return None;
      } else {
        isDefault, dflt := EndDefault(ts, i, isDefault, dflt, bodyStart);
        cases, filled, min, max := TakeHead(ts, i, bodyStart, cases, filled, min, max);
        inBody := false;
      }
      i := i + 1;
    }
    Ends(ts, bodyStart, inBody, cases, filled, min, max, isDefault, dflt);
    if isDefault == 2 {
      dflt := bodyStart;
    }
    cases := FillCases(cases, filled, bodyStart);
    r := Some(Parsed(cases, dflt, min, max));
  }

  /** At a head: the default that was being read is complete, and that of a `default` begins. */
  method EndDefault(ts: seq<Token>, i: nat, isDefault: int, dflt: Option<seq<Stmt>>, bodyStart: Option<seq<Stmt>>)
    returns (now: int, done: Option<seq<Stmt>>)
    requires i < |ts| && !ts[i].Statement? && DefaultAt(ts, i, isDefault, dflt) && bodyStart == LastRun(ts, i)
    requires !(ts[i].DefaultHead? && isDefault != 0)
    ensures DefaultAt(ts, i + 1, now, done)
  {
    hide DefaultAt, LastRun;
    DefaultNext(ts, i, isDefault, dflt);
    now, done := isDefault, dflt;
    if now == 2 {
      done := bodyStart;
      now := 3;
    }
    if ts[i].DefaultHead? {
      now := 2;
    }
  }

  /** At a head: the cases that had no body yet get the one that ends here, and those of a `case` follow. */
  method TakeHead(ts: seq<Token>, i: nat, bodyStart: Option<seq<Stmt>>, cases: seq<Case>, filled: nat, min0: int, max0: int)
    returns (all: seq<Case>, from: nat, min: int, max: int)
    requires i < |ts| && !ts[i].Statement? && filled <= |cases| && bodyStart == LastRun(ts, i)
    requires CasesAt(ts, i, cases, filled) && ExtremesAt(ts, i, min0, max0)
    ensures CasesAt(ts, i + 1, all, from) && ExtremesAt(ts, i + 1, min, max)
  {
    hide CasesAt, ExtremesAt, LastRun, MinOf, MaxOf, Filled;
    CasesNext(ts, i, cases, filled);
    ExtremesNext(ts, i, min0, max0);
    all := FillCases(cases, filled, bodyStart);
    from, min, max := |all|, min0, max0;
    if ts[i].CaseHead? {
      all := all + Attach(ts[i].ranges, None);
      min, max := Extremes(ts[i].ranges, min, max);
    } else {
      assert all + [] == all;
    }
  }

  lemma Begins(ts: seq<Token>)
    ensures BodyAt(ts, 0, None, false) && CasesAt(ts, 0, [], 0)
    ensures ExtremesAt(ts, 0, INT64_MAX, INT64_MIN) && DefaultAt(ts, 0, 0, None)
  {
  }

  lemma Facts(ts: seq<Token>, i: nat, bodyStart: Option<seq<Stmt>>, inBody: bool, cases: seq<Case>, filled: nat)
    requires i <= |ts| && BodyAt(ts, i, bodyStart, inBody) && CasesAt(ts, i, cases, filled)
    ensures bodyStart == LastRun(ts, i) && (inBody ==> bodyStart.Some?) && filled <= |cases|
  {
  }

  lemma Ends(ts: seq<Token>, bodyStart: Option<seq<Stmt>>, inBody: bool, cases: seq<Case>, filled: nat, min: int, max: int,
             isDefault: int, dflt: Option<seq<Stmt>>)
    requires BodyAt(ts, |ts|, bodyStart, inBody) && CasesAt(ts, |ts|, cases, filled)
    requires ExtremesAt(ts, |ts|, min, max) && DefaultAt(ts, |ts|, isDefault, dflt)
    ensures filled <= |cases| && Filled(cases, filled, bodyStart) == CasesFrom(ts, 0)
    ensures min == MinOf(RangesFrom(ts, 0), INT64_MAX) && max == MaxOf(RangesFrom(ts, 0), INT64_MIN)
    ensures DefaultFrom(ts, 0) == (if isDefault == 2 then bodyStart else dflt) && !TwoDefaults(ts, |ts|)
  {
    assert ts[..|ts|] == ts;
  }

  method FillCases(cases: seq<Case>, from: nat, body: Option<seq<Stmt>>) returns (r: seq<Case>)
    requires from <= |cases|
    ensures r == Filled(cases, from, body)
  {
    r := cases;
    var k := from;
    while k < |r|
      invariant from <= k <= |r| == |cases|
      invariant forall j :: 0 <= j < |r| ==> r[j] == if from <= j < k then cases[j].(body := body) else cases[j]
    {
      r := r[k := r[k].(body := body)];
      k := k + 1;
    }
  }

  method Extremes(ranges: seq<Range>, min0: int, max0: int) returns (min: int, max: int)
    ensures min == MinOf(ranges, min0) && max == MaxOf(ranges, max0)
  {
    min, max := min0, max0;
    var k := 0;
    assert ranges[0..] == ranges;
    while k < |ranges|
      invariant 0 <= k <= |ranges|
      invariant MinOf(ranges[k..], min) == MinOf(ranges, min0) && MaxOf(ranges[k..], max) == MaxOf(ranges, max0)
    {
      assert ranges[k..][1..] == ranges[k + 1..];
      if ranges[k].min < min { min := ranges[k].min; }
      if ranges[k].max > max { max := ranges[k].max; }
      k := k + 1;
    }
  }

  // ---------- which arms get their own statements ----------

  /** The statements of the arm whose head is at `h`. */
  function Own(ts: seq<Token>, h: nat): Option<seq<Stmt>>
    requires h < |ts|
  {
    if ArmEnd(ts, h + 1) == h + 1 then None else Some(Run(ts, ArmEnd(ts, h + 1)))
  }

  lemma RunEnds(ts: seq<Token>, i: nat)
    requires 0 < i <= |ts| && !ts[i - 1].Statement?
    ensures var k := ArmEnd(ts, i); LastRun(ts, k) == if k == i then LastRun(ts, i - 1) else Some(Run(ts, k))
  {
    var k := ArmEnd(ts, i);
    if k > i {
      assert ts[k - 1].Statement?;
    }
  }

  /** An arm gets exactly its own statements if and only if it has some, or no statement stands before it: an
      empty arm gets the statements of an earlier one. */
  lemma BodyExact(ts: seq<Token>, h: nat)
    requires h < |ts| && !ts[h].Statement?
    ensures LastRun(ts, ArmEnd(ts, h + 1)) == Own(ts, h) <==>
      Own(ts, h).Some? || forall k :: 0 <= k < h ==> !ts[k].Statement?
  {
    RunEnds(ts, h + 1);
    NoneBefore(ts, h);
  }

  lemma {:induction false} NoneBefore(ts: seq<Token>, h: nat)
    requires h <= |ts|
    ensures LastRun(ts, h).None? <==> forall k :: 0 <= k < h ==> !ts[k].Statement?
  {
    if h > 0 && !ts[h - 1].Statement? {
      NoneBefore(ts, h - 1);
    }
  }

  // ---------- a switch as its arms ----------

  /** A head, which is no statement, the statements behind it, and the other arms. */
  datatype Arms = NoArm | Arm(head: Token, own: seq<Stmt>, next: Arms)

  function StatementTokens(l: seq<Stmt>): (r: seq<Token>)
    ensures |r| == |l| && forall i :: 0 <= i < |l| ==> r[i] == Statement(l[i])
  {
    seq(|l|, i requires 0 <= i < |l| => Statement(l[i]))
  }

  function Tokens(arms: Arms): seq<Token> {
    if arms.NoArm? then [] else [arms.head] + StatementTokens(arms.own) + Tokens(arms.next)
  }

  predicate Headed(arms: Arms) {
    arms.Arm? ==> !arms.head.Statement? && Headed(arms.next)
  }

  /** The statements of an arm: its own, or those before it if it has none. */
  function Takes(own: seq<Stmt>, before: Option<seq<Stmt>>): Option<seq<Stmt>> {
    if own == [] then before else Some(own)
  }

  function ArmCases(arms: Arms, before: Option<seq<Stmt>>): seq<Case> {
    if arms.NoArm? then []
    else
      var body := Takes(arms.own, before);
      (if arms.head.CaseHead? then Attach(arms.head.ranges, body) else []) + ArmCases(arms.next, body)
  }

  function ArmDefault(arms: Arms, before: Option<seq<Stmt>>): Option<seq<Stmt>> {
    if arms.NoArm? then None
    else
      var body := Takes(arms.own, before);
      if arms.head.DefaultHead? then body else ArmDefault(arms.next, body)
  }

  /** From position `k` on, where the arms begin. */
  lemma {:induction false} ArmsFrom(ts: seq<Token>, k: nat, arms: Arms)
    requires Headed(arms) && k <= |ts| && ts[k..] == Tokens(arms)
    ensures CasesFrom(ts, k) == ArmCases(arms, LastRun(ts, k)) && DefaultFrom(ts, k) == ArmDefault(arms, LastRun(ts, k))
    decreases arms
  {
    hide CasesFrom, DefaultFrom, LastRun, Run;
    if arms.NoArm? {
      NothingFrom(ts);
    } else {
      var k1 := k + 1 + |arms.own|;
      FirstArm(ts, k, arms);
      ArmsFrom(ts, k1, arms.next);
      OwnRun(ts, k, arms.own, k1);
      PastOwn(ts, k + 1, k1);
      OneArm(ts, k);
    }
  }

  lemma FirstArm(ts: seq<Token>, k: nat, arms: Arms)
    requires Headed(arms) && arms.Arm? && k <= |ts| && ts[k..] == Tokens(arms)
    ensures var k1 := k + 1 + |arms.own|;
      && k1 <= |ts| && ts[k] == arms.head && ts[k1..] == Tokens(arms.next)
      && (forall j :: 0 <= j < |arms.own| ==> ts[k + 1 + j] == Statement(arms.own[j]))
      && (k1 < |ts| ==> !ts[k1].Statement?)
  {
    var here := [arms.head] + StatementTokens(arms.own);
    SplitAt(ts, k, here, Tokens(arms.next));
    assert ts[k + 0] == here[0];
    forall j | 0 <= j < |arms.own| ensures ts[k + 1 + j] == Statement(arms.own[j]) {
      assert ts[k + (1 + j)] == here[1 + j];
    }
    if arms.next.Arm? {
      assert Tokens(arms.next)[0] == arms.next.head;
    }
  }

  lemma SplitAt(ts: seq<Token>, k: nat, a: seq<Token>, b: seq<Token>)
    requires k <= |ts| && ts[k..] == a + b
    ensures k + |a| <= |ts| && ts[k + |a|..] == b && forall j :: 0 <= j < |a| ==> ts[k + j] == a[j]
  {
    assert |a + b| == |ts| - k;
    forall j | 0 <= j < |a| ensures ts[k + j] == a[j] {
      assert ts[k..][j] == (a + b)[j];
    }
    forall j | 0 <= j < |b| ensures ts[k + |a|..][j] == b[j] {
      assert ts[k..][|a| + j] == (a + b)[|a| + j];
    }
  }

  lemma NothingFrom(ts: seq<Token>)
    ensures CasesFrom(ts, |ts|) == [] && DefaultFrom(ts, |ts|) == None
  {
  }

  lemma OneArm(ts: seq<Token>, k: nat)
    requires k < |ts| && !ts[k].Statement?
    ensures var body := LastRun(ts, ArmEnd(ts, k + 1));
      && CasesFrom(ts, k) == (if ts[k].CaseHead? then Attach(ts[k].ranges, body) else []) + CasesFrom(ts, k + 1)
      && DefaultFrom(ts, k) == if ts[k].DefaultHead? then body else DefaultFrom(ts, k + 1)
  {
  }

  /** Statements add no cases. */
  lemma {:induction false} PastOwn(ts: seq<Token>, i: nat, k: nat)
    requires i <= k <= |ts| && (forall j :: i <= j < k ==> ts[j].Statement?)
    ensures CasesFrom(ts, i) == CasesFrom(ts, k) && DefaultFrom(ts, i) == DefaultFrom(ts, k)
    decreases k - i
  {
    if i < k {
      PastOwn(ts, i + 1, k);
      assert CasesFrom(ts, i) == [] + CasesFrom(ts, i + 1);
    }
  }

  lemma OwnRun(ts: seq<Token>, h: nat, own: seq<Stmt>, k: nat)
    requires k == h + 1 + |own| <= |ts| && !ts[h].Statement? && (k < |ts| ==> !ts[k].Statement?)
    requires forall j :: 0 <= j < |own| ==> ts[h + 1 + j] == Statement(own[j])
    ensures ArmEnd(ts, h + 1) == k && LastRun(ts, k) == Takes(own, LastRun(ts, h))
  {
    hide LastRun, Run, ArmEnd;
    forall j | h + 1 <= j < k ensures ts[j].Statement? {
      assert ts[h + 1 + (j - h - 1)] == Statement(own[j - h - 1]);
    }
    ArmEnds(ts, h + 1, k);
    RunsOf(ts, h + 1, own, k);
    AfterHead(ts, h + 1, k);
  }

  lemma AfterHead(ts: seq<Token>, n: nat, k: nat)
    requires 0 < n <= k <= |ts| && !ts[n - 1].Statement? && forall j :: n <= j < k ==> ts[j].Statement?
    ensures LastRun(ts, k) == if k == n then LastRun(ts, n - 1) else Some(Run(ts, k))
  {
  }

  lemma {:induction false} ArmEnds(ts: seq<Token>, i: nat, k: nat)
    requires i <= k <= |ts| && (forall j :: i <= j < k ==> ts[j].Statement?) && (k < |ts| ==> !ts[k].Statement?)
    ensures ArmEnd(ts, i) == k
    decreases k - i
  {
    if i < k {
      ArmEnds(ts, i + 1, k);
    }
  }

  lemma {:induction false} RunsOf(ts: seq<Token>, i: nat, own: seq<Stmt>, k: nat)
    requires 0 < i <= k <= |ts| && k == i + |own| && !ts[i - 1].Statement?
    requires forall j :: 0 <= j < |own| ==> ts[i + j] == Statement(own[j])
    ensures Run(ts, k) == own
    decreases |own|
  {
    if own != [] {
      var n := |own| - 1;
      RunsOf(ts, i, own[..n], k - 1);
      assert own == own[..n] + [own[n]];
    }
  }

  /** The parser gives every case the statements of its arm, and so it does for the default; an arm that has none
      gets those of the last arm before it that has some. */
  lemma ArmsParsed(arms: Arms)
    requires Headed(arms)
    ensures CasesFrom(Tokens(arms), 0) == ArmCases(arms, None) && DefaultFrom(Tokens(arms), 0) == ArmDefault(arms, None)
  {
    ArmsFrom(Tokens(arms), 0, arms);
  }

  // ---------- the groups that the generator makes of the cases ----------

  function ListOf(body: seq<Stmt>): StmtList {
    if body == [] then End else Node(body[0], ListOf(body[1..]))
  }

  function Entries(l: StmtList): seq<Stmt> {
    if l.End? then [] else [l.entry] + Entries(l.next)
  }

  /** The list has the statements in their order. */
  lemma {:induction false} ListHas(body: seq<Stmt>)
    ensures Entries(ListOf(body)) == body
  {
    if body != [] {
      ListHas(body[1..]);
      assert body == [body[0]] + body[1..];
    }
  }

  function BodyOf(body: seq<Stmt>): Stmt {
    Body(ListOf(body))
  }

  /** The groups take the cases in their order, and the cases of a group have its body. */
  ghost predicate Groups(gs: GroupList, cases: seq<Case>)
    decreases gs
  {
    match gs
    case NoGroup => cases == []
    case Group(rs, body, next) =>
      && |rs| <= |cases| && Groups(next, cases[|rs|..])
      && forall i :: 0 <= i < |rs| ==> cases[i].range == rs[i] && cases[i].body.Some? && BodyOf(cases[i].body.value) == body
  }

  /** The body of the first case that contains `v`. */
  function FirstBody(cases: seq<Case>, v: int): Option<Stmt>
    requires forall i :: 0 <= i < |cases| ==> cases[i].body.Some?
  {
    if cases == [] then None
    else if In(v, cases[0].range) then Some(BodyOf(cases[0].body.value))
    else FirstBody(cases[1..], v)
  }

  function Ranges(cases: seq<Case>): seq<Range> {
    if cases == [] then [] else [cases[0].range] + Ranges(cases[1..])
  }

  lemma {:induction false} GroupsBodies(gs: GroupList, cases: seq<Case>)
    requires Groups(gs, cases)
    ensures forall i :: 0 <= i < |cases| ==> cases[i].body.Some?
    decreases gs
  {
    if gs.Group? {
      GroupsBodies(gs.next, cases[|gs.ranges|..]);
      assert forall i :: |gs.ranges| <= i < |cases| ==> cases[i] == cases[|gs.ranges|..][i - |gs.ranges|];
    }
  }

  /** However consecutive cases with the same body are joined to groups: a value selects the body of the first
      case that contains it, and the number of cases and their extremes are those of the parser. */
  lemma {:induction false} GroupsSelect(gs: GroupList, cases: seq<Case>, v: int, lo: int, hi: int)
    requires Groups(gs, cases)
    ensures forall i :: 0 <= i < |cases| ==> cases[i].body.Some?
    ensures Select(gs, v) == FirstBody(cases, v) && CaseCount(gs) == |cases|
    ensures TotalMin(gs, lo) == MinOf(Ranges(cases), lo) && TotalMax(gs, hi) == MaxOf(Ranges(cases), hi)
    decreases gs
  {
    GroupsBodies(gs, cases);
    if gs.Group? {
      var k := |gs.ranges|;
      GroupsSelect(gs.next, cases[k..], v, MinOf(gs.ranges, lo), MaxOf(gs.ranges, hi));
      FirstSplit(gs.ranges, cases, gs.body, v);
      RangesSplit(gs.ranges, cases);
      MinOfJoin(gs.ranges, Ranges(cases[k..]), lo);
      MinOfJoin(gs.ranges, Ranges(cases[k..]), hi);
    }
  }

  lemma {:induction false} FirstSplit(rs: seq<Range>, cases: seq<Case>, body: Stmt, v: int)
    requires |rs| <= |cases| && forall i :: 0 <= i < |cases| ==> cases[i].body.Some?
    requires forall i :: 0 <= i < |rs| ==> cases[i].range == rs[i] && BodyOf(cases[i].body.value) == body
    ensures FirstBody(cases, v) == if InSome(v, rs) then Some(body) else FirstBody(cases[|rs|..], v)
    decreases |rs|
  {
    if rs == [] {
      assert cases[0..] == cases;
    } else {
      FirstSplit(rs[1..], cases[1..], body, v);
      assert cases[1..][|rs| - 1..] == cases[|rs|..];
      assert InSome(v, rs) <==> In(v, rs[0]) || InSome(v, rs[1..]) by {
        assert forall i :: 1 <= i < |rs| ==> rs[i] == rs[1..][i - 1];
        if InSome(v, rs[1..]) {
          var i :| 0 <= i < |rs| - 1 && In(v, rs[1..][i]);
          assert In(v, rs[i + 1]);
        }
      }
    }
  }

  lemma {:induction false} RangesSplit(rs: seq<Range>, cases: seq<Case>)
    requires |rs| <= |cases| && forall i :: 0 <= i < |rs| ==> cases[i].range == rs[i]
    ensures Ranges(cases) == rs + Ranges(cases[|rs|..])
    decreases |rs|
  {
    if rs == [] {
      assert cases[0..] == cases;
    } else {
      RangesSplit(rs[1..], cases[1..]);
      assert cases[1..][|rs| - 1..] == cases[|rs|..];
      assert rs == [rs[0]] + rs[1..];
    }
  }

  lemma {:induction false} RangesFromCases(ts: seq<Token>, i: nat)
    requires i <= |ts|
    ensures Ranges(CasesFrom(ts, i)) == RangesFrom(ts, i)
    decreases |ts| - i
  {
    hide CasesFrom, LastRun, ArmEnd, Attach, Ranges;
    if i == |ts| {
      NothingFrom(ts);
      assert Ranges([]) == [] by { NoRanges(); }
    } else {
      RangesFromCases(ts, i + 1);
      CasesStep(ts, i);
      if !ts[i].Statement? {
        var rs := if ts[i].CaseHead? then ts[i].ranges else [];
        AttachedRanges(rs, LastRun(ts, ArmEnd(ts, i + 1)), CasesFrom(ts, i + 1));
      }
    }
  }

  lemma NoRanges()
    ensures Ranges([]) == []
  {
  }

  lemma AttachedRanges(rs: seq<Range>, body: Option<seq<Stmt>>, rest: seq<Case>)
    ensures Ranges(Attach(rs, body) + rest) == rs + Ranges(rest)
  {
    hide Ranges;
    var all := Attach(rs, body) + rest;
    RangesSplit(rs, all);
    assert all[|rs|..] == rest;
  }

  /** So a switch that was parsed runs, for every value, the body of the first of its cases, and its table has
      the extremes that the parser computed. */
  lemma ParsedSelect(ts: seq<Token>, gs: GroupList, v: int)
    requires Groups(gs, CasesFrom(ts, 0))
    ensures forall i :: 0 <= i < |CasesFrom(ts, 0)| ==> CasesFrom(ts, 0)[i].body.Some?
    ensures Select(gs, v) == FirstBody(CasesFrom(ts, 0), v) && CaseCount(gs) == |CasesFrom(ts, 0)|
    ensures SwitchMin(gs) == MinOf(RangesFrom(ts, 0), INT64_MAX) && SwitchMax(gs) == MaxOf(RangesFrom(ts, 0), INT64_MIN)
  {
    GroupsSelect(gs, CasesFrom(ts, 0), v, INT64_MAX, INT64_MIN);
    RangesFromCases(ts, 0);
  }
}
