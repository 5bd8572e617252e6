/** Catch dispatch: the table of code ranges of try bodies, and its search (jit/statements.c,
    ptrs_handle_trycatch; jit/lib/error.c, ptrs_jit_addCatcher and ptrs_jit_placeAssertions). */
module Catch {
  import opened Basics

  /** The statements of a function, as far as try statements matter: `Plain(n)` is `n` instructions. */
  datatype Stmt =
    | Plain(n: nat)
    | Block(list: StmtList)
    | Try(args: nat, body: Stmt, catchBody: Option<Stmt>, finallyBody: Option<Stmt>)

  datatype StmtList = End | Node(head: Stmt, tail: StmtList)

  /** A try body's code, and where its catcher starts. */
  datatype Range = Range(before: nat, after: nat, catcher: nat)

  /** Where code ends, and its ranges, the one that was added last first. */
  datatype Layout = Layout(end: nat, ranges: seq<Range>)

  predicate Rethrows(s: Stmt)
    requires s.Try?
  {
    s.finallyBody.Some? && s.catchBody.None?
  }

  /** The end of a try body's range: a store that notes the normal end, the branch to the finally code, and
      the label. */
  function AfterBody(s: Stmt, end: nat): nat
    requires s.Try?
  {
    end + (if Rethrows(s) then 1 else 0) + 1
  }

  function LayOut(s: Stmt, at: nat): Layout
    decreases s, 4
  {
    match s
    case Plain(n) => Layout(at + n, [])
    case Block(list) => LayOutList(list, at)
    case Try(_, _, _, _) =>
      var after := After(s, at);
      Layout(FinallyPart(s, at).end + (if Rethrows(s) then 1 else 0),
             FinallyPart(s, at).ranges + CatchPart(s, at).ranges + BodyPart(s, at).ranges + [Range(at, after, after + 1)])
  }

  function BodyPart(s: Stmt, at: nat): Layout
    requires s.Try?
    decreases s, 0
  {
    LayOut(s.body, at + 1)
  }

  function After(s: Stmt, at: nat): nat
    requires s.Try?
    decreases s, 1
  {
    AfterBody(s, BodyPart(s, at).end)
  }

  function CatchPart(s: Stmt, at: nat): Layout
    requires s.Try?
    decreases s, 2
  {
    if s.catchBody.Some? then LayOut(s.catchBody.value, After(s, at) + 2 + s.args)
    else Layout(After(s, at) + 2 + (if Rethrows(s) then 1 else 0), [])
  }

  function FinallyPart(s: Stmt, at: nat): Layout
    requires s.Try?
    decreases s, 3
  {
    if s.finallyBody.Some? then LayOut(s.finallyBody.value, CatchPart(s, at).end + 1)
    else Layout(CatchPart(s, at).end + 1, [])
  }

  function LayOutList(l: StmtList, at: nat): Layout
    decreases l, 4
  {
    match l
    case End => Layout(at, [])
    case Node(s, next) =>
      var a := LayOut(s, at);
      var b := LayOutList(next, a.end);
      Layout(b.end, b.ranges + a.ranges)
  }

  // ---------- the search ----------

  /** The first range that holds the position where the exception was thrown. */
  function Dispatch(ranges: seq<Range>, pc: nat): Option<nat> {
    if ranges == [] then None
    else if ranges[0].before <= pc < ranges[0].after then Some(ranges[0].catcher)
    else Dispatch(ranges[1..], pc)
  }

  // ---------- what it should find ----------

  /** `pc` is an instruction of the statements themselves, and not one that was added around them. */
  predicate InCode(s: Stmt, at: nat, pc: nat)
    decreases s
  {
    match s
    case Plain(n) => at <= pc < at + n
    case Block(list) => InList(list, at, pc)
    case Try(args, body, catchBody, finallyBody) =>
      || InCode(body, at + 1, pc)
      || (catchBody.Some? && InCode(catchBody.value, After(s, at) + 2 + args, pc))
      || (finallyBody.Some? && InCode(finallyBody.value, CatchPart(s, at).end + 1, pc))
  }

  predicate InList(l: StmtList, at: nat, pc: nat)
    decreases l
  {
    l.Node? && (InCode(l.head, at, pc) || InList(l.tail, LayOut(l.head, at).end, pc))
  }

  /** The catcher of the innermost try statement whose body contains the instruction `pc`. */
  function Innermost(s: Stmt, at: nat, pc: nat): Option<nat>
    decreases s
  {
    match s
    case Plain(_) => None
    case Block(list) => InnermostList(list, at, pc)
    case Try(args, body, catchBody, finallyBody) =>
      if InCode(body, at + 1, pc) then
        var inner := Innermost(body, at + 1, pc);
        if inner.Some? then inner else Some(After(s, at) + 1)
      else if catchBody.Some? && InCode(catchBody.value, After(s, at) + 2 + args, pc) then
        Innermost(catchBody.value, After(s, at) + 2 + args, pc)
      else if finallyBody.Some? then Innermost(finallyBody.value, CatchPart(s, at).end + 1, pc)
      else None
  }

  function InnermostList(l: StmtList, at: nat, pc: nat): Option<nat>
    decreases l
  {
    match l
    case End => None
    case Node(s, next) =>
      if InCode(s, at, pc) then Innermost(s, at, pc) else InnermostList(next, LayOut(s, at).end, pc)
  }

  // ---------- the search finds the innermost try ----------

  lemma {:induction false} DispatchJoin(a: seq<Range>, b: seq<Range>, pc: nat)
    ensures Dispatch(a + b, pc) == if Dispatch(a, pc).Some? then Dispatch(a, pc) else Dispatch(b, pc)
    decreases |a|
  {
    if a == [] {
      assert a + b == b;
    } else {
      assert (a + b)[1..] == a[1..] + b;
      DispatchJoin(a[1..], b, pc);
    }
  }

  /** What holds of a piece of code: it starts before it ends, its instructions and ranges lie in between. */
  predicate Within(at: nat, l: Layout, inCode: bool, pc: nat) {
    && at <= l.end && (inCode ==> at <= pc < l.end)
    && (!(at <= pc < l.end) ==> Dispatch(l.ranges, pc).None?)
  }

  lemma {:induction false} Bounds(s: Stmt, at: nat, pc: nat)
    ensures Within(at, LayOut(s, at), InCode(s, at, pc), pc)
    decreases s, 1
  {
    match s
    case Plain(_) =>
    case Block(list) => ListBounds(list, at, pc);
    case Try(_, _, _, _) =>
      PartBounds(s, at, pc);
      TryDispatch(s, at, pc);
      hide BodyPart, CatchPart, FinallyPart, Dispatch;
  }

  lemma PartBounds(s: Stmt, at: nat, pc: nat)
    requires s.Try?
    ensures Within(at + 1, BodyPart(s, at), InCode(s.body, at + 1, pc), pc)
    ensures BodyPart(s, at).end < After(s, at) && After(s, at) + 2 <= CatchPart(s, at).end < FinallyPart(s, at).end
    ensures if s.catchBody.Some? then
              Within(After(s, at) + 2 + s.args, CatchPart(s, at), InCode(s.catchBody.value, After(s, at) + 2 + s.args, pc), pc)
            else CatchPart(s, at).ranges == []
    ensures if s.finallyBody.Some? then
              Within(CatchPart(s, at).end + 1, FinallyPart(s, at), InCode(s.finallyBody.value, CatchPart(s, at).end + 1, pc), pc)
            else FinallyPart(s, at).ranges == []
    decreases s, 0
  {
    hide InCode, Dispatch;
    Bounds(s.body, at + 1, pc);
    if s.catchBody.Some? { Bounds(s.catchBody.value, After(s, at) + 2 + s.args, pc); }
    if s.finallyBody.Some? { Bounds(s.finallyBody.value, CatchPart(s, at).end + 1, pc); }
  }

  lemma TryDispatch(s: Stmt, at: nat, pc: nat)
    requires s.Try?
    ensures Dispatch(LayOut(s, at).ranges, pc) ==
      (if Dispatch(FinallyPart(s, at).ranges, pc).Some? then Dispatch(FinallyPart(s, at).ranges, pc)
       else if Dispatch(CatchPart(s, at).ranges, pc).Some? then Dispatch(CatchPart(s, at).ranges, pc)
       else if Dispatch(BodyPart(s, at).ranges, pc).Some? then Dispatch(BodyPart(s, at).ranges, pc)
       else if at <= pc < After(s, at) then Some(After(s, at) + 1) else None)
  {
    hide BodyPart, CatchPart, FinallyPart, After;
    var b, c, f := BodyPart(s, at).ranges, CatchPart(s, at).ranges, FinallyPart(s, at).ranges;
    var own := [Range(at, After(s, at), After(s, at) + 1)];
    DispatchJoin(f + c + b, own, pc);
    DispatchJoin(f + c, b, pc);
    DispatchJoin(f, c, pc);
    assert own[1..] == [];
  }

  lemma {:induction false} ListBounds(l: StmtList, at: nat, pc: nat)
    ensures Within(at, LayOutList(l, at), InList(l, at, pc), pc)
    decreases l, 1
  {
    if l.Node? {
      var a := LayOut(l.head, at);
      Bounds(l.head, at, pc);
      ListBounds(l.tail, a.end, pc);
      DispatchJoin(LayOutList(l.tail, a.end).ranges, a.ranges, pc);
    }
  }

  /** For every nesting of try statements and every instruction of their code, the first range that is hit
      belongs to the innermost try statement around it; and no range is hit when there is none. */
  lemma {:induction false} DispatchInnermost(s: Stmt, at: nat, pc: nat)
    requires InCode(s, at, pc)
    ensures Dispatch(LayOut(s, at).ranges, pc) == Innermost(s, at, pc)
    decreases s, 1
  {
    match s
    case Plain(_) =>
    case Block(list) => ListInnermost(list, at, pc);
    case Try(_, _, _, _) => TryInnermost(s, at, pc);
  }

  lemma TryInnermost(s: Stmt, at: nat, pc: nat)
    requires s.Try? && InCode(s, at, pc)
    ensures Dispatch(LayOut(s, at).ranges, pc) == Innermost(s, at, pc)
    decreases s, 0
  {
    hide LayOut;
    TryDispatch(s, at, pc);
    PartBounds(s, at, pc);
    if InCode(s.body, at + 1, pc) {
      DispatchInnermost(s.body, at + 1, pc);
    } else if s.catchBody.Some? && InCode(s.catchBody.value, After(s, at) + 2 + s.args, pc) {
      DispatchInnermost(s.catchBody.value, After(s, at) + 2 + s.args, pc);
    } else {
      DispatchInnermost(s.finallyBody.value, CatchPart(s, at).end + 1, pc);
    }
  }

  lemma {:induction false} ListInnermost(l: StmtList, at: nat, pc: nat)
    requires InList(l, at, pc)
    ensures Dispatch(LayOutList(l, at).ranges, pc) == InnermostList(l, at, pc)
    decreases l, 1
  {
    var a := LayOut(l.head, at);
    Bounds(l.head, at, pc);
    ListBounds(l.tail, a.end, pc);
    DispatchJoin(LayOutList(l.tail, a.end).ranges, a.ranges, pc);
    if InCode(l.head, at, pc) {
      DispatchInnermost(l.head, at, pc);
    } else {
      ListInnermost(l.tail, a.end, pc);
    }
  }

  // ---------- the same for the statement at a path ----------

  /** The way to a statement inside another one. */
  datatype Path = Here | Item(index: nat, rest: Path) | InBody(rest: Path) | InCatch(rest: Path) | InFinally(rest: Path)

  /** A statement without parts: where its code lies, and the catcher of the innermost try around it. */
  datatype Spot = Spot(from: nat, length: nat, catcher: Option<nat>)

  predicate IsIn(x: Option<Spot>, pc: nat) {
    x.Some? && x.value.from <= pc < x.value.from + x.value.length
  }

  /** What stands at a path; `around` is the catcher of the innermost try so far. */
  function SpotAt(s: Stmt, at: nat, p: Path, around: Option<nat>): Option<Spot>
    decreases s
  {
    match s
    case Plain(n) => if p.Here? then Some(Spot(at, n, around)) else None
    case Block(list) => if p.Item? then ListSpot(list, at, p.index, p.rest, around) else None
    case Try(args, body, catchBody, finallyBody) =>
      if p.InBody? then SpotAt(body, at + 1, p.rest, Some(After(s, at) + 1))
      else if p.InCatch? && catchBody.Some? then SpotAt(catchBody.value, After(s, at) + 2 + args, p.rest, around)
      else if p.InFinally? && finallyBody.Some? then SpotAt(finallyBody.value, CatchPart(s, at).end + 1, p.rest, around)
      else None
  }

  function ListSpot(l: StmtList, at: nat, index: nat, p: Path, around: Option<nat>): Option<Spot>
    decreases l
  {
    if l.End? then None
    else if index == 0 then SpotAt(l.head, at, p, around)
    else ListSpot(l.tail, LayOut(l.head, at).end, index - 1, p, around)
  }

  lemma {:induction false} SpotInnermost(s: Stmt, at: nat, p: Path, around: Option<nat>, pc: nat)
    requires IsIn(SpotAt(s, at, p, around), pc)
    ensures InCode(s, at, pc)
    ensures SpotAt(s, at, p, around).value.catcher == if Innermost(s, at, pc).Some? then Innermost(s, at, pc) else around
    decreases s
  {
    match s
    case Plain(_) =>
    case Block(list) => ListSpotInnermost(list, at, p.index, p.rest, around, pc);
    case Try(args, body, catchBody, finallyBody) =>
      PartBounds(s, at, pc);
      if p.InBody? {
        SpotInnermost(body, at + 1, p.rest, Some(After(s, at) + 1), pc);
      } else if p.InCatch? {
        SpotInnermost(catchBody.value, After(s, at) + 2 + args, p.rest, around, pc);
      } else {
        SpotInnermost(finallyBody.value, CatchPart(s, at).end + 1, p.rest, around, pc);
      }
  }

  lemma {:induction false} ListSpotInnermost(l: StmtList, at: nat, index: nat, p: Path, around: Option<nat>, pc: nat)
    requires IsIn(ListSpot(l, at, index, p, around), pc)
    ensures InList(l, at, pc)
    ensures var i := InnermostList(l, at, pc); ListSpot(l, at, index, p, around).value.catcher == if i.Some? then i else around
    decreases l
  {
    if index == 0 {
      SpotInnermost(l.head, at, p, around, pc);
    } else {
      var end := LayOut(l.head, at).end;
      ListSpotInnermost(l.tail, end, index - 1, p, around, pc);
      Bounds(l.head, at, pc);
      ListBounds(l.tail, end, pc);
    }
  }

  /** Wherever a statement stands: an exception at one of its instructions goes to the catcher of the innermost try
      whose body the path to it enters. */
  lemma PathDispatch(s: Stmt, at: nat, p: Path, pc: nat)
    requires IsIn(SpotAt(s, at, p, None), pc)
    ensures Dispatch(LayOut(s, at).ranges, pc) == SpotAt(s, at, p, None).value.catcher
  {
    SpotInnermost(s, at, p, None, pc);
    DispatchInnermost(s, at, pc);
  }

  /** And every instruction of the code is one of a statement at some path. */
  lemma {:induction false} SomeSpot(s: Stmt, at: nat, around: Option<nat>, pc: nat) returns (p: Path)
    requires InCode(s, at, pc)
    ensures IsIn(SpotAt(s, at, p, around), pc)
    decreases s
  {
    match s
    case Plain(_) => p := Here;
    case Block(list) =>
      var index, rest := SomeListSpot(list, at, around, pc);
      p := Item(index, rest);
    case Try(args, body, catchBody, finallyBody) =>
      if InCode(body, at + 1, pc) {
        var rest := SomeSpot(body, at + 1, Some(After(s, at) + 1), pc);
        p := InBody(rest);
      } else if catchBody.Some? && InCode(catchBody.value, After(s, at) + 2 + args, pc) {
        var rest := SomeSpot(catchBody.value, After(s, at) + 2 + args, around, pc);
        p := InCatch(rest);
      } else {
        var rest := SomeSpot(finallyBody.value, CatchPart(s, at).end + 1, around, pc);
        p := InFinally(rest);
      }
  }

  lemma {:induction false} SomeListSpot(l: StmtList, at: nat, around: Option<nat>, pc: nat) returns (index: nat, p: Path)
    requires InList(l, at, pc)
    ensures IsIn(ListSpot(l, at, index, p, around), pc)
    decreases l
  {
    if InCode(l.head, at, pc) {
      index := 0;
      p := SomeSpot(l.head, at, around, pc);
    } else {
      index, p := SomeListSpot(l.tail, LayOut(l.head, at).end, around, pc);
      index := index + 1;
    }
  }

  // ---------- the table in memory ----------

  /** ptrs_catcher_labels_t. */
  class Catcher {
    var beforeTry: nat
    var afterTry: nat
    var catcher: nat
    var next: Catcher?

    constructor (next: Catcher?)
      ensures this.next == next
    {
      beforeTry, afterTry, catcher, this.next := 0, 0, 0, next;
    }

    function Labels(): Range
      reads this
    {
      Range(beforeTry, afterTry, catcher)
    }
  }

  ghost function At(list: seq<Catcher>, i: nat): Catcher? {
    if i < |list| then list[i] else null
  }

  ghost predicate Chain(first: Catcher?, list: seq<Catcher>)
    reads list
  {
    first == At(list, 0) && forall i :: 0 <= i < |list| ==> list[i].next == At(list, i + 1)
  }

  ghost predicate Shows(list: seq<Catcher>, ranges: seq<Range>)
    reads list
  {
    |list| == |ranges| && forall i :: 0 <= i < |list| ==> list[i].Labels() == ranges[i]
  }

  lemma TryLayout(s: Stmt, at: nat)
    requires s.Try?
    ensures var l, after := LayOut(s, at), After(s, at);
      && l.end == FinallyPart(s, at).end + (if Rethrows(s) then 1 else 0)
      && l.ranges ==
         FinallyPart(s, at).ranges + (CatchPart(s, at).ranges + (BodyPart(s, at).ranges + [Range(at, after, after + 1)]))
  {
    hide BodyPart, CatchPart, FinallyPart, After;
  }

  lemma ListLayout(l: StmtList, at: nat)
    requires l.Node?
    ensures var a := LayOut(l.head, at);
      var b := LayOutList(l.tail, a.end);
      LayOutList(l, at) == Layout(b.end, b.ranges + a.ranges)
  {
  }

  lemma JoinThree(a: seq<Catcher>, b: seq<Catcher>, c: seq<Catcher>)
    ensures a + (b + c) == (a + b) + c
  {
  }

  lemma JoinFour(a: seq<Catcher>, b: seq<Catcher>, c: seq<Catcher>, d: seq<Catcher>, e: seq<Catcher>)
    ensures a + (b + (c + (d + e))) == (a + (b + (c + d))) + e
  {
  }

  lemma ShowsOne(c: Catcher)
    ensures Shows([c], [c.Labels()])
  {
  }

  lemma ShowsJoin(a: seq<Catcher>, ra: seq<Range>, b: seq<Catcher>, rb: seq<Range>)
    requires Shows(a, ra) && Shows(b, rb)
    ensures Shows(a + b, ra + rb)
  {
  }

  lemma TryShows(s: Stmt, at: nat, inFinally: seq<Catcher>, inCatch: seq<Catcher>, inBody: seq<Catcher>, own: Catcher)
    requires s.Try? && own.Labels() == Range(at, After(s, at), After(s, at) + 1)
    requires Shows(inFinally, FinallyPart(s, at).ranges) && Shows(inCatch, CatchPart(s, at).ranges)
    requires Shows(inBody, BodyPart(s, at).ranges)
    ensures Shows(inFinally + (inCatch + (inBody + [own])), LayOut(s, at).ranges)
  {
    hide BodyPart, CatchPart, FinallyPart, After, Shows, LayOut;
    var b, c, f := BodyPart(s, at).ranges, CatchPart(s, at).ranges, FinallyPart(s, at).ranges;
    ShowsOne(own);
    ShowsJoin(inBody, b, [own], [own.Labels()]);
    ShowsJoin(inCatch, c, inBody + [own], b + [own.Labels()]);
    ShowsJoin(inFinally, f, inCatch + (inBody + [own]), c + (b + [own.Labels()]));
    TryLayout(s, at);
  }

  /** The function under construction (only its length matters here) and the scope's list of catchers. */
  class Scope {
    var size: nat
    var tryCatches: Catcher?
    ghost var list: seq<Catcher>

    constructor ()
      ensures Valid() && list == [] && size == 0
    {
      size, tryCatches, list := 0, null, [];
    }

    ghost predicate Valid()
      reads this, list
    {
      Chain(tryCatches, list)
    }

    method Emit(n: nat)
      modifies this`size
      ensures size == old(size) + n
    {
      size := size + n;
    }

    /** ptrs_jit_addCatcher. */
    method AddCatcher() returns (entry: Catcher)
      requires Valid()
      modifies this`tryCatches, this`list
      ensures Valid() && fresh(entry) && list == [entry] + old(list)
    {
      entry := new Catcher(tryCatches);
      tryCatches := entry;
      list := [entry] + list;
    }

    /** The new catchers stand before the old ones, which are left alone, and carry the ranges of the code. */
    twostate predicate Added(new added: seq<Catcher>, ranges: seq<Range>)
      reads this, list, added
    {
      Valid() && list == added + old(list) && fresh(added) && Shows(added, ranges)
    }

    method Handle(s: Stmt) returns (ghost added: seq<Catcher>)
      requires Valid()
      modifies this
      ensures size == LayOut(s, old(size)).end && Added(added, LayOut(s, old(size)).ranges)
      decreases s, 1
    {
      added := [];
      match s
      case Plain(n) => Emit(n);
      case Block(list) => added := HandleList(list);
      case Try(_, _, _, _) => added := HandleTry(s);
    }

    method HandleList(l: StmtList) returns (ghost added: seq<Catcher>)
      requires Valid()
      modifies this
      ensures size == LayOutList(l, old(size)).end && Added(added, LayOutList(l, old(size)).ranges)
      decreases l
    {
      added := [];
      ghost var at := size;
      if l.Node? {
        hide Chain, Shows, LayOut, LayOutList;
        var first := Handle(l.head);
        ghost var ranges := LayOut(l.head, at).ranges;
        var rest := HandleList(l.tail);
        ShowsJoin(rest, LayOutList(l.tail, LayOut(l.head, at).end).ranges, first, ranges);
        added := rest + first;
        ListLayout(l, at);
        JoinThree(rest, first, old(list));
      }
    }

    /** ptrs_handle_trycatch. */
    method HandleTry(s: Stmt) returns (ghost added: seq<Catcher>)
      requires Valid() && s.Try?
      modifies this
      ensures size == LayOut(s, old(size)).end && Added(added, LayOut(s, old(size)).ranges)
      decreases s, 0, 1
    {
      hide BodyPart, CatchPart, FinallyPart, After, Chain, Shows, LayOut;
      ghost var at := size;
      var catcher, inBody := HandleBody(s);
      var inCatch := HandleCatch(s, at);
      var inFinally := HandleFinally(s, at);
      if s.finallyBody.Some? && s.catchBody.None? {
        Emit(1);
      }
      added := inFinally + (inCatch + (inBody + [catcher]));
      TryLayout(s, at);
      TryShows(s, at, inFinally, inCatch, inBody, catcher);
      JoinFour(inFinally, inCatch, inBody, [catcher], old(list));
    }

    /** The try body, between the labels of its range. */
    method HandleBody(s: Stmt) returns (catcher: Catcher, ghost inBody: seq<Catcher>)
      requires Valid() && s.Try?
      modifies this
      ensures fresh(catcher) && Valid() && fresh(inBody) && list == inBody + ([catcher] + old(list))
      ensures Shows(inBody, BodyPart(s, old(size)).ranges)
      ensures var after := After(s, old(size)); catcher.Labels() == Range(old(size), after, after + 1) && size == after + 2
      decreases s, 0, 0
    {
      hide Shows, Chain;
      catcher := OpenRange();
      inBody := Handle(s.body);
      if s.finallyBody.Some? && s.catchBody.None? {
        Emit(1);
      }
      Emit(1);
      CloseRange(catcher, inBody, BodyPart(s, old(size)).ranges);
    }

    /** The label before the try body. */
    method OpenRange() returns (catcher: Catcher)
      requires Valid()
      modifies this
      ensures Valid() && fresh(catcher) && list == [catcher] + old(list)
      ensures catcher.beforeTry == old(size) && size == old(size) + 1
    {
      catcher := AddCatcher();
      catcher.beforeTry := size;
      Emit(1);
    }

    /** The labels after it. */
    method CloseRange(catcher: Catcher, ghost others: seq<Catcher>, ghost ranges: seq<Range>)
      requires Valid() && catcher !in others && Shows(others, ranges)
      modifies this`size, catcher`afterTry, catcher`catcher
      ensures Valid() && Shows(others, ranges) && size == old(size) + 2
      ensures catcher.Labels() == Range(old(catcher.beforeTry), old(size), old(size) + 1)
    {
      catcher.afterTry := size;
      Emit(1);
      catcher.catcher := size;
      Emit(1);
    }

    method HandleCatch(s: Stmt, ghost at: nat) returns (ghost inCatch: seq<Catcher>)
      requires Valid() && s.Try? && size == After(s, at) + 2
      modifies this
      ensures size == CatchPart(s, at).end && Added(inCatch, CatchPart(s, at).ranges)
      decreases s, 0, 0
    {
      hide Chain;
      inCatch := [];
      if s.catchBody.Some? {
        Emit(s.args);
        inCatch := Handle(s.catchBody.value);
      }
      if s.finallyBody.Some? && s.catchBody.None? {
        Emit(1);
      }
    }

    method HandleFinally(s: Stmt, ghost at: nat) returns (ghost inFinally: seq<Catcher>)
      requires Valid() && s.Try? && size == CatchPart(s, at).end
      modifies this
      ensures size == FinallyPart(s, at).end && Added(inFinally, FinallyPart(s, at).ranges)
      decreases s, 0, 0
    {
      hide Chain;
      inFinally := [];
      Emit(1);
      if s.finallyBody.Some? {
        inFinally := Handle(s.finallyBody.value);
      }
    }

    /** The search that ptrs_jit_placeAssertions emits: entry by entry, from the front of the list. */
    method Search(pc: nat, ghost ranges: seq<Range>) returns (r: Option<nat>)
      requires Valid() && Shows(list, ranges)
      ensures r == Dispatch(ranges, pc)
    {
      var curr := tryCatches;
      ghost var i := 0;
      assert ranges[0..] == ranges;
      while curr != null
        invariant i <= |list| && curr == At(list, i) && Dispatch(ranges, pc) == Dispatch(ranges[i..], pc)
        decreases |list| - i
      {
        assert list[i].Labels() == ranges[i];
        if curr.beforeTry <= pc < curr.afterTry {
          return Some(curr.catcher);
        }
        assert ranges[i..][1..] == ranges[i + 1..];
        curr, i := curr.next, i + 1;
      }
      r := None;
    }
  }

  /** A whole function: for every instruction of its statements the search finds the catcher of the innermost
      enclosing try. */
  method CatchIn(s: Stmt, pc: nat) returns (r: Option<nat>)
    ensures InCode(s, 0, pc) ==> r == Innermost(s, 0, pc)
    ensures forall p :: IsIn(SpotAt(s, 0, p, None), pc) ==> r == SpotAt(s, 0, p, None).value.catcher
  {
    var scope := new Scope();
    var added := scope.Handle(s);
    assert scope.list == added;
    r := scope.Search(pc, LayOut(s, 0).ranges);
    forall p | IsIn(SpotAt(s, 0, p, None), pc) ensures r == SpotAt(s, 0, p, None).value.catcher {
      PathDispatch(s, 0, p, pc);
    }
    if InCode(s, 0, pc) {
      DispatchInnermost(s, 0, pc);
    }
  }
}
