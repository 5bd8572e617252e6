/** Three passes over a loop's body are not always enough: a loop that hands a type on from variable to variable. */
module FlowChain {
  import opened Basics
  import opened Flow
  import opened FlowSound
  import opened FlowExact
  import opened FlowScripts

  // ---------- the scripts ----------

  /** `xi = xi+1; ... xn-1 = 0.5;` with what is recorded where the variables are read. */
  function Moves(i: nat, notes: seq<Note>): StmtList
    requires i < |notes|
    decreases |notes| - i
  {
    if i + 1 == |notes| then Then(ExprStmt(Assign(i, HALF)), Done)
    else Then(ExprStmt(Assign(i, Ident(i + 1, notes[i + 1]))), Moves(i + 1, notes))
  }

  /** `loop { x0; x0 = x1; x1 = x2; ... xn-1 = 0.5; }` */
  function Chain(notes: seq<Note>, stable: bool): Stmt
    requires notes != []
  {
    Loop(None, Block(Then(Use(0, notes[0]), Moves(0, notes))), None, stable)
  }

  /** `xi = toint(input); ... xn-1 = toint(input);` and the loop. */
  function Inits(i: nat, n: nat, loop: Stmt): StmtList
    requires i <= n
    decreases n - i
  {
    if i == n then Then(loop, Done) else Then(ExprStmt(Taken(i, ToInt)), Inits(i + 1, n, loop))
  }

  function Blank(n: nat): seq<Note> {
    seq(n, _ => NOTE)
  }

  function Script(n: nat): Stmt
    requires n > 0
  {
    Block(Inits(0, n, Chain(Blank(n), false)))
  }

  // ---------- the analysis ----------

  function MapOf(ps: seq<Pred>): map<nat, Pred> {
    map i: nat | i < |ps| :: ps[i]
  }

  function NotesOf(ps: seq<Pred>): (notes: seq<Note>)
    ensures |notes| == |ps| && forall i :: 0 <= i < |ps| ==> notes[i] == NoteOf(ps[i])
  {
    seq(|ps|, i requires 0 <= i < |ps| => NoteOf(ps[i]))
  }

  /** The predictions after `k` passes. */
  function Known(n: nat, k: nat): (ps: seq<Pred>)
    ensures |ps| == n && forall i :: 0 <= i < n ==> ps[i] == if i < n - k then KNOWN_INT else UNKNOWN
  {
    seq(n, i => if i < n - k then KNOWN_INT else UNKNOWN)
  }

  lemma {:induction false} MovesNotes(i: nat, a: seq<Note>, b: seq<Note>)
    requires i < |a| == |b| && forall j :: i < j < |a| ==> a[j] == b[j]
    ensures Moves(i, a) == Moves(i, b)
    decreases |a| - i
  {
    if i + 1 < |a| {
      MovesNotes(i + 1, a, b);
    }
  }

  function Shifted(ps: seq<Pred>, i: nat): seq<Pred>
    requires i < |ps|
  {
    ps[..i] + ps[i + 1..] + [A_FLOAT]
  }

  lemma MapUpdate(ps: seq<Pred>, i: nat, p: Pred)
    requires i < |ps|
    ensures MapOf(ps)[i := p] == MapOf(ps[i := p])
  {
  }

  lemma {:induction false} MovesAnalysis(i: nat, notes: seq<Note>, f: State, ps: seq<Pred>)
    requires i < |notes| == |ps| && f.preds == MapOf(ps) && !f.dry
    ensures AnalyzeList(Moves(i, notes), f, SILENT) ==
      AnalyzedList(Moves(i, NotesOf(ps)), f.(preds := MapOf(Shifted(ps, i))))
    decreases |ps| - i
  {
    if i + 1 == |ps| {
      var f1 := Put(f, i, A_FLOAT);
      MapUpdate(ps, i, A_FLOAT);
      assert ps[i := A_FLOAT] == Shifted(ps, i);
      assert AnalyzeExpr(Assign(i, HALF), f, SILENT) == Analyzed(Assign(i, HALF), A_FLOAT, f1);
      assert AnalyzeList(Done, f1, SILENT) == AnalyzedList(Done, f1);
    } else {
      var p := ps[i + 1];
      var f1, ps1 := Put(f, i, p), ps[i := p];
      MapUpdate(ps, i, p);
      MovesAnalysis(i + 1, notes, f1, ps1);
      MovesNotes(i + 1, NotesOf(ps1), NotesOf(ps));
      assert Shifted(ps1, i + 1) == Shifted(ps, i);
      var e := Assign(i, Ident(i + 1, NoteOf(p)));
      assert AnalyzeExpr(Assign(i, Ident(i + 1, notes[i + 1])), f, SILENT) == Analyzed(e, p, f1);
    }
  }

  lemma ChainBody(notes: seq<Note>, stable: bool, f: State, ps: seq<Pred>)
    requires |notes| == |ps| > 0 && f.preds == MapOf(ps) && !f.dry
    ensures AnalyzeBody(Chain(notes, stable), f, SILENT) ==
      AnalyzedStmt(Chain(NotesOf(ps), stable), f.(preds := MapOf(Shifted(ps, 0))))
  {
    hide Moves, AnalyzeExpr, MapOf, Shifted;
    MovesAnalysis(0, notes, f, ps);
    ReadNote(notes[0], f, ps);
    var f1 := f.(preds := MapOf(Shifted(ps, 0)));
    assert AnalyzeList(Then(Use(0, notes[0]), Moves(0, notes)), f, SILENT) ==
      AnalyzedList(Then(Use(0, NoteOf(ps[0])), Moves(0, NotesOf(ps))), f1);
    assert AnalyzeStmt(Chain(notes, stable).body, f, SILENT) == AnalyzedStmt(Chain(NotesOf(ps), stable).body, f1);
  }

  lemma ReadNote(note: Note, f: State, ps: seq<Pred>)
    requires |ps| > 0 && f.preds == MapOf(ps) && !f.dry
    ensures AnalyzeStmt(Use(0, note), f, SILENT) == AnalyzedStmt(Use(0, NoteOf(ps[0])), f)
  {
  }

  lemma MergedTypes(n: nat, k: nat)
    requires n > 0
    ensures MergeMaps(MapOf(Shifted(Known(n, k), 0)), MapOf(Known(n, k))) == MapOf(Known(n, k + 1))
  {
    hide Known;
    var ps, next := Known(n, k), Known(n, k + 1);
    var shifted := Shifted(ps, 0);
    forall j: nat | j < n ensures MergePred(shifted[j], ps[j]) == next[j] {
      assert shifted[j] == if j + 1 < n then ps[j + 1] else A_FLOAT;
    }
    MergedMaps(shifted, ps, next);
  }

  lemma MergedMaps(a: seq<Pred>, b: seq<Pred>, c: seq<Pred>)
    requires |a| == |b| == |c| && forall j :: 0 <= j < |a| ==> MergePred(a[j], b[j]) == c[j]
    ensures MergeMaps(MapOf(a), MapOf(b)) == MapOf(c)
  {
  }

  lemma ChainPass(n: nat, k: nat, notes: seq<Note>, stable: bool, f: State)
    requires n > 0 && |notes| == n && f.preds == MapOf(Known(n, k)) && !f.dry && !f.dead
    ensures AnalyzePass(Chain(notes, stable), f, SILENT) ==
      AnalyzedStmt(Chain(NotesOf(Known(n, k)), stable), f.(preds := MapOf(Known(n, k + 1))))
  {
    hide Chain, AnalyzeBody, MergeMaps, MapOf, Shifted, Known;
    ChainIsLoop(notes, stable);
    ChainBody(notes, stable, f, Known(n, k));
    MergedTypes(n, k);
  }

  /** The three passes record what is known after two of them. */
  lemma ChainAnalysis(n: nat, f: State)
    requires n > 0 && f.preds == MapOf(Known(n, 0)) && !f.dry && !f.dead
    ensures AnalyzeStmt(Chain(Blank(n), false), f, SILENT).s == Chain(NotesOf(Known(n, 2)), n <= 2)
  {
    hide AnalyzePass, Moves;
    ChainPass(n, 0, Blank(n), false, f);
    var a := AnalyzePass(Chain(Blank(n), false), f, SILENT);
    ChainPass(n, 1, NotesOf(Known(n, 0)), false, a.f);
    var b := AnalyzePass(a.s, a.f, SILENT);
    ChainPass(n, 2, NotesOf(Known(n, 1)), false, b.f);
    if n <= 2 {
      assert Known(n, 2) == Known(n, 3);
    } else {
      assert MapOf(Known(n, 2))[n - 3] == KNOWN_INT && MapOf(Known(n, 3))[n - 3] == UNKNOWN;
    }
  }

  lemma {:induction false} InitsAnalysis(i: nat, n: nat, loop: Stmt, f: State, ps: seq<Pred>, st: Store, w: World)
    requires i <= n == |ps| && f.preds == MapOf(ps) && !f.dry && forall j :: 0 <= j < i ==> ps[j] == KNOWN_INT
    ensures var r := AnalyzeStmt(loop, f.(preds := MapOf(Known(n, 0))), SILENT);
      AnalyzeList(Inits(i, n, loop), f, SILENT) == AnalyzedList(Inits(i, n, r.s), r.f)
    decreases n - i
  {
    if i == n {
      assert ps == Known(n, 0);
      var r := AnalyzeStmt(loop, f, SILENT);
      assert AnalyzeList(Done, r.f, SILENT) == AnalyzedList(Done, r.f);
    } else {
      TakenFacts(i, ToInt, f, st, w, 0);
      MapUpdate(ps, i, KNOWN_INT);
      InitsAnalysis(i + 1, n, loop, Put(f, i, KNOWN_INT), ps[i := KNOWN_INT], st, w);
    }
  }

  function From(i: nat, n: nat): (xs: set<nat>)
    ensures forall x :: x in xs <==> i <= x < n
    decreases n - i
  {
    if i >= n then {} else {i} + From(i + 1, n)
  }

  lemma {:induction false} MovesTouched(i: nat, n: nat)
    requires i < n
    ensures ListTouched(Moves(i, Blank(n)), SILENT) == From(i, n) && UnmarkedList(Moves(i, Blank(n)))
    decreases n - i
  {
    if i + 1 == n {
      UnmarkedThen(ExprStmt(Assign(i, HALF)), Done);
      assert TouchedExpr(HALF, SILENT) == {};
    } else {
      var e := Ident(i + 1, NOTE);
      MovesTouched(i + 1, n);
      UnmarkedThen(ExprStmt(Assign(i, e)), Moves(i + 1, Blank(n)));
      assert TouchedExpr(e, SILENT) == {};
    }
  }

  lemma {:induction false} InitsTouched(i: nat, n: nat, loop: Stmt)
    requires i <= n && Unmarked(loop)
    ensures ListTouched(Inits(i, n, loop), SILENT) == From(i, n) + Touched(loop, SILENT) && UnmarkedList(Inits(i, n, loop))
    decreases n - i
  {
    if i == n {
      UnmarkedThen(loop, Done);
    } else {
      InitsTouched(i + 1, n, loop);
      UnmarkedThen(ExprStmt(Taken(i, ToInt)), Inits(i + 1, n, loop));
      assert TouchedExpr(Prefix(ToInt, Input(i)), SILENT) == {};
    }
  }

  lemma ScriptRecorded(n: nat, st: Store, w: World)
    requires n > 0
    ensures Analyze(Script(n), SILENT) == Block(Inits(0, n, Chain(NotesOf(Known(n, 2)), n <= 2)))
  {
    hide Analyze, AnalyzeList, AnalyzeExpr, Moves, Inits;
    var loop := Chain(Blank(n), false);
    MovesTouched(0, n);
    UnmarkedThen(Use(0, NOTE), Moves(0, Blank(n)));
    assert Touched(loop.body, SILENT) == From(0, n) && Unmarked(loop.body);
    assert Touched(loop, SILENT) == From(0, n) && Unmarked(loop);
    InitsTouched(0, n, loop);
    var f := AfterDryRun(Script(n));
    var ps := seq(n, _ => UNKNOWN);
    assert f.preds == MapOf(ps);
    InitsAnalysis(0, n, loop, f, ps, st, w);
    ChainAnalysis(n, f.(preds := MapOf(Known(n, 0))));
  }

  // ---------- the execution ----------

  /** After `k` turns variable `j` is an int. */
  function TypeAfter(n: nat, k: nat, j: nat): int {
    if j < n - k then INT else FLOAT
  }

  /** The variables before `i` are as after the turn, the others as before it. */
  ghost predicate Within(st: Store, n: nat, k: nat, i: nat) {
    && (forall j: nat :: j < i && j < n ==> Read(st, j).tag == TypeAfter(n, k + 1, j))
    && (forall j: nat :: i <= j < n ==> Read(st, j).tag == TypeAfter(n, k, j))
  }

  lemma ReadWritten(st: Store, x: nat, v: Val)
    ensures forall y :: Read(Write(st, x, v), y) == if y == x then v else Read(st, y)
  {
  }

  lemma {:induction false} MovesExec(i: nat, n: nat, k: nat, st: Store, w: World, fuel: nat)
    requires i < n && Within(st, n, k, i) && (k == 3 ==> i + 3 < n) && k <= 3
    ensures var r := ExecList(Moves(i, NotesOf(Known(n, 2))), st, w, fuel);
      if k == 3 then r == Stopped(Bad) else r.Normal? && Within(r.st, n, k + 1, 0)
    decreases n - i
  {
    var notes := NotesOf(Known(n, 2));
    if i + 1 == n {
      var st1 := Write(st, i, HALF.v);
      ReadWritten(st, i, HALF.v);
      assert Eval(Assign(i, HALF), st, w) == Value(HALF.v, st1);
      assert ExecList(Done, st1, w, fuel) == Normal(st1);
    } else {
      var e, v := Ident(i + 1, notes[i + 1]), Read(st, i + 1);
      var st1 := Write(st, i, v);
      ReadWritten(st, i, v);
      assert Eval(e, st, w) == if RightNote(e.note, v.tag) then Value(v, st) else Ends(Bad);
      if RightNote(e.note, v.tag) {
        assert Exec(ExprStmt(Assign(i, e)), st, w, fuel) == Normal(st1);
        MovesExec(i + 1, n, k, st1, w, fuel);
      }
    }
  }

  lemma TurnExec(n: nat, k: nat, stable: bool, st: Store, w: World, fuel: nat)
    requires n > 0 && k <= 3 && (k == 3 ==> n >= 3) && Within(st, n, k, 0)
    ensures var r := ExecTurn(Chain(NotesOf(Known(n, 2)), stable), st, w, fuel);
      if k == 3 then r == Stopped(Bad) else r.Normal? && Within(r.st, n, k + 1, 0)
  {
    hide Moves;
    var notes := NotesOf(Known(n, 2));
    var use := Use(0, notes[0]);
    assert Exec(use, st, w, fuel) == if RightNote(notes[0], Read(st, 0).tag) then Normal(st) else Stopped(Bad);
    if k < 3 || n > 3 {
      MovesExec(0, n, k, st, w, fuel);
    }
    var body := Then(use, Moves(0, notes));
    assert Exec(Block(body), st, w, fuel) == ExecList(body, st, w, fuel);
  }

  lemma {:induction false} ChainRuns(n: nat, k: nat, st: Store, w: World, fuel: nat)
    requires !w.wary && n >= 3 && k <= 3 && Within(st, n, k, 0) && k + fuel >= 4
    ensures Exec(Chain(NotesOf(Known(n, 2)), false), st, w, fuel) == Stopped(Bad)
    decreases fuel
  {
    hide Chain, Moves, Within;
    var s := Chain(NotesOf(Known(n, 2)), false);
    assert s.Loop? by { ChainIsLoop(NotesOf(Known(n, 2)), false); }
    TurnExec(n, k, false, st, w, fuel);
    var r := ExecTurn(s, st, w, fuel);
    if r.Normal? {
      ChainRuns(n, k + 1, r.st, w, fuel - 1);
    }
  }

  lemma ChainIsLoop(notes: seq<Note>, stable: bool)
    requires notes != []
    ensures Chain(notes, stable).Loop? && Chain(notes, stable).stable == stable
  {
  }

  lemma {:induction false} InitsExec(i: nat, n: nat, loop: Stmt, st: Store, w: World, fuel: nat) returns (st1: Store)
    requires i <= n && forall j: nat :: j < i ==> Read(st, j).tag == INT
    ensures forall j: nat :: j < n ==> Read(st1, j).tag == INT
    ensures ExecList(Inits(i, n, loop), st, w, fuel) == Exec(loop, st1, w, fuel)
    decreases n - i
  {
    if i == n {
      st1 := st;
      var r := Exec(loop, st, w, fuel);
      if r.Normal? { assert ExecList(Done, r.st, w, fuel) == Normal(r.st); }
    } else {
      TakenFacts(i, ToInt, START.(dry := false), st, w, fuel);
      var next := Exec(ExprStmt(Taken(i, ToInt)), st, w, fuel).st;
      var v := UnaryVal(ToInt, w.input(st.used), w);
      ReadWritten(st.(used := st.used + 1), i, v);
      forall j: nat | j < i + 1 ensures Read(next, j).tag == INT {
        assert j < i ==> Read(next, j) == Read(st, j);
      }
      st1 := InitsExec(i + 1, n, loop, next, w, fuel);
    }
  }

  /** With three variables or more every execution that lasts four turns reads a variable with a wrong type. */
  lemma ThreePassesNotEnough(n: nat, st: Store, w: World, fuel: nat)
    requires n >= 3 && !w.wary && fuel >= 4
    ensures Exec(Analyze(Script(n), SILENT), st, w, fuel) == Stopped(Bad)
  {
    hide Analyze, Chain, Inits;
    ScriptRecorded(n, st, w);
    var loop := Chain(NotesOf(Known(n, 2)), false);
    var st1 := InitsExec(0, n, loop, st, w, fuel);
    ChainRuns(n, 0, st1, w, fuel);
  }

  // ---------- when three passes are enough ----------

  lemma {:induction false} MovesSettled(i: nat, notes: seq<Note>)
    requires i < |notes|
    ensures ListSettled(Moves(i, notes))
    decreases |notes| - i
  {
    if i + 1 < |notes| {
      MovesSettled(i + 1, notes);
      assert SettledExpr(Ident(i + 1, notes[i + 1]));
    } else {
      assert SettledExpr(HALF) && ListSettled(Done);
    }
  }

  lemma {:induction false} InitsSettled(i: nat, n: nat, loop: Stmt)
    requires i <= n && Settled(loop)
    ensures ListSettled(Inits(i, n, loop))
    decreases n - i
  {
    if i == n {
      assert ListSettled(Done);
    } else {
      InitsSettled(i + 1, n, loop);
      assert SettledExpr(Prefix(ToInt, Input(i)));
    }
  }

  function AnyWorld(): World {
    World(_ => Val(0, UNDEFINED), (_, _, _) => 0, (_, _) => 0, _ => true, false)
  }

  ghost predicate TypesRight(n: nat)
    requires n > 0
  {
    forall st: Store, w: World, fuel: nat :: Exec(Analyze(Script(n), SILENT), st, w, fuel) != Stopped(Bad)
  }

  /** The recorded types are right in every execution exactly if at most two variables are moved. */
  lemma ThreePassesExact(n: nat)
    requires n > 0
    ensures TypesRight(n) <==> n <= 2
  {
    hide Analyze, Moves, Inits;
    var w, st := AnyWorld(), Store(map[], 0);
    if n <= 2 {
      ScriptRecorded(n, st, w);
      var notes := NotesOf(Known(n, 2));
      MovesSettled(0, notes);
      assert Settled(Use(0, notes[0])) && ListSettled(Then(Use(0, notes[0]), Moves(0, notes)));
      assert Settled(Block(Then(Use(0, notes[0]), Moves(0, notes))));
      InitsSettled(0, n, Chain(notes, true));
      forall st: Store, w: World, fuel: nat ensures Exec(Analyze(Script(n), SILENT), st, w, fuel) != Stopped(Bad) {
        TypesSettled(Script(n), SILENT, st, w, fuel);
      }
    } else {
      ThreePassesNotEnough(n, st, w, 4);
    }
  }
}
