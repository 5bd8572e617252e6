/** The passes over a loop's body: each can only forget, so they come to rest. */
module FlowPasses {
  import opened Basics
  import opened Flow
  import opened FlowSound

  // ---------- passes only forget ----------

  predicate Weaker(a: Pred, b: Pred) {
    (a.ty.Some? ==> a.ty == b.ty) && (a.meta.Some? ==> a.meta == b.meta)
  }

  ghost predicate Forgets(after: map<nat, Pred>, before: map<nat, Pred>) {
    after.Keys == before.Keys && forall x :: x in after ==> Weaker(after[x], before[x])
  }

  function KnownTypes(m: map<nat, Pred>): set<nat> {
    set x | x in m && m[x].ty.Some?
  }

  function KnownMetas(m: map<nat, Pred>): set<nat> {
    set x | x in m && m[x].meta.Some?
  }

  function Facts(m: map<nat, Pred>): nat {
    |KnownTypes(m)| + |KnownMetas(m)|
  }

  /** A pass turns known types and metas into unknown ones, and nothing else. */
  lemma PassForgets(s: Stmt, f: State, o: Oracle)
    requires s.Loop? && !f.dry && !f.dead && Touched(s, o) <= f.preds.Keys
    ensures var r := AnalyzePass(s, f, o); !r.f.dry && !r.f.dead && Forgets(r.f.preds, f.preds)
  {
    VarsBody(s, f, o);
  }

  lemma SubsetSize(a: set<nat>, b: set<nat>)
    requires a <= b
    ensures |a| <= |b| && (|a| == |b| ==> a == b)
  {
    assert b == a + (b - a);
  }

  lemma ForgettingCosts(after: map<nat, Pred>, before: map<nat, Pred>)
    requires Forgets(after, before)
    ensures Facts(after) <= Facts(before) && (Facts(after) == Facts(before) ==> after == before)
  {
    SubsetSize(KnownTypes(after), KnownTypes(before));
    SubsetSize(KnownMetas(after), KnownMetas(before));
    if Facts(after) == Facts(before) {
      forall x | x in before ensures after[x] == before[x] {
        assert x in KnownTypes(after) <==> x in KnownTypes(before);
        assert x in KnownMetas(after) <==> x in KnownMetas(before);
      }
    }
  }

  function Passes(s: Stmt, f: State, o: Oracle, n: nat): (r: AnalyzedStmt)
    requires s.Loop?
    ensures r.s.Loop?
    decreases n
  {
    if n == 0 then AnalyzedStmt(s, f) else
    var a := AnalyzePass(s, f, o);
    Passes(a.s, a.f, o, n - 1)
  }

  lemma {:induction false} PassesNext(s: Stmt, f: State, o: Oracle, n: nat)
    requires s.Loop?
    ensures var r := Passes(s, f, o, n); Passes(s, f, o, n + 1) == AnalyzePass(r.s, r.f, o)
    decreases n
  {
    if n > 0 {
      var a := AnalyzePass(s, f, o);
      PassesNext(a.s, a.f, o, n - 1);
    }
  }

  lemma PassKeeps(s: Stmt, f: State, o: Oracle)
    requires s.Loop? && Touched(s, o) <= f.preds.Keys && Forgets(AnalyzePass(s, f, o).f.preds, f.preds)
    ensures var a := AnalyzePass(s, f, o);
      a.s.Loop? && Touched(a.s, o) == Touched(s, o) <= a.f.preds.Keys
  {
    hide AnalyzeBody, Touched;
    KeepsBody(s, f, o);
  }

  lemma ForgetsMore(c: map<nat, Pred>, b: map<nat, Pred>, a: map<nat, Pred>)
    requires Forgets(b, a)
    ensures Forgets(a, a) && (Forgets(c, b) ==> Forgets(c, a))
  {
  }

  /** Repeating the pass comes to rest after at most as many passes as there were known facts. */
  lemma {:induction false} PassesRest(s: Stmt, f: State, o: Oracle) returns (k: nat)
    requires s.Loop? && !f.dry && !f.dead && Touched(s, o) <= f.preds.Keys
    ensures k <= Facts(f.preds)
    ensures var r := Passes(s, f, o, k);
      && AnalyzePass(r.s, r.f, o).f.preds == r.f.preds
      && !r.f.dry && !r.f.dead && !AnalyzePass(r.s, r.f, o).f.dead && Forgets(r.f.preds, f.preds)
      && Touched(r.s, o) <= r.f.preds.Keys
    decreases Facts(f.preds)
  {
    hide AnalyzePass, Facts, Forgets, Touched;
    var a := AnalyzePass(s, f, o);
    PassForgets(s, f, o);
    PassKeeps(s, f, o);
    ForgettingCosts(a.f.preds, f.preds);
    if a.f.preds == f.preds {
      k := 0;
      ForgetsMore(a.f.preds, a.f.preds, f.preds);
    } else {
      var j := PassesRest(a.s, a.f, o);
      k := j + 1;
      ForgetsMore(Passes(s, f, o, k).f.preds, a.f.preds, f.preds);
    }
  }

  lemma {:induction false} PassesCover(s: Stmt, f: State, o: Oracle, n: nat, st: Store)
    requires s.Loop? && !f.dry && Touched(s, o) <= f.preds.Keys && Holds(f, st)
    ensures Holds(Passes(s, f, o, n).f, st)
    decreases n
  {
    if n > 0 {
      var a := AnalyzePass(s, f, o);
      VarsBody(s, f, o);
      VarsPass(s, f, o);
      KeepsBody(s, f, o);
      HoldsMerge(AnalyzeBody(s, f, o).f, f, st);
      PassesCover(a.s, a.f, o, n - 1, st);
    }
  }

  /** So if the pass were repeated that often, instead of three times, the types recorded in the loop would be
      right for every number of turns, with nothing left to assume about the passes. */
  lemma FixpointSound(s: Stmt, f: State, o: Oracle, st: Store, w: World, fuel: nat) returns (k: nat)
    requires s.Loop? && !f.dry && Touched(s, o) <= f.preds.Keys && w.wary && Holds(f, st)
    ensures k <= Facts(f.preds) + 1
    ensures var body := Passes(s, f, o, k).s; Exec(body.(stable := true), st, w, fuel) != Stopped(Bad)
  {
    var j := PassesRest(s, f, o);
    k := j + 1;
    PassesCover(s, f, o, j, st);
    var r := Passes(s, f, o, j);
    PassesNext(s, f, o, j);
    TurnsSound(r.s, r.f, o, st, w, fuel, true);
  }
}
