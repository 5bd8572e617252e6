/** Scopes and symbols of the parser: declarations, lookups, and the import lists that wildcard imports extend
    while the program is parsed (parser/ast.c). */
module Symbols {
  import opened Basics

  type Name = seq<char>

  /** What a symbol stands for.  An imported symbol knows the import statement, its index there, and (for the
      statements below) the name it was imported by. */
  datatype Kind =
    | Variable(location: nat)
    | Function(id: nat)
    | Constant(id: nat)
    | Imported(stmt: nat, index: nat, name: Name)
    | ThisMember

  datatype Symbol = Symbol(text: Name, kind: Kind)

  datatype Wildcard = Wildcard(stmt: nat, start: Name)

  /** A symbol table: its lists have the newest entry first. */
  datatype Scope = Scope(functionBoundary: bool, symbols: seq<Symbol>, wildcards: seq<Wildcard>)

  // ---------- what a lookup has to find ----------

  /** A declaration that is still open, and the number of scopes around its own. */
  datatype Decl = Decl(depth: nat, symbol: Symbol)

  /** Of the open declarations of a name (`decls` is in the order of time), the one in the innermost scope, and
      there the latest. */
  ghost predicate IsLookup(decls: seq<Decl>, text: Name, r: Option<Decl>) {
    if r.None? then forall i :: 0 <= i < |decls| ==> decls[i].symbol.text != text
    else exists i :: 0 <= i < |decls| && decls[i] == r.value && Wins(decls, text, i)
  }

  ghost predicate Wins(decls: seq<Decl>, text: Name, i: nat) {
    && i < |decls| && decls[i].symbol.text == text
    && forall j :: 0 <= j < |decls| && decls[j].symbol.text == text ==>
      decls[j].depth < decls[i].depth || (decls[j].depth == decls[i].depth && j <= i)
  }

  // ---------- the lists of one scope ----------

  /** The declarations of the scope at depth `d`, the newest first. */
  function Newest(decls: seq<Decl>, d: nat): seq<Symbol> {
    if decls == [] then []
    else
      var n := |decls| - 1;
      (if decls[n].depth == d then [decls[n].symbol] else []) + Newest(decls[..n], d)
  }

  function FirstMatch(symbols: seq<Symbol>, text: Name): Option<Symbol> {
    if symbols == [] then None
    else if symbols[0].text == text then Some(symbols[0])
    else FirstMatch(symbols[1..], text)
  }

  /** The latest declaration of a name at depth `d`. */
  function LastAt(decls: seq<Decl>, d: nat, text: Name): (r: Option<nat>)
    ensures r.Some? ==> r.value < |decls| && decls[r.value].depth == d && decls[r.value].symbol.text == text
    ensures forall i :: 0 <= i < |decls| && decls[i].depth == d && decls[i].symbol.text == text ==> r.Some? && i <= r.value
  {
    if decls == [] then None
    else
      var n := |decls| - 1;
      if decls[n].depth == d && decls[n].symbol.text == text then Some(n) else LastAt(decls[..n], d, text)
  }

  lemma {:induction false} FirstIsLast(decls: seq<Decl>, d: nat, text: Name)
    ensures var r := LastAt(decls, d, text);
      FirstMatch(Newest(decls, d), text) == if r.None? then None else Some(decls[r.value].symbol)
    decreases |decls|
  {
    if decls != [] {
      var n := |decls| - 1;
      FirstIsLast(decls[..n], d, text);
      if decls[n].depth == d {
        assert Newest(decls, d)[1..] == Newest(decls[..n], d);
      } else {
        assert Newest(decls, d) == Newest(decls[..n], d);
      }
    }
  }

  /** Closing the scope at depth `d` ends its declarations. */
  function Without(decls: seq<Decl>, d: nat): seq<Decl> {
    if decls == [] then []
    else
      var n := |decls| - 1;
      Without(decls[..n], d) + if decls[n].depth == d then [] else [decls[n]]
  }

  lemma {:induction false} NewestWithout(decls: seq<Decl>, d: nat, e: nat)
    requires d != e
    ensures Newest(Without(decls, d), e) == Newest(decls, e)
    decreases |decls|
  {
    if decls != [] {
      var n := |decls| - 1;
      NewestWithout(decls[..n], d, e);
      var rest := Without(decls[..n], d);
      if decls[n].depth != d {
        assert Without(decls, d)[..|rest|] == rest && Without(decls, d)[|rest|] == decls[n];
      } else {
        assert Without(decls, d) == rest;
      }
    }
  }

  lemma {:induction false} WithoutKeeps(decls: seq<Decl>, d: nat)
    ensures forall x :: x in Without(decls, d) <==> x in decls && x.depth != d
    decreases |decls|
  {
    if decls != [] {
      var n := |decls| - 1;
      WithoutKeeps(decls[..n], d);
      assert decls == decls[..n] + [decls[n]];
    }
  }

  lemma {:induction false} NewestNone(decls: seq<Decl>, d: nat)
    requires forall x :: x in decls ==> x.depth != d
    ensures Newest(decls, d) == []
    decreases |decls|
  {
    if decls != [] {
      NewestNone(decls[..|decls| - 1], d);
    }
  }

  lemma NewestNext(decls: seq<Decl>, x: Decl, d: nat)
    ensures Newest(decls + [x], d) == (if x.depth == d then [x.symbol] else []) + Newest(decls, d)
  {
    assert (decls + [x])[..|decls|] == decls;
  }

  // ---------- the parser's tables ----------

  /** code_t and the import statements. */
  class Code {
    /** The open scopes, the innermost last. */
    var scopes: seq<Scope>
    /** The variables that are marked addressable. */
    var addressable: set<nat>
    /** The import list of every import statement, and its counter. */
    var imports: map<nat, seq<Name>>
    var counts: map<nat, nat>
    ghost var decls: seq<Decl>

    constructor ()
      ensures Valid() && scopes == [] && decls == [] && addressable == {}
    {
      scopes, addressable, imports, counts, decls := [], {}, map[], map[], [];
    }

    ghost predicate Valid()
      reads this
    {
      && (forall x :: x in decls ==> x.depth < |scopes|)
      && (forall d :: 0 <= d < |scopes| ==> scopes[d].symbols == Newest(decls, d))
      && imports.Keys == counts.Keys && (forall s :: s in imports ==> counts[s] == |imports[s]|)
      && (forall d, w :: 0 <= d < |scopes| && w in scopes[d].wildcards ==> w.stmt in imports)
      && (forall x :: x in decls ==> Indexed(x.symbol))
    }

    /** The index of an imported symbol is its position in the import list. */
    ghost predicate Indexed(s: Symbol)
      reads this
    {
      var k := s.kind;
      k.Imported? ==> k.stmt in imports && k.index < |imports[k.stmt]| && imports[k.stmt][k.index] == k.name
    }

    /** Between the scope at depth `d` and the innermost one a function begins. */
    ghost predicate Crosses(d: nat)
      reads this
    {
      exists k :: d < k < |scopes| && scopes[k].functionBoundary
    }

    /** symbolScope_increase. */
    method Open(functionBoundary: bool)
      requires Valid()
      modifies this`scopes
      ensures Valid() && scopes == old(scopes) + [Scope(functionBoundary, [], [])]
    {
      NewestNone(decls, |scopes|);
      scopes := scopes + [Scope(functionBoundary, [], [])];
    }

    /** symbolScope_decrease. */
    method Close()
      requires Valid() && scopes != []
      modifies this`scopes, this`decls
      ensures Valid() && scopes == old(scopes)[..|old(scopes)| - 1] && decls == Without(old(decls), |scopes|)
    {
      hide Newest, Without;
      var top := |scopes| - 1;
      ghost var open := Without(decls, top);
      WithoutKeeps(decls, top);
      forall e | 0 <= e < top ensures Newest(open, e) == scopes[e].symbols {
        NewestWithout(decls, top, e);
      }
      decls := open;
      scopes := scopes[..top];
    }

    /** A new entry in the list of the scope at depth `d`. */
    method Add(d: nat, s: Symbol)
      requires Valid() && d < |scopes| && Indexed(s)
      modifies this`scopes, this`decls
      ensures Valid() && decls == old(decls) + [Decl(d, s)]
      ensures scopes == old(scopes)[d := old(scopes)[d].(symbols := [s] + old(scopes)[d].symbols)]
    {
      hide Newest;
      forall e | 0 <= e < |scopes|
        ensures Newest(decls + [Decl(d, s)], e) == (if e == d then [s] else []) + scopes[e].symbols
      {
        NewestNext(decls, Decl(d, s), e);
      }
      decls := decls + [Decl(d, s)];
      scopes := scopes[d := scopes[d].(symbols := [s] + scopes[d].symbols)];
    }

    /** addSymbol and addSpecialSymbol: a declaration in the innermost scope. */
    method Declare(s: Symbol)
      requires Valid() && scopes != [] && !s.kind.Imported?
      modifies this`scopes, this`decls
      ensures Valid() && |scopes| == |old(scopes)| && decls == old(decls) + [Decl(|scopes| - 1, s)]
    {
      Add(|scopes| - 1, s);
    }

    /** The search of ptrs_ast_getSymbol through the scopes, from the inside out; `crossed` says whether it
        left a function on its way. */
    method Search(text: Name) returns (r: Option<Decl>, crossed: bool)
      requires Valid()
      ensures IsLookup(decls, text, r)
      ensures r.Some? ==> r.value in decls && r.value.depth < |scopes| && crossed == Crosses(r.value.depth)
    {
      crossed := false;
      var d := |scopes|;
      while d > 0
        invariant 0 <= d <= |scopes|
        invariant forall i :: 0 <= i < |decls| && decls[i].symbol.text == text ==> decls[i].depth < d
        invariant crossed == exists k :: d <= k < |scopes| && scopes[k].functionBoundary
      {
        d := d - 1;
        FirstIsLast(decls, d, text);
        var s := FindIn(scopes[d].symbols, text);
        if s.Some? {
          ghost var i := LastAt(decls, d, text).value;
          assert Wins(decls, text, i);
          return Some(Decl(d, s.value)), crossed;
        }
        crossed := crossed || scopes[d].functionBoundary;
      }
      r := None;
    }

    /** ptrs_ast_getSymbol: a variable that is found outside of the function is marked addressable, and for a
        member so is the `this` it belongs to.  A member has no `this` (and `ok` is false) if nothing of that name is
        found, or if that is itself a member: the lookup then calls itself with the same arguments for ever. */
    method Lookup(text: Name) returns (r: Option<Decl>, ok: bool)
      requires Valid()
      modifies this`addressable
      ensures Valid() && IsLookup(decls, text, r)
      ensures r.Some? && r.value.symbol.kind.Variable? ==>
        ok && addressable == old(addressable) +
          if Crosses(r.value.depth) then {r.value.symbol.kind.location} else {}
      ensures r.Some? && !r.value.symbol.kind.Variable? && !r.value.symbol.kind.ThisMember? ==> ok && addressable == old(addressable)
      ensures r.Some? && r.value.symbol.kind.ThisMember? ==>
        exists t :: IsLookup(decls, "this", t) && ok == (t.Some? && !t.value.symbol.kind.ThisMember?)
          && addressable == old(addressable) +
            if t.Some? && t.value.symbol.kind.Variable? && Crosses(t.value.depth) then {t.value.symbol.kind.location} else {}
      ensures r.None? ==> !ok && addressable == old(addressable)
    {
      var crossed;
      r, crossed := Search(text);
      ok := r.Some?;
      if r.Some? && r.value.symbol.kind.Variable? && crossed {
        addressable := addressable + {r.value.symbol.kind.location};
      }
      if r.Some? && r.value.symbol.kind.ThisMember? {
        var t, left := Search("this");
        ok := t.Some? && !t.value.symbol.kind.ThisMember?;
        if t.Some? && t.value.symbol.kind.Variable? && left {
          addressable := addressable + {t.value.symbol.kind.location};
        }
      }
    }

    // ---------- imports ----------

    /** The start of parseImport: a new import statement. */
    method NewImport(stmt: nat)
      requires Valid() && stmt !in imports
      modifies this`imports, this`counts
      ensures Valid() && imports == old(imports)[stmt := []]
    {
      imports := imports[stmt := []];
      counts := counts[stmt := 0];
    }

    /** A new entry at the end of an import list, and the index its symbol gets. */
    method Append(stmt: nat, name: Name) returns (index: nat)
      requires Valid() && stmt in imports
      modifies this`imports, this`counts
      ensures Valid() && index == |old(imports)[stmt]|
      ensures imports == old(imports)[stmt := old(imports)[stmt] + [name]]
    {
      index := counts[stmt];
      imports := imports[stmt := imports[stmt] + [name]];
      counts := counts[stmt := index + 1];
    }

    /** An import by name. */
    method ImportName(stmt: nat, name: Name, text: Name)
      requires Valid() && stmt in imports && scopes != []
      modifies this`imports, this`counts, this`scopes, this`decls
      ensures Valid() && imports == old(imports)[stmt := old(imports)[stmt] + [name]]
      ensures |scopes| == |old(scopes)| && decls == old(decls) + [Decl(|scopes| - 1, Symbol(text, Imported(stmt, |old(imports)[stmt]|, name)))]
    {
      var index := Append(stmt, name);
      Add(|scopes| - 1, Symbol(text, Imported(stmt, index, name)));
    }

    /** An import by wildcard. */
    method ImportWildcard(stmt: nat, start: Name)
      requires Valid() && stmt in imports && scopes != []
      modifies this`scopes
      ensures Valid() && |scopes| == |old(scopes)|
      ensures var d := |scopes| - 1;
        scopes == old(scopes)[d := old(scopes)[d].(wildcards := [Wildcard(stmt, start)] + old(scopes)[d].wildcards)]
    {
      var d := |scopes| - 1;
      scopes := scopes[d := scopes[d].(wildcards := [Wildcard(stmt, start)] + scopes[d].wildcards)];
    }

    /** The latest wildcard of the innermost scope that has one for this name. */
    ghost predicate IsWildcard(text: Name, d: nat, w: Wildcard)
      reads this
    {
      && d < |scopes| && w in scopes[d].wildcards && w.start <= text
      && forall e, v :: d < e < |scopes| && v in scopes[e].wildcards ==> !(v.start <= text)
    }

    /** getSymbol: a name that no declaration has is added to the import list of a wildcard that fits, and to the
        scope of that wildcard. */
    method GetSymbol(text: Name) returns (r: Option<Decl>)
      requires Valid()
      modifies this
      ensures Valid() && |scopes| == |old(scopes)|
      ensures r.Some? ==> IsLookup(decls, text, r) && Indexed(r.value.symbol)
      ensures !old(IsLookup(decls, text, None)) ==> decls == old(decls) && imports == old(imports)
      ensures old(IsLookup(decls, text, None)) && r.Some? ==>
        exists d, w :: old(IsWildcard(text, d, w)) && r.value == Decl(d, Symbol(text, Imported(w.stmt, |old(imports)[w.stmt]|, text)))
          && imports == old(imports)[w.stmt := old(imports)[w.stmt] + [text]] && decls == old(decls) + [r.value]
      ensures old(IsLookup(decls, text, None)) && r.None? ==>
        forall e, v :: 0 <= e < |scopes| && v in scopes[e].wildcards ==> !(v.start <= text)
    {
      var ok;
      r, ok := Lookup(text);
      if r.Some? {
        assert r.value in decls;
        return if ok then r else None;
      }
      var found, d, w := FindWildcard(text);
      if !found {
        return None;
      }
      var index := Append(w.stmt, text);
      var s := Symbol(text, Imported(w.stmt, index, text));
      Add(d, s);
      r := Some(Decl(d, s));
      assert Wins(decls, text, |decls| - 1);
    }

    method FindWildcard(text: Name) returns (found: bool, d: nat, w: Wildcard)
      requires Valid()
      ensures found ==> IsWildcard(text, d, w)
      ensures !found ==> forall e, v :: 0 <= e < |scopes| && v in scopes[e].wildcards ==> !(v.start <= text)
    {
      found, d, w := false, |scopes|, Wildcard(0, []);
      while d > 0
        invariant 0 <= d <= |scopes|
        invariant forall e, v :: d <= e < |scopes| && v in scopes[e].wildcards ==> !(v.start <= text)
      {
        d := d - 1;
        var i := 0;
        while i < |scopes[d].wildcards|
          invariant 0 <= i <= |scopes[d].wildcards|
          invariant forall j :: 0 <= j < i ==> !(scopes[d].wildcards[j].start <= text)
        {
          if scopes[d].wildcards[i].start <= text {
            return true, d, scopes[d].wildcards[i];
          }
          i := i + 1;
        }
      }
    }
  }

  /** The search through one list. */
  method FindIn(symbols: seq<Symbol>, text: Name) returns (r: Option<Symbol>)
    ensures r == FirstMatch(symbols, text)
  {
    var i := 0;
    assert symbols[0..] == symbols;
    while i < |symbols|
      invariant 0 <= i <= |symbols| && FirstMatch(symbols, text) == FirstMatch(symbols[i..], text)
    {
      if symbols[i].text == text {
        return Some(symbols[i]);
      }
      assert symbols[i..][1..] == symbols[i + 1..];
      i := i + 1;
    }
    r := None;
  }
}
