/** Script imports: a recursive walk over the import graph with a cache whose entries are absent, in
    progress or compiled (jit/statements.c, importScript). */
module Imports {
  import opened Basics

  /** One import of a script; `found` says whether all the imported names are defined there. */
  datatype Import = Import(target: nat, found: bool)

  /** The files that can be read, and the imports in each, in order. */
  type Graph = map<nat, seq<Import>>

  datatype Verdict = Fine | Circular | Unreadable | NoProperty

  // ---------- the import graph ----------

  predicate Targets(list: seq<Import>, p: nat) {
    exists i :: 0 <= i < |list| && list[i].target == p
  }

  /** A chain of imports that starts in the root script (which is not itself on it). */
  ghost predicate Trail(g: Graph, root: seq<Import>, s: seq<nat>) {
    && |s| > 0 && Targets(root, s[0])
    && forall i :: 0 <= i < |s| - 1 ==> s[i] in g && Targets(g[s[i]], s[i + 1])
  }

  ghost predicate Reachable(g: Graph, root: seq<Import>, p: nat) {
    exists s :: Trail(g, root, s) && s[|s| - 1] == p
  }

  /** A script imports itself, directly or through others, and the root gets there. */
  ghost predicate HasCycle(g: Graph, root: seq<Import>) {
    exists s, i :: Trail(g, root, s) && 0 <= i < |s| - 1 && s[i] == s[|s| - 1]
  }

  /** The root, or a script it gets to, has this import. */
  ghost predicate Occurs(g: Graph, root: seq<Import>, m: Import) {
    m in root || exists p :: Reachable(g, root, p) && p in g && m in g[p]
  }

  /** A file cannot be read, or a name is missing. */
  ghost predicate HasDefect(g: Graph, root: seq<Import>) {
    exists m :: Occurs(g, root, m) && (m.target !in g || !m.found)
  }

  lemma Extend(g: Graph, root: seq<Import>, s: seq<nat>, p: nat)
    requires if s == [] then Targets(root, p) else Trail(g, root, s) && s[|s| - 1] in g && Targets(g[s[|s| - 1]], p)
    ensures Trail(g, root, s + [p])
  {
    var t := s + [p];
    forall i | 0 <= i < |t| - 1 ensures t[i] in g && Targets(g[t[i]], t[i + 1]) {
      if i < |s| - 1 { assert t[i] == s[i] && t[i + 1] == s[i + 1]; }
    }
  }

  lemma Shorten(g: Graph, root: seq<Import>, s: seq<nat>, k: nat)
    requires Trail(g, root, s) && 0 < k <= |s|
    ensures Trail(g, root, s[..k])
  {
  }

  lemma TargetOf(list: seq<Import>, m: Import)
    requires m in list
    ensures Targets(list, m.target)
  {
    var i :| 0 <= i < |list| && list[i] == m;
  }

  // ---------- compiled scripts ----------

  /** Every script comes after the scripts it imports, and once. */
  ghost predicate Ordered(g: Graph, order: seq<nat>) {
    && (forall i, j :: 0 <= i < j < |order| ==> order[i] != order[j])
    && (forall i :: 0 <= i < |order| ==> order[i] in g)
    && (forall i, m :: 0 <= i < |order| && m in g[order[i]] ==> m.found && m.target in order[..i])
  }

  lemma OrderedAppend(g: Graph, order: seq<nat>, p: nat)
    requires Ordered(g, order) && p in g && p !in order && forall m :: m in g[p] ==> m.found && m.target in order
    ensures Ordered(g, order + [p])
  {
    var after := order + [p];
    forall i, m | 0 <= i < |after| && m in g[after[i]] ensures m.found && m.target in after[..i] {
      assert after[..i] == order[..i];
      if i < |order| { assert m in g[order[i]]; }
    }
  }

  lemma {:induction false} TrailGoesBack(g: Graph, root: seq<Import>, order: seq<nat>, s: seq<nat>, k: nat) returns (at: seq<nat>)
    requires Ordered(g, order) && Trail(g, root, s) && k < |s| && forall m :: m in root ==> m.target in order
    ensures |at| == k + 1 && forall i :: 0 <= i <= k ==> at[i] < |order| && order[at[i]] == s[i]
    ensures forall i, j :: 0 <= i < j <= k ==> at[j] < at[i]
    decreases k
  {
    if k == 0 {
      var i :| 0 <= i < |root| && root[i].target == s[0];
      assert root[i] in root;
      var a :| 0 <= a < |order| && order[a] == s[0];
      at := [a];
    } else {
      at := TrailGoesBack(g, root, order, s, k - 1);
      var i :| 0 <= i < |g[s[k - 1]]| && g[s[k - 1]][i].target == s[k];
      var m := g[s[k - 1]][i];
      assert m in g[order[at[k - 1]]];
      var a :| 0 <= a < at[k - 1] && order[a] == s[k];
      at := at + [a];
    }
  }

  /** If all imports of the root are compiled, in order, there is no cycle, no defect, and everything that
      can be reached is compiled. */
  lemma OrderedMeansSound(g: Graph, root: seq<Import>, order: seq<nat>)
    requires Ordered(g, order) && forall m :: m in root ==> m.found && m.target in order
    ensures !HasCycle(g, root) && !HasDefect(g, root)
    ensures forall p :: Reachable(g, root, p) ==> p in order
  {
    forall s | Trail(g, root, s)
      ensures s[|s| - 1] in order && forall i :: 0 <= i < |s| - 1 ==> s[i] != s[|s| - 1]
    {
      var at := TrailGoesBack(g, root, order, s, |s| - 1);
    }
    forall m | Occurs(g, root, m) ensures m.target in g && m.found {
      if m !in root {
        var p :| Reachable(g, root, p) && p in g && m in g[p];
        var i :| 0 <= i < |order| && order[i] == p;
        assert m in g[order[i]];
      }
    }
  }

  // ---------- the walk ----------

  class Importer {
    const graph: Graph
    const root: seq<Import>

    /** The cache: compiled, or (false) in progress. */
    var cache: map<nat, bool>
    /** The scripts in the order in which their compilation ended. */
    var order: seq<nat>
    /** The scripts in progress, the innermost last. */
    ghost var stack: seq<nat>

    constructor (graph: Graph, root: seq<Import>)
      ensures this.graph == graph && this.root == root && Valid() && stack == [] && order == []
    {
      this.graph, this.root, cache, order, stack := graph, root, map[], [], [];
    }

    ghost predicate Valid()
      reads this
    {
      && (forall p :: p in cache ==> p in graph)
      && (forall p :: p in order <==> p in cache && cache[p])
      && (forall p :: p in stack <==> p in cache && !cache[p])
      && Ordered(graph, order) && (forall p :: p in order ==> Reachable(graph, root, p))
      && (stack != [] ==> Trail(graph, root, stack))
    }

    /** The imports of the script being compiled. */
    ghost function Current(): seq<Import>
      requires Valid()
      reads this
    {
      if stack == [] then root else graph[stack[|stack| - 1]]
    }

    ghost function Unread(): set<nat>
      reads this
    {
      graph.Keys - cache.Keys
    }

    lemma NextTrail(m: Import)
      requires Valid() && m in Current()
      ensures Trail(graph, root, stack + [m.target]) && Reachable(graph, root, m.target)
      ensures Occurs(graph, root, m)
    {
      TargetOf(Current(), m);
      Extend(graph, root, stack, m.target);
      var t := stack + [m.target];
      assert t[|t| - 1] == m.target;
      if stack != [] {
        assert Reachable(graph, root, stack[|stack| - 1]);
      }
    }

    /** importScript. */
    method ImportScript(m: Import) returns (v: Verdict)
      requires Valid() && m in Current()
      modifies this
      ensures v == Circular ==> HasCycle(graph, root)
      ensures v == Unreadable || v == NoProperty ==> HasDefect(graph, root)
      ensures v == Fine ==>
        && Valid() && stack == old(stack) && old(order) <= order && m.found && m.target in order
        && old(cache.Keys) <= cache.Keys
      decreases Unread(), 1
    {
      NextTrail(m);
      var from := m.target;
      if from !in graph {
        return Unreadable;
      }
      if from !in cache {
        v := Compile(m);
        if v != Fine {
          return;
        }
      } else if !cache[from] {
        ghost var s := stack + [from];
        ghost var i :| 0 <= i < |stack| && stack[i] == from;
        assert s[i] == s[|s| - 1];
        return Circular;
      }
      v := if m.found then Fine else NoProperty;
    }

    /** A script that is not in the cache: it is entered as in progress, its own imports are processed while
        its code is generated, and then it is marked as compiled. */
    method Compile(m: Import) returns (v: Verdict)
      requires Valid() && m in Current() && m.target in graph && m.target !in cache
      modifies this
      ensures v == Circular ==> HasCycle(graph, root)
      ensures v == Unreadable || v == NoProperty ==> HasDefect(graph, root)
      ensures v == Fine ==>
        && Valid() && stack == old(stack) && old(order) <= order && m.target in order && old(cache.Keys) <= cache.Keys
      decreases Unread(), 0
    {
      hide Ordered, Trail, HasCycle, HasDefect, Reachable, Occurs;
      var from := m.target;
      Enter(m);
      var list := graph[from];
      var i := 0;
      while i < |list|
        invariant 0 <= i <= |list| && Valid() && stack == old(stack) + [from] && old(order) <= order
        invariant old(cache.Keys) <= cache.Keys && from in cache && !cache[from]
        invariant forall k :: 0 <= k < i ==> list[k].found && list[k].target in order
      {
        v := ImportScript(list[i]);
        if v != Fine {
          return;
        }
        assert from in stack;
        i := i + 1;
      }
      Finish(from);
      v := Fine;
    }

    method Enter(m: Import)
      requires Valid() && m in Current() && m.target in graph && m.target !in cache
      modifies this
      ensures Valid() && stack == old(stack) + [m.target] && order == old(order)
      ensures cache == old(cache)[m.target := false] && Unread() < old(Unread())
    {
      NextTrail(m);
      cache := cache[m.target := false];
      stack := stack + [m.target];
      assert m.target in old(Unread()) && m.target !in Unread();
    }

    method Finish(from: nat)
      requires Valid() && stack != [] && stack[|stack| - 1] == from && from !in stack[..|stack| - 1]
      requires forall m :: m in graph[from] ==> m.found && m.target in order
      modifies this
      ensures Valid() && stack == old(stack)[..|old(stack)| - 1] && order == old(order) + [from] && cache.Keys == old(cache.Keys)
    {
      assert from in stack;
      OrderedAppend(graph, order, from);
      assert Reachable(graph, root, from);
      if |stack| > 1 {
        Shorten(graph, root, stack, |stack| - 1);
      }
      cache := cache[from := true];
      order := order + [from];
      stack := stack[..|stack| - 1];
    }

    /** The import statements of the root script, which is compiled without being entered into the cache. */
    method ImportAll() returns (v: Verdict)
      requires Valid() && stack == [] && order == []
      modifies this
      ensures v == Fine ==> !HasCycle(graph, root) && !HasDefect(graph, root)
      ensures v == Circular ==> HasCycle(graph, root)
      ensures v == Unreadable || v == NoProperty ==> HasDefect(graph, root)
      ensures !HasDefect(graph, root) ==> (v == Circular <==> HasCycle(graph, root)) && (v == Fine <==> !HasCycle(graph, root))
      ensures v == Fine ==> Ordered(graph, order) && forall p :: p in order <==> Reachable(graph, root, p)
    {
      hide Ordered, Trail, HasCycle, HasDefect, Reachable, Occurs;
      v := Fine;
      var i := 0;
      while i < |root|
        invariant 0 <= i <= |root| && Valid() && stack == [] && v == Fine
        invariant forall k :: 0 <= k < i ==> root[k].found && root[k].target in order
      {
        v := ImportScript(root[i]);
        if v != Fine {
          return;
        }
        i := i + 1;
      }
      OrderedMeansSound(graph, root, order);
    }
  }
}
