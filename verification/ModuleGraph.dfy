/** Modules that import other modules.

    The graph of the modules is a map from every module to what it imports; `Module.Import` searches it for a way
    back before it adds an edge. */
module ModuleGraph {
  type Graph<T(==)> = map<T, seq<T>>

  /** Where one can get from `a` in exactly `n` imports. */
  ghost function Walk<T>(g: Graph<T>, a: T, n: nat): set<T> {
    if n == 0 then {a} else set m, k | m in Walk(g, a, n - 1) && m in g && 0 <= k < |g[m]| :: g[m][k]
  }

  ghost predicate Reaches<T>(g: Graph<T>, a: T, b: T) {
    exists n: nat :: b in Walk(g, a, n)
  }

  ghost predicate Acyclic<T>(g: Graph<T>) {
    forall a, n: nat :: a in g && n >= 1 ==> a !in Walk(g, a, n)
  }

  function Imported<T(==)>(g: Graph<T>, a: T, b: T): Graph<T>
    requires a in g
  {
    g[a := g[a] + [b]]
  }

  lemma {:induction false} WalkOn<T>(g: Graph<T>, a: T, b: T, c: T, n: nat, m: nat)
    requires b in Walk(g, a, n) && c in Walk(g, b, m)
    ensures c in Walk(g, a, n + m)
    decreases m
  {
    if m > 0 {
      var d, k :| d in Walk(g, b, m - 1) && d in g && 0 <= k < |g[d]| && c == g[d][k];
      WalkOn(g, a, b, d, n, m - 1);
    }
  }

  lemma ReachesOn<T>(g: Graph<T>, a: T, b: T, c: T)
    requires Reaches(g, a, b) && Reaches(g, b, c)
    ensures Reaches(g, a, c)
  {
    var n: nat :| b in Walk(g, a, n);
    var m: nat :| c in Walk(g, b, m);
    WalkOn(g, a, b, c, n, m);
  }

  lemma ReachesEdge<T>(g: Graph<T>, a: T, b: T, k: nat)
    requires Reaches(g, a, b) && b in g && k < |g[b]|
    ensures Reaches(g, a, g[b][k])
  {
    var n: nat :| b in Walk(g, a, n);
    assert g[b][k] in Walk(g, a, n + 1);
  }

  /** A walk that the new edge has made possible goes to the importing module first and ends in something the
      imported module reaches, both without the new edge. */
  lemma {:induction false} NewWalk<T>(g: Graph<T>, x: T, y: T, a: T, b: T, n: nat)
    requires x in g && b in Walk(Imported(g, x, y), a, n)
    ensures b in Walk(g, a, n) || (Reaches(g, a, x) && Reaches(g, y, b))
    decreases n
  {
    var g' := Imported(g, x, y);
    if n > 0 && b !in Walk(g, a, n) {
      var m, k :| m in Walk(g', a, n - 1) && m in g' && 0 <= k < |g'[m]| && b == g'[m][k];
      NewWalk(g, x, y, a, m, n - 1);
      if m == x && k == |g[x]| {
        assert b == y && y in Walk(g, y, 0);
      } else if m !in Walk(g, a, n - 1) {
        ReachesEdge(g, y, m, k);
      }
    }
  }

  lemma {:induction false} OldWalk<T>(g: Graph<T>, x: T, y: T, a: T, b: T, n: nat)
    requires x in g && b in Walk(g, a, n)
    ensures b in Walk(Imported(g, x, y), a, n)
    decreases n
  {
    if n > 0 {
      var m, k :| m in Walk(g, a, n - 1) && m in g && 0 <= k < |g[m]| && b == g[m][k];
      OldWalk(g, x, y, a, m, n - 1);
      assert Imported(g, x, y)[m][k] == b;
    }
  }

  /** An import keeps the graph acyclic if and only if the imported module does not reach the importing one. */
  lemma ImportKeepsAcyclic<T>(g: Graph<T>, x: T, y: T)
    requires Acyclic(g) && x in g
    ensures Acyclic(Imported(g, x, y)) <==> !Reaches(g, y, x)
  {
    var g' := Imported(g, x, y);
    if Reaches(g, y, x) {
      var n: nat :| x in Walk(g, y, n);
      OldWalk(g, x, y, y, x, n);
      assert g'[x][|g[x]|] == y && x in Walk(g', x, 0);
      assert y in Walk(g', x, 1);
      WalkOn(g', x, y, x, 1, n);
    } else {
      forall a, n: nat | a in g' && n >= 1
        ensures a !in Walk(g', a, n)
      {
        if a in Walk(g', a, n) {
          NewWalk(g, x, y, a, a, n);
          ReachesOn(g, y, a, x);
        }
      }
    }
  }

  // ----- Runs -----

  /** Creating a module, which imports nothing, or importing one into another. */
  datatype Action<T> = Create(m: T) | Import(x: T, y: T)

  ghost function Act<T>(g: Graph<T>, a: Action<T>): Graph<T> {
    match a
    case Create(m) => if m in g then g else g[m := []]
    case Import(x, y) => if x in g && y in g && !Reaches(g, y, x) then Imported(g, x, y) else g
  }

  ghost function Run<T>(g: Graph<T>, actions: seq<Action<T>>): Graph<T>
    decreases |actions|
  {
    if actions == [] then g else Act(Run(g, actions[..|actions| - 1]), actions[|actions| - 1])
  }

  /** Whatever is imported into whatever, in whatever order, no module ever comes to depend on itself. */
  lemma {:induction false} ImportsStayAcyclic<T>(actions: seq<Action<T>>)
    ensures Acyclic(Run(map[], actions)) && Closed(Run(map[], actions))
    decreases |actions|
  {
    if actions == [] {
    } else {
      var g := Run(map[], actions[..|actions| - 1]);
      ImportsStayAcyclic(actions[..|actions| - 1]);
      match actions[|actions| - 1]
      case Create(m) =>
        if m !in g {
          CreateKeepsAcyclic(g, m);
        }
      case Import(x, y) =>
        if x in g {
          ImportKeepsAcyclic(g, x, y);
        }
    }
  }

  /** Modules import modules of the graph only. */
  ghost predicate Closed<T>(g: Graph<T>) {
    forall m, k :: m in g && 0 <= k < |g[m]| ==> g[m][k] in g
  }

  lemma CreateKeepsAcyclic<T>(g: Graph<T>, m: T)
    requires Acyclic(g) && Closed(g) && m !in g
    ensures Acyclic(g[m := []])
  {
    var g' := g[m := []];
    forall a, n: nat | a in g' && n >= 1
      ensures a !in Walk(g', a, n)
    {
      if a == m {
        WalkFromNew(g, m, n);
      } else {
        WalkWithout(g, m, a, n);
      }
    }
  }

  lemma {:induction false} WalkFromNew<T>(g: Graph<T>, m: T, n: nat)
    requires n >= 1
    ensures Walk(g[m := []], m, n) == {}
    decreases n
  {
    if n > 1 {
      WalkFromNew(g, m, n - 1);
    }
  }

  lemma {:induction false} WalkWithout<T>(g: Graph<T>, m: T, a: T, n: nat)
    requires Closed(g) && m !in g && a in g
    ensures Walk(g[m := []], a, n) == Walk(g, a, n) <= g.Keys
    decreases n
  {
    if n > 0 {
      WalkWithout(g, m, a, n - 1);
      assert forall d :: d in Walk(g, a, n - 1) ==> d in g && g[m := []][d] == g[d];
    }
  }

  // ----- The search -----

  class ModuleNode {
    var imports: seq<ModuleNode>

    constructor ()
      ensures imports == []
    {
      imports := [];
    }

    /** The inner loop of the search: the imports not seen before are marked and put on the stack. */
    method PushImports(ghost nodes: set<ModuleNode>, ghost start: ModuleNode, visited0: set<ModuleNode>,
                       stack0: seq<ModuleNode>)
      returns (visited: set<ModuleNode>, stack: seq<ModuleNode>)
      requires this in visited0 && visited0 <= nodes && ImportsWithin(nodes)
      requires forall n :: n in stack0 ==> n in visited0
      requires forall n :: n in visited0 ==> Reaches(GraphOf(nodes), start, n)
      ensures visited0 <= visited <= nodes && stack0 <= stack && (visited == visited0 ==> stack == stack0)
      ensures forall n :: n in visited <==> n in visited0 || n in imports
      ensures forall n :: n in visited && n !in visited0 ==> n in stack
      ensures forall n :: n in stack ==> n in visited
      ensures forall n :: n in visited ==> Reaches(GraphOf(nodes), start, n)
    {
      visited, stack := visited0, stack0;
      ghost var g := GraphOf(nodes);
      var k := 0;
      while k < |imports|
        invariant 0 <= k <= |imports|
        invariant visited0 <= visited <= nodes && stack0 <= stack && (visited == visited0 ==> stack == stack0)
        invariant forall n :: n in visited <==> n in visited0 || n in imports[..k]
        invariant forall n :: n in visited && n !in visited0 ==> n in stack
        invariant forall n :: n in stack ==> n in visited
        invariant forall n :: n in visited ==> Reaches(g, start, n)
      {
        var next := imports[k];
        if next !in visited {
          ReachesEdge(g, start, this, k);
          visited, stack := visited + {next}, stack + [next];
        }
        k := k + 1;
      }
      assert imports[..k] == imports;
    }

    /** `Module::Import`: search everything `other` imports, directly or not, and add it unless this module is there. */
    method Import(other: ModuleNode, ghost nodes: set<ModuleNode>) returns (ok: bool)
      requires this in nodes && other in nodes && ImportsWithin(nodes)
      modifies this
      ensures ok <==> !Reaches(old(GraphOf(nodes)), other, this)
      ensures imports == if ok then old(imports) + [other] else old(imports)
      ensures ImportsWithin(nodes)
      ensures old(Acyclic(GraphOf(nodes))) ==> Acyclic(GraphOf(nodes))
    {
      hide Acyclic, Reaches;
      var visited := {other};
      var stack := [other];
      ghost var g := GraphOf(nodes);
      ReachesItself(g, other);
      while |stack| > 0
        invariant GraphOf(nodes) == g && imports == old(imports)
        invariant other in visited && visited <= nodes && forall n :: n in stack ==> n in visited
        invariant forall n :: n in visited ==> Reaches(g, other, n)
        invariant forall n, k :: n in visited && n !in stack && 0 <= k < |g[n]| ==> g[n][k] in visited
        decreases nodes - visited, |stack|
      {
        var n := stack[|stack| - 1];
        stack := stack[..|stack| - 1];
        visited, stack := n.PushImports(nodes, other, visited, stack);
      }
      AllVisited(g, other, visited);
      if this in visited {
        return false;
      }
      imports := imports + [other];
      assert GraphOf(nodes) == Imported(g, this, other);
      if Acyclic(g) {
        ImportKeepsAcyclic(g, this, other);
      }
      ok := true;
    }
  }

  lemma ReachesItself<T>(g: Graph<T>, a: T)
    requires a in g
    ensures Reaches(g, a, a)
  {
    assert a in Walk(g, a, 0);
  }

  ghost predicate ImportsWithin(nodes: set<ModuleNode>)
    reads nodes
  {
    forall n :: n in nodes ==> forall k :: 0 <= k < |n.imports| ==> n.imports[k] in nodes
  }

  ghost function GraphOf(nodes: set<ModuleNode>): Graph<ModuleNode>
    reads nodes
  {
    map n | n in nodes :: n.imports
  }

  /** A set that contains `a` and all imports of its elements contains everything `a` reaches. */
  lemma AllVisited<T>(g: Graph<T>, a: T, visited: set<T>)
    requires a in visited && visited <= g.Keys
    requires forall n, k :: n in visited && 0 <= k < |g[n]| ==> g[n][k] in visited
    ensures forall b :: Reaches(g, a, b) ==> b in visited
  {
    forall b | Reaches(g, a, b)
      ensures b in visited
    {
      var n: nat :| b in Walk(g, a, n);
      WalkStays(g, a, visited, n);
    }
  }

  lemma {:induction false} WalkStays<T>(g: Graph<T>, a: T, visited: set<T>, n: nat)
    requires a in visited && visited <= g.Keys
    requires forall n, k :: n in visited && 0 <= k < |g[n]| ==> g[n][k] in visited
    ensures Walk(g, a, n) <= visited
    decreases n
  {
    if n > 0 {
      WalkStays(g, a, visited, n - 1);
    }
  }
}
