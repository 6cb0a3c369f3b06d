/** The mutable dependency graph of the scheduler (internal/scheduler/dag.go). */
module Dags {
  import opened Graphs
  import opened Strings

  datatype EdgeError = SelfLoop | NodeNotFound(id: Id) | WouldCycle

  datatype EdgeResult = Added | Refused(error: EdgeError)

  datatype Color = White | Gray | Black

  type Coloring = map<Id, Color>

  /** A node absent from the colour map is white. */
  function ColorOf(c: Coloring, id: Id): Color {
    if id in c then c[id] else White
  }

  ghost predicate EdgeClosed(nodes: set<Id>, e: Edges) {
    forall u, v {:trigger (u, v) in RelOf(e)} :: (u, v) in RelOf(e) ==> u in nodes && v in nodes
  }

  /** In-degrees count the edges, with multiplicity, from nodes not completed. */
  ghost predicate Ledger(nodes: set<Id>, e: Edges, inDegree: map<Id, int>, completed: set<Id>) {
    && inDegree.Keys == nodes
    && forall n {:trigger inDegree[n]} :: n in nodes ==> inDegree[n] == InCount(e, nodes - completed, n)
  }

  ghost predicate WellFormed(nodes: set<Id>, e: Edges, inDegree: map<Id, int>, completed: set<Id>) {
    && EdgeClosed(nodes, e)
    && Acyclic(RelOf(e))
    && Ledger(nodes, e, inDegree, completed)
  }

  // ------------------------------------------------------ three-colour marking

  /** What a depth-first search has established: black nodes have only black
      successors and lie on no cycle. */
  ghost predicate Explored(e: Edges, c: Coloring) {
    && (forall u, v {:trigger (u, v) in RelOf(e)} :: ColorOf(c, u) == Black && (u, v) in RelOf(e) ==> ColorOf(c, v) == Black)
    && (forall p {:trigger IsPath(RelOf(e), p)} :: IsPath(RelOf(e), p) && |p| >= 2 && ColorOf(c, p[0]) == Black ==> p[0] != p[|p| - 1])
  }

  /** Between two moments of one search: grey nodes stay, black nodes stay. */
  ghost predicate Advances(c: Coloring, c': Coloring) {
    forall x :: (ColorOf(c', x) == Gray <==> ColorOf(c, x) == Gray) && (ColorOf(c, x) == Black ==> ColorOf(c', x) == Black)
  }

  ghost function WhiteNodes(nodes: set<Id>, c: Coloring): set<Id> {
    set x | x in nodes && ColorOf(c, x) == White
  }

  /** Blackening a grey node whose successors are all black keeps Explored. */
  lemma FinishNode(e: Edges, c: Coloring, id: Id)
    requires Explored(e, c) && ColorOf(c, id) == Gray
    requires forall v :: (id, v) in RelOf(e) ==> ColorOf(c, v) == Black
    ensures Explored(e, c[id := Black])
  {
    var r := RelOf(e);
    var black := set x | x in c && c[x] == Black;
    forall p | IsPath(r, p) && |p| >= 2 && p[0] == id
      ensures p[0] != p[|p| - 1]
    {
      NoCycleOutside(r, black, id, p);
    }
  }

  lemma EnterThenFinish(c: Coloring, id: Id, c': Coloring)
    requires ColorOf(c, id) == White && Advances(c[id := Gray], c')
    ensures Advances(c, c'[id := Black])
  {
    forall x
      ensures ColorOf(c'[id := Black], x) == Gray <==> ColorOf(c, x) == Gray
      ensures ColorOf(c, x) == Black ==> ColorOf(c'[id := Black], x) == Black
    {
      assert x != id ==> ColorOf(c[id := Gray], x) == ColorOf(c, x) && ColorOf(c'[id := Black], x) == ColorOf(c', x);
    }
  }

  lemma EnterShrinks(nodes: set<Id>, c: Coloring, id: Id, c': Coloring)
    requires id in nodes && ColorOf(c, id) == White && Advances(c[id := Gray], c')
    ensures WhiteNodes(nodes, c') < WhiteNodes(nodes, c)
  {
    assert id in WhiteNodes(nodes, c) && ColorOf(c[id := Gray], id) == Gray && id !in WhiteNodes(nodes, c');
    assert forall x :: x != id ==> ColorOf(c[id := Gray], x) == ColorOf(c, x);
  }

  // -------------------------------------------------------------- stack search

  /** What the search knows: everything seen is reachable, and the edges out of
      visited nodes lead to seen nodes, never to the target. */
  ghost predicate Searching(r: Rel, universe: set<Id>, start: Id, target: Id, visited: set<Id>, stack: seq<Id>) {
    && visited <= universe
    && (forall x :: x in stack ==> x in universe)
    && (start in visited || start in stack)
    && target !in visited
    && target !in stack
    && (forall x :: x in stack || x in visited ==> Reach(r, start, x))
    && (forall u, v {:trigger (u, v) in r} :: u in visited && (u, v) in r ==> v in visited || v in stack)
  }

  lemma SearchPop(r: Rel, universe: set<Id>, start: Id, target: Id, visited: set<Id>, stack: seq<Id>)
    requires Searching(r, universe, start, target, visited, stack) && stack != []
    ensures var curr := stack[|stack| - 1];
            curr in universe && curr != target && Reach(r, start, curr)
    ensures var curr, rest := stack[|stack| - 1], stack[..|stack| - 1];
            curr in visited ==> Searching(r, universe, start, target, visited, rest)
    ensures forall x :: x in stack <==> x in stack[..|stack| - 1] || x == stack[|stack| - 1]
  {
  }

  lemma SearchExpand(r: Rel, universe: set<Id>, start: Id, target: Id, visited: set<Id>, rest: seq<Id>, curr: Id,
                     succs: seq<Id>)
    requires Searching(r, universe, start, target, visited, rest + [curr]) && curr !in visited
    requires forall v :: v in succs <==> (curr, v) in r
    requires forall v :: (curr, v) in r ==> v in universe && v != target
    ensures Searching(r, universe, start, target, visited + {curr}, rest + succs)
    ensures |universe - (visited + {curr})| < |universe - visited|
  {
    assert curr in rest + [curr];
    assert universe - (visited + {curr}) == (universe - visited) - {curr};
    forall x | x in succs
      ensures Reach(r, start, x)
    {
      ReachEdge(r, curr, x);
      ReachTrans(r, start, curr, x);
    }
  }

  /** The open nodes none of whose predecessors is open. */
  ghost function ReadyIn(e: Edges, open: set<Id>): set<Id> {
    set n | n in open && forall u {:trigger (u, n) in RelOf(e)} :: u in open ==> (u, n) !in RelOf(e)
  }

  lemma ReadyByCount(e: Edges, open: set<Id>)
    ensures forall n :: n in ReadyIn(e, open) <==> n in open && InCount(e, open, n) == 0
  {
    forall n
      ensures InCount(e, open, n) == 0 <==> forall u {:trigger (u, n) in RelOf(e)} :: u in open ==> (u, n) !in RelOf(e)
    {
      InCountZero(e, open, n);
    }
  }

  lemma CountWithout(e: Edges, nodes: set<Id>, open: set<Id>, id: Id, n: Id)
    requires EdgeClosed(nodes, e) && open <= nodes && (id in nodes ==> id in open)
    ensures InCount(e, open - {id}, n) == InCount(e, open, n) - Mult(e, id, n)
  {
    if id in open {
      InCountRemove(e, open, id, n);
    } else {
      assert open - {id} == open;
      assert (id, n) !in RelOf(e);
    }
  }

  lemma CountCovers(nodes: set<Id>, e: Edges, open: set<Id>, id: Id)
    requires EdgeClosed(nodes, e) && open <= nodes && (id in nodes ==> id in open)
    ensures forall n :: n in Succ(e, id) ==> n in nodes && multiset(Succ(e, id))[n] <= InCount(e, open, n)
  {
    forall n | n in Succ(e, id)
      ensures n in nodes && Mult(e, id, n) <= InCount(e, open, n)
    {
      assert (id, n) in RelOf(e);
      CountWithout(e, nodes, open, id, n);
    }
  }

  lemma SplitCount(s: seq<Id>, i: nat)
    requires i < |s|
    ensures multiset(s[..i + 1]) == multiset(s[..i]) + multiset{s[i]}
    ensures forall n :: n in s[..i + 1] <==> n in s[..i] || n == s[i]
    ensures multiset(s[..i + 1])[s[i]] <= multiset(s)[s[i]]
  {
    assert s[..i + 1] == s[..i] + [s[i]];
    assert s == s[..i + 1] + s[i + 1..];
  }

  /** Progress: in an acyclic graph some open node is ready. */
  lemma SomeReady(e: Edges, open: set<Id>)
    requires Acyclic(RelOf(e))
    ensures open != {} ==> ReadyIn(e, open) != {}
  {
    if x :| x in open {
      var s := SourceBelow(RelOf(e), open, x);
      assert s in ReadyIn(e, open);
    }
  }

  /** Completing id: the ledger follows, and the nodes whose count drops to
      zero are the newly ready ones. */
  lemma CompleteEffect(nodes: set<Id>, e: Edges, before: map<Id, int>, after: map<Id, int>, open: set<Id>, id: Id)
    requires EdgeClosed(nodes, e) && open <= nodes && (id in nodes ==> id in open)
    requires before.Keys == after.Keys == nodes
    requires forall n :: n in nodes ==> before[n] == InCount(e, open, n)
    requires forall n :: n in nodes ==> after[n] == before[n] - Mult(e, id, n)
    ensures forall n :: n in nodes ==> after[n] == InCount(e, open - {id}, n)
    ensures forall n :: n in nodes ==> Mult(e, id, n) <= before[n]
    ensures forall n :: n in ReadyIn(e, open - {id}) && n !in ReadyIn(e, open)
                    <==> n in Succ(e, id) && n in open && n != id && after[n] == 0
  {
    forall n
      ensures InCount(e, open - {id}, n) == InCount(e, open, n) - Mult(e, id, n)
    {
      CountWithout(e, nodes, open, id, n);
    }
    ReadyByCount(e, open);
    ReadyByCount(e, open - {id});
  }

  /** The ledger after an insertion is right exactly when the new predecessor
      is still open. */
  lemma InsertLedger(nodes: set<Id>, e: Edges, inDegree: map<Id, int>, completed: set<Id>, from: Id, to: Id)
    requires Ledger(nodes, e, inDegree, completed) && from in nodes && to in nodes
    ensures Ledger(nodes, e[from := Succ(e, from) + [to]], inDegree[to := inDegree[to] + 1], completed)
            <==> from !in completed
  {
    var e', open := e[from := Succ(e, from) + [to]], nodes - completed;
    forall n
      ensures InCount(e', open, n) == InCount(e, open, n) + if n == to && from in open then 1 else 0
    {
      InCountInsert(e, open, from, to, n);
    }
    var d' := inDegree[to := inDegree[to] + 1];
    assert d'.Keys == nodes;
    assert d'[to] == InCount(e', open, to) <==> from in open;
  }

  lemma InsertWellFormed(nodes: set<Id>, e: Edges, inDegree: map<Id, int>, completed: set<Id>, from: Id, to: Id)
    requires WellFormed(nodes, e, inDegree, completed) && from in nodes && to in nodes
    requires Acyclic(RelOf(e) + {(from, to)})
    ensures WellFormed(nodes, e[from := Succ(e, from) + [to]], inDegree[to := inDegree[to] + 1], completed)
            <==> from !in completed
  {
    InsertClosed(nodes, e, from, to);
    InsertRelation(e, from, to);
    InsertLedger(nodes, e, inDegree, completed, from, to);
  }

  lemma InsertClosed(nodes: set<Id>, e: Edges, from: Id, to: Id)
    requires EdgeClosed(nodes, e) && from in nodes && to in nodes
    ensures EdgeClosed(nodes, e[from := Succ(e, from) + [to]])
  {
    InsertRelation(e, from, to);
  }

  lemma AddNodeWellFormed(nodes: set<Id>, e: Edges, inDegree: map<Id, int>, completed: set<Id>, id: Id)
    requires WellFormed(nodes, e, inDegree, completed) && id !in nodes
    ensures WellFormed(nodes + {id}, e, inDegree[id := 0], completed)
  {
    var open, open' := nodes - completed, nodes + {id} - completed;
    forall n
      ensures InCount(e, open', n) == InCount(e, open, n)
    {
      assert (id, n) !in RelOf(e) && open' - {id} == open;
      if id in open' {
        InCountRemove(e, open', id, n);
      } else {
        assert open' == open;
      }
    }
    InCountZero(e, open, id);
  }

  /** Every grey node is on the search's path to the node being explored. */
  ghost predicate GrayReaches(r: Rel, c: Coloring, id: Id) {
    forall g :: ColorOf(c, g) == Gray ==> Reach(r, g, id)
  }

  lemma GrayReachesSuccessor(r: Rel, c: Coloring, id: Id, succ: Id)
    requires GrayReaches(r, c, id) && (id, succ) in r
    ensures GrayReaches(r, c, succ)
  {
    ReachEdge(r, id, succ);
    forall g | ColorOf(c, g) == Gray
      ensures Reach(r, g, succ)
    {
      ReachTrans(r, g, id, succ);
    }
  }

  /** Greying a white node keeps what is explored and starts its path. */
  lemma EnterGray(e: Edges, c: Coloring, id: Id)
    requires ColorOf(c, id) == White && Explored(e, c) && GrayReaches(RelOf(e), c, id)
    ensures Explored(e, c[id := Gray])
    ensures forall c' :: Advances(c[id := Gray], c') ==> GrayReaches(RelOf(e), c', id) && ColorOf(c', id) == Gray
  {
    ReachSelf(RelOf(e), id);
    assert forall x :: x != id ==> ColorOf(c[id := Gray], x) == ColorOf(c, x);
    assert ColorOf(c[id := Gray], id) == Gray;
  }

  class DAG {
    var nodes: set<Id>
    var edges: Edges
    var inDegree: map<Id, int>
    var completed: set<Id>

    constructor ()
      ensures Valid() && nodes == {} && edges == map[] && completed == {}
    {
      nodes, edges, inDegree, completed := {}, map[], map[], {};
      new;
      assert forall p: seq<Id> :: |p| >= 2 && IsPath(RelOf(edges), p) ==> (p[0], p[0 + 1]) in RelOf(edges);
    }

    ghost function Relation(): Rel
      reads this
    {
      RelOf(edges)
    }

    ghost predicate Valid()
      reads this
    {
      WellFormed(nodes, edges, inDegree, completed)
    }

    ghost function ReadySet(): set<Id>
      reads this
    {
      ReadyIn(edges, nodes - completed)
    }

    method AddNode(id: Id)
      requires Valid()
      modifies this`nodes, this`inDegree
      ensures Valid() && nodes == old(nodes) + {id}
    {
      if id in nodes {
        return;
      }
      AddNodeWellFormed(nodes, edges, inDegree, completed, id);
      nodes := nodes + {id};
      if id !in inDegree {
        inDegree := inDegree[id := 0];
      }
    }

    /** Pushes the successors of curr, stopping early at the target. */
    method PushSuccessors(curr: Id, target: Id, stack: seq<Id>) returns (found: bool, pushed: seq<Id>)
      ensures found <==> (curr, target) in Relation()
      ensures !found ==> pushed == stack + Succ(edges, curr)
    {
      var succs := Succ(edges, curr);
      pushed := stack;
      for i := 0 to |succs|
        invariant pushed == stack + succs[..i]
        invariant target !in succs[..i]
      {
        if succs[i] == target {
          return true, pushed;
        }
        pushed := pushed + [succs[i]];
      }
      found := false;
    }

    /** Stack search; exact on every edge-closed graph. */
    method Reachable(start: Id, target: Id) returns (b: bool)
      requires EdgeClosed(nodes, edges)
      ensures b <==> Reach(Relation(), start, target)
    {
      ghost var r := Relation();
      ReachSelf(r, start);
      if start == target {
        return true;
      }
      ghost var universe := nodes + {start};
      var visited: set<Id> := {};
      var stack := [start];
      while |stack| > 0
        invariant Searching(r, universe, start, target, visited, stack)
        decreases |universe - visited|, |stack|
      {
        var curr := stack[|stack| - 1];
        SearchPop(r, universe, start, target, visited, stack);
        stack := stack[..|stack| - 1];
        if curr in visited {
          continue;
        }
        var found, pushed := PushSuccessors(curr, target, stack);
        if found {
          ReachEdge(r, curr, target);
          ReachTrans(r, start, curr, target);
          return true;
        }
        SearchExpand(r, universe, start, target, visited, stack, curr, Succ(edges, curr));
        visited := visited + {curr};
        stack := pushed;
      }
      if Reach(r, start, target) {
        var p :| Connects(r, p, start, target);
        ClosedSetTrapsPath(r, visited, p, |p| - 1);
      }
      b := false;
    }

    /** Accepts exactly the edges between known nodes that keep the graph
        acyclic. The in-degree ledger survives exactly when the new
        predecessor has not been completed yet. */
    method AddEdge(from: Id, to: Id) returns (res: EdgeResult)
      requires Valid()
      modifies this`edges, this`inDegree
      ensures res.Added? <==> from in nodes && to in nodes && Acyclic(old(Relation()) + {(from, to)})
      ensures res.Refused? ==> unchanged(this)
      ensures res.Added? ==> Relation() == old(Relation()) + {(from, to)} && (Valid() <==> from !in completed)
      ensures res.Added? ==> forall u, v :: Mult(edges, u, v) == old(Mult(edges, u, v)) + if u == from && v == to then 1 else 0
      ensures res == Refused(SelfLoop) <==> from == to
      ensures res.Refused? && res.error.NodeNotFound? ==> res.error.id in {from, to} - nodes
    {
      InsertKeepsAcyclicIff(Relation(), from, to);
      ReachSelf(Relation(), from);
      if from == to {
        return Refused(SelfLoop);
      }
      if from !in nodes {
        return Refused(NodeNotFound(from));
      }
      if to !in nodes {
        return Refused(NodeNotFound(to));
      }
      var cyclic := Reachable(to, from);
      if cyclic {
        return Refused(WouldCycle);
      }
      InsertWellFormed(nodes, edges, inDegree, completed, from, to);
      InsertRelation(edges, from, to);
      InsertMult(edges, from, to);
      edges := edges[from := Succ(edges, from) + [to]];
      inDegree := inDegree[to := inDegree[to] + 1];
      res := Added;
    }

    /** The ready nodes, sorted; empty only when no node is uncompleted. */
    method Ready() returns (ready: seq<Id>)
      requires Valid()
      ensures StrictlySorted(ready) && Elems(ready) == ReadySet()
      ensures ready == [] <==> nodes <= completed
    {
      var result: seq<Id> := [];
      var todo := nodes;
      ReadyByCount(edges, nodes - completed);
      while todo != {}
        invariant todo <= nodes && Distinct(result)
        invariant forall x :: x in result <==> x in ReadySet() && x !in todo
        decreases todo
      {
        var id :| id in todo;
        assert id in ReadySet() <==> id !in completed && inDegree[id] == 0;
        if id !in completed && inDegree[id] == 0 {
          result := result + [id];
        }
        todo := todo - {id};
      }
      ready := SortByKey((x: Id) => x, result);
      SortedDistinctIsStrict(result, ready);
      assert Elems(result) == ReadySet();
      SomeReady(edges, nodes - completed);
      NoElems(ready);
    }

    /** Releases the successors of id and returns those that just became
        ready, each once. */
    method Complete(id: Id) returns (newlyReady: seq<Id>)
      requires Valid()
      modifies this`inDegree, this`completed
      ensures completed == old(completed) + {id}
      ensures Valid()
      ensures Distinct(newlyReady)
      ensures forall n :: n in newlyReady <==> n in ReadySet() && n !in old(ReadySet())
    {
      newlyReady := [];
      if id in completed {
        return;
      }
      ghost var before, open := inDegree, nodes - completed;
      completed := completed + {id};
      assert nodes - completed == open - {id};
      CountCovers(nodes, edges, open, id);
      newlyReady := Release(Succ(edges, id));
      CompleteEffect(nodes, edges, before, inDegree, open, id);
      assert Ledger(nodes, edges, inDegree, completed);
    }

    /** Decrements the in-degree of every listed successor and collects those
        that reach zero. */
    method Release(succs: seq<Id>) returns (newlyReady: seq<Id>)
      requires forall n :: n in succs ==> n in inDegree && multiset(succs)[n] <= inDegree[n]
      modifies this`inDegree
      ensures inDegree.Keys == old(inDegree).Keys
      ensures forall n :: n in inDegree ==> inDegree[n] == old(inDegree)[n] - multiset(succs)[n]
      ensures Distinct(newlyReady)
      ensures forall n :: n in newlyReady <==> n in succs && n !in completed && inDegree[n] == 0
    {
      newlyReady := [];
      for i := 0 to |succs|
        invariant inDegree.Keys == old(inDegree).Keys
        invariant forall n :: n in inDegree ==> inDegree[n] == old(inDegree)[n] - multiset(succs[..i])[n]
        invariant Distinct(newlyReady)
        invariant forall n :: n in newlyReady <==> n in succs[..i] && n !in completed && inDegree[n] == 0
      {
        var succ := succs[i];
        SplitCount(succs, i);
        inDegree := inDegree[succ := inDegree[succ] - 1];
        if inDegree[succ] == 0 && succ !in completed {
          newlyReady := newlyReady + [succ];
        }
      }
      assert succs[..|succs|] == succs;
    }

    /** The number of nodes not completed yet, as long as only known ids were
        completed; every unknown one makes it too small by one. */
    function Remaining(): (n: int)
      reads this
      ensures n == |nodes - completed| - |completed - nodes|
    {
      DifferenceSizes(nodes, completed);
      |nodes| - |completed|
    }

    function Dependents(id: Id): (succs: seq<Id>)
      reads this
      ensures forall v :: v in succs <==> (id, v) in Relation()
    {
      Succ(edges, id)
    }

    /** One branch of the three-colour search, from a white node whose callers
        are the grey nodes. */
    method Dfs(id: Id, color: Coloring) returns (ok: bool, color': Coloring)
      requires EdgeClosed(nodes, edges) && id in nodes
      requires ColorOf(color, id) == White && Explored(edges, color) && GrayReaches(Relation(), color, id)
      ensures ok ==> Explored(edges, color') && Advances(color, color') && ColorOf(color', id) == Black
      ensures !ok ==> !Acyclic(Relation())
      decreases WhiteNodes(nodes, color), 1
    {
      EnterGray(edges, color, id);
      color' := color[id := Gray];
      var succs := Succ(edges, id);
      for i := 0 to |succs|
        invariant Explored(edges, color') && Advances(color[id := Gray], color')
        invariant forall x :: x in succs[..i] ==> ColorOf(color', x) == Black
      {
        EnterShrinks(nodes, color, id, color');
        ok, color' := Visit(id, succs[i], color');
        if !ok {
          return;
        }
        SplitCount(succs, i);
      }
      FinishNode(edges, color', id);
      EnterThenFinish(color, id, color');
      color' := color'[id := Black];
      ok := true;
    }

    /** The search's step along one edge out of the grey node id. */
    method Visit(id: Id, succ: Id, color: Coloring) returns (ok: bool, color': Coloring)
      requires EdgeClosed(nodes, edges) && (id, succ) in Relation()
      requires ColorOf(color, id) == Gray && Explored(edges, color) && GrayReaches(Relation(), color, id)
      ensures ok ==> Explored(edges, color') && Advances(color, color') && ColorOf(color', succ) == Black
      ensures !ok ==> !Acyclic(Relation())
      decreases WhiteNodes(nodes, color), 2
    {
      match ColorOf(color, succ) {
        case Gray =>
          BackEdgeIsCycle(Relation(), id, succ);
          ok, color' := false, color;
        case White =>
          GrayReachesSuccessor(Relation(), color, id, succ);
          ok, color' := Dfs(succ, color);
        case Black =>
          ok, color' := true, color;
      }
    }

    /** Accepts exactly the non-empty acyclic graphs, on any edge-closed graph. */
    method Validate() returns (ok: bool)
      requires EdgeClosed(nodes, edges)
      ensures ok <==> nodes != {} && Acyclic(Relation())
    {
      if nodes == {} {
        return false;
      }
      var color: Coloring := map[];
      var todo := nodes;
      while todo != {}
        invariant todo <= nodes && Explored(edges, color)
        invariant forall x :: ColorOf(color, x) != Gray
        invariant forall x :: x in nodes - todo ==> ColorOf(color, x) == Black
        decreases todo
      {
        var id :| id in todo;
        if ColorOf(color, id) == White {
          ok, color := Dfs(id, color);
          if !ok {
            return;
          }
        }
        todo := todo - {id};
      }
      forall p | IsPath(Relation(), p) && |p| >= 2
        ensures p[0] != p[|p| - 1]
      {
        PathTail(Relation(), p);
      }
      ok := true;
    }
  }
}
