/** Finite directed graphs over task IDs: paths, reachability, acyclicity,
    longest chains and edge counting. Everything here is about values; the
    mutable graph of the scheduler is in module Dags.
 */
module Graphs {
  type Id = string

  /** An edge (u, v) means "u must complete before v". */
  type Rel = set<(Id, Id)>

  /** Successor lists; repeated entries are parallel edges. */
  type Edges = map<Id, seq<Id>>

  function Succ(e: Edges, u: Id): seq<Id> {
    if u in e then e[u] else []
  }

  ghost function RelOf(e: Edges): (r: Rel)
    ensures forall u, v {:trigger (u, v) in r} :: (u, v) in r <==> v in Succ(e, u)
  {
    set u, k | u in e && 0 <= k < |e[u]| :: (u, e[u][k])
  }

  ghost function Successors(r: Rel, u: Id): (s: set<Id>)
    ensures forall v :: v in s <==> (u, v) in r
  {
    var s := set e | e in r && e.0 == u :: e.1;
    assert forall v :: (u, v) in r ==> (u, v).1 in s;
    s
  }

  // ---------------------------------------------------------------- paths

  ghost predicate IsPath(r: Rel, p: seq<Id>) {
    |p| > 0 && forall i :: 0 <= i < |p| - 1 ==> (p[i], p[i + 1]) in r
  }

  ghost predicate Connects(r: Rel, p: seq<Id>, u: Id, v: Id) {
    IsPath(r, p) && p[0] == u && p[|p| - 1] == v
  }

  ghost predicate Reach(r: Rel, u: Id, v: Id) {
    exists p :: Connects(r, p, u, v)
  }

  ghost predicate Acyclic(r: Rel) {
    forall p {:trigger IsPath(r, p)} :: IsPath(r, p) && |p| >= 2 ==> p[0] != p[|p| - 1]
  }

  lemma ReachSelf(r: Rel, u: Id)
    ensures Reach(r, u, u)
  {
    assert Connects(r, [u], u, u);
  }

  lemma ReachTrans(r: Rel, u: Id, v: Id, w: Id)
    requires Reach(r, u, v) && Reach(r, v, w)
    ensures Reach(r, u, w)
  {
    var p :| Connects(r, p, u, v);
    var q :| Connects(r, q, v, w);
    assert Connects(r, p + q[1..], u, w);
  }

  lemma ReachEdge(r: Rel, u: Id, v: Id)
    requires (u, v) in r
    ensures Reach(r, u, v)
  {
    assert Connects(r, [u, v], u, v);
  }

  /** Going back along an edge whose target reaches its source closes a cycle. */
  lemma BackEdgeIsCycle(r: Rel, u: Id, v: Id)
    requires (u, v) in r && Reach(r, v, u)
    ensures !Acyclic(r)
  {
    var p :| Connects(r, p, v, u);
    var q := p + [v];
    assert IsPath(r, q) && |q| >= 2 && q[0] == q[|q| - 1];
  }

  /** A set closed under successors contains everything a path from it meets. */
  lemma {:induction false} ClosedSetTrapsPath(r: Rel, S: set<Id>, p: seq<Id>, k: nat)
    requires IsPath(r, p) && k < |p| && p[0] in S
    requires forall u, v {:trigger (u, v) in r} :: u in S && (u, v) in r ==> v in S
    ensures p[k] in S
  {
    if k > 0 {
      ClosedSetTrapsPath(r, S, p, k - 1);
      assert (p[k - 1], p[k - 1 + 1]) in r;
    }
  }

  lemma PathTail(r: Rel, p: seq<Id>)
    requires IsPath(r, p) && |p| >= 2
    ensures (p[0], p[1]) in r && IsPath(r, p[1..])
  {
  }

  /** No cycle passes through a node whose successors lie in a successor-closed
      set without it. */
  lemma NoCycleOutside(r: Rel, S: set<Id>, id: Id, p: seq<Id>)
    requires id !in S && forall v :: (id, v) in r ==> v in S
    requires forall u, v {:trigger (u, v) in r} :: u in S && (u, v) in r ==> v in S
    requires IsPath(r, p) && |p| >= 2 && p[0] == id
    ensures p[|p| - 1] != id
  {
    PathTail(r, p);
    ClosedSetTrapsPath(r, S, p[1..], |p| - 2);
  }

  lemma SubgraphAcyclic(r: Rel, r': Rel)
    requires r <= r' && Acyclic(r')
    ensures Acyclic(r)
  {
    forall p | IsPath(r, p) && |p| >= 2
      ensures p[0] != p[|p| - 1]
    {
      assert IsPath(r', p);
    }
  }

  // ------------------------------------------------ inserting one more edge

  /** If a walk in r + {(u, v)} goes from v to u, then r alone has one: cut
      the walk at its first visit of u. */
  lemma {:induction false} WalkWithoutNewEdge(r: Rel, u: Id, v: Id, q: seq<Id>)
    requires Connects(r + {(u, v)}, q, v, u)
    ensures Reach(r, v, u)
    decreases |q|
  {
    if k :| 0 <= k < |q| - 1 && q[k] == u {
      WalkWithoutNewEdge(r, u, v, q[..k + 1]);
    } else {
      assert Connects(r, q, v, u);
    }
  }

  /** The check made before an edge is inserted is exact. */
  lemma InsertKeepsAcyclicIff(r: Rel, u: Id, v: Id)
    requires Acyclic(r)
    ensures Acyclic(r + {(u, v)}) <==> !Reach(r, v, u)
  {
    var r' := r + {(u, v)};
    if Reach(r, v, u) {
      var p :| Connects(r, p, v, u);
      assert Connects(r', p, v, u);
      BackEdgeIsCycle(r', u, v);
    } else {
      forall p | IsPath(r', p) && |p| >= 2
        ensures p[0] != p[|p| - 1]
      {
        if p[0] == p[|p| - 1] {
          CycleUsesNewEdge(r, u, v, p);
        }
      }
    }
  }

  lemma CycleUsesNewEdge(r: Rel, u: Id, v: Id, p: seq<Id>)
    requires Acyclic(r)
    requires IsPath(r + {(u, v)}, p) && |p| >= 2 && p[0] == p[|p| - 1]
    ensures Reach(r, v, u)
  {
    assert !IsPath(r, p);
    var k :| 0 <= k < |p| - 1 && (p[k], p[k + 1]) !in r;
    var q := p[k + 1..] + p[1..k + 1];
    var m := |p| - 1 - k;
    forall i | 0 <= i < |q| - 1
      ensures (q[i], q[i + 1]) in r + {(u, v)}
    {
      var j := if i < m then k + 1 + i else i - m + 1;
      assert i != m - 1 ==> q[i] == p[j] && q[i + 1] == p[j + 1];
      assert i == m - 1 ==> q[i] == p[0] && q[i + 1] == p[0 + 1];
    }
    WalkWithoutNewEdge(r, u, v, q);
  }

  // ------------------------------------- ancestors, ranks, sources, induction

  /** The nodes with a non-empty path to v. */
  ghost function StrictAncestors(r: Rel, v: Id): set<Id> {
    set e | e in r && Reach(r, e.1, v) :: e.0
  }

  /** In an acyclic graph a node's ancestors shrink along every edge walked
      backwards; Rank is the measure for recursion over dependencies. */
  ghost function Rank(r: Rel, v: Id): nat {
    |StrictAncestors(r, v)|
  }

  lemma SubsetSize<T>(a: set<T>, b: set<T>)
    requires a <= b
    ensures |a| <= |b| && (a != b ==> |a| < |b|)
  {
    assert b == a + (b - a);
  }

  lemma DifferenceSizes<T>(a: set<T>, b: set<T>)
    ensures |a| - |b| == |a - b| - |b - a|
  {
    assert a == (a - b) + (a * b) && b == (b - a) + (a * b);
  }

  lemma RankDrops(r: Rel, u: Id, v: Id)
    requires Acyclic(r) && (u, v) in r
    ensures Rank(r, u) < Rank(r, v)
  {
    var a, b := StrictAncestors(r, u), StrictAncestors(r, v);
    forall e | e in r && Reach(r, e.1, u)
      ensures Reach(r, e.1, v)
    {
      ReachEdge(r, u, v);
      ReachTrans(r, e.1, u, v);
    }
    ReachSelf(r, v);
    assert (u, v).0 in b;
    if u in a {
      var e :| e in r && Reach(r, e.1, u) && e.0 == u;
      BackEdgeIsCycle(r, e.0, e.1);
    }
    SubsetSize(a, b);
  }

  ghost predicate IsSource(r: Rel, S: set<Id>, s: Id) {
    s in S && forall u {:trigger (u, s) in r} :: u in S ==> (u, s) !in r
  }

  /** Walking backwards inside S from x must stop, at a node of S without a
      predecessor in S. */
  lemma {:induction false} SourceBelow(r: Rel, S: set<Id>, x: Id) returns (s: Id)
    requires Acyclic(r) && x in S
    ensures IsSource(r, S, s)
    decreases Rank(r, x)
  {
    if u :| u in S && (u, x) in r {
      RankDrops(r, u, x);
      s := SourceBelow(r, S, u);
    } else {
      s := x;
    }
  }

  // --------------------------------------------------------- longest chains

  /** v ends a chain of k edges and no chain ending in v has more. */
  ghost predicate IsLevel(r: Rel, v: Id, k: nat) {
    && (exists p {:trigger ChainTo(r, p, v)} :: ChainTo(r, p, v) && |p| == k + 1)
    && (forall p {:trigger ChainTo(r, p, v)} :: ChainTo(r, p, v) ==> |p| <= k + 1)
  }

  ghost predicate ChainTo(r: Rel, p: seq<Id>, v: Id) {
    IsPath(r, p) && p[|p| - 1] == v
  }

  lemma LevelUnique(r: Rel, v: Id, j: nat, k: nat)
    requires IsLevel(r, v, j) && IsLevel(r, v, k)
    ensures j == k
  {
  }

  lemma LastEdge(r: Rel, p: seq<Id>)
    requires IsPath(r, p) && |p| >= 2
    ensures (p[|p| - 2], p[|p| - 1]) in r
    ensures ChainTo(r, p[..|p| - 1], p[|p| - 2])
  {
  }

  lemma LevelOfSource(r: Rel, v: Id)
    requires forall u {:trigger (u, v) in r} :: (u, v) !in r
    ensures IsLevel(r, v, 0)
  {
    assert ChainTo(r, [v], v);
    forall p | ChainTo(r, p, v)
      ensures |p| <= 1
    {
      if |p| > 1 {
        LastEdge(r, p);
      }
    }
  }

  /** One predecessor at level b and none above puts v at level b + 1. */
  lemma LevelAbove(r: Rel, v: Id, u: Id, b: nat, level: map<Id, nat>)
    requires (u, v) in r && u in level && level[u] == b
    requires forall w {:trigger (w, v) in r} :: (w, v) in r ==> w in level && level[w] <= b && IsLevel(r, w, level[w])
    ensures IsLevel(r, v, b + 1)
  {
    var p :| ChainTo(r, p, u) && |p| == b + 1;
    assert ChainTo(r, p + [v], v);
    forall q | ChainTo(r, q, v)
      ensures |q| <= b + 2
    {
      if |q| > 1 {
        LastEdge(r, q);
      }
    }
  }

  ghost predicate LevelBelow(r: Rel, v: Id, n: nat) {
    exists k: nat :: k < n && IsLevel(r, v, k)
  }

  /** Chains that are bounded have a longest one. */
  lemma {:induction false} BoundedHasLevel(r: Rel, v: Id, bound: nat)
    requires forall p {:trigger ChainTo(r, p, v)} :: ChainTo(r, p, v) ==> |p| <= bound
    ensures LevelBelow(r, v, bound)
  {
    assert ChainTo(r, [v], v);
    if p :| ChainTo(r, p, v) && |p| == bound {
      assert IsLevel(r, v, bound - 1);
    } else {
      BoundedHasLevel(r, v, bound - 1);
    }
  }

  lemma LevelOfDependency(r: Rel, u: Id, v: Id, k: nat)
    requires (u, v) in r && IsLevel(r, v, k)
    ensures LevelBelow(r, u, k)
  {
    forall p | ChainTo(r, p, u)
      ensures |p| <= k
    {
      assert ChainTo(r, p + [v], v);
    }
    BoundedHasLevel(r, u, k);
  }

  /** A numbering that rises along every edge rules out cycles. */
  lemma NumberedIsAcyclic(r: Rel, num: map<Id, nat>)
    requires forall u, v {:trigger (u, v) in r} :: (u, v) in r ==> u in num && v in num && num[u] < num[v]
    ensures Acyclic(r)
  {
    forall p | IsPath(r, p) && |p| >= 2
      ensures p[0] != p[|p| - 1]
    {
      NumbersRise(r, num, p);
    }
  }

  lemma {:induction false} NumbersRise(r: Rel, num: map<Id, nat>, p: seq<Id>)
    requires forall u, v {:trigger (u, v) in r} :: (u, v) in r ==> u in num && v in num && num[u] < num[v]
    requires IsPath(r, p) && |p| >= 2
    ensures p[0] in num && p[|p| - 1] in num && num[p[0]] < num[p[|p| - 1]]
  {
    LastEdge(r, p);
    if |p| > 2 {
      NumbersRise(r, num, p[..|p| - 1]);
    }
  }

  // ---------------------------------------------------------- edge counting

  ghost function Mult(e: Edges, u: Id, n: Id): nat {
    multiset(Succ(e, u))[n]
  }

  /** The entries for n in the successor lists of us. */
  ghost function Slots(e: Edges, us: set<Id>, n: Id): set<(Id, int)> {
    set u, k | u in us && 0 <= k < |Succ(e, u)| && Succ(e, u)[k] == n :: (u, k)
  }

  /** The number of edges from nodes of us into n, parallel edges included. */
  ghost function InCount(e: Edges, us: set<Id>, n: Id): nat {
    |Slots(e, us, n)|
  }

  ghost function SlotsIn(u: Id, s: seq<Id>, n: Id): set<(Id, int)> {
    set k | 0 <= k < |s| && s[k] == n :: (u, k)
  }

  lemma {:induction false} SlotsInCount(u: Id, s: seq<Id>, n: Id)
    ensures |SlotsIn(u, s, n)| == multiset(s)[n]
  {
    if s != [] {
      var m := |s| - 1;
      SlotsInCount(u, s[..m], n);
      assert s == s[..m] + [s[m]];
      assert SlotsIn(u, s, n) == SlotsIn(u, s[..m], n) + if s[m] == n then {(u, m)} else {};
    }
  }

  lemma InCountRemove(e: Edges, us: set<Id>, u: Id, n: Id)
    requires u in us
    ensures InCount(e, us, n) == Mult(e, u, n) + InCount(e, us - {u}, n)
  {
    SlotsInCount(u, Succ(e, u), n);
    assert Slots(e, us, n) == SlotsIn(u, Succ(e, u), n) + Slots(e, us - {u}, n);
  }

  lemma {:induction false} InCountZero(e: Edges, us: set<Id>, n: Id)
    ensures InCount(e, us, n) == 0 <==> forall u {:trigger (u, n) in RelOf(e)} :: u in us ==> (u, n) !in RelOf(e)
  {
    if us != {} {
      var u :| u in us;
      InCountRemove(e, us, u, n);
      InCountZero(e, us - {u}, n);
      assert Mult(e, u, n) == 0 <==> (u, n) !in RelOf(e);
    }
  }

  lemma {:induction false} InCountFrame(e: Edges, e': Edges, us: set<Id>, n: Id)
    requires forall u :: u in us ==> Mult(e, u, n) == Mult(e', u, n)
    ensures InCount(e, us, n) == InCount(e', us, n)
  {
    if us != {} {
      var u :| u in us;
      InCountRemove(e, us, u, n);
      InCountRemove(e', us, u, n);
      InCountFrame(e, e', us - {u}, n);
    }
  }

  lemma InsertRelation(e: Edges, from: Id, to: Id)
    ensures RelOf(e[from := Succ(e, from) + [to]]) == RelOf(e) + {(from, to)}
  {
  }

  lemma InsertMult(e: Edges, from: Id, to: Id)
    ensures forall u, v :: Mult(e[from := Succ(e, from) + [to]], u, v)
                        == Mult(e, u, v) + if u == from && v == to then 1 else 0
  {
  }

  /** Appending one successor adds one to one count. */
  lemma InCountInsert(e: Edges, us: set<Id>, from: Id, to: Id, n: Id)
    ensures InCount(e[from := Succ(e, from) + [to]], us, n)
            == InCount(e, us, n) + if n == to && from in us then 1 else 0
  {
    var e' := e[from := Succ(e, from) + [to]];
    if from in us {
      InCountRemove(e, us, from, n);
      InCountRemove(e', us, from, n);
      InCountFrame(e, e', us - {from}, n);
    } else {
      InCountFrame(e, e', us, n);
    }
  }
}
