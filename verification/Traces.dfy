/** Whole runs of the wave loop: chains of complete rounds from the start, and
    how they end.
 */
module Traces {
  import opened Graphs
  import opened Options
  import opened Runs

  /** The states of a run after each of its complete rounds. */
  ghost predicate IsTrace(r: Rel, nodes: set<Id>, env: Env, cid: string, trace: seq<(Progress, multiset<Id>)>) {
    && trace != []
    && trace[0] == (START, multiset{})
    && forall i :: 0 < i < |trace| ==> RoundAt(r, nodes, env, cid, trace, i)
  }

  ghost predicate RoundAt(r: Rel, nodes: set<Id>, env: Env, cid: string, trace: seq<(Progress, multiset<Id>)>, i: int)
    requires 0 < i < |trace|
  {
    FullRound(r, nodes, env, cid, trace[i - 1].0, trace[i].0, trace[i - 1].1, trace[i].1)
  }

  lemma TraceGrows(r: Rel, nodes: set<Id>, env: Env, cid: string, trace: seq<(Progress, multiset<Id>)>, p: Progress,
                   calls: multiset<Id>)
    requires IsTrace(r, nodes, env, cid, trace)
    requires FullRound(r, nodes, env, cid, trace[|trace| - 1].0, p, trace[|trace| - 1].1, calls)
    ensures IsTrace(r, nodes, env, cid, trace + [(p, calls)])
  {
    var trace' := trace + [(p, calls)];
    forall i | 0 < i < |trace'|
      ensures RoundAt(r, nodes, env, cid, trace', i)
    {
      assert i < |trace| ==> RoundAt(r, nodes, env, cid, trace, i);
    }
  }

  lemma {:induction false} TraceKeepsHistory(r: Rel, nodes: set<Id>, env: Env, cid: string,
                                             trace: seq<(Progress, multiset<Id>)>, n: nat, p: Progress, calls: multiset<Id>)
    requires IsTrace(r, nodes, env, cid, trace) && n < |trace| && trace[n] == (p, calls) && DependenciesIn(r, nodes)
    ensures BetweenRounds(r, nodes, env, cid, p, calls) && Frontier(r, nodes, p, n)
  {
    if n == 0 {
      StartOfRun(r, nodes, env, cid);
    } else {
      var (p0, calls0) := trace[n - 1];
      TraceKeepsHistory(r, nodes, env, cid, trace, n - 1, p0, calls0);
      assert RoundAt(r, nodes, env, cid, trace, n);
      FullRoundKeeps(r, nodes, env, cid, p0, p, calls0, calls, n - 1, n);
    }
  }

  /** A run ends after its last complete round with an outcome for every task,
      or in a round that stops before a wave because the context is cancelled. */
  ghost predicate RunEnds(r: Rel, nodes: set<Id>, env: Env, cid: string, trace: seq<(Progress, multiset<Id>)>,
                          p: Progress, calls: multiset<Id>)
  {
    && IsTrace(r, nodes, env, cid, trace)
    && calls == trace[|trace| - 1].1
    && (|| (p.out.Keys == nodes && p == trace[|trace| - 1].0)
        || (env.cancelledFrom == Some(p.batch) && CutRound(r, nodes, trace[|trace| - 1].0, p)))
  }

  lemma EndOfRun(r: Rel, nodes: set<Id>, env: Env, cid: string, trace: seq<(Progress, multiset<Id>)>, p: Progress,
                 calls: multiset<Id>)
    requires RunEnds(r, nodes, env, cid, trace, p, calls) && DependenciesIn(r, nodes)
    ensures BetweenRounds(r, nodes, env, cid, p, calls)
    ensures p.out.Keys == nodes || (env.cancelledFrom == Some(p.batch) && Cut(r, nodes, p.out, p.batch))
  {
    var n := |trace| - 1;
    var (p0, calls0) := trace[n];
    TraceKeepsHistory(r, nodes, env, cid, trace, n, p0, calls0);
    if p != p0 || p.out.Keys != nodes {
      CutRoundKeeps(r, nodes, env, cid, p0, p, calls, n);
    }
  }
}
