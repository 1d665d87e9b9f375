/** Team-graph validation: cycle detection over one team attribute (aflow/config.py:1760-1796). */
module TeamGraph {
  import opened Prelude

  type Team = string

  /** Every configured team, with the team its attribute names, if any. */
  type Graph = map<Team, Option<Team>>

  function Next(g: Graph, t: Team): (n: Option<Team>)
    ensures n.Some? ==> n.value in g
  {
    if t in g && g[t].Some? && g[t].value in g then g[t] else None
  }

  /** The team k edges on. */
  function Follow(g: Graph, t: Team, k: nat): Option<Team>
    decreases k
  {
    if k == 0 then Some(t)
    else match Next(g, t) case None => None case Some(u) => Follow(g, u, k - 1)
  }

  /** An edge leads from a configured team to the configured team its attribute names. */
  lemma NextExactly(g: Graph, t: Team, u: Team)
    ensures Follow(g, t, 1) == Some(u) <==> t in g && u in g && g[t] == Some(u)
  {
    assert Next(g, t).Some? ==> Follow(g, Next(g, t).value, 0) == Next(g, t);
  }

  ghost predicate OnCycle(g: Graph, t: Team) {
    t in g && exists k: nat :: k >= 1 && Follow(g, t, k) == Some(t)
  }

  /** A reported cycle: edge by edge back to its first team, no team twice. */
  predicate IsCycle(g: Graph, c: seq<Team>) {
    && |c| >= 2 && c[0] == c[|c| - 1]
    && (forall i | 0 <= i < |c| - 1 :: Next(g, c[i]) == Some(c[i + 1]))
    && (forall i, j | 0 <= i < j < |c| - 1 :: c[i] != c[j])
  }

  predicate Disjoint(c: seq<Team>, d: seq<Team>) {
    forall t | t in c :: t !in d
  }

  // ---- facts about the edge relation ----

  lemma {:induction false} FollowAdds(g: Graph, t: Team, a: nat, b: nat)
    requires Follow(g, t, a).Some?
    ensures Follow(g, t, a + b) == Follow(g, Follow(g, t, a).value, b)
    decreases a
  {
    if a > 0 {
      FollowAdds(g, Next(g, t).value, a - 1, b);
    }
  }

  lemma {:induction false} FollowCycle(g: Graph, c: seq<Team>, i: nat, k: nat)
    requires IsCycle(g, c) && i + k < |c|
    ensures Follow(g, c[i], k) == Some(c[i + k])
    decreases k
  {
    if k > 0 {
      FollowCycle(g, c, i + 1, k - 1);
    }
  }

  /** Every team of a reported cycle lies on a cycle. */
  lemma CycleIsReal(g: Graph, c: seq<Team>, t: Team)
    requires IsCycle(g, c) && t in c
    ensures OnCycle(g, t)
  {
    var i :| 0 <= i < |c| && c[i] == t;
    var n := |c| - 1;
    FollowCycle(g, c, i, n - i);
    FollowCycle(g, c, 0, i);
    FollowAdds(g, t, n - i, i);
    assert Follow(g, t, n) == Some(t);
    assert i < n ==> Next(g, c[i]).Some?;
    assert Next(g, c[0]).Some?;
  }

  /** From a reported cycle the edges lead nowhere else. */
  lemma {:induction false} CycleIsClosed(g: Graph, c: seq<Team>, t: Team, k: nat)
    requires IsCycle(g, c) && t in c && Follow(g, t, k).Some?
    ensures Follow(g, t, k).value in c
    decreases k
  {
    if k > 0 {
      var i :| 0 <= i < |c| && c[i] == t;
      assert Next(g, t).value in c by {
        if i == |c| - 1 {
          assert Next(g, c[0]) == Some(c[1]);
        } else {
          assert Next(g, c[i]) == Some(c[i + 1]);
        }
      }
      CycleIsClosed(g, c, Next(g, t).value, k - 1);
    }
  }

  /** If a team lies on a cycle, so does its successor, and they share every reported cycle. */
  lemma CycleNeighbour(g: Graph, t: Team)
    requires OnCycle(g, t)
    ensures Next(g, t).Some? && OnCycle(g, Next(g, t).value)
    ensures forall c | IsCycle(g, c) && Next(g, t).value in c :: t in c
  {
    var k: nat :| k >= 1 && Follow(g, t, k) == Some(t);
    var u := Next(g, t).value;
    assert Follow(g, u, k - 1) == Some(t);
    FollowAdds(g, u, k - 1, 1);
    assert Follow(g, t, 1) == Follow(g, u, 0);
    forall c | IsCycle(g, c) && u in c ensures t in c {
      CycleIsClosed(g, c, u, k - 1);
    }
  }

  // ---- the walk ----

  predicate Reported(cycles: seq<seq<Team>>, t: Team) {
    exists e | 0 <= e < |cycles| :: t in cycles[e]
  }

  lemma ReportedAfter(cycles: seq<seq<Team>>, c: seq<Team>)
    ensures forall t :: Reported(cycles + [c], t) <==> Reported(cycles, t) || t in c
  {
    var all := cycles + [c];
    forall t | Reported(cycles, t) || t in c ensures Reported(all, t) {
      if t in c {
        assert t in all[|cycles|];
      } else {
        var e :| 0 <= e < |cycles| && t in cycles[e];
        assert t in all[e];
      }
    }
  }

  /** Exactly the cycles of the graph, each once. */
  ghost predicate ReportsCycles(g: Graph, cycles: seq<seq<Team>>) {
    && (forall e | 0 <= e < |cycles| :: IsCycle(g, cycles[e]))
    && (forall d, e | 0 <= d < e < |cycles| :: Disjoint(cycles[d], cycles[e]))
    && (forall t | OnCycle(g, t) :: Reported(cycles, t))
  }

  /** No cycle is reported exactly when the relation has none. */
  lemma AcyclicIffNoReport(g: Graph, cycles: seq<seq<Team>>)
    requires ReportsCycles(g, cycles)
    ensures cycles == [] <==> !exists t :: OnCycle(g, t)
  {
    if cycles != [] {
      CycleIsReal(g, cycles[0], cycles[0][0]);
    }
  }

  /** Two reported cycles that share a team are the same report. */
  lemma OneReportPerCycle(g: Graph, cycles: seq<seq<Team>>, d: nat, e: nat, t: Team, k: nat)
    requires ReportsCycles(g, cycles) && d < |cycles| && e < |cycles|
    requires t in cycles[d] && Follow(g, t, k).Some? && Follow(g, t, k).value in cycles[e]
    ensures d == e
  {
    CycleIsClosed(g, cycles[d], t, k);
    assert d < e ==> Disjoint(cycles[d], cycles[e]);
    assert e < d ==> Disjoint(cycles[e], cycles[d]);
  }

  class TeamGraphValidator {
    const g: Graph
    var visited: set<Team>
    var visiting: set<Team>
    var cycles: seq<seq<Team>>

    constructor (g: Graph)
      ensures this.g == g && visited == {} && visiting == {} && cycles == []
    {
      this.g, visited, visiting, cycles := g, {}, {}, [];
    }

    /** The current chain is a path of distinct teams, exactly the ones being visited. */
    ghost predicate Chained(chain: seq<Team>)
      reads this
    {
      && (forall t :: t in chain <==> t in visiting)
      && (forall i, j | 0 <= i < j < |chain| :: chain[i] != chain[j])
      && (forall i | 0 <= i < |chain| - 1 :: Next(g, chain[i]) == Some(chain[i + 1]))
    }

    ghost predicate Sound()
      reads this
    {
      && visited <= g.Keys && visiting <= g.Keys && visited !! visiting
      && (forall t | t in visited :: Next(g, t).Some? ==> Next(g, t).value in visited + visiting)
      && (forall t | t in visited && OnCycle(g, t) :: Reported(cycles, t))
      && (forall e | 0 <= e < |cycles| :: IsCycle(g, cycles[e]))
      && (forall d, e | 0 <= d < e < |cycles| :: Disjoint(cycles[d], cycles[e]))
    }

    /** Every reported team is in a set. */
    ghost predicate Within(teams: set<Team>)
      reads this
    {
      forall t :: Reported(cycles, t) ==> t in teams
    }

    method WalkTeamChain(team: Team, chain: seq<Team>)
      requires team in g && Chained(chain) && Sound() && Within(visited)
      requires chain != [] ==> Next(g, chain[|chain| - 1]) == Some(team)
      modifies this
      ensures visiting == old(visiting) && old(visited) <= visited
      ensures Sound() && Within(visited + visiting)
      ensures team in visited || (team in visiting && chain != [] && Reported(cycles, chain[|chain| - 1]))
      decreases g.Keys - visited - visiting
    {
      if team in visiting {
        ghost var reported := cycles;
        var start := IndexOf(chain, team);
        var cycle := chain[start..] + [team];
        NewCycle(chain, start, cycle);
        cycles := cycles + [cycle];
        ReportedAfter(reported, cycle);
        assert chain[|chain| - 1] in cycle;
        return;
      }
      if team in visited {
        return;
      }
      visiting := visiting + {team};
      var longer := chain + [team];
      var target := g[team];
      if target.Some? && target.value in g {
        WalkTeamChain(target.value, longer);
      }
      visiting := visiting - {team};
      visited := visited + {team};
      if OnCycle(g, team) {
        CycleNeighbour(g, team);
      }
    }

    method IndexOf(chain: seq<Team>, team: Team) returns (start: nat)
      requires team in chain
      ensures start < |chain| && chain[start] == team
    {
      start := 0;
      while chain[start] != team
        invariant start < |chain| && team !in chain[..start]
        decreases |chain| - start
      {
        start := start + 1;
        assert chain[..start] == chain[..start - 1] + [chain[start - 1]];
      }
    }

    /** Closing the chain gives a cycle that shares no team with the ones reported before. */
    lemma NewCycle(chain: seq<Team>, start: nat, cycle: seq<Team>)
      requires Chained(chain) && Sound() && Within(visited) && start < |chain|
      requires Next(g, chain[|chain| - 1]) == Some(chain[start])
      requires cycle == chain[start..] + [chain[start]]
      ensures IsCycle(g, cycle)
      ensures forall t | t in cycle :: t in visiting
      ensures forall e | 0 <= e < |cycles| :: Disjoint(cycles[e], cycle)
    {
      forall i | 0 <= i < |cycle| - 1 ensures Next(g, cycle[i]) == Some(cycle[i + 1]) {
        assert cycle[i] == chain[start + i];
      }
      forall t | t in cycle ensures t in visiting {
        assert t in chain;
      }
      forall e | 0 <= e < |cycles| ensures Disjoint(cycles[e], cycle) {
        forall t | t in cycles[e] ensures t !in cycle {
          assert Reported(cycles, t);
        }
      }
    }

    /** All teams in configuration order; afterwards the reports are exactly the cycles. */
    method ValidateTeamGraph(order: seq<Team>)
      requires forall t :: t in order <==> t in g
      requires visited == {} && visiting == {} && cycles == []
      modifies this
      ensures ReportsCycles(g, cycles)
    {
      for i := 0 to |order|
        invariant Sound() && Within(visited) && visiting == {}
        invariant forall j | 0 <= j < i :: order[j] in visited
      {
        assert order[i] in order;
        WalkTeamChain(order[i], []);
      }
    }
  }

  /** The unknown targets reported before the walk, in configuration order. */
  method UnknownTargets(g: Graph, order: seq<Team>) returns (errors: seq<(Team, Team)>)
    requires forall t :: t in order <==> t in g
    ensures forall t, u :: (t, u) in errors <==> t in g && g[t] == Some(u) && u !in g
  {
    errors := [];
    for i := 0 to |order|
      invariant forall t, u :: (t, u) in errors <==> t in order[..i] && t in g && g[t] == Some(u) && u !in g
    {
      var team := order[i];
      assert order[..i + 1] == order[..i] + [team] && team in order;
      if g[team].Some? && g[team].value !in g {
        errors := errors + [(team, g[team].value)];
      }
    }
    assert order[..|order|] == order;
  }
}
