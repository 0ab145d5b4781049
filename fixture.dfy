/** The network of modules/topo.py as the controller sees it once every
    link has been reported: hosts h1 at port 1 of s1 and h2 at port 1 of s7,
    and two disjoint branches from s1 to s7, s1-s3-s5-s6-s7 and s1-s2-s4-s7.
    Mininet numbers a switch's ports in the order its links are added. No
    port speed has been reported, so every port counts at `default_bw`. */
module Fixture {
  import opened Types
  import opened Topology
  import opened Routes
  import opened Cost
  import opened PathSelection
  import opened PortPlan
  import opened Commands
  import opened Groups
  import opened Emission

  /** `neighbour` for the network of modules/topo.py:45-55. */
  const Net: Adjacency := map[
    1 := map[3 := 2, 2 := 3],
    2 := map[1 := 1, 4 := 2],
    3 := map[1 := 1, 5 := 2],
    4 := map[2 := 1, 7 := 2],
    5 := map[3 := 1, 6 := 2],
    6 := map[5 := 1, 7 := 2],
    7 := map[6 := 2, 4 := 3]]

  const NoSpeeds: Bandwidths := map[]

  /** The long branch, through s3, s5 and s6. */
  const Long: Path := [1, 3, 5, 6, 7]
  /** The short branch, through s2 and s4. */
  const Short: Path := [1, 2, 4, 7]

  /** A link at default speed costs 1, so the long branch costs 4. */
  lemma {:induction false} LongCost()
    ensures PathCost(Net, NoSpeeds, Long) == Ok(4)
  {
    PathCostStep(Net, NoSpeeds, [1, 3]);
    assert [1, 3][..1] == [1];
    PathCostStep(Net, NoSpeeds, [1, 3, 5]);
    assert [1, 3, 5][..2] == [1, 3];
    PathCostStep(Net, NoSpeeds, [1, 3, 5, 6]);
    assert [1, 3, 5, 6][..3] == [1, 3, 5];
    PathCostStep(Net, NoSpeeds, Long);
    assert Long[..4] == [1, 3, 5, 6];
  }

  /** The short branch costs 3. */
  lemma {:induction false} ShortCost()
    ensures PathCost(Net, NoSpeeds, Short) == Ok(3)
  {
    PathCostStep(Net, NoSpeeds, [1, 2]);
    assert [1, 2][..1] == [1];
    PathCostStep(Net, NoSpeeds, [1, 2, 4]);
    assert [1, 2, 4][..2] == [1, 2];
    PathCostStep(Net, NoSpeeds, Short);
    assert Short[..3] == [1, 2, 4];
  }

  /** Found long branch first, both are kept and the short one is put first. */
  lemma {:induction false} ShortFirstWhenFoundSecond()
    ensures SelectPaths(Net, NoSpeeds, [Long, Short]) == Ok([Short, Long])
  {
    LongCost();
    ShortCost();
    var paths := [Long, Short];
    var costs := Costs(Net, NoSpeeds, paths).value;
    assert costs == [4, 3] by {
      assert PathCost(Net, NoSpeeds, paths[0]) == Ok(4);
      assert PathCost(Net, NoSpeeds, paths[1]) == Ok(3);
    }
    var idx := TopK(costs, 2);
    assert idx == [1, 0] by {
      assert idx[0] != idx[1] && idx[0] < 2 && idx[1] < 2;
      assert Before(costs, idx[0], idx[1]);
    }
    var sel := SelectPaths(Net, NoSpeeds, paths).value;
    assert sel == seq(2, j requires 0 <= j < 2 => paths[idx[j]]);
    assert |sel| == 2 && sel[0] == Short && sel[1] == Long;
    assert sel == [Short, Long];
  }

  /** Found short branch first, the selection keeps the search order. */
  lemma {:induction false} ShortFirstWhenFoundFirst()
    ensures SelectPaths(Net, NoSpeeds, [Short, Long]) == Ok([Short, Long])
  {
    LongCost();
    ShortCost();
    var paths := [Short, Long];
    var costs := Costs(Net, NoSpeeds, paths).value;
    assert costs == [3, 4] by {
      assert PathCost(Net, NoSpeeds, paths[0]) == Ok(3);
      assert PathCost(Net, NoSpeeds, paths[1]) == Ok(4);
    }
    var idx := TopK(costs, 2);
    assert idx == [0, 1] by {
      assert idx[0] != idx[1] && idx[0] < 2 && idx[1] < 2;
      assert Before(costs, idx[0], idx[1]);
    }
    var sel := SelectPaths(Net, NoSpeeds, paths).value;
    assert sel == seq(2, j requires 0 <= j < 2 => paths[idx[j]]);
    assert |sel| == 2 && sel[0] == Short && sel[1] == Long;
    assert sel == [Short, Long];
  }

  /** A route of `Net` from s1 whose second switch is s3 is the long branch. */
  lemma {:induction false} RouteViaS3(p: Path)
    requires IsRoute(Net, 1, 7, p) && |p| > 1 && p[1] == 3
    ensures p == Long
  {
    assert IsEdge(Net, p[1], p[2]);
    assert p[2] == 5;
    assert IsEdge(Net, p[2], p[3]);
    assert p[3] == 6;
    assert IsEdge(Net, p[3], p[4]);
    assert p[4] == 7;
    if |p| > 5 {
      assert false;
    }
  }

  /** A route of `Net` from s1 whose second switch is s2 is the short branch. */
  lemma {:induction false} RouteViaS2(p: Path)
    requires IsRoute(Net, 1, 7, p) && |p| > 1 && p[1] == 2
    ensures p == Short
  {
    assert IsEdge(Net, p[1], p[2]);
    assert p[2] == 4;
    assert IsEdge(Net, p[2], p[3]);
    assert p[3] == 7;
    if |p| > 4 {
      assert false;
    }
  }

  /** The simple paths from s1 to s7 are exactly the two branches. */
  lemma {:induction false} NetRoutes()
    ensures forall p :: IsRoute(Net, 1, 7, p) <==> p == Long || p == Short
  {
    forall p | IsRoute(Net, 1, 7, p) ensures p == Long || p == Short {
      assert IsEdge(Net, p[0], p[1]);
      if p[1] == 3 {
        RouteViaS3(p);
      } else {
        RouteViaS2(p);
      }
    }
    assert IsRoute(Net, 1, 7, Long) by {
      assert IsWalk(Net, Long) && Distinct(Long);
    }
    assert IsRoute(Net, 1, 7, Short) by {
      assert IsWalk(Net, Short) && Distinct(Short);
    }
  }

  /** Whatever order `dfs` lists them in, `max_optimal_paths(1, 7)` on
      `Net` keeps both branches, the short one first. */
  lemma {:induction false} NetSelection(routes: seq<Path>)
    requires forall p :: p in routes <==> IsRoute(Net, 1, 7, p)
    requires Distinct(routes)
    ensures SelectPaths(Net, NoSpeeds, routes) == Ok([Short, Long])
  {
    NetRoutes();
    assert Long in routes && Short in routes;
    assert forall i :: 0 <= i < |routes| ==> routes[i] in {Long, Short} by {
      forall i | 0 <= i < |routes| ensures routes[i] in {Long, Short} {
        assert routes[i] in routes;
      }
    }
    DistinctLength(routes, {Long, Short});
    assert |{Long, Short}| == 2;
    if routes[0] == Long {
      assert routes[1] == Short;
      assert routes == [Long, Short];
      ShortFirstWhenFoundSecond();
    } else {
      assert routes[0] == Short && routes[1] == Long;
      assert routes == [Short, Long];
      ShortFirstWhenFoundFirst();
    }
  }

  /** The port plans of the two branches for traffic from h1 to h2. */
  const LongPlan: Plan := map[1 := (1, 2), 3 := (1, 2), 5 := (1, 2), 6 := (1, 2), 7 := (2, 1)]
  const ShortPlan: Plan := map[1 := (1, 3), 2 := (1, 2), 4 := (1, 2), 7 := (3, 1)]

  lemma {:induction false} LongBranchPlan()
    ensures PathLinked(Net, Long) && IsPlan(Net, Long, 1, 1, LongPlan)
  {
    assert Elements(Long) == {1, 3, 5, 6, 7};
  }

  lemma {:induction false} ShortBranchPlan()
    ensures PathLinked(Net, Short) && IsPlan(Net, Short, 1, 1, ShortPlan)
  {
    assert Elements(Short) == {1, 2, 4, 7};
  }

  /** At s1 both branches leave from the port h1 is on, so that port has two
      entries: toward s2 (port 3) at cost 3 and toward s3 (port 2) at cost 4.
      Every other switch has one entry per ingress port. */
  lemma {:induction false} SourceGrouping()
    ensures Grouping([ShortPlan, LongPlan], [3, 4], 1, 2) == map[1 := [(3, 3), (2, 4)]]
    ensures Grouping([ShortPlan, LongPlan], [3, 4], 7, 2) == map[3 := [(1, 3)], 2 := [(1, 4)]]
  {
    var plans := [ShortPlan, LongPlan];
    var costs: seq<nat> := [3, 4];
    assert plans[0][1] == (1, 3) && plans[1][1] == (1, 2);
    assert plans[0][7] == (3, 1) && plans[1][7] == (2, 1);
    assert Grouping(plans, costs, 1, 0) == map[] && Grouping(plans, costs, 7, 0) == map[];
    var g1 := Grouping(plans, costs, 1, 1);
    assert g1 == map[1 := [] + [(3, 3)]];
    assert g1[1] == [(3, 3)] && (2, 4) !in g1[1];
    assert [(3, 3)] + [(2, 4)] == [(3, 3), (2, 4)];
    var g7 := Grouping(plans, costs, 7, 1);
    assert g7 == map[3 := [] + [(1, 3)]];
    assert 2 !in g7;
    assert [] + [(1, 3)] == [(1, 3)] && [] + [(1, 4)] == [(1, 4)];
    assert g7[2 := [(1, 4)]] == map[3 := [(1, 3)], 2 := [(1, 4)]];
  }

  /** The doc-comment example at modules/ryu_controller.py:178-181: out of a
      total of 7, the cost-3 path gets weight 6 and the cost-4 path weight 4. */
  lemma {:induction false} ExampleWeights()
    ensures BucketWeight(3, 7) == 6 && BucketWeight(4, 7) == 4
  {
    assert (20 * 4 + 7) / 14 == 6;
    assert (20 * 3 + 7) / 14 == 4;
  }

  /** s1 gets a new select group weighting the short branch 6 to 4, and its
      IPv4 and ARP rules for the pair point at that group. */
  lemma {:induction false} SourceCommands(gid: nat, sip: Ip, dip: Ip)
    ensures PortCommands(1, [(3, 3), (2, 4)], 7, gid, false, sip, dip) ==
      [GroupMod(1, GroupAdd, gid, [Bucket(6, 3), Bucket(4, 2)]),
       FlowMod(1, PRIORITY_IP, IpMatch(sip, dip), [ToGroup(gid)]),
       FlowMod(1, PRIORITY_ARP, ArpMatch(sip, dip), [ToGroup(gid)])]
  {
    ExampleWeights();
    assert Buckets([(3, 3), (2, 4)], 7) == [Bucket(6, 3), Bucket(4, 2)];
  }
}
