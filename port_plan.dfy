/** Port plans (`link`, modules/ryu_controller.py:103-114): for each path,
    the port every switch on it receives the flow on and the port it
    forwards the flow to. */
module PortPlan {
  import opened Types
  import opened Topology
  import opened Cost

  /** `p0`: switch -> (ingress port, egress port) along one path. */
  type Plan = map<Switch, (Port, Port)>

  /** Every link of `p` is known in both directions. */
  predicate PathLinked(adj: Adjacency, p: Path)
  {
    forall i :: 0 <= i < |p| - 1 ==> Linked(adj, p[i], p[i + 1])
  }

  /** The port the flow enters the `i`-th switch of `p` on: `sp` at the
      first switch, otherwise the port facing the previous switch. */
  function Ingress(adj: Adjacency, p: Path, sp: Port, i: nat): Port
    requires i < |p| && (i > 0 ==> IsEdge(adj, p[i], p[i - 1]))
  {
    if i == 0 then sp else Neighbours(adj, p[i])[p[i - 1]]
  }

  /** The port the flow leaves the `i`-th switch of `p` by: `dp` at the last
      switch, otherwise the port facing the next switch. */
  function Egress(adj: Adjacency, p: Path, dp: Port, i: nat): Port
    requires i < |p| && (i < |p| - 1 ==> IsEdge(adj, p[i], p[i + 1]))
  {
    if i == |p| - 1 then dp else Neighbours(adj, p[i])[p[i + 1]]
  }

  /** Position `i` is the last visit of its switch among the first `n`
      positions of `p`. */
  predicate LastVisit(p: Path, i: nat, n: nat)
    requires i < n <= |p|
  {
    forall j :: i < j < n ==> p[j] != p[i]
  }

  /** `plan` is what `link` builds for `p`: an entry for exactly the switches
      on `p`, each holding the ingress and egress of its last visit. */
  predicate IsPlan(adj: Adjacency, p: Path, sp: Port, dp: Port, plan: Plan)
    requires |p| > 0 && PathLinked(adj, p)
  {
    && plan.Keys == Elements(p)
    && forall i {:trigger LastVisit(p, i, |p|)} :: 0 <= i < |p| && LastVisit(p, i, |p|) ==>
         plan[p[i]] == (Ingress(adj, p, sp, i), Egress(adj, p, dp, i))
  }

  /** The exception the unknown link a-b raises: the port toward `b` is
      looked up before the port back toward `a`. */
  function GapError(adj: Adjacency, a: Switch, b: Switch): (f: Failure)
    requires !Linked(adj, a, b)
    ensures f == MissingEdge(a, b) || f == MissingEdge(b, a)
  {
    if !IsEdge(adj, a, b) then MissingEdge(a, b) else MissingEdge(b, a)
  }

  /** The exception the first unknown link of `p` raises. */
  function FirstGap(adj: Adjacency, p: Path): Failure
    requires !PathLinked(adj, p)
    decreases |p|
  {
    if !Linked(adj, p[0], p[1]) then GapError(adj, p[0], p[1])
    else
      assert forall i :: 0 <= i < |p| - 1 ==> p[1..][i] == p[i + 1];
      FirstGap(adj, p[1..])
  }

  /** The first unknown link of `p` is the one at position `i` when every
      earlier link is known. */
  lemma {:induction false} FirstGapAt(adj: Adjacency, p: Path, i: nat)
    requires i < |p| - 1 && !Linked(adj, p[i], p[i + 1])
    requires forall j :: 0 <= j < i ==> Linked(adj, p[j], p[j + 1])
    ensures !PathLinked(adj, p) && FirstGap(adj, p) == GapError(adj, p[i], p[i + 1])
    decreases i
  {
    if i > 0 {
      var q := p[1..];
      assert q[i - 1] == p[i] && q[i] == p[i + 1];
      assert forall j :: 0 <= j < |q| ==> q[j] == p[j + 1];
      FirstGapAt(adj, q, i - 1);
      assert Linked(adj, p[0], p[1]);
    }
  }

  /** The links leaving the first `n` positions of `p` are known. */
  predicate LinkedUpTo(adj: Adjacency, p: Path, n: nat)
  {
    n <= |p| && forall j :: 0 <= j < n && j < |p| - 1 ==> Linked(adj, p[j], p[j + 1])
  }

  /** `p0` after the loop of `link` has handled the first `n` positions. */
  predicate PartialPlan(adj: Adjacency, p: Path, sp: Port, dp: Port, p0: Plan, n: nat)
    requires LinkedUpTo(adj, p, n)
  {
    && p0.Keys == Elements(p[..n])
    && forall j {:trigger LastVisit(p, j, n)} :: 0 <= j < n && LastVisit(p, j, n) ==>
         p0[p[j]] == (Ingress(adj, p, sp, j), Egress(adj, p, dp, j))
  }

  lemma {:induction false} ElementsSnoc(p: Path, n: nat)
    requires n < |p|
    ensures Elements(p[..n + 1]) == Elements(p[..n]) + {p[n]}
  {
    assert p[..n + 1] == p[..n] + [p[n]];
  }

  /** Recording position `n` extends the partial plan by one position. */
  lemma {:induction false} PlanExtend(adj: Adjacency, p: Path, sp: Port, dp: Port, p0: Plan, n: nat)
    requires n < |p| && LinkedUpTo(adj, p, n + 1) && (n > 0 ==> Linked(adj, p[n - 1], p[n]))
    requires PartialPlan(adj, p, sp, dp, p0, n)
    ensures PartialPlan(adj, p, sp, dp, p0[p[n] := (Ingress(adj, p, sp, n), Egress(adj, p, dp, n))], n + 1)
  {
    var p1 := p0[p[n] := (Ingress(adj, p, sp, n), Egress(adj, p, dp, n))];
    ElementsSnoc(p, n);
    assert p1.Keys == Elements(p[..n+1]);
    forall j | 0 <= j < n + 1 && LastVisit(p, j, n + 1)
      ensures p1[p[j]] == (Ingress(adj, p, sp, j), Egress(adj, p, dp, j))
    {
      if j < n {
        assert p[j] != p[n];
        assert LastVisit(p, j, n);
        assert p1[p[j]] == p0[p[j]];
      }
    }
    assert PartialPlan(adj, p, sp, dp, p1, n + 1);
  }

  /** `link` for one path: walks its links from the first, recording for
      each switch the port the flow arrives on and the port toward the next
      switch, and gives the last switch `dp` as its egress. An unknown link
      raises, the forward lookup before the reverse one. */
  method PlanPath(adj: Adjacency, path: Path, sp: Port, dp: Port) returns (r: Result<Plan>)
    requires |path| > 0
    ensures r.Ok? <==> PathLinked(adj, path)
    ensures r.Ok? ==> IsPlan(adj, path, sp, dp, r.value)
    ensures r.Err? ==> !PathLinked(adj, path) && r.error == FirstGap(adj, path)
  {
    var p0: Plan := map[];
    var portIn := sp;
    var i := 0;
    while i < |path| - 1
      invariant 0 <= i < |path| && LinkedUpTo(adj, path, i)
      invariant i > 0 ==> Linked(adj, path[i - 1], path[i])
      invariant portIn == Ingress(adj, path, sp, i)
      invariant PartialPlan(adj, path, sp, dp, p0, i)
    {
      if !IsEdge(adj, path[i], path[i + 1]) {
        FirstGapAt(adj, path, i);
        return Err(MissingEdge(path[i], path[i + 1]));
      }
      var portOut := Neighbours(adj, path[i])[path[i + 1]];
      if !IsEdge(adj, path[i + 1], path[i]) {
        FirstGapAt(adj, path, i);
        return Err(MissingEdge(path[i + 1], path[i]));
      }
      PlanExtend(adj, path, sp, dp, p0, i);
      p0 := p0[path[i] := (portIn, portOut)];
      portIn := Neighbours(adj, path[i + 1])[path[i]];
      i := i + 1;
    }
    PlanExtend(adj, path, sp, dp, p0, i);
    p0 := p0[path[i] := (portIn, dp)];
    assert path[..i + 1] == path;
    return Ok(p0);
  }

  /** `link(paths, sp, dp)`: the plan of each path, in order; the first path
      with an unknown link raises. */
  method Link(adj: Adjacency, paths: seq<Path>, sp: Port, dp: Port) returns (r: Result<seq<Plan>>)
    requires forall k :: 0 <= k < |paths| ==> |paths[k]| > 0
    ensures r.Ok? <==> forall k :: 0 <= k < |paths| ==> PathLinked(adj, paths[k])
    ensures r.Ok? ==> (|r.value| == |paths| &&
      forall k :: 0 <= k < |paths| ==> IsPlan(adj, paths[k], sp, dp, r.value[k]))
    ensures r.Err? ==> exists k :: (0 <= k < |paths| && !PathLinked(adj, paths[k]) &&
      r.error == FirstGap(adj, paths[k]) && forall m :: 0 <= m < k ==> PathLinked(adj, paths[m]))
  {
    var plans: seq<Plan> := [];
    var k := 0;
    while k < |paths|
      invariant k <= |paths| && |plans| == k
      invariant forall m :: 0 <= m < k ==> PathLinked(adj, paths[m]) && IsPlan(adj, paths[m], sp, dp, plans[m])
    {
      var p := PlanPath(adj, paths[k], sp, dp);
      if p.Err? {
        return Err(p.error);
      }
      plans := plans + [p.value];
      k := k + 1;
    }
    return Ok(plans);
  }

  /** A path whose cost the controller could compute has a port plan: the
      cost lookups already visited every link in both directions. */
  lemma {:induction false} CostedPathLinked(adj: Adjacency, bw: Bandwidths, p: Path)
    requires PathCost(adj, bw, p).Ok?
    ensures PathLinked(adj, p)
  {
    PathCostOk(adj, bw, p);
    forall i | 0 <= i < |p| - 1 ensures Linked(adj, p[i], p[i + 1]) {
      assert LinkCost(adj, bw, p[i], p[i + 1]).Ok?;
    }
  }
}
