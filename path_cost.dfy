/** Link and path costs (`cal_cost_link`, `cal_cost_path`,
    modules/ryu_controller.py:76-91). A link costs `ref_bw` divided by the
    slower of its two ports; a path costs the sum of its links. */
module Cost {
  import opened Types
  import opened Topology

  /** Both directions of the link a-b are known. */
  predicate Linked(adj: Adjacency, a: Switch, b: Switch)
  {
    IsEdge(adj, a, b) && IsEdge(adj, b, a)
  }

  /** The bottleneck capacity of the link a-b: the smaller of the speeds of
      the egress port of `a` toward `b` and of `b` toward `a`. */
  function LinkCapacity(adj: Adjacency, bw: Bandwidths, a: Switch, b: Switch): nat
    requires Linked(adj, a, b)
  {
    var c := Min(Capacity(bw, a, Neighbours(adj, a)[b]), Capacity(bw, b, Neighbours(adj, b)[a]));
    c
  }

  /** `cal_cost_link(a, b)`: the port toward `b` is looked up first, then the
      port back toward `a` (each lookup fails on an unknown link), then
      `ref_bw` is divided by the bottleneck capacity, rounding down; a
      capacity of 0 fails the division. */
  function LinkCost(adj: Adjacency, bw: Bandwidths, a: Switch, b: Switch): (r: Result<nat>)
    ensures !IsEdge(adj, a, b) ==> r == Err(MissingEdge(a, b))
    ensures IsEdge(adj, a, b) && !IsEdge(adj, b, a) ==> r == Err(MissingEdge(b, a))
    ensures Linked(adj, a, b) ==> (r.Ok? <==> LinkCapacity(adj, bw, a, b) > 0)
    ensures Linked(adj, a, b) && r.Err? ==> r == Err(DivisionByZero)
    ensures r.Ok? ==> (Linked(adj, a, b) &&
      r.value * LinkCapacity(adj, bw, a, b) <= REF_BW < (r.value + 1) * LinkCapacity(adj, bw, a, b))
  {
    if !IsEdge(adj, a, b) then Err(MissingEdge(a, b))
    else if !IsEdge(adj, b, a) then Err(MissingEdge(b, a))
    else
      var c := LinkCapacity(adj, bw, a, b);
      if c == 0 then Err(DivisionByZero) else Ok(REF_BW / c)
  }

  /** `cal_cost_path(p)`: the links of `p` are costed from the first to the
      last, the first failing link failing the whole path; a path of fewer
      than two switches costs 0. */
  function PathCost(adj: Adjacency, bw: Bandwidths, p: Path): Result<nat>
    decreases |p|
  {
    if |p| <= 1 then Ok(0)
    else
      match PathCost(adj, bw, p[..|p| - 1])
      case Err(e) => Err(e)
      case Ok(c) =>
        match LinkCost(adj, bw, p[|p| - 2], p[|p| - 1])
        case Err(e) => Err(e)
        case Ok(l) => Ok(c + l)
  }

  /** Sequencing of two costings: the first failure wins, otherwise the sum. */
  function Chain(a: Result<nat>, b: Result<nat>): Result<nat>
  {
    match a
    case Err(e) => Err(e)
    case Ok(x) =>
      match b
      case Err(e) => Err(e)
      case Ok(y) => Ok(x + y)
  }

  /** One step of `PathCost`: the cost of all but the last link, then the last link. */
  lemma {:induction false} PathCostStep(adj: Adjacency, bw: Bandwidths, p: Path)
    requires |p| > 1
    ensures PathCost(adj, bw, p) == Chain(PathCost(adj, bw, p[..|p| - 1]), LinkCost(adj, bw, p[|p| - 2], p[|p| - 1]))
  {
  }

  lemma {:induction false} ChainAssoc(a: Result<nat>, b: Result<nat>, c: Result<nat>)
    ensures Chain(Chain(a, b), c) == Chain(a, Chain(b, c))
  {
  }

  /** The cost of a path is the cost of its first part followed by the cost
      of the rest, split at any switch, with the earlier failure reported. */
  lemma {:induction false} PathCostSplit(adj: Adjacency, bw: Bandwidths, p: Path, i: nat)
    requires i < |p|
    ensures PathCost(adj, bw, p) == Chain(PathCost(adj, bw, p[..i + 1]), PathCost(adj, bw, p[i..]))
    decreases |p|
  {
    if i == |p| - 1 {
      assert p[..i + 1] == p;
      assert |p[i..]| == 1;
      assert PathCost(adj, bw, p[i..]) == Ok(0);
    } else {
      var q := p[..|p| - 1];
      var t := p[i..];
      var last := LinkCost(adj, bw, p[|p| - 2], p[|p| - 1]);
      PathCostStep(adj, bw, p);
      PathCostSplit(adj, bw, q, i);
      assert q[..i + 1] == p[..i + 1];
      assert t[..|t| - 1] == q[i..];
      assert t[|t| - 2] == p[|p| - 2] && t[|t| - 1] == p[|p| - 1];
      PathCostStep(adj, bw, t);
      ChainAssoc(PathCost(adj, bw, p[..i + 1]), PathCost(adj, bw, q[i..]), last);
    }
  }

  /** A path can be costed exactly when each of its links can. */
  lemma {:induction false} PathCostOk(adj: Adjacency, bw: Bandwidths, p: Path)
    ensures PathCost(adj, bw, p).Ok? <==>
      forall i :: 0 <= i < |p| - 1 ==> LinkCost(adj, bw, p[i], p[i + 1]).Ok?
    decreases |p|
  {
    if |p| > 1 {
      var q := p[..|p| - 1];
      PathCostOk(adj, bw, q);
      assert forall i :: 0 <= i < |q| ==> q[i] == p[i];
    }
  }

  /** A link's cost does not depend on the direction it is taken in. */
  lemma {:induction false} LinkCostSymmetric(adj: Adjacency, bw: Bandwidths, a: Switch, b: Switch)
    requires LinkCost(adj, bw, a, b).Ok?
    ensures LinkCost(adj, bw, b, a) == LinkCost(adj, bw, a, b)
  {
    assert LinkCapacity(adj, bw, b, a) == LinkCapacity(adj, bw, a, b);
  }

  lemma {:induction false} MulLe(a: nat, b: nat, m: nat)
    requires a <= b
    ensures a * m <= b * m
  {
    assert b * m == a * m + (b - a) * m;
  }

  /** `q / c <= q / d` for `0 < d <= c`: a larger divisor gives a smaller floor. */
  lemma {:induction false} DivAntitone(q: nat, c: nat, d: nat)
    requires 0 < d <= c
    ensures q / c <= q / d
  {
    var x := q / c;
    var y := q / d;
    assert q == x * c + q % c;
    assert q == y * d + q % d && q % d < d;
    MulLe(d, c, x);
    assert x * d <= q;
    if y < x {
      MulLe(y + 1, x, d);
      assert false;
    }
  }

  /** Lowering the reported speed of ports never makes a link cheaper. */
  lemma {:induction false} LinkCostAntitone(adj: Adjacency, bw: Bandwidths, bw': Bandwidths, a: Switch, b: Switch)
    requires forall s, q :: Capacity(bw', s, q) <= Capacity(bw, s, q)
    requires LinkCost(adj, bw', a, b).Ok?
    ensures LinkCost(adj, bw, a, b).Ok?
    ensures LinkCost(adj, bw, a, b).value <= LinkCost(adj, bw', a, b).value
  {
    var pa := Neighbours(adj, a)[b];
    var pb := Neighbours(adj, b)[a];
    assert Capacity(bw', a, pa) <= Capacity(bw, a, pa);
    assert Capacity(bw', b, pb) <= Capacity(bw, b, pb);
    DivAntitone(REF_BW, LinkCapacity(adj, bw, a, b), LinkCapacity(adj, bw', a, b));
  }

  /** Lowering the reported speed of ports never makes a path cheaper, and a
      path that could be costed still can. */
  lemma {:induction false} PathCostAntitone(adj: Adjacency, bw: Bandwidths, bw': Bandwidths, p: Path)
    requires forall s, q :: Capacity(bw', s, q) <= Capacity(bw, s, q)
    requires PathCost(adj, bw', p).Ok?
    ensures PathCost(adj, bw, p).Ok?
    ensures PathCost(adj, bw, p).value <= PathCost(adj, bw', p).value
    decreases |p|
  {
    if |p| > 1 {
      PathCostAntitone(adj, bw, bw', p[..|p| - 1]);
      LinkCostAntitone(adj, bw, bw', p[|p| - 2], p[|p| - 1]);
    }
  }

  function Reverse(p: Path): (r: Path)
    ensures |r| == |p| && forall i :: 0 <= i < |p| ==> r[i] == p[|p| - 1 - i]
  {
    if p == [] then [] else Reverse(p[1..]) + [p[0]]
  }

  /** A two-switch path costs its one link. */
  lemma {:induction false} PathCostPair(adj: Adjacency, bw: Bandwidths, a: Switch, b: Switch)
    ensures PathCost(adj, bw, [a, b]) == LinkCost(adj, bw, a, b)
  {
    assert [a, b][..1] == [a];
  }

  /** A path taken backwards costs what it costs forwards, so the reverse
      installation ranks the reversed paths by the same costs. */
  lemma {:induction false} PathCostReverse(adj: Adjacency, bw: Bandwidths, p: Path)
    requires PathCost(adj, bw, p).Ok?
    ensures PathCost(adj, bw, Reverse(p)) == PathCost(adj, bw, p)
    decreases |p|
  {
    if |p| > 1 {
      var tail := p[1..];
      var r := Reverse(p);
      assert r == Reverse(tail) + [p[0]];
      assert r[..|r| - 1] == Reverse(tail);
      assert r[|r| - 2] == p[1] && r[|r| - 1] == p[0];
      PathCostStep(adj, bw, r);
      PathCostSplit(adj, bw, p, 1);
      assert p[..2] == [p[0], p[1]];
      PathCostPair(adj, bw, p[0], p[1]);
      PathCostReverse(adj, bw, tail);
      LinkCostSymmetric(adj, bw, p[0], p[1]);
    }
  }

  /** The loop of `cal_cost_path`: adds the links' costs from the first on,
      stopping at the first link that cannot be costed. */
  method CalCostPath(adj: Adjacency, bw: Bandwidths, p: Path) returns (r: Result<nat>)
    ensures r == PathCost(adj, bw, p)
  {
    var cost := 0;
    var i := 0;
    while i + 1 < |p|
      invariant |p| == 0 ==> i == 0 && cost == 0
      invariant |p| > 0 ==> i < |p| && PathCost(adj, bw, p[..i + 1]) == Ok(cost)
    {
      var l := LinkCost(adj, bw, p[i], p[i + 1]);
      assert p[..i + 2][..i + 1] == p[..i + 1];
      if l.Err? {
        PathCostSplit(adj, bw, p, i + 1);
        return Err(l.error);
      }
      cost := cost + l.value;
      i := i + 1;
    }
    if |p| > 0 {
      assert p[..i + 1] == p;
    }
    return Ok(cost);
  }
}
