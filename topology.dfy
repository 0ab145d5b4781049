/** The controller's view of the network (modules/ryu_controller.py:44-51):
    the adjacency `neighbour`, the reported port speeds `bandwidths`, and the
    pure updates the topology-event handlers apply to them. */
module Topology {
  import opened Types

  /** `neighbour`: switch -> neighbouring switch -> egress port toward it. */
  type Adjacency = map<Switch, map<Switch, Port>>
  /** `bandwidths`: switch -> port number -> reported current speed. */
  type Bandwidths = map<Switch, map<Port, nat>>

  /** One entry of a port-description reply: a port and its current speed. */
  datatype PortStat = PortStat(portNo: Port, currSpeed: nat)

  /** `self.neighbour[s]`: a switch never linked has no neighbours. */
  function Neighbours(adj: Adjacency, s: Switch): map<Switch, Port>
  {
    if s in adj then adj[s] else map[]
  }

  predicate IsEdge(adj: Adjacency, a: Switch, b: Switch)
  {
    b in Neighbours(adj, a)
  }

  /** `self.bandwidths[s][p]`, falling back to `default_bw` when the port's
      speed was never reported. */
  function Capacity(bw: Bandwidths, s: Switch, p: Port): nat
  {
    if s in bw && p in bw[s] then bw[s][p] else DEFAULT_BW
  }

  /** Link add: the entry s1 -> s2 gets port p1, then the entry s2 -> s1 gets
      port p2 (for a self-loop the second write wins). */
  function AddLink(adj: Adjacency, s1: Switch, p1: Port, s2: Switch, p2: Port): (r: Adjacency)
    ensures IsEdge(r, s1, s2) && IsEdge(r, s2, s1)
    ensures r[s2][s1] == p2
    ensures s1 != s2 ==> r[s1][s2] == p1
    ensures forall a, b :: (a != s1 || b != s2) && (a != s2 || b != s1) ==>
      (IsEdge(r, a, b) <==> IsEdge(adj, a, b)) && (IsEdge(adj, a, b) ==> r[a][b] == adj[a][b])
  {
    var a := adj[s1 := Neighbours(adj, s1)[s2 := p1]];
    a[s2 := Neighbours(a, s2)[s1 := p2]]
  }

  /** Link delete: removes s1 -> s2 and then s2 -> s1, stopping at the first
      entry that is missing. */
  function DeleteLink(adj: Adjacency, s1: Switch, s2: Switch): (r: Adjacency)
    ensures !IsEdge(adj, s1, s2) ==> r == adj
    ensures IsEdge(adj, s1, s2) ==> !IsEdge(r, s1, s2) && !IsEdge(r, s2, s1)
    ensures forall a, b :: (a != s1 || b != s2) && (a != s2 || b != s1) ==>
      (IsEdge(r, a, b) <==> IsEdge(adj, a, b)) && (IsEdge(adj, a, b) ==> r[a][b] == adj[a][b])
  {
    if !IsEdge(adj, s1, s2) then adj
    else
      var a := adj[s1 := adj[s1] - {s2}];
      if IsEdge(a, s2, s1) then a[s2 := a[s2] - {s1}] else a
  }

  /** Switch leave, on the adjacency: only the leaving switch's own map is
      dropped; entries of other switches that point at it stay. */
  function RemoveSwitch(adj: Adjacency, s: Switch): (r: Adjacency)
    ensures s !in r && Neighbours(r, s) == map[]
    ensures forall a :: a != s ==> Neighbours(r, a) == Neighbours(adj, a)
  {
    adj - {s}
  }

  /** The speeds a port-description reply reports: for each port mentioned,
      the speed of its last entry. */
  function ReportedSpeeds(body: seq<PortStat>): (r: map<Port, nat>)
    ensures forall p :: p in r <==> exists k :: 0 <= k < |body| && body[k].portNo == p
    ensures forall k :: 0 <= k < |body| && (forall j :: k < j < |body| ==> body[j].portNo != body[k].portNo) ==>
      r[body[k].portNo] == body[k].currSpeed
  {
    if body == [] then map[]
    else
      var last := body[|body| - 1];
      var r := ReportedSpeeds(body[..|body| - 1])[last.portNo := last.currSpeed];
      assert forall k :: 0 <= k < |body| - 1 ==> body[..|body| - 1][k] == body[k];
      r
  }

  /** The bandwidth table after a port-description reply from `sw`. */
  function ApplyPortStats(bw: Bandwidths, sw: Switch, body: seq<PortStat>): Bandwidths
  {
    bw[sw := (if sw in bw then bw[sw] else map[]) + ReportedSpeeds(body)]
  }

  /** A reply overwrites the capacity of exactly the ports it mentions, on the
      replying switch only; every other capacity keeps its value. */
  lemma {:induction false} PortStatsCapacity(bw: Bandwidths, sw: Switch, body: seq<PortStat>, s: Switch, p: Port)
    ensures var r := ApplyPortStats(bw, sw, body);
      if s == sw && p in ReportedSpeeds(body)
      then Capacity(r, s, p) == ReportedSpeeds(body)[p]
      else Capacity(r, s, p) == Capacity(bw, s, p)
  {
  }
}
