/** Path finding (`dfs`, modules/ryu_controller.py:56-72): an explicit-stack
    depth-first search that lists every simple path between two switches. */
module PathFinder {
  import opened Types
  import opened Topology
  import opened Routes

  /** Handles one unvisited neighbour of the popped frame `top`. */
  method ExpandOne(adj: Adjacency, source: Switch, dest: Switch, ghost u: set<Switch>, top: Frame,
                   remaining: set<Switch>, stack: seq<Frame>, routes: seq<Path>)
    returns (remaining': set<Switch>, stack': seq<Frame>, routes': seq<Path>)
    requires ValidFrame(adj, source, dest, u, top)
    requires remaining != {} && remaining <= Neighbours(adj, top.node).Keys - Elements(top.path) && remaining <= u
    requires ExpandInv(adj, source, dest, u, top.path, remaining, stack, routes)
    ensures remaining' < remaining && |remaining'| == |remaining| - 1
    ensures ExpandInv(adj, source, dest, u, top.path, remaining', stack', routes')
    ensures Children(top.path, stack, stack') && |stack'| <= |stack| + 1
  {
    ghost var some := Pick(remaining);
    var next :| next in remaining;
    var path := top.path;
    if next == dest {
      ExpandRecord(adj, source, dest, u, top, remaining, stack, routes);
      stack', routes' := stack, routes + [path + [next]];
    } else {
      ExpandPush(adj, source, dest, u, top, remaining, stack, routes, next);
      stack', routes' := stack + [Frame(next, path + [next])], routes;
    }
    remaining' := remaining - {next};
    RemoveOne(remaining, next, remaining');
  }

  /** Handles every candidate in `cands`, one at a time. */
  method ExpandAll(adj: Adjacency, source: Switch, dest: Switch, ghost u: set<Switch>, top: Frame,
                   cands: set<Switch>, stack0: seq<Frame>, routes0: seq<Path>)
    returns (stack: seq<Frame>, routes: seq<Path>)
    requires ValidFrame(adj, source, dest, u, top)
    requires cands <= Neighbours(adj, top.node).Keys - Elements(top.path) && cands <= u
    requires ExpandInv(adj, source, dest, u, top.path, cands, stack0, routes0)
    ensures ExpandInv(adj, source, dest, u, top.path, {}, stack, routes)
    ensures Children(top.path, stack0, stack) && |stack| - |stack0| <= |cands|
  {
    stack, routes := stack0, routes0;
    var remaining := cands;
    while remaining != {}
      invariant remaining <= cands
      invariant ExpandInv(adj, source, dest, u, top.path, remaining, stack, routes)
      invariant Children(top.path, stack0, stack) && |stack| - |stack0| + |remaining| <= |cands|
      decreases remaining
    {
      ghost var before := stack;
      remaining, stack, routes := ExpandOne(adj, source, dest, u, top, remaining, stack, routes);
      ChildrenTrans(top.path, stack0, before, stack);
    }
  }

  /** Pops the frame `top` and handles each unvisited neighbour of its switch:
      the destination completes a route, any other switch is pushed. */
  method Expand(adj: Adjacency, source: Switch, dest: Switch, ghost u: set<Switch>, ghost k: nat,
                rest: seq<Frame>, top: Frame, routes0: seq<Path>)
    returns (stack: seq<Frame>, routes: seq<Path>)
    requires Nodes(adj) <= u && k == |u|
    requires SearchInv(adj, source, dest, u, rest + [top], routes0)
    requires Complete(adj, source, dest, rest + [top], routes0)
    ensures SearchInv(adj, source, dest, u, stack, routes)
    ensures Complete(adj, source, dest, stack, routes)
    ensures StackWeight(k, stack) < StackWeight(k, rest + [top])
  {
    var cands := Neighbours(adj, top.node).Keys - Elements(top.path);
    ghost var n := |cands|;
    ExpandBegin(adj, source, dest, u, rest, top, routes0, cands);
    CandidatesWeighLess(adj, source, dest, u, k, top, cands, n);
    stack, routes := ExpandAll(adj, source, dest, u, top, cands, rest, routes0);
    ExpandDone(adj, source, dest, u, top.path, stack, routes);
    WeightDone(k, rest, top, stack, n);
  }

  /** `dfs(source, dest)`: for `source == dest` the one-switch path; otherwise
      every simple path from `source` to `dest`, each once. The order in which
      a set of neighbours is visited is left open. */
  method Dfs(adj: Adjacency, source: Switch, dest: Switch) returns (routes: seq<Path>)
    ensures source == dest ==> routes == [[source]]
    ensures forall p :: p in routes <==> IsRoute(adj, source, dest, p)
    ensures Distinct(routes)
  {
    if source == dest {
      forall p | IsRoute(adj, source, dest, p) ensures p == [source] {
        SelfRoute(adj, source, p);
      }
      return [[source]];
    }
    ghost var u := Nodes(adj) + {source};
    ghost var k := |u|;
    routes := [];
    var stack := [Frame(source, [source])];
    SearchStart(adj, source, dest, u);
    while stack != []
      invariant SearchInv(adj, source, dest, u, stack, routes)
      invariant Complete(adj, source, dest, stack, routes)
      decreases StackWeight(k, stack)
    {
      var top := stack[|stack| - 1];
      var rest := stack[..|stack| - 1];
      assert stack == rest + [top];
      stack, routes := Expand(adj, source, dest, u, k, rest, top, routes);
    }
    SearchDone(adj, source, dest, u, routes);
  }
}
