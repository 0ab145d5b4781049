/** Simple paths in a switch graph, and the facts the depth-first search
    of `PathFinder` keeps about its stack (modules/ryu_controller.py:56-72). */
module Routes {
  import opened Types
  import opened Topology

  /** Consecutive switches of `p` are linked in `adj`. */
  predicate IsWalk(adj: Adjacency, p: Path)
  {
    forall i :: 0 <= i < |p| - 1 ==> IsEdge(adj, p[i], p[i + 1])
  }

  /** A simple path from `source` to `dest` along links of `adj`. */
  predicate IsRoute(adj: Adjacency, source: Switch, dest: Switch, p: Path)
  {
    |p| > 0 && p[0] == source && p[|p| - 1] == dest && Distinct(p) && IsWalk(adj, p)
  }

  predicate IsPrefix(q: Path, p: Path)
  {
    |q| <= |p| && p[..|q|] == q
  }

  /** The neighbours of the switches in `keys`. */
  ghost function NeighboursOf(adj: Adjacency, keys: set<Switch>): set<Switch>
    requires keys <= adj.Keys
    decreases keys
  {
    if forall a :: a !in keys then {}
    else
      var a :| a in keys;
      adj[a].Keys + NeighboursOf(adj, keys - {a})
  }

  /** Every switch the adjacency mentions, as an owner or as a neighbour. */
  ghost function Nodes(adj: Adjacency): set<Switch>
  {
    adj.Keys + NeighboursOf(adj, adj.Keys)
  }

  lemma {:induction false} InNeighboursOf(adj: Adjacency, keys: set<Switch>, a: Switch, b: Switch)
    requires keys <= adj.Keys && a in keys && b in adj[a]
    ensures b in NeighboursOf(adj, keys)
    decreases keys
  {
    var c :| c in keys && NeighboursOf(adj, keys) == adj[c].Keys + NeighboursOf(adj, keys - {c});
    if c != a {
      InNeighboursOf(adj, keys - {c}, a, b);
    }
  }

  /** A stack entry `(node, path)`: the path searched so far and its last switch. */
  datatype Frame = Frame(node: Switch, path: Path)

  /** A frame of a search from `source` that has not reached `dest`, over the
      switches `u`. */
  ghost predicate ValidFrame(adj: Adjacency, source: Switch, dest: Switch, u: set<Switch>, f: Frame)
  {
    && |f.path| > 0 && f.path[0] == source && f.node == f.path[|f.path| - 1]
    && Distinct(f.path) && IsWalk(adj, f.path) && dest !in f.path
    && (forall i :: 0 <= i < |f.path| ==> f.path[i] in u)
  }

  /** Some frame on the stack is a prefix of `p`, so `p` is still to be found. */
  ghost predicate Pending(stack: seq<Frame>, p: Path)
  {
    exists j :: 0 <= j < |stack| && IsPrefix(stack[j].path, p)
  }

  /** No frame on the stack extends another one. */
  ghost predicate PrefixFree(stack: seq<Frame>)
  {
    forall i, j :: 0 <= i < j < |stack| ==>
      !IsPrefix(stack[i].path, stack[j].path) && !IsPrefix(stack[j].path, stack[i].path)
  }

  /** `b` to the power `e`, as repeated `Times` to keep the arithmetic linear. */
  function Pow(b: nat, e: nat): (r: nat)
    ensures b > 0 ==> r > 0
  {
    if e == 0 then 1 else Times(b, Pow(b, e - 1))
  }

  /** Termination measure: a frame whose path has length `n` weighs
      (k+1)^(k-n), more than all the frames it can push. */
  function FrameWeight(k: nat, f: Frame): nat
  {
    if |f.path| <= k then Pow(k + 1, k - |f.path|) else 0
  }

  function StackWeight(k: nat, stack: seq<Frame>): nat
  {
    if stack == [] then 0 else StackWeight(k, stack[..|stack| - 1]) + FrameWeight(k, stack[|stack| - 1])
  }

  lemma {:induction false} StackWeightPush(k: nat, stack: seq<Frame>, f: Frame)
    ensures StackWeight(k, stack + [f]) == StackWeight(k, stack) + FrameWeight(k, f)
  {
    assert (stack + [f])[..|stack|] == stack;
  }

  lemma {:induction false} SubsetCard<T>(a: set<T>, b: set<T>)
    requires a <= b
    ensures |a| <= |b|
  {
    assert b == a + (b - a);
    assert a * (b - a) == {};
  }

  lemma {:induction false} NeighbourInNodes(adj: Adjacency, a: Switch, b: Switch)
    requires IsEdge(adj, a, b)
    ensures b in Nodes(adj)
  {
    InNeighboursOf(adj, adj.Keys, a, b);
  }

  /** `n` copies of `w`, added up. */
  function Times(n: nat, w: nat): nat
  {
    if n == 0 then 0 else w + Times(n - 1, w)
  }

  lemma {:induction false} TimesBelow(n: nat, m: nat, w: nat)
    requires n < m && w > 0
    ensures Times(n, w) < Times(m, w)
  {
    if n > 0 {
      TimesBelow(n - 1, m - 1, w);
    }
  }

  /** The only simple path from a switch to itself is that switch alone. */
  lemma {:induction false} SelfRoute(adj: Adjacency, s: Switch, p: Path)
    requires IsRoute(adj, s, s, p)
    ensures p == [s]
  {
  }

  /** A prefix of `path + [x]` is a prefix of `path` or the whole of it. */
  lemma {:induction false} PrefixOfAppend(q: Path, path: Path, x: Switch)
    ensures IsPrefix(q, path + [x]) <==> IsPrefix(q, path) || q == path + [x]
  {
    if |q| <= |path| {
      assert (path + [x])[..|q|] == path[..|q|];
    }
  }

  /** Whatever `path + [x]` is a prefix of, `path` is a prefix of too. */
  lemma {:induction false} AppendIsPrefix(path: Path, x: Switch, r: Path)
    ensures IsPrefix(path + [x], r) ==> IsPrefix(path, r) && |path| < |r| && r[|path|] == x
  {
    if IsPrefix(path + [x], r) {
      assert r[..|path|] == (path + [x])[..|path|] == path;
      assert r[|path|] == (path + [x])[|path|];
    }
  }

  /** Facts about a route `p` that extends the frame path `path`. */
  lemma {:induction false} RouteExtends(adj: Adjacency, source: Switch, dest: Switch, path: Path, p: Path)
    requires IsRoute(adj, source, dest, p) && IsPrefix(path, p) && |path| > 0 && dest !in path
    ensures |path| < |p|
    ensures p[|path|] in Neighbours(adj, path[|path| - 1]) && p[|path|] !in Elements(path)
    ensures p[|path|] == dest ==> p == path + [dest]
    ensures IsPrefix(path + [p[|path|]], p)
  {
    var n := |path|;
    assert IsEdge(adj, p[n - 1], p[n]);
    assert p[n - 1] == path[n - 1];
    assert p[..n + 1] == path + [p[n]];
    if p[n] == dest {
      assert p == p[..n + 1];
    }
  }

  lemma {:induction false} AppendDistinct(path: Path, next: Switch)
    requires Distinct(path) && next !in Elements(path)
    ensures Distinct(path + [next])
  {
    var q := path + [next];
    forall i, j | 0 <= i < j < |q| ensures q[i] != q[j] {
      if j == |q| - 1 {
        assert q[i] == path[i] && path[i] in Elements(path);
      }
    }
  }

  /** Extending a frame path by an unvisited neighbour gives a frame path. */
  lemma {:induction false} ExtendFrame(adj: Adjacency, source: Switch, dest: Switch, u: set<Switch>, f: Frame, next: Switch)
    requires ValidFrame(adj, source, dest, u, f)
    requires next in Neighbours(adj, f.node) && next !in Elements(f.path) && next in u
    ensures next != dest ==> ValidFrame(adj, source, dest, u, Frame(next, f.path + [next]))
    ensures next == dest ==> IsRoute(adj, source, dest, f.path + [next])
  {
    AppendDistinct(f.path, next);
  }

  lemma {:induction false} Pick(s: set<Switch>) returns (x: Switch)
    requires s != {}
    ensures x in s
  {
    if forall y :: y !in s {
      assert false;
    }
    x :| x in s;
  }

  /** Candidates can only be pushed while the path is shorter than the number
      of switches; pushing all of them weighs less than their parent. */
  lemma {:induction false} CandidatesWeighLess(adj: Adjacency, source: Switch, dest: Switch, u: set<Switch>, k: nat,
                                               f: Frame, cands: set<Switch>, n: nat)
    requires ValidFrame(adj, source, dest, u, f)
    requires cands <= u && cands * Elements(f.path) == {}
    requires k == |u| && n == |cands|
    ensures |f.path| <= k
    ensures n > 0 ==> |f.path| < k && Times(n, Pow(k + 1, k - |f.path| - 1)) < FrameWeight(k, f)
    ensures FrameWeight(k, f) > 0
  {
    DistinctLength(f.path, u);
    SubsetCard(cands, u);
    if cands != {} {
      var c := Pick(cands);
      assert c !in cands * Elements(f.path);
      AppendDistinct(f.path, c);
      DistinctLength(f.path + [c], u);
      ChildrenWeighLess(n, k, |f.path|);
    }
  }

  /** `n <= k` children of weight (k+1)^(k-len-1) weigh less than (k+1)^(k-len). */
  lemma {:induction false} ChildrenWeighLess(n: nat, k: nat, len: nat)
    requires n <= k && len < k
    ensures Times(n, Pow(k + 1, k - len - 1)) < Pow(k + 1, k - len)
  {
    var w := Pow(k + 1, k - len - 1);
    assert Pow(k + 1, k - len) == Times(k + 1, w);
    TimesBelow(n, k + 1, w);
  }

  /** What holds between iterations of the search loop. */
  ghost predicate SearchInv(adj: Adjacency, source: Switch, dest: Switch, u: set<Switch>, stack: seq<Frame>, routes: seq<Path>)
  {
    && (forall j :: 0 <= j < |stack| ==> ValidFrame(adj, source, dest, u, stack[j]))
    && (forall r :: r in routes ==> IsRoute(adj, source, dest, r))
    && Distinct(routes)
    && PrefixFree(stack)
    && (forall i, j :: 0 <= i < |stack| && 0 <= j < |routes| ==> !IsPrefix(stack[i].path, routes[j]))
  }

  /** Every route is found already or extends a frame on the stack. */
  ghost predicate Complete(adj: Adjacency, source: Switch, dest: Switch, stack: seq<Frame>, routes: seq<Path>)
  {
    forall p :: IsRoute(adj, source, dest, p) ==> p in routes || Pending(stack, p)
  }

  /** A frame pushed while expanding `path`, or one unrelated to it. */
  ghost predicate ChildOrApart(path: Path, remaining: set<Switch>, dest: Switch, f: Frame)
  {
    || (f.path == path + [f.node] && f.node !in remaining && f.node != dest)
    || (!IsPrefix(f.path, path) && !IsPrefix(path, f.path))
  }

  /** A route recorded while expanding `path`, or one that does not extend it. */
  ghost predicate RouteOrApart(path: Path, remaining: set<Switch>, dest: Switch, r: Path)
  {
    (r == path + [dest] && dest !in remaining) || !IsPrefix(path, r)
  }

  /** Every route is found, extends a frame, or goes through a candidate not yet handled. */
  ghost predicate CompleteExpanding(adj: Adjacency, source: Switch, dest: Switch, path: Path,
                                    remaining: set<Switch>, stack: seq<Frame>, routes: seq<Path>)
  {
    forall p :: IsRoute(adj, source, dest, p) ==>
      p in routes || Pending(stack, p) || (IsPrefix(path, p) && |path| < |p| && p[|path|] in remaining)
  }

  /** What holds between iterations of the loop over the candidates of `path`. */
  ghost predicate ExpandInv(adj: Adjacency, source: Switch, dest: Switch, u: set<Switch>, path: Path,
                            remaining: set<Switch>, stack: seq<Frame>, routes: seq<Path>)
  {
    && SearchInv(adj, source, dest, u, stack, routes)
    && (forall j :: 0 <= j < |stack| ==> ChildOrApart(path, remaining, dest, stack[j]))
    && (forall j :: 0 <= j < |routes| ==> RouteOrApart(path, remaining, dest, routes[j]))
    && CompleteExpanding(adj, source, dest, path, remaining, stack, routes)
  }

  lemma {:induction false} ExpandStart(adj: Adjacency, source: Switch, dest: Switch, u: set<Switch>,
                    rest: seq<Frame>, top: Frame, routes: seq<Path>, cands: set<Switch>)
    requires SearchInv(adj, source, dest, u, rest + [top], routes)
    requires Complete(adj, source, dest, rest + [top], routes)
    requires cands == Neighbours(adj, top.node).Keys - Elements(top.path)
    ensures ValidFrame(adj, source, dest, u, top)
    ensures ExpandInv(adj, source, dest, u, top.path, cands, rest, routes)
  {
    var stack := rest + [top];
    var path := top.path;
    assert stack[|rest|] == top;
    assert forall j :: 0 <= j < |rest| ==> rest[j] == stack[j];
    forall j | 0 <= j < |routes| ensures RouteOrApart(path, cands, dest, routes[j]) {
      assert !IsPrefix(stack[|rest|].path, routes[j]);
    }
    forall p | IsRoute(adj, source, dest, p)
      ensures p in routes || Pending(rest, p) || (IsPrefix(path, p) && |path| < |p| && p[|path|] in cands)
    {
      if p !in routes {
        var j :| 0 <= j < |stack| && IsPrefix(stack[j].path, p);
        if j == |rest| {
          RouteExtends(adj, source, dest, path, p);
        }
      }
    }
  }

  lemma {:induction false} ExpandPush(adj: Adjacency, source: Switch, dest: Switch, u: set<Switch>, top: Frame,
                   remaining: set<Switch>, stack: seq<Frame>, routes: seq<Path>, next: Switch)
    requires ValidFrame(adj, source, dest, u, top)
    requires ExpandInv(adj, source, dest, u, top.path, remaining, stack, routes)
    requires next in remaining && next != dest
    requires next in Neighbours(adj, top.node) && next !in Elements(top.path) && next in u
    ensures ExpandInv(adj, source, dest, u, top.path, remaining - {next}, stack + [Frame(next, top.path + [next])], routes)
  {
    var path := top.path;
    var f := Frame(next, path + [next]);
    var s := stack + [f];
    var rem := remaining - {next};
    ExtendFrame(adj, source, dest, u, top, next);
    assert s[|stack|] == f;
    assert forall j :: 0 <= j < |stack| ==> s[j] == stack[j];
    forall j | 0 <= j < |stack| ensures !IsPrefix(stack[j].path, f.path) && !IsPrefix(f.path, stack[j].path) {
      assert ChildOrApart(path, remaining, dest, stack[j]);
      PrefixOfAppend(stack[j].path, path, next);
      AppendIsPrefix(path, next, stack[j].path);
    }
    forall j | 0 <= j < |routes| ensures !IsPrefix(f.path, routes[j]) {
      assert RouteOrApart(path, remaining, dest, routes[j]);
      AppendIsPrefix(path, next, routes[j]);
    }
    forall j | 0 <= j < |stack| ensures ChildOrApart(path, rem, dest, s[j]) {
      assert ChildOrApart(path, remaining, dest, stack[j]);
    }
    forall j | 0 <= j < |routes| ensures RouteOrApart(path, rem, dest, routes[j]) {
      assert RouteOrApart(path, remaining, dest, routes[j]);
    }
    forall p | IsRoute(adj, source, dest, p)
      ensures p in routes || Pending(s, p) || (IsPrefix(path, p) && |path| < |p| && p[|path|] in rem)
    {
      if Pending(stack, p) {
        var j :| 0 <= j < |stack| && IsPrefix(stack[j].path, p);
        assert IsPrefix(s[j].path, p);
      } else if p !in routes && p[|path|] == next {
        RouteExtends(adj, source, dest, path, p);
        assert IsPrefix(s[|stack|].path, p);
      }
    }
  }

  lemma {:induction false} ExpandRecord(adj: Adjacency, source: Switch, dest: Switch, u: set<Switch>, top: Frame,
                     remaining: set<Switch>, stack: seq<Frame>, routes: seq<Path>)
    requires ValidFrame(adj, source, dest, u, top)
    requires ExpandInv(adj, source, dest, u, top.path, remaining, stack, routes)
    requires dest in remaining
    requires dest in Neighbours(adj, top.node) && dest !in Elements(top.path) && dest in u
    ensures ExpandInv(adj, source, dest, u, top.path, remaining - {dest}, stack, routes + [top.path + [dest]])
  {
    var path := top.path;
    var r := path + [dest];
    var rs := routes + [r];
    var rem := remaining - {dest};
    ExtendFrame(adj, source, dest, u, top, dest);
    assert rs[|routes|] == r;
    assert forall j :: 0 <= j < |routes| ==> rs[j] == routes[j];
    assert IsPrefix(path, r);
    forall j | 0 <= j < |routes| ensures routes[j] != r {
      assert RouteOrApart(path, remaining, dest, routes[j]);
    }
    forall i | 0 <= i < |stack| ensures !IsPrefix(stack[i].path, r) {
      assert ChildOrApart(path, remaining, dest, stack[i]);
      PrefixOfAppend(stack[i].path, path, dest);
    }
    forall j | 0 <= j < |stack| ensures ChildOrApart(path, rem, dest, stack[j]) {
      assert ChildOrApart(path, remaining, dest, stack[j]);
    }
    forall j | 0 <= j < |routes| ensures RouteOrApart(path, rem, dest, rs[j]) {
      assert RouteOrApart(path, remaining, dest, routes[j]);
    }
    forall p | IsRoute(adj, source, dest, p)
      ensures p in rs || Pending(stack, p) || (IsPrefix(path, p) && |path| < |p| && p[|path|] in rem)
    {
      if p !in routes && !Pending(stack, p) && p[|path|] == dest {
        RouteExtends(adj, source, dest, path, p);
      }
    }
  }

  lemma {:induction false} RemoveOne(s: set<Switch>, x: Switch, r: set<Switch>)
    requires x in s && r == s - {x}
    ensures |r| == |s| - 1
  {
  }

  /** Once every candidate is handled, the search invariant holds again. */
  lemma {:induction false} ExpandDone(adj: Adjacency, source: Switch, dest: Switch, u: set<Switch>, path: Path,
                   stack: seq<Frame>, routes: seq<Path>)
    requires ExpandInv(adj, source, dest, u, path, {}, stack, routes)
    ensures SearchInv(adj, source, dest, u, stack, routes)
    ensures Complete(adj, source, dest, stack, routes)
  {
  }

  /** `stack` is `base` followed by children `path + [c]` of the frame path `path`. */
  ghost predicate Children(path: Path, base: seq<Frame>, stack: seq<Frame>)
  {
    && |base| <= |stack| && stack[..|base|] == base
    && forall i :: |base| <= i < |stack| ==> stack[i].path == path + [stack[i].node]
  }

  lemma {:induction false} ChildrenTrans(path: Path, a: seq<Frame>, b: seq<Frame>, c: seq<Frame>)
    requires Children(path, a, b) && Children(path, b, c)
    ensures Children(path, a, c)
  {
    assert c[..|a|] == c[..|b|][..|a|];
  }

  /** Each child of `path` adds the weight `w` of a path one longer. */
  lemma {:induction false} ChildrenWeight(k: nat, path: Path, base: seq<Frame>, stack: seq<Frame>, w: nat)
    requires Children(path, base, stack)
    requires |path| < k && w == Pow(k + 1, k - |path| - 1)
    ensures StackWeight(k, stack) == StackWeight(k, base) + Times(|stack| - |base|, w)
    decreases |stack|
  {
    if |stack| > |base| {
      var front := stack[..|stack| - 1];
      assert front[..|base|] == base;
      assert forall i :: |base| <= i < |front| ==> front[i] == stack[i];
      ChildrenWeight(k, path, base, front, w);
    } else {
      assert stack == base;
    }
  }

  /** Once every candidate is handled, the stack weighs less than before `top`
      was popped: at most `n` children were pushed, each lighter than `top`. */
  lemma {:induction false} WeightDone(k: nat, rest: seq<Frame>, top: Frame, stack: seq<Frame>, n: nat)
    requires Children(top.path, rest, stack) && |stack| - |rest| <= n
    requires n > 0 ==> |top.path| < k && Times(n, Pow(k + 1, k - |top.path| - 1)) < FrameWeight(k, top)
    requires FrameWeight(k, top) > 0
    ensures StackWeight(k, stack) < StackWeight(k, rest + [top])
  {
    StackWeightPush(k, rest, top);
    if n > 0 {
      var w := Pow(k + 1, k - |top.path| - 1);
      ChildrenWeight(k, top.path, rest, stack, w);
      if |stack| - |rest| < n {
        TimesBelow(|stack| - |rest|, n, w);
      }
    } else {
      assert stack == rest;
    }
  }

  /** What holds once `top` is popped, before its candidates are handled. */
  lemma {:induction false} ExpandBegin(adj: Adjacency, source: Switch, dest: Switch, u: set<Switch>,
                    rest: seq<Frame>, top: Frame, routes: seq<Path>, cands: set<Switch>)
    requires Nodes(adj) <= u
    requires SearchInv(adj, source, dest, u, rest + [top], routes)
    requires Complete(adj, source, dest, rest + [top], routes)
    requires cands == Neighbours(adj, top.node).Keys - Elements(top.path)
    ensures ValidFrame(adj, source, dest, u, top)
    ensures cands <= u
    ensures ExpandInv(adj, source, dest, u, top.path, cands, rest, routes)
  {
    forall c | c in cands ensures c in u {
      NeighbourInNodes(adj, top.node, c);
    }
    ExpandStart(adj, source, dest, u, rest, top, routes, cands);
  }

  /** The search starts from the one frame `(source, [source])`. */
  lemma {:induction false} SearchStart(adj: Adjacency, source: Switch, dest: Switch, u: set<Switch>)
    requires source != dest && source in u
    ensures SearchInv(adj, source, dest, u, [Frame(source, [source])], [])
    ensures Complete(adj, source, dest, [Frame(source, [source])], [])
  {
    var stack := [Frame(source, [source])];
    forall p | IsRoute(adj, source, dest, p) ensures Pending(stack, p) {
      assert IsPrefix(stack[0].path, p);
    }
  }

  /** Once the stack is empty, every route has been found. */
  lemma {:induction false} SearchDone(adj: Adjacency, source: Switch, dest: Switch, u: set<Switch>, routes: seq<Path>)
    requires SearchInv(adj, source, dest, u, [], routes)
    requires Complete(adj, source, dest, [], routes)
    ensures forall p :: p in routes <==> IsRoute(adj, source, dest, p)
    ensures Distinct(routes)
  {
  }
}
