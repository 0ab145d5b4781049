/** Choosing the paths to install (`max_optimal_paths`,
    modules/ryu_controller.py:96-99): the paths the search found are sorted
    by cost with Python's stable `sorted`, and the first `max_allowed_path`
    are kept. */
module PathSelection {
  import opened Types
  import opened Topology
  import opened Routes
  import opened Cost
  import opened PathFinder

  /** The cost of each path, computed in list order as `sorted` computes its
      keys; the first path that cannot be costed fails the whole sort. */
  function Costs(adj: Adjacency, bw: Bandwidths, paths: seq<Path>): (r: Result<seq<nat>>)
    ensures r.Ok? <==> forall i :: 0 <= i < |paths| ==> PathCost(adj, bw, paths[i]).Ok?
    ensures r.Ok? ==> (|r.value| == |paths| &&
      forall i :: 0 <= i < |paths| ==> PathCost(adj, bw, paths[i]) == Ok(r.value[i]))
    ensures r.Err? ==> exists i :: (0 <= i < |paths| && PathCost(adj, bw, paths[i]) == Err(r.error) &&
      forall j :: 0 <= j < i ==> PathCost(adj, bw, paths[j]).Ok?)
    decreases |paths|
  {
    if paths == [] then Ok([])
    else
      match PathCost(adj, bw, paths[0])
      case Err(e) => Err(e)
      case Ok(c) =>
        var rest := Costs(adj, bw, paths[1..]);
        assert forall i :: 1 <= i < |paths| ==> paths[1..][i - 1] == paths[i];
        match rest
        case Err(e) =>
          ghost var i :| 0 <= i < |paths| - 1 && PathCost(adj, bw, paths[1..][i]) == Err(e) &&
            forall j :: 0 <= j < i ==> PathCost(adj, bw, paths[1..][j]).Ok?;
          assert PathCost(adj, bw, paths[i + 1]) == Err(e);
          Err(e)
        case Ok(cs) => Ok([c] + cs)
  }

  /** Position `i` precedes position `j` in a stable sort by `costs`: it is
      cheaper, or as cheap and earlier. */
  predicate Before(costs: seq<nat>, i: nat, j: nat)
    requires i < |costs| && j < |costs|
  {
    costs[i] < costs[j] || (costs[i] == costs[j] && i < j)
  }

  predicate InRange(costs: seq<nat>, s: seq<nat>)
  {
    forall k :: 0 <= k < |s| ==> s[k] < |costs|
  }

  /** Every earlier position of `s` precedes every later one. */
  predicate SortedBy(costs: seq<nat>, s: seq<nat>)
    requires InRange(costs, s)
  {
    forall a, b :: 0 <= a < b < |s| ==> Before(costs, s[a], s[b])
  }

  /** Inserts position `x` into the sorted `s`. */
  function Insert(costs: seq<nat>, x: nat, s: seq<nat>): (r: seq<nat>)
    requires x < |costs| && InRange(costs, s) && SortedBy(costs, s) && x !in s
    ensures InRange(costs, r) && SortedBy(costs, r)
    ensures |r| == |s| + 1 && forall y :: y in r <==> y == x || y in s
    decreases |s|
  {
    if s == [] then [x]
    else if Before(costs, x, s[0]) then
      assert forall k :: 0 <= k < |s| ==> Before(costs, x, s[k]) by {
        forall k | 0 <= k < |s| ensures Before(costs, x, s[k]) {
          if k > 0 { assert Before(costs, s[0], s[k]); }
        }
      }
      [x] + s
    else
      var t := Insert(costs, x, s[1..]);
      assert forall y :: y in s <==> y == s[0] || y in s[1..];
      assert forall k :: 0 <= k < |t| ==> Before(costs, s[0], t[k]) by {
        forall k | 0 <= k < |t| ensures Before(costs, s[0], t[k]) {
          assert t[k] in t;
          if t[k] != x {
            var b :| 1 <= b < |s| && s[b] == t[k];
            assert Before(costs, s[0], s[b]);
          }
        }
      }
      [s[0]] + t
  }

  /** The positions below `n` in the order a stable sort by `costs` gives them. */
  function SortOrder(costs: seq<nat>, n: nat): (r: seq<nat>)
    requires n <= |costs|
    ensures |r| == n && InRange(costs, r) && SortedBy(costs, r)
    ensures forall y: nat :: y in r <==> y < n
  {
    if n == 0 then [] else Insert(costs, n - 1, SortOrder(costs, n - 1))
  }

  /** An arrangement sorted by `Before` is determined by its elements: the
      order `SortOrder` builds is the only stable sort of the positions. */
  lemma {:induction false} SortedUnique(costs: seq<nat>, s: seq<nat>, t: seq<nat>)
    requires InRange(costs, s) && SortedBy(costs, s)
    requires InRange(costs, t) && SortedBy(costs, t)
    requires forall y :: y in s <==> y in t
    ensures s == t
    decreases |s|
  {
    assert t != [] ==> t[0] in t;
    assert s != [] ==> s[0] in s;
    if s == [] {
      if t != [] {
        assert false;
      }
    } else {
      if t == [] {
        assert false;
      }
      if s[0] != t[0] {
        assert false;
      }
      assert forall y :: y in s[1..] <==> y in s && y != s[0] by {
        forall y ensures y in s[1..] <==> y in s && y != s[0] {
          if y in s[1..] {
            var a :| 1 <= a < |s| && s[a] == y;
            assert Before(costs, s[0], s[a]);
          }
        }
      }
      assert forall y :: y in t[1..] <==> y in t && y != t[0] by {
        forall y ensures y in t[1..] <==> y in t && y != t[0] {
          if y in t[1..] {
            var a :| 1 <= a < |t| && t[a] == y;
            assert Before(costs, t[0], t[a]);
          }
        }
      }
      SortedUnique(costs, s[1..], t[1..]);
      assert s == [s[0]] + s[1..] && t == [t[0]] + t[1..];
    }
  }

  /** The positions of the `k` paths a stable sort by `costs` puts first. */
  function TopK(costs: seq<nat>, k: nat): (idx: seq<nat>)
    requires k <= |costs|
    ensures |idx| == k && InRange(costs, idx) && SortedBy(costs, idx)
    ensures forall j, x :: 0 <= j < k && 0 <= x < |costs| && x !in idx ==> Before(costs, idx[j], x)
  {
    var order := SortOrder(costs, |costs|);
    var idx := order[..k];
    forall j, x | 0 <= j < k && 0 <= x < |costs| && x !in idx
      ensures Before(costs, idx[j], x)
    {
      assert x in order;
      var b :| 0 <= b < |order| && order[b] == x;
      assert forall i :: 0 <= i < k ==> idx[i] == order[i];
      assert Before(costs, order[j], order[b]);
    }
    idx
  }

  /** `max_optimal_paths` on the list of paths the search returned: fails
      if some path cannot be costed, and otherwise keeps the first
      `min(len(paths), max_allowed_path)` of the stable sort by cost. */
  function SelectPaths(adj: Adjacency, bw: Bandwidths, paths: seq<Path>): (r: Result<seq<Path>>)
    ensures r.Err? <==> Costs(adj, bw, paths).Err?
    ensures r.Err? ==> r.error == Costs(adj, bw, paths).error
    ensures r.Ok? ==> |r.value| == Min(|paths|, MAX_ALLOWED_PATH)
  {
    match Costs(adj, bw, paths)
    case Err(e) => Err(e)
    case Ok(costs) =>
      var idx := TopK(costs, Min(|paths|, MAX_ALLOWED_PATH));
      Ok(seq(|idx|, j requires 0 <= j < |idx| => paths[idx[j]]))
  }

  /** The selected paths are the cheapest: listed cheapest first with ties
      in search order, each one no costlier than any path left out, and a
      path left out that costs the same as a selected one was found later. */
  lemma {:induction false} SelectionCheapest(adj: Adjacency, bw: Bandwidths, paths: seq<Path>)
    requires Costs(adj, bw, paths).Ok?
    ensures var costs := Costs(adj, bw, paths).value;
      var idx := TopK(costs, Min(|paths|, MAX_ALLOWED_PATH));
      var sel := SelectPaths(adj, bw, paths).value;
      && |sel| == |idx|
      && (forall j :: 0 <= j < |idx| ==> idx[j] < |paths| && sel[j] == paths[idx[j]])
      && (forall a, b :: 0 <= a < b < |idx| ==> idx[a] != idx[b] && costs[idx[a]] <= costs[idx[b]])
      && (forall j, x :: 0 <= j < |idx| && 0 <= x < |paths| && x !in idx ==>
            costs[idx[j]] < costs[x] || (costs[idx[j]] == costs[x] && idx[j] < x))
  {
  }

  /** `max_optimal_paths(source, dest)`: the depth-first search, then the
      selection among the paths it found. */
  method MaxOptimalPaths(adj: Adjacency, bw: Bandwidths, source: Switch, dest: Switch)
    returns (routes: seq<Path>, r: Result<seq<Path>>)
    ensures forall p :: p in routes <==> IsRoute(adj, source, dest, p)
    ensures Distinct(routes)
    ensures r == SelectPaths(adj, bw, routes)
  {
    routes := Dfs(adj, source, dest);
    r := SelectPaths(adj, bw, routes);
  }
}
