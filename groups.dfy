/** Load balancing over several paths (modules/ryu_controller.py:141-213):
    grouping a switch's (egress, cost) pairs by ingress port, and the bucket
    weights of a select group. */
module Groups {
  import opened Types
  import opened Commands
  import opened PortPlan

  /** A member of `ports[port_in]`: an egress port and the cost of the path
      leaving by it. */
  type Entry = (Port, nat)

  /** `int(round((1 - c / total) * 10))` for a path cost `c` out of the total
      cost `total` of the installed paths, in exact arithmetic: Python 2's
      `round` rounds halves away from zero, and the value is never negative. */
  function BucketWeight(c: nat, total: nat): (w: nat)
    requires 0 < total && c <= total
    ensures w <= 10
  {
    var n := 20 * (total - c) + total;
    DivBelow(n, 2 * total, 11);
    n / (2 * total)
  }

  lemma {:induction false} MulMono(a: int, b: int, m: nat)
    requires a <= b
    ensures a * m <= b * m
  {
    assert b * m == a * m + (b - a) * m;
  }

  /** `n / d < q` when `n < q * d`. */
  lemma {:induction false} DivBelow(n: nat, d: nat, q: nat)
    requires 0 < d && n < q * d
    ensures n / d < q
  {
    var x := n / d;
    assert x * d <= n;
    if x >= q {
      MulMono(q, x, d);
      assert false;
    }
  }

  /** Floor division by a positive number is monotone. */
  lemma {:induction false} DivMono(a: nat, b: nat, d: nat)
    requires a <= b && 0 < d
    ensures a / d <= b / d
  {
    var x := a / d;
    assert x * d <= a;
    assert b == (b / d) * d + b % d;
    if b / d < x {
      MulMono(b / d + 1, x, d);
      assert false;
    }
  }

  /** The weight is `(1 - c / total) * 10` rounded to the nearest integer,
      halves rounded up: it lies within half a unit below or at that value. */
  lemma {:induction false} BucketWeightRounds(c: nat, total: nat)
    requires 0 < total && c <= total
    ensures var x := (1.0 - (c as real) / (total as real)) * 10.0;
      (BucketWeight(c, total) as real) <= x + 0.5 < (BucketWeight(c, total) as real) + 1.0
  {
    var n := 20 * (total - c) + total;
    var d := 2 * total;
    var w := BucketWeight(c, total);
    DivBounds(n, d);
    var y := (1.0 - (c as real) / (total as real)) * 10.0 + 0.5;
    ScaledWeight(c, total);
    RealOfProduct(w, d);
    RealOfProduct(w + 1, d);
    RealBounds(w as real, y, d as real, n as real);
  }

  lemma {:induction false} DivBounds(n: nat, d: nat)
    requires 0 < d
    ensures (n / d) * d <= n < (n / d + 1) * d
  {
    assert n == (n / d) * d + n % d;
  }

  lemma {:induction false} RealBounds(w: real, y: real, d: real, n: real)
    requires 0.0 < d && y * d == n && w * d <= n < (w + 1.0) * d
    ensures w <= y < w + 1.0
  {
    RealCancel(w, y, d);
    RealCancelStrict(y, w + 1.0, d);
  }

  /** `((1 - c / total) * 10 + 1/2) * 2 * total` is the integer numerator
      `BucketWeight` divides. */
  lemma {:induction false} ScaledWeight(c: nat, total: nat)
    requires 0 < total && c <= total
    ensures ((1.0 - (c as real) / (total as real)) * 10.0 + 0.5) * ((2 * total) as real)
      == (20 * (total - c) + total) as real
  {
    var cr := c as real;
    var sr := total as real;
    var q := cr / sr;
    assert q * sr == cr;
    assert ((1.0 - q) * 10.0 + 0.5) * (2.0 * sr) == 21.0 * sr - 20.0 * (q * sr);
  }

  /** Converting a product of integers to a real multiplies the conversions. */
  lemma {:induction false} RealOfProduct(a: int, b: nat)
    ensures ((a * b) as real) == (a as real) * (b as real)
    decreases b
  {
    if b > 0 {
      RealOfProduct(a, b - 1);
      assert a * b == a * (b - 1) + a;
    }
  }

  lemma {:induction false} RealCancel(a: real, b: real, d: real)
    requires 0.0 < d && a * d <= b * d
    ensures a <= b
  {
  }

  lemma {:induction false} RealCancelStrict(a: real, b: real, d: real)
    requires 0.0 < d && a * d < b * d
    ensures a < b
  {
  }

  /** A cheaper path never gets a smaller weight. */
  lemma {:induction false} BucketWeightAntitone(c1: nat, c2: nat, total: nat)
    requires 0 < total && c1 <= c2 <= total
    ensures BucketWeight(c2, total) <= BucketWeight(c1, total)
  {
    DivMono(20 * (total - c2) + total, 20 * (total - c1) + total, 2 * total);
  }

  /** The two buckets of a group over two paths share ten units, or eleven
      when both round a half up. */
  lemma {:induction false} TwoBucketWeights(c1: nat, c2: nat)
    requires 0 < c1 + c2
    ensures 10 <= BucketWeight(c1, c1 + c2) + BucketWeight(c2, c1 + c2) <= 11
  {
    var total := c1 + c2;
    var d := 2 * total;
    var n1 := 20 * (total - c1) + total;
    var n2 := 20 * (total - c2) + total;
    var w1 := n1 / d;
    var w2 := n2 / d;
    assert n1 + n2 == 11 * d;
    assert w1 * d <= n1 && n1 < (w1 + 1) * d;
    assert w2 * d <= n2 && n2 < (w2 + 1) * d;
    assert (w1 + w2) * d <= 11 * d;
    assert 11 * d < (w1 + w2 + 2) * d;
    if w1 + w2 > 11 {
      MulMono(12, w1 + w2, d);
      assert false;
    }
    if w1 + w2 < 10 {
      MulMono(w1 + w2 + 2, 11, d);
      assert false;
    }
  }

  /** Two paths of equal cost get five units each. */
  lemma {:induction false} EqualCostsEqualWeights(c: nat)
    requires 0 < c
    ensures BucketWeight(c, c + c) == 5
  {
    TwoBucketWeights(c, c);
  }

  /** `ports` after the loop over the first `k` port plans. */
  function Grouping(plans: seq<Plan>, costs: seq<nat>, node: Switch, k: nat): map<Port, seq<Entry>>
    requires k <= |plans| && |plans| == |costs|
  {
    if k == 0 then map[]
    else
      var g := Grouping(plans, costs, node, k - 1);
      if node !in plans[k - 1] then g
      else
        var pin := plans[k - 1][node].0;
        var e := (plans[k - 1][node].1, costs[k - 1]);
        var cur := if pin in g then g[pin] else [];
        if e in cur then g else g[pin := cur + [e]]
  }

  /** Plan `i` sends the flow through `node` from `pin` to `pout`, on a path
      costing `c`. */
  predicate Through(plans: seq<Plan>, costs: seq<nat>, node: Switch, i: nat, pin: Port, pout: Port, c: nat)
    requires i < |plans| && |plans| == |costs|
  {
    node in plans[i] && plans[i][node] == (pin, pout) && costs[i] == c
  }

  /** The ingress ports of `node` in `ports` are those of the plans passing
      through it. */
  lemma {:induction false} GroupingKeys(plans: seq<Plan>, costs: seq<nat>, node: Switch, k: nat, pin: Port)
    requires k <= |plans| && |plans| == |costs|
    ensures pin in Grouping(plans, costs, node, k) <==>
      exists i :: 0 <= i < k && node in plans[i] && plans[i][node].0 == pin
    ensures pin in Grouping(plans, costs, node, k) ==> |Grouping(plans, costs, node, k)[pin]| > 0
  {
    if k > 0 {
      GroupingKeys(plans, costs, node, k - 1, pin);
    }
  }

  /** The list for an ingress port holds exactly the (egress, cost) pairs of
      the plans entering `node` there. */
  lemma {:induction false} GroupingEntries(plans: seq<Plan>, costs: seq<nat>, node: Switch, k: nat, pin: Port, e: Entry)
    requires k <= |plans| && |plans| == |costs|
    requires pin in Grouping(plans, costs, node, k)
    ensures e in Grouping(plans, costs, node, k)[pin] <==>
      exists i :: 0 <= i < k && Through(plans, costs, node, i, pin, e.0, e.1)
  {
    var g := Grouping(plans, costs, node, k - 1);
    if node !in plans[k - 1] || plans[k - 1][node].0 != pin {
      GroupingEntries(plans, costs, node, k - 1, pin, e);
    } else {
      var e' := (plans[k - 1][node].1, costs[k - 1]);
      assert Through(plans, costs, node, k - 1, pin, e'.0, e'.1);
      if pin in g {
        GroupingEntries(plans, costs, node, k - 1, pin, e);
        GroupingEntries(plans, costs, node, k - 1, pin, e');
      } else {
        forall i | 0 <= i < k - 1 ensures !Through(plans, costs, node, i, pin, e.0, e.1) {
          GroupingKeys(plans, costs, node, k - 1, pin);
        }
      }
    }
  }

  /** No (egress, cost) pair is listed twice for one ingress port. */
  lemma {:induction false} GroupingDistinct(plans: seq<Plan>, costs: seq<nat>, node: Switch, k: nat, pin: Port)
    requires k <= |plans| && |plans| == |costs|
    requires pin in Grouping(plans, costs, node, k)
    ensures Distinct(Grouping(plans, costs, node, k)[pin])
  {
    var g := Grouping(plans, costs, node, k - 1);
    if pin in g {
      GroupingDistinct(plans, costs, node, k - 1, pin);
    }
  }

  /** The loop that fills `ports` for one switch. */
  method GroupByIngress(plans: seq<Plan>, costs: seq<nat>, node: Switch) returns (ports: map<Port, seq<Entry>>)
    requires |plans| == |costs|
    ensures ports == Grouping(plans, costs, node, |plans|)
  {
    ports := map[];
    var i := 0;
    while i < |plans|
      invariant i <= |plans| && ports == Grouping(plans, costs, node, i)
    {
      if node in plans[i] {
        var portIn := plans[i][node].0;
        var entry := (plans[i][node].1, costs[i]);
        var cur := if portIn in ports then ports[portIn] else [];
        if entry !in cur {
          ports := ports[portIn := cur + [entry]];
        }
      }
      i := i + 1;
    }
  }

  /** One bucket per entry, in order, weighted by the entry's cost. */
  function Buckets(out: seq<Entry>, total: nat): seq<Bucket>
    requires 0 < total && forall i :: 0 <= i < |out| ==> out[i].1 <= total
  {
    seq(|out|, i requires 0 <= i < |out| => Bucket(BucketWeight(out[i].1, total), out[i].0))
  }

  /** The loop that builds the buckets of a group (lines 183-195). */
  method MakeBuckets(out: seq<Entry>, total: nat) returns (buckets: seq<Bucket>)
    requires 0 < total && forall i :: 0 <= i < |out| ==> out[i].1 <= total
    ensures |buckets| == |out|
    ensures forall i :: 0 <= i < |out| ==>
      buckets[i].port == out[i].0 && buckets[i].weight == BucketWeight(out[i].1, total)
    ensures buckets == Buckets(out, total)
  {
    buckets := [];
    var i := 0;
    while i < |out|
      invariant i <= |out| && buckets == Buckets(out[..i], total)
    {
      buckets := buckets + [Bucket(BucketWeight(out[i].1, total), out[i].0)];
      assert out[..i + 1][..i] == out[..i];
      i := i + 1;
    }
    assert out[..i] == out;
  }
}
