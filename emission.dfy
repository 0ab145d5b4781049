/** What installing the paths between two hosts sends to the switches
    (`est_flinks`, modules/ryu_controller.py:126-221), as functions of the
    chosen paths, their costs and port plans, and the order in which the
    switches and their ingress ports are visited. */
module Emission {
  import opened Types
  import opened Topology
  import opened Routes
  import opened Cost
  import opened PathSelection
  import opened PortPlan
  import opened Commands
  import opened Groups

  /** `path_ofids` is keyed by (switch, source switch, destination switch). */
  type GroupKey = (Switch, Switch, Switch)
  type GroupIds = map<GroupKey, nat>

  /** `sum(arr_link)`. */
  function Sum(s: seq<nat>): (r: nat)
    ensures forall i :: 0 <= i < |s| ==> s[i] <= r
  {
    if s == [] then 0
    else
      var r := Sum(s[..|s| - 1]) + s[|s| - 1];
      assert forall i :: 0 <= i < |s| - 1 ==> s[..|s| - 1][i] == s[i];
      r
  }

  /** `link_s`: every switch on one of the installed paths. */
  function NodesOf(links: seq<Path>): set<Switch>
  {
    set k, s | 0 <= k < |links| && s in links[k] :: s
  }

  /** A group id `random.randint(0, 2**32)` may draw that is not in `ofids`. */
  predicate Fresh(g: nat, ofids: seq<nat>)
  {
    g <= MAX_GID && g !in ofids
  }

  function GidOf(ids: GroupIds, k: GroupKey): nat
  {
    if k in ids then ids[k] else 0
  }

  /** What the emission loop works from once the paths are chosen: their
      port plans and costs, the switches and the addresses of the hosts. */
  datatype Install = Install(plans: seq<Plan>, costs: seq<nat>, source: Switch, dest: Switch, sip: Ip, dip: Ip)
  {
    predicate Valid()
    {
      |plans| == |costs|
    }

    function Total(): nat
    {
      Sum(costs)
    }

    /** `ports` for `node`. */
    function Ports(node: Switch): map<Port, seq<Entry>>
      requires Valid()
    {
      Grouping(plans, costs, node, |plans|)
    }

    function Key(node: Switch): GroupKey
    {
      (node, source, dest)
    }
  }

  /** Some ingress port of `order` has more than one way out: a group. */
  predicate HasGroup(ports: map<Port, seq<Entry>>, order: seq<Port>)
  {
    exists i :: 0 <= i < |order| && order[i] in ports && |ports[order[i]]| > 1
  }

  predicate CostsWithin(ports: map<Port, seq<Entry>>, total: nat)
  {
    forall p, i :: p in ports && 0 <= i < |ports[p]| ==> ports[p][i].1 <= total
  }

  /** Every cost listed for a switch is one of the summed path costs. */
  lemma {:induction false} PortsWithinTotal(inst: Install, node: Switch)
    requires inst.Valid()
    ensures CostsWithin(inst.Ports(node), inst.Total())
  {
    var ports: map<Port, seq<Entry>> := inst.Ports(node);
    forall p: Port, i: int | p in ports && 0 <= i < |ports[p]| ensures ports[p][i].1 <= inst.Total() {
      var e := ports[p][i];
      GroupingEntries(inst.plans, inst.costs, node, |inst.plans|, p, e);
      var j :| 0 <= j < |inst.plans| && Through(inst.plans, inst.costs, node, j, p, e.0, e.1);
    }
  }

  /** The commands for one ingress port whose ways out are `out`: with
      several, the select group (added, or modified when the key already
      has a group) and two rules pointing at it; with one, two rules
      forwarding to it. */
  function PortCommands(node: Switch, out: seq<Entry>, total: nat, gid: nat, existing: bool,
                        sip: Ip, dip: Ip): seq<Command>
    requires |out| > 1 ==> total > 0
    requires forall i :: 0 <= i < |out| ==> out[i].1 <= total
  {
    if |out| > 1 then
      [GroupMod(node, if existing then GroupModify else GroupAdd, gid, Buckets(out, total))]
      + FlowRules(node, sip, dip, [ToGroup(gid)])
    else if |out| == 1 then FlowRules(node, sip, dip, [Output(out[0].0)])
    else []
  }

  /** The commands for the ingress ports `order` of `node`, visited in that
      order; the group of the key is modified rather than added once it is
      `known` from earlier installations or an earlier port created it. */
  function NodeCommands(node: Switch, ports: map<Port, seq<Entry>>, order: seq<Port>, total: nat,
                        gid: nat, known: bool, sip: Ip, dip: Ip): seq<Command>
    requires forall i :: 0 <= i < |order| ==> order[i] in ports
    requires total > 0 || !HasGroup(ports, order)
    requires CostsWithin(ports, total)
    decreases |order|
  {
    if order == [] then []
    else
      var pre := order[..|order| - 1];
      assert forall i :: 0 <= i < |pre| ==> pre[i] == order[i];
      var last := order[|order| - 1];
      var out := ports[last];
      assert |out| > 1 ==> HasGroup(ports, order) by {
        if |out| > 1 {
          assert order[|order| - 1] in ports && |ports[order[|order| - 1]]| > 1;
        }
      }
      NodeCommands(node, ports, pre, total, gid, known, sip, dip) +
      PortCommands(node, out, total, gid, known || HasGroup(ports, pre), sip, dip)
  }

  /** Visiting one more port appends its commands. */
  lemma {:induction false} NodeCommandsSnoc(node: Switch, ports: map<Port, seq<Entry>>, order: seq<Port>, pin: Port,
                                            total: nat, gid: nat, known: bool, sip: Ip, dip: Ip)
    requires forall i :: 0 <= i < |order| ==> order[i] in ports
    requires pin in ports
    ensures HasGroup(ports, order + [pin]) <==> HasGroup(ports, order) || |ports[pin]| > 1
    ensures (total > 0 || !HasGroup(ports, order + [pin])) && CostsWithin(ports, total) ==>
      NodeCommands(node, ports, order + [pin], total, gid, known, sip, dip) ==
      NodeCommands(node, ports, order, total, gid, known, sip, dip) +
      PortCommands(node, ports[pin], total, gid, known || HasGroup(ports, order), sip, dip)
  {
    var o := order + [pin];
    assert o[..|order|] == order;
    assert forall i :: 0 <= i < |order| ==> o[i] == order[i];
    assert HasGroup(ports, order + [pin]) <==> HasGroup(ports, order) || |ports[pin]| > 1 by {
      if |ports[pin]| > 1 {
        assert o[|order|] in ports && |ports[o[|order|]]| > 1;
      }
      if HasGroup(ports, order) {
        var i :| 0 <= i < |order| && order[i] in ports && |ports[order[i]]| > 1;
        assert o[i] in ports && |ports[o[i]]| > 1;
      }
    }
  }

  /** A command the controller sends for one switch of one installation:
      the IPv4 rule at priority 32768 or the ARP rule at priority 1 for the
      pair, or a select group of two or more buckets with the key's id. */
  predicate RuleFor(c: Command, gid: nat, sip: Ip, dip: Ip)
  {
    match c
    case FlowMod(_, priority, m, _) =>
      (priority == PRIORITY_IP && m == IpMatch(sip, dip)) || (priority == PRIORITY_ARP && m == ArpMatch(sip, dip))
    case GroupMod(_, _, g, buckets) => g == gid && |buckets| > 1
    case PacketOut(_, _, _) => false
  }

  predicate IsGroupAdd(c: Command)
  {
    c.GroupMod? && c.command == GroupAdd
  }

  /** The commands for one ingress port are addressed to its switch, are
      rules or a group for the key, and add the group exactly when there
      are several ways out and the key has none yet. */
  lemma {:induction false} PortCommandsShape(node: Switch, out: seq<Entry>, total: nat, gid: nat, existing: bool,
                                             sip: Ip, dip: Ip)
    requires |out| > 1 ==> total > 0
    requires forall i :: 0 <= i < |out| ==> out[i].1 <= total
    ensures var cmds := PortCommands(node, out, total, gid, existing, sip, dip);
      && (cmds == [] <==> out == [])
      && (forall i :: 0 <= i < |cmds| ==> cmds[i].sw == node && RuleFor(cmds[i], gid, sip, dip))
      && ((exists i :: 0 <= i < |cmds| && IsGroupAdd(cmds[i])) <==> |out| > 1 && !existing)
      && (forall i, j :: 0 <= i < j < |cmds| ==> !(IsGroupAdd(cmds[i]) && IsGroupAdd(cmds[j])))
  {
    var cmds := PortCommands(node, out, total, gid, existing, sip, dip);
    if |out| > 1 && !existing {
      assert IsGroupAdd(cmds[0]);
    }
  }

  /** With one way out, an ingress port gets two rules forwarding to it and
      no group; with several, a group of one bucket per way out, added when
      the key has no group yet and modified otherwise, followed by two rules
      forwarding to the group. */
  lemma {:induction false} PortCommandsForms(node: Switch, out: seq<Entry>, total: nat, gid: nat, existing: bool,
                                             sip: Ip, dip: Ip)
    requires |out| > 1 ==> total > 0
    requires forall i :: 0 <= i < |out| ==> out[i].1 <= total
    ensures var cmds := PortCommands(node, out, total, gid, existing, sip, dip);
      && (|out| == 1 ==>
            && |cmds| == 2
            && forall i :: 0 <= i < |cmds| ==> cmds[i].FlowMod? && cmds[i].actions == [Output(out[0].0)])
      && (|out| > 1 ==>
            && |cmds| == 3
            && cmds[0].GroupMod? && cmds[0].buckets == Buckets(out, total)
            && (cmds[0].command == GroupModify <==> existing)
            && forall i :: 1 <= i < |cmds| ==> cmds[i].FlowMod? && cmds[i].actions == [ToGroup(gid)])
  {
  }

  /** The commands for a switch are addressed to it, and a group is added
      once, by the first port with several ways out, unless the key was
      already `known`; every later such port modifies that same group. */
  lemma {:induction false} NodeCommandsShape(node: Switch, ports: map<Port, seq<Entry>>, order: seq<Port>, total: nat,
                                             gid: nat, known: bool, sip: Ip, dip: Ip)
    requires forall i :: 0 <= i < |order| ==> order[i] in ports
    requires total > 0 || !HasGroup(ports, order)
    requires CostsWithin(ports, total)
    ensures var cmds := NodeCommands(node, ports, order, total, gid, known, sip, dip);
      && (forall i :: 0 <= i < |cmds| ==> cmds[i].sw == node && RuleFor(cmds[i], gid, sip, dip))
      && ((exists i :: 0 <= i < |cmds| && IsGroupAdd(cmds[i])) <==> !known && HasGroup(ports, order))
      && (forall i, j :: 0 <= i < j < |cmds| ==> !(IsGroupAdd(cmds[i]) && IsGroupAdd(cmds[j])))
    decreases |order|
  {
    if order != [] {
      var n := |order| - 1;
      var pre := order[..n];
      var pin := order[n];
      assert order == pre + [pin];
      NodeCommandsSnoc(node, ports, pre, pin, total, gid, known, sip, dip);
      NodeCommandsShape(node, ports, pre, total, gid, known, sip, dip);
      var a := NodeCommands(node, ports, pre, total, gid, known, sip, dip);
      var b := PortCommands(node, ports[pin], total, gid, known || HasGroup(ports, pre), sip, dip);
      assert |ports[pin]| > 1 ==> total > 0;
      PortCommandsShape(node, ports[pin], total, gid, known || HasGroup(ports, pre), sip, dip);
      var cmds := a + b;
      assert forall i :: 0 <= i < |cmds| ==> cmds[i] == if i < |a| then a[i] else b[i - |a|];
      if exists i :: 0 <= i < |cmds| && IsGroupAdd(cmds[i]) {
        var i :| 0 <= i < |cmds| && IsGroupAdd(cmds[i]);
        if i >= |a| {
          assert IsGroupAdd(b[i - |a|]);
        }
      }
      if !known && HasGroup(ports, order) {
        if HasGroup(ports, pre) {
          var i :| 0 <= i < |a| && IsGroupAdd(a[i]);
          assert IsGroupAdd(cmds[i]);
        } else {
          var i :| 0 <= i < |b| && IsGroupAdd(b[i]);
          assert IsGroupAdd(cmds[|a| + i]);
        }
      }
      forall i, j | 0 <= i < j < |cmds| ensures !(IsGroupAdd(cmds[i]) && IsGroupAdd(cmds[j])) {
        if i < |a| && j >= |a| && IsGroupAdd(cmds[i]) && IsGroupAdd(cmds[j]) {
          assert false;
        }
      }
    }
  }

  /** Before the first port with a group, the commands do not depend on the
      group id. */
  lemma {:induction false} NodeCommandsGid(node: Switch, ports: map<Port, seq<Entry>>, order: seq<Port>, total: nat,
                                           gid1: nat, gid2: nat, known: bool, sip: Ip, dip: Ip)
    requires forall i :: 0 <= i < |order| ==> order[i] in ports
    requires !HasGroup(ports, order)
    requires CostsWithin(ports, total)
    ensures NodeCommands(node, ports, order, total, gid1, known, sip, dip) ==
            NodeCommands(node, ports, order, total, gid2, known, sip, dip)
    decreases |order|
  {
    if order != [] {
      var pre := order[..|order| - 1];
      assert forall i :: 0 <= i < |pre| ==> pre[i] == order[i];
      assert |ports[order[|order| - 1]]| <= 1;
      NodeCommandsGid(node, ports, pre, total, gid1, gid2, known, sip, dip);
    }
  }

  /** The ingress ports `order` of `node` can all be handled. */
  predicate NodeReady(inst: Install, node: Switch, order: seq<Port>)
  {
    && inst.Valid()
    && (forall i :: 0 <= i < |order| ==> order[i] in inst.Ports(node))
    && (inst.Total() > 0 || !HasGroup(inst.Ports(node), order))
  }

  /** `order` visits every ingress port of `node` once, and all were handled. */
  predicate NodeDone(inst: Install, node: Switch, order: seq<Port>)
  {
    NodeReady(inst, node, order) && Distinct(order) && Elements(order) == inst.Ports(node).Keys
  }

  /** The commands for `node` once its ingress ports `order` are handled. */
  function NodeEmission(inst: Install, ids: GroupIds, oldIds: GroupIds, node: Switch, order: seq<Port>): seq<Command>
    requires NodeReady(inst, node, order)
  {
    PortsWithinTotal(inst, node);
    NodeCommands(node, inst.Ports(node), order, inst.Total(), GidOf(ids, inst.Key(node)),
                 inst.Key(node) in oldIds, inst.sip, inst.dip)
  }

  /** Everything sent for the switches `nodes`, visited in that order. */
  function Emission(inst: Install, ids: GroupIds, oldIds: GroupIds, nodes: seq<Switch>, orders: seq<seq<Port>>): seq<Command>
    requires |orders| == |nodes|
    requires forall i :: 0 <= i < |nodes| ==> NodeReady(inst, nodes[i], orders[i])
    decreases |nodes|
  {
    if nodes == [] then []
    else
      var n := |nodes| - 1;
      Emission(inst, ids, oldIds, nodes[..n], orders[..n]) + NodeEmission(inst, ids, oldIds, nodes[n], orders[n])
  }

  lemma {:induction false} EmissionSnoc(inst: Install, ids: GroupIds, oldIds: GroupIds, nodes: seq<Switch>,
                                        orders: seq<seq<Port>>, m: Switch, o: seq<Port>)
    requires |orders| == |nodes|
    requires forall i :: 0 <= i < |nodes| ==> NodeReady(inst, nodes[i], orders[i])
    requires NodeReady(inst, m, o)
    ensures forall i :: 0 <= i < |nodes| + 1 ==> NodeReady(inst, (nodes + [m])[i], (orders + [o])[i])
    ensures Emission(inst, ids, oldIds, nodes + [m], orders + [o])
      == Emission(inst, ids, oldIds, nodes, orders) + NodeEmission(inst, ids, oldIds, m, o)
  {
    assert (nodes + [m])[..|nodes|] == nodes;
    assert (orders + [o])[..|nodes|] == orders;
  }

  /** The emission for `nodes` reads the group ids of their keys only. */
  lemma {:induction false} EmissionFrame(inst: Install, ids1: GroupIds, ids2: GroupIds, oldIds: GroupIds,
                                         nodes: seq<Switch>, orders: seq<seq<Port>>)
    requires |orders| == |nodes|
    requires forall i :: 0 <= i < |nodes| ==> NodeReady(inst, nodes[i], orders[i])
    requires forall i :: 0 <= i < |nodes| ==> GidOf(ids1, inst.Key(nodes[i])) == GidOf(ids2, inst.Key(nodes[i]))
    ensures Emission(inst, ids1, oldIds, nodes, orders) == Emission(inst, ids2, oldIds, nodes, orders)
    decreases |nodes|
  {
    if nodes != [] {
      var n := |nodes| - 1;
      EmissionFrame(inst, ids1, ids2, oldIds, nodes[..n], orders[..n]);
    }
  }

  /** The switches among `nodes` that got a group. */
  function Touched(inst: Install, nodes: seq<Switch>, orders: seq<seq<Port>>): set<Switch>
    requires inst.Valid() && |orders| == |nodes|
  {
    set i | 0 <= i < |nodes| && HasGroup(inst.Ports(nodes[i]), orders[i]) :: nodes[i]
  }

  /** `path_ofids` after handling `nodes`: old entries are kept, each switch
      that got a group has an entry, and every new entry is a fresh id for a
      switch that got a group. */
  ghost predicate IdsUpdate(oldIds: GroupIds, ids: GroupIds, ofids: seq<nat>, inst: Install,
                            nodes: seq<Switch>, orders: seq<seq<Port>>)
    requires inst.Valid() && |orders| == |nodes|
  {
    && (forall k :: k in oldIds ==> k in ids && ids[k] == oldIds[k])
    && (forall k :: k in ids && k !in oldIds ==>
          Fresh(ids[k], ofids) && k.1 == inst.source && k.2 == inst.dest && k.0 in Touched(inst, nodes, orders))
    && (forall m :: m in Touched(inst, nodes, orders) ==> inst.Key(m) in ids)
  }

  /** `path_ofids` after handling one switch whose key is `key`: unchanged
      unless it got a group, and then the key has an id, fresh if it is new. */
  ghost predicate IdsStep(oldIds: GroupIds, ids: GroupIds, ofids: seq<nat>, key: GroupKey, grouped: bool)
  {
    if grouped then
      && key in ids
      && (key in oldIds ==> ids == oldIds)
      && (key !in oldIds ==> ids == oldIds[key := ids[key]] && Fresh(ids[key], ofids))
    else ids == oldIds
  }

  /** The outcome of handling the ingress ports of one switch: all of them
      (`ok`), or up to a port with several ways out while the total cost is
      0, where computing the bucket weights divides by zero. */
  ghost predicate NodeResult(inst: Install, node: Switch, ofids: seq<nat>, oldIds: GroupIds, ids: GroupIds,
                             cmds: seq<Command>, ok: bool, order: seq<Port>)
  {
    && inst.Valid()
    && Distinct(order)
    && (forall i :: 0 <= i < |order| ==> order[i] in inst.Ports(node))
    && IdsStep(oldIds, ids, ofids, inst.Key(node), HasGroup(inst.Ports(node), order))
    && (ok ==> NodeDone(inst, node, order) && cmds == NodeEmission(inst, ids, oldIds, node, order))
    && (!ok ==> (NodeFailed(inst, node, order) &&
                 cmds == NodeEmission(inst, ids, oldIds, node, order[..|order| - 1])))
  }

  /** The outcome of visiting the ingress ports `order` of a switch with
      entries `ports`, as `NodeResult` states it for one installation. */
  ghost predicate PortsVisited(ports: map<Port, seq<Entry>>, node: Switch, key: GroupKey, total: nat, sip: Ip, dip: Ip,
                               ofids: seq<nat>, oldIds: GroupIds, ids: GroupIds, cmds: seq<Command>, ok: bool,
                               order: seq<Port>)
    requires CostsWithin(ports, total)
  {
    && Distinct(order)
    && (forall i :: 0 <= i < |order| ==> order[i] in ports)
    && IdsStep(oldIds, ids, ofids, key, HasGroup(ports, order))
    && (ok ==> (Elements(order) == ports.Keys && (total > 0 || !HasGroup(ports, order)) &&
                cmds == NodeCommands(node, ports, order, total, GidOf(ids, key), key in oldIds, sip, dip)))
    && (!ok ==> (|order| > 0 && total == 0 && |ports[order[|order| - 1]]| > 1 &&
                 !HasGroup(ports, order[..|order| - 1]) &&
                 cmds == NodeCommands(node, ports, order[..|order| - 1], total, GidOf(ids, key), key in oldIds, sip, dip)))
  }

  /** After visiting the ports `order` of a switch, with `remaining` still
      to visit. */
  ghost predicate Visiting(ports: map<Port, seq<Entry>>, node: Switch, key: GroupKey, total: nat, sip: Ip, dip: Ip,
                           ofids: seq<nat>, oldIds: GroupIds, ids: GroupIds, cmds: seq<Command>,
                           order: seq<Port>, remaining: set<Port>)
    requires CostsWithin(ports, total)
  {
    && remaining == ports.Keys - Elements(order)
    && Distinct(order)
    && (forall i :: 0 <= i < |order| ==> order[i] in ports)
    && (total > 0 || !HasGroup(ports, order))
    && IdsStep(oldIds, ids, ofids, key, HasGroup(ports, order))
    && cmds == NodeCommands(node, ports, order, total, GidOf(ids, key), key in oldIds, sip, dip)
  }

  /** What visiting the port `pin` after `order` does, from group ids
      `before` to `ids`: the commands `step`, or a failure. */
  ghost predicate PortStepped(ports: map<Port, seq<Entry>>, node: Switch, key: GroupKey, total: nat, sip: Ip, dip: Ip,
                              ofids: seq<nat>, oldIds: GroupIds, before: GroupIds, ids: GroupIds,
                              order: seq<Port>, pin: Port, step: seq<Command>, ok: bool)
    requires pin in ports && forall i :: 0 <= i < |order| ==> order[i] in ports
  {
    && (HasGroup(ports, order + [pin]) <==> HasGroup(ports, order) || |ports[pin]| > 1)
    && IdsStep(oldIds, ids, ofids, key, HasGroup(ports, order + [pin]))
    && (HasGroup(ports, order) ==> ids == before)
    && (ok ==> ((total > 0 || !HasGroup(ports, order + [pin])) &&
                (|ports[pin]| > 1 ==> total > 0) && (forall i :: 0 <= i < |ports[pin]| ==> ports[pin][i].1 <= total) &&
                step == PortCommands(node, ports[pin], total, GidOf(ids, key), key in oldIds || HasGroup(ports, order),
                                     sip, dip)))
    && (!ok ==> total == 0 && |ports[pin]| > 1 && step == [])
  }

  lemma {:induction false} VisitStart(ports: map<Port, seq<Entry>>, node: Switch, key: GroupKey, total: nat,
                                      sip: Ip, dip: Ip, ofids: seq<nat>, ids: GroupIds)
    requires CostsWithin(ports, total)
    ensures Visiting(ports, node, key, total, sip, dip, ofids, ids, ids, [], [], ports.Keys)
  {
    assert Elements<Port>([]) == {};
  }

  lemma {:induction false} VisitStep(ports: map<Port, seq<Entry>>, node: Switch, key: GroupKey, total: nat,
                                     sip: Ip, dip: Ip, ofids: seq<nat>, oldIds: GroupIds, before: GroupIds,
                                     ids: GroupIds, cmds: seq<Command>, order: seq<Port>, remaining: set<Port>,
                                     pin: Port, step: seq<Command>)
    requires CostsWithin(ports, total)
    requires Visiting(ports, node, key, total, sip, dip, ofids, oldIds, before, cmds, order, remaining)
    requires pin in remaining
    requires PortStepped(ports, node, key, total, sip, dip, ofids, oldIds, before, ids, order, pin, step, true)
    ensures Visiting(ports, node, key, total, sip, dip, ofids, oldIds, ids, cmds + step, order + [pin], remaining - {pin})
  {
    if !HasGroup(ports, order) {
      NodeCommandsGid(node, ports, order, total, GidOf(before, key), GidOf(ids, key), key in oldIds, sip, dip);
    }
    NodeCommandsSnoc(node, ports, order, pin, total, GidOf(ids, key), key in oldIds, sip, dip);
    assert Elements(order + [pin]) == Elements(order) + {pin};
  }

  lemma {:induction false} VisitFail(ports: map<Port, seq<Entry>>, node: Switch, key: GroupKey, total: nat,
                                     sip: Ip, dip: Ip, ofids: seq<nat>, oldIds: GroupIds, before: GroupIds,
                                     ids: GroupIds, cmds: seq<Command>, order: seq<Port>, remaining: set<Port>,
                                     pin: Port, step: seq<Command>)
    requires CostsWithin(ports, total)
    requires Visiting(ports, node, key, total, sip, dip, ofids, oldIds, before, cmds, order, remaining)
    requires pin in remaining
    requires PortStepped(ports, node, key, total, sip, dip, ofids, oldIds, before, ids, order, pin, step, false)
    ensures PortsVisited(ports, node, key, total, sip, dip, ofids, oldIds, ids, cmds, false, order + [pin])
  {
    NodeCommandsGid(node, ports, order, total, GidOf(before, key), GidOf(ids, key), key in oldIds, sip, dip);
    assert (order + [pin])[..|order|] == order;
  }

  lemma {:induction false} VisitDone(ports: map<Port, seq<Entry>>, node: Switch, key: GroupKey, total: nat,
                                     sip: Ip, dip: Ip, ofids: seq<nat>, oldIds: GroupIds,
                                     ids: GroupIds, cmds: seq<Command>, order: seq<Port>)
    requires CostsWithin(ports, total)
    requires Visiting(ports, node, key, total, sip, dip, ofids, oldIds, ids, cmds, order, {})
    ensures PortsVisited(ports, node, key, total, sip, dip, ofids, oldIds, ids, cmds, true, order)
  {
    forall x | x in ports.Keys ensures x in Elements(order) {
      assert x !in ports.Keys - Elements(order);
    }
  }

  lemma {:induction false} NodeResultOfVisit(inst: Install, node: Switch, ofids: seq<nat>, oldIds: GroupIds,
                                             ids: GroupIds, cmds: seq<Command>, ok: bool, order: seq<Port>)
    requires inst.Valid() && CostsWithin(inst.Ports(node), inst.Total())
    requires PortsVisited(inst.Ports(node), node, inst.Key(node), inst.Total(), inst.sip, inst.dip,
                          ofids, oldIds, ids, cmds, ok, order)
    ensures NodeResult(inst, node, ofids, oldIds, ids, cmds, ok, order)
  {
    if !ok {
      var pre := order[..|order| - 1];
      assert forall i :: 0 <= i < |pre| ==> pre[i] == order[i];
    }
  }

  /** Handling `order` stopped at its last port: that port has several ways
      out, no earlier one had, and the total cost is 0. */
  predicate NodeFailed(inst: Install, node: Switch, order: seq<Port>)
  {
    && inst.Valid() && inst.Total() == 0
    && |order| > 0 && Distinct(order)
    && (forall i :: 0 <= i < |order| ==> order[i] in inst.Ports(node))
    && |inst.Ports(node)[order[|order| - 1]]| > 1
    && !HasGroup(inst.Ports(node), order[..|order| - 1])
  }

  lemma {:induction false} FailedPrefixReady(inst: Install, node: Switch, order: seq<Port>)
    requires NodeFailed(inst, node, order)
    ensures NodeReady(inst, node, order[..|order| - 1])
  {
  }

  /** The intermediate values of one installation, as the search, the
      selection, the costing, `link` and the emission loop produced them. */
  datatype Trace = Trace(routes: seq<Path>, links: seq<Path>, costs: seq<nat>, plans: seq<Plan>,
                         nodes: seq<Switch>, orders: seq<seq<Port>>)

  /** The switches were visited in `nodes` with ingress orders `orders`, and
      either every switch on the paths was handled (and the first path's
      egress at the source is returned, or the call fails for want of a
      path), or the last switch visited is not registered, or handling its
      ports divided by zero. */
  ghost predicate Installed(inst: Install, dps: set<Switch>, ofids: seq<nat>, oldIds: GroupIds, ids: GroupIds,
                            all: set<Switch>, cmds: seq<Command>, r: Result<Port>,
                            nodes: seq<Switch>, orders: seq<seq<Port>>)
  {
    && inst.Valid() && |orders| == |nodes| && Distinct(nodes)
    && (forall i :: 0 <= i < |nodes| ==> nodes[i] in all)
    && IdsUpdate(oldIds, ids, ofids, inst, nodes, orders)
    && if r.Ok? || r == Err(NoPath) then Completed(inst, dps, oldIds, ids, all, cmds, r, nodes, orders)
       else Stopped(inst, dps, oldIds, ids, cmds, r, nodes, orders)
  }

  /** Every switch in `all` was handled; the result is the first path's
      egress at the source, or no path. */
  ghost predicate Completed(inst: Install, dps: set<Switch>, oldIds: GroupIds, ids: GroupIds, all: set<Switch>,
                            cmds: seq<Command>, r: Result<Port>, nodes: seq<Switch>, orders: seq<seq<Port>>)
    requires |orders| == |nodes|
  {
    && Elements(nodes) == all
    && (forall i :: 0 <= i < |nodes| ==> nodes[i] in dps && NodeDone(inst, nodes[i], orders[i]))
    && cmds == Emission(inst, ids, oldIds, nodes, orders)
    && (|inst.plans| == 0 ==> r == Err(NoPath))
    && (|inst.plans| > 0 ==> inst.source in inst.plans[0] && r == Ok(inst.plans[0][inst.source].1))
  }

  /** The last switch visited stopped the installation: it is not
      registered, or handling its ports divided by zero. */
  ghost predicate Stopped(inst: Install, dps: set<Switch>, oldIds: GroupIds, ids: GroupIds,
                          cmds: seq<Command>, r: Result<Port>, nodes: seq<Switch>, orders: seq<seq<Port>>)
    requires |orders| == |nodes|
  {
    var n := |nodes| - 1;
    && |nodes| > 0
    && (forall i :: 0 <= i < n ==> nodes[i] in dps && NodeDone(inst, nodes[i], orders[i]))
    && ((r == Err(UnregisteredSwitch(nodes[n])) && nodes[n] !in dps && orders[n] == [] &&
         cmds == Emission(inst, ids, oldIds, nodes[..n], orders[..n]))
     || (r == Err(DivisionByZero) && nodes[n] in dps && NodeFailed(inst, nodes[n], orders[n]) &&
         cmds == Emission(inst, ids, oldIds, nodes[..n], orders[..n]) +
                 NodeEmission(inst, ids, oldIds, nodes[n], orders[n][..|orders[n]| - 1])))
  }

  /** The chosen paths between `source` and `dest`: the search found exactly
      `routes`, the selection kept `links` with costs `costs`, and `plans` are
      their port plans. */
  ghost predicate Chosen(adj: Adjacency, bw: Bandwidths, source: Switch, dest: Switch, sp: Port, dp: Port,
                         routes: seq<Path>, links: seq<Path>, costs: seq<nat>, plans: seq<Plan>)
  {
    && (forall p :: p in routes <==> IsRoute(adj, source, dest, p))
    && Distinct(routes)
    && SelectPaths(adj, bw, routes) == Ok(links)
    && Costs(adj, bw, links) == Ok(costs)
    && |plans| == |links|
    && (forall k :: 0 <= k < |links| ==>
          |links[k]| > 0 && PathLinked(adj, links[k]) && IsPlan(adj, links[k], sp, dp, plans[k]))
  }

  /** The whole of `est_flinks(source, dest, sip, dip, sp, dp)` on a network
      `adj` with capacities `bw`, registered switches `dps`, used ids `ofids`
      and group ids `oldIds` before and `ids` after. */
  ghost predicate FlinksOutcome(adj: Adjacency, bw: Bandwidths, dps: set<Switch>, ofids: seq<nat>,
                                oldIds: GroupIds, ids: GroupIds, source: Switch, dest: Switch, sip: Ip, dip: Ip,
                                sp: Port, dp: Port, cmds: seq<Command>, r: Result<Port>, t: Trace)
  {
    && (forall p :: p in t.routes <==> IsRoute(adj, source, dest, p))
    && Distinct(t.routes)
    && var sel := SelectPaths(adj, bw, t.routes);
       if sel.Err? then cmds == [] && r == Err(sel.error) && ids == oldIds
       else
         && Chosen(adj, bw, source, dest, sp, dp, t.routes, t.links, t.costs, t.plans)
         && Installed(Install(t.plans, t.costs, source, dest, sip, dip), dps, ofids, oldIds, ids,
                      NodesOf(t.links), cmds, r, t.nodes, t.orders)
  }

  /** After handling the switches `nodes` of `all`, with `remaining` still
      to handle. */
  ghost predicate Handling(inst: Install, dps: set<Switch>, ofids: seq<nat>, oldIds: GroupIds, ids: GroupIds,
                           all: set<Switch>, cmds: seq<Command>, nodes: seq<Switch>, orders: seq<seq<Port>>,
                           remaining: set<Switch>)
  {
    && inst.Valid() && |orders| == |nodes| && Distinct(nodes)
    && remaining == all - Elements(nodes)
    && (forall i :: 0 <= i < |nodes| ==> nodes[i] in all && nodes[i] in dps && NodeDone(inst, nodes[i], orders[i]))
    && IdsUpdate(oldIds, ids, ofids, inst, nodes, orders)
    && cmds == Emission(inst, ids, oldIds, nodes, orders)
  }

  lemma {:induction false} TouchedSnoc(inst: Install, nodes: seq<Switch>, orders: seq<seq<Port>>, m: Switch, o: seq<Port>)
    requires inst.Valid() && |orders| == |nodes|
    ensures Touched(inst, nodes + [m], orders + [o]) ==
      Touched(inst, nodes, orders) + (if HasGroup(inst.Ports(m), o) then {m} else {})
  {
    var n2 := nodes + [m];
    var o2 := orders + [o];
    assert forall i :: 0 <= i < |nodes| ==> n2[i] == nodes[i] && o2[i] == orders[i];
    assert n2[|nodes|] == m && o2[|nodes|] == o;
  }

  /** Handling one more switch `m` keeps the group ids of the earlier ones,
      and `m`'s key was new to this installation exactly when it was new to
      the whole call. */
  lemma {:induction false} IdsAdvance(inst: Install, ofids: seq<nat>, oldIds: GroupIds, before: GroupIds, ids: GroupIds,
                                      nodes: seq<Switch>, orders: seq<seq<Port>>, m: Switch, o: seq<Port>)
    requires inst.Valid() && |orders| == |nodes|
    requires IdsUpdate(oldIds, before, ofids, inst, nodes, orders)
    requires m !in nodes
    requires IdsStep(before, ids, ofids, inst.Key(m), HasGroup(inst.Ports(m), o))
    ensures IdsUpdate(oldIds, ids, ofids, inst, nodes + [m], orders + [o])
    ensures inst.Key(m) in before <==> inst.Key(m) in oldIds
    ensures forall i :: 0 <= i < |nodes| ==> GidOf(ids, inst.Key(nodes[i])) == GidOf(before, inst.Key(nodes[i]))
  {
    TouchedSnoc(inst, nodes, orders, m, o);
    forall i | 0 <= i < |nodes| ensures GidOf(ids, inst.Key(nodes[i])) == GidOf(before, inst.Key(nodes[i])) {
      assert nodes[i] != m;
    }
  }

  lemma {:induction false} HandleStart(inst: Install, dps: set<Switch>, ofids: seq<nat>, ids: GroupIds, all: set<Switch>)
    requires inst.Valid()
    ensures Handling(inst, dps, ofids, ids, ids, all, [], [], [], all)
  {
    assert Elements<Switch>([]) == {};
    assert Touched(inst, [], []) == {};
  }

  lemma {:induction false} HandleStep(inst: Install, dps: set<Switch>, ofids: seq<nat>, oldIds: GroupIds,
                                      before: GroupIds, ids: GroupIds, all: set<Switch>, cmds: seq<Command>,
                                      nodes: seq<Switch>, orders: seq<seq<Port>>, remaining: set<Switch>,
                                      m: Switch, c: seq<Command>, o: seq<Port>)
    requires Handling(inst, dps, ofids, oldIds, before, all, cmds, nodes, orders, remaining)
    requires m in remaining && m in dps
    requires NodeResult(inst, m, ofids, before, ids, c, true, o)
    ensures Handling(inst, dps, ofids, oldIds, ids, all, cmds + c, nodes + [m], orders + [o], remaining - {m})
  {
    IdsAdvance(inst, ofids, oldIds, before, ids, nodes, orders, m, o);
    EmissionFrame(inst, ids, before, oldIds, nodes, orders);
    EmissionSnoc(inst, ids, oldIds, nodes, orders, m, o);
    assert Elements(nodes + [m]) == Elements(nodes) + {m};
    var n2 := nodes + [m];
    assert forall i :: 0 <= i < |nodes| ==> n2[i] == nodes[i];
  }

  lemma {:induction false} HandleUnregistered(inst: Install, dps: set<Switch>, ofids: seq<nat>, oldIds: GroupIds,
                                              ids: GroupIds, all: set<Switch>, cmds: seq<Command>,
                                              nodes: seq<Switch>, orders: seq<seq<Port>>, remaining: set<Switch>,
                                              m: Switch)
    requires Handling(inst, dps, ofids, oldIds, ids, all, cmds, nodes, orders, remaining)
    requires m in remaining && m !in dps
    ensures Installed(inst, dps, ofids, oldIds, ids, all, cmds, Err(UnregisteredSwitch(m)), nodes + [m], orders + [[]])
  {
    IdsAdvance(inst, ofids, oldIds, ids, ids, nodes, orders, m, []);
    var n2 := nodes + [m];
    var o2 := orders + [[]];
    assert n2[..|nodes|] == nodes && o2[..|nodes|] == orders;
    assert forall i :: 0 <= i < |nodes| ==> n2[i] == nodes[i] && o2[i] == orders[i];
  }

  lemma {:induction false} HandleFail(inst: Install, dps: set<Switch>, ofids: seq<nat>, oldIds: GroupIds,
                                      before: GroupIds, ids: GroupIds, all: set<Switch>, cmds: seq<Command>,
                                      nodes: seq<Switch>, orders: seq<seq<Port>>, remaining: set<Switch>,
                                      m: Switch, c: seq<Command>, o: seq<Port>)
    requires Handling(inst, dps, ofids, oldIds, before, all, cmds, nodes, orders, remaining)
    requires m in remaining && m in dps
    requires NodeResult(inst, m, ofids, before, ids, c, false, o)
    ensures Installed(inst, dps, ofids, oldIds, ids, all, cmds + c, Err(DivisionByZero), nodes + [m], orders + [o])
  {
    IdsAdvance(inst, ofids, oldIds, before, ids, nodes, orders, m, o);
    EmissionFrame(inst, ids, before, oldIds, nodes, orders);
    FailedPrefixReady(inst, m, o);
    assert c == NodeEmission(inst, ids, oldIds, m, o[..|o| - 1]);
    StoppedByFailure(inst, dps, oldIds, ids, cmds + c, nodes, orders, m, o);
    var n2 := nodes + [m];
    assert forall i :: 0 <= i < |nodes| ==> n2[i] == nodes[i];
    assert n2[|nodes|] == m;
  }

  lemma {:induction false} StoppedByFailure(inst: Install, dps: set<Switch>, oldIds: GroupIds, ids: GroupIds,
                                            cmds: seq<Command>, nodes: seq<Switch>, orders: seq<seq<Port>>,
                                            m: Switch, o: seq<Port>)
    requires |orders| == |nodes|
    requires forall i :: 0 <= i < |nodes| ==> nodes[i] in dps && NodeDone(inst, nodes[i], orders[i])
    requires forall i :: 0 <= i < |nodes| ==> NodeReady(inst, nodes[i], orders[i])
    requires m in dps && NodeFailed(inst, m, o)
    requires NodeReady(inst, m, o[..|o| - 1])
    requires cmds == Emission(inst, ids, oldIds, nodes, orders) + NodeEmission(inst, ids, oldIds, m, o[..|o| - 1])
    ensures Stopped(inst, dps, oldIds, ids, cmds, Err(DivisionByZero), nodes + [m], orders + [o])
  {
    var n2 := nodes + [m];
    var o2 := orders + [o];
    assert n2[..|nodes|] == nodes && o2[..|nodes|] == orders;
    assert forall i :: 0 <= i < |nodes| ==> n2[i] == nodes[i] && o2[i] == orders[i];
    assert n2[|nodes|] == m && o2[|nodes|] == o;
  }

  lemma {:induction false} HandleDone(inst: Install, dps: set<Switch>, ofids: seq<nat>, oldIds: GroupIds,
                                      ids: GroupIds, all: set<Switch>, cmds: seq<Command>,
                                      nodes: seq<Switch>, orders: seq<seq<Port>>, r: Result<Port>)
    requires Handling(inst, dps, ofids, oldIds, ids, all, cmds, nodes, orders, {})
    requires |inst.plans| > 0 ==> inst.source in inst.plans[0]
    requires r == if |inst.plans| == 0 then Err(NoPath) else Ok(inst.plans[0][inst.source].1)
    ensures Installed(inst, dps, ofids, oldIds, ids, all, cmds, r, nodes, orders)
  {
    forall x | x in all ensures x in Elements(nodes) {
      assert x !in all - Elements(nodes);
    }
  }
}
