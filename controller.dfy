/** The controller application (`Ryu_controller`, modules/ryu_controller.py:
    36-381): its state, the handlers of topology, port-statistics and
    packet-in events, and the installation of paths between two hosts. */
module Controller {
  import opened Types
  import opened Topology
  import opened Routes
  import opened Cost
  import opened PathSelection
  import opened PortPlan
  import opened Commands
  import opened Groups
  import opened Emission

  /** ARP operation codes. */
  const ARP_REQUEST: int := 1
  const ARP_REPLY: int := 2

  /** The ARP payload of a packet: its opcode and sender and target IPs. */
  datatype ArpInfo = ArpInfo(opcode: int, srcIp: Ip, dstIp: Ip)

  /** The parts of a packet the packet-in handler looks at. */
  datatype Packet = Packet(ethType: int, ipv6: bool, src: Mac, dst: Mac, arp: Option<ArpInfo>)

  /** The loop building `arr_link` (lines 129-132): the cost of each path, in
      order; the first path that cannot be costed raises. */
  method CostEach(adj: Adjacency, bw: Bandwidths, links: seq<Path>) returns (r: Result<seq<nat>>)
    ensures r == Costs(adj, bw, links)
  {
    var arr: seq<nat> := [];
    var i := 0;
    while i < |links|
      invariant i <= |links| && Costs(adj, bw, links[..i]) == Ok(arr)
    {
      var c := CalCostPath(adj, bw, links[i]);
      CostsStep(adj, bw, links, i, arr);
      if c.Err? {
        return Err(c.error);
      }
      arr := arr + [c.value];
      i := i + 1;
    }
    assert links[..i] == links;
    return Ok(arr);
  }

  lemma {:induction false} CostsSingle(adj: Adjacency, bw: Bandwidths, p: Path)
    ensures Costs(adj, bw, [p]) == match PathCost(adj, bw, p) case Err(e) => Err(e) case Ok(c) => Ok([c])
  {
    assert [p][1..] == [];
    assert Costs(adj, bw, []) == Ok([]);
    match PathCost(adj, bw, p)
    case Err(e) =>
    case Ok(c) => assert [c] + [] == [c];
  }

  /** Costing one more path of `links`: its cost is appended, or its error
      is the error of costing all of `links`. */
  lemma {:induction false} CostsStep(adj: Adjacency, bw: Bandwidths, links: seq<Path>, i: nat, arr: seq<nat>)
    requires i < |links| && Costs(adj, bw, links[..i]) == Ok(arr)
    ensures PathCost(adj, bw, links[i]).Ok? ==> Costs(adj, bw, links[..i + 1]) == Ok(arr + [PathCost(adj, bw, links[i]).value])
    ensures PathCost(adj, bw, links[i]).Err? ==> Costs(adj, bw, links) == Err(PathCost(adj, bw, links[i]).error)
  {
    CostsSingle(adj, bw, links[i]);
    CostsConcat(adj, bw, links[..i], [links[i]]);
    assert links[..i] + [links[i]] == links[..i + 1];
    if PathCost(adj, bw, links[i]).Err? {
      CostsConcat(adj, bw, links[..i + 1], links[i + 1..]);
      assert links[..i + 1] + links[i + 1..] == links;
    }
  }

  /** Sequencing of two costings of path lists: the first failure wins,
      otherwise the costs are concatenated. */
  function ChainCosts(x: Result<seq<nat>>, y: Result<seq<nat>>): Result<seq<nat>>
  {
    match x
    case Err(e) => Err(e)
    case Ok(u) =>
      match y
      case Err(e) => Err(e)
      case Ok(v) => Ok(u + v)
  }

  /** Costing a concatenation costs the first part, then the second. */
  lemma {:induction false} CostsConcat(adj: Adjacency, bw: Bandwidths, a: seq<Path>, b: seq<Path>)
    ensures Costs(adj, bw, a + b) == ChainCosts(Costs(adj, bw, a), Costs(adj, bw, b))
    decreases |a|
  {
    if a != [] {
      CostsConcat(adj, bw, a[1..], b);
      CostsConsStep(adj, bw, a, b);
    } else {
      assert a + b == b;
      match Costs(adj, bw, b)
      case Err(e) =>
      case Ok(y) => assert [] + y == y;
    }
  }

  lemma {:induction false} CostsConsStep(adj: Adjacency, bw: Bandwidths, a: seq<Path>, b: seq<Path>)
    requires a != []
    requires Costs(adj, bw, a[1..] + b) == ChainCosts(Costs(adj, bw, a[1..]), Costs(adj, bw, b))
    ensures Costs(adj, bw, a + b) == ChainCosts(Costs(adj, bw, a), Costs(adj, bw, b))
  {
    var first := Single(PathCost(adj, bw, a[0]));
    CostsUnfoldConcat(adj, bw, a, b);
    assert Costs(adj, bw, a) == ChainCosts(first, Costs(adj, bw, a[1..])) by {
      CostsUnfold(adj, bw, a);
    }
    ChainCostsAssoc(first, Costs(adj, bw, a[1..]), Costs(adj, bw, b));
  }

  /** A cost as a one-element list of costs. */
  function Single(r: Result<nat>): Result<seq<nat>>
  {
    match r
    case Err(e) => Err(e)
    case Ok(c) => Ok([c])
  }

  /** Costing a nonempty list costs its first path, then the rest. */
  lemma {:induction false} CostsUnfold(adj: Adjacency, bw: Bandwidths, paths: seq<Path>)
    requires paths != []
    ensures Costs(adj, bw, paths) == ChainCosts(Single(PathCost(adj, bw, paths[0])), Costs(adj, bw, paths[1..]))
  {
  }

  /** `CostsUnfold` for a concatenation whose first part is nonempty. */
  lemma {:induction false} CostsUnfoldConcat(adj: Adjacency, bw: Bandwidths, a: seq<Path>, b: seq<Path>)
    requires a != []
    ensures Costs(adj, bw, a + b) == ChainCosts(Single(PathCost(adj, bw, a[0])), Costs(adj, bw, a[1..] + b))
  {
    assert (a + b)[1..] == a[1..] + b;
    assert (a + b)[0] == a[0];
    CostsUnfold(adj, bw, a + b);
  }

  lemma {:induction false} ChainCostsAssoc(x: Result<seq<nat>>, y: Result<seq<nat>>, z: Result<seq<nat>>)
    ensures ChainCosts(x, ChainCosts(y, z)) == ChainCosts(ChainCosts(x, y), z)
  {
    if x.Ok? && y.Ok? && z.Ok? {
      assert x.value + (y.value + z.value) == (x.value + y.value) + z.value;
    }
  }

  /** Lines 127-135 of `est_flinks`: the paths, their costs and port plans.
      Selection fails when a path found cannot be costed; once it succeeds,
      costing and `link` cannot fail, since the selection already looked up
      every link of every path found. */
  method Prepare(adj: Adjacency, bw: Bandwidths, source: Switch, dest: Switch, sip: Ip, dip: Ip, sp: Port, dp: Port)
    returns (r: Result<Install>, ghost routes: seq<Path>, links: seq<Path>)
    ensures forall p :: p in routes <==> IsRoute(adj, source, dest, p)
    ensures Distinct(routes)
    ensures r.Err? <==> SelectPaths(adj, bw, routes).Err?
    ensures r.Err? ==> r.error == SelectPaths(adj, bw, routes).error
    ensures r.Ok? ==> |r.value.plans| == |links| <= MAX_ALLOWED_PATH
    ensures r.Ok? ==> (Chosen(adj, bw, source, dest, sp, dp, routes, links, r.value.costs, r.value.plans) &&
      r.value.source == source && r.value.dest == dest && r.value.sip == sip && r.value.dip == dip &&
      r.value.Valid() && (|r.value.plans| > 0 ==> source in r.value.plans[0]))
  {
    var found, sel := MaxOptimalPaths(adj, bw, source, dest);
    routes := found;
    if sel.Err? {
      return Err(sel.error), routes, [];
    }
    links := sel.value;
    SelectionCheapest(adj, bw, routes);
    assert forall k :: 0 <= k < |links| ==> links[k] in routes;
    assert forall k :: 0 <= k < |links| ==> PathCost(adj, bw, links[k]).Ok?;
    var arr := CostEach(adj, bw, links);
    forall k | 0 <= k < |links| ensures PathLinked(adj, links[k]) {
      CostedPathLinked(adj, bw, links[k]);
    }
    var pl := Link(adj, links, sp, dp);
    assert pl.Ok?;
    if |links| > 0 {
      assert IsRoute(adj, source, dest, links[0]);
      assert links[0][0] in Elements(links[0]);
    }
    return Ok(Install(pl.value, arr.value, source, dest, sip, dip)), routes, links;
  }

  /** Commands, outcomes and intermediate values of the two installations a
      host pair triggers: `est_flinks`, then `est_blinks`. */
  datatype Exchange = Exchange(fwd: Trace, fwdCmds: seq<Command>, fwdResult: Result<Port>, mid: GroupIds,
                               back: Trace, backCmds: seq<Command>, backResult: Result<Port>)

  /** Both directions between hosts attached at `h1` and `h2`: the forward
      installation from the group ids `ids0`, and, unless it raised, the
      backward one from the ids it left, ending with `ids`. */
  ghost predicate BothWays(adj: Adjacency, bw: Bandwidths, dps: set<Switch>, ofids: seq<nat>,
                           ids0: GroupIds, ids: GroupIds, h1: (Switch, Port), h2: (Switch, Port),
                           sip: Ip, dip: Ip, x: Exchange)
  {
    && FlinksOutcome(adj, bw, dps, ofids, ids0, x.mid, h1.0, h2.0, sip, dip, h1.1, h2.1,
                     x.fwdCmds, x.fwdResult, x.fwd)
    && (x.fwdResult.Err? ==> ids == x.mid && x.backCmds == [])
    && (x.fwdResult.Ok? ==>
          FlinksOutcome(adj, bw, dps, ofids, x.mid, ids, h2.0, h1.0, dip, sip, h2.1, h1.1,
                        x.backCmds, x.backResult, x.back))
  }

  /** The host an ARP packet asks the controller to connect its sender to:
      the target of a reply, or the owner of the requested IP in the table
      as it is after recording the sender. */
  function Peer(pkt: Packet, table: map<Ip, Mac>): Mac
    requires pkt.arp.Some?
    requires pkt.arp.value.opcode != ARP_REPLY ==> pkt.arp.value.dstIp in table
  {
    if pkt.arp.value.opcode == ARP_REPLY then pkt.dst else table[pkt.arp.value.dstIp]
  }

  /** The ARP packets that make the controller install paths: replies, and
      requests for an IP already in the table. */
  predicate Triggers(pkt: Packet, table: map<Ip, Mac>)
  {
    pkt.arp.Some? &&
    (pkt.arp.value.opcode == ARP_REPLY || (pkt.arp.value.opcode == ARP_REQUEST && pkt.arp.value.dstIp in table))
  }

  /** Some group id in range is not in `ofids`. */
  predicate FreeGid(ofids: seq<nat>)
  {
    exists v: nat :: v <= MAX_GID && v !in ofids
  }

  /** The list `switches.remove(sw)` leaves: the first occurrence is dropped. */
  function RemoveFirst(s: seq<Switch>, x: Switch): (r: seq<Switch>)
    ensures x !in s ==> r == s
    ensures x in s ==> |r| == |s| - 1
    ensures Distinct(s) ==> Distinct(r) && Elements(r) == Elements(s) - {x}
  {
    if s == [] then []
    else if s[0] == x then
      assert Elements(s) == {x} + Elements(s[1..]);
      s[1..]
    else
      var t := RemoveFirst(s[1..], x);
      assert Elements(s) == {s[0]} + Elements(s[1..]);
      assert Elements([s[0]] + t) == {s[0]} + Elements(t);
      [s[0]] + t
  }

  lemma {:induction false} ReportedSnoc(body: seq<PortStat>, i: nat)
    requires i < |body|
    ensures ReportedSpeeds(body[..i + 1]) == ReportedSpeeds(body[..i])[body[i].portNo := body[i].currSpeed]
  {
    var b := body[..i + 1];
    assert b[..|b| - 1] == body[..i] && b[|b| - 1] == body[i];
  }

  lemma {:induction false} MergeUpdate(base: map<Port, nat>, rs: map<Port, nat>, k: Port, v: nat)
    ensures (base + rs)[k := v] == base + rs[k := v]
  {
  }

  /** Recording one more entry of a reply extends the table the reply so far
      gives. */
  lemma {:induction false} PortStatsStep(bw0: Bandwidths, bw: Bandwidths, sw: Switch, body: seq<PortStat>, i: nat)
    requires i < |body|
    requires i == 0 ==> bw == bw0
    requires i > 0 ==> bw == ApplyPortStats(bw0, sw, body[..i])
    ensures ApplyPortStats(bw0, sw, body[..i + 1]) ==
      bw[sw := (if sw in bw then bw[sw] else map[])[body[i].portNo := body[i].currSpeed]]
  {
    var base: map<Port, nat> := if sw in bw0 then bw0[sw] else map[];
    var rs := ReportedSpeeds(body[..i]);
    var k := body[i].portNo;
    var v := body[i].currSpeed;
    ReportedSnoc(body, i);
    MergeUpdate(base, rs, k, v);
    assert ApplyPortStats(bw0, sw, body[..i + 1]) == bw0[sw := (base + rs)[k := v]];
    if i == 0 {
      assert body[..i] == [];
      assert rs == map[];
      assert base + rs == base;
    } else {
      assert bw == bw0[sw := base + rs];
      OverwriteTwice(bw0, sw, base + rs, (base + rs)[k := v]);
    }
  }

  lemma {:induction false} OverwriteTwice(m: Bandwidths, a: Switch, x: map<Port, nat>, y: map<Port, nat>)
    ensures m[a := x][a := y] == m[a := y]
  {
  }

  class Controller {
    /** `switches`: the registered datapath ids, in order of arrival. */
    var switches: seq<Switch>
    /** The keys of `datapath_list`: the switches the controller can send to. */
    var datapaths: set<Switch>
    /** `hosts`: MAC -> (switch, port) where the host was first seen. */
    var hosts: map<Mac, (Switch, Port)>
    /** `arp_table`: IP -> MAC of the host that sent from it. */
    var arpTable: map<Ip, Mac>
    var neighbour: Adjacency
    var bandwidths: Bandwidths
    /** `ofids`: group ids the random draw must avoid. */
    var ofids: seq<nat>
    /** `path_ofids`: the group id of (switch, source switch, destination switch). */
    var pathOfids: GroupIds

    /** Every switch is registered once with its datapath, every IP in the
        ARP table belongs to a known host, a group id is still free and every
        assigned group id was drawn for the ids in `ofids`. */
    ghost predicate Valid()
      reads this
    {
      && Distinct(switches) && Elements(switches) == datapaths
      && (forall ip :: ip in arpTable ==> arpTable[ip] in hosts)
      && FreeGid(ofids)
      && (forall k :: k in pathOfids ==> Fresh(pathOfids[k], ofids))
    }

    /** `__init__`: every table starts empty. */
    constructor ()
      ensures Valid()
      ensures switches == [] && datapaths == {} && hosts == map[] && arpTable == map[]
      ensures neighbour == map[] && bandwidths == map[] && ofids == [] && pathOfids == map[]
      ensures forall s, p :: Capacity(bandwidths, s, p) == DEFAULT_BW
    {
      switches := [];
      datapaths := {};
      hosts := map[];
      arpTable := map[];
      neighbour := map[];
      bandwidths := map[];
      ofids := [];
      pathOfids := map[];
      new;
      assert 0 !in ofids;
    }

    /** `generate_openflow_gid`: draws ids in [0, 2^32] until one is not in
        `ofids`. */
    method GenerateGroupId() returns (n: nat)
      requires FreeGid(ofids)
      ensures Fresh(n, ofids)
    {
      var tried: set<nat> := {};
      n :| n <= MAX_GID;
      while n in ofids
        invariant n <= MAX_GID && n !in tried && tried <= Elements(ofids)
        decreases Elements(ofids) - tried
      {
        tried := tried + {n};
        ghost var free: nat :| free <= MAX_GID && free !in ofids;
        assert free <= MAX_GID && free !in tried;
        n :| n <= MAX_GID && n !in tried;
      }
    }

    /** `switch_enter_handler`: a switch not yet registered is appended to
        `switches` and its datapath recorded. */
    method SwitchEnter(sw: Switch)
      requires Valid()
      modifies this`switches, this`datapaths
      ensures Valid()
      ensures sw in old(switches) ==> switches == old(switches) && datapaths == old(datapaths)
      ensures sw !in old(switches) ==> switches == old(switches) + [sw] && datapaths == old(datapaths) + {sw}
      ensures sw in datapaths
    {
      if sw !in switches {
        assert Elements(switches + [sw]) == Elements(switches) + {sw};
        switches := switches + [sw];
        datapaths := datapaths + {sw};
      }
    }

    /** `switch_leave_handler`: a registered switch is removed from
        `switches` and `datapath_list`, and its own adjacency map dropped. */
    method SwitchLeave(sw: Switch)
      requires Valid()
      modifies this`switches, this`datapaths, this`neighbour
      ensures Valid()
      ensures sw !in old(switches) ==>
        switches == old(switches) && datapaths == old(datapaths) && neighbour == old(neighbour)
      ensures sw in old(switches) ==> (switches == RemoveFirst(old(switches), sw) &&
        datapaths == old(datapaths) - {sw} && neighbour == RemoveSwitch(old(neighbour), sw))
      ensures sw !in switches && sw !in datapaths
    {
      if sw in switches {
        switches := RemoveFirst(switches, sw);
        datapaths := datapaths - {sw};
        neighbour := RemoveSwitch(neighbour, sw);
      }
    }

    /** `link_add_handler`. */
    method LinkAdd(s1: Switch, p1: Port, s2: Switch, p2: Port)
      requires Valid()
      modifies this`neighbour
      ensures Valid()
      ensures neighbour == AddLink(old(neighbour), s1, p1, s2, p2)
    {
      neighbour := AddLink(neighbour, s1, p1, s2, p2);
    }

    /** `link_delete_handler`: a missing entry ends the deletion quietly. */
    method LinkDelete(s1: Switch, s2: Switch)
      requires Valid()
      modifies this`neighbour
      ensures Valid()
      ensures neighbour == DeleteLink(old(neighbour), s1, s2)
    {
      neighbour := DeleteLink(neighbour, s1, s2);
    }

    /** `port_desc_stats_reply_handler`: records each reported port speed of
        `sw` in turn. */
    method PortDescStats(sw: Switch, body: seq<PortStat>)
      requires Valid()
      modifies this`bandwidths
      ensures Valid()
      ensures body == [] ==> bandwidths == old(bandwidths)
      ensures body != [] ==> bandwidths == ApplyPortStats(old(bandwidths), sw, body)
      ensures forall s, p ::
        Capacity(bandwidths, s, p) ==
        if s == sw && p in ReportedSpeeds(body) then ReportedSpeeds(body)[p] else Capacity(old(bandwidths), s, p)
    {
      var i := 0;
      while i < |body|
        invariant i <= |body|
        invariant i == 0 ==> bandwidths == old(bandwidths)
        invariant i > 0 ==> bandwidths == ApplyPortStats(old(bandwidths), sw, body[..i])
      {
        PortStatsStep(old(bandwidths), bandwidths, sw, body, i);
        var row := if sw in bandwidths then bandwidths[sw] else map[];
        bandwidths := bandwidths[sw := row[body[i].portNo := body[i].currSpeed]];
        i := i + 1;
      }
      assert body[..i] == body;
      forall s, p ensures Capacity(bandwidths, s, p) ==
        if s == sw && p in ReportedSpeeds(body) then ReportedSpeeds(body)[p] else Capacity(old(bandwidths), s, p)
      {
        if body != [] {
          PortStatsCapacity(old(bandwidths), sw, body, s, p);
        }
      }
    }

    /** One ingress port `pin` of `node` (lines 165-219), visited after
        `order`: two rules to its only way out, or a select group over its
        ways out, whose id is drawn the first time the key `key` needs one,
        and two rules pointing at it. Fails (`!ok`) when the group's bucket
        weights divide by a total cost of 0. */
    method EmitPort(ports: map<Port, seq<Entry>>, node: Switch, key: GroupKey, total: nat, pin: Port,
                    sip: Ip, dip: Ip, ghost order: seq<Port>, ghost ids0: GroupIds)
      returns (step: seq<Command>, ok: bool)
      requires pin in ports && forall i :: 0 <= i < |order| ==> order[i] in ports
      requires total > 0 || !HasGroup(ports, order)
      requires CostsWithin(ports, total) && FreeGid(ofids)
      requires IdsStep(ids0, pathOfids, ofids, key, HasGroup(ports, order))
      modifies this`pathOfids
      ensures PortStepped(ports, node, key, total, sip, dip, ofids, ids0, old(pathOfids), pathOfids, order, pin, step, ok)
    {
      NodeCommandsSnoc(node, ports, order, pin, total, 0, false, sip, dip);
      var out := ports[pin];
      step := [];
      if |out| > 1 {
        var isNew := false;
        if key !in pathOfids {
          isNew := true;
          var g := GenerateGroupId();
          pathOfids := pathOfids[key := g];
        }
        var gid := pathOfids[key];
        if total == 0 {
          return [], false;
        }
        var buckets := MakeBuckets(out, total);
        step := [GroupMod(node, if isNew then GroupAdd else GroupModify, gid, buckets)] +
                FlowRules(node, sip, dip, [ToGroup(gid)]);
      } else if |out| == 1 {
        step := FlowRules(node, sip, dip, [Output(out[0].0)]);
      }
      return step, true;
    }

    /** The loop over the ingress ports of one switch (lines 151-219), in
        the order the dictionary yields them. */
    method VisitPorts(ports: map<Port, seq<Entry>>, node: Switch, key: GroupKey, total: nat, sip: Ip, dip: Ip)
      returns (cmds: seq<Command>, ok: bool, ghost order: seq<Port>)
      requires CostsWithin(ports, total) && FreeGid(ofids)
      modifies this`pathOfids
      ensures PortsVisited(ports, node, key, total, sip, dip, ofids, old(pathOfids), pathOfids, cmds, ok, order)
    {
      ghost var ids0 := pathOfids;
      var remaining := ports.Keys;
      order := [];
      cmds := [];
      VisitStart(ports, node, key, total, sip, dip, ofids, ids0);
      while remaining != {}
        invariant Visiting(ports, node, key, total, sip, dip, ofids, ids0, pathOfids, cmds, order, remaining)
        decreases remaining
      {
        ghost var some := Pick(remaining);
        var pin :| pin in remaining;
        ghost var before := pathOfids;
        var step, stepOk := EmitPort(ports, node, key, total, pin, sip, dip, order, ids0);
        if !stepOk {
          VisitFail(ports, node, key, total, sip, dip, ofids, ids0, before, pathOfids, cmds, order, remaining, pin, step);
          return cmds, false, order + [pin];
        }
        VisitStep(ports, node, key, total, sip, dip, ofids, ids0, before, pathOfids, cmds, order, remaining, pin, step);
        cmds := cmds + step;
        order := order + [pin];
        remaining := remaining - {pin};
      }
      VisitDone(ports, node, key, total, sip, dip, ofids, ids0, pathOfids, cmds, order);
      return cmds, true, order;
    }

    /** The ingress ports of one switch (lines 141-213): the entries of each
        port are grouped, then each port visited in turn. */
    method EmitNode(inst: Install, node: Switch) returns (cmds: seq<Command>, ok: bool, ghost order: seq<Port>)
      requires inst.Valid() && FreeGid(ofids)
      modifies this`pathOfids
      ensures NodeResult(inst, node, ofids, old(pathOfids), pathOfids, cmds, ok, order)
    {
      var ports := GroupByIngress(inst.plans, inst.costs, node);
      var total := Sum(inst.costs);
      PortsWithinTotal(inst, node);
      cmds, ok, order := VisitPorts(ports, node, (node, inst.source, inst.dest), total, inst.sip, inst.dip);
      NodeResultOfVisit(inst, node, ofids, old(pathOfids), pathOfids, cmds, ok, order);
    }

    /** The loop over the switches on the paths (lines 137-219), in the
        order the set yields them, then the result of `est_flinks`: the first
        path's egress port at the source switch. */
    method InstallNodes(inst: Install, all: set<Switch>) returns (cmds: seq<Command>, r: Result<Port>,
                                                                  ghost nodes: seq<Switch>, ghost orders: seq<seq<Port>>)
      requires inst.Valid() && FreeGid(ofids)
      requires |inst.plans| > 0 ==> inst.source in inst.plans[0]
      modifies this`pathOfids
      ensures Installed(inst, datapaths, ofids, old(pathOfids), pathOfids, all, cmds, r, nodes, orders)
    {
      ghost var ids0 := pathOfids;
      var remaining := all;
      nodes, orders := [], [];
      cmds := [];
      HandleStart(inst, datapaths, ofids, ids0, all);
      while remaining != {}
        invariant Handling(inst, datapaths, ofids, ids0, pathOfids, all, cmds, nodes, orders, remaining)
        decreases remaining
      {
        ghost var some := Pick(remaining);
        var node :| node in remaining;
        if node !in datapaths {
          HandleUnregistered(inst, datapaths, ofids, ids0, pathOfids, all, cmds, nodes, orders, remaining, node);
          return cmds, Err(UnregisteredSwitch(node)), nodes + [node], orders + [[]];
        }
        ghost var before := pathOfids;
        var c, ok, order := EmitNode(inst, node);
        if !ok {
          HandleFail(inst, datapaths, ofids, ids0, before, pathOfids, all, cmds, nodes, orders, remaining, node, c, order);
          return cmds + c, Err(DivisionByZero), nodes + [node], orders + [order];
        }
        HandleStep(inst, datapaths, ofids, ids0, before, pathOfids, all, cmds, nodes, orders, remaining, node, c, order);
        cmds := cmds + c;
        nodes, orders := nodes + [node], orders + [order];
        remaining := remaining - {node};
      }
      if |inst.plans| == 0 {
        r := Err(NoPath);
      } else {
        r := Ok(inst.plans[0][inst.source].1);
      }
      HandleDone(inst, datapaths, ofids, ids0, pathOfids, all, cmds, nodes, orders, r);
    }

    /** `est_flinks(source, dest, sip, dip, sp, dp)`: installs the cheapest
        paths from switch `source` to switch `dest` for traffic from `sip` to
        `dip`, entering at port `sp` and leaving at port `dp`. */
    method EstFlinks(source: Switch, dest: Switch, sip: Ip, dip: Ip, sp: Port, dp: Port)
      returns (cmds: seq<Command>, r: Result<Port>, ghost t: Trace)
      requires Valid()
      modifies this`pathOfids
      ensures Valid()
      ensures FlinksOutcome(neighbour, bandwidths, datapaths, ofids, old(pathOfids), pathOfids,
                            source, dest, sip, dip, sp, dp, cmds, r, t)
    {
      var prep, links;
      ghost var routes;
      prep, routes, links := Prepare(neighbour, bandwidths, source, dest, sip, dip, sp, dp);
      if prep.Err? {
        return [], Err(prep.error), Trace(routes, [], [], [], [], []);
      }
      var inst := prep.value;
      ghost var nodes, orders;
      cmds, r, nodes, orders := InstallNodes(inst, NodesOf(links));
      t := Trace(routes, links, inst.costs, inst.plans, nodes, orders);
      assert inst == Install(t.plans, t.costs, source, dest, sip, dip);
    }

    /** `est_blinks`: `est_flinks` with the two ends swapped. */
    method EstBlinks(source: Switch, dest: Switch, sip: Ip, dip: Ip, sp: Port, dp: Port)
      returns (cmds: seq<Command>, r: Result<Port>, ghost t: Trace)
      requires Valid()
      modifies this`pathOfids
      ensures Valid()
      ensures FlinksOutcome(neighbour, bandwidths, datapaths, ofids, old(pathOfids), pathOfids,
                            dest, source, dip, sip, dp, sp, cmds, r, t)
    {
      cmds, r, t := EstFlinks(dest, source, dip, sip, dp, sp);
    }

    /** Lines 309-311 and 317-320: the forward paths, then, unless that
        raised, the backward ones; the forward call's result is the port the
        packet is sent out of. */
    method Connect(h1: (Switch, Port), h2: (Switch, Port), sip: Ip, dip: Ip)
      returns (cmds: seq<Command>, r: Result<Port>, ghost x: Exchange)
      requires Valid()
      modifies this`pathOfids
      ensures Valid()
      ensures BothWays(neighbour, bandwidths, datapaths, ofids, old(pathOfids), pathOfids, h1, h2, sip, dip, x)
      ensures cmds == x.fwdCmds + x.backCmds
      ensures r == if x.fwdResult.Err? then x.fwdResult
                   else if x.backResult.Err? then Err(x.backResult.error) else x.fwdResult
    {
      var c1, r1, t1 := EstFlinks(h1.0, h2.0, sip, dip, h1.1, h2.1);
      ghost var mid := pathOfids;
      if r1.Err? {
        x := Exchange(t1, c1, r1, mid, t1, [], r1);
        return c1, r1, x;
      }
      var c2, r2, t2 := EstBlinks(h1.0, h2.0, sip, dip, h1.1, h2.1);
      x := Exchange(t1, c1, r1, mid, t2, c2, r2);
      cmds := c1 + c2;
      r := if r2.Err? then Err(r2.error) else r1;
    }

    /** `_packet_in_handler` for a packet `pkt` that switch `dpid` received
        on `inPort`: LLDP is ignored; IPv6 gets a rule dropping that Ethernet
        type at the switch; otherwise the sender is learnt, an ARP reply or a
        request for a known IP installs the paths between the two hosts, and
        the packet is sent back out of the forward path's first port, or
        flooded. `err` is the exception that ended the handler, if any. */
    method PacketIn(dpid: Switch, inPort: Port, pkt: Packet)
      returns (cmds: seq<Command>, err: Option<Failure>, ghost x: Exchange)
      requires Valid()
      modifies this`hosts, this`arpTable, this`pathOfids
      ensures Valid()
      ensures pkt.ethType == ETH_LLDP ==>
        cmds == [] && err == None && hosts == old(hosts) && arpTable == old(arpTable) && pathOfids == old(pathOfids)
      ensures pkt.ethType != ETH_LLDP && pkt.ipv6 ==>
        cmds == [FlowMod(dpid, PRIORITY_IPV6_DROP, EthTypeMatch(pkt.ethType), [])] && err == None &&
        hosts == old(hosts) && arpTable == old(arpTable) && pathOfids == old(pathOfids)
      ensures pkt.ethType != ETH_LLDP && !pkt.ipv6 ==>
        hosts == if pkt.src in old(hosts) then old(hosts) else old(hosts)[pkt.src := (dpid, inPort)]
      ensures pkt.ethType != ETH_LLDP && !pkt.ipv6 && !Triggers(pkt, old(arpTable)) ==>
        cmds == [PacketOut(dpid, inPort, [Output(OFPP_FLOOD)])] && err == None &&
        arpTable == old(arpTable) && pathOfids == old(pathOfids)
      ensures pkt.ethType != ETH_LLDP && !pkt.ipv6 && Triggers(pkt, old(arpTable)) ==>
        && arpTable == old(arpTable)[pkt.arp.value.srcIp := pkt.src]
        && (pkt.arp.value.opcode == ARP_REQUEST ==> Peer(pkt, arpTable) in hosts)
        && (Peer(pkt, arpTable) !in hosts ==>
              cmds == [] && err == Some(UnknownHost(Peer(pkt, arpTable))) && pathOfids == old(pathOfids))
        && (Peer(pkt, arpTable) in hosts ==>
              && BothWays(neighbour, bandwidths, datapaths, ofids, old(pathOfids), pathOfids,
                          hosts[pkt.src], hosts[Peer(pkt, arpTable)], pkt.arp.value.srcIp, pkt.arp.value.dstIp, x)
              && (x.fwdResult.Ok? && x.backResult.Ok? ==>
                    cmds == x.fwdCmds + x.backCmds + [PacketOut(dpid, inPort, [Output(x.fwdResult.value)])] &&
                    err == None)
              && (x.fwdResult.Err? ==> cmds == x.fwdCmds && err == Some(x.fwdResult.error))
              && (x.fwdResult.Ok? && x.backResult.Err? ==>
                    cmds == x.fwdCmds + x.backCmds && err == Some(x.backResult.error)))
    {
      var none := Trace([], [], [], [], [], []);
      x := Exchange(none, [], Err(NoPath), pathOfids, none, [], Err(NoPath));
      if pkt.ethType == ETH_LLDP {
        return [], None, x;
      }
      if pkt.ipv6 {
        return [FlowMod(dpid, PRIORITY_IPV6_DROP, EthTypeMatch(pkt.ethType), [])], None, x;
      }
      if pkt.src !in hosts {
        hosts := hosts[pkt.src := (dpid, inPort)];
      }
      var portOut := OFPP_FLOOD;
      cmds := [];
      if pkt.arp.Some? {
        var a := pkt.arp.value;
        if a.opcode == ARP_REPLY || (a.opcode == ARP_REQUEST && a.dstIp in arpTable) {
          arpTable := arpTable[a.srcIp := pkt.src];
          var peer := if a.opcode == ARP_REPLY then pkt.dst else arpTable[a.dstIp];
          var h1 := hosts[pkt.src];
          if peer !in hosts {
            return [], Some(UnknownHost(peer)), x;
          }
          var h2 := hosts[peer];
          var r;
          cmds, r, x := Connect(h1, h2, a.srcIp, a.dstIp);
          if r.Err? {
            return cmds, Some(r.error), x;
          }
          portOut := r.value;
        }
      }
      cmds := cmds + [PacketOut(dpid, inPort, [Output(portOut)])];
      err := None;
    }
  }
}
