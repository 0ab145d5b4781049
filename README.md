# Multipath Ryu controller, modelled in Dafny

This project models `Ryu_controller` in `modules/ryu_controller.py`. It is an
OpenFlow 1.3 application that learns the switch graph from topology events
and learns port speeds from port-description replies. When two hosts exchange
ARP, it installs up to `max_allowed_path = 2` of the cheapest simple paths
between their switches, in both directions. At a switch, the chosen paths
that enter by one ingress port contribute their distinct (egress port, path
cost) pairs; a port with more than one such pair gets a select group, with one
bucket per pair. The bucket weights favour the cheaper path.

The model follows the structure of the program:

- `Types`: switch, port, MAC and IP ids; the configuration constants
  `ref_bw`, `default_bw`, `max_allowed_path` and the range of the random
  group id; and the exceptions the routines raise, as a `Failure` inside a
  `Result`.
- `Topology`: the `neighbour` and `bandwidths` tables, and the pure updates
  that the link, switch-leave and port-statistics handlers apply to them.
- `Routes` and `PathFinder`: `dfs`, as a method with an explicit stack. It is
  proved to return each simple path from `source` to `dest` exactly once.
  `Routes` holds the specification and the invariants of the search.
- `Cost`: `cal_cost_link` and `cal_cost_path`, with Python 2 floor division
  and the two `KeyError`s of an unknown link.
- `PathSelection`: `max_optimal_paths`, a stable sort by cost followed by a
  prefix.
- `PortPlan`: `link`, the ingress and egress port of every switch on every
  path.
- `Groups`: grouping a switch's (egress, cost) pairs by ingress port, and the
  bucket weight `int(round((1 - c / S) * 10))`.
- `Commands`: the OpenFlow messages, as abstract records.
- `Emission`: the commands `est_flinks` sends for each switch, and how
  `path_ofids` changes.
- `Controller`: the class with the controller's state and its handlers,
  written as methods with `modifies` clauses: `generate_openflow_gid`, the
  topology and port handlers, `est_flinks`, `est_blinks` and the packet-in
  handler.
- `Fixture`: the two-branch network of `modules/topo.py`, with concrete facts
  about it.

Things the model does on purpose:

- A routine that raises returns an error `Result`. Every command it sent
  before raising is kept, because `send_msg` does not wait for an answer.
- Sets and dicts iterate in an order Python leaves unspecified. The model
  picks the next element with `:|`, so every proved property holds for every
  iteration order.
- `random.randint` is modelled the same way.

## Model

| member | source | states |
|---|---|---|
| Topology.AddLink | modules/ryu_controller.py:364-368 | after a link add, both directed entries exist and the reverse entry holds `p2`; when s1 ≠ s2 the forward entry holds `p1`; every other entry keeps its presence and its port |
| Topology.DeleteLink | modules/ryu_controller.py:373-381 | when s1→s2 is absent, nothing changes; otherwise both directions are gone; every other entry is untouched |
| Topology.RemoveSwitch | modules/ryu_controller.py:358 | only the leaving switch's own neighbour map is dropped; other switches' maps, including their entries toward it, stay |
| Topology.ReportedSpeeds | modules/ryu_controller.py:268-269 | a port appears exactly when the reply mentions it, and the speed recorded is that of its last entry |
| Topology.PortStatsCapacity | modules/ryu_controller.py:266-269 | a reply changes the capacity of exactly the ports it mentions, on the replying switch only |
| Routes.SelfRoute | modules/ryu_controller.py:58-59 | the only simple path from a switch to itself is that switch alone |
| PathFinder.Dfs | modules/ryu_controller.py:56-72 | for source = dest the result is `[[source]]`; otherwise a path is returned exactly when it starts at `source`, ends at `dest`, repeats no switch and follows known links; no path is returned twice |
| PathFinder.ExpandAll | modules/ryu_controller.py:66-70 | the loop over the unvisited neighbours of the popped switch handles every one of them and keeps the search invariant; the stack below is kept, and what it pushes are one-switch extensions of the popped path, at most one per neighbour |
| PathFinder.Expand | modules/ryu_controller.py:64-70 | one pop of the stack keeps the search invariant and makes the stack's weight decrease |
| Cost.LinkCost | modules/ryu_controller.py:76-83 | an unknown forward entry raises on the forward lookup, then an unknown reverse entry on the reverse one; a known link fails exactly when its bottleneck capacity is 0; otherwise the cost is `ref_bw` divided by the bottleneck capacity, rounded down |
| Cost.PathCostOk | modules/ryu_controller.py:87-91 | a path can be costed exactly when each of its links can |
| Cost.PathCostSplit | modules/ryu_controller.py:87-91 | the cost of a path is the cost of a prefix chained with the cost of the rest |
| Cost.LinkCostSymmetric | modules/ryu_controller.py:76-83 | a link costs the same in both directions |
| Cost.LinkCostAntitone | modules/ryu_controller.py:81-82 | lowering port speeds never makes a link cheaper, and a link that could be costed still can |
| Cost.PathCostAntitone | modules/ryu_controller.py:87-91 | lowering port speeds never makes a path cheaper, and a path that could be costed still can |
| Cost.PathCostReverse | modules/ryu_controller.py:87-91 | a path taken backwards costs the same as forwards |
| Cost.CalCostPath | modules/ryu_controller.py:87-91 | the loop computes `PathCost` (the recursive definition of the path cost): the sum of the link costs, or the error of the first link that fails |
| PathSelection.Costs | modules/ryu_controller.py:99 | the sort keys: each path's cost in order, or the error of the first path that cannot be costed |
| PathSelection.SortOrder | modules/ryu_controller.py:99 | the order of a stable sort by cost: a permutation, sorted by (cost, position) |
| PathSelection.SortedUnique | modules/ryu_controller.py:99 | two orders sorted by (cost, position) over the same positions are equal, so the stable sort is determined |
| PathSelection.TopK | modules/ryu_controller.py:98-99 | the `k` positions a stable sort puts first: sorted, in range, and each one before every position left out |
| PathSelection.SelectPaths | modules/ryu_controller.py:96-99 | fails exactly when some path found cannot be costed, with that error; otherwise keeps `min(len(paths), 2)` paths |
| PathSelection.SelectionCheapest | modules/ryu_controller.py:96-99 | the kept paths are listed cheapest first, ties in search order; each is no costlier than any path left out, and a left-out path of equal cost was found later |
| PathSelection.MaxOptimalPaths | modules/ryu_controller.py:96-99 | the search result is every simple path, each once, and the selection is `SelectPaths` of it |
| PortPlan.GapError | modules/ryu_controller.py:108-111 | an unknown link raises `KeyError` on one of its two directions |
| PortPlan.PlanPath | modules/ryu_controller.py:105-113 | succeeds exactly when every link of the path is known both ways; the map's keys are the path's switches; the first switch enters at `source_port`, the last leaves by `dest_port`, and each switch keeps the ports of its last visit; otherwise the error `FirstGap` names for the first unknown link |
| PortPlan.Link | modules/ryu_controller.py:103-114 | one plan per path, in order, each as `PlanPath` states; otherwise the error of the first path with an unknown link |
| PortPlan.CostedPathLinked | modules/ryu_controller.py:131-134 | a path whose cost could be computed has every link known both ways, so `link` cannot fail on a selected path |
| Groups.BucketWeight | modules/ryu_controller.py:185 | the weight is at most 10 |
| Groups.BucketWeightRounds | modules/ryu_controller.py:185 | the weight is `(1 - c/S) * 10` rounded half up: it lies in `(x - 1/2, x + 1/2]` of the exact value `x` |
| Groups.BucketWeightAntitone | modules/ryu_controller.py:185 | a cheaper path never gets a smaller weight |
| Groups.TwoBucketWeights | modules/ryu_controller.py:183-195 | the two buckets of a two-path group have weights that sum to 10, or to 11 when both round a half up |
| Groups.EqualCostsEqualWeights | modules/ryu_controller.py:183-195 | two paths of equal cost get weight 5 each |
| Groups.GroupingKeys | modules/ryu_controller.py:141-150 | the ingress ports in `ports` are exactly those of the plans through the switch, and every list is nonempty |
| Groups.GroupingEntries | modules/ryu_controller.py:141-150 | the list of an ingress port holds exactly the (egress, cost) pairs of the plans entering the switch there |
| Groups.GroupingDistinct | modules/ryu_controller.py:148-149 | no (egress, cost) pair is listed twice for one ingress port |
| Groups.GroupByIngress | modules/ryu_controller.py:141-150 | the loop builds `Grouping` of all the plans, the recursive definition whose keys and entries `GroupingKeys`, `GroupingEntries` and `GroupingDistinct` state |
| Groups.MakeBuckets | modules/ryu_controller.py:183-195 | the loop builds `Buckets`: one bucket per entry, in order, with the entry's egress port and the weight of its cost |
| Emission.Sum | modules/ryu_controller.py:133 | every path cost is at most the total cost |
| Emission.PortsWithinTotal | modules/ryu_controller.py:133-150 | every cost listed for a switch is at most the total, so every bucket weight is defined |
| Emission.PortCommandsShape | modules/ryu_controller.py:165-219 | for `PortCommands`, the commands of one ingress port: it sends nothing exactly when it has no entry; every command goes to its switch and is the IPv4 rule at priority 32768, the ARP rule at priority 1, or a group of two or more buckets with the key's id; it adds a group exactly when it has several entries and the key has no group yet |
| Emission.PortCommandsForms | modules/ryu_controller.py:165-219 | with one entry, a port sends two rules that output to that entry's port and no group; with several, one group whose buckets are `Buckets` of the entries, an ADD exactly when the key has no group yet and a MODIFY otherwise, then two rules that point at the group |
| Emission.NodeCommandsShape | modules/ryu_controller.py:152-219 | for `NodeCommands` (and so for `NodeEmission` and `Emission`), a switch's commands all go to it, with the rule shapes above; a group is added exactly when the key had no group before and some ingress port has several entries; at most one ADD is sent, and every later port with several entries modifies that group |
| Emission.NodeCommandsGid | modules/ryu_controller.py:165-219 | before the first port with several entries, the commands do not depend on the group id |
| Emission.EmissionFrame | modules/ryu_controller.py:137-219 | the commands of the switches depend only on the group ids of their own keys |
| Controller.CostEach | modules/ryu_controller.py:129-132 | the loop computes `Costs` of the selected paths |
| Controller.CostsConcat | modules/ryu_controller.py:129-132 | costing a concatenation costs the first part, then the second, and the first error wins |
| Controller.Prepare | modules/ryu_controller.py:127-135 | at most two paths are kept, with one plan each; the search returns every simple path once; the call fails exactly when the selection fails, with its error; on success the paths, costs and plans are those `Chosen` describes, and the first plan contains the source switch |
| Controller.RemoveFirst | modules/ryu_controller.py:356 | `list.remove` drops one occurrence if there is one; on a list without repeats the result has no repeats and holds the old elements minus the removed one |
| Controller.Controller.constructor | modules/ryu_controller.py:41-51 | every table starts empty, the state is valid, and every port of every switch has capacity `default_bw` (line 47) |
| Controller.Controller.GenerateGroupId | modules/ryu_controller.py:118-122 | the id returned is in `[0, 2^32]` and not in `ofids` |
| Controller.Controller.SwitchEnter | modules/ryu_controller.py:337-343 | a new switch is appended and registered; a registered one changes nothing; `switches` never holds an id twice |
| Controller.Controller.SwitchLeave | modules/ryu_controller.py:352-358 | an unregistered switch changes nothing; a registered one is removed from `switches` and `datapath_list`, and its own `neighbour` entry is dropped |
| Controller.Controller.LinkAdd | modules/ryu_controller.py:364-368 | `neighbour` becomes `AddLink` of the old table |
| Controller.Controller.LinkDelete | modules/ryu_controller.py:373-381 | `neighbour` becomes `DeleteLink` of the old table |
| Controller.Controller.PortDescStats | modules/ryu_controller.py:266-269 | `bandwidths` becomes `ApplyPortStats` of the old table: after the reply, a port of the replying switch that the reply mentions has the speed of its last entry, and every other port of every switch keeps its old capacity |
| Controller.Controller.EmitPort | modules/ryu_controller.py:165-219 | one ingress port: a fresh id is drawn and stored only for a new key with several entries; the commands are those of `PortCommands`; a zero total with several entries raises division by zero |
| Controller.Controller.VisitPorts | modules/ryu_controller.py:152-219 | the loop over the ingress ports of one switch, as `PortsVisited` states: each port is visited once; a fresh group id is stored only for the switch's key and only when some port has several entries and the key had none; on completion the commands are `NodeCommands` over the visiting order; on a division by zero, the commands of the ports before the failing one |
| Controller.Controller.EmitNode | modules/ryu_controller.py:141-219 | one switch: its ingress ports are visited once each; `path_ofids` changes only for its key; the commands are `NodeEmission`, or its prefix up to the port that divided by zero |
| Controller.Controller.InstallNodes | modules/ryu_controller.py:137-221 | the loop over the switches: each registered switch is handled in turn; an unregistered one stops the call; old keys keep their group ids, and every new key is fresh and belongs to a switch that got a group; on completion the result is the first path's egress at the source, or an error when there is no path |
| Controller.Controller.EstFlinks | modules/ryu_controller.py:126-221 | a failed selection sends nothing and keeps `path_ofids`; otherwise the paths are those chosen and the commands, group ids and result are as `Installed` states |
| Controller.Controller.EstBlinks | modules/ryu_controller.py:225-227 | `est_flinks` with the switches, IPs and ports swapped |
| Controller.Controller.Connect | modules/ryu_controller.py:309-311 | the forward installation, then the backward one from the group ids the forward one left, unless the forward one raised; the commands are both lists in order and the result is the first error, or the forward egress |
| Controller.Controller.PacketIn | modules/ryu_controller.py:273-332 | LLDP changes nothing; IPv6 installs one drop rule for its Ethernet type; otherwise the sender is bound once and never rebound; a reply, or a request for a known IP, records the sender's IP, installs both directions toward the peer (`Peer`) and sends the packet out of the forward egress; an unknown peer raises before anything is installed; any other packet (`Triggers` is false) is flooded |
| Fixture.LongCost | modules/topo.py:45-55 | with no reported speeds, the branch through s3, s5 and s6 costs 4 |
| Fixture.ShortCost | modules/topo.py:45-55 | the branch through s2 and s4 costs 3 |
| Fixture.ShortFirstWhenFoundSecond | modules/ryu_controller.py:96-99 | with the long branch found first, both branches are kept and the short one comes first |
| Fixture.ShortFirstWhenFoundFirst | modules/ryu_controller.py:96-99 | with the short branch found first, the search order is kept |
| Fixture.NetRoutes | modules/topo.py:45-55 | the simple paths from s1 to s7 are exactly the long branch and the short branch |
| Fixture.NetSelection | modules/ryu_controller.py:96-99 | whatever order the search returns the two branches in, the selection is the short branch, then the long one |
| Fixture.LongBranchPlan | modules/ryu_controller.py:103-114 | the port plan of the long branch from h1's port to h2's port |
| Fixture.ShortBranchPlan | modules/ryu_controller.py:103-114 | the port plan of the short branch |
| Fixture.SourceGrouping | modules/ryu_controller.py:141-150 | at s1 the host's port has two ways out; at s7 each ingress port has one |
| Fixture.ExampleWeights | modules/ryu_controller.py:178-181 | the comment's example: out of a total of 7, cost 3 gets weight 6 and cost 4 gets weight 4 |
| Fixture.SourceCommands | modules/ryu_controller.py:165-213 | s1 adds a select group weighted 6 to 4 toward s2 and s3, and two rules pointing at it |

### Where the model reads the code closely

- **Identity test in `dfs`.** Line 67 compares with `is`; the model compares
  switch ids by value. The two agree for the ids CPython caches (up to 256).
  For larger datapath ids, `is` between two separately built integers is
  false.
- **Missing link aborts the whole call.** `dfs` cannot raise: `neighbour`
  is a `defaultdict` (line 46), so an unknown switch has no neighbours. The
  lookups that can raise are those of `cal_cost_link` (lines 78 and 80),
  reached through the sort key of `max_optimal_paths` (line 99). Their
  `KeyError` ends the whole `est_flinks` call, not only the path at hand.
  `link` cannot raise after a selection succeeded (`CostedPathLinked`).
- **Floor division hides small speed drops.** `ref_bw / min_bw` is Python 2
  floor division. With `ref_bw = default_bw`, every link at default speed
  costs 1. A lower speed changes the cost only once it falls to
  `ref_bw / 2` or below.
- **Exact arithmetic for weights.** Bucket weights are computed exactly, not
  in floating point. The lemma `BucketWeightRounds` ties the integer formula
  to the real-valued one.
- **Missing `KeyError` on `del`.** `del self.neighbour[switch]` on a switch
  with no `neighbour` entry raises `KeyError`, but only after the other two
  updates. The state is then the same as in the model. A switch can have an
  entry without any link (an earlier `dfs` from it created an empty one at
  line 66), and can lack one after a link (an earlier leave deleted it).
- **Shared group id at one switch.** All ingress ports of one switch with
  several ways out share the group id of `(node, source, dest)`. The first
  such port adds the group, every later one modifies it, and the last bucket
  list wins (`NodeCommandsShape`).
- **`ofids` is never filled.** `ofids` is never appended to, so the redraw
  loop guards an empty list. Group ids of different keys may coincide. The
  model keeps `ofids` as an unchanged field and proves only what the code
  ensures: freshness with respect to `ofids`.
- **Installed rules do not match the ingress port.** The rules match only on
  the IPv4 or ARP addresses, not on `in_port`.
- **ARP request where sender IP equals target IP.** On an ARP request,
  `arp_table[sip]` is written before `arp_table[dip]` is read. When
  `sip == dip`, the peer is the sender itself. `Peer` reads the table after
  the write.
- **Fixture costs.** In the network of `modules/topo.py` the two branches
  cost 4 and 3. The weights at s1 toward s2 and s3 are therefore 6 and 4, as
  the comment at lines 178-181 says.

## Left out

- Ryu plumbing is left out because it is not logic of the controller:
  - event registration (`@set_ev_cls`);
  - `datapath.send_msg`;
  - building `OFPFlowMod`, `OFPGroupMod`, `OFPMatch`, `OFPPacketOut` and `OFPBucket`;
  - `add_flow`'s `buffer_id` branch.
  
  Commands are abstract records holding the fields the controller sets.
- The packet-out `data`/`buffer_id` choice (lines 325-327) is left out; the
  model records only the switch, the in-port and the output action.
- `_switch_features_handler` (lines 251-261) installs the priority-0
  table-miss rule toward the controller; it is configuration, not core logic.
- The port-description request sent on switch enter is left out: its reply
  is modelled by `PortDescStats`.
- Logging and the timing with `time.time()` are left out because they have
  no effect on state.
- `mac_to_port` and `topology_api_app` are left out because the code never
  reads them.
- Controller.Controller.GenerateGroupId: each redraw picks a value not yet
  drawn in this call, so the loop terminates. `random.randint` may repeat a
  value, so the source only terminates with probability 1. It requires that
  some id in `[0, 2^32]` is free, which the source needs in order to return
  at all.
- Controller.Controller.PacketIn: the packet is already parsed into the
  fields the handler reads. Ethernet and ARP decoding is left out.
- `defaultdict` insertion on a read is left out. Reading `neighbour[s]` or
  `bandwidths[s][p]` for an absent key inserts an empty entry or a
  default-speed entry as a side effect. The model treats an absent entry as
  empty, or as `default_bw`, without inserting it. This changes no lookup
  result.
- `modules/topo.py` is used only as the fixture network. The Mininet
  bring-up itself is not part of this model.
- Concurrency between Ryu's event handlers is left out: each handler runs to
  completion.
