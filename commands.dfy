/** The OpenFlow 1.3 messages the controller sends (modules/ryu_controller.py:
    154-163, 199-213, 230-243, 290-292, 329-332), reduced to the fields the
    controller sets. */
module Commands {
  import opened Types

  /** Ethernet types the controller matches on or tests for. */
  const ETH_IPV4: int := 0x0800
  const ETH_ARP: int := 0x0806
  const ETH_LLDP: int := 35020
  /** Priorities of the IPv4 and the ARP rule of an installed path. */
  const PRIORITY_IP: nat := 32768
  const PRIORITY_ARP: nat := 1
  /** Priority of the rule dropping a switch's IPv6 traffic. */
  const PRIORITY_IPV6_DROP: nat := 1
  /** `OFPP_FLOOD`, the reserved port that sends a packet out of every port. */
  const OFPP_FLOOD: Port := 0xfffffffb

  datatype Match =
    | IpMatch(ipv4Src: Ip, ipv4Dst: Ip)     // eth_type 0x0800, ipv4_src, ipv4_dst
    | ArpMatch(arpSpa: Ip, arpTpa: Ip)      // eth_type 0x0806, arp_spa, arp_tpa
    | EthTypeMatch(ethType: int)            // eth_type only

  datatype Action = Output(port: Port) | ToGroup(gid: nat)

  /** A bucket of a select group: its weight, the port it watches and
      outputs to (`watch_group` is always `OFPG_ANY`). */
  datatype Bucket = Bucket(weight: nat, port: Port)

  datatype GroupCommand = GroupAdd | GroupModify

  datatype Command =
    /** `add_flow`: one apply-actions instruction; an empty list drops. */
    | FlowMod(sw: Switch, priority: nat, flowMatch: Match, actions: seq<Action>)
    /** A group of type `OFPGT_SELECT`. */
    | GroupMod(sw: Switch, command: GroupCommand, gid: nat, buckets: seq<Bucket>)
    | PacketOut(sw: Switch, inPort: Port, actions: seq<Action>)

  /** The two rules a switch gets for one direction of a host pair: IPv4 at
      priority 32768, then ARP at priority 1, with the same actions. */
  function FlowRules(sw: Switch, sip: Ip, dip: Ip, actions: seq<Action>): seq<Command>
  {
    [FlowMod(sw, PRIORITY_IP, IpMatch(sip, dip), actions),
     FlowMod(sw, PRIORITY_ARP, ArpMatch(sip, dip), actions)]
  }
}
