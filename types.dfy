/** Identifiers, configuration constants and failure outcomes shared by the
    controller's modules (modules/ryu_controller.py). */
module Types {

  /** A switch is named by its OpenFlow datapath id. */
  type Switch = int
  type Port = int
  /** Hardware (Ethernet) address of a host. */
  type Mac = string
  /** IPv4 address of a host, as carried in ARP and IPv4 matches. */
  type Ip = string
  /** A path is the sequence of switches it visits. */
  type Path = seq<Switch>

  /** `ref_bw`: the reference bandwidth a link capacity is divided into. */
  const REF_BW: nat := 10000000
  /** `default_bw`: the capacity of a port whose speed was never reported. */
  const DEFAULT_BW: nat := 10000000
  /** `max_allowed_path`: how many paths are installed between two hosts. */
  const MAX_ALLOWED_PATH: nat := 2
  /** Upper bound of `random.randint(0, 2**32)`, which includes both ends. */
  const MAX_GID: nat := 0x1_0000_0000

  /** The exceptions the controller's routines can raise. */
  datatype Failure =
    | MissingEdge(from: Switch, to: Switch)   // KeyError on neighbour[from][to]
    | DivisionByZero                         // a capacity of 0, or a total cost of 0
    | UnregisteredSwitch(sw: Switch)         // KeyError on datapath_list[sw]
    | NoPath                                 // IndexError on paths_with_ports[0]
    | UnknownHost(mac: Mac)                  // KeyError on hosts[mac]

  datatype Result<T> = Ok(value: T) | Err(error: Failure)

  datatype Option<T> = None | Some(value: T)

  function Min(a: int, b: int): int
  {
    if a <= b then a else b
  }

  /** No switch occurs twice. */
  predicate Distinct<T(==)>(s: seq<T>)
  {
    forall i, j :: 0 <= i < j < |s| ==> s[i] != s[j]
  }

  function Elements<T>(s: seq<T>): set<T>
  {
    set x | x in s
  }

  /** A sequence without repetitions is no longer than the set it draws from. */
  lemma {:induction false} DistinctLength<T>(s: seq<T>, u: set<T>)
    requires Distinct(s)
    requires forall i :: 0 <= i < |s| ==> s[i] in u
    ensures |s| <= |u|
  {
    if s != [] {
      var x := s[|s| - 1];
      var t := s[..|s| - 1];
      assert forall i :: 0 <= i < |t| ==> t[i] in u - {x} by {
        forall i | 0 <= i < |t| ensures t[i] in u - {x} {
          assert t[i] == s[i] && s[i] != s[|s| - 1];
        }
      }
      DistinctLength(t, u - {x});
    }
  }
}
