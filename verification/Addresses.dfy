/** Networks, interfaces and the arithmetic address plan (munet/native.py). Addresses are
    natural numbers; a network is its first address and its number of addresses. */
module Addresses {

  datatype Network = Network(v6: bool, address: nat, size: nat)

  datatype Interface = Interface(v6: bool, ip: nat, size: nat) {
    function NetworkOf(): Network
      requires size > 0
    {
      Network(v6, ip - ip % size, size)
    }
  }

  const LAN_SIZE4 := 0x100                              // a /24
  const LAN_SIZE6 := 0x1_0000_0000_0000_0000            // a /64
  const LAN_BASE4 := 0x0A00_0000                        // 10.0.0.0
  const LAN_BASE6 := 0xFC00_0000 * 0x1_0000_0000_0000_0000_0000_0000
  const P2P_BASE4 := 0x0AFE_0000                        // 10.254.0.0
  const P2P_BASE6 := 0xFCFF_FFFF * 0x1_0000_0000_0000_0000_0000_0000
  const P2P_STEP6 := 0x1_0000_0000_0000_0000_0000       // one unit of the third group
  const LOOPBACK_BASE4 := 0x0AFF_0000                   // 10.255.0.0
  const LOOPBACK_BASE6 := 0xFCFE_0000 * 0x1_0000_0000_0000_0000_0000_0000
  const BRIDGE_HOST := 0xFE                             // the .254 and ::fe of a bridge

  /** `make_ip_network`: the network `inc` networks further on. */
  function MakeIpNetwork(n: Network, inc: nat): Network {
    n.(address := n.address + inc * n.size)
  }

  /** `make_ip_interface`: the same host `inc` networks further on, as a /24 or /64. */
  function MakeIpInterface(ia: Interface, inc: nat): Interface {
    Interface(ia.v6, ia.ip + ia.size * inc, if ia.v6 then LAN_SIZE6 else LAN_SIZE4)
  }

  /** `get_ip_network` for a bridge whose address is automatic; the source asserts the bound. */
  function BridgeInterface(brid: nat, v6: bool): Interface
    requires brid < 0xFDFF
  {
    MakeIpInterface(if v6 then Interface(true, LAN_BASE6 + BRIDGE_HOST, LAN_SIZE6)
                    else Interface(false, LAN_BASE4 + BRIDGE_HOST, LAN_SIZE4), brid)
  }

  /** The automatic address of node `id` on a network. */
  function HostInterface(n: Network, id: nat): Interface {
    Interface(n.v6, n.address + id, n.size)
  }

  /** `10.254.{id & 0xFF}.{(id & 0x7F00) >> 7}/31` and `fcff:ffff:{id:02x}::/127`; the source
      asserts the bound. */
  function FirstP2pNetwork(id: nat, v6: bool): Network
    requires id < 0x7FFF
  {
    if v6 then Network(true, P2P_BASE6 + id * P2P_STEP6, 2)
    else Network(false, P2P_BASE4 + id % 0x100 * 0x100 + id / 0x100 % 0x80 * 2, 2)
  }

  function LoopbackAddress(id: nat, v6: bool): nat {
    (if v6 then LOOPBACK_BASE6 else LOOPBACK_BASE4) + id
  }

  /** Where a node's p2p networks start, counted in /31 networks from 10.254.0.0. */
  function Seed(id: nat): nat {
    id % 0x100 * 0x80 + id / 0x100
  }

  // ---------- what is given to whom ----------

  /** An automatic address: of a bridge, of a node on a bridge, of the near or far end of a
      node's k-th automatic p2p link, or of a node's loopback. */
  datatype Item =
    | Bridge(brid: nat)
    | Lan(brid: nat, id: nat)
    | P2p(id: nat, k: nat, far: bool)
    | Loopback(id: nat)

  predicate IdsAllowed(i: Item) {
    match i
    case Bridge(brid) => brid < 0xFDFF
    case Lan(brid, id) => brid < 0xFDFF && id < 0x7FFF
    case P2p(id, _, _) => id < 0x7FFF
    case Loopback(id) => id < 0x7FFF
  }

  function Address(i: Item, v6: bool): nat
    requires IdsAllowed(i)
  {
    match i
    case Bridge(brid) => BridgeInterface(brid, v6).ip
    case Lan(brid, id) => HostInterface(BridgeInterface(brid, v6).NetworkOf(), id).ip
    case P2p(id, k, far) => MakeIpNetwork(FirstP2pNetwork(id, v6), k).address + if far then 1 else 0
    case Loopback(id) => LoopbackAddress(id, v6)
  }

  // ---------- as they are written ----------

  /** a.b.c.d */
  function IPv4(a: nat, b: nat, c: nat, d: nat): nat {
    ((a * 256 + b) * 256 + c) * 256 + d
  }

  /** The address with these eight groups. */
  function IPv6(a: nat, b: nat, c: nat, d: nat, e: nat, f: nat, g: nat, h: nat): nat {
    ((((((a * 65536 + b) * 65536 + c) * 65536 + d) * 65536 + e) * 65536 + f) * 65536 + g) * 65536 + h
  }

  /** 10.x.y.254/24 and fc00:0:0:n::fe/64. */
  lemma {:induction false} BridgeWritten(brid: nat)
    requires brid < 0xFDFF
    ensures BridgeInterface(brid, false) == Interface(false, IPv4(10, brid / 256, brid % 256, 254), 256)
    ensures BridgeInterface(brid, true)
         == Interface(true, IPv6(0xfc00, 0, 0, brid, 0, 0, 0, 0xfe), 18446744073709551616)
  {
  }

  lemma {:induction false} LanNetwork(brid: nat)
    requires brid < 0xFDFF
    ensures BridgeInterface(brid, false).NetworkOf() == Network(false, IPv4(10, brid / 256, brid % 256, 0), 256)
    ensures BridgeInterface(brid, true).NetworkOf()
         == Network(true, IPv6(0xfc00, 0, 0, brid, 0, 0, 0, 0), 18446744073709551616)
  {
    BridgeWritten(brid);
    Remainder64(0xfc00_0000_0000 * 65536 + brid, 0xfe);
  }

  lemma {:induction false} Remainder64(q: nat, r: nat)
    requires r < 18446744073709551616
    ensures (q * 18446744073709551616 + r) % 18446744073709551616 == r
  {
  }

  /** A node on a bridge: the same network, with the node's identifier for the host. */
  lemma {:induction false} LanWritten(brid: nat, id: nat)
    requires brid < 0xFDFF && id < 0x7FFF
    ensures HostInterface(BridgeInterface(brid, false).NetworkOf(), id)
         == Interface(false, IPv4(10, brid / 256, brid % 256, 0) + id, 256)
    ensures id < 256 ==> Address(Lan(brid, id), false) == IPv4(10, brid / 256, brid % 256, id)
    ensures HostInterface(BridgeInterface(brid, true).NetworkOf(), id)
         == Interface(true, IPv6(0xfc00, 0, 0, brid, 0, 0, 0, id), 18446744073709551616)
    ensures Address(Lan(brid, id), true) == IPv6(0xfc00, 0, 0, brid, 0, 0, 0, id)
  {
    LanNetwork(brid);
  }

  /** A node's first p2p networks: 10.254.x.y/31 and fcff:ffff:n::/127. */
  lemma {:induction false} P2pWritten(id: nat)
    requires id < 0x7FFF
    ensures FirstP2pNetwork(id, false) == Network(false, IPv4(10, 254, id % 256, id / 256 * 2), 2)
    ensures FirstP2pNetwork(id, true) == Network(true, IPv6(0xfcff, 0xffff, id, 0, 0, 0, 0, 0), 2)
  {
  }

  /** A node's loopback: 10.255.x.y and fcfe::n. */
  lemma {:induction false} LoopbackWritten(id: nat)
    requires id < 0x7FFF
    ensures LoopbackAddress(id, false) == IPv4(10, 255, id / 256, id % 256)
    ensures LoopbackAddress(id, true) == IPv6(0xfcfe, 0, 0, 0, 0, 0, 0, id)
  {
  }

  // ---------- p2p networks ----------

  /** The k-th p2p network of a node is /31 number `Seed(id) + k` of 10.254.0.0, and its two
      addresses are all the addresses it has. */
  lemma {:induction false} P2pSlot(id: nat, k: nat)
    requires id < 0x7FFF
    ensures var n := MakeIpNetwork(FirstP2pNetwork(id, false), k);
            && n == Network(false, IPv4(10, 254, 0, 0) + 2 * (Seed(id) + k), 2)
            && Address(P2p(id, k, false), false) == n.address
            && Address(P2p(id, k, true), false) == n.address + 1
    ensures var n := MakeIpNetwork(FirstP2pNetwork(id, true), k);
            && n == Network(true, IPv6(0xfcff, 0xffff, id, 0, 0, 0, 0, 0) + 2 * k, 2)
            && Address(P2p(id, k, false), true) == n.address
            && Address(P2p(id, k, true), true) == n.address + 1
  {
  }

  lemma {:induction false} SeedInjective(a: nat, b: nat)
    requires a < 0x7FFF && b < 0x7FFF && Seed(a) == Seed(b)
    ensures a == b
  {
  }

  /** The first `n` p2p networks of `a` and the first `m` of `b` have no address in common. */
  ghost predicate BlocksApart(a: nat, n: nat, b: nat, m: nat)
    requires a < 0x7FFF && b < 0x7FFF
  {
    forall j: nat, k: nat, e, f ::
      j < n && k < m ==> Address(P2p(a, j, e), false) != Address(P2p(b, k, f), false)
  }

  /** Exactly when the p2p networks of two nodes meet. */
  lemma {:induction false} BlocksApartIff(a: nat, n: nat, b: nat, m: nat)
    requires a < 0x7FFF && b < 0x7FFF && Seed(a) <= Seed(b)
    requires m > 0
    ensures BlocksApart(a, n, b, m) <==> Seed(b) - Seed(a) >= n
  {
    var gap := Seed(b) - Seed(a);
    if gap < n {
      P2pSlot(a, gap);
      P2pSlot(b, 0);
      assert Address(P2p(a, gap, false), false) == Address(P2p(b, 0, false), false);
    } else {
      forall j: nat, k: nat, e, f | j < n && k < m
        ensures Address(P2p(a, j, e), false) != Address(P2p(b, k, f), false)
      {
        P2pSlot(a, j);
        P2pSlot(b, k);
      }
    }
  }

  /** A node may source 128 automatic p2p links, and no more, before it meets the node with the
      next identifier. */
  lemma {:induction false} RoomForLinks(id: nat, n: nat, m: nat)
    requires id < 0xFF && m > 0
    ensures BlocksApart(id, n, id + 1, m) <==> n <= 128
  {
    assert Seed(id + 1) == Seed(id) + 0x80;
    BlocksApartIff(id, n, id + 1, m);
  }

  // ---------- the plan ----------

  /** What keeps automatic addresses apart. */
  predicate InPlan(i: Item, v6: bool) {
    && IdsAllowed(i)
    && (i.Lan? ==> i.id != BRIDGE_HOST)
    && (!v6 && i.Lan? ==> i.id < 0x100)
    && (!v6 && i.P2p? ==> i.id < 0x100 && i.k < 128)
    && (v6 && i.P2p? ==> i.k < P2P_STEP6 / 2)
  }

  lemma {:induction false} LanForm(brid: nat, id: nat)
    requires brid < 0xFDFF && id < 0x7FFF
    ensures Address(Lan(brid, id), false) == LAN_BASE4 + brid * 0x100 + id
  {
    LanNetwork(brid);
  }

  lemma {:induction false} P2pForm(id: nat, k: nat, far: bool)
    requires id < 0x100
    ensures Address(P2p(id, k, far), false) == P2P_BASE4 + id * 0x100 + 2 * k + if far then 1 else 0
  {
    P2pSlot(id, k);
  }

  lemma {:induction false} AddressForms(i: Item)
    requires InPlan(i, false)
    ensures match i
            case Bridge(brid) => Address(i, false) == LAN_BASE4 + brid * 0x100 + BRIDGE_HOST
            case Lan(brid, id) => Address(i, false) == LAN_BASE4 + brid * 0x100 + id
            case P2p(id, k, far) => Address(i, false) == P2P_BASE4 + id * 0x100 + 2 * k + if far then 1 else 0
            case Loopback(id) => Address(i, false) == LOOPBACK_BASE4 + id
  {
    match i
    case Lan(brid, id) => LanForm(brid, id);
    case P2p(id, k, far) => P2pForm(id, k, far);
    case _ =>
  }

  lemma {:induction false} AddressForms6(i: Item)
    requires InPlan(i, true)
    ensures match i
            case Bridge(brid) => Address(i, true) == LAN_BASE6 + brid * LAN_SIZE6 + BRIDGE_HOST
            case Lan(brid, id) => Address(i, true) == LAN_BASE6 + brid * LAN_SIZE6 + id
            case P2p(id, k, far) => Address(i, true) == P2P_BASE6 + id * P2P_STEP6 + 2 * k + if far then 1 else 0
            case Loopback(id) => Address(i, true) == LOOPBACK_BASE6 + id
  {
  }

  /** Different items get different addresses, IPv4 and IPv6. */
  lemma {:induction false} PlanIsInjective(i: Item, j: Item, v6: bool)
    requires InPlan(i, v6) && InPlan(j, v6) && i != j
    ensures Address(i, v6) != Address(j, v6)
  {
    if v6 {
      AddressForms6(i);
      AddressForms6(j);
    } else {
      AddressForms(i);
      AddressForms(j);
    }
  }

  /** The IPv4 pools: 10.0 to 10.253, 10.254 and 10.255. */
  lemma {:induction false} PlanKeepsToPools(i: Item)
    requires InPlan(i, false)
    ensures var a := Address(i, false);
            match i
            case P2p(_, _, _) => IPv4(10, 254, 0, 0) <= a <= IPv4(10, 254, 255, 255)
            case Loopback(_) => IPv4(10, 255, 0, 0) <= a <= IPv4(10, 255, 127, 254)
            case _ => IPv4(10, 0, 0, 0) <= a <= IPv4(10, 253, 255, 255)
  {
    AddressForms(i);
  }

  /** Exactly the node identifiers whose address on a bridge is a host address of the bridge's
      /24 that is not the bridge's own. */
  lemma {:induction false} UsableOnLan(brid: nat, id: nat)
    requires brid < 0xFDFF && id < 0x7FFF
    ensures var n := BridgeInterface(brid, false).NetworkOf();
            var a := Address(Lan(brid, id), false);
            (n.address < a < n.address + n.size - 1 && a != Address(Bridge(brid), false)) <==> 1 <= id <= 253
  {
    LanNetwork(brid);
    LanForm(brid, id);
    AddressForms(Bridge(brid));
  }
}
