/** Addresses on the interfaces of the nodes of a topology: the interface tables of
    munet/base.py and the address assignment of munet/native.py. */
module Topology {
  import opened Options
  import opened Addresses

  /** A table entry: the IPv4 and the IPv6 address. */
  datatype Slots = Slots(v4: Option<Interface>, v6: Option<Interface>) {
    function Get(six: bool): Option<Interface> {
      if six then v6 else v4
    }

    function Put(ia: Interface): Slots {
      if ia.v6 then Slots(v4, Some(ia)) else Slots(Some(ia), v6)
    }
  }

  type Table = map<string, Slots>

  function Lookup(t: Table, ifname: string): Slots {
    if ifname in t then t[ifname] else Slots(None, None)
  }

  function Store(t: Table, ifname: string, ia: Interface): Table {
    t[ifname := Lookup(t, ifname).Put(ia)]
  }

  /** What a node keeps about its interfaces; `nets` has the interface of each bridge it is on. */
  datatype Host = Host(id: nat, next4: Network, next6: Network, own: Table, peer: Table, nets: map<string, string>) {
    function Next(six: bool): Network {
      if six then next6 else next4
    }
  }

  function NewHost(id: nat): Host
    requires id < 0x7FFF
  {
    Host(id, FirstP2pNetwork(id, false), FirstP2pNetwork(id, true), map[], map[], map[])
  }

  /** One end of a link in the configuration. */
  datatype Conf = Conf(name: string, ip: Option<Interface>, ipv6: Option<Interface>) {
    function Get(six: bool): Option<Interface> {
      if six then ipv6 else ip
    }
  }

  /** The configured addresses are of the version their key says. */
  predicate WellVersioned(c: Conf) {
    && (c.ip.Some? ==> !c.ip.value.v6)
    && (c.ipv6.Some? ==> c.ipv6.value.v6)
  }

  datatype Env = Env(autonumber: bool, ipv6: bool)

  /** `register_interface` */
  function Register(h: Host, ifname: string): Host {
    if ifname in h.own then h else h.(own := h.own[ifname := Slots(None, None)])
  }

  /** `register_network`; None when its assertion fails. */
  function RegisterNetwork(h: Host, net: string, ifname: string): Option<Host> {
    if net in h.nets && h.nets[net] != ifname then None else Some(h.(nets := h.nets[net := ifname]))
  }

  /** `set_intf_addr`: the slot is chosen by the version of the address itself. */
  function SetIntfAddr(h: Host, ifname: string, ia: Interface, other: Option<Interface>): Host {
    h.(own := Store(h.own, ifname, ia),
       peer := if other.Some? then Store(h.peer, ifname, other.value) else h.peer)
  }

  function Place(h: Host, ifname: string, ia: Option<Interface>, other: Option<Interface>): Host {
    if ia.Some? then SetIntfAddr(h, ifname, ia.value, other) else h
  }

  /** The first part of `_set_p2p_addr`: the addresses of the two ends, and the node that
      sources the link after it gave out a network. */
  datatype Pick = Pick(host: Host, near: Option<Interface>, far: Option<Interface>)

  function PickP2p(h: Host, c1: Conf, c2: Conf, six: bool, autonumber: bool): Pick {
    if c1.Get(six).None? && c2.Get(six).None? && autonumber then
      var n := h.Next(six);
      var next := MakeIpNetwork(n, 1);
      Pick(if six then h.(next6 := next) else h.(next4 := next),
           Some(Interface(n.v6, n.address, n.size)), Some(Interface(n.v6, n.address + 1, n.size)))
    else
      Pick(h, c1.Get(six), c2.Get(six))
  }

  /** `_set_p2p_addr` on two different nodes. */
  datatype Two = Two(near: Host, far: Host)

  function P2pFamily(h: Two, c1: Conf, c2: Conf, six: bool, autonumber: bool): Two {
    var p := PickP2p(h.near, c1, c2, six, autonumber);
    Two(Place(p.host, c1.name, p.near, p.far), Place(h.far, c2.name, p.far, p.near))
  }

  /** `set_p2p_addr` on two different nodes. */
  function P2pBoth(h: Two, c1: Conf, c2: Conf, env: Env): Two {
    var h4 := P2pFamily(h, c1, c2, false, env.autonumber);
    if env.ipv6 then P2pFamily(h4, c1, c2, true, env.autonumber) else h4
  }

  /** `_set_p2p_addr` on two interfaces of one node. */
  function P2pSelf(h: Host, c1: Conf, c2: Conf, six: bool, autonumber: bool): Host {
    var p := PickP2p(h, c1, c2, six, autonumber);
    Place(Place(p.host, c1.name, p.near, p.far), c2.name, p.far, p.near)
  }

  /** The IPv4 address on a bridge with this network: the configured or else the automatic one. */
  function LanAddr4(id: nat, net4: Network, c: Conf, env: Env): Option<Interface> {
    if c.ip.Some? then c.ip else if env.autonumber then Some(HostInterface(net4, id)) else None
  }

  /** The IPv6 address on a bridge when none is configured. */
  function LanAddr6(id: nat, net6: Network, env: Env): Option<Interface> {
    if env.ipv6 && env.autonumber then Some(HostInterface(net6, id)) else None
  }

  /** `set_p2p_addr` on two interfaces of one node. */
  function SelfBoth(h: Host, c1: Conf, c2: Conf, env: Env): Host {
    var h4 := P2pSelf(h, c1, c2, false, env.autonumber);
    if env.ipv6 then P2pSelf(h4, c1, c2, true, env.autonumber) else h4
  }

  function RegisterTwo(h: Two, c1: Conf, c2: Conf): Two {
    Two(Register(h.near, c1.name), Register(h.far, c2.name))
  }

  /** `set_lan_addr` on a bridge with these networks; None when one of its assertions fails.
      An explicit IPv6 address always fails: the assertion looks at the IPv4 one. */
  function SetLanAddr(h: Host, net4: Network, net6: Network, c: Conf, env: Env): Option<Host> {
    if (c.ip.Some? && c.ip.value.v6) || c.ipv6.Some? then
      None
    else
      Some(Place(Place(h, c.name, LanAddr4(h.id, net4, c, env), None), c.name, LanAddr6(h.id, net6, env), None))
  }

  /** `set_dummy_addr`; None when one of its assertions fails. */
  function SetDummyAddr(h: Host, c: Conf): Option<Host> {
    if WellVersioned(c) then Some(Place(Place(h, c.name, c.ip, None), c.name, c.ipv6, None)) else None
  }

  /** What a connection without a node or bridge at its other end does to its node. */
  function DummyHost(h: Host, c: Conf): Option<Host> {
    SetDummyAddr(Register(h, c.name), c)
  }

  /** What a connection to a bridge does to its node. */
  function LanHost(h: Host, net: string, net4: Network, net6: Network, c: Conf, env: Env): Option<Host> {
    var r := RegisterNetwork(Register(h, c.name), net, c.name);
    if r.None? then None else SetLanAddr(r.value, net4, net6, c, env)
  }

  // ---------- a whole topology ----------

  type Topo = map<string, Host>

  /** The bridge of a LAN link has a name and an identifier. */
  datatype Link =
    | DummyLink(node: string, conf: Conf)
    | LanLink(net: string, brid: nat, node: string, conf: Conf)
    | P2pLink(n1: string, c1: Conf, n2: string, c2: Conf)

  predicate Known(t: Topo, l: Link) {
    match l
    case DummyLink(node, _) => node in t
    case LanLink(_, brid, node, _) => brid < 0xFDFF && node in t
    case P2pLink(n1, _, n2, _) => n1 in t && n2 in t
  }

  /** `_set_p2p_addr` for one family. */
  function SetP2pAddr(t: Topo, l: Link, six: bool, autonumber: bool): Topo
    requires l.P2pLink? && Known(t, l)
  {
    var p := PickP2p(t[l.n1], l.c1, l.c2, six, autonumber);
    var t1 := t[l.n1 := Place(p.host, l.c1.name, p.near, p.far)];
    t1[l.n2 := Place(t1[l.n2], l.c2.name, p.far, p.near)]
  }

  /** Both ends of a p2p link are registered before they get addresses. */
  function RegisterEnds(t: Topo, l: Link): (u: Topo)
    requires l.P2pLink? && Known(t, l)
    ensures u.Keys == t.Keys
  {
    var t1 := t[l.n1 := Register(t[l.n1], l.c1.name)];
    t1[l.n2 := Register(t1[l.n2], l.c2.name)]
  }

  function SetP2pAddrs(t: Topo, l: Link, env: Env): (u: Topo)
    requires l.P2pLink? && Known(t, l)
    ensures u.Keys == t.Keys
  {
    var t4 := SetP2pAddr(t, l, false, env.autonumber);
    if env.ipv6 then SetP2pAddr(t4, l, true, env.autonumber) else t4
  }

  /** The link's own configuration has addresses that the code takes. */
  predicate Acceptable(l: Link) {
    match l
    case DummyLink(_, conf) => WellVersioned(conf)
    case LanLink(_, _, _, conf) => WellVersioned(conf) && conf.ipv6.None?
    case P2pLink(_, _, _, _) => true
  }

  /** The node is not on the link's bridge with another interface. */
  predicate NetFree(t: Topo, l: Link)
    requires Known(t, l)
  {
    l.LanLink? && l.net in t[l.node].nets ==> t[l.node].nets[l.net] == l.conf.name
  }

  /** `add_link`, or `add_dummy`, and the addresses of a link; None when an assertion fails. */
  function ConnectOne(t: Topo, l: Link, env: Env): (r: Option<Topo>)
    requires Known(t, l)
    ensures r.Some? <==> Acceptable(l) && NetFree(t, l)
    ensures r.Some? ==> r.value.Keys == t.Keys
  {
    match l
    case DummyLink(node, conf) =>
      var h := DummyHost(t[node], conf);
      if h.Some? then Some(t[node := h.value]) else None
    case LanLink(net, brid, node, conf) =>
      var net4, net6 := BridgeInterface(brid, false).NetworkOf(), BridgeInterface(brid, true).NetworkOf();
      var h := LanHost(t[node], net, net4, net6, conf, env);
      if h.Some? then Some(t[node := h.value]) else None
    case P2pLink(_, _, _, _) =>
      Some(SetP2pAddrs(RegisterEnds(t, l), l, env))
  }

  function PutTwo(t: Topo, l: Link, h: Two): Topo
    requires l.P2pLink? && Known(t, l)
  {
    t[l.n1 := h.near][l.n2 := h.far]
  }

  lemma {:induction false} PutTwice(t: Topo, l: Link, h: Two, g: Two)
    requires l.P2pLink? && Known(t, l) && l.n1 != l.n2
    ensures PutTwo(PutTwo(t, l, h), l, g) == PutTwo(t, l, g)
    ensures PutTwo(t, l, h)[l.n1] == h.near && PutTwo(t, l, h)[l.n2] == h.far
  {
  }

  /** A p2p link between different nodes does to them what `set_p2p_addr` does to the two alone. */
  lemma {:induction false} ConnectIsP2pBoth(t: Topo, l: Link, env: Env)
    requires l.P2pLink? && Known(t, l) && l.n1 != l.n2
    ensures var h := P2pBoth(RegisterTwo(Two(t[l.n1], t[l.n2]), l.c1, l.c2), l.c1, l.c2, env);
            ConnectOne(t, l, env) == Some(PutTwo(t, l, h))
  {
    var h0 := RegisterTwo(Two(t[l.n1], t[l.n2]), l.c1, l.c2);
    var h4 := P2pFamily(h0, l.c1, l.c2, false, env.autonumber);
    assert RegisterEnds(t, l) == PutTwo(t, l, h0);
    PutTwice(t, l, h0, h4);
    FamilyIsP2p(PutTwo(t, l, h0), l, false, env.autonumber);
    if env.ipv6 {
      PutTwice(t, l, h4, P2pFamily(h4, l.c1, l.c2, true, env.autonumber));
      FamilyIsP2p(PutTwo(t, l, h4), l, true, env.autonumber);
    }
  }

  lemma {:induction false} FamilyIsP2p(t: Topo, l: Link, six: bool, autonumber: bool)
    requires l.P2pLink? && Known(t, l) && l.n1 != l.n2
    ensures var h := P2pFamily(Two(t[l.n1], t[l.n2]), l.c1, l.c2, six, autonumber);
            SetP2pAddr(t, l, six, autonumber) == PutTwo(t, l, h)
  {
  }

  /** A link between two interfaces of one node. */
  lemma {:induction false} ConnectIsP2pSelf(t: Topo, l: Link, env: Env)
    requires l.P2pLink? && Known(t, l) && l.n1 == l.n2
    ensures var h := SelfBoth(Register(Register(t[l.n1], l.c1.name), l.c2.name), l.c1, l.c2, env);
            ConnectOne(t, l, env) == Some(t[l.n1 := h])
  {
    var t0 := RegisterEnds(t, l);
    var h0 := Register(Register(t[l.n1], l.c1.name), l.c2.name);
    assert t0 == t[l.n1 := h0];
    var h4 := P2pSelf(h0, l.c1, l.c2, false, env.autonumber);
    var t4 := SetP2pAddr(t0, l, false, env.autonumber);
    assert t4 == t[l.n1 := h4];
    if env.ipv6 {
      assert SetP2pAddr(t4, l, true, env.autonumber)
          == t[l.n1 := P2pSelf(h4, l.c1, l.c2, true, env.autonumber)];
    }
  }

  /** The nodes after a p2p link, of one node or of two. */
  function LinkedNodes(t: Topo, l: Link, env: Env): Topo
    requires l.P2pLink? && Known(t, l)
  {
    if l.n1 == l.n2 then
      t[l.n1 := SelfBoth(Register(Register(t[l.n1], l.c1.name), l.c2.name), l.c1, l.c2, env)]
    else
      PutTwo(t, l, P2pBoth(RegisterTwo(Two(t[l.n1], t[l.n2]), l.c1, l.c2), l.c1, l.c2, env))
  }

  lemma {:induction false} ConnectIsLinkedNodes(t: Topo, l: Link, env: Env)
    requires l.P2pLink? && Known(t, l)
    ensures ConnectOne(t, l, env) == Some(LinkedNodes(t, l, env))
  {
    if l.n1 == l.n2 {
      ConnectIsP2pSelf(t, l, env);
    } else {
      ConnectIsP2pBoth(t, l, env);
    }
  }

  predicate AllKnown(t: Topo, links: seq<Link>) {
    forall l :: l in links ==> Known(t, l)
  }

  /** The links in the order they are added; None as soon as one fails. */
  function Connect(t: Topo, links: seq<Link>, env: Env): (r: Option<Topo>)
    requires AllKnown(t, links)
    ensures r.Some? ==> r.value.Keys == t.Keys
  {
    if links == [] then
      Some(t)
    else
      var before := Connect(t, links[..|links| - 1], env);
      if before.None? then None else ConnectOne(before.value, links[|links| - 1], env)
  }

  /** An interface: the node's name and the interface's. */
  datatype End = End(node: string, ifname: string)

  function EndsOf(l: Link): seq<End> {
    match l
    case DummyLink(node, conf) => [End(node, conf.name)]
    case LanLink(_, _, node, conf) => [End(node, conf.name)]
    case P2pLink(n1, c1, n2, c2) => [End(n1, c1.name), End(n2, c2.name)]
  }

  function AllEnds(links: seq<Link>): seq<End> {
    if links == [] then [] else AllEnds(links[..|links| - 1]) + EndsOf(links[|links| - 1])
  }

  predicate Distinct<T(==)>(s: seq<T>) {
    forall i, j :: 0 <= i < j < |s| ==> s[i] != s[j]
  }

  function Own(t: Topo, e: End, six: bool): Option<Interface> {
    if e.node in t then Lookup(t[e.node].own, e.ifname).Get(six) else None
  }

  function Peer(t: Topo, e: End, six: bool): Option<Interface> {
    if e.node in t then Lookup(t[e.node].peer, e.ifname).Get(six) else None
  }

  predicate HostVersioned(h: Host) {
    !h.next4.v6 && h.next6.v6
  }

  // ---------- the interface tables ----------

  /** All interfaces in the tables. */
  function Registered(t: Topo): set<End> {
    set n, ifname | n in t && ifname in t[n].own :: End(n, ifname)
  }

  /** The node's bridges after the link. */
  function NetsAfter(h: Host, l: Link, node: string): map<string, string> {
    if l.LanLink? && l.node == node then h.nets[l.net := l.conf.name] else h.nets
  }

  /** The two nodes have the same interfaces, bridges and identifier. */
  predicate SameTables(h: Host, g: Host) {
    g.own.Keys == h.own.Keys && g.nets == h.nets && g.id == h.id
  }

  lemma {:induction false} PlaceKeepsTables(h: Host, ifname: string, ia: Option<Interface>, other: Option<Interface>)
    requires ifname in h.own
    ensures SameTables(h, Place(h, ifname, ia, other))
  {
  }

  lemma {:induction false} FamilyKeepsTables(t: Topo, l: Link, six: bool, autonumber: bool)
    requires l.P2pLink? && Known(t, l) && l.c1.name in t[l.n1].own && l.c2.name in t[l.n2].own
    ensures var u := SetP2pAddr(t, l, six, autonumber);
            u.Keys == t.Keys && forall n :: n in t ==> SameTables(t[n], u[n])
  {
    var p := PickP2p(t[l.n1], l.c1, l.c2, six, autonumber);
    PlaceKeepsTables(p.host, l.c1.name, p.near, p.far);
    var t1 := t[l.n1 := Place(p.host, l.c1.name, p.near, p.far)];
    PlaceKeepsTables(t1[l.n2], l.c2.name, p.far, p.near);
  }

  /** The interfaces of the node that the link is on. */
  function NamesOn(l: Link, node: string): set<string> {
    match l
    case DummyLink(n, conf) => if n == node then {conf.name} else {}
    case LanLink(_, _, n, conf) => if n == node then {conf.name} else {}
    case P2pLink(n1, c1, n2, c2) => (if n1 == node then {c1.name} else {}) + if n2 == node then {c2.name} else {}
  }

  /** The link's interfaces of the node, and its bridge, are in the node's tables afterwards. */
  predicate TablesAfter(h: Host, g: Host, l: Link, node: string) {
    g.own.Keys == h.own.Keys + NamesOn(l, node) && g.nets == NetsAfter(h, l, node) && g.id == h.id
  }

  lemma {:induction false} DummyRegisters(t: Topo, l: Link, env: Env, n: string)
    requires l.DummyLink? && Known(t, l) && ConnectOne(t, l, env).Some? && n in t
    ensures TablesAfter(t[n], ConnectOne(t, l, env).value[n], l, n)
  {
    var h := Register(t[l.node], l.conf.name);
    PlaceKeepsTables(h, l.conf.name, l.conf.ip, None);
    PlaceKeepsTables(Place(h, l.conf.name, l.conf.ip, None), l.conf.name, l.conf.ipv6, None);
  }

  lemma {:induction false} LanRegisters(t: Topo, l: Link, env: Env, n: string)
    requires l.LanLink? && Known(t, l) && ConnectOne(t, l, env).Some? && n in t
    ensures TablesAfter(t[n], ConnectOne(t, l, env).value[n], l, n)
  {
  }

  lemma {:induction false} P2pRegisters(t: Topo, l: Link, env: Env, n: string)
    requires l.P2pLink? && Known(t, l) && n in t
    ensures TablesAfter(t[n], SetP2pAddrs(RegisterEnds(t, l), l, env)[n], l, n)
  {
    var t0 := RegisterEnds(t, l);
    assert TablesAfter(t[n], t0[n], l, n);
    FamilyKeepsTables(t0, l, false, env.autonumber);
    var t4 := SetP2pAddr(t0, l, false, env.autonumber);
    assert SameTables(t0[n], t4[n]);
    if env.ipv6 {
      FamilyKeepsTables(t4, l, true, env.autonumber);
      assert SameTables(t4[n], SetP2pAddr(t4, l, true, env.autonumber)[n]);
    }
  }

  lemma {:induction false} NamesAreEnds(l: Link, e: End)
    ensures e.ifname in NamesOn(l, e.node) <==> e in EndsOf(l)
  {
  }

  /** A link registers its ends and, if it is a LAN link, its bridge, and nothing else. */
  lemma {:induction false} ConnectRegisters(t: Topo, l: Link, env: Env)
    requires Known(t, l) && ConnectOne(t, l, env).Some?
    ensures var u := ConnectOne(t, l, env).value;
            && (forall e :: e in Registered(u) <==> e in Registered(t) || e in EndsOf(l))
            && (forall n :: n in t ==> TablesAfter(t[n], u[n], l, n))
  {
    var u := ConnectOne(t, l, env).value;
    forall n | n in t
      ensures TablesAfter(t[n], u[n], l, n)
    {
      match l
      case DummyLink(_, _) => DummyRegisters(t, l, env, n);
      case LanLink(_, _, _, _) => LanRegisters(t, l, env, n);
      case P2pLink(_, _, _, _) => P2pRegisters(t, l, env, n);
    }
    forall e
      ensures e in Registered(u) <==> e in Registered(t) || e in EndsOf(l)
    {
      NamesAreEnds(l, e);
      assert e.node in t ==> TablesAfter(t[e.node], u[e.node], l, e.node);
      KnownEnds(t, l);
    }
  }

  lemma {:induction false} KnownEnds(t: Topo, l: Link)
    requires Known(t, l)
    ensures forall e :: e in EndsOf(l) ==> e.node in t
  {
  }
}
