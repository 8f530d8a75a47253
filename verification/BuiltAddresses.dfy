/** The address of every connection after a build: the configured one, and otherwise the one that
    its place in the configuration gives it. */
module BuiltAddresses {
  import opened Options
  import opened Addresses
  import opened Topology
  import opened PeerTables
  import opened Tables
  import opened BuildPlan
  import opened Connections
  import opened LoopTrace
  import opened Pairings
  import opened LinksOnce

  // ---------- what one link places ----------

  /** The ends of a p2p link have their configured addresses of the family. */
  predicate Placed(u: Topo, l: Link, s: bool)
    requires l.P2pLink?
  {
    && (l.c1.Get(s).Some? ==> Own(u, EndsOf(l)[0], s) == l.c1.Get(s))
    && (l.c2.Get(s).Some? ==> Own(u, EndsOf(l)[1], s) == l.c2.Get(s))
  }

  lemma {:induction false} FamilyPlaces(t: Topo, l: Link, six: bool, autonumber: bool)
    requires l.P2pLink? && Known(t, l) && LinkVersioned(l) && TopoVersioned(t)
    requires EndsOf(l)[0] == EndsOf(l)[1] ==> l.c1 == l.c2
    ensures var u := SetP2pAddr(t, l, six, autonumber);
            && TopoVersioned(u)
            && Placed(u, l, six)
            && (forall e, s :: e !in EndsOf(l) || s != six ==> SameAt(t, u, e, s))
  {
    var e1, e2 := EndsOf(l)[0], EndsOf(l)[1];
    var p := PickP2p(t[l.n1], l.c1, l.c2, six, autonumber);
    var t1 := t[l.n1 := Place(p.host, l.c1.name, p.near, p.far)];
    PlaceStep(t, l.n1, p.host, l.c1.name, p.near, p.far, six);
    PlaceStep(t1, l.n2, t1[l.n2], l.c2.name, p.far, p.near, six);
    var u := SetP2pAddr(t, l, six, autonumber);
    forall e, s | e !in EndsOf(l) || s != six
      ensures SameAt(t, u, e, s)
    {
      assert e1 in EndsOf(l) && e2 in EndsOf(l);
      assert SameAt(t, t1, e, s) && SameAt(t1, u, e, s);
    }
    if e1 != e2 {
      assert SameAt(t1, u, e1, six);
    }
  }

  /** IPv4, and IPv6 when it is enabled. */
  lemma {:induction false} AddrsPlace(t: Topo, l: Link, env: Env)
    requires l.P2pLink? && Known(t, l) && LinkVersioned(l) && TopoVersioned(t)
    requires EndsOf(l)[0] == EndsOf(l)[1] ==> l.c1 == l.c2
    ensures var u := SetP2pAddrs(t, l, env);
            && TopoVersioned(u) && SameBut(t, u, EndsOf(l))
            && Placed(u, l, false) && (env.ipv6 ==> Placed(u, l, true))
  {
    FamilyPlaces(t, l, false, env.autonumber);
    var t4 := SetP2pAddr(t, l, false, env.autonumber);
    if env.ipv6 {
      FamilyPlaces(t4, l, true, env.autonumber);
      var u := SetP2pAddr(t4, l, true, env.autonumber);
      assert SameAt(t4, u, EndsOf(l)[0], false) && SameAt(t4, u, EndsOf(l)[1], false);
      SameThrough(t, t4, u, EndsOf(l));
    }
  }

  lemma {:induction false} P2pPlaces(t: Topo, l: Link, env: Env)
    requires l.P2pLink? && Known(t, l) && LinkVersioned(l) && TopoVersioned(t)
    requires EndsOf(l)[0] == EndsOf(l)[1] ==> l.c1 == l.c2
    ensures var u := ConnectOne(t, l, env).value;
            && TopoVersioned(u) && SameBut(t, u, EndsOf(l))
            && Placed(u, l, false) && (env.ipv6 ==> Placed(u, l, true))
  {
    var t0 := RegisterEnds(t, l);
    RegisterSame(t, l);
    AddrsPlace(t0, l, env);
    SameThrough(t, t0, SetP2pAddrs(t0, l, env), EndsOf(l));
  }

  /** The node's interface has these addresses, if they are not None, and no other peer. */
  predicate Local(t: Topo, u: Topo, e: End, a4: Option<Interface>, a6: Option<Interface>) {
    && Own(u, e, false) == (if a4.Some? then a4 else Own(t, e, false))
    && Own(u, e, true) == (if a6.Some? then a6 else Own(t, e, true))
    && Peer(u, e, false) == Peer(t, e, false) && Peer(u, e, true) == Peer(t, e, true)
  }

  lemma {:induction false} PlacedLocal(t: Topo, node: string, h: Host, c: Conf,
                                       a4: Option<Interface>, a6: Option<Interface>)
    requires node in t && h.peer == t[node].peer
    requires forall ifname, s :: Lookup(h.own, ifname).Get(s) == Lookup(t[node].own, ifname).Get(s)
    requires (a4.Some? ==> !a4.value.v6) && (a6.Some? ==> a6.value.v6)
    ensures var u := t[node := Place(Place(h, c.name, a4, None), c.name, a6, None)];
            Local(t, u, End(node, c.name), a4, a6)
  {
    var e := End(node, c.name);
    var g := Place(h, c.name, a4, None);
    var t0, t1 := t[node := h], t[node := g];
    PlaceStep(t0, node, h, c.name, a4, None, false);
    assert t1 == t0[node := g];
    PlaceStep(t1, node, g, c.name, a6, None, true);
    var u := t[node := Place(g, c.name, a6, None)];
    assert u == t1[node := Place(g, c.name, a6, None)];
    assert SameAt(t, t0, e, false) && SameAt(t, t0, e, true);
    assert SameAt(t0, t1, e, true) && SameAt(t1, u, e, false);
  }

  /** An unconnected interface gets what is configured and nothing else. */
  lemma {:induction false} DummyPlaces(t: Topo, l: Link, env: Env)
    requires l.DummyLink? && Known(t, l) && ConnectOne(t, l, env).Some?
    ensures Local(t, ConnectOne(t, l, env).value, EndsOf(l)[0], l.conf.ip, l.conf.ipv6)
  {
    PlacedLocal(t, l.node, Register(t[l.node], l.conf.name), l.conf, l.conf.ip, l.conf.ipv6);
  }

  /** An address on the bridge with this identifier. */
  function OnBridge4(brid: nat, id: nat): Interface {
    Interface(false, IPv4(10, brid / 256, brid % 256, 0) + id, 256)
  }

  function OnBridge6(brid: nat, id: nat): Interface {
    Interface(true, IPv6(0xfc00, 0, 0, brid, 0, 0, 0, id), 18446744073709551616)
  }

  /** An interface on a bridge gets the configured IPv4 address, and otherwise automatic ones. */
  lemma {:induction false} LanPlaces(t: Topo, l: Link, env: Env)
    requires l.LanLink? && Known(t, l) && ConnectOne(t, l, env).Some? && t[l.node].id < 0x7FFF
    ensures var id := t[l.node].id;
            Local(t, ConnectOne(t, l, env).value, EndsOf(l)[0],
                  if l.conf.ip.Some? then l.conf.ip else if env.autonumber then Some(OnBridge4(l.brid, id)) else None,
                  if env.ipv6 && env.autonumber then Some(OnBridge6(l.brid, id)) else None)
  {
    var r := RegisterNetwork(Register(t[l.node], l.conf.name), l.net, l.conf.name).value;
    var net4, net6 := BridgeInterface(l.brid, false).NetworkOf(), BridgeInterface(l.brid, true).NetworkOf();
    LanWritten(l.brid, r.id);
    PlacedLocal(t, l.node, r, l.conf, LanAddr4(r.id, net4, l.conf, env), LanAddr6(r.id, net6, env));
  }

  // ---------- what a build places ----------

  /** What the tables hold for a connection that is in them, from nodes without addresses. */
  predicate Settled(t: Topo, u: Topo, cfg: Config, p: Port)
    requires p.node in t
  {
    var e, c, env := p.AsEnd(), p.conn, cfg.env;
    if c.to.None? then
      Own(u, e, false) == c.ip && Own(u, e, true) == c.ipv6 && Peer(u, e, false) == None && Peer(u, e, true) == None
    else if ToNode(cfg, p) then
      && (c.ip.Some? ==> Own(u, e, false) == c.ip)
      && (c.ipv6.Some? && env.ipv6 ==> Own(u, e, true) == c.ipv6)
    else
      var brid, id := cfg.switches[c.to.value], t[p.node].id;
      && Own(u, e, false) == (if c.ip.Some? then c.ip else if env.autonumber then Some(OnBridge4(brid, id)) else None)
      && Own(u, e, true) == (if env.ipv6 && env.autonumber then Some(OnBridge6(brid, id)) else None)
      && Peer(u, e, false) == None && Peer(u, e, true) == None
  }

  predicate Unused(u: Topo, e: End) {
    Blank(u, e, false) && Blank(u, e, true)
  }

  /** After `n` connections every connection is settled if it is in the tables, and otherwise has no
      addresses; those that do not lead to nodes are in the tables only when it was their turn. */
  ghost predicate AllSettled(t: Topo, u: Topo, cfg: Config, ports: seq<Port>, n: nat)
    requires NodesIn(ports, t)
  {
    && TopoVersioned(u) && u.Keys == t.Keys
    && (forall m :: m in t ==> u[m].id == t[m].id)
    && (forall i :: 0 <= i < |ports| ==> SettledSoFar(t, u, cfg, ports[i], i < n))
  }

  predicate SettledSoFar(t: Topo, u: Topo, cfg: Config, p: Port, visited: bool)
    requires p.node in t
  {
    if p.AsEnd() in Registered(u) then Settled(t, u, cfg, p) && (ToNode(cfg, p) || visited)
    else Unused(u, p.AsEnd()) && !visited
  }

  predicate PortsVersioned(ports: seq<Port>) {
    forall i :: 0 <= i < |ports| ==> ports[i].conn.Versioned()
  }

  lemma {:induction false} SettledStays(t: Topo, u: Topo, v: Topo, cfg: Config, p: Port)
    requires p.node in t && SameAt(u, v, p.AsEnd(), false) && SameAt(u, v, p.AsEnd(), true)
    ensures Settled(t, u, cfg, p) <==> Settled(t, v, cfg, p)
    ensures Unused(u, p.AsEnd()) <==> Unused(v, p.AsEnd())
  {
  }

  /** The connection whose turn it is, when it does not lead to a node. */
  lemma {:induction false} SettlesOwn(cfg: Config, t: Topo, b: Build, p: Port)
    requires b.Ok? && Ready(cfg, b.topo) && p.node in b.topo && p.node in t && !ToNode(cfg, p)
    requires b.topo[p.node].id == t[p.node].id < 0x7FFF && TopoVersioned(b.topo)
    requires Unused(b.topo, p.AsEnd()) && Visit(cfg, b, p).Ok?
    ensures var u := Visit(cfg, b, p).topo;
            TopoVersioned(u) && Settled(t, u, cfg, p) && SameBut(b.topo, u, [p.AsEnd()])
  {
    VisitAdds(cfg, b, p);
    AcceptedWants(cfg, p);
    var l := WantedLink(cfg, p).link;
    if p.conn.to.None? {
      DummyPlaces(b.topo, l, cfg.env);
      DummyStep(b.topo, l, cfg.env);
    } else {
      LanPlaces(b.topo, l, cfg.env);
      LanStep(b.topo, l, cfg.env);
    }
  }

  /** A connection that adds a link to another node, or the node itself. */
  lemma {:induction false} SettlesPair(cfg: Config, ports: seq<Port>, t: Topo, b: Build, p: Port) returns (q: Port)
    requires b.Ok? && Ready(cfg, b.topo) && p.node in b.topo && NodesIn(ports, t)
    requires HasPorts(cfg, ports) && WellNamed(cfg, ports) && PortsVersioned(ports) && p in ports
    requires ToNode(cfg, p) && p.AsEnd() !in Registered(b.topo) && TopoVersioned(b.topo) && Visit(cfg, b, p).Ok?
    ensures var u := Visit(cfg, b, p).topo;
            && q in ports && ToNode(cfg, q) && TopoVersioned(u) && SameBut(b.topo, u, [p.AsEnd(), q.AsEnd()])
            && p.node in t && q.node in t && Settled(t, u, cfg, p) && Settled(t, u, cfg, q)
            && EndsOf(WantedLink(cfg, p).link) == [p.AsEnd(), q.AsEnd()]
  {
    VisitAdds(cfg, b, p);
    q := WantedIsMatched(cfg, ports, p);
    MatchedWants(cfg, p, q);
    var l := WantedLink(cfg, p).link;
    var i :| 0 <= i < |ports| && ports[i] == p;
    var j :| 0 <= j < |ports| && ports[j] == q;
    SameEnd(cfg, ports, i, j);
    assert p.AsEnd() == q.AsEnd() ==> p == q;
    P2pPlaces(b.topo, l, cfg.env);
    SettledByPlaces(t, Visit(cfg, b, p).topo, cfg, l, p, q);
  }

  lemma {:induction false} SettledByPlaces(t: Topo, u: Topo, cfg: Config, l: Link, p: Port, q: Port)
    requires l == P2pLink(p.node, p.conn.AsConf(), q.node, q.conn.AsConf())
    requires ToNode(cfg, p) && ToNode(cfg, q) && p.node in t && q.node in t
    requires Placed(u, l, false) && (cfg.env.ipv6 ==> Placed(u, l, true))
    ensures Settled(t, u, cfg, p) && Settled(t, u, cfg, q)
  {
  }

  lemma {:induction false} SettledVisitOwn(cfg: Config, ports: seq<Port>, t: Topo, n: nat, b: Build)
    requires n < |ports| && NodesIn(ports, t) && HasPorts(cfg, ports) && WellNamed(cfg, ports)
    requires b.Ok? && Ready(cfg, b.topo) && AllSettled(t, b.topo, cfg, ports, n) && IdsBounded(t)
    requires !ToNode(cfg, ports[n]) && Visit(cfg, b, ports[n]).Ok?
    ensures AllSettled(t, Visit(cfg, b, ports[n]).topo, cfg, ports, n + 1)
  {
    var p := ports[n];
    assert SettledSoFar(t, b.topo, cfg, p, false);
    SettlesOwn(cfg, t, b, p);
    VisitAdds(cfg, b, p);
    AcceptedWants(cfg, p);
    AdditionSettled(cfg, ports, t, n, b.topo, Visit(cfg, b, p).topo, WantedLink(cfg, p).link, p);
  }

  lemma {:induction false} SettledVisitPair(cfg: Config, ports: seq<Port>, t: Topo, n: nat, b: Build)
    requires n < |ports| && NodesIn(ports, t) && HasPorts(cfg, ports) && WellNamed(cfg, ports) && PortsVersioned(ports)
    requires b.Ok? && Ready(cfg, b.topo) && AllSettled(t, b.topo, cfg, ports, n)
    requires ToNode(cfg, ports[n]) && ports[n].AsEnd() !in Registered(b.topo) && Visit(cfg, b, ports[n]).Ok?
    ensures AllSettled(t, Visit(cfg, b, ports[n]).topo, cfg, ports, n + 1)
  {
    var p := ports[n];
    assert p in ports;
    var q := SettlesPair(cfg, ports, t, b, p);
    VisitAdds(cfg, b, p);
    AdditionSettled(cfg, ports, t, n, b.topo, Visit(cfg, b, p).topo, WantedLink(cfg, p).link, q);
  }

  lemma {:induction false} SameIds(t: Topo, u: Topo, v: Topo, l: Link)
    requires EnteredOne(u, v, l) && u.Keys == t.Keys
    ensures forall m :: m in t ==> v[m].id == u[m].id
  {
    forall m | m in t
      ensures v[m].id == u[m].id
    {
      assert TablesAfter(u[m], v[m], l, m);
    }
  }

  lemma {:induction false} TwoEnds(u: Topo, v: Topo, l: Link, e: End, f: End)
    requires EndsOf(l) == [e, f] || (e == f && EndsOf(l) == [e])
    requires SameBut(u, v, EndsOf(l)) && EnteredOne(u, v, l)
    ensures SameBut(u, v, [e, f])
    ensures forall g :: g in Registered(v) <==> g in Registered(u) || g == e || g == f
  {
    assert forall g :: g in EndsOf(l) <==> g == e || g == f;
  }

  /** The tables after the link, for the connections at its ends. */
  lemma {:induction false} AdditionSettled(cfg: Config, ports: seq<Port>, t: Topo, n: nat, u: Topo, v: Topo,
                                           l: Link, q: Port)
    requires n < |ports| && NodesIn(ports, t) && WellNamed(cfg, ports) && AllSettled(t, u, cfg, ports, n)
    requires q in ports && (q == ports[n] || ToNode(cfg, q)) && TopoVersioned(v) && EnteredOne(u, v, l)
    requires EndsOf(l) == [ports[n].AsEnd(), q.AsEnd()] || (q == ports[n] && EndsOf(l) == [q.AsEnd()])
    requires SameBut(u, v, EndsOf(l))
    requires Settled(t, v, cfg, ports[n]) && q.node in t && Settled(t, v, cfg, q)
    ensures AllSettled(t, v, cfg, ports, n + 1)
  {
    SameIds(t, u, v, l);
    TwoEnds(u, v, l, ports[n].AsEnd(), q.AsEnd());
    SettledMore(cfg, ports, t, n, u, v, q);
  }

  /** One connection of the loop. */
  lemma {:induction false} SettledVisit(cfg: Config, ports: seq<Port>, t: Topo, n: nat, b: Build)
    requires n < |ports| && NodesIn(ports, t) && HasPorts(cfg, ports) && WellNamed(cfg, ports) && PortsVersioned(ports)
    requires b.Ok? && Ready(cfg, b.topo) && AllSettled(t, b.topo, cfg, ports, n) && IdsBounded(t)
    requires Visit(cfg, b, ports[n]).Ok?
    ensures AllSettled(t, Visit(cfg, b, ports[n]).topo, cfg, ports, n + 1)
  {
    if !ToNode(cfg, ports[n]) {
      SettledVisitOwn(cfg, ports, t, n, b);
    } else if ports[n].AsEnd() in Registered(b.topo) {
      SettledSkip(cfg, ports, t, n, b.topo);
    } else {
      SettledVisitPair(cfg, ports, t, n, b);
    }
  }

  lemma {:induction false} SettledSkip(cfg: Config, ports: seq<Port>, t: Topo, n: nat, u: Topo)
    requires n < |ports| && NodesIn(ports, t) && AllSettled(t, u, cfg, ports, n)
    requires ports[n].AsEnd() in Registered(u)
    ensures AllSettled(t, u, cfg, ports, n + 1)
  {
    forall i | 0 <= i < |ports|
      ensures SettledSoFar(t, u, cfg, ports[i], i < n + 1)
    {
      assert SettledSoFar(t, u, cfg, ports[i], i < n);
    }
  }

  /** The link's ends, `ports[n]` and `q`, are settled; the other connections are as they were. */
  lemma {:induction false} SettledMore(cfg: Config, ports: seq<Port>, t: Topo, n: nat, u: Topo, v: Topo, q: Port)
    requires n < |ports| && NodesIn(ports, t) && WellNamed(cfg, ports) && AllSettled(t, u, cfg, ports, n)
    requires q in ports && (q == ports[n] || ToNode(cfg, q)) && v.Keys == u.Keys && TopoVersioned(v)
    requires forall m :: m in t ==> v[m].id == u[m].id
    requires SameBut(u, v, [ports[n].AsEnd(), q.AsEnd()])
    requires forall e :: e in Registered(v) <==> e in Registered(u) || e == ports[n].AsEnd() || e == q.AsEnd()
    requires Settled(t, v, cfg, ports[n]) && q.node in t && Settled(t, v, cfg, q)
    ensures AllSettled(t, v, cfg, ports, n + 1)
  {
    var j :| 0 <= j < |ports| && ports[j] == q;
    forall i | 0 <= i < |ports|
      ensures SettledSoFar(t, v, cfg, ports[i], i < n + 1)
    {
      var e := ports[i].AsEnd();
      SameEnd(cfg, ports, i, n);
      SameEnd(cfg, ports, i, j);
      assert SettledSoFar(t, u, cfg, ports[i], i < n);
      if i != n && i != j {
        assert e !in [ports[n].AsEnd(), q.AsEnd()];
        SettledStays(t, u, v, cfg, ports[i]);
      }
    }
  }

  /** Nodes without interfaces, of known versions. */
  ghost predicate Unaddressed(t: Topo) {
    Bare(t) && TopoVersioned(t) && IdsBounded(t) && forall n :: n in t ==> t[n].peer == map[]
  }

  lemma {:induction false} SettledStart(cfg: Config, ports: seq<Port>, t: Topo)
    requires NodesIn(ports, t) && Unaddressed(t)
    ensures AllSettled(t, t, cfg, ports, 0)
  {
  }

  lemma {:induction false} SettledNext(cfg: Config, ports: seq<Port>, t: Topo, loop: nat -> Build, n: nat)
    requires HasPorts(cfg, ports) && WellNamed(cfg, ports) && PortsVersioned(ports) && IsLoop(cfg, ports, t, loop)
    requires n < |ports| && IdsBounded(t) && loop(n + 1).Ok?
    ensures loop(n).Ok?
    ensures AllSettled(t, loop(n).topo, cfg, ports, n) ==> AllSettled(t, loop(n + 1).topo, cfg, ports, n + 1)
  {
    var b := VisitAll(cfg, ports, t, n);
    assert b == loop(n) && VisitAll(cfg, ports, t, n + 1) == loop(n + 1);
    if AllSettled(t, b.topo, cfg, ports, n) {
      SettledVisit(cfg, ports, t, n, b);
    }
  }

  lemma {:induction false} SettledLoop(cfg: Config, ports: seq<Port>, t: Topo, loop: nat -> Build, n: nat)
    requires HasPorts(cfg, ports) && WellNamed(cfg, ports) && PortsVersioned(ports) && IsLoop(cfg, ports, t, loop)
    requires n <= |ports| && Unaddressed(t) && loop(n).Ok?
    ensures AllSettled(t, loop(n).topo, cfg, ports, n)
  {
    if n == 0 {
      assert VisitAll(cfg, ports, t, 0) == loop(0);
      SettledStart(cfg, ports, t);
    } else {
      SettledNext(cfg, ports, t, loop, n - 1);
      SettledLoop(cfg, ports, t, loop, n - 1);
    }
  }

  /** After every build that gets through, whatever its links are: an unconnected interface has just
      its configured addresses, one on a bridge its configured or the bridge's automatic ones, and
      one to a node its configured addresses of the enabled families. */
  lemma {:induction false} BuiltAsConfigured(cfg: Config, t: Topo)
    requires Fresh(cfg, t) && Unaddressed(t) && PortsVersioned(Ports(cfg.hosts)) && BuildAll(cfg, t).Ok?
    ensures forall i :: 0 <= i < |Ports(cfg.hosts)| ==> Settled(t, BuildAll(cfg, t).topo, cfg, Ports(cfg.hosts)[i])
  {
    var ports := Ports(cfg.hosts);
    PortsHasPorts(cfg);
    var loop := LoopOf(cfg, ports, t);
    assert VisitAll(cfg, ports, t, |ports|) == loop(|ports|);
    SettledLoop(cfg, ports, t, loop, |ports|);
    forall i | 0 <= i < |ports|
      ensures Settled(t, BuildAll(cfg, t).topo, cfg, ports[i])
    {
      assert SettledSoFar(t, BuildAll(cfg, t).topo, cfg, ports[i], true);
    }
  }
}
