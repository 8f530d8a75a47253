/** What a whole build comes to: the order in which the connection loop adds its links gives the
    nodes the addresses of the plan. */
module WholeBuild {
  import opened Options
  import opened Addresses
  import opened Topology
  import opened PeerTables
  import opened Tables
  import opened BuildPlan
  import opened BuiltAddresses
  import opened Connections
  import opened LoopTrace
  import opened Pairings
  import opened LinksOnce

  /** What the theorem on links asks of a configuration. */
  ghost predicate Buildable(cfg: Config, t: Topo) {
    var ports := Ports(cfg.hosts);
    Fresh(cfg, t) && Accepted(cfg, ports) && exists partner :: Pairing(cfg, ports, partner)
  }

  lemma {:induction false} BuildIsComplete(cfg: Config, t: Topo)
    requires Buildable(cfg, t)
    ensures Complete(cfg, Ports(cfg.hosts), t, BuildAll(cfg, t))
  {
    PortsHasPorts(cfg);
    EachOnceIffPaired(cfg, t);
    OnceIsComplete(cfg, Ports(cfg.hosts), t);
  }

  // ---------- the two ends of a link ----------

  /** The link has the configuration of the connections at its ends. */
  lemma {:induction false} LinkConfs(cfg: Config, ports: seq<Port>, t: Topo, b: Build, l: Topology.Link)
      returns (x: nat, y: nat)
    requires Complete(cfg, ports, t, b) && l in b.links
    ensures x < |ports| && y < |ports| && WantedLink(cfg, ports[x]) == Link(l)
    ensures if l.P2pLink? then l.c1 == ports[x].conn.AsConf() && l.c2 == ports[y].conn.AsConf() && l.n1 == ports[x].node
            else l.conf == ports[x].conn.AsConf() && l.node == ports[x].node
    ensures l.LanLink? ==> !ToNode(cfg, ports[x]) && ports[x].conn.to == Some(l.net) && l.brid == cfg.switches[l.net]
    ensures l.P2pLink? ==> ToNode(cfg, ports[x]) && ToNode(cfg, ports[y])
    ensures l.DummyLink? ==> ports[x].conn.to.None?
  {
    x :| 0 <= x < |ports| && WantedLink(cfg, ports[x]) == Link(l);
    y := x;
    if ToNode(cfg, ports[x]) {
      var q := WantedIsMatched(cfg, ports, ports[x]);
      MatchedWants(cfg, ports[x], q);
      y :| 0 <= y < |ports| && ports[y] == q;
    } else {
      AcceptedWants(cfg, ports[x]);
    }
  }

  lemma {:induction false} LinksVersioned(cfg: Config, ports: seq<Port>, t: Topo, b: Build)
    requires Complete(cfg, ports, t, b) && PortsVersioned(ports)
    ensures forall l :: l in b.links ==> LinkVersioned(l)
  {
    forall l | l in b.links
      ensures LinkVersioned(l)
    {
      var x, y := LinkConfs(cfg, ports, t, b, l);
    }
  }

  lemma {:induction false} AllUnused(t: Topo)
    requires Unaddressed(t)
    ensures forall e, s :: Blank(t, e, s)
  {
  }

  /** A build that can be done gets through, and at the end of each of its p2p links are the
      configured or two neighbouring automatic addresses, and those of the other end as the peer's. */
  lemma {:induction false} BuiltPeersAgree(cfg: Config, t: Topo)
    requires Buildable(cfg, t) && Unaddressed(t) && PortsVersioned(Ports(cfg.hosts))
    ensures var b := BuildAll(cfg, t);
            EachOnce(Ports(cfg.hosts), b) && AllAgree(t, b.topo, b.links, cfg.env)
  {
    var ports, b := Ports(cfg.hosts), BuildAll(cfg, t);
    BuildIsComplete(cfg, t);
    EndsDistinct(cfg, ports, t, b);
    LinksVersioned(cfg, ports, t, b);
    AllUnused(t);
    PeersAgree(t, b.links, cfg.env);
  }

  // ---------- automatic addresses ----------

  /** The connections of a node to nodes, among the first `n`. */
  function P2pConns(cfg: Config, ports: seq<Port>, node: string, n: nat): nat
    requires n <= |ports|
  {
    if n == 0 then 0
    else P2pConns(cfg, ports, node, n - 1) + if ports[n - 1].node == node && ToNode(cfg, ports[n - 1]) then 1 else 0
  }

  lemma {:induction false} SourcedVisit(cfg: Config, b: Build, p: Port, node: string)
    requires b.Ok? && Ready(cfg, b.topo) && p.node in b.topo && Visit(cfg, b, p).Ok?
    ensures Sourced(Visit(cfg, b, p).links, node) <= Sourced(b.links, node)
              + if p.node == node && ToNode(cfg, p) then 1 else 0
  {
    if !ToNode(cfg, p) || p.AsEnd() !in Registered(b.topo) {
      VisitAdds(cfg, b, p);
      SourcedAppend(b.links, WantedLink(cfg, p).link);
      WantedSource(cfg, p, node);
    }
  }

  lemma {:induction false} WantedSource(cfg: Config, p: Port, node: string)
    requires WantedLink(cfg, p).Link?
    ensures Uses(WantedLink(cfg, p).link, node) == if p.node == node && ToNode(cfg, p) then 1 else 0
  {
  }

  lemma {:induction false} SourcedNext(cfg: Config, ports: seq<Port>, t: Topo, loop: nat -> Build, n: nat, node: string)
    requires IsLoop(cfg, ports, t, loop) && n < |ports| && loop(n).Ok? && loop(n + 1).Ok?
    ensures Sourced(loop(n + 1).links, node) <= Sourced(loop(n).links, node)
              + if ports[n].node == node && ToNode(cfg, ports[n]) then 1 else 0
  {
    var b := VisitAll(cfg, ports, t, n);
    assert b == loop(n) && VisitAll(cfg, ports, t, n + 1) == loop(n + 1);
    assert b.topo.Keys == t.Keys;
    SourcedVisit(cfg, b, ports[n], node);
  }

  /** A node sources no more links than it has connections to nodes. */
  lemma {:induction false} SourcedBound(cfg: Config, ports: seq<Port>, t: Topo, loop: nat -> Build, n: nat,
                                        node: string)
    requires IsLoop(cfg, ports, t, loop) && n <= |ports| && loop(n).Ok?
    ensures Sourced(loop(n).links, node) <= P2pConns(cfg, ports, node, n)
  {
    if n == 0 {
      assert VisitAll(cfg, ports, t, 0) == loop(0);
    } else {
      LoopNext(cfg, ports, t, loop, n - 1);
      SourcedBound(cfg, ports, t, loop, n - 1, node);
      SourcedNext(cfg, ports, t, loop, n - 1, node);
    }
  }

  /** A build from new nodes that numbers everything: no connection that leads somewhere has an
      explicit address. */
  predicate AllAutomatic(cfg: Config, t: Topo) {
    var ports := Ports(cfg.hosts);
    && FreshNodes(t) && cfg.env.autonumber
    && (forall i :: 0 <= i < |ports| && ports[i].conn.to.Some? ==> ports[i].conn.ip.None? && ports[i].conn.ipv6.None?)
  }

  /** It is within the plan's bounds for the family, which can be read off before the build. */
  predicate WithinPlan(cfg: Config, t: Topo, six: bool) {
    var ports := Ports(cfg.hosts);
    && AllAutomatic(cfg, t) && (six ==> cfg.env.ipv6)
    && (forall a, b :: a in cfg.switches && b in cfg.switches && a != b ==> cfg.switches[a] != cfg.switches[b])
    && (forall i :: 0 <= i < |ports| && ports[i].conn.to.Some? && !ToNode(cfg, ports[i]) && ports[i].node in t
          ==> t[ports[i].node].id != BRIDGE_HOST)
    && (forall n :: n in t ==> (six || t[n].id < 0x100)
                               && P2pConns(cfg, ports, n, |ports|) <= if six then P2P_STEP6 / 2 else 128)
  }

  lemma {:induction false} LinksAutomatic(cfg: Config, t: Topo, b: Build)
    requires AllAutomatic(cfg, t) && Complete(cfg, Ports(cfg.hosts), t, b) && Accepted(cfg, Ports(cfg.hosts))
    ensures forall l :: l in b.links ==> LinkAutomatic(l)
  {
    var ports := Ports(cfg.hosts);
    forall l | l in b.links
      ensures LinkAutomatic(l)
    {
      var x, y := LinkConfs(cfg, ports, t, b, l);
      assert PortAccepted(cfg, ports[x]);
    }
  }

  lemma {:induction false} LansPlanned(cfg: Config, t: Topo, b: Build, six: bool)
    requires WithinPlan(cfg, t, six) && Complete(cfg, Ports(cfg.hosts), t, b)
    ensures forall l :: l in b.links && l.LanLink? ==> l.node in t && t[l.node].id != BRIDGE_HOST
    ensures OneNetPerId(b.links)
  {
    var ports := Ports(cfg.hosts);
    forall l | l in b.links && l.LanLink?
      ensures l.node in t && t[l.node].id != BRIDGE_HOST
      ensures l.net in cfg.switches && l.brid == cfg.switches[l.net]
    {
      assert Known(t, l);
      var x, y := LinkConfs(cfg, ports, t, b, l);
    }
    forall i, j | 0 <= i < j < |b.links| && b.links[i].LanLink? && b.links[j].LanLink?
                  && b.links[i].net != b.links[j].net
      ensures b.links[i].brid != b.links[j].brid
    {
      assert b.links[i] in b.links && b.links[j] in b.links;
    }
  }

  lemma {:induction false} SourcedWithin(cfg: Config, t: Topo, n: string)
    requires Ready(cfg, t) && BuildAll(cfg, t).Ok?
    ensures Sourced(BuildAll(cfg, t).links, n) <= P2pConns(cfg, Ports(cfg.hosts), n, |Ports(cfg.hosts)|)
  {
    var ports := Ports(cfg.hosts);
    var loop := LoopOf(cfg, ports, t);
    assert VisitAll(cfg, ports, t, |ports|) == loop(|ports|);
    SourcedBound(cfg, ports, t, loop, |ports|, n);
  }

  lemma {:induction false} BuildIsPlanned(cfg: Config, t: Topo, six: bool)
    requires Buildable(cfg, t) && WithinPlan(cfg, t, six)
    ensures var b := BuildAll(cfg, t);
            Complete(cfg, Ports(cfg.hosts), t, b) && Planned(t, b.links, six)
  {
    var ports, b := Ports(cfg.hosts), BuildAll(cfg, t);
    BuildIsComplete(cfg, t);
    EndsDistinct(cfg, ports, t, b);
    ConnectSucceedsIff(t, b.links, cfg.env);
    LinksAutomatic(cfg, t, b);
    LansPlanned(cfg, t, b, six);
    forall n | n in t
      ensures if six then Sourced(b.links, n) <= P2P_STEP6 / 2 else t[n].id < 0x100 && Sourced(b.links, n) <= 128
    {
      SourcedWithin(cfg, t, n);
    }
  }

  /** The interfaces of the connections that lead to a node or a bridge. */
  function Leading(ports: seq<Port>): set<End> {
    set p | p in ports && p.conn.to.Some? :: p.AsEnd()
  }

  /** A connection that leads somewhere is among the interfaces with automatic addresses. */
  lemma {:induction false} LeadingIsAuto(cfg: Config, ports: seq<Port>, t: Topo, b: Build, i: nat)
    requires Complete(cfg, ports, t, b) && i < |ports| && ports[i].conn.to.Some?
    ensures ports[i].AsEnd() in AutoEnds(b.links)
  {
    var e := ports[i].AsEnd();
    CountedIsEnd(b.links, e);
    var l := EndOfSome(b.links, e);
    var x, y := LinkConfs(cfg, ports, t, b, l);
    assert EndsOf(l)[0] == ports[x].AsEnd();
    assert x != i ==> ports[x].AsEnd() != e;
    assert |EndsOf(l)| == if l.P2pLink? then 2 else 1;
    AutoEndAt(b.links, l, e);
  }

  lemma {:induction false} AutoEndAt(links: seq<Topology.Link>, l: Topology.Link, e: End)
    requires l in links && e in EndsOf(l) && !l.DummyLink?
    ensures e in AutoEnds(links)
  {
    var n := |links| - 1;
    if l != links[n] {
      AutoEndAt(links[..n], l, e);
    }
  }

  /** A build within the plan gets through and gives every connection that leads to a node or bridge
      an address of its own. */
  lemma {:induction false} BuiltAddressesUnique(cfg: Config, t: Topo, six: bool)
    requires Buildable(cfg, t) && WithinPlan(cfg, t, six)
    ensures BuildAll(cfg, t).Ok?
    ensures AddressesUnique(BuildAll(cfg, t).topo, Leading(Ports(cfg.hosts)), six)
  {
    var ports, b := Ports(cfg.hosts), BuildAll(cfg, t);
    BuildIsPlanned(cfg, t, six);
    BuildAddressesUnique(t, b.links, cfg.env, six);
    var all := set e | e in AutoEnds(b.links);
    assert AddressesUnique(b.topo, all, six);
    forall e | e in Leading(ports)
      ensures e in all
    {
      var i :| 0 <= i < |ports| && ports[i].conn.to.Some? && ports[i].AsEnd() == e;
      LeadingIsAuto(cfg, ports, t, b, i);
    }
  }

  // ---------- which automatic address it is ----------

  /** The p2p links that the node sources: those of its connections that the loop comes to before
      their partners, among the first `n` connections. */
  function Sources(cfg: Config, ports: seq<Port>, partner: seq<nat>, node: string, n: nat): nat
    requires n <= |ports| == |partner|
  {
    if n == 0 then
      0
    else
      Sources(cfg, ports, partner, node, n - 1)
      + if ports[n - 1].node == node && ToNode(cfg, ports[n - 1]) && n - 1 < partner[n - 1] then 1 else 0
  }

  /** The connection adds a link when it does not come after its partner, and nothing otherwise. */
  lemma {:induction false} VisitPaired(cfg: Config, ports: seq<Port>, partner: seq<nat>, t: Topo, n: nat, b: Build)
    requires WellNamed(cfg, ports) && Pairing(cfg, ports, partner) && n < |ports|
    requires Bare(t) && Going(cfg, ports, partner, t, n, b) && Ready(cfg, b.topo) && ports[n].node in b.topo
    requires Visit(cfg, b, ports[n]).Ok?
    ensures var w, r := WantedLink(cfg, ports[n]), Visit(cfg, b, ports[n]);
            if ToNode(cfg, ports[n]) && partner[n] < n then r == b else w.Link? && r.links == b.links + [w.link]
  {
    if ToNode(cfg, ports[n]) {
      assert PairedAt(cfg, ports, partner, n);
    }
    if ToNode(cfg, ports[n]) && partner[n] < n {
      PairedSkips(cfg, ports, partner, t, n, b);
    } else {
      RegisteredIffReached(cfg, ports, partner, t, n, b, n);
      VisitAdds(cfg, b, ports[n]);
    }
  }

  /** What the theorems on pairings ask for. */
  ghost predicate PairedBuild(cfg: Config, ports: seq<Port>, partner: seq<nat>, t: Topo, loop: nat -> Build) {
    && Start(cfg, ports, t) && WellNamed(cfg, ports) && IsLoop(cfg, ports, t, loop)
    && Pairing(cfg, ports, partner) && Accepted(cfg, ports)
  }

  lemma {:induction false} LoopPairedStep(cfg: Config, ports: seq<Port>, partner: seq<nat>, t: Topo,
                                          loop: nat -> Build, n: nat)
    requires WellNamed(cfg, ports) && Pairing(cfg, ports, partner) && IsLoop(cfg, ports, t, loop) && n < |ports|
    requires Bare(t) && Going(cfg, ports, partner, t, n, loop(n)) && loop(n + 1).Ok?
    ensures var w := WantedLink(cfg, ports[n]);
            if ToNode(cfg, ports[n]) && partner[n] < n then loop(n + 1).links == loop(n).links
            else w.Link? && loop(n + 1).links == loop(n).links + [w.link]
  {
    var b := VisitAll(cfg, ports, t, n);
    assert b == loop(n) && VisitAll(cfg, ports, t, n + 1) == loop(n + 1);
    assert b.topo.Keys == t.Keys;
    VisitPaired(cfg, ports, partner, t, n, b);
  }

  lemma {:induction false} LoopPaired(cfg: Config, ports: seq<Port>, partner: seq<nat>, t: Topo,
                                      loop: nat -> Build, n: nat)
    requires PairedBuild(cfg, ports, partner, t, loop) && n < |ports|
    ensures loop(n).Ok? && loop(n + 1).Ok?
    ensures var w := WantedLink(cfg, ports[n]);
            if ToNode(cfg, ports[n]) && partner[n] < n then loop(n + 1).links == loop(n).links
            else w.Link? && loop(n + 1).links == loop(n).links + [w.link]
  {
    PairedLoop(cfg, ports, partner, t, loop, n);
    PairedLoop(cfg, ports, partner, t, loop, n + 1);
    LoopPairedStep(cfg, ports, partner, t, loop, n);
  }

  lemma {:induction false} SourcedPairedNext(cfg: Config, ports: seq<Port>, partner: seq<nat>, t: Topo,
                                             loop: nat -> Build, n: nat, node: string)
    requires PairedBuild(cfg, ports, partner, t, loop) && n < |ports|
    ensures loop(n).Ok? && loop(n + 1).Ok?
    ensures Sourced(loop(n + 1).links, node) == Sourced(loop(n).links, node)
              + if ports[n].node == node && ToNode(cfg, ports[n]) && n < partner[n] then 1 else 0
  {
    LoopPaired(cfg, ports, partner, t, loop, n);
    if ToNode(cfg, ports[n]) {
      assert PairedAt(cfg, ports, partner, n);
    }
    if !(ToNode(cfg, ports[n]) && partner[n] < n) {
      SourcedAppend(loop(n).links, WantedLink(cfg, ports[n]).link);
      WantedSource(cfg, ports[n], node);
    }
  }

  lemma {:induction false} SourcedIs(cfg: Config, ports: seq<Port>, partner: seq<nat>, t: Topo, loop: nat -> Build,
                                     n: nat, node: string)
    requires PairedBuild(cfg, ports, partner, t, loop) && n <= |ports|
    ensures loop(n).Ok? && Sourced(loop(n).links, node) == Sources(cfg, ports, partner, node, n)
  {
    if n == 0 {
      assert VisitAll(cfg, ports, t, 0) == loop(0);
    } else {
      SourcedIs(cfg, ports, partner, t, loop, n - 1, node);
      SourcedPairedNext(cfg, ports, partner, t, loop, n - 1, node);
    }
  }

  /** Links are only added. */
  lemma {:induction false} LinksGrow(cfg: Config, ports: seq<Port>, partner: seq<nat>, t: Topo, loop: nat -> Build,
                                     n: nat, m: nat)
    requires PairedBuild(cfg, ports, partner, t, loop) && n <= m <= |ports|
    ensures loop(n).Ok? && loop(m).Ok? && loop(n).links <= loop(m).links
  {
    if n < m {
      LoopPaired(cfg, ports, partner, t, loop, m - 1);
      LinksGrow(cfg, ports, partner, t, loop, n, m - 1);
    } else {
      PairedLoop(cfg, ports, partner, t, loop, n);
    }
  }

  /** The interface has the item's address. */
  predicate Gets(u: Topo, p: Port, item: Item, s: bool) {
    Holds(u, p.AsEnd(), item, s)
  }

  lemma {:induction false} TrackedBuild(cfg: Config, t: Topo, s: bool)
    requires Buildable(cfg, t) && AllAutomatic(cfg, t) && (s ==> cfg.env.ipv6)
    ensures var b := BuildAll(cfg, t);
            b.Ok? && AllKnown(t, b.links) && EndsTrack(t, b.topo, b.links, s)
  {
    var ports, b := Ports(cfg.hosts), BuildAll(cfg, t);
    BuildIsComplete(cfg, t);
    EndsDistinct(cfg, ports, t, b);
    LinksAutomatic(cfg, t, b);
    BuildTracks(t, b.links, cfg.env);
  }

  /** The link of a connection that comes before its partner, among all links. */
  lemma {:induction false} LinkInPlace(cfg: Config, ports: seq<Port>, partner: seq<nat>, t: Topo,
                                       loop: nat -> Build, i: nat)
    requires PairedBuild(cfg, ports, partner, t, loop)
    requires i < |ports| && ToNode(cfg, ports[i]) && i < partner[i]
    ensures partner[i] < |ports| && loop(i).Ok? && loop(|ports|).Ok?
    ensures var p, q := ports[i], ports[partner[i]];
            && loop(i).links + [P2pLink(p.node, p.conn.AsConf(), q.node, q.conn.AsConf())] <= loop(|ports|).links
            && Sourced(loop(i).links, p.node) == Sources(cfg, ports, partner, p.node, i)
  {
    assert PairedAt(cfg, ports, partner, i);
    LoopPaired(cfg, ports, partner, t, loop, i);
    LinksGrow(cfg, ports, partner, t, loop, i + 1, |ports|);
    SourcedIs(cfg, ports, partner, t, loop, i, ports[i].node);
    MatchedWants(cfg, ports[i], ports[partner[i]]);
  }

  /** In an automatic build, the k-th p2p link that a node sources, counted in the order of the
      configuration, has the k-th pair of addresses of the node: the first address for the connection
      that comes first, the second for its partner. */
  lemma {:induction false} BuiltByPlan(cfg: Config, t: Topo, partner: seq<nat>, i: nat, s: bool)
    requires Fresh(cfg, t) && Accepted(cfg, Ports(cfg.hosts)) && Pairing(cfg, Ports(cfg.hosts), partner)
    requires AllAutomatic(cfg, t) && (s ==> cfg.env.ipv6)
    requires var ports := Ports(cfg.hosts); i < |ports| && ToNode(cfg, ports[i]) && i < partner[i]
    ensures var ports, b := Ports(cfg.hosts), BuildAll(cfg, t);
            && b.Ok? && ports[i].node in t && partner[i] < |ports|
            && var id, k := t[ports[i].node].id, Sources(cfg, ports, partner, ports[i].node, i);
            && Gets(b.topo, ports[i], P2p(id, k, false), s)
            && Gets(b.topo, ports[partner[i]], P2p(id, k, true), s)
  {
    var ports, b := Ports(cfg.hosts), BuildAll(cfg, t);
    TrackedBuild(cfg, t, s);
    var loop := LoopOf(cfg, ports, t);
    assert b == VisitAll(cfg, ports, t, |ports|) == loop(|ports|);
    LinkInPlace(cfg, ports, partner, t, loop, i);
    var p, q := ports[i], ports[partner[i]];
    PairGets(t, b.topo, loop(i).links, P2pLink(p.node, p.conn.AsConf(), q.node, q.conn.AsConf()), b.links, p, q, s);
  }

  /** So do the two ends of every pair: each has the other's own address for its peer's when both have
      one of the family, and none otherwise. */
  lemma {:induction false} BuiltPeers(cfg: Config, t: Topo, partner: seq<nat>, i: nat, s: bool)
    requires Fresh(cfg, t) && Accepted(cfg, Ports(cfg.hosts)) && Pairing(cfg, Ports(cfg.hosts), partner)
    requires Unaddressed(t) && PortsVersioned(Ports(cfg.hosts))
    requires i < |Ports(cfg.hosts)| && ToNode(cfg, Ports(cfg.hosts)[i])
    ensures var ports, u := Ports(cfg.hosts), BuildAll(cfg, t);
            && u.Ok? && partner[i] < |ports|
            && var e, f := ports[i].AsEnd(), ports[partner[i]].AsEnd();
            Peer(u.topo, e, s)
              == if Own(u.topo, e, s).Some? && Own(u.topo, f, s).Some? then Own(u.topo, f, s) else None
  {
    var ports, b := Ports(cfg.hosts), BuildAll(cfg, t);
    assert PairedAt(cfg, ports, partner, i);
    var m := if i < partner[i] then i else partner[i];
    assert PairedAt(cfg, ports, partner, m);
    BuiltPeersAgree(cfg, t);
    var loop := LoopOf(cfg, ports, t);
    assert b == VisitAll(cfg, ports, t, |ports|) == loop(|ports|);
    LinkInPlace(cfg, ports, partner, t, loop, m);
    var p, q := ports[m], ports[partner[m]];
    var l := P2pLink(p.node, p.conn.AsConf(), q.node, q.conn.AsConf());
    LinkAgrees(t, b.topo, b.links, loop(m).links, l, s, cfg.env);
  }

  lemma {:induction false} LinkAgrees(t: Topo, u: Topo, links: seq<Topology.Link>, init: seq<Topology.Link>,
                                      l: Topology.Link, s: bool, env: Env)
    requires AllAgree(t, u, links, env) && init + [l] <= links && l.P2pLink?
    ensures Mirrored(u, l, s)
  {
    assert links[|init|] == l && l in links;
    assert Agree(u, l, s, env);
  }

  lemma {:induction false} PairGets(t: Topo, u: Topo, init: seq<Topology.Link>, l: Topology.Link,
                                    links: seq<Topology.Link>, p: Port, q: Port, s: bool)
    requires l == P2pLink(p.node, p.conn.AsConf(), q.node, q.conn.AsConf())
    requires init + [l] <= links && AllKnown(t, links) && EndsTrack(t, u, links, s)
    ensures p.node in t
    ensures Gets(u, p, P2p(t[p.node].id, Sourced(init, p.node), false), s)
    ensures Gets(u, q, P2p(t[p.node].id, Sourced(init, p.node), true), s)
  {
    var rest := links[|init| + 1..];
    assert links == init + [l] + rest;
    assert links[|init|] == l && l in links;
    forall m | m in init
      ensures Known(t, m)
    {
      assert m in links;
    }
    TrackAt(t, u, init, l, rest, s);
    assert AutoEndsOf(l) == [p.AsEnd(), q.AsEnd()];
    assert Holds(u, AutoEndsOf(l)[0], ItemsOf(t, l, Sourced(init, Source(l)))[0], s);
    assert Holds(u, AutoEndsOf(l)[1], ItemsOf(t, l, Sourced(init, Source(l)))[1], s);
  }
}
