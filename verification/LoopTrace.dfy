/** What every run of the connection loop has done when it has come to a connection. */
module LoopTrace {
  import opened Options
  import opened Topology
  import opened PeerTables
  import opened Tables
  import opened Connections

  /** No interface and no bridge is in the tables. */
  predicate Bare(t: Topo) {
    forall n :: n in t ==> t[n].own == map[] && t[n].nets == map[]
  }

  /** Whatever is found in the configuration is one of these connections. */
  ghost predicate HasPorts(cfg: Config, ports: seq<Port>) {
    forall name, c :: HostConns(cfg.hosts, name).Some? && c in HostConns(cfg.hosts, name).value
                      ==> Port(name, c) in ports
  }

  lemma {:induction false} PortsHasPorts(cfg: Config)
    ensures HasPorts(cfg, Ports(cfg.hosts))
  {
    forall name, c | HostConns(cfg.hosts, name).Some? && c in HostConns(cfg.hosts, name).value
      ensures Port(name, c) in Ports(cfg.hosts)
    {
      var h := HostIndex(cfg.hosts, name);
      HostPortsAt(cfg.hosts, h, c);
    }
  }

  lemma {:induction false} HostIndex(hosts: seq<HostConf>, name: string) returns (h: nat)
    requires HostConns(hosts, name).Some?
    ensures h < |hosts| && hosts[h].name == name && hosts[h].connections == HostConns(hosts, name).value
    decreases hosts
  {
    if hosts[0].name == name {
      h := 0;
    } else {
      h := HostIndex(hosts[1..], name);
      h := h + 1;
    }
  }

  lemma {:induction false} HostPortsAt(hosts: seq<HostConf>, h: nat, c: Conn)
    requires h < |hosts| && c in hosts[h].connections
    ensures Port(hosts[h].name, c) in Ports(hosts)
  {
    var n := |hosts| - 1;
    PortsOfLast(hosts);
    if h < n {
      HostPortsAt(hosts[..n], h, c);
    } else {
      var k :| 0 <= k < |hosts[h].connections| && hosts[h].connections[k] == c;
      assert PortsOf(hosts[h].name, hosts[h].connections)[k] == Port(hosts[h].name, c);
    }
  }

  // ---------- one connection ----------

  /** Peer matching leads from one connection to another. */
  predicate Matched(cfg: Config, p: Port, q: Port) {
    && p.conn.to == Some(q.node)
    && HostConns(cfg.hosts, q.node).Some?
    && FindMatching(p.node, p.conn, HostConns(cfg.hosts, q.node).value) == Some(q.conn)
  }

  lemma {:induction false} MatchedWants(cfg: Config, p: Port, q: Port)
    requires ToNode(cfg, p) && Matched(cfg, p, q)
    ensures WantedLink(cfg, p) == Link(P2pLink(p.node, p.conn.AsConf(), q.node, q.conn.AsConf()))
    ensures EndsOf(WantedLink(cfg, p).link) == [p.AsEnd(), q.AsEnd()]
  {
  }

  /** What is matched is a connection of its own, and leads back. */
  lemma {:induction false} WantedIsMatched(cfg: Config, ports: seq<Port>, p: Port) returns (q: Port)
    requires HasPorts(cfg, ports) && ToNode(cfg, p) && WantedLink(cfg, p).Link?
    ensures q in ports && Matched(cfg, p, q) && q.conn.to == Some(p.node)
  {
    var to := p.conn.to.value;
    var conns := HostConns(cfg.hosts, to).value;
    MatchIsFirst(p.node, p.conn, conns);
    q := Port(to, FindMatching(p.node, p.conn, conns).value);
  }

  /** The connection's own configuration is taken, if it does not lead to a node. */
  predicate PortAccepted(cfg: Config, p: Port) {
    !ToNode(cfg, p) ==> p.conn.Versioned() && (p.conn.to.Some? ==> p.conn.fits && p.conn.ipv6.None?)
  }

  lemma {:induction false} AcceptedWants(cfg: Config, p: Port)
    requires !ToNode(cfg, p)
    ensures PortAccepted(cfg, p) <==> WantedLink(cfg, p).Link? && Acceptable(WantedLink(cfg, p).link)
    ensures WantedLink(cfg, p).Link? ==> EndsOf(WantedLink(cfg, p).link) == [p.AsEnd()]
    ensures WantedLink(cfg, p).Link? ==> !WantedLink(cfg, p).link.P2pLink?
  {
  }

  /** The tables after the link are those before with what it enters. */
  ghost predicate EnteredOne(t: Topo, u: Topo, l: Topology.Link) {
    && u.Keys == t.Keys
    && (forall e :: e in Registered(u) <==> e in Registered(t) || e in EndsOf(l))
    && (forall n :: n in t ==> TablesAfter(t[n], u[n], l, n))
  }

  lemma {:induction false} VisitAdds(cfg: Config, b: Build, p: Port)
    requires b.Ok? && Ready(cfg, b.topo) && p.node in b.topo
    requires ToNode(cfg, p) ==> p.AsEnd() !in Registered(b.topo)
    ensures var w, r := WantedLink(cfg, p), Visit(cfg, b, p);
            && (w.Link? ==> Known(b.topo, w.link))
            && (r.Ok? <==> w.Link? && Acceptable(w.link) && NetFree(b.topo, w.link))
            && (r.Ok? ==> && r.links == b.links + [w.link]
                          && ConnectOne(b.topo, w.link, cfg.env) == Some(r.topo)
                          && EnteredOne(b.topo, r.topo, w.link))
  {
    var w := WantedLink(cfg, p);
    if w.Link? && ConnectOne(b.topo, w.link, cfg.env).Some? {
      ConnectRegisters(b.topo, w.link, cfg.env);
    }
  }

  /** Why a connection fails. */
  lemma {:induction false} FailsBecause(cfg: Config, b: Build, p: Port)
    requires b.Ok? && Ready(cfg, b.topo) && p.node in b.topo && Visit(cfg, b, p).Err?
    ensures var e, c := Visit(cfg, b, p).error, p.conn;
            && (e == UnknownHost <==>
                  c.to.Some? && c.to.value !in cfg.switches && HostConns(cfg.hosts, c.to.value).None?)
            && (e == NoMatchingConfig <==>
                  && ToNode(cfg, p) && HostConns(cfg.hosts, c.to.value).Some?
                  && forall d :: d in HostConns(cfg.hosts, c.to.value).value ==> !Fits(d, p.node, c.remoteName))
            && (e == NameTooLong <==> !ToNode(cfg, p) && c.to.Some? && !c.fits)
            && (e == NetworkTaken <==>
                  && !ToNode(cfg, p) && c.to.Some? && c.fits
                  && c.to.value in b.topo[p.node].nets && b.topo[p.node].nets[c.to.value] != c.name)
            && (e == AddressRefused ==> !ToNode(cfg, p) && (c.Versioned() ==> c.to.Some? && c.ipv6.Some?))
  {
    if ToNode(cfg, p) && HostConns(cfg.hosts, p.conn.to.value).Some? {
      MatchIsFirst(p.node, p.conn, HostConns(cfg.hosts, p.conn.to.value).value);
    }
  }

  // ---------- the whole run ----------

  /** Each link was wanted by one of the first `n` connections, and each of these that does not lead
      to a node has its link. */
  ghost predicate Traced(cfg: Config, ports: seq<Port>, n: nat, links: seq<Topology.Link>)
    requires n <= |ports|
  {
    && (forall l :: l in links ==> exists i :: 0 <= i < n && WantedLink(cfg, ports[i]) == Link(l))
    && (forall i :: 0 <= i < n && !ToNode(cfg, ports[i]) ==>
          WantedLink(cfg, ports[i]).Link? && WantedLink(cfg, ports[i]).link in links)
  }

  /** The nodes are what the links made of them. */
  ghost predicate Made(cfg: Config, t: Topo, b: Build) {
    && b.Ok? && AllKnown(t, b.links)
    && Connect(t, b.links, cfg.env) == Some(b.topo)
    && Entered(t, b.topo, b.links)
  }

  lemma {:induction false} TracedStep(cfg: Config, ports: seq<Port>, n: nat, links: seq<Topology.Link>)
    requires n < |ports| && Traced(cfg, ports, n, links)
    ensures ToNode(cfg, ports[n]) ==> Traced(cfg, ports, n + 1, links)
    ensures WantedLink(cfg, ports[n]).Link? ==> Traced(cfg, ports, n + 1, links + [WantedLink(cfg, ports[n]).link])
  {
    var w := WantedLink(cfg, ports[n]);
    forall l | l in links
      ensures exists i :: 0 <= i < n + 1 && WantedLink(cfg, ports[i]) == Link(l)
    {
      var i :| 0 <= i < n && WantedLink(cfg, ports[i]) == Link(l);
    }
    if w.Link? {
      assert w == Link(w.link);
      assert w.link in links + [w.link];
    }
  }

  lemma {:induction false} MadeStep(cfg: Config, t: Topo, b: Build, l: Topology.Link, u: Topo)
    requires Made(cfg, t, b) && Known(b.topo, l)
    requires ConnectOne(b.topo, l, cfg.env) == Some(u) && EnteredOne(b.topo, u, l)
    ensures Made(cfg, t, Ok(u, b.links + [l]))
  {
    var links := b.links + [l];
    assert AllKnown(t, links);
    ConnectMore(t, b.links, l, cfg.env);
    EnteredStep(t, b.topo, u, b.links, l);
  }

  lemma {:induction false} RunStep(cfg: Config, ports: seq<Port>, t: Topo, n: nat, b: Build)
    requires n < |ports| && Made(cfg, t, b) && Traced(cfg, ports, n, b.links)
    requires Ready(cfg, b.topo) && ports[n].node in b.topo && Visit(cfg, b, ports[n]).Ok?
    ensures var r := Visit(cfg, b, ports[n]);
            Made(cfg, t, r) && Traced(cfg, ports, n + 1, r.links)
  {
    var p := ports[n];
    TracedStep(cfg, ports, n, b.links);
    if !ToNode(cfg, p) || p.AsEnd() !in Registered(b.topo) {
      VisitAdds(cfg, b, p);
      MadeStep(cfg, t, b, WantedLink(cfg, p).link, Visit(cfg, b, p).topo);
    }
  }

  lemma {:induction false} LoopNext(cfg: Config, ports: seq<Port>, t: Topo, loop: nat -> Build, n: nat)
    requires IsLoop(cfg, ports, t, loop) && n < |ports| && loop(n + 1).Ok?
    ensures loop(n).Ok?
    ensures Made(cfg, t, loop(n)) && Traced(cfg, ports, n, loop(n).links)
            ==> Made(cfg, t, loop(n + 1)) && Traced(cfg, ports, n + 1, loop(n + 1).links)
  {
    var b := VisitAll(cfg, ports, t, n);
    assert b == loop(n) && VisitAll(cfg, ports, t, n + 1) == loop(n + 1);
    if Made(cfg, t, b) && Traced(cfg, ports, n, b.links) {
      assert b.topo.Keys == t.Keys;
      RunStep(cfg, ports, t, n, b);
    }
  }

  /** However far the loop comes without an error, the nodes are what its links made of them. */
  lemma {:induction false} LoopIsMade(cfg: Config, ports: seq<Port>, t: Topo, loop: nat -> Build, n: nat)
    requires IsLoop(cfg, ports, t, loop) && NoNets(t) && n <= |ports| && loop(n).Ok?
    ensures Made(cfg, t, loop(n)) && Traced(cfg, ports, n, loop(n).links)
  {
    if n == 0 {
      assert VisitAll(cfg, ports, t, 0) == loop(0);
    } else {
      LoopNext(cfg, ports, t, loop, n - 1);
      LoopIsMade(cfg, ports, t, loop, n - 1);
    }
  }
}
