/** Which entry of the other node a connection is matched with (munet/config.py), and the order in
    which the connection loop of `_async_build` (munet/native.py) adds links. */
module Connections {
  import opened Options
  import opened Addresses
  import opened Topology

  /** A named connection of a node; `remoteName` is "" when the key is absent or empty. `fits` says
      whether both names of a bridge link's interfaces are shorter than 16 characters. */
  datatype Conn = Conn(to: Option<string>, name: string, remoteName: string,
                       ip: Option<Interface>, ipv6: Option<Interface>, fits: bool) {
    function AsConf(): Conf {
      Conf(name, ip, ipv6)
    }

    /** The configured addresses are of the version their key says. */
    predicate Versioned() {
      (ip.Some? ==> !ip.value.v6) && (ipv6.Some? ==> ipv6.value.v6)
    }
  }

  /** `find_all_with_kv(conns, "to", name)`. */
  function AllTo(conns: seq<Conn>, name: string): seq<Conn> {
    if conns == [] then
      []
    else
      var last := conns[|conns| - 1];
      AllTo(conns[..|conns| - 1], name) + if last.to == Some(name) then [last] else []
  }

  /** `find_with_kv(conns, "name", name)`: the first one. */
  function FirstNamed(conns: seq<Conn>, name: string): Option<Conn> {
    if conns == [] then None
    else if conns[0].name == name then Some(conns[0])
    else FirstNamed(conns[1..], name)
  }

  /** `find_matching_net_config(name, conn, other)`. */
  function FindMatching(name: string, conn: Conn, conns: seq<Conn>): Option<Conn> {
    var p := AllTo(conns, name);
    if p == [] then None
    else if conn.remoteName == "" then Some(p[0])
    else FirstNamed(p, conn.remoteName)
  }

  method FindAllTo(conns: seq<Conn>, name: string) returns (rv: seq<Conn>)
    ensures rv == AllTo(conns, name)
  {
    rv := [];
    for k := 0 to |conns|
      invariant rv == AllTo(conns[..k], name)
    {
      assert conns[..k + 1][..k] == conns[..k];
      if conns[k].to == Some(name) {
        rv := rv + [conns[k]];
      }
    }
    assert conns[..|conns|] == conns;
  }

  method FindNamed(conns: seq<Conn>, name: string) returns (r: Option<Conn>)
    ensures r == FirstNamed(conns, name)
  {
    for k := 0 to |conns|
      invariant FirstNamed(conns, name) == FirstNamed(conns[k..], name)
    {
      if conns[k].name == name {
        return Some(conns[k]);
      }
    }
    r := None;
  }

  method FindMatchingNetConfig(name: string, conn: Conn, conns: seq<Conn>) returns (r: Option<Conn>)
    ensures r == FindMatching(name, conn, conns)
  {
    var p := FindAllTo(conns, name);
    if p == [] {
      return None;
    }
    if conn.remoteName == "" {
      return Some(p[0]);
    }
    r := FindNamed(p, conn.remoteName);
  }

  /** The connection leads to the node and has the wanted name, if one is wanted. */
  predicate Fits(c: Conn, name: string, wanted: string) {
    c.to == Some(name) && (wanted == "" || c.name == wanted)
  }

  /** What is matched is the first of the other node's connections that fits. */
  lemma {:induction false} MatchIsFirst(name: string, conn: Conn, conns: seq<Conn>)
    ensures var r := FindMatching(name, conn, conns);
            && (r.None? <==> forall c :: c in conns ==> !Fits(c, name, conn.remoteName))
            && (r.Some? ==> exists i :: 0 <= i < |conns| && conns[i] == r.value && Fits(conns[i], name, conn.remoteName)
                                        && forall j :: 0 <= j < i ==> !Fits(conns[j], name, conn.remoteName))
  {
    var p := AllTo(conns, name);
    AllToSound(conns, name);
    if conn.remoteName != "" {
      FirstNamedIsFirst(p, conn.remoteName);
    }
    if p != [] {
      var k := if conn.remoteName == "" then 0 else FirstIndex(p, conn.remoteName);
      if k < |p| {
        var i := AllToAt(conns, name, k);
        assert Fits(conns[i], name, conn.remoteName);
      }
    }
  }

  lemma {:induction false} AllToSound(conns: seq<Conn>, name: string)
    ensures forall c :: c in AllTo(conns, name) <==> c in conns && c.to == Some(name)
  {
    if conns != [] {
      AllToSound(conns[..|conns| - 1], name);
    }
  }

  /** Where the k-th connection to the node is; the others before it are among the first k. */
  lemma {:induction false} AllToAt(conns: seq<Conn>, name: string, k: nat) returns (i: nat)
    requires k < |AllTo(conns, name)|
    ensures i < |conns| && conns[i] == AllTo(conns, name)[k]
    ensures forall j :: 0 <= j < i && conns[j].to == Some(name) ==> conns[j] in AllTo(conns, name)[..k]
    decreases conns
  {
    var n := |conns| - 1;
    var init := conns[..n];
    if k < |AllTo(init, name)| {
      i := AllToAt(init, name, k);
      assert AllTo(conns, name)[..k] == AllTo(init, name)[..k];
    } else {
      i := n;
      AllToSound(init, name);
      assert AllTo(conns, name)[..k] == AllTo(init, name);
    }
  }

  function FirstIndex(conns: seq<Conn>, name: string): (i: nat)
    ensures i <= |conns|
  {
    if conns == [] || conns[0].name == name then 0 else 1 + FirstIndex(conns[1..], name)
  }

  lemma {:induction false} FirstNamedIsFirst(conns: seq<Conn>, name: string)
    ensures var i := FirstIndex(conns, name);
            && FirstNamed(conns, name) == (if i < |conns| then Some(conns[i]) else None)
            && (i < |conns| ==> conns[i].name == name)
            && (forall j :: 0 <= j < i ==> conns[j].name != name)
  {
    if conns != [] && conns[0].name != name {
      FirstNamedIsFirst(conns[1..], name);
    }
  }

  // ---------- the connection loop ----------

  datatype HostConf = HostConf(name: string, connections: seq<Conn>)

  /** The nodes, the identifiers of the bridges, and the options of the build. */
  datatype Config = Config(hosts: seq<HostConf>, switches: map<string, nat>, env: Env)

  /** One connection of one node. */
  datatype Port = Port(node: string, conn: Conn) {
    function AsEnd(): End {
      End(node, conn.name)
    }
  }

  function PortsOf(node: string, conns: seq<Conn>): (r: seq<Port>)
    ensures |r| == |conns|
    ensures forall i :: 0 <= i < |r| ==> r[i] == Port(node, conns[i])
  {
    seq(|conns|, i requires 0 <= i < |conns| => Port(node, conns[i]))
  }

  function HostNames(hosts: seq<HostConf>): set<string> {
    set h | h in hosts :: h.name
  }

  /** Every connection in the order the loop comes to it. */
  function Ports(hosts: seq<HostConf>): (r: seq<Port>)
    ensures forall i :: 0 <= i < |r| ==> r[i].node in HostNames(hosts)
  {
    if hosts == [] then
      []
    else
      var last := hosts[|hosts| - 1];
      assert last in hosts;
      Ports(hosts[..|hosts| - 1]) + PortsOf(last.name, last.connections)
  }

  function HostConns(hosts: seq<HostConf>, name: string): (r: Option<seq<Conn>>)
    ensures r.Some? ==> name in HostNames(hosts)
  {
    if hosts == [] then None
    else if hosts[0].name == name then Some(hosts[0].connections)
    else HostConns(hosts[1..], name)
  }

  datatype BuildError = UnknownHost | NoMatchingConfig | NameTooLong | NetworkTaken | AddressRefused

  /** The connection leads to a node. */
  predicate ToNode(cfg: Config, p: Port) {
    p.conn.to.Some? && p.conn.to.value !in cfg.switches
  }

  /** The link that a connection asks for, or why there is none. */
  datatype Wanted = Link(link: Topology.Link) | Error(error: BuildError)

  function WantedLink(cfg: Config, p: Port): Wanted {
    if p.conn.to.None? then
      Link(DummyLink(p.node, p.conn.AsConf()))
    else if !ToNode(cfg, p) then
      if p.conn.fits then Link(LanLink(p.conn.to.value, cfg.switches[p.conn.to.value], p.node, p.conn.AsConf()))
      else Error(NameTooLong)
    else
      var conns := HostConns(cfg.hosts, p.conn.to.value);
      if conns.None? then
        Error(UnknownHost)
      else
        var c2 := FindMatching(p.node, p.conn, conns.value);
        if c2.None? then Error(NoMatchingConfig)
        else Link(P2pLink(p.node, p.conn.AsConf(), p.conn.to.value, c2.value.AsConf()))
  }

  /** The nodes of the configuration are there, and bridges have identifiers that give them networks. */
  predicate Ready(cfg: Config, t: Topo) {
    && t.Keys == HostNames(cfg.hosts)
    && (forall name :: name in cfg.switches ==> cfg.switches[name] < 0xFDFF)
  }

  /** The nodes' tables and the links added so far. */
  datatype Build = Ok(topo: Topo, links: seq<Topology.Link>) | Err(error: BuildError)

  function AddLink(cfg: Config, b: Build, l: Topology.Link): Build
    requires b.Ok? && Known(b.topo, l)
  {
    var t := ConnectOne(b.topo, l, cfg.env);
    if t.Some? then Ok(t.value, b.links + [l])
    else Err(if NetFree(b.topo, l) then AddressRefused else NetworkTaken)
  }

  function Visit(cfg: Config, b: Build, p: Port): (r: Build)
    requires b.Ok? && Ready(cfg, b.topo) && p.node in b.topo
    ensures r.Ok? ==> Ready(cfg, r.topo)
  {
    if ToNode(cfg, p) && p.AsEnd() in Registered(b.topo) then
      b
    else
      var w := WantedLink(cfg, p);
      if w.Error? then Err(w.error) else AddLink(cfg, b, w.link)
  }

  predicate NodesIn(ports: seq<Port>, t: Topo) {
    forall i :: 0 <= i < |ports| ==> ports[i].node in t
  }

  /** The loop over the first `n` of these connections, from nodes in the state `t`. */
  function VisitAll(cfg: Config, ports: seq<Port>, t: Topo, n: nat): (r: Build)
    requires Ready(cfg, t) && NodesIn(ports, t) && n <= |ports|
    ensures r.Ok? ==> Ready(cfg, r.topo)
  {
    if n == 0 then
      Ok(t, [])
    else
      var b := VisitAll(cfg, ports, t, n - 1);
      if b.Err? then b else Visit(cfg, b, ports[n - 1])
  }

  /** The whole loop. */
  function BuildAll(cfg: Config, t: Topo): Build
    requires Ready(cfg, t)
  {
    VisitAll(cfg, Ports(cfg.hosts), t, |Ports(cfg.hosts)|)
  }

  /** The states of the loop, after each number of connections. */
  ghost predicate IsLoop(cfg: Config, ports: seq<Port>, t: Topo, loop: nat -> Build) {
    && Ready(cfg, t) && NodesIn(ports, t)
    && forall n: nat {:trigger VisitAll(cfg, ports, t, n)} :: n <= |ports| ==> VisitAll(cfg, ports, t, n) == loop(n)
  }

  lemma {:induction false} LoopOf(cfg: Config, ports: seq<Port>, t: Topo) returns (loop: nat -> Build)
    requires Ready(cfg, t) && NodesIn(ports, t)
    ensures IsLoop(cfg, ports, t, loop)
  {
    loop := (n: nat) => if n <= |ports| then VisitAll(cfg, ports, t, n) else Ok(t, []);
  }

  /** A loop that failed stays failed. */
  lemma {:induction false} LoopStaysFailed(cfg: Config, ports: seq<Port>, t: Topo, loop: nat -> Build, n: nat, m: nat)
    requires IsLoop(cfg, ports, t, loop) && n <= m <= |ports| && loop(n).Err?
    ensures loop(m) == loop(n)
  {
    if n < m {
      LoopStaysFailed(cfg, ports, t, loop, n, m - 1);
      assert VisitAll(cfg, ports, t, m - 1) == loop(m - 1) && VisitAll(cfg, ports, t, m) == loop(m);
    }
  }

  lemma {:induction false} PortsOfLast(hosts: seq<HostConf>)
    requires hosts != []
    ensures var n := |hosts| - 1;
            Ports(hosts) == Ports(hosts[..n]) + PortsOf(hosts[n].name, hosts[n].connections)
  {
  }

  /** The connections of one node stand together. */
  lemma {:induction false} PortsSplit(hosts: seq<HostConf>, h: nat) returns (after: seq<Port>)
    requires h < |hosts|
    ensures Ports(hosts) == Ports(hosts[..h]) + PortsOf(hosts[h].name, hosts[h].connections) + after
    ensures Ports(hosts[..h + 1]) == Ports(hosts[..h]) + PortsOf(hosts[h].name, hosts[h].connections)
    decreases |hosts|
  {
    var n := |hosts| - 1;
    PortsOfLast(hosts);
    if h < n {
      var rest := PortsSplit(hosts[..n], h);
      assert hosts[..n][..h] == hosts[..h] && hosts[..n][..h + 1] == hosts[..h + 1];
      after := rest + PortsOf(hosts[n].name, hosts[n].connections);
    } else {
      assert hosts[..h + 1] == hosts;
      after := [];
    }
  }
}
