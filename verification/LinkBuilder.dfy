/** The connection loop of `Munet._async_build` (munet/native.py) with the table updates of
    `add_native_link`, `add_dummy_link` and `add_link` (munet/base.py). */
module LinkBuilder {
  import opened Options
  import opened Addresses
  import opened Topology
  import opened Connections
  import opened Nodes

  /** Where the connections of each node start among those of all nodes. */
  ghost predicate Starts(hosts: seq<HostConf>, ports: seq<Port>, start: seq<nat>) {
    && |start| == |hosts| + 1 && start[0] == 0 && start[|hosts|] == |ports|
    && (forall i :: 0 <= i < |hosts| ==> PortsAt(ports, hosts[i], start[i], start[i + 1]))
  }

  ghost predicate PortsAt(ports: seq<Port>, host: HostConf, from: nat, to: nat) {
    && to == from + |host.connections| <= |ports|
    && (forall k :: 0 <= k < |host.connections| ==> ports[from + k] == Port(host.name, host.connections[k]))
  }

  lemma {:induction false} StartsOf(hosts: seq<HostConf>) returns (start: seq<nat>)
    ensures Starts(hosts, Ports(hosts), start)
  {
    if hosts == [] {
      start := [0];
    } else {
      var n := |hosts| - 1;
      var init := StartsOf(hosts[..n]);
      PortsOfLast(hosts);
      start := init + [|Ports(hosts)|];
      forall i | 0 <= i < |hosts|
        ensures PortsAt(Ports(hosts), hosts[i], start[i], start[i + 1])
      {
        if i < n {
          assert PortsAt(Ports(hosts[..n]), hosts[..n][i], init[i], init[i + 1]);
        }
      }
    }
  }

  class Munet {
    const config: Config
    const nodes: map<string, Node>
    var links: seq<Topology.Link>
    ghost var topo: Topo  // the state of every node

    constructor (config: Config, nodes: map<string, Node>)
      requires forall n :: n in nodes ==> nodes[n].name == n
      ensures this.config == config && this.nodes == nodes && links == [] && Valid()
    {
      this.config, this.nodes := config, nodes;
      links, topo := [], map n | n in nodes :: nodes[n].Abs();
    }

    /** The nodes go by their names, and `topo` has their states. */
    ghost predicate Valid()
      reads this, nodes.Values
    {
      ValidBut({})
    }

    /** All but these nodes are in the state that `topo` has. */
    ghost predicate ValidBut(names: set<string>)
      reads this, nodes.Values
    {
      && topo.Keys == nodes.Keys
      && (forall n :: n in nodes ==> nodes[n].name == n && (n !in names ==> topo[n] == nodes[n].Abs()))
    }

    /** Takes note of the new state of one node. */
    ghost method Refresh(node: string, others: set<string>)
      requires node in nodes && ValidBut({node} + others)
      modifies this`topo
      ensures ValidBut(others) && topo == old(topo)[node := nodes[node].Abs()]
    {
      topo := topo[node := nodes[node].Abs()];
    }

    /** How far the build has come. */
    ghost function Built(error: Option<BuildError>): Build
      reads this
    {
      if error.Some? then Err(error.value) else Ok(topo, links)
    }

    method DummyNode(node: string, c: Conf) returns (ok: bool)
      requires Valid() && node in nodes
      modifies this`topo, nodes[node]
      ensures Valid() && topo == old(topo)[node := nodes[node].Abs()]
      ensures DummyHost(old(topo[node]), c) == if ok then Some(topo[node]) else None
    {
      assert topo[node] == nodes[node].Abs();
      ok := nodes[node].AddDummy(c);
      Refresh(node, {});
    }

    method AddDummyLink(node: string, c: Conf) returns (error: Option<BuildError>)
      requires Valid() && node in nodes
      modifies this`links, this`topo, nodes[node]
      ensures Valid() && topo.Keys == old(topo).Keys
      ensures Built(error) == AddLink(config, old(Built(None)), DummyLink(node, c))
    {
      var ok := DummyNode(node, c);
      if !ok {
        return Some(AddressRefused);
      }
      links := links + [DummyLink(node, c)];
      error := None;
    }

    method LanNode(net: string, brid: nat, node: string, c: Conf) returns (ok: bool)
      requires Valid() && node in nodes && brid < 0xFDFF
      modifies this`topo, nodes[node]
      ensures Valid() && topo == old(topo)[node := nodes[node].Abs()]
      ensures var net4, net6 := BridgeInterface(brid, false).NetworkOf(), BridgeInterface(brid, true).NetworkOf();
              LanHost(old(topo[node]), net, net4, net6, c, config.env) == if ok then Some(topo[node]) else None
    {
      assert topo[node] == nodes[node].Abs();
      ok := nodes[node].AddLan(net, brid, c, config.env);
      Refresh(node, {});
    }

    method AddLanLink(net: string, brid: nat, node: string, c: Conf) returns (error: Option<BuildError>)
      requires Valid() && node in nodes && brid < 0xFDFF
      modifies this`links, this`topo, nodes[node]
      ensures Valid() && topo.Keys == old(topo).Keys
      ensures Built(error) == AddLink(config, old(Built(None)), LanLink(net, brid, node, c))
    {
      var taken := net in nodes[node].netIntfs && nodes[node].netIntfs[net] != c.name;
      var ok := LanNode(net, brid, node, c);
      if !ok {
        return Some(if taken then NetworkTaken else AddressRefused);
      }
      links := links + [LanLink(net, brid, node, c)];
      error := None;
    }

    method AddP2pLink(n1: string, c1: Conf, n2: string, c2: Conf)
      requires Valid() && n1 in nodes && n2 in nodes
      modifies this`links, this`topo, nodes[n1], nodes[n2]
      ensures Valid() && topo.Keys == old(topo).Keys
      ensures links == old(links) + [P2pLink(n1, c1, n2, c2)]
      ensures ConnectOne(old(topo), P2pLink(n1, c1, n2, c2), config.env) == Some(topo)
    {
      LinkNodes(n1, c1, n2, c2);
      links := links + [P2pLink(n1, c1, n2, c2)];
      ConnectIsLinkedNodes(old(topo), P2pLink(n1, c1, n2, c2), config.env);
    }

    method LinkNodes(n1: string, c1: Conf, n2: string, c2: Conf)
      requires Valid() && n1 in nodes && n2 in nodes
      modifies this`topo, nodes[n1], nodes[n2]
      ensures Valid() && topo.Keys == old(topo).Keys
      ensures topo == LinkedNodes(old(topo), P2pLink(n1, c1, n2, c2), config.env)
    {
      nodes[n1].AddP2p(nodes[n2], c1, c2, config.env);
      Refresh(n1, {n2});
      Refresh(n2, {});
    }

    method FindHost(name: string) returns (conns: Option<seq<Conn>>)
      ensures conns == HostConns(config.hosts, name)
    {
      for k := 0 to |config.hosts|
        invariant HostConns(config.hosts, name) == HostConns(config.hosts[k..], name)
      {
        if config.hosts[k].name == name {
          return Some(config.hosts[k].connections);
        }
      }
      conns := None;
    }

    method ConnectPort(node: string, conn: Conn) returns (error: Option<BuildError>)
      requires Valid() && Ready(config, topo) && node in nodes
      modifies this`links, this`topo, nodes.Values
      ensures Valid() && topo.Keys == old(topo).Keys
      ensures Built(error) == Visit(config, old(Built(None)), Port(node, conn))
    {
      error := None;
      if conn.to.None? {
        error := AddDummyLink(node, conn.AsConf());
      } else if conn.to.value in config.switches {
        if !conn.fits {
          return Some(NameTooLong);
        }
        error := AddLanLink(conn.to.value, config.switches[conn.to.value], node, conn.AsConf());
      } else if conn.name !in nodes[node].intfAddrs {
        var other := FindHost(conn.to.value);
        if other.None? {
          return Some(UnknownHost);
        }
        var oconf := FindMatchingNetConfig(node, conn, other.value);
        if oconf.None? {
          return Some(NoMatchingConfig);
        }
        assert conn.to.value in topo;
        AddP2pLink(node, conn.AsConf(), conn.to.value, oconf.value.AsConf());
      }
    }

    /** The connection with number `n`. */
    method ConnectNext(node: string, conn: Conn, ghost ports: seq<Port>, ghost t: Topo, ghost loop: nat -> Build,
                       ghost n: nat)
      returns (error: Option<BuildError>)
      requires Valid() && topo.Keys == t.Keys && node in nodes && IsLoop(config, ports, t, loop)
      requires n < |ports| && ports[n] == Port(node, conn) && loop(n) == Built(None)
      modifies this`links, this`topo, nodes.Values
      ensures Valid() && topo.Keys == t.Keys
      ensures loop(n + 1) == Built(error)
    {
      assert VisitAll(config, ports, t, n) == loop(n) && VisitAll(config, ports, t, n + 1) == loop(n + 1);
      error := ConnectPort(node, conn);
    }

    /** The connections of one node. */
    method ConnectHost(host: HostConf, ghost ports: seq<Port>, ghost t: Topo, ghost loop: nat -> Build,
                       ghost from: nat, ghost to: nat)
      returns (error: Option<BuildError>)
      requires Valid() && topo.Keys == t.Keys && host.name in nodes && IsLoop(config, ports, t, loop)
      requires PortsAt(ports, host, from, to) && loop(from) == Built(None)
      modifies this`links, this`topo, nodes.Values
      ensures Valid() && topo.Keys == t.Keys
      ensures loop(to) == Built(error)
    {
      error := None;
      ghost var n := from;
      for j := 0 to |host.connections|
        invariant Valid() && topo.Keys == t.Keys && n == from + j
        invariant error.None? && loop(n) == Built(None)
      {
        assert n < to && ports[n] == Port(host.name, host.connections[j]);
        error := ConnectNext(host.name, host.connections[j], ports, t, loop, n);
        n := n + 1;
        if error.Some? {
          LoopStaysFailed(config, ports, t, loop, n, to);
          return;
        }
      }
    }

    /** The nodes in order. */
    method ConnectHosts(ghost ports: seq<Port>, ghost t: Topo, ghost loop: nat -> Build, ghost start: seq<nat>)
      returns (error: Option<BuildError>)
      requires Valid() && topo.Keys == t.Keys && IsLoop(config, ports, t, loop)
      requires Starts(config.hosts, ports, start) && loop(0) == Built(None)
      requires forall i :: 0 <= i < |config.hosts| ==> config.hosts[i].name in nodes
      modifies this`links, this`topo, nodes.Values
      ensures Valid()
      ensures loop(|ports|) == Built(error)
    {
      error := None;
      var i := 0;
      while i < |config.hosts|
        invariant 0 <= i <= |config.hosts| && Valid() && topo.Keys == t.Keys
        invariant error.None? && loop(start[i]) == Built(None)
      {
        assert PortsAt(ports, config.hosts[i], start[i], start[i + 1]);
        error := ConnectHost(config.hosts[i], ports, t, loop, start[i], start[i + 1]);
        i := i + 1;
        if error.Some? {
          LoopStaysFailed(config, ports, t, loop, start[i], |ports|);
          return;
        }
      }
    }

    method ConnectAll() returns (error: Option<BuildError>)
      requires Valid() && Ready(config, topo) && links == []
      modifies this`links, this`topo, nodes.Values
      ensures Valid()
      ensures Built(error) == BuildAll(config, old(topo))
    {
      ghost var ports, t := Ports(config.hosts), topo;
      ghost var start := StartsOf(config.hosts);
      ghost var loop := LoopOf(config, ports, t);
      assert forall i :: 0 <= i < |config.hosts| ==> config.hosts[i] in config.hosts;
      assert VisitAll(config, ports, t, 0) == loop(0);
      error := ConnectHosts(ports, t, loop, start);
      assert VisitAll(config, ports, t, |ports|) == loop(|ports|);
    }
  }
}
