/** When the connection loop gets through and adds every link exactly once. */
module LinksOnce {
  import opened Options
  import opened Topology
  import opened PeerTables
  import opened Tables
  import opened Connections
  import opened LoopTrace
  import opened Pairings

  // ---------- what the loop added and why ----------

  /** Link `l` was added for connection i, which was matched with connection j; if the loop came
      to j first, then j is an end of two links. */
  ghost predicate Explains(cfg: Config, ports: seq<Port>, links: seq<Topology.Link>, l: Topology.Link, i: nat, j: nat) {
    && i < |ports| && j < |ports|
    && ToNode(cfg, ports[j]) && Matched(cfg, ports[i], ports[j])
    && EndsOf(l) == [ports[i].AsEnd(), ports[j].AsEnd()]
    && (j <= i ==> Count(links, ports[j].AsEnd()) >= 2)
  }

  ghost predicate Explained(cfg: Config, ports: seq<Port>, n: nat, links: seq<Topology.Link>)
    requires n <= |ports|
  {
    && (forall i :: 0 <= i < n ==> ports[i].AsEnd() in AllEnds(links))
    && (forall l :: l in links && l.P2pLink? ==> exists i: nat, j: nat :: Explains(cfg, ports, links, l, i, j))
  }

  /** An added link keeps the earlier ones explained. */
  lemma {:induction false} ExplainsMore(cfg: Config, ports: seq<Port>, links: seq<Topology.Link>, more: Topology.Link,
                                        l: Topology.Link, i: nat, j: nat)
    requires Explains(cfg, ports, links, l, i, j)
    ensures Explains(cfg, ports, links + [more], l, i, j)
  {
    CountAppend(links, more, ports[j].AsEnd());
  }

  /** The last link has one end more among those reached, or the connection twice. */
  lemma {:induction false} CountsTwice(ports: seq<Port>, n: nat, links: seq<Topology.Link>, l: Topology.Link, m: nat)
    requires m <= n < |ports| && (m < n ==> ports[m].AsEnd() in AllEnds(links))
    requires EndsOf(l) == [ports[n].AsEnd(), ports[m].AsEnd()]
    ensures Count(links + [l], ports[m].AsEnd()) >= 2
  {
    var e := ports[m].AsEnd();
    CountAppend(links, l, e);
    CountedIsEnd(links, e);
    assert multiset(EndsOf(l)) == multiset{ports[n].AsEnd(), e};
  }

  /** The step that adds a link between two nodes. */
  lemma {:induction false} ExplainsLast(cfg: Config, ports: seq<Port>, n: nat, links: seq<Topology.Link>)
      returns (m: nat)
    requires HasPorts(cfg, ports) && WellNamed(cfg, ports) && n < |ports| && Explained(cfg, ports, n, links)
    requires ToNode(cfg, ports[n]) && WantedLink(cfg, ports[n]).Link?
    ensures var l := WantedLink(cfg, ports[n]).link; Explains(cfg, ports, links + [l], l, n, m)
  {
    var q := WantedIsMatched(cfg, ports, ports[n]);
    m :| 0 <= m < |ports| && ports[m] == q;
    MatchedWants(cfg, ports[n], q);
    if m <= n {
      CountsTwice(ports, n, links, WantedLink(cfg, ports[n]).link, m);
    }
  }

  lemma {:induction false} ExplainedAdds(cfg: Config, ports: seq<Port>, n: nat, links: seq<Topology.Link>)
    requires HasPorts(cfg, ports) && WellNamed(cfg, ports) && n < |ports| && Explained(cfg, ports, n, links)
    requires WantedLink(cfg, ports[n]).Link?
    ensures Explained(cfg, ports, n + 1, links + [WantedLink(cfg, ports[n]).link])
  {
    var last := WantedLink(cfg, ports[n]).link;
    var links' := links + [last];
    AllEndsAppend(links, last);
    WantedEnds(cfg, ports, ports[n]);
    forall l | l in links' && l.P2pLink?
      ensures exists i: nat, j: nat :: Explains(cfg, ports, links', l, i, j)
    {
      if l in links {
        var i: nat, j: nat :| Explains(cfg, ports, links, l, i, j);
        ExplainsMore(cfg, ports, links, last, l, i, j);
      } else {
        var m := ExplainsLast(cfg, ports, n, links);
      }
    }
  }

  /** The ends of a wanted link are connections; the first one is the connection that wants it. */
  lemma {:induction false} WantedEnds(cfg: Config, ports: seq<Port>, p: Port)
    requires HasPorts(cfg, ports) && WantedLink(cfg, p).Link? && p in ports
    ensures var l := WantedLink(cfg, p).link;
            && EndsOf(l)[0] == p.AsEnd() && (l.P2pLink? <==> ToNode(cfg, p))
            && (forall e :: e in EndsOf(l) ==> exists i :: 0 <= i < |ports| && e == ports[i].AsEnd())
  {
    var k :| 0 <= k < |ports| && ports[k] == p;
    if ToNode(cfg, p) {
      var q := WantedIsMatched(cfg, ports, p);
      MatchedWants(cfg, p, q);
      var m :| 0 <= m < |ports| && ports[m] == q;
    } else {
      AcceptedWants(cfg, p);
    }
  }

  lemma {:induction false} ExplainedStep(cfg: Config, ports: seq<Port>, t: Topo, n: nat, b: Build)
    requires HasPorts(cfg, ports) && WellNamed(cfg, ports) && n < |ports|
    requires Bare(t) && Made(cfg, t, b) && Explained(cfg, ports, n, b.links)
    requires Ready(cfg, b.topo) && ports[n].node in b.topo && Visit(cfg, b, ports[n]).Ok?
    ensures Explained(cfg, ports, n + 1, Visit(cfg, b, ports[n]).links)
  {
    if !ToNode(cfg, ports[n]) || ports[n].AsEnd() !in Registered(b.topo) {
      VisitAdds(cfg, b, ports[n]);
      ExplainedAdds(cfg, ports, n, b.links);
    }
  }

  lemma {:induction false} ExplainedNext(cfg: Config, ports: seq<Port>, t: Topo, loop: nat -> Build, n: nat)
    requires HasPorts(cfg, ports) && WellNamed(cfg, ports) && Start(cfg, ports, t) && IsLoop(cfg, ports, t, loop)
    requires n < |ports| && loop(n).Ok? && loop(n + 1).Ok?
    requires Made(cfg, t, loop(n)) && Explained(cfg, ports, n, loop(n).links)
    ensures Explained(cfg, ports, n + 1, loop(n + 1).links)
  {
    var b := VisitAll(cfg, ports, t, n);
    assert b == loop(n) && VisitAll(cfg, ports, t, n + 1) == loop(n + 1);
    assert b.topo.Keys == t.Keys;
    ExplainedStep(cfg, ports, t, n, b);
  }

  lemma {:induction false} ExplainedLoop(cfg: Config, ports: seq<Port>, t: Topo, loop: nat -> Build, n: nat)
    requires HasPorts(cfg, ports) && WellNamed(cfg, ports) && Start(cfg, ports, t) && IsLoop(cfg, ports, t, loop)
    requires n <= |ports| && loop(n).Ok?
    ensures Explained(cfg, ports, n, loop(n).links)
  {
    if n == 0 {
      assert VisitAll(cfg, ports, t, 0) == loop(0);
    } else {
      LoopNext(cfg, ports, t, loop, n - 1);
      LoopIsMade(cfg, ports, t, loop, n - 1);
      ExplainedLoop(cfg, ports, t, loop, n - 1);
      ExplainedNext(cfg, ports, t, loop, n - 1);
    }
  }

  // ---------- what being counted once says ----------

  lemma {:induction false} CountSplit(links: seq<Topology.Link>, e: End)
    requires links != []
    ensures var n := |links| - 1;
            Count(links, e) == Count(links[..n], e) + multiset(EndsOf(links[n]))[e]
  {
  }

  /** An interface that is counted is an end of some link. */
  lemma {:induction false} EndOfSome(links: seq<Topology.Link>, e: End) returns (l: Topology.Link)
    requires e in AllEnds(links)
    ensures l in links && e in EndsOf(l)
  {
    var n := |links| - 1;
    l := links[n];
    if e !in EndsOf(l) {
      l := EndOfSome(links[..n], e);
    }
  }

  lemma {:induction false} EndCounts(links: seq<Topology.Link>, e: End, l: Topology.Link)
    requires l in links && e in EndsOf(l)
    ensures Count(links, e) > 0
  {
    EndsAmong(links, l);
    CountedIsEnd(links, e);
  }

  /** An interface counted once is an end of one link only, and only once. */
  lemma {:induction false} CountedOnce(links: seq<Topology.Link>, e: End, l: Topology.Link, m: Topology.Link)
    requires Count(links, e) == 1 && l in links && m in links && e in EndsOf(l) && e in EndsOf(m)
    ensures l == m && multiset(EndsOf(l))[e] == 1
  {
    var n := |links| - 1;
    CountSplit(links, e);
    assert e in EndsOf(links[n]) ==> multiset(EndsOf(links[n]))[e] > 0;
    if e in EndsOf(links[n]) {
      forall k | k in links[..n]
        ensures e !in EndsOf(k)
      {
        if e in EndsOf(k) {
          EndCounts(links[..n], e, k);
        }
      }
    } else {
      CountedOnce(links[..n], e, l, m);
    }
  }

  lemma {:induction false} CountsDistinct(s: seq<End>)
    requires forall e :: e in s ==> multiset(s)[e] == 1
    ensures Distinct(s)
  {
    forall i, j | 0 <= i < j < |s|
      ensures s[i] != s[j]
    {
      var a, b := s[..j], s[j..];
      assert s == a + b && multiset(s) == multiset(a) + multiset(b);
      assert a[i] == s[i] && s[i] in a && multiset(a)[s[i]] >= 1;
      assert b[0] == s[j] && s[j] in b && multiset(b)[s[j]] >= 1;
      assert s[i] in s && multiset(s)[s[i]] == 1;
    }
  }

  // ---------- the pairing ----------

  /** What a build that has every connection once is known to be. */
  ghost predicate Complete(cfg: Config, ports: seq<Port>, t: Topo, b: Build) {
    && EachOnce(ports, b) && WellNamed(cfg, ports) && HasPorts(cfg, ports)
    && Made(cfg, t, b) && Traced(cfg, ports, |ports|, b.links) && Explained(cfg, ports, |ports|, b.links)
  }

  lemma {:induction false} OnceIsComplete(cfg: Config, ports: seq<Port>, t: Topo)
    requires Start(cfg, ports, t) && WellNamed(cfg, ports) && HasPorts(cfg, ports)
    requires EachOnce(ports, VisitAll(cfg, ports, t, |ports|))
    ensures Complete(cfg, ports, t, VisitAll(cfg, ports, t, |ports|))
  {
    var loop := LoopOf(cfg, ports, t);
    assert VisitAll(cfg, ports, t, |ports|) == loop(|ports|);
    LoopIsMade(cfg, ports, t, loop, |ports|);
    ExplainedLoop(cfg, ports, t, loop, |ports|);
  }

  /** All ends of links are connections, so no two are the same. */
  lemma {:induction false} EndsDistinct(cfg: Config, ports: seq<Port>, t: Topo, b: Build)
    requires Complete(cfg, ports, t, b)
    ensures Distinct(AllEnds(b.links))
    ensures forall e :: e in AllEnds(b.links) <==> exists i :: 0 <= i < |ports| && e == ports[i].AsEnd()
  {
    forall e | e in AllEnds(b.links)
      ensures exists i :: 0 <= i < |ports| && e == ports[i].AsEnd()
    {
      var l := EndOfSome(b.links, e);
      var i :| 0 <= i < |ports| && WantedLink(cfg, ports[i]) == Link(l);
      WantedEnds(cfg, ports, ports[i]);
    }
    CountsDistinct(AllEnds(b.links));
  }

  predicate Joins(l: Topology.Link, e: End, f: End) {
    EndsOf(l) == [e, f] || EndsOf(l) == [f, e]
  }

  /** Connections i and j are the ends of a link, and the first one is matched with the second. */
  ghost predicate Other(cfg: Config, ports: seq<Port>, links: seq<Topology.Link>, i: nat, j: nat) {
    && i < |ports| && j < |ports| && i != j && ToNode(cfg, ports[j])
    && (exists l :: l in links && Joins(l, ports[i].AsEnd(), ports[j].AsEnd()))
    && (i < j ==> Matched(cfg, ports[i], ports[j]))
    && (j < i ==> Matched(cfg, ports[j], ports[i]))
  }

  /** The link of a connection to a node is a link between nodes. */
  lemma {:induction false} LinkToNode(cfg: Config, ports: seq<Port>, t: Topo, b: Build, l: Topology.Link, i: nat)
    requires Complete(cfg, ports, t, b) && i < |ports| && l in b.links && ports[i].AsEnd() in EndsOf(l)
    ensures ToNode(cfg, ports[i]) ==> l.P2pLink?
    ensures l.P2pLink? && EndsOf(l)[0] == ports[i].AsEnd() ==> ToNode(cfg, ports[i])
  {
    var k :| 0 <= k < |ports| && WantedLink(cfg, ports[k]) == Link(l);
    WantedEnds(cfg, ports, ports[k]);
    assert |EndsOf(l)| == if l.P2pLink? then 2 else 1;
    assert k != i ==> ports[k].AsEnd() != ports[i].AsEnd();
  }

  /** The two connections at the ends of a link between nodes. */
  lemma {:induction false} LinkPair(cfg: Config, ports: seq<Port>, t: Topo, b: Build, l: Topology.Link)
      returns (x: nat, y: nat)
    requires Complete(cfg, ports, t, b) && l in b.links && l.P2pLink?
    ensures x < y < |ports| && ToNode(cfg, ports[x]) && ToNode(cfg, ports[y]) && Matched(cfg, ports[x], ports[y])
    ensures EndsOf(l) == [ports[x].AsEnd(), ports[y].AsEnd()]
  {
    x, y :| Explains(cfg, ports, b.links, l, x, y);
    assert Count(b.links, ports[y].AsEnd()) == 1;
    LinkToNode(cfg, ports, t, b, l, x);
  }

  /** The connection at the other end of the link that connection i is in. */
  lemma {:induction false} OtherEnd(cfg: Config, ports: seq<Port>, t: Topo, b: Build, i: nat) returns (j: nat)
    requires Complete(cfg, ports, t, b) && i < |ports| && ToNode(cfg, ports[i])
    ensures Other(cfg, ports, b.links, i, j)
  {
    var e := ports[i].AsEnd();
    CountedIsEnd(b.links, e);
    var l := EndOfSome(b.links, e);
    LinkToNode(cfg, ports, t, b, l, i);
    var x, y := LinkPair(cfg, ports, t, b, l);
    assert x != i ==> ports[x].AsEnd() != e;
    assert y != i ==> ports[y].AsEnd() != e;
    j := if x == i then y else x;
    assert Joins(l, ports[i].AsEnd(), ports[j].AsEnd());
  }

  lemma {:induction false} JoinsSame(l: Topology.Link, e: End, f: End, g: End)
    requires Joins(l, e, f) && Joins(l, f, g) && e != f
    ensures e == g && e in EndsOf(l) && f in EndsOf(l)
  {
    assert EndsOf(l)[0] == e || EndsOf(l)[1] == e;
    assert EndsOf(l)[0] == f || EndsOf(l)[1] == f;
  }

  lemma {:induction false} SameEnd(cfg: Config, ports: seq<Port>, i: nat, j: nat)
    requires WellNamed(cfg, ports) && i < |ports| && j < |ports|
    ensures ports[i].AsEnd() == ports[j].AsEnd() ==> i == j
  {
  }

  lemma {:induction false} OtherIsInvolution(cfg: Config, ports: seq<Port>, links: seq<Topology.Link>,
                                             i: nat, j: nat, k: nat)
    requires WellNamed(cfg, ports) && Other(cfg, ports, links, i, j) && Other(cfg, ports, links, j, k)
    requires Count(links, ports[j].AsEnd()) == 1
    ensures k == i
  {
    var e, f, g := ports[i].AsEnd(), ports[j].AsEnd(), ports[k].AsEnd();
    var l :| l in links && Joins(l, e, f);
    var m :| m in links && Joins(m, f, g);
    SameEnd(cfg, ports, i, j);
    SameEnd(cfg, ports, i, k);
    JoinsCounted(links, e, f, g, l, m);
  }

  lemma {:induction false} JoinsCounted(links: seq<Topology.Link>, e: End, f: End, g: End,
                                        l: Topology.Link, m: Topology.Link)
    requires Count(links, f) == 1 && l in links && m in links && Joins(l, e, f) && Joins(m, f, g) && e != f
    ensures e == g
  {
    assert EndsOf(l)[0] == f || EndsOf(l)[1] == f;
    assert EndsOf(m)[0] == f || EndsOf(m)[1] == f;
    CountedOnce(links, f, l, m);
    JoinsSame(l, e, f, g);
  }

  ghost function PartnerOf(cfg: Config, ports: seq<Port>, t: Topo, b: Build, i: nat): (j: nat)
    requires Complete(cfg, ports, t, b) && i < |ports|
    ensures ToNode(cfg, ports[i]) ==> Other(cfg, ports, b.links, i, j)
  {
    if ToNode(cfg, ports[i]) then
      assert exists j: nat :: Other(cfg, ports, b.links, i, j) by {
        var j := OtherEnd(cfg, ports, t, b, i);
      }
      var j: nat :| Other(cfg, ports, b.links, i, j);
      j
    else
      0
  }

  /** If every connection is an end of exactly one link, then the links are a pairing. */
  lemma {:induction false} OnceIsPaired(cfg: Config, ports: seq<Port>, t: Topo, b: Build) returns (partner: seq<nat>)
    requires Complete(cfg, ports, t, b)
    ensures Pairing(cfg, ports, partner)
  {
    partner := seq(|ports|, i requires 0 <= i < |ports| => PartnerOf(cfg, ports, t, b, i));
    forall i | 0 <= i < |ports| && ToNode(cfg, ports[i])
      ensures PairedAt(cfg, ports, partner, i)
    {
      var j := partner[i];
      assert Other(cfg, ports, b.links, i, j);
      assert Other(cfg, ports, b.links, j, partner[j]);
      OtherIsInvolution(cfg, ports, b.links, i, j, partner[j]);
    }
  }

  // ---------- the assertions ----------

  /** Connections of one node to one bridge have links that meet at the bridge. */
  lemma {:induction false} SameBridgeMeets(cfg: Config, p: Port, q: Port)
    requires SameBridge(cfg, p, q) && WantedLink(cfg, p).Link? && WantedLink(cfg, q).Link? && p.conn.name != q.conn.name
    ensures SameNet(WantedLink(cfg, p).link, WantedLink(cfg, q).link)
    ensures WantedLink(cfg, p).link != WantedLink(cfg, q).link
  {
    OwnLink(cfg, p);
    OwnLink(cfg, q);
  }

  lemma {:induction false} OnePerNetPair(links: seq<Topology.Link>, l: Topology.Link, m: Topology.Link)
    requires OnePerNet(links) && l in links && m in links && l != m
    ensures !SameNet(l, m)
  {
    var i :| 0 <= i < |links| && links[i] == l;
    var j :| 0 <= j < |links| && links[j] == m;
    assert i < j || j < i;
  }

  /** A build that gets through and has every connection once has accepted all of them. */
  lemma {:induction false} OnceIsAccepted(cfg: Config, ports: seq<Port>, t: Topo, b: Build)
    requires Complete(cfg, ports, t, b) && NoNets(t)
    ensures Accepted(cfg, ports)
  {
    EndsDistinct(cfg, ports, t, b);
    ConnectSucceedsIff(t, b.links, cfg.env);
    forall i | 0 <= i < |ports|
      ensures PortAccepted(cfg, ports[i])
    {
      if !ToNode(cfg, ports[i]) {
        AcceptedWants(cfg, ports[i]);
      }
    }
    forall i, j | 0 <= i < j < |ports|
      ensures !SameBridge(cfg, ports[i], ports[j])
    {
      if SameBridge(cfg, ports[i], ports[j]) {
        assert ports[i].AsEnd() != ports[j].AsEnd();
        SameBridgeMeets(cfg, ports[i], ports[j]);
        OnePerNetPair(b.links, WantedLink(cfg, ports[i]).link, WantedLink(cfg, ports[j]).link);
      }
    }
  }

  // ---------- the theorem ----------

  /** The build of a configuration, from nodes without interfaces. */
  ghost predicate Fresh(cfg: Config, t: Topo) {
    Ready(cfg, t) && Bare(t) && WellNamed(cfg, Ports(cfg.hosts))
  }

  /** The build gets through and adds every link exactly once if and only if the p2p connections
      can be paired so that the first of each pair is matched with the second, and the assertions
      accept the others: no node has two connections to one bridge, none of those to a bridge has an
      explicit IPv6 address or too long a name, and addresses are of the version their key says. */
  lemma {:induction false} EachOnceIffPaired(cfg: Config, t: Topo)
    requires Fresh(cfg, t)
    ensures var ports := Ports(cfg.hosts);
            EachOnce(ports, BuildAll(cfg, t))
            <==> (exists partner :: Pairing(cfg, ports, partner)) && Accepted(cfg, ports)
  {
    var ports, b := Ports(cfg.hosts), BuildAll(cfg, t);
    PortsHasPorts(cfg);
    if EachOnce(ports, b) {
      OnceIsComplete(cfg, ports, t);
      var partner := OnceIsPaired(cfg, ports, t, b);
      OnceIsAccepted(cfg, ports, t, b);
    }
    if (exists partner :: Pairing(cfg, ports, partner)) && Accepted(cfg, ports) {
      var partner :| Pairing(cfg, ports, partner);
      PairedIsOnce(cfg, ports, t, partner);
    }
  }

  // ---------- configurations that fail ----------

  /** A connection with nothing but a destination and a name. */
  function Plain(to: string, name: string): Conn {
    Conn(Some(to), name, "", None, None, true)
  }

  /** A node with two connections to one bridge. */
  function Twice(node: string, net: string, x: string, y: string, env: Env): Config {
    Config([HostConf(node, [Plain(net, x), Plain(net, y)])], map[net := 1], env)
  }

  lemma {:induction false} PortsOfOne(node: string, conns: seq<Conn>)
    ensures Ports([HostConf(node, conns)]) == PortsOf(node, conns)
  {
    PortsOfLast([HostConf(node, conns)]);
  }

  /** Though nothing is wrong with its names and it has no p2p connections, the build fails. */
  lemma {:induction false} TwiceOnBridgeFails(node: string, net: string, x: string, y: string, env: Env, t: Topo)
    requires node != net && x != y && Fresh(Twice(node, net, x, y, env), t)
    ensures var cfg := Twice(node, net, x, y, env);
            && Pairing(cfg, Ports(cfg.hosts), [0, 0])
            && !EachOnce(Ports(cfg.hosts), BuildAll(cfg, t))
  {
    var cfg := Twice(node, net, x, y, env);
    PortsOfOne(node, cfg.hosts[0].connections);
    var ports := Ports(cfg.hosts);
    assert ports == [Port(node, Plain(net, x)), Port(node, Plain(net, y))];
    assert SameBridge(cfg, ports[0], ports[1]);
    EachOnceIffPaired(cfg, t);
  }

  /** Nodes `a` and `b` with two parallel links, on interfaces `x` and `y`, and no remote names. */
  function Parallel(a: string, b: string, x: string, y: string, env: Env): Config {
    Config([HostConf(a, [Plain(b, x), Plain(b, y)]), HostConf(b, [Plain(a, x), Plain(a, y)])], map[], env)
  }

  lemma {:induction false} PortsOfTwo(a: HostConf, b: HostConf)
    ensures Ports([a, b]) == PortsOf(a.name, a.connections) + PortsOf(b.name, b.connections)
  {
    PortsOfLast([a, b]);
    PortsOfOne(a.name, a.connections);
    assert [a, b][..1] == [a];
  }

  lemma {:induction false} ParallelPorts(a: string, b: string, x: string, y: string, env: Env)
    ensures Ports(Parallel(a, b, x, y, env).hosts) ==
            [Port(a, Plain(b, x)), Port(a, Plain(b, y)), Port(b, Plain(a, x)), Port(b, Plain(a, y))]
  {
    PortsOfTwo(HostConf(a, [Plain(b, x), Plain(b, y)]), HostConf(b, [Plain(a, x), Plain(a, y)]));
  }

  /** Both connections of `a` are matched with the first one of `b`. */
  lemma {:induction false} ParallelFinds(a: string, b: string, x: string, y: string, env: Env, c: Conn)
    requires a != b && c.remoteName == ""
    ensures HostConns(Parallel(a, b, x, y, env).hosts, b) == Some([Plain(a, x), Plain(a, y)])
    ensures FindMatching(a, c, [Plain(a, x), Plain(a, y)]) == Some(Plain(a, x))
  {
    var hosts := Parallel(a, b, x, y, env).hosts;
    var d := [Plain(a, x), Plain(a, y)];
    assert hosts[1..] == [HostConf(b, d)];
    assert HostConns(hosts, b) == HostConns(hosts[1..], b);
    assert AllTo(d, a) == AllTo(d[..1], a) + [d[1]];
    assert d[..1] == [d[0]] && AllTo([d[0]], a) == AllTo([d[0]][..0], a) + [d[0]];
  }

  lemma {:induction false} ParallelMatch(a: string, b: string, x: string, y: string, env: Env, i: nat, j: nat)
    requires a != b && x != y && i < 2 && j < 4
    requires var cfg := Parallel(a, b, x, y, env);
             |Ports(cfg.hosts)| == 4 && Matched(cfg, Ports(cfg.hosts)[i], Ports(cfg.hosts)[j])
    ensures j == 2
  {
    ParallelPorts(a, b, x, y, env);
    var ports := Ports(Parallel(a, b, x, y, env).hosts);
    assert ports[j].node == b;
    ParallelFinds(a, b, x, y, env, ports[i].conn);
    assert ports[j].conn == Plain(a, x);
  }

  lemma {:induction false} ParallelUnpaired(a: string, b: string, x: string, y: string, env: Env, partner: seq<nat>)
    requires a != b && x != y
    ensures var cfg := Parallel(a, b, x, y, env); !Pairing(cfg, Ports(cfg.hosts), partner)
  {
    var cfg := Parallel(a, b, x, y, env);
    var ports := Ports(cfg.hosts);
    ParallelPorts(a, b, x, y, env);
    if Pairing(cfg, ports, partner) {
      assert ToNode(cfg, ports[0]) && ToNode(cfg, ports[1]);
      assert PairedAt(cfg, ports, partner, 0) && PairedAt(cfg, ports, partner, 1);
      ParallelMatch(a, b, x, y, env, 0, partner[0]);
      if 1 < partner[1] {
        ParallelMatch(a, b, x, y, env, 1, partner[1]);
      }
    }
  }

  lemma {:induction false} ParallelAccepted(a: string, b: string, x: string, y: string, env: Env)
    ensures var cfg := Parallel(a, b, x, y, env); Accepted(cfg, Ports(cfg.hosts))
  {
    var cfg := Parallel(a, b, x, y, env);
    ParallelPorts(a, b, x, y, env);
    forall i | 0 <= i < 4
      ensures ToNode(cfg, Ports(cfg.hosts)[i])
    {
    }
  }

  /** They are not matched in pairs: the first connection of the second node is taken twice. */
  lemma {:induction false} ParallelLinksFail(a: string, b: string, x: string, y: string, env: Env, t: Topo)
    requires a != b && x != y && Fresh(Parallel(a, b, x, y, env), t)
    ensures var cfg := Parallel(a, b, x, y, env);
            Accepted(cfg, Ports(cfg.hosts)) && !EachOnce(Ports(cfg.hosts), BuildAll(cfg, t))
  {
    var cfg := Parallel(a, b, x, y, env);
    ParallelAccepted(a, b, x, y, env);
    EachOnceIffPaired(cfg, t);
    forall partner
      ensures !Pairing(cfg, Ports(cfg.hosts), partner)
    {
      ParallelUnpaired(a, b, x, y, env, partner);
    }
  }

  /** Such nodes are nothing out of the ordinary: names are in order, and there are nodes to start with. */
  lemma {:induction false} FreshExists(cfg: Config, id: nat)
    requires WellNamed(cfg, Ports(cfg.hosts)) && id < 0x7FFF
    requires forall name :: name in cfg.switches ==> cfg.switches[name] < 0xFDFF
    ensures Fresh(cfg, map n | n in HostNames(cfg.hosts) :: NewHost(id))
  {
  }
}
