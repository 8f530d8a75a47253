/** A pairing of the p2p connections makes the connection loop add every link exactly once. */
module Pairings {
  import opened Options
  import opened Topology
  import opened PeerTables
  import opened Tables
  import opened Connections
  import opened LoopTrace

  /** Interface names are unique per node, and no node has the name of a bridge. */
  predicate WellNamed(cfg: Config, ports: seq<Port>) {
    && (forall i, j :: 0 <= i < j < |ports| ==> ports[i].AsEnd() != ports[j].AsEnd())
    && (forall i :: 0 <= i < |ports| ==> ports[i].node !in cfg.switches)
  }

  /** How often an interface is an end of a link. */
  function Count(links: seq<Topology.Link>, e: End): nat {
    multiset(AllEnds(links))[e]
  }

  /** The build succeeds, and every connection is an end of exactly one link. */
  predicate EachOnce(ports: seq<Port>, b: Build) {
    b.Ok? && forall i :: 0 <= i < |ports| ==> Count(b.links, ports[i].AsEnd()) == 1
  }

  /** The p2p connections come in pairs, and of each pair the one that the loop comes to first is
      matched with the other. */
  predicate Pairing(cfg: Config, ports: seq<Port>, partner: seq<nat>) {
    && |partner| == |ports|
    && forall i :: 0 <= i < |ports| && ToNode(cfg, ports[i]) ==> PairedAt(cfg, ports, partner, i)
  }

  predicate PairedAt(cfg: Config, ports: seq<Port>, partner: seq<nat>, i: nat)
    requires i < |ports| == |partner|
  {
    var j := partner[i];
    && j < |ports| && j != i && ToNode(cfg, ports[j]) && partner[j] == i
    && (i < j ==> Matched(cfg, ports[i], ports[j]))
  }

  /** Both connections are of one node to one bridge. */
  predicate SameBridge(cfg: Config, p: Port, q: Port) {
    p.node == q.node && p.conn.to.Some? && p.conn.to == q.conn.to && !ToNode(cfg, p)
  }

  /** What the assertions of the loop demand of the connections that do not lead to nodes. */
  predicate Accepted(cfg: Config, ports: seq<Port>) {
    && (forall i :: 0 <= i < |ports| ==> PortAccepted(cfg, ports[i]))
    && (forall i, j :: 0 <= i < j < |ports| ==> !SameBridge(cfg, ports[i], ports[j]))
  }

  /** The start of a build: the nodes are there, and have no interfaces. */
  predicate Start(cfg: Config, ports: seq<Port>, t: Topo) {
    Ready(cfg, t) && NodesIn(ports, t) && Bare(t)
  }

  lemma {:induction false} CountAppend(links: seq<Topology.Link>, l: Topology.Link, e: End)
    ensures Count(links + [l], e) == Count(links, e) + multiset(EndsOf(l))[e]
  {
    AllEndsAppend(links, l);
  }

  lemma {:induction false} CountedIsEnd(links: seq<Topology.Link>, e: End)
    ensures Count(links, e) > 0 <==> e in AllEnds(links)
  {
  }

  // ---------- the connections of the node to a bridge ----------

  /** The connection's own link, for one that does not lead to a node. */
  lemma {:induction false} OwnLink(cfg: Config, p: Port)
    requires !ToNode(cfg, p) && WantedLink(cfg, p).Link?
    ensures var l := WantedLink(cfg, p).link;
            && (l.LanLink? <==> p.conn.to.Some?)
            && (l.LanLink? ==> l.net == p.conn.to.value && l.node == p.node && l.conf.name == p.conn.name)
  {
  }

  /** A wanted LAN link comes from a connection of its node to its bridge. */
  lemma {:induction false} LanIsWanted(cfg: Config, p: Port)
    requires WantedLink(cfg, p).Link? && WantedLink(cfg, p).link.LanLink?
    ensures !ToNode(cfg, p) && p.conn.to == Some(WantedLink(cfg, p).link.net) && p.node == WantedLink(cfg, p).link.node
  {
  }

  /** The next connection meets a free bridge. */
  lemma {:induction false} BridgeFree(cfg: Config, ports: seq<Port>, t: Topo, n: nat, b: Build)
    requires n < |ports| && Accepted(cfg, ports) && Made(cfg, t, b) && Traced(cfg, ports, n, b.links)
    requires ports[n].AsEnd() !in AllEnds(b.links) && WantedLink(cfg, ports[n]).Link?
    requires Known(b.topo, WantedLink(cfg, ports[n]).link)
    ensures NetFree(b.topo, WantedLink(cfg, ports[n]).link)
  {
    var last := WantedLink(cfg, ports[n]).link;
    if last.LanLink? {
      LanIsWanted(cfg, ports[n]);
      AcceptedWants(cfg, ports[n]);
      forall l | l in b.links
        ensures !SameNet(l, last)
      {
        var i :| 0 <= i < n && WantedLink(cfg, ports[i]) == Link(l);
        assert !SameBridge(cfg, ports[i], ports[n]);
        if l.LanLink? {
          LanIsWanted(cfg, ports[i]);
        }
      }
      NetFreeIff(t, b.topo, b.links, last);
    }
  }

  // ---------- a pairing makes every link once ----------

  /** The loop has come to connection i, or to its partner, among the first `n`. */
  predicate Reached(cfg: Config, ports: seq<Port>, partner: seq<nat>, n: nat, i: nat)
    requires i < |ports| == |partner|
  {
    i < n || (ToNode(cfg, ports[i]) && partner[i] < n)
  }

  ghost predicate CountedSoFar(cfg: Config, ports: seq<Port>, partner: seq<nat>, n: nat, links: seq<Topology.Link>)
    requires |ports| == |partner|
  {
    && (forall i :: 0 <= i < |ports| ==>
          Count(links, ports[i].AsEnd()) == if Reached(cfg, ports, partner, n, i) then 1 else 0)
    && (forall e :: e in AllEnds(links) ==> exists i :: 0 <= i < |ports| && e == ports[i].AsEnd())
  }

  /** A link whose ends are what the loop reaches with connection `n`. */
  lemma {:induction false} CountedLink(cfg: Config, ports: seq<Port>, partner: seq<nat>, n: nat,
                                       links: seq<Topology.Link>, l: Topology.Link)
    requires |ports| == |partner| && n < |ports| && CountedSoFar(cfg, ports, partner, n, links)
    requires forall i :: 0 <= i < |ports| ==>
               multiset(EndsOf(l))[ports[i].AsEnd()] ==
                 if Reached(cfg, ports, partner, n + 1, i) && !Reached(cfg, ports, partner, n, i) then 1 else 0
    requires forall e :: e in EndsOf(l) ==> exists i :: 0 <= i < |ports| && e == ports[i].AsEnd()
    ensures CountedSoFar(cfg, ports, partner, n + 1, links + [l])
  {
    AllEndsAppend(links, l);
    forall i | 0 <= i < |ports|
      ensures Count(links + [l], ports[i].AsEnd()) == if Reached(cfg, ports, partner, n + 1, i) then 1 else 0
    {
      CountAppend(links, l, ports[i].AsEnd());
      assert Reached(cfg, ports, partner, n, i) ==> Reached(cfg, ports, partner, n + 1, i);
    }
  }

  /** What is reached with a p2p connection that comes before its partner. */
  lemma {:induction false} ReachesTwo(cfg: Config, ports: seq<Port>, partner: seq<nat>, n: nat, i: nat)
    requires Pairing(cfg, ports, partner) && WellNamed(cfg, ports) && n < |ports| && i < |ports|
    requires ToNode(cfg, ports[n]) && n < partner[n]
    ensures multiset([ports[n].AsEnd(), ports[partner[n]].AsEnd()])[ports[i].AsEnd()] ==
              if Reached(cfg, ports, partner, n + 1, i) && !Reached(cfg, ports, partner, n, i) then 1 else 0
  {
    var m := partner[n];
    assert PairedAt(cfg, ports, partner, n);
    assert ToNode(cfg, ports[i]) ==> PairedAt(cfg, ports, partner, i);
    assert ports[n].AsEnd() != ports[m].AsEnd();
    assert i != n ==> ports[i].AsEnd() != ports[n].AsEnd();
    assert i != m ==> ports[i].AsEnd() != ports[m].AsEnd();
  }

  /** What is reached with a connection that does not lead to a node. */
  lemma {:induction false} ReachesOne(cfg: Config, ports: seq<Port>, partner: seq<nat>, n: nat, i: nat)
    requires Pairing(cfg, ports, partner) && WellNamed(cfg, ports) && n < |ports| && i < |ports|
    requires !ToNode(cfg, ports[n])
    ensures multiset([ports[n].AsEnd()])[ports[i].AsEnd()] ==
              if Reached(cfg, ports, partner, n + 1, i) && !Reached(cfg, ports, partner, n, i) then 1 else 0
  {
    assert ToNode(cfg, ports[i]) ==> PairedAt(cfg, ports, partner, i);
    assert i != n ==> ports[i].AsEnd() != ports[n].AsEnd();
  }

  /** Nothing more is reached with a p2p connection that comes after its partner. */
  lemma {:induction false} ReachesNone(cfg: Config, ports: seq<Port>, partner: seq<nat>, n: nat, i: nat)
    requires Pairing(cfg, ports, partner) && n < |ports| && i < |ports|
    requires ToNode(cfg, ports[n]) && partner[n] < n
    ensures Reached(cfg, ports, partner, n + 1, i) <==> Reached(cfg, ports, partner, n, i)
  {
    assert PairedAt(cfg, ports, partner, n);
    assert ToNode(cfg, ports[i]) ==> PairedAt(cfg, ports, partner, i);
  }

  /** The interfaces in the tables are those the loop has reached. */
  lemma {:induction false} RegisteredIffReached(cfg: Config, ports: seq<Port>, partner: seq<nat>, t: Topo, n: nat,
                                                b: Build, i: nat)
    requires |ports| == |partner| && i < |ports| && Bare(t) && Made(cfg, t, b)
    requires CountedSoFar(cfg, ports, partner, n, b.links)
    ensures ports[i].AsEnd() in Registered(b.topo) <==> Reached(cfg, ports, partner, n, i)
    ensures ports[i].AsEnd() in AllEnds(b.links) <==> Reached(cfg, ports, partner, n, i)
  {
    CountedIsEnd(b.links, ports[i].AsEnd());
  }

  /** What the loop has done when it has come to connection `n`. */
  ghost predicate Going(cfg: Config, ports: seq<Port>, partner: seq<nat>, t: Topo, n: nat, b: Build)
    requires n <= |ports| == |partner|
  {
    && Made(cfg, t, b) && Traced(cfg, ports, n, b.links)
    && CountedSoFar(cfg, ports, partner, n, b.links)
  }

  /** A connection whose link is accepted, and whose ends are what it reaches. */
  lemma {:induction false} PairedAdds(cfg: Config, ports: seq<Port>, partner: seq<nat>, t: Topo, n: nat, b: Build)
    requires Accepted(cfg, ports) && n < |ports| == |partner|
    requires Bare(t) && Going(cfg, ports, partner, t, n, b) && Ready(cfg, b.topo) && ports[n].node in b.topo
    requires !Reached(cfg, ports, partner, n, n)
    requires WantedLink(cfg, ports[n]).Link? && Acceptable(WantedLink(cfg, ports[n]).link)
    requires forall i :: 0 <= i < |ports| ==>
               multiset(EndsOf(WantedLink(cfg, ports[n]).link))[ports[i].AsEnd()] ==
                 if Reached(cfg, ports, partner, n + 1, i) && !Reached(cfg, ports, partner, n, i) then 1 else 0
    requires forall e :: e in EndsOf(WantedLink(cfg, ports[n]).link)
                         ==> exists i :: 0 <= i < |ports| && e == ports[i].AsEnd()
    ensures var r := Visit(cfg, b, ports[n]);
            r.Ok? && CountedSoFar(cfg, ports, partner, n + 1, r.links)
  {
    RegisteredIffReached(cfg, ports, partner, t, n, b, n);
    VisitAdds(cfg, b, ports[n]);
    BridgeFree(cfg, ports, t, n, b);
    CountedLink(cfg, ports, partner, n, b.links, WantedLink(cfg, ports[n]).link);
  }

  lemma {:induction false} PairedToNode(cfg: Config, ports: seq<Port>, partner: seq<nat>, t: Topo, n: nat, b: Build)
    requires WellNamed(cfg, ports) && Pairing(cfg, ports, partner) && Accepted(cfg, ports) && n < |ports|
    requires Bare(t) && Going(cfg, ports, partner, t, n, b) && Ready(cfg, b.topo) && ports[n].node in b.topo
    requires ToNode(cfg, ports[n]) && n < partner[n]
    ensures var r := Visit(cfg, b, ports[n]);
            r.Ok? && CountedSoFar(cfg, ports, partner, n + 1, r.links)
  {
    assert PairedAt(cfg, ports, partner, n);
    MatchedWants(cfg, ports[n], ports[partner[n]]);
    forall i | 0 <= i < |ports|
      ensures multiset([ports[n].AsEnd(), ports[partner[n]].AsEnd()])[ports[i].AsEnd()] ==
                if Reached(cfg, ports, partner, n + 1, i) && !Reached(cfg, ports, partner, n, i) then 1 else 0
    {
      ReachesTwo(cfg, ports, partner, n, i);
    }
    PairedAdds(cfg, ports, partner, t, n, b);
  }

  lemma {:induction false} PairedElsewhere(cfg: Config, ports: seq<Port>, partner: seq<nat>, t: Topo, n: nat, b: Build)
    requires WellNamed(cfg, ports) && Pairing(cfg, ports, partner) && Accepted(cfg, ports) && n < |ports|
    requires Bare(t) && Going(cfg, ports, partner, t, n, b) && Ready(cfg, b.topo) && ports[n].node in b.topo
    requires !ToNode(cfg, ports[n])
    ensures var r := Visit(cfg, b, ports[n]);
            r.Ok? && CountedSoFar(cfg, ports, partner, n + 1, r.links)
  {
    assert PortAccepted(cfg, ports[n]);
    AcceptedWants(cfg, ports[n]);
    forall i | 0 <= i < |ports|
      ensures multiset([ports[n].AsEnd()])[ports[i].AsEnd()] ==
                if Reached(cfg, ports, partner, n + 1, i) && !Reached(cfg, ports, partner, n, i) then 1 else 0
    {
      ReachesOne(cfg, ports, partner, n, i);
    }
    PairedAdds(cfg, ports, partner, t, n, b);
  }

  lemma {:induction false} PairedSkips(cfg: Config, ports: seq<Port>, partner: seq<nat>, t: Topo, n: nat, b: Build)
    requires Pairing(cfg, ports, partner) && n < |ports|
    requires Bare(t) && Going(cfg, ports, partner, t, n, b) && Ready(cfg, b.topo) && ports[n].node in b.topo
    requires ToNode(cfg, ports[n]) && partner[n] < n
    ensures Visit(cfg, b, ports[n]) == b && CountedSoFar(cfg, ports, partner, n + 1, b.links)
  {
    RegisteredIffReached(cfg, ports, partner, t, n, b, n);
    forall i | 0 <= i < |ports|
      ensures Reached(cfg, ports, partner, n + 1, i) <==> Reached(cfg, ports, partner, n, i)
    {
      ReachesNone(cfg, ports, partner, n, i);
    }
  }

  lemma {:induction false} PairedStep(cfg: Config, ports: seq<Port>, partner: seq<nat>, t: Topo, n: nat, b: Build)
    requires WellNamed(cfg, ports) && Pairing(cfg, ports, partner) && Accepted(cfg, ports) && n < |ports|
    requires Bare(t) && Going(cfg, ports, partner, t, n, b) && Ready(cfg, b.topo) && ports[n].node in b.topo
    ensures Going(cfg, ports, partner, t, n + 1, Visit(cfg, b, ports[n]))
  {
    if !ToNode(cfg, ports[n]) {
      PairedElsewhere(cfg, ports, partner, t, n, b);
    } else {
      assert PairedAt(cfg, ports, partner, n);
      if n < partner[n] {
        PairedToNode(cfg, ports, partner, t, n, b);
      } else {
        PairedSkips(cfg, ports, partner, t, n, b);
      }
    }
    RunStep(cfg, ports, t, n, b);
  }

  lemma {:induction false} PairedStart(cfg: Config, ports: seq<Port>, partner: seq<nat>, t: Topo)
    requires Bare(t) && Pairing(cfg, ports, partner)
    ensures Going(cfg, ports, partner, t, 0, Ok(t, []))
  {
    forall i | 0 <= i < |ports|
      ensures !Reached(cfg, ports, partner, 0, i)
    {
    }
  }

  lemma {:induction false} PairedNext(cfg: Config, ports: seq<Port>, partner: seq<nat>, t: Topo,
                                      loop: nat -> Build, n: nat)
    requires Start(cfg, ports, t) && WellNamed(cfg, ports) && IsLoop(cfg, ports, t, loop)
    requires Pairing(cfg, ports, partner) && Accepted(cfg, ports) && n < |ports|
    requires Going(cfg, ports, partner, t, n, loop(n))
    ensures Going(cfg, ports, partner, t, n + 1, loop(n + 1))
  {
    var b := VisitAll(cfg, ports, t, n);
    assert b == loop(n) && VisitAll(cfg, ports, t, n + 1) == loop(n + 1);
    assert b.topo.Keys == t.Keys;
    PairedStep(cfg, ports, partner, t, n, b);
  }

  lemma {:induction false} PairedLoop(cfg: Config, ports: seq<Port>, partner: seq<nat>, t: Topo,
                                      loop: nat -> Build, n: nat)
    requires Start(cfg, ports, t) && WellNamed(cfg, ports) && IsLoop(cfg, ports, t, loop)
    requires Pairing(cfg, ports, partner) && Accepted(cfg, ports) && n <= |ports|
    ensures Going(cfg, ports, partner, t, n, loop(n))
  {
    if n == 0 {
      PairedStart(cfg, ports, partner, t);
      assert VisitAll(cfg, ports, t, 0) == loop(0);
    } else {
      PairedLoop(cfg, ports, partner, t, loop, n - 1);
      PairedNext(cfg, ports, partner, t, loop, n - 1);
    }
  }

  /** With a pairing, and connections that its assertions accept, the loop gets through, every
      connection is an end of one link, and exactly the configured interfaces are registered. */
  lemma {:induction false} PairedIsOnce(cfg: Config, ports: seq<Port>, t: Topo, partner: seq<nat>)
    requires Start(cfg, ports, t) && WellNamed(cfg, ports)
    requires Pairing(cfg, ports, partner) && Accepted(cfg, ports)
    ensures var b := VisitAll(cfg, ports, t, |ports|);
            && EachOnce(ports, b)
            && (forall e :: e in Registered(b.topo) <==> exists i :: 0 <= i < |ports| && e == ports[i].AsEnd())
  {
    var loop := LoopOf(cfg, ports, t);
    PairedLoop(cfg, ports, partner, t, loop, |ports|);
    var b := VisitAll(cfg, ports, t, |ports|);
    assert b == loop(|ports|);
    forall i | 0 <= i < |ports|
      ensures Count(b.links, ports[i].AsEnd()) == 1
      ensures ports[i].AsEnd() in Registered(b.topo)
    {
      assert Reached(cfg, ports, partner, |ports|, i);
      RegisteredIffReached(cfg, ports, partner, t, |ports|, b, i);
    }
  }
}
