/** The automatic addresses of a whole build are pairwise different. */
module BuildPlan {
  import opened Options
  import opened Addresses
  import opened Topology
  import opened PeerTables
  import opened Tables

  /** The automatic p2p links the node sources. */
  function Sourced(links: seq<Link>, node: string): nat {
    if links == [] then
      0
    else
      var l := links[|links| - 1];
      Sourced(links[..|links| - 1], node) + if l.P2pLink? && l.n1 == node then 1 else 0
  }

  /** What the interfaces of a link are given when `k` links of its source came before. */
  function ItemsOf(t: Topo, l: Link, k: nat): seq<Item>
    requires Known(t, l)
  {
    match l
    case DummyLink(_, _) => []
    case LanLink(_, brid, node, _) => [Lan(brid, t[node].id)]
    case P2pLink(n1, _, _, _) => [P2p(t[n1].id, k, false), P2p(t[n1].id, k, true)]
  }

  /** The interfaces that get automatic addresses. */
  function AutoEndsOf(l: Link): seq<End> {
    if l.DummyLink? then [] else EndsOf(l)
  }

  function AutoEnds(links: seq<Link>): seq<End> {
    if links == [] then [] else AutoEnds(links[..|links| - 1]) + AutoEndsOf(links[|links| - 1])
  }

  /** The node that sources a p2p link. */
  function Source(l: Link): string {
    if l.P2pLink? then l.n1 else l.node
  }

  /** What each interface is given, in the order of `AutoEnds`. */
  function Items(t: Topo, links: seq<Link>): (r: seq<Item>)
    requires AllKnown(t, links)
    ensures |r| == |AutoEnds(links)|
  {
    if links == [] then
      []
    else
      var init, l := links[..|links| - 1], links[|links| - 1];
      assert l in links;
      Items(t, init) + ItemsOf(t, l, Sourced(init, Source(l)))
  }

  lemma {:induction false} Append(t: Topo, init: seq<Link>, l: Link)
    requires AllKnown(t, init + [l]) && AllKnown(t, init) && Known(t, l)
    ensures AutoEnds(init + [l]) == AutoEnds(init) + AutoEndsOf(l)
    ensures Items(t, init + [l]) == Items(t, init) + ItemsOf(t, l, Sourced(init, Source(l)))
  {
    assert (init + [l])[..|init|] == init;
  }

  lemma {:induction false} SourcedAppend(init: seq<Link>, l: Link)
    ensures forall n :: Sourced(init + [l], n) == Sourced(init, n) + Uses(l, n)
  {
    assert (init + [l])[..|init|] == init;
  }

  lemma {:induction false} AutoEndsAmong(links: seq<Link>)
    ensures forall e :: e in AutoEnds(links) ==> e in AllEnds(links)
  {
    if links != [] {
      AutoEndsAmong(links[..|links| - 1]);
    }
  }

  predicate Automatic(c: Conf) {
    c.ip.None? && c.ipv6.None?
  }

  /** The link's addresses are left to the plan; one that leads nowhere gets none from it. */
  predicate LinkAutomatic(l: Link) {
    match l
    case DummyLink(_, conf) => WellVersioned(conf)
    case LanLink(_, _, _, conf) => Automatic(conf)
    case P2pLink(_, c1, _, c2) => Automatic(c1) && Automatic(c2)
  }

  predicate IdsBounded(t: Topo) {
    forall n :: n in t ==> t[n].id < 0x7FFF
  }

  predicate FreshNodes(t: Topo) {
    && IdsBounded(t)
    && (forall n :: n in t ==> t[n] == NewHost(t[n].id))
    && (forall n, m :: n in t && m in t && n != m ==> t[n].id != t[m].id)
  }

  /** Different bridges have different identifiers. */
  predicate OneNetPerId(links: seq<Link>) {
    forall i, j :: 0 <= i < j < |links| && links[i].LanLink? && links[j].LanLink? && links[i].net != links[j].net
                   ==> links[i].brid != links[j].brid
  }

  /** A configuration within the plan's bounds for the family. */
  predicate Planned(t: Topo, links: seq<Link>, six: bool) {
    && FreshNodes(t)
    && AllKnown(t, links)
    && Distinct(AllEnds(links))
    && (forall l :: l in links ==> LinkAutomatic(l))
    && OnePerNet(links)
    && OneNetPerId(links)
    && (forall l :: l in links && l.LanLink? ==> t[l.node].id != BRIDGE_HOST)
    && (forall n :: n in t ==>
          if six then Sourced(links, n) <= P2P_STEP6 / 2 else t[n].id < 0x100 && Sourced(links, n) <= 128)
  }

  /** The node's next network of the family is the one after `k` links. */
  predicate Tracked(h: Host, g: Host, s: bool, k: nat)
    requires h.id < 0x7FFF
  {
    g.id == h.id && g.Next(s) == MakeIpNetwork(FirstP2pNetwork(h.id, s), k)
  }

  /** Every node's next networks follow the links it sourced. */
  predicate NodesTrack(t: Topo, u: Topo, links: seq<Link>, env: Env)
    requires IdsBounded(t)
  {
    && u.Keys == t.Keys
    && (forall n :: n in t ==> Tracked(t[n], u[n], false, Sourced(links, n))
                               && (env.ipv6 ==> Tracked(t[n], u[n], true, Sourced(links, n))))
  }

  /** Every interface has the address of its item. */
  predicate EndsTrack(t: Topo, u: Topo, links: seq<Link>, s: bool)
    requires AllKnown(t, links)
  {
    AllHold(u, AutoEnds(links), Items(t, links), s)
  }

  predicate Tracks(t: Topo, u: Topo, links: seq<Link>, env: Env)
    requires IdsBounded(t) && AllKnown(t, links)
  {
    NodesTrack(t, u, links, env) && EndsTrack(t, u, links, false) && (env.ipv6 ==> EndsTrack(t, u, links, true))
  }

  predicate Holds(u: Topo, e: End, item: Item, s: bool) {
    && IdsAllowed(item)
    && Own(u, e, s) == Some(Interface(s, Address(item, s), PrefixSize(item, s)))
  }

  /** A /31 or /127, a /24 or /64, and a /32 or /128. */
  function PrefixSize(item: Item, s: bool): nat {
    match item
    case P2p(_, _, _) => 2
    case Loopback(_) => 1
    case _ => if s then 18446744073709551616 else 256
  }

  /** The address each interface of the link got from `u`, the topology before it. */
  predicate Given(u: Topo, v: Topo, l: Link, s: bool)
    requires Known(u, l)
  {
    match l
    case DummyLink(_, _) => true
    case LanLink(_, brid, node, conf) =>
      Own(v, End(node, conf.name), s) == Some(HostInterface(BridgeInterface(brid, s).NetworkOf(), u[node].id))
    case P2pLink(n1, c1, n2, c2) =>
      GivenPair(v, End(n1, c1.name), End(n2, c2.name), s, u[n1].Next(s))
  }

  predicate GivenPair(v: Topo, e1: End, e2: End, s: bool, n: Network) {
    && Own(v, e1, s) == Some(Interface(n.v6, n.address, n.size))
    && Own(v, e2, s) == Some(Interface(n.v6, n.address + 1, n.size))
  }

  function Uses(l: Link, node: string): nat {
    if l.P2pLink? && l.n1 == node then 1 else 0
  }

  /** The node gave out `k` networks of the family. */
  predicate Moved(h: Host, g: Host, s: bool, k: nat) {
    g.id == h.id && g.Next(s) == MakeIpNetwork(h.Next(s), k)
  }

  predicate NodesMove(u: Topo, v: Topo, l: Link, env: Env) {
    && v.Keys == u.Keys
    && (forall n :: n in u ==> Moved(u[n], v[n], false, Uses(l, n))
                               && (env.ipv6 ==> Moved(u[n], v[n], true, Uses(l, n))))
  }

  lemma {:induction false} DummyGives(u: Topo, l: Link, env: Env)
    requires Known(u, l) && l.DummyLink? && ConnectOne(u, l, env).Some?
    ensures NodesMove(u, ConnectOne(u, l, env).value, l, env)
  {
  }

  lemma {:induction false} LanGives(u: Topo, l: Link, env: Env)
    requires Known(u, l) && l.LanLink? && LinkAutomatic(l) && env.autonumber && ConnectOne(u, l, env).Some?
    ensures var v := ConnectOne(u, l, env).value;
            && Given(u, v, l, false)
            && (env.ipv6 ==> Given(u, v, l, true))
            && NodesMove(u, v, l, env)
  {
    var net4, net6 := BridgeInterface(l.brid, false).NetworkOf(), BridgeInterface(l.brid, true).NetworkOf();
    var r := RegisterNetwork(Register(u[l.node], l.conf.name), l.net, l.conf.name).value;
    var t0 := u[l.node := r];
    var g := Place(r, l.conf.name, LanAddr4(r.id, net4, l.conf, env), None);
    PlaceStep(t0, l.node, r, l.conf.name, LanAddr4(r.id, net4, l.conf, env), None, false);
    var t1 := t0[l.node := g];
    PlaceStep(t1, l.node, g, l.conf.name, LanAddr6(r.id, net6, env), None, true);
    assert SameAt(t1, t1[l.node := Place(g, l.conf.name, LanAddr6(r.id, net6, env), None)],
                  End(l.node, l.conf.name), false);
    assert ConnectOne(u, l, env).value == t1[l.node := Place(g, l.conf.name, LanAddr6(r.id, net6, env), None)];
  }

  lemma {:induction false} P2pGivesFamily(u: Topo, l: Link, s: bool)
    requires Known(u, l) && LinkAutomatic(l) && l.P2pLink? && EndsOf(l)[0] != EndsOf(l)[1] && TopoVersioned(u)
    ensures var v := SetP2pAddr(u, l, s, true);
            && GivenPair(v, EndsOf(l)[0], EndsOf(l)[1], s, u[l.n1].Next(s))
            && (forall n :: n in u ==> Moved(u[n], v[n], s, Uses(l, n)) && v[n].Next(!s) == u[n].Next(!s))
  {
  }

  /** IPv4 and then IPv6. */
  lemma {:induction false} P2pGivesBoth(u: Topo, l: Link, env: Env)
    requires Known(u, l) && LinkAutomatic(l) && l.P2pLink? && EndsOf(l)[0] != EndsOf(l)[1] && TopoVersioned(u)
    requires env.autonumber
    ensures var v := SetP2pAddrs(u, l, env);
            && GivenPair(v, EndsOf(l)[0], EndsOf(l)[1], false, u[l.n1].Next(false))
            && (env.ipv6 ==> GivenPair(v, EndsOf(l)[0], EndsOf(l)[1], true, u[l.n1].Next(true)))
            && NodesMove(u, v, l, env)
  {
    P2pGivesFamily(u, l, false);
    if env.ipv6 {
      var t4 := SetP2pAddr(u, l, false, true);
      FamilyStep(u, l, false, env);
      P2pGivesFamily(t4, l, true);
      FamilyStep(t4, l, true, env);
      var v := SetP2pAddr(t4, l, true, true);
      assert SameAt(t4, v, EndsOf(l)[0], false) && SameAt(t4, v, EndsOf(l)[1], false);
      forall n | n in u
        ensures Moved(u[n], v[n], false, Uses(l, n)) && Moved(u[n], v[n], true, Uses(l, n))
      {
        assert Moved(u[n], t4[n], false, Uses(l, n)) && Moved(t4[n], v[n], true, Uses(l, n));
      }
    }
  }

  lemma {:induction false} LinkGives(u: Topo, l: Link, env: Env)
    requires Known(u, l) && LinkAutomatic(l) && Distinct(EndsOf(l)) && TopoVersioned(u) && env.autonumber
    requires ConnectOne(u, l, env).Some?
    ensures var v := ConnectOne(u, l, env).value;
            && Given(u, v, l, false)
            && (env.ipv6 ==> Given(u, v, l, true))
            && NodesMove(u, v, l, env)
  {
    match l
    case DummyLink(_, _) => DummyGives(u, l, env);
    case LanLink(_, _, _, _) => LanGives(u, l, env);
    case P2pLink(_, _, _, _) =>
      assert EndsOf(l)[0] != EndsOf(l)[1];
      var u0 := RegisterEnds(u, l);
      RegisterSame(u, l);
      RegisterMovesNothing(u, l);
      P2pGivesBoth(u0, l, env);
  }

  lemma {:induction false} RegisterMovesNothing(u: Topo, l: Link)
    requires l.P2pLink? && Known(u, l)
    ensures forall n :: n in u ==> var g := RegisterEnds(u, l)[n];
                                   g.id == u[n].id && g.next4 == u[n].next4 && g.next6 == u[n].next6
  {
  }

  lemma {:induction false} LanHolds(u: Topo, v: Topo, l: Link, s: bool)
    requires Known(u, l) && l.LanLink? && u[l.node].id < 0x7FFF && Given(u, v, l, s)
    ensures Holds(v, EndsOf(l)[0], Lan(l.brid, u[l.node].id), s)
  {
    LanWritten(l.brid, u[l.node].id);
  }

  lemma {:induction false} PairHolds(v: Topo, e1: End, e2: End, s: bool, n: Network, id: nat, k: nat)
    requires id < 0x7FFF && n == MakeIpNetwork(FirstP2pNetwork(id, s), k) && GivenPair(v, e1, e2, s, n)
    ensures Holds(v, e1, P2p(id, k, false), s) && Holds(v, e2, P2p(id, k, true), s)
  {
    PairAddresses(id, k, s);
    assert Own(v, e1, s) == Some(Interface(n.v6, n.address, n.size));
    assert Own(v, e2, s) == Some(Interface(n.v6, n.address + 1, n.size));
  }

  lemma {:induction false} PairAddresses(id: nat, k: nat, s: bool)
    requires id < 0x7FFF
    ensures var n := MakeIpNetwork(FirstP2pNetwork(id, s), k);
            && n.v6 == s && n.size == 2
            && Address(P2p(id, k, false), s) == n.address && Address(P2p(id, k, true), s) == n.address + 1
  {
    P2pSlot(id, k);
  }

  /** What a link gives are the items of the plan. */
  lemma {:induction false} GivenHolds(t: Topo, u: Topo, v: Topo, init: seq<Link>, l: Link, env: Env, s: bool)
    requires IdsBounded(t) && AllKnown(t, init) && NodesTrack(t, u, init, env) && Known(t, l) && (s ==> env.ipv6)
    requires Known(u, l) && Given(u, v, l, s)
    ensures forall i :: 0 <= i < |AutoEndsOf(l)|
                        ==> Holds(v, AutoEndsOf(l)[i], ItemsOf(t, l, Sourced(init, Source(l)))[i], s)
  {
    match l
    case DummyLink(_, _) =>
    case LanLink(_, _, node, _) =>
      assert Tracked(t[node], u[node], false, Sourced(init, node));
      LanHolds(u, v, l, s);
    case P2pLink(n1, _, _, _) =>
      assert Tracked(t[n1], u[n1], s, Sourced(init, n1));
      PairHolds(v, EndsOf(l)[0], EndsOf(l)[1], s, u[n1].Next(s), t[n1].id, Sourced(init, n1));
  }

  lemma {:induction false} EndsStep(t: Topo, u: Topo, v: Topo, init: seq<Link>, l: Link, s: bool)
    requires AllKnown(t, init + [l]) && AllKnown(t, init) && Known(t, l)
    requires EndsTrack(t, u, init, s) && SameBut(u, v, EndsOf(l))
    requires forall e :: e in AllEnds(init) ==> e !in EndsOf(l)
    requires AllHold(v, AutoEndsOf(l), ItemsOf(t, l, Sourced(init, Source(l))), s)
    ensures EndsTrack(t, v, init + [l], s)
  {
    Append(t, init, l);
    AutoEndsAmong(init);
    forall i | 0 <= i < |AutoEnds(init)|
      ensures Holds(v, AutoEnds(init)[i], Items(t, init)[i], s)
    {
      var e := AutoEnds(init)[i];
      assert e in AllEnds(init) && SameAt(u, v, e, s);
      assert Holds(u, e, Items(t, init)[i], s);
    }
    HoldSplit(v, AutoEnds(init), AutoEndsOf(l), Items(t, init), ItemsOf(t, l, Sourced(init, Source(l))), s);
  }

  lemma {:induction false} MovedMore(h: Host, u: Host, v: Host, s: bool, i: nat, j: nat)
    requires h.id < 0x7FFF && Tracked(h, u, s, i) && Moved(u, v, s, j)
    ensures Tracked(h, v, s, i + j)
  {
  }

  lemma {:induction false} NodesStep(t: Topo, u: Topo, v: Topo, init: seq<Link>, l: Link, env: Env)
    requires IdsBounded(t) && NodesTrack(t, u, init, env) && NodesMove(u, v, l, env)
    ensures NodesTrack(t, v, init + [l], env)
  {
    SourcedAppend(init, l);
    forall n | n in t
      ensures Tracked(t[n], v[n], false, Sourced(init + [l], n))
      ensures env.ipv6 ==> Tracked(t[n], v[n], true, Sourced(init + [l], n))
    {
      MovedMore(t[n], u[n], v[n], false, Sourced(init, n), Uses(l, n));
      if env.ipv6 {
        MovedMore(t[n], u[n], v[n], true, Sourced(init, n), Uses(l, n));
      }
    }
  }

  lemma {:induction false} TracksStep(t: Topo, u: Topo, init: seq<Link>, l: Link, env: Env)
    requires IdsBounded(t) && AllKnown(t, init + [l]) && Distinct(AllEnds(init + [l])) && env.autonumber
    requires AllKnown(t, init) && Tracks(t, u, init, env)
    requires TopoVersioned(u) && LinkAutomatic(l) && Known(u, l) && ConnectOne(u, l, env).Some?
    ensures var v := ConnectOne(u, l, env).value;
            TopoVersioned(v) && Tracks(t, v, init + [l], env)
  {
    PrefixFacts(t, init, l);
    LinkGives(u, l, env);
    LinkStep(u, l, env);
    var v := ConnectOne(u, l, env).value;
    GivenHolds(t, u, v, init, l, env, false);
    EndsStep(t, u, v, init, l, false);
    if env.ipv6 {
      GivenHolds(t, u, v, init, l, env, true);
      EndsStep(t, u, v, init, l, true);
    }
    NodesStep(t, u, v, init, l, env);
  }

  lemma {:induction false} BuildTracksIf(t: Topo, links: seq<Link>, env: Env)
    requires FreshNodes(t) && AllKnown(t, links) && Distinct(AllEnds(links)) && env.autonumber
    requires forall l :: l in links ==> LinkAutomatic(l)
    requires Connect(t, links, env).Some?
    ensures var u := Connect(t, links, env).value;
            TopoVersioned(u) && Tracks(t, u, links, env)
  {
    if links == [] {
      TracksStart(t, env);
    } else {
      var n := |links| - 1;
      var init, l := links[..n], links[n];
      assert init + [l] == links;
      PrefixFacts(t, init, l);
      ConnectMore(t, init, l, env);
      BuildTracksIf(t, init, env);
      TracksStep(t, Connect(t, init, env).value, init, l, env);
    }
  }

  lemma {:induction false} TracksStart(t: Topo, env: Env)
    requires FreshNodes(t)
    ensures TopoVersioned(t) && Tracks(t, t, [], env)
  {
  }

  /** After every automatic build that the code carries out, each interface has the address of its
      place in the order. */
  lemma {:induction false} BuildTracks(t: Topo, links: seq<Link>, env: Env)
    requires FreshNodes(t) && AllKnown(t, links) && Distinct(AllEnds(links)) && env.autonumber
    requires forall l :: l in links ==> LinkAutomatic(l)
    ensures Connect(t, links, env).Some? <==> OnePerNet(links)
    ensures Connect(t, links, env).Some? ==>
              var u := Connect(t, links, env).value;
              TopoVersioned(u) && Tracks(t, u, links, env)
  {
    assert AllAcceptable(links);
    ConnectSucceedsIff(t, links, env);
    if Connect(t, links, env).Some? {
      BuildTracksIf(t, links, env);
    }
  }

  /** What the tracking says about one link among others. */
  lemma {:induction false} TrackAt(t: Topo, u: Topo, init: seq<Link>, l: Link, rest: seq<Link>, s: bool)
    requires AllKnown(t, init + [l] + rest) && AllKnown(t, init) && Known(t, l)
    requires EndsTrack(t, u, init + [l] + rest, s)
    ensures forall i :: 0 <= i < |AutoEndsOf(l)|
                        ==> Holds(u, AutoEndsOf(l)[i], ItemsOf(t, l, Sourced(init, Source(l)))[i], s)
    decreases |rest|
  {
    if rest == [] {
      assert init + [l] + rest == init + [l];
      TrackLast(t, u, init, l, s);
    } else {
      var k := |rest| - 1;
      var most := init + [l] + rest[..k];
      assert most + [rest[k]] == init + [l] + rest;
      KnownParts(t, most, rest[k]);
      TrackLast(t, u, most, rest[k], s);
      TrackAt(t, u, init, l, rest[..k], s);
    }
  }

  lemma {:induction false} KnownParts(t: Topo, init: seq<Link>, l: Link)
    requires AllKnown(t, init + [l])
    ensures AllKnown(t, init) && Known(t, l)
  {
    assert l in init + [l];
    forall m | m in init
      ensures m in init + [l]
    {
    }
  }

  lemma {:induction false} TrackLast(t: Topo, u: Topo, init: seq<Link>, l: Link, s: bool)
    requires AllKnown(t, init + [l]) && AllKnown(t, init) && Known(t, l) && EndsTrack(t, u, init + [l], s)
    ensures EndsTrack(t, u, init, s)
    ensures forall i :: 0 <= i < |AutoEndsOf(l)|
                        ==> Holds(u, AutoEndsOf(l)[i], ItemsOf(t, l, Sourced(init, Source(l)))[i], s)
  {
    Append(t, init, l);
    HoldSplit(u, AutoEnds(init), AutoEndsOf(l), Items(t, init), ItemsOf(t, l, Sourced(init, Source(l))), s);
  }

  predicate AllHold(u: Topo, ends: seq<End>, items: seq<Item>, s: bool)
    requires |ends| == |items|
  {
    forall i :: 0 <= i < |ends| ==> Holds(u, ends[i], items[i], s)
  }

  lemma {:induction false} HoldSplit(u: Topo, a: seq<End>, b: seq<End>, x: seq<Item>, y: seq<Item>, s: bool)
    requires |a| == |x| && |b| == |y|
    ensures AllHold(u, a + b, x + y, s) <==> AllHold(u, a, x, s) && AllHold(u, b, y, s)
  {
    if AllHold(u, a + b, x + y, s) {
      forall i | 0 <= i < |a|
        ensures Holds(u, a[i], x[i], s)
      {
        assert (a + b)[i] == a[i] && (x + y)[i] == x[i];
      }
      forall i | 0 <= i < |b|
        ensures Holds(u, b[i], y[i], s)
      {
        assert (a + b)[|a| + i] == b[i] && (x + y)[|a| + i] == y[i];
      }
    }
  }

  // ---------- the items are different ----------

  lemma {:induction false} AppendDistinct(a: seq<Item>, b: seq<Item>)
    requires Distinct(a) && Distinct(b)
    requires forall i :: 0 <= i < |a| ==> a[i] !in b
    ensures Distinct(a + b)
  {
    forall i, j | 0 <= i < j < |a + b|
      ensures (a + b)[i] != (a + b)[j]
    {
      if i < |a| <= j {
        assert (a + b)[j] == b[j - |a|];
        assert a[i] !in b;
      }
    }
  }

  /** The item comes from one of these links. */
  ghost predicate Accounted(t: Topo, links: seq<Link>, item: Item)
    requires AllKnown(t, links)
  {
    match item
    case Lan(brid, id) =>
      exists l :: l in links && l.LanLink? && l.brid == brid && t[l.node].id == id
    case P2p(id, k, _) =>
      exists n :: n in t && t[n].id == id && k < Sourced(links, n)
    case _ => false
  }

  ghost predicate AllAccounted(t: Topo, links: seq<Link>, items: seq<Item>, six: bool)
    requires AllKnown(t, links)
  {
    forall i :: 0 <= i < |items| ==>
      InPlan(items[i], six) && (items[i].Lan? || items[i].P2p?) && Accounted(t, links, items[i])
  }

  lemma {:induction false} AccountedLonger(t: Topo, init: seq<Link>, l: Link, item: Item)
    requires AllKnown(t, init + [l]) && AllKnown(t, init) && Known(t, l)
    requires Accounted(t, init, item)
    ensures Accounted(t, init + [l], item)
  {
    SourcedAppend(init, l);
    match item
    case Lan(brid, id) =>
      var m :| m in init && m.LanLink? && m.brid == brid && t[m.node].id == id;
      assert m in init + [l];
    case P2p(id, k, _) =>
      var n :| n in t && t[n].id == id && k < Sourced(init, n);
      assert k < Sourced(init + [l], n);
    case _ =>
  }

  /** None of the links is of the same node to a bridge with the same identifier. */
  predicate LanApart(init: seq<Link>, l: Link) {
    forall m :: m in init && m.LanLink? && l.LanLink? && m.brid == l.brid ==> m.node != l.node
  }

  lemma {:induction false} PlannedApart(init: seq<Link>, l: Link)
    requires OnePerNet(init + [l]) && OneNetPerId(init + [l])
    ensures OnePerNet(init) && OneNetPerId(init) && LanApart(init, l)
  {
    var links := init + [l];
    OnePerNetAppend(init, l);
    forall i, j | 0 <= i < j < |init| && init[i].LanLink? && init[j].LanLink? && init[i].net != init[j].net
      ensures init[i].brid != init[j].brid
    {
      assert links[i] == init[i] && links[j] == init[j];
    }
    forall m | m in init && m.LanLink? && l.LanLink? && m.brid == l.brid
      ensures m.node != l.node
    {
      var i :| 0 <= i < |init| && init[i] == m;
      assert links[i] == m && links[|init|] == l;
      assert !SameNet(m, l);
    }
  }

  lemma {:induction false} PlannedPrefix(t: Topo, init: seq<Link>, l: Link, six: bool)
    requires Planned(t, init + [l], six)
    ensures Planned(t, init, six) && Known(t, l) && LanApart(init, l)
  {
    PrefixFacts(t, init, l);
    PlannedApart(init, l);
    SourcedAppend(init, l);
    forall m | m in init
      ensures m in init + [l]
    {
    }
  }

  /** The items of one link. */
  lemma {:induction false} LastItems(t: Topo, init: seq<Link>, l: Link, six: bool)
    requires Planned(t, init + [l], six) && AllKnown(t, init) && Known(t, l)
    ensures var last := ItemsOf(t, l, Sourced(init, Source(l)));
            Distinct(last) && AllAccounted(t, init + [l], last, six)
  {
    assert l in init + [l];
    match l
    case DummyLink(_, _) =>
    case LanLink(_, _, _, _) =>
      assert FreshNodes(t);
    case P2pLink(_, _, _, _) =>
      SourceItems(t, init, l, six, false);
      SourceItems(t, init, l, six, true);
  }

  lemma {:induction false} SourceItems(t: Topo, init: seq<Link>, l: Link, six: bool, far: bool)
    requires Planned(t, init + [l], six) && AllKnown(t, init) && Known(t, l) && l.P2pLink?
    ensures var item := P2p(t[l.n1].id, Sourced(init, l.n1), far);
            InPlan(item, six) && Accounted(t, init + [l], item)
  {
    SourcedAppend(init, l);
    assert Sourced(init + [l], l.n1) == Sourced(init, l.n1) + 1;
  }

  /** No earlier link was given what the last one is given. */
  lemma {:induction false} ApartFromLast(t: Topo, init: seq<Link>, l: Link, item: Item)
    requires FreshNodes(t) && AllKnown(t, init) && Known(t, l) && LanApart(init, l)
    requires Accounted(t, init, item)
    ensures item !in ItemsOf(t, l, Sourced(init, Source(l)))
  {
    match item
    case Lan(brid, id) =>
      var m :| m in init && m.LanLink? && m.brid == brid && t[m.node].id == id;
      assert l.LanLink? && t[l.node].id == id ==> m.node == l.node;
    case P2p(id, k, _) =>
      var n :| n in t && t[n].id == id && k < Sourced(init, n);
      assert l.P2pLink? && t[l.n1].id == id ==> n == l.n1;
    case _ =>
  }

  /** The items of a planned configuration are in the plan, and none is given twice. */
  lemma {:induction false} ItemsDistinct(t: Topo, links: seq<Link>, six: bool)
    requires Planned(t, links, six)
    ensures Distinct(Items(t, links)) && AllAccounted(t, links, Items(t, links), six)
  {
    if links != [] {
      var n := |links| - 1;
      var init, l := links[..n], links[n];
      assert init + [l] == links;
      PlannedPrefix(t, init, l, six);
      ItemsDistinct(t, init, six);
      Append(t, init, l);
      LastItems(t, init, l, six);
      var earlier, last := Items(t, init), ItemsOf(t, l, Sourced(init, Source(l)));
      forall i | 0 <= i < |earlier|
        ensures earlier[i] !in last && Accounted(t, links, earlier[i])
      {
        ApartFromLast(t, init, l, earlier[i]);
        AccountedLonger(t, init, l, earlier[i]);
      }
      AppendDistinct(earlier, last);
    }
  }

  /** A node's automatic address is no bridge's and no loopback's. */
  lemma {:induction false} ItemAddressOwn(item: Item, six: bool)
    requires InPlan(item, six) && (item.Lan? || item.P2p?)
    ensures forall b: nat :: b < 0xFDFF ==> Address(item, six) != BridgeInterface(b, six).ip
    ensures forall id: nat :: id < 0x7FFF ==> Address(item, six) != LoopbackAddress(id, six)
  {
    forall b: nat | b < 0xFDFF
      ensures Address(item, six) != BridgeInterface(b, six).ip
    {
      PlanIsInjective(item, Bridge(b), six);
    }
    forall id: nat | id < 0x7FFF
      ensures Address(item, six) != LoopbackAddress(id, six)
    {
      PlanIsInjective(item, Loopback(id), six);
    }
  }

  /** Each of these interfaces has an address; no two have the same one, and none has a bridge's or
      a loopback's. */
  ghost predicate AddressesUnique(u: Topo, ends: set<End>, six: bool) {
    && (forall e :: e in ends ==> Own(u, e, six).Some?)
    && (forall e, f :: e in ends && f in ends && e != f ==> Own(u, e, six).value.ip != Own(u, f, six).value.ip)
    && (forall e, b: nat :: e in ends && b < 0xFDFF ==> Own(u, e, six).value.ip != BridgeInterface(b, six).ip)
    && (forall e, id: nat :: e in ends && id < 0x7FFF ==> Own(u, e, six).value.ip != LoopbackAddress(id, six))
  }

  /** Within the plan, the build succeeds and gives every interface that leads somewhere an address
      of its own. */
  lemma {:induction false} BuildAddressesUnique(t: Topo, links: seq<Link>, env: Env, six: bool)
    requires Planned(t, links, six) && env.autonumber && (six ==> env.ipv6)
    ensures Connect(t, links, env).Some?
    ensures AddressesUnique(Connect(t, links, env).value, (set e | e in AutoEnds(links)), six)
  {
    BuildTracks(t, links, env);
    ItemsDistinct(t, links, six);
    var u, ends, items := Connect(t, links, env).value, AutoEnds(links), Items(t, links);
    assert EndsTrack(t, u, links, six);
    HeldUnique(u, ends, items, six);
  }

  lemma {:induction false} HeldUnique(u: Topo, ends: seq<End>, items: seq<Item>, six: bool)
    requires |ends| == |items| && Distinct(items)
    requires forall i :: 0 <= i < |ends| ==> Holds(u, ends[i], items[i], six)
    requires forall i :: 0 <= i < |items| ==> InPlan(items[i], six) && (items[i].Lan? || items[i].P2p?)
    ensures AddressesUnique(u, (set e | e in ends), six)
  {
    forall e | e in ends
      ensures Own(u, e, six).Some?
      ensures forall b: nat :: b < 0xFDFF ==> Own(u, e, six).value.ip != BridgeInterface(b, six).ip
      ensures forall id: nat :: id < 0x7FFF ==> Own(u, e, six).value.ip != LoopbackAddress(id, six)
    {
      var i :| 0 <= i < |ends| && ends[i] == e;
      ItemAddressOwn(items[i], six);
    }
    forall e, f | e in ends && f in ends && e != f
      ensures Own(u, e, six).value.ip != Own(u, f, six).value.ip
    {
      var i :| 0 <= i < |ends| && ends[i] == e;
      var j :| 0 <= j < |ends| && ends[j] == f;
      assert i < j || j < i;
      PlanIsInjective(items[i], items[j], six);
    }
  }
}
