/** The two ends of every p2p link know the same two addresses. */
module PeerTables {
  import opened Options
  import opened Addresses
  import opened Topology

  /** Each end's peer entry is the other end's own entry when both ends have an address of the
      family, and empty when one of them has none. */
  predicate Mirrored(t: Topo, l: Link, six: bool)
    requires l.P2pLink?
  {
    var e1, e2 := End(l.n1, l.c1.name), End(l.n2, l.c2.name);
    var o1, o2 := Own(t, e1, six), Own(t, e2, six);
    if o1.Some? && o2.Some? then
      Peer(t, e1, six) == o2 && Peer(t, e2, six) == o1
    else
      Peer(t, e1, six) == None && Peer(t, e2, six) == None
  }

  /** The ends' own addresses: those configured, and if neither end has one, two neighbouring
      ones when there is automatic numbering; none of a family that is not enabled. */
  predicate Chosen(t: Topo, l: Link, six: bool, env: Env)
    requires l.P2pLink?
  {
    var o1, o2 := Own(t, End(l.n1, l.c1.name), six), Own(t, End(l.n2, l.c2.name), six);
    if (six && !env.ipv6) || (l.c1.Get(six).None? && l.c2.Get(six).None? && !env.autonumber) then
      o1 == None && o2 == None
    else if l.c1.Get(six).None? && l.c2.Get(six).None? then
      o1.Some? && o2.Some? && o2.value == o1.value.(ip := o1.value.ip + 1)
    else
      o1 == l.c1.Get(six) && o2 == l.c2.Get(six)
  }

  predicate Agree(t: Topo, l: Link, six: bool, env: Env)
    requires l.P2pLink?
  {
    Mirrored(t, l, six) && Chosen(t, l, six, env)
  }

  predicate SameAt(t: Topo, u: Topo, e: End, six: bool) {
    Own(t, e, six) == Own(u, e, six) && Peer(t, e, six) == Peer(u, e, six)
  }

  predicate Blank(t: Topo, e: End, six: bool) {
    Own(t, e, six) == None && Peer(t, e, six) == None
  }

  /** The link's own configuration, of known version. */
  predicate LinkVersioned(l: Link) {
    match l
    case DummyLink(_, conf) => WellVersioned(conf)
    case LanLink(_, _, _, conf) => WellVersioned(conf)
    case P2pLink(_, c1, _, c2) => WellVersioned(c1) && WellVersioned(c2)
  }

  predicate TopoVersioned(t: Topo) {
    forall n :: n in t ==> HostVersioned(t[n])
  }

  /** Placing an address changes that family of that interface's entries and nothing else. */
  lemma {:induction false} PlaceStep(t: Topo, n: string, h: Host, ifname: string,
                                     ia: Option<Interface>, other: Option<Interface>, six: bool)
    requires n in t && h.own == t[n].own && h.peer == t[n].peer
    requires (ia.Some? ==> ia.value.v6 == six) && (other.Some? ==> other.value.v6 == six)
    ensures var u := t[n := Place(h, ifname, ia, other)];
            var e := End(n, ifname);
            && (forall f, s :: f != e || s != six ==> SameAt(t, u, f, s))
            && Own(u, e, six) == (if ia.Some? then ia else Own(t, e, six))
            && Peer(u, e, six) == (if ia.Some? && other.Some? then other else Peer(t, e, six))
  {
  }

  /** One family of one p2p link: its two interfaces agree afterwards, and no other entry and
      no entry of the other family changes. */
  lemma {:induction false} FamilyStep(t: Topo, l: Link, six: bool, env: Env)
    requires l.P2pLink? && Known(t, l) && LinkVersioned(l) && TopoVersioned(t)
    requires EndsOf(l)[0] != EndsOf(l)[1] && (six ==> env.ipv6)
    ensures var u := SetP2pAddr(t, l, six, env.autonumber);
            && TopoVersioned(u)
            && (forall e, s :: e !in EndsOf(l) || s != six ==> SameAt(t, u, e, s))
            && (Blank(t, EndsOf(l)[0], six) && Blank(t, EndsOf(l)[1], six) ==> Agree(u, l, six, env))
  {
    var p := PickP2p(t[l.n1], l.c1, l.c2, six, env.autonumber);
    var t1 := t[l.n1 := Place(p.host, l.c1.name, p.near, p.far)];
    PlaceStep(t, l.n1, p.host, l.c1.name, p.near, p.far, six);
    PlaceStep(t1, l.n2, t1[l.n2], l.c2.name, p.far, p.near, six);
    var u := SetP2pAddr(t, l, six, env.autonumber);
    var e1, e2 := EndsOf(l)[0], EndsOf(l)[1];
    forall e, s | e !in EndsOf(l) || s != six
      ensures SameAt(t, u, e, s)
    {
      assert e1 in EndsOf(l) && e2 in EndsOf(l);
      assert SameAt(t, t1, e, s) && SameAt(t1, u, e, s);
    }
    assert SameAt(t, t1, e2, six) && SameAt(t1, u, e1, six);
  }

  /** The tables have the same addresses at every interface but these. */
  ghost predicate SameBut(t: Topo, u: Topo, ends: seq<End>) {
    forall e, s :: e !in ends ==> SameAt(t, u, e, s)
  }

  ghost predicate AllBlank(t: Topo, ends: seq<End>) {
    forall e, s :: e in ends ==> Blank(t, e, s)
  }

  lemma {:induction false} SameThrough(t: Topo, u: Topo, v: Topo, ends: seq<End>)
    requires SameBut(t, u, ends) && SameBut(u, v, ends)
    ensures SameBut(t, v, ends)
  {
    forall e, s | e !in ends
      ensures SameAt(t, v, e, s)
    {
      assert SameAt(t, u, e, s) && SameAt(u, v, e, s);
    }
  }

  /** Registering an interface does not change an address. */
  lemma {:induction false} RegisterSame(t: Topo, l: Link)
    requires l.P2pLink? && Known(t, l)
    ensures forall e, s :: SameAt(t, RegisterEnds(t, l), e, s)
    ensures TopoVersioned(t) ==> TopoVersioned(RegisterEnds(t, l))
  {
  }

  /** A node that is registered, and then given addresses on one interface. */
  lemma {:induction false} PlacedSame(t: Topo, node: string, h: Host, c: Conf,
                                      a4: Option<Interface>, a6: Option<Interface>)
    requires node in t && TopoVersioned(t)
    requires h.peer == t[node].peer && h.next4 == t[node].next4 && h.next6 == t[node].next6
    requires forall ifname, s :: Lookup(h.own, ifname).Get(s) == Lookup(t[node].own, ifname).Get(s)
    requires (a4.Some? ==> !a4.value.v6) && (a6.Some? ==> a6.value.v6)
    ensures var u := t[node := Place(Place(h, c.name, a4, None), c.name, a6, None)];
            TopoVersioned(u) && SameBut(t, u, [End(node, c.name)])
  {
    var g := Place(h, c.name, a4, None);
    var t0, t1, u := t[node := h], t[node := g], t[node := Place(g, c.name, a6, None)];
    PlaceStep(t0, node, h, c.name, a4, None, false);
    assert t1 == t0[node := g];
    PlaceStep(t1, node, g, c.name, a6, None, true);
    assert u == t1[node := Place(g, c.name, a6, None)];
    forall e, s | e !in [End(node, c.name)]
      ensures SameAt(t, u, e, s)
    {
      assert e != End(node, c.name);
      assert SameAt(t, t0, e, s) && SameAt(t0, t1, e, s) && SameAt(t1, u, e, s);
    }
  }

  lemma {:induction false} DummyStep(t: Topo, l: Link, env: Env)
    requires l.DummyLink? && Known(t, l) && TopoVersioned(t) && ConnectOne(t, l, env).Some?
    ensures var u := ConnectOne(t, l, env).value;
            TopoVersioned(u) && SameBut(t, u, EndsOf(l))
  {
    PlacedSame(t, l.node, Register(t[l.node], l.conf.name), l.conf, l.conf.ip, l.conf.ipv6);
  }

  lemma {:induction false} LanStep(t: Topo, l: Link, env: Env)
    requires l.LanLink? && Known(t, l) && TopoVersioned(t) && ConnectOne(t, l, env).Some?
    ensures var u := ConnectOne(t, l, env).value;
            TopoVersioned(u) && SameBut(t, u, EndsOf(l))
  {
    var r := RegisterNetwork(Register(t[l.node], l.conf.name), l.net, l.conf.name).value;
    var net4, net6 := BridgeInterface(l.brid, false).NetworkOf(), BridgeInterface(l.brid, true).NetworkOf();
    PlacedSame(t, l.node, r, l.conf, LanAddr4(r.id, net4, l.conf, env), LanAddr6(r.id, net6, env));
  }

  /** The two ends of a link, IPv4 and then IPv6. */
  lemma {:induction false} AddrsStep(t: Topo, l: Link, env: Env)
    requires l.P2pLink? && Known(t, l) && LinkVersioned(l) && TopoVersioned(t) && EndsOf(l)[0] != EndsOf(l)[1]
    ensures var u := SetP2pAddrs(t, l, env);
            && TopoVersioned(u) && SameBut(t, u, EndsOf(l))
            && (AllBlank(t, EndsOf(l)) ==> Agree(u, l, false, env) && Agree(u, l, true, env))
  {
    var e1, e2 := EndsOf(l)[0], EndsOf(l)[1];
    assert e1 in EndsOf(l) && e2 in EndsOf(l);
    FamilyStep(t, l, false, env);
    var t4 := SetP2pAddr(t, l, false, env.autonumber);
    assert SameAt(t, t4, e1, true) && SameAt(t, t4, e2, true);
    assert AllBlank(t, EndsOf(l)) ==>
        Blank(t, e1, false) && Blank(t, e2, false) && Blank(t, e1, true) && Blank(t, e2, true);
    if env.ipv6 {
      FamilyStep(t4, l, true, env);
      var u := SetP2pAddr(t4, l, true, env.autonumber);
      assert SameAt(t4, u, e1, false) && SameAt(t4, u, e2, false);
      SameThrough(t, t4, u, EndsOf(l));
    }
  }

  lemma {:induction false} P2pStep(t: Topo, l: Link, env: Env)
    requires l.P2pLink? && Known(t, l) && LinkVersioned(l) && TopoVersioned(t) && EndsOf(l)[0] != EndsOf(l)[1]
    ensures var u := SetP2pAddrs(RegisterEnds(t, l), l, env);
            && TopoVersioned(u) && SameBut(t, u, EndsOf(l))
            && (AllBlank(t, EndsOf(l)) ==> Agree(u, l, false, env) && Agree(u, l, true, env))
  {
    var t0 := RegisterEnds(t, l);
    RegisterSame(t, l);
    AddrsStep(t0, l, env);
    SameThrough(t, t0, SetP2pAddrs(t0, l, env), EndsOf(l));
    if AllBlank(t, EndsOf(l)) {
      forall e, s | e in EndsOf(l)
        ensures Blank(t0, e, s)
      {
        assert Blank(t, e, s) && SameAt(t, t0, e, s);
      }
    }
  }

  lemma {:induction false} LinkStep(t: Topo, l: Link, env: Env)
    requires Known(t, l) && LinkVersioned(l) && TopoVersioned(t) && Distinct(EndsOf(l))
    requires ConnectOne(t, l, env).Some?
    ensures var u := ConnectOne(t, l, env).value;
            && TopoVersioned(u) && SameBut(t, u, EndsOf(l))
            && (l.P2pLink? && AllBlank(t, EndsOf(l)) ==> Agree(u, l, false, env) && Agree(u, l, true, env))
  {
    match l
    case DummyLink(_, _) => DummyStep(t, l, env);
    case LanLink(_, _, _, _) => LanStep(t, l, env);
    case P2pLink(_, _, _, _) =>
      assert EndsOf(l)[0] != EndsOf(l)[1];
      P2pStep(t, l, env);
  }

  /** What holds of the topology `u` that these links made of `t`. */
  ghost predicate AllAgree(t: Topo, u: Topo, links: seq<Link>, env: Env) {
    && TopoVersioned(u)
    && SameBut(t, u, AllEnds(links))
    && (forall l, s :: l in links && l.P2pLink? ==> Agree(u, l, s, env))
  }

  /** A link keeps what the links on other interfaces agreed on. */
  lemma {:induction false} AgreeKept(mid: Topo, u: Topo, l: Link, s: bool, env: Env, changed: seq<End>)
    requires l.P2pLink? && Agree(mid, l, s, env) && SameBut(mid, u, changed)
    requires forall e :: e in EndsOf(l) ==> e !in changed
    ensures Agree(u, l, s, env)
  {
    var e1, e2 := EndsOf(l)[0], EndsOf(l)[1];
    assert e1 in EndsOf(l) && e2 in EndsOf(l);
    assert SameAt(mid, u, e1, s) && SameAt(mid, u, e2, s);
  }

  lemma {:induction false} AgreeStep(t: Topo, mid: Topo, u: Topo, init: seq<Link>, last: Link, env: Env)
    requires AllAgree(t, mid, init, env) && TopoVersioned(u) && SameBut(mid, u, EndsOf(last))
    requires forall e :: e in AllEnds(init) ==> e !in EndsOf(last)
    requires last.P2pLink? ==> Agree(u, last, false, env) && Agree(u, last, true, env)
    ensures AllAgree(t, u, init + [last], env)
  {
    var links := init + [last];
    AllEndsAppend(init, last);
    forall e, s | e !in AllEnds(links)
      ensures SameAt(t, u, e, s)
    {
      assert SameAt(t, mid, e, s) && SameAt(mid, u, e, s);
    }
    forall l, s | l in links && l.P2pLink?
      ensures Agree(u, l, s, env)
    {
      if l in init {
        EndsAmong(init, l);
        AgreeKept(mid, u, l, s, env, EndsOf(last));
      }
    }
  }

  lemma {:induction false} AllEndsAppend(init: seq<Link>, last: Link)
    ensures AllEnds(init + [last]) == AllEnds(init) + EndsOf(last)
  {
    assert (init + [last])[..|init|] == init;
  }

  /** What a sequence of links on different interfaces says about its parts. */
  lemma {:induction false} PrefixFacts(t: Topo, init: seq<Link>, last: Link)
    requires AllKnown(t, init + [last]) && Distinct(AllEnds(init + [last]))
    ensures AllKnown(t, init) && Known(t, last)
    ensures Distinct(AllEnds(init)) && Distinct(EndsOf(last))
    ensures forall e :: e in AllEnds(init) ==> e !in EndsOf(last)
    ensures forall e :: e in AllEnds(init) || e in EndsOf(last) ==> e in AllEnds(init + [last])
  {
    var links := init + [last];
    AllEndsAppend(init, last);
    PrefixDistinct(AllEnds(init), EndsOf(last));
    assert last in links;
    forall l | l in init
      ensures Known(t, l)
    {
      assert l in links;
    }
  }

  /** Connecting one link more. */
  lemma {:induction false} ConnectMore(t: Topo, init: seq<Link>, last: Link, env: Env)
    requires AllKnown(t, init) && AllKnown(t, init + [last]) && Known(t, last)
    ensures var before, all := Connect(t, init, env), Connect(t, init + [last], env);
            && (before.None? ==> all.None?)
            && (before.Some? ==> Known(before.value, last) && all == ConnectOne(before.value, last, env))
  {
    assert (init + [last])[..|init|] == init;
  }

  lemma {:induction false} StillBlank(t: Topo, mid: Topo, ends: seq<End>, changed: seq<End>)
    requires AllBlank(t, ends) && SameBut(t, mid, changed)
    requires forall e :: e in changed ==> e !in ends
    ensures AllBlank(mid, ends)
  {
    forall e, s | e in ends
      ensures Blank(mid, e, s)
    {
      assert e !in changed;
      assert Blank(t, e, s) && SameAt(t, mid, e, s);
    }
  }

  /** After any sequence of links on different interfaces, every p2p link agrees. */
  lemma {:induction false} PeersAgree(t: Topo, links: seq<Link>, env: Env)
    requires AllKnown(t, links) && TopoVersioned(t) && Distinct(AllEnds(links))
    requires forall l :: l in links ==> LinkVersioned(l)
    requires AllBlank(t, AllEnds(links))
    requires Connect(t, links, env).Some?
    ensures AllAgree(t, Connect(t, links, env).value, links, env)
  {
    if links != [] {
      var n := |links| - 1;
      var init, last := links[..n], links[n];
      assert init + [last] == links;
      PrefixFacts(t, init, last);
      ConnectMore(t, init, last, env);
      assert AllBlank(t, AllEnds(init)) && AllBlank(t, EndsOf(last));
      assert LinkVersioned(last);
      PeersAgree(t, init, env);
      var mid := Connect(t, init, env).value;
      StillBlank(t, mid, EndsOf(last), AllEnds(init));
      LinkStep(mid, last, env);
      AgreeStep(t, mid, ConnectOne(mid, last, env).value, init, last, env);
    }
  }

  lemma {:induction false} PrefixDistinct(a: seq<End>, b: seq<End>)
    requires Distinct(a + b)
    ensures Distinct(a) && Distinct(b)
    ensures forall e :: e in a ==> e !in b
  {
    forall i, j | 0 <= i < j < |a|
      ensures a[i] != a[j]
    {
      assert (a + b)[i] == a[i] && (a + b)[j] == a[j];
    }
    forall i, j | 0 <= i < j < |b|
      ensures b[i] != b[j]
    {
      assert (a + b)[|a| + i] == b[i] && (a + b)[|a| + j] == b[j];
    }
    forall e | e in a
      ensures e !in b
    {
      var i :| 0 <= i < |a| && a[i] == e;
      assert (a + b)[i] == e;
      forall j | 0 <= j < |b|
        ensures b[j] != e
      {
        assert (a + b)[|a| + j] == b[j];
      }
    }
  }

  lemma {:induction false} EndsAmong(links: seq<Link>, l: Link)
    requires l in links
    ensures forall e :: e in EndsOf(l) ==> e in AllEnds(links)
  {
    var n := |links| - 1;
    if l != links[n] {
      EndsAmong(links[..n], l);
    }
  }

  /** An explicit IPv6 address on a bridge connection is always refused. */
  lemma {:induction false} LanIpv6Refused(h: Host, net4: Network, net6: Network, c: Conf, env: Env)
    requires WellVersioned(c)
    ensures SetLanAddr(h, net4, net6, c, env).Some? <==> c.ipv6.None?
  {
  }
}
