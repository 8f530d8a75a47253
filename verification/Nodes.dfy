/** A node of the topology: `InterfaceMixin` of munet/base.py and the address assignment of
    `L3NodeMixin` in munet/native.py, proved against `Topology` and `InterfaceNames`. */
module Nodes {
  import opened Options
  import opened Addresses
  import opened Topology
  import opened InterfaceNames

  /** The names so far and those to come are the names of the whole pass. */
  predicate Extends(names: seq<string>, rest: Named, goal: Named) {
    Named(names + rest.names, rest.next) == goal
  }

  lemma {:induction false} ExtendsMore(names: seq<string>, name: string, rest: Named, goal: Named)
    requires Extends(names, Named([name] + rest.names, rest.next), goal)
    ensures Extends(names + [name], rest, goal)
  {
  }

  class Node {
    const name: string
    const id: nat
    var basename: string
    var nextIntfIndex: nat
    var intfAddrs: Table
    var peerIntfAddrs: Table
    var netIntfs: map<string, string>
    var nextP2pNetwork: Network
    var nextP2pNetwork6: Network

    constructor (name: string, id: nat)
      requires id < 0x7FFF
      ensures Abs() == NewHost(id) && this.name == name && basename == "eth" && nextIntfIndex == 0 && netIntfs == map[]
    {
      this.name, this.id := name, id;
      basename, nextIntfIndex := "eth", 0;
      intfAddrs, peerIntfAddrs, netIntfs := map[], map[], map[];
      nextP2pNetwork := FirstP2pNetwork(id, false);
      nextP2pNetwork6 := FirstP2pNetwork(id, true);
    }

    ghost function Abs(): Host
      reads this
    {
      Host(id, nextP2pNetwork, nextP2pNetwork6, intfAddrs, peerIntfAddrs, netIntfs)
    }

    method GetNextIntfName() returns (ifname: string)
      modifies this`nextIntfIndex
      ensures var i := NextIndex(intfAddrs.Keys, basename, old(nextIntfIndex));
              ifname == Name(basename, i) && nextIntfIndex == i + 1
      ensures ifname !in intfAddrs
    {
      ghost var i := NextIndex(intfAddrs.Keys, basename, nextIntfIndex);
      ifname := Name(basename, nextIntfIndex);
      nextIntfIndex := nextIntfIndex + 1;
      while ifname in intfAddrs
        invariant old(nextIntfIndex) < nextIntfIndex <= i + 1
        invariant ifname == Name(basename, nextIntfIndex - 1)
        invariant AllTaken(intfAddrs.Keys, basename, old(nextIntfIndex), nextIntfIndex - 1)
        decreases i + 1 - nextIntfIndex
      {
        ifname := Name(basename, nextIntfIndex);
        nextIntfIndex := nextIntfIndex + 1;
      }
      NextUnique(intfAddrs.Keys, basename, old(nextIntfIndex), nextIntfIndex - 1);
    }

    /** The naming pass over the node's connections. */
    method NameConnections(given: seq<Option<string>>) returns (names: seq<string>)
      modifies this`nextIntfIndex
      ensures Named(names, nextIntfIndex) == NameAll(intfAddrs.Keys, basename, old(nextIntfIndex), given)
    {
      names := [];
      var k := 0;
      ghost var rest := given;
      ghost var goal := NameAll(intfAddrs.Keys, basename, nextIntfIndex, given);
      while k < |given|
        invariant 0 <= k <= |given| && rest == given[k..]
        invariant Extends(names, NameAll(intfAddrs.Keys, basename, nextIntfIndex, rest), goal)
      {
        var name: string;
        ghost var all := NameAll(intfAddrs.Keys, basename, nextIntfIndex, rest);
        assert rest[0] == given[k] && rest[1..] == given[k + 1..];
        if given[k].Some? {
          name := given[k].value;
        } else {
          name := GetNextIntfName();
        }
        assert all.names == [name] + NameAll(intfAddrs.Keys, basename, nextIntfIndex, rest[1..]).names;
        ExtendsMore(names, name, NameAll(intfAddrs.Keys, basename, nextIntfIndex, rest[1..]), goal);
        names := names + [name];
        rest := rest[1..];
        k := k + 1;
      }
      assert names + [] == names;
    }

    method GetIntfAddr(ifname: string, ipv6: bool) returns (r: Option<Interface>)
      ensures r == Lookup(Abs().own, ifname).Get(ipv6)
    {
      if ifname !in intfAddrs {
        return None;
      }
      r := intfAddrs[ifname].Get(ipv6);
    }

    method GetPeerIntfAddr(ifname: string, ipv6: bool) returns (r: Option<Interface>)
      ensures r == Lookup(Abs().peer, ifname).Get(ipv6)
    {
      if ifname !in peerIntfAddrs {
        return None;
      }
      r := peerIntfAddrs[ifname].Get(ipv6);
    }

    method SetIntfAddr(ifname: string, ia: Interface, other: Option<Interface>)
      modifies this`intfAddrs, this`peerIntfAddrs
      ensures Abs() == Topology.SetIntfAddr(old(Abs()), ifname, ia, other)
    {
      intfAddrs := Store(intfAddrs, ifname, ia);
      if other.Some? {
        peerIntfAddrs := Store(peerIntfAddrs, ifname, other.value);
      }
    }

    /** A registered interface keeps its addresses; a new one has none. */
    method RegisterInterface(ifname: string)
      modifies this`intfAddrs
      ensures Abs() == Register(old(Abs()), ifname)
      ensures intfAddrs.Keys == old(intfAddrs).Keys + {ifname}
      ensures forall n, six :: Lookup(intfAddrs, n).Get(six) == Lookup(old(intfAddrs), n).Get(six)
    {
      if ifname !in intfAddrs {
        intfAddrs := intfAddrs[ifname := Slots(None, None)];
      }
    }

    /** False when the source's assertion fails: the network is already on another interface. */
    method RegisterNetwork(netname: string, ifname: string) returns (ok: bool)
      modifies this`netIntfs
      ensures ok <==> netname !in old(netIntfs) || old(netIntfs)[netname] == ifname
      ensures Topology.RegisterNetwork(old(Abs()), netname, ifname) == if ok then Some(Abs()) else None
      ensures !ok ==> Abs() == old(Abs())
    {
      if netname in netIntfs {
        ok := netIntfs[netname] == ifname;
        assert ok ==> netIntfs[netname := ifname] == netIntfs;
      } else {
        netIntfs := netIntfs[netname := ifname];
        ok := true;
      }
    }

    /** `set_dummy_addr`; false when one of its assertions fails, and then nothing has changed. */
    method SetDummyAddr(c: Conf) returns (ok: bool)
      modifies this`intfAddrs, this`peerIntfAddrs
      ensures Topology.SetDummyAddr(old(Abs()), c) == if ok then Some(Abs()) else None
      ensures !ok ==> Abs() == old(Abs())
    {
      if c.ip.Some? && c.ip.value.v6 {
        return false;
      }
      if c.ipv6.Some? && !c.ipv6.value.v6 {
        return false;
      }
      if c.ip.Some? {
        SetIntfAddr(c.name, c.ip.value, None);
      }
      if c.ipv6.Some? {
        SetIntfAddr(c.name, c.ipv6.value, None);
      }
      ok := true;
    }

    /** `_set_p2p_addr`; the far end may be an interface of this node too. */
    method SetP2pAddrFamily(other: Node, c1: Conf, c2: Conf, six: bool, autonumber: bool)
      modifies this, other
      ensures var p := PickP2p(old(Abs()), c1, c2, six, autonumber);
              if other == this then
                Abs() == P2pSelf(old(Abs()), c1, c2, six, autonumber)
              else
                && Abs() == Place(p.host, c1.name, p.near, p.far)
                && other.Abs() == Place(old(other.Abs()), c2.name, p.far, p.near)
      ensures unchanged(this`basename, this`nextIntfIndex)
      ensures unchanged(other`basename, other`nextIntfIndex)
    {
      var near, far := c1.Get(six), c2.Get(six);
      if near.None? && far.None? {
        if !autonumber {
          return;
        }
        var n: Network;
        if six {
          n := nextP2pNetwork6;
          nextP2pNetwork6 := MakeIpNetwork(n, 1);
        } else {
          n := nextP2pNetwork;
          nextP2pNetwork := MakeIpNetwork(n, 1);
        }
        near := Some(Interface(n.v6, n.address, n.size));
        far := Some(Interface(n.v6, near.value.ip + 1, n.size));
      }
      if near.Some? {
        SetIntfAddr(c1.name, near.value, far);
      }
      if far.Some? {
        other.SetIntfAddr(c2.name, far.value, near);
      }
    }

    method SetP2pAddr(other: Node, c1: Conf, c2: Conf, env: Env)
      modifies this, other
      ensures other != this ==> Two(Abs(), other.Abs()) == P2pBoth(old(Two(Abs(), other.Abs())), c1, c2, env)
      ensures other == this ==> Abs() == SelfBoth(old(Abs()), c1, c2, env)
    {
      SetP2pAddrFamily(other, c1, c2, false, env.autonumber);
      if env.ipv6 {
        SetP2pAddrFamily(other, c1, c2, true, env.autonumber);
      }
    }

    /** `set_lan_addr`; false when one of its assertions fails, and then nothing has changed. */
    method SetLanAddr(net4: Network, net6: Network, c: Conf, env: Env) returns (ok: bool)
      modifies this`intfAddrs, this`peerIntfAddrs
      ensures Topology.SetLanAddr(old(Abs()), net4, net6, c, env) == if ok then Some(Abs()) else None
      ensures !ok ==> Abs() == old(Abs())
    {
      var a4: Option<Interface> := None;
      if c.ip.Some? {
        a4 := c.ip;
        if a4.value.v6 {
          return false;
        }
      } else if env.autonumber {
        a4 := Some(HostInterface(net4, id));
      }
      var a6: Option<Interface> := None;
      if c.ipv6.Some? {
        return false;  // asserts that the IPv4 address, or None, is of version 6
      } else if env.ipv6 && env.autonumber {
        a6 := Some(HostInterface(net6, id));
      }
      if a4.Some? {
        SetIntfAddr(c.name, a4.value, None);
      }
      if a6.Some? {
        SetIntfAddr(c.name, a6.value, None);
      }
      ok := true;
    }

    // One more link, from this node.

    method AddDummy(c: Conf) returns (ok: bool)
      modifies this`intfAddrs, this`peerIntfAddrs
      ensures DummyHost(old(Abs()), c) == if ok then Some(Abs()) else None
    {
      RegisterInterface(c.name);
      ok := SetDummyAddr(c);
    }

    /** False when the node is on the bridge with another interface, or an address is refused. */
    method AddLan(net: string, brid: nat, c: Conf, env: Env) returns (ok: bool)
      requires brid < 0xFDFF
      modifies this
      ensures var net4, net6 := BridgeInterface(brid, false).NetworkOf(), BridgeInterface(brid, true).NetworkOf();
              LanHost(old(Abs()), net, net4, net6, c, env) == if ok then Some(Abs()) else None
    {
      RegisterInterface(c.name);
      ok := RegisterNetwork(net, c.name);
      if ok {
        var net4, net6 := BridgeInterface(brid, false).NetworkOf(), BridgeInterface(brid, true).NetworkOf();
        ok := SetLanAddr(net4, net6, c, env);
      }
    }

    method AddP2p(other: Node, c1: Conf, c2: Conf, env: Env)
      modifies this, other
      ensures other != this ==>
                Two(Abs(), other.Abs()) == P2pBoth(RegisterTwo(old(Two(Abs(), other.Abs())), c1, c2), c1, c2, env)
      ensures other == this ==>
                Abs() == SelfBoth(Register(Register(old(Abs()), c1.name), c2.name), c1, c2, env)
    {
      RegisterInterface(c1.name);
      other.RegisterInterface(c2.name);
      SetP2pAddr(other, c1, c2, env);
    }
  }
}
