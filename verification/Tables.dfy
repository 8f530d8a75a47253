/** The interface and bridge tables after a sequence of links, and when the sequence succeeds. */
module Tables {
  import opened Options
  import opened Topology
  import opened PeerTables

  /** Two links of one node to one bridge. */
  predicate SameNet(l: Link, m: Link) {
    l.LanLink? && m.LanLink? && l.net == m.net && l.node == m.node
  }

  /** No node is linked to a bridge twice. */
  predicate OnePerNet(links: seq<Link>) {
    forall i, j :: 0 <= i < j < |links| ==> !SameNet(links[i], links[j])
  }

  predicate AllAcceptable(links: seq<Link>) {
    forall l :: l in links ==> Acceptable(l)
  }

  predicate NoNets(t: Topo) {
    forall n :: n in t ==> t[n].nets == map[]
  }

  /** The link put its node on the bridge. */
  predicate PutOn(l: Link, node: string, net: string, ifname: string) {
    l.LanLink? && l.node == node && l.net == net && l.conf.name == ifname
  }

  /** The tables of `u` are those of `t` and what these links entered. */
  ghost predicate Entered(t: Topo, u: Topo, links: seq<Link>) {
    && u.Keys == t.Keys
    && (forall e :: e in Registered(u) <==> e in Registered(t) || e in AllEnds(links))
    && (forall n, net :: n in t && net in u[n].nets ==>
          exists l :: l in links && PutOn(l, n, net, u[n].nets[net]))
    && (forall l :: l in links && l.LanLink? ==> l.node in t && l.net in u[l.node].nets)
  }

  lemma {:induction false} EnteredStep(t: Topo, mid: Topo, u: Topo, init: seq<Link>, last: Link)
    requires Entered(t, mid, init) && Known(mid, last) && u.Keys == mid.Keys
    requires forall e :: e in Registered(u) <==> e in Registered(mid) || e in EndsOf(last)
    requires forall n :: n in mid ==> TablesAfter(mid[n], u[n], last, n)
    ensures Entered(t, u, init + [last])
  {
    var links := init + [last];
    AllEndsAppend(init, last);
    forall n, net | n in t && net in u[n].nets
      ensures exists l :: l in links && PutOn(l, n, net, u[n].nets[net])
    {
      assert TablesAfter(mid[n], u[n], last, n);
      if PutOn(last, n, net, u[n].nets[net]) {
        assert last in links;
      } else {
        assert net in mid[n].nets;
        var l :| l in init && PutOn(l, n, net, mid[n].nets[net]);
        assert l in links;
      }
    }
    forall l | l in links && l.LanLink?
      ensures l.node in t && l.net in u[l.node].nets
    {
      assert l in init || l == last;
      assert l.node in mid && TablesAfter(mid[l.node], u[l.node], last, l.node);
    }
  }

  /** The last link meets a free bridge exactly when it is the first of its node to that bridge. */
  lemma {:induction false} NetFreeIff(t: Topo, mid: Topo, init: seq<Link>, last: Link)
    requires Entered(t, mid, init) && Known(mid, last)
    requires forall e :: e in AllEnds(init) ==> e !in EndsOf(last)
    ensures NetFree(mid, last) <==> forall l :: l in init ==> !SameNet(l, last)
  {
    if l :| l in init && SameNet(l, last) {
      assert l.net in mid[l.node].nets;
      var k :| k in init && PutOn(k, l.node, l.net, mid[l.node].nets[l.net]);
      EndsAmong(init, k);
      assert End(k.node, k.conf.name) in EndsOf(k);
      assert !NetFree(mid, last);
    }
    if !NetFree(mid, last) {
      var k :| k in init && PutOn(k, last.node, last.net, mid[last.node].nets[last.net]);
      assert SameNet(k, last);
    }
  }

  lemma {:induction false} OnePerNetAppend(init: seq<Link>, last: Link)
    ensures OnePerNet(init + [last]) <==> OnePerNet(init) && forall l :: l in init ==> !SameNet(l, last)
  {
    var links := init + [last];
    assert forall i :: 0 <= i < |init| ==> links[i] == init[i];
    assert links[|init|] == last;
    if OnePerNet(links) {
      forall l | l in init
        ensures !SameNet(l, last)
      {
        var i :| 0 <= i < |init| && init[i] == l;
        assert !SameNet(links[i], links[|init|]);
      }
      forall i, j | 0 <= i < j < |init|
        ensures !SameNet(init[i], init[j])
      {
        assert !SameNet(links[i], links[j]);
      }
    }
    if OnePerNet(init) && forall l :: l in init ==> !SameNet(l, last) {
      forall i, j | 0 <= i < j < |links|
        ensures !SameNet(links[i], links[j])
      {
        assert links[i] in init;
        assert j < |init| ==> !SameNet(init[i], init[j]);
      }
    }
  }

  lemma {:induction false} AcceptableAppend(init: seq<Link>, last: Link)
    ensures AllAcceptable(init + [last]) <==> AllAcceptable(init) && Acceptable(last)
  {
    assert forall l :: l in init + [last] <==> l in init || l == last;
  }

  /** Links on different interfaces are all added exactly when the code takes the addresses of each
      of them and no node is linked to a bridge twice. The tables then hold what the links entered. */
  lemma {:induction false} ConnectSucceedsIff(t: Topo, links: seq<Link>, env: Env)
    requires AllKnown(t, links) && Distinct(AllEnds(links)) && NoNets(t)
    ensures Connect(t, links, env).Some? <==> AllAcceptable(links) && OnePerNet(links)
    ensures Connect(t, links, env).Some? ==> Entered(t, Connect(t, links, env).value, links)
  {
    if links != [] {
      var n := |links| - 1;
      var init, last := links[..n], links[n];
      assert init + [last] == links;
      PrefixFacts(t, init, last);
      ConnectMore(t, init, last, env);
      ConnectSucceedsIff(t, init, env);
      OnePerNetAppend(init, last);
      AcceptableAppend(init, last);
      if Connect(t, init, env).Some? {
        var mid := Connect(t, init, env).value;
        NetFreeIff(t, mid, init, last);
        if ConnectOne(mid, last, env).Some? {
          ConnectRegisters(mid, last, env);
          EnteredStep(t, mid, ConnectOne(mid, last, env).value, init, last);
        }
      }
    }
  }
}
