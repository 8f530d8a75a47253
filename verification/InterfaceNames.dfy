/** Automatic interface names (`get_next_intf_name` in munet/base.py and the naming pass of
    `_async_build` in munet/native.py). */
module InterfaceNames {
  import opened Options
  import opened Decimals

  function Name(base: string, i: nat): string {
    base + Decimal(i)
  }

  lemma {:induction false} NameInjective(base: string, i: nat, j: nat)
    requires Name(base, i) == Name(base, j)
    ensures i == j
  {
    assert Name(base, i)[|base|..] == Decimal(i);
    assert Name(base, j)[|base|..] == Decimal(j);
    DecimalInjective(i, j);
  }

  /** The least index from `start` on whose name is not taken. */
  predicate IsNext(taken: set<string>, base: string, start: nat, i: nat) {
    start <= i && Name(base, i) !in taken && AllTaken(taken, base, start, i)
  }

  predicate AllTaken(taken: set<string>, base: string, start: nat, end: nat) {
    forall j :: start <= j < end ==> Name(base, j) in taken
  }

  /** However many names are taken there is one. */
  function NextIndex(taken: set<string>, base: string, start: nat): (i: nat)
    ensures IsNext(taken, base, start, i)
    decreases taken
  {
    var name := Name(base, start);
    if name !in taken then
      start
    else
      var i := NextIndex(taken - {name}, base, start + 1);
      assert Name(base, i) != name by {
        if Name(base, i) == name {
          NameInjective(base, i, start);
        }
      }
      i
  }

  lemma {:induction false} NextUnique(taken: set<string>, base: string, start: nat, i: nat)
    requires IsNext(taken, base, start, i)
    ensures NextIndex(taken, base, start) == i
  {
  }

  // ---------- the naming pass ----------

  /** The names of a node's connections: the given ones, and the next automatic one for each
      connection without; `next` is the counter afterwards. */
  datatype Named = Named(names: seq<string>, next: nat)

  function NameAll(taken: set<string>, base: string, start: nat, given: seq<Option<string>>): (r: Named)
    ensures |r.names| == |given| && r.next >= start
    decreases given
  {
    if given == [] then
      Named([], start)
    else if given[0].Some? then
      var r := NameAll(taken, base, start, given[1..]);
      Named([given[0].value] + r.names, r.next)
    else
      var i := NextIndex(taken, base, start);
      var r := NameAll(taken, base, i + 1, given[1..]);
      Named([Name(base, i)] + r.names, r.next)
  }

  predicate Distinct(names: seq<string>) {
    forall i, j :: 0 <= i < j < |names| ==> names[i] != names[j]
  }

  predicate GivenDistinct(given: seq<Option<string>>) {
    forall i, j :: 0 <= i < j < |given| && given[i].Some? && given[j].Some? ==> given[i] != given[j]
  }

  /** The automatic names from index `start` up to, not including, index `end`. */
  predicate Allocated(taken: set<string>, base: string, start: nat, end: nat, name: string) {
    name !in taken && exists i :: start <= i < end && name == Name(base, i)
  }

  /** A given name that is also an automatic one. */
  predicate Clash(taken: set<string>, base: string, start: nat, end: nat, given: seq<Option<string>>) {
    exists i :: 0 <= i < |given| && given[i].Some? && Allocated(taken, base, start, end, given[i].value)
  }

  /** One connection's name and the rest. */
  lemma {:induction false} NameNext(taken: set<string>, base: string, start: nat, given: seq<Option<string>>)
    requires given != []
    ensures var first := if given[0].Some? then start else NextIndex(taken, base, start) + 1;
            var rest := NameAll(taken, base, first, given[1..]);
            NameAll(taken, base, start, given)
              == Named([if given[0].Some? then given[0].value else Name(base, first - 1)] + rest.names, rest.next)
  {
  }

  predicate Kept(given: seq<Option<string>>, names: seq<string>) {
    |names| == |given| && forall p :: 0 <= p < |given| && given[p].Some? ==> names[p] == given[p].value
  }

  /** The automatic names are free ones between the counter before and after. */
  predicate AllAllocated(taken: set<string>, base: string, start: nat, end: nat, given: seq<Option<string>>,
                         names: seq<string>)
    requires |names| == |given|
  {
    forall p :: 0 <= p < |given| && given[p].None? ==> Allocated(taken, base, start, end, names[p])
  }

  predicate AutoDistinct(given: seq<Option<string>>, names: seq<string>)
    requires |names| == |given|
  {
    forall p, q :: 0 <= p < q < |given| && given[p].None? && given[q].None? ==> names[p] != names[q]
  }

  /** Every free name that the counter passed is some connection's. */
  ghost predicate AllUsed(taken: set<string>, base: string, start: nat, end: nat, given: seq<Option<string>>,
                          names: seq<string>)
    requires |names| == |given|
  {
    forall i :: start <= i < end && Name(base, i) !in taken
      ==> exists p :: 0 <= p < |given| && given[p].None? && names[p] == Name(base, i)
  }

  lemma {:induction false} AllocatedLater(taken: set<string>, base: string, start: nat, first: nat, end: nat,
                                          name: string)
    requires Allocated(taken, base, first, end, name) && start <= first
    ensures Allocated(taken, base, start, end, name)
    ensures start < first ==> name != Name(base, first - 1)
  {
    var i :| first <= i < end && name == Name(base, i);
    if start < first && name == Name(base, first - 1) {
      NameInjective(base, i, first - 1);
    }
  }

  lemma {:induction false} UsedMore(taken: set<string>, base: string, start: nat, first: nat, end: nat,
                                    given: seq<Option<string>>, names: seq<string>)
    requires given != [] && |names| == |given|
    requires AllUsed(taken, base, first, end, given[1..], names[1..])
    requires forall i :: start <= i < first && Name(base, i) !in taken ==> given[0].None? && names[0] == Name(base, i)
    ensures AllUsed(taken, base, start, end, given, names)
  {
    forall i | start <= i < end && Name(base, i) !in taken
      ensures exists p :: 0 <= p < |given| && given[p].None? && names[p] == Name(base, i)
    {
      if i < first {
        assert names[0] == Name(base, i);
      } else {
        var p :| 0 <= p < |given[1..]| && given[1..][p].None? && names[1..][p] == Name(base, i);
        assert given[p + 1] == given[1..][p] && names[p + 1] == names[1..][p];
      }
    }
  }

  /** What the facts about the later connections say about all of them. */
  lemma {:induction false} AllocatedMore(taken: set<string>, base: string, start: nat, first: nat, end: nat,
                                         given: seq<Option<string>>, names: seq<string>)
    requires given != [] && |names| == |given| && start <= first <= end
    requires given[0].None? ==> start < first && names[0] == Name(base, first - 1) && names[0] !in taken
    requires AllAllocated(taken, base, first, end, given[1..], names[1..])
    ensures AllAllocated(taken, base, start, end, given, names)
    ensures forall p :: 1 <= p < |given| && given[p].None? && given[0].None? ==> names[p] != names[0]
  {
    forall p | 1 <= p < |given| && given[p].None?
      ensures Allocated(taken, base, start, end, names[p])
      ensures given[0].None? ==> names[p] != names[0]
    {
      assert given[p] == given[1..][p - 1] && names[p] == names[1..][p - 1];
      AllocatedLater(taken, base, start, first, end, names[p]);
    }
    if given[0].None? {
      assert Allocated(taken, base, start, end, names[0]);
    }
  }

  lemma {:induction false} AutoDistinctMore(given: seq<Option<string>>, names: seq<string>)
    requires given != [] && |names| == |given| && AutoDistinct(given[1..], names[1..])
    requires forall p :: 1 <= p < |given| && given[p].None? && given[0].None? ==> names[p] != names[0]
    ensures AutoDistinct(given, names)
  {
    forall p, q | 0 <= p < q < |given| && given[p].None? && given[q].None?
      ensures names[p] != names[q]
    {
      assert given[q] == given[1..][q - 1] && names[q] == names[1..][q - 1];
      if p > 0 {
        assert given[p] == given[1..][p - 1] && names[p] == names[1..][p - 1];
      }
    }
  }

  lemma {:induction false} KeptMore(given: seq<Option<string>>, names: seq<string>)
    requires given != [] && |names| == |given| && Kept(given[1..], names[1..])
    requires given[0].Some? ==> names[0] == given[0].value
    ensures Kept(given, names)
  {
    forall p | 1 <= p < |given| && given[p].Some?
      ensures names[p] == given[p].value
    {
      assert given[p] == given[1..][p - 1] && names[p] == names[1..][p - 1];
    }
  }

  /** Given names are kept; the others are exactly the automatic names the counter passed. */
  ghost predicate NamedRight(taken: set<string>, base: string, start: nat, given: seq<Option<string>>, r: Named) {
    && Kept(given, r.names)
    && AllAllocated(taken, base, start, r.next, given, r.names)
    && AutoDistinct(given, r.names)
    && AllUsed(taken, base, start, r.next, given, r.names)
  }

  lemma {:induction false} NamedRightMore(taken: set<string>, base: string, start: nat, first: nat,
                                          given: seq<Option<string>>, name: string, rest: Named)
    requires given != [] && NamedRight(taken, base, first, given[1..], rest) && start <= first <= rest.next
    requires given[0].Some? ==> first == start && name == given[0].value
    requires given[0].None? ==> start < first && name == Name(base, first - 1) && IsNext(taken, base, start, first - 1)
    ensures NamedRight(taken, base, start, given, Named([name] + rest.names, rest.next))
  {
    var names := [name] + rest.names;
    assert names[1..] == rest.names;
    KeptMore(given, names);
    AllocatedMore(taken, base, start, first, rest.next, given, names);
    AutoDistinctMore(given, names);
    UsedMore(taken, base, start, first, rest.next, given, names);
  }

  lemma {:induction false} NameAllFacts(taken: set<string>, base: string, start: nat, given: seq<Option<string>>)
    ensures NamedRight(taken, base, start, given, NameAll(taken, base, start, given))
    decreases given
  {
    if given != [] {
      var first := if given[0].Some? then start else NextIndex(taken, base, start) + 1;
      var rest := NameAll(taken, base, first, given[1..]);
      NameAllFacts(taken, base, first, given[1..]);
      NameNext(taken, base, start, given);
      NamedRightMore(taken, base, start, first, given,
                     if given[0].Some? then given[0].value else Name(base, first - 1), rest);
    }
  }

  lemma {:induction false} ClashRepeats(taken: set<string>, base: string, start: nat, given: seq<Option<string>>,
                                        r: Named)
    requires NamedRight(taken, base, start, given, r) && Clash(taken, base, start, r.next, given)
    ensures !Distinct(r.names)
  {
    var p :| 0 <= p < |given| && given[p].Some? && Allocated(taken, base, start, r.next, given[p].value);
    var i :| start <= i < r.next && given[p].value == Name(base, i);
    var q :| 0 <= q < |given| && given[q].None? && r.names[q] == Name(base, i);
    assert r.names[p] == given[p].value;
    assert r.names[p] == r.names[q] && (p < q || q < p);
  }

  lemma {:induction false} NoClashDistinct(taken: set<string>, base: string, start: nat, given: seq<Option<string>>,
                                           r: Named)
    requires NamedRight(taken, base, start, given, r)
    requires GivenDistinct(given) && !Clash(taken, base, start, r.next, given)
    ensures Distinct(r.names)
  {
    forall p, q | 0 <= p < q < |given|
      ensures r.names[p] != r.names[q]
    {
      assert given[p].Some? ==> !Allocated(taken, base, start, r.next, r.names[p]);
      assert given[q].Some? ==> !Allocated(taken, base, start, r.next, r.names[q]);
    }
  }

  lemma {:induction false} GivenRepeats(given: seq<Option<string>>, names: seq<string>)
    requires Kept(given, names) && !GivenDistinct(given)
    ensures !Distinct(names)
  {
    var p, q :| 0 <= p < q < |given| && given[p].Some? && given[q].Some? && given[p] == given[q];
    assert names[p] == given[p].value && names[q] == given[q].value;
  }

  /** With the counter after the pass for the bound. */
  lemma {:induction false} DistinctIffNoClash(taken: set<string>, base: string, start: nat, given: seq<Option<string>>)
    ensures var r := NameAll(taken, base, start, given);
            Distinct(r.names) <==> GivenDistinct(given) && !Clash(taken, base, start, r.next, given)
  {
    var r := NameAll(taken, base, start, given);
    NameAllFacts(taken, base, start, given);
    if Clash(taken, base, start, r.next, given) {
      ClashRepeats(taken, base, start, given, r);
    } else if GivenDistinct(given) {
      NoClashDistinct(taken, base, start, given, r);
    } else {
      GivenRepeats(given, r.names);
    }
  }

  function Unnamed(given: seq<Option<string>>): nat {
    if given == [] then 0 else (if given[0].None? then 1 else 0) + Unnamed(given[1..])
  }

  /** The free names with an index from `start` up to, not including, `end`. */
  function FreeBelow(taken: set<string>, base: string, start: nat, end: nat): nat
    decreases end - start
  {
    if start >= end then 0
    else (if Name(base, start) in taken then 0 else 1) + FreeBelow(taken, base, start + 1, end)
  }

  lemma {:induction false} FreeBelowSplit(taken: set<string>, base: string, start: nat, mid: nat, end: nat)
    requires start <= mid <= end
    ensures FreeBelow(taken, base, start, end) == FreeBelow(taken, base, start, mid) + FreeBelow(taken, base, mid, end)
    decreases mid - start
  {
    if start < mid {
      FreeBelowSplit(taken, base, start + 1, mid, end);
    }
  }

  lemma {:induction false} NoneFree(taken: set<string>, base: string, start: nat, end: nat)
    requires AllTaken(taken, base, start, end)
    ensures FreeBelow(taken, base, start, end) == 0
    decreases end - start
  {
    if start < end {
      NoneFree(taken, base, start + 1, end);
    }
  }

  /** The pass reaches a free name exactly when there are fewer free ones before it than connections
      without a name. */
  lemma {:induction false} ReachesIff(taken: set<string>, base: string, start: nat, given: seq<Option<string>>, i: nat)
    requires start <= i && Name(base, i) !in taken
    ensures i < NameAll(taken, base, start, given).next <==> FreeBelow(taken, base, start, i) < Unnamed(given)
    decreases given
  {
    if given == [] {
    } else if given[0].Some? {
      NameNext(taken, base, start, given);
      ReachesIff(taken, base, start, given[1..], i);
    } else {
      var k := NextIndex(taken, base, start);
      NameNext(taken, base, start, given);
      NoneFree(taken, base, start, k);
      if i == k {
        assert NameAll(taken, base, k + 1, given[1..]).next >= k + 1;
      } else {
        assert k < i;
        FreeBelowSplit(taken, base, start, k, i);
        ReachesIff(taken, base, k + 1, given[1..], i);
      }
    }
  }

  /** A given name is a free automatic one, and has fewer free ones before it than there are
      connections without a name: the pass comes to it. */
  ghost predicate Reaches(taken: set<string>, base: string, start: nat, given: seq<Option<string>>, name: string) {
    name !in taken && exists i: nat :: start <= i && name == Name(base, i)
                                       && FreeBelow(taken, base, start, i) < Unnamed(given)
  }

  lemma {:induction false} ReachesIffAllocated(taken: set<string>, base: string, start: nat,
                                               given: seq<Option<string>>, name: string)
    ensures Reaches(taken, base, start, given, name)
            <==> Allocated(taken, base, start, NameAll(taken, base, start, given).next, name)
  {
    var end := NameAll(taken, base, start, given).next;
    forall i: nat | start <= i && name == Name(base, i) && name !in taken
      ensures i < end <==> FreeBelow(taken, base, start, i) < Unnamed(given)
    {
      ReachesIff(taken, base, start, given, i);
    }
  }

  /** The pass names every connection differently exactly when the given names are different and it
      comes to none of them. */
  lemma {:induction false} NamesDistinctIff(taken: set<string>, base: string, start: nat, given: seq<Option<string>>)
    ensures Distinct(NameAll(taken, base, start, given).names) <==>
            && GivenDistinct(given)
            && forall p :: 0 <= p < |given| && given[p].Some? ==> !Reaches(taken, base, start, given, given[p].value)
  {
    DistinctIffNoClash(taken, base, start, given);
    forall p | 0 <= p < |given| && given[p].Some?
      ensures Reaches(taken, base, start, given, given[p].value)
              <==> Allocated(taken, base, start, NameAll(taken, base, start, given).next, given[p].value)
    {
      ReachesIffAllocated(taken, base, start, given, given[p].value);
    }
  }

  /** While no interface is registered, the counter moves on by one for each connection
      without a name, so the automatic names are known beforehand. */
  lemma {:induction false} FreshNodeCounter(base: string, start: nat, given: seq<Option<string>>)
    ensures NameAll({}, base, start, given).next == start + Unnamed(given)
    decreases given
  {
    if given != [] {
      NextUnique({}, base, start, start);
      NameNext({}, base, start, given);
      FreshNodeCounter(base, if given[0].None? then start + 1 else start, given[1..]);
    }
  }

  /** So it is in a build, where all connections are named before the first interface is registered:
      no given name may be one of the first automatic ones. */
  lemma {:induction false} FreshNamesDistinctIff(base: string, given: seq<Option<string>>)
    ensures Distinct(NameAll({}, base, 0, given).names) <==>
            && GivenDistinct(given)
            && forall p, i :: 0 <= p < |given| && 0 <= i < Unnamed(given) ==> given[p] != Some(Name(base, i))
  {
    DistinctIffNoClash({}, base, 0, given);
    FreshNodeCounter(base, 0, given);
  }

  /** A connection without a name before one that is named "eth0". */
  lemma {:induction false} LaterNameRepeats()
    ensures var given := [None, Some("eth0")];
            NameAll({}, "eth", 0, given).names == ["eth0", "eth0"]
  {
    var given := [None, Some("eth0")];
    assert Name("eth", 0) == "eth0";
    NextUnique({}, "eth", 0, 0);
    NameNext({}, "eth", 0, given);
    var last := given[1..];
    assert last == [Some("eth0")] && last[1..] == [];
    NameNext({}, "eth", 1, last);
    assert NameAll({}, "eth", 1, last[1..]).names == [];
    assert NameAll({}, "eth", 1, last).names == ["eth0"] + [];
    assert NameAll({}, "eth", 0, given).names == ["eth0"] + NameAll({}, "eth", 1, last).names;
  }

  // ---------- any sequence of calls ----------

  /** What is called on a node: `register_interface` and `get_next_intf_name`. */
  datatype Call = RegisterName(ifname: string) | NextName

  /** The registered names, the counter, and the names returned so far. */
  datatype Names = Names(taken: set<string>, next: nat, returned: seq<string>)

  function Called(base: string, n: Names, call: Call): Names {
    match call
    case RegisterName(ifname) => n.(taken := n.taken + {ifname})
    case NextName =>
      var i := NextIndex(n.taken, base, n.next);
      Names(n.taken, i + 1, n.returned + [Name(base, i)])
  }

  function AllCalled(base: string, taken: set<string>, start: nat, calls: seq<Call>): Names {
    if calls == [] then Names(taken, start, [])
    else Called(base, AllCalled(base, taken, start, calls[..|calls| - 1]), calls[|calls| - 1])
  }

  /** The automatic names before an index. */
  predicate IsPassed(base: string, next: nat, name: string) {
    exists i :: 0 <= i < next && name == Name(base, i)
  }

  predicate Passed(base: string, n: Names) {
    forall p :: 0 <= p < |n.returned| ==> IsPassed(base, n.next, n.returned[p])
  }

  lemma {:induction false} PassedBefore(base: string, next: nat, name: string, k: nat)
    requires IsPassed(base, next, name) && next <= k
    ensures name != Name(base, k) && IsPassed(base, k + 1, name)
  {
    var i :| 0 <= i < next && name == Name(base, i);
    if name == Name(base, k) {
      NameInjective(base, i, k);
    }
  }

  lemma {:induction false} CalledOnce(base: string, n: Names, call: Call)
    requires Distinct(n.returned) && Passed(base, n)
    ensures var m := Called(base, n, call); Distinct(m.returned) && Passed(base, m)
  {
    if call.NextName? {
      var k := NextIndex(n.taken, base, n.next);
      forall p | 0 <= p < |n.returned|
        ensures n.returned[p] != Name(base, k) && IsPassed(base, k + 1, n.returned[p])
      {
        PassedBefore(base, n.next, n.returned[p], k);
      }
      assert IsPassed(base, k + 1, Name(base, k));
    }
  }

  /** Whatever is registered between the calls, no name is returned twice, and none that is
      registered when it is returned. */
  lemma {:induction false} NeverRepeats(base: string, taken: set<string>, start: nat, calls: seq<Call>)
    ensures var n := AllCalled(base, taken, start, calls);
            && Distinct(n.returned) && Passed(base, n)
            && Called(base, n, NextName).returned[|n.returned|] !in n.taken
  {
    if calls != [] {
      NeverRepeats(base, taken, start, calls[..|calls| - 1]);
      CalledOnce(base, AllCalled(base, taken, start, calls[..|calls| - 1]), calls[|calls| - 1]);
    }
  }
}
