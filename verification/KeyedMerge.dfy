/** Lists of objects keyed by one of their values (`merge_using_key` and `list_to_dict_with_key` in
    munet/config.py). */
module KeyedMerge {
  import opened Options

  datatype Value = Value(text: string)

  /** A configuration object: a dictionary. */
  datatype Object = Object(fields: map<string, Value>)

  /** An object together with its key value. */
  datatype Entry = Entry(key: Value, item: Object)

  /** `{x[k]: x for x in s}`: of objects with the same key value the last one. */
  function ToDict(s: seq<Entry>): map<Value, Object> {
    if s == [] then map[] else ToDict(s[..|s| - 1])[s[|s| - 1].key := s[|s| - 1].item]
  }

  /** `{o[k]: i for i, o in enumerate(s)}`. */
  function ToIndex(s: seq<Entry>): map<Value, nat> {
    if s == [] then map[] else ToIndex(s[..|s| - 1])[s[|s| - 1].key := |s| - 1]
  }

  /** The key values of a list in the order they first appear, without those in `seen`. */
  function FirstKeys(s: seq<Entry>, seen: set<Value>): seq<Value> {
    if s == [] then
      []
    else
      var keys, v := FirstKeys(s[..|s| - 1], seen), s[|s| - 1].key;
      if v in seen || v in keys then keys else keys + [v]
  }

  /** The index leads to an entry of the key value, the one in the dict. */
  lemma {:induction false} Indexed(s: seq<Entry>, v: Value)
    ensures v in ToIndex(s) <==> v in ToDict(s)
    ensures v in ToIndex(s) ==> ToIndex(s)[v] < |s| && s[ToIndex(s)[v]] == Entry(v, ToDict(s)[v])
  {
    if s != [] {
      Indexed(s[..|s| - 1], v);
    }
  }

  /** It is the last one. */
  lemma {:induction false} IndexedLast(s: seq<Entry>, i: nat)
    requires i < |s|
    ensures s[i].key in ToIndex(s) && i <= ToIndex(s)[s[i].key]
  {
    var n := |s| - 1;
    if i < n {
      IndexedLast(s[..n], i);
    }
  }

  /** The key values are in `db`, not in `seen`, and all different. */
  predicate KeysFit(keys: seq<Value>, seen: set<Value>, db: map<Value, Object>) {
    && (forall p :: 0 <= p < |keys| ==> keys[p] in db && keys[p] !in seen)
    && (forall p, q :: 0 <= p < q < |keys| ==> keys[p] != keys[q])
  }

  lemma {:induction false} FirstKeysFit(s: seq<Entry>, seen: set<Value>)
    ensures KeysFit(FirstKeys(s, seen), seen, ToDict(s))
  {
    if s != [] {
      FirstKeysFit(s[..|s| - 1], seen);
    }
  }

  /** An entry replaces the last one of its key value, or is appended. */
  function Put(m: seq<Entry>, e: Entry): (r: seq<Entry>)
    ensures |r| >= |m|
  {
    Indexed(m, e.key);
    if e.key in ToIndex(m) then m[ToIndex(m)[e.key] := e] else m + [e]
  }

  /** `merge_using_key`. */
  function Merge(a: seq<Entry>, b: seq<Entry>): (m: seq<Entry>)
    ensures |m| >= |a|
  {
    if b == [] then a else Put(Merge(a, b[..|b| - 1]), b[|b| - 1])
  }

  lemma {:induction false} AppendFacts(s: seq<Entry>, e: Entry)
    ensures ToDict(s + [e]) == ToDict(s)[e.key := e.item]
    ensures ToIndex(s + [e]) == ToIndex(s)[e.key := |s|]
  {
  }

  lemma {:induction false} ReplaceFacts(m: seq<Entry>, i: nat, e: Entry)
    requires e.key in ToIndex(m) && ToIndex(m)[e.key] == i
    ensures i < |m|
    ensures ToDict(m[i := e]) == ToDict(m)[e.key := e.item]
    ensures ToIndex(m[i := e]) == ToIndex(m)
  {
    var n := |m| - 1;
    var init, last := m[..n], m[n];
    assert m == init + [last];
    AppendFacts(init, last);
    if last.key == e.key {
      assert m[n := e] == init + [e];
      AppendFacts(init, e);
    } else {
      ReplaceFacts(init, i, e);
      assert m[i := e] == init[i := e] + [last];
      AppendFacts(init[i := e], last);
    }
  }

  /** Putting an entry keeps the dict and the index in step. */
  lemma {:induction false} PutFacts(m: seq<Entry>, e: Entry)
    ensures ToDict(Put(m, e)) == ToDict(m)[e.key := e.item]
    ensures ToIndex(Put(m, e)) == if e.key in ToIndex(m) then ToIndex(m) else ToIndex(m)[e.key := |m|]
  {
    if e.key in ToIndex(m) {
      ReplaceFacts(m, ToIndex(m)[e.key], e);
    } else {
      AppendFacts(m, e);
    }
  }

  /** The dict of the merged list is the dict of `a` overridden by the dict of `b`. */
  lemma {:induction false} MergeIsOverride(a: seq<Entry>, b: seq<Entry>)
    ensures ToDict(Merge(a, b)) == ToDict(a) + ToDict(b)
  {
    if b == [] {
      assert ToDict(a) + map[] == ToDict(a);
    } else {
      var init, e := b[..|b| - 1], b[|b| - 1];
      MergeIsOverride(a, init);
      PutFacts(Merge(a, init), e);
      OverrideOne(ToDict(a), ToDict(init), e);
    }
  }

  lemma {:induction false} OverrideOne(a: map<Value, Object>, b: map<Value, Object>, e: Entry)
    ensures (a + b)[e.key := e.item] == a + b[e.key := e.item]
  {
  }

  /** The entries at the positions of `a`: the last one of a key value that `db` has gives way
      to that of `db`. `ia` is the index of `a`. */
  function Overridden(a: seq<Entry>, ia: map<Value, nat>, db: map<Value, Object>): (r: seq<Entry>)
    ensures |r| == |a|
  {
    seq(|a|, i requires 0 <= i < |a| =>
      var v := a[i].key;
      if v in db && v in ia && ia[v] == i then Entry(v, db[v]) else a[i])
  }

  function Added(keys: seq<Value>, db: map<Value, Object>): (r: seq<Entry>)
    requires forall p :: 0 <= p < |keys| ==> keys[p] in db
    ensures |r| == |keys|
  {
    seq(|keys|, p requires 0 <= p < |keys| => Entry(keys[p], db[keys[p]]))
  }

  /** The positions of `a`, then the key values that `a` has not. */
  function Layout(a: seq<Entry>, keys: seq<Value>, db: map<Value, Object>): seq<Entry>
    requires KeysFit(keys, ToIndex(a).Keys, db)
  {
    Overridden(a, ToIndex(a), db) + Added(keys, db)
  }

  lemma {:induction false} KeptKey(a: seq<Entry>, keys: seq<Value>, db: map<Value, Object>, v: Value)
    requires KeysFit(keys, ToIndex(a).Keys, db) && v in ToIndex(a)
    ensures v in ToIndex(Layout(a, keys, db)) && ToIndex(Layout(a, keys, db))[v] == ToIndex(a)[v]
  {
    var m, i := Layout(a, keys, db), ToIndex(a)[v];
    Indexed(a, v);
    assert m[i].key == v;
    IndexedLast(m, i);
    Indexed(m, v);
    var j := ToIndex(m)[v];
    if j < |a| {
      assert a[j].key == v;
      IndexedLast(a, j);
    }
  }

  lemma {:induction false} OtherKey(a: seq<Entry>, keys: seq<Value>, db: map<Value, Object>, v: Value)
    requires KeysFit(keys, ToIndex(a).Keys, db) && v !in ToIndex(a) && v in ToIndex(Layout(a, keys, db))
    ensures var j := ToIndex(Layout(a, keys, db))[v]; |a| <= j < |a| + |keys| && keys[j - |a|] == v
  {
    var m := Layout(a, keys, db);
    Indexed(m, v);
    var j := ToIndex(m)[v];
    if j < |a| {
      IndexedLast(a, j);
      assert false;
    }
  }

  lemma {:induction false} NoKey(a: seq<Entry>, keys: seq<Value>, db: map<Value, Object>, v: Value)
    requires KeysFit(keys, ToIndex(a).Keys, db) && v !in ToIndex(Layout(a, keys, db))
    ensures v !in ToIndex(a) && v !in keys
  {
    var m := Layout(a, keys, db);
    if v in ToIndex(a) {
      KeptKey(a, keys, db, v);
    }
    if v in keys {
      var p :| 0 <= p < |keys| && keys[p] == v;
      IndexedLast(m, |a| + p);
    }
  }

  lemma {:induction false} PutKept(a: seq<Entry>, keys: seq<Value>, db: map<Value, Object>, e: Entry)
    requires KeysFit(keys, ToIndex(a).Keys, db) && e.key in ToIndex(a)
    ensures var db' := db[e.key := e.item];
            KeysFit(keys, ToIndex(a).Keys, db') && Put(Layout(a, keys, db), e) == Layout(a, keys, db')
  {
    KeptKey(a, keys, db, e.key);
    Indexed(a, e.key);
    var i := ToIndex(a)[e.key];
    var db' := db[e.key := e.item];
    assert Overridden(a, ToIndex(a), db') == Overridden(a, ToIndex(a), db)[i := e];
    assert Added(keys, db') == Added(keys, db);
  }

  lemma {:induction false} OverriddenAlike(a: seq<Entry>, db: map<Value, Object>, e: Entry)
    requires e.key !in ToIndex(a)
    ensures Overridden(a, ToIndex(a), db[e.key := e.item]) == Overridden(a, ToIndex(a), db)
  {
    forall i | 0 <= i < |a|
      ensures a[i].key != e.key
    {
      IndexedLast(a, i);
    }
  }

  lemma {:induction false} PutAgain(a: seq<Entry>, keys: seq<Value>, db: map<Value, Object>, e: Entry)
    requires KeysFit(keys, ToIndex(a).Keys, db) && e.key !in ToIndex(a) && e.key in ToIndex(Layout(a, keys, db))
    ensures var db' := db[e.key := e.item];
            && e.key in keys && KeysFit(keys, ToIndex(a).Keys, db')
            && Put(Layout(a, keys, db), e) == Layout(a, keys, db')
  {
    var j := ToIndex(Layout(a, keys, db))[e.key];
    OverriddenAlike(a, db, e);
    OtherKey(a, keys, db, e.key);
    assert Added(keys, db[e.key := e.item]) == Added(keys, db)[j - |a| := e];
  }

  lemma {:induction false} PutNew(a: seq<Entry>, keys: seq<Value>, db: map<Value, Object>, e: Entry)
    requires KeysFit(keys, ToIndex(a).Keys, db) && e.key !in ToIndex(a) && e.key !in ToIndex(Layout(a, keys, db))
    ensures var keys', db' := keys + [e.key], db[e.key := e.item];
            && e.key !in keys && KeysFit(keys', ToIndex(a).Keys, db')
            && Put(Layout(a, keys, db), e) == Layout(a, keys', db')
  {
    OverriddenAlike(a, db, e);
    NoKey(a, keys, db, e.key);
    assert Added(keys + [e.key], db[e.key := e.item]) == Added(keys, db) + [e];
  }

  lemma {:induction false} PutOther(a: seq<Entry>, keys: seq<Value>, db: map<Value, Object>, e: Entry)
    requires KeysFit(keys, ToIndex(a).Keys, db) && e.key !in ToIndex(a)
    ensures var keys' := if e.key in keys then keys else keys + [e.key];
            var db' := db[e.key := e.item];
            KeysFit(keys', ToIndex(a).Keys, db') && Put(Layout(a, keys, db), e) == Layout(a, keys', db')
  {
    if e.key in ToIndex(Layout(a, keys, db)) {
      PutAgain(a, keys, db, e);
    } else {
      PutNew(a, keys, db, e);
    }
  }

  /** Every entry of `a` stays at its position, where the last one of its key value gives way to the
      entry of `b`; the new key values follow in the order they first appear in `b`. */
  lemma {:induction false} MergeKeepsPositions(a: seq<Entry>, b: seq<Entry>)
    ensures var keys := FirstKeys(b, ToIndex(a).Keys);
            KeysFit(keys, ToIndex(a).Keys, ToDict(b)) && Merge(a, b) == Layout(a, keys, ToDict(b))
  {
    FirstKeysFit(b, ToIndex(a).Keys);
    if b != [] {
      var init, last := b[..|b| - 1], b[|b| - 1];
      MergeKeepsPositions(a, init);
      var keys := FirstKeys(init, ToIndex(a).Keys);
      if last.key in ToIndex(a) {
        PutKept(a, keys, ToDict(init), last);
      } else {
        PutOther(a, keys, ToDict(init), last);
      }
    }
  }

  // ---------- the source's lists of dictionaries ----------

  /** No `o.fields[k]` raises. */
  predicate AllKeyed(s: seq<Object>, k: string) {
    forall i :: 0 <= i < |s| ==> k in s[i].fields
  }

  function Entries(s: seq<Object>, k: string): (r: seq<Entry>)
    requires AllKeyed(s, k)
    ensures |r| == |s|
  {
    seq(|s|, i requires 0 <= i < |s| => Entry(s[i].fields[k], s[i]))
  }

  lemma {:induction false} KeyedStep(s: seq<Object>, j: nat, k: string)
    requires j < |s| && AllKeyed(s[..j], k) && k in s[j].fields
    ensures AllKeyed(s[..j + 1], k)
  {
  }

  lemma {:induction false} EntriesStep(s: seq<Object>, j: nat, k: string)
    requires j < |s| && AllKeyed(s[..j + 1], k)
    ensures AllKeyed(s[..j], k) && k in s[j].fields
    ensures Entries(s[..j + 1], k) == Entries(s[..j], k) + [Entry(s[j].fields[k], s[j])]
  {
  }

  lemma {:induction false} MergeStep(a: seq<Entry>, b: seq<Entry>, e: Entry)
    ensures Merge(a, b + [e]) == Put(Merge(a, b), e)
  {
  }

  lemma {:induction false} MergeObjectStep(a: seq<Entry>, b: seq<Object>, j: nat, k: string)
    requires j < |b| && AllKeyed(b[..j + 1], k)
    ensures AllKeyed(b[..j], k) && k in b[j].fields
    ensures Merge(a, Entries(b[..j + 1], k)) == Put(Merge(a, Entries(b[..j], k)), Entry(b[j].fields[k], b[j]))
  {
    EntriesStep(b, j, k);
    MergeStep(a, Entries(b[..j], k), Entry(b[j].fields[k], b[j]));
  }

  /** The index the merge starts from; None when a key is missing. */
  method IndexByKey(a: seq<Object>, k: string) returns (mi: Option<map<Value, nat>>)
    ensures mi.Some? <==> AllKeyed(a, k)
    ensures mi.Some? ==> mi.value == ToIndex(Entries(a, k))
  {
    var index: map<Value, nat> := map[];
    for i := 0 to |a|
      invariant AllKeyed(a[..i], k) && index == ToIndex(Entries(a[..i], k))
    {
      if k !in a[i].fields {
        return None;
      }
      index := index[a[i].fields[k] := i];
      KeyedStep(a, i, k);
      EntriesStep(a, i, k);
      AppendFacts(Entries(a[..i], k), Entry(a[i].fields[k], a[i]));
    }
    assert a[..|a|] == a;
    mi := Some(index);
  }

  /** The object takes its place in the merged list and in its index. */
  method PutObject(m: seq<Object>, mi: map<Value, nat>, o: Object, k: string)
    returns (m': seq<Object>, mi': map<Value, nat>)
    requires AllKeyed(m, k) && mi == ToIndex(Entries(m, k)) && k in o.fields
    ensures AllKeyed(m', k) && mi' == ToIndex(Entries(m', k))
    ensures Entries(m', k) == Put(Entries(m, k), Entry(o.fields[k], o))
  {
    var bkv := o.fields[k];
    Indexed(Entries(m, k), bkv);
    PutFacts(Entries(m, k), Entry(bkv, o));
    if bkv in mi {
      m', mi' := m[mi[bkv] := o], mi;
    } else {
      m', mi' := m + [o], mi[bkv := |m|];
    }
    assert Entries(m', k) == Put(Entries(m, k), Entry(bkv, o));
  }

  /** None when a key is missing. */
  method MergeUsingKey(a: seq<Object>, b: seq<Object>, k: string) returns (r: Option<seq<Object>>)
    ensures r.Some? <==> AllKeyed(a, k) && AllKeyed(b, k)
    ensures r.Some? ==> AllKeyed(r.value, k) && Entries(r.value, k) == Merge(Entries(a, k), Entries(b, k))
  {
    var m := a;
    var index := IndexByKey(a, k);
    if index.None? {
      return None;
    }
    var mi := index.value;
    assert Entries(b[..0], k) == [];
    for j := 0 to |b|
      invariant AllKeyed(b[..j], k) && AllKeyed(m, k)
      invariant Entries(m, k) == Merge(Entries(a, k), Entries(b[..j], k))
      invariant mi == ToIndex(Entries(m, k))
    {
      if k !in b[j].fields {
        return None;
      }
      m, mi := PutObject(m, mi, b[j], k);
      KeyedStep(b, j, k);
      MergeObjectStep(Entries(a, k), b, j, k);
    }
    assert b[..|b|] == b;
    r := Some(m);
  }

  /** `list_to_dict_with_key`; None when a key is missing. */
  method ListToDictWithKey(lst: seq<Object>, k: string) returns (r: Option<map<Value, Object>>)
    ensures r.Some? <==> AllKeyed(lst, k)
    ensures r.Some? ==> r.value == ToDict(Entries(lst, k))
  {
    var d: map<Value, Object> := map[];
    for i := 0 to |lst|
      invariant AllKeyed(lst[..i], k) && d == ToDict(Entries(lst[..i], k))
    {
      if k !in lst[i].fields {
        return None;
      }
      d := d[lst[i].fields[k] := lst[i]];
      KeyedStep(lst, i, k);
      EntriesStep(lst, i, k);
      AppendFacts(Entries(lst[..i], k), Entry(lst[i].fields[k], lst[i]));
    }
    assert lst[..|lst|] == lst;
    r := Some(d);
  }
}
