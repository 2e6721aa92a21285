/** JavaScript objects used as dictionaries, and the entries of a change tracker.

    A JavaScript object whose keys are not array indices enumerates them in insertion
    order; assigning to an existing key keeps its position and `delete` drops it.
    `Table` models exactly that: `keys` is the enumeration order, `m` the contents. */
module Tables {

  datatype Option<+T> = None | Some(value: T)

  /** One entry of a change tracker: `Live` is the stored record itself (the source
      writes an alias, so later in-place edits show through), `Copy(v)` is a spread
      copy taken when it was written, and `Removed` is the `null` tombstone. */
  datatype Change<+V> = Live | Copy(value: V) | Removed

  ghost predicate Distinct<K>(s: seq<K>) {
    forall i, j :: 0 <= i < j < |s| ==> s[i] != s[j]
  }

  /** Splitting the last key off a sequence of distinct keys. */
  lemma SplitLast<K>(ks: seq<K>)
    requires Distinct(ks) && ks != []
    ensures ks == ks[..|ks| - 1] + [ks[|ks| - 1]]
    ensures Distinct(ks[..|ks| - 1]) && ks[|ks| - 1] !in ks[..|ks| - 1]
    ensures forall k :: k in ks <==> k in ks[..|ks| - 1] || k == ks[|ks| - 1]
  {
    var pre := ks[..|ks| - 1];
    assert ks == pre + [ks[|ks| - 1]];
    forall j | 0 <= j < |pre| ensures pre[j] != ks[|ks| - 1] {
      assert pre[j] == ks[j];
    }
  }

  /** The elements of `s` that lie in `keep`, in their order in `s`. */
  function Filter<K(!new)>(s: seq<K>, keep: set<K>): (r: seq<K>)
    ensures forall x :: x in r <==> x in s && x in keep
    ensures Distinct(s) ==> Distinct(r)
    ensures |r| <= |s|
  {
    if s == [] then []
    else
      var rest := Filter(s[1..], keep);
      assert forall x :: x in s[1..] ==> x in s;
      if s[0] in keep then
        [s[0]] + rest
      else rest
  }

  lemma {:induction false} FilterAll<K(!new)>(s: seq<K>, keep: set<K>)
    requires forall x :: x in s ==> x in keep
    ensures Filter(s, keep) == s
  {
    if s != [] {
      assert forall x :: x in s[1..] ==> x in s;
      FilterAll(s[1..], keep);
    }
  }

  /** The position of the first key of `ks` whose record in `m` passes `hit`, or |ks|:
      a `for (k in obj)` loop that stops at the first match with `break`. */
  function FirstWhere<K, V>(ks: seq<K>, m: map<K, V>, hit: V -> bool): (i: nat)
    ensures i <= |ks|
    ensures forall j :: 0 <= j < i ==> !(ks[j] in m && hit(m[ks[j]]))
    ensures i < |ks| ==> ks[i] in m && hit(m[ks[i]])
  {
    if ks == [] then 0
    else if ks[0] in m && hit(m[ks[0]]) then 0
    else 1 + FirstWhere(ks[1..], m, hit)
  }

  /** The search loop that FirstWhere describes. */
  method FindFirst<K, V>(ks: seq<K>, m: map<K, V>, hit: V -> bool) returns (i: nat)
    ensures i == FirstWhere(ks, m, hit)
  {
    i := 0;
    while i < |ks| && !(ks[i] in m && hit(m[ks[i]]))
      invariant 0 <= i <= |ks|
      invariant FirstWhere(ks, m, hit) == i + FirstWhere(ks[i..], m, hit)
    {
      assert ks[i..][1..] == ks[i + 1..];
      i := i + 1;
    }
  }

  /** No key of `ks` whose record passes `hit` is stored. */
  lemma NoneWhere<K, V>(ks: seq<K>, m: map<K, V>, hit: V -> bool)
    requires FirstWhere(ks, m, hit) == |ks| && forall k :: k in m ==> k in ks
    ensures forall k :: k in m ==> !hit(m[k])
  {
    forall k | k in m ensures !hit(m[k]) {
      var j :| 0 <= j < |ks| && ks[j] == k;
    }
  }

  datatype Table<K(!new), V> = Table(keys: seq<K>, m: map<K, V>) {

    /** Every key is enumerated exactly once. */
    ghost predicate Valid() {
      Distinct(keys) && forall k :: k in m <==> k in keys
    }

    /** `Object.keys(obj).length === 0` says the same as "holds no key". */
    lemma NoKeys()
      requires Valid()
      ensures |keys| == 0 <==> m == map[]
    {
      if |keys| > 0 {
        assert keys[0] in m;
      }
      if m != map[] {
        var k :| k in m;
        assert k in keys;
      }
    }

    /** `Object.keys(obj).length` counts the stored keys. */
    lemma Count()
      requires Valid()
      ensures |keys| == |m|
    {
      DistinctCard(keys);
      assert m.Keys == set k | k in keys;
    }

    /** `obj[k] = v` */
    function Put(k: K, v: V): (t: Table<K, V>)
      ensures t.m == m[k := v]
      ensures Valid() ==> t.Valid()
      ensures Valid() ==> |t.keys| == |keys| + (if k in m then 0 else 1)
      ensures |keys| <= |t.keys| && forall i :: 0 <= i < |keys| ==> t.keys[i] == keys[i]
    {
      if k in m then Table(keys, m[k := v]) else Table(keys + [k], m[k := v])
    }

    /** `delete obj[k]` */
    function Remove(k: K): (t: Table<K, V>)
      ensures t.m == m - {k}
      ensures Valid() ==> t.Valid()
      ensures Valid() ==> |t.m| == |m| - (if k in m then 1 else 0)
    {
      var t := Table(Filter(keys, m.Keys - {k}), m - {k});
      assert t.m.Keys == m.Keys - {k};
      t
    }
  }

  /** A sequence without repeats has as many elements as its set. */
  lemma {:induction false} DistinctCard<K>(s: seq<K>)
    requires Distinct(s)
    ensures |set k | k in s| == |s|
  {
    if s != [] {
      SplitLast(s);
      var pre := s[..|s| - 1];
      DistinctCard(pre);
      assert (set k | k in s) == (set k | k in pre) + {s[|s| - 1]};
    }
  }

  /** Filtering out an element appended last gives the filter of the rest. */
  lemma {:induction false} FilterSkipLast<K(!new)>(s: seq<K>, x: K, keep: set<K>)
    requires x !in keep
    ensures Filter(s + [x], keep) == Filter(s, keep)
  {
    if s == [] {
      assert [x][1..] == [];
    } else {
      assert (s + [x])[1..] == s[1..] + [x];
      FilterSkipLast(s[1..], x, keep);
    }
  }

  /** `obj[k] = v` on a fresh key followed by `delete obj[k]` restores the object,
      enumeration order included. */
  lemma PutRemove<K(!new), V>(t: Table<K, V>, k: K, v: V)
    requires t.Valid() && k !in t.m
    ensures t.Put(k, v).Remove(k) == t
  {
    var u := Table(t.keys + [k], t.m[k := v]);
    assert u == t.Put(k, v);
    var keep := u.m.Keys - {k};
    assert keep == t.m.Keys;
    assert Filter(u.keys, keep) == t.keys by {
      FilterSkipLast(t.keys, k, keep);
      FilterAll(t.keys, keep);
    }
    assert u.m - {k} == t.m;
  }

  /** Adding a fresh key grows a map by one. */
  lemma CardAdd<K, V>(m: map<K, V>, k: K, v: V)
    requires k !in m
    ensures |m[k := v]| == |m| + 1
  {
  }

  /** Every `Live` entry of a tracker aliases a record that is still stored. */
  ghost predicate Tracks<K(!new), V>(ch: map<K, Change<V>>, t: Table<K, V>) {
    forall k :: k in ch && ch[k].Live? ==> k in t.m
  }

  /** A well-formed table whose live change entries alias stored records. */
  ghost predicate Kept<K(!new), V>(t: Table<K, V>, ch: map<K, Change<V>>) {
    t.Valid() && Tracks(ch, t)
  }

  /** A table together with its entries in the change tracker: the pair
      `gameState.<kind>` and `gameState.changes.<kind>` that every pass updates
      together. */
  datatype Book<K(!new), V> = Book(t: Table<K, V>, log: map<K, Change<V>>) {

    ghost predicate Valid() {
      Kept(t, log)
    }

    /** `obj[k] = v; changes[k] = obj[k]` */
    function Put(k: K, v: V): (b: Book<K, V>)
      ensures b.t.m == t.m[k := v] && b.log == log[k := Live]
    {
      Book(t.Put(k, v), log[k := Live])
    }

    /** `delete obj[k]; changes[k] = null` */
    function Drop(k: K): (b: Book<K, V>)
      ensures b.t.m == t.m - {k} && b.log == log[k := Removed]
      ensures Valid() ==> b.Valid()
    {
      Book(t.Remove(k), log[k := Removed])
    }

    /** `changes[k] = null` with the record left in place. */
    function Tomb(k: K): (b: Book<K, V>)
      ensures b.t == t && b.log == log[k := Removed]
      ensures Valid() ==> b.Valid()
    {
      Book(t, log[k := Removed])
    }

    /** `changes[k] = {...obj[k]}`: a snapshot that later edits do not show. */
    function Snap(k: K, v: V): (b: Book<K, V>)
      ensures b.t == t && b.log == log[k := Copy(v)]
      ensures Valid() ==> b.Valid()
    {
      Book(t, log[k := Copy(v)])
    }

    /** `Put` of `ks[i]` to `vs[i]` for each `i` in turn. */
    function PutAll(ks: seq<K>, vs: seq<V>): Book<K, V>
      requires |ks| == |vs|
    {
      if ks == [] then this else PutAll(ks[..|ks| - 1], vs[..|vs| - 1]).Put(ks[|ks| - 1], vs[|vs| - 1])
    }
  }

  /** Deleting and tombstoning a key a second time changes nothing more. */
  lemma DropTwice<K(!new), V>(b: Book<K, V>, k: K)
    ensures b.Drop(k).Drop(k) == b.Drop(k)
  {
    RemoveTwice(b.t, k);
    assert b.log[k := Removed][k := Removed] == b.log[k := Removed];
  }

  lemma RemoveTwice<K(!new), V>(t: Table<K, V>, k: K)
    ensures t.Remove(k).Remove(k) == t.Remove(k)
  {
    var t1 := t.Remove(k);
    FilterAll(t1.keys, t1.m.Keys - {k});
    assert t1.m - {k} == t1.m;
  }

  /** Storing distinct keys one by one stores each with its value, logs each live,
      and leaves every other key and entry as it was. */
  lemma {:induction false} PutAllStores<K(!new), V>(b: Book<K, V>, ks: seq<K>, vs: seq<V>)
    requires |ks| == |vs| && Distinct(ks)
    ensures var r := b.PutAll(ks, vs);
      && (forall k :: k in r.t.m <==> k in b.t.m || k in ks)
      && (forall i :: 0 <= i < |ks| ==> r.t.m[ks[i]] == vs[i])
      && (forall k :: k in b.t.m && k !in ks ==> r.t.m[k] == b.t.m[k])
  {
    if ks != [] {
      var n := |ks| - 1;
      SplitLast(ks);
      PutAllStores(b, ks[..n], vs[..n]);
      forall i | 0 <= i < n ensures ks[..n][i] == ks[i] && vs[..n][i] == vs[i] {}
    }
  }

  lemma {:induction false} PutAllLogs<K(!new), V>(b: Book<K, V>, ks: seq<K>, vs: seq<V>)
    requires |ks| == |vs| && Distinct(ks)
    ensures var r := b.PutAll(ks, vs);
      && (forall k :: k in r.log <==> k in b.log || k in ks)
      && (forall k :: k in ks ==> r.log[k] == Live)
      && (forall k :: k in b.log && k !in ks ==> r.log[k] == b.log[k])
  {
    if ks != [] {
      var n := |ks| - 1;
      SplitLast(ks);
      PutAllLogs(b, ks[..n], vs[..n]);
    }
  }

  lemma {:induction false} PutAllValid<K(!new), V>(b: Book<K, V>, ks: seq<K>, vs: seq<V>)
    requires |ks| == |vs| && b.Valid()
    ensures b.PutAll(ks, vs).Valid()
  {
    if ks != [] {
      PutAllValid(b, ks[..|ks| - 1], vs[..|vs| - 1]);
    }
  }

  /** Fresh distinct keys grow the table by their number. */
  lemma {:induction false} PutAllCount<K(!new), V>(b: Book<K, V>, ks: seq<K>, vs: seq<V>)
    requires |ks| == |vs| && Distinct(ks) && forall k :: k in ks ==> k !in b.t.m
    ensures |b.PutAll(ks, vs).t.m| == |b.t.m| + |ks|
  {
    if ks != [] {
      var n := |ks| - 1;
      SplitLast(ks);
      PutAllCount(b, ks[..n], vs[..n]);
      PutAllStores(b, ks[..n], vs[..n]);
      CardAdd(b.PutAll(ks[..n], vs[..n]).t.m, ks[n], vs[n]);
    }
  }

  /** What a tracker shows when it is serialised: a `Live` alias shows the record as it
      is now, a copy shows the copy, a tombstone shows `null` (None). */
  function Resolve<K(!new), V>(ch: map<K, Change<V>>, t: Table<K, V>): (d: map<K, Option<V>>)
    requires Tracks(ch, t)
    ensures d.Keys == ch.Keys
    ensures forall k :: k in ch ==> (d[k].None? <==> ch[k].Removed?)
    ensures forall k :: k in ch && ch[k].Live? ==> d[k] == Some(t.m[k])
    ensures forall k :: k in ch && ch[k].Copy? ==> d[k] == Some(ch[k].value)
  {
    map k | k in ch :: match ch[k] case Live => Some(t.m[k]) case Copy(v) => Some(v) case Removed => None
  }

  /** The empty object `{}`. */
  function Empty<K(!new), V>(): (t: Table<K, V>)
    ensures t.Valid() && t.m == map[]
  {
    Table([], map[])
  }
}
