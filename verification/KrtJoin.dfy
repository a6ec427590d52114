/** Several collections read as one, taking the first object of each key or merging them. */
module KrtJoin {
  import opened Options
  import opened KrtTypes

  type Merge = seq<Obj> -> Option<Obj>

  // ---------------------------------------------------------------------------------------------
  // Reads

  function FirstFound(cs: seq<map<Key, Obj>>, k: Key): Option<Obj> {
    if cs == [] then None
    else if k in cs[0] then Some(cs[0][k])
    else FirstFound(cs[1..], k)
  }

  /** All objects under a key, in the order of the collections. */
  function Found(cs: seq<map<Key, Obj>>, k: Key): seq<Obj> {
    if cs == [] then []
    else Found(cs[..|cs| - 1], k) + (if k in cs[|cs| - 1] then [cs[|cs| - 1][k]] else [])
  }

  function Merged(cs: seq<map<Key, Obj>>, merge: Merge, k: Key): Option<Obj> {
    if Found(cs, k) == [] then None else merge(Found(cs, k))
  }

  /** m holds for every key what GetKey returns: the first object found. */
  ghost predicate IsFirstWins(cs: seq<map<Key, Obj>>, m: map<Key, Obj>) {
    forall k :: Get(m, k) == FirstFound(cs, k)
  }

  /** m holds for every key what GetKey returns: all objects found, merged. */
  ghost predicate IsMerged(cs: seq<map<Key, Obj>>, merge: Merge, m: map<Key, Obj>) {
    forall k :: Get(m, k) == Merged(cs, merge, k)
  }

  ghost predicate AllWellKeyed(cs: seq<map<Key, Obj>>) {
    forall n :: 0 <= n < |cs| ==> WellKeyed(cs[n])
  }

  /** A merge of objects with one key has that key. */
  ghost predicate KeepsKey(merge: Merge) {
    forall k, ts :: ts != [] && AllHaveKey(ts, k) && merge(ts).Some? ==> merge(ts).value.key == k
  }

  ghost predicate AllHaveKey(ts: seq<Obj>, k: Key) {
    forall n :: 0 <= n < |ts| ==> ts[n].key == k
  }

  lemma {:induction false} FirstFoundSnoc(cs: seq<map<Key, Obj>>, c: map<Key, Obj>, k: Key)
    ensures FirstFound(cs + [c], k) == if FirstFound(cs, k).Some? then FirstFound(cs, k) else Get(c, k)
  {
    if cs != [] {
      FirstFoundSnoc(cs[1..], c, k);
      assert (cs + [c])[1..] == cs[1..] + [c];
    }
  }

  lemma {:induction false} FoundHasKey(cs: seq<map<Key, Obj>>, k: Key)
    requires AllWellKeyed(cs)
    ensures AllHaveKey(Found(cs, k), k)
    ensures Found(cs, k) != [] <==> exists n :: 0 <= n < |cs| && k in cs[n]
  {
    FoundIff(cs, k);
    if cs != [] {
      FoundHasKey(cs[..|cs| - 1], k);
    }
  }

  lemma {:induction false} FoundIff(cs: seq<map<Key, Obj>>, k: Key)
    ensures Found(cs, k) != [] <==> exists n :: 0 <= n < |cs| && k in cs[n]
  {
    if cs != [] {
      var init := cs[..|cs| - 1];
      FoundIff(init, k);
      if n :| 0 <= n < |cs| && k in cs[n] {
        assert n < |init| ==> k in init[n];
      }
      if n :| 0 <= n < |init| && k in init[n] {
        assert k in cs[n];
      }
    }
  }

  method GetKeyFirst(cs: seq<map<Key, Obj>>, k: Key) returns (r: Option<Obj>)
    ensures r == FirstFound(cs, k)
    ensures r.None? ==> forall n :: 0 <= n < |cs| ==> k !in cs[n]
    ensures r.Some? ==> exists n :: 0 <= n < |cs| && k in cs[n] && cs[n][k] == r.value && NoneBefore(cs, n, k)
  {
    for n := 0 to |cs|
      invariant FirstFound(cs, k) == FirstFound(cs[n..], k) && NoneBefore(cs, n, k)
    {
      if k in cs[n] {
        return Some(cs[n][k]);
      }
      assert cs[n..][1..] == cs[n + 1..];
    }
    return None;
  }

  predicate NoneBefore(cs: seq<map<Key, Obj>>, n: nat, k: Key) {
    n <= |cs| && forall m :: 0 <= m < n ==> k !in cs[m]
  }

  /** What is merged under k: the object of each collection that has one, in the order of the collections. */
  lemma {:induction false} FoundInOrder(cs: seq<map<Key, Obj>>, k: Key) returns (at: seq<nat>)
    ensures IsWhere(cs, k, Found(cs, k), at)
  {
    at := [];
    if cs != [] {
      var init := FoundInOrder(cs[..|cs| - 1], k);
      at := FoundOneMore(cs, k, init);
    }
  }

  ghost predicate IsWhere(cs: seq<map<Key, Obj>>, k: Key, found: seq<Obj>, at: seq<nat>) {
    && |at| == |found| && (forall i, j :: 0 <= i < j < |at| ==> at[i] < at[j])
    && (forall i :: 0 <= i < |at| ==> at[i] < |cs| && k in cs[at[i]] && found[i] == cs[at[i]][k])
    && (forall n :: 0 <= n < |cs| && k in cs[n] ==> n in at)
  }

  lemma FoundOneMore(cs: seq<map<Key, Obj>>, k: Key, init: seq<nat>) returns (at: seq<nat>)
    requires cs != [] && IsWhere(cs[..|cs| - 1], k, Found(cs[..|cs| - 1], k), init)
    ensures IsWhere(cs, k, Found(cs, k), at)
  {
    var last := |cs| - 1;
    var before := cs[..last];
    assert forall n :: 0 <= n < last ==> before[n] == cs[n];
    at := init + if k in cs[last] then [last] else [];
    forall n | 0 <= n < |cs| && k in cs[n] ensures n in at {
      if n < last {
        assert k in before[n] && n in init;
      } else {
        assert at[|init|] == last;
      }
    }
  }

  /** Append the objects of one more listing whose key was not met before. */
  method AppendNew(res: seq<Obj>, objs: seq<Obj>, found: set<Key>, ghost m: map<Key, Obj>)
    returns (res': seq<Obj>, found': set<Key>)
    requires Lists(res, m) && found == m.Keys && DistinctKeys(objs)
    ensures Lists(res', ByKey(objs) + m) && found' == KeysIn(objs) + m.Keys
  {
    res', found' := res, found;
    ghost var met: map<Key, Obj> := map[];
    assert met + m == m;
    for n := 0 to |objs|
      invariant met == ByKey(objs[..n]) && Lists(res', met + m) && found' == met.Keys + m.Keys
    {
      NextKey(objs, n, met);
      res', found' := AppendOne(res', objs[n], found', met, m);
      met := met[objs[n].key := objs[n]];
    }
    assert objs[..|objs|] == objs;
  }

  method AppendOne(res: seq<Obj>, o: Obj, found: set<Key>, ghost met: map<Key, Obj>, ghost m: map<Key, Obj>)
    returns (res': seq<Obj>, found': set<Key>)
    requires Lists(res, met + m) && found == met.Keys + m.Keys && o.key !in met
    ensures Lists(res', met[o.key := o] + m) && found' == met[o.key := o].Keys + m.Keys
  {
    MetOneMore(met, m, o);
    res', found' := res, found + {o.key};
    if o.key !in found {
      ListsSnoc(res, met + m, o);
      res' := res + [o];
    }
  }

  lemma MetOneMore(met: map<Key, Obj>, m: map<Key, Obj>, o: Obj)
    ensures met[o.key := o] + m == if o.key in m then met + m else (met + m)[o.key := o]
  {
  }

  /** The listings of the inner collections, each in its own order. */
  ghost predicate AllListed(listings: seq<seq<Obj>>, cs: seq<map<Key, Obj>>) {
    |listings| == |cs| && forall n :: 0 <= n < |cs| ==> Lists(listings[n], cs[n])
  }

  /** The joined collection as a map: an earlier collection hides a later one. */
  ghost function FirstWins(cs: seq<map<Key, Obj>>): map<Key, Obj> {
    if cs == [] then map[] else cs[|cs| - 1] + FirstWins(cs[..|cs| - 1])
  }

  lemma {:induction false} FirstWinsIsFirst(cs: seq<map<Key, Obj>>)
    ensures IsFirstWins(cs, FirstWins(cs))
  {
    if cs != [] {
      var init, last := cs[..|cs| - 1], cs[|cs| - 1];
      FirstWinsIsFirst(init);
      assert cs == init + [last];
      forall k ensures Get(FirstWins(cs), k) == FirstFound(cs, k) {
        FirstFoundSnoc(init, last, k);
      }
    }
  }

  /** List() with overlap checks: one object per key, the one GetKey returns. */
  method CheckedList(listings: seq<seq<Obj>>, ghost cs: seq<map<Key, Obj>>) returns (res: seq<Obj>)
    requires AllListed(listings, cs)
    ensures Lists(res, FirstWins(cs))
  {
    res := [];
    var found: set<Key> := {};
    var first := true;
    ghost var m: map<Key, Obj> := map[];
    for n := 0 to |listings|
      invariant m == FirstWins(cs[..n]) && Lists(res, m)
      invariant if first then m == map[] else found == m.Keys
    {
      var objs := listings[n];
      assert cs[..n + 1][..n] == cs[..n];
      if |objs| > 0 && first {
        res := objs;
        first := false;
        found := set i | 0 <= i < |objs| :: objs[i].key;
        assert found == KeysIn(objs) && cs[n] + m == cs[n];
      } else {
        res, found := AppendNew(res, objs, if first then {} else found, m);
      }
      m := cs[n] + m;
    }
    assert cs[..|listings|] == cs;
  }

  /** All listings, one behind the other. */
  function Chained(listings: seq<seq<Obj>>): seq<Obj> {
    if listings == [] then [] else Chained(listings[..|listings| - 1]) + listings[|listings| - 1]
  }

  /** List() without overlap checks. */
  method UncheckedList(listings: seq<seq<Obj>>) returns (res: seq<Obj>)
    ensures res == Chained(listings)
  {
    res := [];
    var first := true;
    for n := 0 to |listings|
      invariant res == Chained(listings[..n]) && (first ==> res == [])
    {
      assert listings[..n + 1][..n] == listings[..n];
      if |listings[n]| > 0 && first {
        res := listings[n];
        first := false;
      } else {
        res := res + listings[n];
      }
    }
    assert listings[..|listings|] == listings;
  }

  /** No key is in two of the collections. */
  ghost predicate NoOverlap(cs: seq<map<Key, Obj>>) {
    forall a, b :: 0 <= a < b < |cs| ==> cs[a].Keys !! cs[b].Keys
  }

  lemma ChainedOneMore(a: seq<Obj>, m: map<Key, Obj>, b: seq<Obj>, c: map<Key, Obj>)
    requires Lists(a, m) && Lists(b, c)
    ensures m.Keys !! c.Keys ==> Lists(a + b, c + m)
    ensures !(m.Keys !! c.Keys) ==> !DistinctKeys(a + b)
  {
    if m.Keys !! c.Keys {
      var l := ChainedApart(a, m, b, c);
    } else {
      var k :| k in m && k in c;
      var i :| 0 <= i < |a| && a[i].key == k;
      var j :| 0 <= j < |b| && b[j].key == k;
      assert (a + b)[i] == a[i] && (a + b)[|a| + j] == b[j];
    }
  }

  lemma {:induction false} ChainedApart(a: seq<Obj>, m: map<Key, Obj>, b: seq<Obj>, c: map<Key, Obj>)
    returns (l: seq<Obj>)
    requires Lists(a, m) && Lists(b, c) && m.Keys !! c.Keys
    ensures l == a + b && Lists(l, c + m)
    decreases |b|
  {
    if b == [] {
      l := a;
      assert a + b == a && c + m == m;
    } else {
      var n := |b| - 1;
      var c' := ListsInit(b, c);
      l := ChainedApart(a, m, b[..n], c');
      ListsNew(l, c', m, b[n]);
      assert a + b == l + [b[n]];
      l := l + [b[n]];
    }
  }

  /** A list without its last object lists the rest. */
  lemma ListsInit(b: seq<Obj>, c: map<Key, Obj>) returns (c': map<Key, Obj>)
    requires Lists(b, c) && b != []
    ensures var o := b[|b| - 1]; Lists(b[..|b| - 1], c') && o.key !in c' && o.key in c && c == c'[o.key := o]
  {
    c' := ByKey(b[..|b| - 1]);
    assert b[..|b| - 1 + 1] == b;
    NextKey(b, |b| - 1, c');
  }

  lemma ListsNew(l: seq<Obj>, met: map<Key, Obj>, m: map<Key, Obj>, o: Obj)
    requires Lists(l, met + m) && o.key !in met && o.key !in m
    ensures Lists(l + [o], met[o.key := o] + m)
  {
    MetOneMore(met, m, o);
    ListsSnoc(l, met + m, o);
  }

  /** l lists m, or repeats a key if m's parts overlap. */
  ghost predicate ListsUnless(l: seq<Obj>, m: map<Key, Obj>, apart: bool) {
    (apart <==> DistinctKeys(l)) && (apart ==> Lists(l, m))
  }

  lemma ChainedStep(a: seq<Obj>, m: map<Key, Obj>, b: seq<Obj>, c: map<Key, Obj>, apart: bool, apart': bool)
    requires ListsUnless(a, m, apart) && Lists(b, c) && (apart' <==> apart && m.Keys !! c.Keys)
    ensures ListsUnless(a + b, c + m, apart')
  {
    if apart {
      ChainedOneMore(a, m, b, c);
    } else {
      RepeatStays(a, b);
    }
  }

  lemma {:induction false} FirstWinsKeys(cs: seq<map<Key, Obj>>)
    ensures FirstWins(cs).Keys == KeysFound(cs)
  {
    if cs != [] {
      FirstWinsKeys(cs[..|cs| - 1]);
    }
  }

  /**
   * Without overlap checks List() agrees with GetKey if and only if no two collections share a key;
   * otherwise some key is listed twice.
   */
  lemma {:induction false} UncheckedListsIff(listings: seq<seq<Obj>>, cs: seq<map<Key, Obj>>)
    requires AllListed(listings, cs)
    ensures ListsUnless(Chained(listings), FirstWins(cs), NoOverlap(cs))
    decreases |cs|
  {
    if cs != [] {
      var n := |cs| - 1;
      UncheckedListsIff(listings[..n], cs[..n]);
      ChainedLast(Chained(listings[..n]), listings[n], cs);
    }
  }

  lemma ChainedLast(a: seq<Obj>, b: seq<Obj>, cs: seq<map<Key, Obj>>)
    requires cs != [] && Lists(b, cs[|cs| - 1])
    requires ListsUnless(a, FirstWins(cs[..|cs| - 1]), NoOverlap(cs[..|cs| - 1]))
    ensures ListsUnless(a + b, FirstWins(cs), NoOverlap(cs))
  {
    var n := |cs| - 1;
    FirstWinsKeys(cs[..n]);
    LastOverlap(cs, n);
    ChainedStep(a, FirstWins(cs[..n]), b, cs[n], NoOverlap(cs[..n]), NoOverlap(cs));
  }

  lemma RepeatStays(a: seq<Obj>, b: seq<Obj>)
    requires !DistinctKeys(a)
    ensures !DistinctKeys(a + b)
  {
    var i, j :| 0 <= i < j < |a| && a[i].key == a[j].key;
    assert (a + b)[i] == a[i] && (a + b)[j] == a[j];
  }

  lemma LastOverlap(cs: seq<map<Key, Obj>>, n: nat)
    requires n == |cs| - 1
    ensures NoOverlap(cs) <==> NoOverlap(cs[..n]) && KeysFound(cs[..n]) !! cs[n].Keys
  {
    forall k ensures k in KeysFound(cs[..n]) <==> exists a :: 0 <= a < n && k in cs[a] {
      KeysFoundAnywhere(cs[..n], k);
      if a :| 0 <= a < n && k in cs[a] {
        assert k in cs[..n][a];
      }
    }
    if NoOverlap(cs) {
      forall k | k in KeysFound(cs[..n]) ensures k !in cs[n] {
        var a :| 0 <= a < n && k in cs[a];
        assert cs[a].Keys !! cs[n].Keys;
      }
      assert forall a :: 0 <= a < n ==> cs[..n][a] == cs[a];
    }
    if NoOverlap(cs[..n]) && KeysFound(cs[..n]) !! cs[n].Keys {
      forall a, b | 0 <= a < b < |cs| ensures cs[a].Keys !! cs[b].Keys {
        if b < n {
          assert cs[..n][a] == cs[a] && cs[..n][b] == cs[b];
        } else {
          assert forall k :: k in cs[a] ==> k in KeysFound(cs[..n]);
        }
      }
    }
  }

  /** List() without merging. */
  method QuickList(listings: seq<seq<Obj>>, uncheckedOverlap: bool, ghost cs: seq<map<Key, Obj>>)
    returns (res: seq<Obj>)
    requires AllListed(listings, cs)
    ensures IsFirstWins(cs, FirstWins(cs))
    ensures Lists(res, FirstWins(cs)) <==> !uncheckedOverlap || NoOverlap(cs)
    ensures uncheckedOverlap ==> res == Chained(listings)
  {
    FirstWinsIsFirst(cs);
    UncheckedListsIff(listings, cs);
    if uncheckedOverlap {
      res := UncheckedList(listings);
    } else {
      res := CheckedList(listings, cs);
    }
  }

  ghost function KeysFound(cs: seq<map<Key, Obj>>): set<Key> {
    if cs == [] then {} else KeysFound(cs[..|cs| - 1]) + cs[|cs| - 1].Keys
  }

  method AllKeys(listings: seq<seq<Obj>>, ghost cs: seq<map<Key, Obj>>) returns (keys: set<Key>)
    requires AllListed(listings, cs)
    ensures keys == KeysFound(cs)
  {
    keys := {};
    for n := 0 to |listings|
      invariant keys == KeysFound(cs[..n])
    {
      assert cs[..n + 1][..n] == cs[..n];
      var more := set i | 0 <= i < |listings[n]| :: listings[n][i].key;
      assert more == KeysIn(listings[n]);
      keys := keys + more;
    }
    assert cs[..|listings|] == cs;
  }

  lemma {:induction false} KeysFoundAnywhere(cs: seq<map<Key, Obj>>, k: Key)
    ensures k in KeysFound(cs) <==> exists n :: 0 <= n < |cs| && k in cs[n]
  {
    if cs != [] {
      var init := cs[..|cs| - 1];
      KeysFoundAnywhere(init, k);
      if n :| 0 <= n < |cs| && k in cs[n] {
        assert n < |init| ==> k in init[n];
      }
      if n :| 0 <= n < |init| && k in init[n] {
        assert k in cs[n];
      }
    }
  }

  /** The joined collection as a map, merging. */
  ghost function MergedMap(cs: seq<map<Key, Obj>>, merge: Merge): map<Key, Obj> {
    MergedOn(cs, merge, KeysFound(cs))
  }

  lemma MergedMapIsMerged(cs: seq<map<Key, Obj>>, merge: Merge)
    ensures IsMerged(cs, merge, MergedMap(cs, merge))
  {
    forall k ensures Get(MergedMap(cs, merge), k) == Merged(cs, merge, k) {
      FoundIff(cs, k);
      KeysFoundAnywhere(cs, k);
    }
  }

  /** The keys of a set, each once, in some order. */
  ghost predicate IsOrderOf(order: seq<Key>, keys: set<Key>) {
    && (forall i, j :: 0 <= i < j < |order| ==> order[i] != order[j])
    && (forall k :: k in order <==> k in keys)
  }

  lemma OrderSnoc(order: seq<Key>, keys: set<Key>, k: Key)
    requires IsOrderOf(order, keys) && k !in keys
    ensures IsOrderOf(order + [k], keys + {k})
  {
  }

  /** What the keys merge to, in the given order. */
  function MergedInOrder(cs: seq<map<Key, Obj>>, merge: Merge, order: seq<Key>): seq<Obj> {
    if order == [] then []
    else MergedInOrder(cs, merge, order[..|order| - 1]) + Mergings(cs, merge, order[|order| - 1])
  }

  function Mergings(cs: seq<map<Key, Obj>>, merge: Merge, k: Key): seq<Obj> {
    match Merged(cs, merge, k)
    case None => []
    case Some(o) => [o]
  }

  /** l holds what each key found anywhere merges to, once, in some order. */
  ghost predicate IsMergedListing(l: seq<Obj>, cs: seq<map<Key, Obj>>, merge: Merge) {
    exists order :: IsOrderOf(order, KeysFound(cs)) && l == MergedInOrder(cs, merge, order)
  }

  /** With a merge that keeps the key of what it merges, the listing is that of the merged collection. */
  lemma {:induction false} MergedInOrderLists(cs: seq<map<Key, Obj>>, merge: Merge, order: seq<Key>, keys: set<Key>)
    requires AllWellKeyed(cs) && KeepsKey(merge) && IsOrderOf(order, keys)
    ensures Lists(MergedInOrder(cs, merge, order), MergedOn(cs, merge, keys))
    decreases |order|
  {
    if order == [] {
      assert MergedOn(cs, merge, keys) == map[];
    } else {
      var n := |order| - 1;
      OrderInit(order, keys);
      MergedInOrderLists(cs, merge, order[..n], keys - {order[n]});
      MergedListsOneMore(MergedInOrder(cs, merge, order[..n]), cs, merge, keys - {order[n]}, order[n]);
      assert keys - {order[n]} + {order[n]} == keys;
    }
  }

  lemma OrderInit(order: seq<Key>, keys: set<Key>)
    requires IsOrderOf(order, keys) && order != []
    ensures IsOrderOf(order[..|order| - 1], keys - {order[|order| - 1]}) && order[|order| - 1] in keys
  {
    assert order == order[..|order| - 1] + [order[|order| - 1]];
  }

  lemma MergedListsOneMore(l: seq<Obj>, cs: seq<map<Key, Obj>>, merge: Merge, keys: set<Key>, k: Key)
    requires AllWellKeyed(cs) && KeepsKey(merge) && k !in keys && Lists(l, MergedOn(cs, merge, keys))
    ensures Lists(l + Mergings(cs, merge, k), MergedOn(cs, merge, keys + {k}))
  {
    MergedOneMore(cs, merge, keys, k);
    if Merged(cs, merge, k).Some? {
      ListsSnoc(l, MergedOn(cs, merge, keys), Merged(cs, merge, k).value);
    } else {
      assert l + [] == l;
    }
  }

  /** List() with merging: what every key merges to; with a merge that keeps keys, the merged collection. */
  method MergeList(listings: seq<seq<Obj>>, cs: seq<map<Key, Obj>>, merge: Merge) returns (l: seq<Obj>)
    requires AllListed(listings, cs)
    ensures IsMergedListing(l, cs, merge) && IsMerged(cs, merge, MergedMap(cs, merge))
    ensures KeepsKey(merge) ==> Lists(l, MergedMap(cs, merge))
  {
    var keys := AllKeys(listings, cs);
    l := [];
    var todo := keys;
    ghost var order: seq<Key> := [];
    while todo != {}
      invariant todo <= keys && IsOrderOf(order, keys - todo) && l == MergedInOrder(cs, merge, order)
    {
      var k :| k in todo;
      OrderSnoc(order, keys - todo, k);
      assert keys - (todo - {k}) == keys - todo + {k};
      assert (order + [k])[..|order|] == order;
      order := order + [k];
      var merged := Merged(cs, merge, k);
      if merged.Some? {
        l := l + [merged.value];
      }
      todo := todo - {k};
    }
    assert keys - todo == keys;
    MergedMapIsMerged(cs, merge);
    if KeepsKey(merge) {
      ListedAreWellKeyed(listings, cs);
      MergedInOrderLists(cs, merge, order, keys);
    }
  }

  lemma ListedAreWellKeyed(listings: seq<seq<Obj>>, cs: seq<map<Key, Obj>>)
    requires AllListed(listings, cs)
    ensures AllWellKeyed(cs)
  {
    assert forall n :: 0 <= n < |cs| ==> Lists(listings[n], cs[n]);
  }

  function MergedOn(cs: seq<map<Key, Obj>>, merge: Merge, keys: set<Key>): map<Key, Obj> {
    map k | k in keys && Merged(cs, merge, k).Some? :: Merged(cs, merge, k).value
  }

  lemma MergedOneMore(cs: seq<map<Key, Obj>>, merge: Merge, keys: set<Key>, k: Key)
    requires AllWellKeyed(cs) && KeepsKey(merge)
    ensures MergedOn(cs, merge, keys + {k}) ==
            if Merged(cs, merge, k).Some? then MergedOn(cs, merge, keys)[k := Merged(cs, merge, k).value]
            else MergedOn(cs, merge, keys)
    ensures Merged(cs, merge, k).Some? ==> Merged(cs, merge, k).value.key == k
  {
    FoundHasKey(cs, k);
  }
}
