/** The reading half of Fetch: by keys, by index or everything, and then the rest of the filter. */
module KrtFetch {
  import opened KrtTypes
  import opened KrtFilter
  import KrtIndex

  /** The part of a map that the rest of a filter accepts. */
  function Accepted(x: Extractors, f: Filter, m: map<Key, Obj>): map<Key, Obj> {
    map k | k in m && Matches(x, f, m[k], true) :: m[k]
  }

  /** Keep what the rest of the filter accepts, preserving order. */
  method PostFilter(x: Extractors, f: Filter, list: seq<Obj>, ghost m: map<Key, Obj>) returns (kept: seq<Obj>)
    requires Lists(list, m)
    ensures Lists(kept, Accepted(x, f, m))
  {
    kept := [];
    ghost var met: map<Key, Obj> := map[];
    for n := 0 to |list|
      invariant met == ByKey(list[..n]) && Lists(kept, Accepted(x, f, met))
    {
      NextKey(list, n, met);
      AcceptedOneMore(x, f, kept, met, list[n]);
      if Matches(x, f, list[n], true) {
        kept := kept + [list[n]];
      }
      met := met[list[n].key := list[n]];
    }
    assert list[..|list|] == list;
  }

  lemma AcceptedOneMore(x: Extractors, f: Filter, kept: seq<Obj>, m: map<Key, Obj>, o: Obj)
    requires o.key !in m && Lists(kept, Accepted(x, f, m))
    ensures Lists(if Matches(x, f, o, true) then kept + [o] else kept, Accepted(x, f, m[o.key := o]))
  {
    assert Accepted(x, f, m[o.key := o]) ==
           if Matches(x, f, o, true) then Accepted(x, f, m)[o.key := o] else Accepted(x, f, m);
    if Matches(x, f, o, true) {
      ListsSnoc(kept, Accepted(x, f, m), o);
    }
  }

  method ReadIndex(x: Extractors, f: IndexFilter, c: map<Key, Obj>, ix: KrtIndex.IndexState) returns (list: seq<Obj>)
    requires WellKeyed(c) && KrtIndex.Agrees(ix, c) && forall o :: ix.extract(o) == x(f.uid, o)
    ensures Lists(list, map k | k in c && f.key in x(f.uid, c[k]) :: c[k])
  {
    list := KrtIndex.Lookup(ix, c, f.key);
  }

  /** The part of a collection a fetch looks at before the rest of its filter is applied. */
  function Candidates(x: Extractors, f: Filter, c: map<Key, Obj>): map<Key, Obj> {
    if f.keys.Some? then map k | k in c && k in f.keys.value :: c[k]
    else if f.index.Some? then map k | k in c && f.index.value.key in x(f.index.value.uid, c[k]) :: c[k]
    else c
  }

  lemma CandidatesThenRest(x: Extractors, f: Filter, c: map<Key, Obj>)
    requires WellKeyed(c) && Legal(f)
    ensures
      var m := Candidates(x, f, c);
      WellKeyed(m) && Accepted(x, f, m) == Select(x, c, f)
  {
  }

  /**
   * Whichever way the objects are found, Fetch returns the part of the collection that the whole
   * filter matches, each object once. The index used must be one that agrees with the collection.
   */
  method Fetch(x: Extractors, f: Filter, c: map<Key, Obj>, ix: KrtIndex.IndexState) returns (list: seq<Obj>)
    requires WellKeyed(c) && Legal(f)
    requires f.index.Some? ==> KrtIndex.Agrees(ix, c) && forall o :: ix.extract(o) == x(f.index.value.uid, o)
    ensures Lists(list, Select(x, c, f))
    ensures forall o :: o in list <==> o.key in c && c[o.key] == o && Meets(x, f, o)
  {
    if f.keys.Some? {
      list := ListKeys(c, f.keys.value);
    } else if f.index.Some? {
      list := ReadIndex(x, f.index.value, c, ix);
    } else {
      list := ListKeys(c, c.Keys);
      assert (map k | k in c && k in c.Keys :: c[k]) == c;
    }
    CandidatesThenRest(x, f, c);
    list := PostFilter(x, f, list, Candidates(x, f, c));
    ListedMeet(x, f, c, list);
  }

  lemma ListedMeet(x: Extractors, f: Filter, c: map<Key, Obj>, list: seq<Obj>)
    requires WellKeyed(c) && Lists(list, Select(x, c, f))
    ensures forall o :: o in list <==> o.key in c && c[o.key] == o && Meets(x, f, o)
  {
    forall o ensures o in list <==> o.key in c && c[o.key] == o && Meets(x, f, o) {
      MatchesIff(x, f, o);
      ListedIff(list, Select(x, c, f), o);
    }
  }
}
