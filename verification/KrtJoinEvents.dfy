/** A join without merging passes the events of its collections on as they are. */
module KrtJoinEvents {
  import opened Options
  import opened KrtTypes
  import opened KrtJoin
  import opened KrtSystem
  import KrtSync

  /** One collection behind those before it and in front of those behind it. */
  function Picked(before: Option<Obj>, own: Option<Obj>, behind: Option<Obj>): Option<Obj> {
    if before.Some? then before else if own.Some? then own else behind
  }

  lemma {:induction false} FirstFoundAt(cs: seq<map<Key, Obj>>, n: nat, k: Key)
    requires n < |cs|
    ensures FirstFound(cs, k) == Picked(FirstFound(cs[..n], k), Get(cs[n], k), FirstFound(cs[n + 1..], k))
  {
    if n > 0 {
      FirstFoundAt(cs[1..], n - 1, k);
      assert cs[1..][..n - 1] == cs[..n][1..] && cs[1..][n..] == cs[n + 1..];
    }
  }

  /** What GetKey returns before and after collection n came to hold m. */
  lemma PickedAt(cs: seq<map<Key, Obj>>, n: nat, m: map<Key, Obj>, k: Key)
    requires n < |cs|
    ensures
      var before, behind := FirstFound(cs[..n], k), FirstFound(cs[n + 1..], k);
      && Get(FirstWins(cs), k) == Picked(before, Get(cs[n], k), behind)
      && Get(FirstWins(cs[n := m]), k) == Picked(before, Get(m, k), behind)
  {
    var cs' := cs[n := m];
    FirstWinsIsFirst(cs);
    FirstWinsIsFirst(cs');
    FirstFoundAt(cs, n, k);
    FirstFoundAt(cs', n, k);
    assert cs'[..n] == cs[..n] && cs'[n + 1..] == cs[n + 1..];
  }

  lemma {:induction false} FirstWinsIsWellKeyed(cs: seq<map<Key, Obj>>)
    requires AllWellKeyed(cs)
    ensures WellKeyed(FirstWins(cs))
  {
    if cs != [] {
      FirstWinsIsWellKeyed(cs[..|cs| - 1]);
    }
  }

  /** Collection n changes to m, and the events say so. */
  ghost predicate Changes(cs: seq<map<Key, Obj>>, n: nat, events: seq<Event>, m: map<Key, Obj>) {
    n < |cs| && AllWellKeyed(cs) && Replay(cs[n], events) == Some(m)
  }

  predicate Elsewhere(cs: seq<map<Key, Obj>>, n: nat, k: Key)
    requires n < |cs|
  {
    FirstFound(cs[..n], k).Some? || FirstFound(cs[n + 1..], k).Some?
  }

  lemma ChangeIsWellKeyed(cs: seq<map<Key, Obj>>, n: nat, events: seq<Event>, m: map<Key, Obj>)
    requires Changes(cs, n, events, m)
    ensures WellKeyed(FirstWins(cs[n := m])) && ParentBatch(cs[n], events, m) && DepBatch(cs[n], events, m)
  {
    KrtSync.OutputsCanBeInputs(cs[n], events);
    FirstWinsIsWellKeyed(cs[n := m]);
  }

  /**
   * Passed on, the events tell a collection derived from the join what became of each key, if and
   * only if no key that is named, and then gone, is held by another collection.
   */
  lemma PassedOnTellsParentIff(cs: seq<map<Key, Obj>>, n: nat, events: seq<Event>, m: map<Key, Obj>)
    requires Changes(cs, n, events, m)
    ensures
      ParentBatch(FirstWins(cs), events, FirstWins(cs[n := m])) <==>
      forall k :: k in KeysNamed(events) && k !in m ==> !Elsewhere(cs, n, k)
  {
    ChangeIsWellKeyed(cs, n, events, m);
    forall k ensures ToldAt(FirstWins(cs), events, FirstWins(cs[n := m]), k) <==>
                     (k in KeysNamed(events) && k !in m ==> !Elsewhere(cs, n, k))
    {
      PickedAt(cs, n, m, k);
      NamedIffLast(events, k);
      assert ToldAt(cs[n], events, m, k);
    }
    assert forall k :: ToldAt(cs[n], events, m, k);
  }

  /** What ParentBatch asks of one key. */
  ghost predicate ToldAt(p: map<Key, Obj>, batch: seq<Event>, p': map<Key, Obj>, k: Key)
    requires AllValid(batch)
  {
    && (LastOn(batch, k).None? ==> Get(p', k) == Get(p, k))
    && (LastOn(batch, k).Some? ==> (LastOn(batch, k).value.kind == Delete <==> k !in p'))
  }

  lemma NamedIffLast(events: seq<Event>, k: Key)
    requires AllValid(events)
    ensures k in KeysNamed(events) <==> LastOn(events, k).Some?
  {
    if LastOn(events, k).Some? {
      var n :| 0 <= n < |events| && events[n] == LastOn(events, k).value;
      assert events[n].Valid();
    }
  }

  /** At k, an object of a collection behind n comes to the front, or goes behind that of n. */
  predicate Uncovers(cs: seq<map<Key, Obj>>, n: nat, m: map<Key, Obj>, k: Key)
    requires n < |cs|
  {
    var behind := FirstFound(cs[n + 1..], k);
    && FirstFound(cs[..n], k).None? && behind.Some? && (k in cs[n] <==> k !in m)
    && Get(cs[n], k) != behind && Get(m, k) != behind
  }

  /**
   * Passed on, the events show a collection that fetches from the join every object that went or
   * came, if and only if they show each that was uncovered or covered.
   */
  lemma PassedOnTellsDependentIff(cs: seq<map<Key, Obj>>, n: nat, events: seq<Event>, m: map<Key, Obj>)
    requires Changes(cs, n, events, m)
    ensures
      DepBatch(FirstWins(cs), events, FirstWins(cs[n := m])) <==>
      forall k :: Uncovers(cs, n, m, k) ==> Shown(events, FirstFound(cs[n + 1..], k).value)
  {
    ChangeIsWellKeyed(cs, n, events, m);
    var p, p' := FirstWins(cs), FirstWins(cs[n := m]);
    ShownEverywhere(cs[n], events, m);
    ShownEverywhere(p, events, p');
    forall k ensures ShownAt(Get(p, k), events, Get(p', k)) <==>
                     (Uncovers(cs, n, m, k) ==> Shown(events, FirstFound(cs[n + 1..], k).value))
    {
      PickedAt(cs, n, m, k);
      assert ShownAt(Get(cs[n], k), events, Get(m, k));
    }
  }

  /** What DepBatch asks of one key. */
  ghost predicate ShownAt(was: Option<Obj>, batch: seq<Event>, now: Option<Obj>) {
    was != now ==> (was.Some? ==> Shown(batch, was.value)) && (now.Some? ==> Shown(batch, now.value))
  }

  lemma ShownEverywhere(c: map<Key, Obj>, batch: seq<Event>, c': map<Key, Obj>)
    requires WellKeyed(c')
    ensures DepBatch(c, batch, c') <==> forall k :: ShownAt(Get(c, k), batch, Get(c', k))
  {
  }

  /** Events about keys that no other collection holds serve both. */
  lemma UnsharedPassesOn(cs: seq<map<Key, Obj>>, n: nat, events: seq<Event>, m: map<Key, Obj>)
    requires Changes(cs, n, events, m)
    requires forall k :: k in KeysNamed(events) ==> !Elsewhere(cs, n, k)
    ensures ParentBatch(FirstWins(cs), events, FirstWins(cs[n := m]))
    ensures DepBatch(FirstWins(cs), events, FirstWins(cs[n := m]))
  {
    PassedOnTellsParentIff(cs, n, events, m);
    PassedOnTellsDependentIff(cs, n, events, m);
    ChangeIsWellKeyed(cs, n, events, m);
    forall k ensures !Uncovers(cs, n, m, k) {
      NamedIffLast(events, k);
      assert ToldAt(cs[n], events, m, k);
    }
  }

  // ---------------------------------------------------------------------------------------------
  // Collections that share a key

  lemma {:induction false} FirstFoundIff(cs: seq<map<Key, Obj>>, k: Key)
    ensures FirstFound(cs, k).Some? <==> exists n :: 0 <= n < |cs| && k in cs[n]
  {
    if cs != [] {
      FirstFoundIff(cs[1..], k);
      var rest := cs[1..];
      assert forall n :: 0 <= n < |rest| ==> rest[n] == cs[n + 1];
      if n :| 0 <= n < |cs| && k in cs[n] && n > 0 {
        assert rest[n - 1] == cs[n];
      }
    }
  }

  lemma ElsewhereIff(cs: seq<map<Key, Obj>>, n: nat, k: Key)
    requires n < |cs|
    ensures Elsewhere(cs, n, k) <==> exists c :: 0 <= c < |cs| && c != n && k in cs[c]
  {
    var before, behind := cs[..n], cs[n + 1..];
    FirstFoundIff(before, k);
    FirstFoundIff(behind, k);
    if c :| 0 <= c < |cs| && c != n && k in cs[c] {
      if c < n {
        assert before[c] == cs[c];
      } else {
        assert behind[c - n - 1] == cs[c];
      }
    }
    assert forall c :: 0 <= c < |behind| ==> behind[c] == cs[c + n + 1];
  }

  /** Deleting the object under k from collection n, and passing the event on. */
  ghost predicate DeletePasses(cs: seq<map<Key, Obj>>, n: nat, k: Key)
    requires n < |cs| && k in cs[n]
  {
    ParentBatch(FirstWins(cs), [DeleteEvent(cs[n][k])], FirstWins(cs[n := cs[n] - {k}]))
  }

  lemma DeletePassesIff(cs: seq<map<Key, Obj>>, n: nat, k: Key)
    requires AllWellKeyed(cs) && n < |cs| && k in cs[n]
    ensures DeletePasses(cs, n, k) <==> !Elsewhere(cs, n, k)
  {
    var e := DeleteEvent(cs[n][k]);
    assert [e][..0] == [] && Replay(cs[n], [e]) == Some(cs[n] - {k});
    assert [e][0] == e;
    PassedOnTellsParentIff(cs, n, [e], cs[n] - {k});
    assert KeysNamed([e]) == {k};
  }

  /** Every object can be deleted, and the event passed on, if and only if no two collections share a key. */
  lemma DeletesPassIff(cs: seq<map<Key, Obj>>)
    requires AllWellKeyed(cs)
    ensures (forall n, k :: 0 <= n < |cs| && k in cs[n] ==> DeletePasses(cs, n, k)) <==> NoOverlap(cs)
  {
    forall n, k | 0 <= n < |cs| && k in cs[n]
      ensures DeletePasses(cs, n, k) <==> !exists c :: 0 <= c < |cs| && c != n && k in cs[c]
    {
      DeletePassesIff(cs, n, k);
      ElsewhereIff(cs, n, k);
    }
    if !NoOverlap(cs) {
      var a, b :| 0 <= a < b < |cs| && !(cs[a].Keys !! cs[b].Keys);
      var k :| k in cs[a] && k in cs[b];
      assert !DeletePasses(cs, a, k);
    }
  }
}
