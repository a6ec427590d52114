/** A merged join as a collection that others fetch from. */
module KrtJoinFetch {
  import opened Options
  import opened KrtTypes
  import opened KrtMergedJoin
  import KrtSystem

  /**
   * The collection held c, and k now merges to now. The event made from what the handler was last
   * told shows what went and what came, as a fetching collection needs it, if and only if nothing
   * changed, nothing was there before, or the handler was told of what was there.
   */
  lemma EventShowsChangeIff(c: map<Key, Obj>, told: Option<Obj>, k: Key, now: Option<Obj>)
    requires WellKeyed(c) && (now.Some? ==> now.value.key == k)
    ensures KrtSystem.DepBatch(c, EventFor(told, now), WithKey(c, k, now))
            <==> Get(c, k) == now || Get(c, k).None? || told == Get(c, k)
  {
    var batch, c' := EventFor(told, now), WithKey(c, k, now);
    assert Get(c', k) == now && forall j :: j != k ==> Get(c', j) == Get(c, j);
    if now.Some? {
      assert now.value in batch[0].Items();
      assert KrtSystem.Shown(batch, now.value);
    }
    if Get(c, k).Some? && Get(c, k) != now {
      ShownIffTold(Get(c, k).value, told, now);
    }
  }

  lemma ShownIffTold(o: Obj, told: Option<Obj>, now: Option<Obj>)
    requires now != Some(o)
    ensures KrtSystem.Shown(EventFor(told, now), o) <==> told == Some(o)
  {
    if told == Some(o) {
      assert o in EventFor(told, now)[0].Items();
    }
  }

  /**
   * A handler registered without the existing state, on an empty cache, was told of nothing: the
   * first event about an object that was there hides what it was.
   */
  lemma UntoldChangeIsHidden(c: map<Key, Obj>, k: Key, now: Option<Obj>)
    requires WellKeyed(c) && (now.Some? ==> now.value.key == k) && k in c && now != Some(c[k])
    ensures !KrtSystem.DepBatch(c, EventFor(LastTold(map[], 0, k), now), WithKey(c, k, now))
  {
    EventShowsChangeIff(c, LastTold(map[], 0, k), k, now);
  }
}
