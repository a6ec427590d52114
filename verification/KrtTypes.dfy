/** Objects, keys and events of krt, and what it means to replay a list of events. */
module KrtTypes {
  import opened Options

  type Key = string

  /** Identity of a collection or of an index: both are drawn from one global counter. */
  type Uid = nat

  /** The part of an object krt never looks into. */
  type Payload(==, !new)

  datatype Obj = Obj(
    key: Key,
    namespace: string,
    labels: map<string, string>,
    selector: map<string, string>,
    payload: Payload)

  datatype EventType = Add | Update | Delete

  datatype Event = Event(kind: EventType, old_: Option<Obj>, new_: Option<Obj>) {

    /** An event never has both sides missing, and both sides are about one key. */
    predicate Valid() {
      (old_.Some? || new_.Some?) && (old_.Some? && new_.Some? ==> old_.value.key == new_.value.key)
    }

    function Items(): seq<Obj> {
      (if old_.Some? then [old_.value] else []) + (if new_.Some? then [new_.value] else [])
    }

    function Latest(): Obj
      requires Valid()
    {
      if new_.Some? then new_.value else old_.value
    }
  }

  function AddEvent(o: Obj): Event { Event(Add, None, Some(o)) }

  function UpdateEvent(o: Obj, n: Obj): Event { Event(Update, Some(o), Some(n)) }

  function DeleteEvent(o: Obj): Event { Event(Delete, Some(o), None) }

  /** Every object is stored under its own key. */
  ghost predicate WellKeyed(m: map<Key, Obj>) {
    forall k :: k in m ==> m[k].key == k
  }

  /**
   * One step of a listener that follows a collection through its events. The step is refused (None)
   * when the event contradicts what the listener has seen: an Add of a present key, an Update or
   * a Delete whose old object is not the one last seen.
   */
  function ReplayOne(view: map<Key, Obj>, e: Event): Option<map<Key, Obj>> {
    match e
    case Event(Add, None, Some(n)) =>
      if n.key in view then None else Some(view[n.key := n])
    case Event(Update, Some(o), Some(n)) =>
      if o.key == n.key && Get(view, o.key) == Some(o) then Some(view[n.key := n]) else None
    case Event(Delete, Some(o), None) =>
      if Get(view, o.key) == Some(o) then Some(view - {o.key}) else None
    case _ => None
  }

  function Replay(view: map<Key, Obj>, events: seq<Event>): Option<map<Key, Obj>> {
    if events == [] then Some(view)
    else
      match Replay(view, events[..|events| - 1])
      case None => None
      case Some(v) => ReplayOne(v, events[|events| - 1])
  }

  /** No Update announces the object it replaces. */
  ghost predicate NoIdleUpdates(events: seq<Event>) {
    forall i :: 0 <= i < |events| && events[i].kind == Update ==> events[i].old_ != events[i].new_
  }

  ghost predicate AllValid(events: seq<Event>) {
    forall e :: e in events ==> e.Valid()
  }

  ghost predicate NamesKey(events: seq<Event>, k: Key) {
    exists n :: 0 <= n < |events| && events[n].Valid() && events[n].Latest().key == k
  }

  ghost function KeysNamed(events: seq<Event>): set<Key> {
    set n | 0 <= n < |events| && events[n].Valid() :: events[n].Latest().key
  }

  /** No two events are about one key. */
  ghost predicate NamedOnce(events: seq<Event>) {
    forall i, j :: 0 <= i < j < |events| && events[i].Valid() && events[j].Valid() ==>
      events[i].Latest().key != events[j].Latest().key
  }

  lemma NamedConcat(a: seq<Event>, b: seq<Event>)
    ensures KeysNamed(a + b) == KeysNamed(a) + KeysNamed(b)
    ensures NamedOnce(a) && NamedOnce(b) && KeysNamed(a) !! KeysNamed(b) ==> NamedOnce(a + b)
  {
    var c := a + b;
    forall k ensures k in KeysNamed(c) <==> k in KeysNamed(a) || k in KeysNamed(b) {
      if k in KeysNamed(a) {
        var n :| 0 <= n < |a| && a[n].Valid() && a[n].Latest().key == k;
        assert c[n] == a[n];
      }
      if k in KeysNamed(b) {
        var n :| 0 <= n < |b| && b[n].Valid() && b[n].Latest().key == k;
        assert c[|a| + n] == b[n];
      }
    }
    if NamedOnce(a) && NamedOnce(b) && KeysNamed(a) !! KeysNamed(b) {
      forall i, j | 0 <= i < j < |c| && c[i].Valid() && c[j].Valid() ensures c[i].Latest().key != c[j].Latest().key {
        if i < |a| <= j {
          assert c[i].Latest().key in KeysNamed(a) && c[j].Latest().key in KeysNamed(b);
        } else if i >= |a| {
          assert b[i - |a|] == c[i] && b[j - |a|] == c[j];
        }
      }
    }
  }

  /** Every key the events name is one that changed. */
  ghost predicate OnlyChanges(was: map<Key, Obj>, events: seq<Event>, now: map<Key, Obj>) {
    forall k :: k in KeysNamed(events) ==> Get(was, k) != Get(now, k)
  }

  /** Events that replay, are not idle and name each key once, name only keys that changed. */
  lemma {:induction false} NamedOnceChanged(was: map<Key, Obj>, events: seq<Event>)
    requires Replay(was, events).Some? && NoIdleUpdates(events) && NamedOnce(events)
    ensures OnlyChanges(was, events, Replay(was, events).value)
    ensures forall k :: k !in KeysNamed(events) ==> Get(Replay(was, events).value, k) == Get(was, k)
  {
    if events != [] {
      var init, e := events[..|events| - 1], events[|events| - 1];
      NamedLast(events);
      NamedOnceChanged(was, init);
      OneMoreChange(was, Replay(was, init).value, e, KeysNamed(init));
    }
  }

  lemma NamedLast(events: seq<Event>)
    requires events != [] && events[|events| - 1].Valid() && NamedOnce(events)
    ensures
      var init, k := events[..|events| - 1], events[|events| - 1].Latest().key;
      NamedOnce(init) && KeysNamed(events) == KeysNamed(init) + {k} && k !in KeysNamed(init)
  {
    var init, e := events[..|events| - 1], events[|events| - 1];
    assert events == init + [e] && [e][0] == e;
    NamedConcat(init, [e]);
    assert KeysNamed([e]) == {e.Latest().key};
  }

  lemma OneMoreChange(was: map<Key, Obj>, v: map<Key, Obj>, e: Event, keys: set<Key>)
    requires e.Valid() && ReplayOne(v, e).Some? && (e.kind == Update ==> e.old_ != e.new_) && e.Latest().key !in keys
    requires forall k :: if k in keys then Get(was, k) != Get(v, k) else Get(v, k) == Get(was, k)
    ensures
      var now := ReplayOne(v, e).value;
      forall k :: if k in keys + {e.Latest().key} then Get(was, k) != Get(now, k) else Get(now, k) == Get(was, k)
  {
  }

  lemma ReplayAppend(view: map<Key, Obj>, events: seq<Event>, e: Event)
    ensures Replay(view, events + [e]) ==
            (match Replay(view, events) case None => None case Some(v) => ReplayOne(v, e))
  {
    assert (events + [e])[..|events|] == events;
  }

  lemma {:induction false} ReplayConcat(view: map<Key, Obj>, a: seq<Event>, b: seq<Event>)
    ensures Replay(view, a + b) ==
            (match Replay(view, a) case None => None case Some(v) => Replay(v, b))
    decreases |b|
  {
    if b == [] {
      assert a + b == a;
    } else {
      var b', e := b[..|b| - 1], b[|b| - 1];
      ReplayConcat(view, a, b');
      assert a + b == (a + b') + [e];
      ReplayAppend(view, a + b', e);
    }
  }

  /** Replayed views stay well keyed. */
  lemma {:induction false} ReplayKeepsKeys(view: map<Key, Obj>, events: seq<Event>)
    requires WellKeyed(view) && Replay(view, events).Some?
    ensures WellKeyed(Replay(view, events).value)
  {
    if events != [] {
      ReplayKeepsKeys(view, events[..|events| - 1]);
    }
  }

  /** Replayable events are valid, so Latest() is defined on each. */
  lemma {:induction false} ReplayedAreValid(view: map<Key, Obj>, events: seq<Event>)
    requires Replay(view, events).Some?
    ensures AllValid(events)
  {
    if events != [] {
      ReplayedAreValid(view, events[..|events| - 1]);
      assert events == events[..|events| - 1] + [events[|events| - 1]];
    }
  }

  /** The last event about key k, if any. */
  function LastOn(events: seq<Event>, k: Key): (r: Option<Event>)
    requires AllValid(events)
    ensures r.Some? ==> r.value in events && r.value.Latest().key == k
    ensures r.None? ==> forall e :: e in events ==> e.Latest().key != k
  {
    if events == [] then None
    else
      var e := events[|events| - 1];
      assert events == events[..|events| - 1] + [e];
      if e.Latest().key == k then Some(e) else LastOn(events[..|events| - 1], k)
  }

  lemma {:induction false} LastOnConcat(a: seq<Event>, b: seq<Event>, k: Key)
    requires AllValid(a) && AllValid(b)
    ensures AllValid(a + b)
    ensures LastOn(a + b, k) == if LastOn(b, k).Some? then LastOn(b, k) else LastOn(a, k)
    decreases |b|
  {
    if b == [] {
      assert a + b == a;
    } else {
      var b', e := b[..|b| - 1], b[|b| - 1];
      assert b == b' + [e];
      LastOnConcat(a, b', k);
      assert (a + b)[..|a + b| - 1] == a + b';
      assert (a + b)[|a + b| - 1] == e;
    }
  }

  lemma SameByGet(a: map<Key, Obj>, b: map<Key, Obj>)
    requires forall k :: Get(a, k) == Get(b, k)
    ensures a == b
  {
    assert forall k :: k in a <==> Get(a, k).Some?;
    assert forall k :: k in b <==> Get(b, k).Some?;
  }

  // ---------------------------------------------------------------------------------------------
  // Lists of objects

  function KeysIn(objects: seq<Obj>): set<Key> {
    set n | 0 <= n < |objects| :: objects[n].key
  }

  /** The objects by key; the last of two with one key stays. */
  function ByKey(objects: seq<Obj>): (m: map<Key, Obj>)
    ensures WellKeyed(m) && m.Keys == KeysIn(objects)
  {
    if objects == [] then map[]
    else
      var n := |objects| - 1;
      assert KeysIn(objects) == KeysIn(objects[..n]) + {objects[n].key} by {
        assert forall i :: 0 <= i < n ==> objects[..n][i] == objects[i];
      }
      ByKey(objects[..n])[objects[n].key := objects[n]]
  }

  lemma {:induction false} ByKeyIsFrom(objects: seq<Obj>, k: Key)
    requires k in ByKey(objects)
    ensures ByKey(objects)[k] in objects
  {
    var n := |objects| - 1;
    assert objects == objects[..n] + [objects[n]];
    if k != objects[n].key {
      ByKeyIsFrom(objects[..n], k);
    }
  }

  /** objects[n] is o, the last object under k. */
  predicate LastUnder(objects: seq<Obj>, k: Key, o: Obj, n: nat) {
    n < |objects| && objects[n] == o && o.key == k && forall m :: n < m < |objects| ==> objects[m].key != k
  }

  lemma {:induction false} ByKeyIsLast(objects: seq<Obj>, k: Key, o: Obj)
    ensures Get(ByKey(objects), k) == Some(o) <==> exists n: nat :: LastUnder(objects, k, o, n)
  {
    if objects != [] {
      ByKeyIsLast(objects[..|objects| - 1], k, o);
      LastUnderOneMore(objects, k, o);
    }
  }

  lemma LastUnderOneMore(objects: seq<Obj>, k: Key, o: Obj)
    requires objects != []
    ensures
      var init, last := objects[..|objects| - 1], objects[|objects| - 1];
      (exists n: nat :: LastUnder(objects, k, o, n)) <==>
        if last.key == k then o == last else exists n: nat :: LastUnder(init, k, o, n)
  {
    var last := |objects| - 1;
    var init := objects[..last];
    if objects[last].key == k {
      assert LastUnder(objects, k, objects[last], last);
    } else {
      forall n: nat ensures LastUnder(objects, k, o, n) <==> LastUnder(init, k, o, n) {
        assert n < last ==> init[n] == objects[n];
        assert forall m :: n < m < last ==> init[m] == objects[m];
      }
    }
  }

  ghost predicate DistinctKeys(objects: seq<Obj>) {
    forall i, j :: 0 <= i < j < |objects| ==> objects[i].key != objects[j].key
  }

  lemma KeysSnoc(objects: seq<Obj>, n: nat)
    requires n < |objects|
    ensures objects[..n + 1] == objects[..n] + [objects[n]]
    ensures KeysIn(objects[..n + 1]) == KeysIn(objects[..n]) + {objects[n].key}
    ensures ByKey(objects[..n + 1]) == ByKey(objects[..n])[objects[n].key := objects[n]]
    ensures DistinctKeys(objects[..n + 1]) <==> DistinctKeys(objects[..n]) && objects[n].key !in KeysIn(objects[..n])
  {
    var a, b := objects[..n], objects[..n + 1];
    assert b[..n] == a && b[n] == objects[n];
    assert forall i :: 0 <= i < n ==> b[i] == a[i];
    if DistinctKeys(b) {
      assert forall i :: 0 <= i < n ==> b[i].key != b[n].key;
    }
  }

  lemma NextKey(objects: seq<Obj>, n: nat, met: map<Key, Obj>)
    requires n < |objects| && DistinctKeys(objects) && met == ByKey(objects[..n])
    ensures objects[n].key !in met && ByKey(objects[..n + 1]) == met[objects[n].key := objects[n]]
  {
    KeysSnoc(objects, n);
  }

  /** The list holds each object of the map once, in any order. */
  ghost predicate Lists(list: seq<Obj>, m: map<Key, Obj>) {
    DistinctKeys(list) && m == ByKey(list)
  }

  lemma ListedIff(list: seq<Obj>, m: map<Key, Obj>, o: Obj)
    requires Lists(list, m)
    ensures o in list <==> Get(m, o.key) == Some(o)
  {
    ByKeyIsLast(list, o.key, o);
    if o in list {
      var n :| 0 <= n < |list| && list[n] == o;
      assert LastUnder(list, o.key, o, n);
    }
  }

  /** The objects under the given keys. */
  function Restricted(m: map<Key, Obj>, keys: set<Key>): map<Key, Obj> {
    map k | k in m && k in keys :: m[k]
  }

  lemma RestrictedOneMore(m: map<Key, Obj>, keys: set<Key>, k: Key)
    requires k !in keys
    ensures k !in Restricted(m, keys)
    ensures Restricted(m, keys + {k}) == if k in m then Restricted(m, keys)[k := m[k]] else Restricted(m, keys)
  {
  }

  /** The objects under the given keys are looked up one by one, in any order. */
  method ListKeys(m: map<Key, Obj>, keys: set<Key>) returns (list: seq<Obj>)
    requires WellKeyed(m)
    ensures Lists(list, Restricted(m, keys))
  {
    list := [];
    var todo := keys;
    ghost var done: set<Key> := {};
    assert Restricted(m, done) == map[];
    while todo != {}
      invariant todo !! done && todo + done == keys
      invariant Lists(list, Restricted(m, done))
      decreases |todo|
    {
      var k :| k in todo;
      RestrictedOneMore(m, done, k);
      if k in m {
        ListsSnoc(list, Restricted(m, done), m[k]);
        list := list + [m[k]];
      }
      todo, done := todo - {k}, done + {k};
    }
    assert done == keys;
  }

  lemma ListsSnoc(list: seq<Obj>, m: map<Key, Obj>, o: Obj)
    requires Lists(list, m) && o.key !in m
    ensures Lists(list + [o], m[o.key := o])
  {
    var all := list + [o];
    KeysSnoc(all, |list|);
    assert all[..|list|] == list && all[..|list| + 1] == all;
  }

  /** What it means to list: membership in the list is membership in the map. */
  lemma {:induction false} ListedIsPresent(list: seq<Obj>, m: map<Key, Obj>, o: Obj)
    requires Lists(list, m)
    ensures o in list <==> Get(m, o.key) == Some(o)
  {
    if list != [] {
      var n := |list| - 1;
      KeysSnoc(list, n);
      assert list[..n + 1] == list;
      ListedIsPresent(list[..n], ByKey(list[..n]), o);
    }
  }
}
