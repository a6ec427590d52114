/** The handlers of a collection and what each has been sent. */
module KrtHandlers {
  import opened Options
  import opened KrtTypes

  function Flatten(batches: seq<seq<Event>>): seq<Event> {
    if batches == [] then [] else Flatten(batches[..|batches| - 1]) + batches[|batches| - 1]
  }

  lemma FlattenAppend(batches: seq<seq<Event>>, b: seq<Event>)
    ensures Flatten(batches + [b]) == Flatten(batches) + b
  {
    assert (batches + [b])[..|batches|] == batches;
  }

  lemma FlattenOne(b: seq<Event>)
    ensures Flatten([b]) == b
  {
    FlattenAppend([], b);
    assert [] + [b] == [b] && [] + b == b;
  }

  /** Each handler got one more batch. */
  ghost predicate SentOnce(was: map<nat, seq<seq<Event>>>, now: map<nat, seq<seq<Event>>>, events: seq<Event>) {
    && now.Keys == was.Keys
    && forall h :: h in was ==> now[h] == was[h] + [events]
  }

  ghost predicate AllFollow(known: map<nat, map<Key, Obj>>, sent: map<nat, seq<seq<Event>>>, objects: map<Key, Obj>) {
    && known.Keys == sent.Keys
    && forall h :: h in sent ==> Replay(known[h], Flatten(sent[h])) == Some(objects)
  }

  /** Handlers that followed the old objects follow the new ones after one more replayable batch. */
  lemma HandlersHear(known: map<nat, map<Key, Obj>>, was: map<nat, seq<seq<Event>>>, now: map<nat, seq<seq<Event>>>,
                     events: seq<Event>, objects: map<Key, Obj>, objects': map<Key, Obj>)
    requires SentOnce(was, now, events) && AllFollow(known, was, objects)
    requires Replay(objects, events) == Some(objects')
    ensures AllFollow(known, now, objects')
  {
    forall h | h in now ensures Replay(known[h], Flatten(now[h])) == Some(objects') {
      FlattenAppend(was[h], events);
      ReplayConcat(known[h], Flatten(was[h]), events);
    }
  }

  class HandlerSet {
    /** The batches each registered handler has been sent, oldest first. */
    var sent: map<nat, seq<seq<Event>>>
    /** What each handler knew when it registered: nothing, if it asked for the existing state. */
    ghost var known: map<nat, map<Key, Obj>>

    /** Every handler that replays what it was sent has exactly these objects. */
    ghost predicate Follow(objects: map<Key, Obj>)
      reads this
    {
      AllFollow(known, sent, objects)
    }

    constructor ()
      ensures sent == map[] && known == map[]
    {
      sent, known := map[], map[];
    }

    /** Send one batch to every handler. */
    method Send(events: seq<Event>)
      modifies this`sent
      ensures SentOnce(old(sent), sent, events)
    {
      var todo := sent.Keys;
      while todo != {}
        invariant todo <= sent.Keys == old(sent).Keys
        invariant forall h :: h in sent ==> sent[h] == old(sent)[h] + if h in todo then [] else [events]
      {
        var h :| h in todo;
        todo := todo - {h};
        sent := sent[h := sent[h] + [events]];
      }
    }

    /** Send a batch that replays: the handlers follow the collection to its new objects. */
    method Distribute(events: seq<Event>, ghost objects: map<Key, Obj>, ghost objects': map<Key, Obj>)
      requires Follow(objects) && Replay(objects, events) == Some(objects')
      modifies this`sent
      ensures Follow(objects') && SentOnce(old(sent), sent, events)
    {
      Send(events);
      HandlersHear(known, old(sent), sent, events, objects, objects');
    }

    /** Everything present, as one Add each, in any order. */
    static method InitialEvents(objects: map<Key, Obj>) returns (events: seq<Event>)
      requires WellKeyed(objects)
      ensures Replay(map[], events) == Some(objects)
    {
      events := [];
      var todo := objects.Keys;
      assert objects - todo == map[];
      while todo != {}
        invariant todo <= objects.Keys
        invariant Replay(map[], events) == Some(objects - todo)
      {
        var k :| k in todo;
        ReplayAppend(map[], events, AddEvent(objects[k]));
        assert objects - (todo - {k}) == (objects - todo)[k := objects[k]];
        todo := todo - {k};
        events := events + [AddEvent(objects[k])];
      }
      assert objects - {} == objects;
    }

    /** Register a handler, with or without an initial batch that adds everything present. */
    method Register(h: nat, runExistingState: bool, objects: map<Key, Obj>)
      requires Follow(objects) && WellKeyed(objects) && h !in sent
      modifies this
      ensures Follow(objects)
      ensures sent.Keys == old(sent).Keys + {h} && forall g :: g in old(sent) ==> sent[g] == old(sent)[g]
      ensures known == old(known)[h := if runExistingState then map[] else objects]
    {
      var batches: seq<seq<Event>> := [];
      if runExistingState {
        var events := InitialEvents(objects);
        batches := [events];
        FlattenOne(events);
      }
      sent := sent[h := batches];
      known := known[h := if runExistingState then map[] else objects];
    }
  }
}
