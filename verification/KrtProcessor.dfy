/**
 * The way from a collection to one handler: the sender, the goroutine that buffers, the goroutine
 * that calls the handler, and the counter that decides when the handler counts as synced.
 */
module KrtProcessor {
  import opened Options
  import opened Sequences
  import opened KrtTypes

  // ---------------------------------------------------------------------------------------------
  // The counter

  /** closes counts how often the synced channel was closed; closing it twice panics. */
  datatype Tracker = Tracker(count: int, eventsPending: bool, hasSynced: bool, closes: nat)

  const NEW_TRACKER := Tracker(0, false, false, 0)

  datatype Call = Start(n: nat) | ParentSynced | Finished(n: nat)

  function Called(t: Tracker, call: Call): Tracker {
    match call
    case Start(n) => t.(count := t.count + n)
    case ParentSynced =>
      if t.hasSynced then t
      else if t.count == 0 then t.(closes := t.closes + 1, hasSynced := true)
      else t.(eventsPending := true)
    case Finished(n) =>
      var c := t.count - n;
      if !t.hasSynced && t.eventsPending && c == 0 && n != 0 then t.(count := c, closes := t.closes + 1)
      else t.(count := c)
  }

  function CalledAll(calls: seq<Call>): Tracker {
    if calls == [] then NEW_TRACKER else Called(CalledAll(calls[..|calls| - 1]), calls[|calls| - 1])
  }

  /** The counter never went below zero. */
  ghost predicate Proper(calls: seq<Call>) {
    forall n :: 0 <= n <= |calls| ==> CalledAll(calls[..n]).count >= 0
  }

  /** At position n the parent is reported synced while initial events are still being handled. */
  ghost predicate EarlyAt(calls: seq<Call>, n: nat)
    requires n < |calls|
  {
    calls[n] == Call.ParentSynced && !CalledAll(calls[..n]).hasSynced && CalledAll(calls[..n]).count != 0
  }

  ghost predicate NeverEarly(calls: seq<Call>) {
    forall n :: 0 <= n < |calls| ==> !EarlyAt(calls, n)
  }

  lemma EarlyInPrefix(calls: seq<Call>, m: nat, n: nat)
    requires n < m <= |calls|
    ensures EarlyAt(calls[..m], n) <==> EarlyAt(calls, n)
  {
    assert calls[..m][..n] == calls[..n];
  }

  lemma {:induction false} NeverEarlyClosesOnce(calls: seq<Call>)
    requires NeverEarly(calls)
    ensures var t := CalledAll(calls); !t.eventsPending && t.closes == if t.hasSynced then 1 else 0
  {
    if calls != [] {
      var m := |calls| - 1;
      forall n | 0 <= n < m ensures !EarlyAt(calls[..m], n) {
        EarlyInPrefix(calls, m, n);
      }
      NeverEarlyClosesOnce(calls[..m]);
      assert !EarlyAt(calls, m);
    }
  }

  /** What was started and is not finished. */
  function Outstanding(calls: seq<Call>): int {
    if calls == [] then 0
    else Outstanding(calls[..|calls| - 1]) + Weight(calls[|calls| - 1])
  }

  function Weight(call: Call): int {
    var n: int := if call.ParentSynced? then 0 else call.n;
    if call.Finished? then -n else n
  }

  lemma {:induction false} CountIsOutstanding(calls: seq<Call>)
    ensures CalledAll(calls).count == Outstanding(calls)
  {
    if calls != [] {
      CountIsOutstanding(calls[..|calls| - 1]);
    }
  }

  lemma CalledSnoc(calls: seq<Call>, call: Call)
    ensures CalledAll(calls + [call]) == Called(CalledAll(calls), call)
    ensures NeverEarly(calls + [call]) <==>
              NeverEarly(calls) &&
              (call != Call.ParentSynced || CalledAll(calls).hasSynced || CalledAll(calls).count == 0)
  {
    var all := calls + [call];
    assert all[..|calls|] == calls;
    forall n | 0 <= n < |calls| ensures EarlyAt(all, n) <==> EarlyAt(calls, n) {
      EarlyInPrefix(all, |calls|, n);
    }
    assert EarlyAt(all, |calls|) <==>
             call == Call.ParentSynced && !CalledAll(calls).hasSynced && CalledAll(calls).count != 0;
    if NeverEarly(all) {
      assert !EarlyAt(all, |calls|);
      assert forall n :: 0 <= n < |calls| ==> !EarlyAt(all, n);
    }
  }

  /** The tracker with the calls made to it so far. */
  class CountingTracker {
    var count: int
    var eventsPending: bool
    var hasSynced: bool
    ghost var closes: nat
    ghost var calls: seq<Call>

    ghost predicate Valid()
      reads this
    {
      Tracker(count, eventsPending, hasSynced, closes) == CalledAll(calls) && count == Outstanding(calls)
    }

    constructor ()
      ensures Valid() && calls == []
    {
      count, eventsPending, hasSynced, closes, calls := 0, false, false, 0, [];
    }

    method Start(n: nat)
      requires Valid()
      modifies this
      ensures Valid() && calls == old(calls) + [Call.Start(n)] && closes == old(closes)
    {
      CalledSnoc(calls, Call.Start(n));
      count := count + n;
      calls := calls + [Call.Start(n)];
      CountIsOutstanding(calls);
    }

    /**
     * A first report closes the channel if nothing is outstanding. If no report was early, the channel
     * has now been closed once.
     */
    method ParentSynced()
      requires Valid()
      modifies this
      ensures Valid() && calls == old(calls) + [Call.ParentSynced]
      ensures closes == old(closes) + if !old(hasSynced) && Outstanding(old(calls)) == 0 then 1 else 0
      ensures NeverEarly(calls) ==> closes == 1
    {
      CalledSnoc(calls, Call.ParentSynced);
      calls := calls + [Call.ParentSynced];
      CountIsOutstanding(calls);
      if NeverEarly(calls) {
        NeverEarlyClosesOnce(calls);
      }
      if hasSynced {
        return;
      }
      if count == 0 {
        closes := closes + 1;
        hasSynced := true;
      } else {
        eventsPending := true;
      }
    }

    /**
     * Panics when the counter would go below zero, so the caller must have started as much. It closes
     * the channel only with the last that is outstanding, and only after an early report.
     */
    method Finished(n: nat)
      requires Valid() && n <= Outstanding(calls)
      modifies this
      ensures Valid() && calls == old(calls) + [Call.Finished(n)]
      ensures closes != old(closes) ==> closes == old(closes) + 1 && Outstanding(calls) == 0 && !NeverEarly(calls)
    {
      CalledSnoc(calls, Call.Finished(n));
      if NeverEarly(calls) {
        NeverEarlyClosesOnce(calls);
      }
      calls := calls + [Call.Finished(n)];
      CountIsOutstanding(calls);
      count := count - n;
      if !hasSynced && eventsPending && count == 0 && n != 0 {
        closes := closes + 1;
      }
    }
  }

  /** After an early report, the channel is closed once by Finished, and again by the next report. */
  lemma {:induction false} EarlyLeadsOn(calls: seq<Call>, n: nat)
    requires Proper(calls) && n < |calls| && EarlyAt(calls, n)
    ensures var t := CalledAll(calls);
            t.eventsPending && (t.count > 0 || t.closes >= 1) && (t.hasSynced ==> t.closes >= 2)
    decreases |calls|
  {
    var m := |calls| - 1;
    assert CalledAll(calls[..m]).count >= 0;
    if n < m {
      EarlyInPrefix(calls, m, n);
      forall i | 0 <= i <= m ensures CalledAll(calls[..m][..i]).count >= 0 {
        assert calls[..m][..i] == calls[..i];
      }
      EarlyLeadsOn(calls[..m], n);
      assert calls[..|calls|] == calls;
      assert CalledAll(calls[..|calls|]).count >= 0;
    }
  }

  /** A continuation that itself reports the parent synced only when nothing is being handled. */
  ghost predicate Continues(calls: seq<Call>, more: seq<Call>) {
    Proper(calls + more) && forall n :: |calls| <= n < |calls + more| ==> !EarlyAt(calls + more, n)
  }

  lemma OneMore(calls: seq<Call>, call: Call)
    requires Proper(calls) && Called(CalledAll(calls), call).count >= 0
    requires call != Call.ParentSynced || CalledAll(calls).hasSynced || CalledAll(calls).count == 0
    ensures Continues(calls, [call]) && CalledAll(calls + [call]) == Called(CalledAll(calls), call)
  {
    var all := calls + [call];
    assert all[..|calls|] == calls;
    ProperOneMore(calls, call);
    assert !EarlyAt(all, |calls|);
  }

  lemma ProperOneMore(calls: seq<Call>, call: Call)
    requires Proper(calls) && CalledAll(calls + [call]).count >= 0
    ensures Proper(calls + [call])
  {
    forall n | 0 <= n <= |calls + [call]| ensures CalledAll((calls + [call])[..n]).count >= 0 {
      PrefixOfMore(calls, call, n);
    }
  }

  lemma PrefixOfMore(calls: seq<Call>, call: Call, n: nat)
    requires n <= |calls| + 1
    ensures (calls + [call])[..n] == if n <= |calls| then calls[..n] else calls + [call]
  {
  }

  lemma TwoMore(calls: seq<Call>, a: Call, b: Call)
    requires Continues(calls, [a]) && Continues(calls + [a], [b])
    ensures Continues(calls, [a, b]) && calls + [a, b] == calls + [a] + [b]
  {
    var all := calls + [a, b];
    assert all == calls + [a] + [b];
    assert all[..|calls| + 1] == calls + [a];
    EarlyInPrefix(all, |calls| + 1, |calls|);
  }

  /**
   * Reporting the parent synced too early is exactly what can close the channel twice: with no
   * early report every continuation closes it at most once, and after one some continuation
   * closes it again, because Finished closes it without recording that it did.
   */
  lemma ClosesTwiceIffEarly(calls: seq<Call>)
    requires Proper(calls)
    ensures NeverEarly(calls) <==> forall more :: Continues(calls, more) ==> CalledAll(calls + more).closes <= 1
  {
    if NeverEarly(calls) {
      forall more | Continues(calls, more) ensures CalledAll(calls + more).closes <= 1 {
        forall n | 0 <= n < |calls + more| ensures !EarlyAt(calls + more, n) {
          if n < |calls| {
            EarlyInPrefix(calls + more, |calls|, n);
            assert (calls + more)[..|calls|] == calls;
          }
        }
        NeverEarlyClosesOnce(calls + more);
      }
    } else {
      var n :| 0 <= n < |calls| && EarlyAt(calls, n);
      EarlyLeadsOn(calls, n);
      var more := SecondClose(calls);
      assert Continues(calls, more) && CalledAll(calls + more).closes >= 2;
    }
  }

  lemma SecondClose(calls: seq<Call>) returns (more: seq<Call>)
    requires Proper(calls)
    requires var t := CalledAll(calls);
             t.eventsPending && (t.count > 0 || t.closes >= 1) && (t.hasSynced ==> t.closes >= 2)
    ensures Continues(calls, more) && CalledAll(calls + more).closes >= 2
  {
    var t := CalledAll(calls);
    assert calls[..|calls|] == calls;
    if t.hasSynced {
      more := [];
      assert calls + more == calls;
    } else if t.count > 0 {
      OneMore(calls, Call.Finished(t.count));
      OneMore(calls + [Call.Finished(t.count)], Call.ParentSynced);
      TwoMore(calls, Call.Finished(t.count), Call.ParentSynced);
      more := [Call.Finished(t.count), Call.ParentSynced];
    } else {
      OneMore(calls, Call.ParentSynced);
      more := [Call.ParentSynced];
    }
  }

  /** The smallest case: three objects, the parent's notice overtakes them, and one later batch. */
  lemma DoubleCloseExample()
    ensures CalledAll([Call.Start(3), Call.ParentSynced, Call.Finished(3), Call.ParentSynced]).closes == 2
  {
    var calls := [Call.Start(3), Call.ParentSynced, Call.Finished(3), Call.ParentSynced];
    assert calls[..3][..2][..1][..0] == [];
    assert CalledAll(calls[..3][..2][..1]).count == 3;
  }

  // ---------------------------------------------------------------------------------------------
  // The pipeline of a handler registered on a collection that is already synced

  datatype Msg = Batch(events: seq<Event>, initial: bool) | SyncedNotice

  /** What the handler goroutine holds. */
  datatype Hand = Empty | Has(n: nat) | InCall(n: nat)

  /**
   * Messages are known by their position in script, the list of everything the sender was asked
   * to send. lost records that stopping or unregistering made one disappear.
   */
  datatype Pipe = Pipe(
    script: seq<Msg>,
    started: bool,
    outbox: seq<nat>,
    notification: Option<nat>,
    pending: seq<nat>,
    hand: Hand,
    done: seq<nat>,
    tracker: Tracker,
    stopped: bool,
    closed: bool,
    popDone: bool,
    runDone: bool,
    lost: bool)

  datatype Step =
    | BeginInitial
    | Distribute(events: seq<Event>)
    | HandOver
    | GiveUp
    | Dispatch
    | TakeNotice
    | CallHandler
    | HandlerReturns
    | StopAll
    | Unregister
    | PopExits
    | RunExits

  function Script(initial: seq<Event>): seq<Msg> {
    [Batch(initial, true)] + if initial == [] then [] else [SyncedNotice]
  }

  /** Insert has added the listener; without objects to send it reports synced at once. */
  function Start(initial: seq<Event>): Pipe {
    Pipe(Script(initial), false, if initial == [] then [0] else [0, 1], None, [], Empty, [],
         if initial == [] then Called(NEW_TRACKER, Call.ParentSynced) else NEW_TRACKER,
         false, false, false, false, false)
  }

  predicate Enabled(p: Pipe, step: Step) {
    match step
    case BeginInitial => !p.started
    case Distribute(_) => p.started && !p.closed
    case HandOver => p.started && p.outbox != [] && !p.popDone && !p.closed
    case GiveUp => p.started && p.stopped && p.outbox != []
    case Dispatch => p.notification.Some? && p.hand == Empty && !p.popDone && !p.runDone
    case TakeNotice => p.hand.Has? && p.hand.n < |p.script| && p.script[p.hand.n] == SyncedNotice
    case CallHandler => p.hand.Has? && p.hand.n < |p.script| && p.script[p.hand.n].Batch?
    case HandlerReturns => p.hand.InCall? && p.hand.n < |p.script| && p.script[p.hand.n].Batch?
    case StopAll => !p.stopped
    case Unregister => p.started && !p.closed && p.outbox == []
    case PopExits => !p.popDone && (p.stopped || p.closed)
    case RunExits => !p.runDone && p.hand == Empty && (p.stopped || p.popDone)
  }

  function After(p: Pipe, step: Step): Pipe
    requires Enabled(p, step)
  {
    match step
    case BeginInitial =>
      p.(started := true,
         tracker := Called(p.tracker, Call.Start(
           if |p.script| > 0 && p.script[0].Batch? then |p.script[0].events| else 0)))
    case Distribute(events) => p.(script := p.script + [Batch(events, false)], outbox := p.outbox + [|p.script|])
    case HandOver =>
      if p.notification.None? then p.(outbox := p.outbox[1..], notification := Some(p.outbox[0]))
      else p.(outbox := p.outbox[1..], pending := p.pending + [p.outbox[0]])
    case GiveUp => p.(outbox := p.outbox[1..], lost := true)
    case Dispatch =>
      p.(hand := Has(p.notification.value),
         notification := if p.pending == [] then None else Some(p.pending[0]),
         pending := if p.pending == [] then [] else p.pending[1..])
    case TakeNotice =>
      p.(tracker := Called(p.tracker, Call.ParentSynced), hand := Empty, done := p.done + [p.hand.n])
    case CallHandler =>
      p.(tracker := if p.script[p.hand.n].initial then p.tracker else Called(p.tracker, Call.ParentSynced),
         hand := InCall(p.hand.n))
    case HandlerReturns =>
      p.(tracker := if p.script[p.hand.n].initial then Called(p.tracker, Call.Finished(|p.script[p.hand.n].events|))
                    else p.tracker,
         hand := Empty, done := p.done + [p.hand.n])
    case StopAll => p.(stopped := true)
    case Unregister => p.(closed := true)
    case PopExits =>
      p.(popDone := true, notification := None, pending := [],
         lost := p.lost || p.notification.Some? || p.pending != [])
    case RunExits => p.(runDone := true)
  }

  function InHand(h: Hand): seq<nat> {
    if h == Empty then [] else [h.n]
  }

  function Waiting(o: Option<nat>): seq<nat> {
    if o.None? then [] else [o.value]
  }

  /** Everything on its way, nearest to the handler first. */
  function Line(p: Pipe): seq<nat> {
    InHand(p.hand) + Waiting(p.notification) + p.pending + p.outbox
  }

  function All(p: Pipe): seq<nat> {
    p.done + Line(p)
  }

  ghost predicate Increasing(s: seq<nat>) {
    forall i, j :: 0 <= i < j < |s| ==> s[i] < s[j]
  }

  /** The batches the handler has been called with, in order of the calls. */
  function Calls(p: Pipe): seq<seq<Event>> {
    CallsOf(p.script, CalledFor(p))
  }

  function CallsOf(script: seq<Msg>, ns: seq<nat>): seq<seq<Event>> {
    if ns == [] then []
    else
      var n := ns[|ns| - 1];
      CallsOf(script, ns[..|ns| - 1]) +
      if n < |script| && script[n].Batch? && script[n].events != [] then [script[n].events] else []
  }

  ghost predicate Ordered(p: Pipe) {
    && Increasing(All(p)) && (forall i :: 0 <= i < |All(p)| ==> All(p)[i] < |p.script|)
    && (p.notification.None? ==> p.pending == [])
    && (!p.lost ==> IsRange(All(p), |p.script|))
    && (p.lost ==> p.stopped || p.closed)
  }

  ghost predicate ScriptOk(p: Pipe, initial: seq<Event>) {
    && Script(initial) <= p.script
    && forall n :: |Script(initial)| <= n < |p.script| ==> p.script[n].Batch? && !p.script[n].initial
  }

  /** How far the first batch is decides the counter; nothing overtakes it. */
  ghost predicate Counted(p: Pipe, initial: seq<Event>) {
    && p.tracker.count == (if p.started && 0 !in p.done then |initial| else 0)
    && (p.tracker.eventsPending ==> 0 !in All(p))
    && p.tracker.closes == (if p.tracker.hasSynced then 1 else 0)
    && (initial == [] ==> p.tracker.hasSynced)
    && (p.tracker.hasSynced && initial != [] ==> 0 in p.done)
    && (0 in p.done && 1 in p.done && initial != [] ==> p.tracker.hasSynced)
    && (!p.started ==> p.done == [] && p.hand == Empty && p.notification.None? && p.pending == [])
    && (!p.started ==> p.outbox != [] && p.outbox[0] == 0)
  }

  ghost predicate Inv(p: Pipe, initial: seq<Event>) {
    ScriptOk(p, initial) && Ordered(p) && Counted(p, initial)
  }

  lemma IncreasingWithout(a: seq<nat>, mid: seq<nat>, b: seq<nat>)
    requires Increasing(a + mid + b)
    ensures Increasing(a + b)
    ensures forall n :: n in a + b ==> n in a + mid + b
  {
    var s, t := a + mid + b, a + b;
    forall i, j | 0 <= i < j < |t| ensures t[i] < t[j] {
      var i', j' := if i < |a| then i else i + |mid|, if j < |a| then j else j + |mid|;
      assert t[i] == s[i'] && t[j] == s[j'];
    }
    forall n | n in t ensures n in s {
      var i :| 0 <= i < |t| && t[i] == n;
      assert s[if i < |a| then i else i + |mid|] == n;
    }
  }

  lemma HandOverMoves(p: Pipe)
    requires Enabled(p, HandOver) && (p.notification.None? ==> p.pending == [])
    ensures All(After(p, HandOver)) == All(p)
  {
    var x, rest := p.outbox[0], p.outbox[1..];
    assert p.outbox == [x] + rest;
    if p.notification.None? {
      assert InHand(p.hand) + [] + [] + ([x] + rest) == InHand(p.hand) + [x] + [] + rest;
    } else {
      assert InHand(p.hand) + Waiting(p.notification) + p.pending + ([x] + rest) ==
             InHand(p.hand) + Waiting(p.notification) + (p.pending + [x]) + rest;
    }
  }

  lemma DispatchMoves(p: Pipe)
    requires Enabled(p, Dispatch)
    ensures All(After(p, Dispatch)) == All(p)
  {
    if p.pending != [] {
      assert p.pending == [p.pending[0]] + p.pending[1..];
    }
  }

  lemma DoneMoves(p: Pipe, p': Pipe)
    requires p.hand != Empty && p'.hand == Empty && p'.done == p.done + [p.hand.n]
    requires p'.notification == p.notification && p'.pending == p.pending && p'.outbox == p.outbox
    ensures All(p') == All(p)
  {
    assert p'.done + ([] + Waiting(p.notification) + p.pending + p.outbox) ==
           p.done + ([p.hand.n] + Waiting(p.notification) + p.pending + p.outbox);
  }

  lemma StayMoves(p: Pipe, p': Pipe, more: seq<nat>)
    requires InHand(p'.hand) == InHand(p.hand) && p'.done == p.done
    requires p'.notification == p.notification && p'.pending == p.pending && p'.outbox == p.outbox + more
    ensures All(p') == All(p) + more
  {
  }

  lemma GiveUpDrops(p: Pipe)
    requires p.outbox != []
    ensures
      var a := p.done + InHand(p.hand) + Waiting(p.notification) + p.pending;
      All(p) == a + [p.outbox[0]] + p.outbox[1..] && (Enabled(p, GiveUp) ==> All(After(p, GiveUp)) == a + p.outbox[1..])
  {
    assert p.outbox == [p.outbox[0]] + p.outbox[1..];
  }

  lemma PopExitDrops(p: Pipe)
    requires Enabled(p, PopExits)
    ensures
      var a, mid := p.done + InHand(p.hand), Waiting(p.notification) + p.pending;
      All(p) == a + mid + p.outbox && All(After(p, PopExits)) == a + p.outbox
  {
  }

  /** p' is in order, and its line is made of that of p and of more. */
  ghost predicate Follows(p: Pipe, p': Pipe, more: seq<nat>) {
    Ordered(p') && forall n :: n in All(p') ==> n in All(p) || n in more
  }

  /** p' has lost some of the line of p, and that is recorded. */
  lemma DroppedKeepsOrder(p: Pipe, p': Pipe, a: seq<nat>, mid: seq<nat>, b: seq<nat>)
    requires Ordered(p) && p'.script == p.script && All(p) == a + mid + b && All(p') == a + b
    requires (p'.notification.None? ==> p'.pending == []) && (p'.lost ==> p'.stopped || p'.closed)
    requires !p'.lost ==> mid == [] && !p.lost
    ensures Follows(p, p', [])
  {
    IncreasingWithout(a, mid, b);
    InRange(p, p');
    if !p'.lost {
      assert a + mid + b == a + b;
    }
  }

  /** The line stays, but for a message added at its end. */
  lemma MovedKeepsOrder(p: Pipe, p': Pipe, more: seq<nat>)
    requires Ordered(p) && All(p') == All(p) + more && (more == [] || more == [|p.script|])
    requires |p'.script| == |p.script| + |more| && p'.lost == p.lost
    requires (p'.notification.None? ==> p'.pending == []) && (p'.lost ==> p'.stopped || p'.closed)
    ensures Follows(p, p', more)
  {
    var all, all' := All(p), All(p');
    forall n | 0 <= n < |all'| ensures all'[n] < |p'.script| {
      assert n < |all| ==> all'[n] == all[n];
    }
    forall m, n | 0 <= m < n < |all'| ensures all'[m] < all'[n] {
      assert all'[m] == all[m] && (n < |all| ==> all'[n] == all[n]);
    }
  }

  lemma GiveUpKeepsOrder(p: Pipe)
    requires Ordered(p) && Enabled(p, GiveUp)
    ensures Follows(p, After(p, GiveUp), [])
  {
    GiveUpDrops(p);
    DroppedKeepsOrder(p, After(p, GiveUp), p.done + InHand(p.hand) + Waiting(p.notification) + p.pending,
                      [p.outbox[0]], p.outbox[1..]);
  }

  lemma ExitKeepsOrder(p: Pipe)
    requires Ordered(p) && Enabled(p, PopExits)
    ensures Follows(p, After(p, PopExits), [])
  {
    PopExitDrops(p);
    DroppedKeepsOrder(p, After(p, PopExits),
                      p.done + InHand(p.hand), Waiting(p.notification) + p.pending, p.outbox);
  }

  lemma DistributeKeepsOrder(p: Pipe, events: seq<Event>)
    requires Ordered(p) && Enabled(p, Distribute(events))
    ensures Follows(p, After(p, Distribute(events)), [|p.script|])
  {
    StayMoves(p, After(p, Distribute(events)), [|p.script|]);
    MovedKeepsOrder(p, After(p, Distribute(events)), [|p.script|]);
  }

  lemma HandOverKeepsOrder(p: Pipe)
    requires Ordered(p) && Enabled(p, HandOver)
    ensures Follows(p, After(p, HandOver), [])
  {
    HandOverMoves(p);
    MovedKeepsOrder(p, After(p, HandOver), []);
  }

  lemma DispatchKeepsOrder(p: Pipe)
    requires Ordered(p) && Enabled(p, Dispatch)
    ensures Follows(p, After(p, Dispatch), [])
  {
    DispatchMoves(p);
    MovedKeepsOrder(p, After(p, Dispatch), []);
  }

  lemma NoticeKeepsOrder(p: Pipe)
    requires Ordered(p) && Enabled(p, TakeNotice)
    ensures Follows(p, After(p, TakeNotice), [])
  {
    DoneMoves(p, After(p, TakeNotice));
    MovedKeepsOrder(p, After(p, TakeNotice), []);
  }

  lemma ReturnKeepsOrder(p: Pipe)
    requires Ordered(p) && Enabled(p, HandlerReturns)
    ensures Follows(p, After(p, HandlerReturns), [])
  {
    DoneMoves(p, After(p, HandlerReturns));
    MovedKeepsOrder(p, After(p, HandlerReturns), []);
  }

  /** Steps that move no message. */
  predicate IsStill(step: Step) {
    step.BeginInitial? || step.CallHandler? || step.StopAll? || step.Unregister? || step.RunExits?
  }

  predicate SameLine(p: Pipe, p': Pipe) {
    && p'.script == p.script && p'.done == p.done && InHand(p'.hand) == InHand(p.hand)
    && p'.notification == p.notification && p'.pending == p.pending && p'.outbox == p.outbox
    && p'.lost == p.lost && (p.stopped ==> p'.stopped) && (p.closed ==> p'.closed)
  }

  lemma BeginLeavesLine(p: Pipe)
    requires Enabled(p, BeginInitial)
    ensures SameLine(p, After(p, BeginInitial))
  {
  }

  lemma CallLeavesLine(p: Pipe)
    requires Enabled(p, CallHandler)
    ensures SameLine(p, After(p, CallHandler))
  {
  }

  lemma StillLeavesLine(p: Pipe, step: Step)
    requires Enabled(p, step) && IsStill(step)
    ensures SameLine(p, After(p, step))
  {
    if step.BeginInitial? {
      BeginLeavesLine(p);
    } else if step.CallHandler? {
      CallLeavesLine(p);
    }
  }

  lemma StillKeepsOrder(p: Pipe, step: Step)
    requires Ordered(p) && Enabled(p, step) && IsStill(step)
    ensures Follows(p, After(p, step), [])
  {
    StillLeavesLine(p, step);
    StayMoves(p, After(p, step), []);
    MovedKeepsOrder(p, After(p, step), []);
  }

  lemma StepKeepsOrder(p: Pipe, step: Step)
    requires Ordered(p) && Enabled(p, step)
    ensures Follows(p, After(p, step), if step.Distribute? then [|p.script|] else [])
  {
    match step
    case Distribute(events) => DistributeKeepsOrder(p, events);
    case HandOver => HandOverKeepsOrder(p);
    case GiveUp => GiveUpKeepsOrder(p);
    case Dispatch => DispatchKeepsOrder(p);
    case TakeNotice => NoticeKeepsOrder(p);
    case HandlerReturns => ReturnKeepsOrder(p);
    case PopExits => ExitKeepsOrder(p);
    case _ => StillKeepsOrder(p, step);
  }

  lemma InRange(p: Pipe, p': Pipe)
    requires p'.script == p.script && forall n :: n in All(p') ==> n in All(p)
    requires forall i :: 0 <= i < |All(p)| ==> All(p)[i] < |p.script|
    ensures forall i :: 0 <= i < |All(p')| ==> All(p')[i] < |p'.script|
  {
    forall i | 0 <= i < |All(p')| ensures All(p')[i] < |p'.script| {
      assert All(p')[i] in All(p');
    }
  }

  /** The first message, while it is around, is in front of all others. */
  lemma FirstComesFirst(p: Pipe)
    requires Increasing(All(p)) && 0 in All(p) && p.hand != Empty
    ensures p.hand.n == 0 ==> p.done == []
    ensures p.hand.n != 0 ==> 0 in p.done
  {
    var all := All(p);
    var i :| 0 <= i < |all| && all[i] == 0;
    assert all[0] <= all[i];
    assert all[|p.done|] == p.hand.n;
  }

  lemma HandIsScripted(p: Pipe, initial: seq<Event>)
    requires ScriptOk(p, initial) && p.hand != Empty && p.hand.n < |p.script| && p.script[p.hand.n].Batch?
    ensures p.script[p.hand.n].initial <==> p.hand.n == 0
    ensures p.hand.n == 0 ==> p.script[0].events == initial
  {
    assert p.script[0] == Script(initial)[0];
    if p.hand.n == 1 && initial != [] {
      assert p.script[1] == Script(initial)[1];
    }
  }

  lemma HandIsInLine(p: Pipe)
    requires p.hand != Empty
    ensures p.hand.n in All(p)
  {
    assert All(p)[|p.done|] == p.hand.n;
  }

  /** No message is finished and the counter rests. */
  lemma RestKeepsCount(p: Pipe, p': Pipe, initial: seq<Event>)
    requires Counted(p, initial) && (0 in All(p') ==> 0 in All(p))
    requires SameCount(p, p')
    requires !p.started ==> p'.hand == p.hand && p'.notification == p.notification
    requires !p.started ==> p'.pending == p.pending && p'.outbox == p.outbox
    ensures Counted(p', initial)
  {
  }

  /** Steps of sending and buffering. */
  predicate IsMove(step: Step) {
    step.Distribute? || step.HandOver? || step.GiveUp? || step.Dispatch?
  }

  predicate IsSignal(step: Step) {
    step.StopAll? || step.Unregister? || step.PopExits? || step.RunExits?
  }

  predicate SameCount(p: Pipe, p': Pipe) {
    p'.tracker == p.tracker && p'.done == p.done && p'.started == p.started
  }

  lemma MoveLeavesCount(p: Pipe, step: Step)
    requires Enabled(p, step) && IsMove(step)
    ensures SameCount(p, After(p, step))
  {
  }

  lemma SignalLeavesCount(p: Pipe, step: Step)
    requires Enabled(p, step) && IsSignal(step)
    ensures SameCount(p, After(p, step))
  {
  }

  /** Before the first batch is sent there is nothing to move. */
  lemma RestBeforeStart(p: Pipe, step: Step)
    requires Enabled(p, step) && (IsMove(step) || IsSignal(step))
    requires !p.started && p.notification.None? && p.pending == []
    ensures
      var p' := After(p, step);
      p'.hand == p.hand && p'.notification == p.notification && p'.pending == p.pending && p'.outbox == p.outbox
  {
    assert step.StopAll? || step.PopExits? || step.RunExits?;
  }

  lemma BeginKeepsCount(p: Pipe, initial: seq<Event>)
    requires Inv(p, initial) && Enabled(p, BeginInitial)
    requires Follows(p, After(p, BeginInitial), [])
    ensures Counted(After(p, BeginInitial), initial)
  {
    assert p.script[0] == Script(initial)[0];
  }

  /** What the handler goroutine holds is in the line, and the first message is in front. */
  ghost predicate HandInFront(p: Pipe) {
    p.hand != Empty && p.hand.n in All(p) && (0 in All(p) ==> if p.hand.n == 0 then p.done == [] else 0 in p.done)
  }

  lemma HandIsInFront(p: Pipe)
    requires Increasing(All(p)) && p.hand != Empty
    ensures HandInFront(p)
  {
    HandIsInLine(p);
    if 0 in All(p) {
      FirstComesFirst(p);
    }
  }

  lemma NoticeKeepsCount(p: Pipe, initial: seq<Event>)
    requires Inv(p, initial) && Enabled(p, TakeNotice)
    requires HandInFront(p) && Follows(p, After(p, TakeNotice), [])
    ensures Counted(After(p, TakeNotice), initial)
  {
    var p' := After(p, TakeNotice);
    assert p.script[0] == Script(initial)[0] && (0 in p'.done <==> 0 in p.done || p.hand.n == 0);
  }

  lemma CallKeepsCount(p: Pipe, initial: seq<Event>)
    requires Inv(p, initial) && Enabled(p, CallHandler)
    requires HandInFront(p) && Follows(p, After(p, CallHandler), [])
    ensures Counted(After(p, CallHandler), initial)
  {
    HandIsScripted(p, initial);
  }

  lemma ReturnKeepsCount(p: Pipe, initial: seq<Event>)
    requires Inv(p, initial) && Enabled(p, HandlerReturns)
    requires HandInFront(p) && Follows(p, After(p, HandlerReturns), [])
    ensures Counted(After(p, HandlerReturns), initial)
  {
    HandIsScripted(p, initial);
    var p' := After(p, HandlerReturns);
    assert 0 in p'.done <==> 0 in p.done || p.hand.n == 0;
  }

  lemma QuietKeepsCount(p: Pipe, step: Step, initial: seq<Event>)
    requires Inv(p, initial) && Enabled(p, step) && (IsMove(step) || IsSignal(step))
    requires Follows(p, After(p, step), if step.Distribute? then [|p.script|] else [])
    ensures Counted(After(p, step), initial)
  {
    if IsMove(step) {
      MoveLeavesCount(p, step);
    } else {
      SignalLeavesCount(p, step);
    }
    if !p.started {
      RestBeforeStart(p, step);
    }
    RestKeepsCount(p, After(p, step), initial);
  }

  lemma StepKeepsCount(p: Pipe, step: Step, initial: seq<Event>)
    requires Inv(p, initial) && Enabled(p, step)
    requires Follows(p, After(p, step), if step.Distribute? then [|p.script|] else [])
    ensures Counted(After(p, step), initial)
  {
    match step
    case BeginInitial => BeginKeepsCount(p, initial);
    case TakeNotice =>
      HandIsInFront(p);
      NoticeKeepsCount(p, initial);
    case CallHandler =>
      HandIsInFront(p);
      CallKeepsCount(p, initial);
    case HandlerReturns =>
      HandIsInFront(p);
      ReturnKeepsCount(p, initial);
    case _ => QuietKeepsCount(p, step, initial);
  }

  lemma StepKeepsScript(p: Pipe, step: Step, initial: seq<Event>)
    requires ScriptOk(p, initial) && Enabled(p, step)
    ensures ScriptOk(After(p, step), initial)
  {
  }

  lemma StepKeeps(p: Pipe, step: Step, initial: seq<Event>)
    requires Inv(p, initial) && Enabled(p, step)
    ensures Inv(After(p, step), initial)
  {
    StepKeepsScript(p, step, initial);
    StepKeepsOrder(p, step);
    StepKeepsCount(p, step, initial);
  }

  function RunOf(initial: seq<Event>, steps: seq<Step>): Option<Pipe> {
    if steps == [] then Some(Start(initial))
    else
      match RunOf(initial, steps[..|steps| - 1])
      case None => None
      case Some(p) => if Enabled(p, steps[|steps| - 1]) then Some(After(p, steps[|steps| - 1])) else None
  }

  lemma {:induction false} RunKeeps(initial: seq<Event>, steps: seq<Step>)
    requires RunOf(initial, steps).Some?
    ensures Inv(RunOf(initial, steps).value, initial)
  {
    if steps != [] {
      RunKeeps(initial, steps[..|steps| - 1]);
      StepKeeps(RunOf(initial, steps[..|steps| - 1]).value, steps[|steps| - 1], initial);
    }
  }

  /** Every batch that has something in it, the existing state first. */
  function Sent(script: seq<Msg>): seq<seq<Event>> {
    if script == [] then []
    else
      var m := script[|script| - 1];
      Sent(script[..|script| - 1]) + if m.Batch? && m.events != [] then [m.events] else []
  }

  lemma {:induction false} CallsOfRange(script: seq<Msg>, ns: seq<nat>, n: nat)
    requires IsRange(ns, n) && n <= |script|
    ensures CallsOf(script, ns) == Sent(script[..n])
  {
    if n > 0 {
      CallsOfRange(script, ns[..n - 1], n - 1);
      assert script[..n][..n - 1] == script[..n - 1];
    }
  }

  function NonEmpty(events: seq<Event>): seq<seq<Event>> {
    if events == [] then [] else [events]
  }

  /** What the handler is to be called with: the existing state, then what was distributed. */
  function DueCalls(initial: seq<Event>, steps: seq<Step>): seq<seq<Event>> {
    if steps == [] then NonEmpty(initial)
    else
      var e := steps[|steps| - 1];
      DueCalls(initial, steps[..|steps| - 1]) + if e.Distribute? then NonEmpty(e.events) else []
  }

  /** What the handler was called with, call by call; it is not called with an empty batch. */
  function MadeCalls(initial: seq<Event>, steps: seq<Step>): seq<seq<Event>> {
    if steps == [] then []
    else
      var init, e := steps[..|steps| - 1], steps[|steps| - 1];
      MadeCalls(initial, init) +
      if e.CallHandler? && RunOf(initial, init).Some? then InHandEvents(RunOf(initial, init).value) else []
  }

  /** The batch that the handler goroutine holds. */
  function InHandEvents(p: Pipe): seq<seq<Event>> {
    if p.hand.Has? && p.hand.n < |p.script| && p.script[p.hand.n].Batch? then NonEmpty(p.script[p.hand.n].events)
    else []
  }

  lemma {:induction false} SentConcat(a: seq<Msg>, m: Msg)
    ensures Sent(a + [m]) == Sent(a) + if m.Batch? then NonEmpty(m.events) else []
  {
    assert (a + [m])[..|a|] == a;
  }

  lemma SentIsDue(initial: seq<Event>)
    ensures Sent(Script(initial)) == NonEmpty(initial)
  {
    var first := Batch(initial, true);
    assert Script(initial) == [] + [first] + if initial == [] then [] else [SyncedNotice];
    SentConcat([], first);
    if initial != [] {
      SentConcat([first], SyncedNotice);
    }
  }

  lemma StepSends(p: Pipe, step: Step)
    requires Enabled(p, step)
    ensures Sent(After(p, step).script) == Sent(p.script) + if step.Distribute? then NonEmpty(step.events) else []
  {
    if step.Distribute? {
      SentConcat(p.script, Batch(step.events, false));
    } else {
      StepLeavesScript(p, step);
    }
  }

  lemma StepLeavesScript(p: Pipe, step: Step)
    requires Enabled(p, step) && !step.Distribute?
    ensures After(p, step).script == p.script
  {
    TrackedLeaves(p, step);
  }

  /** Steps that call the tracker. */
  predicate IsTracked(step: Step) {
    step.BeginInitial? || step.CallHandler? || step.TakeNotice? || step.HandlerReturns?
  }

  predicate SameRest(p: Pipe, p': Pipe) {
    p'.script == p.script && p'.stopped == p.stopped && p'.closed == p.closed
  }

  lemma BeginLeaves(p: Pipe)
    requires Enabled(p, BeginInitial)
    ensures SameRest(p, After(p, BeginInitial))
  {
  }

  lemma CallLeaves(p: Pipe)
    requires Enabled(p, CallHandler)
    ensures SameRest(p, After(p, CallHandler))
  {
  }

  lemma NoticeLeaves(p: Pipe)
    requires Enabled(p, TakeNotice)
    ensures SameRest(p, After(p, TakeNotice))
  {
  }

  lemma ReturnLeaves(p: Pipe)
    requires Enabled(p, HandlerReturns)
    ensures SameRest(p, After(p, HandlerReturns))
  {
  }

  lemma TrackedLeaves(p: Pipe, step: Step)
    requires Enabled(p, step)
    ensures IsTracked(step) ==> SameRest(p, After(p, step))
  {
    match step
    case BeginInitial => BeginLeaves(p);
    case CallHandler => CallLeaves(p);
    case TakeNotice => NoticeLeaves(p);
    case HandlerReturns => ReturnLeaves(p);
    case _ =>
  }

  lemma {:induction false} ScriptIsDue(initial: seq<Event>, steps: seq<Step>)
    requires RunOf(initial, steps).Some?
    ensures Sent(RunOf(initial, steps).value.script) == DueCalls(initial, steps)
  {
    if steps == [] {
      SentIsDue(initial);
    } else {
      ScriptIsDue(initial, steps[..|steps| - 1]);
      StepSends(RunOf(initial, steps[..|steps| - 1]).value, steps[|steps| - 1]);
    }
  }

  lemma CallsOfSnoc(script: seq<Msg>, ns: seq<nat>, n: nat)
    ensures CallsOf(script, ns + [n]) ==
            CallsOf(script, ns) + if n < |script| && script[n].Batch? then NonEmpty(script[n].events) else []
  {
    assert (ns + [n])[..|ns|] == ns;
  }

  /** More messages do not change the calls made for the ones there were. */
  lemma {:induction false} CallsOfMore(script: seq<Msg>, more: seq<Msg>, ns: seq<nat>)
    requires forall i :: 0 <= i < |ns| ==> ns[i] < |script|
    ensures CallsOf(script + more, ns) == CallsOf(script, ns)
  {
    if ns != [] {
      CallsOfMore(script, more, ns[..|ns| - 1]);
    }
  }

  /** The messages the handler goroutine is done with or in the call for. */
  function CalledFor(p: Pipe): seq<nat> {
    p.done + if p.hand.InCall? then [p.hand.n] else []
  }

  lemma DistributeCalls(p: Pipe, events: seq<Event>)
    requires Ordered(p) && Enabled(p, Distribute(events))
    ensures Calls(After(p, Distribute(events))) == Calls(p)
  {
    forall i | 0 <= i < |CalledFor(p)| ensures CalledFor(p)[i] < |p.script| {
      assert CalledFor(p)[i] == All(p)[i];
    }
    CallsOfMore(p.script, [Batch(events, false)], CalledFor(p));
  }

  lemma HandlerCalls(p: Pipe)
    requires Enabled(p, CallHandler)
    ensures Calls(After(p, CallHandler)) == Calls(p) + InHandEvents(p)
  {
    CallsOfSnoc(p.script, p.done, p.hand.n);
    assert p.done + [] == p.done;
  }

  lemma NoticeCalls(p: Pipe)
    requires Enabled(p, TakeNotice)
    ensures Calls(After(p, TakeNotice)) == Calls(p)
  {
    CallsOfSnoc(p.script, p.done, p.hand.n);
    assert p.done + [] == p.done && p.done + [p.hand.n] + [] == p.done + [p.hand.n];
  }

  lemma ReturnCalls(p: Pipe)
    requires Enabled(p, HandlerReturns)
    ensures Calls(After(p, HandlerReturns)) == Calls(p)
  {
    assert p.done + [p.hand.n] + [] == p.done + [p.hand.n];
  }

  lemma RestCalls(p: Pipe, step: Step)
    requires Enabled(p, step) && !step.Distribute? && !step.CallHandler? && !step.TakeNotice? && !step.HandlerReturns?
    ensures Calls(After(p, step)) == Calls(p)
  {
    RestLeavesCalls(p, step);
  }

  lemma StepCalls(p: Pipe, step: Step)
    requires Ordered(p) && Enabled(p, step)
    ensures Calls(After(p, step)) == Calls(p) + if step.CallHandler? then InHandEvents(p) else []
  {
    match step
    case Distribute(events) => DistributeCalls(p, events);
    case CallHandler => HandlerCalls(p);
    case TakeNotice => NoticeCalls(p);
    case HandlerReturns => ReturnCalls(p);
    case _ => RestCalls(p, step);
  }

  lemma RestLeavesCalls(p: Pipe, step: Step)
    requires Enabled(p, step) && !step.Distribute? && !step.CallHandler? && !step.TakeNotice? && !step.HandlerReturns?
    ensures
      var p' := After(p, step);
      p'.script == p.script && p'.done == p.done && (p'.hand == p.hand || (p.hand == Empty && p'.hand.Has?))
  {
    if step.BeginInitial? {
      BeginLeavesCalls(p);
    }
  }

  lemma BeginLeavesCalls(p: Pipe)
    requires Enabled(p, BeginInitial)
    ensures var p' := After(p, BeginInitial); p'.script == p.script && p'.done == p.done && p'.hand == p.hand
  {
  }

  lemma {:induction false} CallsAreMade(initial: seq<Event>, steps: seq<Step>)
    requires RunOf(initial, steps).Some?
    ensures Calls(RunOf(initial, steps).value) == MadeCalls(initial, steps)
  {
    if steps != [] {
      CallsAreMade(initial, steps[..|steps| - 1]);
      RunKeeps(initial, steps[..|steps| - 1]);
      StepCalls(RunOf(initial, steps[..|steps| - 1]).value, steps[|steps| - 1]);
    }
  }

  lemma {:induction false} SentPrefix(script: seq<Msg>, n: nat)
    requires n <= |script|
    ensures Sent(script[..n]) <= Sent(script)
    decreases |script|
  {
    if n < |script| {
      var init := script[..|script| - 1];
      SentPrefix(init, n);
      assert init[..n] == script[..n];
    } else {
      assert script[..n] == script;
    }
  }

  lemma MadeIsPrefix(p: Pipe)
    requires Ordered(p) && !p.lost
    ensures Calls(p) <= Sent(p.script) && (Line(p) == [] ==> Calls(p) == Sent(p.script))
  {
    var ns := CalledFor(p);
    assert forall i :: 0 <= i < |ns| ==> ns[i] == All(p)[i];
    assert IsRange(ns, |ns|) && |ns| <= |p.script|;
    CallsOfRange(p.script, ns, |ns|);
    SentPrefix(p.script, |ns|);
    if Line(p) == [] {
      assert p.hand == Empty && ns == p.done == All(p);
      assert p.script[..|p.script|] == p.script;
    }
  }

  /**
   * In every interleaving: as long as nothing was stopped or unregistered, the calls the handler got
   * are the first of those it is due, which are the existing state and then each batch distributed,
   * in order; when nothing is on its way they are all of them. What stopping or unregistering loses
   * never reorders or repeats the rest.
   */
  lemma DeliveredInOrder(initial: seq<Event>, steps: seq<Step>)
    requires RunOf(initial, steps).Some?
    ensures
      var p := RunOf(initial, steps).value;
      && Increasing(p.done)
      && (StopAll !in steps && Unregister !in steps ==> MadeCalls(initial, steps) <= DueCalls(initial, steps))
      && (StopAll !in steps && Unregister !in steps && Line(p) == [] ==>
            MadeCalls(initial, steps) == DueCalls(initial, steps))
  {
    RunKeeps(initial, steps);
    ScriptIsDue(initial, steps);
    CallsAreMade(initial, steps);
    var p := RunOf(initial, steps).value;
    assert forall i :: 0 <= i < |p.done| ==> All(p)[i] == p.done[i];
    if StopAll !in steps && Unregister !in steps {
      NeverStopped(initial, steps);
      MadeIsPrefix(p);
    }
  }

  lemma {:induction false} NeverStopped(initial: seq<Event>, steps: seq<Step>)
    requires RunOf(initial, steps).Some? && StopAll !in steps && Unregister !in steps
    ensures var p := RunOf(initial, steps).value; !p.stopped && !p.closed
  {
    if steps != [] {
      var init, e := steps[..|steps| - 1], steps[|steps| - 1];
      assert steps == init + [e];
      NeverStopped(initial, init);
      OnlyStopsStop(RunOf(initial, init).value, e);
    }
  }

  lemma OnlyStopsStop(p: Pipe, step: Step)
    requires Enabled(p, step) && step != StopAll && step != Unregister
    ensures var p' := After(p, step); p'.stopped == p.stopped && p'.closed == p.closed
  {
    TrackedLeaves(p, step);
  }

  /**
   * In every interleaving the synced channel is closed at most once, and only after the handler
   * returned from the batch of existing objects; once everything is delivered it is closed. The
   * counter never goes below zero.
   */
  lemma SyncedOnceAfterInitial(initial: seq<Event>, steps: seq<Step>)
    requires RunOf(initial, steps).Some?
    ensures
      var p := RunOf(initial, steps).value;
      && p.tracker.closes <= 1 && p.tracker.count >= 0
      && p.script != [] && p.script[0] == Batch(initial, true)
      && (p.tracker.closes == 1 && initial != [] ==> 0 in p.done)
      && (!p.stopped && !p.closed && Line(p) == [] ==> p.tracker.closes == 1)
  {
    RunKeeps(initial, steps);
    var p := RunOf(initial, steps).value;
    assert p.script[0] == Script(initial)[0];
    if !p.stopped && !p.closed && Line(p) == [] && initial != [] {
      assert All(p) == p.done;
      assert p.done[0] == 0 && p.done[1] == 1;
    }
  }
}
