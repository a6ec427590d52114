/**
 * The state kept for each type a client watches, and how a discovery request changes it and is
 * answered. A variant of the state of the world protocol of "xDS REST and gRPC protocol",
 * sections "ACK/NACK and resource type instance version" and "Unsubscribing From Resources".
 */
module Xds {
  import opened Options

  const API_TYPE_PREFIX := "type.googleapis.com/"
  const ENDPOINT_TYPE := API_TYPE_PREFIX + "endpoint.v1.ClusterLoadAssignment"
  const ROUTE_TYPE := API_TYPE_PREFIX + "route.v1.RouteConfiguration"
  const SECRET_TYPE := API_TYPE_PREFIX + "extensions.transport_sockets.tls.v1.Secret"

  datatype Watch = Watch(
    names: set<string>,
    nonceSent: string,
    nonceAcked: string,
    alwaysRespond: bool,
    lastError: string)

  /** errorDetail is set on a NACK. */
  datatype Request = Request(typeUrl: string, resourceNames: seq<string>, nonce: string, errorDetail: Option<string>) {
    function Names(): set<string> {
      set n | n in resourceNames
    }
  }

  datatype Answer = Answer(respond: bool, subscribed: set<string>)

  predicate IsWildcardTypeURL(typeUrl: string) {
    typeUrl != SECRET_TYPE && typeUrl != ENDPOINT_TYPE && typeUrl != ROUTE_TYPE
  }

  predicate ShouldUnsubscribe(req: Request) {
    |req.resourceNames| == 0 && !IsWildcardTypeURL(req.typeUrl)
  }

  function FreshWatch(names: set<string>): Watch {
    Watch(names, "", "", false, "")
  }

  // ---------------------------------------------------------------------------------------------
  // What a request means

  predicate IsNack(req: Request) {
    req.errorDetail.Some?
  }

  /** The request acknowledges the response sent last. */
  predicate Acks(prev: Option<Watch>, req: Request) {
    !IsNack(req) && prev.Some? && req.nonce != "" && req.nonce == prev.value.nonceSent
  }

  predicate Unsubscribes(prev: Option<Watch>, req: Request) {
    !IsNack(req) && ShouldUnsubscribe(req) && !Acks(prev, req)
  }

  /** The request starts a watch afresh. */
  predicate Starts(prev: Option<Watch>, req: Request) {
    !IsNack(req) && !ShouldUnsubscribe(req) && (prev.None? || req.nonce == "")
  }

  /** The names watched after a request: the simple account of a subscription. */
  function NamesAfter(prev: Option<Watch>, req: Request): Option<set<string>> {
    if IsNack(req) then (if prev.Some? then Some(prev.value.names) else None)
    else if Unsubscribes(prev, req) then None
    else if prev.None? || req.nonce == "" || req.Names() != {} then Some(req.Names())
    else Some(prev.value.names)
  }

  predicate Responds(prev: Option<Watch>, req: Request) {
    && !IsNack(req) && !ShouldUnsubscribe(req)
    && (req.nonce == "" ||
        (prev.Some? &&
         if Acks(prev, req)
         then (req.Names() != {} || prev.value.names == {}) &&
              (prev.value.alwaysRespond ||
               (req.Names() != prev.value.names &&
                 (IsWildcardTypeURL(req.typeUrl) || !(req.Names() <= prev.value.names))))
         else req.Names() != {} && req.Names() != prev.value.names))
  }

  function Subscribed(prev: Option<Watch>, req: Request): set<string> {
    if Responds(prev, req) && prev.Some? && req.nonce != "" && !(Acks(prev, req) && prev.value.alwaysRespond)
    then req.Names() - prev.value.names
    else {}
  }

  /** The watch after a request. */
  function WatchAfter(prev: Option<Watch>, req: Request): Option<Watch> {
    match NamesAfter(prev, req)
    case None => None
    case Some(names) =>
      if Starts(prev, req) || prev.None? then Some(FreshWatch(names))
      else
        var w := prev.value;
        if IsNack(req) then Some(w.(lastError := req.errorDetail.value))
        else if Acks(prev, req) then Some(Watch(names, w.nonceSent, req.nonce, false, ""))
        else Some(w.(names := names, lastError := if names == w.names then w.lastError else ""))
  }

  lemma NamesEmptyIff(req: Request)
    ensures req.Names() == {} <==> req.resourceNames == []
  {
    if req.resourceNames != [] {
      assert req.resourceNames[0] in req.Names();
    }
  }

  lemma NothingAdded(names: set<string>, old_: set<string>)
    requires |names - old_| == 0
    ensures names <= old_
  {
    forall n | n in names ensures n in old_ {
      assert n !in names - old_;
    }
  }

  class Watcher {
    var watched: map<string, Watch>

    function Current(url: string): Option<Watch>
      reads this
    {
      if url in watched then Some(watched[url]) else None
    }

    /** Decide on one request, and remember it. A NACK is only expected for a type that is watched. */
    method ShouldRespond(req: Request) returns (answer: Answer)
      requires IsNack(req) ==> req.typeUrl in watched
      modifies this
      ensures
        var before := Simplify(old(Current(req.typeUrl)));
        && answer == Answer(IsDue(before, req), NewNames(before, req))
        && Simplify(Current(req.typeUrl)) == SimpleStep(before, Receive(req))
      ensures forall url :: url != req.typeUrl ==> Current(url) == old(Current(url))
    {
      DueIff(Current(req.typeUrl), req);
      StepIsSimple(Current(req.typeUrl), Receive(req));
      answer := Decide(req);
    }

    /** The branches of the decision. */
    method Decide(req: Request) returns (answer: Answer)
      requires IsNack(req) ==> req.typeUrl in watched
      modifies this
      ensures Current(req.typeUrl) == WatchAfter(old(Current(req.typeUrl)), req)
      ensures forall url :: url != req.typeUrl ==> Current(url) == old(Current(url))
      ensures answer == Answer(Responds(old(Current(req.typeUrl)), req), Subscribed(old(Current(req.typeUrl)), req))
    {
      var url := req.typeUrl;
      if req.errorDetail.Some? {
        watched := watched[url := watched[url].(lastError := req.errorDetail.value)];
        return Answer(false, {});
      }

      if ShouldUnsubscribe(req) {
        if url in watched && req.nonce != "" && req.nonce == watched[url].nonceSent {
          watched := watched[url := watched[url].(lastError := "", nonceAcked := req.nonce, alwaysRespond := false)];
          return Answer(false, {});
        }
        watched := watched - {url};
        return Answer(false, {});
      }

      if url !in watched {
        watched := watched[url := FreshWatch(req.Names())];
        return Answer(req.nonce == "", {});
      }

      if req.nonce == "" {
        watched := watched[url := FreshWatch(req.Names())];
        return Answer(true, {});
      }

      NamesEmptyIff(req);
      var previous := watched[url];
      if req.nonce != previous.nonceSent {
        var newResources := req.Names();
        if newResources != previous.names && |newResources| > 0 {
          watched := watched[url := previous.(lastError := "", names := newResources)];
          return Answer(true, newResources - previous.names);
        }
        return Answer(false, {});
      }

      watched := watched[url := Watch(req.Names(), previous.nonceSent, req.nonce, false, "")];
      var removed := previous.names - req.Names();
      var added := req.Names() - previous.names;
      if |req.resourceNames| == 0 && |previous.names| > 0 && previous.nonceSent != "" {
        watched := watched[url := watched[url].(names := previous.names)];
        return Answer(false, {});
      }
      if previous.alwaysRespond {
        return Answer(true, {});
      }
      if |removed| == 0 && |added| == 0 {
        NothingAdded(req.Names(), previous.names);
        NothingAdded(previous.names, req.Names());
        return Answer(false, {});
      }
      if !IsWildcardTypeURL(url) && |added| == 0 {
        NothingAdded(req.Names(), previous.names);
        return Answer(false, {});
      }
      return Answer(true, added);
    }

    /** A response was sent without error; the nonce, if any, becomes the last one sent. */
    method Sent(url: string, nonce: string)
      modifies this
      ensures Current(url) == WatchAfterSend(old(Current(url)), nonce)
      ensures Simplify(Current(url)) == SimpleStep(Simplify(old(Current(url))), Send(url, nonce))
      ensures forall u :: u != url ==> Current(u) == old(Current(u))
    {
      if nonce != "" {
        var wr := if url in watched then watched[url] else FreshWatch({});
        watched := watched[url := wr.(nonceSent := nonce)];
      }
    }
  }

  function WatchAfterSend(prev: Option<Watch>, nonce: string): Option<Watch> {
    if nonce == "" then prev
    else if prev.None? then Some(FreshWatch({}).(nonceSent := nonce))
    else Some(prev.value.(nonceSent := nonce))
  }

  // ---------------------------------------------------------------------------------------------
  // Runs

  /** What happens on a connection, in order. A marking asks for a forced response. */
  datatype Ev =
    | Receive(req: Request)
    | Send(typeUrl: string, nonce: string)
    | Mark(typeUrl: string)

  function UrlOf(e: Ev): string {
    match e
    case Receive(req) => req.typeUrl
    case Send(url, _) => url
    case Mark(url) => url
  }

  datatype Conn = Conn(watched: map<string, Watch>)

  const EMPTY := Conn(map[])

  function At(c: Conn, url: string): Option<Watch> {
    if url in c.watched then Some(c.watched[url]) else None
  }

  function Put(m: map<string, Watch>, url: string, w: Option<Watch>): map<string, Watch> {
    if w.Some? then m[url := w.value] else m - {url}
  }

  function StepWatch(prev: Option<Watch>, e: Ev): Option<Watch> {
    match e
    case Receive(req) => WatchAfter(prev, req)
    case Send(_, nonce) => WatchAfterSend(prev, nonce)
    case Mark(_) => if prev.Some? then Some(prev.value.(alwaysRespond := true)) else None
  }

  function Step(c: Conn, e: Ev): Conn {
    Conn(Put(c.watched, UrlOf(e), StepWatch(At(c, UrlOf(e)), e)))
  }

  function Run(evs: seq<Ev>): Conn {
    if evs == [] then EMPTY else Step(Run(evs[..|evs| - 1]), evs[|evs| - 1])
  }

  lemma StepAt(c: Conn, e: Ev, url: string)
    ensures At(Step(c, e), url) == if url == UrlOf(e) then StepWatch(At(c, url), e) else At(c, url)
  {
  }

  // ---------------------------------------------------------------------------------------------
  // The subscription of one type, told simply

  /**
   * Not watched; or watched with these names, the nonce sent last, the nonce acknowledged last, whether
   * a marking is open, and the error of the last NACK, if nothing cleared it.
   */
  datatype Simple = Off | On(names: set<string>, last: string, acked: string, open: bool, error: string)

  function SimpleStep(s: Simple, e: Ev): Simple {
    match e
    case Mark(_) => if s.On? then s.(open := true) else Off
    case Send(_, nonce) =>
      if nonce == "" then s else if s.On? then s.(last := nonce) else On({}, nonce, "", false, "")
    case Receive(req) =>
      if req.errorDetail.Some? then                                               // NACK: only its error is kept
        (if s.On? then s.(error := req.errorDetail.value) else Off)
      else if s.On? && req.nonce != "" && req.nonce == s.last then                // ACK: the marking is answered
        On(if req.resourceNames == [] then s.names else req.Names(), s.last, req.nonce, false, "")
      else if req.resourceNames == [] && !IsWildcardTypeURL(req.typeUrl) then Off // unsubscribe
      else if s.Off? || req.nonce == "" then On(req.Names(), "", "", false, "")   // a new watch takes the names
      else if req.resourceNames == [] || req.Names() == s.names then s            // stale, and nothing new
      else s.(names := req.Names(), error := "")                                  // stale, but names replace
  }

  /** A request is to be answered, by the simple account of what came before. */
  predicate IsDue(s: Simple, req: Request) {
    && req.errorDetail.None?
    && (req.resourceNames != [] || IsWildcardTypeURL(req.typeUrl))
    && (|| req.nonce == ""                                                        // a start, watched or not
        || (s.On? && req.nonce != s.last && req.resourceNames != [] && req.Names() != s.names)
        || (s.On? && req.nonce == s.last && s.open && (req.resourceNames != [] || s.names == {}))
        || (s.On? && req.nonce == s.last && exists n :: n in req.resourceNames && n !in s.names)
        || (s.On? && req.nonce == s.last && IsWildcardTypeURL(req.typeUrl)
            && req.resourceNames != [] && req.Names() != s.names))
  }

  /** The names an answer is told are new: none for a start or a marking. */
  function NewNames(s: Simple, req: Request): set<string> {
    if IsDue(s, req) && s.On? && req.nonce != "" && !(req.nonce == s.last && s.open) then
      set n | n in req.resourceNames && n !in s.names
    else {}
  }

  lemma DueIff(prev: Option<Watch>, req: Request)
    ensures Responds(prev, req) <==> IsDue(Simplify(prev), req)
    ensures Subscribed(prev, req) == NewNames(Simplify(prev), req)
  {
    NamesEmptyIff(req);
    AddedIff(prev, req);
  }

  lemma AddedIff(prev: Option<Watch>, req: Request)
    requires req.Names() == {} <==> req.resourceNames == []
    ensures prev.Some? ==>
              (!(req.Names() <= prev.value.names) <==> exists n :: n in req.resourceNames && n !in prev.value.names)
  {
    if prev.Some? && !(req.Names() <= prev.value.names) {
      var n :| n in req.Names() && n !in prev.value.names;
    }
  }

  function SimpleRun(evs: seq<Ev>, url: string): Simple {
    if evs == [] then Off
    else
      var s := SimpleRun(evs[..|evs| - 1], url);
      var e := evs[|evs| - 1];
      if UrlOf(e) == url then SimpleStep(s, e) else s
  }

  function Simplify(w: Option<Watch>): Simple {
    if w.None? then Off
    else On(w.value.names, w.value.nonceSent, w.value.nonceAcked, w.value.alwaysRespond, w.value.lastError)
  }

  lemma StepIsSimple(prev: Option<Watch>, e: Ev)
    ensures Simplify(StepWatch(prev, e)) == SimpleStep(Simplify(prev), e)
  {
    if e.Receive? {
      NamesEmptyIff(e.req);
    }
  }

  /** Over every run, the stored watch of every type is what the simple account says. */
  lemma {:induction false} SubscriptionRefinesSimple(evs: seq<Ev>, url: string)
    ensures Simplify(At(Run(evs), url)) == SimpleRun(evs, url)
  {
    if evs != [] {
      var c, e := Run(evs[..|evs| - 1]), evs[|evs| - 1];
      SubscriptionRefinesSimple(evs[..|evs| - 1], url);
      StepAt(c, e, url);
      StepIsSimple(At(c, url), e);
    }
  }

  /** Over every run, a request is answered, and with these new names, exactly when the simple account says so. */
  lemma AnsweredIff(evs: seq<Ev>, req: Request)
    ensures IsResponse(Run(evs), Receive(req)) <==> IsDue(SimpleRun(evs, req.typeUrl), req)
    ensures Subscribed(At(Run(evs), req.typeUrl), req) == NewNames(SimpleRun(evs, req.typeUrl), req)
  {
    SubscriptionRefinesSimple(evs, req.typeUrl);
    DueIff(At(Run(evs), req.typeUrl), req);
  }

  // ---------------------------------------------------------------------------------------------
  // No response loop

  predicate IsResponse(c: Conn, e: Ev) {
    e.Receive? && Responds(At(c, e.req.typeUrl), e.req)
  }

  predicate IsEmptyNonce(e: Ev) {
    e.Receive? && e.req.nonce == ""
  }

  predicate ChangesNames(c: Conn, e: Ev) {
    e.Receive? && NamesAt(c, e.req.typeUrl) != NamesAt(Step(c, e), e.req.typeUrl)
  }

  function NamesAt(c: Conn, url: string): Option<set<string>> {
    if url in c.watched then Some(c.watched[url].names) else None
  }

  function One(b: bool): nat {
    if b then 1 else 0
  }

  function Responses(evs: seq<Ev>): nat {
    if evs == [] then 0
    else Responses(evs[..|evs| - 1]) + One(IsResponse(Run(evs[..|evs| - 1]), evs[|evs| - 1]))
  }

  /** The reasons a run gives for responses: empty nonces, changed names, markings. */
  function Reasons(evs: seq<Ev>): nat {
    if evs == [] then 0
    else
      var c, e := Run(evs[..|evs| - 1]), evs[|evs| - 1];
      Reasons(evs[..|evs| - 1]) + One(IsEmptyNonce(e)) + One(ChangesNames(c, e)) + One(e.Mark?)
  }

  function Flagged(c: Conn): set<string> {
    set url | url in c.watched && c.watched[url].alwaysRespond
  }

  lemma FlaggedAfter(c: Conn, e: Ev)
    ensures
      var url := UrlOf(e);
      Flagged(Step(c, e)) == (Flagged(c) - {url}) +
        if StepWatch(At(c, url), e).Some? && StepWatch(At(c, url), e).value.alwaysRespond then {url} else {}
  {
    forall u ensures u in Flagged(Step(c, e)) <==>
      || (u in Flagged(c) && u != UrlOf(e))
      || (u == UrlOf(e) && StepWatch(At(c, u), e).Some? && StepWatch(At(c, u), e).value.alwaysRespond)
    {
      StepAt(c, e, u);
    }
  }

  lemma FlaggedCount(c: Conn, e: Ev)
    ensures
      var url := UrlOf(e);
      var next := StepWatch(At(c, url), e);
      |Flagged(Step(c, e))| + One(At(c, url).Some? && At(c, url).value.alwaysRespond) ==
      |Flagged(c)| + One(next.Some? && next.value.alwaysRespond)
  {
    FlaggedAfter(c, e);
    var next := StepWatch(At(c, UrlOf(e)), e);
    CountOneChange(Flagged(c), UrlOf(e), next.Some? && next.value.alwaysRespond);
  }

  lemma CountOneChange(s: set<string>, x: string, after: bool)
    ensures |(s - {x}) + if after then {x} else {}| + One(x in s) == |s| + One(after)
  {
    var rest := s - {x};
    if x in s {
      assert s == rest + {x};
    } else {
      assert s == rest;
    }
  }

  /** One event: a response is paid for by a reason, or by taking a marking back. */
  lemma StepIsPaid(c: Conn, e: Ev)
    ensures One(IsResponse(c, e)) + |Flagged(Step(c, e))| <=
            |Flagged(c)| + One(IsEmptyNonce(e)) + One(ChangesNames(c, e)) + One(e.Mark?)
  {
    FlaggedCount(c, e);
    StepAt(c, e, UrlOf(e));
    if e.Receive? {
      ResponseHasReason(At(c, e.req.typeUrl), e.req);
    }
  }

  lemma ResponseHasReason(prev: Option<Watch>, req: Request)
    ensures Responds(prev, req) ==>
              || req.nonce == ""
              || (prev.Some? && prev.value.alwaysRespond && !WatchAfter(prev, req).value.alwaysRespond)
              || (prev.Some? && WatchAfter(prev, req).value.names != prev.value.names)
    ensures WatchAfter(prev, req).Some? && WatchAfter(prev, req).value.alwaysRespond ==>
              prev.Some? && prev.value.alwaysRespond
  {
    NamesEmptyIff(req);
  }

  lemma {:induction false} ResponsesArePaid(evs: seq<Ev>)
    ensures Responses(evs) + |Flagged(Run(evs))| <= Reasons(evs)
  {
    if evs == [] {
      assert Flagged(EMPTY) == {};
    } else {
      ResponsesArePaid(evs[..|evs| - 1]);
      StepIsPaid(Run(evs[..|evs| - 1]), evs[|evs| - 1]);
    }
  }

  /**
   * Over every run, the responses are at most the requests with an empty nonce, the requests
   * that changed the stored names and the markings, together.
   */
  lemma NoResponseLoop(evs: seq<Ev>)
    ensures Responses(evs) <= Reasons(evs)
  {
    ResponsesArePaid(evs);
  }

  /** After evs, e is a message with a nonce and with the names the client has. */
  predicate IsAck(evs: seq<Ev>, e: Ev) {
    !e.Mark? && !IsEmptyNonce(e) && !ChangesNames(Run(evs), e)
  }

  /** From here on the client only acknowledges. */
  predicate OnlyAcks(before: seq<Ev>, acks: seq<Ev>) {
    acks == [] ||
    (OnlyAcks(before, acks[..|acks| - 1]) && IsAck(before + acks[..|acks| - 1], acks[|acks| - 1]))
  }

  /** Between two moments of a run no response went out that was not owed. */
  ghost predicate Paid(evs: seq<Ev>, evs': seq<Ev>) {
    Responses(evs) <= Responses(evs') && Responses(evs') + Owed(evs') <= Responses(evs) + Owed(evs)
  }

  /** Markings still to be answered. */
  function Owed(evs: seq<Ev>): nat {
    |Flagged(Run(evs))|
  }

  lemma AckIsPaid(evs: seq<Ev>, e: Ev, evs': seq<Ev>)
    requires IsAck(evs, e) && evs' == evs + [e]
    ensures Paid(evs, evs')
  {
    assert evs'[..|evs'| - 1] == evs;
    StepIsPaid(Run(evs), e);
  }

  lemma PaidOn(a: seq<Ev>, b: seq<Ev>, c: seq<Ev>)
    requires Paid(a, b) && Paid(b, c)
    ensures Paid(a, c)
  {
  }

  lemma {:induction false} AcksArePaid(before: seq<Ev>, acks: seq<Ev>)
    requires OnlyAcks(before, acks)
    ensures Paid(before, before + acks)
    decreases |acks|
  {
    if acks == [] {
      assert before + acks == before;
    } else {
      var init, e := acks[..|acks| - 1], acks[|acks| - 1];
      AcksArePaid(before, init);
      assert before + acks == before + init + [e];
      AckIsPaid(before + init, e, before + acks);
      PaidOn(before, before + init, before + acks);
    }
  }

  /** A client that only acknowledges gets no more responses than there are markings to answer. */
  lemma AcksAreNotAnswered(before: seq<Ev>, acks: seq<Ev>)
    requires OnlyAcks(before, acks)
    ensures Responses(before + acks) + |Flagged(Run(before + acks))| <= Responses(before) + |Flagged(Run(before))|
    ensures Flagged(Run(before)) == {} ==> Responses(before + acks) == Responses(before)
  {
    AcksArePaid(before, acks);
  }

  // ---------------------------------------------------------------------------------------------
  // Nonces and answered additions

  /** The event ends the watch, or starts it afresh. */
  predicate Restarts(s: Simple, e: Ev) {
    && e.Receive? && e.req.errorDetail.None? && !(s.On? && e.req.nonce != "" && e.req.nonce == s.last)
    && (s.Off? || e.req.nonce == "" || (e.req.resourceNames == [] && !IsWildcardTypeURL(e.req.typeUrl)))
  }

  /** The nonce was sent on the watch of this type as it stands, not on an earlier one. */
  predicate SentSince(evs: seq<Ev>, url: string, nonce: string) {
    evs != [] &&
    var init, e := evs[..|evs| - 1], evs[|evs| - 1];
    || (nonce != "" && e == Send(url, nonce))
    || (SentSince(init, url, nonce) && !(UrlOf(e) == url && Restarts(SimpleRun(init, url), e)))
  }

  /** Over every run, the nonces a watch holds as sent and as acknowledged last were sent on that very watch. */
  lemma {:induction false} AckedNoncesWereSent(evs: seq<Ev>, url: string)
    ensures
      var w := At(Run(evs), url);
      w.Some? ==>
        && (w.value.nonceSent == "" || SentSince(evs, url, w.value.nonceSent))
        && (w.value.nonceAcked == "" || SentSince(evs, url, w.value.nonceAcked))
  {
    if evs != [] {
      var init, e := evs[..|evs| - 1], evs[|evs| - 1];
      AckedNoncesWereSent(init, url);
      SubscriptionRefinesSimple(init, url);
      StepAt(Run(init), e, url);
      if UrlOf(e) == url {
        NoncesAfter(At(Run(init), url), e);
      }
    }
  }

  /** A nonce held after an event was held before, on a watch that goes on, or is the one just sent. */
  lemma NoncesAfter(prev: Option<Watch>, e: Ev)
    ensures
      var w := StepWatch(prev, e);
      w.Some? ==>
        && (w.value.nonceSent == "" || (e.Send? && e.nonce == w.value.nonceSent)
            || (prev.Some? && w.value.nonceSent == prev.value.nonceSent && !Restarts(Simplify(prev), e)))
        && (w.value.nonceAcked == ""
            || (prev.Some? && w.value.nonceAcked in {prev.value.nonceAcked, prev.value.nonceSent}
                && !Restarts(Simplify(prev), e)))
  {
    if e.Receive? {
      NamesEmptyIff(e.req);
    }
  }

  /** While a type is watched, every request other than a NACK that adds a name is answered. */
  lemma AdditionsAreAnswered(w: Watch, req: Request)
    requires !IsNack(req) && !(req.Names() <= w.names)
    ensures Responds(Some(w), req)
    ensures Subscribed(Some(w), req) ==
            if req.nonce == "" || (req.nonce == w.nonceSent && w.alwaysRespond) then {} else req.Names() - w.names
    ensures NamesAfter(Some(w), req) == Some(req.Names())
  {
    var n :| n in req.Names() && n !in w.names;
    assert |req.resourceNames| > 0;
  }
}
