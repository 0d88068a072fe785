/** What every step of a channel's threads keeps, and hence what holds in every state of every interleaving. */
module ChannelInvariants {
  import opened Basics
  import opened Channel
  import opened ChannelRuns

  /** Request `r` is in the hands of the parser: popped from _sent_requests, not answered yet. */
  predicate InParser(parser: ParserPc, r: int) {
    parser.Popped? && parser.request == Some(r)
  }

  /** Sequence numbers: each is taken once, and then in flight or used up; no two messages on the wire share one. */
  ghost predicate SeqInv(nextSeq: int, inFlight: set<int>, wire: seq<int>, known: set<int>, returned: set<int>) {
    && (forall n :: n in inFlight ==> n < nextSeq)
    && (forall n :: n in wire ==> n < nextSeq && n !in inFlight)
    && (forall n :: n in known ==> n < nextSeq && n !in inFlight)
    && Distinct(wire)
    && (forall n :: n in returned ==> n in wire)
    && returned <= known
  }

  /** Every registered request is pending, in the parser, or answered, and only one of these. */
  ghost predicate RequestInv(sent: seq<int>, requests: map<int, OutgoingRequest>, parser: ParserPc,
                             closed: bool, returned: set<int>) {
    && Distinct(sent)
    && (forall r :: r in sent ==> r in requests && requests[r].response.None? && !InParser(parser, r))
    && (forall r :: InParser(parser, r) ==> r in requests && requests[r].response.None?)
    && (forall r :: r in requests && requests[r].response.None? ==> r in sent || InParser(parser, r))
    && (parser.Finished? ==> closed && forall r :: r in returned ==> r !in sent)
    && (parser.NotStarted? ==> forall r :: r in requests ==> requests[r].response.None?)
  }

  /** The items that the handler threads have taken but not run yet; WorkerInv makes it those of the only one. */
  function Batch(worker: Option<nat>, workers: map<nat, WorkerPc>): seq<Item> {
    if worker.Some? && worker.value in workers && workers[worker.value].Run? then workers[worker.value].batch else []
  }

  /** A handler thread exists exactly when _handler_thread says so, and never two; one exists whenever the queue is
      not empty; handlers run once each, in enqueue order. */
  ghost predicate WorkerInv(worker: Option<nat>, nextWorker: nat, queue: seq<Item>, workers: map<nat, WorkerPc>,
                            started: bool, enqueued: seq<Item>, executed: seq<Item>) {
    && workers.Keys == (if worker.Some? then {worker.value} else {})
    && (worker.Some? ==> worker.value < nextWorker && started)
    && (queue != [] ==> worker.Some?)
    && enqueued == executed + (Batch(worker, workers) + queue)
  }

  predicate FromOnResponse(item: Item) {
    item.ResponseItem? && item.request.Some?
  }

  /** Disconnect is enqueued once, when the parser finishes; only on_response() enqueues after that. */
  ghost predicate DisconnectInv(finished: bool, at: Option<nat>, enqueued: seq<Item>) {
    && (finished <==> at.Some?)
    && (forall i :: 0 <= i < |enqueued| ==> (enqueued[i] == DisconnectItem <==> at == Some(i)))
    && (at.Some? ==> at.value < |enqueued| && forall i :: at.value < i < |enqueued| ==> FromOnResponse(enqueued[i]))
  }

  /** Which handler threads can be asleep in Condition.wait() without a notification on its way: one that faces an
      empty queue of a channel whose parser has not finished. */
  ghost predicate SleepInv(asleep: set<Sleeper>, workers: map<nat, WorkerPc>, queue: seq<Item>, finished: bool) {
    && (forall t :: WorkerSleep(t) in asleep ==> t in workers && workers[t].Waiting? && queue == [] && !finished)
    && (forall t :: t in workers && workers[t] == Read(false) && finished ==> queue != [])
    && (forall t :: t in workers && workers[t].Waiting? && WorkerSleep(t) !in asleep ==> queue != [])
  }

  /** Which wait_for_response() calls can be: those whose request has no response. */
  ghost predicate WaiterInv(asleep: set<Sleeper>, waiters: map<nat, int>, requests: map<int, OutgoingRequest>) {
    && (forall w :: w in waiters ==> waiters[w] in requests)
    && (forall w :: WaiterSleep(w) in asleep ==> w in waiters && requests[waiters[w]].response.None?)
  }

  /** The handlers that the response items of `log` carry for request `r`, in order. */
  function HandlersFor(log: seq<Item>, r: int): seq<int> {
    if log == [] then []
    else HandlersFor(log[..|log| - 1], r) + HandlersIn(log[|log| - 1], r)
  }

  function HandlersIn(item: Item, r: int): seq<int> {
    if item.ResponseItem? && item.request == Some(r) then item.handlers else []
  }

  /** Each handler given to on_response() is in the queue's history or still held by its request, once, in
      registration order; every response item carries the response its request has. */
  ghost predicate HandlerInv(registered: map<int, seq<int>>, requests: map<int, OutgoingRequest>, enqueued: seq<Item>) {
    && registered.Keys == requests.Keys
    && (forall r :: r in requests ==> registered[r] == HandlersFor(enqueued, r) + requests[r].handlers)
    && (forall r :: r in requests && requests[r].response.Some? ==> requests[r].handlers == [])
    && (forall i :: 0 <= i < |enqueued| ==> CarriesResponse(enqueued[i], requests))
  }

  predicate CarriesResponse(item: Item, requests: map<int, OutgoingRequest>) {
    item.ResponseItem? && item.request.Some? ==>
      item.request.value in requests && requests[item.request.value].response == Some(item.response)
  }

  ghost predicate Inv(s: System) {
    && SeqInv(s.chan.nextSeq, s.inFlight, s.wire, s.chan.requests.Keys, s.returned)
    && RequestInv(s.chan.sent, s.chan.requests, s.parser, s.chan.closed, s.returned)
    && WorkerInv(s.chan.worker, s.chan.nextWorker, s.chan.queue, s.workers, !s.parser.NotStarted?, s.enqueued,
         s.executed)
    && DisconnectInv(s.parser.Finished?, s.disconnectAt, s.enqueued)
    && SleepInv(s.chan.asleep, s.workers, s.chan.queue, s.parser.Finished?)
    && WaiterInv(s.chan.asleep, s.waiters, s.chan.requests)
    && HandlerInv(s.registered, s.chan.requests, s.enqueued)
  }

  lemma {:induction false} InitInv()
    ensures Inv(Init())
  {
  }

  // ---- Sending ----

  lemma {:induction false} TakeSeqKeeps(s: System)
    requires Inv(s)
    ensures Inv(s.(chan := TakeSeq(s.chan), inFlight := s.inFlight + {s.chan.nextSeq}))
  {
  }

  lemma {:induction false} SendMessageKeeps(s: System, n: int, ok: bool)
    requires Inv(s) && n in s.inFlight
    ensures Inv(s.(inFlight := s.inFlight - {n}, wire := if ok then s.wire + [n] else s.wire))
  {
  }

  lemma {:induction false} NoHandlersForUnknown(log: seq<Item>, requests: map<int, OutgoingRequest>, r: int)
    requires forall i :: 0 <= i < |log| ==> CarriesResponse(log[i], requests)
    requires r !in requests
    ensures HandlersFor(log, r) == []
  {
    if log != [] {
      var last := log[|log| - 1];
      assert CarriesResponse(last, requests);
      NoHandlersForUnknown(log[..|log| - 1], requests, r);
    }
  }

  lemma {:induction false} RegisterRequest(
    sent: seq<int>, requests: map<int, OutgoingRequest>, parser: ParserPc, closed: bool,
                        returned: set<int>, n: int, early: seq<int>, ok: bool)
    requires RequestInv(sent, requests, parser, closed, returned) && n !in requests && (ok ==> !closed)
    requires returned <= requests.Keys
    ensures RequestInv(sent + [n], requests[n := OutgoingRequest(None, early)], parser, closed,
                       if ok then returned + {n} else returned)
  {
    DistinctSnoc(sent, n);
  }

  lemma {:induction false} RegisterHandlers(
    registered: map<int, seq<int>>, requests: map<int, OutgoingRequest>, enqueued: seq<Item>,
                         n: int, early: seq<int>)
    requires HandlerInv(registered, requests, enqueued) && n !in requests
    ensures HandlerInv(registered[n := early], requests[n := OutgoingRequest(None, early)], enqueued)
  {
    NoHandlersForUnknown(enqueued, requests, n);
    assert registered[n := early].Keys == requests[n := OutgoingRequest(None, early)].Keys;
  }

  lemma {:induction false} RegisterSeq(
    nextSeq: int, inFlight: set<int>, wire: seq<int>, known: set<int>, returned: set<int>, n: int, ok: bool)
    requires SeqInv(nextSeq, inFlight, wire, known, returned) && n in inFlight
    ensures n !in known && returned <= known
    ensures SeqInv(nextSeq, inFlight - {n}, if ok then wire + [n] else wire, known + {n},
                   if ok then returned + {n} else returned)
  {
    DistinctSnoc(wire, n);
  }

  lemma {:induction false} SendRequestKeeps(s: System, n: int, early: seq<int>, ok: bool)
    requires Inv(s) && n in s.inFlight && (ok ==> !s.chan.closed)
    ensures Inv(SendRequestEffect(s, n, early, ok))
  {
    var c := s.chan;
    RegisterSeq(c.nextSeq, s.inFlight, s.wire, c.requests.Keys, s.returned, n, ok);
    assert c.requests[n := OutgoingRequest(None, early)].Keys == c.requests.Keys + {n};
    RegisterRequest(c.sent, c.requests, s.parser, c.closed, s.returned, n, early, ok);
    RegisterHandlers(s.registered, c.requests, s.enqueued, n, early);
  }

  // ---- Enqueueing ----

  lemma {:induction false} WorkerPush(s: System, c: State, items: seq<Item>, started: bool)
    requires items != [] && started
    requires WorkerInv(s.chan.worker, s.chan.nextWorker, s.chan.queue, s.workers, !s.parser.NotStarted?, s.enqueued,
        s.executed)
    requires var e := EnqueueHandlers(s.chan, items);
      c.queue == e.queue && c.worker == e.worker && c.nextWorker == e.nextWorker
    ensures var e := Absorb(s, c, items);
      WorkerInv(c.worker, c.nextWorker, c.queue, e.workers, started, e.enqueued, e.executed)
  {
    var e := Absorb(s, c, items);
    var batch := Batch(s.chan.worker, s.workers);
    assert Batch(c.worker, e.workers) == batch;
    ConcatAssociative(s.executed, batch + s.chan.queue, items);
    ConcatAssociative(batch, s.chan.queue, items);
  }

  lemma {:induction false} SleepPush(s: System, c: State, items: seq<Item>, finished: bool)
    requires items != [] && c.queue == s.chan.queue + items && c.asleep == {}
    requires SleepInv(s.chan.asleep, s.workers, s.chan.queue, s.parser.Finished?)
    ensures SleepInv(c.asleep, Absorb(s, c, items).workers, c.queue, finished)
  {
  }

  lemma {:induction false} DisconnectPush(finished: bool, at: Option<nat>, enqueued: seq<Item>, item: Item)
    requires DisconnectInv(finished, at, enqueued)
    requires item != DisconnectItem && (finished ==> FromOnResponse(item))
    ensures DisconnectInv(finished, at, enqueued + [item])
  {
  }

  lemma {:induction false} HandlersForSnoc(log: seq<Item>, item: Item, r: int)
    ensures HandlersFor(log + [item], r) == HandlersFor(log, r) + HandlersIn(item, r)
  {
    assert (log + [item])[..|log|] == log;
  }

  /** Enqueueing an item that is not a response of a known request. */
  lemma {:induction false} HandlerPushOther(
    registered: map<int, seq<int>>, requests: map<int, OutgoingRequest>, enqueued: seq<Item>, item: Item)
    requires HandlerInv(registered, requests, enqueued) && !FromOnResponse(item)
    ensures HandlerInv(registered, requests, enqueued + [item])
  {
    forall r | r in requests ensures registered[r] == HandlersFor(enqueued + [item], r) + requests[r].handlers {
      HandlersForSnoc(enqueued, item, r);
      assert HandlersFor(enqueued, r) + [] == HandlersFor(enqueued, r);
    }
    forall i | 0 <= i < |enqueued + [item]| ensures CarriesResponse((enqueued + [item])[i], requests) {
      assert i < |enqueued| ==> CarriesResponse(enqueued[i], requests);
    }
  }

  /** A request's handlers move to the queue's history, those of `more` with them. */
  lemma {:induction false} HandlersMove(
    registered: map<int, seq<int>>, requests: map<int, OutgoingRequest>, enqueued: seq<Item>,
                     r: int, response: Response, more: seq<int>, q: int)
    requires registered.Keys == requests.Keys && r in requests && q in requests
    requires registered[q] == HandlersFor(enqueued, q) + requests[q].handlers
    ensures var item := ResponseItem(Some(r), response, requests[r].handlers + more);
      registered[r := registered[r] + more][q]
      == HandlersFor(enqueued + [item], q) + requests[r := OutgoingRequest(Some(response), [])][q].handlers
  {
    var item := ResponseItem(Some(r), response, requests[r].handlers + more);
    HandlersForSnoc(enqueued, item, q);
    if q == r {
      ConcatAssociative(HandlersFor(enqueued, q), requests[r].handlers, more);
      assert HandlersFor(enqueued + [item], q) + [] == HandlersFor(enqueued + [item], q);
    } else {
      assert HandlersFor(enqueued, q) + [] == HandlersFor(enqueued, q);
    }
  }

  lemma {:induction false} ResponsesCarried(
    requests: map<int, OutgoingRequest>, enqueued: seq<Item>, item: Item, r: int, request: OutgoingRequest)
    requires forall i :: 0 <= i < |enqueued| ==> CarriesResponse(enqueued[i], requests)
    requires r in requests && item.ResponseItem? && item.request == Some(r) && request.response == Some(item.response)
    requires requests[r].response.None? || requests[r].response == Some(item.response)
    ensures var log := enqueued + [item];
      forall i :: 0 <= i < |log| ==> CarriesResponse(log[i], requests[r := request])
  {
    var log := enqueued + [item];
    forall i | 0 <= i < |log| ensures CarriesResponse(log[i], requests[r := request]) {
      if i < |enqueued| {
        assert CarriesResponse(enqueued[i], requests);
      }
    }
  }

  /** Enqueueing all the handlers that a request holds, those of `more` included, with its response. */
  lemma {:induction false} HandlerPushResponse(
    registered: map<int, seq<int>>, requests: map<int, OutgoingRequest>, enqueued: seq<Item>,
                            r: int, response: Response, more: seq<int>)
    requires HandlerInv(registered, requests, enqueued) && r in requests
    requires requests[r].response.None? || requests[r].response == Some(response)
    ensures HandlerInv(registered[r := registered[r] + more], requests[r := OutgoingRequest(Some(response), [])],
                       enqueued + [ResponseItem(Some(r), response, requests[r].handlers + more)])
  {
    var item := ResponseItem(Some(r), response, requests[r].handlers + more);
    var registered' := registered[r := registered[r] + more];
    var requests' := requests[r := OutgoingRequest(Some(response), [])];
    assert registered'.Keys == requests'.Keys;
    forall q | q in requests' ensures registered'[q] == HandlersFor(enqueued + [item], q) + requests'[q].handlers {
      HandlersMove(registered, requests, enqueued, r, response, more, q);
    }
    ResponsesCarried(requests, enqueued, item, r, OutgoingRequest(Some(response), []));
  }

  lemma {:induction false} ParseMessageKeeps(s: System, item: Item)
    requires Inv(s) && s.parser.Reading? && (item.EventItem? || item.RequestItem?)
    ensures Inv(Absorb(s, EnqueueHandlers(s.chan, [item]), [item]))
  {
    var c := EnqueueHandlers(s.chan, [item]);
    WorkerPush(s, c, [item], true);
    SleepPush(s, c, [item], false);
    DisconnectPush(false, s.disconnectAt, s.enqueued, item);
    HandlerPushOther(s.registered, s.chan.requests, s.enqueued, item);
  }

  // ---- Parsing responses ----

  lemma {:induction false} PopKeeps(s: System, r: int, response: Response)
    requires Inv(s) && s.parser.Reading?
    ensures Inv(PopEffect(s, r, response))
  {
    WithoutDistinct(s.chan.sent, r);
  }

  lemma {:induction false} RequestAnswer(
    sent: seq<int>, requests: map<int, OutgoingRequest>, parser: ParserPc, closed: bool,
                      returned: set<int>, r: int, response: Response)
    requires RequestInv(sent, requests, parser, closed, returned) && InParser(parser, r)
    ensures r in requests && requests[r].response.None?
    ensures RequestInv(sent, requests[r := OutgoingRequest(Some(response), [])], Reading, closed, returned)
  {
  }

  lemma {:induction false} HandlerAnswer(
    registered: map<int, seq<int>>, requests: map<int, OutgoingRequest>, enqueued: seq<Item>,
                      r: int, response: Response)
    requires HandlerInv(registered, requests, enqueued) && r in requests && requests[r].response.None?
    ensures HandlerInv(registered, requests[r := OutgoingRequest(Some(response), [])],
                       enqueued + [ResponseItem(Some(r), response, requests[r].handlers)])
  {
    HandlerPushResponse(registered, requests, enqueued, r, response, []);
    assert r in registered.Keys;
    assert registered[r] + [] == registered[r] && requests[r].handlers + [] == requests[r].handlers;
    assert registered[r := registered[r]] == registered;
  }

  lemma {:induction false} AnswerKnownKeeps(s: System, r: int)
    requires Inv(s) && s.parser.Popped? && s.parser.request == Some(r) && r in s.chan.requests
    ensures var e := AnswerEffect(s);
      Inv(e) && e.parser.Reading? && e.chan.sent == s.chan.sent && e.chan.requests.Keys == s.chan.requests.Keys
  {
    var c, response := s.chan, s.parser.response;
    RequestAnswer(c.sent, c.requests, s.parser, c.closed, s.returned, r, response);
    var request := c.requests[r];
    var item := ResponseItem(Some(r), response, request.handlers);
    var d := Answer(c, r, response);
    assert d.requests == c.requests[r := OutgoingRequest(Some(response), [])];
    assert d.requests.Keys == c.requests.Keys;
    WorkerPush(s, d, [item], true);
    SleepPush(s, d, [item], false);
    DisconnectPush(false, s.disconnectAt, s.enqueued, item);
    HandlerAnswer(s.registered, c.requests, s.enqueued, r, response);
  }

  lemma {:induction false} AnswerUnknownKeeps(s: System)
    requires Inv(s) && s.parser.Popped? && s.parser.request.None?
    ensures Inv(AnswerEffect(s))
  {
    var item := ResponseItem(None, s.parser.response, []);
    var d := AnswerUnknown(s.chan, s.parser.response);
    WorkerPush(s, d, [item], true);
    SleepPush(s, d, [item], false);
    DisconnectPush(false, s.disconnectAt, s.enqueued, item);
    HandlerPushOther(s.registered, s.chan.requests, s.enqueued, item);
  }

  // ---- The end of the parser ----

  lemma {:induction false} DrainOne(s: System, r: int, rest: seq<int>)
    requires Inv(s) && s.parser.Reading? && s.chan.sent == [r] + rest && r in s.chan.requests
    ensures var e := AnswerEffect(PopEffect(s, r, NoMoreMessages));
      Inv(e) && e.parser.Reading? && e.chan.sent == rest && e.chan.requests.Keys == s.chan.requests.Keys
  {
    var p := PopEffect(s, r, NoMoreMessages);
    assert p.chan.sent == rest && p.parser == Popped(Some(r), NoMoreMessages);
    PopKeeps(s, r, NoMoreMessages);
    AnswerKnownKeeps(p, r);
  }

  lemma {:induction false} DrainKeeps(s: System, snapshot: seq<int>)
    requires Inv(s) && s.parser.Reading? && s.chan.sent == snapshot
    requires forall r :: r in snapshot ==> r in s.chan.requests
    ensures var e := DrainEffect(s, snapshot); Inv(e) && e.parser.Reading? && e.chan.sent == []
    decreases |snapshot|
  {
    if snapshot != [] {
      var r, rest := snapshot[0], snapshot[1..];
      assert snapshot == [r] + rest && r in snapshot;
      DrainOne(s, r, rest);
      var d := AnswerEffect(PopEffect(s, r, NoMoreMessages));
      assert forall q :: q in rest ==> q in s.chan.requests.Keys;
      DrainKeeps(d, rest);
    }
  }

  lemma {:induction false} DisconnectAppears(enqueued: seq<Item>)
    requires DisconnectInv(false, None, enqueued)
    ensures DisconnectInv(true, Some(|enqueued|), enqueued + [DisconnectItem])
  {
  }

  lemma {:induction false} DisconnectKeeps(s: System)
    requires Inv(s) && s.parser.Reading? && s.chan.sent == []
    ensures Inv(DisconnectEffect(s))
  {
    var c := Close(EnqueueHandlers(s.chan, [DisconnectItem]));
    WorkerPush(s, c, [DisconnectItem], true);
    SleepPush(s, c, [DisconnectItem], true);
    HandlerPushOther(s.registered, s.chan.requests, s.enqueued, DisconnectItem);
    DisconnectAppears(s.enqueued);
    assert RequestInv([], s.chan.requests, Finished, true, s.returned);
  }

  lemma {:induction false} DieKeeps(s: System)
    requires Inv(s) && s.parser.Reading?
    ensures Inv(s.(parser := Died))
  {
  }

  lemma {:induction false} StartKeeps(s: System)
    requires Inv(s) && s.parser.NotStarted?
    ensures Inv(s.(parser := Reading))
  {
  }

  lemma {:induction false} CloseKeeps(s: System)
    requires Inv(s)
    ensures Inv(s.(chan := Close(s.chan)))
  {
  }

  // ---- Waiting for responses ----

  lemma {:induction false} HandlerHold(
    registered: map<int, seq<int>>, requests: map<int, OutgoingRequest>, enqueued: seq<Item>, r: int, h: int)
    requires HandlerInv(registered, requests, enqueued) && r in requests && requests[r].response.None?
    ensures r in registered
    ensures HandlerInv(registered[r := registered[r] + [h]],
                       requests[r := requests[r].(handlers := requests[r].handlers + [h])], enqueued)
  {
    assert r in registered.Keys;
    var requests' := requests[r := requests[r].(handlers := requests[r].handlers + [h])];
    assert registered[r := registered[r] + [h]].Keys == requests'.Keys;
    ConcatAssociative(HandlersFor(enqueued, r), requests[r].handlers, [h]);
    forall i | 0 <= i < |enqueued| ensures CarriesResponse(enqueued[i], requests') {
      assert CarriesResponse(enqueued[i], requests);
    }
  }

  lemma {:induction false} OnResponseEarlyKeeps(s: System, r: int, h: int)
    requires Inv(s) && r in s.chan.requests && r in s.registered && s.chan.requests[r].response.None?
    ensures Inv(OnResponseEffect(s, r, h))
  {
    var c := s.chan;
    HandlerHold(s.registered, c.requests, s.enqueued, r, h);
    var request := c.requests[r].(handlers := c.requests[r].handlers + [h]);
    assert c.requests[r := request].Keys == c.requests.Keys;
    assert s.enqueued + [] == s.enqueued;
    RequestHold(c.sent, c.requests, s.parser, c.closed, s.returned, r, request);
    WaiterHold(c.asleep, s.waiters, c.requests, r, request);
  }

  lemma {:induction false} RequestHold(
    sent: seq<int>, requests: map<int, OutgoingRequest>, parser: ParserPc, closed: bool, returned: set<int>,
    r: int, request: OutgoingRequest)
    requires RequestInv(sent, requests, parser, closed, returned)
    requires r in requests && request.response == requests[r].response
    ensures RequestInv(sent, requests[r := request], parser, closed, returned)
  {
  }

  lemma {:induction false} WaiterHold(
    asleep: set<Sleeper>, waiters: map<nat, int>, requests: map<int, OutgoingRequest>, r: int, request: OutgoingRequest)
    requires WaiterInv(asleep, waiters, requests) && r in requests && request.response == requests[r].response
    ensures WaiterInv(asleep, waiters, requests[r := request])
  {
  }

  lemma {:induction false} OnResponseLateKeeps(s: System, r: int, h: int)
    requires Inv(s) && r in s.chan.requests && r in s.registered && s.chan.requests[r].response.Some?
    ensures Inv(OnResponseEffect(s, r, h))
  {
    var c, request := s.chan, s.chan.requests[r];
    var item := ResponseItem(Some(r), request.response.value, request.handlers + [h]);
    var d := OnResponse(c, r, h);
    assert d.requests == c.requests[r := OutgoingRequest(request.response, [])];
    assert d.requests == c.requests;
    WorkerPush(s, d, [item], true);
    SleepPush(s, d, [item], s.parser.Finished?);
    DisconnectPush(s.parser.Finished?, s.disconnectAt, s.enqueued, item);
    HandlerPushResponse(s.registered, c.requests, s.enqueued, r, request.response.value, [h]);
  }

  lemma {:induction false} WaiterSleeps(
    asleep: set<Sleeper>, waiters: map<nat, int>, requests: map<int, OutgoingRequest>, w: nat, r: int)
    requires WaiterInv(asleep, waiters, requests) && r in requests
    requires (w in waiters ==> waiters[w] == r) && WaiterSleep(w) !in asleep
    ensures WaiterInv(asleep, waiters - {w}, requests)
    ensures requests[r].response.None? ==> WaiterInv(asleep + {WaiterSleep(w)}, waiters[w := r], requests)
  {
  }

  lemma {:induction false} SleepFrame(
    asleep: set<Sleeper>, workers: map<nat, WorkerPc>, queue: seq<Item>, finished: bool, w: nat)
    requires SleepInv(asleep, workers, queue, finished)
    ensures SleepInv(asleep + {WaiterSleep(w)}, workers, queue, finished)
  {
  }

  lemma {:induction false} WaitKeeps(s: System, w: nat, r: int)
    requires Inv(s) && r in s.chan.requests && (w in s.waiters ==> s.waiters[w] == r)
    requires WaiterSleep(w) !in s.chan.asleep
    ensures Inv(WaitEffect(s, w, r))
  {
    WaiterSleeps(s.chan.asleep, s.waiters, s.chan.requests, w, r);
    SleepFrame(s.chan.asleep, s.workers, s.chan.queue, s.parser.Finished?, w);
  }

  // ---- The handler thread ----

  lemma {:induction false} ReadKeeps(s: System, t: nat)
    requires Inv(s) && t in s.workers && s.workers[t].Top?
    ensures Inv(s.(workers := s.workers[t := Read(s.chan.closed)]))
  {
  }

  lemma {:induction false} SleepKeeps(s: System, t: nat)
    requires Inv(s) && t in s.workers && s.workers[t] == Read(false) && s.chan.queue == []
    ensures Inv(SleepEffect(s, t))
  {
  }

  lemma {:induction false} TakeKeeps(s: System, t: nat, closed: bool)
    requires Inv(s) && t in s.workers && !s.workers[t].Run?
    requires s.workers[t].Waiting? ==> WorkerSleep(t) !in s.chan.asleep
    ensures Inv(TakeEffect(s, t, closed))
  {
  }

  lemma {:induction false} WorkerAdvances(
    worker: Option<nat>, nextWorker: nat, queue: seq<Item>, workers: map<nat, WorkerPc>,
                       enqueued: seq<Item>, executed: seq<Item>, t: nat)
    requires WorkerInv(worker, nextWorker, queue, workers, true, enqueued, executed)
    requires t in workers && workers[t].Run? && workers[t].batch != []
    ensures var pc := workers[t];
      WorkerInv(worker, nextWorker, queue, workers[t := pc.(batch := pc.batch[1..])], true, enqueued,
                executed + [pc.batch[0]])
  {
    var batch := workers[t].batch;
    assert batch == [batch[0]] + batch[1..];
    assert t in workers.Keys && worker == Some(t);
    ConcatAssociative(executed, [batch[0]], batch[1..] + queue);
    ConcatAssociative([batch[0]], batch[1..], queue);
  }

  lemma {:induction false} RunKeeps(s: System, t: nat)
    requires Inv(s) && t in s.workers && s.workers[t].Run?
    ensures Inv(RunEffect(s, t))
  {
    if s.workers[t].batch != [] {
      WorkerAdvances(s.chan.worker, s.chan.nextWorker, s.chan.queue, s.workers, s.enqueued, s.executed, t);
    }
  }

  // ---- All steps ----

  lemma {:induction false} ParseKeeps(s: System, step: Step)
    requires Inv(s) && Enabled(s, step)
    requires step.ParseMessage? || step.ParsePop? || step.ParseAnswer? || step.ParseEnd? || step.ParseDie?
    ensures Inv(Apply(s, step))
  {
    match step
    case ParseMessage(item) => ParseMessageKeeps(s, item);
    case ParsePop(r, response) => PopKeeps(s, r, response);
    case ParseAnswer =>
      if s.parser.request.Some? {
        AnswerKnownKeeps(s, s.parser.request.value);
      } else {
        AnswerUnknownKeeps(s);
      }
    case ParseEnd =>
      DrainKeeps(s, s.chan.sent);
      DisconnectKeeps(DrainEffect(s, s.chan.sent));
    case ParseDie => DieKeeps(s);
  }

  lemma {:induction false} WorkerKeeps(s: System, step: Step)
    requires Inv(s) && Enabled(s, step)
    requires step.WorkerRead? || step.WorkerTake? || step.WorkerWake? || step.WorkerRun?
    ensures Inv(Apply(s, step))
  {
    match step
    case WorkerRead(t) => ReadKeeps(s, t);
    case WorkerTake(t) =>
      if !s.workers[t].closed && s.chan.queue == [] {
        SleepKeeps(s, t);
      } else {
        TakeKeeps(s, t, s.workers[t].closed);
      }
    case WorkerWake(t) => TakeKeeps(s, t, false);
    case WorkerRun(t) => RunKeeps(s, t);
  }

  /** Every step of every thread keeps the invariant. */
  lemma {:induction false} StepKeeps(s: System, step: Step)
    requires Inv(s) && Enabled(s, step)
    ensures Inv(Apply(s, step))
  {
    match step
    case StartParser => StartKeeps(s);
    case TakeSeqStep => TakeSeqKeeps(s);
    case SendMessage(n, ok) => SendMessageKeeps(s, n, ok);
    case SendRequest(n, early, ok) => SendRequestKeeps(s, n, early, ok);
    case CloseStep => CloseKeeps(s);
    case OnResponseStep(r, h) =>
      if s.chan.requests[r].response.None? {
        OnResponseEarlyKeeps(s, r, h);
      } else {
        OnResponseLateKeeps(s, r, h);
      }
    case WaitBegin(w, r) => WaitKeeps(s, w, r);
    case WaitAgain(w) => WaitKeeps(s, w, s.waiters[w]);
    case WorkerRead(_) => WorkerKeeps(s, step);
    case WorkerTake(_) => WorkerKeeps(s, step);
    case WorkerWake(_) => WorkerKeeps(s, step);
    case WorkerRun(_) => WorkerKeeps(s, step);
    case _ => ParseKeeps(s, step);
  }

  /** Every state of every interleaving satisfies the invariant. */
  lemma {:induction false} InvHolds(states: seq<System>, steps: seq<Step>, i: nat)
    requires Behavior(states, steps) && i < |states|
    ensures Inv(states[i])
    decreases i
  {
    if i == 0 {
      InitInv();
    } else {
      InvHolds(states, steps, i - 1);
      StepKeeps(states[i - 1], steps[i - 1]);
    }
  }
}
