/**
The message channel of common/messaging.py: the fields that JsonMessageChannel and OutgoingRequest keep under the
channel lock, and what each `with self:` section does to them, as functions of the old field values.
*/
module Channel {
  import opened Basics

  /** Body of a response: what the other party sent, or the NoMoreMessages error of a response synthesized when
      the stream ended. */
  datatype Response = Received(payload: int) | NoMoreMessages

  /** An entry of the handler queue. The `request` of a response is None when its request_seq matched no sent
      request, so that it belongs to a throw-away OutgoingRequest nobody else can see. */
  datatype Item =
    | EventItem(id: int)
    | RequestItem(id: int)
    | ResponseItem(request: Option<int>, response: Response, handlers: seq<int>)
    | DisconnectItem

  datatype OutgoingRequest = OutgoingRequest(response: Option<Response>, handlers: seq<int>)

  /** A call of Condition.wait() that no notify_all() has reached yet. */
  datatype Sleeper = WorkerSleep(worker: nat) | WaiterSleep(call: nat)

  /** The lock-protected state. `sent` holds the keys of the insertion-ordered dictionary _sent_requests; an
      OutgoingRequest is identified by its sequence number; `worker` is _handler_thread; `asleep` is the waiter
      list of the condition variable _handlers_enqueued. */
  datatype State = State(
    closed: bool,
    nextSeq: int,
    sent: seq<int>,
    requests: map<int, OutgoingRequest>,
    queue: seq<Item>,
    worker: Option<nat>,
    nextWorker: nat,
    asleep: set<Sleeper>)

  function Fresh(): State {
    State(false, 1, [], map[], [], None, 0, {})
  }

  /** _enqueue_handlers: extend the queue, notify_all, and start a handler thread if there is none. */
  function EnqueueHandlers(c: State, items: seq<Item>): State {
    var q := c.queue + items;
    var notified := c.(queue := q, asleep := {});
    if q != [] && c.worker.None? then
      notified.(worker := Some(c.nextWorker), nextWorker := c.nextWorker + 1)
    else
      notified
  }

  /** First lock section of _send_message. */
  function TakeSeq(c: State): State {
    c.(nextSeq := c.nextSeq + 1)
  }

  /** The body of send_request's with-block: a new OutgoingRequest enters _sent_requests before the write. */
  function Register(c: State, seqNo: int, handlers: seq<int>): State {
    c.(requests := c.requests[seqNo := OutgoingRequest(None, handlers)],
       sent := if seqNo in c.sent then c.sent else c.sent + [seqNo])
  }

  /** First lock section of Response._parse. */
  function Pop(c: State, r: int): State {
    c.(sent := Without(c.sent, r))
  }

  /** _enqueue_response_handlers. */
  function EnqueueResponseHandlers(c: State, r: int): State
    requires r in c.requests
  {
    match c.requests[r].response
    case None => c
    case Some(response) =>
      var enqueued := EnqueueHandlers(c, [ResponseItem(Some(r), response, c.requests[r].handlers)]);
      enqueued.(requests := c.requests[r := c.requests[r].(handlers := [])])
  }

  /** Second lock section of Response._parse, for a request that was popped from _sent_requests. */
  function Answer(c: State, r: int, response: Response): State
    requires r in c.requests
  {
    EnqueueResponseHandlers(c.(requests := c.requests[r := c.requests[r].(response := Some(response))]), r)
  }

  /** The same section for a response whose request_seq is unknown. */
  function AnswerUnknown(c: State, response: Response): State {
    EnqueueHandlers(c, [ResponseItem(None, response, [])])
  }

  /** OutgoingRequest.on_response. */
  function OnResponse(c: State, r: int, handler: int): State
    requires r in c.requests
  {
    var request := c.requests[r];
    EnqueueResponseHandlers(c.(requests := c.requests[r := request.(handlers := request.handlers + [handler])]), r)
  }

  /** The loop of _parse_incoming_messages that answers every request of the snapshot with NoMoreMessages. */
  function AnswerAll(c: State, snapshot: seq<int>): State
    requires forall r :: r in snapshot ==> r in c.requests
    decreases |snapshot|
  {
    if snapshot == [] then c else AnswerAll(AnswerNext(c, snapshot[0]), snapshot[1..])
  }

  /** One round of that loop: both sections of Response._parse, under one lock. */
  function AnswerNext(c: State, r: int): (d: State)
    requires r in c.requests
    ensures d.requests.Keys == c.requests.Keys
  {
    Answer(Pop(c, r), r, NoMoreMessages)
  }

  function Close(c: State): State {
    c.(closed := true)
  }

  /** The whole lock section that ends the parser loop: answer what is outstanding, enqueue Disconnect, close. */
  function Shutdown(c: State): State
    requires forall r :: r in c.sent ==> r in c.requests
  {
    Close(EnqueueHandlers(AnswerAll(c, c.sent), [DisconnectItem]))
  }

  /** The tail of the second lock section of _run_handlers, after any wait: take the whole queue, and forget the
      handler thread if it is about to quit. */
  function TakeBatch(c: State, closed: bool): State {
    if closed && c.queue == [] then c.(queue := [], worker := None) else c.(queue := [])
  }

  /** What AnswerAll enqueues: one response per snapshot entry, in _sent_requests order, with its handlers. */
  function ClosingItems(requests: map<int, OutgoingRequest>, snapshot: seq<int>): seq<Item>
    requires forall r :: r in snapshot ==> r in requests
  {
    if snapshot == [] then []
    else
      var r := snapshot[0];
      assert r in snapshot;
      [ResponseItem(Some(r), NoMoreMessages, requests[r].handlers)]
      + ClosingItems(requests, snapshot[1..])
  }

  lemma {:induction false} ClosingItemsFrame(
    a: map<int, OutgoingRequest>, b: map<int, OutgoingRequest>, snapshot: seq<int>)
    requires forall r :: r in snapshot ==> r in a && r in b && a[r] == b[r]
    ensures ClosingItems(a, snapshot) == ClosingItems(b, snapshot)
  {
    if snapshot != [] {
      var r := snapshot[0];
      assert r in snapshot;
      ClosingItemsFrame(a, b, snapshot[1..]);
    }
  }

  lemma {:induction false} AnswerOne(c: State, r: int, rest: seq<int>)
    requires r in c.requests && c.sent == [r] + rest && Distinct(c.sent)
    requires forall q :: q in c.sent ==> q in c.requests
    ensures var d := AnswerNext(c, r);
      && d.sent == rest && Distinct(rest)
      && (forall q :: q in rest ==> q in c.requests && q in d.requests && c.requests[q] == d.requests[q])
      && d.queue == c.queue + [ResponseItem(Some(r), NoMoreMessages, c.requests[r].handlers)]
  {
    assert r !in rest;
  }

  /** Ending the parser loop answers all that is pending and leaves _sent_requests empty, as asserted at the end
      of the loop; the responses are enqueued in the order of _sent_requests, one for each pending request, each
      with the handlers registered so far. */
  lemma {:induction false} AnswerAllInOrder(c: State, snapshot: seq<int>)
    requires c.sent == snapshot && Distinct(snapshot)
    requires forall r :: r in snapshot ==> r in c.requests
    ensures AnswerAll(c, snapshot).sent == []
    ensures AnswerAll(c, snapshot).queue == c.queue + ClosingItems(c.requests, snapshot)
    decreases |snapshot|
  {
    if snapshot != [] {
      var r, rest := snapshot[0], snapshot[1..];
      assert r in snapshot && snapshot == [r] + rest;
      AnswerOne(c, r, rest);
      var d := AnswerNext(c, r);
      AnswerAllInOrder(d, rest);
      ClosingItemsFrame(c.requests, d.requests, rest);
      var first := [ResponseItem(Some(r), NoMoreMessages, c.requests[r].handlers)];
      assert ClosingItems(c.requests, snapshot) == first + ClosingItems(c.requests, rest);
      ConcatAssociative(c.queue, first, ClosingItems(c.requests, rest));
    }
  }
}
