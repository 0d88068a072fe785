/**
JsonMessageChannel as an object: its fields, and a method for each section it runs under its lock, updating the fields
in place in the order of the source. Each method is proved to do what the corresponding function of Channel says.
*/
module ChannelObject {
  import opened Basics
  import C = Channel

  class JsonMessageChannel {
    var closed: bool
    var nextSeq: int
    var sentRequests: seq<int>
    var requests: map<int, C.OutgoingRequest>
    var handlerQueue: seq<C.Item>
    var handlerThread: Option<nat>
    var threadsStarted: nat
    var asleep: set<C.Sleeper>

    ghost function View(): C.State
      reads this
    {
      C.State(closed, nextSeq, sentRequests, requests, handlerQueue, handlerThread, threadsStarted, asleep)
    }

    constructor ()
      ensures View() == C.Fresh()
    {
      closed, nextSeq, sentRequests, requests := false, 1, [], map[];
      handlerQueue, handlerThread, threadsStarted, asleep := [], None, 0, {};
    }

    method Close()
      modifies this
      ensures View() == C.Close(old(View()))
    {
      if !closed {
        closed := true;
      }
    }

    /** _enqueue_handlers. */
    method EnqueueHandlers(items: seq<C.Item>)
      modifies this
      ensures View() == C.EnqueueHandlers(old(View()), items)
    {
      handlerQueue := handlerQueue + items;
      asleep := {};
      if |handlerQueue| > 0 && handlerThread.None? {
        handlerThread := Some(threadsStarted);
        threadsStarted := threadsStarted + 1;
      }
    }

    /** _send_message, first section. */
    method TakeSeq() returns (seqNo: int)
      modifies this
      ensures seqNo == old(nextSeq) && View() == C.TakeSeq(old(View()))
    {
      seqNo := nextSeq;
      nextSeq := nextSeq + 1;
    }

    /** send_request, under the second section of _send_message and before the write. */
    method Register(seqNo: int, handlers: seq<int>)
      modifies this
      ensures View() == C.Register(old(View()), seqNo, handlers)
    {
      requests := requests[seqNo := C.OutgoingRequest(None, handlers)];
      if seqNo !in sentRequests {
        sentRequests := sentRequests + [seqNo];
      }
    }

    /** Response._parse, first section. */
    method PopRequest(r: int) returns (known: bool)
      modifies this
      ensures known == (r in old(sentRequests)) && View() == C.Pop(old(View()), r)
    {
      known := r in sentRequests;
      sentRequests := Without(sentRequests, r);
    }

    /** _enqueue_response_handlers. */
    method EnqueueResponseHandlers(r: int)
      requires r in requests
      modifies this
      ensures View() == C.EnqueueResponseHandlers(old(View()), r)
    {
      var request := requests[r];
      if request.response.Some? {
        EnqueueHandlers([C.ResponseItem(Some(r), request.response.value, request.handlers)]);
        requests := requests[r := request.(handlers := [])];
      }
    }

    /** Response._parse, second section. */
    method Answer(r: int, response: C.Response)
      requires r in requests
      modifies this
      ensures View() == C.Answer(old(View()), r, response)
    {
      requests := requests[r := requests[r].(response := Some(response))];
      EnqueueResponseHandlers(r);
    }

    method OnResponse(r: int, handler: int)
      requires r in requests
      modifies this
      ensures View() == C.OnResponse(old(View()), r, handler)
    {
      requests := requests[r := requests[r].(handlers := requests[r].handlers + [handler])];
      EnqueueResponseHandlers(r);
    }

    /** One round of the loop below. */
    method AnswerNext(r: int)
      requires r in requests
      modifies this
      ensures View() == C.AnswerNext(old(View()), r) && requests.Keys == old(requests.Keys)
    {
      var _ := PopRequest(r);
      Answer(r, C.NoMoreMessages);
    }

    /** The loop of _parse_incoming_messages over its snapshot of the outstanding requests. */
    method AnswerAll(snapshot: seq<int>)
      requires forall r :: r in snapshot ==> r in requests
      modifies this
      ensures View() == C.AnswerAll(old(View()), snapshot)
    {
      ghost var start := View();
      var i := 0;
      while i < |snapshot|
        invariant 0 <= i <= |snapshot|
        invariant requests.Keys == start.requests.Keys
        invariant C.AnswerAll(View(), snapshot[i..]) == C.AnswerAll(start, snapshot)
      {
        assert snapshot[i] in snapshot;
        assert snapshot[i..][1..] == snapshot[i + 1..];
        AnswerNext(snapshot[i]);
        i := i + 1;
      }
    }

    /** The section of _parse_incoming_messages that runs on NoMoreMessages; its assertion that no request is left
        outstanding is the last postcondition. */
    method EndParsing()
      requires Distinct(sentRequests) && forall r :: r in sentRequests ==> r in requests
      modifies this
      ensures View() == C.Shutdown(old(View()))
      ensures sentRequests == []
    {
      C.AnswerAllInOrder(View(), sentRequests);
      AnswerAll(sentRequests);
      EnqueueHandlers([C.DisconnectItem]);
      Close();
    }

    /** _run_handlers, end of the second section. */
    method TakeBatch(wasClosed: bool) returns (batch: seq<C.Item>)
      modifies this
      ensures batch == old(handlerQueue) && View() == C.TakeBatch(old(View()), wasClosed)
    {
      batch := handlerQueue;
      handlerQueue := [];
      if wasClosed && |batch| == 0 {
        handlerThread := None;
      }
    }
  }
}
