/**
How an incoming request is answered, in messaging.py: Request.respond, Request._handle, Message.error, and the errors
that travel through delegating adapters as the text of failure responses.
*/
module RequestHandling {
  import opened Basics

  const PREFIX := "Invalid message: "

  /** A MessageHandlingError, or an InvalidMessageError if `invalid`. `cause` is the message it is about. */
  datatype Error = Error(invalid: bool, reason: string, cause: Option<int>)

  /** str(): the "message" property of a failure response. */
  function Print(e: Error): string {
    if e.invalid then PREFIX + e.reason else e.reason
  }

  /** The error that Response._parse makes of that property, for a response to `request`. */
  function Parse(text: string, request: int): Error {
    if PREFIX <= text then Error(true, text[|PREFIX|..], Some(request)) else Error(false, text, Some(request))
  }

  predicate AppliesTo(e: Error, message: int) {
    e.cause == None || e.cause == Some(message)
  }

  /** propagate */
  function Propagate(e: Error, newCause: int): Error {
    Error(e.invalid, e.reason, Some(newCause))
  }

  /** What a handler may raise, through the wrapper that Component.message_handler puts around it. */
  function Wrapped(e: Error, message: int): Error {
    if e.cause == Some(message) then e else Propagate(e, message)
  }

  /** A response body; `ref` is the identity of the object. */
  datatype Value = Body(ref: int) | Failure(ref: int, error: Error)

  /** What becomes of the write of a message. */
  datatype Io = Sent | Closed | Broken

  /** The handler calls respond(), or isnt_valid() or cant_handle() which call it, or someone it called does;
      `caught` says that an exception of respond() does not escape the handler. */
  datatype Attempt = Attempt(value: Value, io: Io, caught: bool)

  datatype Finish =
    | ReturnNone
    | ReturnNoResponse
    | Return(value: Value)
    | RaiseHandling(ref: int, error: Error)
    | RaiseOther

  /** `response` is the field of the request, `sent` what was written in answer to it. */
  datatype Answering = Answering(response: Option<Value>, sent: seq<Value>)

  /** respond(): asserts that there is no response, writes, and then sets the field. */
  function Respond(a: Answering, v: Value, io: Io): Answering {
    if a.response.None? && io.Sent? then Answering(Some(v), a.sent + [v]) else a
  }

  predicate Responds(a: Answering, io: Io) {
    a.response.None? && io.Sent?
  }

  /** The state after the handler's attempts, and whether an exception of respond() escaped it. */
  function RunAttempts(a: Answering, attempts: seq<Attempt>): (Answering, bool)
    decreases |attempts|
  {
    if attempts == [] then (a, false)
    else if Responds(a, attempts[0].io) || attempts[0].caught
    then RunAttempts(Respond(a, attempts[0].value, attempts[0].io), attempts[1..])
    else (a, true)
  }

  /** What `result` is when the handler is left: nothing if an exception goes on. */
  function Outcome(id: int, finish: Finish): Option<Finish> {
    match finish
    case RaiseOther => None
    case RaiseHandling(ref, e) => if AppliesTo(e, id) then Some(Return(Failure(ref, e))) else None
    case _ => Some(finish)
  }

  /** The part of _handle after the handler; `io` is the fate of the final response. */
  function Conclude(a: Answering, result: Finish, io: Io): (Answering, bool) {
    if result.ReturnNoResponse? then (a, a.response.Some?)
    else if a.response.Some? then (a, !(result.ReturnNone? || (result.Return? && result.value == a.response.value)))
    else if !result.Return? then (a, true)
    else (Respond(a, result.value, io), io.Broken?)
  }

  /** _handle: the final state, and whether it raises. */
  function Handle(id: int, attempts: seq<Attempt>, finish: Finish, io: Io): (Answering, bool) {
    var (a, escaped) := RunAttempts(Answering(None, []), attempts);
    var result := Outcome(id, finish);
    if escaped || result.None? then (a, true) else Conclude(a, result.value, io)
  }

  /** The request, with the statements in their order. */
  class IncomingRequest {
    const id: int
    var response: Option<Value>
    var sent: seq<Value>

    ghost function View(): Answering
      reads this
    {
      Answering(response, sent)
    }

    constructor (id: int)
      ensures this.id == id && View() == Answering(None, [])
    {
      this.id := id;
      response, sent := None, [];
    }

    method Reply(v: Value, io: Io) returns (raised: bool)
      modifies this
      ensures View() == Respond(old(View()), v, io)
      ensures raised == !Responds(old(View()), io)
    {
      if response.Some? || !io.Sent? {
        return true;
      }
      sent := sent + [v];
      response := Some(v);
      return false;
    }

    method CallHandler(attempts: seq<Attempt>) returns (escaped: bool)
      modifies this
      ensures (View(), escaped) == RunAttempts(old(View()), attempts)
    {
      var rest := attempts;
      while rest != []
        invariant RunAttempts(View(), rest) == RunAttempts(old(View()), attempts)
        decreases |rest|
      {
        var raised := Reply(rest[0].value, rest[0].io);
        if raised && !rest[0].caught {
          return true;
        }
        rest := rest[1..];
      }
      return false;
    }

    method HandleRequest(attempts: seq<Attempt>, finish: Finish, io: Io) returns (raised: bool)
      requires View() == Answering(None, [])
      modifies this
      ensures (View(), raised) == Handle(id, attempts, finish, io)
    {
      var escaped := CallHandler(attempts);
      if escaped || finish.RaiseOther? {
        return true;
      }
      var result := finish;
      if finish.RaiseHandling? {
        if !AppliesTo(finish.error, id) {
          return true;
        }
        result := Return(Failure(finish.ref, finish.error));
      }
      if result.ReturnNoResponse? {
        return response.Some?;
      }
      if response.Some? {
        return !(result.ReturnNone? || (result.Return? && result.value == response.value));
      }
      if !result.Return? {
        return true;
      }
      raised := Reply(result.value, io);
      raised := raised && !io.Closed?;
    }
  }

  // ---- Theorems ----

  /** The field and the wire agree, and there is at most one answer. */
  ghost predicate Consistent(a: Answering) {
    a == Answering(None, []) || (a.response.Some? && a.sent == [a.response.value])
  }

  lemma {:induction false} AttemptsConsistent(a: Answering, attempts: seq<Attempt>)
    requires Consistent(a)
    ensures Consistent(RunAttempts(a, attempts).0)
    ensures a.response.Some? ==> RunAttempts(a, attempts).0 == a
    decreases |attempts|
  {
    if attempts != [] && (Responds(a, attempts[0].io) || attempts[0].caught) {
      AttemptsConsistent(Respond(a, attempts[0].value, attempts[0].io), attempts[1..]);
    }
  }

  /** Whatever the handler does, the request is answered at most once. If _handle returns normally, it was answered
      exactly once, or the handler deferred the answer, or the channel was closed before the answer could be sent. */
  lemma {:induction false} AnsweredAtMostOnce(id: int, attempts: seq<Attempt>, finish: Finish, io: Io)
    ensures var (a, raised) := Handle(id, attempts, finish, io);
            && |a.sent| <= 1
            && (a.response == if a.sent == [] then None else Some(a.sent[0]))
            && (!raised && finish.ReturnNoResponse? ==> a.sent == [])
            && (!raised && !finish.ReturnNoResponse? ==> |a.sent| == 1 || io.Closed?)
  {
    AttemptsConsistent(Answering(None, []), attempts);
  }

  /** The index of the first attempt whose write goes through, or the number of attempts. */
  function FirstSent(attempts: seq<Attempt>): (k: nat)
    ensures k <= |attempts|
    ensures forall i :: 0 <= i < k ==> !attempts[i].io.Sent?
    ensures k < |attempts| ==> attempts[k].io.Sent?
  {
    if attempts == [] || attempts[0].io.Sent? then 0 else 1 + FirstSent(attempts[1..])
  }

  /** An exception of respond() escapes the handler: a write that failed, or a second answer, was not caught. */
  ghost predicate Escapes(attempts: seq<Attempt>) {
    exists i :: 0 <= i < |attempts| && i != FirstSent(attempts) && !attempts[i].caught
  }

  /** Once answered, every further attempt raises. */
  lemma {:induction false} AnsweredAttempts(a: Answering, attempts: seq<Attempt>)
    requires a.response.Some?
    ensures RunAttempts(a, attempts) == (a, exists i :: 0 <= i < |attempts| && !attempts[i].caught)
  {
    if attempts != [] && attempts[0].caught {
      AnsweredAttempts(a, attempts[1..]);
      assert forall i :: 0 < i < |attempts| ==> attempts[i] == attempts[1..][i - 1];
      if i :| 0 <= i < |attempts| && !attempts[i].caught {
        assert attempts[1..][i - 1] == attempts[i];
      }
    }
  }

  lemma {:induction false} FreshAttempts(attempts: seq<Attempt>)
    ensures RunAttempts(Answering(None, []), attempts).1 == Escapes(attempts)
    ensures !Escapes(attempts) ==>
              RunAttempts(Answering(None, []), attempts).0.response
              == if FirstSent(attempts) < |attempts| then Some(attempts[FirstSent(attempts)].value) else None
  {
    if attempts != [] {
      var rest := attempts[1..];
      var first := attempts[0];
      assert forall i :: 0 < i < |attempts| ==> attempts[i] == rest[i - 1];
      assert forall i :: 0 <= i < |rest| ==> rest[i] == attempts[i + 1];
      if first.io.Sent? {
        assert Respond(Answering(None, []), first.value, Sent) == Answering(Some(first.value), [first.value]);
        AnsweredAttempts(Answering(Some(first.value), [first.value]), rest);
        assert FirstSent(attempts) == 0;
        assert Escapes(attempts) <==> exists i :: 0 <= i < |rest| && !rest[i].caught;
      } else if first.caught {
        FreshAttempts(rest);
        assert FirstSent(attempts) == 1 + FirstSent(rest);
        assert Escapes(attempts) <==> Escapes(rest);
      } else {
        assert Escapes(attempts);
      }
    }
  }

  /** Exactly when _handle raises, in terms of what the handler does. The handler has answered by itself if one of its
      writes went through. */
  lemma {:induction false} RaisesExactlyWhen(id: int, attempts: seq<Attempt>, finish: Finish, io: Io)
    ensures var k := FirstSent(attempts);
            var answered := k < |attempts|;
            var result := Outcome(id, finish);
            Handle(id, attempts, finish, io).1 <==>
              || Escapes(attempts)
              || result.None?
              || (answered && result.value != ReturnNone && result.value != Return(attempts[k].value))
              || (!answered && result.value == ReturnNone)
              || (!answered && result.value.Return? && io.Broken?)
  {
    FreshAttempts(attempts);
  }

  /** An exception escapes before any write has gone through. */
  ghost predicate EscapesUnanswered(attempts: seq<Attempt>) {
    exists i :: 0 <= i < FirstSent(attempts) && !attempts[i].caught
  }

  lemma {:induction false} AttemptsSend(attempts: seq<Attempt>)
    ensures RunAttempts(Answering(None, []), attempts).0.sent
            == if FirstSent(attempts) < |attempts| && !EscapesUnanswered(attempts)
               then [attempts[FirstSent(attempts)].value] else []
  {
    if attempts != [] {
      var rest, first := attempts[1..], attempts[0];
      assert forall i :: 0 < i < |attempts| ==> attempts[i] == rest[i - 1];
      assert forall i :: 0 <= i < |rest| ==> rest[i] == attempts[i + 1];
      if first.io.Sent? {
        assert Respond(Answering(None, []), first.value, Sent) == Answering(Some(first.value), [first.value]);
        AttemptsConsistent(Answering(Some(first.value), [first.value]), rest);
      } else if first.caught {
        AttemptsSend(rest);
        assert EscapesUnanswered(attempts) <==> EscapesUnanswered(rest);
      } else {
        assert EscapesUnanswered(attempts);
      }
    }
  }

  /** What the handler leaves as an answer: the value it returns, or an error it raises that is about this request or
      about none. */
  function Answer(id: int, finish: Finish): Option<Value> {
    match finish
    case Return(v) => Some(v)
    case RaiseHandling(ref, e) =>
      if e.cause.Some? && e.cause.value != id then None else Some(Failure(ref, e))
    case _ => None
  }

  /** Exactly what is sent. The value of the handler's first attempt that gets through, whatever comes after it;
      otherwise, if no exception of respond() escaped, what the handler leaves as an answer, if that gets through; and
      nothing in all other cases. */
  lemma {:induction false} SendsExactly(id: int, attempts: seq<Attempt>, finish: Finish, io: Io)
    ensures var (a, _) := Handle(id, attempts, finish, io);
            var k := FirstSent(attempts);
            && a.sent == (if k < |attempts| && !EscapesUnanswered(attempts) then [attempts[k].value]
                          else if k == |attempts| && !Escapes(attempts) && Answer(id, finish).Some? && io.Sent?
                          then [Answer(id, finish).value]
                          else [])
            && a.response == (if a.sent == [] then None else Some(a.sent[0]))
  {
    AttemptsSend(attempts);
    FreshAttempts(attempts);
    AttemptsConsistent(Answering(None, []), attempts);
    if FirstSent(attempts) == |attempts| && !Escapes(attempts) && Answer(id, finish).Some? {
      assert [] + [Answer(id, finish).value] == [Answer(id, finish).value];
    }
  }

  /** An error about another message is not taken for this request's: it goes on as an exception, and nothing is sent
      for it. */
  lemma {:induction false} ForeignErrorRaises(id: int, ref: int, e: Error, io: Io)
    requires e.cause.Some? && e.cause.value != id
    ensures Handle(id, [], RaiseHandling(ref, e), io) == (Answering(None, []), true)
  {
  }

  /** An error raised through the wrapper of a component's handler keeps its class and reason and always applies to the
      request. So, whatever the handler did before: if no exception of respond() escaped it, an unanswered request is
      answered with this error, provided that the write succeeds, and without an exception unless the write breaks; one
      that was answered keeps its answer, and _handle raises exactly if that was not this very error. */
  lemma {:induction false} WrappedErrorAnswers(id: int, attempts: seq<Attempt>, ref: int, e: Error, io: Io)
    requires !Escapes(attempts)
    ensures var w := Wrapped(e, id);
            var v, k := Failure(ref, w), FirstSent(attempts);
            var (a, raised) := Handle(id, attempts, RaiseHandling(ref, w), io);
            && w.invalid == e.invalid && w.reason == e.reason && AppliesTo(w, id)
            && (if k < |attempts| then
                  a.sent == [attempts[k].value] && raised == (attempts[k].value != v)
                else
                  a.sent == (if io.Sent? then [v] else []) && raised == io.Broken?)
  {
    var w := Wrapped(e, id);
    FreshAttempts(attempts);
    AttemptsConsistent(Answering(None, []), attempts);
    RaisesExactlyWhen(id, attempts, RaiseHandling(ref, w), io);
    assert [] + [Failure(ref, w)] == [Failure(ref, w)];
  }

  // ---- Errors through delegating adapters ----

  /** What a client sees. */
  lemma {:induction false} TextOf(reason: string, cause: Option<int>)
    ensures Print(Error(true, reason, cause)) == "Invalid message: " + reason
    ensures Print(Error(false, reason, cause)) == reason
  {
  }

  /** The text of a failure response survives being parsed and printed. */
  lemma {:induction false} TextSurvives(text: string, request: int)
    ensures Print(Parse(text, request)) == text
  {
    if PREFIX <= text {
      assert text == PREFIX + text[|PREFIX|..];
    }
  }

  /** An error comes out of one hop with its class and reason, if and only if it is an InvalidMessageError or its reason
      does not look like the text of one. */
  lemma {:induction false} ErrorSurvives(e: Error, request: int)
    ensures Parse(Print(e), request) == Propagate(e, request) <==> e.invalid || !(PREFIX <= e.reason)
    ensures !e.invalid && PREFIX <= e.reason ==>
              Parse(Print(e), request) == Error(true, e.reason[|PREFIX|..], Some(request))
  {
    if e.invalid {
      assert (PREFIX + e.reason)[|PREFIX|..] == e.reason;
    }
  }

  /** One adapter: delegate() sends `request` to the next one as `sent`, whose failure has this text, and the error is
      propagated to `request`, which _handle answers. */
  function Hop(request: int, sent: int, ref: int, text: string): (Answering, bool) {
    Handle(request, [], RaiseHandling(ref, Propagate(Parse(text, sent), request)), Sent)
  }

  /** The error that the last of a chain of adapters reports; each has a request of its own and sends another one. */
  function Relay(hops: seq<(int, int)>, ref: int, e: Error): Error {
    if hops == [] then e
    else
      var before := Relay(hops[..|hops| - 1], ref, e);
      var (a, raised) := Hop(hops[|hops| - 1].0, hops[|hops| - 1].1, ref, Print(before));
      if raised || |a.sent| != 1 || !a.sent[0].Failure? then before else a.sent[0].error
  }

  /** One hop answers its request exactly once, with an error that applies to it and prints the same. */
  lemma {:induction false} HopAnswers(request: int, sent: int, ref: int, text: string)
    ensures var e := Propagate(Parse(text, sent), request);
            Hop(request, sent, ref, text) == (Answering(Some(Failure(ref, e)), [Failure(ref, e)]), false)
            && AppliesTo(e, request) && Print(e) == text
  {
    TextSurvives(text, sent);
    var e := Propagate(Parse(text, sent), request);
    assert Wrapped(e, request) == e && FirstSent([]) == 0;
    WrappedErrorAnswers(request, [], ref, e, Sent);
    AnsweredAtMostOnce(request, [], RaiseHandling(ref, e), Sent);
  }

  /** Through any number of hops the text of the error stays the same, and after the first hop so do its class and
      reason; it always applies to the request of the last adapter. */
  lemma {:induction false} RelayKeeps(hops: seq<(int, int)>, ref: int, e: Error)
    requires hops != []
    ensures var last := hops[|hops| - 1].0;
            var r := Relay(hops, ref, e);
            Print(r) == Print(e) && AppliesTo(r, last) && r == Propagate(Parse(Print(e), last), last)
  {
    var init := hops[..|hops| - 1];
    if init != [] {
      RelayKeeps(init, ref, e);
    }
    HopAnswers(hops[|hops| - 1].0, hops[|hops| - 1].1, ref, Print(Relay(init, ref, e)));
  }

  /** So class and reason survive any number of hops exactly when they survive one. */
  lemma {:induction false} ErrorSurvivesHops(hops: seq<(int, int)>, ref: int, e: Error)
    requires hops != []
    ensures var r := Relay(hops, ref, e);
            r.invalid == e.invalid && r.reason == e.reason <==> e.invalid || !(PREFIX <= e.reason)
  {
    RelayKeeps(hops, ref, e);
    ErrorSurvives(e, hops[|hops| - 1].0);
  }
}
