/**
The Client component of clients.py: events of the launcher and of the debug server are kept back until the "launch" or
"attach" request of the client has been answered.

Every handler runs with the session locked. A start request may release the lock while it waits for a launcher or a
server; what the client component itself changes comes after that wait, so its handler is one step, and events handled
during the wait are steps before it.
*/
module DeferredEvents {
  import opened Basics

  /** A request of the client; `isStart` for "launch" and "attach". */
  datatype Request = Request(number: int, isStart: bool)

  /** What is written to the client: a propagated event, a response, or the adapter's own "initialized" event. */
  datatype Message = Event(id: int) | Response(request: Request, success: bool) | Initialized

  /**
  `deferred` is _deferred_events, `initialized` says that _initialize_request is not None, and `answered` holds the
  requests whose response is set. `room` is how many more messages the client's stream will take before it is lost;
  it is arbitrary at the start, and a write without room raises and leaves no trace.
  */
  datatype State = State(
    initialized: bool,
    startRequest: Option<Request>,
    hasStarted: bool,
    deferred: Option<seq<int>>,
    answered: set<Request>,
    room: nat,
    wire: seq<Message>)

  function Fresh(room: nat): State {
    State(false, None, false, Some([]), {}, room, [])
  }

  function Send(s: State, m: Message): State {
    if s.room == 0 then s else s.(room := s.room - 1, wire := s.wire + [m])
  }

  /** Request.respond() asserts that there is no response yet, and sets it only after a successful write. */
  predicate CanRespond(s: State, r: Request) {
    r !in s.answered && s.room > 0
  }

  function Respond(s: State, r: Request, success: bool): State {
    if CanRespond(s, r) then Send(s, Response(r, success)).(answered := s.answered + {r}) else s
  }

  function Events(ids: seq<int>): seq<Message> {
    seq(|ids|, i requires 0 <= i < |ids| => Event(ids[i]))
  }

  /** propagate_after_start */
  function PropagateAfterStart(s: State, event: int): State {
    if s.deferred.Some? then s.(deferred := Some(s.deferred.value + [event])) else Send(s, Event(event))
  }

  /** _propagate_deferred_events; it raises when nothing is deferred any more, or when the stream is lost midway. */
  function PropagateDeferred(s: State): State {
    match s.deferred
    case None => s
    case Some(ids) =>
      if |ids| <= s.room
      then s.(deferred := None, room := s.room - |ids|, wire := s.wire + Events(ids))
      else s.(room := 0, wire := s.wire + Events(ids[..s.room]))
  }

  /** initialize_request; `valid` says that its arguments are acceptable. */
  function Initialize(s: State, r: Request, valid: bool): State {
    if s.initialized || !valid then Respond(s, r, false) else Respond(s.(initialized := true), r, true)
  }

  /** How the rest of a start request goes: the launch or attach handler fails, or answers by itself because the
      subprocess is gone; the server rejects the request, or leaves before answering it; or all is well. */
  datatype StartOutcome =
    | Fails
    | SubprocessGone
    | ServerRejects
    | ServerLeaves
    | Proceeds(withServer: bool, noDebug: bool)

  /** _start_message_handler; `busy` says that the session already has a launcher or a server. */
  function Start(s: State, r: Request, busy: bool, outcome: StartOutcome): State {
    if !s.initialized || busy then Respond(s, r, false)
    else
      match outcome
      case Fails => Respond(s, r, false)
      case SubprocessGone => Respond(s, r, true)
      case ServerRejects => Respond(s.(initialized := false), r, false)
      case ServerLeaves => Respond(s.(initialized := false), r, true)
      case Proceeds(withServer, noDebug) =>
        var t := s.(initialized := !withServer);
        if noDebug then AnswerStart(t.(startRequest := Some(r), hasStarted := true), r)
        else if s.room == 0 then t
        else Send(t, Initialized).(startRequest := Some(r))
  }

  /** The start request is answered, and what was deferred follows. */
  function AnswerStart(s: State, r: Request): State {
    if CanRespond(s, r) then PropagateDeferred(Respond(s, r, true)) else s
  }

  /** What comes of passing configurationDone to the server: a result, its connection closed, an error with this text,
      or there is no server. */
  datatype Delegation = Result | ServerGone | Rejected(text: string) | NoServer

  /** str.format() without arguments accepts the text: every brace in it is doubled. */
  predicate Formats(text: string) {
    if text == "" then true
    else if text[0] == '{' || text[0] == '}' then |text| > 1 && text[1] == text[0] && Formats(text[2..])
    else Formats(text[1..])
  }

  /** Whether "configurationDone" is answered as not allowed; the handler goes on all the same. */
  predicate OutOfTurn(s: State) {
    s.startRequest.None? || s.hasStarted
  }

  /** The state in which the handler of configurationDone enters its try block. */
  function Configuring(s: State, r: Request): State {
    (if OutOfTurn(s) then Respond(s, r, false) else s).(hasStarted := true)
  }

  /** The finally clause: a start request still unanswered is answered now. */
  function Finally(s: State): State {
    if s.startRequest.Some? && s.startRequest.value !in s.answered then AnswerStart(s, s.startRequest.value) else s
  }

  /** The try statement of configurationDone, by what comes of passing the request to the server. */
  function Delegate(s: State, r: Request, how: Delegation): State {
    match how
    case Result => Finally(Respond(s, r, true))
    case ServerGone =>
      if CanRespond(s, r) && s.startRequest.Some?
      then Finally(Respond(Respond(s, r, true), s.startRequest.value, true))
      else Finally(s)
    case Rejected(text) =>
      // Message.error formats the text before it answers.
      if s.startRequest.Some? && Formats(text) then Finally(Respond(s, s.startRequest.value, false)) else Finally(s)
    case NoServer =>
      // The exception of a failing finally clause replaces the one that is turned into a failure response.
      if s.deferred.None? && s.startRequest.Some? && s.startRequest.value !in s.answered then Finally(s)
      else Respond(Finally(s), r, false)
  }

  /** configurationDone_request */
  function ConfigurationDone(s: State, r: Request, how: Delegation): State {
    if OutOfTurn(s) && !CanRespond(s, r) then s else Delegate(Configuring(s, r), r, how)
  }

  /** The component, with the handlers' statements in their order. `raised` stands for any exception. */
  class Client {
    var initialized: bool
    var startRequest: Option<Request>
    var hasStarted: bool
    var deferred: Option<seq<int>>
    var answered: set<Request>
    var room: nat
    var wire: seq<Message>

    ghost function View(): State
      reads this
    {
      State(initialized, startRequest, hasStarted, deferred, answered, room, wire)
    }

    constructor (room: nat)
      ensures View() == Fresh(room)
    {
      initialized, startRequest, hasStarted := false, None, false;
      deferred, answered, wire := Some([]), {}, [];
      this.room := room;
    }

    /** A message is written to the client's channel, or the write raises. */
    method Write(m: Message) returns (raised: bool)
      modifies this`room, this`wire
      ensures View() == Send(old(View()), m)
      ensures raised == (old(room) == 0)
    {
      if room == 0 {
        return true;
      }
      room, wire := room - 1, wire + [m];
      return false;
    }

    method Reply(r: Request, success: bool) returns (raised: bool)
      modifies this`room, this`wire, this`answered
      ensures View() == Respond(old(View()), r, success)
      ensures raised == !CanRespond(old(View()), r)
    {
      if r in answered {
        return true;
      }
      raised := Write(Response(r, success));
      if !raised {
        answered := answered + {r};
      }
    }

    method HandleEvent(event: int) returns (raised: bool)
      modifies this
      ensures View() == PropagateAfterStart(old(View()), event)
      ensures raised == (old(deferred).None? && old(room) == 0)
    {
      if deferred.Some? {
        deferred := Some(deferred.value + [event]);
        return false;
      }
      raised := Write(Event(event));
    }

    method PropagateDeferredEvents() returns (raised: bool)
      modifies this`deferred, this`room, this`wire
      ensures View() == PropagateDeferred(old(View()))
      ensures raised == (old(deferred).None? || |old(deferred).value| > old(room))
    {
      if deferred.None? {
        return true;
      }
      var ids := deferred.value;
      assert wire + Events(ids[..0]) == wire;
      for i := 0 to |ids|
        invariant deferred == old(deferred) && i <= old(room) && room == old(room) - i
        invariant wire == old(wire) + Events(ids[..i])
      {
        raised := Write(Event(ids[i]));
        if raised {
          return true;
        }
        assert Events(ids[..i + 1]) == Events(ids[..i]) + [Event(ids[i])];
      }
      assert ids[..|ids|] == ids;
      deferred := None;
      return false;
    }

    method HandleInitialize(r: Request, valid: bool) returns (raised: bool)
      modifies this
      ensures View() == Initialize(old(View()), r, valid)
    {
      if initialized || !valid {
        raised := Reply(r, false);
        return;
      }
      initialized := true;
      raised := Reply(r, true);
    }

    method HandleStart(r: Request, busy: bool, outcome: StartOutcome) returns (raised: bool)
      modifies this
      ensures View() == Start(old(View()), r, busy, outcome)
    {
      if !initialized || busy || outcome.Fails? {
        raised := Reply(r, false);
        return;
      }
      if outcome.SubprocessGone? {
        raised := Reply(r, true);
        return;
      }
      if !outcome.Proceeds? || outcome.withServer {
        initialized := false;
      }
      if !outcome.Proceeds? {
        raised := Reply(r, outcome.ServerLeaves?);
        return;
      }
      if outcome.noDebug {
        startRequest := Some(r);
        hasStarted := true;
        raised := Reply(r, true);
        if !raised {
          raised := PropagateDeferredEvents();
        }
        return;
      }
      raised := Write(Initialized);
      if !raised {
        startRequest := Some(r);
      }
    }

    method AnswerPendingStart() returns (raised: bool)
      modifies this`deferred, this`room, this`wire, this`answered
      ensures View() == Finally(old(View()))
      ensures old(startRequest).Some? && old(startRequest).value !in old(answered) && old(deferred).None? ==> raised
      ensures raised ==> old(startRequest).None? || room == 0
                         || (old(deferred).None? && old(startRequest).value !in old(answered))
    {
      if startRequest.None? {
        return true;
      }
      if startRequest.value in answered {
        return false;
      }
      raised := Reply(startRequest.value, true);
      if !raised {
        raised := PropagateDeferredEvents();
      }
    }

    method HandleConfigurationDone(r: Request, how: Delegation) returns (raised: bool)
      modifies this
      ensures View() == ConfigurationDone(old(View()), r, how)
    {
      if startRequest.None? || hasStarted {
        raised := Reply(r, false);
        if raised {
          return;
        }
      }
      hasStarted := true;
      raised := false;
      match how {
        case Result =>
          raised := Reply(r, true);
        case ServerGone =>
          raised := Reply(r, true);
          if !raised && startRequest.Some? {
            raised := Reply(startRequest.value, true);
          }
        case Rejected(text) =>
          if startRequest.None? || !Formats(text) {
            raised := true;
          } else {
            raised := Reply(startRequest.value, false);
          }
        case NoServer =>
      }
      var failed := AnswerPendingStart();
      raised := raised || failed;
      if how.NoServer? && !raised {
        raised := Reply(r, false);
      }
    }
  }
}
