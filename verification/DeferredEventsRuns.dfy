/** What holds in every run of the client component: the order of events, and their place after the start response. */
module DeferredEventsRuns {
  import opened Basics
  import opened DeferredEvents

  /** `handled` are the events given to propagate_after_start, `received` the requests handled so far, and `abandoned`
      the start requests that were answered with success although the debuggee was gone. */
  datatype System = System(state: State, handled: seq<int>, received: set<Request>, abandoned: set<Request>)

  datatype Step =
    | HandleEvent(event: int)
    | HandleInitialize(request: Request, valid: bool)
    | HandleStart(request: Request, busy: bool, outcome: StartOutcome)
    | HandleConfigurationDone(request: Request, how: Delegation)

  /** A request is a new object, and launch and attach are what the start handler is for. */
  predicate Enabled(s: System, step: Step) {
    match step
    case HandleEvent(_) => true
    case _ => step.request !in s.received && step.request.isStart == step.HandleStart?
  }

  /** The start requests that the step gives up on. */
  function Abandons(s: State, step: Step): set<Request> {
    match step
    case HandleStart(r, busy, outcome) =>
      if s.initialized && !busy && (outcome.SubprocessGone? || outcome.ServerLeaves?) then {r} else {}
    case HandleConfigurationDone(r, ServerGone) =>
      if !OutOfTurn(s) && CanRespond(s, r) then {s.startRequest.value} else {}
    case _ => {}
  }

  function Effect(s: State, step: Step): State {
    match step
    case HandleEvent(e) => PropagateAfterStart(s, e)
    case HandleInitialize(r, valid) => Initialize(s, r, valid)
    case HandleStart(r, busy, outcome) => Start(s, r, busy, outcome)
    case HandleConfigurationDone(r, how) => ConfigurationDone(s, r, how)
  }

  function Apply(s: System, step: Step): System {
    System(
      Effect(s.state, step),
      if step.HandleEvent? then s.handled + [step.event] else s.handled,
      if step.HandleEvent? then s.received else s.received + {step.request},
      s.abandoned + Abandons(s.state, step))
  }

  ghost predicate Behavior(states: seq<System>, steps: seq<Step>) {
    && |states| == |steps| + 1
    && (exists room :: states[0] == System(Fresh(room), [], {}, {}))
    && forall i {:trigger steps[i]} :: 0 <= i < |steps| ==>
         Enabled(states[i], steps[i]) && states[i + 1] == Apply(states[i], steps[i])
  }

  /** The events among the messages, in order. */
  function Delivered(wire: seq<Message>): seq<int> {
    if wire == [] then []
    else
      var m := wire[|wire| - 1];
      Delivered(wire[..|wire| - 1]) + if m.Event? then [m.id] else []
  }

  /** A start request among `wire` was answered with success, and not because the debuggee was gone. */
  ghost predicate Served(wire: seq<Message>, abandoned: set<Request>) {
    exists i :: 0 <= i < |wire| && IsServed(wire[i], abandoned)
  }

  predicate IsServed(m: Message, abandoned: set<Request>) {
    m.Response? && m.success && m.request.isStart && m.request !in abandoned
  }

  /** Some start request among `wire` was answered with success. */
  ghost predicate Opened(wire: seq<Message>) {
    Served(wire, {})
  }

  // ---- Invariants ----

  ghost predicate DeferralInv(s: State, handled: seq<int>) {
    && Delivered(s.wire) <= handled
    && (s.deferred.Some? ==> s.deferred.value == handled)
    && (s.deferred.Some? && s.room > 0 ==> Delivered(s.wire) == [])
    && (s.deferred.None? ==> s.hasStarted && Opened(s.wire))
    && (s.deferred.None? && s.room > 0 ==> Delivered(s.wire) == handled)
  }

  ghost predicate WireInv(wire: seq<Message>, answered: set<Request>) {
    && (forall i :: 0 <= i < |wire| && wire[i].Response? ==> wire[i].request in answered)
    && (forall i, j :: 0 <= i < j < |wire| && wire[i].Response? && wire[j].Response? ==>
          wire[i].request != wire[j].request)
    && (forall i :: 0 <= i < |wire| && wire[i].Event? ==> Opened(wire[..i]))
  }

  ghost predicate RequestInv(s: State, received: set<Request>) {
    && s.answered <= received
    && (s.startRequest.Some? ==> s.startRequest.value.isStart && s.startRequest.value in received)
    && (s.startRequest.Some? && !s.hasStarted ==> s.startRequest.value !in s.answered)
  }

  ghost predicate ServedInv(s: State, abandoned: set<Request>) {
    s.room > 0 ==> abandoned <= s.answered && (s.deferred.None? <==> Served(s.wire, abandoned))
  }

  ghost predicate Base(s: State, handled: seq<int>, received: set<Request>) {
    DeferralInv(s, handled) && WireInv(s.wire, s.answered) && RequestInv(s, received)
  }

  ghost predicate Good(s: State, handled: seq<int>, received: set<Request>, abandoned: set<Request>) {
    Base(s, handled, received) && ServedInv(s, abandoned)
  }

  ghost predicate Inv(s: System) {
    Good(s.state, s.handled, s.received, s.abandoned)
  }

  lemma {:induction false} DeliveredSnoc(wire: seq<Message>, m: Message)
    ensures Delivered(wire + [m]) == Delivered(wire) + if m.Event? then [m.id] else []
  {
    assert (wire + [m])[..|wire|] == wire;
  }

  lemma {:induction false} DeliveredEvents(wire: seq<Message>, ids: seq<int>)
    ensures Delivered(wire + Events(ids)) == Delivered(wire) + ids
  {
    if ids == [] {
      assert wire + Events(ids) == wire;
    } else {
      var init := ids[..|ids| - 1];
      var last := ids[|ids| - 1];
      DeliveredEvents(wire, init);
      assert wire + Events(ids) == (wire + Events(init)) + [Event(last)];
      DeliveredSnoc(wire + Events(init), Event(last));
      assert init + [last] == ids;
    }
  }

  lemma {:induction false} ServedSnoc(wire: seq<Message>, m: Message, abandoned: set<Request>)
    ensures Served(wire + [m], abandoned) <==> Served(wire, abandoned) || IsServed(m, abandoned)
  {
    var w := wire + [m];
    if Served(wire, abandoned) {
      var i :| 0 <= i < |wire| && IsServed(wire[i], abandoned);
      assert w[i] == wire[i];
    }
    if IsServed(m, abandoned) {
      assert w[|wire|] == m;
    }
  }

  lemma {:induction false} ServedEvents(wire: seq<Message>, ids: seq<int>, abandoned: set<Request>)
    ensures Served(wire + Events(ids), abandoned) <==> Served(wire, abandoned)
  {
    var w := wire + Events(ids);
    if Served(wire, abandoned) {
      var i :| 0 <= i < |wire| && IsServed(wire[i], abandoned);
      assert w[i] == wire[i];
    }
    if Served(w, abandoned) {
      var i :| 0 <= i < |w| && IsServed(w[i], abandoned);
      assert i < |wire| && w[i] == wire[i];
    }
  }

  lemma {:induction false} WireSnoc(wire: seq<Message>, answered: set<Request>, m: Message)
    requires WireInv(wire, answered)
    requires m.Response? ==> m.request !in answered
    requires m.Event? ==> Opened(wire)
    ensures WireInv(wire + [m], if m.Response? then answered + {m.request} else answered)
  {
    var w := wire + [m];
    forall i | 0 <= i < |w| && w[i].Event? ensures Opened(w[..i]) {
      assert w[..i] == wire[..i];
      assert i == |wire| ==> wire[..i] == wire;
    }
  }

  lemma {:induction false} WireEvents(wire: seq<Message>, answered: set<Request>, ids: seq<int>)
    requires WireInv(wire, answered) && Opened(wire)
    ensures WireInv(wire + Events(ids), answered)
  {
    if ids == [] {
      assert wire + Events(ids) == wire;
    } else {
      var init := ids[..|ids| - 1];
      WireEvents(wire, answered, init);
      ServedEvents(wire, init, {});
      WireSnoc(wire + Events(init), answered, Event(ids[|ids| - 1]));
      assert wire + Events(ids) == (wire + Events(init)) + [Event(ids[|ids| - 1])];
    }
  }

  // ---- What each part of a handler keeps ----

  lemma {:induction false} RespondKeeps(s: State, handled: seq<int>, received: set<Request>, r: Request, success: bool)
    requires Base(s, handled, received) && r in received
    requires s.startRequest == Some(r) ==> s.hasStarted
    ensures Base(Respond(s, r, success), handled, received)
  {
    if CanRespond(s, r) {
      var m := Response(r, success);
      DeliveredSnoc(s.wire, m);
      ServedSnoc(s.wire, m, {});
      WireSnoc(s.wire, s.answered, m);
    }
  }

  /** Answering does not end the deferral unless it says that the start succeeded. */
  lemma {:induction false} RespondServed(s: State, r: Request, success: bool, abandoned: set<Request>)
    requires ServedInv(s, abandoned)
    requires !r.isStart || !success || r in abandoned
    ensures ServedInv(Respond(s, r, success), abandoned)
  {
    if CanRespond(s, r) {
      ServedSnoc(s.wire, Response(r, success), abandoned);
    }
  }

  /** A request that is about to be answered joins the abandoned ones. */
  lemma {:induction false} AbandonServed(s: State, r: Request, abandoned: set<Request>)
    requires ServedInv(s, abandoned) && r !in s.answered && r.isStart
    requires WireInv(s.wire, s.answered)
    ensures ServedInv(Respond(s, r, true), abandoned + {r})
  {
    if CanRespond(s, r) {
      ServedSnoc(s.wire, Response(r, true), abandoned + {r});
      if Served(s.wire, abandoned) {
        var i :| 0 <= i < |s.wire| && IsServed(s.wire[i], abandoned);
        assert IsServed(s.wire[i], abandoned + {r});
      }
      if Served(s.wire, abandoned + {r}) {
        var i :| 0 <= i < |s.wire| && IsServed(s.wire[i], abandoned + {r});
        assert IsServed(s.wire[i], abandoned);
      }
    }
  }

  lemma {:induction false} PropagateKeeps(s: State, handled: seq<int>, received: set<Request>)
    requires Base(s, handled, received) && s.hasStarted && Opened(s.wire)
    ensures Base(PropagateDeferred(s), handled, received)
  {
    if s.deferred.Some? {
      var sent := if |handled| <= s.room then handled else handled[..s.room];
      DeliveredEvents(s.wire, sent);
      WireEvents(s.wire, s.answered, sent);
      ServedEvents(s.wire, sent, {});
      if s.room == 0 {
        assert s.wire + Events(sent) == s.wire;
      } else {
        assert Delivered(s.wire) + sent == sent;
      }
    }
  }

  lemma {:induction false} AnswerStartKeeps(
    s: State, handled: seq<int>, received: set<Request>, abandoned: set<Request>, r: Request)
    requires Base(s, handled, received) && ServedInv(s, abandoned)
    requires r in received && r.isStart && s.hasStarted && r !in s.answered
    ensures Base(AnswerStart(s, r), handled, received)
    ensures ServedInv(AnswerStart(s, r), abandoned)
  {
    if CanRespond(s, r) {
      var t := Respond(s, r, true);
      RespondKeeps(s, handled, received, r, true);
      ServedSnoc(s.wire, Response(r, true), {});
      ServedSnoc(s.wire, Response(r, true), abandoned);
      PropagateKeeps(t, handled, received);
      if t.deferred.Some? && |t.deferred.value| <= t.room {
        ServedEvents(t.wire, t.deferred.value, abandoned);
      }
    }
  }

  lemma {:induction false} FinallyKeeps(s: State, handled: seq<int>, received: set<Request>, abandoned: set<Request>)
    requires Base(s, handled, received) && ServedInv(s, abandoned) && s.hasStarted
    ensures Base(Finally(s), handled, received) && ServedInv(Finally(s), abandoned)
  {
    if s.startRequest.Some? && s.startRequest.value !in s.answered {
      AnswerStartKeeps(s, handled, received, abandoned, s.startRequest.value);
    }
  }

  // ---- Each handler ----

  lemma {:induction false} EventKeeps(s: System, e: int)
    requires Inv(s)
    ensures Inv(Apply(s, HandleEvent(e)))
  {
    var t := s.state;
    DeliveredSnoc(t.wire, Event(e));
    ServedSnoc(t.wire, Event(e), {});
    ServedSnoc(t.wire, Event(e), s.abandoned);
    if t.deferred.None? && t.room > 0 {
      WireSnoc(t.wire, t.answered, Event(e));
    }
  }

  lemma {:induction false} InitializeKeeps(s: System, r: Request, valid: bool)
    requires Inv(s) && Enabled(s, HandleInitialize(r, valid))
    ensures Inv(Apply(s, HandleInitialize(r, valid)))
  {
    var refused := s.state.initialized || !valid;
    var t := if refused then s.state else s.state.(initialized := true);
    RespondKeeps(t, s.handled, s.received + {r}, r, !refused);
    RespondServed(t, r, !refused, s.abandoned);
  }

  lemma {:induction false} NewRequest(s: System, r: Request, initialized: bool)
    requires Inv(s) && r !in s.received
    ensures Good(s.state.(initialized := initialized), s.handled, s.received + {r}, s.abandoned)
    ensures r !in s.state.answered && s.state.startRequest != Some(r)
  {
  }

  /** The start handler writes "initialized" and remembers the request, to be answered later. */
  lemma {:induction false} AwaitConfiguration(
    s: State, handled: seq<int>, received: set<Request>, abandoned: set<Request>, r: Request)
    requires Good(s, handled, received, abandoned) && r in received && r.isStart && r !in s.answered && s.room > 0
    ensures Good(Send(s, Initialized).(startRequest := Some(r)), handled, received, abandoned)
  {
    DeliveredSnoc(s.wire, Initialized);
    ServedSnoc(s.wire, Initialized, {});
    ServedSnoc(s.wire, Initialized, abandoned);
    WireSnoc(s.wire, s.answered, Initialized);
  }

  /** The start request is refused, or given up. */
  lemma {:induction false} StartRefused(s: System, r: Request, initialized: bool)
    requires Inv(s) && r !in s.received && r.isStart
    ensures Good(Respond(s.state.(initialized := initialized), r, false), s.handled, s.received + {r}, s.abandoned)
  {
    var u := s.state.(initialized := initialized);
    NewRequest(s, r, initialized);
    RespondKeeps(u, s.handled, s.received + {r}, r, false);
    RespondServed(u, r, false, s.abandoned);
  }

  lemma {:induction false} StartAbandoned(s: System, r: Request, initialized: bool)
    requires Inv(s) && r !in s.received && r.isStart
    ensures Good(Respond(s.state.(initialized := initialized), r, true), s.handled, s.received + {r}, s.abandoned + {r})
  {
    var u := s.state.(initialized := initialized);
    NewRequest(s, r, initialized);
    RespondKeeps(u, s.handled, s.received + {r}, r, true);
    AbandonServed(u, r, s.abandoned);
  }

  lemma {:induction false} StartIs(s: State, r: Request, busy: bool, outcome: StartOutcome)
    ensures !s.initialized || busy || outcome.Fails? ==>
              Start(s, r, busy, outcome) == Respond(s.(initialized := s.initialized), r, false)
    ensures s.initialized && !busy && outcome.ServerRejects? ==>
              Start(s, r, busy, outcome) == Respond(s.(initialized := false), r, false)
    ensures s.initialized && !busy && (outcome.SubprocessGone? || outcome.ServerLeaves?) ==>
              Start(s, r, busy, outcome) == Respond(s.(initialized := outcome.SubprocessGone?), r, true)
    ensures Abandons(s, HandleStart(r, busy, outcome))
            == if s.initialized && !busy && (outcome.SubprocessGone? || outcome.ServerLeaves?) then {r} else {}
  {
  }

  lemma {:induction false} StartKeeps(s: System, r: Request, busy: bool, outcome: StartOutcome)
    requires Inv(s) && r !in s.received && r.isStart
    ensures Good(Start(s.state, r, busy, outcome), s.handled, s.received + {r},
                 s.abandoned + Abandons(s.state, HandleStart(r, busy, outcome)))
  {
    StartIs(s.state, r, busy, outcome);
    assert s.abandoned + {} == s.abandoned;
    if !s.state.initialized || busy || outcome.Fails? {
      StartRefused(s, r, s.state.initialized);
    } else if outcome.ServerRejects? {
      StartRefused(s, r, false);
    } else if outcome.Proceeds? {
      ProceedsKeeps(s, r, outcome);
    } else {
      StartAbandoned(s, r, outcome.SubprocessGone?);
    }
  }

  lemma {:induction false} ProceedsKeeps(s: System, r: Request, outcome: StartOutcome)
    requires Inv(s) && r !in s.received && r.isStart && s.state.initialized && outcome.Proceeds?
    ensures Good(Start(s.state, r, false, outcome), s.handled, s.received + {r}, s.abandoned)
  {
    var u := s.state.(initialized := !outcome.withServer);
    NewRequest(s, r, u.initialized);
    if outcome.noDebug {
      var v := u.(startRequest := Some(r), hasStarted := true);
      assert Good(v, s.handled, s.received + {r}, s.abandoned);
      AnswerStartKeeps(v, s.handled, s.received + {r}, s.abandoned, r);
    } else if u.room > 0 {
      AwaitConfiguration(u, s.handled, s.received + {r}, s.abandoned, r);
    }
  }

  lemma {:induction false} ConfiguringKeeps(s: System, r: Request)
    requires Inv(s) && r !in s.received && !r.isStart
    ensures Good(Configuring(s.state, r), s.handled, s.received + {r}, s.abandoned)
    ensures CanRespond(Configuring(s.state, r), r) <==> !OutOfTurn(s.state) && CanRespond(s.state, r)
    ensures !OutOfTurn(s.state) ==> s.state.startRequest.value !in s.state.answered
  {
    NewRequest(s, r, s.state.initialized);
    if OutOfTurn(s.state) {
      RespondKeeps(s.state, s.handled, s.received + {r}, r, false);
      RespondServed(s.state, r, false, s.abandoned);
    }
  }

  lemma {:induction false} RespondFinallyKeeps(
    t: State, handled: seq<int>, received: set<Request>, abandoned: set<Request>, r: Request, success: bool)
    requires Good(t, handled, received, abandoned) && t.hasStarted
    requires r in received && (!r.isStart || !success)
    ensures Good(Finally(Respond(t, r, success)), handled, received, abandoned)
  {
    RespondKeeps(t, handled, received, r, success);
    RespondServed(t, r, success, abandoned);
    FinallyKeeps(Respond(t, r, success), handled, received, abandoned);
  }

  lemma {:induction false} ServerGoneKeeps(
    t: State, handled: seq<int>, received: set<Request>, abandoned: set<Request>, r: Request)
    requires Good(t, handled, received, abandoned) && t.hasStarted && r in received && !r.isStart
    requires t.startRequest.Some? && t.startRequest.value !in t.answered
    ensures var start := t.startRequest.value;
            Good(Finally(Respond(Respond(t, r, true), start, true)), handled, received, abandoned + {start})
  {
    var start := t.startRequest.value;
    var u := Respond(t, r, true);
    RespondKeeps(t, handled, received, r, true);
    RespondServed(t, r, true, abandoned);
    RespondKeeps(u, handled, received, start, true);
    AbandonServed(u, start, abandoned);
    FinallyKeeps(Respond(u, start, true), handled, received, abandoned + {start});
  }

  lemma {:induction false} DelegateKeeps(
    t: State, handled: seq<int>, received: set<Request>, abandoned: set<Request>, r: Request, how: Delegation)
    requires Good(t, handled, received, abandoned) && t.hasStarted && r in received && !r.isStart
    requires CanRespond(t, r) ==> t.startRequest.Some? && t.startRequest.value !in t.answered
    ensures Good(Delegate(t, r, how), handled, received,
                 if how.ServerGone? && CanRespond(t, r) then abandoned + {t.startRequest.value} else abandoned)
  {
    FinallyKeeps(t, handled, received, abandoned);
    match how
    case Result => RespondFinallyKeeps(t, handled, received, abandoned, r, true);
    case Rejected(_) =>
      if t.startRequest.Some? {
        RespondFinallyKeeps(t, handled, received, abandoned, t.startRequest.value, false);
      }
    case ServerGone =>
      if CanRespond(t, r) {
        ServerGoneKeeps(t, handled, received, abandoned, r);
      }
    case NoServer =>
      RespondKeeps(Finally(t), handled, received, r, false);
      RespondServed(Finally(t), r, false, abandoned);
  }

  lemma {:induction false} ConfigurationAbandons(s: State, r: Request, how: Delegation, abandoned: set<Request>)
    requires !OutOfTurn(s) || CanRespond(s, r)
    ensures var t := Configuring(s, r);
            && (CanRespond(t, r) ==> !OutOfTurn(s))
            && abandoned + Abandons(s, HandleConfigurationDone(r, how))
               == if how.ServerGone? && CanRespond(t, r) then abandoned + {t.startRequest.value} else abandoned
  {
  }

  lemma {:induction false} ConfigurationKeeps(s: System, r: Request, how: Delegation)
    requires Inv(s) && r !in s.received && !r.isStart
    ensures Good(ConfigurationDone(s.state, r, how), s.handled, s.received + {r},
                 s.abandoned + Abandons(s.state, HandleConfigurationDone(r, how)))
  {
    if OutOfTurn(s.state) && !CanRespond(s.state, r) {
      NewRequest(s, r, s.state.initialized);
      assert s.abandoned + {} == s.abandoned;
    } else {
      ConfiguringKeeps(s, r);
      ConfigurationAbandons(s.state, r, how, s.abandoned);
      DelegateKeeps(Configuring(s.state, r), s.handled, s.received + {r}, s.abandoned, r, how);
    }
  }

  lemma {:induction false} StepKeeps(s: System, step: Step)
    requires Inv(s) && Enabled(s, step)
    ensures Inv(Apply(s, step))
  {
    match step
    case HandleEvent(e) => EventKeeps(s, e);
    case HandleInitialize(r, valid) => InitializeKeeps(s, r, valid);
    case HandleStart(r, busy, outcome) => StartKeeps(s, r, busy, outcome);
    case HandleConfigurationDone(r, how) => ConfigurationKeeps(s, r, how);
  }

  lemma {:induction false} InvHolds(states: seq<System>, steps: seq<Step>, n: nat)
    requires Behavior(states, steps) && n <= |steps|
    ensures Inv(states[n])
  {
    if n > 0 {
      InvHolds(states, steps, n - 1);
      StepKeeps(states[n - 1], steps[n - 1]);
    }
  }

  // ---- Theorems ----

  /** What the client has seen is an initial part of what was handled, each event once and in order. While the client
      takes messages it is all of it or, as long as events are deferred, none. */
  lemma {:induction false} EventsInOrder(states: seq<System>, steps: seq<Step>, n: nat)
    requires Behavior(states, steps) && n <= |steps|
    ensures var s := states[n];
            && Delivered(s.state.wire) <= s.handled
            && (s.state.room > 0 ==> Delivered(s.state.wire) == if s.state.deferred.None? then s.handled else [])
            && (s.state.deferred.Some? ==> s.state.deferred.value == s.handled)
  {
    InvHolds(states, steps, n);
  }

  /** The client sees no event before a response that says that its launch or attach request succeeded. */
  lemma {:induction false} NothingBeforeStart(states: seq<System>, steps: seq<Step>, n: nat, i: nat)
    requires Behavior(states, steps) && n <= |steps|
    requires i < |states[n].state.wire| && states[n].state.wire[i].Event?
    ensures exists j :: 0 <= j < i && IsServed(states[n].state.wire[j], {})
  {
    InvHolds(states, steps, n);
    var wire := states[n].state.wire;
    assert Opened(wire[..i]);
    var j :| 0 <= j < i && IsServed(wire[..i][j], {});
    assert IsServed(wire[j], {});
  }

  /** Deferral ends exactly with a start request that succeeded and whose debuggee was there. */
  lemma {:induction false} DeferralEndsWithStart(states: seq<System>, steps: seq<Step>, n: nat)
    requires Behavior(states, steps) && n <= |steps| && states[n].state.room > 0
    ensures states[n].state.deferred.None? <==> Served(states[n].state.wire, states[n].abandoned)
  {
    InvHolds(states, steps, n);
  }

  /** If no start request succeeded, nothing was delivered, whatever failed and however often. */
  lemma {:induction false} FailedStartDeliversNone(states: seq<System>, steps: seq<Step>, n: nat)
    requires Behavior(states, steps) && n <= |steps|
    requires forall i :: 0 <= i < |states[n].state.wire| ==> !IsServed(states[n].state.wire[i], {})
    ensures Delivered(states[n].state.wire) == []
  {
    var wire := states[n].state.wire;
    forall i | 0 <= i < |wire| ensures !wire[i].Event? {
      if wire[i].Event? {
        NothingBeforeStart(states, steps, n, i);
      }
    }
    NoEvents(wire);
  }

  lemma {:induction false} NoEvents(wire: seq<Message>)
    requires forall i :: 0 <= i < |wire| ==> !wire[i].Event?
    ensures Delivered(wire) == []
  {
    if wire != [] {
      NoEvents(wire[..|wire| - 1]);
    }
  }

  /** No request is answered twice, even when configurationDone comes out of turn. */
  lemma {:induction false} AnsweredOnce(states: seq<System>, steps: seq<Step>, n: nat, i: nat, j: nat)
    requires Behavior(states, steps) && n <= |steps|
    requires i < j < |states[n].state.wire|
    requires states[n].state.wire[i].Response? && states[n].state.wire[j].Response?
    ensures states[n].state.wire[i].request != states[n].state.wire[j].request
  {
    InvHolds(states, steps, n);
  }

  // ---- configurationDone without an answer ----

  /** What a configurationDone leaves: it goes unanswered exactly when it comes in turn and the server rejects it. What
      then becomes of the start request depends on the text of the rejection, which the handler uses as a format string.
      If that can be done, the start request is failed, and nothing is delivered. If not, it is answered with success,
      and everything deferred is delivered. */
  lemma {:induction false} RejectedConfiguration(states: seq<System>, steps: seq<Step>, n: nat)
    requires Behavior(states, steps) && n < |steps| && steps[n].HandleConfigurationDone?
    requires states[n + 1].state.room > 0
    ensures steps[n].request !in states[n + 1].state.answered <==>
            !OutOfTurn(states[n].state) && steps[n].how.Rejected?
    ensures steps[n].request !in states[n + 1].state.answered ==>
              AfterRejection(states[n].state, states[n + 1].state, Formats(steps[n].how.text))
              && (Formats(steps[n].how.text) <==> states[n + 1].state.deferred.Some?)
  {
    InvHolds(states, steps, n);
    assert Enabled(states[n], steps[n]);
    ConfigurationAnswers(states[n], steps[n].request, steps[n].how);
  }

  ghost predicate AfterRejection(before: State, after: State, formats: bool) {
    && before.startRequest.Some? && before.deferred.Some?
    && var start := before.startRequest.value;
       if formats then
         after.wire == before.wire + [Response(start, false)] && after.deferred == before.deferred
       else
         after.wire == before.wire + [Response(start, true)] + Events(before.deferred.value) && after.deferred.None?
  }

  lemma {:induction false} ConfigurationAnswers(s: System, r: Request, how: Delegation)
    requires Inv(s) && r !in s.received && !r.isStart
    requires ConfigurationDone(s.state, r, how).room > 0
    ensures var after := ConfigurationDone(s.state, r, how);
            && (r !in after.answered <==> !OutOfTurn(s.state) && how.Rejected?)
            && (r !in after.answered ==> AfterRejection(s.state, after, Formats(how.text)))
  {
    var after := ConfigurationDone(s.state, r, how);
    if !OutOfTurn(s.state) && how.Rejected? {
      var start := s.state.startRequest.value;
      assert start !in s.state.answered && s.state.deferred.Some?;
      assert Configuring(s.state, r) == s.state.(hasStarted := true);
      if Formats(how.text) {
        RejectedFails(s.state.(hasStarted := true), r, how.text);
      } else {
        RejectedSucceeds(s.state.(hasStarted := true), r, how.text);
      }
    }
  }

  lemma {:induction false} RejectedFails(t: State, r: Request, text: string)
    requires t.startRequest.Some? && t.startRequest.value !in t.answered && Formats(text)
    requires Delegate(t, r, Rejected(text)).room > 0 && !r.isStart && t.startRequest.value.isStart && r !in t.answered
    ensures var e := Delegate(t, r, Rejected(text));
            && e.wire == t.wire + [Response(t.startRequest.value, false)]
            && e.deferred == t.deferred && r !in e.answered
  {
  }

  lemma {:induction false} RejectedSucceeds(t: State, r: Request, text: string)
    requires t.startRequest.Some? && t.startRequest.value !in t.answered && t.deferred.Some? && !Formats(text)
    requires Delegate(t, r, Rejected(text)).room > 0 && !r.isStart && t.startRequest.value.isStart && r !in t.answered
    ensures var e := Delegate(t, r, Rejected(text));
            && e.wire == t.wire + [Response(t.startRequest.value, true)] + Events(t.deferred.value)
            && e.deferred.None? && r !in e.answered
  {
  }

  /** The handler of `r` in state `s` may answer `r` and the pending start request. */
  function MayAnswer(s: State, r: Request): set<Request> {
    s.answered + {r} + if s.startRequest.Some? then {s.startRequest.value} else {}
  }

  lemma {:induction false} FinallyAnswers(s: State, r: Request)
    ensures Finally(s).answered <= MayAnswer(s, r)
    ensures Finally(s).startRequest == s.startRequest
  {
  }

  lemma {:induction false} DelegateAnswers(s: State, r: Request, how: Delegation)
    ensures Delegate(s, r, how).answered <= MayAnswer(s, r)
  {
    FinallyAnswers(s, r);
    FinallyAnswers(Respond(s, r, true), r);
    if s.startRequest.Some? {
      FinallyAnswers(Respond(s, s.startRequest.value, false), r);
      FinallyAnswers(Respond(Respond(s, r, true), s.startRequest.value, true), r);
    }
  }

  lemma {:induction false} StepAnswers(s: State, step: Step)
    ensures step.HandleEvent? ==> Effect(s, step).answered == s.answered
    ensures !step.HandleEvent? ==> Effect(s, step).answered <= MayAnswer(s, step.request)
  {
    if step.HandleConfigurationDone? {
      DelegateAnswers(Configuring(s, step.request), step.request, step.how);
    }
  }

  /** Such a request is never answered: not by any later step of any run. */
  lemma {:induction false} NeverAnswered(states: seq<System>, steps: seq<Step>, n: nat, m: nat)
    requires Behavior(states, steps) && n < m <= |steps| && steps[n].HandleConfigurationDone?
    requires steps[n].request !in states[n + 1].state.answered
    ensures steps[n].request !in states[m].state.answered && steps[n].request in states[m].received
    decreases m
  {
    var r := steps[n].request;
    if m == n + 1 {
      assert states[n + 1] == Apply(states[n], steps[n]);
    } else {
      NeverAnswered(states, steps, n, m - 1);
      InvHolds(states, steps, m - 1);
      assert Enabled(states[n], steps[n]);
      StillUnanswered(states[m - 1], steps[m - 1], r);
    }
  }

  lemma {:induction false} StillUnanswered(s: System, step: Step, r: Request)
    requires Inv(s) && Enabled(s, step) && r in s.received && !r.isStart && r !in s.state.answered
    ensures r in Apply(s, step).received && r !in Apply(s, step).state.answered
  {
    StepAnswers(s.state, step);
  }

  lemma {:induction false} Extend(states: seq<System>, steps: seq<Step>, step: Step)
    requires Behavior(states, steps) && Enabled(states[|steps|], step)
    ensures Behavior(states + [Apply(states[|steps|], step)], steps + [step])
  {
    var states', steps' := states + [Apply(states[|steps|], step)], steps + [step];
    assert states'[0] == states[0];
    forall i | 0 <= i < |steps'|
      ensures Enabled(states'[i], steps'[i]) && states'[i + 1] == Apply(states'[i], steps'[i])
    {
      assert i < |steps| ==> steps'[i] == steps[i];
    }
  }

  /** A client that has initialized and launched. */
  lemma {:induction false} LaunchedRun() returns (states: seq<System>, steps: seq<Step>)
    ensures Behavior(states, steps) && |steps| == 2
    ensures states[2].received == {Request(1, false), Request(2, true)} && states[2].state.room == 7
    ensures states[2].state.startRequest == Some(Request(2, true)) && !states[2].state.hasStarted
    ensures states[2].state.answered == {Request(1, false)} && states[2].state.deferred == Some([])
  {
    var first, second := HandleInitialize(Request(1, false), true),
                         HandleStart(Request(2, true), false, Proceeds(true, false));
    states, steps := [System(Fresh(9), [], {}, {})], [];
    Extend(states, steps, first);
    states, steps := states + [Apply(states[0], first)], steps + [first];
    Extend(states, steps, second);
    states, steps := states + [Apply(states[1], second)], steps + [second];
  }

  /** Runs that get there: then an event, and a configurationDone that the server rejects with `text`. */
  lemma {:induction false} RejectedRun(text: string) returns (states: seq<System>, steps: seq<Step>)
    ensures Behavior(states, steps) && |steps| == 4
    ensures steps[3] == HandleConfigurationDone(Request(3, false), Rejected(text))
    ensures !OutOfTurn(states[3].state) && states[4].state.room > 0
    ensures steps[3].request !in states[4].state.answered && states[3].state.deferred == Some([7])
    ensures states[3].state.startRequest == Some(Request(2, true))
  {
    var done := HandleConfigurationDone(Request(3, false), Rejected(text));
    states, steps := LaunchedRun();
    Extend(states, steps, HandleEvent(7));
    states, steps := states + [Apply(states[2], HandleEvent(7))], steps + [HandleEvent(7)];
    var s3 := states[3];
    assert [] + [7] == [7];
    assert s3.state.deferred == Some([7]) && s3.state.room == 7;
    Extend(states, steps, done);
    states, steps := states + [Apply(s3, done)], steps + [done];
    RejectionKeepsRoom(s3.state, Request(3, false), text);
    RejectedConfiguration(states, steps, 3);
  }

  lemma {:induction false} RejectionKeepsRoom(s: State, r: Request, text: string)
    requires !OutOfTurn(s) && s.startRequest.value !in s.answered && s.deferred.Some? && s.room > |s.deferred.value| + 1
    ensures ConfigurationDone(s, r, Rejected(text)).room > 0
  {
  }

  /** With braces in the text, the rejection makes the launch succeed, and the event is delivered. */
  lemma {:induction false} BracesMakeItSucceed() returns (states: seq<System>, steps: seq<Step>)
    ensures Behavior(states, steps) && |steps| == 4
    ensures steps[3] == HandleConfigurationDone(Request(3, false), Rejected("{x}"))
    ensures states[4].state.wire == states[3].state.wire + [Response(Request(2, true), true), Event(7)]
  {
    states, steps := RejectedRun("{x}");
    RejectedConfiguration(states, steps, 3);
    var before, after := states[3].state.wire, states[4].state.wire;
    assert Formats("{x}") == false;
    assert Events([7]) == [Event(7)];
    assert after == before + [Response(Request(2, true), true)] + [Event(7)];
  }

  // ---- What each step writes ----

  /** The deferred events, as they are propagated. */
  function Kept(s: State): seq<Message> {
    if s.deferred.Some? then Events(s.deferred.value) else []
  }

  /** The messages that a start request is answered with in the end: success, and what was deferred. */
  function Success(s: State, r: Request): seq<Message> {
    [Response(r, true)] + Kept(s)
  }

  /** What a start request that nobody has answered is answered with when configurationDone ends with `how`: failure if
      the server rejects it with a text that formats, otherwise success. */
  function StartAnswer(s: State, how: Delegation): seq<Message> {
    if s.startRequest.None? || s.startRequest.value in s.answered then []
    else if how.Rejected? && Formats(how.text) then [Response(s.startRequest.value, false)]
    else Success(s, s.startRequest.value)
  }

  /** The messages that a step writes to a client that takes them. */
  function Appended(s: State, step: Step): seq<Message> {
    match step
    case HandleEvent(e) => if s.deferred.None? then [Event(e)] else []
    case HandleInitialize(r, valid) => [Response(r, valid && !s.initialized)]
    case HandleStart(r, busy, outcome) =>
      if !s.initialized || busy || outcome.Fails? || outcome.ServerRejects? then [Response(r, false)]
      else if outcome.SubprocessGone? || outcome.ServerLeaves? then [Response(r, true)]
      else if outcome.noDebug then Success(s, r)
      else [Initialized]
    case HandleConfigurationDone(r, how) =>
      if OutOfTurn(s) then [Response(r, false)] + StartAnswer(s, how)
      else
        match how
        case Result => [Response(r, true)] + StartAnswer(s, how)
        case ServerGone => [Response(r, true), Response(s.startRequest.value, true)]
        case Rejected(_) => StartAnswer(s, how)
        case NoServer => StartAnswer(s, how) + [Response(r, false)]
  }

  predicate TakesAll(s: State) {
    s.room >= 3 + if s.deferred.Some? then |s.deferred.value| else 0
  }

  lemma {:induction false} RespondWrites(s: State, r: Request, success: bool)
    requires r !in s.answered && s.room > 0
    ensures Respond(s, r, success).wire == s.wire + [Response(r, success)]
    ensures Respond(s, r, success).room == s.room - 1 && Respond(s, r, success).answered == s.answered + {r}
    ensures Respond(s, r, success).deferred == s.deferred && Respond(s, r, success).startRequest == s.startRequest
  {
  }

  lemma {:induction false} AnswerStartWrites(s: State, r: Request)
    requires r !in s.answered && s.room >= 1 + |Kept(s)|
    ensures AnswerStart(s, r).wire == s.wire + Success(s, r) && AnswerStart(s, r).room == s.room - 1 - |Kept(s)|
    ensures AnswerStart(s, r).answered == s.answered + {r}
  {
    RespondWrites(s, r, true);
    ConcatAssociative(s.wire, [Response(r, true)], Kept(s));
    var t := s.wire + [Response(r, true)];
    assert t + [] == t;
  }

  lemma {:induction false} FinallyWrites(s: State)
    requires s.room >= 1 + |Kept(s)|
    ensures Finally(s).wire == s.wire + StartAnswer(s, Result)
    ensures Finally(s).room >= s.room - 1 - |Kept(s)| && s.answered <= Finally(s).answered
    ensures forall q :: q in Finally(s).answered ==> q in s.answered || s.startRequest == Some(q)
  {
    if s.startRequest.Some? && s.startRequest.value !in s.answered {
      AnswerStartWrites(s, s.startRequest.value);
    } else {
      assert s.wire + [] == s.wire;
    }
  }

  /** The try statement, when `r` is not answered yet and the start request is pending. */
  lemma {:induction false} DelegateWrites(t: State, r: Request, how: Delegation)
    requires r !in t.answered && TakesAll(t) && !r.isStart
    requires t.startRequest.Some? && t.startRequest.value.isStart && t.startRequest.value !in t.answered
    requires t.deferred.Some?
    ensures var start := t.startRequest.value;
            Delegate(t, r, how).wire
            == t.wire + (match how
                         case Result => [Response(r, true)] + StartAnswer(t, how)
                         case ServerGone => [Response(r, true), Response(start, true)]
                         case Rejected(_) => StartAnswer(t, how)
                         case NoServer => StartAnswer(t, how) + [Response(r, false)])
  {
    var start := t.startRequest.value;
    match how
    case Result =>
      RespondWrites(t, r, true);
      FinallyWrites(Respond(t, r, true));
      ConcatAssociative(t.wire, [Response(r, true)], StartAnswer(t, how));
    case ServerGone =>
      RespondWrites(t, r, true);
      RespondWrites(Respond(t, r, true), start, true);
      assert [Response(r, true)] + [Response(start, true)] == [Response(r, true), Response(start, true)];
      ConcatAssociative(t.wire, [Response(r, true)], [Response(start, true)]);
    case Rejected(text) =>
      if Formats(text) {
        RespondWrites(t, start, false);
      } else {
        FinallyWrites(t);
      }
    case NoServer =>
      FinallyWrites(t);
      RespondWrites(Finally(t), r, false);
      ConcatAssociative(t.wire, StartAnswer(t, how), [Response(r, false)]);
  }

  /** The same after `r` was answered out of turn. */
  lemma {:induction false} DelegateAfterAnswer(t: State, r: Request, how: Delegation)
    requires r in t.answered && t.room >= 2 + |Kept(t)|
    ensures Delegate(t, r, how).wire == t.wire + StartAnswer(t, how)
  {
    assert t.wire + [] == t.wire;
    match how
    case Result => FinallyWrites(t);
    case ServerGone => FinallyWrites(t);
    case Rejected(text) =>
      FinallyWrites(t);
      if t.startRequest.Some? && Formats(text) && t.startRequest.value !in t.answered {
        RespondWrites(t, t.startRequest.value, false);
      }
    case NoServer => FinallyWrites(t);
  }

  /** Every message of every run is accounted for: while the client takes them, each step writes exactly these. */
  lemma {:induction false} StepWrites(states: seq<System>, steps: seq<Step>, n: nat)
    requires Behavior(states, steps) && n < |steps| && TakesAll(states[n].state)
    ensures states[n + 1].state.wire == states[n].state.wire + Appended(states[n].state, steps[n])
  {
    InvHolds(states, steps, n);
    assert Enabled(states[n], steps[n]);
    EffectWrites(states[n], steps[n]);
  }

  lemma {:induction false} EffectWrites(s: System, step: Step)
    requires Inv(s) && Enabled(s, step) && TakesAll(s.state)
    ensures Effect(s.state, step).wire == s.state.wire + Appended(s.state, step)
  {
    assert s.state.wire + [] == s.state.wire;
    match step
    case HandleEvent(_) =>
    case HandleInitialize(r, valid) => NewRequest(s, r, s.state.initialized);
    case HandleStart(r, busy, outcome) => StartWrites(s, r, busy, outcome);
    case HandleConfigurationDone(r, how) => ConfigurationWrites(s, r, how);
  }

  lemma {:induction false} StartWrites(s: System, r: Request, busy: bool, outcome: StartOutcome)
    requires Inv(s) && r !in s.received && r.isStart && TakesAll(s.state)
    ensures Start(s.state, r, busy, outcome).wire == s.state.wire + Appended(s.state, HandleStart(r, busy, outcome))
  {
    NewRequest(s, r, s.state.initialized);
    if s.state.initialized && !busy && outcome.Proceeds? && outcome.noDebug {
      var t := s.state.(initialized := !outcome.withServer);
      AnswerStartWrites(t.(startRequest := Some(r), hasStarted := true), r);
    }
  }

  lemma {:induction false} ConfigurationWrites(s: System, r: Request, how: Delegation)
    requires Inv(s) && r !in s.received && !r.isStart && TakesAll(s.state)
    ensures ConfigurationDone(s.state, r, how).wire == s.state.wire + Appended(s.state, HandleConfigurationDone(r, how))
  {
    var t := Configuring(s.state, r);
    NewRequest(s, r, s.state.initialized);
    if OutOfTurn(s.state) {
      RespondWrites(s.state, r, false);
      DelegateAfterAnswer(t, r, how);
      ConcatAssociative(s.state.wire, [Response(r, false)], StartAnswer(s.state, how));
    } else {
      DelegateWrites(t, r, how);
    }
  }

  /** What the steps do to the other fields, whatever the client takes. */
  lemma {:induction false} StepFields(states: seq<System>, steps: seq<Step>, n: nat)
    requires Behavior(states, steps) && n < |steps|
    ensures var s, e := states[n].state, states[n + 1].state;
            match steps[n]
            case HandleEvent(event) =>
              e.initialized == s.initialized && e.startRequest == s.startRequest && e.hasStarted == s.hasStarted
            case HandleInitialize(_, valid) =>
              e.initialized == (s.initialized || valid) && e.startRequest == s.startRequest
              && e.hasStarted == s.hasStarted && e.deferred == s.deferred
            case HandleStart(r, busy, outcome) =>
              var begun := s.initialized && !busy;
              var used := outcome.ServerRejects? || outcome.ServerLeaves? || (outcome.Proceeds? && outcome.withServer);
              var waits := begun && outcome.Proceeds?;
              && e.initialized == (s.initialized && !(begun && used))
              && (waits && (outcome.noDebug || s.room > 0) ==> e.startRequest == Some(r))
              && (!waits ==> e.startRequest == s.startRequest)
              && e.hasStarted == (s.hasStarted || (waits && outcome.noDebug))
              && (!(waits && outcome.noDebug) ==> e.deferred == s.deferred)
            case HandleConfigurationDone(_, _) =>
              e.initialized == s.initialized && e.startRequest == s.startRequest
              && (s.room > 0 ==> e.hasStarted)
  {
    InvHolds(states, steps, n);
    assert Enabled(states[n], steps[n]);
    EffectFields(states[n].state, steps[n]);
    if steps[n].HandleConfigurationDone? {
      NewRequest(states[n], steps[n].request, states[n].state.initialized);
    }
  }

  lemma {:induction false} EffectFields(s: State, step: Step)
    ensures var e := Effect(s, step);
            && (step.HandleConfigurationDone? ==>
                  && e.initialized == s.initialized && e.startRequest == s.startRequest
                  && (s.room > 0 && step.request !in s.answered ==> e.hasStarted))
  {
    if step.HandleConfigurationDone? {
      DelegateFields(Configuring(s, step.request), step.request, step.how);
    }
  }

  lemma {:induction false} DelegateFields(t: State, r: Request, how: Delegation)
    ensures var e := Delegate(t, r, how);
            e.initialized == t.initialized && e.startRequest == t.startRequest && e.hasStarted == t.hasStarted
  {
    FinallyFields(t);
    match how
    case Result => FinallyFields(Respond(t, r, true));
    case ServerGone =>
      if t.startRequest.Some? {
        FinallyFields(Respond(Respond(t, r, true), t.startRequest.value, true));
      }
    case Rejected(text) =>
      if t.startRequest.Some? {
        FinallyFields(Respond(t, t.startRequest.value, false));
      }
    case NoServer =>
  }

  lemma {:induction false} FinallyFields(s: State)
    ensures var e := Finally(s);
            e.initialized == s.initialized && e.startRequest == s.startRequest && e.hasStarted == s.hasStarted
  {
  }
}
