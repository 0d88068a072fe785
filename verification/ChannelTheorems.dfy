/** What a channel guarantees over whole interleavings, and two things its documentation suggests that it does not. */
module ChannelTheorems {
  import opened Basics
  import opened Channel
  import opened ChannelRuns
  import opened ChannelInvariants

  predicate ExactlyOne(a: bool, b: bool, c: bool) {
    (a && !b && !c) || (!a && b && !c) || (!a && !b && c)
  }

  /** No two messages on the wire share a sequence number; every registered request is in exactly one of
      pending, popped-by-parser, answered; once the parser has ended by NoMoreMessages, every request whose send
      returned normally is answered. */
  lemma {:induction false} RequestLifecycle(states: seq<System>, steps: seq<Step>, i: nat)
    requires Behavior(states, steps) && i < |states|
    ensures var s := states[i];
      && Distinct(s.wire)
      && (forall r :: r in s.returned ==> r in s.wire && r in s.chan.requests)
      && (forall r :: r in s.chan.requests ==>
            ExactlyOne(r in s.chan.sent, InParser(s.parser, r), s.chan.requests[r].response.Some?))
      && (s.parser.Finished? ==> forall r :: r in s.returned ==>
            r in s.chan.requests && s.chan.requests[r].response.Some?)
  {
    InvHolds(states, steps, i);
    var s := states[i];
    assert forall r :: r in s.returned ==> r in s.chan.requests.Keys;
  }

  // ---- What only ever grows ----

  /** Answered requests keep their response from `a` to `b`. */
  ghost predicate ResponsesKept(a: map<int, OutgoingRequest>, b: map<int, OutgoingRequest>) {
    forall r :: r in a ==> r in b && (a[r].response.Some? ==> b[r].response == a[r].response)
  }

  /** `e` can come after `s`: responses stay as they are, the histories only grow, an ended parser stays ended, and
      one that died leaves pending requests pending. */
  ghost predicate Later(s: System, e: System) {
    && ResponsesKept(s.chan.requests, e.chan.requests)
    && s.enqueued <= e.enqueued && s.executed <= e.executed && s.returned <= e.returned
    && (ParserEnded(s.parser) ==> e.parser == s.parser)
    && (s.parser.Died? ==> forall r :: r in s.chan.sent ==> r in e.chan.sent)
  }

  lemma {:induction false} LaterTransitive(a: System, b: System, c: System)
    requires Later(a, b) && Later(b, c)
    ensures Later(a, c)
  {
  }

  lemma {:induction false} AnswerLater(s: System)
    requires Inv(s) && s.parser.Popped? && (s.parser.request.Some? ==> s.parser.request.value in s.chan.requests)
    ensures Later(s, AnswerEffect(s))
  {
    if s.parser.request.Some? {
      var r := s.parser.request.value;
      assert InParser(s.parser, r);
      assert Answer(s.chan, r, s.parser.response).requests
          == s.chan.requests[r := OutgoingRequest(Some(s.parser.response), [])];
    }
  }

  lemma {:induction false} DrainLater(s: System, snapshot: seq<int>)
    requires Inv(s) && s.parser.Reading? && s.chan.sent == snapshot
    requires forall r :: r in snapshot ==> r in s.chan.requests
    ensures Later(s, DrainEffect(s, snapshot))
    decreases |snapshot|
  {
    if snapshot != [] {
      var r, rest := snapshot[0], snapshot[1..];
      assert snapshot == [r] + rest && r in snapshot;
      var p := PopEffect(s, r, NoMoreMessages);
      var d := AnswerEffect(p);
      PopKeeps(s, r, NoMoreMessages);
      AnswerLater(p);
      assert Later(s, p);
      LaterTransitive(s, p, d);
      DrainOne(s, r, rest);
      assert forall q :: q in rest ==> q in s.chan.requests.Keys;
      DrainLater(d, rest);
      LaterTransitive(s, d, DrainEffect(d, rest));
    }
  }

  lemma {:induction false} OnResponseLater(s: System, r: int, h: int)
    requires r in s.chan.requests && r in s.registered
    ensures Later(s, OnResponseEffect(s, r, h))
  {
  }

  lemma {:induction false} SendRequestLater(s: System, n: int, early: seq<int>, ok: bool)
    requires Inv(s) && n in s.inFlight
    ensures Later(s, SendRequestEffect(s, n, early, ok))
  {
    assert n !in s.chan.requests.Keys;
  }

  lemma {:induction false} DisconnectLater(s: System)
    requires s.parser.Reading?
    ensures Later(s, DisconnectEffect(s))
  {
  }

  lemma {:induction false} EndLater(s: System)
    requires Inv(s) && Enabled(s, ParseEnd)
    ensures Later(s, DisconnectEffect(DrainEffect(s, s.chan.sent)))
  {
    var d := DrainEffect(s, s.chan.sent);
    DrainLater(s, s.chan.sent);
    DrainKeeps(s, s.chan.sent);
    DisconnectLater(d);
    LaterTransitive(s, d, DisconnectEffect(d));
  }

  lemma {:induction false} WorkerLater(s: System, step: Step)
    requires Enabled(s, step) && (step.WorkerRead? || step.WorkerTake? || step.WorkerWake? || step.WorkerRun?)
    ensures Later(s, Apply(s, step))
  {
  }

  lemma {:induction false} ParseLater(s: System, step: Step)
    requires Inv(s) && Enabled(s, step)
    requires step.ParseMessage? || step.ParsePop? || step.ParseAnswer? || step.ParseEnd? || step.ParseDie?
    ensures Later(s, Apply(s, step))
  {
    match step
    case ParseAnswer => AnswerLater(s);
    case ParseEnd => EndLater(s);
    case _ =>
  }

  lemma {:induction false} StepLater(s: System, step: Step)
    requires Inv(s) && Enabled(s, step)
    ensures Later(s, Apply(s, step))
  {
    if step.WorkerRead? || step.WorkerTake? || step.WorkerWake? || step.WorkerRun? {
      WorkerLater(s, step);
    } else if step.ParseMessage? || step.ParsePop? || step.ParseAnswer? || step.ParseEnd? || step.ParseDie? {
      ParseLater(s, step);
    } else if step.SendRequest? {
      SendRequestLater(s, step.seqNo, step.early, step.ok);
    } else if step.OnResponseStep? {
      OnResponseLater(s, step.request, step.handler);
    }
  }

  lemma {:induction false} NextLater(states: seq<System>, steps: seq<Step>, i: nat)
    requires Behavior(states, steps) && i < |steps|
    ensures Later(states[i], states[i + 1])
  {
    InvHolds(states, steps, i);
    StepLater(states[i], steps[i]);
  }

  lemma {:induction false} LaterInRun(states: seq<System>, steps: seq<Step>, i: nat, j: nat)
    requires Behavior(states, steps) && i <= j < |states|
    ensures Later(states[i], states[j])
    decreases j
  {
    if i < j {
      LaterInRun(states, steps, i, j - 1);
      NextLater(states, steps, j - 1);
      LaterTransitive(states[i], states[j - 1], states[j]);
    }
  }

  /** The response of a request is set at most once: no later step changes it. */
  lemma {:induction false} ResponseSetOnce(states: seq<System>, steps: seq<Step>, i: nat, j: nat, r: int)
    requires Behavior(states, steps) && i <= j < |states|
    requires r in states[i].chan.requests && states[i].chan.requests[r].response.Some?
    ensures r in states[j].chan.requests
    ensures states[j].chan.requests[r].response == states[i].chan.requests[r].response
  {
    LaterInRun(states, steps, i, j);
  }

  /** When the parser leaves its loop by another exception than NoMoreMessages, nobody answers the requests that
      are pending: they stay pending, without a response, for the rest of the run. Together with RequestLifecycle:
      what is pending when the parser ends gets its response exactly when the end is NoMoreMessages. */
  lemma {:induction false} DiedParserAnswersNothing(states: seq<System>, steps: seq<Step>, i: nat, j: nat, r: int)
    requires Behavior(states, steps) && i <= j < |states|
    requires states[i].parser.Died? && r in states[i].chan.sent
    ensures r in states[j].chan.requests && states[j].chan.requests[r].response.None?
  {
    LaterInRun(states, steps, i, j);
    InvHolds(states, steps, j);
  }

  /** A response with an unknown or already answered request_seq changes no request and no pending entry, at
      neither of its two lock sections, and enqueues no handler. */
  lemma {:induction false} UnknownResponseChangesNothing(s: System, r: int, response: Response)
    requires Inv(s) && Enabled(s, ParsePop(r, response)) && r !in s.chan.sent
    ensures var p := Apply(s, ParsePop(r, response));
      && p.chan == s.chan && Enabled(p, ParseAnswer)
      && var a := Apply(p, ParseAnswer);
         && a.chan.requests == s.chan.requests && a.chan.sent == s.chan.sent
         && a.enqueued == s.enqueued + [ResponseItem(None, response, [])]
  {
  }

  // ---- Handlers ----

  /** At every moment there is at most one handler thread, and one if the queue is not empty; the handlers run so
      far are, in order, the items enqueued first; and when no handler thread is left, every item ever enqueued was
      run, those enqueued before a close() and those that an on_response() after it enqueued included. */
  lemma {:induction false} HandlersRunOnceInOrder(states: seq<System>, steps: seq<Step>, i: nat)
    requires Behavior(states, steps) && i < |states|
    ensures var s := states[i];
      && |s.workers| <= 1
      && s.workers.Keys == (if s.chan.worker.Some? then {s.chan.worker.value} else {})
      && (s.chan.queue != [] ==> s.workers.Keys != {})
      && s.executed <= s.enqueued
      && (s.workers.Keys == {} ==> s.executed == s.enqueued)
  {
    InvHolds(states, steps, i);
    var s := states[i];
    assert |s.workers.Keys| <= 1;
  }

  /** The history of the queue and of the handlers only grows, so that "first" above means first in time. */
  lemma {:induction false} HistoriesGrow(states: seq<System>, steps: seq<Step>, i: nat, j: nat)
    requires Behavior(states, steps) && i <= j < |states|
    ensures states[i].enqueued <= states[j].enqueued && states[i].executed <= states[j].executed
  {
    LaterInRun(states, steps, i, j);
  }

  predicate EnqueuesForParser(step: Step) {
    step.ParseMessage? || step.ParseAnswer? || step.ParseEnd?
  }

  /** Disconnect is enqueued when the parser finishes, and at no other time; only responses that on_response()
      enqueues follow it; the parser enqueues nothing more. */
  lemma {:induction false} DisconnectOnceAndLast(states: seq<System>, steps: seq<Step>, i: nat)
    requires Behavior(states, steps) && i < |states|
    ensures var s := states[i];
      if s.parser.Finished? then
        && (exists at: nat :: at < |s.enqueued| && s.enqueued[at] == DisconnectItem
              && (forall k :: 0 <= k < |s.enqueued| && k != at ==> s.enqueued[k] != DisconnectItem)
              && forall k :: at < k < |s.enqueued| ==> FromOnResponse(s.enqueued[k]))
        && (forall j :: i <= j < |steps| ==> !EnqueuesForParser(steps[j]))
      else DisconnectItem !in s.enqueued
  {
    InvHolds(states, steps, i);
    var s := states[i];
    if s.parser.Finished? {
      var at := s.disconnectAt.value;
      assert s.enqueued[at] == DisconnectItem;
      forall j | i <= j < |steps| ensures !EnqueuesForParser(steps[j]) {
        LaterInRun(states, steps, i, j);
        assert Enabled(states[j], steps[j]);
      }
    }
  }

  /** No lost wakeup. A handler thread is asleep without a pending notification only while the queue is empty and the
      parser has not finished; a wait_for_response() call only while its request has no response. */
  lemma {:induction false} NoLostWakeup(states: seq<System>, steps: seq<Step>, i: nat)
    requires Behavior(states, steps) && i < |states|
    ensures var s := states[i];
      && (forall t :: WorkerSleep(t) in s.chan.asleep ==> s.chan.queue == [] && !s.parser.Finished?)
      && (forall w :: WaiterSleep(w) in s.chan.asleep ==>
            && w in s.waiters && s.waiters[w] in s.chan.requests
            && s.chan.requests[s.waiters[w]].response.None?)
  {
    InvHolds(states, steps, i);
  }

  /** Every handler given to on_response() is enqueued exactly once, in registration order, together with the
      response its request has, as soon as there is one; until then the request holds it. */
  lemma {:induction false} ResponseHandlersEnqueuedOnce(states: seq<System>, steps: seq<Step>, i: nat, r: int)
    requires Behavior(states, steps) && i < |states| && r in states[i].chan.requests
    ensures var s := states[i];
      && r in s.registered
      && (if s.chan.requests[r].response.Some? then HandlersFor(s.enqueued, r) == s.registered[r]
          else HandlersFor(s.enqueued, r) + s.chan.requests[r].handlers == s.registered[r])
      && (forall k :: 0 <= k < |s.enqueued| && s.enqueued[k].ResponseItem? && s.enqueued[k].request == Some(r) ==>
            s.chan.requests[r].response == Some(s.enqueued[k].response))
  {
    InvHolds(states, steps, i);
    var s := states[i];
    assert r in s.registered.Keys;
    assert HandlersFor(s.enqueued, r) + [] == HandlersFor(s.enqueued, r);
    forall k | 0 <= k < |s.enqueued| && s.enqueued[k].ResponseItem? && s.enqueued[k].request == Some(r)
      ensures s.chan.requests[r].response == Some(s.enqueued[k].response)
    {
      assert CarriesResponse(s.enqueued[k], s.chan.requests);
    }
  }

  // ---- The handler thread quits ----

  /** An upper bound on the handler thread's remaining steps when nothing more is enqueued. */
  function Remaining(s: System): nat {
    if s.chan.worker.None? || s.chan.worker.value !in s.workers then 0
    else
      var pc := s.workers[s.chan.worker.value];
      5 * (|s.chan.queue| + (if pc.Run? then |pc.batch| else 0)) +
      (match pc
       case Run(_, batch) => if batch == [] then 4 else 0
       case Top => 3
       case Read(_) => 2
       case Waiting => 1)
  }

  /** The next step of handler thread `t`. */
  function WorkerNext(s: System, t: nat): Step
    requires t in s.workers
  {
    match s.workers[t]
    case Top => WorkerRead(t)
    case Read(_) => WorkerTake(t)
    case Waiting => WorkerWake(t)
    case Run(_, _) => WorkerRun(t)
  }

  /** Once the parser has finished, the handler thread, provided that each handler it runs returns, is never blocked
      and each of its steps brings it closer to quitting. */
  lemma {:induction false} WorkerProgress(s: System, t: nat)
    requires Inv(s) && s.parser.Finished? && t in s.workers
    ensures Enabled(s, WorkerNext(s, t))
    ensures Remaining(Apply(s, WorkerNext(s, t))) < Remaining(s)
    ensures Apply(s, WorkerNext(s, t)).parser.Finished? && Apply(s, WorkerNext(s, t)).enqueued == s.enqueued
  {
    assert t in s.workers.Keys && s.chan.worker == Some(t);
    assert s.chan.closed;
  }

  /** Running nothing but the handler thread, all handlers returning. */
  ghost function RunWorker(s: System): (e: System)
    requires Inv(s) && s.parser.Finished?
    ensures Inv(e) && e.workers.Keys == {} && e.executed == e.enqueued == s.enqueued
    decreases Remaining(s)
  {
    if s.chan.worker.None? then
      s
    else
      var t := s.chan.worker.value;
      assert t in s.workers.Keys;
      WorkerProgress(s, t);
      StepKeeps(s, WorkerNext(s, t));
      RunWorker(Apply(s, WorkerNext(s, t)))
  }

  // ---- The end of the parser is one lock section ----

  lemma {:induction false} DrainIsAnswerAll(s: System, snapshot: seq<int>)
    requires forall r :: r in snapshot ==> r in s.chan.requests
    requires s.chan.sent == snapshot && Distinct(snapshot)
    ensures DrainEffect(s, snapshot).chan == AnswerAll(s.chan, snapshot)
    decreases |snapshot|
  {
    if snapshot != [] {
      var r, rest := snapshot[0], snapshot[1..];
      assert snapshot == [r] + rest && r in snapshot;
      var d := AnswerEffect(PopEffect(s, r, NoMoreMessages));
      assert d.chan == AnswerNext(s.chan, r) && d.chan.sent == rest;
      assert forall q :: q in rest ==> q in s.chan.requests.Keys;
      DrainIsAnswerAll(d, rest);
    }
  }

  /** The step that ends the parser leaves the channel as the section that the channel object runs does. */
  lemma {:induction false} EndStepIsShutdown(s: System)
    requires Inv(s) && Enabled(s, ParseEnd)
    ensures Apply(s, ParseEnd).chan == Shutdown(s.chan)
  {
    DrainIsAnswerAll(s, s.chan.sent);
  }

  // ---- close() does not stop events ----

  predicate IsIncoming(item: Item) {
    item.EventItem? || item.RequestItem?
  }

  /** Whether a request or event is among the items from position `from` on. */
  ghost predicate IncomingFrom(items: seq<Item>, from: nat) {
    exists k :: from <= k < |items| && IsIncoming(items[k])
  }

  /** The documentation of close() says that no request or event handler runs after it, even for messages that have
      already been received. In fact, of a moment when the channel is closed and any later end of the handler thread:
      a request or event handler ran in between exactly when a request or event was enqueued beyond those already run;
      and everything that was enqueued was run. */
  lemma {:induction false} CloseStopsNothing(states: seq<System>, steps: seq<Step>, i: nat, j: nat)
    requires Behavior(states, steps) && i <= j < |states|
    requires states[i].chan.closed && states[j].workers.Keys == {}
    ensures IncomingFrom(states[j].executed, |states[i].executed|) <==>
            IncomingFrom(states[j].enqueued, |states[i].executed|)
    ensures IncomingFrom(states[i].enqueued, |states[i].executed|) ==>
            IncomingFrom(states[j].executed, |states[i].executed|)
    ensures states[i].enqueued <= states[j].executed
  {
    HandlersRunOnceInOrder(states, steps, j);
    HistoriesGrow(states, steps, i, j);
    if IncomingFrom(states[i].enqueued, |states[i].executed|) {
      var k :| |states[i].executed| <= k < |states[i].enqueued| && IsIncoming(states[i].enqueued[k]);
      assert IsIncoming(states[j].executed[k]);
    }
  }

  lemma {:induction false} Extend(states: seq<System>, steps: seq<Step>, step: Step)
    requires Behavior(states, steps) && Enabled(states[|steps|], step)
    ensures Behavior(states + [Apply(states[|steps|], step)], steps + [step])
  {
    var states', steps' := states + [Apply(states[|steps|], step)], steps + [step];
    forall i | 0 <= i < |steps'| ensures Enabled(states'[i], steps'[i]) &&
        states'[i + 1] == Apply(states'[i], steps'[i]) {
      assert i < |steps| ==> steps'[i] == steps[i];
    }
  }

  lemma {:induction false} ClosedWithEvent() returns (states: seq<System>, steps: seq<Step>)
    ensures Behavior(states, steps) && |steps| == 3
    ensures states[3] == System(State(true, 1, [], map[], [EventItem(0)], Some(0), 1, {}), {}, Reading, map[0 := Top],
                                map[], [], {}, [EventItem(0)], [], None, map[])
  {
    states, steps := [Init()], [];
    Extend(states, steps, StartParser);
    states, steps := states + [Apply(states[|steps|], StartParser)], steps + [StartParser];
    Extend(states, steps, ParseMessage(EventItem(0)));
    states, steps := states + [Apply(states[|steps|], ParseMessage(EventItem(0)))],
        steps + [ParseMessage(EventItem(0))];
    Extend(states, steps, CloseStep);
    states, steps := states + [Apply(states[|steps|], CloseStep)], steps + [CloseStep];
  }

  lemma {:induction false} EndedWithEvent() returns (states: seq<System>, steps: seq<Step>)
    ensures Behavior(states, steps) && |steps| == 4 && states[3].chan.closed && states[3].executed == []
    ensures states[4] == System(State(true, 1, [], map[], [EventItem(0), DisconnectItem], Some(0), 1, {}), {}, Finished,
                                map[0 := Top], map[], [], {}, [EventItem(0), DisconnectItem], [], Some(1), map[])
  {
    states, steps := ClosedWithEvent();
    Extend(states, steps, ParseEnd);
    states, steps := states + [Apply(states[3], ParseEnd)], steps + [ParseEnd];
  }

  /** A run where an event handler runs after close(): the event is parsed, the channel closes, the parser meets the
      end of the stream, and the handler thread, having read that the channel is closed, runs the event. */
  lemma {:induction false} EventRunsAfterClose() returns (states: seq<System>, steps: seq<Step>)
    ensures Behavior(states, steps) && |steps| == 7
    ensures states[3].chan.closed && states[3].executed == [] && states[7].executed == [EventItem(0)]
  {
    states, steps := EndedWithEvent();
    Extend(states, steps, WorkerRead(0));
    states, steps := states + [Apply(states[4], WorkerRead(0))], steps + [WorkerRead(0)];
    Extend(states, steps, WorkerTake(0));
    states, steps := states + [Apply(states[5], WorkerTake(0))], steps + [WorkerTake(0)];
    Extend(states, steps, WorkerRun(0));
    states, steps := states + [Apply(states[6], WorkerRun(0))], steps + [WorkerRun(0)];
  }

  /** A run in which the parser dies with a request pending, which therefore never gets a response. */
  lemma {:induction false} DiedWithPendingRequest() returns (states: seq<System>, steps: seq<Step>)
    ensures Behavior(states, steps) && |steps| == 4
    ensures states[4].parser.Died? && 1 in states[4].returned && 1 in states[4].chan.sent
  {
    states, steps := [Init()], [];
    Extend(states, steps, StartParser);
    states, steps := states + [Apply(states[0], StartParser)], steps + [StartParser];
    Extend(states, steps, TakeSeqStep);
    states, steps := states + [Apply(states[1], TakeSeqStep)], steps + [TakeSeqStep];
    Extend(states, steps, SendRequest(1, [], true));
    states, steps := states + [Apply(states[2], SendRequest(1, [], true))], steps + [SendRequest(1, [], true)];
    Extend(states, steps, ParseDie);
    states, steps := states + [Apply(states[3], ParseDie)], steps + [ParseDie];
  }
}
