/** What a channel's state says about the steps that led to it: who sent what, which response belongs to which request,
    and what was enqueued when. */
module ChannelHistories {
  import opened Basics
  import opened Channel
  import opened ChannelRuns
  import opened ChannelInvariants
  import opened ChannelTheorems

  function ResponseOf(s: System, r: int): Option<Response> {
    if r in s.chan.requests then s.chan.requests[r].response else None
  }

  // ---- Numbers ----

  /** The numbers that the steps wrote, in order. */
  function Written(steps: seq<Step>): seq<int> {
    if steps == [] then []
    else
      var last := steps[|steps| - 1];
      var before := Written(steps[..|steps| - 1]);
      if (last.SendMessage? || last.SendRequest?) && last.ok then before + [last.seqNo] else before
  }

  /** The requests whose send returned normally. */
  function Returned(steps: seq<Step>): set<int> {
    set k | 0 <= k < |steps| && steps[k].SendRequest? && steps[k].ok :: steps[k].seqNo
  }

  function Takes(steps: seq<Step>): nat {
    if steps == [] then 0
    else Takes(steps[..|steps| - 1]) + if steps[|steps| - 1].TakeSeqStep? then 1 else 0
  }

  /** The handlers that the steps gave to a request: by on_before_send, and by on_response(). */
  function Given(steps: seq<Step>, r: int): seq<int> {
    if steps == [] then []
    else
      var last := steps[|steps| - 1];
      var before := Given(steps[..|steps| - 1], r);
      match last
      case SendRequest(n, early, _) => if n == r then early else before
      case OnResponseStep(q, h) => if q == r then before + [h] else before
      case _ => before
  }

  /** What one step does to the records of sending and registering. */
  ghost predicate RecordsStep(s: System, step: Step, e: System) {
    && e.chan.nextSeq == s.chan.nextSeq + (if step.TakeSeqStep? then 1 else 0)
    && e.wire == (if (step.SendMessage? || step.SendRequest?) && step.ok then s.wire + [step.seqNo] else s.wire)
    && e.returned == (if step.SendRequest? && step.ok then s.returned + {step.seqNo} else s.returned)
    && e.registered == (match step
                        case SendRequest(n, early, _) => s.registered[n := early]
                        case OnResponseStep(r, h) =>
                          if r in s.registered then s.registered[r := s.registered[r] + [h]] else s.registered
                        case _ => s.registered)
  }

  lemma {:induction false} StepRecords(s: System, step: Step)
    requires Inv(s) && Enabled(s, step)
    ensures RecordsStep(s, step, Apply(s, step))
  {
    if step.ParseEnd? {
      DrainRecords(s, s.chan.sent);
    } else if step.ParseAnswer? {
      AnswerRecords(s);
    } else if step.WorkerRead? || step.WorkerTake? || step.WorkerWake? || step.WorkerRun? {
      WorkerRecords(s, step);
    } else if step.OnResponseStep? {
      OnResponseRecords(s, step.request, step.handler);
    } else {
      OtherRecords(s, step);
    }
  }

  lemma {:induction false} AnswerRecords(s: System)
    requires Enabled(s, ParseAnswer)
    ensures RecordsStep(s, ParseAnswer, AnswerEffect(s))
  {
  }

  lemma {:induction false} OnResponseRecords(s: System, r: int, h: int)
    requires Enabled(s, OnResponseStep(r, h))
    ensures RecordsStep(s, OnResponseStep(r, h), OnResponseEffect(s, r, h))
  {
  }

  lemma {:induction false} WorkerRecords(s: System, step: Step)
    requires Enabled(s, step) && (step.WorkerRead? || step.WorkerTake? || step.WorkerWake? || step.WorkerRun?)
    ensures RecordsStep(s, step, Apply(s, step))
  {
  }

  lemma {:induction false} OtherRecords(s: System, step: Step)
    requires Enabled(s, step) && !step.ParseEnd? && !step.ParseAnswer? && !step.OnResponseStep?
    requires !step.WorkerRead? && !step.WorkerTake? && !step.WorkerWake? && !step.WorkerRun?
    ensures RecordsStep(s, step, Apply(s, step))
  {
  }

  lemma {:induction false} DrainRecords(s: System, snapshot: seq<int>)
    requires forall r :: r in snapshot ==> r in s.chan.requests
    ensures var e := DrainEffect(s, snapshot);
            && e.wire == s.wire && e.returned == s.returned && e.registered == s.registered
            && e.chan.nextSeq == s.chan.nextSeq
    decreases |snapshot|
  {
    if snapshot != [] {
      DrainRecords(AnswerEffect(PopEffect(s, snapshot[0], NoMoreMessages)), snapshot[1..]);
    }
  }

  ghost predicate Records(s: System, steps: seq<Step>) {
    && s.wire == Written(steps) && s.returned == Returned(steps)
    && s.chan.nextSeq == 1 + Takes(steps)
    && HandlersMatch(s.registered, steps)
  }

  lemma {:induction false} WrittenSnoc(steps: seq<Step>, step: Step)
    ensures Written(steps + [step])
            == if (step.SendMessage? || step.SendRequest?) && step.ok then Written(steps) + [step.seqNo]
               else Written(steps)
  {
    assert (steps + [step])[..|steps|] == steps;
  }

  lemma {:induction false} TakesSnoc(steps: seq<Step>, step: Step)
    ensures Takes(steps + [step]) == Takes(steps) + if step.TakeSeqStep? then 1 else 0
  {
    assert (steps + [step])[..|steps|] == steps;
  }

  /** What a step adds to the handlers of a request. */
  lemma {:induction false} GivenSnoc(steps: seq<Step>, step: Step, r: int)
    ensures step.SendRequest? && step.seqNo == r ==> Given(steps + [step], r) == step.early
    ensures step.OnResponseStep? && step.request == r ==> Given(steps + [step], r) == Given(steps, r) + [step.handler]
    ensures !(step.SendRequest? && step.seqNo == r) && !(step.OnResponseStep? && step.request == r) ==>
              Given(steps + [step], r) == Given(steps, r)
  {
    assert (steps + [step])[..|steps|] == steps;
  }

  ghost predicate HandlersMatch(registered: map<int, seq<int>>, steps: seq<Step>) {
    forall r :: Given(steps, r) == if r in registered then registered[r] else []
  }

  lemma {:induction false} HandlersKept(
    before: map<int, seq<int>>, after: map<int, seq<int>>, steps: seq<Step>, step: Step)
    requires HandlersMatch(before, steps)
    requires step.OnResponseStep? ==>
               step.request in before && after == before[step.request := before[step.request] + [step.handler]]
    requires step.SendRequest? ==> after == before[step.seqNo := step.early]
    requires !step.OnResponseStep? && !step.SendRequest? ==> after == before
    ensures HandlersMatch(after, steps + [step])
  {
    forall r ensures Given(steps + [step], r) == if r in after then after[r] else [] {
      GivenSnoc(steps, step, r);
      assert Given(steps, r) == if r in before then before[r] else [];
    }
  }

  lemma {:induction false} RecordsKept(s: System, e: System, steps: seq<Step>, step: Step)
    requires Records(s, steps) && RecordsStep(s, step, e)
    requires step.OnResponseStep? ==> step.request in s.registered
    ensures Records(e, steps + [step])
  {
    WrittenSnoc(steps, step);
    TakesSnoc(steps, step);
    ReturnedSnoc(steps, step);
    HandlersKept(s.registered, e.registered, steps, step);
  }

  lemma {:induction false} RecordsGoOn(states: seq<System>, steps: seq<Step>, i: nat)
    requires Behavior(states, steps) && i < |steps| && Records(states[i], steps[..i])
    ensures Records(states[i + 1], steps[..i] + [steps[i]])
  {
    InvHolds(states, steps, i);
    NextRecords(states[i], steps[i], steps[..i], states[i + 1]);
  }

  /** In every state: the wire holds what the send steps wrote, in their order; `returned` the requests whose send
      returned; the next number counts the sends begun, from 1; each request's handlers are those given, in order. */
  lemma {:induction false} RecordsAreExact(states: seq<System>, steps: seq<Step>, i: nat)
    requires Behavior(states, steps) && i < |states|
    ensures Records(states[i], steps[..i])
  {
    if i > 0 {
      RecordsAreExact(states, steps, i - 1);
      RecordsGoOn(states, steps, i - 1);
      assert steps[..i] == steps[..i - 1] + [steps[i - 1]];
    } else {
      assert steps[..0] == [];
      NoRecords();
    }
  }

  lemma {:induction false} NoRecords()
    ensures Records(Init(), [])
  {
  }

  lemma {:induction false} StepKeepsRecords(s: System, step: Step, steps: seq<Step>)
    requires Inv(s) && Enabled(s, step) && Records(s, steps)
    ensures Records(Apply(s, step), steps + [step])
  {
    StepRecords(s, step);
    RecordsKept(s, Apply(s, step), steps, step);
  }

  lemma {:induction false} NextRecords(s: System, step: Step, steps: seq<Step>, e: System)
    requires Inv(s) && Enabled(s, step) && e == Apply(s, step) && Records(s, steps)
    ensures Records(e, steps + [step])
  {
    StepKeepsRecords(s, step, steps);
  }

  lemma {:induction false} ReturnedSnoc(steps: seq<Step>, step: Step)
    ensures Returned(steps + [step])
            == Returned(steps) + if step.SendRequest? && step.ok then {step.seqNo} else {}
  {
    var all := steps + [step];
    forall n ensures n in Returned(all) <==> n in Returned(steps) || (step.SendRequest? && step.ok && n == step.seqNo) {
      if n in Returned(steps) {
        var k :| 0 <= k < |steps| && steps[k].SendRequest? && steps[k].ok && n == steps[k].seqNo;
        assert all[k] == steps[k];
      }
      if step.SendRequest? && step.ok && n == step.seqNo {
        assert all[|steps|] == step;
      }
    }
  }

  // ---- Responses ----

  /** What one step does to the response of a request that has none. */
  lemma {:induction false} StepResponse(s: System, step: Step, r: int)
    requires Inv(s) && Enabled(s, step) && ResponseOf(s, r).None?
    ensures ResponseOf(Apply(s, step), r)
            == if step.ParseAnswer? && s.parser.request == Some(r) then Some(s.parser.response)
               else if step.ParseEnd? && r in s.chan.sent then Some(NoMoreMessages)
               else None
  {
    if step.ParseEnd? {
      DrainResponses(s, s.chan.sent);
    } else if step.ParseAnswer? {
      AnswerResponse(s, r);
    } else {
      OtherResponse(s, step, r);
    }
  }

  lemma {:induction false} AnswerResponse(s: System, r: int)
    requires Inv(s) && Enabled(s, ParseAnswer) && ResponseOf(s, r).None?
    ensures ResponseOf(AnswerEffect(s), r)
            == if s.parser.request == Some(r) then Some(s.parser.response) else None
  {
  }

  lemma {:induction false} OtherResponse(s: System, step: Step, r: int)
    requires Enabled(s, step) && ResponseOf(s, r).None? && !step.ParseEnd? && !step.ParseAnswer?
    ensures ResponseOf(Apply(s, step), r).None?
  {
  }

  lemma {:induction false} DrainResponses(s: System, snapshot: seq<int>)
    requires Inv(s) && s.parser.Reading? && s.chan.sent == snapshot
    requires forall r :: r in snapshot ==> r in s.chan.requests
    ensures var e := DrainEffect(s, snapshot);
            && e.chan.requests.Keys == s.chan.requests.Keys
            && (forall r :: r in s.chan.requests ==>
                  ResponseOf(e, r) == if r in snapshot then Some(NoMoreMessages) else ResponseOf(s, r))
            && e.enqueued == s.enqueued + ClosingItems(s.chan.requests, snapshot)
    decreases |snapshot|
  {
    if snapshot != [] {
      var r, rest := snapshot[0], snapshot[1..];
      assert snapshot == [r] + rest && r in snapshot;
      DrainOne(s, r, rest);
      AnsweredOne(s, r, rest);
      var d := AnswerEffect(PopEffect(s, r, NoMoreMessages));
      assert forall q :: q in rest ==> q in d.chan.requests.Keys;
      DrainResponses(d, rest);
      assert r !in rest;
      ClosingItemsFrame(s.chan.requests, d.chan.requests, rest);
      var first := [ResponseItem(Some(r), NoMoreMessages, s.chan.requests[r].handlers)];
      assert ClosingItems(s.chan.requests, snapshot) == first + ClosingItems(s.chan.requests, rest);
      ConcatAssociative(s.enqueued, first, ClosingItems(s.chan.requests, rest));
    }
  }

  lemma {:induction false} AnsweredOne(s: System, r: int, rest: seq<int>)
    requires Inv(s) && s.chan.sent == [r] + rest && r in s.chan.requests
    ensures var d := AnswerEffect(PopEffect(s, r, NoMoreMessages));
            && d.chan.requests == s.chan.requests[r := OutgoingRequest(Some(NoMoreMessages), [])]
            && d.enqueued == s.enqueued + [ResponseItem(Some(r), NoMoreMessages, s.chan.requests[r].handlers)]
            && r !in rest
  {
    assert s.chan.sent[0] == r;
    assert forall k :: 0 <= k < |rest| ==> rest[k] == s.chan.sent[k + 1];
    assert r in s.chan.sent;
    AnswerPopped(PopEffect(s, r, NoMoreMessages), r);
  }

  lemma {:induction false} AnswerPopped(p: System, r: int)
    requires p.parser == Popped(Some(r), NoMoreMessages) && r in p.chan.requests
    ensures AnswerEffect(p).chan.requests == p.chan.requests[r := OutgoingRequest(Some(NoMoreMessages), [])]
    ensures AnswerEffect(p).enqueued
            == p.enqueued + [ResponseItem(Some(r), NoMoreMessages, p.chan.requests[r].handlers)]
  {
  }

  /** What a popped request can become: answered with what was received for it, or never. */
  ghost predicate PoppedWith(s: System, r: int, v: Response) {
    || ResponseOf(s, r) == Some(v)
    || (ResponseOf(s, r).None? && s.parser == Popped(Some(r), v))
  }

  lemma {:induction false} PopBegins(states: seq<System>, steps: seq<Step>, n: nat, r: int, v: Response)
    requires Behavior(states, steps) && n < |steps| && steps[n] == ParsePop(r, v) && r in states[n].chan.sent
    ensures PoppedWith(states[n + 1], r, v)
  {
    InvHolds(states, steps, n);
    PopStep(states[n], r, v);
  }

  lemma {:induction false} PopGoesOn(states: seq<System>, steps: seq<Step>, m: nat, r: int, v: Response)
    requires Behavior(states, steps) && m < |steps| && PoppedWith(states[m], r, v)
    ensures PoppedWith(states[m + 1], r, v)
  {
    InvHolds(states, steps, m);
    PoppedStep(states[m], steps[m], r, v);
  }

  /** A response received for a pending request becomes the response of this request, and stays it: after the step that
      received it, the parser is about to set it, or has set it. */
  lemma {:induction false} ReceivedIsTheResponse(
    states: seq<System>, steps: seq<Step>, n: nat, m: nat, r: int, v: Response)
    requires Behavior(states, steps) && n < m < |states|
    requires steps[n] == ParsePop(r, v) && r in states[n].chan.sent
    ensures PoppedWith(states[m], r, v)
    decreases m
  {
    if m > n + 1 {
      ReceivedIsTheResponse(states, steps, n, m - 1, r, v);
      PopGoesOn(states, steps, m - 1, r, v);
    } else {
      PopBegins(states, steps, n, r, v);
    }
  }

  lemma {:induction false} PopStep(s: System, r: int, v: Response)
    requires Inv(s) && r in s.chan.sent
    ensures PoppedWith(PopEffect(s, r, v), r, v)
  {
  }

  lemma {:induction false} PoppedStep(s: System, step: Step, r: int, v: Response)
    requires Inv(s) && Enabled(s, step) && PoppedWith(s, r, v)
    ensures PoppedWith(Apply(s, step), r, v)
  {
    if ResponseOf(s, r) == Some(v) {
      StepLater(s, step);
    } else {
      StepResponse(s, step, r);
      OnlyAnswerFollowsPop(s, step);
    }
  }

  /** Between the two sections of Response._parse the parser does nothing else. */
  lemma {:induction false} OnlyAnswerFollowsPop(s: System, step: Step)
    requires Enabled(s, step) && s.parser.Popped?
    ensures !step.ParseAnswer? ==> Apply(s, step).parser == s.parser
  {
  }

  /** The second section follows at once: a state in which the parser is at another message shows the response. */
  lemma {:induction false} AnsweredWhenParserMovesOn(
    states: seq<System>, steps: seq<Step>, n: nat, m: nat, r: int, v: Response)
    requires Behavior(states, steps) && n < m < |states|
    requires steps[n] == ParsePop(r, v) && r in states[n].chan.sent && states[m].parser != Popped(Some(r), v)
    ensures ResponseOf(states[m], r) == Some(v)
  {
    ReceivedIsTheResponse(states, steps, n, m, r, v);
  }

  /** What the parser has popped was received for a pending request. */
  lemma {:induction false} PoppedWasReceived(states: seq<System>, steps: seq<Step>, m: nat, r: int) returns (n: nat)
    requires Behavior(states, steps) && m < |states|
    requires states[m].parser.Popped? && states[m].parser.request == Some(r)
    ensures n < m && steps[n] == ParsePop(r, states[m].parser.response) && r in states[n].chan.sent
  {
    assert m > 0;
    var s, step := states[m - 1], steps[m - 1];
    assert Enabled(s, step) && states[m] == Apply(s, step);
    if step.ParsePop? {
      n := m - 1;
    } else {
      ParserOf(s, step);
      n := PoppedWasReceived(states, steps, m - 1, r);
    }
  }

  lemma {:induction false} ParserOf(s: System, step: Step)
    requires Enabled(s, step) && Apply(s, step).parser.Popped? && !step.ParsePop?
    ensures s.parser == Apply(s, step).parser
  {
  }

  lemma {:induction false} ResponseNext(states: seq<System>, steps: seq<Step>, m: nat, r: int)
    requires Behavior(states, steps) && m < |steps| && ResponseOf(states[m + 1], r).Some?
    ensures var w := ResponseOf(states[m + 1], r).value;
            || ResponseOf(states[m], r) == Some(w)
            || (steps[m].ParseAnswer? && states[m].parser == Popped(Some(r), w))
            || (steps[m].ParseEnd? && r in states[m].chan.sent && w == NoMoreMessages)
  {
    InvHolds(states, steps, m);
    if ResponseOf(states[m], r).Some? {
      KeptResponse(states[m], steps[m], r);
    } else {
      NewResponse(states[m], steps[m], r, ResponseOf(states[m + 1], r).value);
    }
  }

  /** Every response was received for its request while that was pending, or is the NoMoreMessages of the end of the
      stream, which found it pending. */
  lemma {:induction false} ResponseComesFrom(states: seq<System>, steps: seq<Step>, m: nat, r: int) returns (n: nat)
    requires Behavior(states, steps) && m < |states| && ResponseOf(states[m], r).Some?
    ensures n < m && r in states[n].chan.sent
    ensures steps[n] == ParsePop(r, ResponseOf(states[m], r).value)
            || (steps[n] == ParseEnd && ResponseOf(states[m], r) == Some(NoMoreMessages))
  {
    assert m > 0;
    ResponseNext(states, steps, m - 1, r);
    if ResponseOf(states[m - 1], r) == ResponseOf(states[m], r) {
      n := ResponseComesFrom(states, steps, m - 1, r);
    } else if steps[m - 1].ParseAnswer? {
      n := PoppedWasReceived(states, steps, m - 1, r);
    } else {
      n := m - 1;
    }
  }

  lemma {:induction false} KeptResponse(s: System, step: Step, r: int)
    requires Inv(s) && Enabled(s, step) && ResponseOf(s, r).Some?
    ensures ResponseOf(Apply(s, step), r) == ResponseOf(s, r)
  {
    StepLater(s, step);
  }

  lemma {:induction false} NewResponse(s: System, step: Step, r: int, w: Response)
    requires Inv(s) && Enabled(s, step) && ResponseOf(s, r).None? && ResponseOf(Apply(s, step), r) == Some(w)
    ensures || (step.ParseAnswer? && s.parser == Popped(Some(r), w))
            || (step.ParseEnd? && r in s.chan.sent && w == NoMoreMessages)
  {
    StepResponse(s, step, r);
  }

  // ---- What is enqueued ----

  /** A step enqueues: a message it parsed; the response it set, with the handlers that its request held; at the end of
      the stream one NoMoreMessages for every pending request, in order, and Disconnect; for on_response(), the handler
      with the response if that is there; and otherwise nothing. */
  ghost predicate Enqueues(s: System, step: Step, after: seq<Item>) {
    var before := s.enqueued;
    match step
    case ParseMessage(item) => after == before + [item]
    case ParseAnswer =>
      s.parser.Popped?
      && after == before + [ResponseItem(s.parser.request, s.parser.response, HeldBy(s, s.parser.request))]
    case ParseEnd =>
      && |after| == |before| + |s.chan.sent| + 1 && before <= after
      && after[|after| - 1] == DisconnectItem
      && forall k :: 0 <= k < |s.chan.sent| ==>
           after[|before| + k]
           == ResponseItem(Some(s.chan.sent[k]), NoMoreMessages, HeldBy(s, Some(s.chan.sent[k])))
    case OnResponseStep(r, h) =>
      after == if ResponseOf(s, r).Some? then before + [ResponseItem(Some(r), ResponseOf(s, r).value, [h])] else before
    case _ => after == before
  }

  lemma {:induction false} EnqueuesOf(s: System, step: Step)
    requires Inv(s) && Enabled(s, step)
    ensures Enqueues(s, step, Apply(s, step).enqueued)
  {
    match step
    case ParseEnd => EndEnqueuesAll(s);
    case OnResponseStep(r, h) => OnResponseEnqueues(s, r, h);
    case ParseMessage(_) =>
    case ParseAnswer => AnswerEnqueues(s);
    case _ => OthersEnqueueNothing(s, step);
  }

  lemma {:induction false} AnswerEnqueues(s: System)
    requires Enabled(s, ParseAnswer)
    ensures Enqueues(s, ParseAnswer, AnswerEffect(s).enqueued)
  {
  }

  lemma {:induction false} EndEnqueuesAll(s: System)
    requires Inv(s) && Enabled(s, ParseEnd)
    ensures Enqueues(s, ParseEnd, Apply(s, ParseEnd).enqueued)
  {
    EndEnqueues(s);
  }

  /** So it is for every step of every run. */
  lemma {:induction false} StepEnqueues(states: seq<System>, steps: seq<Step>, i: nat)
    requires Behavior(states, steps) && i < |steps|
    ensures Enqueues(states[i], steps[i], states[i + 1].enqueued)
  {
    InvHolds(states, steps, i);
    EnqueuesOf(states[i], steps[i]);
  }

  lemma {:induction false} EndEnqueues(s: System)
    requires Inv(s) && Enabled(s, ParseEnd)
    ensures Apply(s, ParseEnd).enqueued == s.enqueued + ClosingItems(s.chan.requests, s.chan.sent) + [DisconnectItem]
    ensures var items := ClosingItems(s.chan.requests, s.chan.sent);
            && |items| == |s.chan.sent|
            && forall k :: 0 <= k < |items| ==>
                 items[k] == ResponseItem(Some(s.chan.sent[k]), NoMoreMessages, HeldBy(s, Some(s.chan.sent[k])))
  {
    DrainResponses(s, s.chan.sent);
    ClosingItemsAt(s.chan.requests, s.chan.sent);
  }

  lemma {:induction false} OnResponseEnqueues(s: System, r: int, h: int)
    requires Inv(s) && Enabled(s, OnResponseStep(r, h))
    ensures OnResponseEffect(s, r, h).enqueued
            == if ResponseOf(s, r).Some? then s.enqueued + [ResponseItem(Some(r), ResponseOf(s, r).value, [h])]
               else s.enqueued
  {
    assert s.enqueued + [] == s.enqueued;
    if ResponseOf(s, r).Some? {
      assert s.chan.requests[r].handlers == [];
      assert [] + [h] == [h];
    }
  }

  lemma {:induction false} OthersEnqueueNothing(s: System, step: Step)
    requires Enabled(s, step)
    requires !step.ParseEnd? && !step.ParseAnswer? && !step.ParseMessage? && !step.OnResponseStep?
    ensures Apply(s, step).enqueued == s.enqueued
  {
  }

  function HeldBy(s: System, r: Option<int>): seq<int> {
    if r.Some? && r.value in s.chan.requests then s.chan.requests[r.value].handlers else []
  }

  lemma {:induction false} ClosingItemsAt(requests: map<int, OutgoingRequest>, snapshot: seq<int>)
    requires forall r :: r in snapshot ==> r in requests
    ensures var items := ClosingItems(requests, snapshot);
            && |items| == |snapshot|
            && forall k :: 0 <= k < |snapshot| ==>
                 items[k] == ResponseItem(Some(snapshot[k]), NoMoreMessages, requests[snapshot[k]].handlers)
  {
    if snapshot != [] {
      assert snapshot[0] in snapshot;
      ClosingItemsAt(requests, snapshot[1..]);
    }
  }

  // ---- Closing ----

  predicate OfParser(step: Step) {
    step.StartParser? || step.ParseMessage? || step.ParsePop? || step.ParseAnswer? || step.ParseEnd? || step.ParseDie?
  }

  lemma {:induction false} ParserCloses(s: System, step: Step)
    requires Enabled(s, step) && OfParser(step)
    ensures Apply(s, step).chan.closed <==> s.chan.closed || step.ParseEnd?
  {
  }

  lemma {:induction false} OthersClose(s: System, step: Step)
    requires Enabled(s, step) && !OfParser(step)
    ensures Apply(s, step).chan.closed <==> s.chan.closed || step.CloseStep?
  {
  }

  lemma {:induction false} StepCloses(states: seq<System>, steps: seq<Step>, i: nat)
    requires Behavior(states, steps) && i < |steps|
    ensures states[i + 1].chan.closed <==> states[i].chan.closed || steps[i].CloseStep? || steps[i].ParseEnd?
  {
    assert Enabled(states[i], steps[i]) && states[i + 1] == Apply(states[i], steps[i]);
    if OfParser(steps[i]) {
      ParserCloses(states[i], steps[i]);
    } else {
      OthersClose(states[i], steps[i]);
    }
  }

  /** The channel is closed exactly if close() was called or the parser saw the end of the stream; a parser that died of
      anything else does not close it. */
  lemma {:induction false} ClosedExactlyWhen(states: seq<System>, steps: seq<Step>, i: nat)
    requires Behavior(states, steps) && i < |states|
    ensures states[i].chan.closed <==> exists j :: 0 <= j < i && (steps[j].CloseStep? || steps[j].ParseEnd?)
  {
    if i > 0 {
      ClosedExactlyWhen(states, steps, i - 1);
      StepCloses(states, steps, i - 1);
    }
  }

  // ---- Waiting ----

  /** One look of a wait_for_response() call at its request: it returns exactly if the response is there, and goes to
      sleep otherwise. */
  lemma {:induction false} WaitReturnsExactlyWhen(states: seq<System>, steps: seq<Step>, i: nat)
    requires Behavior(states, steps) && i < |steps| && (steps[i].WaitBegin? || steps[i].WaitAgain?)
    ensures var s, call := states[i], steps[i].call;
            var r := if steps[i].WaitBegin? then steps[i].request else s.waiters[call];
            && (ResponseOf(s, r).Some? <==> call !in states[i + 1].waiters)
            && (ResponseOf(s, r).None? <==> WaiterSleep(call) in states[i + 1].chan.asleep)
            && (ResponseOf(s, r).None? ==> states[i + 1].waiters[call] == r)
  {
    InvHolds(states, steps, i);
    assert Enabled(states[i], steps[i]) && states[i + 1] == Apply(states[i], steps[i]);
  }

  /** The handler thread goes to sleep exactly if it saw an open channel and finds nothing to do, and quits exactly if
      it saw a closed one and finds nothing. */
  lemma {:induction false} WorkerSleepsExactlyWhen(states: seq<System>, steps: seq<Step>, i: nat)
    requires Behavior(states, steps) && i < |steps| && steps[i].WorkerTake?
    ensures var s, t := states[i], steps[i].worker;
            && t in s.workers && s.workers[t].Read?
            && (WorkerSleep(t) in states[i + 1].chan.asleep <==> !s.workers[t].closed && s.chan.queue == [])
            && (t !in states[i + 1].workers <==> s.workers[t].closed && s.chan.queue == [])
  {
    InvHolds(states, steps, i);
    assert Enabled(states[i], steps[i]) && states[i + 1] == Apply(states[i], steps[i]);
  }

  // ---- A whole exchange ----

  lemma {:induction false} PendingRun() returns (states: seq<System>, steps: seq<Step>)
    ensures Behavior(states, steps) && steps == [StartParser, TakeSeqStep, SendRequest(1, [], true)]
    ensures var s := states[3];
            && s.chan.sent == [1] && s.chan.requests == map[1 := OutgoingRequest(None, [])]
            && s.registered == map[1 := []] && s.enqueued == [] && s.parser == Reading
  {
    states, steps := [Init()], [];
    Extend(states, steps, StartParser);
    states, steps := states + [Apply(states[0], StartParser)], steps + [StartParser];
    Extend(states, steps, TakeSeqStep);
    states, steps := states + [Apply(states[1], TakeSeqStep)], steps + [TakeSeqStep];
    Extend(states, steps, SendRequest(1, [], true));
    states, steps := states + [Apply(states[2], SendRequest(1, [], true))], steps + [SendRequest(1, [], true)];
  }

  /** A request is sent and a handler registered. */
  lemma {:induction false} SentRun() returns (states: seq<System>, steps: seq<Step>)
    ensures Behavior(states, steps)
    ensures steps == [StartParser, TakeSeqStep, SendRequest(1, [], true), OnResponseStep(1, 8)]
    ensures var s := states[4];
            && s.chan.sent == [1] && s.chan.requests == map[1 := OutgoingRequest(None, [8])]
            && s.enqueued == [] && s.parser == Reading
  {
    states, steps := PendingRun();
    assert [] + [8] == [8];
    Extend(states, steps, OnResponseStep(1, 8));
    states, steps := states + [Apply(states[3], OnResponseStep(1, 8))], steps + [OnResponseStep(1, 8)];
  }

  /** The response is received, set, and enqueued with the handler. */
  lemma {:induction false} ExchangeRun(v: Response) returns (states: seq<System>, steps: seq<Step>)
    requires v.Received?
    ensures Behavior(states, steps) && |steps| == 6 && steps[4] == ParsePop(1, v) && steps[5] == ParseAnswer
    ensures ResponseOf(states[6], 1) == Some(v) && states[6].enqueued == [ResponseItem(Some(1), v, [8])]
  {
    states, steps := SentRun();
    var s4 := states[4];
    Extend(states, steps, ParsePop(1, v));
    states, steps := states + [Apply(s4, ParsePop(1, v))], steps + [ParsePop(1, v)];
    var s5 := states[5];
    assert s5.parser == Popped(Some(1), v) && s5.chan.requests == s4.chan.requests && s5.enqueued == [];
    Extend(states, steps, ParseAnswer);
    states, steps := states + [Apply(s5, ParseAnswer)], steps + [ParseAnswer];
    AnswerOf(s5, v);
  }

  lemma {:induction false} AnswerOf(s: System, v: Response)
    requires s.parser == Popped(Some(1), v) && s.enqueued == []
    requires s.chan.requests == map[1 := OutgoingRequest(None, [8])]
    ensures ResponseOf(AnswerEffect(s), 1) == Some(v)
    ensures AnswerEffect(s).enqueued == [ResponseItem(Some(1), v, [8])]
  {
    assert [] + [ResponseItem(Some(1), v, [8])] == [ResponseItem(Some(1), v, [8])];
  }
}
