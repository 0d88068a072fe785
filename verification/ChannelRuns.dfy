/**
All interleavings of a channel's threads: any number of senders, closers, on_response() callers and
wait_for_response() callers, the parser thread, and the handler threads that _enqueue_handlers starts. Each `with
self:` section is one step; Condition.wait() splits a section in two. A handler that raises and a parser that hits
its catch-all both end the process (os._exit), so they have no step.
*/
module ChannelRuns {
  import opened Basics
  import opened Channel

  datatype ParserPc =
    | NotStarted
    | Reading                                              // inside read_json, or between two messages
    | Popped(request: Option<int>, response: Response)     // between the two lock sections of Response._parse
    | Finished                                             // left the loop by NoMoreMessages
    | Died                                                 // left the loop by any other exception

  datatype WorkerPc =
    | Top                                                  // about to read _closed
    | Read(closed: bool)                                   // has read it
    | Waiting                                              // inside _handlers_enqueued.wait()
    | Run(closed: bool, batch: seq<Item>)                  // going through its snapshot of the queue

  /** `inFlight` holds the sequence numbers taken but not yet sent; `waiters` maps a wait_for_response() call that
      went to sleep to its request. The last six fields record history: messages written, requests whose
      send_request returned normally, items enqueued and handlers run so far, the position of Disconnect among the
      former, and the handlers registered for each request. */
  datatype System = System(
    chan: State,
    inFlight: set<int>,
    parser: ParserPc,
    workers: map<nat, WorkerPc>,
    waiters: map<nat, int>,
    wire: seq<int>,
    returned: set<int>,
    enqueued: seq<Item>,
    executed: seq<Item>,
    disconnectAt: Option<nat>,
    registered: map<int, seq<int>>)

  datatype Step =
    | StartParser
    | TakeSeqStep
    | SendMessage(seqNo: int, ok: bool)
    | SendRequest(seqNo: int, early: seq<int>, ok: bool)
    | ParseMessage(item: Item)
    | ParsePop(requestSeq: int, response: Response)
    | ParseAnswer
    | ParseEnd
    | ParseDie
    | CloseStep
    | OnResponseStep(request: int, handler: int)
    | WaitBegin(call: nat, request: int)
    | WaitAgain(call: nat)
    | WorkerRead(worker: nat)
    | WorkerTake(worker: nat)
    | WorkerWake(worker: nat)
    | WorkerRun(worker: nat)

  function Init(): System {
    System(Fresh(), {}, NotStarted, map[], map[], [], {}, [], [], None, map[])
  }

  predicate ParserEnded(p: ParserPc) {
    p.Finished? || p.Died?
  }

  predicate Enabled(s: System, step: Step) {
    match step
    case StartParser => s.parser.NotStarted?
    case TakeSeqStep => true
    case SendMessage(n, ok) => n in s.inFlight && (ok ==> !s.chan.closed)
    case SendRequest(n, _, ok) => n in s.inFlight && (ok ==> !s.chan.closed)
    case ParseMessage(item) => s.parser.Reading? && (item.EventItem? || item.RequestItem?)
    case ParsePop(_, response) => s.parser.Reading? && response.Received?
    case ParseAnswer => s.parser.Popped? && (s.parser.request.Some? ==> s.parser.request.value in s.chan.requests)
    case ParseEnd => s.parser.Reading? && forall r :: r in s.chan.sent ==> r in s.chan.requests
    case ParseDie => s.parser.Reading?
    case CloseStep => true
    case OnResponseStep(r, _) => r in s.chan.requests && r in s.registered
    case WaitBegin(w, r) => r in s.chan.requests && w !in s.waiters
    case WaitAgain(w) => w in s.waiters && s.waiters[w] in s.chan.requests && WaiterSleep(w) !in s.chan.asleep
    case WorkerRead(t) => t in s.workers && s.workers[t].Top?
    case WorkerTake(t) => t in s.workers && s.workers[t].Read? && (s.workers[t].closed ==> ParserEnded(s.parser))
    case WorkerWake(t) => t in s.workers && s.workers[t].Waiting? && WorkerSleep(t) !in s.chan.asleep
    case WorkerRun(t) => t in s.workers && s.workers[t].Run?
  }

  /** Takes over the channel state that a lock section left, records the items it enqueued, and lets a handler
      thread it started begin. */
  function Absorb(s: System, c: State, items: seq<Item>): System {
    s.(chan := c,
       enqueued := s.enqueued + items,
       workers := if c.worker != s.chan.worker && c.worker.Some? then s.workers[c.worker.value := Top] else s.workers)
  }

  function SendRequestEffect(s: System, n: int, early: seq<int>, ok: bool): System {
    s.(chan := Register(s.chan, n, early),
       inFlight := s.inFlight - {n},
       registered := s.registered[n := early],
       wire := if ok then s.wire + [n] else s.wire,
       returned := if ok then s.returned + {n} else s.returned)
  }

  function PopEffect(s: System, r: int, response: Response): System {
    s.(chan := Pop(s.chan, r), parser := Popped(if r in s.chan.sent then Some(r) else None, response))
  }

  function AnswerEffect(s: System): System
    requires s.parser.Popped? && (s.parser.request.Some? ==> s.parser.request.value in s.chan.requests)
  {
    var response := s.parser.response;
    (match s.parser.request
     case Some(r) =>
       Absorb(s, Answer(s.chan, r, response), [ResponseItem(Some(r), response, s.chan.requests[r].handlers)])
     case None =>
       Absorb(s, AnswerUnknown(s.chan, response), [ResponseItem(None, response, [])])).(parser := Reading)
  }

  /** Pop and answer every request of the snapshot without releasing the lock. */
  function DrainEffect(s: System, snapshot: seq<int>): System
    requires forall r :: r in snapshot ==> r in s.chan.requests
    decreases |snapshot|
  {
    if snapshot == [] then s
    else DrainEffect(AnswerEffect(PopEffect(s, snapshot[0], NoMoreMessages)), snapshot[1..])
  }

  function DisconnectEffect(s: System): System {
    Absorb(s, Close(EnqueueHandlers(s.chan, [DisconnectItem])), [DisconnectItem])
    .(parser := Finished, disconnectAt := Some(|s.enqueued|))
  }

  function OnResponseEffect(s: System, r: int, h: int): System
    requires r in s.chan.requests && r in s.registered
  {
    var request := s.chan.requests[r];
    var items := match request.response
      case None => []
      case Some(response) => [ResponseItem(Some(r), response, request.handlers + [h])];
    Absorb(s, OnResponse(s.chan, r, h), items).(registered := s.registered[r := s.registered[r] + [h]])
  }

  /** One evaluation of wait_for_response's loop condition, by call `w`. */
  function WaitEffect(s: System, w: nat, r: int): System
    requires r in s.chan.requests
  {
    if s.chan.requests[r].response.Some? then s.(waiters := s.waiters - {w})
    else s.(chan := s.chan.(asleep := s.chan.asleep + {WaiterSleep(w)}), waiters := s.waiters[w := r])
  }

  function SleepEffect(s: System, t: nat): System {
    s.(chan := s.chan.(asleep := s.chan.asleep + {WorkerSleep(t)}), workers := s.workers[t := Waiting])
  }

  function TakeEffect(s: System, t: nat, closed: bool): System
    requires t in s.workers
  {
    s.(chan := TakeBatch(s.chan, closed),
       workers := if closed && s.chan.queue == [] then s.workers - {t}
                  else s.workers[t := Run(closed, s.chan.queue)])
  }

  function RunEffect(s: System, t: nat): System
    requires t in s.workers && s.workers[t].Run?
  {
    var pc := s.workers[t];
    if pc.batch == [] then s.(workers := s.workers[t := Top])
    else s.(workers := s.workers[t := pc.(batch := pc.batch[1..])], executed := s.executed + [pc.batch[0]])
  }

  function Apply(s: System, step: Step): System
    requires Enabled(s, step)
  {
    match step
    case StartParser => s.(parser := Reading)
    case TakeSeqStep => s.(chan := TakeSeq(s.chan), inFlight := s.inFlight + {s.chan.nextSeq})
    case SendMessage(n, ok) => s.(inFlight := s.inFlight - {n}, wire := if ok then s.wire + [n] else s.wire)
    case SendRequest(n, early, ok) => SendRequestEffect(s, n, early, ok)
    case ParseMessage(item) => Absorb(s, EnqueueHandlers(s.chan, [item]), [item])
    case ParsePop(r, response) => PopEffect(s, r, response)
    case ParseAnswer => AnswerEffect(s)
    case ParseEnd => DisconnectEffect(DrainEffect(s, s.chan.sent))
    case ParseDie => s.(parser := Died)
    case CloseStep => s.(chan := Close(s.chan))
    case OnResponseStep(r, h) => OnResponseEffect(s, r, h)
    case WaitBegin(w, r) => WaitEffect(s, w, r)
    case WaitAgain(w) => WaitEffect(s, w, s.waiters[w])
    case WorkerRead(t) => s.(workers := s.workers[t := Read(s.chan.closed)])
    case WorkerTake(t) =>
      if !s.workers[t].closed && s.chan.queue == [] then SleepEffect(s, t) else TakeEffect(s, t, s.workers[t].closed)
    case WorkerWake(t) => TakeEffect(s, t, false)
    case WorkerRun(t) => RunEffect(s, t)
  }

  /** One interleaving from the freshly constructed channel: step i leads from states[i] to states[i + 1]. */
  ghost predicate Behavior(states: seq<System>, steps: seq<Step>) {
    && |states| == |steps| + 1
    && states[0] == Init()
    && forall i {:trigger steps[i]} :: 0 <= i < |steps| ==>
         Enabled(states[i], steps[i]) && states[i + 1] == Apply(states[i], steps[i])
  }
}
