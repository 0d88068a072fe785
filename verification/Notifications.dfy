/**
AbstractSingleNotificationBehavior and ThreadsSuspendedSingleNotification of pydevd.py: one "suspended" and one
"resumed" notification for all threads that stop because of the same request.
*/
module Notifications {
  import opened Basics

  datatype Notification = Suspend(stamp: int, thread: int) | Resume(stamp: int, thread: int)

  /** The fields under _lock. `suspended` holds the keys of the insertion-ordered _suspended_thread_id_to_thread;
      `nextTime` is the state of the counter behind _next_request_time. */
  datatype State = State(
    requestTime: int,
    nextTime: int,
    lastSuspend: int,
    lastResume: int,
    suspended: seq<int>,
    pauseRequested: bool)

  function Fresh(): State {
    State(0, 1, -1, -1, [], false)
  }

  function IncrementSuspendTime(n: State): State {
    n.(requestTime := n.nextTime, nextTime := n.nextTime + 1)
  }

  /** on_pause; the timer it starts carries n.requestTime. */
  function OnPause(n: State): State {
    n.(pauseRequested := true)
  }

  /** _notify_after_timeout: the new state and what was sent. */
  function NotifyAfterTimeout(n: State, stamp: int): (State, seq<Notification>) {
    if n.suspended != [] && stamp > n.lastSuspend then
      (n.(lastSuspend := stamp), [Suspend(stamp, n.suspended[0])])
    else (n, [])
  }

  /** on_thread_suspend; `isThreadSuspend` says that the stop reason is CMD_THREAD_SUSPEND. */
  function OnThreadSuspend(n: State, thread: int, isThreadSuspend: bool): (State, seq<Notification>) {
    var m := n.(pauseRequested := false,
                suspended := if thread in n.suspended then n.suspended else n.suspended + [thread]);
    if (!isThreadSuspend || n.pauseRequested) && n.requestTime > n.lastSuspend then
      (m.(lastSuspend := n.requestTime), [Suspend(n.requestTime, thread)])
    else (m, [])
  }

  /** on_thread_resume of a thread that is in the dictionary; otherwise pop() raises KeyError and nothing changes. */
  function OnThreadResume(n: State, thread: int): (State, seq<Notification>)
    requires thread in n.suspended
  {
    var m := n.(suspended := Without(n.suspended, thread));
    if n.lastResume < n.lastSuspend then
      (m.(lastResume := n.lastSuspend), [Resume(n.lastSuspend, thread)])
    else (m, [])
  }

  /** The object, with the methods' statements in their order. */
  class SingleNotification {
    var requestTime: int
    var nextTime: int
    var lastSuspend: int
    var lastResume: int
    var suspended: seq<int>
    var pauseRequested: bool
    var sent: seq<Notification>

    ghost function View(): State
      reads this
    {
      State(requestTime, nextTime, lastSuspend, lastResume, suspended, pauseRequested)
    }

    constructor ()
      ensures View() == Fresh() && sent == []
    {
      requestTime, nextTime, lastSuspend, lastResume := 0, 1, -1, -1;
      suspended, pauseRequested, sent := [], false, [];
    }

    method Increment()
      modifies this
      ensures View() == IncrementSuspendTime(old(View())) && sent == old(sent)
    {
      requestTime := nextTime;
      nextTime := nextTime + 1;
    }

    method Pause() returns (stamp: int)
      modifies this
      ensures View() == OnPause(old(View())) && stamp == requestTime && sent == old(sent)
    {
      pauseRequested := true;
      stamp := requestTime;
    }

    method TimerFires(stamp: int)
      modifies this
      ensures View() == NotifyAfterTimeout(old(View()), stamp).0
      ensures sent == old(sent) + NotifyAfterTimeout(old(View()), stamp).1
    {
      if |suspended| > 0 {
        if stamp > lastSuspend {
          lastSuspend := stamp;
          sent := sent + [Suspend(stamp, suspended[0])];
        }
      }
    }

    method ThreadSuspends(thread: int, isThreadSuspend: bool)
      modifies this
      ensures View() == OnThreadSuspend(old(View()), thread, isThreadSuspend).0
      ensures sent == old(sent) + OnThreadSuspend(old(View()), thread, isThreadSuspend).1
    {
      var wasRequested := pauseRequested;
      if wasRequested {
        pauseRequested := false;
      }
      if thread !in suspended {
        suspended := suspended + [thread];
      }
      if !isThreadSuspend || wasRequested {
        if requestTime > lastSuspend {
          lastSuspend := requestTime;
          sent := sent + [Suspend(requestTime, thread)];
        }
      }
    }

    method ThreadResumes(thread: int) returns (keyError: bool)
      modifies this
      ensures keyError == (thread !in old(suspended))
      ensures keyError ==> View() == old(View()) && sent == old(sent)
      ensures !keyError ==> View() == OnThreadResume(old(View()), thread).0
      ensures !keyError ==> sent == old(sent) + OnThreadResume(old(View()), thread).1
    {
      if thread !in suspended {
        return true;
      }
      suspended := Without(suspended, thread);
      if lastResume < lastSuspend {
        lastResume := lastSuspend;
        sent := sent + [Resume(lastSuspend, thread)];
      }
      return false;
    }
  }

  // ---- Runs ----

  /** An open notify_thread_suspended() block: entered while multi_threads_single_notification was off, or on. */
  datatype Block = Plain | Single

  /** `pauses` are the stamps of the timers that on_pause started, `errors` the KeyErrors raised by on_thread_resume. */
  datatype System = System(
    state: State,
    single: bool,
    pauses: set<int>,
    blocks: map<int, seq<Block>>,
    sent: seq<Notification>,
    errors: nat)

  /**
  A timer may fire late, and even more than once: Timer is enabled as soon as its stamp was handed out. Unblock and
  Reblock are the calls of on_thread_resume and on_thread_suspend around an evaluation that takes too long, by a timer
  and by the evaluating thread; they may come at any moment.
  */
  datatype Step =
    | Increment
    | Pause
    | Timer(stamp: int)
    | SetSingle(on: bool)
    | Enter(thread: int, isThreadSuspend: bool)
    | Exit(thread: int)
    | Unblock(thread: int)
    | Reblock(thread: int)

  function Init(): System {
    System(Fresh(), false, {}, map[], [], 0)
  }

  function Blocks(s: System, thread: int): seq<Block> {
    if thread in s.blocks then s.blocks[thread] else []
  }

  predicate Enabled(s: System, step: Step) {
    match step
    case Timer(stamp) => stamp in s.pauses
    case Exit(t) => Blocks(s, t) != []
    case _ => true
  }

  function Sending(s: System, r: (State, seq<Notification>)): System {
    s.(state := r.0, sent := s.sent + r.1)
  }

  /** on_thread_resume, with its KeyError. */
  function Resuming(s: System, t: int): System {
    if t in s.state.suspended then Sending(s, OnThreadResume(s.state, t)) else s.(errors := s.errors + 1)
  }

  /** The innermost block of `t` ends; which branch it takes was decided when it was entered. */
  function ExitEffect(s: System, t: int): System
    requires Blocks(s, t) != []
  {
    var open := Blocks(s, t);
    var left := s.(blocks := s.blocks[t := open[..|open| - 1]]);
    if open[|open| - 1].Plain? then left else Resuming(left, t)
  }

  function EnterEffect(s: System, t: int, isThreadSuspend: bool): System {
    if s.single then
      Sending(s, OnThreadSuspend(s.state, t, isThreadSuspend)).(blocks := s.blocks[t := Blocks(s, t) + [Single]])
    else s.(blocks := s.blocks[t := Blocks(s, t) + [Plain]])
  }

  function Apply(s: System, step: Step): System
    requires Enabled(s, step)
  {
    match step
    case Increment => s.(state := IncrementSuspendTime(s.state))
    case Pause => s.(state := OnPause(s.state), pauses := s.pauses + {s.state.requestTime})
    case Timer(stamp) => Sending(s, NotifyAfterTimeout(s.state, stamp))
    case SetSingle(on) => s.(single := on)
    case Enter(t, isThreadSuspend) => EnterEffect(s, t, isThreadSuspend)
    case Exit(t) => ExitEffect(s, t)
    case Unblock(t) => Resuming(s, t)
    case Reblock(t) => Sending(s, OnThreadSuspend(s.state, t, false))
  }

  ghost predicate Behavior(states: seq<System>, steps: seq<Step>) {
    && |states| == |steps| + 1
    && states[0] == Init()
    && forall i {:trigger steps[i]} :: 0 <= i < |steps| ==>
         Enabled(states[i], steps[i]) && states[i + 1] == Apply(states[i], steps[i])
  }

  // ---- Invariants ----

  /** The stamp of the latest suspend notification in the log, or -1. */
  function LatestSuspend(sent: seq<Notification>): int {
    if sent == [] then -1
    else if sent[|sent| - 1].Suspend? then sent[|sent| - 1].stamp
    else LatestSuspend(sent[..|sent| - 1])
  }

  /** Suspend stamps grow strictly; a resume comes right after a suspend, with its stamp. */
  ghost predicate GoodLog(sent: seq<Notification>) {
    && (forall i, j :: 0 <= i < j < |sent| && sent[i].Suspend? && sent[j].Suspend? ==> sent[i].stamp < sent[j].stamp)
    && (forall i :: 0 <= i < |sent| && sent[i].Resume? ==>
          i > 0 && sent[i - 1].Suspend? && sent[i - 1].stamp == sent[i].stamp)
  }

  ghost predicate StampInv(n: State, pauses: set<int>, sent: seq<Notification>) {
    && -1 <= n.lastResume <= n.lastSuspend <= n.requestTime < n.nextTime
    && 0 <= n.requestTime
    && (forall p :: p in pauses ==> 0 <= p <= n.requestTime)
    && GoodLog(sent)
    && (forall i :: 0 <= i < |sent| && sent[i].Suspend? ==> 0 <= sent[i].stamp <= n.lastSuspend)
    && n.lastSuspend == LatestSuspend(sent)
    && (n.lastResume < n.lastSuspend <==> sent != [] && sent[|sent| - 1].Suspend?)
    && (n.suspended == [] ==> n.lastResume == n.lastSuspend)
  }

  ghost predicate Inv(s: System) {
    StampInv(s.state, s.pauses, s.sent) && Distinct(s.state.suspended)
  }

  lemma {:induction false} SendSuspend(n: State, pauses: set<int>, sent: seq<Notification>, stamp: int, thread: int)
    requires StampInv(n, pauses, sent) && n.lastSuspend < stamp <= n.requestTime && n.suspended != []
    ensures StampInv(n.(lastSuspend := stamp), pauses, sent + [Suspend(stamp, thread)])
  {
  }

  lemma {:induction false} TimerKeeps(s: System, stamp: int)
    requires Inv(s) && stamp in s.pauses
    ensures Inv(Sending(s, NotifyAfterTimeout(s.state, stamp)))
  {
    if s.state.suspended != [] && stamp > s.state.lastSuspend {
      SendSuspend(s.state, s.pauses, s.sent, stamp, s.state.suspended[0]);
    } else {
      assert s.sent + [] == s.sent;
    }
  }

  lemma {:induction false} SuspendStamps(
    n: State, pauses: set<int>, sent: seq<Notification>, t: int, isThreadSuspend: bool)
    requires StampInv(n, pauses, sent)
    ensures var r := OnThreadSuspend(n, t, isThreadSuspend); StampInv(r.0, pauses, sent + r.1)
  {
    var m := n.(pauseRequested := false, suspended := if t in n.suspended then n.suspended else n.suspended + [t]);
    assert StampInv(m, pauses, sent);
    if (!isThreadSuspend || n.pauseRequested) && n.requestTime > n.lastSuspend {
      SendSuspend(m, pauses, sent, n.requestTime, t);
    } else {
      assert sent + [] == sent;
    }
  }

  lemma {:induction false} SuspendingKeeps(s: System, t: int, isThreadSuspend: bool)
    requires Inv(s)
    ensures Inv(Sending(s, OnThreadSuspend(s.state, t, isThreadSuspend)))
  {
    SuspendStamps(s.state, s.pauses, s.sent, t, isThreadSuspend);
    if t !in s.state.suspended {
      DistinctSnoc(s.state.suspended, t);
    }
  }

  lemma {:induction false} ResumeLog(sent: seq<Notification>, stamp: int, t: int)
    requires GoodLog(sent) && sent != [] && sent[|sent| - 1].Suspend? && sent[|sent| - 1].stamp == stamp
    ensures GoodLog(sent + [Resume(stamp, t)])
  {
  }

  lemma {:induction false} ResumeStamps(n: State, pauses: set<int>, sent: seq<Notification>, t: int)
    requires StampInv(n, pauses, sent) && t in n.suspended
    ensures var r := OnThreadResume(n, t); StampInv(r.0, pauses, sent + r.1)
    ensures OnThreadResume(n, t).0.lastResume == n.lastSuspend
  {
    if n.lastResume < n.lastSuspend {
      var log := sent + [Resume(n.lastSuspend, t)];
      assert log[..|sent|] == sent;
      ResumeLog(sent, n.lastSuspend, t);
    } else {
      assert sent + [] == sent;
    }
  }

  lemma {:induction false} ResumingKeeps(s: System, t: int)
    requires Inv(s)
    ensures Inv(Resuming(s, t)) && t !in Resuming(s, t).state.suspended
  {
    WithoutDistinct(s.state.suspended, t);
    if t in s.state.suspended {
      ResumeStamps(s.state, s.pauses, s.sent, t);
    }
  }

  lemma {:induction false} ExitKeeps(s: System, t: int)
    requires Inv(s) && Blocks(s, t) != []
    ensures Inv(ExitEffect(s, t))
  {
    var open := Blocks(s, t);
    ResumingKeeps(s.(blocks := s.blocks[t := open[..|open| - 1]]), t);
  }

  lemma {:induction false} StepKeeps(s: System, step: Step)
    requires Inv(s) && Enabled(s, step)
    ensures Inv(Apply(s, step))
  {
    match step
    case Timer(stamp) => TimerKeeps(s, stamp);
    case Enter(t, isThreadSuspend) => SuspendingKeeps(s, t, isThreadSuspend);
    case Exit(t) => ExitKeeps(s, t);
    case Unblock(t) => ResumingKeeps(s, t);
    case Reblock(t) => SuspendingKeeps(s, t, false);
    case _ =>
  }

  lemma {:induction false} InvHolds(states: seq<System>, steps: seq<Step>, i: nat)
    requires Behavior(states, steps) && i < |states|
    ensures Inv(states[i])
    decreases i
  {
    if i > 0 {
      InvHolds(states, steps, i - 1);
      StepKeeps(states[i - 1], steps[i - 1]);
    }
  }

  // ---- Theorems ----

  /** The client is never left believing that the program is stopped: the last notification sent is a suspend exactly
      while last_resume < last_suspend, and this never holds when no thread is suspended. */
  lemma {:induction false} ClientNeverLeftStopped(states: seq<System>, steps: seq<Step>, i: nat)
    requires Behavior(states, steps) && i < |states|
    ensures var s := states[i]; var n := s.state;
      && n.lastResume <= n.lastSuspend <= n.requestTime
      && (n.lastResume < n.lastSuspend <==> s.sent != [] && s.sent[|s.sent| - 1].Suspend?)
      && (n.suspended == [] ==> n.lastResume == n.lastSuspend && (s.sent != [] ==> s.sent[|s.sent| - 1].Resume?))
  {
    InvHolds(states, steps, i);
  }

  /** Suspend notifications carry strictly increasing stamps, none beyond the current request, so that each request
      yields at most one, however late the timers fire; every resume directly follows a suspend and carries its stamp,
      so that there are never two resumes in a row. */
  lemma {:induction false} OneSuspendPerRequest(states: seq<System>, steps: seq<Step>, i: nat)
    requires Behavior(states, steps) && i < |states|
    ensures var s := states[i];
      && (forall j, k :: 0 <= j < k < |s.sent| && s.sent[j].Suspend? && s.sent[k].Suspend? ==>
            s.sent[j].stamp < s.sent[k].stamp)
      && (forall j :: 0 <= j < |s.sent| ==> s.sent[j].stamp <= s.state.requestTime)
      && (forall j :: 0 <= j < |s.sent| && s.sent[j].Resume? ==>
            j > 0 && s.sent[j - 1] == Suspend(s.sent[j].stamp, s.sent[j - 1].thread))
  {
    InvHolds(states, steps, i);
    var s := states[i];
    forall j | 0 <= j < |s.sent| ensures s.sent[j].stamp <= s.state.requestTime {
      if s.sent[j].Resume? {
        assert s.sent[j - 1].Suspend?;
      }
    }
  }

  lemma {:induction false} LatestSuspendWasSent(sent: seq<Notification>)
    requires LatestSuspend(sent) >= 0
    ensures exists k :: 0 <= k < |sent| && sent[k].Suspend? && sent[k].stamp == LatestSuspend(sent)
  {
    if sent[|sent| - 1].Suspend? {
      assert sent[|sent| - 1].stamp == LatestSuspend(sent);
    } else {
      LatestSuspendWasSent(sent[..|sent| - 1]);
      var k :| 0 <= k < |sent| - 1 && sent[..|sent| - 1][k].Suspend? &&
          sent[..|sent| - 1][k].stamp == LatestSuspend(sent);
      assert sent[k].Suspend?;
    }
  }

  /** Once the timer of a pause has fired while some thread was suspended, the client has been told of a suspend that is
      at least as recent as the pause. */
  lemma {:induction false} PauseIsReported(states: seq<System>, steps: seq<Step>, i: nat)
    requires Behavior(states, steps) && i < |steps| && steps[i].Timer? && states[i].state.suspended != []
    ensures var sent := states[i + 1].sent;
      exists k :: 0 <= k < |sent| && sent[k].Suspend? && sent[k].stamp >= steps[i].stamp
  {
    InvHolds(states, steps, i);
    InvHolds(states, steps, i + 1);
    var s, e := states[i], states[i + 1];
    assert Enabled(s, steps[i]) && e == Apply(s, steps[i]);
    assert e.state.lastSuspend >= steps[i].stamp >= 0;
    LatestSuspendWasSent(e.sent);
  }

  // ---- When on_thread_resume raises ----

  /** Step `k` leaves a block of thread `t` that was entered in single mode. */
  ghost predicate SingleExit(states: seq<System>, steps: seq<Step>, k: int, t: int)
    requires |states| == |steps| + 1
  {
    && 0 <= k < |steps| && steps[k] == Exit(t)
    && Blocks(states[k], t) != [] && Blocks(states[k], t)[|Blocks(states[k], t)| - 1].Single?
  }

  /** Step `k` calls on_thread_resume for `t`; step `k` calls on_thread_suspend. */
  ghost predicate Pops(states: seq<System>, steps: seq<Step>, k: int, t: int)
    requires |states| == |steps| + 1
  {
    SingleExit(states, steps, k, t) || (0 <= k < |steps| && steps[k] == Unblock(t))
  }

  ghost predicate Suspends(states: seq<System>, steps: seq<Step>, k: int, t: int)
    requires |states| == |steps| + 1
  {
    && 0 <= k < |steps|
    && (steps[k] == Reblock(t) || (steps[k].Enter? && steps[k].thread == t && states[k].single))
  }

  /** The last call for `t` from step `j` on and before step `n` was on_thread_resume. */
  ghost predicate LastPops(states: seq<System>, steps: seq<Step>, j: int, n: int, t: int)
    requires |states| == |steps| + 1
  {
    exists k :: j <= k < n && Pops(states, steps, k, t)
                && forall m :: k < m < n ==> !Suspends(states, steps, m, t)
  }

  /** The last call for `t` before step `n` was on_thread_suspend. */
  ghost predicate LastSuspends(states: seq<System>, steps: seq<Step>, n: int, t: int)
    requires |states| == |steps| + 1
  {
    exists k :: 0 <= k < n && Suspends(states, steps, k, t)
                && forall m :: k < m < n ==> !Pops(states, steps, m, t)
  }

  /** What step `n` does to the dictionary. */
  ghost predicate MembersAt(states: seq<System>, steps: seq<Step>, n: nat, t: int)
    requires |states| == |steps| + 1 && n < |steps|
  {
    && !(Suspends(states, steps, n, t) && Pops(states, steps, n, t))
    && (t in states[n + 1].state.suspended <==>
          Suspends(states, steps, n, t) || (t in states[n].state.suspended && !Pops(states, steps, n, t)))
  }

  lemma {:induction false} StepMembers(states: seq<System>, steps: seq<Step>, n: nat, t: int)
    requires Behavior(states, steps) && n < |steps|
    ensures MembersAt(states, steps, n, t)
  {
    InvHolds(states, steps, n);
    assert Enabled(states[n], steps[n]) && states[n + 1] == Apply(states[n], steps[n]);
    StepMembersOf(states[n], steps[n], t);
  }

  lemma {:induction false} AllMembers(states: seq<System>, steps: seq<Step>, t: int)
    requires Behavior(states, steps)
    ensures forall n {:trigger MembersAt(states, steps, n, t)} :: 0 <= n < |steps| ==> MembersAt(states, steps, n, t)
  {
    forall n | 0 <= n < |steps| ensures MembersAt(states, steps, n, t) {
      StepMembers(states, steps, n, t);
    }
  }

  lemma {:induction false} StepMembersOf(s: System, step: Step, t: int)
    requires Inv(s) && Enabled(s, step)
    ensures var suspends := step == Reblock(t) || (step.Enter? && step.thread == t && s.single);
            var pops := step == Unblock(t)
                        || (step == Exit(t) && Blocks(s, t)[|Blocks(s, t)| - 1].Single?);
            t in Apply(s, step).state.suspended <==> suspends || (t in s.state.suspended && !pops)
  {
    match step
    case Exit(u) =>
      ResumingMembers(s, u, t);
      ResumingMembers(s.(blocks := s.blocks[u := Blocks(s, u)[..|Blocks(s, u)| - 1]]), u, t);
    case Unblock(u) => ResumingMembers(s, u, t);
    case _ =>
  }

  lemma {:induction false} ResumingMembers(s: System, u: int, t: int)
    requires Inv(s)
    ensures t in Resuming(s, u).state.suspended <==> t in s.state.suspended && t != u
    ensures Resuming(s, u).errors == s.errors + if u in s.state.suspended then 0 else 1
  {
    WithoutDistinct(s.state.suspended, u);
  }

  lemma {:induction false} LastSuspendsStep(states: seq<System>, steps: seq<Step>, n: nat, t: int)
    requires |states| == |steps| + 1 && n < |steps|
    requires !(Suspends(states, steps, n, t) && Pops(states, steps, n, t))
    ensures LastSuspends(states, steps, n + 1, t) <==>
            Suspends(states, steps, n, t) || (LastSuspends(states, steps, n, t) && !Pops(states, steps, n, t))
  {
    if LastSuspends(states, steps, n + 1, t) && !Suspends(states, steps, n, t) {
      var k :| 0 <= k < n + 1 && Suspends(states, steps, k, t)
               && forall m :: k < m < n + 1 ==> !Pops(states, steps, m, t);
      assert k < n && !Pops(states, steps, n, t);
      assert LastSuspends(states, steps, n, t);
    }
    if LastSuspends(states, steps, n, t) && !Pops(states, steps, n, t) {
      var k :| 0 <= k < n && Suspends(states, steps, k, t)
               && forall m :: k < m < n ==> !Pops(states, steps, m, t);
      assert forall m :: k < m < n + 1 ==> !Pops(states, steps, m, t);
    }
    if Suspends(states, steps, n, t) {
      assert forall m :: n < m < n + 1 ==> !Pops(states, steps, m, t);
    }
  }

  lemma {:induction false} SuspendedByHistory(states: seq<System>, steps: seq<Step>, n: nat, t: int)
    requires |states| == |steps| + 1 && n < |states| && t !in states[0].state.suspended
    requires forall n {:trigger MembersAt(states, steps, n, t)} :: 0 <= n < |steps| ==> MembersAt(states, steps, n, t)
    ensures t in states[n].state.suspended <==> LastSuspends(states, steps, n, t)
  {
    if n > 0 {
      SuspendedByHistory(states, steps, n - 1, t);
      assert MembersAt(states, steps, n - 1, t);
      LastSuspendsStep(states, steps, n - 1, t);
    }
  }

  /** The dictionary holds exactly the threads whose last call was on_thread_suspend. */
  lemma {:induction false} SuspendedExactlyWhen(states: seq<System>, steps: seq<Step>, n: nat, t: int)
    requires Behavior(states, steps) && n < |states|
    ensures t in states[n].state.suspended <==> LastSuspends(states, steps, n, t)
  {
    AllMembers(states, steps, t);
    SuspendedByHistory(states, steps, n, t);
  }

  lemma {:induction false} LastPopsStep(states: seq<System>, steps: seq<Step>, j: nat, n: nat, t: int)
    requires |states| == |steps| + 1 && j <= n < |steps|
    ensures LastPops(states, steps, j, n + 1, t) <==>
            Pops(states, steps, n, t) || (LastPops(states, steps, j, n, t) && !Suspends(states, steps, n, t))
  {
    if LastPops(states, steps, j, n + 1, t) && !Pops(states, steps, n, t) {
      var k :| j <= k < n + 1 && Pops(states, steps, k, t)
               && forall m :: k < m < n + 1 ==> !Suspends(states, steps, m, t);
      assert k < n && !Suspends(states, steps, n, t);
      assert LastPops(states, steps, j, n, t);
    }
    if LastPops(states, steps, j, n, t) && !Suspends(states, steps, n, t) {
      var k :| j <= k < n && Pops(states, steps, k, t)
               && forall m :: k < m < n ==> !Suspends(states, steps, m, t);
      assert forall m :: k < m < n + 1 ==> !Suspends(states, steps, m, t);
    }
    if Pops(states, steps, n, t) {
      assert forall m :: n < m < n + 1 ==> !Suspends(states, steps, m, t);
    }
  }

  lemma {:induction false} LeftByHistory(states: seq<System>, steps: seq<Step>, j: nat, n: nat, t: int)
    requires |states| == |steps| + 1 && j <= n < |states| && t in states[j].state.suspended
    requires forall n {:trigger MembersAt(states, steps, n, t)} :: 0 <= n < |steps| ==> MembersAt(states, steps, n, t)
    ensures t !in states[n].state.suspended <==> LastPops(states, steps, j, n, t)
  {
    if n > j {
      LeftByHistory(states, steps, j, n - 1, t);
      assert MembersAt(states, steps, n - 1, t);
      LastPopsStep(states, steps, j, n - 1, t);
    }
  }

  /** A thread that is in the dictionary in state `j` has left it exactly when its last call since was
      on_thread_resume. */
  lemma {:induction false} LeftExactlyWhen(states: seq<System>, steps: seq<Step>, j: nat, n: nat, t: int)
    requires Behavior(states, steps) && j <= n < |states| && t in states[j].state.suspended
    ensures t !in states[n].state.suspended <==> LastPops(states, steps, j, n, t)
  {
    AllMembers(states, steps, t);
    LeftByHistory(states, steps, j, n, t);
  }

  /** Which calls of on_thread_resume raise KeyError: those for a thread whose last call, if any, was not
      on_thread_suspend. No other step raises, and afterwards the thread is not in the dictionary in any case. */
  lemma {:induction false} ResumeRaisesExactlyWhen(states: seq<System>, steps: seq<Step>, i: nat, t: int)
    requires Behavior(states, steps) && i < |steps|
    ensures Pops(states, steps, i, t) ==>
              && states[i + 1].errors == states[i].errors + (if LastSuspends(states, steps, i, t) then 0 else 1)
              && t !in states[i + 1].state.suspended
    ensures (forall u :: !Pops(states, steps, i, u)) ==> states[i + 1].errors == states[i].errors
  {
    InvHolds(states, steps, i);
    SuspendedExactlyWhen(states, steps, i, t);
    StepMembers(states, steps, i, t);
    var s, step := states[i], steps[i];
    assert Enabled(s, step) && states[i + 1] == Apply(s, step);
    if step.Exit? {
      var open := Blocks(s, step.thread);
      ResumingMembers(s.(blocks := s.blocks[step.thread := open[..|open| - 1]]), step.thread, t);
      assert open[|open| - 1].Single? ==> Pops(states, steps, i, step.thread);
    } else if step.Unblock? {
      ResumingMembers(s, step.thread, t);
      assert Pops(states, steps, i, step.thread);
    }
  }

  // ---- What is reported, exactly ----

  /** How many suspend requests there were. */
  function Increments(steps: seq<Step>): nat {
    if steps == [] then 0
    else Increments(steps[..|steps| - 1]) + if steps[|steps| - 1].Increment? then 1 else 0
  }

  /** Step `m` calls on_thread_suspend for some thread. */
  ghost predicate SuspendsSome(states: seq<System>, steps: seq<Step>, m: int)
    requires |states| == |steps| + 1
  {
    0 <= m < |steps| && (steps[m].Reblock? || (steps[m].Enter? && states[m].single))
  }

  /** A pause was requested, and no thread has stopped since. */
  ghost predicate PausePending(states: seq<System>, steps: seq<Step>, n: int)
    requires |states| == |steps| + 1
  {
    exists k :: 0 <= k < n <= |steps| && steps[k].Pause? && forall m :: k < m < n ==> !SuspendsSome(states, steps, m)
  }

  lemma {:induction false} PausePendingStep(states: seq<System>, steps: seq<Step>, n: nat)
    requires |states| == |steps| + 1 && n < |steps|
    ensures PausePending(states, steps, n + 1) <==>
            steps[n].Pause? || (PausePending(states, steps, n) && !SuspendsSome(states, steps, n))
  {
    if PausePending(states, steps, n + 1) && !steps[n].Pause? {
      var k :| 0 <= k < n + 1 && steps[k].Pause? && forall m :: k < m < n + 1 ==> !SuspendsSome(states, steps, m);
      assert k < n && !SuspendsSome(states, steps, n);
      assert PausePending(states, steps, n);
    }
    if PausePending(states, steps, n) && !SuspendsSome(states, steps, n) {
      var k :| 0 <= k < n && steps[k].Pause? && forall m :: k < m < n ==> !SuspendsSome(states, steps, m);
      assert forall m :: k < m < n + 1 ==> !SuspendsSome(states, steps, m);
    }
  }

  lemma {:induction false} StepFlags(s: System, step: Step)
    requires Enabled(s, step)
    ensures var e := Apply(s, step);
            && e.state.pauseRequested
               == (step.Pause? || (s.state.pauseRequested && !(step.Reblock? || (step.Enter? && s.single))))
            && e.state.requestTime == (if step.Increment? then s.state.nextTime else s.state.requestTime)
            && e.state.nextTime == s.state.nextTime + (if step.Increment? then 1 else 0)
            && e.single == (if step.SetSingle? then step.on else s.single)
  {
  }

  /** The current request is the number of those made; the flag says whether a pause is pending. */
  lemma {:induction false} RequestsCounted(states: seq<System>, steps: seq<Step>, n: nat)
    requires Behavior(states, steps) && n < |states|
    ensures states[n].state.requestTime == Increments(steps[..n])
    ensures states[n].state.nextTime == Increments(steps[..n]) + 1
    ensures states[n].state.pauseRequested <==> PausePending(states, steps, n)
  {
    if n > 0 {
      RequestsCounted(states, steps, n - 1);
      assert Enabled(states[n - 1], steps[n - 1]) && states[n] == Apply(states[n - 1], steps[n - 1]);
      StepFlags(states[n - 1], steps[n - 1]);
      PausePendingStep(states, steps, n - 1);
      assert steps[..n][..n - 1] == steps[..n - 1] && steps[..n][n - 1] == steps[n - 1];
    } else {
      assert steps[..0] == [];
    }
  }

  /** What a thread that stops reports: a suspend for the current request, unless one was sent for it already, or the
      stop is only the consequence of another one and no pause is pending. */
  function StopReport(
    sent: seq<Notification>, request: int, t: int, onlySuspended: bool, pending: bool): seq<Notification>
  {
    if onlySuspended && !pending then []
    else if LatestSuspend(sent) == request then []
    else [Suspend(request, t)]
  }

  /** What a thread that goes on reports: a resume, if the last notification is a suspend. */
  function GoReport(sent: seq<Notification>, t: int): seq<Notification> {
    if sent != [] && sent[|sent| - 1].Suspend? then [Resume(sent[|sent| - 1].stamp, t)] else []
  }

  /** What step `step` adds to the log of `s`, in terms of the log, the requests, pauses and dictionary. */
  ghost predicate Reports(s: System, step: Step, request: int, pending: bool, after: seq<Notification>) {
    match step
    case Timer(stamp) =>
      after == s.sent + if s.state.suspended != [] && stamp > LatestSuspend(s.sent)
                        then [Suspend(stamp, s.state.suspended[0])] else []
    case Enter(t, onlySuspended) =>
      after == s.sent + if s.single then StopReport(s.sent, request, t, onlySuspended, pending) else []
    case Reblock(t) => after == s.sent + StopReport(s.sent, request, t, false, pending)
    case Unblock(t) => after == s.sent + if t in s.state.suspended then GoReport(s.sent, t) else []
    case Exit(t) =>
      Blocks(s, t) != []
      && after == s.sent + if Blocks(s, t)[|Blocks(s, t)| - 1].Single? && t in s.state.suspended
                           then GoReport(s.sent, t) else []
    case _ => after == s.sent
  }

  lemma {:induction false} LastSuspendStamp(sent: seq<Notification>)
    requires sent != [] && sent[|sent| - 1].Suspend?
    ensures LatestSuspend(sent) == sent[|sent| - 1].stamp
  {
  }

  lemma {:induction false} ResumingReports(s: System, t: int)
    requires Inv(s)
    ensures Resuming(s, t).sent == s.sent + if t in s.state.suspended then GoReport(s.sent, t) else []
  {
    if s.sent != [] && s.sent[|s.sent| - 1].Suspend? {
      LastSuspendStamp(s.sent);
    }
    assert s.sent + [] == s.sent;
  }

  lemma {:induction false} SuspendingReports(s: System, t: int, onlySuspended: bool)
    requires Inv(s)
    ensures Sending(s, OnThreadSuspend(s.state, t, onlySuspended)).sent
            == s.sent + StopReport(s.sent, s.state.requestTime, t, onlySuspended, s.state.pauseRequested)
  {
  }

  lemma {:induction false} StepReports(s: System, step: Step)
    requires Inv(s) && Enabled(s, step)
    ensures Reports(s, step, s.state.requestTime, s.state.pauseRequested, Apply(s, step).sent)
  {
    assert s.sent + [] == s.sent;
    match step
    case Enter(t, onlySuspended) => SuspendingReports(s, t, onlySuspended);
    case Reblock(t) => SuspendingReports(s, t, false);
    case Unblock(t) => ResumingReports(s, t);
    case Exit(t) => ResumingReports(s.(blocks := s.blocks[t := Blocks(s, t)[..|Blocks(s, t)| - 1]]), t);
    case _ =>
  }

  /** Every notification of every run is accounted for: which step adds which, and that no other is added. */
  lemma {:induction false} LogIsExact(states: seq<System>, steps: seq<Step>, i: nat)
    requires Behavior(states, steps) && i < |steps|
    ensures Reports(states[i], steps[i], Increments(steps[..i]), PausePending(states, steps, i), states[i + 1].sent)
  {
    InvHolds(states, steps, i);
    RequestsCounted(states, steps, i);
    assert Enabled(states[i], steps[i]) && states[i + 1] == Apply(states[i], steps[i]);
    StepReports(states[i], steps[i]);
  }

  /** So a thread that hits a breakpoint is reported: when it has stopped, the client has been told of a suspend for the
      current request, and if this is news it names the thread. */
  lemma {:induction false} StopIsReported(states: seq<System>, steps: seq<Step>, i: nat, t: int) returns (k: nat)
    requires Behavior(states, steps) && i < |steps|
    requires steps[i] == Reblock(t) || (steps[i] == Enter(t, false) && states[i].single)
    ensures var before, after := states[i].sent, states[i + 1].sent;
            && k < |after| && after[k].Suspend? && after[k].stamp == Increments(steps[..i])
            && (after == before || (after == before + [Suspend(Increments(steps[..i]), t)] && k == |before|))
  {
    LogIsExact(states, steps, i);
    InvHolds(states, steps, i);
    RequestsCounted(states, steps, i);
    var before := states[i].sent;
    if LatestSuspend(before) == Increments(steps[..i]) {
      LatestSuspendWasSent(before);
      k :| 0 <= k < |before| && before[k].Suspend? && before[k].stamp == LatestSuspend(before);
      assert before + [] == before;
    } else {
      k := |before|;
    }
  }

  /** The dictionary keeps the order in which threads came into it. */
  lemma {:induction false} DictionaryOrder(states: seq<System>, steps: seq<Step>, i: nat, t: int)
    requires Behavior(states, steps) && i < |steps|
    ensures var before, after := states[i].state.suspended, states[i + 1].state.suspended;
            && (Suspends(states, steps, i, t) ==> after == if t in before then before else before + [t])
            && (Pops(states, steps, i, t) ==> after == Without(before, t))
            && ((forall u :: !Suspends(states, steps, i, u) && !Pops(states, steps, i, u)) ==> after == before)
  {
    var s, step := states[i], steps[i];
    assert Enabled(s, step) && states[i + 1] == Apply(s, step);
    if step.Enter? || step.Reblock? {
      assert s.single || step.Reblock? ==> Suspends(states, steps, i, step.thread);
    } else if step.Exit? {
      assert Blocks(s, step.thread)[|Blocks(s, step.thread)| - 1].Single? ==> Pops(states, steps, i, step.thread);
    } else if step.Unblock? {
      assert Pops(states, steps, i, step.thread);
    }
  }

  // ---- Blocks ----

  /** Step `j` entered the block of thread `t` that has `depth` blocks around it in state `n`. */
  ghost predicate Entered(states: seq<System>, steps: seq<Step>, j: int, n: nat, t: int, depth: nat)
    requires |states| == |steps| + 1 && n < |states|
  {
    && 0 <= j < n && steps[j].Enter? && steps[j].thread == t && |Blocks(states[j], t)| == depth
    && forall k {:trigger states[k]} :: j < k <= n ==> |Blocks(states[k], t)| > depth
  }

  /** What one step does to the blocks of a thread. */
  lemma {:induction false} BlockStep(s: System, step: Step, t: int)
    requires Enabled(s, step)
    ensures var before, after := Blocks(s, t), Blocks(Apply(s, step), t);
            if step.Enter? && step.thread == t then after == before + [if s.single then Single else Plain]
            else after <= before
  {
  }

  /** Every open block was entered by some step, in the mode that it records. */
  lemma {:induction false} BlockHistory(states: seq<System>, steps: seq<Step>, n: nat, t: int, b: nat) returns (j: nat)
    requires Behavior(states, steps) && n < |states| && b < |Blocks(states[n], t)|
    ensures Entered(states, steps, j, n, t, b)
    ensures Blocks(states[n], t)[b] == if states[j].single then Single else Plain
  {
    if n == 0 {
      assert false;
    } else {
      var s, step := states[n - 1], steps[n - 1];
      assert Enabled(s, step) && states[n] == Apply(s, step);
      BlockStep(s, step, t);
      if b == |Blocks(s, t)| {
        j := n - 1;
        EnteredNow(states, steps, j, t);
      } else {
        j := BlockHistory(states, steps, n - 1, t, b);
        EnteredStep(states, steps, j, n, t, b);
      }
    }
  }

  lemma {:induction false} EnteredNow(states: seq<System>, steps: seq<Step>, j: nat, t: int)
    requires |states| == |steps| + 1 && j < |steps| && steps[j].Enter? && steps[j].thread == t
    requires |Blocks(states[j + 1], t)| == |Blocks(states[j], t)| + 1
    ensures Entered(states, steps, j, j + 1, t, |Blocks(states[j], t)|)
  {
  }

  lemma {:induction false} EnteredStep(states: seq<System>, steps: seq<Step>, j: nat, n: nat, t: int, depth: nat)
    requires |states| == |steps| + 1 && 0 < n < |states|
    requires Entered(states, steps, j, n - 1, t, depth) && |Blocks(states[n], t)| > depth
    ensures Entered(states, steps, j, n, t, depth)
  {
  }

  /** Leaving a block raises KeyError exactly when it was entered in single mode and the last call for its thread since
      then was on_thread_resume: by an inner block, or directly. The mode may have flipped any number of times. */
  lemma {:induction false} ExitRaisesExactlyWhen(states: seq<System>, steps: seq<Step>, i: nat) returns (j: nat)
    requires Behavior(states, steps) && i < |steps| && steps[i].Exit?
    ensures var t := steps[i].thread;
            && Blocks(states[i], t) != []
            && Entered(states, steps, j, i, t, |Blocks(states[i], t)| - 1)
            && states[i + 1].errors
               == states[i].errors + (if states[j].single && LastPops(states, steps, j + 1, i, t) then 1 else 0)
            && (states[j].single ==> t !in states[i + 1].state.suspended)
            && (!states[j].single ==> states[i + 1].state == states[i].state && states[i + 1].sent == states[i].sent)
  {
    var t := steps[i].thread;
    InvHolds(states, steps, i);
    assert Enabled(states[i], steps[i]) && states[i + 1] == Apply(states[i], steps[i]);
    ExitOf(states[i], t);
    j := BlockHistory(states, steps, i, t, |Blocks(states[i], t)| - 1);
    if states[j].single {
      MemberSince(states, steps, j, i, t);
    }
  }

  lemma {:induction false} ExitOf(s: System, t: int)
    requires Inv(s) && Blocks(s, t) != []
    ensures var e, single := ExitEffect(s, t), Blocks(s, t)[|Blocks(s, t)| - 1].Single?;
            && e.errors == s.errors + (if single && t !in s.state.suspended then 1 else 0)
            && (single ==> t !in e.state.suspended)
            && (!single ==> e.state == s.state && e.sent == s.sent)
  {
    WithoutDistinct(s.state.suspended, t);
  }

  lemma {:induction false} MemberSince(states: seq<System>, steps: seq<Step>, j: nat, i: nat, t: int)
    requires Behavior(states, steps) && j < i < |states| && Suspends(states, steps, j, t)
    ensures t !in states[i].state.suspended <==> LastPops(states, steps, j + 1, i, t)
  {
    StepMembers(states, steps, j, t);
    LeftExactlyWhen(states, steps, j + 1, i, t);
  }

  // ---- A condition under which nothing raises ----

  predicate InsideSingle(blocks: seq<Block>) {
    exists i :: 0 <= i < |blocks| && blocks[i].Single?
  }

  predicate AtMostOneSingle(blocks: seq<Block>) {
    forall i, j :: 0 <= i < j < |blocks| ==> !(blocks[i].Single? && blocks[j].Single?)
  }

  /** `t` was unblocked before step `n` and not blocked again. */
  ghost predicate Unblocked(steps: seq<Step>, n: int, t: int) {
    exists k :: 0 <= k < n <= |steps| && steps[k] == Unblock(t) && forall m :: k < m < n ==> steps[m] != Reblock(t)
  }

  /** No thread has two single-mode blocks open at once; a thread is unblocked inside such a block only, and blocked
      again before it is unblocked once more or leaves that block. */
  ghost predicate Calm(states: seq<System>, steps: seq<Step>, k: int)
    requires |states| == |steps| + 1 && 0 <= k < |steps|
  {
    && (forall t :: t in states[k].blocks ==> AtMostOneSingle(states[k].blocks[t]))
    && (steps[k].Unblock? ==>
          InsideSingle(Blocks(states[k], steps[k].thread)) && !Unblocked(steps, k, steps[k].thread))
    && (steps[k].Exit? && SingleExit(states, steps, k, steps[k].thread) ==> !Unblocked(steps, k, steps[k].thread))
  }

  ghost predicate AllCalm(states: seq<System>, steps: seq<Step>, n: nat)
    requires |states| == |steps| + 1 && n <= |steps|
  {
    forall k {:trigger Calm(states, steps, k)} :: 0 <= k < n ==> Calm(states, steps, k)
  }

  lemma {:induction false} CalmBefore(states: seq<System>, steps: seq<Step>, n: nat)
    requires |states| == |steps| + 1 && n < |steps| && AllCalm(states, steps, n + 1)
    ensures AllCalm(states, steps, n) && Calm(states, steps, n)
  {
    assert Calm(states, steps, n);
  }

  lemma {:induction false} UnblockedStep(steps: seq<Step>, n: nat, t: int)
    requires n < |steps|
    ensures Unblocked(steps, n + 1, t) <==>
            steps[n] == Unblock(t) || (Unblocked(steps, n, t) && steps[n] != Reblock(t))
  {
    if Unblocked(steps, n + 1, t) && steps[n] != Unblock(t) {
      var k :| 0 <= k < n + 1 && steps[k] == Unblock(t) && forall m :: k < m < n + 1 ==> steps[m] != Reblock(t);
      assert k < n && steps[n] != Reblock(t);
    }
    if Unblocked(steps, n, t) && steps[n] != Reblock(t) {
      var k :| 0 <= k < n && steps[k] == Unblock(t) && forall m :: k < m < n ==> steps[m] != Reblock(t);
      assert forall m :: k < m < n + 1 ==> steps[m] != Reblock(t);
    }
  }

  lemma {:induction false} CalmStep(s: System, step: Step, t: int, before: bool, after: bool)
    requires Inv(s) && Enabled(s, step) && AtMostOneSingle(Blocks(s, t))
    requires after <==> step == Unblock(t) || (before && step != Reblock(t))
    requires InsideSingle(Blocks(s, t)) && !before ==> t in s.state.suspended
    requires InsideSingle(Blocks(Apply(s, step), t)) && !after
    ensures t in Apply(s, step).state.suspended
  {
    StepMembersOf(s, step, t);
    if !(step == Reblock(t) || (step.Enter? && step.thread == t && s.single)) {
      StillInside(s, step, t);
      if step == Exit(t) && Blocks(s, t)[|Blocks(s, t)| - 1].Single? {
        OnlyOneLeft(s, t);
      }
    }
  }

  /** In such a run a thread inside a single-mode block is in the dictionary unless it is unblocked. */
  lemma {:induction false} CalmMembers(states: seq<System>, steps: seq<Step>, n: nat, t: int)
    requires Behavior(states, steps) && n < |states|
    requires AllCalm(states, steps, n)
    ensures InsideSingle(Blocks(states[n], t)) && !Unblocked(steps, n, t) ==> t in states[n].state.suspended
  {
    if n > 0 {
      CalmBefore(states, steps, n - 1);
      CalmMembers(states, steps, n - 1, t);
      CalmMembersStep(states, steps, n - 1, t);
    }
  }

  lemma {:induction false} CalmMembersStep(states: seq<System>, steps: seq<Step>, n: nat, t: int)
    requires Behavior(states, steps) && n < |steps| && Calm(states, steps, n)
    requires InsideSingle(Blocks(states[n], t)) && !Unblocked(steps, n, t) ==> t in states[n].state.suspended
    ensures InsideSingle(Blocks(states[n + 1], t)) && !Unblocked(steps, n + 1, t) ==>
              t in states[n + 1].state.suspended
  {
    var s, step := states[n], steps[n];
    var before, after := Unblocked(steps, n, t), Unblocked(steps, n + 1, t);
    InvHolds(states, steps, n);
    assert Enabled(s, step) && states[n + 1] == Apply(s, step);
    assert after <==> step == Unblock(t) || (before && step != Reblock(t)) by {
      UnblockedStep(steps, n, t);
    }
    if InsideSingle(Blocks(states[n + 1], t)) && !after {
      CalmStep(s, step, t, before, after);
    }
  }

  lemma {:induction false} StillInside(s: System, step: Step, t: int)
    requires Enabled(s, step) && InsideSingle(Blocks(Apply(s, step), t))
    requires !(step.Enter? && step.thread == t && s.single)
    ensures InsideSingle(Blocks(s, t))
  {
    BlockStep(s, step, t);
    var before, after := Blocks(s, t), Blocks(Apply(s, step), t);
    var i :| 0 <= i < |after| && after[i].Single?;
    assert i < |before| && before[i] == after[i];
  }

  /** Leaving the only single-mode block leaves none. */
  lemma {:induction false} OnlyOneLeft(s: System, t: int)
    requires Blocks(s, t) != [] && AtMostOneSingle(Blocks(s, t)) && Blocks(s, t)[|Blocks(s, t)| - 1].Single?
    ensures !InsideSingle(Blocks(ExitEffect(s, t), t))
  {
  }

  /** In such a run on_thread_resume never raises, however the mode flips between entry and exit. */
  lemma {:induction false} NoErrorsWhenCalm(states: seq<System>, steps: seq<Step>, n: nat)
    requires Behavior(states, steps) && n < |states|
    requires AllCalm(states, steps, n)
    ensures states[n].errors == 0
  {
    if n > 0 {
      CalmBefore(states, steps, n - 1);
      NoErrorsWhenCalm(states, steps, n - 1);
      var s, step := states[n - 1], steps[n - 1];
      assert Enabled(s, step);
      var t := if step.Exit? || step.Unblock? then step.thread else 0;
      ResumeRaisesExactlyWhen(states, steps, n - 1, t);
      if Pops(states, steps, n - 1, t) {
        assert InsideSingle(Blocks(s, t));
        CalmMembers(states, steps, n - 1, t);
        SuspendedExactlyWhen(states, steps, n - 1, t);
      }
    }
  }

  // ---- Runs that raise ----

  lemma {:induction false} Extend(states: seq<System>, steps: seq<Step>, step: Step)
    requires Behavior(states, steps) && Enabled(states[|steps|], step)
    ensures Behavior(states + [Apply(states[|steps|], step)], steps + [step])
  {
    var states', steps' := states + [Apply(states[|steps|], step)], steps + [step];
    forall i | 0 <= i < |steps'|
      ensures Enabled(states'[i], steps'[i]) && states'[i + 1] == Apply(states'[i], steps'[i])
    {
      assert i < |steps| ==> steps'[i] == steps[i];
    }
  }

  /** A thread that has entered a single-mode block, and one that has entered two. */
  lemma {:induction false} EnteredOnce() returns (states: seq<System>, steps: seq<Step>)
    ensures Behavior(states, steps) && steps == [SetSingle(true), Enter(1, false)]
    ensures Blocks(states[2], 1) == [Single] && states[2].state.suspended == [1]
    ensures states[2].single && states[2].errors == 0
  {
    states, steps := [Init()], [];
    Extend(states, steps, SetSingle(true));
    states, steps := states + [Apply(states[0], SetSingle(true))], steps + [SetSingle(true)];
    Extend(states, steps, Enter(1, false));
    states, steps := states + [Apply(states[1], Enter(1, false))], steps + [Enter(1, false)];
  }

  lemma {:induction false} EnteredTwice() returns (states: seq<System>, steps: seq<Step>)
    ensures Behavior(states, steps) && steps == [SetSingle(true), Enter(1, false), Enter(1, false)]
    ensures Blocks(states[3], 1) == [Single, Single] && states[3].state.suspended == [1]
    ensures states[3].errors == 0
  {
    states, steps := EnteredOnce();
    Extend(states, steps, Enter(1, false));
    states, steps := states + [Apply(states[2], Enter(1, false))], steps + [Enter(1, false)];
  }

  lemma {:induction false} ExitOnce(s: System)
    requires Blocks(s, 1) != [] && Blocks(s, 1)[|Blocks(s, 1)| - 1].Single?
    requires s.state.suspended == [1] || s.state.suspended == []
    ensures var e := Apply(s, Exit(1));
            && e.state.suspended == [] && Blocks(e, 1) == Blocks(s, 1)[..|Blocks(s, 1)| - 1]
            && e.errors == s.errors + if s.state.suspended == [1] then 0 else 1
  {
    assert Without([1], 1) == [];
  }

  /** The shortest run of blocks that raises. */
  lemma {:induction false} NestedRun() returns (states: seq<System>, steps: seq<Step>)
    ensures Behavior(states, steps) && |steps| == 5 && states[5].errors == 1
    ensures steps == [SetSingle(true), Enter(1, false), Enter(1, false), Exit(1), Exit(1)]
  {
    states, steps := EnteredTwice();
    ExitOnce(states[3]);
    Extend(states, steps, Exit(1));
    states, steps := states + [Apply(states[3], Exit(1))], steps + [Exit(1)];
    ExitOnce(states[4]);
    Extend(states, steps, Exit(1));
    states, steps := states + [Apply(states[4], Exit(1))], steps + [Exit(1)];
  }

  /** Without any nesting: an evaluation's timer that fires when the evaluation has ended already. */
  lemma {:induction false} LateUnblockRun() returns (states: seq<System>, steps: seq<Step>)
    ensures Behavior(states, steps) && |steps| == 4 && states[4].errors == 1
    ensures steps == [SetSingle(true), Enter(1, false), Unblock(1), Exit(1)]
  {
    states, steps := EnteredOnce();
    assert Without([1], 1) == [];
    Extend(states, steps, Unblock(1));
    states, steps := states + [Apply(states[2], Unblock(1))], steps + [Unblock(1)];
    ExitOnce(states[3]);
    Extend(states, steps, Exit(1));
    states, steps := states + [Apply(states[3], Exit(1))], steps + [Exit(1)];
  }

  /** And nesting that does not raise, because the evaluation blocks the thread again after the inner block. */
  lemma {:induction false} NestedWithoutError() returns (states: seq<System>, steps: seq<Step>)
    ensures Behavior(states, steps) && |steps| == 6 && states[6].errors == 0
    ensures steps == [SetSingle(true), Enter(1, false), Enter(1, false), Exit(1), Reblock(1), Exit(1)]
  {
    states, steps := EnteredTwice();
    ExitOnce(states[3]);
    Extend(states, steps, Exit(1));
    states, steps := states + [Apply(states[3], Exit(1))], steps + [Exit(1)];
    Extend(states, steps, Reblock(1));
    assert [] + [1] == [1];
    states, steps := states + [Apply(states[4], Reblock(1))], steps + [Reblock(1)];
    ExitOnce(states[5]);
    Extend(states, steps, Exit(1));
    states, steps := states + [Apply(states[5], Exit(1))], steps + [Exit(1)];
  }
}
