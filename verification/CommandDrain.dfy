/**
The commands that pydevd.py keeps in one queue for each thread (post_internal_command, process_internal_commands), and
the lists that a pass over a queue makes of them. Whether a command can be executed is asked of the command itself, each
time it is taken from its queue; the answer may be another one the next time.
*/
module CommandDrain {
  import opened Basics

  /** An InternalThreadCommand, an InternalThreadCommandForAnyThread, or an InternalGetThreadStack with the time after
      which it no longer waits for its thread to be suspended. */
  datatype Command =
    | ForThread(id: int, threadId: string)
    | ForAnyThread(id: int)
    | GetThreadStack(id: int, threadId: string, deadline: int)

  /** A command and the key of the queue it is put in or was taken from. */
  datatype Entry = Entry(key: string, command: Command)

  /** What comes of asking for the message with a thread's stack: it is there, it is None, or an exception. */
  datatype StackMessage = Built | Nothing | Error

  /** What an evaluation of can_be_executed_by meets. */
  datatype Moment = Moment(now: int, message: StackMessage)

  /** Its answer, or that it raises. */
  datatype Verdict = Execute | Postpone | Raise

  /** The verdict on a command at the evaluation with a given number. */
  type Judge = (nat, Command) -> Verdict

  predicate EndsWith(s: string, suffix: string) {
    |suffix| <= |s| && s[|s| - |suffix|..] == suffix
  }

  /** can_be_executed_by */
  function CanBeExecutedBy(c: Command, current: string, m: Moment): Verdict {
    match c
    case ForAnyThread(_) => Execute
    case ForThread(_, threadId) =>
      if threadId == current || EndsWith(threadId, "|" + current) then Execute else Postpone
    case GetThreadStack(_, _, deadline) =>
      if m.message.Error? then Raise else if m.message.Built? || m.now >= deadline then Execute else Postpone
  }

  /** What can_be_executed_by says to thread `current`, if evaluation number `k` meets moments(k). */
  function JudgeOf(current: string, moments: nat -> Moment): Judge {
    (k: nat, c: Command) => CanBeExecutedBy(c, current, moments(k))
  }

  /** What follows the last '|' of `s`, or all of it. */
  function AfterLastBar(s: string): (r: string)
    ensures '|' !in r
    ensures r == s || EndsWith(s, "|" + r)
  {
    if s == [] then s
    else
      var init := s[..|s| - 1];
      var r := AfterLastBar(init);
      if s[|s| - 1] == '|' then
        assert s[|s| - 1..] == "|" + "";
        ""
      else
        assert EndsWith(init, "|" + r) ==> s[|s| - |"|" + r| - 1..] == "|" + (r + [s[|s| - 1]]) by {
          if EndsWith(init, "|" + r) {
            assert s[|s| - |"|" + r| - 1..] == init[|init| - |"|" + r|..] + [s[|s| - 1]];
          }
        }
        r + [s[|s| - 1]]
  }

  /** The queue for a thread id, as get_internal_queue_and_event finds it. */
  function QueueKey(threadId: string): string {
    if "__frame__" <= threadId then AfterLastBar(threadId) else threadId
  }

  /** post_method_as_internal_command */
  function MethodCommand(id: int, threadId: string): Command {
    if threadId == "*" then ForAnyThread(id) else ForThread(id, threadId)
  }

  /** It puts a command where a thread that can execute it will look. */
  lemma {:induction false} PostedWhereExecutable(id: int, threadId: string, m: Moment)
    ensures CanBeExecutedBy(MethodCommand(id, threadId), QueueKey(threadId), m) == Execute
    ensures QueueKey(QueueKey(threadId)) == QueueKey(threadId)
  {
    if "__frame__" <= threadId {
      NoBar(AfterLastBar(threadId));
    }
  }

  lemma {:induction false} NoBar(s: string)
    requires '|' !in s
    ensures AfterLastBar(s) == s
  {
    if s != [] {
      assert s[|s| - 1] in s;
      NoBar(s[..|s| - 1]);
      assert s == s[..|s| - 1] + [s[|s| - 1]];
    }
  }

  /** One evaluation: the command, the queue it was taken from, and the verdict. */
  datatype Evaluation = Evaluation(entry: Entry, verdict: Verdict)

  /** What a pass evaluates, in order, when it finds the commands `cs` in queue `key`. */
  function Evaluate(key: string, cs: seq<Command>, j: Judge, at: nat): (log: seq<Evaluation>)
    ensures |log| == |cs|
    ensures forall i :: 0 <= i < |cs| ==> log[i] == Evaluation(Entry(key, cs[i]), j(at + i, cs[i]))
  {
    seq(|cs|, i requires 0 <= i < |cs| => Evaluation(Entry(key, cs[i]), j(at + i, cs[i])))
  }

  /** The evaluations are those with numbers from `at` on. */
  ghost predicate Judged(log: seq<Evaluation>, j: Judge, at: nat) {
    forall i {:trigger log[i]} :: 0 <= i < |log| ==> log[i].verdict == j(at + i, log[i].entry.command)
  }

  predicate AnyRaises(log: seq<Evaluation>) {
    exists i :: 0 <= i < |log| && log[i].verdict == Raise
  }

  /** What was evaluated. */
  function Taken(log: seq<Evaluation>): seq<Entry> {
    if log == [] then [] else Taken(log[..|log| - 1]) + [log[|log| - 1].entry]
  }

  /** What got the verdict `v`, in order. */
  function With(log: seq<Evaluation>, v: Verdict): seq<Entry> {
    if log == [] then []
    else if log[|log| - 1].verdict == v then With(log[..|log| - 1], v) + [log[|log| - 1].entry]
    else With(log[..|log| - 1], v)
  }

  /** The commands among `entries` that belong to the queue `key`, in order. */
  function From(key: string, entries: seq<Entry>): seq<Command> {
    if entries == [] then []
    else
      var init, last := entries[..|entries| - 1], entries[|entries| - 1];
      if last.key == key then From(key, init) + [last.command] else From(key, init)
  }

  /** `merged` holds the elements of `a` and of `b`, each in its own order. */
  ghost predicate Merges(a: seq<Command>, b: seq<Command>, merged: seq<Command>)
    decreases |merged|
  {
    if merged == [] then a == [] && b == []
    else
      var last := merged[|merged| - 1];
      var init := merged[..|merged| - 1];
      || (a != [] && a[|a| - 1] == last && Merges(a[..|a| - 1], b, init))
      || (b != [] && b[|b| - 1] == last && Merges(a, b[..|b| - 1], init))
  }

  // ---- Lemmas about the lists ----

  lemma {:induction false} Snoc<T>(s: seq<T>)
    requires s != []
    ensures s == s[..|s| - 1] + [s[|s| - 1]]
  {
  }

  lemma {:induction false} Init<T>(s: seq<T>, x: T)
    ensures (s + [x])[..|s + [x]| - 1] == s && (s + [x])[|s + [x]| - 1] == x
  {
  }

  lemma {:induction false} FromHit(key: string, entries: seq<Entry>, e: Entry)
    requires e.key == key
    ensures From(key, entries + [e]) == From(key, entries) + [e.command]
  {
    Init(entries, e);
  }

  lemma {:induction false} FromMiss(key: string, entries: seq<Entry>, e: Entry)
    requires e.key != key
    ensures From(key, entries + [e]) == From(key, entries)
  {
    Init(entries, e);
  }

  lemma {:induction false} FromConcat(key: string, a: seq<Entry>, b: seq<Entry>)
    ensures From(key, a + b) == From(key, a) + From(key, b)
  {
    if b == [] {
      assert a + b == a;
    } else {
      var init, last := b[..|b| - 1], b[|b| - 1];
      FromConcat(key, a, init);
      Snoc(b);
      ConcatAssociative(a, init, [last]);
      if last.key == key {
        FromHit(key, a + init, last);
        ConcatAssociative(From(key, a), From(key, init), [last.command]);
      } else {
        FromMiss(key, a + init, last);
      }
    }
  }

  lemma {:induction false} TakenSnoc(log: seq<Evaluation>, x: Evaluation)
    ensures Taken(log + [x]) == Taken(log) + [x.entry]
  {
    Init(log, x);
  }

  lemma {:induction false} WithHit(log: seq<Evaluation>, x: Evaluation, v: Verdict)
    requires x.verdict == v
    ensures With(log + [x], v) == With(log, v) + [x.entry]
  {
    Init(log, x);
  }

  lemma {:induction false} WithMiss(log: seq<Evaluation>, x: Evaluation, v: Verdict)
    requires x.verdict != v
    ensures With(log + [x], v) == With(log, v)
  {
    Init(log, x);
  }

  lemma {:induction false} TakenConcat(a: seq<Evaluation>, b: seq<Evaluation>)
    ensures Taken(a + b) == Taken(a) + Taken(b)
  {
    if b == [] {
      assert a + b == a;
    } else {
      var init, last := b[..|b| - 1], b[|b| - 1];
      TakenConcat(a, init);
      Snoc(b);
      ConcatAssociative(a, init, [last]);
      TakenSnoc(a + init, last);
      ConcatAssociative(Taken(a), Taken(init), [last.entry]);
    }
  }

  lemma {:induction false} WithConcat(a: seq<Evaluation>, b: seq<Evaluation>, v: Verdict)
    ensures With(a + b, v) == With(a, v) + With(b, v)
  {
    if b == [] {
      assert a + b == a;
    } else {
      var init, last := b[..|b| - 1], b[|b| - 1];
      WithConcat(a, init, v);
      Snoc(b);
      ConcatAssociative(a, init, [last]);
      if last.verdict == v {
        WithHit(a + init, last, v);
        ConcatAssociative(With(a, v), With(init, v), [last.entry]);
      } else {
        WithMiss(a + init, last, v);
      }
    }
  }

  lemma {:induction false} JudgedConcat(a: seq<Evaluation>, b: seq<Evaluation>, j: Judge, at: nat)
    requires Judged(a, j, at) && Judged(b, j, at + |a|)
    ensures Judged(a + b, j, at)
    ensures AnyRaises(a + b) <==> AnyRaises(a) || AnyRaises(b)
  {
    var log := a + b;
    forall i | 0 <= i < |log| ensures log[i].verdict == j(at + i, log[i].entry.command) {
      if i >= |a| {
        assert log[i] == b[i - |a|] && at + |a| + (i - |a|) == at + i;
      }
    }
    assert forall i :: 0 <= i < |a| ==> log[i] == a[i];
    assert forall i :: 0 <= i < |b| ==> log[|a| + i] == b[i];
  }

  // ---- Commands with a fixed answer ----

  /** The answer does not depend on the evaluation. */
  ghost predicate Fixed(cs: seq<Command>, j: Judge) {
    forall i, k: nat :: 0 <= i < |cs| ==> j(k, cs[i]) == j(0, cs[i]) != Raise
  }

  /** So it is for all commands but those that wait for a stack. */
  lemma {:induction false} AllButStacksFixed(cs: seq<Command>, current: string, moments: nat -> Moment)
    requires forall i :: 0 <= i < |cs| ==> !cs[i].GetThreadStack?
    ensures Fixed(cs, JudgeOf(current, moments))
  {
    var j := JudgeOf(current, moments);
    forall i, k: nat | 0 <= i < |cs| ensures j(k, cs[i]) == j(0, cs[i]) != Raise {
      assert j(k, cs[i]) == CanBeExecutedBy(cs[i], current, moments(k));
      assert !cs[i].GetThreadStack?;
    }
  }

  /** The commands on which evaluation number 0 would give the verdict `v`, in order. */
  function Verdicts(cs: seq<Command>, j: Judge, v: Verdict): seq<Command> {
    if cs == [] then []
    else if j(0, cs[|cs| - 1]) == v then Verdicts(cs[..|cs| - 1], j, v) + [cs[|cs| - 1]]
    else Verdicts(cs[..|cs| - 1], j, v)
  }

  /** For commands with a fixed answer it does not matter when they are evaluated. */
  lemma {:induction false} EvaluateFixed(key: string, cs: seq<Command>, j: Judge, at: nat, v: Verdict)
    requires Fixed(cs, j)
    ensures From(key, With(Evaluate(key, cs, j, at), v)) == Verdicts(cs, j, v)
  {
    if cs != [] {
      var init, last := cs[..|cs| - 1], cs[|cs| - 1];
      var log := Evaluate(key, init, j, at);
      var x := Evaluation(Entry(key, last), j(at + |init|, last));
      EvaluateFixed(key, init, j, at, v);
      assert Evaluate(key, cs, j, at) == log + [x];
      assert x.verdict == j(0, last);
      if x.verdict == v {
        WithHit(log, x, v);
        FromHit(key, With(log, v), x.entry);
      } else {
        WithMiss(log, x, v);
      }
    }
  }

  lemma {:induction false} VerdictsOnly(cs: seq<Command>, j: Judge, v: Verdict)
    requires Fixed(cs, j)
    ensures var r := Verdicts(cs, j, v); Fixed(r, j) && forall i :: 0 <= i < |r| ==> j(0, r[i]) == v
  {
    if cs != [] {
      VerdictsOnly(cs[..|cs| - 1], j, v);
      assert j(0, cs[|cs| - 1]) != Raise;
    }
  }

  lemma {:induction false} VerdictsAll(cs: seq<Command>, j: Judge, v: Verdict, w: Verdict)
    requires v != w && forall i :: 0 <= i < |cs| ==> j(0, cs[i]) == v
    ensures Verdicts(cs, j, v) == cs && Verdicts(cs, j, w) == []
  {
    if cs != [] {
      VerdictsAll(cs[..|cs| - 1], j, v, w);
      assert j(0, cs[|cs| - 1]) == v;
      Snoc(cs);
    }
  }

  /** Among commands with a fixed answer, a second pass over what was put back finds nothing to execute. */
  lemma {:induction false} PostponedAgain(cs: seq<Command>, j: Judge)
    requires Fixed(cs, j)
    ensures var back := Verdicts(cs, j, Postpone);
            Fixed(back, j) && Verdicts(back, j, Execute) == [] && Verdicts(back, j, Postpone) == back
  {
    VerdictsOnly(cs, j, Postpone);
    VerdictsAll(Verdicts(cs, j, Postpone), j, Postpone, Execute);
  }

  /** A command that waits for a stack is executed at the latest by the first evaluation after its deadline, unless that
      raises. */
  lemma {:induction false} DueIsExecuted(c: Command, current: string, m: Moment)
    requires c.GetThreadStack? && m.now >= c.deadline && !m.message.Error?
    ensures CanBeExecutedBy(c, current, m) == Execute
  {
  }

  // ---- Merging ----

  lemma {:induction false} MergeLeft(a: seq<Command>, b: seq<Command>, merged: seq<Command>, c: Command)
    requires Merges(a, b, merged)
    ensures Merges(a + [c], b, merged + [c])
  {
    assert (merged + [c])[..|merged|] == merged && (a + [c])[..|a|] == a;
  }

  lemma {:induction false} MergeRight(a: seq<Command>, b: seq<Command>, merged: seq<Command>, more: seq<Command>)
    requires Merges(a, b, merged)
    ensures Merges(a, b + more, merged + more)
  {
    if more == [] {
      assert b + more == b && merged + more == merged;
    } else {
      var init, last := more[..|more| - 1], more[|more| - 1];
      MergeRight(a, b, merged, init);
      assert (merged + more)[..|merged + more| - 1] == merged + init;
      assert (b + more)[..|b + more| - 1] == b + init;
    }
  }

  lemma {:induction false} MergeConserves(a: seq<Command>, b: seq<Command>, merged: seq<Command>)
    requires Merges(a, b, merged)
    ensures multiset(merged) == multiset(a) + multiset(b)
    decreases |merged|
  {
    if merged != [] {
      var init, last := merged[..|merged| - 1], merged[|merged| - 1];
      SnocMultiset(merged);
      if a != [] && a[|a| - 1] == last && Merges(a[..|a| - 1], b, init) {
        MergeConserves(a[..|a| - 1], b, init);
        SnocMultiset(a);
      } else {
        MergeConserves(a, b[..|b| - 1], init);
        SnocMultiset(b);
      }
    }
  }

  lemma {:induction false} SnocMultiset(s: seq<Command>)
    requires s != []
    ensures multiset(s) == multiset(s[..|s| - 1]) + multiset{s[|s| - 1]}
  {
    assert s == s[..|s| - 1] + [s[|s| - 1]];
  }

  lemma {:induction false} MergeNothing(a: seq<Command>, merged: seq<Command>)
    requires Merges(a, [], merged)
    ensures merged == a
    decreases |merged|
  {
    if merged != [] {
      MergeNothing(a[..|a| - 1], merged[..|merged| - 1]);
      assert a == a[..|a| - 1] + [a[|a| - 1]];
      assert merged == merged[..|merged| - 1] + [merged[|merged| - 1]];
    }
  }

  /** If no evaluation raises, what was taken from a queue is executed or postponed, each kind in the order of the
      queue. */
  lemma {:induction false} LogSplits(key: string, log: seq<Evaluation>)
    requires !AnyRaises(log)
    ensures Merges(From(key, With(log, Execute)), From(key, With(log, Postpone)), From(key, Taken(log)))
  {
    if log != [] {
      var init, x := log[..|log| - 1], log[|log| - 1];
      var e, p, t := From(key, With(init, Execute)), From(key, With(init, Postpone)), From(key, Taken(init));
      assert forall i :: 0 <= i < |init| ==> init[i] == log[i];
      LogSplits(key, init);
      assert x.verdict != Raise;
      if x.entry.key != key {
        FromMiss(key, Taken(init), x.entry);
        FromMiss(key, With(init, x.verdict), x.entry);
      } else {
        FromHit(key, Taken(init), x.entry);
        FromHit(key, With(init, x.verdict), x.entry);
        if x.verdict == Execute {
          MergeLeft(e, p, t, x.entry.command);
        } else {
          MergeRight(e, p, t, [x.entry.command]);
        }
      }
    }
  }
}
