/** The queues themselves, filled and drained in place while other threads post. */
module CommandQueues {
  import opened Basics
  import opened CommandDrain
  import opened CommandPass
  import opened CommandSteps

  class PyDb {
    /** What each evaluation of can_be_executed_by meets; nothing is known about it. */
    const moments: nat -> Moment
    var evaluations: nat
    var queues: Queues
    /** What other threads have yet to post, in the order in which they will. */
    var future: seq<Entry>
    var executedAtOnce: seq<Command>

    function Queue(key: string): seq<Command>
      reads this
    {
      QueueIn(queues, key)
    }

    constructor (future: seq<Entry>, moments: nat -> Moment)
      ensures this.future == future && this.moments == moments && evaluations == 0 && executedAtOnce == []
      ensures forall key :: Queue(key) == []
    {
      queues, evaluations, executedAtOnce := map[], 0, [];
      this.future, this.moments := future, moments;
    }

    method PostInternalCommand(c: Command, threadId: string)
      modifies this`queues
      ensures Queue(QueueKey(threadId)) == old(Queue(QueueKey(threadId))) + [c]
      ensures forall key :: key != QueueKey(threadId) ==> Queue(key) == old(Queue(key))
    {
      var key := QueueKey(threadId);
      queues := queues[key := Queue(key) + [c]];
    }

    /** request_stack of pydevd_api.py: executed at once, or posted for any thread, or an exception and neither. */
    method RequestStack(id: int, threadId: string, deadline: int, current: string) returns (raised: bool)
      modifies this`queues, this`evaluations, this`executedAtOnce
      ensures evaluations == old(evaluations) + 1
      ensures var c := GetThreadStack(id, threadId, deadline);
              var v := CanBeExecutedBy(c, current, moments(old(evaluations)));
              && raised == (v == Raise)
              && executedAtOnce == old(executedAtOnce) + (if v == Execute then [c] else [])
              && Queue("*") == old(Queue("*")) + (if v == Postpone then [c] else [])
      ensures forall key :: key != "*" ==> Queue(key) == old(Queue(key))
    {
      var c := GetThreadStack(id, threadId, deadline);
      var v := CanBeExecutedBy(c, current, moments(evaluations));
      evaluations := evaluations + 1;
      raised := v == Raise;
      if v == Execute {
        executedAtOnce := executedAtOnce + [c];
      } else if v == Postpone {
        PostInternalCommand(c, "*");
      }
    }

    /** Other threads post any number of their commands. */
    method OtherThreads() returns (ghost posts: seq<Entry>)
      modifies this`queues, this`future
      ensures old(future) == posts + future
      ensures AllPosts(old(queues), queues, posts)
    {
      posts := [];
      NoPosts(queues);
      var more: bool := *;
      while more && future != []
        invariant old(future) == posts + future
        invariant AllPosts(old(queues), queues, posts)
        decreases |future|
      {
        var e := future[0];
        OnePost(old(queues), queues, posts, e);
        assert future == [e] + future[1..];
        ConcatAssociative(posts, [e], future[1..]);
        queues := queues[e.key := Queue(e.key) + [e.command]];
        future := future[1..];
        posts := posts + [e];
        more := *;
      }
    }

    /** Takes the first command of a queue; then other threads may post. */
    method Get(key: string) returns (c: Command, ghost posts: seq<Entry>)
      requires Queue(key) != []
      modifies this`queues, this`future
      ensures old(future) == posts + future
      ensures [c] + Queue(key) == old(Queue(key)) + From(key, posts)
      ensures OnlyPosts(old(queues), queues, key, posts)
      ensures |future| + |Queue(key)| < |old(future)| + |old(Queue(key))|
    {
      c := Queue(key)[0];
      queues := queues[key := Queue(key)[1..]];
      posts := OtherThreads();
      FromShorter(key, posts);
    }

    /** Puts a command at the end of a queue; then other threads may post. */
    method Put(key: string, c: Command) returns (ghost posts: seq<Entry>)
      modifies this`queues, this`future
      ensures old(future) == posts + future
      ensures Queue(key) == (old(Queue(key)) + [c]) + From(key, posts)
      ensures OnlyPosts(old(queues), queues, key, posts)
    {
      queues := queues[key := Queue(key) + [c]];
      posts := OtherThreads();
    }

    /** The loop that runs until the queue is found empty, or an evaluation raises. */
    method TakeAll(key: string, current: string)
      returns (raised: bool, cmdsToExecute: seq<Entry>, cmdsToAddBack: seq<Command>,
               ghost log: seq<Evaluation>, ghost posts: seq<Entry>)
      modifies this`queues, this`future, this`evaluations
      ensures old(future) == posts + future && evaluations == old(evaluations) + |log|
      ensures Taking(old(queues), queues, key, posts, log, JudgeOf(current, moments), old(evaluations))
      ensures raised ==> LastRaises(log)
      ensures !raised ==> Queue(key) == [] && !AnyRaises(log) && Sorted(log, key, cmdsToExecute, cmdsToAddBack)
    {
      ghost var j, at := JudgeOf(current, moments), evaluations;
      cmdsToExecute, cmdsToAddBack, log, raised := [], [], [], false;
      posts := OtherThreads();
      assert From(key, Taken(log)) + Queue(key) == Queue(key);
      while Queue(key) != []
        invariant old(future) == posts + future && evaluations == at + |log|
        invariant Taking(old(queues), queues, key, posts, log, j, at)
        invariant !AnyRaises(log) && Sorted(log, key, cmdsToExecute, cmdsToAddBack)
        decreases |future| + |Queue(key)|
      {
        ghost var between := queues;
        var c, more := Get(key);
        var v := CanBeExecutedBy(c, current, moments(evaluations));
        ghost var x := Evaluation(Entry(key, c), v);
        assert v == j(at + |log|, c);
        evaluations := evaluations + 1;
        TakingGoesOn(old(queues), between, queues, key, posts, more, log, x, j, at);
        SortedGoesOn(log, x, key, cmdsToExecute, cmdsToAddBack);
        ConcatAssociative(posts, more, future);
        log, posts := log + [x], posts + more;
        if v == Raise {
          raised := true;
          return;
        } else if v == Execute {
          cmdsToExecute := cmdsToExecute + [Entry(key, c)];
        } else {
          cmdsToAddBack := cmdsToAddBack + [c];
        }
      }
    }

    /** Puts commands back into a queue while other threads post. */
    method AddBack(key: string, cmds: seq<Command>) returns (ghost posts: seq<Entry>)
      requires Queue(key) == []
      modifies this`queues, this`future
      ensures old(future) == posts + future
      ensures Merges(cmds, From(key, posts), Queue(key))
      ensures OnlyPosts(old(queues), queues, key, posts)
    {
      posts := [];
      for i := 0 to |cmds|
        invariant old(future) == posts + future
        invariant Merges(cmds[..i], From(key, posts), Queue(key))
        invariant OnlyPosts(old(queues), queues, key, posts)
      {
        ghost var before, between := Queue(key) + [cmds[i]], queues;
        MergeLeft(cmds[..i], From(key, posts), Queue(key), cmds[i]);
        assert cmds[..i] + [cmds[i]] == cmds[..i + 1];
        ghost var more := Put(key, cmds[i]);
        FromConcat(key, posts, more);
        MergeRight(cmds[..i + 1], From(key, posts), before, From(key, more));
        OnlyPostsTwice(old(queues), between, queues, key, posts, more);
        ConcatAssociative(posts, more, future);
        posts := posts + more;
      }
      assert cmds[..|cmds|] == cmds;
    }

    /** One queue. */
    method Drain(key: string, current: string)
      returns (raised: bool, cmdsToExecute: seq<Entry>,
               ghost log: seq<Evaluation>, ghost early: seq<Entry>, ghost late: seq<Entry>)
      modifies this`queues, this`future, this`evaluations
      ensures old(future) == (early + late) + future && evaluations == old(evaluations) + |log|
      ensures Judged(log, JudgeOf(current, moments), old(evaluations))
      ensures if raised then Broken(old(queues), queues, early + late, key, log)
              else Drained(old(queues), queues, early, late, key, log) && cmdsToExecute == With(log, Execute)
    {
      var cmdsToAddBack;
      raised, cmdsToExecute, cmdsToAddBack, log, early := TakeAll(key, current);
      late := [];
      assert early + [] == early;
      if !raised {
        ghost var between := queues;
        assert From(key, Taken(log)) + [] == From(key, Taken(log));
        late := AddBack(key, cmdsToAddBack);
        OnlyPostsTwice(old(queues), between, queues, key, early, late);
        ConcatAssociative(early, late, future);
      }
    }

    /** One round of the loop over the queues, after those `visited` with the evaluations `log`. */
    method DrainNext(
      key: string, current: string, ghost start: Queues, ghost posts: seq<Entry>, ghost log: seq<Evaluation>,
      ghost executed: seq<Entry>, ghost visited: seq<string>, ghost p: PassResult, ghost j: Judge, ghost at: nat)
      returns (raised: bool, cmdsToExecute: seq<Entry>, ghost more: seq<Evaluation>, ghost during: seq<Entry>)
      requires evaluations == at + |log| && j == JudgeOf(current, moments)
      requires Partly(start, queues, posts, log, executed, visited, j, at)
      requires Quietly(posts, p, executed, queues, evaluations)
      modifies this`queues, this`future, this`evaluations
      ensures old(future) == during + future && evaluations == old(evaluations) + |more|
      ensures raised ==> Failed(start, queues, posts + during, log, more, Visit(p, key, j), j, at)
      ensures !raised ==>
                && Partly(start, queues, posts + during, log + more, executed + cmdsToExecute, visited + [key], j, at)
                && Quietly(posts + during, Visit(p, key, j), executed + cmdsToExecute, queues, evaluations)
    {
      ghost var before, next := queues, evaluations;
      ghost var early, late;
      raised, cmdsToExecute, more, early, late := Drain(key, current);
      during := early + late;
      if raised {
        PassFails(start, before, queues, posts, during, log, more, executed, visited, key, p, j, at);
      } else {
        RoundEnds(start, before, queues, posts, early, late, log, more, executed, visited, key, p, j, at, next);
      }
    }

    /** The loop over the queues. */
    method DrainQueues(keys: seq<string>, current: string)
      returns (raised: bool, executed: seq<Entry>,
               ghost earlier: seq<Evaluation>, ghost log: seq<Evaluation>, ghost posts: seq<Entry>)
      modifies this`queues, this`future, this`evaluations
      ensures old(future) == posts + future
      ensures var j, at := JudgeOf(current, moments), old(evaluations);
              var p := Pass(old(queues), keys, j, at);
              if raised then
                && Failed(old(queues), queues, posts, earlier, log, p, j, at)
                && evaluations == at + |earlier| + |log|
              else
                && Passed(old(queues), queues, posts, log, keys, p, j, at)
                && evaluations == at + |log| && executed == With(log, Execute)
    {
      ghost var at, p := evaluations, Done([], queues, evaluations);
      raised, executed, earlier, log, posts := false, [], [], [], [];
      PassBegins(queues, JudgeOf(current, moments), at);
      for i := 0 to |keys|
        invariant old(future) == posts + future && evaluations == at + |log|
        invariant p == Pass(old(queues), keys[..i], JudgeOf(current, moments), at)
        invariant Partly(old(queues), queues, posts, log, executed, keys[..i], JudgeOf(current, moments), at)
        invariant Quietly(posts, p, executed, queues, evaluations)
      {
        var failed, cmdsToExecute, more, during :=
          DrainNext(keys[i], current, old(queues), posts, log, executed, keys[..i], p,
                    JudgeOf(current, moments), at);
        ConcatAssociative(posts, during, future);
        PassNext(old(queues), keys, i, JudgeOf(current, moments), at);
        posts := posts + during;
        if failed {
          raised, earlier, log := true, log, more;
          return;
        }
        executed, log, p := executed + cmdsToExecute, log + more, Visit(p, keys[i], JudgeOf(current, moments));
      }
      assert keys[..|keys|] == keys;
    }

    /**
    process_internal_commands up to the commands it executes. Nothing is drained when the program has no thread left
    and the debugger is to be disposed. Otherwise `log` is what was evaluated: see Passed, and Failed for an exception
    that escapes.
    */
    method ProcessInternalCommands(
      processIds: Option<seq<string>>, current: string, readyToRun: bool, threadsAlive: bool)
      returns (dispose: bool, raised: bool, executed: seq<Entry>,
               ghost earlier: seq<Evaluation>, ghost log: seq<Evaluation>, ghost posts: seq<Entry>)
      modifies this`queues, this`future, this`evaluations
      ensures dispose == (readyToRun && !threadsAlive)
      ensures old(future) == posts + future
      ensures var j, keys, at := JudgeOf(current, moments), Keys(processIds, current, readyToRun), old(evaluations);
              var p := Pass(old(queues), keys, j, at);
              if dispose then
                !raised && executed == [] && queues == old(queues) && posts == [] && evaluations == at
              else if raised then
                && Failed(old(queues), queues, posts, earlier, log, p, j, at)
                && evaluations == at + |earlier| + |log| && executed == []
              else
                && Passed(old(queues), queues, posts, log, keys, p, j, at)
                && evaluations == at + |log| && executed == With(log, Execute)
    {
      dispose := readyToRun && !threadsAlive;
      if dispose {
        raised, executed, earlier, log, posts := false, [], [], [], [];
      } else {
        raised, executed, earlier, log, posts := DrainQueues(Keys(processIds, current, readyToRun), current);
        if raised {
          executed := [];
        }
      }
    }
  }

  // ---- Consequences ----

  /** Commands are lost exactly when an evaluation raises: what a pass that ends does not leave in a queue it executes,
      but one that fails leaves some queue short of a command that nobody executes. */
  lemma {:induction false} FailureLosesCommands(
    before: Queues, after: Queues, posts: seq<Entry>, earlier: seq<Evaluation>, log: seq<Evaluation>,
    p: PassResult, j: Judge, at: nat)
    requires Failed(before, after, posts, earlier, log, p, j, at)
    ensures !Conserved(before, after, posts, [])
  {
    var lost := With(earlier, Execute) + Taken(log);
    Snoc(log);
    TakenSnoc(log[..|log| - 1], log[|log| - 1]);
    var e := log[|log| - 1].entry;
    var c, q, left := e.command, QueueIn(before, e.key), QueueIn(after, e.key);
    assert e in lost;
    InFrom(e, lost);
    assert ConservedAt(q, left, From(e.key, posts), From(e.key, lost));
    assert Count(From(e.key, lost), c) > 0;
    assert Count(left, c) + Count(From(e.key, []), c) != Count(q, c) + Count(From(e.key, posts), c);
    assert !ConservedAt(q, left, From(e.key, posts), From(e.key, []));
  }

  /** A command that waits for a stack and is evaluated after its deadline is executed by that pass. */
  lemma {:induction false} DueCommandsExecuted(
    before: Queues, after: Queues, posts: seq<Entry>, log: seq<Evaluation>,
    keys: seq<string>, p: PassResult, current: string, moments: nat -> Moment, at: nat, i: nat)
    requires Passed(before, after, posts, log, keys, p, JudgeOf(current, moments), at)
    requires i < |log| && log[i].entry.command.GetThreadStack?
    requires moments(at + i).now >= log[i].entry.command.deadline
    ensures log[i].entry in With(log, Execute)
  {
    var x, m := log[i], moments(at + i);
    assert x.verdict == CanBeExecutedBy(x.entry.command, current, m);
    assert !m.message.Error?;
    DueIsExecuted(x.entry.command, current, m);
    WithHas(log, i);
  }

  lemma {:induction false} WithHas(log: seq<Evaluation>, i: nat)
    requires i < |log|
    ensures log[i].entry in With(log, log[i].verdict)
  {
    if i < |log| - 1 {
      WithHas(log[..|log| - 1], i);
    }
  }

  lemma {:induction false} InFrom(e: Entry, entries: seq<Entry>)
    requires e in entries
    ensures e.command in From(e.key, entries)
  {
    var last := entries[|entries| - 1];
    Snoc(entries);
    if e != last {
      InFrom(e, entries[..|entries| - 1]);
    }
  }

  // ---- A command that is lost ----

  /** A command that any thread can execute, and behind it a stack request whose evaluation raises. */
  function TwoCommands(id: int, threadId: string): seq<Command> {
    [ForAnyThread(0), GetThreadStack(id, threadId, 10)]
  }

  lemma {:induction false} EscapingPass(id: int, threadId: string, current: string, moments: nat -> Moment)
    requires moments(1).message.Error?
    ensures Pass(map["*" := TwoCommands(id, threadId)], ["*"], JudgeOf(current, moments), 0).Escapes?
  {
    var queues: Queues, j := map["*" := TwoCommands(id, threadId)], JudgeOf(current, moments);
    var log := Evaluate("*", TwoCommands(id, threadId), j, 0);
    assert log[1].verdict == Raise;
    PassSnoc(queues, [], "*", j, 0);
    assert [] + ["*"] == ["*"];
  }

  /** What was taken when an evaluation raised is more than the first command, which does not raise. */
  lemma {:induction false} BothTaken(
    log: seq<Evaluation>, left: seq<Command>, id: int, threadId: string, current: string, moments: nat -> Moment)
    requires OfQueue(log, "*") && LastRaises(log) && Judged(log, JudgeOf(current, moments), 0)
    requires From("*", Taken(log)) + left == TwoCommands(id, threadId)
    ensures left == []
  {
    var j := JudgeOf(current, moments);
    LogIsEvaluate("*", log, j, 0);
    var taken := From("*", Taken(log));
    assert |taken| == |log| >= 1 && taken[0] == TwoCommands(id, threadId)[0];
    assert log[0].verdict == j(0, taken[0]);
    assert j(0, ForAnyThread(0)) == CanBeExecutedBy(ForAnyThread(0), current, moments(0));
    assert |log| >= 2;
  }

  lemma {:induction false} BothRaise(
    log: seq<Evaluation>, id: int, threadId: string, current: string, moments: nat -> Moment)
    requires OfQueue(log, "*") && Judged(log, JudgeOf(current, moments), 0) && moments(1).message.Error?
    requires From("*", Taken(log)) == TwoCommands(id, threadId)
    ensures AnyRaises(log)
  {
    var j := JudgeOf(current, moments);
    LogIsEvaluate("*", log, j, 0);
    assert log[1].verdict == j(1, TwoCommands(id, threadId)[1]);
  }

  /** Both are posted for any thread; the drain raises, and neither is in the queue any more. ProcessInternalCommands
      executes nothing when it raises. */
  method LosingRun(id: int, threadId: string, current: string, moments: nat -> Moment)
    returns (db: PyDb, raised: bool)
    requires moments(1).message.Error?
    ensures raised && db.Queue("*") == []
  {
    db := new PyDb([], moments);
    db.PostInternalCommand(ForAnyThread(0), "*");
    db.PostInternalCommand(GetThreadStack(id, threadId, 10), "*");
    assert db.Queue("*") == TwoCommands(id, threadId);
    var cmdsToExecute;
    ghost var log, early, late;
    raised, cmdsToExecute, log, early, late := db.Drain("*", current);
    assert early + late == [];
    assert early == [] && From("*", []) == [] && TwoCommands(id, threadId) + [] == TwoCommands(id, threadId);
    if raised {
      BothTaken(log, db.Queue("*"), id, threadId, current, moments);
    } else {
      BothRaise(log, id, threadId, current, moments);
      assert false;
    }
  }
}
