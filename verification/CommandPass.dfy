/** One pass of process_internal_commands over the queues: what it does when nobody posts, and what of that holds
    whatever is posted meanwhile. */
module CommandPass {
  import opened Basics
  import opened CommandDrain
  import opened CommandThreads

  type Queues = map<string, seq<Command>>

  /** The dictionary creates missing queues. */
  function QueueIn(queues: Queues, key: string): seq<Command> {
    if key in queues then queues[key] else []
  }

  /** The keys of the queues to process. */
  function Keys(processIds: Option<seq<string>>, current: string, readyToRun: bool): seq<string> {
    var ids := if processIds.Some? then processIds.value else if readyToRun then [current, "*"] else ["*"];
    seq(|ids|, i requires 0 <= i < |ids| => QueueKey(ids[i]))
  }

  /** Without thread ids a pass visits the queue of the current thread and then the one for any thread; only the latter
      while the debugger is not ready. */
  lemma {:induction false} VisitsByDefault(current: string, readyToRun: bool)
    requires '|' !in current
    ensures readyToRun ==> Keys(None, current, readyToRun) == [current, "*"]
    ensures !readyToRun ==> Keys(None, current, readyToRun) == ["*"]
  {
    QueueOfId(current, "", "");
    QueueOfId("*", "", "");
  }

  /** With thread ids it visits their queues, in the order given. */
  lemma {:induction false} VisitsTheGiven(ids: seq<string>, keys: seq<string>, current: string, readyToRun: bool)
    requires |keys| == |ids| && forall i :: 0 <= i < |ids| ==> '|' !in keys[i]
    requires forall i :: 0 <= i < |ids| ==>
               ids[i] == keys[i] || exists frame: string :: "__frame__" <= ids[i] == frame + ("|" + keys[i])
    ensures Keys(Some(ids), current, readyToRun) == keys
  {
    forall i | 0 <= i < |ids| ensures QueueKey(ids[i]) == keys[i] {
      QueueOfId(ids[i], "", "");
      if ids[i] != keys[i] {
        var frame: string :| "__frame__" <= ids[i] == frame + ("|" + keys[i]);
        QueueOfId("", frame, keys[i]);
      }
    }
  }

  // ---- A pass while nobody posts ----

  /** What a pass executes, the queues it leaves, and the number of the next evaluation; or an exception escapes. */
  datatype PassResult = Done(executed: seq<Entry>, queues: Queues, next: nat) | Escapes

  /** A pass goes on to one more queue. */
  function Visit(p: PassResult, key: string, j: Judge): PassResult {
    match p
    case Escapes => Escapes
    case Done(executed, queues, next) =>
      var log := Evaluate(key, QueueIn(queues, key), j, next);
      if AnyRaises(log) then Escapes
      else Done(executed + With(log, Execute), queues[key := From(key, With(log, Postpone))], next + |log|)
  }

  function Pass(queues: Queues, keys: seq<string>, j: Judge, at: nat): PassResult {
    if keys == [] then Done([], queues, at) else Visit(Pass(queues, keys[..|keys| - 1], j, at), keys[|keys| - 1], j)
  }

  lemma {:induction false} PassSnoc(queues: Queues, keys: seq<string>, key: string, j: Judge, at: nat)
    ensures Pass(queues, keys + [key], j, at) == Visit(Pass(queues, keys, j, at), key, j)
  {
    Init(keys, key);
  }

  lemma {:induction false} PassEscapes(queues: Queues, keys: seq<string>, more: seq<string>, j: Judge, at: nat)
    requires Pass(queues, keys, j, at).Escapes?
    ensures Pass(queues, keys + more, j, at).Escapes?
  {
    if more == [] {
      assert keys + more == keys;
    } else {
      var init, last := more[..|more| - 1], more[|more| - 1];
      PassEscapes(queues, keys, init, j, at);
      Snoc(more);
      ConcatAssociative(keys, init, [last]);
      PassSnoc(queues, keys + init, last, j, at);
    }
  }

  lemma {:induction false} PassNext(queues: Queues, keys: seq<string>, i: nat, j: Judge, at: nat)
    requires i < |keys|
    ensures keys[..i + 1] == keys[..i] + [keys[i]]
    ensures Pass(queues, keys[..i + 1], j, at) == Visit(Pass(queues, keys[..i], j, at), keys[i], j)
    ensures Pass(queues, keys[..i + 1], j, at).Escapes? ==> Pass(queues, keys, j, at).Escapes?
  {
    assert keys[..i + 1] == keys[..i] + [keys[i]];
    PassSnoc(queues, keys[..i], keys[i], j, at);
    if Pass(queues, keys[..i + 1], j, at).Escapes? {
      PassEscapes(queues, keys[..i + 1], keys[i + 1..], j, at);
      assert keys[..i + 1] + keys[i + 1..] == keys;
    }
  }

  /** A queue other than the one evaluated. */
  lemma {:induction false} FromOther(key: string, log: seq<Evaluation>, v: Verdict)
    requires forall i :: 0 <= i < |log| ==> log[i].entry.key != key
    ensures From(key, With(log, v)) == [] && From(key, Taken(log)) == []
  {
    if log != [] {
      var init, x := log[..|log| - 1], log[|log| - 1];
      assert forall i :: 0 <= i < |init| ==> init[i] == log[i];
      FromOther(key, init, v);
      assert x.entry.key != key;
      FromMiss(key, Taken(init), x.entry);
      FromMiss(key, With(init, v), x.entry);
    }
  }

  /** A visit to another queue. */
  lemma {:induction false} VisitOther(p: PassResult, other: string, key: string, j: Judge)
    requires key != other && Visit(p, other, j).Done?
    ensures p.Done?
    ensures From(key, Visit(p, other, j).executed) == From(key, p.executed)
    ensures QueueIn(Visit(p, other, j).queues, key) == QueueIn(p.queues, key)
  {
    var log := Evaluate(other, QueueIn(p.queues, other), j, p.next);
    FromOther(key, log, Execute);
    FromConcat(key, p.executed, With(log, Execute));
    assert From(key, p.executed) + [] == From(key, p.executed);
  }

  /** A visit to a queue whose commands have fixed answers. */
  lemma {:induction false} VisitFixed(p: PassResult, key: string, j: Judge)
    requires Visit(p, key, j).Done? && p.Done? && Fixed(QueueIn(p.queues, key), j)
    ensures var q := QueueIn(p.queues, key);
            && From(key, Visit(p, key, j).executed) == From(key, p.executed) + Verdicts(q, j, Execute)
            && QueueIn(Visit(p, key, j).queues, key) == Verdicts(q, j, Postpone)
  {
    var q := QueueIn(p.queues, key);
    var log := Evaluate(key, q, j, p.next);
    EvaluateFixed(key, q, j, p.next, Execute);
    EvaluateFixed(key, q, j, p.next, Postpone);
    FromConcat(key, p.executed, With(log, Execute));
  }

  /** A queue that is not visited keeps what it has. */
  lemma {:induction false} PassSkips(queues: Queues, keys: seq<string>, j: Judge, at: nat, key: string)
    requires key !in keys && Pass(queues, keys, j, at).Done?
    ensures From(key, Pass(queues, keys, j, at).executed) == []
    ensures QueueIn(Pass(queues, keys, j, at).queues, key) == QueueIn(queues, key)
  {
    if keys != [] {
      var init, last := keys[..|keys| - 1], keys[|keys| - 1];
      VisitOther(Pass(queues, init, j, at), last, key, j);
      PassSkips(queues, init, j, at, key);
    }
  }

  /** A visited queue whose commands have fixed answers gives up exactly the executable ones, in their order, and keeps
      the others in theirs, however often it is visited and whatever the other queues hold. */
  lemma {:induction false} PassTakes(queues: Queues, keys: seq<string>, j: Judge, at: nat, key: string)
    requires key in keys && Fixed(QueueIn(queues, key), j) && Pass(queues, keys, j, at).Done?
    ensures From(key, Pass(queues, keys, j, at).executed) == Verdicts(QueueIn(queues, key), j, Execute)
    ensures QueueIn(Pass(queues, keys, j, at).queues, key) == Verdicts(QueueIn(queues, key), j, Postpone)
  {
    var init, last := keys[..|keys| - 1], keys[|keys| - 1];
    var q, p := QueueIn(queues, key), Pass(queues, init, j, at);
    Snoc(keys);
    PostponedAgain(q, j);
    if last != key {
      VisitOther(p, last, key, j);
      PassTakes(queues, init, j, at, key);
    } else if key in init {
      PassTakes(queues, init, j, at, key);
      VisitFixed(p, key, j);
      assert Verdicts(q, j, Execute) + [] == Verdicts(q, j, Execute);
    } else {
      PassSkips(queues, init, j, at, key);
      VisitFixed(p, key, j);
      assert [] + Verdicts(q, j, Execute) == Verdicts(q, j, Execute);
    }
  }

  /** That needs fixed answers: a command that waits for a stack is put back by one pass, its thread not being
      suspended, and executed by the next, its time being over. */
  lemma {:induction false} PutBackThenExecuted(id: int, threadId: string, current: string, moments: nat -> Moment)
    requires moments(0) == Moment(5, Nothing) && moments(1) == Moment(15, Nothing)
    ensures var c, j := GetThreadStack(id, threadId, 10), JudgeOf(current, moments);
            && Pass(map["*" := [c]], ["*"], j, 0) == Done([], map["*" := [c]], 1)
            && Pass(map["*" := [c]], ["*"], j, 1) == Done([Entry("*", c)], map["*" := []], 2)
  {
    var c, j := GetThreadStack(id, threadId, 10), JudgeOf(current, moments);
    assert j(0, c) == Postpone && j(1, c) == Execute;
    VisitPostpones(c, j, 0);
    VisitExecutes(c, j, 1);
    PassSnoc(map["*" := [c]], [], "*", j, 0);
    PassSnoc(map["*" := [c]], [], "*", j, 1);
    assert [] + ["*"] == ["*"];
  }

  lemma {:induction false} VisitPostpones(c: Command, j: Judge, at: nat)
    requires j(at, c) == Postpone
    ensures Visit(Done([], map["*" := [c]], at), "*", j) == Done([], map["*" := [c]], at + 1)
  {
    var queues: Queues := map["*" := [c]];
    EvaluateOne(c, j, at);
    var log := Evaluate("*", [c], j, at);
    assert With(log, Postpone) == [Entry("*", c)] && With(log, Execute) == [];
    assert From("*", [Entry("*", c)]) == [c];
    assert QueueIn(queues, "*") == [c];
    assert queues["*" := [c]] == queues;
  }

  lemma {:induction false} VisitExecutes(c: Command, j: Judge, at: nat)
    requires j(at, c) == Execute
    ensures Visit(Done([], map["*" := [c]], at), "*", j) == Done([Entry("*", c)], map["*" := []], at + 1)
  {
    var queues: Queues := map["*" := [c]];
    EvaluateOne(c, j, at);
    assert queues["*" := []] == map["*" := []] && QueueIn(queues, "*") == [c];
    assert [] + [Entry("*", c)] == [Entry("*", c)];
  }

  lemma {:induction false} EvaluateOne(c: Command, j: Judge, at: nat)
    requires j(at, c) != Raise
    ensures var log := Evaluate("*", [c], j, at);
            !AnyRaises(log) && forall v :: With(log, v) == if v == j(at, c) then [Entry("*", c)] else []
  {
    var log := Evaluate("*", [c], j, at);
    assert log[0] == Evaluation(Entry("*", c), j(at, c));
    assert log[..0] == [];
  }

  // ---- What a pass does, whatever is posted meanwhile ----

  /** All queues grew by these posts and changed in no other way. */
  ghost predicate AllPosts(before: Queues, after: Queues, posts: seq<Entry>) {
    forall key {:trigger QueueIn(after, key)} :: QueueIn(after, key) == QueueIn(before, key) + From(key, posts)
  }

  /** All queues but `key` grew by these posts and changed in no other way. */
  ghost predicate OnlyPosts(before: Queues, after: Queues, key: string, posts: seq<Entry>) {
    forall other {:trigger QueueIn(after, other)} :: other != key ==>
      QueueIn(after, other) == QueueIn(before, other) + From(other, posts)
  }

  /** All evaluations are of commands of queue `key`. */
  ghost predicate OfQueue(log: seq<Evaluation>, key: string) {
    forall i :: 0 <= i < |log| ==> log[i].entry.key == key
  }

  /**
  One queue was drained, with the evaluations `log`. All that was in it until it was found empty, after the `early`
  posts, was evaluated in order; what was postponed was put back in order, among the `late` posts.
  */
  ghost predicate Drained(
    before: Queues, after: Queues, early: seq<Entry>, late: seq<Entry>, key: string, log: seq<Evaluation>)
  {
    && OfQueue(log, key) && !AnyRaises(log)
    && From(key, Taken(log)) == QueueIn(before, key) + From(key, early)
    && Merges(From(key, With(log, Postpone)), From(key, late), QueueIn(after, key))
    && OnlyPosts(before, after, key, early + late)
  }

  /** An evaluation raised: what was taken from the queue until then is not in it any more. */
  ghost predicate Broken(before: Queues, after: Queues, posts: seq<Entry>, key: string, log: seq<Evaluation>) {
    && OfQueue(log, key) && LastRaises(log)
    && From(key, Taken(log)) + QueueIn(after, key) == QueueIn(before, key) + From(key, posts)
    && OnlyPosts(before, after, key, posts)
  }

  /** The last evaluation raises, and no other. */
  predicate LastRaises(log: seq<Evaluation>) {
    log != [] && log[|log| - 1].verdict == Raise && !AnyRaises(log[..|log| - 1])
  }

  /** How often a command is in a list. */
  function Count(cs: seq<Command>, c: Command): nat {
    multiset(cs)[c]
  }

  ghost predicate ConservedAt(before: seq<Command>, after: seq<Command>, posts: seq<Command>, taken: seq<Command>) {
    forall c :: Count(after, c) + Count(taken, c) == Count(before, c) + Count(posts, c)
  }

  /** Every queue lost what was taken from it, gained what was posted to it, and kept the rest. */
  ghost predicate Conserved(before: Queues, after: Queues, posts: seq<Entry>, taken: seq<Entry>) {
    forall key {:trigger QueueIn(after, key)} ::
      ConservedAt(QueueIn(before, key), QueueIn(after, key), From(key, posts), From(key, taken))
  }

  /** Only queues with these keys are touched, and of each the commands it held at the start are evaluated, in order and
      before others. */
  ghost predicate OldestFirst(before: Queues, taken: seq<Entry>, keys: seq<string>) {
    && (forall key {:trigger From(key, taken)} :: key in keys ==> QueueIn(before, key) <= From(key, taken))
    && (forall key {:trigger From(key, taken)} :: key !in keys ==> From(key, taken) == [])
  }

  /** A pass that ended, with the evaluations `log`, after which it executes those with the verdict Execute; `p` is what
      Pass says. */
  ghost predicate Passed(
    before: Queues, after: Queues, posts: seq<Entry>, log: seq<Evaluation>, keys: seq<string>,
    p: PassResult, j: Judge, at: nat)
  {
    && Conserved(before, after, posts, With(log, Execute))
    && OldestFirst(before, Taken(log), keys)
    && Judged(log, j, at) && !AnyRaises(log)
    && (posts == [] ==> Agree(p, Done(With(log, Execute), after, at + |log|)))
  }

  /** A pass that an exception ended, because the last of its evaluations raised. `log` are the evaluations of the queue
      it was at, `earlier` those before. Lost, neither executed nor in a queue, are the commands chosen earlier and all
      that was taken from that queue. */
  ghost predicate Failed(
    before: Queues, after: Queues, posts: seq<Entry>, earlier: seq<Evaluation>, log: seq<Evaluation>,
    p: PassResult, j: Judge, at: nat)
  {
    && Conserved(before, after, posts, With(earlier, Execute) + Taken(log))
    && Judged(earlier + log, j, at) && !AnyRaises(earlier) && LastRaises(log)
    && (posts == [] ==> p.Escapes?)
  }

  ghost predicate SameQueues(a: Queues, b: Queues) {
    forall key {:trigger QueueIn(a, key)} :: QueueIn(a, key) == QueueIn(b, key)
  }

  ghost predicate Agree(a: PassResult, b: PassResult) {
    match a
    case Done(executed, queues, next) =>
      b.Done? && b.executed == executed && b.next == next && SameQueues(queues, b.queues)
    case Escapes => b.Escapes?
  }

  // ---- In the middle of a pass ----

  /** After the queues `visited`: those are done, the others only received posts. */
  ghost predicate Partly(
    start: Queues, now: Queues, posts: seq<Entry>, log: seq<Evaluation>, executed: seq<Entry>, visited: seq<string>,
    j: Judge, at: nat)
  {
    && Conserved(start, now, posts, executed)
    && OldestFirst(start, Taken(log), visited)
    && Untouched(start, now, posts, visited)
    && Judged(log, j, at) && !AnyRaises(log) && executed == With(log, Execute)
  }

  /** Without posts it is as Pass says. */
  ghost predicate Quietly(posts: seq<Entry>, p: PassResult, executed: seq<Entry>, now: Queues, next: nat) {
    posts == [] ==> Agree(p, Done(executed, now, next))
  }

  ghost predicate Untouched(before: Queues, after: Queues, posts: seq<Entry>, keys: seq<string>) {
    forall key {:trigger QueueIn(after, key)} :: key !in keys ==>
      QueueIn(after, key) == QueueIn(before, key) + From(key, posts)
  }

  /** While one queue is drained: what was taken from it and what is left are what it held and what was posted. */
  ghost predicate Taking(
    before: Queues, now: Queues, key: string, posts: seq<Entry>, log: seq<Evaluation>, j: Judge, at: nat)
  {
    && OfQueue(log, key) && Judged(log, j, at)
    && From(key, Taken(log)) + QueueIn(now, key) == QueueIn(before, key) + From(key, posts)
    && OnlyPosts(before, now, key, posts)
  }

  /** The two lists of a drain. */
  ghost predicate Sorted(log: seq<Evaluation>, key: string, cmdsToExecute: seq<Entry>, cmdsToAddBack: seq<Command>) {
    cmdsToExecute == With(log, Execute) && cmdsToAddBack == From(key, With(log, Postpone))
  }
}
