/** What each step of a pass keeps. */
module CommandSteps {
  import opened Basics
  import opened CommandDrain
  import opened CommandPass

  lemma {:induction false} FromShorter(key: string, entries: seq<Entry>)
    ensures |From(key, entries)| <= |entries|
  {
    if entries != [] {
      FromShorter(key, entries[..|entries| - 1]);
    }
  }

  /** Moving the first command of what is left to the end of what was seen, with new posts behind. */
  lemma {:induction false} Rotate(
    seen: seq<Command>, c: Command, left: seq<Command>, before: seq<Command>,
    first: seq<Command>, posted: seq<Command>, more: seq<Command>)
    requires seen + before == first + posted
    requires [c] + left == before + more
    ensures (seen + [c]) + left == first + (posted + more)
  {
    calc {
      (seen + [c]) + left;
      { ConcatAssociative(seen, [c], left); }
      seen + (before + more);
      { ConcatAssociative(seen, before, more); }
      (first + posted) + more;
      { ConcatAssociative(first, posted, more); }
      first + (posted + more);
    }
  }

  lemma {:induction false} NoPosts(queues: Queues)
    ensures AllPosts(queues, queues, [])
  {
  }

  lemma {:induction false} OnePost(before: Queues, now: Queues, posts: seq<Entry>, e: Entry)
    requires AllPosts(before, now, posts)
    ensures AllPosts(before, now[e.key := QueueIn(now, e.key) + [e.command]], posts + [e])
  {
    var after := now[e.key := QueueIn(now, e.key) + [e.command]];
    forall key ensures QueueIn(after, key) == QueueIn(before, key) + From(key, posts + [e]) {
      assert QueueIn(now, key) == QueueIn(before, key) + From(key, posts);
      if e.key == key {
        FromHit(key, posts, e);
        ConcatAssociative(QueueIn(before, key), From(key, posts), [e.command]);
      } else {
        FromMiss(key, posts, e);
      }
    }
  }

  lemma {:induction false} OnlyPostsTwice(
    a: Queues, b: Queues, c: Queues, key: string, posts: seq<Entry>, more: seq<Entry>)
    requires OnlyPosts(a, b, key, posts) && OnlyPosts(b, c, key, more)
    ensures OnlyPosts(a, c, key, posts + more)
  {
    forall other | other != key ensures QueueIn(c, other) == QueueIn(a, other) + From(other, posts + more) {
      FromConcat(other, posts, more);
      ConcatAssociative(QueueIn(a, other), From(other, posts), From(other, more));
    }
  }

  /** One command moves from the queue to what was taken. */
  lemma {:induction false} OneTaken(
    log: seq<Evaluation>, x: Evaluation, left: seq<Command>, before: seq<Command>, first: seq<Command>,
    posts: seq<Entry>, more: seq<Entry>)
    requires var key := x.entry.key;
             From(key, Taken(log)) + before == first + From(key, posts)
             && [x.entry.command] + left == before + From(key, more)
    ensures var key := x.entry.key;
            From(key, Taken(log + [x])) + left == first + From(key, posts + more)
  {
    var key := x.entry.key;
    TakenSnoc(log, x);
    FromHit(key, Taken(log), x.entry);
    FromConcat(key, posts, more);
    Rotate(From(key, Taken(log)), x.entry.command, left, before, first, From(key, posts), From(key, more));
  }

  lemma {:induction false} JudgedSnoc(log: seq<Evaluation>, x: Evaluation, key: string, j: Judge, at: nat)
    requires OfQueue(log, key) && Judged(log, j, at)
    requires x.entry.key == key && x.verdict == j(at + |log|, x.entry.command)
    ensures OfQueue(log + [x], key) && Judged(log + [x], j, at)
  {
  }

  /** One round of the loop over a queue. */
  lemma {:induction false} TakingGoesOn(
    start: Queues, before: Queues, after: Queues, key: string, posts: seq<Entry>, more: seq<Entry>,
    log: seq<Evaluation>, x: Evaluation, j: Judge, at: nat)
    requires Taking(start, before, key, posts, log, j, at)
    requires x.entry.key == key && x.verdict == j(at + |log|, x.entry.command)
    requires [x.entry.command] + QueueIn(after, key) == QueueIn(before, key) + From(key, more)
    requires OnlyPosts(before, after, key, more)
    ensures Taking(start, after, key, posts + more, log + [x], j, at)
  {
    OnlyPostsTwice(start, before, after, key, posts, more);
    JudgedSnoc(log, x, key, j, at);
    OneTaken(log, x, QueueIn(after, key), QueueIn(before, key), QueueIn(start, key), posts, more);
  }

  lemma {:induction false} SortedGoesOn(
    log: seq<Evaluation>, x: Evaluation, key: string, cmdsToExecute: seq<Entry>, cmdsToAddBack: seq<Command>)
    requires !AnyRaises(log) && Sorted(log, key, cmdsToExecute, cmdsToAddBack) && x.entry.key == key
    ensures x.verdict == Raise ==> LastRaises(log + [x])
    ensures x.verdict != Raise ==> !AnyRaises(log + [x])
    ensures x.verdict == Execute ==> Sorted(log + [x], key, cmdsToExecute + [x.entry], cmdsToAddBack)
    ensures x.verdict == Postpone ==> Sorted(log + [x], key, cmdsToExecute, cmdsToAddBack + [x.entry.command])
  {
    Init(log, x);
    if x.verdict == Execute {
      WithHit(log, x, Execute);
      WithMiss(log, x, Postpone);
    } else if x.verdict == Postpone {
      WithMiss(log, x, Execute);
      WithHit(log, x, Postpone);
      FromHit(key, With(log, Postpone), x.entry);
    }
  }

  /** The three kinds of queue: drained, broken, and not visited. */
  lemma {:induction false} DrainedConserves(
    q: seq<Command>, early: seq<Command>, late: seq<Command>, left: seq<Command>, key: string, log: seq<Evaluation>)
    requires !AnyRaises(log) && From(key, Taken(log)) == q + early
    requires Merges(From(key, With(log, Postpone)), late, left)
    ensures ConservedAt(q, left, early + late, From(key, With(log, Execute)))
  {
    var e, p := From(key, With(log, Execute)), From(key, With(log, Postpone));
    LogSplits(key, log);
    MergeConserves(e, p, q + early);
    MergeConserves(p, late, left);
    forall c ensures Count(left, c) + Count(e, c) == Count(q, c) + Count(early + late, c) {
      assert Count(q + early, c) == Count(q, c) + Count(early, c);
      assert Count(early + late, c) == Count(early, c) + Count(late, c);
    }
  }

  lemma {:induction false} BrokenConserves(
    q: seq<Command>, posts: seq<Command>, taken: seq<Command>, left: seq<Command>)
    requires taken + left == q + posts
    ensures ConservedAt(q, left, posts, taken)
  {
    forall c ensures Count(left, c) + Count(taken, c) == Count(q, c) + Count(posts, c) {
      assert Count(taken + left, c) == Count(taken, c) + Count(left, c);
      assert Count(q + posts, c) == Count(q, c) + Count(posts, c);
    }
  }

  lemma {:induction false} OthersConserve(q: seq<Command>, posts: seq<Command>)
    ensures ConservedAt(q, q + posts, posts, [])
  {
  }

  lemma {:induction false} DrainConserves(
    before: Queues, after: Queues, early: seq<Entry>, late: seq<Entry>, key: string, log: seq<Evaluation>)
    requires Drained(before, after, early, late, key, log)
    ensures Conserved(before, after, early + late, With(log, Execute))
  {
    forall k ensures ConservedAt(QueueIn(before, k), QueueIn(after, k), From(k, early + late), From(k, With(log,
        Execute)))
    {
      if k == key {
        FromConcat(key, early, late);
        DrainedConserves(QueueIn(before, key), From(key, early), From(key, late), QueueIn(after, key), key, log);
      } else {
        FromOther(k, log, Execute);
        OthersConserve(QueueIn(before, k), From(k, early + late));
      }
    }
  }

  lemma {:induction false} BreakConserves(
    before: Queues, after: Queues, posts: seq<Entry>, key: string, log: seq<Evaluation>)
    requires Broken(before, after, posts, key, log)
    ensures Conserved(before, after, posts, Taken(log))
  {
    forall k ensures ConservedAt(QueueIn(before, k), QueueIn(after, k), From(k, posts), From(k, Taken(log))) {
      if k == key {
        BrokenConserves(QueueIn(before, k), From(k, posts), From(k, Taken(log)), QueueIn(after, k));
      } else {
        FromOther(k, log, Execute);
        OthersConserve(QueueIn(before, k), From(k, posts));
      }
    }
  }

  lemma {:induction false} ConservedAtTwice(
    a: seq<Command>, b: seq<Command>, end: seq<Command>,
    posts: seq<Command>, more: seq<Command>, first: seq<Command>, second: seq<Command>)
    requires ConservedAt(a, b, posts, first) && ConservedAt(b, end, more, second)
    ensures ConservedAt(a, end, posts + more, first + second)
  {
    forall c ensures Count(end, c) + Count(first + second, c) == Count(a, c) + Count(posts + more, c) {
      assert Count(posts + more, c) == Count(posts, c) + Count(more, c);
      assert Count(first + second, c) == Count(first, c) + Count(second, c);
      assert Count(b, c) + Count(first, c) == Count(a, c) + Count(posts, c);
    }
  }

  lemma {:induction false} ConservedTwice(
    a: Queues, b: Queues, c: Queues, posts: seq<Entry>, more: seq<Entry>, first: seq<Entry>, second: seq<Entry>)
    requires Conserved(a, b, posts, first) && Conserved(b, c, more, second)
    ensures Conserved(a, c, posts + more, first + second)
  {
    forall key ensures ConservedAt(QueueIn(a, key), QueueIn(c, key), From(key, posts + more), From(key, first + second))
    {
      FromConcat(key, posts, more);
      FromConcat(key, first, second);
      ConservedAtTwice(QueueIn(a, key), QueueIn(b, key), QueueIn(c, key),
                       From(key, posts), From(key, more), From(key, first), From(key, second));
    }
  }

  /** The first visit to a queue evaluates first what was in it at the start. */
  lemma {:induction false} FirstVisit(q: seq<Command>, posts: seq<Command>, early: seq<Command>, taken: seq<Command>)
    requires taken == (q + posts) + early
    ensures q <= [] + taken
  {
    ConcatAssociative(q, posts, early);
    assert [] + taken == q + (posts + early);
  }

  lemma {:induction false} DrainOldestFirst(
    start: Queues, before: Queues, posts: seq<Entry>, early: seq<Entry>, log: seq<Evaluation>, more: seq<Evaluation>,
    visited: seq<string>, key: string)
    requires OldestFirst(start, Taken(log), visited) && Untouched(start, before, posts, visited)
    requires OfQueue(more, key) && From(key, Taken(more)) == QueueIn(before, key) + From(key, early)
    ensures OldestFirst(start, Taken(log + more), visited + [key])
  {
    TakenConcat(log, more);
    forall k ensures k in visited + [key] ==> QueueIn(start, k) <= From(k, Taken(log + more))
             ensures k !in visited + [key] ==> From(k, Taken(log + more)) == []
    {
      FromConcat(k, Taken(log), Taken(more));
      if k != key {
        FromOther(k, more, Execute);
      } else if k !in visited {
        FirstVisit(QueueIn(start, k), From(k, posts), From(k, early), From(k, Taken(more)));
      }
    }
  }

  lemma {:induction false} DrainUntouched(
    start: Queues, before: Queues, after: Queues, posts: seq<Entry>, more: seq<Entry>, visited: seq<string>,
        key: string)
    requires Untouched(start, before, posts, visited) && OnlyPosts(before, after, key, more)
    ensures Untouched(start, after, posts + more, visited + [key])
  {
    forall k | k !in visited + [key] ensures QueueIn(after, k) == QueueIn(start, k) + From(k, posts + more) {
      assert k !in visited && k != key;
      FromConcat(k, posts, more);
      ConcatAssociative(QueueIn(start, k), From(k, posts), From(k, more));
    }
  }

  lemma {:induction false} QuietQueues(
    before: Queues, after: Queues, key: string, log: seq<Evaluation>, j: Judge, at: nat)
    requires Drained(before, after, [], [], key, log) && Judged(log, j, at)
    ensures log == Evaluate(key, QueueIn(before, key), j, at)
    ensures SameQueues(before[key := From(key, With(log, Postpone))], after)
  {
    var none: seq<Entry> := [];
    assert none + none == none;
    assert QueueIn(before, key) + From(key, none) == QueueIn(before, key);
    LogIsEvaluate(key, log, j, at);
    MergeNothing(From(key, With(log, Postpone)), QueueIn(after, key));
    OnlyOneChanges(before, after, key);
  }

  lemma {:induction false} OnlyOneChanges(before: Queues, after: Queues, key: string)
    requires OnlyPosts(before, after, key, [])
    ensures SameQueues(before[key := QueueIn(after, key)], after)
  {
    var updated := before[key := QueueIn(after, key)];
    forall k ensures QueueIn(updated, k) == QueueIn(after, k) {
      if k != key {
        assert QueueIn(after, k) == QueueIn(before, k) + From(k, []);
        assert QueueIn(before, k) + [] == QueueIn(before, k);
      }
    }
  }

  /** The commands taken and their number determine the evaluations. */
  lemma {:induction false} LogIsEvaluate(key: string, log: seq<Evaluation>, j: Judge, at: nat)
    requires OfQueue(log, key) && Judged(log, j, at)
    ensures log == Evaluate(key, From(key, Taken(log)), j, at)
  {
    if log != [] {
      var init, x := log[..|log| - 1], log[|log| - 1];
      LogIsEvaluate(key, init, j, at);
      FromHit(key, Taken(init), x.entry);
      Snoc(log);
      assert x == Evaluation(Entry(key, x.entry.command), j(at + |init|, x.entry.command));
    }
  }

  lemma {:induction false} SameUpdate(a: Queues, b: Queues, key: string, q: seq<Command>)
    requires SameQueues(a, b)
    ensures SameQueues(a[key := q], b[key := q])
  {
    var a', b' := a[key := q], b[key := q];
    forall k ensures QueueIn(a', k) == QueueIn(b', k) {
      assert QueueIn(a, k) == QueueIn(b, k);
    }
  }

  lemma {:induction false} SameVisit(a: PassResult, b: PassResult, key: string, j: Judge)
    requires Agree(a, b)
    ensures Agree(Visit(a, key, j), Visit(b, key, j))
  {
    if a.Done? {
      assert QueueIn(a.queues, key) == QueueIn(b.queues, key);
      var log := Evaluate(key, QueueIn(a.queues, key), j, a.next);
      SameUpdate(a.queues, b.queues, key, From(key, With(log, Postpone)));
    }
  }

  lemma {:induction false} AgreeTwice(a: PassResult, b: PassResult, c: PassResult)
    requires Agree(a, b) && Agree(b, c)
    ensures Agree(a, c)
  {
    if a.Done? {
      forall key ensures QueueIn(a.queues, key) == QueueIn(c.queues, key) {
        assert QueueIn(a.queues, key) == QueueIn(b.queues, key);
        assert QueueIn(b.queues, key) == QueueIn(c.queues, key);
      }
    }
  }

  /** Without posts, draining a queue is a visit. */
  lemma {:induction false} QuietVisit(
    before: Queues, after: Queues, executed: seq<Entry>, key: string, more: seq<Evaluation>, j: Judge, now: nat)
    requires Drained(before, after, [], [], key, more) && Judged(more, j, now)
    ensures Agree(Visit(Done(executed, before, now), key, j), Done(executed + With(more, Execute), after, now + |more|))
  {
    QuietQueues(before, after, key, more, j, now);
  }

  lemma {:induction false} QuietStep(
    p: PassResult, before: Queues, after: Queues, executed: seq<Entry>, now: nat, more: seq<Evaluation>,
    key: string, j: Judge)
    requires Agree(p, Done(executed, before, now))
    requires Drained(before, after, [], [], key, more) && Judged(more, j, now)
    ensures Agree(Visit(p, key, j), Done(executed + With(more, Execute), after, now + |more|))
  {
    SameVisit(p, Done(executed, before, now), key, j);
    QuietVisit(before, after, executed, key, more, j, now);
    AgreeTwice(Visit(p, key, j), Visit(Done(executed, before, now), key, j),
               Done(executed + With(more, Execute), after, now + |more|));
  }

  lemma {:induction false} PassBegins(start: Queues, j: Judge, at: nat)
    ensures Partly(start, start, [], [], [], [], j, at) && Quietly([], Done([], start, at), [], start, at)
  {
    var none: seq<Entry> := [];
    forall key ensures QueueIn(start, key) == QueueIn(start, key) + From(key, none) {
    }
    assert Conserved(start, start, none, none);
  }

  lemma {:induction false} ConservedGoesOn(
    start: Queues, before: Queues, after: Queues, posts: seq<Entry>, early: seq<Entry>, late: seq<Entry>,
    executed: seq<Entry>, more: seq<Evaluation>, key: string)
    requires Conserved(start, before, posts, executed) && Drained(before, after, early, late, key, more)
    ensures Conserved(start, after, posts + (early + late), executed + With(more, Execute))
  {
    DrainConserves(before, after, early, late, key, more);
    ConservedTwice(start, before, after, posts, early + late, executed, With(more, Execute));
  }

  lemma {:induction false} VisitedGoesOn(
    start: Queues, before: Queues, after: Queues, posts: seq<Entry>, early: seq<Entry>, late: seq<Entry>,
    log: seq<Evaluation>, more: seq<Evaluation>, visited: seq<string>, key: string)
    requires OldestFirst(start, Taken(log), visited) && Untouched(start, before, posts, visited)
    requires Drained(before, after, early, late, key, more)
    ensures OldestFirst(start, Taken(log + more), visited + [key])
    ensures Untouched(start, after, posts + (early + late), visited + [key])
  {
    DrainOldestFirst(start, before, posts, early, log, more, visited, key);
    DrainUntouched(start, before, after, posts, early + late, visited, key);
  }

  lemma {:induction false} PassGoesOn(
    start: Queues, before: Queues, after: Queues, posts: seq<Entry>, early: seq<Entry>, late: seq<Entry>,
    log: seq<Evaluation>, more: seq<Evaluation>, executed: seq<Entry>, visited: seq<string>, key: string,
    j: Judge, at: nat)
    requires Partly(start, before, posts, log, executed, visited, j, at)
    requires Drained(before, after, early, late, key, more) && Judged(more, j, at + |log|)
    ensures Partly(start, after, posts + (early + late), log + more, executed + With(more, Execute),
                   visited + [key], j, at)
  {
    ConservedGoesOn(start, before, after, posts, early, late, executed, more, key);
    VisitedGoesOn(start, before, after, posts, early, late, log, more, visited, key);
    JudgedConcat(log, more, j, at);
    WithConcat(log, more, Execute);
  }

  lemma {:induction false} QuietlyGoesOn(
    before: Queues, after: Queues, posts: seq<Entry>, early: seq<Entry>, late: seq<Entry>, executed: seq<Entry>,
    next: nat, more: seq<Evaluation>, key: string, p: PassResult, j: Judge)
    requires Quietly(posts, p, executed, before, next)
    requires Drained(before, after, early, late, key, more) && Judged(more, j, next)
    ensures Quietly(posts + (early + late), Visit(p, key, j), executed + With(more, Execute), after, next + |more|)
  {
    if posts + (early + late) == [] {
      assert posts == [] && early == [] && late == [];
      QuietStep(p, before, after, executed, next, more, key, j);
    }
  }

  lemma {:induction false} RoundEnds(
    start: Queues, before: Queues, after: Queues, posts: seq<Entry>, early: seq<Entry>, late: seq<Entry>,
    log: seq<Evaluation>, more: seq<Evaluation>, executed: seq<Entry>, visited: seq<string>, key: string,
    p: PassResult, j: Judge, at: nat, next: nat)
    requires next == at + |log| && Quietly(posts, p, executed, before, next)
    requires Partly(start, before, posts, log, executed, visited, j, at)
    requires Drained(before, after, early, late, key, more) && Judged(more, j, next)
    ensures Partly(start, after, posts + (early + late), log + more, executed + With(more, Execute),
                   visited + [key], j, at)
    ensures Quietly(posts + (early + late), Visit(p, key, j), executed + With(more, Execute), after, next + |more|)
  {
    PassGoesOn(start, before, after, posts, early, late, log, more, executed, visited, key, j, at);
    QuietlyGoesOn(before, after, posts, early, late, executed, next, more, key, p, j);
  }

  /** Without posts, Pass raises where the drain does. */
  lemma {:induction false} QuietBreaks(
    p: PassResult, before: Queues, after: Queues, executed: seq<Entry>, now: nat, more: seq<Evaluation>,
    key: string, j: Judge)
    requires Agree(p, Done(executed, before, now))
    requires Broken(before, after, [], key, more) && Judged(more, j, now)
    ensures Visit(p, key, j).Escapes?
  {
    var q := QueueIn(before, key);
    var log := Evaluate(key, q, j, now);
    assert q + From(key, []) == q;
    LogIsEvaluate(key, more, j, now);
    assert log[|more| - 1] == more[|more| - 1];
    assert AnyRaises(log);
    SameVisit(p, Done(executed, before, now), key, j);
  }

  lemma {:induction false} ConservedBreaks(
    start: Queues, before: Queues, after: Queues, posts: seq<Entry>, more: seq<Entry>,
    executed: seq<Entry>, log: seq<Evaluation>, key: string)
    requires Conserved(start, before, posts, executed) && Broken(before, after, more, key, log)
    ensures Conserved(start, after, posts + more, executed + Taken(log))
  {
    BreakConserves(before, after, more, key, log);
    ConservedTwice(start, before, after, posts, more, executed, Taken(log));
  }

  lemma {:induction false} QuietlyFails(
    before: Queues, after: Queues, posts: seq<Entry>, more: seq<Entry>, executed: seq<Entry>, next: nat,
    log: seq<Evaluation>, key: string, p: PassResult, j: Judge)
    requires Quietly(posts, p, executed, before, next)
    requires Broken(before, after, more, key, log) && Judged(log, j, next)
    ensures posts + more == [] ==> Visit(p, key, j).Escapes?
  {
    if posts + more == [] {
      assert posts == [] && more == [];
      QuietBreaks(p, before, after, executed, next, log, key, j);
    }
  }

  lemma {:induction false} PassFails(
    start: Queues, before: Queues, after: Queues, posts: seq<Entry>, more: seq<Entry>,
    earlier: seq<Evaluation>, log: seq<Evaluation>, executed: seq<Entry>, visited: seq<string>, key: string,
    p: PassResult, j: Judge, at: nat)
    requires Partly(start, before, posts, earlier, executed, visited, j, at)
    requires Quietly(posts, p, executed, before, at + |earlier|)
    requires Broken(before, after, more, key, log) && Judged(log, j, at + |earlier|)
    ensures Failed(start, after, posts + more, earlier, log, Visit(p, key, j), j, at)
  {
    ConservedBreaks(start, before, after, posts, more, executed, log, key);
    JudgedConcat(earlier, log, j, at);
    QuietlyFails(before, after, posts, more, executed, at + |earlier|, log, key, p, j);
  }
}
