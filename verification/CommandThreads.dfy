/** Which thread executes a command, and which queue a thread id stands for, apart from the functions that decide. */
module CommandThreads {
  import opened CommandDrain

  /** A command for a thread waits for that thread: its id is the thread's, or a frame id that ends in it. */
  lemma {:induction false} WaitsForThread(c: Command, current: string, m: Moment)
    requires c.ForThread?
    ensures CanBeExecutedBy(c, current, m) == Execute <==>
            c.threadId == current || exists frame: string :: c.threadId == frame + ("|" + current)
    ensures CanBeExecutedBy(c, current, m) != Execute ==> CanBeExecutedBy(c, current, m) == Postpone
  {
    if EndsWith(c.threadId, "|" + current) {
      assert c.threadId == c.threadId[..|c.threadId| - |"|" + current|] + ("|" + current);
    }
    forall frame: string | c.threadId == frame + ("|" + current)
      ensures EndsWith(c.threadId, "|" + current)
    {
      assert c.threadId[|frame|..] == "|" + current;
    }
  }

  /** A method posted for any thread is executed by every thread; one posted for a thread waits for it. */
  lemma {:induction false} MethodWaits(id: int, threadId: string, current: string, m: Moment)
    ensures CanBeExecutedBy(MethodCommand(id, "*"), current, m) == Execute
    ensures threadId != "*" ==>
              (CanBeExecutedBy(MethodCommand(id, threadId), current, m) == Execute <==>
               threadId == current || exists frame: string :: threadId == frame + ("|" + current))
  {
    if threadId != "*" {
      WaitsForThread(MethodCommand(id, threadId), current, m);
    }
  }

  /** A stack request waits for its message until the deadline, and raises if asking for the message does. */
  lemma {:induction false} WaitsForStack(c: Command, current: string, m: Moment)
    requires c.GetThreadStack?
    ensures CanBeExecutedBy(c, current, m) == Raise <==> m.message == Error
    ensures CanBeExecutedBy(c, current, m) == Postpone <==> m.message == Nothing && m.now < c.deadline
  {
  }

  lemma {:induction false} LastBar(s: string, key: string)
    requires '|' !in key
    ensures AfterLastBar(s + ("|" + key)) == key
  {
    var all := s + ("|" + key);
    if key == "" {
      assert all[|all| - 1] == '|';
    } else {
      var k := |key| - 1;
      assert key[k] in key;
      assert all[..|all| - 1] == s + ("|" + key[..k]);
      LastBar(s, key[..k]);
      assert key == key[..k] + [key[k]];
    }
  }

  /** The queue of a frame id is that of the thread whose id follows its last bar; every other id names its own. */
  lemma {:induction false} QueueOfId(id: string, frame: string, key: string)
    requires '|' !in key
    ensures "__frame__" <= frame + ("|" + key) ==> QueueKey(frame + ("|" + key)) == key
    ensures '|' !in id || !("__frame__" <= id) ==> QueueKey(id) == id
  {
    LastBar(frame, key);
    if '|' !in id {
      NoBar(id);
    }
  }
}
