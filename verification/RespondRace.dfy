/**
Request.respond() called by several threads at once: it checks that there is no response, writes, and sets the response,
in no common lock section. When can a request be answered twice?
*/
module RespondRace {

  /** A call that has passed the check, one that has also written, and one that is over, with its write done or
      failed. */
  datatype Phase = Checked | Written | Over(wrote: bool)

  /** `calls` are those that passed the check. History: the number of answers sent, and the pairs of calls of which the
      second passed the check while the first had passed it and was not over. */
  datatype State = State(answered: bool, calls: map<nat, Phase>, overlaps: set<(nat, nat)>, sent: nat)

  datatype Step =
    | PassCheck(call: nat)
    | FailCheck(call: nat)
    | Write(call: nat)
    | FailWrite(call: nat)
    | SetResponse(call: nat)

  const INIT := State(false, map[], {}, 0)

  predicate Enabled(s: State, step: Step) {
    match step
    case PassCheck(c) => !s.answered && c !in s.calls
    case FailCheck(c) => s.answered && c !in s.calls
    case Write(c) => c in s.calls && s.calls[c] == Checked
    case FailWrite(c) => c in s.calls && s.calls[c] == Checked
    case SetResponse(c) => c in s.calls && s.calls[c] == Written
  }

  function Apply(s: State, step: Step): State
    requires Enabled(s, step)
  {
    match step
    case PassCheck(c) =>
      s.(calls := s.calls[c := Checked],
         overlaps := s.overlaps + set d | d in s.calls && !s.calls[d].Over? :: (d, c))
    case FailCheck(_) => s
    case Write(c) => s.(calls := s.calls[c := Written], sent := s.sent + 1)
    case FailWrite(c) => s.(calls := s.calls[c := Over(false)])
    case SetResponse(c) => s.(calls := s.calls[c := Over(true)], answered := true)
  }

  ghost predicate Behavior(states: seq<State>, steps: seq<Step>) {
    && |states| == |steps| + 1
    && states[0] == INIT
    && forall i {:trigger steps[i]} :: 0 <= i < |steps| ==>
         Enabled(states[i], steps[i]) && states[i + 1] == Apply(states[i], steps[i])
  }

  /** The write of this call went through. */
  predicate Wrote(s: State, c: nat) {
    c in s.calls && (s.calls[c] == Written || s.calls[c] == Over(true))
  }

  function Writers(s: State): set<nat> {
    set c | c in s.calls && Wrote(s, c)
  }

  /** Any two calls whose writes have not failed overlapped: after the first of them was over, the check failed. */
  ghost predicate Inv(s: State) {
    && s.sent == |Writers(s)|
    && (forall c :: c in s.calls && s.calls[c] == Over(true) ==> s.answered)
    && (forall a, b :: (a, b) in s.overlaps ==> a != b)
    && (forall a, b :: a in s.calls && b in s.calls && a != b && s.calls[a] != Over(false) && s.calls[b] != Over(false)
          ==> (a, b) in s.overlaps || (b, a) in s.overlaps)
    && (forall a, b :: (a, b) in s.overlaps ==> a in s.calls && b in s.calls)
  }

  lemma {:induction false} PassKeeps(s: State, c: nat)
    requires Inv(s) && !s.answered && c !in s.calls
    ensures Inv(Apply(s, PassCheck(c)))
  {
    var e := Apply(s, PassCheck(c));
    assert Writers(e) == Writers(s);
    forall a | a in s.calls && s.calls[a] != Over(false) ensures (a, c) in e.overlaps {
      assert s.calls[a] != Over(true);
    }
  }

  /** A call that goes on, without becoming one whose write has not failed if it was not. */
  lemma {:induction false} PhaseKeeps(s: State, c: nat, phase: Phase, answered: bool, sent: nat)
    requires Inv(s) && c in s.calls && s.calls[c] != Over(false)
    requires s.answered ==> answered
    requires phase == Over(true) ==> answered
    requires sent == |Writers(s.(calls := s.calls[c := phase]))|
    ensures Inv(s.(calls := s.calls[c := phase], answered := answered, sent := sent))
  {
    var calls := s.calls[c := phase];
    assert Writers(s.(calls := calls, answered := answered, sent := sent)) == Writers(s.(calls := calls));
  }

  lemma {:induction false} StepKeeps(s: State, step: Step)
    requires Inv(s) && Enabled(s, step)
    ensures Inv(Apply(s, step))
  {
    match step
    case PassCheck(c) => PassKeeps(s, c);
    case FailCheck(_) =>
    case Write(c) =>
      assert Writers(s.(calls := s.calls[c := Written])) == Writers(s) + {c};
      PhaseKeeps(s, c, Written, s.answered, s.sent + 1);
    case FailWrite(c) =>
      assert Writers(s.(calls := s.calls[c := Over(false)])) == Writers(s);
      PhaseKeeps(s, c, Over(false), s.answered, s.sent);
    case SetResponse(c) =>
      assert Writers(s.(calls := s.calls[c := Over(true)])) == Writers(s);
      PhaseKeeps(s, c, Over(true), true, s.sent);
  }

  lemma {:induction false} InvHolds(states: seq<State>, steps: seq<Step>, n: nat)
    requires Behavior(states, steps) && n <= |steps|
    ensures Inv(states[n])
  {
    if n > 0 {
      InvHolds(states, steps, n - 1);
      StepKeeps(states[n - 1], steps[n - 1]);
    }
  }

  lemma {:induction false} TwoElements(s: set<nat>)
    ensures |s| >= 2 <==> exists a, b :: a in s && b in s && a != b
  {
    if |s| >= 2 {
      var a :| a in s;
      assert |s - {a}| >= 1 && s - {a} != {};
      var b :| b in s - {a};
      assert a in s && b in s && a != b;
    }
    if a, b :| a in s && b in s && a != b {
      assert |{a, b}| == 2 && s == {a, b} + (s - {a, b});
    }
  }

  /** In every interleaving, at every moment: more than one answer was sent exactly when two calls overlapped and the
      writes of both went through. */
  lemma {:induction false} TwoAnswersExactlyOnOverlap(states: seq<State>, steps: seq<Step>, n: nat)
    requires Behavior(states, steps) && n <= |steps|
    ensures states[n].sent >= 2 <==>
            exists a, b :: (a, b) in states[n].overlaps && Wrote(states[n], a) && Wrote(states[n], b)
  {
    var s := states[n];
    InvHolds(states, steps, n);
    TwoElements(Writers(s));
    if s.sent >= 2 {
      var a, b :| a in Writers(s) && b in Writers(s) && a != b;
      assert (a, b) in s.overlaps || (b, a) in s.overlaps;
    }
    if a, b :| (a, b) in s.overlaps && Wrote(s, a) && Wrote(s, b) {
      assert a in Writers(s) && b in Writers(s);
    }
  }

  /** Two overlapping calls, and two answers. */
  lemma {:induction false} TwoAnswers() returns (states: seq<State>, steps: seq<Step>)
    ensures Behavior(states, steps) && |steps| == 6 && states[6].sent == 2 && states[6].answered
  {
    steps := [PassCheck(0), PassCheck(1), Write(0), SetResponse(0), Write(1), SetResponse(1)];
    var s1 := Apply(INIT, steps[0]);
    var s2 := Apply(s1, steps[1]);
    var s3 := Apply(s2, steps[2]);
    var s4 := Apply(s3, steps[3]);
    var s5 := Apply(s4, steps[4]);
    states := [INIT, s1, s2, s3, s4, s5, Apply(s5, steps[5])];
  }
}
