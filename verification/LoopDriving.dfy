/** What a loop does when nothing new comes in (irono/net/EventLoop.cc, loop): it finishes its handlers, runs its
    functors and polls again. Runs made of such steps lead a lifecycle to its end. */
module LoopDriving {
  import opened ConnectionStates
  import opened Options
  import opened Lifecycle

  /** The loop's own next step, with polls that report nothing. */
  function NextOwn(s: System, l: LoopId): Step
    requires l < |s.loops|
  {
    match s.loops[l].phase
    case Polling => Poll(l, [])
    case Handling(active, current) =>
      if current.Inside? then EndEvent(l) else if active != [] then Dispatch(l) else StartBatch(l)
    case Running(batch, next) => if next < |batch| then RunNext(l) else EndBatch(l)
  }

  predicate OwnStep(t: Step, l: LoopId) {
    || t == Poll(l, []) || t == Dispatch(l) || t == EndEvent(l)
    || t == StartBatch(l) || t == RunNext(l) || t == EndBatch(l)
  }

  predicate OnlyOwn(steps: seq<Step>, l: LoopId) {
    forall t :: t in steps ==> OwnStep(t, l)
  }

  predicate Sound(loop: Loop) {
    loop.phase.Running? ==> loop.phase.next <= |loop.phase.batch|
  }

  /** Steps until the loop runs a functor, if it has any. */
  function Rank(loop: Loop): nat {
    match loop.phase
    case Polling => 2
    case Handling(active, current) => 1 + 2 * |active| + if current.Inside? then 1 else 0
    case Running(batch, next) => if next < |batch| then 0 else 3
  }

  lemma OwnStepEnabled(s: System, l: LoopId)
    requires l < |s.loops| && Sound(s.loops[l])
    ensures Enabled(s, NextOwn(s, l)) && OwnStep(NextOwn(s, l), l)
  {
  }

  /** A step that runs no functor changes the phase only, and comes closer to one that does. */
  lemma OwnStepMovesOn(s: System, l: LoopId)
    requires l < |s.loops| && Sound(s.loops[l]) && !NextOwn(s, l).RunNext?
    ensures Enabled(s, NextOwn(s, l))
    ensures var s' := Apply(s, NextOwn(s, l));
      && |s'.loops| == |s.loops| && s' == s.(loops := s'.loops)
      && Sound(s'.loops[l]) && Work(s'.loops[l]) == Work(s.loops[l])
      && (Work(s.loops[l]) != [] ==> Rank(s'.loops[l]) < Rank(s.loops[l]))
      && (forall k :: 0 <= k < |s.loops| && k != l ==> s'.loops[k] == s.loops[k])
  {
  }

  lemma Prepend(s: System, t: Step, steps: seq<Step>)
    requires Enabled(s, t) && IsRun(Apply(s, t), steps)
    ensures IsRun(s, [t] + steps) && Run(s, [t] + steps) == Run(Apply(s, t), steps)
  {
    assert ([t] + steps)[1..] == steps;
  }

  lemma {:induction false} Concatenated(s: System, a: seq<Step>, b: seq<Step>)
    requires IsRun(s, a) && IsRun(Run(s, a), b)
    ensures IsRun(s, a + b) && Run(s, a + b) == Run(Run(s, a), b)
    decreases |a|
  {
    hide Enabled, Apply;
    if a == [] {
      assert a + b == b;
    } else {
      Concatenated(Apply(s, a[0]), a[1..], b);
      assert (a + b)[1..] == a[1..] + b;
    }
  }

  predicate NoLateSteps(steps: seq<Step>) {
    forall t :: t in steps ==> !t.SendBlocked? && !t.ShutdownWrites?
  }
}
