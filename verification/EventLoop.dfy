/** The functor queue of irono/net/EventLoop.cc: producers on other threads and the loop itself push
    functors, an eventfd wakes the loop out of poll. Threads interleave between the push (under the
    lock) and the write to the eventfd. */
module EventLoops {
  import opened Histories

  type Functor = nat
  type ThreadId = nat

  /** `reported` is whether poll reported the eventfd and its handler has not run yet. */
  datatype Phase =
    | Polling
    | Handling(reported: bool)
    | Calling(batch: seq<Functor>, next: nat)

  /** `waking` are the threads between push and wakeup, `loopWaking` the same for the loop thread.
      `enqueued` and `executed` are histories; `limit` is how much was enqueued at the last swap.
      `failed` says that a read of the eventfd found nothing, which aborts. */
  datatype Loop = Loop(
    phase: Phase, pending: seq<Functor>, eventfd: nat,
    waking: set<ThreadId>, loopWaking: bool,
    enqueued: seq<Functor>, executed: seq<Functor>, limit: nat, failed: bool)

  const START := Loop(Polling, [], 0, {}, false, [], [], 0, false)

  datatype Step =
    | Push(t: ThreadId, f: Functor)   // queueInLoop on another thread: under the lock
    | Wakeup(t: ThreadId)             // ... and the write to the eventfd
    | LoopPush(f: Functor)            // queueInLoop on the loop thread, from a handler or a functor
    | LoopWakeup
    | PollReturns(reported: bool)
    | ReadEventfd                     // EventLoop::handleRead
    | Swap                            // doPendingFunctors takes the queue
    | CallNext
    | EndBatch

  predicate Enabled(s: Loop, t: Step) {
    match t
    case Push(p, _) => p !in s.waking
    case Wakeup(p) => p in s.waking
    case LoopPush(_) => !s.phase.Polling? && !s.loopWaking
    case LoopWakeup => s.loopWaking
    case PollReturns(reported) => s.phase.Polling? && (reported ==> 0 < s.eventfd)
    case ReadEventfd => s.phase == Handling(true) && !s.loopWaking
    case Swap => s.phase == Handling(false) && !s.loopWaking
    case CallNext => s.phase.Calling? && s.phase.next < |s.phase.batch| && !s.loopWaking
    case EndBatch => s.phase.Calling? && s.phase.next == |s.phase.batch| && !s.loopWaking
  }

  function Pushed(s: Loop, f: Functor): Loop {
    s.(pending := s.pending + [f], enqueued := s.enqueued + [f])
  }

  /** queueInLoop: whoever pushes also wakes the loop, unless it is the loop thread and no functors
      are being called (callingPendingFunctors_). */
  predicate MustWake(s: Loop, onLoopThread: bool) {
    !onLoopThread || s.phase.Calling?
  }

  function Apply(s: Loop, t: Step): Loop
    requires Enabled(s, t)
  {
    match t
    case Push(p, f) => Pushed(s, f).(waking := if MustWake(s, false) then s.waking + {p} else s.waking)
    case Wakeup(p) => s.(eventfd := s.eventfd + 1, waking := s.waking - {p})
    case LoopPush(f) => Pushed(s, f).(loopWaking := MustWake(s, true))
    case LoopWakeup => s.(eventfd := s.eventfd + 1, loopWaking := false)
    case PollReturns(reported) => s.(phase := Handling(reported))
    case ReadEventfd => s.(phase := Handling(false), eventfd := 0, failed := s.failed || s.eventfd == 0)
    case Swap => s.(phase := Calling(s.pending, 0), pending := [], limit := |s.enqueued|)
    case CallNext =>
      s.(phase := s.phase.(next := s.phase.next + 1), executed := s.executed + [s.phase.batch[s.phase.next]])
    case EndBatch => s.(phase := Polling)
  }

  predicate IsRun(s: Loop, steps: seq<Step>)
    decreases |steps|
  {
    steps == [] || (Enabled(s, steps[0]) && IsRun(Apply(s, steps[0]), steps[1..]))
  }

  function Run(s: Loop, steps: seq<Step>): Loop
    requires IsRun(s, steps)
    decreases |steps|
  {
    if steps == [] then s else Run(Apply(s, steps[0]), steps[1..])
  }

  /** What the running batch has yet to call. */
  function Remainder(s: Loop): seq<Functor> {
    if s.phase.Calling? && s.phase.next <= |s.phase.batch| then s.phase.batch[s.phase.next..] else []
  }

  /** Every functor is executed once, in the order of the pushes. */
  predicate InOrder(s: Loop) {
    s.executed + (Remainder(s) + s.pending) == s.enqueued
  }

  /** Someone has woken the loop, or is about to. */
  predicate WakeupOnItsWay(s: Loop) {
    0 < s.eventfd || s.waking != {} || s.loopWaking
  }

  /** The loop does not go to sleep on work: when it is in poll with a functor pending, the eventfd is
      readable or a producer on another thread is about to make it so. */
  predicate NoLostWakeup(s: Loop) {
    s.phase.Polling? && s.pending != [] ==> 0 < s.eventfd || s.waking != {}
  }

  /** What the running batch may execute was enqueued before it started. */
  predicate BatchIsClosed(s: Loop) {
    s.phase.Calling? ==> |s.executed| + |Remainder(s)| == s.limit <= |s.enqueued|
  }

  predicate Inv(s: Loop) {
    && !s.failed
    && InOrder(s)
    && NoLostWakeup(s)
    && BatchIsClosed(s)
    && (s.phase.Calling? ==> s.phase.next <= |s.phase.batch| && (s.pending != [] ==> WakeupOnItsWay(s)))
    && (s.loopWaking ==> s.phase.Calling?)
    && (s.phase == Handling(true) ==> 0 < s.eventfd)
  }

  lemma PushKeepsOrder(executed: seq<Functor>, rest: seq<Functor>, pending: seq<Functor>, f: Functor)
    ensures executed + (rest + (pending + [f])) == executed + (rest + pending) + [f]
  {
  }

  lemma CallKeepsOrder(executed: seq<Functor>, x: Functor, rest: seq<Functor>, pending: seq<Functor>)
    ensures (executed + [x]) + (rest + pending) == executed + (([x] + rest) + pending)
  {
  }

  lemma StepKeepsOrder(s: Loop, t: Step)
    requires Inv(s) && Enabled(s, t)
    ensures InOrder(Apply(s, t)) && BatchIsClosed(Apply(s, t))
  {
    var s' := Apply(s, t);
    match t
    case CallNext =>
      var x := s.phase.batch[s.phase.next];
      assert Remainder(s) == [x] + Remainder(s');
      CallKeepsOrder(s.executed, x, Remainder(s'), s.pending);
    case Swap =>
      assert Remainder(s') == s.pending && Remainder(s') + [] == Remainder(s) + s.pending;
    case Push(_, f) =>
      PushKeepsOrder(s.executed, Remainder(s), s.pending, f);
    case LoopPush(f) =>
      PushKeepsOrder(s.executed, Remainder(s), s.pending, f);
    case _ =>
  }

  lemma StepKeepsInv(s: Loop, t: Step)
    requires Inv(s) && Enabled(s, t)
    ensures Inv(Apply(s, t))
  {
    StepKeepsOrder(s, t);
  }

  /** Over every interleaving of producers and loop: exactly-once execution in FIFO order, no lost
      wakeup, and no batch that runs what was queued during it. */
  lemma {:induction false} RunsKeepInv(s: Loop, steps: seq<Step>)
    requires Inv(s) && IsRun(s, steps)
    ensures Inv(Run(s, steps))
    decreases |steps|
  {
    hide Inv, Apply, Enabled;
    if steps == [] {
    } else {
      StepKeepsInv(s, steps[0]);
      RunsKeepInv(Apply(s, steps[0]), steps[1..]);
    }
  }

  // ---- the histories, read off the steps ----

  function PushedBy(t: Step): seq<Functor> {
    match t
    case Push(_, f) => [f]
    case LoopPush(f) => [f]
    case _ => []
  }

  /** All functors that were queued, in order. */
  function AllPushed(steps: seq<Step>): seq<Functor>
    decreases |steps|
  {
    if steps == [] then [] else AllPushed(Before(steps)) + PushedBy(Last(steps))
  }

  function Calls(steps: seq<Step>): nat
    decreases |steps|
  {
    if steps == [] then 0 else Calls(Before(steps)) + if Last(steps) == CallNext then 1 else 0
  }

  /** How many were pushed before the queue was last taken. */
  function PushedAtSwap(steps: seq<Step>): nat
    decreases |steps|
  {
    if steps == [] then 0
    else if Last(steps) == Swap then |AllPushed(Before(steps))|
    else PushedAtSwap(Before(steps))
  }

  /** Writes to the eventfd since it was last read. */
  function Unread(steps: seq<Step>): nat
    decreases |steps|
  {
    if steps == [] || Last(steps) == ReadEventfd then 0
    else Unread(Before(steps)) + if Last(steps).Wakeup? || Last(steps) == LoopWakeup then 1 else 0
  }

  /** Whether a thread has pushed and not yet written to the eventfd. */
  predicate AboutToWake(steps: seq<Step>, p: ThreadId)
    decreases |steps|
  {
    if steps == [] || Last(steps) == Wakeup(p) then false
    else (Last(steps).Push? && Last(steps).t == p) || AboutToWake(Before(steps), p)
  }

  /** The same for the loop thread, if it was calling functors when it pushed. */
  predicate MayBeAboutToWake(steps: seq<Step>)
    decreases |steps|
  {
    steps != [] && Last(steps) != LoopWakeup && (Last(steps).LoopPush? || MayBeAboutToWake(Before(steps)))
  }

  predicate IsHistory(s: Loop, steps: seq<Step>) {
    && s.enqueued == AllPushed(steps) && |s.executed| == Calls(steps) && s.eventfd == Unread(steps)
    && s.limit == PushedAtSwap(steps) && (s.loopWaking ==> MayBeAboutToWake(steps))
  }

  lemma {:induction false} RunLast(s: Loop, steps: seq<Step>, t: Step)
    requires IsRun(s, steps + [t])
    ensures IsRun(s, steps) && Enabled(Run(s, steps), t) && Run(s, steps + [t]) == Apply(Run(s, steps), t)
    decreases |steps|
  {
    hide Enabled, Apply;
    if steps == [] {
      assert (steps + [t])[1..] == [];
    } else {
      assert (steps + [t])[1..] == steps[1..] + [t];
      RunLast(Apply(s, steps[0]), steps[1..], t);
    }
  }

  lemma StepKeepsHistory(s: Loop, steps: seq<Step>, p: ThreadId)
    requires steps != [] && Enabled(s, Last(steps)) && IsHistory(s, Before(steps))
    requires p in s.waking <==> AboutToWake(Before(steps), p)
    ensures IsHistory(Apply(s, Last(steps)), steps)
    ensures p in Apply(s, Last(steps)).waking <==> AboutToWake(steps, p)
  {
    assert s.enqueued + [] == s.enqueued;
  }

  lemma {:induction false} HistoryOfRun(steps: seq<Step>, p: ThreadId)
    requires IsRun(START, steps)
    ensures IsHistory(Run(START, steps), steps)
    ensures p in Run(START, steps).waking <==> AboutToWake(steps, p)
    decreases |steps|
  {
    if steps == [] {
    } else {
      assert steps == Before(steps) + [Last(steps)];
      RunLast(START, Before(steps), Last(steps));
      HistoryOfRun(Before(steps), p);
      hide Apply, Enabled;
      StepKeepsHistory(Run(START, Before(steps)), steps, p);
    }
  }

  /** In every run, by the steps: the functors called so far are the first of those pushed, in order and once each; a
      batch calls none that was pushed during it; the loop reads its eventfd only when it was written to; and while it
      polls with a functor waiting, the eventfd was written to and not read, or some thread that pushed is about
      to write. */
  lemma EveryRun(steps: seq<Step>)
    requires IsRun(START, steps)
    ensures var s := Run(START, steps);
      && !s.failed
      && Calls(steps) <= |AllPushed(steps)| && s.executed == AllPushed(steps)[..Calls(steps)]
      && s.enqueued == AllPushed(steps) && s.eventfd == Unread(steps)
      && (s.phase.Polling? && Calls(steps) < |AllPushed(steps)| ==>
            0 < Unread(steps) || exists p :: AboutToWake(steps, p))
      && (s.phase.Calling? ==> Calls(steps) <= PushedAtSwap(steps))
  {
    RunsKeepInv(START, steps);
    HistoryOfRun(steps, 0);
    hide AllPushed, PushedAtSwap, Calls, Unread, AboutToWake, MayBeAboutToWake;
    var s := Run(START, steps);
    assert s.enqueued[..|s.executed|] == s.executed;
    if s.phase.Polling? && s.pending != [] && s.eventfd == 0 {
      var p :| p in s.waking;
      HistoryOfRun(steps, p);
    }
  }

  // ---- progress ----

  function BatchSteps(n: nat): seq<Step> {
    if n == 0 then [EndBatch] else [CallNext] + BatchSteps(n - 1)
  }

  /** What a loop in poll with work does on its own, once the eventfd is readable. */
  lemma {:induction false} BatchCompletes(s: Loop, n: nat)
    requires Inv(s) && s.phase.Calling? && !s.loopWaking && |Remainder(s)| == n
    ensures IsRun(s, BatchSteps(n))
    ensures var s' := Run(s, BatchSteps(n));
      s'.phase.Polling? && |s'.executed| == s.limit && s'.enqueued == s.enqueued
    decreases n
  {
    if n == 0 {
      assert BatchSteps(0)[1..] == [];
    } else {
      StepKeepsInv(s, CallNext);
      BatchCompletes(Apply(s, CallNext), n - 1);
      assert BatchSteps(n)[1..] == BatchSteps(n - 1);
    }
  }

  lemma Prepend(s: Loop, t: Step, rest: seq<Step>)
    requires Enabled(s, t) && IsRun(Apply(s, t), rest)
    ensures IsRun(s, [t] + rest) && Run(s, [t] + rest) == Run(Apply(s, t), rest)
  {
    assert ([t] + rest)[1..] == rest;
  }

  /** No functor is stuck: a loop that polls with functors pending can be woken, by the pending wakeup of a
      producer if not by the eventfd, and there is then a run of one turn that executes all of them. */
  lemma PendingWorkGetsDone(s: Loop) returns (steps: seq<Step>)
    requires Inv(s) && s.phase.Polling? && s.pending != []
    ensures IsRun(s, steps) && Run(s, steps).executed == Run(s, steps).enqueued == s.enqueued
    ensures |steps| > 0 && if s.eventfd > 0 then steps[0] == PollReturns(true) else steps[0].Wakeup?
    decreases s.eventfd == 0
  {
    if s.eventfd == 0 {
      var p :| p in s.waking;
      StepKeepsInv(s, Wakeup(p));
      var more := PendingWorkGetsDone(Apply(s, Wakeup(p)));
      steps := [Wakeup(p)] + more;
      Prepend(s, Wakeup(p), more);
    } else {
      var s1 := Apply(s, PollReturns(true));
      var s2 := Apply(s1, ReadEventfd);
      var s3 := Apply(s2, Swap);
      StepKeepsInv(s, PollReturns(true));
      StepKeepsInv(s1, ReadEventfd);
      StepKeepsInv(s2, Swap);
      var batch := BatchSteps(|s.pending|);
      BatchCompletes(s3, |s.pending|);
      RunsKeepInv(s3, batch);
      Prepend(s2, Swap, batch);
      Prepend(s1, ReadEventfd, [Swap] + batch);
      Prepend(s, PollReturns(true), [ReadEventfd] + ([Swap] + batch));
      steps := [PollReturns(true)] + ([ReadEventfd] + ([Swap] + batch));
    }
  }
}
