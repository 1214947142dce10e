/** The monitor of irono/base/ThreadPool.cc: a bounded queue with two condition variables. A wait
    releases the lock; a woken thread competes for it again with everyone else; a notify wakes at
    least one waiter if there is one; waiters may also wake for no reason. */
module ThreadPools {
  import opened Options
  import opened Histories

  type Task = nat
  type ThreadId = nat

  /** `idleWorkers` and `idleProducers` sleep; `wokenWorkers` and `wokenProducers` have been woken and will
      take the lock again. Producers keep their task. `accepted` and `taken` are histories; `failed` is a
      failed assert(!isFull()). */
  datatype Pool = Pool(
    maxQueueSize: nat, running: bool, queue: seq<Task>,
    idleWorkers: set<ThreadId>, wokenWorkers: set<ThreadId>,
    idleProducers: map<ThreadId, Task>, wokenProducers: map<ThreadId, Task>,
    accepted: seq<Task>, taken: seq<Task>, failed: bool)

  function Start(maxQueueSize: nat): Pool {
    Pool(maxQueueSize, true, [], {}, {}, map[], map[], [], [], false)
  }

  /** `wake` is who a notify in this step wakes. */
  datatype Step =
    | RunEnters(p: ThreadId, task: Task, wake: set<ThreadId>)
    | RunResumes(p: ThreadId, wake: set<ThreadId>)
    | TakeEnters(w: ThreadId, wake: set<ThreadId>)
    | TakeResumes(w: ThreadId, wake: set<ThreadId>)
    | WorkerWakesAlone(w: ThreadId)
    | ProducerWakesAlone(p: ThreadId)
    | Stop

  predicate IsFull(s: Pool) {
    s.maxQueueSize > 0 && |s.queue| >= s.maxQueueSize
  }

  predicate MayWake(idle: set<ThreadId>, wake: set<ThreadId>) {
    wake <= idle && (idle != {} ==> wake != {})
  }

  predicate Outside(s: Pool, t: ThreadId) {
    t !in s.idleWorkers && t !in s.wokenWorkers && t !in s.idleProducers && t !in s.wokenProducers
  }

  predicate Enabled(s: Pool, t: Step) {
    match t
    case RunEnters(p, _, wake) => Outside(s, p) && MayWake(s.idleWorkers, wake)
    case RunResumes(p, wake) => p in s.wokenProducers && MayWake(s.idleWorkers, wake)
    case TakeEnters(w, wake) => Outside(s, w) && MayWake(s.idleProducers.Keys, wake)
    case TakeResumes(w, wake) => w in s.wokenWorkers && MayWake(s.idleProducers.Keys, wake)
    case WorkerWakesAlone(w) => w in s.idleWorkers
    case ProducerWakesAlone(p) => p in s.idleProducers
    case Stop => true
  }

  function WakeWorkers(s: Pool, wake: set<ThreadId>): Pool {
    s.(idleWorkers := s.idleWorkers - wake, wokenWorkers := s.wokenWorkers + wake)
  }

  function WakeProducers(s: Pool, wake: set<ThreadId>): Pool {
    s.(idleProducers := s.idleProducers - wake,
    wokenProducers := s.wokenProducers + map p | p in s.idleProducers && p in wake :: s.idleProducers[p])
  }

  /** run() with the lock held: from the test of the loop to the wait or the end. */
  function RunHeld(s: Pool, p: ThreadId, task: Task, wake: set<ThreadId>): Pool {
    if IsFull(s) && s.running then
      s.(idleProducers := s.idleProducers[p := task])
    else if !s.running then
      s
    else
      WakeWorkers(s.(queue := s.queue + [task], accepted := s.accepted + [task], failed := s.failed || IsFull(s)), wake)
  }

  /** take() with the lock held. */
  function TakeHeld(s: Pool, w: ThreadId, wake: set<ThreadId>): Pool {
    if s.queue == [] && s.running then
      s.(idleWorkers := s.idleWorkers + {w})
    else if s.queue == [] then
      s
    else
      var s' := s.(queue := s.queue[1..], taken := s.taken + [s.queue[0]]);
      if s.maxQueueSize > 0 then WakeProducers(s', wake) else s'
  }

  function Apply(s: Pool, t: Step): Pool
    requires Enabled(s, t)
  {
    match t
    case RunEnters(p, task, wake) => RunHeld(s, p, task, wake)
    case RunResumes(p, wake) =>
      RunHeld(s.(wokenProducers := s.wokenProducers - {p}), p, s.wokenProducers[p], wake)
    case TakeEnters(w, wake) => TakeHeld(s, w, wake)
    case TakeResumes(w, wake) => TakeHeld(s.(wokenWorkers := s.wokenWorkers - {w}), w, wake)
    case WorkerWakesAlone(w) => WakeWorkers(s, {w})
    case ProducerWakesAlone(p) => WakeProducers(s, {p})
    case Stop => WakeProducers(WakeWorkers(s.(running := false), s.idleWorkers), s.idleProducers.Keys)
  }

  predicate IsRun(s: Pool, steps: seq<Step>)
    decreases |steps|
  {
    steps == [] || (Enabled(s, steps[0]) && IsRun(Apply(s, steps[0]), steps[1..]))
  }

  function Run(s: Pool, steps: seq<Step>): Pool
    requires IsRun(s, steps)
    decreases |steps|
  {
    if steps == [] then s else Run(Apply(s, steps[0]), steps[1..])
  }

  predicate Bounded(s: Pool) {
    s.maxQueueSize > 0 ==> |s.queue| <= s.maxQueueSize
  }

  /** While some worker sleeps, every queued task has a woken worker coming for it. */
  predicate WorkersWoken(s: Pool) {
    s.idleWorkers != {} ==> s.running && |s.queue| <= |s.wokenWorkers|
  }

  /** Dually for free slots. */
  predicate ProducersWoken(s: Pool) {
    s.idleProducers != map[] ==>
      s.running && s.maxQueueSize > 0 && s.maxQueueSize - |s.queue| <= |s.wokenProducers|
  }

  predicate Inv(s: Pool) {
    && !s.failed
    && s.taken + s.queue == s.accepted
    && Bounded(s) && WorkersWoken(s) && ProducersWoken(s)
    && s.idleWorkers !! s.wokenWorkers
    && s.idleProducers.Keys !! s.wokenProducers.Keys
  }

  lemma WakingCounts(idle: set<ThreadId>, woken: set<ThreadId>, wake: set<ThreadId>)
    requires MayWake(idle, wake) && idle !! woken
    ensures |woken + wake| == |woken| + |wake| && (idle != {} ==> |wake| >= 1)
    ensures (idle - wake) !! (woken + wake)
  {
    if wake != {} {
      var x :| x in wake;
      assert |wake - {x}| + 1 == |wake|;
    }
  }

  lemma MapSize<V>(m: map<ThreadId, V>)
    ensures |m| == |m.Keys| && (m == map[] <==> m.Keys == {})
  {
    if m.Keys == {} {
      assert m == map[];
    }
  }

  lemma WakeWorkersCounts(s: Pool, wake: set<ThreadId>)
    requires MayWake(s.idleWorkers, wake) && s.idleWorkers !! s.wokenWorkers
    ensures var s' := WakeWorkers(s, wake);
      && s'.idleWorkers !! s'.wokenWorkers
      && |s'.wokenWorkers| >= |s.wokenWorkers| + if s.idleWorkers != {} then 1 else 0
  {
    WakingCounts(s.idleWorkers, s.wokenWorkers, wake);
  }

  lemma WakeProducersKeys(s: Pool, wake: set<ThreadId>)
    requires wake <= s.idleProducers.Keys
    ensures WakeProducers(s, wake).idleProducers.Keys == s.idleProducers.Keys - wake
    ensures WakeProducers(s, wake).wokenProducers.Keys == s.wokenProducers.Keys + wake
  {
  }

  lemma WakeProducersCounts(s: Pool, wake: set<ThreadId>)
    requires MayWake(s.idleProducers.Keys, wake) && s.idleProducers.Keys !! s.wokenProducers.Keys
    ensures var s' := WakeProducers(s, wake);
      && s'.idleProducers.Keys == s.idleProducers.Keys - wake
      && s'.idleProducers.Keys !! s'.wokenProducers.Keys
      && |s'.wokenProducers| >= |s.wokenProducers| + if s.idleProducers != map[] then 1 else 0
  {
    hide WakeProducers;
    var s' := WakeProducers(s, wake);
    WakeProducersKeys(s, wake);
    WakingCounts(s.idleProducers.Keys, s.wokenProducers.Keys, wake);
    MapSize(s.idleProducers);
    MapSize(s.wokenProducers);
    MapSize(s'.wokenProducers);
  }

  /** `s` is the state at the loop test; a resuming producer has just left the woken ones, so the bound
      on free slots may be one short. */
  lemma RunHeldKeepsInv(s: Pool, p: ThreadId, task: Task, wake: set<ThreadId>)
    requires !s.failed && s.taken + s.queue == s.accepted && Bounded(s) && WorkersWoken(s)
    requires s.idleWorkers !! s.wokenWorkers && s.idleProducers.Keys !! s.wokenProducers.Keys
    requires s.idleProducers != map[] ==>
      s.running && s.maxQueueSize > 0 && s.maxQueueSize - |s.queue| <= |s.wokenProducers| + 1
    requires p !in s.idleProducers && p !in s.wokenProducers && MayWake(s.idleWorkers, wake)
    ensures Inv(RunHeld(s, p, task, wake))
  {
    WakeWorkersCounts(s, wake);
    assert s.taken + (s.queue + [task]) == (s.taken + s.queue) + [task];
  }

  lemma TakeHeldKeepsInv(s: Pool, w: ThreadId, wake: set<ThreadId>)
    requires !s.failed && s.taken + s.queue == s.accepted && Bounded(s) && ProducersWoken(s)
    requires s.idleWorkers !! s.wokenWorkers && s.idleProducers.Keys !! s.wokenProducers.Keys
    requires s.idleWorkers != {} ==> s.running && |s.queue| <= |s.wokenWorkers| + 1
    requires w !in s.idleWorkers && w !in s.wokenWorkers && MayWake(s.idleProducers.Keys, wake)
    ensures Inv(TakeHeld(s, w, wake))
  {
    if s.queue == [] {
    } else {
      assert s.taken + s.queue == (s.taken + [s.queue[0]]) + s.queue[1..];
      var s' := s.(queue := s.queue[1..], taken := s.taken + [s.queue[0]]);
      if s.maxQueueSize > 0 {
        ProducerWokenKeepsInv(s', wake);
      }
    }
  }

  /** The task is taken out; waking a producer makes up for the free slot. */
  lemma ProducerWokenKeepsInv(s: Pool, wake: set<ThreadId>)
    requires !s.failed && s.taken + s.queue == s.accepted && Bounded(s) && WorkersWoken(s)
    requires s.idleWorkers !! s.wokenWorkers && s.idleProducers.Keys !! s.wokenProducers.Keys
    requires s.idleProducers != map[] ==>
      s.running && s.maxQueueSize > 0 && s.maxQueueSize - |s.queue| <= |s.wokenProducers| + 1
    requires MayWake(s.idleProducers.Keys, wake)
    ensures Inv(WakeProducers(s, wake))
  {
    hide MayWake, WakeProducers;
    WakeProducersCounts(s, wake);
    WakeProducersFrame(s, wake);
    FreeSlotIsCovered(s, WakeProducers(s, wake));
  }

  lemma FreeSlotIsCovered(s: Pool, s': Pool)
    requires !s.failed && s.taken + s.queue == s.accepted && Bounded(s) && WorkersWoken(s)
    requires s.idleWorkers !! s.wokenWorkers && s'.idleProducers.Keys !! s'.wokenProducers.Keys
    requires s' == s.(idleProducers := s'.idleProducers, wokenProducers := s'.wokenProducers)
    requires s'.idleProducers != map[] ==> s.idleProducers != map[]
    requires s.idleProducers != map[] ==>
      && s.running && s.maxQueueSize > 0
      && s.maxQueueSize - |s.queue| <= |s.wokenProducers| + 1 <= |s'.wokenProducers|
    ensures Inv(s')
  {
  }

  lemma WakeProducersFrame(s: Pool, wake: set<ThreadId>)
    requires MayWake(s.idleProducers.Keys, wake)
    ensures var s' := WakeProducers(s, wake);
      && s' == s.(idleProducers := s'.idleProducers, wokenProducers := s'.wokenProducers)
      && (s'.idleProducers != map[] ==> s.idleProducers != map[])
  {
  }

  lemma RunResumesKeepsInv(s: Pool, p: ThreadId, wake: set<ThreadId>)
    requires Inv(s) && Enabled(s, RunResumes(p, wake))
    ensures Inv(Apply(s, RunResumes(p, wake)))
  {
    hide RunHeld;
    var s1 := s.(wokenProducers := s.wokenProducers - {p});
    MapSize(s.wokenProducers);
    MapSize(s1.wokenProducers);
    assert s1.wokenProducers.Keys == s.wokenProducers.Keys - {p};
    RunHeldKeepsInv(s1, p, s.wokenProducers[p], wake);
  }

  lemma WakesAloneKeepsInv(s: Pool, t: Step)
    requires Inv(s) && Enabled(s, t) && (t.WorkerWakesAlone? || t.ProducerWakesAlone?)
    ensures Inv(Apply(s, t))
  {
    if t.WorkerWakesAlone? {
      WakeWorkersCounts(s, {t.w});
    } else {
      WakeProducersCounts(s, {t.p});
      MapSize(s.idleProducers);
      MapSize(WakeProducers(s, {t.p}).idleProducers);
    }
  }

  lemma StopKeepsInv(s: Pool)
    requires Inv(s)
    ensures Inv(Apply(s, Stop))
  {
    WakeWorkersCounts(s, s.idleWorkers);
    WakeProducersCounts(s, s.idleProducers.Keys);
    MapSize(Apply(s, Stop).idleProducers);
  }

  lemma StepKeepsInv(s: Pool, t: Step)
    requires Inv(s) && Enabled(s, t)
    ensures Inv(Apply(s, t))
  {
    hide RunHeld, TakeHeld, WakeWorkers, WakeProducers;
    match t
    case RunEnters(p, task, wake) => RunHeldKeepsInv(s, p, task, wake);
    case RunResumes(p, wake) => RunResumesKeepsInv(s, p, wake);
    case TakeEnters(w, wake) => TakeHeldKeepsInv(s, w, wake);
    case TakeResumes(w, wake) => TakeHeldKeepsInv(s.(wokenWorkers := s.wokenWorkers - {w}), w, wake);
    case Stop => StopKeepsInv(s);
    case _ => WakesAloneKeepsInv(s, t);
  }

  lemma {:induction false} RunsKeepInv(s: Pool, steps: seq<Step>)
    requires Inv(s) && IsRun(s, steps)
    ensures Inv(Run(s, steps))
    decreases |steps|
  {
    hide Inv, Apply, Enabled;
    if steps == [] {
    } else {
      StepKeepsInv(s, steps[0]);
      RunsKeepInv(Apply(s, steps[0]), steps[1..]);
    }
  }

  // ---- whose tasks are queued and taken, by the steps alone ----

  lemma {:induction false} RunLast(s: Pool, steps: seq<Step>, t: Step)
    requires IsRun(s, steps + [t])
    ensures IsRun(s, steps) && Enabled(Run(s, steps), t) && Run(s, steps + [t]) == Apply(Run(s, steps), t)
    decreases |steps|
  {
    hide Enabled, Apply;
    if steps == [] {
      assert (steps + [t])[1..] == [];
    } else {
      assert (steps + [t])[1..] == steps[1..] + [t];
      RunLast(Apply(s, steps[0]), steps[1..], t);
    }
  }

  /** The task a producer came with when it last called run(). */
  function LastEntered(steps: seq<Step>, p: ThreadId): Option<Task>
    decreases |steps|
  {
    if steps == [] then None
    else if Last(steps).RunEnters? && Last(steps).p == p then Some(Last(steps).task)
    else LastEntered(Before(steps), p)
  }

  predicate KeepTheirTasks(s: Pool, steps: seq<Step>) {
    && (s.running <==> Stop !in steps)
    && (forall p :: p in s.idleProducers ==> LastEntered(steps, p) == Some(s.idleProducers[p]))
    && (forall p :: p in s.wokenProducers ==> LastEntered(steps, p) == Some(s.wokenProducers[p]))
  }

  lemma LastEnteredNext(steps: seq<Step>, t: Step, p: ThreadId)
    ensures LastEntered(steps + [t], p) == if t.RunEnters? && t.p == p then Some(t.task) else LastEntered(steps, p)
  {
    assert Before(steps + [t]) == steps;
  }

  lemma StepKeepsTasks(s: Pool, steps: seq<Step>, t: Step)
    requires KeepTheirTasks(s, steps) && Enabled(s, t)
    ensures KeepTheirTasks(Apply(s, t), steps + [t])
  {
    hide LastEntered;
    forall p
      ensures LastEntered(steps + [t], p) == if t.RunEnters? && t.p == p then Some(t.task) else LastEntered(steps, p)
    {
      LastEnteredNext(steps, t, p);
    }
  }

  lemma {:induction false} ProducersKeepTheirTasks(maxQueueSize: nat, steps: seq<Step>)
    requires IsRun(Start(maxQueueSize), steps)
    ensures KeepTheirTasks(Run(Start(maxQueueSize), steps), steps)
    decreases |steps|
  {
    hide KeepTheirTasks, Apply, Enabled;
    if steps == [] {
      StartKeepsTasks(maxQueueSize);
    } else {
      var before, t := Before(steps), Last(steps);
      assert steps == before + [t];
      RunLast(Start(maxQueueSize), before, t);
      ProducersKeepTheirTasks(maxQueueSize, before);
      StepKeepsTasks(Run(Start(maxQueueSize), before), before, t);
    }
  }

  lemma StartKeepsTasks(maxQueueSize: nat)
    ensures KeepTheirTasks(Start(maxQueueSize), [])
  {
  }

  predicate Entering(t: Step) {
    t.RunEnters? || t.RunResumes?
  }

  predicate Taking(t: Step) {
    t.TakeEnters? || t.TakeResumes?
  }

  /** The task that a step of run() is about, by the history. */
  function TaskOf(steps: seq<Step>, t: Step): Option<Task>
    requires Entering(t)
  {
    if t.RunEnters? then Some(t.task) else LastEntered(steps, t.p)
  }

  /** What run() and take() do, each time, after whatever happened before. A run() is refused once the pool is stopped,
      waits when `maxQueueSize` tasks were accepted and not taken, and otherwise adds the task its caller came with,
      whether or not it had to wait. A take() gets the first task not taken, and waits if there is none and the
      pool was not stopped. No other step does either. */
  lemma Served(maxQueueSize: nat, steps: seq<Step>, t: Step)
    requires IsRun(Start(maxQueueSize), steps + [t])
    ensures IsRun(Start(maxQueueSize), steps)
    ensures var s, s' := Run(Start(maxQueueSize), steps), Run(Start(maxQueueSize), steps + [t]);
      && (Entering(t) ==> TaskOf(steps, t).Some?)
      && s'.accepted == s.accepted +
           (if Entering(t) && Stop !in steps && !(0 < maxQueueSize <= |s.accepted| - |s.taken|)
            then [TaskOf(steps, t).value] else [])
      && |s'.taken| == |s.taken| + (if Taking(t) && |s.taken| < |s.accepted| then 1 else 0)
      && s'.taken <= s'.accepted
      && (Entering(t) ==> (t.p in s'.idleProducers <==> Stop !in steps && s'.accepted == s.accepted))
      && (Taking(t) ==> (t.w in s'.idleWorkers <==> Stop !in steps && s'.taken == s.taken))
  {
    var s0 := Start(maxQueueSize);
    RunLast(s0, steps, t);
    ProducersKeepTheirTasks(maxQueueSize, steps);
    RunsKeepInv(s0, steps);
    RunsKeepInv(s0, steps + [t]);
    SameBound(s0, steps);
    hide Start, Run, IsRun, LastEntered;
    ServedNow(Run(s0, steps), steps, t);
  }

  lemma {:induction false} SameBound(s: Pool, steps: seq<Step>)
    requires IsRun(s, steps)
    ensures Run(s, steps).maxQueueSize == s.maxQueueSize
    decreases |steps|
  {
    if steps == [] {
    } else {
      SameBound(Apply(s, steps[0]), steps[1..]);
    }
  }

  lemma ServedNow(s: Pool, steps: seq<Step>, t: Step)
    requires Inv(s) && KeepTheirTasks(s, steps) && Enabled(s, t)
    ensures var s' := Apply(s, t);
      && (Entering(t) ==> TaskOf(steps, t).Some?)
      && s'.accepted == s.accepted +
           (if Entering(t) && Stop !in steps && !(0 < s.maxQueueSize <= |s.accepted| - |s.taken|)
            then [TaskOf(steps, t).value] else [])
      && |s'.taken| == |s.taken| + (if Taking(t) && |s.taken| < |s.accepted| then 1 else 0)
      && (Entering(t) ==> (t.p in s'.idleProducers <==> Stop !in steps && s'.accepted == s.accepted))
      && (Taking(t) ==> (t.w in s'.idleWorkers <==> Stop !in steps && s'.taken == s.taken))
  {
    hide LastEntered;
    assert |s.accepted| == |s.taken| + |s.queue|;
    assert s.accepted + [] == s.accepted;
  }

  /** A bounded queue, as a reference: the tasks it accepts over a history of calls, and how many of them it gives out.
      It has no threads that sleep or wake. */
  function AcceptedTasks(maxQueueSize: nat, steps: seq<Step>): seq<Task>
    decreases |steps|
  {
    if steps == [] then []
    else
      var before, t := Before(steps), Last(steps);
      var accepted := AcceptedTasks(maxQueueSize, before);
      if Entering(t) && TaskOf(before, t).Some? && Stop !in before
         && !(0 < maxQueueSize <= |accepted| - GivenOut(maxQueueSize, before))
      then accepted + [TaskOf(before, t).value]
      else accepted
  }

  function GivenOut(maxQueueSize: nat, steps: seq<Step>): nat
    decreases |steps|
  {
    if steps == [] then 0
    else
      GivenOut(maxQueueSize, Before(steps))
        + if Taking(Last(steps))
             && GivenOut(maxQueueSize, Before(steps)) < |AcceptedTasks(maxQueueSize, Before(steps))|
          then 1 else 0
  }

  lemma {:induction false} QueueOfRun(maxQueueSize: nat, steps: seq<Step>)
    requires IsRun(Start(maxQueueSize), steps)
    ensures var s := Run(Start(maxQueueSize), steps);
      s.accepted == AcceptedTasks(maxQueueSize, steps) && |s.taken| == GivenOut(maxQueueSize, steps)
    decreases |steps|
  {
    hide TaskOf, LastEntered, Start, Apply, Enabled;
    if steps == [] {
      StartIsEmpty(maxQueueSize);
    } else {
      assert steps == Before(steps) + [Last(steps)];
      Served(maxQueueSize, Before(steps), Last(steps));
      QueueOfRun(maxQueueSize, Before(steps));
      var s := Run(Start(maxQueueSize), Before(steps));
      assert s.accepted + [] == s.accepted;
    }
  }

  lemma StartIsEmpty(maxQueueSize: nat)
    ensures Start(maxQueueSize).accepted == [] && Start(maxQueueSize).taken == []
  {
  }

  /** In every run: tasks are accepted and given out as by the reference, whoever slept meanwhile; the bound holds, and
      no wakeup is lost. A sleeping worker next to a queued task, or a sleeping producer next to a free
      slot, always has a woken companion; workers and producers never all sleep; and after stop nobody sleeps. */
  lemma Monitor(maxQueueSize: nat, steps: seq<Step>)
    requires IsRun(Start(maxQueueSize), steps)
    ensures var s, accepted, n :=
        Run(Start(maxQueueSize), steps), AcceptedTasks(maxQueueSize, steps), GivenOut(maxQueueSize, steps);
      && !s.failed
      && n <= |accepted| && (maxQueueSize > 0 ==> |accepted| - n <= maxQueueSize)
      && s.accepted == accepted && s.taken == accepted[..n] && s.queue == accepted[n..]
      && (s.idleWorkers != {} && s.queue != [] ==> s.wokenWorkers != {})
      && (s.idleProducers != map[] && !IsFull(s) ==> s.wokenProducers != map[])
      && (s.idleWorkers != {} && s.idleProducers != map[] ==> s.wokenWorkers != {} || s.wokenProducers != map[])
      && (Stop in steps ==> s.idleWorkers == {} && s.idleProducers == map[])
  {
    RunsKeepInv(Start(maxQueueSize), steps);
    QueueOfRun(maxQueueSize, steps);
    SameBound(Start(maxQueueSize), steps);
    ProducersKeepTheirTasks(maxQueueSize, steps);
  }

  /** Whom a step wakes: a run() that adds a task notifies workers, a stop wakes everybody, and sleepers may wake alone.
      Nobody else goes to sleep or wakes up. */
  lemma WhichWorkersWake(s: Pool, t: Step, x: ThreadId)
    requires Enabled(s, t) && (Taking(t) ==> x != t.w)
    ensures var s' := Apply(s, t);
      var woken := t == Stop || t == WorkerWakesAlone(x) || (Entering(t) && s'.accepted != s.accepted && x in t.wake);
      && (x in s'.idleWorkers <==> x in s.idleWorkers && !woken)
      && (x in s'.wokenWorkers <==> x in s.wokenWorkers || (x in s.idleWorkers && woken))
  {
    if Entering(t) {
      hide WakeProducers;
      assert s.accepted + [0] != s.accepted;
    } else {
      hide RunHeld;
    }
  }

  /** Likewise a take() that gets a task from a bounded queue notifies producers. */
  lemma WhichProducersWake(s: Pool, t: Step, x: ThreadId)
    requires Enabled(s, t) && (Entering(t) ==> x != t.p)
    ensures var s' := Apply(s, t);
      var woken := t == Stop || t == ProducerWakesAlone(x)
        || (Taking(t) && s'.taken != s.taken && 0 < s.maxQueueSize && x in t.wake);
      && (x in s'.idleProducers <==> x in s.idleProducers && !woken)
      && (x in s'.wokenProducers <==> x in s.wokenProducers || (x in s.idleProducers && woken))
  {
    if Entering(t) {
      hide WakeWorkers;
    } else {
      hide RunHeld;
    }
  }

  // ---- progress ----

  /** The producers inside run(). */
  function Waiting(s: Pool): set<ThreadId> {
    s.idleProducers.Keys + s.wokenProducers.Keys
  }

  lemma TakeServes(s: Pool, w: ThreadId)
    requires Inv(s) && Outside(s, w) && s.queue != []
    ensures Enabled(s, TakeEnters(w, s.idleProducers.Keys))
    ensures var s' := Apply(s, TakeEnters(w, s.idleProducers.Keys));
      && Outside(s', w) && Waiting(s') == Waiting(s) && s'.queue == s.queue[1..]
      && s'.accepted == s.accepted && s'.running == s.running
  {
    WakeProducersKeys(s, s.idleProducers.Keys);
  }

  lemma ResumeServes(s: Pool, w: ThreadId, p: ThreadId)
    requires Inv(s) && Outside(s, w) && s.queue == [] && p in s.wokenProducers
    ensures Enabled(s, RunResumes(p, s.idleWorkers))
    ensures var s' := Apply(s, RunResumes(p, s.idleWorkers));
      && Outside(s', w) && Waiting(s') == Waiting(s) - {p}
      && |s'.accepted| == |s.accepted| + (if s.running then 1 else 0) && s'.running == s.running
  {
    assert (s.wokenProducers - {p}).Keys == s.wokenProducers.Keys - {p};
  }

  lemma NobodyWaitsAlone(s: Pool)
    requires Inv(s) && s.queue == [] && s.wokenProducers == map[]
    ensures s.idleProducers == map[]
  {
    MapSize(s.wokenProducers);
  }

  /** From every point there is a run, of a single worker that keeps coming and of producers that resume, after which
      every task that was queued is taken and every producer that was waiting has got its task in. */
  lemma {:induction false} EveryoneIsServed(s: Pool, w: ThreadId) returns (steps: seq<Step>)
    requires Inv(s) && Outside(s, w)
    ensures IsRun(s, steps)
    ensures var s' := Run(s, steps);
      && s'.queue == [] && Waiting(s') == {}
      && |s'.accepted| == |s.accepted| + if s.running then |Waiting(s)| else 0
    decreases |Waiting(s)|, |s.queue|
  {
    hide Apply, Enabled, Inv, Outside;
    if s.queue == [] && s.wokenProducers.Keys == {} {
      MapSize(s.wokenProducers);
      NobodyWaitsAlone(s);
      steps := [];
    } else {
      var t: Step;
      if s.queue != [] {
        t := TakeEnters(w, s.idleProducers.Keys);
        TakeServes(s, w);
      } else {
        var p :| p in s.wokenProducers.Keys;
        t := RunResumes(p, s.idleWorkers);
        ResumeServes(s, w, p);
        assert |Waiting(s) - {p}| == |Waiting(s)| - 1;
      }
      StepKeepsInv(s, t);
      var more := EveryoneIsServed(Apply(s, t), w);
      steps := [t] + more;
      assert steps[1..] == more;
    }
  }
}
