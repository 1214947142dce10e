/** What the calls of users and the choices of the kernel amount to over whole runs of the lifecycle, whatever else
    happens (irono/net/TcpConnection.cc, TcpServer.cc, EventLoop.cc). */
module LifecycleCalls {
  import opened ConnectionStates
  import opened Histories
  import opened Lifecycle
  import opened LateSends

  // ---- shutdown ----

  /** No loop is going to run connectEstablished for the connection. */
  predicate Started(s: System, c: ConnId) {
    c < |s.conns| && forall l :: 0 <= l < |s.loops| ==> Establish(c) !in Work(s.loops[l])
  }

  lemma TameIsStarted(s: System, c: ConnId)
    requires Tame(s) && c < |s.conns| && s.conns[c].state != Connecting
    ensures Started(s, c)
  {
    var r := Clean(s);
    CleanGet(s, c);
    forall l | 0 <= l < |s.loops|
      ensures Establish(c) !in Work(s.loops[l])
    {
      assert QueueOk(r, l);
      assert !IsDue(r, Establish(c), l);
    }
  }

  lemma GrownWork(before: seq<Loop>, after: seq<Loop>, posted: Functor, k: LoopId, f: Functor)
    requires Grown(before, after, posted) && k < |before| && f != posted && f !in Work(before[k])
    ensures |after| == |before| && f !in Work(after[k])
  {
  }

  lemma NoEstablishOnClose(s: System, t: Step, k: LoopId, c: ConnId)
    requires Enabled(s, t) && t.Close? && k < |s.loops| && Establish(c) !in Work(s.loops[k])
    ensures |Apply(s, t).loops| == |s.loops| && Establish(c) !in Work(Apply(s, t).loops[k])
  {
    hide HandleClose, Grown;
    var p := s.loops[t.l].phase;
    var s1 := AtPhase(s, t.l, p.(current := Inside(p.current.c, true)));
    CloseGrows(s1, t.l, p.current.c);
    var posted := if t.l == 0 then Destroy(p.current.c) else Remove(p.current.c);
    GrownWork(s1.loops, Apply(s, t).loops, posted, k, Establish(c));
  }

  lemma NoEstablishOnCall(s: System, t: Step, k: LoopId, c: ConnId)
    requires Enabled(s, t) && t.RunNext? && k < |s.loops| && Establish(c) !in Work(s.loops[k])
    ensures |Apply(s, t).loops| == |s.loops| && Establish(c) !in Work(Apply(s, t).loops[k])
  {
    hide Call, Grown;
    var p := s.loops[t.l].phase;
    var s1 := AtPhase(s, t.l, p.(next := p.next + 1));
    WorkPopped(s.loops[t.l]);
    CallGrows(s1, p.batch[p.next]);
    GrownWork(s1.loops, Apply(s, t).loops, Destroy(p.batch[p.next].c), k, Establish(c));
  }

  /** Only newConnection asks for connectEstablished, and of a connection that is new. */
  lemma NoNewEstablish(s: System, t: Step, l: LoopId, c: ConnId)
    requires Enabled(s, t) && l < |s.loops| && c < |s.conns| && Establish(c) !in Work(s.loops[l])
    ensures |Apply(s, t).loops| == |s.loops| && Establish(c) !in Work(Apply(s, t).loops[l])
  {
    if t.Close? {
      NoEstablishOnClose(s, t, l, c);
    } else if t.RunNext? {
      NoEstablishOnCall(s, t, l, c);
    } else {
      hide LoopHolds, Mentions, HandleClose, Call, GetConn;
    }
  }

  lemma StartedStays(s: System, t: Step, c: ConnId)
    requires Enabled(s, t) && Started(s, c) && c < |Apply(s, t).conns|
    ensures Started(Apply(s, t), c)
  {
    hide Apply, Enabled, Work;
    LoopsStay(s, t);
    forall l | 0 <= l < |Apply(s, t).loops|
      ensures Establish(c) !in Work(Apply(s, t).loops[l])
    {
      NoNewEstablish(s, t, l, c);
    }
  }

  predicate ShutsDown(t: Step, c: ConnId) {
    (t.Shutdown? || t.ShutdownWrites?) && t.c == c
  }

  predicate Destroys(s: System, t: Step, c: ConnId)
    requires Enabled(s, t)
  {
    t.RunNext? && NextFunctor(s, t.l) == Destroy(c)
  }

  lemma CallMoves(s: System, l: LoopId)
    requires Enabled(s, RunNext(l)) && NextFunctor(s, l).c < |s.conns|
    ensures var f, s' := NextFunctor(s, l), Apply(s, RunNext(l));
      var conn, conn' := GetConn(s, f.c), GetConn(s', f.c);
      && f.c < |s'.conns| && conn'.home == conn.home
      && (f.Destroy? ==> conn'.state == Disconnected && conn'.destroys == conn.destroys + 1)
      && (f.Remove? ==> conn' == conn)
  {
    hide LoopHolds, Mentions, UpOrClosing;
  }

  lemma CloseMoves(s: System, l: LoopId)
    requires Enabled(s, Close(l)) && s.loops[l].phase.current.c < |s.conns|
    ensures var c, s' := s.loops[l].phase.current.c, Apply(s, Close(l));
      var conn, conn' := GetConn(s, c), GetConn(s', c);
      c < |s'.conns| && conn'.home == conn.home && conn'.state == conn.state && conn'.destroys == conn.destroys
  {
    hide LoopHolds, Mentions, UpOrClosing;
  }

  lemma OtherMoves(s: System, t: Step)
    requires Enabled(s, t) && !t.RunNext? && !t.Close? && Target(s, t) < |s.conns|
    ensures var c, s' := Target(s, t), Apply(s, t);
      var conn, conn' := GetConn(s, c), GetConn(s', c);
      && c < |s'.conns| && conn'.home == conn.home && conn'.destroys == conn.destroys
      && conn'.state ==
           if ShutsDown(t, c) && (conn.state == Connected || t.ShutdownWrites?) then Disconnecting else conn.state
  {
    hide LoopHolds, Mentions, HandleClose, Call;
  }

  /** What moves the state of a connection that has started. */
  lemma StateMoves(s: System, t: Step, c: ConnId)
    requires Enabled(s, t) && Started(s, c)
    ensures c < |Apply(s, t).conns|
    ensures var conn, conn' := GetConn(s, c), GetConn(Apply(s, t), c);
      && conn'.destroys == conn.destroys + (if Destroys(s, t, c) then 1 else 0)
      && conn'.state ==
           if Destroys(s, t, c) then Disconnected
           else if ShutsDown(t, c) && (conn.state == Connected || t.ShutdownWrites?) then Disconnecting
           else conn.state
  {
    hide Apply, LoopHolds, Mentions;
    if c != Target(s, t) {
      OthersStay(s, t, c);
    } else if t.RunNext? {
      WorkPopped(s.loops[t.l]);
      assert NextFunctor(s, t.l) in Work(s.loops[t.l]);
      CallMoves(s, t.l);
    } else if t.Close? {
      CloseMoves(s, t.l);
    } else {
      OtherMoves(s, t);
    }
  }

  predicate PastUp(s: System, c: ConnId) {
    && c < |s.conns| && Started(s, c)
    && (s.conns[c].state == Disconnecting || s.conns[c].state == Disconnected)
  }

  lemma {:induction false} PastUpStays(s: System, steps: seq<Step>, c: ConnId)
    requires PastUp(s, c) && IsRun(s, steps)
    ensures PastUp(Run(s, steps), c) && c < |s.conns| && c < |Run(s, steps).conns|
    ensures Run(s, steps).conns[c].destroys >= s.conns[c].destroys
    decreases |steps|
  {
    hide Apply, Enabled, Started;
    if steps == [] {
    } else {
      OnceStarted(s, steps[0], c);
      PastUpStays(Apply(s, steps[0]), steps[1..], c);
    }
  }

  lemma OnceStarted(s: System, t: Step, c: ConnId)
    requires Enabled(s, t) && Started(s, c)
    ensures var s' := Apply(s, t);
      && c < |s.conns| && Started(s', c) && c < |s'.conns|
      && s'.conns[c].destroys == s.conns[c].destroys + (if Destroys(s, t, c) then 1 else 0)
      && s'.conns[c].state ==
           if Destroys(s, t, c) then Disconnected
           else if ShutsDown(t, c) && (s.conns[c].state == Connected || t.ShutdownWrites?) then Disconnecting
           else s.conns[c].state
  {
    hide Apply, Enabled;
    StateMoves(s, t, c);
    StartedStays(s, t, c);
  }

  /** A shutdown on the connection's own loop is for good: whatever happens later, the state is kDisconnecting or
      kDisconnected, and no send does anything, let alone harm. */
  lemma ShutdownIsForGood(s: System, l: LoopId, c: ConnId, steps: seq<Step>, k: LoopId)
    requires Tame(s) && Enabled(s, Shutdown(l, c)) && GetConn(s, c).state != Connecting
    requires IsRun(Apply(s, Shutdown(l, c)), steps)
    ensures var s', send := Run(Apply(s, Shutdown(l, c)), steps), SendBlocked(k, c);
      && c < |s'.conns| && (s'.conns[c].state == Disconnecting || s'.conns[c].state == Disconnected)
      && !Harmful(s', send) && (Enabled(s', send) ==> Apply(s', send) == s')
  {
    hide Started, Tame, Apply, Enabled, IsRun, Run, Harmful;
    ShutdownTargets(s, l, c);
    TameIsStarted(s, c);
    OnceStarted(s, Shutdown(l, c), c);
    PastUpStays(Apply(s, Shutdown(l, c)), steps, c);
    SendIsRefused(Run(Apply(s, Shutdown(l, c)), steps), k, c);
  }

  lemma ShutdownTargets(s: System, l: LoopId, c: ConnId)
    requires Enabled(s, Shutdown(l, c))
    ensures c < |s.conns| && GetConn(s, c) == s.conns[c]
  {
  }

  lemma SendIsRefused(s: System, k: LoopId, c: ConnId)
    requires c < |s.conns| && (s.conns[c].state == Disconnecting || s.conns[c].state == Disconnected)
    ensures !Harmful(s, SendBlocked(k, c))
    ensures Enabled(s, SendBlocked(k, c)) ==> Apply(s, SendBlocked(k, c)) == s
  {
    hide LoopHolds, Mentions;
  }

  lemma {:induction false} StaysUp(s: System, steps: seq<Step>, c: ConnId)
    requires c < |s.conns| && Started(s, c) && IsRun(s, steps)
    requires s.conns[c].state == Connected && s.conns[c].destroys == 0
    ensures var s' := Run(s, steps);
      && c < |s'.conns|
      && (s'.conns[c].state == Connected <==> s'.conns[c].destroys == 0 && forall t :: t in steps ==> !ShutsDown(t, c))
    decreases |steps|
  {
    hide Apply, Enabled, Started;
    if steps == [] {
    } else {
      var t := steps[0];
      var s1 := Apply(s, t);
      OnceStarted(s, t, c);
      assert steps == [t] + steps[1..];
      if s1.conns[c].state == Connected {
        StaysUp(s1, steps[1..], c);
      } else {
        PastUpStays(s1, steps[1..], c);
      }
    }
  }

  /** A connection that is up stays so until it is destroyed or somebody shuts it down, and no longer. */
  lemma ConnectedExactly(s: System, steps: seq<Step>, c: ConnId)
    requires Tame(s) && c < |s.conns| && s.conns[c].state == Connected && IsRun(s, steps)
    ensures var s' := Run(s, steps);
      && c < |s'.conns|
      && (s'.conns[c].state == Connected <==> s'.conns[c].destroys == 0 && forall t :: t in steps ==> !ShutsDown(t, c))
  {
    TameIsStarted(s, c);
    CleanShape(s, c);
    assert FateOk(s, c);
    StaysUp(s, steps, c);
  }

  // ---- who holds a pointer, and who is about to shut down ----

  lemma PointersMove(s: System, t: Step, c: ConnId)
    requires Enabled(s, t)
    ensures c in Apply(s, t).held <==> t == Retain(c) || (c in s.held && t != Release(c))
    ensures c in Apply(s, t).stopping <==> t == ShutdownReads(c) || (c in s.stopping && t != ShutdownWrites(c, false))
  {
    hide LoopHolds, Mentions, HandleClose, Call;
    if t.Close? || t.RunNext? {
      CallStepSpares(s, t);
    }
  }

  /** User code holds a pointer as long as it last retained one; a thread that found a connection up is about to
      write its state until the last such thread has. */
  lemma {:induction false} PointersOfRun(s: System, steps: seq<Step>, c: ConnId)
    requires IsRun(s, steps)
    ensures c in Run(s, steps).held <==> SwitchedOn(c in s.held, steps, Retain(c), Release(c))
    ensures c in Run(s, steps).stopping <==>
      SwitchedOn(c in s.stopping, steps, ShutdownReads(c), ShutdownWrites(c, false))
    decreases |steps|
  {
    hide SwitchedOn, Apply, Enabled;
    if steps == [] {
      SwitchedByNone(c in s.held, Retain(c), Release(c));
      SwitchedByNone(c in s.stopping, ShutdownReads(c), ShutdownWrites(c, false));
    } else {
      PointersMove(s, steps[0], c);
      PointersOfRun(Apply(s, steps[0]), steps[1..], c);
      SwitchedByFirst(c in s.held, steps, Retain(c), Release(c));
      SwitchedByFirst(c in s.stopping, steps, ShutdownReads(c), ShutdownWrites(c, false));
    }
  }

  // ---- where a connection lives ----

  lemma HomeStays(s: System, t: Step, c: ConnId)
    requires Enabled(s, t) && c < |s.conns|
    ensures c < |Apply(s, t).conns| && GetConn(Apply(s, t), c).home == GetConn(s, c).home
  {
    hide Apply, LoopHolds, Mentions;
    if c != Target(s, t) {
      OthersStay(s, t, c);
    } else if t.RunNext? {
      CallMoves(s, t.l);
    } else if t.Close? {
      CloseMoves(s, t.l);
    } else {
      OtherMoves(s, t);
    }
  }

  lemma {:induction false} HomeStaysInRun(s: System, steps: seq<Step>, c: ConnId)
    requires IsRun(s, steps) && c < |s.conns|
    ensures c < |Run(s, steps).conns| && Run(s, steps).conns[c].home == s.conns[c].home
    decreases |steps|
  {
    hide Apply, Enabled;
    if steps == [] {
    } else {
      HomeStays(s, steps[0], c);
      HomeStaysInRun(Apply(s, steps[0]), steps[1..], c);
    }
  }

  /** A connection lives on the loop that newConnection chose. */
  lemma LivesWhereAccepted(s: System, home: LoopId, steps: seq<Step>)
    requires Enabled(s, Accept(home)) && IsRun(Apply(s, Accept(home)), steps)
    ensures var s', c := Run(Apply(s, Accept(home)), steps), |s.conns|;
      c < |s'.conns| && s'.conns[c].home == home
  {
    var s1 := Apply(s, Accept(home));
    assert |s1.conns| == |s.conns| + 1 && s1.conns[|s.conns|].home == home;
    HomeStaysInRun(s1, steps, |s.conns|);
  }

  // ---- one turn of a loop ----

  function Count(steps: seq<Step>, t: Step): nat {
    if steps == [] then 0 else (if steps[0] == t then 1 else 0) + Count(steps[1..], t)
  }

  lemma HandlingMoves(s: System, t: Step, l: LoopId)
    requires Enabled(s, t) && l < |s.loops| && s.loops[l].phase.Handling? && t != StartBatch(l)
    ensures |Apply(s, t).loops| == |s.loops|
    ensures var p, p' := s.loops[l].phase, Apply(s, t).loops[l].phase;
      && p'.Handling?
      && (t == Dispatch(l) ==>
            p.active != [] && p'.active == p.active[1..] && p'.current == Inside(p.active[0], false))
      && (t != Dispatch(l) ==>
            p'.active == p.active && (p'.current.Inside? ==> p.current.Inside? && p'.current.c == p.current.c))
  {
    hide LoopHolds, Mentions, HandleClose, Call;
    if t.Close? || t.RunNext? {
      PendingOnCall(s, t, l);
      PhasesOnCall(s, t, l);
    }
  }

  lemma PhasesOnCall(s: System, t: Step, l: LoopId)
    requires Enabled(s, t) && (t.Close? || t.RunNext?) && l < |s.loops|
    ensures |Apply(s, t).loops| == |s.loops|
    ensures var p := s.loops[l].phase;
      Apply(s, t).loops[l].phase ==
        if l != t.l then p
        else if t.Close? then p.(current := Inside(p.current.c, true))
        else p.(next := p.next + 1)
  {
    hide LoopHolds, Mentions, HandleClose, Call;
    var p := s.loops[t.l].phase;
    if t.Close? {
      CloseGrows(AtPhase(s, t.l, p.(current := Inside(p.current.c, true))), t.l, p.current.c);
    } else {
      CallGrows(AtPhase(s, t.l, p.(next := p.next + 1)), p.batch[p.next]);
    }
  }

  lemma {:induction false} HandlingRun(s: System, l: LoopId, steps: seq<Step>)
    requires IsRun(s, steps) && l < |s.loops| && s.loops[l].phase.Handling? && StartBatch(l) !in steps
    ensures var p, s', n := s.loops[l].phase, Run(s, steps), Count(steps, Dispatch(l));
      && l < |s'.loops| && s'.loops[l].phase.Handling?
      && n <= |p.active| && s'.loops[l].phase.active == p.active[n..]
      && (s'.loops[l].phase.current.Inside? ==>
            if n == 0 then p.current.Inside? && s'.loops[l].phase.current.c == p.current.c
            else s'.loops[l].phase.current.c == p.active[n - 1])
    decreases |steps|
  {
    hide Apply, Enabled;
    if steps == [] {
    } else {
      assert steps[0] in steps && forall t :: t in steps[1..] ==> t in steps;
      HandlingMoves(s, steps[0], l);
      HandlingRun(Apply(s, steps[0]), l, steps[1..]);
    }
  }

  /** Between two polls, a loop handles each connection that poll reported once, in the order of the report. */
  lemma HandledInOrder(s: System, l: LoopId, active: seq<ConnId>, steps: seq<Step>)
    requires Enabled(s, Poll(l, active)) && IsRun(Apply(s, Poll(l, active)), steps) && StartBatch(l) !in steps
    ensures var s', n := Run(Apply(s, Poll(l, active)), steps), Count(steps, Dispatch(l));
      && l < |s'.loops| && s'.loops[l].phase.Handling? && n <= |active|
      && s'.loops[l].phase.active == active[n..]
      && (s'.loops[l].phase.current.Inside? ==> 0 < n && s'.loops[l].phase.current.c == active[n - 1])
  {
    HandlingRun(Apply(s, Poll(l, active)), l, steps);
  }

  lemma {:induction false} BatchRun(s: System, l: LoopId, steps: seq<Step>)
    requires IsRun(s, steps) && l < |s.loops| && s.loops[l].phase.Running? && EndBatch(l) !in steps
    ensures var p, s' := s.loops[l].phase, Run(s, steps);
      && l < |s'.loops|
      && s'.loops[l].phase == Running(p.batch, p.next + Count(steps, RunNext(l)))
    decreases |steps|
  {
    hide Apply, Enabled;
    if steps == [] {
    } else {
      assert steps[0] in steps && forall t :: t in steps[1..] ==> t in steps;
      BatchMoves(s, steps[0], l);
      BatchRun(Apply(s, steps[0]), l, steps[1..]);
    }
  }

  lemma BatchMoves(s: System, t: Step, l: LoopId)
    requires Enabled(s, t) && l < |s.loops| && s.loops[l].phase.Running? && t != EndBatch(l)
    ensures |Apply(s, t).loops| == |s.loops|
    ensures var p := s.loops[l].phase;
      Apply(s, t).loops[l].phase == if t == RunNext(l) then p.(next := p.next + 1) else p
  {
    hide LoopHolds, Mentions, HandleClose, Call;
    if t.Close? || t.RunNext? {
      PhasesOnCall(s, t, l);
    }
  }

  /** A batch is what was queued when the loop took the queue, and is run from the front. */
  lemma BatchInOrder(s: System, l: LoopId, steps: seq<Step>)
    requires Enabled(s, StartBatch(l)) && IsRun(Apply(s, StartBatch(l)), steps) && EndBatch(l) !in steps
    ensures var s' := Run(Apply(s, StartBatch(l)), steps);
      l < |s'.loops| && s'.loops[l].phase == Running(s.loops[l].pending, Count(steps, RunNext(l)))
  {
    BatchRun(Apply(s, StartBatch(l)), l, steps);
  }
}
