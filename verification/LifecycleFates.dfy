/** What becomes of every connection (irono/net/TcpServer.cc, TcpConnection.cc), at every point that a run without a
    harmful send can reach: safety, one destruction for one close, and the order of states. */
module LifecycleFates {
  import opened ConnectionStates
  import opened Options
  import opened Lifecycle
  import opened LoopDriving
  import opened LateSends
  import opened LateSendHarm
  import opened LifecycleCalls

  // ---- safety ----

  lemma TameIsSafe(s: System)
    requires Tame(s)
    ensures Safe(s)
  {
    InvIsSafe(Clean(s));
    CleanIsSafe(s);
  }

  lemma CleanIsSafe(s: System)
    requires Safe(Clean(s))
    ensures Safe(s)
  {
    var r := Clean(s);
    forall c | 0 <= c < |s.conns|
      ensures s.conns[c].destroys <= s.conns[c].closes <= 1
      ensures !Alive(s, c) ==> s.conns[c].index == New && s.conns[c].destroys == 1
    {
      assert r.conns[c] == Cleaned(s.conns[c]);
      assert Alive(r, c) == Alive(s, c);
    }
    assert forall l: LoopId :: InHandler(s, l) ==> InHandler(r, l) && Alive(r, s.loops[l].phase.current.c);
    assert forall c :: Alive(r, c) == Alive(s, c);
  }

  /** A shutdown on another thread is the only step after which a destroyed connection does not read
      kDisconnected. */
  lemma SettledStays(s: System, t: Step)
    requires Tame(s) && Settled(s) && Enabled(s, t) && !Harmful(s, t)
    ensures Settled(Apply(s, t)) <==> !LateShutdown(s, t)
  {
    var s' := Apply(s, t);
    StepStaysTame(s, t);
    forall c | 0 <= c < |s'.conns|
      ensures s'.conns[c].destroys == 1 <==> Cleaned(s'.conns[c]).state == Disconnected
    {
      CleanShape(s', c);
    }
    if LateShutdown(s, t) {
      assert s.conns[t.c].destroys == 1 && s'.conns[t.c].state == Disconnecting;
    } else {
      forall c | 0 <= c < |s'.conns| && s'.conns[c].destroys == 1
        ensures s'.conns[c].state == Disconnected
      {
        DestroyedReads(s, t, c);
      }
    }
  }

  lemma DestroyedReads(s: System, t: Step, c: ConnId)
    requires Tame(s) && Settled(s) && Enabled(s, t) && !LateShutdown(s, t)
    requires c < |Apply(s, t).conns| && Apply(s, t).conns[c].destroys == 1
    ensures Apply(s, t).conns[c].state == Disconnected
  {
    hide Inv, LoopHolds, Mentions, Call, HandleClose;
    if c != Target(s, t) {
      NoOthersAppear(s, t, c);
      OthersStay(s, t, c);
    } else if t.RunNext? {
      RunNextReads(s, t.l);
    } else if t.Close? {
      CloseReads(s, t.l);
    } else {
      OtherTargetReads(s, t);
    }
  }

  lemma CloseReads(s: System, l: LoopId)
    requires Tame(s) && Enabled(s, Close(l))
    ensures GetConn(Apply(s, Close(l)), s.loops[l].phase.current.c).destroys == 0
  {
    CleanClose(s, l);
  }

  lemma RunNextReads(s: System, l: LoopId)
    requires Tame(s) && Enabled(s, RunNext(l))
    ensures var c, s' := NextFunctor(s, l).c, Apply(s, RunNext(l));
      GetConn(s', c).destroys == 1 ==> GetConn(s', c).state == Disconnected
  {
    var c := NextFunctor(s, l).c;
    NextIsDue(Clean(s), l);
    CleanShape(s, c);
    CleanGet(s, c);
  }

  lemma OtherTargetReads(s: System, t: Step)
    requires Settled(s) && Enabled(s, t) && !LateShutdown(s, t) && !t.RunNext? && !t.Close?
    requires Target(s, t) < |Apply(s, t).conns|
    ensures var conn := Apply(s, t).conns[Target(s, t)];
      conn.destroys == 1 ==> conn.state == Disconnected
  {
  }

  /** No step of the run is a cross-thread shutdown that writes after the destruction. */
  predicate Punctual(s: System, steps: seq<Step>)
    requires IsRun(s, steps)
    decreases |steps|
  {
    steps == [] || (!LateShutdown(s, steps[0]) && Punctual(Apply(s, steps[0]), steps[1..]))
  }

  lemma {:induction false} PunctualRunsStaySettled(s: System, steps: seq<Step>)
    requires Tame(s) && Settled(s) && IsRun(s, steps) && Spared(s, steps) && Punctual(s, steps)
    ensures Settled(Run(s, steps))
    decreases |steps|
  {
    hide Apply, Enabled, Tame, Harmful, Settled, LateShutdown;
    if steps == [] {
    } else {
      SettledStays(s, steps[0]);
      StepStaysTame(s, steps[0]);
      PunctualRunsStaySettled(Apply(s, steps[0]), steps[1..]);
    }
  }

  // ---- freed for good ----

  lemma TargetIsNotFreed(s: System, t: Step, c: ConnId)
    requires Tame(s) && Enabled(s, t) && c < |s.conns| && !Alive(s, c)
    ensures c != Target(s, t) && c != Bound(s, t)
  {
    TameIsSafe(s);
    if t.Close? || t.RunNext? {
      BoundIsAlive(s, t);
    } else if t.Drained? {
      assert InHandler(s, t.l);
    }
  }

  lemma NotTakenUp(s: System, t: Step, c: ConnId)
    requires Enabled(s, t) && c < |s.conns| && !Alive(s, c)
    ensures c !in Apply(s, t).table && c !in Apply(s, t).held
  {
    hide LoopHolds, Mentions, HandleClose, Call;
    if t.Close? || t.RunNext? {
      CallStepSpares(s, t);
    }
  }

  /** A freed connection is never resurrected, nor touched again. */
  lemma FreedStaysFreed(s: System, t: Step, c: ConnId)
    requires Tame(s) && Enabled(s, t) && c < |s.conns| && !Alive(s, c)
    ensures !Alive(Apply(s, t), c) && GetConn(Apply(s, t), c) == GetConn(s, c)
  {
    hide Apply, Enabled, Tame, LoopHolds;
    var s' := Apply(s, t);
    TargetIsNotFreed(s, t, c);
    NotTakenUp(s, t, c);
    OthersStay(s, t, c);
    LoopsStay(s, t);
    forall l | 0 <= l < |s.loops|
      ensures !LoopHolds(s'.loops[l], c)
    {
      assert !LoopHolds(s.loops[l], c);
      OnlyBoundIsQueued(s, t, c, l);
    }
  }

  // ---- the order of states ----

  lemma RunNextState(s: System, l: LoopId)
    requires Tame(s) && Enabled(s, RunNext(l))
    ensures var c := NextFunctor(s, l).c;
      LegalMove(GetConn(s, c).state, GetConn(Apply(s, RunNext(l)), c).state)
  {
    var c := NextFunctor(s, l).c;
    NextIsDue(Clean(s), l);
    CleanShape(s, c);
    CleanGet(s, c);
    assert FateOk(s, c);
  }

  lemma OtherTargetState(s: System, t: Step)
    requires StoppingOk(s) && Enabled(s, t) && !t.RunNext? && Target(s, t) < |s.conns|
    ensures var c := Target(s, t);
      LegalMove(GetConn(s, c).state, GetConn(Apply(s, t), c).state) <==> !LateShutdown(s, t)
  {
    hide LoopHolds, Mentions;
  }

  /** kConnecting, kConnected, perhaps kDisconnecting, kDisconnected: the only step that goes another
      way is the write of a shutdown on another thread that finds the connection destroyed. */
  lemma StatesMoveForward(s: System, t: Step, c: ConnId)
    requires Tame(s) && Enabled(s, t) && c < |s.conns|
    ensures LegalMove(GetConn(s, c).state, GetConn(Apply(s, t), c).state) <==> !(LateShutdown(s, t) && t.c == c)
    // and a shutdown does move it
    ensures ShutsDown(t, c) && GetConn(s, c).state == Connected ==> GetConn(Apply(s, t), c).state == Disconnecting
  {
    hide Apply, Enabled;
    if c != Target(s, t) {
      OthersStay(s, t, c);
    } else if t.RunNext? {
      RunNextState(s, t.l);
    } else {
      OtherTargetState(s, t);
      if ShutsDown(t, c) {
        OtherMoves(s, t);
      }
    }
  }

  /** Every step of the run is such a move, for every connection. */
  predicate MovesForward(s: System, steps: seq<Step>)
    requires IsRun(s, steps)
    decreases |steps|
  {
    steps == [] ||
    (&& (forall c :: 0 <= c < |s.conns| && !(LateShutdown(s, steps[0]) && steps[0].c == c) ==>
           LegalMove(GetConn(s, c).state, GetConn(Apply(s, steps[0]), c).state))
     && MovesForward(Apply(s, steps[0]), steps[1..]))
  }

  lemma {:induction false} RunsMoveForward(s: System, steps: seq<Step>)
    requires Tame(s) && IsRun(s, steps) && Spared(s, steps)
    ensures MovesForward(s, steps)
    decreases |steps|
  {
    hide Apply, Enabled, Tame, Harmful, LateShutdown, LegalMove;
    if steps == [] {
    } else {
      LateMeansWrite(s, steps[0]);
      forall c | 0 <= c < |s.conns|
        ensures LegalMove(GetConn(s, c).state, GetConn(Apply(s, steps[0]), c).state) <==>
          !(LateShutdown(s, steps[0]) && steps[0].c == c)
      {
        StatesMoveForward(s, steps[0], c);
      }
      StepStaysTame(s, steps[0]);
      RunsMoveForward(Apply(s, steps[0]), steps[1..]);
    }
  }

  lemma LateMeansWrite(s: System, t: Step)
    ensures LateShutdown(s, t) ==> t.ShutdownWrites?
  {
  }

  // ---- one destruction ----

  predicate Quiescent(s: System) {
    forall l :: 0 <= l < |s.loops| ==> s.loops[l] == Loop(Polling, [])
  }

  /** When all loops are back in poll with nothing queued, every connection that was closed has been
      destroyed, and freed unless user code still holds it. */
  lemma QuietMeansFreed(s: System, c: ConnId)
    requires Tame(s) && c < |s.conns| && s.conns[c].closes == 1 && Quiescent(s)
    ensures s.conns[c].destroys == 1 && (Alive(s, c) <==> c in s.held)
  {
    var r := Clean(s);
    CleanShape(s, c);
    CleanGet(s, c);
    if Due(StageIn(r, c), c).Some? {
      var f := Due(StageIn(r, c), c).value;
      DueIsQueued(r, f, Place(r, f));
      assert false;
    }
  }

  /** From any point, a loop left to itself comes to run the k-th of its functors. */
  lemma {:induction false} ComesToRun(s: System, l: LoopId, k: nat) returns (steps: seq<Step>)
    requires Tame(s) && l < |s.loops| && k < |Work(s.loops[l])|
    ensures IsRun(s, steps) && OnlyOwn(steps, l)
    ensures var s' := Run(s, steps);
      Tame(s') && Enabled(s', RunNext(l)) && NextFunctor(s', l) == Work(s.loops[l])[k]
    decreases k, Rank(s.loops[l])
  {
    hide Apply, Enabled, Tame, Work, Rank, Sound, IsRun, Run;
    var t := NextOwn(s, l);
    TameIsSound(s, l);
    OwnStepEnabled(s, l);
    if t.RunNext? && k == 0 {
      steps := [];
      NothingRun(s);
      NextIsFirst(s, l);
    } else {
      OwnIsHarmless(s, t, l);
      StepStaysTame(s, t);
      var s1 := Apply(s, t);
      var more;
      if t.RunNext? {
        NextIsRunNext(s, l);
        CallWork(s, l);
        more := ComesToRun(s1, l, k - 1);
      } else {
        OwnStepMovesOn(s, l);
        more := ComesToRun(s1, l, k);
      }
      Prepend(s, t, more);
      steps := [t] + more;
    }
  }

  lemma NothingRun(s: System)
    ensures IsRun(s, []) && Run(s, []) == s
  {
  }

  lemma NextIsRunNext(s: System, l: LoopId)
    requires l < |s.loops|
    ensures NextOwn(s, l).RunNext? ==> NextOwn(s, l) == RunNext(l)
  {
  }

  lemma NextIsFirst(s: System, l: LoopId)
    requires l < |s.loops| && NextOwn(s, l).RunNext?
    ensures Enabled(s, RunNext(l)) && Work(s.loops[l]) != [] && NextFunctor(s, l) == Work(s.loops[l])[0]
  {
    WorkPopped(s.loops[l]);
  }

  lemma TameIsSound(s: System, l: LoopId)
    requires Tame(s) && l < |s.loops|
    ensures Sound(s.loops[l])
  {
    assert PhaseOk(Clean(s), l);
  }

  lemma OwnIsHarmless(s: System, t: Step, l: LoopId)
    requires OwnStep(t, l)
    ensures !Harmful(s, t)
  {
  }

  /** From any point, the functor that is due for a connection can be run, and takes it to its next stage. */
  lemma DueIsRun(s: System, c: ConnId) returns (steps: seq<Step>)
    requires Tame(s) && c < |s.conns| && Due(StageIn(Clean(s), c), c).Some?
    ensures IsRun(s, steps) && NoLateSteps(steps)
    ensures var s', f := Run(s, steps), Due(StageIn(Clean(s), c), c).value;
      && Tame(s') && c < |s'.conns|
      && StageIn(Clean(s'), c) == if f.Establish? then Up else if f.Remove? then Destroying else Gone
  {
    hide Apply, Enabled, Tame, IsRun, Run, StageIn, Clean, Work, Due;
    var l, k := DueIsAhead(s, c);
    steps := ComesToRun(s, l, k);
    OwnIsNotLate(steps, l);
    var s1, t := Run(s, steps), RunNext(l);
    RunsDue(s1, l);
    NothingRun(Apply(s1, t));
    Prepend(s1, t, []);
    Concatenated(s, steps, [t] + []);
    steps := steps + ([t] + []);
  }

  lemma DueIsAhead(s: System, c: ConnId) returns (l: LoopId, k: nat)
    requires Tame(s) && c < |s.conns| && Due(StageIn(Clean(s), c), c).Some?
    ensures l < |s.loops| && k < |Work(s.loops[l])|
    ensures var f := Due(StageIn(Clean(s), c), c).value; f.c == c && Work(s.loops[l])[k] == f
  {
    var r := Clean(s);
    var f := Due(StageIn(r, c), c).value;
    l := Place(r, f);
    CleanShape(s, c);
    DueIsQueued(r, f, l);
    k :| 0 <= k < |Work(s.loops[l])| && Work(s.loops[l])[k] == f;
  }

  lemma RunsDue(s: System, l: LoopId)
    requires Tame(s) && Enabled(s, RunNext(l))
    ensures var f, s' := NextFunctor(s, l), Apply(s, RunNext(l));
      && Tame(s') && f.c < |s'.conns|
      && StageIn(Clean(s'), f.c) == if f.Establish? then Up else if f.Remove? then Destroying else Gone
  {
    CleanRunNext(s, l);
    OwnIsHarmless(s, RunNext(l), l);
    StepStaysTame(s, RunNext(l));
    hide Apply, Enabled, Tame;
    RunNextConn(Clean(s), l);
  }

  /** Progress: from every point, a closed connection can be brought to its one destruction by the loops alone. */
  lemma CloseEndsInDestruction(s: System, c: ConnId) returns (steps: seq<Step>)
    requires Tame(s) && c < |s.conns| && s.conns[c].closes == 1
    ensures IsRun(s, steps) && NoLateSteps(steps)
    ensures var s' := Run(s, steps);
      Tame(s') && c < |s'.conns| && s'.conns[c].destroys == 1
  {
    hide Apply, Enabled, Tame, IsRun, Run, Clean;
    ClosedStage(s, c);
    if StageIn(Clean(s), c) == Gone {
      steps := [];
      NothingRun(s);
    } else {
      steps := DueIsRun(s, c);
      var s1 := Run(s, steps);
      ClosedStage(s1, c);
      if StageIn(Clean(s1), c) == Destroying {
        var more := DueIsRun(s1, c);
        Concatenated(s, steps, more);
        steps := steps + more;
        ClosedStage(Run(s1, more), c);
      }
    }
  }

  lemma ClosedStage(s: System, c: ConnId)
    requires Tame(s) && c < |s.conns|
    ensures s.conns[c].closes == 1 ==> StageIn(Clean(s), c) in {Removing, Destroying, Gone}
    ensures StageIn(Clean(s), c) == Gone ==> s.conns[c].destroys == 1
  {
    CleanShape(s, c);
    CleanGet(s, c);
  }

  // ---- all of it, from the start ----

  lemma StartIsSettled(n: nat)
    ensures Settled(Start(n))
  {
  }

  /** Safety over all interleavings, for any number of loops and connections, as long as no send is
      harmful: no assert fails and nothing is freed too early; every step moves every state forward, but for
      the late write of a shutdown on another thread; and once the loops are idle, every closed connection has
      been destroyed once and is freed unless user code holds it. If no shutdown was late, a connection reads
      kDisconnected exactly from its destruction on. */
  lemma LifecycleSafety(n: nat, steps: seq<Step>)
    requires 0 < n && IsRun(Start(n), steps) && Spared(Start(n), steps)
    ensures Safe(Run(Start(n), steps))
    ensures Punctual(Start(n), steps) ==> Settled(Run(Start(n), steps))
    ensures MovesForward(Start(n), steps)
    ensures var s := Run(Start(n), steps);
      Quiescent(s) ==> forall c :: 0 <= c < |s.conns| && s.conns[c].closes == 1 ==>
        s.conns[c].destroys == 1 && (Alive(s, c) <==> c in s.held)
  {
    var s := Start(n);
    StartIsOk(n);
    InvIsTame(s);
    hide Tame, Safe, Settled, Quiescent, IsRun, Run, Spared, Alive;
    SparedRunsStayTame(s, steps);
    TameIsSafe(Run(s, steps));
    StartIsSettled(n);
    if Punctual(s, steps) {
      PunctualRunsStaySettled(s, steps);
    }
    RunsMoveForward(s, steps);
    var s' := Run(s, steps);
    if Quiescent(s') {
      forall c | 0 <= c < |s'.conns| && s'.conns[c].closes == 1
        ensures s'.conns[c].destroys == 1 && (Alive(s', c) <==> c in s'.held)
      {
        QuietMeansFreed(s', c);
      }
    }
  }
}
