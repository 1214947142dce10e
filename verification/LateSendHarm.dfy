/** Why a harmful late send is harmful: the connection is polled and closed a second time, and the second
    removal finds it gone (irono/net/TcpServer.cc, removeConnectionInLoop). */
module LateSendHarm {
  import opened ConnectionStates
  import opened Lifecycle
  import opened LoopDriving
  import opened LateSends

  // ---- a harmful send has a failing future ----

  lemma CallEffects(s: System, l: LoopId)
    requires Enabled(s, RunNext(l)) && !Apply(s, RunNext(l)).failed
    ensures var f, s' := NextFunctor(s, l), Apply(s, RunNext(l));
      && !s.failed && |s'.loops| == |s.loops| && |s'.conns| == |s.conns|
      && s'.table == (if f.Remove? then s.table - {f.c} else s.table)
      && (f.Remove? ==> f.c in s.table)
      && (forall c :: c != f.c ==> GetConn(s', c) == GetConn(s, c))
      && Sound(s'.loops[l])
  {
    hide LoopHolds, Mentions;
  }

  lemma CallWork(s: System, l: LoopId)
    requires Enabled(s, RunNext(l)) && !Apply(s, RunNext(l)).failed
    ensures var f, s' := NextFunctor(s, l), Apply(s, RunNext(l));
      && |s'.loops| == |s.loops|
      && Work(s.loops[l]) == [f] + Work(s.loops[l])[1..]
      && Work(s'.loops[l]) == Work(s.loops[l])[1..]
                              + if f.Remove? && GetConn(s, f.c).home == l then [Destroy(f.c)] else []
  {
    hide LoopHolds, Mentions;
    var f, p := NextFunctor(s, l), s.loops[l].phase;
    WorkPopped(s.loops[l]);
    var s1 := AtPhase(s, l, p.(next := p.next + 1));
    assert Work(s1.loops[l]) == Work(s.loops[l])[1..];
    WorkQueued(s1.loops[l], Destroy(f.c));
    assert Work(s1.loops[l]) + [] == Work(s1.loops[l]);
  }

  /** Erasures leave a destruction behind, everything else nothing. */
  function Weight(work: seq<Functor>): nat {
    if work == [] then 0 else (if work[0].Remove? then 2 else 1) + Weight(work[1..])
  }

  lemma {:induction false} WeightAppend(a: seq<Functor>, f: Functor)
    ensures Weight(a + [f]) == Weight(a) + if f.Remove? then 2 else 1
    decreases |a|
  {
    if a == [] {
      assert [f][1..] == [];
      assert a + [f] == [f];
    } else {
      WeightAppend(a[1..], f);
      assert (a + [f])[1..] == a[1..] + [f];
    }
  }

  /** How often the connection is asked to be erased, counting an erasure that already happened. */
  function Erasures(s: System, c: ConnId): nat
    requires 0 < |s.loops|
  {
    multiset(Work(s.loops[0]))[Remove(c)] + if c in s.table then 0 else 1
  }

  lemma WorkShrinks(work: seq<Functor>, tail: seq<Functor>, c: ConnId)
    requires work != [] && (tail == [] || (work[0].Remove? && tail == [Destroy(work[0].c)]))
    ensures multiset(work[1..] + tail)[Remove(c)] + (if work[0] == Remove(c) then 1 else 0) == multiset(work)[Remove(c)]
    ensures Weight(work[1..] + tail) < Weight(work)
  {
    var rest := work[1..];
    assert work == [work[0]] + rest;
    assert multiset(work) == multiset{work[0]} + multiset(rest);
    assert multiset(rest + tail) == multiset(rest) + multiset(tail);
    if tail == [] {
      assert rest + tail == rest;
    } else {
      WeightAppend(rest, tail[0]);
    }
  }

  function Tail(s: System, f: Functor): seq<Functor> {
    if f.Remove? && GetConn(s, f.c).home == 0 then [Destroy(f.c)] else []
  }

  lemma SameErasures(s: System, s': System, f: Functor, c: ConnId)
    requires 0 < |s.loops| == |s'.loops| && Work(s.loops[0]) != [] && Work(s.loops[0])[0] == f
    requires Work(s'.loops[0]) == Work(s.loops[0])[1..] + Tail(s, f)
    requires s'.table == (if f.Remove? then s.table - {f.c} else s.table) && (f.Remove? ==> f.c in s.table)
    ensures Erasures(s', c) == Erasures(s, c)
    ensures Weight(Work(s'.loops[0])) < Weight(Work(s.loops[0]))
  {
    hide Work, Weight;
    WorkShrinks(Work(s.loops[0]), Tail(s, f), c);
  }

  lemma RunNextErasures(s: System, c: ConnId)
    requires Enabled(s, RunNext(0)) && !Apply(s, RunNext(0)).failed
    ensures |Apply(s, RunNext(0)).loops| == |s.loops| && Sound(Apply(s, RunNext(0)).loops[0])
    ensures Erasures(Apply(s, RunNext(0)), c) == Erasures(s, c)
    ensures Weight(Work(Apply(s, RunNext(0)).loops[0])) < Weight(Work(s.loops[0]))
  {
    hide Apply, Work, Sound, Weight, Erasures;
    CallEffects(s, 0);
    CallWork(s, 0);
    SameErasures(s, Apply(s, RunNext(0)), NextFunctor(s, 0), c);
  }

  lemma WorkToErase(s: System, c: ConnId)
    requires 0 < |s.loops| && Erasures(s, c) >= 2
    ensures Work(s.loops[0]) != []
  {
  }

  /** Asked to erase a connection twice, the base loop will fail its assert. */
  lemma {:induction false} ErasedTwiceFails(s: System, c: ConnId) returns (steps: seq<Step>)
    requires 0 < |s.loops| && Sound(s.loops[0]) && (s.failed || Erasures(s, c) >= 2)
    ensures IsRun(s, steps) && OnlyOwn(steps, 0) && Run(s, steps).failed
    decreases Weight(Work(s.loops[0])), Rank(s.loops[0])
  {
    hide Apply, Enabled, Work, Sound, Rank;
    if s.failed {
      steps := [];
    } else {
      var t := NextOwn(s, 0);
      OwnStepEnabled(s, 0);
      WorkToErase(s, c);
      var s1 := Apply(s, t);
      var more;
      if s1.failed {
        more := [];
      } else if t.RunNext? {
        RunNextErasures(s, c);
        more := ErasedTwiceFails(s1, c);
      } else {
        OwnStepMovesOn(s, 0);
        more := ErasedTwiceFails(s1, c);
      }
      Prepend(s, t, more);
      steps := [t] + more;
    }
  }

  /** Other loops are as they were, except for what has been queued on them. */
  predicate Untroubled(s: System, s': System, l: LoopId) {
    && |s'.loops| == |s.loops|
    && forall k :: 0 <= k < |s.loops| && k != l ==>
      s'.loops[k].phase == s.loops[k].phase && s.loops[k].pending <= s'.loops[k].pending
  }

  predicate SameFor(s: System, s': System, c: ConnId) {
    && |s'.conns| == |s.conns| && GetConn(s', c) == GetConn(s, c)
    && (c in s'.table <==> c in s.table)
  }

  lemma CallUntroubled(s: System, l: LoopId)
    requires Enabled(s, RunNext(l))
    ensures Untroubled(s, Apply(s, RunNext(l)), l) && Sound(Apply(s, RunNext(l)).loops[l])
    ensures Ahead(s.loops[l]) == [NextFunctor(s, l)] + Ahead(Apply(s, RunNext(l)).loops[l])
    ensures Apply(s, RunNext(l)).loops[l].phase == s.loops[l].phase.(next := s.loops[l].phase.next + 1)
  {
    hide Call;
    var p := s.loops[l].phase;
    var s1 := AtPhase(s, l, p.(next := p.next + 1));
    CallGrows(s1, p.batch[p.next]);
    assert p.batch[p.next..] == [p.batch[p.next]] + p.batch[p.next + 1..];
  }

  lemma OwnStepAhead(s: System, l: LoopId)
    requires l < |s.loops| && Sound(s.loops[l]) && !s.loops[l].phase.Polling? && !NextOwn(s, l).RunNext?
    ensures Enabled(s, NextOwn(s, l))
    ensures var s' := Apply(s, NextOwn(s, l));
      && Untroubled(s, s', l) && s'.conns == s.conns && s'.table == s.table && s'.failed == s.failed
      && Sound(s'.loops[l])
      && (s'.loops[l].phase.Polling? || Ahead(s'.loops[l]) == Ahead(s.loops[l]))
      && (s'.loops[l].phase.Polling? || ToPoll(s'.loops[l]) < ToPoll(s.loops[l]))
  {
  }

  /** Steps to the next poll, apart from the functors in between. */
  function ToPoll(loop: Loop): nat {
    match loop.phase
    case Polling => 0
    case Handling(active, current) => 2 + 2 * |active| + if current.Inside? then 1 else 0
    case Running(_, _) => 1
  }

  /** A step of the loop's own, on its way to poll: it leaves the connection alone. */
  lemma OwnStepToPoll(s: System, l: LoopId, c: ConnId)
    requires l < |s.loops| && Sound(s.loops[l]) && !s.loops[l].phase.Polling?
    requires !s.failed && forall f :: f in Ahead(s.loops[l]) ==> f.c != c
    ensures Enabled(s, NextOwn(s, l)) && OwnStep(NextOwn(s, l), l)
    ensures var s' := Apply(s, NextOwn(s, l));
      !s'.failed ==>
        && Untroubled(s, s', l) && SameFor(s, s', c) && Sound(s'.loops[l])
        && (s'.loops[l].phase.Polling? || CloserToPoll(s.loops[l], s'.loops[l]))
  {
    hide Apply, Enabled, Sound, Untroubled;
    OwnStepEnabled(s, l);
    if NextOwn(s, l).RunNext? {
      CallUntroubled(s, l);
      if !Apply(s, NextOwn(s, l)).failed {
        CallEffects(s, l);
      }
    } else {
      OwnStepAhead(s, l);
    }
  }

  predicate CloserToPoll(loop: Loop, loop': Loop) {
    || (Ahead(loop) != [] && Ahead(loop') == Ahead(loop)[1..])
    || (Ahead(loop') == Ahead(loop) && ToPoll(loop') < ToPoll(loop))
  }

  lemma Closer(loop: Loop, loop': Loop, c: ConnId)
    requires CloserToPoll(loop, loop')
    ensures |Ahead(loop')| < |Ahead(loop)| || (|Ahead(loop')| == |Ahead(loop)| && ToPoll(loop') < ToPoll(loop))
    ensures (forall f :: f in Ahead(loop) ==> f.c != c) ==> forall f :: f in Ahead(loop') ==> f.c != c
  {
    hide Ahead, ToPoll;
  }

  lemma UntroubledSameTrans(s: System, s1: System, s2: System, l: LoopId, c: ConnId)
    requires Untroubled(s, s1, l) && SameFor(s, s1, c) && Untroubled(s1, s2, l) && SameFor(s1, s2, c)
    ensures Untroubled(s, s2, l) && SameFor(s, s2, c)
  {
    hide GetConn;
  }

  /** The loop gets to poll without running anything for the connection. */
  lemma {:induction false} GetsToPoll(s: System, l: LoopId, c: ConnId) returns (steps: seq<Step>)
    requires l < |s.loops| && Sound(s.loops[l]) && forall f :: f in Ahead(s.loops[l]) ==> f.c != c
    ensures IsRun(s, steps) && OnlyOwn(steps, l)
    ensures var s' := Run(s, steps);
      s'.failed || (Untroubled(s, s', l) && SameFor(s, s', c) && s'.loops[l].phase.Polling?)
    decreases |Ahead(s.loops[l])|, ToPoll(s.loops[l])
  {
    hide Apply, Enabled, Sound, Ahead, ToPoll, NextOwn, OwnStep, CloserToPoll, GetConn;
    if s.failed || s.loops[l].phase.Polling? {
      steps := [];
    } else {
      var t := NextOwn(s, l);
      OwnStepToPoll(s, l, c);
      var s1, more := Apply(s, t), [];
      if !s1.failed && !s1.loops[l].phase.Polling? {
        Closer(s.loops[l], s1.loops[l], c);
        more := GetsToPoll(s1, l, c);
        if !Run(s1, more).failed {
          UntroubledSameTrans(s, s1, Run(s1, more), l, c);
        }
      }
      Prepend(s, t, more);
      steps := [t] + more;
    }
  }

  // ---- the exact condition ----

  /** What the queues hold of the connection of a late send. */
  lemma LateSendQueues(s: System, t: Step)
    requires Tame(s) && Enabled(s, t) && SendsToClosed(s, t)
    ensures t.c < |s.conns| && t.l < |s.loops| && GetConn(s, t.c).home == t.l && Closing(GetConn(s, t.c))
    ensures t.c in s.table ==> t.l != 0 && Remove(t.c) in Work(s.loops[0])
    ensures forall k, f :: 0 <= k < |s.loops| && f in Work(s.loops[k]) && f.c == t.c ==>
      f == (if t.c in s.table then Remove(t.c) else Destroy(t.c)) && (f.Remove? ==> k == 0)
    ensures forall k :: 0 <= k < |s.loops| ==> Sound(s.loops[k])
  {
    var r, c := Clean(s), t.c;
    CleanShape(s, c);
    CleanGet(s, c);
    assert FateOk(s, c);
    if c in s.table {
      DueIsQueued(r, Remove(c), 0);
    }
    forall k, f | 0 <= k < |s.loops| && f in Work(s.loops[k]) && f.c == c
      ensures f == (if c in s.table then Remove(c) else Destroy(c)) && (f.Remove? ==> k == 0)
    {
      QueuedIsDue(r, f, k);
    }
    forall k | 0 <= k < |s.loops|
      ensures Sound(s.loops[k])
    {
      assert PhaseOk(r, k);
    }
  }

  lemma QueuedIsDue(s: System, f: Functor, l: LoopId)
    requires Inv(s) && l < |s.loops| && f in Work(s.loops[l])
    ensures IsDue(s, f, l)
  {
    assert QueueOk(s, l);
  }

  lemma DueIsQueued(s: System, f: Functor, l: LoopId)
    requires Inv(s) && l < |s.loops| && IsDue(s, f, l)
    ensures f in Work(s.loops[l])
  {
    assert QueueOk(s, l);
  }

  lemma AheadIsWork(loop: Loop, f: Functor)
    requires f in Ahead(loop)
    ensures f in Work(loop)
  {
  }

  lemma WorkGrows(before: Loop, after: Loop, f: Functor)
    requires after.phase == before.phase && before.pending <= after.pending && f in Work(before)
    ensures f in Work(after)
  {
    assert after.pending == before.pending + after.pending[|before.pending|..];
  }

  /** Polled, dispatched and closed once more: the base loop gets another removal, or fails at once. */
  lemma ClosedAgain(s: System, l: LoopId, c: ConnId) returns (steps: seq<Step>)
    requires l < |s.loops| && s.loops[l].phase.Polling? && !s.failed && c < |s.conns|
    requires s.conns[c].home == l && s.conns[c].index == Added
    requires l == 0 ==> c !in s.table
    ensures IsRun(s, steps) && NoLateSteps(steps)
    ensures var s' := Run(s, steps);
      && |s'.loops| == |s.loops| && s'.table <= s.table
      && (s'.failed || (l != 0 && s'.loops[0] == s.loops[0].(pending := s.loops[0].pending + [Remove(c)])))
  {
    var poll, dispatch, close := Poll(l, [c]), Dispatch(l), Close(l);
    var s1 := Apply(s, poll);
    var s2 := Apply(s1, dispatch);
    var s3 := Apply(s2, close);
    assert IsRun(s3, []);
    Prepend(s2, close, []);
    Prepend(s1, dispatch, [close] + []);
    Prepend(s, poll, [dispatch] + ([close] + []));
    steps := [poll] + ([dispatch] + ([close] + []));
  }

  lemma TwoErasures(s: System, s': System, c: ConnId)
    requires 0 < |s.loops| == |s'.loops| && s'.table <= s.table
    requires s'.loops[0] == s.loops[0].(pending := s.loops[0].pending + [Remove(c)])
    requires c in s.table ==> Remove(c) in Work(s.loops[0])
    ensures Erasures(s', c) >= 2
  {
    WorkQueued(s.loops[0], Remove(c));
    assert multiset(Work(s'.loops[0])) == multiset(Work(s.loops[0])) + multiset{Remove(c)};
    assert c in s.table ==> multiset(Work(s.loops[0]))[Remove(c)] >= 1;
  }

  lemma OwnIsNotLate(steps: seq<Step>, l: LoopId)
    requires OnlyOwn(steps, l)
    ensures NoLateSteps(steps)
  {
  }

  /** From the poll after the late send: failure. */
  lemma PolledAgainFails(s: System, l: LoopId, c: ConnId) returns (steps: seq<Step>)
    requires l < |s.loops| && s.loops[l].phase.Polling? && !s.failed && c < |s.conns|
    requires s.conns[c].home == l && s.conns[c].index == Added && Sound(s.loops[0])
    requires c in s.table ==> l != 0 && Remove(c) in Work(s.loops[0])
    ensures IsRun(s, steps) && NoLateSteps(steps) && Run(s, steps).failed
  {
    hide Apply, Enabled, IsRun, Run;
    steps := ClosedAgain(s, l, c);
    var s1 := Run(s, steps);
    if !s1.failed {
      TwoErasures(s, s1, c);
      var more := ErasedTwiceFails(s1, c);
      OwnIsNotLate(more, 0);
      Concatenated(s, steps, more);
      steps := steps + more;
    }
  }

  lemma HarmfulSendFails(s: System, t: Step) returns (steps: seq<Step>)
    requires Tame(s) && Enabled(s, t) && Harmful(s, t)
    ensures IsRun(Apply(s, t), steps) && NoLateSteps(steps) && Run(Apply(s, t), steps).failed
  {
    var l, c, s1 := t.l, t.c, Apply(s, t);
    LateSendQueues(s, t);
    Rewatched(s, t);
    hide Apply, Enabled, IsRun, Run, Tame;
    forall f | f in Ahead(s1.loops[l])
      ensures f.c != c
    {
      AheadIsWork(s.loops[l], f);
    }
    steps := GetsToPoll(s1, l, c);
    OwnIsNotLate(steps, l);
    var s2 := Run(s1, steps);
    if !s2.failed {
      if l != 0 {
        assert s2.loops[0].phase == s1.loops[0].phase;
      }
      if c in s2.table {
        WorkGrows(s1.loops[0], s2.loops[0], Remove(c));
      }
      var more := PolledAgainFails(s2, l, c);
      Concatenated(s1, steps, more);
      steps := steps + more;
    }
  }

  lemma Rewatched(s: System, t: Step)
    requires Enabled(s, t) && SendsToClosed(s, t) && FateOk(s, t.c) && Closing(GetConn(s, t.c))
    ensures var s' := Apply(s, t);
      && s'.loops == s.loops && s'.table == s.table && s'.failed == s.failed && |s'.conns| == |s.conns|
      && GetConn(s', t.c) == GetConn(s, t.c).(writing := true, index := Added)
  {
  }

  /** No step of the run is a harmful send. */
  predicate Spared(s: System, steps: seq<Step>)
    requires IsRun(s, steps)
    decreases |steps|
  {
    steps == [] || (!Harmful(s, steps[0]) && Spared(Apply(s, steps[0]), steps[1..]))
  }

  lemma {:induction false} NoLateStepsSpare(s: System, steps: seq<Step>)
    requires IsRun(s, steps) && NoLateSteps(steps)
    ensures Spared(s, steps)
    decreases |steps|
  {
    hide Apply, Enabled;
    if steps == [] {
    } else {
      assert steps[0] in steps && forall t :: t in steps[1..] ==> t in steps;
      NoLateStepsSpare(Apply(s, steps[0]), steps[1..]);
    }
  }

  lemma {:induction false} SparedRunsStayTame(s: System, steps: seq<Step>)
    requires Tame(s) && IsRun(s, steps) && Spared(s, steps)
    ensures Tame(Run(s, steps)) && !Run(s, steps).failed
    decreases |steps|
  {
    hide Apply, Enabled, Tame, Harmful;
    if steps == [] {
      NotFailedIfTame(s);
    } else {
      StepStaysTame(s, steps[0]);
      SparedRunsStayTame(Apply(s, steps[0]), steps[1..]);
    }
  }

  lemma NotFailedIfTame(s: System)
    requires Tame(s)
    ensures !s.failed
  {
    NotFailed(s);
  }

  /** Some continuation, without any further harmful send, fails an assert. */
  ghost predicate CanFail(s: System) {
    exists steps :: IsRun(s, steps) && Spared(s, steps) && Run(s, steps).failed
  }

  /** The exact condition, at every point of the protocol: after a step some continuation fails an
      assert if and only if the step is a harmful send. */
  lemma FailsIffHarmful(s: System, t: Step)
    requires Tame(s) && Enabled(s, t)
    ensures CanFail(Apply(s, t)) <==> Harmful(s, t)
  {
    hide Apply, Enabled, Tame, Harmful;
    var s' := Apply(s, t);
    if Harmful(s, t) {
      var steps := HarmfulSendFails(s, t);
      NoLateStepsSpare(s', steps);
    } else {
      StepStaysTame(s, t);
      forall steps | IsRun(s', steps) && Spared(s', steps)
        ensures !Run(s', steps).failed
      {
        SparedRunsStayTame(s', steps);
      }
    }
  }
}
