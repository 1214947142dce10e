/** What becomes of sends that reach a connection after its close (irono/net/TcpConnection.cc, sendInLoop):
    they register its channel again. Some of them do no harm, because the connection is destroyed before
    its loop polls again. This module says exactly which, and proves the safety of all other runs. */
module LateSends {
  import opened ConnectionStates
  import opened Lifecycle

  /** What the loop is sure to run before it polls again. */
  function Ahead(loop: Loop): seq<Functor> {
    match loop.phase
    case Polling => []
    case Handling(_, _) => loop.pending
    case Running(batch, next) => if next <= |batch| then batch[next..] else []
  }

  predicate Doomed(s: System, c: ConnId) {
    var home := GetConn(s, c).home;
    home < |s.loops| && Destroy(c) in Ahead(s.loops[home])
  }

  /** The send registers a closed channel again, and the connection lives to be polled. */
  predicate Harmful(s: System, t: Step) {
    SendsToClosed(s, t) && !Doomed(s, t.c)
  }

  // ---- the invariant that tolerates the harmless ones ----

  /** A connection as if no late send or shutdown had reached it. */
  function Cleaned(conn: Conn): Conn {
    if conn.destroys > 0 then conn.(state := Disconnected)
    else if conn.closes > 0 then conn.(writing := false, index := Deleted)
    else conn
  }

  function Clean(s: System): System {
    s.(conns := seq(|s.conns|, i requires 0 <= i < |s.conns| => Cleaned(s.conns[i])), stopping := {})
  }

  predicate Closing(conn: Conn) {
    conn.closes > 0 && conn.destroys == 0
  }

  predicate FateOk(s: System, c: ConnId) {
    var conn := GetConn(s, c);
    && (Closing(conn) ==>
          && !conn.reading
          && (conn.index == Deleted || (conn.index == Added && Doomed(s, c)))
          && (conn.writing <==> conn.index == Added))
    && (conn.destroys > 0 ==> conn.state == Disconnected || conn.state == Disconnecting)
  }

  ghost predicate Tame(s: System) {
    Inv(Clean(s)) && StoppingOk(s) && forall c :: 0 <= c < |s.conns| ==> FateOk(s, c)
  }

  lemma CleanGet(s: System, c: ConnId)
    ensures GetConn(Clean(s), c) == Cleaned(GetConn(s, c))
  {
  }

  lemma CleanSet(s: System, c: ConnId, conn: Conn)
    ensures Clean(SetConn(s, c, conn)) == SetConn(Clean(s), c, Cleaned(conn))
  {
    if c < |s.conns| {
      assert Clean(SetConn(s, c, conn)).conns == SetConn(Clean(s), c, Cleaned(conn)).conns;
    }
  }

  /** What the invariant of the cleaned system says of one connection. */
  lemma CleanShape(s: System, c: ConnId)
    requires Inv(Clean(s)) && c < |s.conns|
    ensures ShapeOk(Cleaned(s.conns[c]), c in s.table) && s.conns[c].home < |s.loops|
    ensures s.conns[c].destroys <= s.conns[c].closes <= 1
  {
    assert Clean(s).conns[c] == Cleaned(s.conns[c]);
    assert ShapeOk(Clean(s).conns[c], c in Clean(s).table);
  }

  lemma InvIsTame(s: System)
    requires Inv(s)
    ensures Tame(s)
  {
    forall c | 0 <= c < |s.conns|
      ensures Cleaned(s.conns[c]) == s.conns[c] && FateOk(s, c)
    {
      assert ShapeOk(s.conns[c], c in s.table);
    }
    assert Clean(s).conns == s.conns;
    assert Clean(s) == s.(stopping := {});
    CleanShapesOk(s);
  }

  lemma CleanShapesOk(s: System)
    requires Inv(s)
    ensures Inv(s.(stopping := {}))
  {
    var s' := s.(stopping := {});
    assert ShapesOk(s');
    forall l | 0 <= l < |s.loops|
      ensures QueueOk(s', l) && PhaseOk(s', l)
    {
      assert QueueOk(s, l) && PhaseOk(s, l);
      assert forall f :: IsDue(s', f, l) <==> IsDue(s, f, l);
      assert forall c :: OnLoop(s', c, l) == OnLoop(s, c, l) && StageIn(s', c) == StageIn(s, c);
    }
  }

  // ---- what is ahead of a poll stays ahead ----

  lemma AheadGrows(before: seq<Loop>, after: seq<Loop>, posted: Functor, l: LoopId, f: Functor)
    requires Grown(before, after, posted) && l < |before| && f in Ahead(before[l])
    ensures f in Ahead(after[l])
  {
  }

  lemma AheadOnClose(s: System, t: Step, l: LoopId, f: Functor)
    requires Enabled(s, t) && t.Close? && l < |s.loops| && f in Ahead(s.loops[l])
    ensures |Apply(s, t).loops| == |s.loops| && f in Ahead(Apply(s, t).loops[l])
  {
    hide HandleClose;
    var p := s.loops[t.l].phase;
    var s1 := AtPhase(s, t.l, p.(current := Inside(p.current.c, true)));
    CloseGrows(s1, t.l, p.current.c);
    AheadGrows(s1.loops, Apply(s, t).loops, if t.l == 0 then Destroy(p.current.c) else Remove(p.current.c), l, f);
  }

  lemma AheadOnCall(s: System, t: Step, l: LoopId, f: Functor)
    requires Enabled(s, t) && t.RunNext? && l < |s.loops| && f in Ahead(s.loops[l])
    requires t.l == l ==> NextFunctor(s, l) != f
    ensures |Apply(s, t).loops| == |s.loops| && f in Ahead(Apply(s, t).loops[l])
  {
    hide Call;
    var p := s.loops[t.l].phase;
    var s1 := AtPhase(s, t.l, p.(next := p.next + 1));
    assert p.batch[p.next..] == [p.batch[p.next]] + p.batch[p.next + 1..];
    CallGrows(s1, p.batch[p.next]);
    AheadGrows(s1.loops, Apply(s, t).loops, Destroy(p.batch[p.next].c), l, f);
  }

  lemma AheadStays(s: System, t: Step, l: LoopId, f: Functor)
    requires Enabled(s, t) && l < |s.loops| && f in Ahead(s.loops[l])
    requires t == RunNext(l) ==> NextFunctor(s, l) != f
    ensures |Apply(s, t).loops| == |s.loops| && f in Ahead(Apply(s, t).loops[l])
  {
    if t.Close? {
      AheadOnClose(s, t, l, f);
    } else if t.RunNext? {
      AheadOnCall(s, t, l, f);
    } else {
      hide LoopHolds, Mentions, HandleClose, Call;
    }
  }

  // ---- the cleaned system takes the same step, or none ----

  /** The step of a late send, or the handling of what it left. */
  predicate OnClosing(s: System, t: Step)
    requires Enabled(s, t)
  {
    || (t.SendBlocked? && Closing(GetConn(s, t.c)))
    || (t.Drained? && Closing(GetConn(s, s.loops[t.l].phase.current.c)))
  }

  lemma OnClosingIsHidden(s: System, t: Step)
    requires Tame(s) && Enabled(s, t) && OnClosing(s, t)
    ensures Clean(Apply(s, t)) == Clean(s)
  {
    var c := if t.SendBlocked? then t.c else s.loops[t.l].phase.current.c;
    assert FateOk(s, c);
    assert Clean(Apply(s, t)).conns == Clean(s).conns;
  }

  predicate SetsState(t: Step) {
    t.Shutdown? || t.ShutdownReads? || t.ShutdownWrites?
  }

  lemma CleanShutdown(s: System, t: Step)
    requires Tame(s) && Enabled(s, t) && SetsState(t)
    ensures Inv(Clean(Apply(s, t)))
  {
    var s', r := Apply(s, t), Clean(s);
    var r' := Clean(s');
    CleanShape(s, t.c);
    CleanGet(s, t.c);
    CleanGet(s', t.c);
    if r'.conns == r.conns {
      assert r' == r;
    } else {
      CleanSet(s, t.c, GetConn(s, t.c).(state := Disconnecting));
      assert r' == SetConn(r, t.c, GetConn(r', t.c));
      ConnStepKeepsInv(r, r', t.c);
    }
  }

  lemma CleanPhases(s: System, t: Step)
    requires Tame(s) && Enabled(s, t) && MovesOn(t) && !SetsState(t)
    ensures Enabled(Clean(s), t) && Clean(Apply(s, t)) == Apply(Clean(s), t)
  {
    assert Clean(s).loops == s.loops && |Clean(s).conns| == |s.conns|;
    if t.Poll? {
      forall i | 0 <= i < |t.active|
        ensures Clean(s).conns[t.active[i]].home == t.l && Clean(s).conns[t.active[i]].index == Added
      {
        CleanShape(s, t.active[i]);
        assert FateOk(s, t.active[i]);
      }
    }
    assert Clean(Apply(s, t)).conns == Apply(Clean(s), t).conns;
  }

  lemma CleanClose(s: System, l: LoopId)
    requires Tame(s) && Enabled(s, Close(l))
    ensures Enabled(Clean(s), Close(l)) && Clean(Apply(s, Close(l))) == Apply(Clean(s), Close(l))
    ensures s.loops[l].phase.current.c < |s.conns|
    ensures !Closing(GetConn(s, s.loops[l].phase.current.c)) && GetConn(s, s.loops[l].phase.current.c).destroys == 0
  {
    var c := s.loops[l].phase.current.c;
    assert PhaseOk(Clean(s), l);
    CleanShape(s, c);
    CleanGet(s, c);
    var conn := DisabledAll(GetConn(s, c)).(closes := GetConn(s, c).closes + 1);
    assert Cleaned(conn) == conn;
    CleanSet(s, c, conn);
    assert Clean(Apply(s, Close(l))).conns == Apply(Clean(s), Close(l)).conns;
  }

  lemma CleanRunNext(s: System, l: LoopId)
    requires Tame(s) && Enabled(s, RunNext(l))
    ensures Enabled(Clean(s), RunNext(l)) && Clean(Apply(s, RunNext(l))) == Apply(Clean(s), RunNext(l))
  {
    hide LoopHolds, Mentions;
    var f := NextFunctor(s, l);
    NextIsDue(Clean(s), l);
    CleanShape(s, f.c);
    CleanGet(s, f.c);
    assert FateOk(s, f.c);
    assert Clean(Apply(s, RunNext(l))).conns == Apply(Clean(s), RunNext(l)).conns;
  }

  lemma CleanAccept(s: System, t: Step)
    requires Tame(s) && Enabled(s, t) && t.Accept?
    ensures Enabled(Clean(s), t) && Clean(Apply(s, t)) == Apply(Clean(s), t)
  {
    var a, b := Clean(Apply(s, t)).conns, Apply(Clean(s), t).conns;
    forall i | 0 <= i < |s.conns| + 1
      ensures |a| == |b| == |s.conns| + 1 && a[i] == b[i]
    {
    }
    assert a == b;
  }

  lemma CleanChange(s: System, t: Step)
    requires Tame(s) && Enabled(s, t) && !OnClosing(s, t) && (t.SendBlocked? || t.Drained?)
    ensures Enabled(Clean(s), t) && Clean(Apply(s, t)) == Apply(Clean(s), t)
    ensures !SendsToClosed(Clean(s), t)
  {
    var c := if t.SendBlocked? then t.c else s.loops[t.l].phase.current.c;
    assert PhaseOk(Clean(s), t.l);
    CleanShape(s, c);
    CleanGet(s, c);
    assert Alive(Clean(s), c) == Alive(s, c);
    var conn := GetConn(s, c);
    assert FateOk(s, c);
    if t.Drained? {
      assert Cleaned(conn) == conn;
      CleanSet(s, c, Updated(conn.(writing := false)));
    } else if conn.state == Connected && !conn.writing {
      assert Cleaned(conn) == conn;
      CleanSet(s, c, Updated(conn.(writing := true)));
    } else {
      assert Apply(Clean(s), t) == Clean(s);
    }
  }

  lemma CleanFollows(s: System, t: Step)
    requires Tame(s) && Enabled(s, t) && !OnClosing(s, t) && !SetsState(t)
    ensures Enabled(Clean(s), t) && Clean(Apply(s, t)) == Apply(Clean(s), t)
    ensures !SendsToClosed(Clean(s), t) && !LateShutdown(Clean(s), t)
  {
    hide Apply, Enabled, Tame, Clean;
    match t
    case Close(l) => CleanClose(s, l);
    case RunNext(l) => CleanRunNext(s, l);
    case Accept(_) => CleanAccept(s, t);
    case SendBlocked(_, _) => CleanChange(s, t);
    case Drained(_) => CleanChange(s, t);
    case _ => CleanPhases(s, t);
  }

  lemma StepStaysClean(s: System, t: Step)
    requires Tame(s) && Enabled(s, t)
    ensures Inv(Clean(Apply(s, t)))
  {
    hide Apply, Enabled, Inv, Clean;
    if SetsState(t) {
      CleanShutdown(s, t);
    } else if OnClosing(s, t) {
      OnClosingIsHidden(s, t);
    } else {
      CleanFollows(s, t);
      StepKeepsInv(Clean(s), t);
    }
  }

  // ---- the fates of single connections ----

  lemma DoomedStays(s: System, t: Step, c: ConnId)
    requires Enabled(s, t) && c < |s.conns| && Doomed(s, c)
    requires t.RunNext? ==> NextFunctor(s, t.l) != Destroy(c)
    requires GetConn(Apply(s, t), c).home == GetConn(s, c).home
    ensures Doomed(Apply(s, t), c)
  {
    hide Apply, Enabled, Ahead;
    AheadStays(s, t, GetConn(s, c).home, Destroy(c));
  }

  /** The connection a step works on, if any. */
  function Target(s: System, t: Step): ConnId
    requires Enabled(s, t)
  {
    match t
    case Accept(_) => |s.conns|
    case Close(l) => s.loops[l].phase.current.c
    case Drained(l) => s.loops[l].phase.current.c
    case RunNext(l) => NextFunctor(s, l).c
    case SendBlocked(_, c) => c
    case Shutdown(_, c) => c
    case ShutdownWrites(c, _) => c
    case _ => |s.conns|
  }

  /** A functor or a close works on one connection only, and nothing new appears. */
  ghost predicate Spares(s: System, s': System, c: ConnId) {
    && |s'.conns| == |s.conns| && |s'.loops| == |s.loops|
    && s'.table <= s.table && s'.held == s.held && s'.stopping == s.stopping
    && forall d :: d != c ==> GetConn(s', d) == GetConn(s, d)
  }

  lemma CallSpares(s: System, f: Functor)
    ensures Spares(s, Call(s, f), f.c)
  {
    hide Updated, DisabledAll, UpOrClosing;
  }

  lemma HandleCloseSpares(s: System, l: LoopId, c: ConnId)
    ensures Spares(s, HandleClose(s, l, c), c)
  {
    hide Updated, DisabledAll, UpOrClosing;
  }

  lemma CallStepSpares(s: System, t: Step)
    requires Enabled(s, t) && (t.Close? || t.RunNext?)
    ensures Spares(s, Apply(s, t), Target(s, t))
  {
    hide Call, HandleClose;
    var p := s.loops[t.l].phase;
    if t.Close? {
      HandleCloseSpares(AtPhase(s, t.l, p.(current := Inside(p.current.c, true))), t.l, p.current.c);
    } else {
      CallSpares(AtPhase(s, t.l, p.(next := p.next + 1)), p.batch[p.next]);
    }
  }

  lemma LoopsStay(s: System, t: Step)
    requires Enabled(s, t)
    ensures |Apply(s, t).loops| == |s.loops|
  {
    hide LoopHolds, Mentions, HandleClose, Call, GetConn;
    if t.Close? || t.RunNext? {
      CallStepSpares(s, t);
    }
  }

  lemma OthersStay(s: System, t: Step, c: ConnId)
    requires Enabled(s, t) && c < |s.conns| && c != Target(s, t)
    ensures c < |Apply(s, t).conns| && GetConn(Apply(s, t), c) == GetConn(s, c)
    ensures t.RunNext? ==> NextFunctor(s, t.l) != Destroy(c)
  {
    hide LoopHolds, Mentions, HandleClose, Call;
    if t.Close? || t.RunNext? {
      CallStepSpares(s, t);
    }
  }

  lemma TargetStays(s: System, t: Step)
    requires Tame(s) && Enabled(s, t) && !Harmful(s, t) && Target(s, t) < |s.conns|
    requires t.Drained? || t.SendBlocked? || t.Shutdown? || t.ShutdownWrites?
    ensures FateOk(Apply(s, t), Target(s, t))
  {
    var c, s' := Target(s, t), Apply(s, t);
    assert FateOk(s, c);
    CleanShape(s, c);
    assert s'.loops == s.loops && GetConn(s', c).home == GetConn(s, c).home;
    assert Doomed(s', c) == Doomed(s, c);
  }

  lemma RunNextFateOk(s: System, l: LoopId)
    requires Tame(s) && Enabled(s, RunNext(l))
    ensures FateOk(Apply(s, RunNext(l)), NextFunctor(s, l).c)
  {
    var f := NextFunctor(s, l);
    NextIsDue(Clean(s), l);
    CleanShape(s, f.c);
    CleanGet(s, f.c);
    assert FateOk(s, f.c);
    if f.Remove? && Doomed(s, f.c) {
      DoomedStays(s, RunNext(l), f.c);
    }
  }

  lemma CloseFateOk(s: System, l: LoopId)
    requires Tame(s) && Enabled(s, Close(l))
    ensures FateOk(Apply(s, Close(l)), s.loops[l].phase.current.c)
  {
    CleanClose(s, l);
    assert PhaseOk(Clean(s), l);
    CleanShape(s, s.loops[l].phase.current.c);
  }

  lemma TargetFateOk(s: System, t: Step)
    requires Tame(s) && Enabled(s, t) && !Harmful(s, t) && Target(s, t) < |Apply(s, t).conns|
    ensures FateOk(Apply(s, t), Target(s, t))
  {
    if t.Close? {
      CloseFateOk(s, t.l);
    } else if t.RunNext? {
      RunNextFateOk(s, t.l);
    } else if t.Drained? || t.SendBlocked? || t.Shutdown? || t.ShutdownWrites? {
      TargetKnown(s, t);
      TargetStays(s, t);
    } else {
      NewFateOk(s, t);
    }
  }

  lemma TargetKnown(s: System, t: Step)
    requires Tame(s) && Enabled(s, t) && (t.Drained? || t.SendBlocked? || t.Shutdown? || t.ShutdownWrites?)
    ensures Target(s, t) < |s.conns|
  {
  }

  lemma NewFateOk(s: System, t: Step)
    requires Enabled(s, t) && Target(s, t) == |s.conns| < |Apply(s, t).conns|
    requires !(t.Close? || t.RunNext? || t.Drained? || t.SendBlocked? || t.Shutdown? || t.ShutdownWrites?)
    ensures FateOk(Apply(s, t), |s.conns|)
  {
  }

  lemma FatesStay(s: System, t: Step, c: ConnId)
    requires Tame(s) && Enabled(s, t) && !Harmful(s, t) && c < |Apply(s, t).conns|
    ensures FateOk(Apply(s, t), c)
  {
    hide Apply, Enabled, Doomed, Harmful, Inv, Clean;
    if c == Target(s, t) {
      TargetFateOk(s, t);
    } else {
      NoOthersAppear(s, t, c);
      OthersStay(s, t, c);
      assert FateOk(s, c);
      if Doomed(s, c) {
        DoomedStays(s, t, c);
      }
    }
  }

  lemma NoOthersAppear(s: System, t: Step, c: ConnId)
    requires Enabled(s, t) && c < |Apply(s, t).conns| && c != Target(s, t)
    ensures c < |s.conns|
  {
    hide LoopHolds, Mentions, HandleClose, Call;
    if t.Close? || t.RunNext? {
      CallStepSpares(s, t);
    }
  }

  lemma StoppingTarget(s: System, t: Step)
    requires Tame(s) && Enabled(s, t) && Target(s, t) in s.stopping && Target(s, t) < |s.conns|
    ensures Target(s, t) < |Apply(s, t).conns| && GetConn(Apply(s, t), Target(s, t)).state != Connecting
  {
    hide LoopHolds, Mentions, Inv;
    if t.RunNext? {
      NextIsDue(Clean(s), t.l);
      CleanGet(s, NextFunctor(s, t.l).c);
    }
  }

  lemma StoppersAreHeld(s: System, t: Step)
    requires Tame(s) && Enabled(s, t)
    ensures forall c :: c in Apply(s, t).stopping ==>
      && c in Apply(s, t).held && c < |s.conns|
      && (c in s.stopping || (t == ShutdownReads(c) && GetConn(Apply(s, t), c).state == Connected))
  {
    hide LoopHolds, Mentions, Inv, Clean, HandleClose, Call;
    if t.Close? || t.RunNext? {
      CallStepSpares(s, t);
    }
  }

  lemma StoppingStays(s: System, t: Step)
    requires Tame(s) && Enabled(s, t)
    ensures StoppingOk(Apply(s, t))
  {
    hide Apply, Enabled;
    var s' := Apply(s, t);
    StoppersAreHeld(s, t);
    forall c | c in s'.stopping
      ensures c < |s'.conns| && c in s'.held && s'.conns[c].state != Connecting
    {
      if c != Target(s, t) {
        OthersStay(s, t, c);
      } else {
        StoppingTarget(s, t);
      }
    }
  }

  /** Every step that is not a harmful send keeps the tolerant invariant. */
  lemma StepStaysTame(s: System, t: Step)
    requires Tame(s) && Enabled(s, t) && !Harmful(s, t)
    ensures Tame(Apply(s, t)) && !Apply(s, t).failed
  {
    StepStaysClean(s, t);
    StoppingStays(s, t);
    hide Apply, Enabled, Harmful, FateOk, StoppingOk;
    var s' := Apply(s, t);
    forall c | 0 <= c < |s'.conns|
      ensures FateOk(s', c)
    {
      FatesStay(s, t, c);
    }
    hide Inv;
    NotFailed(s');
  }

  lemma NotFailed(s: System)
    requires Inv(Clean(s))
    ensures !s.failed
  {
  }
}
