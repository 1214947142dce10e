/** The life of TCP connections across event loops (irono/net/TcpServer.cc, TcpConnection.cc,
    EventLoop.cc): created on the base loop, established on an io loop, closed there, erased on
    the base loop, destroyed on the io loop. Threads interleave at the granularity of functors,
    of the parts of a handler, and of the swap that starts a batch; shutdown from another thread is
    two steps, the test of the state and the write of the new one. Loop 0 is the base loop; a
    connection may live on it too. A failed assert of the source sets `failed`. */
module Lifecycle {
  import opened ConnectionStates
  import opened Options

  type LoopId = nat
  type ConnId = nat

  /** The `index_` of a channel under EPoller: kNew, kAdded, kDeleted. */
  datatype Index = New | Added | Deleted

  /** `closes` and `destroys` count the runs of handleClose and connectDestroyed. */
  datatype Conn = Conn(
    home: LoopId, state: State, reading: bool, writing: bool, index: Index,
    closes: nat, destroys: nat)

  datatype Functor = Establish(c: ConnId) | Remove(c: ConnId) | Destroy(c: ConnId)

  /** Where a loop stands: in poll; working through the active channels, perhaps inside the
      handleEvent of one of them; or running a swapped-out batch of functors. */
  datatype Phase =
    | Polling
    | Handling(active: seq<ConnId>, current: Current)
    | Running(batch: seq<Functor>, next: nat)
  datatype Current = Idle | Inside(c: ConnId, closed: bool)

  datatype Loop = Loop(phase: Phase, pending: seq<Functor>)

  /** `table` is connections_, `held` the connections user code keeps a TcpConnectionPtr to, `stopping`
      those that some thread other than their loop's has found kConnected in shutdown and is about to
      set to kDisconnecting. */
  datatype System = System(
    conns: seq<Conn>, table: set<ConnId>, held: set<ConnId>, stopping: set<ConnId>, loops: seq<Loop>,
    failed: bool)

  function Start(n: nat): System {
    System([], {}, {}, {}, seq(n, i => Loop(Polling, [])), false)
  }

  // ---- the pieces of the source ----

  /** Channel::update through EPoller::updateChannel. */
  function Updated(c: Conn): Conn {
    match c.index
    case Added => if c.reading || c.writing then c else c.(index := Deleted)
    case _ => c.(index := Added)
  }

  function DisabledAll(c: Conn): Conn {
    Updated(c.(reading := false, writing := false))
  }

  function Asserted(s: System, ok: bool): System {
    s.(failed := s.failed || !ok)
  }

  /** Stores a connection; a wild pointer is a failure. */
  function SetConn(s: System, c: ConnId, conn: Conn): System {
    if c < |s.conns| then s.(conns := s.conns[c := conn]) else Asserted(s, false)
  }

  function GetConn(s: System, c: ConnId): Conn {
    if c < |s.conns| then s.conns[c] else Conn(0, Disconnected, false, false, New, 0, 0)
  }

  function Queued(s: System, l: LoopId, f: Functor): System {
    if l < |s.loops| then
      s.(loops := s.loops[l := s.loops[l].(pending := s.loops[l].pending + [f])])
    else
      Asserted(s, false)
  }

  function ConnectEstablished(s: System, c: ConnId): System {
    var conn := GetConn(s, c);
    var s' := Asserted(s, conn.state == Connecting);
    SetConn(s', c, Updated(conn.(state := Connected, reading := true)))
  }

  /** `erase` must find the connection. */
  function RemoveConnectionInLoop(s: System, c: ConnId): System {
    var s' := Asserted(s, c in s.table).(table := s.table - {c});
    Queued(s', GetConn(s, c).home, Destroy(c))
  }

  predicate UpOrClosing(conn: Conn) {
    conn.state == Connected || conn.state == Disconnecting
  }

  /** On loop `l`: disables the channel, then the server's close callback. */
  function HandleClose(s: System, l: LoopId, c: ConnId): System {
    var conn := GetConn(s, c);
    var s' := Asserted(s, UpOrClosing(conn));
    var s'' := SetConn(s', c, DisabledAll(conn).(closes := conn.closes + 1));
    if l == 0 then RemoveConnectionInLoop(s'', c) else Queued(s'', 0, Remove(c))
  }

  /** removeChannel asserts that the channel is registered and watches nothing. */
  function ConnectDestroyed(s: System, c: ConnId): System {
    var conn := GetConn(s, c);
    var s' := Asserted(s, UpOrClosing(conn));
    var off := DisabledAll(conn).(state := Disconnected, destroys := conn.destroys + 1);
    var s'' := Asserted(s', off.index != New && !off.reading && !off.writing);
    SetConn(s'', c, off.(index := New))
  }

  function Call(s: System, f: Functor): System {
    match f
    case Establish(c) => ConnectEstablished(s, c)
    case Remove(c) => RemoveConnectionInLoop(s, c)
    case Destroy(c) => ConnectDestroyed(s, c)
  }

  function AtPhase(s: System, l: LoopId, p: Phase): System
    requires l < |s.loops|
  {
    s.(loops := s.loops[l := s.loops[l].(phase := p)])
  }

  // ---- shared ownership ----

  predicate Mentions(fs: seq<Functor>, c: ConnId) {
    exists i :: 0 <= i < |fs| && fs[i].c == c
  }

  /** A batch owns its functors until the whole batch is done. */
  predicate LoopHolds(loop: Loop, c: ConnId) {
    Mentions(loop.pending, c) || (loop.phase.Running? && Mentions(loop.phase.batch, c))
  }

  /** Some shared_ptr to the connection exists; when none does, it has been freed. */
  predicate Alive(s: System, c: ConnId) {
    c in s.table || c in s.held || exists l :: 0 <= l < |s.loops| && LoopHolds(s.loops[l], c)
  }

  // ---- steps ----

  datatype Step =
    | Accept(home: LoopId)                        // newConnection, on the base loop
    | Poll(l: LoopId, active: seq<ConnId>)        // epoll_wait returns
    | Dispatch(l: LoopId)                         // handleEvent begins
    | Close(l: LoopId)                            // ... reads end of file or POLLHUP
    | Drained(l: LoopId)                          // ... handleWrite empties the buffer
    | EndEvent(l: LoopId)                         // handleEvent returns
    | StartBatch(l: LoopId)                       // doPendingFunctors swaps
    | RunNext(l: LoopId)
    | EndBatch(l: LoopId)
    | SendBlocked(l: LoopId, c: ConnId)           // an in-loop send that leaves bytes to write
    | Shutdown(l: LoopId, c: ConnId)              // on the connection's own loop
    | ShutdownReads(c: ConnId)                    // on another thread: finds the state kConnected
    | ShutdownWrites(c: ConnId, more: bool)       // ... sets kDisconnecting; `more` such threads remain
    | Retain(c: ConnId)
    | Release(c: ConnId)

  predicate InHandler(s: System, l: LoopId) {
    l < |s.loops| && s.loops[l].phase.Handling? && s.loops[l].phase.current.Inside?
  }

  predicate Enabled(s: System, t: Step) {
    match t
    case Accept(home) =>
      0 < |s.loops| && home < |s.loops| && s.loops[0].phase.Handling? && s.loops[0].phase.current == Idle
    case Poll(l, active) =>
      && l < |s.loops| && s.loops[l].phase.Polling?
      && (forall i :: 0 <= i < |active| ==>
            active[i] < |s.conns| && s.conns[active[i]].home == l && s.conns[active[i]].index == Added)
      && (forall i, j :: 0 <= i < j < |active| ==> active[i] != active[j])
    case Dispatch(l) =>
      l < |s.loops| && s.loops[l].phase.Handling? && s.loops[l].phase.active != [] && s.loops[l].phase.current == Idle
    case Close(l) =>
      InHandler(s, l) && !s.loops[l].phase.current.closed
    case Drained(l) =>
      InHandler(s, l) && s.loops[l].phase.current.c < |s.conns| && s.conns[s.loops[l].phase.current.c].writing
    case EndEvent(l) =>
      InHandler(s, l)
    case StartBatch(l) =>
      l < |s.loops| && s.loops[l].phase == Handling([], Idle)
    case RunNext(l) =>
      l < |s.loops| && s.loops[l].phase.Running? && s.loops[l].phase.next < |s.loops[l].phase.batch|
    case EndBatch(l) =>
      l < |s.loops| && s.loops[l].phase.Running? && s.loops[l].phase.next == |s.loops[l].phase.batch|
    case SendBlocked(l, c) =>
      l < |s.loops| && !s.loops[l].phase.Polling? && c < |s.conns| && s.conns[c].home == l && Alive(s, c)
    case Shutdown(l, c) =>
      l < |s.loops| && !s.loops[l].phase.Polling? && c < |s.conns| && s.conns[c].home == l && Alive(s, c)
    case ShutdownReads(c) =>
      c < |s.conns| && c in s.held && s.conns[c].state == Connected
    case ShutdownWrites(c, _) =>
      c in s.stopping
    case Retain(c) =>
      c < |s.conns| && Alive(s, c)
    case Release(c) =>
      c in s.held && c !in s.stopping
  }

  function Apply(s: System, t: Step): System
    requires Enabled(s, t)
  {
    match t
    case Accept(home) =>
      var c := |s.conns|;
      var s' := s.(conns := s.conns + [Conn(home, Connecting, false, false, New, 0, 0)], table := s.table + {c});
      if home == 0 then ConnectEstablished(s', c) else Queued(s', home, Establish(c))
    case Poll(l, active) =>
      AtPhase(s, l, Handling(active, Idle))
    case Dispatch(l) =>
      var active := s.loops[l].phase.active;
      AtPhase(s, l, Handling(active[1..], Inside(active[0], false)))
    case Close(l) =>
      var c := s.loops[l].phase.current.c;
      HandleClose(AtPhase(s, l, s.loops[l].phase.(current := Inside(c, true))), l, c)
    case Drained(l) =>
      var c := s.loops[l].phase.current.c;
      SetConn(s, c, Updated(GetConn(s, c).(writing := false)))
    case EndEvent(l) =>
      AtPhase(s, l, s.loops[l].phase.(current := Idle))
    case StartBatch(l) =>
      s.(loops := s.loops[l := Loop(Running(s.loops[l].pending, 0), [])])
    case RunNext(l) =>
      var p := s.loops[l].phase;
      Call(AtPhase(s, l, p.(next := p.next + 1)), p.batch[p.next])
    case EndBatch(l) =>
      AtPhase(s, l, Polling)
    case SendBlocked(l, c) =>
      var conn := GetConn(s, c);
      if conn.state == Connected && !conn.writing then SetConn(s, c, Updated(conn.(writing := true))) else s
    case Shutdown(_, c) =>
      var conn := GetConn(s, c);
      if conn.state == Connected then SetConn(s, c, conn.(state := Disconnecting)) else s
    case ShutdownReads(c) =>
      s.(stopping := s.stopping + {c})
    case ShutdownWrites(c, more) =>
      SetConn(s, c, GetConn(s, c).(state := Disconnecting)).(stopping := if more then s.stopping else s.stopping - {c})
    case Retain(c) =>
      s.(held := s.held + {c})
    case Release(c) =>
      s.(held := s.held - {c})
  }

  // ---- the invariant ----

  /** How far a connection has come. */
  datatype Stage = Starting | Up | Removing | Destroying | Gone

  function StageOf(conn: Conn, inTable: bool): Stage {
    match conn.state
    case Connecting => Starting
    case Disconnected => Gone
    case _ => if conn.index == Added then Up else if inTable then Removing else Destroying
  }

  function StageIn(s: System, c: ConnId): Stage {
    StageOf(GetConn(s, c), c in s.table)
  }

  /** The one functor that must be outstanding for a connection at each stage, and where. */
  function Due(stage: Stage, c: ConnId): Option<Functor> {
    match stage
    case Starting => Some(Establish(c))
    case Removing => Some(Remove(c))
    case Destroying => Some(Destroy(c))
    case _ => None
  }

  function Place(s: System, f: Functor): LoopId {
    if f.Remove? then 0 else GetConn(s, f.c).home
  }

  /** Functors a loop has yet to run, in the order it will run them. */
  function Work(loop: Loop): seq<Functor> {
    (if loop.phase.Running? && loop.phase.next <= |loop.phase.batch| then loop.phase.batch[loop.phase.next..] else [])
    + loop.pending
  }

  /** Channel and counters agree with the stage. */
  predicate ShapeOk(conn: Conn, inTable: bool) {
    match StageOf(conn, inTable)
    case Starting => conn.index == New && !conn.reading && !conn.writing && inTable && conn.closes == conn.destroys == 0
    case Up => conn.reading && inTable && conn.closes == conn.destroys == 0
    case Gone => conn.index == New && !conn.reading && !conn.writing && !inTable && conn.closes == conn.destroys == 1
    case Removing =>
      && conn.index == Deleted && !conn.reading && !conn.writing && conn.closes == 1 && conn.destroys == 0
      && conn.home != 0
    case Destroying => conn.index == Deleted && !conn.reading && !conn.writing && conn.closes == 1 && conn.destroys == 0
  }

  predicate ShapesOk(s: System) {
    && (forall c :: 0 <= c < |s.conns| ==> ShapeOk(s.conns[c], c in s.table) && s.conns[c].home < |s.loops|)
    && (forall c :: c in s.table ==> c < |s.conns|)
  }

  /** Whoever is about to write the state holds a pointer and has seen the connection up. */
  predicate StoppingOk(s: System) {
    forall c :: c in s.stopping ==> c < |s.conns| && c in s.held && s.conns[c].state != Connecting
  }

  predicate NoDuplicates<T(==)>(q: seq<T>) {
    forall i, j :: 0 <= i < j < |q| ==> q[i] != q[j]
  }

  predicate IsDue(s: System, f: Functor, l: LoopId) {
    f.c < |s.conns| && Due(StageIn(s, f.c), f.c) == Some(f) && Place(s, f) == l
  }

  /** A functor waits in a loop exactly when it is due there. */
  ghost predicate QueuesOk(s: System) {
    forall l :: 0 <= l < |s.loops| ==> QueueOk(s, l)
  }

  ghost predicate QueueOk(s: System, l: LoopId)
    requires l < |s.loops|
  {
    NoDuplicates(Work(s.loops[l])) && forall f :: f in Work(s.loops[l]) <==> IsDue(s, f, l)
  }

  predicate PhaseOk(s: System, l: LoopId)
    requires l < |s.loops|
  {
    match s.loops[l].phase
    case Polling => true
    case Running(batch, next) => next <= |batch|
    case Handling(active, current) =>
      && NoDuplicates(active)
      && (forall i :: 0 <= i < |active| ==> OnLoop(s, active[i], l) && StageIn(s, active[i]) == Up)
      && (current.Inside? ==>
            && current.c !in active && OnLoop(s, current.c, l)
            && if current.closed then StageIn(s, current.c) in {Removing, Destroying} else StageIn(s, current.c) == Up)
  }

  predicate OnLoop(s: System, c: ConnId, l: LoopId) {
    c < |s.conns| && s.conns[c].home == l
  }

  ghost predicate Inv(s: System) {
    && 0 < |s.loops| && !s.failed
    && ShapesOk(s) && StoppingOk(s)
    && QueuesOk(s)
    && (forall l :: 0 <= l < |s.loops| ==> PhaseOk(s, l))
  }

  // ---- frames ----

  predicate SameConn(s: System, s': System, c: ConnId) {
    && GetConn(s', c) == GetConn(s, c)
    && (c < |s'.conns| <==> c < |s.conns|)
    && (c in s'.table <==> c in s.table)
  }

  /** Nothing about connections other than `c` differs. */
  ghost predicate OnlyConn(s: System, s': System, c: ConnId) {
    && |s'.loops| == |s.loops|
    && (forall d {:trigger GetConn(s', d)} {:trigger d in s'.table} :: d != c ==> SameConn(s, s', d))
  }

  lemma ShapesFrame(s: System, s': System, c: ConnId)
    requires ShapesOk(s) && OnlyConn(s, s', c)
    requires c < |s'.conns| ==> ShapeOk(GetConn(s', c), c in s'.table) && GetConn(s', c).home < |s'.loops|
    requires c in s'.table ==> c < |s'.conns|
    ensures ShapesOk(s')
  {
    forall d | 0 <= d < |s'.conns|
      ensures ShapeOk(s'.conns[d], d in s'.table) && s'.conns[d].home < |s'.loops|
    {
      assert GetConn(s', d) == s'.conns[d];
      if d != c {
        assert SameConn(s, s', d);
        assert GetConn(s, d) == s.conns[d];
      }
    }
    forall d | d in s'.table
      ensures d < |s'.conns|
    {
      if d != c {
        assert SameConn(s, s', d);
      }
    }
  }

  lemma QueuesFrame(s: System, s': System, c: ConnId)
    requires QueuesOk(s) && OnlyConn(s, s', c)
    requires forall l :: 0 <= l < |s.loops| ==> NoDuplicates(Work(s'.loops[l]))
    requires forall l: LoopId, f: Functor :: 0 <= l < |s.loops| && f.c == c ==>
      (f in Work(s'.loops[l]) <==> IsDue(s', f, l))
    requires forall l: LoopId, f: Functor :: 0 <= l < |s.loops| && f.c != c ==>
      (f in Work(s'.loops[l]) <==> f in Work(s.loops[l]))
    ensures QueuesOk(s')
  {
    forall l | 0 <= l < |s.loops|
      ensures QueueOk(s', l)
    {
      assert QueueOk(s, l);
      forall f
        ensures f in Work(s'.loops[l]) <==> IsDue(s', f, l)
      {
        if f.c != c {
          assert SameConn(s, s', f.c);
          assert IsDue(s', f, l) <==> IsDue(s, f, l);
        }
      }
    }
  }

  /** A stage change that a handler running on the connection's own loop does not mind. */
  predicate Harmless(before: Stage, after: Stage) {
    before == after || (before == Removing && after == Destroying)
  }

  lemma PhaseFrame(s: System, s': System, c: ConnId, l: LoopId)
    requires OnlyConn(s, s', c) && l < |s.loops| && PhaseOk(s, l)
    requires s'.loops[l].phase == s.loops[l].phase
    requires OnLoop(s, c, l) ==> OnLoop(s', c, l)
    requires OnLoop(s, c, l) && s.loops[l].phase.Handling? ==> Harmless(StageIn(s, c), StageIn(s', c))
    ensures PhaseOk(s', l)
  {
    forall d | OnLoop(s, d, l) && d != c
      ensures OnLoop(s', d, l) && StageIn(s', d) == StageIn(s, d)
    {
      assert SameConn(s, s', d);
    }
  }

  lemma WorkQueued(loop: Loop, f: Functor)
    ensures Work(loop.(pending := loop.pending + [f])) == Work(loop) + [f]
  {
    assert Work(loop.(pending := loop.pending + [f])) == Work(loop) + [f];
  }

  lemma WorkPopped(loop: Loop)
    requires loop.phase.Running? && loop.phase.next < |loop.phase.batch|
    ensures var next := loop.phase.next;
      Work(loop) == [loop.phase.batch[next]] + Work(loop.(phase := loop.phase.(next := next + 1)))
  {
    var next, batch := loop.phase.next, loop.phase.batch;
    assert batch[next..] == [batch[next]] + batch[next + 1..];
  }

  lemma NoDuplicatesTail<T>(x: T, q: seq<T>)
    requires NoDuplicates([x] + q)
    ensures NoDuplicates(q) && x !in q
  {
    assert forall i :: 0 <= i < |q| ==> q[i] == ([x] + q)[i + 1];
    assert ([x] + q)[0] == x;
  }

  // ---- steps that only move a loop along ----

  predicate MovesOn(t: Step) {
    t.Poll? || t.Dispatch? || t.EndEvent? || t.StartBatch? || t.EndBatch? || t.Retain? || t.Release? || t.ShutdownReads?
  }

  lemma MovingOnKeepsWork(s: System, t: Step, l: LoopId)
    requires Enabled(s, t) && MovesOn(t) && l < |s.loops|
    ensures |Apply(s, t).loops| == |s.loops| && Work(Apply(s, t).loops[l]) == Work(s.loops[l])
  {
  }

  lemma MovingOnKeepsPhase(s: System, t: Step, l: LoopId)
    requires Inv(s) && Enabled(s, t) && MovesOn(t) && l < |s.loops|
    ensures PhaseOk(Apply(s, t), l)
  {
    var s' := Apply(s, t);
    assert PhaseOk(s, l);
    assert forall c :: StageIn(s', c) == StageIn(s, c) && (OnLoop(s', c, l) <==> OnLoop(s, c, l));
    if t.Poll? && t.l == l {
      forall i | 0 <= i < |t.active|
        ensures StageIn(s, t.active[i]) == Up
      {
        assert ShapeOk(s.conns[t.active[i]], t.active[i] in s.table);
      }
    }
  }

  lemma MovingOnKeepsInv(s: System, t: Step)
    requires Inv(s) && Enabled(s, t) && MovesOn(t)
    ensures Inv(Apply(s, t))
  {
    var s' := Apply(s, t);
    forall l | 0 <= l < |s.loops|
      ensures QueueOk(s', l) && PhaseOk(s', l)
    {
      MovingOnKeepsWork(s, t, l);
      MovingOnKeepsPhase(s, t, l);
      assert QueueOk(s, l);
      assert forall f :: IsDue(s', f, l) <==> IsDue(s, f, l);
    }
  }

  // ---- steps that change one connection and no queue ----

  lemma ConnStepKeepsInv(s: System, s': System, c: ConnId)
    requires Inv(s) && c < |s.conns|
    requires s' == SetConn(s, c, GetConn(s', c)).(stopping := s'.stopping)
    requires s'.stopping <= s.stopping && (s.conns[c].state == Connecting || s'.conns[c].state != Connecting)
    requires ShapeOk(GetConn(s', c), c in s.table) && GetConn(s', c).home == GetConn(s, c).home
    requires StageIn(s', c) == StageIn(s, c)
    ensures Inv(s')
  {
    forall d | d != c
      ensures SameConn(s, s', d)
    {
    }
    ShapesFrame(s, s', c);
    forall l | 0 <= l < |s.loops|
      ensures NoDuplicates(Work(s'.loops[l]))
      ensures forall f: Functor :: f.c == c ==> (f in Work(s'.loops[l]) <==> IsDue(s', f, l))
    {
      assert QueueOk(s, l);
      assert forall f: Functor :: f.c == c ==> (IsDue(s, f, l) <==> IsDue(s', f, l));
    }
    QueuesFrame(s, s', c);
    forall l | 0 <= l < |s.loops|
      ensures PhaseOk(s', l)
    {
      PhaseFrame(s, s', c, l);
    }
  }

  // ---- steps that queue or run a functor ----

  /** A send that reaches a connection after its close but before its destruction, while the state
      still reads kConnected: the code re-enables the channel. */
  predicate SendsToClosed(s: System, t: Step) {
    t.SendBlocked? && GetConn(s, t.c).state == Connected && GetConn(s, t.c).index == Deleted
  }

  /** The write of a cross-thread shutdown that comes after connectDestroyed. */
  predicate LateShutdown(s: System, t: Step) {
    t.ShutdownWrites? && GetConn(s, t.c).state == Disconnected
  }

  lemma SmallStepKeepsInv(s: System, t: Step)
    requires Inv(s) && Enabled(s, t) && !SendsToClosed(s, t) && !LateShutdown(s, t)
    requires t.Drained? || t.SendBlocked? || t.Shutdown? || t.ShutdownWrites?
    ensures Inv(Apply(s, t))
  {
    var s' := Apply(s, t);
    var c := if t.Drained? then s.loops[t.l].phase.current.c else t.c;
    assert ShapeOk(s.conns[c], c in s.table);
    if s' != s {
      ConnStepKeepsInv(s, s', c);
    }
  }

  /** Loop `l` gets one more functor, which is due there, for a connection that had none. */
  lemma QueueingKeepsQueues(s: System, s': System, c: ConnId, l: LoopId, f: Functor)
    requires QueuesOk(s) && OnlyConn(s, s', c)
    requires f.c == c && l < |s.loops| && IsDue(s', f, l)
    requires c < |s.conns| ==> Due(StageIn(s, c), c) == None
    requires forall k :: 0 <= k < |s.loops| ==>
      Work(s'.loops[k]) == if k == l then Work(s.loops[k]) + [f] else Work(s.loops[k])
    ensures QueuesOk(s')
  {
    forall k | 0 <= k < |s.loops|
      ensures forall g: Functor :: g.c == c ==> g !in Work(s.loops[k])
      ensures NoDuplicates(Work(s'.loops[k]))
    {
      assert QueueOk(s, k);
    }
    QueuesFrame(s, s', c);
  }

  lemma ClosePhases(s: System, s': System, c: ConnId, l: LoopId)
    requires Inv(s) && OnlyConn(s, s', c) && l < |s.loops|
    requires s.loops[l].phase.Handling? && s.loops[l].phase.current == Inside(c, false)
    requires forall k :: 0 <= k < |s.loops| && k != l ==> s'.loops[k].phase == s.loops[k].phase
    requires s'.loops[l].phase == s.loops[l].phase.(current := Inside(c, true))
    requires OnLoop(s', c, l) && StageIn(s', c) in {Removing, Destroying}
    ensures forall k :: 0 <= k < |s.loops| ==> PhaseOk(s', k)
  {
    assert PhaseOk(s, l);
    forall k | 0 <= k < |s.loops|
      ensures PhaseOk(s', k)
    {
      if k != l {
        PhaseFrame(s, s', c, k);
      } else {
        var active := s.loops[l].phase.active;
        forall i | 0 <= i < |active|
          ensures OnLoop(s', active[i], l) && StageIn(s', active[i]) == Up
        {
          assert SameConn(s, s', active[i]);
        }
      }
    }
  }

  lemma CloseFrame(s: System, t: Step)
    requires Enabled(s, t) && t.Close? && GetConn(s, s.loops[t.l].phase.current.c).home == t.l
    ensures var c, s' := s.loops[t.l].phase.current.c, Apply(s, t);
      && OnlyConn(s, s', c)
      && forall k :: 0 <= k < |s.loops| ==>
           Work(s'.loops[k]) == if k == 0 then Work(s.loops[k]) + [if t.l == 0 then Destroy(c) else Remove(c)]
                                else Work(s.loops[k])
  {
    hide LoopHolds, Mentions;
    var c, s' := s.loops[t.l].phase.current.c, Apply(s, t);
    forall d | d != c
      ensures SameConn(s, s', d)
    {
    }
    forall k | 0 <= k < |s.loops|
      ensures Work(s'.loops[k]) == if k == 0 then Work(s.loops[k]) + [if t.l == 0 then Destroy(c) else Remove(c)]
        else Work(s.loops[k])
    {
      WorkQueued(s.loops[k], if t.l == 0 then Destroy(c) else Remove(c));
    }
  }

  /** Both loops of a close: what it leaves of the connection, and the functor that is then due. */
  lemma CloseEffects(s: System, t: Step)
    requires Inv(s) && Enabled(s, t) && t.Close?
    ensures var l, c, s' := t.l, s.loops[t.l].phase.current.c, Apply(s, t);
      && l < |s.loops| && s.loops[l].phase.Handling? && s.loops[l].phase.current == Inside(c, false)
      && c < |s.conns| && s.conns[c].home == l && Due(StageIn(s, c), c) == None
      && |s'.conns| == |s.conns| && GetConn(s', c).home == l && !s'.failed
      && ShapeOk(GetConn(s', c), c in s'.table)
      && StageIn(s', c) == (if l == 0 then Destroying else Removing)
      && s'.held == s.held && s'.stopping == s.stopping && GetConn(s', c).state == GetConn(s, c).state
  {
    hide QueuesOk, LoopHolds, Mentions;
    var l, c := t.l, s.loops[t.l].phase.current.c;
    assert PhaseOk(s, l);
    assert ShapeOk(s.conns[c], c in s.table) && OnLoop(s, c, l);
  }

  lemma ClosePhase(s: System, t: Step)
    requires Enabled(s, t) && t.Close?
    ensures var l, s' := t.l, Apply(s, t);
      && (forall k :: 0 <= k < |s.loops| && k != l ==> s'.loops[k].phase == s.loops[k].phase)
      && s'.loops[l].phase == s.loops[l].phase.(current := Inside(s.loops[l].phase.current.c, true))
  {
    hide LoopHolds, Mentions, UpOrClosing, DisabledAll, Updated;
  }

  lemma CloseKeepsInv(s: System, t: Step)
    requires Inv(s) && Enabled(s, t) && t.Close?
    ensures Inv(Apply(s, t))
  {
    CloseEffects(s, t);
    CloseFrame(s, t);
    ClosePhase(s, t);
    hide Apply, Enabled, QueuesOk, ShapeOk, LoopHolds, Mentions, PhaseOk;
    var l, s' := t.l, Apply(s, t);
    var c := s.loops[l].phase.current.c;
    ShapesFrame(s, s', c);
    QueueingKeepsQueues(s, s', c, 0, if l == 0 then Destroy(c) else Remove(c));
    ClosePhases(s, s', c, l);
  }

  lemma AcceptKeepsInv(s: System, t: Step)
    requires Inv(s) && Enabled(s, t) && t.Accept?
    ensures Inv(Apply(s, t))
  {
    var s', c := Apply(s, t), |s.conns|;
    forall d | d != c
      ensures SameConn(s, s', d)
    {
    }
    ShapesFrame(s, s', c);
    if t.home == 0 {
      forall l | 0 <= l < |s.loops|
        ensures NoDuplicates(Work(s'.loops[l]))
        ensures forall f: Functor :: f.c == c ==> f !in Work(s'.loops[l])
      {
        assert QueueOk(s, l);
      }
      QueuesFrame(s, s', c);
    } else {
      WorkQueued(s.loops[t.home], Establish(c));
      QueueingKeepsQueues(s, s', c, t.home, Establish(c));
    }
    forall l | 0 <= l < |s.loops|
      ensures PhaseOk(s', l)
    {
      PhaseFrame(s, s', c, l);
    }
  }

  /** The functor about to run, and what is left of the work of its loop. */
  function NextFunctor(s: System, l: LoopId): Functor
    requires Enabled(s, RunNext(l))
  {
    s.loops[l].phase.batch[s.loops[l].phase.next]
  }

  lemma NextIsDue(s: System, l: LoopId)
    requires Inv(s) && Enabled(s, RunNext(l))
    ensures var f := NextFunctor(s, l);
      && IsDue(s, f, l) && ShapeOk(GetConn(s, f.c), f.c in s.table) && GetConn(s, f.c).home < |s.loops|
      && Work(s.loops[l])[0] == f
      && NoDuplicates(Work(s.loops[l])[1..]) && f !in Work(s.loops[l])[1..]
  {
    var f, q := NextFunctor(s, l), Work(s.loops[l]);
    WorkPopped(s.loops[l]);
    assert q == [f] + q[1..];
    assert QueueOk(s, l) && f in q;
    NoDuplicatesTail(f, q[1..]);
  }

  /** Running a functor takes it off its loop; an erase queues the destruction at home. */
  lemma RunNextWork(s: System, l: LoopId, k: LoopId)
    requires Inv(s) && Enabled(s, RunNext(l)) && k < |s.loops|
    ensures var f, s' := NextFunctor(s, l), Apply(s, RunNext(l));
      && |s'.loops| == |s.loops|
      && Work(s'.loops[k]) == (if k == l then Work(s.loops[k])[1..] else Work(s.loops[k]))
                              + (if f.Remove? && k == GetConn(s, f.c).home then [Destroy(f.c)] else [])
  {
    hide LoopHolds, Mentions, QueuesOk, ShapesOk, PhaseOk, StoppingOk, Updated, DisabledAll, UpOrClosing;
    var f, p := NextFunctor(s, l), s.loops[l].phase;
    NextIsDue(s, l);
    WorkPopped(s.loops[l]);
    var s1 := AtPhase(s, l, p.(next := p.next + 1));
    assert Work(s1.loops[k]) == if k == l then Work(s.loops[k])[1..] else Work(s.loops[k]);
    WorkQueued(s1.loops[k], Destroy(f.c));
  }

  lemma RunNextConn(s: System, l: LoopId)
    requires Inv(s) && Enabled(s, RunNext(l))
    ensures var f, s' := NextFunctor(s, l), Apply(s, RunNext(l));
      && OnlyConn(s, s', f.c) && f.c < |s'.conns| && !s'.failed
      && ShapeOk(GetConn(s', f.c), f.c in s'.table) && GetConn(s', f.c).home == GetConn(s, f.c).home
      && StageIn(s', f.c) == (if f.Establish? then Up else if f.Remove? then Destroying else Gone)
  {
    var f, s' := NextFunctor(s, l), Apply(s, RunNext(l));
    NextIsDue(s, l);
    forall d | d != f.c
      ensures SameConn(s, s', d)
    {
    }
  }

  /** What else the loop of the running functor, or any other, has to do is for other connections. */
  lemma RestIsForOthers(s: System, l: LoopId, k: LoopId)
    requires Inv(s) && Enabled(s, RunNext(l)) && k < |s.loops|
    ensures var f, q := NextFunctor(s, l), Work(s.loops[k]);
      var rest := if k == l then q[1..] else q;
      && NoDuplicates(rest)
      && (forall g :: g in rest ==> g.c != f.c)
      && (forall g: Functor :: g.c != f.c ==> (g in rest <==> g in q))
  {
    hide Apply, Enabled, ShapesOk;
    var f, q := NextFunctor(s, l), Work(s.loops[k]);
    NextIsDue(s, l);
    assert QueueOk(s, k);
    assert forall g: Functor :: g in q && g.c == f.c ==> IsDue(s, g, k) && g == f && k == l;
    assert k == l ==> q == [f] + q[1..];
  }

  lemma RunNextQueues(s: System, l: LoopId)
    requires Inv(s) && Enabled(s, RunNext(l))
    ensures QueuesOk(Apply(s, RunNext(l)))
  {
    var f, s' := NextFunctor(s, l), Apply(s, RunNext(l));
    NextIsDue(s, l);
    RunNextConn(s, l);
    hide Apply, Enabled, ShapesOk, ShapeOk, QueuesOk, StageIn;
    forall k | 0 <= k < |s.loops|
      ensures |s'.loops| == |s.loops|
      ensures NoDuplicates(Work(s'.loops[k]))
      ensures forall g: Functor :: g.c == f.c ==> (g in Work(s'.loops[k]) <==> IsDue(s', g, k))
      ensures forall g: Functor :: g.c != f.c ==> (g in Work(s'.loops[k]) <==> g in Work(s.loops[k]))
    {
      RunNextWork(s, l, k);
      RestIsForOthers(s, l, k);
    }
    QueuesFrame(s, s', f.c);
  }

  lemma RunNextKeepsInv(s: System, l: LoopId)
    requires Inv(s) && Enabled(s, RunNext(l))
    ensures Inv(Apply(s, RunNext(l)))
  {
    var f, s' := NextFunctor(s, l), Apply(s, RunNext(l));
    NextIsDue(s, l);
    RunNextConn(s, l);
    RunNextQueues(s, l);
    ShapesFrame(s, s', f.c);
    forall k | 0 <= k < |s.loops|
      ensures PhaseOk(s', k)
    {
      if k != l {
        PhaseFrame(s, s', f.c, k);
      }
    }
  }

  // ---- every run ----

  /** The exact condition under which the protocol keeps its invariant: no send re-enables the
      channel of a connection that has been closed and not yet destroyed, and no shutdown on another
      thread writes the state of one that has been destroyed. */
  lemma StepKeepsInv(s: System, t: Step)
    requires Inv(s) && Enabled(s, t)
    ensures Inv(Apply(s, t)) <==> !SendsToClosed(s, t) && !LateShutdown(s, t)
  {
    if SendsToClosed(s, t) || LateShutdown(s, t) {
      assert ShapeOk(s.conns[t.c], t.c in s.table);
      assert !ShapeOk(Apply(s, t).conns[t.c], t.c in Apply(s, t).table);
    } else {
      hide Apply, Enabled, Inv;
      match t
      case Accept(_) => AcceptKeepsInv(s, t);
      case Close(_) => CloseKeepsInv(s, t);
      case RunNext(l) => RunNextKeepsInv(s, l);
      case Drained(_) => SmallStepKeepsInv(s, t);
      case SendBlocked(_, _) => SmallStepKeepsInv(s, t);
      case Shutdown(_, _) => SmallStepKeepsInv(s, t);
      case ShutdownWrites(_, _) => SmallStepKeepsInv(s, t);
      case _ => MovingOnKeepsInv(s, t);
    }
  }

  predicate IsRun(s: System, steps: seq<Step>)
    decreases |steps|
  {
    steps == [] || (Enabled(s, steps[0]) && IsRun(Apply(s, steps[0]), steps[1..]))
  }

  function Run(s: System, steps: seq<Step>): System
    requires IsRun(s, steps)
    decreases |steps|
  {
    if steps == [] then s else Run(Apply(s, steps[0]), steps[1..])
  }

  // ---- what the invariant means for the program ----

  lemma DueIsHeld(s: System, c: ConnId)
    requires Inv(s) && c < |s.conns| && Due(StageIn(s, c), c).Some?
    ensures Alive(s, c)
  {
    var f := Due(StageIn(s, c), c).value;
    var l := Place(s, f);
    assert ShapeOk(s.conns[c], c in s.table);
    assert QueueOk(s, l) && IsDue(s, f, l);
    var loop := s.loops[l];
    var i :| 0 <= i < |Work(loop)| && Work(loop)[i] == f;
    var running := |Work(loop)| - |loop.pending|;
    if i < running {
      assert loop.phase.batch[loop.phase.next + i] == f;
    } else {
      assert loop.pending[i - running] == f;
    }
    assert LoopHolds(loop, c);
  }

  /** No object is freed while its own handleEvent runs or while it is still in the poller; and one
      close leads to exactly one destruction. */
  ghost predicate Safe(s: System) {
    && !s.failed
    && (forall l: LoopId :: InHandler(s, l) ==> Alive(s, s.loops[l].phase.current.c))
    && (forall l, i :: 0 <= l < |s.loops| && s.loops[l].phase.Handling? && 0 <= i < |s.loops[l].phase.active| ==>
          Alive(s, s.loops[l].phase.active[i]))
    && (forall c :: 0 <= c < |s.conns| && !Alive(s, c) ==>
          s.conns[c].index == New && s.conns[c].destroys == 1)
    && (forall c :: 0 <= c < |s.conns| ==> s.conns[c].destroys <= s.conns[c].closes <= 1)
  }

  /** A connection reads kDisconnected from its destruction on, and not before. */
  predicate Settled(s: System) {
    forall c :: 0 <= c < |s.conns| ==> (s.conns[c].destroys == 1 <==> s.conns[c].state == Disconnected)
  }

  lemma StagesAreAlive(s: System, c: ConnId)
    requires Inv(s) && c < |s.conns|
    ensures ShapeOk(s.conns[c], c in s.table)
    ensures StageIn(s, c) != Gone ==> Alive(s, c)
  {
    assert ShapeOk(s.conns[c], c in s.table);
    if Due(StageIn(s, c), c).Some? {
      DueIsHeld(s, c);
    }
  }

  lemma InvIsSafe(s: System)
    requires Inv(s)
    ensures Safe(s) && Settled(s)
  {
    hide QueuesOk;
    forall c | 0 <= c < |s.conns|
      ensures ShapeOk(s.conns[c], c in s.table) && (!Alive(s, c) ==> StageIn(s, c) == Gone)
    {
      StagesAreAlive(s, c);
    }
    forall l | 0 <= l < |s.loops| && s.loops[l].phase.Handling?
      ensures InHandler(s, l) ==> Alive(s, s.loops[l].phase.current.c)
      ensures forall i :: 0 <= i < |s.loops[l].phase.active| ==> Alive(s, s.loops[l].phase.active[i])
    {
      assert PhaseOk(s, l);
    }
  }

  lemma StartIsOk(n: nat)
    requires 0 < n
    ensures Inv(Start(n))
  {
    var s := Start(n);
    forall l | 0 <= l < |s.loops|
      ensures PhaseOk(s, l) && QueueOk(s, l)
    {
      assert s.loops[l] == Loop(Polling, []);
    }
  }

  /** The connection a step may bind into a functor, and that functor. */
  function Bound(s: System, t: Step): ConnId
    requires Enabled(s, t)
  {
    match t
    case Close(l) => s.loops[l].phase.current.c
    case RunNext(l) => NextFunctor(s, l).c
    case _ => |s.conns|
  }

  function Posted(s: System, t: Step): Functor
    requires Enabled(s, t)
  {
    match t
    case Close(l) => if l == 0 then Destroy(Bound(s, t)) else Remove(Bound(s, t))
    case RunNext(l) => Destroy(Bound(s, t))
    case _ => Establish(Bound(s, t))
  }

  /** A step leaves a queue alone, swaps it out, or appends what it posts. */
  predicate PendingMoves(loop: Loop, loop': Loop, posted: Functor) {
    || loop'.pending == loop.pending
    || (loop'.pending == [] && loop'.phase == Running(loop.pending, 0))
    || loop'.pending == loop.pending + [posted]
  }

  /** Loops keep their phases, and queues grow by at most `posted`. */
  predicate Grown(before: seq<Loop>, after: seq<Loop>, posted: Functor) {
    && |after| == |before|
    && forall k :: 0 <= k < |before| ==>
      && after[k].phase == before[k].phase
      && (after[k].pending == before[k].pending || after[k].pending == before[k].pending + [posted])
  }

  lemma CloseGrows(s: System, l: LoopId, c: ConnId)
    ensures Grown(s.loops, HandleClose(s, l, c).loops, if l == 0 then Destroy(c) else Remove(c))
  {
  }

  lemma CallGrows(s: System, f: Functor)
    ensures Grown(s.loops, Call(s, f).loops, Destroy(f.c))
  {
  }

  predicate LoopMoves(loop: Loop, loop': Loop, f: Functor) {
    && PendingMoves(loop, loop', f)
    && (loop'.phase.Running? ==>
          loop'.phase.batch == if loop.phase.Running? then loop.phase.batch else loop.pending)
  }

  lemma PendingOnCall(s: System, t: Step, l: LoopId)
    requires Enabled(s, t) && (t.Close? || t.RunNext?) && l < |s.loops|
    ensures |Apply(s, t).loops| == |s.loops| && LoopMoves(s.loops[l], Apply(s, t).loops[l], Posted(s, t))
  {
    hide HandleClose, Call;
    var p := s.loops[t.l].phase;
    if t.Close? {
      CloseGrows(AtPhase(s, t.l, p.(current := Inside(p.current.c, true))), t.l, p.current.c);
    } else {
      CallGrows(AtPhase(s, t.l, p.(next := p.next + 1)), p.batch[p.next]);
    }
  }

  lemma PendingGrows(s: System, t: Step, l: LoopId)
    requires Enabled(s, t) && l < |s.loops|
    ensures |Apply(s, t).loops| == |s.loops| && LoopMoves(s.loops[l], Apply(s, t).loops[l], Posted(s, t))
  {
    if t.Close? || t.RunNext? {
      PendingOnCall(s, t, l);
    } else {
      hide LoopHolds, Mentions, HandleClose, Call, GetConn;
    }
  }

  lemma OnlyBoundIsQueued(s: System, t: Step, c: ConnId, l: LoopId)
    requires Enabled(s, t) && l < |s.loops| && c != Bound(s, t) && !LoopHolds(s.loops[l], c)
    ensures |Apply(s, t).loops| == |s.loops| && !LoopHolds(Apply(s, t).loops[l], c)
  {
    PendingGrows(s, t, l);
    var f := Posted(s, t);
    assert f.c == Bound(s, t);
    hide Apply, Enabled, Posted, Bound;
    var loop, loop' := s.loops[l], Apply(s, t).loops[l];
    forall i | 0 <= i < |loop'.pending|
      ensures loop'.pending[i].c != c
    {
      if i < |loop.pending| {
        assert loop.pending[i].c != c;
      }
    }
  }

  lemma BoundIsAlive(s: System, t: Step)
    requires Safe(s) && Enabled(s, t) && (t.Close? || t.RunNext?)
    ensures Alive(s, Bound(s, t))
  {
    if t.RunNext? {
      var p := s.loops[t.l].phase;
      assert p.batch[p.next].c == Bound(s, t);
      assert LoopHolds(s.loops[t.l], Bound(s, t));
    }
  }

  /** kConnecting, kConnected, perhaps kDisconnecting, kDisconnected. */
  predicate LegalMove(before: State, after: State) {
    || before == after
    || (before == Connecting && after == Connected)
    || (before == Connected && after == Disconnecting)
    || ((before == Connected || before == Disconnecting) && after == Disconnected)
  }

  lemma {:induction false} Extend(s: System, steps: seq<Step>, t: Step) returns (longer: seq<Step>)
    requires IsRun(s, steps) && Enabled(Run(s, steps), t)
    ensures longer == steps + [t]
    ensures IsRun(s, longer) && Run(s, longer) == Apply(Run(s, steps), t)
    decreases |steps|
  {
    hide Enabled, Apply;
    longer := steps + [t];
    if steps == [] {
      assert longer[1..] == [];
    } else {
      var more := Extend(Apply(s, steps[0]), steps[1..], t);
      assert longer[1..] == more;
    }
  }

  /** One connection on loop 1 whose handler has just closed it; loop 0 is between handlers. */
  const JUST_CLOSED := System(
    [Conn(1, Connected, false, false, Deleted, 1, 0)], {0}, {}, {},
    [Loop(Handling([], Idle), [Remove(0)]), Loop(Handling([], Inside(0, true)), [])], false)

  const JUST_ACCEPTED := System(
    [Conn(1, Connecting, false, false, New, 0, 0)], {0}, {}, {},
    [Loop(Handling([], Idle), []), Loop(Polling, [Establish(0)])], false)

  lemma ReachJustAccepted() returns (steps: seq<Step>)
    ensures IsRun(Start(2), steps) && Run(Start(2), steps) == JUST_ACCEPTED
  {
    var s := Start(2);
    assert s == System([], {}, {}, {}, [Loop(Polling, []), Loop(Polling, [])], false);
    assert Run(s, []) == s;
    hide IsRun, Run, Start;
    steps := Extend(s, [], Poll(0, []));
    steps := Extend(s, steps, Accept(1));
    assert Run(s, steps).conns == JUST_ACCEPTED.conns && Run(s, steps).table == {0};
    assert Run(s, steps).loops[1].pending == [Establish(0)];
  }

  const JUST_UP := System(
    [Conn(1, Connected, true, false, Added, 0, 0)], {0}, {}, {},
    [Loop(Handling([], Idle), []), Loop(Polling, [])], false)

  lemma StepsUp()
    ensures Enabled(JUST_ACCEPTED, Poll(1, []))
    ensures var s1 := Apply(JUST_ACCEPTED, Poll(1, []));
      Enabled(s1, StartBatch(1)) &&
      var s2 := Apply(s1, StartBatch(1));
      Enabled(s2, RunNext(1)) &&
      var s3 := Apply(s2, RunNext(1));
      Enabled(s3, EndBatch(1)) && Apply(s3, EndBatch(1)) == JUST_UP
  {
    hide Inv, Safe, LoopHolds;
  }

  lemma ReachJustUp() returns (steps: seq<Step>)
    ensures IsRun(Start(2), steps) && Run(Start(2), steps) == JUST_UP
  {
    hide IsRun, Run, Start, Apply, Enabled;
    var s := Start(2);
    StepsUp();
    steps := ReachJustAccepted();
    steps := Extend(s, steps, Poll(1, []));
    steps := Extend(s, steps, StartBatch(1));
    steps := Extend(s, steps, RunNext(1));
    steps := Extend(s, steps, EndBatch(1));
  }

  lemma StepsToClose()
    ensures Enabled(JUST_UP, Poll(1, [0]))
    ensures var s1 := Apply(JUST_UP, Poll(1, [0]));
      Enabled(s1, Dispatch(1)) &&
      var s2 := Apply(s1, Dispatch(1));
      Enabled(s2, Close(1)) && Apply(s2, Close(1)) == JUST_CLOSED
  {
    hide Inv, Safe, LoopHolds;
    assert [0 as ConnId][1..] == [];
    assert [] + [Remove(0)] == [Remove(0)];
  }

  lemma ReachJustClosed() returns (steps: seq<Step>)
    ensures IsRun(Start(2), steps) && Run(Start(2), steps) == JUST_CLOSED
  {
    hide IsRun, Run, Start, Apply, Enabled;
    var s := Start(2);
    StepsToClose();
    steps := ReachJustUp();
    steps := Extend(s, steps, Poll(1, [0]));
    steps := Extend(s, steps, Dispatch(1));
    steps := Extend(s, steps, Close(1));
  }

  /** Once the handler has returned, another one or a timer on the same loop sends. The kernel refuses, so the
      closed channel is watched again. */
  const JUST_REWATCHED := System(
    [Conn(1, Connected, false, true, Added, 1, 0)], {0}, {}, {},
    [Loop(Handling([], Idle), [Remove(0)]), Loop(Polling, [])], false)

  lemma StepsToRewatch()
    ensures Enabled(JUST_CLOSED, EndEvent(1))
    ensures var s1 := Apply(JUST_CLOSED, EndEvent(1));
      Enabled(s1, SendBlocked(1, 0)) &&
      var s2 := Apply(s1, SendBlocked(1, 0));
      Enabled(s2, StartBatch(1)) &&
      var s3 := Apply(s2, StartBatch(1));
      Enabled(s3, EndBatch(1)) && Apply(s3, EndBatch(1)) == JUST_REWATCHED
  {
    hide Inv, Safe, LoopHolds;
  }

  /** Poll reports it and handleClose runs a second time. */
  const JUST_RECLOSED := System(
    [Conn(1, Connected, false, false, Deleted, 2, 0)], {0}, {}, {},
    [Loop(Handling([], Idle), [Remove(0), Remove(0)]), Loop(Handling([], Inside(0, true)), [])], false)

  lemma StepsToReclose()
    ensures Enabled(JUST_REWATCHED, Poll(1, [0]))
    ensures var s1 := Apply(JUST_REWATCHED, Poll(1, [0]));
      Enabled(s1, Dispatch(1)) &&
      var s2 := Apply(s1, Dispatch(1));
      Enabled(s2, Close(1)) && Apply(s2, Close(1)) == JUST_RECLOSED
  {
    hide Inv, Safe, LoopHolds;
    assert [0 as ConnId][1..] == [];
    assert [Remove(0)] + [Remove(0)] == [Remove(0), Remove(0)];
  }

  lemma StepsToFailure()
    ensures Enabled(JUST_RECLOSED, StartBatch(0))
    ensures var s1 := Apply(JUST_RECLOSED, StartBatch(0));
      Enabled(s1, RunNext(0)) &&
      var s2 := Apply(s1, RunNext(0));
      Enabled(s2, RunNext(0)) && Apply(s2, RunNext(0)).failed
  {
    hide Inv, Safe, LoopHolds;
  }

  /** Why the condition is there: a run from the start in which one send between handleClose and
      connectDestroyed makes the second erase fail its assert. */
  lemma SendToClosedFails() returns (steps: seq<Step>)
    ensures IsRun(Start(2), steps) && Run(Start(2), steps).failed
  {
    hide IsRun, Run, Start, Apply, Enabled;
    var s := Start(2);
    StepsToRewatch();
    StepsToReclose();
    StepsToFailure();
    steps := ReachJustClosed();
    steps := Extend(s, steps, EndEvent(1));
    steps := Extend(s, steps, SendBlocked(1, 0));
    steps := Extend(s, steps, StartBatch(1));
    steps := Extend(s, steps, EndBatch(1));
    steps := Extend(s, steps, Poll(1, [0]));
    steps := Extend(s, steps, Dispatch(1));
    steps := Extend(s, steps, Close(1));
    steps := Extend(s, steps, StartBatch(0));
    steps := Extend(s, steps, RunNext(0));
    steps := Extend(s, steps, RunNext(0));
  }

  /** A connection of a server with one loop; a thread that holds it has found it up in shutdown. */
  const JUST_READ := System(
    [Conn(0, Connected, true, false, Added, 0, 0)], {0}, {0}, {0}, [Loop(Handling([], Idle), [])], false)

  /** Before the shutdown: accepted, and kept by the other thread. */
  const ACCEPTED := System(
    [Conn(0, Connected, true, false, Added, 0, 0)], {0}, {}, {}, [Loop(Handling([], Idle), [])], false)

  lemma StepsToAccepted()
    ensures Enabled(Start(1), Poll(0, []))
    ensures var s1 := Apply(Start(1), Poll(0, []));
      Enabled(s1, Accept(0)) && Apply(s1, Accept(0)) == ACCEPTED
  {
    hide Inv, Safe, LoopHolds, HandleClose, Call;
    assert Start(1) == System([], {}, {}, {}, [Loop(Polling, [])], false);
  }

  lemma StepsToRead()
    ensures Enabled(Start(1), Poll(0, []))
    ensures var s1 := Apply(Start(1), Poll(0, []));
      Enabled(s1, Accept(0)) &&
      var s2 := Apply(s1, Accept(0));
      Enabled(s2, Retain(0)) &&
      var s3 := Apply(s2, Retain(0));
      Enabled(s3, ShutdownReads(0)) && Apply(s3, ShutdownReads(0)) == JUST_READ
  {
    StepsToAccepted();
    hide Inv, Safe, LoopHolds, HandleClose, Call, ConnectEstablished;
    var s3 := ACCEPTED.(held := {0});
    assert Enabled(ACCEPTED, Retain(0)) && Apply(ACCEPTED, Retain(0)) == s3;
    assert Enabled(s3, ShutdownReads(0)) && Apply(s3, ShutdownReads(0)) == JUST_READ;
  }

  /** Meanwhile the peer has closed it. */
  const READ_AND_CLOSED := System(
    [Conn(0, Connected, false, false, Deleted, 1, 0)], {}, {0}, {0},
    [Loop(Handling([], Inside(0, true)), [Destroy(0)])], false)

  lemma StepsToReadAndClosed()
    ensures Enabled(JUST_READ, StartBatch(0))
    ensures var s1 := Apply(JUST_READ, StartBatch(0));
      Enabled(s1, EndBatch(0)) &&
      var s2 := Apply(s1, EndBatch(0));
      Enabled(s2, Poll(0, [0])) &&
      var s3 := Apply(s2, Poll(0, [0]));
      Enabled(s3, Dispatch(0)) &&
      var s4 := Apply(s3, Dispatch(0));
      Enabled(s4, Close(0)) && Apply(s4, Close(0)) == READ_AND_CLOSED
  {
    hide Inv, Safe, LoopHolds;
    assert [0 as ConnId][1..] == [];
    assert {0 as ConnId} - {0} == {};
    assert [] + [Destroy(0)] == [Destroy(0)];
  }

  /** ... and it has been destroyed. */
  const READ_AND_DESTROYED := System(
    [Conn(0, Disconnected, false, false, New, 1, 1)], {}, {0}, {0}, [Loop(Running([Destroy(0)], 1), [])], false)

  lemma StepsToDestroyed()
    ensures Enabled(READ_AND_CLOSED, EndEvent(0))
    ensures var s1 := Apply(READ_AND_CLOSED, EndEvent(0));
      Enabled(s1, StartBatch(0)) &&
      var s2 := Apply(s1, StartBatch(0));
      Enabled(s2, RunNext(0)) && Apply(s2, RunNext(0)) == READ_AND_DESTROYED
  {
    hide Inv, Safe, LoopHolds;
  }

  lemma WritesBack() returns (t: Step)
    ensures var s := READ_AND_DESTROYED;
      && Enabled(s, t) && LateShutdown(s, t) && t.c == 0
      && !LegalMove(GetConn(s, 0).state, GetConn(Apply(s, t), 0).state)
  {
    hide Inv, Safe, LoopHolds;
    t := ShutdownWrites(0, false);
  }

  lemma EmptyRun(s: System)
    ensures IsRun(s, []) && Run(s, []) == s
  {
  }

  /** Why the states may move back: a run from the start in which the write of a shutdown on another
      thread finds the connection destroyed. */
  lemma LateShutdownGoesBack() returns (steps: seq<Step>, t: Step)
    ensures IsRun(Start(1), steps) && Enabled(Run(Start(1), steps), t)
    ensures var s := Run(Start(1), steps);
      && LateShutdown(s, t) && t.c == 0 < |s.conns|
      && !LegalMove(GetConn(s, 0).state, GetConn(Apply(s, t), 0).state)
  {
    hide IsRun, Run, Start, Apply, Enabled, GetConn, LegalMove, LateShutdown;
    var s := Start(1);
    EmptyRun(s);
    StepsToRead();
    StepsToReadAndClosed();
    StepsToDestroyed();
    t := WritesBack();
    steps := Extend(s, [], Poll(0, []));
    steps := Extend(s, steps, Accept(0));
    steps := Extend(s, steps, Retain(0));
    steps := Extend(s, steps, ShutdownReads(0));
    steps := Extend(s, steps, StartBatch(0));
    steps := Extend(s, steps, EndBatch(0));
    steps := Extend(s, steps, Poll(0, [0]));
    steps := Extend(s, steps, Dispatch(0));
    steps := Extend(s, steps, Close(0));
    steps := Extend(s, steps, EndEvent(0));
    steps := Extend(s, steps, StartBatch(0));
    steps := Extend(s, steps, RunNext(0));
  }
}
