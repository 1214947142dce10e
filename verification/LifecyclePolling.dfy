/** The channels of a lifecycle as epoll sees them (irono/net/EPoller.cc): what each step does to a channel is a
    sequence of the operations proved legal there. */
module LifecyclePolling {
  import Channels
  import EPollers
  import opened Options
  import opened ConnectionStates
  import opened Lifecycle
  import opened LateSends

  function IndexValue(index: Index): int {
    match index
    case New => Channels.NEW
    case Added => EPollers.ADDED
    case Deleted => EPollers.DELETED
  }

  function MaskOf(conn: Conn): Channels.Mask {
    (if conn.reading then Channels.READ_EVENT else {}) + (if conn.writing then Channels.WRITE_EVENT else {})
  }

  /** A channel that the kernel mirrors. */
  function RegistrationOf(conn: Conn): EPollers.Registration {
    EPollers.Registration(
      IndexValue(conn.index), MaskOf(conn), if conn.index == Added then Some(MaskOf(conn)) else None)
  }

  /** What a step does to a connection's channel. */
  function OpsOf(s: System, t: Step, c: ConnId): seq<EPollers.Op>
    requires Enabled(s, t)
  {
    if c != Target(s, t) then []
    else match t
      case Accept(home) => if home == 0 then [EPollers.EnableReading] else []
      case Close(_) => [EPollers.DisableAll]
      case Drained(_) => [EPollers.DisableWriting]
      case SendBlocked(_, _) =>
        if GetConn(s, c).state == Connected && !GetConn(s, c).writing then [EPollers.EnableWriting] else []
      case RunNext(l) =>
        (match NextFunctor(s, l)
         case Establish(_) => [EPollers.EnableReading]
         case Remove(_) => []
         case Destroy(_) => [EPollers.DisableAll, EPollers.Remove])
      case _ => []
  }

  lemma OneOp(r: EPollers.Registration, op: EPollers.Op)
    requires op != EPollers.Remove
    ensures EPollers.IsRun(r, [op]) && EPollers.Run(r, [op]) == EPollers.AfterOp(r, op)
  {
    assert [op][1..] == [];
  }

  function Changed(conn: Conn, op: EPollers.Op): Conn
    requires op != EPollers.Remove
  {
    match op
    case EnableReading => conn.(reading := true)
    case EnableWriting => conn.(writing := true)
    case DisableWriting => conn.(writing := false)
    case DisableAll => conn.(reading := false, writing := false)
  }

  lemma MaskChanges(conn: Conn, op: EPollers.Op)
    requires op != EPollers.Remove
    ensures EPollers.MaskAfter(MaskOf(conn), op) == MaskOf(Changed(conn, op))
    ensures MaskOf(conn) == {} <==> !conn.reading && !conn.writing
  {
    assert Channels.In in Channels.READ_EVENT && Channels.Out in Channels.WRITE_EVENT;
  }

  /** Channel::update in the lifecycle is updateChannel of the poller. */
  lemma UpdatedIsEpoll(conn: Conn, op: EPollers.Op)
    requires op != EPollers.Remove
    ensures EPollers.AfterOp(RegistrationOf(conn), op) == RegistrationOf(Updated(Changed(conn, op)))
    ensures EPollers.Mirrors(RegistrationOf(conn))
  {
    MaskChanges(conn, op);
    MaskChanges(Changed(conn, op), op);
  }

  lemma DestroyIsEpoll(conn: Conn)
    requires conn.index != New
    ensures var ops := [EPollers.DisableAll, EPollers.Remove];
      && EPollers.IsRun(RegistrationOf(conn), ops)
      && EPollers.Run(RegistrationOf(conn), ops) == RegistrationOf(DisabledAll(conn).(index := New))
  {
    UpdatedIsEpoll(conn, EPollers.DisableAll);
    var r := RegistrationOf(DisabledAll(conn));
    assert [EPollers.DisableAll, EPollers.Remove][1..] == [EPollers.Remove];
    assert EPollers.IsRun(r, [EPollers.Remove]) by { assert [EPollers.Remove][1..] == []; }
  }

  lemma RunNextIsEpoll(s: System, l: LoopId)
    requires Tame(s) && Enabled(s, RunNext(l))
    ensures var c, t := NextFunctor(s, l).c, RunNext(l);
      && EPollers.IsRun(RegistrationOf(GetConn(s, c)), OpsOf(s, t, c))
      && EPollers.Run(RegistrationOf(GetConn(s, c)), OpsOf(s, t, c)) == RegistrationOf(GetConn(Apply(s, t), c))
  {
    var f := NextFunctor(s, l);
    var conn := GetConn(s, f.c);
    NextIsDue(Clean(s), l);
    CleanShape(s, f.c);
    CleanGet(s, f.c);
    assert FateOk(s, f.c);
    match f
    case Establish(_) =>
      OneOp(RegistrationOf(conn), EPollers.EnableReading);
      UpdatedIsEpoll(conn, EPollers.EnableReading);
    case Remove(_) =>
    case Destroy(_) => DestroyIsEpoll(conn);
  }

  predicate SameChannel(a: Conn, b: Conn) {
    a.reading == b.reading && a.writing == b.writing && a.index == b.index
  }

  lemma ChangedByStep(s: System, t: Step)
    requires Enabled(s, t) && (t.Close? ==> Tame(s)) && !t.RunNext?
    ensures var c, conn, conn' := Target(s, t), GetConn(s, Target(s, t)), GetConn(Apply(s, t), Target(s, t));
      var ops := OpsOf(s, t, c);
      && (ops != [] ==> |ops| == 1 && ops[0] != EPollers.Remove)
      && SameChannel(conn', if ops == [] then conn else Updated(Changed(conn, ops[0])))
  {
    hide LoopHolds, Mentions;
    if t.Close? { CleanClose(s, t.l); }
  }

  lemma ChangeIsEpoll(s: System, t: Step)
    requires Enabled(s, t) && (t.Close? ==> Tame(s)) && !t.RunNext?
    ensures var c := Target(s, t);
      && EPollers.IsRun(RegistrationOf(GetConn(s, c)), OpsOf(s, t, c))
      && EPollers.Run(RegistrationOf(GetConn(s, c)), OpsOf(s, t, c)) == RegistrationOf(GetConn(Apply(s, t), c))
  {
    hide Apply, Enabled, OpsOf, Tame, Updated;
    var c := Target(s, t);
    var conn, ops := GetConn(s, c), OpsOf(s, t, c);
    ChangedByStep(s, t);
    if ops != [] {
      assert ops == [ops[0]];
      OneOp(RegistrationOf(conn), ops[0]);
      UpdatedIsEpoll(conn, ops[0]);
    }
  }

  /** In every lifecycle, late sends included, a step does to each channel what OpsOf says, each epoll_ctl
      call it makes is legal, and so are the asserts of removeChannel. */
  lemma StepIsLegal(s: System, t: Step, c: ConnId)
    requires Tame(s) && Enabled(s, t) && c < |Apply(s, t).conns|
    ensures var r, ops := RegistrationOf(GetConn(s, c)), OpsOf(s, t, c);
      && EPollers.IsRun(r, ops) && EPollers.AllLegal(r, ops)
      && EPollers.Run(r, ops) == RegistrationOf(GetConn(Apply(s, t), c))
  {
    if c != Target(s, t) {
      NoOthersAppear(s, t, c);
      OthersStay(s, t, c);
    } else if t.RunNext? {
      RunNextIsEpoll(s, t.l);
    } else {
      ChangeIsEpoll(s, t);
    }
    UpdatedIsEpoll(GetConn(s, c), EPollers.DisableAll);
    EPollers.EveryControlIsLegal(RegistrationOf(GetConn(s, c)), OpsOf(s, t, c));
  }
}
