/** Client side connection attempts (irono/net/Connector.cc): who owns each socket, when the next attempt is made,
    and which calls lead to a failed assert. */
module ConnectorSpec {
  import opened Options
  import opened Histories

  const INIT_RETRY_DELAY_MS := 500
  const MAX_RETRY_DELAY_MS := 30_000

  type TimerNumber = nat

  datatype States = Disconnected | Connecting | Connected
  datatype Held = Nothing | Socket(number: nat)

  /** The errno groups that connect() tells apart, and what SO_ERROR and the self-connect test say. */
  datatype Attempt = UnderWay | Retryable | Hopeless
  datatype Verdict = Refused | SelfConnected | Established

  /** Sockets and timers are numbered in order of creation. `watched` is whether the channel is registered,
      `pending` are the timers that will fire, `timerId` is the last one armed. `closed`, `handed` and `delays`
      record the calls of sockets::close, newConnectionCallback_ and (since the last restart) runAfter. */
  datatype View = View(
    state: States, wanted: bool, channel: Held, watched: bool, resetQueued: bool,
    retryDelayMs: nat, pending: set<TimerNumber>, timerId: Option<TimerNumber>, armed: nat,
    created: nat, closed: seq<nat>, handed: seq<nat>, delays: seq<nat>)

  const START :=
    View(Disconnected, false, Nothing, false, false, INIT_RETRY_DELAY_MS, {}, None, 0, 0, [], [], [])

  function Min(a: nat, b: nat): nat { if a < b then a else b }

  function AfterRetry(v: View, number: nat): View {
    TriedLater(v.(closed := v.closed + [number]))
  }

  function TriedLater(v: View): View {
    var u := v.(state := Disconnected);
    if v.wanted then
      u.(pending := v.pending + {v.armed}, timerId := Some(v.armed), armed := v.armed + 1,
         delays := v.delays + [v.retryDelayMs], retryDelayMs := Min(v.retryDelayMs * 2, MAX_RETRY_DELAY_MS))
    else u
  }

  function AfterConnect(v: View, attempt: Attempt): View {
    var u := v.(created := v.created + 1);
    match attempt
    case UnderWay => u.(state := Connecting, channel := Socket(v.created), watched := true)
    case Retryable => AfterRetry(u, v.created)
    case Hopeless => u.(closed := v.closed + [v.created])
  }

  function AfterStartInLoop(v: View, attempt: Attempt): View {
    if v.wanted then AfterConnect(v, attempt) else v
  }

  function AfterHandleError(v: View): View
    requires v.channel.Socket?
  {
    AfterRetry(v.(watched := false, resetQueued := true), v.channel.number)
  }

  function AfterHandleWrite(v: View, verdict: Verdict): View
    requires v.state == Connecting ==> v.channel.Socket?
  {
    if v.state != Connecting then v
    else if verdict != Established then AfterHandleError(v)
    else
      var u := v.(watched := false, resetQueued := true, state := Connected);
      if v.wanted then u.(handed := v.handed + [v.channel.number])
      else u.(closed := v.closed + [v.channel.number])
  }

  /** What the event loop or the owner makes happen. A poll result may report an error, a writable
      socket, or both, and the error callback goes first. */
  datatype Step =
    | Start(attempt: Attempt)
    | TimerFires(timer: TimerNumber, attempt: Attempt)
    | Restart(attempt: Attempt)
    | Stop
    | Ready(error: bool, writable: bool, verdict: Verdict)
    | ResetChannel

  /** A poll result needs a watched channel, a timer must be pending, resetChannel be queued. */
  predicate Enabled(v: View, step: Step) {
    match step
    case TimerFires(timer, _) => timer in v.pending
    case Ready(_, _, _) => v.watched && v.channel.Socket?
    case ResetChannel => v.resetQueued
    case _ => true
  }

  function Restarted(v: View): View {
    v.(state := Disconnected, retryDelayMs := INIT_RETRY_DELAY_MS, wanted := true, delays := [])
  }

  function Apply(v: View, step: Step): View
    requires Enabled(v, step)
  {
    match step
    case Start(attempt) => AfterStartInLoop(v.(wanted := true), attempt)
    case TimerFires(timer, attempt) => AfterStartInLoop(v.(pending := v.pending - {timer}), attempt)
    case Restart(attempt) => AfterStartInLoop(Restarted(v), attempt)
    case Stop => v.(wanted := false, pending := if v.timerId.Some? then v.pending - {v.timerId.value} else v.pending)
    case Ready(error, writable, verdict) =>
      var u := if error then AfterHandleError(v) else v;
      if writable then AfterHandleWrite(u, verdict) else u
    case ResetChannel => v.(channel := Nothing, resetQueued := false)
  }

  /** The asserts the step runs into. */
  predicate AssertsHold(v: View, step: Step)
    requires Enabled(v, step)
  {
    match step
    case Start(attempt) => v.state == Disconnected && (attempt == UnderWay ==> v.channel == Nothing)
    case TimerFires(_, attempt) =>
      v.state == Disconnected && (v.wanted && attempt == UnderWay ==> v.channel == Nothing)
    case Restart(attempt) => attempt == UnderWay ==> v.channel == Nothing
    case Ready(error, writable, verdict) =>
      && (error ==> v.state == Connecting)
      && (writable && !error && v.state != Connecting ==> v.state == Disconnected)
    case _ => true
  }

  // ---- what holds between steps ----

  /** How often a socket has been closed or handed over, or is still being connected. */
  function Fates(v: View): multiset<nat> {
    multiset(v.closed) + multiset(v.handed)
      + if v.state == Connecting && v.channel.Socket? then multiset{v.channel.number} else multiset{}
  }

  ghost predicate EachOnce(v: View) {
    forall s: nat :: Fates(v)[s] == if s < v.created then 1 else 0
  }

  function Doubled(k: nat): nat {
    if k == 0 then INIT_RETRY_DELAY_MS else 2 * Doubled(k - 1)
  }

  /** min(500 * 2^k, 30000) */
  function DelayOf(k: nat): nat { Min(Doubled(k), MAX_RETRY_DELAY_MS) }

  predicate BacksOff(v: View) {
    && v.retryDelayMs == DelayOf(|v.delays|)
    && forall k :: 0 <= k < |v.delays| ==> v.delays[k] == DelayOf(k)
  }

  predicate ChannelOk(v: View) {
    && (v.watched <==> v.state == Connecting)
    && (v.channel.Socket? <==> v.watched || v.resetQueued)
    && !(v.watched && v.resetQueued)
  }

  /** At most one retry is pending, the last one armed, and only while it is called for. */
  predicate TimersOk(v: View) {
    && (v.timerId.Some? ==> v.timerId.value < v.armed)
    && (v.pending != {} ==>
          v.timerId.Some? && v.pending == {v.timerId.value} && v.state == Disconnected && v.wanted)
  }

  ghost predicate Inv(v: View) {
    ChannelOk(v) && TimersOk(v) && EachOnce(v) && BacksOff(v)
  }

  /** What a caller can check before the call, and the loop before it fires a retry. */
  predicate Orderly(v: View, step: Step) {
    match step
    case Start(attempt) => v.state == Disconnected && CalledFor(v, attempt)
    case Restart(attempt) => v.state != Connecting && CalledFor(v, attempt)
    case TimerFires(_, attempt) => v.resetQueued ==> attempt != UnderWay
    case _ => true
  }

  /** Unless the attempt comes to nothing, no retry may be pending; and one that gets under way needs the old
      channel gone. */
  predicate CalledFor(v: View, attempt: Attempt) {
    && (v.pending != {} ==> attempt == Hopeless)
    && (v.resetQueued ==> attempt != UnderWay)
  }

  lemma {:induction false} DelayGrows(k: nat)
    ensures DelayOf(k + 1) == Min(DelayOf(k) * 2, MAX_RETRY_DELAY_MS)
  {
    assert Doubled(k + 1) == 2 * Doubled(k);
  }

  lemma RetryBacksOff(v: View, number: nat)
    requires BacksOff(v)
    ensures BacksOff(AfterRetry(v, number))
  {
    DelayGrows(|v.delays|);
  }

  lemma AttemptBacksOff(v: View, attempt: Attempt)
    requires BacksOff(v)
    ensures BacksOff(AfterStartInLoop(v, attempt))
  {
    if attempt == Retryable { RetryBacksOff(v.(created := v.created + 1), v.created); }
  }

  /** Whatever the owner does, the delays keep their law. */
  lemma StepKeepsBackoff(v: View, step: Step)
    requires BacksOff(v) && Enabled(v, step)
    ensures BacksOff(Apply(v, step))
  {
    match step
    case Start(attempt) => AttemptBacksOff(v.(wanted := true), attempt);
    case TimerFires(timer, attempt) => AttemptBacksOff(v.(pending := v.pending - {timer}), attempt);
    case Restart(attempt) => AttemptBacksOff(Restarted(v), attempt);
    case Ready(_, _, _) => RetryBacksOff(v.(watched := false, resetQueued := true), v.channel.number);
    case _ =>
  }

  lemma SameFates(v: View, u: View)
    requires EachOnce(v) && v.created == u.created && Fates(v) == Fates(u)
    ensures EachOnce(u)
  {
    forall s: nat
      ensures Fates(u)[s] == if s < u.created then 1 else 0
    {
      assert Fates(v)[s] == if s < v.created then 1 else 0;
    }
  }

  lemma ConnectSettles(v: View, attempt: Attempt)
    requires EachOnce(v) && v.state != Connecting
    ensures EachOnce(AfterConnect(v, attempt))
  {
    var u := AfterConnect(v, attempt);
    assert Fates(u) == Fates(v) + multiset{v.created} by {
      assert attempt != UnderWay ==> multiset(u.closed) == multiset(v.closed) + multiset{v.created};
    }
    forall s: nat
      ensures Fates(u)[s] == if s < u.created then 1 else 0
    {
      assert Fates(v)[s] == if s < v.created then 1 else 0;
    }
  }

  /** The socket has moved from the channel to `closed` or to `handed`. */
  predicate Disposed(v: View, u: View) {
    && v.state == Connecting && v.channel.Socket? && u.state != Connecting && u.created == v.created
    && var last := [v.channel.number];
    || (u.closed == v.closed + last && u.handed == v.handed)
    || (u.closed == v.closed && u.handed == v.handed + last)
  }

  lemma DisposedFates(v: View, u: View)
    requires Disposed(v, u)
    ensures Fates(u) == Fates(v) && u.created == v.created
  {
  }

  lemma ReadyDisposes(v: View, step: Step)
    requires step.Ready? && ChannelOk(v) && Enabled(v, step)
    ensures Apply(v, step) == v || Disposed(v, Apply(v, step))
  {
  }

  lemma ReadySettles(v: View, step: Step)
    requires step.Ready? && ChannelOk(v) && EachOnce(v) && Enabled(v, step)
    ensures EachOnce(Apply(v, step))
  {
    hide EachOnce, Apply, Enabled, ChannelOk, Disposed;
    ReadyDisposes(v, step);
    var u := Apply(v, step);
    if u != v {
      DisposedFates(v, u);
      SameFates(v, u);
    }
  }

  lemma StepSettles(v: View, step: Step)
    requires ChannelOk(v) && EachOnce(v) && Enabled(v, step) && AssertsHold(v, step)
    requires step.Restart? ==> v.state != Connecting
    ensures EachOnce(Apply(v, step))
  {
    hide EachOnce;
    match step
    case Start(attempt) =>
      SameFates(v, v.(wanted := true));
      ConnectSettles(v.(wanted := true), attempt);
    case TimerFires(timer, attempt) =>
      var u := v.(pending := v.pending - {timer});
      SameFates(v, u);
      ConnectSettles(u, attempt);
    case Restart(attempt) =>
      SameFates(v, Restarted(v));
      ConnectSettles(Restarted(v), attempt);
    case Ready(_, _, _) => ReadySettles(v, step);
    case _ => SameFates(v, Apply(v, step));
  }

  lemma StepKeepsChannel(v: View, step: Step)
    requires ChannelOk(v) && TimersOk(v) && Enabled(v, step) && Orderly(v, step)
    ensures AssertsHold(v, step) && ChannelOk(Apply(v, step)) && TimersOk(Apply(v, step))
  {
  }

  /** Every orderly step keeps the invariant and none of its asserts fails. */
  lemma StepKeepsInv(v: View, step: Step)
    requires Inv(v) && Enabled(v, step) && Orderly(v, step)
    ensures AssertsHold(v, step) && Inv(Apply(v, step))
  {
    hide EachOnce, BacksOff, ChannelOk, TimersOk, Apply;
    StepKeepsChannel(v, step);
    StepSettles(v, step);
    StepKeepsBackoff(v, step);
  }

  ghost predicate OrderlyRun(v: View, steps: seq<Step>)
    decreases steps
  {
    steps == [] ||
    (Enabled(v, steps[0]) && Orderly(v, steps[0]) && OrderlyRun(Apply(v, steps[0]), steps[1..]))
  }

  ghost function Run(v: View, steps: seq<Step>): View
    requires OrderlyRun(v, steps)
    decreases steps
  {
    if steps == [] then v else Run(Apply(v, steps[0]), steps[1..])
  }

  lemma {:induction false} RunsKeepInv(v: View, steps: seq<Step>)
    requires Inv(v) && OrderlyRun(v, steps)
    ensures Inv(Run(v, steps))
    decreases steps
  {
    hide Inv;
    if steps == [] {
    } else {
      StepKeepsInv(v, steps[0]);
      RunsKeepInv(Apply(v, steps[0]), steps[1..]);
    }
  }

  // ---- which calls are safe ----

  /** Some orderly continuation runs into a failing assert, at a step that is orderly itself. */
  ghost predicate CanFail(v: View) {
    exists steps, step ::
      OrderlyRun(v, steps) && Enabled(Run(v, steps), step) && Orderly(Run(v, steps), step) &&
      !AssertsHold(Run(v, steps), step)
  }

  lemma OrderlyCannotFail(v: View)
    requires Inv(v)
    ensures !CanFail(v)
  {
    hide Inv, AssertsHold, Orderly, Enabled, Apply;
    forall steps, step | OrderlyRun(v, steps) && Enabled(Run(v, steps), step) && Orderly(Run(v, steps), step)
      ensures AssertsHold(Run(v, steps), step)
    {
      RunsKeepInv(v, steps);
      StepKeepsInv(Run(v, steps), step);
    }
  }

  lemma FailsNow(v: View, step: Step)
    requires Enabled(v, step) && Orderly(v, step) && !AssertsHold(v, step)
    ensures CanFail(v)
  {
    assert OrderlyRun(v, []) && Run(v, []) == v;
  }

  lemma FailsAfter(v: View, step: Step)
    requires Enabled(v, step) && Orderly(v, step) && CanFail(Apply(v, step))
    ensures CanFail(v)
  {
    hide AssertsHold, Orderly, Enabled, Apply;
    var u := Apply(v, step);
    var steps, last :| OrderlyRun(u, steps) && Enabled(Run(u, steps), last) && Orderly(Run(u, steps), last) &&
      !AssertsHold(Run(u, steps), last);
    var all := [step] + steps;
    assert all[1..] == steps;
    assert OrderlyRun(v, all) && Run(v, all) == Run(u, steps);
  }

  /** A retry that fires into an attempt under way fails the assert of startInLoop. */
  lemma RetryIntoAttemptFails(v: View, timer: TimerNumber)
    requires timer in v.pending && v.state != Disconnected
    ensures CanFail(v)
  {
    FailsNow(v, TimerFires(timer, Hopeless));
  }

  /** Of two retries, one can fire into the attempt of the other. */
  lemma TwoRetriesFail(v: View, a: TimerNumber, b: TimerNumber)
    requires a != b && a in v.pending && b in v.pending && v.wanted
    ensures CanFail(v)
  {
    var u := if v.resetQueued then Apply(v, ResetChannel) else v;
    var fires := TimerFires(a, UnderWay);
    if AssertsHold(u, fires) {
      RetryIntoAttemptFails(Apply(u, fires), b);
      FailsAfter(u, fires);
    } else {
      FailsNow(u, fires);
    }
    if v.resetQueued {
      FailsAfter(v, ResetChannel);
    }
  }

  /** An attempt that was restarted while under way is still watched, and its error handler fails. */
  lemma OrphanFails(v: View)
    requires v.watched && v.channel.Socket? && v.state != Connecting
    ensures CanFail(v)
  {
    FailsNow(v, Ready(true, false, Refused));
  }

  lemma DisorderlyFails(v: View, step: Step)
    requires Inv(v) && Enabled(v, step) && !Orderly(v, step) && AssertsHold(v, step)
    ensures CanFail(Apply(v, step))
  {
    var u := Apply(v, step);
    if step.Restart? && v.state == Connecting {
      OrphanFails(u);
    } else if step.attempt == UnderWay {
      RetryIntoAttemptFails(u, v.timerId.value);
    } else {
      TwoRetriesFail(u, v.timerId.value, v.armed);
    }
  }

  /** The exact condition, for every call and every event: it fails an assert, at once or in some orderly
      continuation, if and only if it is not orderly. */
  lemma FailsIffDisorderly(v: View, step: Step)
    requires Inv(v) && Enabled(v, step)
    ensures !AssertsHold(v, step) || CanFail(Apply(v, step)) <==> !Orderly(v, step)
  {
    hide EachOnce, BacksOff, Apply, CanFail;
    if Orderly(v, step) {
      StepKeepsInv(v, step);
      OrderlyCannotFail(Apply(v, step));
    } else if AssertsHold(v, step) {
      DisorderlyFails(v, step);
    }
  }

  ghost predicate IsSafe(v: View, step: Step)
    requires Enabled(v, step)
  {
    AssertsHold(v, step) && !CanFail(Apply(v, step))
  }

  /** What a caller can check before the call: exactly when it is safe whatever connect(2) answers. */
  lemma SafeWhateverTheOutcome(v: View, timer: TimerNumber)
    requires Inv(v)
    ensures (forall attempt :: IsSafe(v, Start(attempt))) <==>
      v.state == Disconnected && v.pending == {} && !v.resetQueued
    ensures (forall attempt :: IsSafe(v, Restart(attempt))) <==>
      v.state != Connecting && v.pending == {} && !v.resetQueued
    ensures timer in v.pending ==> ((forall attempt :: IsSafe(v, TimerFires(timer, attempt))) <==> !v.resetQueued)
  {
    hide Inv, IsSafe;
    forall attempt
      ensures IsSafe(v, Start(attempt)) <==> Orderly(v, Start(attempt))
      ensures IsSafe(v, Restart(attempt)) <==> Orderly(v, Restart(attempt))
      ensures timer in v.pending ==>
        (IsSafe(v, TimerFires(timer, attempt)) <==> Orderly(v, TimerFires(timer, attempt)))
    {
      SafeIffOrderly(v, Start(attempt));
      SafeIffOrderly(v, Restart(attempt));
      if timer in v.pending {
        SafeIffOrderly(v, TimerFires(timer, attempt));
      }
    }
    assert Orderly(v, Start(UnderWay)) <==> v.state == Disconnected && v.pending == {} && !v.resetQueued;
    assert Orderly(v, Restart(UnderWay)) <==> v.state != Connecting && v.pending == {} && !v.resetQueued;
    assert timer in v.pending ==> (Orderly(v, TimerFires(timer, UnderWay)) <==> !v.resetQueued);
  }

  lemma SafeIffOrderly(v: View, step: Step)
    requires Inv(v) && Enabled(v, step)
    ensures IsSafe(v, step) <==> Orderly(v, step)
  {
    FailsIffDisorderly(v, step);
  }

  /** Exactly which asserts fail at once. */
  lemma StartAsserts(v: View, attempt: Attempt, timer: TimerNumber)
    requires Inv(v)
    ensures AssertsHold(v, Start(attempt)) <==>
      v.state == Disconnected && (attempt == UnderWay ==> !v.resetQueued)
    ensures AssertsHold(v, Restart(attempt)) <==>
      (attempt == UnderWay ==> v.state != Connecting && !v.resetQueued)
    ensures timer in v.pending ==>
      (AssertsHold(v, TimerFires(timer, attempt)) <==> (attempt == UnderWay ==> !v.resetQueued))
  {
    hide EachOnce, BacksOff;
  }

  /** The destructor's assert(!channel_) holds exactly when no attempt is under way or being cleared. */
  lemma DestructorAsserts(v: View)
    requires Inv(v)
    ensures v.channel == Nothing <==> v.state != Connecting && !v.resetQueued
  {
    hide EachOnce, BacksOff;
  }

  lemma StartIsOk()
    ensures Inv(START)
  {
    assert Fates(START) == multiset{};
  }

  lemma {:induction false} Extend(v: View, steps: seq<Step>, step: Step) returns (longer: seq<Step>)
    requires OrderlyRun(v, steps) && Enabled(Run(v, steps), step) && Orderly(Run(v, steps), step)
    ensures OrderlyRun(v, longer) && Run(v, longer) == Apply(Run(v, steps), step)
    decreases |steps|
  {
    hide Enabled, Apply, Orderly;
    longer := [step];
    if steps == [] {
      assert longer[1..] == [];
    } else {
      var more := Extend(Apply(v, steps[0]), steps[1..], step);
      longer := [steps[0]] + more;
      assert longer[1..] == more;
    }
  }

  /** Reconnecting from inside the new-connection callback comes before resetChannel: a run from the start
      after which an attempt that gets under way fails assert(!channel_). */
  lemma RestartInsideCallbackFails() returns (steps: seq<Step>)
    ensures OrderlyRun(START, steps)
    ensures var v := Run(START, steps);
      && v.state == Connected && v.handed == [0] && v.resetQueued
      && !AssertsHold(v, Restart(UnderWay))
  {
    steps := Extend(START, [], Start(UnderWay));
    steps := Extend(START, steps, Ready(false, true, Established));
  }

  /** Starting while a retry is pending: the start itself is fine, and then the retry fires into it. */
  lemma StartWhilePendingFails() returns (steps: seq<Step>)
    ensures OrderlyRun(START, steps)
    ensures var v := Run(START, steps);
      && v.pending == {0} && AssertsHold(v, Start(UnderWay))
      && !AssertsHold(Apply(v, Start(UnderWay)), TimerFires(0, UnderWay))
  {
    steps := Extend(START, [], Start(Retryable));
  }

  /** A second retryable start while a retry is pending overwrites timerId_: stop then cancels only the newer of
      the two timers. */
  lemma StopMissesOlderTimer() returns (steps: seq<Step>)
    ensures OrderlyRun(START, steps)
    ensures var v := Run(START, steps);
      && v.pending == {0} && AssertsHold(v, Start(Retryable))
      && Apply(Apply(v, Start(Retryable)), Stop).pending == {0}
  {
    steps := Extend(START, [], Start(Retryable));
  }

  // ---- every run ----

  // ---- what a run was asked for, by its steps ----

  /** Whether the owner's last word was to connect. */
  predicate Asked(steps: seq<Step>)
    decreases |steps|
  {
    steps != [] && Last(steps) != Stop && (Last(steps).Start? || Last(steps).Restart? || Asked(Before(steps)))
  }

  predicate Connects(step: Step) {
    step.Start? || step.Restart? || step.TimerFires?
  }

  function Attempts(steps: seq<Step>): nat
    decreases |steps|
  {
    if steps == [] then 0 else Attempts(Before(steps)) + if Connects(Last(steps)) then 1 else 0
  }

  /** A step that ends an attempt which did not succeed and may yet. */
  predicate Fails(step: Step) {
    if Connects(step) then step.attempt == Retryable
    else step.Ready? && (step.error || (step.writable && step.verdict != Established))
  }

  /** How many retries were called for since the last restart. */
  function Retries(steps: seq<Step>): nat
    decreases |steps|
  {
    if steps == [] then 0
    else
      (if Last(steps).Restart? then 0 else Retries(Before(steps)))
        + if Fails(Last(steps)) && Asked(steps) then 1 else 0
  }

  predicate IsHistory(v: View, steps: seq<Step>) {
    (v.wanted <==> Asked(steps)) && v.created == Attempts(steps) && |v.delays| == Retries(steps)
  }

  lemma {:induction false} RunLast(v: View, steps: seq<Step>, step: Step)
    requires OrderlyRun(v, steps + [step])
    ensures OrderlyRun(v, steps)
    ensures var u := Run(v, steps);
      Enabled(u, step) && Orderly(u, step) && Run(v, steps + [step]) == Apply(u, step)
    decreases |steps|
  {
    hide Enabled, Apply, Orderly;
    if steps == [] {
      assert (steps + [step])[1..] == [];
    } else {
      assert (steps + [step])[1..] == steps[1..] + [step];
      RunLast(Apply(v, steps[0]), steps[1..], step);
    }
  }

  lemma StepKeepsHistory(v: View, steps: seq<Step>)
    requires steps != [] && Inv(v) && Enabled(v, Last(steps)) && Orderly(v, Last(steps))
    requires IsHistory(v, Before(steps))
    ensures IsHistory(Apply(v, Last(steps)), steps)
  {
    hide EachOnce, BacksOff;
  }

  lemma {:induction false} HistoryOfRun(steps: seq<Step>)
    requires OrderlyRun(START, steps)
    ensures IsHistory(Run(START, steps), steps)
    decreases |steps|
  {
    if steps == [] {
    } else {
      assert steps == Before(steps) + [Last(steps)];
      RunLast(START, Before(steps), Last(steps));
      HistoryOfRun(Before(steps));
      StartIsOk();
      RunsKeepInv(START, Before(steps));
      hide Apply, Enabled, Inv, Orderly;
      StepKeepsHistory(Run(START, Before(steps)), steps);
    }
  }

  /** After any orderly run with no attempt under way, every socket ever created has been closed
      once or handed over once, never both; there was one for each attempt; and retry k since the last restart waited
      min(500 * 2^k, 30000) milliseconds. How many those were, and whether a connection is wanted, is read
      off the steps. */
  lemma EveryRun(steps: seq<Step>)
    requires OrderlyRun(START, steps)
    ensures var v := Run(START, steps);
      && (v.wanted <==> Asked(steps)) && v.created == Attempts(steps) && |v.delays| == Retries(steps)
      && (v.state != Connecting ==>
            forall s: nat :: multiset(v.closed)[s] + multiset(v.handed)[s] == if s < v.created then 1 else 0)
      && (v.state == Connecting ==>
            v.channel.Socket? && v.channel.number !in v.closed && v.channel.number !in v.handed)
      && forall k :: 0 <= k < |v.delays| ==> v.delays[k] == DelayOf(k)
  {
    StartIsOk();
    RunsKeepInv(START, steps);
    HistoryOfRun(steps);
    InvSettles(Run(START, steps));
  }

  lemma InvSettles(v: View)
    requires Inv(v)
    ensures v.state != Connecting ==>
      forall s: nat :: multiset(v.closed)[s] + multiset(v.handed)[s] == if s < v.created then 1 else 0
    ensures v.state == Connecting ==>
      v.channel.Socket? && v.channel.number !in v.closed && v.channel.number !in v.handed
  {
    if v.state != Connecting {
      assert Fates(v) == multiset(v.closed) + multiset(v.handed);
      forall s: nat
        ensures multiset(v.closed)[s] + multiset(v.handed)[s] == if s < v.created then 1 else 0
      {
        assert Fates(v)[s] == if s < v.created then 1 else 0;
      }
    } else {
      var number := v.channel.number;
      assert Fates(v)[number] == if number < v.created then 1 else 0;
      assert number in v.closed ==> multiset(v.closed)[number] >= 1;
      assert number in v.handed ==> multiset(v.handed)[number] >= 1;
    }
  }

  /** The delays in full: 500, 1000, ..., 16000, 30000, 30000, ... */
  lemma {:induction false} Capped(k: nat)
    ensures DelayOf(k) == if k < 6 then [500, 1000, 2000, 4000, 8000, 16000][k] else 30_000
  {
    if k > 0 {
      Capped(k - 1);
      DelayGrows(k - 1);
    }
  }

  /** What becomes of the socket that poll reports: it is handed over exactly when it is established
      and still wanted, else closed; and a retry is pending afterwards exactly when one is called for. */
  lemma ReportedSocketFate(v: View, step: Step)
    requires Inv(v) && Enabled(v, step) && step.Ready? && (step.error || step.writable)
    ensures var u, up := Apply(v, step), !step.error && step.verdict == Established;
      && u.handed == v.handed + (if up && v.wanted then [v.channel.number] else [])
      && u.closed == v.closed + (if up && v.wanted then [] else [v.channel.number])
      && u.state == (if up then Connected else Disconnected)
      && u.pending == (if v.wanted && !up then {v.armed} else {})
      && u.delays == v.delays + (if v.wanted && !up then [DelayOf(|v.delays|)] else [])
  {
    hide EachOnce;
    assert v.closed + [] == v.closed && v.handed + [] == v.handed && v.delays + [] == v.delays;
  }

  /** What becomes of a new attempt: under way, it holds its socket; else the socket is closed, and
      only a hopeless one leaves no retry pending. */
  lemma AttemptFate(v: View, attempt: Attempt)
    requires Inv(v) && Orderly(v, Start(attempt))
    ensures var u := Apply(v, Start(attempt));
      && (attempt == UnderWay <==> u.state == Connecting && u.channel == Socket(v.created))
      && u.closed == v.closed + (if attempt == UnderWay then [] else [v.created])
      && u.pending == v.pending + (if attempt == Retryable then {v.armed} else {})
      && u.delays == v.delays + (if attempt == Retryable then [DelayOf(|v.delays|)] else [])
  {
    hide EachOnce;
    assert v.closed + [] == v.closed && v.delays + [] == v.delays;
  }

  /** The same after a restart, whose back-off starts over. */
  lemma RestartFate(v: View, attempt: Attempt)
    requires Inv(v) && Orderly(v, Restart(attempt))
    ensures var u := Apply(v, Restart(attempt));
      && (attempt == UnderWay <==> u.state == Connecting && u.channel == Socket(v.created))
      && u.closed == v.closed + (if attempt == UnderWay then [] else [v.created])
      && u.pending == v.pending + (if attempt == Retryable then {v.armed} else {})
      && u.delays == (if attempt == Retryable then [500] else [])
      && u.retryDelayMs == (if attempt == Retryable then 1000 else 500)
  {
    hide EachOnce;
    assert v.closed + [] == v.closed;
  }

  /** After stop, no retry will be made and nothing more is handed over, until the owner starts again. */
  lemma {:induction false} StoppedStaysStopped(v: View, steps: seq<Step>)
    requires Inv(v) && !v.wanted && OrderlyRun(v, steps)
    requires forall step :: step in steps ==> !step.Start? && !step.Restart?
    ensures var u := Run(v, steps);
      !u.wanted && u.pending == {} && u.created == v.created && u.handed == v.handed
    decreases steps
  {
    if steps == [] {
    } else {
      var step := steps[0];
      assert step in steps && forall x :: x in steps[1..] ==> x in steps;
      StepKeepsInv(v, step);
      StoppedStaysStopped(Apply(v, step), steps[1..]);
    }
  }
}
