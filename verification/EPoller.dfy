/** Channels (irono/net/Channel.h) registered with epoll (irono/net/EPoller.cc): a three-valued index in
    each channel against the interest set that the kernel keeps. */
module EPollers {
  import opened Channels
  import opened Options

  const ADDED := 1
  const DELETED := 2

  // ---- what one channel goes through ----

  /** A channel's index and mask, and what the kernel watches for its fd, if anything. */
  datatype Registration = Registration(index: int, events: Mask, interest: Option<Mask>)

  datatype Op = EnableReading | EnableWriting | DisableWriting | DisableAll | Remove

  function MaskAfter(events: Mask, op: Op): Mask {
    match op
    case EnableReading => events + READ_EVENT
    case EnableWriting => events + WRITE_EVENT
    case DisableWriting => events - WRITE_EVENT
    case DisableAll => {}
    case Remove => events
  }

  /** The epoll_ctl call an operation leads to. */
  datatype Control = CtlAdd | CtlMod | CtlDel | CtlNone

  function ControlOf(r: Registration, op: Op): Control {
    if op == Remove then (if r.index == ADDED then CtlDel else CtlNone)
    else if r.index == NEW || r.index == DELETED then CtlAdd
    else if MaskAfter(r.events, op) == {} then CtlDel
    else CtlMod
  }

  /** epoll_ctl accepts ADD for an unwatched fd only, MOD and DEL for a watched one only. */
  predicate Legal(r: Registration, c: Control) {
    match c
    case CtlAdd => r.interest.None?
    case CtlMod => r.interest.Some?
    case CtlDel => r.interest.Some?
    case CtlNone => true
  }

  function IndexAfter(r: Registration, op: Op): int {
    if op == Remove then NEW
    else if r.index == NEW || r.index == DELETED then ADDED
    else if MaskAfter(r.events, op) == {} then DELETED
    else ADDED
  }

  function AfterOp(r: Registration, op: Op): Registration {
    var events := MaskAfter(r.events, op);
    var interest := match ControlOf(r, op)
      case CtlAdd => Some(events)
      case CtlMod => Some(events)
      case CtlDel => None
      case CtlNone => r.interest;
    Registration(IndexAfter(r, op), events, interest)
  }

  /** The kernel watches a channel exactly when its index is kAdded, and with its current mask. */
  predicate Mirrors(r: Registration) {
    && r.index in {NEW, ADDED, DELETED}
    && r.interest == if r.index == ADDED then Some(r.events) else None
  }

  /** removeChannel asserts this. */
  predicate Removable(r: Registration) {
    r.events == {} && (r.index == ADDED || r.index == DELETED)
  }

  predicate IsRun(r: Registration, ops: seq<Op>)
    decreases |ops|
  {
    ops == [] || ((ops[0] == Remove ==> Removable(r)) && IsRun(AfterOp(r, ops[0]), ops[1..]))
  }

  function Run(r: Registration, ops: seq<Op>): Registration
    decreases |ops|
  {
    if ops == [] then r else Run(AfterOp(r, ops[0]), ops[1..])
  }

  predicate AllLegal(r: Registration, ops: seq<Op>)
    decreases |ops|
  {
    ops == [] || (Legal(r, ControlOf(r, ops[0])) && AllLegal(AfterOp(r, ops[0]), ops[1..]))
  }

  /** In every run, a second disableAll included, each epoll_ctl call is legal. */
  lemma {:induction false} EveryControlIsLegal(r: Registration, ops: seq<Op>)
    requires Mirrors(r) && IsRun(r, ops)
    ensures AllLegal(r, ops) && Mirrors(Run(r, ops))
    decreases |ops|
  {
    if ops == [] {
    } else {
      EveryControlIsLegal(AfterOp(r, ops[0]), ops[1..]);
    }
  }

  predicate TurnsOn(op: Op, e: PollEvent) {
    if e == Out then op == EnableWriting else op == EnableReading
  }

  predicate TurnsOff(op: Op, e: PollEvent) {
    op == DisableAll || (e == Out && op == DisableWriting)
  }

  predicate NeverOff(ops: seq<Op>, e: PollEvent) {
    forall op :: op in ops ==> !TurnsOff(op, e)
  }

  /** Which events a channel asks for, by its operations alone: those whose last switch turned them on. */
  lemma {:induction false} MaskByOps(r: Registration, ops: seq<Op>, e: PollEvent)
    ensures e in Run(r, ops).events <==>
      || (e in r.events && NeverOff(ops, e))
      || exists i :: 0 <= i < |ops| && TurnsOn(ops[i], e) && NeverOff(ops[i + 1..], e)
    decreases |ops|
  {
    if ops == [] {
    } else {
      var op, rest := ops[0], ops[1..];
      MaskByOps(AfterOp(r, op), rest, e);
      assert ops == [op] + rest;
      assert NeverOff(ops, e) <==> !TurnsOff(op, e) && NeverOff(rest, e);
      assert e in AfterOp(r, op).events <==> TurnsOn(op, e) || (e in r.events && !TurnsOff(op, e));
      forall i | 0 <= i < |rest|
        ensures rest[i] == ops[i + 1] && rest[i + 1..] == ops[i + 2..]
      {
      }
      hide TurnsOn, TurnsOff, NeverOff;
      if i :| 0 <= i < |rest| && TurnsOn(rest[i], e) && NeverOff(rest[i + 1..], e) {
        assert TurnsOn(ops[i + 1], e) && NeverOff(ops[i + 2..], e);
      }
      if i :| 0 <= i < |ops| && TurnsOn(ops[i], e) && NeverOff(ops[i + 1..], e) {
        assert i > 0 ==> TurnsOn(rest[i - 1], e) && NeverOff(rest[i..], e);
      }
      if TurnsOn(op, e) && NeverOff(rest, e) {
        assert TurnsOn(ops[0], e) && NeverOff(ops[1..], e);
      }
    }
  }

  /** What handleClose and connectDestroyed do to a channel, whatever was enabled on it before: the first
      disableAll stops the kernel watching, the second starts it again with an empty mask, and the
      removal stops it for good. */
  lemma CloseThenDestroy(r: Registration)
    requires Mirrors(r) && r.index == ADDED && r.events != {}
    ensures var closed := AfterOp(r, DisableAll);
      && closed == Registration(DELETED, {}, None)
      && AfterOp(closed, DisableAll) == Registration(ADDED, {}, Some({}))
      && IsRun(r, [DisableAll, DisableAll, Remove])
      && Run(r, [DisableAll, DisableAll, Remove]) == Registration(NEW, {}, None)
  {
    var ops := [DisableAll, DisableAll, Remove];
    assert ops[1..] == [DisableAll, Remove];
    assert ops[1..][1..] == [Remove];
    assert ops[1..][1..][1..] == [];
    assert IsRun(AfterOp(AfterOp(r, DisableAll), DisableAll), [Remove]);
  }

  // ---- the objects ----

  datatype Interest = Interest(events: Mask, channel: Channel)

  class EPoller {
    var channels: map<int, Channel>
    /** The kernel's interest set: epoll_event by fd. */
    var kernel: map<int, Interest>

    /** Registered channels sit in the map under their fd, and the kernel mirrors them. */
    ghost predicate Valid()
      reads this, channels.Values
    {
      && (forall fd :: fd in channels ==> channels[fd].fd == fd && channels[fd].index in {ADDED, DELETED})
      && (forall fd :: fd in kernel <==> fd in channels && channels[fd].index == ADDED)
      && (forall fd :: fd in kernel ==> kernel[fd] == Interest(channels[fd].events, channels[fd]))
    }

    predicate IsRegistered(channel: Channel)
      reads this`channels
    {
      channel.fd in channels && channels[channel.fd] == channel
    }

    /** The channel is this poller's, or new with an fd that no registered channel has. */
    predicate Knows(channel: Channel)
      reads this`channels, channel
    {
      if channel.index == NEW then channel.fd !in channels else IsRegistered(channel)
    }

    /** What the index says; channels that are not registered may share the fd of one that is. */
    predicate Tracks(channel: Channel)
      reads this`channels, channel
    {
      channel.index != NEW <==> IsRegistered(channel)
    }

    ghost function View(channel: Channel): Registration
      reads this, channel
    {
      Registration(channel.index, channel.events,
                   if channel.fd in kernel && kernel[channel.fd].channel == channel then Some(kernel[channel.fd].events)
                   else None)
    }

    constructor ()
      ensures Valid() && channels == map[]
    {
      channels, kernel := map[], map[];
    }

    /** Nothing about other channels changes. */
    twostate predicate OnlyThis(channel: Channel)
      reads this
    {
      && (forall fd :: fd != channel.fd ==>
            (fd in channels <==> fd in old(channels)) && (fd in kernel <==> fd in old(kernel)))
      && (forall fd :: fd in channels && fd != channel.fd ==> channels[fd] == old(channels)[fd])
      && (forall fd :: fd in kernel && fd != channel.fd ==> kernel[fd] == old(kernel)[fd])
    }

    /** Any enable or disable of a channel: sets the mask, then updateChannel. */
    method Change(channel: Channel, op: Op)
      requires Valid() && Knows(channel) && op != Remove
      modifies this, channel
      ensures Valid() && Knows(channel) && channel.fd in channels && OnlyThis(channel)
      ensures View(channel) == AfterOp(old(View(channel)), op)
    {
      channel.events := MaskAfter(channel.events, op);
      if channel.index == NEW || channel.index == DELETED {
        if channel.index == NEW {
          assert channel.fd !in channels;
          channels := channels[channel.fd := channel];
        } else {
          assert channel.fd in channels && channels[channel.fd] == channel;
        }
        channel.index := ADDED;
        assert channel.fd !in kernel; // EPOLL_CTL_ADD
        kernel := kernel[channel.fd := Interest(channel.events, channel)];
      } else {
        assert channel.fd in channels && channels[channel.fd] == channel && channel.index == ADDED;
        assert channel.fd in kernel; // EPOLL_CTL_DEL or EPOLL_CTL_MOD
        if channel.events == {} {
          kernel := kernel - {channel.fd};
          channel.index := DELETED;
        } else {
          kernel := kernel[channel.fd := Interest(channel.events, channel)];
        }
      }
    }

    method RemoveChannel(channel: Channel)
      requires Valid() && Knows(channel) && Removable(View(channel))
      modifies this, channel
      ensures Valid() && Knows(channel) && channel.fd !in channels && OnlyThis(channel)
      ensures View(channel) == AfterOp(old(View(channel)), Remove)
    {
      assert channel.fd in channels && channels[channel.fd] == channel && channel.events == {};
      channels := channels - {channel.fd};
      if channel.index == ADDED {
        assert channel.fd in kernel; // EPOLL_CTL_DEL
        kernel := kernel - {channel.fd};
      }
      channel.index := NEW;
    }
  }

  // ---- any number of channels ----

  /** An operation on one of several channels */
  datatype Call = Call(which: nat, op: Op)

  /** What all operations on the k-th channel come to. */
  function OpsOn(calls: seq<Call>, k: nat): seq<Op> {
    if calls == [] then []
    else if calls[0].which == k then [calls[0].op] + OpsOn(calls[1..], k)
    else OpsOn(calls[1..], k)
  }

  lemma {:induction false} OpsOnNext(calls: seq<Call>, c: Call, k: nat)
    ensures OpsOn(calls + [c], k) == OpsOn(calls, k) + if c.which == k then [c.op] else []
    decreases |calls|
  {
    if calls == [] {
      assert (calls + [c])[1..] == [];
    } else {
      OpsOnNext(calls[1..], c, k);
      assert (calls + [c])[1..] == calls[1..] + [c];
    }
  }

  lemma {:induction false} RunNext(r: Registration, ops: seq<Op>, op: Op)
    ensures Run(r, ops + [op]) == AfterOp(Run(r, ops), op)
    ensures IsRun(r, ops + [op]) <==> IsRun(r, ops) && (op == Remove ==> Removable(Run(r, ops)))
    decreases |ops|
  {
    hide AfterOp, Removable;
    if ops == [] {
      assert (ops + [op])[1..] == [];
    } else {
      RunNext(AfterOp(r, ops[0]), ops[1..], op);
      assert (ops + [op])[1..] == ops[1..] + [op];
    }
  }

  lemma {:induction false} PrefixRuns(r: Registration, a: seq<Op>, b: seq<Op>)
    requires IsRun(r, a + b)
    ensures IsRun(r, a)
    decreases |a|
  {
    if a == [] {
    } else {
      assert (a + b)[0] == a[0] && (a + b)[1..] == a[1..] + b;
      PrefixRuns(AfterOp(r, a[0]), a[1..], b);
    }
  }

  lemma {:induction false} OpsOnConcat(a: seq<Call>, b: seq<Call>, k: nat)
    ensures OpsOn(a + b, k) == OpsOn(a, k) + OpsOn(b, k)
    decreases |a|
  {
    if a == [] {
      assert a + b == b;
    } else {
      OpsOnConcat(a[1..], b, k);
      assert (a + b)[1..] == a[1..] + b;
    }
  }

  const FRESH := Registration(NEW, {}, None)

  function IndexAt(calls: seq<Call>, k: nat): int {
    Run(FRESH, OpsOn(calls, k)).index
  }

  /** Whoever registers the channel does not use a descriptor that a registered channel has. */
  predicate Registrable(calls: seq<Call>, fds: seq<int>, k: nat)
    requires k < |fds|
  {
    IndexAt(calls, k) == NEW ==> forall j :: 0 <= j < |fds| && fds[j] == fds[k] ==> IndexAt(calls, j) == NEW
  }

  /** Removals meet their asserts, channel by channel, and a channel is registered while its descriptor is free. */
  predicate Admissible(calls: seq<Call>, fds: seq<int>) {
    && (forall c :: c in calls ==> c.which < |fds|)
    && (forall k :: 0 <= k < |fds| ==> IsRun(FRESH, OpsOn(calls, k)))
    && (forall i :: 0 <= i < |calls| && calls[i].which < |fds| ==> Registrable(calls[..i], fds, calls[i].which))
  }

  lemma AdmissibleNext(calls: seq<Call>, fds: seq<int>, i: nat)
    requires Admissible(calls, fds) && i < |calls|
    ensures var c := calls[i];
      && c.which < |fds| && Registrable(calls[..i], fds, c.which)
      && (c.op == Remove ==> Removable(Run(FRESH, OpsOn(calls[..i], c.which))))
  {
    hide Removable, AfterOp, Registrable;
    var c := calls[i];
    assert c in calls;
    var before, after := calls[..i + 1], calls[i + 1..];
    assert calls == before + after && before == calls[..i] + [c];
    OpsOnConcat(before, after, c.which);
    PrefixRuns(FRESH, OpsOn(before, c.which), OpsOn(after, c.which));
    OpsOnNext(calls[..i], c, c.which);
    RunNext(FRESH, OpsOn(calls[..i], c.which), c.op);
  }

  function Fds(pool: seq<Channel>): (fds: seq<int>)
    ensures |fds| == |pool| && forall i :: 0 <= i < |pool| ==> fds[i] == pool[i].fd
  {
    seq(|pool|, i requires 0 <= i < |pool| => pool[i].fd)
  }

  /** The channels of the pool are different objects, each in the state its index says. */
  ghost predicate Pooled(poller: EPoller, pool: seq<Channel>)
    reads poller, poller.channels.Values, pool
  {
    && poller.Valid()
    && (forall i, j :: 0 <= i < j < |pool| ==> pool[i] != pool[j])
    && (forall i :: 0 <= i < |pool| ==> poller.Tracks(pool[i]))
    && (forall fd :: fd in poller.channels ==> poller.channels[fd] in pool)
  }

  /** Any interleaving of operations on any number of channels, of which several may use one descriptor one after the
      other: each channel, and the kernel's interest in it, is where its own operations take it, whatever is
      done to the others. */
  method RunPoller(poller: EPoller, pool: seq<Channel>, calls: seq<Call>)
    requires poller.Valid() && poller.channels == map[]
    requires forall i :: 0 <= i < |pool| ==> poller.View(pool[i]) == FRESH
    requires forall i, j :: 0 <= i < j < |pool| ==> pool[i] != pool[j]
    requires Admissible(calls, Fds(pool))
    modifies poller, pool
    ensures poller.Valid() && forall fd :: fd in poller.channels ==> poller.channels[fd] in pool
    ensures forall i :: 0 <= i < |pool| ==> poller.View(pool[i]) == Run(FRESH, OpsOn(calls, i))
    ensures forall i :: 0 <= i < |pool| ==> AllLegal(FRESH, OpsOn(calls, i)) && Mirrors(poller.View(pool[i]))
  {
    hide AfterOp, Removable, OpsOn, Admissible, Registrable, EPoller.Valid, EPoller.View;
    NoOpsYet(calls);
    NonePooled(poller, pool);
    for k := 0 to |calls|
      invariant Pooled(poller, pool)
      invariant forall i :: 0 <= i < |pool| ==> poller.View(pool[i]) == Run(FRESH, OpsOn(calls[..k], i))
    {
      AdmissibleNext(calls, Fds(pool), k);
      assert calls[..k + 1] == calls[..k] + [calls[k]];
      ghost var c := calls[k];
      forall i | 0 <= i < |pool|
        ensures Run(FRESH, OpsOn(calls[..k + 1], i)) ==
          if i == c.which then AfterOp(Run(FRESH, OpsOn(calls[..k], i)), c.op) else Run(FRESH, OpsOn(calls[..k], i))
      {
        OpsOnNext(calls[..k], c, i);
        RunNext(FRESH, OpsOn(calls[..k], i), c.op);
        assert OpsOn(calls[..k], i) + [] == OpsOn(calls[..k], i);
      }
      RegistrableIsKnown(poller, pool, calls[..k], c.which);
      PerformOne(poller, pool, calls[k]);
    }
    assert calls[..|calls|] == calls;
    forall i | 0 <= i < |pool|
      ensures AllLegal(FRESH, OpsOn(calls, i)) && Mirrors(poller.View(pool[i]))
    {
      AdmissibleAt(calls, Fds(pool), i);
      EveryControlIsLegal(FRESH, OpsOn(calls, i));
    }
  }

  lemma NonePooled(poller: EPoller, pool: seq<Channel>)
    requires poller.Valid() && poller.channels == map[]
    requires forall i :: 0 <= i < |pool| ==> poller.View(pool[i]) == FRESH
    requires forall i, j :: 0 <= i < j < |pool| ==> pool[i] != pool[j]
    ensures Pooled(poller, pool)
  {
    forall i | 0 <= i < |pool|
      ensures poller.Tracks(pool[i])
    {
      assert poller.View(pool[i]).index == NEW;
    }
  }

  lemma RegistrableIsKnown(poller: EPoller, pool: seq<Channel>, calls: seq<Call>, k: nat)
    requires Pooled(poller, pool) && k < |pool| && Registrable(calls, Fds(pool), k)
    requires forall i :: 0 <= i < |pool| ==> poller.View(pool[i]) == Run(FRESH, OpsOn(calls, i))
    ensures poller.Knows(pool[k])
  {
    hide OpsOn;
    forall i | 0 <= i < |pool|
      ensures pool[i].index == IndexAt(calls, i)
    {
      assert poller.View(pool[i]).index == IndexAt(calls, i);
    }
  }

  lemma NoOpsYet(calls: seq<Call>)
    ensures forall i: nat :: OpsOn(calls[..0], i) == []
  {
  }

  lemma AdmissibleAt(calls: seq<Call>, fds: seq<int>, k: nat)
    requires Admissible(calls, fds) && k < |fds|
    ensures IsRun(FRESH, OpsOn(calls, k))
  {
  }

  method PerformOne(poller: EPoller, pool: seq<Channel>, c: Call)
    requires Pooled(poller, pool) && c.which < |pool| && poller.Knows(pool[c.which])
    requires c.op == Remove ==> Removable(poller.View(pool[c.which]))
    modifies poller, pool
    ensures Pooled(poller, pool)
    ensures forall i :: 0 <= i < |pool| ==>
      poller.View(pool[i]) ==
        if i == c.which then AfterOp(old(poller.View(pool[i])), c.op) else old(poller.View(pool[i]))
  {
    hide AfterOp;
    var channel := pool[c.which];
    if c.op != Remove {
      poller.Change(channel, c.op);
    } else {
      poller.RemoveChannel(channel);
    }
    forall i | 0 <= i < |pool| && i != c.which
      ensures poller.Tracks(pool[i]) && poller.View(pool[i]) == old(poller.View(pool[i]))
    {
      assert pool[i] != channel;
      assert old(poller.Tracks(pool[i]));
    }
  }
}
