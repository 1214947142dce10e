/** A loop thread with a timer queue (irono/net/TimerQueue.cc): runs of in-loop calls, expiries and firings, and
    exactly which of them end in the fatal read of a timerfd that is not readable. */
module TimerLoops {
  import opened TimerSpec
  import opened TimerQueues

  datatype Event = Call(op: Op) | Expires | Readable(now: Time, clock: Time, scripts: Scripts)

  datatype Thread = Looping(view: View, fd: TimerFd) | Aborted

  const START := Looping(View(map[], map[], {}, false, 0), TimerFd(false, false))

  /** `ran` is the order of the batch, for an event that fires one. */
  function After(t: Thread, e: Event, ran: seq<Id>): Thread {
    if t.Aborted? then t
    else match e
      case Call(op) => Looping(AfterOp(t.view, op), SetIf(t.fd, Rearms(t.view, op)))
      case Expires => t.(fd := t.fd.(readable := t.fd.readable || t.fd.armed))
      case Readable(now, _, scripts) =>
        if !t.fd.readable then Aborted
        else Looping(AfterFiring(t.view, now, ran, scripts), FdAfterFiring(t.view, now, ran, scripts))
  }

  function AfterAll(t: Thread, events: seq<Event>, rans: seq<seq<Id>>): Thread
    requires |rans| == |events|
    decreases |events|
  {
    if events == [] then t else AfterAll(After(t, events[0], rans[0]), events[1..], rans[1..])
  }

  predicate Fires(t: Thread, e: Event) {
    t.Looping? && e.Readable? && t.fd.readable
  }

  /** The batches that ran are those of the due timers, in order; other events have none. */
  ghost predicate InTurn(t: Thread, events: seq<Event>, rans: seq<seq<Id>>)
    requires |rans| == |events|
    decreases |events|
  {
    events == [] ||
    (&& (if Fires(t, events[0]) then IsBatch(t.view, events[0].now, rans[0]) else rans[0] == [])
     && InTurn(After(t, events[0], rans[0]), events[1..], rans[1..]))
  }

  // ---- the events alone determine the run ----

  lemma {:induction false} SameBatch(v: View, now: Time, a: seq<Id>, b: seq<Id>)
    requires IsBatch(v, now, a) && IsBatch(v, now, b)
    ensures a == b
  {
    BatchFollows(v, now, a, b, |a|);
    BatchFollows(v, now, b, a, |b|);
  }

  /** Two orders of the same timers agree as far as the first goes. */
  lemma {:induction false} BatchFollows(v: View, now: Time, a: seq<Id>, b: seq<Id>, n: nat)
    requires IsBatch(v, now, a) && IsBatch(v, now, b) && n <= |a|
    ensures n <= |b| && a[..n] == b[..n]
    decreases n
  {
    if n == 0 {
    } else {
      BatchFollows(v, now, a, b, n - 1);
      var id := a[n - 1];
      assert id in b;
      var k :| 0 <= k < |b| && b[k] == id;
      if k < n - 1 {
        assert false;
      }
      assert b[n - 1] in a;
      var j :| 0 <= j < |a| && a[j] == b[n - 1];
      if j < n - 1 {
        assert false;
      }
      assert k == n - 1;
      assert a[..n] == a[..n - 1] + [id] && b[..n] == b[..n - 1] + [id];
    }
  }

  lemma {:induction false} OneRunOnly(t: Thread, events: seq<Event>, a: seq<seq<Id>>, b: seq<seq<Id>>)
    requires |a| == |b| == |events| && InTurn(t, events, a) && InTurn(t, events, b)
    ensures a == b
    decreases |events|
  {
    hide After, IsBatch;
    if events == [] {
    } else {
      if Fires(t, events[0]) {
        SameBatch(t.view, events[0].now, a[0], b[0]);
      }
      OneRunOnly(After(t, events[0], a[0]), events[1..], a[1..], b[1..]);
      assert a == [a[0]] + a[1..] && b == [b[0]] + b[1..];
    }
  }

  // ---- the object ----

  ghost function Now(q: TimerQueue): Thread
    requires q.Valid()
    reads q
  {
    Looping(q.Meaning(), q.Fd())
  }

  method Handle(q: TimerQueue, e: Event) returns (fatal: bool, ran: seq<Id>)
    requires q.Valid() && q.Covered() && q.batch == {} && !q.calling
    requires e.Readable? ==> 0 < e.now
    modifies q
    ensures q.Valid() && q.batch == {} && !q.calling && (!fatal ==> q.Covered())
    ensures fatal <==> After(old(Now(q)), e, ran) == Aborted
    ensures !fatal ==> Now(q) == After(old(Now(q)), e, ran)
    ensures if Fires(old(Now(q)), e) then IsBatch(old(q.Meaning()), e.now, ran) else ran == []
  {
    hide Indexed, SequencesUpTo, Timers, AfterOp, CanAllocate, Earlier, AfterFiring, FdAfterFiring, IsBatch;
    fatal, ran := false, [];
    match e
    case Call(Cancel(id)) => q.CancelInLoop(id);
    case Call(op) => q.AddTimer(op);
    case Expires => q.Expire();
    case Readable(now, clock, scripts) => fatal, ran := q.HandleRead(now, clock, scripts);
  }

  /** Any sequence of in-loop calls, expiries and firings, with re-entrant calls from callbacks: the queue means
      what the events prescribe, no timer is lost, and the read is fatal exactly when the events say so. */
  method RunLoop(q: TimerQueue, events: seq<Event>) returns (fatal: bool, rans: seq<seq<Id>>)
    requires q.Valid() && q.Covered() && q.batch == {} && !q.calling
    requires forall e :: e in events && e.Readable? ==> 0 < e.now
    modifies q
    ensures q.Valid() && q.batch == {} && !q.calling && (!fatal ==> q.Covered())
    ensures |rans| == |events| && InTurn(old(Now(q)), events, rans)
    ensures fatal <==> AfterAll(old(Now(q)), events, rans) == Aborted
    ensures !fatal ==> Now(q) == AfterAll(old(Now(q)), events, rans)
  {
    hide Indexed, SequencesUpTo, Timers, After, IsBatch;
    fatal, rans := false, [];
    ghost var t0, t := Now(q), Now(q);
    for i := 0 to |events|
      invariant q.Valid() && q.batch == {} && !q.calling && (!fatal ==> q.Covered())
      invariant |rans| == i && InTurn(t0, events[..i], rans) && t == AfterAll(t0, events[..i], rans)
      invariant fatal <==> t == Aborted
      invariant !fatal ==> t == Now(q)
    {
      var ran := [];
      if fatal {
        AbortedStays(events[i], ran);
      } else {
        assert events[i] in events;
        fatal, ran := Handle(q, events[i]);
      }
      InTurnNext(t0, events[..i], rans, events[i], ran);
      assert events[..i + 1] == events[..i] + [events[i]];
      t := After(t, events[i], ran);
      rans := rans + [ran];
    }
    assert events[..|events|] == events;
  }

  lemma AbortedStays(e: Event, ran: seq<Id>)
    ensures After(Aborted, e, ran) == Aborted && !Fires(Aborted, e)
  {
  }

  lemma {:induction false} InTurnNext(t: Thread, events: seq<Event>, rans: seq<seq<Id>>, e: Event, ran: seq<Id>)
    requires |rans| == |events| && InTurn(t, events, rans)
    requires var u := AfterAll(t, events, rans); if Fires(u, e) then IsBatch(u.view, e.now, ran) else ran == []
    ensures InTurn(t, events + [e], rans + [ran])
    ensures AfterAll(t, events + [e], rans + [ran]) == After(AfterAll(t, events, rans), e, ran)
    decreases |events|
  {
    hide After, IsBatch, Fires;
    if events == [] {
      assert (events + [e])[1..] == [] && (rans + [ran])[1..] == [];
    } else {
      InTurnNext(After(t, events[0], rans[0]), events[1..], rans[1..], e, ran);
      assert (events + [e])[1..] == events[1..] + [e] && (rans + [ran])[1..] == rans[1..] + [ran];
    }
  }

  // ---- when the read is fatal ----

  function NoBatches(n: nat): (rans: seq<seq<Id>>)
    ensures |rans| == n && forall i :: 0 <= i < n ==> rans[i] == []
  {
    seq(n, i => [])
  }

  /** What happens between the poll that reports the timerfd and its read: calls of other handlers, and time. */
  predicate NoReads(events: seq<Event>) {
    forall e :: e in events ==> !e.Readable?
  }

  function ViewAfter(v: View, events: seq<Event>): View
    decreases |events|
  {
    if events == [] then v
    else ViewAfter(if events[0].Call? then AfterOp(v, events[0].op) else v, events[1..])
  }

  /** Some call adds a timer that is the earliest at its turn, and the timerfd does not expire again after it. */
  predicate Silenced(v: View, events: seq<Event>)
    decreases |events|
  {
    if events == [] then false
    else if events[0].Call? then
      (Rearms(v, events[0].op) && Expires !in events[1..]) || Silenced(AfterOp(v, events[0].op), events[1..])
    else Silenced(v, events[1..])
  }

  /** The call at `i` adds a timer that is the earliest at its turn, and no expiry comes after it. */
  predicate Silences(v: View, events: seq<Event>, i: nat)
    requires i < |events|
  {
    events[i].Call? && Rearms(ViewAfter(v, events[..i]), events[i].op) && Expires !in events[i + 1..]
  }

  lemma SilencesShift(v: View, events: seq<Event>, i: nat)
    requires 0 < i < |events|
    ensures var v1 := if events[0].Call? then AfterOp(v, events[0].op) else v;
      Silences(v, events, i) <==> Silences(v1, events[1..], i - 1)
  {
    hide AfterOp, Rearms;
    assert events[..i][0] == events[0] && events[..i][1..] == events[1..][..i - 1];
    assert events[1..][i - 1] == events[i] && events[1..][i..] == events[i + 1..];
  }

  /** The recursion says just that. */
  lemma {:induction false} SilencedMeans(v: View, events: seq<Event>)
    ensures Silenced(v, events) <==> exists i :: 0 <= i < |events| && Silences(v, events, i)
    decreases |events|
  {
    hide AfterOp, Rearms;
    if events == [] {
    } else {
      var v1 := if events[0].Call? then AfterOp(v, events[0].op) else v;
      SilencedMeans(v1, events[1..]);
      assert events[..0] == [];
      assert Silences(v, events, 0) <==>
          events[0].Call? && Rearms(v, events[0].op) && Expires !in events[1..];
      hide Silences;
      forall i | 0 < i < |events|
        ensures Silences(v, events, i) <==> Silences(v1, events[1..], i - 1)
      {
        SilencesShift(v, events, i);
      }
      if i :| 0 <= i < |events| - 1 && Silences(v1, events[1..], i) {
        assert Silences(v, events, i + 1);
      }
    }
  }

  lemma {:induction false} FdBetween(t: Thread, events: seq<Event>)
    requires t.Looping? && t.fd.armed && NoReads(events)
    ensures AfterAll(t, events, NoBatches(|events|)) == Looping(ViewAfter(t.view, events),
      TimerFd(true, (t.fd.readable || Expires in events) && !Silenced(t.view, events)))
    decreases |events|
  {
    hide AfterOp, Rearms;
    if events == [] {
    } else {
      assert events == [events[0]] + events[1..] && events[0] in events;
      assert NoBatches(|events|)[1..] == NoBatches(|events| - 1);
      FdBetween(After(t, events[0], []), events[1..]);
    }
  }

  /** Once the timerfd has been reported readable, what comes before handleRead decides: its read is fatal if and
      only if some call adds a timer that is the earliest at its turn, and the timerfd does not expire again. */
  lemma FatalExactly(t: Thread, between: seq<Event>, read: Event, ran: seq<Id>)
    requires t.Looping? && t.fd == TimerFd(true, true) && NoReads(between) && read.Readable?
    ensures After(AfterAll(t, between, NoBatches(|between|)), read, ran) == Aborted <==> Silenced(t.view, between)
  {
    hide AfterFiring, FdAfterFiring, Silenced;
    FdBetween(t, between);
  }

  /** A run from the start: the only timer expires, another handler cancels it and adds one at the freed address,
      and the read of the timerfd is fatal. */
  method CancelAndAddBeforeRead() returns (fatal: bool)
    ensures fatal
  {
    hide Indexed, SequencesUpTo, Timers, AfterOp, CanAllocate, Earlier, AfterFiring, FdAfterFiring, IsBatch, Rearms;
    var q := new TimerQueue();
    var ran: seq<Id>;
    var add := Add(16, 1_000_000, 0, false, 0, 0);
    StartRearms(add);
    fatal, ran := Handle(q, Call(add));
    fatal, ran := Handle(q, Expires);
    assert q.Fd().readable;
    var again := Add(16, 2_000_000, 0, false, 0, 0);
    CancelRearms(add, again);
    fatal, ran := Handle(q, Call(Cancel(Id(16, 1))));
    fatal, ran := Handle(q, Call(again));
    assert !q.Fd().readable;
    fatal, ran := Handle(q, Readable(1_000_500, 1_000_500, map[]));
  }

  lemma StartRearms(add: Op)
    requires add.Add? && add.at < UINTPTR_MAX
    ensures Rearms(START.view, add)
  {
  }

  lemma CancelRearms(add: Op, again: Op)
    requires add.Add? && again.Add? && add.at == again.at == 16 && add.others == 0
    ensures var v := AfterOp(AfterOp(START.view, add), Cancel(Id(16, 1)));
      !Rearms(AfterOp(START.view, add), Cancel(Id(16, 1))) && Rearms(v, again)
  {
    var v := AfterOp(AfterOp(START.view, add), Cancel(Id(16, 1)));
    assert CanAllocate(START.view, 16);
    assert v.live == map[] && v.batch == map[];
  }
}
