/** What a timer queue means, apart from its indexes (irono/net/TimerQueue.cc, Timer.cc): a map of
    live timers. Times are microseconds; an interval is a delta and a flag. */
module TimerSpec {
  type Addr = nat
  type Time = int

  /** `Timer*` compared as the sentinel of getExpired; no object lives there. */
  const UINTPTR_MAX: nat := 0xFFFF_FFFF_FFFF_FFFF

  datatype Timer = Timer(expiration: Time, delta: nat, repeat: bool, sequence: nat)

  /** TimerId, and also an element of activeTimers_. */
  datatype Id = Id(timer: Addr, sequence: nat)

  /** `live` timers wait to expire; `batch` timers have been taken out by the running handleRead. */
  datatype View = View(
    live: map<Id, Timer>, batch: map<Id, Timer>, canceling: set<Id>, calling: bool, created: nat)

  /** What callbacks and handlers may do on the loop thread. The allocator proposes any address `at`
      (one that is in use cannot come back from new); `others` timers were created by other loops
      meanwhile; `clock` is what Timestamp::now() says if the timerfd is set. */
  datatype Op =
    | Add(at: Addr, when: Time, delta: nat, repeat: bool, others: nat, clock: Time)
    | Cancel(id: Id)

  predicate InUse(v: View, a: Addr) {
    (exists id :: id in v.live && id.timer == a) || (exists id :: id in v.batch && id.timer == a)
  }

  predicate CanAllocate(v: View, a: Addr) {
    a < UINTPTR_MAX && !InUse(v, a)
  }

  function NewId(v: View, op: Op): Id
    requires op.Add?
  {
    Id(op.at, v.created + 1 + op.others)
  }

  function AfterOp(v: View, op: Op): View {
    match op
    case Add(at, when, delta, repeat, others, _) =>
      if CanAllocate(v, at) then
        var id := NewId(v, op);
        v.(live := v.live[id := Timer(when, delta, repeat, id.sequence)], created := id.sequence)
      else
        v
    case Cancel(id) =>
      if id in v.live then v.(live := v.live - {id})
      else if v.calling then v.(canceling := v.canceling + {id})
      else v
  }

  function AfterOps(v: View, ops: seq<Op>): View
    decreases |ops|
  {
    if ops == [] then v else AfterOps(AfterOp(v, ops[0]), ops[1..])
  }

  /** The script of each callback, by the sequence number of its timer. */
  type Scripts = map<nat, seq<Op>>

  function ScriptOf(scripts: Scripts, id: Id): seq<Op> {
    if id.sequence in scripts then scripts[id.sequence] else []
  }

  /** All callbacks of a batch, in order. */
  function AfterCallbacks(v: View, ran: seq<Id>, scripts: Scripts): View
    decreases |ran|
  {
    if ran == [] then v else AfterCallbacks(AfterOps(v, ScriptOf(scripts, ran[0])), ran[1..], scripts)
  }

  predicate Reschedules(v: View, id: Id)
    requires id in v.batch
  {
    v.batch[id].repeat && id !in v.canceling
  }

  /** `reset`: repeating timers that were not cancelled meanwhile start over at `now`. */
  function AfterReset(v: View, now: Time): View {
    var again := map id | id in v.batch && Reschedules(v, id) :: v.batch[id].(expiration := now + v.batch[id].delta);
    v.(live := v.live + again, batch := map[])
  }

  predicate IsDue(v: View, id: Id, now: Time) {
    id in v.live && v.live[id].expiration <= now
  }

  /** The state in which callbacks start: what is due has moved to the batch. */
  function TakeDue(v: View, now: Time): View {
    View(map id | id in v.live && !IsDue(v, id, now) :: v.live[id],
         map id | id in v.live && IsDue(v, id, now) :: v.live[id], {}, true, v.created)
  }

  /** One firing, given the order in which the due timers run. */
  function AfterFiring(v: View, now: Time, ran: seq<Id>, scripts: Scripts): View {
    AfterReset(AfterCallbacks(TakeDue(v, now), ran, scripts).(calling := false), now)
  }

  // ---- the timerfd ----

  /** Whether it is set to expire, and whether it has expired and was not read since. */
  datatype TimerFd = TimerFd(armed: bool, readable: bool)

  /** Setting it arms it and forgets an expiration that was not read. */
  function SetIf(fd: TimerFd, yes: bool): TimerFd {
    if yes then TimerFd(true, false) else fd
  }

  predicate Earlier(v: View, when: Time) {
    forall id :: id in v.live ==> when < v.live[id].expiration
  }

  /** An added timer sets the timerfd exactly when it becomes the earliest. */
  predicate Rearms(v: View, op: Op) {
    op.Add? && CanAllocate(v, op.at) && Earlier(v, op.when)
  }

  /** No operation of a script does. */
  predicate Quiet(v: View, ops: seq<Op>)
    decreases |ops|
  {
    ops == [] || (!Rearms(v, ops[0]) && Quiet(AfterOp(v, ops[0]), ops[1..]))
  }

  predicate QuietCallbacks(v: View, ran: seq<Id>, scripts: Scripts)
    decreases |ran|
  {
    ran == [] ||
    (Quiet(v, ScriptOf(scripts, ran[0])) && QuietCallbacks(AfterOps(v, ScriptOf(scripts, ran[0])), ran[1..], scripts))
  }

  /** There are timers, and the earliest is a valid time: reset sets the timerfd for it. */
  predicate HasNext(v: View) {
    v.live != map[] && Earlier(v, 0)
  }

  /** The timerfd after a firing. */
  function FdAfterFiring(v: View, now: Time, ran: seq<Id>, scripts: Scripts): TimerFd {
    var called := SetIf(TimerFd(false, false), !QuietCallbacks(TakeDue(v, now), ran, scripts));
    SetIf(called, HasNext(AfterFiring(v, now, ran, scripts)))
  }

  // ---- consequences ----

  /** Identifiers of existing timers carry the sequence number of a created timer, and no two of
      them share an address. */
  predicate ViewOk(v: View) {
    && (forall id :: id in v.live ==> id.sequence <= v.created && v.live[id].sequence == id.sequence)
    && (forall id :: id in v.batch ==> id.sequence <= v.created && v.batch[id].sequence == id.sequence)
    && (forall x, y :: x in v.live && y in v.live && x.timer == y.timer ==> x == y)
    && (forall x, y :: x in v.batch && y in v.batch && x.timer == y.timer ==> x == y)
    && (forall x, y :: x in v.live && y in v.batch ==> x.timer != y.timer)
  }

  /** What one operation does to an identifier issued before it. */
  lemma OneOp(v: View, op: Op, id: Id)
    requires ViewOk(v) && id.sequence <= v.created
    ensures var v' := AfterOp(v, op);
      && ViewOk(v') && v'.batch == v.batch && v'.calling == v.calling && v.created <= v'.created
      && (id in v'.live <==> id in v.live && op != Cancel(id))
      && (id in v'.live ==> v'.live[id] == v.live[id])
      && (id in v'.canceling <==> id in v.canceling || (op == Cancel(id) && id !in v.live && v.calling))
  {
  }

  /** What an add at a free address does, and when it comes to nothing. */
  lemma Added(v: View, op: Op)
    requires ViewOk(v) && op.Add?
    ensures var v', id := AfterOp(v, op), Id(op.at, v.created + 1 + op.others);
      if op.at < UINTPTR_MAX && forall x :: x in v.live || x in v.batch ==> x.timer != op.at then
        && id !in v.live && v'.created == id.sequence
        && v'.live == v.live[id := Timer(op.when, op.delta, op.repeat, id.sequence)]
      else v' == v
  {
  }

  lemma {:induction false} AfterOpsConcat(v: View, a: seq<Op>, b: seq<Op>)
    ensures AfterOps(v, a + b) == AfterOps(AfterOps(v, a), b)
    decreases |a|
  {
    hide AfterOp;
    if a == [] {
      assert a + b == b;
    } else {
      AfterOpsConcat(AfterOp(v, a[0]), a[1..], b);
      assert (a + b)[1..] == a[1..] + b;
    }
  }

  /** The fate of a timer that a handler or a callback adds at a free address: it waits, with the expiration and the
      interval that were asked for, unless the script goes on to cancel it. */
  lemma AddedFate(v: View, before: seq<Op>, op: Op, after: seq<Op>)
    requires ViewOk(v) && op.Add? && op.at < UINTPTR_MAX
    requires forall x :: x in AfterOps(v, before).live || x in v.batch ==> x.timer != op.at
    ensures var v' := AfterOps(v, before + ([op] + after));
      var id := Id(op.at, AfterOps(v, before).created + 1 + op.others);
      && (id in v'.live <==> Cancel(id) !in after)
      && (id in v'.live ==> v'.live[id] == Timer(op.when, op.delta, op.repeat, id.sequence))
  {
    hide AfterOp, AfterOps, ViewOk;
    var u := AfterOps(v, before);
    var id := Id(op.at, u.created + 1 + op.others);
    DuringScript(v, before, Id(0, 0));
    Added(u, op);
    OneOp(u, op, Id(0, 0));
    DuringScript(AfterOp(u, op), after, id);
    AfterOpsConcat(v, before, [op] + after);
    FirstOp(u, op, after);
  }

  lemma FirstOp(v: View, op: Op, more: seq<Op>)
    ensures AfterOps(v, [op] + more) == AfterOps(AfterOp(v, op), more)
  {
    assert ([op] + more)[1..] == more;
  }

  /** The earliest expiration of a live timer. */
  predicate IsEarliest(v: View, when: Time) {
    && (exists id :: id in v.live && v.live[id].expiration == when)
    && (forall id :: id in v.live ==> when <= v.live[id].expiration)
  }

  /** The timerfd is set exactly when an add changes the earliest expiration. */
  lemma RearmsExactly(v: View, op: Op)
    requires ViewOk(v)
    ensures op.Add? ==>
      (Rearms(v, op) <==> exists when :: IsEarliest(AfterOp(v, op), when) && !IsEarliest(v, when))
    ensures op.Cancel? ==> !Rearms(v, op)
  {
    if op.Add? {
      Added(v, op);
      var v', id := AfterOp(v, op), Id(op.at, v.created + 1 + op.others);
      if Rearms(v, op) {
        assert v'.live[id].expiration == op.when;
        assert IsEarliest(v', op.when) && !IsEarliest(v, op.when);
      } else if CanAllocate(v, op.at) {
        var x :| x in v.live && v.live[x].expiration <= op.when;
        forall when | IsEarliest(v', when)
          ensures IsEarliest(v, when)
        {
          assert x in v'.live && v'.live[x] == v.live[x];
          var y :| y in v'.live && v'.live[y].expiration == when;
          if y == id {
            assert v.live[x].expiration == when;
          }
          assert forall z :: z in v.live ==> z in v'.live && v'.live[z] == v.live[z];
        }
      }
    }
  }

  /** Address reuse: once a timer is gone, no operation brings its identifier back, so cancelling the
      stale identifier never touches a timer, not even a later one at the same address. */
  lemma {:induction false} StaleStaysStale(v: View, ops: seq<Op>, stale: Id)
    requires ViewOk(v) && stale.sequence <= v.created && stale !in v.live
    ensures var v' := AfterOps(v, ops);
      stale !in v'.live && AfterOp(v', Cancel(stale)).live == v'.live
    decreases |ops|
  {
    if ops == [] {
    } else {
      OneOp(v, ops[0], stale);
      StaleStaysStale(AfterOp(v, ops[0]), ops[1..], stale);
    }
  }

  lemma {:induction false} DuringScript(v: View, ops: seq<Op>, id: Id)
    requires ViewOk(v) && id.sequence <= v.created
    ensures var v' := AfterOps(v, ops);
      && ViewOk(v') && v'.batch == v.batch && v'.calling == v.calling && v.created <= v'.created
      && (id in v'.live <==> id in v.live && Cancel(id) !in ops)
      && (id in v'.live ==> v'.live[id] == v.live[id])
      && (v.calling && id !in v.live ==> (id in v'.canceling <==> id in v.canceling || Cancel(id) in ops))
    decreases |ops|
  {
    hide AfterOp, ViewOk;
    if ops == [] {
    } else {
      OneOp(v, ops[0], id);
      DuringScript(AfterOp(v, ops[0]), ops[1..], id);
      assert ops == [ops[0]] + ops[1..];
    }
  }

  /** Whether some callback of the batch cancels the identifier. */
  predicate CancelledIn(ran: seq<Id>, scripts: Scripts, id: Id)
    decreases |ran|
  {
    ran != [] &&
    ((ran[0].sequence in scripts && Cancel(id) in scripts[ran[0].sequence]) || CancelledIn(ran[1..], scripts, id))
  }

  lemma {:induction false} DuringBatch(v: View, ran: seq<Id>, scripts: Scripts, id: Id)
    requires ViewOk(v) && v.calling && id.sequence <= v.created
    ensures var v' := AfterCallbacks(v, ran, scripts);
      && ViewOk(v') && v'.batch == v.batch && v.created <= v'.created
      && (id in v'.live <==> id in v.live && !CancelledIn(ran, scripts, id))
      && (id in v'.live ==> v'.live[id] == v.live[id])
      && (id !in v.live ==> (id in v'.canceling <==> id in v.canceling || CancelledIn(ran, scripts, id)))
    decreases |ran|
  {
    hide AfterOps, ViewOk;
    if ran == [] {
    } else {
      DuringScript(v, ScriptOf(scripts, ran[0]), id);
      DuringBatch(AfterOps(v, ScriptOf(scripts, ran[0])), ran[1..], scripts, id);
    }
  }

  /** The fate of a due timer: it is live again after the batch exactly when it repeats and no
      callback of the batch, its own included, cancelled it; it then expires one interval from now. */
  lemma DueTimerFate(v: View, now: Time, ran: seq<Id>, scripts: Scripts, id: Id)
    requires ViewOk(v) && id in v.live && v.live[id].expiration <= now
    ensures var v' := AfterFiring(v, now, ran, scripts);
      && (id in v'.live <==> v.live[id].repeat && !CancelledIn(ran, scripts, id))
      && (id in v'.live ==> v'.live[id] == v.live[id].(expiration := now + v.live[id].delta))
  {
    DuringBatch(TakeDue(v, now), ran, scripts, id);
  }

  /** The fate of a timer that is not due: only a cancel in the batch removes it, nothing changes it. */
  lemma OtherTimerFate(v: View, now: Time, ran: seq<Id>, scripts: Scripts, id: Id)
    requires ViewOk(v) && id in v.live && now < v.live[id].expiration
    ensures var v' := AfterFiring(v, now, ran, scripts);
      && (id in v'.live <==> !CancelledIn(ran, scripts, id))
      && (id in v'.live ==> v'.live[id] == v.live[id])
  {
    DuringBatch(TakeDue(v, now), ran, scripts, id);
  }

  /** A firing leaves a sound view with no batch, and stale identifiers stay stale across it. */
  lemma FiringKeepsViewOk(v: View, now: Time, ran: seq<Id>, scripts: Scripts, stale: Id)
    requires ViewOk(v) && stale.sequence <= v.created && stale !in v.live
    ensures var v' := AfterFiring(v, now, ran, scripts);
      ViewOk(v') && v'.batch == map[] && v.created <= v'.created && stale !in v'.live
  {
    DuringBatch(TakeDue(v, now), ran, scripts, stale);
  }

  // ---- what a batch does to the timerfd ----

  /** All operations of a batch's callbacks, one after the other. */
  function AllOps(ran: seq<Id>, scripts: Scripts): seq<Op> {
    if ran == [] then []
    else (if ran[0].sequence in scripts then scripts[ran[0].sequence] else []) + AllOps(ran[1..], scripts)
  }

  lemma {:induction false} QuietConcat(v: View, a: seq<Op>, b: seq<Op>)
    ensures Quiet(v, a + b) <==> Quiet(v, a) && Quiet(AfterOps(v, a), b)
    decreases |a|
  {
    hide AfterOp, Rearms;
    if a == [] {
      assert a + b == b;
    } else {
      QuietConcat(AfterOp(v, a[0]), a[1..], b);
      assert (a + b)[1..] == a[1..] + b;
    }
  }

  lemma {:induction false} CallbacksAreOps(v: View, ran: seq<Id>, scripts: Scripts)
    ensures AfterCallbacks(v, ran, scripts) == AfterOps(v, AllOps(ran, scripts))
    ensures QuietCallbacks(v, ran, scripts) <==> Quiet(v, AllOps(ran, scripts))
    decreases |ran|
  {
    hide AfterOp, Rearms;
    if ran == [] {
    } else {
      var first, rest := ScriptOf(scripts, ran[0]), AllOps(ran[1..], scripts);
      CallbacksAreOps(AfterOps(v, first), ran[1..], scripts);
      AfterOpsConcat(v, first, rest);
      QuietConcat(v, first, rest);
    }
  }

  lemma {:induction false} QuietMeans(v: View, ops: seq<Op>)
    ensures Quiet(v, ops) <==> forall i :: 0 <= i < |ops| ==> !Rearms(AfterOps(v, ops[..i]), ops[i])
    decreases |ops|
  {
    hide AfterOp, Rearms;
    if ops == [] {
    } else {
      var rest, v1 := ops[1..], AfterOp(v, ops[0]);
      QuietMeans(v1, rest);
      assert ops[..0] == [];
      forall i | 0 < i < |ops|
        ensures Rearms(AfterOps(v, ops[..i]), ops[i]) <==> Rearms(AfterOps(v1, rest[..i - 1]), rest[i - 1])
      {
        assert ops[..i][1..] == rest[..i - 1];
      }
      if i :| 0 <= i < |rest| && Rearms(AfterOps(v1, rest[..i]), rest[i]) {
        assert Rearms(AfterOps(v, ops[..i + 1]), ops[i + 1]);
      }
    }
  }

  /** After a firing nothing is left to read, and the timerfd is set if and only if some operation of some callback
      changed the earliest expiration at its turn, or the earliest timer that is left has a valid time. */
  lemma FdFate(v: View, now: Time, ran: seq<Id>, scripts: Scripts)
    ensures var fd, ops, u := FdAfterFiring(v, now, ran, scripts), AllOps(ran, scripts), TakeDue(v, now);
      && !fd.readable
      && (fd.armed <==>
            || HasNext(AfterFiring(v, now, ran, scripts))
            || exists i :: 0 <= i < |ops| && Rearms(AfterOps(u, ops[..i]), ops[i]))
    ensures forall when :: IsEarliest(AfterFiring(v, now, ran, scripts), when) ==>
      (HasNext(AfterFiring(v, now, ran, scripts)) <==> 0 < when)
  {
    hide AfterFiring, AfterOps, TakeDue, Rearms;
    CallbacksAreOps(TakeDue(v, now), ran, scripts);
    QuietMeans(TakeDue(v, now), AllOps(ran, scripts));
  }

  // ---- reset, one timer at a time ----

  function ResetOne(v: View, now: Time, id: Id): View
    requires id in v.batch
  {
    var v' := v.(batch := v.batch - {id});
    if Reschedules(v, id) then
      v'.(live := v.live[id := v.batch[id].(expiration := now + v.batch[id].delta)])
    else
      v'
  }

  predicate Distinct(ids: seq<Id>) {
    forall i, j :: 0 <= i < j < |ids| ==> ids[i] != ids[j]
  }

  function ResetEach(v: View, now: Time, ids: seq<Id>): View
    requires Distinct(ids) && forall id :: id in ids ==> id in v.batch
    decreases |ids|
  {
    if ids == [] then v else
      assert forall j :: 1 <= j < |ids| ==> ids[0] != ids[j];
      assert forall id :: id in ids[1..] ==> id in ids && id != ids[0];
      ResetEach(ResetOne(v, now, ids[0]), now, ids[1..])
  }

  lemma ResetAt(v: View, now: Time, x: Id)
    ensures var live := AfterReset(v, now).live;
      && (x in live <==> x in v.live || (x in v.batch && Reschedules(v, x)))
      && (x in live ==> live[x] == if x in v.batch && Reschedules(v, x)
                                   then v.batch[x].(expiration := now + v.batch[x].delta) else v.live[x])
    ensures AfterReset(v, now) == v.(live := AfterReset(v, now).live, batch := map[])
  {
  }

  lemma DistinctTail(ids: seq<Id>)
    requires Distinct(ids) && ids != []
    ensures Distinct(ids[1..]) && forall id :: id in ids[1..] <==> id in ids && id != ids[0]
  {
    assert ids == [ids[0]] + ids[1..];
    assert forall j :: 0 <= j < |ids[1..]| ==> ids[1..][j] == ids[j + 1] && ids[j + 1] != ids[0];
  }

  lemma ResetEachStep(v: View, now: Time, ids: seq<Id>)
    requires Distinct(ids) && ids != [] && forall id :: id in ids <==> id in v.batch
    ensures Distinct(ids[1..]) && ids[0] in v.batch
    ensures forall id :: id in ids[1..] <==> id in ResetOne(v, now, ids[0]).batch
    ensures ResetEach(v, now, ids) == ResetEach(ResetOne(v, now, ids[0]), now, ids[1..])
  {
    DistinctTail(ids);
    assert ResetOne(v, now, ids[0]).batch == v.batch - {ids[0]};
  }

  lemma NothingLeft(v: View, now: Time)
    ensures ResetEach(v, now, []) == v
  {
  }

  lemma ResetOneFirst(v: View, now: Time, id: Id)
    requires id in v.batch && forall x :: x in v.batch ==> x !in v.live
    ensures AfterReset(ResetOne(v, now, id), now) == AfterReset(v, now)
    ensures forall x :: x in ResetOne(v, now, id).batch <==> x in v.batch && x != id
    ensures forall x :: x in ResetOne(v, now, id).batch ==> x !in ResetOne(v, now, id).live
  {
    hide AfterReset;
    var v1 := ResetOne(v, now, id);
    var live1, live := AfterReset(v1, now).live, AfterReset(v, now).live;
    forall x
      ensures (x in live1 <==> x in live) && (x in live ==> live1[x] == live[x])
    {
      ResetAt(v1, now, x);
      ResetAt(v, now, x);
    }
    assert live1 == live;
    ResetAt(v1, now, id);
    ResetAt(v, now, id);
  }

  /** The order in which a batch is reset does not matter. */
  lemma {:induction false} ResetEachIsReset(v: View, now: Time, ids: seq<Id>)
    requires Distinct(ids) && forall id :: id in ids <==> id in v.batch
    requires forall id :: id in v.batch ==> id !in v.live
    ensures ResetEach(v, now, ids) == AfterReset(v, now)
    decreases |ids|
  {
    if ids == [] {
      assert v.batch == map[];
      assert AfterReset(v, now).live == v.live;
    } else {
      var id, v1, rest := ids[0], ResetOne(v, now, ids[0]), ids[1..];
      ResetEachStep(v, now, ids);
      ResetOneFirst(v, now, id);
      hide ResetOne, AfterReset, Distinct;
      ResetEachIsReset(v1, now, rest);
    }
  }
}

/** The timer queue itself: an ordered index by expiration, a second index by identifier, and the
    heap of Timer objects they point into. */
module TimerQueues {
  import opened Options
  import opened TimerSpec

  /** std::pair<Timestamp, Timer*> and its order. */
  datatype Entry = Entry(when: Time, timer: Addr)

  predicate Before(a: Entry, b: Entry) {
    a.when < b.when || (a.when == b.when && a.timer < b.timer)
  }

  /** The order in which a std::set of entries is walked. */
  predicate Sorted(q: seq<Entry>) {
    forall i, j :: 0 <= i < j < |q| ==> Before(q[i], q[j])
  }

  function Inserted(q: seq<Entry>, e: Entry): seq<Entry> {
    if q == [] || Before(e, q[0]) then [e] + q else [q[0]] + Inserted(q[1..], e)
  }

  function Erased(q: seq<Entry>, e: Entry): seq<Entry> {
    if q == [] then [] else if q[0] == e then q[1..] else [q[0]] + Erased(q[1..], e)
  }

  /** How many entries precede lower_bound of the sentry (now, UINTPTR_MAX). */
  function DueCount(q: seq<Entry>, now: Time): (n: nat)
    ensures n <= |q|
  {
    if q == [] || !Before(q[0], Entry(now, UINTPTR_MAX)) then 0 else 1 + DueCount(q[1..], now)
  }

  lemma {:induction false} InsertedFacts(q: seq<Entry>, e: Entry)
    requires Sorted(q) && e !in q
    ensures var r := Inserted(q, e);
      && Sorted(r) && |r| == |q| + 1
      && (forall x :: x in r <==> x in q || x == e)
      && r[0] == (if q == [] || Before(e, q[0]) then e else q[0])
  {
    if q == [] || Before(e, q[0]) {
      assert q != [] ==> forall j :: 1 <= j < |q| ==> Before(q[0], q[j]);
    } else {
      InsertedFacts(q[1..], e);
      assert q == [q[0]] + q[1..];
      forall x | x in q[1..]
        ensures Before(q[0], x)
      {
      }
      var t := Inserted(q[1..], e);
      forall j | 0 <= j < |t|
        ensures Before(q[0], t[j])
      {
        assert t[j] in t;
      }
    }
  }

  lemma {:induction false} ErasedFacts(q: seq<Entry>, e: Entry)
    requires Sorted(q) && e in q
    ensures var r := Erased(q, e);
      && Sorted(r) && |r| == |q| - 1
      && (forall x :: x in r <==> x in q && x != e)
      && (r == [] || r[0] == q[0] || Before(q[0], r[0]))
  {
    assert q == [q[0]] + q[1..];
    if q[0] != e {
      ErasedFacts(q[1..], e);
      var t := Erased(q[1..], e);
      forall j | 0 <= j < |t|
        ensures Before(q[0], t[j])
      {
        assert t[j] in t && t[j] in q[1..];
      }
    }
  }

  lemma {:induction false} DueCountFacts(q: seq<Entry>, now: Time)
    requires Sorted(q) && forall e :: e in q ==> e.timer < UINTPTR_MAX
    ensures forall i :: 0 <= i < |q| ==> (q[i].when <= now <==> i < DueCount(q, now))
  {
    if q == [] {
    } else {
      assert q[0] in q;
      if Before(q[0], Entry(now, UINTPTR_MAX)) {
        DueCountFacts(q[1..], now);
        forall i | 0 <= i < |q|
          ensures q[i].when <= now <==> i < DueCount(q, now)
        {
          if i > 0 {
            assert q[i] == q[1..][i - 1];
          }
        }
      } else {
        assert forall i :: 0 < i < |q| ==> Before(q[0], q[i]);
      }
    }
  }

  // ---- the indexes against the heap ----

  type Heap = map<Addr, Timer>

  function IdOf(heap: Heap, a: Addr): Id
    requires a in heap
  {
    Id(a, heap[a].sequence)
  }

  predicate Holds(heap: Heap, id: Id) {
    id.timer in heap && heap[id.timer].sequence == id.sequence
  }

  function KeyOf(heap: Heap, id: Id): Entry
    requires id.timer in heap
  {
    Entry(heap[id.timer].expiration, id.timer)
  }

  /** Both indexes hold the same timers, keyed by their current expiration, and every object on the
      heap is either indexed or owned by the running batch: nothing dangles, nothing leaks. */
  ghost predicate Indexed(heap: Heap, timers: seq<Entry>, active: set<Id>, batch: set<Id>) {
    && Sorted(timers) && |timers| == |active| && active !! batch
    && (forall e :: e in timers <==> IsKey(heap, active, e))
    && (forall id :: id in active || id in batch <==> Holds(heap, id))
    && (forall a :: a in heap ==> a < UINTPTR_MAX)
  }

  predicate IsKey(heap: Heap, active: set<Id>, e: Entry) {
    e.timer in heap && heap[e.timer].expiration == e.when && IdOf(heap, e.timer) in active
  }

  lemma InsertKeepsIndexed(heap: Heap, timers: seq<Entry>, active: set<Id>, batch: set<Id>, id: Id)
    requires Indexed(heap, timers, active, batch) && id in batch
    ensures KeyOf(heap, id) !in timers
    ensures Indexed(heap, Inserted(timers, KeyOf(heap, id)), active + {id}, batch - {id})
  {
    var e := KeyOf(heap, id);
    assert !IsKey(heap, active, e);
    InsertedFacts(timers, e);
    hide Sorted, Inserted;
    forall x
      ensures IsKey(heap, active + {id}, x) <==> IsKey(heap, active, x) || x == e
    {
    }
  }

  lemma EraseKeepsIndexed(heap: Heap, timers: seq<Entry>, active: set<Id>, batch: set<Id>, id: Id)
    requires Indexed(heap, timers, active, batch) && id in active
    ensures KeyOf(heap, id) in timers
    ensures Indexed(heap - {id.timer}, Erased(timers, KeyOf(heap, id)), active - {id}, batch)
  {
    var e := KeyOf(heap, id);
    assert IsKey(heap, active, e);
    ErasedFacts(timers, e);
    hide Sorted, Erased;
    forall x
      ensures IsKey(heap - {id.timer}, active - {id}, x) <==> IsKey(heap, active, x) && x != e
    {
    }
  }

  lemma NewKeepsIndexed(heap: Heap, timers: seq<Entry>, active: set<Id>, batch: set<Id>, a: Addr, t: Timer)
    requires Indexed(heap, timers, active, batch) && a !in heap && a < UINTPTR_MAX
    ensures Indexed(heap[a := t], timers, active, batch + {Id(a, t.sequence)})
  {
    hide Sorted;
    forall x
      ensures IsKey(heap[a := t], active, x) <==> IsKey(heap, active, x)
    {
    }
  }

  lemma RestartKeepsIndexed(heap: Heap, timers: seq<Entry>, active: set<Id>, batch: set<Id>, id: Id, when: Time)
    requires Indexed(heap, timers, active, batch) && id in batch
    ensures Indexed(heap[id.timer := heap[id.timer].(expiration := when)], timers, active, batch)
  {
    hide Sorted;
    forall x
      ensures IsKey(heap[id.timer := heap[id.timer].(expiration := when)], active, x) <==> IsKey(heap, active, x)
    {
    }
  }

  lemma DeleteKeepsIndexed(heap: Heap, timers: seq<Entry>, active: set<Id>, batch: set<Id>, id: Id)
    requires Indexed(heap, timers, active, batch) && id in batch
    ensures Indexed(heap - {id.timer}, timers, active, batch - {id})
  {
    hide Sorted;
    forall x
      ensures IsKey(heap - {id.timer}, active, x) <==> IsKey(heap, active, x)
    {
    }
  }

  /** The first `n` entries of `q` have moved from the active set `was` to the batch. */
  ghost predicate Taken(heap: Heap, q: seq<Entry>, was: set<Id>, active: set<Id>, batch: set<Id>, n: nat)
    requires n <= |q|
  {
    && active + batch == was
    && (forall i :: 0 <= i < n ==> q[i].timer in heap && IdOf(heap, q[i].timer) in batch)
    && (forall id :: id in batch ==> id.timer in heap && KeyOf(heap, id) in q[..n])
  }

  lemma TakeFirst(heap: Heap, timers: seq<Entry>, active: set<Id>, batch: set<Id>)
    requires Indexed(heap, timers, active, batch) && timers != []
    ensures timers[0].timer in heap && IdOf(heap, timers[0].timer) in active
    ensures var id := IdOf(heap, timers[0].timer);
      KeyOf(heap, id) == timers[0] && Indexed(heap, timers[1..], active - {id}, batch + {id})
  {
    var e := timers[0];
    assert e in timers;
    assert IsKey(heap, active, e);
    var id := IdOf(heap, e.timer);
    assert timers == [e] + timers[1..];
    assert forall i :: 0 <= i < |timers[1..]| ==> timers[1..][i] == timers[i + 1];
    forall x
      ensures x in timers[1..] <==> IsKey(heap, active - {id}, x)
    {
      assert x in timers <==> IsKey(heap, active, x);
    }
  }

  lemma TakeNext(heap: Heap, q: seq<Entry>, was: set<Id>, active: set<Id>, batch: set<Id>, n: nat)
    requires n < |q| && Indexed(heap, q[n..], active, batch) && Taken(heap, q, was, active, batch, n)
    ensures q[n].timer in heap && IdOf(heap, q[n].timer) in active
    ensures var id := IdOf(heap, q[n].timer);
      && Indexed(heap, q[n + 1..], active - {id}, batch + {id})
      && Taken(heap, q, was, active - {id}, batch + {id}, n + 1)
  {
    hide Indexed;
    TakeFirst(heap, q[n..], active, batch);
    assert q[n..][1..] == q[n + 1..];
    assert q[..n + 1] == q[..n] + [q[n]];
  }

  /** What getExpired took is what was due. */
  lemma TakenIsDue(heap: Heap, q: seq<Entry>, was: set<Id>, active: set<Id>, batch: set<Id>, n: nat, now: Time, v: View)
    requires n <= |q| && Taken(heap, q, was, active, batch, n) && Indexed(heap, q[n..], active, batch)
    requires forall e :: e in q[..n] ==> e.when <= now
    requires forall e :: e in q[n..] ==> now < e.when
    requires v.live == Timers(heap, was)
    ensures Timers(heap, active) == TakeDue(v, now).live && Timers(heap, batch) == TakeDue(v, now).batch
  {
    hide Sorted;
    forall id | id in active
      ensures Holds(heap, id) && now < heap[id.timer].expiration
    {
      assert IsKey(heap, active, KeyOf(heap, id));
    }
    forall id | id in batch
      ensures id.timer in heap && heap[id.timer].expiration <= now
    {
    }
  }

  predicate SequencesUpTo(heap: Heap, n: nat) {
    forall a :: a in heap ==> heap[a].sequence <= n
  }

  lemma NewSequence(heap: Heap, n: nat, a: Addr, t: Timer)
    requires SequencesUpTo(heap, n) && n < t.sequence
    ensures SequencesUpTo(heap[a := t], t.sequence)
  {
  }

  function Timers(heap: Heap, ids: set<Id>): map<Id, Timer> {
    map id | id in ids && id.timer in heap :: heap[id.timer]
  }

  lemma NewTimers(heap: Heap, timers: seq<Entry>, active: set<Id>, batch: set<Id>, a: Addr, t: Timer)
    requires Indexed(heap, timers, active, batch) && a !in heap
    ensures var id := Id(a, t.sequence);
      && id !in active && id !in batch
      && Timers(heap[a := t], active + {id}) == Timers(heap, active)[id := t]
      && Timers(heap[a := t], batch) == Timers(heap, batch)
  {
    hide Sorted;
  }

  lemma ErasedTimers(heap: Heap, timers: seq<Entry>, active: set<Id>, batch: set<Id>, id: Id)
    requires Indexed(heap, timers, active, batch) && id in active
    ensures id.timer in heap && id in Timers(heap, active)
    ensures Timers(heap - {id.timer}, active - {id}) == Timers(heap, active) - {id}
    ensures Timers(heap - {id.timer}, batch) == Timers(heap, batch)
  {
    hide Sorted;
  }

  lemma RestartedTimers(heap: Heap, timers: seq<Entry>, active: set<Id>, batch: set<Id>, id: Id, t: Timer)
    requires Indexed(heap, timers, active, batch) && id in batch
    ensures Timers(heap[id.timer := t], active + {id}) == Timers(heap, active)[id := t]
    ensures Timers(heap[id.timer := t], batch - {id}) == Timers(heap, batch) - {id}
  {
    hide Sorted;
    OneIdPerAddress(heap, timers, active, batch, id);
  }

  lemma DeletedTimers(heap: Heap, timers: seq<Entry>, active: set<Id>, batch: set<Id>, id: Id)
    requires Indexed(heap, timers, active, batch) && id in batch
    ensures Timers(heap - {id.timer}, active) == Timers(heap, active)
    ensures Timers(heap - {id.timer}, batch - {id}) == Timers(heap, batch) - {id}
  {
    hide Sorted;
    OneIdPerAddress(heap, timers, active, batch, id);
  }

  lemma OneIdPerAddress(heap: Heap, timers: seq<Entry>, active: set<Id>, batch: set<Id>, id: Id)
    requires Indexed(heap, timers, active, batch) && id in batch
    ensures id.timer in heap && heap[id.timer].sequence == id.sequence && id !in active
    ensures id in Timers(heap, batch) && Timers(heap, batch)[id] == heap[id.timer]
    ensures forall x :: (x in active || x in batch) && x.timer == id.timer ==> x == id
  {
    hide Sorted;
  }

  function IdsOf(heap: Heap, q: seq<Entry>): (ids: seq<Id>)
    requires forall e :: e in q ==> e.timer in heap
    ensures |ids| == |q| && forall i :: 0 <= i < |q| ==> q[i] in q && ids[i] == IdOf(heap, q[i].timer)
  {
    seq(|q|, i requires 0 <= i < |q| => assert q[i] in q; IdOf(heap, q[i].timer))
  }

  /** A batch: exactly the timers due at `now`, each once, in (expiration, address) order. */
  ghost predicate IsBatch(v: View, now: Time, ran: seq<Id>) {
    && (forall id :: id in ran <==> id in v.live && v.live[id].expiration <= now)
    && (forall i, j :: 0 <= i < j < |ran| ==>
          ran[i] in v.live && ran[j] in v.live
          && Before(Entry(v.live[ran[i]].expiration, ran[i].timer), Entry(v.live[ran[j]].expiration, ran[j].timer)))
  }

  lemma EntriesAreKeys(heap: Heap, q: seq<Entry>, was: set<Id>, batch: set<Id>)
    requires Indexed(heap, q, was, batch)
    ensures forall e :: e in q ==> e.timer in heap
    ensures forall i :: 0 <= i < |q| ==> IdsOf(heap, q)[i] in was && KeyOf(heap, IdsOf(heap, q)[i]) == q[i]
    ensures forall id :: id in was ==> id.timer in heap && KeyOf(heap, id) in q && id in IdsOf(heap, q)
  {
    hide Sorted;
    forall e | e in q
      ensures IsKey(heap, was, e)
    {
    }
    var ids := IdsOf(heap, q);
    forall id | id in was
      ensures id.timer in heap && KeyOf(heap, id) in q && id in ids
    {
      assert Holds(heap, id);
      assert IsKey(heap, was, KeyOf(heap, id));
      var k :| 0 <= k < |q| && q[k] == KeyOf(heap, id);
      assert ids[k] == id;
    }
  }

  lemma PrefixIsBatch(v: View, q: seq<Entry>, ids: seq<Id>, n: nat, now: Time)
    requires Sorted(q) && n <= |q| == |ids|
    requires forall i :: 0 <= i < |q| ==> ids[i] in v.live && Entry(v.live[ids[i]].expiration, ids[i].timer) == q[i]
    requires forall id :: id in v.live ==> id in ids
    requires forall i :: 0 <= i < |q| ==> (q[i].when <= now <==> i < n)
    ensures IsBatch(v, now, ids[..n]) && Distinct(ids[..n])
  {
    forall id | IsDue(v, id, now)
      ensures id in ids[..n]
    {
      var k :| 0 <= k < |q| && ids[k] == id;
      assert q[k].when <= now;
      assert ids[..n][k] == id;
    }
    forall id | id in ids[..n]
      ensures IsDue(v, id, now)
    {
      var k :| 0 <= k < n && ids[k] == id;
      assert q[k].when <= now;
    }
    forall i, j | 0 <= i < j < n
      ensures Before(q[i], q[j]) && ids[i] != ids[j]
    {
    }
  }

  lemma TakenIsBatch(heap: Heap, q: seq<Entry>, was: set<Id>, n: nat, now: Time, v: View)
    requires n <= |q| && Indexed(heap, q, was, {}) && v.live == Timers(heap, was)
    requires forall i :: 0 <= i < |q| ==> (q[i].when <= now <==> i < n)
    ensures forall e :: e in q ==> e.timer in heap
    ensures IsBatch(v, now, IdsOf(heap, q)[..n]) && Distinct(IdsOf(heap, q)[..n])
  {
    assert Sorted(q);
    hide Indexed, Sorted;
    EntriesAreKeys(heap, q, was, {});
    var ids := IdsOf(heap, q);
    forall i | 0 <= i < |q|
      ensures ids[i] in v.live && Entry(v.live[ids[i]].expiration, ids[i].timer) == q[i]
    {
      assert KeyOf(heap, ids[i]) == q[i];
    }
    PrefixIsBatch(v, q, ids, n, now);
  }

  lemma TakenIds(heap: Heap, q: seq<Entry>, was: set<Id>, active: set<Id>, batch: set<Id>, n: nat)
    requires n <= |q| && Taken(heap, q, was, active, batch, n) && Indexed(heap, q[n..], active, batch)
    ensures forall e :: e in q[..n] ==> e.timer in heap && IdOf(heap, e.timer) in batch
    ensures forall id :: id in batch <==> id in IdsOf(heap, q[..n])
  {
    TakenInBatch(heap, q, was, active, batch, n);
    forall id | id in batch
      ensures id in IdsOf(heap, q[..n])
    {
      BatchIsTaken(heap, q, was, active, batch, n, id);
    }
  }

  lemma TakenInBatch(heap: Heap, q: seq<Entry>, was: set<Id>, active: set<Id>, batch: set<Id>, n: nat)
    requires n <= |q| && Taken(heap, q, was, active, batch, n)
    ensures forall e :: e in q[..n] ==> e.timer in heap && IdOf(heap, e.timer) in batch
  {
  }

  lemma BatchIsTaken(heap: Heap, q: seq<Entry>, was: set<Id>, active: set<Id>, batch: set<Id>, n: nat, id: Id)
    requires n <= |q| && Taken(heap, q, was, active, batch, n) && Indexed(heap, q[n..], active, batch) && id in batch
    ensures forall e :: e in q[..n] ==> e.timer in heap
    ensures id in IdsOf(heap, q[..n])
  {
    hide Sorted;
    assert Holds(heap, id);
    var i :| 0 <= i < n && q[..n][i] == KeyOf(heap, id);
    assert IdsOf(heap, q[..n])[i] == id;
  }

  lemma IdsOfPrefix(heap: Heap, q: seq<Entry>, n: nat)
    requires n <= |q| && forall e :: e in q ==> e.timer in heap
    ensures IdsOf(heap, q)[..n] == IdsOf(heap, q[..n])
  {
  }

  lemma ExpiredFacts(heap: Heap, q: seq<Entry>, was: set<Id>, active: set<Id>, batch: set<Id>, n: nat, now: Time,
                     v: View)
    requires n <= |q| && Indexed(heap, q, was, {}) && v.live == Timers(heap, was)
    requires forall i :: 0 <= i < |q| ==> (q[i].when <= now <==> i < n)
    requires Taken(heap, q, was, active, batch, n) && Indexed(heap, q[n..], active, batch)
    ensures forall e :: e in q[..n] ==> e.timer in heap && IdOf(heap, e.timer) in batch
    ensures var ids := IdsOf(heap, q[..n]);
      Distinct(ids) && IsBatch(v, now, ids) && forall id :: id in batch <==> id in ids
    ensures Timers(heap, active) == TakeDue(v, now).live && Timers(heap, batch) == TakeDue(v, now).batch
  {
    hide Indexed, Sorted, Taken, TakeDue, IsBatch, Timers, Distinct;
    TakenIsBatch(heap, q, was, n, now, v);
    TakenIds(heap, q, was, active, batch, n);
    IdsOfPrefix(heap, q, n);
    TakenIsDue(heap, q, was, active, batch, n, now, v);
  }

  /** howMuchTimeFromNow never asks for less than this. */
  const MIN_DELAY: Time := 100

  /** Set for an expiration, or for the minimal delay if that is later. */
  predicate ArmedFor(deadline: Option<Time>, expiration: Time, clock: Time) {
    && deadline.Some? && expiration <= deadline.value && clock + MIN_DELAY <= deadline.value
    && (deadline.value == expiration || deadline.value == clock + MIN_DELAY)
  }

  class TimerQueue {
    var heap: Heap
    var created: nat
    var timers: seq<Entry>
    var active: set<Id>
    var canceling: set<Id>
    var calling: bool
    // the timerfd: when it is set to expire, and whether it has and was not read since
    var deadline: Option<Time>
    var expired: bool
    ghost var armedAt: Time
    ghost var batch: set<Id>

    ghost predicate Valid()
      reads this
    {
      Indexed(heap, timers, active, batch) && SequencesUpTo(heap, created)
    }

    ghost function Meaning(): View
      requires Valid()
      reads this
    {
      View(Timers(heap, active), Timers(heap, batch), canceling, calling, created)
    }

    ghost function Fd(): TimerFd
      reads this`deadline, this`expired
    {
      TimerFd(deadline.Some?, expired)
    }

    /** The timerfd is armed, for a time no later than the earliest expiration (or than the minimal
        delay after it was armed, when that is later). */
    ghost predicate Covered()
      reads this`timers, this`deadline, this`armedAt
    {
      timers == [] ||
      (deadline.Some? && (deadline.value <= timers[0].when || deadline.value <= armedAt + MIN_DELAY))
    }

    /** What holds while a batch runs: reset arms the timerfd only for a positive expiration. */
    ghost predicate CoveredUpToReset()
      reads this`timers, this`deadline, this`armedAt
    {
      timers == [] || timers[0].when > 0 || Covered()
    }

    constructor ()
      ensures Valid() && Covered() && batch == {} && !calling
      ensures Meaning() == View(map[], map[], {}, false, 0) && Fd() == TimerFd(false, false)
    {
      heap, created, timers, active, canceling, calling := map[], 0, [], {}, {}, false;
      deadline, expired, armedAt, batch := None, false, 0, {};
    }

    method ResetTimerfd(expiration: Time, clock: Time)
      modifies this`deadline, this`expired, this`armedAt
      ensures deadline.Some? && expiration <= deadline.value && clock + 100 <= deadline.value
      ensures deadline.value == expiration || deadline.value == clock + 100
      ensures ArmedFor(deadline, expiration, clock) && !expired && armedAt == clock
      ensures Fd() == TimerFd(true, false)
    {
      var microseconds := expiration - clock;
      if microseconds < MIN_DELAY {
        microseconds := MIN_DELAY;
      }
      deadline := Some(clock + microseconds);
      expired, armedAt := false, clock;
    }

    /** Moves an allocated timer into both indexes. */
    method Insert(timer: Addr) returns (earliestChanged: bool)
      requires Valid() && timer in heap && IdOf(heap, timer) in batch
      modifies this`timers, this`active, this`batch
      ensures Valid()
      ensures timers == Inserted(old(timers), Entry(heap[timer].expiration, timer))
      ensures active == old(active) + {IdOf(heap, timer)} && batch == old(batch) - {IdOf(heap, timer)}
      ensures earliestChanged <==> old(timers) == [] || heap[timer].expiration < old(timers)[0].when
    {
      var id, when := IdOf(heap, timer), heap[timer].expiration;
      earliestChanged := timers == [] || when < timers[0].when;
      InsertKeepsIndexed(heap, timers, active, batch, id);
      assert Entry(when, timer) !in timers;
      timers := Inserted(timers, Entry(when, timer));
      assert id !in active;
      active := active + {id};
      batch := batch - {id};
    }

    method AddTimerInLoop(timer: Addr, clock: Time)
      requires Valid() && timer in heap && IdOf(heap, timer) in batch
      modifies this`timers, this`active, this`batch, this`deadline, this`expired, this`armedAt
      ensures Valid()
      ensures active == old(active) + {IdOf(heap, timer)} && batch == old(batch) - {IdOf(heap, timer)}
      ensures old(CoveredUpToReset()) ==> CoveredUpToReset()
      ensures old(Covered()) ==> Covered()
      ensures Fd() == SetIf(old(Fd()), old(timers) == [] || heap[timer].expiration < old(timers)[0].when)
      ensures if old(timers) == [] || heap[timer].expiration < old(timers)[0].when
        then ArmedFor(deadline, heap[timer].expiration, clock) else deadline == old(deadline)
    {
      hide Indexed, Inserted, Sorted;
      HeadAfterInsert(timer);
      var earliestChanged := Insert(timer);
      if earliestChanged {
        ResetTimerfd(heap[timer].expiration, clock);
      }
    }

    /** `new Timer`: an object that no index knows yet. */
    method New(op: Op) returns (id: Id)
      requires Valid() && op.Add? && CanAllocate(Meaning(), op.at)
      modifies this`heap, this`created, this`batch
      ensures Valid() && id == NewId(old(Meaning()), op) && id in batch && batch - {id} == old(batch)
      ensures id.timer in heap && IdOf(heap, id.timer) == id && heap[id.timer].expiration == op.when
      ensures var v := AfterOp(old(Meaning()), op);
        v.live == Timers(heap, active + {id}) && v.batch == Timers(heap, old(batch)) && v.created == created
    {
      hide Indexed, InUse, Timers, SequencesUpTo, AfterOp, CanAllocate;
      Allocatable(op.at);
      var t := Timer(op.when, op.delta, op.repeat, created + 1 + op.others);
      id := Id(op.at, t.sequence);
      NewKeepsIndexed(heap, timers, active, batch, op.at, t);
      NewTimers(heap, timers, active, batch, op.at, t);
      NewSequence(heap, created, op.at, t);
      AddedView(Meaning(), op);
      heap := heap[op.at := t];
      created := t.sequence;
      batch := batch + {id};
    }

    /** addTimer on the loop thread; the address is the allocator's choice. */
    method AddTimer(op: Op)
      requires Valid() && op.Add?
      modifies this
      ensures Valid() && Meaning() == AfterOp(old(Meaning()), op) && batch == old(batch) && calling == old(calling)
      ensures old(CoveredUpToReset()) ==> CoveredUpToReset()
      ensures old(Covered()) ==> Covered()
      // the timerfd is set, and so no longer readable, exactly when the earliest expiration changed
      ensures Fd() == SetIf(old(Fd()), Rearms(old(Meaning()), op))
      ensures if Rearms(old(Meaning()), op) then ArmedFor(deadline, op.when, op.clock) else deadline == old(deadline)
    {
      hide Indexed, InUse, Timers, SequencesUpTo, AfterOp, CanAllocate, Covered, CoveredUpToReset, Earlier, ArmedFor;
      Allocatable(op.at);
      HeadIsEarliest(op.when);
      AddedView(Meaning(), op);
      if op.at < UINTPTR_MAX && op.at !in heap {
        var id := New(op);
        AddTimerInLoop(id.timer, op.clock);
      }
    }

    lemma HeadIsEarliest(when: Time)
      requires Valid()
      ensures Earlier(Meaning(), when) <==> timers == [] || when < timers[0].when
      ensures Meaning().live == map[] <==> timers == []
    {
      var v := Meaning();
      if timers != [] {
        assert timers[0] in timers;
        assert IsKey(heap, active, timers[0]);
        var id := IdOf(heap, timers[0].timer);
        assert id in v.live && v.live[id].expiration == timers[0].when;
      }
      forall id | id in v.live
        ensures timers != [] && timers[0].when <= v.live[id].expiration
      {
        assert Holds(heap, id);
        assert IsKey(heap, active, KeyOf(heap, id));
        var k :| 0 <= k < |timers| && timers[k] == KeyOf(heap, id);
        assert k == 0 || Before(timers[0], timers[k]);
      }
    }

    lemma HeadIsTheEarliest()
      requires Valid()
      ensures forall when :: IsEarliest(Meaning(), when) <==> timers != [] && when == timers[0].when
    {
      forall when
        ensures IsEarliest(Meaning(), when) <==> timers != [] && when == timers[0].when
      {
        HeadIsEarliest(when);
        HeadIsEarliest(when - 1);
        var live := Meaning().live;
        assert when - 1 < when;
        assert Earlier(Meaning(), when - 1) <==> forall id :: id in live ==> when <= live[id].expiration;
        if IsEarliest(Meaning(), when) {
          assert !Earlier(Meaning(), when);
        }
      }
    }

    lemma AddedView(v: View, op: Op)
      requires op.Add?
      ensures !CanAllocate(v, op.at) ==> AfterOp(v, op) == v
      ensures var v' := AfterOp(v, op);
        CanAllocate(v, op.at) ==>
          var id := NewId(v, op);
          && v'.live == v.live[id := Timer(op.when, op.delta, op.repeat, id.sequence)] && v'.created == id.sequence
          && v'.batch == v.batch && v'.canceling == v.canceling && v'.calling == v.calling
    {
    }

    lemma HeadAfterInsert(timer: Addr)
      requires Valid() && timer in heap && IdOf(heap, timer) in batch
      ensures var r := Inserted(timers, Entry(heap[timer].expiration, timer));
        && r != []
        && (r[0].when == heap[timer].expiration || (timers != [] && r[0] == timers[0]))
        && (timers == [] || heap[timer].expiration < timers[0].when ==> r[0].when == heap[timer].expiration)
        && (timers != [] ==> r[0].when <= timers[0].when)
    {
      InsertKeepsIndexed(heap, timers, active, batch, IdOf(heap, timer));
      InsertedFacts(timers, Entry(heap[timer].expiration, timer));
    }

    lemma Allocatable(a: Addr)
      requires Valid()
      ensures CanAllocate(Meaning(), a) <==> a < UINTPTR_MAX && a !in heap
    {
      if a in heap {
        assert Holds(heap, IdOf(heap, a));
      }
    }

    /** Frees a live timer; during a batch it remembers any other identifier. */
    method CancelInLoop(id: Id)
      requires Valid()
      modifies this`heap, this`timers, this`active, this`canceling
      ensures Valid() && Meaning() == AfterOp(old(Meaning()), Cancel(id))
      ensures old(CoveredUpToReset()) ==> CoveredUpToReset()
      ensures old(Covered()) ==> Covered()
    {
      assert |timers| == |active|;
      ActiveIsLive();
      hide Indexed, Erased, Sorted;
      if id in active {
        ErasedTimers(heap, timers, active, batch, id);
        var e := Entry(heap[id.timer].expiration, id.timer);
        EraseKeepsIndexed(heap, timers, active, batch, id);
        HeadAfterErase(id);
        assert e in timers;
        timers := Erased(timers, e);
        heap := heap - {id.timer};
        active := active - {id};
      } else if calling {
        canceling := canceling + {id};
      }
      SizesAgree();
      assert |timers| == |active|;
    }

    lemma SizesAgree()
      requires Valid()
      ensures |timers| == |active|
    {
    }

    lemma ActiveIsLive()
      requires Valid()
      ensures forall id :: id in active <==> id in Meaning().live
    {
    }

    lemma HeadAfterErase(id: Id)
      requires Valid() && id in active && id.timer in heap
      ensures var r := Erased(timers, Entry(heap[id.timer].expiration, id.timer));
        timers != [] && (r == [] || timers[0].when <= r[0].when)
    {
      EraseKeepsIndexed(heap, timers, active, batch, id);
      ErasedFacts(timers, KeyOf(heap, id));
    }

    /** Takes everything due at `now` out of both indexes. */
    method GetExpired(now: Time) returns (expired: seq<Entry>)
      requires Valid() && batch == {}
      modifies this`timers, this`active, this`batch
      ensures Valid() && heap == old(heap)
      ensures forall e :: e in expired ==> e.timer in heap && IdOf(heap, e.timer) in batch
      ensures var ids := IdsOf(heap, expired);
        Distinct(ids) && IsBatch(old(Meaning()), now, ids) && forall id :: id in batch <==> id in ids
      ensures var v := TakeDue(old(Meaning()), now);
        Meaning().live == v.live && Meaning().batch == v.batch
      ensures timers == [] || now < timers[0].when
    {
      hide Indexed, Sorted, Taken, TakeDue, IsBatch, Timers, Distinct;
      DueFacts(now);
      var n := DueCount(timers, now);
      ghost var v, q, was := Meaning(), timers, active;
      expired := timers[..n];
      timers := timers[n..];
      EraseActive(expired, q);
      ExpiredFacts(heap, q, was, active, batch, n, now, v);
    }

    /** The second index follows the first. */
    method EraseActive(expired: seq<Entry>, ghost q: seq<Entry>)
      requires Indexed(heap, q, active, batch) && batch == {} && q == expired + timers
      modifies this`active, this`batch
      ensures Indexed(heap, timers, active, batch)
      ensures Taken(heap, q, old(active), active, batch, |expired|)
    {
      hide Indexed, Sorted, Taken;
      NoneTaken(q);
      var i := 0;
      assert q[0..] == q;
      while i < |expired|
        invariant i <= |expired|
        invariant Indexed(heap, q[i..], active, batch)
        invariant Taken(heap, q, old(active), active, batch, i)
      {
        TakeNext(heap, q, old(active), active, batch, i);
        assert q[i] == expired[i];
        var id := IdOf(heap, expired[i].timer);
        assert id in active;
        active := active - {id};
        batch := batch + {id};
        i := i + 1;
      }
      assert q[|expired|..] == timers;
    }

    lemma NoneTaken(q: seq<Entry>)
      requires batch == {}
      ensures Taken(heap, q, active, active, batch, 0)
    {
    }

    lemma DueFacts(now: Time)
      requires Valid()
      ensures forall i :: 0 <= i < |timers| ==> (timers[i].when <= now <==> i < DueCount(timers, now))
    {
      forall e | e in timers
        ensures e.timer < UINTPTR_MAX
      {
        assert IsKey(heap, active, e);
      }
      DueCountFacts(timers, now);
    }

    /** One callback: its script of in-loop calls. */
    method Run(ops: seq<Op>)
      requires Valid()
      modifies this
      ensures Valid() && Meaning() == AfterOps(old(Meaning()), ops) && batch == old(batch) && calling == old(calling)
      ensures old(CoveredUpToReset()) ==> CoveredUpToReset()
      ensures old(Covered()) ==> Covered()
      ensures Fd() == SetIf(old(Fd()), !Quiet(old(Meaning()), ops))
    {
      hide Indexed, SequencesUpTo, AfterOp, Timers, Covered, CoveredUpToReset, Earlier, CanAllocate;
      assert ops[0..] == ops;
      for i := 0 to |ops|
        invariant Valid() && batch == old(batch) && calling == old(calling)
        invariant AfterOps(Meaning(), ops[i..]) == AfterOps(old(Meaning()), ops)
        invariant SetIf(Fd(), !Quiet(Meaning(), ops[i..])) == SetIf(old(Fd()), !Quiet(old(Meaning()), ops))
        invariant old(CoveredUpToReset()) ==> CoveredUpToReset()
        invariant old(Covered()) ==> Covered()
      {
        assert ops[i..][0] == ops[i] && ops[i..][1..] == ops[i + 1..];
        match ops[i]
        case Add(_, _, _, _, _, _) => AddTimer(ops[i]);
        case Cancel(id) => CancelInLoop(id);
      }
    }

    lemma InBatch(id: Id)
      requires Valid()
      ensures id in batch ==> Holds(heap, id)
    {
    }

    /** Runs the callbacks of a batch. Whatever they do, the timers of the batch stay allocated. */
    method RunCallbacks(expired: seq<Entry>, scripts: Scripts) returns (ran: seq<Id>)
      requires Valid()
      requires forall e :: e in expired ==> e.timer in heap && IdOf(heap, e.timer) in batch
      modifies this
      ensures Valid() && Meaning() == AfterCallbacks(old(Meaning()), ran, scripts)
      ensures ran == IdsOf(old(heap), expired)
      ensures batch == old(batch) && calling == old(calling)
      ensures old(CoveredUpToReset()) ==> CoveredUpToReset()
      ensures Fd() == SetIf(old(Fd()), !QuietCallbacks(old(Meaning()), ran, scripts))
    {
      hide Indexed, SequencesUpTo, AfterOps, Timers, CoveredUpToReset, Quiet;
      ran := [];
      ghost var ids := IdsOf(heap, expired);
      assert ids[0..] == ids;
      for i := 0 to |expired|
        invariant Valid() && ran == ids[..i]
        invariant batch == old(batch) && calling == old(calling)
        invariant AfterCallbacks(Meaning(), ids[i..], scripts) == AfterCallbacks(old(Meaning()), ids, scripts)
        invariant SetIf(Fd(), !QuietCallbacks(Meaning(), ids[i..], scripts)) ==
                  SetIf(old(Fd()), !QuietCallbacks(old(Meaning()), ids, scripts))
        invariant old(CoveredUpToReset()) ==> CoveredUpToReset()
      {
        assert expired[i] in expired;
        InBatch(ids[i]);
        var id := IdOf(heap, expired[i].timer);
        assert ids[i..][0] == id && ids[i..][1..] == ids[i + 1..];
        ran := ran + [id];
        Run(ScriptOf(scripts, id));
      }
      assert ids[..|expired|] == ids;
    }

    /** One timer of the batch: starts over, or is freed. */
    method ResetTimer(timer: Addr, now: Time)
      requires Valid() && timer in heap && IdOf(heap, timer) in batch
      modifies this`heap, this`timers, this`active, this`batch
      ensures Valid() && batch == old(batch) - {old(IdOf(heap, timer))}
      ensures old(IdOf(heap, timer)) in old(Meaning()).batch
      ensures Meaning() == ResetOne(old(Meaning()), now, old(IdOf(heap, timer)))
      ensures 0 < now && old(CoveredUpToReset()) ==> CoveredUpToReset()
      ensures forall a :: a in old(heap) && a != timer ==> a in heap && heap[a] == old(heap)[a]
    {
      hide Indexed, Sorted, Inserted, Timers;
      var t, id := heap[timer], IdOf(heap, timer);
      OneIdPerAddress(heap, timers, active, batch, id);
      if t.repeat && id !in canceling {
        var t' := t.(expiration := now + t.delta);
        RestartKeepsIndexed(heap, timers, active, batch, id, t'.expiration);
        RestartedTimers(heap, timers, active, batch, id, t');
        heap := heap[timer := t'];
        HeadAfterInsert(timer);
        var _ := Insert(timer);
      } else {
        DeleteKeepsIndexed(heap, timers, active, batch, id);
        DeletedTimers(heap, timers, active, batch, id);
        heap := heap - {timer};
        batch := batch - {id};
      }
    }

    /** Restarts or frees the timers of the batch, then arms the timerfd for the earliest. */
    method Reset(expired: seq<Entry>, now: Time, clock: Time, ghost ids: seq<Id>)
      requires Valid() && Distinct(ids) && forall id :: id in ids <==> id in batch
      requires |ids| == |expired| && forall i :: 0 <= i < |ids| ==> ids[i].timer == expired[i].timer
      modifies this
      ensures Valid() && batch == {} && calling == old(calling)
      ensures Meaning() == AfterReset(old(Meaning()), now)
      ensures 0 < now && old(CoveredUpToReset()) ==> Covered()
      ensures Fd() == SetIf(old(Fd()), HasNext(Meaning()))
      ensures HasNext(Meaning()) ==> forall when :: IsEarliest(Meaning(), when) ==> ArmedFor(deadline, when, clock)
    {
      hide HasNext, IsEarliest, ArmedFor;
      hide Indexed, Sorted, Timers, SequencesUpTo, ResetOne, AfterReset, ResetEach, Covered, CoveredUpToReset, Distinct;
      assert ids[0..] == ids;
      BatchKeys();
      ResetEachIsReset(Meaning(), now, ids);
      for i := 0 to |expired|
        invariant Valid() && calling == old(calling) && Fd() == old(Fd())
        invariant Distinct(ids[i..]) && forall id :: id in ids[i..] <==> id in Meaning().batch
        invariant ResetEach(Meaning(), now, ids[i..]) == ResetEach(old(Meaning()), now, ids)
        invariant 0 < now && old(CoveredUpToReset()) ==> CoveredUpToReset()
      {
        ResetEachStep(Meaning(), now, ids[i..]);
        assert ids[i..][0] == ids[i] && ids[i..][1..] == ids[i + 1..];
        BatchKeys();
        InBatch(ids[i]);
        ResetTimer(expired[i].timer, now);
      }
      assert ids[|expired|..] == [];
      BatchKeys();
      NothingLeft(Meaning(), now);
      RearmForEarliest(clock);
    }

    lemma BatchKeys()
      requires Valid()
      ensures forall id :: id in batch <==> id in Meaning().batch
      ensures forall id :: id in Meaning().batch ==> id !in Meaning().live
    {
    }

    method RearmForEarliest(clock: Time)
      requires Valid()
      modifies this`deadline, this`expired, this`armedAt
      ensures old(CoveredUpToReset()) ==> Covered()
      ensures Fd() == SetIf(old(Fd()), HasNext(Meaning()))
      ensures if HasNext(Meaning()) then forall when :: IsEarliest(Meaning(), when) ==> ArmedFor(deadline, when, clock)
        else deadline == old(deadline)
    {
      hide SequencesUpTo, IsEarliest;
      HeadIsEarliest(0);
      HeadIsTheEarliest();
      var nextExpire := 0;
      if timers != [] {
        assert IsKey(heap, active, timers[0]) by {
          assert timers[0] in timers;
        }
        nextExpire := heap[timers[0].timer].expiration;
      }
      if nextExpire > 0 {
        ResetTimerfd(nextExpire, clock);
      }
    }

    /** One firing of the timerfd. It must be readable: the source aborts otherwise. */
    method HandleRead(now: Time, clock: Time, scripts: Scripts) returns (fatal: bool, ran: seq<Id>)
      requires Valid() && batch == {} && !calling
      modifies this
      ensures fatal <==> !old(expired)
      ensures fatal ==> ran == [] && Valid() && batch == {} && !calling && Meaning() == old(Meaning())
      ensures !fatal ==> Valid() && batch == {} && !calling
      ensures !fatal ==> IsBatch(old(Meaning()), now, ran)
      ensures !fatal ==> Meaning() == AfterFiring(old(Meaning()), now, ran, scripts)
      ensures !fatal && 0 < now ==> Covered()
      ensures !fatal && HasNext(Meaning()) ==>
        forall when :: IsEarliest(Meaning(), when) ==> ArmedFor(deadline, when, clock)
      ensures !fatal ==> Fd() == FdAfterFiring(old(Meaning()), now, ran, scripts)
      ensures fatal ==> Fd() == old(Fd())
    {
      hide QuietCallbacks, HasNext, IsEarliest, ArmedFor;
      hide Indexed, Sorted, SequencesUpTo, IsBatch, TakeDue, AfterCallbacks, AfterReset, Timers, Distinct;
      if !expired {
        return true, [];
      }
      fatal := false;
      expired, deadline := false, None;
      ghost var v := Meaning();
      var due := GetExpired(now);
      calling, canceling := true, {};
      TakeDueStarts(v, now);
      assert Meaning() == TakeDue(v, now);
      ran := RunCallbacks(due, scripts);
      calling := false;
      Reset(due, now, clock, ran);
    }

    lemma TakeDueStarts(v: View, now: Time)
      ensures var v' := TakeDue(v, now);
        v'.canceling == {} && v'.calling && v'.created == v.created
    {
    }

    /** The kernel: an armed timerfd becomes readable once its time has come. */
    method Expire()
      modifies this`expired
      ensures Fd() == old(Fd()).(readable := old(Fd()).readable || old(Fd()).armed)
    {
      expired := expired || deadline.Some?;
    }
  }

  /** Freed objects are exactly those no index knows: between firings the heap holds the live timers
      and nothing else. */
  lemma NothingLeaks(heap: Heap, timers: seq<Entry>, active: set<Id>)
    requires Indexed(heap, timers, active, {})
    ensures forall a :: a in heap <==> exists e :: e in timers && e.timer == a
    ensures forall a :: a in heap <==> exists id :: id in active && id.timer == a
  {
    hide Sorted;
    forall a | a in heap
      ensures IdOf(heap, a) in active && KeyOf(heap, IdOf(heap, a)) in timers
    {
      assert Holds(heap, IdOf(heap, a));
      assert IsKey(heap, active, KeyOf(heap, IdOf(heap, a)));
    }
    forall e | e in timers
      ensures e.timer in heap
    {
      assert IsKey(heap, active, e);
    }
  }
}
