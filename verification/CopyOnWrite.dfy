/** The copy-on-write connection list of irono/example/chat/server_threaded_efficient.cc: writers change
    the list under a lock, after copying it if anyone else holds it; readers take a shared_ptr under the
    lock and drop it without. Lists live on a heap and are freed with their last owner. */
module CopyOnWrite {
  import opened Options
  import opened Histories

  type Conn = nat
  type Address = nat
  type ThreadId = nat

  datatype Update = Join(c: Conn) | Leave(c: Conn)

  /** Where the thread inside onConnection stands; the lock is free when it is Out. */
  datatype Writer = Out | Locked(u: Update) | Copied(u: Update)

  /** `snapshots` are the shared_ptrs that threads hold. `members` is the history of all updates, folded,
      and `seen` what each held list was when it was taken. */
  datatype Chat = Chat(
    heap: map<Address, set<Conn>>, current: Address, snapshots: map<ThreadId, Address>, writer: Writer,
    members: set<Conn>, seen: map<ThreadId, set<Conn>>, failed: bool)

  function Start(list: Address): Chat {
    Chat(map[list := {}], list, map[], Out, {}, map[], false)
  }

  datatype Step =
    | Lock(u: Update)               // onConnection takes the lock
    | CopyIfShared(copy: Address)   // ... and replaces the list unless it is unique
    | Mutate                        // ... asserts unique, updates the list, releases the lock
    | Acquire(t: ThreadId)          // getConnectionList
    | Release(t: ThreadId)          // the snapshot's destructor, outside the lock

  predicate Shared(s: Chat, list: Address) {
    exists t :: t in s.snapshots && s.snapshots[t] == list
  }

  predicate Unique(s: Chat) {
    !Shared(s, s.current)
  }

  predicate Enabled(s: Chat, t: Step) {
    match t
    case Lock(_) => s.writer == Out
    case CopyIfShared(copy) => s.writer.Locked? && copy !in s.heap
    case Mutate => s.writer.Copied?
    case Acquire(t) => s.writer == Out && t !in s.snapshots
    case Release(t) => t in s.snapshots
  }

  function Updated(list: set<Conn>, u: Update): set<Conn> {
    if u.Join? then list + {u.c} else list - {u.c}
  }

  /** Reading through a dangling pointer is a failure. */
  function Deref(s: Chat, list: Address): set<Conn> {
    if list in s.heap then s.heap[list] else {}
  }

  function Apply(s: Chat, t: Step): Chat
    requires Enabled(s, t)
  {
    match t
    case Lock(u) => s.(writer := Locked(u))
    case CopyIfShared(copy) =>
      var s' := s.(writer := Copied(s.writer.u), failed := s.failed || s.current !in s.heap);
      if Unique(s) then s' else s'.(heap := s.heap[copy := Deref(s, s.current)], current := copy)
    case Mutate =>
      s.(heap := s.heap[s.current := Updated(Deref(s, s.current), s.writer.u)],
      members := Updated(s.members, s.writer.u), writer := Out,
      failed := s.failed || !Unique(s) || s.current !in s.heap)
    case Acquire(t) =>
      s.(snapshots := s.snapshots[t := s.current], seen := s.seen[t := Deref(s, s.current)],
      failed := s.failed || s.current !in s.heap)
    case Release(t) =>
      var list := s.snapshots[t];
      var s' := s.(snapshots := s.snapshots - {t}, seen := s.seen - {t});
      if list == s.current || Shared(s', list) then s' else s'.(heap := s.heap - {list})
  }

  predicate IsRun(s: Chat, steps: seq<Step>)
    decreases |steps|
  {
    steps == [] || (Enabled(s, steps[0]) && IsRun(Apply(s, steps[0]), steps[1..]))
  }

  function Run(s: Chat, steps: seq<Step>): Chat
    requires IsRun(s, steps)
    decreases |steps|
  {
    if steps == [] then s else Run(Apply(s, steps[0]), steps[1..])
  }

  /** Nothing dangles, nothing leaks, no snapshot differs from what was taken, the current list is the
      fold of the updates, and a writer past its copy owns the list alone. */
  ghost predicate Inv(s: Chat) {
    && !s.failed
    && (forall a :: a in s.heap <==> a == s.current || Shared(s, a))
    && s.heap[s.current] == s.members
    && s.seen.Keys == s.snapshots.Keys
    && (forall t :: t in s.snapshots ==> s.snapshots[t] in s.heap && s.heap[s.snapshots[t]] == s.seen[t])
    && (s.writer.Copied? ==> Unique(s))
  }

  lemma SharedAfterRelease(s: Chat, x: ThreadId, a: Address)
    requires Enabled(s, Release(x))
    ensures Shared(Apply(s, Release(x)), a) ==> Shared(s, a)
    ensures Shared(s, a) && a != s.snapshots[x] ==> Shared(Apply(s, Release(x)), a)
  {
    var s' := Apply(s, Release(x));
    if r :| r in s'.snapshots && s'.snapshots[r] == a {
      assert r in s.snapshots && s.snapshots[r] == a;
    }
    if r :| r in s.snapshots && s.snapshots[r] == a && a != s.snapshots[x] {
      assert r in s'.snapshots && s'.snapshots[r] == a;
    }
  }

  lemma ReleaseKeepsInv(s: Chat, x: ThreadId)
    requires Inv(s) && Enabled(s, Release(x))
    ensures Inv(Apply(s, Release(x)))
  {
    var s' := Apply(s, Release(x));
    forall a
      ensures Shared(s', a) ==> Shared(s, a)
      ensures Shared(s, a) && a != s.snapshots[x] ==> Shared(s', a)
    {
      SharedAfterRelease(s, x, a);
    }
    assert forall r :: r in s'.snapshots ==> Shared(s', s'.snapshots[r]);
  }

  lemma AcquireKeepsInv(s: Chat, x: ThreadId)
    requires Inv(s) && Enabled(s, Acquire(x))
    ensures Inv(Apply(s, Acquire(x)))
  {
    var s' := Apply(s, Acquire(x));
    assert s'.snapshots[x] == s.current;
    forall a
      ensures Shared(s', a) <==> Shared(s, a) || a == s.current
    {
      if r :| r in s.snapshots && s.snapshots[r] == a {
        assert r in s'.snapshots && s'.snapshots[r] == a;
      }
    }
  }

  lemma WriterKeepsInv(s: Chat, t: Step)
    requires Inv(s) && Enabled(s, t) && (t.Lock? || t.CopyIfShared? || t.Mutate?)
    ensures Inv(Apply(s, t))
  {
    var s' := Apply(s, t);
    assert forall a :: Shared(s', a) <==> Shared(s, a);
    assert forall r :: r in s.snapshots ==> Shared(s, s.snapshots[r]);
  }

  lemma StepKeepsInv(s: Chat, t: Step)
    requires Inv(s) && Enabled(s, t)
    ensures Inv(Apply(s, t))
  {
    hide Inv, Apply;
    match t
    case Release(x) => ReleaseKeepsInv(s, x);
    case Acquire(x) => AcquireKeepsInv(s, x);
    case _ => WriterKeepsInv(s, t);
  }

  lemma {:induction false} RunsKeepInv(s: Chat, steps: seq<Step>)
    requires Inv(s) && IsRun(s, steps)
    ensures Inv(Run(s, steps))
    decreases |steps|
  {
    hide Inv, Apply, Enabled;
    if steps == [] {
    } else {
      StepKeepsInv(s, steps[0]);
      RunsKeepInv(Apply(s, steps[0]), steps[1..]);
    }
  }

  /** A snapshot held across a run is what it was, whatever joined or left meanwhile. */
  lemma {:induction false} SnapshotsAreFrozen(s: Chat, steps: seq<Step>, t: ThreadId)
    requires Inv(s) && IsRun(s, steps) && t in s.snapshots && Release(t) !in steps
    ensures var s' := Run(s, steps);
      t in s'.snapshots && s'.snapshots[t] in s'.heap && s'.heap[s'.snapshots[t]] == s.heap[s.snapshots[t]]
    decreases |steps|
  {
    if steps == [] {
    } else {
      var s1 := Apply(s, steps[0]);
      StepKeepsInv(s, steps[0]);
      assert steps[0] in steps;
      assert t in s1.snapshots && s1.seen[t] == s.seen[t];
      SnapshotsAreFrozen(s1, steps[1..], t);
    }
  }

  function Pending(w: Writer): Option<Update> {
    if w == Out then None else Some(w.u)
  }

  /** The updates that complete in a run, read off its steps. */
  function Completed(pending: Option<Update>, steps: seq<Step>): seq<Update>
    decreases |steps|
  {
    if steps == [] then []
    else match steps[0]
      case Lock(u) => Completed(Some(u), steps[1..])
      case Mutate => (if pending.Some? then [pending.value] else []) + Completed(None, steps[1..])
      case _ => Completed(pending, steps[1..])
  }

  function Fold(members: set<Conn>, updates: seq<Update>): set<Conn>
    decreases |updates|
  {
    if updates == [] then members else Fold(Updated(members, updates[0]), updates[1..])
  }

  lemma {:induction false} MembersOfRun(s: Chat, steps: seq<Step>)
    requires IsRun(s, steps)
    ensures Run(s, steps).members == Fold(s.members, Completed(Pending(s.writer), steps))
    decreases |steps|
  {
    if steps == [] {
    } else {
      var s1 := Apply(s, steps[0]);
      MembersOfRun(s1, steps[1..]);
      if steps[0] == Mutate {
        assert Completed(Pending(s.writer), steps)[1..] == Completed(Pending(s1.writer), steps[1..]);
      }
    }
  }

  /** Who is in the list, by the updates alone: those whose last update is a join. */
  lemma {:induction false} LastUpdateDecides(members: set<Conn>, updates: seq<Update>, c: Conn)
    ensures c in Fold(members, updates) <==> SwitchedOn(c in members, updates, Join(c), Leave(c))
    decreases |updates|
  {
    hide SwitchedOn;
    if updates == [] {
      SwitchedByNone(c in members, Join(c), Leave(c));
    } else {
      LastUpdateDecides(Updated(members, updates[0]), updates[1..], c);
      SwitchedByFirst(c in members, updates, Join(c), Leave(c));
    }
  }

  lemma {:induction false} RunSplits(s: Chat, a: seq<Step>, b: seq<Step>)
    requires IsRun(s, a + b)
    ensures IsRun(s, a) && IsRun(Run(s, a), b) && Run(s, a + b) == Run(Run(s, a), b)
    decreases |a|
  {
    hide Enabled, Apply;
    if a == [] {
      assert a + b == b;
    } else {
      assert (a + b)[1..] == a[1..] + b;
      RunSplits(Apply(s, a[0]), a[1..], b);
    }
  }

  /** What a reader sees: the members at the time it took its list, however long it keeps it. */
  lemma SnapshotIsThen(list: Address, before: seq<Step>, t: ThreadId, after: seq<Step>)
    requires IsRun(Start(list), before + ([Acquire(t)] + after)) && Release(t) !in after
    ensures var s := Run(Start(list), before + ([Acquire(t)] + after));
      && t in s.snapshots && s.snapshots[t] in s.heap
      && s.heap[s.snapshots[t]] == Fold({}, Completed(None, before))
  {
    var s0 := Start(list);
    RunSplits(s0, before, [Acquire(t)] + after);
    var s1 := Run(s0, before);
    EveryRun(list, before);
    RunsKeepInv(s0, before);
    assert ([Acquire(t)] + after)[1..] == after;
    StepKeepsInv(s1, Acquire(t));
    hide Inv, Start, Completed, Fold;
    SnapshotsAreFrozen(Apply(s1, Acquire(t)), after, t);
  }

  /** Under any interleaving: no assert fails, no list is used after it was freed or leaks, the current
      list holds exactly those whose last completed update is a join, and every snapshot is the list at the time it
      was taken. */
  lemma EveryRun(list: Address, steps: seq<Step>)
    requires IsRun(Start(list), steps)
    ensures var s := Run(Start(list), steps);
      && !s.failed
      && s.current in s.heap && s.heap[s.current] == Fold({}, Completed(None, steps))
      && (forall c :: c in s.heap[s.current] <==> SwitchedOn(false, Completed(None, steps), Join(c), Leave(c)))
      && (forall t :: t in s.snapshots ==>
            s.snapshots[t] in s.heap && t in s.seen && s.heap[s.snapshots[t]] == s.seen[t])
      && (forall a :: a in s.heap ==> a == s.current || Shared(s, a))
  {
    RunsKeepInv(Start(list), steps);
    MembersOfRun(Start(list), steps);
    forall c
      ensures c in Fold({}, Completed(None, steps)) <==>
        SwitchedOn(false, Completed(None, steps), Join(c), Leave(c))
    {
      LastUpdateDecides({}, Completed(None, steps), c);
    }
  }
}
