/** The timing wheel that closes idle connections in irono/example/echo: buckets of reference-counted
    entries, whose destructor shuts the connection down. It is proved to be a map from connections to
    the number of ticks since they were last heard of. */
module IdleSpec {
  type Conn = nat

  /** `ages` of the connections with a living entry; `known` were ever up, `freed` are no more (their
      weak_ptr is empty); `fired` counts the calls of shutdown. */
  datatype Idle = Idle(ages: map<Conn, nat>, known: set<Conn>, freed: set<Conn>, fired: multiset<Conn>)

  const START := Idle(map[], {}, {}, multiset{})

  datatype Event = Up(c: Conn) | Message(c: Conn) | Tick | Freed(c: Conn)

  /** A connection comes up once, and sends only afterwards and while it exists. */
  predicate Enabled(s: Idle, e: Event) {
    match e
    case Up(c) => c !in s.known
    case Message(c) => c in s.known && c !in s.freed
    case Tick => true
    case Freed(c) => c in s.known
  }

  function Dying(s: Idle, n: nat): set<Conn> {
    set c | c in s.ages && s.ages[c] + 1 >= n
  }

  function Apply(s: Idle, n: nat, e: Event): Idle {
    match e
    case Up(c) => s.(ages := s.ages[c := 0], known := s.known + {c})
    case Message(c) => if c in s.ages then s.(ages := s.ages[c := 0]) else s
    case Tick =>
      s.(ages := map c | c in s.ages && c !in Dying(s, n) :: s.ages[c] + 1,
      fired := s.fired + multiset(Dying(s, n) - s.freed))
    case Freed(c) => s.(freed := s.freed + {c})
  }

  predicate IsRun(s: Idle, n: nat, events: seq<Event>)
    decreases |events|
  {
    events == [] || (Enabled(s, events[0]) && IsRun(Apply(s, n, events[0]), n, events[1..]))
  }

  function Run(s: Idle, n: nat, events: seq<Event>): Idle
    requires IsRun(s, n, events)
    decreases |events|
  {
    if events == [] then s else Run(Apply(s, n, events[0]), n, events[1..])
  }

  // ---- when a connection is shut down ----

  function Ticks(events: seq<Event>): nat {
    if events == [] then 0 else (if events[0] == Tick then 1 else 0) + Ticks(events[1..])
  }

  predicate Quiet(events: seq<Event>, c: Conn) {
    Message(c) !in events
  }

  /** Some stretch of `n` ticks passed without a word from `c`. */
  ghost predicate FellSilent(events: seq<Event>, n: nat, c: Conn) {
    exists i, j :: 0 <= i <= j <= |events| && SilentStretch(events, n, c, i, j)
  }

  predicate SilentStretch(events: seq<Event>, n: nat, c: Conn, i: nat, j: nat)
    requires i <= j <= |events|
  {
    Quiet(events[i..j], c) && Ticks(events[i..j]) >= n
  }

  /** ... counting from the start, for one that has already been silent for `age` ticks. */
  ghost predicate StaysSilent(events: seq<Event>, n: nat, c: Conn, age: nat) {
    exists j :: 0 <= j <= |events| && SilentPrefix(events, n, c, age, j)
  }

  predicate SilentPrefix(events: seq<Event>, n: nat, c: Conn, age: nat, j: nat)
    requires j <= |events|
  {
    Quiet(events[..j], c) && age + Ticks(events[..j]) >= n
  }

  lemma SliceShift(events: seq<Event>, i: nat, j: nat)
    requires 1 <= i <= j <= |events|
    ensures events[1..][i - 1..j - 1] == events[i..j]
  {
    var a, b := events[1..][i - 1..j - 1], events[i..j];
    assert |a| == |b|;
    forall k | 0 <= k < |a|
      ensures a[k] == b[k]
    {
    }
  }

  /** A stretch of silence starts now or later. */
  lemma StretchShift(events: seq<Event>, n: nat, c: Conn)
    requires events != []
    ensures FellSilent(events, n, c) <==> FellSilent(events[1..], n, c) || StaysSilent(events, n, c, 0)
  {
    var rest := events[1..];
    forall j | 0 <= j <= |events|
      ensures SilentStretch(events, n, c, 0, j) <==> SilentPrefix(events, n, c, 0, j)
    {
      assert events[0..j] == events[..j];
    }
    if FellSilent(rest, n, c) {
      var i, j :| 0 <= i <= j <= |rest| && SilentStretch(rest, n, c, i, j);
      SliceShift(events, i + 1, j + 1);
      assert SilentStretch(events, n, c, i + 1, j + 1);
    }
    if StaysSilent(events, n, c, 0) {
      var j :| 0 <= j <= |events| && SilentPrefix(events, n, c, 0, j);
      assert SilentStretch(events, n, c, 0, j);
    }
    if FellSilent(events, n, c) {
      var i, j :| 0 <= i <= j <= |events| && SilentStretch(events, n, c, i, j);
      if i > 0 {
        SliceShift(events, i, j);
        assert SilentStretch(rest, n, c, i - 1, j - 1);
      }
    }
  }

  /** A silent prefix goes on through the first event, unless that is a message. */
  lemma PrefixShift(events: seq<Event>, n: nat, c: Conn, age: nat)
    requires events != [] && age < n
    ensures StaysSilent(events, n, c, age) <==>
      events[0] != Message(c) && StaysSilent(events[1..], n, c, if events[0] == Tick then age + 1 else age)
  {
    var rest, age' := events[1..], if events[0] == Tick then age + 1 else age;
    forall j | 1 <= j <= |events|
      ensures SilentPrefix(events, n, c, age, j) <==> events[0] != Message(c) && SilentPrefix(rest, n, c, age', j - 1)
    {
      assert events[..j][1..] == rest[..j - 1];
      assert events[..j] == [events[0]] + rest[..j - 1];
    }
    if StaysSilent(events, n, c, age) {
      var j :| 0 <= j <= |events| && SilentPrefix(events, n, c, age, j);
      assert j > 0 by {
        assert events[..0] == [];
      }
      assert SilentPrefix(rest, n, c, age', j - 1);
    }
    if events[0] != Message(c) && StaysSilent(rest, n, c, age') {
      var j :| 0 <= j <= |rest| && SilentPrefix(rest, n, c, age', j);
      assert SilentPrefix(events, n, c, age, j + 1);
    }
  }

  /** A silence that is shorter so far takes no less. */
  lemma SilenceAges(events: seq<Event>, n: nat, c: Conn, age: nat)
    ensures StaysSilent(events, n, c, 0) ==> StaysSilent(events, n, c, age)
  {
    if StaysSilent(events, n, c, 0) {
      var j :| 0 <= j <= |events| && SilentPrefix(events, n, c, 0, j);
      assert SilentPrefix(events, n, c, age, j);
    }
  }

  ghost predicate Sound(s: Idle, n: nat) {
    && (forall c :: c in s.ages ==> c in s.known && s.ages[c] < n && s.fired[c] == 0)
    && (forall c :: s.fired[c] <= 1 && (s.fired[c] == 1 ==> c in s.known))
    && s.freed <= s.known
  }

  lemma ApplyKeepsSound(s: Idle, n: nat, e: Event)
    requires 1 <= n && Sound(s, n) && Enabled(s, e)
    ensures Sound(Apply(s, n, e), n)
  {
  }

  /** Once an entry is gone nothing brings it back, and its shutdown does not fire again. */
  lemma {:induction false} DeadStaysDead(s: Idle, n: nat, events: seq<Event>, c: Conn)
    requires 1 <= n && Sound(s, n) && IsRun(s, n, events) && c in s.known && c !in s.ages
    ensures c !in Run(s, n, events).ages && Run(s, n, events).fired[c] == s.fired[c]
    decreases |events|
  {
    if events == [] {
    } else {
      ApplyKeepsSound(s, n, events[0]);
      DeadStaysDead(Apply(s, n, events[0]), n, events[1..], c);
    }
  }

  /** `n` ticks without a word from `c`, which has been silent for `age` of them at the start. */
  ghost predicate Silent(events: seq<Event>, n: nat, c: Conn, age: nat) {
    StaysSilent(events, n, c, age) || FellSilent(events, n, c)
  }

  function AgeNext(e: Event, c: Conn, age: nat): nat {
    if e == Message(c) then 0 else if e == Tick then age + 1 else age
  }

  /** The age of a living entry is all there is to know about the past. */
  lemma SilentNext(events: seq<Event>, n: nat, c: Conn, age: nat)
    requires events != [] && age < n
    ensures Silent(events, n, c, age) <==> Silent(events[1..], n, c, AgeNext(events[0], c, age))
  {
    hide StaysSilent, FellSilent;
    StretchShift(events, n, c);
    PrefixShift(events, n, c, age);
    PrefixShift(events, n, c, 0);
    StartsSilent(events[1..], n, c);
    SilenceAges(events, n, c, age);
  }

  lemma AgesOn(s: Idle, n: nat, e: Event, c: Conn)
    requires 1 <= n && Sound(s, n) && Enabled(s, e) && c in s.ages
    ensures var s', age := Apply(s, n, e), AgeNext(e, c, s.ages[c]);
      && c in s'.known && s.freed <= s'.freed
      && if age < n then c in s'.ages && s'.ages[c] == age
         else
           && c !in s'.ages && age == s.ages[c] + 1 && s'.freed == s.freed
           && s'.fired[c] == if c in s.freed then 0 else 1
  {
  }

  lemma {:induction false} Survives(s: Idle, n: nat, events: seq<Event>, c: Conn)
    requires 1 <= n && Sound(s, n) && IsRun(s, n, events) && c in s.ages
    ensures var s', silent := Run(s, n, events), Silent(events, n, c, s.ages[c]);
      && (c in s'.ages <==> !silent)
      && (c !in s'.freed ==> s'.fired[c] == if silent then 1 else 0)
    decreases |events|
  {
    hide Silent, Apply, Enabled;
    var age := s.ages[c];
    if events == [] {
      NoEventsNoSilence(n, c, age);
    } else {
      var e, rest, s1 := events[0], events[1..], Apply(s, n, events[0]);
      ApplyKeepsSound(s, n, e);
      AgesOn(s, n, e, c);
      SilentNext(events, n, c, age);
      if c in s1.ages {
        Survives(s1, n, rest, c);
      } else {
        DeadStaysDead(s1, n, rest, c);
        SilentAlready(rest, n, c, age + 1);
        if c in s.freed {
          FreedIsLeftAlone(s1, n, rest, c);
        }
      }
    }
  }

  /** What comes before the connection is freed. */
  function BeforeFreed(events: seq<Event>, c: Conn): seq<Event> {
    if events == [] || events[0] == Freed(c) then [] else [events[0]] + BeforeFreed(events[1..], c)
  }

  lemma {:induction false} BeforeFreedSplits(events: seq<Event>, c: Conn)
    ensures var before := BeforeFreed(events, c);
      && before <= events && Freed(c) !in before
      && (before == events || events[|before|] == Freed(c))
  {
    if events == [] || events[0] == Freed(c) {
    } else {
      BeforeFreedSplits(events[1..], c);
    }
  }

  lemma {:induction false} RunSplits(s: Idle, n: nat, events: seq<Event>, k: nat)
    requires IsRun(s, n, events) && k <= |events|
    ensures IsRun(s, n, events[..k]) && IsRun(Run(s, n, events[..k]), n, events[k..])
    ensures Run(s, n, events) == Run(Run(s, n, events[..k]), n, events[k..])
    decreases |events|
  {
    hide Enabled, Apply;
    if k > 0 {
      RunSplits(Apply(s, n, events[0]), n, events[1..], k - 1);
      assert events[..k][1..] == events[1..][..k - 1] && events[1..][k - 1..] == events[k..];
    } else {
      assert events[..0] == [] && events[0..] == events;
    }
  }

  lemma {:induction false} NotFreed(s: Idle, n: nat, events: seq<Event>, c: Conn)
    requires IsRun(s, n, events) && c !in s.freed && Freed(c) !in events
    ensures c !in Run(s, n, events).freed
    decreases |events|
  {
    if events == [] {
    } else {
      assert events[0] in events;
      NotFreed(Apply(s, n, events[0]), n, events[1..], c);
    }
  }

  /** The wheel as a sliding window: over every run, a living entry survives exactly when there was no
      stretch of n ticks without a message, counting the ticks it had been silent before; and its shutdown fires,
      once, exactly when there was such a stretch before the connection was freed. */
  lemma SlidingWindow(s: Idle, n: nat, events: seq<Event>, c: Conn)
    requires 1 <= n && Sound(s, n) && IsRun(s, n, events) && c in s.ages
    ensures c in Run(s, n, events).ages <==> !Silent(events, n, c, s.ages[c])
    ensures Run(s, n, events).fired[c] ==
      if c !in s.freed && Silent(BeforeFreed(events, c), n, c, s.ages[c]) then 1 else 0
  {
    hide Silent, Apply, Enabled;
    Survives(s, n, events, c);
    if c in s.freed {
      FreedIsLeftAlone(s, n, events, c);
    } else {
      var before := BeforeFreed(events, c);
      BeforeFreedSplits(events, c);
      RunSplits(s, n, events, |before|);
      assert events[..|before|] == before;
      Survives(s, n, before, c);
      NotFreed(s, n, before, c);
      FreedFiresNoMore(Run(s, n, before), n, events[|before|..], c);
    }
  }

  lemma {:induction false} RunsKeepSound(s: Idle, n: nat, events: seq<Event>)
    requires 1 <= n && Sound(s, n) && IsRun(s, n, events)
    ensures Sound(Run(s, n, events), n)
    decreases |events|
  {
    hide Sound, Apply, Enabled;
    if events == [] {
    } else {
      ApplyKeepsSound(s, n, events[0]);
      RunsKeepSound(Apply(s, n, events[0]), n, events[1..]);
    }
  }

  /** The same from the start, by the events alone: a connection's entry lives until `n` ticks in a row pass after it
      came up without a message, and its shutdown fires, once, exactly when that happens before it is freed. */
  lemma WindowFromUp(n: nat, before: seq<Event>, c: Conn, after: seq<Event>)
    requires 1 <= n && IsRun(START, n, before + ([Up(c)] + after))
    ensures var s := Run(START, n, before + ([Up(c)] + after));
      && (c in s.ages <==> !FellSilent(after, n, c))
      && s.fired[c] == if FellSilent(BeforeFreed(after, c), n, c) then 1 else 0
  {
    var all := before + ([Up(c)] + after);
    RunSplits(START, n, all, |before|);
    assert all[..|before|] == before && all[|before|..] == [Up(c)] + after;
    var s := Run(START, n, before);
    RunsKeepSound(START, n, before);
    ApplyKeepsSound(s, n, Up(c));
    assert ([Up(c)] + after)[1..] == after;
    hide StaysSilent, FellSilent, Run;
    SlidingWindow(Apply(s, n, Up(c)), n, after, c);
    StartsSilent(after, n, c);
    StartsSilent(BeforeFreed(after, c), n, c);
  }

  lemma FreedFiresNoMore(s: Idle, n: nat, events: seq<Event>, c: Conn)
    requires IsRun(s, n, events) && (events == [] || events[0] == Freed(c))
    ensures Run(s, n, events).fired[c] == s.fired[c]
  {
    if events != [] {
      FreedIsLeftAlone(Apply(s, n, events[0]), n, events[1..], c);
    }
  }

  lemma NoEventsNoSilence(n: nat, c: Conn, age: nat)
    requires age < n
    ensures !Silent([], n, c, age)
  {
  }

  lemma StartsSilent(events: seq<Event>, n: nat, c: Conn)
    ensures StaysSilent(events, n, c, 0) ==> FellSilent(events, n, c)
  {
    if StaysSilent(events, n, c, 0) {
      var j :| 0 <= j <= |events| && SilentPrefix(events, n, c, 0, j);
      assert events[0..j] == events[..j];
      assert SilentStretch(events, n, c, 0, j);
    }
  }

  lemma SilentAlready(events: seq<Event>, n: nat, c: Conn, age: nat)
    requires age >= n
    ensures Silent(events, n, c, age)
  {
    assert events[..0] == [];
    assert SilentPrefix(events, n, c, age, 0);
  }

  /** A freed connection is never shut down by its entry: the weak pointer no longer finds it. */
  lemma {:induction false} FreedIsLeftAlone(s: Idle, n: nat, events: seq<Event>, c: Conn)
    requires IsRun(s, n, events) && c in s.freed
    ensures c in Run(s, n, events).freed && Run(s, n, events).fired[c] == s.fired[c]
    decreases |events|
  {
    if events == [] {
    } else {
      FreedIsLeftAlone(Apply(s, n, events[0]), n, events[1..], c);
    }
  }
}

/** The wheel itself. A bucket holds shared_ptrs to entries, named here by their connection; an entry
    lives as long as some bucket holds it. */
module TimingWheels {
  import opened IdleSpec

  type Bucket = set<Conn>

  /** use_count of an entry: nothing but buckets owns one for long. */
  function UseCount(buckets: seq<Bucket>, c: Conn): nat {
    if buckets == [] then 0 else (if c in buckets[0] then 1 else 0) + UseCount(buckets[1..], c)
  }

  /** The youngest bucket that holds the entry. */
  function AgeIn(buckets: seq<Bucket>, c: Conn): (age: nat)
    ensures age <= |buckets| && (age < |buckets| <==> UseCount(buckets, c) > 0)
  {
    if buckets == [] then 0 else if c in buckets[0] then 0 else 1 + AgeIn(buckets[1..], c)
  }

  function Entries(buckets: seq<Bucket>): (all: set<Conn>)
    ensures forall c :: c in all <==> UseCount(buckets, c) > 0
  {
    if buckets == [] then {} else buckets[0] + Entries(buckets[1..])
  }

  function Ages(buckets: seq<Bucket>): map<Conn, nat> {
    map c | c in Entries(buckets) :: AgeIn(buckets, c)
  }

  /** Those whose use_count has dropped to zero. */
  function Unowned(dropped: Bucket, buckets: seq<Bucket>): set<Conn> {
    set c | c in dropped && UseCount(buckets, c) == 0
  }

  lemma {:induction false} AgeWithoutLast(buckets: seq<Bucket>, c: Conn)
    requires buckets != []
    ensures var rest := buckets[..|buckets| - 1];
      AgeIn(rest, c) == if AgeIn(buckets, c) < |rest| then AgeIn(buckets, c) else |rest|
  {
    if |buckets| > 1 {
      AgeWithoutLast(buckets[1..], c);
      assert buckets[1..][..|buckets| - 2] == buckets[..|buckets| - 1][1..];
    }
  }

  /** Ticking makes every entry one older and drops those that were only in the last bucket. */
  lemma TickedAges(buckets: seq<Bucket>, c: Conn)
    requires buckets != []
    ensures var ticked := [{}] + buckets[..|buckets| - 1];
      && (c in Ages(ticked) <==> c in Ages(buckets) && Ages(buckets)[c] + 1 < |buckets|)
      && (c in Ages(ticked) ==> Ages(ticked)[c] == Ages(buckets)[c] + 1)
  {
    var rest := buckets[..|buckets| - 1];
    var ticked := [{}] + rest;
    AgeWithoutLast(buckets, c);
    assert ticked[1..] == rest;
    assert AgeIn(ticked, c) == 1 + AgeIn(rest, c);
  }

  lemma LastBucketIsHeld(buckets: seq<Bucket>, c: Conn)
    requires buckets != [] && AgeIn(buckets, c) == |buckets| - 1
    ensures c in buckets[|buckets| - 1]
  {
    if |buckets| > 1 {
      LastBucketIsHeld(buckets[1..], c);
    }
  }

  class EchoServer {
    var connectionBuckets: seq<Bucket>
    var known: set<Conn>
    var freed: set<Conn>
    var fired: multiset<Conn>

    ghost function Meaning(): Idle
      reads this
    {
      Idle(Ages(connectionBuckets), known, freed, fired)
    }

    constructor (idleSeconds: nat)
      requires 1 <= idleSeconds
      ensures |connectionBuckets| == idleSeconds && Meaning() == IdleSpec.START
    {
      connectionBuckets := [];
      known, freed, fired := {}, {}, multiset{};
      new;
      var n := idleSeconds;
      while n > 0
        invariant |connectionBuckets| == idleSeconds - n
        invariant Ages(connectionBuckets) == map[]
        invariant known == {} && freed == {} && fired == multiset{}
      {
        EmptyBucketAdded(connectionBuckets);
        connectionBuckets := connectionBuckets + [{}];
        n := n - 1;
      }
    }

    lemma EmptyBucketAdded(buckets: seq<Bucket>)
      requires Ages(buckets) == map[]
      ensures Ages(buckets + [{}]) == map[]
    {
      forall c
        ensures c !in Ages(buckets + [{}])
      {
        assert c !in Ages(buckets);
        AgeWithoutLast(buckets + [{}], c);
        assert (buckets + [{}])[..|buckets|] == buckets;
        if AgeIn(buckets + [{}], c) == |buckets| {
          LastBucketIsHeld(buckets + [{}], c);
        }
      }
    }

    method OnConnectionUp(c: Conn)
      requires connectionBuckets != [] && c !in known
      modifies this
      ensures |connectionBuckets| == |old(connectionBuckets)|
      ensures Meaning() == Apply(old(Meaning()), |connectionBuckets|, Up(c))
    {
      InsertedAges(connectionBuckets, c);
      connectionBuckets := connectionBuckets[0 := connectionBuckets[0] + {c}];
      known := known + {c};
    }

    /** A message puts the entry in the youngest bucket, if its weak_ptr still finds it. */
    method OnMessage(c: Conn)
      requires connectionBuckets != []
      modifies this`connectionBuckets
      ensures |connectionBuckets| == |old(connectionBuckets)|
      ensures Meaning() == Apply(old(Meaning()), |connectionBuckets|, Message(c))
    {
      if UseCount(connectionBuckets, c) > 0 {
        InsertedAges(connectionBuckets, c);
        connectionBuckets := connectionBuckets[0 := connectionBuckets[0] + {c}];
      }
    }

    lemma InsertedAges(buckets: seq<Bucket>, c: Conn)
      requires buckets != []
      ensures Ages(buckets[0 := buckets[0] + {c}]) == Ages(buckets)[c := 0]
    {
      var buckets' := buckets[0 := buckets[0] + {c}];
      assert buckets'[1..] == buckets[1..];
      forall d
        ensures d in Ages(buckets') <==> d == c || d in Ages(buckets)
        ensures d in Ages(buckets') ==> Ages(buckets')[d] == if d == c then 0 else Ages(buckets)[d]
      {
      }
    }

    /** The last bucket is destroyed. An entry whose use_count drops to zero runs its destructor, which
        shuts the connection down if it still exists. */
    method OnTimer()
      requires connectionBuckets != []
      modifies this`connectionBuckets, this`fired
      ensures |connectionBuckets| == |old(connectionBuckets)|
      ensures Meaning() == Apply(old(Meaning()), |connectionBuckets|, Tick)
    {
      hide Ages, UseCount;
      var last := |connectionBuckets| - 1;
      var dropped, ticked := connectionBuckets[last], [{}] + connectionBuckets[..last];
      var destroyed := Unowned(dropped, ticked);
      DestroyedAreDying(connectionBuckets);
      TickedMeaning(connectionBuckets);
      connectionBuckets := ticked;
      fired := fired + multiset(destroyed - freed);
    }

    lemma DestroyedAreDying(buckets: seq<Bucket>)
      requires buckets != []
      ensures Unowned(buckets[|buckets| - 1], [{}] + buckets[..|buckets| - 1])
           == Dying(Meaning().(ages := Ages(buckets)), |buckets|)
    {
      var n, destroyed := |buckets|, Unowned(buckets[|buckets| - 1], [{}] + buckets[..|buckets| - 1]);
      forall c
        ensures c in destroyed <==> c in Ages(buckets) && Ages(buckets)[c] + 1 >= n
      {
        TickedAges(buckets, c);
        var ticked := [{}] + buckets[..n - 1];
        assert c in Ages(ticked) <==> UseCount(ticked, c) > 0;
        assert c in Ages(buckets) <==> UseCount(buckets, c) > 0;
        if c in Ages(buckets) && Ages(buckets)[c] + 1 >= n {
          LastBucketIsHeld(buckets, c);
        }
        if c in buckets[n - 1] {
          HeldIsCounted(buckets, n - 1, c);
        }
      }
    }

    lemma TickedMeaning(buckets: seq<Bucket>)
      requires buckets != []
      ensures Ages([{}] + buckets[..|buckets| - 1])
           == map c | c in Ages(buckets) && Ages(buckets)[c] + 1 < |buckets| :: Ages(buckets)[c] + 1
    {
      var before, after := Ages(buckets), Ages([{}] + buckets[..|buckets| - 1]);
      forall c
        ensures c in after <==> c in before && before[c] + 1 < |buckets|
        ensures c in after ==> after[c] == before[c] + 1
      {
        TickedAges(buckets, c);
      }
    }

    method OnFreed(c: Conn)
      requires connectionBuckets != []
      modifies this`freed
      ensures Meaning() == Apply(old(Meaning()), |connectionBuckets|, Freed(c))
    {
      freed := freed + {c};
    }
  }

  lemma {:induction false} HeldIsCounted(buckets: seq<Bucket>, i: nat, c: Conn)
    requires i < |buckets| && c in buckets[i]
    ensures UseCount(buckets, c) > 0
  {
    if i > 0 {
      HeldIsCounted(buckets[1..], i - 1, c);
    }
  }

  /** Any run of the server is the run of the last-activity map. */
  method RunServer(server: EchoServer, events: seq<Event>)
    requires server.connectionBuckets != []
    requires IsRun(server.Meaning(), |server.connectionBuckets|, events)
    modifies server
    ensures |server.connectionBuckets| == |old(server.connectionBuckets)|
    ensures server.Meaning() == Run(old(server.Meaning()), |server.connectionBuckets|, events)
  {
    hide Apply, Ages;
    ghost var n := |server.connectionBuckets|;
    assert events[0..] == events;
    for i := 0 to |events|
      invariant |server.connectionBuckets| == n
      invariant IsRun(server.Meaning(), n, events[i..])
      invariant Run(server.Meaning(), n, events[i..]) == Run(old(server.Meaning()), n, events)
    {
      assert events[i..][0] == events[i] && events[i..][1..] == events[i + 1..];
      match events[i]
      case Up(c) => server.OnConnectionUp(c);
      case Message(c) => server.OnMessage(c);
      case Tick => server.OnTimer();
      case Freed(c) => server.OnFreed(c);
    }
  }
}
