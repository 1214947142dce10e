/** Channels registered with poll(2) (irono/net/Poller.cc): a dense array of pollfds and a map of
    channels that point at each other through `index`. A slot holds fd, or -fd-1 to be ignored. */
module Pollers {
  import opened Channels

  datatype PollFd = PollFd(fd: int, events: Mask, revents: int)

  /** The descriptor a slot is for, whether or not it is ignored. */
  function Owner(slot: PollFd): int {
    if slot.fd < 0 then -slot.fd - 1 else slot.fd
  }

  function Ignored(fd: int): int {
    -fd - 1
  }

  function Positive(slots: seq<PollFd>): nat {
    if slots == [] then 0 else (if slots[0].revents > 0 then 1 else 0) + Positive(slots[1..])
  }

  /** The slots that poll reported, in order. */
  function Reported(slots: seq<PollFd>): seq<PollFd> {
    if slots == [] then [] else (if slots[0].revents > 0 then [slots[0]] else []) + Reported(slots[1..])
  }

  lemma FirstReport(slots: seq<PollFd>)
    requires slots != []
    ensures slots[0].revents > 0 ==>
      Positive(slots) == 1 + Positive(slots[1..]) && Reported(slots) == [slots[0]] + Reported(slots[1..])
    ensures slots[0].revents <= 0 ==>
      Positive(slots) == Positive(slots[1..]) && Reported(slots) == Reported(slots[1..])
  {
  }

  lemma {:induction false} NothingReported(slots: seq<PollFd>)
    requires Positive(slots) == 0
    ensures Reported(slots) == []
  {
    if slots == [] {
    } else {
      NothingReported(slots[1..]);
    }
  }

  /** What poll(2) answers: an errno, or the events of every descriptor that has any. */
  datatype Answer = PollFails | PollReady(ready: map<int, nat>)

  /** It looks at no slot whose fd is negative, and sets its revents to zero. */
  function Revents(slot: PollFd, ready: map<int, nat>): nat {
    if 0 <= slot.fd && slot.fd in ready then ready[slot.fd] else 0
  }

  function Repolled(slot: PollFd, ready: map<int, nat>): PollFd {
    slot.(revents := Revents(slot, ready))
  }

  lemma RepolledSlot(slot: PollFd, ready: map<int, nat>)
    ensures Repolled(slot, ready).events == slot.events
    ensures Repolled(slot, ready).revents > 0 ==> 0 <= Repolled(slot, ready).fd
  {
  }

  lemma {:induction false} ReportedMembers(slots: seq<PollFd>, slot: PollFd)
    ensures slot in Reported(slots) <==> slot in slots && slot.revents > 0
  {
    if slots == [] {
    } else {
      ReportedMembers(slots[1..], slot);
      assert slots == [slots[0]] + slots[1..];
    }
  }

  lemma {:induction false} ReportedOnce(slots: seq<PollFd>)
    requires forall i, j :: 0 <= i < j < |slots| ==> slots[i].fd != slots[j].fd
    ensures forall i, j :: 0 <= i < j < |Reported(slots)| ==> Reported(slots)[i].fd != Reported(slots)[j].fd
  {
    if slots == [] {
    } else {
      var rest := slots[1..];
      ReportedOnce(rest);
      forall i | 0 <= i < |Reported(rest)|
        ensures Reported(rest)[i].fd != slots[0].fd
      {
        ReportedMembers(rest, Reported(rest)[i]);
        var k :| 0 <= k < |rest| && rest[k] == Reported(rest)[i];
        assert slots[k + 1] == rest[k];
      }
    }
  }

  // ---- the array and the indexes ----

  /** Slots and indexes (by descriptor) are in bijection. */
  predicate Dense(slots: seq<PollFd>, ix: map<int, int>) {
    && (forall fd :: fd in ix ==> 0 <= fd && 0 <= ix[fd] < |slots| && Owner(slots[ix[fd]]) == fd)
    && (forall i :: 0 <= i < |slots| ==> Owner(slots[i]) in ix && ix[Owner(slots[i])] == i)
  }

  function SlotMap(slots: seq<PollFd>, ix: map<int, int>): map<int, PollFd> {
    map fd | fd in ix && 0 <= ix[fd] < |slots| :: slots[ix[fd]]
  }

  lemma DenseAt(slots: seq<PollFd>, ix: map<int, int>, fd: int)
    requires Dense(slots, ix) && fd in ix
    ensures 0 <= fd && 0 <= ix[fd] < |slots| && fd in SlotMap(slots, ix) && SlotMap(slots, ix)[fd] == slots[ix[fd]]
    ensures Owner(slots[ix[fd]]) == fd && (slots[ix[fd]].fd == fd || slots[ix[fd]].fd == Ignored(fd))
  {
  }

  lemma DenseSlot(slots: seq<PollFd>, ix: map<int, int>, i: nat)
    requires Dense(slots, ix) && i < |slots|
    ensures Owner(slots[i]) in ix && ix[Owner(slots[i])] == i
  {
  }

  lemma PushedSlot(slots: seq<PollFd>, ix: map<int, int>, slot: PollFd)
    requires Dense(slots, ix) && 0 <= slot.fd && slot.fd !in ix
    ensures Dense(slots + [slot], ix[slot.fd := |slots|])
    ensures SlotMap(slots + [slot], ix[slot.fd := |slots|]) == SlotMap(slots, ix)[slot.fd := slot]
  {
    var s', ix' := slots + [slot], ix[slot.fd := |slots|];
    forall i | 0 <= i < |s'|
      ensures Owner(s'[i]) in ix' && ix'[Owner(s'[i])] == i
    {
      if i < |slots| {
        assert s'[i] == slots[i] && Owner(slots[i]) in ix;
      }
    }
    forall g | g in ix'
      ensures s'[ix'[g]] == if g == slot.fd then slot else slots[ix[g]]
    {
    }
  }

  lemma ChangedSlot(slots: seq<PollFd>, ix: map<int, int>, fd: int, slot: PollFd)
    requires Dense(slots, ix) && fd in ix && Owner(slot) == fd
    ensures Dense(slots[ix[fd] := slot], ix)
    ensures SlotMap(slots[ix[fd] := slot], ix) == SlotMap(slots, ix)[fd := slot]
  {
    var s' := slots[ix[fd] := slot];
    assert forall i :: 0 <= i < |s'| ==> Owner(s'[i]) == Owner(slots[i]);
    forall g | g in ix
      ensures s'[ix[g]] == if g == fd then slot else slots[ix[g]]
    {
    }
  }

  /** The array without the slot at `idx`, whose place the last one takes. */
  function Swapped(slots: seq<PollFd>, idx: int): seq<PollFd>
    requires 0 <= idx < |slots|
  {
    slots[idx := slots[|slots| - 1]][..|slots| - 1]
  }

  /** The indexes that go with it. */
  function Reindexed(slots: seq<PollFd>, ix: map<int, int>, fd: int): map<int, int>
    requires slots != [] && fd in ix
  {
    var moved := Owner(slots[|slots| - 1]);
    if moved == fd then ix - {fd} else (ix - {fd})[moved := ix[fd]]
  }

  lemma KeyAfterSwap(slots: seq<PollFd>, ix: map<int, int>, fd: int, g: int)
    requires Dense(slots, ix) && fd in ix && slots != [] && g in Reindexed(slots, ix, fd)
    ensures var slots', ix' := Swapped(slots, ix[fd]), Reindexed(slots, ix, fd);
      && g != fd && g in ix && 0 <= g && 0 <= ix[g] < |slots| && 0 <= ix'[g] < |slots'|
      && slots'[ix'[g]] == slots[ix[g]] && Owner(slots'[ix'[g]]) == g
  {
    hide Owner;
    var last := |slots| - 1;
    var moved := Owner(slots[last]);
    assert moved in ix && ix[moved] == last;
    assert Owner(slots[ix[g]]) == g && Owner(slots[ix[fd]]) == fd;
    if g != moved {
      assert ix[g] != last;
    }
  }

  lemma SlotAfterSwap(slots: seq<PollFd>, ix: map<int, int>, fd: int, i: nat)
    requires Dense(slots, ix) && fd in ix && i < |slots| - 1
    ensures var slots', ix' := Swapped(slots, ix[fd]), Reindexed(slots, ix, fd);
      Owner(slots'[i]) in ix' && ix'[Owner(slots'[i])] == i
  {
    hide Owner;
    var last := |slots| - 1;
    var moved := Owner(slots[last]);
    assert moved in ix && ix[moved] == last && Owner(slots[ix[fd]]) == fd;
    assert Owner(slots[i]) in ix && ix[Owner(slots[i])] == i;
  }

  lemma KeysAfterSwap(slots: seq<PollFd>, ix: map<int, int>, fd: int)
    requires Dense(slots, ix) && fd in ix && slots != []
    ensures Reindexed(slots, ix, fd).Keys == ix.Keys - {fd}
  {
    hide Owner;
    assert Owner(slots[|slots| - 1]) in ix;
  }

  lemma DenseIsNotEmpty(slots: seq<PollFd>, ix: map<int, int>, fd: int)
    requires Dense(slots, ix) && fd in ix
    ensures 0 <= ix[fd] < |slots|
  {
  }

  lemma DenseFrom(slots: seq<PollFd>, ix: map<int, int>)
    requires forall fd :: fd in ix ==> 0 <= fd && 0 <= ix[fd] < |slots| && Owner(slots[ix[fd]]) == fd
    requires forall i :: 0 <= i < |slots| ==> Owner(slots[i]) in ix && ix[Owner(slots[i])] == i
    ensures Dense(slots, ix)
  {
  }

  /** Swapping a slot with the last one and popping it loses that slot alone. */
  lemma SwapPoppedSlot(slots: seq<PollFd>, ix: map<int, int>, fd: int)
    requires Dense(slots, ix) && fd in ix
    ensures 0 <= ix[fd] < |slots|
    ensures var slots', ix' := Swapped(slots, ix[fd]), Reindexed(slots, ix, fd);
      Dense(slots', ix') && SlotMap(slots', ix') == SlotMap(slots, ix) - {fd}
  {
    hide Dense, Owner, Swapped, Reindexed;
    DenseIsNotEmpty(slots, ix, fd);
    SwappedLength(slots, ix[fd]);
    var slots', ix' := Swapped(slots, ix[fd]), Reindexed(slots, ix, fd);
    forall g | g in ix'
      ensures g != fd && g in ix && 0 <= g && 0 <= ix[g] < |slots| && 0 <= ix'[g] < |slots'|
      ensures slots'[ix'[g]] == slots[ix[g]] && Owner(slots'[ix'[g]]) == g
    {
      KeyAfterSwap(slots, ix, fd, g);
    }
    forall i | 0 <= i < |slots'|
      ensures Owner(slots'[i]) in ix' && ix'[Owner(slots'[i])] == i
    {
      SlotAfterSwap(slots, ix, fd, i);
    }
    DenseFrom(slots', ix');
    KeysAfterSwap(slots, ix, fd);
    MapAfterSwap(slots, slots', ix, ix', fd);
  }

  lemma SwappedLength(slots: seq<PollFd>, idx: int)
    requires 0 <= idx < |slots|
    ensures |Swapped(slots, idx)| == |slots| - 1
  {
  }

  lemma MapAfterSwap(slots: seq<PollFd>, slots': seq<PollFd>, ix: map<int, int>, ix': map<int, int>, fd: int)
    requires Dense(slots, ix) && ix'.Keys == ix.Keys - {fd}
    requires forall g :: g in ix' ==> g in ix && 0 <= ix[g] < |slots| && 0 <= ix'[g] < |slots'|
    requires forall g :: g in ix' ==> slots'[ix'[g]] == slots[ix[g]]
    ensures SlotMap(slots', ix') == SlotMap(slots, ix) - {fd}
  {
    hide Owner;
    var a, b := SlotMap(slots', ix'), SlotMap(slots, ix) - {fd};
    forall g
      ensures g in a <==> g in b
      ensures g in a ==> a[g] == b[g]
    {
      assert g in ix'.Keys <==> g in ix.Keys - {fd};
    }
  }

  /** What the code does to the array comes to this. */
  lemma Popped(slots: seq<PollFd>, idx: nat)
    requires idx < |slots|
    ensures var last := |slots| - 1;
      && slots[idx := slots[last]][last := slots[idx]][..last] == Swapped(slots, idx)
      && (idx == last ==> slots[..last] == Swapped(slots, idx))
  {
  }

  lemma LastMoved(slots: seq<PollFd>, ix: map<int, int>, fd: int)
    requires Dense(slots, ix) && fd in ix && slots != []
    ensures var last := |slots| - 1;
      if ix[fd] == last then Reindexed(slots, ix, fd) == ix - {fd}
      else
        var moved := Owner(slots[last]);
        moved in ix && moved != fd && Reindexed(slots, ix, fd) == (ix - {fd})[moved := ix[fd]]
  {
    hide Owner;
    var moved := Owner(slots[|slots| - 1]);
    assert moved in ix && ix[moved] == |slots| - 1 && Owner(slots[ix[fd]]) == fd;
  }

  lemma PolledMap(slots: seq<PollFd>, slots': seq<PollFd>, ix: map<int, int>, ready: map<int, nat>)
    requires Dense(slots, ix) && |slots'| == |slots|
    requires forall i :: 0 <= i < |slots| ==> slots'[i] == Repolled(slots[i], ready)
    ensures Dense(slots', ix) && SlotMap(slots', ix).Keys == SlotMap(slots, ix).Keys
    ensures forall fd :: fd in SlotMap(slots, ix) ==> SlotMap(slots', ix)[fd] == Repolled(SlotMap(slots, ix)[fd], ready)
  {
    assert forall i :: 0 <= i < |slots| ==> Owner(slots'[i]) == Owner(slots[i]);
  }

  lemma SlotFdsDiffer(slots: seq<PollFd>, ix: map<int, int>)
    requires Dense(slots, ix)
    ensures forall i, j :: 0 <= i < j < |slots| ==> slots[i].fd != slots[j].fd
  {
    forall i, j | 0 <= i < j < |slots|
      ensures Owner(slots[i]) != Owner(slots[j])
    {
      assert ix[Owner(slots[i])] == i && ix[Owner(slots[j])] == j;
    }
  }

  class Poller {
    var pollfds: seq<PollFd>
    var channels: map<int, Channel>

    ghost function Indexes(): map<int, int>
      reads this`channels, channels.Values`index
    {
      map fd | fd in channels :: channels[fd].index
    }

    /** The slot of each registered descriptor: what the structure is for. */
    ghost function Slots(): map<int, PollFd>
      reads this, channels.Values`index
    {
      SlotMap(pollfds, Indexes())
    }

    /** The array and the map are in bijection through the indexes, and slots carry current masks. */
    ghost predicate Valid()
      reads this, channels.Values`index, channels.Values`events
    {
      && Dense(pollfds, Indexes())
      && (forall fd :: fd in channels ==>
            channels[fd].fd == fd && fd in Slots() && Slots()[fd].events == channels[fd].events)
    }

    constructor ()
      ensures Valid() && Slots() == map[] && channels == map[]
    {
      pollfds, channels := [], map[];
    }

    /** Adds a new channel, or changes the slot of a known one. A slot that was ignored stays so, even
        when the new mask is not empty. */
    method UpdateChannel(channel: Channel, events: Mask)
      requires Valid() && 0 <= channel.fd
      requires if channel.index < 0 then channel.fd !in channels
               else channel.fd in channels && channels[channel.fd] == channel
      modifies this, channel`events, channel`index
      ensures Valid() && channels == old(channels)[channel.fd := channel] && channel.events == events
      ensures var was := old(Slots());
        Slots() == was[channel.fd := PollFd(
          if channel.fd !in was then channel.fd
          else if events == {} then Ignored(channel.fd)
          else was[channel.fd].fd, events, 0)]
    {
      hide Dense, SlotMap, Owner, Valid, Slots;
      KnownKeys();
      if channel.index < 0 {
        channel.events := events;
        OthersUntouched(channel);
        AddSlot(channel);
      } else {
        SlotOf(channel);
        ChangeSlot(channel, events);
        assert channels == channels[channel.fd := channel];
      }
    }

    twostate lemma OthersUntouched(channel: Channel)
      requires old(Valid()) && channel.fd !in channels && pollfds == old(pollfds) && channels == old(channels)
      requires forall fd :: fd in channels ==> channels[fd].index == old(channels[fd].index)
      requires forall fd :: fd in channels && channels[fd] != channel ==>
        channels[fd].events == old(channels[fd].events)
      ensures Valid() && Slots() == old(Slots())
    {
      hide Dense, SlotMap, Owner;
      var now, was := Indexes(), old(Indexes());
      assert now.Keys == channels.Keys == was.Keys;
      assert forall fd :: fd in channels ==> now[fd] == was[fd];
      assert now == was;
    }

    method AddSlot(channel: Channel)
      requires Valid() && 0 <= channel.fd && channel.index < 0 && channel.fd !in channels
      modifies this, channel`index
      ensures Valid() && channels == old(channels)[channel.fd := channel]
      ensures Slots() == old(Slots())[channel.fd := PollFd(channel.fd, channel.events, 0)]
    {
      hide Dense, SlotMap, Owner;
      ghost var slots, ix := pollfds, Indexes();
      KnownKeys();
      var pfd := PollFd(channel.fd, channel.events, 0);
      assert channel.fd !in ix;
      PushedSlot(slots, ix, pfd);
      assert forall fd :: fd in channels ==> channels[fd] != channel;
      pollfds := pollfds + [pfd];
      channel.index := |pollfds| - 1;
      channels := channels[channel.fd := channel];
      assert Indexes() == ix[channel.fd := |slots|];
    }

    method ChangeSlot(channel: Channel, events: Mask)
      requires Valid() && channel.fd in channels && channels[channel.fd] == channel && channel.fd in Slots()
      modifies this`pollfds, channel`events
      ensures Valid() && channel.events == events
      ensures Slots() == old(Slots())[channel.fd :=
        PollFd(if events == {} then Ignored(channel.fd) else old(Slots())[channel.fd].fd, events, 0)]
    {
      hide Dense, SlotMap, Owner;
      ghost var slots, ix := pollfds, Indexes();
      KnownKeys();
      SlotOf(channel);
      var idx := channel.index;
      assert 0 <= idx < |pollfds|;
      assert pollfds[idx].fd == channel.fd || pollfds[idx].fd == Ignored(channel.fd);
      var slot := PollFd(if events == {} then Ignored(channel.fd) else pollfds[idx].fd, events, 0);
      OwnerOf(slot, channel.fd);
      ChangedSlot(slots, ix, channel.fd, slot);
      channel.events := events;
      pollfds := pollfds[idx := slot];
      assert Indexes() == ix;
    }

    lemma KnownKeys()
      requires Valid()
      ensures Slots().Keys == channels.Keys == Indexes().Keys
      ensures forall fd :: fd in channels ==> channels[fd].fd == fd && 0 <= channels[fd].index
    {
      assert Indexes().Keys == channels.Keys;
      forall fd | fd in Indexes()
        ensures fd in Slots() && 0 <= Indexes()[fd]
      {
        DenseAt(pollfds, Indexes(), fd);
      }
    }

    lemma SlotOf(channel: Channel)
      requires Valid() && channel.fd in channels && channels[channel.fd] == channel
      ensures 0 <= channel.fd && 0 <= channel.index < |pollfds| && channel.fd in Slots()
      ensures Slots()[channel.fd] == pollfds[channel.index] && Owner(pollfds[channel.index]) == channel.fd
      ensures pollfds[channel.index].fd == channel.fd || pollfds[channel.index].fd == Ignored(channel.fd)
    {
      assert channel.fd in Indexes() && Indexes()[channel.fd] == channel.index;
      DenseAt(pollfds, Indexes(), channel.fd);
    }

    lemma OwnerOf(slot: PollFd, fd: int)
      requires 0 <= fd && (slot.fd == fd || slot.fd == Ignored(fd))
      ensures Owner(slot) == fd
    {
    }

    /** Swaps the slot with the last one and pops it. The source asserts that the slot is ignored. */
    method RemoveChannel(channel: Channel)
      requires Valid() && channel.fd in channels && channels[channel.fd] == channel && channel.events == {}
      requires Slots()[channel.fd].fd == Ignored(channel.fd)
      modifies this, (set fd | fd in channels :: channels[fd])`index
      ensures Valid() && channels == old(channels) - {channel.fd}
      ensures Slots() == old(Slots()) - {channel.fd}
      ensures channel.index == old(channel.index)
    {
      hide Dense, SlotMap, Owner;
      ghost var ix := Indexes();
      KnownKeys();
      SlotOf(channel);
      var idx := channel.index;
      assert 0 <= idx < |pollfds|;
      assert pollfds[idx].fd == Ignored(channel.fd) && pollfds[idx].events == channel.events;
      channels := channels - {channel.fd};
      assert Indexes() == ix - {channel.fd};
      SwapAndPop(channel.fd, idx, ix);
    }

    /** Fills the gap at `idx`, whose channel `fd` is out of the map already. */
    method SwapAndPop(fd: int, idx: nat, ghost ix: map<int, int>)
      requires Dense(pollfds, ix) && fd in ix && ix[fd] == idx < |pollfds| && Indexes() == ix - {fd}
      requires forall g :: g in channels ==> channels[g].fd == g
      modifies this`pollfds, (set g | g in channels :: channels[g])`index
      ensures pollfds == Swapped(old(pollfds), idx) && Indexes() == Reindexed(old(pollfds), ix, fd)
      ensures Dense(pollfds, Indexes()) && Slots() == SlotMap(old(pollfds), ix) - {fd}
    {
      hide Dense, SlotMap, Owner, Swapped, Reindexed;
      ghost var slots := pollfds;
      SwapPoppedSlot(slots, ix, fd);
      Popped(slots, idx);
      LastMoved(slots, ix, fd);
      var last := |pollfds| - 1;
      if idx == last {
        pollfds := pollfds[..last];
      } else {
        var channelAtEnd := pollfds[last].fd;
        pollfds := pollfds[idx := pollfds[last]][last := pollfds[idx]];
        if channelAtEnd < 0 {
          channelAtEnd := -channelAtEnd - 1;
        }
        OwnerIs(slots[last], channelAtEnd);
        assert channelAtEnd in Indexes();
        SetIndex(channels[channelAtEnd], idx);
        pollfds := pollfds[..last];
      }
    }

    method SetIndex(channel: Channel, idx: int)
      requires channel.fd in channels && channels[channel.fd] == channel
      requires forall fd :: fd in channels ==> channels[fd].fd == fd
      modifies channel`index
      ensures Indexes() == old(Indexes())[channel.fd := idx]
    {
      assert forall fd :: fd in channels && fd != channel.fd ==> channels[fd] != channel;
      channel.index := idx;
    }

    lemma OwnerIs(slot: PollFd, fd: int)
      requires fd == if slot.fd < 0 then -slot.fd - 1 else slot.fd
      ensures Owner(slot) == fd
    {
    }

    /** poll(2) itself: sets all revents, and counts the slots that got any. */
    method KernelPoll(ready: map<int, nat>) returns (numEvents: nat)
      requires Valid()
      modifies this`pollfds
      ensures Valid() && ReportsValid() && numEvents == Positive(pollfds)
      ensures Slots().Keys == old(Slots()).Keys
      ensures forall fd :: fd in Slots() ==> Slots()[fd] == Repolled(old(Slots())[fd], ready)
    {
      hide Dense, SlotMap, Owner, Positive, Repolled;
      KnownKeys();
      var slots := pollfds;
      var slots' := seq(|slots|, i requires 0 <= i < |slots| => Repolled(slots[i], ready));
      PolledMap(slots, slots', Indexes(), ready);
      forall slot
        ensures Repolled(slot, ready).events == slot.events
        ensures Repolled(slot, ready).revents > 0 ==> 0 <= Repolled(slot, ready).fd
      {
        RepolledSlot(slot, ready);
      }
      pollfds := slots';
      numEvents := Positive(pollfds);
    }

    /** The whole call. An errno is fatal. Otherwise the active channels are exactly those whose descriptor is
        watched and ready, each once and with its events. */
    method Poll(answer: Answer) returns (active: seq<Channel>, fatal: bool)
      requires Valid()
      modifies this`pollfds, (set fd | fd in channels :: channels[fd])`revents
      ensures Valid() && (fatal <==> answer == PollFails)
      ensures fatal ==> active == [] && Slots() == old(Slots())
      ensures !fatal ==> Slots().Keys == old(Slots()).Keys
      ensures !fatal ==> forall fd :: fd in Slots() ==> Slots()[fd] == Repolled(old(Slots())[fd], answer.ready)
      ensures !fatal ==> AreActive(active)
      ensures !fatal ==>
        (set channel | channel in active :: channel.fd)
        == (set fd | fd in old(Slots()) && old(Slots())[fd].fd == fd && fd in answer.ready && answer.ready[fd] > 0)
      ensures !fatal ==> forall channel :: channel in active ==>
        channel.fd in answer.ready && channel.revents == answer.ready[channel.fd]
    {
      hide Valid, Slots, ReportsValid, Reported, Positive, Delivered, AreActive;
      active, fatal := [], answer == PollFails;
      if !fatal {
        var numEvents := KernelPoll(answer.ready);
        if numEvents > 0 {
          active := FillActiveChannels(numEvents);
        } else {
          assert pollfds[0..] == pollfds;
          NoneLeft(0, 0);
        }
        ActiveAreReported(active);
        ActiveAreReady(active, old(Slots()), answer.ready);
      }
    }

    /** In terms of the slots before the call and of poll's answer. */
    lemma ActiveAreReady(active: seq<Channel>, was: map<int, PollFd>, ready: map<int, nat>)
      requires Valid() && AreActive(active) && Slots().Keys == was.Keys
      requires forall fd :: fd in Slots() ==> Slots()[fd] == Repolled(was[fd], ready)
      ensures (set channel | channel in active :: channel.fd) ==
        set fd | fd in was && was[fd].fd == fd && fd in ready && ready[fd] > 0
      ensures forall channel :: channel in active ==>
        channel.fd in ready && channel.revents == ready[channel.fd]
    {
      hide Dense, SlotMap, Owner;
      KnownKeys();
      forall channel | channel in active
        ensures channel.fd in was && was[channel.fd].fd == channel.fd
        ensures channel.fd in ready && channel.revents == ready[channel.fd] > 0
      {
        assert channel.fd in Slots();
      }
      forall fd | fd in was && was[fd].fd == fd && fd in ready && ready[fd] > 0
        ensures fd in set channel | channel in active :: channel.fd
      {
        assert fd in Slots().Keys && Slots()[fd].revents > 0 by {
          SlotOf(channels[fd]);
        }
        assert channels[fd] in active && channels[fd].fd == fd;
      }
    }

    /** The channels whose slot has events, each once and with these events */
    ghost predicate AreActive(active: seq<Channel>)
      reads this, channels.Values
    {
      && (forall k :: 0 <= k < |active| ==>
            && active[k].fd in channels && active[k] == channels[active[k].fd] && active[k].fd in Slots()
            && Slots()[active[k].fd].fd == active[k].fd && active[k].revents == Slots()[active[k].fd].revents > 0)
      && (forall fd :: fd in Slots() && Slots()[fd].revents > 0 ==> fd in channels && channels[fd] in active)
      && (forall i, j :: 0 <= i < j < |active| ==> active[i].fd != active[j].fd)
    }

    lemma ActiveAreReported(active: seq<Channel>)
      requires Valid() && ReportsValid() && |active| == |Reported(pollfds)|
      requires forall k :: 0 <= k < |active| ==>
        Reported(pollfds)[k].fd in channels && active[k] == channels[Reported(pollfds)[k].fd]
      requires forall i :: 0 <= i < |pollfds| ==> Delivered(pollfds[i])
      ensures AreActive(active)
    {
      hide Dense, SlotMap, Owner, Reported;
      KnownKeys();
      forall k | 0 <= k < |active|
        ensures active[k].fd == Reported(pollfds)[k].fd && active[k].fd in Slots()
        ensures Slots()[active[k].fd].fd == active[k].fd && active[k].revents == Slots()[active[k].fd].revents > 0
      {
        ActiveSlot(Reported(pollfds)[k], active[k]);
      }
      forall fd | fd in Slots() && Slots()[fd].revents > 0
        ensures fd in channels && channels[fd] in active
      {
        SlotOf(channels[fd]);
        var slot := Slots()[fd];
        assert slot in pollfds;
        ReportedMembers(pollfds, slot);
        var k :| 0 <= k < |active| && Reported(pollfds)[k] == slot;
        assert active[k] in active && slot.fd == fd;
      }
      SlotFdsDiffer(pollfds, Indexes());
      ReportedOnce(pollfds);
    }

    lemma ActiveSlot(slot: PollFd, channel: Channel)
      requires Valid() && ReportsValid() && slot in Reported(pollfds)
      requires slot.fd in channels && channel == channels[slot.fd]
      requires forall i :: 0 <= i < |pollfds| ==> Delivered(pollfds[i])
      ensures channel.fd == slot.fd && slot.fd in Slots()
      ensures Slots()[channel.fd] == slot && channel.revents == slot.revents > 0
    {
      hide Dense, SlotMap, Owner, Reported;
      ReportedMembers(pollfds, slot);
      var i :| 0 <= i < |pollfds| && pollfds[i] == slot;
      assert Delivered(pollfds[i]);
      ReportedSlot(i);
      SlotOf(channel);
    }

    predicate ReportsValid()
      reads this
    {
      forall i :: 0 <= i < |pollfds| ==> pollfds[i].revents > 0 ==> 0 <= pollfds[i].fd
    }

    /** Stops after as many reports as poll counted, and still finds them all. */
    method FillActiveChannels(numEvents: nat) returns (active: seq<Channel>)
      requires Valid() && ReportsValid() && numEvents == Positive(pollfds)
      modifies (set fd | fd in channels :: channels[fd])`revents
      ensures Valid()
      ensures var reported := Reported(pollfds);
        |active| == |reported| && forall k :: 0 <= k < |active| ==>
          reported[k].fd in channels && active[k] == channels[reported[k].fd]
      ensures forall i :: 0 <= i < |pollfds| ==> Delivered(pollfds[i])
    {
      hide Valid, Delivered, Reported, Positive;
      active := [];
      var left, i := numEvents, 0;
      assert pollfds[0..] == pollfds;
      ghost var all := Reported(pollfds);
      while i < |pollfds| && left > 0
        invariant i <= |pollfds| && Valid()
        invariant left == Positive(pollfds[i..])
        invariant |active| <= |all| && all[|active|..] == Reported(pollfds[i..])
        invariant forall k :: 0 <= k < |active| ==> all[k].fd in channels && active[k] == channels[all[k].fd]
        invariant forall j :: 0 <= j < i ==> Delivered(pollfds[j])
      {
        FirstReport(pollfds[i..]);
        assert pollfds[i..][0] == pollfds[i] && pollfds[i..][1..] == pollfds[i + 1..];
        if pollfds[i].revents > 0 {
          assert all[|active|] == all[|active|..][0] == pollfds[i];
          assert all[|active|..][1..] == all[|active| + 1..];
          left := left - 1;
          var channel := Deliver(i);
          active := active + [channel];
        } else {
          NotReported(pollfds[i]);
        }
        i := i + 1;
      }
      NoneLeft(i, left);
      assert all[|active|..] == [];
    }

    lemma NotReported(slot: PollFd)
      requires slot.revents <= 0
      ensures Delivered(slot)
    {
    }

    method Deliver(i: nat) returns (channel: Channel)
      requires Valid() && ReportsValid() && i < |pollfds| && pollfds[i].revents > 0
      requires forall j :: 0 <= j < i ==> Delivered(pollfds[j])
      modifies (set fd | fd in channels :: channels[fd])`revents
      ensures pollfds[i].fd in channels && channel == channels[pollfds[i].fd]
      ensures forall j :: 0 <= j <= i ==> Delivered(pollfds[j])
    {
      ReportedSlot(i);
      channel := channels[pollfds[i].fd];
      assert channel.fd == pollfds[i].fd;
      forall j | 0 <= j < i && pollfds[j].revents > 0
        ensures pollfds[j].fd in channels && channels[pollfds[j].fd] != channel
      {
        ReportedSlot(j);
      }
      channel.revents := pollfds[i].revents;
    }

    /** The event poll found for a slot is in the slot's channel. */
    predicate Delivered(slot: PollFd)
      reads this, channels.Values
    {
      slot.revents > 0 ==> slot.fd in channels && channels[slot.fd].revents == slot.revents
    }

    lemma ReportedSlot(i: nat)
      requires Valid() && ReportsValid() && i < |pollfds| && pollfds[i].revents > 0
      ensures pollfds[i].fd in channels && channels[pollfds[i].fd].fd == pollfds[i].fd
      ensures channels[pollfds[i].fd].index == i
    {
      DenseSlot(pollfds, Indexes(), i);
    }

    lemma NoneLeft(i: nat, left: nat)
      requires i <= |pollfds| && left == Positive(pollfds[i..]) && (i == |pollfds| || left == 0)
      ensures Reported(pollfds[i..]) == []
      ensures forall j :: i <= j < |pollfds| ==> Delivered(pollfds[j])
    {
      NothingReported(pollfds[i..]);
      forall j | i <= j < |pollfds|
        ensures Delivered(pollfds[j])
      {
        PositiveAt(pollfds[i..], j - i);
      }
    }
  }

  lemma {:induction false} PositiveAt(slots: seq<PollFd>, k: nat)
    requires k < |slots| && Positive(slots) == 0
    ensures slots[k].revents <= 0
  {
    if k > 0 {
      PositiveAt(slots[1..], k - 1);
    }
  }

  // ---- any number of channels ----

  /** A channel by its number and descriptor. Several channels may have the same descriptor, one after the other. */
  datatype Chan = Chan(id: nat, fd: int)

  /** What a program does with the poller. */
  datatype Op = Update(ch: Chan, events: Mask) | Remove(ch: Chan) | PollOnce(answer: Answer)

  /** The slots by descriptor, whose they are, and the channels that were ever registered. */
  datatype Table = Table(slots: map<int, PollFd>, owner: map<int, Chan>, used: set<Chan>)

  const EMPTY := Table(map[], map[], {})

  predicate Registered(t: Table, ch: Chan) {
    ch.fd in t.slots && ch.fd in t.owner && t.owner[ch.fd] == ch
  }

  function UpdatedSlot(t: Table, fd: int, events: Mask): PollFd {
    PollFd(if fd !in t.slots then fd else if events == {} then Ignored(fd) else t.slots[fd].fd, events, 0)
  }

  function After(t: Table, op: Op): Table {
    match op
    case Update(ch, events) =>
      Table(t.slots[ch.fd := UpdatedSlot(t, ch.fd, events)], t.owner[ch.fd := ch], t.used + {ch})
    case Remove(ch) => t.(slots := t.slots - {ch.fd}, owner := t.owner - {ch.fd})
    case PollOnce(answer) =>
      if answer == PollFails then t
      else t.(slots := map fd | fd in t.slots :: Repolled(t.slots[fd], answer.ready))
  }

  /** What the asserts of the poller demand: a new channel's descriptor is not registered, a channel that was
      registered still is, and a channel is removed when its mask is empty and its slot ignored. */
  predicate Admissible(t: Table, op: Op) {
    match op
    case Update(ch, _) => 0 <= ch.fd && (if ch in t.used then Registered(t, ch) else ch.fd !in t.slots)
    case Remove(ch) =>
      Registered(t, ch) && t.slots[ch.fd].events == {} && t.slots[ch.fd].fd == Ignored(ch.fd)
    case PollOnce(_) => true
  }

  predicate IsRun(t: Table, ops: seq<Op>)
    decreases |ops|
  {
    ops == [] || (Admissible(t, ops[0]) && IsRun(After(t, ops[0]), ops[1..]))
  }

  function Run(t: Table, ops: seq<Op>): Table
    decreases |ops|
  {
    if ops == [] then t else Run(After(t, ops[0]), ops[1..])
  }

  /** The descriptors that are watched and ready. */
  function WatchedReady(t: Table, ready: map<int, nat>): set<int> {
    set fd | fd in t.slots && t.slots[fd].fd == fd && fd in ready && ready[fd] > 0
  }

  /** What each poll of a run should report. */
  function Reports(t: Table, ops: seq<Op>): seq<set<int>>
    decreases |ops|
  {
    if ops == [] then []
    else
      (if ops[0].PollOnce? && ops[0].answer != PollFails then [WatchedReady(t, ops[0].answer.ready)] else [])
        + Reports(After(t, ops[0]), ops[1..])
  }

  // ---- which channels are watched ----

  predicate IsUpdateOf(op: Op, ch: Chan) {
    op.Update? && op.ch == ch
  }

  /** What a run does after it registers the channel. */
  function SinceRegistered(ops: seq<Op>, ch: Chan): seq<Op> {
    if ops == [] then [] else if IsUpdateOf(ops[0], ch) then ops[1..] else SinceRegistered(ops[1..], ch)
  }

  lemma {:induction false} GoneForGood(t: Table, ops: seq<Op>, ch: Chan)
    requires IsRun(t, ops) && ch in t.used && !Registered(t, ch)
    ensures !Registered(Run(t, ops), ch)
    decreases |ops|
  {
    if ops == [] {
    } else {
      GoneForGood(After(t, ops[0]), ops[1..], ch);
    }
  }

  /** What one step does to a registered channel. */
  lemma StepOfRegistered(t: Table, op: Op, ch: Chan)
    requires Admissible(t, op) && Registered(t, ch) && ch in t.used
    ensures var t1 := After(t, op);
      && ch in t1.used
      && (Registered(t1, ch) ==>
            && t1.slots[ch.fd].fd == (if op == Update(ch, {}) then Ignored(ch.fd) else t.slots[ch.fd].fd)
            && t1.slots[ch.fd].events == if IsUpdateOf(op, ch) then op.events else t.slots[ch.fd].events)
  {
  }

  lemma {:induction false} WatchedFrom(t: Table, ops: seq<Op>, ch: Chan)
    requires IsRun(t, ops) && Registered(t, ch) && ch in t.used && Registered(Run(t, ops), ch)
    requires t.slots[ch.fd].fd == ch.fd || t.slots[ch.fd].fd == Ignored(ch.fd)
    ensures Run(t, ops).slots[ch.fd].fd == if Update(ch, {}) in ops then Ignored(ch.fd) else t.slots[ch.fd].fd
    decreases |ops|
  {
    hide After, Admissible;
    if ops == [] {
    } else {
      assert ops == [ops[0]] + ops[1..];
      StepOfRegistered(t, ops[0], ch);
      if Registered(After(t, ops[0]), ch) {
        WatchedFrom(After(t, ops[0]), ops[1..], ch);
      } else {
        GoneForGood(After(t, ops[0]), ops[1..], ch);
      }
    }
  }

  /** An update registers a new channel, and nothing else does. */
  lemma FirstUpdate(t: Table, op: Op, ch: Chan)
    requires Admissible(t, op) && ch !in t.used && !Registered(t, ch)
    ensures var t1 := After(t, op);
      if IsUpdateOf(op, ch) then
        ch in t1.used && Registered(t1, ch) && t1.slots[ch.fd] == PollFd(ch.fd, op.events, 0)
      else ch !in t1.used && !Registered(t1, ch)
  {
  }

  /** A registered channel's slot is ignored if and only if some update since its registration had an empty mask;
      whatever masks came later, the channel is then not watched. */
  lemma {:induction false} WatchedExactly(t: Table, ops: seq<Op>, ch: Chan)
    requires IsRun(t, ops) && ch !in t.used && !Registered(t, ch) && Registered(Run(t, ops), ch)
    ensures Run(t, ops).slots[ch.fd].fd == if Update(ch, {}) in SinceRegistered(ops, ch) then Ignored(ch.fd) else ch.fd
    decreases |ops|
  {
    hide After, Admissible;
    if ops == [] {
    } else {
      FirstUpdate(t, ops[0], ch);
      if IsUpdateOf(ops[0], ch) {
        WatchedFrom(After(t, ops[0]), ops[1..], ch);
      } else {
        WatchedExactly(After(t, ops[0]), ops[1..], ch);
      }
    }
  }

  /** Whether the update that registers the channel asks for any event. */
  predicate RegisteredForEvents(ops: seq<Op>, ch: Chan) {
    if ops == [] then false
    else if IsUpdateOf(ops[0], ch) then ops[0].events != {}
    else RegisteredForEvents(ops[1..], ch)
  }

  lemma {:induction false} SilencedByUpdate(t: Table, ops: seq<Op>, ch: Chan)
    requires IsRun(t, ops) && Registered(t, ch) && ch in t.used && Registered(Run(t, ops), ch)
    requires t.slots[ch.fd].events != {} && Run(t, ops).slots[ch.fd].events == {}
    ensures Update(ch, {}) in ops
    decreases |ops|
  {
    hide After, Admissible;
    if ops == [] {
    } else {
      assert ops == [ops[0]] + ops[1..];
      StepOfRegistered(t, ops[0], ch);
      var t1 := After(t, ops[0]);
      if !Registered(t1, ch) {
        GoneForGood(t1, ops[1..], ch);
      } else if t1.slots[ch.fd].events != {} {
        SilencedByUpdate(t1, ops[1..], ch);
      }
    }
  }

  /** A channel registered for some event has an ignored slot whenever its mask is empty: this is what makes
      the assert of removeChannel hold after disableAll. */
  lemma {:induction false} SilentIsIgnored(t: Table, ops: seq<Op>, ch: Chan)
    requires IsRun(t, ops) && ch !in t.used && !Registered(t, ch) && Registered(Run(t, ops), ch)
    requires RegisteredForEvents(ops, ch) && Run(t, ops).slots[ch.fd].events == {}
    ensures Admissible(Run(t, ops), Remove(ch))
    decreases |ops|
  {
    if ops == [] {
    } else {
      var t1 := After(t, ops[0]);
      FirstUpdate(t, ops[0], ch);
      if IsUpdateOf(ops[0], ch) {
        SilencedByUpdate(t1, ops[1..], ch);
        WatchedFrom(t1, ops[1..], ch);
      } else {
        SilentIsIgnored(t1, ops[1..], ch);
      }
    }
  }

  /** A channel registered for reading, disabled and enabled again: its mask is not empty, and it is never
      reported however ready its descriptor is. */
  lemma ReenabledIsDeaf(ch: Chan, ready: map<int, nat>) returns (ops: seq<Op>)
    requires 0 <= ch.fd
    ensures IsRun(EMPTY, ops) && Registered(Run(EMPTY, ops), ch) && Run(EMPTY, ops).slots.Keys == {ch.fd}
    ensures Run(EMPTY, ops).slots[ch.fd].events == READ_EVENT
    ensures Reports(Run(EMPTY, ops), [PollOnce(PollReady(ready))]) == [{}]
  {
    ops := [Update(ch, READ_EVENT), Update(ch, {}), Update(ch, READ_EVENT)];
    assert ops[1..] == [Update(ch, {}), Update(ch, READ_EVENT)];
    assert ops[1..][1..] == [Update(ch, READ_EVENT)];
    assert ops[1..][1..][1..] == [];
    var t1 := After(EMPTY, ops[0]);
    var t2 := After(t1, Update(ch, {}));
    var t := After(t2, Update(ch, READ_EVENT));
    assert IsRun(t2, [Update(ch, READ_EVENT)]) && Run(t2, [Update(ch, READ_EVENT)]) == t;
    var poll := PollOnce(PollReady(ready));
    assert [poll][1..] == [];
    assert WatchedReady(t, ready) == {};
    assert Reports(t, [poll]) == [WatchedReady(t, ready)] + [];
  }

  /** A descriptor that is closed and handed out again: a new channel is registered where an old one was. */
  lemma DescriptorsAreReused(fd: int)
    requires 0 <= fd
    ensures var a, b := Chan(0, fd), Chan(1, fd);
      var ops := [Update(a, READ_EVENT), Update(a, {}), Remove(a), Update(b, READ_EVENT)];
      && IsRun(EMPTY, ops)
      && Run(EMPTY, ops).slots == map[fd := PollFd(fd, READ_EVENT, 0)] && Registered(Run(EMPTY, ops), b)
  {
    var a, b := Chan(0, fd), Chan(1, fd);
    var ops := [Update(a, READ_EVENT), Update(a, {}), Remove(a), Update(b, READ_EVENT)];
    var t1 := After(EMPTY, ops[0]);
    var t2 := After(t1, ops[1]);
    var t3 := After(t2, ops[2]);
    var t4 := After(t3, ops[3]);
    assert ops[1..][1..][1..][1..] == [];
    assert IsRun(t3, ops[1..][1..][1..]) && Run(t3, ops[1..][1..][1..]) == t4;
    assert IsRun(t2, ops[1..][1..]) && Run(t2, ops[1..][1..]) == t4;
    assert IsRun(t1, ops[1..]) && Run(t1, ops[1..]) == t4;
    assert t4.slots == map[fd := PollFd(fd, READ_EVENT, 0)];
  }

  // ---- the object ----

  function Name(pool: seq<Channel>, i: nat): Chan
    requires i < |pool|
  {
    Chan(i, pool[i].fd)
  }

  /** The channels of the pool are different objects. */
  predicate Pool(pool: seq<Channel>) {
    && (forall i :: 0 <= i < |pool| ==> 0 <= pool[i].fd)
    && forall i, j :: 0 <= i < j < |pool| ==> pool[i] != pool[j]
  }

  predicate OwnersFollow(channels: map<int, Channel>, pool: seq<Channel>, t: Table) {
    && channels.Keys == t.owner.Keys
    && forall fd :: fd in t.owner ==>
         && t.owner[fd].fd == fd && t.owner[fd].id < |pool|
         && Name(pool, t.owner[fd].id) == t.owner[fd] && channels[fd] == pool[t.owner[fd].id]
  }

  ghost predicate IndexesFollow(pool: seq<Channel>, t: Table)
    reads pool
  {
    forall i :: 0 <= i < |pool| ==> (pool[i].index < 0 <==> Name(pool, i) !in t.used)
  }

  ghost predicate Follows(poller: Poller, pool: seq<Channel>, t: Table)
    reads poller, poller.channels.Values, pool
  {
    && Pool(pool) && poller.Valid() && poller.Slots() == t.slots
    && OwnersFollow(poller.channels, pool, t) && IndexesFollow(pool, t)
  }

  predicate Fits(pool: seq<Channel>, op: Op) {
    op.Update? || op.Remove? ==> op.ch.id < |pool| && op.ch == Name(pool, op.ch.id)
  }

  lemma RegisteredObject(poller: Poller, pool: seq<Channel>, t: Table, ch: Chan)
    requires Follows(poller, pool, t) && Registered(t, ch)
    ensures ch.id < |pool| && ch == Name(pool, ch.id)
    ensures ch.fd in poller.channels && poller.channels[ch.fd] == pool[ch.id]
  {
  }

  lemma UpdatableObject(poller: Poller, pool: seq<Channel>, t: Table, ch: Chan, events: Mask)
    requires Follows(poller, pool, t) && Admissible(t, Update(ch, events)) && Fits(pool, Update(ch, events))
    ensures poller.Valid() && 0 <= ch.fd == pool[ch.id].fd && poller.Slots() == t.slots
    ensures if pool[ch.id].index < 0 then ch.fd !in poller.channels
            else ch.fd in poller.channels && poller.channels[ch.fd] == pool[ch.id]
  {
    poller.KnownKeys();
  }

  lemma OwnersAfterUpdate(channels: map<int, Channel>, pool: seq<Channel>, t: Table, ch: Chan, events: Mask)
    requires OwnersFollow(channels, pool, t) && Fits(pool, Update(ch, events))
    ensures OwnersFollow(channels[ch.fd := pool[ch.id]], pool, After(t, Update(ch, events)))
  {
  }

  lemma PoolDiffers(pool: seq<Channel>, i: nat, j: nat)
    requires Pool(pool) && i < |pool| && j < |pool| && i != j
    ensures pool[i] != pool[j] && Name(pool, i) != Name(pool, j)
  {
  }

  method PerformUpdate(poller: Poller, pool: seq<Channel>, ch: Chan, events: Mask, ghost t: Table)
    requires Follows(poller, pool, t) && Admissible(t, Update(ch, events)) && Fits(pool, Update(ch, events))
    modifies poller, pool
    ensures Follows(poller, pool, After(t, Update(ch, events)))
  {
    hide Dense, SlotMap, Owner, Poller.Valid, Poller.Slots, OwnersFollow, Admissible, Pool;
    UpdatableObject(poller, pool, t, ch, events);
    poller.UpdateChannel(pool[ch.id], events);
    OwnersAfterUpdate(old(poller.channels), pool, t, ch, events);
    poller.KnownKeys();
    forall i | 0 <= i < |pool|
      ensures pool[i].index < 0 <==> Name(pool, i) !in t.used + {ch}
    {
      assert old(pool[i].index) < 0 <==> Name(pool, i) !in t.used;
      if i == ch.id {
        assert poller.channels[ch.fd] == pool[i];
      } else {
        PoolDiffers(pool, i, ch.id);
      }
    }
  }

  method PerformRemove(poller: Poller, pool: seq<Channel>, ch: Chan, ghost t: Table)
    requires Follows(poller, pool, t) && Admissible(t, Remove(ch)) && Fits(pool, Remove(ch))
    modifies poller, pool
    ensures Follows(poller, pool, After(t, Remove(ch)))
  {
    hide Dense, SlotMap, Owner, Poller.Valid, Poller.Slots;
    poller.KnownKeys();
    RegisteredObject(poller, pool, t, ch);
    RemovableObject(poller, pool, t, ch);
    poller.RemoveChannel(pool[ch.id]);
    poller.KnownKeys();
    forall i | 0 <= i < |pool|
      ensures pool[i].index < 0 <==> Name(pool, i) !in t.used
    {
      assert old(pool[i].index) < 0 <==> Name(pool, i) !in t.used;
      var fd := pool[i].fd;
      if fd in old(poller.channels) && old(poller.channels)[fd] == pool[i] {
        assert 0 <= old(pool[i].index);
        assert fd != ch.fd ==> fd in poller.channels && poller.channels[fd] == pool[i];
      } else {
        assert pool[i] !in (set h | h in old(poller.channels) :: old(poller.channels)[h]);
      }
    }
  }

  lemma RemovableObject(poller: Poller, pool: seq<Channel>, t: Table, ch: Chan)
    requires Follows(poller, pool, t) && Admissible(t, Remove(ch)) && ch.fd in poller.channels
    ensures poller.channels[ch.fd].events == {}
  {
  }

  lemma PolledTable(t: Table, slots: map<int, PollFd>, ready: map<int, nat>)
    requires slots.Keys == t.slots.Keys && forall fd :: fd in slots ==> slots[fd] == Repolled(t.slots[fd], ready)
    ensures slots == After(t, PollOnce(PollReady(ready))).slots
  {
    var polled := After(t, PollOnce(PollReady(ready))).slots;
    assert polled.Keys == t.slots.Keys;
    forall fd | fd in slots.Keys
      ensures fd in t.slots && slots[fd] == polled[fd]
    {
      assert fd in t.slots.Keys && fd in slots;
    }
  }

  method PerformPoll(poller: Poller, pool: seq<Channel>, answer: Answer, ghost t: Table)
    returns (reported: seq<set<int>>)
    requires Follows(poller, pool, t)
    modifies poller, pool
    ensures Follows(poller, pool, After(t, PollOnce(answer)))
    ensures reported == if answer != PollFails then [WatchedReady(t, answer.ready)] else []
  {
    hide Dense, SlotMap, Owner, Poller.Valid, Poller.Slots, Poller.AreActive;
    reported := [];
    OwnersInPool(poller, pool, t);
    var active, fatal := poller.Poll(answer);
    if !fatal {
      PolledTable(t, poller.Slots(), answer.ready);
      reported := [set channel | channel in active :: channel.fd];
      assert reported[0] == WatchedReady(t, answer.ready);
    }
  }

  lemma OwnersInPool(poller: Poller, pool: seq<Channel>, t: Table)
    requires Follows(poller, pool, t)
    ensures forall fd :: fd in poller.channels ==> poller.channels[fd] in pool
  {
    assert forall fd :: fd in poller.channels ==> fd in t.owner.Keys;
  }

  method Perform(poller: Poller, pool: seq<Channel>, op: Op, ghost t: Table) returns (reported: seq<set<int>>)
    requires Follows(poller, pool, t) && Admissible(t, op) && Fits(pool, op)
    modifies poller, pool
    ensures Follows(poller, pool, After(t, op))
    ensures reported == if op.PollOnce? && op.answer != PollFails then [WatchedReady(t, op.answer.ready)] else []
  {
    hide Follows, WatchedReady, After, Admissible;
    reported := [];
    match op
    case Update(ch, events) => PerformUpdate(poller, pool, ch, events, t);
    case Remove(ch) => PerformRemove(poller, pool, ch, t);
    case PollOnce(answer) => reported := PerformPoll(poller, pool, answer, t);
  }

  /** Any sequence of updates, removals and polls, with descriptors used again by new channels: the slots are those
      that the operations prescribe, no assert fails, and each poll reports exactly the descriptors that are
      watched and ready. */
  method RunPoller(poller: Poller, pool: seq<Channel>, ops: seq<Op>) returns (reported: seq<set<int>>)
    requires poller.Valid() && poller.channels == map[] && poller.Slots() == map[]
    requires Pool(pool) && forall i :: 0 <= i < |pool| ==> pool[i].index < 0
    requires IsRun(EMPTY, ops) && forall op :: op in ops ==> Fits(pool, op)
    modifies poller, pool
    ensures poller.Valid() && poller.Slots() == Run(EMPTY, ops).slots
    ensures reported == Reports(EMPTY, ops)
  {
    hide After, Admissible, WatchedReady, Follows, Fits, Poller.Valid, Poller.Slots;
    reported := [];
    ghost var t := EMPTY;
    NoneFollow(poller, pool);
    assert ops[0..] == ops;
    for i := 0 to |ops|
      invariant Follows(poller, pool, t) && IsRun(t, ops[i..])
      invariant Run(t, ops[i..]) == Run(EMPTY, ops)
      invariant reported + Reports(t, ops[i..]) == Reports(EMPTY, ops)
    {
      assert ops[i] in ops;
      assert ops[i..][0] == ops[i] && ops[i..][1..] == ops[i + 1..];
      var more := Perform(poller, pool, ops[i], t);
      assert (reported + more) + Reports(After(t, ops[i]), ops[i + 1..])
          == reported + (more + Reports(After(t, ops[i]), ops[i + 1..]));
      reported := reported + more;
      t := After(t, ops[i]);
    }
    assert ops[|ops|..] == [];
    FollowsMeans(poller, pool, t);
  }

  lemma NoneFollow(poller: Poller, pool: seq<Channel>)
    requires poller.Valid() && poller.channels == map[] && poller.Slots() == map[]
    requires Pool(pool) && forall i :: 0 <= i < |pool| ==> pool[i].index < 0
    ensures Follows(poller, pool, EMPTY)
  {
  }

  lemma FollowsMeans(poller: Poller, pool: seq<Channel>, t: Table)
    requires Follows(poller, pool, t)
    ensures poller.Valid() && poller.Slots() == t.slots
  {
  }
}
