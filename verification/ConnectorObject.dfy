/** The connector as an object (irono/net/Connector.cc), with what it leans on: a channel registered with a poller,
    timers of the loop, a queued functor, and descriptors that the kernel hands out again once they are
    closed. All of it goes through the states of the specification. */
module Connectors {
  import opened Options
  import opened Channels
  import opened EPollers
  import opened ConnectorSpec

  class Connector {
    const poller: EPoller
    var state: States
    var wanted: bool                    // connect_
    var channel: Channel?
    var retryDelayMs: nat
    var timerId: Option<TimerNumber>
    /** The loop: the timers that will fire, how many were ever armed, and the queued resetChannel functors. */
    var timers: set<TimerNumber>
    var armed: nat
    var resets: nat
    /** The kernel: open descriptors of sockets that this connector made. */
    var open: set<int>
    /** Which socket, in order of creation, a descriptor or the channel stands for, and the histories. */
    ghost var owner: map<int, nat>
    ghost var socket: nat
    ghost var created: nat
    ghost var closed: seq<nat>
    ghost var handed: seq<nat>
    ghost var delays: seq<nat>

    /** The channel is registered for writing, or it is done with. */
    predicate Watched()
      reads this`channel, channel
    {
      channel != null && channel.index == ADDED
    }

    ghost predicate ChannelValid()
      reads this`channel, this`resets, this`open, this`owner, this`socket
      reads poller, poller.channels.Values, channel
    {
      && poller.Valid()
      && (Watched() ==>
            && poller.Knows(channel) && channel.events == WRITE_EVENT
            && channel.fd in open && channel.fd in owner && owner[channel.fd] == socket)
      && (channel != null ==> channel.index == ADDED || channel.index == NEW)
      && resets <= 1
    }

    /** No descriptor leaks: each open one, but perhaps one that is about to be disposed of, was handed over or
        belongs to the attempt under way. */
    ghost predicate Accounted(except: set<int>)
      reads this`channel, this`open, this`owner, this`handed, channel
    {
      && open == owner.Keys
      && forall fd :: fd in open && fd !in except ==>
        owner[fd] in handed || (Watched() && fd == channel.fd)
    }

    ghost predicate Valid()
      reads this`channel, this`resets, this`open, this`owner, this`socket, this`handed
      reads poller, poller.channels.Values, channel
    {
      ChannelValid() && Accounted({})
    }

    ghost function Now(): View
      reads this, channel
    {
      View(state, wanted, if channel == null then Nothing else Socket(socket), Watched(), resets > 0,
           retryDelayMs, timers, timerId, armed, created, closed, handed, delays)
    }

    constructor (poller: EPoller)
      requires poller.Valid()
      ensures Valid() && Now() == START && this.poller == poller
    {
      this.poller := poller;
      state, wanted, channel, retryDelayMs := Disconnected, false, null, INIT_RETRY_DELAY_MS;
      timerId, timers, armed, resets := None, {}, 0, 0;
      open, owner, socket, created, closed, handed, delays := {}, map[], 0, 0, [], [], [];
    }

    /** What socket(2) may return: a descriptor that is not open, so no channel is registered for it. */
    predicate IsFree(fd: int)
      reads this`open, poller`channels
    {
      0 <= fd && fd !in open && fd !in poller.channels
    }

    /** The lowest one, as POSIX has it. */
    method FreeDescriptor() returns (fd: int)
      ensures IsFree(fd) && forall lower :: 0 <= lower < fd ==> !IsFree(lower)
    {
      var used := open + poller.channels.Keys;
      var left := used;
      fd := 0;
      while fd in left
        invariant 0 <= fd && left <= used && forall x :: x in used && x !in left ==> x < fd
        invariant forall lower :: 0 <= lower < fd ==> lower in used
        decreases |left|
      {
        left := left - {fd};
        fd := fd + 1;
      }
      assert fd !in used;
      assert forall x :: x in used <==> x in open || x in poller.channels;
    }

    /** sockets::close. A descriptor that is not open, or that has been handed over, is never closed. */
    method Close(fd: int)
      requires ChannelValid() && Accounted({fd}) && fd in open && !(Watched() && fd == channel.fd)
      modifies this`open, this`owner, this`closed
      ensures Valid() && Now() == old(Now()).(closed := old(closed) + [old(owner)[fd]])
      ensures open == old(open) - {fd}
    {
      closed := closed + [owner[fd]];
      open, owner := open - {fd}, owner - {fd};
    }

    method Retry(fd: int)
      requires ChannelValid() && Accounted({fd}) && fd in open && !(Watched() && fd == channel.fd)
      modifies this`open, this`owner, this`closed, this`state, this`retryDelayMs
      modifies this`timers, this`timerId, this`armed, this`delays
      ensures Valid() && Now() == AfterRetry(old(Now()), old(owner)[fd])
    {
      hide Valid, ChannelValid, Accounted, Watched, IsFree;
      Close(fd);
      TryLater();
    }

    method TryLater()
      requires Valid()
      modifies this`state, this`retryDelayMs, this`timers, this`timerId, this`armed, this`delays
      ensures Valid() && Now() == TriedLater(old(Now()))
    {
      hide Valid, ChannelValid, Accounted, Watched, IsFree;
      state := Disconnected;
      if wanted {
        RunAfter();
        retryDelayMs := Min(retryDelayMs * 2, MAX_RETRY_DELAY_MS);
      }
    }

    /** loop_->runAfter(retryDelayMs_), and its id is kept */
    method RunAfter()
      modifies this`timers, this`timerId, this`armed, this`delays
      ensures Now() == old(Now()).(
        pending := old(timers) + {old(armed)}, timerId := Some(old(armed)), armed := old(armed) + 1,
        delays := old(delays) + [retryDelayMs])
    {
      timers, timerId, armed := timers + {armed}, Some(armed), armed + 1;
      delays := delays + [retryDelayMs];
    }

    /** Asserts that there is no channel. */
    method BeginConnecting(fd: int)
      requires ChannelValid() && Accounted({fd}) && fd in open && fd !in poller.channels && channel == null
      modifies this`state, this`channel, this`socket, poller
      ensures Valid()
      ensures Now() == old(Now()).(state := Connecting, channel := Socket(old(owner)[fd]), watched := true)
      ensures channel != null && fresh(channel) && channel.fd == fd
    {
      state := Connecting;
      channel := new Channel(fd);
      socket := owner[fd];
      poller.Change(channel, EnableWriting);
      assert {} + WRITE_EVENT == WRITE_EVENT;
    }

    /** createNonblockingOrDie */
    method CreateSocket(fd: int)
      requires Valid() && IsFree(fd)
      modifies this`open, this`owner, this`created
      ensures ChannelValid() && Accounted({fd}) && fd in open && owner[fd] == old(created)
      ensures !(Watched() && fd == channel.fd)
      ensures Now() == old(Now()).(created := old(created) + 1)
    {
      open, owner := open + {fd}, owner[fd := created];
      created := created + 1;
    }

    method Connect(attempt: Attempt, fd: int)
      requires Valid() && IsFree(fd)
      requires attempt == UnderWay ==> channel == null
      modifies this, poller
      ensures Valid() && Now() == AfterConnect(old(Now()), attempt)
      ensures channel == old(channel) || fresh(channel)
    {
      hide ChannelValid, Accounted, AfterRetry;
      CreateSocket(fd);
      match attempt
      case UnderWay => BeginConnecting(fd);
      case Retryable => Retry(fd);
      case Hopeless => Close(fd);
    }

    method StartInLoop(attempt: Attempt, fd: int)
      requires Valid() && IsFree(fd) && state == Disconnected
      requires wanted && attempt == UnderWay ==> channel == null
      modifies this, poller
      ensures Valid() && Now() == AfterStartInLoop(old(Now()), attempt)
      ensures channel == old(channel) || fresh(channel)
    {
      if wanted {
        Connect(attempt, fd);
      }
    }

    method Start(attempt: Attempt, fd: int)
      requires Valid() && IsFree(fd) && AssertsHold(Now(), Step.Start(attempt))
      modifies this, poller
      ensures Valid() && Now() == Apply(old(Now()), Step.Start(attempt))
      ensures channel == old(channel) || fresh(channel)
    {
      wanted := true;
      StartInLoop(attempt, fd);
    }

    method TimerFires(timer: TimerNumber, attempt: Attempt, fd: int)
      requires Valid() && IsFree(fd) && timer in timers && AssertsHold(Now(), Step.TimerFires(timer, attempt))
      modifies this, poller
      ensures Valid() && Now() == Apply(old(Now()), Step.TimerFires(timer, attempt))
      ensures channel == old(channel) || fresh(channel)
    {
      timers := timers - {timer};
      StartInLoop(attempt, fd);
    }

    method Restart(attempt: Attempt, fd: int)
      requires Valid() && IsFree(fd) && AssertsHold(Now(), Step.Restart(attempt))
      modifies this, poller
      ensures Valid() && Now() == Apply(old(Now()), Step.Restart(attempt))
      ensures channel == old(channel) || fresh(channel)
    {
      hide ChannelValid, Accounted, AfterConnect;
      state := Disconnected;
      retryDelayMs := INIT_RETRY_DELAY_MS;
      delays := [];
      wanted := true;
      StartInLoop(attempt, fd);
    }

    /** cancel(timerId_) */
    method Stop()
      requires Valid()
      modifies this`wanted, this`timers
      ensures Valid() && Now() == Apply(old(Now()), Step.Stop)
    {
      wanted := false;
      if timerId.Some? {
        timers := timers - {timerId.value};
      }
    }

    /** The poller forgets the channel, which stays allocated until the queued functor runs. */
    method RemoveAndResetChannel() returns (fd: int)
      requires Valid() && Watched() && resets == 0
      modifies this`resets, poller, channel
      ensures ChannelValid() && Accounted({fd}) && !Watched()
      ensures fd == channel.fd && fd in open && owner[fd] == socket && fd !in poller.channels
      ensures Now() == old(Now()).(watched := false, resetQueued := true)
    {
      poller.Change(channel, DisableAll);
      poller.RemoveChannel(channel);
      fd := channel.fd;
      resets := resets + 1;
    }

    method ResetChannel()
      requires Valid() && resets == 1 && !Watched()
      modifies this`channel, this`resets
      ensures Valid() && Now() == Apply(old(Now()), Step.ResetChannel) && channel == null
    {
      channel := null;
      resets := resets - 1;
    }

    method HandleError()
      requires Valid() && state == Connecting && Watched() && resets == 0
      modifies this, poller, channel
      ensures Valid() && Now() == AfterHandleError(old(Now())) && channel == old(channel)
    {
      var fd := RemoveAndResetChannel();
      Retry(fd);
    }

    method HandleWrite(verdict: Verdict)
      requires Valid() && (state == Connecting ==> Watched() && resets == 0)
      requires state != Connecting ==> state == Disconnected
      modifies this, poller, channel
      ensures Valid() && Now() == AfterHandleWrite(old(Now()), verdict) && channel == old(channel)
    {
      hide ChannelValid;
      if state == Connecting {
        var fd := RemoveAndResetChannel();
        if verdict == Refused {
          Retry(fd);
        } else if verdict == SelfConnected {
          Retry(fd);
        } else {
          state := Connected;
          if wanted {
            handed := handed + [owner[fd]];
          } else {
            Close(fd);
          }
        }
      }
    }

    /** Channel::handleEvent on the connecting socket */
    method Ready(error: bool, writable: bool, verdict: Verdict)
      requires Valid() && Watched() && resets == 0
      requires AssertsHold(Now(), Step.Ready(error, writable, verdict))
      modifies this, poller, channel
      ensures Valid() && Now() == Apply(old(Now()), Step.Ready(error, writable, verdict)) && channel == old(channel)
    {
      if error {
        HandleError();
      }
      if writable {
        HandleWrite(verdict);
      }
    }
  }

  /** One step of the loop or the owner, on the object. */
  method Perform(connector: Connector, step: Step)
    requires connector.Valid() && Inv(connector.Now())
    requires Enabled(connector.Now(), step) && Orderly(connector.Now(), step)
    modifies connector, connector.poller, connector.channel
    ensures connector.Valid() && connector.Now() == Apply(old(connector.Now()), step)
    ensures connector.channel == old(connector.channel) || connector.channel == null || fresh(connector.channel)
  {
    hide EachOnce, BacksOff;
    StepKeepsInv(connector.Now(), step);
    var fd := connector.FreeDescriptor();
    match step
    case Start(attempt) => connector.Start(attempt, fd);
    case TimerFires(timer, attempt) => connector.TimerFires(timer, attempt, fd);
    case Restart(attempt) => connector.Restart(attempt, fd);
    case Stop => connector.Stop();
    case Ready(error, writable, verdict) => connector.Ready(error, writable, verdict);
    case ResetChannel => connector.ResetChannel();
  }

  /** Any orderly run of the object is the run of the specification, so EveryRun speaks about it; and with no
      attempt under way, the descriptors still open are those handed over. */
  method RunConnector(connector: Connector, steps: seq<Step>)
    requires connector.Valid() && connector.Now() == START && OrderlyRun(START, steps)
    modifies connector, connector.poller, connector.channel
    ensures connector.Valid() && connector.Now() == ConnectorSpec.Run(START, steps)
    ensures connector.state != Connecting ==>
      forall fd :: fd in connector.open ==> connector.owner[fd] in connector.handed
  {
    hide Inv, Apply, Orderly, Enabled;
    StartIsOk();
    assert steps[0..] == steps;
    for i := 0 to |steps|
      invariant connector.Valid() && Inv(connector.Now())
      invariant OrderlyRun(connector.Now(), steps[i..])
      invariant ConnectorSpec.Run(connector.Now(), steps[i..]) == ConnectorSpec.Run(START, steps)
      invariant connector.channel == old(connector.channel) || connector.channel == null || fresh(connector.channel)
    {
      assert steps[i..][0] == steps[i] && steps[i..][1..] == steps[i + 1..];
      StepKeepsInv(connector.Now(), steps[i]);
      Perform(connector, steps[i]);
    }
    NotWatched(connector.Now());
  }

  lemma NotWatched(v: View)
    requires Inv(v)
    ensures v.state != Connecting ==> !v.watched
  {
  }
}
