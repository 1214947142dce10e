/** The output and input paths of irono/net/TcpConnection.cc, as seen by callers on the loop thread.
    The kernel is a parameter: what write(2) and readv(2) answered. */
module Connections {
  import opened Buffers
  import opened Codec
  import opened ConnectionStates

  /** write(2): an errno, or how many bytes the kernel took. */
  datatype WriteResult = WriteError | Wrote(n: nat)

  predicate Possible(r: WriteResult, len: nat) {
    r.Wrote? ==> r.n <= len
  }

  function Taken(r: WriteResult): nat {
    if r.Wrote? then r.n else 0
  }

  /** What a connection's output path amounts to. `wire` is what the kernel took, `fins` counts
      shutdownWrite calls and `accepted` is the history of all bytes send() did not refuse. */
  datatype Output = Output(
    state: State, writing: bool, buffered: seq<Byte>,
    wire: seq<Byte>, fins: nat, accepted: seq<Byte>)

  function AfterSend(o: Output, message: seq<Byte>, r: WriteResult): Output
    requires Possible(r, |message|)
  {
    if o.state != Connected then
      o
    else if !o.writing && o.buffered == [] then
      o.(wire := o.wire + message[..Taken(r)],
      buffered := message[Taken(r)..],
      writing := Taken(r) < |message|,
      accepted := o.accepted + message)
    else
      o.(buffered := o.buffered + message,
      writing := o.writing || message != [],
      accepted := o.accepted + message)
  }

  function AfterShutdownInLoop(o: Output): Output {
    if o.writing then o else o.(fins := o.fins + 1)
  }

  function AfterShutdown(o: Output): Output {
    if o.state == Connected then AfterShutdownInLoop(o.(state := Disconnecting)) else o
  }

  function AfterWritable(o: Output, r: WriteResult): Output
    requires Possible(r, |o.buffered|)
  {
    if !o.writing || Taken(r) == 0 then
      o
    else
      var o' := o.(wire := o.wire + o.buffered[..r.n], buffered := o.buffered[r.n..]);
      if o'.buffered != [] then o'
      else
        var idle := o'.(writing := false);
        if idle.state == Disconnecting then AfterShutdownInLoop(idle) else idle
  }

  /** What the connection calls: its user's connection callback, its owner's close callback, and
      EventLoop::removeChannel. */
  datatype Call = ConnectionCallback | CloseCallback | RemoveChannel

  /** The channel mask: POLLIN | POLLPRI, and POLLOUT. */
  datatype Mask = Mask(reading: bool, writing: bool)

  class TcpConnection {
    var state: State
    var mask: Mask
    var wire: seq<Byte>
    var fins: nat
    ghost var calls: seq<Call>
    ghost var accepted: seq<Byte>
    const outputBuffer: Buffer
    const inputBuffer: Buffer

    ghost predicate Valid()
      reads this, outputBuffer, inputBuffer
    {
      outputBuffer.Valid() && inputBuffer.Valid() && outputBuffer.Repr() !! inputBuffer.Repr()
    }

    ghost function Repr(): set<object>
      reads this, outputBuffer, inputBuffer
    {
      {this} + outputBuffer.Repr() + inputBuffer.Repr()
    }

    ghost function View(): Output
      requires Valid()
      reads this, outputBuffer, inputBuffer, outputBuffer.store, inputBuffer.store
    {
      Output(state, mask.writing, outputBuffer.Contents(), wire, fins, accepted)
    }

    ghost function Input(): seq<Byte>
      requires Valid()
      reads this, outputBuffer, inputBuffer, outputBuffer.store, inputBuffer.store
    {
      inputBuffer.Contents()
    }

    constructor ()
      ensures Valid() && fresh(Repr())
      ensures View() == Output(Connecting, false, [], [], 0, []) && Input() == [] && !mask.reading && calls == []
    {
      state, mask, wire, fins, calls, accepted := Connecting, Mask(false, false), [], 0, [], [];
      outputBuffer := new Buffer();
      inputBuffer := new Buffer();
    }

    method ConnectEstablished()
      requires Valid() && state == Connecting
      modifies this`state, this`mask, this`calls
      ensures Valid() && Input() == old(Input()) && mask.reading
      ensures View() == old(View()).(state := Connected)
      ensures calls == old(calls) + [ConnectionCallback]
    {
      state := Connected;
      mask := mask.(reading := true);
      calls := calls + [ConnectionCallback];
    }

    /** `send` on the loop thread. */
    method Send(message: seq<Byte>, r: WriteResult)
      requires Valid() && Possible(r, |message|)
      modifies Repr()
      ensures Valid() && fresh(Repr() - old(Repr())) && Input() == old(Input()) && calls == old(calls)
      ensures View() == AfterSend(old(View()), message, r)
      ensures |wire| == |old(wire)| +
        if old(state == Connected && !mask.writing && outputBuffer.ReadableBytes() == 0) && r.Wrote? then r.n else 0
    {
      if state == Connected {
        SendInLoop(message, r);
      }
    }

    method SendInLoop(message: seq<Byte>, r: WriteResult)
      requires Valid() && Possible(r, |message|) && state == Connected
      modifies Repr()
      ensures Valid() && fresh(Repr() - old(Repr())) && Input() == old(Input()) && calls == old(calls)
      ensures View() == AfterSend(old(View()), message, r)
      ensures |wire| == |old(wire)| +
        if old(!mask.writing && outputBuffer.ReadableBytes() == 0) && r.Wrote? then r.n else 0
    {
      var nwrote := 0;
      if !mask.writing && outputBuffer.ReadableBytes() == 0 {
        nwrote := if r.Wrote? then r.n else 0;
        wire := wire + message[..nwrote];
      }
      accepted := accepted + message;
      assert View().buffered == old(View()).buffered;
      if nwrote < |message| {
        KeepForLater(message[nwrote..]);
      }
    }

    method KeepForLater(rest: seq<Byte>)
      requires Valid()
      modifies Repr()
      ensures Valid() && fresh(Repr() - old(Repr())) && Input() == old(Input()) && calls == old(calls)
      ensures View() == old(View()).(buffered := old(View()).buffered + rest, writing := true)
    {
      outputBuffer.Append(rest);
      if !mask.writing {
        mask := mask.(writing := true);
      }
    }

    method Shutdown()
      requires Valid()
      modifies this`state, this`fins
      ensures Valid() && Input() == old(Input())
      ensures View() == AfterShutdown(old(View()))
    {
      if state == Connected {
        state := Disconnecting;
        ShutdownInLoop();
      }
    }

    method ShutdownInLoop()
      requires Valid()
      modifies this`fins
      ensures Valid() && Input() == old(Input())
      ensures View() == AfterShutdownInLoop(old(View()))
    {
      if !mask.writing {
        fins := fins + 1;
      }
    }

    method HandleWrite(r: WriteResult)
      requires Valid() && Possible(r, outputBuffer.ReadableBytes())
      modifies this, outputBuffer
      ensures Valid() && Repr() == old(Repr()) && Input() == old(Input()) && calls == old(calls)
      ensures View() == AfterWritable(old(View()), r)
      ensures |wire| == |old(wire)| + if old(mask.writing) && r.Wrote? then r.n else 0
    {
      if mask.writing {
        if r.Wrote? && r.n > 0 {
          var bytes := outputBuffer.Peek(r.n);
          wire := wire + bytes;
          outputBuffer.Retrieve(r.n);
          if outputBuffer.ReadableBytes() == 0 {
            mask := mask.(writing := false);
            if state == Disconnecting {
              ShutdownInLoop();
            }
          }
        }
      }
    }

    /** `handleRead` with the codec as message callback. An invalid length makes the codec shut the
        connection down; end of file closes it. `closed` is whether the close callback ran. */
    method HandleRead(result: ReadResult) returns (delivered: seq<Message>, closed: bool)
      requires Valid()
      requires result.ReadBytes? ==> |result.bytes| <= inputBuffer.WritableBytes() + EXTRA_BUF
      requires result == ReadBytes([]) ==> state == Connected || state == Disconnecting
      modifies Repr()
      ensures Valid() && fresh(Repr() - old(Repr()))
      ensures closed <==> result == ReadBytes([])
      ensures calls == old(calls) + if closed then [CloseCallback] else []
      ensures result.ReadError? || closed ==> delivered == [] && Input() == old(Input())
      ensures closed ==> mask == Mask(false, false) && View() == old(View()).(writing := false)
      ensures result.ReadError? ==> View() == old(View())
      ensures result.ReadBytes? && !closed ==>
        exists invalid: bool ::
          && Decode(old(Input()) + result.bytes) == Decoded(delivered, Input(), invalid)
          && View() == if invalid then AfterShutdown(old(View())) else old(View())
    {
      delivered, closed := [], false;
      var n := inputBuffer.ReadFd(result);
      if n > 0 {
        var invalid;
        delivered, invalid := OnMessage(inputBuffer);
        if invalid {
          Shutdown();
        }
        assert Decode(old(Input()) + result.bytes) == Decoded(delivered, Input(), invalid);
      } else if n == 0 {
        assert Input() == old(Input());
        HandleClose();
        closed := true;
      }
    }

    method HandleClose()
      requires Valid() && (state == Connected || state == Disconnecting)
      modifies this`mask, this`calls
      ensures Valid() && Input() == old(Input())
      ensures mask == Mask(false, false) && View() == old(View()).(writing := false)
      ensures calls == old(calls) + [CloseCallback]
    {
      mask := Mask(false, false);
      calls := calls + [CloseCallback];
    }

    method ConnectDestroyed()
      requires Valid() && (state == Connected || state == Disconnecting)
      modifies this`mask, this`state, this`calls
      ensures Valid() && Input() == old(Input())
      ensures mask == Mask(false, false) && View() == old(View()).(state := Disconnected, writing := false)
      ensures calls == old(calls) + [ConnectionCallback, RemoveChannel]
    {
      state := Disconnected;
      mask := Mask(false, false);
      calls := calls + [ConnectionCallback];
      calls := calls + [RemoveChannel];
    }
  }

  // ---- every run of in-loop calls, up to the close ----

  datatype Event = Send(message: seq<Byte>, r: WriteResult) | Writable(r: WriteResult) | Shutdown

  predicate Enabled(o: Output, e: Event) {
    match e
    case Send(m, r) => Possible(r, |m|)
    case Writable(r) => Possible(r, |o.buffered|)
    case Shutdown => true
  }

  function Apply(o: Output, e: Event): Output
    requires Enabled(o, e)
  {
    match e
    case Send(m, r) => AfterSend(o, m, r)
    case Writable(r) => AfterWritable(o, r)
    case Shutdown => AfterShutdown(o)
  }

  predicate IsRun(o: Output, events: seq<Event>)
    decreases |events|
  {
    events == [] || (Enabled(o, events[0]) && IsRun(Apply(o, events[0]), events[1..]))
  }

  function Run(o: Output, events: seq<Event>): Output
    requires IsRun(o, events)
    decreases |events|
  {
    if events == [] then o else Run(Apply(o, events[0]), events[1..])
  }

  /** A connection just after connectEstablished. */
  const ESTABLISHED := Output(Connected, false, [], [], 0, [])

  /** Writing interest is on exactly when bytes are waiting; nothing accepted is lost, repeated or
      reordered; and the write side is shut down exactly when a shutdown was asked for and every
      accepted byte has been taken by the kernel. */
  predicate OutputInv(o: Output) {
    && (o.writing <==> o.buffered != [])
    && o.wire + o.buffered == o.accepted
    && (o.state == Connected || o.state == Disconnecting)
    && o.fins == (if o.state == Disconnecting && o.buffered == [] then 1 else 0)
  }

  lemma ApplyKeepsOutputInv(o: Output, e: Event)
    requires OutputInv(o) && Enabled(o, e)
    ensures OutputInv(Apply(o, e))
    ensures o.wire <= Apply(o, e).wire && o.accepted <= Apply(o, e).accepted
    ensures o.state == Disconnecting ==> Apply(o, e).state == Disconnecting && Apply(o, e).accepted == o.accepted
    ensures o.fins == 1 ==> Apply(o, e) == o
  {
    match e
    case Send(m, r) =>
      assert message: m[..Taken(r)] + m[Taken(r)..] == m;
      assert (o.wire + m[..Taken(r)]) + m[Taken(r)..] == o.wire + m;
      assert (o.wire + o.buffered) + m == o.wire + (o.buffered + m);
    case Writable(r) =>
      assert (o.wire + o.buffered[..Taken(r)]) + o.buffered[Taken(r)..] == o.wire + o.buffered;
    case Shutdown =>
  }

  /** Over every run: the invariant, a wire that only grows, and half-close ordering: once the write
      side is shut down it holds every accepted byte and neither changes again. */
  lemma {:induction false} RunsKeepOutputInv(o: Output, events: seq<Event>)
    requires OutputInv(o) && IsRun(o, events)
    ensures OutputInv(Run(o, events))
    ensures o.wire <= Run(o, events).wire
    ensures o.fins == 1 ==> Run(o, events) == o
    decreases |events|
  {
    if events == [] {
    } else {
      ApplyKeepsOutputInv(o, events[0]);
      RunsKeepOutputInv(Apply(o, events[0]), events[1..]);
    }
  }

  /** The bytes of the messages sent before the first shutdown of a run. */
  function SentBeforeShutdown(events: seq<Event>): seq<Byte> {
    if events == [] || events[0] == Shutdown then []
    else (if events[0].Send? then events[0].message else []) + SentBeforeShutdown(events[1..])
  }

  lemma AcceptedByOne(o: Output, e: Event)
    requires Enabled(o, e)
    ensures Apply(o, e).accepted == o.accepted + (if e.Send? && o.state == Connected then e.message else [])
    ensures Apply(o, e).state == (if e == Shutdown && o.state == Connected then Disconnecting else o.state)
  {
    assert o.accepted + [] == o.accepted;
  }

  lemma SentFirst(e: Event, more: seq<Event>)
    ensures SentBeforeShutdown([e] + more) ==
      if e == Shutdown then [] else (if e.Send? then e.message else []) + SentBeforeShutdown(more)
  {
    assert ([e] + more)[1..] == more;
  }

  /** What a connection accepted and whether it was shut down, read off the calls alone. */
  lemma {:induction false} AcceptedIsSentBeforeShutdown(o: Output, events: seq<Event>)
    requires IsRun(o, events) && (o.state == Connected || o.state == Disconnecting)
    ensures var sent := if o.state == Connected then SentBeforeShutdown(events) else [];
      Run(o, events).accepted == o.accepted + sent
    ensures Run(o, events).state == Disconnecting <==> o.state == Disconnecting || Shutdown in events
    decreases |events|
  {
    hide Apply, Enabled, SentBeforeShutdown;
    if events == [] {
      assert o.accepted + [] == o.accepted;
      NothingSent();
    } else {
      var e, more := events[0], events[1..];
      AcceptedByOne(o, e);
      AcceptedIsSentBeforeShutdown(Apply(o, e), more);
      assert events == [e] + more;
      SentFirst(e, more);
      assert o.accepted + [] == o.accepted;
      if o.state == Connected && e != Shutdown {
        Assoc(o.accepted, if e.Send? then e.message else [], SentBeforeShutdown(more));
      }
    }
  }

  lemma NothingSent()
    ensures SentBeforeShutdown([]) == []
  {
  }

  lemma Assoc(a: seq<Byte>, b: seq<Byte>, c: seq<Byte>)
    ensures (a + b) + c == a + (b + c)
  {
  }

  /** Half-close ordering, stated on the calls: the write side is shut down at most once, and if it
      is, then shutdown was called and exactly the bytes sent before it are on the wire. */
  lemma HalfClose(events: seq<Event>)
    requires IsRun(ESTABLISHED, events)
    ensures var o := Run(ESTABLISHED, events);
      && o.fins <= 1
      && (o.fins == 1 <==> Shutdown in events && o.wire == SentBeforeShutdown(events))
      && o.wire <= SentBeforeShutdown(events)
  {
    RunsKeepOutputInv(ESTABLISHED, events);
    AcceptedIsSentBeforeShutdown(ESTABLISHED, events);
    var o := Run(ESTABLISHED, events);
    assert ESTABLISHED.accepted + SentBeforeShutdown(events) == SentBeforeShutdown(events);
    if o.wire == SentBeforeShutdown(events) {
      assert |o.buffered| == 0;
    }
  }

  // ---- every byte's place, read off the calls and the kernel's answers alone ----

  /** How many bytes the kernel takes during a run, when `waiting` are buffered at its start: a send is written at
      once if nothing waits, and what waits is written when the socket is writable. */
  function TakenDuring(waiting: int, shut: bool, events: seq<Event>): int
    decreases |events|
  {
    if events == [] then 0
    else
      var e, more := events[0], events[1..];
      if e == Shutdown then TakenDuring(waiting, true, more)
      else if e.Send? && shut then TakenDuring(waiting, shut, more)
      else if e.Send? && waiting != 0 then TakenDuring(waiting + |e.message|, shut, more)
      else if e.Writable? && waiting == 0 then TakenDuring(waiting, shut, more)
      else
        var n := if e.r.Wrote? then e.r.n else 0;
        n + TakenDuring((if e.Send? then |e.message| else waiting) - n, shut, more)
  }

  lemma TakenByOne(o: Output, e: Event, more: seq<Event>)
    requires OutputInv(o) && Enabled(o, e)
    ensures var o' := Apply(o, e);
      TakenDuring(|o.buffered|, o.state != Connected, [e] + more) ==
        |o'.wire| - |o.wire| + TakenDuring(|o'.buffered|, o'.state != Connected, more)
  {
    assert ([e] + more)[1..] == more;
  }

  lemma {:induction false} WireGrowsByTaken(o: Output, events: seq<Event>)
    requires OutputInv(o) && IsRun(o, events)
    ensures |Run(o, events).wire| == |o.wire| + TakenDuring(|o.buffered|, o.state != Connected, events)
    decreases |events|
  {
    hide Apply, Enabled, OutputInv, TakenDuring;
    if events == [] {
      NothingTaken(|o.buffered|, o.state != Connected);
    } else {
      ApplyKeepsOutputInv(o, events[0]);
      TakenByOne(o, events[0], events[1..]);
      assert events == [events[0]] + events[1..];
      WireGrowsByTaken(Apply(o, events[0]), events[1..]);
    }
  }

  lemma NothingTaken(waiting: int, shut: bool)
    ensures TakenDuring(waiting, shut, []) == 0
  {
  }

  /** The whole output path, read off the calls and the answers of write(2): what was sent before the shutdown is cut
      where the kernel's answers put the cut, and the rest determines buffer, interest and half-close. */
  lemma OutputOfCalls(events: seq<Event>)
    requires IsRun(ESTABLISHED, events)
    ensures var sent, n, shut := SentBeforeShutdown(events), TakenDuring(0, false, events), Shutdown in events;
      && 0 <= n <= |sent|
      && Run(ESTABLISHED, events) == Output(
           if shut then Disconnecting else Connected, n < |sent|, sent[n..],
           sent[..n], if shut && n == |sent| then 1 else 0, sent)
  {
    hide SentBeforeShutdown, TakenDuring;
    var o := Run(ESTABLISHED, events);
    RunsKeepOutputInv(ESTABLISHED, events);
    AcceptedIsSentBeforeShutdown(ESTABLISHED, events);
    WireGrowsByTaken(ESTABLISHED, events);
    var sent := SentBeforeShutdown(events);
    assert o.accepted == [] + sent == sent;
    assert o.wire == sent[..|o.wire|] && o.buffered == sent[|o.wire|..];
  }
}
