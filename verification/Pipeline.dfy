/** Two connected peers end to end: codec, output buffer with partial writes, the kernel as a byte
    FIFO, scattered reads into the input buffer, and the incremental decoder. */
module Pipeline {
  import opened Buffers
  import opened Codec
  import opened Connections
  import opened ConnectionStates

  /** `sent` are the messages the sender's connection accepted; the receiver has taken the first
      `taken` bytes off the wire, keeps `input` undecoded and has delivered `delivered`. */
  datatype Pipe = Pipe(
    out: Output, sent: seq<Message>,
    taken: nat, input: seq<Byte>, delivered: seq<Message>, invalid: bool)

  const START := Pipe(ESTABLISHED, [], 0, [], [], false)

  datatype Step =
    | SendMessage(message: Message, r: WriteResult)
    | Writable(r: WriteResult)
    | ShutDown
    | Readable(n: nat)

  predicate Enabled(p: Pipe, s: Step) {
    match s
    case SendMessage(m, r) => Possible(r, |Frame(m)|)
    case Writable(r) => Possible(r, |p.out.buffered|)
    case ShutDown => true
    case Readable(n) => p.taken + n <= |p.out.wire|
  }

  function Apply(p: Pipe, s: Step): Pipe
    requires Enabled(p, s)
  {
    match s
    case SendMessage(m, r) =>
      p.(out := AfterSend(p.out, Frame(m), r), sent := if p.out.state == Connected then p.sent + [m] else p.sent)
    case Writable(r) => p.(out := AfterWritable(p.out, r))
    case ShutDown => p.(out := AfterShutdown(p.out))
    case Readable(n) =>
      var d := Decode(p.input + p.out.wire[p.taken..p.taken + n]);
      p.(taken := p.taken + n, input := d.rest, delivered := p.delivered + d.messages, invalid := d.invalid)
  }

  predicate IsRun(p: Pipe, steps: seq<Step>)
    decreases |steps|
  {
    steps == [] || (Enabled(p, steps[0]) && IsRun(Apply(p, steps[0]), steps[1..]))
  }

  function Run(p: Pipe, steps: seq<Step>): Pipe
    requires IsRun(p, steps)
    decreases |steps|
  {
    if steps == [] then p else Run(Apply(p, steps[0]), steps[1..])
  }

  predicate PipeInv(p: Pipe) {
    && OutputInv(p.out)
    && p.out.accepted == EncodeAll(p.sent)
    && p.taken <= |p.out.wire|
    && Decode(p.out.wire[..p.taken]) == Decoded(p.delivered, p.input, p.invalid)
  }

  lemma {:induction false} EncodeAllAppend(messages: seq<Message>, m: Message)
    ensures EncodeAll(messages + [m]) == EncodeAll(messages) + Frame(m)
    decreases |messages|
  {
    hide Frame;
    if messages == [] {
      assert [m][1..] == [];
      assert EncodeAll([m]) == Frame(m);
      assert messages + [m] == [m];
    } else {
      EncodeAllAppend(messages[1..], m);
      assert (messages + [m])[1..] == messages[1..] + [m];
    }
  }

  /** The wire only grows, so what was decoded from its prefix still is. */
  lemma WireGrows(p: Pipe, e: Event)
    requires PipeInv(p) && Connections.Enabled(p.out, e)
    ensures var o := Connections.Apply(p.out, e);
      OutputInv(o) && p.taken <= |o.wire| && o.wire[..p.taken] == p.out.wire[..p.taken]
  {
    hide Decode, AfterSend, AfterWritable, AfterShutdown;
    ApplyKeepsOutputInv(p.out, e);
  }

  lemma ApplyKeepsPipeInv(p: Pipe, s: Step)
    requires PipeInv(p) && Enabled(p, s)
    ensures PipeInv(Apply(p, s))
  {
    hide Decode, AfterSend, AfterWritable, AfterShutdown, Frame, OutputInv;
    match s
    case SendMessage(m, r) =>
      WireGrows(p, Send(Frame(m), r));
      AcceptedByOne(p.out, Send(Frame(m), r));
      EncodeAllAppend(p.sent, m);
      assert p.out.accepted + [] == p.out.accepted;
    case Writable(r) =>
      WireGrows(p, Event.Writable(r));
      AcceptedByOne(p.out, Event.Writable(r));
      assert p.out.accepted + [] == p.out.accepted;
    case ShutDown =>
      WireGrows(p, Shutdown);
      AcceptedByOne(p.out, Shutdown);
      assert p.out.accepted + [] == p.out.accepted;
    case Readable(n) =>
      var old', chunk := p.out.wire[..p.taken], p.out.wire[p.taken..p.taken + n];
      DecodeSplit(old', chunk);
      assert old' + chunk == p.out.wire[..p.taken + n];
  }

  lemma {:induction false} RunsKeepPipeInv(p: Pipe, steps: seq<Step>)
    requires PipeInv(p) && IsRun(p, steps)
    ensures PipeInv(Run(p, steps))
    decreases |steps|
  {
    hide Apply, Enabled, PipeInv;
    if steps == [] {
    } else {
      ApplyKeepsPipeInv(p, steps[0]);
      RunsKeepPipeInv(Apply(p, steps[0]), steps[1..]);
    }
  }

  predicate Pumped(p: Pipe) {
    p.out.buffered == [] && p.taken == |p.out.wire|
  }

  lemma Conserved(p: Pipe)
    requires PipeInv(p)
    ensures p.taken <= |p.out.wire|
    ensures EncodeAll(p.sent) == p.out.wire[..p.taken] + (p.out.wire[p.taken..] + p.out.buffered)
    ensures p.out.buffered != [] ==> p.out.writing
  {
    hide Decode, EncodeAll;
    assert p.out.wire == p.out.wire[..p.taken] + p.out.wire[p.taken..];
  }

  lemma InvDelivers(p: Pipe)
    requires PipeInv(p)
    ensures AllFit(p.sent) ==> p.delivered <= p.sent && !p.invalid
    ensures Pumped(p) ==> (p.delivered == p.sent && p.input == [] && !p.invalid <==> AllFit(p.sent))
  {
    hide Decode, EncodeAll, OutputInv;
    Conserved(p);
    var arrived, missing := p.out.wire[..p.taken], p.out.wire[p.taken..] + p.out.buffered;
    if AllFit(p.sent) {
      PrefixDelivery(p.sent, arrived, missing);
    }
    if Pumped(p) {
      assert arrived + missing == arrived;
      RoundTrip(p.sent);
    }
  }

  // ---- what was sent and read, by the steps alone ----

  /** The messages handed to the sender before it is shut down. */
  function Requested(steps: seq<Step>): seq<Message> {
    if steps == [] || steps[0] == ShutDown then []
    else (if steps[0].SendMessage? then [steps[0].message] else []) + Requested(steps[1..])
  }

  function BytesRead(steps: seq<Step>): nat {
    if steps == [] then 0 else (if steps[0].Readable? then steps[0].n else 0) + BytesRead(steps[1..])
  }

  lemma RequestedFirst(s: Step, more: seq<Step>)
    ensures Requested([]) == []
    ensures Requested([s] + more) ==
      if s == ShutDown then [] else (if s.SendMessage? then [s.message] else []) + Requested(more)
  {
    assert ([s] + more)[1..] == more;
  }

  lemma Assoc(a: seq<Message>, b: seq<Message>, c: seq<Message>)
    ensures (a + b) + c == a + (b + c) && a + [] == a
  {
  }

  function EventOf(s: Step): Event
    requires !s.Readable?
  {
    match s
    case SendMessage(m, r) => Send(Frame(m), r)
    case Writable(r) => Event.Writable(r)
    case ShutDown => Shutdown
  }

  /** What happens at the sender's connection. */
  function SenderEvents(steps: seq<Step>): seq<Event> {
    if steps == [] then []
    else (if steps[0].Readable? then [] else [EventOf(steps[0])]) + SenderEvents(steps[1..])
  }

  lemma {:induction false} SenderRuns(p: Pipe, steps: seq<Step>)
    requires IsRun(p, steps)
    ensures Connections.IsRun(p.out, SenderEvents(steps))
    ensures Run(p, steps).out == Connections.Run(p.out, SenderEvents(steps))
    ensures Run(p, steps).taken == p.taken + BytesRead(steps)
    decreases |steps|
  {
    hide Frame, Decode, AfterSend, AfterWritable, AfterShutdown;
    if steps == [] {
    } else {
      SenderRuns(Apply(p, steps[0]), steps[1..]);
      if !steps[0].Readable? {
        var events := SenderEvents(steps);
        assert events[0] == EventOf(steps[0]) && events[1..] == SenderEvents(steps[1..]);
      } else {
        assert SenderEvents(steps) == SenderEvents(steps[1..]);
      }
    }
  }

  lemma SentByOne(p: Pipe, s: Step)
    requires Enabled(p, s)
    ensures Apply(p, s).sent == p.sent + if s.SendMessage? && p.out.state == Connected then [s.message] else []
    ensures Apply(p, s).out.state == if s == ShutDown && p.out.state == Connected then Disconnecting else p.out.state
  {
    hide Frame, Decode;
  }

  lemma {:induction false} SentIsRequested(p: Pipe, steps: seq<Step>)
    requires IsRun(p, steps) && (p.out.state == Connected || p.out.state == Disconnecting)
    ensures Run(p, steps).sent == p.sent + if p.out.state == Connected then Requested(steps) else []
    decreases |steps|
  {
    hide Apply, Enabled, Requested;
    Assoc(p.sent, [], []);
    if steps == [] {
      RequestedFirst(ShutDown, []);
    } else {
      var s, more := steps[0], steps[1..];
      SentByOne(p, s);
      SentIsRequested(Apply(p, s), more);
      assert steps == [s] + more;
      RequestedFirst(s, more);
      Assoc(p.sent, if s.SendMessage? then [s.message] else [], Requested(more));
      Assoc(p.sent + if s.SendMessage? then [s.message] else [], [], []);
    }
  }

  /** End to end: under every schedule of partial or failed writes and every read chunking, what is
      delivered is a prefix of what was sent and no length is found invalid. Once all bytes are
      pumped, everything has been delivered and both buffers are empty; for that the limit on
      message length is necessary too. What was sent, written and read is what the steps ask for. */
  lemma EndToEnd(steps: seq<Step>)
    requires IsRun(START, steps)
    ensures var p := Run(START, steps);
      && p.sent == Requested(steps) && p.taken == BytesRead(steps)
      && |p.out.wire| == TakenDuring(0, false, SenderEvents(steps))
      && (AllFit(p.sent) ==> p.delivered <= p.sent && !p.invalid)
      && (Pumped(p) ==> (p.delivered == p.sent && p.input == [] && !p.invalid <==> AllFit(p.sent)))
  {
    RunsKeepPipeInv(START, steps);
    SenderRuns(START, steps);
    SentIsRequested(START, steps);
    hide Run;
    OutputOfCalls(SenderEvents(steps));
    InvDelivers(Run(START, steps));
  }

  /** From every reachable state the pipe can be pumped empty, one byte at a time if need be. */
  lemma {:induction false} CanBePumped(p: Pipe, k: nat) returns (steps: seq<Step>)
    requires PipeInv(p) && 0 < k
    ensures IsRun(p, steps) && Pumped(Run(p, steps)) && Run(p, steps).sent == p.sent
    decreases |p.out.buffered| + |p.out.accepted| - p.taken
  {
    hide Decode, OutputInv;
    Conserved(p);
    assert |p.out.accepted| == |p.out.wire| + |p.out.buffered|;
    if Pumped(p) {
      steps := [];
    } else {
      var s;
      if p.out.buffered != [] {
        s := Step.Writable(Wrote(if k <= |p.out.buffered| then k else |p.out.buffered|));
      } else {
        var left := |p.out.wire| - p.taken;
        s := Readable(if k <= left then k else left);
      }
      ApplyKeepsPipeInv(p, s);
      var more := CanBePumped(Apply(p, s), k);
      steps := [s] + more;
      assert steps[1..] == more;
    }
  }

  /** A read of nothing changes nothing. */
  lemma ReadNothing(p: Pipe)
    requires PipeInv(p)
    ensures Enabled(p, Readable(0)) && Apply(p, Readable(0)) == p
  {
    hide Decode;
    DecodeRestIsStuck(p.out.wire[..p.taken]);
    assert p.input + p.out.wire[p.taken..p.taken] == p.input;
    assert p.delivered + [] == p.delivered;
  }

  /** One event at the sending end */
  method PerformAtSender(sender: TcpConnection, s: Step, ghost p: Pipe)
    requires sender.Valid() && sender.View() == p.out && Enabled(p, s) && !s.Readable?
    modifies sender.Repr()
    ensures sender.Valid() && fresh(sender.Repr() - old(sender.Repr()))
    ensures sender.View() == Apply(p, s).out
  {
    hide AfterSend, AfterWritable, AfterShutdown;
    match s
    case SendMessage(m, r) =>
      var bytes := Codec.Send(m);
      sender.Send(bytes, r);
    case Writable(r) =>
      sender.HandleWrite(r);
    case ShutDown =>
      sender.Shutdown();
  }

  /** The two objects are in the state of the pipe. */
  ghost predicate Linked(sender: TcpConnection, receiver: TcpConnection, p: Pipe)
    reads sender, sender.outputBuffer, sender.inputBuffer, sender.outputBuffer.store, sender.inputBuffer.store
    reads receiver, receiver.outputBuffer, receiver.inputBuffer
    reads receiver.outputBuffer.store, receiver.inputBuffer.store
  {
    && sender.Valid() && receiver.Valid() && sender.Repr() !! receiver.Repr()
    && sender.View() == p.out && receiver.Input() == p.input
  }

  /** One event, on the objects themselves. The precondition is the size of the two iovecs of readv. */
  method Perform(sender: TcpConnection, receiver: TcpConnection, s: Step, taken: nat, ghost p: Pipe)
    returns (delivered: seq<Message>)
    requires Linked(sender, receiver, p) && taken == p.taken
    requires PipeInv(p) && Enabled(p, s)
    requires s.Readable? ==> s.n <= receiver.inputBuffer.WritableBytes() + EXTRA_BUF
    modifies sender.Repr(), receiver.Repr()
    ensures Linked(sender, receiver, Apply(p, s))
    ensures fresh(sender.Repr() - old(sender.Repr())) && fresh(receiver.Repr() - old(receiver.Repr()))
    ensures p.delivered + delivered == Apply(p, s).delivered
  {
    hide Decode, AfterSend, AfterWritable, AfterShutdown, PipeInv;
    delivered := [];
    if s == Readable(0) {
      ReadNothing(p);
      assert p.delivered + [] == p.delivered;
    } else if s.Readable? {
      var closed;
      delivered, closed := receiver.HandleRead(ReadBytes(sender.wire[taken..taken + s.n]));
    } else {
      PerformAtSender(sender, s, p);
    }
  }

  /** What the kernel makes of a read: no more than readv has room for, which is at least the overflow array. */
  predicate Narrowed(done: Step, asked: Step) {
    if asked.Readable? then done.Readable? && done.n <= asked.n && (asked.n <= EXTRA_BUF ==> done == asked)
    else done == asked
  }

  predicate AllNarrowed(done: seq<Step>, asked: seq<Step>) {
    |done| <= |asked| && forall i :: 0 <= i < |done| ==> Narrowed(done[i], asked[i])
  }

  lemma NoneNarrowed(asked: seq<Step>)
    ensures AllNarrowed([], asked)
  {
  }

  lemma OneMoreNarrowed(done: seq<Step>, asked: seq<Step>, s: Step)
    requires AllNarrowed(done, asked) && |done| < |asked| && Narrowed(s, asked[|done|])
    ensures AllNarrowed(done + [s], asked)
  {
  }

  /** Shorter reads leave the sender alone and the bytes on the wire. */
  predicate Behind(q: Pipe, p: Pipe) {
    q.out == p.out && q.taken <= p.taken && q.sent == p.sent
  }

  lemma StaysBehind(q: Pipe, p: Pipe, done: Step, asked: Step)
    requires Behind(q, p) && Enabled(p, asked) && Narrowed(done, asked)
    ensures Enabled(q, done) && Behind(Apply(q, done), Apply(p, asked))
    ensures Apply(q, done).taken == if done.Readable? then q.taken + done.n else q.taken
  {
    hide AfterSend, AfterWritable, AfterShutdown, Decode;
  }

  lemma {:induction false} OneMore(p: Pipe, steps: seq<Step>, s: Step)
    requires IsRun(p, steps) && Enabled(Run(p, steps), s)
    ensures IsRun(p, steps + [s]) && Run(p, steps + [s]) == Apply(Run(p, steps), s)
    decreases |steps|
  {
    hide Apply, Enabled;
    if steps == [] {
      assert (steps + [s])[1..] == [];
    } else {
      OneMore(Apply(p, steps[0]), steps[1..], s);
      assert (steps + [s])[1..] == steps[1..] + [s];
    }
  }

  lemma TakesStep(q: Pipe, p: Pipe, run: seq<Step>, done: Step, asked: Step)
    requires IsRun(START, run) && Run(START, run) == q && PipeInv(q)
    requires Behind(q, p) && Enabled(p, asked) && Narrowed(done, asked)
    ensures Enabled(q, done) && Behind(Apply(q, done), Apply(p, asked)) && PipeInv(Apply(q, done))
    ensures IsRun(START, run + [done]) && Run(START, run + [done]) == Apply(q, done)
    ensures Apply(q, done).taken == if done.Readable? then q.taken + done.n else q.taken
  {
    hide Apply, Enabled, PipeInv;
    StaysBehind(q, p, done, asked);
    ApplyKeepsPipeInv(q, done);
    OneMore(START, run, done);
  }

  lemma BehindItself(p: Pipe)
    ensures Behind(p, p)
  {
  }

  lemma BehindSent(q: Pipe, p: Pipe)
    requires Behind(q, p)
    ensures q.sent == p.sent
  {
  }

  lemma FirstOfRest(p: Pipe, steps: seq<Step>, i: nat)
    requires i < |steps| && IsRun(p, steps[i..])
    ensures Enabled(p, steps[i]) && IsRun(Apply(p, steps[i]), steps[i + 1..])
    ensures Run(p, steps[i..]) == Run(Apply(p, steps[i]), steps[i + 1..])
  {
    assert steps[i..][0] == steps[i] && steps[i..][1..] == steps[i + 1..];
  }

  lemma NothingYet(p: Pipe)
    ensures IsRun(p, []) && Run(p, []) == p
  {
  }

  lemma ReprAllocated(c: TcpConnection)
    ensures forall o :: o in c.Repr() ==> allocated(o)
  {
  }

  lemma StartInv()
    ensures PipeInv(START)
  {
  }

  /** One event of a schedule. */
  method ExchangeOne(sender: TcpConnection, receiver: TcpConnection, asked: Step, taken: nat,
                     ghost q: Pipe, ghost p: Pipe, ghost run: seq<Step>)
    returns (s: Step, more: seq<Message>, taken': nat)
    requires Linked(sender, receiver, q) && PipeInv(q) && taken == q.taken
    requires Behind(q, p) && Enabled(p, asked) && IsRun(START, run) && Run(START, run) == q
    modifies sender.Repr(), receiver.Repr()
    ensures Narrowed(s, asked) && Enabled(q, s)
    ensures Linked(sender, receiver, Apply(q, s)) && PipeInv(Apply(q, s)) && taken' == Apply(q, s).taken
    ensures Behind(Apply(q, s), Apply(p, asked))
    ensures IsRun(START, run + [s]) && Run(START, run + [s]) == Apply(q, s)
    ensures q.delivered + more == Apply(q, s).delivered
    ensures fresh(sender.Repr() - old(sender.Repr())) && fresh(receiver.Repr() - old(receiver.Repr()))
  {
    hide Apply, Enabled, PipeInv, Narrowed, Behind, Linked, IsRun, Run;
    LinkedMeans(sender, receiver, q);
    s := AsRoomAllows(receiver, asked);
    TakesStep(q, p, run, s, asked);
    more := Perform(sender, receiver, s, taken, q);
    taken' := if s.Readable? then taken + s.n else taken;
  }

  /** A whole schedule on the objects. Reads get as much as was asked for and readv has room for; then sender and
      receiver go through the states of the pipe, so `EndToEnd` speaks about them. */
  method Exchange(sender: TcpConnection, receiver: TcpConnection, steps: seq<Step>)
    returns (done: seq<Step>, delivered: seq<Message>)
    requires Linked(sender, receiver, START) && IsRun(START, steps)
    modifies sender.Repr(), receiver.Repr()
    ensures |done| == |steps| && AllNarrowed(done, steps)
    ensures IsRun(START, done) && Run(START, done).sent == Run(START, steps).sent
    ensures Linked(sender, receiver, Run(START, done)) && delivered == Run(START, done).delivered
    ensures Run(START, done).sent == Requested(steps) && (AllFit(Requested(steps)) ==> delivered <= Requested(steps))
  {
    hide Apply, Enabled, PipeInv, Narrowed, Behind, Linked, IsRun, Run, AllFit, AllNarrowed;
    hide TcpConnection.Repr, TcpConnection.Valid, TcpConnection.View, TcpConnection.Input;
    done, delivered := [], [];
    var taken := 0;
    ghost var p, q := START, START;
    StartInv();
    BehindItself(START);
    NothingYet(START);
    NoneNarrowed(steps);
    assert steps[0..] == steps;
    for i := 0 to |steps|
      invariant fresh(sender.Repr() - old(sender.Repr())) && fresh(receiver.Repr() - old(receiver.Repr()))
      invariant Linked(sender, receiver, q) && PipeInv(q)
      invariant delivered == q.delivered && taken == q.taken
      invariant |done| == i && AllNarrowed(done, steps)
      invariant IsRun(START, done) && Run(START, done) == q && Behind(q, p)
      invariant IsRun(p, steps[i..]) && Run(p, steps[i..]) == Run(START, steps)
    {
      FirstOfRest(p, steps, i);
      ReprAllocated(sender);
      ReprAllocated(receiver);
      ghost var r1, r2 := sender.Repr(), receiver.Repr();
      assert forall o :: o in r1 && o !in old(sender.Repr()) ==> fresh(o);
      assert forall o :: o in r2 && o !in old(receiver.Repr()) ==> fresh(o);
      label Before:
      var s, more;
      s, more, taken := ExchangeOne(sender, receiver, steps[i], taken, q, p, done);
      assert forall o :: o in sender.Repr() && o !in r1 ==> fresh@Before(o);
      assert forall o :: o in receiver.Repr() && o !in r2 ==> fresh@Before(o);
      assert forall o :: o in sender.Repr() && o !in old(sender.Repr()) ==> fresh(o);
      assert forall o :: o in receiver.Repr() && o !in old(receiver.Repr()) ==> fresh(o);
      OneMoreNarrowed(done, steps, s);
      delivered, done := delivered + more, done + [s];
      p, q := Apply(p, steps[i]), Apply(q, s);
    }
    assert steps[|steps|..] == [];
    NothingYet(p);
    BehindSent(q, p);
    EndToEnd(done);
    EndToEnd(steps);
  }

  lemma LinkedMeans(sender: TcpConnection, receiver: TcpConnection, p: Pipe)
    requires Linked(sender, receiver, p)
    ensures receiver.inputBuffer.Valid()
  {
  }

  method AsRoomAllows(receiver: TcpConnection, asked: Step) returns (s: Step)
    requires receiver.inputBuffer.Valid()
    ensures Narrowed(s, asked)
    ensures s.Readable? ==> s.n <= receiver.inputBuffer.WritableBytes() + EXTRA_BUF
    ensures asked.Readable? && asked.n <= receiver.inputBuffer.WritableBytes() + EXTRA_BUF ==> s == asked
  {
    s := asked;
    if asked.Readable? {
      var room := receiver.inputBuffer.WritableBytes() + EXTRA_BUF;
      s := Readable(if asked.n <= room then asked.n else room);
    }
  }
}
