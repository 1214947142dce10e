/** The double-buffered log of irono/base/AsyncLogging.cc. Front-end threads append under the lock; the
    back-end thread exchanges buffers under the lock and writes them outside it. Each method is one
    atomic section, so any interleaving is a sequence of calls. A unique_ptr is an option that its
    move leaves empty. */
module AsyncLogs {
  import opened Options

  const LARGE_BUFFER: nat := 4000 * 1000
  const MAX_BATCH: nat := 25
  const KEEP: nat := 2
  const SHRINK_ABOVE: nat := 10

  type Line = string

  function TotalLength(lines: seq<Line>): nat {
    if lines == [] then 0 else |lines[0]| + TotalLength(lines[1..])
  }

  /** What is in a buffer, byte by byte. */
  function Text(lines: seq<Line>): string {
    if lines == [] then "" else lines[0] + Text(lines[1..])
  }

  lemma {:induction false} TextLength(lines: seq<Line>)
    ensures |Text(lines)| == TotalLength(lines)
  {
    if lines == [] {
    } else {
      TextLength(lines[1..]);
    }
  }

  lemma {:induction false} TextNext(lines: seq<Line>, line: Line)
    ensures Text(lines + [line]) == Text(lines) + line
  {
    if lines == [] {
      assert [line][1..] == [];
      assert lines + [line] == [line];
    } else {
      TextNext(lines[1..], line);
      assert (lines + [line])[1..] == lines[1..] + [line];
    }
  }

  /** FixedBuffer<kLargeBuffer>: the bytes up to cur_ are those of `lines`, one after the other. */
  datatype LogBuffer = LogBuffer(lines: seq<Line>) {
    function Avail(): int {
      LARGE_BUFFER - TotalLength(lines)
    }

    function Bytes(): string {
      Text(lines)
    }

    /** A line that does not fit is ignored. */
    function Append(line: Line): LogBuffer {
      if |line| < Avail() then LogBuffer(lines + [line]) else this
    }
  }

  const EMPTY := LogBuffer([])

  /** All lines of a list of buffers, in order. */
  function Lines(buffers: seq<LogBuffer>): seq<Line> {
    if buffers == [] then [] else buffers[0].lines + Lines(buffers[1..])
  }

  lemma {:induction false} LinesConcat(a: seq<LogBuffer>, b: seq<LogBuffer>)
    ensures Lines(a + b) == Lines(a) + Lines(b)
  {
    if a == [] {
      assert a + b == b;
    } else {
      assert (a + b)[1..] == a[1..] + b;
      LinesConcat(a[1..], b);
    }
  }

  lemma LinesOfOne(b: LogBuffer)
    ensures Lines([b]) == b.lines
  {
    assert [b][1..] == [];
  }

  lemma NoLines()
    ensures Lines([]) == [] && EMPTY.lines == []
  {
  }

  /** What reaches the file of a batch: all of it, or its first two buffers when it is too long. */
  function Written(batch: seq<LogBuffer>): seq<LogBuffer> {
    if |batch| > MAX_BATCH then batch[..KEEP] else batch
  }

  function AllLines(batches: seq<seq<LogBuffer>>): seq<Line> {
    if batches == [] then [] else Lines(batches[0]) + AllLines(batches[1..])
  }

  function FileLines(batches: seq<seq<LogBuffer>>): seq<Line> {
    if batches == [] then [] else Lines(Written(batches[0])) + FileLines(batches[1..])
  }

  lemma {:induction false} AddBatch(batches: seq<seq<LogBuffer>>, batch: seq<LogBuffer>)
    ensures AllLines(batches + [batch]) == AllLines(batches) + Lines(batch)
    ensures FileLines(batches + [batch]) == FileLines(batches) + Lines(Written(batch))
    decreases |batches|
  {
    hide Lines, Written;
    if batches == [] {
      assert batches + [batch] == [batch];
      assert [batch][1..] == [];
      assert AllLines([]) == [] && FileLines([]) == [];
    } else {
      assert (batches + [batch])[1..] == batches[1..] + [batch];
      AddBatch(batches[1..], batch);
    }
  }

  /** What the erase of a batch that is too long throws away. */
  predicate Spares(batch: seq<LogBuffer>) {
    |batch| > MAX_BATCH ==> Lines(batch[KEEP..]) == []
  }

  lemma WrittenSplits(batch: seq<LogBuffer>)
    ensures |Lines(Written(batch))| <= |Lines(batch)|
    ensures Lines(Written(batch)) == Lines(batch) <==> Spares(batch)
    ensures |Lines(Written(batch))| == |Lines(batch)| ==> Spares(batch)
  {
    if |batch| > MAX_BATCH {
      assert batch == batch[..KEEP] + batch[KEEP..];
      LinesConcat(batch[..KEEP], batch[KEEP..]);
    }
  }

  /** The file lacks lines exactly when some batch was longer than 25 buffers and its third or a later
      buffer held a line. */
  lemma {:induction false} DroppedExactly(batches: seq<seq<LogBuffer>>)
    ensures |FileLines(batches)| <= |AllLines(batches)|
    ensures FileLines(batches) == AllLines(batches) <==> forall b :: b in batches ==> Spares(b)
    ensures |FileLines(batches)| == |AllLines(batches)| ==> forall b :: b in batches ==> Spares(b)
    decreases |batches|
  {
    hide Lines, Written, Spares;
    if batches == [] {
    } else {
      var b, more := batches[0], batches[1..];
      WrittenSplits(b);
      DroppedExactly(more);
      assert forall x :: x in batches <==> x == b || x in more;
    }
  }

  class AsyncLogging {
    // shared, under the lock
    var currentBuffer: Option<LogBuffer>
    var nextBuffer: Option<LogBuffer>
    var buffers: seq<LogBuffer>
    // of the back-end thread
    var newBuffer1: Option<LogBuffer>
    var newBuffer2: Option<LogBuffer>
    var buffersToWrite: seq<LogBuffer>
    var writing: bool
    var file: seq<Line>
    // histories: lines accepted, and batches already written
    ghost var history: seq<Line>
    ghost var batches: seq<seq<LogBuffer>>

    /** Nothing accepted is lost or reordered on its way to a batch; the file holds the written part
        of every batch; and no unique_ptr is empty where the code dereferences it. */
    ghost predicate Valid()
      reads this
    {
      && currentBuffer.Some?
      && (nextBuffer.None? ==> buffers != [])
      && (nextBuffer.Some? ==> nextBuffer.value == EMPTY)
      && (if writing then newBuffer1.None? && buffersToWrite != [] && (newBuffer2.None? ==> 2 <= |buffersToWrite|)
          else newBuffer1 == Some(EMPTY) && newBuffer2 == Some(EMPTY) && buffersToWrite == [])
      && (newBuffer2.Some? ==> newBuffer2.value == EMPTY)
      && file == FileLines(batches)
      && AllLines(batches) + Lines(buffersToWrite) + Lines(buffers) + currentBuffer.value.lines == history
    }

    /** The buffers and batches, whichever unique_ptr they came from. */
    ghost function Now(): Log
      requires currentBuffer.Some?
      reads this
    {
      Log(currentBuffer.value, buffers, buffersToWrite, writing, batches)
    }

    constructor ()
      ensures Valid() && history == [] && Now() == START
    {
      currentBuffer, nextBuffer, buffers := Some(EMPTY), Some(EMPTY), [];
      newBuffer1, newBuffer2, buffersToWrite, writing := Some(EMPTY), Some(EMPTY), [], false;
      file, history, batches := [], [], [];
    }

    /** Front end. A line is kept exactly when it is shorter than a buffer. */
    method Append(line: Line)
      requires Valid()
      modifies this`currentBuffer, this`nextBuffer, this`buffers, this`history
      ensures Valid() && history == old(history) + if |line| < LARGE_BUFFER then [line] else []
      ensures Now() == After(old(Now()), Appends(line))
      // the current buffer goes to the full ones exactly when its bytes and those of the line fill it
      ensures buffers == old(buffers) +
        if |old(currentBuffer).value.Bytes() + line| < LARGE_BUFFER then [] else [old(currentBuffer).value]
    {
      hide AllLines, FileLines, Lines, TotalLength, Text;
      EmptyHasRoom();
      TextLength(currentBuffer.value.lines);
      assert buffers + [] == buffers;
      ghost var kept: seq<Line> := if |line| < LARGE_BUFFER then [line] else [];
      ghost var before := AllLines(batches) + Lines(buffersToWrite);
      if currentBuffer.value.Avail() > |line| {
        assert (before + Lines(buffers) + currentBuffer.value.lines) + kept
            == before + Lines(buffers) + (currentBuffer.value.lines + kept);
        currentBuffer := Some(currentBuffer.value.Append(line));
      } else {
        LinesConcat(buffers, [currentBuffer.value]);
        LinesOfOne(currentBuffer.value);
        assert (before + Lines(buffers)) + currentBuffer.value.lines
            == before + (Lines(buffers) + currentBuffer.value.lines);
        buffers := buffers + [currentBuffer.value];
        currentBuffer := None;
        if nextBuffer.Some? {
          currentBuffer, nextBuffer := nextBuffer, None;
        } else {
          currentBuffer := Some(EMPTY);
        }
        currentBuffer := Some(currentBuffer.value.Append(line));
        assert currentBuffer.value.lines == kept;
      }
      history := history + kept;
    }

    lemma EmptyHasRoom()
      ensures EMPTY.Avail() == LARGE_BUFFER
    {
    }

    /** Back end, under the lock: takes all full buffers and the current one, and leaves fresh ones. It
        may run whether or not anything is full: the wait ends on a signal or on a timeout. */
    method Exchange()
      requires Valid() && !writing
      modifies this
      ensures Valid() && writing && history == old(history) && batches == old(batches)
      ensures buffersToWrite == old(buffers) + [old(currentBuffer).value] && file == old(file)
      ensures buffers == [] && currentBuffer == Some(EMPTY) && nextBuffer == Some(EMPTY)
      ensures Now() == After(old(Now()), BackendRuns)
    {
      hide AllLines, FileLines, Lines, Text, TotalLength;
      NoLines();
      LinesConcat(buffers, [currentBuffer.value]);
      LinesOfOne(currentBuffer.value);
      ghost var before := AllLines(batches);
      assert (before + [] + Lines(buffers)) + currentBuffer.value.lines
          == before + (Lines(buffers) + currentBuffer.value.lines) + [] + [];
      buffers := buffers + [currentBuffer.value];
      currentBuffer, newBuffer1 := newBuffer1, None;
      buffersToWrite, buffers := buffers, buffersToWrite;
      if nextBuffer.None? {
        nextBuffer, newBuffer2 := newBuffer2, None;
      }
      writing := true;
    }

    /** Back end, outside the lock: writes the batch and recovers both spare buffers from it, however
        many buffers were erased. */
    method WriteBatch()
      requires Valid() && writing
      modifies this`newBuffer1, this`newBuffer2, this`buffersToWrite, this`writing, this`file, this`batches
      ensures Valid() && !writing && batches == old(batches) + [old(buffersToWrite)]
      ensures file == old(file) + Lines(Written(old(buffersToWrite)))
      ensures Now() == After(old(Now()), BackendRuns)
    {
      hide AllLines, FileLines;
      ghost var batch := buffersToWrite;
      AddBatch(batches, batch);
      assert AllLines(batches) + Lines(batch) + Lines(buffers) ==
             (AllLines(batches) + Lines(batch)) + Lines([]) + Lines(buffers);
      assert buffersToWrite != [];
      if |buffersToWrite| > MAX_BATCH {
        buffersToWrite := buffersToWrite[..KEEP];
      }
      WriteOut(buffersToWrite);
      if |buffersToWrite| > SHRINK_ABOVE {
        buffersToWrite := buffersToWrite[..KEEP];
      }
      RecoverSpares();
      buffersToWrite, writing := [], false;
      batches := batches + [batch];
    }

    /** The last buffers, reset, become the spares that are missing; there are enough of them. */
    method RecoverSpares()
      requires newBuffer1.None? && buffersToWrite != [] && (newBuffer2.None? ==> 2 <= |buffersToWrite|)
      modifies this`newBuffer1, this`newBuffer2, this`buffersToWrite
      ensures newBuffer1 == Some(EMPTY) && newBuffer2 == if old(newBuffer2).None? then Some(EMPTY) else old(newBuffer2)
    {
      if newBuffer1.None? {
        assert buffersToWrite != [];
        newBuffer1 := Some(EMPTY);
        buffersToWrite := buffersToWrite[..|buffersToWrite| - 1];
      }
      if newBuffer2.None? {
        assert buffersToWrite != [];
        newBuffer2 := Some(EMPTY);
        buffersToWrite := buffersToWrite[..|buffersToWrite| - 1];
      }
    }

    method WriteOut(toWrite: seq<LogBuffer>)
      modifies this`file
      ensures file == old(file) + Lines(toWrite)
    {
      assert Lines([]) == [];
      for i := 0 to |toWrite|
        invariant file == old(file) + Lines(toWrite[..i])
      {
        assert toWrite[..i + 1] == toWrite[..i] + [toWrite[i]];
        LinesConcat(toWrite[..i], [toWrite[i]]);
        LinesOfOne(toWrite[i]);
        file := file + toWrite[i].lines;
      }
      assert toWrite[..|toWrite|] == toWrite;
    }

    /** Everything accepted is in the file or still on its way if and only if no erase threw lines away. */
    lemma NothingLost()
      requires Valid()
      ensures file + Lines(buffersToWrite) + Lines(buffers) + currentBuffer.value.lines == history
         <==> forall b :: b in batches ==> Spares(b)
    {
      hide Lines, Spares, AllLines, FileLines;
      DroppedExactly(batches);
      var waiting := Lines(buffersToWrite) + Lines(buffers) + currentBuffer.value.lines;
      Reassociate(file, Lines(buffersToWrite), Lines(buffers), currentBuffer.value.lines);
      Reassociate(AllLines(batches), Lines(buffersToWrite), Lines(buffers), currentBuffer.value.lines);
      Cancel(file, AllLines(batches), waiting);
    }
  }

  lemma Reassociate(a: seq<Line>, b: seq<Line>, c: seq<Line>, d: seq<Line>)
    ensures a + b + c + d == a + (b + c + d)
  {
  }

  lemma Cancel(a: seq<Line>, b: seq<Line>, tail: seq<Line>)
    ensures a + tail == b + tail ==> |a| == |b|
    ensures a == b ==> a + tail == b + tail
  {
    assert |a + tail| == |a| + |tail| && |b + tail| == |b| + |tail|;
  }

  // ---- any interleaving ----

  datatype Event = Appends(line: Line) | BackendRuns

  function Accepted(events: seq<Event>): seq<Line> {
    if events == [] then [] else AcceptedOf(events[0]) + Accepted(events[1..])
  }

  function AcceptedOf(e: Event): seq<Line> {
    if e.Appends? && |e.line| < LARGE_BUFFER then [e.line] else []
  }

  lemma {:induction false} AcceptedNext(events: seq<Event>, i: nat)
    requires i < |events|
    ensures Accepted(events[..i + 1]) == Accepted(events[..i]) + AcceptedOf(events[i])
    decreases i
  {
    hide AcceptedOf;
    if i == 0 {
      assert events[..1] == [events[0]] && events[..0] == [];
      assert Accepted([events[0]][1..]) == [];
    } else {
      AcceptedNext(events[1..], i - 1);
      assert events[..i + 1][1..] == events[1..][..i] && events[..i][1..] == events[1..][..i - 1];
    }
  }

  /** What the log amounts to between sections, with the batches that were taken so far. */
  datatype Log = Log(
    current: LogBuffer, full: seq<LogBuffer>, toWrite: seq<LogBuffer>, writing: bool, batches: seq<seq<LogBuffer>>)

  const START := Log(EMPTY, [], [], false, [])

  function After(l: Log, e: Event): Log {
    match e
    case Appends(line) =>
      if l.current.Avail() > |line| then l.(current := l.current.Append(line))
      else l.(full := l.full + [l.current], current := EMPTY.Append(line))
    case BackendRuns =>
      if l.writing then l.(toWrite := [], writing := false, batches := l.batches + [l.toWrite])
      else l.(current := EMPTY, full := [], toWrite := l.full + [l.current], writing := true)
  }

  function AfterAll(l: Log, events: seq<Event>): Log
    decreases events
  {
    if events == [] then l else AfterAll(After(l, events[0]), events[1..])
  }

  // ---- no buffer overflows, and none is given up early ----

  predicate Fits(b: LogBuffer) {
    |b.Bytes()| < LARGE_BUFFER
  }

  predicate AllFit(l: Log) {
    && Fits(l.current) && (forall b :: b in l.full ==> Fits(b)) && (forall b :: b in l.toWrite ==> Fits(b))
    && (forall batch, b :: batch in l.batches && b in batch ==> Fits(b))
  }

  lemma AppendFits(b: LogBuffer, line: Line)
    requires Fits(b)
    ensures Fits(b.Append(line)) && Fits(EMPTY)
    ensures b.Avail() > |line| <==> |b.Bytes() + line| < LARGE_BUFFER
  {
    TextLength(b.lines);
    TextNext(b.lines, line);
  }

  lemma OneEventFits(l: Log, e: Event)
    requires AllFit(l)
    ensures AllFit(After(l, e))
  {
    hide Fits;
    AppendFits(l.current, if e.Appends? then e.line else "");
    EmptyFits();
    AppendFits(EMPTY, if e.Appends? then e.line else "");
  }

  lemma EmptyFits()
    ensures Fits(EMPTY)
  {
  }

  lemma {:induction false} BuffersFit(l: Log, events: seq<Event>)
    requires AllFit(l)
    ensures AllFit(AfterAll(l, events))
    decreases events
  {
    hide After, AllFit;
    if events == [] {
    } else {
      OneEventFits(l, events[0]);
      BuffersFit(After(l, events[0]), events[1..]);
    }
  }

  /** In every run, by the bytes alone: no buffer ever holds as much as its size; an append gives the current buffer
      up exactly when its bytes and the line together would; and the line then starts the next one. */
  lemma BuffersByBytes(events: seq<Event>, line: Line)
    ensures var l, l' := AfterAll(START, events), AfterAll(START, events + [Appends(line)]);
      && AllFit(l) && AllFit(l')
      && if |l.current.Bytes() + line| < LARGE_BUFFER then
           l'.full == l.full && l'.current.Bytes() == l.current.Bytes() + line
         else
           l'.full == l.full + [l.current] && l'.current.Bytes() == if |line| < LARGE_BUFFER then line else ""
  {
    StartFits();
    BuffersFit(START, events);
    var l := AfterAll(START, events);
    AfterConcat(START, events, [Appends(line)]);
    OneEvent(l, Appends(line));
    OneEventFits(l, Appends(line));
    AppendFits(l.current, line);
    AppendFits(EMPTY, line);
    TextNext(l.current.lines, line);
    TextNext([], line);
    assert EMPTY.lines + [line] == [] + [line];
    assert EMPTY.Bytes() + line == line;
  }

  lemma StartFits()
    ensures AllFit(START)
  {
  }

  /** Front-end appends and back-end sections in any order: the invariant holds throughout, no buffer is ever
      fuller than it may be, the buffers and batches are those that the events prescribe, and everything accepted is
      in the file or on its way if and only if none of these batches lost lines to the erase. */
  method RunLog(log: AsyncLogging, events: seq<Event>)
    requires log.Valid() && log.history == [] && log.Now() == START
    modifies log
    ensures log.Valid() && log.history == Accepted(events)
    ensures log.Now() == AfterAll(START, events) && log.file == FileLines(log.batches)
    ensures forall b :: b in [log.currentBuffer.value] + log.buffers + log.buffersToWrite ==>
      |b.Bytes()| < LARGE_BUFFER
    ensures
      log.file + Lines(log.buffersToWrite) + Lines(log.buffers) + log.currentBuffer.value.lines == Accepted(events)
      <==> forall b :: b in AfterAll(START, events).batches ==> Spares(b)
  {
    hide AllLines, FileLines, Accepted, Lines, After, Spares;
    AcceptedNone(events);
    assert events[0..] == events;
    for i := 0 to |events|
      invariant log.Valid() && log.history == Accepted(events[..i])
      invariant AfterAll(log.Now(), events[i..]) == AfterAll(START, events)
    {
      AcceptedNext(events, i);
      assert events[i..][0] == events[i] && events[i..][1..] == events[i + 1..];
      match events[i]
      case Appends(line) =>
        log.Append(line);
      case BackendRuns =>
        if log.writing {
          log.WriteBatch();
        } else {
          log.Exchange();
        }
    }
    assert events[..|events|] == events;
    log.NothingLost();
    StartFits();
    BuffersFit(START, events);
  }

  lemma AcceptedNone(events: seq<Event>)
    ensures Accepted(events[..0]) == []
  {
  }

  // ---- a run that loses lines ----

  function Repeated(line: Line, k: nat): (events: seq<Event>)
    ensures |events| == k
  {
    if k == 0 then [] else Repeated(line, k - 1) + [Appends(line)]
  }

  function Copies(b: LogBuffer, k: nat): (copies: seq<LogBuffer>)
    ensures |copies| == k && forall i :: 0 <= i < k ==> copies[i] == b
  {
    seq(k, i => b)
  }

  lemma {:induction false} AfterConcat(l: Log, a: seq<Event>, b: seq<Event>)
    ensures AfterAll(l, a + b) == AfterAll(AfterAll(l, a), b)
    decreases |a|
  {
    hide After;
    if a == [] {
      assert a + b == b;
    } else {
      AfterConcat(After(l, a[0]), a[1..], b);
      assert (a + b)[1..] == a[1..] + b;
    }
  }

  lemma OneEvent(l: Log, e: Event)
    ensures AfterAll(l, [e]) == After(l, e)
  {
    assert [e][1..] == [];
  }

  /** Lines that fill a buffer take a buffer each. */
  lemma {:induction false} FillsBuffers(line: Line, k: nat)
    requires |line| == LARGE_BUFFER - 1 && 1 <= k
    ensures AfterAll(START, Repeated(line, k)) ==
      Log(LogBuffer([line]), Copies(LogBuffer([line]), k - 1), [], false, [])
    decreases k
  {
    var before := Repeated(line, k - 1);
    AfterConcat(START, before, [Appends(line)]);
    OneEvent(AfterAll(START, before), Appends(line));
    assert TotalLength([line]) == LARGE_BUFFER - 1 by { assert [line][1..] == []; }
    assert EMPTY.Append(line) == LogBuffer([line]);
    if k == 1 {
      assert Copies(LogBuffer([line]), 0) == [];
    } else {
      FillsBuffers(line, k - 1);
      assert Copies(LogBuffer([line]), k - 2) + [LogBuffer([line])] == Copies(LogBuffer([line]), k - 1);
    }
  }

  lemma {:induction false} AcceptsAll(line: Line, k: nat)
    requires |line| < LARGE_BUFFER
    ensures |Accepted(Repeated(line, k))| == k
    decreases k
  {
    if k == 0 {
    } else {
      AcceptsAll(line, k - 1);
      AcceptedSplit(Repeated(line, k - 1), [Appends(line)]);
      assert [Appends(line)][1..] == [];
    }
  }

  lemma {:induction false} AcceptedSplit(a: seq<Event>, b: seq<Event>)
    ensures Accepted(a + b) == Accepted(a) + Accepted(b)
    decreases |a|
  {
    hide AcceptedOf;
    if a == [] {
      assert a + b == b;
    } else {
      AcceptedSplit(a[1..], b);
      assert (a + b)[1..] == a[1..] + b;
      var first := AcceptedOf(a[0]);
      assert (first + Accepted(a[1..])) + Accepted(b) == first + (Accepted(a[1..]) + Accepted(b));
    }
  }

  /** Twenty-seven lines of almost a buffer each, one exchange and one write: all are accepted, and two
      reach the file. */
  lemma LinesAreLost(line: Line) returns (events: seq<Event>)
    requires |line| == LARGE_BUFFER - 1
    ensures |Accepted(events)| == 27
    ensures var l := AfterAll(START, events);
      && FileLines(l.batches) == [line, line]
      && l.toWrite == [] && l.full == [] && l.current == EMPTY
  {
    var appends := Repeated(line, 27);
    events := appends + [BackendRuns, BackendRuns];
    var b := LogBuffer([line]);
    FillsBuffers(line, 27);
    var l := AfterAll(START, appends);
    AfterConcat(START, appends, [BackendRuns, BackendRuns]);
    AfterConcat(l, [BackendRuns], [BackendRuns]);
    assert [BackendRuns] + [BackendRuns] == [BackendRuns, BackendRuns];
    OneEvent(l, BackendRuns);
    OneEvent(After(l, BackendRuns), BackendRuns);
    var batch := Copies(b, 26) + [b];
    assert AfterAll(START, events).batches == [] + [batch];
    TwoOf(batch, b);
    AcceptsBackend();
    AcceptsAll(line, 27);
    AcceptedSplit(appends, [BackendRuns, BackendRuns]);
  }

  lemma AcceptsBackend()
    ensures Accepted([BackendRuns, BackendRuns]) == []
  {
    assert [BackendRuns, BackendRuns][1..] == [BackendRuns] && [BackendRuns][1..] == [];
  }

  lemma TwoOf(batch: seq<LogBuffer>, b: LogBuffer)
    requires |batch| > MAX_BATCH && batch[0] == batch[1] == b && |b.lines| == 1
    ensures FileLines([] + [batch]) == [b.lines[0], b.lines[0]]
  {
    assert ([] + [batch])[1..] == [];
    assert Written(batch) == [b, b];
    LinesOfOne(b);
    assert [b, b][1..] == [b];
    assert b.lines == [b.lines[0]];
  }
}
