/** The length-prefix codec of irono/example/chat/codec.h. `Decode` says what a whole byte
    sequence means; the incremental decoder and the encoder are proved against it. */
module Codec {
  import opened Buffers

  type Message = seq<Byte>

  const HEADER_LEN: nat := 4
  const MAX_MESSAGE: int := 65536

  /** `static_cast<int32_t>` of a size. */
  function ToInt32(n: nat): (r: int)
    ensures -0x8000_0000 <= r < 0x8000_0000
    ensures n < 0x8000_0000 ==> r == n
    ensures (n - r) % 0x1_0000_0000 == 0
  {
    var u := n % 0x1_0000_0000;
    if u < 0x8000_0000 then u else u - 0x1_0000_0000
  }

  /** The four bytes of `htonl(static_cast<int32_t>(n))` in memory order. */
  function HeaderBytes(n: nat): (h: seq<Byte>)
    ensures |h| == HEADER_LEN
  {
    var u := n % 0x1_0000_0000;
    [u / 0x100_0000, u / 0x1_0000 % 0x100, u / 0x100 % 0x100, u % 0x100]
  }

  /** `ntohl` of the first four bytes, read back as an int32_t. */
  function HeaderValue(s: seq<Byte>): int
    requires HEADER_LEN <= |s|
  {
    var b0: int, b1: int, b2: int, b3: int := s[0], s[1], s[2], s[3];
    var u := b0 * 0x100_0000 + b1 * 0x1_0000 + b2 * 0x100 + b3;
    if b0 < 0x80 then u else u - 0x1_0000_0000
  }

  function Frame(m: Message): seq<Byte> {
    HeaderBytes(|m|) + m
  }

  function EncodeAll(messages: seq<Message>): seq<Byte> {
    if messages == [] then [] else Frame(messages[0]) + EncodeAll(messages[1..])
  }

  predicate BadLength(len: int) {
    len > MAX_MESSAGE || len < 0
  }

  /** The messages in a byte sequence, the bytes left over, and whether decoding
      stopped at a header that announces an invalid length. */
  datatype Decoded = Decoded(messages: seq<Message>, rest: seq<Byte>, invalid: bool)

  /** Whether the bytes start with a whole frame of valid length. */
  predicate Ready(s: seq<Byte>) {
    HEADER_LEN <= |s| && !BadLength(HeaderValue(s)) && HEADER_LEN + HeaderValue(s) <= |s|
  }

  function FrameLength(s: seq<Byte>): nat
    requires Ready(s)
  {
    HEADER_LEN + HeaderValue(s)
  }

  function Prefixed(m: Message, d: Decoded): Decoded {
    Decoded([m] + d.messages, d.rest, d.invalid)
  }

  function Decode(s: seq<Byte>): Decoded {
    if Ready(s) then
      Prefixed(s[HEADER_LEN..FrameLength(s)], Decode(s[FrameLength(s)..]))
    else
      Decoded([], s, HEADER_LEN <= |s| && BadLength(HeaderValue(s)))
  }

  /** `onMessage`: hands every complete message to the user and leaves the rest in the buffer.
      `shutdown` is whether it asked the connection to shut down. */
  method OnMessage(buf: Buffer) returns (delivered: seq<Message>, shutdown: bool)
    requires buf.Valid()
    modifies buf`readerIndex
    ensures buf.Valid()
    ensures Decode(old(buf.Contents())) == Decoded(delivered, buf.Contents(), shutdown)
  {
    hide Decode;
    delivered, shutdown := [], false;
    while HEADER_LEN <= buf.ReadableBytes()
      invariant buf.Valid()
      invariant Decode(old(buf.Contents())) == Then(Decoded(delivered, [], false), Decode(buf.Contents()))
      decreases buf.ReadableBytes()
    {
      ghost var before := buf.Contents();
      var header := buf.Peek(HEADER_LEN);
      var len := HeaderValue(header);
      assert len == HeaderValue(before);
      if BadLength(len) {
        DecodeStuck(before);
        shutdown := true;
        return;
      } else if HEADER_LEN + len <= buf.ReadableBytes() {
        buf.Retrieve(HEADER_LEN);
        var message := buf.Peek(len);
        delivered := delivered + [message];
        buf.Retrieve(len);
        assert buf.Contents() == before[FrameLength(before)..];
        assert message == before[HEADER_LEN..FrameLength(before)];
        DecodeReady(before);
      } else {
        DecodeStuck(before);
        return;
      }
    }
    DecodeStuck(buf.Contents());
  }

  /** The bytes `send` gives to the connection for one message. */
  method Send(message: Message) returns (bytes: seq<Byte>)
    ensures bytes == Frame(message)
  {
    var buf := new Buffer();
    buf.Append(message);
    buf.Prepend(HeaderBytes(|message|));
    bytes := buf.RetrieveAsString();
  }

  // ---- one step of the decoder ----

  lemma DecodeReady(s: seq<Byte>)
    requires Ready(s)
    ensures Decode(s) == Prefixed(s[HEADER_LEN..FrameLength(s)], Decode(s[FrameLength(s)..]))
  {
  }

  lemma DecodeStuck(s: seq<Byte>)
    requires !Ready(s)
    ensures Decode(s) == Decoded([], s, HEADER_LEN <= |s| && BadLength(HeaderValue(s)))
  {
  }

  // ---- headers ----

  /** A numeral in base 256, most significant digit first: network byte order. */
  function BigEndian(s: seq<Byte>): nat {
    if s == [] then 0 else BigEndian(s[..|s| - 1]) * 0x100 + s[|s| - 1]
  }

  lemma FourDigits(s: seq<Byte>)
    requires |s| == 4
    ensures var b0: int, b1: int, b2: int, b3: int := s[0], s[1], s[2], s[3];
      BigEndian(s) == b0 * 0x100_0000 + b1 * 0x1_0000 + b2 * 0x100 + b3
  {
    assert s[..3][..2] == s[..2] && s[..3][..2][..1] == s[..1] && s[..1][..0] == [];
    assert BigEndian(s[..1]) == s[0];
    assert BigEndian(s[..2]) == BigEndian(s[..2][..1]) * 0x100 + s[1];
    assert BigEndian(s[..3]) == BigEndian(s[..3][..2]) * 0x100 + s[2];
  }

  lemma BytesOfNumber(u: nat)
    requires u < 0x1_0000_0000
    ensures u / 0x100_0000 < 0x100
    ensures u == u / 0x100_0000 * 0x100_0000 + u / 0x1_0000 % 0x100 * 0x1_0000 + u / 0x100 % 0x100 * 0x100 + u % 0x100
  {
    assert u / 0x1_0000 == u / 0x100_0000 * 0x100 + u / 0x1_0000 % 0x100;
    assert u / 0x100 == u / 0x1_0000 * 0x100 + u / 0x100 % 0x100;
    assert u == u / 0x100 * 0x100 + u % 0x100;
  }

  /** What goes over the wire, whoever reads it, is the size in network byte order. */
  lemma NetworkByteOrder(n: nat)
    ensures BigEndian(HeaderBytes(n)) == n % 0x1_0000_0000
  {
    hide BigEndian;
    FourDigits(HeaderBytes(n));
    BytesOfNumber(n % 0x1_0000_0000);
  }

  /** And the reader takes its first four bytes so. */
  lemma ReadsNetworkByteOrder(s: seq<Byte>)
    requires HEADER_LEN <= |s|
    ensures HeaderValue(s) == ToInt32(BigEndian(s[..HEADER_LEN]))
  {
    hide BigEndian;
    FourDigits(s[..HEADER_LEN]);
  }

  lemma HeaderRoundTrip(n: nat, tail: seq<Byte>)
    ensures HeaderValue(HeaderBytes(n) + tail) == ToInt32(n)
  {
    var u := n % 0x1_0000_0000;
    var s := HeaderBytes(n) + tail;
    assert s[0] == u / 0x100_0000 && s[1] == u / 0x1_0000 % 0x100 && s[2] == u / 0x100 % 0x100 && s[3] == u % 0x100;
    assert u / 0x1_0000 == u / 0x100_0000 * 0x100 + u / 0x1_0000 % 0x100;
    assert u / 0x100 == u / 0x1_0000 * 0x100 + u / 0x100 % 0x100;
    assert u % 0x1_0000_0000 == u;
  }

  lemma HeaderValueOfPrefix(a: seq<Byte>, b: seq<Byte>)
    requires HEADER_LEN <= |a|
    ensures HeaderValue(a + b) == HeaderValue(a)
  {
  }

  // ---- chunk independence ----

  function Then(d: Decoded, e: Decoded): Decoded {
    Decoded(d.messages + e.messages, e.rest, e.invalid)
  }

  /** Decoding what is left over together with what comes next is decoding the whole. */
  lemma {:induction false} DecodeSplit(a: seq<Byte>, b: seq<Byte>)
    ensures Decode(a + b) == Then(Decode(a), Decode(Decode(a).rest + b))
    decreases |a|
  {
    hide Decode;
    if Ready(a) {
      var n := FrameLength(a);
      DecodeReady(a);
      HeaderValueOfPrefix(a, b);
      DecodeReady(a + b);
      DecodeSplit(a[n..], b);
      assert (a + b)[n..] == a[n..] + b;
      assert (a + b)[HEADER_LEN..n] == a[HEADER_LEN..n];
    } else {
      DecodeStuck(a);
      if HEADER_LEN <= |a| && BadLength(HeaderValue(a)) {
        HeaderValueOfPrefix(a, b);
        DecodeStuck(a + b);
      }
    }
  }

  /** One `onMessage` call per chunk, from the given leftover bytes. The verdict reported is
      the one of the last call. */
  function Feed(rest: seq<Byte>, chunks: seq<seq<Byte>>): Decoded
    decreases |chunks|
  {
    if chunks == [] then Decode(rest)
    else Then(Decode(rest + chunks[0]), Feed(Decode(rest + chunks[0]).rest, chunks[1..]))
  }

  function Concat(chunks: seq<seq<Byte>>): seq<Byte> {
    if chunks == [] then [] else chunks[0] + Concat(chunks[1..])
  }

  /** Messages, leftover and verdict depend on the concatenated input alone. */
  lemma {:induction false} ChunkIndependence(rest: seq<Byte>, chunks: seq<seq<Byte>>)
    ensures Feed(rest, chunks) == Decode(rest + Concat(chunks))
    decreases |chunks|
  {
    hide Decode;
    if chunks == [] {
      assert rest + [] == rest;
    } else {
      var a := rest + chunks[0];
      var b := Concat(chunks[1..]);
      ChunkIndependence(Decode(a).rest, chunks[1..]);
      DecodeSplit(a, b);
      assert rest + Concat(chunks) == a + b;
    }
  }

  /** What is left over never contains a whole message, and decoding it again changes nothing. */
  lemma {:induction false} DecodeRestIsStuck(s: seq<Byte>)
    ensures var d := Decode(s);
      Decode(d.rest) == Decoded([], d.rest, d.invalid)
    decreases |s|
  {
    if HEADER_LEN <= |s| {
      var len := HeaderValue(s);
      if !BadLength(len) && HEADER_LEN + len <= |s| {
        DecodeRestIsStuck(s[HEADER_LEN + len..]);
      }
    }
  }

  // ---- round trip ----

  predicate AllFit(messages: seq<Message>) {
    forall m :: m in messages ==> |m| <= MAX_MESSAGE
  }

  lemma DecodeFrame(m: Message, tail: seq<Byte>)
    requires |m| <= MAX_MESSAGE
    ensures Decode(Frame(m) + tail) == Prefixed(m, Decode(tail))
  {
    hide Decode, HeaderValue, HeaderBytes;
    var s := Frame(m) + tail;
    assert s == HeaderBytes(|m|) + (m + tail);
    HeaderRoundTrip(|m|, m + tail);
    DecodeReady(s);
    assert s[HEADER_LEN..FrameLength(s)] == m;
    assert s[FrameLength(s)..] == tail;
  }

  lemma PrefixedThen(m: Message, more: seq<Message>, d: Decoded)
    ensures Prefixed(m, Then(Decoded(more, [], false), d)) == Then(Decoded([m] + more, [], false), d)
  {
    assert [m] + (more + d.messages) == ([m] + more) + d.messages;
  }

  lemma {:induction false} DecodeEncode(messages: seq<Message>, tail: seq<Byte>)
    requires AllFit(messages)
    ensures Decode(EncodeAll(messages) + tail) == Then(Decoded(messages, [], false), Decode(tail))
    decreases |messages|
  {
    hide Decode, Frame, Prefixed;
    if messages == [] {
      assert EncodeAll(messages) + tail == tail;
      assert [] + Decode(tail).messages == Decode(tail).messages;
    } else {
      var m, more := messages[0], messages[1..];
      var after := EncodeAll(more) + tail;
      assert EncodeAll(messages) + tail == Frame(m) + after;
      DecodeFrame(m, after);
      DecodeEncode(more, tail);
      PrefixedThen(m, more, Decode(tail));
      assert [m] + more == messages;
    }
  }

  /** Nothing that is delivered, from whatever bytes, is longer than the limit. */
  lemma {:induction false} DeliveredFit(s: seq<Byte>)
    ensures AllFit(Decode(s).messages)
    decreases |s|
  {
    hide Decode;
    if Ready(s) {
      DecodeReady(s);
      DeliveredFit(s[FrameLength(s)..]);
    } else {
      DecodeStuck(s);
    }
  }

  /** So a longer message is never delivered, whatever was sent before and after it. */
  lemma OversizedNeverArrives(m: Message, before: seq<Byte>, after: seq<Byte>)
    requires |m| > MAX_MESSAGE
    ensures m !in Decode(before + Frame(m) + after).messages
  {
    DeliveredFit(before + Frame(m) + after);
  }

  /** The codec round trip holds exactly for messages within the decoder's limit. */
  lemma RoundTrip(messages: seq<Message>)
    ensures Decode(EncodeAll(messages)) == Decoded(messages, [], false) <==> AllFit(messages)
  {
    hide Decode, EncodeAll;
    if AllFit(messages) {
      DecodeEncode(messages, []);
      DecodeStuck([]);
      assert EncodeAll(messages) + [] == EncodeAll(messages);
      assert messages + [] == messages;
    } else {
      DeliveredFit(EncodeAll(messages));
    }
  }

  /** Whatever prefix of an encoded stream has arrived, the messages delivered so far are a
      prefix of those sent, no length was found invalid, and the leftover is shorter than
      one more frame. */
  lemma PrefixDelivery(messages: seq<Message>, arrived: seq<Byte>, missing: seq<Byte>)
    requires AllFit(messages) && EncodeAll(messages) == arrived + missing
    ensures var d := Decode(arrived);
      && d.messages <= messages && !d.invalid
      && |d.rest| < HEADER_LEN + MAX_MESSAGE
      && (missing == [] ==> d.messages == messages && d.rest == [])
  {
    var d := Decode(arrived);
    DecodeSplit(arrived, missing);
    RoundTrip(messages);
    DecodeRestIsStuck(arrived);
    if d.invalid {
      HeaderValueOfPrefix(d.rest, missing);
    }
    if missing == [] {
      assert arrived + missing == arrived;
    }
  }

  /** The first message whose 32-bit length is out of range stops the stream: everything before it
      is delivered, the frame stays in the buffer, and every later chunk finds the same verdict. */
  lemma InvalidLengthStops(before: seq<Message>, bad: Message, after: seq<Byte>)
    requires AllFit(before) && BadLength(ToInt32(|bad|))
    ensures Decode(EncodeAll(before) + (Frame(bad) + after)) == Decoded(before, Frame(bad) + after, true)
  {
    hide Decode, HeaderValue, HeaderBytes;
    var s := Frame(bad) + after;
    DecodeEncode(before, s);
    assert s == HeaderBytes(|bad|) + (bad + after);
    HeaderRoundTrip(|bad|, bad + after);
    DecodeStuck(s);
  }
}
