// Messages on a byte stream: a four-byte length in front of each message, and reads that return what has arrived.
module Framing {
  import opened Bytes
  import opened Layouts
  import opened Messages
  import opened MessageReader
  import opened Registry

  const MAX_MESSAGE_SIZE := 10000

  /** getBinaryMessage without a layout: the layout comes from the table. */
  ghost function EncodeTop(entries: Entries, m: Msg): Result<seq<byte>> {
    var kids :- LayoutOf(entries, m.Type());
    Encode(m, kids)
  }

  /** readMessage without a layout; bytes after the message are ignored. */
  ghost function DecodeTop(entries: Entries, bs: seq<byte>): Result<Msg> {
    if bs == [] then Err(Overrun) else
    var kids :- LayoutOf(entries, bs[0]);
    var r :- DecodeMsg(kids, bs);
    Ok(r.value)
  }

  function Frame(bs: seq<byte>): seq<byte> {
    Le32(Wrap32(|bs|)) + bs
  }

  function ReadFrame(stream: seq<byte>): Result<Read<seq<byte>>> {
    if |stream| < 4 then Err(ConnectionLost) else
    var n := FromLe32(stream[..4]);
    if n < 0 || n > MAX_MESSAGE_SIZE then Err(InvalidSize)
    else if |stream| < 4 + n then Err(ConnectionLost)
    else Ok(Read(stream[4..4 + n], stream[4 + n..]))
  }

  ghost function ReadMsg(entries: Entries, stream: seq<byte>): Result<Read<Msg>> {
    var frame :- ReadFrame(stream);
    var m :- DecodeTop(entries, frame.value);
    Ok(Read(m, frame.rest))
  }

  ghost function ReadMany(entries: Entries, n: nat, stream: seq<byte>): Result<Read<seq<Msg>>>
    decreases n
  {
    if n == 0 then Ok(Read([], stream)) else
    var first :- ReadMsg(entries, stream);
    var others :- ReadMany(entries, n - 1, first.rest);
    Ok(Read([first.value] + others.value, others.rest))
  }

  // ----- the socket -----

  /** A connection: the bytes that will still arrive, in order, before it ends. */
  class Socket {
    var incoming: seq<byte>

    constructor (incoming: seq<byte>)
      ensures this.incoming == incoming
    {
      this.incoming := incoming;
    }

    /** A read returns between one and n bytes, as many as happen to be there, and nothing once the peer is gone. */
    method Read(n: nat) returns (chunk: seq<byte>)
      requires n > 0
      modifies this
      ensures chunk == [] <==> old(incoming) == []
      ensures |chunk| <= n && old(incoming) == chunk + incoming
    {
      if incoming == [] {
        return [];
      }
      var k: nat :| 0 < k <= n && k <= |incoming|;
      chunk := incoming[..k];
      incoming := incoming[k..];
    }
  }

  /** myRead: gather size bytes from however many short reads it takes. */
  method MyRead(so: Socket, size: nat) returns (r: Result<seq<byte>>)
    modifies so
    ensures |old(so.incoming)| >= size ==> r == Ok(old(so.incoming)[..size]) && so.incoming == old(so.incoming)[size..]
    ensures |old(so.incoming)| < size ==> r == Err(ConnectionLost)
  {
    var data: seq<byte> := [];
    while |data| < size
      invariant |data| <= size
      invariant old(so.incoming) == data + so.incoming
    {
      var chunk := so.Read(size - |data|);
      if chunk == [] {
        return Err(ConnectionLost);
      }
      data := data + chunk;
    }
    r := Ok(data);
  }

  /** CommThread::readMessage: length, size check, payload, decoding. */
  method ReadMessageFrom(so: Socket, layouts: MessageLayouts) returns (r: Result<Msg>)
    requires layouts.loaded && layouts.Valid()
    modifies so
    ensures match ReadMsg(layouts.entries, old(so.incoming))
      case Ok(read) => r == Ok(read.value) && so.incoming == read.rest
      case Err(e) => r == Err(e)
  {
    ghost var stream := so.incoming;
    var header := MyRead(so, 4);
    if header.Err? {
      return Err(ConnectionLost);
    }
    var n := FromLe32(header.value);
    if n < 0 || n > MAX_MESSAGE_SIZE {
      return Err(InvalidSize);
    }
    var buffer := MyRead(so, n);
    if buffer.Err? {
      return Err(ConnectionLost);
    }
    assert buffer.value == stream[4..4 + n] && so.incoming == stream[4 + n..];
    if buffer.value == [] {
      return Err(Overrun);
    }
    var kids := layouts.GetMessageLayout(buffer.value[0]);
    if kids.Err? {
      return Err(kids.error);
    }
    var reader := new InputReader(buffer.value);
    assert reader.Rest() == buffer.value;
    r := ReadMessage(reader, kids.value);
  }

  /** CommThread::sendMessage: the bytes put on the stream. */
  method SendMessage(layouts: MessageLayouts, m: Msg) returns (r: Result<seq<byte>>)
    requires layouts.loaded && layouts.Valid()
    ensures match EncodeTop(layouts.entries, m)
      case Ok(bs) => r == Ok(Frame(bs))
      case Err(e) => r == Err(e)
  {
    var kids := layouts.GetMessageLayout(m.Type());
    if kids.Err? {
      return Err(kids.error);
    }
    var bs := GetBinaryMessage(m, kids.value);
    if bs.Err? {
      return Err(bs.error);
    }
    r := Ok(Le32(Wrap32(|bs.value|)) + bs.value);
  }

  // ----- streams of messages -----

  /** A frame comes back if and only if the message has at most 10000 bytes; the sender does not check. */
  lemma FrameIff(bs: seq<byte>, rest: seq<byte>)
    ensures ReadFrame(Frame(bs) + rest) == Ok(Read(bs, rest)) <==> |bs| <= 10000
  {
    if |bs| <= MAX_MESSAGE_SIZE {
      var s := Frame(bs) + rest;
      assert Wrap32(|bs|) == |bs|;
      Le32RoundTrip(|bs|);
      assert s[..4] == Le32(|bs|);
      assert s[4..4 + |bs|] == bs && s[4 + |bs|..] == rest;
    }
  }

  /** Messages that pass: of a known type, fitting the wire, and not too long. */
  ghost predicate Sendable(entries: Entries, m: Msg) {
    && m.Struct?
    && LayoutOf(entries, m.ty).Ok?
    && Fits(m, LayoutOf(entries, m.ty).value)
    && Encode(m, LayoutOf(entries, m.ty).value).Ok?
    && |Encode(m, LayoutOf(entries, m.ty).value).value| <= MAX_MESSAGE_SIZE
  }

  /** What the receiver gets: the message without fields unknown to its layout. */
  ghost function Received(entries: Entries, m: Msg): Msg
    requires Sendable(entries, m)
  {
    Project(m, LayoutOf(entries, m.ty).value)
  }

  ghost function Wire(entries: Entries, m: Msg): seq<byte>
    requires Sendable(entries, m)
  {
    Frame(Encode(m, LayoutOf(entries, m.ty).value).value)
  }

  ghost function SendAll(entries: Entries, ms: seq<Msg>): seq<byte>
    requires forall m :: m in ms ==> Sendable(entries, m)
  {
    if ms == [] then [] else Wire(entries, ms[0]) + SendAll(entries, ms[1..])
  }

  ghost function ReceivedAll(entries: Entries, ms: seq<Msg>): (r: seq<Msg>)
    requires forall m :: m in ms ==> Sendable(entries, m)
    ensures |r| == |ms| && forall i :: 0 <= i < |ms| ==> r[i] == Received(entries, ms[i])
  {
    if ms == [] then [] else [Received(entries, ms[0])] + ReceivedAll(entries, ms[1..])
  }

  lemma MessageRoundTrip(entries: Entries, m: Msg, rest: seq<byte>)
    requires Sendable(entries, m)
    ensures EncodeTop(entries, m).Ok? && Wire(entries, m) == Frame(EncodeTop(entries, m).value)
    ensures ReadMsg(entries, Wire(entries, m) + rest) == Ok(Read(Received(entries, m), rest))
  {
    var kids := LayoutOf(entries, m.ty).value;
    var bs := Encode(m, kids).value;
    FrameIff(bs, rest);
    DecodeEncode(m, kids, []);
    assert bs + [] == bs;
    assert bs[0] == m.ty;
  }

  /** Any sequence of messages, framed and concatenated, is read back as the same sequence in the same order. */
  lemma {:induction false} StreamRoundTrip(entries: Entries, ms: seq<Msg>, rest: seq<byte>)
    requires forall m :: m in ms ==> Sendable(entries, m)
    ensures ReadMany(entries, |ms|, SendAll(entries, ms) + rest) == Ok(Read(ReceivedAll(entries, ms), rest))
    decreases |ms|
  {
    if ms == [] {
      assert [] + rest == rest;
    } else {
      var first := Wire(entries, ms[0]);
      var others := SendAll(entries, ms[1..]);
      assert first + others + rest == first + (others + rest);
      MessageRoundTrip(entries, ms[0], others + rest);
      StreamRoundTrip(entries, ms[1..], rest);
    }
  }

  ghost function PrependMsgs(ms: seq<Msg>, r: Result<Read<seq<Msg>>>): Result<Read<seq<Msg>>> {
    match r
    case Ok(read) => Ok(Read(ms + read.value, read.rest))
    case Err(e) => Err(e)
  }

  lemma PrependMsgsStep(ms: seq<Msg>, m: Msg, r: Result<Read<seq<Msg>>>)
    ensures PrependMsgs([], r) == r
    ensures PrependMsgs(ms, PrependMsgs([m], r)) == PrependMsgs(ms + [m], r)
  {
    if r.Ok? {
      assert [] + r.value.value == r.value.value;
      assert ms + ([m] + r.value.value) == ms + [m] + r.value.value;
    }
  }

  /** The receiving side of a connection: message after message. */
  method ReadMessages(so: Socket, layouts: MessageLayouts, n: nat) returns (r: Result<seq<Msg>>)
    requires layouts.loaded && layouts.Valid()
    modifies so
    ensures match ReadMany(layouts.entries, n, old(so.incoming))
      case Ok(read) => r == Ok(read.value) && so.incoming == read.rest
      case Err(e) => r == Err(e)
  {
    var ms: seq<Msg> := [];
    ghost var entries := layouts.entries;
    ghost var all := ReadMany(entries, n, so.incoming);
    PrependMsgsStep([], Hollow(0), all);
    for i := 0 to n
      invariant all == PrependMsgs(ms, ReadMany(entries, n - i, so.incoming))
    {
      var m := ReadMessageFrom(so, layouts);
      if m.Err? {
        return Err(m.error);
      }
      PrependMsgsStep(ms, m.value, ReadMany(entries, n - i - 1, so.incoming));
      ms := ms + [m.value];
    }
    assert ms + [] == ms;
    r := Ok(ms);
  }

  /**
   * Whatever was sent arrives in the same order, however the bytes are cut into reads, and the next read starts behind
   * the last message.
   */
  method ReceiveAll(so: Socket, layouts: MessageLayouts, n: nat, ghost sent: seq<Msg>, ghost rest: seq<byte>)
    returns (r: seq<Msg>)
    requires layouts.loaded && layouts.Valid() && n == |sent|
    requires forall m :: m in sent ==> Sendable(layouts.entries, m)
    requires so.incoming == SendAll(layouts.entries, sent) + rest
    modifies so
    ensures r == ReceivedAll(layouts.entries, sent) && so.incoming == rest
  {
    StreamRoundTrip(layouts.entries, sent, rest);
    var ms := ReadMessages(so, layouts, n);
    r := ms.value;
  }

  /** A frame written out: four bytes for the length of the message, least significant first, then the message. */
  lemma FrameExample(bs: seq<byte>)
    requires |bs| == 258
    ensures Frame(bs) == [2, 1, 0, 0] + bs
  {
    assert Wrap32(258) == 258 && Unsigned32(258) == 258;
  }
}
