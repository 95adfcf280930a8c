/**
 * The incremental frame codec: crates/proto/src/codec.rs.
 *
 * A frame is a 32-bit big-endian length followed by that many bytes of payload. The payload codec is a
 * parameter: `decode` for reading, `encode` for writing.
 */
module Codec {
  import opened Common

  newtype Byte = x: int | 0 <= x < 256
  type Bytes = seq<Byte>

  const WORD := 0x1_0000_0000

  /** Payload decoding: a message, a packet of no known type, or bytes that are no packet at all. */
  datatype Payload<M> = Msg(msg: M) | NoPacket | Corrupt

  datatype ProtocolError = UnrecognizedMessageType | DecodeError

  /** The decoder's header field and the bytes not consumed yet. */
  datatype State = State(header: Option<nat>, buffer: Bytes)

  datatype Answer<M> = Item(msg: M) | NeedMore | Failed(error: ProtocolError)

  function GetU32(b: Bytes): (n: nat)
    requires |b| == 4
    ensures n < WORD
  {
    ((b[0] as int * 256 + b[1] as int) * 256 + b[2] as int) * 256 + b[3] as int
  }

  /** `put_u32(n as u32)`: the cast keeps the low 32 bits. */
  function PutU32(n: nat): (b: Bytes)
    ensures |b| == 4
  {
    [(n / 0x100_0000 % 256) as Byte, (n / 0x1_0000 % 256) as Byte, (n / 256 % 256) as Byte, (n % 256) as Byte]
  }

  /** A remainder by 256 * k, one byte at a time. */
  lemma Remainder(n: nat, k: nat)
    requires k == 256 || k == 0x1_0000 || k == 0x100_0000
    ensures n % (256 * k) == n / 256 % k * 256 + n % 256
  {
    if k == 256 {
    } else if k == 0x1_0000 {
    } else {
    }
  }

  lemma Quotients(n: nat)
    ensures n / 0x1_0000 == n / 256 / 256 && n / 0x100_0000 == n / 256 / 256 / 256
  {
  }

  lemma U32RoundTrip(n: nat)
    ensures GetU32(PutU32(n)) == n % WORD
  {
    Quotients(n);
    Remainder(n, 0x100_0000);
    Remainder(n / 256, 0x1_0000);
    Remainder(n / 256 / 256, 256);
  }

  /** A word as its bytes, most significant first. */
  function BigEndian(a: Byte, b: Byte, c: Byte, d: Byte): nat {
    a as int * 0x100_0000 + b as int * 0x1_0000 + c as int * 0x100 + d as int
  }

  lemma WordIsBigEndian(b: Bytes)
    requires |b| == 4
    ensures GetU32(b) == BigEndian(b[0], b[1], b[2], b[3])
  {
  }

  /** decode_header: nothing is consumed until four bytes are there. */
  function ReadHeader(s: State): State {
    if s.header.None? && |s.buffer| >= 4 then State(Some(GetU32(s.buffer[..4])), s.buffer[4..]) else s
  }

  /** One call of GsbMessageDecoder::decode. After a failure the header stays set. */
  function DecodeOnce<M>(s: State, decode: Bytes -> Payload<M>): (State, Answer<M>) {
    var h := ReadHeader(s);
    if h.header.None? || |h.buffer| < h.header.value then (h, NeedMore)
    else
      var n := h.header.value;
      match decode(h.buffer[..n])
      case Msg(m) => (State(None, h.buffer[n..]), Item(m))
      case NoPacket => (State(h.header, h.buffer[n..]), Failed(UnrecognizedMessageType))
      case Corrupt => (State(h.header, h.buffer[n..]), Failed(DecodeError))
  }

  /** What a reader has produced: `unread` collects what arrives after a failure, which ends the stream. */
  datatype Session<M> = Session(state: State, msgs: seq<M>, failure: Option<ProtocolError>, unread: Bytes)

  function Weight(s: State): nat { |s.buffer| + if s.header.Some? then 1 else 0 }

  /** Decode until more input is needed or the stream fails. */
  function Drain<M>(s: State, decode: Bytes -> Payload<M>): Session<M>
    decreases Weight(s)
  {
    var (t, a) := DecodeOnce(s, decode);
    match a
    case NeedMore => Session(t, [], None, [])
    case Failed(e) => Session(t, [], Some(e), [])
    case Item(m) =>
      Prepend(m, Drain(t, decode))
  }

  function Prepend<M>(m: M, s: Session<M>): Session<M> { s.(msgs := [m] + s.msgs) }

  function Feed<M>(s: Session<M>, chunk: Bytes, decode: Bytes -> Payload<M>): Session<M> {
    if s.failure.Some? then s.(unread := s.unread + chunk)
    else
      var d := Drain(s.state.(buffer := s.state.buffer + chunk), decode);
      d.(msgs := s.msgs + d.msgs, unread := s.unread)
  }

  function Begin<M>(): Session<M> { Session(State(None, []), [], None, []) }

  function FeedAll<M>(chunks: seq<Bytes>, decode: Bytes -> Payload<M>): Session<M> {
    if chunks == [] then Begin()
    else Feed(FeedAll(chunks[..|chunks| - 1], decode), chunks[|chunks| - 1], decode)
  }

  function Concat(chunks: seq<Bytes>): Bytes {
    if chunks == [] then [] else Concat(chunks[..|chunks| - 1]) + chunks[|chunks| - 1]
  }

  /** The whole stream parsed in one go, with no decoder state: the messages of the complete frames up to
      the first bad one, and what is left from there. */
  datatype Parse<M> = Parse(msgs: seq<M>, failure: Option<ProtocolError>, header: Option<nat>, rest: Bytes)

  function ParseStream<M>(bytes: Bytes, decode: Bytes -> Payload<M>): Parse<M> {
    if |bytes| < 4 then Parse([], None, None, bytes)
    else
      var n, body := GetU32(bytes[..4]), bytes[4..];
      if |body| < n then Parse([], None, Some(n), body)
      else match decode(body[..n])
        case NoPacket => Parse([], Some(UnrecognizedMessageType), Some(n), body[n..])
        case Corrupt => Parse([], Some(DecodeError), Some(n), body[n..])
        case Msg(m) => var p := ParseStream(body[n..], decode); p.(msgs := [m] + p.msgs)
  }

  ghost predicate Agrees<M>(s: Session<M>, p: Parse<M>) {
    && s.msgs == p.msgs && s.failure == p.failure && s.state.header == p.header
    && s.state.buffer + s.unread == p.rest
    && (s.failure.None? ==> s.unread == [])
  }

  // ----- Fragmentation -----

  lemma {:induction false} DrainParses<M>(bytes: Bytes, decode: Bytes -> Payload<M>)
    ensures Agrees(Drain(State(None, bytes), decode), ParseStream(bytes, decode))
    decreases |bytes|
  {
    var d := Drain(State(None, bytes), decode);
    if |bytes| < 4 {
    } else {
      var n, body := GetU32(bytes[..4]), bytes[4..];
      if |body| >= n && decode(body[..n]).Msg? {
        DrainParses(body[n..], decode);
      }
    }
    assert d.state.buffer + [] == d.state.buffer;
  }

  /** More input does not change an answer already given. */
  lemma DecodeOnceExtends<M>(s: State, more: Bytes, decode: Bytes -> Payload<M>)
    ensures var (t, a) := DecodeOnce(s, decode);
            var longer := DecodeOnce(State(s.header, s.buffer + more), decode);
            if a.NeedMore? then longer == DecodeOnce(State(t.header, t.buffer + more), decode)
            else longer == (State(t.header, t.buffer + more), a)
  {
    var h := ReadHeader(s);
    var g := ReadHeader(State(s.header, s.buffer + more));
    if h.header.Some? {
      if s.header.None? {
        assert (s.buffer + more)[..4] == s.buffer[..4];
        assert (s.buffer + more)[4..] == s.buffer[4..] + more;
      }
      assert g == State(h.header, h.buffer + more);
      var n := h.header.value;
      if n <= |h.buffer| {
        assert (h.buffer + more)[..n] == h.buffer[..n];
        assert (h.buffer + more)[n..] == h.buffer[n..] + more;
      }
    }
  }

  /** Two sessions with the same messages, failure and pending header, and the same bytes left over. */
  ghost predicate Same<M>(a: Session<M>, b: Session<M>) {
    && a.msgs == b.msgs && a.failure == b.failure && a.state.header == b.state.header
    && a.state.buffer + a.unread == b.state.buffer + b.unread
    && (b.failure.None? ==> b.unread == [])
  }

  lemma FeedPrepended<M>(m: M, s: Session<M>, more: Bytes, decode: Bytes -> Payload<M>)
    ensures Feed(Prepend(m, s), more, decode) == Prepend(m, Feed(s, more, decode))
  {
    if s.failure.None? {
      var d := Drain(s.state.(buffer := s.state.buffer + more), decode);
      assert [m] + s.msgs + d.msgs == [m] + (s.msgs + d.msgs);
    }
  }

  /** What one answer makes of the drain. */
  function AfterAnswer<M>(t: State, a: Answer<M>, decode: Bytes -> Payload<M>): Session<M> {
    match a
    case NeedMore => Session(t, [], None, [])
    case Failed(e) => Session(t, [], Some(e), [])
    case Item(m) => Prepend(m, Drain(t, decode))
  }

  lemma DrainByAnswer<M>(s: State, t: State, a: Answer<M>, decode: Bytes -> Payload<M>)
    requires DecodeOnce(s, decode) == (t, a)
    ensures Drain(s, decode) == AfterAnswer(t, a, decode)
  {
  }

  lemma NothingToPrepend<M>(t: State, more: Bytes, decode: Bytes -> Payload<M>)
    ensures Feed(AfterAnswer(t, NeedMore, decode), more, decode) == Drain(State(t.header, t.buffer + more), decode)
  {
    var whole := Drain(State(t.header, t.buffer + more), decode);
    NothingUnread(State(t.header, t.buffer + more), decode);
    assert [] + whole.msgs == whole.msgs;
  }

  lemma DrainResumes<M>(s: State, more: Bytes, decode: Bytes -> Payload<M>)
    requires DecodeOnce(s, decode).1.NeedMore?
    ensures Drain(State(s.header, s.buffer + more), decode) == Feed(Drain(s, decode), more, decode)
  {
    var t := DecodeOnce(s, decode).0;
    DecodeOnceExtends(s, more, decode);
    var (u, b) := DecodeOnce(State(s.header, s.buffer + more), decode);
    DrainByAnswer(s, t, NeedMore, decode);
    DrainByAnswer(State(s.header, s.buffer + more), u, b, decode);
    DrainByAnswer(State(t.header, t.buffer + more), u, b, decode);
    NothingToPrepend(t, more, decode);
  }

  lemma FailureStays<M>(t: State, e: ProtocolError, more: Bytes, decode: Bytes -> Payload<M>)
    ensures Same(AfterAnswer(State(t.header, t.buffer + more), Failed(e), decode),
                 Feed(AfterAnswer(t, Failed(e), decode), more, decode))
  {
    assert t.buffer + more + [] == t.buffer + ([] + more);
  }

  /** Draining a longer buffer is draining the shorter one and then feeding the difference. */
  lemma {:induction false} DrainExtends<M>(s: State, more: Bytes, decode: Bytes -> Payload<M>)
    ensures Same(Drain(State(s.header, s.buffer + more), decode), Feed(Drain(s, decode), more, decode))
    decreases Weight(s)
  {
    var (t, a) := DecodeOnce(s, decode);
    if a.NeedMore? {
      DrainResumes(s, more, decode);
      NothingUnread(State(s.header, s.buffer + more), decode);
    } else {
      DecodeOnceExtends(s, more, decode);
      DrainByAnswer(s, t, a, decode);
      DrainByAnswer(State(s.header, s.buffer + more), State(t.header, t.buffer + more), a, decode);
      if a.Item? {
        DrainExtends(t, more, decode);
        FeedPrepended(a.msg, Drain(t, decode), more, decode);
      } else {
        FailureStays(t, a.error, more, decode);
      }
    }
  }

  lemma {:induction false} NothingUnread<M>(s: State, decode: Bytes -> Payload<M>)
    ensures Drain(s, decode).unread == []
    decreases Weight(s)
  {
    var (t, a) := DecodeOnce(s, decode);
    if a.Item? {
      NothingUnread(t, decode);
    }
  }

  lemma DrainFeedParses<M>(all: Bytes, chunk: Bytes, decode: Bytes -> Payload<M>)
    ensures Agrees(Feed(Drain(State(None, all), decode), chunk, decode), ParseStream(all + chunk, decode))
  {
    DrainParses(all + chunk, decode);
    DrainExtends(State(None, all), chunk, decode);
  }

  /** Sessions that agree with one parse still agree after the same chunk. */
  lemma FeedSame<M>(s: Session<M>, d: Session<M>, chunk: Bytes, p: Parse<M>, decode: Bytes -> Payload<M>)
    requires Agrees(s, p) && Agrees(d, p) && d.unread == []
    ensures s.failure.None? ==> s == d
    ensures s.failure.Some? ==> Same(Feed(s, chunk, decode), Feed(d, chunk, decode))
  {
    assert d.state.buffer + [] == d.state.buffer;
    if s.failure.None? {
      assert s.state.buffer + [] == s.state.buffer;
    } else {
      assert s.state.buffer + (s.unread + chunk) == s.state.buffer + s.unread + chunk;
      assert [] + chunk == chunk;
    }
  }

  /** Feeding one more chunk to a session that agrees with a parse of `all`. */
  lemma FeedAgrees<M>(s: Session<M>, all: Bytes, chunk: Bytes, decode: Bytes -> Payload<M>)
    requires Agrees(s, ParseStream(all, decode))
    ensures Agrees(Feed(s, chunk, decode), ParseStream(all + chunk, decode))
  {
    DrainParses(all, decode);
    NothingUnread(State(None, all), decode);
    DrainFeedParses(all, chunk, decode);
    FeedSame(s, Drain(State(None, all), decode), chunk, ParseStream(all, decode), decode);
  }

  /** However the stream is cut into chunks, and whatever the payload decoder does, the reader yields what
      parsing the whole stream at once yields: messages, failure, pending header and leftover bytes. */
  lemma {:induction false} FragmentationIsInvisible<M>(chunks: seq<Bytes>, decode: Bytes -> Payload<M>)
    ensures Agrees(FeedAll(chunks, decode), ParseStream(Concat(chunks), decode))
  {
    if chunks == [] {
    } else {
      FragmentationIsInvisible(chunks[..|chunks| - 1], decode);
      FeedAgrees(FeedAll(chunks[..|chunks| - 1], decode), Concat(chunks[..|chunks| - 1]), chunks[|chunks| - 1], decode);
    }
  }

  // ----- Round trips -----

  function EncodeFrame<M>(m: M, encode: M -> Bytes): Bytes { PutU32(|encode(m)|) + encode(m) }

  function EncodeAll<M>(msgs: seq<M>, encode: M -> Bytes): Bytes {
    if msgs == [] then [] else EncodeFrame(msgs[0], encode) + EncodeAll(msgs[1..], encode)
  }

  ghost predicate Encodable<M>(m: M, encode: M -> Bytes, decode: Bytes -> Payload<M>) {
    |encode(m)| < WORD && decode(encode(m)) == Msg(m)
  }

  lemma ParseHeaded<M>(head: Bytes, body: Bytes, tail: Bytes, m: M, decode: Bytes -> Payload<M>)
    requires |head| == 4 && GetU32(head) == |body| && decode(body) == Msg(m)
    ensures var p := ParseStream(tail, decode);
            ParseStream(head + body + tail, decode) == p.(msgs := [m] + p.msgs)
  {
    var bytes := head + body + tail;
    assert bytes[..4] == head;
    assert bytes[4..] == body + tail;
    assert bytes[4..][..|body|] == body;
    assert bytes[4..][|body|..] == tail;
  }

  lemma ParseFrame<M>(m: M, tail: Bytes, encode: M -> Bytes, decode: Bytes -> Payload<M>)
    requires Encodable(m, encode, decode)
    ensures var p := ParseStream(tail, decode);
            ParseStream(EncodeFrame(m, encode) + tail, decode) == p.(msgs := [m] + p.msgs)
  {
    U32RoundTrip(|encode(m)|);
    ParseHeaded(PutU32(|encode(m)|), encode(m), tail, m, decode);
  }

  lemma {:induction false} ParseEncoded<M>(msgs: seq<M>, encode: M -> Bytes, decode: Bytes -> Payload<M>)
    requires forall i :: 0 <= i < |msgs| ==> Encodable(msgs[i], encode, decode)
    ensures ParseStream(EncodeAll(msgs, encode), decode) == Parse(msgs, None, None, [])
  {
    if msgs == [] {
    } else {
      ParseEncoded(msgs[1..], encode, decode);
      ParseFrame(msgs[0], EncodeAll(msgs[1..], encode), encode, decode);
    }
  }

  /** Any list of messages whose encodings fit the length field survives encoding, any fragmentation and
      decoding, and leaves nothing behind. */
  lemma RoundTrip<M>(msgs: seq<M>, chunks: seq<Bytes>, encode: M -> Bytes, decode: Bytes -> Payload<M>)
    requires forall i :: 0 <= i < |msgs| ==> Encodable(msgs[i], encode, decode)
    requires Concat(chunks) == EncodeAll(msgs, encode)
    ensures FeedAll(chunks, decode) == Session(State(None, []), msgs, None, [])
  {
    ParseEncoded(msgs, encode, decode);
    FragmentationIsInvisible(chunks, decode);
    var s := FeedAll(chunks, decode);
    assert s.state.buffer + [] == s.state.buffer;
  }

  /** A parse that leaves nothing over has found a message in any non-empty stream. */
  lemma {:induction false} CleanParseHasMessages<M>(bytes: Bytes, decode: Bytes -> Payload<M>)
    requires var p := ParseStream(bytes, decode); p.failure.None? && p.header.None? && p.rest == []
    ensures |bytes| > 0 ==> |ParseStream(bytes, decode).msgs| > 0
    decreases |bytes|
  {
  }

  /** The length field is exactly why: one message, correctly encoded, comes back alone and complete if and
      only if its encoding is shorter than 2^32 bytes. */
  lemma RoundTripExactly<M>(m: M, encode: M -> Bytes, decode: Bytes -> Payload<M>)
    requires decode(encode(m)) == Msg(m)
    ensures ParseStream(EncodeFrame(m, encode), decode) == Parse([m], None, None, []) <==> |encode(m)| < WORD
  {
    var body := encode(m);
    var bytes := EncodeFrame(m, encode);
    if |body| < WORD {
      assert EncodeAll([m], encode) == bytes + [] == bytes;
      ParseEncoded([m], encode, decode);
    } else {
      U32RoundTrip(|body|);
      var n := |body| % WORD;
      assert bytes[..4] == PutU32(|body|) && bytes[4..] == body;
      var tail := body[n..];
      assert |tail| > 0;
      if decode(body[..n]).Msg? {
        var p := ParseStream(tail, decode);
        if p.failure.None? && p.header.None? && p.rest == [] {
          CleanParseHasMessages(tail, decode);
        }
        assert |([decode(body[..n]).msg] + p.msgs)| == 1 + |p.msgs|;
      }
    }
  }

  // ----- The codec in place -----

  class BytesMut {
    var data: Bytes

    constructor (d: Bytes)
      ensures data == d
    {
      data := d;
    }

    method SplitTo(n: nat) returns (head: Bytes)
      requires n <= |data|
      modifies this
      ensures head + data == old(data) && |head| == n
    {
      head := data[..n];
      data := data[n..];
    }
  }

  class GsbMessageDecoder<M> {
    var header: Option<nat>
    const decode: Bytes -> Payload<M>

    constructor (decode: Bytes -> Payload<M>)
      ensures this.decode == decode && header == None
    {
      this.decode := decode;
      header := None;
    }

    method DecodeHeader(src: BytesMut) returns (h: Option<nat>)
      modifies src
      ensures State(h, src.data) == ReadHeader(State(None, old(src.data)))
      ensures |old(src.data)| < 4 ==> h == None && src.data == old(src.data)
      ensures |old(src.data)| >= 4 ==>
        var d := old(src.data);
        h == Some(BigEndian(d[0], d[1], d[2], d[3])) && src.data == d[4..]
    {
      if |src.data| < 4 {
        h := None;
      } else {
        ghost var was := src.data;
        var head := src.SplitTo(4);
        assert head == was[..4] && src.data == was[4..];
        WordIsBigEndian(head);
        h := Some(GetU32(head));
      }
    }

    method DecodeMessage(src: BytesMut, n: nat) returns (a: Answer<M>)
      modifies src
      ensures if |old(src.data)| < n then a == NeedMore && src.data == old(src.data)
              else src.data == old(src.data)[n..] && match decode(old(src.data)[..n])
                case Msg(m) => a == Item(m)
                case NoPacket => a == Failed(UnrecognizedMessageType)
                case Corrupt => a == Failed(DecodeError)
    {
      if |src.data| < n {
        return NeedMore;
      }
      ghost var was := src.data;
      var head := src.SplitTo(n);
      assert head == was[..n] && src.data == was[n..];
      match decode(head) {
        case Msg(m) => a := Item(m);
        case NoPacket => a := Failed(UnrecognizedMessageType);
        case Corrupt => a := Failed(DecodeError);
      }
    }

    method Decode(src: BytesMut) returns (a: Answer<M>)
      modifies this, src
      ensures (State(header, src.data), a) == DecodeOnce(State(old(header), old(src.data)), decode)
      ensures a.Item? ==> header == None
      ensures a.Failed? ==> header.Some?
    {
      if header.None? {
        header := DecodeHeader(src);
      }
      if header.None? {
        return NeedMore;
      }
      a := DecodeMessage(src, header.value);
      if a.Item? {
        header := None;
      }
    }

    /** The framed reader's loop over one received buffer. */
    method DecodeAvailable(src: BytesMut) returns (msgs: seq<M>, failure: Option<ProtocolError>)
      modifies this, src
      ensures Session(State(header, src.data), msgs, failure, []) == Drain(old(State(header, src.data)), decode)
    {
      msgs, failure := [], None;
      NothingUnread(State(header, src.data), decode);
      ghost var goal := Drain(State(header, src.data), decode);
      while true
        invariant failure == None
        invariant var d := Drain(State(header, src.data), decode); goal == d.(msgs := msgs + d.msgs) && d.unread == []
        decreases Weight(State(header, src.data))
      {
        ghost var was := State(header, src.data);
        var a := Decode(src);
        DrainByAnswer(was, State(header, src.data), a, decode);
        match a {
          case NeedMore =>
            assert msgs + [] == msgs;
            return;
          case Failed(e) =>
            failure := Some(e);
            assert msgs + [] == msgs;
            return;
          case Item(m) =>
            ghost var d := Drain(State(header, src.data), decode);
            assert msgs + ([m] + d.msgs) == msgs + [m] + d.msgs;
            msgs := msgs + [m];
        }
      }
    }
  }

  /** encode_message: the length word, then the payload, appended to the destination. */
  method EncodeMessage<M>(dst: BytesMut, m: M, encode: M -> Bytes)
    modifies dst
    ensures dst.data == old(dst.data) + EncodeFrame(m, encode)
    ensures var n := |old(dst.data)|;
            && |dst.data| == n + 4 + |encode(m)| && dst.data[..n] == old(dst.data) && dst.data[n + 4..] == encode(m)
            && BigEndian(dst.data[n], dst.data[n + 1], dst.data[n + 2], dst.data[n + 3]) == |encode(m)| % WORD
  {
    U32RoundTrip(|encode(m)|);
    WordIsBigEndian(PutU32(|encode(m)|));
    var body := encode(m);
    dst.data := dst.data + PutU32(|body|);
    dst.data := dst.data + body;
  }
}
