/** Reading control frames off a byte stream. Both stream readers recover exactly
    the frames that were sent, however the stream is cut into pieces. */
module FrameStreams {
  import opened Wire
  import opened ControlFrames

  /** What a stream reader uses of the frame codec: the length announced by the
      prefix, and the decoding of one complete frame. */
  datatype Codec = Codec(size: seq<byte> -> Result<nat>, decode: seq<byte> -> Result<ControlFrame>)

  /** The announced length depends on the prefix alone and is bounded. */
  ghost predicate Framed(c: Codec) {
    && (forall b, more :: |b| >= CONTROL_PREFIX_SIZE ==> c.size(b + more) == c.size(b))
    && (forall b :: |b| >= CONTROL_PREFIX_SIZE && c.size(b).Ok? ==> Bounded(c.size(b).value))
  }

  predicate Bounded(size: nat) { CONTROL_PREFIX_SIZE < size <= MAX_CONTROL_FRAME }

  type FrameCodec = c: Codec | Framed(c) ghost witness Codec(b => Err(EPROTO), b => Err(EPROTO))

  /** What the bytes read so far say about the next frame. */
  datatype Next = NeedMore | Failed(error: Errno) | Got(frame: ControlFrame, size: nat)

  function First(s: seq<byte>, c: FrameCodec): (r: Next)
    ensures r.Got? ==> CONTROL_PREFIX_SIZE < r.size <= |s|
    ensures r.NeedMore? ==> |s| < MAX_CONTROL_FRAME
  {
    if |s| < CONTROL_PREFIX_SIZE then NeedMore else
    var size := c.size(s);
    if size.Err? then Failed(size.error) else
    assert Bounded(size.value);
    if |s| < size.value then NeedMore else
    var frame := c.decode(s[..size.value]);
    if frame.Err? then Failed(frame.error) else Got(frame.value, size.value)
  }

  /** The frames of a stream, what is left of it, and the error that ended it. */
  datatype Parsed = Parsed(frames: seq<ControlFrame>, rest: seq<byte>, error: Option<Errno>)

  function Parse(s: seq<byte>, c: FrameCodec): Parsed
    decreases |s|
  {
    match First(s, c)
    case NeedMore => Parsed([], s, None)
    case Failed(e) => Parsed([], s, Some(e))
    case Got(f, size) =>
      Cons(f, Parse(s[size..], c))
  }

  // ---------------------------------------------------------------------
  // More input never changes what was read
  // ---------------------------------------------------------------------

  lemma FirstOfFront(s: seq<byte>, more: seq<byte>, c: FrameCodec)
    requires !First(s, c).NeedMore?
    ensures First(s + more, c) == First(s, c)
    ensures First(s, c).Got? ==> (s + more)[First(s, c).size..] == s[First(s, c).size..] + more
  {
    assert c.size(s + more) == c.size(s);
    var size := c.size(s);
    if size.Ok? {
      assert Bounded(size.value);
      assert (s + more)[..size.value] == s[..size.value];
    }
  }

  /** What parsing p and then q gives. */
  function Then(p: Parsed, q: Parsed): Parsed { Parsed(p.frames + q.frames, q.rest, q.error) }

  function Cons(f: ControlFrame, p: Parsed): Parsed { Parsed([f] + p.frames, p.rest, p.error) }

  lemma ConsThen(f: ControlFrame, p: Parsed, q: Parsed)
    ensures Then(Cons(f, p), q) == Cons(f, Then(p, q))
  {
    assert ([f] + p.frames) + q.frames == [f] + (p.frames + q.frames);
  }

  lemma ParseGot(s: seq<byte>, c: FrameCodec, f: ControlFrame, size: nat)
    requires First(s, c) == Got(f, size)
    ensures Parse(s, c) == Cons(f, Parse(s[size..], c))
  {
  }

  /** Parsing in two steps is parsing at once. */
  lemma {:induction false} ParseInSteps(s: seq<byte>, more: seq<byte>, c: FrameCodec)
    ensures var p := Parse(s, c);
      && (p.error.None? ==> Parse(s + more, c) == Then(p, Parse(p.rest + more, c)))
      && (p.error.Some? ==> Parse(s + more, c) == Parsed(p.frames, p.rest + more, p.error))
    decreases |s|
  {
    var n := First(s, c);
    if n.NeedMore? {
      var q := Parse(s + more, c);
      assert [] + q.frames == q.frames;
    } else if n.Failed? {
      FirstOfFront(s, more, c);
    } else {
      var p := Parse(s[n.size..], c);
      FirstOfFront(s, more, c);
      ParseInSteps(s[n.size..], more, c);
      ParseGot(s, c, n.frame, n.size);
      ParseGot(s + more, c, n.frame, n.size);
      ConsThen(n.frame, p, Parse(p.rest + more, c));
    }
  }

  /** What is left over never reaches the size of the largest frame. */
  lemma {:induction false} RestIsShort(s: seq<byte>, c: FrameCodec)
    ensures Parse(s, c).error.None? ==>
      First(Parse(s, c).rest, c).NeedMore? && |Parse(s, c).rest| < MAX_CONTROL_FRAME
    decreases |s|
  {
    var n := First(s, c);
    if n.Got? { RestIsShort(s[n.size..], c); }
  }

  // ---------------------------------------------------------------------
  // Sent frames come out
  // ---------------------------------------------------------------------

  /** The codec writes f as b, and reads it back. */
  predicate Encodes(c: Codec, f: ControlFrame, b: seq<byte>) {
    |b| >= CONTROL_PREFIX_SIZE && c.size(b) == Ok(|b|) && c.decode(b) == Ok(f)
  }

  function Concat(pieces: seq<seq<byte>>): seq<byte> {
    if pieces == [] then [] else pieces[0] + Concat(pieces[1..])
  }

  lemma FirstSent(f: ControlFrame, b: seq<byte>, more: seq<byte>, c: FrameCodec)
    requires Encodes(c, f, b)
    ensures First(b + more, c) == Got(f, |b|) && (b + more)[|b|..] == more
  {
    assert Bounded(c.size(b).value);
    assert b[..|b|] == b;
    FirstOfFront(b, more, c);
  }

  /** A stream of encoded frames parses to those frames, with nothing left. */
  lemma {:induction false} ParseOfSent(frames: seq<ControlFrame>, sent: seq<seq<byte>>, c: FrameCodec)
    requires |frames| == |sent| && forall i :: 0 <= i < |frames| ==> Encodes(c, frames[i], sent[i])
    ensures Parse(Concat(sent), c) == Parsed(frames, [], None)
  {
    if frames != [] {
      FirstSent(frames[0], sent[0], Concat(sent[1..]), c);
      ParseOfSent(frames[1..], sent[1..], c);
      assert frames == [frames[0]] + frames[1..];
    }
  }

  // ---------------------------------------------------------------------
  // Piece by piece
  // ---------------------------------------------------------------------

  /** A piece arrives at a reader that holds p.rest and has delivered p.frames. */
  function Feed(p: Parsed, piece: seq<byte>, c: FrameCodec): Parsed {
    if p.error.Some? then p else Then(p, Parse(p.rest + piece, c))
  }

  /** All pieces, one after the other; each is parsed with what was left before it. */
  function FeedAll(pieces: seq<seq<byte>>, c: FrameCodec): Parsed {
    if pieces == [] then Parsed([], [], None) else Feed(FeedAll(pieces[..|pieces| - 1], c), pieces[|pieces| - 1], c)
  }

  lemma {:induction false} ConcatLast(pieces: seq<seq<byte>>)
    requires pieces != []
    ensures Concat(pieces) == Concat(pieces[..|pieces| - 1]) + pieces[|pieces| - 1]
  {
    if |pieces| > 1 {
      ConcatLast(pieces[1..]);
      assert pieces[1..][..|pieces| - 2] == pieces[..|pieces| - 1][1..];
      assert pieces[0] + (Concat(pieces[..|pieces| - 1][1..]) + pieces[|pieces| - 1]) == Concat(pieces);
    }
  }

  /** Wherever the cuts are, the pieces give what the whole stream gives. */
  lemma {:induction false} FeedIsParse(pieces: seq<seq<byte>>, c: FrameCodec)
    ensures var fed, whole := FeedAll(pieces, c), Parse(Concat(pieces), c);
      fed.frames == whole.frames && fed.error == whole.error && (fed.error.None? ==> fed.rest == whole.rest)
  {
    if pieces != [] {
      var front, last := pieces[..|pieces| - 1], pieces[|pieces| - 1];
      FeedIsParse(front, c);
      ConcatLast(pieces);
      ParseInSteps(Concat(front), last, c);
    }
  }

  /** Encoded frames come out of the pieces, however the bytes are cut on the way. */
  lemma AnyChunking(frames: seq<ControlFrame>, sent: seq<seq<byte>>, pieces: seq<seq<byte>>, c: FrameCodec)
    requires |frames| == |sent| && forall i :: 0 <= i < |frames| ==> Encodes(c, frames[i], sent[i])
    requires Concat(pieces) == Concat(sent)
    ensures FeedAll(pieces, c) == Parsed(frames, [], None)
  {
    ParseOfSent(frames, sent, c);
    FeedIsParse(pieces, c);
  }

  /** Bytes that are no frame end the reading, with their error, when all frames sent
      before them are out; the beginning of a frame waits for the rest of it. */
  lemma ThenNoFrame(frames: seq<ControlFrame>, sent: seq<seq<byte>>, tail: seq<byte>, c: FrameCodec)
    requires |frames| == |sent| && forall i :: 0 <= i < |sent| ==> Encodes(c, frames[i], sent[i])
    ensures First(tail, c).Failed? ==> Parse(Concat(sent) + tail, c) == Parsed(frames, tail, Some(First(tail, c).error))
    ensures First(tail, c).NeedMore? ==> Parse(Concat(sent) + tail, c) == Parsed(frames, tail, None)
  {
    ParseOfSent(frames, sent, c);
    ParseInSteps(Concat(sent), tail, c);
    assert [] + tail == tail && frames + [] == frames;
  }

  // ---------------------------------------------------------------------
  // The node's reader: append what arrives, take all complete frames
  // ---------------------------------------------------------------------

  class ConnectionInput {
    const codec: FrameCodec
    var input: seq<byte>
    var delivered: seq<ControlFrame>
    ghost var received: seq<byte>

    ghost predicate Valid()
      reads this
    {
      Parse(received, codec) == Parsed(delivered, input, None)
    }

    constructor (codec: FrameCodec)
      ensures Valid() && input == [] && delivered == [] && received == [] && this.codec == codec
    {
      this.codec := codec;
      input, delivered, received := [], [], [];
    }

    /** One successful recv. The reader keeps going exactly as long as the whole
        stream so far parses; `input` then stays below the largest frame, so the
        size check after the loop never fires. */
    method Read(bytes: seq<byte>) returns (ok: bool)
      requires Valid()
      modifies this
      ensures received == old(received) + bytes
      ensures ok <==> Parse(received, codec).error.None?
      ensures delivered == Parse(received, codec).frames
      ensures ok ==> Valid() && |input| < MAX_CONTROL_FRAME
    {
      ParseInSteps(received, bytes, codec);
      received := received + bytes;
      input := input + bytes;
      ok := TakeFrames();
      RestIsShort(received, codec);
    }

    method TakeFrames() returns (ok: bool)
      modifies this`input, this`delivered
      ensures var p := Parse(old(input), codec);
        delivered == old(delivered) + p.frames && (ok <==> p.error.None?) && (ok ==> input == p.rest)
    {
      ghost var whole := Parse(input, codec);
      while true
        invariant Then(Parsed(delivered, [], None), Parse(input, codec)) == Then(Parsed(old(delivered), [], None),
            whole)
        decreases |input|
      {
        if |input| < CONTROL_PREFIX_SIZE { break; }
        var size := codec.size(input);
        if size.Err? { return false; }
        assert Bounded(size.value);
        if |input| < size.value { break; }
        var frame := codec.decode(input[..size.value]);
        if frame.Err? { return false; }
        ParseGot(input, codec, frame.value, size.value);
        Shift(delivered, frame.value, Parse(input[size.value..], codec).frames);
        delivered := delivered + [frame.value];
        input := input[size.value..];
      }
      return true;
    }
  }

  /** The pieces that recv returns, until the reader refuses one. */
  method ReadPieces(reader: ConnectionInput, pieces: seq<seq<byte>>) returns (ok: bool)
    requires reader.Valid() && reader.received == []
    modifies reader
    ensures var fed := FeedAll(pieces, reader.codec);
      reader.delivered == fed.frames && (ok <==> fed.error.None?) && (ok ==> reader.input == fed.rest)
  {
    ok := true;
    for i := 0 to |pieces|
      invariant ok ==> reader.Valid() && reader.received == Concat(pieces[..i])
      invariant !ok ==> FeedAll(pieces[..i], reader.codec).error.Some?
      invariant reader.delivered == FeedAll(pieces[..i], reader.codec).frames
    {
      assert pieces[..i + 1][..i] == pieces[..i];
      if ok {
        ok := reader.Read(pieces[i]);
        ConcatLast(pieces[..i + 1]);
        FeedIsParse(pieces[..i + 1], reader.codec);
      }
    }
    assert pieces[..|pieces|] == pieces;
    FeedIsParse(pieces, reader.codec);
  }

  lemma Shift(a: seq<ControlFrame>, f: ControlFrame, b: seq<ControlFrame>)
    ensures a + ([f] + b) == (a + [f]) + b
  {
  }

  // ---------------------------------------------------------------------
  // The client's reader: never asks for more than the current frame
  // ---------------------------------------------------------------------

  /** A socket: bytes that have arrived, in order. recv returns any non-empty
      piece of them, or none if there are none. */
  class Socket {
    var pending: seq<byte>
    var open: bool

    constructor (arrived: seq<byte>)
      ensures pending == arrived && open
    {
      pending, open := arrived, true;
    }

    method Arrive(piece: seq<byte>)
      modifies this`pending
      ensures pending == old(pending) + piece
    {
      pending := pending + piece;
    }

    method Recv(most: nat) returns (piece: seq<byte>)
      requires most > 0
      modifies this
      ensures piece + pending == old(pending) && open == old(open) && |piece| <= most
      ensures old(pending) != [] ==> piece != []
    {
      if pending == [] { return []; }
      var n: nat :| 0 < n <= most && n <= |pending|;
      piece := pending[..n];
      pending := pending[n..];
    }
  }

  datatype ReadOutcome = Frame(frame: ControlFrame) | Waiting | Error(error: Errno)

  class FrameReader {
    const codec: FrameCodec
    var bytes: seq<byte>
    var target: nat

    ghost predicate Valid()
      reads this
    {
      && |bytes| <= target
      && (target == CONTROL_PREFIX_SIZE || (|bytes| >= CONTROL_PREFIX_SIZE && codec.size(bytes) == Ok(target)))
    }

    constructor (codec: FrameCodec)
      ensures Valid() && bytes == [] && this.codec == codec
    {
      this.codec := codec;
      bytes, target := [], CONTROL_PREFIX_SIZE;
    }

    /** The outcome is what the unread stream, held bytes first, says about its
        first frame; nothing is lost and nothing beyond that frame is taken. */
    method Read(socket: Socket) returns (outcome: ReadOutcome)
      requires Valid()
      modifies this, socket
      ensures Valid() && socket.open == old(socket.open)
      ensures var s := old(bytes + socket.pending);
        match First(s, codec)
        case Got(f, size) => outcome == Frame(f) && bytes == [] && socket.pending == s[size..]
        case Failed(e) => outcome == Error(e)
        case NeedMore =>
          && outcome == (if socket.open then Waiting else Error(ECONNRESET))
          && bytes == s && socket.pending == []
    {
      hide First, Framed;
      ghost var s := bytes + socket.pending;
      while true
        invariant Valid() && s == bytes + socket.pending && socket.open == old(socket.open)
        decreases |socket.pending|
      {
        if |bytes| == target {
          SizeIsKnown(bytes, socket.pending, codec);
          if target == CONTROL_PREFIX_SIZE {
            var size := codec.size(bytes);
            if size.Err? { return Error(size.error); }
            target := size.value;
          } else {
            FrameIsThere(bytes, socket.pending, codec);
            var frame := codec.decode(bytes);
            bytes, target := [], CONTROL_PREFIX_SIZE;
            return if frame.Ok? then Frame(frame.value) else Error(frame.error);
          }
        }
        var piece := socket.Recv(if target - |bytes| < 4096 then target - |bytes| else 4096);
        if piece == [] {
          assert s == bytes;
          FrameIsShort(bytes, target, codec);
          return if socket.open then Waiting else Error(ECONNRESET);
        }
        if |bytes| >= CONTROL_PREFIX_SIZE { SizeIsKnown(bytes, piece, codec); }
        bytes := bytes + piece;
      }
    }
  }

  /** With the prefix there, what follows does not change the announced length. */
  lemma SizeIsKnown(b: seq<byte>, more: seq<byte>, c: FrameCodec)
    requires |b| >= CONTROL_PREFIX_SIZE
    ensures c.size(b + more) == c.size(b) && (c.size(b).Ok? ==> Bounded(c.size(b).value))
    ensures c.size(b).Err? ==> First(b + more, c) == Failed(c.size(b).error)
  {
  }

  lemma FrameIsThere(b: seq<byte>, more: seq<byte>, c: FrameCodec)
    requires |b| >= CONTROL_PREFIX_SIZE && c.size(b) == Ok(|b|)
    ensures var frame := c.decode(b);
      First(b + more, c) == if frame.Ok? then Got(frame.value, |b|) else Failed(frame.error)
    ensures (b + more)[|b|..] == more
  {
    SizeIsKnown(b, more, c);
    Parts(b, more);
  }

  lemma FrameIsShort(b: seq<byte>, target: nat, c: FrameCodec)
    requires |b| < target && (target == CONTROL_PREFIX_SIZE || c.size(b) == Ok(target))
    ensures First(b, c) == NeedMore
  {
  }

  /** Calling Read until it has to wait collects the frames of the stream. */
  method ReadAvailable(r: FrameReader, socket: Socket) returns (frames: seq<ControlFrame>, last: ReadOutcome)
    requires r.Valid()
    modifies r, socket
    ensures r.Valid() && socket.open == old(socket.open)
    ensures var p := Parse(old(r.bytes + socket.pending), r.codec);
      && frames == p.frames
      && (p.error.None? ==>
        last == (if socket.open then Waiting else Error(ECONNRESET)) && r.bytes == p.rest && socket.pending == [])
      && (p.error.Some? ==> last == Error(p.error.value))
  {
    frames := [];
    ghost var whole := Parse(r.bytes + socket.pending, r.codec);
    while true
      invariant r.Valid() && socket.open == old(socket.open)
      invariant Then(Parsed(frames, [], None), Parse(r.bytes + socket.pending, r.codec)) == whole
      decreases |r.bytes + socket.pending|
    {
      ghost var s := r.bytes + socket.pending;
      last := r.Read(socket);
      if !last.Frame? { return; }
      ParseGot(s, r.codec, last.frame, First(s, r.codec).size);
      assert r.bytes + socket.pending == s[First(s, r.codec).size..];
      Shift(frames, last.frame, Parse(r.bytes + socket.pending, r.codec).frames);
      frames := frames + [last.frame];
    }
  }

  /** Pieces arrive one by one, and after each the reader takes what it can. */
  method ReadArriving(r: FrameReader, socket: Socket, pieces: seq<seq<byte>>)
    returns (frames: seq<ControlFrame>, error: Option<Errno>)
    requires r.Valid() && r.bytes == [] && socket.pending == [] && socket.open
    modifies r, socket
    ensures var fed := FeedAll(pieces, r.codec);
      frames == fed.frames && error == fed.error && (error.None? ==> r.bytes == fed.rest && socket.pending == [])
  {
    frames, error := [], None;
    for i := 0 to |pieces|
      invariant r.Valid() && socket.open && frames == FeedAll(pieces[..i], r.codec).frames
          && error == FeedAll(pieces[..i], r.codec).error
      invariant error.None? ==> r.bytes == FeedAll(pieces[..i], r.codec).rest && socket.pending == []
    {
      assert pieces[..i + 1][..i] == pieces[..i];
      if error.None? {
        socket.Arrive(pieces[i]);
        assert [] + pieces[i] == pieces[i];
        var more, last := ReadAvailable(r, socket);
        frames := frames + more;
        if last.Error? { error := Some(last.error); }
      }
    }
    assert pieces[..|pieces|] == pieces;
  }

  // ---------------------------------------------------------------------
  // The control frame codec
  // ---------------------------------------------------------------------

  lemma {:induction false} TakeNumsOfFront(b: seq<byte>, more: seq<byte>, widths: seq<nat>)
    requires Total(widths) <= |b|
    ensures TakeNums(b + more, widths) == TakeNums(b, widths)
  {
    if widths != [] {
      var w := widths[0];
      assert (b + more)[..w] == b[..w] && (b + more)[w..] == b[w..] + more;
      TakeNumsOfFront(b[w..], more, widths[1..]);
    }
  }

  lemma SizeOfFront(b: seq<byte>, more: seq<byte>)
    requires |b| >= CONTROL_PREFIX_SIZE
    ensures ControlFrameSize(b + more) == ControlFrameSize(b)
  {
    Sizes();
    TakeNumsOfFront(b, more, PREFIX);
  }

  ghost function ControlCodec(reader: SnapshotReader): FrameCodec {
    var c := Codec(b => ControlFrameSize(b), b => DecodeControlFrame(b, reader));
    assert Framed(c) by {
      forall b, more | |b| >= CONTROL_PREFIX_SIZE ensures c.size(b + more) == c.size(b) { SizeOfFront(b, more); }
    }
    c
  }

  lemma DecodedIsEncoded(b: seq<byte>, f: ControlFrame, reader: SnapshotReader)
    requires DecodeControlFrame(b, reader) == Ok(f)
    ensures Encodes(ControlCodec(reader), f, b)
  {
  }

  /** Every valid frame travels through both readers. */
  lemma ValidFramesAreEncoded(f: ControlFrame, reader: SnapshotReader)
    requires ValidFrame(f, reader)
    ensures EncodeControlFrame(f, reader).Ok? && Encodes(ControlCodec(reader), f, EncodeControlFrame(f, reader).value)
  {
    DecodeOfEncode(f, reader);
    DecodedIsEncoded(EncodeControlFrame(f, reader).value, f, reader);
  }

  /** The bytes of each frame. */
  ghost predicate AreEncodings(frames: seq<ControlFrame>, sent: seq<seq<byte>>, reader: SnapshotReader) {
    |sent| == |frames| && forall i :: 0 <= i < |frames| ==> EncodeControlFrame(frames[i], reader) == Ok(sent[i])
  }

  /** Any valid frames, encoded one after the other and cut anywhere, come out of
      the pieces in order and with nothing left. */
  lemma FramesSurviveChunking(
      frames: seq<ControlFrame>, sent: seq<seq<byte>>, pieces: seq<seq<byte>>, reader: SnapshotReader)
    requires forall i :: 0 <= i < |frames| ==> ValidFrame(frames[i], reader)
    requires AreEncodings(frames, sent, reader) && Concat(pieces) == Concat(sent)
    ensures FeedAll(pieces, ControlCodec(reader)) == Parsed(frames, [], None)
  {
    hide ValidFrame, EncodeControlFrame, ControlCodec, Encodes;
    forall i | 0 <= i < |frames| ensures Encodes(ControlCodec(reader), frames[i], sent[i]) {
      ValidFramesAreEncoded(frames[i], reader);
    }
    AnyChunking(frames, sent, pieces, ControlCodec(reader));
  }
}
