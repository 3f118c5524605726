/**
 * gate/parser.go: length-prefixed frames. A frame starts with its own total
 * length as a 4-byte big-endian number; a message frame then carries a
 * 4-byte message id, a router frame an 8-byte user id, and then the data.
 */
module GateParser {
  import opened Wrappers
  import opened Gate

  const LengthSize := 4
  const MessageIdSize := 4
  const UserIdSize := 8

  const UINT32_LIMIT: nat := 0x1_0000_0000
  const INT64_MIN: int := -0x8000_0000_0000_0000
  const INT64_MAX: int := 0x7FFF_FFFF_FFFF_FFFF

  // ---------------------------------------------------------------- big-endian numbers

  function Pow256(k: nat): (r: nat)
    ensures r > 0
  {
    if k == 0 then 1 else 256 * Pow256(k - 1)
  }

  /** The k-byte big-endian encoding of n (PutUint32 for k = 4, PutUint64 for k = 8). */
  function BigEndian(n: nat, k: nat): (r: seq<Byte>)
    ensures |r| == k
  {
    if k == 0 then [] else BigEndian(n / 256, k - 1) + [n % 256]
  }

  /** The number a big-endian byte string denotes (binary.BigEndian.Uint32 / Uint64). */
  function BigEndianValue(s: seq<Byte>): (v: nat)
    ensures v < Pow256(|s|)
  {
    if |s| == 0 then 0 else BigEndianValue(s[..|s| - 1]) * 256 + s[|s| - 1]
  }

  /** Decoding an encoding gives the number back when it fits in k bytes. */
  lemma {:induction false} BigEndianRoundTrip(n: nat, k: nat)
    requires n < Pow256(k)
    ensures BigEndianValue(BigEndian(n, k)) == n
  {
    if k > 0 {
      var r := BigEndian(n, k);
      assert r[..k - 1] == BigEndian(n / 256, k - 1);
      assert n / 256 < Pow256(k - 1);
      BigEndianRoundTrip(n / 256, k - 1);
    }
  }

  /** int32(u) for a uint32 u. */
  function Int32Of(u: nat): (x: int)
    requires u < UINT32_LIMIT
    ensures INT32_MIN <= x <= INT32_MAX
    ensures Uint32Of(x) == u
  {
    if u < 0x8000_0000 then u else u - UINT32_LIMIT
  }

  /** uint64(x) for an int64 x. */
  function Uint64Of(x: int): (r: nat)
    requires INT64_MIN <= x <= INT64_MAX
    ensures r < Pow256(8)
  {
    assert Pow256(8) == 0x1_0000_0000_0000_0000;
    if x < 0 then x + 0x1_0000_0000_0000_0000 else x
  }

  /** int64(u) for a uint64 u. */
  function Int64Of(u: nat): (x: int)
    requires u < Pow256(8)
    ensures INT64_MIN <= x <= INT64_MAX
    ensures Uint64Of(x) == u
  {
    assert Pow256(8) == 0x1_0000_0000_0000_0000;
    if u < 0x8000_0000_0000_0000 then u else u - 0x1_0000_0000_0000_0000
  }

  // ---------------------------------------------------------------- frames as values

  /** Wrap panics (an out-of-range slice) when the 32-bit frame size wraps below the header size. */
  datatype WrapPanic = FrameSizeOverflow(frameSize: nat)

  /**
   * The frame Wrap builds around an id field: the size is computed in 32
   * bits, so it wraps for huge buffers and then only part of the buffer is
   * copied; a wrapped size smaller than the header panics.
   */
  function FrameOf(idField: seq<Byte>, buffer: seq<Byte>): (r: Result<seq<Byte>, WrapPanic>)
    ensures r.Ok? ==> |r.value| == (|buffer| + LengthSize + |idField|) % UINT32_LIMIT
    ensures |buffer| + LengthSize + |idField| < UINT32_LIMIT ==>
      r == Ok(BigEndian(|buffer| + LengthSize + |idField|, 4) + idField + buffer)
  {
    var frameSize := (|buffer| + LengthSize + |idField|) % UINT32_LIMIT;
    if frameSize < LengthSize + |idField| then Err(FrameSizeOverflow(frameSize))
    else
      assert |buffer| + LengthSize + |idField| < UINT32_LIMIT ==>
        frameSize == |buffer| + LengthSize + |idField| && buffer[..frameSize - LengthSize - |idField|] == buffer;
      Ok(BigEndian(frameSize, 4) + idField + buffer[..frameSize - LengthSize - |idField|])
  }

  /** The message frame Wrap(messageId, buffer) builds. */
  function MessageFrame(messageId: int, buffer: seq<Byte>): Result<seq<Byte>, WrapPanic>
    requires INT32_MIN <= messageId <= INT32_MAX
  {
    FrameOf(BigEndian(Uint32Of(messageId), 4), buffer)
  }

  /** The router frame Wrap(userId, buffer) builds. */
  function RouterFrame(userId: int, buffer: seq<Byte>): Result<seq<Byte>, WrapPanic>
    requires INT64_MIN <= userId <= INT64_MAX
  {
    FrameOf(BigEndian(Uint64Of(userId), 8), buffer)
  }

  /**
   * messageFrameParser.Parse: the message id and the data after the 8-byte
   * header; a frame whose length, truncated to 32 bits, is below 8 gives
   * (0, nil, false). The length field is not checked.
   */
  function ParseMessage(frame: seq<Byte>): (r: (int, seq<Byte>, bool))
    ensures |frame| % UINT32_LIMIT < LengthSize + MessageIdSize ==> r == (0, [], false)
    ensures |frame| % UINT32_LIMIT >= LengthSize + MessageIdSize ==>
      r.2 && r.1 == frame[8..] && INT32_MIN <= r.0 <= INT32_MAX && Uint32Of(r.0) == BigEndianValue(frame[4..8])
  {
    if |frame| % UINT32_LIMIT < LengthSize + MessageIdSize then (0, [], false)
    else (Int32Of(BigEndianValue(frame[4..8])), frame[8..], true)
  }

  /**
   * routerFrameParser.Parse: the user id and the data after the 12-byte
   * header, with the same 32-bit truncation of the length test.
   */
  function ParseRouter(frame: seq<Byte>): (r: (int, seq<Byte>, bool))
    ensures |frame| % UINT32_LIMIT < LengthSize + UserIdSize ==> r == (0, [], false)
    ensures |frame| % UINT32_LIMIT >= LengthSize + UserIdSize ==>
      r.2 && r.1 == frame[12..] && INT64_MIN <= r.0 <= INT64_MAX && Uint64Of(r.0) == BigEndianValue(frame[4..12])
  {
    if |frame| % UINT32_LIMIT < LengthSize + UserIdSize then (0, [], false)
    else (Int64Of(BigEndianValue(frame[4..12])), frame[12..], true)
  }

  /** The id field and data of a frame built by FrameOf sit where Parse looks for them. */
  lemma FrameFields(idField: seq<Byte>, buffer: seq<Byte>, f: seq<Byte>)
    requires f == BigEndian(|buffer| + LengthSize + |idField|, 4) + idField + buffer
    ensures f[..4] == BigEndian(|buffer| + LengthSize + |idField|, 4)
    ensures f[4..4 + |idField|] == idField
    ensures f[4 + |idField|..] == buffer
  {
  }

  /** A message frame carries its own length in its first four bytes. */
  lemma MessageFrameLength(messageId: int, buffer: seq<Byte>)
    requires INT32_MIN <= messageId <= INT32_MAX
    requires |buffer| + 8 < UINT32_LIMIT
    ensures MessageFrame(messageId, buffer).Ok?
    ensures var f := MessageFrame(messageId, buffer).value;
      |f| == |buffer| + 8 && BigEndianValue(f[..4]) == |f|
  {
    var f := MessageFrame(messageId, buffer).value;
    FrameFields(BigEndian(Uint32Of(messageId), 4), buffer, f);
    assert Pow256(4) == UINT32_LIMIT;
    BigEndianRoundTrip(|buffer| + 8, 4);
  }

  /**
   * A reader positioned at a wrapped message frame sees that frame's size in
   * the length field, so ReadOneFrame returns the frame byte for byte when
   * the size is below the limit.
   */
  lemma WrappedFrameReadsBack(data: seq<Byte>, p0: nat, messageId: int, buffer: seq<Byte>)
    requires INT32_MIN <= messageId <= INT32_MAX
    requires |buffer| + 8 < UINT32_LIMIT
    requires MessageFrame(messageId, buffer).Ok?
    requires p0 + |MessageFrame(messageId, buffer).value| <= |data|
    requires data[p0..p0 + |MessageFrame(messageId, buffer).value|] == MessageFrame(messageId, buffer).value
    ensures var f := MessageFrame(messageId, buffer).value;
      BigEndianValue(data[p0..p0 + 4]) == |f| && data[p0..p0 + |f|] == f && |f| >= LengthSize + MessageIdSize
  {
    var f := MessageFrame(messageId, buffer).value;
    MessageFrameLength(messageId, buffer);
    assert data[p0..p0 + 4] == f[..4];
  }

  /** Parse undoes Wrap for a message frame whose size fits in 32 bits. */
  lemma MessageRoundTrip(messageId: int, buffer: seq<Byte>)
    requires INT32_MIN <= messageId <= INT32_MAX
    requires |buffer| + 8 < UINT32_LIMIT
    ensures MessageFrame(messageId, buffer).Ok?
    ensures ParseMessage(MessageFrame(messageId, buffer).value) == (messageId, buffer, true)
  {
    var idField := BigEndian(Uint32Of(messageId), 4);
    var f := MessageFrame(messageId, buffer).value;
    FrameFields(idField, buffer, f);
    assert Pow256(4) == UINT32_LIMIT;
    BigEndianRoundTrip(Uint32Of(messageId), 4);
    assert Int32Of(Uint32Of(messageId)) == messageId;
  }

  /** Parse undoes Wrap for a router frame whose size fits in 32 bits. */
  lemma RouterRoundTrip(userId: int, buffer: seq<Byte>)
    requires INT64_MIN <= userId <= INT64_MAX
    requires |buffer| + 12 < UINT32_LIMIT
    ensures RouterFrame(userId, buffer).Ok?
    ensures ParseRouter(RouterFrame(userId, buffer).value) == (userId, buffer, true)
  {
    var idField := BigEndian(Uint64Of(userId), 8);
    var f := RouterFrame(userId, buffer).value;
    FrameFields(idField, buffer, f);
    BigEndianRoundTrip(Uint64Of(userId), 8);
    assert Pow256(8) == 0x1_0000_0000_0000_0000;
    assert Int64Of(Uint64Of(userId)) == userId;
  }

  /**
   * DecodeAuthorFrame: an auth frame is a router frame with user id 0 and two
   * data bytes, the app id and the cluster id; the app id must be a cluster
   * type. Anything else gives (0, 0, false).
   */
  function DecodeAuthorFrame(frame: seq<Byte>): (r: (ServerType, Byte, bool))
    ensures r.2 <==> (ParseRouter(frame).2 && ParseRouter(frame).0 == 0 && |ParseRouter(frame).1| == 2
      && IsCluster(ParseRouter(frame).1[0]))
    ensures r.2 ==> r.0 == ParseRouter(frame).1[0] && r.1 == ParseRouter(frame).1[1]
    ensures !r.2 ==> r.0 == 0 && r.1 == 0
  {
    var (userId, buffer, ok) := ParseRouter(frame);
    if !ok || userId != 0 || |buffer| != 2 then (0, 0, false)
    else if !IsCluster(buffer[0]) then (0, 0, false)
    else (buffer[0], buffer[1], true)
  }

  /** Decoding an auth frame gives back its app and cluster ids exactly when the app id is a cluster type. */
  lemma AuthorRoundTrip(appId: ServerType, clusterId: Byte)
    ensures RouterFrame(0, [appId, clusterId]).Ok?
    ensures DecodeAuthorFrame(RouterFrame(0, [appId, clusterId]).value) ==
      if IsCluster(appId) then (appId, clusterId, true) else (0, 0, false)
  {
    RouterRoundTrip(0, [appId, clusterId]);
  }

  // ---------------------------------------------------------------- frames in buffers

  /** Wrap's behaviour on a freshly allocated buffer: size, then id field, then the copied data. */
  method WrapInto(idField: seq<Byte>, buffer: seq<Byte>) returns (r: Result<array<Byte>, WrapPanic>)
    ensures r.Ok? <==> FrameOf(idField, buffer).Ok?
    ensures r.Ok? ==> r.value[..] == FrameOf(idField, buffer).value
    ensures r.Err? ==> r == Err(FrameOf(idField, buffer).error)
  {
    var h := LengthSize + |idField|;
    var frameSize := (|buffer| + h) % UINT32_LIMIT;
    if frameSize < h {
      return Err(FrameSizeOverflow(frameSize));
    }
    var frame := new Byte[frameSize];
    var size := BigEndian(frameSize, 4);
    var i := 0;
    while i < 4
      invariant 0 <= i <= 4
      invariant frame[..i] == size[..i]
    {
      frame[i] := size[i];
      i := i + 1;
    }
    while i < h
      invariant 4 <= i <= h
      invariant frame[..i] == size + idField[..i - 4]
    {
      frame[i] := idField[i - 4];
      i := i + 1;
    }
    while i < frameSize
      invariant h <= i <= frameSize
      invariant frame[..i] == size + idField + buffer[..i - h]
    {
      frame[i] := buffer[i - h];
      i := i + 1;
    }
    assert frame[..] == frame[..i];
    return Ok(frame);
  }

  /** An io.Reader over a fixed byte string, read from a position that only moves forward. */
  class Reader {
    const data: seq<Byte>
    var pos: nat

    predicate Valid()
      reads this
    {
      pos <= |data|
    }

    constructor (data: seq<Byte>)
      ensures this.data == data && pos == 0 && Valid()
    {
      this.data := data;
      pos := 0;
    }

    /**
     * io.ReadFull(r, buf[from:]): fills the slice when enough bytes remain;
     * otherwise consumes the rest and reports EOF if nothing was read,
     * ErrUnexpectedEOF if something was.
     */
    method ReadFull(buf: array<Byte>, from: nat) returns (err: Option<ReadError>)
      requires Valid() && from <= buf.Length
      modifies this`pos, buf
      ensures Valid()
      ensures buf[..from] == old(buf[..from])
      ensures |data| - old(pos) >= buf.Length - from ==>
        err.None? && pos == old(pos) + buf.Length - from && buf[from..] == data[old(pos)..pos]
      ensures |data| - old(pos) < buf.Length - from ==>
        pos == |data| && err == Some(if old(pos) == |data| then Eof else UnexpectedEof)
    {
      var need := buf.Length - from;
      var avail := |data| - pos;
      var n := if avail < need then avail else need;
      var i := 0;
      while i < n
        invariant 0 <= i <= n
        invariant pos == old(pos)
        invariant buf[..from] == old(buf[..from])
        invariant forall k :: from <= k < from + i ==> buf[k] == data[pos + (k - from)]
      {
        buf[from + i] := data[pos + i];
        i := i + 1;
      }
      assert buf[from..from + n] == data[pos..pos + n];
      pos := pos + n;
      if n < need {
        err := Some(if n == 0 then Eof else UnexpectedEof);
      } else {
        assert buf[from..] == buf[from..from + n];
        err := None;
      }
    }
  }

  /** A failed frame read: the reader ran dry, or the length field is out of range. */
  datatype ReadError = Eof | UnexpectedEof | ErrorWrongLength

  /**
   * What reading one frame at p0 gives, with the reader left at pos: fewer
   * than 4 bytes are EOF (none) or ErrUnexpectedEOF (some), after consuming
   * them; a length outside [minLength, maxFrameSize) is ErrorWrongLength once
   * the 4 length bytes are consumed; a body shorter than the length is EOF
   * (no body byte) or ErrUnexpectedEOF, after consuming the rest; otherwise
   * the frame is the next length bytes, all consumed.
   */
  ghost predicate ReadFrameOutcome(data: seq<Byte>, p0: nat, pos: nat, maxFrameSize: nat, minLength: nat,
                                   r: Result<array<Byte>, ReadError>)
    requires p0 <= |data|
    reads if r.Ok? then {r.value} else {}
  {
    var avail := |data| - p0;
    && (avail < 4 ==> r == Err(if avail == 0 then Eof else UnexpectedEof) && pos == |data|)
    && (avail >= 4 ==>
         var length := BigEndianValue(data[p0..p0 + 4]);
         && ((length >= maxFrameSize || length < minLength) ==> r == Err(ErrorWrongLength) && pos == p0 + 4)
         && (minLength <= length < maxFrameSize && avail >= length ==>
              r.Ok? && r.value[..] == data[p0..p0 + length] && pos == p0 + length)
         && (minLength <= length < maxFrameSize && avail < length ==>
              r == Err(if avail == 4 then Eof else UnexpectedEof) && pos == |data|))
  }

  /**
   * ReadOneFrame of either parser: the 4-byte length is read first and must
   * lie in [minLength, maxFrameSize); then the rest of the frame is read
   * into a buffer of exactly that length, which starts with the length
   * bytes. minLength is 8 for message frames and 12 for router frames.
   */
  method ReadFrame(reader: Reader, maxFrameSize: nat, minLength: nat) returns (r: Result<array<Byte>, ReadError>)
    requires reader.Valid() && minLength >= LengthSize
    modifies reader
    ensures reader.Valid()
    ensures ReadFrameOutcome(reader.data, old(reader.pos), reader.pos, maxFrameSize, minLength, r)
  {
    ghost var p0 := reader.pos;
    var headData := new Byte[LengthSize];
    var err := reader.ReadFull(headData, 0);
    if err.Some? {
      return Err(err.value);
    }
    var length := BigEndianValue(headData[..]);
    if length >= maxFrameSize || length < minLength {
      return Err(ErrorWrongLength);
    }
    assert headData[..] == reader.data[p0..p0 + 4];
    var frame := new Byte[length];
    var i := 0;
    while i < LengthSize
      invariant 0 <= i <= LengthSize
      invariant reader.Valid() && reader.pos == p0 + 4
      invariant headData[..] == reader.data[p0..p0 + 4]
      invariant frame[..i] == headData[..i]
    {
      frame[i] := headData[i];
      i := i + 1;
    }
    assert frame[..LengthSize] == reader.data[p0..p0 + 4];
    err := reader.ReadFull(frame, LengthSize);
    if err.Some? {
      return Err(err.value);
    }
    assert frame[LengthSize..] == reader.data[p0 + 4..p0 + length];
    assert frame[..] == frame[..LengthSize] + frame[LengthSize..];
    assert reader.data[p0..p0 + length] == reader.data[p0..p0 + 4] + reader.data[p0 + 4..p0 + length];
    return Ok(frame);
  }

  /** A message frame parser: the frame size limit is fixed at construction. */
  datatype MessageFrameParser = MessageFrameParser(maxFrameSize: nat) {
    method ReadOneFrame(reader: Reader) returns (r: Result<array<Byte>, ReadError>)
      requires reader.Valid()
      modifies reader
      ensures reader.Valid()
      ensures ReadFrameOutcome(reader.data, old(reader.pos), reader.pos, maxFrameSize, LengthSize + MessageIdSize, r)
    {
      r := ReadFrame(reader, maxFrameSize, LengthSize + MessageIdSize);
    }

    /** Wrap: the frame of messageId and buffer in a new buffer. */
    method Wrap(messageId: int, buffer: seq<Byte>) returns (r: Result<array<Byte>, WrapPanic>)
      requires INT32_MIN <= messageId <= INT32_MAX
      ensures r.Ok? <==> MessageFrame(messageId, buffer).Ok?
      ensures r.Ok? ==> r.value[..] == MessageFrame(messageId, buffer).value
    {
      r := WrapInto(BigEndian(Uint32Of(messageId), 4), buffer);
    }
  }

  /** A router frame parser, with its auth frames. */
  datatype RouterFrameParser = RouterFrameParser(maxFrameSize: nat) {
    method ReadOneFrame(reader: Reader) returns (r: Result<array<Byte>, ReadError>)
      requires reader.Valid()
      modifies reader
      ensures reader.Valid()
      ensures ReadFrameOutcome(reader.data, old(reader.pos), reader.pos, maxFrameSize, LengthSize + UserIdSize, r)
    {
      r := ReadFrame(reader, maxFrameSize, LengthSize + UserIdSize);
    }

    /** Wrap: the frame of userId and buffer in a new buffer. */
    method Wrap(userId: int, buffer: seq<Byte>) returns (r: Result<array<Byte>, WrapPanic>)
      requires INT64_MIN <= userId <= INT64_MAX
      ensures r.Ok? <==> RouterFrame(userId, buffer).Ok?
      ensures r.Ok? ==> r.value[..] == RouterFrame(userId, buffer).value
    {
      r := WrapInto(BigEndian(Uint64Of(userId), 8), buffer);
    }

    /** CreateAuthorFrame: user id 0 and the two bytes appId, clusterId; decoding it gives them back for a cluster type. */
    method CreateAuthorFrame(appId: ServerType, clusterId: Byte) returns (frame: array<Byte>)
      ensures frame[..] == RouterFrame(0, [appId, clusterId]).value
      ensures DecodeAuthorFrame(frame[..]) == if IsCluster(appId) then (appId, clusterId, true) else (0, 0, false)
    {
      AuthorRoundTrip(appId, clusterId);
      var r := Wrap(0, [appId, clusterId]);
      frame := r.value;
    }
  }
}
