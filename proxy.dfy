/**
 * grpcx/grpcproxy: the transparent stream handler that relays frames
 * between the caller's server stream and a client stream to the backend.
 *
 * A stream is an object holding what it will deliver (the frames still to
 * be received, then the error that ends them), how many sends it accepts
 * before failing, and the log of everything written to it. The two relay
 * directions touch disjoint parts of the two streams, so they are run one
 * after the other.
 */
module GrpcProxy {
  import opened Wrappers
  import opened GrpcStatus
  import opened GrpcMetadata

  /** A raw message frame. */
  type Frame = seq<bv8>

  /** An error a stream operation returns: io.EOF, or any other error with its text. */
  datatype StreamError = Eof | Failure(text: string)

  /** What %v prints for an error. */
  function ErrorText(e: StreamError): string {
    match e
    case Eof => "EOF"
    case Failure(t) => t
  }

  /** What is written to a stream, in order. */
  datatype Event = HeaderSent(md: MD) | MsgSent(frame: Frame) | TrailerSet(md: MD) | SendClosed

  /** The MsgSent events of a list of frames, in order. */
  function Msgs(fs: seq<Frame>): (r: seq<Event>)
    ensures |r| == |fs|
    ensures forall i :: 0 <= i < |fs| ==> r[i] == MsgSent(fs[i])
  {
    seq(|fs|, i requires 0 <= i < |fs| => MsgSent(fs[i]))
  }

  lemma MsgsSnoc(fs: seq<Frame>, f: Frame)
    ensures Msgs(fs + [f]) == Msgs(fs) + [MsgSent(f)]
  {
  }

  lemma MsgsAppend(a: seq<Frame>, b: seq<Frame>)
    ensures Msgs(a + b) == Msgs(a) + Msgs(b)
  {
  }

  class Stream {
    /** The frames RecvMsg delivers, in order. */
    const inbox: seq<Frame>
    /** What RecvMsg returns once the inbox is exhausted. */
    const inboxEnd: StreamError
    /** SendMsg fails once this many frames have been sent; None: it never fails. */
    const failSendAt: Option<nat>
    const sendError: StreamError
    /** What Header() returns (the backend's response header). */
    const header: Result<MD, StreamError>
    /** What SendHeader returns. */
    const sendHeaderError: Option<StreamError>
    /** What Trailer() returns (the backend's trailer). */
    const trailer: MD

    var recvPos: nat
    var sent: nat
    var outbox: seq<Event>

    predicate Valid()
      reads this
    {
      recvPos <= |inbox|
    }

    /** Frames this stream still accepts before SendMsg fails; None: no limit. */
    function Room(): Option<nat>
      reads this
    {
      if failSendAt.None? then None
      else if sent <= failSendAt.value then Some(failSendAt.value - sent)
      else Some(0)
    }

    constructor (inbox: seq<Frame>, inboxEnd: StreamError, failSendAt: Option<nat>, sendError: StreamError,
                 header: Result<MD, StreamError>, sendHeaderError: Option<StreamError>, trailer: MD)
      ensures this.inbox == inbox && this.inboxEnd == inboxEnd
      ensures this.failSendAt == failSendAt && this.sendError == sendError
      ensures this.header == header && this.sendHeaderError == sendHeaderError && this.trailer == trailer
      ensures recvPos == 0 && sent == 0 && outbox == []
      ensures Valid()
    {
      this.inbox := inbox;
      this.inboxEnd := inboxEnd;
      this.failSendAt := failSendAt;
      this.sendError := sendError;
      this.header := header;
      this.sendHeaderError := sendHeaderError;
      this.trailer := trailer;
      recvPos := 0;
      sent := 0;
      outbox := [];
    }

    /** RecvMsg: the next frame, or the end error once there are none left. */
    method RecvMsg() returns (r: Result<Frame, StreamError>)
      requires Valid()
      modifies this`recvPos
      ensures Valid()
      ensures old(recvPos) < |inbox| ==> r == Ok(inbox[old(recvPos)]) && recvPos == old(recvPos) + 1
      ensures old(recvPos) == |inbox| ==> r == Err(inboxEnd) && recvPos == old(recvPos)
    {
      if recvPos < |inbox| {
        r := Ok(inbox[recvPos]);
        recvPos := recvPos + 1;
      } else {
        r := Err(inboxEnd);
      }
    }

    /** SendMsg: the frame is logged while there is room, otherwise the send error is returned. */
    method SendMsg(f: Frame) returns (err: Option<StreamError>)
      modifies this`sent, this`outbox
      ensures old(Room()) != Some(0) ==> err.None? && sent == old(sent) + 1 && outbox == old(outbox) + [MsgSent(f)]
      ensures old(Room()) == Some(0) ==> err == Some(sendError) && sent == old(sent) && outbox == old(outbox)
    {
      if failSendAt.None? || sent < failSendAt.value {
        sent := sent + 1;
        outbox := outbox + [MsgSent(f)];
        err := None;
      } else {
        err := Some(sendError);
      }
    }

    method SendHeader(md: MD) returns (err: Option<StreamError>)
      modifies this`outbox
      ensures err == sendHeaderError
      ensures err.None? ==> outbox == old(outbox) + [HeaderSent(md)]
      ensures err.Some? ==> outbox == old(outbox)
    {
      err := sendHeaderError;
      if err.None? {
        outbox := outbox + [HeaderSent(md)];
      }
    }

    method SetTrailer(md: MD)
      modifies this`outbox
      ensures outbox == old(outbox) + [TrailerSet(md)]
    {
      outbox := outbox + [TrailerSet(md)];
    }

    method CloseSend()
      modifies this`outbox
      ensures outbox == old(outbox) + [SendClosed]
    {
      outbox := outbox + [SendClosed];
    }
  }

  /** How many of rem frames are relayed to a stream with the given room. */
  function RelayCount(rem: nat, room: Option<nat>): (n: nat)
    ensures n <= rem
    ensures n == rem <==> room.None? || room.value >= rem
    ensures n < rem ==> n == room.value
  {
    if room.Some? && room.value < rem then room.value else rem
  }

  /** The error that ends a relay loop: the send error if the room runs out first, else the receive end. */
  function RelayEnd(rem: nat, room: Option<nat>, end: StreamError, sendError: StreamError): StreamError {
    if RelayCount(rem, room) < rem then sendError else end
  }

  /** The room left after one successful send. */
  function AfterSend(room: Option<nat>): Option<nat> {
    if room.None? then None else Some(if room.value > 0 then room.value - 1 else 0)
  }

  /** Relaying rem frames is sending the first one and relaying the rest with one send less of room. */
  lemma RelayShift(rem: nat, room: Option<nat>, end: StreamError, sendError: StreamError)
    requires rem > 0 && room != Some(0)
    ensures RelayCount(rem, room) == 1 + RelayCount(rem - 1, AfterSend(room))
    ensures RelayEnd(rem, room, end, sendError) == RelayEnd(rem - 1, AfterSend(room), end, sendError)
    ensures (RelayCount(rem, room) == rem) == (RelayCount(rem - 1, AfterSend(room)) == rem - 1)
  {
  }

  /** What forwardServerToClient returns: nil after EOF, else the error that ended the loop. */
  function S2CError(rem: nat, room: Option<nat>, end: StreamError, sendError: StreamError): (r: Option<StreamError>)
    ensures r.None? <==> RelayCount(rem, room) == rem && end == Eof
    ensures r.Some? ==> r.value == RelayEnd(rem, room, end, sendError)
  {
    var e := RelayEnd(rem, room, end, sendError);
    if RelayCount(rem, room) == rem && e == Eof then None else Some(e)
  }

  /**
   * What forwardClientToServer returns: the first receive's error (EOF
   * included), the header error, the header send error, or else what the
   * relay loop ends with, mapping EOF to nil.
   */
  function C2SError(rem: nat, header: Result<MD, StreamError>, sendHeaderError: Option<StreamError>,
                    room: Option<nat>, end: StreamError, sendError: StreamError): (r: Option<StreamError>)
    ensures rem == 0 ==> r == Some(end)
    ensures rem > 0 && header.Err? ==> r == Some(header.error)
    ensures rem > 0 && header.Ok? && sendHeaderError.Some? ==> r == sendHeaderError
    ensures rem > 0 && header.Ok? && sendHeaderError.None? ==> r == S2CError(rem, room, end, sendError)
  {
    if rem == 0 then Some(end)
    else if header.Err? then Some(header.error)
    else if sendHeaderError.Some? then sendHeaderError
    else S2CError(rem, room, end, sendError)
  }

  /**
   * The receive/send loop both directions share: frames are taken from src
   * and sent to dst in order until a receive or a send fails; the failing
   * operation's error is returned.
   */
  method Relay(src: Stream, dst: Stream) returns (err: StreamError, recvFailed: bool)
    requires src != dst && src.Valid()
    modifies src`recvPos, dst`sent, dst`outbox
    ensures src.Valid()
    ensures var p0 := old(src.recvPos);
      var rem := |src.inbox| - p0;
      var n := RelayCount(rem, old(dst.Room()));
      && dst.outbox == old(dst.outbox) + Msgs(src.inbox[p0..p0 + n])
      && dst.sent == old(dst.sent) + n
      && src.recvPos == p0 + n + (if n < rem then 1 else 0)
      && err == RelayEnd(rem, old(dst.Room()), src.inboxEnd, dst.sendError)
      && (recvFailed <==> n == rem)
  {
    ghost var p0 := src.recvPos;
    ghost var rem := |src.inbox| - p0;
    ghost var room0 := dst.Room();
    ghost var n := RelayCount(rem, room0);
    ghost var out0 := dst.outbox;
    ghost var sent0 := dst.sent;
    while true
      invariant src.Valid() && p0 <= src.recvPos <= p0 + n
      invariant dst.sent == sent0 + (src.recvPos - p0)
      invariant dst.outbox == out0 + Msgs(src.inbox[p0..src.recvPos])
      invariant dst.Room() == (if room0.None? then None else Some(room0.value - (src.recvPos - p0)))
      decreases |src.inbox| - src.recvPos
    {
      var r := src.RecvMsg();
      if r.Err? {
        return r.error, true;
      }
      var e := dst.SendMsg(r.value);
      if e.Some? {
        return e.value, false;
      }
      MsgsSnoc(src.inbox[p0..src.recvPos - 1], r.value);
      assert src.inbox[p0..src.recvPos] == src.inbox[p0..src.recvPos - 1] + [r.value];
    }
  }

  /** forwardServerToClient: caller frames go to the backend; EOF closes the backend's send side and gives nil. */
  method ForwardServerToClient(ss: Stream, cs: Stream) returns (err: Option<StreamError>)
    requires ss != cs && ss.Valid()
    modifies ss`recvPos, cs`sent, cs`outbox
    ensures ss.Valid()
    ensures var p0 := old(ss.recvPos);
      var rem := |ss.inbox| - p0;
      var n := RelayCount(rem, old(cs.Room()));
      && err == S2CError(rem, old(cs.Room()), ss.inboxEnd, cs.sendError)
      && cs.outbox == old(cs.outbox) + Msgs(ss.inbox[p0..p0 + n]) + (if err.None? then [SendClosed] else [])
  {
    var e, recvFailed := Relay(ss, cs);
    if recvFailed && e == Eof {
      cs.CloseSend();
      return None;
    }
    return Some(e);
  }

  /** The body of forwardClientToServer, before the deferred SetTrailer. */
  method ClientToServerBody(cs: Stream, ss: Stream) returns (err: Option<StreamError>)
    requires ss != cs && cs.Valid()
    modifies cs`recvPos, ss`sent, ss`outbox
    ensures cs.Valid()
    ensures var p0 := old(cs.recvPos);
      var rem := |cs.inbox| - p0;
      var n := RelayCount(rem, old(ss.Room()));
      && err == C2SError(rem, cs.header, ss.sendHeaderError, old(ss.Room()), cs.inboxEnd, ss.sendError)
      && ss.outbox == old(ss.outbox) +
        (if rem > 0 && cs.header.Ok? && ss.sendHeaderError.None?
         then [HeaderSent(cs.header.value)] + Msgs(cs.inbox[p0..p0 + n])
         else [])
  {
    ghost var p0 := cs.recvPos;
    ghost var rem := |cs.inbox| - p0;
    ghost var room0 := ss.Room();
    var first := cs.RecvMsg();
    if first.Err? {
      return Some(first.error);
    }
    if cs.header.Err? {
      return Some(cs.header.error);
    }
    var md := cs.header.value;
    var he := ss.SendHeader(md);
    if he.Some? {
      return he;
    }
    ghost var out1 := ss.outbox;
    var se := ss.SendMsg(first.value);
    if se.Some? {
      assert room0 == Some(0);
      assert cs.inbox[p0..p0 + 0] == [];
      return se;
    }
    assert ss.outbox == out1 + Msgs(cs.inbox[p0..p0 + 1]);
    err := RelayAfterFirst(cs, ss, p0, room0, out1);
  }

  /** The relay loop of forwardClientToServer, once the first frame (at p0) went through. */
  method RelayAfterFirst(cs: Stream, ss: Stream, ghost p0: nat, ghost room0: Option<nat>, ghost out0: seq<Event>)
    returns (err: Option<StreamError>)
    requires ss != cs && cs.Valid()
    requires cs.recvPos == p0 + 1 && room0 != Some(0)
    requires ss.Room() == AfterSend(room0)
    requires ss.outbox == out0 + Msgs(cs.inbox[p0..p0 + 1])
    modifies cs`recvPos, ss`sent, ss`outbox
    ensures cs.Valid()
    ensures var n := RelayCount(|cs.inbox| - p0, room0);
      && ss.outbox == out0 + Msgs(cs.inbox[p0..p0 + n])
      && err == S2CError(|cs.inbox| - p0, room0, cs.inboxEnd, ss.sendError)
  {
    ghost var rem := |cs.inbox| - p0;
    RelayShift(rem, room0, cs.inboxEnd, ss.sendError);
    RelayShiftError(rem, room0, cs.inboxEnd, ss.sendError);
    ghost var n := RelayCount(rem, room0);
    JoinRelayed(cs.inbox, p0, n, out0);
    var e, recvFailed := Relay(cs, ss);
    if recvFailed && e == Eof {
      return None;
    }
    return Some(e);
  }

  /** The first frame's event followed by the rest's is the events of all n frames. */
  lemma JoinRelayed(inbox: seq<Frame>, p0: nat, n: nat, out0: seq<Event>)
    requires 1 <= n && p0 + n <= |inbox|
    ensures out0 + Msgs(inbox[p0..p0 + 1]) + Msgs(inbox[p0 + 1..p0 + n]) == out0 + Msgs(inbox[p0..p0 + n])
  {
    assert inbox[p0..p0 + n] == inbox[p0..p0 + 1] + inbox[p0 + 1..p0 + n];
    MsgsAppend(inbox[p0..p0 + 1], inbox[p0 + 1..p0 + n]);
  }

  /** forwardClientToServer's loop result, in terms of the loop over the frames after the first. */
  lemma RelayShiftError(rem: nat, room: Option<nat>, end: StreamError, sendError: StreamError)
    requires rem > 0 && room != Some(0)
    ensures var e := RelayEnd(rem - 1, AfterSend(room), end, sendError);
      S2CError(rem, room, end, sendError) ==
        (if RelayCount(rem - 1, AfterSend(room)) == rem - 1 && e == Eof then None else Some(e))
  {
    RelayShift(rem, room, end, sendError);
  }

  /** forwardClientToServer: the body, then the backend's trailer is set on the caller on every exit. */
  method ForwardClientToServer(cs: Stream, ss: Stream) returns (err: Option<StreamError>)
    requires ss != cs && cs.Valid()
    modifies cs`recvPos, ss`sent, ss`outbox
    ensures cs.Valid()
    ensures var p0 := old(cs.recvPos);
      var rem := |cs.inbox| - p0;
      var n := RelayCount(rem, old(ss.Room()));
      && err == C2SError(rem, cs.header, ss.sendHeaderError, old(ss.Room()), cs.inboxEnd, ss.sendError)
      && ss.outbox == old(ss.outbox) +
        (if rem > 0 && cs.header.Ok? && ss.sendHeaderError.None?
         then [HeaderSent(cs.header.value)] + Msgs(cs.inbox[p0..p0 + n])
         else [])
        + [TrailerSet(cs.trailer)]
  {
    err := ClientToServerBody(cs, ss);
    ss.SetTrailer(cs.trailer);
  }

  /** What handle returns when it fails. */
  datatype HandleError<E> =
    | StatusError(status: Status)      // a status error made by the handler
    | DirectorError(directorError: E)          // the director's error, unchanged
    | StreamFailure(streamError: StreamError)  // an error from opening or relaying, unchanged

  const NoMethodMessage := "lowLevelServerStream not exists in context"
  const S2CPrefix := "failed proxying s2c: "

  /**
   * handle: without a method name, Internal before the director is asked; a
   * director error or an error opening the backend stream is returned as is.
   * Otherwise both directions run; an s2c error wins, wrapped as Internal,
   * then the c2s error as is, else nil. `director` gives the director's
   * error for a method name; `open` is what opening the client stream gives.
   */
  method Handle<E>(ss: Stream, fullMethodName: Option<string>, director: string -> Option<E>, open: Result<Stream, StreamError>)
    returns (err: Option<HandleError<E>>)
    requires ss.Valid()
    requires open.Ok? ==> open.value != ss && open.value.Valid()
    modifies ss, if open.Ok? then {open.value} else {}
    ensures fullMethodName.None? ==> err == Some(StatusError(Status(Internal, NoMethodMessage))) && unchanged(ss)
    ensures fullMethodName.Some? && director(fullMethodName.value).Some? ==>
      err == Some(DirectorError(director(fullMethodName.value).value)) && unchanged(ss)
    ensures fullMethodName.Some? && director(fullMethodName.value).None? && open.Err? ==>
      err == Some(StreamFailure(open.error)) && unchanged(ss)
    ensures fullMethodName.Some? && director(fullMethodName.value).None? && open.Ok? ==>
      var cs := open.value;
      var s2c := S2CError(|ss.inbox| - old(ss.recvPos), old(cs.Room()), ss.inboxEnd, cs.sendError);
      var c2s := C2SError(|cs.inbox| - old(cs.recvPos), cs.header, ss.sendHeaderError, old(ss.Room()), cs.inboxEnd, ss.sendError);
      && err == (if s2c.Some? then Some(StatusError(Status(Internal, S2CPrefix + ErrorText(s2c.value))))
                 else if c2s.Some? then Some(StreamFailure(c2s.value))
                 else None)
      && |ss.outbox| > 0 && ss.outbox[|ss.outbox| - 1] == TrailerSet(cs.trailer)
  {
    if fullMethodName.None? {
      return Some(StatusError(Status(Internal, NoMethodMessage)));
    }
    var de := director(fullMethodName.value);
    if de.Some? {
      return Some(DirectorError(de.value));
    }
    if open.Err? {
      return Some(StreamFailure(open.error));
    }
    var cs := open.value;
    var s2cErr := ForwardServerToClient(ss, cs);
    var c2sErr := ForwardClientToServer(cs, ss);
    if s2cErr.Some? {
      return Some(StatusError(Status(Internal, S2CPrefix + ErrorText(s2cErr.value))));
    }
    if c2sErr.Some? {
      return Some(StreamFailure(c2sErr.value));
    }
    return None;
  }

  /** An EOF on the very first backend receive is an error, and no header or frame reaches the caller. */
  lemma FirstReceiveEofIsError(header: Result<MD, StreamError>, sendHeaderError: Option<StreamError>,
                               room: Option<nat>, sendError: StreamError)
    ensures C2SError(0, header, sendHeaderError, room, Eof, sendError) == Some(Eof)
  {
  }

  /** With room for every frame, the caller-to-backend direction succeeds exactly when the caller's stream ends in EOF. */
  lemma S2CSucceedsOnEof(rem: nat, room: Option<nat>, end: StreamError, sendError: StreamError)
    requires room.None? || room.value >= rem
    ensures S2CError(rem, room, end, sendError).None? <==> end == Eof
  {
  }
}
