/**
 * bootstrap/businessservice.go: Dispatch finds the handler registered
 * for a message id and runs it on the request bytes.
 */
module BootstrapBusiness {
  import opened Wrappers
  import opened Text
  import opened GrpcStatus
  import opened BootstrapRoutes

  datatype DispatchRequest = DispatchRequest(msgid: int, data: seq<bv8>)

  /** The empty DispatchReply. */
  datatype DispatchReply = DispatchReply

  /**
   * status.Convert on a non-nil error: a status error keeps its status,
   * any other error becomes Unknown with its text.
   */
  function Convert(e: HandlerError): (s: Status)
    ensures e.StatusError? ==> s == e.status
    ensures e.PlainError? ==> s == Status(Unknown, e.text)
  {
    match e
    case StatusError(st) => st
    case PlainError(t) => Status(Unknown, t)
  }

  function UnknownMsgID(msgid: int): string {
    "unknown msgid " + FormatInt(msgid)
  }

  class BusinessService {
    const rr: RouteRegistrar

    constructor (rr: RouteRegistrar)
      ensures this.rr == rr
    {
      this.rr := rr;
    }

    /**
     * Dispatch: an unknown id is Unimplemented and runs nothing; otherwise
     * the handler's error is converted, and success is the empty reply.
     */
    function Dispatch(req: DispatchRequest): (r: Result<DispatchReply, Status>)
      reads rr
      ensures req.msgid !in rr.routes ==> r == Err(Status(Unimplemented, UnknownMsgID(req.msgid)))
      ensures req.msgid in rr.routes ==>
        (rr.routes[req.msgid](req.data).None? <==> r == Ok(DispatchReply)) &&
        (rr.routes[req.msgid](req.data).Some? ==> r == Err(Convert(rr.routes[req.msgid](req.data).value)))
    {
      if req.msgid !in rr.routes then Err(Status(Unimplemented, UnknownMsgID(req.msgid)))
      else
        var h := rr.routes[req.msgid];
        match h(req.data)
        case Some(err) => Err(Convert(err))
        case None => Ok(DispatchReply)
    }
  }

  /** A route registered through RegisterRoute is what Dispatch runs for its id. */
  lemma DispatchRegistered(routes: map<int, Handler>, cells: seq<RouteCell>, i: nat, data: seq<bv8>)
    requires i < |cells| && Fresh(routes, cells)
    ensures var table := RegisterAll(routes, cells).0;
      cells[i].msgID in table && table[cells[i].msgID](data) == cells[i].handleFunc(data)
  {
    RegisterAllSpec(routes, cells);
  }
}
