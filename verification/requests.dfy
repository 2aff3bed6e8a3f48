/** The request records and the guard every response goes through. */
module Requests {
  import opened Common
  import opened Geo
  import opened Registry
  import opened Messages

  datatype Status = Pending | Accepted | Expired

  /** A tow's answer to an offer: the `status` field of its `requestUpdate`. */
  datatype Decision = Accept | Reject | Unrecognised

  datatype Request = Request(
    requestId: ReqId,
    driverSocketId: SocketId,           // the requester's connection
    origin: Option<Location>,
    dest: Option<Location>,
    status: Status,
    assignedTow: Option<SocketId>,      // set by the accept that wins
    driverInfo: Option<Info>,
    towInfo: Option<TowData>)           // the info the winner sent with its accept

  /** The record a new request starts with. */
  function NewRequest(id: ReqId, driver: SocketId, origin: Option<Location>, dest: Option<Location>,
                      driverInfo: Option<Info>): (r: Request)
    ensures r.requestId == id && r.driverSocketId == driver
    ensures r.status == Pending && r.assignedTow.None? && r.towInfo.None?
  {
    Request(id, driver, origin, dest, Pending, None, driverInfo, None)
  }

  /** What a stored request may look like: keyed by its own id; pending exactly while no tow is
      assigned, with its expiry timer armed; accepted with the timer cleared; never stored once
      expired. */
  predicate WellFormed(id: ReqId, r: Request, timerArmed: bool)
  {
    && r.requestId == id
    && id != ""
    && r.status != Expired
    && (r.status == Pending <==> r.assignedTow.None?)
    && (r.status == Pending ==> timerArmed && r.towInfo.None?)
    && (r.status == Accepted ==> !timerArmed)
  }

  /** The checks a tow's response passes before its decision is looked at: a non-empty request
      id, a known request, still pending. `None` means the response goes through. */
  function Gate(requests: map<ReqId, Request>, requestId: Option<ReqId>): (refusal: Option<CloseReason>)
    ensures refusal.None? <==>
      requestId.Some? && requestId.value != "" && requestId.value in requests
      && requests[requestId.value].status == Pending
    ensures refusal == Some(MissingId) <==> requestId.None? || requestId.value == ""
    ensures refusal == Some(NotFound) <==>
      requestId.Some? && requestId.value != "" && requestId.value !in requests
    ensures refusal.Some? ==> refusal.value in {MissingId, NotFound, NoLongerAvailable}
  {
    if requestId.None? || requestId.value == "" then Some(MissingId)
    else if requestId.value !in requests then Some(NotFound)
    else if requests[requestId.value].status != Pending then Some(NoLongerAvailable)
    else None
  }

  /** The `requestClosed` sent back to a refused responder; it names the request unless there was
      no id to name. */
  function Refused(requestId: Option<ReqId>, reason: CloseReason): (e: Event)
    ensures e.RequestClosed? && e.reason == reason
    ensures e.closedId.Some? <==> reason != MissingId && requestId.Some?
    ensures e.closedId.Some? ==> e.closedId == requestId
  {
    RequestClosed(if reason == MissingId then None else requestId, reason)
  }

  /** The notices of a finished or cancelled trip: to the requester, then to the assigned tow if
      there is one. */
  function TripNotices(r: Request, ended: Event): (ms: seq<Msg>)
    ensures |ms| == if r.assignedTow.Some? then 2 else 1
    ensures ms[0] == Msg(r.driverSocketId, ended)
    ensures forall m :: m in ms ==> m.event == ended
    ensures r.assignedTow.Some? ==> ms[1] == Msg(r.assignedTow.value, ended)
  {
    [Msg(r.driverSocketId, ended)] + (if r.assignedTow.Some? then [Msg(r.assignedTow.value, ended)] else [])
  }
}
