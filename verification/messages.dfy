/** The socket events the engine emits, as entries of an outbound log. */
module Messages {
  import opened Common
  import opened Geo
  import opened Registry

  /** What the requester is told about the tow that accepted: the info the tow sent with its
      acceptance (with the tow's location attached), or else the info it registered. */
  datatype TowData = Supplied(info: Info, location: Option<Location>) | Listed(info: Info)

  /** Why a `requestClosed` was sent. */
  datatype CloseReason =
    | MissingId                           // no (or an empty) request id in the response
    | NotFound                            // unknown id: never issued, expired or finished
    | NoLongerAvailable                   // the request is no longer pending
    | InvalidStatus                       // the response was neither an accept nor a reject
    | TakenByAnother(driverSocketId: SocketId)  // another tow won the request

  datatype Event =
    | ReceiveRequest(requestId: ReqId, driverSocketId: SocketId, origin: Option<Location>,
                     dest: Option<Location>, driverInfo: Option<Info>)
    | RequestCreated(requestId: ReqId)    // acknowledgement with status 'pending'
    | RequestAccepted(requestId: ReqId, towId: SocketId, towInfo: Option<TowData>, towLocation: Option<Location>)
    | RequestRejected(requestId: ReqId, towId: SocketId)
    | RequestExpired(requestId: ReqId)
    | RequestClosed(closedId: Option<ReqId>, reason: CloseReason)
    | TripEnded(requestId: ReqId)
    | TripCanceled(requestId: ReqId)

  /** One emit: `event` sent to the connection `to`. */
  datatype Msg = Msg(to: SocketId, event: Event)

  /** The connections of the tows in `ts`. */
  function SocketIds(ts: seq<Tow>): (ids: set<SocketId>)
  {
    set t | t in ts :: t.socketId
  }

  /** The offer of a new request to each candidate, in candidate order. */
  function Offers(candidates: seq<Tow>, offer: Event): (ms: seq<Msg>)
    ensures |ms| == |candidates|
    ensures forall i :: 0 <= i < |candidates| ==> ms[i] == Msg(candidates[i].socketId, offer)
  {
    if candidates == [] then []
    else Offers(candidates[..|candidates| - 1], offer) + [Msg(candidates[|candidates| - 1].socketId, offer)]
  }

  /** With one entry per connection, no tow is sent the closing notice twice. */
  lemma {:induction false} CloseOthersOncePerTow(ts: seq<Tow>, winner: SocketId, closed: Event)
    requires DistinctSockets(ts)
    ensures var ms := CloseOthers(ts, winner, closed);
      forall i, j :: 0 <= i < j < |ms| ==> ms[i].to != ms[j].to
  {
    if ts != [] {
      var last := ts[|ts| - 1];
      var front := ts[..|ts| - 1];
      assert ts == front + [last];
      assert DistinctSockets(front);
      CloseOthersOncePerTow(front, winner, closed);
      assert last.socketId !in SocketIds(front);
      CloseOthersStep(front, last, winner, closed);
    }
  }

  /** Extending the table by one tow extends the closing notices by at most that tow's. */
  lemma CloseOthersStep(ts: seq<Tow>, t: Tow, winner: SocketId, closed: Event)
    ensures CloseOthers(ts + [t], winner, closed)
         == CloseOthers(ts, winner, closed) + (if t.socketId != winner then [Msg(t.socketId, closed)] else [])
  {
    assert (ts + [t])[..|ts|] == ts;
  }

  /** One more step of the closing loop: the notices for the first `i + 1` tows are those for the
      first `i` and then, unless it is the winner, the notice to tow `i`. */
  lemma CloseOthersPrefix(all: seq<Tow>, i: nat, winner: SocketId, closed: Event)
    requires i < |all|
    ensures CloseOthers(all[..i + 1], winner, closed)
         == CloseOthers(all[..i], winner, closed) + (if all[i].socketId != winner then [Msg(all[i].socketId, closed)] else [])
  {
    assert all[..i + 1] == all[..i] + [all[i]];
    CloseOthersStep(all[..i], all[i], winner, closed);
  }

  /** The closing notice to every tow in `ts` except the winner, in table order. */
  function CloseOthers(ts: seq<Tow>, winner: SocketId, closed: Event): (ms: seq<Msg>)
    ensures forall m :: m in ms ==> m.event == closed && m.to != winner && m.to in SocketIds(ts)
    ensures forall t :: t in ts && t.socketId != winner ==> Msg(t.socketId, closed) in ms
    ensures |ms| <= |ts|
  {
    if ts == [] then []
    else
      var last := ts[|ts| - 1];
      var front := ts[..|ts| - 1];
      assert ts == front + [last];
      assert SocketIds(front) <= SocketIds(ts);
      CloseOthers(front, winner, closed) + (if last.socketId != winner then [Msg(last.socketId, closed)] else [])
  }
}
