/** The socket handlers of the dispatch server: one method per inbound event over the tow table,
    the request table, the armed expiry timers and the log of emitted messages. */
module Dispatch {
  import opened Common
  import opened Geo
  import opened Registry
  import opened Matcher
  import opened Messages
  import opened Requests

  /** How long a request waits for an accept before it expires, in milliseconds. */
  const RequestTimeoutMs: nat := 30000

  /** `tows.get(id)?.location || null`. */
  function LocationOf(tows: map<SocketId, Tow>, id: SocketId): (loc: Option<Location>)
    ensures loc.Some? ==> id in tows && tows[id].location == loc
    ensures id in tows ==> loc == tows[id].location
  {
    if id in tows then tows[id].location else None
  }

  /** What the requester learns about the winner: the info sent with the accept (the winner's
      location attached), else the info it registered, else nothing. */
  function WinnerCard(sent: Option<Info>, tows: map<SocketId, Tow>, winner: SocketId): (card: Option<TowData>)
    ensures sent.Some? ==> card == Some(Supplied(sent.value, LocationOf(tows, winner)))
    ensures sent.None? && card.Some? ==> card.value.Listed? && winner in tows && tows[winner].info == Some(card.value.info)
    ensures sent.None? && winner in tows && tows[winner].info.Some? ==> card.Some?
  {
    if sent.Some? then Some(Supplied(sent.value, LocationOf(tows, winner)))
    else if winner in tows && tows[winner].info.Some? then Some(Listed(tows[winner].info.value))
    else None
  }

  /** The tow table and its iteration order agree: each connected tow listed once, under its own
      connection id. */
  ghost predicate TableOk(order: seq<SocketId>, tows: map<SocketId, Tow>)
  {
    && Distinct(order)
    && (forall k :: k in order <==> k in tows)
    && (forall k :: k in tows ==> tows[k].socketId == k)
  }

  /** Every stored request is well formed with respect to the armed timers. */
  ghost predicate RequestsOk(requests: map<ReqId, Request>, timers: map<ReqId, nat>)
  {
    forall id :: id in requests ==> WellFormed(id, requests[id], id in timers)
  }

  /** The offers loop of `requestService`: one `receiveRequest` per candidate, in order. */
  method OfferAll(candidates: seq<Tow>, offer: Event) returns (sent: seq<Msg>)
    ensures sent == Offers(candidates, offer)
  {
    sent := [];
    for i := 0 to |candidates|
      invariant sent == Offers(candidates[..i], offer)
    {
      sent := sent + [Msg(candidates[i].socketId, offer)];
      assert candidates[..i + 1][..i] == candidates[..i];
    }
    assert candidates[..|candidates|] == candidates;
  }

  /** The closing loop of an accepted `requestUpdate`: a `requestClosed` to every tow in table
      order except the winner. */
  method CloseAllBut(all: seq<Tow>, winner: SocketId, closed: Event) returns (sent: seq<Msg>)
    ensures sent == CloseOthers(all, winner, closed)
  {
    sent := [];
    for i := 0 to |all|
      invariant sent == CloseOthers(all[..i], winner, closed)
    {
      CloseOthersPrefix(all, i, winner, closed);
      if all[i].socketId != winner {
        sent := sent + [Msg(all[i].socketId, closed)];
      }
    }
    assert all[..|all|] == all;
  }

  class Engine {
    /** The great-circle distance between two known locations (the trigonometry is not modelled). */
    const greatCircle: (Location, Location) -> real

    /** Connected tows, by connection id. */
    var tows: map<SocketId, Tow>
    /** The keys of `tows` in insertion order, which is the order the table is iterated in. */
    var order: seq<SocketId>
    /** Open requests, by request id. */
    var requests: map<ReqId, Request>
    /** Armed expiry timers: request id to the time (ms) the timer fires. */
    var timers: map<ReqId, nat>
    /** Every message emitted so far, oldest first. */
    var outbox: seq<Msg>

    ghost predicate Valid()
      reads this
    {
      TableOk(order, tows) && RequestsOk(requests, timers)
    }

    /** The tow table's values in iteration order. */
    function Registered(): (ts: seq<Tow>)
      reads this
      requires Valid()
      ensures |ts| == |order|
      ensures forall i :: 0 <= i < |order| ==> ts[i] == tows[order[i]]
      ensures forall t :: t in ts <==> t.socketId in tows && tows[t.socketId] == t
    {
      var ts := InOrder(order, tows);
      assert forall t: Tow :: t.socketId in tows && tows[t.socketId] == t ==> t in ts by {
        forall t: Tow | t.socketId in tows && tows[t.socketId] == t ensures t in ts {
          var i :| 0 <= i < |order| && order[i] == t.socketId;
          assert ts[i] == t;
        }
      }
      ts
    }

    constructor (greatCircle: (Location, Location) -> real)
      ensures Valid()
      ensures this.greatCircle == greatCircle
      ensures tows == map[] && order == [] && requests == map[] && timers == map[] && outbox == []
    {
      this.greatCircle := greatCircle;
      tows, order, requests, timers, outbox := map[], [], map[], map[], [];
    }

    /** `registerTow`: a fresh entry with no location and no info replaces whatever the caller had. */
    method RegisterTow(caller: SocketId)
      requires Valid()
      modifies this`tows, this`order
      ensures Valid()
      ensures tows == old(tows)[caller := Tow(caller, None, None)]
      ensures order == if caller in old(tows) then old(order) else old(order) + [caller]
    {
      if caller !in tows {
        order := order + [caller];
      }
      tows := tows[caller := Tow(caller, None, None)];
    }

    /** `towInfo`: sets the caller's info, keeping its location; creates the entry if missing. */
    method TowInfo(caller: SocketId, info: Option<Info>)
      requires Valid()
      modifies this`tows, this`order
      ensures Valid()
      ensures tows == old(tows)[caller := Tow(caller, LocationOf(old(tows), caller), info)]
      ensures order == if caller in old(tows) then old(order) else old(order) + [caller]
    {
      var tow := if caller in tows then tows[caller] else Tow(caller, None, None);
      tow := tow.(info := info);
      if caller !in tows {
        order := order + [caller];
      }
      tows := tows[caller := tow];
    }

    /** `updateTowLocation`: ignored for an unregistered caller, otherwise replaces only its location. */
    method UpdateTowLocation(caller: SocketId, loc: Option<Location>)
      requires Valid()
      modifies this`tows
      ensures Valid()
      ensures caller in old(tows) ==> tows == old(tows)[caller := old(tows)[caller].(location := loc)]
      ensures caller !in old(tows) ==> tows == old(tows)
    {
      if caller in tows {
        var tow := tows[caller];
        tow := tow.(location := loc);
        tows := tows[caller := tow];
      }
    }

    /** `requestService`: stores a new pending request under the fresh id, arms its timer, offers it
        to the nearest located tows and acknowledges the requester. */
    method RequestService(caller: SocketId, id: ReqId, origin: Option<Location>, dest: Option<Location>,
                          driverInfo: Option<Info>, now: nat)
      requires Valid()
      requires id != "" && id !in requests && id !in timers
      modifies this`requests, this`timers, this`outbox
      ensures Valid()
      ensures requests == old(requests)[id := NewRequest(id, caller, origin, dest, driverInfo)]
      ensures timers == old(timers)[id := now + RequestTimeoutMs]
      ensures outbox == old(outbox)
        + Offers(Candidates(Registered(), DistanceTo(greatCircle, origin)),
                 ReceiveRequest(id, caller, origin, dest, driverInfo))
        + [Msg(caller, RequestCreated(id))]
    {
      timers := timers[id := now + RequestTimeoutMs];
      requests := requests[id := NewRequest(id, caller, origin, dest, driverInfo)];
      assert RequestsOk(requests, timers) by {
        forall k | k in requests ensures WellFormed(k, requests[k], k in timers) {
          if k != id {
            assert WellFormed(k, old(requests)[k], k in old(timers));
          }
        }
      }

      var candidates := Candidates(Registered(), DistanceTo(greatCircle, origin));
      var sent := OfferAll(candidates, ReceiveRequest(id, caller, origin, dest, driverInfo));
      outbox := outbox + sent + [Msg(caller, RequestCreated(id))];
    }

    /** `requestUpdate`: a tow's answer to an offer. The first accept of a pending request wins it
        and clears its timer; every other answer leaves the request table as it was. */
    method RequestUpdate(caller: SocketId, requestId: Option<ReqId>, decision: Decision, towInfo: Option<Info>)
      requires Valid()
      modifies this`requests, this`timers, this`outbox
      ensures Valid()
      ensures Gate(old(requests), requestId).Some? ==>
        && requests == old(requests) && timers == old(timers)
        && outbox == old(outbox) + [Msg(caller, Refused(requestId, Gate(old(requests), requestId).value))]
      ensures Gate(old(requests), requestId).None? && decision == Accept ==>
        var id := requestId.value;
        var r := old(requests)[id];
        var closed := RequestClosed(Some(id), TakenByAnother(r.driverSocketId));
        && requests == old(requests)[id := r.(status := Accepted, assignedTow := Some(caller),
                                              towInfo := if towInfo.Some? then WinnerCard(towInfo, tows, caller) else None)]
        && timers == old(timers) - {id}
        && outbox == old(outbox)
             + [Msg(r.driverSocketId, RequestAccepted(id, caller, WinnerCard(towInfo, tows, caller), LocationOf(tows, caller)))]
             + CloseOthers(Registered(), caller, closed)
        && (forall k :: k in tows && k != caller ==> Msg(k, closed) in outbox)
      ensures Gate(old(requests), requestId).None? && decision == Reject ==>
        && requests == old(requests) && timers == old(timers)
        && outbox == old(outbox) + [Msg(old(requests)[requestId.value].driverSocketId, RequestRejected(requestId.value, caller))]
      ensures Gate(old(requests), requestId).None? && decision == Unrecognised ==>
        && requests == old(requests) && timers == old(timers)
        && outbox == old(outbox) + [Msg(caller, RequestClosed(requestId, InvalidStatus))]
    {
      var refusal := Gate(requests, requestId);
      if refusal.Some? {
        outbox := outbox + [Msg(caller, Refused(requestId, refusal.value))];
        return;
      }
      var id := requestId.value;
      var request := requests[id];
      match decision
      case Accept =>
        request := request.(status := Accepted, assignedTow := Some(caller));
        if towInfo.Some? {
          request := request.(towInfo := Some(Supplied(towInfo.value, LocationOf(tows, caller))));
        }
        timers := timers - {id};
        requests := requests[id := request];

        var card := if request.towInfo.Some? then request.towInfo else WinnerCard(None, tows, caller);
        outbox := outbox + [Msg(request.driverSocketId, RequestAccepted(id, caller, card, LocationOf(tows, caller)))];

        var sent := CloseAllBut(Registered(), caller, RequestClosed(Some(id), TakenByAnother(request.driverSocketId)));
        outbox := outbox + sent;
      case Reject =>
        outbox := outbox + [Msg(request.driverSocketId, RequestRejected(id, caller))];
      case Unrecognised =>
        outbox := outbox + [Msg(caller, RequestClosed(requestId, InvalidStatus))];
    }

    /** The expiry timer of `id` fires: a request still pending is dropped and its requester told;
        anything else is left alone. */
    method Expire(id: ReqId)
      requires Valid()
      modifies this`requests, this`timers, this`outbox
      ensures Valid()
      ensures timers == old(timers) - {id}
      ensures old(id in requests && requests[id].status == Pending) ==>
        && requests == old(requests) - {id}
        && outbox == old(outbox) + [Msg(old(requests)[id].driverSocketId, RequestExpired(id))]
      ensures !old(id in requests && requests[id].status == Pending) ==>
        requests == old(requests) && outbox == old(outbox)
    {
      timers := timers - {id};
      if id in requests && requests[id].status == Pending {
        var r := requests[id].(status := Expired);
        requests := requests - {id};
        outbox := outbox + [Msg(r.driverSocketId, RequestExpired(id))];
      }
    }

    /** `endTrip`: a known request is dropped, whatever its status, and its parties told. */
    method EndTrip(id: ReqId)
      requires Valid()
      modifies this`requests, this`outbox
      ensures Valid()
      ensures id in old(requests) ==>
        requests == old(requests) - {id} && outbox == old(outbox) + TripNotices(old(requests)[id], TripEnded(id))
      ensures id !in old(requests) ==> requests == old(requests) && outbox == old(outbox)
    {
      if id in requests {
        outbox := outbox + TripNotices(requests[id], TripEnded(id));
        requests := requests - {id};
      }
    }

    /** `cancelTrip`: as `endTrip`, with cancellation notices. */
    method CancelTrip(id: ReqId)
      requires Valid()
      modifies this`requests, this`outbox
      ensures Valid()
      ensures id in old(requests) ==>
        requests == old(requests) - {id} && outbox == old(outbox) + TripNotices(old(requests)[id], TripCanceled(id))
      ensures id !in old(requests) ==> requests == old(requests) && outbox == old(outbox)
    {
      if id in requests {
        outbox := outbox + TripNotices(requests[id], TripCanceled(id));
        requests := requests - {id};
      }
    }

    /** `disconnect`: the caller's tow entry goes; requests are not touched. */
    method Disconnect(caller: SocketId)
      requires Valid()
      modifies this`tows, this`order
      ensures Valid()
      ensures tows == old(tows) - {caller}
      ensures order == Without(old(order), caller)
    {
      tows := tows - {caller};
      order := Without(order, caller);
    }
  }
}
