/** Sequences of events on one engine, and what the handlers' contracts let a caller conclude
    about them. */
module Scenarios {
  import opened Common
  import opened Geo
  import opened Registry
  import opened Matcher
  import opened Messages
  import opened Requests
  import opened Dispatch

  /** First accept wins: of two accepts of one pending request, the first assigns its tow and the
      second is answered `requestClosed` without changing the request. */
  method SecondAcceptLoses(e: Engine, id: ReqId, first: SocketId, second: SocketId, info1: Option<Info>, info2: Option<Info>)
    requires e.Valid()
    requires id in e.requests && e.requests[id].status == Pending
    modifies e
    ensures e.Valid()
    ensures id in e.requests && e.requests[id].status == Accepted && e.requests[id].assignedTow == Some(first)
    ensures |e.outbox| > 0 && e.outbox[|e.outbox| - 1] == Msg(second, RequestClosed(Some(id), NoLongerAvailable))
  {
    e.RequestUpdate(first, Some(id), Accept, info1);
    e.RequestUpdate(second, Some(id), Accept, info2);
  }

  /** A rejection keeps the request open: a later accept by another tow still wins it. */
  method RejectThenAccept(e: Engine, id: ReqId, rejecter: SocketId, accepter: SocketId)
    requires e.Valid()
    requires id in e.requests && e.requests[id].status == Pending
    modifies e
    ensures e.Valid()
    ensures id in e.requests && e.requests[id].status == Accepted && e.requests[id].assignedTow == Some(accepter)
  {
    e.RequestUpdate(rejecter, Some(id), Reject, None);
    assert e.requests[id].status == Pending;
    e.RequestUpdate(accepter, Some(id), Accept, None);
  }

  /** An accept that lands before the timer: the request stays accepted and the late timer sends
      nothing. */
  method AcceptBeforeExpiry(e: Engine, id: ReqId, tow: SocketId)
    requires e.Valid()
    requires id in e.requests && e.requests[id].status == Pending
    modifies e
    ensures e.Valid()
    ensures id in e.requests && e.requests[id].status == Accepted && id !in e.timers
    ensures var d := old(e.requests)[id].driverSocketId;
      e.outbox == old(e.outbox)
        + [Msg(d, RequestAccepted(id, tow, WinnerCard(None, e.tows, tow), LocationOf(e.tows, tow)))]
        + CloseOthers(e.Registered(), tow, RequestClosed(Some(id), TakenByAnother(d)))
  {
    e.RequestUpdate(tow, Some(id), Accept, None);
    var before := e.outbox;
    e.Expire(id);
    assert e.outbox == before;
  }

  /** A cancelled request whose timer was never cleared: when the timer fires it finds nothing, so
      the only messages are the cancellation notices, and the timer is gone. */
  method CancelThenExpire(e: Engine, id: ReqId)
    requires e.Valid()
    requires id in e.requests && e.requests[id].status == Pending
    modifies e
    ensures e.Valid()
    ensures id !in e.requests && id !in e.timers
    ensures e.outbox == old(e.outbox) + TripNotices(old(e.requests)[id], TripCanceled(id))
  {
    e.CancelTrip(id);
    assert id in e.timers;
    e.Expire(id);
  }

  /** A timer that fires before any accept: the request is gone and a later accept is told it was
      not found. */
  method ExpiryBeforeAccept(e: Engine, id: ReqId, tow: SocketId)
    requires e.Valid()
    requires id in e.requests && e.requests[id].status == Pending
    modifies e
    ensures e.Valid()
    ensures id !in e.requests
    ensures |e.outbox| > 0 && e.outbox[|e.outbox| - 1] == Msg(tow, RequestClosed(Some(id), NotFound))
  {
    e.Expire(id);
    e.RequestUpdate(tow, Some(id), Accept, None);
  }

  /** Cancelling twice: the second cancel finds nothing and sends nothing. */
  method CancelTwice(e: Engine, id: ReqId)
    requires e.Valid()
    requires id in e.requests
    modifies e
    ensures e.Valid()
    ensures id !in e.requests
    ensures e.outbox == old(e.outbox) + TripNotices(old(e.requests)[id], TripCanceled(id))
  {
    e.CancelTrip(id);
    e.CancelTrip(id);
  }

  /** A request nobody answers: after its timer fires the requester has been told it expired and
      the store no longer holds it. */
  method Unanswered(e: Engine, driver: SocketId, id: ReqId, origin: Option<Location>, now: nat)
    requires e.Valid()
    requires id != "" && id !in e.requests && id !in e.timers
    modifies e
    ensures e.Valid()
    ensures id !in e.requests && id !in e.timers
    ensures |e.outbox| > 0 && e.outbox[|e.outbox| - 1] == Msg(driver, RequestExpired(id))
    ensures e.requests == old(e.requests)
  {
    e.RequestService(driver, id, origin, None, None, now);
    assert e.timers[id] == now + RequestTimeoutMs;
    e.Expire(id);
  }

  /** The sort key of the example below: tows "a", "b" and "c" at 5, 1 and 3 km. */
  function ExampleDistance(t: Tow): (d: Distance)
  {
    if t.socketId == "a" then Finite(5.0) else if t.socketId == "b" then Finite(1.0) else Finite(3.0)
  }

  /** Sorting tows at 5, 1 and 3 km gives them nearest first. */
  lemma SortExample(a: Tow, b: Tow, c: Tow)
    requires a.socketId == "a" && b.socketId == "b" && c.socketId == "c"
    ensures SortByDistance([a, b, c], ExampleDistance) == [b, c, a]
  {
    var key := ExampleDistance;
    assert [a, b, c][1..] == [b, c] && [b, c][1..] == [c];
    assert SortByDistance([c], key) == [c];
    assert Insert(b, [c], key) == [b, c];
    assert Insert(a, [c], key) == [c, a];
    assert Insert(a, [b, c], key) == [b, c, a];
  }

  /** Tows at 5, 1 and 3 km from the origin are offered nearest first. */
  lemma NearestFirst(a: Tow, b: Tow, c: Tow)
    requires a.socketId == "a" && b.socketId == "b" && c.socketId == "c"
    requires a.location.Some? && b.location.Some? && c.location.Some?
    ensures Candidates([a, b, c], ExampleDistance) == [b, c, a]
  {
    assert [a, b, c][1..] == [b, c] && [b, c][1..] == [c];
    assert Located([a, b, c]) == [a, b, c];
    SortExample(a, b, c);
  }
}
