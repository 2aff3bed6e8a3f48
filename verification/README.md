# Tow dispatch engine — a Dafny model

This project models the real-time dispatch core of a tow-request backend. Drivers ask for a tow
over socket.io. Connected tow operators register, send their info and stream their location. The
server keeps two in-memory tables:
- `tows`: connection id → `{socketId, location, info}`;
- `requests`: request id → the request record.

On `requestService` the server stores a pending request and arms a 30 000 ms expiry timer. It
offers the request to the nearest located tows, up to three of them, and acknowledges the driver. The first
`requestUpdate` accept of a pending request wins it, clears the timer and notifies the driver.
Every other connected tow is then told the request is closed. `endTrip` and `cancelTrip` drop a
request and notify both parties. `disconnect` drops the caller's tow entry.

## Structure

| file | module | contents |
|---|---|---|
| common.dfy | `Common` | `Option`, connection ids, request ids, the opaque info payload |
| geo.dfy | `Geo` | locations, distances with Infinity, the comparator's order, the distance helper |
| registry.dfy | `Registry` | the tow record, the table in iteration order, removal from that order |
| matcher.dfy | `Matcher` | located-only filter, a stable sort by distance, the top-3 candidates |
| messages.dfy | `Messages` | the emitted events as an outbound log, with the offer and close-out notices |
| requests.dfy | `Requests` | the request record, its well-formedness, the response guard, trip notices |
| dispatch.dfy | `Dispatch` | class `Engine`: one method per socket event over the two tables, the timers and the log |
| scenarios.dfy | `Scenarios` | event sequences: single winner, reject then accept, both orders of the expiry race, double cancel, the timeout path, a ranking example |

`Engine` keeps these fields:
- `tows: map<SocketId, Tow>`;
- `order: seq<SocketId>`, the insertion order that a JavaScript `Map` iterates in (setting an existing key keeps its place, deleting removes it);
- `requests: map<ReqId, Request>`;
- `timers: map<ReqId, nat>`, the armed expiry timers with their firing times;
- `outbox: seq<Msg>`, every `emit` in order.

Every handler keeps `Valid()` true. `Valid()` says:
- the order lists each connected tow exactly once, under its own id;
- a stored request is `Pending` exactly while it has no assigned tow, and then its timer is armed;
- an `Accepted` request has a tow and no armed timer;
- no stored request is ever `Expired`.

The distance order (`Geo.AtMost`) is the order that the comparator
`haversineDistance(a) - haversineDistance(b)` induces. A finite distance comes before Infinity.
Two infinite distances compare as NaN, which `Array.prototype.sort` treats as 0, so they tie.
`Array.prototype.sort` is stable. `Matcher.StableSortIsUnique` shows that any sorted result that
keeps every tie list is exactly `Matcher.SortByDistance`. So, for coordinates on which
`haversineDistance` returns a number, the model's sort is the one the server gets.

In these places the model follows the code, which does less than a dispatch service might be expected to:
- After an accept, every connected tow except the winner gets `requestClosed`. This includes
  tows that were never offered the request.
- Any connection may accept or reject. The handler checks neither that the caller was a
  candidate nor that it is a registered tow.
- The candidate list is not stored with the request.
- A request with no located tow gets the ordinary `requestCreated` acknowledgement, with no
  "no candidates" notice.
- `endTrip` and `cancelTrip` do not clear the expiry timer. When it later fires, the guard finds
  no request and does nothing. `Dispatch.Engine.Expire` and `Scenarios.CancelThenExpire` state this.
- There are no `completed` or `canceled` statuses: finished and cancelled requests are removed.

## Model

| member | source | states |
|---|---|---|
| `Geo.Haversine` | server.js:31-42 | the distance is Infinity exactly when either location is missing, else the great-circle value |
| `Geo.AtMostIsTotalOrder` | server.js:140 | the order the sort comparator induces on distances is reflexive, total, antisymmetric and transitive |
| `Registry.InOrder` | server.js:139 | the table's values come out in key insertion order, one per key |
| `Registry.Without` | server.js:212 | deleting a key removes exactly that key from the iteration order, keeps the other keys and keeps them distinct |
| `Registry.WithoutKeepsOrder` | server.js:212 | deleting the key at position p closes the gap: the keys before and after it stay in their order |
| `Matcher.Located` | server.js:139 | exactly the tows with a location are kept |
| `Matcher.LocatedKeepsOrder` | server.js:139 | the filter keeps table order: filtering a concatenation is the concatenation of the filtered parts |
| `Matcher.DistanceTo` | server.js:140 | a tow's sort key is Infinity exactly when the tow or the origin has no location, else the great-circle distance between them |
| `Matcher.Insert` | server.js:140 | inserting into a sorted list keeps it sorted and adds exactly that element |
| `Matcher.SortByDistance` | server.js:140 | the result is sorted by distance and is a permutation of the input |
| `Matcher.SortKeepsTies` | server.js:140 | the sort is stable: tows at equal distance keep their relative order |
| `Matcher.StableSortIsUnique` | server.js:140 | any sorted permutation that keeps the ties in order equals `SortByDistance`, so the model is the engine's stable sort |
| `Matcher.SortedTiesDetermine` | server.js:140 | two sorted lists with the same tie lists are equal |
| `Matcher.PrefixIsNearest` | server.js:142 | no element cut off a sorted list is nearer than one kept |
| `Matcher.Candidates` | server.js:139-144 | at most 3 candidates (exactly min(3, located)), all located and registered, nearest first, ties in registration order, and no located tow left out is nearer than a chosen one |
| `Matcher.CandidatesDistinct` | server.js:139-144 | with one table entry per connection, the candidates are on distinct connections, so no tow is offered a request twice |
| `Messages.Offers` | server.js:142-144 | each candidate, in order, gets one `receiveRequest` |
| `Messages.CloseOthers` | server.js:173-177 | every tow except the winner gets `requestClosed`; the winner and non-tows get nothing |
| `Messages.CloseOthersOncePerTow` | server.js:173-177 | with one table entry per connection, no tow gets the closing notice twice |
| `Dispatch.OfferAll` | server.js:142-144 | the offer loop emits exactly `Offers` of the candidates |
| `Dispatch.CloseAllBut` | server.js:173-177 | the close-out loop emits exactly `CloseOthers` over the table |
| `Requests.NewRequest` | server.js:115-124 | a new record is pending, carries the requester's connection and has no assigned tow |
| `Requests.Gate` | server.js:151-155 | a response goes through if and only if it names a non-empty, known, pending request; otherwise the reason is missing id, not found or no longer available |
| `Requests.Refused` | server.js:152-155 | a refusal is a `requestClosed` with the reason; it names the response's own request id unless that id was missing |
| `Requests.TripNotices` | server.js:194-195 | the driver is notified first, then the assigned tow if there is one, even when that tow is the driver's own connection |
| `Dispatch.LocationOf` | server.js:168 | the caller's location, or none when it is not registered |
| `Dispatch.WinnerCard` | server.js:160-167 | the driver sees the info sent with the accept (location attached), else the registered info with no location attached, else nothing |
| `Dispatch.Engine.constructor` | server.js:22-23 | both tables, the timers and the log start empty |
| `Dispatch.Engine.Registered` | server.js:139 | the table's values in iteration order (position i holds the tow keyed by `order[i]`): exactly the registered tows |
| `Dispatch.Engine.RegisterTow` | server.js:90-93 | the caller's entry becomes location-less and info-less, overwriting any previous one; other tows and all requests are unchanged |
| `Dispatch.Engine.TowInfo` | server.js:96-100 | sets the caller's info and keeps its location, creating a location-less entry if none; nothing else changes |
| `Dispatch.Engine.UpdateTowLocation` | server.js:103-109 | no-op for an unregistered caller; otherwise only that tow's location changes |
| `Dispatch.Engine.RequestService` | server.js:112-147 | adds exactly one pending request (no tow, driver = caller) with its timer armed at now + 30000; offers it to `Candidates` of the registered tows; then acknowledges the caller; tows unchanged |
| `Dispatch.Engine.RequestUpdate` | server.js:150-183 | a refused response only sends `requestClosed` to the caller; an accept on a pending request sets `Accepted` and the assigned tow, clears the timer, notifies the driver and closes out every other registered tow; a reject only notifies the driver; an unknown status only answers the caller |
| `Dispatch.Engine.Expire` | server.js:127-134 | removes the request and notifies the driver only if it is still pending; otherwise changes nothing |
| `Dispatch.Engine.EndTrip` | server.js:191-198 | a present request is removed whatever its status, and both parties get `tripEnded`; an absent id changes nothing |
| `Dispatch.Engine.CancelTrip` | server.js:201-208 | as `EndTrip`, with `tripCanceled` |
| `Dispatch.Engine.Disconnect` | server.js:211-214 | only the caller's tow entry is removed; requests and timers are untouched |
| `Scenarios.SecondAcceptLoses` | server.js:155-165 | of two accepts of one pending request, the first wins and the second gets `requestClosed` (no longer available) |
| `Scenarios.RejectThenAccept` | server.js:157-179 | after a reject the request is still pending, and another tow's accept wins it |
| `Scenarios.AcceptBeforeExpiry` | server.js:127-164 | an accept before the timer leaves the request accepted with its timer cleared; the log gains only the accept's messages, so the late timer sends nothing |
| `Scenarios.CancelThenExpire` | server.js:127-134 | a cancelled request's uncleared timer, when it fires, finds nothing: the log gains only the cancellation notices and the timer is gone |
| `Scenarios.ExpiryBeforeAccept` | server.js:127-154 | after expiry the request is gone and a late accept is told not found |
| `Scenarios.CancelTwice` | server.js:201-208 | a second cancel finds nothing and sends no more notices |
| `Scenarios.Unanswered` | server.js:112-136 | an unanswered request, once its timer fires, is gone and the driver was told it expired |
| `Scenarios.NearestFirst` | server.js:139-144 | tows at 5, 1 and 3 km are offered in the order 1, 3, 5 |

## Left out

- NaN distances are not modelled. A truthy location whose `lat`/`lng` are not numbers is stored by `updateTowLocation` and kept by the filter. `haversineDistance` then returns NaN, and the comparator reads NaN as 0, so it is no longer consistent and the engine decides the order. Numeric coordinates above about 5.7e307 in size give NaN as well: multiplying them by `Math.PI` (server.js:34-38) overflows to Infinity, and the sine or cosine of Infinity is NaN. Locations here always have real coordinates and a finite great-circle distance.
- The great-circle arithmetic in `haversineDistance` is floating-point trigonometry. The model takes it as the uninterpreted `Engine.greatCircle`. Only the Infinity-for-a-missing-location rule is kept.
- `generateRequestId` reads the clock and randomness. The id is a parameter of `RequestService`. It must be non-empty and unused, as the generator's output is with overwhelming probability.
- `Dispatch.Engine.RequestService`: a repeated request id is not modelled. The generator (server.js:27-29) can return the same id twice, when two calls fall in the same millisecond and draw the same random suffix, or when the suffix comes out shorter than six characters. On a repeat, server.js:136 overwrites the older pending request. The older request's timer stays armed (server.js:127-133), so it expires the newer request early and tells the newer driver. One timer per request id in `timers` cannot hold two timers under one id.
- Real time is not modelled. `setTimeout` becomes the entry in `timers`, `clearTimeout` becomes its removal, and the timer firing is the explicit `Expire` event. The current time is a parameter of `RequestService`.
- socket.io delivery is not modelled. Each `emit` is appended to `outbox`, and a message to a gone connection is still logged. Console logging is left out.
- The `driverLocation` relay (server.js:186-188) keeps no state and is left out.
- The REST routes, JWT middleware, database models and server start-up (server.js:217-324, driver.js, Tow.js, Driver.js) are left out. They are database, hashing, token and network calls.
- A handler that throws on a missing payload is not modelled. This happens in `requestService` without `data`, and in `endTrip`/`cancelTrip` without an object. The methods take the payload fields.
- Payload objects are values, not shared references. The in-place write of `location` into the accepter's `towInfo` object becomes the `Supplied` record. The dead write `r.status = 'expired'` before the delete is kept only as a local value in `Expire`.
- A response's `status` is one of accept, reject or anything else, as the source compares it. A request id is a string, so a falsy id is only a missing or empty one.
