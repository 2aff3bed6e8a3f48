/** Shared vocabulary of the dispatch engine: optional values and the identities it keys on. */
module Common {

  /** A value that may be missing: JavaScript's null / undefined (and, where the handler tests
      truthiness, any falsy payload) is `None`. */
  datatype Option<+T> = None | Some(value: T)

  /** A socket.io connection id; tows and drivers are both known by theirs. socket.io never issues
      an empty one, so a stored `assignedTow` is always truthy. */
  type SocketId = s: string | s != "" witness "socket"

  /** A request id as produced by the server's id generator. */
  type ReqId = string

  /** Descriptive payload (names, vehicle, contact) that the engine stores and relays unread. It is
      never empty: an empty (falsy) payload is `None`. */
  type Info = s: string | s != "" witness "info"
}
