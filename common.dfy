/** Identifiers and small wrappers shared by the server and client models. */
module Common {

  /** A value that may be absent (a JavaScript `undefined`/`null`). */
  datatype Option<T> = None | Some(value: T)

  /** A user's Mongo `_id`, as the string the server compares. */
  type UserId = string

  /** A call identifier (a v4 UUID string on the server). */
  type CallId = string

  /** A socket.io connection id; socket.io never hands out an empty one. */
  type SocketId = s: string | s != "" witness "s"

  /** A point in time in milliseconds (what `new Date()` reads). */
  type Millis = int
}
