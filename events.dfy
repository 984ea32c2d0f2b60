/**
 * Outbound socket.io emits, recorded rather than delivered: an event name,
 * its payload, and the audience the emit call addresses. Which sockets a
 * room audience reaches is the transport's business.
 */
module Events {
  import opened Json
  import opened Wrappers
  import opened RoomTable

  datatype Audience =
    | ToSid(target: Value)                       // emit(..., to=target)
    | ToRoom(room: Value, skip: Option<Sid>)     // emit(..., room=room[, skip_sid=sid])

  datatype Event = Event(name: string, payload: Value, audience: Audience)

  /** The exceptions a handler can raise on a malformed request. */
  datatype PyError = KeyError | TypeError | AttributeError

  /** What a handler call produced: its emits, in order, or the exception it raised. */
  datatype Outcome = Emitted(events: seq<Event>) | Raised(error: PyError)

  /** `existing-users` with `{'users': users}`, to the joining session. */
  function ExistingUsers(users: seq<Sid>, sid: Sid): Event
  {
    var ids := seq(|users|, i requires 0 <= i < |users| => Str(users[i]));
    Event("existing-users", Obj(map["users" := Arr(ids)]), ToSid(Str(sid)))
  }

  /** `user-joined` with `{'id': sid}`, to the room, skipping the joiner. */
  function UserJoined(sid: Sid, room: Value): Event
  {
    Event("user-joined", Obj(map["id" := Str(sid)]), ToRoom(room, Some(sid)))
  }

  /** `user-left` with `{'id': sid}`, to the whole room. */
  function UserLeft(sid: Sid, room: Value): Event
  {
    Event("user-left", Obj(map["id" := Str(sid)]), ToRoom(room, None))
  }

  /** `signal` carrying the request's own data, to its `to` field. */
  function Forwarded(data: Value, target: Value): Event
  {
    Event("signal", data, ToSid(target))
  }
}
