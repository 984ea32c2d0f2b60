# pear_together signaling relay, modelled in Dafny

`backend_python/pear_together_socket.py` is a small socket.io server that relays
WebRTC call setup between browsers. Clients `join` a named room. The server
sends the joiner the ids already in the room (`existing-users`) and tells the
room about the newcomer (`user-joined`). A `signal` request is forwarded
verbatim to the session named in its `to` field. When a session disconnects,
the room it is found in hears `user-left`.

The server keeps one piece of state, the module-level dict `rooms_users`,
which maps a room name to the list of session ids that joined it. This
project models that dict and the four handlers that read or change it.

- `Json` (json.dfy): the decoded request payloads (`None`, booleans, integers,
  strings, lists, dicts), Python truthiness, and which values can key a dict.
- `RoomTable` (room_table.dfy): `rooms_users` as a `Directory`. This is a
  key-order sequence plus a map, because Python dicts iterate in insertion
  order and disconnect depends on that order. The module also holds:
  - the filter that builds the `existing-users` list;
  - `list.remove`;
  - the disconnect scan;
  - the effect of one join and of one disconnect on the dict, and the
    lemmas about them.
- `Events` (events.dfy): the outbound emits as records holding a name, a
  payload and an audience. The audience is `ToSid(target)` or
  `ToRoom(room, skip)`. The exceptions a handler can raise are listed here.
- `Handlers` (handlers.dfy): `JoinStep` and `DisconnectStep`. Each gives the
  dict after one handler call and the emits (or the exception) of that call,
  taken as one atomic step. The lemmas here state what each call changes and
  emits.
- `PearTogether` (server.dfy): class `SignalServer`. Its fields `order` and
  `roomsUsers` are `rooms_users`, and its methods `Connect`, `Join`, `Signal`
  and `Disconnect` are the handlers. The methods update the fields in place
  and return their emits in order. `Disconnect` is the `for … break` scan as
  a `while` loop. `Join` and `Disconnect` are proved to take exactly the steps
  `JoinStep` and `DisconnectStep` describe. `Signal` has no `modifies` clause,
  so it provably leaves the dict alone. `TwoPeers` and `OfferToPeer` are
  client methods that walk through a two-peer call from the outside.

The model follows the code, not a tidier design:
- joining a second room does not leave the first;
- re-joining a room lists the session twice;
- a room whose list becomes empty keeps its key;
- disconnect removes one copy from the first room, in key order, that
  holds the session, and then stops. `TwoJoinsOutliveDisconnect` proves that
  a session that joined twice is still listed afterwards;
- a `signal` without a truthy `to` is dropped silently;
- a `signal` to an unknown session is emitted like any other: the code never
  checks the target;
- the forwarded payload is the request itself, with no sender field added.

## Model

| member | source | states |
|---|---|---|
| RoomTable.Without | backend_python/pear_together_socket.py:27 | the filtered list holds exactly the ids of the room's list other than the joiner, and is no longer than it |
| RoomTable.WithoutAppend | backend_python/pear_together_socket.py:27 | filtering a concatenation is the concatenation of the filtered parts, so the survivors keep their order |
| RoomTable.WithoutMultiset | backend_python/pear_together_socket.py:27 | every copy of the joiner is dropped and every other id keeps its multiplicity |
| RoomTable.WithoutAbsent | backend_python/pear_together_socket.py:27 | a list without the joiner passes through the filter unchanged |
| RoomTable.RemoveFirst | backend_python/pear_together_socket.py:50 | removing a value from a list that holds it shortens the list by one |
| RoomTable.RemoveFirstMultiset | backend_python/pear_together_socket.py:50 | exactly one copy of the value is removed; every other element keeps its multiplicity |
| RoomTable.RemoveFirstAt | backend_python/pear_together_socket.py:50 | the copy removed is the first: with the value's first occurrence at index `p`, the result is the list with index `p` cut out |
| RoomTable.RemoveAppended | backend_python/pear_together_socket.py:50 | removing a value just appended to a list free of it gives the list back |
| RoomTable.FirstHolder | backend_python/pear_together_socket.py:48-53 | the scan stops at the first room, in key order, whose list holds the session; it finds none exactly when no list holds it |
| RoomTable.FirstHolderIs | backend_python/pear_together_socket.py:48-53 | a room that holds the session, with no earlier room holding it, is where the scan stops |
| RoomTable.AfterJoin | backend_python/pear_together_socket.py:23-31 | join keeps the dict well formed; a new room is added last and existing keys keep their order; the room's list gains the session at its end; every other list is unchanged |
| RoomTable.AfterDisconnect | backend_python/pear_together_socket.py:47-53 | disconnect keeps every key and the key order; with no holder the dict is unchanged, otherwise only the first holder's list changes, by `remove` |
| RoomTable.JoinedRoomHoldsFirst | backend_python/pear_together_socket.py:48-53 | after a session in no list joins a room, that room is where the disconnect scan stops |
| RoomTable.LeaveAfterJoin | backend_python/pear_together_socket.py:23-53 | disconnect undoes the join of a session that was in no list; the room key stays, with an empty list if the join created it |
| RoomTable.LeaveKeepsSecondCopy | backend_python/pear_together_socket.py:48-53 | a session held in two lists, or twice in one list, is still held after disconnect |
| RoomTable.TwoJoinsOutliveLeave | backend_python/pear_together_socket.py:23-53 | after two joins by one session (same room or not), disconnect leaves it listed somewhere |
| Handlers.RoomOf | backend_python/pear_together_socket.py:17-23 | `data['room']` gives the room exactly when the request is a dict with a hashable `room`; a dict without the key raises KeyError, and a non-dict request or an unhashable room raises TypeError |
| Handlers.JoinStep | backend_python/pear_together_socket.py:16-34 | join keeps the dict well formed, raises exactly when the request has no usable room, and then leaves the dict unchanged |
| Handlers.DisconnectStep | backend_python/pear_together_socket.py:44-53 | disconnect keeps the dict well formed with the same keys in the same order, never raises, and emits at most one event |
| Handlers.JoinMalformed | backend_python/pear_together_socket.py:17 | a join without a usable room raises (KeyError for a dict missing `room`, TypeError otherwise) before any change to the dict |
| Handlers.JoinNewRoom | backend_python/pear_together_socket.py:23-24 | joining a room not in the dict appends its key after all existing keys, and its list holds only the joiner; all existing entries are unchanged |
| Handlers.JoinAppends | backend_python/pear_together_socket.py:31 | the room's list becomes its old list plus the joiner at the end; no other list changes; a re-join adds one more copy of the session |
| Handlers.JoinEvents | backend_python/pear_together_socket.py:27-34 | join emits exactly `existing-users` to the joiner and then `user-joined {id}` to the room skipping the joiner; the snapshot is the pre-append list minus every copy of the joiner, in order |
| Handlers.DisconnectAbsent | backend_python/pear_together_socket.py:48-53 | disconnecting a session in no list changes nothing and emits nothing |
| Handlers.DisconnectFirstRoom | backend_python/pear_together_socket.py:48-53 | disconnect removes the first copy of the session from the first room holding it, keeps that key even if its list empties, changes no other list, and emits one `user-left {id}` to that room |
| Handlers.JoinThenDisconnect | backend_python/pear_together_socket.py:16-53 | a join by a session in no list followed by its disconnect restores every list and emits `user-left` to the joined room |
| Handlers.TwoJoinsOutliveDisconnect | backend_python/pear_together_socket.py:16-53 | a session that joined twice is still listed after its disconnect |
| Handlers.FirstPeerJoins | backend_python/pear_together_socket.py:16-34 | the first joiner of a room is listed alone and receives an empty `existing-users` |
| Handlers.SecondPeerJoins | backend_python/pear_together_socket.py:16-34 | the second joiner receives the first in `existing-users`, and both are listed in join order |
| Handlers.PeerLeaves | backend_python/pear_together_socket.py:44-53 | when one of two members disconnects, the other stays listed and the room hears `user-left` |
| PearTogether.SignalServer.constructor | backend_python/pear_together_socket.py:9 | the server starts with an empty `rooms_users` |
| PearTogether.SignalServer.Connect | backend_python/pear_together_socket.py:12-13 | connect emits nothing |
| PearTogether.SignalServer.Join | backend_python/pear_together_socket.py:16-34 | the in-place join leaves the dict and returns the emits (or exception) that `JoinStep` gives |
| PearTogether.SignalServer.Signal | backend_python/pear_together_socket.py:37-41 | signal forwards the request unchanged to `data['to']` when it is present and truthy, emits nothing otherwise, raises AttributeError for a non-dict request, and touches no state |
| PearTogether.SignalServer.Disconnect | backend_python/pear_together_socket.py:44-53 | the in-place scan with early exit leaves the dict and returns the emits that `DisconnectStep` gives |

## Left out

- Transport plumbing is not modelled: the socket.io server, aiohttp, CORS, `web.run_app` and port 5000 (pear_together_socket.py:1-6, 55-56).
- `sio.enter_room` (line 18) and the library's own room membership are not modelled. A `ToRoom` event records the audience named in the emit call, not the sockets that receive it. With `room=None`, python-socketio broadcasts to everyone; the model does not capture this.
- Delivery failures inside `sio.emit` are not modelled, and neither is the library's handling of a `to` that is not a session id.
- `print` logging (lines 13, 20, 45) is console output with no effect on state.
- asyncio interleaving at the `await` points is not modelled. Each handler is one atomic step, so a concurrent handler running between the snapshot (line 27) and the append (line 31) is not captured.
- The `environ` argument of `connect` is an opaque parameter that the handler ignores.
- Python's cross-type equality of dict keys is not modelled. `True == 1` and `1 == 1.0` would make such keys collide in `rooms_users`, but the model compares room values structurally. Floats are not part of the payload type.
- The payload type has no bytes, so socket.io binary attachments are not modelled. A dict payload is a map, so the key order of a forwarded `signal` payload is not kept.
- `backend_python/basic_socet.py` is not part of this model. It keeps no state, and each of its handlers only calls into the library.
