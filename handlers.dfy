/**
 * What one call of the join and disconnect handlers does, as one atomic
 * step: the dict after the call and the emits (or the exception). The
 * handlers of PearTogether.SignalServer are proved to take these steps.
 */
module Handlers {
  import opened Json
  import opened Wrappers
  import opened RoomTable
  import opened Events

  datatype Step = Step(rooms: Directory, outcome: Outcome)

  /**
   * Reading the room out of a join request, and using it as a dict key: a
   * non-dict request cannot be indexed by a string (TypeError), a dict
   * without the key raises KeyError, and a list or dict room cannot be
   * hashed (TypeError).
   */
  function RoomOf(data: Value): (r: Result<Value, PyError>)
    ensures r.Success? <==> data.Obj? && "room" in data.fields && Hashable(data.fields["room"])
    ensures r.Success? ==> r.value == data.fields["room"]
    ensures r == Failure(KeyError) <==> data.Obj? && "room" !in data.fields
    ensures r.Failure? && r != Failure(KeyError) ==> r == Failure(TypeError)
  {
    if !data.Obj? then Failure(TypeError)
    else if "room" !in data.fields then Failure(KeyError)
    else if !Hashable(data.fields["room"]) then Failure(TypeError)
    else Success(data.fields["room"])
  }

  /** The join handler: create the list if missing, snapshot the others, append, announce. */
  function JoinStep(d: Directory, sid: Sid, data: Value): (s: Step)
    requires d.Valid()
    ensures s.rooms.Valid()
    ensures s.outcome.Raised? <==> RoomOf(data).Failure?
    ensures s.outcome.Raised? ==> s.rooms == d
  {
    match RoomOf(data)
    case Failure(e) => Step(d, Raised(e))
    case Success(room) =>
      Step(AfterJoin(d, room, sid),
           Emitted([ExistingUsers(Without(d.Members(room), sid), sid), UserJoined(sid, room)]))
  }

  /** The disconnect handler: scan rooms in key order, leave the first that holds the session. */
  function DisconnectStep(d: Directory, sid: Sid): (s: Step)
    requires d.Valid()
    ensures s.rooms.Valid() && s.rooms.order == d.order && s.rooms.lists.Keys == d.lists.Keys
    ensures s.outcome.Emitted? && |s.outcome.events| <= 1
  {
    match FirstHolder(d.order, d.lists, sid)
    case None => Step(d, Emitted([]))
    case Some(i) => Step(AfterDisconnect(d, sid), Emitted([UserLeft(sid, d.order[i])]))
  }

  // ---------------------------------------------------------------- join

  /** A request without a usable room raises before the dict changes or anything is emitted. */
  lemma JoinMalformed(d: Directory, sid: Sid, data: Value)
    requires d.Valid()
    requires !(data.Obj? && "room" in data.fields && Hashable(data.fields["room"]))
    ensures JoinStep(d, sid, data).rooms == d
    ensures JoinStep(d, sid, data).outcome == Raised(if data.Obj? && "room" !in data.fields then KeyError else TypeError)
  {
  }

  /** Joining a room not yet in the dict adds it last with an empty list; other entries keep keys, order and lists. */
  lemma JoinNewRoom(d: Directory, sid: Sid, data: Value, room: Value)
    requires d.Valid() && RoomOf(data) == Success(room) && room !in d.lists
    ensures JoinStep(d, sid, data).rooms.order == d.order + [room]
    ensures JoinStep(d, sid, data).rooms.lists == d.lists[room := [sid]]
  {
    assert d.Members(room) + [sid] == [sid];
  }

  /**
   * After join the room's list is its old list with the session appended,
   * every other list is unchanged, and a session already in the list is
   * now in it once more.
   */
  lemma JoinAppends(d: Directory, sid: Sid, data: Value, room: Value)
    requires d.Valid() && RoomOf(data) == Success(room)
    ensures JoinStep(d, sid, data).rooms.lists[room] == d.Members(room) + [sid]
    ensures forall k :: k in d.lists && k != room ==> JoinStep(d, sid, data).rooms.lists[k] == d.lists[k]
    ensures multiset(JoinStep(d, sid, data).rooms.lists[room])[sid] == multiset(d.Members(room))[sid] + 1
  {
  }

  /**
   * Join emits two events, `existing-users` to the joiner and then
   * `user-joined` to the room skipping the joiner; the snapshot is the
   * room's list before the append, minus every copy of the joiner, in order.
   */
  lemma JoinEvents(d: Directory, sid: Sid, data: Value, room: Value)
    requires d.Valid() && RoomOf(data) == Success(room)
    ensures var snapshot := Without(d.Members(room), sid);
      && JoinStep(d, sid, data).outcome == Emitted([ExistingUsers(snapshot, sid), UserJoined(sid, room)])
      && sid !in snapshot
      && multiset(snapshot) == multiset(d.Members(room))[sid := 0]
      && (sid !in d.Members(room) ==> snapshot == d.Members(room))
  {
    WithoutMultiset(d.Members(room), sid);
    if sid !in d.Members(room) {
      WithoutAbsent(d.Members(room), sid);
    }
  }

  // ---------------------------------------------------------- disconnect

  /** Disconnecting a session that is in no list changes nothing and emits nothing. */
  lemma DisconnectAbsent(d: Directory, sid: Sid)
    requires d.Valid() && Absent(d, sid)
    ensures DisconnectStep(d, sid) == Step(d, Emitted([]))
  {
  }

  /**
   * Disconnecting a session whose first holding room (in key order) is
   * `order[i]`, where its first copy sits at `p`, removes exactly that copy,
   * keeps the key even if the list empties, touches no other list, and
   * emits one `user-left` to that room.
   */
  lemma DisconnectFirstRoom(d: Directory, sid: Sid, i: nat, p: nat)
    requires d.Valid() && i < |d.order|
    requires forall j :: 0 <= j < i ==> sid !in d.lists[d.order[j]]
    requires p < |d.lists[d.order[i]]| && d.lists[d.order[i]][p] == sid
    requires forall q :: 0 <= q < p ==> d.lists[d.order[i]][q] != sid
    ensures var room, users := d.order[i], d.lists[d.order[i]];
      && DisconnectStep(d, sid).rooms == Directory(d.order, d.lists[room := users[..p] + users[p + 1..]])
      && DisconnectStep(d, sid).outcome == Emitted([UserLeft(sid, room)])
  {
    FirstHolderIs(d.order, d.lists, sid, i);
    RemoveFirstAt(d.lists[d.order[i]], sid, p);
  }

  // ------------------------------------------------------ join, disconnect

  /**
   * Disconnect undoes the join of a session that was in no room: every list
   * is back as before, the room key stays (with an empty list if the join
   * created it), and the room hears `user-left`.
   */
  lemma JoinThenDisconnect(d: Directory, sid: Sid, data: Value, room: Value)
    requires d.Valid() && RoomOf(data) == Success(room) && Absent(d, sid)
    ensures var joined := JoinStep(d, sid, data).rooms;
      && DisconnectStep(joined, sid).rooms == Directory(joined.order, d.lists[room := d.Members(room)])
      && DisconnectStep(joined, sid).outcome == Emitted([UserLeft(sid, room)])
  {
    var i := JoinedRoomHoldsFirst(d, room, sid);
    LeaveAfterJoin(d, room, sid);
  }

  /**
   * A session that joined twice (the same room again, or a second room)
   * is still listed somewhere after disconnect: the scan stops after one
   * removal, and join never leaves a previous room.
   */
  lemma TwoJoinsOutliveDisconnect(d: Directory, sid: Sid, data1: Value, room1: Value, data2: Value, room2: Value)
    requires d.Valid() && RoomOf(data1) == Success(room1) && RoomOf(data2) == Success(room2)
    ensures var twice := JoinStep(JoinStep(d, sid, data1).rooms, sid, data2).rooms;
      !Absent(DisconnectStep(twice, sid).rooms, sid)
  {
    TwoJoinsOutliveLeave(d, room1, room2, sid);
  }

  /** A joins room "x" first: the room is created, A hears of nobody. */
  lemma FirstPeerJoins()
    ensures var x := Str("x");
      JoinStep(Empty, "A", Obj(map["room" := x]))
        == Step(Directory([x], map[x := ["A"]]), Emitted([ExistingUsers([], "A"), UserJoined("A", x)]))
  {
    var x := Str("x");
    JoinNewRoom(Empty, "A", Obj(map["room" := x]), x);
  }

  /** B joins room "x" after A: B hears of A, and both are listed in join order. */
  lemma SecondPeerJoins()
    ensures var x := Str("x");
      JoinStep(Directory([x], map[x := ["A"]]), "B", Obj(map["room" := x]))
        == Step(Directory([x], map[x := ["A", "B"]]), Emitted([ExistingUsers(["A"], "B"), UserJoined("B", x)]))
  {
    var x := Str("x");
    var one := Directory([x], map[x := ["A"]]);
    assert one.Members(x) + ["B"] == ["A", "B"];
    assert Without(["A"], "B") == ["A"];
  }

  /** The second member of a two-member room stays behind when the first disconnects. */
  lemma PeerLeaves()
    ensures var x := Str("x");
      DisconnectStep(Directory([x], map[x := ["A", "B"]]), "A")
        == Step(Directory([x], map[x := ["B"]]), Emitted([UserLeft("A", x)]))
  {
  }
}
