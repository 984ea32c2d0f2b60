/**
 * The socket.io server of pear_together_socket.py: the module-level dict
 * `rooms_users` becomes the state of one SignalServer object, and each
 * `@sio.event` handler a method that updates it in place and returns the
 * emits it makes, in order, instead of sending them.
 */
module PearTogether {
  import opened Json
  import opened Wrappers
  import opened RoomTable
  import opened Events
  import opened Handlers

  class SignalServer {
    /** The keys of `rooms_users`, in insertion order. */
    var order: seq<Value>
    /** `rooms_users` itself: room to the session ids that joined it. */
    var roomsUsers: map<Value, seq<Sid>>

    function Rooms(): Directory
      reads this
    {
      Directory(order, roomsUsers)
    }

    predicate Valid()
      reads this
    {
      Rooms().Valid()
    }

    /** The server starts with no rooms. */
    constructor ()
      ensures Valid() && Rooms() == Empty
    {
      order := [];
      roomsUsers := map[];
    }

    /** `connect` only logs: no state change, no emit. */
    method Connect(sid: Sid, environ: Value) returns (events: seq<Event>)
      ensures events == []
    {
      events := [];
    }

    /** `join`: the dict and the emits are those of JoinStep. */
    method Join(sid: Sid, data: Value) returns (outcome: Outcome)
      requires Valid()
      modifies this
      ensures Valid()
      ensures Step(Rooms(), outcome) == JoinStep(old(Rooms()), sid, data)
    {
      var key := RoomOf(data);
      if key.Failure? {
        return Raised(key.error);
      }
      var room := key.value;
      ghost var before := Rooms();
      if room !in roomsUsers {
        roomsUsers := roomsUsers[room := []];
        order := order + [room];
      }
      var existing := Without(roomsUsers[room], sid);
      roomsUsers := roomsUsers[room := roomsUsers[room] + [sid]];
      outcome := Emitted([ExistingUsers(existing, sid), UserJoined(sid, room)]);
      assert roomsUsers == before.lists[room := before.Members(room) + [sid]];
    }

    /**
     * `signal`: forwards the request unchanged to `data['to']` when that is
     * present and truthy, and emits nothing otherwise; a request that is not
     * a dict has no `get` and raises. It reads and writes no server state.
     */
    method Signal(sid: Sid, data: Value) returns (outcome: Outcome)
      ensures !data.Obj? ==> outcome == Raised(AttributeError)
      ensures data.Obj? && Truthy(Get(data.fields, "to")) ==>
        outcome == Emitted([Forwarded(data, data.fields["to"])])
      ensures data.Obj? && !Truthy(Get(data.fields, "to")) ==> outcome == Emitted([])
    {
      if !data.Obj? {
        return Raised(AttributeError);
      }
      var target := Get(data.fields, "to");
      if Truthy(target) {
        outcome := Emitted([Forwarded(data, target)]);
      } else {
        outcome := Emitted([]);
      }
    }

    /**
     * `disconnect`: scans the rooms in key order; the first whose list holds
     * the session loses that session's first copy, hears `user-left`, and
     * the scan stops.
     */
    method Disconnect(sid: Sid) returns (events: seq<Event>)
      requires Valid()
      modifies this
      ensures Valid()
      ensures Step(Rooms(), Emitted(events)) == DisconnectStep(old(Rooms()), sid)
    {
      events := [];
      var i := 0;
      while i < |order|
        invariant 0 <= i <= |order|
        invariant Rooms() == old(Rooms())
        invariant forall j :: 0 <= j < i ==> sid !in roomsUsers[order[j]]
      {
        var room := order[i];
        var users := roomsUsers[room];
        if sid in users {
          FirstHolderIs(order, roomsUsers, sid, i);
          roomsUsers := roomsUsers[room := RemoveFirst(users, sid)];
          events := [UserLeft(sid, room)];
          return;
        }
        i := i + 1;
      }
    }
  }

  /** Two peers meet in room "x": A joins, B joins and learns of A, A leaves and B stays. */
  method TwoPeers()
  {
    var server := new SignalServer();
    var x := Str("x");
    var joinX := Obj(map["room" := x]);

    var a := server.Join("A", joinX);
    assert a == Emitted([ExistingUsers([], "A"), UserJoined("A", x)])
        && server.Rooms() == Directory([x], map[x := ["A"]]) by {
      FirstPeerJoins();
    }

    var b := server.Join("B", joinX);
    assert b == Emitted([ExistingUsers(["A"], "B"), UserJoined("B", x)])
        && server.Rooms() == Directory([x], map[x := ["A", "B"]]) by {
      SecondPeerJoins();
    }

    var left := server.Disconnect("A");
    assert left == [UserLeft("A", x)] && server.Rooms() == Directory([x], map[x := ["B"]]) by {
      PeerLeaves();
    }
  }

  /** A's offer reaches B unchanged; a request with an empty `to` goes nowhere. */
  method OfferToPeer()
  {
    var server := new SignalServer();
    var offer := Obj(map["to" := Str("B"), "sdp" := Str("v=0")]);
    var sent := server.Signal("A", offer);
    assert sent == Emitted([Forwarded(offer, Str("B"))]);
    var unaddressed := server.Signal("A", Obj(map["to" := Str("")]));
    assert unaddressed == Emitted([]);
  }
}
