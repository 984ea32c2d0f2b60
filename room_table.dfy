/**
 * `rooms_users`: the server's dict from room name to the list of session ids
 * that joined it. Python dicts iterate in insertion order, and disconnect
 * depends on that order, so the dict is a key-order sequence plus a map.
 */
module RoomTable {
  import opened Json
  import opened Wrappers

  /** A session id, assigned by the transport on connect. */
  type Sid = string

  datatype Directory = Directory(order: seq<Value>, lists: map<Value, seq<Sid>>)
  {
    /** The keys are listed once each, in insertion order, and are hashable. */
    predicate Valid()
    {
      && (forall i, j :: 0 <= i < j < |order| ==> order[i] != order[j])
      && (forall k :: k in order ==> k in lists)
      && (forall k :: k in lists ==> k in order)
      && (forall k :: k in lists ==> Hashable(k))
    }

    /** The list of a room; a room not yet in the dict has none. */
    function Members(room: Value): seq<Sid>
    {
      if room in lists then lists[room] else []
    }
  }

  /** The empty dict the module starts with. */
  const Empty := Directory([], map[])

  /** The ids of a room's list other than the joiner, in list order: the `existing-users` snapshot. */
  function Without(users: seq<Sid>, sid: Sid): (r: seq<Sid>)
    ensures forall u :: u in r <==> u in users && u != sid
    ensures |r| <= |users|
  {
    if users == [] then []
    else if users[0] == sid then Without(users[1..], sid)
    else [users[0]] + Without(users[1..], sid)
  }

  /** Filtering distributes over concatenation: the order of survivors is kept. */
  lemma {:induction false} WithoutAppend(a: seq<Sid>, b: seq<Sid>, sid: Sid)
    ensures Without(a + b, sid) == Without(a, sid) + Without(b, sid)
  {
    if a == [] {
      assert a + b == b;
    } else {
      assert (a + b)[0] == a[0];
      assert (a + b)[1..] == a[1..] + b;
      WithoutAppend(a[1..], b, sid);
    }
  }

  /** Every occurrence of `sid` goes, every other id keeps its multiplicity. */
  lemma {:induction false} WithoutMultiset(users: seq<Sid>, sid: Sid)
    ensures multiset(Without(users, sid)) == multiset(users)[sid := 0]
  {
    if users != [] {
      WithoutMultiset(users[1..], sid);
      assert users == [users[0]] + users[1..];
      assert multiset(users) == multiset{users[0]} + multiset(users[1..]);
    }
  }

  /** A list without `sid` passes through the filter unchanged. */
  lemma {:induction false} WithoutAbsent(users: seq<Sid>, sid: Sid)
    requires sid !in users
    ensures Without(users, sid) == users
  {
    if users != [] {
      assert users[0] != sid;
      assert forall u :: u in users[1..] ==> u in users;
      WithoutAbsent(users[1..], sid);
    }
  }

  /** Python's list removal: drops the first occurrence of `x` (Python raises when there is none). */
  function RemoveFirst<T(==)>(xs: seq<T>, x: T): (r: seq<T>)
    requires x in xs
    ensures |r| == |xs| - 1
  {
    if xs[0] == x then xs[1..]
    else [xs[0]] + RemoveFirst(xs[1..], x)
  }

  /** Exactly one copy of `x` goes; every other element keeps its multiplicity. */
  lemma {:induction false} RemoveFirstMultiset<T>(xs: seq<T>, x: T)
    requires x in xs
    ensures multiset(RemoveFirst(xs, x)) == multiset(xs) - multiset{x}
  {
    assert xs == [xs[0]] + xs[1..];
    if xs[0] != x {
      RemoveFirstMultiset(xs[1..], x);
    }
  }

  /** The occurrence removed is the first one: the list closes over index `p`. */
  lemma {:induction false} RemoveFirstAt<T>(xs: seq<T>, x: T, p: nat)
    requires p < |xs| && xs[p] == x
    requires forall q :: 0 <= q < p ==> xs[q] != x
    ensures RemoveFirst(xs, x) == xs[..p] + xs[p + 1..]
  {
    if p == 0 {
      assert xs[..p] + xs[p + 1..] == xs[1..];
    } else {
      var tail := xs[1..];
      forall q | 0 <= q < p - 1
        ensures tail[q] != x
      {
        assert tail[q] == xs[q + 1];
      }
      RemoveFirstAt(tail, x, p - 1);
      calc {
        RemoveFirst(xs, x);
        [xs[0]] + RemoveFirst(tail, x);
        [xs[0]] + (tail[..p - 1] + tail[p..]);
        ([xs[0]] + tail[..p - 1]) + tail[p..];
        { assert [xs[0]] + tail[..p - 1] == xs[..p]; assert tail[p..] == xs[p + 1..]; }
        xs[..p] + xs[p + 1..];
      }
    }
  }

  /** Removing a value that was appended to a list free of it gives the list back. */
  lemma RemoveAppended<T>(xs: seq<T>, x: T)
    requires x !in xs
    ensures RemoveFirst(xs + [x], x) == xs
  {
    var all := xs + [x];
    forall q | 0 <= q < |xs|
      ensures all[q] != x
    {
      assert all[q] == xs[q];
    }
    RemoveFirstAt(all, x, |xs|);
    assert all[..|xs|] == xs;
  }

  /**
   * The position in `order` of the first room whose list holds `sid`:
   * the room at which the disconnect handler's scan over the dict stops.
   */
  function FirstHolder(order: seq<Value>, lists: map<Value, seq<Sid>>, sid: Sid): (r: Option<nat>)
    requires forall k :: k in order ==> k in lists
    ensures r.None? <==> forall j :: 0 <= j < |order| ==> sid !in lists[order[j]]
    ensures r.Some? ==> r.value < |order| && sid in lists[order[r.value]]
    ensures r.Some? ==> forall j :: 0 <= j < r.value ==> sid !in lists[order[j]]
  {
    if order == [] then None
    else if sid in lists[order[0]] then Some(0)
    else
      match FirstHolder(order[1..], lists, sid)
      case None => None
      case Some(i) => Some(i + 1)
  }

  /** The scan's stopping point is determined by the two facts the scan establishes. */
  lemma FirstHolderIs(order: seq<Value>, lists: map<Value, seq<Sid>>, sid: Sid, i: nat)
    requires forall k :: k in order ==> k in lists
    requires i < |order| && sid in lists[order[i]]
    requires forall j :: 0 <= j < i ==> sid !in lists[order[j]]
    ensures FirstHolder(order, lists, sid) == Some(i)
  {
  }

  /** Lines 23-24 and 31 of the join handler: create the list if missing, then append. */
  function AfterJoin(d: Directory, room: Value, sid: Sid): (r: Directory)
    requires d.Valid() && Hashable(room)
    ensures r.Valid()
    ensures r.lists.Keys == d.lists.Keys + {room}
    ensures room in d.lists ==> r.order == d.order
    ensures room !in d.lists ==> r.order == d.order + [room]
    ensures r.Members(room) == d.Members(room) + [sid]
    ensures forall k :: k != room ==> r.Members(k) == d.Members(k)
  {
    Directory(if room in d.lists then d.order else d.order + [room],
              d.lists[room := d.Members(room) + [sid]])
  }

  /** The disconnect scan: the first list holding `sid` loses its first `sid`. */
  function AfterDisconnect(d: Directory, sid: Sid): (r: Directory)
    requires d.Valid()
    ensures r.Valid() && r.order == d.order && r.lists.Keys == d.lists.Keys
    ensures FirstHolder(d.order, d.lists, sid).None? ==> r == d
    ensures FirstHolder(d.order, d.lists, sid).Some? ==>
      var room := d.order[FirstHolder(d.order, d.lists, sid).value];
      r.lists == d.lists[room := RemoveFirst(d.lists[room], sid)]
  {
    match FirstHolder(d.order, d.lists, sid)
    case None => d
    case Some(i) =>
      var room := d.order[i];
      Directory(d.order, d.lists[room := RemoveFirst(d.lists[room], sid)])
  }

  /** The session is in no room's list. */
  predicate Absent(d: Directory, sid: Sid)
  {
    forall k :: k in d.lists ==> sid !in d.lists[k]
  }

  /** After a join by an absent session, the joined room is the first list holding it. */
  lemma JoinedRoomHoldsFirst(d: Directory, room: Value, sid: Sid) returns (i: nat)
    requires d.Valid() && Hashable(room) && Absent(d, sid)
    ensures var joined := AfterJoin(d, room, sid);
      FirstHolder(joined.order, joined.lists, sid) == Some(i) && joined.order[i] == room
  {
    var joined := AfterJoin(d, room, sid);
    if room in d.lists {
      i :| 0 <= i < |d.order| && d.order[i] == room;
    } else {
      i := |d.order|;
    }
    forall j | 0 <= j < i
      ensures sid !in joined.lists[joined.order[j]]
    {
      assert joined.order[j] == d.order[j] && d.order[j] != room;
      assert joined.Members(d.order[j]) == d.Members(d.order[j]);
    }
    assert sid in joined.Members(room);
    FirstHolderIs(joined.order, joined.lists, sid, i);
  }

  /** Disconnect undoes a join by an absent session: only the (possibly new) key remains. */
  lemma LeaveAfterJoin(d: Directory, room: Value, sid: Sid)
    requires d.Valid() && Hashable(room) && Absent(d, sid)
    ensures var joined := AfterJoin(d, room, sid);
      AfterDisconnect(joined, sid) == Directory(joined.order, d.lists[room := d.Members(room)])
  {
    var joined := AfterJoin(d, room, sid);
    var i := JoinedRoomHoldsFirst(d, room, sid);
    var before := d.Members(room);
    assert sid !in before;
    assert joined.lists[room] == before + [sid];
    RemoveAppended(before, sid);
    assert AfterDisconnect(joined, sid).lists == joined.lists[room := before];
    assert joined.lists == d.lists[room := before + [sid]];
  }

  /** Disconnect removes one copy only: a session held twice is still held afterwards. */
  lemma LeaveKeepsSecondCopy(d: Directory, sid: Sid, room1: Value, room2: Value)
    requires d.Valid() && room1 in d.lists && room2 in d.lists
    requires room1 != room2 ==> sid in d.lists[room1] && sid in d.lists[room2]
    requires room1 == room2 ==> multiset(d.lists[room1])[sid] >= 2
    ensures !Absent(AfterDisconnect(d, sid), sid)
  {
    var after := AfterDisconnect(d, sid);
    assert sid in d.lists[room1];
    var j :| 0 <= j < |d.order| && d.order[j] == room1;
    assert sid in d.lists[d.order[j]];
    var left := d.order[FirstHolder(d.order, d.lists, sid).value];
    if room1 != room2 {
      var kept := if left == room1 then room2 else room1;
      assert after.lists[kept] == d.lists[kept];
    } else if left == room1 {
      RemoveFirstMultiset(d.lists[room1], sid);
      assert multiset(after.lists[room1])[sid] >= 1;
    } else {
      assert after.lists[room1] == d.lists[room1];
    }
  }

  /**
   * A session that joined twice (one room again, or a second room) is still
   * listed after disconnect: the scan removes one copy and stops.
   */
  lemma TwoJoinsOutliveLeave(d: Directory, room1: Value, room2: Value, sid: Sid)
    requires d.Valid() && Hashable(room1) && Hashable(room2)
    ensures !Absent(AfterDisconnect(AfterJoin(AfterJoin(d, room1, sid), room2, sid), sid), sid)
  {
    var once := AfterJoin(d, room1, sid);
    var twice := AfterJoin(once, room2, sid);
    assert twice.lists[room2] == once.Members(room2) + [sid];
    if room1 != room2 {
      assert twice.lists[room1] == d.Members(room1) + [sid];
    } else {
      assert twice.lists[room1] == (d.Members(room1) + [sid]) + [sid];
    }
    LeaveKeepsSecondCopy(twice, sid, room1, room2);
  }
}
