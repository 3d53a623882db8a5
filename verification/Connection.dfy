/** How a session gets its listeners (ws_handler.go): one per channel of the user, which is what the live
    path relies on. */
module Connection {
  import opened Domain
  import opened Channels
  import opened LiveStream

  /** The rooms of the channels that a list of channel IDs names. */
  function RoomsFor(ids: seq<string>): seq<string> {
    seq(|ids|, i requires 0 <= i < |ids| => Room(ids[i]))
  }

  lemma RoomsForDistinct(ids: seq<string>)
    requires Distinct(ids)
    ensures Distinct(RoomsFor(ids))
  {
    forall i, j | 0 <= i < j < |ids| ensures Room(ids[i]) != Room(ids[j]) {
      if Room(ids[i]) == Room(ids[j]) { RoomInjective(ids[i], ids[j]); }
    }
  }

  ghost predicate IsRoomOf(room: string, channels: set<string>) {
    exists c :: c in channels && Room(c) == room
  }

  /** The written frames come from the rooms of these channels only. */
  ghost predicate WritesOnlyFrom(s: Session, channels: set<string>) {
    forall k :: 0 <= k < |s.written| ==> IsRoomOf(s.written[k].room, channels)
  }

  /** What a session promises however it is scheduled from here on. */
  ghost predicate Promises(s: Session, channels: set<string>) {
    forall es :: AtMostOnce(RunEvents(s, es)) && WritesOnlyFrom(RunEvents(s, es), channels)
  }

  lemma RoomsMeanChannels(user: string, ids: seq<string>, channels: set<string>, es: seq<Event>)
    requires Distinct(ids) && forall c :: c in ids <==> c in channels
    ensures var s := RunEvents(Start(user, RoomsFor(ids)), es); AtMostOnce(s) && WritesOnlyFrom(s, channels)
  {
    RoomsForDistinct(ids);
    LivePathAtMostOnce(user, RoomsFor(ids), es);
    OnlyFrom(RunEvents(Start(user, RoomsFor(ids)), es), ids, channels);
  }

  lemma OnlyFrom(s: Session, ids: seq<string>, channels: set<string>)
    requires AtMostOnce(s) && Rooms(s) == RoomsFor(ids) && forall c :: c in ids ==> c in channels
    ensures WritesOnlyFrom(s, channels)
  {
    forall k | 0 <= k < |s.written| ensures IsRoomOf(s.written[k].room, channels) {
      assert s.written[k].room in Rooms(s);
      var i :| 0 <= i < |ids| && RoomsFor(ids)[i] == s.written[k].room;
      assert ids[i] in channels && Room(ids[i]) == s.written[k].room;
    }
  }

  /** ServeWS up to its listeners: refused without a user, a WebSocket or the user's channels; otherwise the
      session has one listener per channel of the user, and under every schedule it writes each publication
      at most once and only publications of channels the user was a member of when connecting. */
  method Connect(directory: Directory, userID: string, upgrades: bool, dbFails: bool) returns (r: Result<Session>)
    ensures r.Err? <==> userID == "" || !upgrades || dbFails
    ensures r.Ok? ==> r.value.user == userID && Distinct(Rooms(r.value))
                      && (forall c :: userID in directory.MembersOf(c) <==> Room(c) in Rooms(r.value))
                      && r.value.writing && r.value.buffer == [] && r.value.written == []
                      && (forall i :: 0 <= i < |r.value.listeners| ==> !r.value.listeners[i].on)
                      && Promises(r.value, set m | m in directory.members && m.1 == userID :: m.0)
  {
    if userID == "" || !upgrades {
      return Err;
    }
    var loaded := directory.GetChannelIDsByUser(userID, dbFails);
    if loaded.Err? {
      return Err;
    }
    var channelIDs := loaded.value;
    var listeners := [];
    for i := 0 to |channelIDs|
      invariant listeners == Start(userID, RoomsFor(channelIDs)).listeners[..i]
    {
      listeners := listeners + [Listener(Room(channelIDs[i]), 0, false)];
    }
    var session := Start(userID, []).(listeners := listeners);
    assert session == Start(userID, RoomsFor(channelIDs));
    ghost var channels := set m | m in directory.members && m.1 == userID :: m.0;
    assert forall c :: c in channels <==> userID in directory.MembersOf(c);
    forall es ensures AtMostOnce(RunEvents(session, es)) && WritesOnlyFrom(RunEvents(session, es), channels) {
      RoomsMeanChannels(userID, channelIDs, channels, es);
    }
    RoomsForDistinct(channelIDs);
    assert Rooms(session) == RoomsFor(channelIDs);
    forall c ensures c in channelIDs <==> Room(c) in Rooms(session) { ListedIff(channelIDs, c); }
    return Ok(session);
  }

  lemma ListedIff(ids: seq<string>, c: string)
    ensures c in ids <==> Room(c) in RoomsFor(ids)
  {
    if c in ids {
      var i :| 0 <= i < |ids| && ids[i] == c;
      assert RoomsFor(ids)[i] == Room(c);
    } else if Room(c) in RoomsFor(ids) {
      var i :| 0 <= i < |ids| && RoomsFor(ids)[i] == Room(c);
      RoomInjective(ids[i], c);
    }
  }
}
