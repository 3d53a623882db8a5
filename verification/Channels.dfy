/** Channels and their members: channel_service.go over channel_repo.go. */
module Channels {
  import opened Domain

  datatype Channel = Channel(id: string, name: string, kind: string, createdBy: string)

  /** containsString. */
  method ContainsString(slice: seq<string>, target: string) returns (found: bool)
    ensures found <==> target in slice
  {
    for i := 0 to |slice|
      invariant target !in slice[..i]
    {
      if slice[i] == target {
        return true;
      }
    }
    return false;
  }

  /** The list the enrolment loop runs over. */
  function ToEnrol(memberIDs: seq<string>, createdBy: string): seq<string> {
    if createdBy in memberIDs then memberIDs else memberIDs + [createdBy]
  }

  /** The first n calls work; calls beyond the list of outcomes do. */
  predicate AllWork(db: seq<Outcome>, n: nat) {
    forall i :: 0 <= i < n && i < |db| ==> db[i].Works?
  }

  /** The i-th of n calls is the first to return an error. */
  predicate FailsAt(db: seq<Outcome>, n: nat, i: nat) {
    i < n && i < |db| && AllWork(db, i) && !db[i].Works?
  }

  /** The part of the list that took effect when the i-th enrolment returned an error. */
  function Reached(list: seq<string>, db: seq<Outcome>, i: nat): seq<string>
    requires FailsAt(db, |list|, i)
  {
    if db[i].FailsDone? then list[..i + 1] else list[..i]
  }

  /** Different generated IDs give different channel IDs. */
  lemma {:induction false} PrintedInjective(a: nat, b: nat)
    requires Printed(a) == Printed(b)
    ensures a == b
    decreases a
  {
    var s, t := Printed(a), Printed(b);
    assert s[|s| - 1] == DIGITS[a % 10] && t[|t| - 1] == DIGITS[b % 10];
    assert s[..|s| - 1] == (if a < 10 then "" else Printed(a / 10));
    assert t[..|t| - 1] == (if b < 10 then "" else Printed(b / 10));
    if a >= 10 && b >= 10 { PrintedInjective(a / 10, b / 10); }
  }

  /** The users a membership relation gives a channel. */
  function UsersIn(members: set<(string, string)>, c: string): set<string> {
    set m | m in members && m.0 == c :: m.1
  }

  class Directory {
    var users: set<string>
    var channels: map<string, Channel>
    var members: set<(string, string)>

    /** The foreign keys of channel_members. */
    ghost predicate Valid()
      reads this
    {
      forall m :: m in members ==> m.0 in channels && m.1 in users
    }

    ghost function MembersOf(c: string): set<string>
      reads this
    {
      UsersIn(members, c)
    }

    constructor (users: set<string>)
      ensures Valid() && this.users == users && channels == map[] && members == {}
    {
      this.users, channels, members := users, map[], {};
    }

    /** ChannelRepository.Create: a taken ID is refused; an error may come although the row was inserted. */
    method Create(ch: Channel, db: Outcome) returns (ok: bool)
      requires Valid()
      modifies this`channels
      ensures Valid() && ok == (db.Works? && ch.id !in old(channels))
      ensures channels == if !db.FailsUndone? && ch.id !in old(channels) then old(channels)[ch.id := ch] else old(channels)
    {
      if db.FailsUndone? || ch.id in channels {
        return false;
      }
      channels := channels[ch.id := ch];
      return db.Works?;
    }

    /** AddMember: INSERT IGNORE, so a repeated pair and an unknown user or channel are no error and change
        nothing. */
    method AddMember(channelID: string, userID: string, db: Outcome) returns (ok: bool)
      requires Valid()
      modifies this`members
      ensures Valid() && ok == db.Works?
      ensures members == old(members) +
                (if !db.FailsUndone? && channelID in channels && userID in users then {(channelID, userID)} else {})
    {
      if !db.FailsUndone? && channelID in channels && userID in users {
        members := members + {(channelID, userID)};
      }
      return db.Works?;
    }

    method RemoveMember(channelID: string, userID: string, db: Outcome) returns (ok: bool)
      requires Valid()
      modifies this`members
      ensures Valid() && ok == db.Works?
      ensures members == old(members) - (if db.FailsUndone? then {} else {(channelID, userID)})
    {
      if !db.FailsUndone? {
        members := members - {(channelID, userID)};
      }
      return db.Works?;
    }

    /** IsMember: the COUNT(*) of a primary key is 0 or 1. */
    method IsMember(channelID: string, userID: string, fails: bool) returns (r: Result<bool>)
      ensures r == if fails then Err else Ok(userID in MembersOf(channelID))
    {
      if fails {
        return Err;
      }
      var found := (channelID, userID) in members;
      assert found ==> (channelID, userID) in members;
      return Ok(found);
    }

    /** GetChannelIDsByUser: each of the user's channels once, in whatever order the rows come, unless the
        query, a scan or the row stream fails. */
    method GetChannelIDsByUser(userID: string, fails: bool) returns (r: Result<seq<string>>)
      ensures r.Err? <==> fails
      ensures r.Ok? ==> Distinct(r.value) && forall c :: c in r.value <==> userID in MembersOf(c)
    {
      if fails {
        return Err;
      }
      var ids := [];
      var rows := set m | m in members && m.1 == userID;
      ghost var all := rows;
      while rows != {}
        invariant rows <= all && all == set m | m in members && m.1 == userID
        invariant forall c :: c in ids <==> (c, userID) in all && (c, userID) !in rows
        invariant Distinct(ids)
        decreases |rows|
      {
        var row :| row in rows;
        ids := ids + [row.0];
        rows := rows - {row};
      }
      assert forall c: string :: (c, userID) in all <==> userID in MembersOf(c);
      return Ok(ids);
    }

    /** CreateChannel: `next` is the generator's next ID, `createDb` how the database treats the channel's
        INSERT and `enrolDb` the enrolments after it. A group is accepted with any list, a DM with a list of
        two, nothing else; a refused request changes nothing. On success the new channel has exactly the
        existing users among the listed members and the creator, whatever the order and repetitions of
        the list; when an enrolment fails, those enrolled before it, and its own if it took effect. */
    method CreateChannel(name: string, kind: string, createdBy: string, memberIDs: seq<string>,
                         next: nat, createDb: Outcome, enrolDb: seq<Outcome>) returns (r: Result<Channel>)
      requires Valid()
      modifies this`channels, this`members
      ensures Valid()
      ensures var admitted := (kind == "GROUP" || (kind == "DM" && |memberIDs| == 2)) && Printed(next) !in old(channels);
              && (r.Ok? <==> admitted && createDb.Works? && AllWork(enrolDb, |ToEnrol(memberIDs, createdBy)|))
              && channels == (if admitted && !createDb.FailsUndone?
                              then old(channels)[Printed(next) := Channel(Printed(next), name, kind, createdBy)]
                              else old(channels))
              && (!admitted || !createDb.Works? ==> members == old(members))
              && (admitted && createDb.Works? ==>
                    forall i :: FailsAt(enrolDb, |ToEnrol(memberIDs, createdBy)|, i) ==>
                      forall u :: (Printed(next), u) in members <==>
                        u in users && u in Reached(ToEnrol(memberIDs, createdBy), enrolDb, i))
      ensures r.Ok? ==> r.value == Channel(Printed(next), name, kind, createdBy)
      ensures r.Ok? ==> forall u :: (Printed(next), u) in members <==> u in users && (u == createdBy || u in memberIDs)
      ensures forall c, u :: c != Printed(next) ==> ((c, u) in members <==> (c, u) in old(members))
    {
      if kind != "DM" && kind != "GROUP" {
        return Err;
      }
      if kind == "DM" && |memberIDs| != 2 {
        return Err;
      }
      var toEnrol := memberIDs;
      var found := ContainsString(memberIDs, createdBy);
      if !found {
        toEnrol := toEnrol + [createdBy];
      }
      assert toEnrol == ToEnrol(memberIDs, createdBy);
      var ch := Channel(Printed(next), name, kind, createdBy);
      var created := Create(ch, createDb);
      if !created {
        return Err;
      }
      assert forall u :: u in toEnrol <==> u == createdBy || u in memberIDs;
      var enrolled := EnrolAll(ch.id, toEnrol, enrolDb);
      return if enrolled then Ok(ch) else Err;
    }

    /** The enrolment loop of CreateChannel, on a channel without members. */
    method EnrolAll(id: string, toEnrol: seq<string>, enrolDb: seq<Outcome>) returns (ok: bool)
      requires Valid() && id in channels && forall m :: m in members ==> m.0 != id
      modifies this`members
      ensures Valid() && (ok <==> AllWork(enrolDb, |toEnrol|))
      ensures ok ==> Enrolled(old(members), members, id, toEnrol)
      ensures forall c, u :: c != id ==> ((c, u) in members <==> (c, u) in old(members))
      ensures forall i :: FailsAt(enrolDb, |toEnrol|, i) ==> Enrolled(old(members), members, id, Reached(toEnrol, enrolDb, i))
    {
      for i := 0 to |toEnrol|
        invariant Valid()
        invariant Enrolled(old(members), members, id, toEnrol[..i])
        invariant AllWork(enrolDb, i)
      {
        assert toEnrol[..i + 1] == toEnrol[..i] + [toEnrol[i]];
        ok := AddMember(id, toEnrol[i], if i < |enrolDb| then enrolDb[i] else Works);
        if !ok {
          assert forall j :: FailsAt(enrolDb, |toEnrol|, j) ==> j == i;
          return;
        }
      }
      assert toEnrol[..|toEnrol|] == toEnrol;
      ok := true;
    }

    /** The channel got the existing users of the list, and the other channels kept their members. */
    ghost predicate Enrolled(before: set<(string, string)>, after: set<(string, string)>, id: string, list: seq<string>)
      reads this`users
    {
      forall c, u :: (c, u) in after <==> if c == id then u in list && u in users else (c, u) in before
    }
  }

  /** A DM is documented as having exactly two members. What CreateChannel gives an accepted DM of existing
      users has one to three, and exactly two if and only if the listed IDs differ and include the
      creator, or coincide and exclude the creator. */
  lemma DirectMessageSize(memberIDs: seq<string>, createdBy: string, members: set<string>)
    requires |memberIDs| == 2 && forall u :: u in members <==> u == createdBy || u in memberIDs
    ensures 1 <= |members| <= 3
    ensures |members| == 2 <==> ((memberIDs[0] != memberIDs[1]) <==> createdBy in memberIDs)
  {
    var a, b := memberIDs[0], memberIDs[1];
    assert members == {a, b, createdBy} by {
      assert forall u :: u in memberIDs <==> u == a || u == b;
    }
    if a == b {
      assert {a, b, createdBy} == {a, createdBy};
    } else if createdBy in memberIDs {
      assert {a, b, createdBy} == {a, b};
    }
  }
}
