/** SendMessage as it is written: one request carried through its five steps without interruption,
    updating Redis, MySQL, the broker and the message in place. It is one schedule of SendPipeline. */
module MessageService {
  import opened Domain
  import opened MessageTable
  import opened Fleet
  import opened SendPipeline

  /** The message under construction; SendMessage fills in its ID. */
  class Draft {
    const conv: string
    const sender: string
    const content: string
    var id: Option<nat>

    constructor (conv: string, sender: string, content: string)
      ensures this.conv == conv && this.sender == sender && this.content == content && id.None?
    {
      this.conv, this.sender, this.content := conv, sender, content;
      id := None;
    }
  }

  /** How the outside world treats one request. */
  datatype World = World(redis: Outcome, checkFails: bool, readings: seq<int>, db: Outcome, broker: Outcome)

  function Schedule(r: nat, w: World): seq<Event> {
    [ClaimKey(r, w.redis), CheckMember(r, w.checkFails), AssignId(r, w.readings), Persist(r, w.db), Broadcast(r, w.broker)]
  }

  /** Steps 2 to 5 of the protocol. */
  function AfterGuard(s: State, r: nat, w: World): State {
    DoBroadcast(DoPersist(DoAssign(DoCheck(s, r, w.checkFails), r, w.readings), r, w.db), r, w.broker)
  }

  lemma ScheduleUnfolds(s: State, r: nat, w: World)
    ensures RunEvents(s, Schedule(r, w)) == AfterGuard(DoClaim(s, r, w.redis), r, w)
  {
    var es := Schedule(r, w);
    var s1 := Apply(s, es[0]);
    var s2 := Apply(s1, es[1]);
    var s3 := Apply(s2, es[2]);
    var s4 := Apply(s3, es[3]);
    assert es[1..] == [es[1], es[2], es[3], es[4]] && es[1..][1..] == [es[2], es[3], es[4]];
    assert [es[2], es[3], es[4]][1..] == [es[3], es[4]] && [es[3], es[4]][1..] == [es[4]] && [es[4]][1..] == [];
    calc {
      RunEvents(s, es);
      RunEvents(s1, [es[1], es[2], es[3], es[4]]);
      RunEvents(s2, [es[2], es[3], es[4]]);
      RunEvents(s3, [es[3], es[4]]);
      RunEvents(s4, [es[4]]);
      Apply(s4, es[4]);
    }
  }

  /** An answered request takes no further step. */
  lemma RepliedIsFinal(s: State, r: nat, w: World)
    requires r in s.reqs && s.reqs[r].stage.Replied?
    ensures AfterGuard(s, r, w) == s
    ensures DoCheck(s, r, w.checkFails) == DoAssign(s, r, w.readings) == DoPersist(s, r, w.db) == DoBroadcast(s, r, w.broker) == s
  {
  }

  lemma RepliedStays(s: State, r: nat, w: World)
    requires r in s.reqs && s.reqs[r].stage.Replied?
    ensures RunEvents(s, Schedule(r, w)) == s
  {
    ScheduleUnfolds(s, r, w);
    assert DoClaim(s, r, w.redis) == s;
    RepliedIsFinal(s, r, w);
  }

  /** What the guard answers: anything without a key passes; a key passes when Redis works and nobody claimed
      it within its 30 s. */
  function GuardAnswer(locks: map<string, nat>, key: string, now: nat, redis: Outcome): (err: SendError)
    ensures err.NoError? <==> key == "" || (redis.Works? && (key !in locks || locks[key] <= now))
    ensures err.ErrDuplicateRequest? <==> key != "" && redis.Works? && key in locks && now < locks[key]
    ensures !err.ErrNotMember?
  {
    if key == "" then NoError
    else if !redis.Works? then ErrOther
    else if key in locks && locks[key] > now then ErrDuplicateRequest
    else NoError
  }

  function LocksAfter(locks: map<string, nat>, key: string, now: nat, redis: Outcome): (locks': map<string, nat>)
    ensures key == "" || redis.FailsUndone? || (key in locks && now < locks[key]) ==> locks' == locks
    ensures key != "" && !redis.FailsUndone? && (key in locks ==> locks[key] <= now) ==> locks' == locks[key := now + 30_000]
  {
    if key == "" || redis.FailsUndone? || (key in locks && locks[key] > now) then locks else locks[key := now + 30_000]
  }

  /** What the INSERT and the publish of a row do, and what they answer. */
  ghost predicate Finished(before: Table, after: Table, sent: seq<Publication>, sent': seq<Publication>,
                           row: Message, w: World, err: SendError) {
    var free := !HasId(before, row.id);
    && (err.NoError? <==> free && w.db.Works? && w.broker.Works?)
    && (err.NoError? || err.ErrOther?)
    && after == (if free && !w.db.FailsUndone? then InsertRow(before, row) else before)
    && sent' == (if free && w.db.Works? && !w.broker.FailsUndone?
                 then sent + [Publication("chat:room:" + row.conv, row)] else sent)
  }

  class Backend {
    var now: nat
    var locks: map<string, nat>
    var members: set<(string, string)>
    var table: Table
    var fleet: Fleet
    var published: seq<Publication>
    // bookkeeping that no code reads
    ghost var owner: map<nat, nat>
    ghost var reqs: map<nat, Request>
    ghost var claims: seq<Claim>

    ghost function Snapshot(): State
      reads this
    {
      State(now, locks, members, table, owner, fleet, reqs, published, claims)
    }

    /** AcquireIdempotencyLock: SETNX "idempotency:"+key with the given TTL. */
    method AcquireIdempotencyLock(key: string, ttl: nat, redis: Outcome) returns (acquired: Result<bool>)
      modifies this`locks
      ensures var free := key !in old(locks) || old(locks)[key] <= now;
              && locks == (if free && !redis.FailsUndone? then old(locks)[key := now + ttl] else old(locks))
              && acquired == (if redis.Works? then Ok(free) else Err)
    {
      if redis.FailsUndone? {
        return Err;
      }
      var free := key !in locks || locks[key] <= now;
      if free {
        locks := locks[key := now + ttl];
      }
      return if redis.Works? then Ok(free) else Err;
    }

    /** Next on the server's shared generator. */
    method NextId(server: string, readings: seq<int>) returns (id: nat)
      requires OneCall(fleet, server, readings)
      modifies this`fleet
      ensures fleet == ReadAll(old(fleet), ReadingsOf(server, readings))
      ensures |fleet.issued| > 0 && id == fleet.issued[|fleet.issued| - 1]
    {
      fleet := ReadAll(fleet, ReadingsOf(server, readings));
      id := fleet.issued[|fleet.issued| - 1];
    }

    /** Step 1: claim the idempotency key, if there is one. */
    method PassGuard(ghost r: nat, idempotencyKey: string, redis: Outcome) returns (err: SendError)
      requires At(Snapshot(), r, Arrived) && reqs[r].key == idempotencyKey
      modifies this`locks, this`reqs, this`claims
      ensures Snapshot() == DoClaim(old(Snapshot()), r, redis)
      ensures At(Snapshot(), r, if err.NoError? then Claimed else Replied(StatusOf(err)))
      ensures reqs[r] == old(reqs)[r].(stage := reqs[r].stage, claimedAt := reqs[r].claimedAt)
      ensures err == GuardAnswer(old(locks), idempotencyKey, now, redis)
      ensures locks == LocksAfter(old(locks), idempotencyKey, now, redis)
    {
      ghost var free := Free(Snapshot(), idempotencyKey);
      if idempotencyKey != "" {
        var acquired := AcquireIdempotencyLock(idempotencyKey, LOCK_TTL, redis);
        if free && !redis.FailsUndone? {
          claims := claims + [Claim(idempotencyKey, now, r)];
          reqs := reqs[r := reqs[r].(claimedAt := Some(now))];
        }
        if acquired.Err? {
          reqs := reqs[r := reqs[r].(stage := Replied(500))];
          return ErrOther;
        }
        if !acquired.value {
          reqs := reqs[r := reqs[r].(stage := Replied(409))];
          return ErrDuplicateRequest;
        }
      }
      reqs := reqs[r := reqs[r].(stage := Claimed)];
      return NoError;
    }

    /** SendMessage for the request r, which the handler has admitted. The stores, the answer and the
        message's ID are those of the protocol run on that request's five events; and, told without the
        protocol, what the answer and each store depend on. */
    method SendMessage(ghost r: nat, msg: Draft, server: string, idempotencyKey: string, w: World)
      returns (err: SendError)
      requires r in reqs && reqs[r] == Request(server, idempotencyKey, msg.conv, msg.sender, msg.content, Arrived, None, false, None)
      requires msg.id.None? && OneCall(fleet, server, w.readings)
      modifies this`locks, this`table, this`fleet, this`published, this`owner, this`reqs, this`claims, msg`id
      ensures Snapshot() == RunEvents(old(Snapshot()), Schedule(r, w))
      ensures At(Snapshot(), r, Replied(StatusOf(err))) && reqs[r].id == msg.id
      ensures locks == LocksAfter(old(locks), idempotencyKey, now, w.redis)
      ensures var guard := GuardAnswer(old(locks), idempotencyKey, now, w.redis);
              var admitted := guard.NoError? && !w.checkFails && (msg.conv, msg.sender) in members;
              && (err.ErrDuplicateRequest? <==> guard.ErrDuplicateRequest?)
              && (err.ErrNotMember? <==> guard.NoError? && !w.checkFails && (msg.conv, msg.sender) !in members)
              && (msg.id.Some? <==> admitted)
              && fleet == (if admitted then ReadAll(old(fleet), ReadingsOf(server, w.readings)) else old(fleet))
      ensures msg.id.Some? ==> fleet.issued != [] && msg.id.value == fleet.issued[|fleet.issued| - 1]
      ensures msg.id.None? ==> !err.NoError? && table == old(table) && published == old(published)
      ensures msg.id.Some? ==>
                Finished(old(table), table, old(published), published,
                         Message(msg.id.value, msg.conv, msg.sender, msg.content), w, err)
    {
      ScheduleUnfolds(Snapshot(), r, w);
      err := GuardAndSend(r, msg, server, idempotencyKey, w);
    }

    /** Steps 1 to 5. */
    method GuardAndSend(ghost r: nat, msg: Draft, server: string, idempotencyKey: string, w: World)
      returns (err: SendError)
      requires r in reqs && reqs[r] == Request(server, idempotencyKey, msg.conv, msg.sender, msg.content, Arrived, None, false, None)
      requires msg.id.None? && OneCall(fleet, server, w.readings)
      modifies this`locks, this`table, this`fleet, this`published, this`owner, this`reqs, this`claims, msg`id
      ensures Snapshot() == AfterGuard(DoClaim(old(Snapshot()), r, w.redis), r, w)
      ensures At(Snapshot(), r, Replied(StatusOf(err))) && reqs[r].id == msg.id
      ensures locks == LocksAfter(old(locks), idempotencyKey, now, w.redis)
      ensures var guard := GuardAnswer(old(locks), idempotencyKey, now, w.redis);
              var admitted := guard.NoError? && !w.checkFails && (msg.conv, msg.sender) in members;
              && (err.ErrDuplicateRequest? <==> guard.ErrDuplicateRequest?)
              && (err.ErrNotMember? <==> guard.NoError? && !w.checkFails && (msg.conv, msg.sender) !in members)
              && (msg.id.Some? <==> admitted)
              && fleet == (if admitted then ReadAll(old(fleet), ReadingsOf(server, w.readings)) else old(fleet))
      ensures msg.id.Some? ==> fleet.issued != [] && msg.id.value == fleet.issued[|fleet.issued| - 1]
      ensures msg.id.None? ==> !err.NoError? && table == old(table) && published == old(published)
      ensures msg.id.Some? ==>
                Finished(old(table), table, old(published), published,
                         Message(msg.id.value, msg.conv, msg.sender, msg.content), w, err)
    {
      err := PassGuard(r, idempotencyKey, w.redis);
      if err != NoError {
        RepliedIsFinal(Snapshot(), r, w);
        return;
      }
      err := AdmitAndFinish(r, msg, server, w);
    }

    /** Steps 2 to 5. */
    method AdmitAndFinish(ghost r: nat, msg: Draft, server: string, w: World) returns (err: SendError)
      requires At(Snapshot(), r, Claimed) && reqs[r].server == server && OneCall(fleet, server, w.readings)
      requires reqs[r].conv == msg.conv && reqs[r].sender == msg.sender && reqs[r].content == msg.content
      requires msg.id.None? && reqs[r].id.None?
      modifies this`table, this`fleet, this`published, this`owner, this`reqs, msg`id
      ensures Snapshot() == AfterGuard(old(Snapshot()), r, w)
      ensures At(Snapshot(), r, Replied(StatusOf(err))) && reqs[r].id == msg.id
      ensures var admitted := !w.checkFails && (msg.conv, msg.sender) in members;
              && (msg.id.Some? <==> admitted)
              && fleet == (if admitted then ReadAll(old(fleet), ReadingsOf(server, w.readings)) else old(fleet))
      ensures msg.id.Some? ==> fleet.issued != [] && msg.id.value == fleet.issued[|fleet.issued| - 1]
      ensures msg.id.None? ==> err == (if w.checkFails then ErrOther else ErrNotMember)
                               && table == old(table) && published == old(published)
      ensures msg.id.Some? ==>
                Finished(old(table), table, old(published), published,
                         Message(msg.id.value, msg.conv, msg.sender, msg.content), w, err)
    {
      err := Admit(r, msg.conv, msg.sender, w.checkFails);
      if err != NoError {
        RepliedIsFinal(Snapshot(), r, w);
        return;
      }
      err := NumberAndFinish(r, msg, server, w);
    }

    /** Steps 3 to 5. */
    method NumberAndFinish(ghost r: nat, msg: Draft, server: string, w: World) returns (err: SendError)
      requires At(Snapshot(), r, Admitted) && reqs[r].server == server && OneCall(fleet, server, w.readings)
      requires reqs[r].conv == msg.conv && reqs[r].sender == msg.sender && reqs[r].content == msg.content
      modifies this`table, this`fleet, this`published, this`owner, this`reqs, msg`id
      ensures Snapshot() == DoBroadcast(DoPersist(DoAssign(old(Snapshot()), r, w.readings), r, w.db), r, w.broker)
      ensures At(Snapshot(), r, Replied(StatusOf(err))) && reqs[r].id == msg.id
      ensures fleet == ReadAll(old(fleet), ReadingsOf(server, w.readings))
      ensures fleet.issued != [] && msg.id == Some(fleet.issued[|fleet.issued| - 1])
      ensures msg.id.Some?
              && var row := Message(msg.id.value, msg.conv, msg.sender, msg.content);
                 Finished(old(table), table, old(published), published, row, w, err)
    {
      var id := AssignId(r, msg, server, w.readings);
      err := FinishSend(r, msg, id, w);
    }

    /** Step 3: the message gets the generator's next ID. */
    method AssignId(ghost r: nat, msg: Draft, server: string, readings: seq<int>) returns (id: nat)
      requires At(Snapshot(), r, Admitted) && reqs[r].server == server && OneCall(fleet, server, readings)
      modifies this`fleet, this`reqs, msg`id
      ensures Snapshot() == DoAssign(old(Snapshot()), r, readings) && At(Snapshot(), r, Numbered)
      ensures reqs[r] == old(reqs)[r].(stage := Numbered, id := Some(id)) && msg.id == Some(id)
      ensures fleet == ReadAll(old(fleet), ReadingsOf(server, readings))
      ensures fleet.issued != [] && id == fleet.issued[|fleet.issued| - 1]
    {
      id := NextId(server, readings);
      msg.id := Some(id);
      reqs := reqs[r := reqs[r].(stage := Numbered, id := Some(id))];
    }

    /** Step 2: only members may post. */
    method Admit(ghost r: nat, conv: string, sender: string, fails: bool) returns (err: SendError)
      requires At(Snapshot(), r, Claimed) && reqs[r].conv == conv && reqs[r].sender == sender
      modifies this`reqs
      ensures Snapshot() == DoCheck(old(Snapshot()), r, fails)
      ensures At(Snapshot(), r, if err.NoError? then Admitted else Replied(StatusOf(err)))
      ensures reqs[r] == old(reqs)[r].(stage := reqs[r].stage)
      ensures err == if fails then ErrOther else if (conv, sender) in members then NoError else ErrNotMember
    {
      err := if fails then ErrOther else if (conv, sender) !in members then ErrNotMember else NoError;
      reqs := reqs[r := reqs[r].(stage := if err.NoError? then Admitted else Replied(StatusOf(err)))];
    }

    /** The INSERT and the publish. */
    method FinishSend(ghost r: nat, msg: Draft, id: nat, w: World) returns (err: SendError)
      requires At(Snapshot(), r, Numbered) && reqs[r].id == Some(id)
      requires reqs[r].conv == msg.conv && reqs[r].sender == msg.sender && reqs[r].content == msg.content
      modifies this`table, this`published, this`owner, this`reqs
      ensures Snapshot() == DoBroadcast(DoPersist(old(Snapshot()), r, w.db), r, w.broker)
      ensures At(Snapshot(), r, Replied(StatusOf(err))) && reqs[r].id == Some(id)
      ensures Finished(old(table), table, old(published), published, Message(id, msg.conv, msg.sender, msg.content), w, err)
    {
      var row := Message(id, msg.conv, msg.sender, msg.content);
      if w.db.FailsUndone? || HasId(table, id) {
        reqs := reqs[r := reqs[r].(stage := Replied(500))];
        return ErrOther;
      }
      table := InsertRow(table, row);
      owner := owner[id := r];
      reqs := reqs[r := reqs[r].(inserted := true)];
      if w.db.FailsDone? {
        reqs := reqs[r := reqs[r].(stage := Replied(500))];
        return ErrOther;
      }
      reqs := reqs[r := reqs[r].(stage := Stored)];
      if !w.broker.FailsUndone? {
        published := published + [Publication("chat:room:" + msg.conv, row)];
      }
      err := if w.broker.Works? then NoError else ErrOther;
      reqs := reqs[r := reqs[r].(stage := Replied(StatusOf(err)))];
    }

    /** HandleSendMessage for a decoded request: 400 exactly for a missing field, with nothing touched;
        otherwise the status that the errors of SendMessage stand for. */
    method HandleSendMessage(ghost r: nat, conv: string, sender: string, content: string, server: string,
                             idempotencyKey: string, w: World) returns (status: nat, id: Option<nat>)
      requires r !in reqs && OneCall(fleet, server, w.readings)
      modifies this`locks, this`table, this`fleet, this`published, this`owner, this`reqs, this`claims
      ensures Snapshot() == RunEvents(DoArrive(old(Snapshot()), r, server, idempotencyKey, conv, sender, content), Schedule(r, w))
      ensures status in {202, 400, 403, 409, 500} && At(Snapshot(), r, Replied(status))
      ensures status == 400 <==> conv == "" || sender == "" || content == ""
      ensures status == 400 ==> locks == old(locks) && table == old(table) && fleet == old(fleet)
                                && published == old(published) && id.None?
      ensures var free := idempotencyKey !in old(locks) || old(locks)[idempotencyKey] <= now;
              var passed := idempotencyKey == "" || (w.redis.Works? && free);
              && (status == 409 <==> status != 400 && idempotencyKey != "" && w.redis.Works? && !free)
              && (status == 403 <==> status != 400 && passed && !w.checkFails && (conv, sender) !in members)
              && (id.Some? <==> status != 400 && passed && !w.checkFails && (conv, sender) in members)
      ensures id.Some? ==> fleet.issued != [] && id.value == fleet.issued[|fleet.issued| - 1]
      ensures status == 202 <==> id.Some? && !HasId(old(table), id.value) && w.db.Works? && w.broker.Works?
      ensures status == 202 ==>
                var row := Message(id.value, conv, sender, content);
                table == InsertRow(old(table), row) && published == old(published) + [Publication("chat:room:" + conv, row)]
    {
      var bad := conv == "" || sender == "" || content == "";
      ghost var stage := if bad then Replied(400) else Arrived;
      reqs := reqs[r := Request(server, idempotencyKey, conv, sender, content, stage, None, false, None)];
      if bad {
        RepliedStays(Snapshot(), r, w);
        return 400, None;
      }
      var msg := new Draft(conv, sender, content);
      var err := SendMessage(r, msg, server, idempotencyKey, w);
      id := msg.id;
      status := match err
        case ErrDuplicateRequest => 409
        case ErrNotMember => 403
        case ErrOther => 500
        case NoError => 202;
    }
  }
}
