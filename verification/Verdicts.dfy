/** What decides the answer of a request in an interleaved run (HandleSendMessage, SendMessage): the first
    of its own steps that fails, if there is one, and nothing that other requests do in between. */
module Verdicts {
  import opened Domain
  import opened MessageTable
  import opened SendPipeline
  import opened Answers

  /** Steps a request still has to take. */
  function Left(stage: Stage): nat {
    match stage
    case Arrived => 5
    case Claimed => 4
    case Admitted => 3
    case Numbered => 2
    case Stored => 1
    case _ => 0
  }

  /** The event is the next step of the request. */
  predicate NextStep(s: State, e: Event, r: nat) {
    r in s.reqs &&
    match s.reqs[r].stage
    case Arrived => e.ClaimKey? && e.req == r
    case Claimed => e.CheckMember? && e.req == r
    case Admitted => e.AssignId? && e.req == r && OneCall(s.fleet, s.reqs[r].server, e.readings)
    case Numbered => e.Persist? && e.req == r
    case Stored => e.Broadcast? && e.req == r
    case _ => false
  }

  /** The status with which that step ends the request, if it does not go well. */
  function Refusal(s: State, e: Event, r: nat): Option<nat>
    requires NextStep(s, e, r) && (s.reqs[r].stage.Numbered? ==> s.reqs[r].id.Some?)
  {
    var q := s.reqs[r];
    match e
    case ClaimKey(_, redis) =>
      if q.key == "" then None
      else if !redis.Works? then Some(500)
      else if q.key in s.locks && s.now < s.locks[q.key] then Some(409)
      else None
    case CheckMember(_, fails) =>
      if fails then Some(500) else if (q.conv, q.sender) in s.members then None else Some(403)
    case Persist(_, db) => if db.Works? && !HasId(s.table, q.id.value) then None else Some(500)
    case Broadcast(_, broker) => if broker.Works? then None else Some(500)
    case _ => None
  }

  /** What one event of the system means for a request. */
  ghost predicate StageMoves(s: State, e: Event, r: nat, next: Stage)
    requires r in s.reqs && RequestOk(s, r)
  {
    var stage := s.reqs[r].stage;
    if NextStep(s, e, r) then
      match Refusal(s, e, r)
      case Some(status) => next == Replied(status)
      case None => Left(next) == Left(stage) - 1 && (Left(next) == 0 ==> next == Replied(202))
    else if e == Crash(r) && !stage.Replied? then next == Crashed
    else next == stage
  }

  lemma StageStep(s: State, e: Event, r: nat)
    requires StoreInv(s) && r in s.reqs
    ensures r in Apply(s, e).reqs && StageMoves(s, e, r, Apply(s, e).reqs[r].stage)
  {
    assert RequestOk(s, r);
    if !OfRequest(e) {
      RequestsStay(s, e);
    } else {
      match e
      case ClaimKey(c, redis) => ClaimStep(s, c, redis, r);
      case CheckMember(c, fails) => CheckStep(s, c, fails, r);
      case AssignId(c, readings) => AssignStep(s, c, readings, r);
      case Persist(c, db) => PersistStep(s, c, db, r);
      case Broadcast(c, broker) => BroadcastStep(s, c, broker, r);
      case _ =>
    }
  }

  lemma ClaimStep(s: State, c: nat, redis: Outcome, r: nat)
    requires r in s.reqs && RequestOk(s, r)
    ensures r in DoClaim(s, c, redis).reqs && StageMoves(s, ClaimKey(c, redis), r, DoClaim(s, c, redis).reqs[r].stage)
  {
  }

  lemma CheckStep(s: State, c: nat, fails: bool, r: nat)
    requires r in s.reqs && RequestOk(s, r)
    ensures r in DoCheck(s, c, fails).reqs && StageMoves(s, CheckMember(c, fails), r, DoCheck(s, c, fails).reqs[r].stage)
  {
  }

  lemma AssignStep(s: State, c: nat, readings: seq<int>, r: nat)
    requires r in s.reqs && RequestOk(s, r)
    ensures r in DoAssign(s, c, readings).reqs
            && StageMoves(s, AssignId(c, readings), r, DoAssign(s, c, readings).reqs[r].stage)
  {
  }

  lemma PersistStep(s: State, c: nat, db: Outcome, r: nat)
    requires r in s.reqs && RequestOk(s, r)
    ensures r in DoPersist(s, c, db).reqs && StageMoves(s, Persist(c, db), r, DoPersist(s, c, db).reqs[r].stage)
  {
  }

  lemma BroadcastStep(s: State, c: nat, broker: Outcome, r: nat)
    requires r in s.reqs && RequestOk(s, r)
    ensures r in DoBroadcast(s, c, broker).reqs
            && StageMoves(s, Broadcast(c, broker), r, DoBroadcast(s, c, broker).reqs[r].stage)
  {
  }

  // ----------------------------------------------------------------- the answers

  /** No step of the request fails, and its server does not crash before it has answered. */
  ghost predicate Clean(s: State, es: seq<Event>, r: nat)
    requires StoreInv(s) && r in s.reqs
    decreases |es|
  {
    es == [] ||
    (assert RequestOk(s, r);
     StageStep(s, es[0], r); StoreKept(s, es[0]);
     && (NextStep(s, es[0], r) ==> Refusal(s, es[0], r).None?)
     && !(es[0] == Crash(r) && Left(s.reqs[r].stage) > 0)
     && Clean(Apply(s, es[0]), es[1..], r))
  }

  /** How many of its steps the request takes during a run. */
  function StepsTaken(s: State, es: seq<Event>, r: nat): nat
    decreases |es|
  {
    if es == [] then 0
    else (if NextStep(s, es[0], r) then 1 else 0) + StepsTaken(Apply(s, es[0]), es[1..], r)
  }

  /** The first step of the request that fails, fails with this status, before any crash. */
  ghost predicate RefusedWith(s: State, es: seq<Event>, r: nat, status: nat)
    requires StoreInv(s) && r in s.reqs
    decreases |es|
  {
    es != [] &&
    (assert RequestOk(s, r);
     StageStep(s, es[0], r); StoreKept(s, es[0]);
     if NextStep(s, es[0], r) && Refusal(s, es[0], r).Some? then Refusal(s, es[0], r).value == status
     else es[0] != Crash(r) && RefusedWith(Apply(s, es[0]), es[1..], r, status))
  }

  /** A request that has been answered or has crashed stays so. */
  lemma {:induction false} SettledStays(s: State, es: seq<Event>, r: nat)
    requires StoreInv(s) && r in s.reqs && (s.reqs[r].stage.Replied? || s.reqs[r].stage.Crashed?)
    ensures r in RunEvents(s, es).reqs && RunEvents(s, es).reqs[r].stage == s.reqs[r].stage
    ensures StepsTaken(s, es, r) == 0 && Clean(s, es, r)
    decreases |es|
  {
    if es != [] {
      StageStep(s, es[0], r);
      StoreKept(s, es[0]);
      SettledStays(Apply(s, es[0]), es[1..], r);
    }
  }

  /** 202 is the answer if and only if the request takes all its remaining steps and none of them fails:
      Redis works and its key is free when it is claimed, the sender is a member when checked, the ID is
      free and the database works at the INSERT, the broker works at the publish. */
  lemma {:induction false} AcceptedIff(s: State, es: seq<Event>, r: nat)
    requires StoreInv(s) && r in s.reqs && Left(s.reqs[r].stage) > 0
    ensures At(RunEvents(s, es), r, Replied(202)) <==> Clean(s, es, r) && StepsTaken(s, es, r) == Left(s.reqs[r].stage)
    ensures StepsTaken(s, es, r) <= Left(s.reqs[r].stage)
    decreases |es|
  {
    if es != [] {
      var s1 := Apply(s, es[0]);
      assert RequestOk(s, r);
      StageStep(s, es[0], r);
      StoreKept(s, es[0]);
      if Left(s1.reqs[r].stage) > 0 {
        AcceptedIff(s1, es[1..], r);
      } else {
        SettledStays(s1, es[1..], r);
      }
    }
  }

  /** 403, 409 and 500 are the answer if and only if the first failing step of the request fails that way. */
  lemma {:induction false} RefusedIff(s: State, es: seq<Event>, r: nat, status: nat)
    requires StoreInv(s) && r in s.reqs && Left(s.reqs[r].stage) > 0 && status != 202
    ensures At(RunEvents(s, es), r, Replied(status)) <==> RefusedWith(s, es, r, status)
    decreases |es|
  {
    if es != [] {
      var s1 := Apply(s, es[0]);
      assert RequestOk(s, r);
      StageStep(s, es[0], r);
      StoreKept(s, es[0]);
      if Left(s1.reqs[r].stage) > 0 {
        RefusedIff(s1, es[1..], r, status);
      } else {
        SettledStays(s1, es[1..], r);
        SettledNotRefused(s1, es[1..], r, status);
      }
    }
  }

  lemma {:induction false} SettledNotRefused(s: State, es: seq<Event>, r: nat, status: nat)
    requires StoreInv(s) && r in s.reqs && Left(s.reqs[r].stage) == 0
    ensures !RefusedWith(s, es, r, status)
    decreases |es|
  {
    if es != [] {
      StageStep(s, es[0], r);
      StoreKept(s, es[0]);
      SettledNotRefused(Apply(s, es[0]), es[1..], r, status);
    }
  }

  // ----------------------------------------------------------- malformed requests

  predicate Malformed(q: Request) {
    q.conv == "" || q.sender == "" || q.content == ""
  }

  ghost predicate FieldsJudged(s: State) {
    forall r :: r in s.reqs ==> (s.reqs[r].stage == Replied(400) <==> Malformed(s.reqs[r]))
  }

  lemma JudgedKept(s: State, e: Event)
    requires StoreInv(s) && FieldsJudged(s)
    ensures FieldsJudged(Apply(s, e))
  {
    var s' := Apply(s, e);
    ApplyGrows(s, e);
    forall r | r in s'.reqs ensures s'.reqs[r].stage == Replied(400) <==> Malformed(s'.reqs[r]) {
      if r in s.reqs {
        assert RequestOk(s, r);
        StageStep(s, e, r);
      } else {
        ArrivesFresh(s, e, r);
      }
    }
  }

  lemma ArrivesFresh(s: State, e: Event, r: nat)
    requires r !in s.reqs && r in Apply(s, e).reqs
    ensures e.Arrive? && e.req == r
    ensures var q := Apply(s, e).reqs[r];
            && q.server == e.server && q.key == e.key && q.conv == e.conv && q.sender == e.sender && q.content == e.content
            && q.stage == (if e.conv == "" || e.sender == "" || e.content == "" then Replied(400) else Arrived)
  {
  }

  lemma {:induction false} JudgedRun(s: State, es: seq<Event>)
    requires StoreInv(s) && FieldsJudged(s)
    ensures FieldsJudged(RunEvents(s, es))
    decreases |es|
  {
    if es != [] {
      JudgedKept(s, es[0]);
      StoreKept(s, es[0]);
      JudgedRun(Apply(s, es[0]), es[1..]);
    }
  }

  /** 400 if and only if a field is missing, in every state of every run. */
  lemma BadRequestIff(s: State, es: seq<Event>, r: nat)
    requires Initial(s) && r in RunEvents(s, es).reqs
    ensures var q := RunEvents(s, es).reqs[r];
            q.stage == Replied(400) <==> q.conv == "" || q.sender == "" || q.content == ""
  {
    JudgedRun(s, es);
  }

  // ------------------------------------------------- time, keys and membership

  function Elapsed(es: seq<Event>): nat {
    if es == [] then 0 else (if es[0].Elapse? then es[0].ms else 0) + Elapsed(es[1..])
  }

  lemma TimeStep(s: State, e: Event)
    ensures Apply(s, e).now == s.now + (if e.Elapse? then e.ms else 0)
  {
    if e.ClaimKey? { ClaimLogs(s, e.req, e.redis); }
  }

  lemma {:induction false} TimePasses(s: State, es: seq<Event>)
    ensures RunEvents(s, es).now == s.now + Elapsed(es)
    decreases |es|
  {
    if es != [] {
      TimeStep(s, es[0]);
      TimePasses(Apply(s, es[0]), es[1..]);
    }
  }

  /** In every reachable state a key is free if and only if its last claim is at least 30 s old. */
  lemma KeyFreeIff(s: State, es: seq<Event>, key: string)
    requires Initial(s)
    ensures var s' := RunEvents(s, es);
            Free(s', key) <==>
            forall i :: 0 <= i < |s'.claims| && s'.claims[i].key == key ==> s'.claims[i].at + 30_000 <= s'.now
  {
    var s' := RunEvents(s, es);
    RunFromInitial(s, es);
    LocksRun(s, es);
    forall i | 0 <= i < |s'.claims| && s'.claims[i].key == key && Free(s', key)
      ensures s'.claims[i].at + 30_000 <= s'.now
    {
      assert ClaimOk(s', s'.claims[i]);
    }
  }

  /** A key frees itself: when 30 s have passed without a new claim of its key, a request gets through the
      guard, whatever became of the last holder. */
  lemma KeyFreesItself(s: State, es: seq<Event>, later: seq<Event>, r: nat)
    requires Initial(s) && Elapsed(later) >= 30_000
    requires var s1, s2 := RunEvents(s, es), RunEvents(s, es + later);
             && At(s2, r, Arrived)
             && forall i :: |s1.claims| <= i < |s2.claims| ==> s2.claims[i].key != s2.reqs[r].key
    ensures At(Apply(RunEvents(s, es + later), ClaimKey(r, Works)), r, Claimed)
  {
    var s1, s2 := RunEvents(s, es), RunEvents(s, es + later);
    RunSplit(s, es + later, |es|);
    assert (es + later)[..|es|] == es && (es + later)[|es|..] == later;
    RunFromInitial(s, es);
    RunKeeps(s1, later);
    TimePasses(s1, later);
    KeyFreeIff(s, es + later, s2.reqs[r].key);
    forall i | 0 <= i < |s2.claims| && s2.claims[i].key == s2.reqs[r].key ensures s2.claims[i].at + 30_000 <= s2.now {
      assert s2.claims[i] == s1.claims[i] && ClaimOk(s1, s1.claims[i]);
    }
    StageStep(s2, ClaimKey(r, Works), r);
  }

  predicate NotAfter(es: seq<Event>, i: nat, e: Event)
    requires i < |es|
  {
    e !in es[i + 1..]
  }

  /** The last Join or Leave of the pair, or the membership at the start, if there is none. */
  ghost predicate MemberAfter(before: bool, es: seq<Event>, conv: string, user: string) {
    || (before && Leave(conv, user) !in es)
    || exists i :: 0 <= i < |es| && es[i] == Join(conv, user) && NotAfter(es, i, Leave(conv, user))
  }

  lemma MemberStep(s: State, e: Event, conv: string, user: string)
    ensures (conv, user) in Apply(s, e).members <==>
            e == Join(conv, user) || ((conv, user) in s.members && e != Leave(conv, user))
  {
    if e.ClaimKey? { assert DoClaim(s, e.req, e.redis).members == s.members; }
  }

  /** Who is a member is decided by the last change of that membership, and by nothing else. */
  lemma {:induction false} MembersIff(s: State, es: seq<Event>, conv: string, user: string)
    ensures (conv, user) in RunEvents(s, es).members <==> MemberAfter((conv, user) in s.members, es, conv, user)
  {
    if es != [] {
      var n := |es| - 1;
      RunSnoc(s, es);
      MembersIff(s, es[..n], conv, user);
      MemberStep(RunEvents(s, es[..n]), es[n], conv, user);
      LastChange((conv, user) in s.members, es, conv, user);
    }
  }

  lemma LastChange(before: bool, es: seq<Event>, conv: string, user: string)
    requires es != []
    ensures var n := |es| - 1;
            MemberAfter(before, es, conv, user) <==>
            es[n] == Join(conv, user) || (MemberAfter(before, es[..n], conv, user) && es[n] != Leave(conv, user))
  {
    var n := |es| - 1;
    var front, leave := es[..n], Leave(conv, user);
    assert es == front + [es[n]];
    assert leave in es <==> leave in front || es[n] == leave;
    if es[n] == Join(conv, user) {
      assert es[n + 1..] == [] && NotAfter(es, n, leave);
    }
    forall i | 0 <= i < n ensures NotAfter(es, i, leave) <==> NotAfter(front, i, leave) && es[n] != leave {
      assert es[i + 1..] == front[i + 1..] + [es[n]];
    }
  }
}
