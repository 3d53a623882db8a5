/** Two complete runs, from empty stores, in which a stored message is lost to every later sync: one with
    the documented cursor and a dropped frame, one with a sync-driven cursor and a late commit. */
module LostMessages {
  import opened Domain
  import opened MessageTable
  import opened Snowflake
  import opened Fleet
  import opened SendPipeline
  import opened ClientCursor

  /** Who sends what, where, and what the server's clock shows when the ID is drawn. */
  datatype Send = Send(req: nat, server: string, conv: string, sender: string, content: string, t: int)

  ghost predicate CanSend(s: State, m: Send) {
    && m.req !in s.reqs && m.conv != "" && m.sender != "" && m.content != ""
    && (m.conv, m.sender) in s.members && m.server in s.fleet.gens
    && var g := s.fleet.gens[m.server];
       ValidGen(g) && !g.spinning && g.last < m.t && InRange(m.t)
  }

  function IdOf(s: State, m: Send): nat
    requires m.server in s.fleet.gens
  {
    Pack(m.t, s.fleet.gens[m.server].worker, 0)
  }

  /** The request up to its ID: nothing stored yet. */
  function FirstHalf(m: Send): seq<Event> {
    [Arrive(m.req, m.server, "", m.conv, m.sender, m.content), ClaimKey(m.req, Works),
     CheckMember(m.req, false), AssignId(m.req, [m.t])]
  }

  function Pending(s: State, m: Send): State
    requires m.server in s.fleet.gens
  {
    var g := s.fleet.gens[m.server];
    s.(reqs := s.reqs[m.req := Request(m.server, "", m.conv, m.sender, m.content, Numbered, Some(IdOf(s, m)), false, None)],
       fleet := Fleet(s.fleet.gens[m.server := g.(sequence := 0, last := m.t)], s.fleet.issued + [IdOf(s, m)]))
  }

  lemma FreshCall(f: Fleet, server: string, t: int)
    requires server in f.gens && !f.gens[server].spinning && f.gens[server].last < t
    ensures OneCall(f, server, [t])
    ensures var g := f.gens[server];
            ReadAll(f, ReadingsOf(server, [t])) ==
            Fleet(f.gens[server := g.(sequence := 0, last := t)], f.issued + [Pack(t, g.worker, 0)])
  {
    var rs := ReadingsOf(server, [t]);
    assert rs == [Reading(server, t)] && rs[1..] == [];
    assert ReadAll(f, rs) == ReadAll(Read(f, rs[0]), []) == Read(f, rs[0]);
  }

  function Waiting(s: State, m: Send): State {
    s.(reqs := s.reqs[m.req := Request(m.server, "", m.conv, m.sender, m.content, Admitted, None, false, None)])
  }

  lemma AdmissionRuns(s: State, m: Send)
    requires CanSend(s, m)
    ensures DoCheck(DoClaim(DoArrive(s, m.req, m.server, "", m.conv, m.sender, m.content), m.req, Works), m.req, false)
         == Waiting(s, m)
  {
    var s1 := DoArrive(s, m.req, m.server, "", m.conv, m.sender, m.content);
    var s2 := DoClaim(s1, m.req, Works);
    assert s2 == Move(s1, m.req, Claimed);
  }

  lemma FirstHalfRuns(s: State, m: Send)
    requires CanSend(s, m)
    ensures RunEvents(s, FirstHalf(m)) == Pending(s, m)
  {
    var es := FirstHalf(m);
    AdmissionRuns(s, m);
    NumberingRuns(s, m);
    FourEvents(s, es[0], es[1], es[2], es[3]);
  }

  lemma NumberingRuns(s: State, m: Send)
    requires CanSend(s, m)
    ensures DoAssign(Waiting(s, m), m.req, [m.t]) == Pending(s, m)
  {
    FreshCall(s.fleet, m.server, m.t);
  }

  lemma FourEvents(s: State, e0: Event, e1: Event, e2: Event, e3: Event)
    ensures RunEvents(s, [e0, e1, e2, e3]) == Apply(Apply(Apply(Apply(s, e0), e1), e2), e3)
  {
    var s1 := Apply(s, e0);
    var s2 := Apply(s1, e1);
    assert [e0, e1, e2, e3][1..] == [e1, e2, e3] && [e1, e2, e3][1..] == [e2, e3];
    assert [e2, e3][1..] == [e3] && [e3][1..] == [];
    assert RunEvents(s1, [e1, e2, e3]) == RunEvents(s2, [e2, e3]);
    assert RunEvents(s2, [e2, e3]) == RunEvents(Apply(s2, e2), [e3]);
  }

  /** The INSERT and the publish of a numbered request. */
  function SecondHalf(m: Send): seq<Event> {
    [Persist(m.req, Works), Broadcast(m.req, Works)]
  }

  lemma SecondHalfRuns(s: State, r: nat)
    requires At(s, r, Numbered) && s.reqs[r].id.Some? && !HasId(s.table, s.reqs[r].id.value)
    ensures var s' := RunEvents(s, [Persist(r, Works), Broadcast(r, Works)]);
            && s'.table == InsertRow(s.table, RowOf(s.reqs[r]))
            && s'.published == s.published + [Publication(Room(s.reqs[r].conv), RowOf(s.reqs[r]))]
            && s'.reqs == s.reqs[r := s.reqs[r].(stage := Replied(202), inserted := true)]
            && s'.fleet == s.fleet && s'.members == s.members
  {
    var es := [Persist(r, Works), Broadcast(r, Works)];
    assert es[1..] == [es[1]] && [es[1]][1..] == [];
    var s1 := Apply(s, es[0]);
    assert RunEvents(s, es) == RunEvents(s1, [es[1]]) == Apply(s1, es[1]);
  }

  /** A server-only stretch of a run. */
  function OnServer(es: seq<Event>): seq<Step> {
    seq(|es|, i requires 0 <= i < |es| => Server(es[i]))
  }

  lemma {:induction false} ServerRun(p: Setup, s: Sys, es: seq<Event>)
    ensures RunSteps(p, s, OnServer(es)) == Sys(RunEvents(s.server, es), s.client)
    decreases |es|
  {
    if es != [] {
      assert OnServer(es)[1..] == OnServer(es[1..]);
      ServerRun(p, Do(p, s, Server(es[0])), es[1..]);
    }
  }

  lemma {:induction false} StepsAppend(p: Setup, s: Sys, a: seq<Step>, b: seq<Step>)
    ensures RunSteps(p, s, a + b) == RunSteps(p, RunSteps(p, s, a), b)
    decreases |a|
  {
    if a == [] {
      assert a + b == b;
    } else {
      assert (a + b)[1..] == a[1..] + b;
      StepsAppend(p, Do(p, s, a[0]), a[1..], b);
    }
  }

  lemma {:induction false} EventsAppend(s: State, a: seq<Event>, b: seq<Event>)
    ensures RunEvents(s, a + b) == RunEvents(RunEvents(s, a), b)
    decreases |a|
  {
    if a == [] {
      assert a + b == b;
    } else {
      assert (a + b)[1..] == a[1..] + b;
      EventsAppend(Apply(s, a[0]), a[1..], b);
    }
  }

  function Fresh(s: State): Sys {
    Sys(s, Client({}, 0, 0, {}, {}))
  }

  /** Two sends on one server, the second with a later clock reading. */
  ghost predicate TwoSends(s: State, a: Send, b: Send) {
    && Initial(s) && CanSend(s, a) && CanSend(s, b)
    && a.req != b.req && a.server == b.server && a.conv == b.conv && 0 < a.t < b.t
  }

  function RowFor(s: State, m: Send): Message
    requires m.server in s.fleet.gens
  {
    Message(IdOf(s, m), m.conv, m.sender, m.content)
  }

  /** A send without failures: the row is stored and published, and the server can send again. */
  lemma WholeSendRuns(s: State, m: Send)
    requires CanSend(s, m) && !HasId(s.table, IdOf(s, m))
    ensures var s' := RunEvents(s, FirstHalf(m) + SecondHalf(m));
            && s'.table == InsertRow(s.table, RowFor(s, m))
            && s'.published == s.published + [Publication(Room(m.conv), RowFor(s, m))]
            && s'.fleet == Pending(s, m).fleet && s'.members == s.members
            && s'.reqs.Keys == s.reqs.Keys + {m.req}
  {
    FirstHalfRuns(s, m);
    EventsAppend(s, FirstHalf(m), SecondHalf(m));
    SecondHalfRuns(Pending(s, m), m.req);
  }

  lemma LaterIsHigher(s: State, a: Send, b: Send)
    requires TwoSends(s, a, b)
    ensures IdOf(s, a) < IdOf(s, b)
  {
    PackOrder(a.t, s.fleet.gens[a.server].worker, 0, b.t, s.fleet.gens[b.server].worker, 0);
  }

  lemma BothSent(s: State, a: Send, b: Send)
    requires TwoSends(s, a, b)
    ensures var s' := RunEvents(s, FirstHalf(a) + SecondHalf(a) + (FirstHalf(b) + SecondHalf(b)));
            && s'.table == [RowFor(s, a), RowFor(s, b)] && RowFor(s, a).id < RowFor(s, b).id
            && s'.published == [Publication(Room(a.conv), RowFor(s, a)), Publication(Room(b.conv), RowFor(s, b))]
  {
    LaterIsHigher(s, a, b);
    WholeSendRuns(s, a);
    var sa := RunEvents(s, FirstHalf(a) + SecondHalf(a));
    assert sa.table == [RowFor(s, a)] && IdOf(sa, b) == IdOf(s, b);
    WholeSendRuns(sa, b);
    EventsAppend(s, FirstHalf(a) + SecondHalf(a), FirstHalf(b) + SecondHalf(b));
    assert [RowFor(s, a)][1..] == [];
  }

  /** The documented cursor: two messages stored and published in order, the first frame dropped, the
      second delivered. The first message is then lost to every sync, although no commit was late. */
  lemma DroppedFrameIsLost(p: Setup, s: State, a: Send, b: Send) returns (steps: seq<Step>)
    requires TwoSends(s, a, b) && p == Setup(a.conv, p.me, HighestHeld) && p.me != b.sender
    ensures Begins(Fresh(s)) && Lost(p, RunSteps(p, Fresh(s), steps), RowFor(s, a))
  {
    var es := FirstHalf(a) + SecondHalf(a) + (FirstHalf(b) + SecondHalf(b));
    BothSent(s, a, b);
    RunFromInitial(s, es);
    ServerRun(p, Fresh(s), es);
    var before := Sys(RunEvents(s, es), Fresh(s).client);
    steps := OnServer(es) + [Live(1)];
    StepsAppend(p, Fresh(s), OnServer(es), [Live(1)]);
    OneStep(p, before, Live(1));
    assert before.server.published[1].msg == RowFor(s, b);
    LiveJumpLoses(p, before, Live(1), RowFor(s, a));
  }

  /** The second message overtakes: it is stored while the first only has its ID. */
  lemma Overtaken(s: State, a: Send, b: Send)
    requires TwoSends(s, a, b)
    ensures var s' := RunEvents(s, FirstHalf(a) + (FirstHalf(b) + SecondHalf(b)));
            && s'.table == [RowFor(s, b)] && RowFor(s, a).id < RowFor(s, b).id
            && At(s', a.req, Numbered) && s'.reqs[a.req].id.Some? && RowOf(s'.reqs[a.req]) == RowFor(s, a)
  {
    LaterIsHigher(s, a, b);
    FirstHalfRuns(s, a);
    var sa := Pending(s, a);
    FirstHalfRuns(sa, b);
    EventsAppend(sa, FirstHalf(b), SecondHalf(b));
    SecondHalfRuns(Pending(sa, b), b.req);
    EventsAppend(s, FirstHalf(a), FirstHalf(b) + SecondHalf(b));
  }

  /** A sync-driven cursor: the first ID is drawn, the second message is stored and synced, and then the
      first is stored. It is lost to every sync from its first moment, although the server's clock
      never ran backwards. */
  lemma LateCommitIsLost(p: Setup, s: State, a: Send, b: Send) returns (steps: seq<Step>)
    requires TwoSends(s, a, b) && p == Setup(a.conv, p.me, SyncOnly)
    ensures Begins(Fresh(s)) && Lost(p, RunSteps(p, Fresh(s), steps), RowFor(s, a))
  {
    var es := FirstHalf(a) + (FirstHalf(b) + SecondHalf(b));
    Overtaken(s, a, b);
    RunFromInitial(s, es);
    ServerRun(p, Fresh(s), es);
    var late := LateRow(p, Sys(RunEvents(s, es), Fresh(s).client), a.req, RowFor(s, b));
    StepsAppend(p, Fresh(s), OnServer(es), late);
    steps := OnServer(es) + late;
  }

  lemma OneRowPage(y: Message)
    requires y.id > 0
    ensures Page([y], y.conv, 0) == [y]
  {
    assert [y][1..] == [];
    assert History([y], y.conv, 0) == [y] + History([], y.conv, 0);
  }

  /** One row stored and synced, another with a lower ID about to be stored. */
  lemma LateRow(p: Setup, s: Sys, r: nat, y: Message) returns (late: seq<Step>)
    requires ClientInv(p, s) && s.client == Client({}, 0, 0, {}, {}) && s.server.table == [y] && y.conv == p.conv
    requires At(s.server, r, Numbered) && s.server.reqs[r].id.Some? && s.server.reqs[r].conv == p.conv
    requires s.server.reqs[r].id.value < y.id
    ensures Lost(p, RunSteps(p, s, late), RowOf(s.server.reqs[r]))
  {
    var e := Persist(r, Works);
    var answer := Response(0, [y]);
    OneRowPage(y);
    var serve, forget := Serve(0), Expire(0);
    var s1 := Do(p, s, Ask);
    var s2 := Do(p, s1, serve);
    var s3 := Do(p, s2, forget);
    var s4 := Do(p, s3, Answer(answer));
    ClientKept(p, s, Ask);
    ClientKept(p, s1, serve);
    ClientKept(p, s2, forget);
    ClientKept(p, s3, Answer(answer));
    assert s4.client.asked == {} && s4.client.cursor == y.id && s4.server == s.server;
    LateCommitLoses(p, s4, e);
    late := [Ask, serve] + ([forget, Answer(answer)] + [Server(e)]);
    TwoSteps(p, s, Ask, serve, [forget, Answer(answer)] + [Server(e)]);
    TwoSteps(p, s2, forget, Answer(answer), [Server(e)]);
    OneStep(p, s4, Server(e));
  }
}
