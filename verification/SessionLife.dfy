/** A session from the event that starts it to the event that ends it (client.go, ws_handler.go): what it
    consists of once started, that nothing but a failure or a shutdown ends it, and that each failure does. */
module SessionLife {
  import opened HubRegistry
  import opened Sessions

  // ----------------------------------------------------------------------- start

  /** No step changes whose session it is and how many channels it has. */
  lemma IdentityStep(w: Worker, e: Event, sid: nat)
    requires sid in w.sessions
    ensures sid in Apply(w, e).sessions
    ensures var s, s' := w.sessions[sid], Apply(w, e).sessions[sid]; s'.user == s.user && s'.rooms == s.rooms
  {
    if OfSession(w, e) && e.sid == sid { OwnIdentity(w, e); } else { ElsewhereSteps(w, e, sid); }
  }

  lemma OwnIdentity(w: Worker, e: Event)
    requires OfSession(w, e)
    ensures e.sid in ApplyTo(w, e).sessions
    ensures var s, s' := w.sessions[e.sid], ApplyTo(w, e).sessions[e.sid]; s'.user == s.user && s'.rooms == s.rooms
  {
    if e.ServeStep? { ServeIdentity(w, e.sid); }
  }

  lemma ServeIdentity(w: Worker, sid: nat)
    requires sid in w.sessions
    ensures sid in DoServe(w, sid).sessions
    ensures var s, s' := w.sessions[sid], DoServe(w, sid).sessions[sid]; s'.user == s.user && s'.rooms == s.rooms
  {
  }

  lemma {:induction false} IdentityRun(w: Worker, es: seq<Event>, sid: nat)
    requires sid in w.sessions
    ensures sid in RunEvents(w, es).sessions
    ensures var s, s' := w.sessions[sid], RunEvents(w, es).sessions[sid]; s'.user == s.user && s'.rooms == s.rooms
    decreases |es|
  {
    if es != [] {
      IdentityStep(w, es[0], sid);
      IdentityRun(Apply(w, es[0]), es[1..], sid);
    }
  }

  /** From connecting to running: N + 4 turns of ServeWS after a connection with N channels, among any other
      steps, the session belongs to that user, has registered, and both pumps and exactly N listeners have
      been spawned. */
  lemma ConnectStartsAll(w: Worker, es: seq<Event>, sid: nat, user: string, rooms: nat)
    requires HubInv(w) && sid !in w.sessions && ServeTurns(es, sid) >= rooms + 4
    ensures var w' := RunEvents(Apply(w, Connect(sid, user, rooms)), es);
            && sid in w'.sessions && Reg(user, sid) in w'.ops
            && var s := w'.sessions[sid];
               && s.serve.Served? && s.user == user && |s.listeners| == rooms
               && !s.reader.ReaderUnborn? && !s.writer.WriterUnborn?
  {
    var w1 := Apply(w, Connect(sid, user, rooms));
    HubKept(w, Connect(sid, user, rooms));
    StartFinishes(w1, es, sid);
    IdentityRun(w1, es, sid);
    RunKeeps(w1, es);
    assert SessionOk(RunEvents(w1, es), sid);
  }

  /** A session whose channels could not be loaded. */
  predicate NeverStarted(s: Session) {
    s.serve.Aborted? && s.reader.ReaderUnborn? && s.writer.WriterUnborn? && s.listeners == [] && s.closed && s.cancelled
  }

  lemma NeverStartedStep(w: Worker, e: Event, sid: nat)
    requires sid in w.sessions && NeverStarted(w.sessions[sid])
    ensures sid in Apply(w, e).sessions && NeverStarted(Apply(w, e).sessions[sid])
  {
    if !(OfSession(w, e) && e.sid == sid) { ElsewhereSteps(w, e, sid); }
  }

  /** A failed channel lookup closes the connection, spawns nothing and registers nothing, then and ever. */
  lemma LoadFailureIsFinal(w: Worker, es: seq<Event>, sid: nat, user: string)
    requires HubInv(w) && sid !in w.sessions
    ensures var w' := RunEvents(Apply(w, LoadFails(sid, user)), es);
            && sid in w'.sessions && NeverStarted(w'.sessions[sid]) && forall u :: u in w'.hub ==> w'.hub[u] != sid
  {
    var w1 := Apply(w, LoadFails(sid, user));
    HubKept(w, LoadFails(sid, user));
    NeverStartedRun(w1, es, sid);
    RunKeeps(w1, es);
    forall u | u in RunEvents(w1, es).hub ensures RunEvents(w1, es).hub[u] != sid {
      assert EntryOk(RunEvents(w1, es), u);
    }
  }

  lemma {:induction false} NeverStartedRun(w: Worker, es: seq<Event>, sid: nat)
    requires sid in w.sessions && NeverStarted(w.sessions[sid])
    ensures sid in RunEvents(w, es).sessions && NeverStarted(RunEvents(w, es).sessions[sid])
    decreases |es|
  {
    if es != [] {
      NeverStartedStep(w, es[0], sid);
      NeverStartedRun(Apply(w, es[0]), es[1..], sid);
    }
  }

  // --------------------------------------------------------------------- running

  /** Nothing of the session has failed or begun to end. */
  predicate Healthy(s: Session) {
    && (s.reader.ReaderUnborn? || s.reader.Reading?) && (s.writer.WriterUnborn? || s.writer.Writing?)
    && (forall i :: 0 <= i < |s.listeners| ==> s.listeners[i]) && !s.cancelled && !s.closed
  }

  /** What can end a session from outside its own goroutines. */
  predicate Harms(e: Event, sid: nat) {
    e == ReadError(sid) || e == WriteError(sid) || (e.SubscriptionEnds? && e.sid == sid) || e.ShutdownHub?
  }

  lemma HealthyStep(w: Worker, e: Event, sid: nat)
    requires sid in w.sessions && Healthy(w.sessions[sid]) && !Harms(e, sid)
    ensures sid in Apply(w, e).sessions && Healthy(Apply(w, e).sessions[sid])
  {
    if OfSession(w, e) && e.sid == sid {
      if e.ServeStep? { HealthyServe(w, sid); }
    } else {
      HealthyElsewhere(w, e, sid);
    }
  }

  lemma HealthyServe(w: Worker, sid: nat)
    requires sid in w.sessions && Healthy(w.sessions[sid])
    ensures sid in DoServe(w, sid).sessions && Healthy(DoServe(w, sid).sessions[sid])
  {
  }

  lemma HealthyElsewhere(w: Worker, e: Event, sid: nat)
    requires sid in w.sessions && !e.ShutdownHub? && !(OfSession(w, e) && e.sid == sid)
    ensures sid in Apply(w, e).sessions && Apply(w, e).sessions[sid] == w.sessions[sid]
  {
  }

  /** Nothing else ends a session: without a read or write error, an ended subscription or a shutdown, no
      goroutine of it ends, however often it is scheduled and whatever other sessions do, those of the
      same user included; its connection stays open, and the hub still has it unless a newer session of
      the user has registered. */
  lemma {:induction false} HealthyStays(w: Worker, es: seq<Event>, sid: nat)
    requires HubInv(w) && sid in w.sessions && Healthy(w.sessions[sid])
    requires forall k :: 0 <= k < |es| ==> !Harms(es[k], sid)
    ensures var w' := RunEvents(w, es);
            && sid in w'.sessions && Healthy(w'.sessions[sid])
            && var s := w'.sessions[sid];
               (HasRegistered(s) ==> (s.user in w'.hub && w'.hub[s.user] == sid) || Superseded(w'.ops, s.user, sid))
    decreases |es|
  {
    if es == [] {
      assert SessionOk(w, sid);
    } else {
      HealthyStep(w, es[0], sid);
      HubKept(w, es[0]);
      HealthyStays(Apply(w, es[0]), es[1..], sid);
    }
  }

  // --------------------------------------------------------------------- failing

  lemma FailureStep(w: Worker, e: Event, sid: nat)
    requires sid in w.sessions && w.sessions[sid].serve.Served? && SessionOk(w, sid)
    requires e == ReadError(sid) || e == WriteError(sid)
    ensures sid in Apply(w, e).sessions && Ending(Apply(w, e).sessions[sid])
  {
  }

  lemma {:induction false} FailureBegins(w: Worker, es: seq<Event>, sid: nat)
    requires HubInv(w) && sid in w.sessions && w.sessions[sid].serve.Served?
    requires ReadError(sid) in es || WriteError(sid) in es
    ensures sid in RunEvents(w, es).sessions && Ending(RunEvents(w, es).sessions[sid])
    decreases |es|
  {
    var w1 := Apply(w, es[0]);
    NoRevival(w, es[0], sid);
    RunWinds(w1, es[1..], sid);
    assert SessionOk(w, sid);
    if es[0] == ReadError(sid) || es[0] == WriteError(sid) {
      FailureStep(w, es[0], sid);
    } else {
      HubKept(w, es[0]);
      FailureBegins(w1, es[1..], sid);
    }
  }

  /** Each failure ends the session: after any run in which a read fails (the peer is gone, the deadline has
      passed) or a write or a Ping fails, seven fair rounds leave no goroutine, the context cancelled,
      the connection closed and the hub without the session. */
  lemma FailureEndsSession(w: Worker, es: seq<Event>, rounds: seq<seq<Event>>, sid: nat)
    requires HubInv(w) && sid in w.sessions && w.sessions[sid].serve.Served?
    requires ReadError(sid) in es || WriteError(sid) in es
    requires |rounds| == 7 && forall k :: 0 <= k < 7 ==> Fair(rounds[k], sid, w.sessions[sid].rooms)
    ensures AllGone(RunRounds(RunEvents(w, es), rounds), sid)
  {
    FailureBegins(w, es, sid);
    RunKeeps(w, es);
    RunWinds(w, es, sid);
    AnyFailureEndsSession(RunEvents(w, es), rounds, sid);
  }

  /** A subscription that Redis ends takes its own listener with it, for good. */
  lemma {:induction false} SubscriptionEndsListener(w: Worker, es: seq<Event>, sid: nat, i: nat)
    requires sid in w.sessions && w.sessions[sid].serve.Served? && i < |w.sessions[sid].listeners|
    requires SubscriptionEnds(sid, i) in es
    ensures sid in RunEvents(w, es).sessions
    ensures i < |RunEvents(w, es).sessions[sid].listeners| && !RunEvents(w, es).sessions[sid].listeners[i]
    decreases |es|
  {
    var w1 := Apply(w, es[0]);
    NoRevival(w, es[0], sid);
    RunWinds(w1, es[1..], sid);
    if es[0] == SubscriptionEnds(sid, i) {
      assert !w1.sessions[sid].listeners[i];
    } else {
      SubscriptionEndsListener(w1, es[1..], sid, i);
    }
  }
}
