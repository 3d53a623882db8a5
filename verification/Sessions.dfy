/** The WebSocket sessions of one worker (client.go, ws_handler.go) and its hub: start order, teardown
    and shutdown, one goroutine step at a time. */
module Sessions {
  import opened HubRegistry

  /** The next statement of ServeWS. */
  datatype Serve = AtRegister | AtReader | AtWriter | AtListeners | Served | Aborted

  /** readPump: reading, or at a step of its deferred function: cancel, Unregister, Close. */
  datatype Reader = ReaderUnborn | Reading | ReadFailed | ReaderCancelled | Unregistered | ReaderGone

  /** writePump: writing, or at a step of its deferred function: cancel, Close. */
  datatype Writer = WriterUnborn | Writing | WriteFailed | WriterCancelled | WriterGone

  /** `listeners[i]` says whether the listener of the i-th channel, once spawned, is still running. */
  datatype Session = Session(
    user: string, rooms: nat, serve: Serve, reader: Reader, writer: Writer, listeners: seq<bool>,
    cancelled: bool, closed: bool)

  datatype Goroutine = ReadPump | WritePump | Listener(i: nat)

  datatype Event =
    | Connect(sid: nat, user: string, rooms: nat)  // upgraded, channels loaded
    | LoadFails(sid: nat, user: string)            // upgraded, channel lookup failed
    | ServeStep(sid: nat)                          // ServeWS runs its next statement
    | ReadError(sid: nat)                          // peer gone, deadline passed
    | WriteError(sid: nat)                         // a write or a Ping fails
    | SubscriptionEnds(sid: nat, i: nat)           // Redis closes a subscription
    | Turn(sid: nat, g: Goroutine)                 // a goroutine is scheduled
    | ShutdownHub

  datatype Worker = Worker(hub: map<string, nat>, sessions: map<nat, Session>, ops: seq<HubOp<nat>>)

  function Put(w: Worker, sid: nat, s: Session): Worker {
    w.(sessions := w.sessions[sid := s])
  }

  function Call(w: Worker, op: HubOp<nat>): Worker {
    w.(hub := Step(w.hub, op), ops := w.ops + [op])
  }

  /** ServeWS: register, then spawn readPump, writePump and one listener per channel. */
  function DoServe(w: Worker, sid: nat): Worker
    requires sid in w.sessions
  {
    var s := w.sessions[sid];
    match s.serve
    case AtRegister => Put(Call(w, Reg(s.user, sid)), sid, s.(serve := AtReader))
    case AtReader => Put(w, sid, s.(serve := AtWriter, reader := Reading))
    case AtWriter => Put(w, sid, s.(serve := AtListeners, writer := Writing))
    case AtListeners =>
      if |s.listeners| < s.rooms then Put(w, sid, s.(listeners := s.listeners + [true]))
      else Put(w, sid, s.(serve := Served))
    case _ => w
  }

  /** A turn of readPump: a blocked read returns once the connection is closed. */
  function ReaderTurn(w: Worker, sid: nat): Worker
    requires sid in w.sessions
  {
    var s := w.sessions[sid];
    match s.reader
    case Reading => if s.closed then Put(w, sid, s.(reader := ReadFailed)) else w
    case ReadFailed => Put(w, sid, s.(reader := ReaderCancelled, cancelled := true))
    case ReaderCancelled => Put(Call(w, Unreg(s.user, sid)), sid, s.(reader := Unregistered))
    case Unregistered => Put(w, sid, s.(reader := ReaderGone, closed := true))
    case _ => w
  }

  /** A turn of writePump: its next write or Ping fails once the connection is closed. */
  function WriterTurn(w: Worker, sid: nat): Worker
    requires sid in w.sessions
  {
    var s := w.sessions[sid];
    match s.writer
    case Writing => if s.closed then Put(w, sid, s.(writer := WriteFailed)) else w
    case WriteFailed => Put(w, sid, s.(writer := WriterCancelled, cancelled := true))
    case WriterCancelled => Put(w, sid, s.(writer := WriterGone, closed := true))
    case _ => w
  }

  function ListenerTurn(w: Worker, sid: nat, i: nat): Worker
    requires sid in w.sessions
  {
    var s := w.sessions[sid];
    if i < |s.listeners| && s.cancelled then Put(w, sid, s.(listeners := s.listeners[i := false])) else w
  }

  /** Shutdown closes the connection of every registered session and empties the map. */
  function DoShutdown(w: Worker): Worker {
    Call(w, Shut).(sessions := map sid | sid in w.sessions ::
      if w.sessions[sid].user in w.hub && w.hub[w.sessions[sid].user] == sid then w.sessions[sid].(closed := true)
      else w.sessions[sid])
  }

  function Apply(w: Worker, e: Event): Worker {
    match e
    case Connect(sid, user, rooms) =>
      if sid in w.sessions then w
      else Put(w, sid, Session(user, rooms, AtRegister, ReaderUnborn, WriterUnborn, [], false, false))
    case LoadFails(sid, user) =>
      if sid in w.sessions then w
      else Put(w, sid, Session(user, 0, Aborted, ReaderUnborn, WriterUnborn, [], true, true))
    case ShutdownHub => DoShutdown(w)
    case _ => if e.sid !in w.sessions then w else ApplyTo(w, e)
  }

  function ApplyTo(w: Worker, e: Event): Worker
    requires !e.Connect? && !e.LoadFails? && !e.ShutdownHub? && e.sid in w.sessions
  {
    var s := w.sessions[e.sid];
    match e
    case ServeStep(sid) => DoServe(w, sid)
    case ReadError(sid) => if s.reader.Reading? then Put(w, sid, s.(reader := ReadFailed)) else w
    case WriteError(sid) => if s.writer.Writing? then Put(w, sid, s.(writer := WriteFailed)) else w
    case SubscriptionEnds(sid, i) => if i < |s.listeners| then Put(w, sid, s.(listeners := s.listeners[i := false])) else w
    case Turn(sid, g) =>
      match g
      case ReadPump => ReaderTurn(w, sid)
      case WritePump => WriterTurn(w, sid)
      case Listener(i) => ListenerTurn(w, sid, i)
  }

  function RunEvents(w: Worker, es: seq<Event>): Worker
    decreases |es|
  {
    if es == [] then w else RunEvents(Apply(w, es[0]), es[1..])
  }

  const EMPTY: Worker := Worker(map[], map[], [])

  // ---------------------------------------------------------- the hub and its sessions

  predicate HasRegistered(s: Session) {
    !s.serve.AtRegister? && !s.serve.Aborted?
  }

  predicate HasUnregistered(s: Session) {
    s.reader.Unregistered? || s.reader.ReaderGone?
  }

  /** Another session of the same user registered after this one. */
  ghost predicate Superseded(ops: seq<HubOp<nat>>, user: string, sid: nat) {
    exists i, j :: 0 <= i < j < |ops| && ops[i] == Reg(user, sid) && ops[j].Reg? && ops[j].user == user && ops[j].client != sid
  }

  ghost predicate SessionOk(w: Worker, sid: nat)
    requires sid in w.sessions
  {
    var s := w.sessions[sid];
    && (!s.reader.ReaderUnborn? ==> s.serve.AtWriter? || s.serve.AtListeners? || s.serve.Served?)
    && (s.serve.AtWriter? || s.serve.AtListeners? || s.serve.Served? ==> !s.reader.ReaderUnborn?)
    && (s.serve.Served? ==> |s.listeners| == s.rooms)
    && (if s.serve.AtListeners? || s.serve.Served? then !s.writer.WriterUnborn? && |s.listeners| <= s.rooms
        else s.writer.WriterUnborn? && s.listeners == [])
    && (s.reader.ReaderCancelled? || HasUnregistered(s) || s.writer.WriterCancelled? || s.writer.WriterGone? ==> s.cancelled)
    && (s.reader.ReaderGone? || s.writer.WriterGone? ==> s.closed)
    && (s.serve.Aborted? ==> s.closed)
    && (HasRegistered(s) <==> Reg(s.user, sid) in w.ops)
    && (HasRegistered(s) && !HasUnregistered(s) && !s.closed ==>
          (s.user in w.hub && w.hub[s.user] == sid) || Superseded(w.ops, s.user, sid))
  }

  ghost predicate EntryOk(w: Worker, u: string)
    requires u in w.hub
  {
    && w.hub[u] in w.sessions
    && var s := w.sessions[w.hub[u]];
       s.user == u && HasRegistered(s) && !HasUnregistered(s)
  }

  ghost predicate EntriesOk(w: Worker) {
    forall u :: u in w.hub ==> EntryOk(w, u)
  }

  ghost predicate HubInv(w: Worker) {
    && w.hub == Replay(w.ops)
    && EntriesOk(w)
    && (forall sid :: sid in w.sessions ==> SessionOk(w, sid))
    && (forall op :: op in w.ops && op.Reg? ==> op.client in w.sessions)
  }

  lemma SupersededStays(ops: seq<HubOp<nat>>, op: HubOp<nat>, user: string, sid: nat)
    requires Superseded(ops, user, sid)
    ensures Superseded(ops + [op], user, sid)
  {
    var i, j :| 0 <= i < j < |ops| && ops[i] == Reg(user, sid) && ops[j].Reg? && ops[j].user == user && ops[j].client != sid;
    var ops' := ops + [op];
    assert ops'[i] == Reg(user, sid) && ops'[j] == ops[j];
  }

  lemma NewerSupersedes(ops: seq<HubOp<nat>>, user: string, sid: nat, newer: nat)
    requires Reg(user, sid) in ops && newer != sid
    ensures Superseded(ops + [Reg(user, newer)], user, sid)
  {
    var i :| 0 <= i < |ops| && ops[i] == Reg(user, sid);
    var ops' := ops + [Reg(user, newer)];
    assert ops'[i] == Reg(user, sid) && ops'[|ops|] == Reg(user, newer);
  }

  lemma CallReplays(w: Worker, op: HubOp<nat>)
    requires w.hub == Replay(w.ops)
    ensures Call(w, op).hub == Replay(Call(w, op).ops)
  {
    assert (w.ops + [op])[..|w.ops|] == w.ops;
  }

  /** A step of one session that makes no hub call. */
  lemma QuietKeeps(w: Worker, sid: nat, s: Session)
    requires HubInv(w)
    requires sid in w.sessions ==>
               && s.user == w.sessions[sid].user
               && HasRegistered(s) == HasRegistered(w.sessions[sid])
               && HasUnregistered(s) == HasUnregistered(w.sessions[sid])
    requires SessionOk(Put(w, sid, s), sid)
    ensures HubInv(Put(w, sid, s))
  {
    var w' := Put(w, sid, s);
    forall u | u in w'.hub ensures EntryOk(w', u) { assert EntryOk(w, u); }
    forall k | k in w'.sessions ensures SessionOk(w', k) {
      if k != sid { assert SessionOk(w, k); }
    }
  }

  /** A step of one session together with its hub call. */
  lemma CallKeeps(w: Worker, op: HubOp<nat>, sid: nat, s: Session)
    requires HubInv(w) && sid in w.sessions && !op.Shut? && op.client == sid
    requires SessionOk(Put(Call(w, op), sid, s), sid) && EntriesOk(Put(Call(w, op), sid, s))
    ensures HubInv(Put(Call(w, op), sid, s))
  {
    var c := Call(w, op);
    CallReplays(w, op);
    forall k | k in w.sessions && k != sid ensures SessionOk(Put(c, sid, s), k) {
      OtherSession(w, op, k);
      PutElsewhere(c, sid, s, k);
    }
  }

  lemma PutElsewhere(w: Worker, sid: nat, s: Session, k: nat)
    requires k in w.sessions && k != sid && SessionOk(w, k)
    ensures SessionOk(Put(w, sid, s), k)
  {
  }

  lemma RegisterKeeps(w: Worker, sid: nat)
    requires HubInv(w) && sid in w.sessions && w.sessions[sid].serve.AtRegister?
    ensures HubInv(DoServe(w, sid))
  {
    var s := w.sessions[sid];
    RegisterSession(w, sid);
    RegisterEntries(w, sid);
    CallKeeps(w, Reg(s.user, sid), sid, s.(serve := AtReader));
  }

  lemma RegisterSession(w: Worker, sid: nat)
    requires sid in w.sessions && SessionOk(w, sid) && w.sessions[sid].serve.AtRegister?
    ensures SessionOk(DoServe(w, sid), sid)
  {
    var w', s := DoServe(w, sid), w.sessions[sid];
    assert w'.ops[|w.ops|] == Reg(s.user, sid);
  }

  lemma RegisterEntries(w: Worker, sid: nat)
    requires EntriesOk(w) && sid in w.sessions && SessionOk(w, sid) && w.sessions[sid].serve.AtRegister?
    ensures EntriesOk(DoServe(w, sid))
  {
    var w', s := DoServe(w, sid), w.sessions[sid];
    forall u | u in w'.hub ensures EntryOk(w', u) {
      if u != s.user { assert EntryOk(w, u); }
    }
  }

  /** A hub call by another session leaves a session tracked or superseded. */
  lemma OtherSession(w: Worker, op: HubOp<nat>, k: nat)
    requires HubInv(w) && k in w.sessions && !op.Shut? && op.client != k
    ensures var w' := Call(w, op);
            && SessionOk(w', k)
  {
    var s := w.sessions[k];
    assert SessionOk(w, k);
    if Superseded(w.ops, s.user, k) { SupersededStays(w.ops, op, s.user, k); }
    if op.Reg? && op.user == s.user && Reg(s.user, k) in w.ops { NewerSupersedes(w.ops, s.user, k, op.client); }
    assert Reg(s.user, k) in w.ops + [op] <==> Reg(s.user, k) in w.ops;
  }

  lemma UnregisterKeeps(w: Worker, sid: nat)
    requires HubInv(w) && sid in w.sessions && w.sessions[sid].reader.ReaderCancelled?
    ensures HubInv(ReaderTurn(w, sid))
  {
    var s := w.sessions[sid];
    UnregisterSession(w, sid);
    UnregisterEntries(w, sid);
    CallKeeps(w, Unreg(s.user, sid), sid, s.(reader := Unregistered));
  }

  lemma UnregisterSession(w: Worker, sid: nat)
    requires sid in w.sessions && SessionOk(w, sid) && w.sessions[sid].reader.ReaderCancelled?
    ensures SessionOk(ReaderTurn(w, sid), sid)
  {
    var s := w.sessions[sid];
    assert Reg(s.user, sid) in w.ops + [Unreg(s.user, sid)] <==> Reg(s.user, sid) in w.ops;
  }

  lemma UnregisterEntries(w: Worker, sid: nat)
    requires EntriesOk(w) && sid in w.sessions && w.sessions[sid].reader.ReaderCancelled?
    ensures EntriesOk(ReaderTurn(w, sid))
  {
    var w' := ReaderTurn(w, sid);
    forall u | u in w'.hub ensures EntryOk(w', u) { assert EntryOk(w, u); }
  }

  lemma ShutdownKeeps(w: Worker)
    requires HubInv(w)
    ensures HubInv(DoShutdown(w))
  {
    var w' := DoShutdown(w);
    CallReplays(w, Shut);
    forall k | k in w'.sessions ensures SessionOk(w', k) {
      assert SessionOk(w, k);
      var s := w.sessions[k];
      if Superseded(w.ops, s.user, k) { SupersededStays(w.ops, Shut, s.user, k); }
    }
  }

  lemma HubKept(w: Worker, e: Event)
    requires HubInv(w)
    ensures HubInv(Apply(w, e))
  {
    match e
    case ShutdownHub => ShutdownKeeps(w);
    case Connect(sid, user, rooms) =>
      if sid !in w.sessions { QuietKeeps(w, sid, Apply(w, e).sessions[sid]); }
    case LoadFails(sid, user) =>
      if sid !in w.sessions { QuietKeeps(w, sid, Apply(w, e).sessions[sid]); }
    case _ =>
      if e.sid in w.sessions { SessionStepKeeps(w, e); }
  }

  predicate OfSession(w: Worker, e: Event) {
    !e.Connect? && !e.LoadFails? && !e.ShutdownHub? && e.sid in w.sessions
  }

  lemma SessionStepKeeps(w: Worker, e: Event)
    requires HubInv(w) && OfSession(w, e)
    ensures HubInv(Apply(w, e))
  {
    assert SessionOk(w, e.sid);
    if e.ServeStep? && w.sessions[e.sid].serve.AtRegister? {
      RegisterKeeps(w, e.sid);
    } else if e.Turn? && e.g.ReadPump? && w.sessions[e.sid].reader.ReaderCancelled? {
      UnregisterKeeps(w, e.sid);
    } else {
      QuietStep(w, e);
      QuietKeeps(w, e.sid, Apply(w, e).sessions[e.sid]);
    }
  }

  lemma QuietStep(w: Worker, e: Event)
    requires OfSession(w, e) && SessionOk(w, e.sid)
    requires !(e.ServeStep? && w.sessions[e.sid].serve.AtRegister?)
    requires !(e.Turn? && e.g.ReadPump? && w.sessions[e.sid].reader.ReaderCancelled?)
    ensures Quiet(w, Apply(w, e), e.sid)
  {
    assert w == Put(w, e.sid, w.sessions[e.sid]);
    if e.ServeStep? { QuietServe(w, e.sid); } else if e.Turn? { QuietTurn(w, e.sid, e.g); }
  }

  ghost predicate Quiet(w: Worker, w': Worker, sid: nat)
    requires sid in w.sessions
  {
    && sid in w'.sessions && w' == Put(w, sid, w'.sessions[sid]) && SessionOk(w', sid)
    && w'.sessions[sid].user == w.sessions[sid].user
    && HasRegistered(w'.sessions[sid]) == HasRegistered(w.sessions[sid])
    && HasUnregistered(w'.sessions[sid]) == HasUnregistered(w.sessions[sid])
  }

  lemma QuietServe(w: Worker, sid: nat)
    requires sid in w.sessions && SessionOk(w, sid) && !w.sessions[sid].serve.AtRegister?
    ensures Quiet(w, DoServe(w, sid), sid)
  {
    assert w == Put(w, sid, w.sessions[sid]);
  }

  lemma QuietTurn(w: Worker, sid: nat, g: Goroutine)
    requires sid in w.sessions && SessionOk(w, sid) && !(g.ReadPump? && w.sessions[sid].reader.ReaderCancelled?)
    ensures Quiet(w, ApplyTo(w, Turn(sid, g)), sid)
  {
    match g
    case ReadPump => QuietReader(w, sid);
    case WritePump => QuietWriter(w, sid);
    case Listener(i) => QuietListener(w, sid, i);
  }

  lemma QuietReader(w: Worker, sid: nat)
    requires sid in w.sessions && SessionOk(w, sid) && !w.sessions[sid].reader.ReaderCancelled?
    ensures Quiet(w, ReaderTurn(w, sid), sid)
  {
    assert w == Put(w, sid, w.sessions[sid]);
  }

  lemma QuietWriter(w: Worker, sid: nat)
    requires sid in w.sessions && SessionOk(w, sid)
    ensures Quiet(w, WriterTurn(w, sid), sid)
  {
    assert w == Put(w, sid, w.sessions[sid]);
  }

  lemma QuietListener(w: Worker, sid: nat, i: nat)
    requires sid in w.sessions && SessionOk(w, sid)
    ensures Quiet(w, ListenerTurn(w, sid, i), sid)
  {
    assert w == Put(w, sid, w.sessions[sid]);
  }

  lemma {:induction false} RunKeeps(w: Worker, es: seq<Event>)
    requires HubInv(w)
    ensures HubInv(RunEvents(w, es))
    decreases |es|
  {
    if es != [] {
      HubKept(w, es[0]);
      RunKeeps(Apply(w, es[0]), es[1..]);
    }
  }

  /** In every reachable state the hub holds, for each user, exactly the current registration of its
      history, and that session has registered and not yet unregistered. */
  lemma HubTracksSessions(es: seq<Event>, u: string, sid: nat)
    ensures var w := RunEvents(EMPTY, es);
            && (u in w.hub && w.hub[u] == sid <==> IsCurrent(w.ops, u, sid))
            && (u in w.hub && w.hub[u] == sid ==>
                  sid in w.sessions && w.sessions[sid].user == u
                  && HasRegistered(w.sessions[sid]) && !HasUnregistered(w.sessions[sid]))
  {
    RunKeeps(EMPTY, es);
    var w := RunEvents(EMPTY, es);
    ReplayIffCurrent(w.ops, u, sid);
    if u in w.hub { assert EntryOk(w, u); }
  }

  // ------------------------------------------------------------------- shutdown

  /** After Shutdown the map is empty, and a session is still open only if it had not yet registered, was
      superseded by a later registration of its user, or has already unregistered itself. */
  lemma ShutdownLeaves(es: seq<Event>, sid: nat)
    requires sid in RunEvents(EMPTY, es).sessions
    ensures var w := RunEvents(EMPTY, es);
            var w' := Apply(w, ShutdownHub);
            && w'.hub == map[] && sid in w'.sessions
            && var s := w'.sessions[sid];
               (!s.closed ==> s.serve.AtRegister? || Superseded(w.ops, s.user, sid) || HasUnregistered(s))
  {
    RunKeeps(EMPTY, es);
    OpenAfterShutdown(RunEvents(EMPTY, es), sid);
  }

  lemma OpenAfterShutdown(w: Worker, sid: nat)
    requires HubInv(w) && sid in w.sessions
    ensures var w' := DoShutdown(w);
            && w'.hub == map[] && sid in w'.sessions
            && var s := w'.sessions[sid];
               (!s.closed ==> s.serve.AtRegister? || Superseded(w.ops, s.user, sid) || HasUnregistered(s))
  {
    assert SessionOk(w, sid);
  }

  /** Shutdown closes exactly the connections whose session is its user's current registration. */
  lemma ShutdownClosesIff(es: seq<Event>, sid: nat)
    requires var w := RunEvents(EMPTY, es); sid in w.sessions && !w.sessions[sid].closed
    ensures var w := RunEvents(EMPTY, es);
            var w' := Apply(w, ShutdownHub);
            sid in w'.sessions && (w'.sessions[sid].closed <==> IsCurrent(w.ops, w.sessions[sid].user, sid))
  {
    var w := RunEvents(EMPTY, es);
    HubTracksSessions(es, w.sessions[sid].user, sid);
  }

  /** A reconnection hides the older session from Shutdown: after any run, when a second session of a user
      registers and the hub then shuts down, an open older one stays open. */
  lemma SupersededSurvives(es: seq<Event>, older: nat, newer: nat)
    requires var w := RunEvents(EMPTY, es);
             && older in w.sessions && newer in w.sessions && older != newer
             && w.sessions[older].user == w.sessions[newer].user && !w.sessions[older].closed
             && w.sessions[newer].serve.AtRegister?
    ensures var w' := RunEvents(EMPTY, es + [ServeStep(newer), ShutdownHub]);
            && w'.hub == map[] && older in w'.sessions && !w'.sessions[older].closed
            && newer in w'.sessions && w'.sessions[newer].closed
  {
    RunTwoMore(EMPTY, es, ServeStep(newer), ShutdownHub);
    NewerHidesOlder(RunEvents(EMPTY, es), older, newer);
  }

  lemma {:induction false} RunTwoMore(w: Worker, es: seq<Event>, a: Event, b: Event)
    ensures RunEvents(w, es + [a, b]) == Apply(Apply(RunEvents(w, es), a), b)
    decreases |es|
  {
    if es == [] {
      assert es + [a, b] == [a, b] && [a, b][1..] == [b] && [b][1..] == [];
      assert RunEvents(Apply(w, a), [b]) == RunEvents(Apply(Apply(w, a), b), []);
    } else {
      assert (es + [a, b])[1..] == es[1..] + [a, b];
      RunTwoMore(Apply(w, es[0]), es[1..], a, b);
    }
  }

  lemma NewerHidesOlder(w: Worker, older: nat, newer: nat)
    requires older in w.sessions && newer in w.sessions && older != newer
    requires w.sessions[older].user == w.sessions[newer].user && !w.sessions[older].closed
    requires w.sessions[newer].serve.AtRegister?
    ensures var w' := Apply(Apply(w, ServeStep(newer)), ShutdownHub);
            && w'.hub == map[] && older in w'.sessions && !w'.sessions[older].closed
            && newer in w'.sessions && w'.sessions[newer].closed
  {
    var w1 := Apply(w, ServeStep(newer));
    assert w1.hub[w.sessions[older].user] == newer;
  }

  // ------------------------------------------------------------------- teardown

  /** Steps readPump still has to take once its connection is closed. */
  function ReaderLeft(r: Reader): nat {
    match r
    case ReaderUnborn => 5
    case Reading => 4
    case ReadFailed => 3
    case ReaderCancelled => 2
    case Unregistered => 1
    case ReaderGone => 0
  }

  function WriterLeft(r: Writer): nat {
    match r
    case WriterUnborn => 4
    case Writing => 3
    case WriteFailed => 2
    case WriterCancelled => 1
    case WriterGone => 0
  }

  /** From one state of a session to a later one, after ServeWS has returned: nothing is spawned or
      revived, and closing and cancelling are final. */
  ghost predicate Winds(s: Session, s': Session) {
    && s'.serve.Served? && s'.user == s.user && s'.rooms == s.rooms
    && ReaderLeft(s'.reader) <= ReaderLeft(s.reader) && WriterLeft(s'.writer) <= WriterLeft(s.writer)
    && |s'.listeners| == |s.listeners|
    && (forall i :: 0 <= i < |s.listeners| && !s.listeners[i] ==> !s'.listeners[i])
    && (s.cancelled ==> s'.cancelled) && (s.closed ==> s'.closed)
  }

  /** Once ServeWS has returned, no step of anything spawns or revives a goroutine of the session. */
  lemma NoRevival(w: Worker, e: Event, sid: nat)
    requires sid in w.sessions && w.sessions[sid].serve.Served?
    ensures sid in Apply(w, e).sessions && Winds(w.sessions[sid], Apply(w, e).sessions[sid])
  {
    if OfSession(w, e) && e.sid == sid { OwnStepWinds(w, e); } else { ElsewhereSteps(w, e, sid); }
  }

  lemma OwnStepWinds(w: Worker, e: Event)
    requires OfSession(w, e) && w.sessions[e.sid].serve.Served?
    ensures e.sid in ApplyTo(w, e).sessions && Winds(w.sessions[e.sid], ApplyTo(w, e).sessions[e.sid])
  {
    if e.Turn? { TurnWinds(w, e.sid, e.g); }
  }

  lemma TurnWinds(w: Worker, sid: nat, g: Goroutine)
    requires sid in w.sessions && w.sessions[sid].serve.Served?
    ensures var w' := ApplyTo(w, Turn(sid, g)); sid in w'.sessions && Winds(w.sessions[sid], w'.sessions[sid])
  {
    match g
    case ReadPump => ReaderWinds(w, sid);
    case WritePump => WriterWinds(w, sid);
    case Listener(i) => ListenerWinds(w, sid, i);
  }

  lemma ReaderWinds(w: Worker, sid: nat)
    requires sid in w.sessions && w.sessions[sid].serve.Served?
    ensures var w' := ReaderTurn(w, sid); sid in w'.sessions && Winds(w.sessions[sid], w'.sessions[sid])
  {
  }

  lemma WriterWinds(w: Worker, sid: nat)
    requires sid in w.sessions && w.sessions[sid].serve.Served?
    ensures var w' := WriterTurn(w, sid); sid in w'.sessions && Winds(w.sessions[sid], w'.sessions[sid])
  {
  }

  lemma ListenerWinds(w: Worker, sid: nat, i: nat)
    requires sid in w.sessions && w.sessions[sid].serve.Served?
    ensures var w' := ListenerTurn(w, sid, i); sid in w'.sessions && Winds(w.sessions[sid], w'.sessions[sid])
  {
  }

  /** A step of anything else leaves a session alone, except that Shutdown may close its connection. */
  lemma ElsewhereSteps(w: Worker, e: Event, sid: nat)
    requires sid in w.sessions && !(OfSession(w, e) && e.sid == sid)
    ensures sid in Apply(w, e).sessions
    ensures var s, s' := w.sessions[sid], Apply(w, e).sessions[sid];
            s' == s.(closed := s'.closed) && (s.closed ==> s'.closed)
  {
  }

  lemma {:induction false} RunWinds(w: Worker, es: seq<Event>, sid: nat)
    requires sid in w.sessions && w.sessions[sid].serve.Served?
    ensures sid in RunEvents(w, es).sessions && Winds(w.sessions[sid], RunEvents(w, es).sessions[sid])
    decreases |es|
  {
    if es != [] {
      NoRevival(w, es[0], sid);
      RunWinds(Apply(w, es[0]), es[1..], sid);
    }
  }

  /** What one turn of a goroutine achieves: closing makes the pumps exit, cancelling the listeners, and a
      pump that has begun to exit goes on. */
  ghost predicate Advances(s: Session, s': Session, g: Goroutine) {
    match g
    case ReadPump => (s.closed || ReaderLeft(s.reader) < 4) && ReaderLeft(s.reader) > 0 ==> ReaderLeft(s'.reader) < ReaderLeft(s.reader)
    case WritePump => (s.closed || WriterLeft(s.writer) < 3) && WriterLeft(s.writer) > 0 ==> WriterLeft(s'.writer) < WriterLeft(s.writer)
    case Listener(i) => s.cancelled && i < |s.listeners| && i < |s'.listeners| ==> !s'.listeners[i]
  }

  lemma TurnAdvances(w: Worker, sid: nat, g: Goroutine)
    requires sid in w.sessions && w.sessions[sid].serve.Served? && SessionOk(w, sid)
    ensures Advances(w.sessions[sid], Apply(w, Turn(sid, g)).sessions[sid], g)
  {
  }

  /** However many other steps surround it, a turn of a goroutine advances it. */
  lemma {:induction false} TurnInRun(w: Worker, es: seq<Event>, sid: nat, g: Goroutine)
    requires HubInv(w) && sid in w.sessions && w.sessions[sid].serve.Served? && Turn(sid, g) in es
    ensures sid in RunEvents(w, es).sessions && Advances(w.sessions[sid], RunEvents(w, es).sessions[sid], g)
    decreases |es|
  {
    var w1 := Apply(w, es[0]);
    NoRevival(w, es[0], sid);
    RunWinds(w1, es[1..], sid);
    if es[0] == Turn(sid, g) {
      assert SessionOk(w, sid);
      TurnAdvances(w, sid, g);
    } else {
      assert Turn(sid, g) in es[1..];
      HubKept(w, es[0]);
      TurnInRun(w1, es[1..], sid, g);
    }
  }

  /** A stretch of a run in which every goroutine of the session is scheduled at least once. */
  ghost predicate Fair(es: seq<Event>, sid: nat, rooms: nat) {
    && Turn(sid, ReadPump) in es && Turn(sid, WritePump) in es
    && forall i :: 0 <= i < rooms ==> Turn(sid, Listener(i)) in es
  }

  function RunRounds(w: Worker, rounds: seq<seq<Event>>): Worker
    decreases |rounds|
  {
    if rounds == [] then w else RunRounds(RunEvents(w, rounds[0]), rounds[1..])
  }

  function Less(n: nat, k: nat): nat {
    if n <= k then 0 else n - k
  }

  /** Fair rounds wear the pumps down, once the connection is closed. */
  lemma {:induction false} ClosedRounds(w: Worker, rounds: seq<seq<Event>>, sid: nat)
    requires HubInv(w) && sid in w.sessions && w.sessions[sid].serve.Served? && w.sessions[sid].closed
    requires forall k :: 0 <= k < |rounds| ==> Fair(rounds[k], sid, w.sessions[sid].rooms)
    ensures var w' := RunRounds(w, rounds);
            && HubInv(w') && sid in w'.sessions && Winds(w.sessions[sid], w'.sessions[sid])
            && ReaderLeft(w'.sessions[sid].reader) <= Less(ReaderLeft(w.sessions[sid].reader), |rounds|)
            && WriterLeft(w'.sessions[sid].writer) <= Less(WriterLeft(w.sessions[sid].writer), |rounds|)
    decreases |rounds|
  {
    if rounds != [] {
      var w1 := RunEvents(w, rounds[0]);
      RunKeeps(w, rounds[0]);
      RunWinds(w, rounds[0], sid);
      TurnInRun(w, rounds[0], sid, ReadPump);
      TurnInRun(w, rounds[0], sid, WritePump);
      ClosedRounds(w1, rounds[1..], sid);
    }
  }

  /** The listeners of a cancelled session are gone after one fair round. */
  lemma CancelledRound(w: Worker, es: seq<Event>, sid: nat)
    requires HubInv(w) && sid in w.sessions && w.sessions[sid].serve.Served? && w.sessions[sid].cancelled
    requires Fair(es, sid, w.sessions[sid].rooms)
    ensures var w' := RunEvents(w, es);
            && sid in w'.sessions
            && forall i :: 0 <= i < |w'.sessions[sid].listeners| ==> !w'.sessions[sid].listeners[i]
  {
    var w' := RunEvents(w, es);
    assert SessionOk(w, sid);
    RunWinds(w, es, sid);
    forall i | 0 <= i < |w'.sessions[sid].listeners| ensures !w'.sessions[sid].listeners[i] {
      TurnInRun(w, es, sid, Listener(i));
    }
  }

  ghost predicate AllGone(w: Worker, sid: nat) {
    && sid in w.sessions
    && var s := w.sessions[sid];
       && s.reader.ReaderGone? && s.writer.WriterGone? && s.cancelled && s.closed
       && (forall i :: 0 <= i < |s.listeners| ==> !s.listeners[i])
       && forall u :: u in w.hub ==> w.hub[u] != sid
  }

  lemma {:induction false} RunRoundsAppend(w: Worker, a: seq<seq<Event>>, b: seq<seq<Event>>)
    ensures RunRounds(w, a + b) == RunRounds(RunRounds(w, a), b)
    decreases |a|
  {
    if a == [] {
      assert a + b == b;
    } else {
      assert (a + b)[1..] == a[1..] + b;
      RunRoundsAppend(RunEvents(w, a[0]), a[1..], b);
    }
  }

  lemma GoneAfter(w: Worker, sid: nat)
    requires HubInv(w) && sid in w.sessions && HasUnregistered(w.sessions[sid])
    ensures forall u :: u in w.hub ==> w.hub[u] != sid
  {
    forall u | u in w.hub ensures w.hub[u] != sid { assert EntryOk(w, u); }
  }

  /** Teardown: when the connection of a started session is closed, from whatever source, four rounds in
      which each of its N+2 goroutines gets a turn, among any other steps of the worker, leave every one
      of them gone, the context cancelled and the hub without the session. */
  lemma TeardownCompletes(w: Worker, rounds: seq<seq<Event>>, sid: nat)
    requires HubInv(w) && sid in w.sessions && w.sessions[sid].serve.Served? && w.sessions[sid].closed
    requires |rounds| == 4 && forall k :: 0 <= k < 4 ==> Fair(rounds[k], sid, w.sessions[sid].rooms)
    ensures AllGone(RunRounds(w, rounds), sid)
  {
    assert rounds == rounds[..3] + [rounds[3]];
    var w3 := RunRounds(w, rounds[..3]);
    ThreeRoundsCancel(w, rounds[..3], sid);
    CancelledRound(w3, rounds[3], sid);
    RunRoundsAppend(w, rounds[..3], [rounds[3]]);
    assert [rounds[3]][1..] == [];
    PumpsGone(w, rounds, sid);
  }

  lemma ThreeRoundsCancel(w: Worker, rounds: seq<seq<Event>>, sid: nat)
    requires HubInv(w) && sid in w.sessions && w.sessions[sid].serve.Served? && w.sessions[sid].closed
    requires |rounds| == 3 && forall k :: 0 <= k < 3 ==> Fair(rounds[k], sid, w.sessions[sid].rooms)
    ensures var w' := RunRounds(w, rounds);
            && HubInv(w') && sid in w'.sessions && w'.sessions[sid].serve.Served?
            && w'.sessions[sid].cancelled && w'.sessions[sid].rooms == w.sessions[sid].rooms
  {
    assert SessionOk(w, sid);
    ClosedRounds(w, rounds, sid);
    assert SessionOk(RunRounds(w, rounds), sid);
  }

  lemma PumpsGone(w: Worker, rounds: seq<seq<Event>>, sid: nat)
    requires HubInv(w) && sid in w.sessions && w.sessions[sid].serve.Served? && w.sessions[sid].closed
    requires |rounds| == 4 && forall k :: 0 <= k < 4 ==> Fair(rounds[k], sid, w.sessions[sid].rooms)
    ensures var w' := RunRounds(w, rounds);
            && sid in w'.sessions && w'.sessions[sid].reader.ReaderGone? && w'.sessions[sid].writer.WriterGone?
            && w'.sessions[sid].cancelled && w'.sessions[sid].closed && forall u :: u in w'.hub ==> w'.hub[u] != sid
  {
    assert SessionOk(w, sid);
    ClosedRounds(w, rounds, sid);
    assert SessionOk(RunRounds(w, rounds), sid);
    GoneAfter(RunRounds(w, rounds), sid);
  }

  /** Teardown has begun: the connection is closed, or a pump has left its loop. */
  predicate Ending(s: Session) {
    s.closed || ReaderLeft(s.reader) < 4 || WriterLeft(s.writer) < 3
  }

  lemma {:induction false} EndingRounds(w: Worker, rounds: seq<seq<Event>>, sid: nat)
    requires HubInv(w) && sid in w.sessions && w.sessions[sid].serve.Served? && Ending(w.sessions[sid])
    requires forall k :: 0 <= k < |rounds| ==> Fair(rounds[k], sid, w.sessions[sid].rooms)
    ensures var w' := RunRounds(w, rounds);
            && HubInv(w') && sid in w'.sessions
            && EndingProgress(w.sessions[sid], w'.sessions[sid], |rounds|)
    decreases |rounds|
  {
    if rounds != [] {
      var w1 := RunEvents(w, rounds[0]);
      RunKeeps(w, rounds[0]);
      EndingRound(w, rounds[0], sid);
      EndingRounds(w1, rounds[1..], sid);
    }
  }

  ghost predicate EndingProgress(s: Session, s': Session, n: nat) {
    && s'.serve.Served? && s'.rooms == s.rooms && (s.closed ==> s'.closed)
    && (ReaderLeft(s.reader) < 4 ==> ReaderLeft(s'.reader) <= Less(ReaderLeft(s.reader), n))
    && (WriterLeft(s.writer) < 3 ==> WriterLeft(s'.writer) <= Less(WriterLeft(s.writer), n))
  }

  lemma EndingRound(w: Worker, es: seq<Event>, sid: nat)
    requires HubInv(w) && sid in w.sessions && w.sessions[sid].serve.Served? && Ending(w.sessions[sid])
    requires Fair(es, sid, w.sessions[sid].rooms)
    ensures var w' := RunEvents(w, es);
            && sid in w'.sessions && Winds(w.sessions[sid], w'.sessions[sid])
            && EndingProgress(w.sessions[sid], w'.sessions[sid], 1)
  {
    RunWinds(w, es, sid);
    TurnInRun(w, es, sid, ReadPump);
    TurnInRun(w, es, sid, WritePump);
  }

  /** Teardown from any first failure: once a pump of a started session has left its loop, or the
      connection is closed, seven fair rounds end the whole session. */
  lemma AnyFailureEndsSession(w: Worker, rounds: seq<seq<Event>>, sid: nat)
    requires HubInv(w) && sid in w.sessions && w.sessions[sid].serve.Served? && Ending(w.sessions[sid])
    requires |rounds| == 7 && forall k :: 0 <= k < 7 ==> Fair(rounds[k], sid, w.sessions[sid].rooms)
    ensures AllGone(RunRounds(w, rounds), sid)
  {
    assert rounds == rounds[..3] + rounds[3..];
    RunRoundsAppend(w, rounds[..3], rounds[3..]);
    EndingRounds(w, rounds[..3], sid);
    var w3 := RunRounds(w, rounds[..3]);
    assert SessionOk(w3, sid);
    TeardownCompletes(w3, rounds[3..], sid);
  }

  /** A session whose readPump has unregistered never reappears in the hub, however the worker goes on. */
  lemma NeverReappears(es: seq<Event>, later: seq<Event>, sid: nat, u: string)
    requires var w := RunEvents(EMPTY, es); sid in w.sessions && HasUnregistered(w.sessions[sid])
    requires u in RunEvents(RunEvents(EMPTY, es), later).hub
    ensures RunEvents(RunEvents(EMPTY, es), later).hub[u] != sid
  {
    RunKeeps(EMPTY, es);
    var w := RunEvents(EMPTY, es);
    StaysUnregistered(w, later, sid);
    RunKeeps(w, later);
    GoneAfter(RunEvents(w, later), sid);
  }

  lemma {:induction false} StaysUnregistered(w: Worker, es: seq<Event>, sid: nat)
    requires HubInv(w) && sid in w.sessions && HasUnregistered(w.sessions[sid])
    ensures sid in RunEvents(w, es).sessions && HasUnregistered(RunEvents(w, es).sessions[sid])
    decreases |es|
  {
    if es != [] {
      HubKept(w, es[0]);
      if OfSession(w, es[0]) && es[0].sid == sid {
        assert SessionOk(w, sid);
        OwnStepUnregistered(w, es[0]);
      } else {
        ElsewhereSteps(w, es[0], sid);
      }
      StaysUnregistered(Apply(w, es[0]), es[1..], sid);
    }
  }

  lemma OwnStepUnregistered(w: Worker, e: Event)
    requires OfSession(w, e) && SessionOk(w, e.sid) && HasUnregistered(w.sessions[e.sid])
    ensures e.sid in ApplyTo(w, e).sessions && HasUnregistered(ApplyTo(w, e).sessions[e.sid])
  {
  }

  ghost predicate Spawns(s: Session, s': Session) {
    || (s.reader.ReaderUnborn? && !s'.reader.ReaderUnborn?)
    || (s.writer.WriterUnborn? && !s'.writer.WriterUnborn?)
    || |s'.listeners| > |s.listeners|
  }

  /** Closing alone does not stop ServeWS: goroutines are spawned by its own remaining statements, and by
      nothing else, whether or not the connection is still open. */
  lemma SpawnsIff(w: Worker, e: Event, sid: nat)
    requires HubInv(w) && sid in w.sessions
    ensures sid in Apply(w, e).sessions
    ensures var s := w.sessions[sid];
            Spawns(s, Apply(w, e).sessions[sid]) <==>
            e == ServeStep(sid) && (s.serve.AtReader? || s.serve.AtWriter? || (s.serve.AtListeners? && |s.listeners| < s.rooms))
  {
    assert SessionOk(w, sid);
    if OfSession(w, e) && e.sid == sid { OwnStepSpawns(w, e); } else { ElsewhereSteps(w, e, sid); }
  }

  lemma OwnStepSpawns(w: Worker, e: Event)
    requires OfSession(w, e) && SessionOk(w, e.sid)
    ensures e.sid in ApplyTo(w, e).sessions
    ensures var s := w.sessions[e.sid];
            Spawns(s, ApplyTo(w, e).sessions[e.sid]) <==>
            e.ServeStep? && (s.serve.AtReader? || s.serve.AtWriter? || (s.serve.AtListeners? && |s.listeners| < s.rooms))
  {
    if e.ServeStep? { ServeSpawns(w, e.sid); } else { ServeUntouched(w, e); }
  }

  lemma ServeSpawns(w: Worker, sid: nat)
    requires sid in w.sessions && SessionOk(w, sid)
    ensures sid in DoServe(w, sid).sessions
    ensures var s := w.sessions[sid];
            Spawns(s, DoServe(w, sid).sessions[sid]) <==>
            s.serve.AtReader? || s.serve.AtWriter? || (s.serve.AtListeners? && |s.listeners| < s.rooms)
  {
  }

  /** Statements that ServeWS still has to run for a session. */
  function ServeLeft(s: Session): nat {
    match s.serve
    case AtRegister => s.rooms + 4
    case AtReader => s.rooms + 3
    case AtWriter => s.rooms + 2
    case AtListeners => if |s.listeners| <= s.rooms then s.rooms - |s.listeners| + 1 else 0
    case _ => 0
  }

  function ServeTurns(es: seq<Event>, sid: nat): nat {
    if es == [] then 0 else (if es[0] == ServeStep(sid) then 1 else 0) + ServeTurns(es[1..], sid)
  }

  lemma ServeProgress(w: Worker, e: Event, sid: nat)
    requires sid in w.sessions && SessionOk(w, sid) && !w.sessions[sid].serve.Aborted?
    ensures sid in Apply(w, e).sessions
    ensures var s, s' := w.sessions[sid], Apply(w, e).sessions[sid];
            !s'.serve.Aborted? && s'.rooms == s.rooms
            && ServeLeft(s') == if e == ServeStep(sid) && ServeLeft(s) > 0 then ServeLeft(s) - 1 else ServeLeft(s)
  {
    if OfSession(w, e) && e.sid == sid { OwnServeProgress(w, e); } else { ElsewhereSteps(w, e, sid); }
  }

  lemma OwnServeProgress(w: Worker, e: Event)
    requires OfSession(w, e) && SessionOk(w, e.sid) && !w.sessions[e.sid].serve.Aborted?
    ensures e.sid in ApplyTo(w, e).sessions
    ensures var s, s' := w.sessions[e.sid], ApplyTo(w, e).sessions[e.sid];
            !s'.serve.Aborted? && s'.rooms == s.rooms
            && ServeLeft(s') == if e.ServeStep? && ServeLeft(s) > 0 then ServeLeft(s) - 1 else ServeLeft(s)
  {
    if e.ServeStep? { ServeAdvances(w, e.sid); } else { ServeUntouched(w, e); }
  }

  lemma ServeAdvances(w: Worker, sid: nat)
    requires sid in w.sessions && SessionOk(w, sid) && !w.sessions[sid].serve.Aborted?
    ensures sid in DoServe(w, sid).sessions
    ensures var s, s' := w.sessions[sid], DoServe(w, sid).sessions[sid];
            !s'.serve.Aborted? && s'.rooms == s.rooms
            && ServeLeft(s') == if ServeLeft(s) > 0 then ServeLeft(s) - 1 else 0
  {
  }

  lemma ServeUntouched(w: Worker, e: Event)
    requires OfSession(w, e) && !e.ServeStep?
    ensures e.sid in ApplyTo(w, e).sessions
    ensures var s, s' := w.sessions[e.sid], ApplyTo(w, e).sessions[e.sid];
            && s'.serve == s.serve && s'.rooms == s.rooms && |s'.listeners| == |s.listeners|
            && s'.reader.ReaderUnborn? == s.reader.ReaderUnborn? && s'.writer.WriterUnborn? == s.writer.WriterUnborn?
  {
    if e.Turn? {
      match e.g
      case ReadPump => ReaderOnly(w, e.sid);
      case WritePump => WriterOnly(w, e.sid);
      case Listener(i) =>
    }
  }

  lemma ReaderOnly(w: Worker, sid: nat)
    requires sid in w.sessions
    ensures sid in ReaderTurn(w, sid).sessions
    ensures var s, s' := w.sessions[sid], ReaderTurn(w, sid).sessions[sid];
            && s' == s.(reader := s'.reader, cancelled := s'.cancelled, closed := s'.closed)
            && s'.reader.ReaderUnborn? == s.reader.ReaderUnborn?
  {
  }

  lemma WriterOnly(w: Worker, sid: nat)
    requires sid in w.sessions
    ensures sid in WriterTurn(w, sid).sessions
    ensures var s, s' := w.sessions[sid], WriterTurn(w, sid).sessions[sid];
            && s' == s.(writer := s'.writer, cancelled := s'.cancelled, closed := s'.closed)
            && s'.writer.WriterUnborn? == s.writer.WriterUnborn?
  {
  }

  /** The start of a session always finishes: after N + 4 turns of ServeWS at most, among any other steps
      and whether or not the connection is closed meanwhile, all its goroutines have been spawned, and
      the teardown results apply. */
  lemma {:induction false} StartFinishes(w: Worker, es: seq<Event>, sid: nat)
    requires HubInv(w) && sid in w.sessions && !w.sessions[sid].serve.Aborted?
    requires ServeTurns(es, sid) >= ServeLeft(w.sessions[sid])
    ensures sid in RunEvents(w, es).sessions && RunEvents(w, es).sessions[sid].serve.Served?
    decreases |es|
  {
    assert SessionOk(w, sid);
    if es != [] {
      ServeProgress(w, es[0], sid);
      HubKept(w, es[0]);
      StartFinishes(Apply(w, es[0]), es[1..], sid);
    }
  }
}
