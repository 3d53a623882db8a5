/** A client that combines the lossy live stream with delta sync, against the send pipeline. The client
    keeps the messages of one channel it holds, merged by ID, and a cursor from which it syncs
    (shared/repository/msg_repo.go; message_handler.go, HandleDeltaSync). */
module ClientCursor {
  import opened Domain
  import opened MessageTable
  import opened SendPipeline

  /** How the cursor moves: only by sync answers, or to the highest ID held, as documented. */
  datatype Policy = SyncOnly | HighestHeld

  datatype Setup = Setup(conv: string, me: string, policy: Policy)

  /** A sync answer on its way: the cursor it was asked with and the page it carries. */
  datatype Response = Response(after: nat, page: seq<Message>)

  /** `asked` holds the cursors of the sync requests that may still be served; `answers` the answers that
      may still arrive. */
  datatype Client = Client(held: set<Message>, cursor: nat, start: nat, asked: set<nat>, answers: set<Response>)

  datatype Sys = Sys(server: State, client: Client)

  datatype Step =
    | Server(e: Event)           // any step of any request
    | Live(i: nat)               // a frame of publication i arrives; a lost frame is no step at all
    | Own(req: nat)              // the client's own 202 arrives
    | Ask                        // a sync request leaves with the cursor of the moment
    | Serve(after: nat)          // a request asked with that cursor, now or long ago, is served
    | Expire(after: nat)         // such a request will not be served any more
    | Answer(response: Response) // an answer arrives: late, out of order, or again

  function Receive(p: Setup, c: Client, m: Message): Client {
    c.(held := c.held + {m}, cursor := if p.policy.HighestHeld? then Max(c.cursor, m.id) else c.cursor)
  }

  /** The message a live step brings, if it can happen. */
  function LiveMessage(p: Setup, s: State, step: Step): Option<Message> {
    if step.Live? && step.i < |s.published| && s.published[step.i].room == Room(p.conv)
       && s.published[step.i].msg.sender != p.me then
      Some(s.published[step.i].msg)
    else if step.Own? && At(s, step.req, Replied(202)) && s.reqs[step.req].id.Some?
            && s.reqs[step.req].conv == p.conv && s.reqs[step.req].sender == p.me then
      Some(RowOf(s.reqs[step.req]))
    else None
  }

  function Absorb(c: Client, page: seq<Message>): Client {
    if page == [] then c
    else c.(held := c.held + (set m | m in page), cursor := Max(c.cursor, page[|page| - 1].id))
  }

  function Do(p: Setup, s: Sys, step: Step): Sys {
    match step
    case Server(e) => s.(server := Apply(s.server, e))
    case Ask => s.(client := s.client.(asked := s.client.asked + {s.client.cursor}))
    case Serve(after) =>
      if after in s.client.asked then
        s.(client := s.client.(answers := s.client.answers + {Response(after, Page(s.server.table, p.conv, after))}))
      else s
    case Expire(after) => s.(client := s.client.(asked := s.client.asked - {after}))
    case Answer(a) => if a in s.client.answers then s.(client := Absorb(s.client, a.page)) else s
    case _ =>
      var m := LiveMessage(p, s.server, step);
      if m.Some? then s.(client := Receive(p, s.client, m.value)) else s
  }

  function RunSteps(p: Setup, s: Sys, steps: seq<Step>): Sys
    decreases |steps|
  {
    if steps == [] then s else RunSteps(p, Do(p, s, steps[0]), steps[1..])
  }

  // ------------------------------------------------------- always true of a client

  ghost predicate OfChannel(p: Setup, s: Sys, m: Message) {
    m in s.server.table && m.conv == p.conv
  }

  ghost predicate AnswerOk(p: Setup, s: Sys, a: Response) {
    && a.after <= s.client.cursor && Sorted(a.page)
    && forall m :: m in a.page ==> OfChannel(p, s, m) && m.id > a.after
  }

  ghost predicate ClientInv(p: Setup, s: Sys) {
    && Inv(s.server)
    && (forall m :: m in s.client.held ==> OfChannel(p, s, m))
    && s.client.start <= s.client.cursor
    && (s.client.cursor == s.client.start || exists m :: m in s.client.held && m.id == s.client.cursor)
    && (forall k :: k in s.client.asked ==> k <= s.client.cursor)
    && (forall a :: a in s.client.answers ==> AnswerOk(p, s, a))
  }

  /** A client that has just connected with a starting cursor. */
  ghost predicate Begins(s: Sys) {
    Inv(s.server) && s.client.held == {} && s.client.cursor == s.client.start
    && s.client.asked == {} && s.client.answers == {}
  }

  lemma LiveIsStored(p: Setup, s: State, step: Step)
    requires Inv(s) && LiveMessage(p, s, step).Some?
    ensures var m := LiveMessage(p, s, step).value; m in s.table && m.conv == p.conv
  {
    if step.Live? {
      RoomInjective(s.published[step.i].msg.conv, p.conv);
    } else {
      assert RequestOk(s, step.req);
    }
  }

  lemma ClientKept(p: Setup, s: Sys, step: Step)
    requires ClientInv(p, s)
    ensures ClientInv(p, Do(p, s, step))
  {
    var s' := Do(p, s, step);
    match step
    case Server(e) =>
      InvKept(s.server, e);
      forall a | a in s'.client.answers ensures AnswerOk(p, s', a) { assert AnswerOk(p, s, a); }
    case Serve(after) =>
      if after in s.client.asked { ServeKept(p, s, after); }
    case Answer(a) =>
      if a in s.client.answers && a.page != [] { AnswerKept(p, s, a); }
    case Ask =>
      forall a | a in s'.client.answers ensures AnswerOk(p, s', a) { assert AnswerOk(p, s, a); }
    case Expire(after) =>
      forall a | a in s'.client.answers ensures AnswerOk(p, s', a) { assert AnswerOk(p, s, a); }
    case _ =>
      if LiveMessage(p, s.server, step).Some? {
        LiveIsStored(p, s.server, step);
        ReceiveKept(p, s, LiveMessage(p, s.server, step).value);
      }
  }

  lemma ServeKept(p: Setup, s: Sys, after: nat)
    requires ClientInv(p, s) && after in s.client.asked
    ensures ClientInv(p, Do(p, s, Serve(after)))
  {
    var s' := Do(p, s, Serve(after));
    PageMeaning(s.server.table, p.conv, after);
    forall a | a in s'.client.answers ensures AnswerOk(p, s', a) {
      if a in s.client.answers { assert AnswerOk(p, s, a); }
    }
  }

  lemma AnswerKept(p: Setup, s: Sys, a: Response)
    requires ClientInv(p, s) && a in s.client.answers && a.page != []
    ensures ClientInv(p, s.(client := Absorb(s.client, a.page)))
  {
    var s' := s.(client := Absorb(s.client, a.page));
    assert AnswerOk(p, s, a);
    assert a.page[|a.page| - 1] in a.page;
    forall b | b in s'.client.answers ensures AnswerOk(p, s', b) { assert AnswerOk(p, s, b); }
  }

  lemma ReceiveKept(p: Setup, s: Sys, m: Message)
    requires ClientInv(p, s) && OfChannel(p, s, m)
    ensures ClientInv(p, s.(client := Receive(p, s.client, m)))
  {
    var s' := s.(client := Receive(p, s.client, m));
    assert m in s'.client.held;
    forall a | a in s'.client.answers ensures AnswerOk(p, s', a) { assert AnswerOk(p, s, a); }
  }

  /** The step brings the message to the client: a frame of somebody else's message of its channel, its own
      202, or a sync answer. */
  ghost predicate Brings(p: Setup, s: Sys, step: Step, m: Message) {
    || (step.Live? && step.i < |s.server.published| && s.server.published[step.i] == Publication(Room(p.conv), m)
        && m.sender != p.me)
    || (step.Own? && At(s.server, step.req, Replied(202)) && s.server.reqs[step.req].id.Some?
        && RowOf(s.server.reqs[step.req]) == m && m.conv == p.conv && m.sender == p.me)
    || (step.Answer? && step.response in s.client.answers && m in step.response.page)
  }

  lemma HeldStep(p: Setup, s: Sys, step: Step, m: Message)
    ensures m in Do(p, s, step).client.held <==> m in s.client.held || Brings(p, s, step, m)
  {
  }

  ghost predicate BroughtIn(p: Setup, s: Sys, steps: seq<Step>, m: Message)
    decreases |steps|
  {
    steps != [] && (Brings(p, s, steps[0], m) || BroughtIn(p, Do(p, s, steps[0]), steps[1..], m))
  }

  /** The client holds exactly what it held at the start and what has reached it since, under either policy. */
  lemma {:induction false} HeldIff(p: Setup, s: Sys, steps: seq<Step>, m: Message)
    ensures m in RunSteps(p, s, steps).client.held <==> m in s.client.held || BroughtIn(p, s, steps, m)
    decreases |steps|
  {
    if steps != [] {
      HeldStep(p, s, steps[0], m);
      HeldIff(p, Do(p, s, steps[0]), steps[1..], m);
    }
  }

  /** No message held is above the cursor. */
  ghost predicate NothingAbove(s: Sys) {
    forall m :: m in s.client.held ==> m.id <= s.client.cursor
  }

  lemma NothingAboveKept(p: Setup, s: Sys, step: Step)
    requires ClientInv(p, s) && NothingAbove(s) && p.policy.HighestHeld?
    ensures NothingAbove(Do(p, s, step))
  {
    if step.Answer? && step.response in s.client.answers {
      assert AnswerOk(p, s, step.response);
    }
  }

  /** The documented cursor, as modelled, is the highest ID held, or the starting cursor, in every state of
      every run. */
  lemma {:induction false} CursorIsHighestHeld(p: Setup, s: Sys, steps: seq<Step>)
    requires ClientInv(p, s) && NothingAbove(s) && p.policy.HighestHeld?
    ensures var c := RunSteps(p, s, steps).client;
            && (forall m :: m in c.held ==> m.id <= c.cursor)
            && (c.cursor == c.start || exists m :: m in c.held && m.id == c.cursor)
    decreases |steps|
  {
    if steps != [] {
      NothingAboveKept(p, s, steps[0]);
      ClientKept(p, s, steps[0]);
      CursorIsHighestHeld(p, Do(p, s, steps[0]), steps[1..]);
    }
  }

  // ------------------------------------------------------------- the no-gap property

  /** The client holds every stored message of the channel between its starting and current cursors. */
  ghost predicate NoGap(p: Setup, s: Sys) {
    forall m :: OfChannel(p, s, m) && s.client.start < m.id <= s.client.cursor ==> m in s.client.held
  }

  /** A stored message that the client lacks lies between the cursor and the given ID. */
  ghost predicate JumpsOver(p: Setup, s: Sys, id: nat) {
    exists x :: OfChannel(p, s, x) && s.client.cursor < x.id < id && x !in s.client.held
  }

  ghost predicate AnswerSkips(p: Setup, s: Sys, page: seq<Message>)
    requires page != []
  {
    exists x :: OfChannel(p, s, x) && s.client.cursor < x.id < page[|page| - 1].id && x !in s.client.held && x !in page
  }

  /** The steps that break the property, recognised before they are taken:
      - an INSERT into the channel at or below the cursor;
      - with the documented cursor, a live frame or own 202 that jumps over a message not held;
      - an answer from before an INSERT that has since filled in below its last row. */
  ghost predicate Breaks(p: Setup, s: Sys, step: Step) {
    match step
    case Server(e) =>
      Inserts(s.server, e) && s.server.reqs[e.req].conv == p.conv
      && s.client.start < s.server.reqs[e.req].id.value <= s.client.cursor
    case Ask => false
    case Serve(_) => false
    case Expire(_) => false
    case Answer(a) => a in s.client.answers && a.page != [] && AnswerSkips(p, s, a.page)
    case _ =>
      var m := LiveMessage(p, s.server, step);
      m.Some? && p.policy.HighestHeld? && JumpsOver(p, s, m.value.id)
  }

  lemma UniqueId(t: Table, a: Message, b: Message)
    requires Sorted(t) && a in t && b in t && a.id == b.id
    ensures a == b
  {
    var i :| 0 <= i < |t| && t[i] == a;
    var j :| 0 <= j < |t| && t[j] == b;
  }

  lemma ServerStepIff(p: Setup, s: Sys, e: Event)
    requires ClientInv(p, s) && NoGap(p, s)
    ensures NoGap(p, Do(p, s, Server(e))) <==> !Breaks(p, s, Server(e))
  {
    var s' := Do(p, s, Server(e));
    if Inserts(s.server, e) {
      var m := RowOf(s.server.reqs[e.req]);
      StoreInserted(s.server, e);
      assert m !in s.client.held;
      if Breaks(p, s, Server(e)) { assert OfChannel(p, s', m); }
      forall x | OfChannel(p, s', x) && x != m ensures OfChannel(p, s, x) {}
    } else {
      SameTable(s.server, e);
      forall x ensures OfChannel(p, s', x) <==> OfChannel(p, s, x) {}
    }
  }

  lemma SameTable(s: State, e: Event)
    requires !Inserts(s, e)
    ensures Apply(s, e).table == s.table
  {
  }

  lemma LiveStepIff(p: Setup, s: Sys, step: Step)
    requires ClientInv(p, s) && NoGap(p, s) && LiveMessage(p, s.server, step).Some?
    ensures NoGap(p, Do(p, s, step)) <==> !Breaks(p, s, step)
  {
    var s', m := Do(p, s, step), LiveMessage(p, s.server, step).value;
    LiveIsStored(p, s.server, step);
    forall x ensures OfChannel(p, s', x) <==> OfChannel(p, s, x) {}
    if Breaks(p, s, step) {
      var x :| OfChannel(p, s, x) && s.client.cursor < x.id < m.id && x !in s.client.held;
      assert OfChannel(p, s', x) && x !in s'.client.held;
    } else {
      forall x | OfChannel(p, s', x) && s'.client.start < x.id <= s'.client.cursor ensures x in s'.client.held {
        if x.id == m.id { UniqueId(s.server.table, x, m); }
      }
    }
  }

  lemma AnswerStepIff(p: Setup, s: Sys, a: Response)
    requires ClientInv(p, s) && NoGap(p, s) && a in s.client.answers && a.page != []
    ensures NoGap(p, Do(p, s, Answer(a))) <==> !Breaks(p, s, Answer(a))
  {
    var s', last := Do(p, s, Answer(a)), a.page[|a.page| - 1];
    assert AnswerOk(p, s, a) && last in a.page;
    forall x ensures OfChannel(p, s', x) <==> OfChannel(p, s, x) {}
    if Breaks(p, s, Answer(a)) {
      var x :| OfChannel(p, s, x) && s.client.cursor < x.id < last.id && x !in s.client.held && x !in a.page;
      assert OfChannel(p, s', x) && x !in s'.client.held;
    } else {
      forall x | OfChannel(p, s', x) && s'.client.start < x.id <= s'.client.cursor ensures x in s'.client.held {
        if x.id == last.id { UniqueId(s.server.table, x, last); }
      }
    }
  }

  /** Exactly the listed steps break the no-gap property; every other step of the server, the network
      and the client keeps it. */
  lemma StepKeepsNoGapIff(p: Setup, s: Sys, step: Step)
    requires ClientInv(p, s) && NoGap(p, s)
    ensures NoGap(p, Do(p, s, step)) <==> !Breaks(p, s, step)
  {
    if step.Server? {
      ServerStepIff(p, s, step.e);
    } else if step.Answer? && step.response in s.client.answers && step.response.page != [] {
      AnswerStepIff(p, s, step.response);
    } else if (step.Live? || step.Own?) && LiveMessage(p, s.server, step).Some? {
      LiveStepIff(p, s, step);
    } else {
      forall x ensures OfChannel(p, Do(p, s, step), x) <==> OfChannel(p, s, x) {}
    }
  }

  ghost predicate NoGapAlways(p: Setup, s: Sys, steps: seq<Step>)
    decreases |steps|
  {
    NoGap(p, s) && (steps == [] || NoGapAlways(p, Do(p, s, steps[0]), steps[1..]))
  }

  ghost predicate NeverBreaks(p: Setup, s: Sys, steps: seq<Step>)
    decreases |steps|
  {
    steps == [] || (!Breaks(p, s, steps[0]) && NeverBreaks(p, Do(p, s, steps[0]), steps[1..]))
  }

  lemma {:induction false} RunIff(p: Setup, s: Sys, steps: seq<Step>)
    requires ClientInv(p, s) && NoGap(p, s)
    ensures NoGapAlways(p, s, steps) <==> NeverBreaks(p, s, steps)
    decreases |steps|
  {
    if steps != [] {
      StepKeepsNoGapIff(p, s, steps[0]);
      ClientKept(p, s, steps[0]);
      if NoGap(p, Do(p, s, steps[0])) { RunIff(p, Do(p, s, steps[0]), steps[1..]); }
    }
  }

  /** For either cursor policy: over a whole run of any length, the no-gap property holds in every state
      if and only if no breaking step is ever taken. */
  lemma NoGapRunIff(p: Setup, s: Sys, steps: seq<Step>)
    requires Begins(s)
    ensures NoGapAlways(p, s, steps) <==> NeverBreaks(p, s, steps)
  {
    RunIff(p, s, steps);
  }

  // -------------------------------------------- no loss with a sync-driven cursor

  /** Rows of the channel become visible in ID order: each INSERT is above all its rows. */
  ghost predicate InOrder(p: Setup, s: Sys, step: Step) {
    step.Server? && Inserts(s.server, step.e) && s.server.reqs[step.e.req].conv == p.conv ==>
      forall x :: OfChannel(p, s, x) ==> x.id < s.server.reqs[step.e.req].id.value
  }

  ghost predicate AllInOrder(p: Setup, s: Sys, steps: seq<Step>)
    decreases |steps|
  {
    steps == [] || (InOrder(p, s, steps[0]) && AllInOrder(p, Do(p, s, steps[0]), steps[1..]))
  }

  /** The page of an answer still contains every row of its range. */
  ghost predicate StillComplete(p: Setup, s: Sys, a: Response) {
    forall x :: a.page != [] && OfChannel(p, s, x) && a.after < x.id <= a.page[|a.page| - 1].id ==> x in a.page
  }

  ghost predicate AnswersComplete(p: Setup, s: Sys) {
    forall a :: a in s.client.answers ==> StillComplete(p, s, a)
  }

  lemma CompleteKept(p: Setup, s: Sys, step: Step)
    requires ClientInv(p, s) && AnswersComplete(p, s) && InOrder(p, s, step)
    ensures AnswersComplete(p, Do(p, s, step))
  {
    var s' := Do(p, s, step);
    if step.Server? {
      forall a | a in s'.client.answers ensures StillComplete(p, s', a) {
        ServerKeepsComplete(p, s, step.e, a);
      }
    } else {
      forall a | a in s'.client.answers ensures StillComplete(p, s', a) {
        if a in s.client.answers {
          assert StillComplete(p, s, a);
        } else {
          PageComplete(p, s, a.after);
        }
      }
    }
  }

  lemma PageComplete(p: Setup, s: Sys, after: nat)
    requires Sorted(s.server.table)
    ensures StillComplete(p, s, Response(after, Page(s.server.table, p.conv, after)))
  {
    PageMeaning(s.server.table, p.conv, after);
  }

  lemma ServerKeepsComplete(p: Setup, s: Sys, e: Event, a: Response)
    requires ClientInv(p, s) && InOrder(p, s, Server(e)) && a in s.client.answers && StillComplete(p, s, a)
    ensures StillComplete(p, Do(p, s, Server(e)), a)
  {
    assert AnswerOk(p, s, a);
    if Inserts(s.server, e) {
      StoreInserted(s.server, e);
      if a.page != [] { assert a.page[|a.page| - 1] in a.page; }
    } else {
      SameTable(s.server, e);
    }
  }

  lemma InOrderNeverBreaks(p: Setup, s: Sys, step: Step)
    requires ClientInv(p, s) && AnswersComplete(p, s) && InOrder(p, s, step) && p.policy.SyncOnly?
    ensures !Breaks(p, s, step)
  {
    if step.Answer? && step.response in s.client.answers {
      assert AnswerOk(p, s, step.response) && StillComplete(p, s, step.response);
    }
  }

  lemma {:induction false} InOrderRun(p: Setup, s: Sys, steps: seq<Step>)
    requires ClientInv(p, s) && NoGap(p, s) && AnswersComplete(p, s)
    requires AllInOrder(p, s, steps) && p.policy.SyncOnly?
    ensures NoGapAlways(p, s, steps) && NoGap(p, RunSteps(p, s, steps)) && ClientInv(p, RunSteps(p, s, steps))
    decreases |steps|
  {
    if steps != [] {
      InOrderNeverBreaks(p, s, steps[0]);
      StepKeepsNoGapIff(p, s, steps[0]);
      ClientKept(p, s, steps[0]);
      CompleteKept(p, s, steps[0]);
      InOrderRun(p, Do(p, s, steps[0]), steps[1..]);
    }
  }

  /** No loss: if the cursor moves only by sync answers and the channel's rows commit in ID order, then in
      every interleaving of sends, failures, live frames and drops, with sync requests and answers delayed,
      reordered, overlapping, repeated or lost, the client holds every stored message between its cursors;
      and it holds each once, since no two messages it holds share an ID. */
  lemma SyncOnlyNoLoss(p: Setup, s: Sys, steps: seq<Step>)
    requires Begins(s) && p.policy.SyncOnly? && AllInOrder(p, s, steps)
    ensures NoGapAlways(p, s, steps)
    ensures var c := RunSteps(p, s, steps).client;
            forall m, n :: m in c.held && n in c.held && m.id == n.id ==> m == n
  {
    InOrderRun(p, s, steps);
    var s' := RunSteps(p, s, steps);
    forall m, n | m in s'.client.held && n in s'.client.held && m.id == n.id ensures m == n {
      assert OfChannel(p, s', m) && OfChannel(p, s', n);
      UniqueId(s'.server.table, m, n);
    }
  }

  // --------------------------------------------------------- what a gap costs

  /** Some answer that may still arrive carries the message, or some request that may still be served
      would return it. */
  ghost predicate UnderWay(p: Setup, s: Sys, x: Message) {
    || (exists a :: a in s.client.answers && x in a.page)
    || (exists k :: k in s.client.asked && x in Page(s.server.table, p.conv, k))
  }

  /** Stored at or below the cursor, not held, and not under way. */
  ghost predicate Lost(p: Setup, s: Sys, x: Message) {
    OfChannel(p, s, x) && x.id <= s.client.cursor && x !in s.client.held && !UnderWay(p, s, x)
  }

  predicate NeverLive(p: Setup, s: Sys, steps: seq<Step>, x: Message)
    decreases |steps|
  {
    steps == [] || (LiveMessage(p, s.server, steps[0]) != Some(x) && NeverLive(p, Do(p, s, steps[0]), steps[1..], x))
  }

  /** A request that would not return a message does not come to return it by later commits. */
  lemma StaysOffPage(p: Setup, s: Sys, e: Event, x: Message, k: nat)
    requires ClientInv(p, s) && OfChannel(p, s, x) && x !in Page(s.server.table, p.conv, k)
    ensures x !in Page(Apply(s.server, e).table, p.conv, k)
  {
    if Inserts(s.server, e) {
      InsertShape(s.server, e);
      PageOnlyRecedes(s.server.table, RowOf(s.server.reqs[e.req]), p.conv, k, x);
    } else {
      SameTable(s.server, e);
    }
  }

  lemma LostStays(p: Setup, s: Sys, step: Step, x: Message)
    requires ClientInv(p, s) && Lost(p, s, x) && LiveMessage(p, s.server, step) != Some(x)
    ensures Lost(p, Do(p, s, step), x)
  {
    if step.Server? {
      InvKept(s.server, step.e);
      forall k | k in s.client.asked ensures x !in Page(Apply(s.server, step.e).table, p.conv, k) {
        StaysOffPage(p, s, step.e, x, k);
      }
    } else if step.Ask? {
      PageMeaning(s.server.table, p.conv, s.client.cursor);
    }
  }

  /** A message lost in a gap is never returned by any later sync: however long the run, the client can
      only obtain it from a live frame or its own 202. */
  lemma {:induction false} LostForever(p: Setup, s: Sys, steps: seq<Step>, x: Message)
    requires ClientInv(p, s) && Lost(p, s, x) && NeverLive(p, s, steps, x)
    ensures Lost(p, RunSteps(p, s, steps), x)
    decreases |steps|
  {
    if steps != [] {
      LostStays(p, s, steps[0], x);
      ClientKept(p, s, steps[0]);
      LostForever(p, Do(p, s, steps[0]), steps[1..], x);
    }
  }

  /** The converse: a message in a gap that is not lost can still be had from sync alone, at most by serving
      one outstanding request and delivering its answer. */
  lemma NotLostIsRecoverable(p: Setup, s: Sys, x: Message) returns (steps: seq<Step>)
    requires ClientInv(p, s) && OfChannel(p, s, x) && x.id <= s.client.cursor && x !in s.client.held && !Lost(p, s, x)
    ensures |steps| <= 2 && forall i :: 0 <= i < |steps| ==> steps[i].Serve? || steps[i].Answer?
    ensures x in RunSteps(p, s, steps).client.held
  {
    if a :| a in s.client.answers && x in a.page {
      steps := [Answer(a)];
      OneStep(p, s, Answer(a));
      AnswerBrings(p, s, a, x);
    } else {
      var k :| k in s.client.asked && x in Page(s.server.table, p.conv, k);
      var a := Response(k, Page(s.server.table, p.conv, k));
      steps := [Serve(k), Answer(a)] + [];
      TwoSteps(p, s, Serve(k), Answer(a), []);
      AnswerBrings(p, Do(p, s, Serve(k)), a, x);
    }
  }

  lemma OneStep(p: Setup, s: Sys, step: Step)
    ensures RunSteps(p, s, [step]) == Do(p, s, step)
  {
    assert [step][1..] == [];
  }

  lemma AnswerBrings(p: Setup, s: Sys, a: Response, x: Message)
    requires a in s.client.answers && x in a.page
    ensures x in Do(p, s, Answer(a)).client.held
  {
  }

  /** The documented cursor loses what the live stream dropped: when a frame arrives above a stored message
      that the client lacks, that message is lost to sync if and only if it is not under way already. */
  lemma LiveJumpLoses(p: Setup, s: Sys, step: Step, x: Message)
    requires ClientInv(p, s) && p.policy.HighestHeld? && LiveMessage(p, s.server, step).Some?
    requires OfChannel(p, s, x) && x !in s.client.held && x.id < LiveMessage(p, s.server, step).value.id
    ensures Lost(p, Do(p, s, step), x) <==> !UnderWay(p, s, x)
  {
    var s' := Do(p, s, step);
    assert s'.client.asked == s.client.asked && s'.client.answers == s.client.answers && s'.server == s.server;
    assert UnderWay(p, s', x) <==> UnderWay(p, s, x);
  }

  /** A late commit under either policy: a row stored at or below the cursor is lost from its first moment,
      unless a request from below it is outstanding with fewer than 100 of the channel's rows between. */
  lemma LateCommitLoses(p: Setup, s: Sys, e: Event)
    requires ClientInv(p, s) && Inserts(s.server, e)
    requires s.server.reqs[e.req].conv == p.conv && s.server.reqs[e.req].id.value <= s.client.cursor
    ensures var x := RowOf(s.server.reqs[e.req]);
            Lost(p, Do(p, s, Server(e)), x) <==>
            forall k :: k in s.client.asked ==> x.id <= k || Below(s.server.table, p.conv, k, x.id) >= PAGE_LIMIT
  {
    var x, s' := RowOf(s.server.reqs[e.req]), Do(p, s, Server(e));
    StoreInserted(s.server, e);
    InsertShape(s.server, e);
    assert x !in s.server.table;
    forall a | a in s'.client.answers ensures x !in a.page {
      assert AnswerOk(p, s, a);
    }
    forall k: nat
      ensures x in Page(s'.server.table, p.conv, k) <==> k < x.id && Below(s.server.table, p.conv, k, x.id) < PAGE_LIMIT
    {
      PageMemberIff(s'.server.table, p.conv, k, x);
      BelowInsert(s.server.table, x, p.conv, k, x.id);
    }
  }

  // ------------------------------------------------------- catching up, converging

  /** The client has everything: from here on a sync brings nothing, and nothing above the start is missing. */
  ghost predicate CaughtUp(p: Setup, s: Sys) {
    && ClientInv(p, s) && NoGap(p, s)
    && History(s.server.table, p.conv, s.client.cursor) == []
    && forall m :: OfChannel(p, s, m) && m.id > s.client.start ==> m in s.client.held
  }

  /** With no gap, a client that keeps syncing on a quiet server ends up holding every stored message of
      the channel above its starting cursor, whatever the live stream delivered or dropped. */
  lemma Drain(p: Setup, s: Sys) returns (steps: seq<Step>)
    requires ClientInv(p, s) && NoGap(p, s)
    ensures OnlySyncs(steps)
    ensures var s' := RunSteps(p, s, steps);
            s'.server == s.server && s'.client.start == s.client.start && CaughtUp(p, s')
    decreases |History(s.server.table, p.conv, s.client.cursor)|
  {
    if Page(s.server.table, p.conv, s.client.cursor) == [] {
      steps := [];
      NothingMissing(p, s);
    } else {
      RoundKeeps(p, s);
      RoundProgress(s.server.table, p.conv, s.client.cursor);
      var rest := Drain(p, Round(p, s));
      steps := RoundSteps(p, s) + rest;
      RoundOnlySyncs(p, s, rest);
      RoundRuns(p, s, rest);
    }
  }

  /** One sync: the request leaves, is served, and its answer arrives. */
  function RoundSteps(p: Setup, s: Sys): seq<Step> {
    [Ask, Serve(s.client.cursor), Answer(Response(s.client.cursor, Page(s.server.table, p.conv, s.client.cursor)))]
  }

  ghost predicate OnlySyncs(steps: seq<Step>) {
    forall i :: 0 <= i < |steps| ==> steps[i].Ask? || steps[i].Serve? || steps[i].Answer?
  }

  lemma RoundOnlySyncs(p: Setup, s: Sys, rest: seq<Step>)
    requires OnlySyncs(rest)
    ensures OnlySyncs(RoundSteps(p, s) + rest)
  {
  }

  lemma RoundRuns(p: Setup, s: Sys, rest: seq<Step>)
    ensures RunSteps(p, s, RoundSteps(p, s) + rest) == RunSteps(p, Round(p, s), rest)
  {
    var r := RoundSteps(p, s);
    assert (r + rest)[1..] == [r[1], r[2]] + rest;
    TwoSteps(p, Do(p, s, r[0]), r[1], r[2], rest);
  }

  lemma RoundProgress(t: Table, conv: string, after: nat)
    requires Sorted(t) && Page(t, conv, after) != []
    ensures var p := Page(t, conv, after); |History(t, conv, p[|p| - 1].id)| < |History(t, conv, after)|
  {
    PageThenRest(t, conv, after);
  }

  lemma TwoSteps(p: Setup, s: Sys, a: Step, b: Step, rest: seq<Step>)
    ensures RunSteps(p, s, [a, b] + rest) == RunSteps(p, Do(p, Do(p, s, a), b), rest)
  {
    var steps := [a, b] + rest;
    assert steps[1..] == [b] + rest && ([b] + rest)[1..] == rest;
    assert RunSteps(p, Do(p, s, a), [b] + rest) == RunSteps(p, Do(p, Do(p, s, a), b), rest);
  }

  lemma NothingMissing(p: Setup, s: Sys)
    requires ClientInv(p, s) && NoGap(p, s) && Page(s.server.table, p.conv, s.client.cursor) == []
    ensures CaughtUp(p, s)
  {
    HistoryMeaning(s.server.table, p.conv, s.client.cursor);
    forall m | OfChannel(p, s, m) && m.id > s.client.start ensures m in s.client.held {
      assert m !in History(s.server.table, p.conv, s.client.cursor);
    }
  }

  function Served(p: Setup, s: Sys): Sys {
    Do(p, Do(p, s, Ask), Serve(s.client.cursor))
  }

  function Round(p: Setup, s: Sys): Sys {
    Do(p, Served(p, s), Answer(Response(s.client.cursor, Page(s.server.table, p.conv, s.client.cursor))))
  }

  lemma RoundKeeps(p: Setup, s: Sys)
    requires ClientInv(p, s) && NoGap(p, s) && Page(s.server.table, p.conv, s.client.cursor) != []
    ensures var page := Page(s.server.table, p.conv, s.client.cursor);
            var s2 := Round(p, s);
            && ClientInv(p, s2) && NoGap(p, s2) && s2.server == s.server
            && s2.client.cursor == page[|page| - 1].id && s2.client.start == s.client.start
  {
    var page := Page(s.server.table, p.conv, s.client.cursor);
    ServedKeeps(p, s);
    PageSkipsNothing(p, s, page);
    FreshAnswerKeeps(p, Served(p, s), Response(s.client.cursor, page));
  }

  lemma ServedKeeps(p: Setup, s: Sys)
    requires ClientInv(p, s) && NoGap(p, s)
    ensures var s' := Served(p, s);
            && ClientInv(p, s') && NoGap(p, s') && s'.server == s.server
            && s'.client == s.client.(asked := s'.client.asked, answers := s'.client.answers)
            && Response(s.client.cursor, Page(s.server.table, p.conv, s.client.cursor)) in s'.client.answers
  {
    var s1 := Do(p, s, Ask);
    ClientKept(p, s, Ask);
    StepKeepsNoGapIff(p, s, Ask);
    ClientKept(p, s1, Serve(s.client.cursor));
    StepKeepsNoGapIff(p, s1, Serve(s.client.cursor));
  }

  /** An answer that arrives before anything else happens breaks nothing. */
  lemma FreshAnswerKeeps(p: Setup, s: Sys, a: Response)
    requires ClientInv(p, s) && NoGap(p, s) && a in s.client.answers && a.page != []
    requires a.after == s.client.cursor && !AnswerSkips(p, s, a.page)
    ensures var s' := Do(p, s, Answer(a));
            && ClientInv(p, s') && NoGap(p, s') && s'.server == s.server && s'.client.start == s.client.start
            && s'.client.cursor == a.page[|a.page| - 1].id
  {
    assert AnswerOk(p, s, a);
    assert a.page[|a.page| - 1] in a.page;
    AnswerKept(p, s, a);
    AnswerStepIff(p, s, a);
  }

  lemma PageSkipsNothing(p: Setup, s: Sys, page: seq<Message>)
    requires Sorted(s.server.table) && page == Page(s.server.table, p.conv, s.client.cursor) && page != []
    ensures !AnswerSkips(p, s, page)
  {
    PageMeaning(s.server.table, p.conv, s.client.cursor);
  }

  /** What the client shows: the messages it holds above its starting cursor, in ID order. */
  ghost predicate IsView(c: Client, view: seq<Message>) {
    Sorted(view) && forall m :: m in view <==> m in c.held && m.id > c.start
  }

  /** Convergence: any two clients of a channel that started from the same cursor, have no gap and find
      nothing more to sync show the same sequence, the stored history, whatever their policies and the
      frames each of them happened to receive. */
  lemma ViewsConverge(p: Setup, s: Sys, v: seq<Message>, p': Setup, s': Sys, v': seq<Message>)
    requires ClientInv(p, s) && NoGap(p, s) && ClientInv(p', s') && NoGap(p', s')
    requires p.conv == p'.conv && s.server.table == s'.server.table && s.client.start == s'.client.start
    requires History(s.server.table, p.conv, s.client.cursor) == []
    requires History(s'.server.table, p.conv, s'.client.cursor) == []
    requires IsView(s.client, v) && IsView(s'.client, v')
    ensures v == v' == History(s.server.table, p.conv, s.client.start)
  {
    ViewIsHistory(p, s, v);
    ViewIsHistory(p', s', v');
  }

  lemma ViewIsHistory(p: Setup, s: Sys, v: seq<Message>)
    requires ClientInv(p, s) && NoGap(p, s) && IsView(s.client, v)
    requires History(s.server.table, p.conv, s.client.cursor) == []
    ensures v == History(s.server.table, p.conv, s.client.start)
  {
    var t := s.server.table;
    HistoryMeaning(t, p.conv, s.client.start);
    HistoryMeaning(t, p.conv, s.client.cursor);
    forall m ensures m in v <==> m in History(t, p.conv, s.client.start) {
      if OfChannel(p, s, m) && m.id > s.client.start {
        assert m !in History(t, p.conv, s.client.cursor);
      }
      if m in s.client.held { assert OfChannel(p, s, m); }
    }
    SortedUnique(v, History(t, p.conv, s.client.start));
  }
}
