/** The live path of one session (client.go): one listener per channel feeds a bounded buffer without
    ever blocking, and one writer drains it. */
module LiveStream {
  import opened Domain

  const SEND_BUFFER: nat := 256

  /** A Redis payload: a message, or text that does not parse as one. */
  datatype Payload = Junk | Carries(msg: Message)

  // ------------------------------------------------------------- one session's code

  /** What one iteration of listenToRedis leaves in the buffer. */
  function Offer(buffer: seq<Message>, user: string, p: Payload): seq<Message> {
    if p.Carries? && p.msg.sender != user && |buffer| < SEND_BUFFER then buffer + [p.msg] else buffer
  }

  function OfferAll(buffer: seq<Message>, user: string, ps: seq<Payload>): seq<Message> {
    if ps == [] then buffer else Offer(OfferAll(buffer, user, ps[..|ps| - 1]), user, ps[|ps| - 1])
  }

  /** The messages meant for the user: parsed, and not the user's own. */
  function ForUser(user: string, ps: seq<Payload>): seq<Message> {
    if ps == [] then []
    else ForUser(user, ps[..|ps| - 1]) +
         (var p := ps[|ps| - 1]; if p.Carries? && p.msg.sender != user then [p.msg] else [])
  }

  /** Overflow drops the newest: with the writer idle, the buffer takes exactly as many of the user's
      messages as it has room for, the earliest ones, in order. */
  lemma {:induction false} OfferAllKeepsEarliest(buffer: seq<Message>, user: string, ps: seq<Payload>)
    requires |buffer| <= SEND_BUFFER
    ensures var wanted := ForUser(user, ps);
            var room := 256 - |buffer|;
            OfferAll(buffer, user, ps) == buffer + (if |wanted| <= room then wanted else wanted[..room])
  {
    if ps != [] {
      OfferAllKeepsEarliest(buffer, user, ps[..|ps| - 1]);
    }
  }

  class Client {
    const userID: string
    var send: seq<Message>
    var written: seq<Message>

    constructor (userID: string)
      ensures this.userID == userID && send == [] && written == []
    {
      this.userID := userID;
      send, written := [], [];
    }

    /** listenToRedis, for the payloads that arrive while no other goroutine runs. */
    method ListenToRedis(payloads: seq<Payload>)
      requires |send| <= SEND_BUFFER
      modifies this`send
      ensures send == OfferAll(old(send), userID, payloads) && |send| <= SEND_BUFFER
      ensures old(send) <= send
    {
      for i := 0 to |payloads|
        invariant send == OfferAll(old(send), userID, payloads[..i]) && |send| <= SEND_BUFFER
        invariant old(send) <= send
      {
        assert payloads[..i + 1][..i] == payloads[..i];
        match payloads[i]
        case Junk => continue;
        case Carries(domainMsg) =>
          if domainMsg.sender == userID {
            continue;
          }
          if |send| < SEND_BUFFER {
            send := send + [domainMsg];
          }
      }
      assert payloads[..|payloads|] == payloads;
    }

    /** writePump, draining the buffer until it is empty or a write fails; the failed message is gone. */
    method WritePump(failAt: Option<nat>) returns (failed: bool)
      modifies this`send, this`written
      ensures failed <==> failAt.Some? && failAt.value < |old(send)|
      ensures !failed ==> send == [] && written == old(written) + old(send)
      ensures failed ==> send == old(send)[failAt.value + 1..] && written == old(written) + old(send)[..failAt.value]
    {
      var n := 0;
      while send != []
        invariant n <= |old(send)| && send == old(send)[n..] && written == old(written) + old(send)[..n]
        invariant failAt.Some? ==> n <= failAt.value
        decreases |send|
      {
        var message := send[0];
        send := send[1..];
        if failAt == Some(n) {
          return true;
        }
        written := written + [message];
        n := n + 1;
      }
      failed := false;
    }
  }

  // ------------------------------------------------------- all goroutines interleaved

  /** A message on its way through the session, with the publication it came from. */
  datatype Item = Item(room: string, pos: nat, msg: Message)

  /** A listener and the next publication of its room that it will be handed. */
  datatype Listener = Listener(room: string, next: nat, on: bool)

  type Place = (string, nat)

  datatype Session = Session(
    user: string,
    logs: map<string, seq<Payload>>,  // everything published, room by room
    listeners: seq<Listener>,
    buffer: seq<Item>, taken: seq<Item>, written: seq<Item>, writing: bool,
    received: seq<Place>, junk: seq<Place>, echoes: seq<Place>, drops: seq<Place>)

  datatype Event =
    | Publish(room: string, p: Payload)
    | Subscribe(i: nat)
    | Miss(i: nat)     // Redis loses the listener's next payload
    | Receive(i: nat)  // the listener handles its next payload
    | Write(ok: bool)  // the writer takes a message and writes it

  function Log(s: Session, room: string): seq<Payload> {
    if room in s.logs then s.logs[room] else []
  }

  predicate HasNext(s: Session, i: nat) {
    i < |s.listeners| && s.listeners[i].on && s.listeners[i].next < |Log(s, s.listeners[i].room)|
  }

  function Advance(s: Session, i: nat): Session
    requires i < |s.listeners|
  {
    s.(listeners := s.listeners[i := s.listeners[i].(next := s.listeners[i].next + 1)])
  }

  function Handle(s: Session, i: nat): Session
    requires HasNext(s, i)
  {
    var l := s.listeners[i];
    var p := Log(s, l.room)[l.next];
    var here := [(l.room, l.next)];
    var s1 := Advance(s, i).(received := s.received + here);
    if p.Junk? then s1.(junk := s.junk + here)
    else if p.msg.sender == s.user then s1.(echoes := s.echoes + here)
    else if |s.buffer| < SEND_BUFFER then s1.(buffer := s.buffer + [Item(l.room, l.next, p.msg)])
    else s1.(drops := s.drops + here)
  }

  function DoWrite(s: Session, ok: bool): Session {
    if !s.writing || s.buffer == [] then s
    else
      var s1 := s.(buffer := s.buffer[1..], taken := s.taken + [s.buffer[0]]);
      if ok then s1.(written := s.written + [s.buffer[0]]) else s1.(writing := false)
  }

  function Apply(s: Session, e: Event): Session {
    match e
    case Publish(room, p) => s.(logs := s.logs[room := Log(s, room) + [p]])
    case Subscribe(i) =>
      if i < |s.listeners| && !s.listeners[i].on then
        s.(listeners := s.listeners[i := Listener(s.listeners[i].room, |Log(s, s.listeners[i].room)|, true)])
      else s
    case Miss(i) => if HasNext(s, i) then Advance(s, i) else s
    case Receive(i) => if HasNext(s, i) then Handle(s, i) else s
    case Write(ok) => DoWrite(s, ok)
  }

  function RunEvents(s: Session, es: seq<Event>): Session
    decreases |es|
  {
    if es == [] then s else RunEvents(Apply(s, es[0]), es[1..])
  }

  /** A session whose channel list was loaded; its listeners are not yet subscribed. */
  function Start(user: string, rooms: seq<string>): Session {
    Session(user, map[], seq(|rooms|, i requires 0 <= i < |rooms| => Listener(rooms[i], 0, false)),
            [], [], [], true, [], [], [], [])
  }

  // ------------------------------------------------------------------ invariants

  ghost predicate OneListenerPerRoom(s: Session) {
    forall i, j :: 0 <= i < j < |s.listeners| ==> s.listeners[i].room != s.listeners[j].room
  }

  /** Everything that left a listener, oldest first. */
  function Passed(s: Session): seq<Item> {
    s.taken + s.buffer
  }

  ghost predicate ItemOk(s: Session, x: Item) {
    && x.pos < |Log(s, x.room)| && Log(s, x.room)[x.pos] == Carries(x.msg) && x.msg.sender != s.user
    && forall i :: 0 <= i < |s.listeners| && s.listeners[i].room == x.room ==> x.pos < s.listeners[i].next
  }

  ghost predicate InRoomOrder(items: seq<Item>) {
    forall a, b :: 0 <= a < b < |items| && items[a].room == items[b].room ==> items[a].pos < items[b].pos
  }

  ghost predicate FlowInv(s: Session) {
    && OneListenerPerRoom(s)
    && (forall i :: 0 <= i < |s.listeners| ==> s.listeners[i].next <= |Log(s, s.listeners[i].room)|)
    && (forall k :: 0 <= k < |Passed(s)| ==> ItemOk(s, Passed(s)[k]))
    && InRoomOrder(Passed(s))
    && |s.buffer| <= SEND_BUFFER
    && s.written <= s.taken && (s.writing ==> s.written == s.taken)
  }

  /** The listeners only move forward, within logs that only grow. */
  ghost predicate MovesOn(s: Session, s': Session) {
    && s'.user == s.user && |s'.listeners| == |s.listeners|
    && (forall r :: Log(s, r) <= Log(s', r))
    && forall i :: 0 <= i < |s.listeners| ==>
         && s'.listeners[i].room == s.listeners[i].room
         && s.listeners[i].next <= s'.listeners[i].next <= |Log(s', s.listeners[i].room)|
  }

  /** Moving on without adding a message keeps the invariant. */
  lemma MovingOnKeeps(s: Session, s': Session)
    requires FlowInv(s) && MovesOn(s, s') && Passed(s') == Passed(s)
    requires |s'.buffer| <= SEND_BUFFER && s'.written <= s'.taken && (s'.writing ==> s'.written == s'.taken)
    ensures FlowInv(s')
  {
    forall k | 0 <= k < |Passed(s')| ensures ItemOk(s', Passed(s')[k]) {
      assert ItemOk(s, Passed(s)[k]);
      assert Log(s, Passed(s)[k].room) <= Log(s', Passed(s)[k].room);
    }
  }

  lemma FlowKept(s: Session, e: Event)
    requires FlowInv(s)
    ensures FlowInv(Apply(s, e))
  {
    if e.Receive? && HasNext(s, e.i) {
      HandleKeeps(s, e.i);
    } else {
      if e.Write? && s.writing && s.buffer != [] {
        assert s.taken + s.buffer == (s.taken + [s.buffer[0]]) + s.buffer[1..];
      }
      QuietMovesOn(s, e);
      MovingOnKeeps(s, Apply(s, e));
    }
  }

  lemma QuietMovesOn(s: Session, e: Event)
    requires FlowInv(s) && (e.Receive? ==> !HasNext(s, e.i))
    ensures MovesOn(s, Apply(s, e))
  {
  }

  lemma HandleKeeps(s: Session, i: nat)
    requires FlowInv(s) && HasNext(s, i)
    ensures FlowInv(Handle(s, i))
  {
    var s', moved := Handle(s, i), Advance(s, i);
    AdvanceKeeps(s, i);
    if s'.buffer == s.buffer {
      SameFlow(moved, s');
    } else {
      var x := Item(s.listeners[i].room, s.listeners[i].next, Log(s, s.listeners[i].room)[s.listeners[i].next].msg);
      assert Passed(s') == Passed(s) + [x];
      NewItemOk(s, i, x);
      AddedItem(moved, s', x);
    }
  }

  lemma AdvanceKeeps(s: Session, i: nat)
    requires FlowInv(s) && HasNext(s, i)
    ensures FlowInv(Advance(s, i))
  {
    MovingOnKeeps(s, Advance(s, i));
  }

  lemma SameFlow(s: Session, s': Session)
    requires FlowInv(s)
    requires s' == s.(received := s'.received, junk := s'.junk, echoes := s'.echoes, drops := s'.drops)
    ensures FlowInv(s')
  {
    MovingOnKeeps(s, s');
  }

  lemma NewItemOk(s: Session, i: nat, x: Item)
    requires FlowInv(s) && HasNext(s, i) && x.room == s.listeners[i].room && x.pos == s.listeners[i].next
    requires Log(s, x.room)[x.pos] == Carries(x.msg) && x.msg.sender != s.user
    ensures ItemOk(Advance(s, i), x)
    ensures forall k :: 0 <= k < |Passed(s)| && Passed(s)[k].room == x.room ==> Passed(s)[k].pos < x.pos
  {
    forall k | 0 <= k < |Passed(s)| && Passed(s)[k].room == x.room ensures Passed(s)[k].pos < x.pos {
      assert ItemOk(s, Passed(s)[k]);
    }
  }

  lemma AddedItem(s: Session, s': Session, x: Item)
    requires FlowInv(s) && s'.user == s.user && s'.logs == s.logs && s'.listeners == s.listeners
    requires Passed(s') == Passed(s) + [x] && ItemOk(s, x)
    requires forall k :: 0 <= k < |Passed(s)| && Passed(s)[k].room == x.room ==> Passed(s)[k].pos < x.pos
    requires |s'.buffer| <= SEND_BUFFER && s'.written == s.written && s'.taken == s.taken && s'.writing == s.writing
    ensures FlowInv(s')
  {
    forall k | 0 <= k < |Passed(s')| ensures ItemOk(s', Passed(s')[k]) {
      if k < |Passed(s)| { assert ItemOk(s, Passed(s)[k]); }
    }
  }

  lemma {:induction false} FlowRun(s: Session, es: seq<Event>)
    requires FlowInv(s)
    ensures FlowInv(RunEvents(s, es)) && RunEvents(s, es).user == s.user
    decreases |es|
  {
    if es != [] {
      FlowKept(s, es[0]);
      FlowRun(Apply(s, es[0]), es[1..]);
    }
  }

  /** The frames written for one room are a subsequence of that room's publications (their positions rise
      strictly, so none comes twice), each carries what was published there, none was sent by the user,
      and none is of a room without a listener. */
  ghost predicate AtMostOnce(s: Session) {
    && InRoomOrder(s.written)
    && forall k :: 0 <= k < |s.written| ==>
         var x := s.written[k];
         && x.pos < |Log(s, x.room)| && Log(s, x.room)[x.pos] == Carries(x.msg) && x.msg.sender != s.user
         && x.room in Rooms(s)
  }

  function Rooms(s: Session): seq<string> {
    seq(|s.listeners|, i requires 0 <= i < |s.listeners| => s.listeners[i].room)
  }

  /** The live path, for any number of listeners and any scheduling. */
  lemma LivePathAtMostOnce(user: string, rooms: seq<string>, es: seq<Event>)
    requires Distinct(rooms)
    ensures var s := RunEvents(Start(user, rooms), es); AtMostOnce(s) && s.user == user && Rooms(s) == rooms
  {
    var s0 := Start(user, rooms);
    assert Rooms(s0) == rooms;
    FlowRun(s0, es);
    RoomsRun(s0, es);
    WrittenOk(RunEvents(s0, es));
  }

  lemma WrittenOk(s: Session)
    requires FlowInv(s) && FromListeners(s)
    ensures AtMostOnce(s)
  {
    forall k | 0 <= k < |s.written| ensures s.written[k] == Passed(s)[k] && ItemOk(s, s.written[k]) {
      assert s.written[k] == s.taken[k];
      assert ItemOk(s, Passed(s)[k]);
    }
  }

  /** Everything that passed a listener is of a room with a listener. */
  ghost predicate FromListeners(s: Session) {
    forall k :: 0 <= k < |Passed(s)| ==> Passed(s)[k].room in Rooms(s)
  }

  lemma RoomsKept(s: Session, e: Event)
    requires FromListeners(s)
    ensures FromListeners(Apply(s, e)) && Rooms(Apply(s, e)) == Rooms(s)
  {
    if e.Receive? && HasNext(s, e.i) {
      RoomsHandled(s, e.i);
    } else {
      QuietPassed(s, e);
      assert Rooms(Apply(s, e)) == Rooms(s);
    }
  }

  lemma RoomsHandled(s: Session, i: nat)
    requires FromListeners(s) && HasNext(s, i)
    ensures FromListeners(Handle(s, i)) && Rooms(Handle(s, i)) == Rooms(s)
  {
    var s', l := Handle(s, i), s.listeners[i];
    assert Rooms(s') == Rooms(s);
    assert l.room in Rooms(s) by { assert Rooms(s)[i] == l.room; }
    if s'.buffer == s.buffer {
      assert Passed(s') == Passed(s);
    } else {
      assert Passed(s') == Passed(s) + [Item(l.room, l.next, s'.buffer[|s.buffer|].msg)];
    }
  }

  lemma {:induction false} RoomsRun(s: Session, es: seq<Event>)
    requires FromListeners(s)
    ensures FromListeners(RunEvents(s, es)) && Rooms(RunEvents(s, es)) == Rooms(s)
    decreases |es|
  {
    if es != [] {
      RoomsKept(s, es[0]);
      RoomsRun(Apply(s, es[0]), es[1..]);
    }
  }

  /** One listener per room is needed: in any state, two subscribed listeners of one room that stand at
      the same publication put it into the buffer twice. */
  lemma DuplicateRoomDeliversTwice(s: Session, i: nat, j: nat)
    requires HasNext(s, i) && HasNext(s, j) && i != j && s.listeners[i] == s.listeners[j]
    requires |s.buffer| + 2 <= SEND_BUFFER
    requires var p := Log(s, s.listeners[i].room)[s.listeners[i].next]; p.Carries? && p.msg.sender != s.user
    ensures var l := s.listeners[i];
            var x := Item(l.room, l.next, Log(s, l.room)[l.next].msg);
            RunEvents(s, [Receive(i), Receive(j)]).buffer == s.buffer + [x, x]
  {
    var s1 := Apply(s, Receive(i));
    assert [Receive(i), Receive(j)][1..] == [Receive(j)] && [Receive(j)][1..] == [];
    assert RunEvents(s, [Receive(i), Receive(j)]) == RunEvents(s1, [Receive(j)]) == Apply(s1, Receive(j));
    assert s1.listeners[j] == s.listeners[j];
  }

  // ---------------------------------------------------------------- conservation

  function Count(places: seq<Place>, p: Place): nat {
    if places == [] then 0
    else Count(places[..|places| - 1], p) + (if places[|places| - 1] == p then 1 else 0)
  }

  lemma {:induction false} CountAppend(a: seq<Place>, b: seq<Place>, p: Place)
    ensures Count(a + b, p) == Count(a, p) + Count(b, p)
  {
    if b == [] {
      assert a + b == a;
    } else {
      assert (a + b)[..|a + b| - 1] == a + b[..|b| - 1];
      CountAppend(a, b[..|b| - 1], p);
    }
  }

  function Places(items: seq<Item>): seq<Place> {
    seq(|items|, i requires 0 <= i < |items| => (items[i].room, items[i].pos))
  }

  /** How often a publication was received is how often it failed to parse, was suppressed, was dropped,
      or was passed on. */
  ghost predicate BalancedAt(s: Session, p: Place) {
    Count(s.received, p) == Count(s.junk, p) + Count(s.echoes, p) + Count(s.drops, p) + Count(Places(Passed(s)), p)
  }

  /** Only a handled payload changes what has passed and what was counted. */
  lemma QuietPassed(s: Session, e: Event)
    requires e.Receive? ==> !HasNext(s, e.i)
    ensures var s' := Apply(s, e);
            && Passed(s') == Passed(s) && s'.received == s.received
            && s'.junk == s.junk && s'.echoes == s.echoes && s'.drops == s.drops
  {
    if e.Write? && s.writing && s.buffer != [] {
      assert s.taken + s.buffer == (s.taken + [s.buffer[0]]) + s.buffer[1..];
    }
  }

  lemma BalanceKept(s: Session, e: Event, p: Place)
    requires BalancedAt(s, p)
    ensures BalancedAt(Apply(s, e), p)
  {
    if e.Receive? && HasNext(s, e.i) {
      BalanceHandled(s, e.i, p);
    } else {
      QuietPassed(s, e);
    }
  }

  lemma BalanceHandled(s: Session, i: nat, p: Place)
    requires BalancedAt(s, p) && HasNext(s, i)
    ensures BalancedAt(Handle(s, i), p)
  {
    var s', here := Handle(s, i), (s.listeners[i].room, s.listeners[i].next);
    HandleShape(s, i);
    CountMore(s.received, s'.received, here, p);
    CountMore(s.junk, s'.junk, here, p);
    CountMore(s.echoes, s'.echoes, here, p);
    CountMore(s.drops, s'.drops, here, p);
    CountMore(Places(Passed(s)), Places(Passed(s')), here, p);
  }

  predicate OneMore(a: seq<Place>, b: seq<Place>, here: Place) {
    b == a + [here]
  }

  /** A received payload has exactly one fate. */
  ghost predicate OneFate(s: Session, s': Session, here: Place) {
    var passed, passed' := Places(Passed(s)), Places(Passed(s'));
    && OneMore(s.received, s'.received, here)
    && (|| (OneMore(s.junk, s'.junk, here) && s'.echoes == s.echoes && s'.drops == s.drops && passed' == passed)
        || (s'.junk == s.junk && OneMore(s.echoes, s'.echoes, here) && s'.drops == s.drops && passed' == passed)
        || (s'.junk == s.junk && s'.echoes == s.echoes && OneMore(s.drops, s'.drops, here) && passed' == passed)
        || (s'.junk == s.junk && s'.echoes == s.echoes && s'.drops == s.drops && OneMore(passed, passed', here)))
  }

  lemma HandleShape(s: Session, i: nat)
    requires HasNext(s, i)
    ensures OneFate(s, Handle(s, i), (s.listeners[i].room, s.listeners[i].next))
  {
    var s', here := Handle(s, i), (s.listeners[i].room, s.listeners[i].next);
    if s'.buffer != s.buffer {
      assert Passed(s') == Passed(s) + [s'.buffer[|s.buffer|]];
      assert Places(Passed(s')) == Places(Passed(s)) + [here];
    }
  }

  lemma CountMore(a: seq<Place>, b: seq<Place>, here: Place, p: Place)
    ensures OneMore(a, b, here) ==> Count(b, p) == Count(a, p) + (if here == p then 1 else 0)
  {
    if OneMore(a, b, here) { assert b[..|b| - 1] == a; }
  }

  lemma {:induction false} BalanceRun(s: Session, es: seq<Event>, p: Place)
    requires BalancedAt(s, p)
    ensures BalancedAt(RunEvents(s, es), p)
    decreases |es|
  {
    if es != [] {
      BalanceKept(s, es[0], p);
      BalanceRun(Apply(s, es[0]), es[1..], p);
    }
  }

  /** Conservation in every reachable session state: at most 256 messages are buffered, and what was
      received is, publication by publication, exactly the parse failures, the suppressed echoes, the
      drops, the buffer and what the writer took. */
  lemma NothingUnaccounted(user: string, rooms: seq<string>, es: seq<Event>, p: Place)
    requires Distinct(rooms)
    ensures var s := RunEvents(Start(user, rooms), es);
            && |s.buffer| <= SEND_BUFFER && FatesOk(s)
            && Count(s.received, p) == Count(s.junk, p) + Count(s.echoes, p) + Count(s.drops, p)
                                       + Count(Places(s.buffer), p) + Count(Places(s.taken), p)
  {
    var s0 := Start(user, rooms);
    FlowRun(s0, es);
    BalanceRun(s0, es, p);
    FatesRun(s0, es);
    PassedSplit(RunEvents(s0, es), p);
  }

  lemma PassedSplit(s: Session, p: Place)
    ensures Count(Places(Passed(s)), p) == Count(Places(s.buffer), p) + Count(Places(s.taken), p)
  {
    assert Places(Passed(s)) == Places(s.taken) + Places(s.buffer);
    CountAppend(Places(s.taken), Places(s.buffer), p);
  }

  function Messages(items: seq<Item>): seq<Message> {
    seq(|items|, i requires 0 <= i < |items| => items[i].msg)
  }

  /** The listener step of the interleaved session does to the buffer what one iteration of the code does. */
  lemma ReceiveIsOffer(s: Session, i: nat)
    requires HasNext(s, i)
    ensures Messages(Apply(s, Receive(i)).buffer) ==
            Offer(Messages(s.buffer), s.user, Log(s, s.listeners[i].room)[s.listeners[i].next])
  {
    var l := s.listeners[i];
    var p := Log(s, l.room)[l.next];
    if p.Carries? {
      assert Messages(s.buffer + [Item(l.room, l.next, p.msg)]) == Messages(s.buffer) + [p.msg];
    }
  }

  /** Only unparsable payloads count as junk, only the user's own messages as echoes, and only messages of
      others as drops. */
  ghost predicate FatesOk(s: Session) {
    && (forall k :: 0 <= k < |s.junk| ==> IsJunk(s, s.junk[k]))
    && (forall k :: 0 <= k < |s.echoes| ==> IsMessage(s, s.echoes[k], true))
    && (forall k :: 0 <= k < |s.drops| ==> IsMessage(s, s.drops[k], false))
  }

  predicate IsJunk(s: Session, p: Place) {
    Published(s, p) && PayloadAt(s, p).Junk?
  }

  predicate IsMessage(s: Session, p: Place, own: bool) {
    Published(s, p) && PayloadAt(s, p).Carries? && (PayloadAt(s, p).msg.sender == s.user) == own
  }

  predicate Published(s: Session, p: Place) {
    p.1 < |Log(s, p.0)|
  }

  function PayloadAt(s: Session, p: Place): Payload
    requires Published(s, p)
  {
    Log(s, p.0)[p.1]
  }

  lemma FatesKept(s: Session, e: Event)
    requires FatesOk(s)
    ensures FatesOk(Apply(s, e))
  {
    var s' := Apply(s, e);
    forall p: Place | Published(s, p) ensures Published(s', p) && PayloadAt(s', p) == PayloadAt(s, p) && s'.user == s.user {
      PayloadStays(s, e, p);
    }
    if e.Receive? && HasNext(s, e.i) { HandledFate(s, e.i); }
  }

  lemma PayloadStays(s: Session, e: Event, p: Place)
    requires Published(s, p)
    ensures var s' := Apply(s, e); Published(s', p) && PayloadAt(s', p) == PayloadAt(s, p) && s'.user == s.user
  {
  }

  lemma HandledFate(s: Session, i: nat)
    requires HasNext(s, i)
    ensures var s', here := Handle(s, i), (s.listeners[i].room, s.listeners[i].next);
            && (s'.junk == s.junk || (s'.junk == s.junk + [here] && IsJunk(s, here)))
            && (s'.echoes == s.echoes || (s'.echoes == s.echoes + [here] && IsMessage(s, here, true)))
            && (s'.drops == s.drops || (s'.drops == s.drops + [here] && IsMessage(s, here, false)))
  {
  }

  lemma {:induction false} FatesRun(s: Session, es: seq<Event>)
    requires FatesOk(s)
    ensures FatesOk(RunEvents(s, es))
    decreases |es|
  {
    if es != [] {
      FatesKept(s, es[0]);
      FatesRun(Apply(s, es[0]), es[1..]);
    }
  }

  // ------------------------------------------------- the writer and the listeners

  /** Two sessions whose listeners have seen and done the same, whatever their writers and buffers. */
  ghost predicate SameListening(s: Session, t: Session) {
    && s.user == t.user && s.logs == t.logs && s.listeners == t.listeners
    && s.received == t.received && s.junk == t.junk && s.echoes == t.echoes
  }

  function WithoutWrites(es: seq<Event>): seq<Event> {
    if es == [] then []
    else (if es[0].Write? then [] else [es[0]]) + WithoutWrites(es[1..])
  }

  lemma SameStep(s: Session, t: Session, e: Event)
    requires SameListening(s, t)
    ensures SameListening(if e.Write? then s else Apply(s, e), Apply(t, e))
  {
    if e.Receive? && HasNext(s, e.i) { SameHandled(s, t, e.i); }
  }

  lemma SameHandled(s: Session, t: Session, i: nat)
    requires SameListening(s, t) && HasNext(s, i)
    ensures HasNext(t, i) && SameListening(Handle(s, i), Handle(t, i))
  {
  }

  lemma {:induction false} WritesUnseen(s: Session, t: Session, es: seq<Event>)
    requires SameListening(s, t)
    ensures SameListening(RunEvents(s, WithoutWrites(es)), RunEvents(t, es))
    decreases |es|
  {
    if es != [] {
      var rest := WithoutWrites(es[1..]);
      SameStep(s, t, es[0]);
      if es[0].Write? {
        assert WithoutWrites(es) == rest;
        WritesUnseen(s, Apply(t, es[0]), es[1..]);
      } else {
        assert WithoutWrites(es)[0] == es[0] && WithoutWrites(es)[1..] == rest;
        WritesUnseen(Apply(s, es[0]), Apply(t, es[0]), es[1..]);
      }
    }
  }

  /** The writer never holds up a listener: two runs that differ in when, how often and how successfully
      the writer ran, and in what the buffers held at the start, leave the listeners at the same places
      with the same payloads handled. */
  lemma WriterNeverDelays(s: Session, t: Session, es: seq<Event>, fs: seq<Event>)
    requires SameListening(s, t) && WithoutWrites(es) == WithoutWrites(fs)
    ensures SameListening(RunEvents(s, es), RunEvents(t, fs))
  {
    WritesUnseen(s, s, es);
    WritesUnseen(s, t, fs);
  }

  /** How often the listener's next payload is handled or lost. */
  function Turns(es: seq<Event>, i: nat): nat {
    if es == [] then 0
    else (if es[0] == Receive(i) || es[0] == Miss(i) then 1 else 0) + Turns(es[1..], i)
  }

  function Min(a: nat, b: nat): nat {
    if a < b then a else b
  }

  /** A subscribed listener that stands within its room's log. */
  predicate Standing(s: Session, i: nat) {
    i < |s.listeners| && s.listeners[i].on && s.listeners[i].next <= |Log(s, s.listeners[i].room)|
  }

  /** In n turns the listener went n places on, or to the end of the log: of the log as it was at least,
      of the log as it is at most. */
  predicate Paced(s: Session, s': Session, i: nat, n: nat)
    requires i < |s.listeners| && i < |s'.listeners|
  {
    var room, target := s.listeners[i].room, s.listeners[i].next + n;
    && s'.listeners[i].room == room
    && Min(target, |Log(s, room)|) <= s'.listeners[i].next <= Min(target, |Log(s', room)|)
  }

  lemma PaceStep(s: Session, e: Event, i: nat)
    requires Standing(s, i)
    ensures var s' := Apply(s, e);
            && Standing(s', i) && s'.listeners[i].room == s.listeners[i].room
            && |Log(s, s.listeners[i].room)| <= |Log(s', s.listeners[i].room)|
            && s'.listeners[i].next == s.listeners[i].next +
                 (if (e == Receive(i) || e == Miss(i)) && s.listeners[i].next < |Log(s, s.listeners[i].room)| then 1 else 0)
  {
    if e.Receive? && HasNext(s, e.i) { HandleAdvances(s, e.i); }
  }

  lemma HandleAdvances(s: Session, i: nat)
    requires HasNext(s, i)
    ensures Handle(s, i).listeners == Advance(s, i).listeners && Handle(s, i).logs == s.logs
  {
  }

  /** A listener keeps pace whatever else happens, the buffer full or not: each of its turns takes it one
      payload further as long as there is one. */
  lemma {:induction false} ListenerKeepsPace(s: Session, es: seq<Event>, i: nat)
    requires Standing(s, i)
    ensures Standing(RunEvents(s, es), i) && Paced(s, RunEvents(s, es), i, Turns(es, i))
    decreases |es|
  {
    if es != [] {
      PaceStep(s, es[0], i);
      ListenerKeepsPace(Apply(s, es[0]), es[1..], i);
      PaceChain(s, Apply(s, es[0]), RunEvents(s, es), i, es[0] == Receive(i) || es[0] == Miss(i), Turns(es[1..], i));
    }
  }

  lemma PaceChain(s: Session, s1: Session, s2: Session, i: nat, turn: bool, n: nat)
    requires Standing(s, i) && Standing(s1, i) && Standing(s2, i) && Paced(s1, s2, i, n)
    requires s1.listeners[i].room == s.listeners[i].room
    requires |Log(s, s.listeners[i].room)| <= |Log(s1, s.listeners[i].room)|
    requires s1.listeners[i].next == s.listeners[i].next +
               (if turn && s.listeners[i].next < |Log(s, s.listeners[i].room)| then 1 else 0)
    ensures Paced(s, s2, i, (if turn then 1 else 0) + n)
  {
  }

  /** The payload a listener is about to handle is somebody else's message. */
  predicate Deliverable(s: Session, e: Event) {
    && e.Receive? && HasNext(s, e.i)
    && var p := Log(s, s.listeners[e.i].room)[s.listeners[e.i].next]; p.Carries? && p.msg.sender != s.user
  }

  /** The messages of others that the listeners hand over during a run, in the order they do. */
  function Offered(s: Session, es: seq<Event>): seq<Item>
    decreases |es|
  {
    if es == [] then [] else OfferedNow(s, es[0]) + Offered(Apply(s, es[0]), es[1..])
  }

  function OfferedNow(s: Session, e: Event): seq<Item> {
    if Deliverable(s, e) then
      var l := s.listeners[e.i]; [Item(l.room, l.next, Log(s, l.room)[l.next].msg)]
    else []
  }

  /** What is offered does not depend on the buffer or the writer. */
  lemma {:induction false} OfferedAlike(s: Session, t: Session, es: seq<Event>)
    requires SameListening(s, t) && forall k :: 0 <= k < |es| ==> !es[k].Write?
    ensures Offered(s, es) == Offered(t, es)
    decreases |es|
  {
    if es != [] {
      SameStep(s, t, es[0]);
      OfferedAlike(Apply(s, es[0]), Apply(t, es[0]), es[1..]);
    }
  }

  /** What fits into a buffer of which n places are taken. */
  function Fitting(n: nat, offered: seq<Item>): seq<Item>
    requires n <= SEND_BUFFER
  {
    if |offered| <= SEND_BUFFER - n then offered else offered[..SEND_BUFFER - n]
  }

  function Overflow(n: nat, offered: seq<Item>): seq<Item>
    requires n <= SEND_BUFFER
  {
    offered[|Fitting(n, offered)|..]
  }

  /** From one buffer and log of drops to the next: the messages offered were appended while they fitted,
      and the others were dropped. */
  ghost predicate Filled(b: seq<Item>, d: seq<Place>, b': seq<Item>, d': seq<Place>, offered: seq<Item>) {
    |b| <= SEND_BUFFER && b' == b + Fitting(|b|, offered) && d' == d + Places(Overflow(|b|, offered))
  }

  lemma BufferStep(s: Session, e: Event)
    requires |s.buffer| <= SEND_BUFFER && !e.Write?
    ensures var s' := Apply(s, e);
            |s'.buffer| <= SEND_BUFFER && Filled(s.buffer, s.drops, s'.buffer, s'.drops, OfferedNow(s, e))
  {
    if e.Receive? && HasNext(s, e.i) { BufferHandled(s, e); }
  }

  lemma BufferHandled(s: Session, e: Event)
    requires |s.buffer| <= SEND_BUFFER && e.Receive? && HasNext(s, e.i)
    ensures var s', l := Handle(s, e.i), s.listeners[e.i];
            if !Deliverable(s, e) then s'.buffer == s.buffer && s'.drops == s.drops
            else if |s.buffer| < SEND_BUFFER then
              s'.buffer == s.buffer + [Item(l.room, l.next, Log(s, l.room)[l.next].msg)] && s'.drops == s.drops
            else s'.buffer == s.buffer && s'.drops == s.drops + [(l.room, l.next)]
  {
  }

  /** While the writer is stuck, any number of listeners, in any order, fill the buffer with the earliest
      messages offered, up to 256, and every later one is dropped. */
  lemma {:induction false} StuckWriterKeepsEarliest(s: Session, es: seq<Event>)
    requires |s.buffer| <= SEND_BUFFER && forall k :: 0 <= k < |es| ==> !es[k].Write?
    ensures Filled(s.buffer, s.drops, RunEvents(s, es).buffer, RunEvents(s, es).drops, Offered(s, es))
    decreases |es|
  {
    if es == [] {
      assert s.buffer + [] == s.buffer && s.drops + Places([]) == s.drops;
    } else {
      var s1, s2 := Apply(s, es[0]), RunEvents(s, es);
      BufferStep(s, es[0]);
      StuckWriterKeepsEarliest(s1, es[1..]);
      FilledChain(s.buffer, s.drops, s1.buffer, s1.drops, s2.buffer, s2.drops, OfferedNow(s, es[0]), Offered(s1, es[1..]));
    }
  }

  lemma FilledChain(b: seq<Item>, d: seq<Place>, b1: seq<Item>, d1: seq<Place>, b2: seq<Item>, d2: seq<Place>,
                    x: seq<Item>, y: seq<Item>)
    requires Filled(b, d, b1, d1, x) && Filled(b1, d1, b2, d2, y)
    ensures Filled(b, d, b2, d2, x + y)
  {
    FittingAppend(|b|, x, y);
    PlacesAppend(Overflow(|b|, x), Overflow(|b1|, y));
    Assoc(b, Fitting(|b|, x), Fitting(|b1|, y));
    Assoc(d, Places(Overflow(|b|, x)), Places(Overflow(|b1|, y)));
  }

  lemma Assoc<T>(a: seq<T>, b: seq<T>, c: seq<T>)
    ensures (a + b) + c == a + (b + c)
  {
  }

  lemma FittingAppend(n: nat, x: seq<Item>, y: seq<Item>)
    requires n <= SEND_BUFFER
    ensures var fx := Fitting(n, x);
            && n + |fx| <= SEND_BUFFER
            && var fy := Fitting(n + |fx|, y);
               Fitting(n, x + y) == fx + fy && Overflow(n, x + y) == Overflow(n, x) + Overflow(n + |fx|, y)
  {
    var room := SEND_BUFFER - n;
    if |x| <= room {
      var k := if |y| <= room - |x| then |y| else room - |x|;
      assert (x + y)[..|x| + k] == x + y[..k] && (x + y)[|x| + k..] == y[k..];
    } else {
      assert (x + y)[..room] == x[..room] + y[..0] && (x + y)[room..] == x[room..] + y;
    }
  }

  lemma PlacesAppend(x: seq<Item>, y: seq<Item>)
    ensures Places(x + y) == Places(x) + Places(y)
  {
  }
}
