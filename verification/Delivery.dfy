/** What the live path of one session delivers (client.go): that the writer takes the buffer to the wire in
    order, and that a publication which is neither lost by Redis nor dropped reaches the user. */
module Delivery {
  import opened Domain
  import opened LiveStream

  /** The writer is scheduled n times, and no write fails. */
  function Writes(n: nat): seq<Event> {
    seq(n, _ => Write(true))
  }

  /** n turns of a working writer write the first n messages of the buffer, in order, and leave the rest and
      everything else as it was. */
  lemma {:induction false} WriterDrains(s: Session, n: nat)
    requires s.writing
    ensures var s', k := RunEvents(s, Writes(n)), Min(n, |s.buffer|);
            && s'.writing && s'.written == s.written + s.buffer[..k] && s'.buffer == s.buffer[k..]
            && SameListening(s, s') && s'.drops == s.drops
    decreases n
  {
    if n > 0 {
      assert Writes(n)[1..] == Writes(n - 1);
      var s1 := Apply(s, Write(true));
      WriteStep(s);
      WriterDrains(s1, n - 1);
      if s.buffer != [] { Drained(s.written, s.buffer, Min(n, |s.buffer|)); }
    }
  }

  lemma WriteStep(s: Session)
    requires s.writing
    ensures var s' := Apply(s, Write(true));
            && s'.writing && SameListening(s, s') && s'.drops == s.drops
            && (if s.buffer == [] then s'.written == s.written && s'.buffer == []
                else s'.written == s.written + [s.buffer[0]] && s'.buffer == s.buffer[1..])
  {
  }

  lemma Drained<T>(written: seq<T>, buffer: seq<T>, k: nat)
    requires 0 < k <= |buffer|
    ensures (written + [buffer[0]]) + buffer[1..][..k - 1] == written + buffer[..k] && buffer[1..][k - 1..] == buffer[k..]
  {
    assert buffer[..k] == [buffer[0]] + buffer[1..][..k - 1];
  }

  lemma {:induction false} RunAppend(s: Session, a: seq<Event>, b: seq<Event>)
    ensures RunEvents(s, a + b) == RunEvents(RunEvents(s, a), b)
    decreases |a|
  {
    if a == [] {
      assert a + b == b;
    } else {
      assert (a + b)[1..] == a[1..] + b;
      RunAppend(Apply(s, a[0]), a[1..], b);
    }
  }

  /** The writer's turns until the buffer is empty or the write of the failAt-th message fails. */
  function PumpTurns(s: Session, failAt: Option<nat>): seq<Event> {
    if failAt.Some? && failAt.value < |s.buffer| then Writes(failAt.value) + [Write(false)] else Writes(|s.buffer|)
  }

  /** The writer of the interleaved session, running alone, does what the loop of the code does: the same
      messages written, the same left, the failed one gone, and failed exactly when that loop has. */
  lemma WriteIsPump(s: Session, failAt: Option<nat>)
    requires s.writing
    ensures var s', send, failed := RunEvents(s, PumpTurns(s, failAt)), Messages(s.buffer), !RunEvents(s, PumpTurns(s, failAt)).writing;
            && (failed <==> failAt.Some? && failAt.value < |send|)
            && (!failed ==> s'.buffer == [] && Messages(s'.written) == Messages(s.written) + send)
            && (failed ==> Messages(s'.buffer) == send[failAt.value + 1..]
                           && Messages(s'.written) == Messages(s.written) + send[..failAt.value])
  {
    if failAt.Some? && failAt.value < |s.buffer| {
      PumpFails(s, failAt.value);
      assert Messages(s.buffer[failAt.value + 1..]) == Messages(s.buffer)[failAt.value + 1..];
      MessagesAppend(s.written, s.buffer[..failAt.value]);
      assert Messages(s.buffer[..failAt.value]) == Messages(s.buffer)[..failAt.value];
    } else {
      WriterDrains(s, |s.buffer|);
      assert s.buffer[..|s.buffer|] == s.buffer;
      MessagesAppend(s.written, s.buffer);
    }
  }

  lemma MessagesAppend(a: seq<Item>, b: seq<Item>)
    ensures Messages(a + b) == Messages(a) + Messages(b)
  {
  }

  lemma PumpFails(s: Session, k: nat)
    requires s.writing && k < |s.buffer|
    ensures var s' := RunEvents(s, Writes(k) + [Write(false)]);
            !s'.writing && s'.buffer == s.buffer[k + 1..] && s'.written == s.written + s.buffer[..k]
  {
    WriterDrains(s, k);
    RunAppend(s, Writes(k), [Write(false)]);
    OneEvent(RunEvents(s, Writes(k)), Write(false));
    assert s.buffer[k..][1..] == s.buffer[k + 1..];
  }

  lemma OneEvent(s: Session, e: Event)
    ensures RunEvents(s, [e]) == Apply(s, e)
  {
    assert [e][1..] == [];
  }

  /** A writer that has failed writes nothing more, and takes nothing from the buffer. */
  lemma {:induction false} FailedWriterStops(s: Session, es: seq<Event>)
    requires !s.writing
    ensures var s' := RunEvents(s, es); !s'.writing && s'.written == s.written && s'.taken == s.taken && s.buffer <= s'.buffer
    decreases |es|
  {
    if es != [] {
      StoppedStep(s, es[0]);
      FailedWriterStops(Apply(s, es[0]), es[1..]);
    }
  }

  lemma StoppedStep(s: Session, e: Event)
    requires !s.writing
    ensures var s' := Apply(s, e); !s'.writing && s'.written == s.written && s'.taken == s.taken && s.buffer <= s'.buffer
  {
  }

  // -------------------------------------------------------------------- delivery

  /** In the session's buffer or on the wire, oldest first. */
  function Kept(s: Session): seq<Item> {
    s.written + s.buffer
  }

  lemma KeptStep(s: Session, e: Event)
    requires s.writing && |s.buffer| <= SEND_BUFFER && e != Write(false)
    ensures var s' := Apply(s, e);
            && s'.writing && |s'.buffer| <= SEND_BUFFER && |s.drops| <= |s'.drops|
            && |s'.buffer| <= |s.buffer| + |OfferedNow(s, e)|
            && (|s'.drops| == |s.drops| ==> s'.drops == s.drops && Kept(s') == Kept(s) + OfferedNow(s, e))
            && (|s.buffer| < SEND_BUFFER ==> s'.drops == s.drops)
  {
    if e.Receive? && HasNext(s, e.i) {
      BufferHandled(s, e);
    } else if e.Write? && s.buffer != [] {
      assert Kept(s) == (s.written + [s.buffer[0]]) + s.buffer[1..];
    }
  }

  lemma {:induction false} DropsGrow(s: Session, es: seq<Event>)
    requires s.writing && |s.buffer| <= SEND_BUFFER && Write(false) !in es
    ensures |s.drops| <= |RunEvents(s, es).drops|
    decreases |es|
  {
    if es != [] {
      KeptStep(s, es[0]);
      DropsGrow(Apply(s, es[0]), es[1..]);
    }
  }

  /** While no write fails and nothing is dropped, the session keeps exactly what it is offered, in order. */
  lemma {:induction false} KeepsOffered(s: Session, es: seq<Event>)
    requires s.writing && |s.buffer| <= SEND_BUFFER && Write(false) !in es
    requires |RunEvents(s, es).drops| == |s.drops|
    ensures var s' := RunEvents(s, es);
            s'.writing && |s'.buffer| <= SEND_BUFFER && s'.drops == s.drops && Kept(s') == Kept(s) + Offered(s, es)
    decreases |es|
  {
    if es != [] {
      var s1 := Apply(s, es[0]);
      KeptStep(s, es[0]);
      DropsGrow(s1, es[1..]);
      KeepsOffered(s1, es[1..]);
      assert Offered(s, es) == OfferedNow(s, es[0]) + Offered(s1, es[1..]);
      assert (Kept(s) + OfferedNow(s, es[0])) + Offered(s1, es[1..]) == Kept(s) + Offered(s, es);
    }
  }

  /** Nothing is dropped while the buffer has room for everything that is offered, even if the writer is
      never scheduled. */
  lemma {:induction false} RoomForAll(s: Session, es: seq<Event>)
    requires s.writing && |s.buffer| + |Offered(s, es)| <= SEND_BUFFER && Write(false) !in es
    ensures RunEvents(s, es).drops == s.drops
    decreases |es|
  {
    if es != [] {
      KeptStep(s, es[0]);
      NoOfferNoDrop(s, es[0]);
      RoomForAll(Apply(s, es[0]), es[1..]);
    }
  }

  lemma NoOfferNoDrop(s: Session, e: Event)
    requires OfferedNow(s, e) == [] || |s.buffer| < SEND_BUFFER
    ensures Apply(s, e).drops == s.drops
  {
  }

  /** Delivery in order: after any run in which no write fails and nothing is dropped, as many turns of the
      writer as there are messages buffered put on the wire exactly what the buffer held at the start,
      followed by everything the listeners offered. */
  lemma DeliversInOrder(s: Session, es: seq<Event>)
    requires s.writing && |s.buffer| <= SEND_BUFFER && Write(false) !in es
    requires |RunEvents(s, es).drops| == |s.drops|
    ensures var s1 := RunEvents(s, es);
            var s2 := RunEvents(s1, Writes(|s1.buffer|));
            && s2.buffer == [] && s2.written == s.written + s.buffer + Offered(s, es)
            && SameListening(s1, s2)
  {
    KeepsOffered(s, es);
    var s1 := RunEvents(s, es);
    WriterDrains(s1, |s1.buffer|);
  }

  // ------------------------------------------------------------------ room by room

  function OfRoom(items: seq<Item>, room: string): seq<Item> {
    if items == [] then []
    else OfRoom(items[..|items| - 1], room) + (if items[|items| - 1].room == room then [items[|items| - 1]] else [])
  }

  lemma {:induction false} OfRoomAppend(a: seq<Item>, b: seq<Item>, room: string)
    ensures OfRoom(a + b, room) == OfRoom(a, room) + OfRoom(b, room)
  {
    if b == [] {
      assert a + b == a;
    } else {
      assert (a + b)[..|a + b| - 1] == a + b[..|b| - 1];
      OfRoomAppend(a, b[..|b| - 1], room);
    }
  }

  /** What others published in a room, from one position up to another. */
  function Foreign(log: seq<Payload>, room: string, user: string, from: nat, till: nat): seq<Item>
    requires from <= till <= |log|
  {
    if from == till then []
    else Foreign(log, room, user, from, till - 1) +
         (var p := log[till - 1]; if p.Carries? && p.msg.sender != user then [Item(room, till - 1, p.msg)] else [])
  }

  lemma {:induction false} ForeignSplits(log: seq<Payload>, room: string, user: string, from: nat, mid: nat, till: nat)
    requires from <= mid <= till <= |log|
    ensures Foreign(log, room, user, from, till) == Foreign(log, room, user, from, mid) + Foreign(log, room, user, mid, till)
    decreases till
  {
    if mid < till { ForeignSplits(log, room, user, from, mid, till - 1); }
  }

  lemma {:induction false} ForeignPrefix(log: seq<Payload>, more: seq<Payload>, room: string, user: string, from: nat, till: nat)
    requires from <= till <= |log| && log <= more
    ensures Foreign(more, room, user, from, till) == Foreign(log, room, user, from, till)
    decreases till
  {
    if from < till { ForeignPrefix(log, more, room, user, from, till - 1); }
  }

  /** What is published in a room during a run. */
  function PublishedIn(es: seq<Event>, room: string): seq<Payload> {
    if es == [] then [] else PublishedNow(es[0], room) + PublishedIn(es[1..], room)
  }

  function PublishedNow(e: Event, room: string): seq<Payload> {
    if e.Publish? && e.room == room then [e.p] else []
  }

  lemma LogStep(s: Session, e: Event, room: string)
    ensures Log(Apply(s, e), room) == Log(s, room) + PublishedNow(e, room)
  {
    if e.Receive? && HasNext(s, e.i) {
      HandleAdvances(s, e.i);
    }
  }

  /** The log of a room is what was published there. */
  lemma {:induction false} LogRun(s: Session, es: seq<Event>, room: string)
    ensures Log(RunEvents(s, es), room) == Log(s, room) + PublishedIn(es, room)
    decreases |es|
  {
    if es != [] {
      LogStep(s, es[0], room);
      LogRun(Apply(s, es[0]), es[1..], room);
      Chain(Log(s, room), PublishedNow(es[0], room), PublishedIn(es[1..], room),
            Log(Apply(s, es[0]), room), Log(RunEvents(s, es), room));
    }
  }

  lemma Chain<T>(start: seq<T>, a: seq<T>, b: seq<T>, mid: seq<T>, end: seq<T>)
    requires mid == start + a && end == mid + b
    ensures end == start + (a + b)
  {
  }

  /** A listener that hears everything: subscribed, within its log, the only one of its room. */
  ghost predicate Hears(s: Session, i: nat) {
    Standing(s, i) && OneListenerPerRoom(s)
  }

  lemma HearsStep(s: Session, e: Event, i: nat)
    requires Hears(s, i) && e != Miss(i)
    ensures var s', room := Apply(s, e), s.listeners[i].room;
            && Hears(s', i) && s'.listeners[i].room == room && s'.user == s.user
            && s.listeners[i].next <= s'.listeners[i].next <= |Log(s, room)|
            && OfRoom(OfferedNow(s, e), room) ==
               Foreign(Log(s, room), room, s.user, s.listeners[i].next, s'.listeners[i].next)
  {
    PaceStep(s, e, i);
    RoomsStay(s, e);
    OfferedInRoom(s, e, i);
    OfRoomOne(OfferedNow(s, e), s.listeners[i].room);
  }

  lemma OfRoomOne(items: seq<Item>, room: string)
    requires |items| <= 1
    ensures OfRoom(items, room) == if items != [] && items[0].room == room then items else []
  {
    if items != [] { assert OfRoom(items[..0], room) == []; }
  }

  /** What one event offers in the listener's room. */
  lemma OfferedInRoom(s: Session, e: Event, i: nat)
    requires Hears(s, i)
    ensures var l, now := s.listeners[i], OfferedNow(s, e);
            && |now| <= 1
            && if e == Receive(i) && HasNext(s, i) then
                 now == Foreign(Log(s, l.room), l.room, s.user, l.next, l.next + 1) && (now != [] ==> now[0].room == l.room)
               else now != [] ==> now[0].room != l.room
  {
    var l := s.listeners[i];
    if e == Receive(i) && HasNext(s, i) {
      assert Foreign(Log(s, l.room), l.room, s.user, l.next, l.next) == [];
    }
  }

  lemma RoomsStay(s: Session, e: Event)
    ensures var s' := Apply(s, e);
            && s'.user == s.user && |s'.listeners| == |s.listeners|
            && forall k :: 0 <= k < |s.listeners| ==> s'.listeners[k].room == s.listeners[k].room
  {
  }

  /** A listener that misses nothing offers exactly what others published in its room while it went on. */
  lemma {:induction false} OffersItsRoom(s: Session, es: seq<Event>, i: nat)
    requires Hears(s, i) && Miss(i) !in es
    ensures var s', room := RunEvents(s, es), s.listeners[i].room;
            && Hears(s', i) && s'.listeners[i].room == room && s'.user == s.user
            && s.listeners[i].next <= s'.listeners[i].next
            && OfRoom(Offered(s, es), room) ==
               Foreign(Log(s', room), room, s.user, s.listeners[i].next, s'.listeners[i].next)
    decreases |es|
  {
    if es != [] {
      var s1, s', room := Apply(s, es[0]), RunEvents(s, es), s.listeners[i].room;
      HearsStep(s, es[0], i);
      OffersItsRoom(s1, es[1..], i);
      var a, b, c := s.listeners[i].next, s1.listeners[i].next, s'.listeners[i].next;
      LogRun(s, es, room);
      OfRoomAppend(OfferedNow(s, es[0]), Offered(s1, es[1..]), room);
      ForeignPrefix(Log(s, room), Log(s', room), room, s.user, a, b);
      ForeignSplits(Log(s', room), room, s.user, a, b, c);
    }
  }

  /** A listener that is not subscribed yet hands over nothing. */
  lemma {:induction false} SilentUntilSubscribed(s: Session, es: seq<Event>, i: nat)
    requires OneListenerPerRoom(s) && i < |s.listeners| && !s.listeners[i].on && Subscribe(i) !in es
    ensures OfRoom(Offered(s, es), s.listeners[i].room) == []
    ensures i < |RunEvents(s, es).listeners| && RunEvents(s, es).listeners[i] == s.listeners[i]
    decreases |es|
  {
    if es != [] {
      var s1, room := Apply(s, es[0]), s.listeners[i].room;
      RoomsStay(s, es[0]);
      OffStep(s, es[0], i);
      SilentUntilSubscribed(s1, es[1..], i);
      OfRoomOne(OfferedNow(s, es[0]), room);
      OfRoomAppend(OfferedNow(s, es[0]), Offered(s1, es[1..]), room);
    }
  }

  lemma OffStep(s: Session, e: Event, i: nat)
    requires OneListenerPerRoom(s) && i < |s.listeners| && !s.listeners[i].on && e != Subscribe(i)
    ensures var now := OfferedNow(s, e); |now| <= 1 && (now != [] ==> now[0].room != s.listeners[i].room)
    ensures i < |Apply(s, e).listeners| && Apply(s, e).listeners[i] == s.listeners[i]
  {
    if e.Receive? && HasNext(s, e.i) { HandleAdvances(s, e.i); }
  }

  /** What is published is delivered: a listener subscribes; messages are published during `es` while anything
      else happens; during `later` it gets as many turns as there were publications. If Redis loses none
      of its payloads, no write fails and the buffer never overflows, then the frames of its room that
      reach the wire after those already under way are exactly the other users' publications since it
      subscribed, in order, each once, and they include everything published during `es`. */
  lemma PublishedIsWritten(s: Session, es: seq<Event>, later: seq<Event>, i: nat)
    requires OneListenerPerRoom(s) && i < |s.listeners| && !s.listeners[i].on
    requires s.writing && |s.buffer| <= SEND_BUFFER
    requires Miss(i) !in es + later && Write(false) !in es + later
    requires Turns(later, i) >= |PublishedIn(es, s.listeners[i].room)|
    requires |RunEvents(Apply(s, Subscribe(i)), es + later).drops| == |s.drops|
    ensures var s2, room := RunEvents(Apply(s, Subscribe(i)), es + later), s.listeners[i].room;
            var s3 := RunEvents(s2, Writes(|s2.buffer|));
            var log, from := Log(s, room) + PublishedIn(es + later, room), |Log(s, room)|;
            && i < |s3.listeners| && s3.listeners[i].room == room
            && var till := s3.listeners[i].next;
               && from + |PublishedIn(es, room)| <= till <= |log|
               && OfRoom(s3.written, room) == OfRoom(s.written + s.buffer, room) + Foreign(log, room, s.user, from, till)
  {
    var s0, room := Apply(s, Subscribe(i)), s.listeners[i].room;
    var s1, s2 := RunEvents(s0, es), RunEvents(s0, es + later);
    assert Hears(s0, i) && s0.listeners[i].next == |Log(s, room)|;
    LogRun(s0, es + later, room);
    DeliversInOrder(s0, es + later);
    OffersItsRoom(s0, es + later, i);
    OfRoomAppend(s.written + s.buffer, Offered(s0, es + later), room);
    RunAppend(s0, es, later);
    OffersItsRoom(s0, es, i);
    LogRun(s0, es, room);
    ListenerKeepsPace(s1, later, i);
  }
}
