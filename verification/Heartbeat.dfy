/** The read side of the Ping/Pong heartbeat (client.go; Ping and Pong are those of sections 5.5.2 and
    5.5.3 of RFC 6455). Times are milliseconds. */
module Heartbeat {
  const PONG_WAIT: int := 60_000
  const PING_PERIOD: int := PONG_WAIT * 9 / 10

  /** Pong frames refresh the deadline, other frames do not, and some end the connection: a close frame,
      a frame over the read limit, a transport error. */
  datatype Kind = Pong | Other | Fatal

  datatype Frame = Frame(at: int, kind: Kind)

  datatype End = TimedOut(deadline: int) | Broken(i: nat) | StillReading(deadline: int)

  ghost predicate InTimeOrder(start: int, frames: seq<Frame>) {
    && (forall i :: 0 <= i < |frames| ==> start <= frames[i].at)
    && (forall i, j :: 0 <= i < j < |frames| ==> frames[i].at <= frames[j].at)
  }

  /** Less than 60 s before u, the loop started or a Pong was handled. */
  ghost predicate Refreshed(start: int, frames: seq<Frame>, u: int) {
    start < u < start + PONG_WAIT
    || exists k :: 0 <= k < |frames| && frames[k].kind.Pong? && frames[k].at < u < frames[k].at + PONG_WAIT
  }

  /** At every moment up to the horizon the last refresh is less than 60 s old. */
  ghost predicate Alive(start: int, frames: seq<Frame>, horizon: int) {
    forall u :: start < u <= horizon ==> Refreshed(start, frames, u)
  }

  ghost predicate NoFatal(frames: seq<Frame>) {
    forall i :: 0 <= i < |frames| ==> !frames[i].kind.Fatal?
  }

  /** The read loop from its i-th frame on, with the deadline then set, observed up to the horizon. */
  function ReadLoop(deadline: int, frames: seq<Frame>, i: nat, horizon: int): End
    requires i <= |frames|
    decreases |frames| - i
  {
    if i == |frames| then
      if horizon >= deadline then TimedOut(deadline) else StillReading(deadline)
    else if frames[i].at >= deadline then TimedOut(deadline)
    else if frames[i].kind.Fatal? then Broken(i)
    else ReadLoop(if frames[i].kind.Pong? then frames[i].at + PONG_WAIT else deadline, frames, i + 1, horizon)
  }

  /** How the loop ended, told without its deadline. */
  ghost predicate EndExplained(start: int, frames: seq<Frame>, horizon: int, end: End) {
    && (end.StillReading? <==> NoFatal(frames) && Alive(start, frames, horizon))
    && (end.TimedOut? ==> end.deadline <= horizon && !Refreshed(start, frames, end.deadline)
                          && Alive(start, frames, end.deadline - 1))
    && (end.Broken? ==> end.i < |frames| && frames[end.i].kind.Fatal? && NoFatal(frames[..end.i])
                        && Alive(start, frames, frames[end.i].at))
  }

  /** The first i frames were read, and the deadline is 60 s after the latest refresh among them. */
  ghost predicate ReadSoFar(start: int, frames: seq<Frame>, i: nat, deadline: int)
    requires i <= |frames|
  {
    && NoFatal(frames[..i]) && start + PONG_WAIT <= deadline
    && (forall k :: 0 <= k < i && frames[k].kind.Pong? ==> frames[k].at + PONG_WAIT <= deadline)
    && forall u :: start < u < deadline ==> Refreshed(start, frames, u)
  }

  lemma {:induction false} LoopExplained(start: int, frames: seq<Frame>, i: nat, deadline: int, horizon: int)
    requires InTimeOrder(start, frames) && start <= horizon
    requires forall k :: 0 <= k < |frames| ==> frames[k].at <= horizon
    requires i <= |frames| && ReadSoFar(start, frames, i, deadline)
    ensures EndExplained(start, frames, horizon, ReadLoop(deadline, frames, i, horizon))
    decreases |frames| - i
  {
    if i == |frames| {
      assert frames[..i] == frames;
      if horizon >= deadline { Expires(start, frames, i, deadline); }
    } else if frames[i].at >= deadline {
      Expires(start, frames, i, deadline);
    } else if !frames[i].kind.Fatal? {
      assert frames[..i + 1] == frames[..i] + [frames[i]];
      LoopExplained(start, frames, i + 1, if frames[i].kind.Pong? then frames[i].at + PONG_WAIT else deadline, horizon);
    }
  }

  /** readPump, observed up to the horizon: it is still reading exactly when no frame was fatal and no
      60 s passed without a Pong; it times out at the first moment without a refresh. */
  method ReadPump(start: int, frames: seq<Frame>, horizon: int) returns (end: End)
    requires InTimeOrder(start, frames) && start <= horizon
    requires forall i :: 0 <= i < |frames| ==> frames[i].at <= horizon
    ensures end == ReadLoop(start + PONG_WAIT, frames, 0, horizon)
    ensures EndExplained(start, frames, horizon, end)
  {
    LoopExplained(start, frames, 0, start + PONG_WAIT, horizon);
    var deadline := start + PONG_WAIT;
    for i := 0 to |frames|
      invariant ReadLoop(deadline, frames, i, horizon) == ReadLoop(start + PONG_WAIT, frames, 0, horizon)
    {
      if frames[i].at >= deadline {
        return TimedOut(deadline);
      }
      if frames[i].kind.Fatal? {
        return Broken(i);
      }
      if frames[i].kind.Pong? {
        deadline := frames[i].at + PONG_WAIT;
      }
    }
    end := if horizon >= deadline then TimedOut(deadline) else StillReading(deadline);
  }

  /** The moment of the deadline has no refresh when nothing before it reaches that far. */
  lemma Expires(start: int, frames: seq<Frame>, i: nat, deadline: int)
    requires InTimeOrder(start, frames) && i <= |frames| && start + PONG_WAIT <= deadline
    requires forall k :: 0 <= k < i && frames[k].kind.Pong? ==> frames[k].at + PONG_WAIT <= deadline
    requires i < |frames| ==> deadline <= frames[i].at
    ensures !Refreshed(start, frames, deadline)
  {
    forall k | 0 <= k < |frames| && frames[k].kind.Pong? ensures !(frames[k].at < deadline < frames[k].at + PONG_WAIT) {
      if k >= i { assert frames[i].at <= frames[k].at; }
    }
  }

  /** 60 s without a Pong end the read loop, whatever other frames arrive before, during and after. */
  lemma SilenceEndsLoop(start: int, frames: seq<Frame>, horizon: int, from: int)
    requires start <= from && from + 60_000 <= horizon
    requires forall k :: 0 <= k < |frames| && frames[k].kind.Pong? ==> !(from < frames[k].at < from + 60_000)
    ensures !ReadLoop(start + PONG_WAIT, frames, 0, horizon).StillReading?
  {
    SilenceEndsRest(start + PONG_WAIT, frames, 0, horizon, from);
  }

  lemma {:induction false} SilenceEndsRest(deadline: int, frames: seq<Frame>, i: nat, horizon: int, from: int)
    requires i <= |frames| && deadline <= from + PONG_WAIT <= horizon
    requires forall k :: 0 <= k < |frames| && frames[k].kind.Pong? ==> !(from < frames[k].at < from + PONG_WAIT)
    ensures !ReadLoop(deadline, frames, i, horizon).StillReading?
    decreases |frames| - i
  {
    if i < |frames| && frames[i].at < deadline && !frames[i].kind.Fatal? {
      SilenceEndsRest(if frames[i].kind.Pong? then frames[i].at + PONG_WAIT else deadline, frames, i + 1, horizon, from);
    }
  }

  /** The Pongs answering the ticks of a ticker started at `ticker`: the k-th, counted from 0, is handled
      at most `delay` after tick k + 1. */
  ghost predicate AnswersTicks(ticker: int, delay: int, pongs: seq<int>) {
    forall k :: 0 <= k < |pongs| ==>
      0 <= pongs[k] - (ticker + (k + 1) * PING_PERIOD) <= delay
  }

  /** Heartbeat: if every tick's Pong is handled within a delay below 6 s, and the ticker's start lag plus
      that delay is below 6 s, then for any number of rounds the deadline never expires until 60 s after
      the last Pong, whatever other frames arrive in between. */
  lemma {:induction false} HeartbeatNeverExpires(start: int, ticker: int, delay: int, pongs: seq<int>, frames: seq<Frame>, horizon: int)
    requires delay < PONG_WAIT - PING_PERIOD && ticker - start + delay < PONG_WAIT - PING_PERIOD
    requires pongs != [] && AnswersTicks(ticker, delay, pongs)
    requires forall k :: 0 <= k < |pongs| ==> exists i :: 0 <= i < |frames| && frames[i] == Frame(pongs[k], Pong)
    requires horizon < pongs[|pongs| - 1] + PONG_WAIT
    ensures Alive(start, frames, horizon)
    decreases |pongs|
  {
    var n := |pongs| - 1;
    forall u | start < u <= horizon ensures Refreshed(start, frames, u) {
      if u > pongs[n] {
        var i :| 0 <= i < |frames| && frames[i] == Frame(pongs[n], Pong);
        assert frames[i].at < u < frames[i].at + PONG_WAIT;
      } else if n > 0 {
        assert pongs[n] < pongs[n - 1] + PONG_WAIT by {
          assert (n + 1) * PING_PERIOD == n * PING_PERIOD + PING_PERIOD;
        }
        HeartbeatNeverExpires(start, ticker, delay, pongs[..n], frames, u);
      }
    }
  }

  /** A connection whose every tick is answered within the delay, seen up to 60 s after the last answer;
      other frames may come in between, none of them fatal. */
  ghost predicate Prompt(start: int, ticker: int, delay: int, pongs: seq<int>, frames: seq<Frame>, horizon: int) {
    && pongs != [] && AnswersTicks(ticker, delay, pongs)
    && (forall k :: 0 <= k < |pongs| ==> exists i :: 0 <= i < |frames| && frames[i] == Frame(pongs[k], Pong))
    && InTimeOrder(start, frames) && NoFatal(frames)
    && start <= horizon < pongs[|pongs| - 1] + PONG_WAIT && forall i :: 0 <= i < |frames| ==> frames[i].at <= horizon
  }

  /** The bounds are exact: prompt connections are all still reading if and only if the delay, and the
      ticker's start lag with it, are below 6 s. */
  lemma HeartbeatBoundExact(start: int, ticker: int, delay: int)
    requires 0 <= delay && start <= ticker + PING_PERIOD
    ensures (forall pongs, frames, horizon :: Prompt(start, ticker, delay, pongs, frames, horizon) ==>
               ReadLoop(start + PONG_WAIT, frames, 0, horizon).StillReading?)
       <==> delay < 6_000 && ticker - start + delay < 6_000
  {
    if ticker - start + delay >= PONG_WAIT - PING_PERIOD {
      var pongs, frames := LateFirst(start, ticker, delay);
    } else if delay >= PONG_WAIT - PING_PERIOD {
      var pongs, frames := LateSecond(start, ticker, delay);
    } else {
      forall pongs, frames, horizon | Prompt(start, ticker, delay, pongs, frames, horizon)
        ensures ReadLoop(start + PONG_WAIT, frames, 0, horizon).StillReading?
      {
        HeartbeatNeverExpires(start, ticker, delay, pongs, frames, horizon);
        LoopExplained(start, frames, 0, start + PONG_WAIT, horizon);
      }
    }
  }

  /** A first Pong that comes 60 s after the loop started. */
  lemma LateFirst(start: int, ticker: int, delay: int) returns (pongs: seq<int>, frames: seq<Frame>)
    requires 0 <= delay && ticker - start + delay >= PONG_WAIT - PING_PERIOD
    ensures pongs != [] && Prompt(start, ticker, delay, pongs, frames, pongs[|pongs| - 1])
    ensures ReadLoop(start + PONG_WAIT, frames, 0, pongs[|pongs| - 1]) == TimedOut(start + PONG_WAIT)
  {
    var pong := ticker + PING_PERIOD + delay;
    pongs, frames := [pong], [Frame(pong, Pong)];
    assert frames[0] == Frame(pongs[0], Pong);
  }

  /** A prompt first Pong and a second one 60 s after it. */
  lemma LateSecond(start: int, ticker: int, delay: int) returns (pongs: seq<int>, frames: seq<Frame>)
    requires delay >= PONG_WAIT - PING_PERIOD && start - PING_PERIOD <= ticker < start + PONG_WAIT - PING_PERIOD
    ensures pongs != [] && Prompt(start, ticker, delay, pongs, frames, pongs[|pongs| - 1])
    ensures ReadLoop(start + PONG_WAIT, frames, 0, pongs[|pongs| - 1]) == TimedOut(pongs[0] + PONG_WAIT)
  {
    var first, second := ticker + PING_PERIOD, ticker + 2 * PING_PERIOD + delay;
    pongs, frames := [first, second], [Frame(first, Pong), Frame(second, Pong)];
    assert frames[0] == Frame(pongs[0], Pong) && frames[1] == Frame(pongs[1], Pong);
    assert ReadLoop(first + PONG_WAIT, frames, 1, second) == TimedOut(first + PONG_WAIT);
  }
}
