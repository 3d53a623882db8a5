/** shared/snowflake/snowflake.go: the 64-bit word layout and the stateful generator. */
module Snowflake {
  import opened Domain
  import opened Bits

  const WORKERS: nat := 1024        // maxWorkerID + 1
  const SEQUENCES: nat := 4096      // maxSequence + 1
  const STAMP_UNIT: nat := 0x40_0000  // 2^timestampShift
  const STAMPS: nat := 0x200_0000_0000  // 2^41: the documented timestamp field

  // ---------------------------------------------------------------- the word

  /** The word packed by the last line of Next: three fields combined with shifts and OR. */
  function Pack(now: int, worker: nat, sequence: nat): nat {
    BitOr(BitOr(Shl64(now, 22), Shl64(worker, 12)), sequence)
  }

  function StampOf(id: nat): nat { id / STAMP_UNIT }

  function WorkerOf(id: nat): nat { id / SEQUENCES % WORKERS }

  function SequenceOf(id: nat): nat { id % SEQUENCES }

  /** A clock reading inside the documented 41-bit field. */
  predicate InRange(t: int) {
    0 <= t < STAMPS
  }

  /** The word is the positional sum of its fields for every reading whatsoever; a reading outside
      the field is reduced modulo 2^42, as the 64-bit shift does. */
  lemma PackIsSum(now: int, worker: nat, sequence: nat)
    requires worker < WORKERS && sequence < SEQUENCES
    ensures Pack(now, worker, sequence) == (now % (2 * STAMPS)) * STAMP_UNIT + worker * SEQUENCES + sequence
    ensures Pack(now, worker, sequence) < WORD
  {
    assert Pow2(22) == STAMP_UNIT && Pow2(12) == SEQUENCES && Pow2(10) == WORKERS;
    var ts := now % (2 * STAMPS);
    assert Shl64(now, 22) == ts * STAMP_UNIT;
    assert Shl64(worker, 12) == worker * SEQUENCES;
    OrDisjoint(ts, worker * SEQUENCES, 22);
    var high := ts * WORKERS + worker;
    assert ts * STAMP_UNIT + worker * SEQUENCES == high * SEQUENCES;
    OrDisjoint(high, sequence, 12);
  }

  lemma PackInRange(now: int, worker: nat, sequence: nat)
    requires InRange(now) && worker < WORKERS && sequence < SEQUENCES
    ensures Pack(now, worker, sequence) == now * STAMP_UNIT + worker * SEQUENCES + sequence
  {
    PackIsSum(now, worker, sequence);
  }

  lemma SumFields(id: nat, ts: nat, worker: nat, sequence: nat)
    requires worker < WORKERS && sequence < SEQUENCES
    requires id == ts * STAMP_UNIT + worker * SEQUENCES + sequence
    ensures StampOf(id) == ts && WorkerOf(id) == worker && SequenceOf(id) == sequence
  {
    assert id / SEQUENCES == ts * WORKERS + worker;
  }

  lemma SumOrder(id1: nat, t1: nat, w1: nat, s1: nat, id2: nat, t2: nat, w2: nat, s2: nat)
    requires w1 < WORKERS && s1 < SEQUENCES && id1 == t1 * STAMP_UNIT + w1 * SEQUENCES + s1
    requires w2 < WORKERS && s2 < SEQUENCES && id2 == t2 * STAMP_UNIT + w2 * SEQUENCES + s2
    ensures id1 < id2 <==> (t1 < t2 || (t1 == t2 && (w1 < w2 || (w1 == w2 && s1 < s2))))
  {
  }

  /** Packing a reading of the 41-bit field leaves the sign bit clear and loses nothing. */
  lemma PackRoundTrip(now: int, worker: nat, sequence: nat)
    requires InRange(now) && worker < WORKERS && sequence < SEQUENCES
    ensures var id := Pack(now, worker, sequence);
            && StampOf(id) == now && WorkerOf(id) == worker && SequenceOf(id) == sequence
            && id < WORD / 2
  {
    PackInRange(now, worker, sequence);
    SumFields(Pack(now, worker, sequence), now, worker, sequence);
  }

  /** Words compare as their (stamp, worker, sequence) triples do, lexicographically. */
  lemma PackOrder(t1: int, w1: nat, s1: nat, t2: int, w2: nat, s2: nat)
    requires InRange(t1) && w1 < WORKERS && s1 < SEQUENCES
    requires InRange(t2) && w2 < WORKERS && s2 < SEQUENCES
    ensures Pack(t1, w1, s1) < Pack(t2, w2, s2) <==>
            (t1 < t2 || (t1 == t2 && (w1 < w2 || (w1 == w2 && s1 < s2))))
  {
    PackInRange(t1, w1, s1);
    PackInRange(t2, w2, s2);
    SumOrder(Pack(t1, w1, s1), t1, w1, s1, Pack(t2, w2, s2), t2, w2, s2);
  }

  // ------------------------------------------- the generator, reading by reading

  /** The generator between two clock readings. `spinning` holds while a call is inside the wait loop. */
  datatype Gen = Gen(worker: nat, sequence: nat, last: int, spinning: bool)

  /** What one identifier occupies: a stamp and a sequence number. */
  datatype Slot = Slot(stamp: int, sequence: nat)

  ghost predicate ValidGen(g: Gen) {
    g.worker < WORKERS && g.sequence < SEQUENCES && (g.spinning ==> g.sequence == 0)
  }

  function EffectiveWorker(workerID: int): nat {
    if workerID < 0 || workerID > WORKERS - 1 then 0 else workerID
  }

  function NewGen(workerID: int): (g: Gen)
    ensures ValidGen(g)
  {
    Gen(EffectiveWorker(workerID), 0, 0, false)
  }

  /** The effect of one clock reading, and the slot issued by it, if the call returns there. */
  function Tick(g: Gen, t: int): (Gen, Option<Slot>) {
    if g.spinning then
      if t <= g.last then (g, None) else (g.(last := t, spinning := false), Some(Slot(t, 0)))
    else if t == g.last then
      var s := BitAnd(g.sequence + 1, SEQUENCES - 1);
      if s == 0 then (g.(sequence := 0, spinning := true), None)
      else (g.(sequence := s), Some(Slot(t, s)))
    else (g.(sequence := 0, last := t), Some(Slot(t, 0)))
  }

  function Run(g: Gen, trace: seq<int>): Gen
    decreases |trace|
  {
    if trace == [] then g else Run(Tick(g, trace[0]).0, trace[1..])
  }

  /** The slots issued over a clock trace, call after call. */
  function Slots(g: Gen, trace: seq<int>): seq<Slot>
    decreases |trace|
  {
    if trace == [] then []
    else
      var (g', issued) := Tick(g, trace[0]);
      (if issued.Some? then [issued.value] else []) + Slots(g', trace[1..])
  }

  function Word(g: Gen, s: Slot): nat {
    Pack(s.stamp, g.worker, s.sequence)
  }

  /** The identifiers a generator returns over a clock trace. */
  function Ids(g: Gen, trace: seq<int>): (ids: seq<nat>)
    ensures |ids| == |Slots(g, trace)|
    ensures forall i :: 0 <= i < |ids| ==> ids[i] == Word(g, Slots(g, trace)[i])
  {
    var slots := Slots(g, trace);
    seq(|slots|, i requires 0 <= i < |slots| => Word(g, slots[i]))
  }

  /** The slot of the most recent identifier; a spinning generator has used up its stamp. */
  function LastSlot(g: Gen): Slot {
    Slot(g.last, if g.spinning then SEQUENCES - 1 else g.sequence)
  }

  /** One slot follows another: next sequence number of the stamp, or the start of another stamp. */
  predicate Follows(a: Slot, b: Slot) {
    if b.stamp == a.stamp then b.sequence == a.sequence + 1 else b.sequence == 0
  }

  lemma NextSequence(s: nat)
    requires s < SEQUENCES
    ensures BitAnd(s + 1, SEQUENCES - 1) == if s == SEQUENCES - 1 then 0 else s + 1
  {
    AndMaskAs(s + 1, 12, SEQUENCES - 1);
    WrapsAt(s + 1, SEQUENCES);
  }

  lemma WrapsAt(n: nat, m: nat)
    requires 0 < n <= m
    ensures n % m == if n == m then 0 else n
  {
  }

  lemma TickFacts(g: Gen, t: int)
    requires ValidGen(g)
    ensures var (g', issued) := Tick(g, t);
            && ValidGen(g') && g'.worker == g.worker && (g'.last == g.last || g'.last == t)
            && (issued.None? ==> LastSlot(g') == LastSlot(g) && g'.spinning && t <= g.last)
            && (issued.Some? ==> LastSlot(g') == issued.value && !g'.spinning && g'.last == t
                                 && Follows(LastSlot(g), issued.value) && issued.value.sequence < SEQUENCES)
  {
    NextSequence(g.sequence);
  }

  lemma {:induction false} RunFacts(g: Gen, trace: seq<int>)
    requires ValidGen(g)
    ensures ValidGen(Run(g, trace)) && Run(g, trace).worker == g.worker
    decreases |trace|
  {
    if trace != [] {
      TickFacts(g, trace[0]);
      RunFacts(Tick(g, trace[0]).0, trace[1..]);
    }
  }

  lemma {:induction false} RunAppend(g: Gen, a: seq<int>, b: seq<int>)
    ensures Run(g, a + b) == Run(Run(g, a), b)
    ensures Slots(g, a + b) == Slots(g, a) + Slots(Run(g, a), b)
    decreases |a|
  {
    if a == [] {
      assert a + b == b;
    } else {
      assert (a + b)[1..] == a[1..] + b;
      RunAppend(Tick(g, a[0]).0, a[1..], b);
    }
  }

  /** The issued slots, preceded by the slot the generator stood at. */
  function Chain(g: Gen, trace: seq<int>): seq<Slot> {
    [LastSlot(g)] + Slots(g, trace)
  }

  lemma {:induction false} ChainFollows(g: Gen, trace: seq<int>)
    requires ValidGen(g)
    ensures var c := Chain(g, trace);
            && (forall k :: 0 <= k < |c| ==> c[k].sequence < SEQUENCES)
            && (forall k :: 0 < k < |c| ==> Follows(c[k - 1], c[k]))
            && (forall k :: 0 < k < |c| ==> c[k].stamp in trace)
    decreases |trace|
  {
    if trace != [] {
      TickFacts(g, trace[0]);
      var (g', issued) := Tick(g, trace[0]);
      ChainFollows(g', trace[1..]);
      var c, c' := Chain(g, trace), Chain(g', trace[1..]);
      if issued.Some? {
        assert c == [LastSlot(g)] + c';
      } else {
        assert c == c';
      }
    }
  }

  // ------------------------------------------------------------- monotonicity

  /** No call starts from a reading below the generator's last stamp. */
  predicate NeverRewound(g: Gen, trace: seq<int>)
    decreases |trace|
  {
    trace == [] || ((g.spinning || g.last <= trace[0]) && NeverRewound(Tick(g, trace[0]).0, trace[1..]))
  }

  ghost predicate AllInRange(trace: seq<int>) {
    forall i :: 0 <= i < |trace| ==> InRange(trace[i])
  }

  /** One call of Next: the identifier it returns is above the previous one if and only if its first
      clock reading is not below lastStamp. */
  lemma NextAboveIff(g: Gen, readings: seq<int>)
    requires ValidGen(g) && !g.spinning && InRange(g.last) && AllInRange(readings)
    requires |readings| > 0 && |Slots(g, readings)| == 1
    ensures Ids(g, readings)[0] > Word(g, LastSlot(g)) <==> readings[0] >= g.last
  {
    var (g', issued) := Tick(g, readings[0]);
    TickFacts(g, readings[0]);
    var slot := Slots(g, readings)[0];
    if issued.None? {
      SpinOutcome(g', readings[1..]);
    } else {
      assert slot == issued.value;
    }
    PackOrder(g.last, g.worker, g.sequence, slot.stamp, g.worker, slot.sequence);
  }

  /** The wait loop: it goes on exactly as long as no reading has passed the last stamp, and its
      first identifier is sequence 0 of the first stamp beyond it. */
  lemma {:induction false} SpinOutcome(g: Gen, trace: seq<int>)
    requires g.spinning
    ensures Slots(g, trace) == [] <==> forall i :: 0 <= i < |trace| ==> trace[i] <= g.last
    ensures Slots(g, trace) == [] ==> Run(g, trace) == g
    ensures Slots(g, trace) != [] ==> Slots(g, trace)[0].stamp > g.last && Slots(g, trace)[0].sequence == 0
                                      && Slots(g, trace)[0].stamp in trace
  {
    if trace != [] && trace[0] <= g.last {
      SpinOutcome(g, trace[1..]);
      assert trace == [trace[0]] + trace[1..];
      assert forall i :: 0 < i < |trace| ==> trace[i] == trace[1..][i - 1];
    }
  }

  /** Neighbouring stamps never fall. */
  ghost predicate StampsRise(c: seq<Slot>) {
    forall k :: 0 < k < |c| ==> c[k - 1].stamp <= c[k].stamp
  }

  lemma StampsRiseHead(a: Slot, c: seq<Slot>)
    requires c != []
    ensures StampsRise([a] + c) <==> a.stamp <= c[0].stamp && StampsRise(c)
  {
    var d := [a] + c;
    if StampsRise(d) {
      assert d[0].stamp <= d[1].stamp;
      forall k | 0 < k < |c| ensures c[k - 1].stamp <= c[k].stamp {
        assert d[k].stamp <= d[k + 1].stamp;
      }
    }
  }

  lemma {:induction false} IncreasingIff(g: Gen, trace: seq<int>)
    requires ValidGen(g)
    ensures NeverRewound(g, trace) <==> StampsRise(Chain(g, trace))
    decreases |trace|
  {
    if trace != [] {
      TickFacts(g, trace[0]);
      var (g', issued) := Tick(g, trace[0]);
      IncreasingIff(g', trace[1..]);
      var c' := Chain(g', trace[1..]);
      if issued.Some? {
        assert Chain(g, trace) == [LastSlot(g)] + c';
        StampsRiseHead(LastSlot(g), c');
      } else {
        assert Chain(g, trace) == c';
      }
    }
  }

  /** Every later slot is above every earlier one, once neighbouring stamps never fall. */
  lemma {:induction false} NeighboursOrder(c: seq<Slot>, i: nat, j: nat)
    requires forall k :: 0 < k < |c| ==> Follows(c[k - 1], c[k])
    requires StampsRise(c)
    requires i < j < |c|
    ensures c[i].stamp < c[j].stamp || (c[i].stamp == c[j].stamp && c[j].sequence - c[i].sequence == j - i)
    decreases j
  {
    if i < j - 1 { NeighboursOrder(c, i, j - 1); }
    assert Follows(c[j - 1], c[j]);
  }

  /** Over any clock trace, the stream of identifiers of a generator, with the one before it, is
      strictly increasing if and only if no call read a clock below the last stamp. */
  lemma StreamIncreasingIff(g: Gen, trace: seq<int>)
    requires ValidGen(g) && InRange(g.last) && AllInRange(trace)
    ensures Ascending([Word(g, LastSlot(g))] + Ids(g, trace)) <==> NeverRewound(g, trace)
  {
    ChainFollows(g, trace);
    IncreasingIff(g, trace);
    ChainWords(g, Chain(g, trace), [Word(g, LastSlot(g))] + Ids(g, trace));
  }

  lemma WordOrder(g: Gen, a: Slot, b: Slot)
    requires g.worker < WORKERS && InRange(a.stamp) && InRange(b.stamp)
    requires a.sequence < SEQUENCES && b.sequence < SEQUENCES
    ensures Word(g, a) < Word(g, b) <==> a.stamp < b.stamp || (a.stamp == b.stamp && a.sequence < b.sequence)
  {
    PackOrder(a.stamp, g.worker, a.sequence, b.stamp, g.worker, b.sequence);
  }

  /** The words of a chain of slots rise exactly when its stamps never fall. */
  lemma ChainWords(g: Gen, c: seq<Slot>, ids: seq<nat>)
    requires g.worker < WORKERS && |ids| == |c| && forall k :: 0 <= k < |c| ==> ids[k] == Word(g, c[k])
    requires forall k :: 0 <= k < |c| ==> InRange(c[k].stamp) && c[k].sequence < SEQUENCES
    requires forall k :: 0 < k < |c| ==> Follows(c[k - 1], c[k])
    ensures Ascending(ids) <==> StampsRise(c)
  {
    if StampsRise(c) {
      forall i, j | 0 <= i < j < |ids| ensures ids[i] < ids[j] {
        NeighboursOrder(c, i, j);
        WordOrder(g, c[i], c[j]);
      }
    }
    if Ascending(ids) {
      forall k | 0 < k < |c| ensures c[k - 1].stamp <= c[k].stamp {
        assert ids[k - 1] < ids[k];
        WordOrder(g, c[k - 1], c[k]);
      }
    }
  }

  /** A clock that never runs backwards never rewinds the generator. */
  lemma {:induction false} SteadyClock(g: Gen, trace: seq<int>)
    requires ValidGen(g)
    requires forall i :: 0 <= i < |trace| ==> g.last <= trace[i]
    requires forall i, j :: 0 <= i < j < |trace| ==> trace[i] <= trace[j]
    ensures NeverRewound(g, trace)
    decreases |trace|
  {
    if trace != [] {
      TickFacts(g, trace[0]);
      SteadyClock(Tick(g, trace[0]).0, trace[1..]);
    }
  }

  /** A clock that never runs backwards gives a strictly increasing, hence duplicate-free, stream of any
      length, all of it above the identifier before it. */
  lemma SteadyClockIncreases(g: Gen, trace: seq<int>)
    requires ValidGen(g) && InRange(g.last) && AllInRange(trace)
    requires forall i :: 0 <= i < |trace| ==> g.last <= trace[i]
    requires forall i, j :: 0 <= i < j < |trace| ==> trace[i] <= trace[j]
    ensures Ascending([Word(g, LastSlot(g))] + Ids(g, trace)) && Distinct(Ids(g, trace))
  {
    SteadyClock(g, trace);
    StreamIncreasingIff(g, trace);
    AscendingTail(Word(g, LastSlot(g)), Ids(g, trace));
  }

  lemma AscendingTail(first: nat, ids: seq<nat>)
    requires Ascending([first] + ids)
    ensures Distinct(ids)
  {
    forall i, j | 0 <= i < j < |ids| ensures ids[i] != ids[j] {
      assert ([first] + ids)[i + 1] < ([first] + ids)[j + 1];
    }
  }

  /** At most 4096 identifiers share a stamp while the clock is not rewound. */
  lemma StampShare(g: Gen, trace: seq<int>, i: nat, j: nat)
    requires ValidGen(g) && NeverRewound(g, trace)
    requires i <= j < |Slots(g, trace)| && Slots(g, trace)[i].stamp == Slots(g, trace)[j].stamp
    ensures j - i < SEQUENCES
  {
    var c := Chain(g, trace);
    ChainFollows(g, trace);
    IncreasingIff(g, trace);
    assert c[i + 1] == Slots(g, trace)[i] && c[j + 1] == Slots(g, trace)[j];
    if i < j { NeighboursOrder(c, i + 1, j + 1); }
  }

  // --------------------------------------------------------------- uniqueness

  /** No identifier starts over a stamp that was already in use. */
  ghost predicate NoReentry(c: seq<Slot>) {
    forall i, j :: 0 <= i < j < |c| && c[j].sequence == 0 ==> c[i].stamp != c[j].stamp
  }

  /** The slot at k stands c[k].sequence places after the start of its run of equal stamps. */
  lemma {:induction false} RunStart(c: seq<Slot>, k: nat)
    requires |c| > 0 && c[0].sequence == 0
    requires forall j :: 0 < j < |c| ==> Follows(c[j - 1], c[j])
    requires k < |c|
    ensures c[k].sequence <= k
    ensures forall i :: k - c[k].sequence <= i <= k ==> c[i] == Slot(c[k].stamp, c[k].sequence - (k - i))
  {
    if c[k].sequence > 0 {
      assert Follows(c[k - 1], c[k]);
      RunStart(c, k - 1);
    }
  }

  /** Slots as a generator issues them, the first at the start of a stamp. */
  ghost predicate Linked(c: seq<Slot>) {
    && (c != [] ==> c[0].sequence == 0)
    && forall j :: 0 < j < |c| ==> Follows(c[j - 1], c[j])
  }

  lemma DistinctIff(c: seq<Slot>)
    requires Linked(c)
    ensures Distinct(c) <==> NoReentry(c)
  {
    if NoReentry(c) {
      forall i, j | 0 <= i < j < |c| ensures c[i] != c[j] {
        RunStart(c, j);
        if j - c[j].sequence > i {
          assert c[j - c[j].sequence] == Slot(c[j].stamp, 0);
        }
      }
    } else {
      var i, j :| 0 <= i < j < |c| && c[j].sequence == 0 && c[i].stamp == c[j].stamp;
      RunStart(c, i);
      var start := i - c[i].sequence;
      assert c[start] == c[j];
    }
  }

  /** The reading makes the generator open a stamp: the branch that restarts the sequence, or the end of
      the wait loop. */
  predicate Opens(g: Gen, t: int) {
    if g.spinning then t > g.last else t != g.last
  }

  /** No reading opens a stamp that was used before: a condition on the clock and the generator's state,
      decided at each reading before anything is issued. */
  predicate FreshStarts(g: Gen, used: set<int>, trace: seq<int>)
    decreases |trace|
  {
    trace == [] ||
    (&& (Opens(g, trace[0]) ==> trace[0] !in used)
     && var (g', issued) := Tick(g, trace[0]);
        FreshStarts(g', if issued.Some? then used + {trace[0]} else used, trace[1..]))
  }

  function Stamps(c: seq<Slot>): set<int> {
    set s | s in c :: s.stamp
  }

  lemma NoReentryMore(c: seq<Slot>, x: Slot)
    requires NoReentry(c)
    ensures NoReentry(c + [x]) <==> (x.sequence == 0 ==> x.stamp !in Stamps(c))
  {
    var d := c + [x];
    if x.sequence == 0 && x.stamp in Stamps(c) {
      var s :| s in c && s.stamp == x.stamp;
      var i :| 0 <= i < |c| && c[i] == s;
      assert d[i].stamp == d[|c|].stamp;
    } else {
      forall i, j | 0 <= i < j < |d| && d[j].sequence == 0 ensures d[i].stamp != d[j].stamp {
        if j == |c| { assert c[i] in c; }
      }
    }
  }

  lemma NoReentryPrefix(c: seq<Slot>, d: seq<Slot>)
    requires NoReentry(c + d)
    ensures NoReentry(c)
  {
    assert forall k :: 0 <= k < |c| ==> (c + d)[k] == c[k];
  }

  lemma {:induction false} FreshIff(g: Gen, c: seq<Slot>, trace: seq<int>)
    requires ValidGen(g) && NoReentry(c)
    ensures NoReentry(c + Slots(g, trace)) <==> FreshStarts(g, Stamps(c), trace)
    decreases |trace|
  {
    if trace == [] {
      assert c + [] == c;
    } else {
      var t := trace[0];
      var (g', issued) := Tick(g, t);
      TickFacts(g, t);
      if issued.None? {
        assert c + Slots(g, trace) == c + Slots(g', trace[1..]);
        FreshIff(g', c, trace[1..]);
      } else {
        var x, rest := issued.value, Slots(g', trace[1..]);
        OpensIffZero(g, t);
        NoReentryMore(c, x);
        assert c + Slots(g, trace) == (c + [x]) + rest;
        assert Stamps(c + [x]) == Stamps(c) + {t};
        if NoReentry(c + [x]) {
          FreshIff(g', c + [x], trace[1..]);
        } else if NoReentry((c + [x]) + rest) {
          NoReentryPrefix(c + [x], rest);
        }
      }
    }
  }

  lemma OpensIffZero(g: Gen, t: int)
    requires ValidGen(g)
    ensures var issued := Tick(g, t).1;
            && (issued.None? ==> !Opens(g, t))
            && (issued.Some? ==> issued.value.stamp == t && (issued.value.sequence == 0 <==> Opens(g, t)))
  {
    NextSequence(g.sequence);
  }

  lemma SlotOfWord(g: Gen, a: Slot, b: Slot)
    requires g.worker < WORKERS && InRange(a.stamp) && InRange(b.stamp)
    requires a.sequence < SEQUENCES && b.sequence < SEQUENCES
    ensures Word(g, a) == Word(g, b) <==> a == b
  {
    PackRoundTrip(a.stamp, g.worker, a.sequence);
    PackRoundTrip(b.stamp, g.worker, b.sequence);
  }

  /** A new generator whose clock is past the epoch never repeats an identifier if and only if no reading
      opens a stamp that was used before. */
  lemma StreamDistinctIff(workerID: int, trace: seq<int>)
    requires forall i :: 0 <= i < |trace| ==> InRange(trace[i]) && trace[i] > 0
    ensures Distinct(Ids(NewGen(workerID), trace)) <==> FreshStarts(NewGen(workerID), {}, trace)
  {
    FreshSlots(NewGen(workerID), trace);
    IdsMatchSlots(NewGen(workerID), trace);
  }

  lemma FreshSlots(g: Gen, trace: seq<int>)
    requires ValidGen(g) && g.last == 0 && forall i :: 0 <= i < |trace| ==> InRange(trace[i]) && trace[i] > 0
    ensures Distinct(Slots(g, trace)) <==> FreshStarts(g, {}, trace)
  {
    SlotsFollow(g, trace);
    DistinctIff(Slots(g, trace));
    FreshFromStart(g, trace);
  }

  lemma FreshFromStart(g: Gen, trace: seq<int>)
    requires ValidGen(g)
    ensures NoReentry(Slots(g, trace)) <==> FreshStarts(g, {}, trace)
  {
    var none: seq<Slot> := [];
    FreshIff(g, none, trace);
    assert none + Slots(g, trace) == Slots(g, trace) && Stamps(none) == {};
  }

  lemma SlotsFollow(g: Gen, trace: seq<int>)
    requires ValidGen(g) && g.last == 0 && forall i :: 0 <= i < |trace| ==> InRange(trace[i]) && trace[i] > 0
    ensures Linked(Slots(g, trace))
  {
    var c, slots := Chain(g, trace), Slots(g, trace);
    ChainFollows(g, trace);
    forall j | 0 <= j < |slots| ensures Follows(c[j], slots[j]) && c[j + 1] == slots[j] {
      var k := j + 1;
      assert Follows(c[k - 1], c[k]);
    }
  }

  lemma IdsMatchSlots(g: Gen, trace: seq<int>)
    requires ValidGen(g) && AllInRange(trace)
    ensures Distinct(Ids(g, trace)) <==> Distinct(Slots(g, trace))
  {
    var ids, slots := Ids(g, trace), Slots(g, trace);
    ChainFollows(g, trace);
    forall j | 0 <= j < |slots| ensures InRange(slots[j].stamp) && slots[j].sequence < SEQUENCES {
      assert Chain(g, trace)[j + 1] == slots[j];
    }
    forall i, j | 0 <= i < j < |ids| ensures ids[i] == ids[j] <==> slots[i] == slots[j] {
      SlotOfWord(g, slots[i], slots[j]);
    }
  }

  /** The documented stall on a rewound clock does not happen: one step back and forward again
      reissues an identifier, although the readings never left the documented range. */
  lemma RewindRepeats(workerID: int, t: int)
    requires 1 < t < STAMPS
    ensures var ids := Ids(NewGen(workerID), [t, t - 1, t]); |ids| == 3 && ids[0] == ids[2] && ids[1] < ids[0]
  {
    var g := NewGen(workerID);
    var g1 := Tick(g, t).0;
    var g2 := Tick(g1, t - 1).0;
    assert [t, t - 1, t][1..] == [t - 1, t] && [t - 1, t][1..] == [t] && [t][1..] == [];
    assert Slots(g2, [t]) == [Slot(t, 0)];
    assert Slots(g1, [t - 1, t]) == [Slot(t - 1, 0), Slot(t, 0)];
    assert Slots(g, [t, t - 1, t]) == [Slot(t, 0), Slot(t - 1, 0), Slot(t, 0)];
    PackOrder(t - 1, g.worker, 0, t, g.worker, 0);
  }

  // -------------------------------------------------------- the imperative code

  /** What one call amounts to, given all of its readings: the first decides, and only an exhausted
      stamp takes more, up to and including the first reading beyond it. */
  lemma CallOutcome(g: Gen, readings: seq<int>)
    requires ValidGen(g) && !g.spinning && |readings| > 0
    requires |readings| > 1 ==> readings[0] == g.last && g.sequence == SEQUENCES - 1
    requires forall i :: 0 <= i < |readings| - 1 ==> readings[i] <= g.last
    ensures var now := readings[|readings| - 1];
            if readings[0] == g.last && g.sequence == SEQUENCES - 1 && now <= g.last then
              Run(g, readings) == g.(sequence := 0, spinning := true) && Slots(g, readings) == []
            else
              var s := if readings[0] == g.last && g.sequence < SEQUENCES - 1 then g.sequence + 1 else 0;
              Run(g, readings) == g.(sequence := s, last := now) && Slots(g, readings) == [Slot(now, s)]
  {
    var first := readings[0];
    TickIdle(g, first);
    OneReading(g, first);
    if |readings| == 1 {
      assert readings == [first];
    } else {
      var n := |readings| - 1;
      assert readings == [first] + (readings[1..n] + [readings[n]]);
      RunAppend(g, [first], readings[1..n] + [readings[n]]);
      WaitOutcome(g.(sequence := 0, spinning := true), readings[1..n], readings[n]);
    }
  }

  /** The first reading of a call, by cases. */
  lemma TickIdle(g: Gen, t: int)
    requires ValidGen(g) && !g.spinning
    ensures Tick(g, t) ==
            if t != g.last then (g.(sequence := 0, last := t), Some(Slot(t, 0)))
            else if g.sequence == SEQUENCES - 1 then (g.(sequence := 0, spinning := true), None)
            else (g.(sequence := g.sequence + 1), Some(Slot(t, g.sequence + 1)))
  {
    NextSequence(g.sequence);
  }

  lemma OneReading(g: Gen, t: int)
    ensures Run(g, [t]) == Tick(g, t).0
    ensures Slots(g, [t]) == if Tick(g, t).1.Some? then [Tick(g, t).1.value] else []
  {
    assert [t][1..] == [];
  }

  lemma WaitOutcome(waiting: Gen, waits: seq<int>, now: int)
    requires waiting.spinning && waiting.sequence == 0
    requires forall i :: 0 <= i < |waits| ==> waits[i] <= waiting.last
    ensures var trace := waits + [now];
            if now <= waiting.last then Run(waiting, trace) == waiting && Slots(waiting, trace) == []
            else Run(waiting, trace) == waiting.(last := now, spinning := false) && Slots(waiting, trace) == [Slot(now, 0)]
  {
    SpinOutcome(waiting, waits);
    RunAppend(waiting, waits, [now]);
    assert [now][1..] == [];
  }

  /** currentMillis: a recorded clock trace and the number of readings already taken from it. */
  class Clock {
    const trace: seq<int>
    var pos: nat

    constructor (trace: seq<int>)
      ensures this.trace == trace && pos == 0
    {
      this.trace := trace;
      pos := 0;
    }

    method CurrentMillis() returns (now: int)
      requires pos < |trace|
      modifies this`pos
      ensures pos == old(pos) + 1 && now == trace[old(pos)]
    {
      now := trace[pos];
      pos := pos + 1;
    }
  }

  class Generator {
    const workerID: nat
    var sequence: nat
    var lastStamp: int
    var locked: bool  // the mutex; still held when a call is waiting at the end of the trace

    ghost predicate Valid()
      reads this
    {
      ValidGen(State())
    }

    function State(): Gen
      reads this
    {
      Gen(workerID, sequence, lastStamp, locked)
    }

    constructor (workerID: int)
      ensures Valid() && State() == NewGen(workerID)
      ensures sequence == 0 && lastStamp == 0 && !locked
      ensures 0 <= workerID < 1024 ==> this.workerID == workerID
      ensures workerID < 0 || workerID > 1023 ==> this.workerID == 0
    {
      this.workerID := if workerID < 0 || workerID > WORKERS - 1 then 0 else workerID;
      sequence, lastStamp, locked := 0, 0, false;
    }

    /** Next, consuming clock readings. `None` means that the trace ended inside the wait loop. */
    method Next(clock: Clock) returns (id: Option<nat>)
      requires Valid() && !locked && clock.pos < |clock.trace|
      modifies this`sequence, this`lastStamp, this`locked, clock`pos
      ensures Valid() && old(clock.pos) < clock.pos <= |clock.trace|
      ensures var readings := clock.trace[old(clock.pos)..clock.pos];
              var issued := Slots(old(State()), readings);
              && State() == Run(old(State()), readings)
              && (if id.Some? then |issued| == 1 && id.value == Word(State(), issued[0]) else issued == [])
      ensures id.None? <==> locked
      ensures id.None? ==> clock.pos == |clock.trace|
    {
      ghost var g, start := State(), clock.pos;
      locked := true;
      NextSequence(sequence);
      var now := clock.CurrentMillis();
      if now == lastStamp {
        sequence := BitAnd(sequence + 1, SEQUENCES - 1);
        if sequence == 0 {
          while now <= lastStamp
            invariant lastStamp == g.last && sequence == 0 && locked
            invariant start < clock.pos <= |clock.trace| && now == clock.trace[clock.pos - 1]
            invariant forall i :: start <= i < clock.pos - 1 ==> clock.trace[i] <= lastStamp
            decreases |clock.trace| - clock.pos
          {
            if clock.pos == |clock.trace| {
              CallOutcome(g, clock.trace[start..clock.pos]);
              return None;
            }
            now := clock.CurrentMillis();
          }
        }
      } else {
        sequence := 0;
      }
      lastStamp := now;
      locked := false;
      ghost var readings := clock.trace[start..clock.pos];
      CallOutcome(g, readings);
      assert State() == Run(g, readings);
      RunFacts(g, readings);
      id := Some(Pack(now, workerID, sequence));
    }
  }
}
