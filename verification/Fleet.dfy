/** Several API servers, each with its own generator, drawing identifiers concurrently
    (shared/snowflake/snowflake.go; services/api-server/main.go builds one generator per process). */
module Fleet {
  import opened Domain
  import opened Snowflake

  /** The generators by server, and every identifier handed out so far, in order. */
  datatype Fleet = Fleet(gens: map<string, Gen>, issued: seq<nat>)

  /** One clock reading taken by the generator of one server. */
  datatype Reading = Reading(server: string, t: int)

  function Read(f: Fleet, r: Reading): Fleet {
    if r.server !in f.gens then f
    else
      var g := f.gens[r.server];
      var (g', issued) := Tick(g, r.t);
      Fleet(f.gens[r.server := g'], if issued.Some? then f.issued + [Word(g, issued.value)] else f.issued)
  }

  function ReadAll(f: Fleet, rs: seq<Reading>): Fleet
    decreases |rs|
  {
    if rs == [] then f else ReadAll(Read(f, rs[0]), rs[1..])
  }

  function ReadingsOf(server: string, ts: seq<int>): seq<Reading> {
    seq(|ts|, i requires 0 <= i < |ts| => Reading(server, ts[i]))
  }

  function NewFleet(workerIDs: map<string, int>): Fleet {
    Fleet(map p | p in workerIDs :: NewGen(workerIDs[p]), [])
  }

  ghost predicate DistinctWorkers(f: Fleet) {
    forall p, q :: p in f.gens && q in f.gens && p != q ==> f.gens[p].worker != f.gens[q].worker
  }

  function LastId(g: Gen): nat {
    Word(g, LastSlot(g))
  }

  ghost predicate FleetInv(f: Fleet) {
    && DistinctWorkers(f)
    && (forall p :: p in f.gens ==> ValidGen(f.gens[p]) && InRange(f.gens[p].last))
    && (forall p, i :: p in f.gens && 0 <= i < |f.issued| && WorkerOf(f.issued[i]) == f.gens[p].worker ==>
          f.issued[i] <= LastId(f.gens[p]))
    && Distinct(f.issued)
  }

  /** The reading is in the documented range and does not start a call below the last stamp. */
  predicate Steady(f: Fleet, r: Reading) {
    r.server in f.gens ==> InRange(r.t) && (f.gens[r.server].spinning || f.gens[r.server].last <= r.t)
  }

  predicate AllSteady(f: Fleet, rs: seq<Reading>)
    decreases |rs|
  {
    rs == [] || (Steady(f, rs[0]) && AllSteady(Read(f, rs[0]), rs[1..]))
  }

  /** An identifier issued from a valid generator carries its worker and exceeds its previous one. */
  lemma IssuedWord(g: Gen, t: int)
    requires ValidGen(g) && InRange(g.last) && InRange(t) && (g.spinning || g.last <= t)
    requires Tick(g, t).1.Some?
    ensures var id := Word(g, Tick(g, t).1.value);
            WorkerOf(id) == g.worker && id > LastId(g) && id == LastId(Tick(g, t).0)
  {
    TickFacts(g, t);
    var a, b := LastSlot(g), Tick(g, t).1.value;
    PackRoundTrip(b.stamp, g.worker, b.sequence);
    PackOrder(a.stamp, g.worker, a.sequence, b.stamp, g.worker, b.sequence);
  }

  lemma ReadKeeps(f: Fleet, r: Reading)
    requires FleetInv(f) && Steady(f, r)
    ensures FleetInv(Read(f, r))
    ensures f.issued <= Read(f, r).issued && |Read(f, r).issued| <= |f.issued| + 1
  {
    if r.server in f.gens {
      var g := f.gens[r.server];
      TickFacts(g, r.t);
      if Tick(g, r.t).1.Some? { IssuedWord(g, r.t); }
    }
  }

  lemma {:induction false} ReadAllKeeps(f: Fleet, rs: seq<Reading>)
    requires FleetInv(f) && AllSteady(f, rs)
    ensures FleetInv(ReadAll(f, rs)) && f.issued <= ReadAll(f, rs).issued
    decreases |rs|
  {
    if rs != [] {
      ReadKeeps(f, rs[0]);
      ReadAllKeeps(Read(f, rs[0]), rs[1..]);
    }
  }

  lemma NewFleetInv(workerIDs: map<string, int>)
    requires DistinctEffective(workerIDs)
    ensures FleetInv(NewFleet(workerIDs))
  {
  }

  /** No two servers end up with the same worker ID after clamping. */
  ghost predicate DistinctEffective(workerIDs: map<string, int>) {
    forall p, q :: p in workerIDs && q in workerIDs && p != q ==>
                     EffectiveWorker(workerIDs[p]) != EffectiveWorker(workerIDs[q])
  }

  /** Readings within the documented range, never running backwards on any one server. */
  ghost predicate ForwardClocks(rs: seq<Reading>) {
    && (forall i :: 0 <= i < |rs| ==> InRange(rs[i].t))
    && (forall i, j :: 0 <= i < j < |rs| && rs[i].server == rs[j].server ==> rs[i].t <= rs[j].t)
  }

  /** The one identifier issued by a stretch of readings is new. */
  lemma IssuedFresh(f: Fleet, rs: seq<Reading>)
    requires FleetInv(f) && AllSteady(f, rs) && |ReadAll(f, rs).issued| == |f.issued| + 1
    ensures var issued := ReadAll(f, rs).issued;
            issued == f.issued + [issued[|f.issued|]] && issued[|f.issued|] !in f.issued
  {
    ReadAllKeeps(f, rs);
    var issued := ReadAll(f, rs).issued;
    forall i | 0 <= i < |f.issued| ensures f.issued[i] != issued[|f.issued|] {
      assert issued[i] == f.issued[i];
    }
  }

  /** Per-server clocks that never run backwards start every call at or above the last stamp. */
  lemma {:induction false} SteadyClocks(f: Fleet, rs: seq<Reading>)
    requires forall p :: p in f.gens ==> ValidGen(f.gens[p])
    requires ForwardClocks(rs)
    requires forall i :: 0 <= i < |rs| && rs[i].server in f.gens ==> f.gens[rs[i].server].last <= rs[i].t
    ensures AllSteady(f, rs)
    decreases |rs|
  {
    if rs != [] {
      if rs[0].server in f.gens { TickFacts(f.gens[rs[0].server], rs[0].t); }
      var f' := Read(f, rs[0]);
      assert forall i :: 0 <= i < |rs[1..]| ==> rs[1..][i] == rs[i + 1];
      SteadyClocks(f', rs[1..]);
    }
  }

  /** Fleet uniqueness: in any interleaving of any number of servers with distinct effective worker
      IDs, one generator each and clocks that never run backwards, no identifier is issued twice. */
  lemma FleetUnique(workerIDs: map<string, int>, rs: seq<Reading>)
    requires DistinctEffective(workerIDs)
    requires ForwardClocks(rs)
    ensures Distinct(ReadAll(NewFleet(workerIDs), rs).issued)
  {
    var f := NewFleet(workerIDs);
    NewFleetInv(workerIDs);
    SteadyClocks(f, rs);
    ReadAllKeeps(f, rs);
  }

  /** Distinct effective worker IDs are needed: two servers sharing one, for instance two values
      clamped to 0, issue the same identifier at their first call in the same millisecond. */
  lemma SharedWorkerCollides(workerIDs: map<string, int>, p: string, q: string, t: int)
    requires p in workerIDs && q in workerIDs && p != q && 0 < t < STAMPS
    requires EffectiveWorker(workerIDs[p]) == EffectiveWorker(workerIDs[q])
    ensures var issued := ReadAll(NewFleet(workerIDs), [Reading(p, t), Reading(q, t)]).issued;
            |issued| == 2 && issued[0] == issued[1]
  {
    var f := NewFleet(workerIDs);
    var rs := [Reading(p, t), Reading(q, t)];
    var f1 := Read(f, rs[0]);
    assert rs[1..] == [rs[1]] && rs[1..][1..] == [];
    assert ReadAll(f, rs) == ReadAll(f1, rs[1..]) == Read(f1, rs[1]);
  }

  /** One generator lifetime per worker ID is needed: after any run whose first reading was t, a
      restarted server issues the very first identifier again if the clock still shows t. */
  lemma RestartRepeats(workerID: int, before: seq<int>)
    requires before != [] && before[0] > 0
    ensures var ids, again := Ids(NewGen(workerID), before), Ids(NewGen(workerID), [before[0]]);
            ids != [] && again == [ids[0]]
  {
    var g, t := NewGen(workerID), before[0];
    assert [t][1..] == [];
    assert Slots(g, [t]) == [Slot(t, 0)];
    assert Slots(g, before)[0] == Slot(t, 0);
  }

  // ------------------------------------------------------- one server by itself

  /** The readings that a server's own generator takes. */
  function OwnReadings(rs: seq<Reading>, p: string): seq<int> {
    if rs == [] then [] else (if rs[0].server == p then [rs[0].t] else []) + OwnReadings(rs[1..], p)
  }

  /** Servers share nothing: among any readings of others, a generator goes through exactly what it would go
      through alone on its own readings. */
  lemma {:induction false} OwnGeneratorOnly(f: Fleet, rs: seq<Reading>, p: string)
    requires p in f.gens
    ensures p in ReadAll(f, rs).gens && ReadAll(f, rs).gens[p] == Run(f.gens[p], OwnReadings(rs, p))
    decreases |rs|
  {
    if rs != [] {
      OwnGeneratorOnly(Read(f, rs[0]), rs[1..], p);
      if rs[0].server == p {
        assert OwnReadings(rs, p)[0] == rs[0].t && OwnReadings(rs, p)[1..] == OwnReadings(rs[1..], p);
      } else {
        assert OwnReadings(rs, p) == OwnReadings(rs[1..], p);
      }
    }
  }

  /** What one reading issues. */
  function IdsNow(g: Gen, t: int): seq<nat> {
    var issued := Tick(g, t).1;
    if issued.Some? then [Word(g, issued.value)] else []
  }

  lemma ReadIssues(f: Fleet, p: string, t: int)
    requires p in f.gens
    ensures var f' := Read(f, Reading(p, t));
            f'.issued == f.issued + IdsNow(f.gens[p], t) && p in f'.gens && f'.gens[p] == Tick(f.gens[p], t).0
  {
  }

  lemma IdsUnfold(g: Gen, ts: seq<int>)
    requires ts != []
    ensures Ids(g, ts) == IdsNow(g, ts[0]) + Ids(Tick(g, ts[0]).0, ts[1..])
  {
    var (g', issued) := Tick(g, ts[0]);
    assert g'.worker == g.worker;
  }

  /** A server's readings hand out exactly the identifiers of its generator on that trace. */
  lemma {:induction false} IssuesOwnIds(f: Fleet, p: string, ts: seq<int>)
    requires p in f.gens
    ensures ReadAll(f, ReadingsOf(p, ts)).issued == f.issued + Ids(f.gens[p], ts)
    decreases |ts|
  {
    if ts != [] {
      var rs := ReadingsOf(p, ts);
      assert rs[1..] == ReadingsOf(p, ts[1..]);
      ReadIssues(f, p, ts[0]);
      IssuesOwnIds(Read(f, rs[0]), p, ts[1..]);
      IdsUnfold(f.gens[p], ts);
      Joined(f.issued, IdsNow(f.gens[p], ts[0]), Ids(Tick(f.gens[p], ts[0]).0, ts[1..]));
    }
  }

  lemma Joined(a: seq<nat>, b: seq<nat>, c: seq<nat>)
    ensures (a + b) + c == a + (b + c)
  {
  }
}
