/** Unique identifiers carried through the send pipeline: with distinct workers and clocks that never
    run backwards, no INSERT of a message is refused by the primary key. */
module PrimaryKey {
  import opened Domain
  import opened MessageTable
  import opened Snowflake
  import opened Fleet
  import opened SendPipeline

  /** The clock readings a step takes. */
  function Reads(s: State, e: Event): seq<Reading> {
    match e
    case AssignId(r, ts) =>
      if At(s, r, Admitted) && OneCall(s.fleet, s.reqs[r].server, ts) then ReadingsOf(s.reqs[r].server, ts) else []
    case DrawOther(server, ts) => if OneCall(s.fleet, server, ts) then ReadingsOf(server, ts) else []
    case _ => []
  }

  /** All clock readings of a run, in order. */
  function RunReads(s: State, es: seq<Event>): seq<Reading>
    decreases |es|
  {
    if es == [] then [] else Reads(s, es[0]) + RunReads(Apply(s, es[0]), es[1..])
  }

  lemma FleetReads(s: State, e: Event)
    ensures Apply(s, e).fleet == ReadAll(s.fleet, Reads(s, e))
  {
  }

  lemma {:induction false} SteadySplit(f: Fleet, a: seq<Reading>, b: seq<Reading>)
    requires AllSteady(f, a + b)
    ensures AllSteady(f, a) && AllSteady(ReadAll(f, a), b)
    decreases |a|
  {
    if a == [] {
      assert a + b == b;
    } else {
      assert (a + b)[1..] == a[1..] + b;
      SteadySplit(Read(f, a[0]), a[1..], b);
    }
  }

  /** Every assigned ID was issued, and no two requests share one. */
  ghost predicate KeyInv(s: State) {
    && FleetInv(s.fleet)
    && (forall r :: r in s.reqs && s.reqs[r].id.Some? ==> s.reqs[r].id.value in s.fleet.issued)
    && (forall a, b :: a in s.reqs && b in s.reqs && a != b && s.reqs[a].id.Some? ==> s.reqs[b].id != s.reqs[a].id)
  }

  /** The step gives a request its ID. */
  predicate Numbers(s: State, e: Event) {
    e.AssignId? && At(s, e.req, Admitted) && OneCall(s.fleet, s.reqs[e.req].server, e.readings)
  }

  lemma IdsUnchanged(s: State, e: Event, k: nat)
    requires !Numbers(s, e) && k in Apply(s, e).reqs
    ensures if k in s.reqs then Apply(s, e).reqs[k].id == s.reqs[k].id else Apply(s, e).reqs[k].id.None?
  {
    if !OfRequest(e) {
      RequestsStay(s, e);
    } else if e.ClaimKey? || e.CheckMember? || e.AssignId? {
      EarlyIdsUnchanged(s, e, k);
    }
  }

  lemma EarlyIdsUnchanged(s: State, e: Event, k: nat)
    requires (e.ClaimKey? || e.CheckMember? || e.AssignId?) && !Numbers(s, e) && k in Apply(s, e).reqs
    ensures k in s.reqs && Apply(s, e).reqs[k].id == s.reqs[k].id
  {
  }

  lemma NumberedFresh(s: State, e: Event)
    requires FleetInv(s.fleet) && Numbers(s, e) && AllSteady(s.fleet, Reads(s, e))
    ensures var s' := Apply(s, e);
            && s'.reqs == s.reqs[e.req := s'.reqs[e.req]]
            && s'.reqs[e.req].id.Some? && s'.reqs[e.req].id.value !in s.fleet.issued
            && s'.fleet.issued == s.fleet.issued + [s'.reqs[e.req].id.value]
  {
    IssuedFresh(s.fleet, ReadingsOf(s.reqs[e.req].server, e.readings));
  }

  lemma KeyKept(s: State, e: Event)
    requires KeyInv(s) && AllSteady(s.fleet, Reads(s, e))
    ensures KeyInv(Apply(s, e))
  {
    var s' := Apply(s, e);
    FleetReads(s, e);
    ReadAllKeeps(s.fleet, Reads(s, e));
    if Numbers(s, e) {
      NumberedFresh(s, e);
      IdAdded(s, s', e.req);
    } else {
      forall k | k in s'.reqs
        ensures if k in s.reqs then s'.reqs[k].id == s.reqs[k].id else s'.reqs[k].id.None?
      {
        IdsUnchanged(s, e, k);
      }
      IdsStay(s, s');
    }
  }

  lemma IdAdded(s: State, s': State, r: nat)
    requires KeyInv(s) && FleetInv(s'.fleet) && r in s'.reqs && s'.reqs == s.reqs[r := s'.reqs[r]]
    requires s'.reqs[r].id.Some? && s'.reqs[r].id.value !in s.fleet.issued
    requires s'.fleet.issued == s.fleet.issued + [s'.reqs[r].id.value]
    ensures KeyInv(s')
  {
  }

  lemma IdsStay(s: State, s': State)
    requires KeyInv(s) && FleetInv(s'.fleet) && s.fleet.issued <= s'.fleet.issued
    requires forall k :: k in s'.reqs ==> if k in s.reqs then s'.reqs[k].id == s.reqs[k].id else s'.reqs[k].id.None?
    ensures KeyInv(s')
  {
  }

  lemma {:induction false} KeyRun(s: State, es: seq<Event>)
    requires KeyInv(s) && AllSteady(s.fleet, RunReads(s, es))
    ensures KeyInv(RunEvents(s, es))
    decreases |es|
  {
    if es != [] {
      FleetReads(s, es[0]);
      SteadySplit(s.fleet, Reads(s, es[0]), RunReads(Apply(s, es[0]), es[1..]));
      KeyKept(s, es[0]);
      KeyRun(Apply(s, es[0]), es[1..]);
    }
  }

  /** In any interleaving of servers with distinct effective workers whose clocks never run backwards,
      the ID of a request about to be stored is free, so the INSERT goes through unless the database fails. */
  lemma NoKeyViolation(s: State, workerIDs: map<string, int>, es: seq<Event>, r: nat)
    requires Initial(s) && s.fleet == NewFleet(workerIDs)
    requires DistinctEffective(workerIDs)
    requires ForwardClocks(RunReads(s, es))
    requires At(RunEvents(s, es), r, Numbered)
    ensures var s' := RunEvents(s, es);
            && s'.reqs[r].id.Some? && !HasId(s'.table, s'.reqs[r].id.value)
            && At(Apply(s', Persist(r, Works)), r, Stored)
  {
    NewFleetInv(workerIDs);
    SteadyClocks(s.fleet, RunReads(s, es));
    KeyRun(s, es);
    RunFromInitial(s, es);
    NumberedIsFree(RunEvents(s, es), r);
  }

  lemma NumberedIsFree(s: State, r: nat)
    requires Inv(s) && KeyInv(s) && At(s, r, Numbered)
    ensures s.reqs[r].id.Some? && !HasId(s.table, s.reqs[r].id.value)
    ensures At(Apply(s, Persist(r, Works)), r, Stored)
  {
    assert RequestOk(s, r);
    forall m | m in s.table ensures m.id != s.reqs[r].id.value {
      assert RowOk(s, m);
    }
  }
}
