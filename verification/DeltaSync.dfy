/** services/api-server/internal/service/sync_service.go: the per-channel delta map, and the catch-up
    loop a client runs with it. */
module DeltaSync {
  import opened Domain
  import opened MessageTable

  type CatchUpMap = map<string, nat>
  type DeltaMap = map<string, seq<Message>>

  function Deltas(t: Table, catchUp: CatchUpMap): (d: DeltaMap) {
    map c | c in catchUp && Page(t, c, catchUp[c]) != [] :: Page(t, c, catchUp[c])
  }

  /** Which fault, if any, the database shows to each channel's query. */
  type Faults = map<string, QueryFault>

  predicate Fails(t: Table, conv: string, after: nat, faults: Faults) {
    conv in faults &&
    (faults[conv].QueryFails? || faults[conv].RowsFail?
     || (faults[conv].ScanFails? && faults[conv].at < |Page(t, conv, after)|))
  }

  /** SyncDeltas: one query per requested channel in arbitrary order. One failing query loses the whole
      answer; otherwise exactly the channels with news are present, each with its page. */
  method SyncDeltas(t: Table, catchUp: CatchUpMap, faults: Faults) returns (r: Result<DeltaMap>)
    requires Sorted(t)
    ensures r.Ok? ==> r.value == Deltas(t, catchUp)
    ensures r.Ok? ==> forall c :: c in r.value <==> c in catchUp && History(t, c, catchUp[c]) != []
    ensures r.Err? <==> exists c :: c in catchUp && Fails(t, c, catchUp[c], faults)
  {
    var deltas: DeltaMap := map[];
    var todo := catchUp.Keys;
    while todo != {}
      invariant todo <= catchUp.Keys
      invariant forall c :: c in catchUp && c !in todo ==> !Fails(t, c, catchUp[c], faults)
      invariant deltas == Deltas(t, catchUp) - todo
      decreases |todo|
    {
      var convID :| convID in todo;
      var missed := GetMessagesSince(t, convID, catchUp[convID], if convID in faults then faults[convID] else NoFault);
      if missed.Err? {
        return Err;
      }
      OneMoreChannel(t, catchUp, todo, convID);
      if |missed.value| > 0 {
        deltas := deltas[convID := missed.value];
      }
      todo := todo - {convID};
    }
    NewsIff(t, catchUp);
    return Ok(deltas);
  }

  lemma OneMoreChannel(t: Table, catchUp: CatchUpMap, todo: set<string>, c: string)
    requires c in todo && c in catchUp
    ensures var d, page := Deltas(t, catchUp) - todo, Page(t, c, catchUp[c]);
            (if page == [] then d else d[c := page]) == Deltas(t, catchUp) - (todo - {c})
  {
  }

  /** Exactly the requested channels with something new are in the answer. */
  lemma NewsIff(t: Table, catchUp: CatchUpMap)
    requires Sorted(t)
    ensures forall c :: c in Deltas(t, catchUp) <==> c in catchUp && History(t, c, catchUp[c]) != []
  {
    forall c | c in catchUp ensures Page(t, c, catchUp[c]) != [] <==> History(t, c, catchUp[c]) != [] {
      PageThenRest(t, c, catchUp[c]);
    }
  }

  // -------------------------------------------------------------- catching up

  /** The next request: each answered channel moves to the last ID it was sent. */
  function Advance(catchUp: CatchUpMap, d: DeltaMap): (next: CatchUpMap)
    ensures next.Keys == catchUp.Keys
  {
    map c | c in catchUp :: if c in d && d[c] != [] then d[c][|d[c]| - 1].id else catchUp[c]
  }

  /** Rows that a request still leaves to be fetched. */
  function Pending(t: Table, catchUp: CatchUpMap): nat {
    if t == [] then 0
    else (if t[0].conv in catchUp && t[0].id > catchUp[t[0].conv] then 1 else 0) + Pending(t[1..], catchUp)
  }

  lemma {:induction false} PendingFalls(t: Table, a: CatchUpMap, b: CatchUpMap)
    requires a.Keys == b.Keys && forall c :: c in a ==> a[c] <= b[c]
    ensures Pending(t, b) <= Pending(t, a)
    ensures (exists m :: m in t && m.conv in a && a[m.conv] < m.id <= b[m.conv]) ==> Pending(t, b) < Pending(t, a)
  {
    if t != [] {
      PendingFalls(t[1..], a, b);
      assert forall m :: m in t <==> m == t[0] || m in t[1..];
    }
  }

  lemma RoundShrinks(t: Table, catchUp: CatchUpMap)
    requires Sorted(t) && Deltas(t, catchUp) != map[]
    ensures Pending(t, Advance(catchUp, Deltas(t, catchUp))) < Pending(t, catchUp)
  {
    var d := Deltas(t, catchUp);
    var next := Advance(catchUp, d);
    forall c | c in catchUp ensures catchUp[c] <= next[c] {
      PageThenRest(t, c, catchUp[c]);
    }
    var c :| c in d;
    var m := LastNew(t, c, catchUp[c]);
    PendingFalls(t, catchUp, next);
  }

  lemma LastNew(t: Table, c: string, after: nat) returns (m: Message)
    requires Sorted(t) && Page(t, c, after) != []
    ensures m == Page(t, c, after)[|Page(t, c, after)| - 1] && m in t && m.conv == c && m.id > after
  {
    PageMeaning(t, c, after);
    m := Page(t, c, after)[|Page(t, c, after)| - 1];
    assert m in Page(t, c, after);
  }

  /** Repeat the request with the last returned IDs until the answer is empty, appending page after page.
      It stops on every table: each round leaves fewer rows to be fetched. */
  ghost function CatchUp(t: Table, catchUp: CatchUpMap): (got: DeltaMap)
    requires Sorted(t)
    ensures got.Keys == catchUp.Keys
    decreases Pending(t, catchUp)
  {
    var d := Deltas(t, catchUp);
    if d == map[] then map c | c in catchUp :: []
    else
      RoundShrinks(t, catchUp);
      Join(catchUp, d, CatchUp(t, Advance(catchUp, d)))
  }

  /** An answer followed by the answers after it, channel by channel. */
  function Join(catchUp: CatchUpMap, d: DeltaMap, rest: DeltaMap): (got: DeltaMap)
    requires rest.Keys == catchUp.Keys
    ensures got.Keys == catchUp.Keys
  {
    map c | c in catchUp :: (if c in d then d[c] else []) + rest[c]
  }

  /** On a quiescent table of any size, the concatenated pages of each requested channel are its full
      history above the starting cursor: nothing skipped, nothing repeated, in ID order. */
  lemma {:induction false} CatchUpIsHistory(t: Table, catchUp: CatchUpMap, c: string)
    requires Sorted(t) && c in catchUp
    ensures CatchUp(t, catchUp)[c] == History(t, c, catchUp[c])
    ensures Sorted(CatchUp(t, catchUp)[c])
    decreases Pending(t, catchUp)
  {
    var d := Deltas(t, catchUp);
    RoundSplits(t, catchUp, c);
    HistoryMeaning(t, c, catchUp[c]);
    if d != map[] {
      RoundShrinks(t, catchUp);
      CatchUpIsHistory(t, Advance(catchUp, d), c);
    }
  }

  /** One round: what it brings for a channel, followed by what the next request would be owed. */
  lemma RoundSplits(t: Table, catchUp: CatchUpMap, c: string)
    requires Sorted(t) && c in catchUp
    ensures var d := Deltas(t, catchUp);
            && (if c in d then d[c] else []) + History(t, c, Advance(catchUp, d)[c]) == History(t, c, catchUp[c])
            && (d == map[] ==> History(t, c, catchUp[c]) == [])
  {
    PageThenRest(t, c, catchUp[c]);
    var d := Deltas(t, catchUp);
    if d == map[] { assert c !in d; }
  }

  /** Two clients that start from 0 and ask for any sets of channels end with the same sequence for
      every channel both asked for. */
  lemma ClientsConverge(t: Table, a: CatchUpMap, b: CatchUpMap, c: string)
    requires Sorted(t) && c in a && c in b && a[c] == b[c] == 0
    ensures CatchUp(t, a)[c] == CatchUp(t, b)[c]
    ensures forall m :: m in t && m.conv == c && m.id > 0 ==> m in CatchUp(t, a)[c]
  {
    CatchUpIsHistory(t, a, c);
    CatchUpIsHistory(t, b, c);
    HistoryMeaning(t, c, 0);
  }
}
