/** services/api-server/internal/service/message_service.go as an interleaved protocol: any number of
    requests on any number of servers, each advancing one step at a time, with a failure or a crash
    possible at every step. MySQL, Redis, the broker and time are explicit state. */
module SendPipeline {
  import opened Domain
  import opened MessageTable
  import opened Snowflake
  import opened Fleet

  const LOCK_TTL: nat := 30_000  // milliseconds

  /** How far SendMessage has got with a request. */
  datatype Stage =
    | Arrived              // handler validation passed
    | Claimed              // idempotency guard passed
    | Admitted             // membership confirmed
    | Numbered             // Snowflake ID assigned
    | Stored               // INSERT acknowledged
    | Replied(status: nat)
    | Crashed

  /** A request and its message. `inserted` says whether its row is in the database, whatever the
      server was told; `claimedAt` is the time at which it set its idempotency key. */
  datatype Request = Request(
    server: string, key: string, conv: string, sender: string, content: string,
    stage: Stage, id: Option<nat>, inserted: bool, claimedAt: Option<nat>)

  datatype Publication = Publication(room: string, msg: Message)

  datatype Claim = Claim(key: string, at: nat, req: nat)

  datatype State = State(
    now: nat,                        // time at Redis, in milliseconds
    locks: map<string, nat>,         // idempotency key -> expiry
    members: set<(string, string)>,  // (channel, user)
    table: Table,
    owner: map<nat, nat>,            // row ID -> request that inserted it
    fleet: Fleet,
    reqs: map<nat, Request>,
    published: seq<Publication>,
    claims: seq<Claim>)              // every idempotency key set, in order

  datatype Event =
    | Arrive(req: nat, server: string, key: string, conv: string, sender: string, content: string)
    | ClaimKey(req: nat, redis: Outcome)
    | CheckMember(req: nat, fails: bool)
    | AssignId(req: nat, readings: seq<int>)
    | Persist(req: nat, db: Outcome)
    | Broadcast(req: nat, broker: Outcome)
    | Crash(req: nat)
    | Elapse(ms: nat)
    | Join(conv: string, user: string)
    | Leave(conv: string, user: string)
    | DrawOther(server: string, readings: seq<int>)  // IDs for users and channels, same generator

  datatype SendError = NoError | ErrDuplicateRequest | ErrNotMember | ErrOther

  /** The switch in HandleSendMessage. */
  function StatusOf(e: SendError): nat {
    match e
    case NoError => 202
    case ErrDuplicateRequest => 409
    case ErrNotMember => 403
    case ErrOther => 500
  }

  function RowOf(q: Request): Message
    requires q.id.Some?
  {
    Message(q.id.value, q.conv, q.sender, q.content)
  }

  predicate At(s: State, r: nat, stage: Stage) {
    r in s.reqs && s.reqs[r].stage == stage
  }

  function Move(s: State, r: nat, stage: Stage): State
    requires r in s.reqs
  {
    s.(reqs := s.reqs[r := s.reqs[r].(stage := stage)])
  }

  function Reply(s: State, r: nat, e: SendError): State
    requires r in s.reqs
  {
    Move(s, r, Replied(StatusOf(e)))
  }

  // ------------------------------------------------------------------- steps

  function DoArrive(s: State, r: nat, server: string, key: string, conv: string, sender: string, content: string): State {
    if r in s.reqs then s
    else
      var stage := if conv == "" || sender == "" || content == "" then Replied(400) else Arrived;
      s.(reqs := s.reqs[r := Request(server, key, conv, sender, content, stage, None, false, None)])
  }

  predicate Free(s: State, key: string) {
    key !in s.locks || s.locks[key] <= s.now
  }

  function SetKey(s: State, r: nat): State
    requires r in s.reqs
  {
    var q := s.reqs[r];
    s.(locks := s.locks[q.key := s.now + LOCK_TTL],
       claims := s.claims + [Claim(q.key, s.now, r)],
       reqs := s.reqs[r := q.(claimedAt := Some(s.now))])
  }

  /** SETNX with a 30 s TTL (shared/repository/cache_repo.go), skipped for an empty key. */
  function DoClaim(s: State, r: nat, redis: Outcome): State {
    if !At(s, r, Arrived) then s
    else if s.reqs[r].key == "" then Move(s, r, Claimed)
    else if redis.FailsUndone? then Reply(s, r, ErrOther)
    else if !Free(s, s.reqs[r].key) then Reply(s, r, if redis.Works? then ErrDuplicateRequest else ErrOther)
    else if redis.Works? then Move(SetKey(s, r), r, Claimed)
    else Reply(SetKey(s, r), r, ErrOther)
  }

  function DoCheck(s: State, r: nat, fails: bool): State {
    if !At(s, r, Claimed) then s
    else if fails then Reply(s, r, ErrOther)
    else if (s.reqs[r].conv, s.reqs[r].sender) !in s.members then Reply(s, r, ErrNotMember)
    else Move(s, r, Admitted)
  }

  /** The readings make up exactly one complete call of Next on that server. */
  predicate OneCall(f: Fleet, server: string, ts: seq<int>) {
    && server in f.gens && !f.gens[server].spinning
    && var f' := ReadAll(f, ReadingsOf(server, ts));
       |f'.issued| == |f.issued| + 1 && server in f'.gens && !f'.gens[server].spinning
  }

  function DoAssign(s: State, r: nat, ts: seq<int>): State {
    if !At(s, r, Admitted) || !OneCall(s.fleet, s.reqs[r].server, ts) then s
    else
      var f := ReadAll(s.fleet, ReadingsOf(s.reqs[r].server, ts));
      s.(fleet := f, reqs := s.reqs[r := s.reqs[r].(stage := Numbered, id := Some(f.issued[|f.issued| - 1]))])
  }

  function DrawIds(s: State, server: string, ts: seq<int>): State {
    if OneCall(s.fleet, server, ts) then s.(fleet := ReadAll(s.fleet, ReadingsOf(server, ts))) else s
  }

  function AddRow(s: State, r: nat): State
    requires r in s.reqs && s.reqs[r].id.Some?
  {
    var q := s.reqs[r];
    s.(table := InsertRow(s.table, RowOf(q)),
       owner := s.owner[q.id.value := r],
       reqs := s.reqs[r := q.(inserted := true)])
  }

  /** The INSERT; a taken primary key is refused. */
  function DoPersist(s: State, r: nat, db: Outcome): State {
    if !At(s, r, Numbered) || s.reqs[r].id.None? then s
    else if db.FailsUndone? || HasId(s.table, s.reqs[r].id.value) then Reply(s, r, ErrOther)
    else if db.Works? then Move(AddRow(s, r), r, Stored)
    else Reply(AddRow(s, r), r, ErrOther)
  }

  function AddPublication(s: State, r: nat): State
    requires r in s.reqs && s.reqs[r].id.Some?
  {
    s.(published := s.published + [Publication(Room(s.reqs[r].conv), RowOf(s.reqs[r]))])
  }

  function DoBroadcast(s: State, r: nat, broker: Outcome): State {
    if !At(s, r, Stored) || s.reqs[r].id.None? then s
    else match broker
      case Works => Reply(AddPublication(s, r), r, NoError)
      case FailsUndone => Reply(s, r, ErrOther)
      case FailsDone => Reply(AddPublication(s, r), r, ErrOther)
  }

  function DoCrash(s: State, r: nat): State {
    if r in s.reqs && !s.reqs[r].stage.Replied? then Move(s, r, Crashed) else s
  }

  function Apply(s: State, e: Event): State {
    match e
    case Arrive(r, server, key, conv, sender, content) => DoArrive(s, r, server, key, conv, sender, content)
    case ClaimKey(r, redis) => DoClaim(s, r, redis)
    case CheckMember(r, fails) => DoCheck(s, r, fails)
    case AssignId(r, ts) => DoAssign(s, r, ts)
    case Persist(r, db) => DoPersist(s, r, db)
    case Broadcast(r, broker) => DoBroadcast(s, r, broker)
    case Crash(r) => DoCrash(s, r)
    case Elapse(ms) => s.(now := s.now + ms)
    case Join(conv, user) => s.(members := s.members + {(conv, user)})
    case Leave(conv, user) => s.(members := s.members - {(conv, user)})
    case DrawOther(server, ts) => DrawIds(s, server, ts)
  }

  function RunEvents(s: State, es: seq<Event>): State
    decreases |es|
  {
    if es == [] then s else RunEvents(Apply(s, es[0]), es[1..])
  }

  /** Empty stores, no request yet; any membership and any configured workers. */
  ghost predicate Initial(s: State) {
    && s.locks == map[] && s.table == [] && s.owner == map[] && s.reqs == map[]
    && s.published == [] && s.claims == [] && s.fleet.issued == []
  }

  // -------------------------------------------------- what the database holds

  ghost predicate RequestOk(s: State, r: nat)
    requires r in s.reqs
  {
    var q := s.reqs[r];
    && (q.stage.Arrived? ==> q.claimedAt.None?)
    && (q.stage.Arrived? || q.stage.Claimed? || q.stage.Admitted? ==> q.id.None?)
    && (q.stage.Numbered? ==> q.id.Some? && !q.inserted)
    && (q.stage.Stored? || q.stage == Replied(202) ==> q.inserted)
    && (q.stage == Replied(403) || q.stage == Replied(409) || q.stage == Replied(400) ==> q.id.None?)
    && (q.inserted ==> q.id.Some? && RowOf(q) in s.table && q.id.value in s.owner && s.owner[q.id.value] == r)
  }

  ghost predicate RowOk(s: State, m: Message) {
    && m.id in s.owner && s.owner[m.id] in s.reqs
    && var q := s.reqs[s.owner[m.id]];
       q.inserted && q.id == Some(m.id) && RowOf(q) == m
  }

  ghost predicate StoreInv(s: State) {
    && Sorted(s.table)
    && (forall m :: m in s.table ==> RowOk(s, m))
    && (forall r :: r in s.reqs ==> RequestOk(s, r))
  }

  /** Only request r changed, and only in its stage, its number and its claim time. */
  ghost predicate Touched(s: State, s': State, r: nat) {
    && r in s.reqs && r in s'.reqs && s'.reqs == s.reqs[r := s'.reqs[r]]
    && s'.table == s.table && s'.owner == s.owner && s'.now == s.now
    && var q, q' := s.reqs[r], s'.reqs[r];
       && q' == q.(stage := q'.stage, id := q'.id, claimedAt := q'.claimedAt)
       && !q.stage.Replied? && (q.id.Some? ==> q'.id == q.id) && (q.claimedAt.Some? ==> q'.claimedAt == q.claimedAt)
  }

  /** The step stores a row. */
  predicate Inserts(s: State, e: Event) {
    && e.Persist? && At(s, e.req, Numbered) && s.reqs[e.req].id.Some?
    && !e.db.FailsUndone? && !HasId(s.table, s.reqs[e.req].id.value)
  }

  predicate OfRequest(e: Event) {
    e.ClaimKey? || e.CheckMember? || e.AssignId? || e.Persist? || e.Broadcast? || e.Crash?
  }

  /** Every step of a request that stores no row changes that request alone. */
  lemma TouchesOne(s: State, e: Event)
    requires OfRequest(e) && !Inserts(s, e)
    requires e.req in s.reqs ==> RequestOk(s, e.req)
    ensures Apply(s, e) == s || (Touched(s, Apply(s, e), e.req) && RequestOk(Apply(s, e), e.req))
  {
    if e.ClaimKey? {
      ClaimTouchesOne(s, e.req, e.redis);
    } else if e.Persist? || e.Broadcast? {
      FinishTouchesOne(s, e);
    }
  }

  lemma ClaimTouchesOne(s: State, r: nat, redis: Outcome)
    requires r in s.reqs ==> RequestOk(s, r)
    ensures var s' := DoClaim(s, r, redis); s' == s || (Touched(s, s', r) && RequestOk(s', r))
  {
  }

  lemma FinishTouchesOne(s: State, e: Event)
    requires (e.Persist? || e.Broadcast?) && !Inserts(s, e)
    requires e.req in s.reqs ==> RequestOk(s, e.req)
    ensures Apply(s, e) == s || (Touched(s, Apply(s, e), e.req) && RequestOk(Apply(s, e), e.req))
  {
  }

  lemma StoreTouched(s: State, s': State, r: nat)
    requires StoreInv(s) && Touched(s, s', r) && RequestOk(s', r)
    ensures StoreInv(s')
  {
    forall m | m in s'.table ensures RowOk(s', m) { assert RowOk(s, m); }
    forall k | k in s'.reqs ensures RequestOk(s', k) {
      if k != r { assert RequestOk(s, k); }
    }
  }

  lemma InsertShape(s: State, e: Event)
    requires Inserts(s, e)
    ensures var r, q, s' := e.req, s.reqs[e.req], Apply(s, e);
            && s'.table == InsertRow(s.table, RowOf(q)) && s'.owner == s.owner[q.id.value := r]
            && r in s'.reqs && s'.reqs == s.reqs[r := q.(inserted := true, stage := s'.reqs[r].stage)]
            && (s'.reqs[r].stage.Stored? || s'.reqs[r].stage == Replied(500))
  {
  }

  lemma StoreInserted(s: State, e: Event)
    requires StoreInv(s) && Inserts(s, e)
    ensures var s' := Apply(s, e);
            && StoreInv(s')
            && (forall m :: m in s'.table <==> m in s.table || m == RowOf(s.reqs[e.req]))
  {
    var r, s' := e.req, Apply(s, e);
    var q := s.reqs[r];
    InsertRowMeaning(s.table, RowOf(q));
    assert RequestOk(s, r);
    InsertShape(s, e);
    forall m | m in s'.table ensures RowOk(s', m) {
      if m in s.table { assert RowOk(s, m); }
    }
    forall k | k in s'.reqs ensures RequestOk(s', k) {
      if k != r { assert RequestOk(s, k); }
    }
  }

  lemma StoreKept(s: State, e: Event)
    requires StoreInv(s)
    ensures StoreInv(Apply(s, e))
  {
    var s' := Apply(s, e);
    if Inserts(s, e) {
      StoreInserted(s, e);
    } else if OfRequest(e) {
      TouchesOne(s, e);
      if s' != s { StoreTouched(s, s', e.req); }
    } else {
      RequestsStay(s, e);
      forall m | m in s'.table ensures RowOk(s', m) { assert RowOk(s, m); }
      forall k | k in s'.reqs ensures RequestOk(s', k) {
        if k in s.reqs { assert RequestOk(s, k); }
      }
    }
  }

  // ------------------------------------------------------ what rooms have seen

  ghost predicate PublishedInv(s: State) {
    forall i :: 0 <= i < |s.published| ==>
      s.published[i].msg in s.table && s.published[i].room == Room(s.published[i].msg.conv)
  }

  /** What a request keeps from then on. */
  predicate Persists(q: Request, q': Request) {
    && q'.conv == q.conv && q'.sender == q.sender && q'.content == q.content && q'.key == q.key
    && (q.id.Some? ==> q'.id == q.id) && (q.inserted ==> q'.inserted)
    && (q.claimedAt.Some? ==> q'.claimedAt == q.claimedAt)
    && (q.stage.Replied? ==> q' == q)
  }

  /** Rows, once stored, stay; so do publications, claims and what requests have settled. */
  ghost predicate Grows(s: State, s': State) {
    && (forall m :: m in s.table ==> m in s'.table)
    && s.published <= s'.published && s.claims <= s'.claims && s.now <= s'.now
    && (forall r :: r in s.reqs ==> r in s'.reqs && Persists(s.reqs[r], s'.reqs[r]))
  }

  lemma ApplyGrows(s: State, e: Event)
    requires StoreInv(s)
    ensures Grows(s, Apply(s, e))
  {
    LogsGrow(s, e);
    RowsGrow(s, e);
  }

  lemma RowsGrow(s: State, e: Event)
    requires StoreInv(s)
    ensures forall m :: m in s.table ==> m in Apply(s, e).table
    ensures forall r :: r in s.reqs ==> r in Apply(s, e).reqs && Persists(s.reqs[r], Apply(s, e).reqs[r])
  {
    if Inserts(s, e) {
      InsertPersists(s, e);
    } else if OfRequest(e) {
      TouchesOne(s, e);
      TouchedPersists(s, Apply(s, e), e.req);
    } else {
      RequestsStay(s, e);
    }
  }

  lemma InsertPersists(s: State, e: Event)
    requires StoreInv(s) && Inserts(s, e)
    ensures forall m :: m in s.table ==> m in Apply(s, e).table
    ensures forall r :: r in s.reqs ==> r in Apply(s, e).reqs && Persists(s.reqs[r], Apply(s, e).reqs[r])
  {
    InsertShape(s, e);
    InsertRowMeaning(s.table, RowOf(s.reqs[e.req]));
  }

  lemma TouchedPersists(s: State, s': State, r: nat)
    requires s' == s || Touched(s, s', r)
    ensures s'.table == s.table && forall k :: k in s.reqs ==> k in s'.reqs && Persists(s.reqs[k], s'.reqs[k])
  {
  }

  /** Membership changes, time, other draws and arrivals leave the rows and the known requests alone. */
  lemma RequestsStay(s: State, e: Event)
    requires !OfRequest(e)
    ensures Apply(s, e).table == s.table && Apply(s, e).owner == s.owner
    ensures forall k :: k in s.reqs ==> k in Apply(s, e).reqs && Apply(s, e).reqs[k] == s.reqs[k]
    ensures forall k :: k in Apply(s, e).reqs && k !in s.reqs ==>
              RequestOk(Apply(s, e), k) && !PastGuard(Apply(s, e).reqs[k]) && Apply(s, e).reqs[k].claimedAt.None?
              && Apply(s, e).reqs[k].id.None?
  {
  }

  lemma LogsGrow(s: State, e: Event)
    ensures var s' := Apply(s, e); s.published <= s'.published && s.claims <= s'.claims && s.now <= s'.now
    ensures Apply(s, e).published != s.published ==>
              && e.Broadcast? && At(s, e.req, Stored) && s.reqs[e.req].id.Some?
              && Apply(s, e).published == s.published + [Publication(Room(s.reqs[e.req].conv), RowOf(s.reqs[e.req]))]
    ensures Apply(s, e).claims != s.claims || Apply(s, e).locks != s.locks ==> SetsKey(s, e)
  {
    if e.ClaimKey? { ClaimLogs(s, e.req, e.redis); }
  }

  lemma ClaimLogs(s: State, r: nat, redis: Outcome)
    ensures var s' := DoClaim(s, r, redis);
            && s'.published == s.published && s'.now == s.now && s.claims <= s'.claims
            && (s'.claims != s.claims || s'.locks != s.locks ==> SetsKey(s, ClaimKey(r, redis)))
  {
  }

  lemma PublishedKept(s: State, e: Event)
    requires StoreInv(s) && PublishedInv(s)
    ensures PublishedInv(Apply(s, e))
  {
    ApplyGrows(s, e);
    LogsGrow(s, e);
    if Apply(s, e).published != s.published {
      assert RequestOk(s, e.req);
    }
  }

  // ------------------------------------------------------------- idempotency

  /** The step sets an idempotency key. */
  predicate SetsKey(s: State, e: Event) {
    && e.ClaimKey? && At(s, e.req, Arrived) && s.reqs[e.req].key != ""
    && !e.redis.FailsUndone? && Free(s, s.reqs[e.req].key)
  }

  ghost predicate ClaimOk(s: State, c: Claim) {
    && c.key in s.locks && c.at + LOCK_TTL <= s.locks[c.key] && c.at <= s.now
    && c.req in s.reqs && s.reqs[c.req].key == c.key && s.reqs[c.req].claimedAt == Some(c.at)
  }

  ghost predicate HolderOk(s: State, r: nat)
    requires r in s.reqs
  {
    var q := s.reqs[r];
    && (q.claimedAt.Some? ==> Claim(q.key, q.claimedAt.value, r) in s.claims)
    && (PastGuard(q) ==> q.claimedAt.Some?)
  }

  ghost predicate ClaimInv(s: State) {
    && (forall i :: 0 <= i < |s.claims| ==> ClaimOk(s, s.claims[i]))
    && (forall i, j :: 0 <= i < j < |s.claims| && s.claims[i].key == s.claims[j].key ==>
          s.claims[i].at + LOCK_TTL <= s.claims[j].at)
    && (forall r :: r in s.reqs ==> HolderOk(s, r))
  }

  lemma KeySetKeeps(s: State, e: Event)
    requires ClaimInv(s) && SetsKey(s, e) && RequestOk(s, e.req)
    ensures ClaimInv(Apply(s, e))
  {
    var r, s' := e.req, Apply(s, e);
    KeySetShape(s, e);
    ClaimsOrdered(s, s', r);
    var c := Claim(s.reqs[r].key, s.now, r);
    forall k | k in s'.reqs ensures HolderOk(s', k) {
      assert HolderOk(s, k);
      assert c in s'.claims;
    }
  }

  lemma KeySetShape(s: State, e: Event)
    requires SetsKey(s, e)
    ensures KeySet(s, Apply(s, e), e.req)
  {
  }

  /** The key of request r was claimed now. */
  ghost predicate KeySet(s: State, s': State, r: nat) {
    && r in s.reqs && r in s'.reqs && Free(s, s.reqs[r].key) && s'.now == s.now
    && s'.claims == s.claims + [Claim(s.reqs[r].key, s.now, r)]
    && s'.locks == s.locks[s.reqs[r].key := s.now + LOCK_TTL]
    && s'.reqs == s.reqs[r := s.reqs[r].(claimedAt := Some(s.now), stage := s'.reqs[r].stage)]
    && !s'.reqs[r].stage.Arrived?
  }

  lemma ClaimsOrdered(s: State, s': State, r: nat)
    requires ClaimInv(s) && KeySet(s, s', r) && s.reqs[r].claimedAt.None?
    ensures forall i :: 0 <= i < |s'.claims| ==> ClaimOk(s', s'.claims[i])
    ensures forall i, j :: 0 <= i < j < |s'.claims| && s'.claims[i].key == s'.claims[j].key ==>
              s'.claims[i].at + LOCK_TTL <= s'.claims[j].at
  {
    forall i | 0 <= i < |s'.claims| ensures ClaimOk(s', s'.claims[i]) {
      if i < |s.claims| { assert ClaimOk(s, s.claims[i]); }
    }
    forall i, j | 0 <= i < j < |s'.claims| && s'.claims[i].key == s'.claims[j].key
      ensures s'.claims[i].at + LOCK_TTL <= s'.claims[j].at
    {
      assert ClaimOk(s, s.claims[i]);
    }
  }

  lemma ClaimsKept(s: State, e: Event)
    requires StoreInv(s) && ClaimInv(s)
    ensures ClaimInv(Apply(s, e))
  {
    var s' := Apply(s, e);
    if SetsKey(s, e) {
      KeySetKeeps(s, e);
    } else {
      LogsGrow(s, e);
      ApplyGrows(s, e);
      forall i | 0 <= i < |s'.claims| ensures ClaimOk(s', s'.claims[i]) {
        assert ClaimOk(s, s.claims[i]);
      }
      forall k | k in s'.reqs ensures HolderOk(s', k) {
        GuardHolds(s, e, k);
        if k in s.reqs { assert HolderOk(s, k); }
      }
    }
  }

  predicate PastGuard(q: Request) {
    q.key != "" && (q.id.Some? || q.stage.Claimed? || q.stage.Admitted?)
  }

  ghost predicate GuardKept(s: State, s': State, k: nat)
    requires k in s'.reqs
  {
    if k in s.reqs then
      s'.reqs[k].claimedAt == s.reqs[k].claimedAt && s'.reqs[k].key == s.reqs[k].key
      && (PastGuard(s'.reqs[k]) ==> PastGuard(s.reqs[k]))
    else !PastGuard(s'.reqs[k]) && s'.reqs[k].claimedAt.None?
  }

  /** Without a new claim no request gets past the guard, and no claim time changes. */
  lemma GuardHolds(s: State, e: Event, k: nat)
    requires !SetsKey(s, e) && k in Apply(s, e).reqs
    ensures GuardKept(s, Apply(s, e), k)
  {
    if !OfRequest(e) {
      RequestsStay(s, e);
    } else if e.ClaimKey? {
      ClaimGuards(s, e.req, e.redis, k);
    } else if e.CheckMember? || e.AssignId? {
      AdmissionGuards(s, e, k);
    } else if e.Persist? {
      PersistGuards(s, e.req, e.db, k);
    }
  }

  lemma PersistGuards(s: State, r: nat, db: Outcome, k: nat)
    requires k in DoPersist(s, r, db).reqs
    ensures GuardKept(s, DoPersist(s, r, db), k)
  {
  }

  lemma ClaimGuards(s: State, r: nat, redis: Outcome, k: nat)
    requires !SetsKey(s, ClaimKey(r, redis)) && k in DoClaim(s, r, redis).reqs
    ensures GuardKept(s, DoClaim(s, r, redis), k)
  {
  }

  lemma AdmissionGuards(s: State, e: Event, k: nat)
    requires (e.CheckMember? || e.AssignId?) && k in Apply(s, e).reqs
    ensures GuardKept(s, Apply(s, e), k)
  {
  }

  // --------------------------------------------------------------- whole runs

  ghost predicate Inv(s: State) {
    StoreInv(s) && PublishedInv(s) && ClaimInv(s)
  }

  lemma InvKept(s: State, e: Event)
    requires Inv(s)
    ensures Inv(Apply(s, e)) && Grows(s, Apply(s, e))
  {
    StoreKept(s, e);
    ApplyGrows(s, e);
    PublishedKept(s, e);
    ClaimsKept(s, e);
  }

  lemma {:induction false} RunKeeps(s: State, es: seq<Event>)
    requires Inv(s)
    ensures Inv(RunEvents(s, es)) && Grows(s, RunEvents(s, es))
    decreases |es|
  {
    if es != [] {
      InvKept(s, es[0]);
      RunKeeps(Apply(s, es[0]), es[1..]);
    }
  }

  lemma RunFromInitial(s: State, es: seq<Event>)
    requires Initial(s)
    ensures Inv(RunEvents(s, es))
  {
    RunKeeps(s, es);
  }

  /** Persist-before-publish: in every reachable state, whatever failed or crashed, everything a room
      was sent is a stored row with the same ID, channel, sender and content, in that channel's room. */
  lemma PersistBeforePublish(s: State, es: seq<Event>, i: nat)
    requires Initial(s) && i < |RunEvents(s, es).published|
    ensures var s' := RunEvents(s, es);
            var p := s'.published[i];
            p.msg in s'.table && p.room == Room(p.msg.conv)
  {
    RunFromInitial(s, es);
  }

  /** The answer agrees with the database. 202: exactly one row carries the returned ID and it is the
      request's message. 400, 403, 409: no row is the request's. 500: if a row was stored after all, it
      is the request's message and a sync from below its ID can reach it (from then on, by
      StoredStaysReachable). */
  lemma ResponseAgreesWithStore(s: State, es: seq<Event>, r: nat)
    requires Initial(s) && r in RunEvents(s, es).reqs
    ensures var s' := RunEvents(s, es);
            var q := s'.reqs[r];
            && (q.stage == Replied(202) ==>
                  q.id.Some? && RowOf(q) in s'.table && forall m :: m in s'.table && m.id == q.id.value ==> m == RowOf(q))
            && (q.stage == Replied(400) || q.stage == Replied(403) || q.stage == Replied(409) ==>
                  forall m :: m in s'.table ==> m.id in s'.owner && s'.owner[m.id] != r)
            && (forall m :: m in s'.table && m.id in s'.owner && s'.owner[m.id] == r ==>
                  q.id.Some? && m == RowOf(q) && forall after: nat :: after < m.id ==> m in History(s'.table, q.conv, after))
  {
    RunFromInitial(s, es);
    var s' := RunEvents(s, es);
    var q := s'.reqs[r];
    assert RequestOk(s', r);
    forall m | m in s'.table ensures RowOk(s', m) {}
    if q.inserted {
      forall m | m in s'.table && m.id == q.id.value ensures m == RowOf(q) {
        assert RowOk(s', m);
      }
      forall after: nat | after < q.id.value ensures RowOf(q) in History(s'.table, q.conv, after) {
        HistoryMeaning(s'.table, q.conv, after);
      }
    }
  }

  /** An acknowledged message is never lost: its row is in the table in every later state. */
  lemma AcceptedIsDurable(s: State, es: seq<Event>, later: seq<Event>, r: nat)
    requires Initial(s) && At(RunEvents(s, es), r, Replied(202))
    ensures var s1, s2 := RunEvents(s, es), RunEvents(RunEvents(s, es), later);
            s1.reqs[r].id.Some? && RowOf(s1.reqs[r]) in s2.table
  {
    RunFromInitial(s, es);
    assert RequestOk(RunEvents(s, es), r);
    RunKeeps(RunEvents(s, es), later);
  }

  /** A stored row, whatever its request was answered, stays within reach of a sync from below its ID in
      every later state. */
  lemma StoredStaysReachable(s: State, es: seq<Event>, later: seq<Event>, m: Message, after: nat)
    requires Initial(s) && m in RunEvents(s, es).table && after < m.id
    ensures var s2 := RunEvents(RunEvents(s, es), later); m in History(s2.table, m.conv, after)
  {
    RunFromInitial(s, es);
    var s1 := RunEvents(s, es);
    RunKeeps(s1, later);
    HistoryMeaning(RunEvents(s1, later).table, m.conv, after);
  }

  /** A publish that fails after the INSERT answers 500, and the row is kept. */
  lemma PublishFailureKeepsRow(s: State, r: nat, broker: Outcome)
    requires Inv(s) && At(s, r, Stored) && !broker.Works?
    ensures var s' := Apply(s, Broadcast(r, broker));
            At(s', r, Replied(500)) && s'.reqs[r].inserted && RowOf(s'.reqs[r]) in s'.table
  {
    assert RequestOk(s, r);
    InvKept(s, Broadcast(r, broker));
  }

  /** Idempotency: in every interleaving, two stored messages of different requests with the same
      non-empty key come from claims at least 30 s apart. */
  lemma SameKeyThirtySecondsApart(s: State, es: seq<Event>, a: nat, b: nat)
    requires Initial(s)
    requires var s' := RunEvents(s, es);
             && a in s'.reqs && b in s'.reqs && a != b
             && s'.reqs[a].key == s'.reqs[b].key != ""
             && s'.reqs[a].inserted && s'.reqs[b].inserted
    ensures var s' := RunEvents(s, es);
            && s'.reqs[a].claimedAt.Some? && s'.reqs[b].claimedAt.Some?
            && var ta, tb := s'.reqs[a].claimedAt.value, s'.reqs[b].claimedAt.value;
               ta + LOCK_TTL <= tb || tb + LOCK_TTL <= ta
  {
    RunFromInitial(s, es);
    var s' := RunEvents(s, es);
    assert RequestOk(s', a) && RequestOk(s', b);
    var qa, qb := s'.reqs[a], s'.reqs[b];
    var i :| 0 <= i < |s'.claims| && s'.claims[i] == Claim(qa.key, qa.claimedAt.value, a);
    var j :| 0 <= j < |s'.claims| && s'.claims[j] == Claim(qb.key, qb.claimedAt.value, b);
    assert i != j;
  }

  /** Keys are set at least 30 s apart: in every interleaving, two claims of the same key are by different
      requests and separated by the lock's lifetime, whatever became of the first holder. */
  lemma ClaimsThirtySecondsApart(s: State, es: seq<Event>, i: nat, j: nat)
    requires Initial(s) && i < j < |RunEvents(s, es).claims|
    requires RunEvents(s, es).claims[i].key == RunEvents(s, es).claims[j].key
    ensures var c := RunEvents(s, es).claims; c[i].at + LOCK_TTL <= c[j].at && c[i].req != c[j].req
  {
    RunFromInitial(s, es);
    var s' := RunEvents(s, es);
    assert ClaimOk(s', s'.claims[i]) && ClaimOk(s', s'.claims[j]);
  }

  /** One request stores at most one row, whatever happens to it. */
  lemma OneRowPerRequest(s: State, es: seq<Event>, m: Message, n: Message)
    requires Initial(s)
    requires var s' := RunEvents(s, es);
             && m in s'.table && n in s'.table
             && m.id in s'.owner && n.id in s'.owner && s'.owner[m.id] == s'.owner[n.id]
    ensures m == n
  {
    RunFromInitial(s, es);
    assert RowOk(RunEvents(s, es), m) && RowOk(RunEvents(s, es), n);
  }

  /** A claimed key blocks every other request for 30 s no matter how its holder ended: after any run
      shorter than that, a new attempt is answered 409 (or 500 when Redis itself fails). */
  lemma KeyHeldThroughFailure(s: State, es: seq<Event>, later: seq<Event>, i: nat, r: nat, redis: Outcome)
    requires Initial(s)
    requires i < |RunEvents(s, es).claims|
    requires var s2 := RunEvents(RunEvents(s, es), later);
             && At(s2, r, Arrived) && s2.reqs[r].key == RunEvents(s, es).claims[i].key != ""
             && s2.now < RunEvents(s, es).claims[i].at + LOCK_TTL
    ensures At(Apply(RunEvents(RunEvents(s, es), later), ClaimKey(r, redis)), r, Replied(if redis.Works? then 409 else 500))
  {
    RunFromInitial(s, es);
    RunKeeps(RunEvents(s, es), later);
    var s1, s2 := RunEvents(s, es), RunEvents(RunEvents(s, es), later);
    assert s2.claims[i] == s1.claims[i];
  }
}
