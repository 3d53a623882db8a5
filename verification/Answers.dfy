/** Why a request was answered as it was: each answer in a finished run is traced back to the step that
    gave it and to the state in which that step was taken (HandleSendMessage, SendMessage). */
module Answers {
  import opened Domain
  import opened SendPipeline

  lemma {:induction false} RunSnoc(s: State, es: seq<Event>)
    requires es != []
    ensures RunEvents(s, es) == Apply(RunEvents(s, es[..|es| - 1]), es[|es| - 1])
    decreases |es|
  {
    var front := es[..|es| - 1];
    if |es| > 1 {
      RunSnoc(Apply(s, es[0]), es[1..]);
      assert es[1..][..|es| - 2] == front[1..];
    } else {
      assert es[1..] == [] && front == [];
    }
  }

  /** What holds at the end of a run and not at its start was brought about by one of its steps. */
  lemma {:induction false} BroughtAbout(s: State, es: seq<Event>, P: State -> bool) returns (k: nat)
    requires !P(s) && P(RunEvents(s, es))
    ensures k < |es| && !P(RunEvents(s, es[..k])) && P(Apply(RunEvents(s, es[..k]), es[k]))
    decreases |es|
  {
    var n := |es| - 1;
    RunSnoc(s, es);
    if P(RunEvents(s, es[..n])) {
      k := BroughtAbout(s, es[..n], P);
      assert es[..n][..k] == es[..k];
    } else {
      k := n;
    }
  }

  /** The request has been admitted to the channel. */
  predicate Admission(s: State, r: nat) {
    r in s.reqs && (s.reqs[r].stage.Admitted? || s.reqs[r].id.Some?)
  }

  lemma AdmissionStep(s: State, e: Event, r: nat)
    requires !Admission(s, r) && Admission(Apply(s, e), r)
    ensures e == CheckMember(r, false) && At(s, r, Claimed) && (s.reqs[r].conv, s.reqs[r].sender) in s.members
    ensures Apply(s, e).reqs[r].conv == s.reqs[r].conv && Apply(s, e).reqs[r].sender == s.reqs[r].sender
  {
  }

  lemma RefusalStep(s: State, e: Event, r: nat, status: nat)
    requires status == 403 || status == 409
    requires !At(s, r, Replied(status)) && At(Apply(s, e), r, Replied(status))
    ensures r in s.reqs
    ensures status == 403 ==> e == CheckMember(r, false) && At(s, r, Claimed) && (s.reqs[r].conv, s.reqs[r].sender) !in s.members
    ensures status == 409 ==> e == ClaimKey(r, Works) && At(s, r, Arrived) && s.reqs[r].key != "" && !Free(s, s.reqs[r].key)
  {
    if e.ClaimKey? {
      ClaimRefusal(s, e.req, e.redis, r, status);
    }
  }

  lemma ClaimRefusal(s: State, c: nat, redis: Outcome, r: nat, status: nat)
    requires status == 403 || status == 409
    requires !At(s, r, Replied(status)) && At(DoClaim(s, c, redis), r, Replied(status))
    ensures r == c && status == 409 && redis.Works? && At(s, r, Arrived) && s.reqs[r].key != "" && !Free(s, s.reqs[r].key)
  {
  }

  lemma AcceptStep(s: State, e: Event, r: nat)
    requires !At(s, r, Replied(202)) && At(Apply(s, e), r, Replied(202))
    ensures e == Broadcast(r, Works) && At(s, r, Stored) && s.reqs[r].id.Some?
  {
  }

  /** Membership-gated sends: a row is in the database only if its sender was a member of its channel when
      the request was checked, before the ID was drawn. */
  lemma StoredOnlyByMembers(s: State, es: seq<Event>, r: nat) returns (k: nat)
    requires Initial(s) && r in RunEvents(s, es).reqs && RunEvents(s, es).reqs[r].inserted
    ensures k < |es| && es[k] == CheckMember(r, false)
    ensures var s', q := RunEvents(s, es[..k]), RunEvents(s, es).reqs[r];
            At(s', r, Claimed) && (q.conv, q.sender) in s'.members
  {
    RunFromInitial(s, es);
    assert RequestOk(RunEvents(s, es), r);
    k := BroughtAbout(s, es, x => Admission(x, r));
    var s' := RunEvents(s, es[..k]);
    AdmissionStep(s', es[k], r);
    SameMessage(s, es, k, r);
  }

  /** A request keeps its message for the rest of the run. */
  lemma SameMessage(s: State, es: seq<Event>, k: nat, r: nat)
    requires Initial(s) && k <= |es| && r in RunEvents(s, es[..k]).reqs
    ensures r in RunEvents(s, es).reqs && Persists(RunEvents(s, es[..k]).reqs[r], RunEvents(s, es).reqs[r])
  {
    RunFromInitial(s, es[..k]);
    RunKeeps(RunEvents(s, es[..k]), es[k..]);
    RunSplit(s, es, k);
  }

  lemma {:induction false} RunSplit(s: State, es: seq<Event>, k: nat)
    requires k <= |es|
    ensures RunEvents(s, es) == RunEvents(RunEvents(s, es[..k]), es[k..])
    decreases k
  {
    if k == 0 {
      assert es[0..] == es && es[..0] == [];
    } else {
      assert es[..k][1..] == es[1..][..k - 1] && es[1..][k - 1..] == es[k..];
      RunSplit(Apply(s, es[0]), es[1..], k - 1);
    }
  }

  /** 403 is given to non-members only, judged when the request was checked. */
  lemma ForbiddenMeansNonMember(s: State, es: seq<Event>, r: nat) returns (k: nat)
    requires Initial(s) && At(RunEvents(s, es), r, Replied(403))
    ensures k < |es| && es[k] == CheckMember(r, false)
    ensures var s', q := RunEvents(s, es[..k]), RunEvents(s, es).reqs[r];
            At(s', r, Claimed) && (q.conv, q.sender) !in s'.members
  {
    k := BroughtAbout(s, es, x => At(x, r, Replied(403)));
    RefusalStep(RunEvents(s, es[..k]), es[k], r, 403);
    SameMessage(s, es, k, r);
  }

  /** Every lock in Redis was set by a logged claim, with the expiry of that claim. */
  ghost predicate LocksClaimed(s: State) {
    forall key :: key in s.locks ==>
      exists i :: 0 <= i < |s.claims| && s.claims[i].key == key && s.claims[i].at + LOCK_TTL == s.locks[key]
  }

  lemma LocksKept(s: State, e: Event)
    requires LocksClaimed(s)
    ensures LocksClaimed(Apply(s, e))
  {
    var s' := Apply(s, e);
    LogsGrow(s, e);
    if SetsKey(s, e) { KeySetShape(s, e); }
    forall key | key in s'.locks
      ensures exists i :: 0 <= i < |s'.claims| && s'.claims[i].key == key && s'.claims[i].at + LOCK_TTL == s'.locks[key]
    {
      if key in s.locks && s'.locks[key] == s.locks[key] {
        var i :| 0 <= i < |s.claims| && s.claims[i].key == key && s.claims[i].at + LOCK_TTL == s.locks[key];
        assert s'.claims[i] == s.claims[i];
      } else {
        assert s'.claims[|s.claims|].key == key;
      }
    }
  }

  lemma {:induction false} LocksRun(s: State, es: seq<Event>)
    requires LocksClaimed(s)
    ensures LocksClaimed(RunEvents(s, es))
    decreases |es|
  {
    if es != [] {
      LocksKept(s, es[0]);
      LocksRun(Apply(s, es[0]), es[1..]);
    }
  }

  /** 409 is given only while another request's claim of the same key is less than 30 s old. */
  lemma ConflictMeansRecentClaim(s: State, es: seq<Event>, r: nat) returns (k: nat, i: nat)
    requires Initial(s) && At(RunEvents(s, es), r, Replied(409))
    ensures k < |es| && es[k] == ClaimKey(r, Works)
    ensures var s', q := RunEvents(s, es[..k]), RunEvents(s, es).reqs[r];
            && At(s', r, Arrived) && i < |s'.claims|
            && s'.claims[i].key == q.key && s'.claims[i].req != r
            && s'.claims[i].at <= s'.now < s'.claims[i].at + LOCK_TTL
  {
    k := BroughtAbout(s, es, x => At(x, r, Replied(409)));
    var s' := RunEvents(s, es[..k]);
    RefusalStep(s', es[k], r, 409);
    RunFromInitial(s, es[..k]);
    LocksRun(s, es[..k]);
    SameMessage(s, es, k, r);
    i := RecentClaim(s', r);
  }

  lemma RecentClaim(s: State, r: nat) returns (i: nat)
    requires Inv(s) && LocksClaimed(s) && At(s, r, Arrived) && !Free(s, s.reqs[r].key)
    ensures i < |s.claims| && s.claims[i].key == s.reqs[r].key && s.claims[i].req != r
    ensures s.claims[i].at <= s.now < s.claims[i].at + LOCK_TTL
  {
    var key := s.reqs[r].key;
    i :| 0 <= i < |s.claims| && s.claims[i].key == key && s.claims[i].at + LOCK_TTL == s.locks[key];
    assert ClaimOk(s, s.claims[i]) && RequestOk(s, r);
  }

  /** 202 is given only after the message went out to its channel's room. */
  lemma AcceptedWasPublished(s: State, es: seq<Event>, r: nat)
    requires Initial(s) && At(RunEvents(s, es), r, Replied(202))
    ensures var s' := RunEvents(s, es);
            s'.reqs[r].id.Some? && Publication(Room(s'.reqs[r].conv), RowOf(s'.reqs[r])) in s'.published
  {
    var k := BroughtAbout(s, es, x => At(x, r, Replied(202)));
    var s1 := RunEvents(s, es[..k]);
    AcceptStep(s1, es[k], r);
    SameMessage(s, es, k, r);
    RunFromInitial(s, es[..k]);
    var s2 := Apply(s1, es[k]);
    InvKept(s1, es[k]);
    assert s2.published[|s1.published|] == Publication(Room(s1.reqs[r].conv), RowOf(s1.reqs[r]));
    RunSplit(s, es, k);
    assert es[k..][0] == es[k] && es[k..][1..] == es[k + 1..];
    RunKeeps(s2, es[k + 1..]);
    assert RunEvents(s, es).published[|s1.published|] == s2.published[|s1.published|];
  }
}
