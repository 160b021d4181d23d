/** Runs from a new session that reach the states the findings are about. */
module ProtocolWitness {
  import opened Wrappers
  import opened Protocol
  import opened Leases
  import opened Submission
  import opened BatchClaim
  import opened ProtocolRuns
  import opened ProtocolSafety
  import opened ProtocolWorld
  import opened OutsideWrites

  /** One open, unclassified review thread. */
  const THREAD := Item(true, false, None, "a.py", {}, Open, IsOpen, true, None, None, None, None, None, BLANK)

  const NEW := State(map["t" := THREAD], map[], [])

  const CALL := Call("a", [], 0, map[], (i: string, item: Item) => Null, (i: string) => "L" + i)

  const REQUEST := Request("req:Lt", "Lt", Null)

  const LEASE := Lease("t", "a", Fixer, Active, TTL_SECONDS, HashOf(REQUEST), "req:Lt", RequestPath("req:Lt"), {ItemKey("t")})

  const ENTRY := Entry("t", "Lt", RequestPath("req:Lt"), true, false, REQUEST)

  const ISSUED := [ClassificationRecorded("t", "a", Fix), RequestIssued("t", "Lt", "a", "req:Lt", false)]

  const CLAIMED := THREAD.(classification := Some(Fix), decision := Some(Fix), phase := Claimed, activeLease := Some("Lt"))

  lemma NothingToExpire(s: State, now: int)
    requires forall id | id in s.leases :: !s.leases[id].Overdue(now)
    ensures Expire(s, now) == s
  {
    NothingLeftToExpire(s, now);
  }

  lemma NewLease()
    ensures CALL.mint("t") == "Lt" && RequestId("Lt") == "req:Lt"
  {
  }

  lemma ThreadIsLeased()
    ensures LeaseNew(NEW, "t", CALL) ==
            Made(State(map["t" := CLAIMED], map["Lt" := LEASE], [ClassificationRecorded("t", "a", Fix)]), ENTRY)
  {
    NewLease();
    var u := Classified(NEW, "t", "a");
    var item := THREAD.(classification := Some(Fix), decision := Some(Fix));
    assert u == State(map["t" := item], map[], [ClassificationRecorded("t", "a", Fix)]);
    NothingToExpire(u, 0);
    var g := NewGrant("t", item, CALL);
    assert g == Grant("Lt", "t", "a", Fixer, HashOf(REQUEST), "req:Lt", RequestPath("req:Lt"), true);
    assert ConflictKeys("t", item) == {ItemKey("t")};
    assert !IsBlocked(u, g, {ItemKey("t")});
    assert Claim(u, g, 0) == Some(u.(leases := map["Lt" := LEASE]));
    assert map["t" := item]["t" := CLAIMED] == map["t" := CLAIMED];
  }

  const BATCH := DoClaimBatch(["t"], CALL)

  /** After the batch claim, as stored. */
  const HELD := State(map["t" := CLAIMED.(claimedBy := Some("a"))], map["Lt" := LEASE], ISSUED)

  lemma NobodyOwns(i: string)
    ensures OwnOn(NEW, i, "a").None? && OwnActive(NEW, "a") == {}
  {
  }

  lemma ThreadIsTargeted()
    ensures Targets(NEW, ["t"], CALL) == ["t"]
  {
    NobodyOwns("t");
    assert IsTarget(NEW, "t", CALL);
    assert ["t"][..0] == [];
    assert Targets(NEW, [], CALL) == [];
  }

  const VISITED := State(map["t" := CLAIMED], map["Lt" := LEASE], [ClassificationRecorded("t", "a", Fix)])

  lemma ThreadIsVisited()
    ensures VisitAll(NEW, 2, ["t"], CALL) == Going(VISITED, 1, [ENTRY])
  {
    ThreadIsLeased();
    NobodyOwns("t");
    hide LeaseNew, OwnOn, OwnActive, THREAD, CLAIMED;
    assert ["t"][..0] == [];
    assert VisitAll(NEW, 2, [], CALL) == Going(NEW, 2, []);
  }

  lemma ClaimIsIssued()
    ensures IssueEvents([ENTRY], "a") == [RequestIssued("t", "Lt", "a", "req:Lt", false)]
  {
    assert [ENTRY][..0] == [];
    assert IssueEvents([], "a") == [];
  }

  lemma CommitFollows(s: State, order: seq<string>, c: Call, targets: seq<string>, p: Progress)
    requires Expire(s, c.now) == s && Targets(s, order, c) == targets && targets != []
    requires VisitAll(s, Quota(|OwnActive(s, c.agentId)|), targets, c) == p && p.Going? && p.entries != []
    ensures CommitBatch(s, order, c)
         == Some((p.state.(ledger := p.state.ledger + IssueEvents(p.entries, c.agentId)), p.entries))
  {
  }

  lemma ClaimIsLedgered()
    ensures VISITED.(ledger := VISITED.ledger + [RequestIssued("t", "Lt", "a", "req:Lt", false)])
         == State(map["t" := CLAIMED], map["Lt" := LEASE], ISSUED)
  {
    hide CLAIMED, LEASE;
  }

  lemma BatchIsCommitted()
    ensures CommitBatch(NEW, ["t"], CALL) == Some((State(map["t" := CLAIMED], map["Lt" := LEASE], ISSUED), [ENTRY]))
  {
    NothingToExpire(NEW, 0);
    ThreadIsTargeted();
    ThreadIsVisited();
    NobodyOwns("t");
    ClaimIsIssued();
    ClaimIsLedgered();
    hide CommitBatch, Expire, Targets, VisitAll, OwnActive, IssueEvents, NEW, CLAIMED, LEASE, ENTRY, VISITED, ISSUED;
    assert Quota(0) == 2;
    CommitFollows(NEW, ["t"], CALL, ["t"], Going(VISITED, 1, [ENTRY]));
  }

  lemma BatchIsStored()
    ensures Effect(NEW, BATCH).Some? && Commit(Effect(NEW, BATCH).value) == Some(HELD)
  {
    BatchIsCommitted();
    hide CommitBatch;
    var s := Effect(NEW, BATCH).value;
    assert s == State(map["t" := CLAIMED], map["Lt" := LEASE], ISSUED);
    assert forall id, i :: LiveOn(s, id, i) ==> id == "Lt" && i == "t";
    assert LiveOn(s, "Lt", "t") && Holder(s, "t") == "Lt";
    assert Commit(s).value.items == HELD.items;
  }

  // ------------------------------------------------------------------ answer

  const RESPONSE :=
    Response("req:Lt", "Lt", "a", "t", Known(Fix), Str("done"), None, None, None, None, None, None)

  const FILES := map[RequestPath("req:Lt") := Stored(REQUEST)]

  const SUBMIT := DoSubmit(RESPONSE, FILES, (r: Response, i: Item) => None, None, 1)

  const ANSWER := AnswerOf(RESPONSE)

  const ANSWERED_ITEM := ApplyAnswer(HELD.items["t"], ANSWER, 1)

  const LEDGER := ISSUED + [ResponseAccepted("t", "Lt", "a", Fixer, SnapshotOf(ANSWER))]

  /** After the answer, as stored. */
  const ANSWERED := State(map["t" := Unmarked(ANSWERED_ITEM)], map["Lt" := LEASE.(status := Accepted)], LEDGER)

  lemma ResponseIsPrepared()
    ensures Prepare(HELD, RESPONSE, FILES, (r: Response, i: Item) => None) == Ok(Prepared("Lt", "t", HashOf(REQUEST)))
  {
  }

  lemma ResponseIsAccepted()
    ensures AcceptSubmission(HELD, RESPONSE, Prepared("Lt", "t", HashOf(REQUEST)), 1)
         == Answered(State(map["t" := ANSWERED_ITEM], map["Lt" := LEASE.(status := Accepted)], LEDGER), "Lt")
  {
    TakeAccepts(HELD, "Lt", "a", "t", HashOf(REQUEST), 1);
  }

  lemma AnswerIsStored()
    ensures Effect(HELD, SUBMIT).Some? && Commit(Effect(HELD, SUBMIT).value) == Some(ANSWERED)
  {
    ResponseIsPrepared();
    ResponseIsAccepted();
    hide Prepare, AcceptSubmission;
    var s := Effect(HELD, SUBMIT).value;
    assert forall id, i :: !LiveOn(s, id, i);
    assert Commit(s).value.items == ANSWERED.items;
  }

  // -------------------------------------------------------------------- runs

  /** A process looks at the new session, another claims the thread and answers it. */
  const START := World(NEW, 0, map[])
  const LOOKED := World(NEW, 0, map["late" := View(NEW, 0)])
  const GRANTED := World(HELD, 1, LOOKED.views)
  const LOADED := World(HELD, 1, LOOKED.views["a" := View(HELD, 1)])
  const DONE := World(ANSWERED, 2, LOADED.views)
  const RUN := [START, LOOKED, GRANTED, LOADED, DONE]

  lemma StartIsSound()
    ensures WorldSound(START) && Whole(NEW)
  {
    NewSessionIsSound(START);
  }

  lemma MintIsFresh()
    ensures Allowed(NEW, BATCH)
  {
    forall i: string, j: string | i != j ensures CALL.mint(i) != CALL.mint(j) {
      assert ("L" + i)[1..] == i && ("L" + j)[1..] == j;
    }
  }

  lemma StepsAreTaken()
    ensures Moves(START, LOOKED) && Moves(LOOKED, GRANTED) && Moves(GRANTED, LOADED) && Moves(LOADED, DONE)
  {
    MintIsFresh();
    BatchIsStored();
    AnswerIsStored();
    hide Effect, Commit, Allowed, NEW, HELD, ANSWERED;
    assert LOOKED == After(START, Load("late"));
    assert CanStep(LOOKED, Transact(BATCH)) && GRANTED == After(LOOKED, Transact(BATCH));
    assert LOADED == After(GRANTED, Load("a"));
    assert CanStep(LOADED, Save("a", SUBMIT)) && DONE == After(LOADED, Save("a", SUBMIT));
  }

  lemma RunIsARun()
    ensures IsRun(RUN) && WorldSound(DONE)
  {
    StartIsSound();
    StepsAreTaken();
    hide Moves, WorldSound;
    EveryRunIsSound(RUN);
    assert RUN[4] in RUN;
  }

  lemma RunGoesOn(run: seq<World>, step: Step)
    requires IsRun(run) && CanStep(run[|run| - 1], step)
    ensures IsRun(run + [After(run[|run| - 1], step)])
  {
    var last := run[|run| - 1];
    assert Moves(last, After(last, step));
  }

  /** A compensation that takes an accepted lease may end any run, and leaves its acceptance without a lease. */
  lemma CompensationLoses(run: seq<World>, entries: seq<Entry>, id: string)
    requires IsRun(run) && WorldSound(run[0]) && Takes(run[|run| - 1].store, DoCompensate(entries), id)
    ensures var step := Transact(DoCompensate(entries));
            && CanStep(run[|run| - 1], step)
            && var longer := run + [After(run[|run| - 1], step)];
               && IsRun(longer) && WasCompensated(longer, |run|, id)
               && IsOnRecord(longer[|run|].store, id) && id !in longer[|run|].store.leases
               && !Whole(longer[|run|].store)
  {
    var w, step := run[|run| - 1], Transact(DoCompensate(entries));
    var v := After(w, step);
    EveryRunIsSound(run);
    hide Takes, WorldSound, ProtocolWorld.Stored;
    RunGoesOn(run, step);
    var longer := run + [v];
    assert longer[|run| - 1] == w && longer[|run|] == v;
    assert Compensates(w, v, id);
    hide Compensates;
    assert Compensates(longer[|run| - 1], longer[|run|], id);
    StepLoses(w, v, id);
    LostIsOnRecord(w, v, id);
    var e :| e in v.store.ledger && e.Accepts() && e.leaseId == id;
  }

  lemma AnsweredIsTaken()
    ensures Takes(ANSWERED, DoCompensate([ENTRY]), "Lt") && "Lt" in AcceptedLeaseIds(ANSWERED)
  {
    assert ENTRY in [ENTRY];
  }

  /** A run in which the compensation of a batch takes away an accepted lease. */
  lemma CompensationTakesAccepted()
    ensures var step := Transact(DoCompensate([ENTRY]));
            && CanStep(DONE, step)
            && var run := RUN + [After(DONE, step)];
               && IsRun(run) && "Lt" in AcceptedLeaseIds(run[4].store)
               && WasCompensated(run, 5, "Lt") && !Whole(run[5].store)
  {
    RunIsARun();
    StartIsSound();
    AnsweredIsTaken();
    hide Takes, WorldSound, ProtocolWorld.Stored, ANSWERED, HELD, NEW, ENTRY, AcceptedLeaseIds, WasCompensated, IsRun, Whole;
    CompensationLoses(RUN, [ENTRY], "Lt");
  }

  lemma ReleaseIsStored()
    ensures var s := ReleaseClaimed(HELD, "Lt");
            Commit(s).Some? && Commit(s).value.leases == map["Lt" := LEASE.(status := Released)]
  {
    var s := ReleaseClaimed(HELD, "Lt");
    assert forall id, i :: !LiveOn(s, id, i);
  }

  lemma LeaseIsHeld()
    ensures IsOwnOn(HELD, "Lt", "t", "a")
  {
  }

  /** A run in which a one-shot call is handed, and rolls back, a lease granted after its first look. */
  lemma RollbackReleasesAnothersGrant()
    ensures var step := Transact(DoRelease("Lt"));
            && OwnOn(RUN[1].store, "t", "a").None? && IsOwnOn(RUN[2].store, "Lt", "t", "a") && CanStep(GRANTED, step)
            && var run := RUN[..3] + [After(GRANTED, step)];
               IsRun(run) && "Lt" in run[3].store.leases && run[3].store.leases["Lt"].status == Released
  {
    RunIsARun();
    NobodyOwns("t");
    LeaseIsHeld();
    ReleaseIsStored();
    var step := Transact(DoRelease("Lt"));
    hide Moves, WorldSound, HELD, ReleaseClaimed, Commit, OwnOn, ANSWERED, NEW;
    assert IsRun(RUN[..3]);
    RunGoesOn(RUN[..3], step);
  }

  const LATE := Grant("M", "t", "b", Fixer, HashOf(Request("req:M", "M", Null)), "req:M", RequestPath("req:M"), true)

  lemma LateIsNew()
    ensures IsNew(ANSWERED, "M")
  {
    assert "M"[0] != "Lt"[0];
  }

  lemma LateClaimSucceeds()
    ensures ClaimOne(ANSWERED, LATE, None, 2).Some?
  {
    ClaimIgnoresPhase(ANSWERED, LATE, None, 2);
    hide ClaimOne, Overlaps;
    assert !ANSWERED.leases["Lt"].Live();
  }

  lemma AnswerIsReady()
    ensures ANSWERED.items["t"].phase == PublishReady && !IsStaleOrOutdated(ANSWERED.items["t"])
    ensures ANSWERED.items["t"].evidence.accepted.Some? && IsClaimable(THREAD)
  {
  }

  lemma AnsweredIsSound()
    ensures Sound(ANSWERED) && Marked(ANSWERED) && "t" in ANSWERED.items
  {
    RunIsARun();
    hide Sound, Marked, IsRun;
  }

  lemma LateClaimReopens()
    ensures var claimed := ClaimOne(ANSWERED, LATE, None, 2);
            && claimed.Some? && IsNew(ANSWERED, "M") && Commit(claimed.value).Some?
            && var after := Commit(ReleaseClaimed(Commit(claimed.value).value, "M"));
               && after.Some? && "t" in after.value.items
               && after.value.items["t"].phase == Open && after.value.items["t"].evidence.accepted.Some?
  {
    AnsweredIsSound();
    LateIsNew();
    LateClaimSucceeds();
    AnswerIsReady();
    hide Sound, Marked, ClaimOne, Commit, ReleaseClaimed, IsNew, IsStaleOrOutdated, ANSWERED;
    LateClaimReopensAnswer(ANSWERED, LATE, None, 2);
  }

  const CLAIM_LATE := Transact(DoClaim(LATE, None, 2))
  const GIVE_UP := Transact(DoRelease("M"))

  /** A run in which a thread claimed on an old look is open again although its answer was accepted. */
  lemma LateClaimHappens()
    ensures "t" in DONE.views["late"].state.items && IsClaimable(DONE.views["late"].state.items["t"])
    ensures CanStep(DONE, CLAIM_LATE) && CanStep(After(DONE, CLAIM_LATE), GIVE_UP)
    ensures var run := RUN + [After(DONE, CLAIM_LATE)] + [After(After(DONE, CLAIM_LATE), GIVE_UP)];
            && IsRun(run) && "t" in run[6].store.items
            && run[6].store.items["t"].phase == Open && run[6].store.items["t"].evidence.accepted.Some?
  {
    hide Moves, WorldSound, Sound, Commit, ReleaseClaimed, ClaimOne, ANSWERED, HELD, IsNew, IsRun, Allowed, ProtocolWorld.Stored;
    RunIsARun();
    AnswerIsReady();
    LateClaimReopens();
    ClaimThenRelease(DONE, LATE, None, 2);
    RunGoesOn(RUN, CLAIM_LATE);
    RunGoesOn(RUN + [After(DONE, CLAIM_LATE)], GIVE_UP);
  }

  lemma ClaimThenRelease(w: World, g: Grant, local: Option<Resolution>, now: int)
    requires ClaimOne(w.store, g, local, now).Some? && IsNew(w.store, g.leaseId)
    requires Commit(ClaimOne(w.store, g, local, now).value).Some?
    requires Commit(ReleaseClaimed(Commit(ClaimOne(w.store, g, local, now).value).value, g.leaseId)).Some?
    ensures var claim, release := Transact(DoClaim(g, local, now)), Transact(DoRelease(g.leaseId));
            && CanStep(w, claim) && CanStep(After(w, claim), release)
            && After(After(w, claim), release).store
            == Commit(ReleaseClaimed(Commit(ClaimOne(w.store, g, local, now).value).value, g.leaseId)).value
  {
    hide ClaimOne, Commit, ReleaseClaimed, IsNew;
  }

  const PUBLISHED := ANSWERED.items["t" := Written(ANSWERED.items["t"], Publish(3))]

  lemma AnswerReplays()
    ensures Replays(ANSWERED, "t") && ANSWERED.items["t"].thread
  {
    assert LEDGER[..2] == ISSUED && ISSUED[..1] == [ISSUED[0]] && ISSUED[..1][..0] == [];
    assert EvidenceOf([], "t", true) == BLANK;
    assert EvidenceOf(ISSUED[..1], "t", true) == BLANK;
    assert EvidenceOf(ISSUED, "t", true) == BLANK;
  }

  lemma PublishedIsStored()
    ensures Commit(ANSWERED.(items := PUBLISHED)).Some?
    ensures Commit(ANSWERED.(items := PUBLISHED)).value == ANSWERED.(items := PUBLISHED)
  {
    var s := ANSWERED.(items := PUBLISHED);
    assert forall id, i :: !LiveOn(s, id, i);
    assert Commit(s).value.items == PUBLISHED;
  }

  lemma ObservationIsStored(run: seq<World>, items: map<string, Item>)
    requires IsRun(run) && Observes(run[|run| - 1].store, items)
    requires Commit(run[|run| - 1].store.(items := items)) == Some(run[|run| - 1].store.(items := items))
    ensures var step := Transact(DoObserve(items));
            && CanStep(run[|run| - 1], step) && IsRun(run + [After(run[|run| - 1], step)])
            && After(run[|run| - 1], step).store == run[|run| - 1].store.(items := items)
  {
    hide Commit, Observes;
    RunGoesOn(run, Transact(DoObserve(items)));
  }

  /** A run in which publishing an accepted answer ends the full replay of its thread. */
  lemma PublishingHappens()
    ensures var step := Transact(DoObserve(PUBLISHED));
            && CanStep(DONE, step)
            && var run := RUN + [After(DONE, step)];
               && IsRun(run) && "t" in run[4].store.items && "t" in run[5].store.items
               && Replays(run[4].store, "t") && !Replays(run[5].store, "t")
  {
    RunIsARun();
    AnswerReplays();
    PublishedIsStored();
    WritesAreObservations(ANSWERED, "t", Publish(3));
    PublishEndsReplay(ANSWERED, "t", 3);
    hide WorldSound, Commit, Replays, Observes, Written, HELD, NEW, ANSWERED, IsRun, ProtocolWorld.Stored, Effect;
    ObservationIsStored(RUN, PUBLISHED);
  }
}
