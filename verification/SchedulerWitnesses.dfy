/** Runs from a fresh store in which the scheduler does not do what one would expect. */
module SchedulerWitnesses {
  import opened Options
  import opened Ordering
  import opened Bids
  import opened Scheduler
  import opened SchedulerInvariant
  import opened SchedulerTheorems
  import opened Listing
  import opened Collection
  import Store

  lemma RunCons(s: Sched, e: Event, es: seq<Event>)
    requires Enabled(s, e)
    ensures IsRun(s, [e] + es) <==> IsRun(Step(s, e), es)
    ensures IsRun(Step(s, e), es) ==> Run(s, [e] + es) == Run(Step(s, e), es)
  {
    assert ([e] + es)[1..] == es;
  }

  lemma {:induction false} RunConcat(s: Sched, a: seq<Event>, b: seq<Event>)
    requires IsRun(s, a) && IsRun(Run(s, a), b)
    ensures IsRun(s, a + b) && Run(s, a + b) == Run(Run(s, a), b)
    ensures forall id :: StartsIn(s, a + b, id) == StartsIn(s, a, id) + StartsIn(Run(s, a), b, id)
    decreases |a|
  {
    if a == [] {
      assert a + b == b;
    } else {
      assert (a + b)[1..] == a[1..] + b;
      RunConcat(Step(s, a[0]), a[1..], b);
    }
  }

  // ---- accepting a bid ----

  /** The bid is saved, its auction is won, and its proposal arrives. */
  function Accepting(bid: Bid, cid: string): seq<Event> {
    [SaveEvent(bid, 0), WinEvent(bid.id, true, bid.sources, 0), ProposalEvent(bid.id, cid, 0)]
  }

  /** The bid as it is before its proposal, and with it. */
  function Awaiting(bid: Bid): Bid { bid.(createdAt := 0, status := AwaitingProposal, updatedAt := 0) }

  lemma BidIsAccepted(s: Sched, bid: Bid, cid: string)
    requires bid.Acceptable() && bid.id !in s.bids && cid != ""
    ensures var es := Accepting(bid, cid);
            && IsRun(s, es)
            && Run(s, es) == Enqueue(s, Awaiting(bid).(proposalCid := cid), 0)
  {
    var s1 := Save(s, bid, 0);
    var s2 := Win(s1, bid.id, true, bid.sources, 0);
    assert s2.bids[bid.id] == Awaiting(bid);
    var s3 := Propose(s2, bid.id, cid, 0);
    assert s3.bids == s.bids[bid.id := s3.bids[bid.id]];
    var es := Accepting(bid, cid);
    RunCons(s2, es[2], []);
    RunCons(s1, es[1], [es[2]]);
    RunCons(s, es[0], [es[1], es[2]]);
    assert es == [es[0]] + ([es[1]] + [es[2]]) && [es[1]] + [es[2]] == [es[1], es[2]];
    assert es[1..] == [es[1], es[2]] && [es[1], es[2]][1..] == [es[2]] && [es[2]][1..] == [];
  }

  /** A bid that was accepted is saved once more: the indexes still hold it, but its status says that it
      is only submitted. */
  lemma SavingAgainBreaksTheIndexes(workers: nat, attemptLimit: nat, bid: Bid, cid: string)
    requires bid.Acceptable() && cid != ""
    ensures var es := Accepting(bid, cid);
            && IsRun(Start(workers, attemptLimit), es)
            && var s := Run(Start(workers, attemptLimit), es);
            && !Store.Agree(Store.Reindex(QueuedIds(s.bids), bid.id, bid.status, Submitted, QueuedData),
                            Store.Reindex(FetchingIds(s.bids), bid.id, bid.status, Submitted, FetchingData),
                            Save(s, bid, 0).bids)
  {
    BidIsAccepted(Start(workers, attemptLimit), bid, cid);
    var s := Run(Start(workers, attemptLimit), Accepting(bid, cid));
    assert bid.id in QueuedIds(s.bids) + FetchingIds(s.bids);
    Store.TransitionKeepsAgreementIff(QueuedIds(s.bids), FetchingIds(s.bids), s.bids,
                                      bid.(createdAt := 0), Submitted, 0);
  }

  // ---- attempts without end ----

  /** The only bid is being fetched, its job waits in the channel, and n attempts at it have finished. */
  ghost predicate Waits(s: Sched, id: string, n: nat) {
    && Inv(s) && s.attemptLimit > 0 && s.workers > 0
    && s.held == map[] && |s.jobs| == 1 && s.jobs[0].id == id && s.ticks == 0
    && s.bids.Keys == {id} && s.bids[id].attempts == n
  }

  /** The store after a worker took the job and the process crashed. */
  ghost function Crashed(s: Sched): Sched
    requires s.jobs != []
  {
    Restart(Pick(s, 0), 0)
  }

  function CrashLoop(k: nat): seq<Event> {
    if k == 0 then [] else [PickEvent(0), RestartEvent(0)] + CrashLoop(k - 1)
  }

  lemma {:induction false} NoPickNoStart(s: Sched, es: seq<Event>, id: string)
    requires IsRun(s, es) && forall e :: e in es ==> !e.PickEvent?
    ensures StartsIn(s, es, id) == 0
    decreases |es|
  {
    if es != [] {
      assert es[0] in es;
      NoPickNoStart(Step(s, es[0]), es[1..], id);
    }
  }

  lemma OnlyOneFetching(s: Sched, id: string, n: nat)
    requires Waits(s, id, n)
    ensures FetchingIds(s.bids) == {id} && s.jobs == [s.bids[id]] && QueuedIds(s.bids) == {}
  {
    assert s.jobs == [s.jobs[0]];
    assert JobIds(s.jobs) == {id} && HeldIds(s.held) == {};
  }

  lemma RestartWithOneFetching(s: Sched, id: string, n: nat)
    requires Inv(s) && s.attemptLimit > 0 && s.workers > 0 && FetchingIds(s.bids) == {id}
    requires s.bids.Keys == {id} && s.bids[id].attempts == n
    ensures Waits(Restart(s, 0), id, n)
  {
    StepKeepsInv(s, RestartEvent(0));
    RestartOwns(s, 0);
    RestartMovesForward(s, 0, id);
    AscendingLength({id});
    assert Ascending({id})[0] in Ascending({id});
    RecoveryIsQuiet(Crash(s), Ascending({id}), 0);
  }

  lemma {:induction false} RecoveryIsQuiet(s: Sched, ids: seq<string>, now: int)
    requires forall id :: id in ids ==> id in s.bids
    ensures Recover(s, ids, now).ticks == s.ticks
    decreases |ids|
  {
    if ids != [] {
      RecoveryIsQuiet(Reenqueue(s, ids[0], now), ids[1..], now);
    }
  }

  /** A worker takes the job, the process crashes, and the job waits again. */
  lemma CrashPutsTheJobBack(s: Sched, id: string, n: nat)
    requires Waits(s, id, n)
    ensures Enabled(s, PickEvent(0)) && Waits(Crashed(s), id, n)
  {
    PickKeeps(s, 0);
    OnlyOneFetching(s, id, n);
    RestartWithOneFetching(Pick(s, 0), id, n);
  }

  /** One turn of the loop, put before any run. */
  lemma CrashFirst(s: Sched, id: string, n: nat, rest: seq<Event>)
    requires Waits(s, id, n) && IsRun(Crashed(s), rest)
    ensures var es := [PickEvent(0), RestartEvent(0)] + rest;
            && IsRun(s, es) && Run(s, es) == Run(Crashed(s), rest)
            && StartsIn(s, es, id) == 1 + StartsIn(Crashed(s), rest, id)
  {
    CrashPutsTheJobBack(s, id, n);
    var p := Pick(s, 0);
    var tail := [RestartEvent(0)] + rest;
    RunCons(p, RestartEvent(0), rest);
    RunCons(s, PickEvent(0), tail);
    assert [PickEvent(0), RestartEvent(0)] + rest == [PickEvent(0)] + tail;
    assert ([PickEvent(0)] + tail)[1..] == tail && tail[1..] == rest;
  }

  /** The loop is a run that leaves the job waiting, with k attempts started. */
  ghost predicate Repeats(s: Sched, id: string, n: nat, k: nat) {
    && IsRun(s, CrashLoop(k)) && Waits(Run(s, CrashLoop(k)), id, n)
    && Run(s, CrashLoop(k)).attemptLimit == s.attemptLimit
    && StartsIn(s, CrashLoop(k), id) == k
  }

  lemma OnceMore(s: Sched, id: string, n: nat, k: nat)
    requires Waits(s, id, n) && k > 0 && Repeats(Crashed(s), id, n, k - 1)
    requires Crashed(s).attemptLimit == s.attemptLimit
    ensures Repeats(s, id, n, k)
  {
    CrashFirst(s, id, n, CrashLoop(k - 1));
  }

  lemma {:induction false} CrashesRepeatAttempts(s: Sched, id: string, n: nat, k: nat)
    requires Waits(s, id, n)
    ensures Repeats(s, id, n, k)
    decreases k
  {
    if k > 0 {
      CrashPutsTheJobBack(s, id, n);
      PickKeeps(s, 0);
      RestartKeeps(Pick(s, 0), 0);
      CrashesRepeatAttempts(Crashed(s), id, n, k - 1);
      OnceMore(s, id, n, k);
    }
  }

  /** Accepted by a fresh store, crashed k times: k attempts were started and none has finished. */
  lemma AcceptedAndCrashed(workers: nat, attemptLimit: nat, bid: Bid, cid: string, k: nat)
    requires workers > 0 && attemptLimit > 0 && bid.Acceptable() && cid != ""
    ensures var s := Start(workers, attemptLimit);
            var es := Accepting(bid, cid) + CrashLoop(k);
            && IsRun(s, es) && StartsIn(s, es, bid.id) == k && Waits(Run(s, es), bid.id, 0)
            && Run(s, es).attemptLimit == attemptLimit
  {
    var s := Start(workers, attemptLimit);
    BidIsAccepted(s, bid, cid);
    StartIsInv(workers, attemptLimit);
    RunKeepsInv(s, Accepting(bid, cid));
    var t := Run(s, Accepting(bid, cid));
    assert t.bids.Keys == {bid.id};
    CrashesRepeatAttempts(t, bid.id, 0, k);
    RunConcat(s, Accepting(bid, cid), CrashLoop(k));
    NoPickNoStart(s, Accepting(bid, cid), bid.id);
  }

  /** However low the attempt limit, crashes can make the store start any number of attempts at one
      bid: the count is saved only when an attempt finishes. */
  lemma CrashesMakeAttemptsUnbounded(workers: nat, attemptLimit: nat, bid: Bid, cid: string, k: nat)
    requires workers > 0 && attemptLimit > 0 && bid.Acceptable() && cid != ""
    ensures var s := Start(workers, attemptLimit);
            var es := Accepting(bid, cid) + CrashLoop(k);
            && IsRun(s, es) && StartsIn(s, es, bid.id) == k
            && bid.id in Run(s, es).bids && Run(s, es).bids[bid.id].Live()
  {
    AcceptedAndCrashed(workers, attemptLimit, bid, cid, k);
    var r := Run(Start(workers, attemptLimit), Accepting(bid, cid) + CrashLoop(k));
    OnlyOneFetching(r, bid.id, 0);
    assert bid.id in FetchingIds(r.bids);
  }

  // ---- as many attempts as there can be ----

  const FAILURE := Attempt(None, Some("unreachable"), None)

  lemma AttemptFails(s: Sched, id: string, n: nat)
    requires Waits(s, id, n) && n + 1 < s.attemptLimit
    ensures var f := Finish(Pick(s, 0), 0, FAILURE, 0);
            && Inv(f) && f.jobs == [] && f.held == map[] && f.ticks == 1
            && f.attemptLimit == s.attemptLimit && f.workers == s.workers
            && f.bids.Keys == {id} && f.bids[id].id == id
            && f.bids[id].status.QueuedData? && f.bids[id].attempts == n + 1
  {
    OnlyOneFetching(s, id, n);
    PickKeeps(s, 0);
    FinishKeeps(Pick(s, 0), 0, FAILURE, 0);
    var f := Finish(Pick(s, 0), 0, FAILURE, 0);
    assert s.bids[id].id == id;
    assert f.held == map[];
  }

  lemma QueuedIsSent(f: Sched, id: string, n: nat)
    requires Inv(f) && f.jobs == [] && f.held == map[] && f.ticks == 1 && f.workers > 0 && f.attemptLimit > 0
    requires f.bids.Keys == {id} && f.bids[id].id == id
    requires f.bids[id].status.QueuedData? && f.bids[id].attempts == n
    ensures var t := Next(f.(ticks := 0), 0);
            Waits(t, id, n) && t.attemptLimit == f.attemptLimit
  {
    StepKeepsInv(f, TickEvent(0));
    assert QueuedIds(f.bids) == {id};
    assert Least({id}) == id;
  }

  lemma {:induction false} RestartsConcat(a: seq<Event>, b: seq<Event>)
    ensures Restarts(a + b) == Restarts(a) + Restarts(b)
    decreases |a|
  {
    if a == [] {
      assert a + b == b;
    } else {
      assert (a + b)[1..] == a[1..] + b;
      RestartsConcat(a[1..], b);
    }
  }

  lemma {:induction false} NoRestarts(es: seq<Event>)
    requires forall e :: e in es ==> !e.RestartEvent?
    ensures Restarts(es) == 0
    decreases |es|
  {
    if es != [] {
      assert es[0] in es;
      NoRestarts(es[1..]);
    }
  }

  lemma RunOfThree(s: Sched, d: Event, e: Event, f: Event, id: string)
    requires Enabled(s, d) && Enabled(Step(s, d), e) && Enabled(Step(Step(s, d), e), f)
    requires !e.PickEvent? && !f.PickEvent?
    ensures IsRun(s, [d, e, f]) && Run(s, [d, e, f]) == Step(Step(Step(s, d), e), f)
    ensures StartsIn(s, [d, e, f], id) == Starts(s, d, id)
  {
    var t := Step(s, d);
    var u := Step(t, e);
    RunCons(u, f, []);
    RunCons(t, e, [f]);
    RunCons(s, d, [e, f]);
    assert [f] + [] == [f] && [e] + [f] == [e, f] && [d] + [e, f] == [d, e, f];
    assert [d, e, f][1..] == [e, f];
    NoPickNoStart(t, [e, f], id);
  }

  lemma FailedTurnSteps(s: Sched, id: string, n: nat, d: Event, e: Event, f: Event) returns (t: Sched)
    requires Waits(s, id, n) && n + 1 < s.attemptLimit
    requires d == PickEvent(0) && e == FinishEvent(0, FAILURE, 0) && f == TickEvent(0)
    ensures Enabled(s, d) && Enabled(Step(s, d), e) && Enabled(Step(Step(s, d), e), f)
    ensures t == Step(Step(Step(s, d), e), f) && Waits(t, id, n + 1) && t.attemptLimit == s.attemptLimit
  {
    AttemptFails(s, id, n);
    QueuedIsSent(Finish(Pick(s, 0), 0, FAILURE, 0), id, n + 1);
    t := Step(Step(Step(s, d), e), f);
  }

  /** A worker takes the job, the download fails, and the bid is sent to be fetched again. */
  lemma FailedTurn(s: Sched, id: string, n: nat) returns (es: seq<Event>, t: Sched)
    requires Waits(s, id, n) && n + 1 < s.attemptLimit
    ensures IsRun(s, es) && Run(s, es) == t && StartsIn(s, es, id) == 1 && Restarts(es) == 0
    ensures Waits(t, id, n + 1) && t.attemptLimit == s.attemptLimit
  {
    var d, e, f := PickEvent(0), FinishEvent(0, FAILURE, 0), TickEvent(0);
    t := FailedTurnSteps(s, id, n, d, e, f);
    es := [d, e, f];
    RunOfThree(s, d, e, f, id);
    NoRestarts(es);
  }

  /** Failures one after the other, k of them. */
  lemma {:induction false} FailuresCount(s: Sched, id: string, n: nat, k: nat) returns (es: seq<Event>)
    requires Waits(s, id, n) && n + k < s.attemptLimit
    ensures IsRun(s, es) && Waits(Run(s, es), id, n + k)
    ensures StartsIn(s, es, id) == k && Restarts(es) == 0
    decreases k
  {
    if k == 0 {
      return [];
    }
    var turn, t := FailedTurn(s, id, n);
    var rest := FailuresCount(t, id, n + 1, k - 1);
    es := turn + rest;
    RunConcat(s, turn, rest);
    RestartsConcat(turn, rest);
  }

  lemma OnePick(s: Sched, id: string, n: nat)
    requires Waits(s, id, n)
    ensures IsRun(s, [PickEvent(0)]) && StartsIn(s, [PickEvent(0)], id) == 1
  {
    RunCons(s, PickEvent(0), []);
    assert [PickEvent(0)] + [] == [PickEvent(0)] && [PickEvent(0)][1..] == [];
  }

  lemma {:induction false} RestartsInLoop(k: nat)
    ensures Restarts(CrashLoop(k)) == k
    decreases k
  {
    if k > 0 {
      RestartsInLoop(k - 1);
      RestartsConcat([PickEvent(0), RestartEvent(0)], CrashLoop(k - 1));
      assert [PickEvent(0), RestartEvent(0)][1..] == [RestartEvent(0)] && [RestartEvent(0)][1..] == [];
    }
  }

  /** The bound on attempts started is tight: for every limit and every number of crashes there is a run,
      crashes first and then failures, that starts as many attempts as both together. */
  lemma AttemptBoundIsTight(workers: nat, attemptLimit: nat, bid: Bid, cid: string, k: nat)
    returns (es: seq<Event>)
    requires workers > 0 && attemptLimit > 0 && bid.Acceptable() && cid != ""
    ensures var s := Start(workers, attemptLimit);
            IsRun(s, es) && StartsIn(s, es, bid.id) == attemptLimit + k && Restarts(es) == k
  {
    var s, crashing := Start(workers, attemptLimit), Accepting(bid, cid) + CrashLoop(k);
    AcceptedAndCrashed(workers, attemptLimit, bid, cid, k);
    NoRestarts(Accepting(bid, cid));
    RestartsInLoop(k);
    RestartsConcat(Accepting(bid, cid), CrashLoop(k));
    es := ThenFailures(s, crashing, bid.id, attemptLimit);
  }

  lemma ThenFailures(s: Sched, crashing: seq<Event>, id: string, attemptLimit: nat) returns (es: seq<Event>)
    requires attemptLimit > 0 && IsRun(s, crashing) && Waits(Run(s, crashing), id, 0)
    requires Run(s, crashing).attemptLimit == attemptLimit
    ensures IsRun(s, es) && StartsIn(s, es, id) == StartsIn(s, crashing, id) + attemptLimit
    ensures Restarts(es) == Restarts(crashing)
  {
    var t := Run(s, crashing);
    var failing := FailuresCount(t, id, 0, attemptLimit - 1);
    OnePick(Run(t, failing), id, attemptLimit - 1);
    RunConcat(t, failing, [PickEvent(0)]);
    RunConcat(s, crashing, failing + [PickEvent(0)]);
    NoRestarts([PickEvent(0)]);
    RestartsConcat(failing, [PickEvent(0)]);
    RestartsConcat(crashing, failing + [PickEvent(0)]);
    es := crashing + (failing + [PickEvent(0)]);
  }

  // ---- a restart that loses a job ----

  lemma TwoAreFetched(workers: nat, attemptLimit: nat, a: Bid, b: Bid, cid: string)
    requires workers > 1 && attemptLimit > 0 && cid != ""
    requires a.Acceptable() && b.Acceptable() && a.id != b.id
    ensures var es := Accepting(a, cid) + Accepting(b, cid);
            && IsRun(Start(workers, attemptLimit), es)
            && FetchingIds(Run(Start(workers, attemptLimit), es).bids) == {a.id, b.id}
            && Run(Start(workers, attemptLimit), es).workers == workers
  {
    var s := Start(workers, attemptLimit);
    BidIsAccepted(s, a, cid);
    var t := Run(s, Accepting(a, cid));
    BidIsAccepted(t, b, cid);
    RunConcat(s, Accepting(a, cid), Accepting(b, cid));
  }

  /** Two bids are being fetched when the process crashes; with the loop variable shared, recovery
      sends the later one twice and leaves the other to nobody. */
  lemma SharingLosesAJob(workers: nat, attemptLimit: nat, a: Bid, b: Bid, cid: string)
    requires workers > 1 && attemptLimit > 0 && cid != ""
    requires a.Acceptable() && b.Acceptable() && a.id != b.id
    ensures var es := Accepting(a, cid) + Accepting(b, cid);
            && IsRun(Start(workers, attemptLimit), es)
            && !Ownership(RestartSharing(Run(Start(workers, attemptLimit), es), 0), {})
  {
    var s, es := Start(workers, attemptLimit), Accepting(a, cid) + Accepting(b, cid);
    TwoAreFetched(workers, attemptLimit, a, b, cid);
    StartIsInv(workers, attemptLimit);
    RunKeepsInv(s, es);
    SharingKeepsOwnershipIff(Run(s, es), 0);
  }

  // ---- a store without workers ----

  /** Without workers an accepted bid is stuck as soon as the start timer has gone off. */
  lemma WithoutWorkersABidIsStuck(attemptLimit: nat, bid: Bid, cid: string)
    requires attemptLimit > 0 && bid.Acceptable() && cid != ""
    ensures var es := Accepting(bid, cid) + [TimerEvent(0)];
            && IsRun(Start(0, attemptLimit), es)
            && LiveBids(Run(Start(0, attemptLimit), es))
            && !exists e :: Internal(e) && Enabled(Run(Start(0, attemptLimit), es), e)
  {
    var s := Start(0, attemptLimit);
    BidIsAccepted(s, bid, cid);
    var t := Run(s, Accepting(bid, cid));
    StartIsInv(0, attemptLimit);
    RunKeepsInv(s, Accepting(bid, cid));
    RunCons(t, TimerEvent(0), []);
    assert [TimerEvent(0)] + [] == [TimerEvent(0)];
    RunConcat(s, Accepting(bid, cid), [TimerEvent(0)]);
    var r := Step(t, TimerEvent(0));
    StepKeepsInv(t, TimerEvent(0));
    assert QueuedIds(t.bids) == {bid.id};
    assert Least({bid.id}) == bid.id;
    assert bid.id in r.bids && r.bids[bid.id].Live();
    LiveBidsKeepMovingIff(r);
  }

  // ---- a collection that takes the file of a running bid ----

  /** Bids like one another, saved one after the other. */
  function Saving(bid: Bid, ids: seq<string>): seq<Event> {
    if ids == [] then [] else [SaveEvent(bid.(id := ids[0]), 0)] + Saving(bid, ids[1..])
  }

  /** r holds what s does, and bids under the ids. */
  ghost predicate Grown(s: Sched, r: Sched, bid: Bid, ids: seq<string>) {
    && r.bids.Keys == s.bids.Keys + Members(ids)
    && (forall id :: id in s.bids ==> r.bids[id] == s.bids[id])
    && (forall id :: id in ids ==> r.bids[id].id == id && r.bids[id].payloadCid == bid.payloadCid)
  }

  lemma GrownByOneMore(s: Sched, t: Sched, r: Sched, bid: Bid, ids: seq<string>)
    requires ids != [] && ids[0] !in s.bids && ids[0] in t.bids && Grown(t, r, bid, ids[1..])
    requires t.bids == s.bids[ids[0] := t.bids[ids[0]]]
    requires t.bids[ids[0]].id == ids[0] && t.bids[ids[0]].payloadCid == bid.payloadCid
    ensures Grown(s, r, bid, ids)
  {
    assert forall x :: x in ids <==> x == ids[0] || x in ids[1..];
  }

  lemma {:induction false} BidsAreSaved(s: Sched, bid: Bid, ids: seq<string>)
    requires bid.Acceptable() && forall i :: 0 <= i < |ids| ==> ids[i] != "" && ids[i] !in s.bids
    requires forall i, j :: 0 <= i < j < |ids| ==> ids[i] != ids[j]
    ensures IsRun(s, Saving(bid, ids)) && Grown(s, Run(s, Saving(bid, ids)), bid, ids)
    decreases |ids|
  {
    if ids != [] {
      var e := SaveEvent(bid.(id := ids[0]), 0);
      var t := Step(s, e);
      assert t.bids.Keys == s.bids.Keys + {ids[0]};
      BidsAreSaved(t, bid, ids[1..]);
      RunCons(s, e, Saving(bid, ids[1..]));
      GrownByOneMore(s, t, Run(t, Saving(bid, ids[1..])), bid, ids);
    }
  }

  const DIGITS := "0123456789a"

  /** Ids that differ in their last character only, the least one left out. */
  function Later(stem: string): seq<string> {
    seq(10, i requires 0 <= i < 10 => stem + [DIGITS[i + 1]])
  }

  lemma LaterIdsAscend(stem: string, top: string)
    requires !Less(top, stem + "a")
    ensures forall i :: 0 <= i < 10 ==>
      && Less(stem + "0", Later(stem)[i]) && Later(stem)[i] != stem + "0" && !Less(top, Later(stem)[i])
    ensures forall i, j :: 0 <= i < j < 10 ==> Later(stem)[i] != Later(stem)[j]
  {
    forall i | 0 <= i < 10
      ensures Less(stem + "0", Later(stem)[i]) && Later(stem)[i] != stem + "0" && !Less(top, Later(stem)[i])
      ensures forall j :: i < j < 10 ==> Later(stem)[i] != Later(stem)[j]
    {
      LessUnderPrefix(stem, "0", [DIGITS[i + 1]]);
      LessUnderPrefix(stem, [DIGITS[i + 1]], "a");
      assert Later(stem)[i][|stem|] == DIGITS[i + 1];
      if Less(top, Later(stem)[i]) && i < 9 { LessIsTransitive(top, Later(stem)[i], stem + "a"); }
      forall j | i < j < 10 ensures Later(stem)[i] != Later(stem)[j] {
        assert Later(stem)[j][|stem|] == DIGITS[j + 1];
      }
    }
  }

  /** A bid is accepted, and bids that are newer are made. */
  lemma NewerBidsAreMade(workers: nat, attemptLimit: nat, bid: Bid, ids: seq<string>, cid: string)
    requires bid.Acceptable() && cid != ""
    requires forall i :: 0 <= i < |ids| ==> ids[i] != "" && ids[i] != bid.id
    requires forall i, j :: 0 <= i < j < |ids| ==> ids[i] != ids[j]
    ensures var es := Accepting(bid, cid) + Saving(bid, ids);
            && IsRun(Start(workers, attemptLimit), es)
            && var bids := Run(Start(workers, attemptLimit), es).bids;
            && bids.Keys == {bid.id} + Members(ids)
            && bids[bid.id].Live()
            && forall id :: id in bids ==> bids[id].id == id && bids[id].payloadCid == bid.payloadCid
  {
    var s := Start(workers, attemptLimit);
    BidIsAccepted(s, bid, cid);
    var t := Run(s, Accepting(bid, cid));
    assert t.bids.Keys == {bid.id} && t.bids[bid.id].Live();
    BidsAreSaved(t, bid, ids);
    RunConcat(s, Accepting(bid, cid), Saving(bid, ids));
  }

  /** An accepted bid is queued or being fetched, ten newer bids are made, and garbage is collected:
      the running bid is not listed, so its outdated file is removed. */
  lemma CollectionTakesTheFileOfARunningBid(
    workers: nat, attemptLimit: nat, bid: Bid, stem: string, cid: string, top: string,
    dir: string, threshold: int, now: int, f: DataFile)
    requires bid.Acceptable() && bid.id == stem + "0" && '_' !in bid.payloadCid
    requires cid != "" && top != "" && !Less(top, stem + "a") && f.regular && Outdated(f, threshold, now)
    ensures var es := Accepting(bid, cid) + Saving(bid, Later(stem));
            && IsRun(Start(workers, attemptLimit), es)
            && var bids := Run(Start(workers, attemptLimit), es).bids;
            && bid.id in bids && bids[bid.id].Live()
            && Removes(dir, bids, Newest(bids, top), threshold, now, PathOf(dir, bids[bid.id]), f)
  {
    LaterIdsAscend(stem, top);
    NewerBidsAreMade(workers, attemptLimit, bid, Later(stem), cid);
    var bids := Run(Start(workers, attemptLimit), Accepting(bid, cid) + Saving(bid, Later(stem))).bids;
    OldestIsNotListed(bids, top, bid.id, Later(stem));
    UnfinishedFileSurvivesIff(dir, bids, Newest(bids, top), threshold, now, bid.id, f);
  }

  lemma OldestIsNotListed(bids: map<string, Bid>, top: string, id: string, newer: seq<string>)
    requires bids.Keys == {id} + Members(newer) && |newer| == 10 && top != ""
    requires forall i :: 0 <= i < 10 ==> Less(id, newer[i]) && !Less(top, newer[i])
    requires forall i, j :: 0 <= i < j < 10 ==> newer[i] != newer[j]
    ensures id !in Newest(bids, top)
  {
    if Less(top, id) { LessIsTransitive(top, id, newer[0]); }
    LessIsIrreflexive(id);
    DistinctCount(newer);
    assert NewerIds(bids, top, id) == Members(newer);
    ListedIffAmongNewest(bids, top, id);
  }
}
