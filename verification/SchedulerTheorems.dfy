/** What holds over whole runs of the scheduler. */
module SchedulerTheorems {
  import opened Options
  import opened Ordering
  import opened Sums
  import opened Bids
  import opened Scheduler
  import opened SchedulerInvariant

  // ---- single ownership ----

  /** In every reachable state, crashes and restarts included, the bids being fetched are exactly
      the jobs in the channel and at workers, each of them once; every bid that is queued or being
      fetched has attempts left; and in a store with workers a queued bid has something pending that will
      pick it up. */
  lemma EveryFetchHasOneOwner(workers: nat, attemptLimit: nat, es: seq<Event>)
    requires attemptLimit > 0 && IsRun(Start(workers, attemptLimit), es)
    ensures var s := Run(Start(workers, attemptLimit), es);
            && Ownership(s, {})
            && (forall id :: id in s.bids && s.bids[id].Live() ==> s.bids[id].attempts < attemptLimit)
            && (workers > 0 && QueuedIds(s.bids) != {} ==> Awake(s))
  {
    StartIsInv(workers, attemptLimit);
    RunKeepsInv(Start(workers, attemptLimit), es);
  }

  // ---- progress ----

  function Remaining(attemptLimit: nat): Bid -> nat {
    (b: Bid) => if b.Live() && b.attempts < attemptLimit then attemptLimit - b.attempts else 0
  }

  /** Attempts left over all queued and fetching bids. */
  ghost function Work(s: Sched): nat { Sum(s.bids, Remaining(s.attemptLimit)) }

  function Wakes(s: Sched): nat { s.ticks + if s.timer then 1 else 0 }

  /** An attempt outweighs the tick it sends, and a tick outweighs the job it sends. */
  ghost function Budget(s: Sched): nat {
    Work(s) * (s.workers + 2) + Wakes(s) * (s.workers + 1) + |s.jobs|
  }

  ghost predicate LiveBids(s: Sched) {
    exists id :: id in s.bids && s.bids[id].Live()
  }

  lemma EnqueueKeepsWork(s: Sched, b: Bid, now: int)
    requires b.id in s.bids && s.bids[b.id].Live() && s.bids[b.id].attempts == b.attempts
    ensures Work(Enqueue(s, b, now)) == Work(s)
  {
    var r := Enqueue(s, b, now);
    SumUpdate(s.bids, b.id, r.bids[b.id], Remaining(s.attemptLimit));
  }

  lemma FinishSpendsWork(s: Sched, w: nat, a: Attempt, now: int)
    requires Sound(s) && Snapshots(s) && w in s.held && s.bids[s.held[w].id].status.FetchingData?
    ensures Work(Finish(s, w, a, now)) < Work(s)
  {
    var b := FetchOne(s.held[w], s.attemptLimit, a).0;
    SumUpdate(s.bids, b.id, b.(updatedAt := now), Remaining(s.attemptLimit));
  }

  lemma NextSpendsAtMostAJob(s: Sched, now: int)
    requires Sound(s) && Fits(s)
    ensures var r := Next(s, now);
            && Work(r) == Work(s) && Wakes(r) == Wakes(s) && r.workers == s.workers
            && |r.jobs| <= |s.jobs| + if s.workers > 0 then 1 else 0
  {
    var queued := QueuedIds(s.bids);
    if queued != {} {
      EnqueueKeepsWork(s, s.bids[Least(queued)], now);
    }
  }

  /** Lexicographically: fewer attempts left, or as many and fewer wake-ups, or as many of both and
      a shorter job channel. */
  ghost predicate Decreases(s: Sched, r: Sched) {
    || Work(r) < Work(s)
    || (Work(r) == Work(s) && Wakes(r) < Wakes(s))
    || (Work(r) == Work(s) && Wakes(r) == Wakes(s) && |r.jobs| < |s.jobs|)
  }

  lemma FinishDecreases(s: Sched, w: nat, a: Attempt, now: int)
    requires Sound(s) && Snapshots(s) && w in s.held && s.bids[s.held[w].id].status.FetchingData?
    ensures var r := Finish(s, w, a, now); Decreases(s, r) && Budget(r) < Budget(s)
  {
    FinishSpendsWork(s, w, a, now);
    LessWork(s, Finish(s, w, a, now));
  }

  lemma DispatchDecreases(s: Sched, t: Sched, now: int)
    requires Sound(t) && Fits(t) && t == s.(timer := t.timer, ticks := t.ticks) && Wakes(t) + 1 == Wakes(s)
    ensures var r := Next(t, now); Decreases(s, r) && Budget(r) < Budget(s)
  {
    NextSpendsAtMostAJob(t, now);
    FewerWakes(s, Next(t, now));
  }

  lemma PickDecreases(s: Sched, w: nat)
    requires Enabled(s, PickEvent(w))
    ensures var r := Pick(s, w); Decreases(s, r) && Budget(r) < Budget(s)
  {
  }

  lemma AttemptDecreases(s: Sched, w: nat, a: Attempt, now: int)
    requires Inv(s) && w in s.held
    ensures var r := Finish(s, w, a, now); Decreases(s, r) && Budget(r) < Budget(s)
  {
    HeldIsStored(s, w);
    FinishDecreases(s, w, a, now);
  }

  lemma WakeDecreases(s: Sched, t: Sched, now: int)
    requires Inv(s) && t == s.(timer := t.timer, ticks := t.ticks) && t.ticks <= s.ticks && Wakes(t) + 1 == Wakes(s)
    ensures var r := Next(t, now); Decreases(s, r) && Budget(r) < Budget(s)
  {
    DispatchDecreases(s, t, now);
  }

  /** Every step the store takes on its own decreases the lexicographic measure, and one number. */
  lemma InternalStepDecreases(s: Sched, e: Event)
    requires Inv(s) && Enabled(s, e) && Internal(e)
    ensures Decreases(s, Step(s, e)) && Budget(Step(s, e)) < Budget(s)
  {
    match e {
      case FinishEvent(w, a, now) => AttemptDecreases(s, w, a, now);
      case TimerEvent(now) => WakeDecreases(s, s.(timer := false), now);
      case TickEvent(now) => WakeDecreases(s, s.(ticks := s.ticks - 1), now);
      case PickEvent(w) => PickDecreases(s, w);
    }
  }

  lemma FewerWakes(s: Sched, r: Sched)
    requires r.workers == s.workers && Work(r) == Work(s) && Wakes(r) + 1 == Wakes(s)
    requires |r.jobs| <= |s.jobs| + if s.workers > 0 then 1 else 0
    ensures Budget(r) < Budget(s)
  {
    assert Wakes(s) * (s.workers + 1) == Wakes(r) * (s.workers + 1) + (s.workers + 1);
  }

  lemma LessWork(s: Sched, r: Sched)
    requires r.workers == s.workers && Work(r) < Work(s)
    requires Wakes(r) <= Wakes(s) + 1 && |r.jobs| == |s.jobs|
    ensures Budget(r) < Budget(s)
  {
    Outweighs(Work(s), Work(r), Wakes(s), Wakes(r), s.workers);
  }

  lemma Outweighs(work: nat, less: nat, wakes: nat, more: nat, workers: nat)
    requires less < work && more <= wakes + 1
    ensures less * (workers + 2) + more * (workers + 1) < work * (workers + 2) + wakes * (workers + 1)
  {
    MultiplyMonotone(less + 1, work, workers + 2);
    MultiplyMonotone(more, wakes + 1, workers + 1);
  }

  lemma MultiplyMonotone(a: nat, b: nat, k: nat)
    requires a <= b
    ensures a * k <= b * k
  {
  }

  /** While a bid is queued or being fetched, some internal step can be taken exactly when there is
      a worker or the start timer has not gone off. */
  lemma LiveBidsKeepMovingIff(s: Sched)
    requires Inv(s) && LiveBids(s)
    ensures (exists e :: Internal(e) && Enabled(s, e)) <==> s.workers > 0 || s.timer
  {
    var id :| id in s.bids && s.bids[id].Live();
    if s.timer {
      assert Internal(TimerEvent(0)) && Enabled(s, TimerEvent(0));
    } else if s.held != map[] {
      var w :| w in s.held;
      assert Internal(FinishEvent(w, Attempt(None, None, None), 0));
    } else if s.jobs != [] {
      assert Internal(PickEvent(0)) && Enabled(s, PickEvent(0));
    } else if s.workers > 0 {
      assert id !in JobIds(s.jobs) && id !in HeldIds(s.held);
      assert id in QueuedIds(s.bids);
      assert Internal(TickEvent(0)) && Enabled(s, TickEvent(0));
    }
  }

  /** Runs of internal steps are bounded, whatever the attempts' outcomes and the scheduling. */
  lemma {:induction false} InternalRunsAreBounded(s: Sched, es: seq<Event>)
    requires Inv(s) && s.attemptLimit > 0 && IsRun(s, es)
    requires forall e :: e in es ==> Internal(e)
    ensures |es| + Budget(Run(s, es)) <= Budget(s)
    decreases |es|
  {
    if es != [] {
      InternalStepDecreases(s, es[0]);
      StepKeepsInv(s, es[0]);
      InternalRunsAreBounded(Step(s, es[0]), es[1..]);
    }
  }

  /** With a worker, a run of internal steps that cannot go on has settled every accepted bid. */
  lemma MaximalRunsSettleEverything(s: Sched, es: seq<Event>, id: string)
    requires Inv(s) && s.attemptLimit > 0 && s.workers > 0 && IsRun(s, es)
    requires forall e :: e in es ==> Internal(e)
    requires !exists e :: Internal(e) && Enabled(Run(s, es), e)
    requires id in s.bids && s.bids[id].Live()
    ensures id in Run(s, es).bids && Run(s, es).bids[id].Settled()
  {
    RunKeepsInv(s, es);
    LifecycleMovesForward(s, es, id);
    if LiveBids(Run(s, es)) {
      LiveBidsKeepMovingIff(Run(s, es));
    }
  }

  /** With a worker, such a run exists from every state: the store is never stuck. */
  lemma {:induction false} EveryStateCanSettle(s: Sched) returns (es: seq<Event>)
    requires Inv(s) && s.attemptLimit > 0 && s.workers > 0
    ensures IsRun(s, es) && (forall e :: e in es ==> Internal(e)) && !LiveBids(Run(s, es))
    decreases Budget(s)
  {
    if !LiveBids(s) {
      return [];
    }
    LiveBidsKeepMovingIff(s);
    var e :| Internal(e) && Enabled(s, e);
    InternalStepDecreases(s, e);
    StepKeepsInv(s, e);
    var rest := EveryStateCanSettle(Step(s, e));
    es := [e] + rest;
    assert es[1..] == rest;
  }

  // ---- lifecycle ----

  function Phase(b: Bid): nat {
    if b.Live() then 3 else if b.Settled() then 5 else b.status.Rank()
  }

  /** The auction's and the bid's own terms, which nothing ever changes. */
  predicate SameTerms(a: Bid, b: Bid) {
    b == a.(sources := b.sources, status := b.status, proposalCid := b.proposalCid, dealUid := b.dealUid,
            attempts := b.attempts, updatedAt := b.updatedAt, errorCause := b.errorCause)
  }

  /** b is a later state of the bid a: forward in the lifecycle, except for moving between queued
      and fetching; nothing leaves a settled bid; the deal's terms never change, and neither do the
      sources once they are known and the proposal once it is accepted. */
  predicate Later(a: Bid, b: Bid) {
    && Phase(a) <= Phase(b) && (a.Settled() ==> b == a)
    && a.attempts <= b.attempts && SameTerms(a, b)
    && (Phase(a) >= 2 ==> b.sources == a.sources)
    && (a.Live() ==> b.proposalCid == a.proposalCid && b.dealUid == a.dealUid)
  }

  lemma ReenqueueChangesOne(s: Sched, i: string, now: int)
    requires Sound(s) && i in s.bids
    ensures var r := Reenqueue(s, i, now);
            && i in r.bids && r.bids[i].Live() && r.attemptLimit == s.attemptLimit
            && r.bids == s.bids[i := s.bids[i].(status := r.bids[i].status, updatedAt := r.bids[i].updatedAt)]
  {
  }

  lemma ReenqueueMovesForward(s: Sched, i: string, now: int, id: string)
    requires Sound(s) && i in s.bids && s.bids[i].Live()
    ensures var r := Reenqueue(s, i, now);
            && Sound(r) && r.bids.Keys == s.bids.Keys
            && (id in s.bids ==>
                  && Later(s.bids[id], r.bids[id]) && r.bids[id].attempts == s.bids[id].attempts
                  && (s.bids[id].Live() ==> r.bids[id].Live()))
  {
    ReenqueueChangesOne(s, i, now);
  }

  lemma {:induction false} RecoverMovesForward(s: Sched, ids: seq<string>, now: int, id: string)
    requires Sound(s)
    requires forall i :: i in ids ==> i in s.bids && s.bids[i].Live()
    ensures var r := Recover(s, ids, now);
            && r.bids.Keys == s.bids.Keys
            && (id in s.bids ==>
                  && Later(s.bids[id], r.bids[id])
                  && r.bids[id].attempts == s.bids[id].attempts)
    decreases |ids|
  {
    if ids != [] {
      forall i | i in s.bids && s.bids[i].Live() ensures Reenqueue(s, ids[0], now).bids[i].Live() {
        ReenqueueMovesForward(s, ids[0], now, i);
      }
      ReenqueueMovesForward(s, ids[0], now, id);
      RecoverMovesForward(Reenqueue(s, ids[0], now), ids[1..], now, id);
    }
  }

  ghost function Finishes(s: Sched, e: Event, id: string): nat {
    if e.FinishEvent? && e.worker in s.held && s.held[e.worker].id == id then 1 else 0
  }

  lemma NextMovesForward(s: Sched, now: int, id: string)
    requires Sound(s)
    ensures Next(s, now).bids.Keys == s.bids.Keys
    ensures id in s.bids ==>
      && Later(s.bids[id], Next(s, now).bids[id])
      && Next(s, now).bids[id].attempts == s.bids[id].attempts
  {
    if QueuedIds(s.bids) != {} {
      assert Least(QueuedIds(s.bids)) in QueuedIds(s.bids);
    }
  }

  lemma FinishMovesForward(s: Sched, w: nat, a: Attempt, now: int, id: string)
    requires Snapshots(s) && w in s.held && id in s.bids
    requires s.bids[s.held[w].id].status.FetchingData?
    ensures Later(s.bids[id], Finish(s, w, a, now).bids[id])
    ensures Finish(s, w, a, now).bids[id].attempts
            == s.bids[id].attempts + if s.held[w].id == id then 1 else 0
  {
  }

  lemma RestartMovesForward(s: Sched, now: int, id: string)
    requires Sound(s)
    ensures Restart(s, now).bids.Keys == s.bids.Keys
    ensures id in s.bids ==>
      && Later(s.bids[id], Restart(s, now).bids[id])
      && Restart(s, now).bids[id].attempts == s.bids[id].attempts
  {
    var ids := Ascending(FetchingIds(s.bids));
    forall i | i in ids ensures i in s.bids && s.bids[i].Live() {
      assert i in FetchingIds(s.bids);
    }
    RecoverMovesForward(Crash(s), ids, now, id);
  }

  predicate MovedOn(s: Sched, r: Sched, id: string) {
    id in s.bids ==>
      && id in r.bids && Later(s.bids[id], r.bids[id])
      && r.bids[id].attempts == s.bids[id].attempts
  }

  lemma WinMovesForward(s: Sched, id: string, valid: bool, sources: string, now: int, other: string)
    requires Sound(s)
    ensures MovedOn(s, Win(s, id, valid, sources, now), other)
  {
  }

  lemma ProposalsMoveForward(s: Sched, id: string, proposal: string, now: int, other: string)
    requires Sound(s)
    ensures MovedOn(s, Propose(s, id, proposal, now), other)
    ensures MovedOn(s, ProposeBoost(s, id, proposal, now), other)
  {
  }

  /** Saving another bid, messages, collection and picking up a job. */
  lemma OthersMoveForward(s: Sched, e: Event, id: string)
    requires Sound(s) && Enabled(s, e) && id in s.bids
    requires !e.RestartEvent? && !e.TimerEvent? && !e.TickEvent? && !e.FinishEvent?
    ensures var r := Step(s, e);
            if id in r.bids
            then Later(s.bids[id], r.bids[id]) && r.bids[id].attempts == s.bids[id].attempts
            else s.bids[id].status.AwaitingProposal?
  {
    match e {
      case WinEvent(i, valid, sources, now) => WinMovesForward(s, i, valid, sources, now, id);
      case ProposalEvent(i, cid, now) => ProposalsMoveForward(s, i, cid, now, id);
      case BoostEvent(i, uid, now) => ProposalsMoveForward(s, i, uid, now, id);
      case _ =>
    }
  }

  /** One step moves every stored bid forward, and counts an attempt only when one finishes. */
  lemma StepMovesForward(s: Sched, e: Event, id: string)
    requires Inv(s) && Enabled(s, e) && id in s.bids
    ensures var r := Step(s, e);
            if id in r.bids
            then Later(s.bids[id], r.bids[id])
                 && r.bids[id].attempts == s.bids[id].attempts + Finishes(s, e, id)
            else s.bids[id].status.AwaitingProposal?
  {
    match e {
      case RestartEvent(now) => RestartMovesForward(s, now, id);
      case TimerEvent(now) => NextMovesForward(s.(timer := false), now, id);
      case TickEvent(now) => NextMovesForward(s.(ticks := s.ticks - 1), now, id);
      case FinishEvent(w, a, now) =>
        HeldIsStored(s, w);
        FinishMovesForward(s, w, a, now, id);
      case _ => OthersMoveForward(s, e, id);
    }
  }

  predicate NeverSaves(es: seq<Event>, id: string) {
    forall e :: e in es && e.SaveEvent? ==> e.bid.id != id
  }

  ghost function FinishesIn(s: Sched, es: seq<Event>, id: string): nat
    requires IsRun(s, es)
    decreases |es|
  {
    if es == [] then 0 else Finishes(s, es[0], id) + FinishesIn(Step(s, es[0]), es[1..], id)
  }

  lemma StepBringsNothingBack(s: Sched, e: Event, id: string)
    requires Inv(s) && Enabled(s, e) && id !in s.bids && (e.SaveEvent? ==> e.bid.id != id)
    ensures id !in Step(s, e).bids
  {
    match e {
      case RestartEvent(now) => RestartMovesForward(s, now, id);
      case TimerEvent(now) => NextMovesForward(s.(timer := false), now, id);
      case TickEvent(now) => NextMovesForward(s.(ticks := s.ticks - 1), now, id);
      case FinishEvent(w, a, now) => HeldIsStored(s, w);
      case _ => assert Sound(s);
    }
  }

  /** Over every run in which its id is not reused, a bid only moves forward; it disappears only
      while it awaits its proposal; and its attempts are the attempts finished in the run. */
  lemma {:induction false} LifecycleMovesForward(s: Sched, es: seq<Event>, id: string)
    requires Inv(s) && s.attemptLimit > 0 && IsRun(s, es) && NeverSaves(es, id) && id in s.bids
    ensures var r := Run(s, es);
            if id in r.bids
            then Later(s.bids[id], r.bids[id])
                 && r.bids[id].attempts == s.bids[id].attempts + FinishesIn(s, es, id)
            else Phase(s.bids[id]) <= AwaitingProposal.Rank()
    decreases |es|
  {
    if es != [] {
      var t := Step(s, es[0]);
      StepKeepsInv(s, es[0]);
      StepMovesForward(s, es[0], id);
      assert NeverSaves(es[1..], id);
      if id in t.bids {
        LifecycleMovesForward(t, es[1..], id);
      } else {
        NothingComesBack(t, es[1..], id);
      }
    }
  }

  lemma {:induction false} NothingComesBack(s: Sched, es: seq<Event>, id: string)
    requires Inv(s) && s.attemptLimit > 0 && IsRun(s, es) && NeverSaves(es, id) && id !in s.bids
    ensures id !in Run(s, es).bids
    decreases |es|
  {
    if es != [] {
      assert es[0] in es;
      StepKeepsInv(s, es[0]);
      StepBringsNothingBack(s, es[0], id);
      NothingComesBack(Step(s, es[0]), es[1..], id);
    }
  }

  lemma SettledSeesNoAttempts(s: Sched, es: seq<Event>, id: string)
    requires Inv(s) && s.attemptLimit > 0 && IsRun(s, es) && NeverSaves(es, id)
    requires id in s.bids && s.bids[id].Settled()
    ensures FinishesIn(s, es, id) == 0
  {
    LifecycleMovesForward(s, es, id);
  }

  /** Between its proposal and its settlement at most attemptLimit attempts at a bid finish, however
      many crashes there are. */
  lemma {:induction false} FinishedAttemptsAreBounded(s: Sched, es: seq<Event>, id: string)
    requires Inv(s) && s.attemptLimit > 0 && IsRun(s, es) && NeverSaves(es, id)
    requires id in s.bids && s.bids[id].Live()
    ensures FinishesIn(s, es, id) + s.bids[id].attempts <= s.attemptLimit
    decreases |es|
  {
    assert Sound(s);
    if es != [] {
      var t := Step(s, es[0]);
      StepKeepsInv(s, es[0]);
      StepMovesForward(s, es[0], id);
      if t.bids[id].Live() {
        FinishedAttemptsAreBounded(t, es[1..], id);
      } else {
        SettledSeesNoAttempts(t, es[1..], id);
      }
    }
  }

  // ---- attempts started ----

  /** An attempt starts when a worker takes the job; until it finishes it is counted in memory only. */
  ghost function Starts(s: Sched, e: Event, id: string): nat {
    if e.PickEvent? && s.jobs != [] && s.jobs[0].id == id then 1 else 0
  }

  ghost function Underway(s: Sched, id: string): nat { if id in HeldIds(s.held) then 1 else 0 }

  /** A crash forgets the attempt that is underway. */
  ghost function Forgets(s: Sched, e: Event, id: string): nat {
    if e.RestartEvent? then Underway(s, id) else 0
  }

  ghost function StartsIn(s: Sched, es: seq<Event>, id: string): nat
    requires IsRun(s, es)
    decreases |es|
  {
    if es == [] then 0 else Starts(s, es[0], id) + StartsIn(Step(s, es[0]), es[1..], id)
  }

  ghost function ForgetsIn(s: Sched, es: seq<Event>, id: string): nat
    requires IsRun(s, es)
    decreases |es|
  {
    if es == [] then 0 else Forgets(s, es[0], id) + ForgetsIn(Step(s, es[0]), es[1..], id)
  }

  function Restarts(es: seq<Event>): nat {
    if es == [] then 0 else (if es[0].RestartEvent? then 1 else 0) + Restarts(es[1..])
  }

  lemma PickStarts(s: Sched, w: nat, id: string)
    requires Inv(s) && Enabled(s, PickEvent(w))
    ensures Underway(Pick(s, w), id) == Underway(s, id) + Starts(s, PickEvent(w), id)
  {
    JobTaken(s.held, w, Pick(s, w).held[w]);
    JobReceived(s.jobs);
  }

  lemma FinishEnds(s: Sched, w: nat, a: Attempt, now: int, id: string)
    requires Inv(s) && w in s.held
    ensures Underway(s, id)
            == Underway(Finish(s, w, a, now), id) + Finishes(s, FinishEvent(w, a, now), id)
  {
    JobDropped(s.held, w);
  }

  /** Every attempt started or underway is saved, still underway, or forgotten in a crash. */
  lemma StepAccountsForAttempts(s: Sched, e: Event, id: string)
    requires Inv(s) && Enabled(s, e) && s.attemptLimit > 0 && id in s.bids && id in Step(s, e).bids
    ensures var r := Step(s, e);
            Starts(s, e, id) + s.bids[id].attempts + Underway(s, id)
            == r.bids[id].attempts + Underway(r, id) + Forgets(s, e, id)
  {
    StepMovesForward(s, e, id);
    match e {
      case PickEvent(w) => PickStarts(s, w, id);
      case FinishEvent(w, a, now) => FinishEnds(s, w, a, now, id);
      case RestartEvent(now) => NothingUnderwayAfterRestart(s, now, id);
      case _ => OthersHoldTheSame(s, e);
    }
  }

  lemma NothingUnderwayAfterRestart(s: Sched, now: int, id: string)
    requires Sound(s)
    ensures Underway(Restart(s, now), id) == 0
  {
    RestartOwns(s, now);
  }

  lemma OthersHoldTheSame(s: Sched, e: Event)
    requires Enabled(s, e) && !e.PickEvent? && !e.FinishEvent? && !e.RestartEvent?
    ensures Step(s, e).held == s.held
  {
  }

  /** Over every run of an accepted bid: attempts started are attempts saved, underway or forgotten. */
  lemma {:induction false} AttemptsAreAccountedFor(s: Sched, es: seq<Event>, id: string)
    requires Inv(s) && s.attemptLimit > 0 && IsRun(s, es) && NeverSaves(es, id)
    requires id in s.bids && Phase(s.bids[id]) >= 3
    ensures var r := Run(s, es);
            && id in r.bids
            && StartsIn(s, es, id) + s.bids[id].attempts + Underway(s, id)
               == r.bids[id].attempts + Underway(r, id) + ForgetsIn(s, es, id)
    decreases |es|
  {
    if es != [] {
      StepKeepsInv(s, es[0]);
      StepMovesForward(s, es[0], id);
      StepAccountsForAttempts(s, es[0], id);
      AttemptsAreAccountedFor(Step(s, es[0]), es[1..], id);
    }
  }

  lemma {:induction false} ForgottenInRestarts(s: Sched, es: seq<Event>, id: string)
    requires IsRun(s, es)
    ensures ForgetsIn(s, es, id) <= Restarts(es)
    decreases |es|
  {
    if es != [] {
      ForgottenInRestarts(Step(s, es[0]), es[1..], id);
    }
  }

  lemma UnderwayIsFetching(s: Sched, id: string)
    requires Inv(s) && id in HeldIds(s.held)
    ensures id in s.bids && s.bids[id].status.FetchingData?
  {
    var w :| w in s.held && s.held[w].id == id;
    HeldIsStored(s, w);
  }

  /** The attempts started at an accepted bid exceed the limit by at most the attempts that crashes
      interrupted, and so by at most the number of crashes. */
  lemma StartedAttemptsAreBounded(s: Sched, es: seq<Event>, id: string)
    requires Inv(s) && s.attemptLimit > 0 && IsRun(s, es) && NeverSaves(es, id)
    requires id in s.bids && s.bids[id].Live()
    ensures StartsIn(s, es, id) + s.bids[id].attempts + Underway(s, id)
            <= s.attemptLimit + ForgetsIn(s, es, id) <= s.attemptLimit + Restarts(es)
  {
    var r := Run(s, es);
    AttemptsAreAccountedFor(s, es, id);
    ForgottenInRestarts(s, es, id);
    FinishedAttemptsAreBounded(s, es, id);
    LifecycleMovesForward(s, es, id);
    RunKeepsInv(s, es);
    if id in HeldIds(r.held) {
      UnderwayIsFetching(r, id);
      assert Sound(r);
    }
  }

  predicate IsMessage(e: Event) {
    e.WinEvent? || e.ProposalEvent? || e.BoostEvent?
  }

  /** The message was handled without an error. */
  predicate Handled(s: Sched, e: Event) {
    match e
    case WinEvent(id, valid, _, _) => WinReply(s, id, valid).Done?
    case ProposalEvent(id, cid, _) => ProposalReply(s, id, cid).Done?
    case BoostEvent(id, uid, _) => ProposalReply(s, id, uid).Done?
    case _ => false
  }

  /** The phase a bid is in once a message was handled. */
  function HandledPhase(e: Event): nat { if e.WinEvent? then 2 else 3 }

  lemma HandlingReachesPhase(s: Sched, e: Event)
    requires Sound(s) && IsMessage(e) && Handled(s, e)
    ensures e.id in Step(s, e).bids && Phase(Step(s, e).bids[e.id]) >= HandledPhase(e)
  {
  }

  lemma LateMessageChangesNothing(s: Sched, e: Event)
    requires IsMessage(e) && (e.id in s.bids ==> Phase(s.bids[e.id]) >= HandledPhase(e))
    ensures Step(s, e) == s
  {
  }

  /** A win or a proposal delivered again, any time after its first delivery was handled, changes
      nothing; neither does a win after the proposal. */
  lemma RedeliveryChangesNothing(s: Sched, first: Event, es: seq<Event>, again: Event)
    requires Inv(s) && s.attemptLimit > 0 && IsMessage(first) && Handled(s, first)
    requires IsMessage(again) && again.id == first.id && HandledPhase(again) <= HandledPhase(first)
    requires IsRun(Step(s, first), es) && NeverSaves(es, first.id)
    ensures Step(Run(Step(s, first), es), again) == Run(Step(s, first), es)
  {
    StepKeepsInv(s, first);
    HandlingReachesPhase(s, first);
    LifecycleMovesForward(Step(s, first), es, first.id);
    LateMessageChangesNothing(Run(Step(s, first), es), again);
  }

  // ---- restart with a shared loop variable ----

  /** Recovery as the code performs it when no worker receives before it is over: every job sent
      is the address of one loop variable, which in the end holds the last orphan. */
  ghost function RestartSharing(s: Sched, now: int): Sched {
    var ids := Ascending(FetchingIds(s.bids));
    var r := Restart(s, now);
    if ids == [] then r else
      var last := ids[|ids| - 1];
      assert last in ids;
      r.(jobs := Copies(r.bids[last], |r.jobs|))
  }

  function Copies(b: Bid, n: nat): (r: seq<Bid>)
    ensures |r| == n && forall i :: 0 <= i < n ==> r[i] == b
  {
    seq(n, _ => b)
  }

  lemma {:induction false} RecoverSendsInOrder(s: Sched, ids: seq<string>, now: int)
    requires |s.jobs| <= s.workers && forall id :: id in s.bids ==> s.bids[id].id == id
    requires forall id :: id in ids ==> id in s.bids
    ensures var r := Recover(s, ids, now);
            && r.held == s.held
            && |r.jobs| == (if |s.jobs| + |ids| < s.workers then |s.jobs| + |ids| else s.workers)
            && (forall i :: 0 <= i < |s.jobs| ==> r.jobs[i] == s.jobs[i])
            && (forall i :: |s.jobs| <= i < |r.jobs| ==> r.jobs[i].id == ids[i - |s.jobs|])
    decreases |ids|
  {
    if ids != [] {
      RecoverSendsInOrder(Reenqueue(s, ids[0], now), ids[1..], now);
    }
  }

  /** Copies of one bid own what the jobs they replace own exactly when there was one job, for
      that bid. */
  lemma CopiesOwnIff(r: Sched, q: Sched, last: Bid)
    requires Ownership(r, {}) && r.held == map[] && r.jobs != []
    requires q == r.(jobs := q.jobs) && |q.jobs| == |r.jobs| && forall i :: 0 <= i < |q.jobs| ==> q.jobs[i] == last
    ensures Ownership(q, {}) <==> |r.jobs| == 1 && r.jobs[0].id == last.id
  {
    assert q.jobs[0] in q.jobs && r.jobs[0] in r.jobs;
    if |r.jobs| > 1 {
      assert q.jobs[0].id == q.jobs[1].id;
    } else {
      assert JobIds(r.jobs) == {r.jobs[0].id} && JobIds(q.jobs) == {last.id};
    }
  }

  lemma SharingCopiesTheLast(s: Sched, now: int)
    requires Sound(s) && FetchingIds(s.bids) != {}
    ensures var ids := Ascending(FetchingIds(s.bids));
            var r, q := Restart(s, now), RestartSharing(s, now);
            && ids != [] && ids[|ids| - 1] in r.bids
            && q == r.(jobs := Copies(r.bids[ids[|ids| - 1]], |r.jobs|))
  {
    var ids := Ascending(FetchingIds(s.bids));
    var id :| id in FetchingIds(s.bids);
    assert id in ids;
    assert ids[|ids| - 1] in ids;
  }

  /** Sharing the variable keeps single ownership exactly when at most one bid was being fetched,
      or there are no workers; with snapshots, ownership is always re-established. */
  lemma SharingKeepsOwnershipIff(s: Sched, now: int)
    requires Sound(s)
    ensures Ownership(Restart(s, now), {})
    ensures Ownership(RestartSharing(s, now), {}) <==> |FetchingIds(s.bids)| <= 1 || s.workers == 0
  {
    RestartOwns(s, now);
    AscendingLength(FetchingIds(s.bids));
    if Restart(s, now).jobs != [] {
      SharedJobsOwnIff(s, now, Ascending(FetchingIds(s.bids)), Restart(s, now), RestartSharing(s, now));
    }
  }

  lemma SharedJobsOwnIff(s: Sched, now: int, ids: seq<string>, r: Sched, q: Sched)
    requires Sound(s) && ids == Ascending(FetchingIds(s.bids)) && ids != []
    requires r == Restart(s, now) && q == RestartSharing(s, now) && r.jobs != []
    requires Ownership(r, {}) && r.held == map[] && r.jobs[0].id == ids[0]
    requires |r.jobs| == if |ids| < s.workers then |ids| else s.workers
    requires forall id :: id in r.bids ==> r.bids[id].id == id
    ensures Ownership(q, {}) <==> |ids| == 1
  {
    SharingCopiesTheLast(s, now);
    CopiesOwnIff(r, q, r.bids[ids[|ids| - 1]]);
    FirstIsLastIff(FetchingIds(s.bids));
  }

  lemma RestartOwns(s: Sched, now: int)
    requires Sound(s)
    ensures var ids := Ascending(FetchingIds(s.bids));
            var r := Restart(s, now);
            && Ownership(r, {}) && r.held == map[]
            && |r.jobs| == (if |ids| < s.workers then |ids| else s.workers)
            && (r.jobs != [] ==> r.jobs[0].id == ids[0])
            && forall id :: id in r.bids ==> r.bids[id].id == id
  {
    RestartKeeps(s, now);
    RecoverSendsInOrder(Crash(s), Ascending(FetchingIds(s.bids)), now);
  }

  lemma FirstIsLastIff(s: set<string>)
    requires s != {}
    ensures var l := Ascending(s); l != [] && (l[0] == l[|l| - 1] <==> |l| == 1)
  {
    var l := Ascending(s);
    if |l| > 1 {
      AscendingIsSorted(s);
      assert Less(l[0], l[|l| - 1]);
      LessIsAsymmetric(l[0], l[|l| - 1]);
    }
  }

  lemma {:induction false} AscendingLength(s: set<string>)
    ensures |Ascending(s)| == |s|
  {
    if s != {} {
      AscendingLength(s - {Least(s)});
    }
  }
}
