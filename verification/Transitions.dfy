/** What the steps of the store mean, field by field: which bid a step changes, to what, and what stays
    with the bid from then on. */
module Transitions {
  import opened Options
  import opened Ordering
  import opened Bids
  import opened Scheduler
  import opened SchedulerInvariant
  import opened SchedulerTheorems

  /** Of the stored bids only the one under id changed or was added. */
  ghost predicate OnlyBid(s: Sched, r: Sched, id: string) {
    && r.bids.Keys == s.bids.Keys + {id}
    && forall i :: i in s.bids && i != id ==> r.bids[i] == s.bids[i]
  }

  // ---- messages ----

  /** A bid is saved, as submitted now, exactly when it has an id, an auction, a size, a duration, a start
      epoch and prices that are not negative, and nothing that only comes later. */
  lemma SaveMeans(s: Sched, bid: Bid, now: int)
    ensures var r := Save(s, bid, now);
            if && bid.id != "" && bid.auctionId != "" && 0 < bid.dealSize && 0 < bid.dealDuration
               && 0 < bid.startEpoch && 0 <= bid.askPrice && 0 <= bid.verifiedAskPrice
               && bid.status == Unspecified && bid.proposalCid == "" && bid.errorCause == ""
               && bid.attempts == 0 && bid.createdAt == 0 && bid.updatedAt == 0
            then && OnlyBid(s, r, bid.id) && r == s.(bids := r.bids)
                 && r.bids[bid.id].status == Submitted
                 && r.bids[bid.id].createdAt == now && r.bids[bid.id].updatedAt == now
                 && r.bids[bid.id].(status := Unspecified, createdAt := 0, updatedAt := 0) == bid
            else r == s
  {
  }

  /** A win is accepted for submitted bids, and again for those that await their proposal already. */
  lemma WinReplyMeans(s: Sched, id: string, valid: bool)
    ensures WinReply(s, id, valid) == Invalid <==> !valid
    ensures WinReply(s, id, valid) == NotFound <==> valid && id !in s.bids
    ensures WinReply(s, id, valid) == Done
            <==> valid && id in s.bids && (s.bids[id].status == Submitted || s.bids[id].status == AwaitingProposal)
  {
  }

  /** The first valid win leaves a submitted bid waiting for its proposal, with the sources of the message
      and everything else as it was; any other win changes nothing. */
  lemma WinMeans(s: Sched, id: string, valid: bool, sources: string, now: int)
    requires Sound(s)
    ensures var r := Win(s, id, valid, sources, now);
            if valid && id in s.bids && s.bids[id].status == Submitted
            then && OnlyBid(s, r, id) && r == s.(bids := r.bids)
                 && r.bids[id].status == AwaitingProposal && r.bids[id].sources == sources
                 && r.bids[id].updatedAt == now
                 && r.bids[id].(status := Submitted, sources := s.bids[id].sources,
                                updatedAt := s.bids[id].updatedAt) == s.bids[id]
            else r == s
  {
    WinReplyMeans(s, id, valid);
  }

  /** A proposal is accepted from the time the bid awaits it on, and again later. */
  lemma ProposalReplyMeans(s: Sched, id: string, proposal: string)
    ensures ProposalReply(s, id, proposal) == Invalid <==> proposal == ""
    ensures ProposalReply(s, id, proposal) == NotFound <==> proposal != "" && id !in s.bids
    ensures ProposalReply(s, id, proposal) == Done
            <==> proposal != "" && id in s.bids && s.bids[id].status != Unspecified && s.bids[id].status != Submitted
  {
  }

  /** The first proposal puts the bid, with the proposal's cid, to be fetched: its job goes to the end of
      the channel if there is room, and the bid waits in the queue otherwise. Any other changes nothing. */
  lemma ProposalMeans(s: Sched, id: string, cid: string, now: int)
    requires Sound(s)
    ensures var r := Propose(s, id, cid, now);
            if cid != "" && id in s.bids && s.bids[id].status == AwaitingProposal
            then && OnlyBid(s, r, id) && r == s.(bids := r.bids, jobs := r.jobs)
                 && r.bids[id].proposalCid == cid && r.bids[id].updatedAt == now
                 && r.bids[id].(status := AwaitingProposal, proposalCid := s.bids[id].proposalCid,
                                updatedAt := s.bids[id].updatedAt) == s.bids[id]
                 && (if |s.jobs| < s.workers
                     then r.bids[id].status == FetchingData && r.jobs == s.jobs + [r.bids[id]]
                     else r.bids[id].status == QueuedData && r.jobs == s.jobs)
            else r == s
  {
    ProposalReplyMeans(s, id, cid);
  }

  /** The first Boost proposal finalizes the bid, with the deal's uid; any other changes nothing. */
  lemma BoostMeans(s: Sched, id: string, uid: string, now: int)
    requires Sound(s)
    ensures var r := ProposeBoost(s, id, uid, now);
            if uid != "" && id in s.bids && s.bids[id].status == AwaitingProposal
            then && OnlyBid(s, r, id) && r == s.(bids := r.bids)
                 && r.bids[id].status == Finalized && r.bids[id].dealUid == uid && r.bids[id].updatedAt == now
                 && r.bids[id].(status := AwaitingProposal, dealUid := s.bids[id].dealUid,
                                updatedAt := s.bids[id].updatedAt) == s.bids[id]
            else r == s
  {
    ProposalReplyMeans(s, id, uid);
  }

  // ---- attempts ----

  /** What one attempt makes of its bid: finalized exactly when the deal has not expired, as far as anyone
      can tell, and download and import succeed; errored exactly when it has expired, or a failure was the
      last that is allowed; and queued again otherwise. The cause is the first thing that went wrong. */
  lemma AttemptMeans(s: Sched, w: nat, a: Attempt, now: int)
    requires Inv(s) && w in s.held
    ensures var id := s.held[w].id;
            var expired := a.height.Some? && s.held[w].startEpoch < a.height.value;
            var failed := a.download.Some? || a.imported.Some?;
            var r := Finish(s, w, a, now);
            && id in s.bids && OnlyBid(s, r, id)
            && (r.bids[id].status == Finalized <==> !expired && !failed)
            && (r.bids[id].status == Errored
                <==> expired || (failed && s.bids[id].attempts + 1 >= s.attemptLimit))
            && (r.bids[id].status == QueuedData
                <==> !expired && failed && s.bids[id].attempts + 1 < s.attemptLimit)
            && r.bids[id].errorCause == (if expired then "deal is expired"
                                         else if a.download.Some? then a.download.value
                                         else if a.imported.Some? then a.imported.value
                                         else "")
            && r.bids[id].attempts == s.bids[id].attempts + 1 && r.bids[id].updatedAt == now
            && r.bids[id].(status := FetchingData, errorCause := s.bids[id].errorCause,
                           attempts := s.bids[id].attempts, updatedAt := s.bids[id].updatedAt) == s.bids[id]
  {
    HeldIsStored(s, w);
  }

  /** After an attempt the worker is free and its job is nobody's; a tick is sent if there is room. */
  lemma AttemptFreesWorker(s: Sched, w: nat, a: Attempt, now: int)
    requires Inv(s) && w in s.held
    ensures var r := Finish(s, w, a, now);
            && r.held.Keys == s.held.Keys - {w} && (forall v :: v in r.held ==> r.held[v] == s.held[v])
            && r.jobs == s.jobs && r.timer == s.timer
            && r.ticks == (if s.ticks < s.workers then s.ticks + 1 else s.workers)
  {
  }

  // ---- the dispatcher ----

  /** A look at the queue sends the queued bid with the least id if there is room, and touches no other
      bid. */
  lemma DispatchMeans(s: Sched, id: string, now: int)
    requires Sound(s) && id in s.bids && s.bids[id].status == QueuedData
    requires forall i :: i in s.bids && s.bids[i].status == QueuedData && i != id ==> Less(id, i)
    ensures var r := Next(s, now);
            && OnlyBid(s, r, id) && r == s.(bids := r.bids, jobs := r.jobs)
            && r.bids[id].updatedAt == now
            && r.bids[id].(status := QueuedData, updatedAt := s.bids[id].updatedAt) == s.bids[id]
            && (if |s.jobs| < s.workers
                then r.bids[id].status == FetchingData && r.jobs == s.jobs + [r.bids[id]]
                else r.bids[id].status == QueuedData && r.jobs == s.jobs)
  {
    assert IsLeast(id, QueuedIds(s.bids));
    LeastIsUnique(id, QueuedIds(s.bids));
  }

  // ---- the channel ----

  function Ids(jobs: seq<Bid>): (r: seq<string>)
    ensures |r| == |jobs| && forall i :: 0 <= i < |jobs| ==> r[i] == jobs[i].id
  {
    seq(|jobs|, i requires 0 <= i < |jobs| => jobs[i].id)
  }

  /** Picking up a job is the only step that shortens the channel; nothing is put in but at its end. */
  lemma StepExtendsJobs(s: Sched, e: Event)
    requires Enabled(s, e) && !e.PickEvent? && !e.RestartEvent?
    ensures s.jobs <= Step(s, e).jobs
  {
  }

  /** The ids a step puts into the channel. */
  ghost function StepSends(s: Sched, e: Event): seq<string>
    requires Enabled(s, e)
  {
    var r := Step(s, e);
    if |s.jobs| <= |r.jobs| then Ids(r.jobs[|s.jobs|..]) else []
  }

  /** The id of the job that a worker holds after the step that picked it up. */
  ghost function StepTakes(s: Sched, e: Event): seq<string>
    requires Enabled(s, e)
  {
    if e.PickEvent? then [Step(s, e).held[e.worker].id] else []
  }

  ghost function Sent(s: Sched, es: seq<Event>): seq<string>
    requires IsRun(s, es)
    decreases |es|
  {
    if es == [] then [] else StepSends(s, es[0]) + Sent(Step(s, es[0]), es[1..])
  }

  ghost function Taken(s: Sched, es: seq<Event>): seq<string>
    requires IsRun(s, es)
    decreases |es|
  {
    if es == [] then [] else StepTakes(s, es[0]) + Taken(Step(s, es[0]), es[1..])
  }

  lemma StepKeepsOrder(s: Sched, e: Event)
    requires Enabled(s, e) && !e.RestartEvent?
    ensures Ids(s.jobs) + StepSends(s, e) == StepTakes(s, e) + Ids(Step(s, e).jobs)
  {
    if !e.PickEvent? {
      StepExtendsJobs(s, e);
    }
  }

  lemma Chain(a: seq<string>, sent: seq<string>, taken: seq<string>, b: seq<string>,
              sent': seq<string>, taken': seq<string>, c: seq<string>)
    requires a + sent == taken + b && b + sent' == taken' + c
    ensures a + (sent + sent') == taken + taken' + c
  {
    assert a + (sent + sent') == (a + sent) + sent' == taken + (b + sent');
  }

  /** Jobs are taken in the order in which they were sent, and none is lost, while nothing crashes. */
  lemma {:induction false} JobsAreTakenInOrder(s: Sched, es: seq<Event>)
    requires IsRun(s, es) && forall e :: e in es ==> !e.RestartEvent?
    ensures Ids(s.jobs) + Sent(s, es) == Taken(s, es) + Ids(Run(s, es).jobs)
    decreases |es|
  {
    if es != [] {
      var r := Step(s, es[0]);
      assert es[0] in es;
      StepKeepsOrder(s, es[0]);
      JobsAreTakenInOrder(r, es[1..]);
      Chain(Ids(s.jobs), StepSends(s, es[0]), StepTakes(s, es[0]), Ids(r.jobs),
            Sent(r, es[1..]), Taken(r, es[1..]), Ids(Run(r, es[1..]).jobs));
    }
  }

  // ---- what stays ----

  /** Every job of the bid, waiting or at a worker, has these sources. */
  ghost predicate JobsHaveSources(s: Sched, id: string, sources: string) {
    && (forall b :: b in s.jobs && b.id == id ==> b.sources == sources)
    && (forall w :: w in s.held && s.held[w].id == id ==> s.held[w].sources == sources)
  }

  lemma JobsHaveStoredSources(s: Sched, id: string)
    requires Snapshots(s) && id in s.bids
    ensures JobsHaveSources(s, id, s.bids[id].sources)
  {
  }

  /** The sources of the first valid win stay with the bid over every run after it, and are what the
      workers fetch from. */
  lemma SourcesStay(s: Sched, id: string, sources: string, now: int, es: seq<Event>)
    requires Inv(s) && s.attemptLimit > 0 && id in s.bids && s.bids[id].status == Submitted
    requires var t := Win(s, id, true, sources, now); IsRun(t, es) && NeverSaves(es, id)
    ensures var r := Run(Win(s, id, true, sources, now), es);
            id in r.bids ==> r.bids[id].sources == sources && JobsHaveSources(r, id, sources)
  {
    var t := Win(s, id, true, sources, now);
    WinMeans(s, id, true, sources, now);
    StepKeepsInv(s, WinEvent(id, true, sources, now));
    LifecycleMovesForward(t, es, id);
    RunKeepsInv(t, es);
    if id in Run(t, es).bids {
      JobsHaveStoredSources(Run(t, es), id);
    }
  }

  /** The cid of the first proposal stays with the bid over every run after it; the bid is never discarded. */
  lemma ProposalStays(s: Sched, id: string, cid: string, now: int, es: seq<Event>)
    requires Inv(s) && s.attemptLimit > 0 && id in s.bids && s.bids[id].status == AwaitingProposal && cid != ""
    requires var t := Propose(s, id, cid, now); IsRun(t, es) && NeverSaves(es, id)
    ensures var r := Run(Propose(s, id, cid, now), es);
            id in r.bids && r.bids[id].proposalCid == cid && (r.bids[id].Live() || r.bids[id].Settled())
  {
    var t := Propose(s, id, cid, now);
    ProposalMeans(s, id, cid, now);
    StepKeepsInv(s, ProposalEvent(id, cid, now));
    LifecycleMovesForward(t, es, id);
  }

  /** A deal's uid and its finalized bid stay as they are over every run after the Boost proposal. */
  lemma BoostStays(s: Sched, id: string, uid: string, now: int, es: seq<Event>)
    requires Inv(s) && s.attemptLimit > 0 && id in s.bids && s.bids[id].status == AwaitingProposal && uid != ""
    requires var t := ProposeBoost(s, id, uid, now); IsRun(t, es) && NeverSaves(es, id)
    ensures var r := Run(ProposeBoost(s, id, uid, now), es);
            id in r.bids && r.bids[id].dealUid == uid && r.bids[id].status == Finalized
  {
    var t := ProposeBoost(s, id, uid, now);
    BoostMeans(s, id, uid, now);
    StepKeepsInv(s, BoostEvent(id, uid, now));
    LifecycleMovesForward(t, es, id);
  }
}
