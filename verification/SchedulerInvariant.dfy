/** Every run of the scheduler keeps its invariant: each bid being fetched is one job, in the
    channel or at one worker, and no queued bid is forgotten. */
module SchedulerInvariant {
  import opened Ordering
  import opened Bids
  import opened Scheduler

  // ---- ids of jobs ----

  lemma JobSent(jobs: seq<Bid>, b: Bid)
    ensures JobIds(jobs + [b]) == JobIds(jobs) + {b.id}
  {
    assert forall x :: x in jobs + [b] <==> x in jobs || x == b;
  }

  lemma JobReceived(jobs: seq<Bid>)
    requires jobs != []
    requires forall i, j :: 0 <= i < j < |jobs| ==> jobs[i].id != jobs[j].id
    ensures JobIds(jobs[1..]) == JobIds(jobs) - {jobs[0].id} && jobs[0].id in JobIds(jobs)
  {
    assert forall x :: x in jobs <==> x in jobs[1..] || x == jobs[0];
    forall x | x in jobs[1..] ensures x.id != jobs[0].id {
      var i :| 0 <= i < |jobs[1..]| && jobs[1..][i] == x;
      assert jobs[i + 1] == x;
    }
  }

  lemma JobTaken(held: map<nat, Bid>, w: nat, b: Bid)
    requires w !in held
    ensures HeldIds(held[w := b]) == HeldIds(held) + {b.id}
  {
    forall v | v in held ensures held[v].id in HeldIds(held[w := b]) {
      assert v in held[w := b] && held[w := b][v] == held[v];
    }
    assert w in held[w := b];
  }

  lemma JobDropped(held: map<nat, Bid>, w: nat)
    requires w in held
    requires forall v :: v in held && v != w ==> held[v].id != held[w].id
    ensures HeldIds(held - {w}) == HeldIds(held) - {held[w].id} && held[w].id in HeldIds(held)
  {
    forall v | v in held && v != w ensures held[v].id in HeldIds(held - {w}) {
      assert v in held - {w};
    }
  }

  lemma HeldIsStored(s: Sched, w: nat)
    requires Inv(s) && w in s.held
    ensures s.held[w].id in s.bids && s.bids[s.held[w].id].status.FetchingData?
    ensures s.bids[s.held[w].id] == s.held[w].(attempts := s.held[w].attempts - 1)
    ensures s.held[w].id in FetchingIds(s.bids) && s.held[w].id !in QueuedIds(s.bids)
  {
    assert s.held[w].id in HeldIds(s.held);
  }

  // ---- one step ----

  /** Changing a bid that is no job, into a status that makes it no job. */
  lemma PutKeeps(s: Sched, b: Bid, now: int, orphans: set<string>)
    requires Sound(s) && Fits(s) && Snapshots(s) && Ownership(s, orphans)
    requires b.id !in JobIds(s.jobs) + HeldIds(s.held)
    requires !b.status.FetchingData? && (!b.Settled() ==> b.attempts < s.attemptLimit)
    ensures var r := Put(s, b, now);
            Sound(r) && Fits(r) && Snapshots(r) && Ownership(r, orphans - {b.id})
  {
    var r := Put(s, b, now);
    assert forall x :: x in s.jobs ==> x.id in JobIds(s.jobs);
    assert forall w :: w in s.held ==> s.held[w].id in HeldIds(s.held);
    assert FetchingIds(r.bids) == FetchingIds(s.bids) - {b.id};
  }

  lemma SendKeepsOwnership(s: Sched, b: Bid, now: int, orphans: set<string>)
    requires Ownership(s, orphans) && b.id !in JobIds(s.jobs) + HeldIds(s.held)
    requires |s.jobs| < s.workers
    ensures Ownership(Enqueue(s, b, now), orphans - {b.id})
  {
    var r := Enqueue(s, b, now);
    JobSent(s.jobs, b.(status := FetchingData, updatedAt := now));
    assert forall x :: x in s.jobs ==> x.id in JobIds(s.jobs);
    assert FetchingIds(r.bids) == FetchingIds(s.bids) + {b.id};
  }

  lemma SendKeepsSnapshots(s: Sched, b: Bid, now: int)
    requires Snapshots(s) && b.id !in JobIds(s.jobs) + HeldIds(s.held) && |s.jobs| < s.workers
    ensures Snapshots(Enqueue(s, b, now))
  {
    assert forall x :: x in s.jobs ==> x.id in JobIds(s.jobs);
    assert forall w :: w in s.held ==> s.held[w].id in HeldIds(s.held);
  }

  lemma EnqueueKeeps(s: Sched, b: Bid, now: int, orphans: set<string>)
    requires Sound(s) && Fits(s) && Snapshots(s) && Ownership(s, orphans)
    requires b.id !in JobIds(s.jobs) + HeldIds(s.held) && b.attempts < s.attemptLimit
    ensures var r := Enqueue(s, b, now);
            && Sound(r) && Fits(r) && Snapshots(r) && Ownership(r, orphans - {b.id})
            && NoLostWakeup(r)
  {
    if |s.jobs| < s.workers {
      SendKeepsOwnership(s, b, now, orphans);
      SendKeepsSnapshots(s, b, now);
    } else {
      PutKeeps(s, b.(status := QueuedData), now, orphans);
    }
  }

  lemma PickKeepsOwnership(s: Sched, w: nat)
    requires Ownership(s, {}) && Enabled(s, PickEvent(w))
    ensures Ownership(Pick(s, w), {})
  {
    var r := Pick(s, w);
    JobReceived(s.jobs);
    JobTaken(s.held, w, r.held[w]);
    assert forall v :: v in s.held ==> s.held[v].id in HeldIds(s.held);
    forall i, j | 0 <= i < j < |r.jobs| ensures r.jobs[i].id != r.jobs[j].id {
      assert s.jobs[i + 1].id != s.jobs[j + 1].id;
    }
  }

  lemma PickKeepsSnapshots(s: Sched, w: nat)
    requires Snapshots(s) && Enabled(s, PickEvent(w))
    ensures Snapshots(Pick(s, w))
  {
    assert s.jobs[0] in s.jobs;
    assert forall b :: b in s.jobs[1..] ==> b in s.jobs;
  }

  lemma PickKeeps(s: Sched, w: nat)
    requires Inv(s) && Enabled(s, PickEvent(w))
    ensures Inv(Pick(s, w))
  {
    PickKeepsOwnership(s, w);
    PickKeepsSnapshots(s, w);
    assert w in Pick(s, w).held;
  }

  lemma FinishKeeps(s: Sched, w: nat, a: Attempt, now: int)
    requires Inv(s) && w in s.held
    ensures Inv(Finish(s, w, a, now))
  {
    var r := Finish(s, w, a, now);
    JobDropped(s.held, w);
    var t := s.(held := s.held - {w});
    assert s.held[w].id in HeldIds(s.held) && s.bids[s.held[w].id].Live();
    assert Snapshots(t) && Ownership(t, {s.held[w].id});
    PutKeeps(t, FetchOne(s.held[w], s.attemptLimit, a).0, now, {s.held[w].id});
    assert {s.held[w].id} - {s.held[w].id} == {};
  }

  lemma NextKeeps(s: Sched, now: int)
    requires Sound(s) && Fits(s) && Snapshots(s) && Ownership(s, {})
    ensures Inv(Next(s, now))
  {
    var queued := QueuedIds(s.bids);
    if queued != {} {
      var id := Least(queued);
      assert id in s.bids && id !in FetchingIds(s.bids);
      EnqueueKeeps(s, s.bids[id], now, {});
      assert {} - {id} == {};
    }
  }

  lemma CollectKeeps(s: Sched, ids: set<string>)
    requires Inv(s) && Enabled(s, CollectEvent(ids))
    ensures Inv(s.(bids := s.bids - ids))
  {
    CollectingKeepsJobs(s.bids, ids);
    JobsAreFetched(s);
  }

  lemma CollectingKeepsJobs(bids: map<string, Bid>, ids: set<string>)
    requires forall id :: id in ids ==> id in bids && bids[id].status.AwaitingProposal?
    ensures FetchingIds(bids - ids) == FetchingIds(bids) && QueuedIds(bids - ids) == QueuedIds(bids)
  {
  }

  lemma JobsAreFetched(s: Sched)
    requires Ownership(s, {})
    ensures forall b :: b in s.jobs ==> b.id in FetchingIds(s.bids)
    ensures forall w :: w in s.held ==> s.held[w].id in FetchingIds(s.bids)
  {
    assert forall b :: b in s.jobs ==> b.id in JobIds(s.jobs);
    assert forall w :: w in s.held ==> s.held[w].id in HeldIds(s.held);
  }

  /** Recovery turns every orphan back into a job or a queued bid. */
  lemma {:induction false} RecoverKeeps(s: Sched, ids: seq<string>, now: int, orphans: set<string>)
    requires Sound(s) && Fits(s) && Snapshots(s) && Ownership(s, orphans)
    requires forall id :: id in ids <==> id in orphans
    requires forall i, j :: 0 <= i < j < |ids| ==> ids[i] != ids[j]
    ensures var r := Recover(s, ids, now);
            && Sound(r) && Fits(r) && Snapshots(r) && Ownership(r, {})
            && r.timer == s.timer && r.attemptLimit == s.attemptLimit && r.workers == s.workers
    decreases |ids|
  {
    if ids == [] {
      assert orphans == {};
    } else {
      assert ids[0] in orphans && ids[0] in FetchingIds(s.bids);
      EnqueueKeeps(s, s.bids[ids[0]], now, orphans);
      RecoverKeeps(Reenqueue(s, ids[0], now), ids[1..], now, orphans - {ids[0]});
    }
  }

  /** Recovery only needs the stored bids to be sound. */
  lemma RestartKeeps(s: Sched, now: int)
    requires Sound(s)
    ensures Inv(Restart(s, now))
    ensures Restart(s, now).attemptLimit == s.attemptLimit && Restart(s, now).workers == s.workers
  {
    var orphans := FetchingIds(s.bids);
    var ids := Ascending(orphans);
    AscendingIsDistinct(orphans);
    assert JobIds([]) == {} && HeldIds(map[]) == {};
    RecoverKeeps(Crash(s), ids, now, orphans);
  }

  lemma StartIsInv(workers: nat, attemptLimit: nat)
    ensures Inv(Start(workers, attemptLimit))
  {
  }

  lemma NotOwned(s: Sched, id: string)
    requires Ownership(s, {}) && (id in s.bids ==> !s.bids[id].status.FetchingData?)
    ensures id !in JobIds(s.jobs) + HeldIds(s.held)
  {
    assert id !in FetchingIds(s.bids);
  }

  lemma SaveKeeps(s: Sched, bid: Bid, now: int)
    requires Inv(s) && bid.id !in s.bids && s.attemptLimit > 0
    ensures Inv(Save(s, bid, now))
  {
    NotOwned(s, bid.id);
    if bid.Acceptable() {
      PutKeeps(s, bid.(createdAt := now, status := Submitted), now, {});
    }
  }

  lemma WinKeeps(s: Sched, id: string, valid: bool, sources: string, now: int)
    requires Inv(s)
    ensures Inv(Win(s, id, valid, sources, now))
  {
    if Win(s, id, valid, sources, now) != s {
      NotOwned(s, id);
      PutKeeps(s, s.bids[id].(sources := sources, status := AwaitingProposal), now, {});
    }
  }

  lemma ProposeKeeps(s: Sched, id: string, cid: string, now: int)
    requires Inv(s)
    ensures Inv(Propose(s, id, cid, now))
  {
    if Propose(s, id, cid, now) != s {
      NotOwned(s, id);
      EnqueueKeeps(s, s.bids[id].(proposalCid := cid), now, {});
    }
  }

  lemma ProposeBoostKeeps(s: Sched, id: string, uid: string, now: int)
    requires Inv(s)
    ensures Inv(ProposeBoost(s, id, uid, now))
  {
    if ProposeBoost(s, id, uid, now) != s {
      NotOwned(s, id);
      PutKeeps(s, s.bids[id].(dealUid := uid, status := Finalized), now, {});
    }
  }

  lemma MessageKeepsInv(s: Sched, e: Event)
    requires Inv(s) && Enabled(s, e) && s.attemptLimit > 0
    requires e.SaveEvent? || e.WinEvent? || e.ProposalEvent? || e.BoostEvent? || e.CollectEvent?
    ensures Inv(Step(s, e))
    ensures Step(s, e).attemptLimit == s.attemptLimit && Step(s, e).workers == s.workers
  {
    match e {
      case SaveEvent(bid, now) => SaveKeeps(s, bid, now);
      case WinEvent(id, valid, sources, now) => WinKeeps(s, id, valid, sources, now);
      case ProposalEvent(id, cid, now) => ProposeKeeps(s, id, cid, now);
      case BoostEvent(id, uid, now) => ProposeBoostKeeps(s, id, uid, now);
      case CollectEvent(ids) => CollectKeeps(s, ids);
    }
  }

  lemma WakeupsDoNotMatter(s: Sched, t: Sched)
    requires Inv(s) && t == s.(timer := t.timer, ticks := t.ticks) && t.ticks <= s.ticks
    ensures Sound(t) && Fits(t) && Snapshots(t) && Ownership(t, {})
  {
  }

  /** Looking at the queue once, with one wake-up less. */
  lemma WokenKeepsInv(s: Sched, t: Sched, now: int)
    requires Inv(s) && t == s.(timer := t.timer, ticks := t.ticks) && t.ticks <= s.ticks
    ensures Inv(Next(t, now)) && Next(t, now).attemptLimit == s.attemptLimit && Next(t, now).workers == s.workers
  {
    WakeupsDoNotMatter(s, t);
    NextKeeps(t, now);
  }

  lemma DispatchKeepsInv(s: Sched, e: Event)
    requires Inv(s) && Enabled(s, e) && (e.TimerEvent? || e.TickEvent?)
    ensures Inv(Step(s, e))
    ensures Step(s, e).attemptLimit == s.attemptLimit && Step(s, e).workers == s.workers
  {
    match e {
      case TimerEvent(now) => WokenKeepsInv(s, s.(timer := false), now);
      case TickEvent(now) => WokenKeepsInv(s, s.(ticks := s.ticks - 1), now);
    }
  }

  lemma StepKeepsInv(s: Sched, e: Event)
    requires Inv(s) && Enabled(s, e) && s.attemptLimit > 0
    ensures Inv(Step(s, e))
    ensures Step(s, e).attemptLimit == s.attemptLimit && Step(s, e).workers == s.workers
  {
    match e {
      case RestartEvent(now) => RestartKeeps(s, now);
      case PickEvent(w) => PickKeeps(s, w);
      case FinishEvent(w, a, now) => FinishKeeps(s, w, a, now);
      case TimerEvent(_) => DispatchKeepsInv(s, e);
      case TickEvent(_) => DispatchKeepsInv(s, e);
      case _ => MessageKeepsInv(s, e);
    }
  }

  lemma {:induction false} RunKeepsInv(s: Sched, es: seq<Event>)
    requires Inv(s) && IsRun(s, es) && s.attemptLimit > 0
    ensures Inv(Run(s, es))
    ensures Run(s, es).attemptLimit == s.attemptLimit && Run(s, es).workers == s.workers
    decreases |es|
  {
    if es != [] {
      StepKeepsInv(s, es[0]);
      RunKeepsInv(Step(s, es[0]), es[1..]);
    }
  }
}
