/** Boost deals secure their quota and are finalized at once: nothing ever commits it or gives it back. */
module BoostTokens {
  import opened Sums
  import opened Bids
  import opened Words
  import opened TokenLedger
  import opened Handlers
  import B = ByteBound
  import Scheduler
  import SchedulerInvariant
  import SchedulerTheorems

  /** n tokens of the auction are outstanding with no timer armed, or were overwritten. */
  ghost predicate Kept(l: Ledger, auctionId: string, n: nat) {
    || (auctionId in l.grants && l.grants[auctionId].n == n && Unarmed(l, auctionId))
    || B.Leaked(l, auctionId, n)
  }

  /** The bid was finalized by a Boost proposal, and its tokens are kept. */
  ghost predicate Boosted(n: B.Node, id: string) {
    && id in n.sched.bids && n.sched.bids[id].status.Finalized? && n.sched.bids[id].proposalCid == ""
    && Kept(n.ledger, n.sched.bids[id].auctionId, n.sched.bids[id].dealSize)
  }

  /** A Boost proposal keeps its bid's tokens exactly when they are outstanding or were overwritten. */
  lemma BoostKeepsTokensIff(n: B.Node, id: string, uid: string)
    requires B.NodeInv(n) && id in n.sched.bids && n.sched.bids[id].status.AwaitingProposal? && uid != ""
    requires n.sched.bids[id].auctionId !in n.carried
    ensures var b := n.sched.bids[id];
            Boosted(B.Step(n, B.ProposalEvent(id, b.auctionId, Boost(uid))), id)
            <==> b.auctionId in n.ledger.grants || B.Leaked(n.ledger, b.auctionId, b.dealSize)
  {
    var b := n.sched.bids[id];
    assert Scheduler.Sound(n.sched) && B.BidOk(n.carried, n.ledger, n.won, b);
    SecuredIsKeptIff(n.carried, n.ledger, n.won, b);
  }

  lemma SecuredIsKeptIff(carried: set<string>, l: Ledger, won: map<string, int>, b: Bid)
    requires B.BidOk(carried, l, won, b) && b.status.AwaitingProposal? && b.auctionId !in carried
    ensures Kept(Secure(l, b.auctionId), b.auctionId, b.dealSize)
            <==> b.auctionId in l.grants || B.Leaked(l, b.auctionId, b.dealSize)
  {
    assert B.Leaked(Secure(l, b.auctionId), b.auctionId, b.dealSize) == B.Leaked(l, b.auctionId, b.dealSize);
  }

  // ---- no step gives them back ----

  lemma SettledStays(n: B.Node, e: B.Event, id: string)
    requires Scheduler.Inv(n.sched) && B.Possible(n, e) && id in n.sched.bids && n.sched.bids[id].Settled()
    ensures id in B.Step(n, e).sched.bids && B.Step(n, e).sched.bids[id] == n.sched.bids[id]
  {
    B.StepIsSchedStep(n, e);
    SchedulerTheorems.StepMovesForward(n.sched, B.SchedEvent(n, e), id);
  }

  lemma UndisturbedIsKept(l: Ledger, r: Ledger, a: string, n: nat)
    requires B.Undisturbed(l, r, a) && Kept(l, a, n)
    ensures Kept(r, a, n)
  {
  }

  /** Quota requested again for the same auction overwrites the grant. */
  lemma RequestedAgainIsKept(l: Ledger, a: string, n: nat, m: nat, expiration: int, now: int)
    requires Kept(l, a, n)
    ensures Kept(Request(l, a, m, expiration, now), a, n)
  {
    var r := Request(l, a, m, expiration, now);
    if Grants(l, m, now) && !B.Leaked(l, a, n) {
      assert r.overwritten[|l.overwritten|] == Entry(a, n, l.clock);
    } else if B.Leaked(l, a, n) {
      assert l.overwritten <= r.overwritten;
    }
  }

  lemma OtherAuction(n: B.Node, id: string, other: string)
    requires B.OnePerAuction(n.sched.bids) && id in n.sched.bids && other in n.sched.bids && id != other
    ensures n.sched.bids[id].auctionId != n.sched.bids[other].auctionId
  {
  }

  lemma WinKeepsTokens(n: B.Node, id: string, e: B.Event)
    requires B.OnePerAuction(n.sched.bids) && Boosted(n, id) && B.Enabled(n, e) && e.WinEvent?
    ensures Kept(B.Step(n, e).ledger, n.sched.bids[id].auctionId, n.sched.bids[id].dealSize)
  {
    var b, l := n.sched.bids[id], n.ledger;
    if e.id in n.sched.bids {
      var size := n.sched.bids[e.id].dealSize;
      if e.id == id {
        RequestedAgainIsKept(l, b.auctionId, b.dealSize, size, BIDS_EXPIRATION, e.now);
      } else {
        OtherAuction(n, id, e.id);
        B.RequestDisturbsOne(l, e.auctionId, size, e.now, b.auctionId);
        UndisturbedIsKept(l, B.Step(n, e).ledger, b.auctionId, b.dealSize);
      }
    }
  }

  lemma ProposalKeepsTokens(n: B.Node, id: string, e: B.Event)
    requires B.OnePerAuction(n.sched.bids) && Boosted(n, id) && B.Enabled(n, e) && e.ProposalEvent?
    ensures Kept(B.Step(n, e).ledger, n.sched.bids[id].auctionId, n.sched.bids[id].dealSize)
  {
    var b, l := n.sched.bids[id], n.ledger;
    if e.id in n.sched.bids && e.id != id {
      OtherAuction(n, id, e.id);
      B.OthersAreUndisturbed(l, e.auctionId, b.auctionId);
      UndisturbedIsKept(l, B.Step(n, e).ledger, b.auctionId, b.dealSize);
    } else {
      assert B.Leaked(Secure(l, e.auctionId), b.auctionId, b.dealSize) == B.Leaked(l, b.auctionId, b.dealSize);
    }
  }

  lemma AttemptKeepsTokens(n: B.Node, id: string, e: B.Event)
    requires Scheduler.Inv(n.sched) && B.OnePerAuction(n.sched.bids)
    requires Boosted(n, id) && B.Enabled(n, e) && e.FinishEvent?
    ensures Kept(B.Step(n, e).ledger, n.sched.bids[id].auctionId, n.sched.bids[id].dealSize)
  {
    var b, l, job := n.sched.bids[id], n.ledger, n.sched.held[e.worker];
    SchedulerInvariant.HeldIsStored(n.sched, e.worker);
    OtherAuction(n, id, job.id);
    B.SettleDisturbsOne(l, job.auctionId, FetchOne(job, n.sched.attemptLimit, e.attempt).1, b.auctionId);
    UndisturbedIsKept(l, B.Step(n, e).ledger, b.auctionId, b.dealSize);
  }

  lemma ExpiryKeepsTokens(l: Ledger, timer: nat, a: string, n: nat)
    requires Kept(l, a, n) && timer in l.alarms
    ensures Kept(Fire(l, timer), a, n)
  {
    assert B.Leaked(Fire(l, timer), a, n) == B.Leaked(l, a, n);
  }

  lemma StepKeepsTokens(n: B.Node, e: B.Event, id: string)
    requires B.NodeInv(n) && Boosted(n, id) && B.Enabled(n, e) && !e.RestartEvent?
    ensures Boosted(B.Step(n, e), id) && B.Step(n, e).sched.bids[id] == n.sched.bids[id]
  {
    SettledStays(n, e, id);
    var b := n.sched.bids[id];
    match e {
      case WinEvent(_, _, _, _) => WinKeepsTokens(n, id, e);
      case ProposalEvent(_, _, _) => ProposalKeepsTokens(n, id, e);
      case FinishEvent(_, _) => AttemptKeepsTokens(n, id, e);
      case ExpireEvent(timer) => ExpiryKeepsTokens(n.ledger, timer, b.auctionId, b.dealSize);
      case ClockEvent(to) => UndisturbedIsKept(n.ledger, At(n.ledger, to), b.auctionId, b.dealSize);
      case _ =>
    }
  }

  lemma {:induction false} RunKeepsTokens(n: B.Node, es: seq<B.Event>, id: string)
    requires B.NodeInv(n) && Boosted(n, id) && B.IsRun(n, es) && B.AllExpected(n, es) && B.NoRestart(es)
    ensures Boosted(B.Run(n, es), id) && B.Run(n, es).sched.bids[id] == n.sched.bids[id]
    decreases |es|
  {
    if es != [] {
      assert es[0] in es;
      StepKeepsTokens(n, es[0], id);
      B.StepKeepsNodeInv(n, es[0]);
      RunKeepsTokens(B.Step(n, es[0]), es[1..], id);
    }
  }

  // ---- what that means for everybody else ----

  lemma KeptTokensAreInUse(l: Ledger, a: string, n: nat)
    requires Kept(l, a, n)
    ensures n <= InUse(l)
  {
    B.HeldTokensCount(l, a, n, l.clock);
    B.TokensWithinUse(l, {a});
  }

  lemma KeptTokensStandInTheWay(l: Ledger, a: string, n: nat, m: nat, now: int)
    requires Safe(l) && Kept(l, a, n) && l.limit + m < WORD && Grants(l, m, now)
    ensures n + m <= l.limit
  {
    ExpireOnlyReleases(l, now);
    assert B.Leaked(Expire(l, now), a, n) == B.Leaked(l, a, n);
    KeptTokensAreInUse(Expire(l, now), a, n);
  }

  /** Once a Boost proposal is taken while its quota is outstanding, the tokens stay in use as long as the
      process lives, and every quota that is granted has to fit beside them. */
  lemma BoostTokensStayInUse(n: B.Node, id: string, uid: string, es: seq<B.Event>, m: nat, at: int)
    requires B.NodeInv(n) && id in n.sched.bids && n.sched.bids[id].status.AwaitingProposal? && uid != ""
    requires n.sched.bids[id].auctionId !in n.carried && n.sched.bids[id].auctionId in n.ledger.grants
    requires var r := B.Step(n, B.ProposalEvent(id, n.sched.bids[id].auctionId, Boost(uid)));
             B.IsRun(r, es) && B.AllExpected(r, es) && B.NoRestart(es)
    ensures var b := n.sched.bids[id];
            var r := B.Run(B.Step(n, B.ProposalEvent(id, b.auctionId, Boost(uid))), es);
            && b.dealSize <= InUse(r.ledger)
            && (Grants(r.ledger, m, at) && n.ledger.limit + m < WORD ==> b.dealSize + m <= n.ledger.limit)
  {
    var b := n.sched.bids[id];
    var e := B.ProposalEvent(id, b.auctionId, Boost(uid));
    BoostKeepsTokensIff(n, id, uid);
    BoostIsRecorded(n.sched, id, uid, n.ledger.clock);
    B.StepKeepsNodeInv(n, e);
    RunKeepsTokens(B.Step(n, e), es, id);
    B.RunKeepsNodeInv(B.Step(n, e), es);
    var r := B.Run(B.Step(n, e), es);
    KeptTokensAreInUse(r.ledger, b.auctionId, b.dealSize);
    if Grants(r.ledger, m, at) && n.ledger.limit + m < WORD {
      KeptTokensStandInTheWay(r.ledger, b.auctionId, b.dealSize, m, at);
    }
  }

  lemma BoostIsRecorded(s: Scheduler.Sched, id: string, uid: string, now: int)
    requires Scheduler.Sound(s) && id in s.bids && s.bids[id].status.AwaitingProposal? && uid != ""
    ensures var r := Scheduler.ProposeBoost(s, id, uid, now);
            && id in r.bids && r.bids[id].auctionId == s.bids[id].auctionId
            && r.bids[id].dealSize == s.bids[id].dealSize
  {
  }
}
