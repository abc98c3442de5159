/** What a restart carries over: it empties the limiter, but stored bids keep running. */
module CarriedOver {
  import opened Sums
  import opened Bids
  import opened Words
  import opened TokenLedger
  import opened Handlers
  import B = ByteBound
  import Scheduler
  import SchedulerTheorems

  /** The deal is not settled, or was finalized at or after from. */
  predicate Open(b: Bid, from: int) { !b.Settled() || B.Counted(b, from) }

  function OpenPart(carried: set<string>, from: int): Bid -> nat {
    (b: Bid) => if b.auctionId in carried && Open(b, from) then b.dealSize else 0
  }

  /** The bytes of the open bids among those that were carried over. */
  ghost function OpenBytes(n: B.Node, carried: set<string>): nat {
    Sum(n.sched.bids, OpenPart(carried, n.ledger.clock - n.ledger.period))
  }

  /** A step of the node moves every stored bid forward. */
  lemma BidsMoveForward(n: B.Node, e: B.Event, id: string)
    requires Scheduler.Inv(n.sched) && B.Possible(n, e) && id in n.sched.bids && id in B.Step(n, e).sched.bids
    ensures SchedulerTheorems.Later(n.sched.bids[id], B.Step(n, e).sched.bids[id])
  {
    B.StepIsSchedStep(n, e);
    SchedulerTheorems.StepMovesForward(n.sched, B.SchedEvent(n, e), id);
  }

  /** The only bid a step adds is in an auction that was not bid in before. */
  lemma BidsWereStored(n: B.Node, e: B.Event, id: string)
    requires Scheduler.Inv(n.sched) && B.Enabled(n, e)
    requires id in B.Step(n, e).sched.bids && B.Step(n, e).sched.bids[id].auctionId in n.auctions
    ensures id in n.sched.bids
  {
    B.StepIsSchedStep(n, e);
    if id !in n.sched.bids {
      if e.BidEvent? {
        assert id == e.bid.id && B.Step(n, e).sched.bids[id].auctionId == e.bid.auctionId by {
          SavedIsAdded(n.sched, e.bid, n.ledger.clock, id);
        }
      } else {
        SchedulerTheorems.StepBringsNothingBack(n.sched, B.SchedEvent(n, e), id);
      }
    }
  }

  lemma SavedIsAdded(s: Scheduler.Sched, bid: Bid, now: int, id: string)
    requires id !in s.bids && id in Scheduler.Save(s, bid, now).bids
    ensures id == bid.id && Scheduler.Save(s, bid, now).bids[id].auctionId == bid.auctionId
  {
  }

  /** What is open was open, with the same size. */
  lemma OpenWasOpen(a: Bid, b: Bid, from: int, from': int)
    requires SchedulerTheorems.Later(a, b) && from <= from' && Open(b, from')
    ensures Open(a, from) && a.dealSize == b.dealSize && a.auctionId == b.auctionId
  {
  }

  lemma ClockMovesForward(n: B.Node, e: B.Event)
    requires B.Enabled(n, e)
    ensures var r := B.Step(n, e);
            n.ledger.clock <= r.ledger.clock && r.ledger.period == n.ledger.period && n.auctions <= r.auctions
  {
  }

  lemma OpenPartWasThere(n: B.Node, e: B.Event, carried: set<string>, i: string, from: int, from': int)
    requires B.NodeInv(n) && B.Enabled(n, e) && carried <= n.auctions && from <= from'
    requires i in B.Step(n, e).sched.bids && OpenPart(carried, from')(B.Step(n, e).sched.bids[i]) > 0
    ensures i in n.sched.bids
    ensures OpenPart(carried, from')(B.Step(n, e).sched.bids[i]) <= OpenPart(carried, from)(n.sched.bids[i])
  {
    BidsWereStored(n, e, i);
    BidsMoveForward(n, e, i);
    OpenWasOpen(n.sched.bids[i], B.Step(n, e).sched.bids[i], from, from');
  }

  lemma OpenPartsWereThere(n: B.Node, e: B.Event, carried: set<string>, from: int, from': int)
    requires B.NodeInv(n) && B.Enabled(n, e) && carried <= n.auctions && from <= from'
    ensures var bids, bids' := n.sched.bids, B.Step(n, e).sched.bids;
            forall i :: i in bids' && OpenPart(carried, from')(bids'[i]) > 0 ==>
              i in bids && OpenPart(carried, from')(bids'[i]) <= OpenPart(carried, from)(bids[i])
  {
    var bids, bids' := n.sched.bids, B.Step(n, e).sched.bids;
    forall i | i in bids' && OpenPart(carried, from')(bids'[i]) > 0
      ensures i in bids && OpenPart(carried, from')(bids'[i]) <= OpenPart(carried, from)(bids[i])
    {
      OpenPartWasThere(n, e, carried, i, from, from');
    }
  }

  lemma FewerOpenBytes(n: B.Node, r: B.Node, carried: set<string>)
    requires var from, from' := n.ledger.clock - n.ledger.period, r.ledger.clock - r.ledger.period;
             forall i :: i in r.sched.bids && OpenPart(carried, from')(r.sched.bids[i]) > 0 ==>
               && i in n.sched.bids
               && OpenPart(carried, from')(r.sched.bids[i]) <= OpenPart(carried, from)(n.sched.bids[i])
    ensures OpenBytes(r, carried) <= OpenBytes(n, carried)
  {
    SumAtMost(r.sched.bids, n.sched.bids, OpenPart(carried, r.ledger.clock - r.ledger.period),
              OpenPart(carried, n.ledger.clock - n.ledger.period));
  }

  /** No step opens carried-over bytes. */
  lemma OpenBytesShrink(n: B.Node, e: B.Event, carried: set<string>)
    requires B.NodeInv(n) && B.Enabled(n, e) && carried <= n.auctions
    ensures OpenBytes(B.Step(n, e), carried) <= OpenBytes(n, carried)
  {
    var r := B.Step(n, e);
    ClockMovesForward(n, e);
    OpenPartsWereThere(n, e, carried, n.ledger.clock - n.ledger.period, r.ledger.clock - r.ledger.period);
    FewerOpenBytes(n, r, carried);
  }

  lemma {:induction false} OpenBytesShrinkOverRuns(n: B.Node, es: seq<B.Event>, carried: set<string>)
    requires B.NodeInv(n) && B.IsRun(n, es) && B.AllExpected(n, es) && carried <= n.auctions
    ensures OpenBytes(B.Run(n, es), carried) <= OpenBytes(n, carried)
    decreases |es|
  {
    if es != [] {
      OpenBytesShrink(n, es[0], carried);
      B.StepKeepsNodeInv(n, es[0]);
      ClockMovesForward(n, es[0]);
      OpenBytesShrinkOverRuns(B.Step(n, es[0]), es[1..], carried);
    }
  }

  lemma CarriedAreOpen(n: B.Node)
    ensures B.CarriedBytes(n) <= OpenBytes(n, n.carried)
  {
    var from := n.ledger.clock - n.ledger.period;
    SumAtMost(n.sched.bids, n.sched.bids, B.CarriedPart(n.carried, from), OpenPart(n.carried, from));
  }

  /** After a restart, in the lifetime of the new process, the running bytes exceed the limit by at most
      the bytes of the bids that were open when the process before it ended. */
  lemma RestartCarriesOpenBytes(n: B.Node, es: seq<B.Event>)
    requires B.NodeInv(n) && B.NoRestart(es)
    requires var r := B.Step(n, B.RestartEvent); B.IsRun(r, es) && B.AllExpected(r, es)
    ensures var r := B.Run(B.Step(n, B.RestartEvent), es);
            B.RunningBytes(r) <= n.ledger.limit + OpenBytes(n, n.auctions)
  {
    var r := B.Step(n, B.RestartEvent);
    B.StepKeepsNodeInv(n, B.RestartEvent);
    B.RunKeepsNodeInv(r, es);
    B.RunningBytesAreBounded(B.Run(r, es));
    B.CarriedStays(r, es);
    CarriedAreOpen(B.Run(r, es));
    OpenBytesShrinkOverRuns(r, es, n.auctions);
    OpenBytesShrink(n, B.RestartEvent, n.auctions);
  }
}
