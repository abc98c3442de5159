/** Runs of the whole node in which the running bytes exceed the limit. */
module ByteBoundWitness {
  import opened Sums
  import opened Words
  import opened Bids
  import opened TokenLedger
  import opened Handlers
  import Scheduler
  import B = ByteBound
  import BoostTokens

  lemma {:induction false} RunConcat(n: B.Node, a: seq<B.Event>, b: seq<B.Event>)
    requires B.IsRun(n, a) && B.IsRun(B.Run(n, a), b)
    ensures B.IsRun(n, a + b) && B.Run(n, a + b) == B.Run(B.Run(n, a), b)
    ensures B.AllExpected(n, a + b) <==> B.AllExpected(n, a) && B.AllExpected(B.Run(n, a), b)
    decreases |a|
  {
    if a == [] {
      assert a + b == b;
    } else {
      assert (a + b)[1..] == a[1..] + b;
      RunConcat(B.Step(n, a[0]), a[1..], b);
    }
  }

  lemma RunOne(n: B.Node, e: B.Event)
    requires B.Possible(n, e)
    ensures B.IsRun(n, [e]) && B.Run(n, [e]) == B.Step(n, e)
    ensures B.AllExpected(n, [e]) <==> B.Expected(n, e)
  {
    assert [e][1..] == [];
  }

  lemma RunTwo(n: B.Node, d: B.Event, e: B.Event)
    requires B.Possible(n, d) && B.Possible(B.Step(n, d), e)
    ensures B.IsRun(n, [d, e]) && B.Run(n, [d, e]) == B.Step(B.Step(n, d), e)
    ensures B.AllExpected(n, [d, e]) <==> B.Expected(n, d) && B.Expected(B.Step(n, d), e)
  {
    assert [d, e][1..] == [e];
    RunOne(B.Step(n, d), e);
  }

  // ---- stretches of the run ----

  function Won(bid: Bid, now: int): Bid {
    bid.(createdAt := now, status := AwaitingProposal, updatedAt := now)
  }

  /** A bid is made and its auction won. */
  function Winning(bid: Bid, now: int): seq<B.Event> {
    [B.BidEvent(bid), B.WinEvent(bid.id, bid.auctionId, Readable(true, bid.sources), now)]
  }

  lemma BidIsWon(n: B.Node, bid: Bid)
    requires bid.Acceptable() && bid.id !in n.sched.bids && bid.auctionId !in n.auctions
    requires bid.dealSize + n.ledger.limit < WORD && Grants(n.ledger, bid.dealSize, n.ledger.clock)
    ensures var l := n.ledger;
            var es := Winning(bid, l.clock);
            && B.IsRun(n, es) && B.AllExpected(n, es)
            && B.Run(n, es)
               == B.Node(n.sched.(bids := n.sched.bids[bid.id := Won(bid, l.clock)]),
                         Request(l, bid.auctionId, bid.dealSize, BIDS_EXPIRATION, l.clock),
                         n.won[bid.auctionId := l.clock], n.auctions + {bid.auctionId}, n.carried)
  {
    var l, es := n.ledger, Winning(bid, n.ledger.clock);
    var n1 := B.Step(n, es[0]);
    assert n1.sched.bids[bid.id] == bid.(createdAt := l.clock, status := Submitted, updatedAt := l.clock);
    var n2 := B.Step(n1, es[1]);
    assert n2.sched.bids == n.sched.bids[bid.id := Won(bid, l.clock)];
    RunTwo(n, es[0], es[1]);
  }

  /** The quota's timer goes off as soon as it may. */
  function Expiring(timer: nat, due: int): seq<B.Event> { [B.ClockEvent(due), B.ExpireEvent(timer)] }

  lemma QuotaExpires(n: B.Node, timer: nat)
    requires timer in n.ledger.alarms && n.ledger.clock <= n.ledger.alarms[timer].due
    ensures var l := n.ledger;
            var es := Expiring(timer, l.alarms[timer].due);
            && B.IsRun(n, es) && B.AllExpected(n, es)
            && B.Run(n, es) == n.(ledger := Fire(At(l, l.alarms[timer].due), timer))
  {
    var es := Expiring(timer, n.ledger.alarms[timer].due);
    RunTwo(n, es[0], es[1]);
  }

  /** The proposal is taken: the bid runs, and its auction's quota, if any, is secured. */
  lemma ProposalIsTaken(n: B.Node, bid: Bid, at: int, cid: string)
    requires bid.id in n.sched.bids && n.sched.bids[bid.id] == Won(bid, at) && cid != ""
    ensures var es := [B.ProposalEvent(bid.id, bid.auctionId, Legacy(cid))];
            && B.IsRun(n, es)
            && (B.AllExpected(n, es) <==>
                  || bid.auctionId in n.carried
                  || (bid.auctionId in n.won && n.ledger.clock < n.won[bid.auctionId] + BIDS_EXPIRATION))
            && var r := B.Run(n, es);
            && bid.id in r.sched.bids && r.sched.bids[bid.id].Live()
            && r.sched.bids == n.sched.bids[bid.id := r.sched.bids[bid.id]]
            && r.sched.bids[bid.id].dealSize == bid.dealSize
            && r == n.(sched := r.sched, ledger := Secure(n.ledger, bid.auctionId))
  {
    RunOne(n, B.ProposalEvent(bid.id, bid.auctionId, Legacy(cid)));
  }

  lemma BytesOfTwo(n: B.Node, i: string, j: string)
    requires i != j && n.sched.bids.Keys == {i, j} && n.sched.bids[i].Live() && n.sched.bids[j].Live()
    ensures B.RunningBytes(n) == n.sched.bids[i].dealSize + n.sched.bids[j].dealSize
  {
    var bids, w := n.sched.bids, B.CountedBytes(n.ledger.clock - n.ledger.period);
    SumWithout(bids, i, w);
    SumWithout(bids - {i}, j, w);
    assert bids - {i} - {j} == map[];
  }
  // ---- the run ----

  function Begin(a: Bid, now: int): seq<B.Event> { Winning(a, now) + Expiring(0, now + BIDS_EXPIRATION) }

  function Proposing(bid: Bid, cid: string): seq<B.Event> {
    [B.ProposalEvent(bid.id, bid.auctionId, Legacy(cid))]
  }

  function End(b: Bid, cid: string, now: int): seq<B.Event> { Winning(b, now) + Proposing(b, cid) }

  lemma QuotaComesAndGoes(l: Ledger, id: string, n: nat)
    requires l == Empty(l.limit, l.period, l.clock) && n <= l.limit < WORD
    ensures var r, due := Request(l, id, n, BIDS_EXPIRATION, l.clock), l.clock + BIDS_EXPIRATION;
            && Grants(l, n, l.clock)
            && r.alarms == map[0 := Alarm(id, due)] && r.clock == l.clock
            && Fire(At(r, due), 0) == l.(nextTimer := 1, clock := due)
  {
    assert Expire(l, l.clock) == l && InUse(l) == 0;
    var r := Request(l, id, n, BIDS_EXPIRATION, l.clock);
    assert r.grants - {id} == map[] && r.alarms - {0} == map[];
  }

  /** Won, and expired: the limiter is as good as new. */
  lemma QuotaIsForgotten(n: B.Node, a: Bid)
    requires n.ledger == Empty(n.ledger.limit, n.ledger.period, n.ledger.clock)
    requires a.Acceptable() && a.id !in n.sched.bids && a.auctionId !in n.auctions
    requires a.dealSize <= n.ledger.limit && a.dealSize + n.ledger.limit < WORD
    ensures var now := n.ledger.clock;
            var es := Begin(a, now);
            && B.IsRun(n, es) && B.AllExpected(n, es)
            && var r := B.Run(n, es);
            && r.sched == n.sched.(bids := n.sched.bids[a.id := Won(a, now)])
            && r.auctions == n.auctions + {a.auctionId} && r.carried == n.carried && r.won == n.won[a.auctionId := now]
            && r.ledger == n.ledger.(nextTimer := 1, clock := now + BIDS_EXPIRATION)
  {
    var now := n.ledger.clock;
    QuotaComesAndGoes(n.ledger, a.auctionId, a.dealSize);
    BidIsWon(n, a);
    QuotaExpires(B.Run(n, Winning(a, now)), 0);
    RunConcat(n, Winning(a, now), Expiring(0, now + BIDS_EXPIRATION));
  }

  lemma BidIsWonAndProposed(n: B.Node, b: Bid, cid: string)
    requires b.Acceptable() && b.id !in n.sched.bids && b.auctionId !in n.auctions && cid != ""
    requires b.dealSize + n.ledger.limit < WORD && Grants(n.ledger, b.dealSize, n.ledger.clock)
    ensures var es := End(b, cid, n.ledger.clock);
            && B.IsRun(n, es) && B.AllExpected(n, es)
            && var r := B.Run(n, es);
            && b.id in r.sched.bids && r.sched.bids == n.sched.bids[b.id := r.sched.bids[b.id]]
            && r.sched.bids[b.id].Live() && r.sched.bids[b.id].dealSize == b.dealSize
            && r.auctions == n.auctions + {b.auctionId} && r.ledger.limit == n.ledger.limit
            && r.ledger.clock == n.ledger.clock
  {
    var now := n.ledger.clock;
    BidIsWon(n, b);
    var m := B.Run(n, Winning(b, now));
    ProposalIsTaken(m, b, now, cid);
    RunConcat(n, Winning(b, now), Proposing(b, cid));
  }

  /** The late proposal is taken, and leaves the limiter as good as new. */
  lemma LateProposalIsTaken(m: B.Node, a: Bid, at: int, cid: string)
    requires m.sched.bids == map[a.id := Won(a, at)] && m.won == map[a.auctionId := at] && m.carried == {}
    requires m.ledger.clock == at + BIDS_EXPIRATION && cid != ""
    requires m.ledger.grants == map[] && m.ledger.overwritten == [] && m.ledger.history == []
    ensures var late := Proposing(a, cid);
            && B.IsRun(m, late) && !B.AllExpected(m, late)
            && var k := B.Run(m, late);
            && k.ledger == m.ledger && k.auctions == m.auctions && InUse(Expire(k.ledger, k.ledger.clock)) == 0
            && k.sched.bids.Keys == {a.id} && k.sched.bids[a.id].Live()
            && k.sched.bids[a.id].dealSize == a.dealSize
  {
    ProposalIsTaken(m, a, at, cid);
  }

  lemma SecondDealIsTaken(k: B.Node, a: Bid, b: Bid, cid: string)
    requires b.Acceptable() && a.id != b.id && cid != "" && b.auctionId !in k.auctions
    requires InUse(Expire(k.ledger, k.ledger.clock)) == 0
    requires k.sched.bids.Keys == {a.id} && k.sched.bids[a.id].Live() && k.sched.bids[a.id].dealSize == a.dealSize
    requires b.dealSize <= k.ledger.limit && b.dealSize + k.ledger.limit < WORD
    ensures var end := End(b, cid, k.ledger.clock);
            && B.IsRun(k, end) && B.AllExpected(k, end)
            && B.RunningBytes(B.Run(k, end)) == a.dealSize + b.dealSize
  {
    BidIsWonAndProposed(k, b, cid);
    BytesOfTwo(B.Run(k, End(b, cid, k.ledger.clock)), a.id, b.id);
  }

  /** An auction is won, its quota expires, and only then the proposal arrives. It is taken all the
      same, and a second deal that fits the limit by itself takes the running bytes over it. Nothing
      but the late proposal is out of the ordinary. */
  lemma LateProposalBreaksTheBound(workers: nat, attemptLimit: nat, limit: nat, period: nat, now: int,
                                   a: Bid, b: Bid, cid: string)
    requires a.Acceptable() && b.Acceptable() && a.id != b.id && a.auctionId != b.auctionId && cid != ""
    requires a.dealSize <= limit && b.dealSize <= limit < a.dealSize + b.dealSize
    requires a.dealSize + limit < WORD && b.dealSize + limit < WORD
    ensures var n := B.Start(workers, attemptLimit, limit, period, now);
            var begin, late, end := Begin(a, now), Proposing(a, cid), End(b, cid, now + BIDS_EXPIRATION);
            && B.IsRun(n, begin) && B.IsRun(n, begin + late) && B.IsRun(n, begin + late + end)
            && B.IsRun(B.Run(n, begin), late) && B.IsRun(B.Run(n, begin + late), end)
            && B.RunningBytes(B.Run(n, begin + late + end)) > limit
            && B.AllExpected(n, begin) && !B.AllExpected(B.Run(n, begin), late)
            && B.AllExpected(B.Run(n, begin + late), end)
  {
    var n := B.Start(workers, attemptLimit, limit, period, now);
    var begin, late, end := Begin(a, now), Proposing(a, cid), End(b, cid, now + BIDS_EXPIRATION);
    QuotaIsForgotten(n, a);
    var m := B.Run(n, begin);
    LateProposalIsTaken(m, a, now, cid);
    RunConcat(n, begin, late);
    var k := B.Run(m, late);
    SecondDealIsTaken(k, a, b, cid);
    RunConcat(n, begin + late, end);
  }

  /** A restart forgets the quota of the bid that is running, and of nothing else. */
  lemma RestartForgetsQuota(m: B.Node, a: Bid)
    requires B.NodeInv(m) && m.sched.bids.Keys == {a.id}
    requires m.sched.bids[a.id].Live() && m.sched.bids[a.id].dealSize == a.dealSize
    ensures var es := [B.RestartEvent];
            && B.IsRun(m, es) && B.AllExpected(m, es)
            && var k := B.Run(m, es);
            && k.auctions == m.auctions && InUse(Expire(k.ledger, k.ledger.clock)) == 0
            && k.ledger.limit == m.ledger.limit && k.ledger.clock == m.ledger.clock
            && k.sched.bids.Keys == {a.id} && k.sched.bids[a.id].Live()
            && k.sched.bids[a.id].dealSize == a.dealSize
  {
    RunOne(m, B.RestartEvent);
    B.RestartResumes(m.sched, m.ledger.clock, a.id);
    var l := B.Step(m, B.RestartEvent).ledger;
    assert Expire(l, l.clock) == l;
  }

  /** A deal is running when the process restarts; a second deal that fits the limit by itself takes
      the running bytes over it. Nothing else is out of the ordinary. */
  lemma RestartBreaksTheBound(workers: nat, attemptLimit: nat, limit: nat, period: nat, now: int,
                              a: Bid, b: Bid, cid: string)
    requires a.Acceptable() && b.Acceptable() && a.id != b.id && a.auctionId != b.auctionId && cid != ""
    requires a.dealSize <= limit && b.dealSize <= limit < a.dealSize + b.dealSize
    requires a.dealSize + limit < WORD && b.dealSize + limit < WORD && attemptLimit > 0
    ensures var n := B.Start(workers, attemptLimit, limit, period, now);
            var es := End(a, cid, now) + [B.RestartEvent] + End(b, cid, now);
            B.IsRun(n, es) && B.AllExpected(n, es) && B.RunningBytes(B.Run(n, es)) > limit
  {
    var n := B.Start(workers, attemptLimit, limit, period, now);
    assert Expire(n.ledger, now) == n.ledger && InUse(n.ledger) == 0;
    BidIsWonAndProposed(n, a, cid);
    B.StartIsNodeInv(workers, attemptLimit, limit, period, now);
    B.RunKeepsNodeInv(n, End(a, cid, now));
    var m := B.Run(n, End(a, cid, now));
    RestartForgetsQuota(m, a);
    RunConcat(n, End(a, cid, now), [B.RestartEvent]);
    var k := B.Run(m, [B.RestartEvent]);
    SecondDealIsTaken(k, a, b, cid);
    RunConcat(n, End(a, cid, now) + [B.RestartEvent], End(b, cid, now));
  }

  /** One deal is won and goes through Boost; a second deal that does not fit beside it is refused as long
      as the process lives, whatever happens and however long ago that was. */
  lemma BoostDealBlocksForGood(workers: nat, attemptLimit: nat, limit: nat, period: nat, now: int,
                               a: Bid, uid: string, es: seq<B.Event>, size: nat, at: int)
    requires a.Acceptable() && uid != "" && attemptLimit > 0
    requires a.dealSize <= limit < a.dealSize + size && a.dealSize + limit < WORD && size + limit < WORD
    requires var n := B.Start(workers, attemptLimit, limit, period, now);
             var begin := Winning(a, now);
             var taken := B.ProposalEvent(a.id, a.auctionId, Boost(uid));
             && B.NoRestart(es) && B.IsRun(n, begin)
             && B.IsRun(B.Step(B.Run(n, begin), taken), es) && B.AllExpected(B.Step(B.Run(n, begin), taken), es)
    ensures var n := B.Start(workers, attemptLimit, limit, period, now);
            var taken := B.ProposalEvent(a.id, a.auctionId, Boost(uid));
            !Grants(B.Run(B.Step(B.Run(n, Winning(a, now)), taken), es).ledger, size, at)
  {
    var n := B.Start(workers, attemptLimit, limit, period, now);
    assert Expire(n.ledger, now) == n.ledger && InUse(n.ledger) == 0;
    BidIsWon(n, a);
    B.StartIsNodeInv(workers, attemptLimit, limit, period, now);
    B.RunKeepsNodeInv(n, Winning(a, now));
    BoostTokens.BoostTokensStayInUse(B.Run(n, Winning(a, now)), a.id, uid, es, size, at);
  }
}
