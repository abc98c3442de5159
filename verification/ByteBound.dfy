/** The limiter's promise, end to end: the bytes of deals that are queued, being fetched or finalized in
    the last period never exceed the limit by more than what was carried over from before a restart. */
module ByteBound {
  import opened Sums
  import opened Bids
  import opened TokenLedger
  import opened Words
  import opened Handlers
  import Ordering
  import Scheduler
  import SchedulerInvariant
  import SchedulerTheorems

  /** won is when this process last granted quota for an auction; auctions is every auction bid in, and
      carried those from before the last restart. They only record the past. */
  datatype Node = Node(sched: Scheduler.Sched, ledger: Ledger, won: map<string, int>,
                       auctions: set<string>, carried: set<string>)

  datatype Event =
    | BidEvent(bid: Bid)
    | WinEvent(id: string, auctionId: string, src: Sources, now: int)
    | ProposalEvent(id: string, auctionId: string, proposal: Proposal)
    | CollectEvent(ids: set<string>)
    | PickEvent(worker: nat)
    | FinishEvent(worker: nat, attempt: Attempt)
    | TimerEvent
    | TickEvent
    | ExpireEvent(quotaTimer: nat)
    | ClockEvent(to: int)
    | RestartEvent

  /** What can happen at all: bid ids are fresh, no clock reading lies ahead, and the scheduler or the
      limiter is able to take the step. */
  predicate Possible(n: Node, e: Event) {
    var s, l := n.sched, n.ledger;
    match e
    case BidEvent(bid) => bid.id !in s.bids
    case WinEvent(_, _, _, now) => now <= l.clock
    case ProposalEvent(_, _, _) => true
    case CollectEvent(ids) => Scheduler.Enabled(s, Scheduler.CollectEvent(ids))
    case PickEvent(w) => Scheduler.Enabled(s, Scheduler.PickEvent(w))
    case FinishEvent(w, _) => w in s.held
    case TimerEvent => s.timer
    case TickEvent => s.ticks > 0
    case ExpireEvent(h) => TokenLedger.Enabled(l, FireEvent(h))
    case ClockEvent(to) => l.clock <= to
    case RestartEvent => true
  }

  /** What the bound rests on: one bid per auction, with a size that cannot wrap the 64-bit total;
      messages name the bid's own auction; a legacy proposal for a bid that awaits it comes before
      the quota expires, unless a restart lost it. */
  predicate Expected(n: Node, e: Event) {
    var s, l := n.sched, n.ledger;
    match e
    case BidEvent(bid) => bid.auctionId !in n.auctions && bid.dealSize + l.limit < WORD
    case WinEvent(id, auctionId, _, _) => id in s.bids ==> s.bids[id].auctionId == auctionId
    case ProposalEvent(id, auctionId, p) =>
      id in s.bids ==>
        && s.bids[id].auctionId == auctionId
        && (p.Legacy? && s.bids[id].status.AwaitingProposal? ==>
              auctionId in n.carried
              || (auctionId in n.won && l.clock < n.won[auctionId] + BIDS_EXPIRATION))
    case _ => true
  }

  predicate Enabled(n: Node, e: Event) { Possible(n, e) && Expected(n, e) }

  ghost function Step(n: Node, e: Event): Node
    requires Possible(n, e)
  {
    var s, l := n.sched, n.ledger;
    match e
    case BidEvent(bid) =>
      n.(sched := Scheduler.Save(s, bid, l.clock), auctions := n.auctions + {bid.auctionId})
    case WinEvent(id, auctionId, src, now) =>
      n.(sched := WinStore(s, l, id, src, now), ledger := WinLedger(s, l, id, auctionId, now),
         won := if id in s.bids && Grants(l, s.bids[id].dealSize, now) then n.won[auctionId := l.clock] else n.won)
    case ProposalEvent(id, auctionId, p) =>
      n.(sched := ProposalStore(s, id, p, l.clock), ledger := ProposalLedger(s, l, id, auctionId, p))
    case CollectEvent(ids) => n.(sched := Scheduler.Step(s, Scheduler.CollectEvent(ids)))
    case PickEvent(w) => n.(sched := Scheduler.Pick(s, w))
    case FinishEvent(w, a) =>
      n.(sched := Scheduler.Finish(s, w, a, l.clock),
         ledger := Settle(l, s.held[w].auctionId, FetchOne(s.held[w], s.attemptLimit, a).1))
    case TimerEvent => n.(sched := Scheduler.Step(s, Scheduler.TimerEvent(l.clock)))
    case TickEvent => n.(sched := Scheduler.Step(s, Scheduler.TickEvent(l.clock)))
    case ExpireEvent(h) => n.(ledger := Fire(l, h))
    case ClockEvent(to) => n.(ledger := At(l, to))
    case RestartEvent =>
      Node(Scheduler.Restart(s, l.clock), Empty(l.limit, l.period, l.clock), map[], n.auctions, n.auctions)
  }

  ghost predicate IsRun(n: Node, es: seq<Event>)
    decreases |es|
  {
    es == [] || (Possible(n, es[0]) && IsRun(Step(n, es[0]), es[1..]))
  }

  /** Every step of the run is as expected. */
  ghost predicate AllExpected(n: Node, es: seq<Event>)
    requires IsRun(n, es)
    decreases |es|
  {
    es == [] || (Expected(n, es[0]) && AllExpected(Step(n, es[0]), es[1..]))
  }

  ghost function Run(n: Node, es: seq<Event>): Node
    requires IsRun(n, es)
    decreases |es|
  {
    if es == [] then n else Run(Step(n, es[0]), es[1..])
  }

  function Start(workers: nat, attemptLimit: nat, limit: nat, period: nat, now: int): Node {
    Node(Scheduler.Start(workers, attemptLimit), Empty(limit, period, now), map[], {}, {})
  }

  // ---- the bytes in question ----

  /** Legacy deals that are queued, being fetched, or finalized at or after from. */
  predicate Counted(b: Bid, from: int) {
    b.Live() || (b.status.Finalized? && b.proposalCid != "" && from <= b.updatedAt)
  }

  function CountedBytes(from: int): Bid -> nat {
    (b: Bid) => if Counted(b, from) then b.dealSize else 0
  }

  ghost function RunningBytes(n: Node): nat {
    Sum(n.sched.bids, CountedBytes(n.ledger.clock - n.ledger.period))
  }

  /** Those among them whose auction was bid in before the last restart. */
  function CarriedPart(carried: set<string>, from: int): Bid -> nat {
    (b: Bid) => if b.auctionId in carried && Counted(b, from) then b.dealSize else 0
  }

  function FreshPart(carried: set<string>, from: int): Bid -> nat {
    (b: Bid) => if b.auctionId !in carried && Counted(b, from) then b.dealSize else 0
  }

  ghost function CarriedBytes(n: Node): nat {
    Sum(n.sched.bids, CarriedPart(n.carried, n.ledger.clock - n.ledger.period))
  }

  // ---- tokens of a set of auctions ----

  function Restrict(m: map<string, Grant>, ids: set<string>): map<string, Grant> {
    map k | k in m && k in ids :: m[k]
  }

  function Of(ids: set<string>, p: Entry -> bool): Entry -> bool {
    (e: Entry) => p(e) && e.id in ids
  }

  ghost function TokensOf(l: Ledger, ids: set<string>): nat {
    Sum(Restrict(l.grants, ids), Amount())
    + Total(l.overwritten, Of(ids, Any()))
    + Total(l.history, Of(ids, From(l.horizon - l.period)))
  }

  lemma {:induction false} TotalSplits(h: seq<Entry>, ids: set<string>, a: string, p: Entry -> bool)
    requires a !in ids
    ensures Total(h, Of(ids + {a}, p)) == Total(h, Of(ids, p)) + Total(h, Of({a}, p))
  {
    if h != [] {
      TotalSplits(h[1..], ids, a, p);
    }
  }

  lemma RestrictSplits(m: map<string, Grant>, ids: set<string>, a: string)
    requires a !in ids
    ensures Sum(Restrict(m, ids + {a}), Amount())
            == Sum(Restrict(m, ids), Amount()) + Sum(Restrict(m, {a}), Amount())
  {
    SumRemove(Restrict(m, ids + {a}), a, Amount());
    assert Restrict(m, ids + {a}) - {a} == Restrict(m, ids);
    SumRemove(Restrict(m, {a}), a, Amount());
    assert Restrict(m, {a}) - {a} == map[];
  }

  lemma TokensSplit(l: Ledger, ids: set<string>, a: string)
    requires a !in ids
    ensures TokensOf(l, ids + {a}) == TokensOf(l, ids) + TokensOf(l, {a})
  {
    RestrictSplits(l.grants, ids, a);
    TotalSplits(l.overwritten, ids, a, Any());
    TotalSplits(l.history, ids, a, From(l.horizon - l.period));
  }

  lemma RestrictSum(m: map<string, Grant>, ids: set<string>)
    ensures Sum(Restrict(m, ids), Amount()) <= Sum(m, Amount())
  {
    SumAtMost(Restrict(m, ids), m, Amount(), Amount());
  }

  lemma TokensWithinUse(l: Ledger, ids: set<string>)
    ensures TokensOf(l, ids) <= InUse(l)
  {
    RestrictSum(l.grants, ids);
    TotalMonotone(l.overwritten, Of(ids, Any()), Any());
    TotalMonotone(l.history, Of(ids, From(l.horizon - l.period)), From(l.horizon - l.period));
  }

  /** Tokens counted for one auction: an outstanding grant, an overwritten one, or a commit. */
  ghost predicate Leaked(l: Ledger, auctionId: string, n: nat) {
    exists e :: e in l.overwritten && e.id == auctionId && e.n == n
  }

  ghost predicate Committed(l: Ledger, auctionId: string, n: nat, at: int) {
    Entry(auctionId, n, at) in l.history
  }

  lemma {:induction false} EntryCounts(h: seq<Entry>, e: Entry, p: Entry -> bool)
    requires e in h && p(e)
    ensures e.n <= Total(h, p)
  {
    if e != h[0] {
      EntryCounts(h[1..], e, p);
    }
  }

  lemma HeldTokensCount(l: Ledger, auctionId: string, n: nat, at: int)
    requires || (auctionId in l.grants && l.grants[auctionId].n == n)
             || Leaked(l, auctionId, n)
             || (Committed(l, auctionId, n, at) && l.horizon - l.period <= at)
    ensures n <= TokensOf(l, {auctionId})
  {
    if auctionId in l.grants && l.grants[auctionId].n == n {
      SumRemove(Restrict(l.grants, {auctionId}), auctionId, Amount());
    } else if Leaked(l, auctionId, n) {
      var e :| e in l.overwritten && e.id == auctionId && e.n == n;
      EntryCounts(l.overwritten, e, Of({auctionId}, Any()));
    } else {
      EntryCounts(l.history, Entry(auctionId, n, at), Of({auctionId}, From(l.horizon - l.period)));
    }
  }

  /** No two bids are in the same auction. */
  ghost predicate OnePerAuction(bids: map<string, Bid>) {
    forall i, j :: i in bids && j in bids && i != j ==> bids[i].auctionId != bids[j].auctionId
  }

  ghost predicate Backed(bids: map<string, Bid>, w: Bid -> nat, l: Ledger, ids: set<string>) {
    forall i :: i in bids ==> bids[i].auctionId in ids && w(bids[i]) <= TokensOf(l, {bids[i].auctionId})
  }

  lemma BackedWithout(bids: map<string, Bid>, w: Bid -> nat, l: Ledger, ids: set<string>, i: string)
    requires OnePerAuction(bids) && i in bids && Backed(bids, w, l, ids)
    ensures OnePerAuction(bids - {i}) && Backed(bids - {i}, w, l, ids - {bids[i].auctionId})
    ensures ids - {bids[i].auctionId} + {bids[i].auctionId} == ids
  {
    assert bids[i].auctionId in ids;
  }

  /** Bids in different auctions draw on different tokens. */
  lemma {:induction false} ClaimsWithinTokens(bids: map<string, Bid>, w: Bid -> nat, l: Ledger, ids: set<string>)
    requires OnePerAuction(bids) && Backed(bids, w, l, ids)
    ensures Sum(bids, w) <= TokensOf(l, ids)
    decreases |bids|
  {
    if bids != map[] {
      var i :| i in bids;
      BackedWithout(bids, w, l, ids, i);
      ClaimsWithinTokens(bids - {i}, w, l, ids - {bids[i].auctionId});
      SumWithout(bids, i, w);
      TokensSplit(l, ids - {bids[i].auctionId}, bids[i].auctionId);
    }
  }

  // ---- the invariant of every run ----

  /** While a bid has no proposal, its auction's quota is outstanding until it expires, guarded by
      the one timer armed for it; or an earlier grant was overwritten and still counts. */
  predicate Reserved(l: Ledger, won: map<string, int>, b: Bid) {
    && (b.auctionId in won && l.clock < won[b.auctionId] + BIDS_EXPIRATION ==> b.auctionId in l.grants)
    && forall h :: h in l.alarms && l.alarms[h].id == b.auctionId ==>
         && b.auctionId in l.grants && l.grants[b.auctionId].timer == h
         && b.auctionId in won && l.alarms[h].due == won[b.auctionId] + BIDS_EXPIRATION
  }

  ghost predicate Covered(carried: set<string>, l: Ledger, won: map<string, int>, b: Bid) {
    || b.auctionId in carried
    || Leaked(l, b.auctionId, b.dealSize)
    || match b.status
       case Unspecified => false
       case Submitted => Reserved(l, won, b)
       case AwaitingProposal => Reserved(l, won, b)
       case QueuedData => b.auctionId in l.grants && Unarmed(l, b.auctionId)
       case FetchingData => b.auctionId in l.grants && Unarmed(l, b.auctionId)
       case Finalized => b.proposalCid != "" ==> Committed(l, b.auctionId, b.dealSize, b.updatedAt)
       case Errored => true
  }

  ghost predicate BidOk(carried: set<string>, l: Ledger, won: map<string, int>, b: Bid) {
    && b.dealSize + l.limit < WORD
    && (b.Live() ==> b.proposalCid != "")
    && (b.status.Submitted? || b.status.AwaitingProposal? ==> b.proposalCid == "")
    && (b.auctionId in l.grants ==> l.grants[b.auctionId].n == b.dealSize)
    && Covered(carried, l, won, b)
  }

  /** The limiter has never heard of auctions that were not bid in. */
  ghost predicate Confined(l: Ledger, auctions: set<string>) {
    && l.grants.Keys <= auctions
    && (forall h :: h in l.alarms ==> l.alarms[h].id in auctions)
  }

  ghost predicate AllOk(n: Node) {
    && OnePerAuction(n.sched.bids)
    && Confined(n.ledger, n.auctions) && n.won.Keys <= n.auctions && n.carried <= n.auctions
    && forall i :: i in n.sched.bids ==>
         n.sched.bids[i].auctionId in n.auctions && BidOk(n.carried, n.ledger, n.won, n.sched.bids[i])
  }

  ghost predicate NodeInv(n: Node) {
    && Scheduler.Inv(n.sched) && n.sched.attemptLimit > 0
    && Safe(n.ledger)
    && AllOk(n)
  }

  /** What is counted of a bid is held for its auction, unless it was carried over. */
  lemma CountedIsHeld(carried: set<string>, l: Ledger, won: map<string, int>, b: Bid)
    requires BidOk(carried, l, won, b) && l.horizon <= l.clock
    ensures FreshPart(carried, l.clock - l.period)(b) <= TokensOf(l, {b.auctionId})
  {
    if Counted(b, l.clock - l.period) && b.auctionId !in carried {
      HeldTokensCount(l, b.auctionId, b.dealSize, b.updatedAt);
    }
  }

  lemma OkBidsAreBacked(carried: set<string>, bids: map<string, Bid>, l: Ledger, won: map<string, int>,
                        ids: set<string>)
    requires l.horizon <= l.clock
    requires forall i :: i in bids ==> bids[i].auctionId in ids && BidOk(carried, l, won, bids[i])
    ensures Backed(bids, FreshPart(carried, l.clock - l.period), l, ids)
  {
    forall i | i in bids
      ensures FreshPart(carried, l.clock - l.period)(bids[i]) <= TokensOf(l, {bids[i].auctionId})
    {
      CountedIsHeld(carried, l, won, bids[i]);
    }
  }

  lemma FreshWithinUse(carried: set<string>, bids: map<string, Bid>, l: Ledger, won: map<string, int>,
                       ids: set<string>)
    requires l.horizon <= l.clock && OnePerAuction(bids)
    requires forall i :: i in bids ==> bids[i].auctionId in ids && BidOk(carried, l, won, bids[i])
    ensures Sum(bids, FreshPart(carried, l.clock - l.period)) <= InUse(l)
  {
    OkBidsAreBacked(carried, bids, l, won, ids);
    ClaimsWithinTokens(bids, FreshPart(carried, l.clock - l.period), l, ids);
    TokensWithinUse(l, ids);
  }

  lemma BytesSplit(n: Node)
    ensures RunningBytes(n)
            == Sum(n.sched.bids, FreshPart(n.carried, n.ledger.clock - n.ledger.period)) + CarriedBytes(n)
  {
    var from := n.ledger.clock - n.ledger.period;
    SumSplits(n.sched.bids, CountedBytes(from), FreshPart(n.carried, from), CarriedPart(n.carried, from));
  }

  lemma RunningWithinUse(n: Node)
    requires AllOk(n) && n.ledger.horizon <= n.ledger.clock
    ensures RunningBytes(n) <= InUse(n.ledger) + CarriedBytes(n)
  {
    BytesSplit(n);
    FreshWithinUse(n.carried, n.sched.bids, n.ledger, n.won, n.auctions);
  }

  /** The bound follows from the invariant. */
  lemma RunningBytesAreBounded(n: Node)
    requires NodeInv(n)
    ensures RunningBytes(n) <= InUse(n.ledger) + CarriedBytes(n) && InUse(n.ledger) <= n.ledger.limit
  {
    RunningWithinUse(n);
  }

  // ---- steps of the limiter, seen from one auction ----

  /** Nothing that matters to the auction changed, except that time may have passed and commits and
      overwritten grants may have been added. */
  predicate Undisturbed(l: Ledger, r: Ledger, auctionId: string) {
    && r.limit == l.limit && r.period == l.period && l.clock <= r.clock
    && (auctionId in r.grants <==> auctionId in l.grants)
    && (auctionId in l.grants ==> r.grants[auctionId] == l.grants[auctionId])
    && (forall h :: h in r.alarms && r.alarms[h].id == auctionId ==> h in l.alarms && l.alarms[h] == r.alarms[h])
    && l.overwritten <= r.overwritten && l.history <= r.history
  }

  lemma UndisturbedBidIsOk(carried: set<string>, l: Ledger, r: Ledger,
                           won: map<string, int>, won': map<string, int>, b: Bid)
    requires Undisturbed(l, r, b.auctionId) && BidOk(carried, l, won, b)
    requires b.auctionId in won' <==> b.auctionId in won
    requires b.auctionId in won ==> won'[b.auctionId] == won[b.auctionId]
    ensures BidOk(carried, r, won', b)
  {
  }

  lemma RequestDisturbsOne(l: Ledger, id: string, n: nat, now: int, other: string)
    requires other != id
    ensures Undisturbed(l, Request(l, id, n, BIDS_EXPIRATION, now), other)
  {
  }

  lemma OthersAreUndisturbed(l: Ledger, id: string, other: string)
    requires other != id
    ensures Undisturbed(l, Secure(l, id), other)
    ensures Undisturbed(l, Commit(l, id), other)
    ensures Undisturbed(l, Withdraw(l, id), other)
  {
  }

  /** Only bid i changed, together with what the limiter holds for its auction. */
  predicate OneChanged(n: Node, r: Node, i: string) {
    && r.auctions == n.auctions && r.carried == n.carried && r.sched.bids.Keys == n.sched.bids.Keys
    && forall j :: j in n.sched.bids ==>
         && r.sched.bids[j].auctionId == n.sched.bids[j].auctionId
         && (j != i ==>
              && r.sched.bids[j] == n.sched.bids[j]
              && Undisturbed(n.ledger, r.ledger, n.sched.bids[j].auctionId)
              && SameWin(n.won, r.won, n.sched.bids[j].auctionId))
  }

  predicate SameWin(won: map<string, int>, won': map<string, int>, a: string) {
    (a in won' <==> a in won) && (a in won ==> won'[a] == won[a])
  }

  lemma OneChangedKeepsAllOk(n: Node, r: Node, i: string)
    requires AllOk(n) && OneChanged(n, r, i)
    requires Confined(r.ledger, n.auctions) && r.won.Keys <= n.auctions
    requires i in r.sched.bids ==> BidOk(r.carried, r.ledger, r.won, r.sched.bids[i])
    ensures AllOk(r)
  {
    forall j | j in r.sched.bids ensures BidOk(r.carried, r.ledger, r.won, r.sched.bids[j]) {
      if j != i {
        UndisturbedBidIsOk(n.carried, n.ledger, r.ledger, n.won, r.won, n.sched.bids[j]);
      }
    }
    forall j, k | j in r.sched.bids && k in r.sched.bids && j != k
      ensures r.sched.bids[j].auctionId != r.sched.bids[k].auctionId
    {
      assert n.sched.bids[j].auctionId != n.sched.bids[k].auctionId;
    }
  }

  // ---- steps, seen from the bid they are about ----

  lemma GrantedBidIsOk(carried: set<string>, l: Ledger, won: map<string, int>, b: Bid, b': Bid, now: int)
    requires WellFormed(l) && BidOk(carried, l, won, b) && Grants(l, b.dealSize, now)
    requires || b' == b
             || (&& b.status.Submitted?
                 && b' == b.(sources := b'.sources, status := AwaitingProposal, updatedAt := b'.updatedAt))
    ensures BidOk(carried, Request(l, b.auctionId, b.dealSize, BIDS_EXPIRATION, now), won[b.auctionId := l.clock], b')
  {
    var r := Request(l, b.auctionId, b.dealSize, BIDS_EXPIRATION, now);
    if b.auctionId in l.grants {
      var e := Entry(b.auctionId, b.dealSize, l.clock);
      assert r.overwritten[|l.overwritten|] == e && e in r.overwritten;
      assert Leaked(r, b.auctionId, b.dealSize);
    } else if Leaked(l, b.auctionId, b.dealSize) {
      assert Leaked(r, b.auctionId, b.dealSize);
    }
  }

  lemma RefusedBidIsOk(carried: set<string>, l: Ledger, won: map<string, int>, b: Bid, now: int)
    requires BidOk(carried, l, won, b) && !Grants(l, b.dealSize, now)
    ensures BidOk(carried, Request(l, b.auctionId, b.dealSize, BIDS_EXPIRATION, now), won, b)
  {
    assert Undisturbed(l, Request(l, b.auctionId, b.dealSize, BIDS_EXPIRATION, now), b.auctionId);
    UndisturbedBidIsOk(carried, l, Expire(l, now), won, won, b);
  }

  /** A legacy proposal leaves its bid covered exactly when the quota has not expired, or never was in
      this process. */
  lemma ProposedBidIsCoveredIff(carried: set<string>, l: Ledger, won: map<string, int>, b: Bid, b': Bid)
    requires BidOk(carried, l, won, b) && b.status.AwaitingProposal?
    requires b'.Live() && b'.auctionId == b.auctionId && b'.dealSize == b.dealSize
    ensures Covered(carried, Secure(l, b.auctionId), won, b')
            <==> b.auctionId in carried || b.auctionId in l.grants || Leaked(l, b.auctionId, b.dealSize)
  {
    assert Leaked(Secure(l, b.auctionId), b.auctionId, b.dealSize) == Leaked(l, b.auctionId, b.dealSize);
  }

  lemma SettledBidIsOk(carried: set<string>, l: Ledger, won: map<string, int>, b: Bid, job: Bid, limit: nat, a: Attempt)
    requires BidOk(carried, l, won, b) && b.status.FetchingData? && job == b.(attempts := job.attempts)
    ensures var (b', q) := FetchOne(job, limit, a);
            BidOk(carried, Settle(l, b.auctionId, q), won, b'.(updatedAt := l.clock))
  {
    var (b', q) := FetchOne(job, limit, a);
    var r := Settle(l, b.auctionId, q);
    if Leaked(l, b.auctionId, b.dealSize) {
      assert Leaked(r, b.auctionId, b.dealSize);
    } else if q.CommitBytes? && b.auctionId !in carried {
      assert r.history[|l.history|] == Entry(b.auctionId, b.dealSize, l.clock);
    }
  }

  lemma ExpiredBidIsOk(carried: set<string>, l: Ledger, won: map<string, int>, b: Bid, h: nat)
    requires BidOk(carried, l, won, b) && h in l.alarms && l.alarms[h].due <= l.clock && l.alarms[h].id == b.auctionId
    ensures BidOk(carried, Fire(l, h), won, b)
  {
    assert Leaked(Fire(l, h), b.auctionId, b.dealSize) == Leaked(l, b.auctionId, b.dealSize);
  }

  // ---- every step keeps every bid covered ----

  lemma WinKeepsAllOk(n: Node, id: string, auctionId: string, src: Sources, now: int)
    requires NodeInv(n) && Enabled(n, WinEvent(id, auctionId, src, now))
    ensures AllOk(Step(n, WinEvent(id, auctionId, src, now)))
  {
    var r := Step(n, WinEvent(id, auctionId, src, now));
    if id in n.sched.bids {
      var b := n.sched.bids[id];
      assert Scheduler.Sound(n.sched);
      forall j | j in n.sched.bids && j != id
        ensures Undisturbed(n.ledger, r.ledger, n.sched.bids[j].auctionId)
      {
        RequestDisturbsOne(n.ledger, auctionId, b.dealSize, now, n.sched.bids[j].auctionId);
      }
      if Grants(n.ledger, b.dealSize, now) {
        GrantedBidIsOk(n.carried, n.ledger, n.won, b, r.sched.bids[id], now);
      } else {
        RefusedBidIsOk(n.carried, n.ledger, n.won, b, now);
      }
      OneChangedKeepsAllOk(n, r, id);
    }
  }

  lemma ProposalKeepsAllOk(n: Node, id: string, auctionId: string, p: Proposal)
    requires AllOk(n) && Scheduler.Sound(n.sched) && Enabled(n, ProposalEvent(id, auctionId, p))
    ensures AllOk(Step(n, ProposalEvent(id, auctionId, p)))
  {
    var r := Step(n, ProposalEvent(id, auctionId, p));
    if id in n.sched.bids {
      ProposedBidIsOk(n, id, auctionId, p);
      forall j | j in n.sched.bids && j != id
        ensures Undisturbed(n.ledger, r.ledger, n.sched.bids[j].auctionId)
      {
        OthersAreUndisturbed(n.ledger, auctionId, n.sched.bids[j].auctionId);
      }
      OneChangedKeepsAllOk(n, r, id);
    }
  }

  lemma ProposedBidIsOk(n: Node, id: string, auctionId: string, p: Proposal)
    requires id in n.sched.bids && n.sched.bids[id].id == id && BidOk(n.carried, n.ledger, n.won, n.sched.bids[id])
    requires Enabled(n, ProposalEvent(id, auctionId, p))
    ensures var r := Step(n, ProposalEvent(id, auctionId, p));
            && r.sched.bids == n.sched.bids[id := r.sched.bids[id]]
            && r.sched.bids[id].auctionId == auctionId
            && BidOk(n.carried, r.ledger, n.won, r.sched.bids[id])
  {
    var b, r := n.sched.bids[id], Step(n, ProposalEvent(id, auctionId, p));
    if r.sched.bids[id] == b {
      assert Undisturbed(n.ledger, r.ledger, auctionId);
      UndisturbedBidIsOk(n.carried, n.ledger, r.ledger, n.won, n.won, b);
    } else if p.Legacy? {
      ProposedBidIsCoveredIff(n.carried, n.ledger, n.won, b, r.sched.bids[id]);
    }
  }

  lemma SettleDisturbsOne(l: Ledger, id: string, q: Quota, other: string)
    requires other != id
    ensures Undisturbed(l, Settle(l, id, q), other)
  {
    OthersAreUndisturbed(l, id, other);
  }

  lemma FetchingKeepsTerms(b: Bid, limit: nat, a: Attempt)
    ensures FetchOne(b, limit, a).0.id == b.id && FetchOne(b, limit, a).0.auctionId == b.auctionId
  {
  }

  lemma FinishChangesOne(n: Node, w: nat, a: Attempt, job: Bid)
    requires OnePerAuction(n.sched.bids) && w in n.sched.held && n.sched.held[w] == job
    requires job.id in n.sched.bids && job == n.sched.bids[job.id].(attempts := job.attempts)
    ensures OneChanged(n, Step(n, FinishEvent(w, a)), job.id)
    ensures Confined(n.ledger, n.auctions) ==> Confined(Step(n, FinishEvent(w, a)).ledger, n.auctions)
  {
    var q := FetchOne(job, n.sched.attemptLimit, a).1;
    FetchingKeepsTerms(job, n.sched.attemptLimit, a);
    forall j | j in n.sched.bids && j != job.id
      ensures Undisturbed(n.ledger, Settle(n.ledger, job.auctionId, q), n.sched.bids[j].auctionId)
    {
      SettleDisturbsOne(n.ledger, job.auctionId, q, n.sched.bids[j].auctionId);
    }
  }

  lemma FinishKeepsAllOk(n: Node, w: nat, a: Attempt, job: Bid)
    requires AllOk(n) && w in n.sched.held && n.sched.held[w] == job
    requires job.id in n.sched.bids && n.sched.bids[job.id].status.FetchingData?
    requires job == n.sched.bids[job.id].(attempts := job.attempts)
    ensures AllOk(Step(n, FinishEvent(w, a)))
  {
    SettledBidIsOk(n.carried, n.ledger, n.won, n.sched.bids[job.id], job, n.sched.attemptLimit, a);
    FinishChangesOne(n, w, a, job);
    OneChangedKeepsAllOk(n, Step(n, FinishEvent(w, a)), job.id);
  }

  lemma ExpireKeepsAllOk(n: Node, h: nat)
    requires NodeInv(n) && Enabled(n, ExpireEvent(h))
    ensures AllOk(Step(n, ExpireEvent(h)))
  {
    var l, r := n.ledger, Fire(n.ledger, h);
    forall j | j in n.sched.bids ensures BidOk(n.carried, r, n.won, n.sched.bids[j]) {
      if n.sched.bids[j].auctionId == l.alarms[h].id {
        ExpiredBidIsOk(n.carried, l, n.won, n.sched.bids[j], h);
      } else {
        UndisturbedBidIsOk(n.carried, l, r, n.won, n.won, n.sched.bids[j]);
      }
    }
  }

  lemma BidKeepsAllOk(n: Node, bid: Bid)
    requires NodeInv(n) && Enabled(n, BidEvent(bid))
    ensures AllOk(Step(n, BidEvent(bid)))
  {
  }

  /** A bid that moves between queued and fetching stays covered. */
  lemma DispatchedBidIsOk(carried: set<string>, l: Ledger, won: map<string, int>, b: Bid, b': Bid)
    requires BidOk(carried, l, won, b) && b.Live() && b'.Live()
    requires b' == b.(status := b'.status, updatedAt := b'.updatedAt)
    ensures BidOk(carried, l, won, b')
  {
  }

  lemma NextChangesOne(n: Node, s: Scheduler.Sched, id: string)
    requires Scheduler.Sound(n.sched) && s.bids == n.sched.bids
    requires Scheduler.QueuedIds(s.bids) != {} && id == Ordering.Least(Scheduler.QueuedIds(s.bids))
    ensures var r := n.(sched := Scheduler.Next(s, n.ledger.clock));
            && OneChanged(n, r, id)
            && n.sched.bids[id].Live() && r.sched.bids[id].Live()
            && r.sched.bids[id]
               == n.sched.bids[id].(status := r.sched.bids[id].status, updatedAt := r.sched.bids[id].updatedAt)
  {
    assert id in Scheduler.QueuedIds(s.bids);
  }

  lemma NextKeepsAllOk(n: Node, s: Scheduler.Sched)
    requires AllOk(n) && Scheduler.Sound(n.sched) && s.bids == n.sched.bids
    ensures AllOk(n.(sched := Scheduler.Next(s, n.ledger.clock)))
  {
    var queued := Scheduler.QueuedIds(s.bids);
    if queued != {} {
      var id := Ordering.Least(queued);
      var r := n.(sched := Scheduler.Next(s, n.ledger.clock));
      NextChangesOne(n, s, id);
      DispatchedBidIsOk(n.carried, n.ledger, n.won, n.sched.bids[id], r.sched.bids[id]);
      OneChangedKeepsAllOk(n, r, id);
    }
  }

  lemma ClockKeepsAllOk(n: Node, to: int)
    requires AllOk(n) && n.ledger.clock <= to
    ensures AllOk(n.(ledger := At(n.ledger, to)))
  {
    forall j | j in n.sched.bids ensures BidOk(n.carried, At(n.ledger, to), n.won, n.sched.bids[j]) {
      UndisturbedBidIsOk(n.carried, n.ledger, At(n.ledger, to), n.won, n.won, n.sched.bids[j]);
    }
  }

  lemma CollectKeepsAllOk(n: Node, ids: set<string>)
    requires AllOk(n)
    ensures AllOk(n.(sched := n.sched.(bids := n.sched.bids - ids)))
  {
  }

  /** What recovery does to a stored bid. */
  predicate Resumed(a: Bid, b: Bid) {
    && b == a.(status := b.status, updatedAt := b.updatedAt)
    && (b == a || (a.Live() && b.Live()))
  }

  lemma {:induction false} RecoverResumes(s: Scheduler.Sched, ids: seq<string>, now: int, id: string)
    requires Scheduler.Sound(s) && id in s.bids
    requires forall i :: i in ids ==> i in s.bids && s.bids[i].Live()
    ensures var r := Scheduler.Recover(s, ids, now);
            r.bids.Keys == s.bids.Keys && Resumed(s.bids[id], r.bids[id])
    decreases |ids|
  {
    if ids != [] {
      RecoverResumes(Scheduler.Reenqueue(s, ids[0], now), ids[1..], now, id);
    }
  }

  lemma RestartResumes(s: Scheduler.Sched, now: int, id: string)
    requires Scheduler.Sound(s) && id in s.bids
    ensures var r := Scheduler.Restart(s, now);
            r.bids.Keys == s.bids.Keys && Resumed(s.bids[id], r.bids[id])
  {
    var ids := Ordering.Ascending(Scheduler.FetchingIds(s.bids));
    forall i | i in ids ensures i in s.bids && s.bids[i].Live() {
      assert i in Scheduler.FetchingIds(s.bids);
    }
    RecoverResumes(Scheduler.Crash(s), ids, now, id);
  }

  lemma ResumedBidIsOk(carried: set<string>, l: Ledger, won: map<string, int>, b: Bid, b': Bid, auctions: set<string>)
    requires BidOk(carried, l, won, b) && Resumed(b, b') && b.auctionId in auctions
    ensures BidOk(auctions, Empty(l.limit, l.period, l.clock), map[], b')
  {
  }

  lemma RestartKeepsAllOk(n: Node)
    requires AllOk(n) && Scheduler.Sound(n.sched)
    ensures AllOk(Step(n, RestartEvent))
  {
    var r := Step(n, RestartEvent);
    forall i | i in r.sched.bids
      ensures i in n.sched.bids && Resumed(n.sched.bids[i], r.sched.bids[i])
      ensures BidOk(r.carried, r.ledger, r.won, r.sched.bids[i])
    {
      SchedulerTheorems.RestartMovesForward(n.sched, n.ledger.clock, i);
      RestartResumes(n.sched, n.ledger.clock, i);
      ResumedBidIsOk(n.carried, n.ledger, n.won, n.sched.bids[i], r.sched.bids[i], n.auctions);
    }
  }

  lemma MessageKeepsAllOk(n: Node, e: Event)
    requires NodeInv(n) && Enabled(n, e) && (e.BidEvent? || e.WinEvent? || e.ProposalEvent? || e.ExpireEvent?)
    ensures AllOk(Step(n, e))
  {
    match e {
      case BidEvent(bid) => BidKeepsAllOk(n, bid);
      case WinEvent(id, auctionId, src, now) => WinKeepsAllOk(n, id, auctionId, src, now);
      case ProposalEvent(id, auctionId, p) => ProposalKeepsAllOk(n, id, auctionId, p);
      case ExpireEvent(h) => ExpireKeepsAllOk(n, h);
    }
  }

  lemma AttemptKeepsAllOk(n: Node, w: nat, a: Attempt)
    requires NodeInv(n) && w in n.sched.held
    ensures AllOk(Step(n, FinishEvent(w, a)))
  {
    SchedulerInvariant.HeldIsStored(n.sched, w);
    FinishKeepsAllOk(n, w, a, n.sched.held[w]);
  }

  lemma DispatchKeepsAllOk(n: Node, e: Event)
    requires NodeInv(n) && Enabled(n, e) && (e.TimerEvent? || e.TickEvent?)
    ensures AllOk(Step(n, e))
  {
    if e.TimerEvent? {
      NextKeepsAllOk(n, n.sched.(timer := false));
    } else {
      NextKeepsAllOk(n, n.sched.(ticks := n.sched.ticks - 1));
    }
  }

  lemma StepKeepsAllOk(n: Node, e: Event)
    requires NodeInv(n) && Enabled(n, e)
    ensures AllOk(Step(n, e))
  {
    match e {
      case CollectEvent(ids) => CollectKeepsAllOk(n, ids);
      case PickEvent(w) =>
      case FinishEvent(w, a) => AttemptKeepsAllOk(n, w, a);
      case TimerEvent => DispatchKeepsAllOk(n, e);
      case TickEvent => DispatchKeepsAllOk(n, e);
      case ClockEvent(to) => ClockKeepsAllOk(n, to);
      case RestartEvent => RestartKeepsAllOk(n);
      case _ => MessageKeepsAllOk(n, e);
    }
  }

  /** The scheduler's part of a step; collecting nothing stands for none. */
  ghost function SchedEvent(n: Node, e: Event): Scheduler.Event {
    var s, now := n.sched, n.ledger.clock;
    match e
    case BidEvent(bid) => Scheduler.SaveEvent(bid, now)
    case WinEvent(id, _, Readable(valid, sources), at) =>
      if id in s.bids && Grants(n.ledger, s.bids[id].dealSize, at) then Scheduler.WinEvent(id, valid, sources, now)
      else Scheduler.CollectEvent({})
    case ProposalEvent(id, _, Legacy(cid)) => Scheduler.ProposalEvent(id, cid, now)
    case ProposalEvent(id, _, Boost(uid)) => Scheduler.BoostEvent(id, uid, now)
    case CollectEvent(ids) => Scheduler.CollectEvent(ids)
    case PickEvent(w) => Scheduler.PickEvent(w)
    case FinishEvent(w, a) => Scheduler.FinishEvent(w, a, now)
    case TimerEvent => Scheduler.TimerEvent(now)
    case TickEvent => Scheduler.TickEvent(now)
    case RestartEvent => Scheduler.RestartEvent(now)
    case _ => Scheduler.CollectEvent({})
  }

  lemma StepIsSchedStep(n: Node, e: Event)
    requires Possible(n, e)
    ensures Scheduler.Enabled(n.sched, SchedEvent(n, e))
    ensures Step(n, e).sched == Scheduler.Step(n.sched, SchedEvent(n, e))
  {
    assert n.sched.bids - {} == n.sched.bids;
  }

  lemma StepKeepsSched(n: Node, e: Event)
    requires Scheduler.Inv(n.sched) && n.sched.attemptLimit > 0 && Possible(n, e)
    ensures Scheduler.Inv(Step(n, e).sched) && Step(n, e).sched.attemptLimit == n.sched.attemptLimit
  {
    StepIsSchedStep(n, e);
    SchedulerInvariant.StepKeepsInv(n.sched, SchedEvent(n, e));
  }

  /** The limiter's part of a step is a step of the limiter, or none. */
  lemma StepKeepsLedger(n: Node, e: Event)
    requires Safe(n.ledger) && Enabled(n, e)
    requires forall i :: i in n.sched.bids ==> n.sched.bids[i].dealSize + n.ledger.limit < WORD
    ensures Safe(Step(n, e).ledger) && Step(n, e).ledger.limit == n.ledger.limit
  {
    var l := n.ledger;
    match e {
      case WinEvent(id, auctionId, _, now) =>
        if id in n.sched.bids {
          StepKeepsSafe(l, RequestEvent(auctionId, n.sched.bids[id].dealSize, BIDS_EXPIRATION, now));
        }
      case ProposalEvent(_, auctionId, _) => StepKeepsSafe(l, SecureEvent(auctionId));
      case FinishEvent(w, a) =>
        StepKeepsSafe(l, CommitEvent(n.sched.held[w].auctionId));
        StepKeepsSafe(l, WithdrawEvent(n.sched.held[w].auctionId));
      case ExpireEvent(h) => StepKeepsSafe(l, FireEvent(h));
      case ClockEvent(to) => StepKeepsSafe(l, AdvanceEvent(to));
      case RestartEvent => EmptyIsSafe(l.limit, l.period, l.clock);
      case _ =>
    }
  }

  lemma StepKeepsNodeInv(n: Node, e: Event)
    requires NodeInv(n) && Enabled(n, e)
    ensures NodeInv(Step(n, e)) && Step(n, e).ledger.limit == n.ledger.limit
  {
    StepKeepsAllOk(n, e);
    StepKeepsSched(n, e);
    assert forall i :: i in n.sched.bids ==> BidOk(n.carried, n.ledger, n.won, n.sched.bids[i]);
    StepKeepsLedger(n, e);
  }

  lemma {:induction false} RunKeepsNodeInv(n: Node, es: seq<Event>)
    requires NodeInv(n) && IsRun(n, es) && AllExpected(n, es)
    ensures NodeInv(Run(n, es)) && Run(n, es).ledger.limit == n.ledger.limit
    decreases |es|
  {
    if es != [] {
      StepKeepsNodeInv(n, es[0]);
      RunKeepsNodeInv(Step(n, es[0]), es[1..]);
    }
  }

  lemma StartIsNodeInv(workers: nat, attemptLimit: nat, limit: nat, period: nat, now: int)
    requires attemptLimit > 0 && limit < WORD
    ensures NodeInv(Start(workers, attemptLimit, limit, period, now))
  {
    SchedulerInvariant.StartIsInv(workers, attemptLimit);
    EmptyIsSafe(limit, period, now);
  }

  /** In every run from an empty store, the bytes of legacy deals that are queued, being fetched or
      finalized within the last period exceed the limit by at most those carried over a restart. */
  lemma RunningBytesBeyondTheLimitAreCarried(workers: nat, attemptLimit: nat, limit: nat, period: nat,
                                             now: int, es: seq<Event>)
    requires attemptLimit > 0 && limit < WORD
    requires var n := Start(workers, attemptLimit, limit, period, now); IsRun(n, es) && AllExpected(n, es)
    ensures var r := Run(Start(workers, attemptLimit, limit, period, now), es);
            RunningBytes(r) <= limit + CarriedBytes(r)
  {
    var n := Start(workers, attemptLimit, limit, period, now);
    StartIsNodeInv(workers, attemptLimit, limit, period, now);
    RunKeepsNodeInv(n, es);
    RunningBytesAreBounded(Run(n, es));
  }

  ghost predicate NoRestart(es: seq<Event>) { forall e :: e in es ==> !e.RestartEvent? }

  lemma {:induction false} CarriedStays(n: Node, es: seq<Event>)
    requires IsRun(n, es) && NoRestart(es)
    ensures Run(n, es).carried == n.carried
    decreases |es|
  {
    if es != [] {
      assert es[0] in es;
      CarriedStays(Step(n, es[0]), es[1..]);
    }
  }

  lemma {:induction false} NothingCarried(bids: map<string, Bid>, from: int)
    ensures Sum(bids, CarriedPart({}, from)) == 0
    decreases |bids|
  {
    if bids != map[] {
      var i :| i in bids;
      NothingCarried(bids - {i}, from);
      SumWithout(bids, i, CarriedPart({}, from));
    }
  }

  lemma NothingIsCarriedBytes(n: Node)
    requires n.carried == {}
    ensures CarriedBytes(n) == 0
  {
    NothingCarried(n.sched.bids, n.ledger.clock - n.ledger.period);
  }

  /** In the lifetime of one process those bytes stay within the limit. */
  lemma RunningBytesNeverExceedTheLimit(workers: nat, attemptLimit: nat, limit: nat, period: nat,
                                        now: int, es: seq<Event>)
    requires attemptLimit > 0 && limit < WORD && NoRestart(es)
    requires var n := Start(workers, attemptLimit, limit, period, now); IsRun(n, es) && AllExpected(n, es)
    ensures RunningBytes(Run(Start(workers, attemptLimit, limit, period, now), es)) <= limit
  {
    var n := Start(workers, attemptLimit, limit, period, now);
    RunningBytesBeyondTheLimitAreCarried(workers, attemptLimit, limit, period, now, es);
    CarriedStays(n, es);
    NothingIsCarriedBytes(Run(n, es));
  }
}
