/** The handlers that tie the bid store to the limiter and to the pricing rules. */
module Service {
  import opened Options
  import opened Bids
  import opened Handlers
  import opened Words
  import Scheduler
  import TokenLedger
  import Limiter
  import Store
  import Pricing
  import RulesCache

  datatype Range = Range(min: nat, max: nat)
  {
    predicate Holds(x: nat) { min <= x <= max }
  }

  /** An auction's terms as a bid without id and prices, its end if that is valid, and the epoch by which
      deals must start, or zero. */
  datatype Auction = Auction(terms: Bid, endsAt: Option<int>, epochDeadline: nat)

  /** What the outside world says while a bid is considered: the clock, the sealing sectors and the chain
      height if they are known, whether the store is healthy, and the id the bid is published under. It
      is unset when publishing fails or the payload cid does not parse. */
  datatype World = World(now: int, sealing: Option<nat>, healthy: bool, height: Option<uint64>,
                         id: Option<string>)

  class Service {
    const store: Store.Store
    const bytesLimiter: Limiter.RunningTotalLimiter
    const askPrice: int
    const verifiedAskPrice: int
    const pricingRulesStrict: bool
    const dealSize: Range
    const dealDuration: Range
    const sealingSectorsLimit: int
    const dealStartWindow: uint64
    var paused: bool

    ghost predicate Valid()
      reads this, store, bytesLimiter
    {
      bytesLimiter == store.bytesLimiter && store.Valid() && bytesLimiter.Valid()
    }

    constructor (store: Store.Store, askPrice: int, verifiedAskPrice: int, strict: bool,
                 dealSize: Range, dealDuration: Range, sealingSectorsLimit: int, dealStartWindow: uint64)
      requires store.Valid() && store.bytesLimiter.Valid()
      ensures Valid() && this.store == store && !paused
    {
      this.store, bytesLimiter := store, store.bytesLimiter;
      this.askPrice, this.verifiedAskPrice, pricingRulesStrict := askPrice, verifiedAskPrice, strict;
      this.dealSize, this.dealDuration := dealSize, dealDuration;
      this.sealingSectorsLimit, this.dealStartWindow := sealingSectorsLimit, dealStartWindow;
      paused := false;
    }

    method SetPaused(p: bool)
      modifies this
      ensures paused == p
    {
      paused := p;
    }

    /** The epoch a deal is promised to start by, on 64-bit words. */
    function StartEpoch(height: uint64): nat { (dealStartWindow + height) % WORD }

    /** The auction is open and meant for this miner, who can seal and store its deal and start it in
        time. */
    predicate Interested(a: Auction, w: World) {
      && a.endsAt.Some? && w.now <= a.endsAt.value
      && dealSize.Holds(a.terms.dealSize) && dealDuration.Holds(a.terms.dealDuration)
      && (sealingSectorsLimit > 0 && w.sealing.Some? ==> w.sealing.value <= sealingSectorsLimit)
      && w.healthy && w.height.Some?
      && (a.epochDeadline > 0 ==> StartEpoch(w.height.value) <= a.epochDeadline)
    }

    method FilterAuction(a: Auction, now: int) returns (rejected: bool)
      ensures rejected <==> !(&& a.endsAt.Some? && now <= a.endsAt.value
                              && dealSize.Holds(a.terms.dealSize) && dealDuration.Holds(a.terms.dealDuration))
    {
      if a.endsAt.None? || a.endsAt.value < now {
        return true;
      }
      if a.terms.dealSize < dealSize.min || a.terms.dealSize > dealSize.max {
        return true;
      }
      if a.terms.dealDuration < dealDuration.min || a.terms.dealDuration > dealDuration.max {
        return true;
      }
      return false;
    }

    /** Whether to go on to the prices, and the start epoch to promise. */
    method Consider(a: Auction, w: World) returns (interested: bool, startEpoch: nat)
      ensures interested == Interested(a, w)
      ensures interested
              <==> && a.endsAt.Some? && w.now <= a.endsAt.value
                   && dealSize.min <= a.terms.dealSize && a.terms.dealSize <= dealSize.max
                   && dealDuration.min <= a.terms.dealDuration && a.terms.dealDuration <= dealDuration.max
                   && (sealingSectorsLimit <= 0 || w.sealing.None? || w.sealing.value <= sealingSectorsLimit)
                   && w.healthy && w.height.Some?
                   && (a.epochDeadline == 0 || (dealStartWindow + w.height.value) % WORD <= a.epochDeadline)
      ensures interested ==> startEpoch == StartEpoch(w.height.value)
    {
      startEpoch := 0;
      var rejected := FilterAuction(a, w.now);
      if rejected {
        return false, 0;
      }
      if sealingSectorsLimit > 0 {
        if w.sealing.Some? && w.sealing.value > sealingSectorsLimit {
          return false, 0;
        }
      }
      if !w.healthy {
        return false, 0;
      }
      if w.height.None? {
        return false, 0;
      }
      startEpoch := (dealStartWindow + w.height.value) % WORD;
      interested := !(a.epochDeadline > 0 && a.epochDeadline < startEpoch);
    }

    /** The bid that is made: the auction's terms with the id it is published under and the prices. */
    function BidMade(a: Auction, w: World, q: Pricing.Quote): Bid
      requires q.Quote? && w.id.Some? && w.height.Some?
    {
      a.terms.(id := w.id.value, askPrice := q.askPrice, verifiedAskPrice := q.verifiedAskPrice,
               startEpoch := StartEpoch(w.height.value))
    }

    /** What to ask for, from the rules or from the configuration. */
    method Ask(a: Auction, rules: RulesCache.ClientRules, k: RulesCache.Call, period: nat) returns (q: Pricing.Quote)
      modifies rules
      ensures var d := Pricing.Deal(a.terms.dealSize, a.terms.dealDuration);
              var usable := RulesCache.IsValid(old(rules.State()), k, period) && rules.State().rules.Some?;
              if usable then Pricing.Publishes(q, rules.State().rules.value, d, askPrice, verifiedAskPrice)
              else q == if pricingRulesStrict then Pricing.NoBid else Pricing.Quote(askPrice, verifiedAskPrice)
    {
      var prices, valid := rules.PricesFor(k, period, Pricing.Deal(a.terms.dealSize, a.terms.dealDuration));
      q := Pricing.QuotePrices(prices, valid, pricingRulesStrict, askPrice, verifiedAskPrice);
    }

    lemma BidMadeMeans(a: Auction, w: World, q: Pricing.Quote)
      requires q.Quote? && w.id.Some? && w.height.Some?
      ensures var b := BidMade(a, w, q);
              && b.id == w.id.value && b.startEpoch == (dealStartWindow + w.height.value) % WORD
              && b.askPrice == q.askPrice && b.verifiedAskPrice == q.verifiedAskPrice
              && b.auctionId == a.terms.auctionId && b.payloadCid == a.terms.payloadCid
              && b.dealSize == a.terms.dealSize && b.dealDuration == a.terms.dealDuration
    {
    }

    /** Bid in an auction: see whether it is of interest, resolve the prices, publish the bid and save it
        under the id it is given. */
    method MakeBid(a: Auction, w: World, rules: RulesCache.ClientRules, k: RulesCache.Call, period: nat)
      returns (q: Pricing.Quote)
      requires Valid()
      modifies rules, store`bids, store`queued, store`fetching
      ensures (w.id.Some? ==> w.id.value !in old(store.bids)) ==> Valid()
      ensures paused || !Interested(a, w) ==> q.NoBid? && rules.State() == old(rules.State())
      ensures var d := Pricing.Deal(a.terms.dealSize, a.terms.dealDuration);
              var usable := RulesCache.IsValid(old(rules.State()), k, period) && rules.State().rules.Some?;
              !paused && Interested(a, w) ==>
                if usable then Pricing.Publishes(q, rules.State().rules.value, d, askPrice, verifiedAskPrice)
                else q == if pricingRulesStrict then Pricing.NoBid else Pricing.Quote(askPrice, verifiedAskPrice)
      ensures store.State() == if q.Quote? && w.id.Some?
                               then Scheduler.Save(old(store.State()), BidMade(a, w, q), w.now)
                               else old(store.State())
    {
      if paused {
        return Pricing.NoBid;
      }
      var interested, startEpoch := Consider(a, w);
      if !interested {
        return Pricing.NoBid;
      }
      q := Ask(a, rules, k, period);
      if q.NoBid? || w.id.None? {
        return;
      }
      var bid := a.terms.(id := w.id.value, askPrice := q.askPrice, verifiedAskPrice := q.verifiedAskPrice,
                          startEpoch := startEpoch);
      var _ := store.SaveBid(bid, w.now);
    }

    /** Quota is requested first, and given back by expiry alone if anything after that fails. */
    method WinsHandler(id: string, auctionId: string, src: Sources, now: int, at: int) returns (o: Outcome)
      requires Valid() && now <= at && bytesLimiter.log.clock <= at
      modifies store`bids, store`queued, store`fetching, bytesLimiter
      ensures Valid()
      ensures var s, l := old(store.State()), TokenLedger.At(old(bytesLimiter.log), at);
              && o == WinOutcome(s, l, id, src, now)
              && store.State() == WinStore(s, l, id, src, now)
              && bytesLimiter.log == WinLedger(s, l, id, auctionId, now)
    {
      bytesLimiter.Advance(at);
      if id !in store.bids {
        return Refused;
      }
      var granted := bytesLimiter.Request(auctionId, store.bids[id].dealSize, BIDS_EXPIRATION, now, at);
      if !granted {
        return WouldExceedRunningBytesLimit;
      }
      if src.Unreadable? {
        return Refused;
      }
      var r := store.SetAwaitingProposalCid(id, src.valid, src.sources, at);
      return if r.Done? then Ok else Refused;
    }

    /** The quota is secured once the store has taken the proposal. */
    method ProposalsHandler(id: string, auctionId: string, p: Proposal, at: int) returns (o: Outcome)
      requires Valid() && bytesLimiter.log.clock <= at
      modifies store`bids, store`queued, store`fetching, store`jobCh, bytesLimiter
      ensures Valid()
      ensures var s, l := old(store.State()), TokenLedger.At(old(bytesLimiter.log), at);
              && o == ProposalOutcome(s, id, p)
              && store.State() == ProposalStore(s, id, p, at)
              && bytesLimiter.log == ProposalLedger(s, l, id, auctionId, p)
    {
      bytesLimiter.Advance(at);
      var r: Reply;
      match p {
        case Boost(uid) => r := store.SetDealUID(id, uid, at);
        case Legacy(cid) => r := store.SetProposalCid(id, cid, at);
      }
      if !r.Done? {
        return Refused;
      }
      bytesLimiter.Secure(auctionId);
      return Ok;
    }
  }
}
