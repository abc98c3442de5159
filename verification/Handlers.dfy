/** What the message handlers do to the scheduler and the limiter together. */
module Handlers {
  import opened Bids
  import opened Words
  import Scheduler
  import opened TokenLedger

  /** How long quota is reserved for a won auction before it expires, in seconds. */
  const BIDS_EXPIRATION: int := 600

  datatype Outcome = Ok | Refused | WouldExceedRunningBytesLimit

  /** What the encrypted part of a win message turned out to hold. */
  datatype Sources = Unreadable | Readable(valid: bool, sources: string)

  /** A proposal is Boost's when its deal uid parses as a uuid; otherwise it is a legacy one, whose
      proposal cid is empty if it does not decode. */
  datatype Proposal = Boost(uid: string) | Legacy(cid: string)

  ghost function WinOutcome(s: Scheduler.Sched, l: Ledger, id: string, src: Sources, now: int): Outcome {
    if id !in s.bids then Refused
    else if !Grants(l, s.bids[id].dealSize, now) then WouldExceedRunningBytesLimit
    else if src.Readable? && Scheduler.WinReply(s, id, src.valid).Done? then Ok
    else Refused
  }

  /** Quota is requested before anything else is looked at. */
  ghost function WinLedger(s: Scheduler.Sched, l: Ledger, id: string, auctionId: string, now: int): Ledger {
    if id in s.bids then Request(l, auctionId, s.bids[id].dealSize, BIDS_EXPIRATION, now) else l
  }

  ghost function WinStore(s: Scheduler.Sched, l: Ledger, id: string, src: Sources, now: int): Scheduler.Sched {
    if id in s.bids && Grants(l, s.bids[id].dealSize, now) && src.Readable? then
      Scheduler.Win(s, id, src.valid, src.sources, l.clock)
    else s
  }

  function ProposalOutcome(s: Scheduler.Sched, id: string, p: Proposal): Outcome {
    var reply := match p
                 case Boost(uid) => Scheduler.ProposalReply(s, id, uid)
                 case Legacy(cid) => Scheduler.ProposalReply(s, id, cid);
    if reply.Done? then Ok else Refused
  }

  /** Quota is secured once the store has taken the proposal, again on every redelivery. */
  function ProposalLedger(s: Scheduler.Sched, l: Ledger, id: string, auctionId: string, p: Proposal): Ledger {
    if ProposalOutcome(s, id, p).Ok? then Secure(l, auctionId) else l
  }

  function ProposalStore(s: Scheduler.Sched, id: string, p: Proposal, now: int): Scheduler.Sched {
    match p
    case Boost(uid) => Scheduler.ProposeBoost(s, id, uid, now)
    case Legacy(cid) => Scheduler.Propose(s, id, cid, now)
  }

  /** A finished attempt's bytes are committed exactly when its bid is saved as finalized, given back
      exactly when it is saved as errored, and reserved on otherwise. */
  lemma AttemptSettlesQuota(s: Scheduler.Sched, w: nat, a: Attempt, now: int, l: Ledger)
    requires w in s.held
    ensures var b := s.held[w];
            var r := Scheduler.Finish(s, w, a, now);
            && b.id in r.bids
            && Settle(l, b.auctionId, FetchOne(b, s.attemptLimit, a).1)
               == match r.bids[b.id].status
                  case Finalized => Commit(l, b.auctionId)
                  case Errored => Withdraw(l, b.auctionId)
                  case _ => l
  {
  }

  /** What handling a win means. Quota is taken, for ten minutes, whenever the bid is known and fits; if
      anything after that fails, nothing takes it back but its timer. */
  lemma WinHandlingMeans(s: Scheduler.Sched, l: Ledger, id: string, auctionId: string, src: Sources, now: int)
    requires Scheduler.Sound(s)
    ensures var o := WinOutcome(s, l, id, src, now);
            var s' := WinStore(s, l, id, src, now);
            var l' := WinLedger(s, l, id, auctionId, now);
            var granted := id in s.bids && (InUse(Expire(l, now)) + s.bids[id].dealSize) % WORD <= l.limit;
            var first := id in s.bids && s.bids[id].status == Submitted;
            && (o == Ok <==> && granted && src.Readable? && src.valid
                             && (first || s.bids[id].status == AwaitingProposal))
            && (o == WouldExceedRunningBytesLimit <==> id in s.bids && !granted)
            && (if granted && src.Readable? && src.valid && first
                then && id in s'.bids && s'.bids[id].status == AwaitingProposal
                     && s'.bids[id].sources == src.sources
                else s' == s)
            && (if granted
                then && auctionId in l'.grants && l'.grants[auctionId].n == s.bids[id].dealSize
                     && l'.grants[auctionId].timer in l'.alarms
                     && l'.alarms[l'.grants[auctionId].timer] == Alarm(auctionId, l.clock + 600)
                else l'.grants == l.grants && l'.alarms == l.alarms)
  {
  }

  /** What handling a proposal means: it is taken exactly when the bid awaits it or had it before, a Boost
      proposal finalizes the bid and another one sets it to be fetched, and the quota is there to stay. */
  lemma ProposalHandlingMeans(s: Scheduler.Sched, l: Ledger, id: string, auctionId: string, p: Proposal, now: int)
    requires Scheduler.Sound(s)
    ensures var taken := && (if p.Boost? then p.uid != "" else p.cid != "")
                         && id in s.bids && s.bids[id].status != Unspecified && s.bids[id].status != Submitted;
            var s' := ProposalStore(s, id, p, now);
            var l' := ProposalLedger(s, l, id, auctionId, p);
            && (ProposalOutcome(s, id, p) == Ok <==> taken)
            && (ProposalOutcome(s, id, p) == Refused <==> !taken)
            && (if taken && s.bids[id].status == AwaitingProposal
                then && id in s'.bids
                     && (if p.Boost? then s'.bids[id].status == Finalized && s'.bids[id].dealUid == p.uid
                         else s'.bids[id].Live() && s'.bids[id].proposalCid == p.cid)
                else s' == s)
            && l'.grants == l.grants
            && (forall h :: h in l'.alarms <==>
                  h in l.alarms && !(taken && auctionId in l.grants && h == l.grants[auctionId].timer))
            && (forall h :: h in l'.alarms ==> l'.alarms[h] == l.alarms[h])
  {
  }

  /** A finished attempt commits or withdraws the quota of its bid's auction. */
  function Settle(l: Ledger, auctionId: string, q: Quota): Ledger {
    match q
    case Keep => l
    case CommitBytes => Commit(l, auctionId)
    case WithdrawBytes => Withdraw(l, auctionId)
  }
}
