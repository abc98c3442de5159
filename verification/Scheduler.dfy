/** The fetch scheduler as a transition system. There are no indexes here: which bids are queued
    or being fetched is read off the stored statuses. Every step is atomic. */
module Scheduler {
  import opened Ordering
  import opened Bids

  /** workers is the number of fetch workers and also the capacity of both channels; held maps a
      busy worker to its job; timer says that the start timer has not gone off yet. */
  datatype Sched = Sched(
    workers: nat, attemptLimit: nat, bids: map<string, Bid>,
    jobs: seq<Bid>, held: map<nat, Bid>, ticks: nat, timer: bool)

  function QueuedIds(bids: map<string, Bid>): set<string> {
    set id | id in bids && bids[id].status.QueuedData?
  }

  function FetchingIds(bids: map<string, Bid>): set<string> {
    set id | id in bids && bids[id].status.FetchingData?
  }

  function JobIds(jobs: seq<Bid>): set<string> { set b | b in jobs :: b.id }

  function HeldIds(held: map<nat, Bid>): set<string> { set w | w in held :: held[w].id }

  function Put(s: Sched, b: Bid, now: int): Sched {
    s.(bids := s.bids[b.id := b.(updatedAt := now)])
  }

  // ---- steps ----

  function Start(workers: nat, attemptLimit: nat): Sched {
    Sched(workers, attemptLimit, map[], [], map[], 0, true)
  }

  function Save(s: Sched, b: Bid, now: int): Sched {
    if b.Acceptable() then Put(s, b.(createdAt := now, status := Submitted), now) else s
  }

  function WinReply(s: Sched, id: string, valid: bool): Reply {
    if !valid then Invalid
    else if id !in s.bids then NotFound
    else if s.bids[id].status.AwaitingProposal? || s.bids[id].status.Submitted? then Done
    else Unexpected
  }

  function Win(s: Sched, id: string, valid: bool, sources: string, now: int): Sched {
    if WinReply(s, id, valid).Done? && s.bids[id].status.Submitted? then
      Put(s, s.bids[id].(sources := sources, status := AwaitingProposal), now)
    else s
  }

  /** The reply to a proposal cid or a deal uid; an empty one is invalid. */
  function ProposalReply(s: Sched, id: string, proposal: string): Reply {
    if proposal == "" then Invalid
    else if id !in s.bids then NotFound
    else if s.bids[id].status.Rank() >= AwaitingProposal.Rank() then Done
    else Unexpected
  }

  function Propose(s: Sched, id: string, cid: string, now: int): Sched {
    if ProposalReply(s, id, cid).Done? && s.bids[id].status.AwaitingProposal? then
      Enqueue(s, s.bids[id].(proposalCid := cid), now)
    else s
  }

  function ProposeBoost(s: Sched, id: string, uid: string, now: int): Sched {
    if ProposalReply(s, id, uid).Done? && s.bids[id].status.AwaitingProposal? then
      Put(s, s.bids[id].(dealUid := uid, status := Finalized), now)
    else s
  }

  /** A job goes into the channel if there is room; otherwise the bid waits in the queue. */
  function Enqueue(s: Sched, b: Bid, now: int): Sched {
    var job := b.(status := FetchingData, updatedAt := now);
    if |s.jobs| < s.workers then Put(s, job, now).(jobs := s.jobs + [job])
    else Put(s, b.(status := QueuedData), now)
  }

  function Pick(s: Sched, w: nat): Sched
    requires s.jobs != []
  {
    s.(jobs := s.jobs[1..], held := s.held[w := s.jobs[0].(attempts := s.jobs[0].attempts + 1)])
  }

  /** The bid is saved with the attempt's outcome; the tick is dropped when the channel is full. */
  function Finish(s: Sched, w: nat, a: Attempt, now: int): Sched
    requires w in s.held
  {
    Put(s, FetchOne(s.held[w], s.attemptLimit, a).0, now)
      .(held := s.held - {w}, ticks := if s.ticks < s.workers then s.ticks + 1 else s.ticks)
  }

  ghost function Next(s: Sched, now: int): Sched {
    var queued := QueuedIds(s.bids);
    if queued == {} then s else Enqueue(s, s.bids[Least(queued)], now)
  }

  /** The channels and the workers' jobs are lost; the orphaned jobs are sent again in key order. */
  ghost function Restart(s: Sched, now: int): (r: Sched)
    ensures s.bids.Keys <= r.bids.Keys
  {
    Recover(Crash(s), Ascending(FetchingIds(s.bids)), now)
  }

  function Crash(s: Sched): Sched { s.(jobs := [], held := map[], ticks := 0, timer := true) }

  function Recover(s: Sched, ids: seq<string>, now: int): (r: Sched)
    requires forall id :: id in ids ==> id in s.bids
    ensures s.bids.Keys <= r.bids.Keys
    decreases |ids|
  {
    if ids == [] then s else Recover(Reenqueue(s, ids[0], now), ids[1..], now)
  }

  /** Keys and stored ids agree, so putting a stored bid back leaves the key set alone. */
  function Reenqueue(s: Sched, id: string, now: int): (r: Sched)
    requires id in s.bids
    ensures s.bids.Keys <= r.bids.Keys
  {
    Enqueue(s, s.bids[id], now)
  }

  datatype Event =
    | SaveEvent(bid: Bid, now: int)
    | WinEvent(id: string, valid: bool, sources: string, now: int)
    | ProposalEvent(id: string, cid: string, now: int)
    | BoostEvent(id: string, uid: string, now: int)
    | CollectEvent(ids: set<string>)
    | RestartEvent(now: int)
    | PickEvent(worker: nat)
    | FinishEvent(worker: nat, attempt: Attempt, now: int)
    | TimerEvent(now: int)
    | TickEvent(now: int)

  /** Saved bids have fresh ids; only bids awaiting a proposal are ever collected. */
  predicate Enabled(s: Sched, e: Event) {
    match e
    case SaveEvent(bid, _) => bid.id !in s.bids
    case CollectEvent(ids) => forall id :: id in ids ==> id in s.bids && s.bids[id].status.AwaitingProposal?
    case PickEvent(w) => s.jobs != [] && w < s.workers && w !in s.held
    case FinishEvent(w, _, _) => w in s.held
    case TimerEvent(_) => s.timer
    case TickEvent(_) => s.ticks > 0
    case _ => true
  }

  /** Steps the store takes on its own. */
  predicate Internal(e: Event) {
    e.PickEvent? || e.FinishEvent? || e.TimerEvent? || e.TickEvent?
  }

  ghost function Step(s: Sched, e: Event): Sched
    requires Enabled(s, e)
  {
    match e
    case SaveEvent(bid, now) => Save(s, bid, now)
    case WinEvent(id, valid, sources, now) => Win(s, id, valid, sources, now)
    case ProposalEvent(id, cid, now) => Propose(s, id, cid, now)
    case BoostEvent(id, uid, now) => ProposeBoost(s, id, uid, now)
    case CollectEvent(ids) => s.(bids := s.bids - ids)
    case RestartEvent(now) => Restart(s, now)
    case PickEvent(w) => Pick(s, w)
    case FinishEvent(w, a, now) => Finish(s, w, a, now)
    case TimerEvent(now) => Next(s.(timer := false), now)
    case TickEvent(now) => Next(s.(ticks := s.ticks - 1), now)
  }

  ghost predicate IsRun(s: Sched, es: seq<Event>)
    decreases |es|
  {
    es == [] || (Enabled(s, es[0]) && IsRun(Step(s, es[0]), es[1..]))
  }

  ghost function Run(s: Sched, es: seq<Event>): Sched
    requires IsRun(s, es)
    decreases |es|
  {
    if es == [] then s else Run(Step(s, es[0]), es[1..])
  }

  // ---- the invariant of every run ----

  /** Every stored bid sits under its own id, and has attempts left until it is settled. */
  ghost predicate Sound(s: Sched) {
    forall id :: id in s.bids ==>
      && s.bids[id].id == id
      && (!s.bids[id].Settled() ==> s.bids[id].attempts < s.attemptLimit)
  }

  ghost predicate Fits(s: Sched) {
    && |s.jobs| <= s.workers && s.ticks <= s.workers
    && forall w :: w in s.held ==> w < s.workers
  }

  /** A job in the channel is a snapshot of its stored bid; a worker's job has the current attempt
      counted as well. */
  ghost predicate Snapshots(s: Sched) {
    && (forall b :: b in s.jobs ==> b.id in s.bids && s.bids[b.id] == b)
    && (forall w :: w in s.held ==>
      && s.held[w].attempts > 0 && s.held[w].id in s.bids
      && s.bids[s.held[w].id] == s.held[w].(attempts := s.held[w].attempts - 1))
  }

  /** The ids being fetched are the duplicate-free union of the ids in the channel, the ids held by
      workers and the orphans left by a crash. */
  ghost predicate Ownership(s: Sched, orphans: set<string>) {
    && (forall i, j :: 0 <= i < j < |s.jobs| ==> s.jobs[i].id != s.jobs[j].id)
    && (forall v, w :: v in s.held && w in s.held && v != w ==> s.held[v].id != s.held[w].id)
    && JobIds(s.jobs) !! HeldIds(s.held) !! orphans
    && FetchingIds(s.bids) == JobIds(s.jobs) + HeldIds(s.held) + orphans
  }

  /** Something is pending that will look at the queue. */
  predicate Awake(s: Sched) {
    s.timer || s.ticks > 0 || s.jobs != [] || s.held != map[]
  }

  ghost predicate NoLostWakeup(s: Sched) {
    s.workers > 0 && QueuedIds(s.bids) != {} ==> Awake(s)
  }

  ghost predicate Inv(s: Sched) {
    Sound(s) && Fits(s) && Snapshots(s) && Ownership(s, {}) && NoLostWakeup(s)
  }
}
