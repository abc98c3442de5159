/** The bid store as it is built: three keyspaces updated side by side, a bounded job channel, a
    bounded tick channel and the jobs its workers hold. */
module Store {
  import opened Options
  import opened Ordering
  import opened Bids
  import opened Scheduler
  import opened SchedulerInvariant
  import Listing
  import Collection
  import TokenLedger
  import Limiter
  import Handlers

  // ---- index maintenance ----

  /** What a transition from one status to another does to the index kept for status st. */
  function Reindex(index: set<string>, id: string, from: Status, to: Status, st: Status): set<string> {
    if from == to then index
    else (if from == st then index - {id} else index) + (if to == st then {id} else {})
  }

  ghost predicate Agree(queued: set<string>, fetching: set<string>, bids: map<string, Bid>) {
    queued == QueuedIds(bids) && fetching == FetchingIds(bids)
  }

  /** Whether an index entry that is there before a transition is the one the transition expects. */
  predicate Expected(present: bool, from: Status, to: Status, st: Status) {
    if from == to then present <==> to == st else present ==> from == st || to == st
  }

  /** A transition keeps the indexes in agreement with the stored statuses exactly when the status
      it starts from accounts for the entries that are there. */
  lemma TransitionKeepsAgreementIff(queued: set<string>, fetching: set<string>, bids: map<string, Bid>,
                                    b: Bid, to: Status, now: int)
    requires Agree(queued, fetching, bids)
    ensures Agree(Reindex(queued, b.id, b.status, to, QueuedData),
                  Reindex(fetching, b.id, b.status, to, FetchingData),
                  bids[b.id := b.(status := to, updatedAt := now)])
            <==> Expected(b.id in queued, b.status, to, QueuedData)
                 && Expected(b.id in fetching, b.status, to, FetchingData)
  {
    var after := bids[b.id := b.(status := to, updatedAt := now)];
    assert b.id in QueuedIds(after) <==> to == QueuedData;
    assert b.id in FetchingIds(after) <==> to == FetchingData;
    assert forall id :: id != b.id ==> (id in QueuedIds(after) <==> id in queued);
    assert forall id :: id != b.id ==> (id in FetchingIds(after) <==> id in fetching);
  }

  /** Ids in the form of ULIDs: 26 digits and lower-case letters, the first ten the time. */
  predicate IsUlid(id: string) {
    |id| == 26 && id[0] <= '7' && forall i :: 0 <= i < 26 ==> '0' <= id[i] <= 'z'
  }

  lemma {:induction false} LessDigitwise(a: string, b: string, n: nat)
    requires |a| == |b| && n <= |a| && a[..n] != b[..n] && forall i :: 0 <= i < n ==> a[i] <= b[i]
    ensures Less(a, b)
    decreases n
  {
    if a[0] == b[0] {
      assert n > 1 && a[..n] == [a[0]] + a[1..][..n - 1] && b[..n] == [b[0]] + b[1..][..n - 1];
      LessDigitwise(a[1..], b[1..], n - 1);
    }
  }

  lemma {:induction false} NotLessDigitwise(a: string, b: string)
    requires |a| == |b| && forall i :: 0 <= i < |a| ==> b[i] <= a[i]
    ensures !Less(a, b)
  {
    if a != [] {
      NotLessDigitwise(a[1..], b[1..]);
    }
  }

  lemma AboveLastTimeIff(id: string, m: string)
    requires IsUlid(id) && |m| == 26 && m[0] == '7'
    requires (forall i :: 1 <= i < 10 ==> m[i] == 'z') && forall i :: 10 <= i < 26 ==> m[i] == '0'
    ensures Less(id, m) <==> id[..10] != m[..10]
  {
    if id[..10] != m[..10] {
      LessDigitwise(id, m, 10);
    } else {
      forall i | 0 <= i < 26 ensures m[i] <= id[i] {
        if i < 10 { assert id[i] == id[..10][i] == m[..10][i]; }
      }
      NotLessDigitwise(id, m);
    }
  }

  lemma MaxUlidDigits()
    ensures |MAX_ULID| == 26 && MAX_ULID[0] == '7' && MAX_ULID[..10] == "7zzzzzzzzz"
    ensures (forall i :: 1 <= i < 10 ==> MAX_ULID[i] == 'z') && forall i :: 10 <= i < 26 ==> MAX_ULID[i] == '0'
  {
  }

  /** A descending list starts above every id whose time is not the last one, and only above those. */
  lemma MaxUlidIsAboveIff(id: string)
    requires IsUlid(id)
    ensures Less(id, MAX_ULID) <==> id[..10] != "7zzzzzzzzz"
  {
    MaxUlidDigits();
    AboveLastTimeIff(id, MAX_ULID);
  }

  /** A finished job's transition starts from where its bid is indexed. */
  lemma FinishKeepsAgreement(queued: set<string>, fetching: set<string>, s: Sched, w: nat, a: Attempt,
                             b: Bid, to: Status, now: int)
    requires Inv(s) && w in s.held && Agree(queued, fetching, s.bids)
    requires b.status == s.held[w].status && b.id == s.held[w].id
    requires b.(status := to) == FetchOne(s.held[w], s.attemptLimit, a).0
    ensures Inv(Finish(s, w, a, now))
    ensures Finish(s, w, a, now).bids == s.bids[b.id := b.(status := to, updatedAt := now)]
    ensures Agree(Reindex(queued, b.id, b.status, to, QueuedData),
                  Reindex(fetching, b.id, b.status, to, FetchingData), Finish(s, w, a, now).bids)
  {
    FinishKeeps(s, w, a, now);
    HeldIsStored(s, w);
    TransitionKeepsAgreementIff(queued, fetching, s.bids, b, to, now);
  }

  /** The ULID of the last valid timestamp with no entropy, in lower case: where a descending list
      of bids starts. */
  const MAX_ULID: string := "7zzzzzzzzz0000000000000000"

  class Store {
    const workers: nat
    const attemptLimit: nat
    const dir: string
    const top: string
    const bytesLimiter: Limiter.RunningTotalLimiter

    var bids: map<string, Bid>
    var queued: set<string>
    var fetching: set<string>
    var jobCh: seq<Bid>
    var held: map<nat, Bid>
    var tickCh: nat
    var startTimer: bool
    var files: map<string, Collection.DataFile>

    ghost predicate IndexesAgree()
      reads this`bids, this`queued, this`fetching
    {
      Agree(queued, fetching, bids)
    }

    ghost function State(): Sched
      reads this`bids, this`jobCh, this`held, this`tickCh, this`startTimer
    {
      Sched(workers, attemptLimit, bids, jobCh, held, tickCh, startTimer)
    }

    ghost predicate Valid()
      reads this
    {
      IndexesAgree() && Inv(State()) && attemptLimit > 0
    }

    /** Opening the store over what an earlier process left in the datastore. */
    constructor (workers: nat, attemptLimit: nat, dir: string,
                 bytesLimiter: Limiter.RunningTotalLimiter,
                 bids: map<string, Bid>, queued: set<string>, fetching: set<string>,
                 files: map<string, Collection.DataFile>, now: int)
      requires attemptLimit > 0 && Agree(queued, fetching, bids)
      requires Sound(Start(workers, attemptLimit).(bids := bids))
      ensures Valid() && this.bytesLimiter == bytesLimiter && top == MAX_ULID
      ensures State() == Restart(Start(workers, attemptLimit).(bids := bids), now)
    {
      this.workers, this.attemptLimit, this.dir, top := workers, attemptLimit, dir, MAX_ULID;
      this.bytesLimiter := bytesLimiter;
      this.bids, this.queued, this.fetching, this.files := bids, queued, fetching, files;
      jobCh, held, tickCh, startTimer := [], map[], 0, true;
      new;
      RestartKeeps(State(), now);
      GetOrphaned(now);
    }

    /** Save the bid under a new status and move its index entries along. */
    method SaveAndTransitionStatus(b: Bid, newStatus: Status, now: int) returns (saved: Bid)
      modifies this`bids, this`queued, this`fetching
      ensures saved == b.(status := newStatus, updatedAt := now)
      ensures bids == old(bids)[b.id := saved]
      ensures queued == Reindex(old(queued), b.id, b.status, newStatus, QueuedData)
      ensures fetching == Reindex(old(fetching), b.id, b.status, newStatus, FetchingData)
    {
      saved := b;
      if b.status != newStatus {
        if b.status == QueuedData {
          queued := queued - {b.id};
        } else if b.status == FetchingData {
          fetching := fetching - {b.id};
        }
        if newStatus == QueuedData {
          queued := queued + {b.id};
        } else if newStatus == FetchingData {
          fetching := fetching + {b.id};
        }
        saved := saved.(status := newStatus);
      }
      saved := saved.(updatedAt := now);
      bids := bids[b.id := saved];
    }

    /** Saving a bid whose id is in use breaks the indexes exactly when that id is queued or being
        fetched. */
    method SaveBid(bid: Bid, now: int) returns (accepted: bool)
      requires Valid()
      modifies this`bids, this`queued, this`fetching
      ensures accepted == bid.Acceptable()
      ensures State() == Save(old(State()), bid, now)
      ensures IndexesAgree() <==> !accepted || bid.id !in old(queued) + old(fetching)
      ensures bid.id !in old(bids) ==> Valid()
    {
      if !bid.Acceptable() {
        return false;
      }
      if bid.id !in bids {
        SaveKeeps(State(), bid, now);
      }
      TransitionKeepsAgreementIff(queued, fetching, bids, bid.(createdAt := now), Submitted, now);
      var _ := SaveAndTransitionStatus(bid.(createdAt := now), Submitted, now);
      return true;
    }

    /** The bid is set to be fetched, and set back to queued when the channel is full. */
    method EnqueueDataURI(b: Bid, now: int)
      requires IndexesAgree() && b.id in bids && bids[b.id].status == b.status
      modifies this`bids, this`queued, this`fetching, this`jobCh
      ensures IndexesAgree()
      ensures State() == Enqueue(old(State()), b, now)
    {
      TransitionKeepsAgreementIff(queued, fetching, bids, b, FetchingData, now);
      var job := SaveAndTransitionStatus(b, FetchingData, now);
      if |jobCh| < workers {
        jobCh := jobCh + [job];
      } else {
        TransitionKeepsAgreementIff(queued, fetching, bids, job, QueuedData, now);
        var _ := SaveAndTransitionStatus(job, QueuedData, now);
      }
    }

    method SetAwaitingProposalCid(id: string, valid: bool, sources: string, now: int) returns (r: Reply)
      requires Valid()
      modifies this`bids, this`queued, this`fetching
      ensures Valid() && r == WinReply(old(State()), id, valid)
      ensures State() == Win(old(State()), id, valid, sources, now)
      ensures if valid && id in old(bids) && old(bids)[id].status == Submitted
              then id in bids && bids[id].status == AwaitingProposal && bids[id].sources == sources
              else bids == old(bids)
    {
      WinKeeps(State(), id, valid, sources, now);
      if !valid {
        return Invalid;
      }
      if id !in bids {
        return NotFound;
      }
      var b := bids[id];
      if b.status == AwaitingProposal {
        return Done;
      }
      if b.status != Submitted {
        return Unexpected;
      }
      assert b.id == id;
      TransitionKeepsAgreementIff(queued, fetching, bids, b.(sources := sources), AwaitingProposal, now);
      var _ := SaveAndTransitionStatus(b.(sources := sources), AwaitingProposal, now);
      return Done;
    }

    method SetProposalCid(id: string, cid: string, now: int) returns (r: Reply)
      requires Valid()
      modifies this`bids, this`queued, this`fetching, this`jobCh
      ensures Valid() && r == ProposalReply(old(State()), id, cid)
      ensures State() == Propose(old(State()), id, cid, now)
    {
      ProposeKeeps(State(), id, cid, now);
      if cid == "" {
        return Invalid;
      }
      if id !in bids {
        return NotFound;
      }
      var b := bids[id];
      if b.status.Rank() > AwaitingProposal.Rank() {
        return Done;
      }
      if b.status != AwaitingProposal {
        return Unexpected;
      }
      assert b.id == id;
      EnqueueDataURI(b.(proposalCid := cid), now);
      return Done;
    }

    method SetDealUID(id: string, uid: string, now: int) returns (r: Reply)
      requires Valid()
      modifies this`bids, this`queued, this`fetching
      ensures Valid() && r == ProposalReply(old(State()), id, uid)
      ensures State() == ProposeBoost(old(State()), id, uid, now)
    {
      ProposeBoostKeeps(State(), id, uid, now);
      if uid == "" {
        return Invalid;
      }
      if id !in bids {
        return NotFound;
      }
      var b := bids[id];
      if b.status.Rank() > AwaitingProposal.Rank() {
        return Done;
      }
      if b.status != AwaitingProposal {
        return Unexpected;
      }
      assert b.id == id;
      TransitionKeepsAgreementIff(queued, fetching, bids, b.(dealUid := uid), Finalized, now);
      var _ := SaveAndTransitionStatus(b.(dealUid := uid), Finalized, now);
      return Done;
    }

    // ---- listing and garbage collection ----

    /** The stored bids of ids, in that order. */
    ghost predicate Loaded(list: seq<Bid>, ids: seq<string>)
      reads this`bids
    {
      |list| == |ids| && forall i :: 0 <= i < |ids| ==> ids[i] in bids && list[i] == bids[ids[i]]
    }

    method LoadBids(ids: seq<string>) returns (list: seq<Bid>)
      requires forall id :: id in ids ==> id in bids
      ensures Loaded(list, ids)
    {
      list := [];
      for i := 0 to |ids|
        invariant |list| == i
        invariant forall j :: 0 <= j < i ==> ids[j] in bids && list[j] == bids[ids[j]]
      {
        list := list + [bids[ids[i]]];
      }
    }

    method ListBids(offset: string, order: Listing.Order, limit: int) returns (list: seq<Bid>)
      ensures Loaded(list, Listing.Page(Listing.View(bids.Keys, order, limit, top), offset))
    {
      var size := Listing.Clamp(limit);
      var seek := offset;
      if offset != "" {
        size := size + 1;
      }
      if order == Listing.OrderDescending && seek == "" {
        seek := top;
      }
      var ids := QueryExtended(bids.Keys, order, seek, size);
      list := LoadBids(ids);
      if offset != "" && list != [] {
        list := list[1..];
      }
    }

    /** Discard listed orphans and remove the files they or nobody needs. */
    method GC(threshold: int, now: int)
      requires Valid()
      modifies this`bids, this`files
      ensures Valid()
      ensures var listed := Collection.Newest(old(bids), top);
              && State() == Step(old(State()), CollectEvent(Collection.Discarded(old(bids), listed, threshold, now)))
              && files == Collection.AfterSweep(old(files),
                            Collection.ProtectedFiles(dir, old(bids), listed, threshold, now),
                            Collection.FinishedFiles(dir, old(bids), listed), threshold, now)
      ensures Collection.Collected(dir, old(bids), bids, old(files), files,
                                   Collection.Newest(old(bids), top), threshold, now)
    {
      ghost var listed := Collection.Newest(bids, top);
      ghost var discarded := Collection.Discarded(bids, listed, threshold, now);
      CollectKeeps(State(), discarded);
      var list := ListBids("", Listing.OrderDescending, 0);
      CollectListed(list, listed, threshold, now);
      assert State() == old(State()).(bids := old(bids) - discarded);
    }

    method CollectListed(list: seq<Bid>, ghost listed: seq<string>, threshold: int, now: int)
      requires Loaded(list, listed) && Sound(State())
      modifies this`bids, this`files
      ensures bids == old(bids) - Collection.Discarded(old(bids), listed, threshold, now)
      ensures files == Collection.AfterSweep(old(files),
                         Collection.ProtectedFiles(dir, old(bids), listed, threshold, now),
                         Collection.FinishedFiles(dir, old(bids), listed), threshold, now)
      ensures Collection.Collected(dir, old(bids), bids, old(files), files, listed, threshold, now)
    {
      var keepFiles, removeFiles := SortOut(list, listed, threshold, now);
      SweepFiles(keepFiles, removeFiles, threshold, now);
      if Collection.Named(old(bids)) {
        Collection.SweepMeans(dir, old(bids), listed, old(files), files, threshold, now);
      }
    }

    /** Discard the orphans among the listed bids and tell the files of the others apart. */
    method SortOut(list: seq<Bid>, ghost listed: seq<string>, threshold: int, now: int)
      returns (keepFiles: set<string>, removeFiles: set<string>)
      requires Loaded(list, listed) && Sound(State())
      modifies this`bids
      ensures bids == old(bids) - Collection.Discarded(old(bids), listed, threshold, now)
      ensures removeFiles == Collection.FinishedFiles(dir, old(bids), listed)
      ensures keepFiles == Collection.ProtectedFiles(dir, old(bids), listed, threshold, now)
    {
      ghost var stored := bids;
      keepFiles, removeFiles := {}, {};
      for i := 0 to |list|
        invariant bids == stored - Collection.Discarded(stored, listed[..i], threshold, now)
        invariant removeFiles == Collection.FinishedFiles(dir, stored, listed[..i])
        invariant keepFiles == Collection.ProtectedFiles(dir, stored, listed[..i], threshold, now)
      {
        var bid := list[i];
        assert bid == stored[listed[i]] && bid.id == listed[i];
        assert listed[..i + 1] == listed[..i] + [listed[i]];
        Collection.ListOneMore(dir, stored, listed[..i], listed[i], threshold, now);
        if Collection.Orphan(bid, threshold, now) {
          bids := bids - {bid.id};
        } else if bid.status.Finalized? {
          removeFiles := removeFiles + {Collection.PathOf(dir, bid)};
        } else {
          keepFiles := keepFiles + {Collection.PathOf(dir, bid)};
        }
      }
      assert listed[..|list|] == listed;
    }

    /** Walk the deal data directory; symlinks and directories are left alone. */
    method SweepFiles(keepFiles: set<string>, removeFiles: set<string>, threshold: int, now: int)
      modifies this`files
      ensures forall path :: path in files ==> path in old(files) && files[path] == old(files)[path]
      ensures forall path :: path in old(files) ==>
                (path !in files <==>
                  && old(files)[path].regular
                  && (|| path in removeFiles
                      || (path !in keepFiles && threshold > 0 && now - old(files)[path].modified > threshold)))
      ensures files == Collection.AfterSweep(old(files), keepFiles, removeFiles, threshold, now)
    {
      var paths := files.Keys;
      while paths != {}
        invariant paths <= files.Keys <= old(files).Keys
        invariant forall path :: path in files ==> files[path] == old(files)[path]
        invariant forall path :: path in old(files) ==>
          (path in files <==>
            path in paths || !Collection.Swept(keepFiles, removeFiles, threshold, now, path, old(files)[path]))
      {
        var path :| path in paths;
        var shouldRemove := false;
        if files[path].regular {
          if path in removeFiles {
            shouldRemove := true;
          } else if path !in keepFiles {
            if threshold > 0 && now - files[path].modified > threshold {
              shouldRemove := true;
            }
          }
        }
        if shouldRemove {
          files := files - {path};
        }
        paths := paths - {path};
      }
    }

    // ---- fetch workers ----

    /** A worker takes the oldest job and counts the attempt. */
    method Receive(w: nat)
      requires Valid() && Enabled(State(), PickEvent(w))
      modifies this`jobCh, this`held
      ensures Valid() && State() == Pick(old(State()), w)
    {
      PickKeeps(State(), w);
      var b := jobCh[0];
      jobCh := jobCh[1..];
      b := b.(attempts := b.attempts + 1);
      held := held[w := b];
      assert State() == Pick(old(State()), w);
    }

    /** One attempt: the quota is committed for a finalized bid, withdrawn for an errored one, and kept for
        one that is to be fetched again. */
    method FetchOneJob(b: Bid, a: Attempt, at: int) returns (r: Bid, status: Status)
      requires bytesLimiter.Valid() && bytesLimiter.log.clock <= at
      modifies bytesLimiter
      ensures status == Finalized
              <==> !(a.height.Some? && b.startEpoch < a.height.value) && a.download.None? && a.imported.None?
      ensures r.status == b.status && r.id == b.id
      ensures r.(status := status) == FetchOne(b, attemptLimit, a).0
      ensures bytesLimiter.Valid()
      ensures bytesLimiter.log
              == Handlers.Settle(TokenLedger.At(old(bytesLimiter.log), at), b.auctionId,
                                 FetchOne(b, attemptLimit, a).1)
    {
      bytesLimiter.Advance(at);
      if a.height.Some? && b.startEpoch < a.height.value {
        r, status := FailJob(b, "deal is expired", true);
        return;
      }
      if a.download.Some? {
        r, status := FailJob(b, a.download.value, false);
        return;
      }
      if a.imported.Some? {
        r, status := FailJob(b, a.imported.value, false);
        return;
      }
      bytesLimiter.Commit(b.auctionId, at);
      return b.(errorCause := ""), Finalized;
    }

    method FailJob(b: Bid, cause: string, immediate: bool) returns (r: Bid, status: Status)
      requires bytesLimiter.Valid()
      modifies bytesLimiter
      ensures r.status == b.status && r.id == b.id
      ensures r.(status := status) == Fail(b, attemptLimit, cause, immediate).0
      ensures bytesLimiter.Valid()
      ensures bytesLimiter.log
              == Handlers.Settle(old(bytesLimiter.log), b.auctionId, Fail(b, attemptLimit, cause, immediate).1)
    {
      r := b.(errorCause := cause);
      if immediate || b.attempts >= attemptLimit {
        status := Errored;
        bytesLimiter.Withdraw(b.auctionId);
      } else {
        status := QueuedData;
      }
    }

    /** A worker finishes its job, saves the outcome and sends a tick if there is room for one. */
    method Complete(w: nat, a: Attempt, now: int)
      requires Valid() && w in held
      requires bytesLimiter.Valid() && bytesLimiter.log.clock <= now
      modifies this`bids, this`queued, this`fetching, this`held, this`tickCh, bytesLimiter
      ensures Valid() && State() == Finish(old(State()), w, a, now)
      ensures bytesLimiter.Valid()
      ensures bytesLimiter.log
              == Handlers.Settle(TokenLedger.At(old(bytesLimiter.log), now), old(held)[w].auctionId,
                                 FetchOne(old(held)[w], attemptLimit, a).1)
      ensures var l := TokenLedger.At(old(bytesLimiter.log), now);
              && old(held)[w].id in bids
              && bytesLimiter.log == match bids[old(held)[w].id].status
                                     case Finalized => TokenLedger.Commit(l, old(held)[w].auctionId)
                                     case Errored => TokenLedger.Withdraw(l, old(held)[w].auctionId)
                                     case _ => l
    {
      Handlers.AttemptSettlesQuota(State(), w, a, now, TokenLedger.At(bytesLimiter.log, now));
      var b, status := FetchOneJob(held[w], a, now);
      SaveOutcome(w, a, b, status, now);
    }

    /** The part of that after the attempt, which leaves the limiter alone. */
    method SaveOutcome(w: nat, a: Attempt, b: Bid, status: Status, now: int)
      requires Valid() && w in held
      requires b.status == held[w].status && b.id == held[w].id
      requires b.(status := status) == FetchOne(held[w], attemptLimit, a).0
      modifies this`bids, this`queued, this`fetching, this`held, this`tickCh
      ensures Valid() && State() == Finish(old(State()), w, a, now)
    {
      FinishKeepsAgreement(queued, fetching, State(), w, a, b, status, now);
      var _ := SaveAndTransitionStatus(b, status, now);
      held := held - {w};
      if tickCh < workers {
        tickCh := tickCh + 1;
      }
      assert State() == Finish(old(State()), w, a, now);
    }

    // ---- the dispatcher ----

    method OnTimer(now: int)
      requires Valid() && startTimer
      modifies this`bids, this`queued, this`fetching, this`jobCh, this`startTimer
      ensures Valid() && State() == Step(old(State()), TimerEvent(now))
    {
      startTimer := false;
      GetNext(now);
    }

    method OnTick(now: int)
      requires Valid() && tickCh > 0
      modifies this`bids, this`queued, this`fetching, this`jobCh, this`tickCh
      ensures Valid() && State() == Step(old(State()), TickEvent(now))
    {
      tickCh := tickCh - 1;
      GetNext(now);
    }

    method GetNext(now: int)
      requires IndexesAgree() && attemptLimit > 0
      requires Sound(State()) && Fits(State()) && Snapshots(State()) && Ownership(State(), {})
      modifies this`bids, this`queued, this`fetching, this`jobCh
      ensures Valid() && State() == Next(old(State()), now)
    {
      NextKeeps(State(), now);
      var b := GetQueued();
      if b.None? {
        return;
      }
      EnqueueDataURI(b.value, now);
    }

    /** The queued bid with the least id. */
    method GetQueued() returns (b: Option<Bid>)
      requires IndexesAgree()
      ensures b == if queued == {} then None else Some(bids[Least(queued)])
    {
      if queued == {} {
        return None;
      }
      var id := FirstKey(queued);
      return Some(bids[id]);
    }

    /** Send the jobs of bids that were being fetched again, in key order. */
    method GetOrphaned(now: int)
      requires IndexesAgree() && Sound(State())
      requires jobCh == [] && held == map[]
      modifies this`bids, this`queued, this`fetching, this`jobCh
      ensures IndexesAgree()
      ensures State() == Recover(old(State()), Ascending(old(fetching)), now)
    {
      var list := GetFetching();
      ghost var ids := Ascending(fetching);
      ghost var goal := Recover(State(), ids, now);
      AscendingIsDistinct(fetching);
      var i := 0;
      while i < |list|
        invariant i <= |list| == |ids|
        invariant IndexesAgree()
        invariant Pending(bids, ids, list, i)
        invariant Recover(State(), ids[i..], now) == goal
      {
        RecoverStep(State(), ids, i, now);
        StillPending(State(), ids, list, i, now);
        EnqueueDataURI(list[i], now);
        i := i + 1;
      }
    }

    /** The bids of the fetching index, in key order. */
    method GetFetching() returns (list: seq<Bid>)
      requires IndexesAgree()
      ensures Loaded(list, Ascending(fetching))
    {
      var ids := KeysInOrder(fetching);
      forall id | id in ids ensures id in bids {
        assert id in FetchingIds(bids);
      }
      list := LoadBids(ids);
    }
  }

  /** A query over keys with an order, a seek key and a limit. */
  method QueryExtended(keys: set<string>, order: Listing.Order, seek: string, limit: nat) returns (r: seq<string>)
    ensures r == Listing.QueryKeys(keys, order, seek, limit)
    ensures forall x :: x in r ==> x in keys
  {
    r := KeysInOrder(Listing.Seekable(keys, order, seek));
    if order == Listing.OrderDescending {
      r := Listing.Reverse(r);
    }
    assert r == Listing.InOrder(Listing.Seekable(keys, order, seek), order);
    var all := r;
    Listing.InOrderHolds(Listing.Seekable(keys, order, seek), order);
    Listing.QueryTakes(keys, order, seek, limit);
    if limit > 0 {
      r := Listing.Take(r, limit);
    }
    assert forall x :: x in r ==> x in all;
  }

  /** A key-ordered query that stops at its first result. */
  method FirstKey(index: set<string>) returns (id: string)
    requires index != {}
    ensures id == Least(index)
  {
    assert IsLeast(Least(index), index);
    id :| id in index && forall x :: x in index && x != id ==> Less(id, x);
    LeastIsUnique(id, index);
  }

  lemma TakeLeast(ids: seq<string>, rest: set<string>)
    requires rest != {}
    ensures ids + Ascending(rest) == ids + [Least(rest)] + Ascending(rest - {Least(rest)})
  {
    var tail := Ascending(rest - {Least(rest)});
    assert Ascending(rest) == [Least(rest)] + tail;
    assert ids + ([Least(rest)] + tail) == ids + [Least(rest)] + tail;
  }

  /** A key-ordered query. */
  method KeysInOrder(index: set<string>) returns (ids: seq<string>)
    ensures ids == Ascending(index)
  {
    ids := [];
    var rest := index;
    while rest != {}
      invariant ids + Ascending(rest) == Ascending(index)
    {
      var id := FirstKey(rest);
      TakeLeast(ids, rest);
      ids := ids + [id];
      rest := rest - {id};
    }
  }

  /** The bids read from the index before recovery are still the stored ones from position i on. */
  ghost predicate Pending(bids: map<string, Bid>, ids: seq<string>, list: seq<Bid>, i: nat) {
    && |list| == |ids|
    && forall j :: i <= j < |ids| ==> ids[j] in bids && bids[ids[j]] == list[j] && list[j].id == ids[j]
  }

  lemma StillPending(s: Sched, ids: seq<string>, list: seq<Bid>, i: nat, now: int)
    requires i < |ids| && Pending(s.bids, ids, list, i)
    requires forall j, k :: 0 <= j < k < |ids| ==> ids[j] != ids[k]
    ensures Pending(Enqueue(s, list[i], now).bids, ids, list, i + 1)
  {
  }

  lemma RecoverStep(s: Sched, ids: seq<string>, i: nat, now: int)
    requires i < |ids| && forall j :: i <= j < |ids| ==> ids[j] in s.bids
    ensures Recover(s, ids[i..], now) == Recover(Enqueue(s, s.bids[ids[i]], now), ids[i + 1..], now)
  {
    assert ids[i..][0] == ids[i] && ids[i..][1..] == ids[i + 1..];
  }
}
