# bidbot: bid store, limiter, pricing and datastore wrapper

bidbot is a storage miner's agent: it bids in deal auctions, and for auctions it wins it downloads the
deal data and imports it. This project models the parts of it that keep state over time, and proves
what they promise over whole runs.

| module | what it models |
|---|---|
| `Words`, `Options`, `Ordering`, `Sums` | 64-bit words; optional values; byte-wise key order; weighted sums over maps |
| `TokenLedger` | the running-total limiter, recomputed from the log of everything that happened |
| `Limiter` | the limiter as a class: cached total, grants with timers, lazily trimmed commit list |
| `Bids`, `Scheduler` | bids, one fetch attempt, and the fetch scheduler as a transition system without indexes |
| `SchedulerInvariant`, `SchedulerTheorems` | what every step keeps, and what holds over runs |
| `Transitions` | what each step does to its bid, field by field, and what stays with the bid |
| `SchedulerWitnesses` | runs from a fresh store that do not go as one would expect |
| `Listing`, `Collection` | listing pages; garbage collection |
| `Store` | the bid store as a class: three keyspaces, two bounded channels, workers' jobs, data files |
| `Handlers`, `ByteBound`, `Service` | the message handlers, the end-to-end byte bound, and the service class |
| `CarriedOver`, `BoostTokens` | what a restart carries over the byte bound; what Boost deals keep reserved |
| `ByteBoundWitness` | runs of the whole node that exceed the byte limit, or block it |
| `Keys`, `KeyOrder`, `Queries` | clean keys, what cleaning does to comparisons, and query semantics |
| `QuerySplit`, `Namespace` | the query split and the namespaced datastore |
| `QueryWitnesses` | queries that are not answered as they should be |
| `Pricing`, `RulesCache` | pricing-rule resolution; the cached, rate-limited rules of one client |
| `CarHeader` | reading a CAR stream's header and handing the stream on |

The classes are written as the source is: fields updated in place, loops with early exits. Each method
is tied to a function of the old state; the theorems are about those functions. `Scheduler` has no
indexes at all: the queued and fetching ids are read off the stored statuses. That `Store`, which adds
and deletes index entries one at a time, implements it is the statement that the indexes always agree
with the statuses. Likewise `TokenLedger` evicts nothing and caches nothing, and `Limiter` implements it
on 64-bit words, wrap-around included.

## Assumptions

- A datastore transaction and the channel send inside it are one atomic step, and so is each message
  handler; datastore operations do not fail.
- A job is a snapshot of its bid. `getOrphaned` sends the address of its loop variable
  (service/store/store.go:876-878, compiled for Go 1.17): `SharingKeepsOwnershipIff` says exactly when
  that makes a difference.
- A quota timer has gone off before `Secure` or is stopped by it. The clock is monotone; a request may
  use a reading taken before it got the lock.
- The attempt limit is positive, as `BidParams.Validate` demands (service/service.go:101-103), and the same
  in every process that opens the store.
- Saved bids have fresh ids in runs of the scheduler. `SaveBid` itself is specified for every id.
- In `ByteBound`: an empty store at first, one bid per auction, messages that name the bid's own auction,
  legacy proposals that arrive before the quota expires or for a bid from before a restart, deal sizes that
  cannot wrap the 64-bit total (these are `ByteBound.Expected`), and one clock reading for the commit and the
  save of a finished attempt. Wins may be redelivered, and the process may be restarted.
- Loads of pricing rules do not overlap: a load that outlives its call is over before the next call.
- Function orders in queries are strict weak orders; deciding a query's meaning is filter, then sort with
  a key tie-break, then offset, then limit, then dropping the values when only keys are asked for, with a
  seek starting at the nearest key.

## Where the code does not meet the property one expects

For each there is a lemma that says exactly when it does, and an input or a run on which it does not.

- A request whose 64-bit sum wraps is always granted (`RequestIsSoundIffNoWrap`,
  `WrappingRequestBreaksTheBound`, `WrappingRequestIsReachable`).
- `Secure` does not protect a grant while an older timer is armed for the same id
  (`SecuredGrantIsDurableIff`, `SecondRequestUndoesSecure`).
- A grant that a second request to its id overwrites counts against the limit for ever
  (`NothingIsOverwrittenIff`, `OverwrittenTokensNeverReturn`, `SecondRequestUndoesSecure`).
- A Boost deal's quota stays in use as long as the process lives, although the deal is done
  (`BoostKeepsTokensIff`, `BoostTokensStayInUse`, `BoostDealBlocksForGood`).
- Saving a bid under an id that is queued or being fetched breaks the indexes (`SaveBid`,
  `SavingAgainBreaksTheIndexes`).
- The attempt limit bounds the attempts that finish, not those that start: a crash forgets the attempt
  underway (`StartedAttemptsAreBounded`, `CrashesMakeAttemptsUnbounded`, `AttemptBoundIsTight`).
- With two or more orphans the shared loop variable breaks job ownership (`SharingKeepsOwnershipIff`,
  `SharingLosesAJob`).
- Without workers a queued bid is stuck once the start timer has gone off (`LiveBidsKeepMovingIff`,
  `WithoutWorkersABidIsStuck`).
- Garbage collection only knows the ten newest bids, so an outdated file of an older bid is removed even
  while that bid still needs it (`UnfinishedFileSurvivesIff`, `ListedIffAmongNewest`,
  `CollectionTakesTheFileOfARunningBid`).
- A proposal that arrives after the quota expired is fetched without being counted
  (`ProposedBidIsCoveredIff`, `LateProposalBreaksTheBound`).
- A restart forgets the quota of the deals that go on running (`RestartCarriesOpenBytes`,
  `RestartBreaksTheBound`).
- Prefix filters, key comparisons and seeks whose key is not clean may be delegated as something else
  (`PrefixIsFaithfulIff`, `CompareIsFaithfulIff`, `TrailingSlashIsMisread`, `SeekWithSlashFindsMore`).
- A query for keys only loses the values that its naive part looks at (`SplitIsFaithfulIff`,
  `KeysOnlyFindsLess`).
- An extended query outside a transaction is not confined to the namespace (`PassThroughIsFaithfulIff`).
- A rules body that cannot be read, followed by a 304, makes older rules pass for current ones
  (`RunIsConsistentIff`, `GarbledBodyHidesANewVersion`).
- The first match does not win for unverified deals when its rule is for "any" deal and no rule for
  verified ones comes before it; the next one meant for them does (`FirstMeantIsUsedIff`,
  `SecondMeantIsUsedIff`, `FirstMatchWinsIff`, `OneRuleForAnyDealLeavesUnverifiedUnpriced`).
- A CAR header of 128 bytes or more panics instead of being accepted or rejected
  (`ValidStreamIsAcceptedIffShort`).

## Model

| member | source | states |
|---|---|---|
| TokenLedger.EveryWindowIsBounded | service/limiter/running_total_limiter.go:18-26 | over every run and for every instant t, tokens ever committed in the period ending at t stay within the limit |
| TokenLedger.RunKeepsSafe | service/limiter/running_total_limiter.go:58-112 | every run keeps outstanding, overwritten and recently committed tokens, and every window, within the limit |
| TokenLedger.RequestAddsTokens | service/limiter/running_total_limiter.go:72-80 | a granted request adds exactly n to the tokens in use, a refused one nothing, even when it overwrites a grant |
| TokenLedger.CommitConserves | service/limiter/running_total_limiter.go:95-102 | a commit moves tokens between books without changing their number |
| TokenLedger.WithdrawReleases | service/limiter/running_total_limiter.go:105-112 | a withdrawal gives back exactly the grant |
| TokenLedger.RequestIsSoundIffNoWrap | service/limiter/running_total_limiter.go:72-75 | a request keeps the limit exactly when its 64-bit sum does not wrap, and is granted exactly when it fits or wraps |
| TokenLedger.WrappingRequestBreaksTheBound | service/limiter/running_total_limiter.go:72-75 | a wrapping request and its commit put more than the limit into the current window |
| TokenLedger.WrappingRequestIsReachable | service/limiter/running_total_limiter.go:72-75 | every limiter with a positive limit reaches a state where a request wraps |
| TokenLedger.RequestKeepsTimersOwnedIff | service/limiter/running_total_limiter.go:76-79 | timers only ever withdraw the grant they were armed for, exactly while no id is requested with a timer armed for it |
| TokenLedger.SecuredGrantIsDurableIff | service/limiter/running_total_limiter.go:83-91 | a secured grant outlives every continuation that does not touch it exactly when no older timer is armed for its id |
| TokenLedger.SecureIsFinal | service/limiter/running_total_limiter.go:83-91 | with owned timers, secured tokens never expire |
| TokenLedger.SecondRequestUndoesSecure | service/limiter/running_total_limiter.go:76-91 | an id requested twice from an empty limiter and then secured loses its grant to the first timer |
| TokenLedger.NothingIsOverwrittenIff | service/limiter/running_total_limiter.go:72-80 | over every run nothing is overwritten exactly when no request is granted for an id whose grant is outstanding |
| TokenLedger.OverwrittenTokensNeverReturn | service/limiter/running_total_limiter.go:18-26 | over every run, overwritten tokens stay in use and every granted request fits beside them |
| TokenLedger.FreshRunLosesNothing | service/limiter/running_total_limiter.go:76-79 | with fresh ids nothing is overwritten and timers stay owned over whole runs |
| TokenLedger.FreshRequestRecomputes | service/limiter/running_total_limiter.go:58-81 | after a run with fresh ids a request is granted exactly when outstanding grants, commits within the period and n fit the limit |
| Limiter.RunningTotalLimiter.constructor | service/limiter/running_total_limiter.go:52-54 | a new limiter implements the empty ledger |
| Limiter.RunningTotalLimiter.Evict | service/limiter/running_total_limiter.go:62-71 | eviction keeps the total exact and stops at the first live commit |
| Limiter.EvictionIsExact | service/limiter/running_total_limiter.go:62-71 | stopping at the first live commit has evicted all and only the expired ones |
| Limiter.RunningTotalLimiter.Request | service/limiter/running_total_limiter.go:58-81 | the decision and the new state are those of recomputing from the full log, wrap-around and stale clock readings included |
| Limiter.RunningTotalLimiter.Secure | service/limiter/running_total_limiter.go:85-91 | the grant's own timer is disarmed and nothing else changes |
| Limiter.RunningTotalLimiter.Commit | service/limiter/running_total_limiter.go:95-102 | the grant becomes the latest entry of the log; unknown ids change nothing |
| Limiter.RunningTotalLimiter.Withdraw | service/limiter/running_total_limiter.go:105-112 | the grant and its tokens are gone; unknown ids change nothing |
| Limiter.RunningTotalLimiter.Fire | service/limiter/running_total_limiter.go:76-79 | an expiring timer withdraws whatever its id holds then |
| Limiter.RunningTotalLimiter.TotalIsExact | service/limiter/running_total_limiter.go:30-37 | the cached total is outstanding plus kept commits plus overwritten grants, within the limit, and no subtraction underflows |
| SchedulerInvariant.StepKeepsInv | service/store/store.go:607-721 | every step, restart and collection included, keeps soundness, snapshots, ownership and wake-ups |
| SchedulerInvariant.RestartKeeps | service/store/store.go:861-915 | recovery re-establishes ownership from the stored bids alone |
| SchedulerTheorems.EveryFetchHasOneOwner | service/store/store.go:607-649 | in every reachable state the fetching ids are the duplicate-free union of the channel's and the workers' jobs, live bids have attempts left, and with workers queued bids have a pending wake-up |
| SchedulerTheorems.InternalStepDecreases | service/store/store.go:624-721 | every internal step decreases attempts left, then pending wake-ups, then queued jobs |
| SchedulerTheorems.LiveBidsKeepMovingIff | service/store/store.go:708-721 | while a bid is queued or being fetched an internal step is enabled exactly when there is a worker or the start timer is pending |
| SchedulerTheorems.InternalRunsAreBounded | service/store/store.go:624-721 | no run of internal steps is longer than the budget of its first state |
| SchedulerTheorems.MaximalRunsSettleEverything | service/store/store.go:624-721 | with a worker, a run that cannot go on has finalized or errored every accepted bid |
| SchedulerTheorems.EveryStateCanSettle | service/store/store.go:624-721 | with a worker, every state has such a run |
| SchedulerTheorems.LifecycleMovesForward | service/store/store.go:324-430 | over every run a bid's status only moves forward, settled bids never change, and attempts count the attempts finished |
| SchedulerTheorems.FinishedAttemptsAreBounded | service/store/store.go:694-706 | over every run of an accepted bid, at most the configured number of attempts finish |
| SchedulerTheorems.AttemptsAreAccountedFor | service/store/store.go:632-641 | attempts started are those saved, underway, or forgotten in a crash |
| SchedulerTheorems.StartedAttemptsAreBounded | service/store/store.go:632-641 | attempts started exceed the limit by at most the number of crashes |
| SchedulerWitnesses.CrashesMakeAttemptsUnbounded | service/store/store.go:632-641 | for every number there is a run from a fresh store that starts that many attempts at one bid, whatever the limit |
| SchedulerWitnesses.AttemptBoundIsTight | service/store/store.go:632-641 | for every limit and number of crashes there is a run from a fresh store that starts as many attempts as both together |
| SchedulerTheorems.RedeliveryChangesNothing | service/store/store.go:339-381 | redelivered wins and proposals leave the store unchanged at any later time |
| SchedulerTheorems.SharingKeepsOwnershipIff | service/store/store.go:876-881 | with the shared loop variable, recovery keeps single ownership exactly when at most one bid was being fetched or there are no workers |
| SchedulerWitnesses.SharingLosesAJob | service/store/store.go:876-881 | after a run from a fresh store with two bids being fetched, recovery with the shared variable breaks single ownership |
| SchedulerWitnesses.WithoutWorkersABidIsStuck | service/store/store.go:708-721 | without workers an accepted bid is left with no internal step enabled |
| Store.TransitionKeepsAgreementIff | service/store/store.go:917-973 | a transition keeps the indexes in agreement exactly when its starting status accounts for the entries present |
| Store.Store.constructor | service/store/store.go:172-229 | opening the store over an earlier process's datastore is the restart step |
| Store.Store.SaveAndTransitionStatus | service/store/store.go:920-973 | the stored bid and both indexes after a transition |
| Store.Store.SaveBid | service/store/store.go:239-250 | the bid is saved as submitted; the indexes stay in agreement exactly when the id was not queued or being fetched |
| Transitions.SaveMeans | service/store/store.go:239-295 | a bid is saved, as submitted now, exactly when it passes validation |
| SchedulerWitnesses.SavingAgainBreaksTheIndexes | service/store/store.go:239-250 | saving a bid again that a fresh store has accepted leaves its index entry behind |
| Store.Store.SetAwaitingProposalCid | service/store/store.go:324-356 | reply and new state of a win, on every status; a submitted bid gets the message's sources |
| Transitions.WinMeans | service/store/store.go:339-350 | the first valid win leaves the bid awaiting its proposal with the message's sources and changes nothing else; any other win changes nothing |
| Transitions.WinReplyMeans | service/store/store.go:324-345 | when a win is done, not found, invalid or unexpected, redelivery included |
| Transitions.SourcesStay | service/store/store.go:346-347 | over every run after the first win its sources stay with the bid and are what its jobs are fetched from |
| Store.Store.SetProposalCid | service/store/store.go:360-393 | reply and new state of a legacy proposal, on every status |
| Transitions.ProposalMeans | service/store/store.go:374-393 | the first proposal records its cid, and its job goes to the end of the channel or the bid waits in the queue; any other changes nothing |
| Transitions.ProposalStays | service/store/store.go:374-393 | over every run after the first proposal its cid stays and the bid is never discarded |
| Store.Store.SetDealUID | service/store/store.go:397-430 | reply and new state of a Boost proposal, on every status |
| Transitions.BoostMeans | service/store/store.go:411-430 | the first Boost proposal finalizes the bid with the deal's uid; any other changes nothing |
| Transitions.BoostStays | service/store/store.go:411-430 | over every run after it the bid stays finalized with that uid |
| Transitions.ProposalReplyMeans | service/store/store.go:360-413 | when a proposal is done, not found, invalid or unexpected, redelivery included |
| Store.Store.EnqueueDataURI | service/store/store.go:607-622 | the double transition in one transaction ends in a sent job or a queued bid, with the indexes in agreement |
| Store.Store.Receive | service/store/store.go:632-637 | a worker takes the oldest job and counts the attempt |
| Transitions.JobsAreTakenInOrder | service/store/store.go:612-634 | over every run without a crash, jobs are taken in the order they were sent and none is lost |
| Store.Store.FetchOneJob | service/store/store.go:651-692 | the outcome of one attempt and what it does to the quota; finalized exactly when nothing went wrong |
| Transitions.AttemptMeans | service/store/store.go:651-706 | the saved bid is finalized exactly when the deal has not expired and download and import succeed, errored exactly when it has or the last allowed attempt failed, and queued otherwise, with the first cause recorded |
| Store.Store.FailJob | service/store/store.go:694-706 | a failure is fatal when immediate or out of attempts, and only then gives the quota back |
| Store.Store.Complete | service/store/store.go:636-647 | the finished job's bid, indexes and tick; its bytes are committed exactly when it is finalized and withdrawn exactly when it is errored |
| Store.Store.OnTimer | service/store/store.go:715-716 | the start timer dispatches once |
| Store.Store.OnTick | service/store/store.go:717-718 | a tick dispatches once |
| Store.Store.GetNext | service/store/store.go:806-829 | the queued bid with the least id is sent, or stays queued |
| Transitions.DispatchMeans | service/store/store.go:806-829 | a look at the queue sends the queued bid with the least id if there is room and touches no other |
| Store.Store.GetQueued | service/store/store.go:831-859 | the queued bid with the least id, if any |
| Store.Store.GetOrphaned | service/store/store.go:861-886 | the loop over orphans performs the recovery |
| Store.Store.GetFetching | service/store/store.go:888-915 | the bids of the fetching index in key order |
| Store.Store.ListBids | service/store/store.go:462-523 | the stored bids of one page |
| Store.MaxUlidIsAboveIff | service/store/store.go:476-486 | a descending list starts above every ULID whose time is not the last one, and above no other |
| Store.Store.GC | service/store/store.go:736-804 | exactly the listed bids that awaited their proposal too long are gone, and of the files exactly those of finalized, outdated or no bids that the rules name; all else is as it was |
| Store.Store.SortOut | service/store/store.go:746-766 | the loop over listed bids discards orphans and collects the files to keep and to remove |
| Store.Store.SweepFiles | service/store/store.go:767-798 | a file is gone exactly when it was regular and either to be removed, or not to be kept and outdated; no other entry changes |
| Collection.SweepMeans | service/store/store.go:746-798 | what a sweep leaves, bid by bid: the files of finalized, of other, and of no listed bids |
| Listing.Clamp | service/store/store.go:439-448 | a limit in range is kept, -1 and larger ones become 1000, and the rest 10 |
| Listing.QueryTakes | service/store/store.go:488-495 | the datastore's answer to the query for a page is the ids from the seek on, in order, up to the limit |
| Listing.WalkShowsEverythingOnce | service/store/store.go:462-523 | following the last id of each page to an empty page shows every reachable id once, in order |
| Listing.EarlierPagesAreFull | service/store/store.go:462-523 | every page followed by a non-empty one has exactly the clamped limit |
| Listing.WalksEnd | service/store/store.go:462-523 | a walk has at most one page more than there are ids |
| Listing.ReachIsEverythingIff | service/store/store.go:476-486 | every id is reachable exactly when the list ascends or none lies above the largest ULID |
| Collection.PathsAreInjective | service/store/store.go:602-604 | different bids have different data files |
| Collection.UnfinishedFileSurvivesIff | service/store/store.go:736-797 | an unfinished bid's file survives exactly when the bid is listed, or the file is not outdated |
| Collection.FinalizedFileIsRemovedIff | service/store/store.go:760-797 | a finalized bid's file is removed exactly when the bid is listed or the file outdated |
| Collection.UnownedFileIsRemovedIff | service/store/store.go:767-796 | a file owned by no listed bid, or only by discarded ones, is removed exactly when regular and outdated |
| Collection.ListedIffAmongNewest | service/store/store.go:741-745 | a bid is listed for collection exactly when fewer than ten reachable bids are newer |
| SchedulerWitnesses.CollectionTakesTheFileOfARunningBid | service/store/store.go:736-797 | a run from a fresh store with ten newer bids, after which collection removes the outdated file of a bid that is queued or being fetched |
| ByteBound.RunningBytesNeverExceedTheLimit | service/service.go:454-520 | in every run of one process, bytes queued, being fetched or finalized within the last period stay within the limit |
| ByteBound.RunningBytesBeyondTheLimitAreCarried | service/service.go:454-520 | over every run, restarts included, those bytes exceed the limit by at most the ones carried over the last restart |
| CarriedOver.RestartCarriesOpenBytes | service/limiter/running_total_limiter.go:52-54 | after a restart those bytes exceed the limit by at most the bytes of the bids that were open when it happened |
| ByteBound.RunningBytesAreBounded | service/store/store.go:651-706 | those bytes are at most the limiter's tokens in use and the bytes carried over |
| ByteBound.ClaimsWithinTokens | service/limiter/running_total_limiter.go:30-48 | bids in different auctions draw on different tokens |
| ByteBound.GrantedBidIsOk | service/service.go:454-495 | a win, redelivered or not, leaves its bid covered |
| ByteBound.ProposedBidIsCoveredIff | service/service.go:506-518 | a legacy proposal leaves its bid covered exactly when the quota is outstanding or was overwritten, or the bid was carried over |
| ByteBoundWitness.LateProposalBreaksTheBound | service/service.go:506-518 | a run from a fresh node, unexpected only in one proposal that comes after expiry, whose running bytes exceed the limit |
| ByteBoundWitness.RestartBreaksTheBound | service/limiter/running_total_limiter.go:52-54 | a run from a fresh node with one restart, everything else as expected, whose running bytes exceed the limit |
| BoostTokens.BoostKeepsTokensIff | service/service.go:506-518 | a Boost proposal keeps its bid's tokens exactly when they are outstanding or were overwritten |
| BoostTokens.BoostTokensStayInUse | service/service.go:506-518 | over every run of the process after it, those tokens stay in use and every granted request fits beside them |
| ByteBoundWitness.BoostDealBlocksForGood | service/service.go:506-518 | after one Boost deal from a fresh node, a size that does not fit beside it is refused at every later time |
| ByteBound.SettledBidIsOk | service/store/store.go:651-706 | a finished attempt leaves its bid covered: its bytes are committed, given back or still reserved |
| Service.Service.MakeBid | service/service.go:311-452 | a bid is only made in an auction that is open, within the filters, sealable, storable and can start in time on 64-bit words; the published prices follow from the rules, the fallback and strictness, and are saved with the promised start epoch |
| Service.Service.WinsHandler | service/service.go:455-496 | outcome, store and limiter after a win |
| Handlers.WinHandlingMeans | service/service.go:455-496 | when a win is ok, refused or too large; the sources recorded; and quota taken for ten minutes whenever the bid is known and fits, whatever fails after that |
| Service.Service.ProposalsHandler | service/service.go:499-520 | outcome, store and limiter after a proposal |
| Handlers.ProposalHandlingMeans | service/service.go:499-520 | when a proposal is taken, what it records, and that exactly its grant's timer is stopped |
| Keys.Wrap | lib/dshelper/txndswrap/txndswrap.go:14-27 | adding the parts of a prefix one at a time gives its clean key |
| Keys.EmptyPartsGoAway | lib/dshelper/txndswrap/txndswrap.go:15-19 | empty parts and dots make no difference to a key |
| Keys.DoubleDotGoesUp | lib/dshelper/txndswrap/txndswrap.go:15-19 | a double dot takes the part before it along |
| Keys.PartGoesBelow | lib/dshelper/txndswrap/txndswrap.go:15-19 | any other part is added below the key before it |
| Keys.InvertUndoesConvert | lib/dshelper/txndswrap/txndswrap.go:83-108 | the key transform is undone on every key |
| Keys.BelowUnderConvert | lib/dshelper/txndswrap/txndswrap.go:139-143 | a key prefix selects the same entries in the namespace and in the child |
| QuerySplit.PrepareQuery | lib/dshelper/txndswrap/txndswrap.go:134-230 | the two loops compute the split |
| QuerySplit.SplitPreservesMeaning | lib/dshelper/txndswrap/txndswrap.go:111-246 | the child's answer, inverted and put through the naive part, is the query's answer over the namespace |
| QuerySplit.SplitIsFaithfulIff | lib/dshelper/txndswrap/txndswrap.go:134-230 | a delegable query is answered so on all contents and from every offset exactly when it is not for keys only or what is punted looks at no value |
| QuerySplit.TruncationKeepsOrder | lib/dshelper/txndswrap/txndswrap.go:165-172 | orders after one by key never matter |
| QuerySplit.NaivePart | lib/dshelper/txndswrap/txndswrap.go:176-227 | filtering and sorting commute, whichever of them is punted |
| QuerySplit.PagedOnce | lib/dshelper/txndswrap/txndswrap.go:178-226 | offset and limit are applied once, on the right side |
| QuerySplit.PrefixIsFaithfulIff | lib/dshelper/txndswrap/txndswrap.go:208-217 | a prefix filter is delegated faithfully exactly when its prefix is empty or clean |
| QuerySplit.CompareIsFaithfulIff | lib/dshelper/txndswrap/txndswrap.go:195-207 | a key comparison is delegated faithfully exactly when its key is delegable for the operator |
| KeyOrder.AgreesIff | lib/dshelper/txndswrap/txndswrap.go:139-142 | comparing clean keys with a cleaned key or a cleaned seek agrees with the original, operator by operator, exactly when it is delegable |
| KeyOrder.NextKeyIsLeast | lib/dshelper/txndswrap/txndswrap.go:195-207 | no clean key lies between a string and the key computed from its first part that is not clean |
| QueryWitnesses.TrailingSlashIsMisread | lib/dshelper/txndswrap/txndswrap.go:195-217 | no comparison and no prefix filter with a trailing slash is delegated faithfully |
| QueryWitnesses.SeekWithSlashFindsMore | lib/dshelper/txndswrap/txndswrap.go:140-142 | a seek with a trailing slash finds an entry that it should not |
| QueryWitnesses.KeysOnlyFindsLess | lib/dshelper/txndswrap/txndswrap.go:219-227 | a function filter that reads values finds nothing when keys are asked for only |
| Namespace.Datastore.constructor | lib/dshelper/txndswrap/txndswrap.go:14-27 | the namespace key is the prefix's clean key |
| Namespace.Datastore.Put | lib/dshelper/txndswrap/txndswrap.go:83-86 | a put shows in the namespace's view and in none apart from it |
| Namespace.Datastore.Delete | lib/dshelper/txndswrap/txndswrap.go:88-91 | a delete shows in the namespace's view and in none apart from it |
| Namespace.Datastore.Get | lib/dshelper/txndswrap/txndswrap.go:93-96 | a get reads the namespace's view |
| Namespace.PassThroughIsFaithfulIff | lib/dshelper/txndswrap/txndswrap.go:70-73 | the extended query outside a transaction answers for the namespace exactly when that is the root |
| Pricing.MatchRules | service/pricing/cid_gravity.go:118-132 | the loop computes the declarative form, early return included |
| Pricing.OneRuleDecides | service/pricing/cid_gravity.go:119-126 | what a single rule prices, by its bounds and its kind |
| Pricing.RuleOutOfBoundsIsIgnored | service/pricing/cid_gravity.go:119-120 | a rule whose bounds leave out the deal makes no difference, wherever it stands |
| Pricing.ResolvePrices | service/pricing/cid_gravity.go:106-132 | no prices while blocked, throttled or under maintenance; otherwise the declarative form |
| Pricing.ResolvedPricesAreUnique | service/pricing/cid_gravity.go:118-132 | the declarative form determines the prices |
| Pricing.AppendingKeepsResolvedPrices | service/pricing/cid_gravity.go:118-132 | appending rules never alters a resolved price |
| Pricing.BothResolvedIsFinal | service/pricing/cid_gravity.go:127-129 | returning early changes nothing |
| Pricing.FirstMeantIsUsedIff | service/pricing/cid_gravity.go:117-126 | the first matching rule for unverified deals sets their price exactly when it is for nothing else or a matching rule for verified deals precedes it |
| Pricing.SecondMeantIsUsedIff | service/pricing/cid_gravity.go:117-126 | when the first matching rule for unverified deals does not set their price, exactly the second one does |
| Pricing.FirstMatchWinsIff | service/pricing/cid_gravity.go:117-126 | for every rule list the unverified price is that of the first match exactly when that rule sets it or the second match asks the same; without a match it is unset |
| Pricing.OneRuleForAnyDealLeavesUnverifiedUnpriced | service/pricing/cid_gravity.go:122-126 | one rule for any deal prices verified deals only |
| Pricing.QuotePrices | service/service.go:363-390 | when no bid is made, and what is asked for otherwise |
| Pricing.QuoteFromRules | service/service.go:363-390 | composed with resolution, the rules and the fallback fix the published prices |
| Pricing.NoBidIff | service/pricing/cid_gravity.go:107-115 | a client is not bid for exactly while blocked, under maintenance or at its rate limit |
| Pricing.PublishedPricesAreUnique | service/service.go:363-390 | usable rules determine the published prices |
| RulesCache.ClientRules.LoadRules | service/pricing/cid_gravity.go:172-215 | every field after every kind of answer; it succeeds exactly on a 304 and on a 200 that decodes |
| RulesCache.ClientRules.MaybeReloadRules | service/pricing/cid_gravity.go:138-170 | valid exactly when the cache is fresh, or not throttled and answered in time with a 304 or a 200 that decodes |
| RulesCache.ResultIsValidIff | service/pricing/cid_gravity.go:138-170 | over every run of calls, when the next one loads and when it is valid, in terms of the answers before it |
| RulesCache.AnsweredRulesAreUsed | service/pricing/cid_gravity.go:160-214 | rules answered in time are valid at once and until the cache period is over |
| RulesCache.ClientRules.PricesFor | service/pricing/cid_gravity.go:93-133 | prices come from the rules stored after the call, or there are none; a load answered in time gives prices from exactly its rules |
| RulesCache.LoadsKeepTheirDistance | service/pricing/cid_gravity.go:138-151 | over every run no load starts within the cache period of a decoded answer or within the backoff after a 429 |
| RulesCache.TagComesFromLastAnswer | service/pricing/cid_gravity.go:193-211 | over every run the entity tag is that of the last answer that was loaded, readable or not |
| RulesCache.RulesComeFromLastDecoded | service/pricing/cid_gravity.go:193-213 | over every run rules and timestamp are those of the last loaded answer that could be read |
| RulesCache.RunIsConsistentIff | service/pricing/cid_gravity.go:190-213 | after every run of an honest API, rules and tag are consistent exactly when the last answer could be read or named the version of the last one that could |
| RulesCache.ValidRulesAreCurrent | service/pricing/cid_gravity.go:135-170 | when answers can be read, a valid result means rules of one answer within the cache period, a new answer stored by this call, or a 304 with the cache as one earlier answer left it |
| RulesCache.ValidRulesAreTheTaggedVersion | service/pricing/cid_gravity.go:135-170 | with an API that tags its versions, a valid result means that the rules are the version of the stored tag |
| RulesCache.GarbledBodyHidesANewVersion | service/pricing/cid_gravity.go:193-211 | a run of an honest API whose last call is valid with rules older than the version that its tag names |
| CarHeader.DecodeUndoesEncode | lib/datauri/datauri.go:181-196 | varint decoding undoes encoding for every 64-bit value, whatever follows |
| CarHeader.DecodesIff | lib/datauri/datauri.go:181-188 | a varint is read exactly when it ends within ten bytes and 64 bits, and as the number that its bytes spell |
| CarHeader.EncodeIsShortest | lib/datauri/datauri.go:195-196 | no varint of a value is shorter than the written one |
| CarHeader.Reader.ReadUvarint | lib/datauri/datauri.go:181-188 | the byte-wise loop decodes the varint and leaves the rest |
| CarHeader.PutUvarint | lib/datauri/datauri.go:195-196 | the varint is written, or the buffer is too short and the write panics |
| CarHeader.LdRead | lib/datauri/datauri.go:177-199 | panics exactly on lengths that cannot be allocated and headers of 128 bytes or more, fails exactly on other streams that are not framed, else returns prefix and header |
| CarHeader.ValidateCarHeader | lib/datauri/datauri.go:154-173 | accepted exactly when framed, allocatable, below 128 bytes and with the asked-for cid as the only root; panics and the stream handed on |
| CarHeader.WrongRootIsRejected | lib/datauri/datauri.go:161-170 | a short header that does not decode, or has no, several or another root, is rejected |
| CarHeader.ValidStreamIsAcceptedIffShort | lib/datauri/datauri.go:154-199 | a stream framed with the right root is accepted and handed on byte for byte, or panics, exactly by whether its header is shorter than 128 bytes |
| CarHeader.ReemittedFramesTheSame | lib/datauri/datauri.go:172-172 | the stream handed on frames the same header and the same remaining bytes |
| CarHeader.ReemittedIsIdenticalIff | lib/datauri/datauri.go:172-172 | it is byte-identical exactly when the length varint was minimal |
| CarHeader.ReemittedIsStable | lib/datauri/datauri.go:172-172 | handing on a stream that was handed on before changes nothing more |

## Left out

- libp2p messaging, protobuf, HTTP, Lotus and Filecoin RPC, encryption, signatures, CBOR and CID parsing:
  their outcomes are parameters.
- Download mechanics and file contents: an attempt is its outcome.
- Datastore errors, partial commits, and the interleaving of handlers and workers inside one step.
- SchedulerInvariant.RestartKeeps: no worker receives a job while `getOrphaned` is still sending, and jobs
  are snapshots; the source starts its workers first and sends the address of its loop variable.
- Store.Store.constructor: the same two assumptions about recovery.
- Store.Store.GetOrphaned: sends snapshots; `SharingKeepsOwnershipIff` is about the shared variable.
- SchedulerTheorems.SharingKeepsOwnershipIff: assumes that no worker receives before the loop is over; a
  worker that does reads the variable while it changes.
- The peer id check and the source validation in the handlers: single branches.
- The bytes of Boost deals are not among those counted in the byte bound, which is about downloads.
- Counters and log lines of the garbage collector, progress reports, metrics.
- Saturation of very large durations.
- QuerySplit.SplitPreservesMeaning: filters and seeks that are not delegable are excluded; each alone is
  delegated unfaithfully, but another filter of the same query may hide that.
- CarHeader.Reader.ReadFull: what is left of a stream that ends early is not specified.
- RulesCache.ClientRules.MaybeReloadRules: does not model overlapping background loads, because two loads of
  one client would race on unordered stores.
