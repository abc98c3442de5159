/** Bids and their lifecycle. */
module Bids {
  import opened Options
  import opened Words

  datatype Status =
    | Unspecified
    | Submitted
    | AwaitingProposal
    | QueuedData
    | FetchingData
    | Finalized
    | Errored
  {
    /** Statuses are compared by their position in the lifecycle. */
    function Rank(): nat {
      match this
      case Unspecified => 0
      case Submitted => 1
      case AwaitingProposal => 2
      case QueuedData => 3
      case FetchingData => 4
      case Finalized => 5
      case Errored => 6
    }
  }

  /** The zero value of a timestamp. */
  const ZERO_TIME: int := 0

  /** An empty proposalCid is an undefined one. */
  datatype Bid = Bid(
    id: string, auctionId: string, payloadCid: string, sources: string,
    dealSize: uint64, dealDuration: nat, startEpoch: nat,
    askPrice: int, verifiedAskPrice: int,
    status: Status, proposalCid: string, dealUid: string, attempts: nat,
    createdAt: int, updatedAt: int, errorCause: string)
  {
    /** Accepted for fetching and not settled yet. */
    predicate Live() {
      status.QueuedData? || status.FetchingData?
    }

    /** Done with, one way or the other. */
    predicate Settled() {
      status.Finalized? || status.Errored?
    }

    /** What a bid must look like when it is handed over for saving. */
    predicate Acceptable() {
      && id != "" && auctionId != "" && dealSize > 0 && dealDuration > 0
      && status.Unspecified? && askPrice >= 0 && verifiedAskPrice >= 0 && startEpoch > 0
      && proposalCid == "" && attempts == 0
      && createdAt == ZERO_TIME && updatedAt == ZERO_TIME && errorCause == ""
    }
  }

  datatype Reply = Done | Invalid | NotFound | Unexpected

  /** What the outside world makes of one attempt: the chain height if it is known, and the error
      of the download and of the import, if any. */
  datatype Attempt = Attempt(height: Option<nat>, download: Option<string>, imported: Option<string>)

  /** What a finished attempt does to the bytes reserved for the auction. */
  datatype Quota = Keep | CommitBytes | WithdrawBytes

  /** One attempt's effect on its bid: the new status, the recorded error and the quota. */
  function FetchOne(b: Bid, limit: nat, a: Attempt): (Bid, Quota) {
    if a.height.Some? && b.startEpoch < a.height.value then Fail(b, limit, "deal is expired", true)
    else if a.download.Some? then Fail(b, limit, a.download.value, false)
    else if a.imported.Some? then Fail(b, limit, a.imported.value, false)
    else (b.(errorCause := "", status := Finalized), CommitBytes)
  }

  function Fail(b: Bid, limit: nat, cause: string, immediate: bool): (Bid, Quota) {
    if immediate || b.attempts >= limit then (b.(errorCause := cause, status := Errored), WithdrawBytes)
    else (b.(errorCause := cause, status := QueuedData), Keep)
  }
}
