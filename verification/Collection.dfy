/** Garbage collection of bids that got no proposal and of deal data files. */
module Collection {
  import opened Ordering
  import opened Bids
  import opened Listing

  /** An entry of the deal data directory; symlinks and directories are not regular. */
  datatype DataFile = DataFile(regular: bool, modified: int)

  /** The directory is a clean path, and neither cids nor ids hold a slash, so joining them changes
      nothing. */
  function PathFor(dir: string, payloadCid: string, id: string): string {
    dir + "/" + payloadCid + "_" + id
  }

  function PathOf(dir: string, b: Bid): string { PathFor(dir, b.payloadCid, b.id) }

  lemma FirstUnderscore(c: string, i: string)
    requires '_' !in c
    ensures (c + "_" + i)[|c|] == '_' && forall k :: 0 <= k < |c| ==> (c + "_" + i)[k] != '_'
    ensures (c + "_" + i)[..|c|] == c && (c + "_" + i)[|c| + 1..] == i
  {
    forall k | 0 <= k < |c| ensures (c + "_" + i)[k] != '_' {
      assert (c + "_" + i)[k] == c[k] && c[k] in c;
    }
  }

  /** Different bids have different files, because an encoded cid holds no underscore. */
  lemma PathsAreInjective(dir: string, c: string, i: string, d: string, j: string)
    requires '_' !in c && '_' !in d && PathFor(dir, c, i) == PathFor(dir, d, j)
    ensures c == d && i == j
  {
    assert PathFor(dir, c, i)[|dir| + 1..] == c + "_" + i;
    assert PathFor(dir, d, j)[|dir| + 1..] == d + "_" + j;
    FirstUnderscore(c, i);
    FirstUnderscore(d, j);
  }

  /** With a positive threshold, a bid that has awaited its proposal for longer is an orphan. */
  predicate Orphan(b: Bid, threshold: int, now: int) {
    threshold > 0 && b.status.AwaitingProposal? && now - b.updatedAt > threshold
  }

  predicate Outdated(f: DataFile, threshold: int, now: int) {
    threshold > 0 && now - f.modified > threshold
  }

  function Discarded(bids: map<string, Bid>, listed: seq<string>, threshold: int, now: int): set<string> {
    set id | id in listed && id in bids && Orphan(bids[id], threshold, now)
  }

  /** The files of listed bids that are finalized, and of those that are neither that nor orphans. */
  function FinishedFiles(dir: string, bids: map<string, Bid>, listed: seq<string>): set<string> {
    set id | id in listed && id in bids && bids[id].status.Finalized? :: PathOf(dir, bids[id])
  }

  function ProtectedFiles(dir: string, bids: map<string, Bid>, listed: seq<string>,
                          threshold: int, now: int): set<string> {
    set id | id in listed && id in bids && !bids[id].status.Finalized? && !Orphan(bids[id], threshold, now)
      :: PathOf(dir, bids[id])
  }

  /** What the walk over the directory removes, given the files to keep and those to remove. */
  predicate Swept(keepFiles: set<string>, removeFiles: set<string>, threshold: int, now: int,
                  path: string, f: DataFile) {
    f.regular && (path in removeFiles || (path !in keepFiles && Outdated(f, threshold, now)))
  }

  function AfterSweep(files: map<string, DataFile>, keepFiles: set<string>, removeFiles: set<string>,
                      threshold: int, now: int): map<string, DataFile> {
    map path | path in files && !Swept(keepFiles, removeFiles, threshold, now, path, files[path])
      :: files[path]
  }

  predicate Removes(dir: string, bids: map<string, Bid>, listed: seq<string>,
                    threshold: int, now: int, path: string, f: DataFile) {
    Swept(ProtectedFiles(dir, bids, listed, threshold, now), FinishedFiles(dir, bids, listed),
          threshold, now, path, f)
  }

  /** One more listed bid adds to exactly one of the three sets, or to none of the first two. */
  lemma ListOneMore(dir: string, bids: map<string, Bid>, listed: seq<string>, id: string,
                    threshold: int, now: int)
    requires id in bids
    ensures Discarded(bids, listed + [id], threshold, now)
            == Discarded(bids, listed, threshold, now) + if Orphan(bids[id], threshold, now) then {id} else {}
    ensures FinishedFiles(dir, bids, listed + [id])
            == FinishedFiles(dir, bids, listed) + if bids[id].status.Finalized? then {PathOf(dir, bids[id])} else {}
    ensures ProtectedFiles(dir, bids, listed + [id], threshold, now)
            == ProtectedFiles(dir, bids, listed, threshold, now)
               + if bids[id].status.Finalized? || Orphan(bids[id], threshold, now) then {} else {PathOf(dir, bids[id])}
  {
    assert forall x :: x in listed + [id] <==> x in listed || x == id;
  }

  /** Stored under their own ids, with cids that hold no underscore. */
  ghost predicate Named(bids: map<string, Bid>) {
    forall id :: id in bids ==> bids[id].id == id && '_' !in bids[id].payloadCid
  }

  /** The file of a stored bid that is not finalized and not discarded survives exactly when the
      bid is listed, or there is no threshold, or the file is recent enough. */
  lemma UnfinishedFileSurvivesIff(dir: string, bids: map<string, Bid>, listed: seq<string>,
                                  threshold: int, now: int, id: string, f: DataFile)
    requires Named(bids) && id in bids && f.regular
    requires !bids[id].status.Finalized? && !Orphan(bids[id], threshold, now)
    ensures !Removes(dir, bids, listed, threshold, now, PathOf(dir, bids[id]), f)
            <==> id in listed || !Outdated(f, threshold, now)
  {
    var path := PathOf(dir, bids[id]);
    forall x | x in bids && PathOf(dir, bids[x]) == path ensures x == id {
      PathsAreInjective(dir, bids[x].payloadCid, x, bids[id].payloadCid, id);
    }
  }

  /** The file of a finalized bid is removed exactly when the bid is listed or the file outdated. */
  lemma FinalizedFileIsRemovedIff(dir: string, bids: map<string, Bid>, listed: seq<string>,
                                  threshold: int, now: int, id: string, f: DataFile)
    requires Named(bids) && id in bids && f.regular && bids[id].status.Finalized?
    ensures Removes(dir, bids, listed, threshold, now, PathOf(dir, bids[id]), f)
            <==> id in listed || Outdated(f, threshold, now)
  {
    var path := PathOf(dir, bids[id]);
    forall x | x in bids && PathOf(dir, bids[x]) == path ensures x == id {
      PathsAreInjective(dir, bids[x].payloadCid, x, bids[id].payloadCid, id);
    }
  }

  /** A file that no listed bid owns, other than bids being discarded, is removed exactly when it is
      regular and outdated. */
  lemma UnownedFileIsRemovedIff(dir: string, bids: map<string, Bid>, listed: seq<string>,
                                threshold: int, now: int, path: string, f: DataFile)
    requires forall id :: id in listed && id in bids && PathOf(dir, bids[id]) == path ==>
               id in Discarded(bids, listed, threshold, now)
    ensures Removes(dir, bids, listed, threshold, now, path, f)
            <==> f.regular && Outdated(f, threshold, now)
  {
    forall id | id in listed && id in bids && PathOf(dir, bids[id]) == path
      ensures bids[id].status.AwaitingProposal? && Orphan(bids[id], threshold, now)
    {
    }
  }

  // ---- what a collection leaves ----

  /** The listed bids that have awaited their proposal for longer than a positive threshold are gone, and
      every other bid is as it was. */
  predicate BidsCollected(before: map<string, Bid>, after: map<string, Bid>, listed: seq<string>,
                          threshold: int, now: int) {
    && (forall id :: id in after ==> id in before && after[id] == before[id])
    && (forall id :: id in before ==>
          (id !in after <==>
            && id in listed && before[id].status == AwaitingProposal
            && 0 < threshold && threshold < now - before[id].updatedAt))
  }

  /** The file of a finalized bid is gone exactly when it was regular and the bid is listed or the file
      outdated. */
  ghost predicate FinishedFilesGone(dir: string, bids: map<string, Bid>, listed: seq<string>,
                                    before: map<string, DataFile>, after: map<string, DataFile>,
                                    threshold: int, now: int) {
    forall id :: id in bids && bids[id].status == Finalized && PathOf(dir, bids[id]) in before ==>
      var path := PathOf(dir, bids[id]);
      (path !in after <==>
        && before[path].regular
        && (id in listed || (0 < threshold && threshold < now - before[path].modified)))
  }

  /** The file of any other bid that is not discarded stays exactly when it is not regular, or the bid is
      listed, or the file is not outdated. */
  ghost predicate NeededFilesStay(dir: string, bids: map<string, Bid>, listed: seq<string>,
                                  before: map<string, DataFile>, after: map<string, DataFile>,
                                  threshold: int, now: int) {
    forall id ::
      && id in bids && bids[id].status != Finalized && PathOf(dir, bids[id]) in before
      && !(bids[id].status == AwaitingProposal && 0 < threshold && threshold < now - bids[id].updatedAt) ==>
        var path := PathOf(dir, bids[id]);
        (path in after <==>
          || !before[path].regular || id in listed
          || !(0 < threshold && threshold < now - before[path].modified))
  }

  /** A file of no listed bid is gone exactly when it was regular and outdated. */
  ghost predicate OtherFilesAge(dir: string, bids: map<string, Bid>, listed: seq<string>,
                                before: map<string, DataFile>, after: map<string, DataFile>,
                                threshold: int, now: int) {
    forall path :: path in before && (forall id :: id in listed && id in bids ==> PathOf(dir, bids[id]) != path) ==>
      (path !in after <==> before[path].regular && 0 < threshold && threshold < now - before[path].modified)
  }

  /** What a collection does: bids and files only disappear, and exactly those named above. */
  ghost predicate Collected(dir: string, bids: map<string, Bid>, bids': map<string, Bid>,
                            files: map<string, DataFile>, files': map<string, DataFile>,
                            listed: seq<string>, threshold: int, now: int) {
    && BidsCollected(bids, bids', listed, threshold, now)
    && (forall path :: path in files' ==> path in files && files'[path] == files[path])
    && (Named(bids) ==>
          && FinishedFilesGone(dir, bids, listed, files, files', threshold, now)
          && NeededFilesStay(dir, bids, listed, files, files', threshold, now)
          && OtherFilesAge(dir, bids, listed, files, files', threshold, now))
  }

  /** What the sweep leaves, in terms of the bids whose files they are. */
  lemma SweepMeans(dir: string, bids: map<string, Bid>, listed: seq<string>,
                   before: map<string, DataFile>, after: map<string, DataFile>, threshold: int, now: int)
    requires Named(bids)
    requires forall path :: path in before ==>
      (path !in after <==> Removes(dir, bids, listed, threshold, now, path, before[path]))
    ensures FinishedFilesGone(dir, bids, listed, before, after, threshold, now)
    ensures NeededFilesStay(dir, bids, listed, before, after, threshold, now)
    ensures OtherFilesAge(dir, bids, listed, before, after, threshold, now)
  {
    forall id | id in bids && PathOf(dir, bids[id]) in before && before[PathOf(dir, bids[id])].regular
      ensures var path := PathOf(dir, bids[id]);
              bids[id].status.Finalized? ==>
                (path !in after <==> id in listed || Outdated(before[path], threshold, now))
      ensures var path := PathOf(dir, bids[id]);
              !bids[id].status.Finalized? && !Orphan(bids[id], threshold, now) ==>
                (path in after <==> id in listed || !Outdated(before[path], threshold, now))
    {
      var f := before[PathOf(dir, bids[id])];
      if bids[id].status.Finalized? {
        FinalizedFileIsRemovedIff(dir, bids, listed, threshold, now, id, f);
      } else if !Orphan(bids[id], threshold, now) {
        UnfinishedFileSurvivesIff(dir, bids, listed, threshold, now, id, f);
      }
    }
    forall path | path in before && forall id :: id in listed && id in bids ==> PathOf(dir, bids[id]) != path
      ensures path !in after <==> before[path].regular && Outdated(before[path], threshold, now)
    {
      UnownedFileIsRemovedIff(dir, bids, listed, threshold, now, path, before[path]);
    }
  }

  /** The listing a collection works on: the first page, newest first. */
  ghost function Newest(bids: map<string, Bid>, top: string): seq<string> {
    Page(View(bids.Keys, OrderDescending, 0, top), "")
  }

  function Members(s: seq<string>): set<string> { set x | x in s }

  function Larger(s: seq<string>, m: string): set<string> { set x | x in s && Less(m, x) }

  lemma {:induction false} DistinctCount(s: seq<string>)
    requires forall i, j :: 0 <= i < j < |s| ==> s[i] != s[j]
    ensures |Members(s)| == |s|
  {
    if s != [] {
      var n := |s| - 1;
      DistinctCount(s[..n]);
      assert Members(s) == Members(s[..n]) + {s[n]};
      assert s[n] !in s[..n];
    }
  }

  /** What comes before an id in a descending list is what is larger. */
  lemma LargerComeFirst(l: seq<string>, k: nat, x: string)
    requires Sorted(OrderDescending, l) && k < |l|
    ensures x in l[..k] <==> x in l && Less(l[k], x)
  {
    if x in l[..k] {
      var i :| 0 <= i < k && l[i] == x;
      assert Before(OrderDescending, l[i], l[k]);
    }
    if x in l && Less(l[k], x) {
      var i :| 0 <= i < |l| && l[i] == x;
      LessIsAsymmetric(l[k], x);
      assert !(k < i);
      IrreflexiveAt(OrderDescending, x);
      assert l[..k][i] == x;
    }
  }

  lemma CountLarger(l: seq<string>, k: nat)
    requires Sorted(OrderDescending, l) && k < |l|
    ensures |Larger(l, l[k])| == k
  {
    forall x ensures x in l[..k] <==> x in l && Less(l[k], x) { LargerComeFirst(l, k, x); }
    SortedIsDistinct(l);
    DistinctCount(l[..k]);
    assert Larger(l, l[k]) == Members(l[..k]);
  }

  lemma SortedIsDistinct(l: seq<string>)
    requires Sorted(OrderDescending, l)
    ensures forall i, j :: 0 <= i < j < |l| ==> l[i] != l[j]
  {
    forall i, j | 0 <= i < j < |l| ensures l[i] != l[j] {
      assert Before(OrderDescending, l[i], l[j]);
      IrreflexiveAt(OrderDescending, l[i]);
    }
  }

  /** The stored bids that are newer than id and not above the largest valid id. */
  function NewerIds(bids: map<string, Bid>, top: string, id: string): set<string> {
    set x | x in bids && !Less(top, x) && Less(id, x)
  }

  lemma NewerIdsAreListedFirst(l: seq<string>, bids: map<string, Bid>, top: string, k: nat)
    requires Sorted(OrderDescending, l) && k < |l|
    requires forall x :: x in l <==> x in bids && !Less(top, x)
    ensures |NewerIds(bids, top, l[k])| == k
  {
    CountLarger(l, k);
    assert NewerIds(bids, top, l[k]) == Larger(l, l[k]);
  }

  lemma ReachableIds(bids: map<string, Bid>, top: string, x: string)
    requires top != ""
    ensures x in All(View(bids.Keys, OrderDescending, 0, top)) <==> x in bids && !Less(top, x)
  {
    InOrderHolds(Reach(View(bids.Keys, OrderDescending, 0, top)), OrderDescending);
  }

  /** A bid is in that listing exactly when fewer than ten reachable bids are newer. */
  lemma ListedIffAmongNewest(bids: map<string, Bid>, top: string, id: string)
    requires top != "" && id in bids && !Less(top, id)
    ensures id in Newest(bids, top) <==> |NewerIds(bids, top, id)| < DEFAULT_LIST_LIMIT
  {
    var v := View(bids.Keys, OrderDescending, 0, top);
    var l := All(v);
    FirstPage(v);
    InOrderIsSorted(Reach(v), OrderDescending);
    forall x ensures x in l <==> x in bids && !Less(top, x) { ReachableIds(bids, top, x); }
    var k :| 0 <= k < |l| && l[k] == id;
    NewerIdsAreListedFirst(l, bids, top, k);
    SortedIsDistinct(l);
    TakeHas(l, k, DEFAULT_LIST_LIMIT);
  }

  lemma TakeHas(l: seq<string>, k: nat, n: nat)
    requires k < |l| && forall i, j :: 0 <= i < j < |l| ==> l[i] != l[j]
    ensures l[k] in Take(l, n) <==> k < n
  {
    if k < n && n < |l| { assert l[..n][k] == l[k]; }
  }
}
