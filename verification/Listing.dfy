/** Listing bids page by page. An id stands for its key below the prefix of all bids, which makes no
    difference to the order. */
module Listing {
  import opened Ordering
  import Keys
  import Q = Queries

  datatype Order = OrderDescending | OrderAscending

  /** A fixed set of ids, listed in some order with some page size; top is the largest id with a
      valid timestamp, where a descending list starts. */
  datatype View = View(ids: set<string>, order: Order, limit: int, top: string)

  const DEFAULT_LIST_LIMIT: nat := 10
  const MAX_LIST_LIMIT: nat := 1000

  function Clamp(limit: int): (r: nat)
    ensures 0 < r <= 1000 && (0 < limit <= 1000 ==> r == limit)
    ensures limit == -1 || limit > 1000 ==> r == 1000
    ensures limit == 0 || limit < -1 ==> r == 10
  {
    if limit == -1 then MAX_LIST_LIMIT
    else if limit <= 0 then DEFAULT_LIST_LIMIT
    else if limit > MAX_LIST_LIMIT then MAX_LIST_LIMIT
    else limit
  }

  predicate Before(o: Order, a: string, b: string) {
    if o.OrderAscending? then Less(a, b) else Less(b, a)
  }

  function Reverse(s: seq<string>): (r: seq<string>)
    ensures |r| == |s| && forall i :: 0 <= i < |s| ==> r[i] == s[|s| - 1 - i]
  {
    seq(|s|, i requires 0 <= i < |s| => s[|s| - 1 - i])
  }

  ghost predicate Sorted(o: Order, s: seq<string>) {
    forall i, j :: 0 <= i < j < |s| ==> Before(o, s[i], s[j])
  }

  /** All ids in the order of the list. */
  ghost function InOrder(ids: set<string>, o: Order): seq<string> {
    if o.OrderAscending? then Ascending(ids) else Reverse(Ascending(ids))
  }

  lemma InOrderHolds(ids: set<string>, o: Order)
    ensures forall x :: x in InOrder(ids, o) <==> x in ids
  {
    var up := Ascending(ids);
    forall x ensures x in Reverse(up) <==> x in up {
      if x in up {
        var i :| 0 <= i < |up| && up[i] == x;
        assert Reverse(up)[|up| - 1 - i] == x;
      }
    }
  }

  lemma InOrderIsSorted(ids: set<string>, o: Order)
    ensures Sorted(o, InOrder(ids, o))
  {
    AscendingIsSorted(ids);
  }

  // ---- the query for a page ----

  function OrderOf(o: Order): Q.Order { if o.OrderAscending? then Q.ByKey else Q.ByKeyDescending }

  /** An empty seek starts at the beginning. */
  function IdQuery(o: Order, seek: string, limit: nat): Q.Query {
    Q.Query("", [], [OrderOf(o)], limit, 0, false, seek)
  }

  /** Of the entries only the keys matter here. */
  function AsEntry(id: string): Q.Entry { Q.Entry(id, "") }

  function AsEntries(s: seq<string>): (r: seq<Q.Entry>)
    ensures |r| == |s| && forall i :: 0 <= i < |s| ==> r[i] == AsEntry(s[i])
  {
    seq(|s|, i requires 0 <= i < |s| => AsEntry(s[i]))
  }

  function EntrySet(ids: set<string>): set<Q.Entry> { set x | x in ids :: AsEntry(x) }

  function KeysOf(r: seq<Q.Entry>): (s: seq<string>)
    ensures |s| == |r| && forall i :: 0 <= i < |r| ==> s[i] == r[i].key
  {
    seq(|r|, i requires 0 <= i < |r| => r[i].key)
  }

  /** What the datastore answers. */
  ghost function QueryKeys(ids: set<string>, o: Order, seek: string, limit: nat): seq<string> {
    KeysOf(Q.Eval(IdQuery(o, seek, limit), EntrySet(ids)))
  }

  /** The ids at or after seek, in iteration order. */
  function Seekable(ids: set<string>, o: Order, seek: string): set<string> {
    set x | x in ids && Q.Sought(IdQuery(o, seek, 0), AsEntry(x))
  }

  lemma SortedAsEntries(o: Order, s: seq<string>)
    requires Sorted(o, s)
    ensures Q.Sorted([OrderOf(o)], AsEntries(s))
  {
    forall i, j | 0 <= i < j < |s| ensures Q.Before([OrderOf(o)], AsEntry(s[i]), AsEntry(s[j])) {
      assert Before(o, s[i], s[j]);
    }
  }

  lemma EntriesHold(s: seq<string>)
    ensures forall x :: AsEntry(x) in AsEntries(s) <==> x in s
    ensures forall e :: e in AsEntries(s) ==> e == AsEntry(e.key)
  {
    forall x ensures AsEntry(x) in AsEntries(s) <==> x in s {
      if x in s {
        var i :| 0 <= i < |s| && s[i] == x;
        assert AsEntries(s)[i] == AsEntry(x);
      }
    }
  }

  /** A sorted sequence is determined by its members. */
  lemma SortedIsUnique(o: Order, a: seq<string>, b: seq<string>)
    requires Sorted(o, a) && Sorted(o, b)
    requires forall x :: x in a <==> x in b
    ensures a == b
  {
    SortedAsEntries(o, a);
    SortedAsEntries(o, b);
    EntriesHold(a);
    EntriesHold(b);
    assert Q.Members(AsEntries(a)) == Q.Members(AsEntries(b));
    Q.SortedIsUnique([OrderOf(o)], AsEntries(a), AsEntries(b));
    assert KeysOf(AsEntries(a)) == a && KeysOf(AsEntries(b)) == b;
  }

  lemma SoughtEntries(ids: set<string>, o: Order, seek: string, limit: nat)
    ensures Q.Accepted(IdQuery(o, seek, limit), EntrySet(ids)) == EntrySet(Seekable(ids, o, seek))
  {
    Keys.NewKeyOfNothing();
  }

  lemma SortIsInOrder(ids: set<string>, o: Order)
    ensures Q.SortBy([OrderOf(o)], EntrySet(ids)) == AsEntries(InOrder(ids, o))
  {
    var l := InOrder(ids, o);
    InOrderHolds(ids, o);
    InOrderIsSorted(ids, o);
    SortedAsEntries(o, l);
    EntriesHold(l);
    Q.SortByIsSorted([OrderOf(o)], EntrySet(ids));
    assert Q.Members(AsEntries(l)) == EntrySet(ids);
    Q.SortedIsUnique([OrderOf(o)], AsEntries(l), Q.SortBy([OrderOf(o)], EntrySet(ids)));
  }

  /** The datastore sorts what is to be found, and takes as many as it is asked for; zero asks for all. */
  lemma QueryTakes(ids: set<string>, o: Order, seek: string, limit: nat)
    ensures var l := InOrder(Seekable(ids, o, seek), o);
            QueryKeys(ids, o, seek, limit) == if limit == 0 then l else Take(l, limit)
  {
    var l := InOrder(Seekable(ids, o, seek), o);
    SortIsInOrder(Seekable(ids, o, seek), o);
    SoughtEntries(ids, o, seek, limit);
    assert KeysOf(Q.Page(AsEntries(l), 0, limit)) == if limit == 0 then l else Take(l, limit);
  }

  function Take<T>(s: seq<T>, n: nat): seq<T> { if n < |s| then s[..n] else s }

  /** One page: an offset is looked up as the first result and then dropped. */
  ghost function Page(v: View, offset: string): seq<string> {
    var seek := if offset == "" && v.order.OrderDescending? then v.top else offset;
    var limit := Clamp(v.limit) + if offset != "" then 1 else 0;
    var list := QueryKeys(v.ids, v.order, seek, limit);
    if offset != "" && list != [] then list[1..] else list
  }

  // ---- sorted sequences ----

  /** Seeking an id of the list leaves the list from that id on. */
  lemma SeekIsSuffix(ids: set<string>, o: Order, k: nat)
    requires k < |InOrder(ids, o)| && InOrder(ids, o)[k] != ""
    ensures InOrder(Seekable(ids, o, InOrder(ids, o)[k]), o) == InOrder(ids, o)[k..]
  {
    var l := InOrder(ids, o);
    var rest := Seekable(ids, o, l[k]);
    InOrderIsSorted(ids, o);
    InOrderHolds(ids, o);
    InOrderIsSorted(rest, o);
    InOrderHolds(rest, o);
    forall x ensures x in rest <==> x in l[k..] {
      if x in rest {
        var i :| 0 <= i < |l| && l[i] == x;
        assert !(i < k);
        assert l[k..][i - k] == x;
      }
      if x in l[k..] {
        var i :| k <= i < |l| && l[i] == x;
        if k < i {
          assert Before(o, l[k], l[i]);
          NotBothWays(o, l[k], l[i]);
        } else {
          IrreflexiveAt(o, x);
        }
      }
    }
    SortedIsUnique(o, InOrder(rest, o), l[k..]);
  }

  lemma NotBothWays(o: Order, a: string, b: string)
    requires Before(o, a, b)
    ensures !Before(o, b, a)
  {
    if o.OrderAscending? { LessIsAsymmetric(a, b); } else { LessIsAsymmetric(b, a); }
  }

  lemma IrreflexiveAt(o: Order, a: string)
    ensures !Before(o, a, a)
  {
    if Before(o, a, a) { NotBothWays(o, a, a); }
  }

  // ---- walking the pages ----

  /** The ids a list can reach: a descending one starts at top. */
  function Reach(v: View): set<string> {
    if v.order.OrderDescending? && v.top != "" then Seekable(v.ids, v.order, v.top) else v.ids
  }

  ghost function All(v: View): seq<string> { InOrder(Reach(v), v.order) }

  lemma SeekWithinReach(v: View, offset: string)
    requires offset in Reach(v) && offset != ""
    ensures Seekable(v.ids, v.order, offset) == Seekable(Reach(v), v.order, offset)
  {
    forall x | x in Seekable(v.ids, v.order, offset) ensures x in Reach(v) {
      if x !in Reach(v) {
        LessIsTotal(offset, v.top);
        if offset != v.top { LessIsTransitive(offset, v.top, x); }
      }
    }
  }

  lemma TakeThenDrop<T>(s: seq<T>, n: nat)
    requires s != []
    ensures Take(s, n + 1) != [] && Take(s, n + 1)[1..] == Take(s[1..], n)
  {
  }

  /** A page with an offset is what follows the offset in the list. */
  lemma PageFollowsOffset(v: View, k: nat)
    requires "" !in v.ids && k < |All(v)|
    ensures Page(v, All(v)[k]) == Take(All(v)[k + 1..], Clamp(v.limit))
  {
    var offset := All(v)[k];
    assert offset in All(v);
    InOrderHolds(Reach(v), v.order);
    assert offset in v.ids && offset in Reach(v);
    SeekWithinReach(v, offset);
    SeekIsSuffix(Reach(v), v.order, k);
    QueryTakes(v.ids, v.order, offset, Clamp(v.limit) + 1);
    TakeThenDrop(All(v)[k..], Clamp(v.limit));
    assert All(v)[k..][1..] == All(v)[k + 1..];
  }

  lemma FirstPage(v: View)
    ensures Page(v, "") == Take(All(v), Clamp(v.limit))
  {
    assert Seekable(v.ids, v.order, "") == v.ids;
    QueryTakes(v.ids, v.order, if v.order.OrderDescending? then v.top else "", Clamp(v.limit));
  }

  /** pages is the beginning of a walk: each page is asked for with the last id of the one before. */
  ghost predicate IsWalk(v: View, pages: seq<seq<string>>)
    decreases |pages|
  {
    && pages != []
    && var page := pages[|pages| - 1];
       var earlier := pages[..|pages| - 1];
       if earlier == [] then page == Page(v, "")
       else && IsWalk(v, earlier) && Last(earlier) != []
            && page == Page(v, Last(earlier)[|Last(earlier)| - 1])
  }

  function Last<T>(s: seq<T>): T
    requires s != []
  {
    s[|s| - 1]
  }

  function Concat(pages: seq<seq<string>>): seq<string>
    decreases |pages|
  {
    if pages == [] then [] else Concat(pages[..|pages| - 1]) + Last(pages)
  }

  lemma LastShown(pages: seq<seq<string>>)
    requires pages != [] && Last(pages) != []
    ensures Concat(pages) != [] && Last(Concat(pages)) == Last(Last(pages))
  {
  }

  lemma PrefixExtends<T>(s: seq<T>, prefix: seq<T>, n: nat)
    requires prefix <= s
    ensures prefix + Take(s[|prefix|..], n) <= s
  {
  }

  /** What a walk has shown is a prefix of the list, and its last page is the next piece of it. */
  lemma {:induction false} WalkShowsPrefix(v: View, pages: seq<seq<string>>)
    requires "" !in v.ids && IsWalk(v, pages)
    ensures Concat(pages) <= All(v)
    ensures var shown := |Concat(pages[..|pages| - 1])|;
            shown <= |All(v)| && Last(pages) == Take(All(v)[shown..], Clamp(v.limit))
    decreases |pages|
  {
    var earlier := pages[..|pages| - 1];
    if earlier == [] {
      FirstPage(v);
      assert All(v)[0..] == All(v);
    } else {
      WalkShowsPrefix(v, earlier);
      LastShown(earlier);
      PageFollowsOffset(v, |Concat(earlier)| - 1);
      PrefixExtends(All(v), Concat(earlier), Clamp(v.limit));
    }
  }

  /** A walk that has come to an empty page has shown every id within reach, once and in order. */
  lemma WalkShowsEverythingOnce(v: View, pages: seq<seq<string>>)
    requires "" !in v.ids && IsWalk(v, pages) && Last(pages) == []
    ensures Concat(pages) == All(v)
  {
    WalkShowsPrefix(v, pages);
  }

  /** A page followed by a non-empty page has exactly the clamped limit. */
  lemma EarlierPagesAreFull(v: View, pages: seq<seq<string>>)
    requires "" !in v.ids && IsWalk(v, pages) && |pages| > 1 && Last(pages) != []
    ensures |Last(pages[..|pages| - 1])| == Clamp(v.limit)
  {
    WalkShowsPrefix(v, pages);
    WalkShowsPrefix(v, pages[..|pages| - 1]);
  }

  /** Walks end: with as many pages as reachable ids plus one, the last page is empty. */
  lemma {:induction false} WalksEnd(v: View, pages: seq<seq<string>>)
    requires "" !in v.ids && IsWalk(v, pages)
    ensures |pages| <= |All(v)| + 1
    ensures Last(pages) != [] ==> |pages| <= |Concat(pages)|
    decreases |pages|
  {
    WalkShowsPrefix(v, pages);
    if |pages| > 1 {
      WalkShowsPrefix(v, pages[..|pages| - 1]);
      WalksEnd(v, pages[..|pages| - 1]);
    }
  }

  /** The list reaches every id exactly when it ascends or no id lies above top. */
  lemma ReachIsEverythingIff(v: View)
    requires v.top != ""
    ensures Reach(v) == v.ids
            <==> v.order.OrderAscending? || forall x :: x in v.ids ==> !Less(v.top, x)
  {
    if v.order.OrderDescending? && exists x :: x in v.ids && Less(v.top, x) {
      var x :| x in v.ids && Less(v.top, x);
      assert x !in Reach(v);
    }
  }
}
