/** Splitting a query over a namespace into a part for the child datastore and a naive rest. */
module QuerySplit {
  import opened Ordering
  import opened Keys
  import opened Queries
  import opened KeyOrder

  // ---- the split ----

  predicate Punts(o: Order) { o.ByFunction? }

  predicate ByKeys(o: Order) { o.ByKey? || o.ByKeyDescending? }

  /** The position of the first order that is not by value. */
  function Decisive(os: seq<Order>): (i: nat)
    ensures i <= |os| && (i < |os| ==> ByKeys(os[i]) || Punts(os[i]))
    ensures forall j :: 0 <= j < i ==> !ByKeys(os[j]) && !Punts(os[j])
  {
    if os == [] || ByKeys(os[0]) || Punts(os[0]) then 0 else 1 + Decisive(os[1..])
  }

  predicate OrdersPunted(os: seq<Order>) {
    Decisive(os) < |os| && Punts(os[Decisive(os)])
  }

  /** Orders after one by key never decide, because keys are unique. */
  function ChildOrders(os: seq<Order>): seq<Order> {
    if OrdersPunted(os) then []
    else if Decisive(os) < |os| then os[..Decisive(os) + 1]
    else os
  }

  predicate FiltersPunted(fs: seq<Filter>) {
    exists i :: 0 <= i < |fs| && fs[i].FilterFunction?
  }

  function ConvertFilter(ns: string, f: Filter): Filter {
    match f
    case KeyCompare(op, key) => KeyCompare(op, ConvertKey(ns, NewKey(key)))
    case KeyPrefix(prefix) => KeyPrefix(ConvertKey(ns, NewKey(prefix)))
    case _ => f
  }

  function ChildFilters(ns: string, fs: seq<Filter>): seq<Filter> {
    if FiltersPunted(fs) then [] else seq(|fs|, i requires 0 <= i < |fs| => ConvertFilter(ns, fs[i]))
  }

  predicate Punted(q: Query) { OrdersPunted(q.orders) || FiltersPunted(q.filters) }

  function ChildQuery(ns: string, q: Query): Query {
    Query(ConvertKey(ns, NewKey(q.prefix)), ChildFilters(ns, q.filters), ChildOrders(q.orders),
          if Punted(q) then 0 else q.limit, if Punted(q) then 0 else q.offset, q.keysOnly,
          if q.seek == "" then "" else ConvertKey(ns, NewKey(q.seek)))
  }

  function NaiveQuery(q: Query): Query {
    Query("", if FiltersPunted(q.filters) then q.filters else [],
          if OrdersPunted(q.orders) then q.orders else [],
          if Punted(q) then q.limit else 0, if Punted(q) then q.offset else 0, false, "")
  }

  /** How many of the orders the child gets; none when an order has to be punted. */
  method PrepareOrders(os: seq<Order>) returns (punted: bool, orders: seq<Order>)
    ensures punted == OrdersPunted(os) && orders == ChildOrders(os)
  {
    var i := 0;
    while i < |os|
      invariant i <= Decisive(os)
    {
      if ByKeys(os[i]) {
        return false, os[..i + 1];
      }
      if Punts(os[i]) {
        return true, [];
      }
      i := i + 1;
    }
    return false, os;
  }

  /** The filters under the transform; none when a filter has to be punted. */
  method PrepareFilters(ns: string, fs: seq<Filter>) returns (punted: bool, filters: seq<Filter>)
    ensures punted == FiltersPunted(fs) && filters == ChildFilters(ns, fs)
  {
    filters := fs;
    var i := 0;
    while i < |fs|
      invariant i <= |filters| == |fs|
      invariant forall j :: 0 <= j < i ==> !fs[j].FilterFunction? && filters[j] == ConvertFilter(ns, fs[j])
      invariant forall j :: i <= j < |filters| ==> filters[j] == fs[j]
    {
      match filters[i] {
        case ValueCompare(op, value) =>
        case KeyCompare(op, key) =>
          filters := filters[i := KeyCompare(op, ConvertKey(ns, NewKey(key)))];
        case KeyPrefix(prefix) =>
          filters := filters[i := KeyPrefix(ConvertKey(ns, NewKey(prefix)))];
        case FilterFunction(_) =>
          assert FiltersPunted(fs);
          return true, [];
      }
      i := i + 1;
    }
    punted := false;
  }

  /** First everything is in the child query; then what it cannot do is taken out. */
  method PrepareQuery(ns: string, q: Query) returns (naive: Query, child: Query)
    ensures naive == NaiveQuery(q) && child == ChildQuery(ns, q)
  {
    naive := Query("", [], [], 0, 0, false, "");
    child := q.(prefix := ConvertKey(ns, NewKey(q.prefix)));
    if child.seek != "" {
      child := child.(seek := ConvertKey(ns, NewKey(child.seek)));
    }

    var ordersPunted, orders := PrepareOrders(q.orders);
    child := child.(orders := orders);
    if ordersPunted {
      naive := naive.(orders := q.orders, offset := q.offset, limit := q.limit);
      child := child.(offset := 0, limit := 0);
    }

    var filtersPunted, filters := PrepareFilters(ns, q.filters);
    child := child.(filters := filters);
    if filtersPunted {
      naive := naive.(filters := q.filters, offset := q.offset, limit := q.limit);
      child := child.(offset := 0, limit := 0);
    }
  }

  // ---- contents seen through the namespace ----

  function Lift(ns: string, e: Entry): Entry { Entry(ConvertKey(ns, e.key), e.value) }

  function Lower(ns: string, e: Entry): Entry
    requires Below(ns, e.key)
  {
    Entry(InvertKey(ns, e.key), e.value)
  }

  /** What the namespace holds, under its own keys. */
  function Logical(ns: string, contents: set<Entry>): set<Entry> {
    set e | e in contents && Below(ns, e.key) :: Lower(ns, e)
  }

  /** The result iterator puts the namespace's own keys back. */
  function Inverted(ns: string, r: seq<Entry>): seq<Entry>
    requires forall e :: e in r ==> Below(ns, e.key)
  {
    if r == [] then [] else [Lower(ns, r[0])] + Inverted(ns, r[1..])
  }

  /** Datastore keys are clean, and none is the root. */
  ghost predicate Clean(ns: string, contents: set<Entry>) {
    && IsKey(ns) && UniqueKeys(contents)
    && forall e :: e in contents ==> IsKey(e.key) && e.key != "/"
  }

  /** The child decides the converted filter as the filter would have been decided. */
  predicate DelegableFilter(f: Filter) {
    match f
    case KeyCompare(op, key) => Delegable(op, key)
    case KeyPrefix(prefix) => prefix == "" || IsKey(prefix)
    case _ => true
  }

  /** A seek compares with where it starts, in the direction of the iteration. */
  function SeekOp(q: Query): Op {
    if q.orders != [] && q.orders[0].ByKeyDescending? then LessThanOrEqual else GreaterThanOrEqual
  }

  /** The filters and the seek can be delegated; the query's prefix is cleaned anyway. */
  ghost predicate DelegableQuery(q: Query) {
    && WeakAll(q.orders)
    && (forall i :: 0 <= i < |q.filters| ==> DelegableFilter(q.filters[i]))
    && (q.seek == "" || Delegable(SeekOp(q), q.seek))
  }

  lemma LogicalEntries(ns: string, contents: set<Entry>)
    requires Clean(ns, contents)
    ensures forall e :: e in Logical(ns, contents) ==> IsEntryKey(e.key) && Lift(ns, e) in contents
    ensures UniqueKeys(Logical(ns, contents))
  {
    forall e | e in Logical(ns, contents) ensures IsEntryKey(e.key) && Lift(ns, e) in contents {
      var c :| c in contents && Below(ns, c.key) && Lower(ns, c) == e;
      LowerThenLift(ns, c);
    }
  }

  lemma LowerThenLift(ns: string, c: Entry)
    requires IsKey(ns) && IsEntryKey(c.key) && Below(ns, c.key)
    ensures Lift(ns, Lower(ns, c)) == c && IsEntryKey(Lower(ns, c).key) && Inside(Lower(ns, c).key)
  {
    ConvertUndoesInvert(ns, c.key);
    InvertedIsKey(ns, c.key);
    KeyShape(Lower(ns, c).key);
  }

  lemma LiftThenLower(ns: string, e: Entry)
    requires IsKey(ns) && Inside(e.key)
    ensures Below(ns, Lift(ns, e).key) && Lower(ns, Lift(ns, e)) == e
  {
    KeyShape(ns);
    if ns != "/" { assert ns + "/" <= ns + e.key; }
  }

  // ---- comparisons under the transform ----

  lemma LessUnderConvert(ns: string, a: string, b: string)
    requires IsKey(ns) && Inside(a) && (Inside(b) || b == "/")
    ensures Less(ConvertKey(ns, a), ConvertKey(ns, b)) == Less(a, b)
    ensures Less(ConvertKey(ns, b), ConvertKey(ns, a)) == Less(b, a)
    ensures ConvertKey(ns, a) == ConvertKey(ns, b) <==> a == b
  {
    KeyShape(ns);
    if ns != "/" {
      if b == "/" {
        LessUnderPrefix(ns, a, "");
        LessUnderPrefix(ns, "", a);
        assert ns + "" == ns;
        assert Less("", a) && !Less(a, "");
        RootIsLeast(a);
      } else {
        LessUnderPrefix(ns, a, b);
        LessUnderPrefix(ns, b, a);
        if ns + a == ns + b { assert (ns + a)[|ns|..] == a && (ns + b)[|ns|..] == b; }
      }
    }
  }

  lemma CompareUnderConvert(ns: string, op: Op, k: string, p: string)
    requires IsKey(ns) && IsEntryKey(k)
    ensures Compares(op, ConvertKey(ns, k), ConvertKey(ns, NewKey(p))) == Compares(op, k, NewKey(p))
  {
    NewKeyIsKey(p);
    KeyShape(NewKey(p));
    KeyShape(k);
    LessUnderConvert(ns, k, NewKey(p));
  }

  lemma FilterUnderLift(ns: string, f: Filter, e: Entry)
    requires IsKey(ns) && IsEntryKey(e.key) && DelegableFilter(f) && !f.FilterFunction?
    ensures Passes(ConvertFilter(ns, f), Lift(ns, e)) == Passes(f, e)
  {
    match f {
      case KeyCompare(op, key) =>
        AgreesIff(op, key);
        CompareUnderConvert(ns, op, e.key, key);
      case KeyPrefix(prefix) =>
        NewKeyIsKey(prefix);
        NewKeyOfNothing();
        KeyShape(e.key);
        PrefixUnderConvert(ns, NewKey(prefix), e.key);
      case _ =>
    }
  }

  lemma PrefixUnderConvert(ns: string, p: string, k: string)
    requires IsKey(ns) && IsKey(p) && Inside(k)
    ensures ConvertKey(ns, p) <= ConvertKey(ns, k) <==> p <= k
  {
    KeyShape(ns);
    KeyShape(p);
    if ns != "/" && p != "/" {
      if p <= k { assert ns + p <= ns + k; }
      if ns + p <= ns + k { assert (ns + k)[|ns|..][..|p|] == p; }
    }
  }

  /** The delegated filter keeps the same clean keys as the original one. */
  ghost predicate Faithful(ns: string, f: Filter) {
    forall k, v :: IsEntryKey(k) ==> Passes(ConvertFilter(ns, f), Lift(ns, Entry(k, v))) == Passes(f, Entry(k, v))
  }

  /** A clean key that separates an unclean prefix from its cleaned form. */
  lemma UncleanPrefixIsSeparated(p: string) returns (k: string)
    requires p != "" && !IsKey(p)
    ensures IsKey(k) && k != "/" && NewKey(p) <= k && !(p <= k)
  {
    NewKeyIsKey(p);
    KeyShape(NewKey(p));
    if NewKey(p) != "/" {
      k := NewKey(p);
      if p <= k {
        assert p[0] == k[0];
        CleaningShortens(p);
      }
    } else {
      k := "/a";
      assert Render(["a"]) == "/a" && 'a' in "a";
      RenderIsKey(["a"]);
      RenderIsKey([]);
      assert p <= k ==> p == "/" || p == "/a";
    }
  }

  /** A prefix filter is delegated faithfully exactly when its prefix is empty or clean; one with a
      trailing slash is neither. */
  lemma PrefixIsFaithfulIff(ns: string, p: string)
    requires IsKey(ns)
    ensures Faithful(ns, KeyPrefix(p)) <==> p == "" || IsKey(p)
  {
    if p == "" || IsKey(p) {
      forall k, v | IsEntryKey(k)
        ensures Passes(ConvertFilter(ns, KeyPrefix(p)), Lift(ns, Entry(k, v))) == Passes(KeyPrefix(p), Entry(k, v))
      {
        FilterUnderLift(ns, KeyPrefix(p), Entry(k, v));
      }
    } else {
      var k := UncleanPrefixIsSeparated(p);
      NewKeyIsKey(p);
      KeyShape(k);
      PrefixUnderConvert(ns, NewKey(p), k);
      assert Passes(KeyPrefix(p), Entry(k, "")) != Passes(ConvertFilter(ns, KeyPrefix(p)), Lift(ns, Entry(k, "")));
    }
  }

  /** A key comparison is delegated faithfully exactly when its key is delegable for the operator. */
  lemma CompareIsFaithfulIff(ns: string, op: Op, p: string)
    requires IsKey(ns)
    ensures Faithful(ns, KeyCompare(op, p)) <==> Delegable(op, p)
  {
    var f := KeyCompare(op, p);
    AgreesIff(op, p);
    forall k | IsEntryKey(k)
      ensures Passes(ConvertFilter(ns, f), Lift(ns, Entry(k, ""))) == Compares(op, k, NewKey(p))
    {
      CompareUnderConvert(ns, op, k, p);
    }
    forall k, v
      ensures Passes(ConvertFilter(ns, f), Lift(ns, Entry(k, v)))
              == Passes(ConvertFilter(ns, f), Lift(ns, Entry(k, "")))
    {
    }
    if !Agrees(op, p) {
      var k :| IsEntryKey(k) && Compares(op, k, NewKey(p)) != Compares(op, k, p);
      assert Passes(ConvertFilter(ns, f), Lift(ns, Entry(k, ""))) != Passes(f, Entry(k, ""));
    }
  }

  lemma PrecedesUnderLift(ns: string, o: Order, a: Entry, b: Entry)
    requires IsKey(ns) && Inside(a.key) && Inside(b.key) && !Punts(o)
    ensures Precedes(o, Lift(ns, a), Lift(ns, b)) == Precedes(o, a, b)
  {
    LessUnderConvert(ns, a.key, b.key);
  }

  lemma {:induction false} BeforeUnderLift(ns: string, os: seq<Order>, a: Entry, b: Entry)
    requires IsKey(ns) && Inside(a.key) && Inside(b.key)
    requires forall i :: 0 <= i < |os| ==> !Punts(os[i])
    ensures Before(os, Lift(ns, a), Lift(ns, b)) == Before(os, a, b)
    decreases |os|
  {
    if os == [] {
      LessUnderConvert(ns, a.key, b.key);
    } else {
      PrecedesUnderLift(ns, os[0], a, b);
      PrecedesUnderLift(ns, os[0], b, a);
      BeforeUnderLift(ns, os[1..], a, b);
    }
  }

  /** Cutting the orders after the first one by key changes no comparison. */
  lemma {:induction false} TruncationKeepsOrder(os: seq<Order>, a: Entry, b: Entry)
    requires !OrdersPunted(os) && a.key != b.key
    ensures Before(ChildOrders(os), a, b) == Before(os, a, b)
    decreases |os|
  {
    if os != [] {
      if ByKeys(os[0]) {
        LessIsTotal(a.key, b.key);
        assert os[..1] == [os[0]] && [os[0]][1..] == [];
        if Less(a.key, b.key) { LessIsAsymmetric(a.key, b.key); }
        if Less(b.key, a.key) { LessIsAsymmetric(b.key, a.key); }
      } else {
        TruncationKeepsOrder(os[1..], a, b);
        assert ChildOrders(os)[0] == os[0];
        assert ChildOrders(os)[1..] == ChildOrders(os[1..]);
      }
    }
  }

  // ---- what the child accepts ----

  /** The part of the query that the child decides. */
  predicate Delegated(q: Query, e: Entry) {
    && Below(NewKey(q.prefix), e.key) && Sought(q, e)
    && (FiltersPunted(q.filters) || PassesAll(q.filters, e))
  }

  /** Seeking is comparing with where the seek starts. */
  lemma SoughtCompares(q: Query, e: Entry)
    ensures Sought(q, e) <==> q.seek == "" || Compares(SeekOp(q), e.key, q.seek)
  {
    InclusiveIsNegated(e.key, q.seek);
  }

  lemma SoughtUnderLift(ns: string, q: Query, e: Entry)
    requires IsKey(ns) && IsEntryKey(e.key) && DelegableQuery(q)
    ensures Sought(ChildQuery(ns, q), Lift(ns, e)) == Sought(q, e)
  {
    if q.seek != "" {
      if q.orders != [] && ByKeys(q.orders[0]) {
        assert Decisive(q.orders) == 0;
      }
      assert SeekOp(ChildQuery(ns, q)) == SeekOp(q);
      NewKeyIsKey(q.seek);
      ConvertedIsKey(ns, NewKey(q.seek));
      KeyShape(ConvertKey(ns, NewKey(q.seek)));
      SoughtCompares(q, e);
      SoughtCompares(ChildQuery(ns, q), Lift(ns, e));
      AgreesIff(SeekOp(q), q.seek);
      CompareUnderConvert(ns, SeekOp(q), e.key, q.seek);
    }
  }

  lemma ChildAcceptsIff(ns: string, q: Query, e: Entry)
    requires IsKey(ns) && IsEntryKey(e.key) && DelegableQuery(q)
    ensures Accepts(ChildQuery(ns, q), Lift(ns, e)) == Delegated(q, e)
  {
    KeyShape(e.key);
    NewKeyIsKey(q.prefix);
    ConvertedIsKey(ns, NewKey(q.prefix));
    BelowUnderConvert(ns, NewKey(q.prefix), e.key);
    SoughtUnderLift(ns, q, e);
    if !FiltersPunted(q.filters) {
      forall i | 0 <= i < |q.filters|
        ensures Passes(ChildFilters(ns, q.filters)[i], Lift(ns, e)) == Passes(q.filters[i], e)
      {
        FilterUnderLift(ns, q.filters[i], e);
      }
    }
  }

  lemma ChildOnlyAcceptsBelow(ns: string, q: Query, e: Entry)
    requires IsKey(ns) && Accepts(ChildQuery(ns, q), e)
    ensures Below(ns, e.key)
  {
    NewKeyIsKey(q.prefix);
    KeyShape(ns);
    KeyShape(NewKey(q.prefix));
    ConvertedIsKey(ns, NewKey(q.prefix));
    if ns != "/" && NewKey(q.prefix) != "/" {
      assert ns + "/" <= ns + NewKey(q.prefix) + "/";
    }
  }

  // ---- inverting the child's results ----

  lemma {:induction false} InvertedAt(ns: string, r: seq<Entry>)
    requires forall e :: e in r ==> Below(ns, e.key)
    ensures |Inverted(ns, r)| == |r|
    ensures forall i :: 0 <= i < |r| ==> Inverted(ns, r)[i] == Lower(ns, r[i])
    decreases |r|
  {
    if r != [] {
      InvertedAt(ns, r[1..]);
    }
  }

  lemma InvertedPage(ns: string, r: seq<Entry>, offset: nat, limit: nat)
    requires forall e :: e in r ==> Below(ns, e.key)
    ensures forall e :: e in Page(r, offset, limit) ==> Below(ns, e.key)
    ensures Inverted(ns, Page(r, offset, limit)) == Page(Inverted(ns, r), offset, limit)
  {
    var p := Page(r, offset, limit);
    assert forall e :: e in p ==> e in r;
    InvertedAt(ns, r);
    InvertedAt(ns, p);
  }

  ghost function DelegatedEntries(ns: string, q: Query, contents: set<Entry>): set<Entry> {
    set e | e in Logical(ns, contents) && Delegated(q, e)
  }

  lemma ChildOrdersHaveNoFunction(os: seq<Order>)
    ensures forall i :: 0 <= i < |ChildOrders(os)| ==> !Punts(ChildOrders(os)[i])
    ensures WeakAll(ChildOrders(os))
  {
  }

  /** What the child accepts, lowered, is what the namespace holds and the child decides to keep. */
  lemma AcceptedEntries(ns: string, q: Query, contents: set<Entry>)
    requires Clean(ns, contents) && DelegableQuery(q)
    ensures forall c :: c in Accepted(ChildQuery(ns, q), contents) ==>
      Below(ns, c.key) && Lower(ns, c) in DelegatedEntries(ns, q, contents)
    ensures forall e :: e in DelegatedEntries(ns, q, contents) ==>
      && IsEntryKey(e.key) && Lift(ns, e) in Accepted(ChildQuery(ns, q), contents)
      && Below(ns, Lift(ns, e).key) && Lower(ns, Lift(ns, e)) == e
  {
    forall c | c in Accepted(ChildQuery(ns, q), contents)
      ensures Below(ns, c.key) && Lower(ns, c) in DelegatedEntries(ns, q, contents)
    {
      ChildOnlyAcceptsBelow(ns, q, c);
      LowerThenLift(ns, c);
      ChildAcceptsIff(ns, q, Lower(ns, c));
    }
    LogicalEntries(ns, contents);
    forall e | e in DelegatedEntries(ns, q, contents)
      ensures IsEntryKey(e.key) && Lift(ns, e) in Accepted(ChildQuery(ns, q), contents)
      ensures Below(ns, Lift(ns, e).key) && Lower(ns, Lift(ns, e)) == e
    {
      KeyShape(e.key);
      LiftThenLower(ns, e);
      ChildAcceptsIff(ns, q, e);
    }
  }

  /** The child's sorted results, inverted, are those entries sorted the same way. */
  lemma InvertedIsSorted(ns: string, q: Query, contents: set<Entry>, r: seq<Entry>)
    requires Clean(ns, contents) && DelegableQuery(q)
    requires r == SortBy(ChildOrders(q.orders), Accepted(ChildQuery(ns, q), contents))
    ensures forall e :: e in r ==> Below(ns, e.key)
    ensures Sorted(ChildOrders(q.orders), Inverted(ns, r))
    ensures Members(Inverted(ns, r)) == DelegatedEntries(ns, q, contents)
  {
    var os, accepted := ChildOrders(q.orders), Accepted(ChildQuery(ns, q), contents);
    ChildOrdersHaveNoFunction(q.orders);
    SortByIsSorted(os, accepted);
    AcceptedEntries(ns, q, contents);
    assert forall e :: e in r ==> e in Members(r);
    InvertedAt(ns, r);
    var inv := Inverted(ns, r);
    forall i, j | 0 <= i < j < |inv| ensures Before(os, inv[i], inv[j]) {
      assert r[i] in accepted && r[j] in accepted;
      LowerThenLift(ns, r[i]);
      LowerThenLift(ns, r[j]);
      BeforeUnderLift(ns, os, inv[i], inv[j]);
    }
    InvertedMembers(ns, q, contents, r);
  }

  lemma InvertedMembers(ns: string, q: Query, contents: set<Entry>, r: seq<Entry>)
    requires Clean(ns, contents) && DelegableQuery(q)
    requires Members(r) == Accepted(ChildQuery(ns, q), contents) && forall e :: e in r ==> Below(ns, e.key)
    ensures Members(Inverted(ns, r)) == DelegatedEntries(ns, q, contents)
  {
    AcceptedEntries(ns, q, contents);
    InvertedAt(ns, r);
    var inv := Inverted(ns, r);
    forall e ensures e in inv <==> e in DelegatedEntries(ns, q, contents) {
      if e in inv {
        var i :| 0 <= i < |inv| && inv[i] == e;
        assert r[i] in Members(r);
      }
      if e in DelegatedEntries(ns, q, contents) {
        assert Lift(ns, e) in Members(r);
        var i :| 0 <= i < |r| && r[i] == Lift(ns, e);
        assert inv[i] == e;
      }
    }
  }

  // ---- the naive part ----

  /** Sorting by the truncated orders is sorting by the orders. */
  lemma TruncatedSort(os: seq<Order>, r: seq<Entry>)
    requires !OrdersPunted(os) && WeakAll(os) && Sorted(ChildOrders(os), r) && UniqueKeys(Members(r))
    ensures Sorted(os, r)
  {
    ChildOrdersHaveNoFunction(os);
    forall i, j | 0 <= i < j < |r| ensures Before(os, r[i], r[j]) {
      assert r[i] in Members(r) && r[j] in Members(r);
      if r[i].key == r[j].key {
        assert Before(ChildOrders(os), r[i], r[i]);
        BeforeIsAsymmetric(ChildOrders(os), r[i], r[i]);
      } else {
        TruncationKeepsOrder(os, r[i], r[j]);
      }
    }
  }

  /** Filtering naively and then sorting as the naive part is told to gives the wanted order. */
  lemma NaivePart(q: Query, r: seq<Entry>, s: set<Entry>)
    requires DelegableQuery(q) && UniqueKeys(s) && UniqueKeys(Members(r))
    requires Sorted(ChildOrders(q.orders), r)
    requires forall e :: e in r <==> e in s && Delegated(q, e)
    ensures var kept := Select(NaiveQuery(q).filters, r);
            && UniqueKeys(Members(kept))
            && SortBy(q.orders, Accepted(q, s))
               == if OrdersPunted(q.orders) then SortBy(q.orders, Members(kept)) else kept
  {
    var fs := NaiveQuery(q).filters;
    var kept := Select(fs, r);
    SelectMembers(fs, r);
    SelectIsSorted(ChildOrders(q.orders), fs, r);
    assert Members(kept) == Accepted(q, s) by {
      forall e ensures e in kept <==> e in Accepted(q, s) {
        assert Accepts(q, e) <==> Delegated(q, e) && PassesAll(fs, e);
      }
    }
    if !OrdersPunted(q.orders) {
      TruncatedSort(q.orders, kept);
      SortByIsSorted(q.orders, Accepted(q, s));
      SortedIsUnique(q.orders, kept, SortBy(q.orders, Accepted(q, s)));
    }
  }

  lemma SelectAll(r: seq<Entry>)
    ensures Select([], r) == r
  {
    if r != [] { SelectAll(r[1..]); }
  }

  lemma PageMembers(r: seq<Entry>, offset: nat, limit: nat)
    requires UniqueKeys(Members(r))
    ensures UniqueKeys(Members(Page(r, offset, limit)))
  {
    var p := Page(r, offset, limit);
    forall e | e in Members(p) ensures e in Members(r) {
      var i :| 0 <= i < |p| && p[i] == e;
      assert e in r;
    }
  }

  /** Offset and limit are applied once, by the child or by the naive part. */
  lemma PagedOnce(ns: string, q: Query, r: seq<Entry>, s: set<Entry>)
    requires DelegableQuery(q) && UniqueKeys(s) && UniqueKeys(Members(r))
    requires Sorted(ChildOrders(q.orders), r)
    requires forall e :: e in r <==> e in s && Delegated(q, e)
    ensures var page := Page(r, ChildQuery(ns, q).offset, ChildQuery(ns, q).limit);
            && UniqueKeys(Members(page))
            && NaiveApply(NaiveQuery(q), page) == Results(q, s)
  {
    NaivePart(q, r, s);
    if Punted(q) {
      assert Page(r, 0, 0) == r;
    } else {
      PageMembers(r, q.offset, q.limit);
      SelectAll(r);
      SelectAll(Page(r, q.offset, q.limit));
    }
  }

  lemma PageHas(r: seq<Entry>, offset: nat, limit: nat)
    ensures forall e :: e in Page(r, offset, limit) ==> e in r
  {
  }

  /** The child's results, inverted, are a page of what it decides to keep, in its order. */
  lemma InvertedResults(ns: string, contents: set<Entry>, q: Query) returns (inv: seq<Entry>)
    requires Clean(ns, contents) && DelegableQuery(q)
    ensures WeakAll(ChildQuery(ns, q).orders) && UniqueKeys(Logical(ns, contents))
    ensures Sorted(ChildOrders(q.orders), inv) && UniqueKeys(Members(inv))
    ensures forall e :: e in inv <==> e in Logical(ns, contents) && Delegated(q, e)
    ensures var found := Results(ChildQuery(ns, q), contents);
            && (forall e :: e in found ==> Below(ns, e.key))
            && Inverted(ns, found) == Page(inv, ChildQuery(ns, q).offset, ChildQuery(ns, q).limit)
  {
    ChildOrdersHaveNoFunction(q.orders);
    LogicalEntries(ns, contents);
    var r := SortBy(ChildOrders(q.orders), Accepted(ChildQuery(ns, q), contents));
    InvertedIsSorted(ns, q, contents, r);
    InvertedPage(ns, r, ChildQuery(ns, q).offset, ChildQuery(ns, q).limit);
    inv := Inverted(ns, r);
    forall e ensures e in inv <==> e in Logical(ns, contents) && Delegated(q, e) {
      assert e in inv <==> e in Members(inv);
    }
  }

  /** With values, the child's results, inverted and put through the naive part, are the query's
      results over what the namespace holds. */
  lemma SplitPreservesResults(ns: string, contents: set<Entry>, q: Query)
    requires Clean(ns, contents) && DelegableQuery(q)
    ensures WeakAll(ChildQuery(ns, q).orders) && UniqueKeys(Logical(ns, contents))
    ensures var found := Results(ChildQuery(ns, q), contents);
            && (forall e :: e in found ==> Below(ns, e.key))
            && UniqueKeys(Members(Inverted(ns, found)))
            && NaiveApply(NaiveQuery(q), Inverted(ns, found)) == Results(q, Logical(ns, contents))
            && (forall e :: e in Inverted(ns, found) ==> e in Logical(ns, contents) && Delegated(q, e))
  {
    var inv := InvertedResults(ns, contents, q);
    PagedOnce(ns, q, inv, Logical(ns, contents));
    PageHas(inv, ChildQuery(ns, q).offset, ChildQuery(ns, q).limit);
  }

  // ---- keys only ----

  /** The naive part decides the same on entries without values: every filter that it is given, on what
      the child delivers, and every order that it is given. */
  ghost predicate ValueBlind(q: Query) {
    && (FiltersPunted(q.filters) ==>
          forall e: Entry :: IsEntryKey(e.key) && Delegated(q, e) ==>
            PassesAll(q.filters, Bare(e)) == PassesAll(q.filters, e))
    && (OrdersPunted(q.orders) ==>
          forall a: Entry, b: Entry ::
            IsEntryKey(a.key) && IsEntryKey(b.key) && a.key != b.key && Accepts(q, a) && Accepts(q, b) ==>
            Before(q.orders, Bare(a), Bare(b)) == Before(q.orders, a, b))
  }

  lemma BareMembers(r: seq<Entry>)
    ensures forall e :: e in Bares(r) <==> exists x :: x in r && e == Bare(x)
    ensures UniqueKeys(Members(r)) ==> UniqueKeys(Members(Bares(r)))
  {
    forall e ensures e in Bares(r) <==> exists x :: x in r && e == Bare(x) {
      if e in Bares(r) {
        var i :| 0 <= i < |r| && Bares(r)[i] == e;
        assert r[i] in r;
      }
      if x :| x in r && e == Bare(x) {
        var i :| 0 <= i < |r| && r[i] == x;
        assert Bares(r)[i] == e;
      }
    }
    if UniqueKeys(Members(r)) {
      forall a, b | a in Members(Bares(r)) && b in Members(Bares(r)) && a.key == b.key ensures a == b {
        assert a in Bares(r) && b in Bares(r);
      }
    }
  }

  lemma {:induction false} InvertedBares(ns: string, r: seq<Entry>)
    requires forall e :: e in r ==> Below(ns, e.key)
    ensures forall e :: e in Bares(r) ==> Below(ns, e.key)
    ensures Inverted(ns, Bares(r)) == Bares(Inverted(ns, r))
  {
    BareMembers(r);
    InvertedAt(ns, r);
    InvertedAt(ns, Bares(r));
  }

  lemma {:induction false} SelectBares(fs: seq<Filter>, r: seq<Entry>)
    requires forall e :: e in r ==> PassesAll(fs, Bare(e)) == PassesAll(fs, e)
    ensures Select(fs, Bares(r)) == Bares(Select(fs, r))
    decreases |r|
  {
    if r != [] {
      assert Bares(r)[1..] == Bares(r[1..]);
      SelectBares(fs, r[1..]);
    }
  }

  lemma SortBares(os: seq<Order>, r: seq<Entry>)
    requires WeakAll(os) && UniqueKeys(Members(r))
    requires forall a, b :: a in r && b in r && a.key != b.key ==> Before(os, Bare(a), Bare(b)) == Before(os, a, b)
    ensures UniqueKeys(Members(Bares(r)))
    ensures SortBy(os, Members(Bares(r))) == Bares(SortBy(os, Members(r)))
  {
    BareMembers(r);
    var sorted := SortBy(os, Members(r));
    SortByIsSorted(os, Members(r));
    SortByIsSorted(os, Members(Bares(r)));
    BareMembers(sorted);
    assert forall e :: e in sorted <==> e in Members(sorted);
    forall i, j | 0 <= i < j < |sorted| ensures Before(os, Bares(sorted)[i], Bares(sorted)[j]) {
      assert sorted[i] in Members(r) && sorted[j] in Members(r);
      if sorted[i].key == sorted[j].key { BeforeIsAsymmetric(os, sorted[i], sorted[j]); }
    }
    assert Members(Bares(sorted)) == Members(Bares(r));
    SortedIsUnique(os, SortBy(os, Members(Bares(r))), Bares(sorted));
  }

  lemma PageBares(r: seq<Entry>, offset: nat, limit: nat)
    ensures Page(Bares(r), offset, limit) == Bares(Page(r, offset, limit))
  {
  }

  /** On entries that the child delivers, the naive part of a value-blind query can do without values. */
  lemma NaiveBares(q: Query, r: seq<Entry>)
    requires DelegableQuery(q) && UniqueKeys(Members(r)) && (Punted(q) ==> ValueBlind(q))
    requires forall e :: e in r ==> IsEntryKey(e.key) && Delegated(q, e)
    ensures UniqueKeys(Members(Bares(r)))
    ensures NaiveApply(NaiveQuery(q), Bares(r)) == Bares(NaiveApply(NaiveQuery(q), r))
  {
    var n := NaiveQuery(q);
    var kept := Select(n.filters, r);
    BareMembers(r);
    SelectMembers(n.filters, r);
    SelectMembers(n.filters, Bares(r));
    SelectBares(n.filters, r);
    if OrdersPunted(q.orders) {
      forall e | e in kept ensures Accepts(q, e) { }
      SortBares(q.orders, kept);
    }
    PageBares(if n.orders == [] then kept else SortBy(n.orders, Members(kept)), n.offset, n.limit);
  }

  // ---- the theorem ----

  /** The child's answer, inverted and put through the naive part, is the query's answer. */
  ghost predicate SplitIsFaithful(ns: string, contents: set<Entry>, q: Query)
    requires Clean(ns, contents) && WeakAll(q.orders)
  {
    ChildOrdersHaveNoFunction(q.orders);
    LogicalEntries(ns, contents);
    var answer := Eval(ChildQuery(ns, q), contents);
    && (forall e :: e in answer ==> Below(ns, e.key))
    && UniqueKeys(Members(Inverted(ns, answer)))
    && NaiveApply(NaiveQuery(q), Inverted(ns, answer)) == Eval(q, Logical(ns, contents))
  }

  /** The split preserves the query's meaning: the child's answer on its own keys, inverted and put
      through the naive part, is the query's answer over what the namespace holds. A query for keys
      only must not need values in its naive part. */
  lemma SplitPreservesMeaning(ns: string, contents: set<Entry>, q: Query)
    requires Clean(ns, contents) && DelegableQuery(q) && (q.keysOnly && Punted(q) ==> ValueBlind(q))
    ensures SplitIsFaithful(ns, contents, q)
  {
    SplitPreservesResults(ns, contents, q);
    if q.keysOnly {
      LogicalEntries(ns, contents);
      var found := Results(ChildQuery(ns, q), contents);
      InvertedBares(ns, found);
      NaiveBares(q, Inverted(ns, found));
    }
  }

  // ---- and no less than that will do ----

  function Lifted(ns: string, s: set<Entry>): set<Entry> { set e | e in s :: Lift(ns, e) }

  /** Whatever clean entries one wants to find in the namespace, some contents of the child hold them. */
  lemma LiftedShows(ns: string, s: set<Entry>)
    requires IsKey(ns) && UniqueKeys(s) && forall e :: e in s ==> IsEntryKey(e.key)
    ensures Clean(ns, Lifted(ns, s)) && Logical(ns, Lifted(ns, s)) == s
  {
    forall e | e in s
      ensures IsEntryKey(Lift(ns, e).key) && Below(ns, Lift(ns, e).key) && Lower(ns, Lift(ns, e)) == e
    {
      KeyShape(e.key);
      KeyShape(ns);
      ConvertedIsKey(ns, e.key);
      LiftThenLower(ns, e);
    }
    forall e | e in s ensures e in Logical(ns, Lifted(ns, s)) {
      assert Lift(ns, e) in Lifted(ns, s);
    }
  }

  lemma FirstOfTwo(os: seq<Order>, s: set<Entry>, a: Entry, b: Entry)
    requires WeakAll(os) && s == {a, b} && a.key != b.key && UniqueKeys(s)
    ensures |SortBy(os, s)| > 0 && SortBy(os, s)[0] == if Before(os, a, b) then a else b
  {
    var r := SortBy(os, s);
    SortByIsSorted(os, s);
    assert a in Members(r) && b in Members(r) && r[0] in Members(r);
    var i :| 0 <= i < |r| && r[i] == a;
    var j :| 0 <= j < |r| && r[j] == b;
    if Before(os, a, b) { BeforeIsAsymmetric(os, a, b); }
  }

  lemma ResultsEmptyIff(q: Query, s: set<Entry>)
    requires WeakAll(q.orders) && UniqueKeys(s) && q.offset == 0
    ensures Results(q, s) == [] <==> Accepted(q, s) == {}
  {
    SortByIsSorted(q.orders, Accepted(q, s));
  }

  lemma KeptEmptyIff(fs: seq<Filter>, r: seq<Entry>)
    ensures Select(fs, r) == [] <==> forall e :: e in r ==> !PassesAll(fs, e)
  {
    var kept := Select(fs, r);
    SelectMembers(fs, r);
    assert kept != [] ==> kept[0] in kept;
  }

  lemma SortedEmptyIff(os: seq<Order>, r: seq<Entry>)
    requires WeakAll(os) && UniqueKeys(Members(r))
    ensures SortBy(os, Members(r)) == [] <==> r == []
  {
    SortByIsSorted(os, Members(r));
    assert r != [] ==> r[0] in Members(r);
  }

  lemma NaiveEmptyIff(q: Query, r: seq<Entry>)
    requires WeakAll(q.orders) && UniqueKeys(Members(r)) && q.offset == 0
    ensures NaiveApply(q, r) == [] <==> forall e :: e in r ==> !PassesAll(q.filters, e)
  {
    SelectMembers(q.filters, r);
    KeptEmptyIff(q.filters, r);
    SortedEmptyIff(q.orders, Select(q.filters, r));
  }

  lemma FirstResult(q: Query, s: set<Entry>, a: Entry, b: Entry)
    requires WeakAll(q.orders) && UniqueKeys(s) && q.offset == 0
    requires Accepted(q, s) == {a, b} && a.key != b.key
    ensures Results(q, s) != [] && Results(q, s)[0] == if Before(q.orders, a, b) then a else b
  {
    FirstOfTwo(q.orders, {a, b}, a, b);
  }

  lemma FirstNaiveResult(q: Query, r: seq<Entry>, a: Entry, b: Entry)
    requires WeakAll(q.orders) && UniqueKeys(Members(r)) && q.offset == 0 && q.orders != []
    requires Members(r) == {a, b} && a.key != b.key && PassesAll(q.filters, a) && PassesAll(q.filters, b)
    ensures NaiveApply(q, r) != [] && NaiveApply(q, r)[0] == if Before(q.orders, a, b) then a else b
  {
    SelectMembers(q.filters, r);
    var kept := Select(q.filters, r);
    assert a in Members(r) && b in Members(r);
    assert forall e :: e in r <==> e in Members(r);
    assert Members(kept) == {a, b};
    FirstOfTwo(q.orders, {a, b}, a, b);
  }

  ghost predicate FaithfulOn(ns: string, s: set<Entry>, q: Query) {
    && Clean(ns, Lifted(ns, s)) && Logical(ns, Lifted(ns, s)) == s
    && WeakAll(q.orders) && SplitIsFaithful(ns, Lifted(ns, s), q)
  }

  /** What the child hands over of a punted query for keys only, on contents that show s. */
  lemma HandedOver(ns: string, q: Query, s: set<Entry>) returns (inv: seq<Entry>)
    requires DelegableQuery(q) && q.keysOnly && Punted(q) && FaithfulOn(ns, s, q)
    ensures UniqueKeys(s) && forall e :: e in inv <==> e in s && Delegated(q, e)
    ensures UniqueKeys(Members(Bares(inv))) && NaiveApply(NaiveQuery(q), Bares(inv)) == Bares(Results(q, s))
  {
    var contents := Lifted(ns, s);
    inv := InvertedResults(ns, contents, q);
    assert Page(inv, 0, 0) == inv;
    BareMembers(inv);
    InvertedBares(ns, Results(ChildQuery(ns, q), contents));
  }

  /** Faithful on the contents that show s, if there are any. */
  ghost predicate FaithfulIfShown(ns: string, s: set<Entry>, q: Query) {
    Clean(ns, Lifted(ns, s)) && Logical(ns, Lifted(ns, s)) == s ==> FaithfulOn(ns, s, q)
  }

  lemma ShownIsFaithful(ns: string, s: set<Entry>, q: Query)
    requires FaithfulIfShown(ns, s, q)
    requires IsKey(ns) && UniqueKeys(s) && forall e :: e in s ==> IsEntryKey(e.key)
    ensures FaithfulOn(ns, s, q)
  {
    LiftedShows(ns, s);
  }

  lemma FilterNeedsValue(ns: string, q: Query, s: set<Entry>, e: Entry)
    requires IsKey(ns) && DelegableQuery(q) && q.keysOnly && q.offset == 0 && FiltersPunted(q.filters)
    requires FaithfulIfShown(ns, s, q) && IsEntryKey(e.key) && Delegated(q, e) && forall x :: x in s <==> x == e
    ensures PassesAll(q.filters, Bare(e)) == PassesAll(q.filters, e)
  {
    ShownIsFaithful(ns, s, q);
    var inv := HandedOver(ns, q, s);
    SameEmptiness(q, NaiveQuery(q), s, inv, e);
  }

  lemma SameEmptiness(q: Query, n: Query, s: set<Entry>, r: seq<Entry>, e: Entry)
    requires WeakAll(q.orders) && WeakAll(n.orders) && UniqueKeys(s) && n.filters == q.filters
    requires n.offset == q.offset == 0
    requires Delegated(q, e) && (forall x :: x in s <==> x == e) && forall x :: x in r <==> x == e
    requires UniqueKeys(Members(Bares(r))) && NaiveApply(n, Bares(r)) == Bares(Results(q, s))
    ensures PassesAll(q.filters, Bare(e)) == PassesAll(q.filters, e)
  {
    BareMembers(r);
    NaiveEmptyIff(n, Bares(r));
    ResultsEmptyIff(q, s);
    assert e in r && Bare(e) in Bares(r);
    assert e in Accepted(q, s) <==> Accepts(q, e);
    assert Accepted(q, s) == {} <==> !Accepts(q, e);
    assert Accepts(q, e) ==> PassesAll(q.filters, e);
    assert PassesAll(q.filters, e) ==> Accepts(q, e);
  }

  lemma BaresOfTwo(r: seq<Entry>, a: Entry, b: Entry)
    requires forall e :: e in r <==> e == a || e == b
    ensures Members(Bares(r)) == {Bare(a), Bare(b)}
  {
    BareMembers(r);
    assert a in r && b in r;
  }

  lemma SameFirstSameOrder(q: Query, n: Query, s: set<Entry>, r: seq<Entry>, a: Entry, b: Entry)
    requires WeakAll(q.orders) && n.orders == q.orders != [] && n.offset == q.offset == 0 && a.key != b.key
    requires Members(Bares(r)) == {Bare(a), Bare(b)} && Accepted(q, s) == {a, b} && UniqueKeys(s)
    requires PassesAll(n.filters, Bare(a)) && PassesAll(n.filters, Bare(b))
    requires UniqueKeys(Members(Bares(r))) && NaiveApply(n, Bares(r)) == Bares(Results(q, s))
    ensures Before(q.orders, Bare(a), Bare(b)) == Before(q.orders, a, b)
  {
    var given, found := NaiveApply(n, Bares(r)), Results(q, s);
    FirstNaiveResult(n, Bares(r), Bare(a), Bare(b));
    FirstResult(q, s, a, b);
    assert given[0] == Bare(found[0]);
  }

  lemma TwoHandedOver(ns: string, q: Query, s: set<Entry>, a: Entry, b: Entry) returns (inv: seq<Entry>)
    requires DelegableQuery(q) && q.keysOnly && Punted(q) && Delegated(q, a) && Delegated(q, b)
    requires FaithfulIfShown(ns, s, q) && forall x :: x in s <==> x == a || x == b
    requires IsKey(ns) && IsEntryKey(a.key) && IsEntryKey(b.key) && a.key != b.key
    ensures UniqueKeys(s) && UniqueKeys(Members(Bares(inv))) && Members(Bares(inv)) == {Bare(a), Bare(b)}
    ensures NaiveApply(NaiveQuery(q), Bares(inv)) == Bares(Results(q, s))
  {
    ShownIsFaithful(ns, s, q);
    inv := HandedOver(ns, q, s);
    BaresOfTwo(inv, a, b);
  }

  lemma AcceptedOfTwo(q: Query, s: set<Entry>, a: Entry, b: Entry)
    requires Accepts(q, a) && Accepts(q, b) && forall x :: x in s <==> x == a || x == b
    ensures Accepted(q, s) == {a, b} && Delegated(q, a) && Delegated(q, b)
  {
  }

  lemma OrderNeedsValue(ns: string, q: Query, s: set<Entry>, a: Entry, b: Entry)
    requires IsKey(ns) && DelegableQuery(q) && q.keysOnly && q.offset == 0 && OrdersPunted(q.orders)
    requires FaithfulIfShown(ns, s, q) && forall x :: x in s <==> x == a || x == b
    requires IsEntryKey(a.key) && IsEntryKey(b.key) && a.key != b.key
    requires Accepts(q, a) && Accepts(q, b)
    requires FiltersPunted(q.filters) ==> PassesAll(q.filters, Bare(a)) && PassesAll(q.filters, Bare(b))
    ensures Before(q.orders, Bare(a), Bare(b)) == Before(q.orders, a, b)
  {
    AcceptedOfTwo(q, s, a, b);
    var inv := TwoHandedOver(ns, q, s, a, b);
    SameFirstSameOrder(q, NaiveQuery(q), s, inv, a, b);
  }

  lemma SameQueryElsewhere(q: Query, offset: nat)
    ensures var p := q.(offset := offset);
            && (DelegableQuery(p) <==> DelegableQuery(q)) && (ValueBlind(p) <==> ValueBlind(q))
  {
    var p := q.(offset := offset);
    assert forall e: Entry :: Delegated(p, e) == Delegated(q, e) && Accepts(p, e) == Accepts(q, e);
  }

  lemma FaithfulIsBlind(ns: string, q: Query)
    requires IsKey(ns) && DelegableQuery(q) && q.keysOnly && q.offset == 0 && Punted(q)
    requires forall s :: FaithfulIfShown(ns, s, q)
    ensures ValueBlind(q)
  {
    if FiltersPunted(q.filters) {
      forall e: Entry | IsEntryKey(e.key) && Delegated(q, e)
        ensures PassesAll(q.filters, Bare(e)) == PassesAll(q.filters, e)
      {
        FilterNeedsValue(ns, q, {e}, e);
      }
    }
    if OrdersPunted(q.orders) {
      forall a: Entry, b: Entry |
        IsEntryKey(a.key) && IsEntryKey(b.key) && a.key != b.key && Accepts(q, a) && Accepts(q, b)
        ensures Before(q.orders, Bare(a), Bare(b)) == Before(q.orders, a, b)
      {
        assert FiltersPunted(q.filters) ==> Delegated(q, a) && Delegated(q, b);
        OrderNeedsValue(ns, q, {a, b}, a, b);
      }
    }
  }

  /** A delegable query is answered faithfully on all contents and from every offset exactly when it is
      not for keys only, or nothing is punted, or what is punted does not look at values. */
  lemma SplitIsFaithfulIff(ns: string, q: Query)
    requires IsKey(ns) && DelegableQuery(q)
    ensures (forall contents, offset: nat :: Clean(ns, contents) ==>
               SplitIsFaithful(ns, contents, q.(offset := offset)))
            <==> (q.keysOnly && Punted(q) ==> ValueBlind(q))
  {
    if q.keysOnly && Punted(q) ==> ValueBlind(q) {
      forall contents, offset: nat | Clean(ns, contents)
        ensures SplitIsFaithful(ns, contents, q.(offset := offset))
      {
        SameQueryElsewhere(q, offset);
        SplitPreservesMeaning(ns, contents, q.(offset := offset));
      }
    } else if forall contents, offset: nat :: Clean(ns, contents) ==>
                SplitIsFaithful(ns, contents, q.(offset := offset)) {
      SameQueryElsewhere(q, 0);
      FaithfulIsBlind(ns, q.(offset := 0));
    }
  }
}
