/** The datastore's query semantics: filter, sort with a key tie-break, offset, limit. */
module Queries {
  import opened Ordering
  import opened Keys

  datatype Entry = Entry(key: string, value: string)

  /** A function order says whether its first argument goes strictly before the second. */
  datatype Order =
    | ByKey
    | ByKeyDescending
    | ByValue
    | ByValueDescending
    | ByFunction(before: (Entry, Entry) -> bool)

  datatype Op = Equal | NotEqual | GreaterThan | GreaterThanOrEqual | LessThan | LessThanOrEqual

  datatype Filter =
    | ValueCompare(op: Op, value: string)
    | KeyCompare(op: Op, key: string)
    | KeyPrefix(prefix: string)
    | FilterFunction(keep: Entry -> bool)

  /** No limit is a limit of zero; an empty seek prefix seeks nothing. A query for keys only gives
      entries without values. */
  datatype Query = Query(prefix: string, filters: seq<Filter>, orders: seq<Order>,
                         limit: nat, offset: nat, keysOnly: bool, seek: string)

  predicate Compares(op: Op, a: string, b: string) {
    match op
    case Equal => a == b
    case NotEqual => a != b
    case GreaterThan => Less(b, a)
    case GreaterThanOrEqual => a == b || Less(b, a)
    case LessThan => Less(a, b)
    case LessThanOrEqual => a == b || Less(a, b)
  }

  predicate Passes(f: Filter, e: Entry) {
    match f
    case ValueCompare(op, value) => Compares(op, e.value, value)
    case KeyCompare(op, key) => Compares(op, e.key, key)
    case KeyPrefix(prefix) => prefix <= e.key
    case FilterFunction(keep) => keep(e)
  }

  predicate PassesAll(fs: seq<Filter>, e: Entry) {
    forall i :: 0 <= i < |fs| ==> Passes(fs[i], e)
  }

  /** Iteration runs downwards when the first order is by descending key, and upwards otherwise; a
      seek starts it at the nearest key. */
  predicate Sought(q: Query, e: Entry) {
    || q.seek == ""
    || (if q.orders != [] && q.orders[0].ByKeyDescending? then !Less(q.seek, e.key) else !Less(e.key, q.seek))
  }

  predicate Accepts(q: Query, e: Entry) {
    Below(NewKey(q.prefix), e.key) && PassesAll(q.filters, e) && Sought(q, e)
  }

  predicate Precedes(o: Order, a: Entry, b: Entry) {
    match o
    case ByKey => Less(a.key, b.key)
    case ByKeyDescending => Less(b.key, a.key)
    case ByValue => Less(a.value, b.value)
    case ByValueDescending => Less(b.value, a.value)
    case ByFunction(before) => before(a, b)
  }

  /** The orders one after the other, and the key in the end. */
  predicate Before(os: seq<Order>, a: Entry, b: Entry) {
    if os == [] then Less(a.key, b.key)
    else Precedes(os[0], a, b) || (!Precedes(os[0], b, a) && Before(os[1..], a, b))
  }

  /** A function order must be a strict weak order for sorting by it to mean anything. */
  ghost predicate Weak(o: Order) {
    o.ByFunction? ==>
      && (forall a, b :: !(o.before(a, b) && o.before(b, a)))
      && (forall a, b, c :: o.before(a, c) ==> o.before(a, b) || o.before(b, c))
  }

  ghost predicate WeakAll(os: seq<Order>) {
    forall o :: o in os ==> Weak(o)
  }

  ghost predicate UniqueKeys(s: set<Entry>) {
    forall a, b :: a in s && b in s && a.key == b.key ==> a == b
  }

  // ---- sorting ----

  lemma PrecedesIsWeak(o: Order, a: Entry, b: Entry, c: Entry)
    requires Weak(o)
    ensures !(Precedes(o, a, b) && Precedes(o, b, a))
    ensures Precedes(o, a, c) ==> Precedes(o, a, b) || Precedes(o, b, c)
  {
    if !o.ByFunction? {
      var x := if o.ByKey? || o.ByKeyDescending? then a.key else a.value;
      var y := if o.ByKey? || o.ByKeyDescending? then b.key else b.value;
      var z := if o.ByKey? || o.ByKeyDescending? then c.key else c.value;
      LessIsWeak(x, y, z);
      LessIsWeak(z, y, x);
    }
  }

  lemma LessIsWeak(x: string, y: string, z: string)
    ensures !(Less(x, y) && Less(y, x))
    ensures Less(x, z) ==> Less(x, y) || Less(y, z)
  {
    if Less(x, y) { LessIsAsymmetric(x, y); }
    LessIsTotal(x, y);
    if Less(x, z) && Less(y, x) { LessIsTransitive(y, x, z); }
  }

  lemma {:induction false} BeforeIsAsymmetric(os: seq<Order>, a: Entry, b: Entry)
    requires WeakAll(os) && Before(os, a, b)
    ensures !Before(os, b, a)
    decreases |os|
  {
    if os == [] {
      LessIsAsymmetric(a.key, b.key);
    } else {
      PrecedesIsWeak(os[0], a, b, a);
      if !Precedes(os[0], a, b) { BeforeIsAsymmetric(os[1..], a, b); }
    }
  }

  lemma {:induction false} BeforeIsTotal(os: seq<Order>, a: Entry, b: Entry)
    requires a.key != b.key
    ensures Before(os, a, b) || Before(os, b, a)
    decreases |os|
  {
    if os == [] {
      LessIsTotal(a.key, b.key);
    } else {
      BeforeIsTotal(os[1..], a, b);
    }
  }

  lemma {:induction false} BeforeIsTransitive(os: seq<Order>, a: Entry, b: Entry, c: Entry)
    requires WeakAll(os) && Before(os, a, b) && Before(os, b, c)
    ensures Before(os, a, c)
    decreases |os|
  {
    if os == [] {
      LessIsTransitive(a.key, b.key, c.key);
    } else {
      var o := os[0];
      PrecedesIsWeak(o, a, b, c);
      PrecedesIsWeak(o, b, c, a);
      PrecedesIsWeak(o, b, a, c);
      PrecedesIsWeak(o, a, c, b);
      PrecedesIsWeak(o, c, b, a);
      if !Precedes(o, a, b) && !Precedes(o, b, c) { BeforeIsTransitive(os[1..], a, b, c); }
    }
  }

  ghost predicate IsFirst(os: seq<Order>, m: Entry, s: set<Entry>) {
    m in s && forall e :: e in s && e != m ==> Before(os, m, e)
  }

  lemma {:induction false} FindFirst(os: seq<Order>, s: set<Entry>) returns (m: Entry)
    requires WeakAll(os) && UniqueKeys(s) && s != {}
    ensures IsFirst(os, m, s)
    decreases |s|
  {
    var x :| x in s;
    if s == {x} {
      return x;
    }
    m := FindFirst(os, s - {x});
    BeforeIsTotal(os, x, m);
    if Before(os, x, m) {
      forall e | e in s && e != x ensures Before(os, x, e) {
        if e != m { BeforeIsTransitive(os, x, m, e); }
      }
      m := x;
    }
  }

  /** The entries in the order of the orders. */
  ghost function SortBy(os: seq<Order>, s: set<Entry>): seq<Entry>
    requires WeakAll(os) && UniqueKeys(s)
    decreases |s|
  {
    if s == {} then [] else
      assert exists m :: IsFirst(os, m, s) by { var m := FindFirst(os, s); }
      var m :| IsFirst(os, m, s);
      [m] + SortBy(os, s - {m})
  }

  ghost predicate Sorted(os: seq<Order>, r: seq<Entry>) {
    forall i, j :: 0 <= i < j < |r| ==> Before(os, r[i], r[j])
  }

  function Members(r: seq<Entry>): set<Entry> { set e | e in r }

  lemma {:induction false} SortByIsSorted(os: seq<Order>, s: set<Entry>)
    requires WeakAll(os) && UniqueKeys(s)
    ensures Sorted(os, SortBy(os, s)) && Members(SortBy(os, s)) == s
    decreases |s|
  {
    if s != {} {
      var r := SortBy(os, s);
      SortByIsSorted(os, s - {r[0]});
      var rest := SortBy(os, s - {r[0]});
      assert r == [r[0]] + rest;
      assert forall e :: e in r <==> e == r[0] || e in rest;
      assert Members(r) == {r[0]} + Members(rest);
      assert forall i :: 0 <= i < |rest| ==> rest[i] in Members(rest);
    }
  }

  /** A sorted sequence is determined by its members. */
  lemma {:induction false} SortedIsUnique(os: seq<Order>, a: seq<Entry>, b: seq<Entry>)
    requires WeakAll(os) && Sorted(os, a) && Sorted(os, b) && Members(a) == Members(b)
    ensures a == b
    decreases |a|
  {
    assert b != [] ==> b[0] in Members(b);
    if a != [] {
      assert a[0] in Members(a);
      assert b != [];
      HeadsAgree(os, a, b);
      TailMembers(os, a);
      TailMembers(os, b);
      SortedIsUnique(os, a[1..], b[1..]);
      assert a == [a[0]] + a[1..] && b == [b[0]] + b[1..];
    }
  }

  lemma HeadsAgree(os: seq<Order>, a: seq<Entry>, b: seq<Entry>)
    requires WeakAll(os) && Sorted(os, a) && Sorted(os, b) && Members(a) == Members(b) && a != [] && b != []
    ensures a[0] == b[0]
  {
    assert a[0] in Members(b) && b[0] in Members(a);
    var i :| 0 <= i < |b| && b[i] == a[0];
    var j :| 0 <= j < |a| && a[j] == b[0];
    if Before(os, b[0], a[0]) { BeforeIsAsymmetric(os, b[0], a[0]); }
  }

  lemma TailMembers(os: seq<Order>, a: seq<Entry>)
    requires WeakAll(os) && Sorted(os, a) && a != []
    ensures Members(a[1..]) == Members(a) - {a[0]}
  {
    forall e | e in a[1..] ensures e != a[0] && e in a {
      var i :| 0 <= i < |a[1..]| && a[1..][i] == e;
      assert Before(os, a[0], a[i + 1]);
      if a[0] == e { BeforeIsAsymmetric(os, e, e); }
    }
    assert a == [a[0]] + a[1..];
  }

  // ---- queries ----

  function Page(r: seq<Entry>, offset: nat, limit: nat): seq<Entry> {
    var rest := if offset < |r| then r[offset..] else [];
    if limit != 0 && limit < |rest| then rest[..limit] else rest
  }

  function Accepted(q: Query, s: set<Entry>): set<Entry> {
    set e | e in s && Accepts(q, e)
  }

  function Bare(e: Entry): Entry { e.(value := "") }

  function Bares(r: seq<Entry>): (b: seq<Entry>)
    ensures |b| == |r| && forall i :: 0 <= i < |r| ==> b[i] == Bare(r[i])
  {
    seq(|r|, i requires 0 <= i < |r| => Bare(r[i]))
  }

  ghost function Results(q: Query, s: set<Entry>): seq<Entry>
    requires WeakAll(q.orders) && UniqueKeys(s)
  {
    Page(SortBy(q.orders, Accepted(q, s)), q.offset, q.limit)
  }

  /** What a datastore with contents s answers. */
  ghost function Eval(q: Query, s: set<Entry>): seq<Entry>
    requires WeakAll(q.orders) && UniqueKeys(s)
  {
    if q.keysOnly then Bares(Results(q, s)) else Results(q, s)
  }

  function Select(fs: seq<Filter>, r: seq<Entry>): seq<Entry> {
    if r == [] then [] else (if PassesAll(fs, r[0]) then [r[0]] else []) + Select(fs, r[1..])
  }

  /** The naive evaluation of a query over results in some order: it only sorts when told to, and
      leaves the values alone. */
  ghost function NaiveApply(q: Query, r: seq<Entry>): seq<Entry>
    requires WeakAll(q.orders) && UniqueKeys(Members(r))
  {
    var kept := Select(q.filters, r);
    SelectMembers(q.filters, r);
    var sorted := if q.orders == [] then kept else SortBy(q.orders, Members(kept));
    Page(sorted, q.offset, q.limit)
  }

  lemma {:induction false} SelectMembers(fs: seq<Filter>, r: seq<Entry>)
    ensures forall e :: e in Select(fs, r) <==> e in r && PassesAll(fs, e)
    decreases |r|
  {
    if r != [] {
      SelectMembers(fs, r[1..]);
      assert forall e :: e in r <==> e == r[0] || e in r[1..];
    }
  }

  lemma {:induction false} SelectIsSorted(os: seq<Order>, fs: seq<Filter>, r: seq<Entry>)
    requires Sorted(os, r)
    ensures Sorted(os, Select(fs, r))
    decreases |r|
  {
    if r != [] {
      SelectIsSorted(os, fs, r[1..]);
      SelectMembers(fs, r[1..]);
      var rest := Select(fs, r[1..]);
      forall i | 0 <= i < |rest| ensures Before(os, r[0], rest[i]) {
        assert rest[i] in rest;
        var j :| 0 <= j < |r[1..]| && r[1..][j] == rest[i];
        assert Before(os, r[0], r[j + 1]);
      }
    }
  }
}
