/** A datastore wrapped with a key prefix. Keys are transformed on the way in, so that reads and writes
    see a datastore of their own; only the extended query outside a transaction is not. */
module Namespace {
  import opened Keys
  import opened Queries
  import opened QuerySplit

  ghost predicate CleanMap(m: map<string, string>) {
    forall k :: k in m ==> IsEntryKey(k)
  }

  /** What the namespace holds of the child's contents. */
  ghost predicate Views(view: map<string, string>, ns: string, child: map<string, string>) {
    forall k :: IsEntryKey(k) ==>
      && (k in view <==> ConvertKey(ns, k) in child)
      && (k in view ==> view[k] == child[ConvertKey(ns, k)])
  }

  /** Neither key is, or is below, the other. */
  predicate Apart(ns: string, other: string) {
    ns != other && !Below(ns, other) && !Below(other, ns)
  }

  lemma ConvertIsInjective(ns: string, a: string, b: string)
    requires IsKey(ns) && IsEntryKey(a) && IsEntryKey(b) && ConvertKey(ns, a) == ConvertKey(ns, b)
    ensures a == b
  {
    InvertUndoesConvert(ns, a);
    InvertUndoesConvert(ns, b);
  }

  /** Keys of namespaces that lie apart never meet in the child. */
  lemma ApartNeverMeet(ns: string, other: string, a: string, b: string)
    requires IsKey(ns) && IsKey(other) && Apart(ns, other) && IsEntryKey(a) && IsEntryKey(b)
    ensures ConvertKey(ns, a) != ConvertKey(other, b)
  {
    InvertUndoesConvert(ns, a);
    InvertUndoesConvert(other, b);
    KeyShape(ns);
    KeyShape(other);
    TwoPrefixes(ns, other, ConvertKey(ns, a));
  }

  lemma TwoPrefixes(a: string, b: string, k: string)
    ensures a + "/" <= k && b + "/" <= k ==> a == b || a + "/" <= b || b + "/" <= a
  {
    if a + "/" <= k && b + "/" <= k {
      assert k[..|a|] == a && k[..|b|] == b;
      assert k[|a|] == '/' && k[|b|] == '/';
      assert k[..|a| + 1] == a + "/" && k[..|b| + 1] == b + "/";
    }
  }

  class Datastore {
    const ns: string
    var child: map<string, string>

    constructor (prefix: string, child: map<string, string>)
      ensures this.child == child && ns == NewKey(prefix) && IsKey(ns)
    {
      var prefixKey := Wrap(prefix);
      this.ns, this.child := prefixKey, child;
    }

    /** Putting a key puts it in the namespace's view and in no view apart from it; the root key is
        in no view. */
    method Put(key: string, value: string)
      requires IsKey(ns) && IsKey(key)
      modifies this
      ensures forall view :: Views(view, ns, old(child)) ==>
                Views(if key == "/" then view else view[key := value], ns, child)
      ensures forall view, other :: IsKey(other) && Apart(ns, other) && Views(view, other, old(child)) ==>
                Views(view, other, child)
      ensures CleanMap(old(child)) && !(ns == "/" && key == "/") ==> CleanMap(child)
    {
      child := child[ConvertKey(ns, key) := value];
      OnlyThisKey(ns, key);
      ConvertedIsKey(ns, key);
      KeyShape(ns);
      KeyShape(key);
    }

    method Delete(key: string)
      requires IsKey(ns) && IsKey(key)
      modifies this
      ensures forall view :: Views(view, ns, old(child)) ==>
                Views(if key == "/" then view else view - {key}, ns, child)
      ensures forall view, other :: IsKey(other) && Apart(ns, other) && Views(view, other, old(child)) ==>
                Views(view, other, child)
      ensures CleanMap(old(child)) ==> CleanMap(child)
    {
      child := child - {ConvertKey(ns, key)};
      OnlyThisKey(ns, key);
    }

    method Get(key: string) returns (found: bool, value: string)
      requires IsKey(ns) && IsKey(key)
      ensures key != "/" ==> forall view :: Views(view, ns, child) ==>
                (found <==> key in view) && (found ==> value == view[key])
    {
      var k := ConvertKey(ns, key);
      if k in child {
        return true, child[k];
      }
      return false, "";
    }
  }

  /** A key's transform is no other entry's key, in the namespace or in one apart from it. */
  lemma OnlyThisKey(ns: string, key: string)
    requires IsKey(ns) && IsKey(key)
    ensures forall k :: IsEntryKey(k) && ConvertKey(ns, k) == ConvertKey(ns, key) ==> k == key
    ensures forall k, other :: IsEntryKey(k) && IsKey(other) && Apart(ns, other) ==>
              ConvertKey(other, k) != ConvertKey(ns, key)
  {
    forall k | IsEntryKey(k) && ConvertKey(ns, k) == ConvertKey(ns, key) ensures k == key {
      if key == "/" {
        InvertUndoesConvert(ns, k);
        KeyShape(k);
      } else {
        ConvertIsInjective(ns, k, key);
      }
    }
    forall k, other | IsEntryKey(k) && IsKey(other) && Apart(ns, other)
      ensures ConvertKey(other, k) != ConvertKey(ns, key)
    {
      if key == "/" {
        InvertUndoesConvert(other, k);
      } else {
        ApartNeverMeet(ns, other, key, k);
      }
    }
  }

  // ---- the extended query outside a transaction ----

  /** The query goes to the child as it is, and so do the child's results. */
  ghost function QueryExtended(q: Query, contents: set<Entry>): seq<Entry>
    requires WeakAll(q.orders) && UniqueKeys(contents)
  {
    Eval(q, contents)
  }

  ghost predicate PassesThrough(ns: string, contents: set<Entry>, q: Query)
    requires Clean(ns, contents) && WeakAll(q.orders)
  {
    LogicalEntries(ns, contents);
    QueryExtended(q, contents) == Eval(q, Logical(ns, contents))
  }

  const EVERYTHING := Query("", [], [], 0, 0, false, "")

  lemma EverythingIsFound(s: set<Entry>)
    requires UniqueKeys(s)
    ensures Queries.Members(Eval(EVERYTHING, s)) == s
  {
    NewKeyOfNothing();
    assert Accepted(EVERYTHING, s) == s;
    SortByIsSorted([], s);
  }

  /** That answers for the namespace exactly when the namespace is everything there is. */
  lemma PassThroughIsFaithfulIff(ns: string)
    requires IsKey(ns)
    ensures (forall contents, q: Query :: Clean(ns, contents) && WeakAll(q.orders) ==> PassesThrough(ns, contents, q))
            <==> ns == "/"
  {
    if ns == "/" {
      forall contents, q: Query | Clean(ns, contents) && WeakAll(q.orders) ensures PassesThrough(ns, contents, q) {
        assert forall e :: e in contents ==> Lower(ns, e) == e;
        assert Logical(ns, contents) == contents;
      }
    } else {
      var e := Entry("/a", "");
      assert Join(["a"]) == "/a";
      RenderIsKey(["a"]);
      LiftedShows(ns, {e});
      EverythingIsFound({e});
      EverythingIsFound(Lifted(ns, {e}));
      KeyShape(ns);
      assert Lift(ns, e) in Lifted(ns, {e}) && Lift(ns, e) != e;
      assert !PassesThrough(ns, Lifted(ns, {e}), EVERYTHING);
    }
  }
}
