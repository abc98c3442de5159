/** Queries over a namespace that are not answered as they should be. */
module QueryWitnesses {
  import opened Ordering
  import opened Keys
  import opened KeyOrder
  import opened Queries
  import opened QuerySplit

  lemma SlashIsCleaned()
    ensures NewKey("/a/") == "/a" && IsEntryKey("/a") && !IsKey("/a/")
  {
    JoinOne("a");
    assert Proper(["a"]);
    RenderIsKey(["a"]);
    SplitConcat("/a", "");
    assert "/a" + "/" + "" == "/a/";
    ResolveConcat([], Split("/a"), [""]);
    assert [""][1..] == [];
  }

  lemma SlashComesAfter()
    ensures Less("/a", "/a/") && !Less("/a/", "/a")
  {
    LessUnderPrefix("/a", "", "/");
    LessUnderPrefix("/a", "/", "");
    assert "/a" + "" == "/a" && "/a" + "/" == "/a/";
  }

  /** With a trailing slash no comparison and no prefix filter is delegated faithfully. */
  lemma TrailingSlashIsMisread(ns: string, op: Op)
    requires IsKey(ns)
    ensures !Delegable(op, "/a/") && !Faithful(ns, KeyCompare(op, "/a/")) && !Faithful(ns, KeyPrefix("/a/"))
  {
    SlashIsCleaned();
    SlashComesAfter();
    CompareIsFaithfulIff(ns, op, "/a/");
    PrefixIsFaithfulIff(ns, "/a/");
  }

  const A := Entry("/a", "x")

  function Seeking(seek: string): Query { Query("", [], [ByKey], 0, 0, false, seek) }

  lemma SeekingFindsIff()
    ensures Results(Seeking("/a"), {A}) != [] && Results(Seeking("/a/"), {A}) == []
  {
    NewKeyOfNothing();
    SlashComesAfter();
    LessIsIrreflexive("/a");
    ResultsEmptyIff(Seeking("/a"), {A});
    ResultsEmptyIff(Seeking("/a/"), {A});
    assert A in Accepted(Seeking("/a"), {A});
  }

  /** Two queries that look the same to the child are not both answered faithfully if they differ. */
  lemma OneChildAnswer(ns: string, contents: set<Entry>, p: Query, q: Query)
    requires Clean(ns, contents) && WeakAll(p.orders) && WeakAll(q.orders) && UniqueKeys(Logical(ns, contents))
    requires ChildQuery(ns, p) == ChildQuery(ns, q) && NaiveQuery(p) == NaiveQuery(q)
    requires Eval(p, Logical(ns, contents)) != Eval(q, Logical(ns, contents)) && SplitIsFaithful(ns, contents, p)
    ensures !SplitIsFaithful(ns, contents, q)
  {
  }

  lemma SameToTheChild(ns: string)
    ensures ChildQuery(ns, Seeking("/a/")) == ChildQuery(ns, Seeking("/a"))
    ensures DelegableQuery(Seeking("/a"))
  {
    SlashIsCleaned();
  }

  /** A seek with a trailing slash finds an entry that it should not. */
  lemma SeekWithSlashFindsMore(ns: string)
    requires IsKey(ns)
    ensures Clean(ns, Lifted(ns, {A})) && !SplitIsFaithful(ns, Lifted(ns, {A}), Seeking("/a/"))
  {
    SlashIsCleaned();
    LiftedShows(ns, {A});
    SeekingFindsIff();
    SameToTheChild(ns);
    SplitPreservesMeaning(ns, Lifted(ns, {A}), Seeking("/a"));
    OneChildAnswer(ns, Lifted(ns, {A}), Seeking("/a"), Seeking("/a/"));
  }

  /** A query for keys only is not answered faithfully on an entry whose value decides. */
  lemma ValueIsMissed(ns: string, q: Query, s: set<Entry>, e: Entry)
    requires IsKey(ns) && DelegableQuery(q) && q.keysOnly && q.offset == 0 && FiltersPunted(q.filters)
    requires IsEntryKey(e.key) && Delegated(q, e) && forall x :: x in s <==> x == e
    requires PassesAll(q.filters, Bare(e)) != PassesAll(q.filters, e)
    ensures Clean(ns, Lifted(ns, s)) && !SplitIsFaithful(ns, Lifted(ns, s), q)
  {
    LiftedShows(ns, s);
    if SplitIsFaithful(ns, Lifted(ns, s), q) {
      FilterNeedsValue(ns, q, s, e);
    }
  }

  /** Entries that hold a value, for their keys only. */
  function KeysOfSomething(): Query {
    Query("", [FilterFunction((e: Entry) => e.value != "")], [], 0, 0, true, "")
  }

  lemma ValueDecides()
    ensures var q := KeysOfSomething();
            && DelegableQuery(q) && FiltersPunted(q.filters) && Delegated(q, A)
            && PassesAll(q.filters, A) && !PassesAll(q.filters, Bare(A))
  {
    var q := KeysOfSomething();
    NewKeyOfNothing();
    assert q.filters[0].FilterFunction? && !Passes(q.filters[0], Bare(A));
  }

  /** A function filter that reads values finds nothing when only keys are asked for. */
  lemma KeysOnlyFindsLess(ns: string)
    requires IsKey(ns)
    ensures Clean(ns, Lifted(ns, {A})) && !SplitIsFaithful(ns, Lifted(ns, {A}), KeysOfSomething())
  {
    SlashIsCleaned();
    ValueDecides();
    ValueIsMissed(ns, KeysOfSomething(), {A}, A);
  }
}
