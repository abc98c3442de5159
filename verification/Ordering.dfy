/** The byte-wise order on keys and values that the datastore sorts by. */
module Ordering {

  /** Strict lexicographic order. */
  predicate Less(a: string, b: string) {
    b != [] && (a == [] || a[0] < b[0] || (a[0] == b[0] && Less(a[1..], b[1..])))
  }

  lemma {:induction false} LessIsAsymmetric(a: string, b: string)
    requires Less(a, b)
    ensures !Less(b, a)
  {
    if a != [] && a[0] == b[0] {
      LessIsAsymmetric(a[1..], b[1..]);
    }
  }

  lemma LessIsIrreflexive(a: string)
    ensures !Less(a, a)
  {
    if Less(a, a) { LessIsAsymmetric(a, a); }
  }

  lemma {:induction false} LessIsTotal(a: string, b: string)
    ensures a == b || Less(a, b) || Less(b, a)
  {
    if a != [] && b != [] && a[0] == b[0] {
      LessIsTotal(a[1..], b[1..]);
      assert a == [a[0]] + a[1..] && b == [b[0]] + b[1..];
    }
  }

  lemma {:induction false} LessIsTransitive(a: string, b: string, c: string)
    requires Less(a, b) && Less(b, c)
    ensures Less(a, c)
  {
    if a != [] && a[0] == b[0] == c[0] {
      LessIsTransitive(a[1..], b[1..], c[1..]);
    }
  }

  /** Putting one prefix before two keys changes nothing about their order. */
  lemma {:induction false} LessUnderPrefix(p: string, a: string, b: string)
    ensures Less(p + a, p + b) == Less(a, b)
  {
    if p == [] {
      assert p + a == a && p + b == b;
    } else {
      assert (p + a)[1..] == p[1..] + a && (p + b)[1..] == p[1..] + b;
      LessUnderPrefix(p[1..], a, b);
    }
  }

  /** m is the least key of s. */
  ghost predicate IsLeast(m: string, s: set<string>) {
    m in s && forall x :: x in s && x != m ==> Less(m, x)
  }

  /** A non-empty set of keys has a least one. */
  lemma {:induction false} FindLeast(s: set<string>) returns (m: string)
    requires s != {}
    ensures IsLeast(m, s)
  {
    var x :| x in s;
    if s == {x} {
      return x;
    }
    m := FindLeast(s - {x});
    LessIsTotal(x, m);
    if Less(x, m) {
      forall y | y in s && y != x ensures Less(x, y) {
        if y != m { LessIsTransitive(x, m, y); }
      }
      m := x;
    }
  }

  /** The least key of a set: where an ascending iteration starts. */
  ghost function Least(s: set<string>): (m: string)
    requires s != {}
    ensures IsLeast(m, s)
  {
    assert exists m :: IsLeast(m, s) by { var m := FindLeast(s); }
    var m :| IsLeast(m, s);
    m
  }

  /** The keys of a set, in ascending order. */
  ghost function Ascending(s: set<string>): (r: seq<string>)
    ensures forall x :: x in r <==> x in s
  {
    if s == {} then [] else
      var m := Least(s);
      [m] + Ascending(s - {m})
  }

  lemma {:induction false} AscendingIsSorted(s: set<string>)
    ensures forall i, j :: 0 <= i < j < |Ascending(s)| ==> Less(Ascending(s)[i], Ascending(s)[j])
  {
    if s != {} {
      AscendingIsSorted(s - {Least(s)});
      var rest := Ascending(s - {Least(s)});
      assert forall i :: 0 <= i < |rest| ==> rest[i] in rest;
    }
  }

  lemma AscendingIsDistinct(s: set<string>)
    ensures forall i, j :: 0 <= i < j < |Ascending(s)| ==> Ascending(s)[i] != Ascending(s)[j]
  {
    AscendingIsSorted(s);
    forall i, j | 0 <= i < j < |Ascending(s)| ensures Ascending(s)[i] != Ascending(s)[j] {
      LessIsIrreflexive(Ascending(s)[i]);
    }
  }

  lemma LeastIsUnique(id: string, s: set<string>)
    requires IsLeast(id, s)
    ensures id == Least(s)
  {
    if id != Least(s) {
      LessIsAsymmetric(id, Least(s));
    }
  }
}
