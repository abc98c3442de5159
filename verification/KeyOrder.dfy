/** Comparing clean keys with a string is not the same as comparing them with its cleaned form. */
module KeyOrder {
  import opened Ordering
  import opened Keys
  import opened Queries

  // ---- the least clean key from a string on ----

  /** A part that cleaning would take away. */
  predicate Bad(part: string) { part == "" || part == "." || part == ".." }

  function FirstBad(parts: seq<string>): (i: nat)
    ensures i <= |parts| && (i < |parts| ==> Bad(parts[i]))
    ensures forall j :: 0 <= j < i ==> !Bad(parts[j])
  {
    if parts == [] || Bad(parts[0]) then 0 else 1 + FirstBad(parts[1..])
  }

  /** Up to the first part that is not clean, and from there the least character that may follow. */
  function NextPath(parts: seq<string>): string {
    var i := FirstBad(parts);
    if i == |parts| then Join(parts)
    else Join(parts[..i]) + "/" + parts[i] + if i == |parts| - 1 then "\0" else "0"
  }

  /** The least clean key that is not below p, if there is one: what starts with something larger than
      a slash lies above all keys. */
  function NextKey(p: string): string {
    if p == "" || p[0] < '/' then "/\0"
    else if '/' < p[0] then p
    else NextPath(Split(p)[1..])
  }

  lemma Regroup(a: string, b: string, c: string, d: string)
    ensures a + (b + c + d) == a + b + c + d
    ensures a + (b + (c + d)) == a + b + c + d
  {
  }

  lemma JoinStep(s: seq<string>)
    requires s != []
    ensures Join(s) == "/" + s[0] + Join(s[1..])
  {
  }

  lemma JoinOne(part: string)
    ensures Join([part]) == "/" + part
  {
    JoinStep([part]);
    assert [part][1..] == [];
  }

  lemma {:induction false} JoinOfSplit(s: string)
    ensures Join(Split(s)) == "/" + s
  {
    if s != "" {
      JoinOfSplit(s[1..]);
      var r := Split(s[1..]);
      JoinStep(Split(s));
      if s[0] == '/' {
        assert ([""] + r)[1..] == r;
      } else {
        JoinStep(r);
        assert ([[s[0]] + r[0]] + r[1..])[1..] == r[1..];
        SameAfterSlash(r[0], Join(r[1..]), s[1..]);
        assert s == [s[0]] + s[1..];
      }
    }
  }

  lemma SameAfterSlash(a: string, b: string, c: string)
    requires "/" + a + b == "/" + c
    ensures a + b == c
  {
    assert ("/" + a + b)[1..] == a + b && ("/" + c)[1..] == c;
  }

  /** The parts of a rooted path, joined, are the path. */
  lemma RootedParts(p: string)
    requires p != "" && p[0] == '/'
    ensures Split(p)[1..] != [] && Join(Split(p)[1..]) == p
    ensures forall x :: x in Split(p)[1..] ==> '/' !in x
  {
    JoinOfSplit(p);
    var r := Split(p[1..]);
    assert Split(p) == [""] + r && ([""] + r)[1..] == r;
    JoinOfSplit(p[1..]);
    assert p == "/" + p[1..];
  }

  lemma JoinedIsEntryKey(stack: seq<string>)
    requires Proper(stack) && stack != []
    ensures IsEntryKey(Join(stack))
  {
    RenderIsKey(stack);
    JoinShape(stack);
  }

  lemma ProperExtension(part: string, x: string)
    requires '/' !in part && |x| == 1 && x != "/" && x != "."
    ensures Proper([part + x])
  {
    assert (part + x)[|part|] == x[0];
  }

  lemma ProperConcat(a: seq<string>, b: seq<string>)
    requires Proper(a) && Proper(b)
    ensures Proper(a + b)
  {
  }

  /** What comes before a part, the part, and what comes after it. */
  lemma JoinAt(parts: seq<string>, i: nat)
    requires i < |parts|
    ensures Join(parts) == Join(parts[..i]) + "/" + parts[i] + Join(parts[i + 1..])
  {
    var front, back := parts[..i], parts[i..];
    assert parts == front + back && back[0] == parts[i] && back[1..] == parts[i + 1..];
    JoinConcat(front, back);
    JoinStep(back);
    Regroup(Join(front), "/", parts[i], Join(parts[i + 1..]));
  }

  lemma PartExtended(stack: seq<string>, part: string, x: string)
    requires Proper(stack) && '/' !in part && |x| == 1 && x != "/" && x != "."
    ensures IsEntryKey(Join(stack) + "/" + part + x)
  {
    JoinConcat(stack, [part + x]);
    JoinOne(part + x);
    Regroup(Join(stack), "/", part, x);
    ProperExtension(part, x);
    ProperConcat(stack, [part + x]);
    JoinedIsEntryKey(stack + [part + x]);
  }

  lemma NextPathIsKey(parts: seq<string>)
    requires parts != [] && forall x :: x in parts ==> '/' !in x
    ensures IsEntryKey(NextPath(parts))
  {
    var i := FirstBad(parts);
    if i == |parts| {
      JoinedIsEntryKey(parts);
    } else {
      assert parts[i] in parts;
      PartExtended(parts[..i], parts[i], if i == |parts| - 1 then "\0" else "0");
    }
  }

  lemma NextKeyIsKey(p: string)
    requires p == "" || p[0] <= '/'
    ensures IsEntryKey(NextKey(p))
  {
    if p == "" || p[0] < '/' {
      assert Join(["\0"]) == "/\0";
      JoinedIsEntryKey(["\0"]);
    } else {
      RootedParts(p);
      NextPathIsKey(Split(p)[1..]);
    }
  }

  /** No part of a clean key is bad. */
  lemma PartsAreGood(k: string)
    requires IsEntryKey(k)
    ensures forall i :: 1 <= i < |Split(k)| ==> !Bad(Split(k)[i])
  {
    NewKeyIsKey(k);
    var stack := Resolve([], Split(k));
    SplitJoin(stack);
    assert Split(k) == [""] + stack;
    assert forall i :: 1 <= i < |Split(k)| ==> Split(k)[i] in stack;
  }

  lemma NoBadPart(k: string, a: string, part: string, b: string)
    requires IsEntryKey(k) && Bad(part)
    ensures k != a + "/" + part && k != a + "/" + part + "/" + b
  {
    PartsAreGood(k);
    SplitConcat(a, part);
    SplitConcat(a + "/" + part, b);
    SplitPart(part);
    assert (Split(a) + [part])[|Split(a)|] == part;
    assert (Split(a) + [part] + Split(b))[|Split(a)|] == part;
  }

  /** In a clean key a bad part goes on, and not with a slash. */
  lemma BadPartGoesOn(a: string, part: string, t: string)
    requires IsEntryKey(a + "/" + part + t) && Bad(part)
    ensures t != "" && t[0] != '/'
  {
    var u := if t == "" then "" else t[1..];
    assert t != "" && t[0] == '/' ==> t == "/" + u;
    assert t == "/" + u ==> a + "/" + part + t == a + "/" + part + "/" + u;
    assert t == "" ==> a + "/" + part + t == a + "/" + part;
    NoBadPart(a + "/" + part + t, a, part, u);
  }

  /** Only what two strings start with matters for a third that does not start that way. */
  lemma {:induction false} LessThanEither(k: string, stem: string, x: string, y: string)
    requires !(stem <= k)
    ensures Less(k, stem + x) == Less(k, stem + y)
  {
    if k != "" && k[0] == stem[0] {
      assert (stem + x)[1..] == stem[1..] + x && (stem + y)[1..] == stem[1..] + y;
      LessThanEither(k[1..], stem[1..], x, y);
    }
  }

  /** Every clean key that is not below p is not below the next key either. */
  lemma NextKeyIsLeast(p: string, k: string)
    requires (p == "" || p[0] <= '/') && IsEntryKey(k)
    ensures !Less(NextKey(p), p)
    ensures !Less(k, p) ==> !Less(k, NextKey(p))
  {
    if p == "" || p[0] < '/' {
      KeyShape(k);
      LessUnderPrefix("/", k[1..], "\0");
      assert "/" + k[1..] == k && "/" + "\0" == "/\0";
    } else {
      RootedParts(p);
      NextPathIsLeast(Split(p)[1..], k);
    }
  }

  lemma NextPathIsLeast(parts: seq<string>, k: string)
    requires IsEntryKey(k)
    ensures !Less(NextPath(parts), Join(parts))
    ensures !Less(k, Join(parts)) ==> !Less(k, NextPath(parts))
  {
    var i := FirstBad(parts);
    if i == |parts| {
      LessIsIrreflexive(Join(parts));
    } else {
      JoinAt(parts, i);
      NextAfterBad(k, Join(parts[..i]), parts[i], Join(parts[i + 1..]));
    }
  }

  lemma NextAfterBad(k: string, a: string, part: string, rest: string)
    requires IsEntryKey(k) && Bad(part) && (rest == "" || rest[0] == '/')
    ensures var stem := a + "/" + part;
            var next := stem + if rest == "" then "\0" else "0";
            !Less(next, stem + rest) && (!Less(k, stem + rest) ==> !Less(k, next))
  {
    var stem := a + "/" + part;
    var x := if rest == "" then "\0" else "0";
    LessUnderPrefix(stem, x, rest);
    if stem <= k {
      var t := k[|stem|..];
      assert k == stem + t;
      LessUnderPrefix(stem, t, rest);
      LessUnderPrefix(stem, t, x);
      BadPartGoesOn(a, part, t);
    } else {
      LessThanEither(k, stem, rest, x);
    }
  }

  // ---- the next key after a clean one ----

  lemma ExtendedIsKey(c: string)
    requires IsKey(c)
    ensures IsEntryKey(c + "\0") && Less(c, c + "\0")
  {
    NewKeyIsKey(c);
    var stack := Resolve([], Split(c));
    LessUnderPrefix(c, "", "\0");
    assert c + "" == c;
    if stack == [] {
      assert Join(["\0"]) == "/\0";
      JoinedIsEntryKey(["\0"]);
    } else {
      LastPartExtended(stack);
    }
  }

  lemma LastPartExtended(stack: seq<string>)
    requires Proper(stack) && stack != []
    ensures IsEntryKey(Join(stack) + "\0")
  {
    var n := |stack| - 1;
    JoinAt(stack, n);
    assert stack[n + 1..] == [];
    ProperFront(stack);
    PartExtended(stack[..n], stack[n], "\0");
    assert Join(stack) + "\0" == Join(stack[..n]) + "/" + stack[n] + "\0";
  }

  lemma ProperFront(stack: seq<string>)
    requires Proper(stack) && stack != []
    ensures Proper(stack[..|stack| - 1]) && '/' !in stack[|stack| - 1]
  {
    var n := |stack| - 1;
    assert stack[n] in stack;
    forall p | p in stack[..n] ensures p in stack {
      var i :| 0 <= i < n && stack[..n][i] == p;
      assert stack[i] == p;
    }
  }

  lemma {:induction false} NothingBetween(c: string, p: string)
    requires Less(c, p)
    ensures !Less(p, c + "\0")
  {
    if c != "" && c[0] == p[0] {
      assert (c + "\0")[1..] == c[1..] + "\0";
      NothingBetween(c[1..], p[1..]);
    }
  }

  lemma RootIsLeast(k: string)
    requires Inside(k)
    ensures Less("/", k) && !Less(k, "/")
  {
    assert "/"[1..] == "" && k[1..] != "";
  }

  /** What is left of a clean key below another is clean. */
  lemma InvertedIsKey(ns: string, k: string)
    requires IsKey(ns) && IsEntryKey(k) && Below(ns, k)
    ensures IsEntryKey(InvertKey(ns, k))
  {
    if ns != "/" {
      var u := k[|ns| + 1..];
      assert k == ns + "/" + u && InvertKey(ns, k) == "/" + u;
      RestIsKey(k, ns, u);
    }
  }

  /** A clean key cut after a slash. */
  lemma RestIsKey(k: string, a: string, u: string)
    requires IsEntryKey(k) && k == a + "/" + u
    ensures IsEntryKey("/" + u)
  {
    PartsAreGood(k);
    SplitConcat(a, u);
    GoodPartsAreProper(Split(a), Split(u));
    JoinOfSplit(u);
    JoinedIsEntryKey(Split(u));
  }

  lemma GoodPartsAreProper(a: seq<string>, b: seq<string>)
    requires |a| > 0 && (forall i :: 1 <= i < |a + b| ==> !Bad((a + b)[i])) && forall p :: p in b ==> '/' !in p
    ensures Proper(b)
  {
    forall p | p in b ensures !Bad(p) {
      var i :| 0 <= i < |b| && b[i] == p;
      assert (a + b)[|a| + i] == p;
    }
  }

  // ---- when cleaning makes no difference ----

  /** Comparing any clean key with p gives what comparing it with p's cleaned form does. */
  ghost predicate Agrees(op: Op, p: string) {
    forall k :: IsEntryKey(k) ==> Compares(op, k, NewKey(p)) == Compares(op, k, p)
  }

  /** p is clean; or every clean key compares one way with both; or no clean key lies between. */
  predicate Delegable(op: Op, p: string) {
    var c := NewKey(p);
    IsKey(p) ||
    match op
    case Equal => c == "/"
    case NotEqual => c == "/"
    case GreaterThan => c == "/" && Less(p, "/")
    case LessThanOrEqual => c == "/" && Less(p, "/")
    case GreaterThanOrEqual => if c == "/" then Less(p, "/") else Less(p, c) && !Less(NextKey(p), c)
    case LessThan => if c == "/" then Less(p, "/") else Less(p, c) && !Less(NextKey(p), c)
  }

  /** Both inclusive comparisons are the negation of a strict one. */
  lemma InclusiveIsNegated(a: string, b: string)
    ensures Compares(GreaterThanOrEqual, a, b) == !Less(a, b)
    ensures Compares(LessThanOrEqual, a, b) == !Less(b, a)
  {
    LessIsTotal(a, b);
    LessIsIrreflexive(a);
    if Less(a, b) { LessIsAsymmetric(a, b); }
  }

  lemma EqualAgreesIff(p: string)
    ensures Agrees(Equal, p) <==> Delegable(Equal, p)
    ensures Agrees(NotEqual, p) <==> Delegable(NotEqual, p)
  {
    var c := NewKey(p);
    NewKeyIsKey(p);
    if !IsKey(p) && c != "/" {
      assert Compares(Equal, c, c) && !Compares(Equal, c, p);
      assert !Compares(NotEqual, c, c) && Compares(NotEqual, c, p);
    }
  }

  lemma AboveAgreesIff(p: string)
    ensures (forall k :: IsEntryKey(k) ==> Less(NewKey(p), k) == Less(p, k)) <==> Delegable(GreaterThan, p)
  {
    var c := NewKey(p);
    NewKeyIsKey(p);
    if IsKey(p) {
    } else if Less(p, c) {
      if c == "/" {
        forall k | IsEntryKey(k) ensures Less(c, k) && Less(p, k) {
          KeyShape(k);
          RootIsLeast(k);
          LessIsTransitive(p, "/", k);
        }
      } else {
        LessIsIrreflexive(c);
        assert IsEntryKey(c);
      }
    } else {
      LessIsTotal(p, c);
      ExtendedIsKey(c);
      NothingBetween(c, p);
      assert Less(c, c + "\0") && !Less(p, c + "\0");
    }
  }

  lemma FromAgreesIff(p: string)
    ensures (forall k :: IsEntryKey(k) ==> Less(k, NewKey(p)) == Less(k, p)) <==> Delegable(LessThan, p)
  {
    var c := NewKey(p);
    NewKeyIsKey(p);
    LessIsTotal(p, c);
    if IsKey(p) {
    } else if c == "/" {
      FromRootAgreesIff(p);
    } else if Less(c, p) {
      LessIsAsymmetric(c, p);
      LessIsIrreflexive(c);
      assert IsEntryKey(c);
    } else {
      BelowCleanedAgreesIff(p, c);
    }
  }

  lemma FromRootAgreesIff(p: string)
    requires !IsKey(p)
    ensures (forall k :: IsEntryKey(k) ==> Less(k, "/") == Less(k, p)) <==> Less(p, "/")
  {
    RenderIsKey([]);
    if Less(p, "/") {
      forall k | IsEntryKey(k) ensures !Less(k, "/") && !Less(k, p) {
        KeyShape(k);
        RootIsLeast(k);
        if Less(k, p) { LessIsTransitive(k, p, "/"); }
      }
    } else {
      LessIsTotal(p, "/");
      ExtendedIsKey("/");
      assert "/" + "\0" == "/\0";
      NothingBetween("/", p);
      LessIsTotal("/\0", p);
      RootIsLeast("/\0");
      assert Less("/\0", p) && !Less("/\0", "/");
    }
  }

  lemma BelowCleanedAgreesIff(p: string, c: string)
    requires Less(p, c) && IsEntryKey(c)
    ensures (forall k :: IsEntryKey(k) ==> Less(k, c) == Less(k, p)) <==> !Less(NextKey(p), c)
  {
    KeyShape(c);
    var n := NextKey(p);
    NextKeyIsKey(p);
    NextKeyIsLeast(p, n);
    if !Less(n, c) {
      forall k | IsEntryKey(k) ensures Less(k, c) == Less(k, p) {
        NextKeyIsLeast(p, k);
        if Less(k, p) { LessIsTransitive(k, p, c); }
        if Less(k, c) && !Less(k, p) {
          LessIsTotal(k, n);
          if k != n { LessIsTransitive(n, k, c); }
        }
      }
    }
  }

  /** Operator by operator, cleaning the key makes no difference exactly when it is delegable. */
  lemma AgreesIff(op: Op, p: string)
    ensures Agrees(op, p) <==> Delegable(op, p)
  {
    match op {
      case Equal => EqualAgreesIff(p);
      case NotEqual => EqualAgreesIff(p);
      case GreaterThan => AboveAgreesIff(p);
      case LessThan => FromAgreesIff(p);
      case LessThanOrEqual =>
        AboveAgreesIff(p);
        NegatedAgree(p);
      case GreaterThanOrEqual =>
        FromAgreesIff(p);
        NegatedAgree(p);
    }
  }

  lemma NegatedAgree(p: string)
    ensures Agrees(LessThanOrEqual, p) <==> Agrees(GreaterThan, p)
    ensures Agrees(GreaterThanOrEqual, p) <==> Agrees(LessThan, p)
  {
    forall k
      ensures Compares(LessThanOrEqual, k, NewKey(p)) == !Compares(GreaterThan, k, NewKey(p))
      ensures Compares(LessThanOrEqual, k, p) == !Compares(GreaterThan, k, p)
      ensures Compares(GreaterThanOrEqual, k, NewKey(p)) == !Compares(LessThan, k, NewKey(p))
      ensures Compares(GreaterThanOrEqual, k, p) == !Compares(LessThan, k, p)
    {
      InclusiveIsNegated(k, NewKey(p));
      InclusiveIsNegated(k, p);
    }
  }
}
