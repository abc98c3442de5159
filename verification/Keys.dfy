/** Datastore keys: rooted, slash-separated paths in clean form. */
module Keys {

  // ---- cleaning ----

  /** The parts of a path between its slashes. */
  function Split(s: string): (r: seq<string>)
    ensures |r| > 0 && forall p :: p in r ==> '/' !in p
  {
    if s == "" then [""]
    else
      var r := Split(s[1..]);
      if s[0] == '/' then [""] + r else [[s[0]] + r[0]] + r[1..]
  }

  /** Empty parts and dots go away, and a double dot takes the part before it along. */
  function Push(stack: seq<string>, part: string): seq<string> {
    if part == "" || part == "." then stack
    else if part == ".." then (if stack == [] then [] else stack[..|stack| - 1])
    else stack + [part]
  }

  function Resolve(stack: seq<string>, parts: seq<string>): seq<string>
    decreases |parts|
  {
    if parts == [] then stack else Resolve(Push(stack, parts[0]), parts[1..])
  }

  function Join(stack: seq<string>): string {
    if stack == [] then "" else "/" + stack[0] + Join(stack[1..])
  }

  function Render(stack: seq<string>): string {
    if stack == [] then "/" else Join(stack)
  }

  /** The clean key of any string. */
  function NewKey(s: string): string { Render(Resolve([], Split(s))) }

  predicate IsKey(k: string) { NewKey(k) == k }

  /** Clean, and not the root. */
  predicate IsEntryKey(k: string) { IsKey(k) && k != "/" }

  /** Rooted, and not the root. */
  predicate Inside(k: string) { |k| > 1 && k[0] == '/' }

  predicate Proper(stack: seq<string>) {
    forall p :: p in stack ==> p != "" && p != "." && p != ".." && '/' !in p
  }

  lemma ProperTail(stack: seq<string>)
    requires Proper(stack) && stack != []
    ensures Proper(stack[1..]) && Proper([stack[0]])
  {
    assert stack[0] in stack;
    forall p | p in stack[1..] ensures p in stack {
      var i :| 0 <= i < |stack[1..]| && stack[1..][i] == p;
      assert stack[i + 1] == p;
    }
  }

  lemma {:induction false} ResolveIsProper(stack: seq<string>, parts: seq<string>)
    requires Proper(stack) && forall p :: p in parts ==> '/' !in p
    ensures Proper(Resolve(stack, parts))
    decreases |parts|
  {
    if parts != [] {
      ResolveIsProper(Push(stack, parts[0]), parts[1..]);
    }
  }

  lemma {:induction false} ResolveConcat(stack: seq<string>, a: seq<string>, b: seq<string>)
    ensures Resolve(stack, a + b) == Resolve(Resolve(stack, a), b)
    decreases |a|
  {
    if a == [] {
      assert a + b == b;
    } else {
      assert (a + b)[1..] == a[1..] + b;
      ResolveConcat(Push(stack, a[0]), a[1..], b);
    }
  }

  lemma {:induction false} ResolveProper(stack: seq<string>, parts: seq<string>)
    requires Proper(parts)
    ensures Resolve(stack, parts) == stack + parts
    decreases |parts|
  {
    if parts == [] {
      assert stack + parts == stack;
    } else {
      ProperTail(parts);
      assert parts[0] in [parts[0]];
      ResolveProper(stack + [parts[0]], parts[1..]);
      assert stack + parts == stack + [parts[0]] + parts[1..];
    }
  }

  lemma {:induction false} SplitConcat(a: string, b: string)
    ensures Split(a + "/" + b) == Split(a) + Split(b)
  {
    if a == "" {
      assert a + "/" + b == "/" + b;
      assert ("/" + b)[1..] == b;
    } else {
      assert (a + "/" + b)[1..] == a[1..] + "/" + b;
      SplitConcat(a[1..], b);
    }
  }

  lemma {:induction false} SplitPart(p: string)
    requires '/' !in p
    ensures Split(p) == [p]
  {
    if p != "" {
      assert p[0] in p;
      SplitPart(p[1..]);
      assert [p[0]] + p[1..] == p;
    }
  }

  lemma JoinLast(stack: seq<string>, part: string)
    ensures Join(stack + [part]) == Join(stack) + "/" + part
  {
    JoinConcat(stack, [part]);
    assert [part][1..] == [] && Join([part]) == "/" + part;
    assert Join(stack) + ("/" + part) == Join(stack) + "/" + part;
  }

  lemma {:induction false} SplitJoin(stack: seq<string>)
    requires Proper(stack)
    ensures Split(Join(stack)) == [""] + stack
    decreases |stack|
  {
    if stack != [] {
      var front, last := stack[..|stack| - 1], stack[|stack| - 1];
      assert stack == front + [last] && last in stack;
      assert forall p :: p in front ==> p in stack;
      SplitJoin(front);
      JoinLast(front, last);
      SplitConcat(Join(front), last);
      SplitPart(last);
      assert [""] + front + [last] == [""] + (front + [last]);
    }
  }

  /** A rendered stack is clean, and its parts are read back from it. */
  lemma RenderIsKey(stack: seq<string>)
    requires Proper(stack)
    ensures Resolve([], Split(Render(stack))) == stack && IsKey(Render(stack))
  {
    if stack == [] {
      assert "/"[1..] == "";
      assert Split("/") == ["", ""];
      assert ["", ""][1..] == [""] && [""][1..] == [];
    } else {
      SplitJoin(stack);
      assert ([""] + stack)[1..] == stack;
      ResolveProper([], stack);
      assert [] + stack == stack;
    }
  }

  /** Cleaning is idempotent. */
  lemma NewKeyIsKey(s: string)
    ensures IsKey(NewKey(s)) && Proper(Resolve([], Split(s)))
  {
    ResolveIsProper([], Split(s));
    RenderIsKey(Resolve([], Split(s)));
  }

  lemma NewKeyOfNothing()
    ensures NewKey("") == "/"
  {
    assert [""][1..] == [];
  }

  /** The length of parts with a slash before each. */
  function Size(parts: seq<string>): nat {
    if parts == [] then 0 else 1 + |parts[0]| + Size(parts[1..])
  }

  lemma {:induction false} SplitSize(s: string)
    ensures Size(Split(s)) == |s| + 1
  {
    if s != "" {
      SplitSize(s[1..]);
      var r := Split(s[1..]);
      if s[0] == '/' {
        assert ([""] + r)[1..] == r;
      } else {
        assert ([[s[0]] + r[0]] + r[1..])[1..] == r[1..];
      }
    }
  }

  lemma {:induction false} SizeConcat(a: seq<string>, b: seq<string>)
    ensures Size(a + b) == Size(a) + Size(b)
  {
    if a == [] {
      assert a + b == b;
    } else {
      assert (a + b)[1..] == a[1..] + b;
      SizeConcat(a[1..], b);
    }
  }

  lemma PushSize(stack: seq<string>, part: string)
    ensures Size(Push(stack, part)) <= Size(stack) + 1 + |part|
    ensures part == "" ==> Push(stack, part) == stack
  {
    SizeConcat(stack, [part]);
    assert [part][1..] == [];
    if stack != [] {
      var n := |stack| - 1;
      SizeConcat(stack[..n], [stack[n]]);
      assert stack == stack[..n] + [stack[n]];
    }
  }

  lemma {:induction false} ResolveSize(stack: seq<string>, parts: seq<string>)
    ensures Size(Resolve(stack, parts)) <= Size(stack) + Size(parts)
    decreases |parts|
  {
    if parts != [] {
      PushSize(stack, parts[0]);
      ResolveSize(Push(stack, parts[0]), parts[1..]);
    }
  }

  lemma {:induction false} JoinSize(stack: seq<string>)
    ensures |Join(stack)| == Size(stack)
  {
    if stack != [] { JoinSize(stack[1..]); }
  }

  /** Cleaning a rooted path never makes it longer. */
  lemma CleaningShortens(s: string)
    requires s != "" && s[0] == '/'
    ensures |NewKey(s)| <= |s|
  {
    var parts := Split(s);
    SplitSize(s);
    ResolveSize([], parts[1..]);
    JoinSize(Resolve([], parts));
  }

  // ---- children ----

  function ChildString(k: string, part: string): string { NewKey(k + "/" + part) }

  /** The prefix key is built by adding the parts of the prefix one at a time. */
  method Wrap(prefix: string) returns (prefixKey: string)
    ensures prefixKey == NewKey(prefix) && IsKey(prefixKey)
  {
    var parts := Split(prefix);
    prefixKey := "/";
    RenderIsKey([]);
    for i := 0 to |parts|
      invariant Proper(Resolve([], parts[..i]))
      invariant prefixKey == Render(Resolve([], parts[..i]))
    {
      AddPart(Resolve([], parts[..i]), parts[i]);
      assert parts[..i + 1] == parts[..i] + [parts[i]];
      ResolveConcat([], parts[..i], [parts[i]]);
      ResolveIsProper([], parts[..i + 1]);
      prefixKey := ChildString(prefixKey, parts[i]);
    }
    assert parts[..|parts|] == parts;
    NewKeyIsKey(prefix);
  }

  lemma AddPart(stack: seq<string>, part: string)
    requires Proper(stack) && '/' !in part
    ensures ChildString(Render(stack), part) == Render(Resolve(stack, [part]))
  {
    SplitConcat(Render(stack), part);
    SplitPart(part);
    ResolveConcat([], Split(Render(stack)), [part]);
    RenderIsKey(stack);
  }

  lemma Cleaned(a: string, part: string)
    requires '/' !in part
    ensures NewKey(a + "/" + part) == Render(Push(Resolve([], Split(a)), part))
    ensures Resolve([], Split(a + "/" + part)) == Push(Resolve([], Split(a)), part)
  {
    SplitConcat(a, part);
    SplitPart(part);
    ResolveConcat([], Split(a), [part]);
    assert [part][1..] == [];
  }

  /** An empty part and a dot go away. */
  lemma EmptyPartsGoAway(a: string)
    ensures NewKey(a + "/") == NewKey(a) && NewKey(a + "/.") == NewKey(a)
  {
    assert a + "/" + "" == a + "/" && a + "/" + "." == a + "/.";
    Cleaned(a, "");
    Cleaned(a, ".");
  }

  /** A double dot takes the part before it along, or nothing at the root. */
  lemma DoubleDotGoesUp(a: string, part: string)
    requires '/' !in part && part != "" && part != "." && part != ".."
    ensures NewKey(a + "/" + part + "/..") == NewKey(a) && NewKey("/..") == "/"
  {
    var stack := Resolve([], Split(a));
    assert a + "/" + part + "/" + ".." == a + "/" + part + "/.." && "" + "/" + ".." == "/..";
    Cleaned(a, part);
    Cleaned(a + "/" + part, "..");
    Cleaned("", "..");
    assert (stack + [part])[..|stack|] == stack;
    assert [""][1..] == [];
  }

  lemma RenderPushed(stack: seq<string>, part: string)
    requires Proper(stack)
    ensures Render(stack + [part]) == (if Render(stack) == "/" then "" else Render(stack)) + "/" + part
  {
    JoinConcat(stack, [part]);
    assert [part][1..] == [] && Join([part]) == "/" + part;
    if stack != [] { JoinShape(stack); }
  }

  /** Any other part goes below what comes before it. */
  lemma PartGoesBelow(a: string, part: string)
    requires '/' !in part && part != "" && part != "." && part != ".."
    ensures NewKey(a + "/" + part) == (if NewKey(a) == "/" then "" else NewKey(a)) + "/" + part
  {
    Cleaned(a, part);
    NewKeyIsKey(a);
    RenderPushed(Resolve([], Split(a)), part);
  }

  // ---- the namespace transform ----

  /** The child's key for a key of the namespace ns. */
  function ConvertKey(ns: string, k: string): string {
    if ns == "/" then k else if k == "/" then ns else ns + k
  }

  /** The keys below a key. */
  predicate Below(c: string, k: string) {
    c == "/" || c + "/" <= k
  }

  function InvertKey(ns: string, k: string): string
    requires Below(ns, k)
  {
    if ns == "/" then k else k[|ns|..]
  }

  lemma {:induction false} JoinConcat(a: seq<string>, b: seq<string>)
    ensures Join(a + b) == Join(a) + Join(b)
  {
    if a == [] {
      assert a + b == b;
    } else {
      assert (a + b)[1..] == a[1..] + b;
      JoinConcat(a[1..], b);
    }
  }

  lemma {:induction false} JoinShape(stack: seq<string>)
    requires Proper(stack) && stack != []
    ensures |Join(stack)| > 1 && Join(stack)[0] == '/' && Join(stack)[|Join(stack)| - 1] != '/'
  {
    var p := stack[0];
    assert p in stack && p[|p| - 1] in p;
    if stack[1..] != [] {
      ProperTail(stack);
      JoinShape(stack[1..]);
    }
  }

  /** A clean key is the root, or starts but does not end with a slash. */
  lemma KeyShape(k: string)
    requires IsKey(k)
    ensures k == "/" || (|k| > 1 && k[0] == '/' && k[|k| - 1] != '/')
  {
    NewKeyIsKey(k);
    var stack := Resolve([], Split(k));
    if stack != [] {
      JoinShape(stack);
    }
  }

  lemma ConvertedIsKey(ns: string, k: string)
    requires IsKey(ns) && IsKey(k)
    ensures IsKey(ConvertKey(ns, k))
  {
    NewKeyIsKey(ns);
    NewKeyIsKey(k);
    var a, b := Resolve([], Split(ns)), Resolve([], Split(k));
    if a != [] && b != [] {
      JoinConcat(a, b);
      RenderIsKey(a + b);
      JoinShape(a);
      JoinShape(b);
    }
  }

  /** The transform is undone on every key, and lands below the namespace for all but the root. */
  lemma InvertUndoesConvert(ns: string, k: string)
    requires IsKey(ns) && IsKey(k) && k != "/"
    ensures Below(ns, ConvertKey(ns, k)) && InvertKey(ns, ConvertKey(ns, k)) == k
  {
    KeyShape(k);
  }

  /** Every clean key below the namespace is the transform of a clean-looking key. */
  lemma ConvertUndoesInvert(ns: string, k: string)
    requires IsKey(ns) && IsKey(k) && k != "/" && Below(ns, k)
    ensures InvertKey(ns, k) != "/" && InvertKey(ns, k) != "" && InvertKey(ns, k)[0] == '/'
    ensures ConvertKey(ns, InvertKey(ns, k)) == k
  {
    KeyShape(k);
    if ns != "/" {
      assert (ns + "/")[|ns|] == '/';
    }
  }

  /** Being below a key is decided the same way in the namespace and in the child. */
  lemma BelowUnderConvert(ns: string, c: string, k: string)
    requires IsKey(ns) && IsKey(c) && k != "" && k[0] == '/' && k != "/"
    ensures Below(ConvertKey(ns, c), ConvertKey(ns, k)) <==> Below(c, k)
  {
    KeyShape(ns);
    KeyShape(c);
    if ns != "/" {
      if c == "/" {
        assert ns + "/" <= ns + k;
      } else {
        assert ns + c + "/" == ns + (c + "/");
        if Below(c, k) {
          assert (ns + k)[|ns|..] == k;
        }
        if ns + (c + "/") <= ns + k {
          assert (ns + k)[|ns|..][..|c + "/"|] == c + "/";
        }
      }
    }
  }
}
