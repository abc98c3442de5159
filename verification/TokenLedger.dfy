/** The simple form of the running-total limiter: nothing is cached or evicted; every decision
    is recomputed from the outstanding grants and the log of all commits ever made. */
module TokenLedger {
  import opened Sums
  import opened Words

  datatype Entry = Entry(id: string, n: nat, ts: int)

  /** An armed timer: it will withdraw id's grant at some moment from due on. */
  datatype Alarm = Alarm(id: string, due: int)

  /** Outstanding tokens, and the timer that will withdraw them unless stopped. */
  datatype Grant = Grant(n: nat, timer: nat)

  function Amount(): Grant -> nat { (g: Grant) => g.n }

  /** history is every commit ever made; overwritten is every grant replaced by a second grant to
      the same id while outstanding; horizon is the latest clock reading a request decided with. */
  datatype Ledger = Ledger(
    limit: nat, period: nat,
    grants: map<string, Grant>, alarms: map<nat, Alarm>, nextTimer: nat,
    overwritten: seq<Entry>, history: seq<Entry>,
    horizon: int, clock: int)

  function Max(a: int, b: int): int { if a < b then b else a }

  // ---- sums over logs ----

  ghost function Total(h: seq<Entry>, p: Entry -> bool): nat {
    if h == [] then 0 else (if p(h[0]) then h[0].n else 0) + Total(h[1..], p)
  }

  function Any(): Entry -> bool { (e: Entry) => true }
  function From(t: int): Entry -> bool { (e: Entry) => t <= e.ts }
  function Between(lo: int, hi: int): Entry -> bool { (e: Entry) => lo <= e.ts <= hi }

  lemma {:induction false} TotalConcat(a: seq<Entry>, b: seq<Entry>, p: Entry -> bool)
    ensures Total(a + b, p) == Total(a, p) + Total(b, p)
  {
    if a == [] {
      assert a + b == b;
    } else {
      assert (a + b)[1..] == a[1..] + b;
      TotalConcat(a[1..], b, p);
    }
  }

  lemma TotalAppend(a: seq<Entry>, e: Entry, p: Entry -> bool)
    ensures Total(a + [e], p) == Total(a, p) + if p(e) then e.n else 0
  {
    TotalConcat(a, [e], p);
    assert [e][1..] == [];
  }

  lemma {:induction false} TotalMonotone(h: seq<Entry>, p: Entry -> bool, q: Entry -> bool)
    requires forall e :: e in h && p(e) ==> q(e)
    ensures Total(h, p) <= Total(h, q)
  {
    if h != [] {
      TotalMonotone(h[1..], p, q);
    }
  }

  // ---- state ----

  /** Tokens counted against the limit: outstanding, overwritten, and committed within one period
      before the horizon. */
  ghost function InUse(l: Ledger): nat {
    Sum(l.grants, Amount()) + Total(l.overwritten, Any()) + Total(l.history, From(l.horizon - l.period))
  }

  /** Tokens committed in the window of one period that ends at t. */
  ghost function WindowTotal(l: Ledger, t: int): nat {
    Total(l.history, Between(t - l.period, t))
  }

  function Empty(limit: nat, period: nat, start: int): Ledger {
    Ledger(limit, period, map[], map[], 0, [], [], start, start)
  }

  ghost predicate WellFormed(l: Ledger) {
    && (forall id :: id in l.grants ==> l.grants[id].timer < l.nextTimer)
    && (forall h :: h in l.alarms ==> h < l.nextTimer)
    && l.horizon <= l.clock
    && (forall e :: e in l.history ==> e.ts <= l.clock)
  }

  // ---- steps ----

  function At(l: Ledger, now: int): Ledger { l.(clock := now) }

  /** A request made at clock reading now stops counting what is older than one period. */
  function Expire(l: Ledger, now: int): Ledger { l.(horizon := Max(l.horizon, now)) }

  /** The comparison is made on 64-bit words, after a sum that may have wrapped. */
  ghost predicate Grants(l: Ledger, n: nat, now: int) {
    (InUse(Expire(l, now)) + n) % WORD <= l.limit
  }

  ghost function Request(l: Ledger, id: string, n: nat, expiration: int, now: int): Ledger {
    var x := Expire(l, now);
    if !Grants(l, n, now) then x else
      x.(grants := l.grants[id := Grant(n, l.nextTimer)],
         alarms := l.alarms[l.nextTimer := Alarm(id, l.clock + expiration)],
         nextTimer := l.nextTimer + 1,
         overwritten := if id in l.grants then l.overwritten + [Entry(id, l.grants[id].n, l.clock)]
                        else l.overwritten)
  }

  function Secure(l: Ledger, id: string): Ledger {
    if id in l.grants then l.(alarms := l.alarms - {l.grants[id].timer}) else l
  }

  function Commit(l: Ledger, id: string): Ledger {
    if id in l.grants then
      Withdraw(l, id).(history := l.history + [Entry(id, l.grants[id].n, l.clock)])
    else l
  }

  function Withdraw(l: Ledger, id: string): Ledger {
    l.(grants := l.grants - {id})
  }

  function Fire(l: Ledger, timer: nat): Ledger {
    if timer in l.alarms then Withdraw(l.(alarms := l.alarms - {timer}), l.alarms[timer].id) else l
  }

  datatype Event =
    | RequestEvent(id: string, n: nat, expiration: int, now: int)
    | SecureEvent(id: string)
    | CommitEvent(id: string)
    | WithdrawEvent(id: string)
    | FireEvent(timer: nat)
    | AdvanceEvent(to: int)

  /** A request may decide with a clock reading taken before it got the lock; a timer goes off at
      any moment from its due time on; the clock is monotone. */
  predicate Enabled(l: Ledger, e: Event) {
    match e
    case RequestEvent(_, n, _, now) => n < WORD && now <= l.clock
    case FireEvent(timer) => timer in l.alarms && l.alarms[timer].due <= l.clock
    case AdvanceEvent(to) => l.clock <= to
    case _ => true
  }

  ghost function Step(l: Ledger, e: Event): Ledger {
    match e
    case RequestEvent(id, n, expiration, now) => Request(l, id, n, expiration, now)
    case SecureEvent(id) => Secure(l, id)
    case CommitEvent(id) => Commit(l, id)
    case WithdrawEvent(id) => Withdraw(l, id)
    case FireEvent(timer) => Fire(l, timer)
    case AdvanceEvent(to) => At(l, to)
  }

  ghost predicate IsRun(l: Ledger, es: seq<Event>)
    decreases |es|
  {
    es == [] || (Enabled(l, es[0]) && IsRun(Step(l, es[0]), es[1..]))
  }

  ghost function Run(l: Ledger, es: seq<Event>): Ledger
    decreases |es|
  {
    if es == [] then l else Run(Step(l, es[0]), es[1..])
  }

  // ---- what one step does to the tokens in use ----

  lemma ExpireOnlyReleases(l: Ledger, now: int)
    ensures InUse(Expire(l, now)) <= InUse(l)
  {
    TotalMonotone(l.history, From(Max(l.horizon, now) - l.period), From(l.horizon - l.period));
  }

  /** A granted request adds exactly n, even when it overwrites an outstanding grant. */
  lemma RequestAddsTokens(l: Ledger, id: string, n: nat, expiration: int, now: int)
    ensures InUse(Request(l, id, n, expiration, now))
            == InUse(Expire(l, now)) + if Grants(l, n, now) then n else 0
  {
    SumUpdate(l.grants, id, Grant(n, l.nextTimer), Amount());
    if id in l.grants {
      TotalAppend(l.overwritten, Entry(id, l.grants[id].n, l.clock), Any());
    }
  }

  lemma WithdrawReleases(l: Ledger, id: string)
    ensures InUse(Withdraw(l, id)) == InUse(l) - if id in l.grants then l.grants[id].n else 0
  {
    SumRemove(l.grants, id, Amount());
  }

  /** Committing moves tokens from the grants to the log and keeps their number. */
  lemma CommitConserves(l: Ledger, id: string)
    requires WellFormed(l)
    ensures InUse(Commit(l, id)) == InUse(l)
  {
    if id in l.grants {
      WithdrawReleases(l, id);
      TotalAppend(l.history, Entry(id, l.grants[id].n, l.clock), From(l.horizon - l.period));
    }
  }

  lemma StepKeepsWellFormed(l: Ledger, e: Event)
    requires WellFormed(l) && Enabled(l, e)
    ensures WellFormed(Step(l, e))
  {
  }

  // ---- the bound on every window of every run ----

  /** No request can make the 64-bit sum wrap. */
  predicate Fits(limit: nat, e: Event) {
    e.RequestEvent? ==> limit + e.n < WORD
  }

  ghost predicate Safe(l: Ledger) {
    && WellFormed(l)
    && l.limit < WORD
    && InUse(l) <= l.limit
    && forall t :: WindowTotal(l, t) <= l.limit
  }

  /** A commit only enters the windows that end now or later, and those hold nothing that is not
      still in use. */
  lemma CommitKeepsWindows(l: Ledger, id: string, t: int)
    requires Safe(l)
    ensures WindowTotal(Commit(l, id), t) <= l.limit
  {
    var c := Commit(l, id);
    assert WindowTotal(l, t) <= l.limit;
    if id in l.grants {
      TotalAppend(l.history, Entry(id, l.grants[id].n, l.clock), Between(t - l.period, t));
      if l.clock <= t {
        TotalMonotone(c.history, Between(t - l.period, t), From(l.horizon - l.period));
        CommitConserves(l, id);
      }
    }
  }

  lemma StepKeepsSafe(l: Ledger, e: Event)
    requires Safe(l) && Enabled(l, e) && Fits(l.limit, e)
    ensures Safe(Step(l, e))
  {
    var r := Step(l, e);
    StepKeepsWellFormed(l, e);
    match e {
      case RequestEvent(id, n, expiration, now) =>
        ExpireOnlyReleases(l, now);
        RequestAddsTokens(l, id, n, expiration, now);
      case CommitEvent(id) =>
        CommitConserves(l, id);
        forall t ensures WindowTotal(r, t) <= r.limit { CommitKeepsWindows(l, id, t); }
      case WithdrawEvent(id) =>
        WithdrawReleases(l, id);
      case FireEvent(timer) =>
        WithdrawReleases(l.(alarms := l.alarms - {timer}), l.alarms[timer].id);
      case _ =>
    }
    if !e.CommitEvent? {
      forall t ensures WindowTotal(r, t) <= r.limit { assert WindowTotal(r, t) == WindowTotal(l, t); }
    }
  }

  lemma {:induction false} RunKeepsSafe(l: Ledger, es: seq<Event>)
    requires Safe(l) && IsRun(l, es)
    requires forall e :: e in es ==> Fits(l.limit, e)
    ensures Safe(Run(l, es)) && Run(l, es).limit == l.limit
    decreases |es|
  {
    if es != [] {
      StepKeepsSafe(l, es[0]);
      RunKeepsSafe(Step(l, es[0]), es[1..]);
    }
  }

  lemma EmptyIsSafe(limit: nat, period: nat, start: int)
    requires limit < WORD
    ensures Safe(Empty(limit, period, start)) && TimersOwned(Empty(limit, period, start))
  {
    var l := Empty(limit, period, start);
    assert forall t :: WindowTotal(l, t) == 0;
  }

  /** Over every run and for every instant t, the tokens ever committed in the period that ends at
      t never exceed the limit. */
  lemma EveryWindowIsBounded(limit: nat, period: nat, start: int, es: seq<Event>, t: int)
    requires limit < WORD
    requires IsRun(Empty(limit, period, start), es)
    requires forall e :: e in es ==> Fits(limit, e)
    ensures WindowTotal(Run(Empty(limit, period, start), es), t) <= limit
  {
    EmptyIsSafe(limit, period, start);
    RunKeepsSafe(Empty(limit, period, start), es);
    assert Safe(Run(Empty(limit, period, start), es));
  }

  /** Exactly when one request keeps the tokens in use below the limit: when the sum does not wrap.
      A sum that wraps is always granted. */
  lemma RequestIsSoundIffNoWrap(l: Ledger, id: string, n: nat, expiration: int, now: int)
    requires Safe(l) && n < WORD
    ensures InUse(Request(l, id, n, expiration, now)) <= l.limit <==> InUse(Expire(l, now)) + n < WORD
    ensures Grants(l, n, now)
            <==> InUse(Expire(l, now)) + n <= l.limit || InUse(Expire(l, now)) + n >= WORD
  {
    ExpireOnlyReleases(l, now);
    RequestAddsTokens(l, id, n, expiration, now);
  }

  lemma RunCons(l: Ledger, e: Event, es: seq<Event>)
    ensures Run(l, [e] + es) == Run(Step(l, e), es)
    ensures IsRun(l, [e] + es) <==> Enabled(l, e) && IsRun(Step(l, e), es)
  {
    assert ([e] + es)[1..] == es;
  }

  /** Requesting n tokens for a fresh id and committing them at once. */
  lemma RequestThenCommit(l: Ledger, id: string, n: nat)
    requires WellFormed(l) && id !in l.grants && n < WORD && Grants(l, n, l.clock)
    ensures var es := [RequestEvent(id, n, 600, l.clock), CommitEvent(id)];
            && IsRun(l, es)
            && Run(l, es).history == l.history + [Entry(id, n, l.clock)]
            && Run(l, es).grants == l.grants && Run(l, es).overwritten == l.overwritten
            && Run(l, es).limit == l.limit && Run(l, es).period == l.period
            && Run(l, es).clock == l.clock && Run(l, es).horizon == l.clock
            && InUse(Run(l, es)) == InUse(Expire(l, l.clock)) + n
  {
    var r := Request(l, id, n, 600, l.clock);
    RunCons(r, CommitEvent(id), []);
    RunCons(l, RequestEvent(id, n, 600, l.clock), [CommitEvent(id)]);
    StepKeepsWellFormed(l, RequestEvent(id, n, 600, l.clock));
    RequestAddsTokens(l, id, n, 600, l.clock);
    CommitConserves(r, id);
    assert r.grants - {id} == l.grants;
  }

  /** With every token in use committed, a request that wraps the 64-bit sum and its commit put
      more than the limit into the window that ends now. */
  lemma WrappingRequestBreaksTheBound(l: Ledger, id: string, n: nat)
    requires Safe(l) && l.grants == map[] && l.overwritten == [] && n < WORD
    requires InUse(Expire(l, l.clock)) + n >= WORD
    ensures var es := [RequestEvent(id, n, 600, l.clock), CommitEvent(id)];
            IsRun(l, es) && WindowTotal(Run(l, es), l.clock) > l.limit
  {
    RequestIsSoundIffNoWrap(l, id, n, 600, l.clock);
    RequestThenCommit(l, id, n);
    var r := Run(l, [RequestEvent(id, n, 600, l.clock), CommitEvent(id)]);
    TotalMonotone(r.history, From(l.clock - l.period), Between(l.clock - l.period, l.clock));
  }

  /** Every limiter that lets anything through reaches such a ledger: commit n tokens, and a
      request for WORD - n wraps. */
  lemma WrappingRequestIsReachable(limit: nat, period: nat, start: int, id: string, n: nat)
    requires 0 < n <= limit < WORD
    ensures var es := [RequestEvent(id, n, 600, start), CommitEvent(id)];
            var l := Run(Empty(limit, period, start), es);
            && IsRun(Empty(limit, period, start), es) && l.grants == map[] && l.overwritten == []
            && InUse(Expire(l, l.clock)) + (WORD - n) >= WORD
  {
    var l := Empty(limit, period, start);
    assert Expire(l, start) == l && InUse(l) == 0;
    RequestThenCommit(l, id, n);
    var r := Run(l, [RequestEvent(id, n, 600, start), CommitEvent(id)]);
    assert Expire(r, start) == r;
  }

  // ---- timers ----

  /** Every armed timer that could withdraw an outstanding grant was armed for that very grant. */
  ghost predicate TimersOwned(l: Ledger) {
    forall h :: h in l.alarms && l.alarms[h].id in l.grants ==> l.grants[l.alarms[h].id].timer == h
  }

  /** No armed timer names id. */
  predicate Unarmed(l: Ledger, id: string) {
    forall h :: h in l.alarms ==> l.alarms[h].id != id
  }

  /** A granted request leaves timers owned exactly when no timer was armed for its id. */
  lemma RequestKeepsTimersOwnedIff(l: Ledger, id: string, n: nat, expiration: int, now: int)
    requires WellFormed(l) && TimersOwned(l) && Grants(l, n, now)
    ensures TimersOwned(Request(l, id, n, expiration, now)) <==> Unarmed(l, id)
  {
    var r := Request(l, id, n, expiration, now);
    if !Unarmed(l, id) {
      var h :| h in l.alarms && l.alarms[h].id == id;
      assert h in r.alarms && r.alarms[h].id in r.grants && r.grants[r.alarms[h].id].timer != h;
    }
  }

  predicate Avoids(e: Event, id: string) {
    match e
    case RequestEvent(i, _, _, _) => i != id
    case CommitEvent(i) => i != id
    case WithdrawEvent(i) => i != id
    case _ => true
  }

  /** Whatever else happens, id's grant stays until it is committed, withdrawn or requested again. */
  ghost predicate Durable(l: Ledger, id: string) {
    forall es :: IsRun(l, es) && (forall e :: e in es ==> Avoids(e, id)) ==> id in Run(l, es).grants
  }

  lemma {:induction false} UnarmedGrantSurvives(l: Ledger, es: seq<Event>, id: string)
    requires WellFormed(l) && id in l.grants && Unarmed(l, id) && IsRun(l, es)
    requires forall e :: e in es ==> Avoids(e, id)
    ensures id in Run(l, es).grants && Run(l, es).grants[id] == l.grants[id]
    decreases |es|
  {
    if es != [] {
      assert Avoids(es[0], id);
      StepKeepsWellFormed(l, es[0]);
      UnarmedGrantSurvives(Step(l, es[0]), es[1..], id);
    }
  }

  /** Securing an outstanding grant keeps it from expiring exactly when no older timer is still
      armed for the same id. */
  lemma SecuredGrantIsDurableIff(l: Ledger, id: string)
    requires WellFormed(l) && id in l.grants
    ensures Durable(Secure(l, id), id) <==> Unarmed(Secure(l, id), id)
  {
    var s := Secure(l, id);
    if Unarmed(s, id) {
      forall es | IsRun(s, es) && (forall e :: e in es ==> Avoids(e, id))
        ensures id in Run(s, es).grants
      {
        UnarmedGrantSurvives(s, es, id);
      }
    } else {
      var h :| h in s.alarms && s.alarms[h].id == id;
      var es := [AdvanceEvent(Max(s.clock, s.alarms[h].due)), FireEvent(h)];
      assert es[1..] == [FireEvent(h)] && es[1..][1..] == [];
      var late := Step(s, es[0]);
      assert Run(late, es[1..]) == Fire(late, h) && IsRun(late, es[1..]);
      assert id !in Run(s, es).grants;
    }
  }

  /** With timers owned, as they are when no id is requested while a timer is armed for it, every
      secured grant is durable. */
  lemma SecureIsFinal(l: Ledger, id: string)
    requires WellFormed(l) && TimersOwned(l) && id in l.grants
    ensures Durable(Secure(l, id), id)
  {
    SecuredGrantIsDurableIff(l, id);
  }

  /** The ledger after one id was granted n tokens twice. */
  function GrantedTwice(limit: nat, period: nat, start: int, id: string, n: nat): Ledger {
    Ledger(limit, period, map[id := Grant(n, 1)], map[0 := Alarm(id, start + 600), 1 := Alarm(id, start + 600)], 2,
           [Entry(id, n, start)], [], start, start)
  }

  lemma SecondRequestIsGranted(limit: nat, period: nat, start: int, id: string, n: nat)
    requires n + n <= limit < WORD
    ensures var request := RequestEvent(id, n, 600, start);
            var l0 := Empty(limit, period, start);
            && Enabled(l0, request) && Enabled(Step(l0, request), request)
            && Step(Step(l0, request), request) == GrantedTwice(limit, period, start, id, n)
  {
    var l0 := Empty(limit, period, start);
    assert Expire(l0, start) == l0 && InUse(l0) == 0;
    RequestAddsTokens(l0, id, n, 600, start);
    var l1 := Request(l0, id, n, 600, start);
    assert Expire(l1, start) == l1 && InUse(l1) == n;
    assert l1.grants[id := Grant(n, 1)] == map[id := Grant(n, 1)];
    assert [] + [Entry(id, n, start)] == [Entry(id, n, start)];
  }

  lemma RunOfTwo(l: Ledger, d: Event, e: Event)
    ensures Run(l, [d, e]) == Step(Step(l, d), e)
    ensures IsRun(l, [d, e]) <==> Enabled(l, d) && Enabled(Step(l, d), e)
  {
    RunCons(Step(l, d), e, []);
    RunCons(l, d, [e]);
    assert [e] + [] == [e] && [d] + [e] == [d, e];
  }

  lemma FirstTimerStillFires(l: Ledger, id: string, due: int)
    requires WellFormed(l) && id in l.grants && l.grants[id].timer != 0
    requires 0 in l.alarms && l.alarms[0] == Alarm(id, due) && l.clock <= due
    ensures var r := Secure(l, id);
            && id in r.grants && !Durable(r, id)
            && IsRun(r, [AdvanceEvent(due), FireEvent(0)])
            && id !in Run(r, [AdvanceEvent(due), FireEvent(0)]).grants
  {
    SecuredGrantIsDurableIff(l, id);
    assert 0 in Secure(l, id).alarms;
    RunOfTwo(Secure(l, id), AdvanceEvent(due), FireEvent(0));
  }

  /** An id requested twice and then secured loses its grant to the first timer, from the moment that
      is due, although nothing touches the id any more. */
  lemma SecondRequestUndoesSecure(limit: nat, period: nat, start: int, id: string, n: nat)
    requires n + n <= limit < WORD
    ensures var request := RequestEvent(id, n, 600, start);
            var es := [request, request, SecureEvent(id)];
            var l := Run(Empty(limit, period, start), es);
            && IsRun(Empty(limit, period, start), es)
            && id in l.grants && l.grants[id].n == n && !Durable(l, id)
            && IsRun(l, [AdvanceEvent(start + 600), FireEvent(0)])
            && id !in Run(l, [AdvanceEvent(start + 600), FireEvent(0)]).grants
  {
    var l0, request := Empty(limit, period, start), RequestEvent(id, n, 600, start);
    SecondRequestIsGranted(limit, period, start, id, n);
    RunOfTwo(Step(l0, request), request, SecureEvent(id));
    RunCons(l0, request, [request, SecureEvent(id)]);
    assert [request] + [request, SecureEvent(id)] == [request, request, SecureEvent(id)];
    FirstTimerStillFires(GrantedTwice(limit, period, start, id, n), id, start + 600);
  }

  // ---- overwritten grants ----

  lemma {:induction false} RunKeepsOverwritten(l: Ledger, es: seq<Event>)
    ensures l.overwritten <= Run(l, es).overwritten
    decreases |es|
  {
    if es != [] {
      RunKeepsOverwritten(Step(l, es[0]), es[1..]);
    }
  }

  lemma LongerLogHoldsMore(a: seq<Entry>, b: seq<Entry>, p: Entry -> bool)
    requires a <= b
    ensures Total(a, p) <= Total(b, p)
  {
    assert b == a + b[|a|..];
    TotalConcat(a, b[|a|..], p);
  }

  /** Overwritten tokens stand in the way of every request. */
  lemma OverwrittenCounts(l: Ledger, n: nat, now: int)
    requires Safe(l) && l.limit + n < WORD && Grants(l, n, now)
    ensures Total(l.overwritten, Any()) + n <= l.limit
  {
    ExpireOnlyReleases(l, now);
  }

  /** No request is granted for an id whose grant is outstanding. */
  ghost predicate NeverRegrants(l: Ledger, es: seq<Event>)
    decreases |es|
  {
    es == [] ||
    (&& (es[0].RequestEvent? && Grants(l, es[0].n, es[0].now) ==> es[0].id !in l.grants)
     && NeverRegrants(Step(l, es[0]), es[1..]))
  }

  /** Over every run nothing is overwritten exactly when no request is granted for an id whose grant is
      outstanding at the time. */
  lemma {:induction false} NothingIsOverwrittenIff(l: Ledger, es: seq<Event>)
    ensures Run(l, es).overwritten == l.overwritten <==> NeverRegrants(l, es)
    decreases |es|
  {
    if es != [] {
      var e, r := es[0], Step(l, es[0]);
      NothingIsOverwrittenIff(r, es[1..]);
      RunKeepsOverwritten(r, es[1..]);
      assert |r.overwritten| == |l.overwritten|
             <==> (e.RequestEvent? && Grants(l, e.n, e.now) ==> e.id !in l.grants);
    }
  }

  /** No step ever gives overwritten tokens back: whatever happens after, they count against every
      request, whose own tokens have to fit beside them. */
  lemma OverwrittenTokensNeverReturn(l: Ledger, es: seq<Event>, n: nat, now: int)
    requires Safe(l) && IsRun(l, es) && l.limit + n < WORD && forall e :: e in es ==> Fits(l.limit, e)
    ensures Total(l.overwritten, Any()) <= Total(Run(l, es).overwritten, Any())
    ensures Grants(Run(l, es), n, now) ==> Total(l.overwritten, Any()) + n <= l.limit
  {
    var r := Run(l, es);
    RunKeepsOverwritten(l, es);
    RunKeepsSafe(l, es);
    LongerLogHoldsMore(l.overwritten, r.overwritten, Any());
    if Grants(r, n, now) {
      OverwrittenCounts(r, n, now);
    }
  }

  // ---- runs with fresh ids ----

  /** Requests only name ids that have neither a grant nor an armed timer. */
  ghost predicate FreshRun(l: Ledger, es: seq<Event>)
    decreases |es|
  {
    es == [] ||
    (&& (es[0].RequestEvent? ==> es[0].id !in l.grants && Unarmed(l, es[0].id))
     && FreshRun(Step(l, es[0]), es[1..]))
  }

  /** With fresh ids nothing is ever overwritten and no timer withdraws another request's grant. */
  lemma {:induction false} FreshRunLosesNothing(l: Ledger, es: seq<Event>)
    requires WellFormed(l) && TimersOwned(l) && IsRun(l, es) && FreshRun(l, es)
    ensures Run(l, es).overwritten == l.overwritten && TimersOwned(Run(l, es))
    decreases |es|
  {
    if es != [] {
      StepKeepsWellFormed(l, es[0]);
      FreshRunLosesNothing(Step(l, es[0]), es[1..]);
    }
  }

  /** After a run with fresh ids, a request whose clock reading is not older than an earlier
      request's is granted exactly when outstanding grants, commits no older than the period and n
      add up to at most the limit. */
  lemma FreshRequestRecomputes(limit: nat, period: nat, start: int, es: seq<Event>, n: nat, now: int)
    requires IsRun(Empty(limit, period, start), es) && FreshRun(Empty(limit, period, start), es)
    requires limit + n < WORD && forall e :: e in es ==> Fits(limit, e)
    requires Run(Empty(limit, period, start), es).horizon <= now
    ensures var l := Run(Empty(limit, period, start), es);
            Grants(l, n, now) <==> Sum(l.grants, Amount()) + Total(l.history, From(now - period)) + n <= limit
  {
    var l0 := Empty(limit, period, start);
    EmptyIsSafe(limit, period, start);
    RunKeepsSafe(l0, es);
    FreshRunLosesNothing(l0, es);
    RunKeepsSettings(l0, es);
    ExpireOnlyReleases(Run(l0, es), now);
  }

  lemma {:induction false} RunKeepsSettings(l: Ledger, es: seq<Event>)
    ensures Run(l, es).limit == l.limit && Run(l, es).period == l.period
    decreases |es|
  {
    if es != [] {
      RunKeepsSettings(Step(l, es[0]), es[1..]);
    }
  }
}
