/** The running-total limiter as it is built: a cached total, a map of outstanding grants with
    their timers, and a list of commits that is only trimmed from the front, during requests. */
module Limiter {
  import opened Sums
  import opened TokenLedger
  import opened Words

  /** The history is what was evicted, all older than t, and then what is kept, none of it older,
      in the order of the clock. */
  ghost predicate Retains(evicted: seq<Entry>, kept: seq<Entry>, history: seq<Entry>, t: int) {
    && history == evicted + kept
    && (forall e :: e in evicted ==> e.ts < t)
    && (forall e :: e in kept ==> t <= e.ts)
    && Chronological(kept)
  }

  ghost predicate Chronological(h: seq<Entry>) {
    h == [] || ((forall e :: e in h[1..] ==> h[0].ts <= e.ts) && Chronological(h[1..]))
  }

  /** Summing what is kept is recomputing from the log. */
  lemma RetainedTotal(evicted: seq<Entry>, kept: seq<Entry>, t: int)
    requires forall e :: e in evicted ==> e.ts < t
    requires forall e :: e in kept ==> t <= e.ts
    ensures Total(kept, Any()) == Total(evicted + kept, From(t))
  {
    TotalMonotone(kept, Any(), From(t));
    TotalMonotone(kept, From(t), Any());
    TotalConcat(evicted, kept, From(t));
    NothingCounted(evicted, t);
  }

  lemma {:induction false} NothingCounted(h: seq<Entry>, t: int)
    requires forall e :: e in h ==> e.ts < t
    ensures Total(h, From(t)) == 0
  {
    if h != [] {
      NothingCounted(h[1..], t);
    }
  }

  lemma {:induction false} ChronologicalAppend(h: seq<Entry>, e: Entry)
    requires Chronological(h) && forall x :: x in h ==> x.ts <= e.ts
    ensures Chronological(h + [e])
  {
    if h == [] {
      assert [e][1..] == [];
    } else {
      assert (h + [e])[1..] == h[1..] + [e];
      ChronologicalAppend(h[1..], e);
    }
  }

  /** Subtraction on 64-bit words. */
  lemma SubtractOnWords(total: int, sum: int, n: nat)
    requires total == sum % WORD
    ensures (total - n) % WORD == (sum - n) % WORD
  {
  }

  /** What the fields mean, in terms of the log of everything that ever happened. */
  ghost predicate Refines(total: nat, requested: map<string, Grant>,
                          evicted: seq<Entry>, committed: seq<Entry>,
                          armed: map<nat, Alarm>, nextTimer: nat, l: Ledger) {
    && WellFormed(l) && l.limit < WORD
    && total == InUse(l) % WORD
    && requested == l.grants && armed == l.alarms && nextTimer == l.nextTimer
    && Retains(evicted, committed, l.history, l.horizon - l.period)
  }

  lemma EachGrantCounts(grants: map<string, Grant>)
    ensures forall id :: id in grants ==> grants[id].n <= Sum(grants, Amount())
  {
    forall id | id in grants ensures grants[id].n <= Sum(grants, Amount()) {
      SumWithout(grants, id, Amount());
    }
  }

  lemma {:induction false} EachCommitCounts(h: seq<Entry>)
    ensures forall e :: e in h ==> e.n <= Total(h, Any())
  {
    if h != [] {
      EachCommitCounts(h[1..]);
      assert forall e :: e in h ==> e == h[0] || e in h[1..];
    }
  }

  /** The state of the eviction loop of a request made at now. */
  ghost predicate Evicting(total: nat, evicted: seq<Entry>, committed: seq<Entry>, l: Ledger, now: int) {
    && l.history == evicted + committed
    && (forall e :: e in evicted ==> e.ts < Max(l.horizon, now) - l.period)
    && (forall e :: e in committed ==> l.horizon - l.period <= e.ts)
    && Chronological(committed)
    && total == (Sum(l.grants, Amount()) + Total(l.overwritten, Any()) + Total(committed, Any())) % WORD
  }

  /** Dropping an expired commit from the front. */
  lemma EvictFront(total: nat, evicted: seq<Entry>, committed: seq<Entry>, l: Ledger, now: int)
    requires Evicting(total, evicted, committed, l, now)
    requires committed != [] && now - committed[0].ts > l.period
    ensures Evicting((total - committed[0].n) % WORD, evicted + [committed[0]], committed[1..], l, now)
  {
    SubtractOnWords(total,
                    Sum(l.grants, Amount()) + Total(l.overwritten, Any()) + Total(committed, Any()),
                    committed[0].n);
    assert evicted + committed == evicted + [committed[0]] + committed[1..];
  }

  lemma StartEvicting(total: nat, requested: map<string, Grant>,
                      evicted: seq<Entry>, committed: seq<Entry>,
                      armed: map<nat, Alarm>, nextTimer: nat, l: Ledger, at: int, now: int)
    requires Refines(total, requested, evicted, committed, armed, nextTimer, l)
    ensures Evicting(total, evicted, committed, At(l, at), now)
  {
    RetainedTotal(evicted, committed, l.horizon - l.period);
  }

  /** Stopping at the first live commit has evicted all and only the expired ones. */
  lemma EvictionIsExact(total: nat, evicted: seq<Entry>, committed: seq<Entry>, l: Ledger, now: int)
    requires WellFormed(l) && l.limit < WORD && now <= l.clock
    requires Evicting(total, evicted, committed, l, now)
    requires committed == [] || now - committed[0].ts <= l.period
    ensures Refines(total, l.grants, evicted, committed, l.alarms, l.nextTimer, Expire(l, now))
  {
    RetainedTotal(evicted, committed, Max(l.horizon, now) - l.period);
  }

  lemma AddOnWords(total: nat, x: nat, n: nat)
    requires total == x % WORD
    ensures (total + n) % WORD == (x + n) % WORD
  {
  }

  lemma DecisionIsExact(total: nat, evicted: seq<Entry>, committed: seq<Entry>, l: Ledger, n: nat, now: int)
    requires Refines(total, l.grants, evicted, committed, l.alarms, l.nextTimer, Expire(l, now))
    ensures Grants(l, n, now) <==> (total + n) % WORD <= l.limit
    ensures (total + n) % WORD == (InUse(Expire(l, now)) + n) % WORD
  {
    AddOnWords(total, InUse(Expire(l, now)), n);
  }

  /** Granting n more tokens once eviction is over. */
  lemma GrantRefines(total: nat, evicted: seq<Entry>, committed: seq<Entry>, l: Ledger,
                     id: string, n: nat, expiration: int, now: int)
    requires Refines(total, l.grants, evicted, committed, l.alarms, l.nextTimer, Expire(l, now))
    requires WellFormed(l) && now <= l.clock && n < WORD
    ensures Grants(l, n, now) <==> (total + n) % WORD <= l.limit
    ensures Grants(l, n, now) ==>
      Refines((total + n) % WORD, l.grants[id := Grant(n, l.nextTimer)], evicted, committed,
              l.alarms[l.nextTimer := Alarm(id, l.clock + expiration)], l.nextTimer + 1,
              Request(l, id, n, expiration, now))
  {
    DecisionIsExact(total, evicted, committed, l, n, now);
    RequestAddsTokens(l, id, n, expiration, now);
    StepKeepsWellFormed(l, RequestEvent(id, n, expiration, now));
  }

  /** Moving id's grant to the end of the list of commits. */
  lemma CommitRefines(total: nat, requested: map<string, Grant>,
                      evicted: seq<Entry>, committed: seq<Entry>,
                      armed: map<nat, Alarm>, nextTimer: nat, l: Ledger, id: string)
    requires Refines(total, requested, evicted, committed, armed, nextTimer, l)
    requires id in requested
    ensures Refines(total, requested - {id}, evicted,
                    committed + [Entry(id, requested[id].n, l.clock)], armed, nextTimer,
                    Commit(l, id))
  {
    CommitConserves(l, id);
    ChronologicalAppend(committed, Entry(id, requested[id].n, l.clock));
  }

  class RunningTotalLimiter {
    const period: nat
    const limit: nat
    var total: nat
    var requested: map<string, Grant>
    var committed: seq<Entry>
    var armed: map<nat, Alarm>
    var nextTimer: nat

    ghost var log: Ledger
    ghost var evicted: seq<Entry>

    ghost predicate Valid()
      reads this
    {
      && log.limit == limit && log.period == period
      && Refines(total, requested, evicted, committed, armed, nextTimer, log)
    }

    constructor (limit: nat, period: nat, ghost start: int)
      requires limit < WORD
      ensures Valid() && log == Empty(limit, period, start)
    {
      this.limit, this.period := limit, period;
      total, requested, committed := 0, map[], [];
      armed, nextTimer := map[], 0;
      evicted := [];
      log := Empty(limit, period, start);
    }

    /** Time passes. */
    ghost method Advance(at: int)
      requires Valid() && log.clock <= at
      modifies this`log
      ensures Valid() && log == At(old(log), at)
    {
      log := At(log, at);
    }

    /** Drop expired commits from the front of the list, and their tokens from the total. */
    method Evict(now: int, ghost l: Ledger)
      requires Evicting(total, evicted, committed, l, now) && l.period == period
      modifies this`total, this`committed, this`evicted
      ensures Evicting(total, evicted, committed, l, now)
      ensures committed == [] || now - committed[0].ts <= period
    {
      while committed != [] && now - committed[0].ts > period
        invariant Evicting(total, evicted, committed, l, now)
        decreases |committed|
      {
        EvictFront(total, evicted, committed, l, now);
        total := (total - committed[0].n) % WORD;
        evicted := evicted + [committed[0]];
        committed := committed[1..];
      }
    }

    /** now is read before the lock is taken, at while holding it. */
    method Request(id: string, n: nat, expiration: int, now: int, at: int) returns (granted: bool)
      requires Valid() && n < WORD
      requires now <= at && log.clock <= at
      modifies this
      ensures Valid()
      ensures granted == Grants(At(old(log), at), n, now)
      ensures log == TokenLedger.Request(At(old(log), at), id, n, expiration, now)
    {
      ghost var l := At(log, at);
      StartEvicting(total, requested, evicted, committed, armed, nextTimer, log, at, now);
      Evict(now, l);
      EvictionIsExact(total, evicted, committed, l, now);
      log := Expire(l, now);
      granted := AddGrant(id, n, expiration, now, at, l);
    }

    /** The decision, once the list holds live commits only. */
    method AddGrant(id: string, n: nat, expiration: int, now: int, at: int, ghost l: Ledger)
      returns (granted: bool)
      requires Valid() && n < WORD && log == Expire(l, now)
      requires WellFormed(l) && now <= l.clock == at
      modifies this`total, this`requested, this`armed, this`nextTimer, this`log
      ensures Valid()
      ensures granted == Grants(l, n, now)
      ensures log == TokenLedger.Request(l, id, n, expiration, now)
    {
      GrantRefines(total, evicted, committed, l, id, n, expiration, now);
      log := TokenLedger.Request(l, id, n, expiration, now);
      if (total + n) % WORD > limit {
        return false;
      }
      total := (total + n) % WORD;
      requested := requested[id := Grant(n, nextTimer)];
      armed := armed[nextTimer := Alarm(id, at + expiration)];
      nextTimer := nextTimer + 1;
      return true;
    }

    method Secure(id: string)
      requires Valid()
      modifies this`armed, this`log
      ensures Valid() && log == TokenLedger.Secure(old(log), id)
    {
      log := TokenLedger.Secure(log, id);
      if id in requested {
        armed := armed - {requested[id].timer};
      }
    }

    method Commit(id: string, at: int)
      requires Valid() && log.clock <= at
      modifies this
      ensures Valid() && log == TokenLedger.Commit(At(old(log), at), id)
    {
      Advance(at);
      if id in requested {
        CommitRefines(total, requested, evicted, committed, armed, nextTimer, log, id);
        committed := committed + [Entry(id, requested[id].n, at)];
        requested := requested - {id};
      }
      log := TokenLedger.Commit(log, id);
    }

    method Withdraw(id: string)
      requires Valid()
      modifies this
      ensures Valid() && log == TokenLedger.Withdraw(old(log), id)
    {
      ghost var l := log;
      WithdrawReleases(l, id);
      log := TokenLedger.Withdraw(l, id);
      if id in requested {
        SubtractOnWords(total, InUse(l), requested[id].n);
        total := (total - requested[id].n) % WORD;
        requested := requested - {id};
      }
    }

    /** The runtime runs an armed timer's function once, at or after its due time. */
    method Fire(timer: nat, at: int)
      requires Valid() && log.clock <= at
      requires timer in armed && armed[timer].due <= at
      modifies this
      ensures Valid() && log == TokenLedger.Fire(At(old(log), at), timer)
    {
      var id := armed[timer].id;
      armed := armed - {timer};
      log := At(log, at).(alarms := log.alarms - {timer});
      Withdraw(id);
    }

    /** In a safe run the cached total is the tokens in use, and subtracting an outstanding grant
        or a kept commit never goes below zero. */
    lemma TotalIsExact()
      requires Valid() && Safe(log)
      ensures total == Sum(requested, Amount()) + Total(log.overwritten, Any()) + Total(committed, Any())
      ensures total <= limit
      ensures forall id :: id in requested ==> requested[id].n <= total
      ensures forall e :: e in committed ==> e.n <= total
    {
      RetainedTotal(evicted, committed, log.horizon - period);
      EachGrantCounts(requested);
      EachCommitCounts(committed);
    }
  }
}
