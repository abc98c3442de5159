/** The per-client cache of pricing rules, loaded from a rate-limited API that answers conditional
    requests. Runs are serialised: a load is over before the next call begins. */
module RulesCache {
  import opened Options
  import opened Pricing

  datatype Body = Garbled | Decoded(rules: RawRules)

  datatype Response =
    | NoResponse
    | Success(etag: string, body: Body)
    | NotModified
    | TooManyRequests
    | OtherStatus

  /** What one call sees of the world: the clock when it looks at the cache, when it looks at the
      rate limit, and when the load is over; the API's answer; and whether it came within the
      timeout. */
  datatype Call = Call(now: int, checked: int, end: int, response: Response, inTime: bool)

  /** lastUpdated is unset before the first load, and then every cache period has passed. */
  datatype Cache = Cache(rules: Option<RawRules>, lastUpdated: Option<int>,
                         etag: Option<string>, throttleReset: Option<int>)

  const EMPTY := Cache(None, None, None, None)

  /** Seconds to back off after the API says its rate limit is hit. */
  const BACKOFF_429: nat := 300

  predicate Fresh(c: Cache, now: int, period: nat) {
    c.lastUpdated.Some? && now - c.lastUpdated.value < period
  }

  predicate Throttled(c: Cache, now: int) {
    c.throttleReset.Some? && now < c.throttleReset.value
  }

  predicate Loads(c: Cache, k: Call, period: nat) {
    !Fresh(c, k.now, period) && !Throttled(c, k.checked)
  }

  /** A load's effect: the entity tag is kept before the body is read. */
  function Load(c: Cache, r: Response, end: int): Cache {
    match r
    case Success(etag, Garbled) => c.(etag := Some(etag))
    case Success(etag, Decoded(rules)) => c.(etag := Some(etag), rules := Some(rules), lastUpdated := Some(end))
    case TooManyRequests => c.(throttleReset := Some(end + BACKOFF_429))
    case _ => c
  }

  predicate LoadOk(r: Response) {
    r.NotModified? || (r.Success? && r.body.Decoded?)
  }

  function After(c: Cache, k: Call, period: nat): Cache {
    if Loads(c, k, period) then Load(c, k.response, k.end) else c
  }

  predicate IsValid(c: Cache, k: Call, period: nat) {
    Fresh(c, k.now, period) || (Loads(c, k, period) && k.inTime && LoadOk(k.response))
  }

  class ClientRules {
    var rules: Option<RawRules>
    var lastUpdated: Option<int>
    var etag: Option<string>
    var throttleReset: Option<int>

    function State(): Cache
      reads this
    {
      Cache(rules, lastUpdated, etag, throttleReset)
    }

    constructor ()
      ensures State() == EMPTY
    {
      rules, lastUpdated, etag, throttleReset := None, None, None, None;
    }

    method LoadRules(r: Response, end: int) returns (ok: bool)
      modifies this
      ensures State() == Load(old(State()), r, end) && ok == LoadOk(r)
      ensures ok <==> r.NotModified? || (r.Success? && r.body.Decoded?)
      ensures etag == if r.Success? then Some(r.etag) else old(etag)
      ensures rules == if r.Success? && r.body.Decoded? then Some(r.body.rules) else old(rules)
      ensures lastUpdated == if r.Success? && r.body.Decoded? then Some(end) else old(lastUpdated)
      ensures throttleReset == if r.TooManyRequests? then Some(end + 300) else old(throttleReset)
    {
      match r {
        case Success(tag, body) =>
        case NotModified => return true;
        case TooManyRequests =>
          throttleReset := Some(end + BACKOFF_429);
          return false;
        case _ => return false;
      }
      etag := Some(r.etag);
      if r.body.Garbled? {
        return false;
      }
      rules := Some(r.body.rules);
      lastUpdated := Some(end);
      return true;
    }

    method MaybeReloadRules(k: Call, period: nat) returns (valid: bool)
      modifies this
      ensures State() == After(old(State()), k, period) && valid == IsValid(old(State()), k, period)
      ensures var recent := old(lastUpdated).Some? && k.now - old(lastUpdated).value < period;
              var throttled := old(throttleReset).Some? && k.checked < old(throttleReset).value;
              valid <==> || recent
                         || (&& !throttled && k.inTime
                             && (k.response.NotModified? || (k.response.Success? && k.response.body.Decoded?)))
    {
      if lastUpdated.Some? && k.now - lastUpdated.value < period {
        return true;
      }
      if throttleReset.Some? {
        if k.checked < throttleReset.value {
          return false;
        }
      }
      var ok := LoadRules(k.response, k.end);
      return k.inTime && ok;
    }

    /** The prices of an auction, and whether they come from usable rules. */
    method PricesFor(k: Call, period: nat, d: Deal) returns (prices: ResolvedPrices, valid: bool)
      modifies this
      ensures State() == After(old(State()), k, period)
      ensures valid == (IsValid(old(State()), k, period) && State().rules.Some?)
      ensures var recent := old(lastUpdated).Some? && k.now - old(lastUpdated).value < period;
              var throttled := old(throttleReset).Some? && k.checked < old(throttleReset).value;
              !recent && !throttled && k.inTime && k.response.Success? && k.response.body.Decoded? ==>
                valid && rules == Some(k.response.body.rules) && lastUpdated == Some(k.end)
      ensures if valid && Open(State().rules.value)
              then prices.allowBidding && Resolves(prices, State().rules.value.pricingRules, d)
              else prices == NO_PRICES
    {
      prices := NO_PRICES;
      valid := MaybeReloadRules(k, period);
      if !valid {
        return;
      }
      if rules.None? {
        valid := false;
        return;
      }
      prices := ResolvePrices(rules.value, d);
    }
  }

  // ---- runs ----

  ghost predicate IsRun(from: int, ks: seq<Call>)
    decreases |ks|
  {
    ks == [] || (from <= ks[0].now <= ks[0].checked <= ks[0].end && IsRun(ks[0].end, ks[1..]))
  }

  ghost function Run(c: Cache, ks: seq<Call>, period: nat): Cache
    decreases |ks|
  {
    if ks == [] then c else Run(After(c, ks[0], period), ks[1..], period)
  }

  /** The cache as call i finds it. */
  ghost function Before(c: Cache, ks: seq<Call>, period: nat, i: nat): Cache
    requires i <= |ks|
  {
    Run(c, ks[..i], period)
  }

  lemma {:induction false} RunLast(c: Cache, ks: seq<Call>, period: nat, k: Call)
    ensures Run(c, ks + [k], period) == After(Run(c, ks, period), k, period)
    decreases |ks|
  {
    if ks == [] {
      assert [k][1..] == [];
    } else {
      assert (ks + [k])[1..] == ks[1..] + [k];
      RunLast(After(c, ks[0], period), ks[1..], period, k);
    }
  }

  lemma BeforeNext(c: Cache, ks: seq<Call>, period: nat, i: nat)
    requires i < |ks|
    ensures Before(c, ks, period, i + 1) == After(Before(c, ks, period, i), ks[i], period)
  {
    assert ks[..i + 1] == ks[..i] + [ks[i]];
    RunLast(c, ks[..i], period, ks[i]);
  }

  lemma {:induction false} CallsAreOrdered(from: int, ks: seq<Call>, i: nat, j: nat)
    requires IsRun(from, ks) && i < j < |ks|
    ensures ks[i].end <= ks[j].now && ks[j].now <= ks[j].checked <= ks[j].end
    decreases |ks|
  {
    if i > 0 {
      CallsAreOrdered(ks[0].end, ks[1..], i - 1, j - 1);
    } else {
      StartsAfter(ks[0].end, ks[1..], j - 1);
    }
  }

  lemma {:induction false} StartsAfter(from: int, ks: seq<Call>, j: nat)
    requires IsRun(from, ks) && j < |ks|
    ensures from <= ks[j].now <= ks[j].checked <= ks[j].end
    decreases |ks|
  {
    if j > 0 {
      StartsAfter(ks[0].end, ks[1..], j - 1);
    }
  }

  /** What call i recorded is still at least as recent when call j looks. */
  lemma {:induction false} RecordsStay(c: Cache, from: int, ks: seq<Call>, period: nat, i: nat, j: nat)
    requires IsRun(from, ks) && i < j <= |ks| && Loads(Before(c, ks, period, i), ks[i], period)
    ensures var b := Before(c, ks, period, j);
            && (ks[i].response.Success? && ks[i].response.body.Decoded? ==>
                  b.lastUpdated.Some? && ks[i].end <= b.lastUpdated.value)
            && (ks[i].response.TooManyRequests? ==>
                  b.throttleReset.Some? && ks[i].end + BACKOFF_429 <= b.throttleReset.value)
    decreases j
  {
    BeforeNext(c, ks, period, j - 1);
    if i < j - 1 {
      RecordsStay(c, from, ks, period, i, j - 1);
      CallsAreOrdered(from, ks, i, j - 1);
    }
  }

  /** Over every run, no load starts within the cache period of a decoded answer, nor within the
      backoff after the API said its limit was hit. */
  lemma LoadsKeepTheirDistance(c: Cache, from: int, ks: seq<Call>, period: nat, i: nat, j: nat)
    requires IsRun(from, ks) && i < j < |ks|
    requires Loads(Before(c, ks, period, i), ks[i], period) && Loads(Before(c, ks, period, j), ks[j], period)
    ensures ks[i].response.Success? && ks[i].response.body.Decoded? ==> ks[j].now - ks[i].end >= period
    ensures ks[i].response.TooManyRequests? ==> ks[j].checked >= ks[i].end + BACKOFF_429
  {
    RecordsStay(c, from, ks, period, i, j);
  }

  // ---- what the cache holds ----

  /** Call i loaded, and the API answered with rules, readable or not. */
  ghost predicate Answered(ks: seq<Call>, period: nat, i: nat) {
    i < |ks| && Loads(Before(EMPTY, ks, period, i), ks[i], period) && ks[i].response.Success?
  }

  ghost predicate Decodes(ks: seq<Call>, period: nat, i: nat) {
    Answered(ks, period, i) && ks[i].response.body.Decoded?
  }

  ghost predicate LastAnswer(ks: seq<Call>, period: nat, i: nat) {
    Answered(ks, period, i) && forall j :: i < j < |ks| ==> !Answered(ks, period, j)
  }

  ghost predicate LastDecoded(ks: seq<Call>, period: nat, i: nat) {
    Decodes(ks, period, i) && forall j :: i < j < |ks| ==> !Decodes(ks, period, j)
  }

  lemma AnsweredInLongerRun(ks: seq<Call>, k: Call, period: nat, i: nat)
    requires i < |ks|
    ensures Answered(ks + [k], period, i) == Answered(ks, period, i)
    ensures Decodes(ks + [k], period, i) == Decodes(ks, period, i)
  {
    assert (ks + [k])[..i] == ks[..i];
  }

  lemma LastInLongerRun(ks: seq<Call>, k: Call, period: nat)
    ensures forall i :: 0 <= i < |ks| ==> Answered(ks + [k], period, i) == Answered(ks, period, i)
    ensures forall i :: 0 <= i < |ks| ==> Decodes(ks + [k], period, i) == Decodes(ks, period, i)
    ensures Answered(ks + [k], period, |ks|) <==> Loads(Run(EMPTY, ks, period), k, period) && k.response.Success?
  {
    forall i: nat | i < |ks|
      ensures Answered(ks + [k], period, i) == Answered(ks, period, i)
      ensures Decodes(ks + [k], period, i) == Decodes(ks, period, i)
    {
      AnsweredInLongerRun(ks, k, period, i);
    }
    assert (ks + [k])[..|ks|] == ks;
  }

  /** The cached tag is that of the last answer. */
  ghost predicate TagIsOfLastAnswer(c: Cache, ks: seq<Call>, period: nat) {
    if c.etag.None?
    then forall i :: 0 <= i < |ks| ==> !Answered(ks, period, i)
    else exists i: nat :: LastAnswer(ks, period, i) && c.etag.value == ks[i].response.etag
  }

  /** The cached rules and their timestamp are those of the last answer that could be read. */
  ghost predicate RulesAreOfLastDecoded(c: Cache, ks: seq<Call>, period: nat) {
    if c.lastUpdated.None?
    then c.rules.None? && forall i :: 0 <= i < |ks| ==> !Decodes(ks, period, i)
    else exists i: nat :: LastDecoded(ks, period, i) && c.rules == Some(ks[i].response.body.rules)
                          && c.lastUpdated.value == ks[i].end
  }

  lemma {:induction false} TagComesFromLastAnswer(ks: seq<Call>, period: nat)
    ensures TagIsOfLastAnswer(Run(EMPTY, ks, period), ks, period)
    decreases |ks|
  {
    if ks != [] {
      var n := |ks| - 1;
      var c, k := Run(EMPTY, ks[..n], period), ks[n];
      TagComesFromLastAnswer(ks[..n], period);
      LastInLongerRun(ks[..n], k, period);
      RunLast(EMPTY, ks[..n], period, k);
      assert ks == ks[..n] + [k];
      if Answered(ks, period, n) {
        assert LastAnswer(ks, period, n);
      } else if c.etag.Some? {
        var i: nat :| LastAnswer(ks[..n], period, i) && c.etag.value == ks[i].response.etag;
        assert LastAnswer(ks, period, i);
      }
    }
  }

  lemma {:induction false} RulesComeFromLastDecoded(ks: seq<Call>, period: nat)
    ensures RulesAreOfLastDecoded(Run(EMPTY, ks, period), ks, period)
    decreases |ks|
  {
    if ks != [] {
      var n := |ks| - 1;
      var c, k := Run(EMPTY, ks[..n], period), ks[n];
      RulesComeFromLastDecoded(ks[..n], period);
      LastInLongerRun(ks[..n], k, period);
      RunLast(EMPTY, ks[..n], period, k);
      assert ks == ks[..n] + [k];
      if Decodes(ks, period, n) {
        assert LastDecoded(ks, period, n);
      } else if c.lastUpdated.Some? {
        var i: nat :| LastDecoded(ks[..n], period, i) && c.rules == Some(ks[i].response.body.rules)
                      && c.lastUpdated.value == ks[i].end;
        assert LastDecoded(ks, period, i);
      }
    }
  }

  // ---- what a valid result vouches for ----

  /** Every answer of a call that loaded could be read. */
  ghost predicate Readable(ks: seq<Call>, period: nat) {
    forall i :: 0 <= i < |ks| && Answered(ks, period, i) ==> Decodes(ks, period, i)
  }

  /** Rules, tag and timestamp are those of the answer to call i, the last one there was. */
  ghost predicate StoredBy(c: Cache, ks: seq<Call>, period: nat, i: nat) {
    && LastAnswer(ks, period, i) && Decodes(ks, period, i)
    && c.rules == Some(ks[i].response.body.rules)
    && c.etag == Some(ks[i].response.etag) && c.lastUpdated == Some(ks[i].end)
  }

  lemma ReadableRunsStoreTheLastAnswer(ks: seq<Call>, period: nat)
    requires Readable(ks, period)
    ensures var c := Run(EMPTY, ks, period);
            || (c.rules.None? && c.etag.None? && c.lastUpdated.None?)
            || exists i: nat :: StoredBy(c, ks, period, i)
  {
    var c := Run(EMPTY, ks, period);
    TagComesFromLastAnswer(ks, period);
    RulesComeFromLastDecoded(ks, period);
    if c.etag.Some? {
      var i: nat :| LastAnswer(ks, period, i) && c.etag.value == ks[i].response.etag;
      assert Decodes(ks, period, i);
      var j: nat :| LastDecoded(ks, period, j) && c.rules == Some(ks[j].response.body.rules)
                    && c.lastUpdated.value == ks[j].end;
      assert i == j;
      assert StoredBy(c, ks, period, i);
    }
  }

  /** When every answer can be read, a valid result means one of three things: rules, tag and
      timestamp come from one answer within the cache period; this call stored the API's new answer;
      or the API said that nothing changed, and the cache is as an earlier answer left it. Only an API
      that says so to a client without rules leaves it without any. */
  lemma ValidRulesAreCurrent(ks: seq<Call>, k: Call, period: nat)
    requires Readable(ks, period) && IsValid(Run(EMPTY, ks, period), k, period)
    ensures var c := Run(EMPTY, ks, period);
            var r := After(c, k, period);
            if Fresh(c, k.now, period)
            then r == c && exists i: nat :: StoredBy(c, ks, period, i) && k.now - ks[i].end < period
            else
              && Loads(c, k, period) && k.inTime
              && match k.response
                 case Success(etag, Decoded(rules)) =>
                   r.rules == Some(rules) && r.etag == Some(etag) && r.lastUpdated == Some(k.end)
                 case NotModified =>
                   && r == c
                   && ((r.rules.None? && r.etag.None?) || exists i: nat :: StoredBy(c, ks, period, i))
                 case _ => false
  {
    ReadableRunsStoreTheLastAnswer(ks, period);
  }

  // ---- when a result is valid ----

  /** Call i loaded, and the API answered that its rate limit is hit. */
  ghost predicate Limited(ks: seq<Call>, period: nat, i: nat) {
    i < |ks| && Loads(Before(EMPTY, ks, period, i), ks[i], period) && ks[i].response.TooManyRequests?
  }

  ghost predicate LastLimited(ks: seq<Call>, period: nat, i: nat) {
    Limited(ks, period, i) && forall j :: i < j < |ks| ==> !Limited(ks, period, j)
  }

  lemma LimitedInLongerRun(ks: seq<Call>, k: Call, period: nat)
    ensures forall i :: 0 <= i < |ks| ==> Limited(ks + [k], period, i) == Limited(ks, period, i)
    ensures Limited(ks + [k], period, |ks|)
            <==> Loads(Run(EMPTY, ks, period), k, period) && k.response.TooManyRequests?
  {
    forall i | 0 <= i < |ks| ensures Limited(ks + [k], period, i) == Limited(ks, period, i) {
      assert (ks + [k])[..i] == ks[..i];
    }
    assert (ks + [k])[..|ks|] == ks;
  }

  ghost predicate ResetIsOfLastLimited(c: Cache, ks: seq<Call>, period: nat) {
    if c.throttleReset.None?
    then forall i :: 0 <= i < |ks| ==> !Limited(ks, period, i)
    else exists i: nat :: LastLimited(ks, period, i) && c.throttleReset.value == ks[i].end + 300
  }

  lemma {:induction false} ResetComesFromLastLimited(ks: seq<Call>, period: nat)
    ensures ResetIsOfLastLimited(Run(EMPTY, ks, period), ks, period)
    decreases |ks|
  {
    if ks != [] {
      var n := |ks| - 1;
      var c, k := Run(EMPTY, ks[..n], period), ks[n];
      ResetComesFromLastLimited(ks[..n], period);
      LimitedInLongerRun(ks[..n], k, period);
      RunLast(EMPTY, ks[..n], period, k);
      assert ks == ks[..n] + [k];
      if Limited(ks, period, n) {
        assert LastLimited(ks, period, n);
      } else if c.throttleReset.Some? {
        var i: nat :| LastLimited(ks[..n], period, i) && c.throttleReset.value == ks[i].end + 300;
        assert LastLimited(ks, period, i);
      }
    }
  }

  /** The last answer that could be read came within the cache period. */
  ghost predicate Recent(ks: seq<Call>, now: int, period: nat) {
    exists i: nat :: LastDecoded(ks, period, i) && now - ks[i].end < period
  }

  /** The API said less than five minutes ago that its rate limit is hit. */
  ghost predicate BackingOff(ks: seq<Call>, checked: int, period: nat) {
    exists i: nat :: LastLimited(ks, period, i) && checked < ks[i].end + 300
  }

  lemma CacheIsFreshIff(ks: seq<Call>, now: int, period: nat)
    ensures var c := Run(EMPTY, ks, period);
            (c.lastUpdated.Some? && now - c.lastUpdated.value < period) <==> Recent(ks, now, period)
  {
    var c := Run(EMPTY, ks, period);
    RulesComeFromLastDecoded(ks, period);
    if c.lastUpdated.Some? {
      var i: nat :| LastDecoded(ks, period, i) && c.lastUpdated.value == ks[i].end;
      assert forall x: nat :: LastDecoded(ks, period, x) ==> x == i;
    } else {
      assert forall x: nat :: !LastDecoded(ks, period, x);
    }
  }

  lemma CacheIsThrottledIff(ks: seq<Call>, checked: int, period: nat)
    ensures var c := Run(EMPTY, ks, period);
            (c.throttleReset.Some? && checked < c.throttleReset.value) <==> BackingOff(ks, checked, period)
  {
    var c := Run(EMPTY, ks, period);
    ResetComesFromLastLimited(ks, period);
    if c.throttleReset.Some? {
      var i: nat :| LastLimited(ks, period, i) && c.throttleReset.value == ks[i].end + 300;
      assert forall x: nat :: LastLimited(ks, period, x) ==> x == i;
    } else {
      assert forall x: nat :: !LastLimited(ks, period, x);
    }
  }

  /** After any run of calls, the next one loads exactly when no readable answer is recent and the API is
      not to be left alone; and its result is valid exactly when a readable answer is recent, or it loads
      and is answered in time with rules that can be read or with the word that nothing changed. */
  lemma ResultIsValidIff(ks: seq<Call>, k: Call, period: nat)
    ensures var c := Run(EMPTY, ks, period);
            && (Loads(c, k, period) <==> !Recent(ks, k.now, period) && !BackingOff(ks, k.checked, period))
            && (IsValid(c, k, period)
                <==> || Recent(ks, k.now, period)
                     || (&& !BackingOff(ks, k.checked, period) && k.inTime
                         && (|| k.response.NotModified?
                             || (k.response.Success? && k.response.body.Decoded?))))
  {
    CacheIsFreshIff(ks, k.now, period);
    CacheIsThrottledIff(ks, k.checked, period);
  }

  /** Rules that are answered in time when they are asked for are used at once, and until the cache period
      is over. */
  lemma AnsweredRulesAreUsed(ks: seq<Call>, k: Call, later: Call, period: nat)
    requires !Recent(ks, k.now, period) && !BackingOff(ks, k.checked, period)
    requires k.inTime && k.response.Success? && k.response.body.Decoded?
    ensures var c := Run(EMPTY, ks, period);
            var r := After(c, k, period);
            && IsValid(c, k, period) && r.rules == Some(k.response.body.rules)
            && (later.now - k.end < period ==> IsValid(r, later, period) && After(r, later, period) == r)
  {
    ResultIsValidIff(ks, k, period);
  }

  // ---- whether the rules are the version that the tag names ----

  /** The API gives every version of the rules its own tag, and only says that nothing changed about
      the version whose tag it was sent. */
  predicate Honest(c: Cache, r: Response, versions: map<string, RawRules>) {
    match r
    case Success(etag, Garbled) => etag in versions
    case Success(etag, Decoded(rules)) => etag in versions && versions[etag] == rules
    case NotModified => c.etag.Some? && c.etag.value in versions
    case _ => true
  }

  ghost predicate HonestRun(ks: seq<Call>, period: nat, versions: map<string, RawRules>) {
    forall i :: 0 <= i < |ks| && Loads(Before(EMPTY, ks, period, i), ks[i], period) ==>
      Honest(Before(EMPTY, ks, period, i), ks[i].response, versions)
  }

  /** The cached rules are the version that the cached tag names. */
  predicate Consistent(c: Cache, versions: map<string, RawRules>) {
    c.etag.Some? ==> c.etag.value in versions && c.rules == Some(versions[c.etag.value])
  }

  predicate SameVersion(versions: map<string, RawRules>, a: string, b: string) {
    a in versions && b in versions && versions[a] == versions[b]
  }

  /** The last answer could be read, or it named the version of the last one that could. */
  ghost predicate LastAnswerIsKnown(ks: seq<Call>, period: nat, versions: map<string, RawRules>) {
    forall i: nat :: LastAnswer(ks, period, i) ==>
      exists j: nat :: LastDecoded(ks, period, j)
                       && SameVersion(versions, ks[i].response.etag, ks[j].response.etag)
  }

  /** After any run of an honest API, rules and tag are consistent exactly when the last answer could
      be read, or named the version of the last one that could. */
  lemma RunIsConsistentIff(ks: seq<Call>, period: nat, versions: map<string, RawRules>)
    requires HonestRun(ks, period, versions)
    ensures Consistent(Run(EMPTY, ks, period), versions) <==> LastAnswerIsKnown(ks, period, versions)
  {
    var c := Run(EMPTY, ks, period);
    TagComesFromLastAnswer(ks, period);
    RulesComeFromLastDecoded(ks, period);
    if c.etag.Some? {
      var i: nat :| LastAnswer(ks, period, i) && c.etag.value == ks[i].response.etag;
      assert forall x: nat :: LastAnswer(ks, period, x) ==> x == i;
      if c.lastUpdated.Some? {
        var j: nat :| LastDecoded(ks, period, j) && c.rules == Some(ks[j].response.body.rules);
        assert forall x: nat :: LastDecoded(ks, period, x) ==> x == j;
        assert versions[ks[j].response.etag] == ks[j].response.body.rules;
      } else {
        assert forall x: nat :: !LastDecoded(ks, period, x);
      }
    } else {
      assert forall x: nat :: !LastAnswer(ks, period, x);
    }
  }

  /** With an honest API whose answers can be read, a valid result means that the stored rules are the
      version named by the stored tag. */
  lemma ValidRulesAreTheTaggedVersion(ks: seq<Call>, k: Call, period: nat, versions: map<string, RawRules>)
    requires HonestRun(ks + [k], period, versions) && Readable(ks, period)
    requires IsValid(Run(EMPTY, ks, period), k, period)
    ensures var r := Run(EMPTY, ks + [k], period);
            && r.etag.Some? && r.etag.value in versions && r.rules == Some(versions[r.etag.value])
  {
    var c := Run(EMPTY, ks, period);
    RunLast(EMPTY, ks, period, k);
    ReadableRunsStoreTheLastAnswer(ks, period);
    HonestPrefix(ks, k, period, versions);
    if i: nat :| StoredBy(c, ks, period, i) {
      assert versions[ks[i].response.etag] == ks[i].response.body.rules;
    }
  }

  lemma HonestPrefix(ks: seq<Call>, k: Call, period: nat, versions: map<string, RawRules>)
    requires HonestRun(ks + [k], period, versions)
    ensures HonestRun(ks, period, versions)
    ensures Loads(Run(EMPTY, ks, period), k, period) ==> Honest(Run(EMPTY, ks, period), k.response, versions)
  {
    var all := ks + [k];
    assert all[..|ks|] == ks;
    forall i | 0 <= i < |ks| && Loads(Before(EMPTY, ks, period, i), ks[i], period)
      ensures Honest(Before(EMPTY, ks, period, i), ks[i].response, versions)
    {
      assert all[..i] == ks[..i] && all[i] == ks[i];
    }
    assert Before(EMPTY, all, period, |ks|) == Run(EMPTY, ks, period) && all[|ks|] == k;
  }

  /** Rules, a newer version that cannot be read, and the answer that nothing changed since. */
  function HidingRun(older: RawRules, period: nat, later: nat): seq<Call> {
    [Call(0, 0, 0, Success("v1", Decoded(older)), true),
     Call(period, period, period, Success("v2", Garbled), true),
     Call(period + later, period + later, period + later, NotModified, true)]
  }

  /** An answer that cannot be read, followed at any later time by one that nothing changed, makes a
      call valid with the rules of the older version. */
  lemma GarbledBodyHidesANewVersion(older: RawRules, newer: RawRules, period: nat, later: nat)
    requires older != newer
    ensures var versions := map["v1" := older, "v2" := newer];
            var ks := HidingRun(older, period, later);
            && IsRun(0, ks) && HonestRun(ks, period, versions)
            && IsValid(Run(EMPTY, ks[..2], period), ks[2], period)
            && Run(EMPTY, ks, period).rules == Some(older)
            && LastAnswer(ks, period, 1) && ks[1].response.etag == "v2"
            && !LastAnswerIsKnown(ks, period, versions)
  {
    var versions := map["v1" := older, "v2" := newer];
    var ks := HidingRun(older, period, later);
    var c1 := Cache(Some(older), Some(0), Some("v1"), None);
    var c2 := c1.(etag := Some("v2"));
    assert ks[..0] == [] && Before(EMPTY, ks, period, 0) == EMPTY;
    BeforeNext(EMPTY, ks, period, 0);
    assert Before(EMPTY, ks, period, 1) == c1;
    BeforeNext(EMPTY, ks, period, 1);
    assert Before(EMPTY, ks, period, 2) == c2;
    BeforeNext(EMPTY, ks, period, 2);
    assert ks[..3] == ks;
    assert IsRun(period, ks[1..]) by {
      assert ks[1..][1..] == [ks[2]];
    }
    RunIsConsistentIff(ks, period, versions);
  }
}
