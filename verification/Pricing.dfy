/** Resolving an auction's prices from a list of pricing rules. */
module Pricing {

  datatype Rule = Rule(verified: string, minSize: nat, maxSize: nat,
                       minDuration: nat, maxDuration: nat, price: int)

  datatype RawRules = RawRules(blocked: bool, maintenanceMode: bool,
                               dealRateLimit: int, currentDealRate: int, pricingRules: seq<Rule>)

  datatype Deal = Deal(size: nat, duration: nat)

  datatype ResolvedPrices = ResolvedPrices(
    allowBidding: bool,
    unverifiedPriceValid: bool, unverifiedPrice: int,
    verifiedPriceValid: bool, verifiedPrice: int)

  const NO_PRICES := ResolvedPrices(false, false, 0, false, 0)

  predicate Matches(r: Rule, d: Deal) {
    r.minSize <= d.size <= r.maxSize && r.minDuration <= d.duration <= r.maxDuration
  }

  // ---- the declarative form ----

  /** Rule i prices verified deals. */
  predicate ForVerified(rules: seq<Rule>, d: Deal, i: nat) {
    i < |rules| && Matches(rules[i], d) && (rules[i].verified == "true" || rules[i].verified == "any")
  }

  /** Rule i prices unverified deals: a rule for any deal only does so after an earlier one has
      priced the verified ones. */
  predicate ForUnverified(rules: seq<Rule>, d: Deal, i: nat) {
    && i < |rules| && Matches(rules[i], d)
    && (|| rules[i].verified == "false"
        || (rules[i].verified == "any" && exists j :: 0 <= j < i && ForVerified(rules, d, j)))
  }

  ghost predicate FirstForVerified(rules: seq<Rule>, d: Deal, i: nat) {
    ForVerified(rules, d, i) && forall j :: 0 <= j < i ==> !ForVerified(rules, d, j)
  }

  ghost predicate FirstForUnverified(rules: seq<Rule>, d: Deal, i: nat) {
    ForUnverified(rules, d, i) && forall j :: 0 <= j < i ==> !ForUnverified(rules, d, j)
  }

  /** Each price is that of the first rule that sets it, and unset when there is none. */
  ghost predicate Resolves(p: ResolvedPrices, rules: seq<Rule>, d: Deal) {
    && (if p.verifiedPriceValid
        then exists i: nat :: FirstForVerified(rules, d, i) && p.verifiedPrice == rules[i].price
        else p.verifiedPrice == 0 && forall i :: 0 <= i < |rules| ==> !ForVerified(rules, d, i))
    && (if p.unverifiedPriceValid
        then exists i: nat :: FirstForUnverified(rules, d, i) && p.unverifiedPrice == rules[i].price
        else p.unverifiedPrice == 0 && forall i :: 0 <= i < |rules| ==> !ForUnverified(rules, d, i))
  }

  lemma FirstIsUnique(rules: seq<Rule>, d: Deal, i: nat, j: nat)
    ensures FirstForVerified(rules, d, i) && FirstForVerified(rules, d, j) ==> i == j
    ensures FirstForUnverified(rules, d, i) && FirstForUnverified(rules, d, j) ==> i == j
  {
    if i < j {
      assert FirstForVerified(rules, d, j) ==> !ForVerified(rules, d, i);
      assert FirstForUnverified(rules, d, j) ==> !ForUnverified(rules, d, i);
    }
    if j < i {
      assert FirstForVerified(rules, d, i) ==> !ForVerified(rules, d, j);
      assert FirstForUnverified(rules, d, i) ==> !ForUnverified(rules, d, j);
    }
  }

  lemma LongerList(rules: seq<Rule>, more: seq<Rule>, d: Deal, i: nat)
    requires i < |rules|
    ensures ForVerified(rules + more, d, i) == ForVerified(rules, d, i)
    ensures ForUnverified(rules + more, d, i) == ForUnverified(rules, d, i)
  {
    assert forall j :: 0 <= j <= i ==> ForVerified(rules + more, d, j) == ForVerified(rules, d, j);
  }

  /** A price resolved from a list stays the same whatever rules are appended to it. */
  lemma AppendingKeepsResolvedPrices(rules: seq<Rule>, more: seq<Rule>, d: Deal,
                                     p: ResolvedPrices, q: ResolvedPrices)
    requires Resolves(p, rules, d) && Resolves(q, rules + more, d)
    ensures p.verifiedPriceValid ==> q.verifiedPriceValid && q.verifiedPrice == p.verifiedPrice
    ensures p.unverifiedPriceValid ==> q.unverifiedPriceValid && q.unverifiedPrice == p.unverifiedPrice
  {
    forall i | 0 <= i < |rules|
      ensures ForVerified(rules + more, d, i) == ForVerified(rules, d, i)
      ensures ForUnverified(rules + more, d, i) == ForUnverified(rules, d, i)
    {
      LongerList(rules, more, d, i);
    }
    if p.verifiedPriceValid {
      var i: nat :| FirstForVerified(rules, d, i) && p.verifiedPrice == rules[i].price;
      assert FirstForVerified(rules + more, d, i);
      var j: nat :| FirstForVerified(rules + more, d, j) && q.verifiedPrice == (rules + more)[j].price;
      FirstIsUnique(rules + more, d, i, j);
    }
    if p.unverifiedPriceValid {
      var i: nat :| FirstForUnverified(rules, d, i) && p.unverifiedPrice == rules[i].price;
      assert FirstForUnverified(rules + more, d, i);
      var j: nat :| FirstForUnverified(rules + more, d, j) && q.unverifiedPrice == (rules + more)[j].price;
      FirstIsUnique(rules + more, d, i, j);
    }
  }

  /** The declarative form determines the prices. */
  lemma ResolvedPricesAreUnique(rules: seq<Rule>, d: Deal, p: ResolvedPrices, q: ResolvedPrices)
    requires Resolves(p, rules, d) && Resolves(q, rules, d) && p.allowBidding == q.allowBidding
    ensures p == q
  {
    assert rules + [] == rules;
    AppendingKeepsResolvedPrices(rules, [], d, p, q);
    AppendingKeepsResolvedPrices(rules, [], d, q, p);
  }

  // ---- which rules count ----

  /** What a list of one rule decides: it applies to sizes and durations between its bounds, bounds
      included; a rule for verified or for any deal prices verified deals, and one for unverified deals
      prices those. */
  lemma OneRuleDecides(r: Rule, d: Deal, p: ResolvedPrices)
    requires Resolves(p, [r], d)
    ensures var applies := && r.minSize <= d.size && d.size <= r.maxSize
                           && r.minDuration <= d.duration && d.duration <= r.maxDuration;
            && (p.verifiedPriceValid <==> applies && (r.verified == "true" || r.verified == "any"))
            && (p.verifiedPriceValid ==> p.verifiedPrice == r.price)
            && (p.unverifiedPriceValid <==> applies && r.verified == "false")
            && (p.unverifiedPriceValid ==> p.unverifiedPrice == r.price)
  {
    var l := [r];
    assert ForVerified(l, d, 0) <==> Matches(r, d) && (r.verified == "true" || r.verified == "any");
    assert ForUnverified(l, d, 0) <==> Matches(r, d) && r.verified == "false";
    assert p.verifiedPriceValid <==> ForVerified(l, d, 0);
    assert p.unverifiedPriceValid <==> ForUnverified(l, d, 0);
  }

  // ---- whether the first match wins ----

  /** Rule i says that it is for unverified deals. */
  predicate MeantForUnverified(rules: seq<Rule>, d: Deal, i: nat) {
    i < |rules| && Matches(rules[i], d) && (rules[i].verified == "false" || rules[i].verified == "any")
  }

  ghost predicate FirstMeant(rules: seq<Rule>, d: Deal, i: nat) {
    MeantForUnverified(rules, d, i) && forall j :: 0 <= j < i ==> !MeantForUnverified(rules, d, j)
  }

  /** Rule i is for unverified deals only, or a matching rule for verified deals comes before it. */
  predicate SetsUnverified(rules: seq<Rule>, d: Deal, i: nat)
    requires i < |rules|
  {
    rules[i].verified == "false" || exists j :: 0 <= j < i && Matches(rules[j], d) && rules[j].verified == "true"
  }

  /** The first rule meant for unverified deals is the one that prices them exactly when it is for
      nothing else or a rule for verified deals precedes it. */
  lemma FirstMeantIsUsedIff(rules: seq<Rule>, d: Deal, i: nat)
    requires FirstMeant(rules, d, i)
    ensures FirstForUnverified(rules, d, i) <==> SetsUnverified(rules, d, i)
  {
    forall j: nat | j < i
      ensures !ForUnverified(rules, d, j)
      ensures ForVerified(rules, d, j) <==> Matches(rules[j], d) && rules[j].verified == "true"
    {
      assert !MeantForUnverified(rules, d, j);
    }
    if SetsUnverified(rules, d, i) && rules[i].verified == "any" {
      var j :| 0 <= j < i && Matches(rules[j], d) && rules[j].verified == "true";
      assert ForVerified(rules, d, j);
    }
  }

  /** Rule i is the first one meant for unverified deals, and rule k the next. */
  ghost predicate SecondMeant(rules: seq<Rule>, d: Deal, i: nat, k: nat) {
    && FirstMeant(rules, d, i) && i < k && MeantForUnverified(rules, d, k)
    && forall j :: i < j < k ==> !MeantForUnverified(rules, d, j)
  }

  /** When the first rule meant for unverified deals does not price them, the second one does. */
  lemma SecondMeantIsUsedIff(rules: seq<Rule>, d: Deal, i: nat, k: nat)
    requires FirstMeant(rules, d, i) && !SetsUnverified(rules, d, i)
    ensures FirstForUnverified(rules, d, k) <==> SecondMeant(rules, d, i, k)
  {
    assert ForVerified(rules, d, i);
    forall j: nat | j < i ensures !ForVerified(rules, d, j) && !ForUnverified(rules, d, j) {
      assert !MeantForUnverified(rules, d, j);
    }
    assert !ForUnverified(rules, d, i);
    assert forall j: nat :: i < j ==> ForUnverified(rules, d, j) == MeantForUnverified(rules, d, j);
  }

  /** The first match decides the unverified price exactly when its rule sets it, or when the next rule
      meant for unverified deals asks for the same. */
  lemma FirstMatchWinsIff(rules: seq<Rule>, d: Deal, p: ResolvedPrices)
    requires Resolves(p, rules, d)
    ensures forall i: nat :: FirstMeant(rules, d, i) ==>
              (p.unverifiedPriceValid && p.unverifiedPrice == rules[i].price
               <==> || SetsUnverified(rules, d, i)
                    || exists k: nat :: SecondMeant(rules, d, i, k) && rules[k].price == rules[i].price)
    ensures !(exists i: nat :: FirstMeant(rules, d, i)) ==> !p.unverifiedPriceValid
  {
    forall i: nat | FirstMeant(rules, d, i)
      ensures p.unverifiedPriceValid && p.unverifiedPrice == rules[i].price
              <==> || SetsUnverified(rules, d, i)
                   || exists k: nat :: SecondMeant(rules, d, i, k) && rules[k].price == rules[i].price
    {
      FirstMeantDecidesIff(rules, d, p, i);
    }
    if p.unverifiedPriceValid {
      var k: nat :| FirstForUnverified(rules, d, k) && p.unverifiedPrice == rules[k].price;
      assert MeantForUnverified(rules, d, k);
      SomeRuleIsFirst(rules, d, k);
    }
  }

  lemma FirstMeantDecidesIff(rules: seq<Rule>, d: Deal, p: ResolvedPrices, i: nat)
    requires Resolves(p, rules, d) && FirstMeant(rules, d, i)
    ensures p.unverifiedPriceValid && p.unverifiedPrice == rules[i].price
            <==> || SetsUnverified(rules, d, i)
                 || exists k: nat :: SecondMeant(rules, d, i, k) && rules[k].price == rules[i].price
  {
    forall k: nat, l: nat ensures FirstForUnverified(rules, d, k) && FirstForUnverified(rules, d, l) ==> k == l {
      FirstIsUnique(rules, d, k, l);
    }
    if SetsUnverified(rules, d, i) {
      FirstMeantIsUsedIff(rules, d, i);
    } else {
      forall k: nat ensures FirstForUnverified(rules, d, k) <==> SecondMeant(rules, d, i, k) {
        SecondMeantIsUsedIff(rules, d, i, k);
      }
    }
  }

  lemma {:induction false} SomeRuleIsFirst(rules: seq<Rule>, d: Deal, k: nat)
    requires MeantForUnverified(rules, d, k)
    ensures exists i: nat :: FirstMeant(rules, d, i)
    decreases k
  {
    if j: nat :| j < k && MeantForUnverified(rules, d, j) {
      SomeRuleIsFirst(rules, d, j);
    } else {
      assert FirstMeant(rules, d, k);
    }
  }

  /** A single rule for any deal prices verified deals only. */
  lemma OneRuleForAnyDealLeavesUnverifiedUnpriced(r: Rule, d: Deal, p: ResolvedPrices)
    requires r.verified == "any" && Matches(r, d) && Resolves(p, [r], d)
    ensures p.verifiedPriceValid && p.verifiedPrice == r.price && !p.unverifiedPriceValid
  {
    var l := [r];
    assert l[0] == r && ForVerified(l, d, 0) && !ForUnverified(l, d, 0);
    assert forall i: nat :: FirstForVerified(l, d, i) ==> i == 0;
    assert forall i: nat :: !FirstForUnverified(l, d, i);
  }

  // ---- the loop ----

  /** Rules are checked in sequence; the loop stops as soon as both prices are set. */
  method MatchRules(rules: seq<Rule>, d: Deal, start: ResolvedPrices) returns (prices: ResolvedPrices)
    requires start == NO_PRICES.(allowBidding := start.allowBidding)
    ensures Resolves(prices, rules, d) && prices.allowBidding == start.allowBidding
  {
    prices := start;
    for i := 0 to |rules|
      invariant prices.allowBidding == start.allowBidding
      invariant Resolves(prices, rules[..i], d)
    {
      var r := rules[i];
      ghost var before := prices;
      if Matches(r, d) {
        if (r.verified == "true" || r.verified == "any") && !prices.verifiedPriceValid {
          prices := prices.(verifiedPriceValid := true, verifiedPrice := r.price);
        } else if (r.verified == "false" || r.verified == "any") && !prices.unverifiedPriceValid {
          prices := prices.(unverifiedPriceValid := true, unverifiedPrice := r.price);
        }
      }
      assert rules[..i + 1] == rules[..i] + [r];
      OneMoreRule(rules[..i], r, d, before, prices);
      if prices.verifiedPriceValid && prices.unverifiedPriceValid {
        assert rules == rules[..i + 1] + rules[i + 1..];
        BothResolvedIsFinal(rules[..i + 1], rules[i + 1..], d, prices);
        return;
      }
    }
    assert rules[..|rules|] == rules;
  }

  /** Whether the appended rule may price unverified deals depends on the verified price being set. */
  lemma EarlierRulesDecide(rules: seq<Rule>, r: Rule, d: Deal, p: ResolvedPrices)
    requires Resolves(p, rules, d)
    ensures ForVerified(rules + [r], d, |rules|)
            <==> Matches(r, d) && (r.verified == "true" || r.verified == "any")
    ensures ForUnverified(rules + [r], d, |rules|)
            <==> Matches(r, d) && (r.verified == "false" || (r.verified == "any" && p.verifiedPriceValid))
  {
    forall j | 0 <= j < |rules| ensures ForVerified(rules + [r], d, j) == ForVerified(rules, d, j) {
      LongerList(rules, [r], d, j);
    }
    if p.verifiedPriceValid {
      var i: nat :| FirstForVerified(rules, d, i) && p.verifiedPrice == rules[i].price;
      assert ForVerified(rules + [r], d, i);
    }
  }

  /** The step of the loop. */
  function AfterRule(r: Rule, d: Deal, p: ResolvedPrices): ResolvedPrices {
    if !Matches(r, d) then p
    else if (r.verified == "true" || r.verified == "any") && !p.verifiedPriceValid
    then p.(verifiedPriceValid := true, verifiedPrice := r.price)
    else if (r.verified == "false" || r.verified == "any") && !p.unverifiedPriceValid
    then p.(unverifiedPriceValid := true, unverifiedPrice := r.price)
    else p
  }

  /** The step of the loop, on the declarative form. */
  lemma OneMoreRule(rules: seq<Rule>, r: Rule, d: Deal, p: ResolvedPrices, q: ResolvedPrices)
    requires Resolves(p, rules, d) && q == AfterRule(r, d, p)
    ensures Resolves(q, rules + [r], d)
  {
    var n := |rules|;
    forall i | 0 <= i < n
      ensures ForVerified(rules + [r], d, i) == ForVerified(rules, d, i)
      ensures ForUnverified(rules + [r], d, i) == ForUnverified(rules, d, i)
    {
      LongerList(rules, [r], d, i);
    }
    EarlierRulesDecide(rules, r, d, p);
    if p.verifiedPriceValid {
      var i: nat :| FirstForVerified(rules, d, i) && p.verifiedPrice == rules[i].price;
      assert FirstForVerified(rules + [r], d, i);
    } else if q.verifiedPriceValid {
      assert FirstForVerified(rules + [r], d, n);
    }
    if p.unverifiedPriceValid {
      var i: nat :| FirstForUnverified(rules, d, i) && p.unverifiedPrice == rules[i].price;
      assert FirstForUnverified(rules + [r], d, i);
    } else if q.unverifiedPriceValid {
      assert FirstForUnverified(rules + [r], d, n);
    }
  }

  /** Every list of rules resolves to something, with a rule put in that does not match as without it. */
  lemma {:induction false} ResolvesWithAndWithout(a: seq<Rule>, r: Rule, b: seq<Rule>, d: Deal)
    returns (p: ResolvedPrices)
    requires !Matches(r, d)
    ensures Resolves(p, a + [r] + b, d) && Resolves(p, a + b, d)
    decreases |a| + |b|
  {
    if b != [] {
      var n := |b| - 1;
      var before := ResolvesWithAndWithout(a, r, b[..n], d);
      p := AfterRule(b[n], d, before);
      OneMoreRule(a + [r] + b[..n], b[n], d, before, p);
      OneMoreRule(a + b[..n], b[n], d, before, p);
      assert a + [r] + b == a + [r] + b[..n] + [b[n]] && a + b == a + b[..n] + [b[n]];
    } else if a != [] {
      var n := |a| - 1;
      var before := ResolvesWithAndWithout(a[..n], r, [], d);
      p := AfterRule(a[n], d, before);
      assert a[..n] + [] == a[..n] && a == a[..n] + [a[n]] && a + [] == a && a + [r] + [] == a + [r];
      OneMoreRule(a[..n], a[n], d, before, p);
      OneMoreRule(a, r, d, p, p);
    } else {
      p := NO_PRICES;
      OneMoreRule([], r, d, p, p);
      assert a + [r] + b == [] + [r] && a + b == [];
    }
  }

  /** A rule whose bounds leave out the deal makes no difference, wherever it stands. */
  lemma RuleOutOfBoundsIsIgnored(a: seq<Rule>, r: Rule, b: seq<Rule>, d: Deal, p: ResolvedPrices)
    requires d.size < r.minSize || r.maxSize < d.size || d.duration < r.minDuration || r.maxDuration < d.duration
    ensures Resolves(p, a + [r] + b, d) <==> Resolves(p, a + b, d)
  {
    var q := ResolvesWithAndWithout(a, r, b, d);
    q := q.(allowBidding := p.allowBidding);
    if Resolves(p, a + [r] + b, d) {
      ResolvedPricesAreUnique(a + [r] + b, d, p, q);
    }
    if Resolves(p, a + b, d) {
      ResolvedPricesAreUnique(a + b, d, p, q);
    }
  }

  /** Once both prices are set no later rule matters, so returning early changes nothing. */
  lemma BothResolvedIsFinal(rules: seq<Rule>, more: seq<Rule>, d: Deal, p: ResolvedPrices)
    requires Resolves(p, rules, d) && p.verifiedPriceValid && p.unverifiedPriceValid
    ensures Resolves(p, rules + more, d)
  {
    forall i | 0 <= i < |rules|
      ensures ForVerified(rules + more, d, i) == ForVerified(rules, d, i)
      ensures ForUnverified(rules + more, d, i) == ForUnverified(rules, d, i)
    {
      LongerList(rules, more, d, i);
    }
    var i: nat :| FirstForVerified(rules, d, i) && p.verifiedPrice == rules[i].price;
    assert FirstForVerified(rules + more, d, i);
    var j: nat :| FirstForUnverified(rules, d, j) && p.unverifiedPrice == rules[j].price;
    assert FirstForUnverified(rules + more, d, j);
  }

  /** Bidding is off while the rate limit is reached, the client is blocked or under maintenance. */
  predicate Open(rules: RawRules) {
    && !(rules.dealRateLimit > 0 && rules.currentDealRate >= rules.dealRateLimit)
    && !rules.blocked && !rules.maintenanceMode
  }

  method ResolvePrices(rules: RawRules, d: Deal) returns (prices: ResolvedPrices)
    ensures if Open(rules) then prices.allowBidding && Resolves(prices, rules.pricingRules, d)
            else prices == NO_PRICES
    ensures prices.allowBidding
            <==> && !rules.blocked && !rules.maintenanceMode
                 && (rules.dealRateLimit <= 0 || rules.currentDealRate < rules.dealRateLimit)
    ensures !prices.allowBidding ==> !prices.verifiedPriceValid && !prices.unverifiedPriceValid
  {
    prices := NO_PRICES;
    if rules.dealRateLimit > 0 && rules.currentDealRate >= rules.dealRateLimit {
      return;
    }
    if rules.blocked {
      return;
    }
    if rules.maintenanceMode {
      return;
    }
    prices := prices.(allowBidding := true);
    prices := MatchRules(rules.pricingRules, d, prices);
  }

  // ---- the published prices ----

  datatype Quote = NoBid | Quote(askPrice: int, verifiedAskPrice: int)

  /** What to ask for: the resolved prices, with the configured ones in place of those not set. When
      the rules cannot be used, strict pricing refuses to bid. */
  method QuotePrices(prices: ResolvedPrices, valid: bool, strict: bool, askPrice: int, verifiedAskPrice: int)
    returns (q: Quote)
    ensures q.NoBid? <==> if valid then !prices.allowBidding else strict
    ensures q.Quote? ==>
      && q.askPrice == (if prices.unverifiedPriceValid then prices.unverifiedPrice else askPrice)
      && q.verifiedAskPrice == (if prices.verifiedPriceValid then prices.verifiedPrice else verifiedAskPrice)
  {
    var p := prices;
    if !valid {
      if strict {
        return NoBid;
      }
      p := p.(allowBidding := true);
    }
    if !p.allowBidding {
      return NoBid;
    }
    if !p.unverifiedPriceValid {
      p := p.(unverifiedPrice := askPrice);
    }
    if !p.verifiedPriceValid {
      p := p.(verifiedPrice := verifiedAskPrice);
    }
    return Quote(p.unverifiedPrice, p.verifiedPrice);
  }

  /** The published prices, from the rules to the bid. */
  ghost predicate Publishes(q: Quote, rules: RawRules, d: Deal, askPrice: int, verifiedAskPrice: int) {
    if !Open(rules) then q.NoBid? else
      var l := rules.pricingRules;
      && q.Quote?
      && (|| (exists i: nat :: FirstForUnverified(l, d, i) && q.askPrice == l[i].price)
          || (q.askPrice == askPrice && !exists i: nat :: FirstForUnverified(l, d, i)))
      && (|| (exists i: nat :: FirstForVerified(l, d, i) && q.verifiedAskPrice == l[i].price)
          || (q.verifiedAskPrice == verifiedAskPrice && !exists i: nat :: FirstForVerified(l, d, i)))
  }

  method QuoteFromRules(rules: RawRules, d: Deal, strict: bool, askPrice: int, verifiedAskPrice: int)
    returns (q: Quote)
    ensures Publishes(q, rules, d, askPrice, verifiedAskPrice)
  {
    var prices := ResolvePrices(rules, d);
    q := QuotePrices(prices, true, strict, askPrice, verifiedAskPrice);
  }

  /** A client is not bid for exactly while blocked, under maintenance, or at its rate limit. */
  lemma NoBidIff(rules: RawRules, d: Deal, askPrice: int, verifiedAskPrice: int, q: Quote)
    requires Publishes(q, rules, d, askPrice, verifiedAskPrice)
    ensures q == NoBid
            <==> || rules.blocked || rules.maintenanceMode
                 || (0 < rules.dealRateLimit && rules.dealRateLimit <= rules.currentDealRate)
  {
  }

  /** With usable rules two bids in the same auction ask for the same, strict or not. */
  lemma PublishedPricesAreUnique(rules: RawRules, d: Deal, askPrice: int, verifiedAskPrice: int, p: Quote, q: Quote)
    requires Publishes(p, rules, d, askPrice, verifiedAskPrice)
    requires Publishes(q, rules, d, askPrice, verifiedAskPrice)
    ensures p == q
  {
    var l := rules.pricingRules;
    forall i: nat, j: nat
      ensures FirstForVerified(l, d, i) && FirstForVerified(l, d, j) ==> i == j
      ensures FirstForUnverified(l, d, i) && FirstForUnverified(l, d, j) ==> i == j
    {
      FirstIsUnique(l, d, i, j);
    }
  }
}
