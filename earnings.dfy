/**
  The earnings calculator: per-event counts times commission-rule rates give
  a per-event breakdown, a rounded total and a currency; the same is then
  added up over many referral codes.
*/
module Earnings {
  import opened Wrappers
  import opened Dictionaries
  import opened Counters
  import opened Money

  /** What one occurrence of `event` earns, in `currency`; `displayName` labels the event. */
  datatype CommissionRule = CommissionRule(
    event: string,
    rate: real,
    currency: string,
    displayName: Option<string>)

  /** Earnings per event, their total and the currency they are in. */
  datatype EarningsBreakdown = EarningsBreakdown(
    breakdown: Dict<real>,
    total: real,
    currency: string)

  /** `(stats[rule.event] || 0) * rule.rate`, before rounding. */
  function RuleAmount(stats: Dict<real>, rule: CommissionRule): real
  {
    Lookup(stats, rule.event) * rule.rate
  }

  /** The set of events the rules name. */
  function RuleEvents(rules: seq<CommissionRule>): set<string>
  {
    set r | r in rules :: r.event
  }

  /** The unrounded amounts of all rules, added up: a rule counts even if an earlier one had its event. */
  function RawTotal(stats: Dict<real>, rules: seq<CommissionRule>): real
  {
    if rules == [] then 0.0
    else RawTotal(stats, rules[..|rules| - 1]) + RuleAmount(stats, rules[|rules| - 1])
  }

  /** The rounded amounts of all rules, added up. */
  function RoundedTotal(stats: Dict<real>, rules: seq<CommissionRule>): real
  {
    if rules == [] then 0.0
    else RoundedTotal(stats, rules[..|rules| - 1]) + Round2(RuleAmount(stats, rules[|rules| - 1]))
  }

  /** The breakdown once every rule has written its rounded amount under its event, in order. */
  function BreakdownOf(stats: Dict<real>, rules: seq<CommissionRule>): Dict<real>
  {
    if rules == [] then []
    else
      var last := rules[|rules| - 1];
      Put(BreakdownOf(stats, rules[..|rules| - 1]), last.event, Round2(RuleAmount(stats, last)))
  }

  /** The currency of the last rule that has a non-empty one. */
  function LastCurrency(rules: seq<CommissionRule>): Option<string>
  {
    if rules == [] then None
    else if rules[|rules| - 1].currency != "" then Some(rules[|rules| - 1].currency)
    else LastCurrency(rules[..|rules| - 1])
  }

  /** The currency before any rule is applied: the first rule's, or "USD" with no rules. */
  function InitialCurrency(rules: seq<CommissionRule>): string
  {
    if rules == [] then "USD" else rules[0].currency
  }

  /** The currency the calculator reports. */
  function CurrencyOf(rules: seq<CommissionRule>): string
  {
    LastCurrency(rules).GetOr(InitialCurrency(rules))
  }

  /** The earnings of one referral code. */
  function EarningsOf(stats: Dict<real>, rules: seq<CommissionRule>): EarningsBreakdown
  {
    EarningsBreakdown(BreakdownOf(stats, rules), Round2(RawTotal(stats, rules)), CurrencyOf(rules))
  }

  /** `calculateEarnings(stats, rules)`. */
  method CalculateEarnings(stats: Dict<real>, rules: seq<CommissionRule>) returns (e: EarningsBreakdown)
    ensures e == EarningsOf(stats, rules)
  {
    var total := 0.0;
    var breakdown: Dict<real> := [];
    var currency := if |rules| > 0 then rules[0].currency else "USD";
    for i := 0 to |rules|
      invariant total == RawTotal(stats, rules[..i])
      invariant breakdown == BreakdownOf(stats, rules[..i])
      invariant currency == LastCurrency(rules[..i]).GetOr(InitialCurrency(rules))
    {
      RuleStep(stats, rules, i);
      breakdown, total, currency := ApplyRule(stats, rules[i], breakdown, total, currency);
    }
    assert rules[..|rules|] == rules;
    e := EarningsBreakdown(breakdown, Round2(total), currency);
  }

  /** One pass of that loop: the rule's rounded amount written under its event, its raw amount added, its currency taken when named. */
  method ApplyRule(stats: Dict<real>, rule: CommissionRule, breakdown: Dict<real>, total: real, currency: string)
    returns (nextBreakdown: Dict<real>, nextTotal: real, nextCurrency: string)
    ensures nextBreakdown == Put(breakdown, rule.event, Round2(RuleAmount(stats, rule)))
    ensures nextTotal == total + RuleAmount(stats, rule)
    ensures nextCurrency == if rule.currency != "" then rule.currency else currency
  {
    var count := Lookup(stats, rule.event);
    var earnings := count * rule.rate;
    assert earnings == RuleAmount(stats, rule);
    nextBreakdown := Put(breakdown, rule.event, Round2(earnings));
    nextTotal := total + earnings;
    nextCurrency := currency;
    if rule.currency != "" {
      nextCurrency := rule.currency;
    }
  }

  /** How the total, the breakdown and the currency grow by one rule. */
  lemma RuleStep(stats: Dict<real>, rules: seq<CommissionRule>, i: int)
    requires 0 <= i < |rules|
    ensures RawTotal(stats, rules[..i + 1]) == RawTotal(stats, rules[..i]) + RuleAmount(stats, rules[i])
    ensures BreakdownOf(stats, rules[..i + 1])
            == Put(BreakdownOf(stats, rules[..i]), rules[i].event, Round2(RuleAmount(stats, rules[i])))
    ensures LastCurrency(rules[..i + 1])
            == if rules[i].currency != "" then Some(rules[i].currency) else LastCurrency(rules[..i])
  {
    assert rules[..i + 1][..i] == rules[..i];
  }

  /** The breakdown has exactly one entry per event some rule names. */
  lemma {:induction false} BreakdownKeys(stats: Dict<real>, rules: seq<CommissionRule>)
    ensures Keys(BreakdownOf(stats, rules)) == RuleEvents(rules)
    ensures DistinctKeys(BreakdownOf(stats, rules))
  {
    if rules != [] {
      var init := rules[..|rules| - 1];
      BreakdownKeys(stats, init);
      assert rules == init + [rules[|rules| - 1]];
      assert RuleEvents(rules) == RuleEvents(init) + {rules[|rules| - 1].event};
    }
  }

  /** The entry for an event is the rounded amount of the last rule that names it. */
  lemma {:induction false} LastRuleWins(stats: Dict<real>, rules: seq<CommissionRule>, i: int)
    requires 0 <= i < |rules|
    requires forall j :: i < j < |rules| ==> rules[j].event != rules[i].event
    ensures Get(BreakdownOf(stats, rules), rules[i].event) == Some(Round2(RuleAmount(stats, rules[i])))
  {
    var init := rules[..|rules| - 1];
    var last := rules[|rules| - 1];
    assert BreakdownOf(stats, rules)
      == Put(BreakdownOf(stats, init), last.event, Round2(RuleAmount(stats, last)));
    if i < |rules| - 1 {
      assert init[i] == rules[i];
      forall j | i < j < |init|
        ensures init[j].event != init[i].event
      {
        assert init[j] == rules[j];
      }
      LastRuleWins(stats, init, i);
      assert last.event != rules[i].event;
    }
  }

  /** A rule whose event has no count earns nothing, and its entry, if it is the last for the event, is 0. */
  lemma UncountedEventEarnsNothing(stats: Dict<real>, rules: seq<CommissionRule>, i: int)
    requires 0 <= i < |rules|
    requires rules[i].event !in Keys(stats)
    requires forall j :: i < j < |rules| ==> rules[j].event != rules[i].event
    ensures RuleAmount(stats, rules[i]) == 0.0
    ensures Get(BreakdownOf(stats, rules), rules[i].event) == Some(0.0)
  {
    assert Lookup(stats, rules[i].event) == 0.0;
    assert RuleAmount(stats, rules[i]) == 0.0 * rules[i].rate == 0.0;
    Round2OfCents(0.0);
    LastRuleWins(stats, rules, i);
  }

  /** With no rules: an empty breakdown, a total of 0, and "USD". */
  lemma NoRulesEarnNothing(stats: Dict<real>)
    ensures EarningsOf(stats, []) == EarningsBreakdown([], 0.0, "USD")
  {
    Round2OfCents(0.0);
  }

  /** The currency is that of the last rule with a non-empty one. */
  lemma {:induction false} CurrencyOfLastNamingRule(rules: seq<CommissionRule>, i: int)
    requires 0 <= i < |rules| && rules[i].currency != ""
    requires forall j :: i < j < |rules| ==> rules[j].currency == ""
    ensures CurrencyOf(rules) == rules[i].currency
  {
    LastCurrencyAt(rules, i);
  }

  lemma {:induction false} LastCurrencyAt(rules: seq<CommissionRule>, i: int)
    requires 0 <= i < |rules| && rules[i].currency != ""
    requires forall j :: i < j < |rules| ==> rules[j].currency == ""
    ensures LastCurrency(rules) == Some(rules[i].currency)
  {
    if i < |rules| - 1 {
      LastCurrencyAt(rules[..|rules| - 1], i);
    }
  }

  /** When no rule names a currency, the first rule's (possibly empty) currency is kept, or "USD" with no rules. */
  lemma {:induction false} CurrencyWithoutNamingRule(rules: seq<CommissionRule>)
    requires forall j :: 0 <= j < |rules| ==> rules[j].currency == ""
    ensures CurrencyOf(rules) == if rules == [] then "USD" else rules[0].currency
  {
    NoLastCurrency(rules);
  }

  lemma {:induction false} NoLastCurrency(rules: seq<CommissionRule>)
    requires forall j :: 0 <= j < |rules| ==> rules[j].currency == ""
    ensures LastCurrency(rules) == None
  {
    if rules != [] {
      NoLastCurrency(rules[..|rules| - 1]);
    }
  }

  /** When no two rules share an event, the breakdown adds up to the sum of the rounded amounts. */
  lemma {:induction false} DistinctRulesBreakdownSum(stats: Dict<real>, rules: seq<CommissionRule>)
    requires forall i, j :: 0 <= i < j < |rules| ==> rules[i].event != rules[j].event
    ensures Sum(BreakdownOf(stats, rules)) == RoundedTotal(stats, rules)
  {
    if rules != [] {
      var init := rules[..|rules| - 1];
      var last := rules[|rules| - 1];
      DistinctRulesBreakdownSum(stats, init);
      BreakdownKeys(stats, init);
      assert last.event !in RuleEvents(init);
      SumPut(BreakdownOf(stats, init), last.event, Round2(RuleAmount(stats, last)));
    }
  }

  /** Amounts in whole cents add up to whole cents. */
  lemma CentsAdd(a: real, b: real)
    requires IsCents(a) && IsCents(b)
    ensures IsCents(a + b)
  {
    var n := (a * 100.0).Floor + (b * 100.0).Floor;
    assert (a + b) * 100.0 == n as real;
    assert (n as real).Floor == n;
  }

  lemma {:induction false} RawTotalOfCents(stats: Dict<real>, rules: seq<CommissionRule>)
    requires forall r :: r in rules ==> IsCents(RuleAmount(stats, r))
    ensures IsCents(RawTotal(stats, rules))
    ensures RawTotal(stats, rules) == RoundedTotal(stats, rules)
  {
    if rules == [] {
      assert IsCents(0.0);
    } else {
      var init := rules[..|rules| - 1];
      var last := rules[|rules| - 1];
      assert forall r :: r in init ==> r in rules;
      RawTotalOfCents(stats, init);
      Round2OfCents(RuleAmount(stats, last));
      CentsAdd(RawTotal(stats, init), RuleAmount(stats, last));
    }
  }

  /**
    The total equals the sum of the breakdown when no two rules share an event
    and every amount is in whole cents.
  */
  lemma TotalIsBreakdownSum(stats: Dict<real>, rules: seq<CommissionRule>)
    requires forall i, j :: 0 <= i < j < |rules| ==> rules[i].event != rules[j].event
    requires forall r :: r in rules ==> IsCents(RuleAmount(stats, r))
    ensures EarningsOf(stats, rules).total == Sum(EarningsOf(stats, rules).breakdown)
  {
    DistinctRulesBreakdownSum(stats, rules);
    RawTotalOfCents(stats, rules);
    Round2OfCents(RawTotal(stats, rules));
  }

  /**
    Two rules for one event: the breakdown keeps only the later amount while
    the total adds both, so the total is not the sum of the breakdown.
  */
  lemma DuplicateEventTotalExceedsBreakdown()
    ensures var e := EarningsOf([Entry("signup", 1.0)],
                                [CommissionRule("signup", 2.0, "USD", None),
                                 CommissionRule("signup", 3.0, "USD", None)]);
            e.breakdown == [Entry("signup", 3.0)] && e.total == 5.0
            && e.total != Sum(e.breakdown)
  {
    var stats := [Entry("signup", 1.0)];
    var rules := [CommissionRule("signup", 2.0, "USD", None), CommissionRule("signup", 3.0, "USD", None)];
    assert rules[..1] == [rules[0]] && rules[..1][..0] == [];
    assert Lookup(stats, "signup") == 1.0;
    Round2OfCents(2.0);
    Round2OfCents(3.0);
    Round2OfCents(5.0);
    assert BreakdownOf(stats, rules[..1]) == [Entry("signup", 2.0)];
    assert RawTotal(stats, rules[..1]) == 2.0;
    assert BreakdownOf(stats, rules) == [Entry("signup", 3.0)];
    assert RawTotal(stats, rules) == 5.0;
  }

  /** One referral code's counters and rules, as `calculateTotalEarnings` takes them. */
  datatype CodeRules = CodeRules(stats: Dict<real>, rules: seq<CommissionRule>)

  /** The earnings of each code, in order. */
  function EarningsOfEach(items: seq<CodeRules>): seq<EarningsBreakdown>
  {
    seq(|items|, i requires 0 <= i < |items| => EarningsOf(items[i].stats, items[i].rules))
  }

  /** The breakdowns of each code's earnings, in order. */
  function Breakdowns(es: seq<EarningsBreakdown>): seq<Dict<real>>
  {
    seq(|es|, i requires 0 <= i < |es| => es[i].breakdown)
  }

  /** The rounded totals of each code's earnings, added up without rounding. */
  function SumOfTotals(es: seq<EarningsBreakdown>): real
  {
    if es == [] then 0.0 else SumOfTotals(es[..|es| - 1]) + es[|es| - 1].total
  }

  /** `calculateTotalEarnings(items)` as a value. */
  function TotalEarningsOf(items: seq<CodeRules>): EarningsBreakdown
  {
    var es := EarningsOfEach(items);
    EarningsBreakdown(
      MergeAll(Breakdowns(es)),
      Round2(SumOfTotals(es)),
      if es == [] then "USD" else es[|es| - 1].currency)
  }

  lemma BreakdownsPrefix(es: seq<EarningsBreakdown>, i: int)
    requires 0 <= i < |es|
    ensures Breakdowns(es[..i + 1]) == Breakdowns(es[..i]) + [es[i].breakdown]
  {
  }

  /** How the aggregate and the running total grow by one code. */
  lemma TotalsStep(es: seq<EarningsBreakdown>, i: int)
    requires 0 <= i < |es|
    ensures MergeAll(Breakdowns(es[..i + 1])) == MergeAdd(MergeAll(Breakdowns(es[..i])), es[i].breakdown)
    ensures SumOfTotals(es[..i + 1]) == SumOfTotals(es[..i]) + es[i].total
  {
    var ds := Breakdowns(es[..i + 1]);
    BreakdownsPrefix(es, i);
    assert ds[..|ds| - 1] == Breakdowns(es[..i]);
    assert es[..i + 1][..i] == es[..i];
  }

  /** `calculateTotalEarnings(items)`. */
  method CalculateTotalEarnings(items: seq<CodeRules>) returns (r: EarningsBreakdown)
    ensures r == TotalEarningsOf(items)
  {
    ghost var es := EarningsOfEach(items);
    var aggregate: Dict<real> := [];
    var globalTotal := 0.0;
    var globalCurrency := "USD";
    for i := 0 to |items|
      invariant aggregate == MergeAll(Breakdowns(es[..i]))
      invariant globalTotal == SumOfTotals(es[..i])
      invariant globalCurrency == if i == 0 then "USD" else es[i - 1].currency
    {
      aggregate, globalTotal, globalCurrency := AddCodeEarnings(aggregate, globalTotal, items, i);
    }
    assert es[..|items|] == es;
    r := EarningsBreakdown(aggregate, Round2(globalTotal), globalCurrency);
  }

  /** One pass of that loop: a code's earnings merged into the aggregate and added to the running total. */
  method AddCodeEarnings(aggregate: Dict<real>, globalTotal: real, items: seq<CodeRules>, i: int)
    returns (nextAggregate: Dict<real>, nextTotal: real, currency: string)
    requires 0 <= i < |items|
    requires aggregate == MergeAll(Breakdowns(EarningsOfEach(items)[..i]))
    requires globalTotal == SumOfTotals(EarningsOfEach(items)[..i])
    ensures nextAggregate == MergeAll(Breakdowns(EarningsOfEach(items)[..i + 1]))
    ensures nextTotal == SumOfTotals(EarningsOfEach(items)[..i + 1])
    ensures currency == EarningsOfEach(items)[i].currency
  {
    var result := CalculateEarnings(items[i].stats, items[i].rules);
    TotalsStep(EarningsOfEach(items), i);
    nextTotal := globalTotal + result.total;
    currency := result.currency;
    nextAggregate := AddEntries(aggregate, result.breakdown);
  }

  /** Each aggregate entry is the sum of that event's entries over the codes' breakdowns. */
  lemma AggregateEntryIsSumOverCodes(items: seq<CodeRules>, event: string)
    ensures Lookup(TotalEarningsOf(items).breakdown, event)
            == LookupTotal(Breakdowns(EarningsOfEach(items)), event)
    ensures Keys(TotalEarningsOf(items).breakdown) == AllKeys(Breakdowns(EarningsOfEach(items)))
  {
    var ds := Breakdowns(EarningsOfEach(items));
    forall i | 0 <= i < |ds|
      ensures DistinctKeys(ds[i])
    {
      BreakdownKeys(items[i].stats, items[i].rules);
    }
    KeyTotalOfDistinct(ds, event);
  }
}
