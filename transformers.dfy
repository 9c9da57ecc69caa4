/**
  Referral codes as the backend sends them, turned into the dashboard's
  referral codes (defaults filled, a status derived, earnings attached), and
  the dashboard totals folded from a list of them.
*/
module Transformers {
  import opened Wrappers
  import opened Dictionaries
  import opened Counters
  import opened Money
  import opened Earnings
  import Js
  import Text

  datatype ReferralStatus = Active | Inactive | Exhausted

  /** A referral code as the backend sends it; `None` stands for `null` or a missing field. */
  datatype BackendReferralCode = BackendReferralCode(
    id: string,
    code: string,
    quota: Js.Value,
    noOfDays: real,
    startDate: Option<string>,
    endDate: Option<string>,
    createdAt: Option<string>,
    commissionConfig: Option<seq<CommissionRule>>,
    stats: Option<Dict<real>>)

  /** A referral code as the dashboard shows it. */
  datatype ReferralCode = ReferralCode(
    id: string,
    code: string,
    createdAt: string,
    status: ReferralStatus,
    commissionConfig: seq<CommissionRule>,
    quota: Option<real>,
    startDate: Option<string>,
    endDate: Option<string>,
    durationDays: real,
    eventStats: Option<Dict<real>>,
    earnings: Option<EarningsBreakdown>)

  /** The dashboard's totals over all referral codes. */
  datatype DashboardStats = DashboardStats(
    totalReferralCodes: int,
    activeReferralCodes: int,
    inactiveReferralCodes: int,
    exhaustedReferralCodes: int,
    eventStats: Dict<real>,
    totalEarnings: EarningsBreakdown)

  /** `createEmptyDashboardStats(currency)`. */
  function CreateEmptyDashboardStats(currency: string := "USD"): DashboardStats
  {
    DashboardStats(0, 0, 0, 0, [], EarningsBreakdown([], 0.0, currency))
  }

  /** `s ? new Date(s) : null`, read as a number of milliseconds: `None` when missing or invalid. */
  function DateOf(s: Option<string>, host: Js.Host): Option<int>
  {
    if Js.Filled(s).Some? then host.parseDate(s.value) else None
  }

  /** `(endDate && endDate < now) || (startDate && startDate > now)`; an invalid date compares false. */
  predicate InactiveBySchedule(b: BackendReferralCode, host: Js.Host, now: int)
  {
    (DateOf(b.endDate, host).Some? && DateOf(b.endDate, host).value < now)
    || (DateOf(b.startDate, host).Some? && DateOf(b.startDate, host).value > now)
  }

  /** `typeof quota === "number" ? quota : null`. */
  function QuotaOf(b: BackendReferralCode): Option<real>
  {
    if b.quota.Num? then Some(b.quota.n) else None
  }

  /** `backendRef.stats || {}`. */
  function StatsOf(b: BackendReferralCode): Dict<real>
  {
    b.stats.GetOr([])
  }

  /** `transformReferralCode(backendRef)`, at instant `now`. */
  function TransformReferralCode(b: BackendReferralCode, host: Js.Host, now: int): (r: ReferralCode)
    ensures r.status == Inactive <==> InactiveBySchedule(b, host, now)
    ensures r.status == Exhausted
            <==> !InactiveBySchedule(b, host, now) && b.quota.Num? && Sum(StatsOf(b)) >= b.quota.n
    ensures r.createdAt
            == if Js.Filled(b.createdAt).Some? then b.createdAt.value
               else if Js.Filled(b.startDate).Some? then b.startDate.value
               else host.isoString(now)
    ensures r.startDate == Js.Filled(b.startDate) && r.endDate == Js.Filled(b.endDate)
    ensures r.id == b.id && r.code == b.code && r.durationDays == b.noOfDays
    ensures r.commissionConfig == (if b.commissionConfig.Some? then b.commissionConfig.value else [])
    ensures r.quota.Some? <==> b.quota.Num?
    ensures r.quota.Some? ==> r.quota.value == b.quota.n
    ensures r.eventStats == Some(StatsOf(b))
    ensures r.earnings == Some(EarningsOf(StatsOf(b), b.commissionConfig.GetOr([])))
  {
    var quota := QuotaOf(b);
    var eventStats := StatsOf(b);
    var totalConversions := Sum(eventStats);
    var status :=
      if InactiveBySchedule(b, host, now) then Inactive
      else if quota.Some? && totalConversions >= quota.value then Exhausted
      else Active;
    var config := b.commissionConfig.GetOr([]);
    ReferralCode(
      b.id,
      b.code,
      if Js.Filled(b.createdAt).Some? then b.createdAt.value
      else if Js.Filled(b.startDate).Some? then b.startDate.value
      else host.isoString(now),
      status,
      config,
      quota,
      Js.Filled(b.startDate),
      Js.Filled(b.endDate),
      b.noOfDays,
      Some(eventStats),
      Some(EarningsOf(eventStats, config)))
  }

  /** `transformReferralCodes(backendRefs)`: one code per backend code, in order. */
  function TransformReferralCodes(bs: seq<BackendReferralCode>, host: Js.Host, now: int): (r: seq<ReferralCode>)
    ensures |r| == |bs|
    ensures forall i :: 0 <= i < |bs| ==> r[i] == TransformReferralCode(bs[i], host, now)
  {
    if bs == [] then []
    else [TransformReferralCode(bs[0], host, now)] + TransformReferralCodes(bs[1..], host, now)
  }

  /** The number of codes with status `s`. */
  function CountStatus(codes: seq<ReferralCode>, s: ReferralStatus): int
  {
    if codes == [] then 0
    else CountStatus(codes[..|codes| - 1], s) + (if codes[|codes| - 1].status == s then 1 else 0)
  }

  /** The event counters of each code, `{}` for a code without any. */
  function EventStatsList(codes: seq<ReferralCode>): seq<Dict<real>>
  {
    if codes == [] then []
    else EventStatsList(codes[..|codes| - 1]) + [codes[|codes| - 1].eventStats.GetOr([])]
  }

  /** The earnings breakdown of each code, `{}` for a code without earnings. */
  function BreakdownList(codes: seq<ReferralCode>): seq<Dict<real>>
  {
    if codes == [] then []
    else
      var e := codes[|codes| - 1].earnings;
      BreakdownList(codes[..|codes| - 1]) + [if e.Some? then e.value.breakdown else []]
  }

  /** The earnings totals of the codes that have earnings, added up. */
  function EarningsTotal(codes: seq<ReferralCode>): real
  {
    if codes == [] then 0.0
    else
      var e := codes[|codes| - 1].earnings;
      EarningsTotal(codes[..|codes| - 1]) + (if e.Some? then e.value.total else 0.0)
  }

  /** The currency of the last code that has earnings. */
  function LastEarningsCurrency(codes: seq<ReferralCode>): (r: Option<string>)
    ensures r.None? <==> forall i :: 0 <= i < |codes| ==> codes[i].earnings.None?
  {
    if codes == [] then None
    else if codes[|codes| - 1].earnings.Some? then Some(codes[|codes| - 1].earnings.value.currency)
    else
      var init := codes[..|codes| - 1];
      assert forall i :: 0 <= i < |init| ==> init[i] == codes[i];
      LastEarningsCurrency(init)
  }

  /** `referralCodes.find((code) => code.earnings)?.earnings?.currency || "USD"`. */
  function DefaultCurrency(codes: seq<ReferralCode>): (r: string)
    ensures (forall i :: 0 <= i < |codes| ==> codes[i].earnings.None?) ==> r == "USD"
  {
    if codes == [] then "USD"
    else if codes[0].earnings.Some? then
      (if codes[0].earnings.value.currency != "" then codes[0].earnings.value.currency else "USD")
    else
      assert forall i :: 0 <= i < |codes| - 1 ==> codes[1..][i] == codes[i + 1];
      DefaultCurrency(codes[1..])
  }

  /** `calculateDashboardStats(referralCodes)` as a value. */
  function DashboardStatsOf(codes: seq<ReferralCode>): DashboardStats
  {
    DashboardStats(
      |codes|,
      CountStatus(codes, Active),
      CountStatus(codes, Inactive),
      CountStatus(codes, Exhausted),
      MergeAll(EventStatsList(codes)),
      EarningsBreakdown(
        MergeAll(BreakdownList(codes)),
        Round2(EarningsTotal(codes)),
        LastEarningsCurrency(codes).GetOr("USD")))
  }

  /** The `reduce` callback: the running totals with one more code added in. */
  function AddCode(acc: DashboardStats, code: ReferralCode): DashboardStats
  {
    var withEvents :=
      if code.eventStats.Some? then acc.(eventStats := MergeAdd(acc.eventStats, code.eventStats.value)) else acc;
    var withStatus :=
      match code.status
      case Active => withEvents.(activeReferralCodes := withEvents.activeReferralCodes + 1)
      case Inactive => withEvents.(inactiveReferralCodes := withEvents.inactiveReferralCodes + 1)
      case Exhausted => withEvents.(exhaustedReferralCodes := withEvents.exhaustedReferralCodes + 1);
    if code.earnings.Some? then
      var e := withStatus.totalEarnings;
      withStatus.(totalEarnings := EarningsBreakdown(
        MergeAdd(e.breakdown, code.earnings.value.breakdown),
        e.total + code.earnings.value.total,
        code.earnings.value.currency))
    else withStatus
  }

  /** `codes.reduce(AddCode, init)`. */
  function Reduce(codes: seq<ReferralCode>, init: DashboardStats): DashboardStats
  {
    if codes == [] then init else AddCode(Reduce(codes[..|codes| - 1], init), codes[|codes| - 1])
  }

  /** Starting from the empty totals, the reduce counts the codes of each status. */
  lemma {:induction false} ReduceCounts(codes: seq<ReferralCode>, currency: string)
    ensures var acc := Reduce(codes, CreateEmptyDashboardStats(currency));
            && acc.activeReferralCodes == CountStatus(codes, Active)
            && acc.inactiveReferralCodes == CountStatus(codes, Inactive)
            && acc.exhaustedReferralCodes == CountStatus(codes, Exhausted)
  {
    if codes != [] {
      ReduceCounts(codes[..|codes| - 1], currency);
    }
  }

  /** Starting from the empty totals, the reduce adds up the codes' event counters. */
  lemma {:induction false} ReduceEventStats(codes: seq<ReferralCode>, currency: string)
    ensures Reduce(codes, CreateEmptyDashboardStats(currency)).eventStats == MergeAll(EventStatsList(codes))
  {
    if codes != [] {
      var init := codes[..|codes| - 1];
      ReduceEventStats(init, currency);
      var es := EventStatsList(codes);
      assert es[..|es| - 1] == EventStatsList(init);
    }
  }

  /**
    Starting from the empty totals, the reduce adds up the breakdowns and the
    totals of the codes with earnings, and keeps the currency of the last one.
  */
  lemma {:induction false} ReduceEarnings(codes: seq<ReferralCode>, currency: string)
    ensures var e := Reduce(codes, CreateEmptyDashboardStats(currency)).totalEarnings;
            && e.breakdown == MergeAll(BreakdownList(codes))
            && e.total == EarningsTotal(codes)
            && e.currency == LastEarningsCurrency(codes).GetOr(currency)
  {
    if codes != [] {
      var init := codes[..|codes| - 1];
      ReduceEarnings(init, currency);
      var bs := BreakdownList(codes);
      assert bs[..|bs| - 1] == BreakdownList(init);
    }
  }

  /** The `reduce` callback of `calculateDashboardStats`, updating the running totals in place. */
  method Accumulate(acc: DashboardStats, code: ReferralCode) returns (next: DashboardStats)
    ensures next == AddCode(acc, code)
  {
    next := acc;
    if code.eventStats.Some? {
      var merged := AddEntries(next.eventStats, code.eventStats.value);
      next := next.(eventStats := merged);
    }
    if code.status == Active {
      next := next.(activeReferralCodes := next.activeReferralCodes + 1);
    } else if code.status == Inactive {
      next := next.(inactiveReferralCodes := next.inactiveReferralCodes + 1);
    } else if code.status == Exhausted {
      next := next.(exhaustedReferralCodes := next.exhaustedReferralCodes + 1);
    }
    if code.earnings.Some? {
      var earnings := code.earnings.value;
      var merged := AddEntries(next.totalEarnings.breakdown, earnings.breakdown);
      next := next.(totalEarnings := EarningsBreakdown(
        merged, next.totalEarnings.total + earnings.total, earnings.currency));
    }
  }

  /** `calculateDashboardStats(referralCodes)`. */
  method CalculateDashboardStats(codes: seq<ReferralCode>) returns (r: DashboardStats)
    ensures r == DashboardStatsOf(codes)
  {
    var defaultCurrency := DefaultCurrency(codes);
    var emptyStats := CreateEmptyDashboardStats(defaultCurrency);
    var acc := emptyStats;
    for i := 0 to |codes|
      invariant acc == Reduce(codes[..i], emptyStats)
    {
      acc := Accumulate(acc, codes[i]);
      assert codes[..i + 1][..i] == codes[..i];
    }
    assert codes[..|codes|] == codes;
    ReduceCounts(codes, defaultCurrency);
    ReduceEventStats(codes, defaultCurrency);
    ReduceEarnings(codes, defaultCurrency);
    r := DashboardStats(
      |codes|,
      acc.activeReferralCodes,
      acc.inactiveReferralCodes,
      acc.exhaustedReferralCodes,
      acc.eventStats,
      EarningsBreakdown(acc.totalEarnings.breakdown, Round2(acc.totalEarnings.total), acc.totalEarnings.currency));
  }

  /** No codes: the totals are those of `createEmptyDashboardStats()`. */
  lemma NoCodesGiveEmptyStats()
    ensures DashboardStatsOf([]) == CreateEmptyDashboardStats()
  {
    Round2OfCents(0.0);
  }

  /** Every code is counted under exactly one status, so the three counters add up to the number of codes. */
  lemma {:induction false} StatusCountsAddUp(codes: seq<ReferralCode>)
    ensures var d := DashboardStatsOf(codes);
            d.activeReferralCodes + d.inactiveReferralCodes + d.exhaustedReferralCodes == d.totalReferralCodes
  {
    if codes != [] {
      StatusCountsAddUp(codes[..|codes| - 1]);
    }
  }

  /** Each dashboard event counter is the sum, over the codes, of that code's counter. */
  lemma EventStatsArePerKeySums(codes: seq<ReferralCode>, event: string)
    requires forall i :: 0 <= i < |codes| ==> DistinctKeys(codes[i].eventStats.GetOr([]))
    ensures Lookup(DashboardStatsOf(codes).eventStats, event) == LookupTotal(EventStatsList(codes), event)
    ensures Keys(DashboardStatsOf(codes).eventStats) == AllKeys(EventStatsList(codes))
  {
    EventStatsListDistinct(codes);
    KeyTotalOfDistinct(EventStatsList(codes), event);
  }

  lemma {:induction false} EventStatsListDistinct(codes: seq<ReferralCode>)
    requires forall i :: 0 <= i < |codes| ==> DistinctKeys(codes[i].eventStats.GetOr([]))
    ensures |EventStatsList(codes)| == |codes|
    ensures forall i :: 0 <= i < |codes| ==> EventStatsList(codes)[i] == codes[i].eventStats.GetOr([])
  {
    if codes != [] {
      EventStatsListDistinct(codes[..|codes| - 1]);
    }
  }

  /** The currency is that of the last code with earnings, and "USD" when no code has any. */
  lemma {:induction false} CurrencyOfLastCodeWithEarnings(codes: seq<ReferralCode>, i: int)
    requires 0 <= i < |codes| && codes[i].earnings.Some?
    requires forall j :: i < j < |codes| ==> codes[j].earnings.None?
    ensures DashboardStatsOf(codes).totalEarnings.currency == codes[i].earnings.value.currency
  {
    if i < |codes| - 1 {
      var init := codes[..|codes| - 1];
      assert forall j :: i < j < |init| ==> init[j] == codes[j];
      CurrencyOfLastCodeWithEarnings(init, i);
    }
  }

  /**
    Over transformed codes the dashboard's earnings are `calculateTotalEarnings`
    over the same counters and rules: the two folds agree.
  */
  lemma {:induction false} DashboardEarningsAgreeWithTotalEarnings(bs: seq<BackendReferralCode>, host: Js.Host, now: int)
    ensures DashboardStatsOf(TransformReferralCodes(bs, host, now)).totalEarnings
            == TotalEarningsOf(ItemsOf(bs))
  {
    var codes := TransformReferralCodes(bs, host, now);
    var es := EarningsOfEach(ItemsOf(bs));
    forall i | 0 <= i < |codes|
      ensures codes[i].earnings == Some(es[i])
    {
      assert codes[i] == TransformReferralCode(bs[i], host, now);
    }
    FoldsAgree(codes, es);
    if bs != [] {
      CurrencyOfLastCodeWithEarnings(codes, |bs| - 1);
    }
  }

  /** The counters and rules `calculateTotalEarnings` would be given for these codes. */
  function ItemsOf(bs: seq<BackendReferralCode>): (r: seq<CodeRules>)
    ensures |r| == |bs|
  {
    seq(|bs|, i requires 0 <= i < |bs| => CodeRules(StatsOf(bs[i]), bs[i].commissionConfig.GetOr([])))
  }

  lemma {:induction false} FoldsAgree(codes: seq<ReferralCode>, es: seq<EarningsBreakdown>)
    requires |codes| == |es|
    requires forall i :: 0 <= i < |codes| ==> codes[i].earnings == Some(es[i])
    ensures BreakdownList(codes) == Breakdowns(es) && EarningsTotal(codes) == SumOfTotals(es)
  {
    if codes != [] {
      var n := |codes|;
      FoldsAgree(codes[..n - 1], es[..n - 1]);
      BreakdownsPrefix(es, n - 1);
      assert es[..n] == es;
    }
  }

  /** The instant each code's start is read from: `startDate`, else the date part of `createdAt`. */
  function CandidateTime(code: ReferralCode, host: Js.Host): Option<int>
  {
    var candidate :=
      if Js.Filled(code.startDate).Some? then code.startDate.value
      else if code.createdAt != "" then Text.Before(code.createdAt, 'T')
      else "";
    if candidate != "" then host.parseDate(candidate) else None
  }

  /** The valid candidate instants, in order of the codes. */
  function CandidateTimes(codes: seq<ReferralCode>, host: Js.Host): (r: seq<int>)
    ensures forall t :: t in r <==> exists i :: 0 <= i < |codes| && CandidateTime(codes[i], host) == Some(t)
  {
    if codes == [] then []
    else
      var init := codes[..|codes| - 1];
      var c := CandidateTime(codes[|codes| - 1], host);
      assert forall i :: 0 <= i < |init| ==> init[i] == codes[i];
      CandidateTimes(init, host) + (if c.Some? then [c.value] else [])
  }

  /** `Math.min(...xs)` for a non-empty list. */
  function Min(xs: seq<int>): (m: int)
    requires xs != []
    ensures m in xs
    ensures forall x :: x in xs ==> m <= x
  {
    if |xs| == 1 then xs[0]
    else
      var m := Min(xs[1..]);
      assert forall x :: x in xs ==> x == xs[0] || x in xs[1..];
      if xs[0] < m then xs[0] else m
  }

  /** `getEarliestStartDate(referralCodes)` as a value. */
  function EarliestStartDateOf(codes: seq<ReferralCode>, host: Js.Host): Option<string>
  {
    var ts := CandidateTimes(codes, host);
    if ts == [] then None else Some(Js.DayKey(Min(ts), host))
  }

  /** `getEarliestStartDate(referralCodes)`. */
  method GetEarliestStartDate(codes: seq<ReferralCode>, host: Js.Host) returns (r: Option<string>)
    ensures r == EarliestStartDateOf(codes, host)
  {
    if |codes| == 0 {
      return None;
    }
    var timestamps: seq<int> := [];
    for i := 0 to |codes|
      invariant timestamps == CandidateTimes(codes[..i], host)
    {
      assert codes[..i + 1][..i] == codes[..i];
      var code := codes[i];
      var candidate :=
        if Js.Filled(code.startDate).Some? then code.startDate.value
        else if code.createdAt != "" then Text.Before(code.createdAt, 'T')
        else "";
      if candidate != "" {
        var ts := host.parseDate(candidate);
        if ts.Some? {
          timestamps := timestamps + [ts.value];
        }
      }
    }
    assert codes[..|codes|] == codes;
    if |timestamps| == 0 {
      return None;
    }
    var earliest := Min(timestamps);
    r := Some(Js.DayKey(earliest, host));
  }

  /**
    The earliest start date is missing exactly when no code has a valid
    candidate; otherwise it is the day of the smallest candidate instant.
  */
  lemma EarliestStartIsMinimum(codes: seq<ReferralCode>, host: Js.Host)
    ensures EarliestStartDateOf(codes, host).None?
            <==> forall i :: 0 <= i < |codes| ==> CandidateTime(codes[i], host).None?
    ensures EarliestStartDateOf(codes, host).Some? ==>
              exists i :: 0 <= i < |codes| && CandidateTime(codes[i], host).Some?
                && EarliestStartDateOf(codes, host) == Some(Js.DayKey(CandidateTime(codes[i], host).value, host))
                && forall j :: 0 <= j < |codes| && CandidateTime(codes[j], host).Some?
                     ==> CandidateTime(codes[i], host).value <= CandidateTime(codes[j], host).value
  {
    var ts := CandidateTimes(codes, host);
    if ts != [] {
      var m := Min(ts);
      var i :| 0 <= i < |codes| && CandidateTime(codes[i], host) == Some(m);
      forall j | 0 <= j < |codes| && CandidateTime(codes[j], host).Some?
        ensures m <= CandidateTime(codes[j], host).value
      {
        assert CandidateTime(codes[j], host).value in ts;
      }
    }
  }
}
