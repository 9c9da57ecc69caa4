/**
  The legacy purchase-history records: recognising a purchase event by the
  types of its fields, reading a record's events (an array, or a JSON string),
  revenue, trial and paid conversions, and the events bought within a period.
*/
module PurchaseHistory {
  import opened Wrappers
  import opened Js
  import opened Seqs

  datatype FieldType = NumberField | StringField

  /** The fields a purchase event carries, each with the type `typeof` must report. */
  const PurchaseFields: seq<(string, FieldType)> := [
    ("event_timestamp_ms", NumberField),
    ("product_id", StringField),
    ("period_type", StringField),
    ("purchased_at_ms", NumberField),
    ("expiration_at_ms", NumberField),
    ("environment", StringField),
    ("transaction_id", StringField),
    ("original_transaction_id", StringField),
    ("country_code", StringField),
    ("app_user_id", StringField),
    ("currency", StringField),
    ("price", NumberField),
    ("price_in_purchased_currency", NumberField),
    ("store", StringField),
    ("takehome_percentage", NumberField),
    ("tax_percentage", NumberField),
    ("commission_percentage", NumberField),
    ("type", StringField),
    ("id", StringField),
    ("app_id", StringField)
  ]

  /** `typeof v === "number"` or `typeof v === "string"`. */
  predicate HasType(v: Value, t: FieldType)
  {
    match t
    case NumberField => v.Num?
    case StringField => v.Str?
  }

  /** `isRecord(v)`: `typeof v === "object"` and not `null`; arrays are objects too. */
  predicate IsRecord(v: Value)
  {
    v.Obj? || v.Arr?
  }

  /** `isPurchaseEventLike(v)`: a record whose every listed field has its listed type. */
  predicate IsPurchaseEventLike(v: Value)
  {
    IsRecord(v) && forall i :: 0 <= i < |PurchaseFields| ==> HasType(Prop(v, PurchaseFields[i].0), PurchaseFields[i].1)
  }

  /** Only objects pass: an array has none of the fields. */
  lemma PurchaseEventsAreObjects(v: Value)
    requires IsPurchaseEventLike(v)
    ensures v.Obj?
    ensures Prop(v, "purchased_at_ms").Num? && Prop(v, "price").Num?
    ensures Prop(v, "type").Str? && Prop(v, "period_type").Str?
  {
    assert HasType(Prop(v, PurchaseFields[0].0), PurchaseFields[0].1);
    assert HasType(Prop(v, PurchaseFields[2].0), PurchaseFields[2].1);
    assert HasType(Prop(v, PurchaseFields[3].0), PurchaseFields[3].1);
    assert HasType(Prop(v, PurchaseFields[11].0), PurchaseFields[11].1);
    assert HasType(Prop(v, PurchaseFields[17].0), PurchaseFields[17].1);
  }

  /**
    `parsePurchaseEvents(record)` for the record's `event`: the valid events of
    an array; of a string, the valid events of the array it parses to, or the
    one valid event it parses to; nothing otherwise, nor when it does not parse.
  */
  function ParsePurchaseEvents(event: Value, host: Host): (r: seq<Value>)
    ensures forall x :: x in r ==> IsPurchaseEventLike(x)
    ensures event.Arr? ==>
              SubsequenceOf(r, event.elems)
              && forall x :: multiset(r)[x] == if IsPurchaseEventLike(x) then multiset(event.elems)[x] else 0
    ensures !event.Arr? && !event.Str? ==> r == []
    ensures event.Str? && host.parseJson(event.s).None? ==> r == []
    ensures event.Str? && host.parseJson(event.s).Some? && host.parseJson(event.s).value.Arr? ==>
              SubsequenceOf(r, host.parseJson(event.s).value.elems)
              && (forall x :: multiset(r)[x] ==
                    if IsPurchaseEventLike(x) then multiset(host.parseJson(event.s).value.elems)[x] else 0)
    ensures event.Str? && host.parseJson(event.s).Some? && !host.parseJson(event.s).value.Arr? ==>
              (r == [host.parseJson(event.s).value] <==> IsPurchaseEventLike(host.parseJson(event.s).value))
              && (r == [] <==> !IsPurchaseEventLike(host.parseJson(event.s).value))
  {
    if event.Arr? then
      FilterSubsequence(event.elems, IsPurchaseEventLike);
      FilterMembers(event.elems, IsPurchaseEventLike);
      FilterCount(event.elems, IsPurchaseEventLike);
      Filter(event.elems, IsPurchaseEventLike)
    else if event.Str? then
      match host.parseJson(event.s)
      case None => []
      case Some(parsed) =>
        if parsed.Arr? then
          FilterSubsequence(parsed.elems, IsPurchaseEventLike);
          FilterMembers(parsed.elems, IsPurchaseEventLike);
          FilterCount(parsed.elems, IsPurchaseEventLike);
          Filter(parsed.elems, IsPurchaseEventLike)
        else if IsPurchaseEventLike(parsed) then [parsed]
        else []
    else []
  }

  /** `event.type === "INITIAL_PURCHASE"`. */
  predicate IsInitialPurchase(e: Value)
  {
    !IsNullish(e) && Prop(e, "type") == Str("INITIAL_PURCHASE")
  }

  /**
    `event.price || 0`. A purchase event's `price` is a number; other prices
    lie outside the typed input and are read as 0 here.
  */
  function PriceOf(e: Value): real
  {
    if !IsNullish(e) && Prop(e, "price").Num? then Prop(e, "price").n else 0.0
  }

  /**
    `calculateRevenueFromEvents(events)`: what each `INITIAL_PURCHASE` event
    adds to the `reduce` total, added up (on exact numbers the order of the
    additions does not matter).
  */
  function Revenue(events: seq<Value>): real
    requires forall e :: e in events ==> !IsNullish(e)
  {
    if events == [] then 0.0
    else (if IsInitialPurchase(events[0]) then PriceOf(events[0]) else 0.0) + Revenue(events[1..])
  }

  /** The prices of some events, added up. */
  function PriceSum(events: seq<Value>): real
  {
    if events == [] then 0.0 else PriceOf(events[0]) + PriceSum(events[1..])
  }

  /** Revenue is the sum of the prices of the `INITIAL_PURCHASE` events, and of no other. */
  lemma {:induction false} RevenueIsInitialPurchasePrices(events: seq<Value>)
    requires forall e :: e in events ==> !IsNullish(e)
    ensures Revenue(events) == PriceSum(Filter(events, IsInitialPurchase))
  {
    if events != [] {
      var rest := Filter(events[1..], IsInitialPurchase);
      RevenueIsInitialPurchasePrices(events[1..]);
      if IsInitialPurchase(events[0]) {
        assert Filter(events, IsInitialPurchase) == [events[0]] + rest;
        assert ([events[0]] + rest)[1..] == rest;
      } else {
        assert Filter(events, IsInitialPurchase) == rest;
      }
    }
  }

  /** `countConversionsFromEvents(events)`. */
  datatype Conversions = Conversions(trial: nat, paid: nat)

  predicate IsTrialPurchase(e: Value)
  {
    IsInitialPurchase(e) && Prop(e, "period_type") == Str("TRIAL")
  }

  predicate IsPaidPurchase(e: Value)
  {
    IsInitialPurchase(e) && Prop(e, "period_type") == Str("NORMAL")
  }

  /**
    `countConversionsFromEvents(events)`: `trial` counts the `INITIAL_PURCHASE`
    events of period type "TRIAL", `paid` those of period type "NORMAL".
  */
  method CountConversions(events: seq<Value>) returns (c: Conversions)
    requires forall e :: e in events ==> !IsNullish(e)
    ensures c.trial == |Filter(events, IsTrialPurchase)|
    ensures c.paid == |Filter(events, IsPaidPurchase)|
  {
    c := Conversions(0, 0);
    for i := 0 to |events|
      invariant c.trial == |Filter(events[..i], IsTrialPurchase)|
      invariant c.paid == |Filter(events[..i], IsPaidPurchase)|
    {
      var event := events[i];
      assert events[..i + 1] == events[..i] + [event];
      FilterSnoc(events[..i], event, IsTrialPurchase);
      FilterSnoc(events[..i], event, IsPaidPurchase);
      assert event in events;
      if Prop(event, "type") == Str("INITIAL_PURCHASE") {
        if Prop(event, "period_type") == Str("TRIAL") {
          c := c.(trial := c.trial + 1);
        } else if Prop(event, "period_type") == Str("NORMAL") {
          c := c.(paid := c.paid + 1);
        }
      }
    }
    assert events[..|events|] == events;
  }

  /** No event is both a trial and a paid conversion, so together they are at most the `INITIAL_PURCHASE` events. */
  lemma ConversionsWithinInitialPurchases(events: seq<Value>)
    ensures |Filter(events, IsTrialPurchase)| + |Filter(events, IsPaidPurchase)|
            <= |Filter(events, IsInitialPurchase)|
  {
    FilterDisjointLength(events, IsTrialPurchase, IsPaidPurchase, IsInitialPurchase);
  }

  /** `new Date(event.purchased_at_ms)` lies within `[start, end]`; an invalid date compares false. */
  predicate InPeriod(e: Value, start: Option<int>, end: Option<int>, host: Host)
  {
    !IsNullish(e)
    && var t := NewDate(Prop(e, "purchased_at_ms"), host);
       t.Some? && start.Some? && end.Some? && start.value <= t.value <= end.value
  }

  /**
    `getEventsByDateRange(events, startDate, endDate)`, the two dates given as
    their instants (`None` for an invalid date): the events bought within the
    period, inclusive at both ends, in their order.
  */
  function GetEventsByDateRange(events: seq<Value>, start: Option<int>, end: Option<int>, host: Host)
    : (r: seq<Value>)
    requires forall e :: e in events ==> !IsNullish(e)
    ensures SubsequenceOf(r, events)
    ensures forall e :: e in r <==> e in events && InPeriod(e, start, end, host)
    ensures forall e :: multiset(r)[e] == if InPeriod(e, start, end, host) then multiset(events)[e] else 0
    ensures start.None? || end.None? ==> r == []
  {
    var p := (e: Value) => InPeriod(e, start, end, host);
    FilterSubsequence(events, p);
    FilterMembers(events, p);
    FilterCount(events, p);
    if start.None? || end.None? then
      FilterNone(events, p);
      Filter(events, p)
    else
      Filter(events, p)
  }
}
