/** `displayResults` without the HTML: the proxy's `data` is turned into a
    structured rate quote when it looks like one and is otherwise shown raw.
    Also `calculateDailyRate` and the "N/A" rule of `formatCurrency`. */
module Results {
  import opened Wrappers
  import opened Seqs
  import opened Dates
  import AgeList

  /** A remote identifier or code: a JSON number or string. */
  datatype Scalar = Num(x: real) | Str(s: string)

  /** JavaScript truthiness of an optional field (absent is `undefined`). */
  predicate Truthy(v: Option<Scalar>) {
    match v
    case None => false
    case Some(Num(x)) => x != 0.0
    case Some(Str(s)) => s != ""
  }

  predicate TruthyNumber(v: Option<real>) {
    v.Some? && v.value != 0.0
  }

  /** The remote rates body as far as the display reads it: each key the
      display looks up, absent or present, and the optional `Response`
      envelope around another such body. */
  datatype RemoteRecord = RemoteRecord(
    response: Option<RemoteRecord>,
    locationId: Option<Scalar>,
    totalCharge: Option<real>,
    extrasCharge: Option<real>,
    effectiveDailyRate: Option<real>,
    rooms: Option<real>,
    rateDescription: Option<string>,
    bookingGroupId: Option<Scalar>,
    rateCode: Option<Scalar>)

  /** `{}`: a body with none of the keys. */
  const EmptyRecord: RemoteRecord :=
    RemoteRecord(None, None, None, None, None, None, None, None, None)

  /** `{"Response": inner}`. */
  function Wrap(inner: RemoteRecord): RemoteRecord {
    EmptyRecord.(response := Some(inner))
  }

  const StandardRate: string := "Standard Rate"
  const DefaultHeading: string := "Accommodation"

  /** What the display knows from the submission it answers. */
  datatype Context = Context(
    unitName: string,
    arrival: DateField,
    departure: DateField,
    ages: seq<Option<int>>)

  /** The structured quote as displayed. */
  datatype Quote = Quote(
    heading: string,
    arrival: string,
    departure: string,
    adultCount: nat,
    childCount: nat,
    childAges: seq<int>,
    rooms: real,
    rateDescription: string,
    dailyRate: real,
    totalCharge: real,
    extras: Option<real>,
    bookingGroupId: Option<Scalar>,
    rateCode: Option<Scalar>)

  /** What the results panel shows: a quote, or the untouched body. */
  datatype Display =
    | Structured(quote: Quote)
    | RawFallback(heading: string, arrival: string, departure: string, original: RemoteRecord)

  /** `formatCurrency` up to the locale: zero prints "N/A". */
  datatype CurrencyText = NotAvailable | Formatted(amount: real)

  function FormatCurrency(amount: real): (c: CurrencyText)
    ensures c == NotAvailable <==> amount == 0.0
    ensures c.Formatted? ==> c.amount == amount
  {
    if amount == 0.0 then NotAvailable else Formatted(amount)
  }

  /** Nights between two dates: with whole-day numbers the `Math.ceil` of
      the millisecond difference divided by a day is just the difference;
      when either date is an Invalid Date the difference is NaN (None). */
  function Nights(arrival: DateField, departure: DateField): (n: Option<int>)
    ensures n.Some? <==> arrival.day.Some? && departure.day.Some?
    ensures n.Some? ==> arrival.day.value + n.value == departure.day.value
  {
    if arrival.day.Some? && departure.day.Some? then Some(departure.day.value - arrival.day.value)
    else None
  }

  /** `calculateDailyRate`: the total spread over the nights, or 0 when there
      are no nights (NaN included, since `NaN > 0` is false) or no positive
      total. */
  function CalculateDailyRate(total: real, nights: Option<int>): (r: real)
    ensures nights.Some? && nights.value > 0 && total > 0.0 ==>
              r > 0.0 && r * (nights.value as real) == total
    ensures !(nights.Some? && nights.value > 0 && total > 0.0) ==> r == 0.0
  {
    if nights.Some? && nights.value > 0 && total > 0.0 then total / (nights.value as real) else 0.0
  }

  /** The ages `displayResults` classifies: the ones that parsed, in order
      (NaN is neither `>= 18` nor `< 18`). */
  function Present(ages: seq<Option<int>>): (vs: seq<int>)
    ensures |vs| <= |ages|
    ensures forall x :: x in vs <==> Some(x) in ages
    ensures (forall k :: 0 <= k < |ages| ==> ages[k].Some?) ==> vs == AgeList.CounterValues(ages)
    decreases |ages|
  {
    if |ages| == 0 then []
    else
      var rest := Present(ages[1..]);
      SomeInCons(ages);
      AgeList.CounterValuesCons(ages);
      if ages[0].Some? then [ages[0].value] + rest else rest
  }

  lemma SomeInCons(ages: seq<Option<int>>)
    requires |ages| > 0
    ensures forall x :: Some(x) in ages <==> Some(x) == ages[0] || Some(x) in ages[1..]
  {
    assert ages == [ages[0]] + ages[1..];
  }

  /** An unparsed age contributes nothing and a parsed one contributes its
      value: together with `PresentConcat` this fixes `Present` as the parsed
      ages in their original order. */
  lemma PresentSingleton(x: int)
    ensures Present([None]) == [] && Present([Some(x)]) == [x]
  {
    var none: seq<Option<int>> := [None];
    assert none[1..] == [] && [Some(x)][1..] == [];
  }

  /** The parsed ages of two runs of fields concatenate in order. */
  lemma {:induction false} PresentConcat(a: seq<Option<int>>, b: seq<Option<int>>)
    ensures Present(a + b) == Present(a) + Present(b)
    decreases |a|
  {
    if |a| == 0 {
      assert a + b == b;
    } else {
      assert (a + b)[1..] == a[1..] + b;
      PresentConcat(a[1..], b);
    }
  }

  /** The display's child: any age below 18, including 0 and negatives. */
  predicate IsQuoteChild(age: int) { age < 18 }

  /** The level of the body the display reads: one `Response` envelope is
      removed when present, never more. */
  function Unwrap(data: RemoteRecord): RemoteRecord {
    if data.response.Some? then data.response.value else data
  }

  /** Shape detection: a location ID or total charge marks a quote. */
  predicate IsStructured(rd: RemoteRecord) {
    Truthy(rd.locationId) || TruthyNumber(rd.totalCharge)
  }

  /** The nightly rate shown: the remote's effective average daily rate
      when it is non-zero, else `calculateDailyRate` of the total. */
  function DailyRate(effective: Option<real>, total: real, nights: Option<int>): (r: real)
    ensures TruthyNumber(effective) ==> r == effective.value
    ensures !TruthyNumber(effective) ==>
              && (nights.Some? && nights.value > 0 && total > 0.0 ==>
                    r > 0.0 && r * (nights.value as real) == total)
              && (nights.None? || nights.value <= 0 || total <= 0.0 ==> r == 0.0)
  {
    var rate := effective.GetOr(0.0);
    if rate == 0.0 then CalculateDailyRate(total, nights) else rate
  }

  /** The quote read from the level `rd` of a recognised body: absent
      amounts default to 0, an absent or empty description to
      "Standard Rate", and the guests are classified from the submitted
      ages, not from anything the remote echoes. */
  function BuildQuote(rd: RemoteRecord, ctx: Context): (q: Quote)
    ensures q.totalCharge == rd.totalCharge.GetOr(0.0)
    ensures q.rooms == rd.rooms.GetOr(0.0)
    ensures rd.rateDescription.None? || rd.rateDescription == Some("") ==> q.rateDescription == StandardRate
    ensures rd.rateDescription.Some? && rd.rateDescription != Some("") ==>
              q.rateDescription == rd.rateDescription.value
    ensures q.extras.Some? <==> rd.extrasCharge.GetOr(0.0) > 0.0
    ensures q.extras.Some? ==> q.extras == rd.extrasCharge
    ensures q.bookingGroupId.Some? <==> Truthy(rd.bookingGroupId)
    ensures q.bookingGroupId.Some? ==> q.bookingGroupId == rd.bookingGroupId
    ensures q.rateCode.Some? <==> Truthy(rd.rateCode)
    ensures q.rateCode.Some? ==> q.rateCode == rd.rateCode
    ensures q.adultCount == |Filter(Present(ctx.ages), AgeList.IsAdult)|
    ensures q.childAges == Filter(Present(ctx.ages), IsQuoteChild)
    ensures q.adultCount + q.childCount == |Present(ctx.ages)|
    ensures q.childCount == |q.childAges|
    ensures forall k :: 0 <= k < |q.childAges| ==> q.childAges[k] < 18
    ensures ctx.unitName != "" ==> q.heading == ctx.unitName
    ensures ctx.unitName == "" ==> q.heading == DefaultHeading
    ensures q.arrival == ctx.arrival.text && q.departure == ctx.departure.text
    ensures q.dailyRate == DailyRate(rd.effectiveDailyRate, q.totalCharge, Nights(ctx.arrival, ctx.departure))
  {
    var total := rd.totalCharge.GetOr(0.0);
    var extras := rd.extrasCharge.GetOr(0.0);
    var present := Present(ctx.ages);
    var childAges := Filter(present, IsQuoteChild);
    AdultChildSplit(present);
    Quote(
      heading := if ctx.unitName == "" then DefaultHeading else ctx.unitName,
      arrival := ctx.arrival.text,
      departure := ctx.departure.text,
      adultCount := |Filter(present, AgeList.IsAdult)|,
      childCount := |childAges|,
      childAges := childAges,
      rooms := rd.rooms.GetOr(0.0),
      rateDescription :=
        if rd.rateDescription.Some? && rd.rateDescription.value != "" then rd.rateDescription.value
        else StandardRate,
      dailyRate := DailyRate(rd.effectiveDailyRate, total, Nights(ctx.arrival, ctx.departure)),
      totalCharge := total,
      extras := if extras > 0.0 then Some(extras) else None,
      bookingGroupId := if Truthy(rd.bookingGroupId) then rd.bookingGroupId else None,
      rateCode := if Truthy(rd.rateCode) then rd.rateCode else None)
  }

  /** `displayResults` as a normaliser from the proxy's `data` to what the
      results panel shows: a quote read from the unwrapped level when that
      level has a location ID or a total charge, otherwise the original body
      (envelope included) for raw display. */
  function DisplayResults(data: RemoteRecord, ctx: Context): (d: Display)
    ensures d.Structured? <==> IsStructured(Unwrap(data))
    ensures d.RawFallback? ==>
              d == RawFallback(ctx.unitName, ctx.arrival.text, ctx.departure.text, data)
    ensures d.Structured? ==> d.quote == BuildQuote(Unwrap(data), ctx)
  {
    var rd := Unwrap(data);
    if IsStructured(rd) then Structured(BuildQuote(rd, ctx))
    else RawFallback(ctx.unitName, ctx.arrival.text, ctx.departure.text, data)
  }

  /** Every parsed age is exactly one of adult (`>= 18`) or child (`< 18`). */
  lemma {:induction false} AdultChildSplit(ages: seq<int>)
    ensures |Filter(ages, AgeList.IsAdult)| + |Filter(ages, IsQuoteChild)| == |ages|
    decreases |ages|
  {
    if |ages| > 0 {
      AdultChildSplit(ages[1..]);
    }
  }

  /** `{}` is shown raw, not as an error. */
  lemma EmptyBodyFallsBack(ctx: Context)
    ensures DisplayResults(EmptyRecord, ctx)
            == RawFallback(ctx.unitName, ctx.arrival.text, ctx.departure.text, EmptyRecord)
  {
  }

  /** A body holding only a total of 300 for a three-night stay is quoted at
      100 per night, and the nightly rate does not print "N/A". */
  lemma ThreeNightExample(ctx: Context)
    requires Nights(ctx.arrival, ctx.departure) == Some(3)
    ensures var d := DisplayResults(EmptyRecord.(totalCharge := Some(300.0)), ctx);
            && d.Structured? && d.quote.dailyRate == 100.0 && d.quote.totalCharge == 300.0
            && FormatCurrency(d.quote.dailyRate) == Formatted(100.0)
  {
  }

  /** Only one envelope is removed: a quote wrapped twice is not recognised. */
  lemma UnwrapsOnlyOnce(inner: RemoteRecord, ctx: Context)
    ensures DisplayResults(Wrap(Wrap(inner)), ctx).RawFallback?
  {
  }

  /** One envelope around a quote changes nothing in the quote shown. */
  lemma EnvelopeIsTransparent(inner: RemoteRecord, ctx: Context)
    requires inner.response.None? && IsStructured(inner)
    ensures DisplayResults(Wrap(inner), ctx) == DisplayResults(inner, ctx)
  {
  }

  /** The nightly rate prints "N/A" exactly when the remote gave no rate and
      there is no positive total over at least one night (an unparsable date
      leaves no nights). */
  lemma DailyRateNotAvailable(data: RemoteRecord, ctx: Context)
    requires DisplayResults(data, ctx).Structured?
    ensures var rd := Unwrap(data);
            var q := DisplayResults(data, ctx).quote;
            FormatCurrency(q.dailyRate) == NotAvailable
            <==> !TruthyNumber(rd.effectiveDailyRate)
                 && (var n := Nights(ctx.arrival, ctx.departure);
                     n.None? || n.value <= 0 || q.totalCharge <= 0.0)
  {
  }

  /** The two notions of minor differ: with every age parsed, the quote's
      children are the counters' minors plus the ages at or below 0. */
  lemma {:induction false} ChildrenAreMinorsPlusPlaceholders(ages: seq<Option<int>>)
    requires forall k :: 0 <= k < |ages| ==> ages[k].Some?
    ensures var c := AgeList.Counters(ages);
            var vs := AgeList.CounterValues(ages);
            && |Filter(Present(ages), IsQuoteChild)| == c.minors + |Filter(vs, AgeList.IsPlaceholder)|
            && |Filter(Present(ages), AgeList.IsAdult)| == c.adults
  {
    var vs := AgeList.CounterValues(ages);
    ChildSplit(vs);
  }

  lemma {:induction false} ChildSplit(vs: seq<int>)
    ensures |Filter(vs, IsQuoteChild)|
            == |Filter(vs, AgeList.IsCountedMinor)| + |Filter(vs, AgeList.IsPlaceholder)|
    decreases |vs|
  {
    if |vs| > 0 {
      ChildSplit(vs[1..]);
    }
  }
}
