/** The submit handler of the booking form up to the network call: three
    checks in a fixed order, the first failing one deciding the notice, then
    the JSON payload posted to the proxy. */
module Submit {
  import opened Wrappers
  import opened Text
  import opened Dates
  import opened AgeList

  /** Why a submission is refused before anything is sent. */
  datatype SubmitError =
    | MissingField
    | DepartureNotAfterArrival
    | GuestCountMismatch(occupants: int)

  const MissingFieldMessage: string := "Please fill in all required fields"
  const DateOrderMessage: string := "Departure date must be after arrival date"
  const MismatchPrefix: string := "Please add ages for all "
  const MismatchSuffix: string := " guests"

  /** The notice shown for each refusal. The guest-count notice names the
      declared occupant count: the text between its fixed prefix and suffix
      is that count as JavaScript prints it, an optional minus sign and then
      digits without a leading zero that read back as the count. */
  function Message(e: SubmitError): (r: string)
    ensures e.MissingField? ==> r == MissingFieldMessage
    ensures e.DepartureNotAfterArrival? ==> r == DateOrderMessage
    ensures e.GuestCountMismatch? ==>
              && |r| > |MismatchPrefix| + |MismatchSuffix|
              && r[..|MismatchPrefix|] == MismatchPrefix
              && r[|r| - |MismatchSuffix|..] == MismatchSuffix
              && ReadsAs(r[|MismatchPrefix|..|r| - |MismatchSuffix|], e.occupants)
  {
    match e
    case MissingField => MissingFieldMessage
    case DepartureNotAfterArrival => DateOrderMessage
    case GuestCountMismatch(n) =>
      var count := IntString(n);
      var r := MismatchPrefix + count + MismatchSuffix;
      assert r[|MismatchPrefix|..|r| - |MismatchSuffix|] == count;
      IntStringReadsAs(n);
      r
  }

  /** Different refusals show different notices, so the notice alone tells
      which check failed and, for a count mismatch, the declared count. */
  lemma MessageIdentifiesError(e1: SubmitError, e2: SubmitError)
    requires Message(e1) == Message(e2)
    ensures e1 == e2
  {
    var m1, m2 := Message(e1), Message(e2);
    if e1.GuestCountMismatch? && e2.GuestCountMismatch? {
      var c1 := m1[|MismatchPrefix|..|m1| - |MismatchSuffix|];
      var c2 := m2[|MismatchPrefix|..|m2| - |MismatchSuffix|];
      assert c1 == c2;
    }
  }

  /** The body posted to the proxy: the trimmed unit name, both dates in
      `DD/MM/YYYY`, the occupant count and the ages as read (None is the NaN
      of an unparsable input, which JSON encodes as null). */
  datatype Payload = Payload(
    unitName: string,
    arrival: string,
    departure: string,
    occupants: int,
    ages: seq<Option<int>>)

  /** The first check: `!unitName || !arrival || !departure || !occupants`,
      where an occupants value of NaN or 0 counts as missing. */
  predicate HasMissingField(unitName: string, arrival: DateField, departure: DateField, occupants: Option<int>) {
    Trim(unitName) == "" || arrival.text == "" || departure.text == "" || occupants.GetOr(0) == 0
  }

  /** The first check stated without `trim`: a blank name, an empty date
      or an occupants value that is NaN or 0. */
  predicate IsIncomplete(unitName: string, arrival: DateField, departure: DateField, form: Form) {
    AllWhitespace(unitName) || arrival.text == "" || departure.text == ""
    || form.occupants == None || form.occupants == Some(0)
  }

  /** The submit handler: refusal with its reason, or the payload to post. */
  function ValidateSubmission(unitName: string, arrival: DateField, departure: DateField, form: Form)
    : (r: Result<Payload, SubmitError>)
    ensures r == Failure(MissingField) <==> IsIncomplete(unitName, arrival, departure, form)
    ensures r == Failure(DepartureNotAfterArrival) <==>
              && !IsIncomplete(unitName, arrival, departure, form)
              && arrival.day.Some? && departure.day.Some?
              && arrival.day.value >= departure.day.value
    ensures r.Failure? && r.error.GuestCountMismatch? <==>
              && !IsIncomplete(unitName, arrival, departure, form)
              && !(arrival.day.Some? && departure.day.Some? && arrival.day.value >= departure.day.value)
              && form.occupants != Some(|form.ages|)
    ensures r.Failure? && r.error.GuestCountMismatch? ==> form.occupants == Some(r.error.occupants)
    ensures r.Success? ==>
              && r.value.unitName != "" && r.value.unitName == Trim(unitName)
              && (arrival.day.Some? && departure.day.Some? ==> arrival.day.value < departure.day.value)
              && r.value.occupants == |form.ages| >= 1
              && form.occupants == Some(|form.ages|)
              && r.value.ages == form.ages
    ensures r.Success? ==>
              && r.value.arrival == ConvertToBackendFormat(arrival.text)
              && r.value.departure == ConvertToBackendFormat(departure.text)
  {
    TrimEmptyIffBlank(unitName);
    var name := Trim(unitName);
    if HasMissingField(unitName, arrival, departure, form.occupants) then
      Failure(MissingField)
    else if NotBefore(arrival, departure) then
      Failure(DepartureNotAfterArrival)
    else
      var occupants := form.occupants.value;
      if |form.ages| != occupants then
        Failure(GuestCountMismatch(occupants))
      else
        Success(Payload(
          name,
          ConvertToBackendFormat(arrival.text),
          ConvertToBackendFormat(departure.text),
          occupants,
          form.ages))
  }

  /** A form whose occupants field was last set by adding or removing an
      age input (so it equals the number of inputs), with a name, both dates
      and a forward date range, is accepted. */
  lemma SyncedFormAccepted(unitName: string, arrival: DateField, departure: DateField, form: Form)
    requires !AllWhitespace(unitName) && arrival.text != "" && departure.text != ""
    requires arrival.day.Some? && departure.day.Some? && arrival.day.value < departure.day.value
    requires |form.ages| >= 1 && form.occupants == Some(|form.ages|)
    ensures ValidateSubmission(unitName, arrival, departure, form).Success?
  {
  }

  /** A date text the browser cannot parse (an Invalid Date) slips through
      the order check, since every comparison with NaN is false: a filled
      form with a matching count is then accepted whatever the other date. */
  lemma UnparsableDateSkipsOrderCheck(unitName: string, arrival: DateField, departure: DateField, form: Form)
    requires !AllWhitespace(unitName) && arrival.text != "" && departure.text != ""
    requires arrival.day == None
    requires |form.ages| >= 1 && form.occupants == Some(|form.ages|)
    ensures ValidateSubmission(unitName, arrival, departure, form).Success?
  {
  }
}
