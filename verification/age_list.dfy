/** The guest-age part of the booking form: the list of age inputs, the
    occupants field kept in step with it, and the adult/minor counters shown
    beside it. Each age input is held as `parseInt` of its text (None when
    that is NaN); the occupants field likewise. */
module AgeList {
  import opened Wrappers
  import opened Seqs

  /** `parseInt(input.value)` of one `.age-input`. */
  type AgeField = Option<int>

  /** The value a newly added age input starts with. */
  const DefaultAge: int := 25

  const MinimumGuestsMessage: string := "You must have at least one guest age"

  /** The form state the handlers read and write: the age inputs in document
      order and `parseInt` of the occupants field. */
  datatype Form = Form(ages: seq<AgeField>, occupants: Option<int>)

  /** A form after a handler ran, with the error notice it raised, if any. */
  datatype Update = Update(form: Form, error: Option<string>)

  // ---------------------------------------------------------------------
  // Counters

  /** The counters' view of an age: `parseInt(value) || 0`. */
  function CounterValue(f: AgeField): int {
    f.GetOr(0)
  }

  function CounterValues(ages: seq<AgeField>): (vs: seq<int>)
    ensures |vs| == |ages|
    ensures forall k :: 0 <= k < |ages| ==> vs[k] == CounterValue(ages[k])
  {
    seq(|ages|, k requires 0 <= k < |ages| => CounterValue(ages[k]))
  }

  lemma CounterValuesCons(ages: seq<AgeField>)
    requires |ages| > 0
    ensures CounterValues(ages) == [CounterValue(ages[0])] + CounterValues(ages[1..])
  {
  }

  predicate IsAdult(age: int) { age >= 18 }

  /** The counters' minor: strictly between 0 and 18, so a 0 (the value an
      unparsable input reads as) is neither adult nor minor. */
  predicate IsCountedMinor(age: int) { 0 < age < 18 }

  predicate IsPlaceholder(age: int) { age <= 0 }

  /** What `updateGuestCounters` shows: the adult tally, the minor tally and
      the list of minor ages. */
  datatype GuestCounters = GuestCounters(adults: nat, minors: nat, minorAges: seq<int>)

  /** The three counters computed in one pass over the ages. */
  function Tally(values: seq<int>): (c: GuestCounters)
    ensures c.adults == |Filter(values, IsAdult)|
    ensures c.minorAges == Filter(values, IsCountedMinor)
    ensures c.minors == |c.minorAges|
    decreases |values|
  {
    if |values| == 0 then GuestCounters(0, 0, [])
    else
      var rest := Tally(values[1..]);
      var v := values[0];
      if IsAdult(v) then rest.(adults := rest.adults + 1)
      else if IsCountedMinor(v) then GuestCounters(rest.adults, rest.minors + 1, [v] + rest.minorAges)
      else rest
  }

  /** `updateGuestCounters` without the DOM writes. */
  function Counters(ages: seq<AgeField>): (c: GuestCounters)
    ensures c.adults == |Filter(CounterValues(ages), IsAdult)|
    ensures c.minorAges == Filter(CounterValues(ages), IsCountedMinor)
    ensures c.minors == |c.minorAges|
    ensures c.adults + c.minors <= |ages|
    ensures forall k :: 0 <= k < |c.minorAges| ==> 0 < c.minorAges[k] < 18
  {
    var c := Tally(CounterValues(ages));
    PartitionLength(CounterValues(ages));
    c
  }

  /** Adults, minors and placeholders (age <= 0) partition the list. */
  lemma {:induction false} PartitionLength(values: seq<int>)
    ensures |Filter(values, IsAdult)| + |Filter(values, IsCountedMinor)|
            + |Filter(values, IsPlaceholder)| == |values|
    decreases |values|
  {
    if |values| > 0 {
      PartitionLength(values[1..]);
    }
  }

  /** Every age is counted exactly once, as adult, minor or placeholder. */
  lemma CountersPartition(ages: seq<AgeField>)
    ensures var c := Counters(ages);
            c.adults + c.minors + |Filter(CounterValues(ages), IsPlaceholder)| == |ages|
  {
    PartitionLength(CounterValues(ages));
  }

  /** The counters of a concatenation add up. */
  lemma CountersConcat(a: seq<AgeField>, b: seq<AgeField>)
    ensures var ca := Counters(a);
            var cb := Counters(b);
            var c := Counters(a + b);
            && c.adults == ca.adults + cb.adults
            && c.minors == ca.minors + cb.minors
            && c.minorAges == ca.minorAges + cb.minorAges
  {
    var va, vb := CounterValues(a), CounterValues(b);
    assert CounterValues(a + b) == va + vb;
    FilterConcat(va, vb, IsAdult);
    FilterConcat(va, vb, IsCountedMinor);
    var ca, cb, c := Counters(a), Counters(b), Counters(a + b);
    assert ca.minorAges == Filter(va, IsCountedMinor);
    assert cb.minorAges == Filter(vb, IsCountedMinor);
    assert c.minorAges == Filter(va + vb, IsCountedMinor);
    assert c.adults == |Filter(va + vb, IsAdult)|;
  }

  /** An input reading as 0 adds to neither tally, wherever it sits. */
  lemma ZeroAgeContributesNothing(a: seq<AgeField>, x: AgeField, b: seq<AgeField>)
    requires CounterValue(x) == 0
    ensures Counters(a + [x] + b) == Counters(a + b)
  {
    var x1 := Counters([x]);
    assert CounterValues([x]) == [0];
    FilterSingleton(0, IsAdult);
    FilterSingleton(0, IsCountedMinor);
    assert x1.adults == 0 && x1.minors == 0 && x1.minorAges == [];
    var ca, cb, cax := Counters(a), Counters(b), Counters(a + [x]);
    var l, r := Counters(a + [x] + b), Counters(a + b);
    CountersConcat(a, [x]);
    assert cax.adults == ca.adults && cax.minors == ca.minors;
    assert cax.minorAges == ca.minorAges + [] == ca.minorAges;
    CountersConcat(a + [x], b);
    assert l.adults == cax.adults + cb.adults;
    assert l.minors == cax.minors + cb.minors;
    assert l.minorAges == cax.minorAges + cb.minorAges;
    CountersConcat(a, b);
    assert l.adults == r.adults;
    assert l.minors == r.minors;
    assert l.minorAges == r.minorAges;
  }

  /** An input that does not parse counts as 0: it adds to neither tally,
      wherever it sits in the list. */
  lemma UnparsedAgeCountsAsZero(a: seq<AgeField>, b: seq<AgeField>)
    ensures Counters(a + [None] + b) == Counters(a + [Some(0)] + b) == Counters(a + b)
  {
    ZeroAgeContributesNothing(a, None, b);
    ZeroAgeContributesNothing(a, Some(0), b);
  }

  // ---------------------------------------------------------------------
  // Handlers

  /** `addAgeField`: appends one input holding 25 and sets the occupants
      field to the new number of inputs. */
  function AddAgeField(f: Form): (r: Form)
    ensures |r.ages| == |f.ages| + 1
    ensures r.ages[..|f.ages|] == f.ages
    ensures r.ages[|f.ages|] == Some(DefaultAge)
    ensures r.occupants == Some(|r.ages|)
  {
    Form(f.ages + [Some(DefaultAge)], Some(|f.ages| + 1))
  }

  /** Adding a field adds one adult (25) and leaves the minors alone. */
  lemma AddAgeFieldCounters(f: Form)
    ensures var c := Counters(f.ages);
            Counters(AddAgeField(f).ages) == c.(adults := c.adults + 1)
  {
    CountersConcat(f.ages, [Some(DefaultAge)]);
    assert CounterValues([Some(DefaultAge)]) == [DefaultAge];
    FilterSingleton(DefaultAge, IsAdult);
    FilterSingleton(DefaultAge, IsCountedMinor);
  }

  /** `removeAge` on the remove button of input `i`: refused with an error
      notice, leaving the form as it was, when only one input is left;
      otherwise input `i` is gone and the occupants field follows. */
  function RemoveAge(f: Form, i: nat): (r: Update)
    requires i < |f.ages|
    ensures |f.ages| > 1 <==> r.error == None
    ensures |f.ages| > 1 ==>
              && |r.form.ages| == |f.ages| - 1
              && (forall k :: 0 <= k < i ==> r.form.ages[k] == f.ages[k])
              && (forall k :: i <= k < |r.form.ages| ==> r.form.ages[k] == f.ages[k + 1])
              && r.form.occupants == Some(|f.ages| - 1)
    ensures |f.ages| <= 1 ==> r.form == f && r.error == Some(MinimumGuestsMessage)
  {
    if |f.ages| > 1 then
      var ages := RemoveAt(f.ages, i);
      Update(Form(ages, Some(|ages|)), None)
    else
      Update(f, Some(MinimumGuestsMessage))
  }

  /** Adding a field and removing that same (last) field gives the ages back,
      with the occupants field equal to their number. With no field at all,
      the removal would be refused, so one field is needed. */
  lemma AddThenRemoveLast(f: Form)
    requires |f.ages| >= 1
    ensures var r := RemoveAge(AddAgeField(f), |f.ages|);
            r.error == None && r.form == Form(f.ages, Some(|f.ages|))
  {
    var g := AddAgeField(f);
    var r := RemoveAge(g, |f.ages|);
    assert r.form.ages == f.ages;
  }

  /** Typing `v` into age input `i`: only that input changes; the age input
      handler recomputes the counters and nothing else. */
  function EditAge(f: Form, i: nat, v: AgeField): (r: Form)
    requires i < |f.ages|
    ensures |r.ages| == |f.ages| && r.ages[i] == v && r.occupants == f.occupants
    ensures forall k :: 0 <= k < |f.ages| && k != i ==> r.ages[k] == f.ages[k]
  {
    f.(ages := f.ages[i := v])
  }

  /** The effect of the occupants input handler when the field now parses
      as `entered`: grow with 25s, shrink from the end, or leave the ages. */
  function Resize(f: Form, entered: Option<int>): (r: Form)
    ensures var n := entered.GetOr(0);
            var len := |f.ages|;
            && (n > len ==>
                  && |r.ages| == n && r.ages[..len] == f.ages
                  && (forall k :: len <= k < n ==> r.ages[k] == Some(DefaultAge))
                  && r.occupants == Some(n))
            && (0 < n < len ==> r.ages == f.ages[..n] && r.occupants == entered)
            && (n <= 0 || n == len ==> r.ages == f.ages && r.occupants == entered)
            && (n >= 1 ==> |r.ages| == n && r.occupants == Some(|r.ages|))
            && (len >= 1 ==> |r.ages| >= 1)
  {
    var n := entered.GetOr(0);
    if n > |f.ages| then
      var r := Form(f.ages + Repeat(Some(DefaultAge), n - |f.ages|), Some(n));
      assert r.ages[..|f.ages|] == f.ages;
      r
    else if 0 < n < |f.ages| then Form(f.ages[..n], entered)
    else Form(f.ages, entered)
  }

  /** The occupants input handler step by step: `addAgeField` once per
      missing input, or removal of the last wrapper once per surplus input
      (the wrapper list is a snapshot taken before the loop). */
  method OccupantsInput(f: Form, entered: Option<int>) returns (r: Form)
    ensures r == Resize(f, entered)
  {
    var n := entered.GetOr(0);
    var current := |f.ages|;
    r := f.(occupants := entered);
    if n > current {
      var toAdd := n - current;
      var i := 0;
      while i < toAdd
        invariant 0 <= i <= toAdd
        invariant r.ages == f.ages + Repeat(Some(DefaultAge), i)
        invariant r.occupants == if i == 0 then entered else Some(current + i)
      {
        r := AddAgeField(r);
        i := i + 1;
      }
    } else if n < current && n > 0 {
      var toRemove := current - n;
      var wrappers := current;
      var j := 0;
      while j < toRemove
        invariant 0 <= j <= toRemove
        invariant r.ages == f.ages[..current - j]
        invariant r.occupants == entered
      {
        if wrappers > 1 {
          r := r.(ages := RemoveAt(r.ages, wrappers - 1 - j));
        }
        j := j + 1;
      }
    }
  }

  // ---------------------------------------------------------------------
  // The list never empties

  /** The user actions that change the age list. */
  datatype Event =
    | AddClicked
    | RemoveClicked(index: nat)
    | AgeTyped(index: nat, value: AgeField)
    | OccupantsTyped(value: Option<int>)

  /** An event can only name an input that is on the page. */
  predicate Applicable(f: Form, e: Event) {
    match e
    case RemoveClicked(i) => i < |f.ages|
    case AgeTyped(i, _) => i < |f.ages|
    case _ => true
  }

  function Step(f: Form, e: Event): Form
    requires Applicable(f, e)
  {
    match e
    case AddClicked => AddAgeField(f)
    case RemoveClicked(i) => RemoveAge(f, i).form
    case AgeTyped(i, v) => EditAge(f, i, v)
    case OccupantsTyped(v) => Resize(f, v)
  }

  /** The form after a run of events, or None if some event named an input
      that was not there. */
  function Run(f: Form, events: seq<Event>): Option<Form>
    decreases |events|
  {
    if |events| == 0 then Some(f)
    else if Applicable(f, events[0]) then Run(Step(f, events[0]), events[1..])
    else None
  }

  /** Starting from at least one input, no sequence of user actions leaves
      the form without an age input. */
  lemma {:induction false} NeverEmpty(f: Form, events: seq<Event>)
    requires |f.ages| >= 1
    ensures Run(f, events).Some? ==> |Run(f, events).value.ages| >= 1
    decreases |events|
  {
    if |events| > 0 && Applicable(f, events[0]) {
      NeverEmpty(Step(f, events[0]), events[1..]);
    }
  }

  /** After a field is added or removed, or after the occupants field is set
      to a positive count, the field and the number of inputs agree. */
  lemma OccupantsInStep(f: Form, e: Event)
    requires Applicable(f, e)
    requires e.AddClicked? || e.RemoveClicked?
             || (e.OccupantsTyped? && e.value.GetOr(0) >= 1)
    requires e.RemoveClicked? ==> f.occupants == Some(|f.ages|)
    ensures Step(f, e).occupants == Some(|Step(f, e).ages|)
  {
  }
}
