/** Calendar-date handling of the booking form: the value of a date input
    and `convertToBackendFormat`, which reorders `YYYY-MM-DD` into the
    proxy's `DD/MM/YYYY`. */
module Dates {
  import opened Wrappers
  import opened Seqs
  import opened Text

  /** A date input: its text (`YYYY-MM-DD`, or empty when unset) and the
      calendar day number the browser's `Date` parses that text to, None when
      it is an Invalid Date (NaN). Days are counted in whole days, so two
      dates are `n` nights apart exactly when their day numbers differ by `n`. */
  datatype DateField = DateField(text: string, day: Option<int>)

  /** `new Date(a) >= new Date(b)`: any comparison with NaN is false, so an
      unparsable date is never "not before" anything. */
  predicate NotBefore(a: DateField, b: DateField) {
    a.day.Some? && b.day.Some? && a.day.value >= b.day.value
  }

  /** What a template literal prints for an index past the end of an array. */
  const Undefined: string := "undefined"

  function PartOr(parts: seq<string>, i: nat): string {
    if i < |parts| then parts[i] else Undefined
  }

  /** `convertToBackendFormat`: split on '-', then print the third, second and
      first parts joined by '/'. There is no validation: missing parts print
      as "undefined", parts after the third are dropped. For a well-formed
      ISO date the result has the same length, and splitting it on '/' and
      reversing the parts gives the ISO date back. */
  function ConvertToBackendFormat(iso: string): (r: string)
    ensures |Split(iso, '-')| == 3 && '/' !in iso ==>
              && |r| == |iso|
              && Join(Reverse(Split(r, '/')), '-') == iso
  {
    var parts := Split(iso, '-');
    var r := PartOr(parts, 2) + "/" + PartOr(parts, 1) + "/" + PartOr(parts, 0);
    if |parts| == 3 && '/' !in iso then
      JoinThree(parts[0], parts[1], parts[2], '-');
      assert parts == [parts[0], parts[1], parts[2]];
      FieldsAvoid(parts[0], parts[1], parts[2], iso, '/');
      BackendFormatRoundTrip(parts[0], parts[1], parts[2]);
      r
    else r
  }

  /** The ISO date built from year, month and day fields. */
  function IsoDate(y: string, m: string, d: string): string {
    y + "-" + m + "-" + d
  }

  /** Fields free of both separators survive the trip to `DD/MM/YYYY` and
      back: the output is exactly `d/m/y`, as long as the input, and reading
      it back recovers the input. */
  lemma BackendFormatRoundTrip(y: string, m: string, d: string)
    requires '-' !in y && '-' !in m && '-' !in d
    requires '/' !in y && '/' !in m && '/' !in d
    ensures var iso := IsoDate(y, m, d);
            var out := PartOr(Split(iso, '-'), 2) + "/" + PartOr(Split(iso, '-'), 1)
                       + "/" + PartOr(Split(iso, '-'), 0);
            && Split(iso, '-') == [y, m, d]
            && out == d + "/" + m + "/" + y
            && |out| == |iso|
            && Split(out, '/') == [d, m, y]
            && Join(Reverse(Split(out, '/')), '-') == iso
  {
    var iso := IsoDate(y, m, d);
    JoinThree(y, m, d, '-');
    SplitJoin([y, m, d], '-');
    var out := d + "/" + m + "/" + y;
    JoinThree(d, m, y, '/');
    SplitJoin([d, m, y], '/');
    assert Reverse([d, m, y]) == [y, m, d];
  }

  lemma JoinThree(a: string, b: string, c: string, sep: char)
    ensures Join([a, b, c], sep) == a + [sep] + b + [sep] + c
  {
    assert [b, c][1..] == [c];
    assert Join([b, c], sep) == b + [sep] + c;
    assert [a, b, c][1..] == [b, c];
    assert Join([a, b, c], sep) == a + [sep] + (b + [sep] + c);
  }

  /** A character absent from `y-m-d` is absent from each field. */
  lemma FieldsAvoid(y: string, m: string, d: string, iso: string, c: char)
    requires iso == y + "-" + m + "-" + d && c !in iso
    ensures c !in y && c !in m && c !in d
  {
    assert forall x :: x in y ==> x in iso;
    assert forall x :: x in m ==> x in iso;
    assert forall x :: x in d ==> x in iso;
  }

  /** The conversion applied to a well-formed ISO date swaps its fields. */
  lemma ConvertIsoDate(y: string, m: string, d: string)
    requires '-' !in y && '-' !in m && '-' !in d
    requires '/' !in y && '/' !in m && '/' !in d
    ensures ConvertToBackendFormat(IsoDate(y, m, d)) == d + "/" + m + "/" + y
  {
    BackendFormatRoundTrip(y, m, d);
  }

  /** An empty date (the value of an unset date input) converts to
      "undefined/undefined/": the conversion itself never fails. */
  lemma ConvertEmptyDate()
    ensures ConvertToBackendFormat("") == "undefined/undefined/"
  {
    assert Split("", '-') == [""];
  }
}
