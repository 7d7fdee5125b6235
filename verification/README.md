# Booking form logic of the GC System rates page

This project models the client-side logic of the GC System booking-inquiry
page (`Script.js`) in Dafny, with the DOM replaced by values:

- **Age list** (`age_list.dfy`, module `AgeList`): the `.age-input` fields
  are a `seq<Option<int>>`. Each entry is `parseInt` of the field's text, and
  `None` stands for NaN. The `occupants` field is an `Option<int>` in the same
  way. The module covers `addAgeField`, `removeAge`, typing into an age field,
  and the `occupants` input handler. That handler is written twice: as the
  closed form `Resize`, and as the method `OccupantsInput`, which repeats the
  source's two loops and is proved equal to `Resize`. `updateGuestCounters`
  reads an unparsable field as 0. It counts adults as `age >= 18` and minors
  as `0 < age < 18`.
- **Dates** (`dates.dfy`, module `Dates`): `convertToBackendFormat`, which
  splits on `-` and prints `D/M/Y`. A missing part prints as `undefined`,
  exactly as the template literal does.
- **Submit** (`submit.dfy`, module `Submit`): the submit handler's three
  checks, run in order with the first failure deciding. The checks are: a
  missing field, then departure not after arrival, then the number of ages
  not equal to the occupants. The module also builds the payload posted to
  the proxy.
- **Results** (`results.dfy`, module `Results`): `displayResults` without
  the HTML. It removes one `Response` envelope and detects the shape, giving
  `Structured(quote)` or `RawFallback(original)`. It supplies field defaults,
  shows optional fields only when present, and uses the daily-rate fallback
  of `calculateDailyRate`. It also models the `'N/A'` rule of
  `formatCurrency`. Here a child is any parsed age `< 18`. For the field
  values the model admits, that includes 0 and negative ages (a validating
  browser stops negative ages before submit, see "## Left out"). This
  differs from the counters' notion of a minor, and
  `ChildrenAreMinorsPlusPlaceholders` states the difference.
- Helpers: `wrappers.dfy` (`Option`, `Result`), `seqs.dfy` (`Filter`,
  `Repeat`, `RemoveAt`, `Reverse`), `text.dfy` (JavaScript `trim`, `split` /
  `join` on one character, integer-to-decimal rendering).

Dates are modelled as `DateField(text, day)`. `text` is the input's ISO
text. `day` is the whole-day number that the browser's `Date` gives that
text, or `None` when the text is an Invalid Date. Nights are the
difference of the two day numbers, and `None` when either date is `None`.
Money amounts are idealised as `real`.

The occupants handler removes surplus fields by counting
`.age-input-wrapper` elements (Script.js:71-74). The model assumes one
wrapper per age field. Every field that `addAgeField` creates satisfies this
(Script.js:3-7). The page's initial markup is not part of this model.

Two behaviours of `Script.js` worth knowing:
- An occupants value `<= 0`, or one that does not parse, leaves the age list
  unchanged (Script.js:64-69).
- An edited age keeps `parseInt`'s NaN (Script.js:147). Only the counters
  read NaN as 0 (Script.js:33). The submit handler itself does not reject
  NaN, so the model lets the submitted ages contain `None`. In a validating
  browser, the `required min="0" max="120"` attributes of each age input
  (Script.js:5) stop the `submit` event first, so NaN reaches line 147 only
  when the page's markup turns constraint validation off.

## Model

| member | source | states |
|---|---|---|
| AgeList.Tally | Script.js:31-36 | the one-pass tally equals the filter counts: adults are the ages `>= 18`, the minor ages are exactly those in `(0, 18)` in their original order, and the minor count is their number |
| AgeList.Counters | Script.js:31-50 | the adult tally is the number of fields reading `>= 18` (an unparsable field reads as 0); the minor list is the fields reading strictly between 0 and 18, in their original order; the minor tally is its length |
| AgeList.CountersPartition | Script.js:33-36 | adults + minors + the number of ages `<= 0` is exactly the number of fields |
| AgeList.CountersConcat | Script.js:35-45 | the tallies of two runs of fields add up, and the minor-age lists concatenate in order |
| AgeList.ZeroAgeContributesNothing | Script.js:33-36 | a field reading as 0 adds to neither tally nor to the minor list, wherever it sits |
| AgeList.UnparsedAgeCountsAsZero | Script.js:33 | a non-numeric field counts the same as 0, and the same as no field at all |
| AgeList.AddAgeField | Script.js:1-14 | appends exactly one field holding 25, keeps all earlier fields, and sets occupants to the new number of fields |
| AgeList.AddAgeFieldCounters | Script.js:5-13 | adding a field adds one adult and leaves the minors and the minor list unchanged |
| AgeList.RemoveAge | Script.js:16-29 | with more than one field, removes exactly the chosen field, keeps the others in order, and sets occupants to the new count; with one field, leaves the form as it is and raises "You must have at least one guest age" |
| AgeList.AddThenRemoveLast | Script.js:1-29 | adding a field and then removing that last field restores the ages and sets occupants to their number, for any list of at least one field |
| AgeList.EditAge | Script.js:53-57 | typing into one age field changes only that field; the length and the occupants field stay the same |
| AgeList.Resize | Script.js:59-80 | n above the length appends n - length fields of 25 after the unchanged prefix; 0 < n < length keeps the first n; n <= 0, NaN or n = length leaves the list unchanged; a positive n always ends with exactly n fields and occupants n; a non-empty list never empties |
| AgeList.OccupantsInput | Script.js:59-80 | the handler's loops (add a field n - length times, or remove the last wrapper length - n times) end in the closed-form result of `Resize` |
| AgeList.NeverEmpty | Script.js:16-80 | starting from at least one field, no sequence of add, remove, edit and occupants events leaves the form without an age field |
| AgeList.OccupantsInStep | Script.js:9-23 | after an add, a remove from a synced form, or an occupants entry of at least 1, the occupants field equals the number of age fields |
| Text.Trim | Script.js:131 | the trimmed name is a contiguous run of the input with only whitespace cut off on either side, and it neither starts nor ends with whitespace |
| Text.TrimEmptyIffBlank | Script.js:131-136 | a unit name trims to empty exactly when every character is JavaScript whitespace |
| Text.Split | Script.js:100 | `split` gives at least one part, no part contains the separator, and joining the parts gives back the string |
| Text.SplitJoin | Script.js:100 | splitting undoes joining when no part contains the separator |
| Text.IntString | Script.js:150 | the occupant count printed in the mismatch notice is non-empty and starts with '-' exactly when negative (magnitudes below 10^21) |
| Text.NatStringValue | Script.js:150 | the printed digits read back as the number printed |
| Text.IntStringReadsAs | Script.js:150 | the printed count is an optional minus sign and digits without a leading zero that read back as the count, for either sign |
| Dates.ConvertToBackendFormat | Script.js:99-105 | for an input with exactly three dash-separated parts and no '/', the output has the same length, and splitting it on '/' and reversing the parts gives the input back |
| Dates.BackendFormatRoundTrip | Script.js:99-105 | for fields free of '-' and '/', `Y-M-D` splits into [Y, M, D], converts to exactly `D/M/Y` of the same length, and that splits into [D, M, Y] and reverses back to the input |
| Dates.ConvertIsoDate | Script.js:99-105 | `convertToBackendFormat("Y-M-D")` is `"D/M/Y"` |
| Dates.ConvertEmptyDate | Script.js:99-105 | an empty date converts to "undefined/undefined/": the conversion never fails |
| Submit.ValidateSubmission | Script.js:128-160 | checks run in order and the first failure wins: a missing field (blank name, empty date, occupants 0 or NaN), then arrival not before departure (both dates parsed), then the number of ages differing from occupants (carrying that occupants value); when accepted, arrival < departure whenever both dates parse, the ages count equals occupants and is at least 1, the payload carries the trimmed non-empty name and the ages unchanged, and both dates are converted |
| Submit.Message | Script.js:136-152 | a missing field and a bad date order each show their fixed notice; the guest-count notice is "Please add ages for all N guests", where N is the declared occupant count as JavaScript prints it: an optional minus sign, then digits without a leading zero that read back as the count |
| Submit.MessageIdentifiesError | Script.js:136-152 | different refusals show different notices, so the notice identifies the failed check and the declared count |
| Submit.UnparsableDateSkipsOrderCheck | Script.js:141-144 | a non-empty date text that `Date` cannot parse passes the order check (every comparison with NaN is false), so a filled form with a matching count is accepted |
| Submit.SyncedFormAccepted | Script.js:131-152 | a form whose occupants equal its number of age fields, with a name, both dates and arrival before departure, is accepted |
| Results.FormatCurrency | Script.js:107-108 | an amount prints as "N/A" exactly when it is zero, and otherwise as that amount |
| Results.Nights | Script.js:118-120 | the nights are defined exactly when both dates parse, and then arrival day + nights = departure day |
| Results.CalculateDailyRate | Script.js:117-126 | with at least one night and a positive total, the rate is positive and the rate times the nights gives back the total; otherwise, including NaN nights, it is 0 |
| Results.DailyRate | Script.js:217-220 | a non-zero effective rate from the remote is shown as is; otherwise the rate spreads a positive total over at least one night, or is 0 |
| Results.Present | Script.js:213-215 | a value is among the classified ages exactly when some field parsed to it; with no NaN they are the counters' values |
| Results.PresentSingleton | Script.js:213-215 | a NaN field contributes no age and a parsed field contributes its value |
| Results.PresentConcat | Script.js:213-215 | the parsed ages of two runs of fields concatenate in order, so with `PresentSingleton` they are the parsed ages in their original order |
| Results.AdultChildSplit | Script.js:213-214 | every parsed age is exactly one of adult (`>= 18`) or child (`< 18`) |
| Results.BuildQuote | Script.js:206-268 | a missing total, extras or rooms becomes 0, and a missing or empty description becomes "Standard Rate"; extras appear only when above 0; the group ID and rate code appear only when truthy; the adult count is the number of parsed ages `>= 18`; the child ages are the parsed ages `< 18` in their original order; adults + children equal the number of parsed ages; the child ages are all below 18; the heading is the unit name, or "Accommodation" when the name is empty; the daily rate follows `DailyRate` |
| Results.DisplayResults | Script.js:196-279 | exactly one `Response` level is unwrapped; the result is Structured exactly when that level's location ID or total charge is truthy; otherwise it is RawFallback carrying the original, still-wrapped data |
| Results.EmptyBodyFallsBack | Script.js:271-278 | an empty body is shown raw, not as an error |
| Results.ThreeNightExample | Script.js:117-126 | a body holding only a total of 300, for three nights, gives a daily rate of 100, which does not print as "N/A" |
| Results.UnwrapsOnlyOnce | Script.js:199-202 | a body wrapped in two `Response` envelopes is not recognised as a quote |
| Results.EnvelopeIsTransparent | Script.js:199-211 | one `Response` envelope around a recognised quote changes nothing in the quote shown |
| Results.DailyRateNotAvailable | Script.js:217-244 | the daily rate prints "N/A" exactly when the remote gave no non-zero rate and there is no positive total over at least one night (an unparsable date leaves no nights) |
| Results.ChildrenAreMinorsPlusPlaceholders | Script.js:213-215 | with every age parsed, the quote's children are the counters' minors (Script.js:36) plus the ages `<= 0`, and the quote's adults are the counters' adults |

## Left out

- The DOM itself: element lookup, `innerHTML` construction, toggling the
  minors section and the results card, and the loading indicator. The model
  keeps only the values these are built from.
- `showMessage`'s 5-second `setTimeout` that clears the notice. The notice
  text is returned as a value (`Update.error`, `Submit.Message`).
- The `fetch` call, the JSON decoding and the promise handling. This
  includes the choice on `data.success` between the results and the two
  error panels, which is I/O plumbing around `DisplayResults`.
- `formatDateDisplay` and JavaScript `Date` parsing: each date is given as
  its text together with a whole-day number. `Intl.NumberFormat`: only the
  "N/A" branch of `formatCurrency` is modelled, and a formatted amount stays
  a number.
- HTML constraint validation of the age inputs (`required`, `min="0"`,
  `max="120"`, Script.js:5) is not modelled. The submit handler is modelled
  for any field values, including NaN and out-of-range ages that a
  validating browser stops before the `submit` event.
- IEEE floating point: charges are `real`, so NaN and rounding are not
  modelled.
- Text.IntString: ages and occupants are unbounded integers, so JavaScript
  number precision is not modelled. `parseInt` rounds above 2^53, and from
  10^21 upwards the count in the mismatch notice prints in exponent form
  (`1e+21`) where the model prints every digit.
- A `Response` envelope whose value is not an object, and money fields
  that arrive as JSON strings. The remote record has typed optional fields
  only.
- `DisplayResults` assumes the proxy's `data` is a JSON object. The proxy
  forwards the remote body unchanged (api/rates.php:72). When that body is
  `null`, reading `data.Response` throws. The `.catch` branch then shows the
  "Connection Error" panel instead of a raw fallback; that path is not
  modelled.
- The hero carousel timer and the `DOMContentLoaded` counter refresh.
- `api/rates.php`, `config/settings.php` and `index.php`: HTTP, CORS and
  logging plumbing, and static serving. The proxy's own validation and
  transformation are in `includes/functions.php`, which is not part of this
  model.
