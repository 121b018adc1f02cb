# Visit forms: a verified model

This project models the decision logic of `visits/forms.py` in a sales-visit
tracker. That logic lives in the forms that record a client visit and then move
it through the stages "Proposal or Negotiation", "Closing" and "Payment Followup".
Three pieces are modelled:

* **`NewVisitForm`** (module `NewVisit`). When the form is built it picks the
  company whose contacts are offered: a submitted `company_name` read with
  `int()`, or else the saved instance's company. It then fills the customer
  and contact choice lists. `clean` rejects a missing or zero coordinate. It
  then quantizes latitude and longitude to six decimal places with
  `ROUND_HALF_UP` and stores them back as strings.
* **`UpdateVisitForm`** and **`UpdateProductInterestedForm`** (module
  `StageFields`). Each starts from the field table its model form builds. It
  makes a fixed list of fields optional, then sets `required`, the widget and
  the choices from the stage and a contract outcome. The first form reads the
  outcome stored on the instance. The second receives it as a parameter.
* The library behaviour these forms rely on, modelled as values: Python's
  `int(str)` in base 10, with its 4300-digit limit (`PyInt`), finite `decimal.Decimal` values with
  `quantize` in the default context and `str` (`PyDecimal`), and ordering a
  query by a text column (`Ordering`).

The forms' objects are Dafny classes. Their fields hold what the Python code
reassigns: `fields`, the querysets and empty label, and `cleaned_data`. Their
constructors and `Clean` are imperative and mirror the source's loops and
branches. Each is proved against a specification function. The lemmas about
those functions carry the properties.

Behaviour worth knowing, modelled as the code has it:

* `clean` treats a coordinate equal to zero like a missing one, because it
  tests truthiness, so latitude `0` is rejected with "Location not detected".
* The latitude is written back into `cleaned_data` before the longitude is
  converted. When only the longitude fails, the latitude has already been
  replaced by its string (`NewVisit.NewVisitForm.Clean`).
* The only way converting a finite Decimal can fail is `quantize` raising
  InvalidOperation. That happens when the rounded coefficient would need more
  than 28 digits, the default context precision. This is what the "Invalid
  coordinates" error catches.
* The sign of a negative value that rounds to zero is kept: `-0.0000001` is
  stored as `"-0.000000"`.
* `UpdateProductInterestedForm` under "Closing" with "Lost" turns the final
  amount and the payment into hidden inputs. They stay optional and are still
  submitted; they are not removed from the form.
* `UpdateVisitForm` picks the "Closing" widgets from the outcome stored on the
  instance, not from the value being submitted.

## Model

| member | source | states |
|---|---|---|
| `NewVisit.ResolveCompany` | visits/forms.py:47-54 | A non-empty submitted `company_name` decides the company id, as `int()` reads it; when that read fails the id is None and the instance is not consulted. With nothing submitted, the instance's company is used exactly when the instance has a truthy pk and a truthy company id. |
| `NewVisit.SubmittedCompanyIgnoresInstance` | visits/forms.py:48-54 | When a company was submitted, any two stored instances resolve to the same company. |
| `NewVisit.ContactsOfCompany` | visits/forms.py:57-59 | The filter keeps every contact whose `customer_id` is the company, as many times as it occurs, and no other contact. |
| `NewVisit.ContactChoices` | visits/forms.py:56-60 | The contact choices for company c are sorted by contact name and contain exactly the contacts of c. |
| `NewVisit.NewVisitForm.constructor` | visits/forms.py:40-60 | Customers are offered as a reordering of all customers, sorted by company name. If the resolved company id is truthy (a resolved 0 counts as none), the contacts are that company's in name order and the label is "Select contact". Otherwise the contacts are empty and the label is "Select company first". |
| `NewVisit.NewVisitForm.Clean` | visits/forms.py:62-80 | Fails with "Location not detected" exactly when either coordinate is None or zero, and then leaves the data alone. Fails with "Invalid coordinates" exactly when both are present and one cannot be quantized; when only the longitude fails, just the latitude has been replaced. On success both coordinates become their normalised strings, every other entry is unchanged, and that dictionary is returned. |
| `PyInt.ParseInt` | visits/forms.py:49-52 | `int()` on the submitted text. None is the ValueError the form swallows. A result never has more than 4300 digits, so it can always be printed back. |
| `PyInt.ParseIntRoundTrip` | visits/forms.py:50 | `int()` of the printed form of any integer of at most 4300 digits gives that integer back. Longer integers cannot be printed: `str` raises. |
| `PyInt.LongDigitRunDoesNotParse` | visits/forms.py:49-52 | A digit group of more than 4300 digits raises ValueError, signed or not. Leading zeros count toward the limit and underscores do not. The form then resolves no company. |
| `PyInt.BlankDoesNotParse` | visits/forms.py:49-52 | Text made only of white space raises in `int()`, so no company id results. |
| `PyInt.ParseIntIgnoresBlanks` | visits/forms.py:50 | For all text t, `int(w1 + t + w2)` reads exactly what `int(t)` reads, including raising. This holds when w1 and w2 contain only characters `int()` skips: ASCII tab to carriage return, space, and non-ASCII Unicode white space. |
| `PyInt.ParseIntRejectsFileSeparator` | visits/forms.py:49-52 | The ASCII separator U+001C is not skipped, so `int("\x1c5")` raises and no company is resolved. |
| `PyInt.ParseIntUnderscores` | visits/forms.py:50 | `int("-1_000")` is -1000: a sign and single underscores between digits are accepted. |
| `PyInt.ParseIntRejectsDoubleUnderscore` | visits/forms.py:49-52 | `int("1__0")` raises. |
| `PyInt.ParseIntRejectsPoint` | visits/forms.py:49-52 | Any text containing a "." raises in `int()`, as `int("4.5")` does. |
| `PyDecimal.RoundHalfUp` | visits/forms.py:72 | The rounded count of units r satisfies 2c - unit < 2·r·unit <= 2c + unit, which is rounding to nearest with ties upward. |
| `PyDecimal.IsTruthy` | visits/forms.py:67 | A Decimal is truthy exactly when its numeric value is non-zero; either zero is falsy. |
| `NewVisit.Truthy` | visits/forms.py:64-67 | A missing entry (None) is falsy, and a Decimal is truthy exactly when its value is non-zero. This is the test `not lat or not lon` applies. |
| `PyDecimal.QuantizedCoefficient` | visits/forms.py:72 | The coefficient at exponent -6 is the input scaled by 10^(e+6), rounded half-up on the magnitude. u·r lies in the interval (c - u/2, c + u/2], with u = 1 when nothing is cut off. |
| `PyDecimal.Quantize` | visits/forms.py:71-76 | A successful quantize keeps the sign, has exponent -6, and its coefficient fits the 28-digit context precision. |
| `PyDecimal.RoundHalfUpUnique` | visits/forms.py:72 | Only one integer satisfies that interval, so the rounding is fully determined by it. |
| `PyDecimal.QuantizeFailsIff` | visits/forms.py:71-78 | Quantizing raises exactly when the rounded coefficient is at least 10^28, i.e. needs more than the context's 28 digits. |
| `PyDecimal.QuantizeShape` | visits/forms.py:71-76 | A quantized value keeps the sign and has exponent -6. Its coefficient is the input scaled exactly when there are at most six fractional digits, and the half-up rounded one otherwise. |
| `PyDecimal.QuantizeWithinHalfMicro` | visits/forms.py:71-76 | The quantized value is within 0.0000005 of the input. |
| `PyDecimal.QuantizeExactWhenShort` | visits/forms.py:71-76 | A value with at most six fractional digits keeps its numeric value. |
| `PyDecimal.QuantizeTiesAwayFromZero` | visits/forms.py:72 | At an exact tie the magnitude grows by 0.0000005: a positive value rounds up and a negative value rounds down. |
| `PyDecimal.QuantizeIdempotent` | visits/forms.py:71-76 | Quantizing an already quantized value returns it unchanged. |
| `PyDecimal.QuantizeTieExamples` | visits/forms.py:72 | 12.1234565 quantizes to 12.123457, and -12.1234565 to -12.123457. |
| `PyDecimal.QuantizeBelowTieExample` | visits/forms.py:72 | 12.1234564 quantizes to 12.123456. |
| `PyDecimal.Str` | visits/forms.py:71-76 | The string of a quantized value has exactly six digits after its point, and starts with "-" exactly when its sign is negative. |
| `PyDecimal.StrExamples` | visits/forms.py:71-76 | The quantized values above print as "12.123457" and "-12.123457". |
| `PyDecimal.NormaliseTieExamples` | visits/forms.py:71-76 | `clean` stores "12.123457" for 12.1234565 and "-12.123457" for -12.1234565. |
| `PyDecimal.ParsePlain` | visits/forms.py:72 | `Decimal(text)` for plain notation: an optional sign, digits, an optional point and digits. A parsed value is negative exactly when the text starts with "-". Its exponent is minus the number of fraction digits, which is shorter than the text. |
| `PyDecimal.ParsePlainParts` | visits/forms.py:72 | A sign, the digits w, a point and the digits f read as coefficient w·10^\|f\| + f with exponent -\|f\|. |
| `PyDecimal.StrParsesBack` | visits/forms.py:71-76 | `Decimal(str(q))` gives q back for every quantized q. |
| `PyDecimal.NormaliseIdempotent` | visits/forms.py:71-76 | Normalising a stored coordinate string again yields the same string. |
| `PyDecimal.NormaliseCoordinate` | visits/forms.py:71-76 | `str(Decimal(str(x)).quantize(...))` fails, which `clean` reports as "Invalid coordinates", exactly when the rounded coefficient reaches 10^28. Otherwise the stored string has six digits after its point and a leading "-" exactly when the input's sign is negative. |
| `Ordering.SortBy` | visits/forms.py:43 | The result contains the same elements as the input, each as often, and is ordered by the key. Used for `order_by("company_name")` and `order_by("contact_name")`. |
| `Ordering.TextLeTotal` | visits/forms.py:43 | Any two names are comparable in the text order. |
| `Ordering.TextLeTransitive` | visits/forms.py:59 | The text order is transitive. |
| `StageFields.ResetFields` | visits/forms.py:131-134 | A reset loop keeps every field, and its widget and choices. It makes each named field optional, dropping a `hidden` attribute when asked. Unnamed fields stay the same. The same function describes the loop at 174-176, which keeps `hidden`. |
| `StageFields.ResetStep` | visits/forms.py:131-134 | Each turn of a reset loop makes the one named field optional, if the form has it, and changes nothing else. |
| `StageFields.ApplyVisitStage` | visits/forms.py:136-154 | The stage branches keep every field and change only the five stage fields. Only `contract_outcome` can become required. A field they replace carries no `hidden` attribute. At any other stage nothing changes. |
| `StageFields.VisitFieldTable` | visits/forms.py:127-154 | The form's final table has exactly the fields the model form built. Its other properties are the `Visit…` lemmas below. |
| `StageFields.UpdateVisitForm.constructor` | visits/forms.py:127-154 | The table left behind is the reset over the five stage fields, followed by the stage branch for the outcome stored on the instance. |
| `StageFields.VisitOtherFieldsUntouched` | visits/forms.py:131-154 | The form keeps every field and changes only the five stage fields. |
| `StageFields.VisitStageFieldsShown` | visits/forms.py:131-134 | At every stage none of the five stage fields carries a `hidden` attribute. |
| `StageFields.VisitOptionalOutsideClosing` | visits/forms.py:131-154 | At any stage other than "Closing", unknown values and None included, none of the five stage fields is required. |
| `StageFields.VisitClosingRequiresOnlyOutcome` | visits/forms.py:141-144 | Under "Closing", of the five stage fields exactly `contract_outcome` is required, as a select with the choices [Won, Lost]. |
| `StageFields.VisitClosingWidgetsFollowStoredOutcome` | visits/forms.py:146-150 | Under "Closing", a stored Won gives the amount a number input and payment a checkbox. A stored Lost gives the reason a text area. Any other stored value leaves those widgets as they were. |
| `StageFields.ApplyProductStage` | visits/forms.py:178-202 | The stage branches keep every field and change only the three numeric fields. They change no choices. At any other stage nothing changes. |
| `StageFields.ProductFieldTable` | visits/forms.py:171-202 | The form's final table has exactly the fields the model form built. Its other properties are the `Product…` lemmas below. |
| `StageFields.UpdateProductInterestedForm.constructor` | visits/forms.py:171-202 | The table left behind is the reset over the three numeric fields, followed by the stage and outcome branch, touching only fields the form has. |
| `StageFields.ProductRequiredness` | visits/forms.py:174-202 | `order_estimate` is required iff the stage is "Proposal or Negotiation". `final_order_amount` is required iff the stage is "Closing" and the outcome is "Won". `payment_collected` is required iff the stage is "Payment Followup". |
| `StageFields.ProductAtMostOneRequired` | visits/forms.py:174-202 | At most one of the three numeric fields is required. |
| `StageFields.ProductOutcomeIgnoredOutsideClosing` | visits/forms.py:178-202 | Outside "Closing" the outcome makes no difference to the table. |
| `StageFields.ProductClosingLostHides` | visits/forms.py:191-195 | Under "Closing" with "Lost", the final amount and the payment become hidden inputs and neither is required. |
| `StageFields.ProductClosingWonKeepsPaymentInput` | visits/forms.py:183-190 | Under "Closing" with "Won", the payment stays a number input and is not required. |
| `StageFields.ProductOtherFieldsUntouched` | visits/forms.py:174-202 | The form keeps every field and changes only the three numeric fields. |

## Left out

- Django's ORM: `Customer.objects` and `CustomerContact.objects` become in-memory sequences. The database collation becomes code-point order. The order among contacts with equal names, which the database leaves open, becomes the order the insertion sort produces.
- The models in `.models` are not part of this model. The field table that `super().__init__` builds from them is a parameter of each update form.
- `super().clean()` and the decimal form field's parsing and validators (digit limits set on the model) are library code. `clean` starts from `cleaned_data` as they leave it.
- NewVisit.NewVisitForm.Clean: requires the two coordinate entries to be None or a Decimal. A decimal form field yields nothing else, so other value kinds are not modelled.
- `Decimal(str(lat))` is taken to give `lat` back, which holds for every finite Decimal. Infinities and NaNs never reach `clean`, because the field rejects them.
- The decimal context is assumed to be Python's default (precision 28). A context changed elsewhere in the program is not modelled.
- PyDecimal.ParsePlain: reads only plain notation. Exponents, blanks, underscores and special values are not modelled, because it is used only to read back the strings `clean` stores.
- PyInt.ParseInt: the digit limit is fixed at 4300, the default of current CPython. A limit changed with `sys.set_int_max_str_digits` or `PYTHONINTMAXSTRDIGITS` is not modelled. Neither is an older interpreter without the limit. Submitted form values are strings, so the TypeError branch of the `except` is not reachable in the model.
- PyInt.ParseInt: reads only ASCII digits. Python also accepts other Unicode decimal digits; they are left out because they are not relevant to a submitted id.
- StageFields.UpdateVisitForm.constructor: requires the fields its stage branch indexes to exist. The source raises KeyError otherwise, and the visit model form always has them.
- Widget attributes other than `hidden`, CSS classes, element ids, rows, and the `choices` copied onto a widget are left out as presentation. Choice labels equal their values in the source.
- The read-only `contact_number` and `designation` fields, `ProductInterestedForm`, both `modelformset_factory` sets, client-side hiding, rendering, persistence and request handling are left out. They hold no decision logic of this file.
- How Django turns a raised ValidationError into form errors is library behaviour. `clean` returns the error as a value instead.
