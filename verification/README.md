# Booking store core in Dafny

This project models the two pieces of logic in the booking application's
data layer. The rest of that layer passes data to and from the hosted
database.

1. **Slot blocking.** `getAppointmentsByBarber` in `src/lib/appointmentStore.ts`
   turns the fetched appointments of one barber and date into the 15-minute
   slot labels they block:
   - it looks up each appointment's start label in a fixed, ordered grid of
     41 labels, "10:00 AM" to "8:00 PM";
   - from that position it pushes `Math.ceil(duration / 15)` consecutive
     labels, skipping positions past the end of the grid;
   - it concatenates the results in row order.

   A null or zero duration counts as 60 minutes.
2. **Row projections.** `getAppointments` and `addAppointment` read database
   rows back as `Appointment` records, with JavaScript `||` defaults. The
   insert maps the record's fields to column names.
3. **Customer-info validation.** `customerInfoSchema` in
   `src/lib/validations/booking.ts` has three rules:
   - name: 2 to 50 characters, ASCII letters and whitespace only;
   - phone: at least 10 characters, each a digit, `+`, whitespace, `(`, `)` or `-`;
   - email: absent, empty, or accepted by the email-format check.

Modules, one per concern:

- `Wrappers` (`wrappers.dfy`): `Option`, standing for a JavaScript `null` or `undefined`.
- `Js` (`js.dfy`): the built-ins the store uses: `x || fallback`,
  `Array.prototype.indexOf`, and `Math.ceil(a / b)` on integers. Dafny's `/`
  floors for a positive divisor, so the ceiling is written as `-((-a) / b)`.
- `SlotTable` (`slot_table.dfy`): the label grid, written exactly as the store
  lists it. `ClockMinutes` reads a label "h:mm AM" as minutes after midnight.
  This reading is what lets the model prove that the 41 labels are distinct
  and sit 15 minutes apart.
- `SlotBlocking` (`slot_blocking.dfy`): the specification `BlockIn` and
  `BlockedIn`, written over any label table. It also holds the store's loops
  as methods (`PushRun`, `PushBlock`, `ComputeBlockedSlots`), each proved to
  compute the specification. The store's own answer is `BlockedSlots(rows)`,
  which is `BlockedIn(Slots, rows)`.
- `Sequences` (`sequences.dfy`): concatenating per-row outputs, which is what a
  `forEach` that pushes onto one array does.
- `BlockingProperties` (`blocking_properties.dfy`): what the blocked list
  means:
  - a grid label is blocked exactly when its time lies in [start, start + duration);
  - the run is clipped at "8:00 PM";
  - the default duration is one hour;
  - rows are taken in order, and the length adds up;
  - overlapping appointments are counted, not merged.
- `Appointments` (`appointments.dfy`): row, record, draft and insert-row
  datatypes, the two read-backs, and the insert mapping.
- `CustomerInfo` (`customer_info.dfy`): the three field rules as the lists of
  failed checks zod would report, and their characterisations.

The fetched rows are an input sequence (`seq<SlotRow>` or `AppointmentRow`).
zod's email-format check is the function parameter `isEmail`. Nothing else
is abstracted.

The grid has 41 labels, 4 + 8 + 8 + 8 + 8 + 5 on lines 68-73 of
`src/lib/appointmentStore.ts`. Starting at "8:00 PM", any positive duration
blocks only that label, because the inner loop stops at the end of the grid.

## Model

| member | source | states |
|---|---|---|
| `Js.NumberOr` | src/lib/appointmentStore.ts:78 | JavaScript or-defaulting of the duration to 60: a truthy duration is kept; null, undefined or 0 give the fallback |
| `Js.StringOr` | src/lib/appointmentStore.ts:39 | JavaScript or-defaulting of a nullable string to '': a non-empty string is kept, anything falsy gives the fallback |
| `Js.IndexOf` | src/lib/appointmentStore.ts:79 | `indexOf` gives -1 exactly when the label is absent; otherwise a position holding it, with no earlier occurrence |
| `Js.CeilDiv` | src/lib/appointmentStore.ts:83 | `Math.ceil(a / b)` is the least `r` with `a <= b * r` (`b * (r - 1) < a <= b * r`), for negative `a` too |
| `SlotTable.LabelTimes` | src/lib/appointmentStore.ts:67-74 | the grid has 41 labels, and label `i` reads as 10:00 AM plus 15·i minutes |
| `SlotTable.GridEnds` | src/lib/appointmentStore.ts:68-73 | the grid opens with "10:00 AM" … "10:45 AM" and its last (41st) label is "8:00 PM" |
| `SlotTable.OpeningHour` | src/lib/appointmentStore.ts:68 | the first four labels are "10:00 AM", "10:15 AM", "10:30 AM", "10:45 AM" |
| `SlotTable.SlotsDistinct` | src/lib/appointmentStore.ts:67-74 | the 41 labels are pairwise distinct |
| `SlotTable.SlotIndex` | src/lib/appointmentStore.ts:79 | `indexOf` on the grid finds every label at its own position, so the start index is unique |
| `SlotBlocking.PushRun` | src/lib/appointmentStore.ts:85-90 | the inner loop pushes exactly the table run from `start`, `count` long, clipped at the table end; nothing for `count <= 0` |
| `SlotBlocking.PushBlock` | src/lib/appointmentStore.ts:77-91 | one row's callback appends exactly that row's block |
| `SlotBlocking.ComputeBlockedSlots` | src/lib/appointmentStore.ts:66-94 | the whole loop returns the rows' blocks concatenated in row order |
| `BlockingProperties.BlockIsRun` | src/lib/appointmentStore.ts:79-90 | in a table without repeats, the start label sits at its unique index `s`. The block is exactly the slice of `t` from `s` to `min(s + ceil(d/15), length of t)`, of length `min(ceil(d/15), length of t - s)`, and it begins with the start label. A non-positive slot count blocks nothing |
| `BlockingProperties.UnknownStartBlocksNothing` | src/lib/appointmentStore.ts:79-81 | a start label not in the table gives index -1 and blocks nothing |
| `BlockingProperties.BlockCoversWindow` | src/lib/appointmentStore.ts:76-92 | on a 15-minute grid, a label is blocked exactly when the start is a grid label and the label's time lies in [start, start + duration) (both directions) |
| `BlockingProperties.BlockedIsInWindow` | src/lib/appointmentStore.ts:83-89 | a blocked label has a grid start and lies in the time window |
| `BlockingProperties.InWindowIsBlocked` | src/lib/appointmentStore.ts:83-89 | a grid label in the time window of a grid start is blocked |
| `BlockingProperties.SlotBlockedIffInWindow` | src/lib/appointmentStore.ts:65-94 | the same if-and-only-if, for the store's own grid |
| `BlockingProperties.LastLabelBlocksOnlyItself` | src/lib/appointmentStore.ts:85-89 | starting at the last label, any positive slot count blocks only that label |
| `BlockingProperties.LastSlotBlocksOnlyItself` | src/lib/appointmentStore.ts:83-89 | "8:00 PM" with any positive duration blocks only "8:00 PM" |
| `BlockingProperties.DefaultDurationBlocksHour` | src/lib/appointmentStore.ts:78-83 | a null or zero duration blocks four labels from the start when there is room |
| `BlockingProperties.OpeningHourDefault` | src/lib/appointmentStore.ts:78-88 | "10:00 AM" with a null or zero duration blocks "10:00 AM", "10:15 AM", "10:30 AM", "10:45 AM" |
| `BlockingProperties.BlockedLabelsInTable` | src/lib/appointmentStore.ts:87-88 | every label in the result is a label of the table |
| `BlockingProperties.BlockedAppend` | src/lib/appointmentStore.ts:76-92 | the result for rows `a + b` is that for `a` followed by that for `b` |
| `BlockingProperties.BlockedInOrder` | src/lib/appointmentStore.ts:76-92 | the first row's block comes first, then the rest's |
| `BlockingProperties.BlockedLength` | src/lib/appointmentStore.ts:66-94 | the result's length is the sum over rows of `min(ceil(d/15), 41 - s)` (0 for unknown starts or non-positive counts) |
| `BlockingProperties.OverlapDepth` | src/lib/appointmentStore.ts:76-94 | duplicates are kept: each label occurs once per row whose block contains it |
| `Appointments.ListedAppointment` | src/lib/appointmentStore.ts:33-49 | a listed row keeps identity, booking number, barber, customer name and phone, service, date, time, status and timestamps. A falsy email or price becomes '', falsy notes become '', and a falsy duration becomes 60; the duration is never 0 |
| `Appointments.CreatedAppointment` | src/lib/appointmentStore.ts:120-135 | the creation read-back copies the same fields and applies the same email, price and duration defaults; it carries no notes |
| `Appointments.ReadBacksAgree` | src/lib/appointmentStore.ts:120-135 | the listing and creation read-backs of one row differ only in `notes` |
| `Appointments.CreateRoundTrip` | src/lib/appointmentStore.ts:100-135 | if the backend echoes the ten inserted columns, the returned appointment carries the draft's barber, customer, service, schedule, status, email and price. A nonzero duration is kept, a zero duration comes back as 60, and notes are dropped |
| `Appointments.ListingIdempotent` | src/lib/appointmentStore.ts:33-49 | a listed appointment stored again as a row lists as itself: the defaults are a fixed point |
| `CustomerInfo.MatchesClassPlusAll` | src/lib/validations/booking.ts:7 | a `^[C]+$` pattern matches exactly the non-empty strings whose every character is in class C |
| `CustomerInfo.NameRule` | src/lib/validations/booking.ts:5-7 | a name passes exactly when its length is 2..50 (inclusive) and every character is an ASCII letter or whitespace |
| `CustomerInfo.PhoneRule` | src/lib/validations/booking.ts:9-10 | a phone passes exactly when it has at least 10 characters and each is a digit, '+', whitespace, '(', ')' or '-' |
| `CustomerInfo.EmailRule` | src/lib/validations/booking.ts:11-14 | an absent or '' email passes whatever the format check says; any other passes exactly when the format check does |
| `CustomerInfo.AcceptsIff` | src/lib/validations/booking.ts:3-15 | the form is accepted exactly when the three field rules all hold |
| `CustomerInfo.FieldsIndependent` | src/lib/validations/booking.ts:3-15 | no cross-field rules: the issues reported for each field are exactly that field's own |
| `CustomerInfo.NameAcceptedExample` | src/lib/validations/booking.ts:5-7 | "John Smith" passes |
| `CustomerInfo.NameRejectedExample` | src/lib/validations/booking.ts:7 | "John3" fails the letters rule only |
| `CustomerInfo.NameLengthBoundary` | src/lib/validations/booking.ts:5-6 | a 50-letter name passes; with one more letter it fails the length rule only |
| `CustomerInfo.PhoneAcceptedExample` | src/lib/validations/booking.ts:9-10 | "555-123-4567" passes |
| `CustomerInfo.PhoneRejectedExample` | src/lib/validations/booking.ts:9-10 | "abc" fails both phone rules |
| `CustomerInfo.PhonePunctuationOnly` | src/lib/validations/booking.ts:9-10 | the length rule counts characters, not digits: "(+) - ()-+" passes |

## Left out

- All database access is left out: the selects, the insert, the `.eq`/`.in`/`.order` filters and ordering, and `.single`. The rows they return are inputs. The status filter `{pending, confirmed}` and the barber and date filters are applied before the modelled computation.
- The "log and return `[]` / `null`" error branches are left out. They only handle a failed network call.
- `src/lib/galleryStore.ts` and `src/lib/unavailabilityStore.ts` are not part of this model. They pass rows through to the database, and their only logic is null-coalescing.
- zod's `.email()` format check is library code. It is the parameter `isEmail`, so there is no proof that "not-an-email" is rejected. `CustomerInfo.EmailRule` states that the verdict is the check's own.
- Error-message strings are left out. Issues are modelled by rule, not by message. The name rule's message says "less than 50 characters", but `.max(50)` admits exactly 50, and the model follows the rule.
- Durations are integers. JavaScript numbers can also be fractional or `NaN`: `NaN || 60` is 60, and a fractional duration is rounded up by `Math.ceil`. The model does not cover either case. A null `time` column is not modelled either; `indexOf` would return -1 for it, like any unknown label.
- String lengths count Unicode scalar values, while zod counts UTF-16 code units. The two differ only on characters outside the Basic Multilingual Plane. Neither pattern admits such characters, so the accepted/rejected verdict is unchanged. The list of failed length checks can differ.
- `Appointments.CreateRoundTrip`: when the draft has no duration, the inserted object's `duration` property is undefined. Whether the column then holds its default or NULL is up to the database client, so the lemma says nothing about the read-back duration in that case.
- Asynchrony is left out. Each operation is modelled as one pure step.
