# Appointment scheduler: a verified model of its booking and customer rules

The appointment scheduler is a JavaFX desktop application. It books
appointments for customers and keeps a customer table. Behind its screens sit
two groups of plain, sequential rules, and this project models both in Dafny
and proves properties of them.

- **Scheduling.**
  - The business-hours window. The most recent 08:00 in New York is found by
    stepping back hour by hour and then minute by minute; the window ends 14
    hours later.
  - The end-date rollover, and turning the caller's date and times into
    instants.
  - The window checks. The add screen also has an end-before-start check,
    which the modify screen does not.
  - The overlap test `isBetween`, and the filter that collects conflicting
    appointments of the same customer.
  - The list of appointments shown as reminders at login.
  - The "largest id plus one" rule for new rows.
  - The `Appointment` record with its setters.
- **Customers.**
  - The address, postal-code and phone validators. Each is a set of regular
    expressions, written here as hand-made matchers.
  - The per-country address rule.
  - The add and modify save rules. On the modify screen an unchanged value
    always passes, and accepted fields are written at once.
  - The list of customers who have appointments, and the delete guard built
    on it.

Conventions:

- An instant is a whole number of minutes since 1970-01-01T00:00Z.
- The business zone is New York at its standard offset, UTC-5.
- Dates picked on screen are day numbers in the caller's zone. The caller's
  offset is a parameter.
- "Now" is a parameter. For the login reminder it is the minute the clock
  reading lies in plus whether the reading is past that minute's first
  instant. Starts and ends are whole minutes, so that is all a comparison
  with them can see.
- Database reads become sequence parameters. Database writes become returned
  values: `Insert`/`Update` for appointments, the created `Customer` or the
  `CustomerUpdate` for customers, `Deleted(id)` for a delete.

Modules, in dependency order:

| module | file | what it holds |
|---|---|---|
| `Wrappers` | wrappers.dfy | `Option` |
| `Text` | text.dfy | `toUpperCase`, `String.replace` (delete every occurrence), `trim`, and the leftmost-match search for the unanchored digit patterns |
| `Seqs` | seqs.dfy | filtering into a new list; collecting values without repeats |
| `Ids` | ids.dfy | largest id plus one, with Java `int` wrap-around |
| `BusinessTime` | business_time.dfy | business-zone wall clock, `setBusinessTimes`, end-date rollover, instants, day of year |
| `Appointments` | appointment.dfy | the `Appointment` record and its setters |
| `Overlap` | overlap.dfy | `isBetween` and `isAppointmentOverlapping` |
| `Alerts` | alerts.dfy | `getExpiringAppointments` |
| `Scheduling` | scheduling.dfy | the `saveAppointment` decisions of both appointment screens |
| `Address` | address.dfy | `addressCheck` and `fieldCheck` |
| `PostalCode` | postal_code.dfy | `postalCodeChecker` |
| `Phone` | phone.dfy | `phoneNumberCheck` |
| `Customers` | customers.dfy | `customerAddressCheck`, both customer `saveCustomer` rules, the new customer id, the appointment list and `deleteCustomer` |

Where the code and its documentation disagree, the model follows the code.
The cases are:

- `isBetween` is documented as an overlap test, but it is not an interval
  intersection. A candidate that starts before an existing appointment and
  ends inside it is not reported (`Overlap.IsBetweenMissesOverlapFromBefore`,
  `Scheduling.OverlapFromBeforeIsMissed`). From a later or equal start it
  does agree with the closed-interval intersection.
- Appointments on the same day of the year in different years are compared
  with each other (`Scheduling.DayOfYearIgnoresYear`).
- Both U.K. phone examples in the validator's documentation are rejected by
  its code (`Phone.DocumentedBritishExamplesRejected`). An 11-digit national
  number is accepted (`Phone.LondonExample`).
- The leftover checks delete every occurrence of the first match. So a postal
  code repeated several times passes (`PostalCode.RepeatedZipAccepted`), and
  so does a North American number made of one 10-digit block written out
  several times (`Phone.RepeatedBlockAccepted`). Other multiples of ten
  digits fail (`Phone.DifferentBlocksRejected`): the digits must be the first
  block repeated (`Phone.BlockCheck`).
- The customer save is documented as checking the country and division
  choices, but it does not check them.
- The modify screen picks the U.K. error message for the country name
  "United Kingdom". The validators only know "UK", so a British customer
  edited there gets the general message (`Customers.BritishLabelOnlyWhenAdding`).
- The modify screen writes the division the customer already had. A division
  picked on that screen is not saved (`Customers.DivisionChangeIgnored`).

## Model

All source paths are below `src/main/java/com/example/appointment/`; the
table spells them out in full.

| member | source | states |
|---|---|---|
| BusinessTime.WindowOf | src/main/java/com/example/appointment/controller/AddAppointmentController.java:262-271 | the window starts at a business-zone 08:00 that is at or before the given instant and less than a day before it, and ends exactly 14 hours later |
| BusinessTime.WindowStartUnique | src/main/java/com/example/appointment/controller/AddAppointmentController.java:262-271 | any business-zone 08:00 within the day up to an instant is that instant's window start, so the anchor is unique |
| BusinessTime.SetBusinessTimes | src/main/java/com/example/appointment/controller/AddAppointmentController.java:262-271 | the loop that steps back whole hours until the hour reads 8, then single minutes until the minute reads 0, ends on the latest 08:00 at or before the input; the end is 14 hours after that start |
| BusinessTime.SinceOpenShift | src/main/java/com/example/appointment/controller/AddAppointmentController.java:264-269 | moving an instant by d minutes moves its distance from the last opening by d, modulo a day |
| BusinessTime.MinuteOfSinceOpen | src/main/java/com/example/appointment/controller/AddAppointmentController.java:264-269 | the business-zone hour and minute can be read off the distance from the last opening |
| BusinessTime.InOwnWindowIff | src/main/java/com/example/appointment/controller/AddAppointmentController.java:417-426 | a start passes its own window check exactly when its business-zone wall clock reads 08:00 through 22:00, both included |
| BusinessTime.EndDate | src/main/java/com/example/appointment/controller/AddAppointmentController.java:400-405 | the end date is the start date when the end hour is not earlier than the start hour, and the next day otherwise |
| BusinessTime.ToInstantRoundTrip | src/main/java/com/example/appointment/controller/AddAppointmentController.java:407-415 | the instant built from a date, hour and minute at the caller's offset reads back as that same date, hour and minute |
| BusinessTime.EndBeforeStartIff | src/main/java/com/example/appointment/controller/AddAppointmentController.java:400-435 | after the rollover the end is before the start exactly when both times share an hour and the end minute is smaller |
| Appointments.NewAppointment | src/main/java/com/example/appointment/Appointment.java:34-46 | the constructor stores each argument in its own field, in the Java parameter order, and leaves the zone id unset |
| Appointments.SetTitle | src/main/java/com/example/appointment/Appointment.java:66-68 | the title changes and every other field keeps its value |
| Appointments.SetDescription | src/main/java/com/example/appointment/Appointment.java:80-82 | the description changes and every other field keeps its value |
| Appointments.SetLocation | src/main/java/com/example/appointment/Appointment.java:94-96 | the location changes and every other field keeps its value |
| Appointments.SetContactId | src/main/java/com/example/appointment/Appointment.java:108-110 | the contact id changes and every other field keeps its value |
| Appointments.SetKind | src/main/java/com/example/appointment/Appointment.java:122-124 | the type changes and every other field keeps its value |
| Appointments.SetZoneId | src/main/java/com/example/appointment/Appointment.java:146-148 | the zone id is stored but no getter result changes |
| Appointments.SetUserId | src/main/java/com/example/appointment/Appointment.java:160-162 | the user id changes and every other field keeps its value |
| Appointments.SetCustomerId | src/main/java/com/example/appointment/Appointment.java:174-176 | the customer id changes and every other field keeps its value |
| Overlap.IsBetweenFromLaterStart | src/main/java/com/example/appointment/controller/AppointmentOverlappingInterface.java:75-79 | from a start at or after the existing start, `isBetween` holds exactly when the candidate starts no later than the existing end or ends no later than it |
| Overlap.IsBetweenFromEarlierStart | src/main/java/com/example/appointment/controller/AppointmentOverlappingInterface.java:80-85 | from an earlier start, `isBetween` holds exactly when the candidate ends at or after the existing end |
| Overlap.IsBetweenClosedBoundaries | src/main/java/com/example/appointment/controller/AppointmentOverlappingInterface.java:75-76 | a candidate starting exactly at the existing start or exactly at its end is reported |
| Overlap.ClosedOverlapIff | src/main/java/com/example/appointment/controller/AppointmentOverlappingInterface.java:74-86 | the closed-interval intersection test used as the reference holds exactly when two well-formed intervals share an instant |
| Overlap.IsBetweenMatchesIntersectionFromLaterStart | src/main/java/com/example/appointment/controller/AppointmentOverlappingInterface.java:75-78 | for a well-formed candidate starting at or after the existing start, `isBetween` equals the closed-interval intersection test |
| Overlap.IsBetweenMissesOverlapFromBefore | src/main/java/com/example/appointment/controller/AppointmentOverlappingInterface.java:80-85 | a candidate starting before the existing appointment and ending inside it shares instants with it, yet is not reported |
| Overlap.FindOverlaps | src/main/java/com/example/appointment/controller/AppointmentOverlappingInterface.java:57-71 | the result holds only appointments of the customer that are not the edited one, start on the same day of the year and pass `isBetween`; every stored appointment that meets all four is in it |
| Overlap.IsAppointmentOverlapping | src/main/java/com/example/appointment/controller/AppointmentOverlappingInterface.java:56-72 | the loop builds exactly the filtered list, and an empty table gives an empty list |
| Overlap.FindOverlapsConcat | src/main/java/com/example/appointment/controller/AppointmentOverlappingInterface.java:62-70 | the result over two lists joined is the two results joined, so the input order is kept |
| Overlap.EditNeverConflictsWithItself | src/main/java/com/example/appointment/controller/AppointmentOverlappingInterface.java:63 | the appointment being edited is never reported against itself |
| Overlap.OtherDayNeverReported | src/main/java/com/example/appointment/controller/AppointmentOverlappingInterface.java:64 | an appointment on another day of the year is never reported |
| Alerts.ExpiringAppointments | src/main/java/com/example/appointment/controller/AppointmentAlertsInterface.java:66-75 | an input appointment is listed exactly when it starts strictly within 15 minutes of the clock reading or is under way at it; on a whole minute m that is a start from m-14 to m+14 or start < m < end, and past m's first instant also a start at m+15 or at m itself with a later end |
| Alerts.ExpiringCounts | src/main/java/com/example/appointment/controller/AppointmentAlertsInterface.java:67-74 | a selected appointment is listed as often as it occurs in the input, and an unselected one never |
| Alerts.ExpiringConcat | src/main/java/com/example/appointment/controller/AppointmentAlertsInterface.java:68-73 | the list for two inputs joined is the two lists joined, so the input order is kept |
| Alerts.ExpiringBoundsStrict | src/main/java/com/example/appointment/controller/AppointmentAlertsInterface.java:69 | on a whole minute a start exactly 15 minutes ahead is not listed, and at any reading a start exactly 15 minutes back that has ended is not listed |
| Alerts.QuarterAheadListedMidMinute | src/main/java/com/example/appointment/controller/AppointmentAlertsInterface.java:69 | a start exactly 15 minutes ahead of minute m is listed when the clock is past m's first instant and not when it reads m exactly |
| Alerts.InProgressListed | src/main/java/com/example/appointment/controller/AppointmentAlertsInterface.java:70 | an appointment under way at the reading, however long ago it started, is listed |
| Alerts.FinishedNotListed | src/main/java/com/example/appointment/controller/AppointmentAlertsInterface.java:69-70 | an appointment that has ended and started at least 15 minutes ago is not listed |
| Ids.Max | src/main/java/com/example/appointment/controller/AddAppointmentController.java:128-130 | the first element after sorting and reversing is a stored id that no other stored id exceeds |
| Ids.Wrap | src/main/java/com/example/appointment/controller/AddAppointmentController.java:130 | the result of the `int` addition is always a 32-bit value, and equals the exact sum whenever that sum fits |
| Ids.NextId | src/main/java/com/example/appointment/controller/AddAppointmentController.java:125-130 | an empty table gives no id; otherwise the id is the largest stored id plus one in 32-bit arithmetic |
| Ids.NextIdFresh | src/main/java/com/example/appointment/controller/AddAppointmentController.java:128-130 | below the top of the `int` range the new id is larger than, and so differs from, every stored id |
| Ids.NextIdWraps | src/main/java/com/example/appointment/controller/AddAppointmentController.java:130 | when the largest id is `Integer.MAX_VALUE` the new id wraps to `Integer.MIN_VALUE` |
| Ids.AllocateId | src/main/java/com/example/appointment/controller/AddAppointmentController.java:113-130 | an id already held is kept; otherwise one is produced exactly when the table is not empty, as the largest id plus one with wrap-around, and below the top of the `int` range it exceeds every stored id |
| Ids.AllocateIdStable | src/main/java/com/example/appointment/controller/AddAppointmentController.java:113-114 | an id once allocated is kept by every later call, whatever the table then holds |
| Scheduling.TextErrors | src/main/java/com/example/appointment/controller/AddAppointmentController.java:325-355 | each of title, description, location and type is flagged exactly when it is empty |
| Scheduling.SelectionErrors | src/main/java/com/example/appointment/controller/AddAppointmentController.java:357-380 | each of user, contact and customer is flagged exactly when nothing is selected |
| Scheduling.TimingErrors | src/main/java/com/example/appointment/controller/AddAppointmentController.java:417-454 | the start is flagged exactly when it is outside 08:00-22:00; the end exactly when it is outside the start's window; end-before-start only on the add screen; conflicts are looked up, and reported with their list, only when the end passed |
| Scheduling.SaveNewAppointment | src/main/java/com/example/appointment/controller/AddAppointmentController.java:311-469 | an INSERT is issued exactly when every text, selection, window, order and overlap check passes; it carries the form's values, the allocated id and the computed instants, and conflicts with no stored appointment |
| Scheduling.SaveModifiedAppointment | src/main/java/com/example/appointment/controller/ModifyAppointmentController.java:194-343 | an UPDATE is issued exactly when the text, parse, window and overlap checks pass, with no order check; it targets the selected appointment's id and excludes that appointment from the overlap search |
| Scheduling.EndBeforeStartOnlyRejectedWhenAdding | src/main/java/com/example/appointment/controller/ModifyAppointmentController.java:296-319 | an end a few minutes before the start in the same hour is refused when adding but saved when modifying |
| Scheduling.SameWindow | src/main/java/com/example/appointment/controller/ModifyAppointmentController.java:296-317 | an end less than an hour before a start, both within business hours, lies in the start's window |
| Scheduling.ScreensAgreeWhenOrdered | src/main/java/com/example/appointment/controller/ModifyAppointmentController.java:194-343 | for forms whose end is not before their start, both screens accept the same forms and build the same appointment |
| Scheduling.MorningBookingSaved | src/main/java/com/example/appointment/controller/AddAppointmentController.java:400-469 | a New York caller booking 09:00-10:00 on an empty table gets an INSERT of exactly those instants |
| Scheduling.OverlapFromAfterIsReported | src/main/java/com/example/appointment/controller/AddAppointmentController.java:450-454 | booking 10:30-11:30 next to the customer's 10:00-11:00 appointment is refused with that appointment listed |
| Scheduling.OverlapFromBeforeIsMissed | src/main/java/com/example/appointment/controller/AppointmentOverlappingInterface.java:80-85 | booking 09:30-10:30 next to the customer's 10:00-11:00 appointment is saved |
| Scheduling.LateEveningAbroadRollsOver | src/main/java/com/example/appointment/controller/AddAppointmentController.java:400-415 | a caller at UTC+9 picking 23:00 to 01:00 gets an end on the next day, a two-hour appointment starting at 09:00 in New York |
| Scheduling.DayOfYearIgnoresYear | src/main/java/com/example/appointment/controller/AppointmentOverlappingInterface.java:64 | 2023-06-02 and 2024-06-01 both have day of year 153 |
| Address.StreetNumberLength | src/main/java/com/example/appointment/controller/AddressCheckInterface.java:39-43 | the street number found is a prefix of the leading non-space run, at least two characters long and ending in a digit, and no longer such prefix exists; none is found only when no prefix has that shape |
| Address.FieldCheck | src/main/java/com/example/appointment/controller/AddressCheckInterface.java:68-88 | the result is -1 exactly when the text ends with a comma, and otherwise the number of non-empty comma-separated segments |
| Address.FieldCheckScan | src/main/java/com/example/appointment/controller/AddressCheckInterface.java:68-88 | the `Matcher.find` loop over `[^,]*`, counting non-empty matches and checking what follows the last one, computes `FieldCheck` |
| Address.AddressCheck | src/main/java/com/example/appointment/controller/AddressCheckInterface.java:36-58 | an address passes exactly when it has a street number and the trimmed rest does not end in a comma and has the required number of fields; an empty address never passes |
| Address.FieldCountSplit | src/main/java/com/example/appointment/controller/AddressCheckInterface.java:72-80 | the field count of two parts joined by a comma is the sum of their counts |
| Address.RepeatedCommaAddsNothing | src/main/java/com/example/appointment/controller/AddressCheckInterface.java:75-80 | doubling a comma does not change the field count |
| Address.TwoFieldExample | src/main/java/com/example/appointment/controller/AddressCheckInterface.java:15-19 | "123 ABC Street, White Plains" has two fields, not three |
| Address.ThreeFieldExample | src/main/java/com/example/appointment/controller/AddressCheckInterface.java:15-19 | "123 ABC Street, Greenwich, London" has three fields |
| Address.SingleDigitNumberRejected | src/main/java/com/example/appointment/controller/AddressCheckInterface.java:39-48 | a one-digit street number is not matched, so "1 Main St, X" fails |
| Address.TrailingCommaRejected | src/main/java/com/example/appointment/controller/AddressCheckInterface.java:81-85 | any address ending in a comma fails, whatever field count is asked for |
| PostalCode.MatchShape | src/main/java/com/example/appointment/controller/PostalCodeCheckInterface.java:60-83 | the anchored Canadian or British pattern matches a prefix of 6 to 8 characters of the required shape, and fails exactly when no group length fits |
| PostalCode.PostalCodeCheck | src/main/java/com/example/appointment/controller/PostalCodeCheckInterface.java:37-93 | an empty code or an unknown country fails; otherwise the code passes exactly when its upper-cased form is the country's first match repeated |
| PostalCode.CaseNeverMatters | src/main/java/com/example/appointment/controller/PostalCodeCheckInterface.java:41 | a code and its upper-cased form get the same answer |
| PostalCode.SingleMatchAccepted | src/main/java/com/example/appointment/controller/PostalCodeCheckInterface.java:88-92 | a code that is exactly one match passes |
| PostalCode.ZipExamples | src/main/java/com/example/appointment/controller/PostalCodeCheckInterface.java:47-59 | "12345" and "12345-1234" pass as U.S. codes |
| PostalCode.TenDigitsRejected | src/main/java/com/example/appointment/controller/PostalCodeCheckInterface.java:48-58 | a ten-character U.S. code must be ZIP+4, so "1234567890" fails |
| PostalCode.ExtraCharacterRejected | src/main/java/com/example/appointment/controller/PostalCodeCheckInterface.java:88-92 | "12345$" fails: the dollar sign is left over |
| PostalCode.RepeatedZipAccepted | src/main/java/com/example/appointment/controller/PostalCodeCheckInterface.java:88-92 | "123451234512345" passes, because every copy of the match is deleted |
| PostalCode.CanadianExample | src/main/java/com/example/appointment/controller/PostalCodeCheckInterface.java:60-71 | "A1A 1A1" passes as a Canadian code |
| PostalCode.CanadianLowerCaseExample | src/main/java/com/example/appointment/controller/PostalCodeCheckInterface.java:41 | "a1a 1a1" passes as a Canadian code too |
| PostalCode.BritishExample | src/main/java/com/example/appointment/controller/PostalCodeCheckInterface.java:72-83 | "SW1A 1AA" passes as a British code |
| PostalCode.CanadaRefusesLeadingW | src/main/java/com/example/appointment/controller/PostalCodeCheckInterface.java:60-83 | "W1A 1A1" fails in Canada, which bans a leading W, and passes in the U.K. |
| Phone.StripSeparators | src/main/java/com/example/appointment/controller/PhoneNumberCheckInterface.java:45-50 | the stripped number is the input with every occurrence of some of the separators '-' and ' ' deleted |
| Phone.StripLoop | src/main/java/com/example/appointment/controller/PhoneNumberCheckInterface.java:45-50 | the loop that looks at every third index of the shrinking string computes `StripSeparators` and adds no character |
| Phone.SeparatorsSkipped | src/main/java/com/example/appointment/controller/PhoneNumberCheckInterface.java:45-50 | a separator never found at a visited index survives the loop |
| Phone.DashedNumberStripped | src/main/java/com/example/appointment/controller/PhoneNumberCheckInterface.java:45-50 | a 3-3-4 number with dashes comes out as its ten digits |
| Phone.RemoveSpacesLoop | src/main/java/com/example/appointment/controller/PhoneNumberCheckInterface.java:82-86 | the U.K. loop deletes every space and nothing else |
| Phone.BritishDigits | src/main/java/com/example/appointment/controller/PhoneNumberCheckInterface.java:76-86 | the digits looked at are the number with every "+44" deleted when it starts with "+44", and then every space deleted; such a number needs 9-digit blocks, any other 11-digit blocks |
| Phone.BlockCheck | src/main/java/com/example/appointment/controller/PhoneNumberCheckInterface.java:52-72 | the digits pass exactly when a block of n digits is found and the digits are that first block written out one or more times; so a pass is a non-empty all-digit string whose length is a multiple of n, and exactly one block always passes |
| Phone.PhoneNumberCheck | src/main/java/com/example/appointment/controller/PhoneNumberCheckInterface.java:37-109 | an empty number or an unknown country fails; a North American number passes exactly when its stripped digits are their first ten-digit block repeated, a British one exactly when its digits are their first block of the country length repeated |
| Phone.ElevenToNineteenDigitsRejected | src/main/java/com/example/appointment/controller/PhoneNumberCheckInterface.java:52-72 | a North American number with 11 to 19 characters after stripping fails |
| Phone.RepeatedBlockAccepted | src/main/java/com/example/appointment/controller/PhoneNumberCheckInterface.java:52-72 | one ten-digit block written out any number of times passes as a U.S. or Canadian number |
| Phone.DifferentBlocksRejected | src/main/java/com/example/appointment/controller/PhoneNumberCheckInterface.java:52-72 | "12345678901234567891", twenty digits that are not one block twice, fails |
| Phone.TenDigitsAccepted | src/main/java/com/example/appointment/controller/PhoneNumberCheckInterface.java:52-72 | a North American number that strips to exactly ten digits passes |
| Phone.DallasExample | src/main/java/com/example/appointment/controller/PhoneNumberCheckInterface.java:15 | "817-555-5555" passes as a U.S. number |
| Phone.TorontoExample | src/main/java/com/example/appointment/controller/PhoneNumberCheckInterface.java:17 | "416-555-5555" passes as a Canadian number |
| Phone.MisplacedDashesRejected | src/main/java/com/example/appointment/controller/PhoneNumberCheckInterface.java:45-72 | "8175-55-5555" fails: no dash sits at a visited index, so both survive |
| Phone.LondonExample | src/main/java/com/example/appointment/controller/PhoneNumberCheckInterface.java:76-106 | "020 7183 8750", eleven digits, passes as a British number |
| Phone.DocumentedBritishExamplesRejected | src/main/java/com/example/appointment/controller/PhoneNumberCheckInterface.java:19 | the documented "020 7183 87500" and "+442071838750" both fail |
| Text.ReplaceAllEmptyIff | src/main/java/com/example/appointment/controller/PostalCodeCheckInterface.java:88-89 | deleting every occurrence of a non-empty match leaves nothing exactly when the text is that match repeated |
| Text.RemoveCharsMembers | src/main/java/com/example/appointment/controller/PhoneNumberCheckInterface.java:47 | after deleting a set of characters, exactly the input's other characters remain |
| Text.FindWindow | src/main/java/com/example/appointment/controller/PhoneNumberCheckInterface.java:53-56 | the match found is the leftmost place the digit pattern fits, and none is found only when it fits nowhere |
| Text.Trim | src/main/java/com/example/appointment/controller/AddressCheckInterface.java:44 | the trimmed text is the input with its leading characters at or below U+0020 cut and then only such characters cut from the end; it neither starts nor ends with one |
| Text.ToUpperIdempotent | src/main/java/com/example/appointment/controller/PostalCodeCheckInterface.java:41 | upper-casing twice is upper-casing once |
| Seqs.Filter | src/main/java/com/example/appointment/controller/AppointmentAlertsInterface.java:67-74 | the kept list holds exactly the input elements that pass the test, and is no longer than the input |
| Seqs.Distinct | src/main/java/com/example/appointment/controller/ViewCustomersController.java:78-82 | the collected list has no repeats, holds exactly the input's values, and keeps them in order of first appearance |
| Customers.AddressFieldsFor | src/main/java/com/example/appointment/controller/AddCustomerController.java:198-206 | two fields are required exactly for "U.S" and "Canada", three for any other country |
| Customers.CustomerAddressCheck | src/main/java/com/example/appointment/controller/AddCustomerController.java:196-209 | an empty address fails; otherwise the address check runs with the country's field count |
| Customers.AddressCountriesExclusive | src/main/java/com/example/appointment/controller/AddCustomerController.java:196-209 | no address passes both for a North American country and for any other |
| Customers.LabelFor | src/main/java/com/example/appointment/controller/ModifyCustomerController.java:173-222 | the name error is always the general message; the Canadian message is shown for "Canada"; the British one for "UK" on the add screen but only for "United Kingdom" on the modify screen |
| Customers.BritishLabelOnlyWhenAdding | src/main/java/com/example/appointment/controller/ModifyCustomerController.java:177 | a "UK" customer gets the British message when added and the general message when modified |
| Customers.Flags | src/main/java/com/example/appointment/controller/AddCustomerController.java:258-325 | each of the four fields is flagged exactly when its check failed, independently of the others, with its screen's message; nothing is flagged exactly when all four passed |
| Customers.AddFlags | src/main/java/com/example/appointment/controller/AddCustomerController.java:260-321 | on the add screen each field is flagged exactly when its validator refuses it |
| Customers.SaveNewCustomer | src/main/java/com/example/appointment/controller/AddCustomerController.java:253-332 | a customer is created exactly when the name is filled in and postal code, address and phone all pass; it carries the form's values and allocated id, one instant for creation and last update, and one user name for both |
| Customers.NewCustomerId | src/main/java/com/example/appointment/controller/AddCustomerController.java:102-125 | an id already held is kept; otherwise one exists exactly when the table is not empty, it is the largest stored customer id plus one in 32-bit arithmetic, and below the top of the `int` range it differs from every stored customer id |
| Customers.SaveModifiedCustomer | src/main/java/com/example/appointment/controller/ModifyCustomerController.java:161-263 | each field is accepted when it passes its check or equals the stored value, and is then written into the customer at once; refused fields keep the old value; id, division and creation data never change; an UPDATE of the form's values with the old division, for the customer's id, is issued exactly when nothing was flagged |
| Customers.UnchangedValuesPass | src/main/java/com/example/appointment/controller/ModifyCustomerController.java:170-206 | with the name filled in, leaving postal code, address and phone unchanged always lets the update through, even when the stored values would now fail |
| Customers.AddAcceptedThenModifyAccepted | src/main/java/com/example/appointment/controller/ModifyCustomerController.java:164-228 | a form the add screen would accept is accepted by the modify screen for any customer |
| Customers.DivisionChangeIgnored | src/main/java/com/example/appointment/controller/ModifyCustomerController.java:249-250 | the UPDATE writes the customer's existing division and targets the customer's own id |
| Customers.SaveAgainIsStable | src/main/java/com/example/appointment/controller/ModifyCustomerController.java:165-206 | saving the same form a second time leaves the customer as the first save left it and flags the same fields |
| Customers.CustomerIdsWithAppointments | src/main/java/com/example/appointment/controller/ViewCustomersController.java:71-87 | the list holds each customer id that occurs in an appointment exactly once, nothing else, in order of first appearance |
| Customers.CollectCustomerIds | src/main/java/com/example/appointment/controller/ViewCustomersController.java:78-82 | the loop that appends an id only when it is not yet listed builds exactly that list |
| Customers.DeleteCustomer | src/main/java/com/example/appointment/controller/ViewCustomersController.java:244-255 | a delete is issued exactly when the customer is not on the list, and then for that customer's id |
| Customers.DeleteOnlyWithoutAppointments | src/main/java/com/example/appointment/controller/ViewCustomersController.java:71-87 | with the list built from the stored appointments, a customer is deleted exactly when none of the appointments is theirs |

## Left out

- User interface: spinners, combo boxes, error-label listeners, alerts, the
  overlap alert's text and the screens' navigation are not modelled. Where a
  screen only reports something, the model returns what is reported.
- Database access is not modelled: connections, the SQL strings, and rows
  read or written. Stored rows are sequence parameters, and writes are
  returned values.
- The reports screens and the login screen are outside the two rule sets
  modelled here.
- Alerts.ExpiringAppointments: the code reads the clock anew in each of
  its comparisons; the model takes the four reads as one reading, so a
  minute boundary passed between two reads is not modelled.
- Time zones: both the business zone and the caller's zone are fixed
  offsets, with no daylight-saving changes. The caller's offset "at now" is
  a parameter.
- A `null` country, division or minute spinner makes the Java code throw.
  This is not modelled: the country is a plain string, the division an
  integer, and the minutes are always set.
- The new customer's division is taken from the form as given; an unselected
  division, which makes the constructor throw, is not modelled.
- `Scheduling.SaveNewAppointment` takes the new id as a parameter. The empty
  table that makes `get(0)` throw is modelled only in `Ids.NextId`, which
  returns no id for it.
- SQL and I/O exceptions during a save, and the retry paths around them,
  are not modelled.
- `Long.valueOf` on a matched digit block always succeeds, so that step of
  the phone check is not modelled separately.
- Upper-casing covers the ASCII letters only. Locale-specific case mapping
  is not modelled.
- Phone.BlockCheck: proved only for the three block lengths the code uses
  (9, 10 and 11), not for an arbitrary length.
- BusinessTime.SetBusinessTimes: the contract does not state the step
  counts of the two loops (at most 23 hour steps and 59 minute steps). They
  follow from the start lying less than a day before the input.
- The appointment getters are the datatype's fields and carry no contracts
  of their own.
