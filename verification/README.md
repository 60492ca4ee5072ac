# Clinic booking: account lifecycle and appointment selection, in Dafny

This project models two pieces of a small clinic appointment-booking system
and proves properties of them.

- **Account lifecycle** (`backend/server.js`, module `Accounts`).
  - The `users` table is a class `UserTable` holding a sequence of records
    `{id, email, passwordHash, name, verified, admin, token}` and the next id
    of the table's id sequence.
  - Registration (`Register`) and e-mail verification (`Verify`) are methods
    that append to or update that sequence.
  - Login (`Login`), the bearer-token guard (`Authenticate`) and the profile
    endpoint (`CurrentUser`) are pure decision functions over the records.
  - bcrypt, `crypto.randomBytes` and the JWT library are parameters:
    - a hash function `hash` and a comparison `compare`;
    - the five random bytes drawn;
    - a `sign`/`decode` pair, with the current time in seconds.
- **Appointment-selection store** (`frontend/src/stores/appointments.js`,
  module `Appointments`).
  - A class `AppointmentsStore` holds the store's refs: the edited
    appointment's id, the selected services, date, time, the day's taken slots
    and the hour labels.
  - A class `UserStore` holds the part of the user store that
    `cancelAppointment` rewrites.
  - The computed values are pure functions over those fields.
- **JavaScript built-ins the handlers rely on**, each stated once:
  - `Seqs`: `filter`, `find`, `some`, and the first row a query returns;
  - `JsStrings`: `trim`, `length` in UTF-16 code units, and `replace` with a
    string pattern, which removes only the first occurrence;
  - `Hex`: `toString("hex")`.

Main results:

- Register's rejections run in a fixed order: missing field, duplicate email,
  short trimmed password. Each rejection leaves the table unchanged. On
  success, exactly one unverified, non-admin record is appended. It holds the
  hash of the untrimmed password and a 10-character lower-case hex token. The
  reply is 201 whether or not the e-mail went out.
- The table invariant holds after every method: ids and emails are unique,
  and a record holds a token exactly while it is unconfirmed.
- Verify confirms the first record holding the token and changes no other
  record. Each redemption takes the token from exactly one holder.
- Login succeeds exactly for a confirmed account whose password matches. For
  an unconfirmed account the password check is never consulted.
- A session token sent back as `Bearer <token>` within the hour yields that
  account's profile. From the hour on it is refused with 403.
- The hour labels are exactly "10:00" … "19:00", in ascending order.
- The service toggle keeps at most one service selected, and toggling twice
  from empty gives empty again.
- `totalAmount`, written as a left fold, equals the sum of the prices.
- Save, clear and cancel change exactly the state they should.

## Model

| member | source | states |
|---|---|---|
| `Accounts.UserTable.Register` | backend/server.js:56-110 | missing email, password or name gives 400 and no change; a duplicate email gives "already registered" before the password is looked at; a trimmed password under 8 UTF-16 units gives 400 and no change; otherwise exactly one record (fresh id, given email and name, hash of the untrimmed password, unverified, not admin, hex token of 10 digits) is appended and 201 returned whatever the mail outcome; the table invariant is kept |
| `Accounts.UserTable.Verify` | backend/server.js:112-139 | a token no record holds gives 401 and no change; otherwise the first holder is confirmed with its token cleared, no other record changes, 200; the table invariant is kept |
| `Accounts.ConfirmById` | backend/server.js:129-132 | the update by id confirms and clears the token of every record with that id and leaves the others as they were |
| `Accounts.ConfirmByIdIsUpdate` | backend/server.js:126-132 | with unique ids the update by id changes exactly the one record found |
| `Accounts.ConfirmKeepsInvariant` | backend/server.js:129-132 | confirming a record keeps ids and emails unique, ids below the sequence, and "holds a token iff unconfirmed" |
| `Accounts.AppendKeepsInvariant` | backend/server.js:94-98 | appending a record with a fresh id and an unused email, holding a token while unconfirmed, keeps the table invariant |
| `Accounts.RedeemConsumesOneHolder` | backend/server.js:117-132 | redeeming a non-empty token lowers the number of records holding it by exactly one |
| `Accounts.SecondRedemptionFails` | backend/server.js:117-124 | a token held by one record cannot be redeemed a second time |
| `Accounts.Login` | backend/server.js:141-184 | checks run in the order missing fields (400), unknown email (401), unconfirmed (401), wrong password (401); success returns only a token signed over the first matching record's id, issued now; every failure is 400 or 401 |
| `Accounts.LoginSucceedsExactly` | backend/server.js:153-184 | login succeeds iff the first record with that email is confirmed and the password matches its hash |
| `Accounts.LoginIgnoresPasswordOfUnconfirmed` | backend/server.js:161-174 | for an unconfirmed account the answer is 401 "not confirmed" whatever the password and whatever the password check would say |
| `Accounts.Issue` | backend/server.js:177-179 | the session claims carry the record's id, are issued at the current time and expire 3600 seconds later |
| `Accounts.JwtVerify` | backend/server.js:201-204 | a token is accepted iff its signature decodes and its expiry is after now, and then its decoded claims are passed on |
| `Accounts.Authenticate` | backend/server.js:194-210 | the token is the header with its first "Bearer " removed; no header or an empty token gives 401, a refused token 403, and a token the JWT check accepts is granted with its verified claims |
| `Accounts.Project` | backend/server.js:227-235 | the profile is the record's id, name, email and admin flag, nothing else |
| `Accounts.CurrentUser` | backend/server.js:213-242 | a refusal of the guard is passed on with its own status (401 or 403); a granted request gets the profile when a record has the authenticated user id, and a profile is only ever that of such a record; 404 iff authentication passed and no record has that id |
| `Accounts.SessionRoundTrip` | backend/server.js:177-235 | a login token sent as "Bearer <token>" yields the profile of the account that logged in before the hour is up, and 403 from then on |
| `Accounts.RawTokenPasses` | backend/server.js:195-209 | a header that is the bare token, without "Bearer ", passes the guard with the token's claims, because the prefix is only removed where it occurs |
| `Accounts.BearerSession` | backend/server.js:195-209 | "Bearer " followed by a token whose signature checks passes the guard with its claims until they expire, and is refused with 403 from then on |
| `Accounts.FindByUniqueId` | backend/server.js:218-227 | with unique ids, the lookup by id returns the record with that id |
| `Accounts.RegisterVerifyLogin` | backend/server.js:56-242 | register gives 201, login before verification 401 "not confirmed", redeeming the emailed token 200, login then a token, and that token the profile with admin false |
| `JsStrings.TrimStart` | backend/server.js:81 | the result is a suffix of the input, everything cut is white space, and it does not start with white space |
| `JsStrings.TrimEnd` | backend/server.js:81 | the result is a prefix of the input, everything cut is white space, and it does not end with white space |
| `JsStrings.TrimOf` | backend/server.js:81 | trim of white space, a core neither starting nor ending with white space, and white space, is that core |
| `JsStrings.Trim` | backend/server.js:81 | the input is the result with a run of white space on each side, and the result neither starts nor ends with white space |
| `JsStrings.TrimIdempotent` | backend/server.js:81 | trimming twice is trimming once |
| `JsStrings.Utf16Length` | backend/server.js:81 | the length is the number of characters plus the number of characters outside the Basic Multilingual Plane; it lies between the character count and twice that, equal to it iff no such character occurs |
| `JsStrings.IndexOfFrom` | backend/server.js:195 | the result is the first position at or after the start where the pattern occurs, or none iff it occurs nowhere there |
| `JsStrings.RemoveFirst` | backend/server.js:195 | without an occurrence the string is unchanged; otherwise putting the pattern back at the first occurrence gives the input |
| `JsStrings.RemoveFirstOfPrefixed` | backend/server.js:195 | a header "Bearer " + t yields exactly t |
| `Hex.Encode` | backend/server.js:92 | the encoding has two lower-case hex digits per byte |
| `Hex.DecodeEncode` | backend/server.js:92 | decoding the hex encoding gives the bytes back |
| `Hex.EncodeInjective` | backend/server.js:92 | distinct random bytes give distinct tokens |
| `Seqs.FirstIndex` | backend/server.js:117-126 | the first row a query returns: the index of the first match, or none iff nothing matches |
| `Seqs.Find` | frontend/src/stores/appointments.js:163-169 | `find`: the first matching element of the list (no earlier element matches), or none iff no element matches |
| `Seqs.AnyIsExists` | frontend/src/stores/appointments.js:145-147 | `some` holds iff some element matches |
| `Seqs.Filter` | frontend/src/stores/appointments.js:133-135 | `filter` keeps exactly the accepted elements and never lengthens the list |
| `Seqs.FilterAppend` | frontend/src/stores/appointments.js:133-135 | filtering works piecewise over a concatenation, so kept elements stay in order |
| `Seqs.FilterKeepsAll` | frontend/src/stores/appointments.js:133-135 | a list whose elements are all accepted is left unchanged |
| `Seqs.FilterIdempotent` | frontend/src/stores/appointments.js:133-135 | filtering twice with the same test is filtering once |
| `Seqs.Count` | backend/server.js:117-122 | the number of matching rows is at most the list length, and zero iff nothing matches |
| `Seqs.CountUpdate` | backend/server.js:129-132 | replacing one row changes the count of matches by what the old and new row contribute |
| `Appointments.AppointmentsStore.constructor` | frontend/src/stores/appointments.js:9-14 | every ref starts empty |
| `Appointments.DecimalString` | frontend/src/stores/appointments.js:24 | the decimal rendering of a number is a non-empty string of digits |
| `Appointments.TwoDigitLabel` | frontend/src/stores/appointments.js:24 | an hour from 10 to 19 renders as "1d:00" |
| `Appointments.HourAt` | frontend/src/stores/appointments.js:20-26 | the label the loop pushes at position k is "1k:00" |
| `Appointments.OpeningHours` | frontend/src/stores/appointments.js:20-26 | ten labels, the k-th being the label of hour 10 + k |
| `Appointments.OpeningHoursAreTenToNineteen` | frontend/src/stores/appointments.js:20-26 | the hour list is exactly "10:00", "11:00", … "19:00" |
| `Appointments.OpeningHoursAscending` | frontend/src/stores/appointments.js:20-26 | the hour labels are strictly ascending under string comparison |
| `Appointments.AppointmentsStore.OnMounted` | frontend/src/stores/appointments.js:20-26 | the mount hook appends exactly the opening hours to the list |
| `Appointments.AppointmentsStore.OnDateChanged` | frontend/src/stores/appointments.js:28-44 | the time is reset; an empty date stops there; a failed request ends the watcher with the previous day's list still in place; when editing, the day's list becomes the fetched list minus the edited id and the time the edited appointment's slot, or a TypeError with the time left empty if it is not in the list; otherwise the day's list is the fetched list |
| `Appointments.EditedSlotIsFree` | frontend/src/stores/appointments.js:34-37 | while editing, a slot is disabled iff an appointment other than the edited one holds it |
| `Appointments.AppointmentsStore.SetSelectedAppointment` | frontend/src/stores/appointments.js:46-51 | the services, display date, time and id become those of the chosen appointment |
| `Appointments.AppointmentsStore.OnServiceSelected` | frontend/src/stores/appointments.js:53-69 | the selection becomes the toggle of the old one and stays at one service at most |
| `Appointments.Toggle` | frontend/src/stores/appointments.js:53-69 | a selected id is deselected (exactly the services with another id remain); otherwise a selection of one service is refused unchanged, and any other selection gets the service appended, which then is selected |
| `Appointments.WithoutService` | frontend/src/stores/appointments.js:59-61 | exactly the selected services with another id remain |
| `Appointments.ToggleKeepsAtMostOne` | frontend/src/stores/appointments.js:53-69 | from at most one service, the toggle leaves at most one |
| `Appointments.ToggleTwiceFromEmpty` | frontend/src/stores/appointments.js:53-69 | from empty, one toggle selects the service and a second gives empty again |
| `Appointments.ToggleFlips` | frontend/src/stores/appointments.js:53-69 | with room, a toggle flips whether the service is selected and never selects another id |
| `Appointments.IsServiceSelected` | frontend/src/stores/appointments.js:145-147 | holds iff some selected service has that id |
| `Appointments.NoServicesSelected` | frontend/src/stores/appointments.js:149 | holds iff no id is selected |
| `Appointments.TotalAmount` | frontend/src/stores/appointments.js:151-153 | the left fold of the prices equals their sum, 0 for none |
| `Appointments.ReduceIsSum` | frontend/src/stores/appointments.js:152 | the fold from any start value adds the sum of the prices to it |
| `Appointments.TotalAmountAppend` | frontend/src/stores/appointments.js:151-153 | the total of a split selection is the sum of the parts' totals |
| `Appointments.IsDateSelected` | frontend/src/stores/appointments.js:159-161 | the date counts as selected iff the date string is non-empty (JavaScript truthiness) |
| `Appointments.IsValidReservation` | frontend/src/stores/appointments.js:155-161 | holds iff a service is selected, a date is selected and a time is set |
| `Appointments.DisableTime` | frontend/src/stores/appointments.js:163-169 | holds iff some appointment of the day has that time |
| `Appointments.ServiceIds` | frontend/src/stores/appointments.js:76 | the payload lists the selected services' ids, in order |
| `Appointments.AppointmentRequest` | frontend/src/stores/appointments.js:72-107 | an update of the edited id iff an id is set, a creation otherwise; the payload carries the service ids, the ISO date, the time, the user id, name and e-mail, and the sum of the prices |
| `Appointments.AppointmentsStore.SaveAppointment` | frontend/src/stores/appointments.js:71-115 | sends the request for the state before the call and then clears the store, whatever the outcome of the call |
| `Appointments.AppointmentsStore.ClearAppointmentData` | frontend/src/stores/appointments.js:117-122 | id, services, date and time become empty, the rest is unchanged, and the reservation is no longer valid |
| `Appointments.WithoutAppointment` | frontend/src/stores/appointments.js:133-135 | exactly the appointments with another id remain |
| `Appointments.WithoutAppointmentKeepsOrder` | frontend/src/stores/appointments.js:133-135 | removal works piecewise and drops a single appointment iff its id matches, so the rest keep their order |
| `Appointments.AppointmentsStore.CancelAppointment` | frontend/src/stores/appointments.js:124-143 | on confirmation and a successful deletion the user's list loses exactly the appointments with that id; otherwise it is unchanged |

## Left out

- Express, CORS, `app.listen` and the response plumbing. A reply is a status code with a message tag, a `{token}` body or a profile body.
- Database and bcrypt failures. The 500 replies of every handler are not modelled, because the in-memory table cannot fail.
- The race between the duplicate check and the insert. Each handler runs to completion before the next one starts.
- Row order: a query without an ORDER BY returns the first matching row in table order.
- Request body fields are modelled as absent or a string. Non-string JSON values are not modelled.
- The verify route cannot receive an empty token, so the model does not restrict the token.
- nodemailer and the e-mail body are left out. Register takes the delivery outcome as a parameter that the reply does not depend on.
- bcrypt is a deterministic `hash` parameter plus a `compare` parameter. Salting is not modelled.
- `crypto.randomBytes(5)` becomes five bytes passed to Register.
- JWT signing and signature checking become `sign` and `decode` parameters. Only the expiry check is written out.
- `backend/server.js` has no password-reset endpoints, so none are modelled.
- The paths are `/api/auth/...`, an unknown email at login gives 401, and the profile key is `_id`; the model follows these.
- Vue reactivity is not modelled. Setting `date` does not run the watcher by itself: the caller runs `OnDateChanged` with the list the API returned, or None when the request failed. The asynchronous interleaving of the watcher is not modelled either.
- The toast, the router redirect, `alert` and `confirm` are left out or replaced by parameters: the `confirm` answer and the API outcome are booleans.
- The user store's `getUserAppointments` refresh after saving is not modelled.
- Aliasing is not modelled. `setSelectedAppointment` shares the appointment's services array, and a later `push` would change that array too; the model copies the sequence.
- `convertToISO` and `convertToDDMMYYYY` are function parameters.
- Prices are integers, for example cents, not JavaScript floating-point numbers.
- JsStrings.Utf16Length: a JavaScript string can hold a lone surrogate, which no Dafny `char` can represent; the model's strings are sequences of whole code points.
- `StringLess` compares code points. JavaScript compares UTF-16 code units, which differs only outside the Basic Multilingual Plane, and the hour labels are ASCII.
