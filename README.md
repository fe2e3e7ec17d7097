# Restaurant table reservations: a Dafny model of the booking server

This project models the server-side reservation logic of a restaurant
table-booking web application (Express handlers over two MongoDB
collections, tables and reservations). Customers ask which tables are free
for a day, time slot and party size. They book a table, list their own
bookings and cancel them. Staff list every reservation or one day's, edit
or cancel any reservation, and create and edit tables.

The model's central fact is the booking invariant: at most one confirmed
reservation per (table, day, slot). Customer booking and both kinds of
cancel preserve it. The admin edit does not, and a concrete witness shows
that.

Layout, one module per file:

- `js_values.dfy` (`JsValues`): absent request fields (`Option`) and JavaScript number truthiness.
- `responses.dfy` (`Responses`): the response kinds `Ok`, `BadRequest`, `Forbidden`, `NotFound`, `Conflict`, `ServerError`.
- `decimal.dfy` (`Decimal`): the decimal text of an integer, as a template literal renders a whole number below 10^21 in magnitude, and its inverse.
- `seqs.dfy` (`Seqs`): `Array.prototype.filter`, the ordering a `.sort(...)` gives a query, and binary string comparison.
- `schema.dfy` (`Schema`): the reservation document of `server/models/Reservation.js` and its validation.
- `database.dfy` (`Database`): the table document, a snapshot `Db` of both collections, and the lookups and orderings the handlers use. It also holds the invariants `WellFormed` and `NoDoubleBooking` and the class `Store`, whose two `seq` fields are the collections.
- `bookings.dfy` (`Bookings`): `server/controllers/reservationController.js`.
- `admin.dfy` (`Admin`): `server/controllers/adminController.js`.
- `scenarios.dfy` (`Scenarios`): a client that drives the store through a booking, a conflict, a stranger's cancel, the owner's cancel and its repeat, and two refused bookings.

Modelling conventions:

- A handler that writes is a module-level method that takes the `Store` and modifies it. Its postcondition equates its response and the new collections with a specification function on snapshots, `Step(r, store.State()) == F(old(store.State()), ...)`. The lemmas are stated about `F`.
- A read-only handler is a function of the snapshot `store.State()`. The source handlers here are filter/map/sort queries without loops.
- A day is an integer day key, already normalised by `setHours(0, 0, 0, 0)`. "Today" and the creation time are parameters.
- Document ids are positions in their collection. No handler deletes a document.
- The caller's identity is a parameter. For admin handlers, the caller's role is a parameter too.
- A missing or falsy request field is `None` (or `""` for strings).
- Mongoose's validation on `create`/`save` is `Schema.Validate`. When it refuses a document, the response is `ServerError`, the handler's 500.

Where the intended design and the code differ, the model follows the code:

- The availability query does not check the slot against the enumeration.
- The availability query does not sort its result.
- The by-date listing sorts slot text, not schedule order (see Findings).
- A customer cancel has no admin bypass. Admins cancel through a separate handler that checks neither owner nor status.
- `createTable` rejects only falsy numbers. A negative number or capacity gets through.
- The booking guards do not check the sign of the guest count. A count of 0 is falsy, so the missing-field guard answers 400. A negative count passes the other guards, so unless the slot is held (409), the schema refuses it on create and the response is a 500, not a 400.
- The availability query reads `guests` from the query string, so `"0"` counts as present there. The booking body's `numberOfGuests` is a JSON number, and 0 counts as missing.

## Model

| member | source | states |
|---|---|---|
| Schema.ParseStatus | server/models/Reservation.js:28-32 | status accepts exactly "confirmed" and "cancelled"; the parsed value prints back as the same text |
| Schema.StatusNameRoundTrip | server/models/Reservation.js:28-32 | every stored status reads back as itself |
| Schema.StatusDefaultsToConfirmed | server/models/Reservation.js:31 | a document created without a status is confirmed |
| Schema.TimeSlotsAreNineDistinct | server/models/Reservation.js:18-22 | the slot enumeration has nine distinct entries, from 11:00 AM to 10:00 PM |
| Schema.Validate | server/models/Reservation.js:3-35 | a document is accepted iff user, table, date and slot are present, the slot is enumerated, guests >= 1 and the status (if given) is enumerated; the accepted document carries the given fields, id and createdAt, with default status confirmed |
| Decimal.NatToString | server/controllers/reservationController.js:106 | the rendered number is a non-empty string of digits |
| Decimal.IntToStringRoundTrip | server/controllers/reservationController.js:106 | the text of an integer reads back as that integer, so the text determines the number |
| Seqs.Filter | server/controllers/reservationController.js:39-41 | the filtered list holds exactly the elements that pass, each with its original multiplicity |
| Seqs.Sort | server/controllers/reservationController.js:160 | a query sorted by an ordering is a permutation of the query and is ordered between every earlier and later element |
| Seqs.LexLeqTotal | server/controllers/adminController.js:44 | any two strings are comparable in the string order |
| Seqs.LexLeqTransitive | server/controllers/adminController.js:44 | the string order is transitive |
| Database.FindTable | server/controllers/reservationController.js:87 | findById finds a table iff the id exists, and the found table is the one stored under that id |
| Database.FindReservation | server/controllers/reservationController.js:181 | findById finds a reservation iff the id exists, and the found document is the one stored under that id |
| Database.NewestFirstIsTotalPreorder | server/controllers/reservationController.js:160 | the ordering date descending, then createdAt descending, is total and transitive |
| Database.BySlotTextIsTotalPreorder | server/controllers/adminController.js:44 | sorting by slot text is total and transitive |
| Database.ByTableNumberIsTotalPreorder | server/controllers/adminController.js:141 | sorting by tableNumber is total and transitive |
| Database.SlotTextOrderIsNotScheduleOrder | server/controllers/adminController.js:44 | in text order "10:00 PM" < "11:00 AM" < "2:00 PM", although 10:00 PM is the last slot of the schedule |
| Bookings.ReservedTableIds | server/controllers/reservationController.js:29-36 | a table id is among the reserved ids iff a confirmed reservation holds that table on that day and slot |
| Bookings.TablesOfHeld | server/controllers/reservationController.js:36 | the tables of the confirmed documents at a day and slot are exactly the tables held then |
| Bookings.GetAvailableTables | server/controllers/reservationController.js:9-41 | a missing date, slot or guests gives 400 and nothing else; otherwise a table is offered iff it is stored, active, seats at least the party, and no confirmed reservation holds it then (cancelled ones never block) |
| Bookings.OfferedWhenAvailable | server/controllers/reservationController.js:36-41 | every stored table that is available is in the availability answer |
| Bookings.CapacityMessageNamesCapacity | server/controllers/reservationController.js:103-108 | the capacity refusal's text states the table's actual capacity |
| Bookings.BookTable | server/controllers/reservationController.js:62-133 | a success adds exactly one document (fresh id, caller as user, the request's table, day, slot and guests, confirmed, createdAt = now) and changes nothing else; every refusal changes nothing; the store stays well formed |
| Bookings.BookingGuardOrder | server/controllers/reservationController.js:65-123 | the first failing guard decides: missing field 400, past day 400, unknown table 404, inactive 400, too small 400 naming the capacity, slot held 409 |
| Bookings.BookingSucceedsIff | server/controllers/reservationController.js:65-133 | a booking succeeds iff every guard passes (a day equal to today and a party equal to the capacity pass) and the schema accepts slot and guests |
| Bookings.BookingPreservesNoDoubleBooking | server/controllers/reservationController.js:110-133 | booking keeps at most one confirmed reservation per table, day and slot |
| Bookings.AvailableTableCanBeBooked | server/controllers/reservationController.js:111-133 | a table offered for a day not in the past can be booked for that day, slot and party, and is then offered to no party for that day and slot |
| Bookings.BookedTableIsTaken | server/controllers/reservationController.js:126-133 | after any successful booking its table is not offered for that day and slot |
| Bookings.CancelledDocumentHoldsNothing | server/controllers/reservationController.js:29-33 | adding a cancelled document changes no slot's availability |
| Bookings.CancelFreesTable | server/controllers/reservationController.js:206-207 | booking an offered table and then cancelling that booking makes the table offered again |
| Bookings.GetMyReservations | server/controllers/reservationController.js:158-160 | the listing holds exactly the caller's documents, of either status, newest day first and then newest creation first |
| Bookings.Cancel | server/controllers/reservationController.js:181-214 | unknown id 404; other owner 403, with no admin bypass; already cancelled 400; the cancel succeeds iff the id exists, the caller owns it and it is confirmed, and then only that document's status becomes cancelled |
| Bookings.CancelPreservesNoDoubleBooking | server/controllers/reservationController.js:206-207 | a customer cancel keeps at most one confirmed reservation per table, day and slot |
| Bookings.CreateReservation | server/controllers/reservationController.js:60-151 | the store's response and new collections are those of BookTable; the store stays well formed and keeps the no-double-booking invariant |
| Bookings.CancelReservation | server/controllers/reservationController.js:179-222 | the status is overwritten in place as Cancel specifies; the store keeps both invariants |
| Admin.GetAllReservations | server/controllers/adminController.js:9-12 | for an admin, every document of any user and status, newest day then newest creation first; any other role 403 |
| Admin.GetReservationsByDate | server/controllers/adminController.js:33-44 | for an admin, exactly the documents dated in [day, day + 1), of either status, sorted by slot text; any other role 403 |
| Admin.ByDateListsLastSlotFirst | server/controllers/adminController.js:44 | with bookings at 11:00 AM and 10:00 PM on one day, the by-date listing puts 10:00 PM first |
| Admin.GetReservationsByDateInSchedule | server/controllers/adminController.js:39-44 | the same documents as the by-date listing, in the slot enumeration's order |
| Admin.ByDateInScheduleListsLastSlotLast | server/controllers/adminController.js:44 | in schedule order the 10:00 PM booking comes after the 11:00 AM one |
| Admin.EditReservation | server/controllers/adminController.js:68-87 | unknown id 404 and nothing changes; otherwise only the truthy fields among date, slot, guests and status are overwritten; id, user, table and createdAt are kept; only schema validation can refuse, and a refusal changes nothing |
| Admin.ReconfirmDoubleBooks | server/controllers/adminController.js:77-87 | re-confirming the cancelled 7:00 PM document succeeds and double-books the table |
| Admin.MoveDoubleBooks | server/controllers/adminController.js:77-87 | moving the 8:00 PM document to 7:00 PM with nine guests succeeds, double-books the table and seats more than its capacity of four |
| Admin.AdminEditCanDoubleBook | server/controllers/adminController.js:77-87 | from a well-formed store without double booking, re-confirming a cancelled document or moving a confirmed one onto a held slot yields two confirmed reservations for one table, day and slot; a party larger than the table is accepted |
| Admin.AdminCancel | server/controllers/adminController.js:110-120 | unknown id 404; otherwise that document becomes cancelled, whoever owns it and whatever its status |
| Admin.AdminCancelIsIdempotent | server/controllers/adminController.js:119 | cancelling twice leaves the same collections and response as cancelling once |
| Admin.AdminCancelPreservesNoDoubleBooking | server/controllers/adminController.js:119 | the admin cancel keeps at most one confirmed reservation per table, day and slot |
| Admin.GetAllTables | server/controllers/adminController.js:141 | for an admin, every table, active or not, by ascending tableNumber |
| Admin.AddTable | server/controllers/adminController.js:162-186 | a falsy number or capacity gives 400; an existing table of that number, active or not, gives 400 with no insert; the insert succeeds iff the caller is an admin, both fields are truthy and the number is unused, and then exactly one active table is added, so table numbers stay unique |
| Admin.EditTable | server/controllers/adminController.js:203-215 | unknown id 404; capacity changes only if truthy; isActive changes only if given; the number, the other tables and all reservations are unchanged |
| Admin.UpdateReservation | server/controllers/adminController.js:64-103 | the store's response and new collections are those of EditReservation; the store stays well formed (and need not keep the no-double-booking invariant) |
| Admin.CancelAnyReservation | server/controllers/adminController.js:108-134 | the status is overwritten in place as AdminCancel specifies; the store keeps both invariants |
| Admin.CreateTable | server/controllers/adminController.js:160-194 | the store's response and new collections are those of AddTable; the store stays well formed |
| Admin.UpdateTable | server/controllers/adminController.js:199-229 | capacity and isActive are overwritten in place as EditTable specifies; the store stays well formed |

Every admin handler takes the caller's role. It answers 403 to any role but
admin, because the routes admit only admins (server/routes/admin.js:16-17).

## Left out

- The HTTP envelope (`success`, `count`, `message` of a success) and the 201/200 distinction: a success is `Ok(value)`.
- The `populate` joins: a listed reservation carries its table and user ids. The joined details are the lookup `Database.FindTable`, which `WellFormed` guarantees succeeds.
- JavaScript `Date` parsing, time zones and `setHours`: days are integer keys and "today" is a parameter. Invalid date strings are not modelled.
- Malformed ids (a Mongoose cast error, answered 500), non-numeric guest counts (`NaN`) and non-integer guest counts are not modelled.
- Numbers: every numeric field (capacity, numberOfGuests, tableNumber, day keys, timestamps) is an unbounded integer, but JavaScript numbers are doubles. The model does not cover non-integer capacities and table numbers, which `createTable` and `updateTable` accept when truthy. Nor does it cover the loss of precision above 2^53, or the exponent form ("1e+21") a template literal uses from 10^21, which would change the capacity refusal's text.
- The race between the conflict check and the insert in `createReservation`: handlers run one at a time.
- The 500 answers for store or network failures. The only 500 modelled is a schema validation refusal.
- `updatedAt` from the `timestamps` option: nothing reads it.
- The Table schema and the `User` model are not part of this model. `createTable` is assumed to store an active table (isActive defaulting to true), and table saves are assumed to succeed.
- The authentication middleware is not part of this model. Its 401 and the wording of its 403 are not modelled; the 403 text here is the model's own.
- Bookings.Cancel, Admin.AdminCancel: the `save()` after a cancel is assumed to pass validation, which holds for every document of a well-formed store.
- Bookings.GetAvailableTables: states which tables are offered, not in what order. `Table.find` gives no order, and the model keeps collection order.
- Seqs.Sort: when keys tie, MongoDB may return any order. The model fixes one order, and the contracts promise only sortedness and permutation.
- The client (React pages), the route wiring (except the admin role gate) and the seeding script.

## Findings

| source | as written | input that shows it | evidently intended | confidence | as-written member | corrected member |
|---|---|---|---|---|---|---|
| server/controllers/adminController.js:44 | `.sort('timeSlot')` orders one day's reservations by the slot's text | two reservations on one day, at 11:00 AM and at 10:00 PM: the 10:00 PM one is listed first | the day's schedule order, 11:00 AM first and 10:00 PM last | medium; not executed | Admin.ByDateListsLastSlotFirst | Admin.GetReservationsByDateInSchedule |
