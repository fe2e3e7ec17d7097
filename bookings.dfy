/** The customer-facing handlers (server/controllers/reservationController.js):
    table availability, booking, listing one's own reservations and
    cancelling one. Every authenticated caller reaches them, whatever its
    role. The read-only handlers are functions of the collections
    (`Store.State()`); the two that write are methods that take the store
    and modify it, each proved equal to a specification function of the
    collections. */
module Bookings {

  import opened JsValues
  import opened Responses
  import opened Decimal
  import opened Seqs
  import opened Schema
  import opened Database

  const MissingQueryMessage := "Please provide date, timeSlot, and number of guests"
  const MissingFieldsMessage := "Please provide all required fields: tableId, date, timeSlot, numberOfGuests"
  const PastDateMessage := "Cannot make reservations for past dates"
  const TableInactiveMessage := "This table is not available for reservations"
  const ConflictMessage := "This table is already reserved for the selected date and time slot"
  const CreateErrorMessage := "Error creating reservation"
  const NotOwnerMessage := "Not authorized to cancel this reservation"
  const AlreadyCancelledMessage := "This reservation is already cancelled"

  const CapacityPrefix := "This table can only accommodate "
  const CapacitySuffix := " guests. Please select a larger table."

  /** The refusal of a table too small for the party, naming the table's capacity. */
  function CapacityMessage(capacity: int): string
  {
    CapacityPrefix + IntToString(capacity) + CapacitySuffix
  }

  /** The capacity a capacity refusal names, read back from its text. */
  function CapacityNamedIn(message: string): Option<int>
  {
    if |message| < |CapacityPrefix| + |CapacitySuffix| then None
    else ParseInt(message[|CapacityPrefix|..|message| - |CapacitySuffix|])
  }

  lemma CapacityMessageNamesCapacity(capacity: int)
    ensures CapacityNamedIn(CapacityMessage(capacity)) == Some(capacity)
  {
    var m := CapacityMessage(capacity);
    assert m[|CapacityPrefix|..|m| - |CapacitySuffix|] == IntToString(capacity);
    IntToStringRoundTrip(capacity);
  }

  // ---------------------------------------------------------------------------
  // getAvailableTables

  /** A table the availability query offers for (`day`, `slot`, `guests`):
      active, large enough, and held by no confirmed reservation then. */
  predicate AvailableFor(db: Db, t: Table, day: DayKey, slot: string, guests: int)
  {
    t.isActive && t.capacity >= guests && !SlotTaken(db.reservations, t.id, day, slot)
  }

  /** `existingReservations.map(res => res.table)`: the tables held by a
      confirmed reservation on `day` at `slot`. */
  function ReservedTableIds(rs: seq<Reservation>, day: DayKey, slot: string): (ids: seq<TableId>)
    ensures forall id :: id in ids <==> SlotTaken(rs, id, day, slot)
  {
    var held := Filter(rs, (r: Reservation) => Occupies(r, day, slot));
    var ids := seq(|held|, i requires 0 <= i < |held| => held[i].table);
    TablesOfHeld(rs, day, slot, held, ids);
    ids
  }

  /** The tables of the confirmed documents at (`day`, `slot`) are exactly the
      tables that slot holds. */
  lemma TablesOfHeld(rs: seq<Reservation>, day: DayKey, slot: string, held: seq<Reservation>, ids: seq<TableId>)
    requires forall r :: r in held <==> r in rs && Occupies(r, day, slot)
    requires |ids| == |held| && forall i :: 0 <= i < |held| ==> ids[i] == held[i].table
    ensures forall id :: id in ids <==> SlotTaken(rs, id, day, slot)
  {
    forall id | id in ids ensures SlotTaken(rs, id, day, slot) {
      var i :| 0 <= i < |ids| && ids[i] == id;
      assert held[i] in held;
    }
    forall id | SlotTaken(rs, id, day, slot) ensures id in ids {
      var r :| r in rs && r.table == id && Occupies(r, day, slot);
      var i :| 0 <= i < |held| && held[i] == r;
      assert ids[i] == id;
    }
  }

  /** The availability query. `date` and `guests` come from the query string,
      so None is a missing or empty parameter and any number, 0 included, is
      present; `timeSlot` is absent when empty and is not checked against the
      enumeration. */
  function GetAvailableTables(db: Db, date: Option<DayKey>, timeSlot: string, guests: Option<int>): (r: Outcome<seq<Table>>)
    ensures r.Ok? || r == BadRequest(MissingQueryMessage)
    ensures r.Ok? <==> date.Some? && timeSlot != "" && guests.Some?
    ensures r.Ok? ==> forall t :: t in r.value <==> t in db.tables && AvailableFor(db, t, date.value, timeSlot, guests.value)
  {
    if date.None? || timeSlot == "" || guests.None? then BadRequest(MissingQueryMessage)
    else
      var withCapacity := Filter(db.tables, (t: Table) => t.capacity >= guests.value && t.isActive);
      var reserved := ReservedTableIds(db.reservations, date.value, timeSlot);
      Ok(Filter(withCapacity, (t: Table) => t.id !in reserved))
  }

  // ---------------------------------------------------------------------------
  // createReservation

  /** The request body of a booking; None (or an empty slot) is a missing field. */
  datatype BookingRequest = BookingRequest(
    tableId: Option<TableId>,
    date: Option<DayKey>,
    timeSlot: string,
    numberOfGuests: Option<int>)

  /** The first guard: `!tableId || !date || !timeSlot || !numberOfGuests`. */
  predicate MissingField(req: BookingRequest)
  {
    req.tableId.None? || req.date.None? || req.timeSlot == "" || !TruthyNumber(req.numberOfGuests)
  }

  /** The document a booking asks the schema to create. */
  function BookingDraft(user: UserId, req: BookingRequest): Draft
  {
    Draft(Some(user), req.tableId, req.date, Some(req.timeSlot), req.numberOfGuests, Some("confirmed"))
  }

  /** createReservation: six guards in a fixed order, the first that fails
      decides the response, then one insert. `today` is the server's current
      day and `now` the creation time. */
  function BookTable(db: Db, user: UserId, req: BookingRequest, today: DayKey, now: Timestamp): (step: Step<Reservation>)
    ensures step.result.Ok? ==> step.db == db.(reservations := db.reservations + [step.result.value])
    ensures !step.result.Ok? ==> step.db == db
    ensures step.result.Ok? ==>
      var r := step.result.value;
      && r.id == |db.reservations| && r.user == user && r.status == Confirmed && r.createdAt == now
      && Some(r.table) == req.tableId && Some(r.date) == req.date
      && r.timeSlot == req.timeSlot && Some(r.numberOfGuests) == req.numberOfGuests
    ensures WellFormed(db) ==> WellFormed(step.db)
  {
    if MissingField(req) then Step(BadRequest(MissingFieldsMessage), db)
    else if req.date.value < today then Step(BadRequest(PastDateMessage), db)
    else match FindTable(db, req.tableId.value)
      case None => Step(NotFound(TableNotFoundMessage), db)
      case Some(table) =>
        if !table.isActive then Step(BadRequest(TableInactiveMessage), db)
        else if table.capacity < req.numberOfGuests.value then Step(BadRequest(CapacityMessage(table.capacity)), db)
        else if SlotTaken(db.reservations, req.tableId.value, req.date.value, req.timeSlot) then Step(Conflict(ConflictMessage), db)
        else match Validate(BookingDraft(user, req), |db.reservations|, now)
          case None => Step(ServerError(CreateErrorMessage), db)
          case Some(r) => Step(Ok(r), db.(reservations := db.reservations + [r]))
  }

  /** Which guard answers a booking, checked in the handler's order. */
  lemma BookingGuardOrder(db: Db, user: UserId, req: BookingRequest, today: DayKey, now: Timestamp)
    ensures var r := BookTable(db, user, req, today, now).result;
      && (MissingField(req) ==> r == BadRequest(MissingFieldsMessage))
      && (!MissingField(req) && req.date.value < today ==> r == BadRequest(PastDateMessage))
      && (!MissingField(req) && req.date.value >= today && req.tableId.value >= |db.tables| ==>
            r == NotFound(TableNotFoundMessage))
      && (!MissingField(req) && req.date.value >= today && req.tableId.value < |db.tables| ==>
            var t := db.tables[req.tableId.value];
            && (!t.isActive ==> r == BadRequest(TableInactiveMessage))
            && (t.isActive && t.capacity < req.numberOfGuests.value ==> r.BadRequest? && CapacityNamedIn(r.message) == Some(t.capacity))
            && (t.isActive && t.capacity >= req.numberOfGuests.value
                && SlotTaken(db.reservations, req.tableId.value, req.date.value, req.timeSlot)
                ==> r == Conflict(ConflictMessage)))
  {
    if !MissingField(req) && req.date.value >= today && req.tableId.value < |db.tables| {
      CapacityMessageNamesCapacity(db.tables[req.tableId.value].capacity);
    }
  }

  /** A booking succeeds exactly when every guard passes and the schema accepts
      the slot and the guest count; a day equal to today passes, and so does a
      party exactly the table's size. */
  lemma BookingSucceedsIff(db: Db, user: UserId, req: BookingRequest, today: DayKey, now: Timestamp)
    ensures BookTable(db, user, req, today, now).result.Ok? <==>
      && !MissingField(req)
      && req.date.value >= today
      && req.tableId.value < |db.tables|
      && db.tables[req.tableId.value].isActive
      && db.tables[req.tableId.value].capacity >= req.numberOfGuests.value
      && !SlotTaken(db.reservations, req.tableId.value, req.date.value, req.timeSlot)
      && req.timeSlot in TimeSlots
      && req.numberOfGuests.value >= 1
  {
  }

  /** Booking keeps at most one confirmed reservation per (table, day, slot). */
  lemma BookingPreservesNoDoubleBooking(db: Db, user: UserId, req: BookingRequest, today: DayKey, now: Timestamp)
    requires NoDoubleBooking(db.reservations)
    ensures NoDoubleBooking(BookTable(db, user, req, today, now).db.reservations)
  {
    var step := BookTable(db, user, req, today, now);
    if step.result.Ok? {
      var rs := step.db.reservations;
      var n := |db.reservations|;
      forall i, j | 0 <= i < |rs| && 0 <= j < |rs| && i != j && rs[i].status == Confirmed && rs[j].status == Confirmed
        ensures !(rs[i].table == rs[j].table && rs[i].date == rs[j].date && rs[i].timeSlot == rs[j].timeSlot)
      {
        if i == n || j == n {
          var k := if i == n then j else i;
          assert rs[k] in db.reservations;
        }
      }
    }
  }

  // ---------------------------------------------------------------------------
  // getMyReservations

  /** The caller's own reservations, of either status, newest first. */
  function GetMyReservations(db: Db, user: UserId): (r: seq<Reservation>)
    ensures forall x :: multiset(r)[x] == if x.user == user then multiset(db.reservations)[x] else 0
    ensures SortedBy(r, NewestFirst)
  {
    NewestFirstIsTotalPreorder();
    Sort(Filter(db.reservations, (x: Reservation) => x.user == user), NewestFirst)
  }

  // ---------------------------------------------------------------------------
  // cancelReservation

  /** cancelReservation: unknown id, then ownership (no role bypass), then a
      second cancel are refused; otherwise only that document's status changes. */
  function Cancel(db: Db, user: UserId, id: ReservationId): (step: Step<Reservation>)
    ensures id >= |db.reservations| ==> step.result == NotFound(ReservationNotFoundMessage)
    ensures id < |db.reservations| && db.reservations[id].user != user ==> step.result == Forbidden(NotOwnerMessage)
    ensures id < |db.reservations| && db.reservations[id].user == user && db.reservations[id].status == Cancelled ==>
      step.result == BadRequest(AlreadyCancelledMessage)
    ensures step.result.Ok? <==>
      id < |db.reservations| && db.reservations[id].user == user && db.reservations[id].status == Confirmed
    ensures step.result.Ok? ==>
      && id < |db.reservations|
      && step.result.value == db.reservations[id].(status := Cancelled)
      && step.db == db.(reservations := db.reservations[id := step.result.value])
    ensures !step.result.Ok? ==> step.db == db
    ensures WellFormed(db) ==> WellFormed(step.db)
  {
    match FindReservation(db, id)
    case None => Step(NotFound(ReservationNotFoundMessage), db)
    case Some(r) =>
      if r.user != user then Step(Forbidden(NotOwnerMessage), db)
      else if r.status == Cancelled then Step(BadRequest(AlreadyCancelledMessage), db)
      else
        assert r == db.reservations[id] && r.status == Confirmed;
        var cancelled := r.(status := Cancelled);
        Step(Ok(cancelled), db.(reservations := db.reservations[id := cancelled]))
  }

  /** Cancelling only frees slots, so it keeps the invariant. */
  lemma CancelPreservesNoDoubleBooking(db: Db, user: UserId, id: ReservationId)
    requires NoDoubleBooking(db.reservations)
    ensures NoDoubleBooking(Cancel(db, user, id).db.reservations)
  {
    var step := Cancel(db, user, id);
    if step.result.Ok? {
      var rs := step.db.reservations;
      forall i, j | 0 <= i < |rs| && 0 <= j < |rs| && i != j && rs[i].status == Confirmed && rs[j].status == Confirmed
        ensures !(rs[i].table == rs[j].table && rs[i].date == rs[j].date && rs[i].timeSlot == rs[j].timeSlot)
      {
        assert i != id && j != id;
        assert rs[i] == db.reservations[i] && rs[j] == db.reservations[j];
      }
    }
  }

  // ---------------------------------------------------------------------------
  // Availability and booking agree

  /** A table the availability query offers for a day not in the past can be
      booked for that day, slot and party size, and is then no longer offered
      for that day and slot. */
  lemma AvailableTableCanBeBooked(db: Db, user: UserId, t: Table, day: DayKey, slot: string, guests: int, today: DayKey, now: Timestamp)
    requires WellFormed(db)
    requires GetAvailableTables(db, Some(day), slot, Some(guests)).Ok?
    requires t in GetAvailableTables(db, Some(day), slot, Some(guests)).value
    requires day >= today && slot in TimeSlots && guests >= 1
    ensures var step := BookTable(db, user, BookingRequest(Some(t.id), Some(day), slot, Some(guests)), today, now);
      && step.result.Ok?
      && forall g :: t !in GetAvailableTables(step.db, Some(day), slot, Some(g)).value
  {
    var req := BookingRequest(Some(t.id), Some(day), slot, Some(guests));
    var i :| 0 <= i < |db.tables| && db.tables[i] == t;
    assert FindTable(db, t.id) == Some(t);
    BookingSucceedsIff(db, user, req, today, now);
    BookedTableIsTaken(db, user, req, today, now);
  }

  /** After a successful booking its table is offered to no party for that day
      and slot. */
  lemma BookedTableIsTaken(db: Db, user: UserId, req: BookingRequest, today: DayKey, now: Timestamp)
    requires BookTable(db, user, req, today, now).result.Ok?
    ensures var step := BookTable(db, user, req, today, now);
      forall g: int, t: Table :: t.id == req.tableId.value ==>
        t !in GetAvailableTables(step.db, req.date, req.timeSlot, Some(g)).value
  {
    var step := BookTable(db, user, req, today, now);
    var r := step.result.value;
    assert r in step.db.reservations;
    assert Occupies(r, req.date.value, req.timeSlot);
  }

  /** Cancelling the booking offers its table again: the cancelled document
      blocks nothing. */
  lemma CancelFreesTable(db: Db, user: UserId, t: Table, day: DayKey, slot: string, guests: int, today: DayKey, now: Timestamp)
    requires WellFormed(db)
    requires GetAvailableTables(db, Some(day), slot, Some(guests)).Ok?
    requires t in GetAvailableTables(db, Some(day), slot, Some(guests)).value
    requires day >= today && slot in TimeSlots && guests >= 1
    ensures var booked := BookTable(db, user, BookingRequest(Some(t.id), Some(day), slot, Some(guests)), today, now);
      && booked.result.Ok?
      && var cancelled := Cancel(booked.db, user, booked.result.value.id);
      && cancelled.result.Ok?
      && t in GetAvailableTables(cancelled.db, Some(day), slot, Some(guests)).value
  {
    var req := BookingRequest(Some(t.id), Some(day), slot, Some(guests));
    AvailableTableCanBeBooked(db, user, t, day, slot, guests, today, now);
    var booked := BookTable(db, user, req, today, now);
    var n := |db.reservations|;
    var cancelled := Cancel(booked.db, user, n);
    assert cancelled.result.Ok?;
    assert cancelled.db.tables == db.tables;
    ReplaceLast(db.reservations, booked.result.value, booked.result.value.(status := Cancelled));
    CancelledDocumentHoldsNothing(db.reservations, booked.result.value.(status := Cancelled), t.id, day, slot);
    OfferedWhenAvailable(cancelled.db, t, day, slot, guests);
  }

  /** The availability query offers every table of the store that is available. */
  lemma OfferedWhenAvailable(db: Db, t: Table, day: DayKey, slot: string, guests: int)
    requires slot != "" && t in db.tables && AvailableFor(db, t, day, slot, guests)
    ensures t in GetAvailableTables(db, Some(day), slot, Some(guests)).value
  {
  }

  lemma ReplaceLast(s: seq<Reservation>, a: Reservation, b: Reservation)
    ensures (s + [a])[|s| := b] == s + [b]
  {
  }

  /** A cancelled document added to the collection holds no slot. */
  lemma CancelledDocumentHoldsNothing(rs: seq<Reservation>, r: Reservation, table: TableId, day: DayKey, slot: string)
    requires r.status == Cancelled
    ensures SlotTaken(rs + [r], table, day, slot) == SlotTaken(rs, table, day, slot)
  {
    if SlotTaken(rs + [r], table, day, slot) {
      var x :| x in rs + [r] && x.table == table && Occupies(x, day, slot);
      assert x in rs;
    }
  }

  // ---------------------------------------------------------------------------
  // The handlers that write, on the store

  /** createReservation on the store. */
  method CreateReservation(store: Store, user: UserId, req: BookingRequest, today: DayKey, now: Timestamp)
    returns (r: Outcome<Reservation>)
    requires store.Valid()
    modifies store
    ensures store.Valid()
    ensures Step(r, store.State()) == BookTable(old(store.State()), user, req, today, now)
    ensures old(NoDoubleBooking(store.reservations)) ==> NoDoubleBooking(store.reservations)
  {
    ghost var before := store.State();
    if req.tableId.None? || req.date.None? || req.timeSlot == "" || !TruthyNumber(req.numberOfGuests) {
      return BadRequest(MissingFieldsMessage);
    }
    var tableId, day, guests := req.tableId.value, req.date.value, req.numberOfGuests.value;
    if day < today {
      return BadRequest(PastDateMessage);
    }
    if tableId >= |store.tables| {
      return NotFound(TableNotFoundMessage);
    }
    var table := store.tables[tableId];
    if !table.isActive {
      return BadRequest(TableInactiveMessage);
    }
    if table.capacity < guests {
      return BadRequest(CapacityMessage(table.capacity));
    }
    if SlotTaken(store.reservations, tableId, day, req.timeSlot) {
      return Conflict(ConflictMessage);
    }
    var created := Validate(BookingDraft(user, req), |store.reservations|, now);
    if created.None? {
      return ServerError(CreateErrorMessage);
    }
    store.reservations := store.reservations + [created.value];
    r := Ok(created.value);
    if NoDoubleBooking(before.reservations) {
      BookingPreservesNoDoubleBooking(before, user, req, today, now);
    }
  }

  /** cancelReservation on the store: the document's status is overwritten in place. */
  method CancelReservation(store: Store, user: UserId, id: ReservationId) returns (r: Outcome<Reservation>)
    requires store.Valid()
    modifies store
    ensures store.Valid()
    ensures Step(r, store.State()) == Cancel(old(store.State()), user, id)
    ensures old(NoDoubleBooking(store.reservations)) ==> NoDoubleBooking(store.reservations)
  {
    ghost var before := store.State();
    if id >= |store.reservations| {
      return NotFound(ReservationNotFoundMessage);
    }
    var reservation := store.reservations[id];
    if reservation.user != user {
      return Forbidden(NotOwnerMessage);
    }
    if reservation.status == Cancelled {
      return BadRequest(AlreadyCancelledMessage);
    }
    reservation := reservation.(status := Cancelled);
    store.reservations := store.reservations[id := reservation];
    r := Ok(reservation);
    if NoDoubleBooking(before.reservations) {
      CancelPreservesNoDoubleBooking(before, user, id);
    }
  }
}
