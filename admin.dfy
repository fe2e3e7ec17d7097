/** The staff handlers (server/controllers/adminController.js). The routes
    that reach them admit only the `admin` role (server/routes/admin.js), so
    each takes the caller's role and refuses any other with 403. The
    read-only handlers are functions of the collections (`Store.State()`);
    the four that write are methods that take the store and modify it, each
    proved equal to a specification function of the collections. */
module Admin {

  import opened JsValues
  import opened Responses
  import opened Seqs
  import opened Schema
  import opened Database

  /** The refusal of the role middleware; its wording is not part of this model. */
  const AdminOnlyMessage := "admin role required"
  const UpdateErrorMessage := "Error updating reservation"
  const MissingTableFieldsMessage := "Please provide tableNumber and capacity"
  const DuplicateTableMessage := "Table number already exists"

  // ---------------------------------------------------------------------------
  // Reservation ledger

  /** getAllReservations: every document, of any user and status, newest first. */
  function GetAllReservations(db: Db, role: Role): (r: Outcome<seq<Reservation>>)
    ensures r.Ok? <==> role == Admin
    ensures !r.Ok? ==> r == Forbidden(AdminOnlyMessage)
    ensures r.Ok? ==> multiset(r.value) == multiset(db.reservations) && SortedBy(r.value, NewestFirst)
  {
    if role != Admin then Forbidden(AdminOnlyMessage)
    else
      NewestFirstIsTotalPreorder();
      Ok(Sort(db.reservations, NewestFirst))
  }

  /** `{ date: { $gte: day, $lt: nextDay } }`. */
  function OnDay(day: DayKey): Reservation -> bool
  {
    (x: Reservation) => day <= x.date < day + 1
  }

  /** getReservationsByDate: the documents whose date lies in [day, day + 1),
      of either status, ordered by the text of their slot. */
  function GetReservationsByDate(db: Db, role: Role, day: DayKey): (r: Outcome<seq<Reservation>>)
    ensures r.Ok? <==> role == Admin
    ensures !r.Ok? ==> r == Forbidden(AdminOnlyMessage)
    ensures r.Ok? ==>
      && (forall x :: multiset(r.value)[x] == if day <= x.date < day + 1 then multiset(db.reservations)[x] else 0)
      && SortedBy(r.value, BySlotText)
  {
    if role != Admin then Forbidden(AdminOnlyMessage)
    else
      BySlotTextIsTotalPreorder();
      Ok(Sort(Filter(db.reservations, OnDay(day)), BySlotText))
  }

  /** The order of a day's schedule, which the by-date listing evidently
      means: a slot's place in the enumeration. */
  predicate BySchedule(a: Reservation, b: Reservation)
  {
    SlotIndex(a.timeSlot) <= SlotIndex(b.timeSlot)
  }

  /** getReservationsByDate with the listing in schedule order: the same
      documents as GetReservationsByDate, 11:00 AM first and 10:00 PM last. */
  function GetReservationsByDateInSchedule(db: Db, role: Role, day: DayKey): (r: Outcome<seq<Reservation>>)
    ensures r.Ok? <==> role == Admin
    ensures !r.Ok? ==> r == Forbidden(AdminOnlyMessage)
    ensures r.Ok? ==>
      && multiset(r.value) == multiset(GetReservationsByDate(db, role, day).value)
      && forall i, j :: 0 <= i < j < |r.value| ==> SlotIndex(r.value[i].timeSlot) <= SlotIndex(r.value[j].timeSlot)
  {
    if role != Admin then Forbidden(AdminOnlyMessage)
    else
      assert TotalPreorder(BySchedule);
      Ok(Sort(Filter(db.reservations, OnDay(day)), BySchedule))
  }

  /** Two reservations on day 20, booked for 11:00 AM and for 10:00 PM. */
  const EveningDb := Db(
    [Table(0, 1, 4, true)],
    [Reservation(0, 7, 0, 20, "11:00 AM", 2, Confirmed, 1),
     Reservation(1, 8, 0, 20, "10:00 PM", 2, Confirmed, 2)])

  /** A day holding exactly two documents is listed in the order `leq` puts
      the pair. */
  lemma DayOfTwo(a: Reservation, b: Reservation, day: DayKey, leq: (Reservation, Reservation) -> bool)
    requires OnDay(day)(a) && OnDay(day)(b) && TotalPreorder(leq)
    ensures Sort(Filter([a, b], OnDay(day)), leq) == if leq(a, b) then [a, b] else [b, a]
  {
    assert forall x :: x in [a, b] ==> OnDay(day)(x);
    FilterKeepsAll([a, b], OnDay(day));
    SortTwo(a, b, leq);
  }

  /** As written, the by-date listing puts the 10:00 PM booking before the
      11:00 AM one. */
  lemma ByDateListsLastSlotFirst()
    ensures var listed := GetReservationsByDate(EveningDb, Admin, 20).value;
      |listed| == 2 && listed[0].timeSlot == "10:00 PM" && listed[1].timeSlot == "11:00 AM"
  {
    var a, b := EveningDb.reservations[0], EveningDb.reservations[1];
    assert EveningDb.reservations == [a, b];
    BySlotTextIsTotalPreorder();
    DayOfTwo(a, b, 20, BySlotText);
    SlotTextOrderIsNotScheduleOrder();
  }

  /** The schedule-order listing puts the 10:00 PM booking last. */
  lemma ByDateInScheduleListsLastSlotLast()
    ensures var listed := GetReservationsByDateInSchedule(EveningDb, Admin, 20).value;
      |listed| == 2 && listed[0].timeSlot == "11:00 AM" && listed[1].timeSlot == "10:00 PM"
  {
    var a, b := EveningDb.reservations[0], EveningDb.reservations[1];
    assert EveningDb.reservations == [a, b];
    assert TotalPreorder(BySchedule);
    assert SlotIndex(a.timeSlot) == 0;
    DayOfTwo(a, b, 20, BySchedule);
  }

  /** The body of an admin edit: a field is overwritten only when it is
      truthy; None and the empty string stand for a falsy field. */
  datatype ReservationPatch = ReservationPatch(
    date: Option<DayKey>,
    timeSlot: string,
    numberOfGuests: Option<int>,
    status: string)

  /** The document as the handler leaves it before `save()` validates it. */
  function PatchedDraft(r: Reservation, patch: ReservationPatch): Draft
  {
    Draft(
      Some(r.user),
      Some(r.table),
      Some(if patch.date.Some? then patch.date.value else r.date),
      Some(if patch.timeSlot != "" then patch.timeSlot else r.timeSlot),
      Some(if TruthyNumber(patch.numberOfGuests) then patch.numberOfGuests.value else r.numberOfGuests),
      Some(if patch.status != "" then patch.status else StatusName(r.status)))
  }

  /** updateReservation: a raw partial overwrite. Only the schema checks it;
      there is no conflict and no capacity check. */
  function EditReservation(db: Db, role: Role, id: ReservationId, patch: ReservationPatch): (step: Step<Reservation>)
    ensures role != Admin ==> step.result == Forbidden(AdminOnlyMessage)
    ensures role == Admin && id >= |db.reservations| ==> step.result == NotFound(ReservationNotFoundMessage)
    ensures !step.result.Ok? ==> step.db == db
    ensures role == Admin && id < |db.reservations| ==>
      var was := db.reservations[id];
      var slot := if patch.timeSlot != "" then patch.timeSlot else was.timeSlot;
      var guests := if TruthyNumber(patch.numberOfGuests) then patch.numberOfGuests.value else was.numberOfGuests;
      step.result.Ok? <==> slot in TimeSlots && guests >= 1 && (patch.status == "" || patch.status in ["confirmed", "cancelled"])
    ensures step.result.Ok? ==>
      var was := db.reservations[id];
      var now := step.result.value;
      && step.db == db.(reservations := db.reservations[id := now])
      && now.id == was.id && now.user == was.user && now.table == was.table && now.createdAt == was.createdAt
      && now.date == (if patch.date.Some? then patch.date.value else was.date)
      && now.timeSlot == (if patch.timeSlot != "" then patch.timeSlot else was.timeSlot)
      && now.numberOfGuests == (if TruthyNumber(patch.numberOfGuests) then patch.numberOfGuests.value else was.numberOfGuests)
      && (if patch.status != "" then StatusName(now.status) == patch.status else now.status == was.status)
    ensures WellFormed(db) ==> WellFormed(step.db)
  {
    if role != Admin then Step(Forbidden(AdminOnlyMessage), db)
    else match FindReservation(db, id)
      case None => Step(NotFound(ReservationNotFoundMessage), db)
      case Some(was) =>
        StatusNameRoundTrip(was.status);
        match Validate(PatchedDraft(was, patch), was.id, was.createdAt)
        case None => Step(ServerError(UpdateErrorMessage), db)
        case Some(now) => Step(Ok(now), db.(reservations := db.reservations[id := now]))
  }

  /** cancelAnyReservation: any document, whoever owns it and whatever its status. */
  function AdminCancel(db: Db, role: Role, id: ReservationId): (step: Step<Reservation>)
    ensures role != Admin ==> step.result == Forbidden(AdminOnlyMessage)
    ensures role == Admin && id >= |db.reservations| ==> step.result == NotFound(ReservationNotFoundMessage)
    ensures step.result.Ok? <==> role == Admin && id < |db.reservations|
    ensures step.result.Ok? ==>
      && step.result.value == db.reservations[id].(status := Cancelled)
      && step.db == db.(reservations := db.reservations[id := step.result.value])
    ensures !step.result.Ok? ==> step.db == db
    ensures WellFormed(db) ==> WellFormed(step.db)
  {
    if role != Admin then Step(Forbidden(AdminOnlyMessage), db)
    else match FindReservation(db, id)
      case None => Step(NotFound(ReservationNotFoundMessage), db)
      case Some(was) =>
        var cancelled := was.(status := Cancelled);
        Step(Ok(cancelled), db.(reservations := db.reservations[id := cancelled]))
  }

  /** Cancelling twice leaves what cancelling once leaves, and the second
      cancel succeeds too. */
  lemma AdminCancelIsIdempotent(db: Db, id: ReservationId)
    ensures var once := AdminCancel(db, Admin, id);
      && AdminCancel(once.db, Admin, id).db == once.db
      && AdminCancel(once.db, Admin, id).result == once.result
  {
    var once := AdminCancel(db, Admin, id);
    if id < |db.reservations| {
      var rs := once.db.reservations;
      assert rs[id := rs[id].(status := Cancelled)] == rs;
    }
  }

  /** The admin cancel only frees slots, so it keeps the invariant. */
  lemma AdminCancelPreservesNoDoubleBooking(db: Db, role: Role, id: ReservationId)
    requires NoDoubleBooking(db.reservations)
    ensures NoDoubleBooking(AdminCancel(db, role, id).db.reservations)
  {
    var step := AdminCancel(db, role, id);
    if step.result.Ok? {
      var rs := step.db.reservations;
      forall i, j | 0 <= i < |rs| && 0 <= j < |rs| && i != j && rs[i].status == Confirmed && rs[j].status == Confirmed
        ensures !(rs[i].table == rs[j].table && rs[i].date == rs[j].date && rs[i].timeSlot == rs[j].timeSlot)
      {
        assert i != id && j != id;
        assert rs[i] == db.reservations[i] && rs[j] == db.reservations[j];
      }
    }
  }

  /** A store with one table, a confirmed reservation for it at 7:00 PM on day
      20, a cancelled one for the same table, day and slot, and a confirmed
      one at 8:00 PM. */
  const WitnessDb := Db(
    [Table(0, 1, 4, true)],
    [Reservation(0, 7, 0, 20, "7:00 PM", 2, Confirmed, 1),
     Reservation(1, 8, 0, 20, "7:00 PM", 4, Cancelled, 2),
     Reservation(2, 9, 0, 20, "8:00 PM", 3, Confirmed, 3)])

  /** The witness store is one a customer could have reached: well formed and
      without double booking. */
  lemma WitnessIsSound()
    ensures WellFormed(WitnessDb) && NoDoubleBooking(WitnessDb.reservations)
  {
    var rs := WitnessDb.reservations;
    assert rs[0].timeSlot != rs[2].timeSlot;
  }

  /** Re-confirming the cancelled 7:00 PM document double-books the table. */
  lemma ReconfirmDoubleBooks()
    ensures var step := EditReservation(WitnessDb, Admin, 1, ReservationPatch(None, "", None, "confirmed"));
      step.result.Ok? && !NoDoubleBooking(step.db.reservations)
  {
    var step := EditReservation(WitnessDb, Admin, 1, ReservationPatch(None, "", None, "confirmed"));
    var rs := step.db.reservations;
    assert rs[0] == WitnessDb.reservations[0] && rs[1].status == Confirmed;
    assert rs[0].table == rs[1].table && rs[0].date == rs[1].date && rs[0].timeSlot == rs[1].timeSlot;
  }

  /** Moving the 8:00 PM document to 7:00 PM with nine guests double-books the
      table and seats more than it holds. */
  lemma MoveDoubleBooks()
    ensures var step := EditReservation(WitnessDb, Admin, 2, ReservationPatch(None, "7:00 PM", Some(9), ""));
      && step.result.Ok? && !NoDoubleBooking(step.db.reservations)
      && step.result.value.numberOfGuests > WitnessDb.tables[0].capacity
  {
    var step := EditReservation(WitnessDb, Admin, 2, ReservationPatch(None, "7:00 PM", Some(9), ""));
    var rs := step.db.reservations;
    assert rs[0] == WitnessDb.reservations[0] && rs[2].status == Confirmed;
    assert rs[0].table == rs[2].table && rs[0].date == rs[2].date && rs[0].timeSlot == rs[2].timeSlot;
  }

  /** The admin edit does not keep the invariant that customer booking keeps:
      re-confirming a cancelled document, or moving a confirmed one onto a
      held slot, yields two confirmed reservations for one table, day and
      slot; and it lets the party outgrow the table. */
  lemma AdminEditCanDoubleBook()
    ensures WellFormed(WitnessDb) && NoDoubleBooking(WitnessDb.reservations)
    ensures var step := EditReservation(WitnessDb, Admin, 1, ReservationPatch(None, "", None, "confirmed"));
      step.result.Ok? && WellFormed(step.db) && !NoDoubleBooking(step.db.reservations)
    ensures var step := EditReservation(WitnessDb, Admin, 2, ReservationPatch(None, "7:00 PM", Some(9), ""));
      && step.result.Ok? && WellFormed(step.db) && !NoDoubleBooking(step.db.reservations)
      && step.result.value.numberOfGuests > WitnessDb.tables[0].capacity
  {
    WitnessIsSound();
    ReconfirmDoubleBooks();
    MoveDoubleBooks();
  }

  // ---------------------------------------------------------------------------
  // Table registry

  /** getAllTables: every table, active or not, by ascending table number. */
  function GetAllTables(db: Db, role: Role): (r: Outcome<seq<Table>>)
    ensures r.Ok? <==> role == Admin
    ensures !r.Ok? ==> r == Forbidden(AdminOnlyMessage)
    ensures r.Ok? ==> multiset(r.value) == multiset(db.tables) && SortedBy(r.value, ByTableNumber)
  {
    if role != Admin then Forbidden(AdminOnlyMessage)
    else
      ByTableNumberIsTotalPreorder();
      Ok(Sort(db.tables, ByTableNumber))
  }

  /** createTable: both fields truthy, then no table of that number, active
      or not; the new table is active. */
  function AddTable(db: Db, role: Role, tableNumber: Option<int>, capacity: Option<int>): (step: Step<Table>)
    ensures role != Admin ==> step.result == Forbidden(AdminOnlyMessage)
    ensures role == Admin && !(TruthyNumber(tableNumber) && TruthyNumber(capacity)) ==>
      step.result == BadRequest(MissingTableFieldsMessage)
    ensures role == Admin && TruthyNumber(tableNumber) && TruthyNumber(capacity) ==>
      (step.result == BadRequest(DuplicateTableMessage) <==> exists t :: t in db.tables && t.tableNumber == tableNumber.value)
    ensures step.result.Ok? <==>
      && role == Admin && TruthyNumber(tableNumber) && TruthyNumber(capacity)
      && !(exists t :: t in db.tables && t.tableNumber == tableNumber.value)
    ensures step.result.Ok? ==>
      && step.result.value == Table(|db.tables|, tableNumber.value, capacity.value, true)
      && step.db == db.(tables := db.tables + [step.result.value])
    ensures !step.result.Ok? ==> step.db == db
    ensures WellFormed(db) ==> WellFormed(step.db)
  {
    if role != Admin then Step(Forbidden(AdminOnlyMessage), db)
    else if !TruthyNumber(tableNumber) || !TruthyNumber(capacity) then Step(BadRequest(MissingTableFieldsMessage), db)
    else if exists t :: t in db.tables && t.tableNumber == tableNumber.value then Step(BadRequest(DuplicateTableMessage), db)
    else
      var table := Table(|db.tables|, tableNumber.value, capacity.value, true);
      Step(Ok(table), db.(tables := db.tables + [table]))
  }

  /** updateTable: capacity is overwritten when truthy, isActive when
      present; the number, the other tables and every reservation stay. */
  function EditTable(db: Db, role: Role, id: TableId, capacity: Option<int>, isActive: Option<bool>): (step: Step<Table>)
    ensures role != Admin ==> step.result == Forbidden(AdminOnlyMessage)
    ensures role == Admin && id >= |db.tables| ==> step.result == NotFound(TableNotFoundMessage)
    ensures step.result.Ok? <==> role == Admin && id < |db.tables|
    ensures step.result.Ok? ==>
      var was := db.tables[id];
      var now := step.result.value;
      && now.id == was.id && now.tableNumber == was.tableNumber
      && now.capacity == (if TruthyNumber(capacity) then capacity.value else was.capacity)
      && now.isActive == (if isActive.Some? then isActive.value else was.isActive)
      && step.db == db.(tables := db.tables[id := now])
    ensures step.db.reservations == db.reservations
    ensures !step.result.Ok? ==> step.db == db
    ensures WellFormed(db) ==> WellFormed(step.db)
  {
    if role != Admin then Step(Forbidden(AdminOnlyMessage), db)
    else match FindTable(db, id)
      case None => Step(NotFound(TableNotFoundMessage), db)
      case Some(was) =>
        var now := was.(capacity := if TruthyNumber(capacity) then capacity.value else was.capacity,
                        isActive := if isActive.Some? then isActive.value else was.isActive);
        Step(Ok(now), db.(tables := db.tables[id := now]))
  }

  // ---------------------------------------------------------------------------
  // The handlers that write, on the store

  /** updateReservation on the store. */
  method UpdateReservation(store: Store, role: Role, id: ReservationId, patch: ReservationPatch)
    returns (r: Outcome<Reservation>)
    requires store.Valid()
    modifies store
    ensures store.Valid()
    ensures Step(r, store.State()) == EditReservation(old(store.State()), role, id, patch)
  {
    if role != Admin {
      return Forbidden(AdminOnlyMessage);
    }
    if id >= |store.reservations| {
      return NotFound(ReservationNotFoundMessage);
    }
    var reservation := store.reservations[id];
    var saved := Validate(PatchedDraft(reservation, patch), reservation.id, reservation.createdAt);
    if saved.None? {
      return ServerError(UpdateErrorMessage);
    }
    store.reservations := store.reservations[id := saved.value];
    r := Ok(saved.value);
  }

  /** cancelAnyReservation on the store: the status is overwritten in place. */
  method CancelAnyReservation(store: Store, role: Role, id: ReservationId) returns (r: Outcome<Reservation>)
    requires store.Valid()
    modifies store
    ensures store.Valid()
    ensures Step(r, store.State()) == AdminCancel(old(store.State()), role, id)
    ensures old(NoDoubleBooking(store.reservations)) ==> NoDoubleBooking(store.reservations)
  {
    ghost var before := store.State();
    if role != Admin {
      return Forbidden(AdminOnlyMessage);
    }
    if id >= |store.reservations| {
      return NotFound(ReservationNotFoundMessage);
    }
    var reservation := store.reservations[id].(status := Cancelled);
    store.reservations := store.reservations[id := reservation];
    r := Ok(reservation);
    if NoDoubleBooking(before.reservations) {
      AdminCancelPreservesNoDoubleBooking(before, role, id);
    }
  }

  /** createTable on the store. */
  method CreateTable(store: Store, role: Role, tableNumber: Option<int>, capacity: Option<int>) returns (r: Outcome<Table>)
    requires store.Valid()
    modifies store
    ensures store.Valid()
    ensures Step(r, store.State()) == AddTable(old(store.State()), role, tableNumber, capacity)
  {
    if role != Admin {
      return Forbidden(AdminOnlyMessage);
    }
    if !TruthyNumber(tableNumber) || !TruthyNumber(capacity) {
      return BadRequest(MissingTableFieldsMessage);
    }
    if exists t :: t in store.tables && t.tableNumber == tableNumber.value {
      return BadRequest(DuplicateTableMessage);
    }
    var table := Table(|store.tables|, tableNumber.value, capacity.value, true);
    store.tables := store.tables + [table];
    r := Ok(table);
  }

  /** updateTable on the store: capacity and isActive are overwritten in place. */
  method UpdateTable(store: Store, role: Role, id: TableId, capacity: Option<int>, isActive: Option<bool>)
    returns (r: Outcome<Table>)
    requires store.Valid()
    modifies store
    ensures store.Valid()
    ensures Step(r, store.State()) == EditTable(old(store.State()), role, id, capacity, isActive)
  {
    if role != Admin {
      return Forbidden(AdminOnlyMessage);
    }
    if id >= |store.tables| {
      return NotFound(TableNotFoundMessage);
    }
    var table := store.tables[id];
    if TruthyNumber(capacity) {
      table := table.(capacity := capacity.value);
    }
    if isActive.Some? {
      table := table.(isActive := isActive.value);
    }
    store.tables := store.tables[id := table];
    r := Ok(table);
  }
}
