/** The two collections the handlers share (tables and reservations), the
    lookups and orderings the handlers ask of them, and the store object that
    holds them. Document ids are modelled as positions in their collection:
    no handler ever deletes a document. */
module Database {

  import opened JsValues
  import opened Seqs
  import opened Schema
  import opened Responses

  /** A table document. The Table schema is not part of this model; only the
      fields the handlers read or write are kept. */
  datatype Table = Table(id: TableId, tableNumber: int, capacity: int, isActive: bool)

  /** The role the authentication middleware attaches to a request. */
  datatype Role = Customer | Admin

  /** The contents of both collections at one moment. */
  datatype Db = Db(tables: seq<Table>, reservations: seq<Reservation>)

  /** The result of a handler that may write, with the collections afterwards. */
  datatype Step<+T> = Step(result: Outcome<T>, db: Db)

  /** What every handler keeps true: ids match positions, table numbers are
      unique (the duplicate check of createTable), every reservation passed
      schema validation and refers to an existing table. Double-booking is
      NOT part of it: the schema's index on (table, date, timeSlot, status)
      is not unique. */
  predicate WellFormed(db: Db)
  {
    && (forall i :: 0 <= i < |db.tables| ==> db.tables[i].id == i)
    && (forall i, j :: 0 <= i < j < |db.tables| ==> db.tables[i].tableNumber != db.tables[j].tableNumber)
    && (forall i :: 0 <= i < |db.reservations| ==>
          && db.reservations[i].id == i
          && ValidReservation(db.reservations[i])
          && db.reservations[i].table < |db.tables|)
  }

  /** The 404 texts of a failed lookup; the customer and staff handlers use
      the same wording. */
  const TableNotFoundMessage := "Table not found"
  const ReservationNotFoundMessage := "Reservation not found"

  /** `Table.findById(id)`. */
  function FindTable(db: Db, id: TableId): (r: Option<Table>)
    ensures r.Some? <==> id < |db.tables|
    ensures r.Some? ==> r.value in db.tables
    ensures r.Some? && WellFormed(db) ==> r.value.id == id
  {
    if id < |db.tables| then Some(db.tables[id]) else None
  }

  /** `Reservation.findById(id)`. */
  function FindReservation(db: Db, id: ReservationId): (r: Option<Reservation>)
    ensures r.Some? <==> id < |db.reservations|
    ensures r.Some? ==> r.value in db.reservations
    ensures r.Some? && WellFormed(db) ==> r.value.id == id
  {
    if id < |db.reservations| then Some(db.reservations[id]) else None
  }

  /** A reservation that holds its table on `day` at `slot`: only confirmed
      ones do. */
  predicate Occupies(r: Reservation, day: DayKey, slot: string)
  {
    r.status == Confirmed && r.date == day && r.timeSlot == slot
  }

  /** Some confirmed reservation holds table `table` on `day` at `slot`. */
  predicate SlotTaken(rs: seq<Reservation>, table: TableId, day: DayKey, slot: string)
  {
    exists r :: r in rs && r.table == table && Occupies(r, day, slot)
  }

  /** The core invariant: at most one confirmed reservation per (table, day, slot). */
  predicate NoDoubleBooking(rs: seq<Reservation>)
  {
    forall i, j :: 0 <= i < |rs| && 0 <= j < |rs| && i != j && rs[i].status == Confirmed && rs[j].status == Confirmed ==>
      !(rs[i].table == rs[j].table && rs[i].date == rs[j].date && rs[i].timeSlot == rs[j].timeSlot)
  }

  /** `.sort('-date -createdAt')`: newest day first, then newest document. */
  predicate NewestFirst(a: Reservation, b: Reservation)
  {
    a.date > b.date || (a.date == b.date && a.createdAt >= b.createdAt)
  }

  /** `.sort('timeSlot')`: by the slot's text, not by its place in the enumeration. */
  predicate BySlotText(a: Reservation, b: Reservation)
  {
    LexLeq(a.timeSlot, b.timeSlot)
  }

  /** `.sort('tableNumber')`. */
  predicate ByTableNumber(a: Table, b: Table)
  {
    a.tableNumber <= b.tableNumber
  }

  lemma NewestFirstIsTotalPreorder()
    ensures TotalPreorder(NewestFirst)
  {
  }

  lemma BySlotTextIsTotalPreorder()
    ensures TotalPreorder(BySlotText)
  {
    forall a, b ensures BySlotText(a, b) || BySlotText(b, a) {
      LexLeqTotal(a.timeSlot, b.timeSlot);
    }
    forall a, b, c | BySlotText(a, b) && BySlotText(b, c) ensures BySlotText(a, c) {
      LexLeqTransitive(a.timeSlot, b.timeSlot, c.timeSlot);
    }
  }

  lemma ByTableNumberIsTotalPreorder()
    ensures TotalPreorder(ByTableNumber)
  {
  }

  /** The text order puts the last slot of the day first and 2:00 PM after
      11:00 AM: "10:00 PM" < "11:00 AM" < "2:00 PM". */
  lemma SlotTextOrderIsNotScheduleOrder()
    ensures LexLeq("10:00 PM", "11:00 AM") && !LexLeq("11:00 AM", "10:00 PM")
    ensures LexLeq("11:00 AM", "2:00 PM") && !LexLeq("2:00 PM", "11:00 AM")
    ensures TimeSlots[0] == "11:00 AM" && TimeSlots[3] == "2:00 PM" && TimeSlots[8] == "10:00 PM"
  {
    assert "10:00 PM"[1..] == "0:00 PM" && "11:00 AM"[1..] == "1:00 AM";
  }

  /** The database: the two collections every handler reads and writes. */
  class Store {
    var tables: seq<Table>
    var reservations: seq<Reservation>

    constructor ()
      ensures tables == [] && reservations == []
      ensures Valid()
    {
      tables := [];
      reservations := [];
    }

    function State(): Db
      reads this
    {
      Db(tables, reservations)
    }

    ghost predicate Valid()
      reads this
    {
      WellFormed(State())
    }
  }
}
