/** The reservation document schema (server/models/Reservation.js): its
    fields, the enumerations it accepts, the default status and the checks
    Mongoose runs when a document is created or saved. */
module Schema {

  import opened JsValues

  type UserId = nat
  type TableId = nat
  type ReservationId = nat

  /** A calendar day, already normalised to local midnight (`setHours(0, 0, 0, 0)`). */
  type DayKey = int

  /** A creation time as the `timestamps` option records it. */
  type Timestamp = int

  /** The `enum` of `timeSlot`, in the order the schema lists it. */
  const TimeSlots: seq<string> :=
    ["11:00 AM", "12:00 PM", "1:00 PM", "2:00 PM", "6:00 PM", "7:00 PM", "8:00 PM", "9:00 PM", "10:00 PM"]

  /** The place of `slot` in a list of slots; the list's length when absent. */
  function Position(slots: seq<string>, slot: string): (i: nat)
    ensures i <= |slots|
    ensures i < |slots| <==> slot in slots
    ensures i < |slots| ==> slots[i] == slot && forall k :: 0 <= k < i ==> slots[k] != slot
  {
    if slots == [] then 0
    else if slots[0] == slot then 0
    else 1 + Position(slots[1..], slot)
  }

  /** The place of a slot in the day's schedule; text outside the
      enumeration comes after every slot. */
  function SlotIndex(slot: string): nat
  {
    Position(TimeSlots, slot)
  }

  datatype Status = Confirmed | Cancelled

  /** The `default` of `status`. */
  const DefaultStatus: Status := Confirmed

  /** The string stored for a status. */
  function StatusName(s: Status): string
  {
    match s
    case Confirmed => "confirmed"
    case Cancelled => "cancelled"
  }

  /** The `enum` check of `status`: only the two listed strings are accepted. */
  function ParseStatus(text: string): (r: Option<Status>)
    ensures r.Some? <==> text == "confirmed" || text == "cancelled"
    ensures r.Some? ==> StatusName(r.value) == text
  {
    if text == "confirmed" then Some(Confirmed)
    else if text == "cancelled" then Some(Cancelled)
    else None
  }

  lemma StatusNameRoundTrip(s: Status)
    ensures ParseStatus(StatusName(s)) == Some(s)
  {
  }

  /** A stored reservation document. `createdAt` comes from `timestamps: true`;
      `updatedAt` is not part of this model. */
  datatype Reservation = Reservation(
    id: ReservationId,
    user: UserId,
    table: TableId,
    date: DayKey,
    timeSlot: string,
    numberOfGuests: int,
    status: Status,
    createdAt: Timestamp)

  /** What every stored document satisfies: the slot is one of the enumerated
      ones and there is at least one guest. */
  predicate ValidReservation(r: Reservation)
  {
    r.timeSlot in TimeSlots && r.numberOfGuests >= 1
  }

  /** The fields a handler sets on a document before it is created or saved;
      None stands for a field left undefined. */
  datatype Draft = Draft(
    user: Option<UserId>,
    table: Option<TableId>,
    date: Option<DayKey>,
    timeSlot: Option<string>,
    numberOfGuests: Option<int>,
    status: Option<string>)

  /** Schema validation: the `required` fields, the two `enum`s, `min: 1`
      and the `default` status. None when Mongoose would reject the document. */
  function Validate(d: Draft, id: ReservationId, createdAt: Timestamp): (r: Option<Reservation>)
    ensures r.Some? <==>
      && d.user.Some? && d.table.Some? && d.date.Some?
      && d.timeSlot.Some? && d.timeSlot.value in TimeSlots
      && d.numberOfGuests.Some? && d.numberOfGuests.value >= 1
      && (d.status.None? || d.status.value in ["confirmed", "cancelled"])
    ensures r.Some? ==> ValidReservation(r.value)
    ensures r.Some? ==>
      && r.value.id == id && r.value.createdAt == createdAt
      && Some(r.value.user) == d.user && Some(r.value.table) == d.table
      && Some(r.value.date) == d.date && Some(r.value.timeSlot) == d.timeSlot
      && Some(r.value.numberOfGuests) == d.numberOfGuests
      && (if d.status.None? then r.value.status == DefaultStatus
          else StatusName(r.value.status) == d.status.value)
  {
    if d.user.None? || d.table.None? || d.date.None? then None
    else if d.timeSlot.None? || d.timeSlot.value !in TimeSlots then None
    else if d.numberOfGuests.None? || d.numberOfGuests.value < 1 then None
    else
      var status := if d.status.None? then Some(DefaultStatus) else ParseStatus(d.status.value);
      if status.None? then None
      else Some(Reservation(id, d.user.value, d.table.value, d.date.value, d.timeSlot.value,
                            d.numberOfGuests.value, status.value, createdAt))
  }

  /** A document the schema accepts with its status left out is `confirmed`. */
  lemma StatusDefaultsToConfirmed(d: Draft, id: ReservationId, createdAt: Timestamp)
    requires d.status.None?
    requires Validate(d, id, createdAt).Some?
    ensures Validate(d, id, createdAt).value.status == Confirmed
  {
  }

  /** The nine slots are distinct, start at 11:00 AM and end at 10:00 PM. */
  lemma TimeSlotsAreNineDistinct()
    ensures |TimeSlots| == 9
    ensures TimeSlots[0] == "11:00 AM" && TimeSlots[8] == "10:00 PM"
    ensures forall i, j :: 0 <= i < j < |TimeSlots| ==> TimeSlots[i] != TimeSlots[j]
  {
  }
}
