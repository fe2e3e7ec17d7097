/** A client of the store: a booking walkthrough from an empty store,
    proved from the handlers' contracts alone. */
module Scenarios {

  import opened JsValues
  import opened Responses
  import opened Schema
  import opened Database
  import opened Bookings
  import opened Admin

  /** One table, one booking, and a second customer turned away from the
      same slot. */
  method BookConflictCancel()
  {
    var store := new Store();
    var created := CreateTable(store, Admin, Some(1), Some(4));
    assert created == Ok(Table(0, 1, 4, true));

    // Day 20 at 7:00 PM for four, booked on day 19.
    var request := BookingRequest(Some(0), Some(20), "7:00 PM", Some(4));
    var first := CreateReservation(store, 7, request, 19, 1000);
    assert first.Ok? && first.value.status == Confirmed;

    var second := CreateReservation(store, 8, request, 19, 1001);
    assert second == Conflict(ConflictMessage);

    NotOfferedWhileHeld(store, first.value);
  }

  /** While the booking holds the table, the table is not offered and a
      stranger cannot cancel the booking. */
  method NotOfferedWhileHeld(store: Store, booked: Reservation)
    requires store.Valid()
    requires store.tables == [Table(0, 1, 4, true)] && store.reservations == [booked]
    requires booked == Reservation(0, 7, 0, 20, "7:00 PM", 4, Confirmed, 1000)
    modifies store
  {
    var offered := GetAvailableTables(store.State(), Some(20), "7:00 PM", Some(4));
    assert store.tables[0] !in offered.value by {
      assert Occupies(store.reservations[0], 20, "7:00 PM");
    }
    var stranger := CancelReservation(store, 8, booked.id);
    assert stranger == Forbidden(NotOwnerMessage);
    OwnerCancels(store, booked);
  }

  /** The owner cancels once and a second cancel is refused. */
  method OwnerCancels(store: Store, booked: Reservation)
    requires store.Valid()
    requires store.tables == [Table(0, 1, 4, true)] && store.reservations == [booked]
    requires booked == Reservation(0, 7, 0, 20, "7:00 PM", 4, Confirmed, 1000)
    modifies store
  {
    var cancelled := CancelReservation(store, 7, booked.id);
    assert cancelled.Ok? && cancelled.value.status == Cancelled;
    var again := CancelReservation(store, 7, booked.id);
    assert again == BadRequest(AlreadyCancelledMessage);
    OfferedAgain(store);
  }

  /** Once its only booking is cancelled, the table is offered again. */
  method OfferedAgain(store: Store)
    requires store.Valid()
    requires store.tables == [Table(0, 1, 4, true)] && |store.reservations| == 1
    requires store.reservations[0].status == Cancelled
    modifies store
  {
    var offered := GetAvailableTables(store.State(), Some(20), "7:00 PM", Some(4));
    assert store.tables[0] in offered.value by {
      assert !SlotTaken(store.reservations, 0, 20, "7:00 PM");
    }
    RefusalsOfAFreeSlot(store);
  }

  /** A party too large, then a deactivated table, on a slot nobody holds. */
  method RefusalsOfAFreeSlot(store: Store)
    requires store.Valid()
    requires store.tables == [Table(0, 1, 4, true)] && |store.reservations| == 1
    requires store.reservations[0].status == Cancelled
    modifies store
  {
    var request := BookingRequest(Some(0), Some(20), "7:00 PM", Some(5));
    var tooMany := CreateReservation(store, 7, request, 19, 1002);
    assert tooMany.BadRequest? && CapacityNamedIn(tooMany.message) == Some(4) by {
      CapacityMessageNamesCapacity(4);
    }

    var closed := UpdateTable(store, Admin, 0, None, Some(false));
    assert closed.Ok?;
    var refused := CreateReservation(store, 7, request.(numberOfGuests := Some(4)), 19, 1003);
    assert refused == BadRequest(TableInactiveMessage);
  }
}
