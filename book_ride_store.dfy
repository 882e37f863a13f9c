/**
 * The handlers of controllers/BookRideController.js as they run: a store object whose
 * bookings and drivers tables each handler loads from, writes field by field and saves
 * back, and whose broadcast log records what io.emit sends. Each method is proved to do
 * exactly what the matching function of BookRide says, and to keep Inv.
 */
module BookRideStore {
  import opened Wrappers
  import opened BookingModel
  import DM = DriverModel
  import opened BookRide
  import opened BookRideProperties
  import DS = DriverSearch

  class BookingStore {
    var bookings: map<BookingId, Booking>
    var drivers: map<DriverId, DM.Driver>
    var nextId: nat
    var events: seq<Event>

    ghost function Snapshot(): Tables
      reads this
    {
      Tables(bookings, drivers, nextId)
    }

    ghost predicate Valid()
      reads this
    {
      Inv(Snapshot())
    }

    /** A store with no bookings over a table of valid drivers with unique emails. */
    constructor (initialDrivers: map<DriverId, DM.Driver>)
      requires forall did :: did in initialDrivers ==> DM.DriverValid(initialDrivers[did])
      requires DM.EmailsUnique(initialDrivers)
      requires DriverKeysCanonical(initialDrivers)
      ensures Valid() && Snapshot() == Initial(initialDrivers) && events == []
    {
      bookings, drivers, nextId, events := map[], initialDrivers, 0, [];
    }

    method PassengerBookingRequest(req: BookingRequest, now: int) returns (code: Code, id: BookingId)
      requires Valid()
      modifies this
      ensures Valid()
      ensures var r := CreateBooking(old(Snapshot()), req, now);
        code == r.code && Snapshot() == r.tables && events == old(events) + r.emitted
      ensures code == Ok ==> id == old(nextId) && id in bookings
    {
      CreatePreservesInv(Snapshot(), req, now);
      id := nextId;
      if !TruthyId(req.user) || !Truthy(req.pickUpLatitude) || !Truthy(req.pickUpLongitude)
         || !Truthy(req.dropOffLatitude) || !Truthy(req.dropOffLongitude) {
        return Invalid, id;
      }
      var booking := NewBooking(CanonicalId(req.user.value),
                                Location(req.pickUpLatitude.value, req.pickUpLongitude.value),
                                Location(req.dropOffLatitude.value, req.dropOffLongitude.value),
                                req.price, now);
      if req.hasThirdStop && Truthy(req.thirdStopLatitude) && Truthy(req.thirdStopLongitude) {
        booking := booking.(thirdStop := Some(Location(req.thirdStopLatitude.value, req.thirdStopLongitude.value)));
      }
      // newBooking.save(): validation rejects a user id that does not cast to an ObjectId
      // and a missing or negative price
      if !BookingValid(booking) {
        return ServerError, id;
      }
      bookings := bookings[id := booking];
      nextId := nextId + 1;
      code := Ok;
    }

    method AssignDriverToBooking(bookingId: BookingId, driverId: DriverId) returns (code: Code)
      requires Valid()
      modifies this
      ensures Valid()
      ensures var r := AssignDriver(old(Snapshot()), bookingId, driverId);
        code == r.code && Snapshot() == r.tables && events == old(events) + r.emitted
    {
      AssignPreservesInv(Snapshot(), bookingId, driverId);
      // DriverModel.findById throws on an id that is not an ObjectId
      if !IsObjectId(driverId) {
        return ServerError;
      }
      var key := CanonicalId(driverId);  // the ObjectId the id casts to
      if bookingId !in bookings || key !in drivers {
        return NotFound;
      }
      var booking := bookings[bookingId];
      var driver := drivers[key];
      booking := booking.(driver := Some(key));
      booking := booking.(status := Confirmed);
      bookings := bookings[bookingId := booking];
      driver := driver.(driverStatus := DM.Unavailable);
      drivers := drivers[key := driver];
      events := events + [BookingConfirmed(bookingId, key)];
      code := Ok;
    }

    method CancelBooking(bookingId: BookingId) returns (code: Code)
      requires Valid()
      modifies this
      ensures Valid()
      ensures var r := BookRide.CancelBooking(old(Snapshot()), bookingId);
        code == r.code && Snapshot() == r.tables && events == old(events) + r.emitted
    {
      CancelPreservesInv(Snapshot(), bookingId);
      if bookingId !in bookings {
        return NotFound;
      }
      var booking := bookings[bookingId];
      booking := booking.(status := Cancelled);
      bookings := bookings[bookingId := booking];
      if booking.driver.Some? && booking.driver.value in drivers {
        var driver := drivers[booking.driver.value];
        driver := driver.(driverStatus := DM.Available);
        drivers := drivers[booking.driver.value := driver];
      }
      events := events + [BookingCancelled(bookingId)];
      code := Ok;
    }

    method RequestDriverCancellation(bookingId: BookingId, driverId: Option<DriverId>) returns (code: Code)
      requires Valid()
      modifies this
      ensures Valid()
      ensures var r := BookRide.RequestDriverCancellation(old(Snapshot()), bookingId, driverId);
        code == r.code && Snapshot() == r.tables && events == old(events) + r.emitted
    {
      RequestPreservesInv(Snapshot(), bookingId, driverId);
      if bookingId !in bookings || bookings[bookingId].driver != driverId {
        return NotFound;
      }
      var booking := bookings[bookingId];
      booking := booking.(driverCancellationRequested := true);
      bookings := bookings[bookingId := booking];
      code := Ok;
    }

    /** The record updates of the acceptDriverCancellation socket handler. */
    method AcceptDriverCancellation(bookingId: BookingId, driverId: Option<DriverId>) returns (code: Code)
      requires Valid()
      modifies this
      ensures Valid()
      ensures var r := BookRide.AcceptDriverCancellation(old(Snapshot()), bookingId, driverId);
        code == r.code && Snapshot() == r.tables && events == old(events) + r.emitted
    {
      AcceptPreservesInv(Snapshot(), bookingId, driverId);
      if bookingId in bookings && bookings[bookingId].driverCancellationRequested
         && bookings[bookingId].driver == driverId {
        var newDrivers := drivers;
        if driverId.Some? && driverId.value in drivers {
          var driver := drivers[driverId.value];
          driver := driver.(driverStatus := DM.Available);
          newDrivers := drivers[driverId.value := driver];
        }
        var booking := bookings[bookingId];
        booking := booking.(driver := None);
        booking := booking.(driverCancellationRequested := false);
        booking := booking.(status := Pending);
        bookings, drivers := bookings[bookingId := booking], newDrivers;
        code := Ok;
      } else {
        code := Invalid;
      }
    }

    method DriverAtPickupLocation(bookingId: BookingId) returns (code: Code)
      requires Valid()
      modifies this
      ensures Valid()
      ensures var r := ArriveAtPickup(old(Snapshot()), bookingId);
        code == r.code && Snapshot() == r.tables && events == old(events) + r.emitted
    {
      ArrivePreservesInv(Snapshot(), bookingId);
      if bookingId !in bookings || bookings[bookingId].status != Confirmed || bookings[bookingId].driver.None? {
        return NotFound;
      }
      var booking := bookings[bookingId];
      booking := booking.(driverArrivedAtPickup := true);
      bookings := bookings[bookingId := booking];
      events := events + [DriverArrivedAtPickup(bookingId)];
      code := Ok;
    }

    method StartRide(bookingId: BookingId) returns (code: Code)
      requires Valid()
      modifies this
      ensures Valid()
      ensures var r := BookRide.StartRide(old(Snapshot()), bookingId);
        code == r.code && Snapshot() == r.tables && events == old(events) + r.emitted
    {
      StartPreservesInv(Snapshot(), bookingId);
      if bookingId !in bookings || !bookings[bookingId].driverArrivedAtPickup {
        return Invalid;
      }
      var booking := bookings[bookingId];
      booking := booking.(status := Ongoing);
      bookings := bookings[bookingId := booking];
      events := events + [RideStarted(bookingId)];
      code := Ok;
    }

    method EndRide(bookingId: BookingId) returns (code: Code)
      requires Valid()
      modifies this
      ensures Valid()
      ensures var r := BookRide.EndRide(old(Snapshot()), bookingId);
        code == r.code && Snapshot() == r.tables && events == old(events) + r.emitted
    {
      EndPreservesInv(Snapshot(), bookingId);
      if bookingId !in bookings || bookings[bookingId].status != Ongoing {
        return Invalid;
      }
      var booking := bookings[bookingId];
      booking := booking.(driverArrivedAtDropoff := true);
      booking := booking.(status := Completed);
      bookings := bookings[bookingId := booking];
      events := events + [RideEnded(bookingId)];
      code := Ok;
    }

    /**
     * searchDriversForBooking: 404 when the booking is missing; otherwise a search around
     * its pickup point, with the error branch ending the search (the corrected handler).
     * The locator answers only with stored drivers that are available, as the query
     * filters on `driverStatus`. The search reads the store and writes nothing to it.
     */
    method SearchDriversForBooking(bookingId: BookingId, locate: DS.Locator) returns (code: Code, outcome: DS.SearchOutcome)
      requires forall q, t :: locate(q, t).Drivers? ==> DM.AllAvailable(drivers, locate(q, t).ids)
      ensures code == NotFound <==> bookingId !in bookings
      ensures code == NotFound ==> outcome == DS.SearchOutcome([], DS.BookingNotFound, false)
      ensures code == Ok || code == NotFound
      ensures code == Ok ==>
        outcome == DS.Expected(bookingId, DS.QueryFor(bookings[bookingId].pickUpLocation), locate, true)
      ensures !outcome.crashed
      ensures code == Ok && outcome.reply.Found? ==> DM.AllAvailable(drivers, outcome.reply.drivers)
    {
      if bookingId !in bookings {
        return NotFound, DS.SearchOutcome([], DS.BookingNotFound, false);
      }
      var booking := bookings[bookingId];
      var q := DS.QueryFor(booking.pickUpLocation);
      outcome := DS.SearchAndSendAvailableDrivers(bookingId, q, locate, true);
      DS.OneResponseWhenEndingOnError(bookingId, q, locate);
      DS.FoundComesFromAPoll(bookingId, q, locate, true);
      code := Ok;
    }
  }
}
