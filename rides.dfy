/** The ride record of the booking backend, the values it is built from and
    the error values its operations report. */
module Rides {

  /** A calendar date (the record's createdDate), as a day number. */
  type Date = int

  /** An instant (the record's createdAt), on a fixed scale. */
  type Timestamp = int

  const REQUESTED: string := "REQUESTED"
  const ACCEPTED: string := "ACCEPTED"
  const COMPLETED: string := "COMPLETED"

  datatype Option<T> = None | Some(value: T)

  /** The failures the ride operations report, each with its message. */
  datatype Error =
    | NotFound(message: string)
    | InvalidState(message: string)
    | Forbidden(message: string)
    | Validation(message: string)

  datatype Result<T> = Ok(value: T) | Err(error: Error)

  /** A stored ride. driverUsername is absent until a driver accepts the ride. */
  datatype Ride = Ride(
    id: string,
    passengerUsername: string,
    driverUsername: Option<string>,
    pickupLocation: string,
    dropLocation: string,
    fare: real,
    distanceKm: real,
    status: string,
    createdDate: Date,
    createdAt: Timestamp)

  /** A ride as a client may send it in a request body: every field of the
      record may be present, the read-only ones included. */
  datatype RideJson = RideJson(
    id: Option<string>,
    passengerUsername: Option<string>,
    driverUsername: Option<string>,
    pickupLocation: string,
    dropLocation: string,
    fare: real,
    distanceKm: real,
    status: Option<string>,
    createdDate: Option<Date>,
    createdAt: Option<Timestamp>)

  /** What binding a request body keeps: the four client-writable fields. */
  datatype RideDraft = RideDraft(pickupLocation: string, dropLocation: string, fare: real, distanceKm: real)

  /** Request binding: every read-only field of the body is dropped. */
  function Bind(json: RideJson): RideDraft {
    RideDraft(json.pickupLocation, json.dropLocation, json.fare, json.distanceKm)
  }

  /** Two bodies that agree on the writable fields bind to the same draft,
      whatever they say about id, passenger, driver, status or timestamps. */
  lemma BindIgnoresReadOnlyFields(a: RideJson, b: RideJson)
    requires a.pickupLocation == b.pickupLocation && a.dropLocation == b.dropLocation
    requires a.fare == b.fare && a.distanceKm == b.distanceKm
    ensures Bind(a) == Bind(b)
  {
  }

  predicate KnownStatus(status: string) {
    status == REQUESTED || status == ACCEPTED || status == COMPLETED
  }

  /** The record invariant the lifecycle keeps: a known status, and a driver
      exactly when the ride has left REQUESTED. */
  predicate WellFormed(r: Ride) {
    && KnownStatus(r.status)
    && (r.driverUsername.None? <==> r.status == REQUESTED)
  }

  /** Position of a status along REQUESTED -> ACCEPTED -> COMPLETED. */
  function Rank(status: string): (n: nat)
    requires KnownStatus(status)
    ensures n <= 2
    ensures n == 0 <==> status == REQUESTED
    ensures n == 2 <==> status == COMPLETED
  {
    if status == REQUESTED then 0 else if status == ACCEPTED then 1 else 2
  }
}
