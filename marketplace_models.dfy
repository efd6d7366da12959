/** Sessions and bookings (backend/marketplace/models.py). Timestamps are
    integers and prices integer cents. */
module MarketplaceModels {
  import opened Wrappers
  import opened Users
  import opened Collections

  type SessionId = nat
  type BookingId = nat

  /** `PositiveIntegerField` accepts 0 up to the PostgreSQL integer maximum. */
  const CapacityMax: int := 2147483647
  /** `DecimalField(max_digits=10, decimal_places=2)`: at most 8 whole digits. */
  const PriceCentsBound: int := 10000000000
  const DefaultPriceCents: int := 0

  datatype Session = Session(
    id: SessionId,
    creator: UserId,
    title: string,
    description: string,
    date: int,
    duration: int,        // minutes
    capacity: nat,
    priceCents: int,
    createdAt: int,
    updatedAt: int)

  /** STATUS_CHOICES. */
  datatype Status = Confirmed | Cancelled

  /** The status a booking row gets when none is given. */
  const DefaultStatus: Status := Confirmed

  datatype Booking = Booking(
    id: BookingId,
    user: UserId,
    session: SessionId,
    status: Status,
    createdAt: int)

  /** `session.bookings.count()`: every booking row pointing at the session,
      whatever its status. */
  function BookingCount(bookings: seq<Booking>, sid: SessionId): (n: nat)
    ensures n <= |bookings|
  {
    if bookings == [] then 0
    else (if bookings[0].session == sid then 1 else 0) + BookingCount(bookings[1..], sid)
  }

  /** The `available_spots` property. */
  function AvailableSpots(s: Session, bookings: seq<Booking>): (n: int)
    ensures s.capacity - |bookings| <= n <= s.capacity
  {
    s.capacity - BookingCount(bookings, s.id)
  }

  /** The row of the sessions table with primary key `sid`, if any. */
  function FindSession(sessions: seq<Session>, sid: int): (r: Option<Session>)
    ensures r.Some? <==> exists i :: 0 <= i < |sessions| && sessions[i].id == sid
    ensures r.Some? ==> r.value in sessions && r.value.id == sid
  {
    if sessions == [] then None
    else if sessions[0].id == sid then Some(sessions[0])
    else
      var r := FindSession(sessions[1..], sid);
      assert forall i :: 1 <= i < |sessions| ==> sessions[i] == sessions[1..][i - 1];
      assert r.Some? ==> r.value in sessions[1..];
      r
  }

  /** At most one booking per (user, session): `unique_together`. */
  ghost predicate UniquePairs(bookings: seq<Booking>)
  {
    Pairwise(bookings, DistinctPair)
  }

  predicate DistinctPair(a: Booking, b: Booking)
  {
    a.user != b.user || a.session != b.session
  }

  /** Some booking by `uid` for `sid` exists, of any status. */
  predicate HasBooking(bookings: seq<Booking>, uid: UserId, sid: SessionId)
  {
    exists i :: 0 <= i < |bookings| && bookings[i].user == uid && bookings[i].session == sid
  }

  /** Appending one row changes the count of its session by one and of no
      other session. */
  lemma {:induction false} BookingCountAppend(bookings: seq<Booking>, b: Booking, sid: SessionId)
    ensures BookingCount(bookings + [b], sid)
         == BookingCount(bookings, sid) + (if b.session == sid then 1 else 0)
  {
    if bookings == [] {
      assert [b][1..] == [];
    } else {
      assert (bookings + [b])[1..] == bookings[1..] + [b];
      BookingCountAppend(bookings[1..], b, sid);
    }
  }

  /** `available_spots` is capacity minus the bookings linked to the session:
      one more row for the session, whatever its status, takes one spot. */
  lemma AnyNewBookingTakesASpot(s: Session, bookings: seq<Booking>, b: Booking)
    requires b.session == s.id
    ensures AvailableSpots(s, bookings + [b]) == AvailableSpots(s, bookings) - 1
  {
    BookingCountAppend(bookings, b, s.id);
  }

  /** A cancelled booking still consumes a spot. */
  lemma CancelledBookingConsumesSpot(s: Session, bookings: seq<Booking>, id: BookingId, uid: UserId, at: int)
    ensures AvailableSpots(s, bookings + [Booking(id, uid, s.id, Cancelled, at)])
         == AvailableSpots(s, bookings) - 1
  {
    AnyNewBookingTakesASpot(s, bookings, Booking(id, uid, s.id, Cancelled, at));
  }

  /** Bookings of other sessions leave the spots untouched. */
  lemma OtherSessionsUnaffected(s: Session, bookings: seq<Booking>, b: Booking)
    requires b.session != s.id
    ensures AvailableSpots(s, bookings + [b]) == AvailableSpots(s, bookings)
  {
    BookingCountAppend(bookings, b, s.id);
  }

  /** The count is positive exactly when some booking for the session exists. */
  lemma {:induction false} CountPositiveIffBooked(bookings: seq<Booking>, sid: SessionId)
    ensures BookingCount(bookings, sid) > 0 <==>
            exists i :: 0 <= i < |bookings| && bookings[i].session == sid
  {
    if bookings != [] {
      CountPositiveIffBooked(bookings[1..], sid);
      if bookings[0].session != sid && BookingCount(bookings, sid) == 0 {
        forall i | 0 <= i < |bookings| ensures bookings[i].session != sid {
          if i > 0 { assert bookings[i] == bookings[1..][i - 1]; }
        }
      }
      if BookingCount(bookings[1..], sid) > 0 {
        var k :| 0 <= k < |bookings[1..]| && bookings[1..][k].session == sid;
        assert bookings[k + 1].session == sid;
      }
    }
  }
}
