/** The session and booking endpoints (backend/marketplace/views.py): listings
    filtered by role and ordered by date, and the two create paths with their
    guards. The guards are functions; the inserts are methods on the tables. */
module MarketplaceViews {
  import opened Wrappers
  import opened Users
  import opened Permissions
  import opened MarketplaceModels
  import opened Serializers
  import opened Ordering
  import opened Collections
  import opened Database

  const NotAuthorized := ApiError(403, "Not authorized")
  const AlreadyBooked := ApiError(400, "You have already booked this session.")

  /** DRF's answer to a refused permission: 401 when no user is authenticated,
      403 otherwise. */
  function Denied(p: Principal): (e: ApiError)
    ensures e.status == (if IsAuthenticated(p) then 403 else 401)
  {
    if IsAuthenticated(p) then PermissionDenied else NotAuthenticated
  }

  /** `SessionViewSet.get_queryset`: every session, ordered by date. Reading is
      granted to everyone by `IsCreatorOrReadOnly`. */
  function ListSessions(sessions: seq<Session>): (r: seq<Session>)
    ensures SortedByDate(r)
    ensures multiset(r) == multiset(sessions)
  {
    SortByDate(sessions)
  }

  /** `my_sessions`: 401 without an authenticated user (`IsAuthenticated`),
      403 "Not authorized" for a role other than CREATOR, otherwise exactly
      the caller's sessions, ordered by date. */
  function MySessions(p: Principal, sessions: seq<Session>): (r: Result<seq<Session>, ApiError>)
    ensures !IsAuthenticated(p) ==> r == Err(NotAuthenticated)
    ensures IsAuthenticated(p) && p.user.role != RoleCreator ==> r == Err(NotAuthorized)
    ensures r.Ok? <==> IsCreatorGrants(p)
    ensures r.Ok? ==> SortedByDate(r.value)
    ensures r.Ok? ==> forall x :: x in r.value <==> x in sessions && x.creator == p.user.id
  {
    if !IsAuthenticated(p) then Err(NotAuthenticated)
    else if p.user.role != RoleCreator then Err(NotAuthorized)
    else
      var mine := Filter(sessions, (s: Session) => s.creator == p.user.id);
      FilterMembershipAll(sessions, (s: Session) => s.creator == p.user.id);
      SortKeepsRows(mine);
      Ok(SortByDate(mine))
  }

  /** Who may see a booking: a CREATOR sees the bookings on sessions they
      created, anyone else the bookings they made. */
  predicate BookingVisible(u: User, sessions: seq<Session>, b: Booking)
    ensures BookingVisible(u, sessions, b) && u.role != RoleCreator ==> b.user == u.id
    ensures BookingVisible(u, sessions, b) && u.role == RoleCreator ==> SessionExists(sessions, b.session)
  {
    if u.role == RoleCreator then CreatedBy(sessions, b.session, u.id) else b.user == u.id
  }

  /** `BookingViewSet.get_queryset`: the join on `session__creator` for a
      creator, the filter on `user` for everyone else. */
  function BookingQueryset(u: User, sessions: seq<Session>, bookings: seq<Booking>): (r: seq<Booking>)
    ensures forall b :: b in r <==> b in bookings && BookingVisible(u, sessions, b)
  {
    if u.role == RoleCreator then
      var onMine := (b: Booking) => CreatedBy(sessions, b.session, u.id);
      FilterMembershipAll(bookings, onMine);
      Filter(bookings, onMine)
    else
      var mine := (b: Booking) => b.user == u.id;
      FilterMembershipAll(bookings, mine);
      Filter(bookings, mine)
  }

  /** The booking list: only for authenticated users (`IsAuthenticated`). */
  function ListBookings(p: Principal, sessions: seq<Session>, bookings: seq<Booking>)
    : (r: Result<seq<Booking>, ApiError>)
    ensures r.Err? <==> !IsAuthenticated(p)
    ensures r.Err? ==> r.error == NotAuthenticated
    ensures r.Ok? ==> forall b :: b in r.value ==> b in bookings && BookingVisible(p.user, sessions, b)
  {
    if !IsAuthenticated(p) then Err(NotAuthenticated) else Ok(BookingQueryset(p.user, sessions, bookings))
  }

  /** A creator does not see a booking they made on somebody else's session. */
  lemma CreatorMissesOwnBookingElsewhere(u: User, sessions: seq<Session>, bookings: seq<Booking>, b: Booking, k: nat)
    requires Pairwise(sessions, SessionsApart)
    requires u.role == RoleCreator && b in bookings && b.user == u.id
    requires k < |sessions| && sessions[k].id == b.session && sessions[k].creator != u.id
    ensures b !in BookingQueryset(u, sessions, bookings)
  {
    if CreatedBy(sessions, b.session, u.id) {
      var j :| 0 <= j < |sessions| && sessions[j].id == b.session && sessions[j].creator == u.id;
    }
  }

  /** The checks of `POST /sessions/`: the write permission first, then the
      serializer's field validation. */
  function SessionGuard(p: Principal, payload: SessionPayload): (r: Result<SessionFields, ApiError>)
    ensures r.Ok? <==> IsCreatorGrants(p) && ValidateSessionPayload(payload).Ok?
    ensures !IsCreatorGrants(p) ==> r == Err(Denied(p))
    ensures r.Ok? ==> r == ValidateSessionPayload(payload)
  {
    if !IsCreatorOrReadOnlyGrants("POST", p) then Err(Denied(p)) else ValidateSessionPayload(payload)
  }

  /** The checks of `POST /bookings/`, in the framework's order: the
      permission, the serializer's field validation (session present, existing,
      not full), then the duplicate check of `perform_create`. */
  function BookingGuard(p: Principal, payload: BookingPayload, sessions: seq<Session>, bookings: seq<Booking>)
    : (r: Result<Session, ApiError>)
    ensures !IsAuthenticated(p) ==> r == Err(NotAuthenticated)
    ensures r.Ok? ==>
      IsAuthenticated(p) && r.value in sessions && payload.session == Some(r.value.id) &&
      BookingCount(bookings, r.value.id) < r.value.capacity && !HasBooking(bookings, p.user.id, r.value.id)
    ensures IsAuthenticated(p) && payload.session.Some? && FindSession(sessions, payload.session.value).Some? ==>
      var s := FindSession(sessions, payload.session.value).value;
      r == (if BookingCount(bookings, s.id) >= s.capacity then Err(FullyBooked)
            else if HasBooking(bookings, p.user.id, s.id) then Err(AlreadyBooked)
            else Ok(s))
  {
    if !IsAuthenticatedGrants(p) then Err(NotAuthenticated)
    else
      match ValidateBookingPayload(payload, sessions, bookings)
      case Err(e) => Err(e)
      case Ok(s) => if HasBooking(bookings, p.user.id, s.id) then Err(AlreadyBooked) else Ok(s)
  }

  /** Every session holds at most as many bookings as its capacity. */
  ghost predicate WithinCapacity(sessions: seq<Session>, bookings: seq<Booking>)
  {
    forall i :: 0 <= i < |sessions| ==> BookingCount(bookings, sessions[i].id) <= sessions[i].capacity
  }

  /** The create path preserves "bookings never exceed capacity": a booking
      passed by the guard fits in its session and leaves the others alone. */
  lemma CreatePathKeepsCapacity(p: Principal, payload: BookingPayload, sessions: seq<Session>,
                                bookings: seq<Booking>, b: Booking)
    requires Pairwise(sessions, SessionsApart)
    requires WithinCapacity(sessions, bookings)
    requires BookingGuard(p, payload, sessions, bookings).Ok?
    requires b.session == BookingGuard(p, payload, sessions, bookings).value.id
    ensures WithinCapacity(sessions, bookings + [b])
  {
    var s := BookingGuard(p, payload, sessions, bookings).value;
    forall i | 0 <= i < |sessions|
      ensures BookingCount(bookings + [b], sessions[i].id) <= sessions[i].capacity
    {
      BookingCountAppend(bookings, b, sessions[i].id);
      if sessions[i].id == s.id {
        var k :| 0 <= k < |sessions| && sessions[k] == s;
      }
    }
  }

  /** A cancelled booking still blocks rebooking the same session, while the
      session reports it as not booked by that user. */
  lemma CancelledBlocksRebooking(u: User, payload: BookingPayload, sessions: seq<Session>,
                                 bookings: seq<Booking>, k: nat)
    requires UniquePairs(bookings)
    requires k < |bookings| && bookings[k].user == u.id && bookings[k].status == Cancelled
    requires payload.session == Some(bookings[k].session)
    requires FindSession(sessions, bookings[k].session).Some?
    requires AvailableSpots(FindSession(sessions, bookings[k].session).value, bookings) > 0
    ensures BookingGuard(SignedIn(u), payload, sessions, bookings) == Err(AlreadyBooked)
    ensures !IsBookedByUser(Some(SignedIn(u)), FindSession(sessions, bookings[k].session).value, bookings)
  {
    var s := FindSession(sessions, bookings[k].session).value;
    assert HasBooking(bookings, u.id, s.id);
    CancelledIsNotBooked(u, s, bookings, k);
  }

  /** `SessionViewSet.create` with `perform_create`: the row is saved with the
      requesting user as creator, whatever the payload says. */
  method CreateSession(db: Db, p: Principal, payload: SessionPayload, now: int) returns (r: Result<Session, ApiError>)
    requires db.Valid()
    requires p.SignedIn? ==> p.user in db.users
    modifies db
    ensures db.Valid()
    ensures r.Ok? <==> SessionGuard(p, payload).Ok?
    ensures r.Err? ==> r.error == SessionGuard(p, payload).error
    ensures r.Err? ==> db.sessions == old(db.sessions) && db.nextSessionId == old(db.nextSessionId)
    ensures r.Ok? ==>
      var f := SessionGuard(p, payload).value;
      r.value == Session(old(db.nextSessionId), p.user.id, f.title, f.description, f.date, f.duration,
                         f.capacity, f.priceCents, now, now) &&
      db.sessions == old(db.sessions) + [r.value] && db.nextSessionId == old(db.nextSessionId) + 1
    ensures r.Ok? ==> r.value.creator == p.user.id && r.value.createdAt == now
    ensures db.users == old(db.users) && db.bookings == old(db.bookings)
    ensures db.nextUserId == old(db.nextUserId) && db.nextBookingId == old(db.nextBookingId)
  {
    var checked := SessionGuard(p, payload);
    if checked.Err? {
      return Err(checked.error);
    }
    var f := checked.value;
    var s := Session(db.nextSessionId, p.user.id, f.title, f.description, f.date, f.duration,
                     f.capacity, f.priceCents, now, now);
    InsertSessionKeepsTables(db.users, db.sessions, db.bookings, db.nextUserId, db.nextSessionId, db.nextBookingId, s);
    db.sessions := db.sessions + [s];
    db.nextSessionId := db.nextSessionId + 1;
    r := Ok(s);
  }

  /** `BookingViewSet.create` with `perform_create`: after the guard, a
      CONFIRMED row is saved for the requesting user; the payload's `user`
      and `status` are ignored. */
  method CreateBooking(db: Db, p: Principal, payload: BookingPayload, now: int) returns (r: Result<Booking, ApiError>)
    requires db.Valid()
    requires p.SignedIn? ==> p.user in db.users
    modifies db
    ensures db.Valid()
    ensures r.Ok? <==> BookingGuard(p, payload, old(db.sessions), old(db.bookings)).Ok?
    ensures r.Err? ==> r.error == BookingGuard(p, payload, old(db.sessions), old(db.bookings)).error
    ensures r.Err? ==> db.bookings == old(db.bookings) && db.nextBookingId == old(db.nextBookingId)
    ensures r.Ok? ==>
      r.value == Booking(old(db.nextBookingId), p.user.id,
                         BookingGuard(p, payload, old(db.sessions), old(db.bookings)).value.id, Confirmed, now) &&
      db.bookings == old(db.bookings) + [r.value] && db.nextBookingId == old(db.nextBookingId) + 1
    ensures r.Ok? ==>
      BookingCount(db.bookings, r.value.session) == BookingCount(old(db.bookings), r.value.session) + 1 &&
      BookingCount(db.bookings, r.value.session) <= BookingGuard(p, payload, old(db.sessions), old(db.bookings)).value.capacity
    ensures r.Ok? ==> forall sid :: sid != r.value.session ==> BookingCount(db.bookings, sid) == BookingCount(old(db.bookings), sid)
    ensures WithinCapacity(old(db.sessions), old(db.bookings)) ==> WithinCapacity(db.sessions, db.bookings)
    ensures db.users == old(db.users) && db.sessions == old(db.sessions)
    ensures db.nextUserId == old(db.nextUserId) && db.nextSessionId == old(db.nextSessionId)
  {
    var checked := BookingGuard(p, payload, db.sessions, db.bookings);
    if checked.Err? {
      return Err(checked.error);
    }
    var s := checked.value;
    var b := Booking(db.nextBookingId, p.user.id, s.id, DefaultStatus, now);
    InsertBookingKeepsTables(db.users, db.sessions, db.bookings, db.nextUserId, db.nextSessionId, db.nextBookingId, b);
    forall sid ensures BookingCount(db.bookings + [b], sid) == BookingCount(db.bookings, sid) + (if sid == s.id then 1 else 0) {
      BookingCountAppend(db.bookings, b, sid);
    }
    if WithinCapacity(db.sessions, db.bookings) {
      CreatePathKeepsCapacity(p, payload, db.sessions, db.bookings, b);
    }
    db.bookings := db.bookings + [b];
    db.nextBookingId := db.nextBookingId + 1;
    r := Ok(b);
  }
}
