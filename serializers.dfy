/** The session and booking serializers (backend/marketplace/serializers.py):
    field validation, the derived read-only fields and the serialized forms. */
module Serializers {
  import opened Wrappers
  import opened Users
  import opened MarketplaceModels

  const FullyBooked := ApiError(400, "This session is fully booked.")
  const FieldRequired := ApiError(400, "This field is required.")
  const FieldBlank := ApiError(400, "This field may not be blank.")
  const TitleTooLong := ApiError(400, "Ensure this field has no more than 255 characters.")
  const NullCharacters := ApiError(400, "Null characters are not allowed.")
  const InvalidPrice := ApiError(400, "Ensure that there are no more than 8 digits before the decimal point.")
  const PriceTooManyDigits := ApiError(400, "Ensure that there are no more than 10 digits in total.")

  /** A price of 10^10 whole units or more has at least 11 digits however it
      is written, so `max_digits=10` refuses it before the whole-digit check. */
  const PriceDigitsBound: int := 1000000000000

  /** `CharField(max_length=255)` on the title. */
  const TitleMaxLength: nat := 255

  /** The bounds Django's integer columns give DRF's integer fields. */
  const IntMin: int := -2147483648
  const IntMax: int := 2147483647

  /** The decimal digits of `n`. */
  function NatText(n: nat): (t: string)
    ensures |t| >= 1 && forall i :: 0 <= i < |t| ==> '0' <= t[i] <= '9'
  {
    var d := ['0', '1', '2', '3', '4', '5', '6', '7', '8', '9'][n % 10];
    if n < 10 then [d] else NatText(n / 10) + [d]
  }

  /** Python's `str` of an integer. */
  function IntText(n: int): string
  {
    if n < 0 then "-" + NatText(-n) else NatText(n)
  }

  /** DRF's messages for an integer below `min_value` or above `max_value`. */
  function BelowMin(bound: int): ApiError
  {
    ApiError(400, "Ensure this value is greater than or equal to " + IntText(bound) + ".")
  }

  function AboveMax(bound: int): ApiError
  {
    ApiError(400, "Ensure this value is less than or equal to " + IntText(bound) + ".")
  }

  /** `PrimaryKeyRelatedField`'s message for a key that names no row. */
  function InvalidPk(pk: int): ApiError
  {
    ApiError(400, "Invalid pk \"" + IntText(pk) + "\" - object does not exist.")
  }

  /** Python's `str.isspace`. */
  predicate IsSpace(c: char)
  {
    c == ' ' || '\t' <= c <= '\r' || '\U{1C}' <= c <= '\U{1F}' || c == '\U{85}' || c == '\U{A0}' ||
    c == '\U{1680}' || '\U{2000}' <= c <= '\U{200A}' || c == '\U{2028}' || c == '\U{2029}' ||
    c == '\U{202F}' || c == '\U{205F}' || c == '\U{3000}'
  }

  /** `str.strip()`: the text without its leading and trailing whitespace. */
  function Trim(t: string): (r: string)
    ensures exists a, b ::
              0 <= a <= b <= |t| && r == t[a..b] &&
              (forall i :: 0 <= i < a ==> IsSpace(t[i])) && (forall i :: b <= i < |t| ==> IsSpace(t[i]))
    ensures r != [] ==> !IsSpace(r[0]) && !IsSpace(r[|r| - 1])
    ensures r == [] <==> forall i :: 0 <= i < |t| ==> IsSpace(t[i])
  {
    var a := TrimStart(t);
    var b := TrimEnd(t, a);
    t[a..b]
  }

  /** The number of leading whitespace characters. */
  function TrimStart(t: string): (a: nat)
    ensures a <= |t| && (forall i :: 0 <= i < a ==> IsSpace(t[i])) && (a < |t| ==> !IsSpace(t[a]))
  {
    if t == [] || !IsSpace(t[0]) then 0 else 1 + TrimStart(t[1..])
  }

  /** Where the trailing whitespace after position `a` begins. */
  function TrimEnd(t: string, a: nat): (b: nat)
    requires a <= |t|
    ensures a <= b <= |t| && (forall i :: b <= i < |t| ==> IsSpace(t[i])) && (b > a ==> !IsSpace(t[b - 1]))
    decreases |t|
  {
    if |t| == a || !IsSpace(t[|t| - 1]) then |t| else TrimEnd(t[..|t| - 1], a)
  }

  /** `BookingSerializer.validate_session`: a session with no spot left is
      refused, any other is passed through as it is. */
  function ValidateSession(s: Session, bookings: seq<Booking>): (r: Result<Session, ApiError>)
    ensures r.Err? <==> BookingCount(bookings, s.id) >= s.capacity
    ensures r.Err? ==> r.error == FullyBooked
    ensures r.Ok? ==> r.value == s
  {
    if AvailableSpots(s, bookings) <= 0 then Err(FullyBooked) else Ok(s)
  }

  /** `SessionSerializer.get_is_booked_by_user`: false without a request or for
      an unauthenticated user; otherwise whether a CONFIRMED booking by that
      user exists for the session. */
  predicate IsBookedByUser(request: Option<Principal>, s: Session, bookings: seq<Booking>)
    ensures IsBookedByUser(request, s, bookings) ==>
      request.Some? && IsAuthenticated(request.value) && HasBooking(bookings, request.value.user.id, s.id)
  {
    request.Some? && request.value.SignedIn? &&
    exists i :: 0 <= i < |bookings| && bookings[i].session == s.id &&
      bookings[i].user == request.value.user.id && bookings[i].status == Confirmed
  }

  /** What a client may send when creating a session. `creator` and
      `createdAt` are read-only: accepted in the payload and ignored. */
  datatype SessionPayload = SessionPayload(
    title: string,
    description: string,
    date: int,
    duration: int,
    capacity: int,
    priceCents: Option<int>,
    creator: Option<UserId>,
    createdAt: Option<int>)

  /** The validated data of a session: the writable fields only. */
  datatype SessionFields = SessionFields(
    title: string,
    description: string,
    date: int,
    duration: int,
    capacity: nat,
    priceCents: int)

  /** The title and description as `CharField` accepts them: non-blank once
      stripped, no null character, and a title of at most 255 characters. */
  predicate TextsValid(p: SessionPayload)
  {
    Trim(p.title) != [] && |Trim(p.title)| <= TitleMaxLength && '\0' !in Trim(p.title) &&
    Trim(p.description) != [] && '\0' !in Trim(p.description)
  }

  /** Duration and capacity within the bounds of their integer columns. */
  predicate CountsValid(p: SessionPayload)
  {
    IntMin <= p.duration <= IntMax && 0 <= p.capacity <= CapacityMax
  }

  /** At most 8 whole digits in the price, when one is given. */
  predicate PriceValid(p: SessionPayload)
  {
    p.priceCents.Some? ==> -PriceCentsBound < p.priceCents.value < PriceCentsBound
  }

  /** Field validation of `SessionSerializer`, field by field in the declared
      order: title and description are stripped, may not be blank and may not
      hold a null character, the title has at most 255 characters, duration
      and capacity lie within their integer columns, the price has at most
      10 digits of which at most 8 whole ones, and is 0 when absent. */
  function ValidateSessionPayload(p: SessionPayload): (r: Result<SessionFields, ApiError>)
    ensures r.Ok? <==> TextsValid(p) && CountsValid(p) && PriceValid(p)
    ensures Trim(p.title) == [] ==> r == Err(FieldBlank)
    ensures Trim(p.title) != [] && |Trim(p.title)| > TitleMaxLength ==> r == Err(TitleTooLong)
    ensures Trim(p.title) != [] && |Trim(p.title)| <= TitleMaxLength && '\0' in Trim(p.title) ==>
      r == Err(NullCharacters)
    ensures Trim(p.title) != [] && |Trim(p.title)| <= TitleMaxLength && '\0' !in Trim(p.title) &&
            Trim(p.description) != [] && '\0' in Trim(p.description) ==>
      r == Err(NullCharacters)
    ensures TextsValid(p) && CountsValid(p) && !PriceValid(p) ==>
      r == Err(if -PriceDigitsBound < p.priceCents.value < PriceDigitsBound then InvalidPrice else PriceTooManyDigits)
    ensures r.Ok? ==>
      r.value.title == Trim(p.title) && r.value.description == Trim(p.description) &&
      r.value.capacity == p.capacity && r.value.date == p.date && r.value.duration == p.duration
    ensures r.Ok? ==> r.value.priceCents == (if p.priceCents.Some? then p.priceCents.value else DefaultPriceCents)
  {
    var title, description := Trim(p.title), Trim(p.description);
    if title == [] then Err(FieldBlank)
    else if |title| > TitleMaxLength then Err(TitleTooLong)
    else if '\0' in title then Err(NullCharacters)
    else if description == [] then Err(FieldBlank)
    else if '\0' in description then Err(NullCharacters)
    else if p.duration < IntMin then Err(BelowMin(IntMin))
    else if p.duration > IntMax then Err(AboveMax(IntMax))
    else if p.capacity < 0 then Err(BelowMin(0))
    else if p.capacity > CapacityMax then Err(AboveMax(CapacityMax))
    else if p.priceCents.Some? && !(-PriceDigitsBound < p.priceCents.value < PriceDigitsBound) then Err(PriceTooManyDigits)
    else if p.priceCents.Some? && !(-PriceCentsBound < p.priceCents.value < PriceCentsBound) then Err(InvalidPrice)
    else
      var price := if p.priceCents.Some? then p.priceCents.value else DefaultPriceCents;
      Ok(SessionFields(title, description, p.date, p.duration, p.capacity, price))
  }

  /** What a client may send when booking. Only `session` is writable;
      `user`, `status` and `createdAt` are ignored. */
  datatype BookingPayload = BookingPayload(
    session: Option<int>,
    user: Option<UserId>,
    status: Option<Status>,
    createdAt: Option<int>)

  /** Field validation of `BookingSerializer`: the session key is required, must
      name an existing session, and that session must pass `validate_session`. */
  function ValidateBookingPayload(p: BookingPayload, sessions: seq<Session>, bookings: seq<Booking>)
    : (r: Result<Session, ApiError>)
    ensures p.session.None? ==> r == Err(FieldRequired)
    ensures p.session.Some? && FindSession(sessions, p.session.value).None? ==> r == Err(InvalidPk(p.session.value))
    ensures r.Ok? ==> r.value in sessions && Some(r.value.id) == p.session
    ensures r.Ok? ==> AvailableSpots(r.value, bookings) > 0
    ensures p.session.Some? && FindSession(sessions, p.session.value).Some? ==>
      r == ValidateSession(FindSession(sessions, p.session.value).value, bookings)
  {
    match p.session
    case None => Err(FieldRequired)
    case Some(sid) =>
      match FindSession(sessions, sid)
      case None => Err(InvalidPk(sid))
      case Some(s) => ValidateSession(s, bookings)
  }

  /** The serialized session. `creator` is reduced to the creator's key
      (the user serializer is not part of this model). */
  datatype SessionView = SessionView(
    id: SessionId,
    title: string,
    description: string,
    date: int,
    duration: int,
    capacity: nat,
    priceCents: int,
    creator: UserId,
    availableSpots: int,
    createdAt: int,
    isBookedByUser: bool)

  function SerializeSession(s: Session, bookings: seq<Booking>, request: Option<Principal>): (v: SessionView)
    ensures v.id == s.id && v.creator == s.creator && v.capacity == s.capacity
    ensures v.title == s.title && v.description == s.description && v.date == s.date
    ensures v.duration == s.duration && v.priceCents == s.priceCents && v.createdAt == s.createdAt
    ensures v.availableSpots == s.capacity - BookingCount(bookings, s.id)
    ensures v.isBookedByUser <==> IsBookedByUser(request, s, bookings)
    ensures v.isBookedByUser ==> request.Some? && request.value.SignedIn?
  {
    SessionView(s.id, s.title, s.description, s.date, s.duration, s.capacity, s.priceCents,
                s.creator, AvailableSpots(s, bookings), s.createdAt, IsBookedByUser(request, s, bookings))
  }

  /** The serialized booking. `user` is not among the serialized fields. */
  datatype BookingView = BookingView(
    id: BookingId,
    session: SessionId,
    sessionDetails: SessionView,
    status: Status,
    createdAt: int)

  /** `session_details` is the serialized form of the booking's own session. */
  function SerializeBooking(b: Booking, sessions: seq<Session>, bookings: seq<Booking>, request: Option<Principal>)
    : (r: Option<BookingView>)
    ensures r.Some? <==> FindSession(sessions, b.session).Some?
    ensures r.Some? ==>
      r.value.id == b.id && r.value.session == b.session &&
      r.value.sessionDetails.id == b.session && r.value.status == b.status
    ensures r.Some? ==>
      r.value.sessionDetails == SerializeSession(FindSession(sessions, b.session).value, bookings, request)
  {
    match FindSession(sessions, b.session)
    case None => None
    case Some(s) => Some(BookingView(b.id, b.session, SerializeSession(s, bookings, request), b.status, b.createdAt))
  }

  /** Without a request, or for an anonymous caller, nothing is reported booked. */
  lemma NotBookedWithoutUser(request: Option<Principal>, s: Session, bookings: seq<Booking>)
    requires request.None? || !request.value.SignedIn?
    ensures !IsBookedByUser(request, s, bookings)
  {
  }

  /** A CANCELLED booking is reported as not booked: with one booking per
      (user, session), a cancelled row leaves no confirmed one. */
  lemma CancelledIsNotBooked(u: User, s: Session, bookings: seq<Booking>, k: nat)
    requires UniquePairs(bookings)
    requires k < |bookings| && bookings[k].user == u.id && bookings[k].session == s.id
    requires bookings[k].status == Cancelled
    ensures !IsBookedByUser(Some(SignedIn(u)), s, bookings)
  {
  }

  /** A confirmed booking is reported as booked for its own user. */
  lemma ConfirmedIsBooked(u: User, s: Session, bookings: seq<Booking>, k: nat)
    requires k < |bookings| && bookings[k].user == u.id && bookings[k].session == s.id
    requires bookings[k].status == Confirmed
    ensures IsBookedByUser(Some(SignedIn(u)), s, bookings)
  {
  }
}
