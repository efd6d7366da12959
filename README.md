# Session marketplace: booking rules and token-refresh client

This project models the two stateful cores of a small marketplace. Creators publish
sessions. Users book them and sign in through a development login or OAuth.

- **The Django backend rules.** Three tables are held in one `Database.Db` object:
  users, sessions and bookings, each a sequence in id order. The invariant `Valid`
  covers unique ids, unique usernames, unique (user, session) bookings, id counters
  and foreign keys.
  - The views insert into these tables after their guards: session creation, booking
    creation and the development login.
  - Cascading deletes remove a session's bookings, and a user's sessions and bookings.
  - The pure parts are stated as functions: permission predicates, `available_spots`,
    the serializers' checks and fields, the role-filtered and date-ordered listings,
    and the OAuth redirect URL.
  - A failed request is a `Result` error carrying the HTTP status and the
    message text the backend puts in its error body (see "## Left out" for
    how the bodies are shaped).
- **The browser API client.** This is an axios instance with two hooks:
  - a request hook that attaches `Authorization: Bearer <access token>`;
  - a response hook that, on a 401, posts the refresh token once, stores the new
    access token and re-sends the request.

  `ApiClient.Client` holds the storage map, the default headers, the navigations,
  the requests sent and the refresh calls made. `ApiClient.RequestConfig` holds a
  request's headers and its `_retry` marker.

  Every path is specified by the pure functions `Dispatched` and `Handled`. Their
  contracts bound what one call can do: at most one refresh, at most one re-send,
  and the marker is never cleared. The lemmas state each exit of the hook.
  The network is given as its three replies: to the first send, to the refresh and
  to the re-send.

Role is modelled as a string, not a two-valued enum. The development login stores
whatever role the caller sends, and nothing checks it against the declared choices.

Prices are integer cents. Dates are integers. Tokens are opaque strings passed in.

A failed refresh rejects with the original 401 error, not the refresh error: the
`catch` block falls through to `return Promise.reject(error)`
(`frontend/src/services/api.js:48-55`). `ApiClient.FailedRefreshLogsOut` states this.

## Model

| member | source | states |
|---|---|---|
| Users.IsCreator | backend/users/models.py:15-17 | the `is_creator` property; a creator is never a USER |
| Users.NewUser | backend/users/models.py:9-10 | a new user has role USER, is not a creator and has no avatar |
| Users.Display | backend/users/models.py:12-13 | a user's string form is the username |
| Users.CreatorIffRole | backend/users/models.py:15-17 | `is_creator` holds exactly when the role is CREATOR |
| Permissions.IsCreatorGrants | backend/users/permissions.py:3-5 | `IsCreator.has_permission`; it never grants an unauthenticated caller |
| Permissions.IsCreatorOrReadOnlyGrants | backend/users/permissions.py:7-11 | `IsCreatorOrReadOnly.has_permission`; it grants only safe methods or an authenticated caller |
| Permissions.IsCreatorExactly | backend/users/permissions.py:3-5 | `IsCreator` grants iff there is an authenticated user with role CREATOR; never to a missing or anonymous user |
| Permissions.SafeMethodsAlwaysGranted | backend/users/permissions.py:9-10 | GET, HEAD and OPTIONS are granted to everyone, anonymous included |
| Permissions.WritesNeedCreator | backend/users/permissions.py:11 | any other method is granted iff the caller is a signed-in CREATOR |
| Permissions.IsCreatorImpliesReadOnlyVariant | backend/users/permissions.py:3-11 | whenever `IsCreator` grants, `IsCreatorOrReadOnly` grants for every method |
| Permissions.AnyCreatorMayWrite | backend/users/permissions.py:7-11 | a creator passes both the view-level check and the inherited object-level check for a write to a session another user created: there is no ownership check |
| MarketplaceModels.BookingCount | backend/marketplace/models.py:30 | `self.bookings.count()`: the rows pointing at the session, any status; never more than the table holds |
| MarketplaceModels.AvailableSpots | backend/marketplace/models.py:28-30 | `available_spots`: never above capacity, and at least capacity minus the size of the bookings table |
| MarketplaceModels.AnyNewBookingTakesASpot | backend/marketplace/models.py:28-30 | adding any booking on a session lowers its available spots by exactly one |
| MarketplaceModels.CancelledBookingConsumesSpot | backend/marketplace/models.py:28-30 | a CANCELLED booking lowers the available spots just as a confirmed one does |
| MarketplaceModels.OtherSessionsUnaffected | backend/marketplace/models.py:28-30 | a booking on another session leaves a session's available spots unchanged |
| MarketplaceModels.CountPositiveIffBooked | backend/marketplace/models.py:28-30 | a session's booking count is positive iff some booking references it |
| Database.TablesHaveUniquePairs | backend/marketplace/models.py:51-52 | consistent tables hold at most one booking per (user, session), the fact `Serializers.CancelledIsNotBooked` and `MarketplaceViews.CancelledBlocksRebooking` rely on |
| Database.InsertBookingKeepsTables | backend/marketplace/models.py:51-52 | inserting a booking for a pair not yet booked keeps ids, foreign keys and the one-booking-per-(user, session) rule |
| Database.Db.DeleteSession | backend/marketplace/models.py:43-47 | deleting a session removes exactly it and the bookings on it, keeps every other row and keeps the tables consistent |
| Database.Db.DeleteUser | backend/marketplace/models.py:6-10 | deleting a user removes the user, the user's sessions, their bookings and the bookings on those sessions, keeping the tables consistent |
| Serializers.ValidateSession | backend/marketplace/serializers.py:29-32 | fails with "This session is fully booked." exactly when no spot is left, and otherwise returns the session unchanged |
| Serializers.ValidateSessionPayload | backend/marketplace/models.py:11-21 | a payload is accepted iff the stripped title is non-blank, at most 255 characters and free of null characters, the stripped description is non-blank and free of null characters, duration and capacity fit their integer columns and the price has at most 8 whole digits; a blank title gives "This field may not be blank.", a long one "Ensure this field has no more than 255 characters.", a null character "Null characters are not allowed."; an over-large price gives the total-digits message from 11 whole digits on and the whole-digits message below that; the stored title and description are the stripped texts; a missing price becomes 0; creator and timestamps in the payload are ignored |
| Serializers.ValidateBookingPayload | backend/marketplace/serializers.py:26-32 | the session field is required ("This field is required."), must name an existing session (`Invalid pk "<key>" - object does not exist.` otherwise) and must then pass `validate_session`; an accepted session has a free spot; status and user in the payload are ignored |
| Serializers.IsBookedByUser | backend/marketplace/serializers.py:15-19 | `get_is_booked_by_user`; true only for an authenticated caller who has a booking on the session |
| Serializers.SerializeSession | backend/marketplace/serializers.py:5-19 | the view carries every field of the session unchanged, available spots as capacity minus the booking count, and is-booked exactly as `get_is_booked_by_user` gives it |
| Serializers.SerializeBooking | backend/marketplace/serializers.py:21-27 | the booking's `session_details` is the serialized form of its own session |
| Serializers.NotBookedWithoutUser | backend/marketplace/serializers.py:15-19 | with no request or an unauthenticated user, is-booked is false |
| Serializers.ConfirmedIsBooked | backend/marketplace/serializers.py:17-18 | a CONFIRMED booking by the caller makes is-booked true |
| Serializers.CancelledIsNotBooked | backend/marketplace/serializers.py:17-18 | when the caller's only booking on the session is CANCELLED, is-booked is false |
| Ordering.SortByDate | backend/marketplace/views.py:9 | the ordering is by date ascending and is a permutation of the rows |
| Ordering.SortKeepsRows | backend/marketplace/views.py:16-17 | ordering neither adds nor drops a session |
| MarketplaceViews.Denied | backend/marketplace/views.py:11 | a refused permission is 401 when no user is authenticated and 403 otherwise |
| MarketplaceViews.ListSessions | backend/marketplace/views.py:16-17 | the session list holds every session exactly as often as the table, ordered by date |
| MarketplaceViews.MySessions | backend/marketplace/views.py:19-25 | 401 for an anonymous caller, 403 "Not authorized" for a non-creator, otherwise exactly the caller's sessions ordered by date |
| MarketplaceViews.BookingVisible | backend/marketplace/views.py:31-36 | which booking a caller may see: a non-creator only their own, a creator only bookings on an existing session |
| MarketplaceViews.BookingQueryset | backend/marketplace/views.py:31-36 | a creator sees exactly the bookings on sessions they created; anyone else sees exactly their own bookings |
| MarketplaceViews.ListBookings | backend/marketplace/views.py:27-36 | 401 iff the caller is not authenticated; otherwise only bookings the caller's role may see |
| MarketplaceViews.CreatorMissesOwnBookingElsewhere | backend/marketplace/views.py:32-34 | a creator does not see a booking they made on another creator's session |
| MarketplaceViews.SessionGuard | backend/marketplace/views.py:11-14 | session creation passes iff the caller is a signed-in creator and the payload is valid; otherwise 401 or 403 |
| MarketplaceViews.BookingGuard | backend/marketplace/views.py:38-43 | booking creation needs authentication, then a valid payload with a free spot, then no earlier booking of any status by the caller; the full check comes before the duplicate check |
| MarketplaceViews.CreatePathKeepsCapacity | backend/marketplace/views.py:38-43 | a booking admitted by the create path keeps every session's booking count within its capacity |
| MarketplaceViews.CancelledBlocksRebooking | backend/marketplace/views.py:40-42 | a CANCELLED booking still blocks rebooking with "You have already booked this session.", although is-booked reads false |
| MarketplaceViews.CreateSession | backend/marketplace/views.py:13-14 | a created session is owned by the caller whatever the payload says, gets the next id and is appended; a refused one changes nothing |
| MarketplaceViews.CreateBooking | backend/marketplace/views.py:38-43 | a created booking is CONFIRMED, owned by the caller, raises that session's count by one and no other, and keeps count within capacity; a refused one changes nothing |
| Accounts.Me | backend/users/views.py:20-21 | the profile endpoint works on the requesting user, and 401 without one |
| Accounts.FindUser | backend/users/views.py:34 | the lookup half of `get_or_create`: a found row is in the table with that username, and no row has it when none is found |
| Accounts.RequestedRole | backend/users/views.py:29 | the requested role defaults to USER when absent |
| Accounts.MockLogin | backend/users/views.py:26-47 | missing or empty username gives 400 "Username required" and writes nothing; a username with a null character gives 500 and writes nothing; an existing user is returned with its stored role, unchanged; a new username is created as `Accounts.CreateUser` states; the response carries the tokens, stored role and username |
| Accounts.CreateUser | backend/users/views.py:34-38 | a username too long for its column gives 500 and writes nothing; a role the column cannot store (too long, or holding a null character) gives 500 after the USER row is committed; otherwise exactly one user is added with the requested role and an unusable password |
| Accounts.OAuthRedirect | backend/users/views.py:61-76 | the `Location` header: an unauthenticated caller goes to the auth-failed URL; otherwise to the login URL with access, refresh, role and username each passed through `iri_to_uri`; the header holds only characters `iri_to_uri` leaves alone |
| Accounts.EncodingKeepsSeparators | backend/users/views.py:68-76 | `iri_to_uri` yields only safe characters, and `&` and `=` occur in its output exactly when they occur in its input |
| Accounts.AllSafeUnchanged | backend/users/views.py:64 | a text of safe characters, such as the fixed URLs, passes through `iri_to_uri` unchanged |
| Accounts.IriToUriConcat | backend/users/views.py:68-76 | `iri_to_uri` of two texts joined is the two encodings joined |
| Accounts.QueryRoundTrip | backend/users/views.py:68-74 | reading back a query of four values without `&` yields exactly the four parameters in order |
| Accounts.RedirectRoundTrip | backend/users/views.py:68-76 | when no value contains `&`, reading the `Location` query back yields the four parameters in order, each with its encoded value |
| Accounts.QueryExtraParameter | backend/users/views.py:68-74 | an `&key=value` inside the last value of a query is read back as a truncated value plus an extra parameter |
| Accounts.AmpersandInUsernameAddsParameter | backend/users/views.py:68-76 | a username containing `&key=value` reaches the `Location` header with its `&` and `=` intact, and is read back as a truncated username plus an extra parameter |
| ApiClient.StoredToken | frontend/src/services/api.js:14-15 | a token counts as present iff its key is stored with a non-empty value |
| ApiClient.WithToken | frontend/src/services/api.js:14-18 | with a stored access token the Authorization header is `Bearer <token>` and every other header is kept; without one the headers are unchanged |
| ApiClient.Outgoing | frontend/src/services/api.js:5-18 | the sent headers are the defaults overridden by the request's own headers, then the request hook; URL and marker are kept |
| ApiClient.Dispatched | frontend/src/services/api.js:25-56 | a send appends this request to the wire; at most one more send, one refresh call and one redirect follow; an already-marked request has no other effect; the marker is never cleared |
| ApiClient.Handled | frontend/src/services/api.js:29-56 | only a 401 on an unmarked request is handled, and it sets the marker; every other error is rejected unchanged with no effect |
| ApiClient.Call | frontend/src/services/api.js:25-56 | one call makes one or two sends and at most one refresh call; an already-marked request makes one send and no refresh |
| ApiClient.SuccessPassesThrough | frontend/src/services/api.js:26-28 | a 2xx response is returned unchanged and the send is the only effect |
| ApiClient.OtherErrorsPassThrough | frontend/src/services/api.js:31-55 | a non-401 error, a network error with no response, or a 401 on a marked request is rejected untouched: no refresh, no storage change, no redirect |
| ApiClient.MissingRefreshTokenRedirects | frontend/src/services/api.js:34-39 | a 401 without a refresh token redirects to /login, makes no refresh call, leaves storage unchanged and rejects with the original error |
| ApiClient.RefreshedRequestIsResentOnce | frontend/src/services/api.js:40-46 | a refresh answered with 200 stores the new access token, sets the default header, re-sends the request exactly once, carrying the new token when it is non-empty (an empty token is falsy, so the request keeps the bearer header of its first send), and the re-send settles the call; a second 401 triggers no second refresh |
| ApiClient.FailedRefreshLogsOut | frontend/src/services/api.js:48-55 | a refresh that throws removes both tokens, redirects to /login and rejects with the original 401 error |
| ApiClient.OddRefreshStatusFallsThrough | frontend/src/services/api.js:43-55 | a refresh with a 2xx status other than 200 changes no storage, header or location and rejects with the original error |
| ApiClient.FirstSendCarriesStoredToken | frontend/src/services/api.js:14-16 | the first send carries the stored access token as a bearer header |
| ApiClient.ExpiredAccessTokenIsReplaced | frontend/src/services/api.js:29-46 | with an expired access token and a refresh token stored, a 401 leads to exactly one refresh call, the renewed token stored, the re-send authorised with it, no navigation, and the re-send's reply returned |
| ApiClient.ExpiredTokenScenario | frontend/src/services/api.js:29-46 | an expired access token with a valid refresh token ends with one refresh call, the new token stored, the re-send authorised with it, and the listing returned |
| ApiClient.Client.constructor | frontend/src/services/api.js:5-10 | a new instance has the JSON content type as its only configured default header, and nothing sent or redirected |
| ApiClient.Client.AttachToken | frontend/src/services/api.js:12-19 | the request hook sets the headers to `WithToken` of the old headers and the store |
| ApiClient.Client.Dispatch | frontend/src/services/api.js:25-28 | the new client state, request and outcome are exactly those of `Dispatched` |
| ApiClient.Client.HandleError | frontend/src/services/api.js:29-56 | the new client state, request and outcome are exactly those of `Handled` |
| ApiClient.Client.Request | frontend/src/services/api.js:25-56 | a call through the instance ends in exactly the state and outcome of `Call` |
| ApiClient.Client.Login | frontend/src/context/AuthContext.jsx:27-29 | logging in writes both tokens to storage |
| ApiClient.Client.Logout | frontend/src/context/AuthContext.jsx:33-37 | logging out removes both tokens and navigates to /login |

## Left out

- The React pages and components are not modelled. They are rendering and form state; their display rules only mirror `available_spots` and is-booked.
- The auth context's user state is not modelled, and neither is the `/auth/me/` fetch that follows mount and every login. ApiClient.Client.Login is only the two storage writes.
- Settings, URL routing and admin registration are not modelled. They are configuration with no behaviour of their own.
- JWT generation and signing are not modelled. Tokens are opaque strings passed in as parameters.
- The social-auth pipeline that signs the OAuth user in is not modelled. The authenticated principal is a parameter.
- backend/users/serializers.py is not part of this model. A session's `creator` is rendered as the creator's id.
- The generic retrieve, update and delete actions of the view sets are not modelled, apart from the cascading deletes on `Database.Db`.
- `MeView`'s update path is not modelled. Only `get_object` is.
- Serializers.ValidateSessionPayload: the payload always carries every field, so DRF's "This field is required." for a missing title, description, date, duration or capacity is not modelled. The date is an integer, so DRF's date-format errors are not modelled either.
- Serializers.ValidateSessionPayload: DRF checks every field and returns all failures at once, as a dict keyed by field name. The model returns only the first failure, in the declared field order.
- Serializers.ValidateSessionPayload: DRF's price message depends on how many digits the number is written with, which integer cents do not record. From 11 whole digits on, every spelling gets "Ensure that there are no more than 10 digits in total.", as the model gives. With 9 or 10 whole digits, the model gives the whole-digits message. That is what DRF sends for a number written with at most 10 digits, such as 123456789 or 123456789.5. A spelling with more digits, such as the JSON string "123456789.50", gets the total-digits message instead. More than two decimal places cannot be expressed in integer cents.
- Error bodies are not reproduced. DRF wraps field errors in a dict keyed by field name, and wraps a `ValidationError` raised in a view in a list. The model keeps only the message text.
- Accounts.MockLogin: a value PostgreSQL cannot store (too long for its column, or holding a null character) raises an unhandled database error. The model gives status 500 with Django's generic "Server Error (500)" text. With `DEBUG` on (the default in backend/config/settings.py:13), Django sends its technical error page instead.
- Serializers.ValidateBookingPayload: a session key of the wrong JSON type is not modelled, so DRF's "Incorrect type" message is not reproduced. The key is an integer. An explicit `"session": null` is not modelled either: DRF answers it with "This field may not be null.", while `None` in the model stands for an absent key.
- Accounts.RequestedRole: an explicit JSON `null` role is not modelled. The payload's role is either absent or a string.
- Percent-decoding of the redirect URL is not modelled. The query is read back by splitting on `&` and the first `=`, so values come back as `iri_to_uri` encoded them. A `%` is one of the characters `iri_to_uri` leaves alone, so a value that already holds an escape such as `%41` would decode to a different text; this is not modelled.
- The headers axios adds on its own are not modelled, such as `Accept: application/json, text/plain, */*` on every request. The default headers hold only what the instance configures.
- Concurrency is not modelled: neither concurrent 401s each triggering their own refresh, nor the race between the spot check, the duplicate check and the save. One request is processed at a time.
- Prices are integer cents and dates are integers. There is no decimal, floating-point or time-zone behaviour.
- Ordering.SortByDate: the model orders ties by table order, but the database leaves ties unspecified. So the contract states only "ordered by date and a permutation".
- The request hook's error handler is not modelled. It only re-rejects its error.
- The refresh call is not recorded as a send of the axios instance. It goes through the global axios and bypasses both hooks, so it is logged on its own.
