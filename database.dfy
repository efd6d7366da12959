/** The three tables of the backend and the referential rules of their schema
    (backend/marketplace/models.py, backend/users/models.py): primary keys
    from increasing sequences, unique usernames, foreign keys, the
    (user, session) uniqueness of bookings and cascading deletes. */
module Database {
  import opened Wrappers
  import opened Users
  import opened MarketplaceModels
  import opened Collections

  predicate UsersApart(a: User, b: User)
  {
    a.id < b.id && a.username != b.username
  }

  predicate SessionsApart(a: Session, b: Session)
  {
    a.id < b.id
  }

  predicate BookingsApart(a: Booking, b: Booking)
  {
    a.id < b.id && DistinctPair(a, b)
  }

  predicate UserExists(users: seq<User>, uid: UserId)
  {
    exists i :: 0 <= i < |users| && users[i].id == uid
  }

  predicate SessionExists(sessions: seq<Session>, sid: SessionId)
  {
    exists i :: 0 <= i < |sessions| && sessions[i].id == sid
  }

  /** The creator of session `sid` is `uid` (the join `session__creator`). */
  predicate CreatedBy(sessions: seq<Session>, sid: SessionId, uid: UserId)
  {
    exists i :: 0 <= i < |sessions| && sessions[i].id == sid && sessions[i].creator == uid
  }

  /** The schema's constraints on a set of rows. */
  ghost predicate Tables(users: seq<User>, sessions: seq<Session>, bookings: seq<Booking>,
                         nextUserId: nat, nextSessionId: nat, nextBookingId: nat)
  {
    Pairwise(users, UsersApart) &&
    Pairwise(sessions, SessionsApart) &&
    Pairwise(bookings, BookingsApart) &&
    (forall i :: 0 <= i < |users| ==> users[i].id < nextUserId) &&
    (forall i :: 0 <= i < |sessions| ==> sessions[i].id < nextSessionId) &&
    (forall i :: 0 <= i < |bookings| ==> bookings[i].id < nextBookingId) &&
    SessionRefs(users, sessions) && BookingRefs(users, sessions, bookings)
  }

  /** Every session's creator is a user row. */
  ghost predicate SessionRefs(users: seq<User>, sessions: seq<Session>)
  {
    forall i :: 0 <= i < |sessions| ==> UserExists(users, sessions[i].creator)
  }

  /** Every booking points at a user row and a session row. */
  ghost predicate BookingRefs(users: seq<User>, sessions: seq<Session>, bookings: seq<Booking>)
  {
    forall i :: 0 <= i < |bookings| ==>
      UserExists(users, bookings[i].user) && SessionExists(sessions, bookings[i].session)
  }

  /** Rows kept by a filter still lie below the sequence's next key. */
  lemma FilterBelow<T>(s: seq<T>, p: T -> bool, key: T -> int, bound: int)
    requires forall i :: 0 <= i < |s| ==> key(s[i]) < bound
    ensures forall i :: 0 <= i < |Filter(s, p)| ==> key(Filter(s, p)[i]) < bound
  {
    forall i | 0 <= i < |Filter(s, p)| ensures key(Filter(s, p)[i]) < bound {
      FilterMembership(s, p, Filter(s, p)[i]);
    }
  }

  /** A session kept by a filter is still there to be referenced. */
  lemma KeptSessionExists(sessions: seq<Session>, p: Session -> bool, sid: SessionId)
    requires exists k :: 0 <= k < |sessions| && sessions[k].id == sid && p(sessions[k])
    ensures SessionExists(Filter(sessions, p), sid)
  {
    var k :| 0 <= k < |sessions| && sessions[k].id == sid && p(sessions[k]);
    FilterMembership(sessions, p, sessions[k]);
  }

  /** A user kept by a filter is still there to be referenced. */
  lemma KeptUserExists(users: seq<User>, p: User -> bool, uid: UserId)
    requires exists k :: 0 <= k < |users| && users[k].id == uid && p(users[k])
    ensures UserExists(Filter(users, p), uid)
  {
    var k :| 0 <= k < |users| && users[k].id == uid && p(users[k]);
    FilterMembership(users, p, users[k]);
  }

  function KeepSessionOtherThan(sid: SessionId): Session -> bool
  {
    (s: Session) => s.id != sid
  }

  function KeepBookingNotOn(sid: SessionId): Booking -> bool
  {
    (b: Booking) => b.session != sid
  }

  /** The cascade of a session delete leaves consistent tables. */
  lemma DeleteSessionKeepsTables(users: seq<User>, sessions: seq<Session>, bookings: seq<Booking>,
                                 nu: nat, ns: nat, nb: nat, sid: SessionId)
    requires Tables(users, sessions, bookings, nu, ns, nb)
    ensures Tables(users, Filter(sessions, KeepSessionOtherThan(sid)),
                   Filter(bookings, KeepBookingNotOn(sid)), nu, ns, nb)
  {
    var ps, pb := KeepSessionOtherThan(sid), KeepBookingNotOn(sid);
    var sessions', bookings' := Filter(sessions, ps), Filter(bookings, pb);
    FilterPairwise(sessions, ps, SessionsApart);
    FilterPairwise(bookings, pb, BookingsApart);
    FilterBelow(sessions, ps, (s: Session) => s.id, ns);
    FilterBelow(bookings, pb, (b: Booking) => b.id, nb);
    forall i | 0 <= i < |sessions'| ensures UserExists(users, sessions'[i].creator) {
      FilterMembership(sessions, ps, sessions'[i]);
    }
    forall i | 0 <= i < |bookings'|
      ensures UserExists(users, bookings'[i].user) && SessionExists(sessions', bookings'[i].session)
    {
      FilterMembership(bookings, pb, bookings'[i]);
      KeptSessionExists(sessions, ps, bookings'[i].session);
    }
  }

  function KeepUserOtherThan(uid: UserId): User -> bool
  {
    (u: User) => u.id != uid
  }

  function KeepSessionNotBy(uid: UserId): Session -> bool
  {
    (s: Session) => s.creator != uid
  }

  function KeepBookingNotOf(sessions: seq<Session>, uid: UserId): Booking -> bool
  {
    (b: Booking) => b.user != uid && !CreatedBy(sessions, b.session, uid)
  }

  /** The cascade of a user delete leaves consistent tables. */
  lemma DeleteUserKeepsTables(users: seq<User>, sessions: seq<Session>, bookings: seq<Booking>,
                              nu: nat, ns: nat, nb: nat, uid: UserId)
    requires Tables(users, sessions, bookings, nu, ns, nb)
    ensures Tables(Filter(users, KeepUserOtherThan(uid)), Filter(sessions, KeepSessionNotBy(uid)),
                   Filter(bookings, KeepBookingNotOf(sessions, uid)), nu, ns, nb)
  {
    var pu, ps, pb := KeepUserOtherThan(uid), KeepSessionNotBy(uid), KeepBookingNotOf(sessions, uid);
    var users', sessions', bookings' := Filter(users, pu), Filter(sessions, ps), Filter(bookings, pb);
    FilterPairwise(users, pu, UsersApart);
    FilterPairwise(sessions, ps, SessionsApart);
    FilterPairwise(bookings, pb, BookingsApart);
    FilterBelow(users, pu, (u: User) => u.id, nu);
    FilterBelow(sessions, ps, (s: Session) => s.id, ns);
    FilterBelow(bookings, pb, (b: Booking) => b.id, nb);
    forall i | 0 <= i < |sessions'| ensures UserExists(users', sessions'[i].creator) {
      FilterMembership(sessions, ps, sessions'[i]);
      KeptUserExists(users, pu, sessions'[i].creator);
    }
    forall i | 0 <= i < |bookings'|
      ensures UserExists(users', bookings'[i].user) && SessionExists(sessions', bookings'[i].session)
    {
      var b := bookings'[i];
      FilterMembership(bookings, pb, b);
      KeptUserExists(users, pu, b.user);
      var k :| 0 <= k < |sessions| && sessions[k].id == b.session;
      assert sessions[k].creator != uid;
      KeptSessionExists(sessions, ps, b.session);
    }
  }

  /** Inserting a user with the next key and an unused username keeps the
      tables consistent. */
  lemma InsertUserKeepsTables(users: seq<User>, sessions: seq<Session>, bookings: seq<Booking>,
                              nu: nat, ns: nat, nb: nat, u: User)
    requires Tables(users, sessions, bookings, nu, ns, nb)
    requires u.id == nu && forall i :: 0 <= i < |users| ==> users[i].username != u.username
    ensures Tables(users + [u], sessions, bookings, nu + 1, ns, nb)
  {
    AppendPairwise(users, u, UsersApart);
    var users' := users + [u];
    forall i | 0 <= i < |sessions| ensures UserExists(users', sessions[i].creator) {
      var k :| 0 <= k < |users| && users[k].id == sessions[i].creator;
      assert users'[k] == users[k];
    }
    forall i | 0 <= i < |bookings| ensures UserExists(users', bookings[i].user) {
      var k :| 0 <= k < |users| && users[k].id == bookings[i].user;
      assert users'[k] == users[k];
    }
  }

  /** Saving new values into the last user row, keeping its key and username,
      keeps the tables consistent. */
  lemma UpdateLastUserKeepsTables(users: seq<User>, sessions: seq<Session>, bookings: seq<Booking>,
                                  nu: nat, ns: nat, nb: nat, u: User)
    requires Tables(users, sessions, bookings, nu, ns, nb)
    requires |users| > 0 && u.id == users[|users| - 1].id && u.username == users[|users| - 1].username
    ensures Tables(users[|users| - 1 := u], sessions, bookings, nu, ns, nb)
  {
    var users' := users[|users| - 1 := u];
    forall i | 0 <= i < |sessions| ensures UserExists(users', sessions[i].creator) {
      var k :| 0 <= k < |users| && users[k].id == sessions[i].creator;
      assert users'[k].id == users[k].id;
    }
    forall i | 0 <= i < |bookings| ensures UserExists(users', bookings[i].user) {
      var k :| 0 <= k < |users| && users[k].id == bookings[i].user;
      assert users'[k].id == users[k].id;
    }
  }

  /** Inserting a session with the next key and an existing creator keeps the
      tables consistent. */
  lemma InsertSessionKeepsTables(users: seq<User>, sessions: seq<Session>, bookings: seq<Booking>,
                                 nu: nat, ns: nat, nb: nat, s: Session)
    requires Tables(users, sessions, bookings, nu, ns, nb)
    requires s.id == ns && s.creator in set u | u in users :: u.id
    ensures Tables(users, sessions + [s], bookings, nu, ns + 1, nb)
  {
    AppendPairwise(sessions, s, SessionsApart);
    var sessions' := sessions + [s];
    forall i | 0 <= i < |bookings| ensures SessionExists(sessions', bookings[i].session) {
      var k :| 0 <= k < |sessions| && sessions[k].id == bookings[i].session;
      assert sessions'[k] == sessions[k];
    }
  }

  /** Consistent tables hold at most one booking per (user, session). */
  lemma TablesHaveUniquePairs(users: seq<User>, sessions: seq<Session>, bookings: seq<Booking>,
                              nu: nat, ns: nat, nb: nat)
    requires Tables(users, sessions, bookings, nu, ns, nb)
    ensures UniquePairs(bookings)
  {
    forall i, j | 0 <= i < j < |bookings| ensures DistinctPair(bookings[i], bookings[j]) {
      assert BookingsApart(bookings[i], bookings[j]);
    }
  }

  /** Inserting a booking with the next key, existing references and a fresh
      (user, session) pair keeps the tables consistent. */
  lemma InsertBookingKeepsTables(users: seq<User>, sessions: seq<Session>, bookings: seq<Booking>,
                                 nu: nat, ns: nat, nb: nat, b: Booking)
    requires Tables(users, sessions, bookings, nu, ns, nb)
    requires b.id == nb && b.user in set u | u in users :: u.id
    requires b.session in set s | s in sessions :: s.id
    requires !HasBooking(bookings, b.user, b.session)
    ensures Tables(users, sessions, bookings + [b], nu, ns, nb + 1)
  {
    forall i | 0 <= i < |bookings| ensures BookingsApart(bookings[i], b) {
      assert !(bookings[i].user == b.user && bookings[i].session == b.session);
    }
    AppendPairwise(bookings, b, BookingsApart);
  }

  class Db {
    var users: seq<User>
    var sessions: seq<Session>
    var bookings: seq<Booking>
    var nextUserId: nat
    var nextSessionId: nat
    var nextBookingId: nat

    ghost predicate Valid()
      reads this
    {
      Tables(users, sessions, bookings, nextUserId, nextSessionId, nextBookingId)
    }

    constructor ()
      ensures Valid()
      ensures users == [] && sessions == [] && bookings == []
    {
      users, sessions, bookings := [], [], [];
      nextUserId, nextSessionId, nextBookingId := 1, 1, 1;
    }

    /** Deleting a session (`on_delete=CASCADE` on `Booking.session`) also
        deletes every booking of it. */
    method DeleteSession(sid: SessionId)
      requires Valid()
      modifies this
      ensures Valid()
      ensures sessions == Filter(old(sessions), KeepSessionOtherThan(sid))
      ensures bookings == Filter(old(bookings), KeepBookingNotOn(sid))
      ensures users == old(users)
      ensures forall i :: 0 <= i < |sessions| ==> sessions[i].id != sid
      ensures forall i :: 0 <= i < |bookings| ==> bookings[i].session != sid
      ensures nextUserId == old(nextUserId) && nextSessionId == old(nextSessionId)
      ensures nextBookingId == old(nextBookingId)
    {
      DeleteSessionKeepsTables(users, sessions, bookings, nextUserId, nextSessionId, nextBookingId, sid);
      var sessions' := Filter(sessions, KeepSessionOtherThan(sid));
      var bookings' := Filter(bookings, KeepBookingNotOn(sid));
      assert forall i :: 0 <= i < |sessions'| ==> KeepSessionOtherThan(sid)(sessions'[i]);
      assert forall i :: 0 <= i < |bookings'| ==> KeepBookingNotOn(sid)(bookings'[i]);
      sessions, bookings := sessions', bookings';
    }

    /** Deleting a user deletes the user's sessions (`Session.creator`), the
        bookings of those sessions and the user's own bookings
        (`Booking.user`), all by `on_delete=CASCADE`. */
    method DeleteUser(uid: UserId)
      requires Valid()
      modifies this
      ensures Valid()
      ensures users == Filter(old(users), KeepUserOtherThan(uid))
      ensures sessions == Filter(old(sessions), KeepSessionNotBy(uid))
      ensures bookings == Filter(old(bookings), KeepBookingNotOf(old(sessions), uid))
      ensures forall i :: 0 <= i < |users| ==> users[i].id != uid
      ensures forall i :: 0 <= i < |sessions| ==> sessions[i].creator != uid
      ensures forall i :: 0 <= i < |bookings| ==>
        bookings[i].user != uid && !CreatedBy(old(sessions), bookings[i].session, uid)
      ensures nextUserId == old(nextUserId) && nextSessionId == old(nextSessionId)
      ensures nextBookingId == old(nextBookingId)
    {
      DeleteUserKeepsTables(users, sessions, bookings, nextUserId, nextSessionId, nextBookingId, uid);
      var users' := Filter(users, KeepUserOtherThan(uid));
      var sessions' := Filter(sessions, KeepSessionNotBy(uid));
      var bookings' := Filter(bookings, KeepBookingNotOf(sessions, uid));
      assert forall i :: 0 <= i < |users'| ==> KeepUserOtherThan(uid)(users'[i]);
      assert forall i :: 0 <= i < |sessions'| ==> KeepSessionNotBy(uid)(sessions'[i]);
      assert forall i :: 0 <= i < |bookings'| ==> KeepBookingNotOf(sessions, uid)(bookings'[i]);
      users, sessions, bookings := users', sessions', bookings';
    }
  }
}
