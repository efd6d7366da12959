/** The account endpoints (backend/users/views.py): the current-user view, the
    development login with its get-or-create, and the redirect issued after
    OAuth. Token issuing is opaque: the two tokens are given as parameters. */
module Accounts {
  import opened Wrappers
  import opened Users
  import opened Collections
  import opened Database

  const UsernameRequired := ApiError(400, "Username required")
  /** A value PostgreSQL refuses (too long for its varchar column, or holding
      a null character, which no text column can store) raises a database
      error that nothing handles, so Django answers with its generic server
      error. */
  const ServerError := ApiError(500, "Server Error (500)")

  /** A string PostgreSQL can store in a varchar(width) column. */
  predicate Storable(s: string, width: nat)
  {
    |s| <= width && '\0' !in s
  }

  /** `MeView.get_object`: the requesting user, for authenticated callers. */
  function Me(p: Principal): (r: Result<User, ApiError>)
    ensures r.Ok? <==> IsAuthenticated(p)
    ensures r.Ok? ==> r.value == p.user
    ensures r.Err? ==> r.error == NotAuthenticated
  {
    if IsAuthenticated(p) then Ok(p.user) else Err(NotAuthenticated)
  }

  /** The body of a `POST /auth/mock-login/`; absent keys are `None`. */
  datatype LoginPayload = LoginPayload(username: Option<string>, role: Option<string>)

  /** The refresh and access tokens issued for a user. */
  datatype Tokens = Tokens(refresh: string, access: string)

  datatype LoginResponse = LoginResponse(refresh: string, access: string, role: string, username: string)

  /** `get(username=...)`: the row with that username, if any. */
  function FindUser(users: seq<User>, username: string): (r: Option<User>)
    ensures r.Some? ==> r.value in users && r.value.username == username
    ensures r.None? ==> forall i :: 0 <= i < |users| ==> users[i].username != username
  {
    if users == [] then None
    else if users[0].username == username then Some(users[0])
    else
      var r := FindUser(users[1..], username);
      assert forall i :: 1 <= i < |users| ==> users[i] == users[1..][i - 1];
      r
  }

  /** The role a login asks for: `USER` when the key is absent. */
  function RequestedRole(data: LoginPayload): (role: string)
    ensures data.role.None? ==> role == RoleUser
    ensures data.role.Some? ==> role == data.role.value
  {
    match data.role
    case None => RoleUser
    case Some(r) => r
  }

  /** `mock_login`. A missing or empty username is refused and nothing is
      written. A known username returns the stored row untouched, whatever role
      is asked for. A username with a null character is refused by the
      database already at the lookup. An unknown username inserts a row with
      model defaults, then sets the requested role and an unusable password
      and saves it. The role column is not checked against the two choices; a
      role the column cannot store makes the second save fail after the first
      insert has already been committed, leaving a USER row behind. */
  method MockLogin(db: Db, data: LoginPayload, tokens: Tokens) returns (r: Result<LoginResponse, ApiError>)
    requires db.Valid()
    modifies db
    ensures db.Valid()
    ensures db.sessions == old(db.sessions) && db.bookings == old(db.bookings)
    ensures db.nextSessionId == old(db.nextSessionId) && db.nextBookingId == old(db.nextBookingId)
    ensures data.username.None? || data.username == Some("") ==>
      r == Err(UsernameRequired) && db.users == old(db.users) && db.nextUserId == old(db.nextUserId)
    ensures data.username.Some? && data.username.value != "" && '\0' in data.username.value ==>
      r == Err(ServerError) && db.users == old(db.users) && db.nextUserId == old(db.nextUserId)
    ensures data.username.Some? && data.username.value != "" && '\0' !in data.username.value &&
            FindUser(old(db.users), data.username.value).Some? ==>
      var u := FindUser(old(db.users), data.username.value).value;
      r == Ok(LoginResponse(tokens.refresh, tokens.access, u.role, u.username)) &&
      db.users == old(db.users) && db.nextUserId == old(db.nextUserId)
    ensures data.username.Some? && data.username.value != "" && '\0' !in data.username.value &&
            FindUser(old(db.users), data.username.value).None? ==>
      var name, role := data.username.value, RequestedRole(data);
      if |name| > UsernameMaxLength then
        r == Err(ServerError) && db.users == old(db.users) && db.nextUserId == old(db.nextUserId)
      else if !Storable(role, RoleMaxLength) then
        r == Err(ServerError) && db.users == old(db.users) + [NewUser(old(db.nextUserId), name)] &&
        db.nextUserId == old(db.nextUserId) + 1
      else
        r == Ok(LoginResponse(tokens.refresh, tokens.access, role, name)) &&
        db.users == old(db.users) + [User(old(db.nextUserId), name, role, None, Unusable)] &&
        db.nextUserId == old(db.nextUserId) + 1
  {
    if data.username.None? || data.username.value == "" {
      return Err(UsernameRequired);
    }
    var name := data.username.value;
    var role := RequestedRole(data);
    if '\0' in name {
      return Err(ServerError);
    }
    var found := FindUser(db.users, name);
    if found.Some? {
      var u := found.value;
      return Ok(LoginResponse(tokens.refresh, tokens.access, u.role, u.username));
    }
    var created := CreateUser(db, name, role);
    match created
    case Err(e) => r := Err(e);
    case Ok(u) => r := Ok(LoginResponse(tokens.refresh, tokens.access, u.role, u.username));
  }

  /** The create half of `get_or_create` followed by the role update: the row
      is inserted with model defaults, then given the role and an unusable
      password and saved again. Each write fails when the database cannot
      store its values, and a failure of the second leaves the first in place. */
  method CreateUser(db: Db, name: string, role: string) returns (r: Result<User, ApiError>)
    requires db.Valid() && FindUser(db.users, name).None?
    modifies db
    ensures db.Valid()
    ensures db.sessions == old(db.sessions) && db.bookings == old(db.bookings)
    ensures db.nextSessionId == old(db.nextSessionId) && db.nextBookingId == old(db.nextBookingId)
    ensures
      if |name| > UsernameMaxLength then
        r == Err(ServerError) && db.users == old(db.users) && db.nextUserId == old(db.nextUserId)
      else if !Storable(role, RoleMaxLength) then
        r == Err(ServerError) && db.users == old(db.users) + [NewUser(old(db.nextUserId), name)] &&
        db.nextUserId == old(db.nextUserId) + 1
      else
        r == Ok(User(old(db.nextUserId), name, role, None, Unusable)) &&
        db.users == old(db.users) + [User(old(db.nextUserId), name, role, None, Unusable)] &&
        db.nextUserId == old(db.nextUserId) + 1
  {
    if |name| > UsernameMaxLength {
      return Err(ServerError);
    }
    var u := NewUser(db.nextUserId, name);
    InsertUserKeepsTables(db.users, db.sessions, db.bookings, db.nextUserId, db.nextSessionId, db.nextBookingId, u);
    db.users := db.users + [u];
    db.nextUserId := db.nextUserId + 1;
    if !Storable(role, RoleMaxLength) {
      return Err(ServerError);
    }
    u := u.(role := role, password := Unusable);
    UpdateLastUserKeepsTables(db.users, db.sessions, db.bookings, db.nextUserId, db.nextSessionId, db.nextBookingId, u);
    db.users := db.users[|db.users| - 1 := u];
    r := Ok(u);
  }

  const LoginUrl := "http://localhost/login"
  const AuthFailedUrl := LoginUrl + "?error=auth_failed"

  /** The query string the redirect builds, in the order access, refresh,
      role, username. */
  function Query(access: string, refresh: string, role: string, username: string): string
  {
    "access=" + access + ("&refresh=" + refresh + ("&role=" + role + ("&username=" + username)))
  }

  /** `oauth_complete`: the target handed to `redirect()`. The values are
      pasted into the f-string as they are. */
  function RedirectTarget(p: Principal, tokens: Tokens): string
  {
    if !IsAuthenticated(p) then AuthFailedUrl
    else LoginUrl + "?" + Query(tokens.access, tokens.refresh, p.user.role, p.user.username)
  }

  /** The `Location` header `redirect()` sends: its target passed through
      `iri_to_uri`. Each value arrives percent-encoded, except for the
      characters `iri_to_uri` leaves alone, `&` and `=` among them. */
  function OAuthRedirect(p: Principal, tokens: Tokens): (url: string)
    ensures !IsAuthenticated(p) ==> url == AuthFailedUrl
    ensures IsAuthenticated(p) ==>
      url == LoginUrl + "?" + Query(IriToUri(tokens.access), IriToUri(tokens.refresh),
                                    IriToUri(p.user.role), IriToUri(p.user.username))
    ensures forall i :: 0 <= i < |url| ==> UriSafe(url[i])
  {
    EncodingKeepsSeparators(RedirectTarget(p, tokens));
    if !IsAuthenticated(p) then
      AuthFailedUrlUnchanged();
      IriToUri(RedirectTarget(p, tokens))
    else
      EncodedRedirect(tokens.access, tokens.refresh, p.user.role, p.user.username);
      IriToUri(RedirectTarget(p, tokens))
  }

  /** The characters `iri_to_uri` leaves as they are: those Python's `quote`
      never encodes (ASCII letters, digits, `_.-~`) and Django's safe set
      `/#%[]=:;$&()+,!?*@'`. */
  predicate UriSafe(c: char)
  {
    // '#' to ';' and '?' to '[' are runs of safe characters in ASCII order
    c == '!' || '#' <= c <= ';' || c == '=' || '?' <= c <= '[' || c == ']' || c == '_' || 'a' <= c <= 'z' || c == '~'
  }

  /** The UTF-8 encoding of a character. */
  function Utf8(c: char): (bytes: seq<int>)
    ensures 1 <= |bytes| <= 4
    ensures forall i :: 0 <= i < |bytes| ==> 0 <= bytes[i] < 256
    ensures |bytes| == 1 <==> c as int < 0x80
  {
    var n := c as int;
    if n < 0x80 then [n]
    else if n < 0x800 then [0xC0 + n / 0x40, 0x80 + n % 0x40]
    else if n < 0x10000 then [0xE0 + n / 0x1000, 0x80 + n / 0x40 % 0x40, 0x80 + n % 0x40]
    else [0xF0 + n / 0x40000, 0x80 + n / 0x1000 % 0x40, 0x80 + n / 0x40 % 0x40, 0x80 + n % 0x40]
  }

  /** An upper-case hexadecimal digit, as `quote` writes escapes. */
  function HexDigit(d: int): (h: char)
    requires 0 <= d < 16
    ensures '0' <= h <= '9' || 'A' <= h <= 'F'
  {
    if d < 10 then ('0' as int + d) as char else ('A' as int + d - 10) as char
  }

  /** Bytes written as `%XX` escapes. */
  function Escape(bytes: seq<int>): (e: string)
    requires forall i :: 0 <= i < |bytes| ==> 0 <= bytes[i] < 256
    ensures |e| == 3 * |bytes|
    ensures forall i :: 0 <= i < |e| ==> e[i] == '%' || '0' <= e[i] <= '9' || 'A' <= e[i] <= 'F'
  {
    if bytes == [] then []
    else ['%', HexDigit(bytes[0] / 16), HexDigit(bytes[0] % 16)] + Escape(bytes[1..])
  }

  /** One character as `iri_to_uri` writes it: itself when safe, otherwise
      the escapes of its UTF-8 bytes. */
  function EncodeChar(c: char): (e: string)
    ensures |e| >= 1 && forall i :: 0 <= i < |e| ==> UriSafe(e[i])
    ensures UriSafe(c) <==> e == [c]
    ensures '&' in e <==> c == '&'
    ensures '=' in e <==> c == '='
  {
    if UriSafe(c) then [c] else Escape(Utf8(c))
  }

  /** Django's `iri_to_uri`: `quote` with Django's safe characters, applied
      character by character. */
  function IriToUri(s: string): string
  {
    Concat(seq(|s|, i requires 0 <= i < |s| => EncodeChar(s[i])))
  }

  /** The pieces written one after the other. */
  function Concat(pieces: seq<string>): string
  {
    if pieces == [] then [] else pieces[0] + Concat(pieces[1..])
  }

  lemma IriToUriEmpty()
    ensures IriToUri([]) == []
  {
  }

  lemma IriToUriCons(s: string)
    requires s != []
    ensures IriToUri(s) == EncodeChar(s[0]) + IriToUri(s[1..])
  {
    var pieces := seq(|s|, i requires 0 <= i < |s| => EncodeChar(s[i]));
    assert pieces[1..] == seq(|s[1..]|, i requires 0 <= i < |s[1..]| => EncodeChar(s[1..][i]));
  }

  /** Writing pieces out distributes over joining the lists of pieces. */
  lemma {:induction false} ConcatAppend(xs: seq<string>, ys: seq<string>)
    ensures Concat(xs + ys) == Concat(xs) + Concat(ys)
  {
    if xs == [] {
      assert xs + ys == ys;
    } else {
      assert (xs + ys)[0] == xs[0] && (xs + ys)[1..] == xs[1..] + ys;
      ConcatAppend(xs[1..], ys);
      Regroup(xs[0], Concat(xs[1..]), Concat(ys));
    }
  }

  /** `iri_to_uri` works character by character. */
  lemma IriToUriConcat(a: string, b: string)
    ensures IriToUri(a + b) == IriToUri(a) + IriToUri(b)
  {
    var pa := seq(|a|, i requires 0 <= i < |a| => EncodeChar(a[i]));
    var pb := seq(|b|, i requires 0 <= i < |b| => EncodeChar(b[i]));
    assert seq(|a + b|, i requires 0 <= i < |a + b| => EncodeChar((a + b)[i])) == pa + pb;
    ConcatAppend(pa, pb);
  }

  /** The encoded text holds only safe characters, and `&` and `=` occur in
      it exactly when they occur in the original: escapes are made of `%` and
      hexadecimal digits. */
  lemma {:induction false} EncodingKeepsSeparators(s: string)
    ensures forall i :: 0 <= i < |IriToUri(s)| ==> UriSafe(IriToUri(s)[i])
    ensures '&' in IriToUri(s) <==> '&' in s
    ensures '=' in IriToUri(s) <==> '=' in s
  {
    if s == [] {
      IriToUriEmpty();
    } else {
      EncodingKeepsSeparators(s[1..]);
      IriToUriCons(s);
      assert s == [s[0]] + s[1..];
    }
  }

  /** A text of safe characters passes through `iri_to_uri` unchanged. */
  lemma {:induction false} AllSafeUnchanged(s: string)
    requires forall i :: 0 <= i < |s| ==> UriSafe(s[i])
    ensures IriToUri(s) == s
  {
    if s == [] {
      IriToUriEmpty();
    } else {
      AllSafeUnchanged(s[1..]);
      IriToUriCons(s);
      assert [s[0]] + s[1..] == s;
    }
  }

  /** The fixed URLs are made of safe characters, so `iri_to_uri` leaves
      them as they are. */
  lemma LoginUrlUnchanged()
    ensures IriToUri(LoginUrl) == LoginUrl
  {
    AllSafeUnchanged(LoginUrl);
  }

  lemma AuthFailedUrlUnchanged()
    ensures IriToUri(AuthFailedUrl) == AuthFailedUrl
  {
    LoginUrlUnchanged();
    AllSafeUnchanged("?error=auth_failed");
    IriToUriConcat(LoginUrl, "?error=auth_failed");
  }

  lemma LoginPrefixUnchanged()
    ensures IriToUri(LoginUrl + "?access=") == LoginUrl + "?access="
  {
    LoginUrlUnchanged();
    AllSafeUnchanged("?access=");
    IriToUriConcat(LoginUrl, "?access=");
  }

  lemma KeysUnchanged()
    ensures IriToUri("&refresh=") == "&refresh="
    ensures IriToUri("&role=") == "&role="
    ensures IriToUri("&username=") == "&username="
  {
    AllSafeUnchanged("&refresh=");
    AllSafeUnchanged("&role=");
    AllSafeUnchanged("&username=");
  }

  /** The encoded redirect is the query of the encoded values: the fixed parts
      of the URL are all safe. */
  lemma EncodedRedirect(a: string, f: string, o: string, n: string)
    ensures IriToUri(LoginUrl + "?" + Query(a, f, o, n)) ==
      LoginUrl + "?" + Query(IriToUri(a), IriToUri(f), IriToUri(o), IriToUri(n))
  {
    var head := LoginUrl + "?access=";
    LoginPrefixUnchanged();
    EncodedTail(f, o, n);
    EncodedBetween(head, a, "&refresh=" + f + ("&role=" + o + ("&username=" + n)));
    RedirectShape(a, f, o, n);
    RedirectShape(IriToUri(a), IriToUri(f), IriToUri(o), IriToUri(n));
  }

  /** The redirect URL regrouped around the access token. */
  lemma RedirectShape(a: string, f: string, o: string, n: string)
    ensures LoginUrl + "?" + Query(a, f, o, n) ==
      LoginUrl + "?access=" + a + ("&refresh=" + f + ("&role=" + o + ("&username=" + n)))
  {
  }

  /** The query after the access token. */
  lemma EncodedTail(f: string, o: string, n: string)
    ensures IriToUri("&refresh=" + f + ("&role=" + o + ("&username=" + n))) ==
      "&refresh=" + IriToUri(f) + ("&role=" + IriToUri(o) + ("&username=" + IriToUri(n)))
  {
    KeysUnchanged();
    EncodedAfter("&username=", n);
    EncodedBetween("&role=", o, "&username=" + n);
    EncodedBetween("&refresh=", f, "&role=" + o + ("&username=" + n));
  }

  /** A safe key followed by a value: only the value changes. */
  lemma EncodedAfter(key: string, v: string)
    requires IriToUri(key) == key
    ensures IriToUri(key + v) == key + IriToUri(v)
  {
    IriToUriConcat(key, v);
  }

  /** A safe key, a value, and a rest: the key is kept. */
  lemma EncodedBetween(key: string, v: string, rest: string)
    requires IriToUri(key) == key
    ensures IriToUri(key + v + rest) == key + IriToUri(v) + IriToUri(rest)
  {
    IriToUriConcat(key + v, rest);
    IriToUriConcat(key, v);
  }

  /** A stand-in reader of the query string: cut at every `&`, then each
      piece at its first `=`. It does no percent-decoding. */
  function QueryParams(q: string): seq<(string, string)>
  {
    var parts := SplitOn(q, '&');
    seq(|parts|, i requires 0 <= i < |parts| => KeyValue(parts[i]))
  }

  /** The pieces of `s` between occurrences of `sep`. */
  function SplitOn(s: string, sep: char): (r: seq<string>)
    ensures |r| >= 1
  {
    if s == [] then [""]
    else
      var rest := SplitOn(s[1..], sep);
      if s[0] == sep then [""] + rest else [[s[0]] + rest[0]] + rest[1..]
  }

  /** A `key=value` piece cut at its first `=`; a piece without one is a key
      with an empty value. */
  function KeyValue(piece: string): (string, string)
  {
    if piece == [] then ("", "")
    else if piece[0] == '=' then ("", piece[1..])
    else
      var kv := KeyValue(piece[1..]);
      ([piece[0]] + kv.0, kv.1)
  }

  lemma {:induction false} SplitOnJoin(a: string, b: string, sep: char)
    requires sep !in a
    ensures SplitOn(a + [sep] + b, sep) == [a] + SplitOn(b, sep)
  {
    if a == [] {
      assert ([sep] + b)[1..] == b;
    } else {
      assert (a + [sep] + b)[1..] == a[1..] + [sep] + b;
      SplitOnJoin(a[1..], b, sep);
      assert [a[0]] + a[1..] == a;
    }
  }

  lemma {:induction false} SplitOnWhole(a: string, sep: char)
    requires sep !in a
    ensures SplitOn(a, sep) == [a]
  {
    if a != [] {
      SplitOnWhole(a[1..], sep);
      assert [a[0]] + a[1..] == a;
    }
  }

  lemma {:induction false} KeyValueSplit(k: string, v: string)
    requires '=' !in k
    ensures KeyValue(k + "=" + v) == (k, v)
  {
    if k == [] {
      assert ("=" + v)[1..] == v;
    } else {
      assert (k + "=" + v)[1..] == k[1..] + "=" + v;
      KeyValueSplit(k[1..], v);
      assert [k[0]] + k[1..] == k;
    }
  }

  /** A query string built from `key=value` pairs joined by `&`, as the
      redirect builds it. */
  function Join(kvs: seq<(string, string)>): string
    requires |kvs| >= 1
  {
    if |kvs| == 1 then kvs[0].0 + "=" + kvs[0].1
    else kvs[0].0 + "=" + kvs[0].1 + "&" + Join(kvs[1..])
  }

  /** Pairs that survive the trip: no `&` anywhere, no `=` in a key. */
  predicate Unambiguous(kvs: seq<(string, string)>)
  {
    forall i :: 0 <= i < |kvs| ==> '&' !in kvs[i].0 && '&' !in kvs[i].1 && '=' !in kvs[i].0
  }

  lemma {:induction false} SplitJoin(kvs: seq<(string, string)>)
    requires |kvs| >= 1 && Unambiguous(kvs)
    ensures SplitOn(Join(kvs), '&') == seq(|kvs|, i requires 0 <= i < |kvs| => kvs[i].0 + "=" + kvs[i].1)
  {
    var first := kvs[0].0 + "=" + kvs[0].1;
    assert '&' !in first;
    if |kvs| == 1 {
      SplitOnWhole(first, '&');
    } else {
      var rest := kvs[1..];
      assert Unambiguous(rest) by {
        forall i | 0 <= i < |rest| ensures '&' !in rest[i].0 && '&' !in rest[i].1 && '=' !in rest[i].0 {
          assert rest[i] == kvs[i + 1];
        }
      }
      SplitJoin(rest);
      assert Join(kvs) == first + ['&'] + Join(rest);
      SplitOnJoin(first, Join(rest), '&');
    }
  }

  /** Reading back a query built from unambiguous pairs gives the pairs. */
  lemma JoinRoundTrip(kvs: seq<(string, string)>)
    requires |kvs| >= 1 && Unambiguous(kvs)
    ensures QueryParams(Join(kvs)) == kvs
  {
    SplitJoin(kvs);
    forall i | 0 <= i < |kvs| ensures KeyValue(kvs[i].0 + "=" + kvs[i].1) == kvs[i] {
      KeyValueSplit(kvs[i].0, kvs[i].1);
    }
  }

  lemma JoinCons(kv: (string, string), rest: seq<(string, string)>)
    requires |rest| >= 1
    ensures Join([kv] + rest) == kv.0 + "=" + kv.1 + "&" + Join(rest)
  {
    assert ([kv] + rest)[1..] == rest;
  }

  /** One more pair in front of a joined query. */
  lemma JoinStep(key: string, v: string, rest: seq<(string, string)>)
    requires |rest| >= 1
    ensures "&" + Join([(key, v)] + rest) == "&" + key + "=" + v + ("&" + Join(rest))
  {
    JoinCons((key, v), rest);
    var pair, tail := key + "=" + v, Join(rest);
    Regroup("&", pair + "&", tail);
    Regroup("&", pair, "&");
    Regroup("&" + pair, "&", tail);
    Regroup("&", key + "=", v);
    Regroup("&", key, "=");
  }

  lemma Regroup(x: string, y: string, z: string)
    ensures x + (y + z) == x + y + z
  {
  }

  /** The redirect's query is the four pairs joined. */
  lemma QueryIsJoin(a: string, f: string, o: string, n: string, kvs: seq<(string, string)>)
    requires kvs == [("access", a), ("refresh", f), ("role", o), ("username", n)]
    ensures Join(kvs) == Query(a, f, o, n)
  {
    assert kvs[3..] == [("username", n)];
    assert "&" + Join(kvs[3..]) == "&username=" + n;
    assert [("role", o)] + kvs[3..] == kvs[2..];
    JoinStep("role", o, kvs[3..]);
    assert "&" + "role" + "=" == "&role=";
    assert [("refresh", f)] + kvs[2..] == kvs[1..];
    JoinStep("refresh", f, kvs[2..]);
    assert "&" + "refresh" + "=" == "&refresh=";
    JoinCons(kvs[0], kvs[1..]);
    assert [kvs[0]] + kvs[1..] == kvs;
    assert "access" + "=" == "access=";
    assert Join(kvs) == "access=" + a + ("&" + Join(kvs[1..]));
  }

  /** The query part of a successful redirect. */
  lemma QueryOfRedirect(p: Principal, tokens: Tokens)
    requires IsAuthenticated(p)
    ensures |OAuthRedirect(p, tokens)| > |LoginUrl|
    ensures OAuthRedirect(p, tokens)[|LoginUrl| + 1..] ==
      Query(IriToUri(tokens.access), IriToUri(tokens.refresh), IriToUri(p.user.role), IriToUri(p.user.username))
  {
    var q := Query(IriToUri(tokens.access), IriToUri(tokens.refresh), IriToUri(p.user.role), IriToUri(p.user.username));
    assert (LoginUrl + "?" + q)[|LoginUrl| + 1..] == q;
  }

  /** Reading back a query of four values gives the four pairs, when no value
      contains `&` (an `=` inside a value is harmless: only the first one of a
      piece separates key and value). */
  lemma QueryRoundTrip(a: string, f: string, o: string, n: string)
    requires '&' !in a && '&' !in f && '&' !in o && '&' !in n
    ensures QueryParams(Query(a, f, o, n)) == [("access", a), ("refresh", f), ("role", o), ("username", n)]
  {
    var kvs := [("access", a), ("refresh", f), ("role", o), ("username", n)];
    assert Unambiguous(kvs);
    JoinRoundTrip(kvs);
    QueryIsJoin(a, f, o, n, kvs);
  }

  /** Read back from the `Location` header, the four parameters come out in
      order, each holding its encoded value, when no value contains `&`. */
  lemma RedirectRoundTrip(p: Principal, tokens: Tokens)
    requires IsAuthenticated(p)
    requires '&' !in tokens.access && '&' !in tokens.refresh && '&' !in p.user.role && '&' !in p.user.username
    ensures QueryParams(OAuthRedirect(p, tokens)[|LoginUrl| + 1..]) ==
      [("access", IriToUri(tokens.access)), ("refresh", IriToUri(tokens.refresh)),
       ("role", IriToUri(p.user.role)), ("username", IriToUri(p.user.username))]
  {
    EncodingKeepsSeparators(tokens.access);
    EncodingKeepsSeparators(tokens.refresh);
    EncodingKeepsSeparators(p.user.role);
    EncodingKeepsSeparators(p.user.username);
    QueryOfRedirect(p, tokens);
    QueryRoundTrip(IriToUri(tokens.access), IriToUri(tokens.refresh), IriToUri(p.user.role), IriToUri(p.user.username));
  }

  /** Joining pairs only depends on the string of the last part. */
  lemma {:induction false} JoinSameTail(prefix: seq<(string, string)>, x: seq<(string, string)>, y: seq<(string, string)>)
    requires |x| >= 1 && |y| >= 1 && Join(x) == Join(y)
    ensures Join(prefix + x) == Join(prefix + y)
  {
    if prefix != [] {
      JoinSameTail(prefix[1..], x, y);
      assert prefix + x == [prefix[0]] + (prefix[1..] + x);
      assert prefix + y == [prefix[0]] + (prefix[1..] + y);
      JoinCons(prefix[0], prefix[1..] + x);
      JoinCons(prefix[0], prefix[1..] + y);
    } else {
      assert prefix + x == x && prefix + y == y;
    }
  }

  lemma UsernameSplits(name: string, key: string, value: string, username: string)
    requires username == name + "&" + key + "=" + value
    ensures Join([("username", username)]) == Join([("username", name), (key, value)])
  {
    JoinCons(("username", name), [(key, value)]);
    assert [("username", name)] + [(key, value)] == [("username", name), (key, value)];
  }

  /** `iri_to_uri` keeps the `&` and `=` of a username. */
  lemma EncodedUsername(name: string, key: string, value: string)
    ensures IriToUri(name + "&" + key + "=" + value) ==
      IriToUri(name) + "&" + IriToUri(key) + "=" + IriToUri(value)
  {
    AllSafeUnchanged("&");
    AllSafeUnchanged("=");
    IriToUriConcat(name + "&" + key + "=", value);
    IriToUriConcat(name + "&" + key, "=");
    IriToUriConcat(name + "&", key);
    IriToUriConcat(name, "&");
  }

  /** An `&` inside the last value of a query adds a parameter on reading. */
  lemma QueryExtraParameter(a: string, f: string, o: string, name: string, key: string, value: string)
    requires '&' !in a && '&' !in f && '&' !in o
    requires '&' !in name && '&' !in key && '&' !in value && '=' !in key
    ensures QueryParams(Query(a, f, o, name + "&" + key + "=" + value)) ==
      [("access", a), ("refresh", f), ("role", o), ("username", name), (key, value)]
  {
    var username := name + "&" + key + "=" + value;
    var prefix := [("access", a), ("refresh", f), ("role", o)];
    var kvs := prefix + [("username", name), (key, value)];
    assert Unambiguous(kvs) by {
      forall i | 0 <= i < |kvs| ensures '&' !in kvs[i].0 && '&' !in kvs[i].1 && '=' !in kvs[i].0 {
        if i == 4 { assert kvs[i] == (key, value); }
      }
    }
    JoinRoundTrip(kvs);
    QueryIsJoin(a, f, o, username, prefix + [("username", username)]);
    UsernameSplits(name, key, value, username);
    JoinSameTail(prefix, [("username", username)], [("username", name), (key, value)]);
  }

  /** `iri_to_uri` leaves `&` and `=` alone, so what follows an `&` in a
      username is read as one more parameter, which the redirect never meant
      to send (a username such as `eve&role=CREATOR` yields a second `role`). */
  lemma AmpersandInUsernameAddsParameter(p: Principal, tokens: Tokens, name: string, key: string, value: string)
    requires IsAuthenticated(p)
    requires '&' !in tokens.access && '&' !in tokens.refresh && '&' !in p.user.role
    requires '&' !in name && '&' !in key && '&' !in value && '=' !in key
    requires p.user.username == name + "&" + key + "=" + value
    ensures QueryParams(OAuthRedirect(p, tokens)[|LoginUrl| + 1..]) ==
      [("access", IriToUri(tokens.access)), ("refresh", IriToUri(tokens.refresh)), ("role", IriToUri(p.user.role)),
       ("username", IriToUri(name)), (IriToUri(key), IriToUri(value))]
  {
    EncodingKeepsSeparators(tokens.access);
    EncodingKeepsSeparators(tokens.refresh);
    EncodingKeepsSeparators(p.user.role);
    EncodingKeepsSeparators(name);
    EncodingKeepsSeparators(key);
    EncodingKeepsSeparators(value);
    EncodedUsername(name, key, value);
    QueryOfRedirect(p, tokens);
    QueryExtraParameter(IriToUri(tokens.access), IriToUri(tokens.refresh), IriToUri(p.user.role),
                        IriToUri(name), IriToUri(key), IriToUri(value));
  }
}
