/** The account lifecycle of the backend: registration, e-mail verification,
    login, the bearer-token guard and the profile endpoint, over an in-memory
    users table. bcrypt, `crypto.randomBytes` and the JWT library are
    parameters: a hash function, the random bytes drawn, and a sign/decode
    pair with the current time in seconds. */
module Accounts {
  import opened Seqs
  import opened JsStrings
  import Hex

  const MIN_PASSWORD_LENGTH := 8
  /** `crypto.randomBytes(5)`: five bytes, ten hexadecimal characters. */
  const TOKEN_BYTES := 5
  /** `expiresIn: "1h"`. */
  const SESSION_SECONDS := 3600
  const BEARER := "Bearer "

  /** A row of the `users` table; `passwordHash` is the `password` column. */
  datatype User = User(id: nat, email: string, passwordHash: string, name: string,
                       verified: bool, admin: bool, token: string)

  /** The `msg` a handler answers with. */
  datatype Msg =
    | FieldsRequired | AlreadyRegistered | PasswordTooShort | Created
    | InvalidToken | Confirmed
    | CredentialsRequired | UnknownUser | NotConfirmed | WrongPassword
    | Unauthorized | InvalidOrExpired | UserNotFound

  /** The body `/api/auth/user` sends: `{_id, name, email, admin}`. */
  datatype UserInfo = UserInfo(id: nat, name: string, email: string, admin: bool)

  datatype Response =
    | Message(status: nat, msg: Msg)
    | SessionToken(token: string)   // 200 `{token}`
    | Profile(info: UserInfo)       // 200 `{_id, name, email, admin}`

  /** The claims of a session token: `userId` plus the `iat` and `exp` the
      JWT library adds (sections 4.1.4 and 4.1.6 of RFC 7519). */
  datatype Claims = Claims(userId: nat, iat: int, exp: int)

  datatype AuthResult = Denied(status: nat, msg: Msg) | Granted(claims: Claims)

  /** A request-body field is usable when it is there and not the empty
      string (JavaScript falsiness of a string field). */
  predicate Present(field: Option<string>)
  {
    field.Some? && field.value != ""
  }

  function HasEmail(email: string): User -> bool { (u: User) => u.email == email }
  function HasId(id: nat): User -> bool { (u: User) => u.id == id }
  function HoldsToken(token: string): User -> bool { (u: User) => u.token == token }

  predicate UniqueIds(users: seq<User>)
  {
    forall i, j :: 0 <= i < j < |users| ==> users[i].id != users[j].id
  }

  predicate UniqueEmails(users: seq<User>)
  {
    forall i, j :: 0 <= i < j < |users| ==> users[i].email != users[j].email
  }

  /** A record after its verification token has been redeemed. */
  function Confirm(u: User): User
  {
    u.(verified := true, token := "")
  }

  /** `UPDATE users SET verified = true, token = '' WHERE id = $3`. */
  function ConfirmById(users: seq<User>, id: nat): (r: seq<User>)
    ensures |r| == |users|
    ensures forall k :: 0 <= k < |users| ==>
      r[k] == (if users[k].id == id then Confirm(users[k]) else users[k])
  {
    if users == [] then []
    else [if users[0].id == id then Confirm(users[0]) else users[0]] + ConfirmById(users[1..], id)
  }

  /** With unique ids, the update by id touches exactly the one record. */
  lemma ConfirmByIdIsUpdate(users: seq<User>, i: nat)
    requires UniqueIds(users) && i < |users|
    ensures ConfirmById(users, users[i].id) == users[i := Confirm(users[i])]
  {
    var r := ConfirmById(users, users[i].id);
    forall k | 0 <= k < |users| ensures r[k] == users[i := Confirm(users[i])][k] {
      if k < i {
        assert users[k].id != users[i].id;
      } else if k > i {
        assert users[i].id != users[k].id;
      }
    }
  }

  /** Confirming a record keeps ids and emails unique, ids below the
      sequence, and the token held exactly while unconfirmed. */
  lemma ConfirmKeepsInvariant(users: seq<User>, i: nat, nextId: nat)
    requires i < |users| && UniqueIds(users) && UniqueEmails(users)
    requires forall u :: u in users ==> u.id < nextId
    requires forall u :: u in users ==> (u.verified <==> u.token == "")
    ensures var after := users[i := Confirm(users[i])];
      UniqueIds(after) && UniqueEmails(after)
      && (forall u :: u in after ==> u.id < nextId)
      && (forall u :: u in after ==> (u.verified <==> u.token == ""))
  {
    var after := users[i := Confirm(users[i])];
    forall u | u in after ensures u.id < nextId && (u.verified <==> u.token == "") {
      var k :| 0 <= k < |after| && after[k] == u;
      assert users[k] in users;
    }
  }

  /** Appending a record with a fresh id and email, holding a token while
      unconfirmed, keeps the table invariant with the sequence advanced. */
  lemma AppendKeepsInvariant(users: seq<User>, user: User, nextId: nat)
    requires UniqueIds(users) && UniqueEmails(users)
    requires forall u :: u in users ==> u.id < nextId
    requires forall u :: u in users ==> (u.verified <==> u.token == "")
    requires user.id == nextId && (user.verified <==> user.token == "")
    requires forall u :: u in users ==> u.email != user.email
    ensures var after := users + [user];
      UniqueIds(after) && UniqueEmails(after)
      && (forall u :: u in after ==> u.id < nextId + 1)
      && (forall u :: u in after ==> (u.verified <==> u.token == ""))
  {
    var after := users + [user];
    forall i, j | 0 <= i < j < |after|
      ensures after[i].id != after[j].id && after[i].email != after[j].email
    {
      assert after[i] in users;
      if j < |users| { assert after[j] == users[j]; }
    }
  }

  /** The claims `jwt.sign({userId}, secret, {expiresIn: "1h"})` issues at `now`. */
  function Issue(userId: nat, now: int): (c: Claims)
    ensures c.userId == userId && c.iat == now && c.exp - c.iat == SESSION_SECONDS
  {
    Claims(userId, now, now + SESSION_SECONDS)
  }

  /** `jwt.verify`: `decode` is the signature check (the claims if the
      signature is good); a token whose `exp` is not after `now` is expired. */
  function JwtVerify(token: string, decode: string -> Option<Claims>, now: int): (r: Option<Claims>)
    ensures r.Some? <==> decode(token).Some? && now < decode(token).value.exp
    ensures r.Some? ==> r == decode(token)
  {
    match decode(token)
    case None => None
    case Some(c) => if now < c.exp then Some(c) else None
  }

  /** What the JWT library guarantees of a sign/decode pair: a signed token is
      a non-empty string and decodes to the claims it was signed with. */
  ghost predicate JwtSound(sign: Claims -> string, decode: string -> Option<Claims>)
  {
    forall c :: sign(c) != "" && decode(sign(c)) == Some(c)
  }

  /** POST /api/auth/login: missing fields, unknown email, unconfirmed
      account, wrong password, in this order; then a one-hour session token.
      `compare` is `bcrypt.compare`; it is asked only about a confirmed
      account. */
  function Login(users: seq<User>, email: Option<string>, password: Option<string>,
                 compare: (string, string) -> bool, sign: Claims -> string, now: int): (r: Response)
    ensures !Present(email) || !Present(password) ==> r == Message(400, CredentialsRequired)
    ensures Present(email) && Present(password) ==>
      match Find(users, HasEmail(email.value))
      case None => r == Message(401, UnknownUser)
      case Some(u) =>
        if !u.verified then r == Message(401, NotConfirmed)
        else if !compare(password.value, u.passwordHash) then r == Message(401, WrongPassword)
        else r == SessionToken(sign(Issue(u.id, now)))
    ensures r.SessionToken? || (r.Message? && r.status in {400, 401})
  {
    if !Present(email) || !Present(password) then Message(400, CredentialsRequired)
    else match Find(users, HasEmail(email.value))
      case None => Message(401, UnknownUser)
      case Some(u) =>
        if !u.verified then Message(401, NotConfirmed)
        else if !compare(password.value, u.passwordHash) then Message(401, WrongPassword)
        else SessionToken(sign(Issue(u.id, now)))
  }

  /** A login succeeds exactly for the first record with that email when it
      is confirmed and the password matches its hash. */
  lemma LoginSucceedsExactly(users: seq<User>, email: string, password: string,
                             compare: (string, string) -> bool, sign: Claims -> string, now: int)
    requires email != "" && password != ""
    ensures Login(users, Some(email), Some(password), compare, sign, now).SessionToken?
        <==> exists i :: 0 <= i < |users| && users[i].email == email
               && (forall j :: 0 <= j < i ==> users[j].email != email)
               && users[i].verified && compare(password, users[i].passwordHash)
  {
    var f := FirstIndex(users, HasEmail(email));
    if f.Some? {
      var i := f.value;
      assert users[i].email == email;
      assert forall j :: 0 <= j < i ==> users[j].email != email by {
        forall j | 0 <= j < i ensures users[j].email != email {
          assert !HasEmail(email)(users[j]);
        }
      }
      assert Find(users, HasEmail(email)) == Some(users[i]);
    } else {
      forall k | 0 <= k < |users| ensures users[k].email != email {
        assert !HasEmail(email)(users[k]);
      }
    }
  }

  /** An unconfirmed account is refused whatever password is given and
      whatever the password check would say: the check is never consulted. */
  lemma LoginIgnoresPasswordOfUnconfirmed(users: seq<User>, email: string, p1: string, p2: string,
                                          c1: (string, string) -> bool, c2: (string, string) -> bool,
                                          sign: Claims -> string, now: int)
    requires email != "" && p1 != "" && p2 != ""
    requires Find(users, HasEmail(email)).Some? && !Find(users, HasEmail(email)).value.verified
    ensures Login(users, Some(email), Some(p1), c1, sign, now)
         == Login(users, Some(email), Some(p2), c2, sign, now)
         == Message(401, NotConfirmed)
  {
  }

  /** authenticateToken: the header with its first "Bearer " removed; no
      header or nothing left is 401, a token the JWT check refuses is 403. */
  function Authenticate(header: Option<string>, decode: string -> Option<Claims>, now: int): (r: AuthResult)
    ensures r == Denied(401, Unauthorized)
        <==> header.None? || RemoveFirst(header.value, BEARER) == ""
    ensures r == Denied(403, InvalidOrExpired)
        <==> header.Some? && RemoveFirst(header.value, BEARER) != ""
             && JwtVerify(RemoveFirst(header.value, BEARER), decode, now).None?
    ensures r.Granted? ==>
      header.Some? && JwtVerify(RemoveFirst(header.value, BEARER), decode, now) == Some(r.claims)
      && now < r.claims.exp
    ensures header.Some? && RemoveFirst(header.value, BEARER) != ""
            && JwtVerify(RemoveFirst(header.value, BEARER), decode, now).Some?
        ==> r == Granted(JwtVerify(RemoveFirst(header.value, BEARER), decode, now).value)
  {
    if header.None? then Denied(401, Unauthorized)
    else
      var token := RemoveFirst(header.value, BEARER);
      if token == "" then Denied(401, Unauthorized)
      else match JwtVerify(token, decode, now)
        case None => Denied(403, InvalidOrExpired)
        case Some(c) => Granted(c)
  }

  /** The projection `/api/auth/user` answers with: no hash, no token. */
  function Project(u: User): (info: UserInfo)
    ensures info.id == u.id && info.name == u.name && info.email == u.email && info.admin == u.admin
  {
    UserInfo(u.id, u.name, u.email, u.admin)
  }

  /** GET /api/auth/user behind authenticateToken. */
  function CurrentUser(users: seq<User>, header: Option<string>,
                       decode: string -> Option<Claims>, now: int): (r: Response)
    ensures r.Profile? ==>
      Authenticate(header, decode, now).Granted?
      && exists u :: u in users && u.id == Authenticate(header, decode, now).claims.userId
                  && r.info == Project(u)
    ensures r.Message? ==> r.status in {401, 403, 404}
    ensures r.Message? && r.status == 404 <==>
      Authenticate(header, decode, now).Granted?
      && forall u :: u in users ==> u.id != Authenticate(header, decode, now).claims.userId
    ensures !r.SessionToken?
    ensures Authenticate(header, decode, now).Denied? ==>
      r == Message(Authenticate(header, decode, now).status, Authenticate(header, decode, now).msg)
    ensures Authenticate(header, decode, now).Granted?
            && (exists u :: u in users && u.id == Authenticate(header, decode, now).claims.userId)
        ==> r.Profile?
  {
    match Authenticate(header, decode, now)
    case Denied(status, msg) => Message(status, msg)
    case Granted(c) =>
      match Find(users, HasId(c.userId))
      case None => Message(404, UserNotFound)
      case Some(u) => Profile(Project(u))
  }

  /** A session token from a successful login, sent back as
      "Bearer <token>" within the hour, yields the profile of the account that
      logged in; from the hour on it is refused with 403. */
  lemma SessionRoundTrip(users: seq<User>, email: string, password: string,
                         compare: (string, string) -> bool,
                         sign: Claims -> string, decode: string -> Option<Claims>,
                         now: int, later: int)
    requires JwtSound(sign, decode) && UniqueIds(users)
    requires email != "" && password != ""
    requires Login(users, Some(email), Some(password), compare, sign, now).SessionToken?
    ensures
      var header := Some(BEARER + Login(users, Some(email), Some(password), compare, sign, now).token);
      var u := Find(users, HasEmail(email)).value;
      CurrentUser(users, header, decode, later)
        == if later < now + SESSION_SECONDS then Profile(Project(u)) else Message(403, InvalidOrExpired)
  {
    var u := Find(users, HasEmail(email)).value;
    var claims := Issue(u.id, now);
    BearerSession(sign(claims), claims, decode, later);
    var i :| 0 <= i < |users| && users[i] == u;
    FindByUniqueId(users, i);
  }

  /** "Bearer " followed by a token whose signature decodes passes the
      guard exactly until the claims expire. */
  lemma BearerSession(token: string, claims: Claims, decode: string -> Option<Claims>, now: int)
    requires token != "" && decode(token) == Some(claims)
    ensures Authenticate(Some(BEARER + token), decode, now)
         == if now < claims.exp then Granted(claims) else Denied(403, InvalidOrExpired)
  {
    RemoveFirstOfPrefixed(BEARER, token);
  }

  /** The guard also accepts a header that is the bare token: when "Bearer "
      does not occur, nothing is removed and the whole header is checked. */
  lemma RawTokenPasses(token: string, claims: Claims, decode: string -> Option<Claims>, now: int)
    requires token != "" && IndexOf(token, BEARER).None?
    requires decode(token) == Some(claims) && now < claims.exp
    ensures Authenticate(Some(token), decode, now) == Granted(claims)
  {
    assert RemoveFirst(token, BEARER) == token;
  }

  /** With unique ids, looking a record up by its id finds that record. */
  lemma FindByUniqueId(users: seq<User>, i: nat)
    requires UniqueIds(users) && i < |users|
    ensures Find(users, HasId(users[i].id)) == Some(users[i])
  {
    var f := FirstIndex(users, HasId(users[i].id));
    assert HasId(users[i].id)(users[i]);
    assert f.Some? && f.value <= i;
  }

  /** Redeeming a token takes it from exactly one record: a token held by one
      record can be redeemed once. */
  lemma RedeemConsumesOneHolder(users: seq<User>, i: nat, token: string)
    requires i < |users| && users[i].token == token && token != ""
    ensures Count(users[i := Confirm(users[i])], HoldsToken(token)) + 1
         == Count(users, HoldsToken(token))
  {
    CountUpdate(users, i, Confirm(users[i]), HoldsToken(token));
  }

  lemma SecondRedemptionFails(users: seq<User>, i: nat, token: string)
    requires i < |users| && users[i].token == token && token != ""
    requires Count(users, HoldsToken(token)) == 1
    ensures FirstIndex(users[i := Confirm(users[i])], HoldsToken(token)).None?
  {
    RedeemConsumesOneHolder(users, i, token);
    var after := users[i := Confirm(users[i])];
    forall k | 0 <= k < |after| ensures !HoldsToken(token)(after[k]) {
      assert after[k] in after;
    }
  }

  /** The users table. Each method runs one handler to completion; the table
      is only ever changed by these methods, one request at a time. */
  class UserTable {
    var users: seq<User>
    /** The next value of the table's `id` sequence. */
    var nextId: nat

    /** Ids and emails are unique, ids come from the sequence, and a record
        holds a token exactly while it is unconfirmed. */
    ghost predicate Valid()
      reads this
    {
      UniqueIds(users) && UniqueEmails(users)
      && (forall u :: u in users ==> u.id < nextId)
      && (forall u :: u in users ==> (u.verified <==> u.token == ""))
    }

    constructor ()
      ensures Valid() && users == [] && nextId == 1
    {
      users := [];
      nextId := 1;
    }

    /** POST /api/auth/register. `hash` is `bcrypt.hash(·, 10)`, `random` the
        bytes `crypto.randomBytes(5)` drew, `mailSent` whether the
        verification email went out; a failed send is logged and ignored. */
    method Register(email: Option<string>, password: Option<string>, name: Option<string>,
                    hash: string -> string, random: seq<Hex.byte>, mailSent: bool)
      returns (r: Response)
      requires Valid()
      requires |random| == TOKEN_BYTES
      modifies this
      ensures Valid()
      ensures !Present(email) || !Present(password) || !Present(name) ==>
        r == Message(400, FieldsRequired) && users == old(users) && nextId == old(nextId)
      ensures Present(email) && Present(password) && Present(name) ==>
        if Any(old(users), HasEmail(email.value)) then
          r == Message(400, AlreadyRegistered) && users == old(users) && nextId == old(nextId)
        else if Utf16Length(Trim(password.value)) < MIN_PASSWORD_LENGTH then
          r == Message(400, PasswordTooShort) && users == old(users) && nextId == old(nextId)
        else
          r == Message(201, Created) && nextId == old(nextId) + 1 &&
          users == old(users) + [User(old(nextId), email.value, hash(password.value), name.value,
                                      false, false, Hex.Encode(random))]
      ensures r == Message(201, Created) ==>
        |users| == |old(users)| + 1 && |users[|users| - 1].token| == 2 * TOKEN_BYTES
        && Hex.IsHexString(users[|users| - 1].token)
    {
      if !Present(email) || !Present(password) || !Present(name) {
        return Message(400, FieldsRequired);
      }
      if Any(users, HasEmail(email.value)) {
        return Message(400, AlreadyRegistered);
      }
      if Utf16Length(Trim(password.value)) < MIN_PASSWORD_LENGTH {
        return Message(400, PasswordTooShort);
      }
      var hashed := hash(password.value);
      var token := Hex.Encode(random);
      var user := User(nextId, email.value, hashed, name.value, false, false, token);
      AnyIsExists(users, HasEmail(email.value));
      AppendKeepsInvariant(users, user, nextId);
      users := users + [user];
      nextId := nextId + 1;
      r := Message(201, Created);
    }

    /** GET /api/auth/verify/:token: confirms the first record holding the
        token and clears its token; nothing else changes. */
    method Verify(token: string) returns (r: Response)
      requires Valid()
      modifies this`users
      ensures Valid()
      ensures FirstIndex(old(users), HoldsToken(token)).None? ==>
        r == Message(401, InvalidToken) && users == old(users)
      ensures FirstIndex(old(users), HoldsToken(token)).Some? ==>
        var i := FirstIndex(old(users), HoldsToken(token)).value;
        r == Message(200, Confirmed) && users == old(users)[i := Confirm(old(users)[i])]
    {
      var found := FirstIndex(users, HoldsToken(token));
      if found.None? {
        return Message(401, InvalidToken);
      }
      var user := users[found.value];
      ConfirmByIdIsUpdate(users, found.value);
      users := ConfirmById(users, user.id);
      r := Message(200, Confirmed);
      ConfirmKeepsInvariant(old(users), found.value, nextId);
    }
  }

  /** The walk-through of a new account: registration is acknowledged with
      201, login is refused until the emailed token is redeemed, then login
      yields a session token whose bearer sees the account's profile. */
  method RegisterVerifyLogin(email: string, password: string, name: string,
                             hash: string -> string, compare: (string, string) -> bool,
                             random: seq<Hex.byte>,
                             sign: Claims -> string, decode: string -> Option<Claims>, now: int)
    returns (registered: Response, early: Response, confirmed: Response,
             login: Response, profile: Response)
    requires email != "" && name != "" && password != ""
    requires Utf16Length(Trim(password)) >= MIN_PASSWORD_LENGTH
    requires |random| == TOKEN_BYTES && compare(password, hash(password))
    requires JwtSound(sign, decode)
    ensures registered == Message(201, Created)
    ensures early == Message(401, NotConfirmed)
    ensures confirmed == Message(200, Confirmed)
    ensures login.SessionToken?
    ensures profile == Profile(UserInfo(1, name, email, false))
  {
    var table := new UserTable();
    registered := table.Register(Some(email), Some(password), Some(name), hash, random, true);
    early := Login(table.users, Some(email), Some(password), compare, sign, now);
    confirmed := table.Verify(Hex.Encode(random));
    login := Login(table.users, Some(email), Some(password), compare, sign, now);
    assert login == SessionToken(sign(Issue(1, now)));
    BearerSession(login.token, Issue(1, now), decode, now);
    FindByUniqueId(table.users, 0);
    profile := CurrentUser(table.users, Some(BEARER + login.token), decode, now);
  }
}
