/** services/user_service.py: registration with unique email and username,
    lookup by email, login by password or by refresh token, and resolving the
    bearer token of a request to its user. The hash, the signer and the
    EmailStr check are parameters; `now` is the clock reading in seconds. */
module UserService {
  import opened Wrappers
  import opened Models
  import opened Schemas
  import opened Dao
  import BaseService
  import Utils

  // ---------------------------------------------------------------------
  // add_new, get_by_email

  /** add_new: an email that is already registered is a 400, then a
      username that is already taken is a 400, both before anything is
      written; otherwise BaseService.add_new. */
  method Register(db: Database, data: NewUser) returns (r: Result<UserView, Fault>)
    requires db.Valid()
    modifies db
    ensures db.Valid()
    ensures old(db.UserByEmail(data.email)).Some? ==> r == Err(BadRequest) && unchanged(db)
    ensures old(db.UserByEmail(data.email)).None? && old(db.UserByUsername(data.username)).Some? ==>
      r == Err(BadRequest) && unchanged(db)
    ensures r.Ok? <==>
      old(db.UserByEmail(data.email)).None? && old(db.UserByUsername(data.username)).None? && NewUserFits(data)
    ensures r.Err? ==> r.error == BadRequest && db.users == old(db.users)
    ensures r.Ok? ==> r.value.id !in old(db.users)
    ensures r.Ok? ==> db.users == old(db.users)[r.value.id := BuildUser(r.value.id, data)]
    ensures r.Ok? ==> db.UserByEmail(data.email) == Some(BuildUser(r.value.id, data))
    ensures db.posts == old(db.posts) && db.likes == old(db.likes) && db.nextPostId == old(db.nextPostId)
    ensures old(db.UniqueAccounts()) ==> db.UniqueAccounts()
    ensures old(db.NoSelfLikes()) ==> db.NoSelfLikes()
    ensures old(db.UserByEmail(data.email)).None? && old(db.UserByUsername(data.username)).None? ==>
      db.nextUserId == old(db.nextUserId) + 1
  {
    var byEmail := db.UserByEmail(data.email);
    if byEmail.Some? {
      return Err(BadRequest);
    }
    var byName := db.UserByUsername(data.username);
    if byName.Some? {
      return Err(BadRequest);
    }
    r := InsertFreshAccount(db, data);
  }

  /** BaseService.add_new for an email and a username no stored user has. */
  method InsertFreshAccount(db: Database, data: NewUser) returns (r: Result<UserView, Fault>)
    requires db.Valid() && db.UserByEmail(data.email).None? && db.UserByUsername(data.username).None?
    modifies db
    ensures db.Valid()
    ensures r.Ok? <==> NewUserFits(data)
    ensures r.Err? ==> r.error == BadRequest && db.users == old(db.users)
    ensures r.Ok? ==> r.value.id !in old(db.users)
    ensures r.Ok? ==> db.users == old(db.users)[r.value.id := BuildUser(r.value.id, data)]
    ensures r.Ok? ==> db.UserByEmail(data.email) == Some(BuildUser(r.value.id, data))
    ensures db.posts == old(db.posts) && db.likes == old(db.likes) && db.nextPostId == old(db.nextPostId)
    ensures db.nextUserId == old(db.nextUserId) + 1
    ensures old(db.UniqueAccounts()) ==> db.UniqueAccounts()
    ensures old(db.NoSelfLikes()) ==> db.NoSelfLikes()
  {
    ghost var before := db.users;
    r := BaseService.AddUser(db, data);
    if r.Ok? {
      var id := r.value.id;
      assert db.users[id].email == data.email;
      assert forall k :: k in db.users && k != id ==> db.users[k].email != data.email;
      if UniqueIn(before) {
        FreshAccountStaysUnique(before, id, BuildUser(id, data));
      }
    }
  }

  /** Adding a user whose email and username no stored user has keeps both
      unique. */
  lemma FreshAccountStaysUnique(users: map<int, User>, id: int, u: User)
    requires id !in users && UniqueIn(users)
    requires forall k :: k in users ==> users[k].email != u.email && users[k].username != u.username
    ensures UniqueIn(users[id := u])
  {
  }

  /** get_by_email: the user's view, or 404. */
  function GetByEmail(db: Database, email: string): (r: Result<UserView, Fault>)
    reads db
    requires db.Valid()
    ensures r.Ok? <==> exists id :: id in db.users && db.users[id].email == email
    ensures r.Ok? ==> r.value == BaseService.UserViewOf(db, db.UserByEmail(email).value) && r.value.email == email
    ensures r.Err? ==> r.error == NotFound
  {
    match db.UserByEmail(email)
    case Some(u) => Ok(BaseService.UserViewOf(db, u))
    case None => Err(NotFound)
  }

  // ---------------------------------------------------------------------
  // authenticate_and_authorize

  /** A parsed UserLoginSchema. */
  datatype Login = Login(email: string, password: string)

  /** The refresh path's handling of decode_token, as written: only
      jwt.DecodeError is caught and becomes 400. PyJWT's ExpiredSignatureError
      and its other InvalidTokenError kinds are not DecodeErrors, so an
      expired refresh token, or one refused for its algorithm, its nbf, iat
      or aud, escapes as 500. */
  function RefreshClaimsAsWritten(d: Utils.Decoded): (r: Result<Utils.Claims, Fault>)
    ensures d.Valid? <==> r.Ok?
    ensures d.Valid? ==> r.value == d.claims
    ensures d.Malformed? ==> r == Err(BadRequest)
    ensures d.Expired? || d.Rejected? ==> r == Err(Unhandled)
  {
    match d
    case Valid(c) => Ok(c)
    case Malformed => Err(BadRequest)
    case Expired => Err(Unhandled)
    case Rejected => Err(Unhandled)
  }

  /** The refresh path's handling as intended: any token decode_token refuses,
      expired ones included, is a 400. */
  function RefreshClaims(d: Utils.Decoded): (r: Result<Utils.Claims, Fault>)
    ensures d.Valid? <==> r.Ok?
    ensures d.Valid? ==> r.value == d.claims
    ensures !d.Valid? ==> r == Err(BadRequest)
  {
    match d
    case Valid(c) => Ok(c)
    case _ => Err(BadRequest)
  }

  /** UserLoginSchema(email=data.get('email'), password=''): the `email`
      claim must be a string that EmailStr accepts, and the login carries its
      normal form. A missing claim (None) and a number (coerced to a string of
      digits, which holds no '@') fail validation; that ValidationError is
      not caught, so it is a 500. */
  function RefreshLogin(claims: Utils.Claims, wellFormed: string -> bool, normalize: string -> string): (r: Result<Login, Fault>)
    ensures r.Ok? <==> "email" in claims && claims["email"].Text? && wellFormed(claims["email"].text)
    ensures r.Ok? ==> r.value == Login(normalize(claims["email"].text), "")
    ensures r.Err? ==> r.error == Unhandled
  {
    if "email" in claims && claims["email"].Text? && wellFormed(claims["email"].text)
    then Ok(Login(normalize(claims["email"].text), ""))
    else Err(Unhandled)
  }

  /** The token pair for a user found by email. */
  function TokensFor(u: User, jwt: Utils.Signer, now: int, life: Utils.TokenLifetimes): Utils.TokenPair {
    Utils.IssueTokens(jwt, map["email" := Utils.Text(u.email)], now, life)
  }

  /** authenticate_and_authorize(db, user_data, refresh_token). A non-empty
      refresh token is decoded and its email claim stands in for the login,
      with no password check; otherwise user_data must be present (None is an
      AttributeError, 500), its email must be registered (404) and its password
      must match the stored hash (400). Either way the answer is a fresh pair
      for {'email': found.email}. */
  function Authenticate(db: Database, userData: Option<Login>, refreshToken: string,
                        encode: string -> string, jwt: Utils.Signer, wellFormed: string -> bool, normalize: string -> string,
                        now: int, life: Utils.TokenLifetimes): (r: Result<Utils.TokenPair, Fault>)
    reads db
    requires db.Valid()
    ensures refreshToken == "" && userData.None? ==> r == Err(Unhandled)
    ensures refreshToken == "" && userData.Some? ==>
      var found := db.UserByEmail(userData.value.email);
      && (found.None? ==> r == Err(NotFound))
      && (found.Some? && !Utils.CheckPassword(encode, userData.value.password, found.value.password) ==>
            r == Err(BadRequest))
      && (found.Some? && Utils.CheckPassword(encode, userData.value.password, found.value.password) ==>
            r == Ok(TokensFor(found.value, jwt, now, life)))
    ensures refreshToken != "" ==>
      match RefreshClaims(Utils.DecodeToken(jwt, refreshToken, now))
      case Err(f) => r == Err(f)
      case Ok(claims) =>
        match RefreshLogin(claims, wellFormed, normalize)
        case Err(f) => r == Err(f)
        case Ok(login) =>
          && (db.UserByEmail(login.email).None? ==> r == Err(NotFound))
          && (db.UserByEmail(login.email).Some? ==> r == Ok(TokensFor(db.UserByEmail(login.email).value, jwt, now, life)))
    ensures r.Ok? ==> exists id :: id in db.users && r.value == TokensFor(db.users[id], jwt, now, life)
  {
    var login: Result<Login, Fault> :=
      if refreshToken != "" then
        match RefreshClaims(Utils.DecodeToken(jwt, refreshToken, now))
        case Err(f) => Err(f)
        case Ok(claims) => RefreshLogin(claims, wellFormed, normalize)
      else if userData.None? then Err(Unhandled)
      else Ok(userData.value);
    match login
    case Err(f) => Err(f)
    case Ok(l) =>
      match db.UserByEmail(l.email)
      case None => Err(NotFound)
      case Some(found) =>
        if refreshToken == "" && !Utils.CheckPassword(encode, l.password, found.password) then Err(BadRequest)
        else Ok(TokensFor(found, jwt, now, life))
  }

  // ---------------------------------------------------------------------
  // get_current

  /** get_current(db, credentials): no Authorization header, or any failure
      of decode_token (bad signature or format, expired, refused), is a 401;
      then the
      user whose email is the token's `email` claim, or 404. A claim that is
      missing compares with NULL and matches nobody; a number in that claim
      reaches the database as a parameter of the wrong type, which it
      refuses (500). */
  function GetCurrent(db: Database, credentials: Option<string>, jwt: Utils.Signer, now: int): (r: Result<User, Fault>)
    reads db
    requires db.Valid()
    ensures credentials.None? ==> r == Err(Unauthorized)
    ensures credentials.Some? && !Utils.DecodeToken(jwt, credentials.value, now).Valid? ==> r == Err(Unauthorized)
    ensures r.Ok? ==>
      && credentials.Some? && Utils.DecodeToken(jwt, credentials.value, now).Valid?
      && var claims := Utils.DecodeToken(jwt, credentials.value, now).claims;
         "email" in claims && claims["email"] == Utils.Text(r.value.email)
    ensures r.Ok? ==> r.value.id in db.users && db.users[r.value.id] == r.value
    ensures r.Ok? ==> db.UserByEmail(r.value.email) == Some(r.value)
    ensures r == Err(NotFound) ==>
      var claims := Utils.DecodeToken(jwt, credentials.value, now).claims;
      "email" !in claims || (claims["email"].Text? && db.UserByEmail(claims["email"].text).None?)
    ensures credentials.Some? && Utils.DecodeToken(jwt, credentials.value, now).Valid? ==>
      var claims := Utils.DecodeToken(jwt, credentials.value, now).claims;
      && ("email" !in claims ==> r == Err(NotFound))
      && ("email" in claims && claims["email"].Number? ==> r == Err(Unhandled))
      && ("email" in claims && claims["email"].Text? ==>
            var found := db.UserByEmail(claims["email"].text);
            r == if found.None? then Err(NotFound) else Ok(found.value))
  {
    if credentials.None? then Err(Unauthorized)
    else
      match Utils.DecodeToken(jwt, credentials.value, now)
      case Valid(claims) =>
        if "email" !in claims then Err(NotFound)
        else (
          match claims["email"]
          case Number(_) => Err(Unhandled)
          case Text(email) =>
            match db.UserByEmail(email)
            case None => Err(NotFound)
            case Some(u) => Ok(u))
      case _ => Err(Unauthorized)
  }

  // ---------------------------------------------------------------------
  // Properties of the token flow

  /** Logging in with a registered email and its password yields the pair for
      that user. */
  lemma LoginAccepted(db: Database, u: User, password: string, encode: string -> string,
                      jwt: Utils.Signer, wellFormed: string -> bool, normalize: string -> string, now: int, life: Utils.TokenLifetimes)
    requires db.Valid()
    requires db.UserByEmail(u.email) == Some(u)
    requires Utils.CheckPassword(encode, password, u.password)
    ensures Authenticate(db, Some(Login(u.email, password)), "", encode, jwt, wellFormed, normalize, now, life)
            == Ok(TokensFor(u, jwt, now, life))
  {
  }

  /** With a collision-free hash, any other password is refused. */
  lemma WrongPasswordRefused(db: Database, u: User, password: string, other: string, encode: string -> string,
                             jwt: Utils.Signer, wellFormed: string -> bool, normalize: string -> string, now: int, life: Utils.TokenLifetimes)
    requires db.Valid() && Utils.Injective(encode)
    requires db.UserByEmail(u.email) == Some(u) && u.password == encode(password)
    requires other != password
    ensures Authenticate(db, Some(Login(u.email, other)), "", encode, jwt, wellFormed, normalize, now, life)
            == Err(BadRequest)
  {
    Utils.CheckPasswordRejectsOthers(encode, password, other);
  }

  /** The access token of a successful login identifies the same user on
      every request until it expires, and none after. */
  lemma {:induction false} AccessTokenResolvesUser(db: Database, login: Login, encode: string -> string,
                                     jwt: Utils.Signer, wellFormed: string -> bool, normalize: string -> string,
                                     now: int, life: Utils.TokenLifetimes, t: int)
    requires db.Valid() && Utils.SoundSigner(jwt)
    requires Authenticate(db, Some(login), "", encode, jwt, wellFormed, normalize, now, life).Ok?
    ensures var pair := Authenticate(db, Some(login), "", encode, jwt, wellFormed, normalize, now, life).value;
      GetCurrent(db, Some(pair.access), jwt, t)
        == if t < Utils.AccessExpiry(now, life) then Ok(db.UserByEmail(login.email).value) else Err(Unauthorized)
  {
    var u := db.UserByEmail(login.email).value;
    var pair := TokensFor(u, jwt, now, life);
    assert Authenticate(db, Some(login), "", encode, jwt, wellFormed, normalize, now, life).value == pair;
    Utils.IssuedTokensDecode(jwt, map["email" := Utils.Text(u.email)], now, life, t);
    if t < Utils.AccessExpiry(now, life) {
      var claims := map["email" := Utils.Text(u.email)]["exp" := Utils.Number(Utils.AccessExpiry(now, life))];
      assert Utils.DecodeToken(jwt, pair.access, t) == Utils.Valid(claims);
      assert claims["email"] == Utils.Text(u.email);
      assert db.UserByEmail(u.email) == Some(u);
    }
  }

  /** The refresh token of a successful login renews the pair, for the same
      user, until it expires. */
  lemma {:induction false} RefreshTokenRenews(db: Database, login: Login, encode: string -> string,
                                jwt: Utils.Signer, wellFormed: string -> bool, normalize: string -> string,
                                now: int, life: Utils.TokenLifetimes, t: int)
    requires db.Valid() && Utils.SoundSigner(jwt)
    requires Authenticate(db, Some(login), "", encode, jwt, wellFormed, normalize, now, life).Ok?
    requires wellFormed(login.email) && normalize(login.email) == login.email
    requires t < Utils.RefreshExpiry(now, life)
    ensures var pair := Authenticate(db, Some(login), "", encode, jwt, wellFormed, normalize, now, life).value;
      Authenticate(db, None, pair.refresh, encode, jwt, wellFormed, normalize, t, life)
        == Ok(TokensFor(db.UserByEmail(login.email).value, jwt, t, life))
  {
    var u := db.UserByEmail(login.email).value;
    var pair := TokensFor(u, jwt, now, life);
    assert Authenticate(db, Some(login), "", encode, jwt, wellFormed, normalize, now, life).value == pair;
    Utils.IssuedTokensDecode(jwt, map["email" := Utils.Text(u.email)], now, life, t);
    var claims := map["email" := Utils.Text(u.email)]["exp" := Utils.Number(Utils.RefreshExpiry(now, life))];
    assert Utils.DecodeToken(jwt, pair.refresh, t) == Utils.Valid(claims);
    assert claims["email"] == Utils.Text(login.email);
    assert RefreshLogin(claims, wellFormed, normalize) == Ok(Login(login.email, ""));
  }

  /** Once the refresh token has expired it is refused with 400. */
  lemma {:induction false} ExpiredRefreshTokenRefused(db: Database, login: Login, encode: string -> string,
                                        jwt: Utils.Signer, wellFormed: string -> bool, normalize: string -> string,
                                        now: int, life: Utils.TokenLifetimes, t: int)
    requires db.Valid() && Utils.SoundSigner(jwt)
    requires Authenticate(db, Some(login), "", encode, jwt, wellFormed, normalize, now, life).Ok?
    requires t >= Utils.RefreshExpiry(now, life)
    ensures var pair := Authenticate(db, Some(login), "", encode, jwt, wellFormed, normalize, now, life).value;
      Authenticate(db, None, pair.refresh, encode, jwt, wellFormed, normalize, t, life) == Err(BadRequest)
  {
    var u := db.UserByEmail(login.email).value;
    Utils.IssuedTokensDecode(jwt, map["email" := Utils.Text(u.email)], now, life, t);
  }

  /** As written, the same expired refresh token escapes as an unhandled
      ExpiredSignatureError. */
  lemma {:induction false} ExpiredRefreshTokenUnhandledAsWritten(jwt: Utils.Signer, u: User, now: int,
                                                   life: Utils.TokenLifetimes, t: int)
    requires Utils.SoundSigner(jwt)
    requires t >= Utils.RefreshExpiry(now, life)
    ensures RefreshClaimsAsWritten(Utils.DecodeToken(jwt, TokensFor(u, jwt, now, life).refresh, t))
            == Err(Unhandled)
  {
    Utils.IssuedTokensDecode(jwt, map["email" := Utils.Text(u.email)], now, life, t);
  }

  /** As written, a refresh token whose header names another algorithm than
      the configured one escapes as an unhandled InvalidAlgorithmError, where
      the intended handling refuses it with 400. */
  lemma ForeignAlgorithmUnhandledAsWritten(jwt: Utils.Signer, token: string, now: int)
    requires jwt.foreignAlgorithm(token)
    ensures RefreshClaimsAsWritten(Utils.DecodeToken(jwt, token, now)) == Err(Unhandled)
    ensures RefreshClaims(Utils.DecodeToken(jwt, token, now)) == Err(BadRequest)
  {
  }

  /** Nothing distinguishes the two tokens of a pair but their expiry: a
      refresh token is accepted as a bearer token for as long as it lives. */
  lemma {:induction false} RefreshTokenActsAsBearer(db: Database, login: Login, encode: string -> string,
                                      jwt: Utils.Signer, wellFormed: string -> bool, normalize: string -> string,
                                      now: int, life: Utils.TokenLifetimes, t: int)
    requires db.Valid() && Utils.SoundSigner(jwt)
    requires Authenticate(db, Some(login), "", encode, jwt, wellFormed, normalize, now, life).Ok?
    requires t < Utils.RefreshExpiry(now, life)
    ensures var pair := Authenticate(db, Some(login), "", encode, jwt, wellFormed, normalize, now, life).value;
      GetCurrent(db, Some(pair.refresh), jwt, t) == Ok(db.UserByEmail(login.email).value)
  {
    var u := db.UserByEmail(login.email).value;
    var pair := TokensFor(u, jwt, now, life);
    assert Authenticate(db, Some(login), "", encode, jwt, wellFormed, normalize, now, life).value == pair;
    Utils.IssuedTokensDecode(jwt, map["email" := Utils.Text(u.email)], now, life, t);
    var claims := map["email" := Utils.Text(u.email)]["exp" := Utils.Number(Utils.RefreshExpiry(now, life))];
    assert Utils.DecodeToken(jwt, pair.refresh, t) == Utils.Valid(claims);
    assert claims["email"] == Utils.Text(u.email);
    assert db.UserByEmail(u.email) == Some(u);
  }

  /** A token the signer does not accept is a 401 as a bearer token and a
      400 as a refresh token. */
  lemma ForgedTokenRefused(db: Database, token: string, userData: Option<Login>, encode: string -> string,
                           jwt: Utils.Signer, wellFormed: string -> bool, normalize: string -> string, now: int, life: Utils.TokenLifetimes)
    requires db.Valid() && token != "" && jwt.open(token).None?
    ensures GetCurrent(db, Some(token), jwt, now) == Err(Unauthorized)
    ensures Authenticate(db, userData, token, encode, jwt, wellFormed, normalize, now, life) == Err(BadRequest)
  {
  }
}
