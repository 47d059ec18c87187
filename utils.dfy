/** utils.py: the password policy, password hashing and checking, issuing and
    decoding token pairs, and safe file names.

    PBKDF2 with base64 (encode_password), jwt.encode and the signature check
    of jwt.decode, and uuid4 are outside the model: they arrive as parameters
    (an `encode` function, a `Signer`, a `hex` string), and the clock is an
    integer `now` in seconds. */
module Utils {
  import opened Wrappers

  // ---------------------------------------------------------------------
  // The password policy (validate_passwords)

  datatype PasswordError = MissingOrMismatch | TooShort | TooLong | TooWeak

  const MinPasswordLength: nat := 8
  const MaxPasswordLength: nat := 50

  predicate IsUpper(c: char) { 'A' <= c <= 'Z' }

  predicate IsDigit(c: char) { '0' <= c <= '9' }

  /** The text before the first newline; a regular-expression `.` never crosses '\n'. */
  function FirstLine(s: string): (t: string)
    ensures |t| <= |s| && t == s[..|t|]
    ensures '\n' !in t
    ensures |t| < |s| ==> s[|t|] == '\n'
  {
    if s == [] || s[0] == '\n' then [] else [s[0]] + FirstLine(s[1..])
  }

  /** The positions of the A-Z letters of t, in increasing order. */
  function UpperPositions(t: string): (r: seq<nat>)
    ensures forall i :: 0 <= i < |r| ==> r[i] < |t| && IsUpper(t[r[i]])
    ensures forall k :: 0 <= k < |t| && IsUpper(t[k]) ==> k in r
    ensures forall i, j :: 0 <= i < j < |r| ==> r[i] < r[j]
  {
    if t == [] then []
    else
      var r' := UpperPositions(t[..|t| - 1]);
      if IsUpper(t[|t| - 1]) then r' + [|t| - 1] else r'
  }

  /** The character-class rule as the model decides it: the first line holds at
      least three A-Z letters and at least one 0-9 digit. */
  predicate HasRequiredCharacters(s: string) {
    var t := FirstLine(s);
    |UpperPositions(t)| >= 3 && exists d :: 0 <= d < |t| && IsDigit(t[d])
  }

  /** re.match(r'(?=.*[A-Z].*[A-Z].*[A-Z])(?=.*[0-9]).+', s) read literally:
      both look-aheads start at position 0, `.` matches anything but '\n',
      and `.+` needs one such character at position 0. */
  ghost predicate RegexMatches(s: string) {
    && (exists i, j, k :: 0 <= i < j < k < |s| && IsUpper(s[i]) && IsUpper(s[j]) && IsUpper(s[k])
                          && '\n' !in s[..k])
    && (exists d :: 0 <= d < |s| && IsDigit(s[d]) && '\n' !in s[..d])
    && |s| > 0 && s[0] != '\n'
  }

  /** A position holding something other than a newline is reachable by `.*`
      from the start exactly when it lies in the first line. */
  lemma NewlineFreePrefix(s: string, k: nat)
    requires k < |s| && s[k] != '\n'
    ensures ('\n' !in s[..k]) <==> k < |FirstLine(s)|
  {
    var t := FirstLine(s);
    if k < |t| {
      assert s[..k] == t[..k];
      forall c | c in t[..k] ensures c in t {
        var i :| 0 <= i < k && t[..k][i] == c;
        assert t[i] == c;
      }
    } else {
      assert s[..k][|t|] == '\n';
    }
  }

  /** Three different values in a sequence need three places. */
  lemma ThreeMembers(r: seq<nat>, i: nat, j: nat, k: nat)
    requires i < j < k && i in r && j in r && k in r
    ensures |r| >= 3
  {
  }

  /** Three capitals and a digit in the first line match the pattern. */
  lemma CountingMeetsRegex(s: string)
    requires HasRequiredCharacters(s)
    ensures RegexMatches(s)
  {
    var t := FirstLine(s);
    var r := UpperPositions(t);
    var d :| 0 <= d < |t| && IsDigit(t[d]);
    var i, j, k := r[0], r[1], r[2];
    assert s[i] == t[i] && s[j] == t[j] && s[k] == t[k] && s[d] == t[d];
    NewlineFreePrefix(s, k);
    NewlineFreePrefix(s, d);
    assert s[0] == t[0];
  }

  /** A match of the pattern puts three capitals and a digit in the first line. */
  lemma RegexMeetsCounting(s: string)
    requires RegexMatches(s)
    ensures HasRequiredCharacters(s)
  {
    var t := FirstLine(s);
    var r := UpperPositions(t);
    var i, j, k :| 0 <= i < j < k < |s| && IsUpper(s[i]) && IsUpper(s[j]) && IsUpper(s[k])
                   && '\n' !in s[..k];
    var d :| 0 <= d < |s| && IsDigit(s[d]) && '\n' !in s[..d];
    NewlineFreePrefix(s, k);
    NewlineFreePrefix(s, d);
    assert t[i] == s[i] && t[j] == s[j] && t[k] == s[k] && t[d] == s[d];
    assert i in r && j in r && k in r;
    ThreeMembers(r, i, j, k);
  }

  /** The counting rule and the regular expression accept the same strings. */
  lemma HasRequiredCharactersIsRegex(s: string)
    ensures HasRequiredCharacters(s) <==> RegexMatches(s)
  {
    if HasRequiredCharacters(s) {
      CountingMeetsRegex(s);
    }
    if RegexMatches(s) {
      RegexMeetsCounting(s);
    }
  }

  /** validate_passwords: the checks run in a fixed order, each raising its own
      ValueError; Pass stands for the `return True`. */
  function ValidatePasswords(password: string, confirm: string): (r: Outcome<PasswordError>)
    ensures r == Fail(MissingOrMismatch) <==> password == "" || password != confirm
    ensures r == Fail(TooShort) <==> password == confirm && 0 < |password| < MinPasswordLength
    ensures r == Fail(TooLong) <==> password == confirm && |password| > MaxPasswordLength
    ensures r == Fail(TooWeak) <==>
      password == confirm && MinPasswordLength <= |password| <= MaxPasswordLength && !RegexMatches(password)
    ensures r == Pass <==>
      password == confirm && MinPasswordLength <= |password| <= MaxPasswordLength && RegexMatches(password)
  {
    HasRequiredCharactersIsRegex(password);
    if password == "" || password != confirm then Fail(MissingOrMismatch)
    else if |password| < MinPasswordLength then Fail(TooShort)
    else if |password| > MaxPasswordLength then Fail(TooLong)
    else if !HasRequiredCharacters(password) then Fail(TooWeak)
    else Pass
  }

  /** The password used in the documented end-to-end scenario passes the policy. */
  lemma ScenarioPasswordAccepted()
    ensures ValidatePasswords("Abc12345EFG", "Abc12345EFG") == Pass
  {
    var s := "Abc12345EFG";
    assert IsUpper(s[0]) && IsUpper(s[8]) && IsUpper(s[9]) && '\n' !in s[..9];
    assert IsDigit(s[1 + 2]) && '\n' !in s[..3];
    assert RegexMatches(s);
  }

  // ---------------------------------------------------------------------
  // Password hashing (encode_password, check_password)

  /** check_password: hash the candidate with encode_password and compare it
      with the stored hash; compare_digest is equality, made constant-time. */
  function CheckPassword(encode: string -> string, password: string, stored: string): (r: bool)
    ensures r <==> stored == encode(password)
  {
    encode(password) == stored
  }

  /** A stored hash accepts the password it was made from. */
  lemma CheckPasswordAcceptsOwnHash(encode: string -> string, password: string)
    ensures CheckPassword(encode, password, encode(password))
  {
  }

  ghost predicate Injective(encode: string -> string) {
    forall p, q :: p != q ==> encode(p) != encode(q)
  }

  /** With a collision-free hash, a stored hash accepts no other password. */
  lemma CheckPasswordRejectsOthers(encode: string -> string, password: string, other: string)
    requires Injective(encode)
    ensures CheckPassword(encode, other, encode(password)) <==> other == password
  {
  }

  // ---------------------------------------------------------------------
  // Tokens (create_token, decode_token)

  datatype Claim = Text(text: string) | Number(number: int)

  type Claims = map<string, Claim>

  /** The dict {'access': ..., 'refresh': ...} that create_token returns. */
  datatype TokenPair = TokenPair(access: string, refresh: string)

  /** ACCESS_TOKEN_EXP and REFRESH_TOKEN_EXP. The first is configured under a
      name that says hours, but create_token adds it as minutes. */
  datatype TokenLifetimes = TokenLifetimes(accessMinutes: int, refreshDays: int)

  /** jwt.encode under the configured secret and algorithm; the format and
      signature check of jwt.decode, which opens a token to its claims; and
      whether a well-formed token's header names an algorithm other than
      JWT_ALGO, which jwt.decode refuses before it checks the signature. */
  datatype Signer = Signer(sign: Claims -> string, open: string -> Option<Claims>,
                           foreignAlgorithm: string -> bool)

  /** What the model relies on about the signer: a token it signed opens to
      the claims it was signed with, names the configured algorithm, and is
      never the empty string (a JWT always has its three dot-separated
      parts). */
  ghost predicate SoundSigner(jwt: Signer) {
    && (forall c :: jwt.open(jwt.sign(c)) == Some(c))
    && (forall c :: !jwt.foreignAlgorithm(jwt.sign(c)))
    && (forall c :: jwt.sign(c) != "")
  }

  function AccessExpiry(now: int, life: TokenLifetimes): int {
    now + life.accessMinutes * 60
  }

  function RefreshExpiry(now: int, life: TokenLifetimes): int {
    now + life.refreshDays * 86400
  }

  /** The pair create_token returns for the claims `data` at time `now`: under
      a sound signer each token opens to the caller's claims with only `exp`
      replaced, by the access expiry and the refresh expiry respectively. */
  function IssueTokens(jwt: Signer, data: Claims, now: int, life: TokenLifetimes): (r: TokenPair)
    ensures SoundSigner(jwt) ==>
      && jwt.open(r.access) == Some(data["exp" := Number(AccessExpiry(now, life))])
      && jwt.open(r.refresh) == Some(data["exp" := Number(RefreshExpiry(now, life))])
      && !jwt.foreignAlgorithm(r.access) && !jwt.foreignAlgorithm(r.refresh)
  {
    TokenPair(jwt.sign(data["exp" := Number(AccessExpiry(now, life))]),
              jwt.sign(data["exp" := Number(RefreshExpiry(now, life))]))
  }

  /** The caller's dict that create_token writes into. */
  class ClaimDict {
    var entries: Claims

    constructor (entries: Claims)
      ensures this.entries == entries
    {
      this.entries := entries;
    }
  }

  /** create_token: sets data['exp'] to the access expiry, signs, sets it to the
      refresh expiry, signs again; the caller's dict keeps the second value. */
  method CreateToken(jwt: Signer, data: ClaimDict, now: int, life: TokenLifetimes) returns (pair: TokenPair)
    modifies data
    ensures pair == IssueTokens(jwt, old(data.entries), now, life)
    ensures data.entries == old(data.entries)["exp" := Number(RefreshExpiry(now, life))]
  {
    data.entries := data.entries["exp" := Number(AccessExpiry(now, life))];
    var access := jwt.sign(data.entries);
    data.entries := data.entries["exp" := Number(RefreshExpiry(now, life))];
    var refresh := jwt.sign(data.entries);
    assert data.entries == old(data.entries)["exp" := Number(RefreshExpiry(now, life))];
    pair := TokenPair(access, refresh);
  }

  /** What jwt.decode yields: the claims; a DecodeError (bad format or
      signature, a non-integer nbf or exp); an ExpiredSignatureError; or one of
      the other InvalidTokenError kinds, which are not DecodeErrors
      (InvalidAlgorithmError, InvalidIssuedAtError, ImmatureSignatureError,
      InvalidAudienceError). */
  datatype Decoded = Valid(claims: Claims) | Malformed | Expired | Rejected

  /** An integer claim, or no such claim at all. */
  predicate NumberOrAbsent(c: Claims, key: string) {
    key !in c || c[key].Number?
  }

  /** PyJWT's checks of the registered claims, in its order, with no leeway
      and no audience or issuer expected: iat must be an integer; nbf an
      integer not later than now; exp an integer later than now; and any aud
      claim is refused, since no audience was asked for. */
  function CheckClaims(c: Claims, now: int): (r: Decoded)
    ensures r.Valid? <==>
      && NumberOrAbsent(c, "iat") && NumberOrAbsent(c, "nbf") && NumberOrAbsent(c, "exp")
      && ("nbf" in c ==> c["nbf"].number <= now)
      && ("exp" in c ==> c["exp"].number > now)
      && "aud" !in c
    ensures r.Valid? ==> r.claims == c
    ensures r.Expired? <==>
      && NumberOrAbsent(c, "iat") && NumberOrAbsent(c, "nbf") && ("nbf" in c ==> c["nbf"].number <= now)
      && "exp" in c && c["exp"].Number? && c["exp"].number <= now
    ensures "iat" in c && c["iat"].Text? ==> r == Rejected
  {
    if "iat" in c && c["iat"].Text? then Rejected
    else if "nbf" in c && c["nbf"].Text? then Malformed
    else if "nbf" in c && c["nbf"].number > now then Rejected
    else if "exp" in c && c["exp"].Text? then Malformed
    else if "exp" in c && c["exp"].number <= now then Expired
    else if "aud" in c then Rejected
    else Valid(c)
  }

  /** decode_token: jwt.decode with algorithms=[JWT_ALGO]. A token naming
      another algorithm is refused, one that does not open is a DecodeError,
      and the claims of one that opens are then checked. */
  function DecodeToken(jwt: Signer, token: string, now: int): (r: Decoded)
    ensures jwt.foreignAlgorithm(token) ==> r == Rejected
    ensures r.Valid? ==> jwt.open(token) == Some(r.claims) && CheckClaims(r.claims, now).Valid?
    ensures !jwt.foreignAlgorithm(token) && jwt.open(token).None? ==> r == Malformed
    ensures r.Expired? ==>
      jwt.open(token).Some? && var c := jwt.open(token).value; "exp" in c && c["exp"].Number? && c["exp"].number <= now
  {
    if jwt.foreignAlgorithm(token) then Rejected
    else
      match jwt.open(token)
      case None => Malformed
      case Some(c) => CheckClaims(c, now)
  }

  /** Claims that none of PyJWT's time or audience checks other than exp look
      at; the claims the application signs ({'email': ...}) are such. */
  predicate OnlyExpiryChecked(data: Claims) {
    "iat" !in data && "nbf" !in data && "aud" !in data
  }

  /** Both tokens of a pair carry the caller's claims with only exp replaced,
      and each decodes until its own expiry and is expired from then on. */
  lemma IssuedTokensDecode(jwt: Signer, data: Claims, now: int, life: TokenLifetimes, t: int)
    requires SoundSigner(jwt) && OnlyExpiryChecked(data)
    ensures var pair := IssueTokens(jwt, data, now, life);
      && DecodeToken(jwt, pair.access, t)
         == (if t < AccessExpiry(now, life) then Valid(data["exp" := Number(AccessExpiry(now, life))]) else Expired)
      && DecodeToken(jwt, pair.refresh, t)
         == (if t < RefreshExpiry(now, life) then Valid(data["exp" := Number(RefreshExpiry(now, life))]) else Expired)
  {
    var pair := IssueTokens(jwt, data, now, life);
    var access := data["exp" := Number(AccessExpiry(now, life))];
    var refresh := data["exp" := Number(RefreshExpiry(now, life))];
    assert "iat" !in access && "nbf" !in access && "aud" !in access;
    assert "iat" !in refresh && "nbf" !in refresh && "aud" !in refresh;
  }

  // ---------------------------------------------------------------------
  // Safe file names (create_safe_filename)

  /** str.split('.'): the pieces between the dots, left to right. */
  function SplitOnDots(s: string): (parts: seq<string>)
    ensures |parts| >= 1
    ensures forall i :: 0 <= i < |parts| ==> '.' !in parts[i]
  {
    if s == [] then [""]
    else
      var rest := SplitOnDots(s[1..]);
      if s[0] == '.' then [""] + rest else [[s[0]] + rest[0]] + rest[1..]
  }

  /** '.'.join(parts), the inverse of SplitOnDots. */
  function JoinWithDots(parts: seq<string>): string
    requires |parts| >= 1
  {
    if |parts| == 1 then parts[0] else parts[0] + "." + JoinWithDots(parts[1..])
  }

  lemma {:induction false} SplitThenJoin(s: string)
    ensures JoinWithDots(SplitOnDots(s)) == s
  {
    if s != [] {
      SplitThenJoin(s[1..]);
      var rest := SplitOnDots(s[1..]);
      if s[0] == '.' {
        assert ([""] + rest)[1..] == rest;
      } else if |rest| > 1 {
        assert ([[s[0]] + rest[0]] + rest[1..])[1..] == rest[1..];
      }
    }
  }

  lemma {:induction false} SplitHasOnePieceIffNoDot(s: string)
    ensures |SplitOnDots(s)| == 1 <==> '.' !in s
  {
    if s != [] {
      SplitHasOnePieceIffNoDot(s[1..]);
      assert s == [s[0]] + s[1..];
    }
  }

  /** The text after the last '.', or all of s when it holds no '.'. */
  function Extension(s: string): string {
    var parts := SplitOnDots(s);
    parts[|parts| - 1]
  }

  /** e is what follows the last dot of s, or all of s when s has no dot. */
  ghost predicate IsLastSegment(s: string, e: string) {
    && |e| <= |s| && s[|s| - |e|..] == e && '.' !in e
    && (|e| == |s| || s[|s| - |e| - 1] == '.')
  }

  /** A last segment of s[1..] is one of s, unless it spans all of s[1..] and
      s[0] is not a dot. */
  lemma LastSegmentStep(s: string, e: string)
    requires s != [] && IsLastSegment(s[1..], e)
    requires s[0] == '.' || |e| < |s| - 1
    ensures IsLastSegment(s, e)
  {
    assert s[1..][|s| - 1 - |e|..] == s[|s| - |e|..];
    if |e| < |s| - 1 {
      assert s[1..][|s| - 1 - |e| - 1] == s[|s| - |e| - 1];
    }
  }

  /** Prepending a character other than a dot to a name that has one leaves
      its extension, and so does prepending a dot. */
  lemma ExtensionOfCons(s: string)
    requires s != [] && (s[0] == '.' || |SplitOnDots(s[1..])| > 1)
    ensures Extension(s) == Extension(s[1..])
  {
  }

  lemma {:induction false} ExtensionIsLastSegment(s: string)
    ensures IsLastSegment(s, Extension(s))
  {
    if s != [] {
      ExtensionIsLastSegment(s[1..]);
      var e := Extension(s[1..]);
      SplitHasOnePieceIffNoDot(s[1..]);
      if s[0] != '.' && |SplitOnDots(s[1..])| == 1 {
        SplitThenJoin(s[1..]);
        assert Extension(s) == s;
      } else {
        ExtensionOfCons(s);
        assert s[0] == '.' || |e| < |s| - 1;
        LastSegmentStep(s, e);
      }
    }
  }

  /** A name with no dot is its own extension. */
  lemma DotlessNameIsItsExtension(s: string)
    requires '.' !in s
    ensures Extension(s) == s
  {
    ExtensionIsLastSegment(s);
    var e := Extension(s);
    assert s[|s| - |e|..] == s;
  }

  datatype SafeName = Created(name: string) | NotCreated

  /** create_safe_filename: uuid4().hex (the parameter `hex`), a dot, and the
      extension of the uploaded name. An upload without a name (None) makes
      `filename.split` raise, which the function reports as (False, message). */
  function CreateSafeFilename(filename: Option<string>, hex: string): (r: SafeName)
    ensures r.Created? <==> filename.Some?
    ensures r.Created? ==>
      && |r.name| > |hex| && r.name[..|hex| + 1] == hex + "."
      && IsLastSegment(filename.value, r.name[|hex| + 1..])
  {
    match filename
    case None => NotCreated
    case Some(f) =>
      ExtensionIsLastSegment(f);
      var name := hex + "." + Extension(f);
      assert name[|hex| + 1..] == Extension(f);
      Created(name)
  }
}
