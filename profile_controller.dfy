/**
 * The two HTTP handlers of the profile API. Each is a guard chain with early
 * returns: the Authorization header, then the bearer token, then the service
 * call, answered as a status and a message or the profile payload.
 * The token service (signature, expiry, claim decoding) and the date parser are
 * parameters; the service is its state and the `Profiles` functions over it.
 */
module ProfileController {
  import opened Wrappers
  import opened JavaStrings
  import opened Profiles

  /** The claims the handlers read: the subject (user name) and the `user_id` claim. */
  datatype Claims = Claims(subject: string, userId: int)

  /** `validateToken` and `getAllClaimsFromToken` of the token utility, left abstract. */
  datatype TokenService = TokenService(validateToken: string -> bool, claimsOf: string -> Claims)

  /** The JSON body of an update request; the date is still text. */
  datatype UpdateBody = UpdateBody(firstName: string, lastName: string, placeOfBirth: string, dateOfBirth: string)

  /** The JSON response besides `status`: a message, or the caller's name and profile. */
  datatype Body =
    | Message(message: string)
    | ProfileView(
        username: string, firstName: string, lastName: string, placeOfBirth: string,
        dateOfBirth: Date, createdAt: nat, updatedAt: nat)

  /** An HTTP response; the body's `status` entry always equals the HTTP status. */
  datatype Response = Response(status: int, body: Body)

  /** An exception a handler does not catch; the web framework answers it on its own. */
  datatype Escape = ServiceException(cause: Exception) | DateTimeParseException(text: string)

  /** What a handler produces: a response it built, or an exception it let escape. */
  datatype Reply = Answered(response: Response) | Raised(escape: Escape)

  /** The update handler's reply and the service state after it. */
  datatype Handled = Handled(reply: Reply, state: ServiceState)

  const BEARER_PREFIX := "Bearer "
  const BAD_HEADER_MESSAGE := "Authorization header missing or invalid"
  const BAD_TOKEN_MESSAGE := "Token tidak valid atau expired"
  const USER_NOT_FOUND_MESSAGE := "User tidak ditemukan"

  const BAD_HEADER := Response(400, Message(BAD_HEADER_MESSAGE))
  const BAD_TOKEN := Response(401, Message(BAD_TOKEN_MESSAGE))

  /** The header is present and starts, case-sensitively, with "Bearer ". */
  predicate HasBearerScheme(authHeader: Option<string>) {
    authHeader.Some? && StartsWith(authHeader.value, BEARER_PREFIX)
  }

  /** `authHeader.replace("Bearer ", "").trim()`. */
  function ExtractToken(authHeader: string): (token: string)
    ensures |token| <= |authHeader|
    ensures HasNoPadding(token)
  {
    Trim(Replace(authHeader, BEARER_PREFIX, ""))
  }

  /**
   * The guard both endpoints run: a missing or non-bearer header gives 400, a token
   * that fails validation gives 401, and only a validated token has its claims read.
   */
  function Authenticate(authHeader: Option<string>, tokens: TokenService): (r: Result<Claims, Response>)
    ensures r == Failure(BAD_HEADER) <==> !HasBearerScheme(authHeader)
    ensures r == Failure(BAD_TOKEN) <==>
              HasBearerScheme(authHeader) && !tokens.validateToken(ExtractToken(authHeader.value))
    ensures r.Success? <==>
              HasBearerScheme(authHeader) && tokens.validateToken(ExtractToken(authHeader.value))
    ensures r.Success? ==> r.value == tokens.claimsOf(ExtractToken(authHeader.value))
  {
    if !HasBearerScheme(authHeader) then
      Failure(BAD_HEADER)
    else
      var token := ExtractToken(authHeader.value);
      if !tokens.validateToken(token) then
        Failure(BAD_TOKEN)
      else
        Success(tokens.claimsOf(token))
  }

  /** The success payload: the token's subject and every field of the stored row. */
  function View(username: string, p: Profile): Body {
    ProfileView(username, p.firstName, p.lastName, p.placeOfBirth, p.dateOfBirth, p.createdAt, p.updatedAt)
  }

  /**
   * `GET /api/profiles/me`. The profile is fetched with `getProfile`, which raises
   * for a user without a row; the handler's `null` branch ("User tidak ditemukan")
   * is kept, and `ViewNeverReportsUserNotFound` shows it is never taken.
   */
  function ViewProfile(authHeader: Option<string>, tokens: TokenService, profiles: map<int, Profile>): (r: Reply)
    ensures !HasBearerScheme(authHeader) ==> r == Answered(BAD_HEADER)
    ensures HasBearerScheme(authHeader) && !tokens.validateToken(ExtractToken(authHeader.value)) ==>
              r == Answered(BAD_TOKEN)
    ensures Authenticate(authHeader, tokens).Success? ==>
              var claims := tokens.claimsOf(ExtractToken(authHeader.value));
              if claims.userId in profiles then
                r == Answered(Response(200, View(claims.subject, profiles[claims.userId])))
              else
                r == Raised(ServiceException(NoSuchElementException))
  {
    match Authenticate(authHeader, tokens)
    case Failure(response) => Answered(response)
    case Success(claims) =>
      match GetProfile(profiles, claims.userId)
      case Failure(e) => Raised(ServiceException(e))
      case Success(None) => Answered(Response(401, Message(USER_NOT_FOUND_MESSAGE)))
      case Success(Some(profile)) => Answered(Response(200, View(claims.subject, profile)))
  }

  /**
   * `POST /api/profiles/me/update`. The date is parsed first, before any header
   * check; once the header and token pass, the answer is 200 carrying the service's
   * message as it is, an "Error: " message included.
   */
  function UpdateProfile(
    authHeader: Option<string>, body: UpdateBody, tokens: TokenService,
    parseDate: string -> Option<Date>, state: ServiceState, saveFault: Option<string>): (r: Handled)
    ensures parseDate(body.dateOfBirth).None? ==>
              r == Handled(Raised(DateTimeParseException(body.dateOfBirth)), state)
    ensures parseDate(body.dateOfBirth).Some? && Authenticate(authHeader, tokens).Failure? ==>
              r == Handled(Answered(Authenticate(authHeader, tokens).error), state)
    ensures parseDate(body.dateOfBirth).Some? && Authenticate(authHeader, tokens).Success? ==>
              var u := Upsert(state, tokens.claimsOf(ExtractToken(authHeader.value)).userId,
                              body.firstName, body.lastName, body.placeOfBirth,
                              parseDate(body.dateOfBirth).value, saveFault);
              r == Handled(Answered(Response(200, Message(u.message))), u.state)
  {
    match parseDate(body.dateOfBirth)
    case None => Handled(Raised(DateTimeParseException(body.dateOfBirth)), state)
    case Some(dateOfBirth) =>
      match Authenticate(authHeader, tokens)
      case Failure(response) => Handled(Answered(response), state)
      case Success(claims) =>
        var u := Upsert(state, claims.userId, body.firstName, body.lastName, body.placeOfBirth, dateOfBirth, saveFault);
        Handled(Answered(Response(200, Message(u.message))), u.state)
  }

  /** A header of the form "Bearer <token>" hands `<token>` itself to validation. */
  lemma BearerTokenExtracted(token: string)
    requires !Contains(token, BEARER_PREFIX)
    requires HasNoPadding(token)
    ensures HasBearerScheme(Some(BEARER_PREFIX + token))
    ensures ExtractToken(BEARER_PREFIX + token) == token
  {
    ReplaceTargetThen(BEARER_PREFIX, token, "");
    ReplaceAbsent(token, BEARER_PREFIX, "");
    TrimUnpadded(token);
  }

  /**
   * Every "Bearer " in the header is removed, not only the scheme: the header
   * "Bearer " + x + "Bearer " + y hands x + y to validation.
   */
  lemma InnerBearerRemoved(x: string, y: string)
    requires !Contains(x + BEARER_PREFIX[..|BEARER_PREFIX| - 1], BEARER_PREFIX)
    requires !Contains(y, BEARER_PREFIX)
    requires HasNoPadding(x + y)
    ensures HasBearerScheme(Some(BEARER_PREFIX + x + BEARER_PREFIX + y))
    ensures ExtractToken(BEARER_PREFIX + x + BEARER_PREFIX + y) == x + y
  {
    var none: string := [];
    var header := BEARER_PREFIX + (x + BEARER_PREFIX + y);
    assert header == BEARER_PREFIX + x + BEARER_PREFIX + y;
    ReplaceTwoOccurrences(BEARER_PREFIX, x, y, none);
    assert none + (x + none + y) == x + y;
    TrimUnpadded(x + y);
  }

  /** The header is judged before the token: with a bad header, validation never matters. */
  lemma HeaderCheckedFirst(authHeader: Option<string>, tokens: TokenService, other: TokenService)
    requires !HasBearerScheme(authHeader)
    ensures Authenticate(authHeader, tokens) == Authenticate(authHeader, other) == Failure(BAD_HEADER)
  {
  }

  /** Validation comes before claim extraction: a rejected token's claims are never read. */
  lemma ValidationBeforeClaims(authHeader: Option<string>, tokens: TokenService, other: TokenService)
    requires tokens.validateToken == other.validateToken
    requires Authenticate(authHeader, tokens).Failure?
    ensures Authenticate(authHeader, tokens) == Authenticate(authHeader, other)
  {
  }

  /** A missing or non-bearer header gives 400 on both endpoints and leaves the table alone. */
  lemma BadHeaderOnBothEndpoints(
    authHeader: Option<string>, tokens: TokenService, body: UpdateBody,
    parseDate: string -> Option<Date>, state: ServiceState, saveFault: Option<string>)
    requires !HasBearerScheme(authHeader)
    requires parseDate(body.dateOfBirth).Some?
    ensures ViewProfile(authHeader, tokens, state.profiles) == Answered(BAD_HEADER)
    ensures UpdateProfile(authHeader, body, tokens, parseDate, state, saveFault) == Handled(Answered(BAD_HEADER), state)
  {
  }

  /** The view handler never answers "User tidak ditemukan": its `null` branch is dead. */
  lemma ViewNeverReportsUserNotFound(authHeader: Option<string>, tokens: TokenService, profiles: map<int, Profile>)
    ensures ViewProfile(authHeader, tokens, profiles).Answered? ==>
              ViewProfile(authHeader, tokens, profiles).response.body != Message(USER_NOT_FOUND_MESSAGE)
  {
  }

  /**
   * An update followed by a view with the same token: the view answers 200 with the
   * token's subject and the fields just written, whether the row was new or not.
   */
  lemma UpdateThenView(
    authHeader: Option<string>, tokens: TokenService, body: UpdateBody,
    parseDate: string -> Option<Date>, state: ServiceState)
    requires Authenticate(authHeader, tokens).Success?
    requires parseDate(body.dateOfBirth).Some?
    ensures
      var after := UpdateProfile(authHeader, body, tokens, parseDate, state, None);
      var claims := Authenticate(authHeader, tokens).value;
      && after.reply == Answered(Response(200, Message(UPDATED_MESSAGE)))
      && ViewProfile(authHeader, tokens, after.state.profiles).Answered?
      && var response := ViewProfile(authHeader, tokens, after.state.profiles).response;
      && response.status == 200
      && response.body.ProfileView?
      && response.body.username == claims.subject
      && response.body.firstName == body.firstName
      && response.body.lastName == body.lastName
      && response.body.placeOfBirth == body.placeOfBirth
      && response.body.dateOfBirth == parseDate(body.dateOfBirth).value
  {
  }
}
