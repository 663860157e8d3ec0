/** The `GET /api/reddit/:username` handler. It validates the username, obtains a token, looks
    the user up upstream, and maps the upstream record into the response shape (defaults come
    from `||` chains, and the verification tier follows a fixed precedence). Failures map to
    HTTP statuses: 400 for a missing username, 404 for a missing user record, and otherwise
    the upstream status or 500.

    The two network calls are inputs: the token outcome and the settled "about user" request.
    The clock readings taken by the two age helpers are inputs too. */
module ProfileRoute {
  import opened JsValues
  import opened AgeHelpers
  import TokenCache

  const AvatarPlaceholder: string := "https://via.placeholder.com/50"
  const ProfileUrlPrefix: string := "https://www.reddit.com/user/"
  const NotAvailable: string := "N/A"
  const UsernameRequired: string := "Username is required"
  const FetchFailed: string := "Failed to fetch Reddit data"
  const NoDetails: string := "No additional details"

  /** `userData.subreddit`: the profile subreddit, with its subscriber count and description. */
  datatype Subreddit = Subreddit(subscribers: Option<int>, publicDescription: Option<string>)

  /** `response.data.data`: the fields of the upstream user record that the handler reads. */
  datatype UserData = UserData(
    name: Option<string>,
    id: Option<string>,
    createdUtc: int,
    subreddit: Option<Subreddit>,
    totalKarma: Option<int>,
    linkKarma: Option<int>,
    commentKarma: Option<int>,
    isGold: Option<bool>,
    verified: Option<bool>,
    iconImg: Option<string>,
    snoovatarImg: Option<string>,
    isSuspended: Option<bool>)

  /** The settled "about user" request: a 2xx response whose `data` may be missing, or the
      error it was rejected with. */
  datatype AboutReply = Answered(data: Option<UserData>) | Failed(error: JsError)

  /** The JSON sent on success. `totalKarma` is `None` when the sum is `NaN` (a karma field
      missing). `creationMs` is the instant `estimated_creation_date` renders. */
  datatype ProfileResult = ProfileResult(
    username: Option<string>,
    nickname: Option<string>,
    creationMs: int,
    accountAge: string,
    ageDays: int,
    followers: int,
    totalKarma: Option<int>,
    verified: string,
    description: string,
    region: string,
    country: string,
    userId: Option<string>,
    avatar: string,
    isBanned: string,
    estimationConfidence: string,
    accuracyRange: string,
    visitProfile: string)

  datatype Body =
    | ProfileBody(profile: ProfileResult)
    | ErrorBody(error: string)
    | ErrorDetailsBody(error: string, details: string)

  datatype Response = Response(status: int, body: Body)

  /** `is_gold ? 'Premium' : (verified ? 'Email Verified' : 'No')`. */
  function VerifiedTier(isGold: Option<bool>, verified: Option<bool>): (tier: string)
    ensures tier == "Premium" <==> BoolTruthy(isGold)
    ensures tier == "Email Verified" <==> !BoolTruthy(isGold) && BoolTruthy(verified)
    ensures tier == "No" <==> !BoolTruthy(isGold) && !BoolTruthy(verified)
  {
    if BoolTruthy(isGold) then "Premium" else if BoolTruthy(verified) then "Email Verified" else "No"
  }

  /** `subreddit?.subscribers || 0`. */
  function Followers(sub: Option<Subreddit>): (n: int)
    ensures sub.Some? && sub.value.subscribers.Some? ==> n == sub.value.subscribers.value
    ensures sub.None? || sub.value.subscribers.None? ==> n == 0
  {
    if sub.Some? && NumberTruthy(sub.value.subscribers) then sub.value.subscribers.value else 0
  }

  /** `total_karma || (link_karma + comment_karma)`; a missing addend makes the sum `NaN`. */
  function TotalKarma(u: UserData): (k: Option<int>)
    ensures NumberTruthy(u.totalKarma) ==> k == u.totalKarma
    ensures !NumberTruthy(u.totalKarma) ==>
      (k.Some? <==> u.linkKarma.Some? && u.commentKarma.Some?) &&
      (k.Some? ==> k.value == u.linkKarma.value + u.commentKarma.value)
  {
    if NumberTruthy(u.totalKarma) then u.totalKarma
    else if u.linkKarma.Some? && u.commentKarma.Some? then Some(u.linkKarma.value + u.commentKarma.value)
    else None
  }

  /** `subreddit?.public_description || 'N/A'`. */
  function Description(sub: Option<Subreddit>): (d: string)
    ensures d != ""
    ensures sub.Some? && StringTruthy(sub.value.publicDescription) ==> d == sub.value.publicDescription.value
    ensures !(sub.Some? && StringTruthy(sub.value.publicDescription)) ==> d == NotAvailable
  {
    StringOr(if sub.Some? then sub.value.publicDescription else None, NotAvailable)
  }

  /** `icon_img || snoovatar_img || placeholder`. */
  function Avatar(u: UserData): (a: string)
    ensures a != ""
    ensures StringTruthy(u.iconImg) ==> a == u.iconImg.value
    ensures !StringTruthy(u.iconImg) && StringTruthy(u.snoovatarImg) ==> a == u.snoovatarImg.value
    ensures !StringTruthy(u.iconImg) && !StringTruthy(u.snoovatarImg) ==> a == AvatarPlaceholder
  {
    StringOr(u.iconImg, StringOr(u.snoovatarImg, AvatarPlaceholder))
  }

  /** The success body, for the requested `username`, the upstream record, and the clock
      readings taken by `calculateAccountAge` and `calculateAgeDays`. */
  function MapProfile(username: string, u: UserData, ageNowMs: int, daysNowMs: int): (p: ProfileResult)
    ensures p.username == u.name && p.nickname == u.name && p.userId == u.id
    ensures p.creationMs == u.createdUtc * MsPerSecond
    ensures p.ageDays == AgeDays(p.creationMs, daysNowMs)
    ensures p.accountAge == AccountAge(p.creationMs, ageNowMs)
    ensures p.followers == Followers(u.subreddit)
    ensures p.totalKarma == TotalKarma(u)
    ensures p.verified == VerifiedTier(u.isGold, u.verified)
    ensures p.description == Description(u.subreddit)
    ensures p.avatar == Avatar(u)
    ensures p.isBanned == (if BoolTruthy(u.isSuspended) then "Yes" else "No")
    ensures p.region == NotAvailable && p.country == NotAvailable
    ensures p.estimationConfidence == "High" && p.accuracyRange == "Exact"
    ensures p.visitProfile == ProfileUrlPrefix + username
  {
    var createdAt := u.createdUtc * MsPerSecond;
    ProfileResult(
      username := u.name,
      nickname := u.name,
      creationMs := createdAt,
      accountAge := AccountAge(createdAt, ageNowMs),
      ageDays := AgeDays(createdAt, daysNowMs),
      followers := Followers(u.subreddit),
      totalKarma := TotalKarma(u),
      verified := VerifiedTier(u.isGold, u.verified),
      description := Description(u.subreddit),
      region := NotAvailable,
      country := NotAvailable,
      userId := u.id,
      avatar := Avatar(u),
      isBanned := if BoolTruthy(u.isSuspended) then "Yes" else "No",
      estimationConfidence := "High",
      accuracyRange := "Exact",
      visitProfile := ProfileUrlPrefix + username)
  }

  /** The `catch` block: `status(error.response?.status || 500)` with
      `{error: error.message || …, details: error.response?.data || …}`. */
  function ErrorResponse(e: JsError): (r: Response)
    ensures r.body.ErrorDetailsBody? && r.body.error != "" && r.body.details != ""
    ensures r.status == (if NumberTruthy(e.responseStatus) then e.responseStatus.value else 500)
    ensures e.message != "" ==> r.body.error == e.message
    ensures e.message == "" ==> r.body.error == FetchFailed
    ensures StringTruthy(e.responseData) ==> r.body.details == e.responseData.value
    ensures !StringTruthy(e.responseData) ==> r.body.details == NoDetails
  {
    var status := if NumberTruthy(e.responseStatus) then e.responseStatus.value else 500;
    Response(status, ErrorDetailsBody(StringOr(Some(e.message), FetchFailed), StringOr(e.responseData, NoDetails)))
  }

  /** `User ${username} not found`: the requested name, between a fixed prefix and suffix. */
  function NotFoundMessage(username: string): (m: string)
    ensures |m| == |username| + 15
    ensures m[..5] == "User " && m[5..5 + |username|] == username && m[5 + |username|..] == " not found"
  {
    "User " + username + " not found"
  }

  /** The whole handler, given the token outcome and the upstream reply. */
  function Respond(username: string, token: Result<string>, reply: AboutReply, ageNowMs: int, daysNowMs: int): (r: Response)
    ensures username == "" <==> r == Response(400, ErrorBody(UsernameRequired))
    ensures r.body.ProfileBody? <==> username != "" && token.Ok? && reply.Answered? && reply.data.Some?
    ensures r.body.ProfileBody? ==> r == Response(200, ProfileBody(MapProfile(username, reply.data.value, ageNowMs, daysNowMs)))
    ensures r.body.ErrorBody? && r.status == 404 <==> username != "" && token.Ok? && reply.Answered? && reply.data.None?
    ensures r.body.ErrorDetailsBody? <==> username != "" && (token.Thrown? || reply.Failed?)
    ensures username != "" && token.Thrown? ==> r == ErrorResponse(token.error)
    ensures username != "" && token.Ok? && reply.Failed? ==> r == ErrorResponse(reply.error)
  {
    if username == "" then
      Response(400, ErrorBody(UsernameRequired))
    else if token.Thrown? then
      ErrorResponse(token.error)
    else
      match reply
      case Failed(e) => ErrorResponse(e)
      case Answered(None) => Response(404, ErrorBody(NotFoundMessage(username)))
      case Answered(Some(u)) => Response(200, ProfileBody(MapProfile(username, u, ageNowMs, daysNowMs)))
  }

  /** A missing user record gives 404 with a message that names the requested user. */
  lemma {:induction false} NotFoundNamesUser(username: string, token: string, ageNowMs: int, daysNowMs: int)
    requires username != ""
    ensures var r := Respond(username, Ok(token), Answered(None), ageNowMs, daysNowMs);
      r == Response(404, ErrorBody("User " + username + " not found"))
  {
  }

  /** A failed token exchange becomes a 500 carrying the generic token message and no details. */
  lemma TokenFailureResponse(username: string, reply: AboutReply, ageNowMs: int, daysNowMs: int)
    requires username != ""
    ensures Respond(username, Thrown(TokenCache.TokenError), reply, ageNowMs, daysNowMs) ==
      Response(500, ErrorDetailsBody(TokenCache.TokenErrorMessage, NoDetails))
  {
  }

  /** An upstream 503 with a body is passed through: status 503, the body echoed in `details`. */
  lemma UpstreamStatusPassthrough(username: string, token: string, message: string, body: string, ageNowMs: int, daysNowMs: int)
    requires username != "" && message != "" && body != ""
    ensures Respond(username, Ok(token), Failed(JsError(message, Some(503), Some(body))), ageNowMs, daysNowMs) ==
      Response(503, ErrorDetailsBody(message, body))
  {
  }

  /** The karma default: no `total_karma`, link karma 3 and comment karma 4 give 7. */
  lemma KarmaFallback(u: UserData)
    requires u.totalKarma.None? && u.linkKarma == Some(3) && u.commentKarma == Some(4)
    ensures TotalKarma(u) == Some(7)
  {
  }

  /** On success the age text and the day count describe the same number of days whenever the
      two helpers read the clock at the same instant: the text reads back as the years and
      months of the reported `age_days`, with a years part exactly when it is a year or more. */
  lemma {:induction false} AgeFieldsAgree(username: string, u: UserData, nowMs: int)
    ensures var p := MapProfile(username, u, nowMs, nowMs);
      var parsed := ParseAge(p.accountAge);
      parsed == Some(Shown(AgeParts(p.ageDays))) &&
      (p.ageDays >= 0 ==> (parsed.value.YearsAndMonths? <==> p.ageDays >= DaysPerYear))
  {
    FormatAgeRoundTrip(AgeParts(AgeDays(u.createdUtc * MsPerSecond, nowMs)));
  }

  /** The handler with the shared token cache: an empty username is answered before the cache
      is consulted; otherwise one `getRedditAccessToken` call is made at `tokenNowMs` and its
      outcome feeds the mapping. */
  method HandleProfileRequest(
    provider: TokenCache.TokenProvider, username: string,
    tokenNowMs: int, exchange: TokenCache.Exchange,
    reply: AboutReply, ageNowMs: int, daysNowMs: int) returns (r: Response)
    modifies provider
    ensures username == "" ==> unchanged(provider) && r == Response(400, ErrorBody(UsernameRequired))
    ensures username != "" ==>
      var step := TokenCache.Fetch(old(provider.State()), tokenNowMs, exchange);
      provider.State() == step.state &&
      provider.exchanges == old(provider.exchanges) + (if step.exchanged then 1 else 0) &&
      r == Respond(username, step.result, reply, ageNowMs, daysNowMs)
  {
    if username == "" {
      return Response(400, ErrorBody(UsernameRequired));
    }
    var token := provider.GetAccessToken(tokenNowMs, exchange);
    r := Respond(username, token, reply, ageNowMs, daysNowMs);
  }
}
