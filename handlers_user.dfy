/** The user endpoints: validate the id, call the use case, report the outcome. */
module HttpUser {
  import opened Wrappers
  import opened Errors
  import Api
  import opened Ids
  import opened Validation
  import opened DomainUser
  import opened DomainPR

  /** `mapDomainErrorToAPI` of the user handler: only an unknown user has its own code. */
  function MapDomainErrorToAPI(err: Error): (r: (Api.ErrorCode, int))
    ensures Is(err, UserNotFound) ==> r == (Api.NOTFOUND, Api.StatusNotFound)
    ensures !Is(err, UserNotFound) ==> r == (Api.INTERNAL, Api.StatusInternalServerError)
  {
    if Is(err, UserNotFound) then (Api.NOTFOUND, Api.StatusNotFound)
    else (Api.INTERNAL, Api.StatusInternalServerError)
  }

  function ErrorFor(err: Error): Api.Reply
  {
    var (code, status) := MapDomainErrorToAPI(err);
    Api.ErrorReply(code, status)
  }

  const BadRequest := Api.ErrorReply(Api.BADREQUEST, Api.StatusBadRequest)

  /**
   * GET /users/getReview?user_id=...: the use case receives the number after 'u';
   * the reply echoes the id as the client wrote it.
   */
  function GetUsersGetReview(userId: string, getUserPullRequests: int -> Result<seq<PullRequest>>): (r: Api.Reply)
    ensures r.status == Api.StatusBadRequest <==> ValidateUserId(userId) != Pass
    ensures r.status == Api.StatusBadRequest ==> r == BadRequest
    ensures ValidateUserId(userId) == Pass ==>
              var outcome := getUserPullRequests(DecimalValue(userId[1..]));
              && (outcome.Ok? <==> r.status == Api.StatusOK)
              && (outcome.Ok? ==> r.body == Api.ReviewsBody(userId, DomainPRsToAPIShort(outcome.value)))
              && (outcome.Err? ==> r == ErrorFor(outcome.error))
  {
    if ValidateUserId(userId).Fail? then
      BadRequest
    else
      match getUserPullRequests(ParseUserId(userId))
      case Err(err) => ErrorFor(err)
      case Ok(prs) => Api.Reply(Api.StatusOK, Api.ReviewsBody(userId, DomainPRsToAPIShort(prs)))
  }

  /** POST /users/setIsActive. `req` is None when the body does not decode. */
  function PostUsersSetIsActive(req: Option<Api.PostUsersSetIsActiveBody>,
                                setUserIsActive: SetUserIsActive -> Result<User>): (r: Api.Reply)
    ensures r.status == Api.StatusBadRequest <==> req.None? || ValidateUserId(req.value.userId) != Pass
    ensures r.status == Api.StatusBadRequest ==> r == BadRequest
    ensures req.Some? && ValidateUserId(req.value.userId) == Pass ==>
              var outcome := setUserIsActive(APIToDomainSetIsActive(req.value));
              && (outcome.Ok? <==> r.status == Api.StatusOK)
              && (outcome.Ok? ==> r.body == Api.UserBody(DomainUserToAPI(outcome.value)))
              && (outcome.Err? ==> r == ErrorFor(outcome.error))
  {
    if req.None? || ValidateUserId(req.value.userId).Fail? then
      BadRequest
    else
      match setUserIsActive(APIToDomainSetIsActive(req.value))
      case Err(err) => ErrorFor(err)
      case Ok(user) => Api.Reply(Api.StatusOK, Api.UserBody(DomainUserToAPI(user)))
  }
}
