/**
 * The pull-request endpoints: decode, validate, convert, call the use case,
 * and turn its outcome into an HTTP status and body.
 */
module HttpPullRequest {
  import opened Wrappers
  import opened Errors
  import Api
  import opened Ids
  import opened Validation
  import opened DomainPR
  import UsecasePullRequest

  /** The sentinels this handler reports with a dedicated code. */
  predicate Reported(err: Error)
  {
    Is(err, UserNotFound) || Is(err, PullRequestNotFound) || Is(err, PullRequestExists)
    || Is(err, NoAvailableCandidats) || Is(err, PullRequestIsMerged) || Is(err, NotAssigned)
  }

  /** `mapDomainErrorToAPI`: the error code and HTTP status reported for a use-case error. */
  function MapDomainErrorToAPI(err: Error): (r: (Api.ErrorCode, int))
    ensures Is(err, UserNotFound) ==> r == (Api.NOTFOUND, Api.StatusNotFound)
    ensures Is(err, PullRequestNotFound) ==> r == (Api.NOTFOUND, Api.StatusNotFound)
    ensures Is(err, PullRequestExists) ==> r == (Api.PREXISTS, Api.StatusConflict)
    ensures Is(err, NoAvailableCandidats) ==> r == (Api.NOCANDIDATE, Api.StatusConflict)
    ensures Is(err, PullRequestIsMerged) ==> r == (Api.PRMERGED, Api.StatusConflict)
    ensures Is(err, NotAssigned) ==> r == (Api.NOTASSIGNED, Api.StatusConflict)
    ensures !Reported(err) ==> r == (Api.INTERNAL, Api.StatusInternalServerError)
    ensures r.1 != Api.StatusBadRequest
  {
    SentinelsUnique(err);
    if Is(err, UserNotFound) then (Api.NOTFOUND, Api.StatusNotFound)
    else if Is(err, PullRequestExists) then (Api.PREXISTS, Api.StatusConflict)
    else if Is(err, PullRequestNotFound) then (Api.NOTFOUND, Api.StatusNotFound)
    else if Is(err, NoAvailableCandidats) then (Api.NOCANDIDATE, Api.StatusConflict)
    else if Is(err, PullRequestIsMerged) then (Api.PRMERGED, Api.StatusConflict)
    else if Is(err, NotAssigned) then (Api.NOTASSIGNED, Api.StatusConflict)
    else (Api.INTERNAL, Api.StatusInternalServerError)
  }

  /** A failing store, however deeply wrapped, is reported as an internal error. */
  lemma StorageFailureIsInternal(err: Error)
    requires IsStorageFailure(err)
    ensures MapDomainErrorToAPI(err) == (Api.INTERNAL, Api.StatusInternalServerError)
  {
  }

  /** The error reply for a use-case error. */
  function ErrorFor(err: Error): Api.Reply
  {
    var (code, status) := MapDomainErrorToAPI(err);
    Api.ErrorReply(code, status)
  }

  const BadRequest := Api.ErrorReply(Api.BADREQUEST, Api.StatusBadRequest)

  /**
   * POST /pullRequest/create. `req` is None when the body does not decode;
   * `createPullRequest` stands for the use case.
   */
  function PostPullRequestCreate(req: Option<Api.PostPullRequestCreateBody>,
                                 createPullRequest: CreatePullRequest -> Result<PullRequest>): (r: Api.Reply)
    ensures r.status == Api.StatusBadRequest <==> req.None? || ValidatePR(req.value) != Pass
    ensures r.status == Api.StatusBadRequest ==> r == BadRequest
    ensures req.Some? && ValidatePR(req.value) == Pass ==>
              var outcome := createPullRequest(APIToDomainPullRequestCreate(req.value));
              && (outcome.Ok? <==> r.status == Api.StatusCreated)
              && (outcome.Ok? ==> r.body == Api.PullRequestBody(DomainPRToAPI(outcome.value)))
              && (outcome.Err? ==> r == ErrorFor(outcome.error))
  {
    if req.None? || ValidatePR(req.value).Fail? then
      BadRequest
    else
      var outcome := createPullRequest(APIToDomainPullRequestCreate(req.value));
      match outcome
      case Err(err) => ErrorFor(err)
      case Ok(created) => Api.Reply(Api.StatusCreated, Api.PullRequestBody(DomainPRToAPI(created)))
  }

  /** POST /pullRequest/merge; the use case receives the number after "pr-". */
  function PostPullRequestMerge(req: Option<Api.PostPullRequestMergeBody>,
                                mergePullRequest: int -> Result<PullRequest>): (r: Api.Reply)
    ensures r.status == Api.StatusBadRequest <==> req.None? || ValidatePRId(req.value.pullRequestId) != Pass
    ensures r.status == Api.StatusBadRequest ==> r == BadRequest
    ensures req.Some? && ValidatePRId(req.value.pullRequestId) == Pass ==>
              var id := req.value.pullRequestId;
              var outcome := mergePullRequest(DecimalValue(id[3..]));
              && (outcome.Ok? <==> r.status == Api.StatusOK)
              && (outcome.Ok? ==> r.body == Api.PullRequestBody(DomainPRToAPI(outcome.value)))
              && (outcome.Err? ==> r == ErrorFor(outcome.error))
  {
    if req.None? || ValidatePRId(req.value.pullRequestId).Fail? then
      BadRequest
    else
      var id := req.value.pullRequestId;
      var outcome := mergePullRequest(Atoi(id[3..]));
      match outcome
      case Err(err) => ErrorFor(err)
      case Ok(merged) => Api.Reply(Api.StatusOK, Api.PullRequestBody(DomainPRToAPI(merged)))
  }

  /**
   * POST /pullRequest/reassign: the pull-request id is checked before the user id;
   * `replaced_by` is the new reviewer's id printed as "u<id>".
   */
  function PostPullRequestReassign(req: Option<Api.PostPullRequestReassignBody>,
                                   reassignReviewer: ReassignReviewer -> Result<UsecasePullRequest.Reassigned>): (r: Api.Reply)
    ensures r.status == Api.StatusBadRequest <==>
              req.None? || ValidatePRId(req.value.pullRequestId) != Pass || ValidateUserId(req.value.oldUserId) != Pass
    ensures r.status == Api.StatusBadRequest ==> r == BadRequest
    ensures req.Some? && ValidatePRId(req.value.pullRequestId) == Pass && ValidateUserId(req.value.oldUserId) == Pass ==>
              var outcome := reassignReviewer(APIReassignToDomain(req.value));
              && (outcome.Ok? <==> r.status == Api.StatusOK)
              && (outcome.Ok? ==> r.body.ReassignBody? && r.body.reassigned == DomainPRToAPI(outcome.value.pr)
                                  && |r.body.replacedBy| >= 2 && r.body.replacedBy[0] == 'u'
                                  && ParseUserId(r.body.replacedBy) == outcome.value.replacedBy
                                  && (CanonicalUserId(r.body.replacedBy) <==> outcome.value.replacedBy >= 0))
              && (outcome.Err? ==> r == ErrorFor(outcome.error))
  {
    if req.None? || ValidatePRId(req.value.pullRequestId).Fail? || ValidateUserId(req.value.oldUserId).Fail? then
      BadRequest
    else
      var outcome := reassignReviewer(APIReassignToDomain(req.value));
      match outcome
      case Err(err) => ErrorFor(err)
      case Ok(reassigned) =>
        UserIdRoundTrip(reassigned.replacedBy);
        UserIdForm(reassigned.replacedBy);
        Api.Reply(Api.StatusOK, Api.ReassignBody(DomainPRToAPI(reassigned.pr), FormatUserId(reassigned.replacedBy)))
  }
}
