/**
 * The JSON wire types of the HTTP API (generated Go code in `internal/api`),
 * the error codes it reports and the replies a handler sends.
 */
module Api {
  import opened Wrappers
  import opened Clock

  datatype PostPullRequestCreateBody = PostPullRequestCreateBody(authorId: string, pullRequestId: string, pullRequestName: string)
  datatype PostPullRequestMergeBody = PostPullRequestMergeBody(pullRequestId: string)
  datatype PostPullRequestReassignBody = PostPullRequestReassignBody(oldUserId: string, pullRequestId: string)
  datatype PostUsersSetIsActiveBody = PostUsersSetIsActiveBody(userId: string, isActive: bool)

  datatype PullRequest = PullRequest(
    pullRequestId: string,
    pullRequestName: string,
    authorId: string,
    status: string,
    assignedReviewers: seq<string>,
    createdAt: Option<Time>,
    mergedAt: Option<Time>)

  datatype PullRequestShort = PullRequestShort(pullRequestId: string, pullRequestName: string, authorId: string, status: string)

  datatype TeamMember = TeamMember(userId: string, username: string, isActive: bool)
  datatype Team = Team(teamName: string, members: seq<TeamMember>)

  datatype User = User(userId: string, username: string, teamName: string, isActive: bool)

  /** The `error.code` values of an error reply. */
  datatype ErrorCode = BADREQUEST | NOTFOUND | PREXISTS | NOCANDIDATE | PRMERGED | NOTASSIGNED | TEAMEXISTS | INTERNAL

  const StatusOK := 200
  const StatusCreated := 201
  const StatusBadRequest := 400
  const StatusNotFound := 404
  const StatusConflict := 409
  const StatusInternalServerError := 500

  /**
   * The JSON document a handler writes. `TeamResponseBody` nests the team under
   * a "team" key; `TeamBody` is the bare team object.
   */
  datatype Body =
    | ErrorBody(code: ErrorCode)
    | PullRequestBody(pr: PullRequest)
    | ReassignBody(reassigned: PullRequest, replacedBy: string)
    | TeamResponseBody(team: Team)
    | TeamBody(team: Team)
    | UserBody(user: User)
    | ReviewsBody(userId: string, pullRequests: seq<PullRequestShort>)

  /** An HTTP status code with the body sent under it. */
  datatype Reply = Reply(status: int, body: Body)

  /** `response.SendErrorResponse(w, code, status)`. */
  function ErrorReply(code: ErrorCode, status: int): Reply
  {
    Reply(status, ErrorBody(code))
  }
}
