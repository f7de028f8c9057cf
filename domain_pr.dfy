/** Pull requests in the domain, their status and their conversion from and to the wire form. */
module DomainPR {
  import Api
  import opened Wrappers
  import opened Clock
  import opened Ids

  /** The most reviewers a pull request gets on creation. */
  const MaxReviewersNumber: nat := 2

  datatype PRStatus = Open | Merged

  /** The string value of each status constant. */
  function StatusName(s: PRStatus): string
  {
    match s
    case Open => "OPEN"
    case Merged => "MERGED"
  }

  /** `MapDomainStatusToAPI`: the status as the full pull-request reply spells it. */
  const DomainStatusToAPI: map<PRStatus, string> := map[Open := "OPEN", Merged := "MERGED"]

  /** `MapStringToPullRequestStatusShort`: the status as the short reply spells it. */
  const DomainStatusToAPIShort: map<PRStatus, string> := map[Open := "OPEN", Merged := "MERGED"]

  /** `MapStringToPullRequestStatus`: the status named by a string. */
  const StringToPullRequestStatus: map<string, PRStatus> := map["OPEN" := Open, "MERGED" := Merged]

  /** Both status maps are total, and reading a status back from its name gives the status. */
  lemma StatusMaps(s: PRStatus)
    ensures s in DomainStatusToAPI && DomainStatusToAPI[s] == StatusName(s)
    ensures s in DomainStatusToAPIShort && DomainStatusToAPIShort[s] == StatusName(s)
    ensures StatusName(s) in StringToPullRequestStatus && StringToPullRequestStatus[StatusName(s)] == s
    ensures StringToPullRequestStatus.Keys == {"OPEN", "MERGED"}
  {
  }

  datatype PullRequest = PullRequest(
    id: int,
    name: string,
    authorId: int,
    status: PRStatus,
    assignedReviewers: seq<int>,
    createdAt: Time,
    mergedAt: Option<Time>)

  /** The request to open a pull request. */
  datatype CreatePullRequest = CreatePullRequest(pullRequestId: int, name: string, authorId: int)

  /** The request to replace the reviewer `userId` of pull request `pullRequestId`. */
  datatype ReassignReviewer = ReassignReviewer(pullRequestId: int, userId: int)

  /**
   * Reads the numbers after 'u' and after "pr-" and copies the name; ids too short
   * to slice would panic in Go.
   */
  function APIToDomainPullRequestCreate(body: Api.PostPullRequestCreateBody): (r: CreatePullRequest)
    requires |body.authorId| >= 1 && |body.pullRequestId| >= 3
    ensures r.name == body.pullRequestName
    ensures |body.authorId| >= 2 && AllDigits(body.authorId[1..]) ==> r.authorId == DecimalValue(body.authorId[1..])
    ensures |body.pullRequestId| >= 4 && AllDigits(body.pullRequestId[3..]) ==>
              r.pullRequestId == DecimalValue(body.pullRequestId[3..])
    ensures CanonicalUserId(body.authorId) ==> FormatUserId(r.authorId) == body.authorId
    ensures CanonicalPRId(body.pullRequestId) ==> FormatPRId(r.pullRequestId) == body.pullRequestId
  {
    CanonicalUserIdRoundTrip(body.authorId);
    CanonicalPRIdRoundTrip(body.pullRequestId);
    CreatePullRequest(ParsePRId(body.pullRequestId), body.pullRequestName, ParseUserId(body.authorId))
  }

  /** The body the service would accept for a request, printed with "u%d" and "pr-%d". */
  function CreateBodyOf(cr: CreatePullRequest): Api.PostPullRequestCreateBody
  {
    Api.PostPullRequestCreateBody(FormatUserId(cr.authorId), FormatPRId(cr.pullRequestId), cr.name)
  }

  /** A create request printed to the wire and read back is the same request. */
  lemma CreateRoundTrip(cr: CreatePullRequest)
    ensures |CreateBodyOf(cr).authorId| >= 1 && |CreateBodyOf(cr).pullRequestId| >= 3
    ensures APIToDomainPullRequestCreate(CreateBodyOf(cr)) == cr
  {
    UserIdRoundTrip(cr.authorId);
    PRIdRoundTrip(cr.pullRequestId);
  }

  /** Every id printed as "u<id>", in order. */
  function FormatUserIds(ids: seq<int>): (r: seq<string>)
    ensures |r| == |ids|
    ensures forall i | 0 <= i < |r| :: |r[i]| >= 1 && ParseUserId(r[i]) == ids[i]
    ensures forall i | 0 <= i < |r| :: |r[i]| >= 2 && r[i][0] == 'u' && (CanonicalUserId(r[i]) <==> ids[i] >= 0)
  {
    AllUserIdsRoundTrip();
    seq(|ids|, i requires 0 <= i < |ids| => FormatUserId(ids[i]))
  }

  /** The full reply form of a pull request. */
  function DomainPRToAPI(pr: PullRequest): (r: Api.PullRequest)
    ensures |r.pullRequestId| >= 3 && ParsePRId(r.pullRequestId) == pr.id
    ensures |r.pullRequestId| >= 4 && r.pullRequestId[..3] == "pr-" && (CanonicalPRId(r.pullRequestId) <==> pr.id >= 0)
    ensures |r.authorId| >= 1 && ParseUserId(r.authorId) == pr.authorId
    ensures |r.authorId| >= 2 && r.authorId[0] == 'u' && (CanonicalUserId(r.authorId) <==> pr.authorId >= 0)
    ensures r.pullRequestName == pr.name && r.status == StatusName(pr.status)
    ensures r.createdAt == Some(pr.createdAt) && r.mergedAt == pr.mergedAt
    ensures |r.assignedReviewers| == |pr.assignedReviewers|
    ensures forall i | 0 <= i < |r.assignedReviewers| ::
              |r.assignedReviewers[i]| >= 1 && ParseUserId(r.assignedReviewers[i]) == pr.assignedReviewers[i]
    ensures forall i | 0 <= i < |r.assignedReviewers| ::
              |r.assignedReviewers[i]| >= 2 && r.assignedReviewers[i][0] == 'u' && (CanonicalUserId(r.assignedReviewers[i]) <==> pr.assignedReviewers[i] >= 0)
  {
    PRIdRoundTrip(pr.id);
    PRIdForm(pr.id);
    UserIdRoundTrip(pr.authorId);
    UserIdForm(pr.authorId);
    StatusMaps(pr.status);
    Api.PullRequest(
      FormatPRId(pr.id),
      pr.name,
      FormatUserId(pr.authorId),
      DomainStatusToAPI[pr.status],
      FormatUserIds(pr.assignedReviewers),
      Some(pr.createdAt),
      pr.mergedAt)
  }

  /** The short reply form of a pull request. */
  function DomainPRToAPIShort(pr: PullRequest): (r: Api.PullRequestShort)
    ensures |r.pullRequestId| >= 3 && ParsePRId(r.pullRequestId) == pr.id
    ensures |r.pullRequestId| >= 4 && r.pullRequestId[..3] == "pr-" && (CanonicalPRId(r.pullRequestId) <==> pr.id >= 0)
    ensures |r.authorId| >= 1 && ParseUserId(r.authorId) == pr.authorId
    ensures |r.authorId| >= 2 && r.authorId[0] == 'u' && (CanonicalUserId(r.authorId) <==> pr.authorId >= 0)
    ensures r.pullRequestName == pr.name && r.status == StatusName(pr.status)
  {
    PRIdRoundTrip(pr.id);
    PRIdForm(pr.id);
    UserIdRoundTrip(pr.authorId);
    UserIdForm(pr.authorId);
    StatusMaps(pr.status);
    Api.PullRequestShort(FormatPRId(pr.id), pr.name, FormatUserId(pr.authorId), DomainStatusToAPIShort[pr.status])
  }

  /** The short form of each pull request, in order. */
  function DomainPRsToAPIShort(prs: seq<PullRequest>): (r: seq<Api.PullRequestShort>)
    ensures |r| == |prs|
    ensures forall i | 0 <= i < |r| :: r[i] == DomainPRToAPIShort(prs[i])
  {
    seq(|prs|, i requires 0 <= i < |prs| => DomainPRToAPIShort(prs[i]))
  }

  /** Reads the pull-request number after "pr-" and the user number after 'u'. */
  function APIReassignToDomain(body: Api.PostPullRequestReassignBody): (r: ReassignReviewer)
    requires |body.pullRequestId| >= 3 && |body.oldUserId| >= 1
    ensures |body.pullRequestId| >= 4 && AllDigits(body.pullRequestId[3..]) ==>
              r.pullRequestId == DecimalValue(body.pullRequestId[3..])
    ensures |body.oldUserId| >= 2 && AllDigits(body.oldUserId[1..]) ==> r.userId == DecimalValue(body.oldUserId[1..])
    ensures CanonicalPRId(body.pullRequestId) ==> FormatPRId(r.pullRequestId) == body.pullRequestId
    ensures CanonicalUserId(body.oldUserId) ==> FormatUserId(r.userId) == body.oldUserId
  {
    CanonicalUserIdRoundTrip(body.oldUserId);
    CanonicalPRIdRoundTrip(body.pullRequestId);
    ReassignReviewer(ParsePRId(body.pullRequestId), ParseUserId(body.oldUserId))
  }

  /** A reassignment request printed to the wire and read back is the same request. */
  lemma ReassignRoundTrip(r: ReassignReviewer)
    ensures |FormatPRId(r.pullRequestId)| >= 3 && |FormatUserId(r.userId)| >= 1
    ensures APIReassignToDomain(Api.PostPullRequestReassignBody(FormatUserId(r.userId), FormatPRId(r.pullRequestId))) == r
  {
    UserIdRoundTrip(r.userId);
    PRIdRoundTrip(r.pullRequestId);
  }
}
