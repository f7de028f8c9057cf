/** Syntactic checks of request bodies before any use case runs. */
module Validation {
  import Api
  import opened Errors
  import opened Ids
  import opened Text

  /** The accepted user-id shape: 'u' followed by one or more decimal digits. */
  ghost predicate UserIdShape(id: string)
  {
    exists digits: string :: |digits| >= 1 && AllDigits(digits) && id == "u" + digits
  }

  /** The accepted pull-request-id shape: "pr-" followed by one or more decimal digits. */
  ghost predicate PRIdShape(id: string)
  {
    exists digits: string :: |digits| >= 1 && AllDigits(digits) && id == "pr-" + digits
  }

  /** `ValidateUserId`: a short id, a wrong first letter or a non-digit after it is an invalid user. */
  function ValidateUserId(id: string): (r: Check)
    ensures r == Pass <==> UserIdShape(id)
    ensures r == Pass ==> |id| >= 2 && id[0] == 'u' && AllDigits(id[1..])
    ensures r != Pass ==> r == Fail(Domain(InvalidUser))
  {
    if |id| < 2 || id[0] != 'u' then
      Fail(Domain(InvalidUser))
    else if !AllDigits(id[1..]) then
      Fail(Domain(InvalidUser))
    else
      assert id == "u" + id[1..];
      Pass
  }

  /** `ValidatePRId`: a short id, a wrong prefix or a non-digit after it is an invalid pull request. */
  function ValidatePRId(id: string): (r: Check)
    ensures r == Pass <==> PRIdShape(id)
    ensures r == Pass ==> |id| >= 4 && id[..3] == "pr-" && AllDigits(id[3..])
    ensures r != Pass ==> r == Fail(Domain(InvalidPullRequest))
  {
    if |id| < 4 || id[..3] != "pr-" then
      Fail(Domain(InvalidPullRequest))
    else if |id[3..]| == 0 then
      Fail(Domain(InvalidPullRequest))
    else if !AllDigits(id[3..]) then
      Fail(Domain(InvalidPullRequest))
    else
      assert id == "pr-" + id[3..];
      Pass
  }

  /** The ids the service prints are accepted back exactly when they are not negative. */
  lemma FormattedIdsValid(n: int)
    ensures ValidateUserId(FormatUserId(n)) == Pass <==> n >= 0
    ensures ValidatePRId(FormatPRId(n)) == Pass <==> n >= 0
  {
  }

  /** `ValidatePR`: the author id first, then the pull-request id, then a non-blank name. */
  function ValidatePR(body: Api.PostPullRequestCreateBody): (r: Check)
    ensures r == Pass <==> UserIdShape(body.authorId) && PRIdShape(body.pullRequestId) && !AllSpace(body.pullRequestName)
    ensures r == Pass ==> |body.authorId| >= 2 && AllDigits(body.authorId[1..])
                          && |body.pullRequestId| >= 4 && AllDigits(body.pullRequestId[3..])
    ensures !UserIdShape(body.authorId) ==> r == Fail(Domain(InvalidUser))
    ensures UserIdShape(body.authorId) && r != Pass ==> r == Fail(Domain(InvalidPullRequest))
  {
    BlankIffAllSpace(body.pullRequestName);
    if ValidateUserId(body.authorId).Fail? then
      Fail(Domain(InvalidUser))
    else if ValidatePRId(body.pullRequestId).Fail? then
      Fail(Domain(InvalidPullRequest))
    else if IsBlank(body.pullRequestName) then
      Fail(Domain(InvalidPullRequest))
    else
      Pass
  }

  /** `ValidateTeamName`: a name that is empty or only white space is refused. */
  function ValidateTeamName(name: string): (r: Check)
    ensures r == Pass <==> !AllSpace(name)
    ensures r != Pass ==> r == Fail(Domain(TeamNameEmpty))
  {
    BlankIffAllSpace(name);
    if IsBlank(name) then Fail(Domain(TeamNameEmpty)) else Pass
  }

  /** A team member the service accepts: a well-formed id and a non-blank user name. */
  ghost predicate ValidMember(m: Api.TeamMember)
  {
    UserIdShape(m.userId) && !AllSpace(m.username)
  }

  /** The member loop of `ValidateTeam`: the first bad member stops it with an invalid-user error. */
  function ValidateMembers(members: seq<Api.TeamMember>): (r: Check)
    ensures r == Pass <==> forall i | 0 <= i < |members| :: ValidMember(members[i])
    ensures r != Pass ==> r == Fail(Domain(InvalidUser))
  {
    if members == [] then
      Pass
    else
      var m := members[0];
      BlankIffAllSpace(m.username);
      if ValidateUserId(m.userId).Fail? then
        ValidateUserId(m.userId)
      else if IsBlank(m.username) then
        Fail(Domain(InvalidUser))
      else
        var rest := ValidateMembers(members[1..]);
        assert forall i | 1 <= i < |members| :: members[i] == members[1..][i - 1];
        rest
  }

  /** `ValidateTeam`: the name first, then a non-empty member list, then every member. */
  function ValidateTeam(team: Api.Team): (r: Check)
    ensures r == Pass <==> !AllSpace(team.teamName) && |team.members| > 0
                           && forall i | 0 <= i < |team.members| :: ValidMember(team.members[i])
    ensures AllSpace(team.teamName) ==> r == Fail(Domain(TeamNameEmpty))
    ensures !AllSpace(team.teamName) && team.members == [] ==> r == Fail(Domain(TeamEmptyMembers))
    ensures !AllSpace(team.teamName) && team.members != [] && r != Pass ==> r == Fail(Domain(InvalidUser))
  {
    var nameCheck := ValidateTeamName(team.teamName);
    if nameCheck.Fail? then
      nameCheck
    else if |team.members| == 0 then
      Fail(Domain(TeamEmptyMembers))
    else
      ValidateMembers(team.members)
  }

  /** Every id of a team that passes validation can be sliced by the domain mapper. */
  lemma ValidTeamIdsSliceable(team: Api.Team)
    requires ValidateTeam(team) == Pass
    ensures forall i | 0 <= i < |team.members| :: |team.members[i].userId| >= 2
  {
  }
}
