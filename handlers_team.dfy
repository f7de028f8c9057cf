/** The team endpoints: validate, convert, call the use case, report the outcome. */
module HttpTeam {
  import opened Wrappers
  import opened Errors
  import Api
  import opened Validation
  import opened DomainTeam

  /** `mapDomainErrorToAPI` of the team handler; an existing team is reported as a bad request. */
  function MapDomainErrorToAPI(err: Error): (r: (Api.ErrorCode, int))
    ensures Is(err, TeamExists) ==> r == (Api.TEAMEXISTS, Api.StatusBadRequest)
    ensures Is(err, TeamNotFound) ==> r == (Api.NOTFOUND, Api.StatusNotFound)
    ensures !Is(err, TeamExists) && !Is(err, TeamNotFound) ==> r == (Api.INTERNAL, Api.StatusInternalServerError)
  {
    SentinelsUnique(err);
    if Is(err, TeamExists) then (Api.TEAMEXISTS, Api.StatusBadRequest)
    else if Is(err, TeamNotFound) then (Api.NOTFOUND, Api.StatusNotFound)
    else (Api.INTERNAL, Api.StatusInternalServerError)
  }

  /** A failing store, however deeply wrapped, is reported as an internal error. */
  lemma StorageFailureIsInternal(err: Error)
    requires IsStorageFailure(err)
    ensures MapDomainErrorToAPI(err) == (Api.INTERNAL, Api.StatusInternalServerError)
  {
  }

  function ErrorFor(err: Error): Api.Reply
  {
    var (code, status) := MapDomainErrorToAPI(err);
    Api.ErrorReply(code, status)
  }

  const BadRequest := Api.ErrorReply(Api.BADREQUEST, Api.StatusBadRequest)

  /**
   * POST /team/add. `req` is None when the body does not decode. A rejected body
   * gets the same reply whatever the use case would do.
   */
  function PostTeamAdd(req: Option<Api.Team>, createTeam: Team -> Result<Team>): (r: Api.Reply)
    ensures req.None? || ValidateTeam(req.value) != Pass ==> r == BadRequest
    ensures req.Some? && ValidateTeam(req.value) == Pass ==>
              SliceableIds(req.value) &&
              var outcome := createTeam(APIToDomainTeam(req.value));
              && (outcome.Ok? <==> r.status == Api.StatusCreated)
              && (outcome.Ok? ==> r.body == Api.TeamResponseBody(DomainTeamToAPI(outcome.value)))
              && (outcome.Err? ==> r == ErrorFor(outcome.error))
  {
    if req.None? || ValidateTeam(req.value).Fail? then
      BadRequest
    else
      ValidTeamIdsSliceable(req.value);
      var outcome := createTeam(APIToDomainTeam(req.value));
      match outcome
      case Err(err) => ErrorFor(err)
      case Ok(created) => Api.Reply(Api.StatusCreated, Api.TeamResponseBody(DomainTeamToAPI(created)))
  }

  /** GET /team/get?team_name=...; a blank name is refused before the use case. */
  function GetTeamGet(teamName: string, getTeamByName: string -> Result<Team>): (r: Api.Reply)
    ensures ValidateTeamName(teamName) != Pass ==> r == BadRequest
    ensures ValidateTeamName(teamName) == Pass ==>
              var outcome := getTeamByName(teamName);
              && (outcome.Ok? <==> r.status == Api.StatusOK)
              && (outcome.Ok? ==> r.body == Api.TeamBody(DomainTeamToAPI(outcome.value)))
              && (outcome.Err? ==> r == ErrorFor(outcome.error))
  {
    if ValidateTeamName(teamName).Fail? then
      BadRequest
    else
      match getTeamByName(teamName)
      case Err(err) => ErrorFor(err)
      case Ok(team) => Api.Reply(Api.StatusOK, Api.TeamBody(DomainTeamToAPI(team)))
  }
}
