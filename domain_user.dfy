/** Users in the domain and their conversion from and to the wire form. */
module DomainUser {
  import Api
  import opened Ids

  datatype User = User(id: int, username: string, teamName: string, isActive: bool)

  /** The request to switch a user's active flag. */
  datatype SetUserIsActive = SetUserIsActive(id: int, isActive: bool)

  /** Reads the numeric id after 'u' and copies the flag; a body with an empty id would panic in Go. */
  function APIToDomainSetIsActive(body: Api.PostUsersSetIsActiveBody): (r: SetUserIsActive)
    requires |body.userId| >= 1
    ensures r.isActive == body.isActive
    ensures |body.userId| >= 2 && AllDigits(body.userId[1..]) ==> r.id == DecimalValue(body.userId[1..])
    ensures CanonicalUserId(body.userId) ==> FormatUserId(r.id) == body.userId
  {
    CanonicalUserIdRoundTrip(body.userId);
    SetUserIsActive(ParseUserId(body.userId), body.isActive)
  }

  /** Formats the id as "u<id>" and copies the other three fields. */
  function DomainUserToAPI(u: User): (r: Api.User)
    ensures |r.userId| >= 1 && ParseUserId(r.userId) == u.id
    ensures |r.userId| >= 2 && r.userId[0] == 'u' && (CanonicalUserId(r.userId) <==> u.id >= 0)
    ensures r.username == u.username && r.teamName == u.teamName && r.isActive == u.isActive
  {
    UserIdRoundTrip(u.id);
    UserIdForm(u.id);
    Api.User(FormatUserId(u.id), u.username, u.teamName, u.isActive)
  }

  /** A domain request printed to the wire and read back is the same request, for every id. */
  lemma SetIsActiveRoundTrip(s: SetUserIsActive)
    ensures |FormatUserId(s.id)| >= 1
    ensures APIToDomainSetIsActive(Api.PostUsersSetIsActiveBody(FormatUserId(s.id), s.isActive)) == s
  {
    UserIdRoundTrip(s.id);
  }
}
