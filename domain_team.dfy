/** Teams in the domain and their conversion from and to the wire form. */
module DomainTeam {
  import Api
  import opened Ids

  datatype TeamMember = TeamMember(isActive: bool, userId: int, username: string)
  datatype Team = Team(id: int, name: string, members: seq<TeamMember>)

  /** Every member id of a wire team can be sliced after its first character. */
  predicate SliceableIds(ta: Api.Team)
  {
    forall i | 0 <= i < |ta.members| :: |ta.members[i].userId| >= 1
  }

  /** One domain member for one wire member. */
  function APIToDomainMember(m: Api.TeamMember): (r: TeamMember)
    requires |m.userId| >= 1
    ensures r.isActive == m.isActive && r.username == m.username
    ensures |m.userId| >= 2 && AllDigits(m.userId[1..]) ==> r.userId == DecimalValue(m.userId[1..])
    ensures CanonicalUserId(m.userId) ==> FormatUserId(r.userId) == m.userId
  {
    CanonicalUserIdRoundTrip(m.userId);
    TeamMember(m.isActive, ParseUserId(m.userId), m.username)
  }

  /**
   * Copies the name and converts the members one by one, in order; the id is
   * left at Go's zero value. A member with an empty id would panic in Go.
   */
  function APIToDomainTeam(ta: Api.Team): (t: Team)
    requires SliceableIds(ta)
    ensures t.id == 0 && t.name == ta.teamName
    ensures |t.members| == |ta.members|
    ensures forall i | 0 <= i < |t.members| ::
              t.members[i].isActive == ta.members[i].isActive && t.members[i].username == ta.members[i].username
              && (CanonicalUserId(ta.members[i].userId) ==> FormatUserId(t.members[i].userId) == ta.members[i].userId)
    ensures forall i | 0 <= i < |t.members| && |ta.members[i].userId| >= 2 && AllDigits(ta.members[i].userId[1..]) ::
              t.members[i].userId == DecimalValue(ta.members[i].userId[1..])
  {
    Team(0, ta.teamName, seq(|ta.members|, i requires 0 <= i < |ta.members| => APIToDomainMember(ta.members[i])))
  }

  /** Copies the name and converts the members one by one, in order, printing ids as "u<id>". */
  function DomainTeamToAPI(t: Team): (ta: Api.Team)
    ensures ta.teamName == t.name && |ta.members| == |t.members|
    ensures forall i | 0 <= i < |ta.members| ::
              ta.members[i].isActive == t.members[i].isActive && ta.members[i].username == t.members[i].username
              && |ta.members[i].userId| >= 1 && ParseUserId(ta.members[i].userId) == t.members[i].userId
    ensures forall i | 0 <= i < |ta.members| ::
              |ta.members[i].userId| >= 2 && ta.members[i].userId[0] == 'u' && (CanonicalUserId(ta.members[i].userId) <==> t.members[i].userId >= 0)
  {
    AllUserIdsRoundTrip();
    Api.Team(t.name, seq(|t.members|, i requires 0 <= i < |t.members| =>
      Api.TeamMember(FormatUserId(t.members[i].userId), t.members[i].username, t.members[i].isActive)))
  }

  /** A domain team printed to the wire and read back keeps its name and members; only the id is lost. */
  lemma TeamRoundTrip(t: Team)
    ensures SliceableIds(DomainTeamToAPI(t))
    ensures APIToDomainTeam(DomainTeamToAPI(t)) == t.(id := 0)
  {
  }

  /** A wire team whose ids are all canonical survives the trip through the domain form unchanged. */
  lemma ApiTeamRoundTrip(ta: Api.Team)
    requires forall i | 0 <= i < |ta.members| :: CanonicalUserId(ta.members[i].userId)
    ensures SliceableIds(ta)
    ensures DomainTeamToAPI(APIToDomainTeam(ta)) == ta
  {
  }
}
