/** The team use case over an abstract team store. */
module UsecaseTeam {
  import opened Errors
  import opened DomainTeam

  /**
   * The store behind the `teamRepo` interface: the team rows in insertion order,
   * the next id the store hands out, and the names of the operations that fail.
   * The store itself does not refuse a second team with a taken name.
   */
  class TeamRepo {
    var teams: seq<Team>
    var nextId: int
    var failing: set<string>

    constructor(teams: seq<Team>, nextId: int, failing: set<string>)
      ensures this.teams == teams && this.nextId == nextId && this.failing == failing
    {
      this.teams := teams;
      this.nextId := nextId;
      this.failing := failing;
    }

    /** Every stored id is below the next one handed out, so that one is fresh. */
    predicate Valid()
      reads this
    {
      forall i | 0 <= i < |teams| :: teams[i].id < nextId
    }

    predicate Fails(op: string)
      reads this
    {
      op in failing
    }

    predicate HasName(name: string)
      reads this
    {
      exists i | 0 <= i < |teams| :: teams[i].name == name
    }

    /** No two stored teams share a name. */
    predicate UniqueNames()
      reads this
    {
      forall i, j | 0 <= i < |teams| && 0 <= j < |teams| && teams[i].name == teams[j].name :: i == j
    }

    method ExistsByName(name: string) returns (r: Result<bool>)
      ensures r == if Fails("ExistsByName") then Err(Storage("ExistsByName")) else Ok(HasName(name))
    {
      if "ExistsByName" in failing {
        return Err(Storage("ExistsByName"));
      }
      return Ok(HasName(name));
    }

    /** Inserts the team under a fresh id and returns it with that id. */
    method Create(team: Team) returns (r: Result<Team>)
      modifies this
      ensures failing == old(failing)
      ensures if Fails("Create")
              then r == Err(Storage("Create")) && teams == old(teams) && nextId == old(nextId)
              else r == Ok(team.(id := old(nextId))) && teams == old(teams) + [r.value] && nextId == old(nextId) + 1
      ensures old(Valid()) ==> Valid()
      ensures old(Valid()) && r.Ok? ==> forall i | 0 <= i < |old(teams)| :: old(teams)[i].id != r.value.id
    {
      if "Create" in failing {
        return Err(Storage("Create"));
      }
      var created := team.(id := nextId);
      teams := teams + [created];
      nextId := nextId + 1;
      return Ok(created);
    }

    /** A stored team with that name; a missing name matches no row. */
    method GetByName(name: string) returns (r: Result<Team>)
      ensures Fails("GetByName") || !HasName(name) ==> r == Err(Storage("GetByName"))
      ensures !Fails("GetByName") && HasName(name) ==> r.Ok? && r.value in teams && r.value.name == name
    {
      if "GetByName" in failing || !HasName(name) {
        return Err(Storage("GetByName"));
      }
      var i :| 0 <= i < |teams| && teams[i].name == name;
      return Ok(teams[i]);
    }
  }

  class TeamUsecase {
    const repo: TeamRepo

    constructor(repo: TeamRepo)
      ensures this.repo == repo
    {
      this.repo := repo;
    }

    /** Asks the store whether the name is taken; a store failure is wrapped. */
    method CheckTeamNameExists(name: string) returns (r: Result<bool>)
      ensures repo.Fails("ExistsByName") ==> r.Err? && IsStorageFailure(r.error)
      ensures !repo.Fails("ExistsByName") ==> r == Ok(repo.HasName(name))
    {
      var found := repo.ExistsByName(name);
      if found.Err? {
        return Err(Wrapped("failed to check team_name existance", found.error));
      }
      return Ok(found.value);
    }

    /**
     * Refuses a taken name, otherwise stores the team. Nothing is written on any
     * failure, and a store whose names are unique stays so.
     */
    method CreateTeam(team: Team) returns (r: Result<Team>)
      requires repo.Valid()
      modifies repo
      ensures repo.failing == old(repo.failing) && repo.Valid()
      ensures r.Err? ==> repo.teams == old(repo.teams) && repo.nextId == old(repo.nextId)
      ensures repo.Fails("ExistsByName") ==> r.Err? && IsStorageFailure(r.error)
      ensures r == Err(Domain(TeamExists)) <==> !repo.Fails("ExistsByName") && old(repo.HasName(team.name))
      ensures r.Err? ==> IsStorageFailure(r.error) || r.error == Domain(TeamExists)
      ensures r.Ok? <==> !repo.Fails("ExistsByName") && !old(repo.HasName(team.name)) && !repo.Fails("Create")
      ensures r.Ok? ==> r.value == team.(id := old(repo.nextId)) && repo.teams == old(repo.teams) + [r.value]
                        && repo.nextId == old(repo.nextId) + 1
      ensures r.Ok? ==> forall i | 0 <= i < |old(repo.teams)| :: old(repo.teams)[i].id != r.value.id
      ensures old(repo.UniqueNames()) ==> repo.UniqueNames()
    {
      var found := CheckTeamNameExists(team.name);
      if found.Err? {
        return Err(found.error);
      }
      if found.value {
        return Err(Domain(TeamExists));
      }
      var created := repo.Create(team);
      if created.Err? {
        return Err(Wrapped("failed to create team", created.error));
      }
      return created;
    }

    /** Refuses a missing name without fetching, otherwise returns the stored team. */
    method GetTeamByName(name: string) returns (r: Result<Team>)
      ensures repo.Fails("ExistsByName") ==> r.Err? && IsStorageFailure(r.error)
      ensures r == Err(Domain(TeamNotFound)) <==> !repo.Fails("ExistsByName") && !repo.HasName(name)
      ensures r.Err? ==> IsStorageFailure(r.error) || r.error == Domain(TeamNotFound)
      ensures r.Ok? <==> !repo.Fails("ExistsByName") && repo.HasName(name) && !repo.Fails("GetByName")
      ensures r.Ok? ==> r.value in repo.teams && r.value.name == name
      ensures r.Ok? && repo.UniqueNames() ==> forall t | t in repo.teams && t.name == name :: t == r.value
    {
      var found := CheckTeamNameExists(name);
      if found.Err? {
        return Err(found.error);
      }
      if !found.value {
        return Err(Domain(TeamNotFound));
      }
      var team := repo.GetByName(name);
      if team.Err? {
        return Err(Wrapped("failed to get team", team.error));
      }
      return team;
    }
  }
}
