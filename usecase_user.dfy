/** The user use case over an abstract user store. */
module UsecaseUser {
  import opened Errors
  import opened DomainUser
  import opened DomainPR

  /**
   * The store behind the `UserRepo` interface: the users by id, the pull requests
   * each user reviews, and the names of the store operations that currently fail.
   */
  class UserRepo {
    var users: map<int, User>
    var reviews: map<int, seq<PullRequest>>
    var failing: set<string>

    constructor(users: map<int, User>, reviews: map<int, seq<PullRequest>>, failing: set<string>)
      ensures this.users == users && this.reviews == reviews && this.failing == failing
    {
      this.users := users;
      this.reviews := reviews;
      this.failing := failing;
    }

    /** Every user is stored under its own id. */
    predicate Valid()
      reads this
    {
      forall id | id in users :: users[id].id == id
    }

    predicate Fails(op: string)
      reads this
    {
      op in failing
    }

    /** The pull requests the user reviews; a user with none has an empty list. */
    function ReviewsOf(id: int): seq<PullRequest>
      reads this
    {
      if id in reviews then reviews[id] else []
    }

    method ExistsById(id: int) returns (r: Result<bool>)
      ensures r == if Fails("ExistsById") then Err(Storage("ExistsById")) else Ok(id in users)
    {
      if "ExistsById" in failing {
        return Err(Storage("ExistsById"));
      }
      return Ok(id in users);
    }

    /** Sets the flag of one stored user and returns that user; an unknown id matches no row. */
    method UpdateIsActive(s: SetUserIsActive) returns (r: Result<User>)
      modifies this
      ensures failing == old(failing) && reviews == old(reviews)
      ensures if Fails("UpdateIsActive") || s.id !in old(users)
              then r == Err(Storage("UpdateIsActive")) && users == old(users)
              else r == Ok(old(users)[s.id].(isActive := s.isActive)) && users == old(users)[s.id := r.value]
    {
      if "UpdateIsActive" in failing || s.id !in users {
        return Err(Storage("UpdateIsActive"));
      }
      var updated := users[s.id].(isActive := s.isActive);
      users := users[s.id := updated];
      return Ok(updated);
    }

    method GetUserPullRequests(id: int) returns (r: Result<seq<PullRequest>>)
      ensures r == if Fails("GetUserPullRequests") then Err(Storage("GetUserPullRequests")) else Ok(ReviewsOf(id))
    {
      if "GetUserPullRequests" in failing {
        return Err(Storage("GetUserPullRequests"));
      }
      return Ok(ReviewsOf(id));
    }
  }

  class UserUsecase {
    const repo: UserRepo

    constructor(repo: UserRepo)
      ensures this.repo == repo
    {
      this.repo := repo;
    }

    /** Asks the store whether the user exists; a store failure is wrapped. */
    method CheckUserIDExists(id: int) returns (r: Result<bool>)
      ensures repo.Fails("ExistsById") ==> r.Err? && IsStorageFailure(r.error)
      ensures !repo.Fails("ExistsById") ==> r == Ok(id in repo.users)
    {
      var found := repo.ExistsById(id);
      if found.Err? {
        return Err(Wrapped("failed to check user existance", found.error));
      }
      return Ok(found.value);
    }

    /**
     * Checks that the user exists, then sets its active flag. Nothing is written
     * unless every step succeeds, and no other user changes.
     */
    method SetUserIsActive(s: SetUserIsActive) returns (r: Result<User>)
      modifies repo
      ensures repo.failing == old(repo.failing) && repo.reviews == old(repo.reviews)
      ensures r.Err? ==> repo.users == old(repo.users)
      ensures repo.Fails("ExistsById") ==> r.Err? && IsStorageFailure(r.error)
      ensures r == Err(Domain(UserNotFound)) <==> !repo.Fails("ExistsById") && s.id !in old(repo.users)
      ensures r.Err? ==> IsStorageFailure(r.error) || r.error == Domain(UserNotFound)
      ensures r.Ok? <==> !repo.Fails("ExistsById") && s.id in old(repo.users) && !repo.Fails("UpdateIsActive")
      ensures r.Ok? ==> r.value.isActive == s.isActive
      ensures r.Ok? ==> r.value == old(repo.users)[s.id].(isActive := s.isActive)
      ensures r.Ok? ==> repo.users == old(repo.users)[s.id := r.value]
      ensures r.Ok? && old(repo.Valid()) ==> r.value.id == s.id && repo.Valid()
    {
      var found := CheckUserIDExists(s.id);
      if found.Err? {
        return Err(found.error);
      }
      if !found.value {
        return Err(Domain(UserNotFound));
      }
      var updated := repo.UpdateIsActive(s);
      if updated.Err? {
        return Err(Wrapped("failed to update_is_active", updated.error));
      }
      return updated;
    }

    /** Checks that the user exists, then returns the store's list of the pull requests it reviews. */
    method GetUserPullRequests(userId: int) returns (r: Result<seq<PullRequest>>)
      ensures repo.Fails("ExistsById") ==> r.Err? && IsStorageFailure(r.error)
      ensures r == Err(Domain(UserNotFound)) <==> !repo.Fails("ExistsById") && userId !in repo.users
      ensures r.Err? ==> IsStorageFailure(r.error) || r.error == Domain(UserNotFound)
      ensures r.Ok? <==> !repo.Fails("ExistsById") && userId in repo.users && !repo.Fails("GetUserPullRequests")
      ensures r.Ok? ==> r.value == repo.ReviewsOf(userId)
    {
      var found := CheckUserIDExists(userId);
      if found.Err? {
        return Err(found.error);
      }
      if !found.value {
        return Err(Domain(UserNotFound));
      }
      var prs := repo.GetUserPullRequests(userId);
      if prs.Err? {
        return Err(Wrapped("failed to get user pull_requests", prs.error));
      }
      return prs;
    }
  }
}
