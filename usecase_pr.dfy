/**
 * The pull-request use case: creation with random reviewers, merging, and the
 * reassignment of one reviewer, over an abstract pull-request store and the
 * user store.
 */
module UsecasePullRequest {
  import opened Wrappers
  import opened Clock
  import opened Errors
  import opened DomainUser
  import opened DomainPR
  import UsecaseUser

  /** The ids of a list of users, in order. */
  function UserIds(users: seq<User>): seq<int>
  {
    seq(|users|, i requires 0 <= i < |users| => users[i].id)
  }

  predicate DistinctIds(users: seq<User>)
  {
    forall i, j | 0 <= i < |users| && 0 <= j < |users| && i != j :: users[i].id != users[j].id
  }

  predicate Distinct(xs: seq<int>)
  {
    forall i, j | 0 <= i < |xs| && 0 <= j < |xs| && i != j :: xs[i] != xs[j]
  }

  /** `slices.IndexFunc` looking for `x`: the first position holding it, or -1. */
  function IndexOf(s: seq<int>, x: int): (i: int)
    ensures -1 <= i < |s|
    ensures i == -1 <==> x !in s
    ensures 0 <= i ==> s[i] == x && x !in s[..i]
  {
    if s == [] then -1
    else if s[0] == x then 0
    else
      var k := IndexOf(s[1..], x);
      if k == -1 then -1
      else
        assert s[..k + 1] == [s[0]] + s[1..][..k];
        k + 1
  }

  /** The candidates whose id is not among `assignedIds`, in their original order. */
  function Unassigned(candidates: seq<User>, assignedIds: seq<int>): seq<User>
  {
    if candidates == [] then []
    else
      var last := candidates[|candidates| - 1];
      Unassigned(candidates[..|candidates| - 1], assignedIds) + (if last.id in assignedIds then [] else [last])
  }

  /** A user survives the filter exactly when it is a candidate whose id is not among `assignedIds`. */
  lemma {:induction false} UnassignedMembers(candidates: seq<User>, assignedIds: seq<int>)
    ensures forall u :: u in Unassigned(candidates, assignedIds) <==> u in candidates && u.id !in assignedIds
  {
    if candidates != [] {
      var init := candidates[..|candidates| - 1];
      UnassignedMembers(init, assignedIds);
      assert candidates == init + [candidates[|candidates| - 1]];
    }
  }

  /** The filtering loop of a reassignment: keep the candidates that are not yet reviewers. */
  method FilterCandidates(candidates: seq<User>, assignedIds: seq<int>) returns (filtered: seq<User>)
    ensures filtered == Unassigned(candidates, assignedIds)
  {
    filtered := [];
    for i := 0 to |candidates|
      invariant filtered == Unassigned(candidates[..i], assignedIds)
    {
      assert candidates[..i + 1][..i] == candidates[..i];
      if candidates[i].id !in assignedIds {
        filtered := filtered + [candidates[i]];
      }
    }
    assert candidates[..|candidates|] == candidates;
  }

  lemma SwapKeepsDistinctIds(s: seq<User>, i: int, j: int)
    requires 0 <= i < |s| && 0 <= j < |s|
    requires DistinctIds(s)
    ensures DistinctIds(s[i := s[j]][j := s[i]])
  {
  }

  /** `rand.Shuffle`: Fisher-Yates, each swap partner drawn by an arbitrary choice. */
  method Shuffle(a: array<User>)
    modifies a
    ensures multiset(a[..]) == old(multiset(a[..]))
    ensures DistinctIds(old(a[..])) ==> DistinctIds(a[..])
  {
    var i := a.Length - 1;
    while i > 0
      invariant i < a.Length
      invariant multiset(a[..]) == old(multiset(a[..]))
      invariant DistinctIds(old(a[..])) ==> DistinctIds(a[..])
    {
      var j :| 0 <= j <= i;
      ghost var before := a[..];
      a[i], a[j] := a[j], a[i];
      assert a[..] == before[i := before[j]][j := before[i]];
      if DistinctIds(before) {
        SwapKeepsDistinctIds(before, i, j);
      }
      i := i - 1;
    }
  }

  lemma MemberIdListed(users: seq<User>, u: User)
    requires u in users
    ensures u.id in UserIds(users)
  {
    var k :| 0 <= k < |users| && users[k] == u;
    assert UserIds(users)[k] == u.id;
  }

  /**
   * The reviewer choice of a creation: shuffle the candidates and take the ids of
   * the first `MaxReviewersNumber` of them, or of all when there are fewer.
   */
  method SelectReviewers(teamMembers: seq<User>) returns (reviewers: seq<int>)
    ensures |reviewers| == if |teamMembers| < MaxReviewersNumber then |teamMembers| else MaxReviewersNumber
    ensures forall id | id in reviewers :: id in UserIds(teamMembers)
    ensures DistinctIds(teamMembers) ==> Distinct(reviewers)
  {
    var n := MaxReviewersNumber;
    if |teamMembers| < 2 {
      n := |teamMembers|;
    }
    var shuffled := new User[|teamMembers|](i requires 0 <= i < |teamMembers| => teamMembers[i]);
    assert shuffled[..] == teamMembers;
    Shuffle(shuffled);
    reviewers := [];
    for i := 0 to n
      invariant |reviewers| == i
      invariant forall k | 0 <= k < i :: reviewers[k] == shuffled[k].id
    {
      reviewers := reviewers + [shuffled[i].id];
    }
    forall id | id in reviewers
      ensures id in UserIds(teamMembers)
    {
      var k :| 0 <= k < |reviewers| && reviewers[k] == id;
      assert shuffled[k] in multiset(shuffled[..]);
      MemberIdListed(teamMembers, shuffled[k]);
    }
  }

  /** A successful reassignment: the updated pull request and the id of the new reviewer. */
  datatype Reassigned = Reassigned(pr: PullRequest, replacedBy: int)

  /**
   * The store behind the `PullRequestRepo` interface: the pull requests by id,
   * the answer of `GetActiveTeamMembersExceptAuthor` for each author, and the
   * names of the operations that currently fail.
   */
  class PullRequestRepo {
    var prs: map<int, PullRequest>
    var teammates: map<int, seq<User>>
    var failing: set<string>

    constructor(prs: map<int, PullRequest>, teammates: map<int, seq<User>>, failing: set<string>)
      ensures this.prs == prs && this.teammates == teammates && this.failing == failing
    {
      this.prs := prs;
      this.teammates := teammates;
      this.failing := failing;
    }

    /** Every pull request is stored under its own id. */
    predicate Valid()
      reads this
    {
      forall id | id in prs :: prs[id].id == id
    }

    predicate Fails(op: string)
      reads this
    {
      op in failing
    }

    /** The active members of the author's team other than the author; none for an unknown author. */
    function TeammatesOf(authorId: int): seq<User>
      reads this
    {
      if authorId in teammates then teammates[authorId] else []
    }

    /** What the store promises of its teammate lists: active users other than the author, each once. */
    predicate TeammatesContract()
      reads this
    {
      forall a | a in teammates ::
        DistinctIds(teammates[a]) && forall i | 0 <= i < |teammates[a]| :: teammates[a][i].isActive && teammates[a][i].id != a
    }

    method ExistsById(id: int) returns (r: Result<bool>)
      ensures r == if Fails("ExistsById") then Err(Storage("ExistsById")) else Ok(id in prs)
    {
      if "ExistsById" in failing {
        return Err(Storage("ExistsById"));
      }
      return Ok(id in prs);
    }

    method GetActiveTeamMembersExceptAuthor(authorId: int) returns (r: Result<seq<User>>)
      ensures r == if Fails("GetActiveTeamMembersExceptAuthor") then Err(Storage("GetActiveTeamMembersExceptAuthor"))
                   else Ok(TeammatesOf(authorId))
    {
      if "GetActiveTeamMembersExceptAuthor" in failing {
        return Err(Storage("GetActiveTeamMembersExceptAuthor"));
      }
      return Ok(TeammatesOf(authorId));
    }

    /** Inserts the pull request with its reviewers as one unit; a taken id violates the key. */
    method Create(pr: PullRequest) returns (r: Result<PullRequest>)
      modifies this
      ensures teammates == old(teammates) && failing == old(failing)
      ensures if Fails("Create") || pr.id in old(prs)
              then r == Err(Storage("Create")) && prs == old(prs)
              else r == Ok(pr) && prs == old(prs)[pr.id := pr]
    {
      if "Create" in failing || pr.id in prs {
        return Err(Storage("Create"));
      }
      prs := prs[pr.id := pr];
      return Ok(pr);
    }

    method GetById(id: int) returns (r: Result<PullRequest>)
      ensures r == if Fails("GetById") || id !in prs then Err(Storage("GetById")) else Ok(prs[id])
    {
      if "GetById" in failing || id !in prs {
        return Err(Storage("GetById"));
      }
      return Ok(prs[id]);
    }

    /** Writes status and merge time of the stored row, if there is one, and hands back its argument. */
    method UpdateStatus(pr: PullRequest) returns (r: Result<PullRequest>)
      modifies this
      ensures teammates == old(teammates) && failing == old(failing)
      ensures Fails("UpdateStatus") ==> r == Err(Storage("UpdateStatus")) && prs == old(prs)
      ensures !Fails("UpdateStatus") ==> r == Ok(pr)
      ensures !Fails("UpdateStatus") && pr.id in old(prs) ==>
                prs == old(prs)[pr.id := old(prs)[pr.id].(status := pr.status, mergedAt := pr.mergedAt)]
      ensures !Fails("UpdateStatus") && pr.id !in old(prs) ==> prs == old(prs)
    {
      if "UpdateStatus" in failing {
        return Err(Storage("UpdateStatus"));
      }
      if pr.id in prs {
        prs := prs[pr.id := prs[pr.id].(status := pr.status, mergedAt := pr.mergedAt)];
      }
      return Ok(pr);
    }

    /** Swaps one reviewer link for another as one unit, at the old reviewer's position. */
    method UpdateAssignedReviewers(prId: int, oldReviewerId: int, newReviewerId: int) returns (r: Check)
      modifies this
      ensures teammates == old(teammates) && failing == old(failing)
      ensures Fails("UpdateAssignedReviewers") ==> r == Fail(Storage("UpdateAssignedReviewers")) && prs == old(prs)
      ensures !Fails("UpdateAssignedReviewers") ==> r == Pass
      ensures !Fails("UpdateAssignedReviewers") && prId in old(prs) && oldReviewerId in old(prs)[prId].assignedReviewers ==>
                var before := old(prs)[prId];
                prs == old(prs)[prId := before.(assignedReviewers :=
                  before.assignedReviewers[IndexOf(before.assignedReviewers, oldReviewerId) := newReviewerId])]
      ensures !Fails("UpdateAssignedReviewers") && (prId !in old(prs) || oldReviewerId !in old(prs)[prId].assignedReviewers) ==>
                prs == old(prs)
    {
      if "UpdateAssignedReviewers" in failing {
        return Fail(Storage("UpdateAssignedReviewers"));
      }
      if prId in prs && oldReviewerId in prs[prId].assignedReviewers {
        var before := prs[prId];
        var idx := IndexOf(before.assignedReviewers, oldReviewerId);
        prs := prs[prId := before.(assignedReviewers := before.assignedReviewers[idx := newReviewerId])];
      }
      return Pass;
    }
  }

  class PullRequestUsecase {
    const repo: PullRequestRepo
    const userRepo: UsecaseUser.UserRepo

    constructor(repo: PullRequestRepo, userRepo: UsecaseUser.UserRepo)
      ensures this.repo == repo && this.userRepo == userRepo
    {
      this.repo := repo;
      this.userRepo := userRepo;
    }

    /** The user store answers, and knows the user. */
    predicate UserKnown(id: int)
      reads userRepo
    {
      !userRepo.Fails("ExistsById") && id in userRepo.users
    }

    /** Asks the store whether the pull request exists; a store failure is wrapped. */
    method CheckPRIDExists(id: int) returns (r: Result<bool>)
      ensures repo.Fails("ExistsById") ==> r.Err? && IsStorageFailure(r.error)
      ensures !repo.Fails("ExistsById") ==> r == Ok(id in repo.prs)
    {
      var found := repo.ExistsById(id);
      if found.Err? {
        return Err(Wrapped("failed to check pull_request existance", found.error));
      }
      return Ok(found.value);
    }

    /** The creation preconditions, in order: the author exists, then the id is free. */
    method CheckCreatePRConditions(uid: int, prid: int) returns (r: Check)
      ensures userRepo.Fails("ExistsById") ==> r.Fail? && IsStorageFailure(r.error)
      ensures !userRepo.Fails("ExistsById") && uid !in userRepo.users ==> r == Fail(Domain(UserNotFound))
      ensures UserKnown(uid) && repo.Fails("ExistsById") ==> r.Fail? && IsStorageFailure(r.error)
      ensures UserKnown(uid) && !repo.Fails("ExistsById") && prid in repo.prs ==> r == Fail(Domain(PullRequestExists))
      ensures r == Pass <==> UserKnown(uid) && !repo.Fails("ExistsById") && prid !in repo.prs
    {
      var authorFound := userRepo.ExistsById(uid);
      if authorFound.Err? {
        return Fail(Wrapped("failed to check author existence", authorFound.error));
      }
      if !authorFound.value {
        return Fail(Domain(UserNotFound));
      }
      var prFound := CheckPRIDExists(prid);
      if prFound.Err? {
        return Fail(Wrapped("failed to check PR existance", prFound.error));
      }
      if prFound.value {
        return Fail(Domain(PullRequestExists));
      }
      return Pass;
    }

    /**
     * Opens a pull request with up to `MaxReviewersNumber` reviewers drawn from
     * the author's active teammates. Nothing is written unless every step succeeds.
     */
    method CreatePullRequest(cr: CreatePullRequest, now: Time) returns (r: Result<PullRequest>)
      requires repo.Valid()
      modifies repo
      ensures repo.teammates == old(repo.teammates) && repo.failing == old(repo.failing) && repo.Valid()
      ensures r.Err? ==> repo.prs == old(repo.prs)
      ensures userRepo.Fails("ExistsById") ==> r.Err? && IsStorageFailure(r.error)
      ensures r == Err(Domain(UserNotFound)) <==> !userRepo.Fails("ExistsById") && cr.authorId !in userRepo.users
      ensures UserKnown(cr.authorId) && repo.Fails("ExistsById") ==> r.Err? && IsStorageFailure(r.error)
      ensures r == Err(Domain(PullRequestExists)) <==>
                UserKnown(cr.authorId) && !repo.Fails("ExistsById") && cr.pullRequestId in old(repo.prs)
      ensures r.Err? ==> IsStorageFailure(r.error) || r.error == Domain(UserNotFound) || r.error == Domain(PullRequestExists)
      ensures r.Ok? <==> UserKnown(cr.authorId) && !repo.Fails("ExistsById") && cr.pullRequestId !in old(repo.prs)
                         && !repo.Fails("GetActiveTeamMembersExceptAuthor") && !repo.Fails("Create")
      ensures r.Ok? ==> repo.prs == old(repo.prs)[cr.pullRequestId := r.value]
      ensures r.Ok? ==> r.value.id == cr.pullRequestId && r.value.name == cr.name && r.value.authorId == cr.authorId
                        && r.value.status == Open && r.value.createdAt == now && r.value.mergedAt == None
      ensures r.Ok? ==> var candidates := repo.TeammatesOf(cr.authorId);
                        |r.value.assignedReviewers| == if |candidates| < MaxReviewersNumber then |candidates| else MaxReviewersNumber
      ensures r.Ok? ==> forall id | id in r.value.assignedReviewers :: id in UserIds(repo.TeammatesOf(cr.authorId))
      ensures r.Ok? && repo.TeammatesContract() ==>
                Distinct(r.value.assignedReviewers) && cr.authorId !in r.value.assignedReviewers
    {
      var check := CheckCreatePRConditions(cr.authorId, cr.pullRequestId);
      if check.Fail? {
        return Err(check.error);
      }
      var pr := PullRequest(cr.pullRequestId, cr.name, cr.authorId, Open, [], now, None);
      var teamMembers := repo.GetActiveTeamMembersExceptAuthor(cr.authorId);
      if teamMembers.Err? {
        return Err(Wrapped("failed to get team members", teamMembers.error));
      }
      var reviewers := SelectReviewers(teamMembers.value);
      pr := pr.(assignedReviewers := reviewers);
      if repo.TeammatesContract() {
        AuthorNotReviewer(repo.TeammatesOf(cr.authorId), cr.authorId, reviewers);
      }
      var created := repo.Create(pr);
      if created.Err? {
        return Err(Wrapped("failed to create PR", created.error));
      }
      return created;
    }

    /**
     * Marks an open pull request merged at `now`. A merged one comes back as it
     * is, with no write: merging is idempotent.
     */
    method MergePullRequest(prId: int, now: Time) returns (r: Result<PullRequest>)
      requires repo.Valid()
      modifies repo
      ensures repo.teammates == old(repo.teammates) && repo.failing == old(repo.failing) && repo.Valid()
      ensures r.Err? ==> repo.prs == old(repo.prs)
      ensures repo.Fails("ExistsById") ==> r.Err? && IsStorageFailure(r.error)
      ensures r == Err(Domain(PullRequestNotFound)) <==> !repo.Fails("ExistsById") && prId !in old(repo.prs)
      ensures r.Err? ==> IsStorageFailure(r.error) || r.error == Domain(PullRequestNotFound)
      ensures r.Ok? <==> !repo.Fails("ExistsById") && prId in old(repo.prs) && !repo.Fails("GetById")
                         && (old(repo.prs)[prId].status == Merged || !repo.Fails("UpdateStatus"))
      ensures r.Ok? && old(repo.prs)[prId].status == Merged ==> r.value == old(repo.prs)[prId] && repo.prs == old(repo.prs)
      ensures r.Ok? && old(repo.prs)[prId].status == Open ==>
                r.value == old(repo.prs)[prId].(status := Merged, mergedAt := Some(now))
                && repo.prs == old(repo.prs)[prId := r.value]
      ensures r.Ok? ==> r.value.status == Merged && prId in repo.prs && repo.prs[prId] == r.value
    {
      var found := CheckPRIDExists(prId);
      if found.Err? {
        return Err(Wrapped("failed to check PR existance", found.error));
      }
      if !found.value {
        return Err(Domain(PullRequestNotFound));
      }
      var fetched := repo.GetById(prId);
      if fetched.Err? {
        return Err(Wrapped("failed to get PR by id", fetched.error));
      }
      var pr := fetched.value;
      if pr.status == Merged {
        return Ok(pr);
      }
      pr := pr.(status := Merged, mergedAt := Some(now));
      var updated := repo.UpdateStatus(pr);
      if updated.Err? {
        return Err(Wrapped("failed to update PR status", updated.error));
      }
      return updated;
    }

    /** Steps 1 to 3 of a reassignment pass: the user is known and the pull request is found and read. */
    predicate Readable(reas: ReassignReviewer)
      reads repo, userRepo
    {
      UserKnown(reas.userId) && !repo.Fails("ExistsById") && reas.pullRequestId in repo.prs && !repo.Fails("GetById")
    }

    /**
     * Steps 5 to 7 of a reassignment, once `pr` is known to be open and to have
     * `oldId` at position `idx`: fetch the author's active teammates, keep those
     * not yet reviewing, pick one and write it in place of `oldId`.
     */
    method ReplaceReviewer(pr: PullRequest, oldId: int, idx: int) returns (r: Result<Reassigned>)
      requires repo.Valid() && pr.id in repo.prs && repo.prs[pr.id] == pr
      requires idx == IndexOf(pr.assignedReviewers, oldId) && 0 <= idx
      modifies repo
      ensures repo.teammates == old(repo.teammates) && repo.failing == old(repo.failing) && repo.Valid()
      ensures r.Err? ==> repo.prs == old(repo.prs)
      ensures repo.Fails("GetActiveTeamMembersExceptAuthor") ==> r.Err? && IsStorageFailure(r.error)
      ensures r == Err(Domain(NoAvailableCandidats)) <==>
                !repo.Fails("GetActiveTeamMembersExceptAuthor")
                && Unassigned(repo.TeammatesOf(pr.authorId), pr.assignedReviewers) == []
      ensures r.Err? ==> IsStorageFailure(r.error) || r.error == Domain(NoAvailableCandidats)
      ensures r.Ok? <==> !repo.Fails("GetActiveTeamMembersExceptAuthor")
                         && Unassigned(repo.TeammatesOf(pr.authorId), pr.assignedReviewers) != []
                         && !repo.Fails("UpdateAssignedReviewers")
      ensures r.Ok? ==>
                && r.value.pr == pr.(assignedReviewers := pr.assignedReviewers[idx := r.value.replacedBy])
                && r.value.replacedBy !in pr.assignedReviewers
                && r.value.replacedBy in UserIds(repo.TeammatesOf(pr.authorId))
                && repo.prs == old(repo.prs)[pr.id := r.value.pr]
      ensures r.Ok? && repo.TeammatesContract() ==> r.value.replacedBy != pr.authorId
    {
      var candidates := repo.GetActiveTeamMembersExceptAuthor(pr.authorId);
      if candidates.Err? {
        return Err(Wrapped("failed to get team members", candidates.error));
      }
      var filtered := FilterCandidates(candidates.value, pr.assignedReviewers);
      if |filtered| == 0 {
        return Err(Domain(NoAvailableCandidats));
      }
      var k :| 0 <= k < |filtered|;
      var newReviewer := filtered[k];
      UnassignedMembers(candidates.value, pr.assignedReviewers);
      MemberIdListed(candidates.value, newReviewer);
      if repo.TeammatesContract() {
        AuthorNotReviewer(candidates.value, pr.authorId, [newReviewer.id]);
      }
      var replaced := pr.(assignedReviewers := pr.assignedReviewers[idx := newReviewer.id]);
      var updated := repo.UpdateAssignedReviewers(pr.id, oldId, newReviewer.id);
      if updated.Fail? {
        return Err(Wrapped("failed to update assigned reviewers", updated.error));
      }
      return Ok(Reassigned(replaced, newReviewer.id));
    }

    /**
     * Replaces reviewer `reas.userId` of an open pull request by an active teammate
     * of the author who is not yet a reviewer, at the same position. Checks run
     * in a fixed order and nothing is written unless all of them pass.
     */
    method ReassignReviewer(reas: ReassignReviewer) returns (r: Result<Reassigned>)
      requires repo.Valid()
      modifies repo
      ensures repo.teammates == old(repo.teammates) && repo.failing == old(repo.failing) && repo.Valid()
      ensures r.Err? ==> repo.prs == old(repo.prs)
      ensures userRepo.Fails("ExistsById") ==> r.Err? && IsStorageFailure(r.error)
      ensures r == Err(Domain(UserNotFound)) <==> !userRepo.Fails("ExistsById") && reas.userId !in userRepo.users
      ensures UserKnown(reas.userId) && repo.Fails("ExistsById") ==> r.Err? && IsStorageFailure(r.error)
      ensures r == Err(Domain(PullRequestNotFound)) <==>
                UserKnown(reas.userId) && !repo.Fails("ExistsById") && reas.pullRequestId !in old(repo.prs)
      ensures UserKnown(reas.userId) && !repo.Fails("ExistsById") && reas.pullRequestId in old(repo.prs) && repo.Fails("GetById") ==>
                r.Err? && IsStorageFailure(r.error)
      ensures r == Err(Domain(PullRequestIsMerged)) <==>
                old(Readable(reas)) && old(repo.prs)[reas.pullRequestId].status == Merged
      ensures r == Err(Domain(NotAssigned)) <==>
                old(Readable(reas)) && old(repo.prs)[reas.pullRequestId].status == Open
                && reas.userId !in old(repo.prs)[reas.pullRequestId].assignedReviewers
      ensures old(Readable(reas)) && old(repo.prs)[reas.pullRequestId].status == Open
              && reas.userId in old(repo.prs)[reas.pullRequestId].assignedReviewers
              && repo.Fails("GetActiveTeamMembersExceptAuthor") ==>
                r.Err? && IsStorageFailure(r.error)
      ensures r == Err(Domain(NoAvailableCandidats)) <==>
                old(Readable(reas)) && old(repo.prs)[reas.pullRequestId].status == Open
                && reas.userId in old(repo.prs)[reas.pullRequestId].assignedReviewers
                && !repo.Fails("GetActiveTeamMembersExceptAuthor")
                && Unassigned(repo.TeammatesOf(old(repo.prs)[reas.pullRequestId].authorId),
                              old(repo.prs)[reas.pullRequestId].assignedReviewers) == []
      ensures r.Err? ==> IsStorageFailure(r.error) || r.error == Domain(UserNotFound) || r.error == Domain(PullRequestNotFound)
                         || r.error == Domain(PullRequestIsMerged) || r.error == Domain(NotAssigned)
                         || r.error == Domain(NoAvailableCandidats)
      ensures r.Ok? <==> old(Readable(reas)) && old(repo.prs)[reas.pullRequestId].status == Open
                         && reas.userId in old(repo.prs)[reas.pullRequestId].assignedReviewers
                         && !repo.Fails("GetActiveTeamMembersExceptAuthor")
                         && Unassigned(repo.TeammatesOf(old(repo.prs)[reas.pullRequestId].authorId),
                                       old(repo.prs)[reas.pullRequestId].assignedReviewers) != []
                         && !repo.Fails("UpdateAssignedReviewers")
      ensures r.Ok? ==>
                var before := old(repo.prs)[reas.pullRequestId];
                var idx := IndexOf(before.assignedReviewers, reas.userId);
                && 0 <= idx && before.assignedReviewers[idx] == reas.userId
                && r.value.pr == before.(assignedReviewers := before.assignedReviewers[idx := r.value.replacedBy])
                && |r.value.pr.assignedReviewers| == |before.assignedReviewers|
                && (forall j | 0 <= j < |before.assignedReviewers| && j != idx ::
                      r.value.pr.assignedReviewers[j] == before.assignedReviewers[j])
                && r.value.replacedBy !in before.assignedReviewers
                && r.value.replacedBy in UserIds(repo.TeammatesOf(before.authorId))
                && repo.prs == old(repo.prs)[reas.pullRequestId := r.value.pr]
      ensures r.Ok? && Distinct(old(repo.prs)[reas.pullRequestId].assignedReviewers) ==>
                Distinct(r.value.pr.assignedReviewers)
      ensures r.Ok? && repo.TeammatesContract() ==> r.value.replacedBy != old(repo.prs)[reas.pullRequestId].authorId
    {
      var userFound := userRepo.ExistsById(reas.userId);
      if userFound.Err? {
        return Err(Wrapped("failed to check author existence", userFound.error));
      }
      if !userFound.value {
        return Err(Domain(UserNotFound));
      }
      var prFound := CheckPRIDExists(reas.pullRequestId);
      if prFound.Err? {
        return Err(Wrapped("failed to check PR existance", prFound.error));
      }
      if !prFound.value {
        return Err(Domain(PullRequestNotFound));
      }
      var fetched := repo.GetById(reas.pullRequestId);
      if fetched.Err? {
        return Err(Wrapped("failed to get pull_request", fetched.error));
      }
      var pr := fetched.value;
      if pr.status == Merged {
        return Err(Domain(PullRequestIsMerged));
      }
      var idx := IndexOf(pr.assignedReviewers, reas.userId);
      if idx == -1 {
        return Err(Domain(NotAssigned));
      }
      r := ReplaceReviewer(pr, reas.userId, idx);
    }
  }

  /** Ids drawn from a teammate list that obeys the store contract never include the author. */
  lemma AuthorNotReviewer(candidates: seq<User>, authorId: int, ids: seq<int>)
    requires forall i | 0 <= i < |candidates| :: candidates[i].id != authorId
    requires forall id | id in ids :: id in UserIds(candidates)
    ensures authorId !in ids
  {
  }

  /**
   * Merging twice, with the store's failures free to change in between
   * (`failingLater`). After a successful first merge, the second can fail only
   * through the store, returns the very same pull request when it succeeds,
   * and writes nothing either way.
   */
  method MergeTwice(uc: PullRequestUsecase, prId: int, first: Time, second: Time, failingLater: set<string>)
    returns (r1: Result<PullRequest>, r2: Result<PullRequest>)
    requires uc.repo.Valid()
    modifies uc.repo
    ensures r1.Ok? && r2.Ok? ==> r2 == r1
    ensures r1.Ok? && r2.Err? ==> IsStorageFailure(r2.error)
    ensures r1.Ok? ==> uc.repo.prs == old(uc.repo.prs)[prId := r1.value]
  {
    r1 := uc.MergePullRequest(prId, first);
    uc.repo.failing := failingLater;
    r2 := uc.MergePullRequest(prId, second);
  }
}
