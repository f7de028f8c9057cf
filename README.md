# pr-reviewer, modelled in Dafny

pr-reviewer is an HTTP service that assigns code reviewers to pull requests.
Users belong to teams. When a pull request is opened, the service picks up to
two active teammates of the author at random as reviewers. It can later merge
the pull request, or swap one reviewer for another teammate who is not yet
reviewing it.

This project models the core of the service:

- **The three use cases** (pull request, team, user). They run over abstract
  stores that play the part of the repository interfaces.
- **The request validators** for ids such as `u17` and `pr-42`, team bodies and
  blank names.
- **The mappers** between the domain records and the JSON wire records.
- **The three HTTP handlers.** Each decides between decoding, validating,
  calling the use case and reporting an outcome, and maps domain errors to
  codes and statuses.

Files and modules:

| file | module | models |
|---|---|---|
| `errors.dfy` | `Wrappers`, `Clock`, `Errors` | option values, opaque timestamps, the sentinel errors, `%w` wrapping and `errors.Is` |
| `ids.dfy` | `Ids` | `%d` printing, `strconv.Atoi`, the `u<n>` / `pr-<n>` id forms and their round trips |
| `text.dfy` | `Text` | `unicode.IsSpace`, `strings.TrimSpace` and the blank-name test |
| `api.dfy` | `Api` | the wire records, error codes, HTTP statuses and replies |
| `domain_user.dfy`, `domain_pr.dfy`, `domain_team.dfy` | `DomainUser`, `DomainPR`, `DomainTeam` | domain records, the status maps and the mappers |
| `validation.dfy` | `Validation` | the request validators |
| `usecase_user.dfy`, `usecase_team.dfy`, `usecase_pr.dfy` | `UsecaseUser`, `UsecaseTeam`, `UsecasePullRequest` | each store as a class and each use case as a class |
| `handlers_pr.dfy`, `handlers_team.dfy`, `handlers_user.dfy` | `HttpPullRequest`, `HttpTeam`, `HttpUser` | the handler decisions and error maps |

How the model is built:

- **Stores.** Each repository interface is a class. Its fields hold the
  store's state, for example a map from pull-request id to pull request, or
  the teammate list of each author. A field `failing` names the store
  operations that currently return an error. Because the failures are part of
  the state, each use case's `ensures` can say exactly which error wins,
  whether anything was written, and what the new state is.
- **Randomness.** Randomness is an arbitrary choice. `rand.Shuffle` becomes a
  Fisher–Yates loop over an array whose swap partner is picked with `:|`.
  `rand.Intn` becomes a `:|` pick of a valid index. The proofs hold for every
  choice.
- **Use cases and stores.** The use cases are methods on classes holding the
  stores, as in the Go code.
- **Everything else.** Validators, mappers and handler decisions are
  functions. A handler takes the use case as a function parameter. A body
  that fails to decode is `None`.

## Model

| member | source | states |
|---|---|---|
| Errors.StorageFailureIsNoSentinel | internal/delivery/http/PullRequest/handlers.go:120-134 | a store failure, however deeply wrapped by `%w`, never matches a sentinel under `errors.Is` |
| Errors.SentinelUnique | internal/delivery/http/PullRequest/handlers.go:120-134 | a wrap chain matches at most one sentinel, so the order of the `errors.Is` cases does not change the outcome |
| Ids.NatToDecimal | internal/domain/pr.go:82-83 | `%d` of a natural number is a digit string with no leading zero |
| Ids.DecimalOfNat | internal/domain/pr.go:82-83 | the value of the printed digits is the number printed |
| Ids.NatOfDecimal | internal/domain/pr.go:42-43 | printing the value of a canonical digit string gives the string back |
| Ids.AtoiFormatRoundTrip | internal/domain/pr.go:42-43 | `strconv.Atoi` reads back every integer printed with `%d`, negative ones included |
| Ids.FormatAtoiRoundTrip | internal/domain/pr.go:82-83 | `%d` reprints any canonical digit string read by `Atoi` unchanged |
| Ids.CanonicalUserIdRoundTrip | internal/domain/user.go:22 | a `u<n>` id in printed form survives reading (`Atoi(s[1:])`) and reprinting (`u%d`) |
| Ids.CanonicalPRIdRoundTrip | internal/domain/pr.go:42 | a `pr-<n>` id in printed form survives reading (`Atoi(s[3:])`) and reprinting (`pr-%d`) |
| Ids.UserIdRoundTrip | internal/domain/user.go:38 | reading back `u%d` of any id gives the id |
| Ids.PRIdRoundTrip | internal/domain/pr.go:83 | reading back `pr-%d` of any id gives the id |
| Ids.UserIdForm | internal/domain/user.go:38 | `u%d` of any id is `u` followed by at least one character, and is in the service's canonical `u<n>` form exactly when the id is not negative |
| Ids.PRIdForm | internal/domain/pr.go:83 | `pr-%d` of any id is `pr-` followed by at least one character, and is in the canonical `pr-<n>` form exactly when the id is not negative |
| Text.TrimLeftEmpty | internal/pkg/validation/pr.go:19 | trimming leading white space leaves nothing exactly when the string is all white space |
| Text.BlankIffAllSpace | internal/pkg/validation/pr.go:19-21 | `strings.TrimSpace(s) == ""` holds exactly when every character is white space, so a name of spaces is blank |
| Validation.ValidateUserId | internal/pkg/validation/user.go:8-18 | accepts exactly `u` followed by one or more digits, so it rejects `""` and `"u"`; every rejection is `ErrInvalidUser` |
| Validation.ValidatePRId | internal/pkg/validation/pr.go:26-42 | accepts exactly `pr-` followed by one or more digits; every rejection is `ErrInvalidPullRequest`; the empty-suffix branch is kept although the length test makes it unreachable |
| Validation.FormattedIdsValid | internal/pkg/validation/user.go:8-18 | ids printed by the service pass validation exactly when they are not negative |
| Validation.ValidatePR | internal/pkg/validation/pr.go:10-24 | passes iff the author id, the PR id and a non-blank name are all well formed; a bad author is reported first as `ErrInvalidUser`, every other failure as `ErrInvalidPullRequest` |
| Validation.ValidateTeamName | internal/pkg/validation/team.go:32-37 | rejects exactly the empty and all-white-space names, with `ErrTeamNameEmpty` |
| Validation.ValidateMembers | internal/pkg/validation/team.go:18-27 | passes iff every member has a valid id and a non-blank user name; the first bad member gives `ErrInvalidUser` |
| Validation.ValidateTeam | internal/pkg/validation/team.go:9-30 | passes iff the name is non-blank, there is a member and every member is valid; a blank name is reported before an empty member list, which is reported before a bad member |
| Validation.ValidTeamIdsSliceable | internal/domain/team.go:25 | every member id of a validated team can be sliced after its first character |
| DomainPR.StatusMaps | internal/domain/pr.go:53-68 | both status maps are total on OPEN and MERGED, and the string map inverts them |
| DomainPR.APIToDomainPullRequestCreate | internal/domain/pr.go:41-50 | copies the name; the ids are the decimal values of the digits after `u` and `pr-`, leading zeros included (`u007` reads as 7), and a printed id reprints to itself |
| DomainPR.CreateRoundTrip | internal/domain/pr.go:41-50 | a create request printed with `u%d` / `pr-%d` and read back is the same request |
| DomainPR.FormatUserIds | internal/domain/pr.go:77-80 | the reviewers are printed one by one and in order: same length, and each entry is `u` and then the id, reading back to the id and canonical exactly when the id is not negative |
| DomainPR.DomainPRToAPI | internal/domain/pr.go:76-90 | the PR id is printed as `pr-` and the author and reviewer ids as `u`, each followed by the number: each reads back to the domain id and is canonical exactly when that id is not negative; name, status name and both timestamps are copied; the reviewer list keeps length and order |
| DomainPR.DomainPRToAPIShort | internal/domain/pr.go:93-100 | the PR id is printed as `pr-` and the author id as `u`, each followed by the number: each reads back to the domain id and is canonical exactly when that id is not negative; name and status name are copied |
| DomainPR.DomainPRsToAPIShort | internal/domain/pr.go:103-111 | keeps the length and converts position by position |
| DomainPR.APIReassignToDomain | internal/domain/pr.go:126-133 | the ids are the decimal values of the digits after `pr-` and after `u`, leading zeros included; printed ids reprint to themselves |
| DomainPR.ReassignRoundTrip | internal/domain/pr.go:126-133 | a reassignment request printed and read back is the same request |
| DomainTeam.APIToDomainMember | internal/domain/team.go:24-31 | the flag and the user name are copied; the id is the decimal value of the digits after `u`, leading zeros included |
| DomainTeam.APIToDomainTeam | internal/domain/team.go:21-38 | copies the name and makes one member per input member, in order, each id being the value of the digits after `u`; the team id stays at zero |
| DomainTeam.DomainTeamToAPI | internal/domain/team.go:44-59 | copies the name and converts the members one by one, in order; each id is printed as `u` and the number, reads back, and is canonical exactly when the id is not negative |
| DomainTeam.TeamRoundTrip | internal/domain/team.go:21-59 | domain to wire and back keeps the name and the members; only the team id is lost |
| DomainTeam.ApiTeamRoundTrip | internal/domain/team.go:21-59 | a wire team in printed form survives the trip through the domain form |
| DomainUser.APIToDomainSetIsActive | internal/domain/user.go:21-28 | copies the flag; the id is the decimal value of the digits after `u`, leading zeros included |
| DomainUser.DomainUserToAPI | internal/domain/user.go:34-41 | prints the id as `u` followed by the number: it reads back and is canonical exactly when the id is not negative; user name, team name and flag are copied |
| DomainUser.SetIsActiveRoundTrip | internal/domain/user.go:21-28 | a set-active request printed and read back is the same request, for every id |
| UsecaseUser.UserRepo.ExistsById | internal/usecase/User/repo_interface.go:11 | answers membership, or fails |
| UsecaseUser.UserRepo.UpdateIsActive | internal/usecase/User/repo_interface.go:12 | sets one user's flag and returns that user; nothing else changes |
| UsecaseUser.UserRepo.GetUserPullRequests | internal/usecase/User/repo_interface.go:13 | returns the stored review list, empty for a user with none |
| UsecaseUser.UserUsecase.CheckUserIDExists | internal/usecase/User/usecase.go:61-67 | a store failure comes back wrapped, otherwise the membership answer |
| UsecaseUser.UserUsecase.SetUserIsActive | internal/usecase/User/usecase.go:21-39 | a failed check returns its error and an unknown id `ErrUserNotFound`, each exactly under its condition, so any other failure is a store failure, with no write on any failure; on success the returned user has the requested flag, only that user changes, and the store stays keyed by id |
| UsecaseUser.UserUsecase.GetUserPullRequests | internal/usecase/User/usecase.go:41-59 | an unknown id, and only an unknown id, gives `ErrUserNotFound`; otherwise the store's list, possibly empty; a store failure gives an error and no list |
| UsecaseTeam.TeamRepo.ExistsByName | internal/usecase/Team/repo_interface.go:11 | answers whether a row has the name, or fails |
| UsecaseTeam.TeamRepo.Create | internal/usecase/Team/repo_interface.go:12 | appends the team under the next id and returns it; that id differs from every stored one, and the store's ids stay below the next id |
| UsecaseTeam.TeamRepo.GetByName | internal/usecase/Team/repo_interface.go:13 | returns a stored team with that name, or fails |
| UsecaseTeam.TeamUsecase.CheckTeamNameExists | internal/usecase/Team/usecase.go:40-47 | a store failure comes back wrapped, otherwise the answer |
| UsecaseTeam.TeamUsecase.CreateTeam | internal/usecase/Team/usecase.go:21-38 | a failed check is returned and no create is attempted; a taken name gives `ErrTeamExists`; a store failure is wrapped; every domain error is returned exactly under its condition, so any other failure is a store failure; no failure writes, not even the id counter; on success the created team is appended under a fresh id and the counter advances by one; unique names stay unique |
| UsecaseTeam.TeamUsecase.GetTeamByName | internal/usecase/Team/usecase.go:49-65 | a missing name, and only a missing name, gives `ErrTeamNotFound` without a fetch; on success a stored team with that name, which is the only one when names are unique |
| UsecasePullRequest.IndexOf | internal/usecase/PullRequest/usecase.go:127-129 | `slices.IndexFunc`: -1 exactly when absent, otherwise the first position holding the id |
| UsecasePullRequest.UnassignedMembers | internal/usecase/PullRequest/usecase.go:140-145 | a user survives the filter exactly when it is a candidate whose id is not an assigned reviewer |
| UsecasePullRequest.FilterCandidates | internal/usecase/PullRequest/usecase.go:140-145 | the filtering loop computes the unassigned candidates in order |
| UsecasePullRequest.Shuffle | internal/usecase/PullRequest/usecase.go:52 | the in-place shuffle is a permutation and keeps ids distinct |
| UsecasePullRequest.SelectReviewers | internal/usecase/PullRequest/usecase.go:47-56 | takes `min(2, number of candidates)` ids, all of them candidates' ids, pairwise distinct when the candidates' ids are |
| UsecasePullRequest.AuthorNotReviewer | internal/repository/PullRequest/postgres.go:27-33 | ids drawn from a teammate list that excludes the author never include the author |
| UsecasePullRequest.PullRequestRepo.ExistsById | internal/usecase/PullRequest/repo_interface.go:11 | answers membership, or fails |
| UsecasePullRequest.PullRequestRepo.GetActiveTeamMembersExceptAuthor | internal/usecase/PullRequest/repo_interface.go:12 | returns the author's teammate list, or fails |
| UsecasePullRequest.PullRequestRepo.Create | internal/usecase/PullRequest/repo_interface.go:13 | inserts under the pull request's id; a taken id fails |
| UsecasePullRequest.PullRequestRepo.GetById | internal/usecase/PullRequest/repo_interface.go:14 | returns the stored pull request; a missing one fails |
| UsecasePullRequest.PullRequestRepo.UpdateStatus | internal/usecase/PullRequest/repo_interface.go:15 | writes status and merge time of the stored row and returns its argument |
| UsecasePullRequest.PullRequestRepo.UpdateAssignedReviewers | internal/usecase/PullRequest/repo_interface.go:16 | replaces the old reviewer by the new one at the old reviewer's position |
| UsecasePullRequest.PullRequestUsecase.CheckPRIDExists | internal/usecase/PullRequest/usecase.go:186-193 | a store failure comes back wrapped, otherwise the membership answer |
| UsecasePullRequest.PullRequestUsecase.CheckCreatePRConditions | internal/usecase/PullRequest/usecase.go:166-184 | the author is checked before the PR id: a missing author gives `ErrUserNotFound`, a taken id `ErrPullRequestExists`; passes iff the author exists and the id is free |
| UsecasePullRequest.PullRequestUsecase.CreatePullRequest | internal/usecase/PullRequest/usecase.go:27-65 | the errors come in order, each domain error exactly under its condition so any other failure is a store failure, and none of them writes; success iff every step succeeds; the PR has the input's id, name and author, is OPEN, has no merge time and is stored under its id; it has `min(2, number of candidates)` reviewers, none when there are no candidates; all reviewers are candidates, and under the store contract they are distinct and never the author |
| UsecasePullRequest.PullRequestUsecase.MergePullRequest | internal/usecase/PullRequest/usecase.go:67-97 | a missing id, and only a missing id, gives `ErrPullRequestNotFound`, any other failure being a store failure; a MERGED PR is returned unchanged with no write; an OPEN one becomes MERGED with the given merge time and is persisted; no failure writes |
| UsecasePullRequest.MergeTwice | internal/usecase/PullRequest/usecase.go:82-84 | merge is idempotent, even when the store's failures change between the calls: after a successful merge a second one writes nothing, returns the same PR when it succeeds, and can fail only through the store |
| UsecasePullRequest.PullRequestUsecase.ReplaceReviewer | internal/usecase/PullRequest/usecase.go:134-163 | the last steps of a reassignment: a teammate-fetch failure is a store failure; `ErrNoAvailableCandidats` exactly when every active teammate already reviews; otherwise the chosen teammate is not a reviewer, takes the given position, is never the author under the store contract, and the store holds the returned PR unless the write fails, in which case nothing changes |
| UsecasePullRequest.PullRequestUsecase.ReassignReviewer | internal/usecase/PullRequest/usecase.go:99-164 | the errors come in order (user missing, PR missing, merged, not assigned, no candidate), each exactly under its condition so any other failure is a store failure, and none of them writes. On success the new reviewer is a teammate who was not a reviewer, so neither the old reviewer nor any other assigned one, and never the author under the store contract. It takes the old reviewer's position. The list keeps its length, every other position is unchanged, and distinct reviewers stay distinct. The returned PR is the one written |
| HttpPullRequest.MapDomainErrorToAPI | internal/delivery/http/PullRequest/handlers.go:118-136 | user or PR not found gives NOTFOUND/404; PR exists gives PREXISTS/409; no candidate, merged and not assigned give NOCANDIDATE, PRMERGED and NOTASSIGNED with 409; anything else gives INTERNAL/500; never 400 |
| HttpPullRequest.StorageFailureIsInternal | internal/delivery/http/PullRequest/handlers.go:133-134 | wrapped store failures are INTERNAL/500 |
| HttpPullRequest.PostPullRequestCreate | internal/delivery/http/PullRequest/handlers.go:28-53 | 400 BADREQUEST exactly when decoding or validation fails, whatever the use case would do; otherwise 201 with the created PR exactly when the use case succeeds, and the mapped error when it fails |
| HttpPullRequest.PostPullRequestMerge | internal/delivery/http/PullRequest/handlers.go:55-80 | 400 exactly on a decode or id failure; the use case gets the decimal value of the digits after `pr-`; 200 with the PR on success, and the mapped error otherwise |
| HttpPullRequest.PostPullRequestReassign | internal/delivery/http/PullRequest/handlers.go:82-116 | 400 exactly on a decode, PR-id or user-id failure; 200 on success, with `replaced_by` being `u` and the new reviewer's id, reading back to it and canonical exactly when it is not negative; the mapped error otherwise |
| HttpTeam.MapDomainErrorToAPI | internal/delivery/http/Team/handlers.go:68-77 | team exists gives TEAMEXISTS/400; team not found gives NOTFOUND/404; anything else gives INTERNAL/500 |
| HttpTeam.StorageFailureIsInternal | internal/delivery/http/Team/handlers.go:74-75 | wrapped store failures are INTERNAL/500 |
| HttpTeam.PostTeamAdd | internal/delivery/http/Team/handlers.go:23-48 | an undecodable or invalid team gives 400 whatever the use case would do; otherwise 201 with the created team on success, and the mapped error otherwise |
| HttpTeam.GetTeamGet | internal/delivery/http/Team/handlers.go:50-66 | a blank name gives 400 whatever the use case would do; otherwise 200 with the bare team on success, and the mapped error otherwise |
| HttpUser.MapDomainErrorToAPI | internal/delivery/http/User/handlers.go:73-81 | user not found gives NOTFOUND/404; anything else gives INTERNAL/500 |
| HttpUser.GetUsersGetReview | internal/delivery/http/User/handlers.go:25-44 | 400 exactly on an invalid id; the use case gets the decimal value of the digits after `u`; 200 with the id as sent and the short PRs on success, and the mapped error otherwise |
| HttpUser.PostUsersSetIsActive | internal/delivery/http/User/handlers.go:46-71 | 400 exactly on a decode or id failure; 200 with the user on success, and the mapped error otherwise |

## Left out

- Logging is dropped. The use-case constructors never set their logger, so
  the Go error paths would dereference nil in production. The constructors
  here take only the stores.
- `time.Now` is a parameter (`now`) of the create and merge operations.
- HTTP routing, JSON encoding and decoding, and the error message texts of
  the error replies are not modelled. A body that fails to decode is `None`.
  `DomainPRToAPI` builds its reviewer list by appending to a nil slice, so
  Go writes `null` rather than `[]` for a PR without reviewers. The model
  has an empty sequence there.
- The SQL repositories are not modelled. Each store is an abstract class
  that follows its repository interface. The stores are independent, so
  nothing ties the user store's users to the pull-request store's teammate
  lists.
- The PostgreSQL pull-request repository does not implement
  `UpdateAssignedReviewers`. The model's store gives it the meaning the use
  case relies on.
- The argument-count mismatch in the team repository's member update is not
  modelled.
- Concurrency between requests is not modelled. That includes races between
  an existence check and the write that follows it.
- The generated `internal/api` package is not part of this model. Its
  status enum strings are taken to be `OPEN` and `MERGED`.
- Ids.Atoi does not model the 64-bit range of `strconv.Atoi`. Go clamps an
  out-of-range number to the largest or smallest 64-bit value (so
  `u99999999999999999999` reads as 9223372036854775807), while the model
  keeps the exact value.
- Validation.ValidateUserId and Validation.ValidatePRId accept ASCII digits
  only. Go's `unicode.IsDigit` also accepts other Unicode decimal digits,
  which `Atoi` then rejects.
- UsecasePullRequest.PullRequestUsecase.CreatePullRequest states wrapped
  errors only as `IsStorageFailure`. The contracts do not state the
  wrapping message texts; the bodies carry the Go texts.
- UsecasePullRequest.PullRequestUsecase.ReassignReviewer states wrapped
  errors the same way.
- UsecasePullRequest.PullRequestUsecase.MergePullRequest states wrapped
  errors the same way.
- UsecasePullRequest.PullRequestUsecase.CreatePullRequest,
  UsecasePullRequest.PullRequestUsecase.MergePullRequest and
  UsecasePullRequest.PullRequestUsecase.ReassignReviewer require the
  store's primary-key invariant (`Valid`: every PR is stored under its own
  id). The database guarantees this. UsecaseTeam.TeamUsecase.CreateTeam
  likewise requires the team store's `Valid`: every stored id is below the
  next id the store hands out, as a serial key guarantees.
- UsecasePullRequest.MergeTwice says nothing when the first merge fails.
  The store's failures may change between the calls, so the second merge
  may then succeed or fail.
- UsecasePullRequest.Shuffle and
  UsecasePullRequest.PullRequestUsecase.ReassignReviewer make no claim about
  the distribution of the random choices. Every permutation and every
  index is allowed.
