# CLOWarden, modelled in Dafny

CLOWarden keeps a GitHub organization's teams and repository permissions in
line with a declarative configuration. That configuration is the Sheriff
permissions file (teams, with maintainers, members and one level of
"formation" teams, plus repositories with their teams, external
collaborators and visibility) and optionally the CNCF people file. This
project models the logic that decides what CLOWarden does:

- loading and validating the configuration, collecting every error instead
  of stopping at the first (`CoreDirectoryLegacy`, `CoreGithubLegacy`);
- the directory of teams and users built from it (`CoreDirectory`);
- the desired and actual GitHub state, the diff between them and the
  cross-checks on the desired state (`CoreGithubState`, `CoreGithubLoad`,
  `CoreGithubValidate`);
- the best-effort apply loop that turns each change into one service call
  and records one outcome per change (`CoreGithubHandler`);
- the error aggregation types and their rendering (`Errors`,
  `CoreMultiError`, `ServerMultiError`);
- the server's webhook handling: signature check (`Hex`, `ServerHandlers`),
  event classification (`ServerGithub`), per-organization job routing,
  reconcile and validation jobs and the scheduler (`ServerJobs`), and the
  flags the comment templates show (`ServerTmpl`).

The first-generation code in the repository's `src/` tree repeats much of
this with observably different behaviour. It is modelled separately, in
the `Old*` modules, and never merged with the current code: its diffs order
changes differently, report removed repositories, default an unset
visibility to private, and stop a reconcile at the first failing service.

GitHub, the services behind it, the HMAC, base64, UTF-8, YAML and JSON
decoders and the template renderer are function-valued parameters (oracles)
whose answers the model takes as given. Hash-map and hash-set iteration
order is left open: each diff is proved against a predicate that fixes
the order between change categories and holds whatever order is chosen
within one (`Collections.Enumerate`). A map built from a list keeps the
last entry under a repeated name, as `collect()` does.

Operations that change state in place are methods on classes or loops with
invariants. The `MultiError` collectors are classes whose `push` and
`extend` appear as `modifies` methods, and the job queues are classes.
Each such method is tied by its `ensures` to a specification function or
predicate, and the properties of those functions are lemmas.

## Model

| member | source | states |
|---|---|---|
| Errors.Chain | clowarden-core/src/multierror.rs:134-136 | the chain starts with the error itself and continues with the chain of the error it wraps; a message or a list has no source |
| Errors.DowncastMulti | clowarden-core/src/multierror.rs:125 | a list of errors is found as itself, through any number of context layers, and a plain message is never taken for one |
| Errors.WithContext | clowarden-core/src/directory/legacy.rs:81-84 | a success passes through untouched; a failure gets the context as its outermost message, so its chain grows by exactly that message |
| CoreMultiError.MultiError.constructor | clowarden-core/src/multierror.rs:38-43 | a new collector has the given context and no error |
| CoreMultiError.MultiError.FromError | clowarden-core/src/multierror.rs:71-78 | converting one error gives exactly that error and no context |
| CoreMultiError.MultiError.FromIter | clowarden-core/src/multierror.rs:86-93 | collecting an iterator keeps its errors in order, with no context |
| CoreMultiError.MultiError.ContainsErrors | clowarden-core/src/multierror.rs:46-48 | true exactly when the collector is not empty |
| CoreMultiError.MultiError.Push | clowarden-core/src/multierror.rs:56-61 | the error is appended after the earlier ones, the context is unchanged, and the collector is no longer empty |
| CoreMultiError.MultiError.Extend | clowarden-core/src/multierror.rs:80-84 | the iterator's errors are appended in order and the context is unchanged |
| CoreMultiError.MultiError.ToError | clowarden-core/src/multierror.rs:51-53 | the error value carries the collector's context and errors, and downcasting it gives it back |
| CoreMultiError.Pad2 | clowarden-core/src/multierror.rs:101 | a number is right-aligned in a field of two: a single digit gets one leading space |
| CoreMultiError.NumberedLines | clowarden-core/src/multierror.rs:100-102 | one line per error, the i-th numbered from `first + i` and showing the error's alternate form |
| CoreMultiError.DisplayShape | clowarden-core/src/multierror.rs:95-105 | the context, when set, is the first line and ends in a colon; error i follows as line "i. err", counting from 1 |
| CoreMultiError.FmtInnerIndented | clowarden-core/src/multierror.rs:123-139 | every line of the dump of an error at depth d is indented at least d levels, so nested lists are indented deeper |
| CoreMultiError.PlainShape | clowarden-core/src/multierror.rs:132-136 | an error that is not a list prints its message at its depth and then one "↳ cause" line per source, in chain order |
| CoreMultiError.MultiShape | clowarden-core/src/multierror.rs:125-131 | a list prints its context line, when set, and then its errors one level deeper |
| CoreMultiError.ContextOverMultiHidden | clowarden-core/src/multierror.rs:125-131 | a context layered over a list is not printed: only the list's own context is |
| CoreGithub.SourceFrom | clowarden-core/src/github.rs:108-117 | the source is the organization's installation, owner, configuration repository and branch |
| CoreGithub.SetupClient | clowarden-core/src/github.rs:61-79 | with an installation id the app credentials are required and used, without one the token is; the missing one yields its own error message |
| CoreGithub.StripLeavesNoWhitespace | clowarden-core/src/github.rs:94 | no whitespace byte remains after stripping |
| CoreGithub.StripConcat | clowarden-core/src/github.rs:94 | stripping works piece by piece, so the kept bytes keep their order |
| CoreGithub.StripKeepsClean | clowarden-core/src/github.rs:94 | a payload without whitespace is left exactly as it is |
| CoreGithub.StripIdempotent | clowarden-core/src/github.rs:94 | stripping twice is the same as stripping once |
| CoreGithub.RetainNonWhitespace | clowarden-core/src/github.rs:94 | the in-place `retain` leaves at the front of the buffer exactly the stripped payload, and the new length is at most the old one |
| CoreServices.IsInvalid | clowarden-core/src/services/mod.rs:75-77 | only the `Invalid` status counts as invalid; `Unknown` does not |
| CoreDirectoryLegacy.EmptyNameInvalid | clowarden-core/src/directory/legacy.rs:17-18 | an empty name never matches the team-slug pattern, so an unnamed entry also gets the invalid-name error |
| CoreDirectoryLegacy.SortDedup | clowarden-core/src/directory/legacy.rs:127-135 | sorting then deduplicating gives a strictly ascending list with exactly the original users |
| CoreDirectoryLegacy.StrictlySortedUnique | clowarden-core/src/directory/legacy.rs:127-135 | two strictly ascending lists with the same elements are equal, so the result of sort-and-dedup is determined by the users alone |
| CoreDirectoryLegacy.FindTeam | clowarden-core/src/directory/legacy.rs:102 | nothing is found iff no team has the name; otherwise the result is the first team with that name |
| CoreDirectoryLegacy.ExtendOpt | clowarden-core/src/directory/legacy.rs:104-116 | a present list is extended by the source's users (none when the source has no list); an absent list takes the source's list as it is |
| CoreDirectoryLegacy.ComposeWithUsers | clowarden-core/src/directory/legacy.rs:96-121 | a composite team ends with its own maintainers and members plus those the named teams had before processing; names that match no team add nothing |
| CoreDirectoryLegacy.ComposeUnknownIgnored | clowarden-core/src/directory/legacy.rs:102 | formation names that match no team leave the team unchanged |
| CoreDirectoryLegacy.DedupTeam | clowarden-core/src/directory/legacy.rs:124-138 | name and formation kept, each list present exactly when it was, and each present list sorted, duplicate-free and with the same users |
| CoreDirectoryLegacy.TeamId | clowarden-core/src/directory/legacy.rs:149-153 | a team is identified in messages by its name, or by its index when the name is empty |
| CoreDirectoryLegacy.BothErrors | clowarden-core/src/directory/legacy.rs:185-191 | at most one error per maintainer, and none iff no maintainer is also a member |
| CoreDirectoryLegacy.ValidateOkIff | clowarden-core/src/directory/legacy.rs:141-198 | validation succeeds iff every entry has a slug name not used by an earlier entry, at least one maintainer, and no maintainer who is also a member |
| CoreDirectoryLegacy.EmptyNameErrors | clowarden-core/src/directory/legacy.rs:155-165 | an unnamed entry gets the missing-name error and the invalid-name error, both identified by its index |
| CoreDirectoryLegacy.DuplicateSkipsRest | clowarden-core/src/directory/legacy.rs:167-176 | a repeated name gets only its name check and the duplicate error, and none of the maintainer checks |
| CoreDirectoryLegacy.NoMaintainerReported | clowarden-core/src/directory/legacy.rs:179-182 | a first occurrence without maintainers gets the at-least-one-maintainer error |
| CoreDirectoryLegacy.SheriffCfg.constructor | clowarden-core/src/directory/legacy.rs:82-84 | the configuration holds the parsed teams |
| CoreDirectoryLegacy.SheriffCfg.ProcessCompositeTeams | clowarden-core/src/directory/legacy.rs:96-121 | the team list keeps its length, and each team is its old self composed with the teams as they were before any change |
| CoreDirectoryLegacy.SheriffCfg.RemoveDuplicates | clowarden-core/src/directory/legacy.rs:124-138 | the team list keeps its length, and each team is its deduplicated old self |
| CoreDirectoryLegacy.SheriffCfg.Validate | clowarden-core/src/directory/legacy.rs:141-198 | the result is every error of every entry, in order, as one list, or success when there is none |
| CoreDirectoryLegacy.CheckAll | clowarden-core/src/directory/legacy.rs:144-192 | the loop appends the errors of all entries, in entry order, and leaves the context alone |
| CoreDirectoryLegacy.CheckEntry | clowarden-core/src/directory/legacy.rs:145-191 | one iteration appends exactly the entry's errors and adds its name, when non-empty, to the names seen |
| CoreDirectoryLegacy.CheckMaintainers | clowarden-core/src/directory/legacy.rs:185-191 | the inner loop appends one error per maintainer who is also a member, in maintainer order |
| CoreDirectoryLegacy.ValidatePeople | clowarden-core/src/directory/legacy.rs:262-276 | success iff every person is named; otherwise a context-free list of the errors |
| CoreDirectoryLegacy.PeopleErrorsAreEmptyNames | clowarden-core/src/directory/legacy.rs:265-270 | there is exactly one error per unnamed person, naming that person's index |
| CoreDirectoryLegacy.GetSheriff | clowarden-core/src/directory/legacy.rs:79-92 | fetch and parse failures carry their own context; otherwise the teams are composed, then deduplicated, then validated |
| CoreDirectoryLegacy.GetCncf | clowarden-core/src/directory/legacy.rs:246-259 | no path means no people file; otherwise the file is fetched, parsed and validated, each failure with its context |
| CoreDirectoryLegacy.Get | clowarden-core/src/directory/legacy.rs:29-57 | success iff both files load; the failures of either or both are collected, Sheriff's first, under "invalid directory configuration" |
| CoreDirectory.TeamMap | clowarden-core/src/directory/mod.rs:63-64 | the map's keys are the team names, and each entry is a team of the directory under its own name |
| CoreDirectory.UserMap | clowarden-core/src/directory/mod.rs:114-115 | the map's keys are the users' full names, and each entry is a user of the directory under its own full name |
| CoreDirectory.PushTeamsRemoved | clowarden-core/src/directory/mod.rs:69-71 | one `TeamRemoved` per name removed, in the iteration order |
| CoreDirectory.PushTeamsAdded | clowarden-core/src/directory/mod.rs:72-74 | the earlier changes are kept, then one `TeamAdded` per name added, carrying the new directory's record |
| CoreDirectory.TeamChanges | clowarden-core/src/directory/mod.rs:66-74 | exactly the removed teams and then exactly the added teams, each once |
| CoreDirectory.PushKind | clowarden-core/src/directory/mod.rs:87-110 | one membership loop appends one change of its kind per user, in iteration order |
| CoreDirectory.MembershipBlock | clowarden-core/src/directory/mod.rs:83-110 | for a team in both directories: the maintainers removed, members removed, maintainers added and members added, as set differences, in that order |
| CoreDirectory.MembershipChanges | clowarden-core/src/directory/mod.rs:76-111 | membership changes for exactly the teams present in both directories, team by team; new teams get none |
| CoreDirectory.UsersRemovedAdded | clowarden-core/src/directory/mod.rs:117-127 | exactly the removed users and then exactly the added ones, and `usersAdded` is the set of added full names |
| CoreDirectory.UsersUpdated | clowarden-core/src/directory/mod.rs:129-141 | `UserUpdated` for exactly the full names in both directories whose records differ |
| CoreDirectory.Diff | clowarden-core/src/directory/mod.rs:59-144 | every expected change exactly once and nothing else; teams removed, teams added, membership, users removed, users added, users updated, in that order; each team's membership changes together and in the loop order |
| CoreDirectory.SelfDiffEmpty | clowarden-core/src/directory/mod.rs:59-144 | a directory compared with itself has no changes |
| CoreDirectory.DiffUniqueUpToOrder | clowarden-core/src/directory/mod.rs:59-144 | any two results of the diff hold the same changes; only the hash-map order within a category can differ |
| CoreDirectory.TeamAddedOnce | clowarden-core/src/directory/mod.rs:72-81 | a team only in the new directory gets one `TeamAdded` with its record and no membership change |
| CoreDirectory.TeamRemovedOnly | clowarden-core/src/directory/mod.rs:69-71 | a team only in the old directory gets one `TeamRemoved` and no other team change |
| CoreDirectory.CommonTeamMembership | clowarden-core/src/directory/mod.rs:83-110 | for a team in both directories, each of the four membership changes is reported iff the user is in the one list and not the other |
| CoreDirectory.UserUpdatedOnlyChanged | clowarden-core/src/directory/mod.rs:129-141 | `UserUpdated` iff the full name is in both directories with different records, so never for an added user |
| CoreDirectory.GetTeam | clowarden-core/src/directory/mod.rs:176-178 | nothing iff no team has the name; otherwise the first team with that name |
| CoreDirectory.GetUser | clowarden-core/src/directory/mod.rs:182-189 | nothing iff no user has that user name; otherwise the first user with it; users without a user name never match |
| CoreDirectory.GithubHandle | clowarden-core/src/directory/mod.rs:23-24 | a handle is returned only when the URL matches the profile pattern, and it is the captured handle |
| CoreDirectory.GithubHandleOfProfile | clowarden-core/src/directory/mod.rs:203-207 | a profile URL with or without a trailing slash yields its handle |
| CoreDirectory.ImageUrl | clowarden-core/src/directory/mod.rs:208-212 | no image gives none; an https URL is kept; a file name is expanded to the people images URL |
| CoreDirectory.UserFrom | clowarden-core/src/directory/mod.rs:202-231 | the full name and profile URLs are copied; the user name is set iff the GitHub URL has a handle, and then is that handle |
| CoreDirectory.TeamFrom | clowarden-core/src/directory/mod.rs:260-269 | the name is kept, absent maintainers or members become empty lists, and there is no display name or annotation |
| CoreDirectory.FromLegacy | clowarden-core/src/directory/mod.rs:192-240 | one team per Sheriff team in order; one user per person in order, or none without a people file |
| CoreDirectory.NewFromConfig | clowarden-core/src/directory/mod.rs:45-54 | only the legacy format loads; it succeeds iff both files load, and its failure carries "invalid directory configuration" |
| CoreDirectory.GetChangesSummary | clowarden-core/src/directory/mod.rs:148-172 | an error iff the head configuration fails to load; a base that fails gives no changes and status `Invalid`; otherwise the diff from base to head with status `Valid` |
| CoreGithubState.RoleRank | clowarden-core/src/services/github/state.rs:501-510 | roles rank from 0 for read, the default, to 4 for admin |
| CoreGithubState.RoleOrder | clowarden-core/src/services/github/state.rs:501-510 | the derived role order is a strict total order with the default role at the bottom |
| CoreGithubState.ParseRole | clowarden-core/src/services/github/state.rs:502 | a text is read as the role whose lowercase name it is, and as nothing when no role has that name |
| CoreGithubState.RoleTextRoundTrip | clowarden-core/src/services/github/state.rs:512-522 | a role's display text is read back as the same role |
| CoreGithubState.RoleFromPermissions | clowarden-core/src/services/github/state.rs:524-535 | the role is the highest one whose permission flag is set, and the default role when no flag is set or there is no record |
| CoreGithubState.PermissionsMonotone | clowarden-core/src/services/github/state.rs:524-535 | setting more permission flags never lowers the role |
| CoreGithubState.RoleFromInvitation | clowarden-core/src/services/github/state.rs:537-548 | an invitation permission the model does not name becomes the default role |
| CoreGithubState.InvitationOf | clowarden-core/src/services/github/state.rs:550-560 | a role's invitation permission is never the catch-all, and it is read back as the same role |
| CoreGithubState.TeamRequestOf | clowarden-core/src/services/github/state.rs:562-572 | the team request asks "pull" exactly for read and "push" exactly for write |
| CoreGithubState.TeamRequestInjective | clowarden-core/src/services/github/state.rs:562-572 | different roles ask for different team permissions |
| CoreGithubState.VisibilityFromString | clowarden-core/src/services/github/state.rs:607-616 | the visibility whose name the text is, and the default, public, for any other text |
| CoreGithubState.VisibilityRoundTrip | clowarden-core/src/services/github/state.rs:597-616 | a visibility's display text is read back as the same visibility |
| CoreGithubState.RepoMap | clowarden-core/src/services/github/state.rs:358-359 | the map's keys are the repository names, and each entry is a repository of the list under its own name |
| CoreGithubState.RoleIn | clowarden-core/src/services/github/state.rs:362-377 | the role in the map when the name is there, the default role when it is not |
| CoreGithubState.PushAdded | clowarden-core/src/services/github/state.rs:382-384 | one `RepositoryAdded` per name, carrying the new list's record |
| CoreGithubState.AddedChanges | clowarden-core/src/services/github/state.rs:379-384 | exactly the repositories only in the new list, each once |
| CoreGithubState.PushKind | clowarden-core/src/services/github/state.rs:402-414 | one added/removed loop appends one change of its kind per name, in order, with the name's new role |
| CoreGithubState.PushRoleUpdated | clowarden-core/src/services/github/state.rs:415-429 | a role update for exactly the names in both maps whose roles differ, each carrying the new role |
| CoreGithubState.AccessChanges | clowarden-core/src/services/github/state.rs:393-467 | the removed names, the added names and the names whose role changed, for teams or for collaborators, each list duplicate-free and equal as a set to its set difference |
| CoreGithubState.VisibilityChange | clowarden-core/src/services/github/state.rs:469-478 | a visibility update, with the new visibility or the default when unset, exactly when the two visibilities differ |
| CoreGithubState.RepoBlock | clowarden-core/src/services/github/state.rs:393-478 | all changes of a repository in both lists, in the kind order the loop pushes them, and exactly the changes expected for it |
| CoreGithubState.CommonChanges | clowarden-core/src/services/github/state.rs:386-479 | the changes of every repository in both lists, repository by repository; new repositories get none |
| CoreGithubState.RepositoriesDiff | clowarden-core/src/services/github/state.rs:354-482 | every expected change exactly once and nothing else, added repositories first, each repository's changes together and in the loop's kind order |
| CoreGithubState.SelfDiffEmpty | clowarden-core/src/services/github/state.rs:354-482 | a list of repositories compared with itself has no changes |
| CoreGithubState.DiffUnique | clowarden-core/src/services/github/state.rs:354-482 | any two results of the diff hold the same changes; only the hash-map order differs |
| CoreGithubState.OldOnlyUntouched | clowarden-core/src/services/github/state.rs:379-391 | a repository only the old list holds is not removed: no change is about it |
| CoreGithubState.AddedOnce | clowarden-core/src/services/github/state.rs:382-391 | a repository only in the new list is added once, with its record, and nothing else is reported about it |
| CoreGithubState.OneChangePerGrantee | clowarden-core/src/services/github/state.rs:402-467 | a team or collaborator of a common repository is removed, added or has its role updated, never two of these |
| CoreGithubState.VisibilityUnsetVersusPublic | clowarden-core/src/services/github/state.rs:470-478 | an unset visibility and an explicit public differ as written, so going between them reports an update to public |
| CoreGithubState.IsTeamChange | clowarden-core/src/services/github/state.rs:251-259 | a directory change is kept exactly when it is not about a user |
| CoreGithubState.StateDiff | clowarden-core/src/services/github/state.rs:245-263 | the directory's team and membership changes, with no user change, and the repository diff |
| CoreGithubValidate.TeamErrorsEmpty | clowarden-core/src/services/github/state.rs:295-304 | no maintainer error is reported iff every maintainer of every team is an organization member |
| CoreGithubValidate.CheckMaintainers | clowarden-core/src/services/github/state.rs:295-304 | one error per maintainer who is not an organization member, team by team and in list order |
| CoreGithubValidate.CheckTeamMaintainers | clowarden-core/src/services/github/state.rs:296-303 | the inner loop: one error per maintainer of the team who is not an organization member, in order |
| CoreGithubValidate.DirectoryTeamNames | clowarden-core/src/services/github/state.rs:317 | a name is listed iff some team of the directory has it |
| CoreGithubValidate.CheckRepoTeams | clowarden-core/src/services/github/state.rs:316-326 | one error per team of the repository missing from the directory, each team once, and none iff all exist |
| CoreGithubValidate.MissingScan | clowarden-core/src/services/github/state.rs:319-325 | the loop keeps, in order, exactly the keys the directory lacks and reports one error for each |
| CoreGithubValidate.HighestAmong | clowarden-core/src/services/github/state.rs:274-287 | nothing iff no team qualifies; otherwise a qualifying team with a role no other qualifying team exceeds, and the first one found among those |
| CoreGithubValidate.HighestTeamRole | clowarden-core/src/services/github/state.rs:271-290 | nothing iff no team of the repository lists the user; otherwise the team with the highest role among those that do, with that role |
| CoreGithubValidate.OverriddenByHighest | clowarden-core/src/services/github/state.rs:333-341 | comparing the collaborator's role with the highest team role decides exactly whether some team gives the user more |
| CoreGithubValidate.CheckCollaborator | clowarden-core/src/services/github/state.rs:332-341 | an error for the collaborator iff some team gives it a higher role; the error is the message naming the collaborator, a team giving it the highest role and that role |
| CoreGithubValidate.CheckCollaborators | clowarden-core/src/services/github/state.rs:331-343 | one error per collaborator that a team gives a higher role, each once, in order, each naming a team with the highest role and that role; none iff no collaborator is overridden |
| CoreGithubValidate.CollaboratorScan | clowarden-core/src/services/github/state.rs:332-342 | the loop keeps, in order, exactly the overridden collaborators and reports for each the error naming its highest team role |
| CoreGithubValidate.CheckRepository | clowarden-core/src/services/github/state.rs:306-344 | a repository's errors are its missing-team errors, each missing team once, followed by its collaborator errors as above; none iff all its teams exist and none of its collaborators is overridden |
| CoreGithubValidate.CheckRepositories | clowarden-core/src/services/github/state.rs:306-344 | the errors are those of each repository, as above, concatenated in list order, each repository identified by its name or index; none iff every repository passes both checks |
| CoreGithubValidate.Validate | clowarden-core/src/services/github/state.rs:266-350 | a failed member listing is returned as is; otherwise success iff every check passes, and a failure is exactly the maintainer errors followed by every repository's errors in list order, under "invalid github service configuration" |
| CoreGithubLegacy.SlugErrorsEmpty | clowarden-core/src/services/github/legacy.rs:67-76 | no slug error iff every team key of the entry is a team slug |
| CoreGithubLegacy.SlugErrorReported | clowarden-core/src/services/github/legacy.rs:69-74 | every team key that is not a slug gets its error |
| CoreGithubLegacy.RepoValidateOkIff | clowarden-core/src/services/github/legacy.rs:36-83 | validation succeeds iff every entry is named, no earlier entry has its name, and every team key on it is a slug, whatever the map order |
| CoreGithubLegacy.EmptyRepoNameReported | clowarden-core/src/services/github/legacy.rs:50-53 | an unnamed entry's first error is the missing-name error, identified by its index |
| CoreGithubLegacy.DuplicateRepoSkipsRest | clowarden-core/src/services/github/legacy.rs:55-63 | a repeated name gets only the duplicate error, and its team keys are not checked |
| CoreGithubLegacy.InvalidSlugReported | clowarden-core/src/services/github/legacy.rs:67-76 | on an entry that is not a duplicate, every team key that is not a slug is reported |
| CoreGithubLegacy.CheckTeamSlugs | clowarden-core/src/services/github/legacy.rs:68-76 | the inner loop reports the keys that are not slugs, in the order visited, and nothing iff all are slugs |
| CoreGithubLegacy.CheckRepoEntry | clowarden-core/src/services/github/legacy.rs:40-76 | one iteration reports exactly the entry's errors for a duplicate-free listing of its team keys, and adds its name to the names seen |
| CoreGithubLegacy.ValidateRepos | clowarden-core/src/services/github/legacy.rs:36-83 | every problem of every entry in order, under "invalid github service configuration", for some map order of each entry's team keys |
| CoreGithubLegacy.RepoErrorsUpToPrefix | clowarden-core/src/services/github/legacy.rs:40-77 | the errors of the first n entries depend only on the order in which those entries' keys are visited |
| CoreGithubLegacy.GetRepos | clowarden-core/src/services/github/legacy.rs:25-33 | fetch and parse failures carry their own context; otherwise the repositories are returned iff they validate |
| CoreGithubLoad.AdminsIn | clowarden-core/src/services/github/state.rs:89-95 | the members that are organization admins, no more and no fewer |
| CoreGithubLoad.Without | clowarden-core/src/services/github/state.rs:96 | `retain` keeps exactly the users that are not excluded |
| CoreGithubLoad.PromoteTeam | clowarden-core/src/services/github/state.rs:88-97 | members that are organization admins become maintainers, appended after the existing ones; the other members stay; name and annotations are kept |
| CoreGithubLoad.PromoteTeamKeepsUsers | clowarden-core/src/services/github/state.rs:88-97 | nobody joins or leaves a team by being promoted |
| CoreGithubLoad.PromoteTeamIdempotent | clowarden-core/src/services/github/state.rs:88-97 | promoting a second time changes nothing |
| CoreGithubLoad.PromoteTeamAdmins | clowarden-core/src/services/github/state.rs:89-96 | the loop over one team's members gives the promoted team |
| CoreGithubLoad.PromoteAdmins | clowarden-core/src/services/github/state.rs:88-97 | every team of the directory is promoted, and the list keeps its length and order |
| CoreGithubLoad.IsRepositoryArchived | clowarden-core/src/services/github/state.rs:74-81 | the archived flag of the first service repository with the name, and false when there is none |
| CoreGithubLoad.PrepareRepository | clowarden-core/src/services/github/state.rs:106-123 | name and teams kept; a missing visibility becomes the default; collaborators present iff they were, and without the organization admins |
| CoreGithubLoad.PrepareRepositoryIdempotent | clowarden-core/src/services/github/state.rs:106-123 | preparing twice is preparing once |
| CoreGithubLoad.DesiredRepositories | clowarden-core/src/services/github/state.rs:100-124 | every configured repository that is not archived is kept, prepared; when none is archived, all are kept |
| CoreGithubLoad.DesiredRepositoriesFrom | clowarden-core/src/services/github/state.rs:104-124 | every desired repository is the preparation of a configured repository that is not archived |
| CoreGithubLoad.DesiredRepositoriesPrepared | clowarden-core/src/services/github/state.rs:106-123 | every desired repository has a visibility and lists no organization admin as a collaborator |
| CoreGithubLoad.NewFromConfig | clowarden-core/src/services/github/state.rs:56-137 | only the legacy format is supported; the admins, the service's repositories, the directory and the repositories file must load, in that order, and the state must validate; the first failure is returned |
| CoreGithubLoad.Checked | clowarden-core/src/services/github/state.rs:130-132 | the state is returned iff the member listing succeeds and the state validates; a listing failure is returned as is |
| CoreGithubHandler.FirstInvitation | clowarden-core/src/services/github/mod.rs:46-52 | nothing iff no invitation is for the user; otherwise the id of the first invitation for the user |
| CoreGithubHandler.GetRepositoryInvitation | clowarden-core/src/services/github/mod.rs:40-54 | a failed listing is returned as is; otherwise the first invitation to the user, if any |
| CoreGithubHandler.DirCall | clowarden-core/src/services/github/mod.rs:107-126 | a directory change makes a service call iff it is a team change; user changes are skipped |
| CoreGithubHandler.DirCallInjective | clowarden-core/src/services/github/mod.rs:108-122 | different team changes make different calls |
| CoreGithubHandler.RepoCall | clowarden-core/src/services/github/mod.rs:135-177 | only removing a collaborator or changing its role can fail before the call, and exactly when listing the invitations fails |
| CoreGithubHandler.InvitationPreferred | clowarden-core/src/services/github/mod.rs:150-173 | a pending invitation to the user is removed or updated instead of the collaborator; without one the collaborator itself is |
| CoreGithubHandler.RepoCallInjective | clowarden-core/src/services/github/mod.rs:136-176 | apart from the invitation calls, different repository changes make different calls |
| CoreGithubHandler.Outcome | clowarden-core/src/services/github/mod.rs:129 | an error message is recorded iff the call failed, and it is the error's text |
| CoreGithubHandler.DirAppliedSnoc | clowarden-core/src/services/github/mod.rs:107-132 | applying one more team change appends its record, numbered after the earlier ones |
| CoreGithubHandler.ApplyDirectoryChanges | clowarden-core/src/services/github/mod.rs:105-132 | one record per team change, in order, each with its call's outcome; user changes get none |
| CoreGithubHandler.ApplyRepositoryChanges | clowarden-core/src/services/github/mod.rs:134-183 | one record per change, in order, each with its call's outcome; a failed invitation lookup aborts with that error |
| CoreGithubHandler.AppliedAllConcat | clowarden-core/src/services/github/mod.rs:103-185 | the team-change records followed by the repository-change records are the records of the whole reconcile |
| CoreGithubHandler.Reconcile | clowarden-core/src/services/github/mod.rs:88-186 | a failed actual or desired state is returned under its context; otherwise the changes between them are applied, directory changes first |
| CoreGithubHandler.ApplyChanges | clowarden-core/src/services/github/mod.rs:103-185 | success iff every repository change gets its call, and then every change is recorded, team changes first |
| CoreGithubHandler.GetChangesSummary | clowarden-core/src/services/github/mod.rs:60-85 | an error iff the head state fails to load; a base that fails gives no changes and status `Invalid`; otherwise the repository changes from base to head with status `Valid` |
| ServerMultiError.MultiError.constructor | clowarden-server/src/multierror.rs:13-18 | a new collector has the given context and no error |
| ServerMultiError.MultiError.FromError | clowarden-server/src/multierror.rs:36-43 | converting one error gives exactly that error and no context |
| ServerMultiError.MultiError.ContainsErrors | clowarden-server/src/multierror.rs:21-23 | true exactly when at least one error was pushed |
| ServerMultiError.MultiError.Errors | clowarden-server/src/multierror.rs:26-28 | all the errors, in the order they were pushed |
| ServerMultiError.MultiError.Push | clowarden-server/src/multierror.rs:31-33 | the error goes at the end; the earlier errors and the context stay |
| ServerMultiError.MultiError.ToError | clowarden-server/src/multierror.rs:36-43 | the error value carries the collector's context and errors |
| ServerMultiError.MultiError.ToString | clowarden-server/src/multierror.rs:45-52 | the display is each error's alternate form followed by a space, in order |
| ServerMultiError.DisplayErrorsConcat | clowarden-server/src/multierror.rs:47-49 | the display of two runs of errors is the display of the first followed by that of the second |
| ServerMultiError.DisplayAfterPush | clowarden-server/src/multierror.rs:47-49 | pushing an error adds its alternate form and a space at the end of the display |
| ServerMultiError.DisplayEmptyIff | clowarden-server/src/multierror.rs:45-52 | the display is empty exactly when there is no error |
| ServerGithub.CtxFrom | clowarden-server/src/github.rs:205-213 | the request target is the organization's installation, owner and configuration repository |
| ServerGithub.EventErrorText | clowarden-server/src/github.rs:140-147 | an invalid body is shown as "invalid body: " followed by the parser's message |
| ServerGithub.EventFrom | clowarden-server/src/github.rs:120-136 | no header is a missing-header error; any header but `pull_request` is unsupported; a pull request body is the event when it parses and an invalid-body error with the parser's message when it does not |
| ServerGithub.NewChecksCreateRequest | clowarden-server/src/github.rs:172-196 | the check is named CLOWarden, for the given commit, status and conclusion, with the message as title and summary and an empty text |
| ServerGithub.NewChecksCreateRequestInjective | clowarden-server/src/github.rs:172-196 | requests for different commits or messages are different |
| ServerTmpl.AnyApplied | clowarden-server/src/tmpl.rs:28-35 | the scan is true iff some service listed has a non-empty list of applied changes |
| ServerTmpl.AnyFailed | clowarden-server/src/tmpl.rs:41-45 | the scan is true iff some applied change carries an error |
| ServerTmpl.AnyServiceFailed | clowarden-server/src/tmpl.rs:40-46 | the scan is true iff some service listed has an applied change with an error |
| ServerTmpl.NewReconciliationCompleted | clowarden-server/src/tmpl.rs:23-56 | the services are those with applied changes followed by those that failed; changes are flagged iff some service applied any; errors are flagged iff a service failed or some applied change carries an error |
| ServerTmpl.ServiceNames | clowarden-server/src/tmpl.rs:27 | the names of the services with applied changes and then those of the failed ones, each group complete |
| ServerTmpl.ScanApplied | clowarden-server/src/tmpl.rs:28-48 | both scans over the applied changes decide exactly whether some service applied changes and whether some applied change failed |
| ServerTmpl.AppliedFacts | clowarden-server/src/tmpl.rs:28-35 | the scan over an enumeration of the map's keys is true iff some service applied changes, whatever the order |
| ServerTmpl.FailedFacts | clowarden-server/src/tmpl.rs:40-46 | the scan over an enumeration of the map's keys is true iff some applied change failed, whatever the order |
| ServerTmpl.AnyChanges | clowarden-server/src/tmpl.rs:91-95 | the scan is true iff some service summary listed has changes |
| ServerTmpl.AnyInvalid | clowarden-server/src/tmpl.rs:102-106 | the scan is true iff some service summary listed has an invalid base configuration |
| ServerTmpl.NewValidationSucceeded | clowarden-server/src/tmpl.rs:83-115 | changes are flagged iff the directory or some service has one; the base configuration is flagged iff the directory's or some service's status is exactly `Invalid` |
| ServerJobs.OrgName | clowarden-server/src/jobs.rs:54-61 | a job's organization is the one in its reconcile or validate input |
| ServerJobs.NewReconcileInput | clowarden-server/src/jobs.rs:74-92 | the input carries the organization, the pull request number, its author and merger; the merge time is kept exactly when it is present and converts |
| ServerJobs.NewValidateInput | clowarden-server/src/jobs.rs:106-117 | the input carries the organization, number, head ref and sha; the head owner and repository are set exactly when the head has a repository |
| ServerJobs.JobsFor | clowarden-server/src/jobs.rs:172-177 | the jobs of one organization are exactly the jobs naming it, none invented |
| ServerJobs.JobsForSnoc | clowarden-server/src/jobs.rs:172-177 | one more job sent adds it to its organization's jobs only |
| ServerJobs.Router.constructor | clowarden-server/src/jobs.rs:154-163 | one empty queue per configured organization, keyed by its name |
| ServerJobs.Router.Route | clowarden-server/src/jobs.rs:173-177 | a job goes to the end of its organization's queue; a job for an unknown organization is dropped |
| ServerJobs.Router.RouteAll | clowarden-server/src/jobs.rs:167-185 | after routing a sequence of jobs, each queue holds its organization's jobs in the order sent |
| ServerJobs.Router.Next | clowarden-server/src/jobs.rs:194-218 | an organization worker takes the oldest job of its own queue, if any |
| ServerJobs.RouteStep | clowarden-server/src/jobs.rs:173-177 | routing one more job keeps every queue equal to its organization's jobs sent |
| ServerJobs.ScheduledReconcile | clowarden-server/src/jobs.rs:379-382 | a scheduled reconcile job carries only the organization, no pull request data |
| ServerJobs.SchedulerTick | clowarden-server/src/jobs.rs:376-387 | each tick sends one scheduled reconcile job per organization, in configuration order |
| ServerJobs.TickRouted | clowarden-server/src/jobs.rs:376-387 | the jobs of a tick that reach an organization's queue are exactly its scheduled reconciles |
| ServerJobs.ScheduledForUnique | clowarden-server/src/jobs.rs:376-387 | with distinct organization names a tick gives each organization exactly one reconcile job |
| ServerJobs.NoneScheduled | clowarden-server/src/jobs.rs:376-387 | an organization not configured gets no scheduled job |
| ServerJobs.ReconcileServices | clowarden-server/src/jobs.rs:224-238 | every service ends in exactly one of the two maps: its changes applied on success, its error on failure |
| ServerJobs.HandleReconcileJob | clowarden-server/src/jobs.rs:223-277 | applied changes and errors per service as above; for a pull request job the comment posted is the rendered reconciliation-completed template built from those two maps, and a render failure (the only way the job fails) posts nothing |
| ServerJobs.HeadSource | clowarden-server/src/jobs.rs:285-290 | the head source is the pull request's owner, repository and ref, the organization's own owner and repository standing in when the head has none |
| ServerJobs.DirectorySummary | clowarden-server/src/jobs.rs:292-303 | a directory that does not load pushes its error and gives an empty summary of unknown status; otherwise no error is added and the summary is the head's changes against the base (or empty and `Invalid` when the base does not load) |
| ServerJobs.CollectSummaries | clowarden-server/src/jobs.rs:306-316 | summaries kept for exactly the services that succeed; errors only appended, and none appended iff every service succeeds |
| ServerJobs.HandleValidateJob | clowarden-server/src/jobs.rs:281-349 | the summaries and errors are gathered as `Gather` states; the comment posted is the rendered failure for the collected errors, or the rendered success template built from the summaries; a render failure posts nothing and fails the job; the check run is created only after the comment is posted, its conclusion and text follow the errors, and the job fails when there are any |
| ServerJobs.Gather | clowarden-server/src/jobs.rs:292-316 | a head directory that does not load is the only error, with an empty summary and no service summaries; otherwise its summary against the base and the summary of exactly each service that succeeds; no error iff the directory and every service load |
| ServerJobs.PublishValidation | clowarden-server/src/jobs.rs:322-348 | nothing posted when the body fails to render; otherwise the comment, then the check run; the first failure fails the job, and with both done the job fails with the collected error exactly when errors were found |
| Hex.DigitValue | clowarden-server/src/handlers.rs:301 | a byte is a hexadecimal digit exactly when it is 0-9, a-f or A-F, and its value is below 16 |
| Hex.Decode | clowarden-server/src/handlers.rs:301 | decoding succeeds iff the text has even length and only hexadecimal digits, and yields half as many bytes |
| Hex.Digit | clowarden-server/src/handlers.rs:301 | the digit written for a value below 16 decodes back to that value |
| Hex.Encode | clowarden-server/src/handlers.rs:301 | the encoding is two digits per byte |
| Hex.DecodeCons | clowarden-server/src/handlers.rs:301 | a leading pair of digits decodes to the byte they denote, followed by the rest's decoding |
| Hex.DecodeEncode | clowarden-server/src/handlers.rs:301 | decoding an encoding gives the bytes back |
| ServerHandlers.DecodedSignature | clowarden-server/src/handlers.rs:298-301 | a header yields a tag iff it is visible ASCII, starts with `sha256=` and the rest is valid hexadecimal, and the tag is that decoding |
| ServerHandlers.VerifySignature | clowarden-server/src/handlers.rs:292-321 | accepted iff a tag decodes and matches the body under the secret or the configured fallback; "no valid signature found" without a tag, a MAC mismatch otherwise |
| ServerHandlers.FallbackWidens | clowarden-server/src/handlers.rs:303-317 | a fallback secret only widens acceptance: accepted with it iff accepted under either secret alone |
| ServerHandlers.SignedBodyAccepted | clowarden-server/src/handlers.rs:292-321 | a header carrying the hexadecimal tag of the body under the secret is accepted |
| ServerHandlers.EncodeVisible | clowarden-server/src/handlers.rs:298-300 | a `sha256=` header written from any tag is visible ASCII |
| ServerHandlers.EncodeDigits | clowarden-server/src/handlers.rs:301 | an encoded tag consists of hexadecimal digits only |
| ServerHandlers.LegacyCfgFiles | clowarden-server/src/handlers.rs:338-341 | the files watched are the sheriff permissions file and, when configured, the cncf people file, and nothing else |
| ServerHandlers.PrUpdatesConfig | clowarden-server/src/handlers.rs:325-351 | true iff the pull request is on the configuration repository and branch, legacy configuration is enabled and one of its files is watched; a file listing failure is returned |
| ServerHandlers.NoLegacyNoUpdates | clowarden-server/src/handlers.rs:337-350 | with legacy configuration disabled no pull request counts as updating it |
| ServerHandlers.EventOrg | clowarden-server/src/handlers.rs:195-200 | the organization found is a registered one with the event's name; none iff the event has no organization or none is registered under it |
| ServerHandlers.JobsOn | clowarden-server/src/handlers.rs:229-253 | at most one job: a validation on open or synchronize, a reconcile on a merged close, nothing otherwise, for the event's organization |
| ServerHandlers.OnPullRequest | clowarden-server/src/handlers.rs:192-255 | no check and no job unless the organization is registered, the action is considered and the pull request updates the configuration; then the job above, and an in-progress check exactly for a validation |
| ServerHandlers.HandleEvent | clowarden-server/src/handlers.rs:153-258 | a bad signature is a 400 with nothing done; a missing header or bad body a 400; an unsupported event is accepted and ignored; jobs are queued only for signed, actionable events |
| OldJobs.JobQueue.constructor | src/jobs.rs:63-68 | the jobs channel starts empty, nothing sent or taken |
| OldJobs.JobQueue.Send | src/jobs.rs:196-199 | a job sent goes to the end of the queue; what was taken is unchanged |
| OldJobs.JobQueue.Recv | src/jobs.rs:69-79 | the single worker takes the oldest waiting job, so what it has taken plus what waits is what was sent |
| OldJobs.TakenIsPrefix | src/jobs.rs:63-88 | the jobs the worker has taken are always the oldest of those sent |
| OldJobs.SchedulerTick | src/jobs.rs:196-199 | each tick queues one reconcile job that no pull request triggered |
| OldJobs.HandleReconcileJob | src/jobs.rs:92-100 | services are reconciled in turn without repeats; the job succeeds iff every service does, and otherwise fails with the error of the last service attempted, all earlier ones having succeeded |
| OldJobs.DirectorySummary | src/jobs.rs:107-115 | a directory that does not load pushes its error and gives an empty summary of unknown status; otherwise no error is added and the summary is the head's changes against the base (or empty and `Invalid` when the base does not load) |
| OldJobs.CollectSummaries | src/jobs.rs:117-128 | summaries kept for exactly the services that succeed; errors only appended, and none iff every service succeeds |
| OldJobs.HandleValidationJob | src/jobs.rs:104-163 | the summaries and errors are gathered as `Gather` states; the comment posted is the rendered failure for the collected errors, or the rendered success built from the summaries; a render failure posts nothing and fails the job; the check run follows a posted comment, its conclusion and text follow the errors, and the job fails with the collected errors when there are any |
| OldJobs.Gather | src/jobs.rs:107-128 | a head directory that does not load is the only error, with an empty summary and no service summaries; otherwise its summary against the base and the summary of exactly each service that succeeds; no error iff the directory and every service load |
| OldJobs.PublishValidation | src/jobs.rs:133-162 | nothing posted when the body fails to render; otherwise the comment, then the check run; the first failure fails the job, and with both done the job fails with the collected error exactly when errors were found |
| OldHandlers.VerifySignature | src/handlers.rs:188-200 | accepted iff a `sha256=` hexadecimal tag decodes and matches the body under the one secret; "no valid signature found" without a tag, a MAC mismatch otherwise |
| OldHandlers.SameAsNoFallback | src/handlers.rs:188-200 | the single-secret check agrees with the later two-secret check given no fallback |
| OldHandlers.SignedBodyAccepted | src/handlers.rs:188-200 | a header carrying the hexadecimal tag of the body under the secret is accepted |
| OldHandlers.PrUpdatesConfig | src/handlers.rs:204-231 | true iff the pull request is on the configured repository and branch, legacy configuration is enabled and one of its files is the sheriff or the cncf file; a listing failure is returned |
| OldHandlers.NoLegacyNoUpdates | src/handlers.rs:217-230 | with legacy configuration disabled no pull request counts as updating it |
| OldHandlers.SheriffFileUpdates | src/handlers.rs:217-227 | a pull request touching the sheriff permissions file of the configured repository and branch updates the configuration |
| OldHandlers.JobsOn | src/handlers.rs:140-164 | at most one job: a validation of the pull request on open or synchronize, a reconcile on a merged close, nothing otherwise |
| OldHandlers.OnPullRequest | src/handlers.rs:112-165 | no check and no job unless the action is considered and the pull request updates the configuration; then the job above, with an in-progress check exactly for a validation |
| OldHandlers.HandleEvent | src/handlers.rs:77-169 | a bad signature is a 400 with nothing done; a missing header or bad body a 400; an unsupported event accepted and ignored; jobs only for signed, actionable events |
| OldGithubLegacy.RepoId | src/services/github/legacy.rs:34-41 | an entry goes by its name in messages, or by its index when the name is empty |
| OldGithubLegacy.NoErrorsUpTo | src/services/github/legacy.rs:33-59 | no error among the first entries iff none of them adds one |
| OldGithubLegacy.AllValidIff | src/services/github/legacy.rs:33-59 | no error among the first entries iff each of them is valid |
| OldGithubLegacy.EntryErrorsEmpty | src/services/github/legacy.rs:43-58 | an entry adds no error exactly when it is named and not seen before |
| OldGithubLegacy.EntryValidIff | src/services/github/legacy.rs:43-58 | an entry is valid iff it is named and no earlier entry has its name |
| OldGithubLegacy.SeenReposIff | src/services/github/legacy.rs:32-58 | a name is in the seen list before an entry iff it is non-empty and an earlier entry has it |
| OldGithubLegacy.NoErrorsIff | src/services/github/legacy.rs:29-65 | validation passes iff every entry is named and no name repeats |
| OldGithubLegacy.EmptyNameReported | src/services/github/legacy.rs:43-46 | an unnamed entry is reported by its index |
| OldGithubLegacy.DuplicateReported | src/services/github/legacy.rs:48-56 | a repeated name is reported once, under its name |
| OldGithubLegacy.CheckEntry | src/services/github/legacy.rs:33-58 | one loop iteration appends exactly the entry's errors and records its name as seen |
| OldGithubLegacy.Validate | src/services/github/legacy.rs:29-65 | `Ok` iff every entry is valid; otherwise all the entries' errors, in order, under "invalid github service configuration" |
| OldGithubLegacy.Get | src/services/github/legacy.rs:17-26 | a fetch or parse failure is returned under its context before validating; success iff the file loads, parses and validates |
| OldPluginLegacy.NameErrors | src/plugins/github/legacy.rs:36-50 | at most one error per entry |
| OldPluginLegacy.NameErrorsEmpty | src/plugins/github/legacy.rs:36-50 | no error iff every entry is named |
| OldPluginLegacy.EmptyNameReported | src/plugins/github/legacy.rs:46-49 | every unnamed entry is reported, by its index |
| OldPluginLegacy.DuplicatesAccepted | src/plugins/github/legacy.rs:33-56 | the plugin's validator lets two entries with the same name through |
| OldPluginLegacy.Validate | src/plugins/github/legacy.rs:33-56 | `Ok` iff every entry is named; otherwise the missing names, in order, under "invalid github plugin configuration" |
| OldPluginLegacy.Get | src/plugins/github/legacy.rs:17-30 | fetch, parse and validate, each failure returned under its context |
| OldGithubState.ChangesOf | src/services/github/state.rs:50-55 | the changes are the team changes of the directories and the repository changes as the code compares them, so never a role update |
| OldGithubState.ChangesOfFixed | src/services/github/state.rs:50-55 | the same changes with the role comparison corrected |
| OldGithubState.SelfChangesEmpty | src/services/github/state.rs:50-55 | a state compared with itself has no changes, with either role comparison |
| OldGithubState.NewFromConfig | src/services/github/state.rs:27-47 | the legacy format only; the directory first, then the repositories under "invalid github service configuration"; success iff both load |
| OldGithubState.DirectoryErrorFirst | src/services/github/state.rs:32-37 | a directory that fails to load hides any problem of the repositories |
| OldPluginCfg.FromSheriff | src/plugins/github/cfg.rs:176-182 | the plugin configuration keeps the Sheriff repositories as they are |
| OldPluginCfg.Get | src/plugins/github/cfg.rs:25-36 | the legacy format only; failures under "invalid github plugin configuration"; success iff the Sheriff file loads |
| OldPluginCfg.Changes | src/plugins/github/cfg.rs:39-173 | the changes between two configurations as the code compares them, so never a role update |
| OldPluginCfg.ChangesFixed | src/plugins/github/cfg.rs:39-173 | the changes between two configurations with the role comparison corrected |
| OldMultiError.MultiError.constructor | src/multierror.rs:11-14 | a new instance holds no error |
| OldMultiError.MultiError.FromError | src/multierror.rs:37-41 | converting one error gives an instance holding exactly it |
| OldMultiError.MultiError.Errors | src/multierror.rs:16-19 | every error, in the order added |
| OldMultiError.MultiError.HasErrors | src/multierror.rs:21-24 | true iff at least one error has been added |
| OldMultiError.MultiError.Join | src/multierror.rs:26-29 | the other instance's errors go after ours, in their order |
| OldMultiError.MultiError.Push | src/multierror.rs:31-34 | the error goes at the end and the instance then has errors |
| OldMultiError.ErrorListConcat | src/multierror.rs:43-50 | the display of two lists joined is the first's display followed by the second's |
| OldMultiError.ErrorListLines | src/multierror.rs:43-50 | each error is written as its own "- err" line, in order |
| OldMultiError.ErrorListEmptyIff | src/multierror.rs:43-50 | something is displayed exactly when there are errors |
| OldTmpl.NewReconciliationCompleted | src/tmpl.rs:16-41 | the services are those with changes applied followed by those with errors, each listed once; errors are found iff a service failed or an applied change carries an error |
| OldTmpl.ErrorsFound | src/tmpl.rs:22-34 | true iff some service failed or some applied change of any service carries an error |
| OldTmpl.Tabs | src/tmpl.rs:90 | the indentation has one tab per depth level |
| OldTmpl.CausesAt | src/tmpl.rs:99-105 | the k-th cause of a plain error is written k tabs deeper than the first |
| OldTmpl.FormatInto | src/tmpl.rs:85-109 | the recursive helper appends to the buffer exactly the items of the error tree at that depth |
| OldTmpl.FormatMulti | src/tmpl.rs:87-96 | a `MultiError` writes its context item, if any, and then the items of each of its errors one tab deeper, or at the same depth without a context |
| OldTmpl.FormatPlain | src/tmpl.rs:97-106 | a plain error writes its own item, then each cause one tab deeper than the one before |
| OldTmpl.RenderConcat | src/tmpl.rs:90-103 | writing two lists of items one after the other is writing their concatenation |
| OldTmpl.FormatLinesAtLeast | src/tmpl.rs:85-109 | no item of an error formatted at a depth is written shallower than that depth |
| OldTmpl.PlainShape | src/tmpl.rs:97-106 | a plain error writes one item per error of its chain, the k-th k tabs deeper |
| OldTmpl.ContextThenDeeper | src/tmpl.rs:87-95 | a multi-error with a context writes the context first and every item of its errors deeper |
| OldTmpl.NoContextSameDepth | src/tmpl.rs:87-95 | a multi-error without a context writes exactly its errors' items at the same depth |
| OldTmpl.ContextOverMultiHidden | src/tmpl.rs:86 | a context layer over a multi-error is looked through and its message not written |
| OldGithub.RefOrBranch | src/github.rs:103 | a file read at the given ref, or at the configured branch when none is given |
| OldGithub.GetFileContent | src/github.rs:102-115 | fetched at that ref, whitespace bytes dropped, decoded; the first failing step's error is the result |
| OldSheriff.SeenBeforeNext | src/legacy.rs:150-160 | the names seen grow by an entry's name exactly when it is non-empty |
| OldSheriff.UserErrors | src/legacy.rs:162-174 | a first occurrence gets no user error iff it has a maintainer and no maintainer is also a member |
| OldSheriff.EntryErrorsEmpty | src/legacy.rs:139-174 | an entry adds no error exactly when it is valid |
| OldSheriff.ErrorsUpToNext | src/legacy.rs:135-175 | each entry's errors follow those of the entries before it, in list order |
| OldSheriff.ErrorsUpToEmpty | src/legacy.rs:135-175 | nothing is collected from the first entries iff none of them adds an error |
| OldSheriff.NoErrorsIff | src/legacy.rs:131-181 | nothing is collected iff every entry has a name no earlier entry used, at least one maintainer, and no maintainer who is also a member |
| OldSheriff.EmptyNameReported | src/legacy.rs:145-148 | an unnamed entry is reported by its index and still goes through the user checks |
| OldSheriff.DuplicateSkipsRest | src/legacy.rs:150-158 | a repeated name gets exactly the duplicate error; the rest of the entry is skipped |
| OldSheriff.NoMaintainerReported | src/legacy.rs:162-165 | a first occurrence with no maintainer gets the at-least-one-maintainer error |
| OldSheriff.BothReported | src/legacy.rs:167-174 | a first occurrence whose maintainer is also a member gets that maintainer's error |
| OldSheriff.BothErrorsHas | src/legacy.rs:168-173 | every maintainer also listed as a member is reported |
| OldLegacy.ValidateSheriff | src/legacy.rs:131-181 | `Ok` iff nothing is collected; otherwise a fresh multi-error holding every entry's errors in order |
| OldLegacy.CheckAll | src/legacy.rs:134-175 | the loop appends every entry's errors, in entry order |
| OldLegacy.CheckEntry | src/legacy.rs:139-174 | one iteration appends exactly the entry's errors and records its name as seen |
| OldLegacy.CheckUsers | src/legacy.rs:162-174 | the user checks append exactly the first occurrence's user errors |
| OldLegacy.CheckMaintainers | src/legacy.rs:167-173 | one maintainer-and-member error per maintainer also listed as a member, in maintainer order |
| OldLegacy.PeopleErrors | src/legacy.rs:241-246 | no error iff every person is named |
| OldLegacy.PeopleErrorsAreEmptyNames | src/legacy.rs:241-246 | each error stands for one person with an empty name, by index, and each such person has one |
| OldLegacy.ValidateCncf | src/legacy.rs:238-252 | `Ok` iff every person is named; otherwise a fresh multi-error with one error per unnamed person |
| OldLegacy.Get | src/legacy.rs:16-55 | a fetch or parse failure ends loading with that single error; otherwise both files' validation errors, Sheriff's first, and success iff there are none |
| OldLegacy.CncfFetchFailureDropsSheriffErrors | src/legacy.rs:34-43 | a failure fetching the people file drops the Sheriff validation errors already collected |
| OldLegacy.ParsedFilesValidated | src/legacy.rs:34-54 | when both files parse, loading succeeds iff both validate, and fails with Sheriff's errors followed by the people file's |
| OldDirectoryLegacy.ValidateSheriff | src/directory/legacy.rs:77-127 | `Ok` iff every entry is valid; otherwise one context-less multi-error of every entry's errors |
| OldDirectoryLegacy.CheckAll | src/directory/legacy.rs:80-121 | the loop appends every entry's errors, in entry order |
| OldDirectoryLegacy.CheckEntry | src/directory/legacy.rs:85-120 | one iteration appends exactly the entry's errors and records its name as seen |
| OldDirectoryLegacy.CheckUsers | src/directory/legacy.rs:108-120 | the user checks append exactly the first occurrence's user errors |
| OldDirectoryLegacy.SheriffGet | src/directory/legacy.rs:63-74 | fetch, parse and validate the Sheriff file, each failure under its own context |
| OldDirectoryLegacy.CncfGet | src/directory/legacy.rs:156-184 | fetch, parse and validate the people file, each failure under its own context |
| OldDirectoryLegacy.Get | src/directory/legacy.rs:16-44 | both loaders always run; success iff both do; otherwise the failures, Sheriff's first, under "invalid directory configuration" |
| OldDirectoryLegacy.SheriffOkIff | src/directory/legacy.rs:63-127 | the Sheriff loader succeeds iff the file is fetched and parsed and every entry is valid |
| OldDirectory.OldRank | src/directory/mod.rs:63-141 | the six categories this diff emits, in order, membership changes being exactly the team-keyed ones |
| OldDirectory.TeamChanges | src/directory/mod.rs:63-71 | a `TeamAdded` with the new record for each team only in the new directory, then a `TeamRemoved` for each only in the old one, each once |
| OldDirectory.MembershipBlock | src/directory/mod.rs:80-110 | a common team's membership changes, each once: exactly the set differences of the two records' maintainer and member lists, in block order |
| OldDirectory.MembershipChanges | src/directory/mod.rs:73-111 | every membership change of every common team, each team's changes together, and nothing for a new team |
| OldDirectory.TeamPart | src/directory/mod.rs:59-111 | the team changes followed by the membership changes of the common teams |
| OldDirectory.UsersAddedRemoved | src/directory/mod.rs:117-127 | a `UserAdded` for each full name only in the new directory, then a `UserRemoved` for each only in the old one; the added names are remembered |
| OldDirectory.AddedRemovedPart | src/directory/mod.rs:117-127 | the added users' changes followed by the removed users' changes are exactly the expected user additions and removals, in that category order |
| OldDirectory.Diff | src/directory/mod.rs:56-144 | every expected change exactly once and nothing else, categories in this generation's order, each team's membership changes together |
| OldDirectory.SelfDiffEmpty | src/directory/mod.rs:56-144 | a directory diffed against itself has no changes |
| OldDirectory.AddedBeforeRemoved | src/directory/mod.rs:66-127 | every added team comes before every removed team, and both before any membership or user change |
| OldDirectory.NewTeamNoMembership | src/directory/mod.rs:74-78 | a team only in the new directory gets one `TeamAdded` with its record and no other change |
| OldDirectory.CommonTeamBlock | src/directory/mod.rs:80-94 | within a common team, maintainers added come before maintainers removed, each a true difference of the two lists |
| OldDirectory.UserUpdatedOnlyChanged | src/directory/mod.rs:129-141 | `UserUpdated` exactly for a full name in both directories whose records differ, never for an added user |
| OldDirectory.SameChangesAsCore | src/directory/mod.rs:56-144 | this generation's diff holds the same changes as clowarden-core's; only the order differs |
| OldDirectory.TeamFrom | src/directory/mod.rs:191-196 | a Sheriff team becomes a directory team with its name and both lists, nothing else set |
| OldDirectory.FromLegacy | src/directory/mod.rs:183-240 | one team per Sheriff team and, when the people file was loaded, one user per person, in file order, with the GitHub handle and image rules; no users otherwise |
| OldDirectory.NewFromConfig | src/directory/mod.rs:43-52 | the legacy format only; success iff both legacy loaders succeed; otherwise their failures under "invalid directory configuration" |
| OldDirectory.GetChangesSummary | src/directory/mod.rs:148-170 | a head that does not load is the error; a base that does not load gives no changes and status invalid; otherwise the diff from base to head and status valid |
| OldTeamDirectory.TeamsKeyed | src/directory.rs:43-45 | the team maps are keyed by name, the last record of a name winning; users play no part |
| OldTeamDirectory.Changes | src/directory.rs:39-103 | every expected team change exactly once and nothing else, added teams, removed teams, then each common team's membership changes together in block order |
| OldTeamDirectory.SelfChangesEmpty | src/directory.rs:39-103 | a directory compared with itself has no changes |
| OldTeamDirectory.NewTeamNoMembership | src/directory.rs:50-65 | a team only in the new directory gets one `TeamAdded` with its record and no membership change |
| OldTeamDirectory.AddedBeforeRemoved | src/directory.rs:51-57 | every added team comes before every removed team |
| OldTeamDirectory.Bullets | src/directory.rs:158-166 | a user list renders to nothing iff it is empty |
| OldTeamDirectory.Section | src/directory.rs:156-167 | a titled list is written iff it has users |
| OldTeamDirectory.AddedSections | src/directory.rs:154-169 | an added team's entry starts with its header line and is only that line iff both user lists are empty |
| OldTeamDirectory.BulletsConcat | src/directory.rs:158-160 | the bullets of two lists are the first's followed by the second's |
| OldTeamDirectory.BulletsOf | src/directory.rs:158-160 | each user adds one "**user**" bullet, in order |
| OldTeamDirectory.UserFrom | src/legacy.rs:79-104 | a person becomes a user with the same name, contacts and languages, the image rule applied, and no user name |
| OldTeamDirectory.FromLegacy | src/legacy.rs:58-110 | one team per Sheriff team and one user per person, in file order |
| OldTeamDirectory.New | src/directory.rs:26-36 | the legacy format only; success iff the legacy configuration loads; its errors under "invalid configuration (legacy format)" |
| OldRepositories.VisibilityText | src/services/github/state.rs:237-244 | a visibility is shown as "private" exactly when it is private |
| OldRepositories.ParseVisibility | src/services/github/state.rs:228-235 | only "private" and "public" read as a visibility |
| OldRepositories.VisibilityTextRoundTrip | src/services/github/state.rs:228-244 | reading the text a visibility is shown as gives that visibility back |
| OldRepositories.RepoMap | src/services/github/state.rs:62-65 | the map's keys are the repositories' names, and the entry under each name is a repository of the list with that name |
| OldRepositories.PushAdded | src/services/github/state.rs:95-98 | one `Added` with the new record for each name, in order |
| OldRepositories.PushRemoved | src/services/github/state.rs:99-101 | one `Removed` for each name, in order |
| OldRepositories.AddedRemoved | src/services/github/state.rs:91-101 | an `Added` for each repository only in the new list, then a `Removed` for each only in the old list, each once; the names added are returned |
| OldRepositories.PushKind | src/services/github/state.rs:120-132 | the block grows by one change of the given kind for each name, with that name's role in the new record |
| OldRepositories.PushRoleUpdated | src/services/github/state.rs:133-143 | a role update for exactly the names, each once, whose role differs between the two maps compared |
| OldRepositories.SameMapNoRoleDiffers | src/services/github/state.rs:134-135 | reading both roles from the new record finds no name whose role differs |
| OldRepositories.OldMapRoleDiffers | src/services/github/state.rs:133-143 | reading the old role from the old record finds exactly the names in both records whose role differs |
| OldRepositories.AccessChanges | src/services/github/state.rs:111-177 | the added, removed and role-updated grantees of one kind (teams or collaborators) of a repository, each exactly the set the two records differ by |
| OldRepositories.VisibilityChange | src/services/github/state.rs:179-188 | a visibility update, to the new visibility or private when unset, exactly when the two records' visibilities differ |
| OldRepositories.RepoBlock | src/services/github/state.rs:104-189 | a repository's changes in kind order, and exactly the changes between its two records |
| OldRepositories.CommonChanges | src/services/github/state.rs:103-189 | every change of every repository in both lists, each repository's changes together, nothing for an added repository |
| OldRepositories.Diff | src/services/github/state.rs:58-192 | the additions, then the removals, then the changes of the common repositories, each exactly once |
| OldRepositories.RepositoriesChanges | src/services/github/state.rs:58-192 | the repository changes as the code computes them, which never include a role update |
| OldRepositories.RepositoriesChangesFixed | src/services/github/state.rs:58-192 | the repository changes with role updates read from the old record |
| OldRepositories.SelfChangesEmpty | src/services/github/state.rs:58-192 | a list of repositories compared with itself has no changes |
| OldRepositories.ChangesUnique | src/services/github/state.rs:58-192 | any two results of the diff hold the same changes, differing only in hash-map order |
| OldRepositories.AddedBeforeRemoved | src/services/github/state.rs:91-189 | additions come before removals, and removals before the changes of common repositories |
| OldRepositories.AddedOnce | src/services/github/state.rs:95-109 | a new repository is reported once as added, with nothing else about it |
| OldRepositories.RemovedOnce | src/services/github/state.rs:99-101 | a repository gone from the list is reported once as removed, with nothing else about it |
| OldRepositories.OneChangePerGrantee | src/services/github/state.rs:111-177 | a team or collaborator of a repository has at most one change |
| OldRepositories.AsWrittenMissesOnlyRoleUpdates | src/services/github/state.rs:133-143 | the diff as written reports exactly the corrected diff's changes other than role updates |
| OldRepositories.RepoChangeAsWritten | src/services/github/state.rs:133-177 | a change of one repository is reported as written exactly when the corrected diff reports it and it is not a role update |
| OldRepositories.TeamRoleChangeReported | src/services/github/state.rs:133-143 | the corrected diff reports a team whose role changed, with its new role |
| OldRepositories.CollaboratorRoleChangeReported | src/services/github/state.rs:167-177 | the corrected diff reports a collaborator whose role changed, with its new role |
| OldRepositories.RoleChangeMissed | src/services/github/state.rs:134-135 | a team going from write to read is not reported as written; the corrected diff reports only that role update |
| OldRepositories.VisibilityUnsetVersusPrivate | src/services/github/state.rs:180-188 | going between an unset and a private visibility is reported as an update to private |
| OldRepositories.LineIsListEntry | src/services/github/state.rs:295-346 | every change but an addition is shown as one markdown list entry |
| OldRepositories.AddedHeaderUnsetIsPrivate | src/services/github/state.rs:271-277 | an added repository with no visibility is shown as private |

## Left out

- The GitHub API wrappers (`Svc`, octorust calls, the 60-second caches, `sleep`, and the order of calls inside a single service operation) are an oracle with one answer per call.
- `State::new_from_service` is not modelled as a fetch. The actual state it builds is an input, and the archived and temporary-fork filter is not modelled.
- Concurrency: tokio channels, spawned tasks, `select!`, the broadcast stop signal, interval ticks, the 30-second delay between scheduled runs and the reconcile frequency. Per-organization work is modelled as FIFO queues taken one job at a time.
- The HTTP server (routing, static files, basic auth, search and organization listing endpoints), the database (`register_reconciliation` and search), logging and the CLI.
- HMAC-SHA256 (RFC 2104), base64 (section 4 of RFC 4648), UTF-8 decoding, YAML and JSON parsing and the askama templates are parameters. Only the whitespace stripping before base64 decoding is modelled byte by byte.
- Regular expressions are written as character predicates: the team and slug pattern `^[a-z0-9\-]+$` and the GitHub profile URL pattern.
- Timestamps are opaque: the reconcile loop takes a clock function indexed by change position, and a pull request's merge time converts through a parameter.
- The `details`, `template_format` and `keywords` string building of the changes, and the `Added` entry's team and collaborator lines in the first generation's repository change display. Those lines follow map order; only the entry's header line is modelled (`OldRepositories.AddedHeader`).
- `_get_user` in src/directory/mod.rs (172-180) is the same search as clowarden-core's `get_user` over the same directory type, so it is modelled once, as `CoreDirectory.GetUser`: users without a user name never match.
- The stubbed first-generation service and plugin handlers (`todo!()` bodies in src/services/github/mod.rs and src/plugins/github/mod.rs) have no logic to model.
- src/jobs.rs, src/directory/legacy.rs, src/services/github/legacy.rs and src/plugins/github/legacy.rs call `MultiError::new` with a context and `contains_errors`, which src/multierror.rs does not define. Those modules use `CoreMultiError.MultiError`, which offers both, and src/tmpl.rs's `format_error` is modelled over the shared error tree.
- clowarden-core's `MultiError` has no `contains_errors`; `CoreMultiError.MultiError.ContainsErrors` models it as "not empty", as clowarden-server's `MultiError` defines it.
- The first generation's `ChangesSummary` is declared as a list of texts, while src/jobs.rs builds a tuple. Service summaries are modelled as lists of texts and the directory summary as clowarden-core's `ChangesSummary` of directory changes.
- The first generation's webhook event classification and check-run request (src/github.rs) are the same as clowarden-server's and are modelled once, in `ServerGithub`.
- The first generation's roles reuse clowarden-core's role type: the same five roles, default read, with the same text.
- The error message "team[{id}: name must be provided" keeps the source's missing bracket.
- A first-generation configuration key read with `get_string(key).unwrap()` panics when the key is missing; the model excludes that panic by preconditions instead. The keys are `config.legacy.sheriff.permissionsPath` and `config.legacy.cncf.peoplePath` (src/legacy.rs:25 and 39, src/directory/legacy.rs:64 and 157, src/handlers.rs:220-221), `config.repository` and `config.branch` (src/handlers.rs:206 and 212), and `server.config.legacy.sheriff.permissionsPath` (src/services/github/legacy.rs:18). `validate_config` (src/main.rs:102-120) refuses at startup a configuration lacking any of the first four, the legacy paths only when the legacy format is enabled; it does not check the last key.

## Findings

| source | as written | input that shows it | evidently intended | confidence | as-written member | corrected member |
|---|---|---|---|---|---|---|
| src/services/github/state.rs:134-135 | the old role of a team (also of a collaborator at lines 168-169, and at lines 115-116 and 149-150 of src/plugins/github/cfg.rs) is read from the new repository list, so old and new roles are always equal and no role update is ever reported | repository "r" whose team "t" has role write in the old list and read in the new list: as written no change is reported | the old role is read from the old repository list, so the change reports team "t" of "r" updated to read | not executed | OldRepositories.RepositoriesChanges, OldRepositories.RoleChangeMissed, OldGithubState.ChangesOf, OldPluginCfg.Changes | OldRepositories.RepositoriesChangesFixed, OldRepositories.TeamRoleChangeReported, OldGithubState.ChangesOfFixed, OldPluginCfg.ChangesFixed |
