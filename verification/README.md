# Gravitee management API: user and application lifecycle

This project models the core of the Gravitee management API's user and
application services, `UserServiceImpl` and `ApplicationServiceImpl`, and
proves properties of that model in Dafny.

The system state is one object, `Management.ManagementService`. It holds:

- the user repository, a map from username to `User`;
- the application repository, a map from application id to `Application`;
- the membership repository, a map from (user, reference id, reference type)
  to the roles held per scope;
- the append-only audit trail.

Every public operation of the two services is a method or function on that object. It
either returns the entity view or one of the errors the Java code throws,
as a `Result`/`Outcome` value. Its contract states the new state of each
store it may change. Two invariants are carried through every operation:

- `Valid()`: every record is stored under its own key.
- `Owned()`: every application has exactly one primary owner, and no
  application membership points at a missing application. Each operation
  preserves it as `old(Owned()) ==> Owned()`. The model does not assume it,
  so `findById`'s "no primary owner" error stays reachable.

The pure parts live in their own modules:

- `Text`: Java's `String.trim()`, commons-lang `isNotBlank`, the `"/"`
  reduce used in error messages and its inverse, and the portal URL
  trailing-slash rule.
- `Users`: the user records that `connect`, `update`, the two `create`s and
  `register` write, plus the JWT claims and the confirmation e-mail.
- `Memberships`: primary-owner lookups, the batch guard, the default-role
  assignment, and role loading.
- `Applications`: request trimming, the default-group merge, the records
  that create, update and archive write, the ACTIVE-only finders, the
  archive cascade, and the primary-owner batch conversion.

Collaborators are passed in as values:

- the clock (`now`);
- the generated application id;
- the security context's authenticated user;
- GroupService, as a `GroupDirectory` of known groups and the groups that
  are added on application creation;
- RoleService, as the default-role list;
- SubscriptionService and ApiKeyService, as the subscriptions with their
  keys and outcomes.

BCrypt encoding, JWT verification and JWT signing are functions given to the
constructor.

Three behaviours of the code that a reader may not expect; the model follows the code:

- `update` of an application audits `APPLICATION_CREATED`
  (`ApplicationServiceImpl.java:268`).
- `findById` takes the first primary-owner membership it finds, rather than
  requiring exactly one.
- `update` finds the application whatever its status and stores it ACTIVE,
  so updating an ARCHIVED application reactivates it
  (`ApplicationServiceImpl.java:252`, `:259`; `Applications.UpdateReactivatesArchived`).

One place departs from the code: the batch conversion's missing-owner
guard. The Java compares two counts, which lets an unowned application
through when another application of the batch has two owners. The model
checks each application instead, and keeps the count guard as written
beside it (see Findings).

## Model

| member | source | states |
|---|---|---|
| `Management.ManagementService.Connect` | gravitee-management-api-service/src/main/java/io/gravitee/management/service/impl/UserServiceImpl.java:90-125 | Unknown user gives UserNotFound and changes nothing. On a first connection with the flag set, a taken default-application id aborts with ApplicationAlreadyExists and changes nothing; otherwise "Default application" is stored, owned by the user, and audited before USER_CONNECTED. Every successful connect sets lastConnectionAt = updatedAt = now, audits USER_CONNECTED with before/after records, returns the view with roles, and keeps both store invariants. |
| `Management.ManagementService.FirstConnection` | gravitee-management-api-service/src/main/java/io/gravitee/management/service/impl/UserServiceImpl.java:101-120 | The first-connection path: the default application is created with the user as sole primary owner; then the connection is stored, unless the id was taken, in which case nothing changes. |
| `Management.ManagementService.StoreConnection` | gravitee-management-api-service/src/main/java/io/gravitee/management/service/impl/UserServiceImpl.java:113-119 | Replaces exactly the user's record, appends exactly the USER_CONNECTED entry, and leaves applications and memberships as they were. |
| `Management.ManagementService.ConnectTwice` | gravitee-management-api-service/src/main/java/io/gravitee/management/service/impl/UserServiceImpl.java:101 | After a successful connect, a second connect of the same user also succeeds. Across both calls, the only application that can appear is the first call's default application: a repeated connect never creates another. |
| `Management.ManagementService.ToView` | gravitee-management-api-service/src/main/java/io/gravitee/management/service/impl/UserServiceImpl.java:439-481 | The view carries the record unchanged. Roles are present iff loadRoles. They are at most two, one per default scope (PORTAL, MANAGEMENT), each exactly the role getRole finds for that scope under the DEFAULT reference; conversely every role getRole finds for PORTAL or MANAGEMENT is in the view. |
| `Management.ManagementService.FindUserByName` | gravitee-management-api-service/src/main/java/io/gravitee/management/service/impl/UserServiceImpl.java:128-143 | Succeeds iff the username is stored, with exactly the view convert gives that record (ToView: the record, and with loadRoles the PORTAL and MANAGEMENT roles getRole finds); otherwise UserNotFound(username). |
| `Management.ManagementService.FindUsersByNames` | gravitee-management-api-service/src/main/java/io/gravitee/management/service/impl/UserServiceImpl.java:146-167 | Succeeds iff at least one requested name is stored. The result holds the view (convert) of every stored requested user and nothing else: each element is exactly ToView of a stored requested user. Failure is UserNotFound of the names joined with "/" ("?" for none). |
| `Management.ManagementService.FindAllUsers` | gravitee-management-api-service/src/main/java/io/gravitee/management/service/impl/UserServiceImpl.java:387-398 | A view of every stored user and nothing else: each element is exactly ToView of a stored record, roles present iff loadRoles. |
| `Management.ManagementService.AddDefaultMembership` | gravitee-management-api-service/src/main/java/io/gravitee/management/service/impl/UserServiceImpl.java:265-294 | An absent or empty default-role list gives DefaultRoleNotFound([MANAGEMENT, PORTAL]) with memberships unchanged. Otherwise every default role is applied in order, and both invariants are kept. |
| `Management.ManagementService.CreateExternalUser` | gravitee-management-api-service/src/main/java/io/gravitee/management/service/impl/UserServiceImpl.java:233-263 | A taken username gives UsernameAlreadyExists and changes nothing. Otherwise the password-less record is stored with createdAt = updatedAt = now and audited USER_CREATED. When asked, default roles are added: the user stays stored even if the roles are missing, which then gives DefaultRoleNotFound. |
| `Management.ManagementService.Register` | gravitee-management-api-service/src/main/java/io/gravitee/management/service/impl/UserServiceImpl.java:300-352 | Registration disabled gives an error and no change; a taken e-mail gives UsernameAlreadyExists. Otherwise the user is stored under its e-mail with source "gravitee", then each missing piece gives its own error with the user already stored (default role, then JWT secret, then portal URL). On success the result is the user view and the e-mail with token = sign(secret, claims) and URL = portal (one trailing "/" dropped) + confirmation path + token. |
| `Management.ManagementService.CompleteRegistration` | gravitee-management-api-service/src/main/java/io/gravitee/management/service/impl/UserServiceImpl.java:181-225 | Disabled registration is not wrapped; every later failure is wrapped as technical: missing secret, rejected token, a stored user with a non-blank password, or a user not pre-created. Each failure changes nothing. Success replaces the user with the claims' identity, stores encode(password) or none, and audits USER_CREATED. |
| `Management.ManagementService.UpdateUser` | gravitee-management-api-service/src/main/java/io/gravitee/management/service/impl/UserServiceImpl.java:355-384 | Unknown user gives UserNotFound and changes nothing. Otherwise only picture and updatedAt change, and USER_UPDATED is audited with before/after. |
| `Management.ManagementService.FindApplicationById` | gravitee-management-api-service/src/main/java/io/gravitee/management/service/impl/ApplicationServiceImpl.java:78-104 | Unknown id gives ApplicationNotFound. No primary owner gives the wrapped technical error with the id in its message. Otherwise the result is the stored application with some primary owner's details, or UserNotFound of an owner who is not stored. With exactly one owner, the result is exactly that owner's view or UserNotFound(owner). |
| `Management.ManagementService.CreateApplication` | gravitee-management-api-service/src/main/java/io/gravitee/management/service/impl/ApplicationServiceImpl.java:184-242 | Unknown groups give GroupsNotFound of the missing ones; a taken id gives ApplicationAlreadyExists; both change nothing. Otherwise it stores the trimmed ACTIVE record with the default groups merged, audits APPLICATION_CREATED by the authenticated user (or the given username), and adds the user's PRIMARY_OWNER membership, which makes the user the only owner whenever the ownership invariant held. It returns the view with that owner, or UserNotFound after the stores were written. |
| `Management.ManagementService.CreateThenFind` | gravitee-management-api-service/src/main/java/io/gravitee/management/service/impl/ApplicationServiceImpl.java:229-237 | When create succeeds, findById on the new id returns the same view, whose primary owner is the creating user. |
| `Management.ManagementService.UpdateApplication` | gravitee-management-api-service/src/main/java/io/gravitee/management/service/impl/ApplicationServiceImpl.java:245-278 | Unknown groups give GroupsNotFound and unknown id gives ApplicationNotFound, both with no change. Otherwise it stores the trimmed record, keeping id and createdAt, forcing ACTIVE and updatedAt = now, and audits it under APPLICATION_CREATED with before/after. The result fails iff the application has no primary owner or no owner is stored: with no owner the error is PrimaryOwnersMissing(1, {id}); otherwise it is UserNotFound of the owner names joined with "/", which for a single missing owner is that owner's name. |
| `Management.ManagementService.ConvertOne` | gravitee-management-api-service/src/main/java/io/gravitee/management/service/impl/ApplicationServiceImpl.java:272 | Converting the single updated application fails iff it has no primary owner or its owner is not stored; with no owner the error is PrimaryOwnersMissing(1, {id}), otherwise UserNotFound of the owner names joined with "/" (the owner's own name when it has exactly one). On success the view carries the stored record and a consistent owner. |
| `Management.ManagementService.ArchiveApplication` | gravitee-management-api-service/src/main/java/io/gravitee/management/service/impl/ApplicationServiceImpl.java:281-328 | Unknown id gives ApplicationNotFound, no cascade and no change. Otherwise the cascade report is the one the subscriptions determine, the record becomes ARCHIVED with updatedAt = now and nothing else changed, and APPLICATION_ARCHIVED is audited with before/after. |
| `Management.ManagementService.StoreReplacement` | gravitee-management-api-service/src/main/java/io/gravitee/management/service/impl/ApplicationServiceImpl.java:311-322 | Replaces exactly one application record and appends exactly its audit entry; ownership consistency is kept. |
| `Management.ManagementService.ConvertApplications` | gravitee-management-api-service/src/main/java/io/gravitee/management/service/impl/ApplicationServiceImpl.java:330-362 | The batch conversion. Empty input gives the empty set. It fails with PrimaryOwnersMissing iff some application lacks a primary owner (the corrected guard), and with UserNotFound iff no owner is a stored user. Otherwise it gives one consistent view per application. |
| `Management.ManagementService.ConvertOwnedBatch` | gravitee-management-api-service/src/main/java/io/gravitee/management/service/impl/ApplicationServiceImpl.java:352-361 | For a non-empty batch in which every application is owned, the result is the one the batch conversion specifies. |
| `Management.ManagementService.LookUpOwners` | gravitee-management-api-service/src/main/java/io/gravitee/management/service/impl/ApplicationServiceImpl.java:355-357 | The owner lookup fails iff no primary owner of the batch is a stored user. The error is UserNotFound of the owner names joined with "/". |
| `Management.ManagementService.FindApplicationsByUser` | gravitee-management-api-service/src/main/java/io/gravitee/management/service/impl/ApplicationServiceImpl.java:107-134 | The converted set of exactly the ACTIVE applications the user is a direct member of or reaches through a group membership with an APPLICATION-scope role. |
| `Management.ManagementService.FindApplicationsByName` | gravitee-management-api-service/src/main/java/io/gravitee/management/service/impl/ApplicationServiceImpl.java:137-152 | A missing or blank name gives the empty set; otherwise the converted set of the ACTIVE applications named exactly the trimmed name. |
| `Management.ManagementService.FindApplicationsByGroup` | gravitee-management-api-service/src/main/java/io/gravitee/management/service/impl/ApplicationServiceImpl.java:155-163 | The converted set of the ACTIVE applications in the group. |
| `Management.ManagementService.FindAllApplications` | gravitee-management-api-service/src/main/java/io/gravitee/management/service/impl/ApplicationServiceImpl.java:166-181 | The converted set of all ACTIVE applications. |
| `Text.Trim` | gravitee-management-api-service/src/main/java/io/gravitee/management/service/impl/ApplicationServiceImpl.java:391-392 | `String.trim()`: the result is no longer than the input and neither starts nor ends with a character at or below U+0020. |
| `Text.TrimKeepsCore` | gravitee-management-api-service/src/main/java/io/gravitee/management/service/impl/ApplicationServiceImpl.java:391-392 | trim returns a contiguous slice of its input, and everything it drops before and after that slice is trimmable. |
| `Text.TrimFixesTrimmed` | gravitee-management-api-service/src/main/java/io/gravitee/management/service/impl/ApplicationServiceImpl.java:391-392 | A string that neither starts nor ends with a trimmable character is left as it is. |
| `Text.TrimIdempotent` | gravitee-management-api-service/src/main/java/io/gravitee/management/service/impl/ApplicationServiceImpl.java:140-144 | trim(trim(s)) == trim(s), so the name findByName tests is the name it queries. |
| `Text.TrimEmptyIffAllTrimmable` | gravitee-management-api-service/src/main/java/io/gravitee/management/service/impl/ApplicationServiceImpl.java:140 | `name.trim().isEmpty()` holds iff every character of the name is trimmable. |
| `Text.HasNonWhitespace` | gravitee-management-api-service/src/main/java/io/gravitee/management/service/impl/UserServiceImpl.java:200 | True iff some character is not whitespace. |
| `Text.IsNotBlank` | gravitee-management-api-service/src/main/java/io/gravitee/management/service/impl/UserServiceImpl.java:200 | `StringUtils.isNotBlank`: false for null; otherwise true iff some character is not whitespace (hence never for the empty string). |
| `Text.IndexOf` | gravitee-management-api-service/src/main/java/io/gravitee/management/service/impl/UserServiceImpl.java:156 | The position of the first occurrence of the separator. |
| `Text.SplitJoin` | gravitee-management-api-service/src/main/java/io/gravitee/management/service/impl/UserServiceImpl.java:156 | Splitting the joined names on the separator gives back the list, when no name contains the separator. |
| `Text.StripTrailingSlash` | gravitee-management-api-service/src/main/java/io/gravitee/management/service/impl/UserServiceImpl.java:333-335 | Removes one trailing "/" when there is one, and nothing else. |
| `Users.ConnectedRecord` | gravitee-management-api-service/src/main/java/io/gravitee/management/service/impl/UserServiceImpl.java:109-111 | Only lastConnectionAt and updatedAt change, both to now, so the user is no longer on a first connection. |
| `Users.WithPicture` | gravitee-management-api-service/src/main/java/io/gravitee/management/service/impl/UserServiceImpl.java:366-370 | Only picture (to the requested one) and updatedAt (to now) change. |
| `Users.ExternalUserRecord` | gravitee-management-api-service/src/main/java/io/gravitee/management/service/impl/UserServiceImpl.java:241-245 | The record copies identity, source and sourceId from the request, has no password, picture or last connection, and createdAt = updatedAt = now. |
| `Users.RegistrationIdentity` | gravitee-management-api-service/src/main/java/io/gravitee/management/service/impl/UserServiceImpl.java:303-305 | username := email, source := "gravitee", sourceId := email; nothing else changes. |
| `Users.RegistrationIdentityIdempotent` | gravitee-management-api-service/src/main/java/io/gravitee/management/service/impl/UserServiceImpl.java:303-305 | Applying the registration identity twice is the same as once. |
| `Users.RegisteredUserRecord` | gravitee-management-api-service/src/main/java/io/gravitee/management/service/impl/UserServiceImpl.java:191-212 | Identity comes from the token claims. The password is encode(password) when given, else none. updatedAt = now and no other date is set. |
| `Users.NamesForMessage` | gravitee-management-api-service/src/main/java/io/gravitee/management/service/impl/UserServiceImpl.java:156-161 | "?" for no names; a single name as itself. |
| `Users.NamesRecoverableFromMessage` | gravitee-management-api-service/src/main/java/io/gravitee/management/service/impl/UserServiceImpl.java:156-158 | The UserNotFound message splits back into the requested names when none contains "/". |
| `Users.ConfirmationUrl` | gravitee-management-api-service/src/main/java/io/gravitee/management/service/impl/UserServiceImpl.java:331-337 | Its length is the stripped portal URL's plus the path's plus the token's. |
| `Users.ConfirmationUrlParts` | gravitee-management-api-service/src/main/java/io/gravitee/management/service/impl/UserServiceImpl.java:333-337 | The URL is exactly the portal URL without its trailing "/", then "/#!/registration/confirm/", then the token. |
| `Users.TrailingSlashIgnored` | gravitee-management-api-service/src/main/java/io/gravitee/management/service/impl/UserServiceImpl.java:333-335 | A portal URL with or without one trailing "/" yields the same link. |
| `Users.OnlyOneSlashRemoved` | gravitee-management-api-service/src/main/java/io/gravitee/management/service/impl/UserServiceImpl.java:333-335 | With two trailing slashes, one survives in the link. |
| `Users.SigningRequestFor` | gravitee-management-api-service/src/main/java/io/gravitee/management/service/impl/UserServiceImpl.java:309-322 | Claims carry the configured issuer and the user's username, e-mail, first and last name. The expiry is the configured one, and issuedAt and jwtId are set. |
| `Users.RegistrationEmailFor` | gravitee-management-api-service/src/main/java/io/gravitee/management/service/impl/UserServiceImpl.java:339-349 | The e-mail goes to the user's address with subject "User registration - " + username, the USER_REGISTRATION template, and the username, token, link and user view as parameters. |
| `Users.TokenClaimsRebuildIdentity` | gravitee-management-api-service/src/main/java/io/gravitee/management/service/impl/UserServiceImpl.java:309-315 | The user that completing a registration builds from the claims register signs has username and e-mail equal to the registered e-mail, and the registered first and last name. |
| `Memberships.PrimaryOwnerRoles` | gravitee-management-api-service/src/main/java/io/gravitee/management/service/impl/ApplicationServiceImpl.java:231-232 | The roles of the creation membership: PRIMARY_OWNER at APPLICATION scope only. |
| `Memberships.OwnersOfMeansKey` | gravitee-management-api-service/src/main/java/io/gravitee/management/service/impl/ApplicationServiceImpl.java:85-91 | u owns application id iff its APPLICATION membership on id holds PRIMARY_OWNER. |
| `Memberships.KeysNameOwners` | gravitee-management-api-service/src/main/java/io/gravitee/management/service/impl/ApplicationServiceImpl.java:335-340 | Every membership the batch query returns names an application of the batch and one of its owners. |
| `Memberships.OwnedIdsExact` | gravitee-management-api-service/src/main/java/io/gravitee/management/service/impl/ApplicationServiceImpl.java:335-340 | The owned applications of a batch are exactly those with at least one primary owner. |
| `Memberships.UnownedGuardExact` | gravitee-management-api-service/src/main/java/io/gravitee/management/service/impl/ApplicationServiceImpl.java:342-350 | The corrected guard fires iff some application of the batch has no primary owner. |
| `Memberships.CountGuardMissesUnownedApplication` | gravitee-management-api-service/src/main/java/io/gravitee/management/service/impl/ApplicationServiceImpl.java:342-343 | With "a" owned by alice and bob and "b" unowned, the count guard lets the batch through although "b" has no owner. |
| `Memberships.KeysCountOwnedIds` | gravitee-management-api-service/src/main/java/io/gravitee/management/service/impl/ApplicationServiceImpl.java:335-342 | When no application has two owners, the number of owner memberships equals the number of owned applications. |
| `Memberships.GuardsAgreeUnderSingleOwnership` | gravitee-management-api-service/src/main/java/io/gravitee/management/service/impl/ApplicationServiceImpl.java:342-350 | When no application has two owners, the count guard fires iff some application is unowned. |
| `Memberships.CountGuardOnlyOnUnowned` | gravitee-management-api-service/src/main/java/io/gravitee/management/service/impl/ApplicationServiceImpl.java:342-350 | Whenever the Java's count guard fires, some application of the batch really has no primary owner: the count guard never rejects a fully owned batch. |
| `Memberships.MissingCountAgrees` | gravitee-management-api-service/src/main/java/io/gravitee/management/service/impl/ApplicationServiceImpl.java:342 | When no application has two owners, the number of unowned applications reported equals the Java's poMissing, applications.size() - memberships.size(). |
| `Memberships.OwnedIdsAtMostKeys` | gravitee-management-api-service/src/main/java/io/gravitee/management/service/impl/ApplicationServiceImpl.java:335-342 | A set of memberships refers to at most as many applications as it has members; applied to the primary-owner memberships of a batch, this bounds the owned applications by the memberships returned. |
| `Memberships.ConsistentStoresHaveOneOwner` | gravitee-management-api-service/src/main/java/io/gravitee/management/service/impl/ApplicationServiceImpl.java:342-350 | Under the ownership invariant neither guard ever fires. |
| `Memberships.NewApplicationKeepsConsistency` | gravitee-management-api-service/src/main/java/io/gravitee/management/service/impl/ApplicationServiceImpl.java:229-235 | Adding a new application with its creator's PRIMARY_OWNER membership keeps the ownership invariant and makes the creator the only owner. |
| `Memberships.ReplacedApplicationKeepsConsistency` | gravitee-management-api-service/src/main/java/io/gravitee/management/service/impl/ApplicationServiceImpl.java:263 | Replacing a stored application's record (update, archive) keeps the ownership invariant. |
| `Memberships.OtherMembershipsKeepConsistency` | gravitee-management-api-service/src/main/java/io/gravitee/management/service/impl/UserServiceImpl.java:272-293 | Changing only non-APPLICATION memberships keeps the ownership invariant. |
| `Memberships.SameApplicationMembershipsKeepOwners` | gravitee-management-api-service/src/main/java/io/gravitee/management/service/impl/UserServiceImpl.java:272-293 | Stores that agree on APPLICATION memberships have the same owners for every application. |
| `Memberships.AddOrUpdateMember` | gravitee-management-api-service/src/main/java/io/gravitee/management/service/impl/UserServiceImpl.java:275-288 | addOrUpdateMember: the key exists afterwards with the role set for the scope; other keys are untouched. |
| `Memberships.DefaultRolesTouchOnlyDefaultMemberships` | gravitee-management-api-service/src/main/java/io/gravitee/management/service/impl/UserServiceImpl.java:272-293 | Only the user's MANAGEMENT and PORTAL DEFAULT memberships can be created or changed. |
| `Memberships.DefaultRoleGranted` | gravitee-management-api-service/src/main/java/io/gravitee/management/service/impl/UserServiceImpl.java:272-293 | For each default scope, the user ends with the last listed role of that scope, or keeps what they had when none is listed. |
| `Memberships.DefaultScopeRoles` | gravitee-management-api-service/src/main/java/io/gravitee/management/service/impl/UserServiceImpl.java:290-291 | Keeps exactly the roles of the MANAGEMENT and PORTAL scopes, each as many times as the input holds it, and drops every other. |
| `Memberships.DefaultScopeRolesKeepOrder` | gravitee-management-api-service/src/main/java/io/gravitee/management/service/impl/UserServiceImpl.java:290-291 | Filtering a concatenation is the concatenation of the filtered parts, so the kept roles stay in their original order. |
| `Memberships.OtherScopesIgnored` | gravitee-management-api-service/src/main/java/io/gravitee/management/service/impl/UserServiceImpl.java:290-291 | Default roles of any other scope have no effect. |
| `Memberships.DefaultRolesKeepApplicationMemberships` | gravitee-management-api-service/src/main/java/io/gravitee/management/service/impl/UserServiceImpl.java:265-294 | Adding default roles leaves every APPLICATION membership as it was. |
| `Memberships.RoleOf` | gravitee-management-api-service/src/main/java/io/gravitee/management/service/impl/UserServiceImpl.java:458-472 | getRole finds a role iff the user's DEFAULT membership of that type names one for the scope and the role exists; the role has that scope. |
| `Memberships.LoadedRoles` | gravitee-management-api-service/src/main/java/io/gravitee/management/service/impl/UserServiceImpl.java:457-477 | The loaded roles are exactly the PORTAL and MANAGEMENT roles found, at most one per scope and at most two in all. |
| `Applications.TrimmedRequest` | gravitee-management-api-service/src/main/java/io/gravitee/management/service/impl/ApplicationServiceImpl.java:388-400 | Groups pass through unchanged; a type is present iff it was given. |
| `Applications.TrimmedRequestIdempotent` | gravitee-management-api-service/src/main/java/io/gravitee/management/service/impl/ApplicationServiceImpl.java:388-400 | Converting a converted request changes nothing. |
| `Applications.MergeDefaultGroups` | gravitee-management-api-service/src/main/java/io/gravitee/management/service/impl/ApplicationServiceImpl.java:205-213 | The groups are the requested ones plus the defaults. They stay absent only when none were requested and there are no defaults, and are untouched when there are no defaults. |
| `Applications.NewApplicationRecord` | gravitee-management-api-service/src/main/java/io/gravitee/management/service/impl/ApplicationServiceImpl.java:199-217 | The generated id, ACTIVE, createdAt = updatedAt = now, trimmed name/description/type, and the merged groups. |
| `Applications.UpdatedApplicationRecord` | gravitee-management-api-service/src/main/java/io/gravitee/management/service/impl/ApplicationServiceImpl.java:257-261 | Keeps id and createdAt, forces ACTIVE, updatedAt = now, trimmed fields, and the requested groups. |
| `Applications.ArchivedRecord` | gravitee-management-api-service/src/main/java/io/gravitee/management/service/impl/ApplicationServiceImpl.java:312-313 | Only status (to ARCHIVED) and updatedAt (to now) change. |
| `Applications.UpdateReactivatesArchived` | gravitee-management-api-service/src/main/java/io/gravitee/management/service/impl/ApplicationServiceImpl.java:252-261 | Updating an archived application makes it ACTIVE again, back in the ACTIVE finders, with its createdAt kept. |
| `Applications.PrimaryOwnerOf` | gravitee-management-api-service/src/main/java/io/gravitee/management/service/impl/ApplicationServiceImpl.java:376-383 | The owner entity copies username, e-mail, first and last name. |
| `Applications.SingleOwnerDeterminesView` | gravitee-management-api-service/src/main/java/io/gravitee/management/service/impl/ApplicationServiceImpl.java:359-361 | With a single owner, a consistent view is the stored record with that owner's details, or no owner when the owner is not stored. |
| `Applications.AccessibleApplications` | gravitee-management-api-service/src/main/java/io/gravitee/management/service/impl/ApplicationServiceImpl.java:112-123 | Only ACTIVE applications are returned to a user. |
| `Applications.AccessibleApplicationsExact` | gravitee-management-api-service/src/main/java/io/gravitee/management/service/impl/ApplicationServiceImpl.java:112-123 | An application is accessible iff it is ACTIVE and the user is a direct member or is in one of its groups with an APPLICATION-scope role. |
| `Applications.ApplicationGroupIdsExact` | gravitee-management-api-service/src/main/java/io/gravitee/management/service/impl/ApplicationServiceImpl.java:120-122 | A group counts iff the user's GROUP membership on it has an APPLICATION-scope role. |
| `Applications.ArchivedApplicationIsHidden` | gravitee-management-api-service/src/main/java/io/gravitee/management/service/impl/ApplicationServiceImpl.java:311-314 | After archiving, the application is in none of findAll, findByGroup, findByName and findByUser. |
| `Applications.CloseSubscriptions` | gravitee-management-api-service/src/main/java/io/gravitee/management/service/impl/ApplicationServiceImpl.java:291-309 | The cascade loop attempts every key of every subscription and every close, and reports the same as the cascade specification. |
| `Applications.CloseAccounting` | gravitee-management-api-service/src/main/java/io/gravitee/management/service/impl/ApplicationServiceImpl.java:303-308 | Every subscription is either closed or reported not closable, never both, never neither (as multisets). |
| `Applications.RefusedCloseBoundsClosed` | gravitee-management-api-service/src/main/java/io/gravitee/management/service/impl/ApplicationServiceImpl.java:305-308 | A refused close leaves at least one subscription not closed. |
| `Applications.NotClosableListed` | gravitee-management-api-service/src/main/java/io/gravitee/management/service/impl/ApplicationServiceImpl.java:305-308 | A refused close does not abort: the subscription is reported and the cascade continues. |
| `Applications.DeletedAmongAttempted` | gravitee-management-api-service/src/main/java/io/gravitee/management/service/impl/ApplicationServiceImpl.java:295-300 | Deleted keys are among the attempted keys. |
| `Applications.EveryKeyAttempted` | gravitee-management-api-service/src/main/java/io/gravitee/management/service/impl/ApplicationServiceImpl.java:293-297 | Deletion is attempted for every key of every subscription, failed deletions included. |
| `Applications.AssignOwners` | gravitee-management-api-service/src/main/java/io/gravitee/management/service/impl/ApplicationServiceImpl.java:352-353 | The application-to-user map is keyed by exactly the batch's owned applications, each mapped to one of its owners. |
| `Applications.ListOwners` | gravitee-management-api-service/src/main/java/io/gravitee/management/service/impl/ApplicationServiceImpl.java:356 | The list holds the user of each owner membership, one entry per membership and nothing else: each user occurs as many times as it holds owner memberships. |
| `Applications.OwnerOfTwoListedTwice` | gravitee-management-api-service/src/main/java/io/gravitee/management/service/impl/ApplicationServiceImpl.java:356 | With alice owning two applications and bob one, the list ["alice", "bob", "bob"] is not a valid owner list: alice must appear once per membership. |
| `Applications.OwnerAssignmentOwns` | gravitee-management-api-service/src/main/java/io/gravitee/management/service/impl/ApplicationServiceImpl.java:352-353 | When every application is owned, each is mapped to one of its owners. |
| `Applications.SomeOwnerKnown` | gravitee-management-api-service/src/main/java/io/gravitee/management/service/impl/ApplicationServiceImpl.java:355-357 | findByNames on the owner list succeeds iff some primary owner of the batch is a stored user. |
| `Applications.OwnerEntry` | gravitee-management-api-service/src/main/java/io/gravitee/management/service/impl/ApplicationServiceImpl.java:360 | There is an owner entry iff the application is mapped to a stored user, and it is that user's details. |
| `Applications.BatchViewsOnePerApplication` | gravitee-management-api-service/src/main/java/io/gravitee/management/service/impl/ApplicationServiceImpl.java:359-361 | Exactly one view per application of the batch, each the stored record with its owner entry. |
| `Applications.UnownedBatchConverted` | gravitee-management-api-service/src/main/java/io/gravitee/management/service/impl/ApplicationServiceImpl.java:342-350 | An unowned application fails the whole batch with PrimaryOwnersMissing(count of unowned, batch). |
| `Applications.UnknownOwnersConverted` | gravitee-management-api-service/src/main/java/io/gravitee/management/service/impl/ApplicationServiceImpl.java:355-357 | With every application owned but no owner stored, the batch fails with UserNotFound of the owner list. |
| `Applications.BatchViewsConverted` | gravitee-management-api-service/src/main/java/io/gravitee/management/service/impl/ApplicationServiceImpl.java:352-361 | With every application owned and some owner stored, the computed views meet the batch conversion's specification. |
| `Applications.SingleConverted` | gravitee-management-api-service/src/main/java/io/gravitee/management/service/impl/ApplicationServiceImpl.java:272 | Converting one application fails iff it is unowned or its owner is not stored, with PrimaryOwnersMissing(1, {id}) when unowned and UserNotFound of the owner names otherwise (the owner's own name when it has exactly one). Otherwise the result holds a view of that application, and every view in it is consistent. |
| `Applications.SingleOwnerFailsWithItsName` | gravitee-management-api-service/src/main/java/io/gravitee/management/service/impl/ApplicationServiceImpl.java:355-357 | When an application's only primary owner is not a stored user, the owner lookup fails and its message is exactly that owner's name. |

## Left out

- Logging, and the `TechnicalException` paths of the repositories: stores do not fail in the model, so the wrapping of I/O errors into `TechnicalManagementException` is not modelled. The exceptions are `findById`'s missing-owner error and the record-not-found update, which are modelled.
- E-mail dispatch: asynchronous and fire-and-forget, so the model returns the notification that would be sent instead of sending it.
- BCrypt, JWT signing and JWT verification: functions fixed at construction. Token expiry is inside `verify`.
- Random UUID generation and the clock: parameters. Each call uses one `now`, where the Java calls `new Date()` more than once.
- Concurrency and non-atomic multi-step flows: each method runs to completion. A collaborator that throws half-way through a cascade is not modelled. The only failures modelled there are refused key deletions and refused closes, both of which the Java tolerates.
- `setDefaultApplicationForFirstConnection` and `isDefaultApplicationForFirstConnection`: the flag is the `config` field, fixed at construction.
- The repository's `findByName` is taken to match names exactly. Membership timestamps are not stored.
- A missing claim in a verified token (a null pointer in the Java) is not modelled: claims are always complete.
- `GroupService.findByIds` is modelled as a check against a set of known groups. The not-found error carries the missing ids rather than the service's own exception.
- The batch conversion's missing-owner error is the structured `PrimaryOwnersMissing(count, ids)` rather than the message string.
- Management.ManagementService.ConvertApplications: the count in `PrimaryOwnersMissing` is the number of unowned applications. It equals the Java's poMissing when no application has two owners (`Memberships.MissingCountAgrees`), and is larger when one has.
- Management.ManagementService.CompleteRegistration: the repository update is taken to fail with the record-not-found error for an unknown user and to replace the whole record. The Java builds the record from scratch, so createdAt and source are whatever the new record holds, as modelled; the repository's own merge rules are not part of this model.
- MembershipService's addOrUpdateMember and getRole are modelled by `Memberships.AddOrUpdateMember` and `Memberships.RoleOf` from their use here; MembershipServiceImpl is not part of this model.
- Management.ManagementService.FindApplicationById: with several primary owners it reports one of them, unspecified. The Java takes the first one the repository returns, whose order the model does not know.
- Management.ManagementService.ConvertApplications: uses the corrected per-application guard rather than the count guard the Java evaluates (see Findings). The count guard as written is `Memberships.CountGuardFails`, and the two agree whenever no application has two owners (`Memberships.GuardsAgreeUnderSingleOwnership`).

## Findings

| source | as written | input that shows it | evidently intended | confidence | as-written member | corrected member |
|---|---|---|---|---|---|---|
| gravitee-management-api-service/src/main/java/io/gravitee/management/service/impl/ApplicationServiceImpl.java:342-350 | the batch fails only when the number of applications exceeds the number of primary-owner memberships returned | applications "a" and "b"; "a" has two primary owners (alice, bob), "b" has none: 2 - 2 = 0, so the batch is converted and "b" gets no owner | fail whenever some application of the batch has no primary owner | not executed | `Memberships.CountGuardMissesUnownedApplication` | `Memberships.UnownedGuardExact` |
