/**
 * The user and application services over their stores: users keyed by
 * username, applications keyed by id, the membership records, and the
 * append-only audit trail. Collaborators outside the stores (the clock,
 * the id generator, GroupService, RoleService, SubscriptionService,
 * ApiKeyService and the security context) are parameters of the
 * operations; the password encoder, the JWT verifier and the JWT signer
 * are functions fixed at construction.
 */
module Management {
  import opened Wrappers
  import opened Text
  import opened Model
  import opened Memberships
  import opened Users
  import opened Applications

  /** The message findById gives the TechnicalManagementException of an application without primary owner. */
  const FindByIdFailure: string := "An error occurs while trying to find an application using its ID "

  class ManagementService {
    var users: map<string, User>
    var applications: map<string, Application>
    var memberships: MembershipStore
    var audit: seq<AuditEntry>

    const config: Config
    const roleCatalog: map<RoleId, Permissions>
    /** BCryptPasswordEncoder.encode */
    const encode: string -> string
    /** JWTVerifier(secret).verify(token): the claims, or None when the token is rejected. */
    const verify: (string, string) -> Option<TokenClaims>
    /** JWTSigner(secret).sign(claims, options) */
    const sign: (string, SigningRequest) -> string

    /** Each store holds every record under its own key. */
    ghost predicate Valid()
      reads this`users, this`applications
    {
      && (forall name :: name in users ==> users[name].username == name)
      && (forall id :: id in applications ==> applications[id].id == id)
    }

    /** Every application has exactly one primary owner, and no APPLICATION membership dangles. */
    ghost predicate Owned()
      reads this`applications, this`memberships
    {
      OwnershipConsistent(applications, memberships)
    }

    constructor (config: Config, roleCatalog: map<RoleId, Permissions>, encode: string -> string,
                 verify: (string, string) -> Option<TokenClaims>, sign: (string, SigningRequest) -> string)
      ensures Valid() && Owned()
      ensures users == map[] && applications == map[] && memberships == map[] && audit == []
      ensures this.config == config && this.roleCatalog == roleCatalog
      ensures this.encode == encode && this.verify == verify && this.sign == sign
    {
      this.config := config;
      this.roleCatalog := roleCatalog;
      this.encode := encode;
      this.verify := verify;
      this.sign := sign;
      users := map[];
      applications := map[];
      memberships := map[];
      audit := [];
    }

    // -------------------------------------------------------------------
    // Users

    /** convert(User, loadRoles): every field of the record, and the DEFAULT PORTAL and MANAGEMENT roles when asked for. */
    function ToView(u: User, loadRoles: bool): (r: UserView)
      reads this
      ensures r.record == u
      ensures r.roles.Some? <==> loadRoles
      ensures loadRoles ==> |r.roles.value| <= 2
      ensures loadRoles ==> forall role :: role in r.roles.value ==>
                IsDefaultScope(role.scope) &&
                Some(role) == RoleOf(memberships, roleCatalog, u.username, if role.scope == PortalScope then PortalRef else ManagementRef, role.scope)
      ensures loadRoles && RoleOf(memberships, roleCatalog, u.username, PortalRef, PortalScope).Some? ==>
                RoleOf(memberships, roleCatalog, u.username, PortalRef, PortalScope).value in r.roles.value
      ensures loadRoles && RoleOf(memberships, roleCatalog, u.username, ManagementRef, ManagementScope).Some? ==>
                RoleOf(memberships, roleCatalog, u.username, ManagementRef, ManagementScope).value in r.roles.value
    {
      UserView(u, if loadRoles then Some(LoadedRoles(memberships, roleCatalog, u.username)) else None)
    }

    /**
     * connect: on the first connection, when the default-application flag
     * is set, creates "Default application" owned by the user (under the
     * generated id applicationId); then stamps the connection dates and
     * audits the connection. A failed creation aborts the connection.
     */
    method Connect(username: string, now: Time, applicationId: string, authenticated: Option<string>, groups: GroupDirectory)
      returns (r: Result<UserView, Error>)
      requires Valid()
      modifies this`users, this`applications, this`memberships, this`audit
      ensures Valid() && (old(Owned()) ==> Owned())
      ensures username !in old(users) ==> r == Failure(UserNotFound(username)) && unchanged(this)
      ensures username in old(users) ==>
                var previous := old(users)[username];
                var createsApplication := config.defaultApplicationForFirstConnection && IsFirstConnection(previous);
                var u := ConnectedRecord(previous, now);
                var connected := PortalAudit(username, UserConnected, now, Some(previous), u);
                var app := NewApplicationRecord(DefaultApplicationRequest(), applicationId, groups.applicationCreateDefaults, now);
                && (createsApplication && applicationId in old(applications) ==>
                      r == Failure(ApplicationAlreadyExists(applicationId)) && unchanged(this))
                && (createsApplication && applicationId !in old(applications) ==>
                      && applications == old(applications)[applicationId := app]
                      && memberships == old(memberships)[MembershipKey(username, applicationId, ApplicationRef) := PrimaryOwnerRoles()]
                      && audit == old(audit) + [ApplicationAudit(applicationId, ApplicationCreated, Some(authenticated.GetOr(username)), now, None, app)] + [connected])
                && (!createsApplication ==>
                      applications == old(applications) && memberships == old(memberships) && audit == old(audit) + [connected])
                && (!(createsApplication && applicationId in old(applications)) ==>
                      users == old(users)[username := u] && r == Success(ToView(u, true)))
    {
      if username !in users {
        return Failure(UserNotFound(username));
      }
      var previous := users[username];
      if config.defaultApplicationForFirstConnection && IsFirstConnection(previous) {
        r := FirstConnection(username, now, applicationId, authenticated, groups);
      } else {
        var u := ConnectedRecord(previous, now);
        StoreConnection(u, previous, now);
        r := Success(ToView(u, true));
      }
    }

    /** A first connection under the default-application flag: "Default application" is created before the connection is stored. */
    method FirstConnection(username: string, now: Time, applicationId: string,
                           authenticated: Option<string>, groups: GroupDirectory) returns (r: Result<UserView, Error>)
      requires Valid() && username in users
      modifies this`users, this`applications, this`memberships, this`audit
      ensures Valid() && (old(Owned()) ==> Owned())
      ensures var previous := old(users)[username];
              var u := ConnectedRecord(previous, now);
              var app := NewApplicationRecord(DefaultApplicationRequest(), applicationId, groups.applicationCreateDefaults, now);
              && (applicationId in old(applications) ==> r == Failure(ApplicationAlreadyExists(applicationId)) && unchanged(this))
              && (applicationId !in old(applications) ==>
                    && applications == old(applications)[applicationId := app]
                    && memberships == old(memberships)[MembershipKey(username, applicationId, ApplicationRef) := PrimaryOwnerRoles()]
                    && audit == old(audit) + [ApplicationAudit(applicationId, ApplicationCreated, Some(authenticated.GetOr(username)), now, None, app)]
                                          + [PortalAudit(username, UserConnected, now, Some(previous), u)]
                    && users == old(users)[username := u]
                    && r == Success(ToView(u, true)))
    {
      var previous := users[username];
      assert !GroupsMissing(DefaultApplicationRequest().groups, groups.known);
      var created := CreateApplication(DefaultApplicationRequest(), username, applicationId, now, authenticated, groups);
      if created.Failure? {
        return Failure(created.error);
      }
      var u := ConnectedRecord(previous, now);
      StoreConnection(u, previous, now);
      r := Success(ToView(u, true));
    }

    /** The repository update of a connected user followed by the USER_CONNECTED audit entry. */
    method StoreConnection(u: User, previous: User, now: Time)
      requires Valid() && u.username in users
      modifies this`users, this`audit
      ensures Valid() && (old(Owned()) ==> Owned())
      ensures users == old(users)[u.username := u]
      ensures audit == old(audit) + [PortalAudit(u.username, UserConnected, now, Some(previous), u)]
      ensures applications == old(applications) && memberships == old(memberships)
    {
      users := users[u.username := u];
      audit := audit + [PortalAudit(u.username, UserConnected, now, Some(previous), u)];
      assert applications == old(applications) && memberships == old(memberships);
    }

    /** findByName: the user's view, or UserNotFound. */
    function FindUserByName(username: string, loadRoles: bool): (r: Result<UserView, Error>)
      reads this
      ensures r.Success? <==> username in users
      ensures r.Success? ==> r.value.record == users[username] && (r.value.roles.Some? <==> loadRoles)
      ensures r.Success? ==> r.value == ToView(users[username], loadRoles)
      ensures r.Failure? ==> r.error == UserNotFound(username)
    {
      if username in users then Success(ToView(users[username], loadRoles)) else Failure(UserNotFound(username))
    }

    /** findByNames: the views of the listed users that exist, or UserNotFound naming the whole list when none does. */
    function FindUsersByNames(usernames: seq<string>, loadRoles: bool): (r: Result<set<UserView>, Error>)
      requires Valid()
      reads this
      ensures r.Success? <==> exists i :: 0 <= i < |usernames| && usernames[i] in users
      ensures r.Success? ==> forall v :: v in r.value ==>
                v.record.username in usernames && v.record.username in users && v.record == users[v.record.username] &&
                (v.roles.Some? <==> loadRoles) && v == ToView(v.record, loadRoles)
      ensures r.Success? ==> forall i :: 0 <= i < |usernames| && usernames[i] in users ==> ToView(users[usernames[i]], loadRoles) in r.value
      ensures r.Failure? ==> r.error == UserNotFound(NamesForMessage(usernames))
    {
      var found := set name | name in usernames && name in users :: ToView(users[name], loadRoles);
      assert forall i :: 0 <= i < |usernames| && usernames[i] in users ==> ToView(users[usernames[i]], loadRoles) in found;
      if found == {} then Failure(UserNotFound(NamesForMessage(usernames))) else Success(found)
    }

    /** findAll: one view per stored user. */
    function FindAllUsers(loadRoles: bool): (r: set<UserView>)
      reads this
      ensures forall v :: v in r ==> v.record in users.Values && (v.roles.Some? <==> loadRoles) && v == ToView(v.record, loadRoles)
      ensures forall name :: name in users ==> ToView(users[name], loadRoles) in r
    {
      set u | u in users.Values :: ToView(u, loadRoles)
    }

    /**
     * addDefaultMembership: RoleService's default roles of the MANAGEMENT
     * and PORTAL scopes are granted on the user's DEFAULT memberships, in
     * list order; no default role at all is an error.
     */
    method AddDefaultMembership(username: string, defaultRoles: Option<seq<RoleId>>) returns (r: Outcome<Error>)
      requires Valid()
      modifies this`memberships
      ensures Valid() && (old(Owned()) ==> Owned())
      ensures r.Fail? <==> !HasDefaultRoles(defaultRoles)
      ensures r.Fail? ==> r.error == DefaultRoleNotFound([ManagementScope, PortalScope]) && memberships == old(memberships)
      ensures r.Pass? ==> memberships == ApplyDefaultRoles(old(memberships), username, defaultRoles.value)
    {
      if !HasDefaultRoles(defaultRoles) {
        return Fail(DefaultRoleNotFound([ManagementScope, PortalScope]));
      }
      var roles := defaultRoles.value;
      for i := 0 to |roles|
        invariant memberships == ApplyDefaultRoles(old(memberships), username, roles[..i])
      {
        assert roles[..i + 1][..i] == roles[..i];
        memberships := ApplyDefaultRole(memberships, username, roles[i]);
      }
      assert roles[..|roles|] == roles;
      DefaultRolesKeepApplicationMemberships(old(memberships), username, roles);
      if old(Owned()) {
        OtherMembershipsKeepConsistency(applications, old(memberships), memberships);
      }
      r := Pass;
    }

    /**
     * create(NewExternalUserEntity, addDefaultRole): pre-creates a user
     * without password, audits it, then grants the default roles when
     * asked to. A missing default role fails after the user is stored.
     */
    method CreateExternalUser(newUser: NewExternalUser, addDefaultRole: bool, now: Time, defaultRoles: Option<seq<RoleId>>)
      returns (r: Result<UserView, Error>)
      requires Valid()
      modifies this`users, this`audit, this`memberships
      ensures Valid() && (old(Owned()) ==> Owned())
      ensures newUser.username in old(users) ==> r == Failure(UsernameAlreadyExists(newUser.username)) && unchanged(this)
      ensures newUser.username !in old(users) ==>
                var u := ExternalUserRecord(newUser, now);
                && users == old(users)[newUser.username := u]
                && audit == old(audit) + [PortalAudit(newUser.username, UserCreated, now, None, u)]
                && (addDefaultRole && HasDefaultRoles(defaultRoles) ==>
                      memberships == ApplyDefaultRoles(old(memberships), newUser.username, defaultRoles.value))
                && (!(addDefaultRole && HasDefaultRoles(defaultRoles)) ==> memberships == old(memberships))
                && (addDefaultRole && !HasDefaultRoles(defaultRoles) ==> r == Failure(DefaultRoleNotFound([ManagementScope, PortalScope])))
                && (!(addDefaultRole && !HasDefaultRoles(defaultRoles)) ==> r == Success(ToView(u, true)))
    {
      if newUser.username in users {
        return Failure(UsernameAlreadyExists(newUser.username));
      }
      var u := ExternalUserRecord(newUser, now);
      users := users[newUser.username := u];
      audit := audit + [PortalAudit(newUser.username, UserCreated, now, None, u)];
      assert applications == old(applications) && memberships == old(memberships);
      if addDefaultRole {
        var granted := AddDefaultMembership(newUser.username, defaultRoles);
        if granted.Fail? {
          return Failure(granted.error);
        }
      }
      r := Success(ToView(u, true));
    }

    /**
     * register: self-registration. The e-mail becomes the username, the
     * user is pre-created with the default roles, and a registration token
     * is signed and sent in a confirmation link. A missing JWT secret or
     * portal URL fails after the user is stored.
     */
    method Register(newUser: NewExternalUser, now: Time, defaultRoles: Option<seq<RoleId>>) returns (r: Result<Registration, Error>)
      requires Valid()
      modifies this`users, this`audit, this`memberships
      ensures Valid() && (old(Owned()) ==> Owned())
      ensures !config.userCreationEnabled ==> r == Failure(RegistrationDisabled) && unchanged(this)
      ensures config.userCreationEnabled && newUser.email in old(users) ==>
                r == Failure(UsernameAlreadyExists(newUser.email)) && unchanged(this)
      ensures config.userCreationEnabled && newUser.email !in old(users) ==>
                var u := ExternalUserRecord(RegistrationIdentity(newUser), now);
                && users == old(users)[newUser.email := u]
                && audit == old(audit) + [PortalAudit(newUser.email, UserCreated, now, None, u)]
                && memberships == (if HasDefaultRoles(defaultRoles) then ApplyDefaultRoles(old(memberships), newUser.email, defaultRoles.value)
                                   else old(memberships))
                && (!HasDefaultRoles(defaultRoles) ==> r == Failure(DefaultRoleNotFound([ManagementScope, PortalScope])))
                && (HasDefaultRoles(defaultRoles) && !JwtSecretSet(config) ==> r == Failure(JwtSecretMissing))
                && (HasDefaultRoles(defaultRoles) && JwtSecretSet(config) && config.portalUrl.None? ==> r == Failure(PortalUrlMissing))
                && (HasDefaultRoles(defaultRoles) && JwtSecretSet(config) && config.portalUrl.Some? ==>
                      var token := sign(config.jwtSecret.value, SigningRequestFor(config, u));
                      r == Success(Registration(ToView(u, true), RegistrationEmailFor(ToView(u, true), token, ConfirmationUrl(config.portalUrl.value, token)))))
    {
      if !config.userCreationEnabled {
        return Failure(RegistrationDisabled);
      }
      var identity := RegistrationIdentity(newUser);
      var created := CreateExternalUser(identity, true, now, defaultRoles);
      if created.Failure? {
        return Failure(created.error);
      }
      var request := SigningRequestFor(config, created.value.record);
      if !JwtSecretSet(config) {
        return Failure(JwtSecretMissing);
      }
      var token := sign(config.jwtSecret.value, request);
      if config.portalUrl.None? {
        return Failure(PortalUrlMissing);
      }
      var registrationUrl := ConfirmationUrl(config.portalUrl.value, token);
      r := Success(Registration(created.value, RegistrationEmailFor(created.value, token, registrationUrl)));
    }

    /**
     * create(RegisterUserEntity): completes a registration from its token.
     * Every failure after the registration switch is rethrown as a
     * TechnicalManagementException around its cause.
     */
    method CompleteRegistration(registration: RegisterUser, now: Time) returns (r: Result<UserView, Error>)
      requires Valid()
      modifies this`users, this`audit
      ensures Valid() && (old(Owned()) ==> Owned())
      ensures !config.userCreationEnabled ==> r == Failure(RegistrationDisabled) && unchanged(this)
      ensures config.userCreationEnabled && !JwtSecretSet(config) ==> r == Failure(TechnicalWrapping(JwtSecretMissing)) && unchanged(this)
      ensures config.userCreationEnabled && JwtSecretSet(config) ==>
                match verify(config.jwtSecret.value, registration.token)
                case None => r == Failure(TechnicalWrapping(InvalidToken)) && unchanged(this)
                case Some(claims) =>
                  var name := claims.subject;
                  if name in old(users) && IsNotBlank(old(users)[name].password) then
                    r == Failure(TechnicalWrapping(UsernameAlreadyExists(name))) && unchanged(this)
                  else if name !in old(users) then
                    r == Failure(TechnicalWrapping(RecordNotFound(name))) && unchanged(this)
                  else
                    var u := RegisteredUserRecord(claims, registration.password, encode, now);
                    && users == old(users)[name := u]
                    && audit == old(audit) + [PortalAudit(name, UserCreated, now, None, u)]
                    && r == Success(ToView(u, true))
    {
      if !config.userCreationEnabled {
        return Failure(RegistrationDisabled);
      }
      if !JwtSecretSet(config) {
        return Failure(TechnicalWrapping(JwtSecretMissing));
      }
      var verified := verify(config.jwtSecret.value, registration.token);
      if verified.None? {
        return Failure(TechnicalWrapping(InvalidToken));
      }
      var claims := verified.value;
      var existing := if claims.subject in users then Some(users[claims.subject]) else None;
      if AlreadyRegistered(existing) {
        return Failure(TechnicalWrapping(UsernameAlreadyExists(claims.subject)));
      }
      var u := RegisteredUserRecord(claims, registration.password, encode, now);
      if u.username !in users {
        return Failure(TechnicalWrapping(RecordNotFound(u.username)));
      }
      users := users[u.username := u];
      audit := audit + [PortalAudit(u.username, UserCreated, now, None, u)];
      assert applications == old(applications) && memberships == old(memberships);
      r := Success(ToView(u, true));
    }

    /** update: sets the picture and updatedAt, and audits the change. */
    method UpdateUser(update: UserUpdate, now: Time) returns (r: Result<UserView, Error>)
      requires Valid()
      modifies this`users, this`audit
      ensures Valid() && (old(Owned()) ==> Owned())
      ensures update.username !in old(users) ==> r == Failure(UserNotFound(update.username)) && unchanged(this)
      ensures update.username in old(users) ==>
                var previous := old(users)[update.username];
                var u := WithPicture(previous, update.picture, now);
                && users == old(users)[update.username := u]
                && audit == old(audit) + [PortalAudit(update.username, UserUpdated, now, Some(previous), u)]
                && r == Success(ToView(u, true))
    {
      if update.username !in users {
        return Failure(UserNotFound(update.username));
      }
      var previous := users[update.username];
      var u := WithPicture(previous, update.picture, now);
      users := users[update.username := u];
      audit := audit + [PortalAudit(update.username, UserUpdated, now, Some(previous), u)];
      assert applications == old(applications) && memberships == old(memberships);
      r := Success(ToView(u, true));
    }

    // -------------------------------------------------------------------
    // Applications

    /**
     * findById: the application with its primary owner. An application
     * without PRIMARY_OWNER membership is a technical error; with several,
     * any one of them may be reported.
     */
    method FindApplicationById(id: string) returns (r: Result<ApplicationView, Error>)
      requires Valid()
      ensures id !in applications ==> r == Failure(ApplicationNotFound(id))
      ensures id in applications && OwnersOf(memberships, id) == {} ==> r == Failure(Technical(FindByIdFailure + id))
      ensures id in applications && OwnersOf(memberships, id) != {} ==>
                && (r.Success? ==> r.value.primaryOwner.Some? && ViewConsistent(applications, memberships, users, r.value)
                                   && r.value.record.id == id)
                && (r.Failure? ==> exists owner :: owner in OwnersOf(memberships, id) && owner !in users && r.error == UserNotFound(owner))
      ensures id in applications && |OwnersOf(memberships, id)| == 1 ==>
                forall owner :: owner in OwnersOf(memberships, id) ==>
                  r == if owner in users then Success(ApplicationView(applications[id], Some(PrimaryOwnerOf(users[owner]))))
                       else Failure(UserNotFound(owner))
    {
      if id !in applications {
        return Failure(ApplicationNotFound(id));
      }
      var owners := OwnersOf(memberships, id);
      if owners == {} {
        return Failure(Technical(FindByIdFailure + id));
      }
      var owner :| owner in owners;
      if |owners| == 1 {
        SingletonOfSmallSet(owners, owner);
      }
      var found := FindUserByName(owner, false);
      if found.Failure? {
        return Failure(found.error);
      }
      r := Success(ApplicationView(applications[id], Some(PrimaryOwnerOf(found.value.record))));
    }

    /**
     * create: stores the new ACTIVE application under the generated id,
     * audits it, and makes the creating user its primary owner. An unknown
     * creating user fails only after all of that is stored.
     */
    method CreateApplication(request: ApplicationRequest, username: string, id: string, now: Time,
                             authenticated: Option<string>, groups: GroupDirectory) returns (r: Result<ApplicationView, Error>)
      requires Valid()
      modifies this`applications, this`memberships, this`audit
      ensures Valid() && (old(Owned()) ==> Owned())
      ensures GroupsMissing(request.groups, groups.known) ==>
                r == Failure(GroupsNotFound(MissingGroups(request.groups, groups.known))) && unchanged(this)
      ensures !GroupsMissing(request.groups, groups.known) && id in old(applications) ==>
                r == Failure(ApplicationAlreadyExists(id)) && unchanged(this)
      ensures !GroupsMissing(request.groups, groups.known) && id !in old(applications) ==>
                var app := NewApplicationRecord(request, id, groups.applicationCreateDefaults, now);
                && applications == old(applications)[id := app]
                && memberships == old(memberships)[MembershipKey(username, id, ApplicationRef) := PrimaryOwnerRoles()]
                && audit == old(audit) + [ApplicationAudit(id, ApplicationCreated, Some(authenticated.GetOr(username)), now, None, app)]
                && (old(Owned()) ==> OwnersOf(memberships, id) == {username})
                && (username in users ==> r == Success(ApplicationView(app, Some(PrimaryOwnerOf(users[username])))))
                && (username !in users ==> r == Failure(UserNotFound(username)))
    {
      if GroupsMissing(request.groups, groups.known) {
        return Failure(GroupsNotFound(MissingGroups(request.groups, groups.known)));
      }
      if id in applications {
        return Failure(ApplicationAlreadyExists(id));
      }
      var app := NewApplicationRecord(request, id, groups.applicationCreateDefaults, now);
      if old(Owned()) {
        NewApplicationKeepsConsistency(applications, memberships, id, app, username);
      }
      applications := applications[id := app];
      audit := audit + [ApplicationAudit(id, ApplicationCreated, Some(authenticated.GetOr(username)), now, None, app)];
      memberships := memberships[MembershipKey(username, id, ApplicationRef) := PrimaryOwnerRoles()];
      var owner := FindUserByName(username, false);
      if owner.Failure? {
        return Failure(owner.error);
      }
      r := Success(ApplicationView(app, Some(PrimaryOwnerOf(owner.value.record))));
    }

    /**
     * update: replaces the record by the converted request, keeping id and
     * createdAt, and audits the change; the answer goes through the batch
     * conversion, so a missing owner fails after the update is stored.
     */
    method UpdateApplication(id: string, request: ApplicationRequest, now: Time, groups: GroupDirectory)
      returns (r: Result<ApplicationView, Error>)
      requires Valid()
      modifies this`applications, this`audit
      ensures Valid() && (old(Owned()) ==> Owned())
      ensures GroupsMissing(request.groups, groups.known) ==>
                r == Failure(GroupsNotFound(MissingGroups(request.groups, groups.known))) && unchanged(this)
      ensures !GroupsMissing(request.groups, groups.known) && id !in old(applications) ==>
                r == Failure(ApplicationNotFound(id)) && unchanged(this)
      ensures !GroupsMissing(request.groups, groups.known) && id in old(applications) ==>
                var previous := old(applications)[id];
                var app := UpdatedApplicationRecord(request, previous, now);
                && applications == old(applications)[id := app]
                && audit == old(audit) + [ApplicationAudit(id, ApplicationCreated, None, now, Some(previous), app)]
                && (r.Failure? <==> SomeApplicationUnowned(memberships, {id}) || NoOwnerKnown(memberships, users, {id}))
                && (r.Success? ==> r.value.record == app && ViewConsistent(applications, memberships, users, r.value))
                && (SomeApplicationUnowned(memberships, {id}) ==> r == Failure(PrimaryOwnersMissing(1, {id})))
                && (!SomeApplicationUnowned(memberships, {id}) && NoOwnerKnown(memberships, users, {id}) ==>
                      r.Failure? && exists names :: ListsUsersOf(PrimaryOwnerKeys(memberships, {id}), names) && r.error == UserNotFound(NamesForMessage(names)))
                && (forall owner :: OwnersOf(memberships, id) == {owner} && owner !in users ==> r == Failure(UserNotFound(owner)))
    {
      if GroupsMissing(request.groups, groups.known) {
        return Failure(GroupsNotFound(MissingGroups(request.groups, groups.known)));
      }
      if id !in applications {
        return Failure(ApplicationNotFound(id));
      }
      var app := UpdatedApplicationRecord(request, applications[id], now);
      StoreReplacement(id, app, ApplicationCreated, now);
      r := ConvertOne(id);
    }

    /** The batch conversion of a single stored application, answering its only view. */
    method ConvertOne(id: string) returns (r: Result<ApplicationView, Error>)
      requires Valid() && id in applications
      ensures r.Failure? <==> SomeApplicationUnowned(memberships, {id}) || NoOwnerKnown(memberships, users, {id})
      ensures r.Success? ==> r.value.record == applications[id] && ViewConsistent(applications, memberships, users, r.value)
      ensures SomeApplicationUnowned(memberships, {id}) ==> r == Failure(PrimaryOwnersMissing(1, {id}))
      ensures !SomeApplicationUnowned(memberships, {id}) && NoOwnerKnown(memberships, users, {id}) ==>
                r.Failure? && exists names :: ListsUsersOf(PrimaryOwnerKeys(memberships, {id}), names) && r.error == UserNotFound(NamesForMessage(names))
      ensures forall owner :: OwnersOf(memberships, id) == {owner} && owner !in users ==> r == Failure(UserNotFound(owner))
    {
      var converted := ConvertApplications({id});
      SingleConverted(applications, memberships, users, id, converted);
      if converted.Failure? {
        return Failure(converted.error);
      }
      var v :| v in converted.value;
      r := Success(v);
    }

    /**
     * archive: asks for the deletion of every API key of every subscription
     * of the application (a failed deletion is skipped), asks for the
     * closing of every subscription (a refused close is skipped), then
     * stores the application ARCHIVED and audits it. The report lists the
     * calls made and those that succeeded.
     */
    method ArchiveApplication(id: string, subscriptions: seq<Subscription>, now: Time) returns (r: Outcome<Error>, report: ArchiveReport)
      requires Valid()
      modifies this`applications, this`audit
      ensures Valid() && (old(Owned()) ==> Owned())
      ensures id !in old(applications) ==>
                r == Fail(ApplicationNotFound(id)) && report == ArchiveReport([], [], [], []) && unchanged(this)
      ensures id in old(applications) ==>
                var previous := old(applications)[id];
                var archived := ArchivedRecord(previous, now);
                && r == Pass
                && report == CascadeReport(subscriptions)
                && applications == old(applications)[id := archived]
                && audit == old(audit) + [ApplicationAudit(id, ApplicationArchived, None, now, Some(previous), archived)]
    {
      report := ArchiveReport([], [], [], []);
      if id !in applications {
        return Fail(ApplicationNotFound(id)), report;
      }
      var previous := applications[id];
      report := CloseSubscriptions(subscriptions);
      StoreReplacement(id, ArchivedRecord(previous, now), ApplicationArchived, now);
      r := Pass;
    }

    /**
     * The repository update of a stored application followed by its audit
     * entry (the previous record against the new one), shared by update
     * and archive.
     */
    method StoreReplacement(id: string, app: Application, event: AuditEvent, now: Time)
      requires Valid() && id in applications && app.id == id
      modifies this`applications, this`audit
      ensures Valid() && (old(Owned()) ==> Owned())
      ensures applications == old(applications)[id := app]
      ensures audit == old(audit) + [ApplicationAudit(id, event, None, now, Some(old(applications)[id]), app)]
    {
      if Owned() {
        ReplacedApplicationKeepsConsistency(applications, memberships, id, app);
      }
      audit := audit + [ApplicationAudit(id, event, None, now, Some(applications[id]), app)];
      applications := applications[id := app];
    }

    // -------------------------------------------------------------------
    // The batch conversion shared by the finders.

    /**
     * convert(Set<Application>): the views of a batch of stored
     * applications, each with its primary owner. The guard is the
     * corrected one: it fails when some application has no PRIMARY_OWNER
     * membership.
     */
    method ConvertApplications(ids: set<string>) returns (r: Result<set<ApplicationView>, Error>)
      requires Valid() && ids <= applications.Keys
      ensures Converted(applications, memberships, users, ids, r)
    {
      if ids == {} {
        return Success({});
      }
      if SomeApplicationUnowned(memberships, ids) {
        r := Failure(PrimaryOwnersMissing(|ids - OwnedIds(memberships, ids)|, ids));
        UnownedBatchConverted(applications, memberships, users, ids);
        return;
      }
      r := ConvertOwnedBatch(ids);
    }

    /** The conversion of a batch whose every application has a primary owner. */
    method ConvertOwnedBatch(ids: set<string>) returns (r: Result<set<ApplicationView>, Error>)
      requires Valid() && ids <= applications.Keys
      requires ids != {} && !SomeApplicationUnowned(memberships, ids)
      ensures Converted(applications, memberships, users, ids, r)
    {
      var owners, found := LookUpOwners(ids);
      if found.Failure? {
        UnknownOwnersConverted(applications, memberships, users, ids, owners);
        return Failure(found.error);
      }
      var applicationToUser := AssignOwners(PrimaryOwnerKeys(memberships, ids));
      BatchViewsConverted(applications, memberships, users, ids, applicationToUser);
      r := Success(BatchViews(applications, users, ids, applicationToUser));
    }

    /** The owners of the batch's PRIMARY_OWNER memberships, and findByNames on them. */
    method LookUpOwners(ids: set<string>) returns (owners: seq<string>, found: Result<set<UserView>, Error>)
      requires Valid()
      ensures found.Failure? <==> NoOwnerKnown(memberships, users, ids)
      ensures found.Failure? ==> found.error == UserNotFound(NamesForMessage(owners)) && ListsUsersOf(PrimaryOwnerKeys(memberships, ids), owners)
    {
      owners := ListOwners(PrimaryOwnerKeys(memberships, ids));
      found := FindUsersByNames(owners, false);
      SomeOwnerKnown(memberships, users, ids, owners);
    }

    /** findByUser: the ACTIVE applications the user is a member of, directly or through a group. */
    method FindApplicationsByUser(username: string) returns (r: Result<set<ApplicationView>, Error>)
      requires Valid()
      ensures Converted(applications, memberships, users, AccessibleApplications(applications, memberships, username), r)
    {
      var ids := AccessibleApplications(applications, memberships, username);
      if ids == {} {
        return Success({});
      }
      r := ConvertApplications(ids);
    }

    /** findByName: nothing for a missing or blank name; otherwise the ACTIVE applications with the trimmed name. */
    method FindApplicationsByName(name: Option<string>) returns (r: Result<set<ApplicationView>, Error>)
      requires Valid()
      ensures name.None? || Trim(name.value) == [] ==> r == Success({})
      ensures name.Some? && Trim(name.value) != [] ==> Converted(applications, memberships, users, ActiveNamed(applications, Trim(name.value)), r)
    {
      if name.None? || Trim(name.value) == [] {
        return Success({});
      }
      r := ConvertApplications(ActiveNamed(applications, Trim(name.value)));
    }

    /** findByGroup: the ACTIVE applications of the group. */
    method FindApplicationsByGroup(groupId: string) returns (r: Result<set<ApplicationView>, Error>)
      requires Valid()
      ensures Converted(applications, memberships, users, ActiveInGroups(applications, {groupId}), r)
    {
      r := ConvertApplications(ActiveInGroups(applications, {groupId}));
    }

    /** findAll: every ACTIVE application. */
    method FindAllApplications() returns (r: Result<set<ApplicationView>, Error>)
      requires Valid()
      ensures Converted(applications, memberships, users, ActiveIds(applications), r)
    {
      var ids := ActiveIds(applications);
      if ids == {} {
        return Success({});
      }
      r := ConvertApplications(ids);
    }

    // -------------------------------------------------------------------
    // Scenarios across two calls.

    /** A user connecting twice: only the first connection can create an application. */
    method ConnectTwice(username: string, now: Time, later: Time, firstId: string, secondId: string,
                        authenticated: Option<string>, groups: GroupDirectory) returns (first: Result<UserView, Error>, second: Result<UserView, Error>)
      requires Valid()
      modifies this`users, this`applications, this`memberships, this`audit
      ensures Valid()
      ensures first.Success? ==> second.Success?
      ensures first.Success? ==> forall id :: id in applications && id !in old(applications) ==> id == firstId
    {
      first := Connect(username, now, firstId, authenticated, groups);
      if first.Failure? {
        second := first;
        return;
      }
      ghost var apps := applications;
      assert forall id :: id in apps && id !in old(applications) ==> id == firstId;
      second := Connect(username, later, secondId, authenticated, groups);
      assert applications == apps;
    }

    /** An application just created is found with its creator as primary owner. */
    method CreateThenFind(request: ApplicationRequest, username: string, id: string, now: Time,
                          authenticated: Option<string>, groups: GroupDirectory) returns (created: Result<ApplicationView, Error>, found: Result<ApplicationView, Error>)
      requires Valid() && Owned()
      modifies this`applications, this`memberships, this`audit
      ensures created.Success? ==> username in users && found == created && found.value.primaryOwner == Some(PrimaryOwnerOf(users[username]))
    {
      created := CreateApplication(request, username, id, now, authenticated, groups);
      found := FindApplicationById(id);
      if created.Success? {
        assert OwnersOf(memberships, id) == {username};
      }
    }
  }
}
