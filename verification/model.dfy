/**
 * The records of the management service layer: the stored User,
 * Application and Membership records, the views the services return,
 * the request entities they accept, the configuration they read, the
 * audit trail they append to, and the exceptions they raise.
 */
module Model {
  import opened Wrappers

  /** A java.util.Date, as milliseconds. */
  type Time = int

  datatype ApplicationStatus = Active | Archived

  /** RoleScope: the scopes a role can belong to. */
  datatype RoleScope = ManagementScope | PortalScope | ApiScope | ApplicationScope | GroupScope

  /** MembershipReferenceType: what a membership points at. */
  datatype ReferenceType = ManagementRef | PortalRef | ApiRef | ApplicationRef | GroupRef

  /** The stored user record; username is its key. */
  datatype User = User(
    username: string,
    email: string,
    firstname: string,
    lastname: string,
    password: Option<string>,
    source: Option<string>,
    sourceId: Option<string>,
    createdAt: Option<Time>,
    updatedAt: Option<Time>,
    lastConnectionAt: Option<Time>,
    picture: Option<string>)

  /** The stored application record; id is its key. */
  datatype Application = Application(
    id: string,
    name: string,
    description: string,
    appType: Option<string>,
    status: ApplicationStatus,
    groups: Option<set<string>>,
    createdAt: Option<Time>,
    updatedAt: Option<Time>)

  /** A membership record is identified by its user, its reference and the reference's type. */
  datatype MembershipKey = MembershipKey(userId: string, referenceId: string, referenceType: ReferenceType)

  /** The roles a membership grants: role name per scope. */
  type Roles = map<RoleScope, string>

  /** A role as RoleService knows it: a name within a scope. */
  datatype RoleId = RoleId(scope: RoleScope, name: string)

  type Permissions = map<string, seq<char>>

  /** UserRoleEntity: a role loaded into a user view. */
  datatype UserRole = UserRole(scope: RoleScope, name: string, permissions: Permissions)

  /** UserEntity: every field of the record, and the roles when they were asked for. */
  datatype UserView = UserView(record: User, roles: Option<set<UserRole>>)

  /** PrimaryOwnerEntity. */
  datatype PrimaryOwner = PrimaryOwner(username: string, lastname: string, firstname: string, email: string)

  /** ApplicationEntity: every field of the record and, when it is known, its primary owner. */
  datatype ApplicationView = ApplicationView(record: Application, primaryOwner: Option<PrimaryOwner>)

  /** NewExternalUserEntity. */
  datatype NewExternalUser = NewExternalUser(
    username: string,
    email: string,
    firstname: string,
    lastname: string,
    source: Option<string>,
    sourceId: Option<string>)

  /** RegisterUserEntity: the token sent by e-mail and the chosen password. */
  datatype RegisterUser = RegisterUser(token: string, password: Option<string>)

  /** UpdateUserEntity. */
  datatype UserUpdate = UserUpdate(username: string, picture: Option<string>)

  /** NewApplicationEntity and UpdateApplicationEntity carry the same fields. */
  datatype ApplicationRequest = ApplicationRequest(
    name: string,
    description: string,
    appType: Option<string>,
    groups: Option<set<string>>)

  /** What GroupService answers: the groups that exist, and those applied to every new application. */
  datatype GroupDirectory = GroupDirectory(known: set<string>, applicationCreateDefaults: set<string>)

  /** The configuration read from the environment. */
  datatype Config = Config(
    defaultApplicationForFirstConnection: bool,  // user.login.defaultApplication
    userCreationEnabled: bool,                   // user.creation.enabled
    jwtSecret: Option<string>,                   // jwt.secret
    jwtIssuer: string,                           // jwt.issuer, with its default already applied
    tokenExpireAfter: int,                       // user.creation.token.expire-after, with its default already applied
    portalUrl: Option<string>)                   // portalURL

  /** The claims of a registration token. */
  datatype TokenClaims = TokenClaims(issuer: string, subject: string, email: string, firstname: string, lastname: string)

  /** What is handed to the JWT signer: the claims and the signer options. */
  datatype SigningRequest = SigningRequest(claims: TokenClaims, expirySeconds: int, issuedAt: bool, jwtId: bool)

  datatype EmailTemplate = UserRegistrationTemplate

  /** The registration e-mail notification. */
  datatype RegistrationEmail = RegistrationEmail(
    to: string,
    subject: string,
    template: EmailTemplate,
    username: string,
    token: string,
    registrationUrl: string,
    user: UserView)

  /** What register produces: the created user and the e-mail it dispatches. */
  datatype Registration = Registration(user: UserView, email: RegistrationEmail)

  /** What ApiKeyService.delete does with one key. */
  datatype KeyDeletion = Deleted | DeletionFailed

  datatype ApiKey = ApiKey(key: string, deletion: KeyDeletion)

  /** A subscription of an application, its API keys, and whether SubscriptionService.close accepts it. */
  datatype Subscription = Subscription(id: string, apiKeys: seq<ApiKey>, closable: bool)

  /** The calls archive makes on its collaborators, and those that succeeded. */
  datatype ArchiveReport = ArchiveReport(
    keysAttempted: seq<string>,
    keysDeleted: seq<string>,
    closesAttempted: seq<string>,
    closed: seq<string>)

  datatype AuditEvent = UserConnected | UserCreated | UserUpdated | ApplicationCreated | ApplicationArchived

  /** An entry of the append-only audit trail, with before and after snapshots. */
  datatype AuditEntry =
    | PortalAudit(username: string, event: AuditEvent, at: Time, previousUser: Option<User>, currentUser: User)
    | ApplicationAudit(applicationId: string, event: AuditEvent, actor: Option<string>, at: Time,
                       previousApplication: Option<Application>, currentApplication: Application)

  /** The exceptions the services raise. */
  datatype Error =
    | UserNotFound(username: string)
    | UsernameAlreadyExists(username: string)
    | DefaultRoleNotFound(scopes: seq<RoleScope>)
    | ApplicationNotFound(applicationId: string)
    | ApplicationAlreadyExists(applicationId: string)
    | GroupsNotFound(groups: set<string>)
    | RegistrationDisabled        // IllegalStateException "The user registration is disabled"
    | JwtSecretMissing            // IllegalStateException "JWT secret is mandatory"
    | PortalUrlMissing            // the NullPointerException raised when portalURL is not set
    | InvalidToken                // the JWT verifier rejects the token
    | RecordNotFound(key: string) // the user store refuses to update a record it does not hold
    | Technical(message: string)  // TechnicalManagementException built with its own message
    /** The batch conversion's TechnicalManagementException "<count> applications has no identified primary owners in this list <ids>." */
    | PrimaryOwnersMissing(count: int, applicationIds: set<string>)
    | TechnicalWrapping(cause: Error) // TechnicalManagementException(cause.getMessage(), cause)
}
