/**
 * The pure parts of the user service: the record conversions, the
 * identity rewrite of self-registration, the registration token
 * claims and confirmation link, and the diagnostic text of a failed
 * batch lookup.
 */
module Users {
  import opened Wrappers
  import opened Text
  import opened Model

  /** The source tag of users who register themselves. */
  const InternalSource: string := "gravitee"
  /** The path of the portal page that completes a registration. */
  const ConfirmationPath: string := "/#!/registration/confirm/"
  const RegistrationSubjectPrefix: string := "User registration - "

  predicate IsFirstConnection(u: User) {
    u.lastConnectionAt.None?
  }

  /** The record after a connection at now: only the two dates change. */
  function ConnectedRecord(u: User, now: Time): (r: User)
    ensures r.lastConnectionAt == Some(now) && r.updatedAt == r.lastConnectionAt
    ensures r.(lastConnectionAt := u.lastConnectionAt, updatedAt := u.updatedAt) == u
    ensures !IsFirstConnection(r)
  {
    u.(lastConnectionAt := Some(now), updatedAt := Some(now))
  }

  /** The record after an update at now: only picture and updatedAt change. */
  function WithPicture(u: User, picture: Option<string>, now: Time): (r: User)
    ensures r.picture == picture && r.updatedAt == Some(now)
    ensures r.(picture := u.picture, updatedAt := u.updatedAt) == u
  {
    u.(updatedAt := Some(now), picture := picture)
  }

  /** A pre-created external user: the identity of the request, no password, created and updated at now. */
  function ExternalUserRecord(e: NewExternalUser, now: Time): (r: User)
    ensures r.password.None? && r.lastConnectionAt.None? && r.picture.None?
    ensures r.createdAt == Some(now) && r.updatedAt == r.createdAt
    ensures r.username == e.username && r.email == e.email
    ensures r.firstname == e.firstname && r.lastname == e.lastname
    ensures r.source == e.source && r.sourceId == e.sourceId
  {
    User(e.username, e.email, e.firstname, e.lastname, None, e.source, e.sourceId, Some(now), Some(now), None, None)
  }

  /** register's rewrite: the e-mail becomes the username and the source id, and the source is the internal one. */
  function RegistrationIdentity(e: NewExternalUser): (r: NewExternalUser)
    ensures r.username == e.email && r.sourceId == Some(e.email) && r.source == Some(InternalSource)
    ensures r.(username := e.username, source := e.source, sourceId := e.sourceId) == e
  {
    e.(username := e.email, source := Some(InternalSource), sourceId := Some(e.email))
  }

  /** Registering an already rewritten identity changes nothing more. */
  lemma RegistrationIdentityIdempotent(e: NewExternalUser)
    ensures RegistrationIdentity(RegistrationIdentity(e)) == RegistrationIdentity(e)
  {
  }

  /**
   * The record written when an invited user completes the registration:
   * the identity of the token, the encoded password, updated at now and
   * nothing else (the write replaces the whole record).
   */
  function RegisteredUserRecord(claims: TokenClaims, password: Option<string>, encode: string -> string, now: Time): (r: User)
    ensures r.username == claims.subject && r.email == claims.email
    ensures r.firstname == claims.firstname && r.lastname == claims.lastname
    ensures password.None? ==> r.password.None?
    ensures password.Some? ==> r.password == Some(encode(password.value))
    ensures r.updatedAt == Some(now) && r.createdAt.None? && r.lastConnectionAt.None?
    ensures r.source.None? && r.sourceId.None? && r.picture.None?
  {
    var stored := if password.Some? then Some(encode(password.value)) else None;
    User(claims.subject, claims.email, claims.firstname, claims.lastname, stored, None, None, None, Some(now), None, None)
  }

  /** A registration can be completed unless the stored record already holds a non-blank password. */
  predicate AlreadyRegistered(existing: Option<User>) {
    existing.Some? && IsNotBlank(existing.value.password)
  }

  predicate JwtSecretSet(config: Config) {
    config.jwtSecret.Some? && config.jwtSecret.value != ""
  }

  /** The text of the UserNotFound raised by findByNames: the names joined by "/", or "?" when there are none. */
  function NamesForMessage(usernames: seq<string>): (r: string)
    ensures usernames == [] ==> r == "?"
    ensures |usernames| == 1 ==> r == usernames[0]
  {
    if usernames == [] then "?" else Join(usernames, "/")
  }

  /** The names can be read back from the message, provided no name holds a "/". */
  lemma NamesRecoverableFromMessage(usernames: seq<string>)
    requires |usernames| > 0
    requires forall k :: 0 <= k < |usernames| ==> '/' !in usernames[k]
    ensures Split(NamesForMessage(usernames), '/') == usernames
  {
    SplitJoin(usernames, '/');
  }

  /** The registration link: portalURL without one trailing "/", the confirmation path, then the token. */
  function ConfirmationUrl(portalUrl: string, token: string): (r: string)
    ensures |r| == |StripTrailingSlash(portalUrl)| + |ConfirmationPath| + |token|
  {
    StripTrailingSlash(portalUrl) + ConfirmationPath + token
  }

  /** The link starts with portalURL less at most one "/", and ends with the path and the token. */
  lemma ConfirmationUrlParts(portalUrl: string, token: string)
    ensures var base := StripTrailingSlash(portalUrl);
            var r := ConfirmationUrl(portalUrl, token);
            && (portalUrl == base || portalUrl == base + "/")
            && r[..|base|] == base
            && r[|base|..|base| + |ConfirmationPath|] == ConfirmationPath
            && r[|base| + |ConfirmationPath|..] == token
  {
  }

  /** A trailing "/" on a portalURL that has none makes no difference to the link. */
  lemma TrailingSlashIgnored(portalUrl: string, token: string)
    requires portalUrl == [] || portalUrl[|portalUrl| - 1] != '/'
    ensures ConfirmationUrl(portalUrl + "/", token) == ConfirmationUrl(portalUrl, token)
  {
    assert (portalUrl + "/")[..|portalUrl|] == portalUrl;
  }

  /** Only one trailing "/" is removed: a portalURL ending in "//" keeps one. */
  lemma OnlyOneSlashRemoved(portalUrl: string, token: string)
    ensures ConfirmationUrl(portalUrl + "//", token) == portalUrl + "/" + ConfirmationPath + token
  {
    assert (portalUrl + "//")[..|portalUrl| + 1] == portalUrl + "/";
  }

  /** The claims and options register hands to the JWT signer. */
  function SigningRequestFor(config: Config, u: User): (r: SigningRequest)
    ensures r.claims.subject == u.username && r.claims.email == u.email
    ensures r.claims.firstname == u.firstname && r.claims.lastname == u.lastname
    ensures r.claims.issuer == config.jwtIssuer && r.expirySeconds == config.tokenExpireAfter
    ensures r.issuedAt && r.jwtId
  {
    SigningRequest(TokenClaims(config.jwtIssuer, u.username, u.email, u.firstname, u.lastname), config.tokenExpireAfter, true, true)
  }

  /** The e-mail register dispatches. */
  function RegistrationEmailFor(user: UserView, token: string, registrationUrl: string): (r: RegistrationEmail)
    ensures r.to == user.record.email && r.username == user.record.username && r.token == token && r.registrationUrl == registrationUrl
    ensures r.subject == RegistrationSubjectPrefix + user.record.username && r.template == UserRegistrationTemplate
    ensures r.user == user
  {
    var u := user.record;
    RegistrationEmail(u.email, RegistrationSubjectPrefix + u.username, UserRegistrationTemplate, u.username, token, registrationUrl, user)
  }

  /** The registration token, once verified, rebuilds the identity of the record register created. */
  lemma TokenClaimsRebuildIdentity(config: Config, e: NewExternalUser, now: Time, password: Option<string>,
                                   encode: string -> string, later: Time)
    ensures var created := ExternalUserRecord(RegistrationIdentity(e), now);
            var completed := RegisteredUserRecord(SigningRequestFor(config, created).claims, password, encode, later);
            completed.username == e.email && completed.email == e.email
            && completed.firstname == e.firstname && completed.lastname == e.lastname
  {
  }
}
