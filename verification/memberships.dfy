/**
 * The membership store and what the services derive from it: the
 * primary owner of an application, the default PORTAL and MANAGEMENT
 * roles of a user, and the integrity rule that ties applications to
 * their PRIMARY_OWNER memberships.
 */
module Memberships {
  import opened Wrappers
  import opened Model

  /** MembershipDefaultReferenceId.DEFAULT.name() */
  const DefaultReferenceId: string := "DEFAULT"
  /** SystemRole.PRIMARY_OWNER.name() */
  const PrimaryOwnerRole: string := "PRIMARY_OWNER"

  /** Membership records, one per (user, reference, reference type). */
  type MembershipStore = map<MembershipKey, Roles>

  /** The roles of the membership that application create adds. */
  function PrimaryOwnerRoles(): (r: Roles)
    ensures IsPrimaryOwner(r) && r.Keys == {ApplicationScope}
  {
    map[ApplicationScope := PrimaryOwnerRole]
  }

  predicate IsPrimaryOwner(roles: Roles) {
    ApplicationScope in roles && roles[ApplicationScope] == PrimaryOwnerRole
  }

  /** membershipRepository.findByReferencesAndRole(APPLICATION, ids, APPLICATION, PRIMARY_OWNER) */
  function PrimaryOwnerKeys(ms: MembershipStore, ids: set<string>): set<MembershipKey> {
    set k | k in ms && k.referenceType == ApplicationRef && k.referenceId in ids && IsPrimaryOwner(ms[k])
  }

  /** The users holding a PRIMARY_OWNER membership on application id. */
  function OwnersOf(ms: MembershipStore, id: string): set<string> {
    set k | k in ms && k.referenceType == ApplicationRef && k.referenceId == id && IsPrimaryOwner(ms[k]) :: k.userId
  }

  lemma OwnersOfMeansKey(ms: MembershipStore, id: string, u: string)
    ensures u in OwnersOf(ms, id) <==> (var k := MembershipKey(u, id, ApplicationRef); k in ms && IsPrimaryOwner(ms[k]))
  {
    var k := MembershipKey(u, id, ApplicationRef);
    if k in ms && IsPrimaryOwner(ms[k]) {
      assert k.userId == u;
    }
  }

  /** Every PRIMARY_OWNER membership of a batch names an owner of its application. */
  lemma KeysNameOwners(ms: MembershipStore, ids: set<string>)
    ensures forall k :: k in PrimaryOwnerKeys(ms, ids) ==> k.referenceId in ids && k.userId in OwnersOf(ms, k.referenceId)
  {
    forall k | k in PrimaryOwnerKeys(ms, ids) ensures k.userId in OwnersOf(ms, k.referenceId) {
      OwnersOfMeansKey(ms, k.referenceId, k.userId);
    }
  }

  /** The applications of ids that have at least one PRIMARY_OWNER membership. */
  function OwnedIds(ms: MembershipStore, ids: set<string>): set<string> {
    set k | k in PrimaryOwnerKeys(ms, ids) :: k.referenceId
  }

  // ---------------------------------------------------------------------
  // The primary-owner guard of the batch conversion.

  /** The guard as written: fewer PRIMARY_OWNER memberships than applications. */
  predicate CountGuardFails(ms: MembershipStore, ids: set<string>) {
    |ids| - |PrimaryOwnerKeys(ms, ids)| > 0
  }

  /** The guard as intended: some application of the batch has no PRIMARY_OWNER membership. */
  predicate SomeApplicationUnowned(ms: MembershipStore, ids: set<string>) {
    exists id :: id in ids && OwnersOf(ms, id) == {}
  }

  /** An application of the batch is owned exactly when it has a PRIMARY_OWNER membership. */
  lemma OwnedIdsExact(ms: MembershipStore, ids: set<string>)
    ensures forall id :: id in OwnedIds(ms, ids) <==> id in ids && OwnersOf(ms, id) != {}
  {
    KeysNameOwners(ms, ids);
    forall id | id in ids && OwnersOf(ms, id) != {} ensures id in OwnedIds(ms, ids) {
      var u :| u in OwnersOf(ms, id);
      OwnersOfMeansKey(ms, id, u);
      assert MembershipKey(u, id, ApplicationRef) in PrimaryOwnerKeys(ms, ids);
    }
  }

  /** The corrected guard trips exactly on the batches with an unowned application. */
  lemma UnownedGuardExact(ms: MembershipStore, ids: set<string>)
    ensures SomeApplicationUnowned(ms, ids) <==> !(ids <= OwnedIds(ms, ids))
  {
    OwnedIdsExact(ms, ids);
  }

  /**
   * The guard as written lets through a batch in which one application
   * has two primary owners and another has none.
   */
  lemma CountGuardMissesUnownedApplication()
    ensures var k1 := MembershipKey("alice", "a", ApplicationRef);
            var k2 := MembershipKey("bob", "a", ApplicationRef);
            var ms := map[k1 := PrimaryOwnerRoles(), k2 := PrimaryOwnerRoles()];
            !CountGuardFails(ms, {"a", "b"}) && SomeApplicationUnowned(ms, {"a", "b"})
  {
    var k1 := MembershipKey("alice", "a", ApplicationRef);
    var k2 := MembershipKey("bob", "a", ApplicationRef);
    var ms := map[k1 := PrimaryOwnerRoles(), k2 := PrimaryOwnerRoles()];
    assert PrimaryOwnerKeys(ms, {"a", "b"}) == {k1, k2};
    assert k1 != k2;
    assert |{k1, k2}| == 2;
    assert OwnersOf(ms, "b") == {};
  }

  predicate AtMostOneOwner(ms: MembershipStore, ids: set<string>) {
    forall id :: id in ids ==> |OwnersOf(ms, id)| <= 1
  }

  lemma {:induction false} SubsetSize<T>(a: set<T>, b: set<T>)
    requires a <= b
    ensures |a| <= |b|
    decreases |b|
  {
    if a != {} {
      var x :| x in a;
      SubsetSize(a - {x}, b - {x});
    }
  }

  lemma SingletonOfSmallSet<T>(s: set<T>, u: T)
    requires |s| <= 1 && u in s
    ensures s == {u}
  {
    var rest := s - {u};
    assert |rest| == |s| - 1;
  }

  lemma SingleApplicationKeys(ms: MembershipStore, id: string)
    requires |OwnersOf(ms, id)| <= 1
    ensures |PrimaryOwnerKeys(ms, {id})| == (if OwnersOf(ms, id) == {} then 0 else 1)
  {
    if OwnersOf(ms, id) == {} {
      KeysNameOwners(ms, {id});
      assert PrimaryOwnerKeys(ms, {id}) == {};
    } else {
      var u :| u in OwnersOf(ms, id);
      SingletonOfSmallSet(OwnersOf(ms, id), u);
      var k := MembershipKey(u, id, ApplicationRef);
      OwnersOfMeansKey(ms, id, u);
      KeysNameOwners(ms, {id});
      assert PrimaryOwnerKeys(ms, {id}) == {k};
    }
  }

  lemma KeysSplit(ms: MembershipStore, rest: set<string>, id: string)
    requires id !in rest
    ensures PrimaryOwnerKeys(ms, rest + {id}) == PrimaryOwnerKeys(ms, rest) + PrimaryOwnerKeys(ms, {id})
    ensures PrimaryOwnerKeys(ms, rest) !! PrimaryOwnerKeys(ms, {id})
  {
  }

  lemma OwnedIdsSplit(ms: MembershipStore, rest: set<string>, id: string)
    requires id !in rest
    ensures id !in OwnedIds(ms, rest)
    ensures OwnedIds(ms, rest + {id}) == OwnedIds(ms, rest) + (if OwnersOf(ms, id) == {} then {} else {id})
  {
    OwnedIdsExact(ms, rest + {id});
    OwnedIdsExact(ms, rest);
  }

  /** With at most one owner per application, counting memberships counts owned applications. */
  lemma {:induction false} KeysCountOwnedIds(ms: MembershipStore, ids: set<string>)
    requires AtMostOneOwner(ms, ids)
    ensures |PrimaryOwnerKeys(ms, ids)| == |OwnedIds(ms, ids)|
    decreases |ids|
  {
    if ids != {} {
      var id :| id in ids;
      var rest := ids - {id};
      assert ids == rest + {id};
      KeysCountOwnedIds(ms, rest);
      SingleApplicationKeys(ms, id);
      KeysSplit(ms, rest, id);
      OwnedIdsSplit(ms, rest, id);
      var restKeys, idKeys := PrimaryOwnerKeys(ms, rest), PrimaryOwnerKeys(ms, {id});
      assert restKeys * idKeys == {};
      assert |PrimaryOwnerKeys(ms, ids)| == |restKeys| + |idKeys|;
    }
  }

  /** When no application has two primary owners, the guard as written and the corrected guard agree. */
  lemma GuardsAgreeUnderSingleOwnership(ms: MembershipStore, ids: set<string>)
    requires AtMostOneOwner(ms, ids)
    ensures CountGuardFails(ms, ids) <==> SomeApplicationUnowned(ms, ids)
  {
    KeysCountOwnedIds(ms, ids);
    UnownedGuardExact(ms, ids);
    OwnedIdsExact(ms, ids);
    if !(ids <= OwnedIds(ms, ids)) {
      var x :| x in ids && x !in OwnedIds(ms, ids);
      assert OwnedIds(ms, ids) <= ids - {x};
      SubsetSize(OwnedIds(ms, ids), ids - {x});
    } else {
      assert OwnedIds(ms, ids) == ids;
    }
  }

  /** There are no more owned applications than PRIMARY_OWNER memberships: each owned one is named by a membership. */
  lemma {:induction false} OwnedIdsAtMostKeys(keys: set<MembershipKey>)
    ensures |(set k | k in keys :: k.referenceId)| <= |keys|
    decreases |keys|
  {
    if keys != {} {
      var k :| k in keys;
      var rest := keys - {k};
      OwnedIdsAtMostKeys(rest);
      assert (set x | x in keys :: x.referenceId) == (set x | x in rest :: x.referenceId) + {k.referenceId};
    }
  }

  /** Every batch the guard as written rejects, the corrected guard rejects too. */
  lemma CountGuardOnlyOnUnowned(ms: MembershipStore, ids: set<string>)
    ensures CountGuardFails(ms, ids) ==> SomeApplicationUnowned(ms, ids)
  {
    if !SomeApplicationUnowned(ms, ids) {
      UnownedGuardExact(ms, ids);
      SubsetSize(ids, OwnedIds(ms, ids));
      OwnedIdsAtMostKeys(PrimaryOwnerKeys(ms, ids));
    }
  }

  /** When no application has two primary owners, the number of unowned applications is the Java's poMissing. */
  lemma MissingCountAgrees(ms: MembershipStore, ids: set<string>)
    requires AtMostOneOwner(ms, ids)
    ensures |ids - OwnedIds(ms, ids)| == |ids| - |PrimaryOwnerKeys(ms, ids)|
  {
    KeysCountOwnedIds(ms, ids);
    OwnedIdsExact(ms, ids);
    var owned := OwnedIds(ms, ids);
    assert owned <= ids;
    assert ids == (ids - owned) + owned;
    assert (ids - owned) !! owned;
  }

  // ---------------------------------------------------------------------
  // Referential integrity of the stores.

  /**
   * Every APPLICATION membership points at a stored application, and every
   * stored application has exactly one PRIMARY_OWNER.
   */
  ghost predicate OwnershipConsistent(apps: map<string, Application>, ms: MembershipStore) {
    && (forall k :: k in ms && k.referenceType == ApplicationRef ==> k.referenceId in apps)
    && (forall id :: id in apps ==> |OwnersOf(ms, id)| == 1)
  }

  /** Two stores that agree on every APPLICATION membership. */
  ghost predicate SameApplicationMemberships(ms: MembershipStore, ms': MembershipStore) {
    forall k: MembershipKey :: k.referenceType == ApplicationRef ==> (k in ms <==> k in ms') && (k in ms ==> ms[k] == ms'[k])
  }

  lemma SameApplicationMembershipsKeepOwners(ms: MembershipStore, ms': MembershipStore, id: string)
    requires SameApplicationMemberships(ms, ms')
    ensures OwnersOf(ms, id) == OwnersOf(ms', id)
  {
    forall u ensures u in OwnersOf(ms, id) <==> u in OwnersOf(ms', id) {
      OwnersOfMeansKey(ms, id, u);
      OwnersOfMeansKey(ms', id, u);
    }
  }

  /** Changing only non-APPLICATION memberships keeps the integrity rule. */
  lemma OtherMembershipsKeepConsistency(apps: map<string, Application>, ms: MembershipStore, ms': MembershipStore)
    requires OwnershipConsistent(apps, ms)
    requires SameApplicationMemberships(ms, ms')
    ensures OwnershipConsistent(apps, ms')
  {
    forall id | id in apps ensures |OwnersOf(ms', id)| == 1 {
      SameApplicationMembershipsKeepOwners(ms, ms', id);
    }
  }

  /**
   * Storing a new application together with one PRIMARY_OWNER membership
   * for it keeps the integrity rule, and that user is its only owner.
   */
  lemma {:induction false} NewApplicationKeepsConsistency(apps: map<string, Application>, ms: MembershipStore,
                                                          id: string, app: Application, username: string)
    requires OwnershipConsistent(apps, ms)
    requires id !in apps
    ensures var ms' := ms[MembershipKey(username, id, ApplicationRef) := PrimaryOwnerRoles()];
            OwnershipConsistent(apps[id := app], ms') && OwnersOf(ms', id) == {username}
  {
    var key := MembershipKey(username, id, ApplicationRef);
    var ms' := ms[key := PrimaryOwnerRoles()];
    forall u ensures u in OwnersOf(ms', id) <==> u == username {
      OwnersOfMeansKey(ms', id, u);
    }
    assert OwnersOf(ms', id) == {username};
    assert |OwnersOf(ms', id)| == 1;
    forall k | k in ms' && k.referenceType == ApplicationRef ensures k.referenceId in apps[id := app] {
      if k != key {
        assert k in ms;
      }
    }
    forall other | other in apps ensures |OwnersOf(ms', other)| == 1 {
      forall u ensures u in OwnersOf(ms, other) <==> u in OwnersOf(ms', other) {
        OwnersOfMeansKey(ms, other, u);
        OwnersOfMeansKey(ms', other, u);
      }
      assert OwnersOf(ms, other) == OwnersOf(ms', other);
    }
  }

  /** On consistent stores every batch of stored applications passes both guards: each has exactly one owner. */
  lemma ConsistentStoresHaveOneOwner(apps: map<string, Application>, ms: MembershipStore, ids: set<string>)
    requires OwnershipConsistent(apps, ms)
    requires ids <= apps.Keys
    ensures AtMostOneOwner(ms, ids) && !SomeApplicationUnowned(ms, ids) && !CountGuardFails(ms, ids)
  {
    GuardsAgreeUnderSingleOwnership(ms, ids);
  }

  /** Replacing a stored application's record keeps the integrity rule. */
  lemma ReplacedApplicationKeepsConsistency(apps: map<string, Application>, ms: MembershipStore, id: string, app: Application)
    requires OwnershipConsistent(apps, ms)
    requires id in apps
    ensures OwnershipConsistent(apps[id := app], ms)
  {
    assert apps[id := app].Keys == apps.Keys;
  }

  // ---------------------------------------------------------------------
  // Default roles of a new user.

  /**
   * MembershipService.addOrUpdateMember: grant role name in scope on the
   * membership of key, creating the membership when there is none.
   */
  function AddOrUpdateMember(ms: MembershipStore, key: MembershipKey, scope: RoleScope, name: string): (r: MembershipStore)
    ensures r.Keys == ms.Keys + {key}
    ensures scope in r[key] && r[key][scope] == name
    ensures forall k :: k in ms && k != key ==> r[k] == ms[k]
  {
    if key in ms then ms[key := ms[key][scope := name]] else ms[key := map[scope := name]]
  }

  function ManagementKey(username: string): MembershipKey {
    MembershipKey(username, DefaultReferenceId, ManagementRef)
  }

  function PortalKey(username: string): MembershipKey {
    MembershipKey(username, DefaultReferenceId, PortalRef)
  }

  /** One step of addDefaultMembership's loop: MANAGEMENT and PORTAL roles are granted, others skipped. */
  function ApplyDefaultRole(ms: MembershipStore, username: string, role: RoleId): MembershipStore {
    match role.scope
    case ManagementScope => AddOrUpdateMember(ms, ManagementKey(username), ManagementScope, role.name)
    case PortalScope => AddOrUpdateMember(ms, PortalKey(username), PortalScope, role.name)
    case _ => ms
  }

  /** The whole loop of addDefaultMembership, roles taken in list order. */
  function ApplyDefaultRoles(ms: MembershipStore, username: string, roles: seq<RoleId>): MembershipStore {
    if roles == [] then ms
    else ApplyDefaultRole(ApplyDefaultRoles(ms, username, roles[..|roles| - 1]), username, roles[|roles| - 1])
  }

  /** RoleService found at least one default role for the MANAGEMENT and PORTAL scopes. */
  predicate HasDefaultRoles(defaultRoles: Option<seq<RoleId>>) {
    defaultRoles.Some? && defaultRoles.value != []
  }

  predicate IsDefaultScope(scope: RoleScope) {
    scope == ManagementScope || scope == PortalScope
  }

  /** The name of the last role of the given scope in the list. */
  function LastNameOfScope(roles: seq<RoleId>, scope: RoleScope): Option<string> {
    if roles == [] then None
    else if roles[|roles| - 1].scope == scope then Some(roles[|roles| - 1].name)
    else LastNameOfScope(roles[..|roles| - 1], scope)
  }

  function DefaultKeyOf(username: string, scope: RoleScope): MembershipKey
    requires IsDefaultScope(scope)
  {
    if scope == ManagementScope then ManagementKey(username) else PortalKey(username)
  }

  /** Only the user's two DEFAULT memberships change; every other membership is kept. */
  lemma {:induction false} DefaultRolesTouchOnlyDefaultMemberships(ms: MembershipStore, username: string, roles: seq<RoleId>)
    ensures ApplyDefaultRoles(ms, username, roles).Keys <= ms.Keys + {ManagementKey(username), PortalKey(username)}
    ensures forall k :: k in ms && k != ManagementKey(username) && k != PortalKey(username) ==>
              k in ApplyDefaultRoles(ms, username, roles) && ApplyDefaultRoles(ms, username, roles)[k] == ms[k]
  {
    if roles != [] {
      DefaultRolesTouchOnlyDefaultMemberships(ms, username, roles[..|roles| - 1]);
    }
  }

  /**
   * After the loop, the user's DEFAULT membership of a MANAGEMENT or PORTAL
   * scope grants the last role of that scope in the list; when the list has
   * none, that membership is as it was.
   */
  lemma {:induction false} DefaultRoleGranted(ms: MembershipStore, username: string, roles: seq<RoleId>, scope: RoleScope)
    requires IsDefaultScope(scope)
    ensures var r := ApplyDefaultRoles(ms, username, roles);
            var key := DefaultKeyOf(username, scope);
            match LastNameOfScope(roles, scope)
            case Some(name) => key in r && scope in r[key] && r[key][scope] == name
            case None => (key in r <==> key in ms) && (key in ms && scope in ms[key] ==> scope in r[key] && r[key][scope] == ms[key][scope])
  {
    if roles != [] {
      var init := roles[..|roles| - 1];
      var last := roles[|roles| - 1];
      DefaultRoleGranted(ms, username, init, scope);
    }
  }

  /** The loop skips roles of any other scope. */
  function DefaultScopeRoles(roles: seq<RoleId>): (r: seq<RoleId>)
    ensures forall i :: 0 <= i < |r| ==> IsDefaultScope(r[i].scope)
    ensures forall role :: multiset(r)[role] == if IsDefaultScope(role.scope) then multiset(roles)[role] else 0
  {
    if roles == [] then []
    else
      var init, last := roles[..|roles| - 1], roles[|roles| - 1];
      assert roles == init + [last];
      if IsDefaultScope(last.scope) then DefaultScopeRoles(init) + [last] else DefaultScopeRoles(init)
  }

  /** The skipping keeps the order: skipping over a concatenation is the concatenation of the skipped parts. */
  lemma {:induction false} DefaultScopeRolesKeepOrder(a: seq<RoleId>, b: seq<RoleId>)
    ensures DefaultScopeRoles(a + b) == DefaultScopeRoles(a) + DefaultScopeRoles(b)
    decreases |b|
  {
    if b != [] {
      var init := b[..|b| - 1];
      assert (a + b)[..|a + b| - 1] == a + init;
      assert (a + b)[|a + b| - 1] == b[|b| - 1];
      DefaultScopeRolesKeepOrder(a, init);
    } else {
      assert a + b == a;
    }
  }

  /** Applying a list with one more role applies that role last. */
  lemma ApplyDefaultRolesSnoc(ms: MembershipStore, username: string, roles: seq<RoleId>, last: RoleId)
    ensures ApplyDefaultRoles(ms, username, roles + [last]) == ApplyDefaultRole(ApplyDefaultRoles(ms, username, roles), username, last)
  {
    var extended := roles + [last];
    assert extended[..|extended| - 1] == roles;
  }

  lemma {:induction false} OtherScopesIgnored(ms: MembershipStore, username: string, roles: seq<RoleId>)
    ensures ApplyDefaultRoles(ms, username, roles) == ApplyDefaultRoles(ms, username, DefaultScopeRoles(roles))
  {
    if roles != [] {
      var init, last := roles[..|roles| - 1], roles[|roles| - 1];
      OtherScopesIgnored(ms, username, init);
      ApplyDefaultRolesSnoc(ms, username, DefaultScopeRoles(init), last);
    }
  }

  /** Default roles never touch an APPLICATION membership. */
  lemma DefaultRolesKeepApplicationMemberships(ms: MembershipStore, username: string, roles: seq<RoleId>)
    ensures SameApplicationMemberships(ms, ApplyDefaultRoles(ms, username, roles))
  {
    DefaultRolesTouchOnlyDefaultMemberships(ms, username, roles);
  }

  // ---------------------------------------------------------------------
  // Role loading of the user view.

  /**
   * membershipService.getRole(refType, DEFAULT, username, scope): the role
   * the user's DEFAULT membership grants in scope, when RoleService knows it.
   */
  function RoleOf(ms: MembershipStore, catalog: map<RoleId, Permissions>, username: string,
                  refType: ReferenceType, scope: RoleScope): (r: Option<UserRole>)
    ensures r.Some? ==> r.value.scope == scope
    ensures r.Some? <==> (var key := MembershipKey(username, DefaultReferenceId, refType);
                          key in ms && scope in ms[key] && RoleId(scope, ms[key][scope]) in catalog)
  {
    var key := MembershipKey(username, DefaultReferenceId, refType);
    if key in ms && scope in ms[key] && RoleId(scope, ms[key][scope]) in catalog then
      var name := ms[key][scope];
      Some(UserRole(scope, name, catalog[RoleId(scope, name)]))
    else None
  }

  function AsSet<T>(o: Option<T>): set<T> {
    if o.Some? then {o.value} else {}
  }

  /** The roles loaded into a user view: at most one PORTAL and one MANAGEMENT role. */
  function LoadedRoles(ms: MembershipStore, catalog: map<RoleId, Permissions>, username: string): (r: set<UserRole>)
    ensures |r| <= 2
    ensures forall role :: role in r <==>
              || (role.scope == PortalScope && RoleOf(ms, catalog, username, PortalRef, PortalScope) == Some(role))
              || (role.scope == ManagementScope && RoleOf(ms, catalog, username, ManagementRef, ManagementScope) == Some(role))
    ensures forall role :: role in r ==> IsDefaultScope(role.scope)
    ensures forall role, role' :: role in r && role' in r && role.scope == role'.scope ==> role == role'
  {
    var portal := RoleOf(ms, catalog, username, PortalRef, PortalScope);
    var management := RoleOf(ms, catalog, username, ManagementRef, ManagementScope);
    assert |AsSet(portal) + AsSet(management)| <= |AsSet(portal)| + |AsSet(management)|;
    AsSet(portal) + AsSet(management)
  }
}
