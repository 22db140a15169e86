/**
 * The pure parts of the application service: the request conversion
 * (trimming), the default-group merge, the records create, update and
 * archive write, the ACTIVE-filtered finders, and the archive cascade.
 */
module Applications {
  import opened Wrappers
  import opened Text
  import opened Model
  import opened Users
  import opened Memberships

  const DefaultApplicationName: string := "Default application"
  const DefaultApplicationDescription: string := "My default application"

  /** The request connect makes for a user's first connection. */
  function DefaultApplicationRequest(): ApplicationRequest {
    ApplicationRequest(DefaultApplicationName, DefaultApplicationDescription, None, None)
  }

  function TrimOption(t: Option<string>): Option<string> {
    if t.Some? then Some(Trim(t.value)) else None
  }

  /** The request entity converted to a record: name, description and type trimmed, groups as given. */
  function TrimmedRequest(req: ApplicationRequest): (r: ApplicationRequest)
    ensures r.groups == req.groups
    ensures r.appType.Some? <==> req.appType.Some?
  {
    ApplicationRequest(Trim(req.name), Trim(req.description), TrimOption(req.appType), req.groups)
  }

  /** Converting a converted request changes nothing. */
  lemma TrimmedRequestIdempotent(req: ApplicationRequest)
    ensures TrimmedRequest(TrimmedRequest(req)) == TrimmedRequest(req)
  {
    TrimIdempotent(req.name);
    TrimIdempotent(req.description);
    if req.appType.Some? {
      TrimIdempotent(req.appType.value);
    }
  }

  function GroupSet(groups: Option<set<string>>): set<string> {
    if groups.Some? then groups.value else {}
  }

  /** The groups of a new application: those requested, plus the groups applied on APPLICATION_CREATE. */
  function MergeDefaultGroups(groups: Option<set<string>>, defaults: set<string>): (r: Option<set<string>>)
    ensures GroupSet(r) == GroupSet(groups) + defaults
    ensures r.None? <==> groups.None? && defaults == {}
    ensures defaults == {} ==> r == groups
  {
    if defaults != {} && groups.None? then Some(defaults)
    else if defaults != {} then Some(groups.value + defaults)
    else groups
  }

  /** GroupService.findByIds fails on a non-empty request naming an unknown group. */
  predicate GroupsMissing(groups: Option<set<string>>, known: set<string>) {
    groups.Some? && groups.value != {} && !(groups.value <= known)
  }

  function MissingGroups(groups: Option<set<string>>, known: set<string>): set<string> {
    GroupSet(groups) - known
  }

  /** The record create stores under the generated id. */
  function NewApplicationRecord(req: ApplicationRequest, id: string, defaults: set<string>, now: Time): (r: Application)
    ensures r.id == id && r.status == Active
    ensures r.createdAt == Some(now) && r.updatedAt == r.createdAt
    ensures r.name == Trim(req.name) && r.description == Trim(req.description) && r.appType == TrimOption(req.appType)
    ensures GroupSet(r.groups) == GroupSet(req.groups) + defaults
    ensures r.groups.None? <==> req.groups.None? && defaults == {}
  {
    var t := TrimmedRequest(req);
    Application(id, t.name, t.description, t.appType, Active, MergeDefaultGroups(t.groups, defaults), Some(now), Some(now))
  }

  /** The record update stores: a fresh conversion of the request that keeps the id and createdAt, and is ACTIVE. */
  function UpdatedApplicationRecord(req: ApplicationRequest, previous: Application, now: Time): (r: Application)
    ensures r.id == previous.id && r.createdAt == previous.createdAt
    ensures r.status == Active && r.updatedAt == Some(now)
    ensures r.name == Trim(req.name) && r.description == Trim(req.description) && r.appType == TrimOption(req.appType)
    ensures r.groups == req.groups
  {
    var t := TrimmedRequest(req);
    Application(previous.id, t.name, t.description, t.appType, Active, t.groups, previous.createdAt, Some(now))
  }

  /** The record archive stores: only status and updatedAt change. */
  function ArchivedRecord(app: Application, now: Time): (r: Application)
    ensures r.status == Archived && r.updatedAt == Some(now)
    ensures r.(status := app.status, updatedAt := app.updatedAt) == app
  {
    app.(updatedAt := Some(now), status := Archived)
  }

  /** PrimaryOwnerEntity built from the owner's user view. */
  function PrimaryOwnerOf(u: User): (r: PrimaryOwner)
    ensures r.username == u.username && r.email == u.email
    ensures r.firstname == u.firstname && r.lastname == u.lastname
  {
    PrimaryOwner(u.username, u.lastname, u.firstname, u.email)
  }

  /**
   * A view the batch conversion may return: the stored record, with the
   * primary owner entity of one of its owners when that owner's user is
   * known, and none when it is not.
   */
  ghost predicate ViewConsistent(apps: map<string, Application>, ms: MembershipStore, users: map<string, User>, v: ApplicationView) {
    && v.record.id in apps && v.record == apps[v.record.id]
    && match v.primaryOwner
       case Some(p) => exists u :: u in OwnersOf(ms, v.record.id) && u in users && p == PrimaryOwnerOf(users[u])
       case None => exists u :: u in OwnersOf(ms, v.record.id) && u !in users
  }

  /** With a single owner the view is fully determined. */
  lemma SingleOwnerDeterminesView(apps: map<string, Application>, ms: MembershipStore, users: map<string, User>,
                                  v: ApplicationView, owner: string)
    requires ViewConsistent(apps, ms, users, v)
    requires OwnersOf(ms, v.record.id) == {owner}
    ensures v.record == apps[v.record.id]
    ensures v.primaryOwner == if owner in users then Some(PrimaryOwnerOf(users[owner])) else None
  {
  }

  // ---------------------------------------------------------------------
  // The finders: every one keeps ACTIVE applications only.

  predicate IsActive(apps: map<string, Application>, id: string) {
    id in apps && apps[id].status == Active
  }

  /** applicationRepository.findAll(ACTIVE) */
  function ActiveIds(apps: map<string, Application>): set<string> {
    set id | id in apps && apps[id].status == Active
  }

  /** applicationRepository.findByGroups(groupIds, ACTIVE) */
  function ActiveInGroups(apps: map<string, Application>, groupIds: set<string>): set<string> {
    set id | id in apps && apps[id].status == Active && apps[id].groups.Some? && apps[id].groups.value * groupIds != {}
  }

  /** applicationRepository.findByName(name), filtered on ACTIVE. */
  function ActiveNamed(apps: map<string, Application>, name: string): set<string> {
    set id | id in apps && apps[id].status == Active && apps[id].name == name
  }

  /**
   * update looks the application up whatever its status and stores it
   * ACTIVE, so updating an archived application brings it back into the
   * ACTIVE finders: archiving is not final.
   */
  lemma UpdateReactivatesArchived(apps: map<string, Application>, id: string, req: ApplicationRequest, archivedAt: Time, now: Time)
    requires id in apps
    ensures var archived := apps[id := ArchivedRecord(apps[id], archivedAt)];
            var updated := archived[id := UpdatedApplicationRecord(req, archived[id], now)];
            && id !in ActiveIds(archived)
            && id in ActiveIds(updated)
            && updated[id].createdAt == apps[id].createdAt
  {
  }

  /** The applications the user is a direct member of. */
  function DirectApplicationIds(ms: MembershipStore, username: string): set<string> {
    set k | k in ms && k.userId == username && k.referenceType == ApplicationRef :: k.referenceId
  }

  /** The groups in which the user's membership has a role of the APPLICATION scope. */
  function ApplicationGroupIds(ms: MembershipStore, username: string): set<string> {
    set k | k in ms && k.userId == username && k.referenceType == GroupRef && ApplicationScope in ms[k] :: k.referenceId
  }

  /** findByUser: the ACTIVE applications the user is a member of, and the ACTIVE applications of those groups. */
  function AccessibleApplications(apps: map<string, Application>, ms: MembershipStore, username: string): (r: set<string>)
    ensures r <= ActiveIds(apps)
  {
    (set id | id in DirectApplicationIds(ms, username) && IsActive(apps, id)) + ActiveInGroups(apps, ApplicationGroupIds(ms, username))
  }

  /** The user reaches an application through a group of it in which the user holds an APPLICATION role. */
  predicate ReachedThroughGroup(apps: map<string, Application>, ms: MembershipStore, username: string, id: string)
    requires id in apps
  {
    exists g :: g in GroupSet(apps[id].groups) && g in ApplicationGroupIds(ms, username)
  }

  /** What findByUser reaches, stated membership by membership. */
  lemma AccessibleApplicationsExact(apps: map<string, Application>, ms: MembershipStore, username: string, id: string)
    ensures id in AccessibleApplications(apps, ms, username) <==>
            IsActive(apps, id) &&
            (MembershipKey(username, id, ApplicationRef) in ms || ReachedThroughGroup(apps, ms, username, id))
  {
    var direct := MembershipKey(username, id, ApplicationRef);
    if id in DirectApplicationIds(ms, username) {
      var k :| k in ms && k.userId == username && k.referenceType == ApplicationRef && k.referenceId == id;
      assert k == direct;
    }
    if direct in ms {
      assert id in DirectApplicationIds(ms, username);
    }
    if IsActive(apps, id) && ReachedThroughGroup(apps, ms, username, id) {
      var g :| g in GroupSet(apps[id].groups) && g in ApplicationGroupIds(ms, username);
      assert g in apps[id].groups.value * ApplicationGroupIds(ms, username);
    }
  }

  /** A group of the user is one where the user's GROUP membership holds an APPLICATION role. */
  lemma ApplicationGroupIdsExact(ms: MembershipStore, username: string, g: string)
    ensures g in ApplicationGroupIds(ms, username) <==>
            MembershipKey(username, g, GroupRef) in ms && ApplicationScope in ms[MembershipKey(username, g, GroupRef)]
  {
    var key := MembershipKey(username, g, GroupRef);
    if g in ApplicationGroupIds(ms, username) {
      var k :| k in ms && k.userId == username && k.referenceType == GroupRef && ApplicationScope in ms[k] && k.referenceId == g;
      assert k == key;
    }
    if key in ms && ApplicationScope in ms[key] {
      assert key.referenceId == g;
    }
  }

  /** An archived application is listed by no finder. */
  lemma ArchivedApplicationIsHidden(apps: map<string, Application>, ms: MembershipStore, id: string, now: Time,
                                    username: string, name: string, groupIds: set<string>)
    requires id in apps
    ensures var apps' := apps[id := ArchivedRecord(apps[id], now)];
            && id !in ActiveIds(apps') && id !in ActiveInGroups(apps', groupIds) && id !in ActiveNamed(apps', name)
            && id !in AccessibleApplications(apps', ms, username)
  {
  }

  // ---------------------------------------------------------------------
  // The archive cascade.

  function KeyNames(keys: seq<ApiKey>): (r: seq<string>)
    ensures |r| == |keys|
    ensures forall i :: 0 <= i < |keys| ==> r[i] == keys[i].key
  {
    if keys == [] then [] else KeyNames(keys[..|keys| - 1]) + [keys[|keys| - 1].key]
  }

  function DeletedNames(keys: seq<ApiKey>): seq<string> {
    if keys == [] then []
    else DeletedNames(keys[..|keys| - 1]) + (if keys[|keys| - 1].deletion == Deleted then [keys[|keys| - 1].key] else [])
  }

  /** Every key of every subscription, in the order archive asks for their deletion. */
  function AllKeys(subs: seq<Subscription>): seq<string> {
    if subs == [] then [] else AllKeys(subs[..|subs| - 1]) + KeyNames(subs[|subs| - 1].apiKeys)
  }

  /** The keys whose deletion succeeded. */
  function DeletedKeys(subs: seq<Subscription>): seq<string> {
    if subs == [] then [] else DeletedKeys(subs[..|subs| - 1]) + DeletedNames(subs[|subs| - 1].apiKeys)
  }

  function SubscriptionIds(subs: seq<Subscription>): (r: seq<string>)
    ensures |r| == |subs|
    ensures forall i :: 0 <= i < |subs| ==> r[i] == subs[i].id
  {
    if subs == [] then [] else SubscriptionIds(subs[..|subs| - 1]) + [subs[|subs| - 1].id]
  }

  /** The subscriptions close accepted. */
  function ClosedSubscriptions(subs: seq<Subscription>): seq<string> {
    if subs == [] then []
    else ClosedSubscriptions(subs[..|subs| - 1]) + (if subs[|subs| - 1].closable then [subs[|subs| - 1].id] else [])
  }

  /** The subscriptions close refused as not closable. */
  function NotClosable(subs: seq<Subscription>): seq<string> {
    if subs == [] then []
    else NotClosable(subs[..|subs| - 1]) + (if subs[|subs| - 1].closable then [] else [subs[|subs| - 1].id])
  }

  /** Everything archive asks of its collaborators, and what they accepted. */
  function CascadeReport(subs: seq<Subscription>): ArchiveReport {
    ArchiveReport(AllKeys(subs), DeletedKeys(subs), SubscriptionIds(subs), ClosedSubscriptions(subs))
  }

  /**
   * The cascade of archive, subscription by subscription: every API key is
   * revoked (a failed revocation is skipped), then the subscription is
   * closed (a refused close is skipped).
   */
  method CloseSubscriptions(subscriptions: seq<Subscription>) returns (report: ArchiveReport)
    ensures report == CascadeReport(subscriptions)
  {
    report := ArchiveReport([], [], [], []);
    for i := 0 to |subscriptions|
      invariant report == CascadeReport(subscriptions[..i])
    {
      var subscription := subscriptions[i];
      assert subscriptions[..i + 1][..i] == subscriptions[..i];
      var keys := subscription.apiKeys;
      for j := 0 to |keys|
        invariant report.keysAttempted == AllKeys(subscriptions[..i]) + KeyNames(keys[..j])
        invariant report.keysDeleted == DeletedKeys(subscriptions[..i]) + DeletedNames(keys[..j])
        invariant report.closesAttempted == SubscriptionIds(subscriptions[..i])
        invariant report.closed == ClosedSubscriptions(subscriptions[..i])
      {
        assert keys[..j + 1][..j] == keys[..j];
        report := report.(keysAttempted := report.keysAttempted + [keys[j].key]);
        if keys[j].deletion == Deleted {
          report := report.(keysDeleted := report.keysDeleted + [keys[j].key]);
        }
      }
      assert keys[..|keys|] == keys;
      report := report.(closesAttempted := report.closesAttempted + [subscription.id]);
      if subscription.closable {
        report := report.(closed := report.closed + [subscription.id]);
      }
    }
    assert subscriptions[..|subscriptions|] == subscriptions;
  }

  /** Every subscription is either closed or refused, never both, never neither. */
  lemma {:induction false} CloseAccounting(subs: seq<Subscription>)
    ensures |ClosedSubscriptions(subs)| + |NotClosable(subs)| == |subs|
    ensures multiset(ClosedSubscriptions(subs)) + multiset(NotClosable(subs)) == multiset(SubscriptionIds(subs))
  {
    if subs != [] {
      CloseAccounting(subs[..|subs| - 1]);
    }
  }

  /** A subscription that is not closable leaves at most N - 1 subscriptions closed. */
  lemma RefusedCloseBoundsClosed(subs: seq<Subscription>, i: nat)
    requires i < |subs| && !subs[i].closable
    ensures |ClosedSubscriptions(subs)| <= |subs| - 1
  {
    CloseAccounting(subs);
    NotClosableListed(subs, i);
  }

  lemma {:induction false} NotClosableListed(subs: seq<Subscription>, i: nat)
    requires i < |subs| && !subs[i].closable
    ensures subs[i].id in NotClosable(subs)
  {
    if i < |subs| - 1 {
      NotClosableListed(subs[..|subs| - 1], i);
    }
  }

  lemma {:induction false} DeletedNamesAmongKeys(keys: seq<ApiKey>)
    ensures multiset(DeletedNames(keys)) <= multiset(KeyNames(keys))
  {
    if keys != [] {
      DeletedNamesAmongKeys(keys[..|keys| - 1]);
    }
  }

  /** Only keys archive asked to delete are deleted. */
  lemma {:induction false} DeletedAmongAttempted(subs: seq<Subscription>)
    ensures multiset(DeletedKeys(subs)) <= multiset(AllKeys(subs))
  {
    if subs != [] {
      DeletedAmongAttempted(subs[..|subs| - 1]);
      DeletedNamesAmongKeys(subs[|subs| - 1].apiKeys);
    }
  }

  /** Every key of every subscription is asked to be deleted. */
  lemma {:induction false} EveryKeyAttempted(subs: seq<Subscription>, i: nat, j: nat)
    requires i < |subs| && j < |subs[i].apiKeys|
    ensures subs[i].apiKeys[j].key in AllKeys(subs)
  {
    if i < |subs| - 1 {
      EveryKeyAttempted(subs[..|subs| - 1], i, j);
    } else {
      KeyNameListed(subs[i].apiKeys, j);
    }
  }

  lemma {:induction false} KeyNameListed(keys: seq<ApiKey>, j: nat)
    requires j < |keys|
    ensures KeyNames(keys)[j] == keys[j].key
  {
    if j < |keys| - 1 {
      KeyNameListed(keys[..|keys| - 1], j);
    }
  }

  // ---------------------------------------------------------------------
  // The batch conversion: a set of stored applications to their views.

  /**
   * The first pass of the batch conversion, over its PRIMARY_OWNER
   * memberships in any order: the user of each membership becomes the
   * owner of its application (a later membership of the same application
   * replaces an earlier one).
   */
  method AssignOwners(keys: set<MembershipKey>) returns (applicationToUser: map<string, string>)
    ensures OwnerPerApplication(keys, applicationToUser)
  {
    var pending := keys;
    applicationToUser := map[];
    while pending != {}
      invariant pending <= keys
      invariant forall k :: k in keys && k !in pending ==> k.referenceId in applicationToUser
      invariant forall id :: id in applicationToUser ==> exists k :: k in keys && k.referenceId == id && k.userId == applicationToUser[id]
      decreases |pending|
    {
      var k :| k in pending;
      applicationToUser := applicationToUser[k.referenceId := k.userId];
      pending := pending - {k};
    }
  }

  /** The second pass: the user of every PRIMARY_OWNER membership, in any order. */
  method ListOwners(keys: set<MembershipKey>) returns (owners: seq<string>)
    ensures ListsUsersOf(keys, owners)
  {
    var pending := keys;
    owners := [];
    while pending != {}
      invariant pending <= keys
      invariant |owners| + |pending| == |keys|
      invariant forall user :: multiset(owners)[user] == |MembershipsOfUser(keys - pending, user)|
      decreases |pending|
    {
      var k :| k in pending;
      ListOneMore(keys - pending, owners, k);
      assert keys - (pending - {k}) == (keys - pending) + {k};
      owners := owners + [k.userId];
      pending := pending - {k};
    }
    assert keys - pending == keys;
    CountsListUsers(keys, owners);
  }

  /** Listing one more membership keeps every user's count equal to its memberships. */
  lemma ListOneMore(done: set<MembershipKey>, owners: seq<string>, k: MembershipKey)
    requires k !in done
    requires forall user :: multiset(owners)[user] == |MembershipsOfUser(done, user)|
    ensures forall user :: multiset(owners + [k.userId])[user] == |MembershipsOfUser(done + {k}, user)|
  {
    forall user ensures multiset(owners + [k.userId])[user] == |MembershipsOfUser(done + {k}, user)| {
      MembershipsOfUserStep(done, k, user);
    }
  }

  /** Counts that match the memberships put every member's user in the list, and nothing else. */
  lemma CountsListUsers(keys: set<MembershipKey>, owners: seq<string>)
    requires forall user :: multiset(owners)[user] == |MembershipsOfUser(keys, user)|
    ensures forall k :: k in keys ==> k.userId in owners
    ensures forall i :: 0 <= i < |owners| ==> exists k :: k in keys && k.userId == owners[i]
  {
    forall k | k in keys ensures k.userId in owners {
      assert k in MembershipsOfUser(keys, k.userId);
      assert multiset(owners)[k.userId] > 0;
    }
    forall i | 0 <= i < |owners| ensures exists k :: k in keys && k.userId == owners[i] {
      assert owners[i] in multiset(owners);
      var k :| k in MembershipsOfUser(keys, owners[i]);
    }
  }

  /** An owner of two applications is listed twice: a list naming the other owner twice instead does not qualify. */
  lemma OwnerOfTwoListedTwice()
    ensures !ListsUsersOf({MembershipKey("alice", "a", ApplicationRef), MembershipKey("alice", "b", ApplicationRef),
                           MembershipKey("bob", "c", ApplicationRef)}, ["alice", "bob", "bob"])
  {
    var ka, kb := MembershipKey("alice", "a", ApplicationRef), MembershipKey("alice", "b", ApplicationRef);
    var keys := {ka, kb, MembershipKey("bob", "c", ApplicationRef)};
    assert MembershipsOfUser(keys, "alice") == {ka, kb};
    assert multiset(["alice", "bob", "bob"])["alice"] == 1;
  }

  /** The memberships of keys held by user. */
  ghost function MembershipsOfUser(keys: set<MembershipKey>, user: string): set<MembershipKey> {
    set k | k in keys && k.userId == user
  }

  /** One more membership adds one to its user's count and leaves every other count alone. */
  lemma MembershipsOfUserStep(done: set<MembershipKey>, k: MembershipKey, user: string)
    requires k !in done
    ensures |MembershipsOfUser(done + {k}, user)| == |MembershipsOfUser(done, user)| + (if k.userId == user then 1 else 0)
  {
    if k.userId == user {
      assert MembershipsOfUser(done + {k}, user) == MembershipsOfUser(done, user) + {k};
    } else {
      assert MembershipsOfUser(done + {k}, user) == MembershipsOfUser(done, user);
    }
  }

  /** applicationToUser gives every application of keys the user of one of its memberships. */
  ghost predicate OwnerPerApplication(keys: set<MembershipKey>, applicationToUser: map<string, string>) {
    && (forall k :: k in keys ==> k.referenceId in applicationToUser)
    && (forall id :: id in applicationToUser ==> exists k :: k in keys && k.referenceId == id && k.userId == applicationToUser[id])
  }

  /** owners lists exactly the users of keys, one entry per membership. */
  ghost predicate ListsUsersOf(keys: set<MembershipKey>, owners: seq<string>) {
    && |owners| == |keys|
    && (forall user :: multiset(owners)[user] == |MembershipsOfUser(keys, user)|)
    && (forall k :: k in keys ==> k.userId in owners)
    && (forall i :: 0 <= i < |owners| ==> exists k :: k in keys && k.userId == owners[i])
  }

  /** No PRIMARY_OWNER membership of the batch names a known user. */
  ghost predicate NoOwnerKnown(ms: MembershipStore, users: map<string, User>, ids: set<string>) {
    forall k :: k in PrimaryOwnerKeys(ms, ids) ==> k.userId !in users
  }

  /**
   * What the batch conversion answers for ids: a failure exactly when
   * some application has no primary owner, or no owner is a known user;
   * otherwise one consistent view per application.
   */
  ghost predicate Converted(apps: map<string, Application>, ms: MembershipStore, users: map<string, User>,
                            ids: set<string>, r: Result<set<ApplicationView>, Error>) {
    && (r.Failure? <==> ids != {} && (SomeApplicationUnowned(ms, ids) || NoOwnerKnown(ms, users, ids)))
    && (r.Failure? && SomeApplicationUnowned(ms, ids) ==>
          r.error == PrimaryOwnersMissing(|ids - OwnedIds(ms, ids)|, ids))
    && (r.Failure? && !SomeApplicationUnowned(ms, ids) ==>
          exists names :: ListsUsersOf(PrimaryOwnerKeys(ms, ids), names) && r.error == UserNotFound(NamesForMessage(names)))
    && (r.Success? ==> (set v | v in r.value :: v.record.id) == ids)
    && (r.Success? ==> forall v, w :: v in r.value && w in r.value && v.record.id == w.record.id ==> v == w)
    && (r.Success? ==> forall v :: v in r.value ==> ViewConsistent(apps, ms, users, v))
  }

  /** Converting a single application fails exactly on its guards, and otherwise answers one consistent view of it. */
  lemma SingleConverted(apps: map<string, Application>, ms: MembershipStore, users: map<string, User>,
                        id: string, r: Result<set<ApplicationView>, Error>)
    requires Converted(apps, ms, users, {id}, r)
    ensures r.Failure? <==> SomeApplicationUnowned(ms, {id}) || NoOwnerKnown(ms, users, {id})
    ensures r.Success? ==> exists v :: v in r.value && v.record.id == id
    ensures r.Success? ==> forall v :: v in r.value ==> v.record.id == id && ViewConsistent(apps, ms, users, v)
    ensures SomeApplicationUnowned(ms, {id}) ==> r == Failure(PrimaryOwnersMissing(1, {id}))
    ensures !SomeApplicationUnowned(ms, {id}) && NoOwnerKnown(ms, users, {id}) ==>
              r.Failure? && exists names :: ListsUsersOf(PrimaryOwnerKeys(ms, {id}), names) && r.error == UserNotFound(NamesForMessage(names))
    ensures forall owner :: OwnersOf(ms, id) == {owner} && owner !in users ==> r == Failure(UserNotFound(owner))
  {
    assert {id} != {} by { assert id in {id}; }
    OwnedIdsExact(ms, {id});
    if SomeApplicationUnowned(ms, {id}) {
      assert {id} - OwnedIds(ms, {id}) == {id};
    }
    forall owner | OwnersOf(ms, id) == {owner} && owner !in users
      ensures r == Failure(UserNotFound(owner))
    {
      SingleOwnerFailsWithItsName(ms, users, id, owner);
    }
    if r.Success? {
      var viewIds := set v | v in r.value :: v.record.id;
      assert viewIds == {id};
      assert id in viewIds;
      forall v | v in r.value ensures v.record.id == id {
        assert v.record.id in viewIds;
      }
    }
  }

  /** A single owned application whose only owner is not stored: the batch conversion's only answer is UserNotFound(owner). */
  lemma SingleOwnerFailsWithItsName(ms: MembershipStore, users: map<string, User>, id: string, owner: string)
    requires OwnersOf(ms, id) == {owner} && owner !in users
    ensures !SomeApplicationUnowned(ms, {id}) && NoOwnerKnown(ms, users, {id})
    ensures forall names :: ListsUsersOf(PrimaryOwnerKeys(ms, {id}), names) ==> NamesForMessage(names) == owner
  {
    SingleApplicationKeys(ms, id);
    KeysNameOwners(ms, {id});
    forall names | ListsUsersOf(PrimaryOwnerKeys(ms, {id}), names) ensures NamesForMessage(names) == owner {
      assert |names| == 1;
      var k :| k in PrimaryOwnerKeys(ms, {id}) && k.userId == names[0];
      assert k.userId in OwnersOf(ms, k.referenceId);
    }
  }

  /** The primary owner entity of id in the conversion: its owner's, when that user was found. */
  function OwnerEntry(users: map<string, User>, applicationToUser: map<string, string>, id: string): (p: Option<PrimaryOwner>)
    ensures p.Some? <==> id in applicationToUser && applicationToUser[id] in users
    ensures p.Some? ==> p.value == PrimaryOwnerOf(users[applicationToUser[id]])
  {
    if id in applicationToUser && applicationToUser[id] in users then Some(PrimaryOwnerOf(users[applicationToUser[id]])) else None
  }

  /** The second pass: one view per application, with its owner's entity when that user was found. */
  function BatchViews(apps: map<string, Application>, users: map<string, User>, ids: set<string>,
                      applicationToUser: map<string, string>): set<ApplicationView>
    requires ids <= apps.Keys
  {
    set id | id in ids :: ApplicationView(apps[id], OwnerEntry(users, applicationToUser, id))
  }

  lemma UnownedBatchConverted(apps: map<string, Application>, ms: MembershipStore, users: map<string, User>, ids: set<string>)
    requires ids != {} && SomeApplicationUnowned(ms, ids)
    ensures Converted(apps, ms, users, ids, Failure(PrimaryOwnersMissing(|ids - OwnedIds(ms, ids)|, ids)))
  {
  }

  lemma UnknownOwnersConverted(apps: map<string, Application>, ms: MembershipStore, users: map<string, User>,
                               ids: set<string>, owners: seq<string>)
    requires ids != {} && !SomeApplicationUnowned(ms, ids)
    requires ListsUsersOf(PrimaryOwnerKeys(ms, ids), owners)
    requires NoOwnerKnown(ms, users, ids)
    ensures Converted(apps, ms, users, ids, Failure(UserNotFound(NamesForMessage(owners))))
  {
  }

  /** The views of the batch are one per application, each of its stored record. */
  lemma BatchViewsOnePerApplication(apps: map<string, Application>, users: map<string, User>, ids: set<string>,
                                    applicationToUser: map<string, string>)
    requires forall id :: id in apps ==> apps[id].id == id
    requires ids <= apps.Keys
    ensures var views := BatchViews(apps, users, ids, applicationToUser);
            && (set v | v in views :: v.record.id) == ids
            && (forall v, w :: v in views && w in views && v.record.id == w.record.id ==> v == w)
            && (forall v :: v in views ==> v.record.id in apps && v.record == apps[v.record.id]
                                           && v.primaryOwner == OwnerEntry(users, applicationToUser, v.record.id))
  {
    var views := BatchViews(apps, users, ids, applicationToUser);
    forall id | id in ids ensures id in (set v | v in views :: v.record.id) {
      var v := ApplicationView(apps[id], OwnerEntry(users, applicationToUser, id));
      assert v in views && v.record.id == id;
    }
  }

  lemma BatchViewsConverted(apps: map<string, Application>, ms: MembershipStore, users: map<string, User>,
                            ids: set<string>, applicationToUser: map<string, string>)
    requires forall id :: id in apps ==> apps[id].id == id
    requires ids <= apps.Keys && ids != {} && !SomeApplicationUnowned(ms, ids)
    requires OwnerPerApplication(PrimaryOwnerKeys(ms, ids), applicationToUser)
    requires !NoOwnerKnown(ms, users, ids)
    ensures Converted(apps, ms, users, ids, Success(BatchViews(apps, users, ids, applicationToUser)))
  {
    OwnerAssignmentOwns(ms, ids, applicationToUser);
    BatchViewsOnePerApplication(apps, users, ids, applicationToUser);
    var views := BatchViews(apps, users, ids, applicationToUser);
    forall v | v in views ensures ViewConsistent(apps, ms, users, v) {
      assert applicationToUser[v.record.id] in OwnersOf(ms, v.record.id);
    }
  }

  /** An owner assigned from the batch's memberships owns its application, and every application of the batch gets one. */
  lemma OwnerAssignmentOwns(ms: MembershipStore, ids: set<string>, applicationToUser: map<string, string>)
    requires !SomeApplicationUnowned(ms, ids)
    requires OwnerPerApplication(PrimaryOwnerKeys(ms, ids), applicationToUser)
    ensures forall id :: id in ids ==> id in applicationToUser && applicationToUser[id] in OwnersOf(ms, id)
  {
    KeysNameOwners(ms, ids);
    OwnedIdsExact(ms, ids);
    forall id | id in ids ensures id in applicationToUser && applicationToUser[id] in OwnersOf(ms, id) {
      assert id in OwnedIds(ms, ids);
      var k' :| k' in PrimaryOwnerKeys(ms, ids) && k'.referenceId == id && k'.userId == applicationToUser[id];
    }
  }

  /** Some listed owner is a known user exactly when some PRIMARY_OWNER membership of the batch names one. */
  lemma SomeOwnerKnown(ms: MembershipStore, users: map<string, User>, ids: set<string>, owners: seq<string>)
    requires ListsUsersOf(PrimaryOwnerKeys(ms, ids), owners)
    ensures (exists i :: 0 <= i < |owners| && owners[i] in users) <==> !NoOwnerKnown(ms, users, ids)
  {
    if exists i :: 0 <= i < |owners| && owners[i] in users {
      var i :| 0 <= i < |owners| && owners[i] in users;
      var k :| k in PrimaryOwnerKeys(ms, ids) && k.userId == owners[i];
    }
    if !NoOwnerKnown(ms, users, ids) {
      var k :| k in PrimaryOwnerKeys(ms, ids) && k.userId in users;
      var i :| 0 <= i < |owners| && owners[i] == k.userId;
    }
  }
}
