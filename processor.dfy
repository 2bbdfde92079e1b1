/** RuleProcessor: the object that owns the directory maps, the
    organizations, the in-flight creates and the removal list, and drives the
    per-organization walk, the creates and the orphan policy. Commands sent to a
    connector are appended to `sent`; a completion callback is a method the
    caller invokes when the connector reports the command done. */
module Processor {
  import opened Wrappers
  import opened Groups
  import opened TargetGroups
  import opened Users
  import opened UserKeys
  import opened Config
  import opened Organization
  import opened Reconcile
  import opened Text
  import opened Desired

  /** The country a new user is created with: the directory's, else the
      configured default, else "UD" for an enterprise user; None when the
      user cannot be created. */
  function CreateCountry(env: Env, options: Options, d: DirectoryUser): (c: Option<string>)
    ensures c.Some? ==> Truthy(c)
    ensures Truthy(d.country) ==> c == d.country
    ensures !Truthy(d.country) && Truthy(options.defaultCountryCode) ==> c == options.defaultCountryCode
    ensures !Truthy(d.country) && !Truthy(options.defaultCountryCode) ==>
              c == if DirectoryIdentityType(options, d) == env.enterpriseType then Some("UD") else None
  {
    if Truthy(d.country) then d.country
    else if Truthy(options.defaultCountryCode) then options.defaultCountryCode
    else if DirectoryIdentityType(options, d) == env.enterpriseType then Some("UD")
    else None
  }

  /** The attributes of the AddUser command `add_dashboard_user` sends, or
      None when it sends nothing: the user's type is not managed, or no
      country can be found. */
  function CreateAttributes(env: Env, options: Options, d: DirectoryUser): (r: Option<Attributes>)
    ensures r.None? <==> DirectoryIdentityType(options, d) !in options.managedIdentityTypes
                         || CreateCountry(env, options, d).None?
    ensures r.Some? ==>
              && r.value.Keys == {"email", "country", "option"}
                                 + (if d.firstname.Some? then {"firstname"} else {})
                                 + (if d.lastname.Some? then {"lastname"} else {})
              && r.value["email"] == d.email
              && r.value["country"] == CreateCountry(env, options, d)
              && (d.firstname.Some? ==> r.value["firstname"] == d.firstname)
              && (d.lastname.Some? ==> r.value["lastname"] == d.lastname)
              && r.value["option"] == Some(if options.updateUserInfo then "updateIfAlreadyExists" else "ignoreIfAlreadyExists")
  {
    if DirectoryIdentityType(options, d) !in options.managedIdentityTypes || CreateCountry(env, options, d).None? then None
    else
      var base := UserAttributes(d)["country" := CreateCountry(env, options, d)];
      var named := (if d.firstname.None? then base - {"firstname"} else base);
      var complete := (if d.lastname.None? then named - {"lastname"} else named);
      Some(complete["option" := Some(if options.updateUserInfo then "updateIfAlreadyExists" else "ignoreIfAlreadyExists")])
  }

  /** `iter_orphaned_dashboard_users`, collected into a list: the orphans,
      in `order`, whose key passes the username filter and whose type is one
      of `types`. */
  function OrphanSelection(env: Env, types: set<string>, orphans: map<UserKey, DashboardUser>, order: seq<UserKey>)
    : (r: seq<UserKey>)
    requires forall i | 0 <= i < |order| :: order[i] in orphans
    ensures |r| <= |order|
    ensures forall k :: k in r <==> (k in order && IsSelectedUserKey(env, k)
                                    && orphans[k].userType.Some? && orphans[k].userType.value in types)
    decreases |order|
  {
    if |order| == 0 then []
    else
      var rest := OrphanSelection(env, types, orphans, order[1..]);
      var k := order[0];
      if IsSelectedUserKey(env, k) && orphans[k].userType.Some? && orphans[k].userType.value in types
      then [k] + rest else rest
  }

  /** Why `process_orphaned_dashboard_users` raises: neither removal nor
      deletion is requested, or there are more orphans than `max_missing_users`. */
  datatype OrphanError = OperationTypeInvalid | TooManyOrphans(count: nat)

  /** The keys `process_orphaned_dashboard_users` adds to the removal list,
      or its error: none when a list is written to a file; with removal or
      deletion of orphans enabled, an error above `max_missing_users`, else
      the first `max_deletions_per_run` orphans. */
  function OrphanQuota(options: Options, orphans: seq<UserKey>): (r: Result<set<UserKey>, OrphanError>)
    ensures !NeedToProcessRemoveUsers(options) && !NeedToProcessDeleteUsers(options) ==> r.Err?
    ensures ((NeedToProcessRemoveUsers(options) || NeedToProcessDeleteUsers(options))
             && (options.removeListOutputPath.Some? || options.deleteListOutputPath.Some?)) ==> r == Ok({})
    ensures ((NeedToProcessRemoveUsers(options) || NeedToProcessDeleteUsers(options))
             && !options.removeNonexistentUsers && !options.deleteNonexistentUsers) ==> r == Ok({})
    ensures r.Ok? ==> |r.value| <= options.maxDeletionsPerRun && |r.value| <= |orphans|
    ensures r.Ok? ==> forall k | k in r.value :: k in orphans
  {
    if !NeedToProcessRemoveUsers(options) && !NeedToProcessDeleteUsers(options) then Err(OperationTypeInvalid)
    else if options.removeListOutputPath.Some? || options.deleteListOutputPath.Some? then Ok({})
    else if options.removeNonexistentUsers || options.deleteNonexistentUsers then
      if |orphans| > options.maxMissingUsers then Err(TooManyOrphans(|orphans|))
      else
        var n := if |orphans| < options.maxDeletionsPerRun then |orphans| else options.maxDeletionsPerRun;
        Ok(KeySet(orphans[..n]))
    else Ok({})
  }

  /** The set of keys in a list. */
  function KeySet(s: seq<UserKey>): (r: set<UserKey>)
    ensures |r| <= |s|
    ensures forall k :: k in r <==> k in s
    decreases |s|
  {
    if |s| == 0 then {} else KeySet(s[..|s| - 1]) + {s[|s| - 1]}
  }

  /** With removal or deletion enabled and no file output, the orphans are
      processed in list order: the keys added are exactly the first
      min(count, max_deletions_per_run) of them, unless there are more
      orphans than `max_missing_users`. */
  lemma OrphanQuotaTakesPrefix(options: Options, orphans: seq<UserKey>)
    requires options.removeListOutputPath.None? && options.deleteListOutputPath.None?
    requires options.removeNonexistentUsers || options.deleteNonexistentUsers
    ensures |orphans| > options.maxMissingUsers <==> OrphanQuota(options, orphans).Err?
    ensures |orphans| <= options.maxMissingUsers && |orphans| <= options.maxDeletionsPerRun ==>
              OrphanQuota(options, orphans) == Ok(KeySet(orphans))
    ensures |orphans| <= options.maxMissingUsers && options.maxDeletionsPerRun < |orphans| ==>
              OrphanQuota(options, orphans) == Ok(KeySet(orphans[..options.maxDeletionsPerRun]))
  {
    if |orphans| <= options.maxMissingUsers {
      if |orphans| <= options.maxDeletionsPerRun {
        assert orphans[..|orphans|] == orphans;
        assert OrphanQuota(options, orphans) == Ok(KeySet(orphans[..|orphans|]));
      } else {
        assert OrphanQuota(options, orphans) == Ok(KeySet(orphans[..options.maxDeletionsPerRun]));
      }
    } else {
      assert OrphanQuota(options, orphans) == Err(TooManyOrphans(|orphans|));
    }
  }

  /** The delete path asks for orphans of no type at all, so it selects none. */
  lemma DeletePathSelectsNoOrphans(env: Env, orphans: map<UserKey, DashboardUser>, order: seq<UserKey>)
    requires forall i | 0 <= i < |order| :: order[i] in orphans
    ensures OrphanSelection(env, {}, orphans, order) == []
  {
  }

  /** Whether `read_desired_user_groups` keeps the directory user `d`, whose
      key is `k`: it passes the directory group filter and the username
      filter and is not on the removal list. */
  predicate Selected(env: Env, options: Options, removed: set<UserKey>, d: DirectoryUser, k: UserKey) {
    IsDirectoryUserInGroups(d, options.directoryGroupFilter) && IsSelectedUserKey(env, k) && k !in removed
  }

  /** A user with a key and selected. */
  predicate Chosen(env: Env, options: Options, removed: set<UserKey>, d: DirectoryUser) {
    DirectoryUserKey(env, options, d).Some? && Selected(env, options, removed, d, DirectoryUserKey(env, options, d).value)
  }

  /** `directory_user_by_user_key` after one directory user is read. */
  function IndexUser(m: map<UserKey, DirectoryUser>, env: Env, options: Options, d: DirectoryUser): map<UserKey, DirectoryUser> {
    match DirectoryUserKey(env, options, d)
    case None => m
    case Some(k) => m[k := d]
  }

  /** `filtered_directory_user_by_user_key` after one directory user is read. */
  function FilterUser(m: map<UserKey, DirectoryUser>, env: Env, options: Options, removed: set<UserKey>,
                      d: DirectoryUser): map<UserKey, DirectoryUser> {
    if Chosen(env, options, removed, d) then m[DirectoryUserKey(env, options, d).value := d] else m
  }

  /** The desired groups after one directory user is read, its target names
      taken in the order `order`: a chosen user is desired in the owning
      organization and gains each target group the catalog has. */
  ghost function UserDesires(ds: Desires, env: Env, options: Options, removed: set<UserKey>, catalog: map<GroupId, DashboardGroup>,
                             mappings: Mappings, d: DirectoryUser, order: seq<string>): Desires
  {
    if Chosen(env, options, removed, d) then
      var k := DirectoryUserKey(env, options, d).value;
      RecordTargets(Enroll(ds, k), k, FoundAll(env.normalize, Lookups(catalog, TargetNames(mappings, d.groups)), order))
    else ds
  }

  /** The directory index after reading `users` in order. */
  function IndexUsers(m: map<UserKey, DirectoryUser>, env: Env, options: Options, users: seq<DirectoryUser>): map<UserKey, DirectoryUser>
    decreases |users|
  {
    if |users| == 0 then m else IndexUser(IndexUsers(m, env, options, users[..|users| - 1]), env, options, users[|users| - 1])
  }

  /** The filtered index after reading `users` in order. */
  function FilterUsers(m: map<UserKey, DirectoryUser>, env: Env, options: Options, removed: set<UserKey>,
                       users: seq<DirectoryUser>): map<UserKey, DirectoryUser>
    decreases |users|
  {
    if |users| == 0 then m
    else FilterUser(FilterUsers(m, env, options, removed, users[..|users| - 1]), env, options, removed, users[|users| - 1])
  }

  /** The desired groups after reading `users` in order, the i-th user's
      target names taken in the order `orders[i]`. */
  ghost function UsersDesires(ds: Desires, env: Env, options: Options, removed: set<UserKey>, catalog: map<GroupId, DashboardGroup>,
                              mappings: Mappings, users: seq<DirectoryUser>, orders: seq<seq<string>>): Desires
    requires |orders| == |users|
    decreases |users|
  {
    if |users| == 0 then ds
    else UserDesires(UsersDesires(ds, env, options, removed, catalog, mappings, users[..|users| - 1], orders[..|users| - 1]),
                     env, options, removed, catalog, mappings, users[|users| - 1], orders[|users| - 1])
  }

  /** Reading one more directory user extends each of the three results by one step. */
  lemma ReadOneMore(m: map<UserKey, DirectoryUser>, f: map<UserKey, DirectoryUser>, ds: Desires, env: Env,
                    options: Options, removed: set<UserKey>, catalog: map<GroupId, DashboardGroup>, mappings: Mappings,
                    users: seq<DirectoryUser>, orders: seq<seq<string>>, order: seq<string>, i: int)
    requires 0 <= i < |users| && |orders| == i
    ensures IndexUsers(m, env, options, users[..i + 1]) == IndexUser(IndexUsers(m, env, options, users[..i]), env, options, users[i])
    ensures FilterUsers(f, env, options, removed, users[..i + 1])
            == FilterUser(FilterUsers(f, env, options, removed, users[..i]), env, options, removed, users[i])
    ensures UsersDesires(ds, env, options, removed, catalog, mappings, users[..i + 1], orders + [order])
            == UserDesires(UsersDesires(ds, env, options, removed, catalog, mappings, users[..i], orders),
                           env, options, removed, catalog, mappings, users[i], order)
  {
    assert users[..i + 1][..i] == users[..i];
    assert (orders + [order])[..i] == orders;
  }

  /** The order a chosen user's target names are taken in: each of them once. */
  ghost predicate TargetOrder(mappings: Mappings, d: DirectoryUser, order: seq<string>) {
    (forall q :: q in order <==> q in TargetNames(mappings, d.groups)) && Distinct(order)
  }

  /** One order per user read, a TargetOrder for every chosen user. */
  ghost predicate TargetOrders(env: Env, options: Options, removed: set<UserKey>, mappings: Mappings,
                         users: seq<DirectoryUser>, orders: seq<seq<string>>) {
    && |orders| == |users|
    && forall j | 0 <= j < |users| :: Chosen(env, options, removed, users[j]) ==> TargetOrder(mappings, users[j], orders[j])
  }

  /** TargetOrders extended by one more user. */
  lemma TargetOrdersSnoc(env: Env, options: Options, removed: set<UserKey>, mappings: Mappings,
                         users: seq<DirectoryUser>, orders: seq<seq<string>>, order: seq<string>, i: int)
    requires 0 <= i < |users| && TargetOrders(env, options, removed, mappings, users[..i], orders)
    requires Chosen(env, options, removed, users[i]) ==> TargetOrder(mappings, users[i], order)
    ensures TargetOrders(env, options, removed, mappings, users[..i + 1], orders + [order])
  {
    forall j | 0 <= j < i + 1 && Chosen(env, options, removed, users[..i + 1][j])
      ensures TargetOrder(mappings, users[..i + 1][j], (orders + [order])[j])
    {
      if j < i {
        assert users[..i + 1][j] == users[..i][j];
      }
    }
  }

  /** A chosen user's desired groups do not depend on the order its target
      names are looked up in. */
  lemma UserDesiresOrderFree(ds: Desires, env: Env, options: Options, removed: set<UserKey>,
                             catalog: map<GroupId, DashboardGroup>, mappings: Mappings, d: DirectoryUser,
                             o1: seq<string>, o2: seq<string>)
    requires Chosen(env, options, removed, d) ==> TargetOrder(mappings, d, o1) && TargetOrder(mappings, d, o2)
    ensures UserDesires(ds, env, options, removed, catalog, mappings, d, o1)
            == UserDesires(ds, env, options, removed, catalog, mappings, d, o2)
  {
    if Chosen(env, options, removed, d) {
      var k := DirectoryUserKey(env, options, d).value;
      RecordTargetsOrderFree(Enroll(ds, k), k, env.normalize, Lookups(catalog, TargetNames(mappings, d.groups)),
                             o1, o2, TargetNames(mappings, d.groups));
    }
  }

  /** The desired groups after reading the users are the same for any
      TargetOrders: the lookup order of `read_desired_user_groups` does not
      matter. */
  lemma {:induction false} UsersDesiresOrderFree(ds: Desires, env: Env, options: Options, removed: set<UserKey>,
                                                 catalog: map<GroupId, DashboardGroup>, mappings: Mappings,
                                                 users: seq<DirectoryUser>, o1: seq<seq<string>>, o2: seq<seq<string>>)
    requires TargetOrders(env, options, removed, mappings, users, o1)
    requires TargetOrders(env, options, removed, mappings, users, o2)
    ensures UsersDesires(ds, env, options, removed, catalog, mappings, users, o1)
            == UsersDesires(ds, env, options, removed, catalog, mappings, users, o2)
    decreases |users|
  {
    if |users| > 0 {
      var n := |users| - 1;
      assert TargetOrders(env, options, removed, mappings, users[..n], o1[..n]);
      assert TargetOrders(env, options, removed, mappings, users[..n], o2[..n]);
      UsersDesiresOrderFree(ds, env, options, removed, catalog, mappings, users[..n], o1[..n], o2[..n]);
      UserDesiresOrderFree(UsersDesires(ds, env, options, removed, catalog, mappings, users[..n], o1[..n]),
                           env, options, removed, catalog, mappings, users[n], o1[n], o2[n]);
    }
  }

  /** A key no directory user has keeps its old entry, or stays absent. */
  lemma {:induction false} IndexUsersUntouched(m: map<UserKey, DirectoryUser>, env: Env, options: Options,
                                               users: seq<DirectoryUser>, k: UserKey)
    requires forall i | 0 <= i < |users| :: DirectoryUserKey(env, options, users[i]) != Some(k)
    ensures k in IndexUsers(m, env, options, users) <==> k in m
    ensures k in m ==> IndexUsers(m, env, options, users)[k] == m[k]
    decreases |users|
  {
    if |users| > 0 {
      var init := users[..|users| - 1];
      assert forall i | 0 <= i < |init| :: init[i] == users[i];
      IndexUsersUntouched(m, env, options, init, k);
    }
  }

  /** Each key holds the last directory user read with that key. */
  lemma {:induction false} IndexUsersLastWins(m: map<UserKey, DirectoryUser>, env: Env, options: Options,
                                              users: seq<DirectoryUser>, i: int)
    requires 0 <= i < |users| && DirectoryUserKey(env, options, users[i]).Some?
    requires forall j | i < j < |users| :: DirectoryUserKey(env, options, users[j]) != DirectoryUserKey(env, options, users[i])
    ensures DirectoryUserKey(env, options, users[i]).value in IndexUsers(m, env, options, users)
    ensures IndexUsers(m, env, options, users)[DirectoryUserKey(env, options, users[i]).value] == users[i]
    decreases |users|
  {
    var init := users[..|users| - 1];
    if i < |users| - 1 {
      assert forall j | 0 <= j < |init| :: init[j] == users[j];
      IndexUsersLastWins(m, env, options, init, i);
    }
  }

  /** Reading a directory user keeps every user already desired in the
      owning organization desired there. */
  lemma UserDesiresKeepsOwning(ds: Desires, env: Env, options: Options, removed: set<UserKey>,
                               catalog: map<GroupId, DashboardGroup>, mappings: Mappings, d: DirectoryUser,
                               order: seq<string>, k: UserKey)
    requires k in Held(ds, None).desired
    ensures k in Held(UserDesires(ds, env, options, removed, catalog, mappings, d, order), None).desired
  {
    if Chosen(env, options, removed, d) {
      var k2 := DirectoryUserKey(env, options, d).value;
      var ts := FoundAll(env.normalize, Lookups(catalog, TargetNames(mappings, d.groups)), order);
      assert k in Held(Enroll(ds, k2), None).desired;
      RecordTargetsKeeps(Enroll(ds, k2), k2, ts, None, k);
    }
  }

  /** Reading a chosen directory user makes it desired in the owning organization. */
  lemma UserDesiresEnrollsOwning(ds: Desires, env: Env, options: Options, removed: set<UserKey>,
                                 catalog: map<GroupId, DashboardGroup>, mappings: Mappings, d: DirectoryUser,
                                 order: seq<string>)
    requires Chosen(env, options, removed, d)
    ensures DirectoryUserKey(env, options, d).value
            in Held(UserDesires(ds, env, options, removed, catalog, mappings, d, order), None).desired
  {
    var k := DirectoryUserKey(env, options, d).value;
    var ts := FoundAll(env.normalize, Lookups(catalog, TargetNames(mappings, d.groups)), order);
    assert k in Held(Enroll(ds, k), None).desired;
    RecordTargetsKeeps(Enroll(ds, k), k, ts, None, k);
  }

  /** Every chosen directory user is desired in the owning organization
      once the users are read, with whatever groups it gained. */
  lemma {:induction false} ChosenUsersAreDesired(ds: Desires, env: Env, options: Options, removed: set<UserKey>, catalog: map<GroupId, DashboardGroup>,
                                                 mappings: Mappings, users: seq<DirectoryUser>, orders: seq<seq<string>>, i: int)
    requires |orders| == |users| && 0 <= i < |users|
    requires Chosen(env, options, removed, users[i])
    ensures DirectoryUserKey(env, options, users[i]).value
            in Held(UsersDesires(ds, env, options, removed, catalog, mappings, users, orders), None).desired
    decreases |users|
  {
    var n := |users| - 1;
    var before := UsersDesires(ds, env, options, removed, catalog, mappings, users[..n], orders[..n]);
    assert UsersDesires(ds, env, options, removed, catalog, mappings, users, orders)
           == UserDesires(before, env, options, removed, catalog, mappings, users[n], orders[n]);
    if i < n {
      assert users[..n][i] == users[i];
      ChosenUsersAreDesired(ds, env, options, removed, catalog, mappings, users[..n], orders[..n], i);
      UserDesiresKeepsOwning(before, env, options, removed, catalog, mappings, users[n], orders[n],
                             DirectoryUserKey(env, options, users[i]).value);
    } else {
      UserDesiresEnrollsOwning(before, env, options, removed, catalog, mappings, users[n], orders[n]);
    }
  }

  /** What the create callback reads of an accessor: its name, the update
      context, whether it has seen the user, the user's desired groups there
      and the groups recorded as added and as removed. */
  datatype AccessorView = AccessorView(name: OrgName, ctx: Ctx, seen: bool, desired: Option<set<GroupName>>,
                                       added: GroupsByUserKey, removed: GroupsByUserKey)

  class RuleProcessor {
    const env: Env
    const options: Options
    var directoryUserByUserKey: map<UserKey, DirectoryUser>
    var filteredDirectoryUserByUserKey: map<UserKey, DirectoryUser>
    var orgs: map<OrgName, OrganizationInfo>
    var adding: set<UserKey>
    var removeUserKeyList: set<UserKey>
    var needToProcessOrphans: bool
    var sent: seq<Sent>

    /** Every organization is filed under its own name. */
    ghost predicate Valid()
      reads this`orgs
    {
      forall n | n in orgs :: orgs[n].name == n
    }

    constructor (env: Env, options: Options, removeUserKeys: set<UserKey>)
      ensures Valid()
      ensures this.env == env && this.options == options && removeUserKeyList == removeUserKeys
      ensures directoryUserByUserKey == map[] && filteredDirectoryUserByUserKey == map[] && orgs == map[]
      ensures adding == {} && sent == []
      ensures needToProcessOrphans == (NeedToProcessRemoveUsers(options) || NeedToProcessDeleteUsers(options))
    {
      this.env := env;
      this.options := options;
      directoryUserByUserKey, filteredDirectoryUserByUserKey, orgs := map[], map[], map[];
      adding, removeUserKeyList, sent := {}, removeUserKeys, [];
      needToProcessOrphans := NeedToProcessRemoveUsers(options) || NeedToProcessDeleteUsers(options);
    }

    /** `get_organization_info`: the organization of that name, created empty
        on first use. */
    method GetOrganizationInfo(name: OrgName) returns (org: OrganizationInfo)
      requires Valid()
      modifies this`orgs
      ensures Valid() && name in orgs && orgs[name] == org && org.name == name
      ensures name in old(orgs) ==> orgs == old(orgs)
      ensures name !in old(orgs) ==> fresh(org) && orgs == old(orgs)[name := org]
      ensures name !in old(orgs) ==> org.mappedGroups == {} && org.desiredGroupsByUserKey == map[]
                                     && org.dashboardUserByUserKey == map[] && !org.dashboardUsersLoaded
                                     && org.groupsAddedByUserKey == map[] && org.groupsRemovedByUserKey == map[]
                                     && org.designations == map[] && org.orphanedDashboardUserByUserKey == map[]
    {
      if name in orgs {
        org := orgs[name];
      } else {
        org := new OrganizationInfo(name);
        orgs := orgs[name := org];
      }
    }

    /** What the organizations hold for the desired groups. */
    ghost function Snapshot(): Desires
      reads this`orgs, orgs.Values`desiredGroupsByUserKey, orgs.Values`designations
    {
      map n | n in orgs :: OrgDesire(orgs[n].desiredGroupsByUserKey, orgs[n].designations.Keys)
    }

    /** `read_desired_user_groups` over the users the directory returned:
        the orphan pass is switched off when not all users were loaded, and
        each user is read in turn; a target name the catalog cannot parse
        raises and ends the read. */
    method ReadDesiredUserGroups(catalog: map<GroupId, DashboardGroup>, mappings: Mappings, allLoaded: bool, users: seq<DirectoryUser>)
      returns (r: Result<(), CatalogError>, ghost orders: seq<seq<string>>)
      requires Valid()
      modifies this`needToProcessOrphans, this`directoryUserByUserKey, this`filteredDirectoryUserByUserKey
      modifies this`orgs, orgs.Values`desiredGroupsByUserKey, orgs.Values`designations
      ensures Valid()
      ensures needToProcessOrphans == (old(needToProcessOrphans) && allLoaded)
      ensures r.Ok? ==>
                && |orders| == |users|
                && directoryUserByUserKey == IndexUsers(old(directoryUserByUserKey), env, options, users)
                && filteredDirectoryUserByUserKey
                   == FilterUsers(old(filteredDirectoryUserByUserKey), env, options, removeUserKeyList, users)
                && Snapshot() == UsersDesires(old(Snapshot()), env, options, removeUserKeyList, catalog, mappings, users, orders)
                && TargetOrders(env, options, removeUserKeyList, mappings, users, orders)
      ensures forall n | n in old(orgs) :: n in orgs && orgs[n] == old(orgs[n])
      ensures forall n | n in orgs && n !in old(orgs) :: fresh(orgs[n])
    {
      ghost var dir0, filt0, e0 := directoryUserByUserKey, filteredDirectoryUserByUserKey, Snapshot();
      if !allLoaded && needToProcessOrphans {
        needToProcessOrphans := false;
      }
      orders := [];
      var i := 0;
      assert users[..0] == [];
      assert ReadLoop(catalog, mappings, users, 0, orders, dir0, filt0, e0);
      while i < |users|
        invariant ReadLoop(catalog, mappings, users, i, orders, dir0, filt0, e0)
        invariant needToProcessOrphans == (old(needToProcessOrphans) && allLoaded)
        invariant forall n | n in old(orgs) :: n in orgs && orgs[n] == old(orgs[n])
        invariant forall n | n in orgs && n !in old(orgs) :: fresh(orgs[n])
      {
        r, orders := ReadNextUser(catalog, mappings, users, i, orders, dir0, filt0, e0);
        if r.Err? {
          return;
        }
        i := i + 1;
      }
      assert ReadLoop(catalog, mappings, users, i, orders, dir0, filt0, e0);
      assert users[..i] == users;
      r := Ok(());
    }

    /** The invariant of `read_desired_user_groups` after `i` users, read
        from the indexes `dir0`, `filt0` and the desired groups `e0`. */
    ghost predicate ReadLoop(catalog: map<GroupId, DashboardGroup>, mappings: Mappings, users: seq<DirectoryUser>, i: int,
                             orders: seq<seq<string>>, dir0: map<UserKey, DirectoryUser>, filt0: map<UserKey, DirectoryUser>,
                             e0: Desires)
      reads this, orgs.Values
    {
      && 0 <= i <= |users| && |orders| == i
      && Valid()
      && directoryUserByUserKey == IndexUsers(dir0, env, options, users[..i])
      && filteredDirectoryUserByUserKey == FilterUsers(filt0, env, options, removeUserKeyList, users[..i])
      && Snapshot() == UsersDesires(e0, env, options, removeUserKeyList, catalog, mappings, users[..i], orders)
      && TargetOrders(env, options, removeUserKeyList, mappings, users[..i], orders)
    }

    /** One turn of `read_desired_user_groups`: the next user is read; when
        that succeeds the invariant holds for one more user. */
    method ReadNextUser(catalog: map<GroupId, DashboardGroup>, mappings: Mappings, users: seq<DirectoryUser>, i: int,
                        ghost orders: seq<seq<string>>, ghost dir0: map<UserKey, DirectoryUser>,
                        ghost filt0: map<UserKey, DirectoryUser>, ghost e0: Desires)
      returns (r: Result<(), CatalogError>, ghost orders': seq<seq<string>>)
      requires i < |users| && ReadLoop(catalog, mappings, users, i, orders, dir0, filt0, e0)
      modifies this`directoryUserByUserKey, this`filteredDirectoryUserByUserKey
      modifies this`orgs, orgs.Values`desiredGroupsByUserKey, orgs.Values`designations
      ensures Valid()
      ensures r.Ok? ==> ReadLoop(catalog, mappings, users, i + 1, orders', dir0, filt0, e0)
      ensures forall n | n in old(orgs) :: n in orgs && orgs[n] == old(orgs[n])
      ensures forall n | n in orgs && n !in old(orgs) :: fresh(orgs[n])
    {
      ghost var order;
      ghost var before := Snapshot();
      r, order := ReadDirectoryUser(catalog, mappings, users[i]);
      orders' := orders + [order];
      if r.Ok? {
        ReadOneMore(dir0, filt0, e0, env, options, removeUserKeyList, catalog, mappings, users, orders, order, i);
        TargetOrdersSnoc(env, options, removeUserKeyList, mappings, users, orders, order, i);
        assert Snapshot() == UserDesires(before, env, options, removeUserKeyList, catalog, mappings, users[i], order);
      }
    }

    /** One directory user in `read_desired_user_groups`: it is filed under
        its key; unless it is outside the group filter, not matched by the
        username filter or on the removal list, it is also filed as
        selected, is desired in the owning organization, and gains the
        target groups its directory groups map to, its target names taken in
        the order `order`. */
    method ReadDirectoryUser(catalog: map<GroupId, DashboardGroup>, mappings: Mappings, d: DirectoryUser)
      returns (r: Result<(), CatalogError>, ghost order: seq<string>)
      requires Valid()
      modifies this`directoryUserByUserKey, this`filteredDirectoryUserByUserKey
      modifies this`orgs, orgs.Values`desiredGroupsByUserKey, orgs.Values`designations
      ensures Valid()
      ensures directoryUserByUserKey == IndexUser(old(directoryUserByUserKey), env, options, d)
      ensures filteredDirectoryUserByUserKey == FilterUser(old(filteredDirectoryUserByUserKey), env, options, removeUserKeyList, d)
      ensures r.Err? ==> Chosen(env, options, removeUserKeyList, d) && exists q | q in TargetNames(mappings, d.groups) :: LookupIn(catalog, q).Err?
      ensures r.Ok? && Chosen(env, options, removeUserKeyList, d) ==> TargetOrder(mappings, d, order)
      ensures r.Ok? ==> Snapshot() == UserDesires(old(Snapshot()), env, options, removeUserKeyList, catalog, mappings, d, order)
      ensures forall n | n in old(orgs) :: n in orgs && orgs[n] == old(orgs[n])
      ensures forall n | n in orgs && n !in old(orgs) :: fresh(orgs[n])
    {
      order := [];
      var key := DirectoryUserKey(env, options, d);
      if key.None? {
        return Ok(()), order;
      }
      var k := key.value;
      ghost var e0 := Snapshot();
      directoryUserByUserKey := directoryUserByUserKey[k := d];
      assert Snapshot() == e0;
      if !Selected(env, options, removeUserKeyList, d, k) {
        return Ok(()), order;
      }
      r, order := ReadSelectedUser(catalog, mappings, d, k);
    }

    /** The selected user `d` with key `k`: filed as selected, desired in
        the owning organization, and given its target groups. */
    method ReadSelectedUser(catalog: map<GroupId, DashboardGroup>, mappings: Mappings, d: DirectoryUser, k: UserKey)
      returns (r: Result<(), CatalogError>, ghost order: seq<string>)
      requires Valid()
      modifies this`filteredDirectoryUserByUserKey
      modifies this`orgs, orgs.Values`desiredGroupsByUserKey, orgs.Values`designations
      ensures Valid()
      ensures filteredDirectoryUserByUserKey == old(filteredDirectoryUserByUserKey)[k := d]
      ensures r.Err? ==> exists q | q in TargetNames(mappings, d.groups) :: LookupIn(catalog, q).Err?
      ensures r.Ok? ==>
                && TargetOrder(mappings, d, order)
                && Snapshot() == RecordTargets(Enroll(old(Snapshot()), k), k, FoundAll(env.normalize, Lookups(catalog, TargetNames(mappings, d.groups)), order))
      ensures forall n | n in old(orgs) :: n in orgs && orgs[n] == old(orgs[n])
      ensures forall n | n in orgs && n !in old(orgs) :: fresh(orgs[n])
    {
      ghost var e0 := Snapshot();
      filteredDirectoryUserByUserKey := filteredDirectoryUserByUserKey[k := d];
      assert Snapshot() == e0;
      r, order := DesireSelected(catalog, mappings, d, k);
    }

    /** The selected user `d` with key `k` desired in the owning organization
        and given the target groups of its target names, in the order `order`. */
    method DesireSelected(catalog: map<GroupId, DashboardGroup>, mappings: Mappings, d: DirectoryUser, k: UserKey)
      returns (r: Result<(), CatalogError>, ghost order: seq<string>)
      requires Valid()
      modifies this`orgs, orgs.Values`desiredGroupsByUserKey, orgs.Values`designations
      ensures Valid()
      ensures r.Err? ==> exists q | q in TargetNames(mappings, d.groups) :: LookupIn(catalog, q).Err?
      ensures r.Ok? ==>
                && TargetOrder(mappings, d, order)
                && Snapshot() == RecordTargets(Enroll(old(Snapshot()), k), k, FoundAll(env.normalize, Lookups(catalog, TargetNames(mappings, d.groups)), order))
      ensures forall n | n in old(orgs) :: n in orgs && orgs[n] == old(orgs[n])
      ensures forall n | n in orgs && n !in old(orgs) :: fresh(orgs[n])
    {
      ghost var e0 := Snapshot();
      EnrollOwning(k);
      ghost var e1 := Snapshot();
      assert e1 == Enroll(e0, k);
      r, order := AddTargetGroups(catalog, k, TargetNames(mappings, d.groups));
    }

    /** `get_organization_info(OWNING_ORGANIZATION_NAME).add_desired_group_for(user_key, None)`. */
    method EnrollOwning(key: UserKey)
      requires Valid()
      modifies this`orgs, orgs.Values`desiredGroupsByUserKey, orgs.Values`designations
      ensures Valid() && Snapshot() == Enroll(old(Snapshot()), key)
      ensures forall n | n in old(orgs) :: n in orgs && orgs[n] == old(orgs[n])
      ensures forall n | n in orgs && n !in old(orgs) :: fresh(orgs[n])
    {
      EnrollIsDesire(old(Snapshot()), key);
      AddDesiredIn(None, key, None);
    }

    /** The loop over the user's target names in `read_desired_user_groups`,
        in the set's own (arbitrary) iteration order `order`: a name the
        catalog cannot parse raises; an unknown one is skipped (and logged);
        a registered one is recorded as desired for the user in its
        organization, which is created on first use. */
    method AddTargetGroups(catalog: map<GroupId, DashboardGroup>, key: UserKey, names: set<string>)
      returns (r: Result<(), CatalogError>, ghost order: seq<string>)
      requires Valid()
      modifies this`orgs, orgs.Values`desiredGroupsByUserKey, orgs.Values`designations
      ensures Valid()
      ensures r.Err? ==> exists q | q in names :: LookupIn(catalog, q).Err?
      ensures r.Ok? ==> forall q | q in names :: LookupIn(catalog, q).Ok?
      ensures r.Ok? ==>
                && (forall q :: q in order <==> q in names) && Distinct(order)
                && Snapshot() == RecordTargets(old(Snapshot()), key, FoundAll(env.normalize, Lookups(catalog, names), order))
      ensures forall n | n in old(orgs) :: n in orgs && orgs[n] == old(orgs[n])
      ensures forall n | n in orgs && n !in old(orgs) :: fresh(orgs[n])
    {
      r, order := AddLookedUpGroups(key, Lookups(catalog, names));
    }

    /** The same loop over the catalog's answers `lk` for the names; the
        catalog does not change during the loop, so its answers can be taken
        up front. */
    method AddLookedUpGroups(key: UserKey, lk: map<string, Looked>)
      returns (r: Result<(), CatalogError>, ghost order: seq<string>)
      requires Valid()
      modifies this`orgs, orgs.Values`desiredGroupsByUserKey, orgs.Values`designations
      ensures Valid()
      ensures r.Err? ==> exists q | q in lk :: lk[q].Err?
      ensures r.Ok? ==> forall q | q in lk :: lk[q].Ok?
      ensures r.Ok? ==>
                && (forall q :: q in order <==> q in lk) && Distinct(order)
                && Snapshot() == RecordTargets(old(Snapshot()), key, FoundAll(env.normalize, lk, order))
      ensures forall n | n in old(orgs) :: n in orgs && orgs[n] == old(orgs[n])
      ensures forall n | n in orgs && n !in old(orgs) :: fresh(orgs[n])
    {
      ghost var e := Snapshot();
      var rest := lk.Keys;
      ghost var ts: seq<FoundTarget> := [];
      order := [];
      while rest != {}
        invariant Valid()
        invariant forall q :: q in lk <==> q in rest || q in order
        invariant forall q | q in order :: q !in rest
        invariant Distinct(order)
        invariant forall q | q in order :: lk[q].Ok?
        invariant ts == FoundAll(env.normalize, lk, order)
        invariant Snapshot() == RecordTargets(e, key, ts)
        invariant forall n | n in old(orgs) :: n in orgs && orgs[n] == old(orgs[n])
        invariant forall n | n in orgs && n !in old(orgs) :: fresh(orgs[n])
        decreases rest
      {
        var q :| q in rest;
        if lk[q].Err? {
          return Err(lk[q].error), order;
        }
        ghost var t := Found(env.normalize, lk[q]);
        ghost var before := Snapshot();
        AddFoundTarget(key, Found(env.normalize, lk[q]));
        RecordTargetsSnoc(e, key, ts, t);
        assert Snapshot() == Record(before, key, t);
        assert (order + [q])[..|order|] == order;
        order, ts := order + [q], ts + [t];
        rest := rest - {q};
      }
      r := Ok(());
    }

    /** The found target, if any, recorded as desired for the user. */
    method AddFoundTarget(key: UserKey, t: FoundTarget)
      requires Valid()
      modifies this`orgs, orgs.Values`desiredGroupsByUserKey, orgs.Values`designations
      ensures Valid() && Snapshot() == Record(old(Snapshot()), key, t)
      ensures forall n | n in old(orgs) :: n in orgs && orgs[n] == old(orgs[n])
      ensures forall n | n in orgs && n !in old(orgs) :: fresh(orgs[n])
    {
      if t.Some? {
        AddDesiredTo(t.value.0, key, t.value.1);
      }
    }

    /** The user `key` gets `group` as a desired group in the organization
        `name`, which is created on first use; no other organization changes. */
    method AddDesiredTo(name: OrgName, key: UserKey, group: TargetGroup)
      requires Valid()
      modifies this`orgs, orgs.Values`desiredGroupsByUserKey, orgs.Values`designations
      ensures Valid()
      ensures Snapshot() == Record(old(Snapshot()), key, Some((name, group)))
      ensures forall n | n in old(orgs) :: n in orgs && orgs[n] == old(orgs[n])
      ensures orgs.Keys == old(orgs).Keys + {name}
      ensures name !in old(orgs) ==> fresh(orgs[name])
    {
      RecordIsDesire(old(Snapshot()), key, name, group);
      AddDesiredIn(name, key, Some(group));
    }

    /** `get_organization_info(name).add_desired_group_for(key, group)`. */
    method AddDesiredIn(name: OrgName, key: UserKey, group: Option<TargetGroup>)
      requires Valid()
      modifies this`orgs, orgs.Values`desiredGroupsByUserKey, orgs.Values`designations
      ensures Valid()
      ensures Snapshot() == Desire(old(Snapshot()), name, key, if group.Some? then {group.value.name} else {})
      ensures forall n | n in old(orgs) :: n in orgs && orgs[n] == old(orgs[n])
      ensures orgs.Keys == old(orgs).Keys + {name}
      ensures name !in old(orgs) ==> fresh(orgs[name])
    {
      ghost var gs: set<GroupName> := if group.Some? then {group.value.name} else {};
      ghost var s0 := Snapshot();
      var org := GetDesiringOrganization(name);
      DesireSameHeld(s0, Snapshot(), name, key, gs);
      AddDesiredGroupOf(org, key, group);
    }

    /** `get_organization_info` seen through Snapshot: a new organization
        holds nothing, so the holdings are as good as before. */
    method GetDesiringOrganization(name: OrgName) returns (org: OrganizationInfo)
      requires Valid()
      modifies this`orgs
      ensures Valid() && name in orgs && orgs[name] == org && org.name == name
      ensures forall n | n in old(orgs) :: n in orgs && orgs[n] == old(orgs[n])
      ensures orgs.Keys == old(orgs).Keys + {name}
      ensures name !in old(orgs) ==> fresh(org)
      ensures Snapshot().Keys == old(Snapshot()).Keys + {name}
      ensures forall m | m in old(Snapshot()) && m != name :: Snapshot()[m] == old(Snapshot())[m]
      ensures Held(Snapshot(), name) == Held(old(Snapshot()), name)
    {
      org := GetOrganizationInfo(name);
      if name !in old(orgs) {
        assert org.designations.Keys == {};
      }
    }

    /** `add_desired_group_for` on an organization already filed: only its
        holding changes. */
    method AddDesiredGroupOf(org: OrganizationInfo, key: UserKey, group: Option<TargetGroup>)
      requires Valid() && org.name in orgs && orgs[org.name] == org
      modifies org`desiredGroupsByUserKey, org`designations
      ensures Valid()
      ensures Snapshot() == Desire(old(Snapshot()), org.name, key, if group.Some? then {group.value.name} else {})
    {
      ghost var gs: set<GroupName> := if group.Some? then {group.value.name} else {};
      ghost var s1 := Snapshot();
      ghost var h := Held(s1, org.name);
      assert h == OrgDesire(org.desiredGroupsByUserKey, org.designations.Keys);
      org.AddDesiredGroupFor(key, group);
      ghost var r := s1[org.name := OrgDesire(org.desiredGroupsByUserKey, org.designations.Keys)];
      assert org.designations.Keys == h.designated + gs;
      assert r == Desire(s1, org.name, key, gs);
      forall n | n in orgs
        ensures Snapshot()[n] == r[n]
      {
        if n != org.name {
          assert orgs[n] != org;
        }
      }
      assert Snapshot().Keys == r.Keys;
    }

    /** What the walk over `org` reads and does not change. */
    function CtxFor(org: OrganizationInfo): Ctx
      reads this`directoryUserByUserKey, this`filteredDirectoryUserByUserKey, this`adding
      reads org`mappedGroups, org`designations
    {
      Ctx(env, options, directoryUserByUserKey, filteredDirectoryUserByUserKey, adding,
          org.name, org.mappedGroups, org.designations)
    }

    /** What the walk over `org` changes, with `pending` for its local copy of the desired map. */
    function StateOf(org: OrganizationInfo, pending: GroupsByUserKey): WalkState
      reads this`sent
      reads org`dashboardUserByUserKey, org`orphanedDashboardUserByUserKey
      reads org`groupsAddedByUserKey, org`groupsRemovedByUserKey
    {
      WalkState(pending, org.dashboardUserByUserKey, org.orphanedDashboardUserByUserKey,
                org.groupsAddedByUserKey, org.groupsRemovedByUserKey, sent)
    }

    /** `update_dashboard_user`: one UpdateUser command to the organization's connector. */
    method UpdateDashboardUser(org: OrganizationInfo, key: UserKey, attributes: Option<Attributes>,
                               add: Option<set<GroupName>>, remove: Option<set<GroupName>>,
                               dashboardUser: Option<DashboardUser>, ghost ctx: Ctx)
      requires ctx == CtxFor(org)
      modifies this`sent
      ensures sent == old(sent) + [Sent(org.name, UpdateCommand(ctx, key, attributes, add, remove, dashboardUser))]
    {
      var attrs := UpdateAttributes(CtxFor(org), key, attributes, dashboardUser);
      var addOps := NoGroups;
      if add.Some? {
        addOps := SplitByDesignation(add.value, org.designations);
      }
      var removeOps := NoGroups;
      if remove.Some? {
        removeOps := SplitByDesignation(remove.value, org.designations);
      }
      sent := sent + [Sent(org.name, UpdateUser(key, attrs, addOps, removeOps))];
    }

    /** `try_and_update_dashboard_user`: the deltas go through the idempotence
        sets first, and are recorded there even when the update is held back
        because the user's create is in flight. */
    method TryAndUpdateDashboardUser(org: OrganizationInfo, key: UserKey, attributes: Option<Attributes>,
                                     add: Option<set<GroupName>>, remove: Option<set<GroupName>>,
                                     dashboardUser: Option<DashboardUser>, ghost ctx: Ctx)
      requires ctx == CtxFor(org)
      modifies org`groupsAddedByUserKey, org`groupsRemovedByUserKey, this`sent
      ensures org.groupsAddedByUserKey == RecordNew(old(org.groupsAddedByUserKey), key, add)
      ensures org.groupsRemovedByUserKey == RecordNew(old(org.groupsRemovedByUserKey), key, remove)
      ensures sent == old(sent) + if key in adding then [] else
                [Sent(org.name, UpdateCommand(ctx, key, attributes, NewGroups(old(org.groupsAddedByUserKey), key, add),
                                              NewGroups(old(org.groupsRemovedByUserKey), key, remove), dashboardUser))]
    {
      var toAdd := org.CalculateGroupsToAdd(key, add);
      var toRemove := org.CalculateGroupsToRemove(key, remove);
      if key !in adding {
        UpdateDashboardUser(org, key, attributes, toAdd, toRemove, dashboardUser, ctx);
      }
    }

    /** One iteration of the walk in `update_dashboard_users_for_connector`:
        record the user and pop it from the pending map; a managed user goes
        on to VisitManagedUser. */
    method VisitDashboardUser(org: OrganizationInfo, unprocessed: GroupsByUserKey, u: DashboardUser)
      returns (unprocessed': GroupsByUserKey)
      modifies org`dashboardUserByUserKey, org`orphanedDashboardUserByUserKey
      modifies org`groupsAddedByUserKey, org`groupsRemovedByUserKey, this`sent
      ensures StateOf(org, unprocessed') == Step(CtxFor(org), old(StateOf(org, unprocessed)), u)
    {
      ghost var ctx := CtxFor(org);
      unprocessed' := unprocessed;
      var key := DashboardUserKey(env, options, u);
      if key.Some? {
        var k := key.value;
        org.AddDashboardUser(k, u);
        var desired := Recorded(unprocessed, k);
        unprocessed' := unprocessed - {k};
        if DashboardIdentityType(options, u) in options.managedIdentityTypes {
          VisitManagedUser(org, unprocessed', k, desired, u, ctx);
        }
      }
      assert CtxFor(org) == ctx;
    }

    /** The rest of one iteration for a managed user: an unmatched user is
        marked orphaned; then its deltas are computed and the update tried. */
    method VisitManagedUser(org: OrganizationInfo, pending: GroupsByUserKey, k: UserKey, desired: set<GroupName>,
                            u: DashboardUser, ghost ctx: Ctx)
      requires ctx == CtxFor(org)
      modifies org`orphanedDashboardUserByUserKey, org`groupsAddedByUserKey, org`groupsRemovedByUserKey, this`sent
      ensures StateOf(org, pending) == Visit(ctx, old(StateOf(org, pending)), k, desired, u)
    {
      if k !in filteredDirectoryUserByUserKey {
        org.AddOrphanedDashboardUser(k, u);
      }
      TryManagedUser(org, pending, k, desired, u, ctx);
    }

    /** UpdateManagedUser seen as the TryUpdate step of the walk. */
    method TryManagedUser(org: OrganizationInfo, pending: GroupsByUserKey, k: UserKey, desired: set<GroupName>,
                          u: DashboardUser, ghost ctx: Ctx)
      requires ctx == CtxFor(org)
      modifies org`groupsAddedByUserKey, org`groupsRemovedByUserKey, this`sent
      ensures StateOf(org, pending) == TryUpdate(ctx, old(StateOf(org, pending)), k, Some(ManagedAttributes(ctx, k, u)),
                                                 Some(ManagedDeltas(ctx, k, desired, u).0),
                                                 Some(ManagedDeltas(ctx, k, desired, u).1), Some(u))
    {
      TryUpdateFields(ctx, StateOf(org, pending), k, Some(ManagedAttributes(ctx, k, u)),
                      Some(ManagedDeltas(ctx, k, desired, u).0), Some(ManagedDeltas(ctx, k, desired, u).1), Some(u));
      UpdateManagedUser(org, k, desired, u, ctx);
    }

    /** The deltas of a managed target user, computed and tried: for an
        orphan, the removal of its mapped groups; for a matched user, the
        attribute differences (owning organization only) and the group
        differences. */
    method UpdateManagedUser(org: OrganizationInfo, k: UserKey, desired: set<GroupName>, u: DashboardUser, ghost ctx: Ctx)
      requires ctx == CtxFor(org)
      modifies org`groupsAddedByUserKey, org`groupsRemovedByUserKey, this`sent
      ensures org.groupsAddedByUserKey == RecordNew(old(org.groupsAddedByUserKey), k, Some(ManagedDeltas(ctx, k, desired, u).0))
      ensures org.groupsRemovedByUserKey == RecordNew(old(org.groupsRemovedByUserKey), k, Some(ManagedDeltas(ctx, k, desired, u).1))
      ensures sent == old(sent) + if k in adding then [] else
                [Sent(org.name, UpdateCommand(ctx, k, Some(ManagedAttributes(ctx, k, u)),
                                              NewGroups(old(org.groupsAddedByUserKey), k, Some(ManagedDeltas(ctx, k, desired, u).0)),
                                              NewGroups(old(org.groupsRemovedByUserKey), k, Some(ManagedDeltas(ctx, k, desired, u).1)),
                                              Some(u)))]
    {
      var current := NormalizeGroups(env.normalize, u.groups);
      var attributes := map[];
      var add, remove := {}, {};
      if k !in filteredDirectoryUserByUserKey {
        if options.manageGroups {
          remove := FilterByNames(org.mappedGroups, current);
        }
      } else {
        if options.updateUserInfo && org.name == None {
          attributes := AttributeDifference(filteredDirectoryUserByUserKey[k], u);
        }
        if options.manageGroups {
          add := desired - current;
          remove := (current - desired) * org.mappedGroups;
        }
      }
      assert attributes == ManagedAttributes(ctx, k, u);
      assert (add, remove) == ManagedDeltas(ctx, k, desired, u);
      TryAndUpdateDashboardUser(org, k, Some(attributes), Some(add), Some(remove), Some(u), ctx);
    }

    /** `update_dashboard_users_for_connector`: the walk over the users the
        connector streams, returning what is left of the desired map. The
        organization's desired map is not touched, and the loaded flag is
        set once the walk is over. */
    method UpdateDashboardUsersForConnector(org: OrganizationInfo, users: seq<DashboardUser>)
      returns (unprocessed: GroupsByUserKey)
      modifies org`dashboardUserByUserKey, org`orphanedDashboardUserByUserKey, org`dashboardUsersLoaded
      modifies org`groupsAddedByUserKey, org`groupsRemovedByUserKey, this`sent
      ensures StateOf(org, unprocessed) == Walk(old(CtxFor(org)), old(StateOf(org, org.desiredGroupsByUserKey)), users)
      ensures org.dashboardUsersLoaded
    {
      ghost var ctx := CtxFor(org);
      ghost var s0 := StateOf(org, org.desiredGroupsByUserKey);
      unprocessed := org.desiredGroupsByUserKey;
      var i := 0;
      while i < |users|
        invariant 0 <= i <= |users|
        invariant CtxFor(org) == ctx
        invariant StateOf(org, unprocessed) == Walk(ctx, s0, users[..i])
      {
        unprocessed := VisitDashboardUser(org, unprocessed, users[i]);
        assert users[..i + 1][..i] == users[..i];
        i := i + 1;
      }
      assert users[..i] == users;
      org.SetDashboardUsersLoaded();
    }

    /** The owning organization, when there is one. */
    function Owning(): Option<OrganizationInfo>
      reads this`orgs
    {
      if None in orgs then Some(orgs[None]) else None
    }

    /** The owning organization's groups-added dictionary (empty before it exists). */
    function OwningAdded(): GroupsByUserKey
      reads this`orgs, orgs.Values`groupsAddedByUserKey
    {
      if None in orgs then orgs[None].groupsAddedByUserKey else map[]
    }

    /** The owning organization's desired groups for `key`. */
    function OwningDesired(key: UserKey): Option<set<GroupName>>
      reads this`orgs, orgs.Values`desiredGroupsByUserKey
    {
      if None in orgs && key in orgs[None].desiredGroupsByUserKey then Some(orgs[None].desiredGroupsByUserKey[key]) else None
    }

    /** The owning organization's designations. */
    function OwningDesignations(): Designations
      reads this`orgs, orgs.Values`designations
    {
      if None in orgs then orgs[None].designations else map[]
    }

    /** `add_dashboard_user`: an AddUser command to the owning connector, with
        the user's attributes and (when groups are managed) the owning groups
        not yet handed out, after which the key is in flight. Nothing is sent
        for an unmanaged type or a user without a country. With groups
        managed the user must be desired in the owning organization, as every
        key the create loop passes is; for any other key the source fails on
        the missing groups. */
    method AddDashboardUser(key: UserKey)
      requires Valid() && key in directoryUserByUserKey
      requires options.manageGroups ==> OwningDesired(key).Some?
      modifies this`sent, this`adding, orgs.Values`groupsAddedByUserKey
      ensures Valid()
      ensures var a := CreateAttributes(env, options, directoryUserByUserKey[key]);
              && (a.None? ==> sent == old(sent) && adding == old(adding) && OwningAdded() == old(OwningAdded()))
              && (a.Some? && !options.manageGroups ==>
                    sent == old(sent) + [Sent(None, AddUser(key, a.value, NoGroups))] && adding == old(adding) + {key})
              && (a.Some? && options.manageGroups ==>
                    && None in orgs
                    && sent == old(sent) + [Sent(None, AddUser(key, a.value,
                         SplitByDesignation(NewGroups(old(OwningAdded()), key, old(OwningDesired(key))).value,
                                            old(OwningDesignations()))))]
                    && OwningAdded() == RecordNew(old(OwningAdded()), key, old(OwningDesired(key)))
                    && adding == old(adding) + {key})
    {
      var attributes := BuildCreateAttributes(directoryUserByUserKey[key]);
      if attributes.None? {
        return;
      }
      SendAddUser(key, attributes.value);
    }

    /** The create itself, for a user whose attributes are known: with groups
        managed, the owning groups not yet handed out go with it; the key is
        then in flight. */
    method SendAddUser(key: UserKey, attributes: Attributes)
      requires Valid()
      requires options.manageGroups ==> OwningDesired(key).Some?
      modifies this`sent, this`adding, orgs.Values`groupsAddedByUserKey
      ensures Valid() && adding == old(adding) + {key}
      ensures !options.manageGroups ==> sent == old(sent) + [Sent(None, AddUser(key, attributes, NoGroups))]
      ensures options.manageGroups ==>
                && None in orgs
                && sent == old(sent) + [Sent(None, AddUser(key, attributes,
                     SplitByDesignation(NewGroups(old(OwningAdded()), key, old(OwningDesired(key))).value,
                                        old(OwningDesignations()))))]
                && OwningAdded() == RecordNew(old(OwningAdded()), key, old(OwningDesired(key)))
    {
      var groups := NoGroups;
      if options.manageGroups {
        groups := OwningGroupsToAdd(key);
      }
      ghost var added := OwningAdded();
      adding := adding + {key};
      sent := sent + [Sent(None, AddUser(key, attributes, groups))];
      assert OwningAdded() == added;
    }

    /** The groups a new user is created in: the owning groups it is desired
        in and has not been handed yet, which are then recorded as handed
        out, split by designation. The owning organization exists, since the
        user is desired there. */
    method OwningGroupsToAdd(key: UserKey) returns (groups: GroupOps)
      requires Valid() && OwningDesired(key).Some?
      modifies orgs.Values`groupsAddedByUserKey
      ensures groups == SplitByDesignation(NewGroups(old(OwningAdded()), key, old(OwningDesired(key))).value,
                                           old(OwningDesignations()))
      ensures OwningAdded() == RecordNew(old(OwningAdded()), key, old(OwningDesired(key)))
    {
      var owning := orgs[None];
      var desired := owning.GetDesiredGroups(key);
      var toAdd := owning.CalculateGroupsToAdd(key, desired);
      groups := SplitByDesignation(toAdd.value, owning.designations);
    }

    /** The attributes `add_dashboard_user` builds for the directory user `d`,
        step by step: nothing for an unmanaged type; the country falls back to
        the default country code and, for an enterprise user, to "UD", and
        without one nothing is sent; absent first and last names are dropped;
        the option says whether an existing user is updated. */
    method BuildCreateAttributes(d: DirectoryUser) returns (a: Option<Attributes>)
      ensures a == CreateAttributes(env, options, d)
    {
      var identityType := DirectoryIdentityType(options, d);
      if identityType !in options.managedIdentityTypes {
        return None;
      }
      var country := d.country;
      if !Truthy(country) {
        country := options.defaultCountryCode;
      }
      if !Truthy(country) {
        if identityType == env.enterpriseType {
          country := Some("UD");
        } else {
          return None;
        }
      }
      var attributes := UserAttributes(d)["country" := country];
      if attributes["firstname"].None? {
        attributes := attributes - {"firstname"};
      }
      if attributes["lastname"].None? {
        attributes := attributes - {"lastname"};
      }
      attributes := attributes["option" := Some(if options.updateUserInfo then "updateIfAlreadyExists" else "ignoreIfAlreadyExists")];
      a := Some(attributes);
    }

    /** `dict.get` on an idempotence dictionary. */
    static function Get(m: GroupsByUserKey, key: UserKey): (r: Option<set<GroupName>>)
      ensures r.Some? <==> key in m
      ensures r.Some? ==> r.value == m[key]
    {
      if key in m then Some(m[key]) else None
    }

    /** The added records the create callback works from in an accessor: a
        user that organization has not seen gets its desired groups recorded
        as added first. */
    static function CallbackAdded(added: GroupsByUserKey, key: UserKey, seen: bool,
                                  desired: Option<set<GroupName>>): GroupsByUserKey
    {
      if seen then added else RecordNew(added, key, desired)
    }

    /** The update the create callback sends to an accessor, stated on what
        that organization held before the callback: no attribute change, every
        group recorded as added (plus the desired ones when it has not seen
        the user) and every group recorded as removed, split by designation. */
    static function CallbackUpdate(ctx: Ctx, key: UserKey, seen: bool, desired: Option<set<GroupName>>,
                                   added: GroupsByUserKey, removed: GroupsByUserKey): Command
    {
      var added' := CallbackAdded(added, key, seen, desired);
      UpdateCommand(ctx, key, None, Get(added', key), Get(removed, key), None)
    }

    /** The callback update adds exactly the groups recorded as added before
        the callback, together with the desired ones when the accessor has not
        seen the user, and removes exactly those recorded as removed; it
        changes no attribute. */
    static lemma CallbackUpdateMeaning(ctx: Ctx, key: UserKey, seen: bool, desired: Option<set<GroupName>>,
                                       added: GroupsByUserKey, removed: GroupsByUserKey)
      ensures CallbackUpdate(ctx, key, seen, desired, added, removed)
              == UpdateUser(key, map[],
                            SplitByDesignation(Recorded(added, key) + (if seen then {} else desired.GetOr({})), ctx.designations),
                            SplitByDesignation(Recorded(removed, key), ctx.designations))
    {
      CallbackAddedRecorded(added, key, seen, desired);
      SplitRecorded(CallbackAdded(added, key, seen, desired), key, ctx.designations);
      SplitRecorded(removed, key, ctx.designations);
    }

    /** The groups CallbackAdded records for the user. */
    static lemma CallbackAddedRecorded(added: GroupsByUserKey, key: UserKey, seen: bool, desired: Option<set<GroupName>>)
      ensures Recorded(CallbackAdded(added, key, seen, desired), key)
              == Recorded(added, key) + (if seen then {} else desired.GetOr({}))
    {
      if !seen && desired.None? {
        assert Recorded(added, key) + {} == Recorded(added, key);
      }
    }

    /** The groups recorded for a user, split by designation; none when nothing is recorded. */
    static lemma SplitRecorded(m: GroupsByUserKey, key: UserKey, designations: Designations)
      ensures (if Get(m, key).Some? then SplitByDesignation(Get(m, key).value, designations) else NoGroups)
              == SplitByDesignation(Recorded(m, key), designations)
    {
      assert SplitByDesignation({}, designations) == NoGroups;
    }

    /** What the create callback leaves behind for an accessor seen as `v`
        afterwards, given its added records `added0` before the callback: the
        added records after CallbackAdded, and the update CallbackUpdate sent there. */
    static predicate CallbackDone(key: UserKey, v: AccessorView, added0: GroupsByUserKey, x: Sent)
    {
      && v.added == CallbackAdded(added0, key, v.seen, v.desired)
      && x == Sent(v.name, CallbackUpdate(v.ctx, key, v.seen, v.desired, added0, v.removed))
    }

    /** What the create callback reads of an accessor for the user `key`. */
    function ViewOf(o: OrganizationInfo, key: UserKey): AccessorView
      reads this`directoryUserByUserKey, this`filteredDirectoryUserByUserKey, this`adding
      reads o`mappedGroups, o`designations, o`groupsAddedByUserKey, o`groupsRemovedByUserKey
      reads o`dashboardUserByUserKey, o`desiredGroupsByUserKey
    {
      AccessorView(o.name, CtxFor(o), key in o.dashboardUserByUserKey, Get(o.desiredGroupsByUserKey, key),
                   o.groupsAddedByUserKey, o.groupsRemovedByUserKey)
    }

    /** The body of the create callback's loop, for one accessor. An
        organization met for the first time holds nothing, so it is sent an
        empty update. */
    method UpdateAccessorAfterCreate(name: OrgName, key: UserKey) returns (acc: OrganizationInfo)
      requires Valid()
      modifies this`sent, this`orgs, orgs.Values`groupsAddedByUserKey
      ensures Valid() && name in orgs && orgs[name] == acc
      ensures forall n | n in orgs :: n in old(orgs) || n == name
      ensures forall n | n in old(orgs) :: n in orgs && orgs[n] == old(orgs)[n]
      ensures name !in old(orgs) ==> fresh(orgs[name])
      ensures forall n | n in old(orgs) && n != name :: unchanged(orgs[n])
      ensures |sent| == |old(sent)| + 1 && sent[..|old(sent)|] == old(sent)
      ensures CallbackDone(key, ViewOf(orgs[name], key), old(AddedAt(AddedSnapshot(), name)), sent[|old(sent)|])
      ensures name !in old(orgs) ==> sent[|old(sent)|] == Sent(name, UpdateUser(key, map[], NoGroups, NoGroups))
    {
      ghost var added0 := AddedAt(AddedSnapshot(), name);
      ghost var orgs0 := orgs;
      acc := GetOrganizationInfo(name);
      assert acc.groupsAddedByUserKey == added0;
      assert forall n | n in orgs0 :: n in orgs && orgs[n] == orgs0[n];
      assert forall n | n in orgs && n != name :: orgs[n] != acc;
      SendCallbackUpdate(acc, key);
    }

    /** The callback's recording and update for one accessor already filed. */
    method SendCallbackUpdate(acc: OrganizationInfo, key: UserKey)
      modifies this`sent, acc`groupsAddedByUserKey
      ensures |sent| == |old(sent)| + 1 && sent[..|old(sent)|] == old(sent)
      ensures CallbackDone(key, ViewOf(acc, key), old(acc.groupsAddedByUserKey), sent[|old(sent)|])
      ensures old(acc.groupsAddedByUserKey) == map[] && acc.groupsRemovedByUserKey == map[]
              && acc.dashboardUserByUserKey == map[] && acc.desiredGroupsByUserKey == map[] ==>
                sent[|old(sent)|] == Sent(acc.name, UpdateUser(key, map[], NoGroups, NoGroups))
    {
      ghost var added0 := acc.groupsAddedByUserKey;
      RecordDesiredIfUnseen(acc, key);
      UpdateDashboardUser(acc, key, None, Get(acc.groupsAddedByUserKey, key), Get(acc.groupsRemovedByUserKey, key), None, CtxFor(acc));
      if added0 == map[] && acc.groupsRemovedByUserKey == map[] && acc.dashboardUserByUserKey == map[] && acc.desiredGroupsByUserKey == map[] {
        CallbackUpdateMeaning(CtxFor(acc), key, false, None, map[], map[]);
        assert SplitByDesignation({}, acc.designations) == NoGroups;
      }
    }

    /** In the create callback: an accessor that has not seen the user gets
        its desired groups recorded as added. */
    method RecordDesiredIfUnseen(acc: OrganizationInfo, key: UserKey)
      modifies acc`groupsAddedByUserKey
      ensures key !in acc.dashboardUserByUserKey ==>
                acc.groupsAddedByUserKey == RecordNew(old(acc.groupsAddedByUserKey), key, Get(acc.desiredGroupsByUserKey, key))
      ensures key in acc.dashboardUserByUserKey ==> acc.groupsAddedByUserKey == old(acc.groupsAddedByUserKey)
    {
      if acc.GetDashboardUser(key).None? {
        var _ := acc.CalculateGroupsToAdd(key, acc.GetDesiredGroups(key));
      }
    }

    /** The callback of the AddUser command: the key is no longer in flight;
        after a successful create with groups managed, every accessor gets
        one update carrying the groups recorded for the user there (its
        desired groups are recorded first when that accessor has not seen
        the user), and no other organization changes. `accessors` are the
        names of the accessor connectors, in the order they are visited. */
    method OnCreateComplete(key: UserKey, success: bool, accessors: seq<OrgName>)
      requires Valid()
      requires forall i, j | 0 <= i < j < |accessors| :: accessors[i] != accessors[j]
      modifies this`adding, this`sent, this`orgs, orgs.Values`groupsAddedByUserKey
      ensures Valid() && adding == old(adding) - {key}
      ensures !(success && options.manageGroups) ==> sent == old(sent) && orgs == old(orgs)
      ensures !(success && options.manageGroups) ==>
                forall n | n in orgs :: orgs[n].groupsAddedByUserKey == old(orgs[n].groupsAddedByUserKey)
      ensures forall n | n in old(orgs) :: n in orgs && orgs[n] == old(orgs)[n]
      ensures forall n | n in old(orgs) && n !in accessors :: orgs[n].groupsAddedByUserKey == old(orgs[n].groupsAddedByUserKey)
      ensures forall n | n in orgs && n !in old(orgs) :: n in accessors && fresh(orgs[n])
      ensures success && options.manageGroups ==>
                AccessorsUpdated(key, accessors, old(sent), old(AddedSnapshot())) && sent[..|old(sent)|] == old(sent)
    {
      adding := adding - {key};
      assert AddedSnapshot() == old(AddedSnapshot());
      if success && options.manageGroups {
        UpdateAccessorsAfterCreate(key, accessors);
      }
    }

    /** The loop of the create callback over the accessor connectors: one
        update per accessor, in order, and no other organization changes. */
    method UpdateAccessorsAfterCreate(key: UserKey, accessors: seq<OrgName>)
      requires Valid()
      requires forall i, j | 0 <= i < j < |accessors| :: accessors[i] != accessors[j]
      modifies this`sent, this`orgs, orgs.Values`groupsAddedByUserKey
      ensures Valid()
      ensures forall n | n in old(orgs) :: n in orgs && orgs[n] == old(orgs)[n]
      ensures forall n | n in old(orgs) && n !in accessors :: orgs[n].groupsAddedByUserKey == old(orgs[n].groupsAddedByUserKey)
      ensures forall n | n in orgs && n !in old(orgs) :: n in accessors && fresh(orgs[n])
      ensures AccessorsUpdated(key, accessors, old(sent), old(AddedSnapshot()))
      ensures sent[..|old(sent)|] == old(sent)
    {
      ghost var n0 := |sent|;
      ghost var orgs0 := orgs;
      ghost var added0 := AddedSnapshot();
      ghost var done: set<OrgName> := {};
      ghost var views: seq<AccessorView> := [];
      ghost var addeds: seq<GroupsByUserKey> := [];
      var i := 0;
      while i < |accessors|
        invariant 0 <= i <= |accessors|
        invariant CallbackLoop(key, accessors, i, n0, orgs0, added0, done, views, addeds)
        invariant sent[..n0] == old(sent)
        invariant forall n | n in orgs && n !in orgs0 :: fresh(orgs[n])
      {
        ghost var sent1 := sent;
        done, views, addeds := CallbackStep(key, accessors, i, n0, orgs0, added0, done, views, addeds);
        assert sent[..n0] == sent1[..n0];
        i := i + 1;
      }
      CallbackLoopEnds(key, accessors, old(sent), orgs0, added0, done, views, addeds);
    }

    /** When the callback's loop has visited every accessor, its invariant
        gives the callback's outcome against the state the loop began in. */
    lemma CallbackLoopEnds(key: UserKey, accessors: seq<OrgName>, sent0: seq<Sent>, orgs0: map<OrgName, OrganizationInfo>,
                           added0: map<OrgName, GroupsByUserKey>, done: set<OrgName>,
                           views: seq<AccessorView>, addeds: seq<GroupsByUserKey>)
      requires CallbackLoop(key, accessors, |accessors|, |sent0|, orgs0, added0, done, views, addeds)
      ensures Valid()
      ensures forall n | n in orgs0 :: n in orgs && orgs[n] == orgs0[n]
      ensures forall n | n in orgs0 && n !in accessors :: orgs[n].groupsAddedByUserKey == added0[n]
      ensures forall n | n in orgs && n !in orgs0 :: n in accessors
      ensures AccessorsUpdated(key, accessors, sent0, added0)
    {
      var n0 := |sent0|;
      forall j | 0 <= j < |accessors|
        ensures accessors[j] in orgs
        ensures CallbackDone(key, ViewOf(orgs[accessors[j]], key), AddedAt(added0, accessors[j]), sent[n0 + j])
      {
        assert ViewOf(orgs[accessors[j]], key) == views[j];
        AllDoneAt(key, views, addeds, sent[n0..], j);
        assert sent[n0..][j] == sent[n0 + j];
      }
    }

    /** The groups-added records of every organization. */
    ghost function AddedSnapshot(): (r: map<OrgName, GroupsByUserKey>)
      reads this`orgs, orgs.Values`groupsAddedByUserKey
      ensures r.Keys == orgs.Keys
    {
      map n | n in orgs :: orgs[n].groupsAddedByUserKey
    }

    /** The outcome of the create callback's loop, against the commands
        `sent0` and the added records `added0` it began with: one more command
        per accessor, the i-th being that accessor's update as CallbackDone
        states, each accessor filed and seen afterwards. */
    ghost predicate AccessorsUpdated(key: UserKey, accessors: seq<OrgName>, sent0: seq<Sent>,
                                     added0: map<OrgName, GroupsByUserKey>)
      reads this, orgs.Values
    {
      && |sent| == |sent0| + |accessors|
      && forall i | 0 <= i < |accessors| ::
           && accessors[i] in orgs
           && CallbackDone(key, ViewOf(orgs[accessors[i]], key), AddedAt(added0, accessors[i]), sent[|sent0| + i])
    }

    /** The groups-added records of organization `n` in a snapshot (none when
        the organization did not exist yet). */
    static function AddedAt(added0: map<OrgName, GroupsByUserKey>, n: OrgName): GroupsByUserKey
    {
      if n in added0 then added0[n] else map[]
    }

    /** The views of every organization for the user `key`. */
    ghost function ViewSnapshot(key: UserKey): (r: map<OrgName, AccessorView>)
      reads this, orgs.Values
      ensures r.Keys == orgs.Keys
    {
      map n | n in orgs :: ViewOf(orgs[n], key)
    }

    /** The invariant of the create callback's loop after `i` accessors, on
        the current state: see LoopState. */
    ghost predicate CallbackLoop(key: UserKey, accessors: seq<OrgName>, i: int, n0: nat, orgs0: map<OrgName, OrganizationInfo>,
                                 added0: map<OrgName, GroupsByUserKey>, done: set<OrgName>,
                                 views: seq<AccessorView>, addeds: seq<GroupsByUserKey>)
      reads this, orgs.Values
    {
      && Valid()
      && LoopState(key, accessors, i, n0, orgs0, added0, done, views, addeds, sent, orgs, AddedSnapshot(), ViewSnapshot(key))
    }

    /** The invariant of the create callback's loop after `i` accessors, on
        snapshots `sentNow`, `orgsNow`, `addedNow`, `viewsNow` of the state,
        against the state `n0`/`orgs0`/`added0` the loop began in: the
        bookkeeping of LoopFrame and the updates of LoopResults. */
    static ghost predicate LoopState(key: UserKey, accessors: seq<OrgName>, i: int, n0: nat, orgs0: map<OrgName, OrganizationInfo>,
                                     added0: map<OrgName, GroupsByUserKey>, done: set<OrgName>,
                                     views: seq<AccessorView>, addeds: seq<GroupsByUserKey>,
                                     sentNow: seq<Sent>, orgsNow: map<OrgName, OrganizationInfo>,
                                     addedNow: map<OrgName, GroupsByUserKey>, viewsNow: map<OrgName, AccessorView>)
    {
      && LoopFrame(accessors, i, n0, orgs0, added0, done, sentNow, orgsNow, addedNow, viewsNow)
      && LoopResults(key, accessors, i, n0, added0, views, addeds, sentNow, viewsNow)
    }

    /** The bookkeeping after `i` accessors: the first `i` accessors are the
        `done` ones, and they are the only organizations that were created or
        whose added records changed since `orgs0`/`added0`. */
    static ghost predicate LoopFrame(accessors: seq<OrgName>, i: int, n0: nat, orgs0: map<OrgName, OrganizationInfo>,
                                     added0: map<OrgName, GroupsByUserKey>, done: set<OrgName>,
                                     sentNow: seq<Sent>, orgsNow: map<OrgName, OrganizationInfo>,
                                     addedNow: map<OrgName, GroupsByUserKey>, viewsNow: map<OrgName, AccessorView>)
    {
      && 0 <= i <= |accessors|
      && (forall a, b | 0 <= a < b < |accessors| :: accessors[a] != accessors[b])
      && |sentNow| == n0 + i
      && added0.Keys == orgs0.Keys
      && addedNow.Keys == orgsNow.Keys && viewsNow.Keys == orgsNow.Keys
      && (forall n | n in done :: n in accessors)
      && (forall j | 0 <= j < i :: accessors[j] in done)
      && (forall j | i <= j < |accessors| :: accessors[j] !in done)
      && (forall n | n in orgs0 :: n in orgsNow && orgsNow[n] == orgs0[n])
      && (forall n | n in orgsNow && n !in orgs0 :: n in done)
      && (forall n | n in orgs0 && n !in done :: addedNow[n] == added0[n])
    }

    /** The updates after `i` accessors: accessor j was seen as `views[j]`
        after its turn, its added records were `addeds[j]` before the loop,
        and the j-th command since `n0` is its CallbackDone update. */
    static ghost predicate LoopResults(key: UserKey, accessors: seq<OrgName>, i: int, n0: nat,
                                       added0: map<OrgName, GroupsByUserKey>,
                                       views: seq<AccessorView>, addeds: seq<GroupsByUserKey>,
                                       sentNow: seq<Sent>, viewsNow: map<OrgName, AccessorView>)
    {
      && 0 <= i <= |accessors| && |views| == i && |addeds| == i && n0 <= |sentNow|
      && (forall j | 0 <= j < i :: addeds[j] == AddedAt(added0, accessors[j]))
      && (forall j | 0 <= j < i :: accessors[j] in viewsNow && viewsNow[accessors[j]] == views[j])
      && AllDone(key, views, addeds, sentNow[n0..])
    }

    /** CallbackDone for every accessor so far: the i-th view, snapshot and
        command, for each i. */
    static ghost predicate AllDone(key: UserKey, views: seq<AccessorView>, addeds: seq<GroupsByUserKey>, cmds: seq<Sent>)
      decreases |cmds|
    {
      && |views| == |addeds| == |cmds|
      && (|cmds| > 0 ==>
            && AllDone(key, views[..|cmds| - 1], addeds[..|cmds| - 1], cmds[..|cmds| - 1])
            && CallbackDone(key, views[|cmds| - 1], addeds[|cmds| - 1], cmds[|cmds| - 1]))
    }

    static lemma AllDoneSnoc(key: UserKey, views: seq<AccessorView>, addeds: seq<GroupsByUserKey>, cmds: seq<Sent>,
                             v: AccessorView, added: GroupsByUserKey, x: Sent)
      requires AllDone(key, views, addeds, cmds) && CallbackDone(key, v, added, x)
      ensures AllDone(key, views + [v], addeds + [added], cmds + [x])
    {
      assert (views + [v])[..|cmds|] == views;
      assert (addeds + [added])[..|cmds|] == addeds;
      assert (cmds + [x])[..|cmds|] == cmds;
    }

    static lemma {:induction false} AllDoneAt(key: UserKey, views: seq<AccessorView>, addeds: seq<GroupsByUserKey>, cmds: seq<Sent>, j: int)
      requires AllDone(key, views, addeds, cmds) && 0 <= j < |cmds|
      ensures CallbackDone(key, views[j], addeds[j], cmds[j])
      decreases |cmds|
    {
      if j < |cmds| - 1 {
        var n := |cmds| - 1;
        AllDoneAt(key, views[..n], addeds[..n], cmds[..n], j);
      }
    }

    /** One turn of the create callback's loop: the update for `accessors[i]`. */
    method CallbackStep(key: UserKey, accessors: seq<OrgName>, i: int, ghost n0: nat, ghost orgs0: map<OrgName, OrganizationInfo>,
                        ghost added0: map<OrgName, GroupsByUserKey>, ghost done: set<OrgName>,
                        ghost views: seq<AccessorView>, ghost addeds: seq<GroupsByUserKey>)
      returns (ghost done': set<OrgName>, ghost views': seq<AccessorView>, ghost addeds': seq<GroupsByUserKey>)
      requires 0 <= i < |accessors|
      requires CallbackLoop(key, accessors, i, n0, orgs0, added0, done, views, addeds)
      modifies this`sent, this`orgs, orgs.Values`groupsAddedByUserKey
      ensures CallbackLoop(key, accessors, i + 1, n0, orgs0, added0, done', views', addeds')
      ensures |sent| == |old(sent)| + 1 && sent[..|old(sent)|] == old(sent)
      ensures forall n | n in old(orgs) :: n in orgs && orgs[n] == old(orgs)[n]
      ensures forall n | n in orgs && n !in old(orgs) :: fresh(orgs[n])
    {
      var a := accessors[i];
      ghost var sentB, orgsB, addedB, viewsB := sent, orgs, AddedSnapshot(), ViewSnapshot(key);
      var acc := UpdateAccessorAfterCreate(a, key);
      ghost var addedA, viewsA := AddedSnapshot(), ViewSnapshot(key);
      forall n | n in orgsB && n != a
        ensures addedA[n] == addedB[n] && viewsA[n] == viewsB[n]
      {
        assert orgs[n] == orgsB[n] && unchanged(orgsB[n]);
        assert ViewOf(orgs[n], key) == old(ViewOf(orgs[n], key));
      }
      LoopStateStep(key, accessors, i, n0, orgs0, added0, done, views, addeds,
                    sentB, orgsB, addedB, viewsB, sent, orgs, addedA, viewsA);
      done', views', addeds' := done + {a}, views + [viewsA[a]], addeds + [AddedAt(addedB, a)];
    }

    /** What one turn of the callback's loop keeps: the state before the turn
        (`sentB`, `orgsB`, `addedB`, `viewsB`) satisfies the invariant for
        `i` accessors, and the turn changed only accessor `a`, adding its
        CallbackDone update; then the state after it satisfies the invariant
        for `i + 1`. */
    static lemma LoopStateStep(key: UserKey, accessors: seq<OrgName>, i: int, n0: nat, orgs0: map<OrgName, OrganizationInfo>,
                               added0: map<OrgName, GroupsByUserKey>, done: set<OrgName>,
                               views: seq<AccessorView>, addeds: seq<GroupsByUserKey>,
                               sentB: seq<Sent>, orgsB: map<OrgName, OrganizationInfo>,
                               addedB: map<OrgName, GroupsByUserKey>, viewsB: map<OrgName, AccessorView>,
                               sentA: seq<Sent>, orgsA: map<OrgName, OrganizationInfo>,
                               addedA: map<OrgName, GroupsByUserKey>, viewsA: map<OrgName, AccessorView>)
      requires 0 <= i < |accessors|
      requires LoopState(key, accessors, i, n0, orgs0, added0, done, views, addeds, sentB, orgsB, addedB, viewsB)
      requires addedA.Keys == orgsA.Keys && viewsA.Keys == orgsA.Keys
      requires accessors[i] in orgsA
      requires forall n | n in orgsA :: n in orgsB || n == accessors[i]
      requires forall n | n in orgsB :: n in orgsA && orgsA[n] == orgsB[n]
      requires forall n | n in orgsB && n != accessors[i] :: addedA[n] == addedB[n]
      requires forall n | n in orgsB && n != accessors[i] :: viewsA[n] == viewsB[n]
      requires |sentA| == |sentB| + 1 && sentA[..|sentB|] == sentB
      requires CallbackDone(key, viewsA[accessors[i]], AddedAt(addedB, accessors[i]), sentA[|sentB|])
      ensures LoopState(key, accessors, i + 1, n0, orgs0, added0, done + {accessors[i]},
                        views + [viewsA[accessors[i]]], addeds + [AddedAt(addedB, accessors[i])],
                        sentA, orgsA, addedA, viewsA)
    {
      LoopFrameStep(accessors, i, n0, orgs0, added0, done, sentB, orgsB, addedB, viewsB, sentA, orgsA, addedA, viewsA);
      var a := accessors[i];
      assert AddedAt(addedB, a) == AddedAt(added0, a) by {
        if a in orgs0 {
          assert a !in done;
        }
      }
      LoopResultsStep(key, accessors, i, n0, added0, views, addeds, sentB, viewsB, sentA, viewsA, AddedAt(addedB, a));
    }

    static lemma LoopFrameStep(accessors: seq<OrgName>, i: int, n0: nat, orgs0: map<OrgName, OrganizationInfo>,
                               added0: map<OrgName, GroupsByUserKey>, done: set<OrgName>,
                               sentB: seq<Sent>, orgsB: map<OrgName, OrganizationInfo>,
                               addedB: map<OrgName, GroupsByUserKey>, viewsB: map<OrgName, AccessorView>,
                               sentA: seq<Sent>, orgsA: map<OrgName, OrganizationInfo>,
                               addedA: map<OrgName, GroupsByUserKey>, viewsA: map<OrgName, AccessorView>)
      requires 0 <= i < |accessors|
      requires LoopFrame(accessors, i, n0, orgs0, added0, done, sentB, orgsB, addedB, viewsB)
      requires addedA.Keys == orgsA.Keys && viewsA.Keys == orgsA.Keys
      requires accessors[i] in orgsA
      requires forall n | n in orgsA :: n in orgsB || n == accessors[i]
      requires forall n | n in orgsB :: n in orgsA && orgsA[n] == orgsB[n]
      requires forall n | n in orgsB && n != accessors[i] :: addedA[n] == addedB[n]
      requires |sentA| == |sentB| + 1
      ensures LoopFrame(accessors, i + 1, n0, orgs0, added0, done + {accessors[i]}, sentA, orgsA, addedA, viewsA)
    {
    }

    static lemma LoopResultsStep(key: UserKey, accessors: seq<OrgName>, i: int, n0: nat,
                                 added0: map<OrgName, GroupsByUserKey>,
                                 views: seq<AccessorView>, addeds: seq<GroupsByUserKey>,
                                 sentB: seq<Sent>, viewsB: map<OrgName, AccessorView>,
                                 sentA: seq<Sent>, viewsA: map<OrgName, AccessorView>, before: GroupsByUserKey)
      requires 0 <= i < |accessors|
      requires forall a, b | 0 <= a < b < |accessors| :: accessors[a] != accessors[b]
      requires LoopResults(key, accessors, i, n0, added0, views, addeds, sentB, viewsB)
      requires before == AddedAt(added0, accessors[i])
      requires accessors[i] in viewsA
      requires forall n | n in viewsB && n != accessors[i] :: n in viewsA && viewsA[n] == viewsB[n]
      requires |sentA| == |sentB| + 1 && sentA[..|sentB|] == sentB
      requires CallbackDone(key, viewsA[accessors[i]], before, sentA[|sentB|])
      ensures LoopResults(key, accessors, i + 1, n0, added0, views + [viewsA[accessors[i]]],
                          addeds + [before], sentA, viewsA)
    {
      var a := accessors[i];
      ResultsExtend(accessors, i, added0, views, addeds, viewsB, viewsA, before);
      DropSnoc(sentB, sentA, n0);
      AllDoneSnoc(key, views, addeds, sentB[n0..], viewsA[a], before, sentA[|sentB|]);
    }

    static lemma DropSnoc(b: seq<Sent>, a: seq<Sent>, n0: nat)
      requires n0 <= |b| && |a| == |b| + 1 && a[..|b|] == b
      ensures a[n0..] == b[n0..] + [a[|b|]]
    {
      assert a == b + [a[|b|]];
    }

    static lemma ResultsExtend(accessors: seq<OrgName>, i: int, added0: map<OrgName, GroupsByUserKey>,
                               views: seq<AccessorView>, addeds: seq<GroupsByUserKey>,
                               viewsB: map<OrgName, AccessorView>, viewsA: map<OrgName, AccessorView>, before: GroupsByUserKey)
      requires 0 <= i < |accessors| && |views| == i && |addeds| == i
      requires forall a, b | 0 <= a < b < |accessors| :: accessors[a] != accessors[b]
      requires forall j | 0 <= j < i :: addeds[j] == AddedAt(added0, accessors[j])
      requires forall j | 0 <= j < i :: accessors[j] in viewsB && viewsB[accessors[j]] == views[j]
      requires before == AddedAt(added0, accessors[i])
      requires accessors[i] in viewsA
      requires forall n | n in viewsB && n != accessors[i] :: n in viewsA && viewsA[n] == viewsB[n]
      ensures forall j | 0 <= j < i + 1 :: (addeds + [before])[j] == AddedAt(added0, accessors[j])
      ensures forall j | 0 <= j < i + 1 ::
                accessors[j] in viewsA && viewsA[accessors[j]] == (views + [viewsA[accessors[i]]])[j]
    {
      forall j | 0 <= j < i
        ensures accessors[j] in viewsA && viewsA[accessors[j]] == views[j]
      {
        assert accessors[j] != accessors[i];
      }
    }

    /** The owning organization's orphans (none before it exists). */
    function OwningOrphans(): map<UserKey, DashboardUser>
      reads this`orgs, orgs.Values`orphanedDashboardUserByUserKey
    {
      if None in orgs then orgs[None].orphanedDashboardUserByUserKey else map[]
    }

    /** The orphan types the pass asks for: the managed types on the removal
        path, and (as written) no type at all on the delete path. */
    function OrphanTypes(): set<string>
    {
      if NeedToProcessRemoveUsers(options) then options.managedIdentityTypes else {}
    }

    /** `process_orphaned_dashboard_users`. `order` is the order in which the
        owning organization's orphan table is iterated. */
    method ProcessOrphanedDashboardUsers(order: seq<UserKey>) returns (r: Result<(), OrphanError>)
      requires forall i, j | 0 <= i < j < |order| :: order[i] != order[j]
      requires forall i | 0 <= i < |order| :: order[i] in OwningOrphans()
      requires forall k | k in OwningOrphans() :: k in order
      modifies this`removeUserKeyList
      ensures var q := OrphanQuota(options, OrphanSelection(env, OrphanTypes(), OwningOrphans(), order));
              && (q.Err? ==> r.Err? && removeUserKeyList == old(removeUserKeyList))
              && (q.Ok? ==> r.Ok? && removeUserKeyList == old(removeUserKeyList) + q.value)
    {
      if !NeedToProcessRemoveUsers(options) && !NeedToProcessDeleteUsers(options) {
        r := Err(OperationTypeInvalid);
      } else {
        var orphans := OrphanSelection(env, OrphanTypes(), OwningOrphans(), order);
        r := Ok(());
        if options.removeListOutputPath.None? && options.deleteListOutputPath.None?
           && (options.removeNonexistentUsers || options.deleteNonexistentUsers) {
          if |orphans| > options.maxMissingUsers {
            r := Err(TooManyOrphans(|orphans|));
          } else {
            RemoveFirstOrphans(orphans);
          }
        }
      }
    }

    /** The counting loop of `process_orphaned_dashboard_users`: each orphan in
        turn goes on the removal list until `max_deletions_per_run` of them have. */
    method RemoveFirstOrphans(orphans: seq<UserKey>)
      modifies this`removeUserKeyList
      ensures removeUserKeyList == old(removeUserKeyList)
                + KeySet(orphans[..if |orphans| < options.maxDeletionsPerRun then |orphans| else options.maxDeletionsPerRun])
    {
      var orphanCount := 0;
      var i := 0;
      while i < |orphans|
        invariant 0 <= i <= |orphans| && orphanCount == i && i <= options.maxDeletionsPerRun
        invariant removeUserKeyList == old(removeUserKeyList) + KeySet(orphans[..i])
      {
        orphanCount := orphanCount + 1;
        if orphanCount > options.maxDeletionsPerRun {
          break;
        }
        assert orphans[..i + 1][..i] == orphans[..i];
        assert KeySet(orphans[..i + 1]) == KeySet(orphans[..i]) + {orphans[i]};
        removeUserKeyList := removeUserKeyList + {orphans[i]};
        i := i + 1;
      }
      assert i == if |orphans| < options.maxDeletionsPerRun then |orphans| else options.maxDeletionsPerRun;
    }
  }
}
