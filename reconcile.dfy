/** The walk over one organization's target users in
    `update_dashboard_users_for_connector`, stated as a function of the state
    it starts from: this is the specification the imperative loop of
    RuleProcessor is proved against, and the lemmas below are what the walk
    guarantees. */
module Reconcile {
  import opened Wrappers
  import opened Groups
  import opened TargetGroups
  import opened Users
  import opened UserKeys
  import opened Config
  import opened Organization

  /** What the walk reads and never changes: the configuration, the
      directory users, the keys whose create is in flight, and the
      organization's name, mapped groups and their designations. */
  datatype Ctx = Ctx(
    env: Env,
    options: Options,
    directory: map<UserKey, DirectoryUser>,
    filtered: map<UserKey, DirectoryUser>,
    adding: set<UserKey>,
    org: OrgName,
    mapped: set<GroupName>,
    designations: Designations)

  /** What the walk changes: the copy of the desired map it pops from, the
      organization's target-user and orphan tables and idempotence sets, and
      the commands sent. */
  datatype WalkState = WalkState(
    pending: GroupsByUserKey,
    dashboardUsers: map<UserKey, DashboardUser>,
    orphans: map<UserKey, DashboardUser>,
    added: GroupsByUserKey,
    removed: GroupsByUserKey,
    sent: seq<Sent>)

  /** The groups a command adds. */
  function AddedBy(c: Command): set<GroupName> {
    match c
    case AddUser(_, _, groups) => AllGroups(groups)
    case UpdateUser(_, _, add, _) => AllGroups(add)
    case _ => {}
  }

  /** The groups a command removes. */
  function RemovedBy(c: Command): set<GroupName> {
    match c
    case UpdateUser(_, _, _, remove) => AllGroups(remove)
    case RemoveGroups(_, removed) => removed
    case _ => {}
  }

  /** The attribute changes a command carries. */
  function AttributesOf(c: Command): Attributes {
    match c
    case AddUser(_, attributes, _) => attributes
    case UpdateUser(_, attributes, _, _) => attributes
    case _ => map[]
  }

  /** The identity type `update_dashboard_user` uses: the directory user's
      when the key is a directory user's, else the dashboard user's. */
  function UpdateIdentityType(ctx: Ctx, key: UserKey, dashboardUser: Option<DashboardUser>): Option<string>
  {
    if key in ctx.directory then Some(DirectoryIdentityType(ctx.options, ctx.directory[key]))
    else if dashboardUser.Some? then dashboardUser.value.userType
    else None
  }

  /** The attribute changes `update_dashboard_user` sends, as written: for a
      non-Adobe-ID user the given changes (none when the caller passes None);
      for an Adobe ID user none, but the length of the argument is taken, which
      fails when the caller passed None. */
  function UpdateAttributesAsWritten(ctx: Ctx, key: UserKey, attributes: Option<Attributes>,
                                     dashboardUser: Option<DashboardUser>): (r: Result<Attributes, string>)
    ensures r.Err? <==> UpdateIdentityType(ctx, key, dashboardUser) == Some(ctx.env.adobeIdType) && attributes.None?
  {
    if UpdateIdentityType(ctx, key, dashboardUser) != Some(ctx.env.adobeIdType) then Ok(attributes.GetOr(map[]))
    else if attributes.None? then Err("TypeError: object of type 'NoneType' has no len()")
    else Ok(map[])
  }

  /** The attribute changes `update_dashboard_user` evidently means to send:
      the given ones, except none at all for an Adobe ID user. */
  function UpdateAttributes(ctx: Ctx, key: UserKey, attributes: Option<Attributes>,
                            dashboardUser: Option<DashboardUser>): (a: Attributes)
    ensures UpdateIdentityType(ctx, key, dashboardUser) == Some(ctx.env.adobeIdType) ==> a == map[]
    ensures UpdateIdentityType(ctx, key, dashboardUser) != Some(ctx.env.adobeIdType) ==> a == attributes.GetOr(map[])
  {
    if UpdateIdentityType(ctx, key, dashboardUser) != Some(ctx.env.adobeIdType) then attributes.GetOr(map[]) else map[]
  }

  /** The corrected attributes agree with the code as written wherever the
      code as written does not fail, and the failure happens exactly for an
      Adobe ID user updated from a caller that passes no attributes. */
  lemma UpdateAttributesCorrectsAsWritten(ctx: Ctx, key: UserKey, attributes: Option<Attributes>,
                                          dashboardUser: Option<DashboardUser>)
    ensures UpdateAttributesAsWritten(ctx, key, attributes, dashboardUser).Ok? ==>
              UpdateAttributesAsWritten(ctx, key, attributes, dashboardUser).value
                == UpdateAttributes(ctx, key, attributes, dashboardUser)
    ensures key in ctx.directory && DirectoryIdentityType(ctx.options, ctx.directory[key]) == ctx.env.adobeIdType ==>
              UpdateAttributesAsWritten(ctx, key, None, dashboardUser).Err?
  {
  }

  /** The command `update_dashboard_user` sends: attribute changes are dropped
      for Adobe ID users, and the groups are split by designation. */
  function UpdateCommand(ctx: Ctx, key: UserKey, attributes: Option<Attributes>, add: Option<set<GroupName>>,
                         remove: Option<set<GroupName>>, dashboardUser: Option<DashboardUser>): (c: Command)
    ensures c.UpdateUser? && c.key == key
    ensures AllGroups(c.add) == add.GetOr({}) * ctx.designations.Keys
    ensures AllGroups(c.remove) == remove.GetOr({}) * ctx.designations.Keys
    ensures forall g :: g in c.add.usergroups <==> g in add.GetOr({}) && g in ctx.designations && ctx.designations[g] == UserGroup
    ensures forall g :: g in c.add.products <==> g in add.GetOr({}) && g in ctx.designations && ctx.designations[g] == Product
    ensures forall g :: g in c.remove.usergroups <==> g in remove.GetOr({}) && g in ctx.designations && ctx.designations[g] == UserGroup
    ensures forall g :: g in c.remove.products <==> g in remove.GetOr({}) && g in ctx.designations && ctx.designations[g] == Product
    ensures AttributesOf(c) == UpdateAttributes(ctx, key, attributes, dashboardUser)
  {
    UpdateUser(key, UpdateAttributes(ctx, key, attributes, dashboardUser),
               if add.Some? then SplitByDesignation(add.value, ctx.designations) else NoGroups,
               if remove.Some? then SplitByDesignation(remove.value, ctx.designations) else NoGroups)
  }

  /** The group deltas of one target user. For a matched user: add what is
      desired and missing, remove what is present, undesired and mapped. For
      an unmatched (orphaned) user: remove every mapped group it is in. */
  function GroupDeltas(manageGroups: bool, matched: bool, desired: set<GroupName>, current: set<GroupName>,
                       mapped: set<GroupName>): (d: (set<GroupName>, set<GroupName>))
    ensures d.1 <= mapped && d.1 <= current
    ensures d.0 <= desired && d.0 !! current && d.0 !! d.1
    ensures !manageGroups ==> d == ({}, {})
    ensures manageGroups && matched ==> d.0 == desired - current && d.1 == (current - desired) * mapped
    ensures manageGroups && !matched ==> d.0 == {} && d.1 == FilterByNames(mapped, current)
  {
    if !manageGroups then ({}, {})
    else if matched then (desired - current, (current - desired) * mapped)
    else ({}, FilterByNames(mapped, current))
  }

  /** After the deltas of a matched user are applied, its mapped groups are
      exactly the desired ones and its unmapped groups are untouched; after
      those of an orphan, it is in no mapped group. */
  lemma GroupDeltasConverge(matched: bool, desired: set<GroupName>, current: set<GroupName>, mapped: set<GroupName>)
    requires desired <= mapped
    ensures var d := GroupDeltas(true, matched, desired, current, mapped);
            var after := current + d.0 - d.1;
            && after - mapped == current - mapped
            && (matched ==> after * mapped == desired)
            && (!matched ==> after * mapped == {})
  {
  }

  /** `try_and_update_dashboard_user`: the deltas are filtered through the
      idempotence sets (and recorded) first; the update is sent only when the
      user's create is not in flight. */
  function TryUpdate(ctx: Ctx, s: WalkState, key: UserKey, attributes: Option<Attributes>, add: Option<set<GroupName>>,
                     remove: Option<set<GroupName>>, dashboardUser: Option<DashboardUser>): (s': WalkState)
    ensures s'.added == RecordNew(s.added, key, add) && s'.removed == RecordNew(s.removed, key, remove)
    ensures s'.pending == s.pending && s'.dashboardUsers == s.dashboardUsers && s'.orphans == s.orphans
    ensures key in ctx.adding ==> s'.sent == s.sent
    ensures key !in ctx.adding ==> |s'.sent| == |s.sent| + 1 && s'.sent[..|s.sent|] == s.sent
    ensures key !in ctx.adding ==>
              var c := s'.sent[|s.sent|].cmd;
              && s'.sent[|s.sent|].org == ctx.org && c.UpdateUser? && c.key == key
              && AddedBy(c) <= NewGroups(s.added, key, add).GetOr({})
              && RemovedBy(c) <= NewGroups(s.removed, key, remove).GetOr({})
  {
    var toAdd := NewGroups(s.added, key, add);
    var toRemove := NewGroups(s.removed, key, remove);
    var s1 := s.(added := RecordNew(s.added, key, add), removed := RecordNew(s.removed, key, remove));
    if key !in ctx.adding then
      s1.(sent := s.sent + [Sent(ctx.org, UpdateCommand(ctx, key, attributes, toAdd, toRemove, dashboardUser))])
    else s1
  }

  /** TryUpdate spelled out field by field. */
  lemma TryUpdateFields(ctx: Ctx, s: WalkState, key: UserKey, attributes: Option<Attributes>, add: Option<set<GroupName>>,
                        remove: Option<set<GroupName>>, dashboardUser: Option<DashboardUser>)
    ensures TryUpdate(ctx, s, key, attributes, add, remove, dashboardUser)
            == s.(added := RecordNew(s.added, key, add), removed := RecordNew(s.removed, key, remove),
                  sent := s.sent + if key in ctx.adding then [] else
                    [Sent(ctx.org, UpdateCommand(ctx, key, attributes, NewGroups(s.added, key, add),
                                                 NewGroups(s.removed, key, remove), dashboardUser))])
  {
    if key in ctx.adding {
      assert s.sent + [] == s.sent;
    }
  }

  /** A managed user's visit, spelled out: the orphan mark, then
      TryUpdate's recording and its command. */
  lemma VisitFields(ctx: Ctx, s: WalkState, key: UserKey, desired: set<GroupName>, u: DashboardUser)
    ensures var d := ManagedDeltas(ctx, key, desired, u);
            Visit(ctx, s, key, desired, u)
            == WalkState(s.pending, s.dashboardUsers, if key in ctx.filtered then s.orphans else s.orphans[key := u],
                         RecordNew(s.added, key, Some(d.0)), RecordNew(s.removed, key, Some(d.1)),
                         s.sent + if key in ctx.adding then [] else
                           [Sent(ctx.org, UpdateCommand(ctx, key, Some(ManagedAttributes(ctx, key, u)),
                                                        NewGroups(s.added, key, Some(d.0)),
                                                        NewGroups(s.removed, key, Some(d.1)), Some(u)))])
  {
    var s1 := if key in ctx.filtered then s else s.(orphans := s.orphans[key := u]);
    var d := ManagedDeltas(ctx, key, desired, u);
    TryUpdateFields(ctx, s1, key, Some(ManagedAttributes(ctx, key, u)), Some(d.0), Some(d.1), Some(u));
  }

  /** True when the walk drops a user without looking at its groups: the
      key is derived, but its identity type is not managed. */
  predicate Unmanaged(ctx: Ctx, u: DashboardUser) {
    DashboardIdentityType(ctx.options, u) !in ctx.options.managedIdentityTypes
  }

  /** One iteration of the loop. The user is recorded in the target-user
      table and popped from the pending map before the identity-type check;
      a managed user with no selected directory user becomes an orphan. */
  function Step(ctx: Ctx, s: WalkState, u: DashboardUser): WalkState
  {
    match DashboardUserKey(ctx.env, ctx.options, u)
    case None => s
    case Some(key) =>
      var s1 := s.(dashboardUsers := s.dashboardUsers[key := u], pending := s.pending - {key});
      if Unmanaged(ctx, u) then s1 else Visit(ctx, s1, key, Recorded(s.pending, key), u)
  }

  /** The part of a Step that concerns a managed user: orphan marking,
      attribute and group deltas, and the update. */
  function Visit(ctx: Ctx, s: WalkState, key: UserKey, desired: set<GroupName>, u: DashboardUser): WalkState
  {
    var s1 := if key in ctx.filtered then s else s.(orphans := s.orphans[key := u]);
    var d := ManagedDeltas(ctx, key, desired, u);
    TryUpdate(ctx, s1, key, Some(ManagedAttributes(ctx, key, u)), Some(d.0), Some(d.1), Some(u))
  }

  /** The attribute changes sent for a managed target user: the differences
      from its selected directory user, in the owning organization and when
      user info is updated; none otherwise. */
  function ManagedAttributes(ctx: Ctx, key: UserKey, u: DashboardUser): (a: Attributes)
    ensures key !in ctx.filtered || !ctx.options.updateUserInfo || ctx.org != None ==> a == map[]
    ensures key in ctx.filtered && ctx.options.updateUserInfo && ctx.org == None ==>
              a == AttributeDifference(ctx.filtered[key], u)
  {
    if key in ctx.filtered && ctx.options.updateUserInfo && ctx.org == None
    then AttributeDifference(ctx.filtered[key], u) else map[]
  }

  /** The group deltas of a managed target user, against the groups it is in
      now: a selected user gains the desired groups it lacks and loses the
      mapped groups it has but is not desired in; an orphan loses every
      mapped group it has; nothing changes when groups are not managed. */
  function ManagedDeltas(ctx: Ctx, key: UserKey, desired: set<GroupName>, u: DashboardUser): (d: (set<GroupName>, set<GroupName>))
    ensures d.1 <= ctx.mapped
    ensures !ctx.options.manageGroups ==> d == ({}, {})
    ensures ctx.options.manageGroups && key in ctx.filtered ==>
              d.0 == desired - NormalizeGroups(ctx.env.normalize, u.groups)
              && d.1 == (NormalizeGroups(ctx.env.normalize, u.groups) - desired) * ctx.mapped
    ensures ctx.options.manageGroups && key !in ctx.filtered ==>
              d.0 == {} && d.1 == ctx.mapped * NormalizeGroups(ctx.env.normalize, u.groups)
  {
    GroupDeltas(ctx.options.manageGroups, key in ctx.filtered, desired, NormalizeGroups(ctx.env.normalize, u.groups), ctx.mapped)
  }

  /** The loop over the whole stream, one Step per user in order. */
  function Walk(ctx: Ctx, s: WalkState, users: seq<DashboardUser>): WalkState
    decreases |users|
  {
    if |users| == 0 then s else Step(ctx, Walk(ctx, s, users[..|users| - 1]), users[|users| - 1])
  }

  /** The keys of the streamed users (those whose key can be derived). */
  function StreamKeys(ctx: Ctx, users: seq<DashboardUser>): set<UserKey>
  {
    set i | 0 <= i < |users| && DashboardUserKey(ctx.env, ctx.options, users[i]).Some? ::
      DashboardUserKey(ctx.env, ctx.options, users[i]).value
  }

  /** The keys of the streamed users that become orphans: managed, and not
      matched by a selected directory user. */
  function OrphanKeys(ctx: Ctx, users: seq<DashboardUser>): set<UserKey>
  {
    set i | 0 <= i < |users| && DashboardUserKey(ctx.env, ctx.options, users[i]).Some?
                              && !Unmanaged(ctx, users[i])
                              && DashboardUserKey(ctx.env, ctx.options, users[i]).value !in ctx.filtered ::
      DashboardUserKey(ctx.env, ctx.options, users[i]).value
  }

  lemma StreamKeysSnoc(ctx: Ctx, users: seq<DashboardUser>)
    requires |users| > 0
    ensures var last := users[|users| - 1];
            var key := DashboardUserKey(ctx.env, ctx.options, last);
            && StreamKeys(ctx, users) == StreamKeys(ctx, users[..|users| - 1]) + (if key.Some? then {key.value} else {})
            && OrphanKeys(ctx, users) == OrphanKeys(ctx, users[..|users| - 1])
                 + (if key.Some? && !Unmanaged(ctx, last) && key.value !in ctx.filtered then {key.value} else {})
  {
    var init := users[..|users| - 1];
    assert forall i | 0 <= i < |init| :: init[i] == users[i];
  }

  /** The creation candidates: what is left of the desired map once the
      stream ends is the desired map without every key seen in the stream,
      unmanaged users included. */
  lemma {:induction false} WalkPending(ctx: Ctx, s: WalkState, users: seq<DashboardUser>)
    ensures Walk(ctx, s, users).pending == s.pending - StreamKeys(ctx, users)
    decreases |users|
  {
    if |users| > 0 {
      WalkPending(ctx, s, users[..|users| - 1]);
      StreamKeysSnoc(ctx, users);
      StepTables(ctx, Walk(ctx, s, users[..|users| - 1]), users[|users| - 1]);
    }
  }

  /** What one Step does to the tables, whatever it sends. */
  lemma StepTables(ctx: Ctx, s: WalkState, u: DashboardUser)
    ensures var key := DashboardUserKey(ctx.env, ctx.options, u);
            var s' := Step(ctx, s, u);
            && (key.None? ==> s' == s)
            && (key.Some? ==> && s'.pending == s.pending - {key.value}
                              && s'.dashboardUsers == s.dashboardUsers[key.value := u]
                              && s'.orphans == if !Unmanaged(ctx, u) && key.value !in ctx.filtered
                                               then s.orphans[key.value := u] else s.orphans)
  {
  }

  /** Every streamed user is recorded in the target-user table. */
  lemma {:induction false} WalkRecordsUsers(ctx: Ctx, s: WalkState, users: seq<DashboardUser>)
    ensures Walk(ctx, s, users).dashboardUsers.Keys == s.dashboardUsers.Keys + StreamKeys(ctx, users)
    decreases |users|
  {
    if |users| > 0 {
      WalkRecordsUsers(ctx, s, users[..|users| - 1]);
      StreamKeysSnoc(ctx, users);
      StepTables(ctx, Walk(ctx, s, users[..|users| - 1]), users[|users| - 1]);
    }
  }

  /** The managed streamed users with no selected directory user are
      recorded in the orphan table, and nobody else is. */
  lemma {:induction false} WalkRecordsOrphans(ctx: Ctx, s: WalkState, users: seq<DashboardUser>)
    ensures Walk(ctx, s, users).orphans.Keys == s.orphans.Keys + OrphanKeys(ctx, users)
    decreases |users|
  {
    if |users| > 0 {
      WalkRecordsOrphans(ctx, s, users[..|users| - 1]);
      StreamKeysSnoc(ctx, users);
      StepTables(ctx, Walk(ctx, s, users[..|users| - 1]), users[|users| - 1]);
    }
  }

  /** The idempotence sets only grow during the walk. */
  lemma {:induction false} WalkMonotone(ctx: Ctx, s: WalkState, users: seq<DashboardUser>)
    ensures forall k :: Recorded(s.added, k) <= Recorded(Walk(ctx, s, users).added, k)
    ensures forall k :: Recorded(s.removed, k) <= Recorded(Walk(ctx, s, users).removed, k)
    decreases |users|
  {
    if |users| > 0 {
      WalkMonotone(ctx, s, users[..|users| - 1]);
    }
  }

  /** What every command the walk sends satisfies: it goes to this
      organization, concerns a user whose create is not in flight, removes
      only mapped groups, and carries attribute changes only in the owning
      organization with `update_user_info` set. */
  ghost predicate SafeCommand(ctx: Ctx, x: Sent) {
    && x.org == ctx.org
    && x.cmd.UpdateUser?
    && x.cmd.key !in ctx.adding
    && RemovedBy(x.cmd) <= ctx.mapped
    && (AttributesOf(x.cmd) != map[] ==> ctx.org == None && ctx.options.updateUserInfo)
  }

  /** The groups sent for addition (removal) in the new commands are recorded
      now, were not recorded when the walk began, and no two new commands for
      the same user share one. */
  ghost predicate IssuedOnce(s0: WalkState, s: WalkState) {
    && |s0.sent| <= |s.sent| && s.sent[..|s0.sent|] == s0.sent
    && (forall i | |s0.sent| <= i < |s.sent| ::
          var c := s.sent[i].cmd;
          && AddedBy(c) <= Recorded(s.added, KeyOf(c)) && AddedBy(c) !! Recorded(s0.added, KeyOf(c))
          && RemovedBy(c) <= Recorded(s.removed, KeyOf(c)) && RemovedBy(c) !! Recorded(s0.removed, KeyOf(c)))
    && (forall i, j | |s0.sent| <= i < j < |s.sent| && KeyOf(s.sent[i].cmd) == KeyOf(s.sent[j].cmd) ::
          AddedBy(s.sent[i].cmd) * AddedBy(s.sent[j].cmd) == {}
          && RemovedBy(s.sent[i].cmd) * RemovedBy(s.sent[j].cmd) == {})
  }

  /** Step's monotone effect on the idempotence sets. */
  ghost predicate Grows(s: WalkState, s': WalkState) {
    forall k :: Recorded(s.added, k) <= Recorded(s'.added, k) && Recorded(s.removed, k) <= Recorded(s'.removed, k)
  }

  /** What one Step sends: nothing, or one safe command for the streamed
      user, carrying groups not recorded before the step and recorded after. */
  ghost predicate SendsFresh(ctx: Ctx, s: WalkState, s': WalkState, key: UserKey) {
    && |s'.sent| == |s.sent| + 1 && s'.sent[..|s.sent|] == s.sent
    && SafeCommand(ctx, s'.sent[|s.sent|])
    && var c := s'.sent[|s.sent|].cmd;
       && KeyOf(c) == key
       && AddedBy(c) !! Recorded(s.added, key) && AddedBy(c) <= Recorded(s'.added, key)
       && RemovedBy(c) !! Recorded(s.removed, key) && RemovedBy(c) <= Recorded(s'.removed, key)
  }

  lemma TryUpdateSends(ctx: Ctx, s: WalkState, key: UserKey, attributes: Option<Attributes>, add: set<GroupName>,
                        remove: set<GroupName>, dashboardUser: Option<DashboardUser>)
    requires remove <= ctx.mapped
    requires attributes.GetOr(map[]) != map[] ==> ctx.org == None && ctx.options.updateUserInfo
    ensures var s' := TryUpdate(ctx, s, key, attributes, Some(add), Some(remove), dashboardUser);
            Grows(s, s') && (s'.sent == s.sent || SendsFresh(ctx, s, s', key))
  {
    var s' := TryUpdate(ctx, s, key, attributes, Some(add), Some(remove), dashboardUser);
    RecordNewGrows(s.added, key, Some(add));
    RecordNewGrows(s.removed, key, Some(remove));
    if key !in ctx.adding {
      RecordNewCovers(s.added, key, Some(add));
      RecordNewCovers(s.removed, key, Some(remove));
    }
  }

  lemma RecordNewGrows(recorded: GroupsByUserKey, key: UserKey, desired: Option<set<GroupName>>)
    ensures forall k :: Recorded(recorded, k) <= Recorded(RecordNew(recorded, key, desired), k)
  {
  }

  lemma RecordNewCovers(recorded: GroupsByUserKey, key: UserKey, desired: Option<set<GroupName>>)
    ensures NewGroups(recorded, key, desired).GetOr({}) !! Recorded(recorded, key)
    ensures NewGroups(recorded, key, desired).GetOr({}) <= Recorded(RecordNew(recorded, key, desired), key)
  {
  }

  lemma VisitSends(ctx: Ctx, s: WalkState, key: UserKey, desired: set<GroupName>, u: DashboardUser)
    ensures Visit(ctx, s, key, desired, u).sent == s.sent || SendsFresh(ctx, s, Visit(ctx, s, key, desired, u), key)
  {
    var current := NormalizeGroups(ctx.env.normalize, u.groups);
    var matched := key in ctx.filtered;
    var s1 := if matched then s else s.(orphans := s.orphans[key := u]);
    var attributes := if matched && ctx.options.updateUserInfo && ctx.org == None
                      then AttributeDifference(ctx.filtered[key], u) else map[];
    var d := GroupDeltas(ctx.options.manageGroups, matched, desired, current, ctx.mapped);
    TryUpdateSends(ctx, s1, key, Some(attributes), d.0, d.1, Some(u));
  }

  lemma StepSends(ctx: Ctx, s: WalkState, u: DashboardUser)
    ensures || Step(ctx, s, u).sent == s.sent
            || (DashboardUserKey(ctx.env, ctx.options, u).Some?
                && SendsFresh(ctx, s, Step(ctx, s, u), DashboardUserKey(ctx.env, ctx.options, u).value))
  {
    match DashboardUserKey(ctx.env, ctx.options, u)
    case None =>
    case Some(key) =>
      var s1 := s.(dashboardUsers := s.dashboardUsers[key := u], pending := s.pending - {key});
      if !Unmanaged(ctx, u) {
        VisitSends(ctx, s1, key, Recorded(s.pending, key), u);
      }
  }

  lemma StepGrows(ctx: Ctx, s: WalkState, u: DashboardUser)
    ensures Grows(s, Step(ctx, s, u))
  {
    match DashboardUserKey(ctx.env, ctx.options, u)
    case None =>
    case Some(key) =>
      var s' := Step(ctx, s, u);
      if !Unmanaged(ctx, u) {
        RecordNewGrows(s.added, key, Some(GroupDeltas(ctx.options.manageGroups, key in ctx.filtered,
          Recorded(s.pending, key), NormalizeGroups(ctx.env.normalize, u.groups), ctx.mapped).0));
        RecordNewGrows(s.removed, key, Some(GroupDeltas(ctx.options.manageGroups, key in ctx.filtered,
          Recorded(s.pending, key), NormalizeGroups(ctx.env.normalize, u.groups), ctx.mapped).1));
      }
  }

  lemma AppendIssuedOnce(s0: WalkState, s: WalkState, s': WalkState, key: UserKey)
    requires IssuedOnce(s0, s) && Grows(s0, s) && Grows(s, s')
    requires s'.sent == s.sent || (|s'.sent| == |s.sent| + 1 && s'.sent[..|s.sent|] == s.sent
      && var c := s'.sent[|s.sent|].cmd;
         && KeyOf(c) == key
         && AddedBy(c) !! Recorded(s.added, key) && AddedBy(c) <= Recorded(s'.added, key)
         && RemovedBy(c) !! Recorded(s.removed, key) && RemovedBy(c) <= Recorded(s'.removed, key))
    ensures IssuedOnce(s0, s') && Grows(s0, s')
  {
    var n := |s.sent|;
    assert forall i | 0 <= i < n :: s'.sent[i] == s.sent[i] by {
      if s'.sent != s.sent { assert forall i | 0 <= i < n :: s'.sent[..n][i] == s'.sent[i]; }
    }
  }

  /** The walk only appends commands, each of them safe, and never hands out
      the same group addition or removal twice for a user. */
  lemma {:induction false} WalkCommands(ctx: Ctx, s: WalkState, users: seq<DashboardUser>)
    ensures |s.sent| <= |Walk(ctx, s, users).sent| && Walk(ctx, s, users).sent[..|s.sent|] == s.sent
    ensures forall i | |s.sent| <= i < |Walk(ctx, s, users).sent| :: SafeCommand(ctx, Walk(ctx, s, users).sent[i])
    ensures IssuedOnce(s, Walk(ctx, s, users))
    decreases |users|
  {
    if |users| > 0 {
      var init := users[..|users| - 1];
      WalkCommands(ctx, s, init);
      WalkMonotone(ctx, s, init);
      var w := Walk(ctx, s, init);
      var u := users[|users| - 1];
      StepSends(ctx, w, u);
      StepGrows(ctx, w, u);
      var key := DashboardUserKey(ctx.env, ctx.options, u).GetOr("");
      assert Grows(s, w);
      AppendIssuedOnce(s, w, Step(ctx, w, u), key);
    } else {
      assert s.sent[..|s.sent|] == s.sent;
    }
  }
}
