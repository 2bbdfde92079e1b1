/** Per-organization bookkeeping (OrganizationInfo) and the idempotence rule
    of `get_new_groups`: a group is handed out for adding (or removing) at most
    once per user per run. */
module Organization {
  import opened Wrappers
  import opened Groups
  import opened TargetGroups
  import opened Users
  import opened UserKeys

  type GroupsByUserKey = map<UserKey, set<GroupName>>

  /** The groups recorded for a user, the empty set when none are. */
  function Recorded(recorded: GroupsByUserKey, key: UserKey): set<GroupName>
  {
    if key in recorded then recorded[key] else {}
  }

  /** The result of `get_new_groups`: None for None, else the candidates not yet recorded. */
  function NewGroups(recorded: GroupsByUserKey, key: UserKey, desired: Option<set<GroupName>>): (r: Option<set<GroupName>>)
    ensures r.None? <==> desired.None?
    ensures r.Some? ==> r.value <= desired.value && r.value !! Recorded(recorded, key)
    ensures r.Some? ==> desired.value <= r.value + Recorded(recorded, key)
  {
    match desired
    case None => None
    case Some(d) => Some(if key in recorded then d - recorded[key] else d)
  }

  /** The dictionary after `get_new_groups`: the new groups are unioned into
      the user's entry, which is created only when there is something to add. */
  function RecordNew(recorded: GroupsByUserKey, key: UserKey, desired: Option<set<GroupName>>): (recorded': GroupsByUserKey)
    ensures forall k | k in recorded :: k in recorded' && recorded[k] <= recorded'[k]
    ensures forall k | k != key :: (k in recorded' <==> k in recorded) && (k in recorded ==> recorded'[k] == recorded[k])
    ensures desired.None? ==> recorded' == recorded
    ensures desired.Some? ==> Recorded(recorded', key) == Recorded(recorded, key) + desired.value
  {
    match desired
    case None => recorded
    case Some(d) =>
      var n := d - Recorded(recorded, key);
      if |n| > 0 then recorded[key := Recorded(recorded, key) + n] else recorded
  }

  /** Asking again at once for the same set gives nothing new. */
  lemma NewGroupsAgainIsEmpty(recorded: GroupsByUserKey, key: UserKey, desired: set<GroupName>)
    ensures NewGroups(RecordNew(recorded, key, Some(desired)), key, Some(desired)) == Some({})
    ensures RecordNew(RecordNew(recorded, key, Some(desired)), key, Some(desired)) == RecordNew(recorded, key, Some(desired))
  {
  }

  /** What successive `get_new_groups` calls for one user hand out (None hands out nothing). */
  function Deltas(recorded: GroupsByUserKey, key: UserKey, ds: seq<Option<set<GroupName>>>): (out: seq<set<GroupName>>)
    decreases |ds|
  {
    if |ds| == 0 then []
    else [NewGroups(recorded, key, ds[0]).GetOr({})] + Deltas(RecordNew(recorded, key, ds[0]), key, ds[1..])
  }

  /** The dictionary after those successive calls. */
  function RecordAll(recorded: GroupsByUserKey, key: UserKey, ds: seq<Option<set<GroupName>>>): GroupsByUserKey
    decreases |ds|
  {
    if |ds| == 0 then recorded else RecordAll(RecordNew(recorded, key, ds[0]), key, ds[1..])
  }

  /** However often the deltas are recomputed in a run, no group is handed out
      twice for the same user, none that was recorded before is handed out,
      and every one handed out ends up recorded. */
  lemma {:induction false} DeltasIssuedAtMostOnce(recorded: GroupsByUserKey, key: UserKey, ds: seq<Option<set<GroupName>>>)
    ensures var out := Deltas(recorded, key, ds);
            var final := Recorded(RecordAll(recorded, key, ds), key);
            && |out| == |ds|
            && Recorded(recorded, key) <= final
            && (forall i | 0 <= i < |out| :: out[i] !! Recorded(recorded, key) && out[i] <= final)
    decreases |ds|
  {
    if |ds| > 0 {
      var next := RecordNew(recorded, key, ds[0]);
      var rest := Deltas(next, key, ds[1..]);
      var final := Recorded(RecordAll(next, key, ds[1..]), key);
      DeltasIssuedAtMostOnce(next, key, ds[1..]);
      var first := NewGroups(recorded, key, ds[0]).GetOr({});
      FirstDelta(recorded, key, ds[0]);
      var out := [first] + rest;
      assert Deltas(recorded, key, ds) == out;
      assert RecordAll(recorded, key, ds) == RecordAll(next, key, ds[1..]);
      assert forall i | 0 <= i < |rest| :: rest[i] !! Recorded(next, key) && rest[i] <= final;
      forall i | 0 <= i < |out| ensures out[i] !! Recorded(recorded, key) && out[i] <= final {
        if i > 0 { assert out[i] == rest[i - 1]; }
      }
    }
  }

  /** No group occurs in two of the sets. */
  ghost predicate PairwiseDisjoint(out: seq<set<GroupName>>) {
    forall i, j | 0 <= i < j < |out| :: out[i] * out[j] == {}
  }

  /** However often the deltas are recomputed, no group is handed out twice for the same user. */
  lemma {:induction false} DeltasPairwiseDisjoint(recorded: GroupsByUserKey, key: UserKey, ds: seq<Option<set<GroupName>>>)
    ensures PairwiseDisjoint(Deltas(recorded, key, ds))
    decreases |ds|
  {
    if |ds| > 0 {
      var next := RecordNew(recorded, key, ds[0]);
      var rest := Deltas(next, key, ds[1..]);
      DeltasIssuedAtMostOnce(next, key, ds[1..]);
      DeltasPairwiseDisjoint(next, key, ds[1..]);
      var first := NewGroups(recorded, key, ds[0]).GetOr({});
      FirstDelta(recorded, key, ds[0]);
      assert Deltas(recorded, key, ds) == [first] + rest;
      ConsPairwiseDisjoint(first, rest, Recorded(next, key));
    }
  }

  lemma ConsPairwiseDisjoint(first: set<GroupName>, rest: seq<set<GroupName>>, before: set<GroupName>)
    requires first <= before
    requires forall i | 0 <= i < |rest| :: rest[i] !! before
    requires PairwiseDisjoint(rest)
    ensures PairwiseDisjoint([first] + rest)
  {
    var out := [first] + rest;
    forall i, j | 0 <= i < j < |out| ensures out[i] * out[j] == {} {
      assert out[j] == rest[j - 1];
      if i > 0 {
        assert out[i] == rest[i - 1];
      }
    }
  }

  /** One call hands out groups not recorded before, and records them. */
  lemma FirstDelta(recorded: GroupsByUserKey, key: UserKey, d: Option<set<GroupName>>)
    ensures NewGroups(recorded, key, d).GetOr({}) !! Recorded(recorded, key)
    ensures Recorded(RecordNew(recorded, key, d), key) == Recorded(recorded, key) + NewGroups(recorded, key, d).GetOr({})
  {
  }

  /** `get_new_groups`, step by step as the source does it: the candidates not
      yet recorded, unioned into the user's entry when there are any. */
  method GetNewGroups(recorded: GroupsByUserKey, key: UserKey, desired: Option<set<GroupName>>)
    returns (newGroups: Option<set<GroupName>>, recorded': GroupsByUserKey)
    ensures newGroups == NewGroups(recorded, key, desired)
    ensures recorded' == RecordNew(recorded, key, desired)
  {
    newGroups, recorded' := None, recorded;
    if desired.Some? {
      var current: Option<set<GroupName>> := if key in recorded then Some(recorded[key]) else None;
      if current.Some? {
        newGroups := Some(desired.value - current.value);
      } else {
        newGroups := desired;
      }
      ghost var n := desired.value - Recorded(recorded, key);
      assert newGroups.value == n;
      if |newGroups.value| > 0 {
        var groups := if current.None? then {} else current.value;
        assert groups == Recorded(recorded, key);
        recorded' := recorded[key := groups + newGroups.value];
        assert recorded' == recorded[key := Recorded(recorded, key) + n];
      }
    }
  }

  /** What the removal pass reads of an organization. */
  datatype OrgView = OrgView(
    name: OrgName,
    mappedGroups: set<GroupName>,
    dashboardUsers: map<UserKey, DashboardUser>,
    loaded: bool)

  /** `OrganizationInfo`. */
  class OrganizationInfo {
    const name: OrgName
    var mappedGroups: set<GroupName>
    var designations: Designations
    var desiredGroupsByUserKey: GroupsByUserKey
    var dashboardUserByUserKey: map<UserKey, DashboardUser>
    var dashboardUsersLoaded: bool
    var orphanedDashboardUserByUserKey: map<UserKey, DashboardUser>
    var groupsAddedByUserKey: GroupsByUserKey
    var groupsRemovedByUserKey: GroupsByUserKey

    constructor (name: OrgName)
      ensures this.name == name
      ensures mappedGroups == {} && designations == map[] && desiredGroupsByUserKey == map[]
      ensures dashboardUserByUserKey == map[] && !dashboardUsersLoaded && orphanedDashboardUserByUserKey == map[]
      ensures groupsAddedByUserKey == map[] && groupsRemovedByUserKey == map[]
      ensures Covered()
    {
      this.name := name;
      mappedGroups, designations, desiredGroupsByUserKey := {}, map[], map[];
      dashboardUserByUserKey, dashboardUsersLoaded, orphanedDashboardUserByUserKey := map[], false, map[];
      groupsAddedByUserKey, groupsRemovedByUserKey := map[], map[];
    }

    /** Every mapped and every desired group name has a designation, so
        splitting them by designation loses none of them. */
    ghost predicate Covered()
      reads this`mappedGroups, this`designations, this`desiredGroupsByUserKey
    {
      && mappedGroups <= designations.Keys
      && forall k | k in desiredGroupsByUserKey :: desiredGroupsByUserKey[k] <= designations.Keys
    }

    /** `add_mapped_group`. A name already met keeps the designation it came with. */
    method AddMappedGroup(group: TargetGroup)
      modifies this`mappedGroups, this`designations
      ensures mappedGroups == old(mappedGroups) + {group.name}
      ensures designations == NoteDesignation(old(designations), group)
      ensures old(Covered()) ==> Covered()
    {
      mappedGroups := mappedGroups + {group.name};
      if group.name !in designations {
        designations := designations[group.name := group.designation];
      }
    }

    /** `get_desired_groups`. */
    function GetDesiredGroups(key: UserKey): (r: Option<set<GroupName>>)
      reads this
      ensures r.Some? <==> key in desiredGroupsByUserKey
      ensures r.Some? ==> r.value == desiredGroupsByUserKey[key]
    {
      if key in desiredGroupsByUserKey then Some(desiredGroupsByUserKey[key]) else None
    }

    /** `add_desired_group_for`: the user becomes desired here, with the group if one is given. */
    method AddDesiredGroupFor(key: UserKey, group: Option<TargetGroup>)
      modifies this`desiredGroupsByUserKey, this`designations
      ensures desiredGroupsByUserKey ==
                old(desiredGroupsByUserKey)[key := Recorded(old(desiredGroupsByUserKey), key)
                                                   + (if group.Some? then {group.value.name} else {})]
      ensures designations == if group.Some? then NoteDesignation(old(designations), group.value) else old(designations)
      ensures old(Covered()) ==> Covered()
    {
      var groups := Recorded(desiredGroupsByUserKey, key);
      if group.Some? {
        groups := groups + {group.value.name};
        if group.value.name !in designations {
          designations := designations[group.value.name := group.value.designation];
        }
      }
      assert groups == Recorded(desiredGroupsByUserKey, key) + (if group.Some? then {group.value.name} else {});
      desiredGroupsByUserKey := desiredGroupsByUserKey[key := groups];
    }

    /** `add_dashboard_user`. */
    method AddDashboardUser(key: UserKey, user: DashboardUser)
      modifies this`dashboardUserByUserKey
      ensures dashboardUserByUserKey == old(dashboardUserByUserKey)[key := user]
    {
      dashboardUserByUserKey := dashboardUserByUserKey[key := user];
    }

    /** `get_dashboard_user`. */
    function GetDashboardUser(key: UserKey): (r: Option<DashboardUser>)
      reads this
      ensures r.Some? <==> key in dashboardUserByUserKey
      ensures r.Some? ==> r.value == dashboardUserByUserKey[key]
    {
      if key in dashboardUserByUserKey then Some(dashboardUserByUserKey[key]) else None
    }

    /** `set_dashboard_users_loaded`. */
    method SetDashboardUsersLoaded()
      modifies this`dashboardUsersLoaded
      ensures dashboardUsersLoaded
    {
      dashboardUsersLoaded := true;
    }

    /** `add_orphaned_dashboard_user`. */
    method AddOrphanedDashboardUser(key: UserKey, user: DashboardUser)
      modifies this`orphanedDashboardUserByUserKey
      ensures orphanedDashboardUserByUserKey == old(orphanedDashboardUserByUserKey)[key := user]
    {
      orphanedDashboardUserByUserKey := orphanedDashboardUserByUserKey[key := user];
    }

    /** `calculate_groups_to_add`: `get_new_groups` on this organization's
        groups-added dictionary. */
    method CalculateGroupsToAdd(key: UserKey, desired: Option<set<GroupName>>) returns (r: Option<set<GroupName>>)
      modifies this`groupsAddedByUserKey
      ensures r == NewGroups(old(groupsAddedByUserKey), key, desired)
      ensures groupsAddedByUserKey == RecordNew(old(groupsAddedByUserKey), key, desired)
    {
      r, groupsAddedByUserKey := GetNewGroups(groupsAddedByUserKey, key, desired);
    }

    /** `calculate_groups_to_remove`: `get_new_groups` on this organization's
        groups-removed dictionary. */
    method CalculateGroupsToRemove(key: UserKey, desired: Option<set<GroupName>>) returns (r: Option<set<GroupName>>)
      modifies this`groupsRemovedByUserKey
      ensures r == NewGroups(old(groupsRemovedByUserKey), key, desired)
      ensures groupsRemovedByUserKey == RecordNew(old(groupsRemovedByUserKey), key, desired)
    {
      r, groupsRemovedByUserKey := GetNewGroups(groupsRemovedByUserKey, key, desired);
    }

    /** What the removal pass reads of this organization. */
    function View(): (v: OrgView)
      reads this
      ensures v.name == name && v.mappedGroups == mappedGroups
      ensures v.dashboardUsers == dashboardUserByUserKey && v.loaded == dashboardUsersLoaded
    {
      OrgView(name, mappedGroups, dashboardUserByUserKey, dashboardUsersLoaded)
    }
  }
}
