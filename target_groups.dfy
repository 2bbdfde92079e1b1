/** Target groups and the set helpers over them. A target group is identified
    by its normalized name alone (TargetGroup's equality and hash look at the
    name only), so a set of target groups is a set of names; the designation
    of each name is kept beside it in a map. */
module TargetGroups {
  import opened Groups

  type GroupName = string

  /** The designation recorded for each group name. */
  type Designations = map<GroupName, Designation>

  /** A group command split by designation: the usergroup part and the product part. */
  datatype GroupOps = GroupOps(usergroups: set<GroupName>, products: set<GroupName>)

  const NoGroups := GroupOps({}, {})

  /** All names a split command mentions. */
  function AllGroups(ops: GroupOps): set<GroupName> {
    ops.usergroups + ops.products
  }

  /** A TargetGroup object: its name and the designation it was created with. */
  datatype TargetGroup = TargetGroup(name: GroupName, designation: Designation)

  /** `create_target_group_from_config_group`: a catalog entry's normalized
      name, with its designation. */
  function TargetGroupOf(norm: string -> string, g: DashboardGroup): (t: TargetGroup)
    ensures t.name == norm(g.groupName) && t.designation == g.designation
  {
    TargetGroup(norm(g.groupName), g.designation)
  }

  /** The designations map after meeting a target group: the first designation
      seen for a name is kept, as adding an equal object to a Python set keeps
      the one already there. */
  function NoteDesignation(designations: Designations, group: TargetGroup): (d: Designations)
    ensures d.Keys == designations.Keys + {group.name}
    ensures forall n | n in designations :: d[n] == designations[n]
    ensures group.name !in designations ==> d[group.name] == group.designation
  {
    if group.name in designations then designations else designations[group.name := group.designation]
  }

  /** `filter_target_groups_by_names`. */
  function FilterByNames(groups: set<GroupName>, names: set<string>): (r: set<GroupName>)
    ensures r <= groups
    ensures forall g :: g in r <==> g in groups && g in names
  {
    set g | g in groups && g in names
  }

  /** `filter_target_groups_by_excluding_names`. */
  function FilterByExcludingNames(groups: set<GroupName>, names: set<string>): (r: set<GroupName>)
    ensures r <= groups
    ensures forall g :: g in r <==> g in groups && g !in names
  {
    set g | g in groups && g !in names
  }

  /** The two name filters split a group set into two disjoint halves. */
  lemma FilterPartition(groups: set<GroupName>, names: set<string>)
    ensures FilterByNames(groups, names) + FilterByExcludingNames(groups, names) == groups
    ensures FilterByNames(groups, names) !! FilterByExcludingNames(groups, names)
  {
  }

  /** `filter_target_groups_by_designation`. */
  function FilterByDesignation(groups: set<GroupName>, designations: Designations, d: Designation): (r: set<GroupName>)
    ensures r <= groups
    ensures forall g :: g in r <==> g in groups && g in designations && designations[g] == d
  {
    set g | g in groups && g in designations && designations[g] == d
  }

  /** `filter_names_by_excluding_target_groups`. */
  function FilterNamesByExcludingGroups(names: set<string>, excluded: set<GroupName>): (r: set<string>)
    ensures r <= names && r !! excluded
    ensures names <= r + excluded
  {
    names - excluded
  }

  /** `add_groups` / `remove_groups`: the usergroup-designated names and the
      product-designated names, sent as two sub-commands. */
  function SplitByDesignation(groups: set<GroupName>, designations: Designations): (ops: GroupOps)
    ensures forall g :: g in ops.usergroups <==> g in groups && g in designations && designations[g] == UserGroup
    ensures forall g :: g in ops.products <==> g in groups && g in designations && designations[g] == Product
    ensures ops.usergroups !! ops.products
    ensures AllGroups(ops) == set g | g in groups && g in designations
  {
    GroupOps(FilterByDesignation(groups, designations, UserGroup), FilterByDesignation(groups, designations, Product))
  }

  /** `normalize_groups`: the set of normalized names of a group list. */
  function NormalizeGroups(norm: string -> string, names: seq<string>): (r: set<GroupName>)
    ensures forall i :: 0 <= i < |names| ==> norm(names[i]) in r
    ensures forall g :: g in r ==> exists i :: 0 <= i < |names| && g == norm(names[i])
  {
    set i | 0 <= i < |names| :: norm(names[i])
  }

  /** Normalizing can merge names but never invents one: at most one group per listed name. */
  lemma {:induction false} NormalizeGroupsBound(norm: string -> string, names: seq<string>)
    ensures |NormalizeGroups(norm, names)| <= |names|
    decreases |names|
  {
    if |names| > 0 {
      var init := names[..|names| - 1];
      NormalizeGroupsBound(norm, init);
      assert NormalizeGroups(norm, names) == NormalizeGroups(norm, init) + {norm(names[|names| - 1])} by {
        forall g | g in NormalizeGroups(norm, names)
          ensures g in NormalizeGroups(norm, init) + {norm(names[|names| - 1])}
        {
          var i :| 0 <= i < |names| && g == norm(names[i]);
          if i < |names| - 1 { assert init[i] == names[i]; }
        }
        forall g | g in NormalizeGroups(norm, init)
          ensures g in NormalizeGroups(norm, names)
        {
          var i :| 0 <= i < |init| && g == norm(init[i]);
          assert names[i] == init[i];
        }
      }
    }
  }
}
