/** The desired-group map that `read_desired_user_groups` builds: for each
    selected directory user, the qualified names of the target groups its
    directory groups map to are looked up in the catalog, and each one found
    is recorded, by its organization, as a group the user should be in. */
module Desired {
  import opened Wrappers
  import opened Groups
  import opened TargetGroups
  import opened Users
  import opened UserKeys
  import opened Organization

  type Mappings = map<string, seq<DashboardGroup>>

  /** The qualified names of the target groups the user's directory groups
      map to (the hook scope's `target_groups`). */
  function TargetNames(mappings: Mappings, groups: seq<string>): set<string>
  {
    set i, j | 0 <= i < |groups| && groups[i] in mappings && 0 <= j < |mappings[groups[i]]| :: QualifiedName(mappings[groups[i]][j])
  }

  /** A name is a target name exactly when one of the user's directory
      groups maps to a target group of that qualified name. */
  lemma TargetNamesMeaning(mappings: Mappings, groups: seq<string>, q: string)
    ensures q in TargetNames(mappings, groups) <==>
              exists i, j :: 0 <= i < |groups| && groups[i] in mappings && 0 <= j < |mappings[groups[i]]|
                             && q == QualifiedName(mappings[groups[i]][j])
  {
  }

  type Looked = Result<Option<DashboardGroup>, CatalogError>

  /** The organization and target group a name stands for, if any. */
  type FoundTarget = Option<(OrgName, TargetGroup)>

  /** The organization and target group a lookup result stands for, when the
      catalog parsed the name and has it registered. */
  function Found(norm: string -> string, looked: Looked): (t: FoundTarget)
    ensures t.Some? <==> looked.Ok? && looked.value.Some?
    ensures t.Some? ==> t.value == (looked.value.value.organizationName, TargetGroupOf(norm, looked.value.value))
  {
    match looked
    case Ok(Some(g)) => Some((g.organizationName, TargetGroupOf(norm, g)))
    case _ => None
  }

  /** The answer of the registry `catalog` for each of `names`. */
  function Lookups(catalog: map<GroupId, DashboardGroup>, names: set<string>): (lk: map<string, Looked>)
    ensures lk.Keys == names
    ensures forall q | q in names :: lk[q] == LookupIn(catalog, q)
  {
    map q | q in names :: LookupIn(catalog, q)
  }

  /** A user's desired map after gaining the groups `gs`: unchanged when
      there are none, else the user's set grows by them. */
  function AddGroups(d: GroupsByUserKey, key: UserKey, gs: set<GroupName>): (r: GroupsByUserKey)
    ensures gs == {} ==> r == d
    ensures gs != {} ==> r.Keys == d.Keys + {key} && Recorded(r, key) == Recorded(d, key) + gs
  {
    if gs == {} then d else d[key := Recorded(d, key) + gs]
  }

  /** Adding groups in two steps adds their union. */
  lemma AddGroupsTwice(d: GroupsByUserKey, key: UserKey, x: set<GroupName>, y: set<GroupName>)
    ensures AddGroups(AddGroups(d, key, x), key, y) == AddGroups(d, key, x + y)
  {
    var m := AddGroups(d, key, x);
    if x != {} && y != {} {
      assert Recorded(m, key) + y == Recorded(d, key) + (x + y);
      assert m[key := Recorded(m, key) + y] == d[key := Recorded(d, key) + (x + y)];
    } else if x != {} {
      assert x + y == x;
    } else {
      assert x + y == y;
    }
  }

  /** What one organization holds for the desired groups: the desired map
      and the names it has a designation for. */
  datatype OrgDesire = OrgDesire(desired: GroupsByUserKey, designated: set<GroupName>)

  type Desires = map<OrgName, OrgDesire>

  /** An organization's holding, empty when it does not exist yet. */
  function Held(ds: Desires, n: OrgName): OrgDesire {
    if n in ds then ds[n] else OrgDesire(map[], {})
  }

  /** One found target recorded for the user: its organization, created
      empty on first use, gains the group; nothing else changes. */
  function Record(ds: Desires, key: UserKey, t: FoundTarget): (r: Desires)
    ensures r.Keys == ds.Keys + (if t.Some? then {t.value.0} else {})
  {
    if t.None? then ds
    else
      var h := Held(ds, t.value.0);
      ds[t.value.0 := OrgDesire(AddGroups(h.desired, key, {t.value.1.name}), h.designated + {t.value.1.name})]
  }

  /** The catalog's answer for `q`; a name it was not asked about is unknown. */
  function LookedAt(lk: map<string, Looked>, q: string): Looked {
    if q in lk then lk[q] else Ok(None)
  }

  /** The targets found for the names in `order`, one per name. */
  function FoundAll(norm: string -> string, lk: map<string, Looked>, order: seq<string>): (ts: seq<FoundTarget>)
    ensures |ts| == |order|
    decreases |order|
  {
    if |order| == 0 then [] else FoundAll(norm, lk, order[..|order| - 1]) + [Found(norm, LookedAt(lk, order[|order| - 1]))]
  }

  lemma {:induction false} FoundAllAt(norm: string -> string, lk: map<string, Looked>, order: seq<string>, i: int)
    requires 0 <= i < |order|
    ensures FoundAll(norm, lk, order)[i] == Found(norm, LookedAt(lk, order[i]))
    decreases |order|
  {
    if i < |order| - 1 {
      FoundAllAt(norm, lk, order[..|order| - 1], i);
    }
  }

  /** `add_desired_group_for(user_key, None)` on the owning organization:
      the user is desired there, created empty on first use, with the
      groups already recorded for it. */
  function Enroll(ds: Desires, key: UserKey): (r: Desires)
    ensures r.Keys == ds.Keys + {None}
    ensures key in r[None].desired && r[None].desired[key] == Recorded(Held(ds, None).desired, key)
    ensures forall k | k in Held(ds, None).desired :: k in r[None].desired && r[None].desired[k] == Held(ds, None).desired[k]
    ensures r[None].designated == Held(ds, None).designated
    ensures forall n | n in ds && n != None :: r[n] == ds[n]
  {
    var h := Held(ds, None);
    ds[None := OrgDesire(h.desired[key := Recorded(h.desired, key)], h.designated)]
  }

  /** Organization `n`'s holding after the user `key` is desired there with
      the extra groups `gs`: its desired map gives the user at least its old
      groups and `gs`, and `gs` gain a designation. */
  function Desire(ds: Desires, n: OrgName, key: UserKey, gs: set<GroupName>): (r: Desires)
    ensures r.Keys == ds.Keys + {n}
    ensures key in r[n].desired && r[n].desired[key] == Recorded(Held(ds, n).desired, key) + gs
  {
    var h := Held(ds, n);
    ds[n := OrgDesire(h.desired[key := Recorded(h.desired, key) + gs], h.designated + gs)]
  }

  /** Enrolling is being desired in the owning organization with no group. */
  lemma EnrollIsDesire(ds: Desires, key: UserKey)
    ensures Enroll(ds, key) == Desire(ds, None, key, {})
  {
    var h := Held(ds, None);
    assert Recorded(h.desired, key) + {} == Recorded(h.desired, key);
    assert h.designated + {} == h.designated;
  }

  /** Recording a found target is being desired in its organization with its group. */
  lemma RecordIsDesire(ds: Desires, key: UserKey, n: OrgName, g: TargetGroup)
    ensures Record(ds, key, Some((n, g))) == Desire(ds, n, key, {g.name})
  {
  }

  /** The holding of `n` is all that Desire reads of `n`: an entry for `n`
      that is as good as absent changes nothing. */
  lemma DesireSameHeld(s0: Desires, s1: Desires, n: OrgName, key: UserKey, gs: set<GroupName>)
    requires s1.Keys == s0.Keys + {n}
    requires forall m | m in s0 && m != n :: s1[m] == s0[m]
    requires Held(s1, n) == Held(s0, n)
    ensures Desire(s1, n, key, gs) == Desire(s0, n, key, gs)
  {
  }

  /** The found targets recorded one after another. */
  function RecordTargets(ds: Desires, key: UserKey, ts: seq<FoundTarget>): Desires
    decreases |ts|
  {
    if |ts| == 0 then ds else Record(RecordTargets(ds, key, ts[..|ts| - 1]), key, ts[|ts| - 1])
  }

  lemma RecordTargetsSnoc(ds: Desires, key: UserKey, ts: seq<FoundTarget>, t: FoundTarget)
    ensures RecordTargets(ds, key, ts + [t]) == Record(RecordTargets(ds, key, ts), key, t)
  {
    assert (ts + [t])[..|ts|] == ts;
  }

  /** The groups of organization `n` among the found targets. */
  function GroupsFor(ts: seq<FoundTarget>, n: OrgName): set<GroupName> {
    set i | 0 <= i < |ts| && ts[i].Some? && ts[i].value.0 == n :: ts[i].value.1.name
  }

  /** Whether some found target belongs to organization `n`. */
  predicate Touches(ts: seq<FoundTarget>, n: OrgName) {
    exists i :: 0 <= i < |ts| && ts[i].Some? && ts[i].value.0 == n
  }

  lemma GroupsForSnoc(ts: seq<FoundTarget>, t: FoundTarget, n: OrgName)
    ensures GroupsFor(ts + [t], n) == GroupsFor(ts, n) + (if t.Some? && t.value.0 == n then {t.value.1.name} else {})
    ensures Touches(ts + [t], n) <==> Touches(ts, n) || (t.Some? && t.value.0 == n)
  {
    var s := ts + [t];
    forall g | g in GroupsFor(s, n)
      ensures g in GroupsFor(ts, n) + (if t.Some? && t.value.0 == n then {t.value.1.name} else {})
    {
      var i :| 0 <= i < |s| && s[i].Some? && s[i].value.0 == n && g == s[i].value.1.name;
      if i < |ts| {
        assert ts[i] == s[i];
      }
    }
    forall g | g in GroupsFor(ts, n)
      ensures g in GroupsFor(s, n)
    {
      var i :| 0 <= i < |ts| && ts[i].Some? && ts[i].value.0 == n && g == ts[i].value.1.name;
      assert s[i] == ts[i];
    }
    if t.Some? && t.value.0 == n {
      assert s[|ts|] == t;
    }
    if Touches(ts, n) {
      var i :| 0 <= i < |ts| && ts[i].Some? && ts[i].value.0 == n;
      assert s[i] == ts[i];
    }
    if Touches(s, n) {
      var i :| 0 <= i < |s| && s[i].Some? && s[i].value.0 == n;
      if i < |ts| {
        assert ts[i] == s[i];
      }
    }
  }

  /** Recording the found targets in any order gives the same holdings:
      the organizations are those held before and those some target belongs
      to, and each gains exactly the groups its targets name. */
  lemma {:induction false} RecordTargetsMeaning(ds: Desires, key: UserKey, ts: seq<FoundTarget>, n: OrgName)
    ensures n in RecordTargets(ds, key, ts) <==> n in ds || Touches(ts, n)
    ensures n in RecordTargets(ds, key, ts) ==>
              RecordTargets(ds, key, ts)[n]
              == OrgDesire(AddGroups(Held(ds, n).desired, key, GroupsFor(ts, n)), Held(ds, n).designated + GroupsFor(ts, n))
    decreases |ts|
  {
    if |ts| == 0 {
      assert GroupsFor(ts, n) == {};
      if n in ds {
        assert Held(ds, n) == ds[n];
      }
    } else {
      var init, t := ts[..|ts| - 1], ts[|ts| - 1];
      assert ts == init + [t];
      RecordTargetsMeaning(ds, key, init, n);
      GroupsForSnoc(init, t, n);
      var before := RecordTargets(ds, key, init);
      if t.Some? && t.value.0 == n {
        var g := t.value.1.name;
        AddGroupsTwice(Held(ds, n).desired, key, GroupsFor(init, n), {g});
        if n in before {
          assert Held(before, n) == before[n];
        } else {
          assert GroupsFor(init, n) == {};
          assert Held(ds, n) == OrgDesire(map[], {});
        }
        assert RecordTargets(ds, key, ts) == Record(before, key, t);
        assert RecordTargets(ds, key, ts)[n]
               == OrgDesire(AddGroups(Held(before, n).desired, key, {g}), Held(before, n).designated + {g});
        assert GroupsFor(ts, n) == GroupsFor(init, n) + {g};
        assert Held(before, n).desired == AddGroups(Held(ds, n).desired, key, GroupsFor(init, n));
        assert Held(before, n).designated + {g} == Held(ds, n).designated + GroupsFor(ts, n);
        assert AddGroups(Held(before, n).desired, key, {g}) == AddGroups(Held(ds, n).desired, key, GroupsFor(ts, n));
      } else {
        assert RecordTargets(ds, key, ts) == Record(before, key, t);
        assert GroupsFor(ts, n) == GroupsFor(init, n);
      }
    }
  }

  /** The user stays desired in every organization where it already was,
      with at least its groups there. */
  lemma RecordTargetsKeeps(ds: Desires, key: UserKey, ts: seq<FoundTarget>, n: OrgName, k: UserKey)
    requires k in Held(ds, n).desired
    ensures k in Held(RecordTargets(ds, key, ts), n).desired
    ensures Held(ds, n).desired[k] <= Held(RecordTargets(ds, key, ts), n).desired[k]
  {
    RecordTargetsMeaning(ds, key, ts, n);
  }

  /** Whether the name `q` stands for a target in organization `n`. */
  predicate TargetIn(norm: string -> string, lk: map<string, Looked>, q: string, n: OrgName) {
    Found(norm, LookedAt(lk, q)).Some? && Found(norm, LookedAt(lk, q)).value.0 == n
  }

  /** The groups of organization `n` that the names `names` stand for. */
  function NamedGroupsFor(norm: string -> string, lk: map<string, Looked>, names: set<string>, n: OrgName): set<GroupName> {
    set q | q in names && TargetIn(norm, lk, q, n) :: Found(norm, LookedAt(lk, q)).value.1.name
  }

  /** Whatever order the names are taken in, their found targets name the
      same groups of each organization and touch the same organizations. */
  lemma FoundAllOrderFree(norm: string -> string, lk: map<string, Looked>, order: seq<string>, names: set<string>, n: OrgName)
    requires forall q :: q in order <==> q in names
    ensures GroupsFor(FoundAll(norm, lk, order), n) == NamedGroupsFor(norm, lk, names, n)
    ensures Touches(FoundAll(norm, lk, order), n) <==> exists q | q in names :: TargetIn(norm, lk, q, n)
  {
    var ts := FoundAll(norm, lk, order);
    forall g | g in GroupsFor(ts, n)
      ensures g in NamedGroupsFor(norm, lk, names, n)
    {
      var i :| 0 <= i < |ts| && ts[i].Some? && ts[i].value.0 == n && g == ts[i].value.1.name;
      FoundAllAt(norm, lk, order, i);
      assert order[i] in names;
    }
    forall g | g in NamedGroupsFor(norm, lk, names, n)
      ensures g in GroupsFor(ts, n)
    {
      var q :| q in names && TargetIn(norm, lk, q, n) && g == Found(norm, LookedAt(lk, q)).value.1.name;
      assert q in order;
      var i :| 0 <= i < |order| && order[i] == q;
      FoundAllAt(norm, lk, order, i);
    }
    if Touches(ts, n) {
      var i :| 0 <= i < |ts| && ts[i].Some? && ts[i].value.0 == n;
      FoundAllAt(norm, lk, order, i);
      assert order[i] in names && TargetIn(norm, lk, order[i], n);
    }
    if q :| q in names && TargetIn(norm, lk, q, n) {
      assert q in order;
      var i :| 0 <= i < |order| && order[i] == q;
      FoundAllAt(norm, lk, order, i);
      assert ts[i].Some? && ts[i].value.0 == n;
    }
  }

  /** Recording the targets of the same names in two orders gives the same holdings. */
  lemma RecordTargetsOrderFree(ds: Desires, key: UserKey, norm: string -> string, lk: map<string, Looked>,
                               o1: seq<string>, o2: seq<string>, names: set<string>)
    requires forall q :: q in o1 <==> q in names
    requires forall q :: q in o2 <==> q in names
    ensures RecordTargets(ds, key, FoundAll(norm, lk, o1)) == RecordTargets(ds, key, FoundAll(norm, lk, o2))
  {
    var ts1, ts2 := FoundAll(norm, lk, o1), FoundAll(norm, lk, o2);
    var r1, r2 := RecordTargets(ds, key, ts1), RecordTargets(ds, key, ts2);
    forall n | n in r1.Keys + r2.Keys
      ensures n in r1 && n in r2 && r1[n] == r2[n]
    {
      RecordTargetsMeaning(ds, key, ts1, n);
      RecordTargetsMeaning(ds, key, ts2, n);
      FoundAllOrderFree(norm, lk, o1, names, n);
      FoundAllOrderFree(norm, lk, o2, names, n);
    }
    assert r1.Keys == r2.Keys;
  }
}
