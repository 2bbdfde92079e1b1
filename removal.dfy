/** The removal pass of `clean_dashboard_users`. Every key on the removal
    list first loses its mapped groups in each accessor organization; each
    such RemoveGroups command raises the key's waiting counter and its
    completion lowers it. The key is removed from the owning organization
    only once the ready flag is set and its counter is back to zero. */
module Removal {
  import opened Wrappers
  import opened TargetGroups
  import opened Users
  import opened UserKeys
  import opened Config
  import opened Organization
  import opened Reconcile

  /** Why the removal pass fails as written. */
  datatype RemovalError = MissingDashboardUserAttribute

  /** The groups an accessor removes for a key, as written: reading the
      groups of a user the accessor knows goes through an attribute the
      processor never sets, which raises. Only an accessor with mapped groups
      gets this far; the others are skipped before any key is looked at. */
  function AccessorRemovalAsWritten(acc: OrgView, key: UserKey): (r: Result<Option<set<GroupName>>, RemovalError>)
    requires acc.mappedGroups != {}
    ensures r.Err? <==> key in acc.dashboardUsers
  {
    if key in acc.dashboardUsers then Err(MissingDashboardUserAttribute)
    else if !acc.loaded then Ok(Some(acc.mappedGroups))
    else Ok(None)
  }

  /** The groups an accessor removes for a key, as evidently intended: the
      mapped groups the accessor's own record of the user lists; all mapped
      groups when the accessor's users were never loaded; else nothing. */
  function AccessorRemoval(norm: string -> string, acc: OrgView, key: UserKey): (r: Option<set<GroupName>>)
    ensures r.Some? ==> r.value <= acc.mappedGroups
    ensures key in acc.dashboardUsers ==>
              r == Some(FilterByNames(acc.mappedGroups, NormalizeGroups(norm, acc.dashboardUsers[key].groups)))
    ensures key !in acc.dashboardUsers ==> (r.Some? <==> !acc.loaded)
    ensures key !in acc.dashboardUsers && !acc.loaded ==> r == Some(acc.mappedGroups)
  {
    if key in acc.dashboardUsers then Some(FilterByNames(acc.mappedGroups, NormalizeGroups(norm, acc.dashboardUsers[key].groups)))
    else if !acc.loaded then Some(acc.mappedGroups)
    else None
  }

  /** In an accessor with mapped groups, the code as written fails for every
      key the accessor knows, and agrees with the corrected definition for
      every other key. */
  lemma AccessorRemovalCorrectsAsWritten(norm: string -> string, acc: OrgView, key: UserKey)
    requires acc.mappedGroups != {}
    ensures key in acc.dashboardUsers ==> AccessorRemovalAsWritten(acc, key).Err?
    ensures key !in acc.dashboardUsers ==> AccessorRemovalAsWritten(acc, key) == Ok(AccessorRemoval(norm, acc, key))
  {
  }

  /** For a user the accessor knows, the removal is the one the walk computes
      for an orphan there: every mapped group the user is in. */
  lemma AccessorRemovalIsOrphanDelta(norm: string -> string, acc: OrgView, key: UserKey, desired: set<GroupName>)
    requires key in acc.dashboardUsers
    ensures AccessorRemoval(norm, acc, key).value
            == GroupDeltas(true, false, desired, NormalizeGroups(norm, acc.dashboardUsers[key].groups), acc.mappedGroups).1
  {
  }

  /** The RemoveGroups command count for a key in a log. */
  function GroupRemovalsSent(log: seq<Sent>, key: UserKey): nat
    decreases |log|
  {
    if |log| == 0 then 0
    else GroupRemovalsSent(log[..|log| - 1], key) + (if log[|log| - 1].cmd.RemoveGroups? && log[|log| - 1].cmd.key == key then 1 else 0)
  }

  /** The RemoveFromOrg command count for a key in a log. */
  function OrgRemovalsSent(log: seq<Sent>, key: UserKey): nat
    decreases |log|
  {
    if |log| == 0 then 0
    else OrgRemovalsSent(log[..|log| - 1], key) + (if log[|log| - 1].cmd.RemoveFromOrg? && log[|log| - 1].cmd.key == key then 1 else 0)
  }

  lemma CountsSnoc(log: seq<Sent>, x: Sent, key: UserKey)
    ensures GroupRemovalsSent(log + [x], key) == GroupRemovalsSent(log, key) + (if x.cmd.RemoveGroups? && x.cmd.key == key then 1 else 0)
    ensures OrgRemovalsSent(log + [x], key) == OrgRemovalsSent(log, key) + (if x.cmd.RemoveFromOrg? && x.cmd.key == key then 1 else 0)
  {
    assert (log + [x])[..|log|] == log;
  }

  /** The owning organization lets a key be removed when its users were not
      loaded or it knows the user. */
  predicate Removable(owning: OrgView, key: UserKey) {
    !owning.loaded || key in owning.dashboardUsers
  }

  lemma CountsAppend(a: seq<Sent>, b: seq<Sent>, key: UserKey)
    ensures GroupRemovalsSent(a + b, key) == GroupRemovalsSent(a, key) + GroupRemovalsSent(b, key)
    ensures OrgRemovalsSent(a + b, key) == OrgRemovalsSent(a, key) + OrgRemovalsSent(b, key)
    decreases |b|
  {
    if |b| > 0 {
      var b' := b[..|b| - 1];
      CountsAppend(a, b', key);
      CountsSnoc(a + b', b[|b| - 1], key);
      CountsSnoc(b', b[|b| - 1], key);
      assert a + b == (a + b') + [b[|b| - 1]];
      assert b == b' + [b[|b| - 1]];
    } else {
      assert a + b == a;
    }
  }

  /** Whether an accessor sends a RemoveGroups command for a key. */
  predicate SendsGroupRemoval(norm: string -> string, acc: OrgView, key: UserKey) {
    var g := AccessorRemoval(norm, acc, key);
    |acc.mappedGroups| > 0 && g.Some? && |g.value| > 0
  }

  /** The RemoveGroups commands one accessor sends, for the keys in `order`. */
  function AccessorCommands(norm: string -> string, acc: OrgView, order: seq<UserKey>): seq<Sent>
    decreases |order|
  {
    if |acc.mappedGroups| == 0 || |order| == 0 then []
    else
      var rest := AccessorCommands(norm, acc, order[..|order| - 1]);
      var key := order[|order| - 1];
      var g := AccessorRemoval(norm, acc, key);
      if g.Some? && |g.value| > 0 then rest + [Sent(acc.name, RemoveGroups(key, g.value))] else rest
  }

  /** Appending what an accessor sends for key `order[i]` to a log holding
      its commands for the keys before it gives a log holding those for the
      first `i + 1` keys. */
  lemma AccessorCommandsAppend(norm: string -> string, acc: OrgView, order: seq<UserKey>, i: nat,
                               log0: seq<Sent>, before: seq<Sent>, after: seq<Sent>)
    requires i < |order| && |acc.mappedGroups| > 0
    requires before == log0 + AccessorCommands(norm, acc, order[..i])
    requires var g := AccessorRemoval(norm, acc, order[i]);
             after == before + if g.Some? && |g.value| > 0 then [Sent(acc.name, RemoveGroups(order[i], g.value))] else []
    ensures after == log0 + AccessorCommands(norm, acc, order[..i + 1])
  {
    var prefix := AccessorCommands(norm, acc, order[..i]);
    assert order[..i + 1][..i] == order[..i];
    var g := AccessorRemoval(norm, acc, order[i]);
    var x := if g.Some? && |g.value| > 0 then [Sent(acc.name, RemoveGroups(order[i], g.value))] else [];
    assert AccessorCommands(norm, acc, order[..i + 1]) == prefix + x;
    assert (log0 + prefix) + x == log0 + (prefix + x);
  }

  /** Each command of an accessor goes to that accessor, removes a non-empty
      set of its mapped groups and is about a key of the list. */
  lemma {:induction false} AccessorCommandShape(norm: string -> string, acc: OrgView, order: seq<UserKey>, i: nat)
    requires i < |AccessorCommands(norm, acc, order)|
    ensures var x := AccessorCommands(norm, acc, order)[i];
            && x.org == acc.name && x.cmd.RemoveGroups? && x.cmd.key in order
            && x.cmd.removed != {} && x.cmd.removed <= acc.mappedGroups
    decreases |order|
  {
    var o' := order[..|order| - 1];
    var rest := AccessorCommands(norm, acc, o');
    if i < |rest| {
      AccessorCommandShape(norm, acc, o', i);
      assert rest[i].cmd.key in o';
    }
  }

  /** Over a removal list without repeats, an accessor sends exactly one
      RemoveGroups command for each key it has groups to remove for, none
      for any other key, and never a RemoveFromOrg. */
  lemma {:induction false} AccessorCommandsCount(norm: string -> string, acc: OrgView, order: seq<UserKey>, key: UserKey)
    requires Distinct(order)
    ensures GroupRemovalsSent(AccessorCommands(norm, acc, order), key)
            == if key in order && SendsGroupRemoval(norm, acc, key) then 1 else 0
    ensures OrgRemovalsSent(AccessorCommands(norm, acc, order), key) == 0
    decreases |order|
  {
    if |acc.mappedGroups| > 0 && |order| > 0 {
      var o' := order[..|order| - 1];
      var last := order[|order| - 1];
      AccessorCommandsCount(norm, acc, o', key);
      var rest := AccessorCommands(norm, acc, o');
      var g := AccessorRemoval(norm, acc, last);
      if g.Some? && |g.value| > 0 {
        CountsSnoc(rest, Sent(acc.name, RemoveGroups(last, g.value)), key);
      }
      assert key in order <==> key in o' || key == last;
      assert key == last ==> key !in o';
    }
  }

  /** The RemoveGroups commands of every accessor in `accs`, accessor by
      accessor, each over the keys in `order`. */
  function AllAccessorCommands(norm: string -> string, accs: seq<OrgView>, order: seq<UserKey>): seq<Sent>
    decreases |accs|
  {
    if |accs| == 0 then []
    else
      var acc := accs[|accs| - 1];
      var rest := AllAccessorCommands(norm, accs[..|accs| - 1], order);
      rest + AccessorCommands(norm, acc, order)
  }

  lemma AllAccessorCommandsSnoc(norm: string -> string, accs: seq<OrgView>, i: nat, order: seq<UserKey>)
    requires i < |accs|
    ensures AllAccessorCommands(norm, accs[..i + 1], order)
            == AllAccessorCommands(norm, accs[..i], order) + AccessorCommands(norm, accs[i], order)
  {
    assert accs[..i + 1][..i] == accs[..i];
  }

  /** Appending the commands of accessor `i` to a log holding those of the
      accessors before it gives a log holding those of the first `i + 1`. */
  lemma AllAccessorCommandsAppend(norm: string -> string, accs: seq<OrgView>, i: nat, order: seq<UserKey>,
                                  log0: seq<Sent>, before: seq<Sent>, after: seq<Sent>)
    requires i < |accs|
    requires before == log0 + AllAccessorCommands(norm, accs[..i], order)
    requires after == before + AccessorCommands(norm, accs[i], order)
    ensures after == log0 + AllAccessorCommands(norm, accs[..i + 1], order)
  {
    var prefix, cmds := AllAccessorCommands(norm, accs[..i], order), AccessorCommands(norm, accs[i], order);
    AllAccessorCommandsSnoc(norm, accs, i, order);
    assert (log0 + prefix) + cmds == log0 + (prefix + cmds);
  }

  /** The accessor loops send no RemoveFromOrg. */
  lemma {:induction false} AllAccessorCommandsRemoveNoMember(norm: string -> string, accs: seq<OrgView>, order: seq<UserKey>, key: UserKey)
    requires Distinct(order)
    ensures OrgRemovalsSent(AllAccessorCommands(norm, accs, order), key) == 0
    decreases |accs|
  {
    if |accs| > 0 {
      AllAccessorCommandsRemoveNoMember(norm, accs[..|accs| - 1], order, key);
      AccessorCommandsCount(norm, accs[|accs| - 1], order, key);
      CountsAppend(AllAccessorCommands(norm, accs[..|accs| - 1], order), AccessorCommands(norm, accs[|accs| - 1], order), key);
    }
  }

  /** Whether the final loop removes a key from the owning organization. */
  predicate Due(owning: OrgView, waiting: map<UserKey, int>, key: UserKey) {
    key in waiting && waiting[key] == 0 && Removable(owning, key)
  }

  /** The RemoveFromOrg commands of the final loop: one for each key in
      `order`, in that order, whose counter is zero and which the owning
      organization allows to be removed. */
  function FinalRemovals(owning: OrgView, waiting: map<UserKey, int>, order: seq<UserKey>): seq<Sent>
    decreases |order|
  {
    if |order| == 0 then []
    else
      var rest := FinalRemovals(owning, waiting, order[..|order| - 1]);
      var key := order[|order| - 1];
      if Due(owning, waiting, key) then rest + [Sent(None, RemoveFromOrg(key))] else rest
  }

  lemma FinalRemovalsSnoc(owning: OrgView, waiting: map<UserKey, int>, order: seq<UserKey>, i: nat)
    requires i < |order|
    ensures FinalRemovals(owning, waiting, order[..i + 1])
            == FinalRemovals(owning, waiting, order[..i])
               + if Due(owning, waiting, order[i]) then [Sent(None, RemoveFromOrg(order[i]))] else []
  {
    assert order[..i + 1][..i] == order[..i];
  }

  /** Over a removal list without repeats, the final loop removes each due
      key from the owning organization exactly once, no other key, and
      sends no RemoveGroups. */
  lemma {:induction false} FinalRemovalsCount(owning: OrgView, waiting: map<UserKey, int>, order: seq<UserKey>, key: UserKey)
    requires Distinct(order)
    ensures OrgRemovalsSent(FinalRemovals(owning, waiting, order), key) == if key in order && Due(owning, waiting, key) then 1 else 0
    ensures GroupRemovalsSent(FinalRemovals(owning, waiting, order), key) == 0
    decreases |order|
  {
    if |order| > 0 {
      var o' := order[..|order| - 1];
      var last := order[|order| - 1];
      FinalRemovalsCount(owning, waiting, o', key);
      if Due(owning, waiting, last) {
        CountsSnoc(FinalRemovals(owning, waiting, o'), Sent(None, RemoveFromOrg(last)), key);
      }
      assert key in order <==> key in o' || key == last;
      assert key == last ==> key !in o';
    }
  }

  /** Over the whole pass, a key on the list is removed from the owning
      organization exactly when it is due at the end of the accessor loops,
      and only once. */
  lemma PassRemovesDueKeysOnce(norm: string -> string, accs: seq<OrgView>, owning: OrgView,
                               waiting: map<UserKey, int>, order: seq<UserKey>, key: UserKey)
    requires Distinct(order)
    ensures OrgRemovalsSent(AllAccessorCommands(norm, accs, order) + FinalRemovals(owning, waiting, order), key)
            == if key in order && Due(owning, waiting, key) then 1 else 0
  {
    AllAccessorCommandsRemoveNoMember(norm, accs, order, key);
    FinalRemovalsCount(owning, waiting, order, key);
    CountsAppend(AllAccessorCommands(norm, accs, order), FinalRemovals(owning, waiting, order), key);
  }

  /** The gate's invariant for one key: its counter accounts for every
      RemoveGroups command sent for it (sent ones minus completed ones); it
      gets at most one RemoveFromOrg, and only after the ready flag, with its
      counter at zero and the owning organization allowing it. */
  ghost predicate KeyGate(owning: OrgView, waiting: int, completed: int, ready: bool, log: seq<Sent>, k: UserKey)
  {
    && waiting >= 0 && completed >= 0
    && waiting + completed == GroupRemovalsSent(log, k)
    && OrgRemovalsSent(log, k) <= 1
    && (OrgRemovalsSent(log, k) == 1 ==> ready && waiting == 0 && Removable(owning, k))
  }

  /** The gate's invariant over its state: every key on the removal list
      keeps its own invariant. */
  ghost predicate GateInvariant(keys: set<UserKey>, owning: OrgView, waiting: map<UserKey, int>, ready: bool,
                                log: seq<Sent>, completed: map<UserKey, int>)
  {
    && waiting.Keys == keys && completed.Keys == keys
    && (forall k | k in keys :: KeyGate(owning, waiting[k], completed[k], ready, log, k))
  }

  /** A RemoveGroups command sent before the ready flag keeps the invariant
      once the key's counter is raised. */
  lemma GateAfterGroupRemoval(keys: set<UserKey>, owning: OrgView, waiting: map<UserKey, int>, log: seq<Sent>,
                              completed: map<UserKey, int>, key: UserKey, x: Sent)
    requires GateInvariant(keys, owning, waiting, false, log, completed)
    requires key in keys && x.cmd.RemoveGroups? && x.cmd.key == key
    ensures GateInvariant(keys, owning, waiting[key := waiting[key] + 1], false, log + [x], completed)
  {
    forall k {
      CountsSnoc(log, x, k);
    }
  }

  /** Setting the ready flag keeps the invariant. */
  lemma GateReady(keys: set<UserKey>, owning: OrgView, waiting: map<UserKey, int>, log: seq<Sent>,
                  completed: map<UserKey, int>)
    requires GateInvariant(keys, owning, waiting, false, log, completed)
    ensures GateInvariant(keys, owning, waiting, true, log, completed)
    ensures forall k | k in keys :: OrgRemovalsSent(log, k) == 0
  {
  }

  /** A RemoveFromOrg command sent after the ready flag, for a key with a
      zero counter, allowed by the owning organization and not yet removed,
      keeps the invariant. */
  lemma GateAfterOrgRemoval(keys: set<UserKey>, owning: OrgView, waiting: map<UserKey, int>, log: seq<Sent>,
                            completed: map<UserKey, int>, key: UserKey)
    requires GateInvariant(keys, owning, waiting, true, log, completed)
    requires key in keys && waiting[key] == 0 && Removable(owning, key) && OrgRemovalsSent(log, key) == 0
    ensures GateInvariant(keys, owning, waiting, true, log + [Sent(None, RemoveFromOrg(key))], completed)
    ensures OrgRemovalsSent(log + [Sent(None, RemoveFromOrg(key))], key) == 1
    ensures forall k | k != key :: OrgRemovalsSent(log + [Sent(None, RemoveFromOrg(key))], k) == OrgRemovalsSent(log, k)
  {
    forall k {
      CountsSnoc(log, Sent(None, RemoveFromOrg(key)), k);
    }
  }

  /** A completion lowers a positive counter and keeps the invariant; the key
      was not yet removed from the owning organization. */
  lemma GateAfterCompletion(keys: set<UserKey>, owning: OrgView, waiting: map<UserKey, int>, ready: bool,
                            log: seq<Sent>, completed: map<UserKey, int>, key: UserKey)
    requires GateInvariant(keys, owning, waiting, ready, log, completed)
    requires key in keys && waiting[key] > 0
    ensures GateInvariant(keys, owning, waiting[key := waiting[key] - 1], ready, log, completed[key := completed[key] + 1])
    ensures OrgRemovalsSent(log, key) == 0
  {
    assert KeyGate(owning, waiting[key], completed[key], ready, log, key);
    var w, c := waiting[key := waiting[key] - 1], completed[key := completed[key] + 1];
    forall k | k in keys
      ensures KeyGate(owning, w[k], c[k], ready, log, k)
    {
      assert KeyGate(owning, waiting[k], completed[k], ready, log, k);
      if k != key {
        assert w[k] == waiting[k] && c[k] == completed[k];
      }
    }
    assert w.Keys == keys && c.Keys == keys;
  }

  class RemovalGate {
    const keys: set<UserKey>
    const owning: OrgView
    const norm: string -> string
    var waiting: map<UserKey, int>
    var ready: bool
    var sent: seq<Sent>
    /** The completion callbacks delivered so far, per key. */
    ghost var completed: map<UserKey, int>

    ghost predicate Valid()
      reads this
    {
      GateInvariant(keys, owning, waiting, ready, sent, completed)
    }

    constructor (keys: set<UserKey>, owning: OrgView, norm: string -> string)
      ensures Valid() && !ready && sent == []
      ensures this.keys == keys && this.owning == owning && this.norm == norm
      ensures waiting == map k | k in keys :: 0
    {
      this.keys, this.owning, this.norm := keys, owning, norm;
      waiting := map k | k in keys :: 0;
      completed := map k | k in keys :: 0;
      ready := false;
      sent := [];
    }

    /** The removal loop for one accessor: for every key on the list, a
        RemoveGroups command with its groups to remove there, when there are
        any, and the key's counter raised. An accessor with no mapped groups
        is skipped. `order` is the iteration order of the removal list. */
    method SendGroupRemovals(acc: OrgView, order: seq<UserKey>)
      requires Valid() && !ready
      requires forall i | 0 <= i < |order| :: order[i] in keys
      modifies this`waiting, this`sent
      ensures Valid() && !ready
      ensures sent == old(sent) + AccessorCommands(norm, acc, order)
    {
      if |acc.mappedGroups| == 0 {
        return;
      }
      ghost var log0 := sent;
      var i := 0;
      assert AccessorCommands(norm, acc, order[..0]) == [];
      while i < |order|
        invariant 0 <= i <= |order|
        invariant Valid() && !ready
        invariant sent == log0 + AccessorCommands(norm, acc, order[..i])
      {
        ghost var before := sent;
        SendGroupRemoval(acc, order[i]);
        AccessorCommandsAppend(norm, acc, order, i, log0, before, sent);
        i := i + 1;
      }
      assert order[..i] == order;
    }

    /** One iteration of the removal loop: the key's groups to remove in the
        accessor, sent when there are any, with the key's counter raised. */
    method SendGroupRemoval(acc: OrgView, key: UserKey)
      requires Valid() && !ready && key in keys
      modifies this`waiting, this`sent
      ensures Valid() && !ready
      ensures var g := AccessorRemoval(norm, acc, key);
              sent == old(sent) + if g.Some? && |g.value| > 0 then [Sent(acc.name, RemoveGroups(key, g.value))] else []
      ensures var g := AccessorRemoval(norm, acc, key);
              waiting == if g.Some? && |g.value| > 0 then old(waiting)[key := old(waiting[key]) + 1] else old(waiting)
    {
      var groups := AccessorRemoval(norm, acc, key);
      if groups.Some? && |groups.value| > 0 {
        var x := Sent(acc.name, RemoveGroups(key, groups.value));
        GateAfterGroupRemoval(keys, owning, waiting, sent, completed, key, x);
        sent := sent + [x];
        waiting := waiting[key := waiting[key] + 1];
      } else {
        assert sent + [] == sent;
      }
    }

    /** `try_and_remove_from_org`: a RemoveFromOrg command to the owning
        connector when the key's counter is zero and the owning organization
        allows it. */
    method TryAndRemoveFromOrg(key: UserKey)
      requires Valid() && ready && key in keys
      requires waiting[key] == 0 ==> OrgRemovalsSent(sent, key) == 0
      modifies this`sent
      ensures Valid()
      ensures sent == old(sent) + if waiting[key] == 0 && Removable(owning, key) then [Sent(None, RemoveFromOrg(key))] else []
      ensures OrgRemovalsSent(sent, key) == if waiting[key] == 0 && Removable(owning, key) then 1 else OrgRemovalsSent(old(sent), key)
      ensures forall k | k != key :: OrgRemovalsSent(sent, k) == OrgRemovalsSent(old(sent), k)
    {
      if waiting[key] == 0 && Removable(owning, key) {
        GateAfterOrgRemoval(keys, owning, waiting, sent, completed, key);
        sent := sent + [Sent(None, RemoveFromOrg(key))];
      } else {
        assert sent + [] == sent;
      }
    }

    /** The end of the pass: the ready flag is set and every key on the list
        is tried once, so each gets its RemoveFromOrg exactly when its counter
        is zero and the owning organization allows it. `order` is the
        iteration order of the removal list. */
    method SetReadyAndRemove(order: seq<UserKey>)
      requires Valid() && !ready
      requires forall i | 0 <= i < |order| :: order[i] in keys
      requires Distinct(order)
      modifies this`ready, this`sent
      ensures Valid() && ready
      ensures sent == old(sent) + FinalRemovals(owning, waiting, order)
    {
      GateReady(keys, owning, waiting, sent, completed);
      ready := true;
      var i := 0;
      while i < |order|
        invariant 0 <= i <= |order|
        invariant Valid() && ready
        invariant sent == old(sent) + FinalRemovals(owning, waiting, order[..i])
        invariant forall j | i <= j < |order| :: OrgRemovalsSent(sent, order[j]) == 0
      {
        TryAndRemoveFromOrg(order[i]);
        FinalRemovalsSnoc(owning, waiting, order, i);
        i := i + 1;
      }
      assert order[..i] == order;
    }

    /** The removal loops of every accessor organization, in the order of
        `accs`, before the ready flag. */
    method SendAllGroupRemovals(accs: seq<OrgView>, order: seq<UserKey>)
      requires Valid() && !ready
      requires forall i | 0 <= i < |order| :: order[i] in keys
      modifies this`waiting, this`sent
      ensures Valid() && !ready
      ensures sent == old(sent) + AllAccessorCommands(norm, accs, order)
    {
      var i := 0;
      while i < |accs|
        invariant 0 <= i <= |accs|
        invariant Valid() && !ready
        invariant sent == old(sent) + AllAccessorCommands(norm, accs[..i], order)
      {
        ghost var before := sent;
        SendGroupRemovals(accs[i], order);
        AllAccessorCommandsAppend(norm, accs, i, order, old(sent), before, sent);
        i := i + 1;
      }
      assert accs[..i] == accs;
    }

    /** `clean_dashboard_users`: nothing when the removal list is empty;
        otherwise every accessor's group removals, then the ready flag and
        the removals from the owning organization that are already due.
        Removals of keys still waiting are sent by the completion callback. */
    method CleanDashboardUsers(accs: seq<OrgView>, order: seq<UserKey>)
      requires Valid() && !ready && sent == []
      requires forall k :: k in keys <==> k in order
      requires Distinct(order)
      modifies this`waiting, this`ready, this`sent
      ensures Valid()
      ensures |order| == 0 ==> !ready && sent == []
      ensures |order| > 0 ==> ready && sent == AllAccessorCommands(norm, accs, order) + FinalRemovals(owning, waiting, order)
    {
      if |order| == 0 {
        return;
      }
      SendAllGroupRemovals(accs, order);
      assert sent == AllAccessorCommands(norm, accs, order);
      SetReadyAndRemove(order);
    }

    /** The completion callback of a RemoveGroups command for `key`: its
        counter falls by one, and once the pass is ready the removal from the
        owning organization is tried. */
    method OnRemoveGroupsComplete(key: UserKey)
      requires Valid() && key in keys && waiting[key] > 0
      modifies this`waiting, this`completed, this`sent
      ensures Valid()
      ensures waiting == old(waiting)[key := old(waiting[key]) - 1]
      ensures sent == old(sent) + if ready && waiting[key] == 0 && Removable(owning, key)
                                  then [Sent(None, RemoveFromOrg(key))] else []
    {
      GateAfterCompletion(keys, owning, waiting, ready, sent, completed, key);
      waiting := waiting[key := waiting[key] - 1];
      completed := completed[key := completed[key] + 1];
      if ready {
        TryAndRemoveFromOrg(key);
      } else {
        assert sent + [] == sent;
      }
    }
  }
}
