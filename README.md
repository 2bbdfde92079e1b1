# User Sync reconciliation rules in Dafny

This project models the rule engine of User Sync, found in `user_sync/rules.py`. The engine reads users from a customer
directory and works out the desired group memberships of each user in every organization. It then walks the users each
organization's dashboard reports, matches them against the directory and issues commands: update attributes, add and
remove groups, create users, remove users. The model proves properties of it.

The pieces modelled are:

- **User keys.** The user key `"type,username,domain"`: how it is derived, how it is split, and its round trip
  (`user_keys.dfy`).
- **Group catalog.** The process-wide registry of dashboard groups, named `[org::]group[,designation]`
  (`groups.dfy`, class `GroupCatalog`).
- **Group helpers.** Target groups, which compare by normalized name, and the set helpers over them
  (`target_groups.dfy`).
- **OrganizationInfo.** It becomes a class with its dictionaries as `map` fields. It holds the add and remove
  idempotence rule of `get_new_groups` and its at-most-once consequences (`organization.dfy`).
- **Desired groups.** The desired-group map built by `read_desired_user_groups` (`desired.dfy`, and the
  `RuleProcessor` methods in `processor.dfy`).
- **The walk.** The walk of `update_dashboard_users_for_connector` is stated as a function `Walk` of the state
  (`reconcile.dfy`). The imperative `RuleProcessor` methods are proved equal to it.
- **Creates.** The eligibility and country rules of `add_dashboard_user`, and its completion callback as an explicit
  event method.
- **Orphans.** The orphan selection and the quota policy of `process_orphaned_dashboard_users`.
- **The removal gate.** The gate of `clean_dashboard_users` has a per-key counter of outstanding group removals and a
  ready flag (`removal.dfy`, class `RemovalGate`). Each key is removed from the owning organization at most once, and
  only once the flag is set and its counter is zero.
- **The drain loop.** The `execute_actions` loop of `DashboardConnectors` (`dispatch.dfy`).

How the model represents the source:

- **Commands.** Commands issued to a connector are appended to a log, `sent: seq<Sent>`, each tagged with its
  organization. `OWNING_ORGANIZATION_NAME` (Python `None`) is `Option.None`.
- **Foreign calls.** The functions the rules call in other modules are fields of the `Env` datatype:
  `normalize_string`, `parse_identity_type`, the username filter regular expression and the identity-type constants.
- **Groups.** A group inside the engine is its normalized name. Each organization keeps the designation of every name
  in a side map.
- **The delete path.** `process_orphaned_dashboard_users` asks for orphans of no type at all on the delete path
  (rules.py line 324). The model keeps this as written (`OrphanTypes`), and `DeletePathSelectsNoOrphans` states that
  this path selects no orphans.

## Model

| member | source | states |
|---|---|---|
| UserKeys.ResolvedUsername | user_sync/rules.py:793-794 | the username is the normalized username when that is non-empty, else the normalized email |
| UserKeys.GetUserKey | user_sync/rules.py:780-805 | None for an empty type or username. With an '@' in the username, exactly "type,username,". Otherwise a key exactly when the domain is non-empty, and then "type,username,domain" |
| UserKeys.DerivedKeyShape | user_sync/rules.py:797-805 | every derived key is type, username and domain part joined by ',', the domain part being empty for an email-shaped username |
| UserKeys.ParseUserKeyRoundTrip | user_sync/rules.py:780-813 | `parse_user_key` of a derived key gives back exactly its three parts when none of them contains ',' |
| UserKeys.DerivedKeyHasThreeParts | user_sync/rules.py:815-817 | a derived key always splits into at least three parts, so `get_username_from_user_key` has its index 1 |
| UserKeys.UserKeyInjective | user_sync/rules.py:780-805 | for comma-free parts, two records share a key exactly when type, username and domain part agree |
| Users.UserAttributes | user_sync/rules.py:424-429 | the attributes compared are exactly email, firstname and lastname |
| Users.AttributeDifference | user_sync/rules.py:754-761 | an attribute is in the difference exactly when the directory value differs from the dashboard value, and it carries the directory value |
| Users.AttributeDifferenceConverges | user_sync/rules.py:754-761 | once the differences are written onto the dashboard user, no difference is left |
| Users.IsDirectoryUserInGroups | user_sync/rules.py:238-249 | true without a filter; with one, true exactly when some directory group of the user is in the filter |
| Groups.DesignationOf | user_sync/rules.py:31-35 | only "productconfiguration" and "usergroup" are designations |
| Groups.Parse | user_sync/rules.py:955-975 | Product is the designation unless the name has exactly one ','. In that case the stripped suffix must be a known designation, or the parse fails. The organization is never "" (empty means owning) and the group name is stripped; which text they are is stated by ParseLastDelimiter and ParseDesignated |
| Groups.ParseGroupPart | user_sync/rules.py:968-975 | the organization is never "" (empty means owning), the group name is stripped and the designation is kept; which text they are is stated by ParseGroupPartLast and ParseGroupPartSingle |
| Groups.ParseGroupPartLast | user_sync/rules.py:970-974 | for "o::n" with no ':' in n, the group name is n stripped and the organization is all of o before the LAST "::" (the owning organization when o is empty), so "a::b::c" names group "c" of organization "a::b" |
| Groups.ParseGroupPartSingle | user_sync/rules.py:970-974 | a group part whose stripped text holds no ':' is all group name, in the owning organization |
| Groups.ParseLastDelimiter | user_sync/rules.py:961-975 | a name "o::n" with no ',' parses to group n stripped, organization o (owning when empty) and designation Product |
| Groups.ParseDesignated | user_sync/rules.py:961-975 | a name "o::n,suffix" whose stripped suffix is a known designation parses to group n stripped, organization o (owning when empty) and that designation |
| Groups.ParseQualifiedName | user_sync/rules.py:943-975 | parsing the qualified name of a delimiter-free group gives back its group name and organization, with the default designation |
| Groups.GroupCatalog.constructor | user_sync/rules.py:912 | the registry starts empty |
| Groups.GroupCatalog.Lookup | user_sync/rules.py:977-980 | an error exactly when the name does not parse; an entry found has the parsed group name and organization |
| Groups.GroupCatalog.Create | user_sync/rules.py:982-991 | a parse error changes nothing. Otherwise the result is the existing entry, a new entry for a non-empty name, or None. Only a new entry is added to the registry, and a lookup of the name then finds it |
| Groups.GroupCatalog.CreateParsed | user_sync/rules.py:984-991 | the same, for a name already parsed; the returned entry is registered under its (group, organization) |
| Groups.LookupIn | user_sync/rules.py:977-980 | fails exactly when the name does not parse; finds an entry exactly when the parsed (group, organization) is registered |
| Groups.Registered | user_sync/rules.py:982-991 | an entry already held is returned; otherwise a new one exactly when the group name is non-empty |
| Groups.AfterCreate | user_sync/rules.py:982-991 | the registry gains at most the new entry, and no existing entry changes |
| Groups.LookupQualifiedName | user_sync/rules.py:943-980 | looking up the qualified name of a registered delimiter-free group finds that group |
| TargetGroups.TargetGroupOf | user_sync/rules.py:1054-1064 | a target group is the normalized group name with the catalog entry's designation |
| TargetGroups.NoteDesignation | user_sync/rules.py:1057-1073 | the first designation met for a name is kept, as adding an equal TargetGroup to a set keeps the one already there |
| TargetGroups.FilterByNames | user_sync/rules.py:997-1007 | exactly the groups whose name is in the list |
| TargetGroups.FilterByExcludingNames | user_sync/rules.py:1009-1019 | exactly the groups whose name is not in the list |
| TargetGroups.FilterPartition | user_sync/rules.py:997-1019 | the two name filters split a set into two disjoint halves that together are the whole set |
| TargetGroups.FilterByDesignation | user_sync/rules.py:1021-1031 | exactly the groups carrying that designation |
| TargetGroups.FilterNamesByExcludingGroups | user_sync/rules.py:1033-1042 | the names not among the groups, and every name is kept or excluded |
| TargetGroups.SplitByDesignation | user_sync/rules.py:686-704 | the usergroup sub-command holds exactly the names designated usergroup and the product sub-command exactly those designated product; a name without a designation is in neither |
| TargetGroups.NormalizeGroups | user_sync/rules.py:673-684 | every listed name appears normalized, and nothing else does |
| TargetGroups.NormalizeGroupsBound | user_sync/rules.py:673-684 | there are never more normalized groups than listed names |
| Organization.NewGroups | user_sync/rules.py:734-752 | None exactly for None. Otherwise exactly the desired groups not recorded for the user: none recorded, none desired missing |
| Organization.RecordNew | user_sync/rules.py:734-752 | the user's record becomes old ∪ desired, other users are unchanged, records never shrink, and None changes nothing |
| Organization.NewGroupsAgainIsEmpty | user_sync/rules.py:734-752 | an immediate second call with the same set returns the empty set and records nothing more |
| Organization.DeltasIssuedAtMostOnce | user_sync/rules.py:706-752 | over any sequence of calls for a user, nothing recorded before is handed out, every group handed out is recorded at the end, and nothing is handed out twice |
| Organization.DeltasPairwiseDisjoint | user_sync/rules.py:706-752 | the sets handed out by successive calls are pairwise disjoint |
| Organization.FirstDelta | user_sync/rules.py:734-752 | one call hands out only unrecorded groups and records exactly them |
| Organization.GetNewGroups | user_sync/rules.py:734-752 | the step-by-step dictionary update returns NewGroups and leaves RecordNew |
| Organization.OrganizationInfo.constructor | user_sync/rules.py:1082-1093 | a new organization holds nothing and is not loaded |
| Organization.OrganizationInfo.AddMappedGroup | user_sync/rules.py:1098-1102 | the group joins the mapped groups; its designation is noted unless the name already has one, so every mapped name keeps a designation |
| Organization.OrganizationInfo.GetDesiredGroups | user_sync/rules.py:1110-1115 | the user's desired set, None exactly when the user is not desired here |
| Organization.OrganizationInfo.AddDesiredGroupFor | user_sync/rules.py:1117-1126 | the user becomes desired, keeping its groups plus the given group if any, whose designation is noted; every desired name keeps a designation |
| Organization.OrganizationInfo.AddDashboardUser | user_sync/rules.py:1128-1133 | the target user is filed under its key |
| Organization.OrganizationInfo.GetDashboardUser | user_sync/rules.py:1138-1142 | the filed target user, None exactly when none is filed |
| Organization.OrganizationInfo.SetDashboardUsersLoaded | user_sync/rules.py:1144-1145 | the loaded flag is set |
| Organization.OrganizationInfo.AddOrphanedDashboardUser | user_sync/rules.py:1150-1155 | the orphan is filed under its key |
| Organization.OrganizationInfo.CalculateGroupsToAdd | user_sync/rules.py:706-718 | returns NewGroups of the groups-added dictionary and leaves RecordNew of it |
| Organization.OrganizationInfo.CalculateGroupsToRemove | user_sync/rules.py:720-732 | returns NewGroups of the groups-removed dictionary and leaves RecordNew of it |
| Desired.TargetNamesMeaning | user_sync/rules.py:195-202 | a name is a target name exactly when some directory group of the user maps to a group with that qualified name |
| Desired.Found | user_sync/rules.py:226-232 | a name yields a target exactly when the catalog parses and holds it. The target is that entry's organization and its target group |
| Desired.Lookups | user_sync/rules.py:226-228 | the catalog's answer for each target name, and for nothing else |
| Desired.Record | user_sync/rules.py:226-232 | recording a target creates its organization at most, and no other organization appears |
| Desired.Enroll | user_sync/rules.py:192 | the owning organization exists afterwards; the user is desired there with exactly its old groups (none when new), every other user and organization is unchanged |
| Desired.Desire | user_sync/rules.py:1117-1126 | the organization exists afterwards and the user's desired set there is its old set plus the new groups |
| Desired.RecordTargetsMeaning | user_sync/rules.py:226-232 | in any order of the targets, each organization gains exactly its own targets' groups as desired groups and designations, and only touched organizations appear |
| Desired.RecordTargetsKeeps | user_sync/rules.py:226-232 | a user desired somewhere stays desired there with at least its groups |
| Desired.FoundAllOrderFree | user_sync/rules.py:226-232 | in any order of the same names, the found targets name exactly the groups of each organization that the names stand for, and touch the same organizations |
| Desired.RecordTargetsOrderFree | user_sync/rules.py:226-232 | recording the targets of the same names in two orders gives the same holdings |
| Reconcile.UpdateAttributesAsWritten | user_sync/rules.py:544-554 | fails (len of None) exactly for an Adobe ID user updated with no attributes |
| Reconcile.UpdateAttributes | user_sync/rules.py:544-554 | no attribute changes for an Adobe ID user; otherwise the given ones, none for None |
| Reconcile.UpdateAttributesCorrectsAsWritten | user_sync/rules.py:550-554 | wherever the code as written does not fail it agrees with the corrected one; it fails for every Adobe ID directory user updated with no attributes |
| Reconcile.UpdateCommand | user_sync/rules.py:525-564 | one update for the key. Each group to add or remove goes to the sub-command of its designation, and the attributes are UpdateAttributes of the given ones |
| Reconcile.GroupDeltas | user_sync/rules.py:637-664 | for a matched user: add = desired − current and remove = (current − desired) ∩ mapped. For an orphan: no add, and remove = the mapped groups it is in. Nothing when groups are not managed. Never an unmapped or absent group removed |
| Reconcile.GroupDeltasConverge | user_sync/rules.py:654-664 | after a matched user's deltas are applied, its mapped groups are exactly the desired ones and the rest are untouched; an orphan keeps no mapped group |
| Reconcile.TryUpdate | user_sync/rules.py:566-585 | the deltas are recorded in the idempotence sets before the in-flight check. Nothing is sent for a key in flight; otherwise exactly one update is appended, carrying only groups not handed out before |
| Reconcile.ManagedAttributes | user_sync/rules.py:654-657 | attribute differences only for a matched user of the owning organization with `update_user_info` set, else none |
| Reconcile.ManagedDeltas | user_sync/rules.py:637-664 | with groups managed, a selected target user gets add = desired − current and remove = (current − desired) ∩ mapped, with current its normalized groups; an orphan gets no add and remove = mapped ∩ current; nothing when groups are not managed. Never an unmapped group removed |
| Reconcile.WalkPending | user_sync/rules.py:605-635 | what is left of the desired map is the desired map without every key seen in the stream, unmanaged users included |
| Reconcile.WalkRecordsUsers | user_sync/rules.py:616-618 | every streamed user is filed in the target-user table |
| Reconcile.WalkRecordsOrphans | user_sync/rules.py:632-642 | exactly the managed streamed users with no selected directory user are filed as orphans |
| Reconcile.WalkMonotone | user_sync/rules.py:566-585 | the idempotence sets only grow during the walk |
| Reconcile.WalkCommands | user_sync/rules.py:616-668 | the walk only appends commands. Each goes to this organization, is about a key not in flight, removes only mapped groups and carries attributes only where allowed. No group addition or removal is handed out twice for a user |
| Removal.AccessorRemovalAsWritten | user_sync/rules.py:397-409 | as written, the pass fails for every key known to an accessor that has mapped groups (`self.dashboard_user`); an accessor without mapped groups is skipped before any key is looked at |
| Removal.AccessorRemoval | user_sync/rules.py:402-409 | a known user loses the mapped groups its own record lists. An unknown user loses all mapped groups when the accessor was never loaded, and nothing otherwise |
| Removal.AccessorRemovalCorrectsAsWritten | user_sync/rules.py:397-409 | in an accessor with mapped groups, the code as written fails exactly where the corrected definition reads the user's groups, and agrees with it elsewhere |
| Removal.AccessorRemovalIsOrphanDelta | user_sync/rules.py:644-648 | for a known user, the corrected removal is the walk's removal for an orphan |
| Removal.AccessorCommandShape | user_sync/rules.py:400-418 | each command of an accessor goes to that accessor, removes a non-empty set of its mapped groups and is about a listed key |
| Removal.AccessorCommandsCount | user_sync/rules.py:400-418 | an accessor sends exactly one group removal for each listed key that has groups to lose there, and no removal from the organization |
| Removal.AllAccessorCommandsRemoveNoMember | user_sync/rules.py:395-418 | the accessor loops send no removal from the owning organization |
| Removal.FinalRemovalsCount | user_sync/rules.py:420-422 | the final loop removes each due key exactly once and no other key |
| Removal.PassRemovesDueKeysOnce | user_sync/rules.py:395-422 | over the whole pass, a listed key is removed from the owning organization exactly once when it is due, and never otherwise |
| Removal.GateAfterGroupRemoval | user_sync/rules.py:389-393 | raising the counter with each group removal sent keeps the gate invariant |
| Removal.GateReady | user_sync/rules.py:420 | before the flag is set no key has been removed from the owning organization |
| Removal.GateAfterOrgRemoval | user_sync/rules.py:370-380 | the one removal of a due key keeps the invariant and is that key's only one |
| Removal.GateAfterCompletion | user_sync/rules.py:382-387 | a completion lowers a positive counter, keeps the invariant, and the key cannot yet have been removed |
| Removal.RemovalGate.constructor | user_sync/rules.py:366-368 | every listed key starts with counter zero, the flag clear and nothing sent |
| Removal.RemovalGate.SendGroupRemovals | user_sync/rules.py:400-418 | one accessor's loop appends exactly its group-removal commands, keeping the gate invariant |
| Removal.RemovalGate.SendGroupRemoval | user_sync/rules.py:400-418 | a key with groups to lose gets one group removal and its counter raised by one; otherwise nothing happens |
| Removal.RemovalGate.TryAndRemoveFromOrg | user_sync/rules.py:370-380 | a removal from the owning organization is sent exactly when the counter is zero and the owning organization was not loaded or knows the user. It is then that key's only one |
| Removal.RemovalGate.SetReadyAndRemove | user_sync/rules.py:420-422 | the flag is set and exactly the due keys are removed, in list order |
| Removal.RemovalGate.SendAllGroupRemovals | user_sync/rules.py:395-418 | the loops of all accessors append exactly their group removals, in accessor order |
| Removal.RemovalGate.CleanDashboardUsers | user_sync/rules.py:352-422 | nothing for an empty list. Otherwise every accessor's group removals, then the removals of the due keys, with the gate invariant kept |
| Removal.RemovalGate.OnRemoveGroupsComplete | user_sync/rules.py:382-387 | the counter falls by one. Once the flag is set, the key is removed when its counter reaches zero and the owning organization allows it |
| Processor.CreateCountry | user_sync/rules.py:482-491 | the directory country, else the default country, else "UD" for an enterprise user, else none |
| Processor.CreateAttributes | user_sync/rules.py:470-497 | nothing for an unmanaged type or a missing country. Otherwise email, country and option, plus firstname and lastname only when present, with the create option chosen by `update_user_info` |
| Processor.OrphanSelection | user_sync/rules.py:287-294 | exactly the owning organization's orphans whose key passes the username filter and whose type is one asked for |
| Processor.OrphanQuota | user_sync/rules.py:308-350 | an error when neither removal nor deletion is requested. With an output file, or with neither nonexistent-user option, no key. Otherwise at most `max_deletions_per_run` keys are added, all of them orphans |
| Processor.OrphanQuotaTakesPrefix | user_sync/rules.py:336-350 | with no output file: an error exactly when the orphans exceed `max_missing_users`, else exactly the first min(count, `max_deletions_per_run`) keys |
| Processor.DeletePathSelectsNoOrphans | user_sync/rules.py:323-324 | the delete path, asking for no type, selects no orphan |
| Processor.IndexUsersUntouched | user_sync/rules.py:180-182 | a key no directory user has keeps its old entry or stays absent |
| Processor.IndexUsersLastWins | user_sync/rules.py:180-182 | each key holds the last directory user read with it |
| Processor.UserDesiresEnrollsOwning | user_sync/rules.py:184-192 | a selected user becomes desired in the owning organization |
| Processor.ChosenUsersAreDesired | user_sync/rules.py:180-193 | every selected directory user is desired in the owning organization once all users are read |
| Processor.UserDesiresOrderFree | user_sync/rules.py:226-232 | a selected user's desired groups are the same whatever order its target names are looked up in |
| Processor.UsersDesiresOrderFree | user_sync/rules.py:179-232 | the desired groups after reading all users are the same for any lookup orders that take each target name once |
| Processor.RuleProcessor.constructor | user_sync/rules.py:40-82 | empty maps, nothing in flight, the given removal list, and orphan processing needed exactly when removal or deletion is requested |
| Processor.RuleProcessor.GetOrganizationInfo | user_sync/rules.py:141-145 | the organization of that name; a missing one is created empty, and nothing else changes |
| Processor.RuleProcessor.ReadDesiredUserGroups | user_sync/rules.py:155-236 | orphan processing is switched off when not all users were loaded. On success the directory index, the selected index and the desired groups are the fold of one-user steps over the users, where each selected user's target names are looked up once each (TargetOrders), so the result is the same for any lookup order; existing organizations stay in place |
| Processor.RuleProcessor.ReadNextUser | user_sync/rules.py:179-232 | one turn of the user loop: when it succeeds, the indexes and desired groups are the fold over one more user, and the new user's lookup order takes each of its target names once |
| Processor.RuleProcessor.ReadDirectoryUser | user_sync/rules.py:180-232 | the user is indexed under its key. It is filed as selected only when chosen, and is then desired with its target groups in some order of its target names. An error only for a chosen user with a target name that does not parse |
| Processor.RuleProcessor.ReadSelectedUser | user_sync/rules.py:192-232 | the selected user is filed, enrolled in the owning organization and given each of its target groups found in the catalog |
| Processor.RuleProcessor.DesireSelected | user_sync/rules.py:192-232 | the user is enrolled in the owning organization and gains the RecordTargets of its target names, looked up once each in some order; an error only for a name that does not parse |
| Processor.RuleProcessor.EnrollOwning | user_sync/rules.py:192 | the desired groups become Enroll of the old ones |
| Processor.RuleProcessor.AddTargetGroups | user_sync/rules.py:226-232 | every target name is looked up once in some order. On success each found group is desired in its organization; an error exactly when a name fails to parse |
| Processor.RuleProcessor.AddLookedUpGroups | user_sync/rules.py:226-232 | the loop over the catalog's answers records the found target of each name once, in the order it picks |
| Processor.RuleProcessor.AddFoundTarget | user_sync/rules.py:227-232 | a found target is recorded in its organization; an unknown name changes nothing |
| Processor.RuleProcessor.AddDesiredTo | user_sync/rules.py:228-230 | the group is desired for the user in its organization, created on first use; no other organization changes |
| Processor.RuleProcessor.AddDesiredIn | user_sync/rules.py:228-230 | `get_organization_info(name).add_desired_group_for(key, group)` is Desire on the holdings |
| Processor.RuleProcessor.UpdateDashboardUser | user_sync/rules.py:525-564 | exactly one update command is appended, to the organization's connector |
| Processor.RuleProcessor.TryAndUpdateDashboardUser | user_sync/rules.py:566-585 | the idempotence sets become RecordNew of the deltas even when the key is in flight. In flight, nothing is sent; otherwise one update with the new groups only |
| Processor.RuleProcessor.VisitDashboardUser | user_sync/rules.py:616-668 | one loop iteration is one Step of the walk |
| Processor.RuleProcessor.VisitManagedUser | user_sync/rules.py:638-668 | a managed user's orphan mark and update are one Visit of the walk |
| Processor.RuleProcessor.UpdateManagedUser | user_sync/rules.py:637-668 | the deltas of a managed user are recorded and the update sent unless the key is in flight |
| Processor.RuleProcessor.UpdateDashboardUsersForConnector | user_sync/rules.py:587-671 | the loop's effect on the tables, the result and the command log is Walk. The organization's desired map is untouched, and the loaded flag is set at the end |
| Processor.RuleProcessor.AddDashboardUser | user_sync/rules.py:457-523 | nothing for an ineligible user. Otherwise one create to the owning connector with CreateAttributes, and with groups managed the owning groups not yet handed out, recorded and split by designation. The key then goes in flight. With groups managed it requires the key to be desired in the owning organization, as the create loop's keys are (rules.py:270-271); for another key the source fails in add_groups |
| Processor.RuleProcessor.SendAddUser | user_sync/rules.py:499-523 | for a user with known attributes: one AddUser command to the owning connector, with no groups when groups are not managed. Otherwise it carries the owning groups not yet handed out, split by designation, and those are recorded. The key goes in flight |
| Processor.RuleProcessor.OwningGroupsToAdd | user_sync/rules.py:501-505 | the groups a new user is created in are the owning groups it is desired in minus those already handed out, split by designation; the handed-out record gains them |
| Processor.RuleProcessor.BuildCreateAttributes | user_sync/rules.py:470-497 | the step-by-step attribute building equals CreateAttributes: nothing for an unmanaged type, the default then "UD" country for an enterprise user, absent names dropped, the update option set |
| Processor.RuleProcessor.UpdateAccessorAfterCreate | user_sync/rules.py:511-520 | the accessor is fetched or created. Its added records become CallbackAdded of the old ones (the desired groups recorded first for an unseen user), and exactly one update is sent carrying them and the removed records. Every other organization is unchanged, and a new organization gets an empty update |
| Processor.RuleProcessor.RecordDesiredIfUnseen | user_sync/rules.py:513-515 | for a user the accessor has not seen, the added records become RecordNew of the old ones with its desired groups; otherwise they are unchanged |
| Processor.RuleProcessor.SendCallbackUpdate | user_sync/rules.py:513-520 | one update is appended for the accessor, with CallbackDone of its records before the callback; an empty organization gets an empty update |
| Processor.RuleProcessor.CallbackUpdateMeaning | user_sync/rules.py:513-520 | the callback update changes no attribute, adds exactly the groups recorded as added (plus the desired ones for an unseen user) and removes exactly those recorded as removed, each split by designation |
| Processor.RuleProcessor.OnCreateComplete | user_sync/rules.py:507-520 | the key leaves the in-flight set. After a successful create with groups managed, each accessor in turn gets one update computed from what it held before the callback, and organizations that are not accessors keep their records; otherwise nothing is sent and nothing is recorded |
| Processor.RuleProcessor.UpdateAccessorsAfterCreate | user_sync/rules.py:509-520 | the loop over the accessors sends one update per accessor, in order, each CallbackDone against the records that accessor held before the loop; other organizations keep their records and earlier commands stay |
| Processor.RuleProcessor.CallbackStep | user_sync/rules.py:510-520 | one turn of the accessor loop keeps its invariant for one more accessor, appending one command |
| Processor.RuleProcessor.CallbackLoopEnds | user_sync/rules.py:509-520 | the loop invariant at the end gives one CallbackDone update per accessor |
| Processor.RuleProcessor.ProcessOrphanedDashboardUsers | user_sync/rules.py:308-350 | the removal list grows by exactly the OrphanQuota of the selected orphans. On an error it is unchanged |
| Processor.RuleProcessor.RemoveFirstOrphans | user_sync/rules.py:340-350 | the counting loop adds exactly the first min(count, `max_deletions_per_run`) orphans |
| Dispatch.PassFromHadWork | user_sync/rules.py:901-906 | the rest of a pass flushes something exactly when some remaining connector has work; if it flushes nothing it changes nothing |
| Dispatch.PassHadWork | user_sync/rules.py:901-906 | a pass reports work exactly when some connector has work at its start |
| Dispatch.DrainQuiescent | user_sync/rules.py:899-908 | when the loop ends by itself, no connector has work left |
| Dispatch.DrainIdle | user_sync/rules.py:899-908 | with no work anywhere the loop stops after one pass, changing nothing |
| Dispatch.DashboardConnectors.constructor | user_sync/rules.py:881-891 | the connectors and their outstanding work as given |
| Dispatch.DashboardConnectors.FlushPass | user_sync/rules.py:901-906 | one pass flushes exactly the connectors with work, in order, and reports whether it flushed any |
| Dispatch.DashboardConnectors.ExecuteActions | user_sync/rules.py:899-908 | the loop is Drain; when it ends because a pass found no work, no connector has work |

## Left out

- The after-mapping hook (`exec` of customer code, rules.py:205-224) is not modelled. Target groups come straight
  from the mappings, as when no hook is configured, and directory attributes are never rewritten.
- `read_remove_list` and `write_remove_list` (rules.py:820-864) are CSV file input and output. The model starts from a
  given removal list and writes no file. `read_remove_list` also calls `get_user_key` with three arguments (line 842)
  against its four parameters (line 780); that path merely reads the file and is not part of this model.
- `run`, `will_manage_groups`, `prepare_organization_infos` and `process_dashboard_users` (the line 107-153 and
  251-285 orchestration) are not modelled as methods. Their steps are: the walk per organization, creates for the
  owning organization's pending keys, and accessor updates for pending keys. Each step is a modelled method, so the
  caller supplies the sequence.
- Logging, `JobStats`, `log_after_mapping_hook_scope` and the debug dumps of options have no effect on the state and are
  left out.
- The connectors are not modelled. `load_users_and_groups` and `iter_users` become sequences passed in.
  `send_commands` becomes an append to the log. `flush` is the function field of `DashboardConnectors`, and a
  completion callback is an explicit event method (`OnCreateComplete`, `OnRemoveGroupsComplete`).
- `normalize_string`, `parse_identity_type` and the username regular expression are caller-supplied functions. The
  identity-type constants are values of `Env`.
- The order in which Python iterates a set or dictionary is arbitrary. It is a parameter (`order`) or a ghost output
  chosen by `:|`, and the contracts hold for every order.
- Dispatch.DashboardConnectors.ExecuteActions: the `while True` loop's termination depends on the connectors. The
  model bounds it by a number of passes (`fuel`) and proves that a loop that ends by itself leaves no work. It does not
  prove that the loop ends.
- A directory or dashboard record whose key cannot be derived (`get_user_key` returns None) is skipped. The source
  treats None as one more key:
  - With no username filter, a directory user with key None is selected, desired in the owning organization under
    None (rules.py:191-192) and given target groups there. A dashboard user with key None is matched against it, and
    if none matches the key None may be created through `add_dashboard_user(None)`.
  - With a username filter, `is_selected_user_key(None)` calls `parse_user_key(None)`, whose `None.split` raises
    AttributeError (rules.py:302, 813) for any such user in the filtered groups.
- `max_deletions_per_run` and `max_missing_users` are naturals. Their `None` defaults, which Python 2 compares as
  smaller than every number, are not modelled.
- Groups are their normalized names, with one designation per name and organization (the first one met). Two cases
  are not reproduced:
  - The source keeps a designation per TargetGroup object, so two catalog entries whose names normalize alike can
    carry different designations for one name.
  - The deltas at rules.py:659 and 662 mix the user's current group names (plain strings) with sets of TargetGroup.
    TargetGroup hashes as its name, so a string and a group of the same name collide, and the reflected
    `TargetGroup.__eq__` (rules.py:1066-1067) then reads `group_name` of a string and raises AttributeError. As
    written, line 659 raises whenever a desired group is already among the user's groups, and line 662 raises or
    yields nothing. `Reconcile.GroupDeltas` computes the name-equality deltas those lines evidently intend.
- Processor.RuleProcessor.Snapshot: the processor-level view of the desired groups keeps the set of names that have a
  designation, not the designation each name has. Which designation a name keeps depends on the order the targets
  are met (the first wins), and the contracts hold for every order. The designation itself is stated per call by
  `AddMappedGroup` and `AddDesiredGroupFor` (`NoteDesignation`).
- Commands carry the user key itself. Splitting the key into exactly three parts for the `Commands` object
  (lines 376, 414) raises when a key has another number of parts; that failure is not modelled.
- `extended_attributes` and the `source_attributes` of a directory user are only read by the hook and are not
  modelled. `delete_user_key_list` is kept by the constructor but never read by the rules, so it is left out.
- Group names are byte strings (`:type qualified_name: str`, rules.py:958), and `strip()` removes the six ASCII
  whitespace characters of Python 2's `str.strip` (`Text.IsSpace`). A name read as `unicode` from non-ASCII
  configuration would also lose other whitespace, such as U+00A0 and U+2000-U+200A; that case is not modelled.
- Removal.RemovalGate.OnRemoveGroupsComplete: the model assumes each callback belongs to a group removal that was sent
  (the counter is positive). A stray callback is not modelled.

## Findings

| source | as written | input that shows it | evidently intended | confidence | as-written member | corrected member |
|---|---|---|---|---|---|---|
| user_sync/rules.py:405 | the accessor loop reads the groups of a known user through `self.dashboard_user`, an attribute RuleProcessor never sets, so it raises AttributeError | any key on the removal list that an accessor organization with mapped groups has among its target users | read the groups of the local `dashboard_user` just fetched from the organization | not executed | Removal.AccessorRemovalAsWritten | Removal.AccessorRemoval |
| user_sync/rules.py:550-554 | for an Adobe ID user, `update_dashboard_user` takes `len(attributes_to_update)`, which is None when the caller passes no attributes, so it raises TypeError | an Adobe ID directory user mapped to a group of an accessor that does not list it, updated by the accessor loop at line 285 with only `groups_to_add` | send no attribute change for an Adobe ID user, treating None as no attributes | not executed | Reconcile.UpdateAttributesAsWritten | Reconcile.UpdateAttributes |
