/** What the rule processor is configured with, the collaborators it calls
    and the commands it issues. */
module Config {
  import opened Wrappers
  import opened Groups
  import opened TargetGroups
  import opened Users
  import opened UserKeys

  /** The functions of other modules the rules call, given as values:
      `normalize_string`, `parse_identity_type`, the username filter regex
      (`username_filter_regex.search(...) != None`), and the identity-type
      constants ENTERPRISE_IDENTITY_TYPE and ADOBEID_IDENTITY_TYPE. */
  datatype Env = Env(
    normalize: string -> string,
    parseIdentityType: string -> Option<string>,
    usernameFilter: Option<string -> bool>,
    enterpriseType: string,
    adobeIdType: string)

  /** The options of RuleProcessor that the core reads. The two limits are
      naturals (the source compares them with None under Python 2 rules). */
  datatype Options = Options(
    directoryGroupFilter: Option<set<string>>,
    newAccountType: string,
    managedIdentityTypes: set<string>,
    manageGroups: bool,
    updateUserInfo: bool,
    removeListOutputPath: Option<string>,
    removeNonexistentUsers: bool,
    deleteListOutputPath: Option<string>,
    deleteNonexistentUsers: bool,
    defaultCountryCode: Option<string>,
    maxDeletionsPerRun: nat,
    maxMissingUsers: nat)

  /** `need_to_process_remove_users`. */
  predicate NeedToProcessRemoveUsers(o: Options) {
    o.removeListOutputPath.Some? || o.removeNonexistentUsers
  }

  /** `need_to_process_delete_users`. */
  predicate NeedToProcessDeleteUsers(o: Options) {
    o.deleteListOutputPath.Some? || o.deleteNonexistentUsers
  }

  /** `get_identity_type_from_directory_user`: the user's type, else `new_account_type`. */
  function DirectoryIdentityType(o: Options, d: DirectoryUser): string {
    d.identityType.GetOr(o.newAccountType)
  }

  /** `get_identity_type_from_dashboard_user`: the user's type, else `new_account_type`. */
  function DashboardIdentityType(o: Options, u: DashboardUser): string {
    u.userType.GetOr(o.newAccountType)
  }

  /** `get_directory_user_key`. */
  function DirectoryUserKey(env: Env, o: Options, d: DirectoryUser): Option<UserKey> {
    GetUserKey(env.normalize, env.parseIdentityType(DirectoryIdentityType(o, d)), d.username, d.domain, d.email)
  }

  /** `get_dashboard_user_key`. */
  function DashboardUserKey(env: Env, o: Options, u: DashboardUser): Option<UserKey> {
    GetUserKey(env.normalize, env.parseIdentityType(DashboardIdentityType(o, u)), u.username, u.domain, u.email)
  }

  /** `is_selected_user_key`: no filter, or the filter matches the key's username part. */
  predicate IsSelectedUserKey(env: Env, key: UserKey) {
    env.usernameFilter.None? || env.usernameFilter.value(UsernameOfKey(key))
  }

  /** The commands issued to a connector, one per `send_commands` call. */
  datatype Command =
    | AddUser(key: UserKey, attributes: Attributes, groups: GroupOps)
    | UpdateUser(key: UserKey, attributes: Attributes, add: GroupOps, remove: GroupOps)
    | RemoveGroups(key: UserKey, removed: set<GroupName>)
    | RemoveFromOrg(key: UserKey)

  /** A command together with the organization whose connector received it. */
  datatype Sent = Sent(org: OrgName, cmd: Command)

  /** The user a command is about. */
  function KeyOf(c: Command): UserKey {
    match c
    case AddUser(k, _, _) => k
    case UpdateUser(k, _, _, _) => k
    case RemoveGroups(k, _) => k
    case RemoveFromOrg(k) => k
  }
}
