/** The two kinds of user record: a directory user (from the customer
    directory) and a dashboard user (as the target organization reports it).
    The dict-valued records of the source are datatypes here; a None value is
    an Option. */
module Users {
  import opened Wrappers

  datatype DirectoryUser = DirectoryUser(
    identityType: Option<string>,
    username: Option<string>,
    domain: Option<string>,
    email: Option<string>,
    firstname: Option<string>,
    lastname: Option<string>,
    country: Option<string>,
    groups: seq<string>)

  datatype DashboardUser = DashboardUser(
    userType: Option<string>,
    username: Option<string>,
    domain: Option<string>,
    email: Option<string>,
    firstname: Option<string>,
    lastname: Option<string>,
    groups: seq<string>)

  type Attributes = map<string, Option<string>>

  /** `get_user_attributes`: email, firstname and lastname of a directory user. */
  function UserAttributes(d: DirectoryUser): (a: Attributes)
    ensures a.Keys == {"email", "firstname", "lastname"}
  {
    map["email" := d.email, "firstname" := d.firstname, "lastname" := d.lastname]
  }

  /** `dashboard_user.get(key)` for the attributes the engine compares. */
  function DashboardValue(u: DashboardUser, key: string): Option<string>
  {
    if key == "email" then u.email
    else if key == "firstname" then u.firstname
    else if key == "lastname" then u.lastname
    else None
  }

  /** `get_user_attribute_difference`: the directory value of every compared
      attribute whose dashboard value differs. */
  function AttributeDifference(d: DirectoryUser, u: DashboardUser): (diff: Attributes)
    ensures diff.Keys <= UserAttributes(d).Keys
    ensures forall k :: k in diff <==> k in UserAttributes(d) && UserAttributes(d)[k] != DashboardValue(u, k)
    ensures forall k | k in diff :: diff[k] == UserAttributes(d)[k]
  {
    var a := UserAttributes(d);
    map k | k in a && a[k] != DashboardValue(u, k) :: a[k]
  }

  /** A dashboard user with the given attribute values written over its own. */
  function ApplyAttributes(u: DashboardUser, attributes: Attributes): DashboardUser
  {
    u.(email := if "email" in attributes then attributes["email"] else u.email,
       firstname := if "firstname" in attributes then attributes["firstname"] else u.firstname,
       lastname := if "lastname" in attributes then attributes["lastname"] else u.lastname)
  }

  /** Sending the differences brings the dashboard user in line with the directory user:
      afterwards there is nothing left to update. */
  lemma AttributeDifferenceConverges(d: DirectoryUser, u: DashboardUser)
    ensures AttributeDifference(d, ApplyAttributes(u, AttributeDifference(d, u))) == map[]
  {
    var u' := ApplyAttributes(u, AttributeDifference(d, u));
    forall k | k in UserAttributes(d) ensures UserAttributes(d)[k] == DashboardValue(u', k) { }
  }

  /** Part of `is_directory_user_in_groups`: some listed group is one of `names`. */
  function InAnyGroup(groups: seq<string>, names: set<string>): (r: bool)
    ensures r <==> exists i :: 0 <= i < |groups| && groups[i] in names
  {
    if |groups| == 0 then false
    else if groups[0] in names then true
    else
      var r := InAnyGroup(groups[1..], names);
      assert forall i :: 1 <= i < |groups| ==> groups[i] == groups[1..][i - 1];
      r
  }

  /** `is_directory_user_in_groups`: true without a filter, else when the user
      is in one of the filter's groups. */
  function IsDirectoryUserInGroups(d: DirectoryUser, filter: Option<set<string>>): (r: bool)
    ensures filter.None? ==> r
    ensures filter.Some? ==> (r <==> exists i :: 0 <= i < |d.groups| && d.groups[i] in filter.value)
  {
    match filter
    case None => true
    case Some(names) => InAnyGroup(d.groups, names)
  }
}
