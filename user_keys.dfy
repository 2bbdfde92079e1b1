/** The user key that correlates directory users with dashboard users:
    the string "type,username,domain", with the domain left empty when the
    username is an email address. */
module UserKeys {
  import opened Wrappers
  import opened Text

  type UserKey = string

  /** `normalize_string` of the helper module, applied to a None-able value:
      None stays None. The normalization itself is supplied by the caller. */
  function Normalize(norm: string -> string, s: Option<string>): Option<string>
  {
    match s
    case None => None
    case Some(v) => Some(norm(v))
  }

  /** The normalized username, falling back to the normalized email when the
      username is None or empty (`username or email`). */
  function ResolvedUsername(norm: string -> string, username: Option<string>, email: Option<string>): (u: Option<string>)
    ensures Truthy(Normalize(norm, username)) ==> u == Normalize(norm, username)
    ensures !Truthy(Normalize(norm, username)) ==> u == Normalize(norm, email)
  {
    var n := Normalize(norm, username);
    if Truthy(n) then n else Normalize(norm, email)
  }

  /** `get_user_key`. `idType` is what `parse_identity_type` returned for the
      record's identity type (None when it was not recognised). */
  function GetUserKey(norm: string -> string, idType: Option<string>, username: Option<string>,
                      domain: Option<string>, email: Option<string>): (r: Option<UserKey>)
    ensures !Truthy(idType) ==> r == None
    ensures !Truthy(ResolvedUsername(norm, username, email)) ==> r == None
    ensures Truthy(idType) && Truthy(ResolvedUsername(norm, username, email))
            && '@' in ResolvedUsername(norm, username, email).value ==>
              r == Some(idType.value + "," + ResolvedUsername(norm, username, email).value + ",")
    ensures Truthy(idType) && Truthy(ResolvedUsername(norm, username, email))
            && '@' !in ResolvedUsername(norm, username, email).value ==>
              (r.Some? <==> Truthy(Normalize(norm, domain)))
              && (r.Some? ==> r.value == idType.value + "," + ResolvedUsername(norm, username, email).value + ","
                                         + Normalize(norm, domain).value)
  {
    var u := ResolvedUsername(norm, username, email);
    var dom := Normalize(norm, domain);
    if !Truthy(idType) then None
    else if !Truthy(u) then None
    else if '@' in u.value then Some(idType.value + "," + u.value + ",")
    else if !Truthy(dom) then None
    else Some(idType.value + "," + u.value + "," + dom.value)
  }

  /** `parse_user_key`: the comma-separated parts of a key. */
  function ParseUserKey(key: UserKey): (parts: seq<string>)
    ensures |parts| >= 1
  {
    Split(key, ",")
  }

  /** The domain part a derived key carries: empty for an email-shaped username. */
  function KeyDomain(norm: string -> string, username: Option<string>, domain: Option<string>,
                     email: Option<string>): string
  {
    var u := ResolvedUsername(norm, username, email);
    if u.Some? && '@' in u.value then "" else Normalize(norm, domain).GetOr("")
  }

  /** Every derived key is "a,b,c" for the type, the username and the domain part. */
  lemma DerivedKeyShape(norm: string -> string, idType: Option<string>, username: Option<string>,
                        domain: Option<string>, email: Option<string>)
    requires GetUserKey(norm, idType, username, domain, email).Some?
    ensures idType.Some? && ResolvedUsername(norm, username, email).Some?
    ensures GetUserKey(norm, idType, username, domain, email).value ==
              idType.value + "," + ResolvedUsername(norm, username, email).value + ","
              + KeyDomain(norm, username, domain, email)
  {
  }

  /** `parse_user_key` gives back the type, the username and the domain part
      whenever none of them contains a comma. */
  lemma ParseUserKeyRoundTrip(norm: string -> string, idType: Option<string>, username: Option<string>,
                              domain: Option<string>, email: Option<string>)
    requires GetUserKey(norm, idType, username, domain, email).Some?
    requires idType.Some? && ',' !in idType.value
    requires ResolvedUsername(norm, username, email).Some? && ',' !in ResolvedUsername(norm, username, email).value
    requires ',' !in KeyDomain(norm, username, domain, email)
    ensures ParseUserKey(GetUserKey(norm, idType, username, domain, email).value) ==
              [idType.value, ResolvedUsername(norm, username, email).value, KeyDomain(norm, username, domain, email)]
  {
    var a, b, c := idType.value, ResolvedUsername(norm, username, email).value, KeyDomain(norm, username, domain, email);
    DerivedKeyShape(norm, idType, username, domain, email);
    assert a + "," + b + "," + c == a + [','] + (b + [','] + c);
    SplitAround(a, ',', b + [','] + c);
    SplitAround(b, ',', c);
    SplitWithoutSeparator(a, ",");
    SplitWithoutSeparator(b, ",");
    SplitWithoutSeparator(c, ",");
  }

  /** A derived key always has at least three parts, so its username part
      (`parse_user_key(key)[1]`) exists. */
  lemma DerivedKeyHasThreeParts(norm: string -> string, idType: Option<string>, username: Option<string>,
                                domain: Option<string>, email: Option<string>)
    requires GetUserKey(norm, idType, username, domain, email).Some?
    ensures |ParseUserKey(GetUserKey(norm, idType, username, domain, email).value)| >= 3
  {
    var a, b, c := idType.value, ResolvedUsername(norm, username, email).value, KeyDomain(norm, username, domain, email);
    DerivedKeyShape(norm, idType, username, domain, email);
    assert a + "," + b + "," + c == a + [','] + (b + [','] + c);
    SplitAround(a, ',', b + [','] + c);
    SplitAround(b, ',', c);
  }

  /** Two records with comma-free parts get the same key exactly when their
      type, username and domain part agree. */
  lemma UserKeyInjective(norm: string -> string,
                         t1: Option<string>, u1: Option<string>, d1: Option<string>, e1: Option<string>,
                         t2: Option<string>, u2: Option<string>, d2: Option<string>, e2: Option<string>)
    requires GetUserKey(norm, t1, u1, d1, e1).Some? && GetUserKey(norm, t2, u2, d2, e2).Some?
    requires ',' !in t1.GetOr("") && ',' !in t2.GetOr("")
    requires ',' !in ResolvedUsername(norm, u1, e1).GetOr("") && ',' !in ResolvedUsername(norm, u2, e2).GetOr("")
    requires ',' !in KeyDomain(norm, u1, d1, e1) && ',' !in KeyDomain(norm, u2, d2, e2)
    ensures GetUserKey(norm, t1, u1, d1, e1) == GetUserKey(norm, t2, u2, d2, e2) <==>
              (t1 == t2 && ResolvedUsername(norm, u1, e1) == ResolvedUsername(norm, u2, e2)
               && KeyDomain(norm, u1, d1, e1) == KeyDomain(norm, u2, d2, e2))
  {
    DerivedKeyShape(norm, t1, u1, d1, e1);
    DerivedKeyShape(norm, t2, u2, d2, e2);
    ParseUserKeyRoundTrip(norm, t1, u1, d1, e1);
    ParseUserKeyRoundTrip(norm, t2, u2, d2, e2);
  }

  /** `get_username_from_user_key`; "" for a string that is not a key. */
  function UsernameOfKey(key: UserKey): string
  {
    var parts := ParseUserKey(key);
    if |parts| >= 2 then parts[1] else ""
  }
}
