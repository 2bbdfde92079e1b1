/** The group catalog: dashboard groups named "[org::]group[,designation]" in
    the configuration, registered by (group, organization). */
module Groups {
  import opened Wrappers
  import opened Text

  /** DESIGNATION_PRODUCT ("productconfiguration") and DESIGNATION_GROUP ("usergroup"). */
  datatype Designation = Product | UserGroup

  /** None is OWNING_ORGANIZATION_NAME, the owning organization. */
  type OrgName = Option<string>

  const GroupNameDelimiter: string := "::"
  const DesignationDelimiter: string := ","

  datatype CatalogError = UnrecognizedDesignation(text: string)

  datatype ParsedName = ParsedName(groupName: string, organization: OrgName, designation: Designation)

  datatype DashboardGroup = DashboardGroup(groupName: string, organizationName: OrgName, designation: Designation)

  /** The registry key of a group: (group name, organization name). */
  type GroupId = (string, OrgName)

  function IdOf(g: DashboardGroup): GroupId {
    (g.groupName, g.organizationName)
  }

  /** The designation named by a suffix, if it is one of the two known ones. */
  function DesignationOf(text: string): (d: Option<Designation>)
    ensures d == Some(Product) <==> text == "productconfiguration"
    ensures d == Some(UserGroup) <==> text == "usergroup"
  {
    if text == "productconfiguration" then Some(Product)
    else if text == "usergroup" then Some(UserGroup)
    else None
  }

  /** `DashboardGroup._parse`. The designation is the stripped second part when
      the name has exactly one ','; otherwise it is Product and the last
      ','-separated part is the rest of the name. The organization is everything
      before the last '::' (the owning organization when that is empty) and the
      group name is the stripped text after it. */
  function Parse(qualifiedName: string): (r: Result<ParsedName, CatalogError>)
    ensures |Split(qualifiedName, ",")| != 2 ==> r.Ok? && r.value.designation == Product
    ensures |Split(qualifiedName, ",")| == 2 ==>
              (r.Err? <==> DesignationOf(Strip(Split(qualifiedName, ",")[1])).None?)
    ensures r.Ok? && |Split(qualifiedName, ",")| == 2 ==>
              Some(r.value.designation) == DesignationOf(Strip(Split(qualifiedName, ",")[1]))
    ensures r.Ok? ==> r.value.organization != Some("")
    ensures r.Ok? ==> r.value.groupName == Strip(r.value.groupName)
  {
    var parts := Split(qualifiedName, DesignationDelimiter);
    var designation := if |parts| == 2 then DesignationOf(Strip(parts[1])) else Some(Product);
    if designation.None? then Err(UnrecognizedDesignation(Strip(parts[1])))
    else Ok(ParseGroupPart(if |parts| == 2 then parts[0] else parts[|parts| - 1], designation.value))
  }

  /** The "[org::]group" part of `_parse`: the organization is everything
      before the last '::' of the stripped text (the owning organization when
      that is empty), the group name the stripped text after it. */
  function ParseGroupPart(rest: string, designation: Designation): (p: ParsedName)
    ensures p.designation == designation
    ensures p.organization != Some("")
    ensures p.groupName == Strip(p.groupName)
  {
    var pieces := Split(Strip(rest), GroupNameDelimiter);
    var groupName := Strip(pieces[|pieces| - 1]);
    var orgText := Join(pieces[..|pieces| - 1], GroupNameDelimiter);
    StripIdempotent(pieces[|pieces| - 1]);
    ParsedName(groupName, if |orgText| == 0 then None else Some(orgText), designation)
  }

  /** `get_qualified_name`: the group name, prefixed by "org::" outside the owning organization. */
  function QualifiedName(g: DashboardGroup): string
  {
    match g.organizationName
    case None => g.groupName
    case Some(org) => org + GroupNameDelimiter + g.groupName
  }

  /** A group whose names hold no delimiter and no surrounding whitespace. */
  predicate DelimiterFree(g: DashboardGroup) {
    && ',' !in g.groupName && ':' !in g.groupName
    && g.groupName == Strip(g.groupName)
    && (g.organizationName.Some? ==>
          var org := g.organizationName.value;
          org != "" && ',' !in org && ':' !in org && !IsSpace(org[0]))
  }

  /** Parsing a delimiter-free group's qualified name gives back its group and
      organization, with the default designation. */
  lemma ParseQualifiedName(g: DashboardGroup)
    requires DelimiterFree(g)
    ensures Parse(QualifiedName(g)) == Ok(ParsedName(g.groupName, g.organizationName, Product))
  {
    var q := QualifiedName(g);
    QualifiedNameWithoutComma(g);
    SplitWithoutSeparator(q, DesignationDelimiter);
    ParseWithoutDesignation(q);
    ParseGroupPartQualified(g);
  }

  /** A name with no ',' is all group part, with the default designation. */
  lemma ParseWithoutDesignation(q: string)
    requires Split(q, DesignationDelimiter) == [q]
    ensures Parse(q) == Ok(ParseGroupPart(q, Product))
  {
  }

  lemma QualifiedNameWithoutComma(g: DashboardGroup)
    requires DelimiterFree(g)
    ensures ',' !in QualifiedName(g)
  {
  }

  lemma ParseGroupPartQualified(g: DashboardGroup)
    requires DelimiterFree(g)
    ensures ParseGroupPart(QualifiedName(g), Product) == ParsedName(g.groupName, g.organizationName, Product)
  {
    var q := QualifiedName(g);
    match g.organizationName {
      case None =>
        StripUnchanged(q);
        SplitWithoutSeparator(q, "::");
        assert Join([], "::") == "";
      case Some(org) =>
        assert q == org + "::" + g.groupName;
        if g.groupName != [] {
          assert q[|q| - 1] == g.groupName[|g.groupName| - 1];
        }
        assert q[0] == org[0];
        StripUnchanged(q);
        SplitAfterPiece(org, "::", g.groupName);
        SplitWithoutSeparator(g.groupName, "::");
        var pieces := Split(q, "::");
        assert pieces == [org, g.groupName];
        assert pieces[..1] == [org];
    }
  }

  /** Splitting at "::" when the last piece holds no ':' and the text before
      the last "::" does not end in ':': the last piece comes off whole. */
  lemma {:induction false} SplitLastPiece(o: string, n: string)
    requires ':' !in n
    requires o == [] || o[|o| - 1] != ':'
    ensures Split(o + "::" + n, "::") == Split(o, "::") + [n]
    decreases |o|
  {
    var s := o + "::" + n;
    SplitWithoutSeparator(n, "::");
    if |o| == 0 {
      assert s[..2] == "::" && s[2..] == n;
    } else if s[..2] == "::" {
      assert |o| >= 2 && o[..2] == "::";
      assert s[2..] == o[2..] + "::" + n;
      SplitLastPiece(o[2..], n);
    } else {
      assert s[1..] == o[1..] + "::" + n;
      SplitLastPiece(o[1..], n);
      var r := Split(o[1..], "::");
      var rest := Split(s[1..], "::");
      assert rest == r + [n];
      assert Split(s, "::") == [[s[0]] + rest[0]] + rest[1..];
      if |o| >= 2 {
        assert o[..2] == s[..2];
        assert Split(o, "::") == [[o[0]] + r[0]] + r[1..];
        assert rest[1..] == r[1..] + [n];
      } else {
        assert o[1..] == [] && o == [s[0]];
        assert r == [""];
        assert Split(o, "::") == [o];
        assert [s[0]] + rest[0] == o;
      }
    }
  }

  /** The group part of a name is split at its LAST "::": everything before it
      is the organization (the owning one when empty) and the stripped text
      after it is the group name, so "a::b::c" names group "c" of
      organization "a::b". */
  lemma ParseGroupPartLast(o: string, n: string, designation: Designation)
    requires ':' !in n
    requires o == [] || (!IsSpace(o[0]) && o[|o| - 1] != ':')
    ensures ParseGroupPart(o + "::" + n, designation)
            == ParsedName(Strip(n), if o == "" then None else Some(o), designation)
  {
    var t := TrimRight(n);
    StripAroundDelimiter(o, n);
    assert ':' !in t by {
      assert t == n[..|t|];
    }
    SplitLastPiece(o, t);
    var pieces := Split(o + "::" + t, "::");
    assert pieces[|pieces| - 1] == t;
    assert pieces[..|pieces| - 1] == Split(o, "::");
    JoinSplit(o, "::");
    assert Strip(t) == Strip(n) by {
      assert TrimRight(t) == t;
    }
  }

  /** Stripping "o::n" when o does not start with whitespace only trims the
      end of n. */
  lemma StripAroundDelimiter(o: string, n: string)
    requires o == [] || !IsSpace(o[0])
    ensures Strip(o + "::" + n) == o + "::" + TrimRight(n)
  {
    TrimRightAfter(o + "::", n);
    assert o + "::" + n == (o + "::") + n;
    var u := o + "::" + TrimRight(n);
    assert u[0] == if o == [] then ':' else o[0];
  }

  /** A group part with no ':' is all group name, in the owning organization. */
  lemma ParseGroupPartSingle(rest: string, designation: Designation)
    requires ':' !in Strip(rest)
    ensures ParseGroupPart(rest, designation) == ParsedName(Strip(rest), None, designation)
  {
    SplitWithoutSeparator(Strip(rest), "::");
    StripIdempotent(rest);
  }

  /** A qualified name without a designation: Product, the organization
      before the last "::" and the stripped group name after it. */
  lemma ParseLastDelimiter(o: string, n: string)
    requires ',' !in o && ',' !in n && ':' !in n
    requires o == [] || (!IsSpace(o[0]) && o[|o| - 1] != ':')
    ensures Parse(o + "::" + n) == Ok(ParsedName(Strip(n), if o == "" then None else Some(o), Product))
  {
    SplitWithoutSeparator(o + "::" + n, DesignationDelimiter);
    ParseWithoutDesignation(o + "::" + n);
    ParseGroupPartLast(o, n, Product);
  }

  /** A qualified name with a known designation after its one ',': that
      designation, the organization before the last "::" and the stripped
      group name after it. */
  lemma ParseDesignated(o: string, n: string, suffix: string)
    requires ',' !in o && ',' !in n && ',' !in suffix && ':' !in n
    requires o == [] || (!IsSpace(o[0]) && o[|o| - 1] != ':')
    requires DesignationOf(Strip(suffix)).Some?
    ensures Parse(o + "::" + n + "," + suffix)
            == Ok(ParsedName(Strip(n), if o == "" then None else Some(o), DesignationOf(Strip(suffix)).value))
  {
    var q := o + "::" + n;
    SplitAtDesignation(q, suffix);
    ParseGroupPartLast(o, n, DesignationOf(Strip(suffix)).value);
  }

  /** A name with one ',' splits into the part before it and the suffix. */
  lemma SplitAtDesignation(q: string, suffix: string)
    requires ',' !in q && ',' !in suffix
    ensures Split(q + DesignationDelimiter + suffix, DesignationDelimiter) == [q, suffix]
  {
    SplitAround(q, ',', suffix);
    SplitWithoutSeparator(q, [',']);
    SplitWithoutSeparator(suffix, [',']);
    assert DesignationDelimiter == [','];
  }

  /** The process-wide registry `DashboardGroup.index_map`. */
  class GroupCatalog {
    var index: map<GroupId, DashboardGroup>

    /** Every entry is registered under its own (group, organization). */
    ghost predicate Valid()
      reads this
    {
      forall id | id in index :: IdOf(index[id]) == id
    }

    constructor ()
      ensures Valid() && index == map[]
    {
      index := map[];
    }

    /** `lookup`: the registered group for the parsed (group, organization), if any. */
    function Lookup(qualifiedName: string): (r: Result<Option<DashboardGroup>, CatalogError>)
      reads this
      ensures r.Err? <==> Parse(qualifiedName).Err?
      ensures Valid() && r.Ok? && r.value.Some? ==>
                r.value.value.groupName == Parse(qualifiedName).value.groupName &&
                r.value.value.organizationName == Parse(qualifiedName).value.organization
    {
      LookupIn(index, qualifiedName)
    }

    /** `iter_groups`. */
    function Groups(): set<DashboardGroup>
      reads this
    {
      index.Values
    }

    /** `create`: the entry already registered for the parsed (group,
        organization), else a new entry registered under it, else None for an
        empty group name. */
    method Create(qualifiedName: string) returns (r: Result<Option<DashboardGroup>, CatalogError>)
      requires Valid()
      modifies this
      ensures Valid()
      ensures Parse(qualifiedName).Err? ==> r == Err(Parse(qualifiedName).error) && index == old(index)
      ensures Parse(qualifiedName).Ok? ==> r == Ok(Registered(old(index), Parse(qualifiedName).value))
      ensures Parse(qualifiedName).Ok? ==> index == AfterCreate(old(index), Parse(qualifiedName).value)
      ensures r.Ok? && r.value.Some? ==> Lookup(qualifiedName) == r
    {
      r := CreateParsed(Parse(qualifiedName));
    }

    /** `create` once the name is parsed. */
    method CreateParsed(parsed: Result<ParsedName, CatalogError>) returns (r: Result<Option<DashboardGroup>, CatalogError>)
      requires Valid()
      modifies this
      ensures Valid()
      ensures parsed.Err? ==> r == Err(parsed.error) && index == old(index)
      ensures parsed.Ok? ==> r == Ok(Registered(old(index), parsed.value))
      ensures parsed.Ok? ==> index == AfterCreate(old(index), parsed.value)
      ensures r.Ok? && r.value.Some? ==> r.value.value.groupName == parsed.value.groupName
      ensures r.Ok? && r.value.Some? ==> r.value.value.organizationName == parsed.value.organization
      ensures r.Ok? && r.value.Some? ==> (parsed.value.groupName, parsed.value.organization) in index
    {
      if parsed.Err? {
        r := Err(parsed.error);
      } else {
        var p := parsed.value;
        var id := (p.groupName, p.organization);
        if id in index {
          r := Ok(Some(index[id]));
          assert AfterCreate(index, p) == index;
        } else if |p.groupName| > 0 {
          var g := DashboardGroup(p.groupName, p.organization, p.designation);
          assert AfterCreate(index, p) == index[id := g];
          index := index[id := g];
          r := Ok(Some(g));
        } else {
          r := Ok(None);
          assert AfterCreate(index, p) == index;
        }
      }
    }
  }

  /** `lookup` against the registry `index`: an error when the name does
      not parse, else the entry registered under its (group, organization),
      if any. */
  function LookupIn(index: map<GroupId, DashboardGroup>, qualifiedName: string): (r: Result<Option<DashboardGroup>, CatalogError>)
    ensures Parse(qualifiedName).Err? <==> r.Err?
    ensures r.Ok? ==> (r.value.Some? <==>
              (Parse(qualifiedName).value.groupName, Parse(qualifiedName).value.organization) in index)
    ensures r.Ok? && r.value.Some? ==>
              r.value.value == index[(Parse(qualifiedName).value.groupName, Parse(qualifiedName).value.organization)]
  {
    match Parse(qualifiedName)
    case Err(e) => Err(e)
    case Ok(p) =>
      var id := (p.groupName, p.organization);
      Ok(if id in index then Some(index[id]) else None)
  }

  /** What `create` returns for a parsed name: the entry already registered
      under its (group, organization), else a new entry for a non-empty group
      name, else None. */
  function Registered(index: map<GroupId, DashboardGroup>, p: ParsedName): (g: Option<DashboardGroup>)
    ensures (p.groupName, p.organization) in index ==> g == Some(index[(p.groupName, p.organization)])
    ensures (p.groupName, p.organization) !in index ==>
              (g.Some? <==> p.groupName != "") &&
              (g.Some? ==> g.value == DashboardGroup(p.groupName, p.organization, p.designation))
  {
    var id := (p.groupName, p.organization);
    if id in index then Some(index[id])
    else if p.groupName != "" then Some(DashboardGroup(p.groupName, p.organization, p.designation))
    else None
  }

  /** The registry after `create` of a parsed name: only a new entry is added. */
  function AfterCreate(index: map<GroupId, DashboardGroup>, p: ParsedName): (index': map<GroupId, DashboardGroup>)
    ensures index'.Keys == index.Keys + (if Registered(index, p).Some? then {(p.groupName, p.organization)} else {})
    ensures forall id | id in index :: index'[id] == index[id]
    ensures Registered(index, p).Some? ==> index'[(p.groupName, p.organization)] == Registered(index, p).value
  {
    var id := (p.groupName, p.organization);
    if id !in index && p.groupName != "" then index[id := DashboardGroup(p.groupName, p.organization, p.designation)]
    else index
  }

  /** For a delimiter-free registered group, looking up its qualified name finds it. */
  lemma LookupQualifiedName(c: GroupCatalog, g: DashboardGroup)
    requires c.Valid() && g in c.index.Values && DelimiterFree(g)
    ensures c.Lookup(QualifiedName(g)) == Ok(Some(g))
  {
    ParseQualifiedName(g);
    var id :| id in c.index && c.index[id] == g;
    assert IdOf(g) == id;
  }
}
