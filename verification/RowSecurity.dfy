/** Row security: the filters of a user's roles, merged and put on every type of a query. */
module RowSecurity {
  import opened Truth
  import opened Filters
  import opened FilterLaws
  import opened Sql
  import opened Query

  datatype DmFilter = DmFilter(column: string, op: Comparison, value: Value)

  /** A role lets a user see the rows of a type that satisfy all filters of one of the sets. */
  datatype DmRowPermission = DmRowPermission(typeName: string, filtersets: seq<seq<DmFilter>>)

  datatype DmPrivileges = DmPrivileges(read: set<string>, write: set<string>, rowSecurity: seq<DmRowPermission>)

  datatype DmPermission = DmPermission(tenant: string, models: map<string, DmPrivileges>)

  /** The cache of permissions, by tenant and role, and how tenants are compared. */
  datatype PermissionCache = PermissionCache(entries: map<string, DmPermission>, fold: string -> string)

  // ---------------------------------------------------------------- what a user may do, read off the cache

  /** A user of a tenant, with the roles of the session, who queries a model. */
  datatype User = User(cache: PermissionCache, tenant: string, model: string, roles: seq<string>)

  /** A role of the user has an entry in the cache, of the user's tenant, and the entry lists the model. */
  predicate Has(u: User, role: string) {
    role in u.roles && u.tenant + "_" + role in u.cache.entries &&
    u.cache.fold(u.cache.entries[u.tenant + "_" + role].tenant) == u.cache.fold(u.tenant) &&
    u.model in u.cache.entries[u.tenant + "_" + role].models
  }

  function Listed(u: User, role: string): DmPrivileges
    requires Has(u, role)
  {
    u.cache.entries[u.tenant + "_" + role].models[u.model]
  }

  ghost predicate MayRead(u: User, table: string) {
    exists role :: Has(u, role) && table in Listed(u, role).read
  }

  ghost predicate MayWrite(u: User, table: string) {
    exists role :: Has(u, role) && table in Listed(u, role).write
  }

  ghost predicate IsRestricted(u: User, typeName: string) {
    exists role, p :: Has(u, role) && p in Listed(u, role).rowSecurity && p.typeName == typeName
  }

  /** Every row of a type that is not restricted, and every row for which one of the listed sets holds entirely. */
  ghost predicate MaySee(co: Collation, u: User, typeName: string, row: Row) {
    IsRestricted(u, typeName) ==>
      exists role, p, fs :: Has(u, role) && p in Listed(u, role).rowSecurity && p.typeName == typeName &&
                            fs in p.filtersets && AllHold(co, fs, row)
  }

  predicate DmHolds(co: Collation, f: DmFilter, row: Row) {
    Col(row, f.column).Val? && f.value.Val? && Relation(co, f.op, Col(row, f.column).text, f.value.text)
  }

  predicate AllHold(co: Collation, fs: seq<DmFilter>, row: Row) {
    forall f :: f in fs ==> DmHolds(co, f, row)
  }

  // ---------------------------------------------------------------- what the roles grant

  /** What a role grants in a model; none when the cache has no entry of this tenant for it. */
  function PrivilegesOf(cache: PermissionCache, tenant: string, model: string, role: string): Option<DmPrivileges> {
    var key := tenant + "_" + role;
    if key in cache.entries && cache.fold(cache.entries[key].tenant) == cache.fold(tenant) &&
       model in cache.entries[key].models
    then Some(cache.entries[key].models[model]) else None
  }

  /** The row permissions of the roles, one role after the other. */
  function PermissionsOf(
      cache: PermissionCache, tenant: string, model: string, roles: seq<string>): seq<DmRowPermission> {
    if roles == [] then []
    else
      var last := PrivilegesOf(cache, tenant, model, roles[|roles| - 1]);
      PermissionsOf(cache, tenant, model, roles[..|roles| - 1]) + if last.Some? then last.value.rowSecurity else []
  }

  function Readable(cache: PermissionCache, tenant: string, model: string, roles: seq<string>): set<string> {
    set role, t | role in roles && PrivilegesOf(cache, tenant, model, role).Some? &&
                  t in PrivilegesOf(cache, tenant, model, role).value.read :: t
  }

  function Writable(cache: PermissionCache, tenant: string, model: string, roles: seq<string>): set<string> {
    set role, t | role in roles && PrivilegesOf(cache, tenant, model, role).Some? &&
                  t in PrivilegesOf(cache, tenant, model, role).value.write :: t
  }

  function FilterOf(f: DmFilter): Filter {
    Filter([], f.column, TOther, f.op, One(f.value), false)
  }

  function FiltersOf(fs: seq<DmFilter>): seq<Filter> {
    seq(|fs|, i requires 0 <= i < |fs| => FilterOf(fs[i]))
  }

  /** All filters of one set. */
  function SetOf(fs: seq<DmFilter>): FilterSet {
    FilterSet(Filters(FiltersOf(fs)), NoSets, Some(And), false)
  }

  function SetsOf(fss: seq<seq<DmFilter>>): seq<FilterSet> {
    seq(|fss|, i requires 0 <= i < |fss| => SetOf(fss[i]))
  }

  /** The sets granted on a type, in the order of the permissions. */
  function Granted(perms: seq<DmRowPermission>, typeName: string): seq<seq<DmFilter>> {
    if perms == [] then []
    else
      var init, last := perms[..|perms| - 1], perms[|perms| - 1];
      Granted(init, typeName) + if last.typeName == typeName then last.filtersets else []
  }

  predicate Restricts(perms: seq<DmRowPermission>, typeName: string) {
    exists p :: p in perms && p.typeName == typeName
  }

  /** Any of the granted sets. */
  function RoleFilter(perms: seq<DmRowPermission>, typeName: string): FilterSet {
    FilterSet(NoFilters, Sets(SetsOf(Granted(perms, typeName))), Some(Or), false)
  }

  ghost predicate MapsTo(securityMap: map<string, FilterSet>, perms: seq<DmRowPermission>) {
    forall t: string ::
      (t in securityMap <==> Restricts(perms, t)) && (t in securityMap ==> securityMap[t] == RoleFilter(perms, t))
  }

  lemma OneMorePermission(perms: seq<DmRowPermission>, p: DmRowPermission, t: string)
    ensures Restricts(perms + [p], t) <==> Restricts(perms, t) || p.typeName == t
    ensures Granted(perms + [p], t) == Granted(perms, t) + if p.typeName == t then p.filtersets else []
    ensures !Restricts(perms, t) ==> Granted(perms, t) == []
  {
    assert (perms + [p])[..|perms|] == perms;
    NothingGranted(perms, t);
    assert p in perms + [p];
    assert forall x :: x in perms + [p] <==> x in perms || x == p;
  }

  lemma {:induction false} NothingGranted(perms: seq<DmRowPermission>, t: string)
    ensures !Restricts(perms, t) ==> Granted(perms, t) == []
    decreases perms
  {
    if perms != [] {
      assert perms[|perms| - 1] in perms;
      NothingGranted(perms[..|perms| - 1], t);
    }
  }

  function SetsAlready(securityMap: map<string, FilterSet>, typeName: string): seq<FilterSet> {
    if typeName in securityMap && securityMap[typeName].filtersets.Sets? then securityMap[typeName].filtersets.list
    else []
  }

  lemma AlreadyGranted(securityMap: map<string, FilterSet>, perms: seq<DmRowPermission>, typeName: string)
    requires MapsTo(securityMap, perms)
    ensures SetsAlready(securityMap, typeName) == SetsOf(Granted(perms, typeName) + [])
  {
    NothingGranted(perms, typeName);
    assert Granted(perms, typeName) + [] == Granted(perms, typeName);
  }

  lemma SetsAppend(a: seq<seq<DmFilter>>, b: seq<seq<DmFilter>>)
    ensures SetsOf(a + b) == SetsOf(a) + SetsOf(b)
    ensures |b| == 1 ==> SetsOf(b) == [SetOf(b[0])]
  {
  }

  lemma MapGrows(securityMap: map<string, FilterSet>, perms: seq<DmRowPermission>, p: DmRowPermission)
    requires MapsTo(securityMap, perms)
    ensures var sets := SetsOf(Granted(perms, p.typeName) + p.filtersets);
            MapsTo(securityMap[p.typeName := FilterSet(NoFilters, Sets(sets), Some(Or), false)], perms + [p])
  {
    var sets := SetsOf(Granted(perms, p.typeName) + p.filtersets);
    var m := securityMap[p.typeName := FilterSet(NoFilters, Sets(sets), Some(Or), false)];
    forall t: string
      ensures t in m <==> Restricts(perms + [p], t)
      ensures t in m ==> m[t] == RoleFilter(perms + [p], t)
    {
      OneMorePermission(perms, p, t);
      if t != p.typeName {
        assert Granted(perms, t) + [] == Granted(perms, t);
      }
    }
  }

  class AccessPrivileges {
    var readPrivilegesTableSet: set<string>
    var writePrivilegesTableSet: set<string>
    var rowSecurityMap: map<string, FilterSet>

    constructor ()
      ensures readPrivilegesTableSet == {} && writePrivilegesTableSet == {} && rowSecurityMap == map[]
    {
      readPrivilegesTableSet, writePrivilegesTableSet, rowSecurityMap := {}, {}, map[];
    }

    predicate IsAuthorized(types: set<string>)
      reads this
    {
      types <= readPrivilegesTableSet
    }

    /** One permission: its sets join those the type already has. */
    method AddPermission(p: DmRowPermission, ghost perms: seq<DmRowPermission>)
      requires MapsTo(rowSecurityMap, perms)
      modifies this`rowSecurityMap
      ensures MapsTo(rowSecurityMap, perms + [p])
    {
      var sets: seq<FilterSet> := SetsAlready(rowSecurityMap, p.typeName);
      AlreadyGranted(rowSecurityMap, perms, p.typeName);
      for i := 0 to |p.filtersets|
        invariant sets == SetsOf(Granted(perms, p.typeName) + p.filtersets[..i]) &&
                  rowSecurityMap == old(rowSecurityMap)
      {
        var filters: seq<Filter> := [];
        for k := 0 to |p.filtersets[i]|
          invariant filters == FiltersOf(p.filtersets[i][..k]) && rowSecurityMap == old(rowSecurityMap)
        {
          filters := filters + [FilterOf(p.filtersets[i][k])];
        }
        assert p.filtersets[i][..|p.filtersets[i]|] == p.filtersets[i];
        sets := sets + [FilterSet(Filters(filters), NoSets, Some(And), false)];
        SetsAppend(Granted(perms, p.typeName) + p.filtersets[..i], [p.filtersets[i]]);
        assert Granted(perms, p.typeName) + p.filtersets[..i] + [p.filtersets[i]] ==
               Granted(perms, p.typeName) + p.filtersets[..i + 1];
      }
      assert p.filtersets[..|p.filtersets|] == p.filtersets;
      MapGrows(rowSecurityMap, perms, p);
      rowSecurityMap := rowSecurityMap[p.typeName := FilterSet(NoFilters, Sets(sets), Some(Or), false)];
    }

    method PopulateRowSecurity(privileges: DmPrivileges, ghost perms: seq<DmRowPermission>)
      requires MapsTo(rowSecurityMap, perms)
      modifies this`rowSecurityMap
      ensures MapsTo(rowSecurityMap, perms + privileges.rowSecurity)
    {
      var rs := privileges.rowSecurity;
      assert perms + rs[..0] == perms;
      for i := 0 to |rs|
        invariant MapsTo(rowSecurityMap, perms + rs[..i])
      {
        AddPermission(rs[i], perms + rs[..i]);
        assert perms + rs[..i] + [rs[i]] == perms + rs[..i + 1];
      }
      assert rs[..|rs|] == rs;
    }
  }

  // ---------------------------------------------------------------- the filter of a type

  /** The roles' filter and the query's own filter, both. */
  function Secured(role: Option<FilterSet>, own: Option<FilterSet>): Option<FilterSet> {
    var sets := (if role.Some? then [role.value] else []) + (if own.Some? then [own.value] else []);
    if sets == [] then None else Some(FilterSet(NoFilters, Sets(sets), Some(And), false))
  }

  function RoleOf(securityMap: map<string, FilterSet>, typeName: string): Option<FilterSet> {
    if typeName in securityMap then Some(securityMap[typeName]) else None
  }

  /** What the roles say: the type is not restricted, or the row satisfies all filters of some granted set. */
  predicate Allowed(co: Collation, perms: seq<DmRowPermission>, typeName: string, row: Row) {
    Restricts(perms, typeName) ==>
      exists p, fs :: p in perms && p.typeName == typeName && fs in p.filtersets && AllHold(co, fs, row)
  }

  lemma SetMeans(co: Collation, fs: seq<DmFilter>, row: Row)
    ensures DropLone(SetOf(fs)) == SetOf(fs)
    ensures Meaning(SetOf(fs), [], co, RowEnv(row)) == Yes <==> AllHold(co, fs, row)
  {
    var members := FilterMeanings(FiltersOf(fs), [], co, RowEnv(row));
    FoldYes(And, members);
    forall i | 0 <= i < |fs|
      ensures members[i] == Yes <==> DmHolds(co, fs[i], row)
    {
      assert FiltersOf(fs)[i] == FilterOf(fs[i]);
    }
    assert forall t :: t in members ==> exists i :: 0 <= i < |fs| && members[i] == t;
    if AllHold(co, fs, row) {
      assert forall i :: 0 <= i < |fs| ==> fs[i] in fs;
    } else {
      var f :| f in fs && !DmHolds(co, f, row);
      var i :| 0 <= i < |fs| && fs[i] == f;
      assert members[i] in members;
    }
  }

  lemma {:induction false} AnySetMeans(co: Collation, fss: seq<seq<DmFilter>>, row: Row)
    ensures DropLoneAll(SetsOf(fss)) == SetsOf(fss)
    ensures Yes in Meanings(SetsOf(fss), [], co, RowEnv(row)) <==> exists fs :: fs in fss && AllHold(co, fs, row)
    decreases fss
  {
    if fss != [] {
      assert SetsOf(fss)[1..] == SetsOf(fss[1..]) && SetsOf(fss)[0] == SetOf(fss[0]);
      SetMeans(co, fss[0], row);
      AnySetMeans(co, fss[1..], row);
      assert forall fs :: fs in fss <==> fs == fss[0] || fs in fss[1..];
    }
  }

  lemma {:induction false} GrantedMembers(perms: seq<DmRowPermission>, typeName: string, fs: seq<DmFilter>)
    ensures fs in Granted(perms, typeName) <==> exists p :: p in perms && p.typeName == typeName && fs in p.filtersets
    decreases perms
  {
    if perms != [] {
      var init, last := perms[..|perms| - 1], perms[|perms| - 1];
      assert forall p :: p in perms <==> p in init || p == last;
      GrantedMembers(init, typeName, fs);
    }
  }

  lemma RoleFilterMeans(co: Collation, perms: seq<DmRowPermission>, typeName: string, row: Row)
    ensures DropLone(RoleFilter(perms, typeName)) == RoleFilter(perms, typeName)
    ensures Meaning(RoleFilter(perms, typeName), [], co, RowEnv(row)) == Yes <==>
              exists fs :: fs in Granted(perms, typeName) && AllHold(co, fs, row)
  {
    var fss := Granted(perms, typeName);
    AnySetMeans(co, fss, row);
    FoldYes(Or, Meanings(SetsOf(fss), [], co, RowEnv(row)));
  }

  /** A row passes the merged filter iff some role grants a set that holds and it passes the query's own filter. */
  lemma SecuredMeans(
      co: Collation, securityMap: map<string, FilterSet>, perms: seq<DmRowPermission>, typeName: string,
      own: Option<FilterSet>, row: Row)
    requires MapsTo(securityMap, perms)
    ensures Selected(co, Secured(RoleOf(securityMap, typeName), own), row) <==>
              Allowed(co, perms, typeName, row) && Selected(co, own, row)
  {
    RoleFilterMeans(co, perms, typeName, row);
    forall fs
      ensures fs in Granted(perms, typeName) <==> exists p :: p in perms && p.typeName == typeName && fs in p.filtersets
    {
      GrantedMembers(perms, typeName, fs);
    }
    BothMean(co, RoleOf(securityMap, typeName), own, row);
  }

  lemma BothMean(co: Collation, role: Option<FilterSet>, own: Option<FilterSet>, row: Row)
    ensures Selected(co, Secured(role, own), row) <==> Selected(co, role, row) && Selected(co, own, row)
  {
    var env := RowEnv(row);
    if role.Some? && own.Some? {
      assert [role.value] + [own.value] == [role.value, own.value];
      TwoMean(co, role.value, own.value, env);
    } else if role.Some? {
      assert [role.value] + [] == [role.value];
      OneMeans(co, role.value, env);
    } else if own.Some? {
      assert [] + [own.value] == [own.value];
      OneMeans(co, own.value, env);
    }
  }

  lemma OneMeans(co: Collation, s: FilterSet, env: Env)
    ensures Meaning(DropLone(FilterSet(NoFilters, Sets([s]), Some(And), false)), [], co, env) == Yes <==>
              Meaning(DropLone(s), [], co, env) == Yes
  {
    assert [s][1..] == [] && DropLoneAll([s]) == [DropLone(s)] + DropLoneAll([]);
    assert [DropLone(s)][1..] == [];
    assert Meanings([DropLone(s)], [], co, env) == [Meaning(DropLone(s), [], co, env)] + Meanings([], [], co, env);
    FoldYes(And, [Meaning(DropLone(s), [], co, env)]);
  }

  lemma TwoMean(co: Collation, a: FilterSet, b: FilterSet, env: Env)
    ensures Meaning(DropLone(FilterSet(NoFilters, Sets([a, b]), Some(And), false)), [], co, env) == Yes <==>
              Meaning(DropLone(a), [], co, env) == Yes && Meaning(DropLone(b), [], co, env) == Yes
  {
    assert [a, b][1..] == [b] && [b][1..] == [] && DropLoneAll([a, b]) == [DropLone(a)] + DropLoneAll([b]);
    assert DropLoneAll([b]) == [DropLone(b)] + DropLoneAll([]);
    var ss := DropLoneAll([a, b]);
    assert ss == [DropLone(a), DropLone(b)] && ss[1..] == [DropLone(b)] && [DropLone(b)][1..] == [];
    var ms := Meanings(ss, [], co, env);
    assert ms == [Meaning(DropLone(a), [], co, env)] + Meanings([DropLone(b)], [], co, env);
    assert Meanings([DropLone(b)], [], co, env) == [Meaning(DropLone(b), [], co, env)] + Meanings([], [], co, env);
    FoldYes(And, ms);
    assert ms[0] in ms && ms[1] in ms;
  }

  /** Role order and repetition do not matter. */
  lemma RoleOrderIsIrrelevant(
      co: Collation, cache: PermissionCache, tenant: string, model: string, roles: seq<string>, roles': seq<string>,
      typeName: string, row: Row)
    requires forall r :: r in roles <==> r in roles'
    ensures Readable(cache, tenant, model, roles) == Readable(cache, tenant, model, roles')
    ensures Allowed(co, PermissionsOf(cache, tenant, model, roles), typeName, row) <==>
            Allowed(co, PermissionsOf(cache, tenant, model, roles'), typeName, row)
  {
    forall p
      ensures p in PermissionsOf(cache, tenant, model, roles) <==> p in PermissionsOf(cache, tenant, model, roles')
    {
      PermissionMembers(cache, tenant, model, roles, p);
      PermissionMembers(cache, tenant, model, roles', p);
    }
  }

  lemma {:induction false} PermissionMembers(
      cache: PermissionCache, tenant: string, model: string, roles: seq<string>, p: DmRowPermission)
    ensures p in PermissionsOf(cache, tenant, model, roles) <==>
              exists r :: r in roles && PrivilegesOf(cache, tenant, model, r).Some? &&
                          p in PrivilegesOf(cache, tenant, model, r).value.rowSecurity
    decreases roles
  {
    if roles != [] {
      var init, last := roles[..|roles| - 1], roles[|roles| - 1];
      assert forall r :: r in roles <==> r in init || r == last;
      PermissionMembers(cache, tenant, model, init, p);
    }
  }

  // ---------------------------------------------------------------- the privileges of a user

  lemma HasIff(u: User, role: string)
    ensures Has(u, role) <==> role in u.roles && PrivilegesOf(u.cache, u.tenant, u.model, role).Some?
    ensures Has(u, role) ==> PrivilegesOf(u.cache, u.tenant, u.model, role) == Some(Listed(u, role))
  {
  }

  lemma ReadsAndWrites(u: User, t: string)
    ensures t in Readable(u.cache, u.tenant, u.model, u.roles) <==> MayRead(u, t)
    ensures t in Writable(u.cache, u.tenant, u.model, u.roles) <==> MayWrite(u, t)
  {
    forall role
      ensures Has(u, role) <==> role in u.roles && PrivilegesOf(u.cache, u.tenant, u.model, role).Some?
      ensures Has(u, role) ==> PrivilegesOf(u.cache, u.tenant, u.model, role) == Some(Listed(u, role))
    {
      HasIff(u, role);
    }
  }

  function PermissionsFor(u: User): seq<DmRowPermission> {
    PermissionsOf(u.cache, u.tenant, u.model, u.roles)
  }

  lemma ListedPermissions(u: User, p: DmRowPermission)
    ensures p in PermissionsFor(u) <==> exists role :: Has(u, role) && p in Listed(u, role).rowSecurity
  {
    PermissionMembers(u.cache, u.tenant, u.model, u.roles, p);
    if p in PermissionsFor(u) {
      var role :| role in u.roles && PrivilegesOf(u.cache, u.tenant, u.model, role).Some? &&
                  p in PrivilegesOf(u.cache, u.tenant, u.model, role).value.rowSecurity;
      HasIff(u, role);
    }
    if role :| Has(u, role) && p in Listed(u, role).rowSecurity {
      HasIff(u, role);
    }
  }

  lemma RestrictedIff(u: User, typeName: string)
    ensures Restricts(PermissionsFor(u), typeName) <==> IsRestricted(u, typeName)
  {
    forall p
      ensures p in PermissionsFor(u) <==> exists role :: Has(u, role) && p in Listed(u, role).rowSecurity
    {
      ListedPermissions(u, p);
    }
  }

  /** What the merged permissions restrict and allow, read off the cache. */
  lemma RolesAllow(co: Collation, u: User, typeName: string, row: Row)
    ensures Restricts(PermissionsFor(u), typeName) <==> IsRestricted(u, typeName)
    ensures Allowed(co, PermissionsFor(u), typeName, row) <==> MaySee(co, u, typeName, row)
  {
    forall p
      ensures p in PermissionsFor(u) <==> exists role :: Has(u, role) && p in Listed(u, role).rowSecurity
    {
      ListedPermissions(u, p);
    }
  }

  ghost predicate GrantsRows(securityMap: map<string, FilterSet>, u: User) {
    (forall t :: t in securityMap <==> IsRestricted(u, t)) &&
    forall co, t, row :: Selected(co, RoleOf(securityMap, t), row) <==> MaySee(co, u, t, row)
  }

  lemma MapGrantsRows(securityMap: map<string, FilterSet>, u: User)
    requires MapsTo(securityMap, PermissionsFor(u))
    ensures GrantsRows(securityMap, u)
  {
    forall t
      ensures t in securityMap <==> IsRestricted(u, t)
    {
      assert t in securityMap <==> Restricts(PermissionsFor(u), t);
      RestrictedIff(u, t);
    }
    forall co, t, row
      ensures Selected(co, RoleOf(securityMap, t), row) <==> MaySee(co, u, t, row)
    {
      RolesAllow(co, u, t, row);
      SecuredMeans(co, securityMap, PermissionsFor(u), t, None, row);
      BothMean(co, RoleOf(securityMap, t), None, row);
    }
  }

  /**
   The roles are merged one after the other: what the user may read and write, and for every type the rows the user may
   see, is what the entries of the user's roles list.
   */
  method GetAccessPrivileges(cache: PermissionCache, tenant: string, model: string, ssoRoles: seq<string>)
    returns (privileges: AccessPrivileges)
    ensures fresh(privileges)
    ensures forall t :: t in privileges.readPrivilegesTableSet <==> MayRead(User(cache, tenant, model, ssoRoles), t)
    ensures forall t :: t in privileges.writePrivilegesTableSet <==> MayWrite(User(cache, tenant, model, ssoRoles), t)
    ensures GrantsRows(privileges.rowSecurityMap, User(cache, tenant, model, ssoRoles))
    ensures MapsTo(privileges.rowSecurityMap, PermissionsOf(cache, tenant, model, ssoRoles))
  {
    privileges := new AccessPrivileges();
    for i := 0 to |ssoRoles|
      invariant fresh(privileges)
      invariant MapsTo(privileges.rowSecurityMap, PermissionsOf(cache, tenant, model, ssoRoles[..i]))
      invariant privileges.readPrivilegesTableSet == Readable(cache, tenant, model, ssoRoles[..i])
      invariant privileges.writePrivilegesTableSet == Writable(cache, tenant, model, ssoRoles[..i])
    {
      ghost var perms := PermissionsOf(cache, tenant, model, ssoRoles[..i]);
      assert ssoRoles[..i + 1] == ssoRoles[..i] + [ssoRoles[i]] && ssoRoles[..i + 1][..i] == ssoRoles[..i];
      var granted := PrivilegesOf(cache, tenant, model, ssoRoles[i]);
      if granted.Some? {
        privileges.readPrivilegesTableSet := privileges.readPrivilegesTableSet + granted.value.read;
        privileges.writePrivilegesTableSet := privileges.writePrivilegesTableSet + granted.value.write;
        privileges.PopulateRowSecurity(granted.value, perms);
      } else {
        assert perms + [] == perms;
      }
    }
    assert ssoRoles[..|ssoRoles|] == ssoRoles;
    ghost var u := User(cache, tenant, model, ssoRoles);
    forall t
      ensures t in privileges.readPrivilegesTableSet <==> MayRead(u, t)
      ensures t in privileges.writePrivilegesTableSet <==> MayWrite(u, t)
    {
      ReadsAndWrites(u, t);
    }
    MapGrantsRows(privileges.rowSecurityMap, u);
  }
}
