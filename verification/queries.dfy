/** The store lookups of the resource package: selections over one table and
    the two-table joins of `module_api` with `role_module_binding`. Every
    lookup fails with `Internal(q)` and no rows when the database fails to
    answer its statement `q`. */
module Queries {
  import opened Seqs
  import opened Store

  // ---------------------------------------------------------------------------
  // Roles and bindings (helpers the engine calls; their bodies live elsewhere
  // in the repository and are modelled from their use)

  predicate HasRole(roles: seq<Role>, id: string)
  {
    exists r :: r in roles && r.roleId == id
  }

  /** The role rows whose id is in `roleIds`. */
  function RolesOf(db: Db, roleIds: seq<string>): seq<Role>
  {
    Filter(db.roles, (r: Role) => r.roleId in roleIds)
  }

  /** Loads the roles named by `roleIds`. The helper's body is not in this
      file: an id with no role row is assumed to be an error. */
  function GetRoles(db: Db, roleIds: seq<string>): (r: Result<seq<Role>>)
    ensures r.Success? <==>
      RolesQuery !in db.failing && forall id :: id in roleIds ==> HasRole(db.roles, id)
    ensures r.Success? ==> forall x :: x in r.value <==> x in db.roles && x.roleId in roleIds
    ensures r.Failure? && r.error.NotFound? ==>
      RolesQuery !in db.failing && r.error.id in roleIds && !HasRole(db.roles, r.error.id)
    ensures r.Failure? && r.error.Internal? ==> r.error.query == RolesQuery
  {
    if RolesQuery in db.failing then Failure(Internal(RolesQuery))
    else
      var missing := Filter(roleIds, (id: string) => !HasRole(db.roles, id));
      if |missing| > 0 then Failure(NotFound(missing[0]))
      else Success(RolesOf(db, roleIds))
  }

  /** Loads one role by id. */
  function GetRole(db: Db, roleId: string): (r: Result<Role>)
    ensures r.Success? <==> RoleQuery !in db.failing && HasRole(db.roles, roleId)
    ensures r.Success? ==> r.value in db.roles && r.value.roleId == roleId
    ensures r.Failure? ==>
      r.error == (if RoleQuery in db.failing then Internal(RoleQuery) else NotFound(roleId))
  {
    if RoleQuery in db.failing then Failure(Internal(RoleQuery))
    else
      var matches := Filter(db.roles, (x: Role) => x.roleId == roleId);
      if |matches| == 0 then Failure(NotFound(roleId))
      else
        assert matches[0] in matches;
        Success(matches[0])
  }

  /** The `role_module_binding` rows of the given roles. */
  function GetRoleModuleBindingsByRoleIds(db: Db, roleIds: seq<string>): (r: Result<seq<RoleModuleBinding>>)
    ensures r.Success? <==> BindingsQuery !in db.failing
    ensures r.Failure? ==> r.error == Internal(BindingsQuery)
    ensures r.Success? ==> forall b :: b in r.value <==> b in db.bindings && b.roleId in roleIds
    ensures r.Success? ==> forall b | b in db.bindings ::
      multiset(r.value)[b] == if b.roleId in roleIds then multiset(db.bindings)[b] else 0
  {
    if BindingsQuery in db.failing then Failure(Internal(BindingsQuery))
    else Success(Filter(db.bindings, (b: RoleModuleBinding) => b.roleId in roleIds))
  }

  // ---------------------------------------------------------------------------
  // Selections over module_api

  /** `module_api` rows whose module id is in `moduleIds`, each as often as it is stored.
      An empty id list selects nothing. */
  function GetModuleApisByModuleIds(db: Db, moduleIds: seq<string>): (r: Result<seq<ModuleApi>>)
    ensures r.Success? <==> ApisByModuleIdsQuery !in db.failing
    ensures r.Failure? ==> r.error == Internal(ApisByModuleIdsQuery)
    ensures r.Success? ==> forall a :: a in r.value <==> a in db.moduleApis && a.moduleId in moduleIds
    ensures r.Success? ==> forall a | a in db.moduleApis ::
      multiset(r.value)[a] == if a.moduleId in moduleIds then multiset(db.moduleApis)[a] else 0
  {
    if ApisByModuleIdsQuery in db.failing then Failure(Internal(ApisByModuleIdsQuery))
    else Success(Filter(db.moduleApis, (a: ModuleApi) => a.moduleId in moduleIds))
  }

  /** `module_api` rows whose action bundle id is in `actionBundleIds`, each as often as it is stored. */
  function GetModuleApisByActionBundleIds(db: Db, actionBundleIds: seq<string>): (r: Result<seq<ModuleApi>>)
    ensures r.Success? <==> ApisByBundleIdsQuery !in db.failing
    ensures r.Failure? ==> r.error == Internal(ApisByBundleIdsQuery)
    ensures r.Success? ==>
      forall a :: a in r.value <==> a in db.moduleApis && a.actionBundleId in actionBundleIds
    ensures r.Success? ==> forall a | a in db.moduleApis ::
      multiset(r.value)[a] == if a.actionBundleId in actionBundleIds then multiset(db.moduleApis)[a] else 0
  {
    if ApisByBundleIdsQuery in db.failing then Failure(Internal(ApisByBundleIdsQuery))
    else Success(Filter(db.moduleApis, (a: ModuleApi) => a.actionBundleId in actionBundleIds))
  }

  /** The module id of every element, position by position. */
  function ModuleIdsOf(s: seq<ModuleApi>): (r: seq<string>)
    ensures |r| == |s|
    ensures forall i :: 0 <= i < |s| ==> r[i] == s[i].moduleId
    ensures forall m :: m in r <==> m in Keys(s, ModuleIdOf)
  {
    var r := seq(|s|, i requires 0 <= i < |s| => s[i].moduleId);
    forall m
      ensures m in r <==> m in Keys(s, ModuleIdOf)
    {
      if m in r {
        var i :| 0 <= i < |r| && r[i] == m;
        assert ModuleIdOf(s[i]) == m;
      }
      if m in Keys(s, ModuleIdOf) {
        var a :| a in s && ModuleIdOf(a) == m;
        var i :| 0 <= i < |s| && s[i] == a;
        assert r[i] == m;
      }
    }
    r
  }

  /** The distinct module ids of `module_api` (GROUP BY module_id). */
  function GetModuleIds(db: Db): (r: Result<seq<string>>)
    ensures r.Success? <==> ModuleIdsQuery !in db.failing
    ensures r.Failure? ==> r.error == Internal(ModuleIdsQuery)
    ensures r.Success? ==> forall m :: m in r.value <==> exists a :: a in db.moduleApis && a.moduleId == m
    ensures r.Success? ==> forall i, j :: 0 <= i < j < |r.value| ==> r.value[i] != r.value[j]
  {
    if ModuleIdsQuery in db.failing then Failure(Internal(ModuleIdsQuery))
    else
      var groups := UniqueBy(db.moduleApis, ModuleIdOf);
      var ids := ModuleIdsOf(groups);
      assert forall m :: m in Keys(db.moduleApis, ModuleIdOf) <==> exists a :: a in db.moduleApis && a.moduleId == m;
      assert forall i, j :: 0 <= i < j < |ids| ==> ids[i] != ids[j] by {
        assert DistinctKeys(groups, ModuleIdOf);
        assert forall i :: 0 <= i < |ids| ==> ids[i] == ModuleIdOf(groups[i]);
      }
      Success(ids)
  }

  // ---------------------------------------------------------------------------
  // Joins of module_api with role_module_binding

  /** Number of bindings `on` pairs with `api`. */
  function MatchCount(api: ModuleApi, bs: seq<RoleModuleBinding>,
                      on: (ModuleApi, RoleModuleBinding) -> bool): nat
  {
    if |bs| == 0 then 0
    else (if on(api, bs[0]) then 1 else 0) + MatchCount(api, bs[1..], on)
  }

  lemma {:induction false} MatchCountPositive(api: ModuleApi, bs: seq<RoleModuleBinding>,
                                              on: (ModuleApi, RoleModuleBinding) -> bool)
    ensures MatchCount(api, bs, on) > 0 <==> exists b :: b in bs && on(api, b)
    decreases |bs|
  {
    if |bs| != 0 {
      MatchCountPositive(api, bs[1..], on);
      assert forall b :: b in bs <==> b == bs[0] || b in bs[1..];
    }
  }

  /** One copy of `api` per binding it joins with. */
  function JoinedCopies(api: ModuleApi, bs: seq<RoleModuleBinding>,
                        on: (ModuleApi, RoleModuleBinding) -> bool): (r: seq<ModuleApi>)
    ensures forall x :: x in r ==> x == api
    ensures |r| == MatchCount(api, bs, on)
    ensures multiset(r)[api] == MatchCount(api, bs, on)
    decreases |bs|
  {
    if |bs| == 0 then []
    else
      var rest := JoinedCopies(api, bs[1..], on);
      if on(api, bs[0]) then [api] + rest else rest
  }

  /** `module_api JOIN role_module_binding ON on WHERE where`, projected on the
      `module_api` columns and without GROUP BY: each selected api appears once
      per binding it joins with (see InnerJoinMultiplicity). */
  function InnerJoin(apis: seq<ModuleApi>, bs: seq<RoleModuleBinding>,
                     where: ModuleApi -> bool,
                     on: (ModuleApi, RoleModuleBinding) -> bool): (r: seq<ModuleApi>)
    ensures forall x :: x in r ==> x in apis && where(x) && exists b :: b in bs && on(x, b)
    ensures forall x, b :: x in apis && where(x) && b in bs && on(x, b) ==> x in r
    decreases |apis|
  {
    if |apis| == 0 then []
    else
      var head := if where(apis[0]) then JoinedCopies(apis[0], bs, on) else [];
      var rest := InnerJoin(apis[1..], bs, where, on);
      MatchCountPositive(apis[0], bs, on);
      assert where(apis[0]) && (exists b :: b in bs && on(apis[0], b)) ==> apis[0] in head;
      assert forall x :: x in apis ==> x == apis[0] || x in apis[1..];
      head + rest
  }

  /** Each selected api occurs in the join once per stored copy and joined binding. */
  lemma {:induction false} InnerJoinMultiplicity(apis: seq<ModuleApi>, bs: seq<RoleModuleBinding>,
                                                 where: ModuleApi -> bool,
                                                 on: (ModuleApi, RoleModuleBinding) -> bool)
    ensures forall x ::
      multiset(InnerJoin(apis, bs, where, on))[x] == (if where(x) then multiset(apis)[x] * MatchCount(x, bs, on) else 0)
    decreases |apis|
  {
    forall x
      ensures multiset(InnerJoin(apis, bs, where, on))[x] ==
        if where(x) then multiset(apis)[x] * MatchCount(x, bs, on) else 0
    {
      InnerJoinMultiplicityAt(apis, bs, where, on, x);
    }
  }

  lemma {:induction false} InnerJoinMultiplicityAt(apis: seq<ModuleApi>, bs: seq<RoleModuleBinding>,
                                                   where: ModuleApi -> bool,
                                                   on: (ModuleApi, RoleModuleBinding) -> bool,
                                                   x: ModuleApi)
    ensures multiset(InnerJoin(apis, bs, where, on))[x] ==
      if where(x) then multiset(apis)[x] * MatchCount(x, bs, on) else 0
    decreases |apis|
  {
    if |apis| != 0 {
      var head := if where(apis[0]) then JoinedCopies(apis[0], bs, on) else [];
      var rest := InnerJoin(apis[1..], bs, where, on);
      assert InnerJoin(apis, bs, where, on) == head + rest;
      InnerJoinMultiplicityAt(apis[1..], bs, where, on, x);
      var k := multiset(apis[1..])[x];
      var h := if x == apis[0] then 1 else 0;
      assert multiset(apis)[x] == h + k by {
        assert apis == [apis[0]] + apis[1..];
      }
      assert multiset(head)[x] == if where(x) then h * MatchCount(x, bs, on) else 0 by {
        if x != apis[0] && where(apis[0]) {
          assert x !in head;
        }
      }
      SumOfProducts(h, k, MatchCount(x, bs, on));
    }
  }

  lemma SumOfProducts(h: nat, k: nat, n: nat)
    ensures h * n + k * n == (h + k) * n
  {
  }

  /** Number of bindings of `roleId` on `moduleId`. */
  function BindingCount(bs: seq<RoleModuleBinding>, roleId: string, moduleId: string): nat
  {
    if |bs| == 0 then 0
    else (if bs[0].roleId == roleId && bs[0].moduleId == moduleId then 1 else 0)
         + BindingCount(bs[1..], roleId, moduleId)
  }

  lemma {:induction false} MatchCountIsBindingCount(bs: seq<RoleModuleBinding>, roleId: string,
                                                    on: (ModuleApi, RoleModuleBinding) -> bool)
    requires forall x, b :: on(x, b) == (b.roleId == roleId && b.moduleId == x.moduleId)
    ensures forall x :: MatchCount(x, bs, on) == BindingCount(bs, roleId, x.moduleId)
    decreases |bs|
  {
    if |bs| != 0 {
      MatchCountIsBindingCount(bs[1..], roleId, on);
    }
  }

  /** WHERE condition: the api's visibility flag for `portal` is 1. */
  function VisibleTo(portal: string): ModuleApi -> bool
  {
    (a: ModuleApi) => portal in a.visiblePortals
  }

  /** JOIN condition: the binding belongs to the role and is on the api's module. */
  function OnRoleModule(roleId: string): (ModuleApi, RoleModuleBinding) -> bool
  {
    (a: ModuleApi, b: RoleModuleBinding) => b.roleId == roleId && b.moduleId == a.moduleId
  }

  /** JOIN condition: the binding belongs to the role. */
  function OnRole(roleId: string): (ModuleApi, RoleModuleBinding) -> bool
  {
    (a: ModuleApi, b: RoleModuleBinding) => b.roleId == roleId
  }

  /** The role has at least one binding. */
  predicate RoleHasBinding(bs: seq<RoleModuleBinding>, roleId: string)
  {
    exists b :: b in bs && b.roleId == roleId
  }

  /** The role has a binding on the module. */
  predicate ModuleBound(bs: seq<RoleModuleBinding>, roleId: string, moduleId: string)
  {
    exists b :: b in bs && b.roleId == roleId && b.moduleId == moduleId
  }

  /** The join on role and module keeps the visible apis whose module is bound to the role. */
  lemma JoinOnRoleModule(apis: seq<ModuleApi>, bs: seq<RoleModuleBinding>, portal: string, roleId: string)
    ensures forall a :: a in InnerJoin(apis, bs, VisibleTo(portal), OnRoleModule(roleId)) <==>
      a in apis && portal in a.visiblePortals && ModuleBound(bs, roleId, a.moduleId)
  {
    var rows := InnerJoin(apis, bs, VisibleTo(portal), OnRoleModule(roleId));
    forall a
      ensures a in rows <==> a in apis && portal in a.visiblePortals && ModuleBound(bs, roleId, a.moduleId)
    {
      if a in rows {
        var b :| b in bs && OnRoleModule(roleId)(a, b);
        assert b.roleId == roleId && b.moduleId == a.moduleId;
      }
      if a in apis && portal in a.visiblePortals && ModuleBound(bs, roleId, a.moduleId) {
        var b :| b in bs && b.roleId == roleId && b.moduleId == a.moduleId;
        assert VisibleTo(portal)(a) && OnRoleModule(roleId)(a, b);
      }
    }
  }

  /** The join on the role alone keeps every visible api once the role has any binding. */
  lemma JoinOnRole(apis: seq<ModuleApi>, bs: seq<RoleModuleBinding>, portal: string, roleId: string)
    ensures forall a :: a in InnerJoin(apis, bs, VisibleTo(portal), OnRole(roleId)) <==>
      a in apis && portal in a.visiblePortals && RoleHasBinding(bs, roleId)
  {
    var rows := InnerJoin(apis, bs, VisibleTo(portal), OnRole(roleId));
    forall a
      ensures a in rows <==> a in apis && portal in a.visiblePortals && RoleHasBinding(bs, roleId)
    {
      if a in rows {
        var b :| b in bs && OnRole(roleId)(a, b);
        assert b.roleId == roleId;
      }
      if a in apis && portal in a.visiblePortals && RoleHasBinding(bs, roleId) {
        var b :| b in bs && b.roleId == roleId;
        assert VisibleTo(portal)(a) && OnRole(roleId)(a, b);
      }
    }
  }

  /** The module apis whose module is bound to `roleId` and whose visibility
      flag for the role's portal is 1; a failed role lookup is the error. */
  function GetVisibilityModuleApis(db: Db, roleId: string): (r: Result<seq<ModuleApi>>)
    ensures r.Success? <==>
      GetRole(db, roleId).Success? && VisibleApisQuery !in db.failing
    ensures r.Failure? ==>
      r.error == if GetRole(db, roleId).Failure? then GetRole(db, roleId).error
                 else Internal(VisibleApisQuery)
    ensures r.Success? ==> forall a :: a in r.value <==>
      && a in db.moduleApis
      && GetRole(db, roleId).value.portal in a.visiblePortals
      && ModuleBound(db.bindings, roleId, a.moduleId)
  {
    var role :- GetRole(db, roleId);
    if VisibleApisQuery in db.failing then Failure(Internal(VisibleApisQuery))
    else
      JoinOnRoleModule(db.moduleApis, db.bindings, role.portal, roleId);
      Success(InnerJoin(db.moduleApis, db.bindings, VisibleTo(role.portal), OnRoleModule(roleId)))
  }

  /** Without GROUP BY, a visible api appears once per stored copy and per
      binding of the role on its module. */
  lemma VisibilityModuleApisMultiplicity(db: Db, roleId: string, a: ModuleApi)
    requires GetVisibilityModuleApis(db, roleId).Success?
    ensures multiset(GetVisibilityModuleApis(db, roleId).value)[a] ==
      if GetRole(db, roleId).value.portal in a.visiblePortals
      then multiset(db.moduleApis)[a] * BindingCount(db.bindings, roleId, a.moduleId)
      else 0
  {
    var portal := GetRole(db, roleId).value.portal;
    InnerJoinMultiplicityAt(db.moduleApis, db.bindings, VisibleTo(portal), OnRoleModule(roleId), a);
    MatchCountIsBindingCount(db.bindings, roleId, OnRoleModule(roleId));
  }

  // ---------------------------------------------------------------------------
  // Module ids visible to a role

  /** GROUP BY api_id, then the module id of each group's row. */
  function GroupedModuleIds(rows: seq<ModuleApi>): (r: seq<string>)
    ensures forall m :: m in r ==> exists a :: a in rows && a.moduleId == m
  {
    var groups := UniqueBy(rows, ApiIdOf);
    var ids := ModuleIdsOf(groups);
    assert forall i :: 0 <= i < |ids| ==> groups[i] in rows;
    ids
  }

  /** Within rows drawn from a table keyed by api id, grouping loses no module id. */
  lemma GroupedModuleIdsOfKeyedRows(rows: seq<ModuleApi>, table: seq<ModuleApi>)
    ensures UniqueApiIds(table) && (forall a :: a in rows ==> a in table) ==>
      forall a :: a in rows ==> a.moduleId in GroupedModuleIds(rows)
  {
    if UniqueApiIds(table) && (forall a :: a in rows ==> a in table) {
      var groups := UniqueBy(rows, ApiIdOf);
      forall a | a in rows
        ensures a.moduleId in GroupedModuleIds(rows)
      {
        assert ApiIdOf(a) in Keys(groups, ApiIdOf);
        var g :| g in groups && ApiIdOf(g) == ApiIdOf(a);
        SameKeySameElement(table, ApiIdOf, g, a);
        assert ModuleIdOf(g) in Keys(groups, ModuleIdOf);
      }
    }
  }

  /** The statement as written: the JOIN condition only fixes the binding's role
      and never relates the binding to the api, so each visible api survives as
      soon as the role has any binding at all; GROUP BY api_id keeps one row per
      api, and the module id of that row is returned. */
  function GetVisibilityModuleIdsAsWritten(db: Db, role: Role): (r: Result<seq<string>>)
    ensures r.Success? <==> VisibleModuleIdsQuery !in db.failing
    ensures r.Failure? ==> r.error == Internal(VisibleModuleIdsQuery)
    ensures r.Success? && UniqueApiIds(db.moduleApis) ==> forall m :: m in r.value <==>
      && RoleHasBinding(db.bindings, role.roleId)
      && exists a :: a in db.moduleApis && role.portal in a.visiblePortals && a.moduleId == m
  {
    if VisibleModuleIdsQuery in db.failing then Failure(Internal(VisibleModuleIdsQuery))
    else
      var rows := InnerJoin(db.moduleApis, db.bindings, VisibleTo(role.portal), OnRole(role.roleId));
      JoinOnRole(db.moduleApis, db.bindings, role.portal, role.roleId);
      GroupedModuleIdsOfKeyedRows(rows, db.moduleApis);
      Success(GroupedModuleIds(rows))
  }

  /** The statement with the evidently intended join: the binding must belong
      to the role AND be on the api's module, as in GetVisibilityModuleApis. */
  function GetVisibilityModuleIds(db: Db, role: Role): (r: Result<seq<string>>)
    ensures r.Success? <==> VisibleModuleIdsQuery !in db.failing
    ensures r.Failure? ==> r.error == Internal(VisibleModuleIdsQuery)
    ensures r.Success? && UniqueApiIds(db.moduleApis) ==> forall m :: m in r.value <==>
      exists a :: && a in db.moduleApis && role.portal in a.visiblePortals
                  && ModuleBound(db.bindings, role.roleId, a.moduleId) && a.moduleId == m
  {
    if VisibleModuleIdsQuery in db.failing then Failure(Internal(VisibleModuleIdsQuery))
    else
      var rows := InnerJoin(db.moduleApis, db.bindings, VisibleTo(role.portal), OnRoleModule(role.roleId));
      JoinOnRoleModule(db.moduleApis, db.bindings, role.portal, role.roleId);
      GroupedModuleIdsOfKeyedRows(rows, db.moduleApis);
      Success(GroupedModuleIds(rows))
  }
}
